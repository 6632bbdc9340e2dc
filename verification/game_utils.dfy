/** The deck helpers: building the 108-card deck, the Fisher-Yates
    shuffle, round-robin dealing and drawing off the end of a pile.
    The server carries identical copies of the builder and the shuffle;
    its dealer is the same loop, and the first loop of its drawer is the
    drawer below. */
module GameUtils {
  import opened CardTypes

  /** The colour and value of a card, without its id. */
  type Face = (Color, Value)

  const Colors: seq<Color> := [Red, Yellow, Green, Blue]
  const Numbers: seq<Value> := [Zero, One, Two, Three, Four, Five, Six, Seven, Eight, Nine]
  const Actions: seq<Value> := [Skip, Reverse, Draw2]
  const Wilds: seq<Value> := [WildValue, WildDraw4]
  /** `numbers.slice(1)`: the digits dealt twice per colour. */
  const Digits: seq<Value> := [One, Two, Three, Four, Five, Six, Seven, Eight, Nine]

  const DeckSize: nat := 108

  // ---------------------------------------------------------------------
  // The canonical card order of the builder

  /** Each value of `vs` twice, in colour `c`. */
  function Pairs(c: Color, vs: seq<Value>): (faces: seq<Face>)
    decreases |vs|
  {
    if vs == [] then [] else Pairs(c, vs[..|vs| - 1]) + [(c, vs[|vs| - 1]), (c, vs[|vs| - 1])]
  }

  /** One '0' and two of each of '1' to '9' in colour `c`. */
  function NumberFaces(c: Color): (faces: seq<Face>) {
    [(c, Zero)] + Pairs(c, Digits)
  }

  function NumberSection(cs: seq<Color>): (faces: seq<Face>)
    decreases |cs|
  {
    if cs == [] then [] else NumberSection(cs[..|cs| - 1]) + NumberFaces(cs[|cs| - 1])
  }

  function ActionSection(cs: seq<Color>): (faces: seq<Face>)
    decreases |cs|
  {
    if cs == [] then [] else ActionSection(cs[..|cs| - 1]) + Pairs(cs[|cs| - 1], Actions)
  }

  /** `k` wild cards of value `v`. */
  function WildRun(v: Value, k: nat): (faces: seq<Face>) {
    seq(k, _ => (Wild, v))
  }

  function WildSection(ws: seq<Value>): (faces: seq<Face>)
    decreases |ws|
  {
    if ws == [] then [] else WildSection(ws[..|ws| - 1]) + WildRun(ws[|ws| - 1], 4)
  }

  /** The faces in the order the builder pushes them. */
  function Faces(): (faces: seq<Face>) {
    NumberSection(Colors) + ActionSection(Colors) + WildSection(Wilds)
  }

  /** How many copies of each colour and value a full deck holds. */
  function Copies(c: Color, v: Value): (copies: nat) {
    if c == Wild then (if IsWildValue(v) then 4 else 0)
    else if IsWildValue(v) then 0
    else if v == Zero then 1
    else 2
  }

  // ---------------------------------------------------------------------
  // Counting the canonical order

  lemma {:induction false} PairsCount(c: Color, vs: seq<Value>, f: Face)
    ensures |Pairs(c, vs)| == 2 * |vs|
    ensures multiset(Pairs(c, vs))[f] == if f.0 == c then 2 * multiset(vs)[f.1] else 0
    decreases |vs|
  {
    if vs != [] {
      var init, last := vs[..|vs| - 1], vs[|vs| - 1];
      assert vs == init + [last];
      PairsCount(c, init, f);
    }
  }

  /** Without its last item, a list without repeats still has none, and
      does not hold that item. */
  lemma DistinctSplit<T>(s: seq<T>)
    requires Distinct(s) && s != []
    ensures Distinct(s[..|s| - 1]) && s[|s| - 1] !in s[..|s| - 1]
  {
    var init := s[..|s| - 1];
    forall i, j | 0 <= i < j < |init| ensures init[i] != init[j] {
      assert s[i] != s[j];
    }
    forall k | 0 <= k < |init| ensures init[k] != s[|s| - 1] {
      assert s[k] != s[|s| - 1];
    }
  }

  /** A list without repeats holds each item once or not at all. */
  lemma {:induction false} DistinctCount<T>(s: seq<T>, x: T)
    requires Distinct(s)
    ensures multiset(s)[x] == if x in s then 1 else 0
    decreases |s|
  {
    if s != [] {
      var init, last := s[..|s| - 1], s[|s| - 1];
      assert s == init + [last];
      DistinctSplit(s);
      DistinctCount(init, x);
    }
  }

  /** The builder's digit list names each value at most once. */
  lemma DigitCount(v: Value)
    ensures multiset(Digits)[v] == (if v in Digits then 1 else 0)
  {
    DistinctCount(Digits, v);
  }

  /** The builder's action list names each value at most once. */
  lemma ActionCount(v: Value)
    ensures multiset(Actions)[v] == (if v in Actions then 1 else 0)
  {
    DistinctCount(Actions, v);
  }

  /** Every value is exactly one of '0', a digit, an action or a wild value. */
  lemma ValueKinds(v: Value)
    ensures v in Wilds <==> IsWildValue(v)
    ensures v == Zero ==> v !in Digits && v !in Actions && !IsWildValue(v)
    ensures v in Digits ==> v !in Actions && !IsWildValue(v)
    ensures v in Actions ==> !IsWildValue(v)
    ensures v == Zero || v in Digits || v in Actions || IsWildValue(v)
  {
    match v
    case Zero => case One => case Two => case Three => case Four => case Five => case Six =>
    case Seven => case Eight => case Nine =>
    case Skip => case Reverse => case Draw2 => case WildValue => case WildDraw4 =>
  }

  lemma NumberFacesCount(c: Color, f: Face)
    ensures |NumberFaces(c)| == 19
    ensures multiset(NumberFaces(c))[f] ==
      if f.0 != c then 0 else if f.1 == Zero then 1 else if f.1 in Digits then 2 else 0
  {
    PairsCount(c, Digits, f);
    DigitCount(f.1);
    ValueKinds(f.1);
  }

  lemma {:induction false} NumberSectionCount(cs: seq<Color>, f: Face)
    requires Distinct(cs)
    ensures |NumberSection(cs)| == 19 * |cs|
    ensures multiset(NumberSection(cs))[f] ==
      if f.0 !in cs then 0 else if f.1 == Zero then 1 else if f.1 in Digits then 2 else 0
    decreases |cs|
  {
    if cs != [] {
      var init, last := cs[..|cs| - 1], cs[|cs| - 1];
      assert NumberSection(cs) == NumberSection(init) + NumberFaces(last);
      assert Distinct(init) && last !in init by { DistinctSplit(cs); }
      assert f.0 in cs <==> f.0 in init || f.0 == last by { assert cs == init + [last]; }
      NumberSectionCount(init, f);
      NumberFacesCount(last, f);
    }
  }

  lemma {:induction false} ActionSectionCount(cs: seq<Color>, f: Face)
    requires Distinct(cs)
    ensures |ActionSection(cs)| == 6 * |cs|
    ensures multiset(ActionSection(cs))[f] == if f.0 in cs && f.1 in Actions then 2 else 0
    decreases |cs|
  {
    if cs != [] {
      var init, last := cs[..|cs| - 1], cs[|cs| - 1];
      assert ActionSection(cs) == ActionSection(init) + Pairs(last, Actions);
      assert Distinct(init) && last !in init by { DistinctSplit(cs); }
      assert f.0 in cs <==> f.0 in init || f.0 == last by { assert cs == init + [last]; }
      assert |Pairs(last, Actions)| == 6 && multiset(Pairs(last, Actions))[f] == if f.0 == last && f.1 in Actions then 2 else 0 by {
        PairsCount(last, Actions, f);
        ActionCount(f.1);
      }
      ActionSectionCount(init, f);
    }
  }

  lemma WildRunCount(v: Value, k: nat, f: Face)
    ensures multiset(WildRun(v, k))[f] == if f == (Wild, v) then k else 0
  {
    if k > 0 {
      assert WildRun(v, k) == WildRun(v, k - 1) + [(Wild, v)];
      WildRunCount(v, k - 1, f);
    }
  }

  lemma {:induction false} WildSectionCount(ws: seq<Value>, f: Face)
    requires Distinct(ws)
    ensures |WildSection(ws)| == 4 * |ws|
    ensures multiset(WildSection(ws))[f] == if f.0 == Wild && f.1 in ws then 4 else 0
    decreases |ws|
  {
    if ws != [] {
      var init, last := ws[..|ws| - 1], ws[|ws| - 1];
      assert ws == init + [last];
      WildSectionCount(init, f);
      WildRunCount(last, 4, f);
    }
  }

  lemma ColorsList(c: Color)
    ensures c in Colors <==> c != Wild
  {
    match c
    case Red => case Yellow => case Green => case Blue => case Wild =>
  }

  lemma ListsDistinct()
    ensures Distinct(Colors) && Distinct(Wilds)
  {
  }

  lemma FacesLength()
    ensures |Faces()| == DeckSize
  {
    ListsDistinct();
    var f := (Red, Zero);
    NumberSectionCount(Colors, f);
    ActionSectionCount(Colors, f);
    WildSectionCount(Wilds, f);
  }

  lemma FaceCount(c: Color, v: Value)
    ensures multiset(Faces())[(c, v)] == Copies(c, v)
  {
    ListsDistinct();
    NumberSectionCount(Colors, (c, v));
    ActionSectionCount(Colors, (c, v));
    WildSectionCount(Wilds, (c, v));
    ValueKinds(v);
    ColorsList(c);
  }

  /** The builder's order holds 108 cards: in each of the four colours one '0'
      and two each of '1'-'9', skip, reverse and draw2, and four 'wild' and
      four 'wild_draw4' of colour wild. */
  lemma DeckComposition()
    ensures |Faces()| == DeckSize
    ensures forall c: Color, v: Value :: multiset(Faces())[(c, v)] == Copies(c, v)
  {
    FacesLength();
    forall c: Color, v: Value ensures multiset(Faces())[(c, v)] == Copies(c, v) {
      FaceCount(c, v);
    }
  }

  /** Every face the builder produces puts a wild value exactly on a wild card. */
  lemma FacesWellFormed()
    ensures forall k :: 0 <= k < |Faces()| ==> WellFormed(Card("", Faces()[k].0, Faces()[k].1))
  {
    forall k | 0 <= k < |Faces()| ensures WellFormed(Card("", Faces()[k].0, Faces()[k].1)) {
      var f := Faces()[k];
      FaceCount(f.0, f.1);
      assert f in multiset(Faces());
    }
  }

  // ---------------------------------------------------------------------
  // Randomness as input

  /** Fisher-Yates swap partners: position `i` swaps with `swaps[i]`, which
      lies in `[0, i]` as `Math.floor(Math.random() * (i + 1))` does. */
  predicate SwapsFit(swaps: seq<int>, n: nat) {
    |swaps| == n && forall i :: 0 <= i < n ==> 0 <= swaps[i] <= i
  }

  /** What one call of the deck builder consumes: 108 fresh ids (one per
      `uuidv4()` call, in call order) and the shuffle's swap partners. */
  datatype DeckSource = DeckSource(ids: seq<string>, swaps: seq<int>)

  predicate ValidSource(src: DeckSource) {
    |src.ids| == DeckSize && SwapsFit(src.swaps, DeckSize)
  }

  // ---------------------------------------------------------------------
  // Shuffling

  function Swap(s: seq<Card>, i: nat, j: nat): (t: seq<Card>)
    requires i < |s| && j < |s|
    ensures |t| == |s|
  {
    s[i := s[j]][j := s[i]]
  }

  lemma SwapPermutes(s: seq<Card>, i: nat, j: nat)
    requires i < |s| && j < |s|
    ensures |Swap(s, i, j)| == |s| && multiset(Swap(s, i, j)) == multiset(s)
  {
  }

  /** The shuffle's remaining work: swap positions `i`, `i - 1`, ..., `1`
      with their partners. */
  function FisherYates(s: seq<Card>, swaps: seq<int>, i: int): (t: seq<Card>)
    requires SwapsFit(swaps, |s|) && -1 <= i < |s|
    ensures |t| == |s|
    decreases i + 1
  {
    if i <= 0 then s else FisherYates(Swap(s, i, swaps[i]), swaps, i - 1)
  }

  function Shuffled(s: seq<Card>, swaps: seq<int>): (t: seq<Card>)
    requires SwapsFit(swaps, |s|)
    ensures |t| == |s|
  {
    FisherYates(s, swaps, |s| - 1)
  }

  /** Whatever the swap partners, the shuffle only reorders. */
  lemma {:induction false} FisherYatesPermutes(s: seq<Card>, swaps: seq<int>, i: int)
    requires SwapsFit(swaps, |s|) && -1 <= i < |s|
    ensures |FisherYates(s, swaps, i)| == |s|
    ensures multiset(FisherYates(s, swaps, i)) == multiset(s)
    decreases i + 1
  {
    if i > 0 {
      var t := Swap(s, i, swaps[i]);
      SwapPermutes(s, i, swaps[i]);
      FisherYatesPermutes(t, swaps, i - 1);
    }
  }

  /** `shuffleDeck`: copy the deck, then swap from the last position down to 1. */
  method ShuffleDeck(deck: seq<Card>, swaps: seq<int>) returns (shuffled: seq<Card>)
    requires SwapsFit(swaps, |deck|)
    ensures shuffled == Shuffled(deck, swaps)
    ensures |shuffled| == |deck| && multiset(shuffled) == multiset(deck)
  {
    var a := new Card[|deck|](k requires 0 <= k < |deck| => deck[k]);
    assert a[..] == deck;
    var i := |deck| - 1;
    while i > 0
      invariant -1 <= i < |deck| && a.Length == |deck|
      invariant FisherYates(a[..], swaps, i) == Shuffled(deck, swaps)
      invariant multiset(a[..]) == multiset(deck)
    {
      var j := swaps[i];
      ghost var before := a[..];
      SwapPermutes(before, i, j);
      a[i], a[j] := a[j], a[i];
      assert a[..] == Swap(before, i, j);
      i := i - 1;
    }
    shuffled := a[..];
  }

  // ---------------------------------------------------------------------
  // Building the deck

  /** `faces` with the k-th card carrying the k-th fresh id. */
  function Stamp(ids: seq<string>, faces: seq<Face>): (cards: seq<Card>)
    requires |faces| <= |ids|
  {
    seq(|faces|, k requires 0 <= k < |faces| => Card(ids[k], faces[k].0, faces[k].1))
  }

  lemma StampSnoc(ids: seq<string>, faces: seq<Face>, f: Face)
    requires |faces| < |ids|
    ensures Stamp(ids, faces + [f]) == Stamp(ids, faces) + [Card(ids[|faces|], f.0, f.1)]
  {
  }

  lemma PairsSnoc(c: Color, vs: seq<Value>, k: nat)
    requires k < |vs|
    ensures Pairs(c, vs[..k + 1]) == Pairs(c, vs[..k]) + [(c, vs[k]), (c, vs[k])]
  {
    assert vs[..k + 1][..k] == vs[..k];
  }

  lemma PairsLength(c: Color, vs: seq<Value>)
    ensures |Pairs(c, vs)| == 2 * |vs|
  {
    PairsCount(c, vs, (c, Zero));
  }

  /** The deck before shuffling: the builder's order with fresh ids. */
  function Unshuffled(ids: seq<string>): (deck: seq<Card>)
    requires |ids| == DeckSize
    ensures |deck| == DeckSize
  {
    FacesLength();
    Stamp(ids, Faces())
  }

  /** The deck `createDeck` returns for the given ids and swap partners. */
  function NewDeck(src: DeckSource): (deck: seq<Card>)
    requires ValidSource(src)
    ensures |deck| == DeckSize
  {
    FacesLength();
    Shuffled(Unshuffled(src.ids), src.swaps)
  }

  /** The inner `forEach` of the first two blocks: push two cards of each
      value of `vs` in colour `color`, each with the next fresh id. */
  method PushPairs(ids: seq<string>, color: Color, vs: seq<Value>, cards0: seq<Card>, ghost done: seq<Face>)
    returns (cards: seq<Card>)
    requires |done| + 2 * |vs| <= |ids| && cards0 == Stamp(ids, done)
    ensures |Pairs(color, vs)| == 2 * |vs|
    ensures cards == Stamp(ids, done + Pairs(color, vs))
  {
    PairsLength(color, vs);
    cards := cards0;
    for k := 0 to |vs|
      invariant |Pairs(color, vs[..k])| == 2 * k
      invariant cards == Stamp(ids, done + Pairs(color, vs[..k]))
    {
      var v := vs[k];
      ghost var before := done + Pairs(color, vs[..k]);
      StampSnoc(ids, before, (color, v));
      cards := cards + [Card(ids[|cards|], color, v)];
      StampSnoc(ids, before + [(color, v)], (color, v));
      cards := cards + [Card(ids[|cards|], color, v)];
      PairsSnoc(color, vs, k);
      PairsLength(color, vs[..k + 1]);
      assert before + [(color, v)] + [(color, v)] == done + Pairs(color, vs[..k + 1]);
    }
    assert vs[..|vs|] == vs;
  }

  /** The first block of `createDeck`: per colour, one '0' and two of each of '1' to '9'. */
  method AddNumberCards(ids: seq<string>) returns (cards: seq<Card>)
    requires |ids| == DeckSize
    ensures |NumberSection(Colors)| == 76
    ensures cards == Stamp(ids, NumberSection(Colors))
  {
    ListsDistinct();
    cards := [];
    for ci := 0 to |Colors|
      invariant |NumberSection(Colors[..ci])| == 19 * ci
      invariant cards == Stamp(ids, NumberSection(Colors[..ci]))
    {
      var color := Colors[ci];
      ghost var done := NumberSection(Colors[..ci]);
      StampSnoc(ids, done, (color, Zero));
      cards := cards + [Card(ids[|cards|], color, Zero)];
      var digits := Numbers[1..];
      assert digits == Digits;
      PairsLength(color, Digits);
      cards := PushPairs(ids, color, digits, cards, done + [(color, Zero)]);
      assert Colors[..ci + 1][..ci] == Colors[..ci];
      assert NumberSection(Colors[..ci + 1]) == done + NumberFaces(color);
    }
    assert Colors[..4] == Colors;
  }

  /** The second block: per colour, two each of skip, reverse and draw2. */
  method AddActionCards(ids: seq<string>, numbers: seq<Card>) returns (cards: seq<Card>)
    requires |ids| == DeckSize && |NumberSection(Colors)| == 76
    requires numbers == Stamp(ids, NumberSection(Colors))
    ensures |ActionSection(Colors)| == 24
    ensures cards == Stamp(ids, NumberSection(Colors) + ActionSection(Colors))
  {
    ListsDistinct();
    ghost var prefix := NumberSection(Colors);
    cards := numbers;
    assert prefix + ActionSection(Colors[..0]) == prefix;
    for ci := 0 to |Colors|
      invariant |ActionSection(Colors[..ci])| == 6 * ci
      invariant cards == Stamp(ids, prefix + ActionSection(Colors[..ci]))
    {
      var color := Colors[ci];
      ghost var done := prefix + ActionSection(Colors[..ci]);
      PairsLength(color, Actions);
      cards := PushPairs(ids, color, Actions, cards, done);
      assert Colors[..ci + 1][..ci] == Colors[..ci];
      assert ActionSection(Colors[..ci + 1]) == ActionSection(Colors[..ci]) + Pairs(color, Actions);
      assert done + Pairs(color, Actions) == prefix + ActionSection(Colors[..ci + 1]);
    }
    assert Colors[..4] == Colors;
  }

  /** The third block: four 'wild' and four 'wild_draw4' of colour wild. */
  method AddWildCards(ids: seq<string>, coloured: seq<Card>) returns (cards: seq<Card>)
    requires |ids| == DeckSize && |NumberSection(Colors) + ActionSection(Colors)| == 100
    requires coloured == Stamp(ids, NumberSection(Colors) + ActionSection(Colors))
    ensures |Faces()| == DeckSize
    ensures cards == Stamp(ids, Faces())
  {
    ListsDistinct();
    ghost var prefix := NumberSection(Colors) + ActionSection(Colors);
    cards := coloured;
    assert prefix + WildSection(Wilds[..0]) == prefix;
    for wi := 0 to |Wilds|
      invariant |WildSection(Wilds[..wi])| == 4 * wi
      invariant cards == Stamp(ids, prefix + WildSection(Wilds[..wi]))
    {
      var v := Wilds[wi];
      ghost var done := prefix + WildSection(Wilds[..wi]);
      for k := 0 to 4
        invariant cards == Stamp(ids, done + WildRun(v, k))
      {
        StampSnoc(ids, done + WildRun(v, k), (Wild, v));
        cards := cards + [Card(ids[|cards|], Wild, v)];
        assert WildRun(v, k + 1) == WildRun(v, k) + [(Wild, v)];
        assert done + WildRun(v, k) + [(Wild, v)] == done + WildRun(v, k + 1);
      }
      assert Wilds[..wi + 1][..wi] == Wilds[..wi];
      assert WildSection(Wilds[..wi + 1]) == WildSection(Wilds[..wi]) + WildRun(v, 4);
      assert done + WildRun(v, 4) == prefix + WildSection(Wilds[..wi + 1]);
    }
    assert Wilds[..2] == Wilds;
    FacesLength();
  }

  /** `createDeck`: push the number cards colour by colour, then the action
      cards colour by colour, then the wild cards, each with a fresh id;
      return the shuffled result. */
  method CreateDeck(src: DeckSource) returns (deck: seq<Card>)
    requires ValidSource(src)
    ensures deck == NewDeck(src)
    ensures |deck| == DeckSize
    ensures multiset(deck) == multiset(Unshuffled(src.ids))
  {
    var cards := AddNumberCards(src.ids);
    cards := AddActionCards(src.ids, cards);
    cards := AddWildCards(src.ids, cards);
    deck := ShuffleDeck(cards, src.swaps);
  }

  lemma UniqueCount(u: seq<Card>, a: nat)
    requires Distinct(Ids(u)) && a < |u|
    ensures multiset(u)[u[a]] == 1
  {
    assert u == u[..a] + [u[a]] + u[a + 1..];
    assert u[a] !in u[..a] by {
      forall k | 0 <= k < a ensures u[k] != u[a] { assert Ids(u)[k] != Ids(u)[a]; }
    }
    assert u[a] !in u[a + 1..] by {
      forall k | a + 1 <= k < |u| ensures u[k] != u[a] { assert Ids(u)[a] != Ids(u)[k]; }
    }
  }

  lemma RepeatCount(d: seq<Card>, i: nat, j: nat)
    requires i < j < |d| && d[i] == d[j]
    ensures multiset(d)[d[i]] >= 2
  {
    assert d == d[..i] + [d[i]] + d[i + 1..j] + [d[j]] + d[j + 1..];
  }

  /** Reordering cards whose ids are distinct keeps the ids distinct. */
  lemma PermutationKeepsIdsDistinct(u: seq<Card>, d: seq<Card>)
    requires multiset(u) == multiset(d) && Distinct(Ids(u))
    ensures Distinct(Ids(d))
  {
    forall i, j | 0 <= i < j < |d| ensures Ids(d)[i] != Ids(d)[j] {
      assert d[i] in multiset(u) && d[j] in multiset(u);
      var a :| 0 <= a < |u| && u[a] == d[i];
      var b :| 0 <= b < |u| && u[b] == d[j];
      if a == b {
        RepeatCount(d, i, j);
        UniqueCount(u, a);
        assert false;
      } else if a < b {
        assert Ids(u)[a] != Ids(u)[b];
      } else {
        assert Ids(u)[b] != Ids(u)[a];
      }
    }
  }

  /** Distinct fresh ids give a deck in which no two cards share an id. */
  lemma NewDeckIdsDistinct(src: DeckSource)
    requires ValidSource(src) && Distinct(src.ids)
    ensures |NewDeck(src)| == DeckSize
    ensures Distinct(Ids(NewDeck(src)))
  {
    var u := Unshuffled(src.ids);
    FacesLength();
    FisherYatesPermutes(u, src.swaps, |u| - 1);
    assert Ids(u) == src.ids;
    PermutationKeepsIdsDistinct(u, NewDeck(src));
  }

  /** A new deck is a reordering of the builder's cards, all well-formed. */
  lemma NewDeckComposition(src: DeckSource)
    requires ValidSource(src)
    ensures |NewDeck(src)| == DeckSize
    ensures AllWellFormed(NewDeck(src))
    ensures multiset(NewDeck(src)) == multiset(Unshuffled(src.ids))
  {
    var u := Unshuffled(src.ids);
    FacesLength();
    FisherYatesPermutes(u, src.swaps, |u| - 1);
    FacesLength();
    FacesWellFormed();
    var d := NewDeck(src);
    forall k | 0 <= k < |d| ensures WellFormed(d[k]) {
      assert d[k] in multiset(u);
      var a :| 0 <= a < |u| && u[a] == d[k];
      assert WellFormed(Card("", Faces()[a].0, Faces()[a].1));
    }
  }

  // ---------------------------------------------------------------------
  // Drawing off the end of a pile

  function Reversed(s: seq<Card>): (t: seq<Card>) {
    seq(|s|, k requires 0 <= k < |s| => s[|s| - 1 - k])
  }

  lemma ReversedTwice(s: seq<Card>)
    ensures Reversed(Reversed(s)) == s
  {
  }

  /** The last `k` cards of `pile`, in the order popping yields them. */
  function Popped(pile: seq<Card>, k: nat): (cards: seq<Card>)
    requires k <= |pile|
  {
    Reversed(pile[|pile| - k..])
  }

  /** Every card popped comes from the pile. */
  lemma PoppedFromPile(pile: seq<Card>, k: nat)
    requires k <= |pile|
    ensures forall card :: card in Popped(pile, k) ==> card in pile
  {
    forall card | card in Popped(pile, k)
      ensures card in pile
    {
      var j :| 0 <= j < k && Popped(pile, k)[j] == card;
      assert card == pile[|pile| - 1 - j];
    }
  }

  /** `pile` after popping `k` cards. */
  function Remaining(pile: seq<Card>, k: nat): (rest: seq<Card>)
    requires k <= |pile|
  {
    pile[..|pile| - k]
  }

  /** Popping one more card appends the next card from the end. */
  lemma PoppedNext(pile: seq<Card>, k: nat)
    requires k < |pile|
    ensures Popped(pile, k + 1) == Popped(pile, k) + [pile[|pile| - 1 - k]]
  {
  }

  /** The pile left, followed by the popped cards put back in order, is the pile. */
  lemma PoppedRestores(pile: seq<Card>, k: nat)
    requires k <= |pile|
    ensures Remaining(pile, k) + Reversed(Popped(pile, k)) == pile
  {
    ReversedTwice(pile[|pile| - k..]);
    assert pile[..|pile| - k] + pile[|pile| - k..] == pile;
  }

  /** `drawCards`: pop up to `count` cards off the end of a copy of `deck`;
      an exhausted deck is not refilled. */
  method DrawCards(deck: seq<Card>, count: nat) returns (cards: seq<Card>, updatedDeck: seq<Card>)
    ensures |cards| == Min(count, |deck|)
    ensures cards == Popped(deck, |cards|) && updatedDeck == Remaining(deck, |cards|)
    ensures updatedDeck + Reversed(cards) == deck
  {
    updatedDeck := deck;
    cards := [];
    var i := 0;
    while i < count && |updatedDeck| > 0
      invariant 0 <= i <= count && i <= |deck|
      invariant |cards| == i
      invariant updatedDeck == deck[..|deck| - i]
      invariant cards == Popped(deck, i)
    {
      var card := updatedDeck[|updatedDeck| - 1];
      PoppedNext(deck, i);
      updatedDeck := updatedDeck[..|updatedDeck| - 1];
      cards := cards + [card];
      i := i + 1;
    }
    PoppedRestores(deck, i);
  }

  // ---------------------------------------------------------------------
  // Dealing

  /** What seat `p` of `n` holds after `rounds` rounds of dealing off the
      end of `deck`: in round `r` the card `r * n + p` places from the end,
      while the deck lasts. */
  function Dealt(deck: seq<Card>, n: nat, p: nat, rounds: nat): (hand: seq<Card>)
    requires p < n
  {
    if rounds == 0 then []
    else
      var k := (rounds - 1) * n + p;
      Dealt(deck, n, p, rounds - 1) + if k < |deck| then [deck[|deck| - 1 - k]] else []
  }

  /** All the cards in a list of hands. */
  function HandsUnion(hands: seq<seq<Card>>): (cards: multiset<Card>)
    decreases |hands|
  {
    if hands == [] then multiset{} else HandsUnion(hands[..|hands| - 1]) + multiset(hands[|hands| - 1])
  }

  lemma {:induction false} HandsUnionEmpty(n: nat)
    ensures HandsUnion(seq<seq<Card>>(n, _ => [])) == multiset{}
  {
    if n > 0 {
      var none: seq<seq<Card>> := seq(n, _ => []);
      assert none[..n - 1] == seq(n - 1, _ => []);
      HandsUnionEmpty(n - 1);
    }
  }

  lemma {:induction false} HandsUnionPush(hands: seq<seq<Card>>, j: nat, c: Card)
    requires j < |hands|
    ensures HandsUnion(hands[j := hands[j] + [c]]) == HandsUnion(hands) + multiset{c}
    decreases |hands|
  {
    var h := hands[j := hands[j] + [c]];
    var last := |hands| - 1;
    if j < last {
      assert h[..last] == hands[..last][j := hands[j] + [c]];
      HandsUnionPush(hands[..last], j, c);
    } else {
      assert h[..last] == hands[..last];
    }
  }

  /** One more round deals seat `p` the card `i * n + p` places from the end, if there is one. */
  lemma DealtNext(deck: seq<Card>, n: nat, p: nat, i: nat)
    requires p < n
    ensures Dealt(deck, n, p, i + 1)
         == Dealt(deck, n, p, i) + if i * n + p < |deck| then [deck[|deck| - 1 - (i * n + p)]] else []
  {
    assert (i + 1 - 1) * n + p == i * n + p;
  }

  /** The hands after seat `j` of round `i` takes the last card of `rest`, if any. */
  lemma DealOneHands(deck: seq<Card>, n: nat, i: nat, j: nat, dealt: nat,
                     hands0: seq<seq<Card>>, rest0: seq<Card>, hands: seq<seq<Card>>)
    requires dealt == i * n && j < n && |hands0| == n
    requires forall p :: 0 <= p < j ==> hands0[p] == Dealt(deck, n, p, i + 1)
    requires forall p :: j <= p < n ==> hands0[p] == Dealt(deck, n, p, i)
    requires |rest0| == |deck| - Min(dealt + j, |deck|) && rest0 == deck[..|rest0|]
    requires hands == if |rest0| > 0 then hands0[j := hands0[j] + [rest0[|rest0| - 1]]] else hands0
    ensures |hands| == n
    ensures forall p :: 0 <= p < j + 1 ==> hands[p] == Dealt(deck, n, p, i + 1)
    ensures forall p :: j + 1 <= p < n ==> hands[p] == Dealt(deck, n, p, i)
  {
    DealtNext(deck, n, j, i);
    ghost var k := i * n + j;
    assert k == dealt + j;
    if |rest0| > 0 {
      assert dealt + j < |deck|;
      assert |rest0| - 1 == |deck| - 1 - k;
      assert rest0[|rest0| - 1] == deck[|deck| - 1 - k];
    }
    assert hands[j] == Dealt(deck, n, j, i + 1);
  }

  /** One pop of `dealCards`: seat `j` of round `i` takes the last card of `rest0`, if any. */
  method DealOne(deck: seq<Card>, n: nat, i: nat, j: nat, dealt: nat, hands0: seq<seq<Card>>, rest0: seq<Card>)
    returns (hands: seq<seq<Card>>, rest: seq<Card>)
    requires dealt == i * n && j < n && |hands0| == n
    requires forall p :: 0 <= p < j ==> hands0[p] == Dealt(deck, n, p, i + 1)
    requires forall p :: j <= p < n ==> hands0[p] == Dealt(deck, n, p, i)
    requires |rest0| == |deck| - Min(dealt + j, |deck|) && rest0 == deck[..|rest0|]
    requires HandsUnion(hands0) + multiset(rest0) == multiset(deck)
    ensures |hands| == n
    ensures forall p :: 0 <= p < j + 1 ==> hands[p] == Dealt(deck, n, p, i + 1)
    ensures forall p :: j + 1 <= p < n ==> hands[p] == Dealt(deck, n, p, i)
    ensures |rest| == |deck| - Min(dealt + j + 1, |deck|) && rest == deck[..|rest|]
    ensures HandsUnion(hands) + multiset(rest) == multiset(deck)
  {
    hands, rest := hands0, rest0;
    if |rest| > 0 {
      var card := rest[|rest| - 1];
      PopKeepsUnion(hands, rest, j);
      rest := rest[..|rest| - 1];
      hands := hands[j := hands[j] + [card]];
    }
    PopKeepsPrefix(deck, dealt + j, rest0);
    DealOneHands(deck, n, i, j, dealt, hands0, rest0, hands);
  }

  /** Popping a pile that is a prefix of `deck` leaves a shorter prefix. */
  lemma PopKeepsPrefix(deck: seq<Card>, popped: nat, rest0: seq<Card>)
    requires |rest0| == |deck| - Min(popped, |deck|) && rest0 == deck[..|rest0|]
    ensures var rest := if |rest0| > 0 then rest0[..|rest0| - 1] else rest0;
      |rest| == |deck| - Min(popped + 1, |deck|) && rest == deck[..|rest|]
  {
  }

  /** One round of `dealCards`: one card per seat while the deck lasts.
      `dealt` is the number of pops already attempted, `i * n`. */
  method DealRound(deck: seq<Card>, n: nat, i: nat, dealt: nat, hands0: seq<seq<Card>>, rest0: seq<Card>)
    returns (hands: seq<seq<Card>>, rest: seq<Card>)
    requires dealt == i * n && |hands0| == n
    requires forall p :: 0 <= p < n ==> hands0[p] == Dealt(deck, n, p, i)
    requires |rest0| == |deck| - Min(dealt, |deck|) && rest0 == deck[..|rest0|]
    requires HandsUnion(hands0) + multiset(rest0) == multiset(deck)
    ensures |hands| == n
    ensures forall p :: 0 <= p < n ==> hands[p] == Dealt(deck, n, p, i + 1)
    ensures |rest| == |deck| - Min(dealt + n, |deck|) && rest == deck[..|rest|]
    ensures HandsUnion(hands) + multiset(rest) == multiset(deck)
  {
    hands, rest := hands0, rest0;
    for j := 0 to n
      invariant |hands| == n
      invariant forall p :: 0 <= p < j ==> hands[p] == Dealt(deck, n, p, i + 1)
      invariant forall p :: j <= p < n ==> hands[p] == Dealt(deck, n, p, i)
      invariant |rest| == |deck| - Min(dealt + j, |deck|) && rest == deck[..|rest|]
      invariant HandsUnion(hands) + multiset(rest) == multiset(deck)
    {
      hands, rest := DealOne(deck, n, i, j, dealt, hands, rest);
    }
  }

  /** Moving the last card of a pile into a hand keeps the cards all told. */
  lemma PopKeepsUnion(hands: seq<seq<Card>>, pile: seq<Card>, j: nat)
    requires j < |hands| && |pile| > 0
    ensures HandsUnion(hands[j := hands[j] + [pile[|pile| - 1]]]) + multiset(pile[..|pile| - 1])
         == HandsUnion(hands) + multiset(pile)
  {
    PopMultiset(pile);
    HandsUnionPush(hands, j, pile[|pile| - 1]);
  }

  /** Popping the last element takes exactly that element out of the multiset. */
  lemma PopMultiset(s: seq<Card>)
    requires |s| > 0
    ensures multiset(s) == multiset(s[..|s| - 1]) + multiset{s[|s| - 1]}
  {
    assert s == s[..|s| - 1] + [s[|s| - 1]];
  }

  /** `dealCards`: seven rounds, one card per seat per round, each popped
      off the end of a copy of `deck` while it lasts. */
  method DealCards(deck: seq<Card>, playerCount: nat) returns (hands: seq<seq<Card>>, remainingDeck: seq<Card>)
    ensures |hands| == playerCount
    ensures forall p :: 0 <= p < playerCount ==> hands[p] == Dealt(deck, playerCount, p, 7)
    ensures remainingDeck == deck[..|deck| - Min(7 * playerCount, |deck|)]
    ensures HandsUnion(hands) + multiset(remainingDeck) == multiset(deck)
  {
    var n := playerCount;
    hands := seq(n, _ => []);
    HandsUnionEmpty(n);
    remainingDeck := deck;
    var dealt := 0;
    for i := 0 to 7
      invariant dealt == i * n && |hands| == n
      invariant forall p :: 0 <= p < n ==> hands[p] == Dealt(deck, n, p, i)
      invariant |remainingDeck| == |deck| - Min(dealt, |deck|) && remainingDeck == deck[..|remainingDeck|]
      invariant HandsUnion(hands) + multiset(remainingDeck) == multiset(deck)
    {
      hands, remainingDeck := DealRound(deck, n, i, dealt, hands, remainingDeck);
      dealt := dealt + n;
      assert dealt == (i + 1) * n;
    }
  }

  /** When the deck holds at least a card per seat per round, every seat
      gets one card per round: in round `r`, seat `p` gets the card
      `r * n + p` places from the end. */
  lemma {:induction false} DealtFull(deck: seq<Card>, n: nat, p: nat, rounds: nat)
    requires p < n && rounds * n <= |deck|
    ensures |Dealt(deck, n, p, rounds)| == rounds
    ensures forall r :: 0 <= r < rounds ==>
      r * n + p < |deck| && Dealt(deck, n, p, rounds)[r] == deck[|deck| - 1 - (r * n + p)]
  {
    if rounds > 0 {
      assert (rounds - 1) * n + n == rounds * n;
      DealtFull(deck, n, p, rounds - 1);
    }
  }

  // ---------------------------------------------------------------------
  // Legality on the client

  /** The client's `canPlayCard`: a wild card, a colour match, a value
      match, and anything on a wild top card are all legal. */
  function CanPlayCard(card: Card, topCard: Card): (legal: bool)
    ensures card.color == Wild ==> legal
    ensures topCard.color == Wild ==> legal
    ensures legal <==> card.color == Wild || card.color == topCard.color || card.value == topCard.value || topCard.color == Wild
  {
    if card.color == Wild then true
    else if card.color == topCard.color then true
    else if card.value == topCard.value then true
    else if topCard.color == Wild then true
    else false
  }

  // ---------------------------------------------------------------------
  // Opening the game

  /** The card turned up to start the game and the pile left under it:
      the last card, or the one below it when the last card is wild (the
      wild card is dropped). Both start handlers open the game this way. */
  function Opening(deck: seq<Card>): (r: (Card, seq<Card>))
    requires |deck| >= 2
    ensures deck[|deck| - 1].color != Wild ==> r == (deck[|deck| - 1], deck[..|deck| - 1])
    ensures deck[|deck| - 1].color == Wild ==> r == (deck[|deck| - 2], deck[..|deck| - 2])
  {
    var first := deck[|deck| - 1];
    var rest := deck[..|deck| - 1];
    assert rest[..|rest| - 1] == deck[..|deck| - 2];
    if first.color == Wild then (rest[|rest| - 1], rest[..|rest| - 1]) else (first, rest)
  }
}
