/** The shared vocabulary of the game: card colours and values, cards,
    players, the game record and the actions of the client reducer. */
module CardTypes {

  /** A nullable value (`T | null` in the source). */
  datatype Option<+T> = None | Some(value: T)

  /** The five card colours; `Wild` is the colour of the eight wild cards. */
  datatype Color = Red | Yellow | Green | Blue | Wild

  /** The fifteen card values: ten digits and five specials. */
  datatype Value =
    | Zero | One | Two | Three | Four | Five | Six | Seven | Eight | Nine
    | Skip | Reverse | Draw2 | WildValue | WildDraw4

  /** A card carries only an id, a colour and a value. */
  datatype Card = Card(id: string, color: Color, value: Value)

  datatype Direction = Clockwise | Counterclockwise

  datatype Status = Waiting | Playing | Finished

  /** A player as the client sees it: an ordered hand and a turn flag. */
  datatype Player = Player(id: string, name: string, cards: seq<Card>, isCurrentPlayer: bool)

  /** The client's game record. */
  datatype GameState = GameState(
    players: seq<Player>,
    currentPlayerId: string,
    topCard: Option<Card>,
    direction: Direction,
    deck: seq<Card>,
    gameStatus: Status,
    winner: Option<string>)

  /** The reducer's actions, each with the payload the reducer reads.
      `UPDATE_GAME` is not part of this model. */
  datatype GameAction =
    | JoinGame(playerId: string, playerName: string)
    | StartGame
    | PlayCard(cardId: string, playerId: string, chosenColor: Option<string>)
    | DrawCard(playerToDraw: string)
    | SayUno

  /** The string the source uses for each colour. */
  function ColorName(c: Color): (s: string)
    ensures |s| >= 3
  {
    match c
    case Red => "red"
    case Yellow => "yellow"
    case Green => "green"
    case Blue => "blue"
    case Wild => "wild"
  }

  /** The other direction. */
  function Flip(d: Direction): (r: Direction)
    ensures r != d
  {
    if d == Clockwise then Counterclockwise else Clockwise
  }

  /** The values printed only on wild cards. */
  predicate IsWildValue(v: Value) {
    v == WildValue || v == WildDraw4
  }

  /** A card as the deck builder makes them: a wild value exactly on a wild card. */
  predicate WellFormed(c: Card) {
    c.color == Wild <==> IsWildValue(c.value)
  }

  predicate AllWellFormed(cards: seq<Card>) {
    forall k :: 0 <= k < |cards| ==> WellFormed(cards[k])
  }

  /** The ids of a sequence of cards, in order. */
  function Ids(cards: seq<Card>): (r: seq<string>)
    ensures |r| == |cards|
    ensures forall k :: 0 <= k < |cards| ==> r[k] == cards[k].id
  {
    seq(|cards|, k requires 0 <= k < |cards| => cards[k].id)
  }

  /** No element occurs twice. */
  predicate Distinct<T(==)>(s: seq<T>) {
    forall i, j :: 0 <= i < j < |s| ==> s[i] != s[j]
  }

  /** `findIndex` by equality: the first position of `x` in `s`, or -1 when there is none. */
  function IndexOf<T(==)>(s: seq<T>, x: T): (i: int)
    ensures -1 <= i < |s|
    ensures i == -1 <==> x !in s
    ensures 0 <= i ==> s[i] == x && x !in s[..i]
  {
    if |s| == 0 then -1
    else if s[0] == x then 0
    else
      var j := IndexOf(s[1..], x);
      assert j >= 0 ==> s[..j + 1] == [s[0]] + s[1..][..j];
      if j == -1 then -1 else j + 1
  }

  /** A hand with the card at position `k` taken out (two slices spread together). */
  function RemoveAt(s: seq<Card>, k: int): (r: seq<Card>)
    requires 0 <= k < |s|
    ensures |r| == |s| - 1
    ensures forall j :: 0 <= j < k ==> r[j] == s[j]
    ensures forall j :: k <= j < |r| ==> r[j] == s[j + 1]
    ensures multiset(r) + multiset{s[k]} == multiset(s)
  {
    assert s == s[..k] + [s[k]] + s[k + 1..];
    s[..k] + s[k + 1..]
  }

  function Min(a: int, b: int): (m: int) {
    if a <= b then a else b
  }
}
