/** What the server's handlers guarantee, and what they do not, stated
    about the transition functions of module `Server`. */
module ServerRules {
  import opened CardTypes
  import opened TurnOrder
  import GameUtils
  import opened Server

  // ---------------------------------------------------------------------
  // Legality

  /** A wild top card without a named colour accepts only wild cards. */
  lemma WildTopWithoutColour(card: Card, top: TopCard)
    requires WellFormed(card) && WellFormed(top.card)
    requires top.card.color == Wild && !Truthy(top.chosenColor)
    ensures CanPlayCard(card, Some(top)) == Some(card.color == Wild)
  {
  }

  /** A wild top card with a named colour accepts exactly the wild cards
      and the cards of that colour. */
  lemma WildTopWithColour(card: Card, top: TopCard, named: Color)
    requires WellFormed(card) && WellFormed(top.card)
    requires top.card.color == Wild && top.chosenColor == Some(ColorName(named))
    ensures CanPlayCard(card, Some(top)) == Some(card.color == Wild || card.color == named)
  {
    if card.color != Wild && card.color != named {
      assert ColorName(card.color) != ColorName(named) by {
        match card.color
        case Red =>
        case Yellow =>
        case Green =>
        case Blue =>
      }
    }
  }

  // ---------------------------------------------------------------------
  // play_card

  /** The three checks of `play_card`, in their order; a rejected play
      changes nothing. */
  lemma PlayChecks(s: ServerState, cardId: string, playerId: string, chosenColor: Option<string>, src: GameUtils.DeckSource)
    requires GameUtils.ValidSource(src)
    ensures var (err, t) := Played(s, cardId, playerId, chosenColor, src);
      (err.Some? ==> t == s)
      && (err == Some(NotYourTurn) <==> playerId !in PlayerIds(s.players) || playerId != s.currentPlayerId)
      && (playerId in PlayerIds(s.players) && playerId == s.currentPlayerId ==>
            var hand := s.players[IndexOf(PlayerIds(s.players), playerId)].cards;
            (err == Some(CardNotFound) <==> cardId !in Ids(hand))
            && (cardId in Ids(hand) ==>
                  var legal := CanPlayCard(hand[IndexOf(Ids(hand), cardId)], s.topCard);
                  (err == Some(TypeError) <==> legal.None?)
                  && (err == Some(CannotPlay) <==> legal == Some(false))
                  && (err == None <==> legal == Some(true))))
    ensures Played(s, cardId, playerId, chosenColor, src).0 != Some(NeedTwoPlayers)
  {
  }

  /** The facts of a successful play: who played which card from where. */
  predicate Accepted(s: ServerState, cardId: string, playerId: string, chosenColor: Option<string>,
                     src: GameUtils.DeckSource, i: int, c: int)
    requires GameUtils.ValidSource(src)
  {
    Played(s, cardId, playerId, chosenColor, src).0 == None
    && 0 <= i < |s.players| && s.players[i].id == playerId && playerId !in PlayerIds(s.players)[..i]
    && 0 <= c < |s.players[i].cards| && s.players[i].cards[c].id == cardId
    && cardId !in Ids(s.players[i].cards)[..c]
  }

  /** A successful play was made by the first player with that id, who is
      the current player, with the first card of theirs with that id. */
  lemma PlayFinds(s: ServerState, cardId: string, playerId: string, chosenColor: Option<string>, src: GameUtils.DeckSource)
    requires GameUtils.ValidSource(src)
    requires Played(s, cardId, playerId, chosenColor, src).0 == None
    ensures var i := IndexOf(PlayerIds(s.players), playerId);
      0 <= i < |s.players| && playerId == s.currentPlayerId
      && 0 <= IndexOf(Ids(s.players[i].cards), cardId)
      && Accepted(s, cardId, playerId, chosenColor, src, i, IndexOf(Ids(s.players[i].cards), cardId))
      && Played(s, cardId, playerId, chosenColor, src).1 == Resolve(s, i, IndexOf(Ids(s.players[i].cards), cardId), chosenColor, src)
  {
  }

  /** Exactly the played card leaves the hand, the others keep their
      order, and the card becomes the top card, carrying the named colour
      (unchecked) only when it is wild. */
  lemma PlayMovesCard(s: ServerState, i: int, c: int, chosenColor: Option<string>, src: GameUtils.DeckSource)
    requires GameUtils.ValidSource(src)
    requires 0 <= i < |s.players| && 0 <= c < |s.players[i].cards|
    ensures var t := Resolve(s, i, c, chosenColor, src);
      var hand := s.players[i].cards;
      |t.players| == |s.players|
      && t.players[i].cards == hand[..c] + hand[c + 1..]
      && t.topCard == Some(TopCard(hand[c], if hand[c].color == Wild then chosenColor else None))
  {
  }

  /** Nobody's id, name or socket changes, and nobody but the player and
      the one who is made to draw has a different hand. */
  lemma PlayKeepsOthers(s: ServerState, i: int, c: int, chosenColor: Option<string>, src: GameUtils.DeckSource)
    requires GameUtils.ValidSource(src)
    requires 0 <= i < |s.players| && 0 <= c < |s.players[i].cards|
    ensures var t := Resolve(s, i, c, chosenColor, src);
      |t.players| == |s.players|
      && forall k :: 0 <= k < |s.players| ==>
           t.players[k].id == s.players[k].id && t.players[k].name == s.players[k].name
           && t.players[k].socketId == s.players[k].socketId
           && (k != i && (k != Step(i, |s.players|, s.direction) || Penalty(s.players[i].cards[c].value) == 0)
               ==> t.players[k].cards == s.players[k].cards)
  {
  }

  /** Predicate: exactly one player is flagged, and that player's id is `currentPlayerId`. */
  predicate TurnAgrees(s: ServerState) {
    exists k :: 0 <= k < |s.players| && s.players[k].id == s.currentPlayerId
      && forall j :: 0 <= j < |s.players| ==> (s.players[j].isCurrentPlayer <==> j == k)
  }

  /** The turn passes one step in the direction of play, two for skip,
      draw2 and wild_draw4; afterwards exactly that seat is flagged and
      named by `currentPlayerId`. */
  lemma PlayPassesTurn(s: ServerState, i: int, c: int, chosenColor: Option<string>, src: GameUtils.DeckSource)
    requires GameUtils.ValidSource(src)
    requires 0 <= i < |s.players| && 0 <= c < |s.players[i].cards|
    ensures var t := Resolve(s, i, c, chosenColor, src);
      var seat := NextSeat(i, |s.players|, s.direction, s.players[i].cards[c].value);
      t.currentPlayerId == s.players[seat].id
      && (forall j :: 0 <= j < |t.players| ==> (t.players[j].isCurrentPlayer <==> j == seat))
      && TurnAgrees(t)
  {
    var t := Resolve(s, i, c, chosenColor, src);
    var seat := NextSeat(i, |s.players|, s.direction, s.players[i].cards[c].value);
    assert t.players[seat].id == s.players[seat].id;
  }

  /** A reverse flips the direction, but the turn goes to the seat next in
      the old direction; with three or more seats that is not the seat
      next in the new one. */
  lemma ReverseUsesOldDirection(s: ServerState, i: int, c: int, chosenColor: Option<string>, src: GameUtils.DeckSource)
    requires GameUtils.ValidSource(src)
    requires 0 <= i < |s.players| && 0 <= c < |s.players[i].cards|
    requires s.players[i].cards[c].value == Reverse
    ensures var t := Resolve(s, i, c, chosenColor, src);
      var n := |s.players|;
      t.direction == Flip(s.direction)
      && t.currentPlayerId == s.players[Step(i, n, s.direction)].id
      && (n >= 3 ==> !t.players[Step(i, n, t.direction)].isCurrentPlayer)
  {
    var n := |s.players|;
    if n >= 3 {
      DirectionsDiffer(i, n);
    }
  }

  /** With two players, a skip, draw2 or wild_draw4 gives the turn straight back. */
  lemma TwoPlayerSkipReturns(s: ServerState, i: int, c: int, chosenColor: Option<string>, src: GameUtils.DeckSource)
    requires GameUtils.ValidSource(src)
    requires |s.players| == 2 && 0 <= i < 2 && 0 <= c < |s.players[i].cards|
    requires s.players[i].cards[c].value in {Skip, Draw2, WildDraw4}
    ensures var t := Resolve(s, i, c, chosenColor, src);
      t.currentPlayerId == s.players[i].id && t.players[i].isCurrentPlayer
  {
    TwoStepsOfTwoSeats(i, s.direction);
  }

  /** A draw2 or wild_draw4 appends exactly two or four cards to the hand of
      the player one step on (when that is someone else), the top of the
      pile first. */
  lemma ForcedDraw(s: ServerState, i: int, c: int, chosenColor: Option<string>, src: GameUtils.DeckSource)
    requires GameUtils.ValidSource(src)
    requires 0 <= i < |s.players| && 0 <= c < |s.players[i].cards|
    requires Penalty(s.players[i].cards[c].value) > 0
    requires Step(i, |s.players|, s.direction) != i
    ensures var t := Resolve(s, i, c, chosenColor, src);
      var next := Step(i, |s.players|, s.direction);
      var k := Penalty(s.players[i].cards[c].value);
      var drawn := DrawFromPile(s.deck, k, src).0;
      |drawn| == k
      && t.players[next].cards == s.players[next].cards + drawn
      && t.deck == DrawFromPile(s.deck, k, src).1
  {
  }

  /** At a table of one (a finished game that a player left, which
      `disconnect` does not revert), a draw2 or wild_draw4 makes the player
      draw from themselves: the cards leave the pile, and the hand they
      were appended to is then overwritten by the hand without the card
      played, so nobody holds them. */
  lemma SingleSeatDraw2Loses(s: ServerState, c: int, chosenColor: Option<string>, src: GameUtils.DeckSource)
    requires GameUtils.ValidSource(src)
    requires |s.players| == 1 && 0 <= c < |s.players[0].cards|
    requires Penalty(s.players[0].cards[c].value) > 0
    ensures var t := Resolve(s, 0, c, chosenColor, src);
      var k := Penalty(s.players[0].cards[c].value);
      var (drawn, pile) := DrawFromPile(s.deck, k, src);
      |drawn| == k
      && t.players[0].cards == RemoveAt(s.players[0].cards, c)
      && t.deck == pile
      && t.currentPlayerId == s.players[0].id
  {
    assert Step(0, 1, s.direction) == 0;
  }

  /** Playing one's last card makes that player the winner and finishes
      the game, yet the turn still moves on and a forced draw still happens. */
  lemma WinningPlayStillResolves(s: ServerState, i: int, c: int, chosenColor: Option<string>, src: GameUtils.DeckSource)
    requires GameUtils.ValidSource(src)
    requires 0 <= i < |s.players| && |s.players[i].cards| == 1 && c == 0
    ensures var t := Resolve(s, i, c, chosenColor, src);
      var v := s.players[i].cards[0].value;
      t.winner == Some(s.players[i].id) && t.gameStatus == Finished
      && t.players[i].cards == []
      && t.currentPlayerId == s.players[NextSeat(i, |s.players|, s.direction, v)].id
      && t.deck == Penalised(s, i, v, src).1
  {
  }

  /** Neither `play_card` nor `draw_card` looks at the game status: changing
      it changes neither the outcome nor who holds what. */
  lemma NoStatusGuard(s: ServerState, st: Status, cardId: string, playerId: string, chosenColor: Option<string>,
                      src: GameUtils.DeckSource)
    requires GameUtils.ValidSource(src)
    ensures Played(s.(gameStatus := st), cardId, playerId, chosenColor, src).0 == Played(s, cardId, playerId, chosenColor, src).0
    ensures Played(s.(gameStatus := st), cardId, playerId, chosenColor, src).1.players
         == Played(s, cardId, playerId, chosenColor, src).1.players
    ensures Drawn(s.(gameStatus := st), playerId, src) == (Drawn(s, playerId, src).0, Drawn(s, playerId, src).1.(gameStatus := st))
  {
    PlayIgnoresStatus(s, st, cardId, playerId, chosenColor, src);
    DrawIgnoresStatus(s, st, playerId, src);
  }

  lemma PlayIgnoresStatus(s: ServerState, st: Status, cardId: string, playerId: string, chosenColor: Option<string>,
                          src: GameUtils.DeckSource)
    requires GameUtils.ValidSource(src)
    ensures var (e, t) := Played(s, cardId, playerId, chosenColor, src);
      Played(s.(gameStatus := st), cardId, playerId, chosenColor, src).0 == e
      && Played(s.(gameStatus := st), cardId, playerId, chosenColor, src).1.players == t.players
  {
    var s2 := s.(gameStatus := st);
    var i := IndexOf(PlayerIds(s.players), playerId);
    if i != -1 && s.players[i].id == s.currentPlayerId {
      var c := IndexOf(Ids(s.players[i].cards), cardId);
      if c != -1 && CanPlayCard(s.players[i].cards[c], s.topCard) == Some(true) {
        ResolveIgnoresStatus(s, st, i, c, chosenColor, src);
        assert Played(s2, cardId, playerId, chosenColor, src).1 == Resolve(s2, i, c, chosenColor, src);
        assert Played(s, cardId, playerId, chosenColor, src).1 == Resolve(s, i, c, chosenColor, src);
      }
    }
  }

  lemma ResolveIgnoresStatus(s: ServerState, st: Status, i: int, c: int, chosenColor: Option<string>, src: GameUtils.DeckSource)
    requires GameUtils.ValidSource(src)
    requires 0 <= i < |s.players| && 0 <= c < |s.players[i].cards|
    ensures Resolve(s.(gameStatus := st), i, c, chosenColor, src).players == Resolve(s, i, c, chosenColor, src).players
  {
    PenalisedFrame(s, s.(gameStatus := st), i, s.players[i].cards[c].value, src);
  }

  lemma DrawIgnoresStatus(s: ServerState, st: Status, playerId: string, src: GameUtils.DeckSource)
    requires GameUtils.ValidSource(src)
    ensures Drawn(s.(gameStatus := st), playerId, src) == (Drawn(s, playerId, src).0, Drawn(s, playerId, src).1.(gameStatus := st))
  {
  }

  // ---------------------------------------------------------------------
  // The pile

  /** When the pile runs out part-way, the drawn cards are the whole pile
      followed by cards of a fresh 108-card deck, so the cards in play grow
      by 108. */
  lemma RefillAddsDeck(pile: seq<Card>, count: nat, src: GameUtils.DeckSource)
    requires GameUtils.ValidSource(src)
    requires |pile| < count <= |pile| + GameUtils.DeckSize
    ensures var (drawn, rest) := DrawFromPile(pile, count, src);
      |drawn| == count && |drawn| + |rest| == |pile| + GameUtils.DeckSize
      && multiset(drawn) + multiset(rest) == multiset(pile) + multiset(GameUtils.NewDeck(src))
  {
    var (drawn, rest) := DrawFromPile(pile, count, src);
    var refill := GameUtils.NewDeck(src);
    GameUtils.NewDeckComposition(src);
    assert drawn == drawn[..|pile|] + drawn[|pile|..];
    ReversedKeepsCards(pile);
    ReversedKeepsCards(drawn[|pile|..]);
    assert multiset(rest + GameUtils.Reversed(drawn[|pile|..])) == multiset(refill);
  }

  /** With cards to spare, a draw takes them off the end of the pile and
      nothing is added. */
  lemma DrawWithoutRefill(pile: seq<Card>, count: nat, src: GameUtils.DeckSource)
    requires GameUtils.ValidSource(src)
    requires count <= |pile|
    ensures var (drawn, rest) := DrawFromPile(pile, count, src);
      |drawn| == count && multiset(drawn) + multiset(rest) == multiset(pile)
  {
    var (drawn, rest) := DrawFromPile(pile, count, src);
    ReversedKeepsCards(drawn);
    assert multiset(rest + GameUtils.Reversed(drawn)) == multiset(pile);
  }

  lemma ReversedKeepsCards(s: seq<Card>)
    ensures multiset(GameUtils.Reversed(s)) == multiset(s)
  {
    if s != [] {
      var r := GameUtils.Reversed(s);
      assert r == [s[|s| - 1]] + GameUtils.Reversed(s[..|s| - 1]);
      ReversedKeepsCards(s[..|s| - 1]);
      assert s == s[..|s| - 1] + [s[|s| - 1]];
    }
  }

  // ---------------------------------------------------------------------
  // draw_card

  /** `draw_card` by anyone but the current player is refused and changes
      nothing; by a current player id that names nobody it raises a
      TypeError after the pile has been popped. */
  lemma DrawChecks(s: ServerState, playerId: string, src: GameUtils.DeckSource)
    requires GameUtils.ValidSource(src)
    ensures var (err, t) := Drawn(s, playerId, src);
      (err == Some(NotYourTurn) <==> playerId != s.currentPlayerId)
      && (err == Some(NotYourTurn) ==> t == s)
      && (err == Some(TypeError) <==> playerId == s.currentPlayerId && playerId !in PlayerIds(s.players))
      && (err == Some(TypeError) ==> t == s.(deck := DrawFromPile(s.deck, 1, src).1))
      && (err == None <==> playerId == s.currentPlayerId && playerId in PlayerIds(s.players))
  {
  }

  /** A successful draw gives the player exactly one card, the last of the
      pile (or of a fresh deck when the pile is empty), and passes the turn
      one step. */
  lemma DrawTakesOne(s: ServerState, playerId: string, src: GameUtils.DeckSource)
    requires GameUtils.ValidSource(src)
    requires Drawn(s, playerId, src).0 == None
    ensures var t := Drawn(s, playerId, src).1;
      var i := IndexOf(PlayerIds(s.players), playerId);
      var next := Step(i, |s.players|, s.direction);
      0 <= i < |s.players|
      && |t.players[i].cards| == |s.players[i].cards| + 1
      && t.players[i].cards[..|s.players[i].cards|] == s.players[i].cards
      && t.players[i].cards == s.players[i].cards + DrawFromPile(s.deck, 1, src).0
      && t.deck == DrawFromPile(s.deck, 1, src).1
      && (s.deck != [] ==> t.players[i].cards[|s.players[i].cards|] == s.deck[|s.deck| - 1] && t.deck == s.deck[..|s.deck| - 1])
      && (s.deck == [] ==> var d := GameUtils.NewDeck(src);
            t.players[i].cards[|s.players[i].cards|] == d[|d| - 1] && t.deck == d[..|d| - 1])
      && t.currentPlayerId == s.players[next].id
      && TurnAgrees(t)
  {
    var t := Drawn(s, playerId, src).1;
    var i := IndexOf(PlayerIds(s.players), playerId);
    var next := Step(i, |s.players|, s.direction);
    assert t.players[next].id == s.players[next].id;
  }

  /** A successful draw changes no id, name or socket and no hand but the
      drawer's; the top card, the direction, the status and the winner stay. */
  lemma DrawKeepsOthers(s: ServerState, playerId: string, src: GameUtils.DeckSource)
    requires GameUtils.ValidSource(src)
    requires Drawn(s, playerId, src).0 == None
    ensures var t := Drawn(s, playerId, src).1;
      var i := IndexOf(PlayerIds(s.players), playerId);
      |t.players| == |s.players|
      && (forall k :: 0 <= k < |s.players| ==>
            t.players[k].id == s.players[k].id && t.players[k].name == s.players[k].name
            && t.players[k].socketId == s.players[k].socketId
            && (k != i ==> t.players[k].cards == s.players[k].cards))
      && t.topCard == s.topCard && t.direction == s.direction
      && t.gameStatus == s.gameStatus && t.winner == s.winner
  {
  }

  // ---------------------------------------------------------------------
  // start_game

  /** `start_game` with fewer than two players is refused and changes nothing;
      otherwise it succeeds. */
  lemma StartChecks(s: ServerState, src: GameUtils.DeckSource)
    requires GameUtils.ValidSource(src)
    ensures Started(s, src).0 == Some(NeedTwoPlayers) <==> |s.players| < 2
    ensures Started(s, src).0 != None ==> Started(s, src).1 == s
    ensures Started(s, src).0 == None <==> |s.players| >= 2
  {
  }

  /** After a start the game is playing, the first seat holds the turn and
      the seats keep their players; direction and winner are left as they
      were. */
  lemma StartSeats(s: ServerState, src: GameUtils.DeckSource)
    requires GameUtils.ValidSource(src)
    requires |s.players| >= 2
    ensures var t := Started(s, src).1;
      t.gameStatus == Playing && t.currentPlayerId == s.players[0].id
      && |t.players| == |s.players|
      && (forall k :: 0 <= k < |t.players| ==>
            t.players[k] == s.players[k].(cards := t.players[k].cards, isCurrentPlayer := k == 0))
      && TurnAgrees(t)
      && t.direction == s.direction && t.winner == s.winner
  {
    var t := Started(s, src).1;
    assert t.players[0].id == s.players[0].id;
  }

  /** The top card and the stored pile split the new deck: the top card is
      its last card, or the one under it when the last is wild, in which
      case the wild card is dropped and the replacement is not checked. */
  lemma StartOpening(s: ServerState, src: GameUtils.DeckSource)
    requires GameUtils.ValidSource(src)
    requires |s.players| >= 2
    ensures var t := Started(s, src).1;
      var d := GameUtils.NewDeck(src);
      |d| == GameUtils.DeckSize && t.topCard.Some? && t.topCard.value.chosenColor == None
      && (d[107].color != Wild ==> t.topCard.value.card == d[107] && t.deck == d[..107])
      && (d[107].color == Wild ==> t.topCard.value.card == d[106] && t.deck == d[..106])
  {
    GameUtils.NewDeckComposition(src);
  }

  /** Every seat is dealt round-robin from the end of the stored pile, seven
      cards each when the pile has enough, and every dealt card is still in
      the pile. */
  lemma StartDealsFromPile(s: ServerState, src: GameUtils.DeckSource, k: int)
    requires GameUtils.ValidSource(src)
    requires |s.players| >= 2 && 0 <= k < |s.players|
    ensures var t := Started(s, src).1;
      var n := |s.players|;
      var hand := t.players[k].cards;
      (|t.deck| == 106 || |t.deck| == 107)
      && hand == GameUtils.Dealt(t.deck, n, k, 7)
      && (7 * n <= |t.deck| ==> RoundRobin(hand, t.deck, n, k))
      && (forall card :: card in hand ==> card in t.deck)
  {
    var t := Started(s, src).1;
    var n := |s.players|;
    assert (|t.deck| == 106 || |t.deck| == 107) && t.players[k].cards == GameUtils.Dealt(t.deck, n, k, 7) by {
      GameUtils.NewDeckComposition(src);
    }
    DealtHand(t.deck, n, k);
  }

  /** `hand` holds seven cards, card `r` being the `(r * n + k)`-th from the
      end of `deck`: what seat `k` of `n` gets in seven full rounds. */
  predicate RoundRobin(hand: seq<Card>, deck: seq<Card>, n: nat, k: nat) {
    |hand| == 7 && forall r :: 0 <= r < 7 ==> r * n + k < |deck| && hand[r] == deck[|deck| - 1 - (r * n + k)]
  }

  /** Seven rounds of dealing off a pile: seven cards per seat when the pile
      has enough, and only cards of the pile. */
  lemma DealtHand(deck: seq<Card>, n: nat, k: nat)
    requires k < n
    ensures var hand := GameUtils.Dealt(deck, n, k, 7);
      (7 * n <= |deck| ==> RoundRobin(hand, deck, n, k))
      && (forall card :: card in hand ==> card in deck)
  {
    if 7 * n <= |deck| {
      GameUtils.DealtFull(deck, n, k, 7);
    }
    DealtFromPile(deck, n, k, 7);
  }

  lemma {:induction false} DealtFromPile(deck: seq<Card>, n: nat, p: nat, rounds: nat)
    requires p < n
    ensures forall card :: card in GameUtils.Dealt(deck, n, p, rounds) ==> card in deck
  {
    if rounds > 0 {
      DealtFromPile(deck, n, p, rounds - 1);
    }
  }

  // ---------------------------------------------------------------------
  // reset_game and disconnect

  /** Resetting twice is resetting once. */
  lemma ResetIdempotent(s: ServerState)
    ensures Reset(Reset(s)) == Reset(s)
  {
  }

  /** `disconnect` removes every player on that socket and keeps every other
      player, hand included; the game reverts to waiting only when it was
      playing and fewer than two players remain. */
  lemma DisconnectDrops(s: ServerState, socketId: string)
    ensures var t := Disconnected(s, socketId);
      (socketId !in Sockets(s.players) ==> t == s)
      && (socketId in Sockets(s.players) ==>
            t.players == Without(s.players, socketId)
            && (forall p: Server.Player :: p in t.players ==> p in s.players && p.socketId != socketId)
            && (s.gameStatus == Playing && |t.players| < 2 ==> t == Initial.(players := t.players))
            && (!(s.gameStatus == Playing && |t.players| < 2) ==> t == s.(players := t.players)))
  {
  }

  /** The filter keeps the remaining players in seat order: filtering a
      concatenation filters each part in turn. */
  lemma {:induction false} WithoutAppend(a: seq<Server.Player>, b: seq<Server.Player>, socketId: string)
    ensures Without(a + b, socketId) == Without(a, socketId) + Without(b, socketId)
  {
    if a == [] {
      assert a + b == b;
    } else {
      assert (a + b)[0] == a[0] && (a + b)[1..] == a[1..] + b;
      WithoutAppend(a[1..], b, socketId);
    }
  }

  /** One player is kept exactly when they joined on another socket. */
  lemma WithoutOne(p: Server.Player, socketId: string)
    ensures Without([p], socketId) == if p.socketId == socketId then [] else [p]
  {
    assert [p][1..] == [];
  }

  /** When the current player leaves a game that keeps two or more players,
      `currentPlayerId` still names them: nobody can play, and a draw by the
      departed id raises a TypeError. */
  lemma StaleTurn(s: ServerState, socketId: string, src: GameUtils.DeckSource)
    requires GameUtils.ValidSource(src)
    requires forall k :: 0 <= k < |s.players| && s.players[k].id == s.currentPlayerId ==> s.players[k].socketId == socketId
    requires socketId in Sockets(s.players)
    requires |Without(s.players, socketId)| >= 2
    ensures var t := Disconnected(s, socketId);
      t.currentPlayerId == s.currentPlayerId
      && s.currentPlayerId !in PlayerIds(t.players)
      && (forall cardId, playerId, chosenColor :: Played(t, cardId, playerId, chosenColor, src).0 == Some(NotYourTurn))
      && Drawn(t, s.currentPlayerId, src).0 == Some(TypeError)
  {
  }

  // ---------------------------------------------------------------------
  // The projection

  /** The projection hides other hands but not the pile: any viewer, even
      one whose id is nobody's, receives the whole draw pile and every
      player's socket id. */
  lemma ProjectionLeaksPile(s: ServerState, viewerId: string)
    ensures Project(s, viewerId).deck == s.deck
    ensures Sockets(s.players) == seq(|s.players|, k requires 0 <= k < |s.players| => Project(s, viewerId).players[k].socketId)
  {
  }

  /** The reply to `join_game` skips the projection: a player who joins a
      game in progress receives every other player's hand, which the
      projection for their id would hide. */
  lemma JoinReplyReveals(s: ServerState, playerId: string, playerName: string, socketId: string, k: int)
    requires 0 <= k < |s.players| && s.players[k].id != playerId && s.players[k].cards != []
    ensures JoinReply(s, playerId, playerName, socketId).players[k].cards[0] == Shown(s.players[k].cards[0])
    ensures Project(Joined(s, playerId, playerName, socketId), playerId).players[k].cards[0] == Hidden
    ensures JoinReply(s, playerId, playerName, socketId) != Project(Joined(s, playerId, playerName, socketId), playerId)
  {
    var t := Joined(s, playerId, playerName, socketId);
    assert t.players[k] == s.players[k];
  }

  /** Two players who share an id each see the other's hand. */
  lemma SharedIdSeesHand(s: ServerState, a: int, b: int)
    requires 0 <= a < |s.players| && 0 <= b < |s.players| && s.players[a].id == s.players[b].id
    ensures forall j :: 0 <= j < |s.players[b].cards| ==>
      Project(s, s.players[a].id).players[b].cards[j] == Shown(s.players[b].cards[j])
  {
  }

  // ---------------------------------------------------------------------
  // Invariants of the record

  /** At most one player is flagged. */
  predicate OneFlagAtMost(ps: seq<Server.Player>) {
    forall j, k :: 0 <= j < k < |ps| ==> !(ps[j].isCurrentPlayer && ps[k].isCurrentPlayer)
  }

  lemma TurnAgreesOneFlag(s: ServerState)
    requires TurnAgrees(s)
    ensures OneFlagAtMost(s.players)
  {
  }

  /** Joining, resetting and disconnecting keep at most one player flagged. */
  lemma SeatingKeepsOneFlag(s: ServerState, playerId: string, name: string, socketId: string)
    requires OneFlagAtMost(s.players)
    ensures OneFlagAtMost(Joined(s, playerId, name, socketId).players)
    ensures OneFlagAtMost(Reset(s).players)
    ensures OneFlagAtMost(Disconnected(s, socketId).players)
  {
    WithoutKeepsOneFlag(s.players, socketId);
  }

  lemma {:induction false} WithoutKeepsOneFlag(ps: seq<Server.Player>, socketId: string)
    requires OneFlagAtMost(ps)
    ensures OneFlagAtMost(Without(ps, socketId))
  {
    if ps != [] {
      var rest := Without(ps[1..], socketId);
      WithoutKeepsOneFlag(ps[1..], socketId);
      if ps[0].socketId != socketId && ps[0].isCurrentPlayer {
        forall k | 0 <= k < |rest|
          ensures !rest[k].isCurrentPlayer
        {
          assert rest[k] in ps[1..];
        }
      }
    }
  }

  /** Starting, playing and drawing leave exactly one player flagged. */
  lemma TurnHandlersAgree(s: ServerState, cardId: string, playerId: string, chosenColor: Option<string>,
                          src: GameUtils.DeckSource)
    requires GameUtils.ValidSource(src)
    ensures Started(s, src).0 == None ==> TurnAgrees(Started(s, src).1)
    ensures Played(s, cardId, playerId, chosenColor, src).0 == None ==> TurnAgrees(Played(s, cardId, playerId, chosenColor, src).1)
    ensures Drawn(s, playerId, src).0 == None ==> TurnAgrees(Drawn(s, playerId, src).1)
  {
    if |s.players| >= 2 {
      StartSeats(s, src);
    }
    if Played(s, cardId, playerId, chosenColor, src).0 == None {
      PlayFinds(s, cardId, playerId, chosenColor, src);
      var i := IndexOf(PlayerIds(s.players), playerId);
      PlayPassesTurn(s, i, IndexOf(Ids(s.players[i].cards), cardId), chosenColor, src);
    }
    if Drawn(s, playerId, src).0 == None {
      DrawTakesOne(s, playerId, src);
    }
  }
}
