/** What the client reducer does with each action, stated about the
    functions of module `GameReducer`. */
module ReducerRules {
  import opened CardTypes
  import opened TurnOrder
  import GameUtils
  import opened GameReducer

  /** JOIN_GAME always succeeds, whatever the status and even for an id
      already seated, and changes nothing but the player list. */
  lemma JoinAlwaysAppends(s: GameState, playerId: string, playerName: string, src: GameUtils.DeckSource)
    requires GameUtils.ValidSource(src)
    ensures Reduce(s, JoinGame(playerId, playerName), src) == Next(Join(s, playerId, playerName))
    ensures var t := Join(s, playerId, playerName);
      t.players[|s.players|] == Player(playerId, playerName, [], false)
      && t.currentPlayerId == s.currentPlayerId && t.gameStatus == s.gameStatus
  {
  }

  /** START_GAME throws on an empty table; otherwise every player gets the
      same seven cards, which also stay in the pile, and the first seat
      starts. */
  lemma StartSameHands(s: GameState, src: GameUtils.DeckSource)
    requires GameUtils.ValidSource(src)
    ensures s.players == [] <==> Start(s, src) == Throws
    ensures s.players != [] ==>
      var t := Start(s, src).state;
      |t.players| == |s.players| && t.currentPlayerId == s.players[0].id && t.gameStatus == Playing
      && t.players[0].isCurrentPlayer
      && (forall k :: 1 <= k < |t.players| ==> !t.players[k].isCurrentPlayer)
      && (forall j, k :: 0 <= j < |t.players| && 0 <= k < |t.players| ==> t.players[j].cards == t.players[k].cards)
      && (forall k :: 0 <= k < |t.players| ==>
            |t.players[k].cards| == 7 && forall card :: card in t.players[k].cards ==> card in t.deck)
  {
    GameUtils.NewDeckComposition(src);
    if s.players != [] {
      var (top, deck) := GameUtils.Opening(GameUtils.NewDeck(src));
      assert |deck| >= 106;
      GameUtils.PoppedFromPile(deck, 7);
      var t := Start(s, src).state;
      assert t.deck == deck;
      assert forall k :: 0 <= k < |t.players| ==> t.players[k].cards == GameUtils.Popped(deck, 7);
    }
  }

  /** PLAY_CARD leaves the state as it is exactly when the player is
      unknown, not current, or does not hold the card. */
  lemma PlayIgnored(s: GameState, cardId: string, playerId: string)
    ensures Play(s, cardId, playerId) == s
      <==> playerId !in PlayerIds(s.players) || playerId != s.currentPlayerId
           || cardId !in Ids(s.players[IndexOf(PlayerIds(s.players), playerId)].cards)
  {
    var i := IndexOf(PlayerIds(s.players), playerId);
    if i != -1 && playerId == s.currentPlayerId {
      var c := IndexOf(Ids(s.players[i].cards), cardId);
      if c != -1 {
        ResolvePlaysCard(s, i, c);
        assert |Resolve(s, i, c).players[i].cards| == |s.players[i].cards| - 1;
      }
    }
  }

  /** PLAY_CARD never checks legality: a card the current player holds is
      played on any top card. */
  lemma PlayUnchecked(s: GameState, cardId: string, playerId: string)
    requires playerId in PlayerIds(s.players) && playerId == s.currentPlayerId
    requires cardId in Ids(s.players[IndexOf(PlayerIds(s.players), playerId)].cards)
    ensures var i := IndexOf(PlayerIds(s.players), playerId);
      var hand := s.players[i].cards;
      var c := IndexOf(Ids(hand), cardId);
      var t := Play(s, cardId, playerId);
      t.topCard == Some(hand[c]) && t.players[i].cards == hand[..c] + hand[c + 1..]
  {
    var i := IndexOf(PlayerIds(s.players), playerId);
    ResolvePlaysCard(s, i, IndexOf(Ids(s.players[i].cards), cardId));
  }

  /** Whatever its value, the card played leaves the hand and becomes the top card. */
  lemma ResolvePlaysCard(s: GameState, i: int, c: int)
    requires 0 <= i < |s.players| && 0 <= c < |s.players[i].cards|
    ensures var t := Resolve(s, i, c);
      var hand := s.players[i].cards;
      t.topCard == Some(hand[c]) && t.players[i].cards == hand[..c] + hand[c + 1..]
  {
  }

  /** The seat the client passes the turn to: one step, and one more only
      for a skip; a reverse keeps the old-direction step. */
  lemma ClientTurn(s: GameState, i: int, c: int)
    requires 0 <= i < |s.players| && 0 <= c < |s.players[i].cards|
    ensures var t := Resolve(s, i, c);
      var v := s.players[i].cards[c].value;
      var next := Step(i, |s.players|, s.direction);
      t.currentPlayerId == s.players[if v == Skip then Step(next, |s.players|, s.direction) else next].id
      && t.direction == (if v == Reverse then Flip(s.direction) else s.direction)
  {
  }

  /** A play changes no id or name, and no hand but the player's and, for
      a draw2 or wild_draw4, the hand of the player one step on. */
  lemma ClientKeepsOthers(s: GameState, i: int, c: int)
    requires 0 <= i < |s.players| && 0 <= c < |s.players[i].cards|
    ensures var t := Resolve(s, i, c);
      |t.players| == |s.players|
      && forall k :: 0 <= k < |s.players| ==>
           t.players[k].id == s.players[k].id && t.players[k].name == s.players[k].name
           && (k != i && (k != Step(i, |s.players|, s.direction) || s.players[i].cards[c].value !in {Draw2, WildDraw4})
               ==> t.players[k].cards == s.players[k].cards)
  {
    var n := |s.players|;
    var card := s.players[i].cards[c];
    var rest := RemoveAt(s.players[i].cards, c);
    var next := Step(i, n, s.direction);
    var t := Resolve(s, i, c);
    if card.value == Draw2 || card.value == WildDraw4 {
      var k := Min(if card.value == Draw2 then 2 else 4, |s.deck|);
      assert t.players == Seats(s.players, i, rest, next, GameUtils.Popped(s.deck, k));
      SeatsKeepOthers(s.players, i, rest, next, GameUtils.Popped(s.deck, k));
    } else {
      var seat := if card.value == Skip then Step(next, n, s.direction) else next;
      assert t.players == Seats(s.players, i, rest, seat, []);
      SeatsKeepOthers(s.players, i, rest, seat, []);
    }
  }

  /** `Seats` changes no id or name, and no hand but seat `i`'s and, when
      something is drawn, seat `next`'s. */
  lemma SeatsKeepOthers(ps: seq<Player>, i: int, hand: seq<Card>, next: int, drawn: seq<Card>)
    ensures var r := Seats(ps, i, hand, next, drawn);
      forall k :: 0 <= k < |ps| ==>
        r[k].id == ps[k].id && r[k].name == ps[k].name
        && (k != i && (k != next || drawn == []) ==> r[k].cards == ps[k].cards)
  {
    assert forall k :: 0 <= k < |ps| ==> ps[k].cards + [] == ps[k].cards;
  }

  /** A draw2 or wild_draw4 appends up to two or four cards off the end of
      the pile to the hand of the player one step on, who then holds the
      turn: that player is not skipped, and an empty pile is not refilled. */
  lemma ClientForcedDraw(s: GameState, i: int, c: int)
    requires 0 <= i < |s.players| && 0 <= c < |s.players[i].cards|
    requires s.players[i].cards[c].value in {Draw2, WildDraw4}
    requires Step(i, |s.players|, s.direction) != i
    ensures var t := Resolve(s, i, c);
      var next := Step(i, |s.players|, s.direction);
      var k := Min(if s.players[i].cards[c].value == Draw2 then 2 else 4, |s.deck|);
      t.players[next].cards[..|s.players[next].cards|] == s.players[next].cards
      && |t.players[next].cards| == |s.players[next].cards| + k
      && GameUtils.Remaining(s.deck, k) + GameUtils.Reversed(t.players[next].cards[|s.players[next].cards|..]) == s.deck
      && t.deck == s.deck[..|s.deck| - k]
      && t.players[next].isCurrentPlayer && t.currentPlayerId == s.players[next].id
  {
    var t := Resolve(s, i, c);
    var next := Step(i, |s.players|, s.direction);
    var k := Min(if s.players[i].cards[c].value == Draw2 then 2 else 4, |s.deck|);
    var drawn := GameUtils.Popped(s.deck, k);
    assert t.players[next].cards == s.players[next].cards + drawn;
    assert t.players[next].cards[|s.players[next].cards|..] == drawn;
    GameUtils.ReversedTwice(s.deck[|s.deck| - k..]);
    assert s.deck[..|s.deck| - k] + s.deck[|s.deck| - k..] == s.deck;
  }

  /** At a table of one, a draw2 or wild_draw4 takes up to two or four
      cards off the pile for the player one step on, who is the player
      themselves; their hand is then set to the hand without the card
      played, so the cards drawn are held by nobody. */
  lemma ClientSingleSeatDrawLoses(s: GameState, c: int)
    requires |s.players| == 1 && 0 <= c < |s.players[0].cards|
    requires s.players[0].cards[c].value in {Draw2, WildDraw4}
    ensures var t := Resolve(s, 0, c);
      var k := Min(if s.players[0].cards[c].value == Draw2 then 2 else 4, |s.deck|);
      t.players[0].cards == RemoveAt(s.players[0].cards, c)
      && t.deck == s.deck[..|s.deck| - k]
      && t.currentPlayerId == s.players[0].id
  {
    assert Step(0, 1, s.direction) == 0;
  }

  /** Every accepted play finishes the game exactly when the hand is
      emptied, and otherwise sets it playing and clears the winner. */
  lemma ClientStatus(s: GameState, i: int, c: int)
    requires 0 <= i < |s.players| && 0 <= c < |s.players[i].cards|
    ensures var t := Resolve(s, i, c);
      (t.gameStatus == Finished <==> |s.players[i].cards| == 1)
      && (t.gameStatus == Playing <==> |s.players[i].cards| != 1)
      && t.winner == (if |s.players[i].cards| == 1 then Some(s.players[i].id) else None)
  {
  }

  /** After an accepted play the player is unflagged and the next seat is
      flagged, other flags are left as they were; when the turn comes back
      to the player (two seats and a skip) nobody is flagged by the play
      although `currentPlayerId` names the player. */
  lemma ClientFlags(s: GameState, i: int, c: int)
    requires 0 <= i < |s.players| && 0 <= c < |s.players[i].cards|
    ensures var t := Resolve(s, i, c);
      var n := |s.players|;
      var v := s.players[i].cards[c].value;
      var next := Step(i, n, s.direction);
      var seat := if v == Skip then Step(next, n, s.direction) else next;
      !t.players[i].isCurrentPlayer
      && (seat != i ==> t.players[seat].isCurrentPlayer)
      && (forall k :: 0 <= k < n && k != i && k != seat ==> t.players[k].isCurrentPlayer == s.players[k].isCurrentPlayer)
      && (seat == i ==> t.currentPlayerId == s.players[i].id)
  {
  }

  /** With two seats a skip hands the turn back to the player, who is left unflagged. */
  lemma ClientTwoSeatSkip(s: GameState, i: int, c: int)
    requires |s.players| == 2 && 0 <= i < 2 && 0 <= c < |s.players[i].cards|
    requires s.players[i].cards[c].value == Skip
    ensures var t := Resolve(s, i, c);
      t.currentPlayerId == s.players[i].id && !t.players[i].isCurrentPlayer
  {
    TwoStepsOfTwoSeats(i, s.direction);
  }

  /** DRAW_CARD is ignored unless the player is current; otherwise the
      player gains the last card of the pile if there is one, the pile
      shrinks by as much, and the turn moves one step on. */
  lemma ClientDraw(s: GameState, playerId: string)
    ensures playerId != s.currentPlayerId ==> Draw(s, playerId) == Next(s)
    ensures playerId == s.currentPlayerId && s.players == [] ==> Draw(s, playerId) == Throws
    ensures playerId == s.currentPlayerId && playerId in PlayerIds(s.players) ==>
      var i := IndexOf(PlayerIds(s.players), playerId);
      var k := Min(1, |s.deck|);
      var t := Draw(s, playerId).state;
      t.players[i].cards == s.players[i].cards + s.deck[|s.deck| - k..]
      && t.deck == s.deck[..|s.deck| - k]
      && t.currentPlayerId == s.players[Step(i, |s.players|, s.direction)].id
  {
  }

  /** A draw changes no id or name and no hand but the drawer's (none when
      the id names nobody). */
  lemma ClientDrawKeepsOthers(s: GameState, playerId: string)
    requires Draw(s, playerId).Next?
    ensures var t := Draw(s, playerId).state;
      var i := IndexOf(PlayerIds(s.players), playerId);
      |t.players| == |s.players|
      && forall k :: 0 <= k < |s.players| ==>
           t.players[k].id == s.players[k].id && t.players[k].name == s.players[k].name
           && (k != i ==> t.players[k].cards == s.players[k].cards)
  {
    if playerId == s.currentPlayerId {
      var i := IndexOf(PlayerIds(s.players), playerId);
      var k := Min(1, |s.deck|);
      var next := Step(i, |s.players|, s.direction);
      var hand := if i == -1 then [] else s.players[i].cards + GameUtils.Popped(s.deck, k);
      SeatsKeepOthers(s.players, i, hand, next, []);
    }
  }

  /** A current player id that names nobody still draws: the card leaves
      the pile and is lost, and the turn moves one step on from seat -1,
      which is the first seat clockwise and the second-to-last seat
      counterclockwise (the only seat of a one-seat table). */
  lemma ClientDrawByNobody(s: GameState, playerId: string)
    requires playerId == s.currentPlayerId && playerId !in PlayerIds(s.players) && s.players != [] && s.deck != []
    ensures var t := Draw(s, playerId).state;
      var n := |s.players|;
      t.deck == s.deck[..|s.deck| - 1]
      && (forall k :: 0 <= k < n ==> t.players[k].cards == s.players[k].cards)
      && t.currentPlayerId == s.players[Step(-1, n, s.direction)].id
      && (s.direction == Clockwise ==> t.currentPlayerId == s.players[0].id)
      && (s.direction == Counterclockwise ==> t.currentPlayerId == s.players[if n == 1 then 0 else n - 2].id)
  {
  }

  /** SAY_UNO changes nothing. */
  lemma SayUnoInert(s: GameState, src: GameUtils.DeckSource)
    requires GameUtils.ValidSource(src)
    ensures Reduce(s, SayUno, src) == Next(s)
  {
  }
}
