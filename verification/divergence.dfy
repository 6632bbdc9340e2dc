/** Where the client's copy of the rules parts from the server's, stated
    on states the two have in common. */
module Divergence {
  import opened CardTypes
  import opened TurnOrder
  import GameUtils
  import Server
  import ServerRules
  import GameReducer

  /** The client's view of a server record: players without their socket,
      and the top card without its named colour. */
  function Strip(s: Server.ServerState): (g: GameState)
    ensures |g.players| == |s.players|
    ensures forall k :: 0 <= k < |s.players| ==>
      g.players[k] == Player(s.players[k].id, s.players[k].name, s.players[k].cards, s.players[k].isCurrentPlayer)
    ensures g.deck == s.deck && g.currentPlayerId == s.currentPlayerId && g.direction == s.direction
    ensures g.topCard == if s.topCard.None? then None else Some(s.topCard.value.card)
  {
    GameState(
      seq(|s.players|, k requires 0 <= k < |s.players| =>
        Player(s.players[k].id, s.players[k].name, s.players[k].cards, s.players[k].isCurrentPlayer)),
      s.currentPlayerId,
      if s.topCard.None? then None else Some(s.topCard.value.card),
      s.direction, s.deck, s.gameStatus, s.winner)
  }

  /** On a wild top card the client accepts every card; the server accepts
      a coloured card only when it matches the named colour, and none at
      all when no colour was named. */
  lemma WildTopLegality(card: Card, top: Server.TopCard)
    requires WellFormed(card) && WellFormed(top.card) && card.color != Wild && top.card.color == Wild
    ensures GameUtils.CanPlayCard(card, top.card)
    ensures Server.CanPlayCard(card, Some(top)) == Some(Server.Truthy(top.chosenColor) && top.chosenColor.value == ColorName(card.color))
  {
  }

  /** One step never stays put when there are two or more seats. */
  lemma StepMoves(i: int, n: int, dir: Direction)
    requires 2 <= n && 0 <= i < n
    ensures Step(i, n, dir) != i
  {
  }

  /** After a draw2 the server gives the turn to the player after the one
      who drew, the client to the one who drew; with distinct ids the two
      name different players. */
  lemma Draw2Turn(s: Server.ServerState, i: int, c: int, chosenColor: Option<string>, src: GameUtils.DeckSource)
    requires GameUtils.ValidSource(src)
    requires 2 <= |s.players| && 0 <= i < |s.players| && 0 <= c < |s.players[i].cards|
    requires s.players[i].cards[c].value == Draw2
    requires Distinct(Server.PlayerIds(s.players))
    ensures var next := Step(i, |s.players|, s.direction);
      Server.Resolve(s, i, c, chosenColor, src).currentPlayerId == s.players[Step(next, |s.players|, s.direction)].id
      && GameReducer.Resolve(Strip(s), i, c).currentPlayerId == s.players[next].id
      && Server.Resolve(s, i, c, chosenColor, src).currentPlayerId != GameReducer.Resolve(Strip(s), i, c).currentPlayerId
  {
    var n := |s.players|;
    var next := Step(i, n, s.direction);
    var after := Step(next, n, s.direction);
    StepMoves(next, n, s.direction);
    assert Server.PlayerIds(s.players)[after] != Server.PlayerIds(s.players)[next];
  }

  /** A draw from an empty pile: the server refills it and the player gets
      a card; the client's player gets nothing. */
  lemma EmptyPileDraw(s: Server.ServerState, playerId: string, src: GameUtils.DeckSource)
    requires GameUtils.ValidSource(src)
    requires s.deck == [] && playerId == s.currentPlayerId && playerId in Server.PlayerIds(s.players)
    ensures var i := IndexOf(Server.PlayerIds(s.players), playerId);
      var g := GameReducer.Draw(Strip(s), playerId);
      Server.Drawn(s, playerId, src).0 == None
      && |Server.Drawn(s, playerId, src).1.players[i].cards| == |s.players[i].cards| + 1
      && g.Next? && g.state.players[i].cards == s.players[i].cards
  {
    var i := IndexOf(Server.PlayerIds(s.players), playerId);
    ServerRules.DrawTakesOne(s, playerId, src);
    assert GameReducer.PlayerIds(Strip(s).players) == Server.PlayerIds(s.players);
  }

  /** At the start the client deals every player the same hand; the server
      deals the first two seats different hands, since a new deck's card ids
      are distinct. */
  lemma StartingHands(s: Server.ServerState, src: GameUtils.DeckSource)
    requires GameUtils.ValidSource(src) && Distinct(src.ids)
    requires 2 <= |s.players|
    ensures Server.Started(s, src).1.players[0].cards != Server.Started(s, src).1.players[1].cards
    ensures GameReducer.Start(Strip(s), src).state.players[0].cards == GameReducer.Start(Strip(s), src).state.players[1].cards
  {
    var t := Server.Started(s, src).1;
    ServerRules.StartDealsFromPile(s, src, 0);
    ServerRules.StartDealsFromPile(s, src, 1);
    TopTwoDistinct(s, src);
    FirstTwoHandsDiffer(t.deck, |s.players|);
  }

  /** The two cards on top of the server's stored pile have different ids. */
  lemma TopTwoDistinct(s: Server.ServerState, src: GameUtils.DeckSource)
    requires GameUtils.ValidSource(src) && Distinct(src.ids)
    requires 2 <= |s.players|
    ensures var d := Server.Started(s, src).1.deck;
      |d| >= 2 && d[|d| - 1] != d[|d| - 2]
  {
    GameUtils.NewDeckIdsDistinct(src);
    ServerRules.StartOpening(s, src);
    var d := Server.Started(s, src).1.deck;
    var nd := GameUtils.NewDeck(src);
    assert d == nd[..|d|];
    assert Ids(nd)[|d| - 1] != Ids(nd)[|d| - 2];
  }

  /** With two different cards on top of the pile, the first two seats get
      different first cards, so different hands. */
  lemma FirstTwoHandsDiffer(d: seq<Card>, n: nat)
    requires 2 <= n && 2 <= |d| && d[|d| - 1] != d[|d| - 2]
    ensures GameUtils.Dealt(d, n, 0, 7) != GameUtils.Dealt(d, n, 1, 7)
  {
    assert GameUtils.Dealt(d, n, 0, 1) == [d[|d| - 1]];
    assert GameUtils.Dealt(d, n, 1, 1) == [d[|d| - 2]];
    DealtPrefix(d, n, 0, 1, 7);
    DealtPrefix(d, n, 1, 1, 7);
    assert GameUtils.Dealt(d, n, 0, 7)[0] == d[|d| - 1];
    assert GameUtils.Dealt(d, n, 1, 7)[0] == d[|d| - 2];
  }

  /** Dealing more rounds only adds to the end of a hand. */
  lemma {:induction false} DealtPrefix(deck: seq<Card>, n: nat, p: nat, r: nat, rounds: nat)
    requires p < n && r <= rounds
    ensures GameUtils.Dealt(deck, n, p, r) <= GameUtils.Dealt(deck, n, p, rounds)
  {
    if r < rounds {
      DealtPrefix(deck, n, p, r, rounds - 1);
    }
  }
}
