/** The client's own copy of the rules: `gameReducer` and `initialState`.
    The reducer is a pure function from a state and an action to the next
    state; a JavaScript TypeError thrown while building that state is the
    `Throws` outcome. Card ids and the shuffle of START_GAME come from a
    `DeckSource`, as on the server. */
module GameReducer {
  import opened CardTypes
  import opened TurnOrder
  import GameUtils

  const InitialState := GameState([], "", None, Clockwise, [], Waiting, None)

  /** The reducer's result: the next state, or a thrown TypeError. */
  datatype Outcome = Next(state: GameState) | Throws

  /** The ids of the seated players, in seat order, over the client's
      `Player`, which has no socket id; `Server.PlayerIds` is the same map
      over the server's record. */
  function PlayerIds(ps: seq<Player>): (r: seq<string>)
    ensures |r| == |ps|
    ensures forall k :: 0 <= k < |ps| ==> r[k] == ps[k].id
  {
    seq(|ps|, k requires 0 <= k < |ps| => ps[k].id)
  }

  /** JOIN_GAME: append an unflagged player with an empty hand. */
  function Join(s: GameState, playerId: string, playerName: string): (t: GameState)
    ensures |t.players| == |s.players| + 1 && t.players[..|s.players|] == s.players
    ensures t.players[|s.players|].cards == [] && !t.players[|s.players|].isCurrentPlayer
    ensures t == s.(players := t.players)
  {
    s.(players := s.players + [Player(playerId, playerName, [], false)])
  }

  /** START_GAME: open a new deck, then give each player the result of
      `drawCards(deck, 7)` on that same deck, whose `updatedDeck` is
      dropped. Indexing the first of no players throws. */
  function Start(s: GameState, src: GameUtils.DeckSource): (r: Outcome)
    requires GameUtils.ValidSource(src)
    ensures r == Throws <==> s.players == []
    ensures r.Next? ==>
      |r.state.players| == |s.players| && r.state.gameStatus == Playing
      && r.state.currentPlayerId == s.players[0].id && r.state.topCard.Some?
  {
    var (top, deck) := GameUtils.Opening(GameUtils.NewDeck(src));
    var hand := GameUtils.Popped(deck, Min(7, |deck|));
    var ps := seq(|s.players|, k requires 0 <= k < |s.players| => s.players[k].(cards := hand, isCurrentPlayer := k == 0));
    if ps == [] then Throws
    else Next(s.(players := ps, currentPlayerId := ps[0].id, topCard := Some(top), deck := deck, gameStatus := Playing))
  }

  /** The `map` over the players that a successful PLAY_CARD or DRAW_CARD
      builds: seat `i` gets `hand` and loses its flag; otherwise seat `next`
      gains `drawn` and the flag; everyone else is left alone. */
  function Seats(ps: seq<Player>, i: int, hand: seq<Card>, next: int, drawn: seq<Card>): (r: seq<Player>)
    ensures |r| == |ps|
    ensures forall k :: 0 <= k < |ps| ==>
      r[k] == if k == i then ps[k].(cards := hand, isCurrentPlayer := false)
              else if k == next then ps[k].(cards := ps[k].cards + drawn, isCurrentPlayer := true)
              else ps[k]
  {
    seq(|ps|, k requires 0 <= k < |ps| =>
      if k == i then ps[k].(cards := hand, isCurrentPlayer := false)
      else if k == next then ps[k].(cards := ps[k].cards + drawn, isCurrentPlayer := true)
      else ps[k])
  }

  /** The play of card `c` of seat `i`, with no legality check. */
  function Resolve(s: GameState, i: int, c: int): (t: GameState)
    requires 0 <= i < |s.players| && 0 <= c < |s.players[i].cards|
    ensures |t.players| == |s.players|
    ensures t.players[i].cards == RemoveAt(s.players[i].cards, c) && !t.players[i].isCurrentPlayer
    ensures t.topCard == Some(s.players[i].cards[c])
    ensures t.gameStatus == Finished <==> |s.players[i].cards| == 1
    ensures t == s.(players := t.players, currentPlayerId := t.currentPlayerId, topCard := t.topCard,
                    direction := t.direction, deck := t.deck, gameStatus := t.gameStatus, winner := t.winner)
    ensures s.players[i].cards[c].value != Reverse ==> t.direction == s.direction
    ensures s.players[i].cards[c].value !in {Draw2, WildDraw4} ==> t.deck == s.deck
  {
    var n := |s.players|;
    var card := s.players[i].cards[c];
    var rest := RemoveAt(s.players[i].cards, c);
    var isWinner := |rest| == 0;
    var status := if isWinner then Finished else Playing;
    var winner := if isWinner then Some(s.players[i].id) else None;
    var next := Step(i, n, s.direction);
    if card.value == Reverse then
      s.(direction := Flip(s.direction), topCard := Some(card), players := Seats(s.players, i, rest, next, []),
         currentPlayerId := s.players[next].id, gameStatus := status, winner := winner)
    else if card.value == Draw2 || card.value == WildDraw4 then
      var k := Min(if card.value == Draw2 then 2 else 4, |s.deck|);
      s.(deck := GameUtils.Remaining(s.deck, k), topCard := Some(card),
         players := Seats(s.players, i, rest, next, GameUtils.Popped(s.deck, k)),
         currentPlayerId := s.players[next].id, gameStatus := status, winner := winner)
    else
      var seat := if card.value == Skip then Step(next, n, s.direction) else next;
      s.(topCard := Some(card), players := Seats(s.players, i, rest, seat, []),
         currentPlayerId := s.players[seat].id, gameStatus := status, winner := winner)
  }

  /** PLAY_CARD: ignored unless the player is current and holds the card. */
  function Play(s: GameState, cardId: string, playerId: string): (t: GameState)
    ensures |t.players| == |s.players|
    ensures playerId != s.currentPlayerId || playerId !in PlayerIds(s.players) ==> t == s
    ensures t != s ==> t.topCard.Some? && t.topCard.value.id == cardId
  {
    var i := IndexOf(PlayerIds(s.players), playerId);
    if i == -1 || s.players[i].id != s.currentPlayerId then s
    else
      var c := IndexOf(Ids(s.players[i].cards), cardId);
      if c == -1 then s else Resolve(s, i, c)
  }

  /** DRAW_CARD: ignored unless the player is current. The turn moves one
      step from where the player was found (from -1 when nowhere); with no
      players the seat is `NaN` and reading its id throws. */
  function Draw(s: GameState, playerId: string): (r: Outcome)
    ensures playerId != s.currentPlayerId ==> r == Next(s)
    ensures r == Throws <==> playerId == s.currentPlayerId && s.players == []
    ensures r.Next? ==> |r.state.players| == |s.players|
    ensures r.Next? && playerId == s.currentPlayerId ==> |r.state.deck| == |s.deck| - Min(1, |s.deck|)
    ensures r.Next? ==> r.state == s.(players := r.state.players, currentPlayerId := r.state.currentPlayerId, deck := r.state.deck)
  {
    if s.currentPlayerId != playerId then Next(s)
    else
      var k := Min(1, |s.deck|);
      var i := IndexOf(PlayerIds(s.players), playerId);
      var n := |s.players|;
      if n == 0 then Throws
      else
        var next := Step(i, n, s.direction);
        var hand := if i == -1 then [] else s.players[i].cards + GameUtils.Popped(s.deck, k);
        Next(s.(deck := GameUtils.Remaining(s.deck, k), players := Seats(s.players, i, hand, next, []),
                currentPlayerId := s.players[next].id))
  }

  /** `gameReducer`. */
  function Reduce(s: GameState, a: GameAction, src: GameUtils.DeckSource): (r: Outcome)
    requires GameUtils.ValidSource(src)
    ensures r == Throws ==> (a.StartGame? && s.players == []) || (a.DrawCard? && s.players == [])
    ensures a.SayUno? ==> r == Next(s)
    ensures a.JoinGame? || a.PlayCard? ==> r.Next? && |r.state.players| == |s.players| + (if a.JoinGame? then 1 else 0)
  {
    match a
    case JoinGame(playerId, playerName) => Next(Join(s, playerId, playerName))
    case StartGame => Start(s, src)
    case PlayCard(cardId, playerId, _) => Next(Play(s, cardId, playerId))
    case DrawCard(playerToDraw) => Draw(s, playerToDraw)
    case SayUno => Next(s)
  }
}
