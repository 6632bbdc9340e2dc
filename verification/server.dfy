/** The server's rules engine: the one mutable game record, the handlers
    that change it, the legality test and the per-viewer projection.

    Each handler is written twice: as a pure transition function on
    `ServerState` (the specification), and as a method of `Game` that
    updates the record field by field in the order the handler does; the
    method's postcondition ties the two together. Errors sent back to the
    calling socket are an `Error` result; a JavaScript TypeError raised
    half-way through a handler is the `TypeError` result, with the record
    as it stood when it was raised. */
module Server {
  import opened CardTypes
  import opened TurnOrder
  import GameUtils

  /** A player as the server stores it: the client's fields plus the socket it joined on. */
  datatype Player = Player(id: string, name: string, socketId: string, cards: seq<Card>, isCurrentPlayer: bool)

  /** The top of the discard pile: a card, and the colour named when a wild card was played.
      `None` stands for a missing, `null` or `undefined` colour. */
  datatype TopCard = TopCard(card: Card, chosenColor: Option<string>)

  /** The server's game record. */
  datatype ServerState = ServerState(
    players: seq<Player>,
    currentPlayerId: string,
    topCard: Option<TopCard>,
    direction: Direction,
    deck: seq<Card>,
    gameStatus: Status,
    winner: Option<string>)

  /** The record when the server starts, and the record `reset_game` restores apart from the players. */
  const Initial := ServerState([], "", None, Clockwise, [], Waiting, None)

  /** What a handler reports to the calling socket instead of changing the game. */
  datatype Error = NotYourTurn | CardNotFound | CannotPlay | NeedTwoPlayers | TypeError

  /** The text of the `error` event sent for a refusal. A TypeError is
      not sent to the socket. */
  function Message(e: Error): (m: string)
    requires e != TypeError
  {
    match e
    case NotYourTurn => "Not your turn"
    case CardNotFound => "Card not found"
    case CannotPlay => "Cannot play this card"
    case NeedTwoPlayers => "Need at least 2 players to start the game"
  }

  /** The ids of the seated players, in seat order: the `findIndex(p => p.id === …)`
      lookups search this. The server's `Player` carries a socket id and the
      client's does not, so `GameReducer.PlayerIds` is the same map over the
      other record type. */
  function PlayerIds(ps: seq<Player>): (r: seq<string>)
    ensures |r| == |ps|
    ensures forall k :: 0 <= k < |ps| ==> r[k] == ps[k].id
  {
    seq(|ps|, k requires 0 <= k < |ps| => ps[k].id)
  }

  function Sockets(ps: seq<Player>): (r: seq<string>)
    ensures |r| == |ps|
    ensures forall k :: 0 <= k < |ps| ==> r[k] == ps[k].socketId
  {
    seq(|ps|, k requires 0 <= k < |ps| => ps[k].socketId)
  }

  /** The `map` that flags seat `k` and unflags every other seat. */
  function Flag(ps: seq<Player>, k: int): (r: seq<Player>)
    ensures |r| == |ps|
    ensures forall j :: 0 <= j < |ps| ==> r[j] == ps[j].(isCurrentPlayer := j == k)
  {
    seq(|ps|, j requires 0 <= j < |ps| => ps[j].(isCurrentPlayer := j == k))
  }

  /** The `filter` that drops every player who joined on socket `socketId`. */
  function Without(ps: seq<Player>, socketId: string): (r: seq<Player>)
    ensures |r| <= |ps|
    ensures forall p: Player :: p in r ==> p in ps && p.socketId != socketId
    ensures forall p: Player :: p.socketId != socketId ==> multiset(r)[p] == multiset(ps)[p]
    ensures socketId in Sockets(ps) ==> |r| < |ps|
  {
    if ps == [] then []
    else
      var rest := Without(ps[1..], socketId);
      assert ps == [ps[0]] + ps[1..];
      if ps[0].socketId == socketId then rest else [ps[0]] + rest
  }

  // ---------------------------------------------------------------------
  // Legality

  /** A colour name is truthy exactly when it is present and not empty. */
  predicate Truthy(c: Option<string>) {
    c.Some? && c.value != ""
  }

  /** `canPlayCard` on the server. `None` is the TypeError raised when a
      coloured card is compared with a missing top card. */
  function CanPlayCard(card: Card, topCard: Option<TopCard>): (r: Option<bool>)
    ensures r.None? <==> card.color != Wild && topCard.None?
    ensures card.color == Wild ==> r == Some(true)
    ensures card.color != Wild && topCard.Some? ==>
      (r == Some(true) <==>
         card.color == topCard.value.card.color
         || card.value == topCard.value.card.value
         || (topCard.value.card.color == Wild && topCard.value.chosenColor == Some(ColorName(card.color))))
  {
    if card.color == Wild then Some(true)
    else if topCard.None? then None
    else
      var top := topCard.value;
      if card.color == top.card.color then Some(true)
      else if card.value == top.card.value then Some(true)
      else if top.card.color == Wild && Truthy(top.chosenColor) then Some(ColorName(card.color) == top.chosenColor.value)
      else Some(false)
  }

  // ---------------------------------------------------------------------
  // The pile

  /** `drawCards` on the server: pop `count` cards off the pile; when the
      pile runs dry first, replace it by a refill deck and pop the rest off
      that. The result is the cards drawn and the pile left. */
  function DrawFromPile(pile: seq<Card>, count: nat, src: GameUtils.DeckSource): (r: (seq<Card>, seq<Card>))
    requires GameUtils.ValidSource(src)
    ensures |r.0| == Min(count, |pile| + GameUtils.DeckSize)
    ensures count <= |pile| ==> r.1 + GameUtils.Reversed(r.0) == pile
    ensures count > |pile| ==> r.0[..|pile|] == GameUtils.Reversed(pile) && r.1 + GameUtils.Reversed(r.0[|pile|..]) == GameUtils.NewDeck(src)
  {
    if count <= |pile| then
      GameUtils.ReversedTwice(pile[|pile| - count..]);
      assert pile[..|pile| - count] + pile[|pile| - count..] == pile;
      (GameUtils.Popped(pile, count), GameUtils.Remaining(pile, count))
    else
      var refill := GameUtils.NewDeck(src);
      var k := Min(count - |pile|, |refill|);
      GameUtils.ReversedTwice(refill[|refill| - k..]);
      assert refill[..|refill| - k] + refill[|refill| - k..] == refill;
      assert (GameUtils.Popped(pile, |pile|) + GameUtils.Popped(refill, k))[|pile|..] == GameUtils.Popped(refill, k);
      (GameUtils.Popped(pile, |pile|) + GameUtils.Popped(refill, k), GameUtils.Remaining(refill, k))
  }

  /** `DrawFromPile` in each of its two cases, for the loops that compute it. */
  lemma DrawFromPileCases(pile: seq<Card>, count: nat, src: GameUtils.DeckSource)
    requires GameUtils.ValidSource(src)
    ensures count <= |pile| ==>
      DrawFromPile(pile, count, src) == (GameUtils.Popped(pile, count), GameUtils.Remaining(pile, count))
    ensures count > |pile| ==>
      var refill := GameUtils.NewDeck(src);
      var k := Min(count - |pile|, GameUtils.DeckSize);
      |refill| == GameUtils.DeckSize
      && DrawFromPile(pile, count, src) == (GameUtils.Popped(pile, |pile|) + GameUtils.Popped(refill, k), GameUtils.Remaining(refill, k))
  {
  }

  /** Cards the play of a value makes the next player draw. */
  function Penalty(v: Value): (k: nat)
    ensures k > 0 <==> v == Draw2 || v == WildDraw4
  {
    if v == Draw2 then 2 else if v == WildDraw4 then 4 else 0
  }

  /** The seat the turn passes to after a card of value `v` is played from
      seat `i`: one step in direction `dir`, and one more for skip, draw2
      and wild_draw4. A reverse does not re-take the step. */
  function NextSeat(i: int, n: int, dir: Direction, v: Value): (r: int)
    requires 0 <= i < n
    ensures 0 <= r < n
    ensures v != Skip && Penalty(v) == 0 ==> r == Step(i, n, dir)
    ensures (v == Skip || Penalty(v) > 0) ==> r == Step(Step(i, n, dir), n, dir)
  {
    var next := Step(i, n, dir);
    if v == Skip || v == Draw2 || v == WildDraw4 then Step(next, n, dir) else next
  }

  // ---------------------------------------------------------------------
  // The handlers as transitions

  /** `join_game`: append a player with an empty hand, flagged only when
      the table was empty. */
  function Joined(s: ServerState, playerId: string, playerName: string, socketId: string): (t: ServerState)
    ensures |t.players| == |s.players| + 1 && t.players[..|s.players|] == s.players
    ensures t.players[|s.players|].cards == [] && (t.players[|s.players|].isCurrentPlayer <==> s.players == [])
    ensures t == s.(players := t.players)
  {
    s.(players := s.players + [Player.Player(playerId, playerName, socketId, [], |s.players| == 0)])
  }

  /** `start_game`: refused with fewer than two players; otherwise a new
      deck is opened and dealt, and the first seat starts. */
  function Started(s: ServerState, src: GameUtils.DeckSource): (r: (Option<Error>, ServerState))
    requires GameUtils.ValidSource(src)
    ensures r.0.Some? <==> |s.players| < 2
    ensures r.0.Some? ==> r == (Some(NeedTwoPlayers), s)
    ensures r.0.None? ==>
      var t := r.1;
      |t.players| == |s.players| && t.gameStatus == Playing && t.currentPlayerId == s.players[0].id
      && t.topCard.Some? && t.topCard.value.chosenColor.None?
      && t.direction == s.direction && t.winner == s.winner
  {
    if |s.players| < 2 then (Some(NeedTwoPlayers), s)
    else
      var (top, pile) := GameUtils.Opening(GameUtils.NewDeck(src));
      var n := |s.players|;
      var ps := seq(n, k requires 0 <= k < n => s.players[k].(cards := GameUtils.Dealt(pile, n, k, 7), isCurrentPlayer := k == 0));
      (None, s.(players := ps, currentPlayerId := ps[0].id, topCard := Some(TopCard(top, None)),
                deck := pile, gameStatus := Playing))
  }

  /** The forced draw of a draw2 or wild_draw4 played from seat `i`: the
      player one step on gains the cards drawn. The result is the players
      and the pile afterwards; other values change neither. */
  function Penalised(s: ServerState, i: int, v: Value, src: GameUtils.DeckSource): (r: (seq<Player>, seq<Card>))
    requires GameUtils.ValidSource(src)
    requires 0 <= i < |s.players|
    ensures |r.0| == |s.players|
    ensures forall k :: 0 <= k < |s.players| && (Penalty(v) == 0 || k != Step(i, |s.players|, s.direction)) ==>
      r.0[k] == s.players[k]
    ensures Penalty(v) == 0 ==> r.1 == s.deck
    ensures Penalty(v) > 0 ==>
      var next := Step(i, |s.players|, s.direction);
      r.0[next] == s.players[next].(cards := r.0[next].cards)
      && |r.0[next].cards| == |s.players[next].cards| + Penalty(v)
      && r.0[next].cards[..|s.players[next].cards|] == s.players[next].cards
  {
    if Penalty(v) == 0 then (s.players, s.deck)
    else
      var next := Step(i, |s.players|, s.direction);
      var (drawn, pile) := DrawFromPile(s.deck, Penalty(v), src);
      (s.players[next := s.players[next].(cards := s.players[next].cards + drawn)], pile)
  }

  /** `Penalised` in each of its two cases, for the method that computes it. */
  lemma PenalisedCases(s: ServerState, i: int, v: Value, src: GameUtils.DeckSource)
    requires GameUtils.ValidSource(src)
    requires 0 <= i < |s.players|
    ensures Penalty(v) == 0 ==> Penalised(s, i, v, src) == (s.players, s.deck)
    ensures Penalty(v) > 0 ==>
      var next := Step(i, |s.players|, s.direction);
      var (drawn, pile) := DrawFromPile(s.deck, Penalty(v), src);
      Penalised(s, i, v, src) == (s.players[next := s.players[next].(cards := s.players[next].cards + drawn)], pile)
  {
  }

  /** The forced draw reads only the players, the pile and the direction. */
  lemma PenalisedFrame(s: ServerState, t: ServerState, i: int, v: Value, src: GameUtils.DeckSource)
    requires GameUtils.ValidSource(src)
    requires 0 <= i < |s.players|
    requires s.players == t.players && s.deck == t.deck && s.direction == t.direction
    ensures Penalised(s, i, v, src) == Penalised(t, i, v, src)
  {
  }

  /** The legal play of card `c` of seat `i`, with all its effects. */
  function Resolve(s: ServerState, i: int, c: int, chosenColor: Option<string>, src: GameUtils.DeckSource): (t: ServerState)
    requires GameUtils.ValidSource(src)
    requires 0 <= i < |s.players| && 0 <= c < |s.players[i].cards|
    ensures |t.players| == |s.players|
    ensures t.players[i].cards == RemoveAt(s.players[i].cards, c)
    ensures t.topCard.Some? && t.topCard.value.card == s.players[i].cards[c]
    ensures var seat := NextSeat(i, |s.players|, s.direction, s.players[i].cards[c].value);
      t.currentPlayerId == t.players[seat].id
      && forall k :: 0 <= k < |t.players| ==> (t.players[k].isCurrentPlayer <==> k == seat)
    ensures |s.players[i].cards| == 1 ==> t.gameStatus == Finished && t.winner == Some(s.players[i].id)
    ensures |s.players[i].cards| > 1 ==> t.gameStatus == s.gameStatus && t.winner == s.winner
    ensures t.direction == if s.players[i].cards[c].value == Reverse then Flip(s.direction) else s.direction
    ensures t.deck == Penalised(s, i, s.players[i].cards[c].value, src).1
  {
    var p := s.players[i];
    var card := p.cards[c];
    var rest := RemoveAt(p.cards, c);
    var (victims, pile) := Penalised(s, i, card.value, src);
    var seat := NextSeat(i, |s.players|, s.direction, card.value);
    var ps := Flag(victims[i := victims[i].(cards := rest)], seat);
    ServerState(
      ps,
      ps[seat].id,
      Some(TopCard(card, if card.color == Wild then chosenColor else None)),
      if card.value == Reverse then Flip(s.direction) else s.direction,
      pile,
      if rest == [] then Finished else s.gameStatus,
      if rest == [] then Some(p.id) else s.winner)
  }

  /** `Resolve` written out field by field, for the method that builds it. */
  lemma ResolveFields(s: ServerState, i: int, c: int, chosenColor: Option<string>, src: GameUtils.DeckSource)
    requires GameUtils.ValidSource(src)
    requires 0 <= i < |s.players| && 0 <= c < |s.players[i].cards|
    ensures var card := s.players[i].cards[c];
      var rest := RemoveAt(s.players[i].cards, c);
      var victims := Penalised(s, i, card.value, src).0;
      var seat := NextSeat(i, |s.players|, s.direction, card.value);
      var ps := Flag(victims[i := victims[i].(cards := rest)], seat);
      Resolve(s, i, c, chosenColor, src) == ServerState(
        ps, ps[seat].id, Some(TopCard(card, if card.color == Wild then chosenColor else None)),
        if card.value == Reverse then Flip(s.direction) else s.direction,
        Penalised(s, i, card.value, src).1,
        if rest == [] then Finished else s.gameStatus,
        if rest == [] then Some(s.players[i].id) else s.winner)
  {
  }

  /** `play_card`: refused unless the player is current, holds the card
      and the card is legal; a refused play changes nothing. */
  function Played(s: ServerState, cardId: string, playerId: string, chosenColor: Option<string>, src: GameUtils.DeckSource)
    : (r: (Option<Error>, ServerState))
    requires GameUtils.ValidSource(src)
    ensures r.0.Some? ==> r.1 == s
    ensures r.0 == Some(NotYourTurn) <==> playerId !in PlayerIds(s.players) || playerId != s.currentPlayerId
    ensures r.0 != Some(NeedTwoPlayers)
    ensures r.0.None? ==> |r.1.players| == |s.players| && r.1.topCard.Some?
  {
    var i := IndexOf(PlayerIds(s.players), playerId);
    if i == -1 || s.players[i].id != s.currentPlayerId then (Some(NotYourTurn), s)
    else
      var c := IndexOf(Ids(s.players[i].cards), cardId);
      if c == -1 then (Some(CardNotFound), s)
      else
        match CanPlayCard(s.players[i].cards[c], s.topCard)
        case None => (Some(TypeError), s)
        case Some(legal) => if legal then (None, Resolve(s, i, c, chosenColor, src)) else (Some(CannotPlay), s)
  }

  /** `draw_card`. The pile is popped before the player is looked up, so a
      current player id that names nobody raises a TypeError after the
      pile has changed. */
  function Drawn(s: ServerState, playerId: string, src: GameUtils.DeckSource): (r: (Option<Error>, ServerState))
    requires GameUtils.ValidSource(src)
    ensures r.0 in {None, Some(NotYourTurn), Some(TypeError)}
    ensures r.0 == Some(NotYourTurn) <==> playerId != s.currentPlayerId
    ensures r.0 == Some(NotYourTurn) ==> r.1 == s
    ensures r.0 == Some(TypeError) <==> playerId == s.currentPlayerId && playerId !in PlayerIds(s.players)
    ensures r.0 == Some(TypeError) ==> r.1 == s.(deck := r.1.deck) && |r.1.deck| == |s.deck| - 1 + if s.deck == [] then GameUtils.DeckSize else 0
    ensures r.0.None? ==> |r.1.players| == |s.players|
    ensures r.0.None? ==> r.1 == s.(players := r.1.players, currentPlayerId := r.1.currentPlayerId, deck := r.1.deck)
  {
    if s.currentPlayerId != playerId then (Some(NotYourTurn), s)
    else
      var (drawn, pile) := DrawFromPile(s.deck, 1, src);
      var i := IndexOf(PlayerIds(s.players), playerId);
      if i == -1 then (Some(TypeError), s.(deck := pile))
      else
        var n := |s.players|;
        var next := Step(i, n, s.direction);
        var ps := Flag(s.players[i := s.players[i].(cards := s.players[i].cards + drawn)], next);
        (None, s.(players := ps, currentPlayerId := ps[next].id, deck := pile))
  }

  /** `reset_game`: keep who is seated, empty every hand, clear every flag
      and restore every other field. */
  function Reset(s: ServerState): (t: ServerState)
    ensures t.(players := []) == Initial
    ensures |t.players| == |s.players|
    ensures forall k :: 0 <= k < |s.players| ==> t.players[k] == s.players[k].(cards := [], isCurrentPlayer := false)
  {
    Initial.(players := seq(|s.players|, k requires 0 <= k < |s.players| => s.players[k].(cards := [], isCurrentPlayer := false)))
  }

  /** `disconnect`: drop the players on `socketId`; when that leaves a game
      in progress short of two players, revert to waiting. */
  function Disconnected(s: ServerState, socketId: string): (t: ServerState)
    ensures socketId !in Sockets(s.players) ==> t == s
    ensures socketId in Sockets(s.players) ==> t.players == Without(s.players, socketId) && |t.players| < |s.players|
    ensures socketId in Sockets(s.players) && s.gameStatus == Playing && |t.players| < 2 ==> t == Initial.(players := t.players)
    ensures !(socketId in Sockets(s.players) && s.gameStatus == Playing && |t.players| < 2) ==> t == s.(players := t.players)
  {
    if IndexOf(Sockets(s.players), socketId) == -1 then s
    else
      var ps := Without(s.players, socketId);
      if s.gameStatus == Playing && |ps| < 2 then
        s.(players := ps, gameStatus := Waiting, winner := None, topCard := None, deck := [],
           currentPlayerId := "", direction := Clockwise)
      else s.(players := ps)
  }

  // ---------------------------------------------------------------------
  // What each player is sent

  /** A card as a viewer receives it: the card itself, or the placeholder
      whose id, colour and value are all `'hidden'`. */
  datatype ViewCard = Shown(card: Card) | Hidden

  datatype ViewPlayer = ViewPlayer(id: string, name: string, socketId: string, cards: seq<ViewCard>, isCurrentPlayer: bool)

  datatype View = View(
    players: seq<ViewPlayer>,
    currentPlayerId: string,
    topCard: Option<TopCard>,
    direction: Direction,
    deck: seq<Card>,
    gameStatus: Status,
    winner: Option<string>)

  /** The `game_update` sent to the player whose id is `viewerId`: hands of
      players with that id in full, every other hand as placeholders. */
  function Project(s: ServerState, viewerId: string): (v: View)
    ensures |v.players| == |s.players|
    ensures forall k :: 0 <= k < |s.players| ==>
      var p, q := s.players[k], v.players[k];
      |q.cards| == |p.cards| && q.id == p.id && q.name == p.name && q.socketId == p.socketId
      && q.isCurrentPlayer == p.isCurrentPlayer
    ensures forall k, j :: 0 <= k < |s.players| && 0 <= j < |s.players[k].cards| ==>
      v.players[k].cards[j] == if s.players[k].id == viewerId then Shown(s.players[k].cards[j]) else Hidden
    ensures v.currentPlayerId == s.currentPlayerId && v.topCard == s.topCard && v.direction == s.direction
    ensures v.deck == s.deck && v.gameStatus == s.gameStatus && v.winner == s.winner
  {
    var ps := seq(|s.players|, k requires 0 <= k < |s.players| =>
      var p := s.players[k];
      ViewPlayer(p.id, p.name, p.socketId,
        seq(|p.cards|, j requires 0 <= j < |p.cards| => if p.id == viewerId then Shown(p.cards[j]) else Hidden),
        p.isCurrentPlayer));
    View(ps, s.currentPlayerId, s.topCard, s.direction, s.deck, s.gameStatus, s.winner)
  }

  /** The `game_update` that `join_game` sends to the joining socket alone:
      the whole record after the join, with every hand in full. */
  function JoinReply(s: ServerState, playerId: string, playerName: string, socketId: string): (v: View)
    ensures |v.players| == |s.players| + 1
    ensures forall k :: 0 <= k < |s.players| ==> |v.players[k].cards| == |s.players[k].cards|
    ensures forall k, j :: 0 <= k < |s.players| && 0 <= j < |s.players[k].cards| ==>
      v.players[k].cards[j] == Shown(s.players[k].cards[j])
    ensures forall k :: 0 <= k < |s.players| ==>
      var p, q := s.players[k], v.players[k];
      q.id == p.id && q.name == p.name && q.socketId == p.socketId && q.isCurrentPlayer == p.isCurrentPlayer
    ensures v.players[|s.players|] == ViewPlayer(playerId, playerName, socketId, [], s.players == [])
    ensures v.currentPlayerId == s.currentPlayerId && v.topCard == s.topCard && v.direction == s.direction
    ensures v.deck == s.deck && v.gameStatus == s.gameStatus && v.winner == s.winner
  {
    var t := Joined(s, playerId, playerName, socketId);
    var ps := seq(|t.players|, k requires 0 <= k < |t.players| =>
      var p := t.players[k];
      ViewPlayer(p.id, p.name, p.socketId, seq(|p.cards|, j requires 0 <= j < |p.cards| => Shown(p.cards[j])), p.isCurrentPlayer));
    View(ps, t.currentPlayerId, t.topCard, t.direction, t.deck, t.gameStatus, t.winner)
  }

  // ---------------------------------------------------------------------
  // The record and its handlers

  class Game {
    var players: seq<Player>
    var currentPlayerId: string
    var topCard: Option<TopCard>
    var direction: Direction
    var deck: seq<Card>
    var gameStatus: Status
    var winner: Option<string>

    ghost function State(): ServerState
      reads this
    {
      ServerState(players, currentPlayerId, topCard, direction, deck, gameStatus, winner)
    }

    constructor ()
      ensures State() == Initial
    {
      players := [];
      currentPlayerId := "";
      topCard := None;
      direction := Clockwise;
      deck := [];
      gameStatus := Waiting;
      winner := None;
    }

    /** `drawCards`: pop up to `count` cards off the stored pile; when it
        runs dry first, store a refill deck and pop the rest off that. Each
        popping loop is the loop of the client's `drawCards`. */
    method DrawCards(count: nat, src: GameUtils.DeckSource) returns (cards: seq<Card>)
      requires GameUtils.ValidSource(src)
      modifies this
      ensures (cards, deck) == DrawFromPile(old(deck), count, src)
      ensures State() == old(State()).(deck := deck)
    {
      ghost var pile := deck;
      cards, deck := GameUtils.DrawCards(deck, count);
      if |deck| == 0 && |cards| < count {
        var newDeck := GameUtils.CreateDeck(src);
        deck := newDeck;
        var remainingCount := count - |cards|;
        var more;
        more, deck := GameUtils.DrawCards(deck, remainingCount);
        cards := cards + more;
      }
      DrawFromPileCases(pile, count, src);
    }

    /** `dealCards` on the server: the shared dealing loop, whose leftover
        pile it also stores. */
    method DealCards(pile: seq<Card>, playerCount: nat) returns (hands: seq<seq<Card>>)
      modifies this
      ensures |hands| == playerCount
      ensures forall p :: 0 <= p < playerCount ==> hands[p] == GameUtils.Dealt(pile, playerCount, p, 7)
      ensures State() == old(State()).(deck := pile[..|pile| - Min(7 * playerCount, |pile|)])
    {
      var remaining;
      hands, remaining := GameUtils.DealCards(pile, playerCount);
      deck := remaining;
    }

    method Join(playerId: string, playerName: string, socketId: string)
      modifies this
      ensures State() == Joined(old(State()), playerId, playerName, socketId)
    {
      var newPlayer := Player.Player(playerId, playerName, socketId, [], |players| == 0);
      players := players + [newPlayer];
    }

    method StartGame(src: GameUtils.DeckSource) returns (err: Option<Error>)
      requires GameUtils.ValidSource(src)
      modifies this
      ensures (err, State()) == Started(old(State()), src)
    {
      if |players| < 2 {
        return Some(NeedTwoPlayers);
      }
      ghost var s := State();
      var d := GameUtils.CreateDeck(src);
      var firstCard := d[|d| - 1];
      d := d[..|d| - 1];
      var top := firstCard;
      if firstCard.color == Wild {
        top := d[|d| - 1];
        d := d[..|d| - 1];
      }
      assert (top, d) == GameUtils.Opening(GameUtils.NewDeck(src));
      var n := |players|;
      var hands := DealCards(d, n);
      var ps := players;
      players := seq(n, k requires 0 <= k < n => ps[k].(cards := hands[k], isCurrentPlayer := k == 0));
      assert players == seq(n, k requires 0 <= k < n => s.players[k].(cards := GameUtils.Dealt(d, n, k, 7), isCurrentPlayer := k == 0));
      currentPlayerId := players[0].id;
      topCard := Some(TopCard(top, None));
      deck := d;
      gameStatus := Playing;
      err := None;
      assert Started(s, src) == (None, s.(players := players, currentPlayerId := players[0].id, topCard := topCard,
                                          deck := d, gameStatus := Playing));
    }

    method PlayCard(cardId: string, playerId: string, chosenColor: Option<string>, src: GameUtils.DeckSource)
      returns (err: Option<Error>)
      requires GameUtils.ValidSource(src)
      modifies this
      ensures (err, State()) == Played(old(State()), cardId, playerId, chosenColor, src)
    {
      var playerIndex := IndexOf(PlayerIds(players), playerId);
      if playerIndex == -1 || players[playerIndex].id != currentPlayerId {
        return Some(NotYourTurn);
      }
      var cardIndex := IndexOf(Ids(players[playerIndex].cards), cardId);
      if cardIndex == -1 {
        return Some(CardNotFound);
      }
      var playedCard := players[playerIndex].cards[cardIndex];
      var legal := CanPlayCard(playedCard, topCard);
      if legal.None? {
        return Some(TypeError);
      }
      if !legal.value {
        return Some(CannotPlay);
      }
      ResolvePlay(playerIndex, cardIndex, playerId, chosenColor, src);
      err := None;
    }

    /** The part of `play_card` after every check has passed. */
    method ResolvePlay(playerIndex: int, cardIndex: int, playerId: string, chosenColor: Option<string>, src: GameUtils.DeckSource)
      requires GameUtils.ValidSource(src)
      requires 0 <= playerIndex < |players| && 0 <= cardIndex < |players[playerIndex].cards|
      requires players[playerIndex].id == playerId
      modifies this
      ensures State() == Resolve(old(State()), playerIndex, cardIndex, chosenColor, src)
    {
      ghost var s := State();
      var playedCard := players[playerIndex].cards[cardIndex];
      var updatedCards := players[playerIndex].cards[..cardIndex] + players[playerIndex].cards[cardIndex + 1..];
      assert updatedCards == RemoveAt(s.players[playerIndex].cards, cardIndex);
      if |updatedCards| == 0 {
        winner := Some(playerId);
        gameStatus := Finished;
      }
      var updatedPlayedCard := if playedCard.color == Wild then TopCard(playedCard, chosenColor) else TopCard(playedCard, None);
      PenalisedFrame(s, State(), playerIndex, playedCard.value, src);
      var nextPlayerIndex := SpecialCard(playerIndex, playedCard.value, src);
      ghost var victims := players;
      players := players[playerIndex := players[playerIndex].(cards := updatedCards)];
      players := Flag(players, nextPlayerIndex);
      currentPlayerId := players[nextPlayerIndex].id;
      topCard := Some(updatedPlayedCard);
      assert victims == Penalised(s, playerIndex, playedCard.value, src).0;
      assert players == Flag(victims[playerIndex := victims[playerIndex].(cards := updatedCards)], nextPlayerIndex);
      ResolveFields(s, playerIndex, cardIndex, chosenColor, src);
    }

    /** The turn step of `play_card` and the effect of its value: the
        seat that plays next, a reversed direction, a forced draw. */
    method SpecialCard(playerIndex: int, value: Value, src: GameUtils.DeckSource) returns (nextPlayerIndex: int)
      requires GameUtils.ValidSource(src)
      requires 0 <= playerIndex < |players|
      modifies this
      ensures nextPlayerIndex == NextSeat(playerIndex, |old(players)|, old(direction), value)
      ensures (players, deck) == Penalised(old(State()), playerIndex, value, src)
      ensures State() == old(State()).(players := players, deck := deck,
                                        direction := if value == Reverse then Flip(old(direction)) else old(direction))
    {
      PenalisedCases(State(), playerIndex, value, src);
      var n := |players|;
      nextPlayerIndex := Step(playerIndex, n, direction);
      if value == Skip {
        nextPlayerIndex := Step(nextPlayerIndex, n, direction);
      } else if value == Reverse {
        direction := Flip(direction);
      } else if value == Draw2 {
        var drawnCards := DrawCards(2, src);
        players := players[nextPlayerIndex := players[nextPlayerIndex].(cards := players[nextPlayerIndex].cards + drawnCards)];
        nextPlayerIndex := Step(nextPlayerIndex, n, direction);
      } else if value == WildDraw4 {
        var drawnCards := DrawCards(4, src);
        players := players[nextPlayerIndex := players[nextPlayerIndex].(cards := players[nextPlayerIndex].cards + drawnCards)];
        nextPlayerIndex := Step(nextPlayerIndex, n, direction);
      }
    }

    method DrawCard(playerId: string, src: GameUtils.DeckSource) returns (err: Option<Error>)
      requires GameUtils.ValidSource(src)
      modifies this
      ensures (err, State()) == Drawn(old(State()), playerId, src)
    {
      if currentPlayerId != playerId {
        return Some(NotYourTurn);
      }
      var drawnCards := DrawCards(1, src);
      var playerIndex := IndexOf(PlayerIds(players), playerId);
      if playerIndex == -1 {
        return Some(TypeError);
      }
      players := players[playerIndex := players[playerIndex].(cards := players[playerIndex].cards + drawnCards)];
      var nextPlayerIndex := Step(playerIndex, |players|, direction);
      players := Flag(players, nextPlayerIndex);
      currentPlayerId := players[nextPlayerIndex].id;
      err := None;
    }

    method ResetGame()
      modifies this
      ensures State() == Reset(old(State()))
    {
      var ps := players;
      players := seq(|ps|, k requires 0 <= k < |ps| => ps[k].(cards := [], isCurrentPlayer := false));
      currentPlayerId := "";
      topCard := None;
      direction := Clockwise;
      deck := [];
      gameStatus := Waiting;
      winner := None;
    }

    method Disconnect(socketId: string)
      modifies this
      ensures State() == Disconnected(old(State()), socketId)
    {
      var playerIndex := IndexOf(Sockets(players), socketId);
      if playerIndex != -1 {
        players := Without(players, socketId);
        if gameStatus == Playing && |players| < 2 {
          gameStatus := Waiting;
          winner := None;
          topCard := None;
          deck := [];
          currentPlayerId := "";
          direction := Clockwise;
        }
      }
    }
  }
}
