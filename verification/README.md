# UNO rules engine, modelled in Dafny

This project models the rules engine of a two-sided UNO game. The server keeps one mutable
game record (`gameState`) and changes it in its socket handlers:
`join_game`, `start_game`, `play_card`, `draw_card`, `reset_game` and `disconnect`.
After `start_game`, `play_card`, `draw_card`, `reset_game` and `disconnect` it sends every seated
player a projection of the record in which the other players' hands are hidden. `join_game` is
the exception: it answers the joining socket alone with the whole record, every hand included. The client keeps its own copy of the rules: a pure reducer
(`gameReducer`) over the same kind of record, and the deck helpers of `src/utils/gameUtils.ts`.

The model has eight modules:

- `CardTypes` (`types.dfy`) holds the card colours and values, cards, the client's player and game
  records, and the reducer's actions.
- `TurnOrder` (`turn_order.dfy`) holds the seat arithmetic that both sides repeat inline: one step
  clockwise or counterclockwise, modulo the number of seats.
- `GameUtils` (`game_utils.dfy`) holds the deck builder, the Fisher-Yates shuffle, round-robin
  dealing, drawing off the end of a pile, and the client's legality test. The builder, shuffle
  and dealing loop are shared because the server's copies are the same code. The builder and
  the loops are methods proved against specification functions (`NewDeck`, `Shuffled`, `Dealt`,
  `Popped`/`Remaining`).
- `Server` (`server.dfy`) gives each handler twice. It is a pure transition on the value
  `ServerState`, and it is a method of the class `Game`, whose fields are the record's fields and
  which updates them in the order the handler does. Each method's postcondition equates the new
  record with the transition applied to the old one. The module also holds the server's legality
  test, its draw-with-refill, and the per-viewer projection.
- `ServerRules` (`server_rules.dfy`) holds what the handlers guarantee, including the places where
  they fall short of the game's rules.
- `GameReducer` (`game_reducer.dfy`) holds the client reducer and its initial state as functions.
- `ReducerRules` (`reducer_rules.dfy`) holds what the reducer does with each action.
- `Divergence` (`divergence.dfy`) holds where the two copies of the rules give different answers
  on the same record.

Randomness and fresh ids are inputs. Every call of the deck builder takes a `DeckSource`: 108
card ids plus, for each position `i` of the shuffle, the partner `j` with `0 <= j <= i` that
`Math.floor(Math.random() * (i + 1))` would produce. A JavaScript TypeError raised inside a
handler is an explicit outcome, with the record as it stood when the error was raised: the
server's `TypeError` error, and the reducer's `Throws`.

The model follows the code in four places where it departs from the usual UNO rules or from
the record's own initial values:

- `start_game` pops the top card before dealing, where UNO deals first and turns the top card
  from what is left. The pile stored afterwards is the whole pile the hands were dealt from, so
  every dealt card is also still in the pile.
- `start_game` does not reset the direction or the winner to the initial record's `clockwise`
  and `null`, which `reset_game` does.
- A winning play still applies its card's effect (the turn moves on and a forced draw happens),
  where UNO ends the game when the last card is played.
- After a reverse, the turn goes one step in the old direction, where UNO passes it in the new one.

## Model

| member | source | states |
|---|---|---|
| CardTypes.IndexOf | server/index.js:106 | `findIndex`: -1 exactly when the item is absent, otherwise the first position holding it |
| CardTypes.RemoveAt | server/index.js:128-131 | the hand without position `k`: one card shorter, order kept, and as a multiset exactly the old hand less the played card |
| CardTypes.Flip | server/index.js:164 | flipping always changes the direction |
| TurnOrder.Step | server/index.js:145-150 | the next seat is in range; clockwise it wraps from the last seat to 0, counterclockwise from 0 to the last; from -1 (player not found) it is seat 0 or `n - 2` |
| TurnOrder.Wrap | server/index.js:147-149 | `%` on the operands that occur adds or subtracts the seat count at most once, as JavaScript's `%` does for them |
| TurnOrder.StepUndo | server/index.js:145-150 | a step back in the other direction returns to the starting seat |
| TurnOrder.StepInjective | server/index.js:145-150 | two different seats never step onto the same seat |
| TurnOrder.TwoStepsOfTwoSeats | server/index.js:153-160 | with two seats, two steps the same way come back to the player |
| TurnOrder.DirectionsDiffer | server/index.js:145-150 | with three or more seats, the two directions name different next seats |
| GameUtils.PairsCount | src/utils/gameUtils.ts:18-21 | the pairs of a colour hold two copies of each listed value and nothing else |
| GameUtils.NumberSectionCount | src/utils/gameUtils.ts:13-22 | the number block holds one '0' and two of each of '1' to '9' per colour |
| GameUtils.ActionSectionCount | src/utils/gameUtils.ts:25-30 | the action block holds two skip, reverse and draw2 cards per colour |
| GameUtils.WildSectionCount | src/utils/gameUtils.ts:33-37 | the wild block holds four wild and four wild_draw4 cards, all coloured wild |
| GameUtils.DeckComposition | src/utils/gameUtils.ts:5-40 | the builder's order has 108 cards, with exactly `Copies(c, v)` of each colour and value |
| GameUtils.FacesWellFormed | src/utils/gameUtils.ts:5-40 | the builder puts a wild value exactly on a wild-coloured card |
| GameUtils.SwapPermutes | src/utils/gameUtils.ts:47 | one swap keeps the length and the cards |
| GameUtils.FisherYatesPermutes | src/utils/gameUtils.ts:43-50 | whatever the random partners, the shuffle only reorders the cards |
| GameUtils.ShuffleDeck | src/utils/gameUtils.ts:43-50 | the in-place loop over a copy yields the specified shuffle, a permutation of the input |
| GameUtils.PushPairs | src/utils/gameUtils.ts:18-21 | the inner loop appends two cards of each listed value in the colour, in list order, each with the next fresh id |
| GameUtils.AddNumberCards | src/utils/gameUtils.ts:13-22 | the first block pushes 76 cards, in the builder's order, carrying fresh ids in order |
| GameUtils.AddActionCards | src/utils/gameUtils.ts:25-30 | the second block appends 24 cards in the builder's order |
| GameUtils.AddWildCards | src/utils/gameUtils.ts:33-37 | the third block completes the 108 cards in the builder's order |
| GameUtils.CreateDeck | src/utils/gameUtils.ts:5-40 | `createDeck` returns the specified new deck: 108 cards, a reordering of the built cards |
| GameUtils.NewDeckIdsDistinct | src/utils/gameUtils.ts:5-40 | when the ids are fresh, no two cards of a new deck share an id |
| GameUtils.NewDeckComposition | src/utils/gameUtils.ts:5-40 | a new deck has 108 well-formed cards, a permutation of the built ones |
| GameUtils.PermutationKeepsIdsDistinct | src/utils/gameUtils.ts:43-50 | reordering cards with distinct ids keeps them distinct |
| GameUtils.ReversedTwice | src/utils/gameUtils.ts:96-99 | reversing the popped cards twice gives them back |
| GameUtils.DrawCards | src/utils/gameUtils.ts:92-102 | `drawCards` draws `min(count, pile size)` cards, the last of the pile first; the pile left followed by the drawn cards reversed is the old pile |
| GameUtils.HandsUnionPush | src/utils/gameUtils.ts:82-83 | pushing a card onto one hand adds exactly that card to the cards held |
| GameUtils.DealOne | src/utils/gameUtils.ts:80-85 | one inner step deals seat `j` its next round-robin card, and no card is lost or created |
| GameUtils.DealRound | src/utils/gameUtils.ts:80-85 | one round gives each seat in order one card off the end of the pile |
| GameUtils.DealCards | src/utils/gameUtils.ts:74-89 | `dealCards` gives seat `p` its round-robin share of seven rounds, leaves the undealt front of the pile, and the hands plus the rest are exactly the old pile |
| GameUtils.DealtFull | src/utils/gameUtils.ts:79-86 | with enough cards, every hand has seven cards and card `r` of seat `p` is the `(r * n + p)`-th from the end |
| GameUtils.CanPlayCard | src/utils/gameUtils.ts:53-71 | the client accepts a card exactly when it is wild, matches colour or value, or the top card is wild |
| GameUtils.Opening | src/context/GameContext.tsx:35-38 | the top card is the last card of the deck, or the one under it when the last is wild, and the rest is the pile |
| Server.Without | server/index.js:302 | the filter drops exactly the players on that socket, at least one when the socket is seated; every other player keeps its multiplicity |
| ServerRules.WithoutAppend | server/index.js:302 | the filter keeps the remaining players in seat order: filtering a concatenation filters each part |
| ServerRules.WithoutOne | server/index.js:302 | one player is kept exactly when they joined on another socket |
| Server.CanPlayCard | server/index.js:448-464 | a wild card is always legal; otherwise legal exactly on a matching colour or value, or a wild top whose named colour is this card's; a missing top card raises a TypeError |
| Server.DrawFromPile | server/index.js:422-446 | `min(count, pile + 108)` cards are drawn; with cards to spare they come off the end of the pile, and when the pile runs dry the pile is drawn out and the rest comes off a new deck that then becomes the pile |
| Server.Penalty | server/index.js:166-191 | only draw2 and wild_draw4 force a draw |
| Server.NextSeat | server/index.js:145-191 | the turn moves one seat, or two for skip, draw2 and wild_draw4, in the direction before the play |
| Server.Joined | server/index.js:38-57 | a new player with an empty hand is appended, flagged exactly when the table was empty, and nothing else changes |
| Server.Started | server/index.js:60-99 | refused, changing nothing, exactly when fewer than two players sit; otherwise the game is playing, seat 0 is current, a top card without a named colour is set, and direction and winner are kept |
| Server.Penalised | server/index.js:166-191 | a draw2 or wild_draw4 appends exactly two or four cards to the hand of the player one step on, in order after their old cards; no other player changes, and other values change neither players nor pile |
| Server.Resolve | server/index.js:127-208 | the played card leaves the player's hand and becomes the top card; exactly the `NextSeat` seat is flagged and named current; the last card makes the player winner and finishes the game, otherwise status and winner are kept; only a reverse flips the direction, and the pile is what the forced draw of `Penalised` leaves |
| Server.Played | server/index.js:102-214 | a refusal changes nothing; it is not your turn exactly when the id names no player or not the current one; an accepted play keeps the seats and sets a top card |
| Server.Drawn | server/index.js:217-257 | the outcome is success, not your turn (exactly when the id is not current, changing nothing) or a TypeError (exactly when the current id names nobody, after one card has left the pile or a refill); a success keeps the seats and changes only the players, `currentPlayerId` and the pile |
| Server.Disconnected | server/index.js:292-317 | an unknown socket changes nothing; otherwise the socket's players leave, at least one; only a playing game left with fewer than two players returns to the initial record |
| Server.Reset | server/index.js:267-289 | every field returns to the initial record except the players, who stay seated with empty hands and no flag |
| Server.JoinReply | server/index.js:55 | the joining socket receives the whole record after the join: every seated player's id, name, socket, flag and full hand, the new player empty-handed and flagged exactly when the table was empty, and every other field as it was |
| Server.Project | server/index.js:321-353 | every viewer sees every player's id, name, socket, flag and hand size; the hands of players with the viewer's id in full, all others as placeholders; the rest of the record unchanged |
| Server.Game.constructor | server/index.js:8-16 | the record starts as the initial record |
| Server.Game.DrawCards | server/index.js:422-446 | popping the stored pile, storing a refill deck when it runs dry and popping that, computes `DrawFromPile` and changes only the pile |
| Server.Game.DealCards | server/index.js:402-420 | the server's dealer gives round-robin hands and stores the leftover pile, changing nothing else |
| Server.Game.Join | server/index.js:38-57 | the handler's new record is `Joined` of the old one |
| Server.Game.StartGame | server/index.js:60-99 | the handler's outcome and new record are `Started` of the old record |
| Server.Game.PlayCard | server/index.js:102-214 | the handler's outcome and new record are `Played` of the old record |
| Server.Game.ResolvePlay | server/index.js:127-208 | after the checks pass, the new record is `Resolve` of the old one |
| Server.Game.SpecialCard | server/index.js:144-192 | the seat chosen is `NextSeat`; players and pile are as `Penalised` says; only a reverse changes the direction |
| Server.Game.DrawCard | server/index.js:217-257 | the handler's outcome and new record are `Drawn` of the old record |
| Server.Game.ResetGame | server/index.js:267-289 | the handler's new record is `Reset` of the old one |
| Server.Game.Disconnect | server/index.js:292-317 | the handler's new record is `Disconnected` of the old one |
| ServerRules.WildTopWithoutColour | server/index.js:448-464 | on a wild top with no named colour only wild cards are legal |
| ServerRules.WildTopWithColour | server/index.js:448-464 | on a wild top naming a colour exactly the wild cards and the cards of that colour are legal |
| ServerRules.PlayChecks | server/index.js:105-125 | a play is refused as not your turn, card not found, a TypeError or cannot play exactly when each check fails in that order, and a refused play changes nothing |
| ServerRules.PlayFinds | server/index.js:105-119 | an accepted play is by the first player with that id, who is current, with their first card of that id |
| ServerRules.PlayMovesCard | server/index.js:127-142 | exactly the played card leaves the hand, the others keep their order, and it becomes the top card, carrying the named colour only when wild |
| ServerRules.PlayKeepsOthers | server/index.js:166-204 | no id, name or socket changes, and no hand changes but the player's and the forced drawer's |
| ServerRules.PlayPassesTurn | server/index.js:144-208 | after a play exactly the chosen seat is flagged and named current |
| ServerRules.ReverseUsesOldDirection | server/index.js:145-164 | a reverse flips the direction yet passes the turn one step the old way, which with three or more seats is not the new way |
| ServerRules.TwoPlayerSkipReturns | server/index.js:153-191 | with two players, skip, draw2 and wild_draw4 hand the turn straight back |
| ServerRules.ForcedDraw | server/index.js:166-191 | draw2 and wild_draw4 append exactly two or four cards to the next player's hand, taken as `DrawFromPile` takes them |
| ServerRules.SingleSeatDraw2Loses | server/index.js:166-195 | at a table of one, a draw2 or wild_draw4 takes two or four cards off the pile, yet the player's hand ends as the old hand without the card played, so the cards drawn are held by nobody |
| ServerRules.WinningPlayStillResolves | server/index.js:133-191 | playing one's last card sets winner and finished, yet the turn still moves and a forced draw still happens |
| ServerRules.NoStatusGuard | server/index.js:102-257 | neither `play_card` nor `draw_card` depends on the game status |
| ServerRules.RefillAddsDeck | server/index.js:433-443 | a draw that runs the pile dry adds a whole new 108-card deck to the cards in play |
| ServerRules.DrawWithoutRefill | server/index.js:425-428 | a draw with cards to spare only moves cards from the pile to the hand |
| ServerRules.ReversedKeepsCards | server/index.js:425-428 | the order in which cards are popped does not change which cards they are |
| ServerRules.DrawChecks | server/index.js:220-233 | `draw_card` by anyone but the current player is refused and changes nothing; by a current id that names nobody it raises a TypeError after popping the pile |
| ServerRules.DrawTakesOne | server/index.js:226-252 | a successful draw appends exactly the card `DrawFromPile` pops and stores its pile: the pile's last card, or on an empty pile the last card of a fresh deck with the rest of that deck stored; the turn passes one step with exactly that seat flagged |
| ServerRules.DrawKeepsOthers | server/index.js:226-252 | a successful draw changes no id, name or socket and no hand but the drawer's, and keeps the top card, direction, status and winner |
| ServerRules.StartChecks | server/index.js:63-66 | `start_game` is refused, changing nothing, exactly when fewer than two players sit |
| ServerRules.StartSeats | server/index.js:79-94 | after a start the game is playing, seat 0 holds the turn, the seats keep their players, and direction and winner are not reset |
| ServerRules.StartOpening | server/index.js:69-73 | the top card is the new deck's last card, or the one under it when that is wild, with no named colour; the rest is the stored pile |
| ServerRules.StartDealsFromPile | server/index.js:76-92 | each seat is dealt round-robin off the end of the stored pile, seven cards each, and every dealt card is still in the stored pile |
| ServerRules.DealtFromPile | server/index.js:402-420 | every dealt card comes from the pile dealt from |
| ServerRules.ResetIdempotent | server/index.js:267-289 | resetting twice is resetting once |
| ServerRules.DisconnectDrops | server/index.js:292-317 | every player on the socket goes, every other stays; the game reverts to waiting only when it was playing and fewer than two remain |
| ServerRules.StaleTurn | server/index.js:292-317 | when the current player leaves and two or more remain, `currentPlayerId` names nobody: every play is refused and a draw raises a TypeError |
| ServerRules.ProjectionLeaksPile | server/index.js:336-348 | every viewer receives the whole draw pile and every player's socket id |
| ServerRules.JoinReplyReveals | server/index.js:55 | a player joining a game in progress receives another player's card that the projection for their id would hide |
| ServerRules.SharedIdSeesHand | server/index.js:338-340 | two players with the same id each see the other's hand |
| ServerRules.TurnAgreesOneFlag | server/index.js:199-208 | when the flag and `currentPlayerId` agree, at most one player is flagged |
| ServerRules.SeatingKeepsOneFlag | server/index.js:38-57 | joining, resetting and disconnecting keep at most one player flagged |
| ServerRules.WithoutKeepsOneFlag | server/index.js:302 | filtering players keeps at most one flagged |
| ServerRules.TurnHandlersAgree | server/index.js:79-252 | every successful start, play and draw leaves exactly one player flagged, the one `currentPlayerId` names |
| GameReducer.Reduce | src/context/GameContext.tsx:19-258 | `gameReducer` throws only on START_GAME or DRAW_CARD with no players; SAY_UNO changes nothing; JOIN_GAME adds one player and PLAY_CARD keeps the seats |
| GameReducer.Join | src/context/GameContext.tsx:21-32 | JOIN_GAME appends one unflagged player with an empty hand and changes nothing else |
| GameReducer.Start | src/context/GameContext.tsx:34-57 | START_GAME throws exactly on an empty table; otherwise the seats are kept, the game is playing, seat 0 is current and a top card is set |
| GameReducer.Play | src/context/GameContext.tsx:59-72 | PLAY_CARD keeps the seats, is ignored unless the player is seated and current, and any change plays the named card onto the top |
| GameReducer.Resolve | src/context/GameContext.tsx:74-210 | the played card leaves the hand and becomes the top card, the player is unflagged, and the game finishes exactly when the hand empties; only a reverse changes the direction and only a draw2 or wild_draw4 the pile |
| GameReducer.Draw | src/context/GameContext.tsx:212-253 | DRAW_CARD is ignored unless the player is current, throws exactly when current with no players, and otherwise takes one card off a non-empty pile, keeps the seats and changes nothing but the players, `currentPlayerId` and the pile |
| ReducerRules.JoinAlwaysAppends | src/context/GameContext.tsx:21-32 | JOIN_GAME succeeds whatever the status, even for an id already seated |
| ReducerRules.StartSameHands | src/context/GameContext.tsx:34-57 | START_GAME throws on an empty table; otherwise every player gets the same seven cards, which stay in the pile, and seat 0 starts |
| ReducerRules.PlayIgnored | src/context/GameContext.tsx:59-72 | PLAY_CARD leaves the state as it is exactly when the player is unknown, not current, or lacks the card |
| ReducerRules.PlayUnchecked | src/context/GameContext.tsx:59-88 | PLAY_CARD never tests legality: any held card of the current player is played |
| ReducerRules.ResolvePlaysCard | src/context/GameContext.tsx:74-88 | whatever its value, the played card leaves the hand, the rest keep their order, and it becomes the top card |
| ReducerRules.ClientTurn | src/context/GameContext.tsx:90-129 | the turn moves one step, two for skip only; reverse flips the direction and keeps the old-direction step |
| ReducerRules.ClientKeepsOthers | src/context/GameContext.tsx:105-210 | a play changes no id or name, and no hand but the player's and, for draw2 or wild_draw4, the next seat's |
| ReducerRules.ClientForcedDraw | src/context/GameContext.tsx:130-185 | draw2 and wild_draw4 give up to two or four cards off the pile to the next seat, who then holds the turn and is not skipped; an empty pile is not refilled |
| ReducerRules.ClientSingleSeatDrawLoses | src/context/GameContext.tsx:130-210 | at a table of one, a draw2 or wild_draw4 takes up to two or four cards off the pile, yet the player's hand ends as the old hand without the card played |
| ReducerRules.ClientStatus | src/context/GameContext.tsx:82-83 | every accepted play finishes the game exactly when the hand empties, and otherwise sets it playing with no winner |
| ReducerRules.ClientFlags | src/context/GameContext.tsx:188-210 | after a play the player is unflagged, the next seat flagged, others untouched |
| ReducerRules.ClientTwoSeatSkip | src/context/GameContext.tsx:99-104 | with two seats, a skip names the player current yet leaves them unflagged |
| ReducerRules.ClientDraw | src/context/GameContext.tsx:212-253 | DRAW_CARD is ignored unless current; otherwise the player gains the pile's last card if any and the turn moves one step; with no players it throws |
| ReducerRules.ClientDrawKeepsOthers | src/context/GameContext.tsx:221-252 | a draw changes no id or name and no hand but the drawer's |
| ReducerRules.ClientDrawByNobody | src/context/GameContext.tsx:221-252 | a current id naming nobody still pops the pile, the card is lost, and the turn moves one step on from seat -1: seat 0 clockwise, seat `n - 2` counterclockwise (seat 0 when alone) |
| ReducerRules.SayUnoInert | src/context/GameContext.tsx:255-257 | SAY_UNO changes nothing |
| Divergence.WildTopLegality | src/utils/gameUtils.ts:63-68 | on a wild top the client accepts every card, while the server accepts a coloured card only when the named colour is its own |
| Divergence.StepMoves | server/index.js:145-150 | with two or more seats a step never stays put |
| Divergence.Draw2Turn | src/context/GameContext.tsx:130-157 | after a draw2 the server skips the drawer but the client gives them the turn; with distinct ids the two disagree |
| Divergence.EmptyPileDraw | src/utils/gameUtils.ts:92-102 | on an empty pile the server refills and the player draws; the client's player gets nothing |
| Divergence.StartingHands | src/context/GameContext.tsx:41-48 | the client deals everyone the same hand, the server deals the first two seats different hands |
| Divergence.DealtPrefix | server/index.js:406-413 | dealing more rounds only extends a hand |

## Left out

- Sockets, `io.emit`, `console.log`, the Express and HTTP setup, and the lookup of each
  player's socket in `broadcastGameState` are left out. The projection is given per viewer id,
  and the sending is not modelled.
- `uuidv4` and `Math.random` are inputs (`DeckSource`), not generators. Freshness of the ids is
  a precondition where a lemma needs it.
- `say_uno` on the server only broadcasts an event, so it is not modelled.
- The refusal texts are kept in `Server.Message`; the `error` and `player_joined` events that
  carry them are not modelled. The reply to `join_game` is modelled (`Server.JoinReply`): it is
  the whole record, not a projection.
- The reducer's `UPDATE_GAME` action writes an arbitrary key, which the record type cannot
  express, so it is not modelled.
- `GameProvider`, `useGame`, `src/services/socket.ts`, `App.tsx` and the React components are not part of
  this model. They render the state and forward intents.
- The client's `chosenColor` on a played wild card is dropped. The client's `Card` type has no
  such field, and no client code reads it.
- What happens after a TypeError is not modelled. Nothing in server/index.js catches a
  TypeError, so what the process does afterwards is outside the model, as is the React error
  path on the client. The model records the state at the throw.
- The server's `drawCards` ignores its `deck` argument and always works on `gameState.deck`. The
  model's `Game.DrawCards` takes no pile argument for that reason.
- The server's `dealCards` deals from a copy (`[...deck]`) of its pile. The model passes the
  pile as a value, so no aliasing arises.
- Objects shared by reference between the record and earlier broadcasts are not modelled. Every
  record is a value.
- Concurrency is not modelled: the handlers run one at a time on Node's event loop.
- `src/types/index.ts` declares the action payloads as `any`. The model gives each action the
  fields the reducer reads.
