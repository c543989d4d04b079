# ASL Pacer in Dafny

A model of the game logic of ASL Pacer, a browser game played by finger-spelling words in
American Sign Language in front of a webcam. The model covers three parts of it.

- **The multiplayer room engine** (`multiplayerpace.js`). Clients share a room through an
  MQTT broker. They keep a roster of players under the topics `game/rooms/<room>/...`, ping
  each other, evict silent players, agree on the round state and stream their hand poses.
  - `Roster` (roster.dfy) holds the records, messages, topics and routing.
  - `Roster` also states every roster transformation as a function: snapshot publish and
    apply, update, ping, hand frame, eviction, round reset, leaving, the start rule and the
    visible hands.
  - `RoomSync.RoomClient` (room_client.dfy) is one client as a class. The script's globals
    are its fields.
    - Every `client.publish` appends to `outbox`.
    - Every `subscribe` and `unsubscribe` edits `subscriptions`.
    - Each handler is a method proved against the `Roster` functions.
- **The single-player survival rules** (`singleplayer.js`).
  - `Survival.SurvivalGame` (survival.dfy) holds the letter-by-letter word game, the coin
    reward, and the minute-by-minute checkpoints that must be paid in coins.
  - It also holds the health penalty, the restart and menu resets, and the username check.
  - The Arduino's serial line framing is in `SerialFraming` (serial_framing.dfy). The read
    loop itself is `SurvivalGame.FrameSerial`, proved against it.
- **Menu utilities** (`main.js`), in `Menu` (menu.dfy):
  - the YouTube link parser;
  - the rectangle hit test;
  - the button click guard that keeps the Multiplayer button dead while offline.

Shared pieces:
- `Countdown` holds the three-second countdown.
- `Signing` holds the letter-acceptance gate both games use.
- `JsText` holds the JavaScript string operations the code relies on: `trim`, `indexOf`,
  `endsWith`, `includes`, `split` and number-to-string.

Inputs from outside the program are parameters:
- The clocks: `now` for `Date.now()` and `millis` for `millis()`.
- Random draws: the player-id suffix, the room code characters, the default name number and
  the next word.
- The classifier's verdict, reduced to the top sign and whether its normalised confidence
  reached 0.6.
- The parsed URL.

JavaScript `null` for a room or player id is written as the empty string. An unset
`nextCheckpointElapsed` is written as 0, which the script tests the same way.

Behaviours of the code the model keeps on purpose:
- A `/ping` overwrites `lastUpdate` even with an older timestamp (`Roster.PingCanMoveBackwards`).
- The empty retained payload that clears a room does not parse. It is dropped and does not
  clear the local roster (`Roster.TombstoneIgnored`).
- Eviction deletes departed records too.
- Join checks the name against 16 characters, create and save against 10
  (`Roster.JoinAndCreateLimitsDiffer`).
- A finished word's score is credited to a record found by name, not by id.
- Leaving keeps the explicit `/state` subscription (`RoomSync.StateSubscriptionOutlivesLeave`).
- In the survival game, `startCountdown` resets neither `pausedTime` nor `coinsPaid`, and the
  penalty path of `payCoinLogic` keeps `coinsPaid` (the frames of
  `Survival.SurvivalGame.StartCountdown` and `Survival.SurvivalGame.PayCoin`). So a partial
  payment is carried into later checkpoints and later games. It can even exceed a new
  checkpoint's price, and the penalty then heals (`Survival.CarriedPaymentHeals`).
- The `finalizing` guard of `finalizeWord` is never set on entry in the synchronous code. The
  model keeps the flag and its guard anyway.

## Model

| member | source | states |
|---|---|---|
| Countdown.EndsAfterFourSeconds | ProjectASL/src/MultiplayerPaceGame/multiplayerpace.js:354-366 | during the first four seconds the number shown is 3, 2, 1 or 0; the round starts exactly when 4000 ms have elapsed |
| Countdown.Remaining | ProjectASL/src/MultiplayerPaceGame/multiplayerpace.js:355-356 | defines the number shown, 3 minus the whole seconds elapsed; its behaviour is stated by `EndsAfterFourSeconds` |
| Signing.AcceptanceBounds | ProjectASL/src/MultiplayerPaceGame/multiplayerpace.js:938-945 | an accepted letter lies inside the word and came more than 500 ms after the last; the next letter is then refused, whatever the verdict, at any time up to 500 ms later, and accepted after that when a confident verdict names it |
| Signing.Accepts | ProjectASL/src/MultiplayerPaceGame/multiplayerpace.js:938-943 | defines the letter gate: confident, the expected letter, more than 500 ms after the last acceptance; its consequences are `AcceptanceBounds` and `AcceptedRunSpellsPrefix` |
| Signing.AcceptedRunSpellsPrefix | ProjectASL/src/MultiplayerPaceGame/multiplayerpace.js:938-945 | a run of acceptances, each advancing the index and restarting the gate, spells the start of the word, never runs past its end, and its acceptances are more than 500 ms apart |
| Menu.PathSegments | ProjectASL/src/main.js:623 | `pathname.split('/').filter(Boolean)`: no segment is empty or holds '/', and a string is a segment iff it is a non-empty piece of the split |
| Menu.PathSegmentsFirst | ProjectASL/src/main.js:623 | the filter keeps the order: no segment iff every piece is empty, and the first segment is the first non-empty piece |
| Menu.QueryGet | ProjectASL/src/main.js:625 | `searchParams.get`: null exactly when no pair has the key; otherwise the value of the first pair that has it |
| Menu.WwwIgnored | ProjectASL/src/main.js:622 | a leading "www." on the host never changes the parsed id |
| Menu.OtherHostsYieldNull | ProjectASL/src/main.js:629 | any host other than youtu.be, youtube.com and m.youtube.com gives null |
| Menu.ShortHostTakesFirstSegment | ProjectASL/src/main.js:622-623 | on youtu.be the id is the first non-empty path segment (non-empty, without '/'), and null exactly when every segment is empty |
| Menu.QueryParameterWins | ProjectASL/src/main.js:624-625 | on youtube.com and m.youtube.com the first `v` parameter is the id, whatever the path says |
| Menu.EmbedAndShortsPaths | ProjectASL/src/main.js:626-627 | without `v`, an "embed" or "shorts" first segment yields the second segment; anything else gives null |
| Menu.FallbackScan | ProjectASL/src/main.js:630-633 | when the URL does not parse: null exactly when no marker is followed by six id characters; otherwise the whole run of id characters after the leftmost such marker (at least six, ending at the end of the input or before a non-id character) |
| Menu.ParseYouTubeVideoId | ProjectASL/src/main.js:619-634 | defines the id extraction over the parser's outcome; its behaviour per host and for unparsable input is stated by the lemmas in the rows around this one |
| Menu.EdgesAreOutside | ProjectASL/src/main.js:748-750 | points on any edge of the rectangle are outside it |
| Menu.HitAreaNonEmpty | ProjectASL/src/main.js:748-750 | some point is inside exactly when width and height are both positive |
| Menu.PointInRect | ProjectASL/src/main.js:748-750 | defines the strict hit test; its consequences are `EdgesAreOutside` and `HitAreaNonEmpty` |
| Menu.ClickOnlyInside | ProjectASL/src/main.js:215-224 | a hidden or disabled button, a click on any edge of the box, or a box without area never runs the callback; a click strictly inside a visible, enabled button does |
| Menu.RunsCallback | ProjectASL/src/main.js:215-224 | defines when `click()` runs the callback; its consequences are `ClickOnlyInside` and `MultiplayerNeedsNetwork` |
| Menu.GameOptionsButtons | ProjectASL/src/main.js:452-462 | three buttons; only the Multiplayer button can be disabled, and it is disabled exactly when offline |
| Menu.MultiplayerNeedsNetwork | ProjectASL/src/main.js:456-460 | offline no click on Multiplayer runs its callback; online a click inside it does, and it navigates |
| Roster.OwnTopicsRoute | ProjectASL/src/MultiplayerPaceGame/multiplayerpace.js:546-581 | each room topic the engine publishes reaches the handler branch meant for it, whatever the room id, despite the suffix tests overlapping |
| Roster.RouteOf | ProjectASL/src/MultiplayerPaceGame/multiplayerpace.js:546-581 | defines the handler branch a topic reaches, in the order of the suffix tests; stated by `OwnTopicsRoute` and `HandTopicRoutes` |
| Roster.PlayerIdFor | ProjectASL/src/MultiplayerPaceGame/multiplayerpace.js:779 | the id starts with "p_" and ends with a digit |
| Roster.HandTopicRoutes | ProjectASL/src/MultiplayerPaceGame/multiplayerpace.js:1126 | a published hand frame's topic reaches the `/hands/` branch and no earlier one |
| Roster.SnapshotRoundTrip | ProjectASL/src/MultiplayerPaceGame/multiplayerpace.js:552-570 | applying a published snapshot restores exactly the named records, field by field, with a zero timestamp replaced by the publish time and hands dropped |
| Roster.SnapshotRoundTripExact | ProjectASL/src/MultiplayerPaceGame/multiplayerpace.js:552-570 | a roster of named, timestamped, hand-free records survives publish-then-apply unchanged |
| Roster.SnapshotSelfSufficient | ProjectASL/src/MultiplayerPaceGame/multiplayerpace.js:798-813 | republishing an applied snapshot reproduces the snapshot |
| Roster.SnapshotIdempotent | ProjectASL/src/MultiplayerPaceGame/multiplayerpace.js:552-570 | applying a snapshot twice is applying it once |
| Roster.Sanitize | ProjectASL/src/MultiplayerPaceGame/multiplayerpace.js:798-811 | defines the published snapshot: the named records, without hands, a zero timestamp replaced by the publish time; stated by `CleanPlayers` and the snapshot round trips |
| Roster.FromSnapshot | ProjectASL/src/MultiplayerPaceGame/multiplayerpace.js:552-570 | defines the roster a snapshot replaces the local one with; stated by `ParseSnapshot` and the snapshot round trips |
| Roster.CleanPlayers | ProjectASL/src/MultiplayerPaceGame/multiplayerpace.js:799-811 | the loop over the roster builds exactly the sanitised snapshot |
| Roster.ParseSnapshot | ProjectASL/src/MultiplayerPaceGame/multiplayerpace.js:554-569 | the loop over the snapshot builds exactly the replacement roster |
| Roster.WithUpdate | ProjectASL/src/MultiplayerPaceGame/multiplayerpace.js:546-550 | no id or no name changes nothing; otherwise that id's record is overwritten, `left` reads false when absent, and every other record is untouched |
| Roster.WithPing | ProjectASL/src/MultiplayerPaceGame/multiplayerpace.js:576-579 | an unknown id changes nothing; a known one changes only its `lastUpdate`, to the ping's timestamp |
| Roster.PingCanMoveBackwards | ProjectASL/src/MultiplayerPaceGame/multiplayerpace.js:579 | a delayed older ping moves `lastUpdate` backwards |
| Roster.WithHandFrame | ProjectASL/src/MultiplayerPaceGame/multiplayerpace.js:586-600 | frames from nobody or from ourselves are ignored; others create a placeholder when needed and set the hand and `lastUpdate` to the frame time (or now) |
| Roster.TombstoneIgnored | ProjectASL/src/MultiplayerPaceGame/multiplayerpace.js:542-603 | an empty payload leaves the roster as it is on every route |
| Roster.Inbound | ProjectASL/src/MultiplayerPaceGame/multiplayerpace.js:542-603 | defines the roster after one message on one route; stated by `TombstoneIgnored`, `WithUpdate`, `WithPing`, `WithHandFrame` and `RoomClient.ApplyToRoster` |
| Roster.Evict | ProjectASL/src/MultiplayerPaceGame/multiplayerpace.js:616-624 | exactly the records silent for more than 60 s go, departed or not; the rest stay unchanged |
| Roster.EvictMonotone | ProjectASL/src/MultiplayerPaceGame/multiplayerpace.js:616-624 | a later sweep keeps no more than an earlier one, and a second sweep at the same time removes nothing |
| Roster.WithoutDeparted | ProjectASL/src/MultiplayerPaceGame/multiplayerpace.js:498-502 | exactly the records not marked `left` remain, unchanged |
| Roster.RoundReset | ProjectASL/src/MultiplayerPaceGame/multiplayerpace.js:506-509 | same ids; every record unready with a zero score and otherwise unchanged |
| Roster.AllUnready | ProjectASL/src/MultiplayerPaceGame/multiplayerpace.js:442 | same ids; every record unready and otherwise unchanged |
| Roster.WithoutHands | ProjectASL/src/MultiplayerPaceGame/multiplayerpace.js:746-750 | same ids; every remote hand cleared and otherwise unchanged |
| Roster.RestartedRosterIsClean | ProjectASL/src/MultiplayerPaceGame/multiplayerpace.js:498-509 | after a restart no record is departed, none is ready and every score is zero |
| Roster.LeftRoster | ProjectASL/src/MultiplayerPaceGame/multiplayerpace.js:720-730 | the own record is marked left at game over and deleted otherwise; without one nothing changes; other records are untouched |
| Roster.LeaverInactive | ProjectASL/src/MultiplayerPaceGame/multiplayerpace.js:720-733 | after leaving, the active records are the earlier ones minus ourselves; at game over our record and score stay on the board |
| Roster.SoloStart | ProjectASL/src/MultiplayerPaceGame/multiplayerpace.js:876-881 | one ready active player starts the round when everyone else has left |
| Roster.UnreadyBlocksStart | ProjectASL/src/MultiplayerPaceGame/multiplayerpace.js:876-881 | one unready active record blocks the start |
| Roster.DepartedReadinessIrrelevant | ProjectASL/src/MultiplayerPaceGame/multiplayerpace.js:876 | the readiness of a departed record never changes the start decision |
| Roster.AllActiveReady | ProjectASL/src/MultiplayerPaceGame/multiplayerpace.js:878 | true iff some record is active and every active record is ready |
| Roster.StartsRound | ProjectASL/src/MultiplayerPaceGame/multiplayerpace.js:876-881 | defines the start rule; stated by `SoloStart`, `UnreadyBlocksStart`, `DepartedReadinessIrrelevant` and `AllActiveReady` |
| Roster.VisibleHands | ProjectASL/src/MultiplayerPaceGame/multiplayerpace.js:1193-1198 | a hand is drawn iff it is not ours, has data and is at most 2000 ms old; the drawn pose is the stored one |
| Roster.JoinAndCreateLimitsDiffer | ProjectASL/src/MultiplayerPaceGame/multiplayerpace.js:265 | every name valid for create is valid for join, but not conversely |
| Roster.ValidUsername | ProjectASL/src/MultiplayerPaceGame/multiplayerpace.js:265 | defines `/^[A-Za-z0-9_]{3,max}$/`; stated by `JoinAndCreateLimitsDiffer` |
| Roster.RandomRoomSuffix | ProjectASL/src/MultiplayerPaceGame/multiplayerpace.js:764-771 | "-" followed by the six drawn characters of `A-Z0-9`, in order |
| RoomSync.StateSubscriptionOutlivesLeave | ProjectASL/src/MultiplayerPaceGame/multiplayerpace.js:739-742 | the `/state` topic is neither of the two topics `leaveRoom` unsubscribes |
| RoomSync.RoomClient.constructor | ProjectASL/src/MultiplayerPaceGame/multiplayerpace.js:128 | the default name is "Player" and the drawn number; no room, no id, empty roster, menu screen |
| RoomSync.RoomClient.PublishPlayers | ProjectASL/src/MultiplayerPaceGame/multiplayerpace.js:798-813 | appends the retained sanitised snapshot |
| RoomSync.RoomClient.AddPlayer | ProjectASL/src/MultiplayerPaceGame/multiplayerpace.js:778-792 | adds a fresh record under the new id and announces it on `/players/update` |
| RoomSync.RoomClient.RestartGame | ProjectASL/src/MultiplayerPaceGame/multiplayerpace.js:493-518 | countdown screen; the roster is the restarted roster; score 0; a snapshot then the retained "in-progress" state; a new word from its first letter |
| RoomSync.RoomClient.DropDeparted | ProjectASL/src/MultiplayerPaceGame/multiplayerpace.js:498-502 | the deletion loop leaves exactly `WithoutDeparted` of the old roster |
| RoomSync.RoomClient.ResetRound | ProjectASL/src/MultiplayerPaceGame/multiplayerpace.js:506-509 | the reset loop leaves exactly `RoundReset` of the old roster |
| RoomSync.RoomClient.EndGame | ProjectASL/src/MultiplayerPaceGame/multiplayerpace.js:438-447 | game-over screen and state; everyone unready; a snapshot then the retained "gameover" state |
| RoomSync.RoomClient.StartCountdown | ProjectASL/src/MultiplayerPaceGame/multiplayerpace.js:349-352 | countdown screen, timed from now |
| RoomSync.RoomClient.CountdownTick | ProjectASL/src/MultiplayerPaceGame/multiplayerpace.js:354-366 | the game starts, timed from now, exactly when the number shown would go below zero |
| RoomSync.RoomClient.GameTick | ProjectASL/src/MultiplayerPaceGame/multiplayerpace.js:375-379 | before 60 s nothing changes; from 60 s on, the round ends as `EndGame` says |
| RoomSync.RoomClient.HandleMessage | ProjectASL/src/MultiplayerPaceGame/multiplayerpace.js:542-604 | an empty payload changes nothing; `/start` restarts the round; `/state` adopts the state; every other route changes only the roster, as `Inbound` says |
| RoomSync.RoomClient.ApplyToRoster | ProjectASL/src/MultiplayerPaceGame/multiplayerpace.js:546-600 | the roster branches leave exactly `Inbound` of the old roster |
| RoomSync.RoomClient.ReceiveUpdate | ProjectASL/src/MultiplayerPaceGame/multiplayerpace.js:546-550 | a record with an id and a name replaces the stored one, without a hand; lacking either, nothing changes (`WithUpdate`) |
| RoomSync.RoomClient.ReceivePing | ProjectASL/src/MultiplayerPaceGame/multiplayerpace.js:576-579 | only a known sender changes, and only its `lastUpdate`, to the ping's timestamp (`WithPing`) |
| RoomSync.RoomClient.ReceiveHand | ProjectASL/src/MultiplayerPaceGame/multiplayerpace.js:586-599 | our own or an anonymous frame changes nothing; otherwise the sender, a placeholder when unknown, gets the hand and the frame's stamp or the local clock (`WithHandFrame`) |
| RoomSync.RoomClient.SendHeartbeat | ProjectASL/src/MultiplayerPaceGame/multiplayerpace.js:607-613 | a ping with our id goes out iff there is a room and an id and the menu is not showing |
| RoomSync.RoomClient.CleanInactivePlayers | ProjectASL/src/MultiplayerPaceGame/multiplayerpace.js:616-635 | the roster becomes `Evict`; only if something went, a snapshot goes out, then the tombstone when the roster became empty inside a room |
| RoomSync.RoomClient.JoinRoom | ProjectASL/src/MultiplayerPaceGame/multiplayerpace.js:642-659 | an empty id does nothing; otherwise an empty roster, "waiting", the room screen, and the room's wildcard and `/state` subscriptions |
| RoomSync.RoomClient.FinishJoin | ProjectASL/src/MultiplayerPaceGame/multiplayerpace.js:665-685 | a round not "waiting" ("Game is in progress", checked first) or an empty roster ("Room does not exist!") is refused: the reason is shown and `leaveRoom` runs from the menu, so only its snapshot and tombstone go out, no player update, and the room topics are unsubscribed; otherwise hands are subscribed, we are added and announced, and the error line is untouched |
| RoomSync.RoomClient.RejectJoin | ProjectASL/src/MultiplayerPaceGame/multiplayerpace.js:665-679 | the reason is shown, the menu screen is set, and `leaveRoom` then deletes our record, if any, sends only its snapshot and tombstone (no player update) and unsubscribes the room topics |
| RoomSync.RoomClient.AcceptJoin | ProjectASL/src/MultiplayerPaceGame/multiplayerpace.js:681-685 | the hand topic is subscribed, our record is added under the new id, then the update and the snapshot go out, in that order |
| RoomSync.RoomClient.EnterAsPlayer | ProjectASL/src/MultiplayerPaceGame/multiplayerpace.js:684-685 | our record is added under the new id, then the update and the snapshot go out, in that order |
| RoomSync.RoomClient.CreateRoom | ProjectASL/src/MultiplayerPaceGame/multiplayerpace.js:692-712 | a "room-" code of six drawn characters, the room subscriptions, and a roster holding only us, announced |
| RoomSync.RoomClient.OpenRoom | ProjectASL/src/MultiplayerPaceGame/multiplayerpace.js:693-707 | the new code, an empty roster, "waiting", the room screen, and the room's wildcard and hand subscriptions added |
| RoomSync.RoomClient.LeaveRoom | ProjectASL/src/MultiplayerPaceGame/multiplayerpace.js:717-753 | our record is left or deleted; the tombstone goes out iff no active record remains in a room; hands cleared; back in the menu with no room and no id |
| RoomSync.RoomClient.DepartSelf | ProjectASL/src/MultiplayerPaceGame/multiplayerpace.js:720-730 | the roster becomes `LeftRoster`, with a snapshot iff we had a record |
| RoomSync.RoomClient.ClearHands | ProjectASL/src/MultiplayerPaceGame/multiplayerpace.js:746-750 | the loop leaves exactly `WithoutHands` of the old roster |
| RoomSync.RoomClient.BackToMenu | ProjectASL/src/MultiplayerPaceGame/multiplayerpace.js:739-753 | inside a room its two topics are unsubscribed; every hand is forgotten; "waiting", the menu screen, no room and no id |
| RoomSync.RoomClient.JoinButton | ProjectASL/src/MultiplayerPaceGame/multiplayerpace.js:262-276 | a name failing the 16-character rule, or an empty trimmed code, reports its error and changes nothing else (roster, room, state, screen, subscriptions, pending join); otherwise the trimmed code is joined and the error line is untouched |
| RoomSync.RoomClient.JoinWithCode | ProjectASL/src/MultiplayerPaceGame/multiplayerpace.js:265-276 | for the trimmed code: a bad name, then an empty code, each report their error and change nothing else; otherwise that room is joined and the error line is untouched |
| RoomSync.RoomClient.ShowError | ProjectASL/src/MultiplayerPaceGame/multiplayerpace.js:266-267 | the message and the time it appeared |
| RoomSync.RoomClient.CreateButton | ProjectASL/src/MultiplayerPaceGame/multiplayerpace.js:282-290 | a name failing the 10-character rule reports an error and changes nothing else (room, roster, outbox, subscriptions, screen, state, id); otherwise exactly `createRoom`'s outcome, with the error line untouched |
| RoomSync.RoomClient.SaveUsername | ProjectASL/src/MultiplayerPaceGame/multiplayerpace.js:816-851 | an invalid trimmed name is refused and nothing else changes; a valid one is saved and, inside a room with our record, renamed there and announced |
| RoomSync.RoomClient.SaveName | ProjectASL/src/MultiplayerPaceGame/multiplayerpace.js:820-850 | for the trimmed name: an invalid one only reports the rule; a valid one is saved, confirmed and, inside a room with our record, renamed there and announced |
| RoomSync.RoomClient.RenameSelf | ProjectASL/src/MultiplayerPaceGame/multiplayerpace.js:831-846 | inside a room with our record, only our name changes, then an update and a snapshot go out |
| RoomSync.RoomClient.SetReady | ProjectASL/src/MultiplayerPaceGame/multiplayerpace.js:856-882 | without our record nothing happens; otherwise only our `ready` flips, and `/start` follows the update and snapshot exactly when the start rule holds |
| RoomSync.RoomClient.GotClassification | ProjectASL/src/MultiplayerPaceGame/multiplayerpace.js:931-960 | a rejected letter changes nothing; an accepted one advances by one; the last one scores, credits a record carrying our name (if any), publishes and starts the next word |
| RoomSync.RoomClient.MaybePublishHand | ProjectASL/src/MultiplayerPaceGame/multiplayerpace.js:1134-1139 | in a room on the lobby or game screen, at most one frame per 100 ms; the gate's clock moves even when no frame goes out |
| SerialFraming.FrameLine | ProjectASL/src/SingleplayerGame/singleplayer.js:310-312 | a raw line contributes at most one line, and that one is non-blank and trimmed |
| SerialFraming.TailHasNoNewline | ProjectASL/src/SingleplayerGame/singleplayer.js:309-311 | what stays in the buffer holds no newline |
| SerialFraming.Reassembly | ProjectASL/src/SingleplayerGame/singleplayer.js:309-311 | the text is exactly its complete lines, each with its newline, followed by what stays buffered |
| SerialFraming.FramingIsIncremental | ProjectASL/src/SingleplayerGame/singleplayer.js:302-318 | how the text is split into chunks changes neither the lines handed on nor the final buffer |
| SerialFraming.LoopStep | ProjectASL/src/SingleplayerGame/singleplayer.js:309-312 | one turn cuts off exactly the first complete line and keeps the account of the rest |
| SerialFraming.LoopExit | ProjectASL/src/SingleplayerGame/singleplayer.js:309 | without a newline nothing is handed on and the whole buffer stays |
| SerialFraming.FramedLinesTrimmed | ProjectASL/src/SingleplayerGame/singleplayer.js:310-312 | every line handed on is non-blank and trimmed at both ends |
| Survival.CutLine | ProjectASL/src/SingleplayerGame/singleplayer.js:309-312 | one turn of the framing loop, seen from the lines already handed on: cutting off the first line (kept only when non-blank) keeps the account of all lines and of the final buffer |
| Survival.OverrideDecides | ProjectASL/src/SingleplayerGame/singleplayer.js:10-12 | a set override decides whatever the browser says; unset, the browser decides |
| Survival.IsOnline | ProjectASL/src/SingleplayerGame/singleplayer.js:10-12 | defines the connectivity test; stated by `OverrideDecides` |
| Survival.CoinsToPassClosedForm | ProjectASL/src/SingleplayerGame/singleplayer.js:1154 | passing the first n checkpoints outright costs n² + 4n coins |
| Survival.RequiredCoins | ProjectASL/src/SingleplayerGame/singleplayer.js:1154 | defines a checkpoint's price; stated by `CoinsToPassClosedForm`, `PenaltyHurts` and `CarriedPaymentHeals` |
| Survival.PenaltyHurts | ProjectASL/src/SingleplayerGame/singleplayer.js:549-551 | within a game the penalty costs at least one health point per checkpoint reached |
| Survival.Damage | ProjectASL/src/SingleplayerGame/singleplayer.js:549-550 | defines the health a penalty takes; stated by `PenaltyHurts` and `CarriedPaymentHeals` |
| Survival.CarriedPaymentHeals | ProjectASL/src/SingleplayerGame/singleplayer.js:1154-1170 | a payment above the checkpoint's price makes the penalty add at least one health point per checkpoint reached; a payment left one short at any later checkpoint exceeds the first one's price |
| Survival.SurvivalGame.constructor | ProjectASL/src/SingleplayerGame/singleplayer.js:116-181 | full health, no coins, the name "Player" and the drawn number, the menu, the first word timed from now |
| Survival.SurvivalGame.ResetWord | ProjectASL/src/SingleplayerGame/singleplayer.js:1104-1108 | the next word, from its first letter, timed from now |
| Survival.SurvivalGame.FinalizeWord | ProjectASL/src/SingleplayerGame/singleplayer.js:1110-1151 | under the guard nothing changes; otherwise score + 1, one coin for a word of up to four letters and two for a longer one, letter times cleared, and the next word from its first letter |
| Survival.SurvivalGame.GotClassification | ProjectASL/src/SingleplayerGame/singleplayer.js:723-765 | a confident verdict on a finished word finalises it; an accepted letter advances by one and records its time; the last letter finalises; anything else changes nothing |
| Survival.SurvivalGame.StartCountdown | ProjectASL/src/SingleplayerGame/singleplayer.js:368-373 | countdown screen timed from now; checkpoint schedule cleared; paused time and partial payment kept |
| Survival.SurvivalGame.CountdownTick | ProjectASL/src/SingleplayerGame/singleplayer.js:375-391 | the game starts, timed from now, exactly when the number shown would go below zero |
| Survival.SurvivalGame.GameTick | ProjectASL/src/SingleplayerGame/singleplayer.js:396-424 | a finished word is finalised; the first checkpoint falls a minute into unpaused play; reaching it opens the checkpoint screen, counts it and schedules the next a minute later |
| Survival.SurvivalGame.EndGame | ProjectASL/src/SingleplayerGame/singleplayer.js:563-564 | the game-over screen |
| Survival.SurvivalGame.ApplyPenalty | ProjectASL/src/SingleplayerGame/singleplayer.js:549-558 | health drops by checkpoints reached × debt; game over iff health is then ≤ 0, otherwise play resumes on a fresh word |
| Survival.SurvivalGame.PayCoin | ProjectASL/src/SingleplayerGame/singleplayer.js:1153-1172 | with coins, one moves from purse to payment; meeting the price resets the payment, books the pause and resumes play; without coins, the pause is booked and the unpaid rest is a penalty, with the payment kept |
| Survival.SurvivalGame.RestartGame | ProjectASL/src/SingleplayerGame/singleplayer.js:658-665 | full health, no coins, no score, a fresh word, and the countdown |
| Survival.SurvivalGame.MainMenu | ProjectASL/src/SingleplayerGame/singleplayer.js:773-780 | the menu with full health, no coins, no score and a fresh word |
| Survival.SurvivalGame.SaveUsername | ProjectASL/src/SingleplayerGame/singleplayer.js:785-794 | a trimmed name over ten characters is refused and the name kept; any other, even empty, is saved |
| Survival.SurvivalGame.FrameSerial | ProjectASL/src/SingleplayerGame/singleplayer.js:305-318 | the lines handed on and the buffer left are those `SerialFraming` gives for the old buffer plus the chunk |
| Survival.SurvivalGame.OnSerialLine | ProjectASL/src/SingleplayerGame/singleplayer.js:315-317 | a line containing "BUTTON PRESSED!" pays a coin only on the checkpoint screen; any other line changes nothing |
| Survival.SurvivalGame.ReceiveSerial | ProjectASL/src/SingleplayerGame/singleplayer.js:302-318 | each chunk's lines are handled in order, and the buffer ends as the framing of the whole text says |

## Left out

- Drawing is not modelled: the p5 canvas, stars, HUD, ship, button rendering, tooltips and the audio visualiser. It is rendering with floating-point colour and geometry.
- The MQTT client is not modelled. Publications are recorded in `outbox` and subscriptions in `subscriptions`; delivery and the broker's retained store are not modelled.
- The 500 ms wait in `joinRoom` becomes two methods, `JoinRoom` and `FinishJoin`, with the retained messages handled in between.
- The `setInterval` timers are not modelled. `SendHeartbeat` and `CleanInactivePlayers` are the callbacks, called whenever the caller chooses.
- The hand-pose model, the classifier and the hand normalisation and denormalisation are not modelled. They use floating-point geometry.
- The confidence normalisation and sort are not modelled either. A verdict is a sign and a flag for "confidence ≥ 0.6".
- JSON encoding is not modelled. Payloads are decoded records; an empty payload stands for the unparsable empty string.
- Supabase (the score upload in `endGame` and the leaderboard) is network I/O and is not modelled.
- The Web Serial port is not modelled: opening, reading, writing, cancelling, `TextDecoder`, and the name/average message sent to the Arduino (floating-point `toFixed`).
- The Arduino, Back, Connect, Disconnect and Exit buttons of the survival game are single page switches or port I/O. They are not modelled.
- The visibility of the Pay 1 Coin button is not modelled; it is part of drawing. Its callback is `PayCoin`.
- `wordSpeeds` and the per-word average of `letterSpeeds` are not modelled. They are floating-point averages. `letterSpeeds` itself is modelled.
- The random word source (`random(words).toUpperCase().replace(...)`) is not modelled. Each next word is a parameter, taken as already normalised.
- The YouTube player, `bgMusic` and the WHATWG URL parser are not modelled. The parser's outcome is a parameter of `Menu.ParseYouTubeVideoId`.
- `/state` messages whose payload is not a state record are not modelled: JavaScript would assign `undefined`. `RoomSync.RoomClient.HandleMessage` leaves the state unchanged for them.
- Survival.SurvivalGame.OnSerialLine: for a press on the checkpoint screen it states only the payment's effect on coins, payment, pause and health. The complete outcome is `PayCoin`'s postcondition.
- Survival.SurvivalGame.ReceiveSerial: states the buffer and the invariant. Each line's effect is `OnSerialLine`'s postcondition.
- Time is in whole milliseconds. p5's `millis()` is fractional; the model uses integers for the 500 ms letter gate, the countdowns and the checkpoint clock, and reals only for canvas coordinates.
- RoomSync.RoomClient.GotClassification: when several records carry the local name, the model credits one of them without saying which. `Object.values(players).find` (multiplayerpace.js:951) takes the first in insertion order, and a map has no insertion order.
- Menu.GameOptionsButtons: the disabled flag is fixed when the buttons are built (main.js:459), while the callback's guard reads `offlineMode` at click time (main.js:458). The model uses one `offlineMode` for both moments. `draw()` refreshes `offlineMode` every frame (main.js:262-264) without rebuilding the buttons, so a change of connectivity between the two is not modelled.
- Menu.MultiplayerNeedsNetwork: states the click outcome for one `offlineMode` shared by the disabled flag and the guard, as the line above explains.
- Roster.Inbound: a hand frame published to `/ping` for a known sender is not modelled. JavaScript destructures its missing `timestamp` and stores `undefined` as that record's `lastUpdate`, after which eviction never removes it. An integer `lastUpdate` cannot hold `undefined`, so the model leaves the roster unchanged. No client of this program publishes a hand frame to `/ping`.
- Survival.SurvivalGame.SaveUsername: the ten-character limit counts characters (code points), while `.length` counts UTF-16 code units. A name with characters outside the Basic Multilingual Plane (six emoji, say) is refused by JavaScript and saved by the model. The multiplayer name rules accept only ASCII, so they are unaffected.
