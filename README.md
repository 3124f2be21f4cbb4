# Snakes: the game core in Dafny

This project models the server-side core of the Snakes multiplayer game. The game runs on
Orleans grains written in C#. Four parts are modelled:

- A **player grain** (`Grains/PlayerGrain.cs`) owns one snake: its body (head first), its
  direction, its score, whether it is alive, and the tail cell its last move vacated.
- A **game grain** (`Grains/GameGrain.cs`) owns one session. It holds the state machine
  NoGame → Lobby → InProgress → NoGame, the roster of player grains, the berries, and the
  round timer. One timer tick is `PlayRound`. In a round:
  - the computer players turn at random;
  - every player advances one cell;
  - each player eats the berries under its head and is checked for collisions;
  - the removed players leave the roster and die;
  - the eaten berries go, and new ones are drawn;
  - the game ends unless more than one player is alive and one of the living is human.
- The **observer registry** (`GrainInterfaces/ObserverManager.cs`) keeps subscriptions with a
  last-seen time. It drops expired or failing subscribers while notifying.
- The **geometry helpers** (`GrainInterfaces/Extensions.cs`) and the **value types**
  (`SharedTypes/Size.cs`).

How each part is modelled:

- **Classes.** The two grains and the registry are Dafny classes with the source's fields.
  Their methods change those fields in place, and the source's loops are `for` and `while`
  loops with invariants.
- **Reference definitions.** `Rounds` describes, on values, what one round does to every
  player (`Advanced`, `FedAt`, `Removed`, `Settled`), to the berries (`Uneaten`,
  `Replenished`) and to the notification stream (`ScoreLogs`, `DiedLog`).
  `Game.GameGrain.PlayRound` is proved to do exactly that.
- **Notifications.** The game grain's notifications are recorded, in order, in a ghost field
  `events`.
- **Randomness** is nondeterministic choice (`:|`) within the range the source draws from.
  The random rolls for the computer players' turns are an explicit parameter `rolls`. The
  source draws them with `Random.Shared.Next(10)` (`Grains/GameGrain.cs:129`), but the model
  takes any integers: every roll other than 0 and 1 leaves the direction alone, so the rolls
  2 to 9 and the integers outside 0 to 9 behave alike.
- **The clock** of the registry is an integer parameter `now`.
- **Delivery.** A predicate `delivers` on the address says whether a notification reaches
  its observer. The source calls the delegate and catches exceptions instead.

Files:

- `wrappers.dfy`: Option, Outcome.
- `values.dfy`: Size, Point, and their equality.
- `geometry.dfy`: directions, moves, and the random draws.
- `players.dfy`: PlayerGrain.
- `sequences.dfy`: list removal and counting helpers.
- `rounds.dfy`: the reference definitions of a round, and lemmas about them.
- `game.dfy`: GameGrain.
- `observers.dfy`: ObserverManager.

Where the code and its own comments or messages disagree, the model follows the code:

- **Start checks for an empty roster, not for a human.** `Start` throws when the roster is
  empty (`Grains/GameGrain.cs:57-60`). Its message reads "No human player when starting", but
  nothing checks that a roster entry is human.
- **Joining does not add to the roster.** `JoinGame` (`Grains/PlayerGrain.cs:20-35`) records
  the game but never calls `AddPlayer`. No other file shown calls `AddPlayer` either: the hub's
  `JoinGame` (`HubAndHost/SnakeHub.cs:115-123`) only sets the player up and joins it. So in the
  code as written the roster stays empty, and `Start` always fails with the "No human player"
  error. The model keeps `AddPlayer` as the only way into the roster, and proves what a round
  does for any roster.
- **Computer players never enter the roster.** `Start` creates and joins them
  (`Grains/GameGrain.cs:62-67`), but nothing adds them to `_players`, so they take no part in
  rounds. Berries are drawn one per roster entry (`Grains/GameGrain.cs:69-72`).
- **Replenishing adds half the shortfall.** The loop bound `_players.Count - _berries.Count`
  is evaluated again on every pass, while the berries grow and the counter also grows
  (`Grains/GameGrain.cs:199-202`). For a shortfall of d berries the loop adds ceil(d/2).
- **The `IPlayer.Advance` doc comment is inverted.** It says `true` means out of bounds
  (`GrainInterfaces/IPlayer.cs:13`). The implementation returns `true` for in bounds
  (`Grains/PlayerGrain.cs:59`), and its caller lists a player when the result is `false`
  (`Grains/GameGrain.cs:146-149`). The model does the same as the code.

## Model

| member | source | states |
|---|---|---|
| Values.EmptySize | SharedTypes/Size.cs:5-9 | the default board size has width and height 0 |
| Values.Origin | SharedTypes/Size.cs:57-61 | the default point is (0, 0) |
| Values.SizeEquals | SharedTypes/Size.cs:32-37 | `Equals(Size?)` is true exactly when the other size is non-null and equal in both fields |
| Values.SizeEq | SharedTypes/Size.cs:44-47 | `==` on sizes is equality of nullable values: two nulls are equal, null and non-null are not, otherwise `Equals` decides |
| Values.SizeNotEq | SharedTypes/Size.cs:49-52 | `!=` on sizes holds exactly when the nullable values differ |
| Values.PointEquals | SharedTypes/Size.cs:83-88 | `Equals(Point?)` is true exactly when the other point is non-null with the same coordinates |
| Values.PointEq | SharedTypes/Size.cs:95-98 | `==` on points is equality of nullable values, delegating to `Equals` for a non-null left side |
| Values.PointNotEq | SharedTypes/Size.cs:100-103 | `!=` on points holds exactly when the nullable values differ |
| Values.PointEqualityLaws | SharedTypes/Size.cs:83-88 | point equality is reflexive, symmetric and transitive, and no point equals null |
| Geometry.LeftOf | GrainInterfaces/Extensions.cs:21-29 | a left turn switches between the vertical and the horizontal axis |
| Geometry.RightOf | GrainInterfaces/Extensions.cs:31-39 | a right turn switches axis and is undone by a left turn |
| Geometry.OppositeOf | GrainInterfaces/Extensions.cs:41-49 | the opposite direction differs but stays on the same axis, and equals two left turns and two right turns |
| Geometry.TurnsAreInverse | GrainInterfaces/Extensions.cs:21-39 | a left turn and a right turn undo each other, in either order |
| Geometry.OppositeIsInvolution | GrainInterfaces/Extensions.cs:41-49 | the opposite of the opposite is the original direction |
| Geometry.FourLeftTurns | GrainInterfaces/Extensions.cs:21-29 | four left turns make a full circle |
| Geometry.Move | GrainInterfaces/Extensions.cs:11-19 | a vertical move changes only y by one, a horizontal move only x by one |
| Geometry.MoveThenBack | GrainInterfaces/Extensions.cs:11-19 | a move followed by a move in the opposite direction returns to the start |
| Geometry.Next | GrainInterfaces/Extensions.cs:8-9 | `Random.Next(lo, hi)` fails exactly when hi < lo, otherwise yields a value of [lo, hi), or lo when the range is empty |
| Geometry.OnScreen | GrainInterfaces/Extensions.cs:8-9 | fails exactly when the border leaves a negative range on an axis, otherwise the point lies at least `border` cells inside each edge |
| Geometry.PlacedOnBoard | GrainInterfaces/Extensions.cs:8-9 | a point drawn with border 0 on a board with at least one cell is on the board |
| Players.Shifted | Grains/PlayerGrain.cs:43-49 | after a move the body keeps its length, the head has moved one cell, and every other segment holds its predecessor's old cell |
| Players.Grown | Grains/PlayerGrain.cs:95-103 | growing appends the remembered tail cell when there is one, and changes nothing otherwise |
| Players.AdvanceThenGrow | Grains/PlayerGrain.cs:41-103 | a move followed by one berry keeps the old tail: the new body is the new head in front of the whole old body |
| Players.Trail | Grains/PlayerGrain.cs:28-34 | the starting body has the requested length and starts at the head |
| Players.TrailSteps | Grains/PlayerGrain.cs:30-34 | each segment of the starting body is one move opposite to the direction from the one before it |
| Players.TrailNear | Grains/PlayerGrain.cs:28-34 | segment i of the starting body is at most i cells from the head on each axis |
| Players.JoinedSnakeOnBoard | Grains/PlayerGrain.cs:28-34 | a head at least 5 cells inside the edges keeps all five starting segments on the board |
| Players.PlayerGrain.constructor | Grains/PlayerGrain.cs:13-18 | a fresh player is alive, with an empty body, score 0, no remembered tail and an empty board size |
| Players.PlayerGrain.JoinGame | Grains/PlayerGrain.cs:20-35 | resets the remembered tail, revives the player and records the board; succeeds exactly on boards of at least 10 by 10, leaving a 5-segment snake that trails behind its head, starts 5 cells inside the edges and lies wholly on the board; on failure the body is empty |
| Players.PlayerGrain.Advance | Grains/PlayerGrain.cs:41-60 | the body becomes its shifted self, the old tail is remembered, and the result is true exactly when the new head is on the board |
| Players.PlayerGrain.SetHumanControlled | GrainInterfaces/IPlayer.cs:34 | the human-control flag takes the given value and nothing else changes |
| Players.PlayerGrain.SetName | GrainInterfaces/IPlayer.cs:36 | the name takes the given value and nothing else changes |
| Players.PlayerGrain.Die | Grains/PlayerGrain.cs:71-75 | the player is dead; body, score and direction are untouched |
| Players.PlayerGrain.TurnLeft | Grains/PlayerGrain.cs:83-87 | the direction turns left and nothing else changes |
| Players.PlayerGrain.TurnRight | Grains/PlayerGrain.cs:89-93 | the direction turns right and nothing else changes |
| Players.PlayerGrain.FoundBerry | Grains/PlayerGrain.cs:95-103 | the score grows by one and the body grows by the remembered tail cell, if any |
| Players.TurnLeftThenRight | Grains/PlayerGrain.cs:83-93 | a left turn followed by a right turn leaves the direction as it was |
| Rounds.StartFits | Grains/GameGrain.cs:62-71 | definition: Start's draws succeed when every filled-in computer player fits the 5-cell join border and every berry draw `OnScreen(0, size)` succeeds, that is, both extents are non-negative; used by Game.GameGrain.Start |
| Rounds.AiTurn | Grains/GameGrain.cs:125-139 | definition of the turning loop for one player; its properties are in Rounds.AiTurnTurns, and Game.TurnAiPlayers is proved against it |
| Rounds.AiTurnTurns | Grains/GameGrain.cs:125-139 | the computer turn changes only the direction; a human player or a roll other than 0 and 1 is left as it was; a turn switches the axis, so it is never a reversal |
| Rounds.Stepped | Grains/PlayerGrain.cs:41-49 | definition of a player's state after Advance; its properties are in Rounds.SteppedMoves, and Players.PlayerGrain.Advance is proved against it |
| Rounds.SteppedMoves | Grains/PlayerGrain.cs:41-49 | Advance changes only the body and the remembered tail: the length stays, the head moves one cell in the direction, every other segment takes its predecessor's cell, and the old tail cell is remembered |
| Rounds.Found | Grains/PlayerGrain.cs:95-103 | definition of a player's state after one FoundBerry; its properties are in Rounds.FoundGrows, and Players.PlayerGrain.FoundBerry is proved against it |
| Rounds.FoundGrows | Grains/PlayerGrain.cs:95-103 | FoundBerry adds one point and appends the remembered tail cell, if any, to the unchanged body; nothing else changes |
| Rounds.Meals | Grains/GameGrain.cs:155-163 | definition: the number of berries under player k's head; Game.FeedPlayer is proved to call FoundBerry that many times |
| Rounds.MealsUnderHead | Grains/GameGrain.cs:155-163 | a player eats this round exactly when a berry lies under its head |
| Rounds.Hits | Grains/GameGrain.cs:166-184 | definition: player k's head is the head of another player, or lies on a non-head segment of some body as k's check sees it; used by Rounds.HitCountCollides |
| Rounds.Collides | Grains/GameGrain.cs:166-184 | definition: player k hits some roster entry; Rounds.RemovalOrderLeaving ties it to the removal list |
| Rounds.Removed | Grains/GameGrain.cs:144-185 | definition: player k's head left the board, or it collides; Rounds.RemovalOrderLeaving proves the removal list holds exactly these players |
| Rounds.HitCountCollides | Grains/GameGrain.cs:166-184 | player k is listed at least once by the collision checks against the first n players exactly when it hits one of them |
| Rounds.OffBoardHas | Grains/GameGrain.cs:144-150 | on a roster without repeated grains, the advancing loop's list holds player k exactly when k is among the first n and its head left the board |
| Rounds.OffBoardWithin | Grains/GameGrain.cs:144-150 | the advancing loop's list holds only roster entries |
| Rounds.RemovalOrderHas | Grains/GameGrain.cs:144-185 | on a roster without repeated grains, the removal list after n players' checks holds player k exactly when its head left the board or it is one of the first n and has a hit |
| Rounds.RemovalOrderWithin | Grains/GameGrain.cs:144-185 | the removal list holds only roster entries |
| Rounds.RemovalOrderLeaving | Grains/GameGrain.cs:144-185 | the removal list of a round holds only roster entries; on a roster without repeated grains it holds a player exactly when `Removed` says so; as a set it is `Leaving` |
| Rounds.Fed | Grains/GameGrain.cs:155-163 | n berries found in a row add n points and change nothing but the score and the body |
| Rounds.FedBody | Grains/GameGrain.cs:155-163 | after n berries the body is the old body followed by n copies of the remembered tail cell (none without one) |
| Rounds.SeenBody | Grains/GameGrain.cs:166-184 | the body a collision check sees starts at that player's head, and counts the berries already eaten by the players up to and including the checking player, so a player can hit its own freshly grown tail |
| Rounds.AliveCount | Grains/GameGrain.cs:95-102 | the number of living players among the first n is at most n, and is zero exactly when none of them is alive |
| Rounds.ScoreLog | Grains/GameGrain.cs:159-161 | definition: one score notification per berry eaten, carrying the running score; Rounds.ScoreLogStep states its step |
| Rounds.ScoreLogs | Grains/GameGrain.cs:152-185 | definition: the score notifications of the first n players, in roster order; Game.ResolveLoop is proved against it |
| Rounds.ScoreLogStep | Grains/GameGrain.cs:159-161 | one more berry adds one score notification carrying the new running score |
| Rounds.DiedLog | Grains/GameGrain.cs:191 | definition: one death notification per removal-list entry; Rounds.DiedLogStep states its step, and Game.GameGrain.RemovePlayers is proved against it |
| Rounds.DiedLogStep | Grains/GameGrain.cs:191 | one more removal-list entry adds one death notification for that player |
| Rounds.HeadOnHeadRemovesBoth | Grains/GameGrain.cs:166-175 | two players whose heads meet are both removed, whatever their roster order |
| Rounds.BodyHitRemoves | Grains/GameGrain.cs:177-183 | a head on any non-head segment of any snake, its own included, removes the player |
| Rounds.SurvivorIsFed | Grains/GameGrain.cs:152-192 | a player that stays keeps its liveness, gains one point per berry under its head, and grows by as many segments |
| Rounds.OneBerryGrowsByOldTail | Grains/PlayerGrain.cs:41-103 | a player that moves and then eats one berry grows at the tail: the new head is in front of the whole old body |
| Rounds.Uneaten | Grains/GameGrain.cs:194-197 | definition: the berries not under any head, in their order; Rounds.UneatenBerries states its properties and Game.GameGrain.RemoveBerries is proved against it |
| Rounds.ReplenishCount | Grains/GameGrain.cs:199-202 | the number of passes of the replenishing loop: when it is positive, the test `i < players - berries` still holds before the last pass, and it fails after it |
| Rounds.Replenished | Grains/GameGrain.cs:199-202 | definition: the kept berries come first, followed by ReplenishCount berries, each drawn by `OnScreen(0, size)` (on the board when both extents are positive, Geometry.PlacedOnBoard); Game.GameGrain.Replenish is proved against it |
| Rounds.UneatenBerries | Grains/GameGrain.cs:194-197 | after the berry removal no berry lies under a head, and every berry not under a head is kept |
| Rounds.ReplenishBound | Grains/GameGrain.cs:199-202 | replenishing never leaves more berries than players, at least halves the shortfall, and adds at least one berry when there is a shortfall |
| Rounds.KeepsGoing | Grains/GameGrain.cs:93-116 | definition of IsInProgress on player states: more than one alive, and a human among the living; Game.GameGrain.IsInProgress is proved against it |
| Rounds.KeepsGoingNeedsTwo | Grains/GameGrain.cs:93-116 | a game can only go on with at least two roster entries |
| Sequences.Keep | Grains/GameGrain.cs:187-197 | the filtered list holds no dropped element and is no longer than the original |
| Sequences.RemoveFirst | Grains/GameGrain.cs:196 | `List.Remove` takes away one occurrence of the element, and leaves a list without it unchanged |
| Sequences.CountInPrefix | Grains/GameGrain.cs:155-163 | the occurrences counted by the berry loop so far are the occurrences in the berries scanned so far |
| Sequences.RemoveEachKeeps | Grains/GameGrain.cs:187-192 | removing each listed entry in turn from a list without repetitions keeps exactly the entries not listed, in their order |
| Sequences.KeepDistinct | Grains/GameGrain.cs:187-192 | a roster without repetitions has none after the removal |
| Game.DigitChar | Grains/GameGrain.cs:64 | a digit below 10 is the character for it |
| Game.Decimal | Grains/GameGrain.cs:64 | the general numeric format of a natural number: decimal digits without leading zeros |
| Game.DecimalRoundTrip | Grains/GameGrain.cs:64 | reading the digits of n back as a decimal number gives n |
| Game.DecimalInjective | Grains/GameGrain.cs:64 | two numbers with the same digits are the same number |
| Game.AiPlayerKey | Grains/GameGrain.cs:64 | a computer player's key is `AI-ControlledPlayer-` followed by the decimal digits of its index |
| Game.AiPlayerKeysDistinct | Grains/GameGrain.cs:62-67 | computer players with different indices get different grain keys |
| Game.TurnAiPlayers | Grains/GameGrain.cs:125-139 | every computer player turns left on a roll of 0 and right on a roll of 1; human players and other rolls leave the direction alone |
| Game.AdvanceOne | Grains/GameGrain.cs:146 | one player's state becomes the given advanced state, and the result is true exactly when the new head is on the board |
| Game.AdvanceAt | Grains/GameGrain.cs:144-150 | one pass of the advancing loop: player i takes its advanced state, the players before it keep theirs, and the list gains player i exactly when its head left the board |
| Game.AdvancePlayers | Grains/GameGrain.cs:144-150 | every player advances once, together taking the given advanced states, and the returned list is `OffBoard`: the players whose heads left the board, in roster order |
| Game.MoveAll | Grains/GameGrain.cs:125-150 | the roster's states become `Advanced(old states, rolls)`, and the out-of-bounds list is `OffBoard` of those states |
| Game.FeedStep | Grains/GameGrain.cs:157-163 | one berry under the head is one more FoundBerry, one more eaten berry and one more score notification; any other berry changes nothing |
| Game.Eat | Grains/GameGrain.cs:157-162 | a berry under the head feeds the player once, is listed as eaten, and is announced with the new score |
| Game.FeedPlayer | Grains/GameGrain.cs:155-164 | the player is fed once per berry under its head, exactly those berries are listed as eaten, and one score notification goes out for each |
| Game.GrainHitsPositive | Grains/GameGrain.cs:166-184 | a player is listed at least once by its checks against the first n roster entries exactly when it hits one of them |
| Game.CheckSegments | Grains/GameGrain.cs:177-183 | the segment loop appends the player once for every segment under its head, and nothing else |
| Game.CheckAgainst | Grains/GameGrain.cs:166-184 | the check against one other grain appends the player once for a shared head cell with another grain and once per non-head segment under its head |
| Game.CollectHits | Grains/GameGrain.cs:166-184 | the collision loop appends the player to the removal list once per hit against the whole roster, and nothing else |
| Game.GrainHitsAgree | Grains/GameGrain.cs:166-184 | counted on the grains, whose bodies are those the check sees, the hits of player i are `HitCount` of the reference states |
| Game.SettlePlayer | Grains/GameGrain.cs:152-185 | player i is fed and the rest of the roster is untouched; the eaten berries are those under its head, one per meal; one score notification goes out per meal; and player i is appended to the removal list `HitCount` times, counted against bodies of which those up to i have eaten |
| Game.ResolveStep | Grains/GameGrain.cs:152-185 | one pass of the berry and collision loop takes the loop state from player i to player i + 1: one more player fed, the removal list grown to `RemovalOrder` of i + 1 players, and the score notifications grown to those of i + 1 players |
| Game.ResolveLoop | Grains/GameGrain.cs:152-185 | after the loop every player is fed, the eaten list covers every berry under each head, the score notifications follow roster order, and the removal list is exactly `RemovalOrder` |
| Game.ResolveCollisions | Grains/GameGrain.cs:152-185 | the whole roster is fed; the removal list is exactly `RemovalOrder`, holds only roster entries, and holds a player exactly when it is `Removed`; the eaten list covers every berry under every head |
| Game.HeadsEaten | Grains/GameGrain.cs:155-163 | eaten berries counted per player's head are eaten berries counted per head cell |
| Game.GameGrain.constructor | Grains/GameGrain.cs:15-26 | a new session is in NoGame with no roster, no berries, no timer and an empty board |
| Game.GameGrain.SetState | Grains/GameGrain.cs:84-91 | the state is set, and a state-change notification goes out only when it really changed |
| Game.GameGrain.InitializeNewGame | Grains/GameGrain.cs:28-42 | fails with an invalid-transition error exactly outside NoGame, leaving everything unchanged; otherwise clears roster and berries, records size and expected count, enters Lobby and announces the three changes in source order |
| Game.GameGrain.AddPlayer | Grains/GameGrain.cs:213-217 | appends the player to the roster and announces the new roster size |
| Game.GameGrain.Start | Grains/GameGrain.cs:50-77 | fails outside Lobby, on an empty roster, or when a computer player or a berry does not fit the board, leaving the session unchanged; otherwise draws one berry per roster entry by `OnScreen(0, size)` (on the board when both extents are positive, Geometry.PlacedOnBoard), enters InProgress, announces it and arms the timer |
| Game.GameGrain.IsInProgress | Grains/GameGrain.cs:93-116 | true exactly when more than one roster entry is alive and one of the living is human-controlled |
| Game.GameGrain.LivingPlayers | Grains/GameGrain.cs:95-102 | returns the living roster entries: as many as are alive, and every living one |
| Game.GameGrain.AnyHuman | Grains/GameGrain.cs:104-113 | true exactly when one of the given players is human-controlled |
| Game.GameGrain.RemoveStep | Grains/GameGrain.cs:187-192 | one removal-list entry leaves the roster, dies, and is announced dead |
| Game.GameGrain.DropListed | Grains/GameGrain.cs:189 | the roster loses the first occurrence of the listed player |
| Game.GameGrain.AnnounceDied | Grains/GameGrain.cs:191 | one death notification for the listed player is appended |
| Game.GameGrain.KillListed | Grains/GameGrain.cs:190 | the listed player is dead, and every other roster state is as before |
| Game.GameGrain.RemovePlayers | Grains/GameGrain.cs:187-192 | the roster keeps exactly the unlisted entries in order, exactly the listed ones are dead, and one death notification goes out per list entry |
| Game.GameGrain.RemoveBerries | Grains/GameGrain.cs:194-197 | removing one berry per eaten entry takes away every berry under a head and keeps the others in order |
| Game.GameGrain.Replenish | Grains/GameGrain.cs:199-202 | the kept berries stay in front, and ReplenishCount new berries follow, each drawn by `OnScreen(0, size)` (on the board when both extents are positive, Geometry.PlacedOnBoard) |
| Game.GameGrain.RemoveAll | Grains/GameGrain.cs:187-192 | the score notifications go out, the removed players leave the roster and die, and every original player ends up `Settled` |
| Game.GameGrain.RefreshBerries | Grains/GameGrain.cs:194-202 | the berries become the uneaten ones followed by the replenished ones |
| Game.GameGrain.EndRound | Grains/GameGrain.cs:204-210 | a new round is announced; the game goes on exactly when IsInProgress holds, otherwise it enters NoGame, announces it and disarms the timer |
| Game.GameGrain.StopGame | Grains/GameGrain.cs:208-209 | the session enters NoGame, announces it, and the timer is disposed |
| Game.GameGrain.FinishRound | Grains/GameGrain.cs:194-210 | the berries are refreshed and the round ends as in EndRound; no player changes |
| Game.GameGrain.PlayPlayers | Grains/GameGrain.cs:125-185 | the turning, advancing and berry/collision loops: the roster is advanced and fed, and the removal list is exactly `RemovalOrder`, whose members are the leaving players |
| Game.GameGrain.MovePlayers | Grains/GameGrain.cs:125-192 | the player half of a round: players are advanced, fed and settled; the removal list `dying` is exactly `RemovalOrder` (the players off the board in roster order, then each player once per hit, in roster order); its members leave the roster; one death notification goes out per entry of `dying`, after the score notifications |
| Game.GameGrain.PlayRound | Grains/GameGrain.cs:123-211 | one whole tick: the session stays valid; every original player ends as `Settled(Advanced(...))`; the removal list `dying` is exactly `RemovalOrder`, and the roster keeps exactly the players not on it; the berries become the uneaten ones plus the replenished ones; the notifications are the score log, the death log, NewRound and, when the game ends, the change to NoGame; the game goes on exactly when `KeepsGoing` holds |
| Observers.RemoveExpired | GrainInterfaces/ObserverManager.cs:250-273 | dropping the expired addresses leaves exactly the unexpired subscriptions |
| Observers.RemoveDefunct | GrainInterfaces/ObserverManager.cs:201-245 | dropping the defunct addresses leaves exactly the subscriptions Notify keeps |
| Observers.BoundaryEntrySurvives | GrainInterfaces/ObserverManager.cs:207 | an entry last seen exactly one expiration ago is not expired: it is notified when selected, and kept unless its delivery fails |
| Observers.ClearExpiredIdempotent | GrainInterfaces/ObserverManager.cs:250-273 | clearing expired entries twice at the same time is the same as clearing once |
| Observers.NotifyWithinUnexpired | GrainInterfaces/ObserverManager.cs:201-245 | Notify keeps a subset of the unexpired subscriptions, unchanged and not refreshed, and leaves nothing expired |
| Observers.NotifyWithoutFailures | GrainInterfaces/ObserverManager.cs:201-245 | when every selected delivery succeeds, Notify removes exactly the expired subscriptions |
| Observers.SubscribeUnsubscribe | GrainInterfaces/ObserverManager.cs:100-132 | subscribing a new address and then unsubscribing it restores the registry |
| Observers.FreshSubscriptionSurvives | GrainInterfaces/ObserverManager.cs:100-120 | a subscription made now is not expired now, for a non-negative expiration |
| Observers.ObserverManager.constructor | GrainInterfaces/ObserverManager.cs:49-54 | a new registry is empty and holds the given expiration |
| Observers.ObserverManager.Observers | GrainInterfaces/ObserverManager.cs:74-80 | the copy has the same addresses, each mapped to its observer |
| Observers.ObserverManager.Clear | GrainInterfaces/ObserverManager.cs:85-88 | no subscription is left |
| Observers.ObserverManager.Subscribe | GrainInterfaces/ObserverManager.cs:100-120 | the address maps to the observer stamped with now; the count grows by one exactly when the address is new |
| Observers.ObserverManager.Unsubscribe | GrainInterfaces/ObserverManager.cs:128-132 | the address is removed; the count shrinks by one exactly when it was subscribed |
| Observers.ObserverManager.RemoveAddresses | GrainInterfaces/ObserverManager.cs:236-244 | one `TryRemove` per listed address removes exactly the listed addresses |
| Observers.ObserverManager.ScanForNotify | GrainInterfaces/ObserverManager.cs:205-231 | the scan lists exactly the expired addresses and the selected ones whose delivery fails, and notifies exactly the unexpired selected ones |
| Observers.ObserverManager.Notify | GrainInterfaces/ObserverManager.cs:201-245 | the registry becomes exactly the surviving subscriptions, and exactly the unexpired selected observers are notified |
| Observers.ObserverManager.NotifyAsync | GrainInterfaces/ObserverManager.cs:146-190 | the awaited overload removes and notifies exactly as the synchronous one |
| Observers.ObserverManager.ScanExpired | GrainInterfaces/ObserverManager.cs:254-262 | the scan lists exactly the expired addresses |
| Observers.ObserverManager.ClearExpired | GrainInterfaces/ObserverManager.cs:250-273 | the registry becomes exactly its unexpired subscriptions |

## Left out

- Game.GameGrain.PlayRound: it requires a roster without repeated grains, with a body for every player, and an armed timer. In the source, `AddPlayer` does not stop a grain from joining twice, and a roster entry that never joined has no head (`_body[0]` throws), so those cases are not modelled.
- The notifications of the game grain are a ghost log. The delivery through its `ObserverManager` is not modelled, nor are its `Subscribe` and `Unsubscribe` forwarders (`Grains/GameGrain.cs:224-234`); the registry is modelled on its own in `Observers`.
- Grain identity: the grain reference comparisons `p != p2` and `List.Remove(p)` are object identity of `PlayerGrain` instances, and `GetPrimaryKeyString()` is the constant field `key`. The model assumes that different grains have different keys. Each computer player that `Start` obtains through `GetGrain` is a fresh object, although Orleans would hand back an existing grain that has the same key.
- Timers: `RegisterTimer` and the timer handle's `Dispose` are the boolean `timerArmed`. The due time, the period and the scheduling of ticks are not modelled.
- Concurrency and async suspension: the grains run one call at a time, and each await is a plain call. The async `Notify` visits a live `ConcurrentDictionary`; the model scans fixed keys.
- Logging (`ILogger`) is left out, and so are `ToString`, `GetHashCode`, `Equals(object)` and `GetEnumerator`.
- Integers are unbounded: 32-bit wrap-around of scores and coordinates, and `DateTime`/`TimeSpan` overflow in the expiry test, are not modelled.
- Random draws are modelled by their range only, not by their distribution. `JoinGame` picks its direction by free choice instead of `Random.Next(4)`.
- Players.PlayerGrain.JoinGame takes the board size rather than the game grain, because the board size is the only thing it asks the game for.
- `IsHumanControlled`, `SetHumanControlled`, `SetName` and `GetName` are declared in `GrainInterfaces/IPlayer.cs:32-37`, but `Grains/PlayerGrain.cs` does not implement them. The model gives them plain fields. The game grain calls `SetHumanControlled` (`Grains/GameGrain.cs:65`) and `IsHumanControlled` (`Grains/GameGrain.cs:108`, `:127`). `SetName` and `GetName` are called only by the hub (`HubAndHost/SnakeHub.cs:120`, `:46`).
- Players.PlayerGrain.constructor: the unset `_direction` field, which is `default(Direction)`, is taken to be Up. The `Direction` enum is not part of this model.
- GetBoardSize, GetExpectedPlayers, GetCurrentState, GetBerryPositions and GetPlayers of the game grain; GetHead, GetBody, IsAlive, GetScore, IsHumanControlled and GetName of the player grain; and Count of the registry are plain field reads without contracts of their own.
- Nullable arguments: a null `Size` or `Point` reaching the grains is not modelled; such values are Dafny datatype values, and only the equality operators take `Option` arguments.
