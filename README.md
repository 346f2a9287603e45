# Professor Race: the match coordinator, the lobby and the client logic

This project models the parts of the Professor Race multiplayer runner that
hold state and make decisions, and proves properties about them:

- **GameServer** (`game_server.dfy`): the authoritative match coordinator
  of the game server. It is a four-phase state machine (Waiting,
  Countdown, Playing, Finished) over a registry of players keyed by socket
  id. The class `Coordinator` has one method per socket handler
  (`player_join`, `player_move`, `player_game_over`, `disconnect`). It also
  has one method per timer firing: a countdown tick, a match tick, a
  scheduled reset and the 50 ms broadcast. Pending timers are fields (two
  interval flags and a count of scheduled resets). Every broadcast is
  appended to `log`. The registry keeps its keys in insertion order
  (`order`), because `Object.values` order decides ties for the winner.
- **Lobby** (`lobby.dfy`): the lobby service's in-memory store of
  sessions and rooms (class `LobbyStore`). It covers the create, join and
  choose-character handlers with their ordered error checks, one pass of
  the per-second room state machine (Waiting, Countdown, Starting, Running,
  with Ended rooms deleted) and one pass of the heartbeat-timeout sweep.
  Each block run under the service's lock is one method. The clock and the
  generated uuids are parameters.
- **MultiplayerClient** (`multiplayer_client.dfy`): the browser's
  connection to the game server. It keeps the map of remote players in
  step with the `players_state` broadcasts, and throttles `player_move` to
  one message per 50 ms.
- **GameScene** (`game_scene.dfy`): the integer logic of the race. This
  covers score, checkpoint, lives, the speed tier, the finish flag,
  obstacle bookkeeping, the padded rectangle-overlap test and the match
  event handlers.
- **LobbyLogin** (`lobby_login.dfy`): the login screen's bounded username
  buffer, and the guard that keeps a name that is blank after trimming
  from being sent.
- **RoomScene** (`room_scene.dfy`): the room screen. It covers the
  character button priority, the one-shot local countdown and the gate
  that moves the player into the game.
- **Common** (`common.dfy`): `Option` and `Result`, plus the JavaScript
  `x || default` idiom for optional values.

Behaviour of the code the model keeps:

- A `player_join` from a socket that is already registered overwrites its
  entry.
- A `player_game_over` from an unknown socket returns at once, before the
  all-dead check.
- The countdown broadcasts 21 values, 20 down to 0, before `match_start`
  (`FirstJoinCountdown`).
- `finishMatch` leaves a running countdown interval in place, so it can
  fire in the Finished phase and start a new match
  (`FinishDuringCountdown`).
- The finish-threshold path of `player_move` passes the player's
  character, not its socket id, as the forced-winner key, so the forced
  winner almost never applies (`CharacterKeyIsNotHonoured`).
- Every `finishMatch` schedules one more reset, and moves above the
  threshold can call it again in any phase.
- The frame that costs the last life still increments the score
  (`Game.Step`), and `resetGame` does not clear `isDead`, so after a match
  over SPACE resets the counters but the player stays dead
  (`RestartAfterMatchOver`).
- A remote player's label text is fixed when its entry is created
  (`LabelGoesStale`).
- Creating a room does not take the creator out of the room it was in.

## Model

| member | source | states |
|---|---|---|
| GameServer.FinishKeepsTimers | backend/game-server/server.js:98-102 | finishing from any phase cancels only the match interval; a running countdown interval stays consistent with the Finished phase |
| GameServer.JoinKeepsTimers | backend/game-server/server.js:144-161 | a join outside Finished leaves a player registered, and from Waiting it starts the countdown interval with both counters at their constants |
| GameServer.ValuesListsRegistry | backend/game-server/server.js:113 | `Object.values(players)` lists every registered player exactly once: as many entries as players, each player present, and nothing else |
| GameServer.WithoutKeepsOthers | backend/game-server/server.js:193 | after `delete players[x]` the keys are exactly the old keys other than x |
| GameServer.WithoutNoRepeats | backend/game-server/server.js:193 | deleting a key keeps every remaining key listed once |
| GameServer.AppendNoRepeats | backend/game-server/server.js:147 | inserting a new key at the end keeps every key listed once |
| GameServer.RemoveKeepsRegistry | backend/game-server/server.js:193 | deleting an entry keeps the registry well formed (keys once each, in order, each entry under its own id) |
| GameServer.PutKeepsRegistry | backend/game-server/server.js:168-170 | overwriting an entry under its own id keeps the registry well formed |
| GameServer.AddKeepsRegistry | backend/game-server/server.js:147-155 | a new entry under its own id, appended to the key order, keeps the registry well formed |
| GameServer.EmptyRegistry | backend/game-server/server.js:196 | the key list is empty exactly when the registry is empty |
| GameServer.LeaderIsFirstHighest | backend/game-server/server.js:104-118 | the fold picks the first entry with the strictly greatest score, and picks nobody exactly when no score exceeds -1 |
| GameServer.MatchOutcomeSpec | backend/game-server/server.js:104-125 | a forced winner that is a registry key is announced with its own score; otherwise the announced score is at least every registered score, and the announcement is "Unknown"/"blacky"/-1 exactly when no score exceeds -1 |
| GameServer.CharacterKeyIsNotHonoured | backend/game-server/server.js:172-173 | the threshold path passes the character as the forced key, so a player crossing 10000 loses the announcement to a higher scorer |
| GameServer.PickWinner | backend/game-server/server.js:104-125 | the loop of `finishMatch` computes exactly the announcement `MatchOutcome` specifies |
| GameServer.Coordinator.constructor | backend/game-server/server.js:36-41 | the server starts Waiting, with an empty registry, both counters at their constants and no interval |
| GameServer.Coordinator.ResetMatch | backend/game-server/server.js:47-62 | empties the registry, sets Waiting, restores both counters, clears both intervals, broadcasts `match_reset`, and leaves scheduled resets pending |
| GameServer.Coordinator.StartCountdown | backend/game-server/server.js:64-68 | enters Countdown with the countdown interval scheduled |
| GameServer.Coordinator.StartMatch | backend/game-server/server.js:80-86 | enters Playing, broadcasts `match_start` and schedules the match interval |
| GameServer.Coordinator.FinishMatch | backend/game-server/server.js:98-134 | from any phase: Finished, match interval cancelled, exactly one `match_over` carrying `MatchOutcome`, one more reset scheduled |
| GameServer.Coordinator.Join | backend/game-server/server.js:144-161 | no change while Finished; otherwise the entry is inserted or overwritten (with its key keeping its place), the registry is broadcast, and only Waiting moves to Countdown |
| GameServer.Coordinator.Admit | backend/game-server/server.js:147-161 | the part of `player_join` that runs outside Finished, with the same new state |
| GameServer.Coordinator.Store | backend/game-server/server.js:147 | `players[id] = p`: an existing key keeps its place, a new key is appended |
| GameServer.Coordinator.Move | backend/game-server/server.js:165-175 | no change for an unknown socket; otherwise x, y and score are overwritten, and a score of at least 10000 finishes the match in any phase with the character as forced key |
| GameServer.Coordinator.GameOver | backend/game-server/server.js:177-188 | no change for an unknown socket; otherwise the sender is dead, and the match finishes without a forced winner exactly when every registered player is dead |
| GameServer.Coordinator.Disconnect | backend/game-server/server.js:190-199 | the entry is deleted and the registry broadcast; if nobody is left, a full reset follows in any phase |
| GameServer.Coordinator.Remove | backend/game-server/server.js:193 | `delete players[sid]`: the other keys keep their order, and the registry becomes empty exactly when sid was its only key |
| GameServer.Coordinator.CountdownTick | backend/game-server/server.js:68-77 | broadcasts the current value and then decrements it; at 0 or below it cancels itself and starts the match |
| GameServer.Coordinator.MatchTick | backend/game-server/server.js:86-95 | broadcasts the remaining time and then decrements it; at 0 or below it cancels itself and finishes the match without a forced winner |
| GameServer.Coordinator.ResetFires | backend/game-server/server.js:131-133 | a scheduled reset resets the match, whenever it fires |
| GameServer.Coordinator.BroadcastTick | backend/game-server/server.js:203-207 | the registry is broadcast only while Playing or counting down, and the coordinator invariant is kept |
| GameServer.Coordinator.RunCountdown | backend/game-server/server.js:64-77 | left alone, a countdown broadcasts every value from the current one down to 0 and then starts the match with the full match time; the players, their order and the pending resets are unchanged |
| GameServer.Coordinator.RunMatch | backend/game-server/server.js:80-95 | left alone, a match broadcasts every remaining time down to 0 and then announces the winner picked from the players and their order as they were when the match ran; the registry, its order and the countdown state are unchanged and one more reset is pending |
| GameServer.FirstJoinCountdown | backend/game-server/server.js:144-161 | on a fresh server, the first join broadcasts the registry and then 21 countdown values, 20 down to 0, before `match_start` |
| GameServer.FinishDuringCountdown | backend/game-server/server.js:98-102 | a match finished during the countdown is still followed by the countdown running out and a new match starting, with a reset pending |
| Lobby.TickRoom | backend/lobby-service/app.py:285-315 | a room advances at most one state per pass; Waiting with a player starts a countdown of 20, Waiting without one and Running rooms are unchanged; a countdown is decremented and gives Starting exactly when it reaches 0 or below, with the URL set and a startup delay of 3; a startup delay is decremented and gives Running exactly when it reaches 0 or below; Ended rooms are deleted; well-formed rooms stay well formed |
| Lobby.JoinError | backend/lobby-service/app.py:222-236 | the join checks in order: unknown session 400, unknown room 404, running 403, full 403, and nothing else fails |
| Lobby.LobbyStore.constructor | backend/lobby-service/app.py:85-86 | the store starts with no sessions and no rooms |
| Lobby.LobbyStore.CreateSession | backend/lobby-service/app.py:183-192 | a fresh id gets a session with no room and no character, seen now |
| Lobby.LobbyStore.CreateRoom | backend/lobby-service/app.py:195-219 | 400 for an unknown session with no change; otherwise a new Waiting room holding only its creator, with the full countdown and no character taken, becomes the creator's room |
| Lobby.LobbyStore.JoinRoom | backend/lobby-service/app.py:222-244 | an error exactly when `JoinError` reports one, with no change; otherwise the rooms become `Moved` and the session records the new room |
| Lobby.LobbyStore.MoveSession | backend/lobby-service/app.py:238-244 | the successful part of a join keeps every room well formed |
| Lobby.MovedShape | backend/lobby-service/app.py:238-243 | a join creates and deletes no room; the joined room gains the session, the previous room loses it, and every other room is untouched |
| Lobby.MovedOk | backend/lobby-service/app.py:235-243 | a join that passed the checks never pushes a room above 4 players |
| Lobby.LobbyStore.ChooseCharacter | backend/lobby-service/app.py:246-271 | 400, 404 and 403 in order with no change (403 even for the caller's own character); otherwise the old character is released, the new one is taken, and a Waiting room starts its countdown afresh |
| Lobby.LobbyStore.CountdownLoopTick | backend/lobby-service/app.py:283-315 | one pass leaves exactly `TickAll` of the rooms and keeps every room well formed |
| Lobby.TickAll | backend/lobby-service/app.py:283-315 | a pass keeps exactly the rooms that had not Ended, each as `TickRoom` leaves it |
| Lobby.TickAllOk | backend/lobby-service/app.py:283-315 | a pass of the countdown loop keeps every room within 4 players, its counters in range and its URL set once Starting |
| Lobby.LobbyStore.DiscardExpired | backend/lobby-service/app.py:328-334 | the first cleanup loop collects exactly the expired sessions and discards each from the room it records |
| Lobby.LeaversGrow | backend/lobby-service/app.py:329-333 | examining one more session adds it to the leavers of exactly the room it records, when it has expired |
| Lobby.LobbyStore.CleanupTick | backend/lobby-service/app.py:325-341 | a sweep drops every session not seen for 60 seconds, discards it from its room, then deletes every empty room |
| Lobby.CleanupSpec | backend/lobby-service/app.py:325-341 | after a sweep no room is empty, every surviving room only lost players, a room with a player left survives, and no remaining session is stale |
| Lobby.CleanupRemovesExpired | backend/lobby-service/app.py:330-333 | an expired session is no longer a player of the room it recorded |
| Lobby.LobbyStore.Heartbeat | backend/lobby-service/app.py:410-414 | refreshes `last_seen` of a known session only, and always answers "ok" |
| Lobby.LobbyStore.ListRooms | backend/lobby-service/app.py:417-433 | one row per room with its id, name, state, characters, URL and countdown, and `player_count` equal to its number of players, never above 4 |
| MultiplayerClient.CharacterLabel | frontend/src/MultiplayerClient.js:6-18 | "pinky", "alterEgo" and "greenThumb" show their labels, and every other key shows "Blacky" |
| MultiplayerClient.SpacedGap | frontend/src/MultiplayerClient.js:174-175 | between any two sends, at least 50 ms per send has elapsed |
| MultiplayerClient.Reconcile | frontend/src/MultiplayerClient.js:98-156 | after a broadcast the remote ids are the state's ids other than the client's own (plus its own entry if it had one and the state still lists it), each showing the state's position and character |
| MultiplayerClient.ReconcileIdempotent | frontend/src/MultiplayerClient.js:98-156 | applying the same broadcast twice changes nothing more |
| MultiplayerClient.ReconcileKeys | frontend/src/MultiplayerClient.js:100-111 | with no entry for itself, the remote ids are exactly the state's ids minus the client's own |
| MultiplayerClient.LabelGoesStale | frontend/src/MultiplayerClient.js:113-147 | a player who changes character keeps the label of its first character |
| MultiplayerClient.ReconcileLabels | frontend/src/MultiplayerClient.js:113-147 | a new entry is labelled correctly, and a kept entry is exactly when its old and new characters share a label |
| MultiplayerClient.FilledStep | frontend/src/MultiplayerClient.js:109-155 | one more iteration of the update loop applies one more id of the state |
| MultiplayerClient.ReconcileInTwoPasses | frontend/src/MultiplayerClient.js:98-156 | the removal loop followed by the update loop is the reconciliation |
| MultiplayerClient.Client.constructor | frontend/src/MultiplayerClient.js:21-29 | no socket, no remote players, last send at 0 |
| MultiplayerClient.Client.OnConnect | frontend/src/MultiplayerClient.js:80-92 | on connect, one `player_join` is sent, with username "Player" when none is stored |
| MultiplayerClient.Client.OnPlayersState | frontend/src/MultiplayerClient.js:98-156 | the handler leaves exactly `Reconcile` of the old map |
| MultiplayerClient.Client.DropLeft | frontend/src/MultiplayerClient.js:101-106 | the first loop deletes exactly the ids missing from the state |
| MultiplayerClient.Client.ApplyAll | frontend/src/MultiplayerClient.js:109-155 | the second loop adds or updates every id of the state except the client's own |
| MultiplayerClient.Client.OnDisconnect | frontend/src/MultiplayerClient.js:161-165 | a disconnect forgets every remote player |
| MultiplayerClient.Client.SendPlayerUpdate | frontend/src/MultiplayerClient.js:170-181 | nothing is sent without a connected socket or within 50 ms of the last send; otherwise one `player_move` goes out and sends stay at least 50 ms apart |
| GameScene.CollideRectSymmetric | frontend/src/scenes/GameScene.js:251-258 | the overlap test does not depend on which rectangle comes first |
| GameScene.CollideRectPadShrinks | frontend/src/scenes/GameScene.js:251-258 | a larger pad only removes collisions |
| GameScene.CollideRectApart | frontend/src/scenes/GameScene.js:251-258 | rectangles apart on the x axis never collide for a pad that is not negative |
| GameScene.Speed | frontend/src/scenes/GameScene.js:685-688 | the speed is even, at most 20, at least 8 for a score that is not negative, and 20 exactly from an effective score of 6000 |
| GameScene.SpeedMonotone | frontend/src/scenes/GameScene.js:685-688 | a higher effective score never gives a lower speed |
| GameScene.CheckpointFor | frontend/src/scenes/GameScene.js:786-787 | the largest multiple of 2000 not above the score |
| GameScene.NextCheckpoint | frontend/src/scenes/GameScene.js:786-794 | the checkpoint never decreases, stays a multiple of 2000, stays below 10000 and never passes the score |
| GameScene.KeepOnScreen | frontend/src/scenes/GameScene.js:759 | exactly the obstacles whose right edge is right of -60 are kept |
| GameScene.KeepOnScreenCounts | frontend/src/scenes/GameScene.js:759 | each on-screen obstacle is kept as many times as it occurs, and no off-screen one is kept |
| GameScene.Advance | frontend/src/scenes/GameScene.js:744-759 | after a frame every obstacle is on screen, and at most one was added |
| GameScene.KeepOnScreenAppend | frontend/src/scenes/GameScene.js:759 | the filter keeps the obstacles' relative order: filtering a concatenation is concatenating the filtered parts |
| GameScene.AdvanceSpawns | frontend/src/scenes/GameScene.js:744-759 | a frame is the obstacles moved left by the speed and filtered, followed by the new obstacle exactly when there was none or the last moved one is left of the spawn gap, and the new one is on screen |
| GameScene.FirstHit | frontend/src/scenes/GameScene.js:761-779 | a hit is reported exactly when some obstacle touches the player, at the first one that does |
| GameScene.BannerFor | frontend/src/scenes/GameScene.js:325-333 | a present name and character are shown as given, a missing or empty name shows "Unknown", a missing or empty character shows nothing, and only a missing score shows 0 |
| GameScene.Game.constructor | frontend/src/scenes/GameScene.js:26-37 | score, checkpoint 0, three lives, the stored high score, nothing finished or dead, and one obstacle |
| GameScene.Game.HandleHit | frontend/src/scenes/GameScene.js:609-652 | one life is lost; with none left the player is dead, the server is told when online, and the high score becomes the larger of the two; otherwise the score returns to the checkpoint with a single new obstacle |
| GameScene.Game.ResetGame | frontend/src/scenes/GameScene.js:655-677 | score 0, checkpoint 0, three lives, both end flags cleared, one new obstacle, and `isDead` untouched |
| GameScene.Game.SpaceKey | frontend/src/scenes/GameScene.js:120-124 | SPACE resets only after game over or the finish: score, checkpoint and lives back to their starting values, end flags cleared and one new obstacle, with `isDead`, the high score, the match flag, the game-overs sent, the banner and the leave flag as they were; otherwise nothing changes |
| GameScene.Game.Step | frontend/src/scenes/GameScene.js:682-807 | outside play nothing changes; in play the obstacles advance, a hit costs a life, the score grows by exactly one, the checkpoint follows, and the finish flag is raised at 10000 |
| GameScene.Game.ScoreTick | frontend/src/scenes/GameScene.js:782-806 | the score grows by one, the checkpoint follows it, and the finish flag is up exactly from 10000 |
| GameScene.Game.HandleCountdown | frontend/src/scenes/GameScene.js:307-311 | a countdown event blocks gameplay |
| GameScene.Game.HandleMatchStart | frontend/src/scenes/GameScene.js:313-322 | a match start allows gameplay for a player who is neither dead nor finished |
| GameScene.Game.HandleMatchOver | frontend/src/scenes/GameScene.js:324-352 | match over shows the banner, sets dead and game over, and schedules the return to the room screen |
| GameScene.RestartAfterMatchOver | frontend/src/scenes/GameScene.js:120-124 | SPACE after match over resets the counters, but the player stays dead, so no frame moves the score again |
| LobbyLogin.SkipBlank | frontend/src/scenes/LobbyLoginScene.js:115 | the first character at or after i that is not white space |
| LobbyLogin.SkipBlankBack | frontend/src/scenes/LobbyLoginScene.js:115 | the end of the last character before j that is not white space |
| LobbyLogin.Trim | frontend/src/scenes/LobbyLoginScene.js:115 | a trimmed name is empty or starts and ends with a character that is not white space |
| LobbyLogin.TrimBlank | frontend/src/scenes/LobbyLoginScene.js:115-116 | a name is blank after trimming exactly when all of it is white space |
| LobbyLogin.TrimShape | frontend/src/scenes/LobbyLoginScene.js:115 | the trimmed name is the piece of the original between leading and trailing white space |
| LobbyLogin.TrimIdempotent | frontend/src/scenes/LobbyLoginScene.js:115 | trimming twice is trimming once |
| LobbyLogin.LoginScreen.constructor | frontend/src/scenes/LobbyLoginScene.js:9-11 | the buffer starts empty |
| LobbyLogin.LoginScreen.KeyDown | frontend/src/scenes/LobbyLoginScene.js:74-85 | Backspace drops exactly the last character (an empty buffer stays empty), Enter logs in and leaves the buffer, a single character is appended below 16, and every other key changes nothing |
| LobbyLogin.LoginScreen.Login | frontend/src/scenes/LobbyLoginScene.js:114-121 | a name blank after trimming only sets the status line; any other name is sent trimmed |
| LobbyLogin.LoginScreen.OnLoginReply | frontend/src/scenes/LobbyLoginScene.js:122-143 | a refusal or failure sets its status line; an accepted login stores the session and moves to the room list |
| LobbyLogin.SentNamesAreClean | frontend/src/scenes/LobbyLoginScene.js:74-121 | for any sequence of keys, every name sent is non-empty and at most 16 characters |
| RoomScene.ButtonFor | frontend/src/scenes/RoomScene.js:141-157 | selected wins over taken, and taken wins over free |
| RoomScene.ButtonInteractive | frontend/src/scenes/RoomScene.js:141-157 | a button refuses clicks exactly when it is taken and not selected |
| RoomScene.FindRoom | frontend/src/scenes/RoomScene.js:192 | the first room with the id, and none exactly when no room has it |
| RoomScene.OwnButtonOnly | frontend/src/scenes/RoomScene.js:204-214 | only the own selection shows as selected, and it stays pressable even when listed as taken |
| RoomScene.CountdownStart | frontend/src/scenes/RoomScene.js:218 | the server's countdown, or 20 when it is missing or 0 |
| RoomScene.Ticked | frontend/src/scenes/RoomScene.js:232-234 | a tick moves the countdown by at most one, moves it exactly when it is positive, and never takes a non-negative countdown below 0 |
| RoomScene.AfterTicksValue | frontend/src/scenes/RoomScene.js:228-239 | after n ticks a positive countdown is n lower, or 0 |
| RoomScene.AfterTicksStep | frontend/src/scenes/RoomScene.js:228-239 | one more tick after n ticks |
| RoomScene.RoomScreen.constructor | frontend/src/scenes/RoomScene.js:17-120 | without a session or a room the player goes back to the room list and nothing is polled; otherwise the scene runs with every character button pressable and unselected; the shared selected character and game server URL keep the values they had, so a URL from an earlier match survives |
| RoomScene.RoomScreen.ChooseCharacter | frontend/src/scenes/RoomScene.js:159-185 | an accepted choice is stored and shown; a refusal or failure shows its message and keeps the old selection |
| RoomScene.RoomScreen.OnRoomsReply | frontend/src/scenes/RoomScene.js:187-259 | a failed poll only shows an error; a poll that finds the room redraws the buttons, starts the local countdown the first time only, and enters the game only when the room runs with a URL |
| RoomScene.RoomScreen.ShowRoom | frontend/src/scenes/RoomScene.js:199-254 | the same for a room that was found |
| RoomScene.RoomScreen.StartCountdown | frontend/src/scenes/RoomScene.js:217-241 | the local countdown starts at most once per screen, with one timer |
| RoomScene.RoomScreen.EnterGame | frontend/src/scenes/RoomScene.js:244-253 | keeps the game server URL, selects "blacky" when nothing is selected, and moves to the game, which stops the scene and its timers |
| RoomScene.RoomScreen.Tick | frontend/src/scenes/RoomScene.js:231-238 | one timer firing, while the scene runs, is one `Ticked` step |
| RoomScene.RoomScreen.RunTicks | frontend/src/scenes/RoomScene.js:228-239 | n timer firings give `AfterTicks` of the countdown |

## Left out

- GameServer.Coordinator.Join, GameServer.Coordinator.Move: payloads are
  assumed to be objects whose `x`, `y` and `score` are numbers. A missing
  payload, which throws a TypeError before any state changes, is not
  modelled, and neither are non-numeric values with their coerced
  comparisons (a string score of "10001" passing the 10000 threshold, an
  `undefined` score never winning).
- Transport and process setup: Socket.IO, Express, FastAPI, CORS, listening
  ports, the lobby's threads and its lock. Each handler and each locked
  block is one atomic method.
- Real timers: `setInterval`, `setTimeout`, `time.sleep` and Phaser timer
  events. A firing is a method call that the environment may make while
  the timer is pending.
- The clock, uuids and `Math.random`: they are parameters (`now`, the ids,
  `threshold`/`spawned`/`respawn` in `Game.Step`).
- Port probing and Docker spawning in the lobby. `spawn_game_server`
  always returns the hosted URL, because that URL is a non-empty constant,
  so the local path can never run.
- All `fetch` calls: their outcomes are parameters (`LoginReply`,
  `RoomsReply`, the `reply` of `RoomScreen.ChooseCharacter`). The room
  screen's heartbeat timer and its "Leave Room" button are not modelled.
- `localStorage`: the stored high score is a constructor parameter, and
  writing it back is not modelled. `parseInt` failing (NaN) is not
  modelled.
- Rendering and Phaser objects: texts, buttons, graphics, sky and colour
  helpers, the remote players' label objects (only their text is kept) and
  `physics.pause`.
- Floating-point player physics (gravity, jump speed, ducking): the
  player's height after the frame's physics is the parameter `playerY` of
  `Game.Step`. Positions are whole numbers.
- GameScene `match_time`: the client registers no `handleMatchTime`, so
  the event does nothing; `timeLeft` is never set.
- `window.io` missing and Socket.IO reconnection: the client starts with
  no socket, and `connect` is modelled by `Client.OnConnect`.
- LobbyLogin.LoginScreen.KeyDown: strings are sequences of characters, so
  the 16-unit limit and the one-unit key test count characters where the
  browser counts UTF-16 code units.
- The `players_state` broadcast is kept as the sequence of entries in key
  order, not as a JSON object.
- RoomScene.RoomScreen.OnRoomsReply: the info and countdown texts are not
  modelled, only the state behind them.
- RoomScene.RoomScreen.OnRoomsReply, RoomScene.RoomScreen.EnterGame: each
  `/rooms` poll is one atomic step while the screen is polling. A reply
  still in flight when the screen enters the game, which would run
  `refreshRoomInfo` again and could start GameScene a second time, is not
  modelled.
- GameServer.MatchOutcome, GameServer.PickWinner: the forced-winner key is looked up as a map key.
  Names every JavaScript object inherits (`toString`, `constructor`,
  `valueOf`, `__proto__`) are assumed never to be keys; the game's own
  characters never are.
- Lobby.LobbyStore.CreateSession, Lobby.LobbyStore.CreateRoom: they require
  the new id to be unused, which stands for uuid4 never colliding.
- MultiplayerClient.Client.SendPlayerUpdate: `time` is a whole number of
  milliseconds; Phaser's frame time is a float.
- The other screens (room list, character select, results, main menu) and
  `main.js`: scene navigation only.
