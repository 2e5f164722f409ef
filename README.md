# Pong: game rules, matchmaking server and local-play page in Dafny

This project models the core of a two-player Pong game:

- the Socket.IO game server (`server/index.ts`), which keeps a FIFO of waiting sockets and a map of rooms, pairs sockets two by two into rooms, moves paddles on request, restarts a game, and cleans up when a socket disconnects;
- the game rules it runs 60 times a second (`updateGameState`): ball movement, wall and paddle bounces with spin, scoring and the win check at five points;
- the local-play page (`src/pages/Index.tsx`), which runs its own copy of the same rules, plus a keyboard-driven paddle step and a restart.

Four modules:

- `Wrappers` declares `Option`.
- `GameRules` (`game_rules.dfy`) holds the shared things: the game-state record, the constants, the initial state and one tick of the physics, all as specification functions. It proves that one tick and a run of ticks keep the invariant `Good`:
  - both paddles stay within [0, 320];
  - |dx| is always the ball speed 4, and |dy| ≤ 2.4;
  - a game is active exactly while there is no winner, and a winner has exactly 5 points.

  It also proves that scores only go up, that a finished game is frozen, and what each rule of a tick does.
- `Server` (`server.dfy`) models the server as a `class` whose fields are the waiting queue (`seq`), the rooms map (`map`) and the map's insertion order (`seq`). A JavaScript `Map` iterates its keys in insertion order, and the handlers' `for … of rooms` loops stop at the first match. Each socket handler is a method with a `modifies` clause. Each method's postcondition states the whole new state and keeps the class invariant `Valid`:
  - the queue holds at most one socket;
  - the order lists every key exactly once;
  - every room is non-empty, has at most two players tagged with its id, and keeps `Good`.

  The room tick `UpdateGameState` is a method that updates the state field by field in the order the code does. It is proved equal to `GameRules.Tick`.
- `LocalGame` (`local_game.dfy`) models the page's updaters as pure functions. It writes the page's tick out independently and proves it equal to the server's tick.

Nondeterminism and the environment become parameters:

- Each `Math.random()` pair drawn by a serve is a `Serve(dir, spin)` value with both draws in [0, 1).
- The `room_${Date.now()}` id of a new room is a `roomId` argument.
- The handle returned by `setInterval` is a `timer` argument.
- Each socket event is a method call. Emitted messages are returned as values: the pairing payloads and the socket told about a disconnect.

In these places the code is looser than one might expect, and the model follows the code:

- **Wall bounce:** the wall rule only negates `dy`; it never clamps `y` back into the field (`GameRules.WallContactNotClamped`).
- **Paddle hit:** it sets `dx` to |dx| at the left paddle and to −|dx| at the right one, and sets the spin. It does not move the ball out of the paddle band, so a ball that is already moving away keeps its `dx` on the ticks after first contact.
- **`restartGame`:** accepted in any room with two players, finished or not. A loop that is still running is kept.
- **Disconnect:** does not stop the game of the player who stays. That room's loop keeps ticking until the room is empty.
- **Serve direction:** `resetBall` picks the serve direction 50/50 from a fresh draw, whichever side just scored (`GameRules.ServedBall`).
- **`paddleMove`:** checks neither that the game is active nor that the direction is −1 or 1. Any number is scaled by the paddle speed and clamped.

Because |dx| is always 4 (invariant `SpeedBounded`), the code's "reflect with the current |dx|" is the same as "reflect with the fixed ball speed".

## Model

| member | source | states |
|---|---|---|
| GameRules.ServedBall | server/index.ts:131-136 | A served ball is at the centre (400, 200). It moves right at speed 4 exactly when the first draw exceeds 0.5, otherwise left, and its vertical speed lies in [-2, 2). |
| GameRules.ResetBall | server/index.ts:131-136 | Resetting the ball replaces only the ball with a served ball. Paddles, scores, the active flag and the winner are kept. |
| GameRules.CreateInitialGameState | server/index.ts:50-65 | A new game has a served ball, both paddles at 160, scores 0–0, is active with no winner, and satisfies the invariant `Good`. |
| GameRules.Tick | server/index.ts:67-124 | One tick of `updateGameState`: a game that is not active is returned unchanged (line 70), no paddle moves, and an ended game never becomes active again, nor does an active game's winner change while it stays active. What each rule does is stated by the `Tick*` lemmas below. |
| GameRules.Run | server/index.ts:141-143 | The interval firing once per serve. A finished game stays exactly as it is under any number of further firings, the paddles never move, and a run never turns an ended game active. |
| GameRules.HitsLeft | server/index.ts:82-90 | A ball that passes the left-paddle overlap test has 12 ≤ x ≤ 38 and lies within 8 of the paddle's span. |
| GameRules.HitsRight | server/index.ts:98-100 | A ball that passes the right-paddle overlap test has 762 ≤ x ≤ 788 and lies within 8 of the paddle's span. |
| GameRules.Spin | server/index.ts:93-94 | A centre hit gives dy = 0. A hit below the centre sends the ball down (dy > 0), and one above it sends the ball up, each in both directions. The paddle's top edge gives −2 and its bottom edge +2. |
| GameRules.WallBounce | server/index.ts:76-79 | At the top or bottom edge (y ≤ 8 or y ≥ 392) the ball's dy is negated once, otherwise it is kept. x, y and dx never change, and the vertical speed's magnitude is preserved. |
| GameRules.SpinBounded | server/index.ts:87-94 | Whenever the overlap test passes, the spin a paddle gives lies within [-2.4, 2.4]. |
| GameRules.LeftBounce | server/index.ts:81-95 | When the ball overlaps the left paddle, it leaves with dx = abs(dx) ≥ 0 and the contact point's spin, bounded by 2.4. Without overlap the ball is unchanged. |
| GameRules.RightBounce | server/index.ts:97-105 | When the ball overlaps the right paddle, it leaves with dx = -abs(dx) ≤ 0 and the contact point's spin. Without overlap the ball is unchanged. |
| GameRules.ScorePoint | server/index.ts:107-114 | Past the left edge, player 2 scores a point and the ball is re-served. Otherwise, past the right edge, player 1 scores and the ball is re-served. Inside the field nothing changes. |
| GameRules.CheckWinner | server/index.ts:116-123 | Player 1 reaching 5 wins and stops the game, and is checked first. Otherwise player 2 reaching 5 wins. Otherwise nothing changes. |
| GameRules.TickScoresMonotone | server/index.ts:107-114 | Over a tick, neither score decreases, and the total rises by at most one. |
| GameRules.TickScoring | server/index.ts:107-114 | Seen over the whole tick: where the moved and bounced ball ends up decides who scores and whether the ball is re-served. Inside the field, the scores are unchanged. |
| GameRules.TickWinner | server/index.ts:116-123 | The win check uses the scores after this tick's scoring. Player 1 has priority, and below 5–5 the game stays active. |
| GameRules.TickLeftHit | server/index.ts:81-95 | On a left-paddle hit, the tick returns the ball with dx = abs(dx) and the contact spin, and nobody scores. |
| GameRules.TickRightHit | server/index.ts:97-105 | On a right-paddle hit, the tick returns the ball with dx = -abs(dx) and the contact spin, and nobody scores. |
| GameRules.TickFreeFlight | server/index.ts:72-79 | Away from the paddles and inside the field, the ball moves by its velocity, and dy is negated exactly when it touches a wall. |
| GameRules.TickPreservesGood | server/index.ts:67-124 | One tick keeps paddles in bounds, speed bounded (abs(dx) = 4, abs(dy) ≤ 2.4), and winner, active flag and scores consistent. |
| GameRules.RunPreservesGood | server/index.ts:138-144 | Any number of loop ticks keep the invariant `Good`. |
| GameRules.RunScores | server/index.ts:107-114 | Over n ticks, scores never decrease, the total rises by at most n, and paddles never move. |
| GameRules.ScoreToWin | server/index.ts:108-123 | At 4–2 with the ball about to pass the right edge, the score becomes 5–2, player 1 wins and the game stops. |
| GameRules.WallContactInsideBand | server/index.ts:73-79 | From a state that keeps the invariant, a ball at y = 9 moving up by 2 ends at y = 7 with dy = 2. It is left inside the wall band, not clamped to its edge. |
| GameRules.WallContactNotClamped | server/index.ts:73-79 | A ball at y = 2 moving up by 3 ends at y = -1 with dy = 3: the wall rule does not clamp. |
| Server.IndexOf | server/index.ts:160 | `indexOf` returns the first position of the socket in the queue, or -1 exactly when the socket is absent. |
| Server.IndexOfPlayer | server/index.ts:167 | `findIndex` returns the first player with that id, or -1 exactly when there is none. |
| Server.RemoveAt | server/index.ts:162 | `splice(i, 1)` drops exactly element i and shifts the rest down by one. |
| Server.WithoutFirst | server/index.ts:159-163 | The queue shrinks by one when the socket was waiting, and is unchanged otherwise. |
| Server.WithoutFirstRemovesOne | server/index.ts:159-163 | Exactly one copy of the socket leaves the queue (as a multiset), and the others keep their order. |
| Server.WithoutFirstDistinct | server/index.ts:179 | Deleting a key from a list without repeats keeps it without repeats and removes exactly that key. |
| Server.MovedPaddle | server/index.ts:222-230 | After any paddle move, for any position and any direction, the paddle lies in [0, 320]. Inside the bounds it is current + 5 × direction; otherwise it is the bound that was crossed. |
| Server.MovePaddle | server/index.ts:217-234 | Only the mover's paddle changes (player 1's when isPlayer1), and paddles in bounds stay in bounds. |
| Server.FirstRoomFrom | server/index.ts:166-168 | The scan stops at the first room in insertion order that holds the socket (and has two players, for a restart). Every room before it fails the test. |
| Server.FirstRoom | server/index.ts:219-221 | The room found holds the socket. When none is found, no listed room holds it. |
| Server.FirstRoomNone | server/index.ts:166-183 | When the scan finds nothing, no room in the map holds the socket. |
| Server.FirstRoomOnly | server/index.ts:238-240 | When exactly one room passes the test, the scan finds it, whatever the insertion order. |
| Server.StartGameLoop | server/index.ts:138-144 | Afterwards a loop is installed. A loop already running is kept, and nothing else in the room changes. |
| Server.StopGameLoop | server/index.ts:146-151 | Afterwards no loop is installed. With none running nothing changes, and nothing else in the room changes. |
| Server.StartStopIdempotent | server/index.ts:138-151 | Starting the loop twice is starting it once, and the same holds for stopping. |
| Server.ResetBall | server/index.ts:131-136 | Resetting the ball field by field gives the rules' `ResetBall`. |
| Server.UpdateGameState | server/index.ts:67-124 | The field-by-field update of the room's state, in the code's order, yields exactly one `Tick` of the rules. |
| Server.Server.constructor | server/index.ts:39-40 | The server starts with an empty queue and no rooms, and satisfies `Valid`. |
| Server.Server.FindRoom | server/index.ts:166-168 | The handlers' loop over the rooms returns the key `FirstRoom` specifies. |
| Server.Server.Connect | server/index.ts:186-209 | The socket joins the tail of the queue. With two waiting, the two oldest leave in order and form a new room under the given id, the first on the left paddle; a room with that id is replaced. The two payloads are returned, and the queue ends with at most one socket. |
| Server.Server.GameStartTimeout | server/index.ts:210-214 | Once the one-second timeout fires, the room's loop is running, unless the room is gone. Nothing else changes. |
| Server.Server.LoopFired | server/index.ts:141-143 | Each firing of the interval replaces the room's state by one `Tick` of it and keeps `Valid`. |
| Server.Server.Disconnect | server/index.ts:156-184 | The socket leaves the queue and the first room holding it. That room is deleted, with its loop cleared, exactly when it becomes empty; otherwise its first remaining player is notified. No other room changes. |
| Server.Server.PaddleMove | server/index.ts:217-234 | In the first room holding the socket, only the mover's paddle moves, by direction × 5 clamped to the field. With no such room nothing changes. |
| Server.PairingScenario | server/index.ts:186-246 | A worked client of the handlers. Two sockets connecting in turn become player 1 and player 2 of one room, in arrival order. A third socket's paddle move changes nothing. When player 2 leaves, player 1 is told. A restart from the lone player is ignored, so the only room left holds player 1 alone with its initial state and no loop. |
| Server.Server.RestartGame | server/index.ts:236-246 | In the first room holding the socket with two players, the game state becomes a fresh initial state and the loop is running. Otherwise nothing changes. |
| LocalGame.InitialState | src/pages/Index.tsx:24-37 | The page's initial state is the server's initial state: scores 0–0, paddles at 160, ball at the centre, active. |
| LocalGame.ResetBall | src/pages/Index.tsx:45-50 | The page's resetBall equals the shared rule's `ResetBall`. |
| LocalGame.UpdateGameState | src/pages/Index.tsx:52-56 | The page's updater returns an inactive state unchanged. |
| LocalGame.UpdateMatchesServerTick | src/pages/Index.tsx:52-111 | The page's tick and the server's tick give the same next state for the same state and the same draws. |
| LocalGame.KeyStep | src/pages/Index.tsx:138-158 | The key step moves paddles only: ball, scores, active flag and winner are kept. |
| LocalGame.KeyStepInBounds | src/pages/Index.tsx:138-158 | Paddles in [0, 320] stay in [0, 320] under any combination of held keys. |
| LocalGame.KeyStepSeparatesPlayers | src/pages/Index.tsx:141-155 | W and S move only player 1, and the arrow keys move only player 2. |
| LocalGame.KeyStepPlayer1 | src/pages/Index.tsx:141-146 | W alone moves player 1 up by 5, stopping at 0. S alone moves it down by 5, stopping at 320. With both held, W is applied and then S. |
| LocalGame.KeyStepPlayer2 | src/pages/Index.tsx:150-155 | ArrowUp alone moves player 2 up by 5, stopping at 0. ArrowDown alone moves it down by 5, stopping at 320. With both held, ArrowUp is applied and then ArrowDown. |
| LocalGame.BothKeysNearTop | src/pages/Index.tsx:141-146 | Holding W and S at position 2 is not a no-op: the paddle goes to 0 and then to 5. |
| LocalGame.Frame | src/pages/Index.tsx:134-161 | One firing of the page's interval: the server's tick applied after the key step. The paddles end where the keys put them, and for an ended game only the key step has any effect. |
| LocalGame.FramePreservesGood | src/pages/Index.tsx:134-161 | One firing of the page's interval (key step, then tick) keeps the invariant `Good`. |
| LocalGame.HandleRestart | src/pages/Index.tsx:170-186 | A restart yields a fresh game whatever came before: 0–0, paddles at 160, ball at the centre, active, no winner, satisfying `Good`. |

## Left out

- Socket.IO emits, the HTTP server, CORS and logging are outside the model. A broadcast is represented only by the values the handlers return: the pairing payloads and the notified socket. The per-tick `gameState` broadcast is not represented.
- Timers are not modelled as time. Each firing of the interval is a `LoopFired` call and each firing of the one-second timeout is a `GameStartTimeout` call. The whole loop is a run of ticks (`Run`). The timer handle and the clock reading used in the room id are parameters.
- `Math.random()` becomes the `Serve` parameter, two draws per serve.
- Arithmetic is over exact reals, not IEEE doubles. Rounding, infinities and NaN are not modelled. In particular a `paddleMove` direction that is not a finite number is not modelled. In the source a direction that is `undefined` or a non-numeric string makes the new position NaN, `Math.max(0, Math.min(320, NaN))` is NaN, and the paddle then leaves [0, 320]. The bound `Server.MovedPaddle` proves therefore covers numeric directions only.
- Server.Server.GameStartTimeout: looks the room up by id, whereas the source's callback holds the room object itself. When both players leave within the second, the source starts an interval on the deleted room, and that interval ticks forever. When a room id is reused (two pairings within the same millisecond), the source keeps ticking the overwritten room. The model starts a loop only on a room still in the map.
- Server.Server.Connect: states the overwrite of a room whose id is already a key (its insertion position is kept, as for `Map.set`), but does not model the orphaned room, which keeps its players but is no longer reachable through the map.
- Rooms and game states are values in maps, so aliasing between the timer closures and the map entries is not modelled.
- LocalGame.KeyStep, LocalGame.UpdateGameState: the page's updaters copy the state shallowly and then mutate the nested ball and paddle objects in place, so the previous state's objects change too. The model treats each updater as a pure function from the previous state to the next one.
- The React components (`GameCanvas`, `GameUI`, `ConnectionStatus`), the keyboard listeners that fill the held-keys map, and the page's effect that starts and clears its interval are not modelled beyond the `Keys` value and `Frame`. The page only initialises `currentPlayer` and displays it; it never updates it, so it is left out.
