# Snake game core in Dafny

A model of the simulation core of a browser Snake game (`SnakeGame` in
`js/game.js`) and of the input dispatch of its application shell
(`SnakeApp` in `js/main.js`), with proofs of the game's invariants.

The game is an immutable record (`Game.Game`): the state
(Menu/Playing/Paused/GameOver), the snake as a head-first `seq<Cell>`, the
food cell, the applied and the buffered direction, score, level, meals
eaten, tick interval (`speed`), high score, the timestamp of the last tick
and a log of every high score written to storage. Each method of
`SnakeGame` is a pure transition function on that record. The device
profile is a field of the record; the constants follow from it: desktop and
tablet start at 150 ms, lose 10 ms per level, level up every 5 meals and
stop at 50 ms, mobile uses 280, 12, 7 and 80. Board sides are
`floor(canvas / 20)` for canvases of 400, 360 and 280 pixels (20, 18 and 14
cells).

Randomness is an oracle: each action that may place food carries a
sequence of at least 100 candidate cells, and food placement consumes a
prefix of it exactly as the game's do-while loop consumes `randomInt`
draws. Timestamps are integers supplied with each action.

Modules, leaves first:

- `Grid`: cells, the four directions, `Move`, adjacency, the reversal test.
- `Settings`: device profiles and the grid-side arithmetic.
- `Snake`: the occupancy scan, body shape predicates, the initial body and
  the tick's commit (prepend the head, drop the tail unless growing).
- `Food`: bounded rejection sampling, as a recursive function and as the
  loop the game runs.
- `Game`: the record and every transition: reset, construction, start,
  pause, resume, toggle, game over, direction change, level-up, eating,
  the tick and the time-gated frame callback.
- `Invariants`: the invariant of every reachable game and its preservation.
  The invariant covers distinct, in-bounds, edge-connected segments,
  length = 3 + foodEaten, level = 1 + foodEaten div threshold,
  score = 10·foodEaten + 100·(level − 1),
  speed = max(floor, initial − decrement·(level − 1)), a buffered direction
  that never reverses the applied one, the second segment behind the head
  in a live run, and a strictly increasing storage log ending in the high
  score.
- `Rules`: lemmas about one tick and the pause machinery.
- `Input`: the application's pure map from (state, input event) to command.
- `App`: commands applied to the game, end-to-end statements about input,
  and runs of inputs and frames from start-up.

Behaviour of the code worth knowing:

- `start()` from Playing or Paused sets Playing and keeps the run
  (js/game.js:171-176), so from Paused it resumes. The restart button, the
  'r' key and Select all call it, so they resume a paused run instead of
  restarting it.
- Food can land on the snake. When all 100 draws hit the body, the 100th
  draw is kept anyway (js/game.js:141-155).
- There is no per-level meal counter. Level-ups test the run's cumulative
  meal count modulo the threshold (js/game.js:329).
- `changeDirection` does not check the state (js/game.js:251-258). Only the
  input layer restricts steering to Playing.
- Scoring is 10 per meal and 100 per level-up.
- The Tablet profile (360 px canvas, 18 cells) is modelled but never chosen:
  `getDeviceType` tests `isMobile` first, and its user-agent pattern already
  contains `iPad` and `Android`, everything `isTablet` matches
  (js/utils.js:31-33, 40-42, 57-59).

## Model

| member | source | states |
|---|---|---|
| Grid.Move | js/game.js:288-290 | the candidate head is a different cell that shares an edge with the old head |
| Grid.ReverseIsOpposite | js/game.js:253 | the componentwise negation test accepts exactly the opposite direction |
| Grid.MoveOntoNeckIsReversal | js/game.js:251-258 | a head moves onto the cell behind it exactly when the requested direction reverses the applied one |
| Settings.GridSide | js/game.js:103-104 | the grid side is the floor of canvas size over the 20-pixel cell |
| Settings.ProfilesWellFormed | js/game.js:9-22 | every device profile has positive threshold and decrement, a floor below the starting speed, and a board of at least 4×4 (14, 18, 20 cells) |
| Snake.IsSnakePosition | js/game.js:162-166 | the segment scan reports true exactly when the cell is in the body |
| Snake.Initial | js/game.js:124-132 | the first body is three distinct edge-connected cells, head at (width div 2, height div 2), tail to the left; it fits the board iff width ≥ 4 and height ≥ 1 |
| Snake.Commit | js/game.js:305-314 | the new head comes first; the rest is the old body when growing and the old body without its last cell otherwise |
| Snake.CommitKeepsShape | js/game.js:299-314 | committing an adjacent, in-bounds head that is not on the body keeps the body distinct, in bounds and connected |
| Food.FoodIndexFrom | js/game.js:146-152 | the kept draw is the first one off the snake, or the last allowed one when all earlier draws hit it |
| Food.PlaceFood | js/game.js:141-155 | the food is one of the first 100 draws, every earlier draw hit the snake, and it is free unless it is the 100th |
| Food.FoodIndexUnique | js/game.js:146-152 | the stopping rule determines the kept draw uniquely |
| Food.PlaceFoodInGrid | js/game.js:147-150 | food is on the board whenever the random draws are in range |
| Food.PlaceFoodAvoidsSnake | js/game.js:141-155 | if any of the 100 allowed draws is free, the food is off the snake |
| Food.PlaceFoodExhausted | js/game.js:144-154 | when all 100 draws hit the snake the 100th is kept and the food overlaps the body |
| Food.GenerateFood | js/game.js:141-155 | the do-while loop makes 1 to 100 attempts, keeps the last draw made, stops at the first free draw or after 100, and agrees with PlaceFood |
| Game.Reset | js/game.js:116-136 | a fresh run: score 0, level 1, no meals, both directions Right, the initial speed and body; food placed around the new body; state and high score untouched |
| Game.NewGame | js/game.js:42-71 | construction yields a fresh run in the Menu with the stored high score and an empty storage log |
| Game.Start | js/game.js:171-181 | start always ends in Playing at the given time; from Menu or GameOver it begins a fresh run on the same device with food placed around the new body and the high score kept; from Playing or Paused it keeps the run |
| Game.Pause | js/game.js:197-207 | pause leaves no game Playing, turns Playing into Paused, and changes nothing in other states |
| Game.Resume | js/game.js:212-220 | resume turns Paused into Playing and restarts the tick clock; other states are unchanged |
| Game.TogglePause | js/game.js:186-192 | toggle swaps Playing and Paused with the run intact and does nothing in Menu or GameOver |
| Game.GameOverTransition | js/game.js:225-245 | the run ends; the high score becomes max(high score, score); storage gets one write of the score exactly when it beats the old high score; board and counters are untouched |
| Game.ChangeDirection | js/game.js:251-258 | a request is only buffered: the applied direction is unchanged, an exact reversal of it is ignored, anything else becomes the next direction |
| Game.LevelUp | js/game.js:340-354 | one more level and 100 points; the new interval is max(floor, speed − 10/12): 10/12 ms shorter while that stays at or above the floor, the floor otherwise; every other field is unchanged |
| Game.EatFood | js/game.js:320-335 | one more meal and 10 points; a level-up with its 100-point bonus and an interval of max(floor, speed − 10/12) exactly when the cumulative meal count is a multiple of the threshold; food regenerated around the grown body; every other field is unchanged |
| Game.Update | js/game.js:281-315 | the tick changes nothing outside Playing; in Playing it applies the buffered direction and ends in Playing or GameOver; the high score never drops, and high score and storage change only when the run ends |
| Game.GameLoop | js/game.js:263-276 | the frame callback ticks only when at least `speed` ms have passed, and then moves the tick timestamp to now |
| Invariants.LevelForStep | js/game.js:325-331 | one more meal raises the closed-form level by one exactly when the new count is a multiple of the threshold |
| Invariants.SpeedForStep | js/game.js:345-351 | one level-up step on the speed curve is max(floor, speed − decrement) |
| Invariants.SpeedBounds | js/game.js:345-351 | along the levels the interval never grows and stays between floor and starting speed |
| Invariants.ProgressBounds | js/game.js:340-351 | a consistent game has level ≥ 1, non-negative score and an interval between floor and starting speed |
| Invariants.EatFoodKeepsProgress | js/game.js:320-354 | eating keeps level, score and speed on their closed forms in the meal count and never lengthens the interval |
| Invariants.ResetProgress | js/game.js:117-120 | a fresh run sits at the start of the level, score and speed curves |
| Invariants.ResetBody | js/game.js:124-134 | a fresh body has three segments, fits every device's board, and the food is on the board |
| Invariants.ResetNeck | js/game.js:121-132 | in a fresh run the second segment lies directly behind the head |
| Invariants.ResetEstablishesInv | js/game.js:116-136 | reset establishes the full invariant |
| Invariants.NewGameEstablishesInv | js/game.js:42-71 | a newly constructed game satisfies the invariant |
| Invariants.StartKeepsInv | js/game.js:171-181 | start keeps the invariant from every state |
| Invariants.GameOverKeepsInv | js/game.js:235-238 | game over keeps the invariant; the storage log stays strictly increasing and ends in the high score |
| Invariants.CandidateMissesNeck | js/game.js:284-290 | in a live run the candidate head is never the second segment |
| Invariants.UpdateKeepsInv | js/game.js:281-315 | a tick keeps the invariant: distinct, in-bounds, connected body of length 3 + meals, counters on their curves, no buffered reversal |
| Invariants.GameLoopKeepsInv | js/game.js:263-276 | the frame callback keeps the invariant |
| Invariants.ChangeDirectionKeepsInv | js/game.js:251-258 | buffering a direction never makes the next direction reverse the applied one |
| Invariants.TogglePauseKeepsInv | js/game.js:186-220 | pause, resume and toggle keep the invariant |
| Rules.UpdateEndsRunIff | js/game.js:292-303 | a tick ends the run exactly when the game is playing and the candidate head leaves the board or hits a segment |
| Rules.CollisionFreezesBoard | js/game.js:292-303 | after a collision the state is GameOver with body, food, score, level, meals and speed unchanged and the high score at max(high score, score) |
| Rules.TailCellIsCollision | js/game.js:299-303 | moving onto the current tail cell is a collision even though the tail would move away |
| Rules.SuccessfulTickMoves | js/game.js:284-314 | a tick without collision puts the head one cell along the applied direction; the length grows by one exactly on food, otherwise the tail is dropped and score and food stay |
| Rules.FoodAvoidsGrownBody | js/game.js:306-310 | new food is drawn around the body that already holds the new head, so it avoids the head whenever a free draw exists |
| Rules.UpdateMonotone | js/game.js:320-351 | on reachable games a tick never lengthens the interval, never takes it below the floor, and never lowers score or level |
| Rules.AppliedDirectionNeverReverses | js/game.js:284-285 | consecutive applied directions are never opposite |
| Rules.GameLoopGate | js/game.js:263-271 | the frame callback ticks and moves the timestamp iff now − lastTime ≥ speed, and is the identity otherwise |
| Rules.StartDoesNotTickAtOnce | js/game.js:178-179 | the loop iteration run right after start at the same timestamp does not tick |
| Rules.PauseIdempotent | js/game.js:197-207 | pausing twice is the same as pausing once |
| Rules.ToggleTwiceRestores | js/game.js:186-192 | toggling twice from Playing or Paused returns to that state with the run intact |
| Rules.StartFromPausedResumes | js/game.js:171-176 | start from Paused is exactly resume: no reset |
| Input.LowerCase | js/main.js:344 | the lower-cased key has the same length and each character lower-cased |
| Input.LowerCaseIdempotent | js/main.js:344 | lower-casing twice is lower-casing once |
| Input.KeyboardIgnoresCase | js/main.js:344 | key handling gives the same command for a key and its lower-cased form |
| Input.HandleKeyboard | js/main.js:341-374 | keys are matched lower-cased; arrows go to direction input, space to the space handler, 'r' to start, 'm' to the sound toggle; no command exactly for unbound keys and for arrows while paused |
| Input.HandleDirectionInput | js/main.js:380-390 | direction input starts the game exactly in Menu or GameOver, steers exactly in Playing, and is dropped exactly in Paused |
| Input.HandleSpaceKey | js/main.js:395-405 | space toggles pause exactly in Playing or Paused and starts the game exactly in Menu or GameOver |
| Input.HandleStartButton | js/main.js:410-420 | the Start button issues the same command as space in every state: toggle exactly in Playing or Paused |
| Input.HandleSelectButton | js/main.js:425-428 | Select starts the game in every state |
| Input.HandleVisibility | js/main.js:313-317 | hiding the page pauses exactly a game in play; otherwise no command |
| Input.Dispatch | js/main.js:232-294 | key presses go through the keyboard handler; the pause button toggles pause; steering only while playing and only from a pad press or an arrow key naming that direction; an outright pause exactly when the page is hidden during play; a sound toggle exactly from 'm' or the sound button; restart, Select and 'r' start in every state; the pad and Start start from Menu or GameOver |
| App.Apply | js/main.js:232-428 | a start ends in Playing at the given time; pause and toggle keep the run; a direction command only buffers the turn; the sound toggle and no command leave the game as it is; no command changes the high score or storage |
| App.InputKeepsRunOrStartsFresh | js/main.js:380-428 | no input changes the high score or storage; input leaves body, score and food alone unless it begins a fresh run from Menu or GameOver |
| App.InputKeepsInv | js/main.js:341-374 | every input keeps the invariant |
| App.ArrowKeyAfterGameOverStartsFresh | js/main.js:380-386 | an arrow key in any letter case after game over starts a fresh run that keeps the high score |
| App.DirectionWhilePausedIgnored | js/main.js:380-390 | direction input while paused leaves the game unchanged |
| App.DirectionWhilePlayingBuffers | js/main.js:387-389 | direction input while playing only buffers the turn, ignoring an exact reversal |
| App.KeyDownDispatch | js/main.js:341-390 | an arrow key steers a game in play, is dropped while paused, and unbound keys and 'm' leave the game as it is |
| App.PauseAndSoundButtons | js/main.js:270-284 | the pause button toggles pause in every state and the sound button leaves the game as it is |
| App.RestartWhilePausedResumes | js/main.js:287-290 | restart button, 'r' or Select while paused resume the same run |
| App.RestartCallsStart | js/main.js:287-294 | the restart button, Select and 'r' in any letter case call start in every state |
| App.StartEventsBeginFreshRun | js/main.js:380-428 | from Menu or GameOver a pad press, Start, Select, restart, or an arrow, space or 'r' key begins a fresh run in play with the high score and storage kept |
| App.SpaceTogglesPause | js/main.js:395-405 | space or Start pauses a running game and resumes a paused one; pressing twice restores the state with the run intact |
| App.HiddenPagePausesOnlyPlaying | js/main.js:313-317 | hiding the page pauses only a game in play; otherwise nothing changes |
| App.Step | js/game.js:263-276 | one input or frame keeps the invariant and never lowers the high score or shortens the storage log |
| App.Run | js/game.js:273-275 | any sequence of inputs and frames keeps the invariant, never lowers the high score, and only appends to storage |
| App.Launch | js/main.js:182-188 | the game built at start-up is in the Menu with the stored high score and satisfies the invariant |
| App.Reached | js/game.js:281-315 | the game reached by any inputs and frames from start-up keeps the invariant: distinct in-bounds segments, length 3 + meals, an interval between floor and starting speed, and a high score at least the stored one |

## Left out

- Rendering (`render`, the canvas drawing helpers, colours, alpha gradient), `updateUI`, overlays, the loading screen and copyright: canvas and DOM writes only.
- Sound: every `play` call is an ignored effect, and the sound toggle ('m', the sound button) changes nothing in the game record.
- Storage: `StorageManager.load` becomes the `storedHighScore` argument of construction, and `save` is the `savedHighScores` log; storage failures are not modelled.
- Device detection: the profile is a fixed field of the record. Resizing mid-run (`handleResize` calling `setupCanvas`) changes grid dimensions without resetting the snake and is not modelled; the board is fixed for the game's life.
- Game.NewGame, App.Launch: construction first resets against the HTML canvas size and only then sizes the canvas per device; the model resets against the device board directly. Leaving the Menu always resets again, so play is unaffected.
- `requestAnimationFrame` scheduling, the cancelling of callbacks, and the extra loop that `start()` spawns when called while already Playing: scheduling and concurrency. `GameLoop` models one callback invocation.
- Timestamps are integer milliseconds; `performance.now()` returns fractional ones.
- Game.Update: requires a non-empty body, which every constructed game has (three cells or more).
- Input.LowerCase: lower-cases ASCII capitals only, whereas the browser's `toLowerCase` also folds non-ASCII letters; every key the game binds is ASCII.
- `preventDefault` on game keys and touch events, and the `if (!this.game) return` guards for input before the game exists: browser plumbing.
- The on-screen direction pad and Start/Select buttons are registered on mobile only; `Dispatch` accepts their events on any device.
- The getters (`getState`, `getScore`, `getLevel`), `destroy`, the global error handlers, `js/sound.js`, `js/utils.js` and `sw.js`: no game rules.
