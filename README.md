# Sensor boxing machine: the obstacle-dodge game and the LED strip, in Dafny

The machine lets a player release stress by punching a piezo sensor. Between
measurements it runs a small side-scrolling game: the player jumps over
obstacles, passing one earns points, and every point lowers the remaining
"negative emotion" (the *mileage*). The game ends when the player hits an
obstacle or the mileage reaches zero. The repository holds six copies of that
loop: two HDMI engines, an LCD controller and three stand-alone scripts. It
also holds the code that drives a WS281x LED strip: two `LedController`
classes and two NeoPixel example scripts.

This project models both parts and proves properties of the model.

**Game.**
- `GameConfig` turns each copy into one `Config` value. The value holds the
  copy's constants and the rules in which the copies really differ: the
  speed ramp, distance scoring, the quit behaviour, the game-over screen, the
  standby screen and the jump buffer.
- `GameRules` states each step of a frame as a function on a `State`
  snapshot of the session. The steps are the event queue, the sensor jump,
  gravity, the distance score, the speed ramp, spawning, moving, scoring and
  reaping obstacles, the collision check, the mileage recompute and the
  game-over choice. The same module defines whole sessions.
- `GameProofs` proves the session invariant and its preservation frame by
  frame. It also proves the per-step properties: scoring at most once, spawn
  bounds, landing, jump buffering and quitting.
- `GameSession.Session` is the imperative engine. It holds the source's
  fields. Its methods change them step by step, and each method is proved to
  reach the state the corresponding function describes.

**LEDs.**
- `LedColor` models the colour wheel, the `& 255` and spread arithmetic of
  the rainbow animations, and the brightness clamp.
- `LedStrip` holds the frames a strip shows, with `PixelStrip` standing in
  for the driver's pixel buffer.
- `StrandTest` models the example animations. Each one is proved to send
  exactly the frames of its specification.
- `LedControl.LedController` models the controller classes of
  `SPI_v2/led_controller.py` and `SPI_v2/led_v2.py`.

**How the source maps onto the model.**
- Randomness becomes explicit draws: `randint(low, high)` with draw `d` is
  `low + d % (high - low + 1)`. Clock readings and sensor readings become
  frame inputs. The blocking game-over screen becomes the choice it returns.
- Positions and speeds are exact reals. Python's `int()` is truncation
  toward zero. `score // 10` is a floor division of a non-negative score.
  `colliderect` is a strict overlap of the two rectangles.
- Two groups of the source's scattered session variables each become one
  record field of the engine:
  - the player's height, velocity, jumping flag and jump-buffer deadline
    (`player_rect.y`, `player_y_velocity`, `is_jumping`,
    `jump_buffer_expires_at`);
  - the flags `game_active`, `game_over_reason`, `running`,
    `waiting_to_start`, and the halt performed by `sys.exit()`.
- In `SPI/jump.py` and `SPI/SPI_run.py` the distance score overwrites the
  score on every frame (`score = int(score_float)`), so the points earned by
  passing an obstacle last only until the next frame. The model follows the
  code here. `GameProofs.DistanceScoreCanDecrease` exhibits the effect.

## Model

| member | source | states |
|---|---|---|
| GameConfig.VariantsValid | hdmi_game_engine.py:12-28 | the constants of all six copies meet the model's assumptions: positive sizes and speeds, a spawn minimum of at least one frame, rewards of at least one point, a non-negative buffer |
| GameRules.MinR | hdmi_game_engine.py:373-376 | `min` on floats: the result is below both arguments and equal to one of them |
| GameRules.Max | hdmi_game_engine.py:388-389 | `max` on ints: the result is above both arguments and equal to one of them |
| GameRules.Trunc | hdmi_game_engine.py:388 | Python's `int()` truncates toward zero: for a non-negative argument it is the floor, for a negative one the ceiling |
| GameRules.RandInt | hdmi_game_engine.py:390 | `random.randint(low, high)` lies in `[low, high]`, and the draw selects its offset from `low` |
| GameRules.SpawnBounds | hdmi_game_engine.py:386-389 | the spawn bounds satisfy `low >= OBSTACLE_ABSOLUTE_MIN_SPAWN_TIME` and `high >= low + margin` (5 in the HDMI engines, 1 elsewhere) |
| GameRules.Standing | hdmi_game_engine.py:154-160 | defines the player at rest: standing on the ground, no velocity, not jumping, no jump buffer |
| GameRules.NewObstacle | hdmi_game_engine.py:184-191 | defines `_create_obstacle`: a new unscored obstacle at the right screen edge, of the drawn height class |
| GameRules.InitialVars | hdmi_game_engine.py:151-171 | defines `_initialize_game_state_vars`: no obstacles, zero scores, the initial speed and milestone, the default mileage, a zero spawn timer and the initial interval, the game not active, the loop running |
| GameRules.Reset | hdmi_game_engine.py:173-182 | defines a restart: player, obstacles, scores, speed and milestone as fresh, the mileage from the session or the default, the spawn timer only where the copy resets it, the game active with no reason; ResetEstablishesInv and RestartIsFreshStart state its properties |
| GameRules.Start | hdmi_game_engine.py:316-317 | defines a session's first state: the reset of the initial variables, with the loop running, waiting on the standby screen where the copy has one; StartEstablishesInv and SecondCallPlays state its properties |
| GameRules.CarriedStart | SPI_v2/game.py:157-207 | defines the start a later `game()` call makes as written: `Start` with `running` carried over from the previous session; SecondCallSkipped states what follows |
| GameRules.Launch | hdmi_game_engine.py:341-344 | defines a jump start: jumping, with the jump strength as velocity |
| GameRules.PressJump | hdmi_game_engine.py:340-347 | defines the jump key while playing: launch on the ground; in the air, arm the buffer or, without one, nothing; PressJumpInv, UnbufferedAirPressIgnored and BufferedPressFires state its properties |
| GameRules.KeyEvent | SPI/jump.py:167-178 | defines a key press outside standby: a jump key while playing; R (reset) and Q (stop) on a finished game where the loop reads keys; otherwise nothing |
| GameRules.CloseEvent | hdmi_game_engine.py:333-337 | defines a window close in the frame loop: the loop stops; under the immediate rule the reason becomes "quit_event" and, where the copy clears it, the game ends |
| GameRules.ApplyEvents | hdmi_game_engine.py:331-349 | defines the frame's event loop over the queue, breaking at the first close under the immediate rule; ApplyEventsInv, ApplyEventsCloseStops and ApplyEventsPrefixClose state its properties |
| GameRules.StandbyEvent | SPI/SPI_run.py:303-309 | defines one event on the standby screen: a close stops the loop, a jump key starts the game |
| GameRules.StandbyEvents | SPI/SPI_run.py:303-309 | defines the standby screen's event loop over the queue; StandbyEventsOnlyFlags states its properties |
| GameRules.StandbyFrame | SPI/SPI_run.py:286-316 | defines a standby frame: its events, then the button starting the game; StandbyFrameSpec states its properties |
| GameRules.SensorJump | SPI/SPI_run.py:329-334 | defines the piezo or button jump: a launch only where the copy has a sensor, the reading is high, the game is played and the player is on the ground; SensorJumpInv and SensorIgnoredInAir state its properties |
| GameRules.Fall | hdmi_game_engine.py:352-366 | defines gravity and landing, with the buffered jump re-fired before its deadline; FallLanding, FallAirborne and FallInv state its properties |
| GameRules.Physics | hdmi_game_engine.py:351-366 | defines the physics step as `Fall` on the player alone; PhysicsInv states its properties |
| GameRules.DistanceScore | SPI/SPI_run.py:345-346 | defines the distance score: `score_float` grows by the speed over the points divisor and the score is overwritten by its truncation, where the copy scores distance; DistanceScoreIgnoresScore and DistanceScoreCanDecrease state its properties |
| GameRules.Bumped | hdmi_game_engine.py:372-376 | defines the new speed at a fresh milestone under each copy's ramp rule: staircase with a cap, growing with a growing cap, or an unbounded step |
| GameRules.RampSpeed | hdmi_game_engine.py:368-377 | defines the speed ramp keyed on `score // 10`; RampSpeedSpec states its properties |
| GameRules.Spawn | hdmi_game_engine.py:382-390 | defines the spawn countdown and the new interval drawn with `randint`; SpawnSpec states its properties |
| GameRules.Move | hdmi_game_engine.py:394 | defines the distance moved in a frame: the speed, truncated where the copy applies `int()` |
| GameRules.Reward | hdmi_game_engine.py:396-398 | defines the points for passing an obstacle: a `randint` over three values starting at the copy's short or tall base |
| GameRules.StepObstacle | hdmi_game_engine.py:394-400 | defines one obstacle's turn of the advance loop; StepObstacleSpec and ScoredObstacleEarnsNothing state its properties |
| GameRules.AdvanceAll | hdmi_game_engine.py:392-403 | defines the advance loop on prefixes of the list: the kept obstacles and the points gained; AdvanceIsStepThenFilter and AdvanceGain state its properties |
| GameRules.Advance | hdmi_game_engine.py:392-403 | defines the advance as `AdvanceAll` with its points added to the score; AdvanceKeepsOnScreen, AdvanceScoredGainsNothing and AdvanceInv state its properties |
| GameRules.Collides | hdmi_game_engine.py:406 | defines `colliderect` of the player and one obstacle as a strict overlap on both axes |
| GameRules.AnyCollision | hdmi_game_engine.py:405-409 | defines the collision loop's condition: some obstacle overlaps the player |
| GameRules.CheckCollision | hdmi_game_engine.py:405-409 | defines the collision check: the game ends, with reason "collision" where reasons are kept; EndOfTick states its properties |
| GameRules.EndCheck | hdmi_game_engine.py:411-416 | defines the mileage recompute `initial - score`, clamped at 0, which ends the game; EndOfTick states its properties |
| GameRules.ActiveTick | hdmi_game_engine.py:351-416 | defines an active frame as the composition of the steps above, in the source's order; ActiveTickInv, TickEnd and TickSpeedMonotone state its properties |
| GameRules.GameOver | hdmi_game_engine.py:430-436 | defines the game-over choice: restart, quit, or a window close that records the quit, halts or only stops the loop; GameOverInv, GameOverRestart and GameOverNeverRestarts state its properties |
| GameRules.Frame | hdmi_game_engine.py:329-438 | defines one pass of the loop: a standby frame, or the events followed by an active tick or the game-over choice; FramePreservesInv, FrameSpeedMonotone, FrameHalts and CloseEndsSession state its properties |
| GameRules.RunFrames | hdmi_game_engine.py:328-438 | defines the `while` loop over a finite run of frames, stopping once the loop flag is cleared; RunFramesPreservesInv and RunFramesHalts state its properties |
| GameRules.RunGame | hdmi_game_engine.py:302-447 | defines the session function's result: the early return when not ready, else the dictionary, nothing, or the exit after the frames; RunGameOutcome states its properties |
| GameProofs.ResetEstablishesInv | hdmi_game_engine.py:173-182 | a reset leaves exactly one obstacle at the right edge, a zero score, the initial speed and milestone, the player standing, and the game active with no reason; the spawn timer restarts only where the copy resets it; mileage becomes the session value or the default; the invariant holds |
| GameProofs.StartEstablishesInv | SPI/SPI_run.py:277-282 | a session starts running, with one obstacle, a zero score and timer, in the invariant, and either active or waiting on the standby screen, exactly as the copy has a standby screen |
| GameProofs.RestartIsFreshStart | SPI_v2/hdmi_game_engine.py:148-156 | where a reset restores the spawn timer and the session mileage, a restart equals a fresh start of the session |
| GameProofs.PressJumpInv | hdmi_game_engine.py:339-347 | a jump key keeps the player on or above the ground |
| GameProofs.FallLanding | hdmi_game_engine.py:352-366 | on landing the player is clamped to the ground; the buffered jump re-fires exactly when its deadline is after now; the buffer is cleared either way |
| GameProofs.FallAirborne | hdmi_game_engine.py:352-354 | in the air gravity is added to the velocity, then the velocity to the height, and the player stays above the ground |
| GameProofs.UnbufferedAirPressIgnored | SPI_v2/hdmi_game_engine.py:245-266 | without a jump buffer a press in the air is lost: the following fall is the same as with no press |
| GameProofs.BufferedPressFires | hdmi_game_engine.py:340-366 | with a jump buffer, a press in the air followed by a landing at time `t1` launches again if and only if `t1` is before the press time plus `JUMP_BUFFER_DURATION_MS`; the buffer is empty afterwards |
| GameProofs.SensorJumpInv | SPI/SPI_run.py:329-334 | the sensor jump preserves the session invariant |
| GameProofs.FallInv | SPI/jump.py:184-190 | gravity and landing keep the player on or above the ground, and on it when not jumping |
| GameProofs.PhysicsInv | hdmi_game_engine.py:352-366 | the physics step preserves the session invariant |
| GameProofs.DistanceScoreInv | SPI/SPI_run.py:345-346 | `score_float += speed / PIXELS_PER_POINT; score = int(score_float)` keeps both scores non-negative |
| GameProofs.DistanceScoreIgnoresScore | SPI/jump.py:194-195 | under distance scoring the new score does not depend on the old score at all |
| GameProofs.DistanceScoreCanDecrease | SPI/jump.py:194-195 | a concrete case: seven pass points at the start of a game are lost at the next frame's distance score |
| GameProofs.RampSpeedSpec | hdmi_game_engine.py:368-377 | the ramp records `max(milestone, score // 10)`; it changes the speed only when the milestone rises and never lowers it; the speed stays under its cap; under the growing rule every bump is a strict increase, under the staircase rule until the cap |
| GameProofs.RampSpeedInv | SPI_v2/hdmi_game_engine.py:268-271 | the speed ramp preserves the session invariant |
| GameProofs.RandIntCovers | hdmi_game_engine.py:390 | every value in `[low, high]` is produced by some draw |
| GameProofs.SpawnSpec | hdmi_game_engine.py:382-390 | the timer counts up; once past the interval exactly one obstacle is appended, the timer restarts and the new interval lies within the spawn bounds; otherwise only the timer changes; `0 <= timer <= interval` either way |
| GameProofs.SpawnInv | SPI/SPI_run.py:353-363 | spawning preserves the session invariant |
| GameProofs.StepObstacleSpec | hdmi_game_engine.py:393-400 | an obstacle moves left by the speed (truncated where the copy truncates) and keeps its height; it is flagged once its right edge is left of the player; it earns points exactly in the turn it is flagged, in `[3,5]`/`[6,8]` or `[5,7]`/`[8,10]` by height |
| GameProofs.ScoredObstacleEarnsNothing | hdmi_game_engine.py:395 | an obstacle already scored earns nothing again and stays scored |
| GameProofs.Stepped | hdmi_game_engine.py:393-400 | reference definition: every obstacle moved and scored, with the length kept |
| GameProofs.OnScreen | hdmi_game_engine.py:401-403 | reference definition: the obstacles with `right > 0`, in order; never longer than the input |
| GameProofs.OnScreenAppend | hdmi_game_engine.py:401-402 | filtering a list with one more obstacle appends that obstacle exactly when it is on screen |
| GameProofs.OnScreenMembers | hdmi_game_engine.py:401-403 | the kept list holds exactly the input obstacles with `right > 0` |
| GameProofs.SteppedPrefix | hdmi_game_engine.py:393 | stepping a list is stepping all but its last element, then stepping the last |
| GameProofs.AdvanceIsStepThenFilter | hdmi_game_engine.py:392-403 | the single-pass advance loop equals "move and score all, then keep those on screen" |
| GameProofs.AdvanceKeepsOnScreen | hdmi_game_engine.py:401-403 | every obstacle that survives the advance is at least partly on screen |
| GameProofs.AdvanceGain | hdmi_game_engine.py:395-400 | the points an advance adds are never negative, and they are positive if and only if some obstacle is flagged in this frame |
| GameProofs.AdvanceScoredGainsNothing | SPI_v2/game.py:268-282 | when every obstacle is already scored, the advance adds no points |
| GameProofs.AdvanceInv | hdmi_game_engine.py:392-403 | the advance preserves the session invariant and never lowers the score |
| GameProofs.BeforeCollisionFlags | hdmi_game_engine.py:351-403 | the steps before the collision check leave the session flags, the mileage and the initial mileage alone |
| GameProofs.EndOfTick | hdmi_game_engine.py:405-416 | a collision ends the game, recording "collision" where reasons are kept, and skips the mileage recompute; otherwise the mileage becomes `max(0, initial - score)`, and the game continues exactly while that is positive, recording "mileage_zero" otherwise |
| GameProofs.TickEnd | SPI/SPI_run.py:380-388 | the same for a whole tick, stated against the state just before the collision check; the loop and halt flags are untouched |
| GameProofs.BeforeCollisionInv | hdmi_game_engine.py:351-403 | the pre-collision steps preserve the invariant, and obstacle passes never lower the score below the distance score of the frame |
| GameProofs.PassOnlyScoreMonotone | hdmi_game_engine.py:392-403 | where only passing obstacles scores, an active tick never lowers the score |
| GameProofs.ActiveTickInv | hdmi_game_engine.py:351-416 | an active tick preserves the invariant and does not change the loop or halt flags |
| GameProofs.SensorIgnoredInAir | SPI_v2/hdmi_game_engine.py:234-256 | a sensor reading changes nothing in a tick where the copy has no sensor, the player is in the air or the game is not played |
| GameProofs.TickSpeedMonotone | hdmi_game_engine.py:351-416 | the obstacle speed never falls during an active tick |
| GameProofs.ApplyEventsInv | hdmi_game_engine.py:331-349 | draining the event queue preserves the invariant and never enters standby |
| GameProofs.ApplyEventsKeepsStopped | SPI/jump.py:164-178 | once the loop flag is cleared, no later event sets it again |
| GameProofs.ApplyEventsKeepsSpeed | SPI/jump.py:164-178 | the event loop keeps the speed unless an R key restarts a finished game |
| GameProofs.ApplyEventsKeepsHalted | hdmi_game_engine.py:331-347 | no event of the frame loop halts the program |
| GameProofs.ApplyEventsCloseStops | SPI_v2/game.py:211-213 | a window close anywhere in the queue clears the loop flag |
| GameProofs.ImmediateCloseSkipsTick | hdmi_game_engine.py:333-349 | under the immediate quit rule the first window close drops the rest of the queue and skips the tick; the frame ends with reason "quit_event" and, where the copy clears it, `game_active` false |
| GameProofs.ApplyEventsPrefixClose | hdmi_game_engine.py:333-337 | the queue up to the first close is processed as usual, and then the close is applied |
| GameProofs.StandbyEventsOnlyFlags | SPI/SPI_run.py:303-309 | on the standby screen events change only the waiting, active and loop flags; waiting and active stay exclusive; a close stops the loop |
| GameProofs.StandbyFrameSpec | SPI/SPI_run.py:286-316 | a standby frame changes only the flags; the button starts the game; a close stops the loop |
| GameProofs.GameOverInv | hdmi_game_engine.py:430-436 | the game-over choice preserves the invariant |
| GameProofs.FramePreservesInv | hdmi_game_engine.py:328-438 | every frame preserves the session invariant |
| GameProofs.FrameSpeedMonotone | hdmi_game_engine.py:328-438 | the obstacle speed never falls in a frame that neither restarts from the game-over screen nor handles an R key on a finished game |
| GameProofs.FrameHalts | SPI_v2/game_on_lcd.py:253-255 | a frame halts the program only where the game-over screen calls `sys.exit()` on a window close |
| GameProofs.CloseEndsSession | SPI_v2/game_on_lcd.py:279-283 | a window close in a frame's queue always ends the session after that frame, under either quit rule |
| GameProofs.ApplyEventsWhileOver | hdmi_game_engine.py:338 | where the frame loop ignores keys on a finished game, no event reactivates it |
| GameProofs.GameOverNeverRestarts | hdmi_game_engine.py:430-436 | a copy without restart ends the session at the first game-over frame |
| GameProofs.GameOverRestart | SPI_v2/hdmi_game_engine.py:318-321 | R on the game-over screen restarts with one obstacle, a zero score and the session's own mileage (the default mileage in `SPI/jump.py`), in the invariant |
| GameProofs.RunFramesPreservesInv | hdmi_game_engine.py:328-438 | a whole sequence of frames preserves the invariant |
| GameProofs.RunFramesHalts | SPI/jump.py:117-119 | a run of frames halts the program only where the game-over screen calls `sys.exit()` on a window close |
| GameProofs.RunGameOutcome | hdmi_game_engine.py:302-447 | a copy that checks readiness and is not ready returns `engine_not_initialized` with score 0 and the given mileage (HDMI engines) or nothing (`SPI_v2/game_on_lcd.py:264-266`); otherwise the HDMI engines return a dictionary with a non-negative score, `SPI/jump.py` ends the process (274-275), and the other copies return nothing unless a close on the game-over screen ended the process |
| GameProofs.SecondCallSkipped | SPI_v2/game.py:157-210 | as the code is written, a later `game()` call after a session that cleared `running` plays no frame: the loop's result is the carried start itself |
| GameProofs.ClosedGameSkipsNextCall | SPI_v2/game.py:210-213 | a concrete case in `SPI_v2/game.py`: a first game whose first frame holds a window close ends with `running` cleared, and the next call skips all its frames |
| GameProofs.SecondCallPlays | SPI_v2/game.py:193-210 | with the fresh start each call is meant to make, the loop flag is set and the first frame is always played, whatever the previous session left |
| GameSession.Session.constructor | hdmi_game_engine.py:151-171 | a new engine's fields are the session start for the given mileage, and the invariant holds |
| GameSession.Session.ResetGame | hdmi_game_engine.py:173-182 | `_reset_game` changes the fields exactly as the reset function says |
| GameSession.Session.HandleJump | hdmi_game_engine.py:340-347 | a jump key changes only the player, as `PressJump` says |
| GameSession.Session.HandleKey | SPI/jump.py:167-178 | a key press has the effect `KeyEvent` describes, including R and Q on a finished game in `SPI/jump.py` |
| GameSession.Session.HandleClose | hdmi_game_engine.py:333-337 | a window close changes only the flags, as the copy's quit rule says |
| GameSession.Session.HandleEvents | hdmi_game_engine.py:331-349 | the event loop reaches the state of `ApplyEvents`, stopping at the first close under the immediate rule |
| GameSession.Session.StandbyStep | SPI/SPI_run.py:286-316 | a standby frame reaches the state of `StandbyFrame` |
| GameSession.Session.SensorStep | SPI_v2/hdmi_game_engine.py:234-256 | the piezo check reaches the state of `SensorJump` |
| GameSession.Session.PhysicsStep | hdmi_game_engine.py:352-366 | gravity and landing reach the state of `Physics` |
| GameSession.Session.DistanceStep | SPI/SPI_run.py:345-346 | the distance score reaches the state of `DistanceScore` |
| GameSession.Session.RampStep | hdmi_game_engine.py:368-380 | the speed ramp reaches the state of `RampSpeed` |
| GameSession.Session.SpawnStep | hdmi_game_engine.py:382-390 | the spawn countdown reaches the state of `Spawn` |
| GameSession.Session.AdvanceAndReap | hdmi_game_engine.py:392-403 | the advance loop returns the kept obstacles and the points gained; the kept list is "move and score all, then keep those on screen"; the gain is non-negative, and positive exactly when some obstacle is flagged in this frame |
| GameSession.Session.AdvanceStep | hdmi_game_engine.py:392-403 | the advance reaches the state of `Advance` |
| GameSession.Session.DetectCollision | hdmi_game_engine.py:405-409 | the collision loop answers true if and only if some obstacle overlaps the player |
| GameSession.Session.CollisionStep | hdmi_game_engine.py:405-409 | the collision check reaches the state of `CheckCollision` |
| GameSession.Session.MileageStep | hdmi_game_engine.py:411-416 | the mileage recompute reaches the state of `EndCheck` |
| GameSession.Session.Tick | hdmi_game_engine.py:351-419 | an active frame's game logic reaches the state of `ActiveTick` |
| GameSession.Session.GameOverStep | SPI_v2/game_on_lcd.py:219-260 | the game-over screen's choice reaches the state of `GameOver`: restart, quit, or a close that records "quit_event" or halts |
| GameSession.Session.Step | hdmi_game_engine.py:328-438 | one pass of the frame loop reaches the state of `Frame` and keeps the invariant |
| GameSession.Session.Run | hdmi_game_engine.py:328-438 | the `while running` loop reaches the state of `RunFrames` and keeps the invariant |
| GameSession.Session.PlayGame | hdmi_game_engine.py:302-447 | the session function returns the outcome of `RunGame`: `engine_not_initialized` exactly when an HDMI engine is not initialised, and a result dictionary with a non-negative score whenever an initialised HDMI engine finishes |
| LedColor.WheelRaw | strandtest.py:36-45 | `wheel(pos)` on 0..255 gives three bytes that sum to 255 |
| LedColor.Wheel | SPI_v2/led_controller.py:39-51 | `_wheel` first reduces a position outside 0..255 mod 256; every result is three bytes summing to 255 and agrees with `wheel` on the reduced position |
| LedColor.WheelRoundTrip | strandtest.py:36-45 | on 0..254 the wheel position can be read back from the colour |
| LedColor.WheelInjective | testbase/LED_rainbow.py:16-25 | different positions in 0..254 give different colours |
| LedColor.WheelWraps | SPI_v2/led_v2.py:51-62 | position 255 repeats the colour of position 0; the reduction maps 256 to 0 and -1 to 255 |
| LedColor.LowByte | strandtest.py:51 | `x & 255` is a byte that differs from `x` by a multiple of 256 |
| LedColor.Spread | strandtest.py:59 | `int(i * 256 / n)` is a wheel position, and `i * 256` lies within its bucket of width `n` |
| LedColor.SpreadMonotone | testbase/LED_rainbow.py:31 | along the strip the spread position never decreases |
| LedColor.CyclePos | SPI_v2/led_controller.py:59 | the per-pixel position of the rainbow cycle is in 0..255 |
| LedColor.CyclePosPeriodic | SPI_v2/led_v2.py:70 | offsets that differ by a multiple of 256 give every pixel the same position |
| LedColor.OffsetPeriodsAgree | SPI_v2/led_controller.py:62 | the offset kept mod 1280 places every pixel where the same offset kept mod 256 would |
| LedColor.ClampBrightness | SPI_v2/led_controller.py:110 | `max(0, min(255, value))` is a byte and equals the value whenever the value is one; below 0 gives 0 and above 255 gives 255 |
| LedStrip.Put | strandtest.py:30 | `setPixelColor` changes only the addressed pixel, and a write past the end changes nothing |
| LedStrip.Filled | SPI_v2/led_v2.py:105-106 | every pixel holds the colour |
| LedStrip.RainbowFrame | strandtest.py:50-51 | a `rainbow` frame has one colour per pixel |
| LedStrip.CycleFrame | strandtest.py:58-59 | a `rainbowCycle` frame has one colour per pixel |
| LedStrip.Chase | strandtest.py:29-30 | a chase write with offset `q` sets exactly the pixels from `q` on whose index is `q` mod 3, and leaves the others as they were |
| LedStrip.ChaseRainbow | strandtest.py:67-68 | a rainbow chase write keeps the strip's length |
| LedStrip.Cleared | strandtest.py:33-34 | clearing keeps the strip's length |
| LedStrip.Wiped | strandtest.py:20-22 | a partial wipe keeps the strip's length |
| LedStrip.ChaseRound | strandtest.py:28-34 | a chase round shows three frames |
| LedStrip.ChaseShow | strandtest.py:27-34 | `iterations` chase rounds show three frames each |
| LedStrip.ChaseRainbowRound | strandtest.py:66-72 | a rainbow chase round shows three frames |
| LedStrip.ChaseRainbowShow | strandtest.py:65-72 | `m` rainbow chase rounds show three frames each |
| LedStrip.PixelStrip.constructor | strandtest.py:82 | a new strip has `count` pixels, all off, the given brightness and nothing shown yet |
| LedStrip.PixelStrip.SetPixelColor | strandtest.py:21 | the buffer changes as `Put` says |
| LedStrip.PixelStrip.Show | strandtest.py:22 | the current buffer is appended to the frames shown |
| LedStrip.PixelStrip.SetBrightness | SPI_v2/led_controller.py:111 | the brightness is set; nothing new is shown |
| LedStrip.RainbowColorsOnWheel | strandtest.py:47-61 | every colour of a rainbow or rainbow-cycle frame is three bytes summing to 255 |
| LedStrip.RainbowMoves | strandtest.py:49-51 | from one `rainbow` step to the next the pattern moves one pixel down the strip |
| LedStrip.RainbowPeriodic | strandtest.py:49 | both rainbows repeat every 256 steps |
| LedStrip.CycleFrameSpread | testbase/LED_rainbow.py:29-31 | the cycle's first pixel sits at the offset's position; pixel `k` sits at its spread position plus the offset; positions rise along the strip |
| LedStrip.ChaseOverwrites | strandtest.py:30-34 | switching off the chased pixels undoes lighting them |
| LedStrip.ChaseClears | strandtest.py:28-34 | the chase offset `q` switches off exactly the pixels whose index is `q` mod 3 |
| LedStrip.ClearedAll | strandtest.py:28-34 | after the three offsets every pixel is off |
| LedStrip.ChaseLastFrame | strandtest.py:28-31 | the third frame of a round lights exactly the pixels whose index is 2 mod 3 |
| LedStrip.ChaseRainbowOnWheel | strandtest.py:68 | a rainbow chase lights a pixel with wheel position `(i + j) % 255`, always in 0..254, so always a valid colour |
| LedStrip.ChaseRainbowOverwritten | strandtest.py:68-72 | switching off the rainbow-chased pixels undoes lighting them |
| LedStrip.RoundStartCleared | strandtest.py:27-34 | every chase round after the first starts on an all-off strip |
| LedStrip.ChaseShowEnds | strandtest.py:25-34 | the last `theaterChase` frame lights exactly the pixels whose index is 2 mod 3; the first lights those whose index is 0 mod 3 over the old contents |
| LedStrip.ChaseShowFirst | strandtest.py:29-31 | the first chase frame is the first offset's write on the old contents |
| StrandTest.ColorWipe | strandtest.py:18-23 | `colorWipe` shows `n` frames, the `i`-th with the first `i` pixels set, and leaves every pixel set (the same loop as testbase/LED_rainbow.py:35-40) |
| StrandTest.LightEveryThird | strandtest.py:29-30 | the loop over `range(0, n, 3)` leaves the buffer as `Chase` says |
| StrandTest.ChaseStep | strandtest.py:29-34 | one offset shows the chase frame and then switches those pixels off again |
| StrandTest.TheaterChase | strandtest.py:25-34 | `theaterChase` shows exactly the frames of `ChaseShow` and leaves every pixel off when it ran at least once |
| StrandTest.PaintRainbow | strandtest.py:50-51 | the pixel loop leaves the buffer as the `rainbow` frame of step `j` |
| StrandTest.Rainbow | strandtest.py:47-53 | `rainbow` shows exactly the frames for steps 0 to `256 * iterations - 1` and ends on the frame of step 255; with no iterations the pixels are unchanged |
| StrandTest.PaintCycle | strandtest.py:58-59 | the pixel loop leaves the buffer as the rainbow-cycle frame of step `j` |
| StrandTest.RainbowCycle | strandtest.py:55-61 | `rainbowCycle` shows exactly the cycle frames for steps 0 to `256 * iterations - 1` and ends on the frame of step 255, or leaves the pixels unchanged with no iterations (the same loop as testbase/LED_rainbow.py:27-33) |
| StrandTest.RainbowChasedUpTo | strandtest.py:67-68 | the partially written rainbow chase keeps the strip's length |
| StrandTest.RainbowChaseStep | strandtest.py:67-68 | one pass of the loop writes pixel `i + q` with wheel position `(i + j) % 255`, the colour the finished chase gives it |
| StrandTest.LightEveryThirdRainbow | strandtest.py:67-68 | the loop over `range(0, n, 3)` leaves the buffer as `ChaseRainbow` says |
| StrandTest.TheaterChaseRainbow | strandtest.py:63-72 | `theaterChaseRainbow` shows exactly the 768 frames of `ChaseRainbowShow` and leaves every pixel off |
| LedControl.Period | SPI_v2/led_v2.py:74 | the offset period, 1280 or 256, is a positive multiple of 256 |
| LedControl.FlashFrames | SPI_v2/led_v2.py:110-120 | a flash pattern of `times` flashes is `2 * times` frames, alternating the flash colour and all off |
| LedControl.LedController.constructor | SPI_v2/led_v2.py:19-35 | a new controller has a strip of `count` pixels, is not yet on, has offset 0, and remembers the brightness as its default |
| LedControl.LedController.Begin | SPI_v2/led_controller.py:25-37 | a controller already on is left alone; otherwise it is on exactly when the strip is present and the driver's `begin` succeeds, and a failure drops the strip |
| LedControl.LedController.PaintCycle | SPI_v2/led_controller.py:58-60 | the pixel loop leaves the buffer as the rainbow-cycle frame of the offset, coloured with `_wheel` |
| LedControl.LedController.UpdateRainbowCycleFrame | SPI_v2/led_v2.py:64-74 | when off nothing changes; otherwise one rainbow-cycle frame is shown at the given offset or the stored one, and only the stored one advances, mod 1280 (led_controller.py:53-62) or mod 256 |
| LedControl.LedController.ResetRainbowAnimationState | SPI_v2/led_controller.py:64-66 | the stored offset returns to 0 and nothing else changes |
| LedControl.LedController.Paint | SPI_v2/led_v2.py:105-106 | the pixel loop sets every pixel to the colour |
| LedControl.LedController.Clear | SPI_v2/led_controller.py:69-75 | when on, every pixel is switched off and that frame is shown; when off nothing changes |
| LedControl.LedController.StaticColor | SPI_v2/led_v2.py:101-108 | when on, every pixel gets the colour, and the frame is shown only if asked; when off nothing changes |
| LedControl.LedController.ShowFlashPattern | SPI_v2/led_controller.py:77-96 | when on, exactly the flash frames are shown and the strip ends off, or keeps its pixels when `times` is 0; when off nothing changes |
| LedControl.LedController.SetBrightness | SPI_v2/led_v2.py:88-95 | when on, the brightness becomes the clamped value and the frame is shown if asked (led_controller.py:98-113 always shows); when off nothing changes |
| LedControl.LedController.ResetToDefaultBrightness | SPI_v2/led_v2.py:97-99 | the brightness returns to the constructor's value, clamped to a byte |
| LedControl.LedController.ColorWipe | SPI_v2/led_v2.py:122-128 | when on, the frames shown are the wipe frames; when off nothing changes |
| LedControl.LedController.RainbowEffect | SPI_v2/led_v2.py:130-138 | when on, the frames shown are the `rainbow` frames of `256 * iterations` steps, and the strip ends on the frame of step 255 (unchanged with no iterations); when off nothing changes |
| LedControl.OffsetAdvance | SPI_v2/led_controller.py:62 | the stored offset stays below its period, steps by one and wraps to 0; frames at the offset mod 1280 and mod 256 coincide |

## Left out

- Rendering, fonts, images and sounds are not modelled: the pygame drawing, the LCD and HDMI output, and the PIL conversion. Sprite and screen sizes are parameters (`Geometry`), because the source derives them from image files.
- The pre-game countdown, the standby and measuring screens of the HDMI engines, and `cleanup` are left out. The countdown draws and waits, and it ends the process with `pygame.quit(); sys.exit()` on a window close (hdmi_game_engine.py:268-271, 282-285, 295-298); that exit is not modelled.
- The game-over screen in the engines is a blocking loop. It is modelled by the choice it returns; the frames it spends waiting are not modelled.
- Pygame `Rect` coordinates are integers, and the source moves rectangles by float amounts. The model keeps positions as exact reals and does not model the coercion. Floating-point rounding is not modelled either.
- `player_speed` in `hdmi_game_engine.py:170-171,379-380` is updated but never read. It is not modelled.
- The LED calls in `run_game` (`static_color` at the start and `clear` at the end) are not modelled in the game.
- The obstacle dictionaries are updated in place in the source. The model uses a sequence of obstacle values, so aliasing between the list and its elements is not captured.
- Within one frame, a restart (R) and a reset use the same tall-or-short draw (`resetTall`) for the new obstacle.
- `RunGame`'s `ready` flag is `is_initialized` in the HDMI engines and the attached display in `SPI_v2/game_on_lcd.py`, whose `play_game` returns before the loop when there is none (264-266). The other copies check nothing, and the flag does not matter for them.
- The delays between LED frames (`time.sleep`, `wait_ms`) and the driver's wire protocol are not modelled. The model records the frames that `show` sends.
- The driver library `rpi_ws281x` is not part of this model. `PixelStrip` assumes that a write to a pixel index past the end is refused and changes nothing.
- The `j_offset` of `update_rainbow_cycle_frame` and the `brightness_value` of `set_brightness` are taken as integers. `int()` on a float argument is not modelled.
- The checks `if not self.is_on: break` inside `show_flash_pattern` and `rainbow_effect` of `SPI_v2/led_v2.py` can only matter if another thread calls `begin`. The model has no concurrency, so it leaves them out.
- The command-line handling of `strandtest.py` and `testbase/LED_rainbow.py` is not modelled: the endless demo loop and the `-c` clear on Ctrl-C.
- The Raspberry Pi hardware files and the sensor, music, emotion and main-program modules of the repository are not part of this model.
- Dafny methods have no default arguments, so every `LedController` argument is explicit. In the source the defaults are `flash_color=Color(50, 50, 50)` and `times=3` for `show_flash_pattern`, `j_offset=None` (`Option.None` here), `show=True` for `set_brightness`, `reset_to_default_brightness` and `static_color`, `iterations=1` for `rainbow_effect`, and `brightness=25` in the `SPI_v2/led_v2.py` constructor. The constructor's driver settings (pin, frequency, DMA channel, inversion, PWM channel) and the `wait_ms` and `duration_on`/`duration_off` pauses do not change the frames and are not modelled. The example scripts' defaults (`iterations=10` for `theaterChase`, `iterations=1` for `rainbow`, `iterations=5` for `rainbowCycle`, `wait_ms`) are explicit arguments too.
- LedStrip.PixelStrip.Show: the frames recorded are colour buffers only, not the brightness they were sent at, so `set_brightness(value, True)` records a frame equal to the previous one. The brightness is a field of its own, and each contract states its new value.

## Findings

| source | as written | input that shows it | evidently intended | confidence | as-written member | corrected member |
|---|---|---|---|---|---|---|
| SPI_v2/game.py:157-210 | `running` is a module global set to `True` once, at load time (157); `game()` resets every other session variable (193-207) but not `running`, so after a session ends with `running = False` a later call returns without playing a frame; `GameRules.CarriedStart` models that start and `GameProofs.ClosedGameSkipsNextCall` exhibits the case, while `GameRules.Start`, used by `RunGame` and `GameSession.Session`, is the intended fresh start | `game(INITIAL_MILEAGE)` ended by a window close, then `game(500)` as in the example at 328-332 | each call of `game()` is a fresh start (the comment at 193), so `running` is set to `True` again with the other variables | medium; not executed | GameProofs.SecondCallSkipped | GameProofs.SecondCallPlays |
