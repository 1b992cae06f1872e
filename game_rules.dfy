/** The frame-by-frame rules of the obstacle-dodge game, as pure functions on a
    snapshot of the session's fields.  `GameSession.Session` implements these
    step by step; `GameProofs` proves what they promise. */
module GameRules {
  import opened GameConfig

  /** One obstacle: its rect's left edge, its height class (the second height
      key of the source is "tall") and its one-shot `scored` flag.  The rect's
      bottom always sits on the ground, so it is not stored. */
  datatype Obstacle = Obstacle(x: real, tall: bool, scored: bool)

  /** `game_over_reason`: None, "collision", "mileage_zero" or "quit_event". */
  datatype Reason = NoReason | Collision | MileageZero | QuitEvent

  /** The player's vertical motion. */
  datatype Player = Player(
    y: real,                // top edge of the player's rect
    velocity: real,
    jumping: bool,
    bufferExpiresAt: int)   // jump-buffer deadline in milliseconds, 0 when none

  /** The flags that decide what the session loop does next. */
  datatype Flags = Flags(
    active: bool,           // game_active
    reason: Reason,
    running: bool,          // the session loop's own flag
    standby: bool,          // waiting for the first button press
    halted: bool)           // the game-over screen called sys.exit()

  /** Every field the frame loop reads or writes. */
  datatype State = State(
    initial: int,           // the session's starting mileage (the loop's argument)
    player: Player,
    obstacles: seq<Obstacle>,
    score: int,
    scoreFloat: real,
    speed: real,
    lastMilestone: int,
    mileage: int,
    timer: int,
    interval: int,
    flags: Flags)

  /** What the outside world supplies to one frame: the event queue, the clock,
      the sensor reading and the values `random` would have produced. */
  datatype FrameInput = FrameInput(
    events: seq<Event>,
    now: int,
    sensor: bool,
    resetTall: bool,            // height class drawn by a reset in this frame
    spawnTall: bool,            // height class drawn by a spawn in this frame
    spawnDraw: nat,             // draw for the new spawn interval
    rewardDraw: nat -> nat,     // draw for the reward of the obstacle at each list index
    choice: GameOverChoice)     // what the game-over screen returns in this frame

  /** What a session hands back: the HDMI engines' result dictionary (early or
      final), nothing (`None`), or nothing because `sys.exit()` ended the process. */
  datatype Outcome =
    | NotInitialized(initialMileage: int)
    | Finished(score: int, finalMileage: int, reason: Reason)
    | NoResult
    | Exited

  // ---------------------------------------------------------------------------
  // Arithmetic helpers

  function MinR(a: real, b: real): (r: real)
    ensures r <= a && r <= b && (r == a || r == b)
  {
    if a <= b then a else b
  }

  function Max(a: int, b: int): (r: int)
    ensures r >= a && r >= b && (r == a || r == b)
  {
    if a >= b then a else b
  }

  /** Python's `int()` on a float: truncation toward zero. */
  function Trunc(r: real): (n: int)
    ensures r >= 0.0 ==> n as real <= r < n as real + 1.0
    ensures r < 0.0 ==> n as real - 1.0 < r <= n as real
  {
    if r >= 0.0 then r.Floor else -((-r).Floor)
  }

  /** `random.randint(low, high)` with the random source made explicit. */
  function RandInt(low: int, high: int, draw: nat): (r: int)
    requires low <= high
    ensures low <= r <= high
    ensures r - low == draw % (high - low + 1)
  {
    low + draw % (high - low + 1)
  }

  // ---------------------------------------------------------------------------
  // Geometry

  function Ground(cfg: Config): real
  {
    cfg.geometry.groundHeight as real
  }

  /** The player's top edge when standing on the ground. */
  function StandY(cfg: Config): real
  {
    Ground(cfg) - cfg.geometry.playerHeight as real
  }

  function PlayerBottom(cfg: Config, y: real): real
  {
    y + cfg.geometry.playerHeight as real
  }

  function ObstacleWidth(cfg: Config, tall: bool): int
  {
    if tall then cfg.geometry.tallWidth else cfg.geometry.shortWidth
  }

  function ObstacleHeight(cfg: Config, tall: bool): int
  {
    if tall then cfg.geometry.tallHeight else cfg.geometry.shortHeight
  }

  /** `rect.right` of an obstacle. */
  function Right(cfg: Config, o: Obstacle): real
  {
    o.x + ObstacleWidth(cfg, o.tall) as real
  }

  /** `_create_obstacle`: at the right screen edge, on the ground, unscored. */
  function NewObstacle(cfg: Config, tall: bool): Obstacle
  {
    Obstacle(cfg.geometry.screenWidth as real, tall, false)
  }

  // ---------------------------------------------------------------------------
  // Reset and session start

  /** Standing on the ground with no jump pending. */
  function Standing(cfg: Config): Player
  {
    Player(StandY(cfg), 0.0, false, 0)
  }

  /** `_initialize_game_state_vars`: the fields before a game is reset. */
  function InitialVars(cfg: Config, m: int): State
  {
    State(m, Standing(cfg), [], 0, 0.0, cfg.initialSpeed, 0, cfg.defaultMileage, 0, cfg.spawn.initialAvg,
          Flags(false, NoReason, true, false, false))
  }

  /** The reset a restart performs (`_reset_game`, `reset_game_adapted`,
      `reset_game`), followed by `game_active = True`. */
  function Reset(cfg: Config, s: State, tall: bool): State
  {
    s.(player := Standing(cfg),
       obstacles := [NewObstacle(cfg, tall)], score := 0, scoreFloat := 0.0,
       speed := cfg.initialSpeed, lastMilestone := 0,
       mileage := if cfg.resetUsesDefault then cfg.defaultMileage else s.initial,
       timer := if cfg.resetsSpawnTimer then 0 else s.timer,
       interval := if cfg.resetsSpawnTimer then cfg.spawn.initialAvg else s.interval,
       flags := s.flags.(active := true, reason := NoReason))
  }

  /** The state the session loop starts from for starting mileage `m`. */
  function Start(cfg: Config, m: int, tall: bool): State
  {
    var r := Reset(cfg, InitialVars(cfg, m), tall);
    if cfg.standbyAtStart then r.(flags := r.flags.(standby := true, active := false)) else r
  }

  /** The start a later call of `game()` in `SPI_v2/game.py` makes as the code
      is written: every field is reset as in `Start` except the loop flag
      `running`, a module global that the function never sets, so it keeps the
      value the previous session `prev` left.  The rest of the model uses the
      fresh `Start` that every call is meant to make. */
  function CarriedStart(cfg: Config, prev: State, m: int, tall: bool): State
  {
    var r := Start(cfg, m, tall);
    r.(flags := r.flags.(running := prev.flags.running))
  }

  // ---------------------------------------------------------------------------
  // Input

  /** `is_jumping = True; player_y_velocity = JUMP_STRENGTH`. */
  function Launch(cfg: Config, p: Player): Player
  {
    p.(jumping := true, velocity := cfg.jumpStrength)
  }

  /** A jump key while playing.  With a jump buffer a press in the air arms the
      buffer; without one it is ignored. */
  function PressJump(cfg: Config, p: Player, now: int): Player
  {
    match cfg.jumpBufferMs
    case Some(ms) =>
      if !p.jumping then Launch(cfg, p).(bufferExpiresAt := 0)
      else p.(bufferExpiresAt := now + ms)
    case None =>
      if !p.jumping then Launch(cfg, p) else p
  }

  /** A key press seen by the frame loop outside standby. */
  function KeyEvent(cfg: Config, s: State, k: Key, now: int, resetTall: bool): State
  {
    if s.flags.active then
      (if k in cfg.jumpKeys then s.(player := PressJump(cfg, s.player, now)) else s)
    else if cfg.keysWhileOver then
      (if k == KeyR then Reset(cfg, s, resetTall)
       else if k == KeyQ then s.(flags := s.flags.(running := false))
       else s)
    else s
  }

  /** A window-close event seen by the frame loop outside standby. */
  function CloseEvent(cfg: Config, f: Flags): Flags
  {
    match cfg.quitRule
    case Immediate(clears) => f.(running := false, active := if clears then false else f.active, reason := QuitEvent)
    case Deferred => f.(running := false)
  }

  /** The `for event in pygame.event.get()` loop.  A window close under the
      immediate rule breaks out and drops the rest of the queue. */
  function ApplyEvents(cfg: Config, s: State, evs: seq<Event>, now: int, resetTall: bool): State
    decreases |evs|
  {
    if |evs| == 0 then s
    else match evs[0]
      case WindowClose =>
        if cfg.quitRule.Immediate? then s.(flags := CloseEvent(cfg, s.flags))
        else ApplyEvents(cfg, s.(flags := CloseEvent(cfg, s.flags)), evs[1..], now, resetTall)
      case KeyDown(k) => ApplyEvents(cfg, KeyEvent(cfg, s, k, now, resetTall), evs[1..], now, resetTall)
  }

  /** One event on the standby screen: close stops the loop, a jump key starts the game. */
  function StandbyEvent(cfg: Config, f: Flags, e: Event): Flags
  {
    match e
    case WindowClose => f.(running := false)
    case KeyDown(k) => if k in cfg.jumpKeys then f.(standby := false, active := true) else f
  }

  /** The standby screen's event loop. */
  function StandbyEvents(cfg: Config, f: Flags, evs: seq<Event>): Flags
    decreases |evs|
  {
    if |evs| == 0 then f else StandbyEvents(cfg, StandbyEvent(cfg, f, evs[0]), evs[1..])
  }

  /** One standby frame: events, then the button (`HIGH` after the never-updated
      `LOW`).  Only the flags change. */
  function StandbyFrame(cfg: Config, s: State, inp: FrameInput): State
  {
    var f := StandbyEvents(cfg, s.flags, inp.events);
    s.(flags := if inp.sensor then f.(standby := false, active := true) else f)
  }

  /** A piezo or button trigger starts a jump only while playing on the ground. */
  function SensorJump(cfg: Config, s: State, sensor: bool): State
  {
    if cfg.sensorJump && sensor && s.flags.active && !s.player.jumping then s.(player := Launch(cfg, s.player)) else s
  }

  // ---------------------------------------------------------------------------
  // The active tick

  /** Gravity, then the landing clamp; with a jump buffer, a landing re-fires a
      buffered jump whose deadline is still ahead and always clears the buffer. */
  function Fall(cfg: Config, p: Player, now: int): Player
  {
    if !p.jumping then p
    else
      var v := p.velocity + cfg.gravity;
      var y := p.y + v;
      if PlayerBottom(cfg, y) >= Ground(cfg) then
        var landed := p.(y := StandY(cfg), velocity := 0.0, jumping := false);
        if cfg.jumpBufferMs.Some? then
          (if p.bufferExpiresAt > now then Launch(cfg, landed) else landed).(bufferExpiresAt := 0)
        else landed
      else p.(velocity := v, y := y)
  }

  function Physics(cfg: Config, s: State, now: int): State
  {
    s.(player := Fall(cfg, s.player, now))
  }

  /** `score_float += speed / PIXELS_PER_POINT; score = int(score_float)`. */
  function DistanceScore(cfg: Config, s: State): State
    requires ValidConfig(cfg)
  {
    match cfg.scoreRule
    case PassOnly => s
    case DistanceThenPass(ppp) =>
      var f := s.scoreFloat + s.speed / ppp;
      s.(scoreFloat := f, score := Trunc(f))
  }

  /** The new speed for a fresh milestone `m`. */
  function Bumped(cfg: Config, speed: real, m: int): real
  {
    match cfg.speedRule
    case Staircase(step, cap) => MinR(speed + step, cap)
    case Growing => MinR(speed + 0.2 + 0.15 * m as real, cfg.initialSpeed + 3.0 + 0.5 * m as real)
    case Unbounded(step) => speed + step
  }

  /** The speed ramp keyed on `score // 10`. */
  function RampSpeed(cfg: Config, s: State): State
  {
    var m := s.score / 10;
    if m > s.lastMilestone then s.(speed := Bumped(cfg, s.speed, m), lastMilestone := m) else s
  }

  /** `spawn_low` and `spawn_high` for the current score. */
  function SpawnBounds(p: SpawnParams, score: int): (b: (int, int))
    requires ValidSpawn(p)
    ensures b.0 >= p.absoluteMin
    ensures b.1 >= b.0 + p.margin
  {
    var prog := MinR(1.0, score as real / p.scoreForMin as real);
    var avg := p.initialAvg as real - prog * (p.initialAvg - p.minAvg) as real;
    var low := Max(p.absoluteMin, Trunc(avg - p.randomRange as real / 2.0));
    var high := Max(low + p.margin, Trunc(avg + p.randomRange as real / 2.0));
    (low, high)
  }

  /** The spawn countdown: one more frame; past the interval, one obstacle is
      appended, the timer restarts and a new interval is drawn. */
  function Spawn(cfg: Config, s: State, tall: bool, draw: nat): State
    requires ValidSpawn(cfg.spawn)
  {
    var t := s.timer + 1;
    if t > s.interval then
      var b := SpawnBounds(cfg.spawn, s.score);
      s.(obstacles := s.obstacles + [NewObstacle(cfg, tall)], timer := 0, interval := RandInt(b.0, b.1, draw))
    else s.(timer := t)
  }

  /** How far obstacles move in one frame. */
  function Move(cfg: Config, speed: real): real
  {
    if cfg.truncateMove then Trunc(speed) as real else speed
  }

  /** `randint(3, 5)` / `randint(6, 8)` (or 5-7 / 8-10) by height class. */
  function Reward(cfg: Config, tall: bool, draw: nat): int
  {
    var base := if tall then cfg.tallReward else cfg.shortReward;
    RandInt(base, base + 2, draw)
  }

  /** One obstacle's turn in the advance loop: move it left, then score it once
      when it is past the player.  Returns the obstacle and the points gained. */
  function StepObstacle(cfg: Config, o: Obstacle, move: real, draw: nat): (Obstacle, int)
  {
    var moved := o.(x := o.x - move);
    if !moved.scored && Right(cfg, moved) < cfg.geometry.playerX as real then
      (moved.(scored := true), Reward(cfg, moved.tall, draw))
    else (moved, 0)
  }

  /** The advance loop over `obs`: the obstacles kept (those with `right > 0`)
      and the points gained.  Defined on prefixes, as the loop runs. */
  function AdvanceAll(cfg: Config, obs: seq<Obstacle>, move: real, draw: nat -> nat): (seq<Obstacle>, int)
    decreases |obs|
  {
    if |obs| == 0 then ([], 0)
    else
      var prev := AdvanceAll(cfg, obs[..|obs| - 1], move, draw);
      var st := StepObstacle(cfg, obs[|obs| - 1], move, draw(|obs| - 1));
      (if Right(cfg, st.0) > 0.0 then prev.0 + [st.0] else prev.0, prev.1 + st.1)
  }

  function Advance(cfg: Config, s: State, draw: nat -> nat): State
  {
    var r := AdvanceAll(cfg, s.obstacles, Move(cfg, s.speed), draw);
    s.(obstacles := r.0, score := s.score + r.1)
  }

  /** `player_rect.colliderect(obstacle_rect)`: strict overlap on both axes. */
  predicate Collides(cfg: Config, y: real, o: Obstacle)
  {
    var left := cfg.geometry.playerX as real;
    var right := left + cfg.geometry.playerWidth as real;
    var oTop := Ground(cfg) - ObstacleHeight(cfg, o.tall) as real;
    left < Right(cfg, o) && o.x < right && y < Ground(cfg) && oTop < PlayerBottom(cfg, y)
  }

  predicate AnyCollision(cfg: Config, y: real, obs: seq<Obstacle>)
  {
    exists i :: 0 <= i < |obs| && Collides(cfg, y, obs[i])
  }

  function CheckCollision(cfg: Config, s: State): State
  {
    if AnyCollision(cfg, s.player.y, s.obstacles) then
      s.(flags := s.flags.(active := false, reason := if cfg.recordsOutcome then Collision else s.flags.reason))
    else s
  }

  /** Mileage recompute for a game still running, clamped at 0, which ends it. */
  function EndCheck(cfg: Config, s: State): State
  {
    if !s.flags.active then s
    else
      var left := s.initial - s.score;
      if left <= 0 then
        s.(mileage := 0, flags := s.flags.(active := false, reason := if cfg.recordsOutcome then MileageZero else s.flags.reason))
      else s.(mileage := left)
  }

  /** The whole update of a frame in which the game is active. */
  function ActiveTick(cfg: Config, s: State, inp: FrameInput): State
    requires ValidConfig(cfg)
  {
    var s1 := SensorJump(cfg, s, inp.sensor);
    var s2 := Physics(cfg, s1, inp.now);
    var s3 := DistanceScore(cfg, s2);
    var s4 := RampSpeed(cfg, s3);
    var s5 := Spawn(cfg, s4, inp.spawnTall, inp.spawnDraw);
    var s6 := Advance(cfg, s5, inp.rewardDraw);
    var s7 := CheckCollision(cfg, s6);
    EndCheck(cfg, s7)
  }

  // ---------------------------------------------------------------------------
  // Game over and the frame

  /** The game-over screen can only return what it offers. */
  predicate ValidChoice(cfg: Config, c: GameOverChoice)
  {
    c == Restart ==> cfg.restartOffered
  }

  function GameOver(cfg: Config, s: State, c: GameOverChoice, tall: bool): State
    requires ValidChoice(cfg, c)
  {
    match c
    case Restart => Reset(cfg, s, tall)
    case Quit => s.(flags := s.flags.(running := false))
    case CloseWindow =>
      match cfg.closeRule
      case RecordQuit => s.(flags := s.flags.(running := false, reason := QuitEvent))
      case Halt => s.(flags := s.flags.(running := false, halted := true))
      case StopLoop => s.(flags := s.flags.(running := false))
  }

  /** One iteration of the session's `while` loop. */
  function Frame(cfg: Config, s: State, inp: FrameInput): State
    requires ValidConfig(cfg) && ValidChoice(cfg, inp.choice)
  {
    if s.flags.standby then StandbyFrame(cfg, s, inp)
    else
      var s1 := ApplyEvents(cfg, s, inp.events, inp.now, inp.resetTall);
      if cfg.quitRule.Immediate? && !s1.flags.running then s1
      else if s1.flags.active then ActiveTick(cfg, s1, inp)
      else GameOver(cfg, s1, inp.choice, inp.resetTall)
  }

  predicate ValidInputs(cfg: Config, frames: seq<FrameInput>)
  {
    forall i :: 0 <= i < |frames| ==> ValidChoice(cfg, frames[i].choice)
  }

  /** The loop over a finite run of frames; it stops once its flag is cleared. */
  function RunFrames(cfg: Config, s: State, frames: seq<FrameInput>): State
    requires ValidConfig(cfg) && ValidInputs(cfg, frames)
    decreases |frames|
  {
    if !s.flags.running || |frames| == 0 then s
    else RunFrames(cfg, Frame(cfg, s, frames[0]), frames[1..])
  }

  /** The session function (`run_game`, `play_game`, `run_adapted_game`,
      `game`): a copy that checks readiness returns at once when `ready` is
      false, with the early dictionary or with nothing; otherwise a fresh
      session is played over `frames`, and the copy returns its dictionary,
      returns nothing, or has ended the process. */
  function RunGame(cfg: Config, ready: bool, m: int, tall: bool, frames: seq<FrameInput>): Outcome
    requires ValidConfig(cfg) && ValidInputs(cfg, frames)
  {
    if cfg.checksReady && !ready then
      (if cfg.result.ReturnsDict? then NotInitialized(m) else NoResult)
    else
      var s := RunFrames(cfg, Start(cfg, m, tall), frames);
      if s.flags.halted || cfg.result.ExitsProcess? then Exited
      else if cfg.result.ReturnsDict? then Finished(s.score, s.mileage, s.flags.reason)
      else NoResult
  }
}
