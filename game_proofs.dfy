/** What the frame rules promise: the session invariant and its preservation by
    every step, and the per-step properties of jumping, the speed ramp, the
    spawn countdown, scoring, collision, mileage, quitting and restarting. */
module GameProofs {
  import opened GameConfig
  import opened GameRules

  // ---------------------------------------------------------------------------
  // The session invariant

  /** Speed never falls below its initial value and never passes its cap. */
  predicate SpeedInv(cfg: Config, s: State)
  {
    s.lastMilestone >= 0 && s.speed >= cfg.initialSpeed &&
    match cfg.speedRule
    case Staircase(_, cap) => s.speed <= cap
    case Growing => s.speed <= cfg.initialSpeed + 3.0 + 0.5 * s.lastMilestone as real
    case Unbounded(_) => true
  }

  /** The player is never below the ground and rests on it when not jumping. */
  predicate PlayerInv(cfg: Config, p: Player)
  {
    PlayerBottom(cfg, p.y) <= Ground(cfg) &&
    (!p.jumping ==> p.y == StandY(cfg) && p.velocity == 0.0) &&
    (cfg.jumpBufferMs.None? ==> p.bufferExpiresAt == 0)
  }

  /** The spawn timer never exceeds the interval. */
  predicate TimerInv(cfg: Config, s: State)
  {
    0 <= s.timer <= s.interval && s.interval >= cfg.spawn.absoluteMin
  }

  /** Every obstacle kept in the list is at least partly on screen. */
  predicate ObstaclesInv(cfg: Config, obs: seq<Obstacle>)
  {
    forall i :: 0 <= i < |obs| ==> Right(cfg, obs[i]) > 0.0
  }

  /** A halted program runs no loop; a waiting game is not being played. */
  predicate FlagsInv(f: Flags)
  {
    (f.halted ==> !f.running) && (f.standby ==> !f.active)
  }

  predicate Inv(cfg: Config, s: State)
  {
    SpeedInv(cfg, s) && PlayerInv(cfg, s.player) && TimerInv(cfg, s) && ObstaclesInv(cfg, s.obstacles) &&
    s.score >= 0 && s.scoreFloat >= 0.0 && FlagsInv(s.flags)
  }

  // ---------------------------------------------------------------------------
  // Reset and start

  /** A reset leaves exactly one fresh obstacle at the right edge, a zero
      score, the initial speed, the player on the ground and the game active;
      it re-establishes the invariant. */
  lemma ResetEstablishesInv(cfg: Config, s: State, tall: bool)
    requires ValidConfig(cfg) && TimerInv(cfg, s) && FlagsInv(s.flags) && !s.flags.standby
    ensures var r := Reset(cfg, s, tall);
      Inv(cfg, r) && |r.obstacles| == 1 && r.obstacles[0] == NewObstacle(cfg, tall) &&
      r.score == 0 && r.speed == cfg.initialSpeed && r.lastMilestone == 0 &&
      r.player == Player(StandY(cfg), 0.0, false, 0) &&
      r.flags == s.flags.(active := true, reason := NoReason)
    ensures cfg.resetsSpawnTimer ==> Reset(cfg, s, tall).timer == 0 && Reset(cfg, s, tall).interval == cfg.spawn.initialAvg
    ensures !cfg.resetsSpawnTimer ==> Reset(cfg, s, tall).timer == s.timer && Reset(cfg, s, tall).interval == s.interval
    ensures Reset(cfg, s, tall).mileage == if cfg.resetUsesDefault then cfg.defaultMileage else s.initial
  {
    assert ValidGeometry(cfg.geometry);
  }

  /** The session starts in a state satisfying the invariant, with one obstacle,
      running, and either active or (with a standby screen) waiting. */
  lemma StartEstablishesInv(cfg: Config, m: int, tall: bool)
    requires ValidConfig(cfg)
    ensures var r := Start(cfg, m, tall);
      Inv(cfg, r) && r.flags.running && !r.flags.halted && r.initial == m && |r.obstacles| == 1 &&
      r.score == 0 && r.timer == 0 && r.interval == cfg.spawn.initialAvg &&
      (r.flags.active <==> !cfg.standbyAtStart) && (r.flags.standby <==> cfg.standbyAtStart)
  {
    ResetEstablishesInv(cfg, InitialVars(cfg, m), tall);
  }

  /** For the copies whose reset restores the spawn timer and the session's own
      mileage, a restart is indistinguishable from a fresh session start. */
  lemma RestartIsFreshStart(cfg: Config, s: State, tall: bool)
    requires cfg.resetsSpawnTimer && !cfg.resetUsesDefault && !cfg.standbyAtStart
    requires s.flags.running && !s.flags.standby && !s.flags.halted
    ensures Reset(cfg, s, tall) == Start(cfg, s.initial, tall)
  {
  }

  // ---------------------------------------------------------------------------
  // Jumping

  /** A jump key keeps the player on or above the ground. */
  lemma PressJumpInv(cfg: Config, p: Player, now: int)
    requires PlayerInv(cfg, p)
    ensures PlayerInv(cfg, PressJump(cfg, p, now))
  {
  }

  /** The player lands in this frame. */
  predicate Lands(cfg: Config, p: Player)
  {
    p.jumping && PlayerBottom(cfg, p.y + p.velocity + cfg.gravity) >= Ground(cfg)
  }

  /** Landing clamps the player to the ground.  With a buffer, the buffered jump
      re-fires exactly when its deadline is after `now`, and the buffer is 0
      after every landing; without one the player comes to rest. */
  lemma FallLanding(cfg: Config, p: Player, now: int)
    requires Lands(cfg, p)
    ensures var r := Fall(cfg, p, now);
      r.y == StandY(cfg) &&
      (r.jumping <==> cfg.jumpBufferMs.Some? && p.bufferExpiresAt > now) &&
      r.velocity == (if r.jumping then cfg.jumpStrength else 0.0) &&
      r.bufferExpiresAt == (if cfg.jumpBufferMs.Some? then 0 else p.bufferExpiresAt)
  {
  }

  /** In the air, gravity is added to the velocity and the velocity to the height. */
  lemma FallAirborne(cfg: Config, p: Player, now: int)
    requires p.jumping && !Lands(cfg, p)
    ensures var r := Fall(cfg, p, now);
      r.jumping && r.velocity == p.velocity + cfg.gravity && r.y == p.y + r.velocity &&
      PlayerBottom(cfg, r.y) < Ground(cfg) && r.bufferExpiresAt == p.bufferExpiresAt
  {
  }

  /** Without a jump buffer a press in the air is lost: the fall that follows
      is the same as if the key had not been pressed. */
  lemma UnbufferedAirPressIgnored(cfg: Config, p: Player, t0: int, t1: int)
    requires cfg.jumpBufferMs.None? && p.jumping
    ensures Fall(cfg, PressJump(cfg, p, t0), t1) == Fall(cfg, p, t1)
  {
  }

  /** With a jump buffer a press in the air is kept: if the jump ends at time
      `t1`, the player takes off again exactly when `t1` lies before the press
      time `t0` plus the buffer length. */
  lemma BufferedPressFires(cfg: Config, p: Player, t0: int, t1: int)
    requires cfg.jumpBufferMs.Some? && p.jumping && Lands(cfg, PressJump(cfg, p, t0))
    ensures Fall(cfg, PressJump(cfg, p, t0), t1).jumping <==> t1 < t0 + cfg.jumpBufferMs.value
    ensures Fall(cfg, PressJump(cfg, p, t0), t1).bufferExpiresAt == 0
  {
    FallLanding(cfg, PressJump(cfg, p, t0), t1);
  }

  lemma SensorJumpInv(cfg: Config, s: State, sensor: bool)
    requires Inv(cfg, s)
    ensures Inv(cfg, SensorJump(cfg, s, sensor))
  {
  }

  lemma FallInv(cfg: Config, p: Player, now: int)
    requires PlayerInv(cfg, p)
    ensures PlayerInv(cfg, Fall(cfg, p, now))
  {
    if Lands(cfg, p) {
      FallLanding(cfg, p, now);
    } else if p.jumping {
      FallAirborne(cfg, p, now);
    }
  }

  lemma PhysicsInv(cfg: Config, s: State, now: int)
    requires Inv(cfg, s)
    ensures Inv(cfg, Physics(cfg, s, now))
  {
    FallInv(cfg, s.player, now);
  }

  // ---------------------------------------------------------------------------
  // Scoring by distance

  /** The distance score keeps both fields non-negative. */
  lemma DistanceScoreInv(cfg: Config, s: State)
    requires ValidConfig(cfg) && Inv(cfg, s)
    ensures Inv(cfg, DistanceScore(cfg, s))
  {
    if cfg.scoreRule.DistanceThenPass? {
      var ppp := cfg.scoreRule.pixelsPerPoint;
      assert s.speed > 0.0 && ppp > 0.0;
      assert s.speed / ppp > 0.0;
    }
  }

  /** Under the distance rule the new score is computed from `score_float` alone,
      so the points added by passes since the last frame are discarded. */
  lemma DistanceScoreIgnoresScore(cfg: Config, s: State, k: int)
    requires ValidConfig(cfg) && cfg.scoreRule.DistanceThenPass?
    ensures DistanceScore(cfg, s).score == DistanceScore(cfg, s.(score := k)).score
  {
  }

  /** A concrete case in `SPI/jump.py`: seven pass points at the start of a game
      are gone after the next frame's distance score. */
  lemma DistanceScoreCanDecrease(g: Geometry)
    requires ValidGeometry(g)
    ensures var cfg := SpiJump(g);
      var s := Start(cfg, 500, false).(score := 7);
      DistanceScore(cfg, s).score == 0 < s.score
  {
    var cfg := SpiJump(g);
    var s := Start(cfg, 500, false).(score := 7);
    var f := s.scoreFloat + s.speed / 60.0;
    assert f == 5.0 / 60.0;
    assert 0.0 <= f < 1.0;
  }

  // ---------------------------------------------------------------------------
  // Speed ramp

  /** The ramp records the new `score // 10` milestone, changes speed only when
      the milestone rises, never lowers the speed and keeps it under its cap.
      Under the growing rule every bump strictly increases the speed; under the
      staircase rule it does so until the cap is reached. */
  lemma RampSpeedSpec(cfg: Config, s: State)
    requires ValidConfig(cfg) && SpeedInv(cfg, s) && s.score >= 0
    ensures var r := RampSpeed(cfg, s);
      r.lastMilestone == Max(s.lastMilestone, s.score / 10) &&
      r.speed >= s.speed && SpeedInv(cfg, r) &&
      (r.speed != s.speed ==> s.score / 10 > s.lastMilestone) &&
      r == s.(speed := r.speed, lastMilestone := r.lastMilestone)
    ensures cfg.speedRule.Growing? && s.score / 10 > s.lastMilestone ==> RampSpeed(cfg, s).speed > s.speed
    ensures cfg.speedRule.Staircase? && cfg.speedRule.step > 0.0 && s.speed < cfg.speedRule.cap && s.score / 10 > s.lastMilestone ==>
      RampSpeed(cfg, s).speed > s.speed
  {
    var m := s.score / 10;
    if m > s.lastMilestone {
      match cfg.speedRule
      case Staircase(step, cap) =>
      case Growing =>
        assert 0.5 * m as real >= 0.5 * s.lastMilestone as real + 0.5;
        assert 0.15 * m as real >= 0.0;
      case Unbounded(step) =>
    }
  }

  lemma RampSpeedInv(cfg: Config, s: State)
    requires ValidConfig(cfg) && Inv(cfg, s)
    ensures Inv(cfg, RampSpeed(cfg, s))
  {
    RampSpeedSpec(cfg, s);
  }

  // ---------------------------------------------------------------------------
  // Spawning

  /** Every value of `[low, high]` is what `randint` returns for some draw. */
  lemma RandIntCovers(low: int, high: int, v: int)
    requires low <= v <= high
    ensures RandInt(low, high, (v - low) as nat) == v
  {
  }

  /** The spawn countdown: the timer increments; once it passes the interval
      exactly one new obstacle is appended, the timer restarts at 0 and the new
      interval lies in `[low, high]` with `low >= absoluteMin` and
      `high >= low + margin`.  Either way `0 <= timer <= interval` afterwards. */
  lemma SpawnSpec(cfg: Config, s: State, tall: bool, draw: nat)
    requires ValidConfig(cfg) && TimerInv(cfg, s)
    ensures var r := Spawn(cfg, s, tall, draw);
      var b := SpawnBounds(cfg.spawn, s.score);
      TimerInv(cfg, r) &&
      (s.timer + 1 > s.interval ==>
         r.timer == 0 && r.obstacles == s.obstacles + [NewObstacle(cfg, tall)] &&
         b.0 <= r.interval <= b.1 && b.0 >= cfg.spawn.absoluteMin && b.1 >= b.0 + cfg.spawn.margin) &&
      (s.timer + 1 <= s.interval ==> r == s.(timer := s.timer + 1))
  {
  }

  lemma SpawnInv(cfg: Config, s: State, tall: bool, draw: nat)
    requires ValidConfig(cfg) && Inv(cfg, s)
    ensures Inv(cfg, Spawn(cfg, s, tall, draw))
  {
    SpawnSpec(cfg, s, tall, draw);
    var r := Spawn(cfg, s, tall, draw);
    if s.timer + 1 > s.interval {
      assert r.obstacles == s.obstacles + [NewObstacle(cfg, tall)];
      assert Right(cfg, NewObstacle(cfg, tall)) > 0.0;
    }
  }

  // ---------------------------------------------------------------------------
  // Advancing, scoring and reaping

  /** One obstacle's turn: it moves left by `move`, keeps its height class, is
      flagged once it is past the player, and earns points exactly when it is
      flagged in this turn, within the reward range of its height class. */
  lemma StepObstacleSpec(cfg: Config, o: Obstacle, move: real, draw: nat)
    ensures var st := StepObstacle(cfg, o, move, draw);
      var base := if o.tall then cfg.tallReward else cfg.shortReward;
      st.0.x == o.x - move && st.0.tall == o.tall &&
      (st.0.scored <==> o.scored || Right(cfg, st.0) < cfg.geometry.playerX as real) &&
      (st.1 != 0 <==> !o.scored && st.0.scored) &&
      (st.1 != 0 ==> base <= st.1 <= base + 2)
    requires cfg.shortReward >= 1 && cfg.tallReward >= 1
  {
  }

  /** Each obstacle is scored at most once: an obstacle already flagged never
      earns points again, however far it moves. */
  lemma ScoredObstacleEarnsNothing(cfg: Config, o: Obstacle, move: real, draw: nat)
    requires o.scored
    ensures StepObstacle(cfg, o, move, draw).1 == 0 && StepObstacle(cfg, o, move, draw).0.scored
  {
  }

  /** Independent description of the advance loop: move and score every obstacle... */
  function Stepped(cfg: Config, obs: seq<Obstacle>, move: real, draw: nat -> nat): (r: seq<Obstacle>)
    ensures |r| == |obs|
  {
    seq(|obs|, i requires 0 <= i < |obs| => StepObstacle(cfg, obs[i], move, draw(i)).0)
  }

  /** ...then keep, in order, those with `right > 0`. */
  function OnScreen(cfg: Config, xs: seq<Obstacle>): (r: seq<Obstacle>)
    ensures |r| <= |xs|
    decreases |xs|
  {
    if |xs| == 0 then []
    else (if Right(cfg, xs[0]) > 0.0 then [xs[0]] else []) + OnScreen(cfg, xs[1..])
  }

  lemma {:induction false} OnScreenAppend(cfg: Config, xs: seq<Obstacle>, x: Obstacle)
    ensures OnScreen(cfg, xs + [x]) == OnScreen(cfg, xs) + (if Right(cfg, x) > 0.0 then [x] else [])
    decreases |xs|
  {
    if |xs| > 0 {
      assert (xs + [x])[1..] == xs[1..] + [x];
      OnScreenAppend(cfg, xs[1..], x);
    }
  }

  /** Filtering keeps exactly the elements with `right > 0`. */
  lemma {:induction false} OnScreenMembers(cfg: Config, xs: seq<Obstacle>)
    ensures forall o :: o in OnScreen(cfg, xs) <==> o in xs && Right(cfg, o) > 0.0
    decreases |xs|
  {
    if |xs| > 0 {
      OnScreenMembers(cfg, xs[1..]);
      assert xs == [xs[0]] + xs[1..];
    }
  }

  /** Stepping a list is stepping all but its last element, then the last. */
  lemma SteppedPrefix(cfg: Config, obs: seq<Obstacle>, move: real, draw: nat -> nat)
    requires |obs| > 0
    ensures Stepped(cfg, obs, move, draw) ==
      Stepped(cfg, obs[..|obs| - 1], move, draw) + [StepObstacle(cfg, obs[|obs| - 1], move, draw(|obs| - 1)).0]
  {
    var n := |obs| - 1;
    var l := Stepped(cfg, obs, move, draw);
    var r := Stepped(cfg, obs[..n], move, draw) + [StepObstacle(cfg, obs[n], move, draw(n)).0];
    forall i | 0 <= i < |l| ensures l[i] == r[i] {
      if i < n {
        assert obs[..n][i] == obs[i];
      }
    }
  }

  /** The advance loop keeps, in their order, exactly the moved-and-scored
      obstacles that are still on screen. */
  lemma {:induction false} AdvanceIsStepThenFilter(cfg: Config, obs: seq<Obstacle>, move: real, draw: nat -> nat)
    ensures AdvanceAll(cfg, obs, move, draw).0 == OnScreen(cfg, Stepped(cfg, obs, move, draw))
    decreases |obs|
  {
    if |obs| > 0 {
      var n := |obs| - 1;
      AdvanceIsStepThenFilter(cfg, obs[..n], move, draw);
      var st := StepObstacle(cfg, obs[n], move, draw(n)).0;
      SteppedPrefix(cfg, obs, move, draw);
      OnScreenAppend(cfg, Stepped(cfg, obs[..n], move, draw), st);
    }
  }

  /** Survivors are all on screen. */
  lemma AdvanceKeepsOnScreen(cfg: Config, obs: seq<Obstacle>, move: real, draw: nat -> nat)
    ensures ObstaclesInv(cfg, AdvanceAll(cfg, obs, move, draw).0)
  {
    var kept := AdvanceAll(cfg, obs, move, draw).0;
    AdvanceIsStepThenFilter(cfg, obs, move, draw);
    OnScreenMembers(cfg, Stepped(cfg, obs, move, draw));
    assert forall i :: 0 <= i < |kept| ==> kept[i] in kept;
  }

  /** Obstacle `i` of `obs` is flagged as passed in this frame. */
  predicate FlaggedNow(cfg: Config, obs: seq<Obstacle>, move: real, draw: nat -> nat, i: int)
    requires 0 <= i < |obs|
  {
    !obs[i].scored && StepObstacle(cfg, obs[i], move, draw(i)).0.scored
  }

  /** The points an advance gains are never negative, and they are positive
      exactly when some obstacle is flagged in this frame. */
  lemma {:induction false} AdvanceGain(cfg: Config, obs: seq<Obstacle>, move: real, draw: nat -> nat)
    requires cfg.shortReward >= 1 && cfg.tallReward >= 1
    ensures AdvanceAll(cfg, obs, move, draw).1 >= 0
    ensures AdvanceAll(cfg, obs, move, draw).1 > 0 <==> exists i :: 0 <= i < |obs| && FlaggedNow(cfg, obs, move, draw, i)
    decreases |obs|
  {
    if |obs| > 0 {
      var n := |obs| - 1;
      var pre := obs[..n];
      AdvanceGain(cfg, pre, move, draw);
      StepObstacleSpec(cfg, obs[n], move, draw(n));
      assert FlaggedNow(cfg, obs, move, draw, n) <==> StepObstacle(cfg, obs[n], move, draw(n)).1 != 0;
      assert forall i :: 0 <= i < n ==> (FlaggedNow(cfg, pre, move, draw, i) <==> FlaggedNow(cfg, obs, move, draw, i)) by {
        forall i | 0 <= i < n ensures FlaggedNow(cfg, pre, move, draw, i) <==> FlaggedNow(cfg, obs, move, draw, i) {
          assert pre[i] == obs[i];
        }
      }
    }
  }

  /** An advance over obstacles that are all already scored gains nothing. */
  lemma AdvanceScoredGainsNothing(cfg: Config, obs: seq<Obstacle>, move: real, draw: nat -> nat)
    requires cfg.shortReward >= 1 && cfg.tallReward >= 1
    requires forall i :: 0 <= i < |obs| ==> obs[i].scored
    ensures AdvanceAll(cfg, obs, move, draw).1 == 0
  {
    AdvanceGain(cfg, obs, move, draw);
  }

  lemma AdvanceInv(cfg: Config, s: State, draw: nat -> nat)
    requires ValidConfig(cfg) && Inv(cfg, s)
    ensures Inv(cfg, Advance(cfg, s, draw))
    ensures Advance(cfg, s, draw).score >= s.score
  {
    AdvanceKeepsOnScreen(cfg, s.obstacles, Move(cfg, s.speed), draw);
    AdvanceGain(cfg, s.obstacles, Move(cfg, s.speed), draw);
  }

  // ---------------------------------------------------------------------------
  // Collision and mileage

  /** The state a tick reaches just before its collision check. */
  function BeforeCollision(cfg: Config, s: State, inp: FrameInput): State
    requires ValidConfig(cfg)
  {
    Advance(cfg, Spawn(cfg, RampSpeed(cfg, DistanceScore(cfg, Physics(cfg, SensorJump(cfg, s, inp.sensor), inp.now))),
                       inp.spawnTall, inp.spawnDraw), inp.rewardDraw)
  }

  /** The session part of a state: what the steps before the collision check leave alone. */
  function SessionPart(s: State): (int, int, Flags)
  {
    (s.initial, s.mileage, s.flags)
  }

  /** The steps before the collision check touch neither the session flags nor
      the mileage. */
  lemma BeforeCollisionFlags(cfg: Config, s: State, inp: FrameInput)
    requires ValidConfig(cfg)
    ensures SessionPart(BeforeCollision(cfg, s, inp)) == SessionPart(s)
  {
  }

  lemma ActiveTickUnfold(cfg: Config, s: State, inp: FrameInput)
    requires ValidConfig(cfg)
    ensures ActiveTick(cfg, s, inp) == EndCheck(cfg, CheckCollision(cfg, BeforeCollision(cfg, s, inp)))
  {
  }

  /** Collision check and mileage recompute on the state `b` they are applied to. */
  lemma EndOfTick(cfg: Config, b: State)
    requires b.flags.active
    ensures var r := EndCheck(cfg, CheckCollision(cfg, b));
      r == b.(mileage := r.mileage, flags := r.flags) &&
      r.flags.running == b.flags.running && r.flags.halted == b.flags.halted && r.flags.standby == b.flags.standby &&
      (AnyCollision(cfg, b.player.y, b.obstacles) ==>
         !r.flags.active && r.mileage == b.mileage && (cfg.recordsOutcome ==> r.flags.reason == Collision)) &&
      (!AnyCollision(cfg, b.player.y, b.obstacles) ==>
         r.mileage == Max(0, b.initial - r.score) &&
         (r.flags.active <==> b.initial - r.score > 0) &&
         (!r.flags.active && cfg.recordsOutcome ==> r.flags.reason == MileageZero))
  {
  }

  /** The end of an active tick.  A collision ends the game (with reason
      "collision" where reasons are kept) and skips the mileage recompute;
      otherwise mileage becomes `initial - score`, clamped at 0, and the game
      goes on exactly while that is positive, ending with "mileage_zero". */
  lemma TickEnd(cfg: Config, s: State, inp: FrameInput)
    requires ValidConfig(cfg) && s.flags.active
    ensures var b := BeforeCollision(cfg, s, inp);
      var r := ActiveTick(cfg, s, inp);
      r.score == b.score && r.obstacles == b.obstacles &&
      r.flags.running == s.flags.running && r.flags.halted == s.flags.halted && r.flags.standby == s.flags.standby &&
      (AnyCollision(cfg, b.player.y, b.obstacles) ==>
         !r.flags.active && r.mileage == s.mileage && (cfg.recordsOutcome ==> r.flags.reason == Collision)) &&
      (!AnyCollision(cfg, b.player.y, b.obstacles) ==>
         r.mileage == Max(0, s.initial - r.score) &&
         (r.flags.active <==> s.initial - r.score > 0) &&
         (!r.flags.active && cfg.recordsOutcome ==> r.flags.reason == MileageZero))
  {
    ActiveTickUnfold(cfg, s, inp);
    BeforeCollisionFlags(cfg, s, inp);
    EndOfTick(cfg, BeforeCollision(cfg, s, inp));
  }

  lemma BeforeCollisionInv(cfg: Config, s: State, inp: FrameInput)
    requires ValidConfig(cfg) && Inv(cfg, s)
    ensures Inv(cfg, BeforeCollision(cfg, s, inp))
    ensures BeforeCollision(cfg, s, inp).score >= DistanceScore(cfg, Physics(cfg, SensorJump(cfg, s, inp.sensor), inp.now)).score
  {
    var s1 := SensorJump(cfg, s, inp.sensor);
    SensorJumpInv(cfg, s, inp.sensor);
    var s2 := Physics(cfg, s1, inp.now);
    PhysicsInv(cfg, s1, inp.now);
    var s3 := DistanceScore(cfg, s2);
    DistanceScoreInv(cfg, s2);
    var s4 := RampSpeed(cfg, s3);
    RampSpeedSpec(cfg, s3);
    var s5 := Spawn(cfg, s4, inp.spawnTall, inp.spawnDraw);
    SpawnInv(cfg, s4, inp.spawnTall, inp.spawnDraw);
    AdvanceInv(cfg, s5, inp.rewardDraw);
  }

  /** Under pass-only scoring the score never decreases during a tick. */
  lemma PassOnlyScoreMonotone(cfg: Config, s: State, inp: FrameInput)
    requires ValidConfig(cfg) && Inv(cfg, s) && cfg.scoreRule.PassOnly? && s.flags.active
    ensures ActiveTick(cfg, s, inp).score >= s.score
  {
    BeforeCollisionInv(cfg, s, inp);
    TickEnd(cfg, s, inp);
  }

  lemma ActiveTickInv(cfg: Config, s: State, inp: FrameInput)
    requires ValidConfig(cfg) && Inv(cfg, s) && s.flags.active
    ensures Inv(cfg, ActiveTick(cfg, s, inp))
    ensures ActiveTick(cfg, s, inp).flags.running == s.flags.running && ActiveTick(cfg, s, inp).flags.halted == s.flags.halted
  {
    BeforeCollisionInv(cfg, s, inp);
    BeforeCollisionFlags(cfg, s, inp);
    ActiveTickUnfold(cfg, s, inp);
    EndOfTick(cfg, BeforeCollision(cfg, s, inp));
  }

  /** A sensor reading changes nothing in a frame where it cannot start a jump:
      in a copy without a sensor, while the player is in the air, or when the
      game is not being played. */
  lemma SensorIgnoredInAir(cfg: Config, s: State, inp: FrameInput)
    requires ValidConfig(cfg) && (!cfg.sensorJump || s.player.jumping || !s.flags.active)
    ensures ActiveTick(cfg, s, inp.(sensor := true)) == ActiveTick(cfg, s, inp.(sensor := false))
  {
  }

  /** The obstacles never slow down during a tick. */
  lemma TickSpeedMonotone(cfg: Config, s: State, inp: FrameInput)
    requires ValidConfig(cfg) && Inv(cfg, s) && s.flags.active
    ensures ActiveTick(cfg, s, inp).speed >= s.speed
  {
    var s1 := SensorJump(cfg, s, inp.sensor);
    SensorJumpInv(cfg, s, inp.sensor);
    var s2 := Physics(cfg, s1, inp.now);
    PhysicsInv(cfg, s1, inp.now);
    var s3 := DistanceScore(cfg, s2);
    DistanceScoreInv(cfg, s2);
    assert s3.speed == s.speed;
    var s4 := RampSpeed(cfg, s3);
    RampSpeedSpec(cfg, s3);
    var s5 := Spawn(cfg, s4, inp.spawnTall, inp.spawnDraw);
    var b := Advance(cfg, s5, inp.rewardDraw);
    assert b.speed == s5.speed == s4.speed;
    assert b == BeforeCollision(cfg, s, inp);
    BeforeCollisionFlags(cfg, s, inp);
    ActiveTickUnfold(cfg, s, inp);
    EndOfTick(cfg, b);
  }

  // ---------------------------------------------------------------------------
  // Events, quitting and the game-over screen

  lemma {:induction false} ApplyEventsInv(cfg: Config, s: State, evs: seq<Event>, now: int, tall: bool)
    requires ValidConfig(cfg) && Inv(cfg, s) && !s.flags.standby
    ensures Inv(cfg, ApplyEvents(cfg, s, evs, now, tall)) && !ApplyEvents(cfg, s, evs, now, tall).flags.standby
    decreases |evs|
  {
    if |evs| > 0 {
      match evs[0]
      case WindowClose =>
        if !cfg.quitRule.Immediate? {
          ApplyEventsInv(cfg, s.(flags := CloseEvent(cfg, s.flags)), evs[1..], now, tall);
        }
      case KeyDown(k) =>
        if s.flags.active && k in cfg.jumpKeys {
          PressJumpInv(cfg, s.player, now);
        } else if !s.flags.active && cfg.keysWhileOver && k == KeyR {
          ResetEstablishesInv(cfg, s, tall);
        }
        ApplyEventsInv(cfg, KeyEvent(cfg, s, k, now, tall), evs[1..], now, tall);
    }
  }

  /** Once the loop flag is cleared, no later event sets it again. */
  lemma {:induction false} ApplyEventsKeepsStopped(cfg: Config, s: State, evs: seq<Event>, now: int, tall: bool)
    requires !s.flags.running
    ensures !ApplyEvents(cfg, s, evs, now, tall).flags.running
    decreases |evs|
  {
    if |evs| > 0 {
      match evs[0]
      case WindowClose =>
        if !cfg.quitRule.Immediate? {
          ApplyEventsKeepsStopped(cfg, s.(flags := CloseEvent(cfg, s.flags)), evs[1..], now, tall);
        }
      case KeyDown(k) =>
        ApplyEventsKeepsStopped(cfg, KeyEvent(cfg, s, k, now, tall), evs[1..], now, tall);
    }
  }

  /** Events keep the speed unless one of them is an R that restarts a finished game. */
  lemma {:induction false} ApplyEventsKeepsSpeed(cfg: Config, s: State, evs: seq<Event>, now: int, tall: bool)
    requires !(cfg.keysWhileOver && KeyDown(KeyR) in evs)
    ensures ApplyEvents(cfg, s, evs, now, tall).speed == s.speed
    decreases |evs|
  {
    if |evs| > 0 {
      assert evs == [evs[0]] + evs[1..];
      match evs[0]
      case WindowClose =>
        if !cfg.quitRule.Immediate? {
          ApplyEventsKeepsSpeed(cfg, s.(flags := CloseEvent(cfg, s.flags)), evs[1..], now, tall);
        }
      case KeyDown(k) =>
        ApplyEventsKeepsSpeed(cfg, KeyEvent(cfg, s, k, now, tall), evs[1..], now, tall);
    }
  }

  /** No event of the frame loop halts the program. */
  lemma {:induction false} ApplyEventsKeepsHalted(cfg: Config, s: State, evs: seq<Event>, now: int, tall: bool)
    ensures ApplyEvents(cfg, s, evs, now, tall).flags.halted == s.flags.halted
    decreases |evs|
  {
    if |evs| > 0 {
      match evs[0]
      case WindowClose =>
        if !cfg.quitRule.Immediate? {
          ApplyEventsKeepsHalted(cfg, s.(flags := CloseEvent(cfg, s.flags)), evs[1..], now, tall);
        }
      case KeyDown(k) =>
        ApplyEventsKeepsHalted(cfg, KeyEvent(cfg, s, k, now, tall), evs[1..], now, tall);
    }
  }

  /** A window close anywhere in the queue clears the loop flag. */
  lemma {:induction false} ApplyEventsCloseStops(cfg: Config, s: State, evs: seq<Event>, now: int, tall: bool)
    requires WindowClose in evs
    ensures !ApplyEvents(cfg, s, evs, now, tall).flags.running
    decreases |evs|
  {
    match evs[0]
    case WindowClose =>
      if !cfg.quitRule.Immediate? {
        ApplyEventsKeepsStopped(cfg, s.(flags := CloseEvent(cfg, s.flags)), evs[1..], now, tall);
      }
    case KeyDown(k) =>
      assert WindowClose in evs[1..];
      ApplyEventsCloseStops(cfg, KeyEvent(cfg, s, k, now, tall), evs[1..], now, tall);
  }

  /** With the immediate rule, the first window close ends the event loop: the
      events after it are dropped and the frame stops there, with reason
      "quit_event" and no tick. */
  lemma ImmediateCloseSkipsTick(cfg: Config, s: State, inp: FrameInput, k: nat)
    requires ValidConfig(cfg) && ValidChoice(cfg, inp.choice) && cfg.quitRule.Immediate? && !s.flags.standby
    requires k < |inp.events| && inp.events[k] == WindowClose
    requires forall j :: 0 <= j < k ==> inp.events[j] != WindowClose
    ensures var before := ApplyEvents(cfg, s, inp.events[..k], inp.now, inp.resetTall);
      Frame(cfg, s, inp) == before.(flags := before.flags.(running := false, reason := QuitEvent,
                                                           active := if cfg.quitRule.clearsActive then false else before.flags.active))
  {
    ApplyEventsPrefixClose(cfg, s, inp.events, inp.now, inp.resetTall, k);
  }

  lemma {:induction false} ApplyEventsPrefixClose(cfg: Config, s: State, evs: seq<Event>, now: int, tall: bool, k: nat)
    requires cfg.quitRule.Immediate?
    requires k < |evs| && evs[k] == WindowClose
    requires forall j :: 0 <= j < k ==> evs[j] != WindowClose
    ensures var before := ApplyEvents(cfg, s, evs[..k], now, tall);
      ApplyEvents(cfg, s, evs, now, tall) == before.(flags := CloseEvent(cfg, before.flags))
    decreases k
  {
    if k > 0 {
      assert evs[0] != WindowClose;
      var s1 := KeyEvent(cfg, s, evs[0].key, now, tall);
      ApplyEventsPrefixClose(cfg, s1, evs[1..], now, tall, k - 1);
      assert evs[..k][1..] == evs[1..][..k - 1];
    }
  }

  /** The standby screen runs no simulation: only the waiting, active and loop
      flags can change, the game is waiting or active but not both, and a close
      stops the loop. */
  lemma {:induction false} StandbyEventsOnlyFlags(cfg: Config, f: Flags, evs: seq<Event>)
    ensures var r := StandbyEvents(cfg, f, evs);
      r.reason == f.reason && r.halted == f.halted &&
      (f.standby != f.active ==> r.standby != r.active) &&
      (!f.running || WindowClose in evs ==> !r.running) &&
      (r.running ==> f.running)
    decreases |evs|
  {
    if |evs| > 0 {
      StandbyEventsOnlyFlags(cfg, StandbyEvent(cfg, f, evs[0]), evs[1..]);
      assert evs == [evs[0]] + evs[1..];
    }
  }

  /** A standby frame changes nothing but the flags; the button or a jump key
      starts the game. */
  lemma StandbyFrameSpec(cfg: Config, s: State, inp: FrameInput)
    requires FlagsInv(s.flags) && s.flags.standby
    ensures var r := StandbyFrame(cfg, s, inp);
      r == s.(flags := r.flags) && FlagsInv(r.flags) && r.flags.standby != r.flags.active &&
      (inp.sensor ==> r.flags.active) &&
      (WindowClose in inp.events ==> !r.flags.running)
  {
    StandbyEventsOnlyFlags(cfg, s.flags, inp.events);
  }

  lemma GameOverInv(cfg: Config, s: State, c: GameOverChoice, tall: bool)
    requires ValidConfig(cfg) && ValidChoice(cfg, c) && Inv(cfg, s) && !s.flags.standby
    ensures Inv(cfg, GameOver(cfg, s, c, tall))
  {
    if c == Restart {
      ResetEstablishesInv(cfg, s, tall);
    }
  }

  /** Every frame preserves the invariant. */
  lemma FramePreservesInv(cfg: Config, s: State, inp: FrameInput)
    requires ValidConfig(cfg) && ValidChoice(cfg, inp.choice) && Inv(cfg, s)
    ensures Inv(cfg, Frame(cfg, s, inp))
  {
    if s.flags.standby {
      StandbyFrameSpec(cfg, s, inp);
    } else {
      var s1 := ApplyEvents(cfg, s, inp.events, inp.now, inp.resetTall);
      ApplyEventsInv(cfg, s, inp.events, inp.now, inp.resetTall);
      if cfg.quitRule.Immediate? && !s1.flags.running {
      } else if s1.flags.active {
        ActiveTickInv(cfg, s1, inp);
      } else {
        GameOverInv(cfg, s1, inp.choice, inp.resetTall);
      }
    }
  }

  /** The obstacles never slow down in a frame that does not restart the game. */
  lemma FrameSpeedMonotone(cfg: Config, s: State, inp: FrameInput)
    requires ValidConfig(cfg) && ValidChoice(cfg, inp.choice) && Inv(cfg, s)
    requires inp.choice != Restart && !(cfg.keysWhileOver && KeyDown(KeyR) in inp.events)
    ensures Frame(cfg, s, inp).speed >= s.speed
  {
    if !s.flags.standby {
      var s1 := ApplyEvents(cfg, s, inp.events, inp.now, inp.resetTall);
      ApplyEventsKeepsSpeed(cfg, s, inp.events, inp.now, inp.resetTall);
      if !(cfg.quitRule.Immediate? && !s1.flags.running) && s1.flags.active {
        ApplyEventsInv(cfg, s, inp.events, inp.now, inp.resetTall);
        TickSpeedMonotone(cfg, s1, inp);
      }
    }
  }

  /** Only the game-over screen of a copy that calls `sys.exit()` on a window
      close halts the program. */
  lemma FrameHalts(cfg: Config, s: State, inp: FrameInput)
    requires ValidConfig(cfg) && ValidChoice(cfg, inp.choice)
    ensures Frame(cfg, s, inp).flags.halted ==> s.flags.halted || cfg.closeRule.Halt?
  {
    if s.flags.standby {
      StandbyEventsOnlyFlags(cfg, s.flags, inp.events);
    } else {
      var s1 := ApplyEvents(cfg, s, inp.events, inp.now, inp.resetTall);
      ApplyEventsKeepsHalted(cfg, s, inp.events, inp.now, inp.resetTall);
      if !(cfg.quitRule.Immediate? && !s1.flags.running) && s1.flags.active {
        TickEnd(cfg, s1, inp);
      }
    }
  }

  /** A window close in a frame's queue always ends the session after that frame. */
  lemma CloseEndsSession(cfg: Config, s: State, inp: FrameInput)
    requires ValidConfig(cfg) && ValidChoice(cfg, inp.choice) && WindowClose in inp.events
    requires FlagsInv(s.flags)
    ensures !Frame(cfg, s, inp).flags.running
  {
    if s.flags.standby {
      StandbyFrameSpec(cfg, s, inp);
    } else {
      var s1 := ApplyEvents(cfg, s, inp.events, inp.now, inp.resetTall);
      ApplyEventsCloseStops(cfg, s, inp.events, inp.now, inp.resetTall);
      if !(cfg.quitRule.Immediate? && !s1.flags.running) && s1.flags.active {
        TickEnd(cfg, s1, inp);
      }
    }
  }

  /** A key press on a finished game does nothing in a copy whose frame loop
      ignores keys while the game is over. */
  lemma {:induction false} ApplyEventsWhileOver(cfg: Config, s: State, evs: seq<Event>, now: int, tall: bool)
    requires !s.flags.active && !cfg.keysWhileOver
    ensures !ApplyEvents(cfg, s, evs, now, tall).flags.active
    decreases |evs|
  {
    if |evs| > 0 {
      match evs[0]
      case WindowClose =>
        if !cfg.quitRule.Immediate? {
          ApplyEventsWhileOver(cfg, s.(flags := CloseEvent(cfg, s.flags)), evs[1..], now, tall);
        }
      case KeyDown(k) =>
        ApplyEventsWhileOver(cfg, KeyEvent(cfg, s, k, now, tall), evs[1..], now, tall);
    }
  }

  /** In a copy without restart (`hdmi_game_engine.py`, `SPI_v2/game.py`) the
      first frame after the game ends also ends the session. */
  lemma GameOverNeverRestarts(cfg: Config, s: State, inp: FrameInput)
    requires ValidConfig(cfg) && ValidChoice(cfg, inp.choice)
    requires !cfg.restartOffered && !cfg.keysWhileOver && !s.flags.active && !s.flags.standby
    ensures !Frame(cfg, s, inp).flags.running
  {
    ApplyEventsWhileOver(cfg, s, inp.events, inp.now, inp.resetTall);
  }

  /** The copies offering R on the game-over screen restart with the session's
      own mileage, a single obstacle and a zero score. */
  lemma GameOverRestart(cfg: Config, s: State, tall: bool)
    requires ValidConfig(cfg) && cfg.restartOffered && TimerInv(cfg, s) && FlagsInv(s.flags) && !s.flags.standby
    ensures var r := GameOver(cfg, s, Restart, tall);
      r.flags.active && r.score == 0 && |r.obstacles| == 1 && r.flags.running == s.flags.running && Inv(cfg, r) &&
      r.mileage == (if cfg.resetUsesDefault then cfg.defaultMileage else s.initial)
  {
    ResetEstablishesInv(cfg, s, tall);
  }

  // ---------------------------------------------------------------------------
  // Whole sessions

  lemma {:induction false} RunFramesPreservesInv(cfg: Config, s: State, frames: seq<FrameInput>)
    requires ValidConfig(cfg) && ValidInputs(cfg, frames) && Inv(cfg, s)
    ensures Inv(cfg, RunFrames(cfg, s, frames))
    decreases |frames|
  {
    if s.flags.running && |frames| > 0 {
      FramePreservesInv(cfg, s, frames[0]);
      assert ValidInputs(cfg, frames[1..]) by {
        forall i | 0 <= i < |frames[1..]| ensures ValidChoice(cfg, frames[1..][i].choice) {
          assert frames[1..][i] == frames[i + 1];
        }
      }
      RunFramesPreservesInv(cfg, Frame(cfg, s, frames[0]), frames[1..]);
    }
  }

  lemma {:induction false} RunFramesHalts(cfg: Config, s: State, frames: seq<FrameInput>)
    requires ValidConfig(cfg) && ValidInputs(cfg, frames)
    ensures RunFrames(cfg, s, frames).flags.halted ==> s.flags.halted || cfg.closeRule.Halt?
    decreases |frames|
  {
    if s.flags.running && |frames| > 0 {
      FrameHalts(cfg, s, frames[0]);
      assert ValidInputs(cfg, frames[1..]) by {
        forall i | 0 <= i < |frames[1..]| ensures ValidChoice(cfg, frames[1..][i].choice) {
          assert frames[1..][i] == frames[i + 1];
        }
      }
      RunFramesHalts(cfg, Frame(cfg, s, frames[0]), frames[1..]);
    }
  }

  /** What a session hands back.  A copy that checks readiness and is not
      ready returns the early dictionary (HDMI engines) or nothing.  Otherwise
      the HDMI engines return a dictionary with a non-negative score; the
      other copies return nothing, except that the process ends where the
      copy calls `sys.exit()`: always in `SPI/jump.py`, and on a window close
      on the game-over screen where that screen halts. */
  lemma RunGameOutcome(cfg: Config, ready: bool, m: int, tall: bool, frames: seq<FrameInput>)
    requires ValidConfig(cfg) && ValidInputs(cfg, frames)
    ensures var o := RunGame(cfg, ready, m, tall, frames);
      (cfg.checksReady && !ready ==> o == if cfg.result.ReturnsDict? then NotInitialized(m) else NoResult) &&
      (o.NotInitialized? ==> cfg.result.ReturnsDict? && o.initialMileage == m) &&
      (o.Finished? ==> cfg.result.ReturnsDict? && o.score >= 0) &&
      (o.Exited? ==> cfg.result.ExitsProcess? || cfg.closeRule.Halt?) &&
      (o.NoResult? ==> !cfg.result.ReturnsDict?)
    ensures var o := RunGame(cfg, ready, m, tall, frames);
      (ready || !cfg.checksReady) ==>
        (cfg.result.ExitsProcess? ==> o == Exited) &&
        (cfg.result.ReturnsDict? && !cfg.closeRule.Halt? ==> o.Finished?)
  {
    StartEstablishesInv(cfg, m, tall);
    RunFramesPreservesInv(cfg, Start(cfg, m, tall), frames);
    RunFramesHalts(cfg, Start(cfg, m, tall), frames);
  }

  // ---------------------------------------------------------------------------
  // A later call of `game()` in SPI_v2/game.py

  /** As the code is written: once a session has ended with `running` cleared,
      a later call starts from `CarriedStart` and plays no frame at all; it
      hands back the reset fields unchanged. */
  lemma SecondCallSkipped(cfg: Config, first: State, m: int, tall: bool, frames: seq<FrameInput>)
    requires ValidConfig(cfg) && ValidInputs(cfg, frames) && !first.flags.running
    ensures var s := CarriedStart(cfg, first, m, tall);
      !s.flags.running && RunFrames(cfg, s, frames) == s
  {
  }

  /** The input that shows it, for `SPI_v2/game.py`: a first game whose first
      frame holds a window close ends with `running` cleared, and a second call
      then skips its frames, however many there are. */
  lemma ClosedGameSkipsNextCall(g: Geometry, m1: int, t1: bool, f: FrameInput,
                                m2: int, t2: bool, frames: seq<FrameInput>)
    requires ValidGeometry(g) && ValidChoice(V2Game(g), f.choice) && WindowClose in f.events
    requires ValidInputs(V2Game(g), frames)
    ensures var first := RunFrames(V2Game(g), Start(V2Game(g), m1, t1), [f]);
      var s := CarriedStart(V2Game(g), first, m2, t2);
      !first.flags.running && RunFrames(V2Game(g), s, frames) == s
  {
    var cfg := V2Game(g);
    VariantsValid(g);
    var s0 := Start(cfg, m1, t1);
    StartEstablishesInv(cfg, m1, t1);
    CloseEndsSession(cfg, s0, f);
    assert [f][1..] == [];
    var s1 := Frame(cfg, s0, f);
    assert RunFrames(cfg, s1, []) == s1;
    var first := RunFrames(cfg, s0, [f]);
    assert first == RunFrames(cfg, s1, [f][1..]);
    SecondCallSkipped(cfg, first, m2, t2, frames);
  }

  /** As intended (every call a fresh start, `running` set again): a later call
      plays its frames whatever the previous session left, taking at least the
      first one. */
  lemma SecondCallPlays(cfg: Config, m: int, tall: bool, frames: seq<FrameInput>)
    requires ValidConfig(cfg) && ValidInputs(cfg, frames) && |frames| > 0
    ensures var s := Start(cfg, m, tall);
      s.flags.running && RunFrames(cfg, s, frames) == RunFrames(cfg, Frame(cfg, s, frames[0]), frames[1..])
  {
    StartEstablishesInv(cfg, m, tall);
  }
}
