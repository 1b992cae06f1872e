/** The game session as the source writes it: an object whose fields the frame
    loop updates in place.  Every method is proved to perform exactly the rule
    of the same name in `GameRules`, so what `GameProofs` proves about the rules
    holds of the session's fields. */
module GameSession {
  import opened GameConfig
  import opened GameRules
  import opened GameProofs

  class Session {
    const cfg: Config
    var initial: int
    var player: Player        // player_rect.y, player_y_velocity, is_jumping, jump_buffer_expires_at
    var obstacles: seq<Obstacle>
    var score: int
    var scoreFloat: real
    var speed: real
    var lastMilestone: int
    var mileage: int
    var timer: int
    var interval: int
    var flags: Flags          // game_active, game_over_reason and the loop's flags

    /** The fields as one value of the rules' state. */
    ghost function Snapshot(): State
      reads this
    {
      State(initial, player, obstacles, score, scoreFloat, speed, lastMilestone, mileage, timer, interval, flags)
    }

    /** The copy's constants are sound and the session invariant holds. */
    ghost predicate Valid()
      reads this
    {
      ValidConfig(cfg) && Inv(cfg, Snapshot())
    }

    /** The state vars are initialised, then the game is reset for mileage `m`
        (and, with a standby screen, put on standby). */
    constructor (cfg: Config, m: int, tall: bool)
      requires ValidConfig(cfg)
      ensures this.cfg == cfg
      ensures Snapshot() == Start(cfg, m, tall)
      ensures Valid()
    {
      this.cfg := cfg;
      initial := m;
      player := Standing(cfg);
      obstacles := [NewObstacle(cfg, tall)];
      score, scoreFloat := 0, 0.0;
      speed, lastMilestone := cfg.initialSpeed, 0;
      mileage := if cfg.resetUsesDefault then cfg.defaultMileage else m;
      timer, interval := 0, cfg.spawn.initialAvg;
      flags := Flags(!cfg.standbyAtStart, NoReason, true, cfg.standbyAtStart, false);
      new;
      StartEstablishesInv(cfg, m, tall);
    }

    /** Put the player back on the ground, clear the obstacles down to one fresh
        one, zero the score and make the game active. */
    method ResetGame(tall: bool)
      modifies this
      ensures Snapshot() == Reset(cfg, old(Snapshot()), tall)
    {
      player := Standing(cfg);
      obstacles, score, scoreFloat := [NewObstacle(cfg, tall)], 0, 0.0;
      speed, lastMilestone := cfg.initialSpeed, 0;
      mileage := if cfg.resetUsesDefault then cfg.defaultMileage else initial;
      if cfg.resetsSpawnTimer {
        timer, interval := 0, cfg.spawn.initialAvg;
      }
      flags := flags.(active := true, reason := NoReason);
    }

    /** A jump key while playing. */
    method HandleJump(now: int)
      modifies this
      ensures Snapshot() == old(Snapshot()).(player := PressJump(cfg, old(player), now))
    {
      if !player.jumping {
        player := player.(jumping := true, velocity := cfg.jumpStrength);
        if cfg.jumpBufferMs.Some? {
          player := player.(bufferExpiresAt := 0);
        }
      } else if cfg.jumpBufferMs.Some? {
        player := player.(bufferExpiresAt := now + cfg.jumpBufferMs.value);
      }
    }

    /** One key press read by the frame loop. */
    method HandleKey(k: Key, now: int, tall: bool)
      modifies this
      ensures Snapshot() == KeyEvent(cfg, old(Snapshot()), k, now, tall)
    {
      if flags.active {
        if k in cfg.jumpKeys {
          HandleJump(now);
        }
      } else if cfg.keysWhileOver {
        if k == KeyR {
          ResetGame(tall);
        } else if k == KeyQ {
          flags := flags.(running := false);
        }
      }
    }

    /** A window close read by the frame loop. */
    method HandleClose()
      modifies this
      ensures Snapshot() == old(Snapshot()).(flags := CloseEvent(cfg, old(flags)))
    {
      flags := flags.(running := false);
      if cfg.quitRule.Immediate? {
        if cfg.quitRule.clearsActive {
          flags := flags.(active := false);
        }
        flags := flags.(reason := QuitEvent);
      }
    }

    /** The event loop at the top of a frame. */
    method HandleEvents(evs: seq<Event>, now: int, tall: bool)
      modifies this
      ensures Snapshot() == ApplyEvents(cfg, old(Snapshot()), evs, now, tall)
    {
      var i := 0;
      while i < |evs|
        invariant 0 <= i <= |evs|
        invariant ApplyEvents(cfg, old(Snapshot()), evs, now, tall) == ApplyEvents(cfg, Snapshot(), evs[i..], now, tall)
        decreases |evs| - i
      {
        assert evs[i..][1..] == evs[i + 1..];
        match evs[i] {
          case WindowClose =>
            HandleClose();
            if cfg.quitRule.Immediate? {
              return;
            }
          case KeyDown(k) =>
            HandleKey(k, now, tall);
        }
        i := i + 1;
      }
    }

    /** The standby screen: its event loop, then the button. */
    method StandbyStep(inp: FrameInput)
      modifies this
      ensures Snapshot() == StandbyFrame(cfg, old(Snapshot()), inp)
    {
      var i := 0;
      while i < |inp.events|
        invariant 0 <= i <= |inp.events|
        invariant StandbyEvents(cfg, old(flags), inp.events) == StandbyEvents(cfg, flags, inp.events[i..])
        invariant Snapshot() == old(Snapshot()).(flags := flags)
        decreases |inp.events| - i
      {
        assert inp.events[i..][1..] == inp.events[i + 1..];
        match inp.events[i] {
          case WindowClose =>
            flags := flags.(running := false);
          case KeyDown(k) =>
            if k in cfg.jumpKeys {
              flags := flags.(standby := false, active := true);
            }
        }
        i := i + 1;
      }
      if inp.sensor {
        flags := flags.(standby := false, active := true);
      }
    }

    method SensorStep(sensor: bool)
      modifies this
      ensures Snapshot() == SensorJump(cfg, old(Snapshot()), sensor)
    {
      if cfg.sensorJump && sensor && flags.active && !player.jumping {
        player := player.(jumping := true, velocity := cfg.jumpStrength);
      }
    }

    method PhysicsStep(now: int)
      modifies this
      ensures Snapshot() == Physics(cfg, old(Snapshot()), now)
    {
      if player.jumping {
        player := player.(velocity := player.velocity + cfg.gravity);
        player := player.(y := player.y + player.velocity);
        if PlayerBottom(cfg, player.y) >= Ground(cfg) {
          player := player.(y := StandY(cfg), jumping := false, velocity := 0.0);
          if cfg.jumpBufferMs.Some? {
            if player.bufferExpiresAt > now {
              player := player.(jumping := true, velocity := cfg.jumpStrength);
            }
            player := player.(bufferExpiresAt := 0);
          }
        }
      }
    }

    method DistanceStep()
      requires ValidConfig(cfg)
      modifies this
      ensures Snapshot() == DistanceScore(cfg, old(Snapshot()))
    {
      if cfg.scoreRule.DistanceThenPass? {
        scoreFloat := scoreFloat + speed / cfg.scoreRule.pixelsPerPoint;
        score := Trunc(scoreFloat);
      }
    }

    method RampStep()
      modifies this
      ensures Snapshot() == RampSpeed(cfg, old(Snapshot()))
    {
      var m := score / 10;
      if m > lastMilestone {
        speed := Bumped(cfg, speed, m);
        lastMilestone := m;
      }
    }

    method SpawnStep(tall: bool, draw: nat)
      requires ValidConfig(cfg)
      modifies this
      ensures Snapshot() == Spawn(cfg, old(Snapshot()), tall, draw)
    {
      timer := timer + 1;
      if timer > interval {
        obstacles := obstacles + [NewObstacle(cfg, tall)];
        timer := 0;
        var b := SpawnBounds(cfg.spawn, score);
        interval := RandInt(b.0, b.1, draw);
      }
    }

    /** The advance loop over the obstacle list: each obstacle moves left by
        `move` and is scored once when past the player; the survivors are those
        with a positive right edge, in their order. */
    static method AdvanceAndReap(cfg: Config, obs: seq<Obstacle>, move: real, draw: nat -> nat)
      returns (kept: seq<Obstacle>, gained: int)
      requires cfg.shortReward >= 1 && cfg.tallReward >= 1
      ensures (kept, gained) == AdvanceAll(cfg, obs, move, draw)
      ensures kept == OnScreen(cfg, Stepped(cfg, obs, move, draw))
      ensures ObstaclesInv(cfg, kept) && gained >= 0
      ensures gained > 0 <==> exists i :: 0 <= i < |obs| && FlaggedNow(cfg, obs, move, draw, i)
    {
      kept, gained := [], 0;
      var i := 0;
      while i < |obs|
        invariant 0 <= i <= |obs|
        invariant (kept, gained) == AdvanceAll(cfg, obs[..i], move, draw)
      {
        var o := obs[i].(x := obs[i].x - move);
        if !o.scored && Right(cfg, o) < cfg.geometry.playerX as real {
          gained := gained + Reward(cfg, o.tall, draw(i));
          o := o.(scored := true);
        }
        if Right(cfg, o) > 0.0 {
          kept := kept + [o];
        }
        assert obs[..i + 1][..i] == obs[..i];
        i := i + 1;
      }
      assert obs[..i] == obs;
      AdvanceIsStepThenFilter(cfg, obs, move, draw);
      AdvanceKeepsOnScreen(cfg, obs, move, draw);
      AdvanceGain(cfg, obs, move, draw);
    }

    method AdvanceStep(draw: nat -> nat)
      requires ValidConfig(cfg)
      modifies this
      ensures Snapshot() == Advance(cfg, old(Snapshot()), draw)
    {
      var kept, gained := AdvanceAndReap(cfg, obstacles, Move(cfg, speed), draw);
      obstacles := kept;
      score := score + gained;
    }

    /** The collision loop: stops at the first obstacle the player overlaps. */
    static method DetectCollision(cfg: Config, y: real, obs: seq<Obstacle>) returns (hit: bool)
      ensures hit <==> exists i :: 0 <= i < |obs| && Collides(cfg, y, obs[i])
    {
      hit := false;
      var i := 0;
      while i < |obs|
        invariant 0 <= i <= |obs|
        invariant forall j :: 0 <= j < i ==> !Collides(cfg, y, obs[j])
      {
        if Collides(cfg, y, obs[i]) {
          return true;
        }
        i := i + 1;
      }
    }

    method CollisionStep()
      modifies this
      ensures Snapshot() == CheckCollision(cfg, old(Snapshot()))
    {
      var hit := DetectCollision(cfg, player.y, obstacles);
      if hit {
        flags := flags.(active := false);
        if cfg.recordsOutcome {
          flags := flags.(reason := Collision);
        }
      }
    }

    method MileageStep()
      modifies this
      ensures Snapshot() == EndCheck(cfg, old(Snapshot()))
    {
      if flags.active {
        mileage := initial - score;
        if mileage <= 0 {
          mileage := 0;
          flags := flags.(active := false);
          if cfg.recordsOutcome {
            flags := flags.(reason := MileageZero);
          }
        }
      }
    }

    /** The update of a frame in which the game is active. */
    method Tick(inp: FrameInput)
      requires ValidConfig(cfg)
      modifies this
      ensures Snapshot() == ActiveTick(cfg, old(Snapshot()), inp)
    {
      SensorStep(inp.sensor);
      PhysicsStep(inp.now);
      DistanceStep();
      RampStep();
      SpawnStep(inp.spawnTall, inp.spawnDraw);
      AdvanceStep(inp.rewardDraw);
      CollisionStep();
      MileageStep();
    }

    /** What the game-over screen's answer does to the session. */
    method GameOverStep(c: GameOverChoice, tall: bool)
      requires ValidChoice(cfg, c)
      modifies this
      ensures Snapshot() == GameOver(cfg, old(Snapshot()), c, tall)
    {
      match c
      case Restart =>
        ResetGame(tall);
      case Quit =>
        flags := flags.(running := false);
      case CloseWindow =>
        flags := flags.(running := false);
        match cfg.closeRule
        case RecordQuit => flags := flags.(reason := QuitEvent);
        case Halt => flags := flags.(halted := true);
        case StopLoop =>
    }

    /** One iteration of the session loop; it keeps the session invariant. */
    method Step(inp: FrameInput)
      requires ValidConfig(cfg) && ValidChoice(cfg, inp.choice)
      modifies this
      ensures Snapshot() == Frame(cfg, old(Snapshot()), inp)
      ensures old(Valid()) ==> Valid()
    {
      ghost var s0 := Snapshot();
      if flags.standby {
        StandbyStep(inp);
      } else {
        HandleEvents(inp.events, inp.now, inp.resetTall);
        if !(cfg.quitRule.Immediate? && !flags.running) {
          if flags.active {
            Tick(inp);
          } else {
            GameOverStep(inp.choice, inp.resetTall);
          }
        }
      }
      if Inv(cfg, s0) {
        FramePreservesInv(cfg, s0, inp);
      }
    }

    /** The session loop over a finite run of frames; it stops once its flag is
        cleared and keeps the session invariant throughout. */
    method Run(frames: seq<FrameInput>)
      requires ValidConfig(cfg) && ValidInputs(cfg, frames)
      modifies this
      ensures Snapshot() == RunFrames(cfg, old(Snapshot()), frames)
      ensures old(Valid()) ==> Valid()
    {
      var i := 0;
      while flags.running && i < |frames|
        invariant 0 <= i <= |frames|
        invariant RunFrames(cfg, old(Snapshot()), frames) == RunFrames(cfg, Snapshot(), frames[i..])
        invariant old(Valid()) ==> Valid()
        decreases |frames| - i
      {
        assert frames[i..][1..] == frames[i + 1..];
        Step(frames[i]);
        i := i + 1;
      }
    }

    /** The session function: a copy that checks readiness returns at once
        when not ready; otherwise a fresh session is played over `frames`, and
        the copy returns its score, final mileage and reason, returns nothing,
        or has ended the process. */
    static method PlayGame(cfg: Config, ready: bool, m: int, tall: bool, frames: seq<FrameInput>)
      returns (o: Outcome)
      requires ValidConfig(cfg) && ValidInputs(cfg, frames)
      ensures o == RunGame(cfg, ready, m, tall, frames)
      ensures o.NotInitialized? <==> cfg.result.ReturnsDict? && cfg.checksReady && !ready
      ensures o.Finished? ==> o.score >= 0
      ensures (ready || !cfg.checksReady) && cfg.result.ReturnsDict? && !cfg.closeRule.Halt? ==> o.Finished?
    {
      RunGameOutcome(cfg, ready, m, tall, frames);
      if cfg.checksReady && !ready {
        if cfg.result.ReturnsDict? {
          return NotInitialized(m);
        }
        return NoResult;
      }
      var s := new Session(cfg, m, tall);
      s.Run(frames);
      if s.flags.halted || cfg.result.ExitsProcess? {
        o := Exited;
      } else if cfg.result.ReturnsDict? {
        o := Finished(s.score, s.mileage, s.flags.reason);
      } else {
        o := NoResult;
      }
    }
  }
}
