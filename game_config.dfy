/** Constants and rule switches of the six copies of the obstacle-dodge game loop.
    Each copy becomes one value of `Config`; the rules that really differ between
    the copies are the constructors of the small datatypes below. */
module GameConfig {
  import opened Wrappers

  /** The keys the game loops look at. */
  datatype Key = Space | Up | KeyR | KeyQ | OtherKey

  /** One entry of the event queue drained at the top of a frame. */
  datatype Event = WindowClose | KeyDown(key: Key)

  /** What the blocking game-over screen returns. */
  datatype GameOverChoice = Restart | Quit | CloseWindow

  /** Pixel sizes the source derives from the screen size and the sprite images. */
  datatype Geometry = Geometry(
    screenWidth: int,
    groundHeight: int,
    playerX: int,
    playerWidth: int,
    playerHeight: int,
    shortWidth: int,
    shortHeight: int,
    tallWidth: int,
    tallHeight: int)

  predicate ValidGeometry(g: Geometry)
  {
    g.screenWidth > 0 && g.playerWidth > 0 && g.playerHeight > 0 &&
    g.shortWidth > 0 && g.shortHeight > 0 && g.tallWidth > 0 && g.tallHeight > 0
  }

  /** How the obstacle speed reacts to a new `score // 10` milestone. */
  datatype SpeedRule =
    | Staircase(step: real, cap: real)  // speed := min(speed + step, cap)
    | Growing                           // speed := min(speed + 0.2 + 0.15*m, initial + 3.0 + 0.5*m)
    | Unbounded(step: real)             // speed := speed + step

  /** Whether the score also grows with the distance travelled. */
  datatype ScoreRule =
    | PassOnly
    | DistanceThenPass(pixelsPerPoint: real)  // score := int(score_float += speed / pixelsPerPoint)

  /** What a window-close event does during play. */
  datatype QuitRule =
    | Immediate(clearsActive: bool)  // record "quit_event" and leave the loop at once
    | Deferred                       // stop the loop after the rest of this frame

  /** What closing the window on the game-over screen does. */
  datatype CloseRule =
    | RecordQuit  // end the session with reason "quit_event"
    | Halt        // pygame.quit(); sys.exit()
    | StopLoop    // end the session without a reason

  /** What the session function hands back when its loop ends. */
  datatype ResultRule =
    | ReturnsDict   // the `{'score', 'final_mileage', 'reason'}` dictionary of the HDMI engines
    | ReturnsNothing
    | ExitsProcess  // pygame.quit(); sys.exit() after the loop

  /** Spawn-interval schedule: frames between obstacles. */
  datatype SpawnParams = SpawnParams(
    initialAvg: int,
    minAvg: int,
    scoreForMin: int,
    randomRange: int,
    absoluteMin: int,
    margin: int)  // spawn_high := max(spawn_low + margin, ...)

  datatype Config = Config(
    geometry: Geometry,
    gravity: real,
    jumpStrength: real,
    jumpBufferMs: Option<int>,
    initialSpeed: real,
    speedRule: SpeedRule,
    truncateMove: bool,       // obstacles move by int(speed) rather than speed
    spawn: SpawnParams,
    shortReward: int,         // a short obstacle scores randint(shortReward, shortReward + 2)
    tallReward: int,          // a tall obstacle scores randint(tallReward, tallReward + 2)
    scoreRule: ScoreRule,
    jumpKeys: set<Key>,
    sensorJump: bool,         // a piezo or button reading may start a jump
    quitRule: QuitRule,
    recordsOutcome: bool,     // "collision" / "mileage_zero" are stored as the reason
    keysWhileOver: bool,      // R and Q are read by the frame loop while the game is over
    restartOffered: bool,     // the game-over screen accepts R
    closeRule: CloseRule,
    resetsSpawnTimer: bool,
    resetUsesDefault: bool,   // reset sets the mileage to defaultMileage, not to the session's value
    defaultMileage: int,
    standbyAtStart: bool,
    result: ResultRule,
    checksReady: bool)        // the session returns at once when the engine or display is not ready

  predicate ValidSpawn(p: SpawnParams)
  {
    p.absoluteMin >= 1 && p.initialAvg >= p.absoluteMin && p.scoreForMin > 0 && p.margin >= 0
  }

  predicate ValidSpeed(cfg: Config)
  {
    cfg.initialSpeed > 0.0 &&
    match cfg.speedRule
    case Staircase(step, cap) => step >= 0.0 && cfg.initialSpeed <= cap
    case Growing => true
    case Unbounded(step) => step >= 0.0
  }

  predicate ValidConfig(cfg: Config)
  {
    ValidGeometry(cfg.geometry) && ValidSpawn(cfg.spawn) && ValidSpeed(cfg) &&
    cfg.shortReward >= 1 && cfg.tallReward >= 1 &&
    (cfg.scoreRule.DistanceThenPass? ==> cfg.scoreRule.pixelsPerPoint > 0.0) &&
    (cfg.jumpBufferMs.Some? ==> cfg.jumpBufferMs.value >= 0)
  }

  /** hdmi_game_engine.py: 60 FPS engine with a jump buffer and a growing speed cap. */
  function RootHdmi(g: Geometry): Config
  {
    Config(g, 0.6, -19.0, Some(180), 5.0, Growing, true,
           SpawnParams(120, 60, 1000, 30, 40, 5), 3, 6, PassOnly,
           {Space, Up}, false, Immediate(true), true, false, false, RecordQuit,
           true, false, 350, false,
           ReturnsDict, true)
  }

  /** SPI_v2/hdmi_game_engine.py: keyboard or piezo jump, speed capped at 8.0, restart. */
  function V2Hdmi(g: Geometry): Config
  {
    Config(g, 0.8, -15.0, None, 5.0, Staircase(0.2, 8.0), true,
           SpawnParams(120, 60, 1000, 30, 40, 5), 3, 6, PassOnly,
           {Space, Up}, true, Immediate(true), true, false, true, RecordQuit,
           true, false, 350, false,
           ReturnsDict, true)
  }

  /** SPI_v2/game_on_lcd.py: the LCD controller, speed capped at 3.5. */
  function V2Lcd(g: Geometry): Config
  {
    Config(g, 0.8, -10.0, None, 2.0, Staircase(0.1, 3.5), true,
           SpawnParams(180, 80, 1000, 40, 45, 1), 3, 6, PassOnly,
           {Space, Up}, true, Immediate(false), true, false, true, Halt,
           true, false, 350, false,
           ReturnsNothing, true)
  }

  /** SPI/SPI_run.py: integer physics, standby screen, distance score overwritten each frame. */
  function SpiRun(g: Geometry): Config
  {
    Config(g, 1.0, -16.0, None, 240.0, Unbounded(1.0), false,
           SpawnParams(180, 80, 1000, 40, 45, 1), 5, 8, DistanceThenPass(1800.0),
           {Space, Up}, true, Deferred, false, false, true, Halt,
           true, false, 350, true,
           ReturnsNothing, false)
  }

  /** SPI_v2/game.py: piezo jump only, pass-only scoring, no restart. */
  function V2Game(g: Geometry): Config
  {
    Config(g, 1.0, -16.0, None, 5.0, Unbounded(0.5), false,
           SpawnParams(120, 50, 2000, 30, 30, 1), 5, 8, PassOnly,
           {}, true, Deferred, false, false, false, StopLoop,
           true, false, 350, false,
           ReturnsNothing, false)
  }

  /** SPI/jump.py: space to jump, distance score plus pass score, R/Q in the loop. */
  function SpiJump(g: Geometry): Config
  {
    Config(g, 1.0, -16.0, None, 5.0, Unbounded(0.5), false,
           SpawnParams(120, 50, 2000, 30, 30, 1), 5, 8, DistanceThenPass(60.0),
           {Space}, false, Deferred, false, true, true, Halt,
           false, true, 350, false,
           ExitsProcess, false)
  }

  /** Every copy's constants satisfy the assumptions the proofs rely on. */
  lemma VariantsValid(g: Geometry)
    requires ValidGeometry(g)
    ensures ValidConfig(RootHdmi(g)) && ValidConfig(V2Hdmi(g)) && ValidConfig(V2Lcd(g))
    ensures ValidConfig(SpiRun(g)) && ValidConfig(V2Game(g)) && ValidConfig(SpiJump(g))
  {
  }
}
