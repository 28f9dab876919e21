/**
  The three tunnel engines behind one backend. Each engine is a thing that runs or does not; the outcome
  of every system call is given by an environment, so that all failures are covered.
 */
module Backend {
  import opened Basics
  import opened Contracts

  datatype BackendFailure =
    | EngineUnavailable | NetworkDown | ServerDown | ProfileRefused | UnsupportedFeature | Internal

  datatype Engine = WireGuardEngine | AmneziaWgEngine | XrayEngine

  /**
    Stopping stops the engine; or it takes the engine for gone because its service cannot be opened, which is
    a success too; or it fails, and may or may not have stopped the engine.
   */
  datatype StopOutcome = Stopped | Missed | StopFailed(failure: BackendFailure, still: bool) {
    /** Whether a running engine still runs afterwards. */
    predicate Spares() { Missed? || (StopFailed? && still) }
  }

  datatype StartOutcome = Started | StartFailed(failure: BackendFailure, left: bool)

  /** Asking about the tunnel: the truth, "not running" because the service cannot be opened, or a failure. */
  datatype QueryOutcome = Sees | Misses | QueryFailed(failure: BackendFailure)

  datatype EngineEnv = EngineEnv(
    stop: StopOutcome, cleanup: StopOutcome, prepare: Option<BackendFailure>, start: StartOutcome,
    recover: StopOutcome, query: QueryOutcome, statistics: Result<TunnelStatistics, BackendFailure>)

  /** The third engine is a child process and not a service: nothing about it is ever missed. */
  type ProcessEnv = e: EngineEnv | !e.stop.Missed? && !e.cleanup.Missed? && !e.recover.Missed? && !e.query.Misses?
    witness EngineEnv(Stopped, Stopped, None, Started, Stopped, Sees, Err(Internal))

  datatype BackendEnv = BackendEnv(wireguard: EngineEnv, amneziawg: EngineEnv, xray: ProcessEnv)

  type Done = Result<(), BackendFailure>

  /** A stop attempt never starts anything. */
  function StopEngine(running: bool, outcome: StopOutcome): (bool, Done) {
    match outcome
    case Stopped => (false, Ok(()))
    case Missed => (running, Ok(()))
    case StopFailed(failure, still) => (running && still, Err(failure))
  }

  /** Refuse, clean up, prepare, start; and clean up again when starting failed. */
  function StartEngine(running: bool, killSwitch: bool, valid: bool, env: EngineEnv): (bool, Done) {
    if killSwitch then (running, Err(UnsupportedFeature))
    else if !valid then (running, Err(ProfileRefused))
    else
      var (left, cleaned) := StopEngine(running, env.cleanup);
      if cleaned.Err? then (left, cleaned)
      else if env.prepare.Some? then (left, Err(env.prepare.value))
      else
        match env.start
        case Started => (true, Ok(()))
        case StartFailed(failure, remains) => (StopEngine(remains, env.recover).0, Err(failure))
  }

  datatype BackendState = BackendState(wireguard: bool, amneziawg: bool, xray: bool, active: Option<Engine>) {
    predicate Running(e: Engine) {
      match e case WireGuardEngine => wireguard case AmneziaWgEngine => amneziawg case XrayEngine => xray
    }

    function SetRunning(e: Engine, running: bool): BackendState {
      match e
      case WireGuardEngine => this.(wireguard := running)
      case AmneziaWgEngine => this.(amneziawg := running)
      case XrayEngine => this.(xray := running)
    }

    predicate NothingRuns() { !wireguard && !amneziawg && !xray }
  }

  function EnvOf(env: BackendEnv, e: Engine): EngineEnv {
    match e case WireGuardEngine => env.wireguard case AmneziaWgEngine => env.amneziawg case XrayEngine => env.xray
  }

  /** `Result::and`: the first error, if any. */
  function Both(a: Done, b: Done): Done { if a.Ok? then b else a }

  /** Every engine is told to stop, whatever the others answered. */
  function DisconnectAll(s: BackendState, env: BackendEnv): (BackendState, Done) {
    var (w, wr) := StopEngine(s.wireguard, env.wireguard.stop);
    var (a, ar) := StopEngine(s.amneziawg, env.amneziawg.stop);
    var (x, xr) := StopEngine(s.xray, env.xray.stop);
    (BackendState(w, a, x, None), Both(Both(wr, ar), xr))
  }

  function ConnectEngine(s: BackendState, e: Engine, killSwitch: bool, valid: bool, env: BackendEnv)
    : (BackendState, Done)
  {
    var (stopped, r) := DisconnectAll(s, env);
    if r.Err? then (stopped, r)
    else
      var (running, started) := StartEngine(stopped.Running(e), killSwitch, valid, EnvOf(env, e));
      var after := stopped.SetRunning(e, running);
      if started.Err? then (after, started) else (after.(active := Some(e)), Ok(()))
  }

  function IsConnected(s: BackendState, env: BackendEnv): Result<bool, BackendFailure> {
    match s.active
    case None => Ok(false)
    case Some(e) =>
      match EnvOf(env, e).query
      case Sees => Ok(s.Running(e))
      case Misses => Ok(false)
      case QueryFailed(failure) => Err(failure)
  }

  function StatisticsOf(s: BackendState, env: BackendEnv): Result<TunnelStatistics, BackendFailure> {
    match s.active
    case None => Err(EngineUnavailable)
    case Some(e) => EnvOf(env, e).statistics
  }

  ////////// The backend as it runs //////////

  class TunnelEngine {
    var running: bool

    constructor ()
      ensures !running
    {
      running := false;
    }

    method Cleanup(outcome: StopOutcome) returns (r: Done)
      modifies this
      ensures (running, r) == StopEngine(old(running), outcome)
    {
      match outcome {
        case Stopped =>
          running := false;
          r := Ok(());
        case Missed => r := Ok(());
        case StopFailed(failure, still) =>
          running := running && still;
          r := Err(failure);
      }
    }

    method Connect(killSwitch: bool, valid: bool, env: EngineEnv) returns (r: Done)
      modifies this
      ensures (running, r) == StartEngine(old(running), killSwitch, valid, env)
    {
      if killSwitch { return Err(UnsupportedFeature); }
      if !valid { return Err(ProfileRefused); }
      r := Cleanup(env.cleanup);
      if r.Err? { return; }
      if env.prepare.Some? { return Err(env.prepare.value); }
      match env.start {
        case Started =>
          running := true;
          r := Ok(());
        case StartFailed(failure, remains) =>
          running := remains;
          var _ := Cleanup(env.recover);
          r := Err(failure);
      }
    }
  }

  class WindowsVpnBackend {
    const wireguard: TunnelEngine
    const amneziawg: TunnelEngine
    const xray: TunnelEngine
    var active: Option<Engine>

    constructor ()
      ensures Valid() && fresh(wireguard) && fresh(amneziawg) && fresh(xray)
      ensures Abs() == BackendState(false, false, false, None)
    {
      wireguard := new TunnelEngine();
      amneziawg := new TunnelEngine();
      xray := new TunnelEngine();
      active := None;
    }

    ghost predicate Valid() { wireguard != amneziawg && wireguard != xray && amneziawg != xray }

    ghost function Repr(): set<object> { {this, wireguard, amneziawg, xray} }

    ghost function Abs(): BackendState
      reads this, wireguard, amneziawg, xray
    {
      BackendState(wireguard.running, amneziawg.running, xray.running, active)
    }

    method Disconnect(env: BackendEnv) returns (r: Done)
      requires Valid()
      modifies this, wireguard, amneziawg, xray
      ensures (Abs(), r) == DisconnectAll(old(Abs()), env)
    {
      var w := wireguard.Cleanup(env.wireguard.stop);
      var a := amneziawg.Cleanup(env.amneziawg.stop);
      var x := xray.Cleanup(env.xray.stop);
      active := None;
      r := Both(Both(w, a), x);
    }

    method ConnectWireGuard(killSwitch: bool, valid: bool, env: BackendEnv) returns (r: Done)
      requires Valid()
      modifies this, wireguard, amneziawg, xray
      ensures (Abs(), r) == ConnectEngine(old(Abs()), WireGuardEngine, killSwitch, valid, env)
    {
      r := Disconnect(env);
      if r.Err? { return; }
      r := wireguard.Connect(killSwitch, valid, env.wireguard);
      if r.Err? { return; }
      active := Some(WireGuardEngine);
    }

    method ConnectAmneziaWg(killSwitch: bool, valid: bool, env: BackendEnv) returns (r: Done)
      requires Valid()
      modifies this, wireguard, amneziawg, xray
      ensures (Abs(), r) == ConnectEngine(old(Abs()), AmneziaWgEngine, killSwitch, valid, env)
    {
      r := Disconnect(env);
      if r.Err? { return; }
      r := amneziawg.Connect(killSwitch, valid, env.amneziawg);
      if r.Err? { return; }
      active := Some(AmneziaWgEngine);
    }

    method ConnectVless(killSwitch: bool, valid: bool, env: BackendEnv) returns (r: Done)
      requires Valid()
      modifies this, wireguard, amneziawg, xray
      ensures (Abs(), r) == ConnectEngine(old(Abs()), XrayEngine, killSwitch, valid, env)
    {
      r := Disconnect(env);
      if r.Err? { return; }
      r := xray.Connect(killSwitch, valid, env.xray);
      if r.Err? { return; }
      active := Some(XrayEngine);
    }

    method TunnelUp(env: BackendEnv) returns (r: Result<bool, BackendFailure>)
      ensures r == IsConnected(Abs(), env)
    {
      if active.None? { return Ok(false); }
      var engine :=
        match active.value
        case WireGuardEngine => wireguard
        case AmneziaWgEngine => amneziawg
        case XrayEngine => xray;
      match EnvOf(env, active.value).query {
        case Sees => r := Ok(engine.running);
        case Misses => r := Ok(false);
        case QueryFailed(failure) => r := Err(failure);
      }
    }

    method Statistics(env: BackendEnv) returns (r: Result<TunnelStatistics, BackendFailure>)
      ensures r == StatisticsOf(Abs(), env)
    {
      if active.None? { return Err(EngineUnavailable); }
      r := EnvOf(env, active.value).statistics;
    }
  }

  ////////// What every operation does to each engine //////////

  /** No stop call is reported as failed. */
  predicate AllStop(env: BackendEnv) {
    !env.wireguard.stop.StopFailed? && !env.amneziawg.stop.StopFailed? && !env.xray.stop.StopFailed?
  }

  /**
    Disconnecting leaves an engine running exactly if it ran and its stop spared it; success says only that
    none failed.
   */
  lemma DisconnectRuns(s: BackendState, env: BackendEnv, e: Engine)
    ensures var (after, r) := DisconnectAll(s, env);
      after.active == None
      && (after.Running(e) <==> s.Running(e) && EnvOf(env, e).stop.Spares())
      && (r.Ok? <==> AllStop(env))
  {
  }

  /** The start is reached, and leaves the engine running whether it succeeds or not. */
  predicate Launches(env: EngineEnv) {
    !env.cleanup.StopFailed? && env.prepare.None?
    && (env.start.Started? || (env.start.left && env.recover.Spares()))
  }

  /** The engine asked for is not even reached, or keeps running because an early step failed. */
  predicate LeavesAlone(env: EngineEnv) { env.cleanup.Spares() && (env.cleanup.StopFailed? || env.prepare.Some?) }

  /**
    Connecting leaves an engine running exactly if it is the one asked for and was launched, or it ran and
    was spared by its stop and, if it is the one asked for, by all that followed. It succeeds only without
    the kill switch, and then the engine asked for runs and is active; otherwise none is active.
   */
  lemma ConnectRuns(s: BackendState, e: Engine, killSwitch: bool, valid: bool, env: BackendEnv, f: Engine)
    ensures var (after, r) := ConnectEngine(s, e, killSwitch, valid, env);
      var reached := AllStop(env) && !killSwitch && valid;
      (after.Running(f) <==>
        (f == e && reached && Launches(EnvOf(env, e)))
        || (s.Running(f) && EnvOf(env, f).stop.Spares() && (f == e && reached ==> LeavesAlone(EnvOf(env, e)))))
      && (r.Ok? ==> reached && after.active == Some(e) && after.Running(e))
      && (r.Err? ==> after.active == None)
  {
    DisconnectRuns(s, env, e);
    DisconnectRuns(s, env, f);
  }
}
