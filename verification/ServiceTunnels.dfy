/** Which tunnels run after a run of the service, and whether the machine and the backend know of them. */
module ServiceTunnels {
  import opened Basics
  import opened Contracts
  import opened Machine
  import opened Backend
  import opened Service
  import opened ServiceSteps
  import opened ServiceRuns
  import ServiceStorage
  import Vault
  import Wire

  ////////// What holds since something happened //////////

  ghost predicate MadeAt(makes: nat -> bool, keeps: nat -> bool, n: nat, i: nat) {
    i < n && makes(i) && forall j: nat :: i < j < n ==> keeps(j)
  }

  /** A fact that some steps make and some keep holds exactly if one step made it and all later ones kept it. */
  lemma {:induction false} Since(holds: nat -> bool, makes: nat -> bool, keeps: nat -> bool, n: nat)
    requires !holds(0)
    requires forall i: nat :: i < n ==> (holds(i + 1) <==> makes(i) || (holds(i) && keeps(i)))
    ensures holds(n) <==> exists i: nat :: MadeAt(makes, keeps, n, i)
  {
    if n > 0 {
      var m := n - 1;
      Since(holds, makes, keeps, m);
      assert holds(m + 1) <==> makes(m) || (holds(m) && keeps(m));
      assert MadeAt(makes, keeps, n, m) <==> makes(m);
      forall i: nat | i < m ensures MadeAt(makes, keeps, n, i) <==> MadeAt(makes, keeps, m, i) && keeps(m) {
        if MadeAt(makes, keeps, m, i) && keeps(m) {
          forall j: nat | i < j < n ensures keeps(j) { assert j == m || j < m; }
        }
      }
    }
  }

  lemma PrefixStep(inputs: seq<Input>, i: nat)
    requires i < |inputs|
    ensures StateAfter(inputs[..i + 1]) == Next(StateAfter(inputs[..i]), inputs[i])
  {
    hide Next, StateAfter;
    assert inputs[..i + 1] == inputs[..i] + [inputs[i]];
    NextInput(inputs[..i], inputs[i]);
  }

  ////////// Each engine //////////

  predicate Heard(st: ServiceState, input: Input) { input.Frame? && Executed(st, input.frame, input.context) }

  /** A connect that reaches the backend: heard at rest, with a profile that can be loaded. */
  predicate ConnectsTo(st: ServiceState, input: Input, e: Engine) {
    Heard(st, input) &&
    var command := Request(input.frame).command;
    command.Connect? && EngineFor(command.protocol) == e && AtRest(st)
    && LoadFor(st.files, command.protocol, command.profileId, input.env.vault).Ok?
  }

  /** A disconnect that reaches the backend: heard in a connection or a failure. */
  predicate Disconnects(st: ServiceState, input: Input) {
    Heard(st, input) && Request(input.frame).command.Disconnect?
    && (st.machine.phase == Connected || st.machine.phase.IsFailure())
  }

  predicate TellsAllToStop(st: ServiceState, input: Input) {
    Disconnects(st, input) || ConnectsTo(st, input, WireGuardEngine) || ConnectsTo(st, input, AmneziaWgEngine)
    || ConnectsTo(st, input, XrayEngine)
  }

  /** The connect gets as far as the engine. */
  predicate Reaches(st: ServiceState, input: Input, e: Engine) {
    ConnectsTo(st, input, e) && AllStop(input.env.backend) && !Request(input.frame).command.killSwitch
  }

  predicate Starts(st: ServiceState, input: Input, e: Engine) {
    Reaches(st, input, e) && Launches(EnvOf(input.env.backend, e))
  }

  /** If the engine runs, it outlives the input. */
  predicate Spared(st: ServiceState, input: Input, e: Engine) {
    match input
    case TunnelStops(g) => g != e
    case Frame(_, _, env) =>
      TellsAllToStop(st, input) ==>
        EnvOf(env.backend, e).stop.Spares() && (Reaches(st, input, e) ==> LeavesAlone(EnvOf(env.backend, e)))
  }

  lemma ConnectBackend(st: ServiceState, operationId: string, profileId: string, protocol: Protocol, killSwitch: bool,
      env: Env)
    requires Sound(st) && ValidIdentifier(operationId) && ValidIdentifier(profileId)
    ensures var loaded := LoadFor(st.files, protocol, profileId, env.vault);
      ConnectStep(st, operationId, profileId, protocol, killSwitch, env).0.backend ==
      if AtRest(st) && loaded.Ok? then ConnectEngine(st.backend, EngineFor(protocol), killSwitch, true, env.backend).0
      else st.backend
  {
    hide ValidIdentifier, Blank, LoadFor, ConnectEngine, EngineFor;
    IdentifierNotBlank(operationId);
    IdentifierNotBlank(profileId);
    ServiceStorage.LoadedIsValid(st.files, protocol, profileId, env.vault);
  }

  /** Only connects and disconnects touch the backend. */
  lemma ExecuteBackend(st: ServiceState, requestId: string, command: ControlCommand, env: Env)
    requires Sound(st) && IdsValid(command)
    ensures Execute(st, requestId, command, env).0.backend ==
      match command
      case Connect(_, profileId, protocol, killSwitch) =>
        if AtRest(st) && LoadFor(st.files, protocol, profileId, env.vault).Ok? then
          ConnectEngine(st.backend, EngineFor(protocol), killSwitch, true, env.backend).0
        else st.backend
      case Disconnect(_) =>
        if st.machine.phase == Connected || st.machine.phase.IsFailure() then DisconnectAll(st.backend, env.backend).0
          else st.backend
      case _ => st.backend
  {
    hide ValidIdentifier, Blank, LoadFor, DisconnectAll, ConnectEngine, IsConnected, Vault.Store, Vault.Deleted,
         ValidWireGuard,
         ValidAmneziaWg, ValidVless, ConnectStep, DisconnectStep, ReconcileStep, ImportStep, StatisticsOf, Coherent;
    match command
    case Status => StatusSteps(st, env);
    case Connect(operationId, profileId, protocol, killSwitch) => ConnectBackend(st, operationId, profileId, protocol,
      killSwitch, env);
    case Disconnect(operationId) => DisconnectSteps(st, operationId, env);
    case ImportWireGuard(operationId, p) => ImportSteps(st, operationId, Vault.WireGuardKind(p), env);
    case ImportAmneziaWg(operationId, p) => ImportSteps(st, operationId, Vault.AmneziaWgKind(p), env);
    case ImportVless(operationId, p) => ImportSteps(st, operationId, Vault.VlessKind(p), env);
    case _ =>
  }

  /** The state in which a heard command is executed, and what becomes of it. */
  lemma HeardNext(st: ServiceState, input: Input)
    requires Sound(st) && Heard(st, input)
    ensures var request := Request(input.frame);
      var remembered := Remembered(st, request.requestId);
      Sound(remembered) && IdsValid(request.command) && remembered.machine == st.machine
        && remembered.backend == st.backend
      && remembered.files == st.files
      && Next(st, input) == Execute(remembered, request.requestId, request.command, input.env).0
  {
    hide Execute, ValidIdentifier, Remembered, Wire.DecodeRequest, IdsValid, Sound;
    var request := Request(input.frame);
    FrameExecutes(st, input.frame, input.context, input.env);
    DecodedIds(input.frame);
    RememberedSound(st, request.requestId);
    RememberedKeeps(st, request.requestId);
  }

  lemma UnheardNext(st: ServiceState, input: Input)
    requires input.Frame? && !Heard(st, input)
    ensures Next(st, input) == st
  {
    hide Execute, ValidIdentifier, Remembered, Wire.DecodeRequest;
    OthersChangeNothing(st, input.frame, input.context, input.env);
  }

  lemma NextRuns(st: ServiceState, input: Input, e: Engine)
    requires Sound(st)
    ensures Next(st, input).backend.Running(e)
      <==> Starts(st, input, e) || (st.backend.Running(e) && Spared(st, input, e))
  {
    hide Execute, ValidIdentifier, Remembered, Wire.DecodeRequest, IdsValid, Sound, LoadFor, ConnectEngine,
         DisconnectAll,
         LeavesAlone, Launches, AllStop;
    if input.Frame? {
      if Heard(st, input) {
        HeardNext(st, input);
        var request := Request(input.frame);
        ExecuteBackend(Remembered(st, request.requestId), request.requestId, request.command, input.env);
        DisconnectRuns(st.backend, input.env.backend, e);
        if request.command.Connect? {
          ConnectRuns(st.backend, EngineFor(request.command.protocol), request.command.killSwitch, true,
            input.env.backend, e);
        }
      } else {
        UnheardNext(st, input);
      }
    }
  }

  predicate StartsAt(inputs: seq<Input>, i: nat, e: Engine) {
    i < |inputs| && Starts(StateAfter(inputs[..i]), inputs[i], e)
  }

  predicate SparedAt(inputs: seq<Input>, i: nat, e: Engine) {
    i < |inputs| && Spared(StateAfter(inputs[..i]), inputs[i], e)
  }

  /** The engine was started at this input and outlived all later ones. */
  ghost predicate RunsSince(inputs: seq<Input>, i: nat, e: Engine) {
    StartsAt(inputs, i, e) && forall j: nat :: i < j < |inputs| ==> SparedAt(inputs, j, e)
  }

  /** An engine runs after a run exactly if some connect started it and it outlived everything that came after. */
  lemma EngineRunsExactly(inputs: seq<Input>, e: Engine)
    ensures StateAfter(inputs).backend.Running(e) <==> exists i: nat :: RunsSince(inputs, i, e)
  {
    hide Next, Sound, Starts, Spared, StateAfter;
    var holds := (k: nat) => k <= |inputs| && StateAfter(inputs[..k]).backend.Running(e);
    var makes := (k: nat) => StartsAt(inputs, k, e);
    var keeps := (k: nat) => SparedAt(inputs, k, e);
    forall i: nat | i < |inputs| ensures holds(i + 1) <==> makes(i) || (holds(i) && keeps(i)) {
      PrefixStep(inputs, i);
      RunSound(inputs[..i]);
      NextRuns(StateAfter(inputs[..i]), inputs[i], e);
    }
    Whole(inputs);
    Since(holds, makes, keeps, |inputs|);
    forall i: nat ensures MadeAt(makes, keeps, |inputs|, i) <==> RunsSince(inputs, i, e) {
      forall j: nat ensures keeps(j) == SparedAt(inputs, j, e) {}
      assert makes(i) == StartsAt(inputs, i, e);
    }
  }

  lemma Whole(inputs: seq<Input>)
    ensures StateAfter(inputs[..|inputs|]) == StateAfter(inputs)
    ensures StateAfter(inputs[..0]) == START
  {
    assert inputs[..|inputs|] == inputs;
  }

  ////////// Two tunnels //////////

  /** A connect starts one engine past another that runs and was told to stop. */
  predicate Overtakes(st: ServiceState, input: Input, e: Engine, f: Engine) {
    Starts(st, input, e) && st.backend.Running(f) && Spared(st, input, f)
  }

  /** An engine is overtaken only because its stop was missed: it was reported as gone. */
  lemma OvertakenIsMissed(st: ServiceState, input: Input, e: Engine, f: Engine)
    requires Overtakes(st, input, e, f) && e != f
    ensures input.Frame? && EnvOf(input.env.backend, f).stop.Missed?
  {
    hide Executed, LoadFor, Wire.DecodeRequest, Launches, LeavesAlone;
  }

  predicate OvertakesAt(inputs: seq<Input>, i: nat, e: Engine, f: Engine) {
    i < |inputs| && Overtakes(StateAfter(inputs[..i]), inputs[i], e, f)
  }

  ghost predicate BothSince(inputs: seq<Input>, i: nat, e: Engine, f: Engine) {
    (OvertakesAt(inputs, i, e, f) || OvertakesAt(inputs, i, f, e))
    && forall j: nat :: i < j < |inputs| ==> SparedAt(inputs, j, e) && SparedAt(inputs, j, f)
  }

  /** Two engines run after a run exactly if one overtook the other at some input and both outlived all later ones. */
  lemma TwoTunnelsExactly(inputs: seq<Input>, e: Engine, f: Engine)
    requires e != f
    ensures var b := StateAfter(inputs).backend;
      b.Running(e) && b.Running(f) <==> exists i: nat :: BothSince(inputs, i, e, f)
  {
    hide Next, Sound, Starts, Spared, StateAfter;
    var holds := (k: nat) => k <= |inputs| && StateAfter(inputs[..k]).backend.Running(e)
      && StateAfter(inputs[..k]).backend.Running(f);
    var makes := (k: nat) => OvertakesAt(inputs, k, e, f) || OvertakesAt(inputs, k, f, e);
    var keeps := (k: nat) => SparedAt(inputs, k, e) && SparedAt(inputs, k, f);
    forall i: nat | i < |inputs| ensures holds(i + 1) <==> makes(i) || (holds(i) && keeps(i)) {
      PrefixStep(inputs, i);
      RunSound(inputs[..i]);
      NextRuns(StateAfter(inputs[..i]), inputs[i], e);
      NextRuns(StateAfter(inputs[..i]), inputs[i], f);
      StartsOne(StateAfter(inputs[..i]), inputs[i], e, f);
    }
    Whole(inputs);
    Since(holds, makes, keeps, |inputs|);
    forall i: nat ensures MadeAt(makes, keeps, |inputs|, i) <==> BothSince(inputs, i, e, f) {
      forall j: nat ensures keeps(j) == (SparedAt(inputs, j, e) && SparedAt(inputs, j, f)) {}
      assert makes(i) == (OvertakesAt(inputs, i, e, f) || OvertakesAt(inputs, i, f, e));
    }
  }

  lemma StartsOne(st: ServiceState, input: Input, e: Engine, f: Engine)
    requires e != f
    ensures !(Starts(st, input, e) && Starts(st, input, f))
  {
    hide Executed, LoadFor, Wire.DecodeRequest, Launches, AllStop;
  }

  /** No stop call of the run takes a running engine for gone. */
  predicate NothingMissed(inputs: seq<Input>) {
    forall i :: 0 <= i < |inputs| && inputs[i].Frame? ==>
      !inputs[i].env.backend.wireguard.stop.Missed? && !inputs[i].env.backend.amneziawg.stop.Missed?
  }

  /** If no stop is missed, at most one engine ever runs. */
  lemma OneTunnel(inputs: seq<Input>, e: Engine, f: Engine)
    requires NothingMissed(inputs)
    requires StateAfter(inputs).backend.Running(e) && StateAfter(inputs).backend.Running(f)
    ensures e == f
  {
    hide StateAfter, Overtakes, SparedAt;
    if e != f {
      TwoTunnelsExactly(inputs, e, f);
      var i: nat :| BothSince(inputs, i, e, f);
      if OvertakesAt(inputs, i, e, f) {
        OvertakenIsMissed(StateAfter(inputs[..i]), inputs[i], e, f);
      } else {
        OvertakenIsMissed(StateAfter(inputs[..i]), inputs[i], f, e);
      }
      assert false;
    }
  }

  ////////// A tunnel besides the active one //////////

  /** A connect makes its engine the active one. */
  predicate Activates(st: ServiceState, input: Input, e: Engine) {
    Reaches(st, input, e) && EnvOf(input.env.backend, e).prepare.None?
      && !EnvOf(input.env.backend, e).cleanup.StopFailed?
    && EnvOf(input.env.backend, e).start.Started?
  }

  lemma NextActive(st: ServiceState, input: Input, e: Engine)
    requires Sound(st)
    ensures Next(st, input).backend.active == Some(e) <==>
      Activates(st, input, e) || (st.backend.active == Some(e) && !TellsAllToStop(st, input))
  {
    hide Execute, ValidIdentifier, Remembered, Wire.DecodeRequest, IdsValid, Sound, LoadFor;
    if input.Frame? {
      if Heard(st, input) {
        HeardNext(st, input);
        var request := Request(input.frame);
        ExecuteBackend(Remembered(st, request.requestId), request.requestId, request.command, input.env);
      } else {
        UnheardNext(st, input);
      }
    }
  }

  predicate ActivatesPast(st: ServiceState, input: Input, e: Engine, f: Engine) {
    Activates(st, input, e) && st.backend.Running(f) && Spared(st, input, f)
  }

  predicate ActivatesPastAt(inputs: seq<Input>, i: nat, e: Engine, f: Engine) {
    i < |inputs| && ActivatesPast(StateAfter(inputs[..i]), inputs[i], e, f)
  }

  predicate KeepsBesideAt(inputs: seq<Input>, i: nat, f: Engine) {
    i < |inputs| && SparedAt(inputs, i, f) && !TellsAllToStop(StateAfter(inputs[..i]), inputs[i])
  }

  ghost predicate BesideSince(inputs: seq<Input>, i: nat, e: Engine, f: Engine) {
    ActivatesPastAt(inputs, i, e, f) && forall j: nat :: i < j < |inputs| ==> KeepsBesideAt(inputs, j, f)
  }

  /**
    An engine runs besides the active one exactly if the connect that made the other one active missed it,
    and neither it stopped nor anything was told to stop since.
   */
  lemma BesideActiveExactly(inputs: seq<Input>, e: Engine, f: Engine)
    requires e != f
    ensures var b := StateAfter(inputs).backend;
      b.active == Some(e) && b.Running(f) <==> exists i: nat :: BesideSince(inputs, i, e, f)
  {
    hide Next, Sound, Activates, Spared, StateAfter, TellsAllToStop, Starts;
    var holds := (k: nat) => k <= |inputs| && StateAfter(inputs[..k]).backend.active == Some(e)
      && StateAfter(inputs[..k]).backend.Running(f);
    var makes := (k: nat) => ActivatesPastAt(inputs, k, e, f);
    var keeps := (k: nat) => KeepsBesideAt(inputs, k, f);
    forall i: nat | i < |inputs| ensures holds(i + 1) <==> makes(i) || (holds(i) && keeps(i)) {
      PrefixStep(inputs, i);
      RunSound(inputs[..i]);
      NextActive(StateAfter(inputs[..i]), inputs[i], e);
      NextRuns(StateAfter(inputs[..i]), inputs[i], f);
      StartingTells(StateAfter(inputs[..i]), inputs[i], e, f);
    }
    Whole(inputs);
    Since(holds, makes, keeps, |inputs|);
    forall i: nat ensures MadeAt(makes, keeps, |inputs|, i) <==> BesideSince(inputs, i, e, f) {
      forall j: nat ensures keeps(j) == KeepsBesideAt(inputs, j, f) {}
      assert makes(i) == ActivatesPastAt(inputs, i, e, f);
    }
  }

  lemma StartingTells(st: ServiceState, input: Input, e: Engine, f: Engine)
    requires e != f
    ensures Starts(st, input, f) ==> TellsAllToStop(st, input) && !Activates(st, input, e)
  {
    hide Executed, LoadFor, Wire.DecodeRequest, Launches, AllStop;
  }

  /**
    If no stop is missed, the active engine is the only one that can run; so while the machine says
    Connected, only the engine of the protocol connected last can.
   */
  lemma OnlyTheActive(inputs: seq<Input>, f: Engine)
    requires NothingMissed(inputs) && StateAfter(inputs).backend.Running(f)
    ensures var st := StateAfter(inputs);
      (st.backend.active.Some? ==> st.backend.active == Some(f))
      && (st.machine.phase == Connected ==> LastConnected(inputs).Some? && f == EngineFor(LastConnected(inputs).value))
  {
    hide StateAfter, LastConnected, ActivatesPast, KeepsBesideAt;
    var st := StateAfter(inputs);
    if st.backend.active.Some? && st.backend.active.value != f {
      BesideActiveExactly(inputs, st.backend.active.value, f);
      var i: nat :| BesideSince(inputs, i, st.backend.active.value, f);
      ActivatedPastIsMissed(StateAfter(inputs[..i]), inputs[i], st.backend.active.value, f);
      assert false;
    }
    if st.machine.phase == Connected { ConnectedEngine(inputs); }
  }

  lemma ActivatedPastIsMissed(st: ServiceState, input: Input, e: Engine, f: Engine)
    requires ActivatesPast(st, input, e, f) && e != f
    ensures input.Frame? && EnvOf(input.env.backend, f).stop.Missed?
  {
    hide Executed, LoadFor, Wire.DecodeRequest;
  }

  ////////// Tunnels nobody knows of //////////

  predicate SomethingRuns(b: BackendState) { !b.NothingRuns() }

  /** A tunnel runs although the machine says Disconnected. */
  predicate Lost(st: ServiceState) { st.machine.phase == Disconnected && SomethingRuns(st.backend) }

  /** A status request is told that the tunnel of the connection is gone, while an engine runs. */
  predicate StatusLoses(st: ServiceState, input: Input) {
    Heard(st, input) && Request(input.frame).command.Status? && st.machine.phase == Connected
    && IsConnected(st.backend, input.env.backend) == Ok(false) && SomethingRuns(st.backend)
  }

  /** A disconnect succeeds, but the stop of a running engine was missed. */
  predicate DisconnectLoses(st: ServiceState, input: Input) {
    Disconnects(st, input) && AllStop(input.env.backend)
    && ((st.backend.wireguard && input.env.backend.wireguard.stop.Missed?)
        || (st.backend.amneziawg && input.env.backend.amneziawg.stop.Missed?))
  }

  predicate Loses(st: ServiceState, input: Input) { StatusLoses(st, input) || DisconnectLoses(st, input) }

  /** The last engine stops by itself, or a connect that is heard starts over. */
  predicate Ends(st: ServiceState, input: Input) {
    match input
    case TunnelStops(g) => st.backend.SetRunning(g, false).NothingRuns()
    case Frame(frame, context, _) => Executed(st, frame, context) && Request(frame).command.Connect?
  }

  lemma StatusLost(st: ServiceState, env: Env)
    requires Sound(st)
    ensures Lost(ReconcileStep(st, env).0) <==>
      (st.machine.phase == Connected && IsConnected(st.backend, env.backend) == Ok(false) && SomethingRuns(st.backend))
        || Lost(st)
  {
    hide ValidIdentifier, Blank, IsConnected;
    StatusSteps(st, env);
  }

  lemma DisconnectLost(st: ServiceState, operationId: string, env: Env)
    requires Sound(st) && ValidIdentifier(operationId)
    ensures Lost(DisconnectStep(st, operationId, env).0) <==>
      ((st.machine.phase == Connected || st.machine.phase.IsFailure()) && AllStop(env.backend)
       && ((st.backend.wireguard && env.backend.wireguard.stop.Missed?)
         || (st.backend.amneziawg && env.backend.amneziawg.stop.Missed?)))
      || Lost(st)
  {
    hide ValidIdentifier, Blank;
    DisconnectSteps(st, operationId, env);
    DisconnectRuns(st.backend, env.backend, WireGuardEngine);
    DisconnectRuns(st.backend, env.backend, AmneziaWgEngine);
    DisconnectRuns(st.backend, env.backend, XrayEngine);
  }

  lemma ExecuteLost(st: ServiceState, requestId: string, command: ControlCommand, env: Env)
    requires Sound(st) && IdsValid(command)
    ensures var after := Execute(st, requestId, command, env).0;
      match command
      case Status => Lost(after) == Lost(ReconcileStep(st, env).0)
      case Disconnect(operationId) => Lost(after) == Lost(DisconnectStep(st, operationId, env).0)
      case Connect(_, _, _, _) => !Lost(after)
      case _ => Lost(after) == Lost(st)
  {
    hide ValidIdentifier, Blank, LoadFor, DisconnectAll, ConnectEngine, IsConnected, Vault.Store, Vault.Deleted,
         ValidWireGuard,
         ValidAmneziaWg, ValidVless, ConnectStep, DisconnectStep, ReconcileStep, ImportStep, StatisticsOf, Coherent;
    match command
    case Connect(operationId, profileId, protocol, killSwitch) => ConnectSteps(st, operationId, profileId, protocol,
      killSwitch, env);
    case ImportWireGuard(operationId, p) => ImportSteps(st, operationId, Vault.WireGuardKind(p), env);
    case ImportAmneziaWg(operationId, p) => ImportSteps(st, operationId, Vault.AmneziaWgKind(p), env);
    case ImportVless(operationId, p) => ImportSteps(st, operationId, Vault.VlessKind(p), env);
    case _ =>
  }

  lemma NextLost(st: ServiceState, input: Input)
    requires Sound(st)
    ensures Lost(Next(st, input)) <==> Loses(st, input) || (Lost(st) && !Ends(st, input))
  {
    hide Execute, ValidIdentifier, Remembered, Wire.DecodeRequest, IdsValid, Sound, IsConnected, ReconcileStep,
         DisconnectStep,
         AllStop;
    if input.Frame? {
      if Heard(st, input) {
        HeardNext(st, input);
        var request := Request(input.frame);
        var heard := Remembered(st, request.requestId);
        ExecuteLost(heard, request.requestId, request.command, input.env);
        if request.command.Status? {
          StatusLost(heard, input.env);
        } else if request.command.Disconnect? {
          assert ValidIdentifier(request.command.operationId) by { DisconnectId(request.command); }
          DisconnectLost(heard, request.command.operationId, input.env);
        }
      } else {
        UnheardNext(st, input);
      }
    }
  }

  lemma DisconnectId(command: ControlCommand)
    requires command.Disconnect? && IdsValid(command)
    ensures ValidIdentifier(command.operationId)
  {
  }

  predicate LosesAt(inputs: seq<Input>, i: nat) { i < |inputs| && Loses(StateAfter(inputs[..i]), inputs[i]) }

  predicate EndsAt(inputs: seq<Input>, i: nat) { i < |inputs| && Ends(StateAfter(inputs[..i]), inputs[i]) }

  ghost predicate LostSince(inputs: seq<Input>, i: nat) {
    LosesAt(inputs, i) && forall j: nat :: i < j < |inputs| ==> !EndsAt(inputs, j)
  }

  /**
    After a run a tunnel runs although the machine says Disconnected exactly if some status request was told
    that it is gone, or some disconnect missed it, and since then the tunnels have not all stopped by
    themselves and no connect was heard.
   */
  lemma LostExactly(inputs: seq<Input>)
    ensures Lost(StateAfter(inputs)) <==> exists i: nat :: LostSince(inputs, i)
  {
    hide Next, Sound, Loses, Ends, StateAfter, Lost;
    var holds := (k: nat) => k <= |inputs| && Lost(StateAfter(inputs[..k]));
    var makes := (k: nat) => LosesAt(inputs, k);
    var keeps := (k: nat) => !EndsAt(inputs, k);
    forall i: nat | i < |inputs| ensures holds(i + 1) <==> makes(i) || (holds(i) && keeps(i)) {
      PrefixStep(inputs, i);
      RunSound(inputs[..i]);
      NextLost(StateAfter(inputs[..i]), inputs[i]);
    }
    Whole(inputs);
    assert !Lost(START) by { NothingLostYet(); }
    Since(holds, makes, keeps, |inputs|);
    forall i: nat ensures MadeAt(makes, keeps, |inputs|, i) <==> LostSince(inputs, i) {
      forall j: nat ensures keeps(j) == !EndsAt(inputs, j) {}
      assert makes(i) == LosesAt(inputs, i);
    }
  }

  lemma NothingLostYet()
    ensures !Lost(START)
  {
  }
}
