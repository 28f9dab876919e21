/** The profiles a running service holds, and what becomes of a connection when a profile is or is not held. */
module ServiceStorage {
  import opened Basics
  import opened Contracts
  import opened Machine
  import opened Vault
  import opened Backend
  import opened Service
  import opened ServiceSteps
  import opened ServiceRuns
  import Wire
  import WireRoundTrip
  import WireBounds

  ////////// The vault's part of a run //////////

  function VaultPart(command: ControlCommand, env: Env): seq<VaultOp> {
    match command
    case ImportWireGuard(_, p) => [StoreOp(WireGuardKind(p), env.vault)]
    case ImportAmneziaWg(_, p) => [StoreOp(AmneziaWgKind(p), env.vault)]
    case ImportVless(_, p) => [StoreOp(VlessKind(p), env.vault)]
    case DeleteProfile(_, profileId) => [DeleteOp(profileId, env.vault)]
    case _ => []
  }

  function InputPart(st: ServiceState, input: Input): (part: seq<VaultOp>)
    ensures |part| <= 1
  {
    if input.Frame? && Executed(st, input.frame, input.context) then VaultPart(Request(input.frame).command, input.env)
      else []
  }

  /** The store and delete operations of a run, in order. */
  function VaultHistory(inputs: seq<Input>): seq<VaultOp> {
    if inputs == [] then []
    else
      var before, last := inputs[..|inputs| - 1], inputs[|inputs| - 1];
      VaultHistory(before) + InputPart(StateAfter(before), last)
  }

  function StepAll(files: Files, part: seq<VaultOp>): Files
    requires |part| <= 1
  {
    if part == [] then files else VaultStep(files, part[0])
  }

  lemma ExecuteFiles(st: ServiceState, requestId: string, command: ControlCommand, env: Env)
    requires Sound(st) && IdsValid(command)
    ensures Execute(st, requestId, command, env).0.files == StepAll(st.files, VaultPart(command, env))
  {
    hide ValidIdentifier, Blank, LoadFor, DisconnectAll, IsConnected, Store, Deleted, ValidWireGuard, ValidAmneziaWg,
         ValidVless, ConnectStep, DisconnectStep, ReconcileStep, ImportStep, StatisticsOf, Coherent;
    match command
    case Status => StatusSteps(st, env);
    case Connect(operationId, profileId, protocol, killSwitch) => ConnectSteps(st, operationId, profileId, protocol,
      killSwitch, env);
    case Disconnect(operationId) => DisconnectSteps(st, operationId, env);
    case ImportWireGuard(operationId, p) => ImportSteps(st, operationId, WireGuardKind(p), env);
    case ImportAmneziaWg(operationId, p) => ImportSteps(st, operationId, AmneziaWgKind(p), env);
    case ImportVless(operationId, p) => ImportSteps(st, operationId, VlessKind(p), env);
    case DeleteProfile(operationId, profileId) =>
      IdentifierNotBlank(operationId);
      IdentifierNotBlank(profileId);
    case _ =>
  }

  lemma NextFiles(st: ServiceState, input: Input)
    requires Sound(st)
    ensures Next(st, input).files == StepAll(st.files, InputPart(st, input))
  {
    hide Execute, ValidIdentifier, Remembered, Wire.DecodeRequest, IdsValid, Sound, VaultStep, VaultPart;
    if input.Frame? {
      if Executed(st, input.frame, input.context) {
        var request := Request(input.frame);
        FrameExecutes(st, input.frame, input.context, input.env);
        DecodedIds(input.frame);
        RememberedSound(st, request.requestId);
        RememberedKeeps(st, request.requestId);
        ExecuteFiles(Remembered(st, request.requestId), request.requestId, request.command, input.env);
      } else {
        OthersChangeNothing(st, input.frame, input.context, input.env);
      }
    }
  }

  /** The files of a running service are what its imports and deletions made of an empty vault. */
  lemma {:induction false} RunFiles(inputs: seq<Input>)
    ensures StateAfter(inputs).files == FilesAfter(VaultHistory(inputs))
  {
    hide Next, InputPart, VaultStep, Sound;
    if inputs != [] {
      var before, last := inputs[..|inputs| - 1], inputs[|inputs| - 1];
      RunFiles(before);
      RunSound(before);
      NextFiles(StateAfter(before), last);
      HistoryGrows(VaultHistory(before), InputPart(StateAfter(before), last));
    }
  }

  lemma HistoryGrows(history: seq<VaultOp>, part: seq<VaultOp>)
    requires |part| <= 1
    ensures FilesAfter(history + part) == StepAll(FilesAfter(history), part)
  {
    hide VaultStep;
    if part == [] {
      assert history + part == history;
    } else {
      assert (history + part)[..|history|] == history;
    }
  }

  ////////// Which connects wedge the machine //////////

  predicate OfProtocol(found: Option<Profile>, protocol: Protocol) {
    found.Some? &&
    match protocol
    case WireGuard => found.value.WireGuardKind?
    case AmneziaWg => found.value.AmneziaWgKind?
    case VlessReality => found.value.VlessKind?
  }

  /** The profile a handle stands for after a run: stored under it by an import and not deleted since. */
  function Held(inputs: seq<Input>, handle: string): Option<Profile> {
    Lookup(ModelAfter(VaultHistory(inputs)).held, handle)
  }

  /** The same, counting the profiles that failed imports left behind whole. */
  function Found(inputs: seq<Input>, handle: string): Option<Profile> {
    Lookup(ModelAfter(VaultHistory(inputs)).All(), handle)
  }

  lemma LoadableExactly(inputs: seq<Input>, protocol: Protocol, handle: string, env: VaultEnv)
    requires Readable(env)
    ensures LoadFor(StateAfter(inputs).files, protocol, handle, env).Ok?
      <==> OfProtocol(Found(inputs, handle), protocol)
  {
    hide LoadedWireGuard, LoadedAmneziaWg, LoadedVless, ValidWireGuard, ValidAmneziaWg, ValidVless, Lookup, StateAfter,
         FilesAfter, ModelAfter;
    RunFiles(inputs);
    LoadExactly(VaultHistory(inputs), handle, env);
    var files, found := FilesAfter(VaultHistory(inputs)), Found(inputs, handle);
    match protocol
    case WireGuard =>
      if LoadedWireGuard(files, handle, env).Ok? {
        assert found == Some(WireGuardKind(LoadedWireGuard(files, handle, env).value));
      }
      if found.Some? && found.value.WireGuardKind? {
        assert LoadedWireGuard(files, handle, env) == Ok(found.value.wireguard);
      }
    case AmneziaWg =>
      if LoadedAmneziaWg(files, handle, env).Ok? {
        assert found == Some(AmneziaWgKind(LoadedAmneziaWg(files, handle, env).value));
      }
      if found.Some? && found.value.AmneziaWgKind? {
        assert LoadedAmneziaWg(files, handle, env) == Ok(found.value.amneziawg);
      }
    case VlessReality =>
      if LoadedVless(files, handle, env).Ok? { assert found == Some(VlessKind(LoadedVless(files, handle, env).value)); }
      if found.Some? && found.value.VlessKind? { assert LoadedVless(files, handle, env) == Ok(found.value.vless); }
  }

  predicate IsConnect(frame: Bytes, profileId: string, protocol: Protocol) {
    Wire.DecodeRequest(frame).Ok? && Request(frame).command.Connect?
    && Request(frame).command.profileId == profileId && Request(frame).command.protocol == protocol
  }

  /**
    With a vault that reads without faults, a connect that is heard by a machine at rest wedges the machine
    exactly when its handle stands for no profile of its protocol, held or left over.
   */
  lemma ConnectWedgesExactly(inputs: seq<Input>, frame: Bytes, context: AuthorizationContext, env: Env,
    profileId: string, protocol: Protocol)
    requires Readable(env.vault) && IsConnect(frame, profileId, protocol)
    requires Executed(StateAfter(inputs), frame, context)
    requires AtRest(StateAfter(inputs))
    ensures Wedged(StateAfter(inputs + [Frame(frame, context, env)]))
      <==> !OfProtocol(Found(inputs, profileId), protocol)
  {
    hide StateAfter, Next, LoadFor, Wire.DecodeRequest, Found, Sound, OfProtocol;
    RunSound(inputs);
    NextInput(inputs, Frame(frame, context, env));
    NextWedged(StateAfter(inputs), Frame(frame, context, env));
    LoadableExactly(inputs, protocol, profileId, env.vault);
  }

  /** No call the backend makes to bring up an engine is reported as failed. */
  predicate BackendWorks(env: BackendEnv, e: Engine) {
    AllStop(env) && !EnvOf(env, e).cleanup.StopFailed? && EnvOf(env, e).prepare.None? && EnvOf(env, e).start.Started?
  }

  lemma EngineStarts(s: BackendState, e: Engine, killSwitch: bool, env: BackendEnv)
    ensures ConnectEngine(s, e, killSwitch, true, env).1.Ok? <==> !killSwitch && BackendWorks(env, e)
  {
  }

  /** What the vault decodes is valid, so the engines never refuse it. */
  lemma LoadedIsValid(files: Files, protocol: Protocol, handle: string, env: VaultEnv)
    ensures LoadFor(files, protocol, handle, env).Ok? ==> LoadFor(files, protocol, handle, env).value
  {
    hide ReadFile, ValidWireGuard, ValidAmneziaWg, ValidVless, Wire.TakeProfile, Wire.TakeAmneziaWg, Wire.TakeVless,
         Wire.Untag;
  }

  lemma ConnectStepSucceeds(st: ServiceState, operationId: string, profileId: string, protocol: Protocol,
      killSwitch: bool, env: Env)
    requires Sound(st) && ValidIdentifier(operationId) && ValidIdentifier(profileId)
    requires AtRest(st)
    ensures ConnectStep(st, operationId, profileId, protocol, killSwitch, env).1 == Ok("CONNECTED") <==>
      LoadFor(st.files, protocol, profileId, env.vault).Ok? && !killSwitch
        && BackendWorks(env.backend, EngineFor(protocol))
  {
    hide ValidIdentifier, Machine.Blank, LoadFor, ConnectEngine, BackendWorks;
    IdentifierNotBlank(operationId);
    IdentifierNotBlank(profileId);
    LoadedIsValid(st.files, protocol, profileId, env.vault);
    EngineStarts(st.backend, EngineFor(protocol), killSwitch, env.backend);
    var loaded := LoadFor(st.files, protocol, profileId, env.vault);
    if loaded.Ok? {
      var result := ConnectEngine(st.backend, EngineFor(protocol), killSwitch, loaded.value, env.backend).1;
      if result.Err? { FailureCodeValid(result.error); }
    }
  }

  /**
    A connect that is heard at rest is answered with "CONNECTED" exactly when its handle stands for a
    profile of its protocol, held or left over, it asks for no kill switch, and no call of the backend fails.
   */
  lemma ConnectSucceedsExactly(inputs: seq<Input>, frame: Bytes, context: AuthorizationContext, env: Env,
    profileId: string, protocol: Protocol)
    requires Readable(env.vault) && IsConnect(frame, profileId, protocol)
    requires Executed(StateAfter(inputs), frame, context)
    requires AtRest(StateAfter(inputs))
    ensures FrameStep(StateAfter(inputs), frame, context, env).1.code == "CONNECTED" <==>
      OfProtocol(Found(inputs, profileId), protocol) && !Request(frame).command.killSwitch
      && BackendWorks(env.backend, EngineFor(protocol))
  {
    hide StateAfter, FrameStep, LoadFor, Wire.DecodeRequest, Found, Sound, OfProtocol, BackendWorks, ConnectStep,
         ValidIdentifier, Remembered;
    var st, request := StateAfter(inputs), Request(frame);
    RunSound(inputs);
    DecodedIds(frame);
    FrameExecutes(st, frame, context, env);
    RememberedSound(st, request.requestId);
    RememberedKeeps(st, request.requestId);
    LoadableExactly(inputs, protocol, profileId, env.vault);
    ConnectStepSucceeds(Remembered(st, request.requestId), request.command.operationId, profileId, protocol,
      request.command.killSwitch, env);
  }

  ////////// Wedging and losing tunnels, concretely //////////

  function ConnectFrame(requestId: string, operationId: string, profileId: string, protocol: Protocol): Wire.Put {
    Wire.EncodeRequest(RequestEnvelope(CONTRACT_VERSION, requestId, Connect(operationId, profileId, protocol, false)))
  }

  lemma ConnectFrameDecodes(requestId: string, operationId: string, profileId: string, protocol: Protocol)
    requires ValidIdentifier(requestId) && ValidIdentifier(operationId) && ValidIdentifier(profileId)
    ensures var f := ConnectFrame(requestId, operationId, profileId, protocol);
      f.Ok? && Wire.DecodeRequest(f.value)
        == Ok(RequestEnvelope(CONTRACT_VERSION, requestId, Connect(operationId, profileId, protocol, false)))
  {
    hide Wire.EncodeRequest, Wire.DecodeRequest, ValidIdentifier;
    var r := RequestEnvelope(CONTRACT_VERSION, requestId, Connect(operationId, profileId, protocol, false));
    WireBounds.RequestSize(r);
    WireRoundTrip.RequestRoundTrip(r);
  }

  /**
    The very first request can wedge the service for good: a connect with any handle, as no profile is
    stored yet. The machine then says Connecting whatever comes after.
   */
  lemma FirstConnectWedges(requestId: string, operationId: string, profileId: string, protocol: Protocol,
    context: AuthorizationContext, env: Env, more: seq<Input>)
    requires ValidIdentifier(requestId) && ValidIdentifier(operationId) && ValidIdentifier(profileId)
    requires context.IsAllowed() && Readable(env.vault)
    ensures ConnectFrame(requestId, operationId, profileId, protocol).Ok?
    ensures var first := Frame(ConnectFrame(requestId, operationId, profileId, protocol).value, context, env);
      StateAfter([first] + more).machine.phase == Connecting
  {
    hide ConnectFrame, Wire.DecodeRequest, ValidIdentifier, Sound, Execute, Next;
    ConnectFrameDecodes(requestId, operationId, profileId, protocol);
    var frame := ConnectFrame(requestId, operationId, profileId, protocol).value;
    var first := Frame(frame, context, env);
    assert [] + [first] == [first];
    NothingFound(profileId);
    ConnectWedgesExactly([], frame, context, env, profileId, protocol);
    NoConnectionYet(first);
    WedgedForever([first], more);
  }

  lemma NothingFound(handle: string)
    ensures Found([], handle) == None
  {
  }

  /** The first input of a run cannot leave the machine Disconnecting. */
  lemma NoConnectionYet(first: Input)
    ensures StateAfter([first]).machine.phase != Disconnecting
  {
    hide Execute, ValidIdentifier, Remembered, Wire.DecodeRequest, IdsValid, Sound, Blank;
    assert [first][..0] == [];
    StartSound();
    if first.Frame? {
      if Executed(START, first.frame, first.context) {
        var request := Request(first.frame);
        FrameExecutes(START, first.frame, first.context, first.env);
        DecodedIds(first.frame);
        RememberedSound(START, request.requestId);
        RememberedKeeps(START, request.requestId);
        StartExecutes(Remembered(START, request.requestId), request.requestId, request.command, first.env);
      } else {
        OthersChangeNothing(START, first.frame, first.context, first.env);
      }
    }
  }

  lemma StartExecutes(st: ServiceState, requestId: string, command: ControlCommand, env: Env)
    requires Sound(st) && IdsValid(command) && st.machine == IDLE
    ensures Execute(st, requestId, command, env).0.machine.phase != Disconnecting
  {
    hide ValidIdentifier, Blank, LoadFor, DisconnectAll, IsConnected, Store, Deleted, ValidWireGuard, ValidAmneziaWg,
         ValidVless, ConnectStep, DisconnectStep, ReconcileStep, ImportStep, StatisticsOf, Coherent;
    match command
    case Status => StatusSteps(st, env);
    case Connect(operationId, profileId, protocol, killSwitch) => ConnectSteps(st, operationId, profileId, protocol,
      killSwitch, env);
    case Disconnect(operationId) => DisconnectSteps(st, operationId, env);
    case ImportWireGuard(operationId, p) => ImportSteps(st, operationId, WireGuardKind(p), env);
    case ImportAmneziaWg(operationId, p) => ImportSteps(st, operationId, AmneziaWgKind(p), env);
    case ImportVless(operationId, p) => ImportSteps(st, operationId, VlessKind(p), env);
    case _ =>
  }

  /** A wedged machine refuses every connect and every disconnect it hears. */
  lemma WedgedIsBusy(inputs: seq<Input>, frame: Bytes, context: AuthorizationContext, env: Env)
    requires Wedged(StateAfter(inputs)) && Executed(StateAfter(inputs), frame, context)
    requires Request(frame).command.Connect? || Request(frame).command.Disconnect?
    ensures FrameStep(StateAfter(inputs), frame, context, env).1.code == "BUSY"
    ensures StateAfter(inputs + [Frame(frame, context, env)]).backend == StateAfter(inputs).backend
  {
    hide ValidIdentifier, Wire.DecodeRequest, Coherent, ConnectStep, DisconnectStep, StateAfter, Remembered;
    var st, command := StateAfter(inputs), Request(frame).command;
    RunSound(inputs);
    NextInput(inputs, Frame(frame, context, env));
    DecodedIds(frame);
    var heard := Remembered(st, Request(frame).requestId);
    RememberedSound(st, Request(frame).requestId);
    RememberedKeeps(st, Request(frame).requestId);
    match command
    case Connect(operationId, profileId, protocol, killSwitch) =>
      ConnectSteps(heard, operationId, profileId, protocol, killSwitch, env);
    case Disconnect(operationId) => DisconnectSteps(heard, operationId, env);
  }
}
