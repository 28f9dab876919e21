/** The command processor of the privileged service and the frame handler around it. */
module Service {
  import opened Basics
  import opened Contracts
  import opened Machine
  import opened Vault
  import opened Backend
  import Wire
  import WireCodec
  import WireFraming

  const MAX_RECENT_REQUESTS := 256

  datatype AuthorizationContext = AuthorizationContext(
    isLocal: bool, isAuthenticated: bool, clientSessionId: U32, allowedSessionId: U32)
  {
    predicate IsAllowed() {
      isLocal && isAuthenticated && clientSessionId != 0 && clientSessionId == allowedSessionId
    }
  }

  /** The outcomes of all system calls that one request may make. */
  datatype Env = Env(vault: VaultEnv, backend: BackendEnv)

  datatype ServiceState = ServiceState(
    machine: StateEvent, recentIds: seq<string>, recentIdSet: set<string>, files: Files, backend: BackendState)

  const START := ServiceState(IDLE, [], {}, map[], BackendState(false, false, false, None))

  datatype CommandOutcome = CommandOutcome(
    requestId: string, state: StateEvent, code: string, statistics: Option<TunnelStatistics>)

  function FailureCode(f: BackendFailure): (ConnectionPhase, string) {
    match f
    case EngineUnavailable => (ConnectionPhase.Error, "ENGINE_NOT_INSTALLED")
    case NetworkDown => (NoNetwork, "NO_NETWORK")
    case ServerDown => (ServerUnavailable, "SERVER_UNAVAILABLE")
    case ProfileRefused => (ConnectionPhase.Error, "INVALID_PROFILE")
    case UnsupportedFeature => (ConnectionPhase.Error, "UNSUPPORTED_FEATURE")
    case Internal => (ConnectionPhase.Error, "ENGINE_FAILED")
  }

  function EngineFor(p: Protocol): Engine {
    match p case WireGuard => WireGuardEngine case AmneziaWg => AmneziaWgEngine case VlessReality => XrayEngine
  }

  type Coded = (ServiceState, Result<string, CommandError>)

  function Remembered(st: ServiceState, id: string): ServiceState {
    var full := |st.recentIds| == MAX_RECENT_REQUESTS;
    var ids := if full then st.recentIds[1..] else st.recentIds;
    var known := if full then st.recentIdSet - {st.recentIds[0]} else st.recentIdSet;
    st.(recentIds := ids + [id], recentIdSet := known + {id})
  }

  /** Whether the profile to connect with can be loaded, and whether the engine will find it valid. */
  function LoadFor(files: Files, protocol: Protocol, handle: string, env: VaultEnv): Result<bool, CommandError> {
    match protocol
    case WireGuard => var p :- LoadedWireGuard(files, handle, env); Ok(ValidWireGuard(p))
    case AmneziaWg => var p :- LoadedAmneziaWg(files, handle, env); Ok(ValidAmneziaWg(p))
    case VlessReality => var p :- LoadedVless(files, handle, env); Ok(ValidVless(p))
  }

  /** Records the engine's answer in the machine. */
  function Settle(st: ServiceState, result: Done): Coded {
    match result
    case Ok(_) =>
      (match st.machine.MarkConnected(false)
       case Ok(m) => (st.(machine := m), Ok("CONNECTED"))
       case Err(e) => (st, Err(e)))
    case Err(failure) => FailWith(st, failure)
  }

  function FailWith(st: ServiceState, failure: BackendFailure): Coded {
    var (phase, code) := FailureCode(failure);
    match st.machine.Fail(phase, code)
    case Ok(m) => (st.(machine := m), Ok(code))
    case Err(e) => (st, Err(e))
  }

  function AfterReset(st: ServiceState): ServiceState {
    if st.machine.phase.IsFailure() then st.(machine := IDLE) else st
  }

  function ConnectStep(st0: ServiceState, operationId: string, profileId: string, protocol: Protocol,
    killSwitch: bool, env: Env): Coded
  {
    var st := AfterReset(st0);
    match st.machine.BeginConnect(operationId, profileId)
    case Err(e) => (st, Err(e))
    case Ok(validating) =>
      match validating.MarkValidated()
      case Err(e) => (st.(machine := validating), Err(e))
      case Ok(connecting) =>
        var begun := st.(machine := connecting);
        match LoadFor(st.files, protocol, profileId, env.vault)
        case Err(e) => (begun, Err(e))
        case Ok(valid) =>
          var (backend, result) := ConnectEngine(st.backend, EngineFor(protocol), killSwitch, valid, env.backend);
          Settle(begun.(backend := backend), result)
  }

  function DisconnectStep(st: ServiceState, operationId: string, env: Env): Coded {
    if st.machine.phase.IsFailure() then
      var (backend, result) := DisconnectAll(st.backend, env.backend);
      if result.Err? then (st.(backend := backend), Err(ProfileStoreUnavailable))
      else (st.(backend := backend, machine := IDLE), Ok("DISCONNECTED"))
    else
      match st.machine.BeginDisconnect(operationId)
      case Err(e) => (st, Err(e))
      case Ok(disconnecting) =>
        var (backend, result) := DisconnectAll(st.backend, env.backend);
        if result.Err? then (st.(backend := backend, machine := disconnecting), Err(ProfileStoreUnavailable))
        else (st.(backend := backend, machine := IDLE), Ok("DISCONNECTED"))
  }

  function ReconcileStep(st: ServiceState, env: Env): Coded {
    if st.machine.phase != Connected && st.machine.phase != Reconnecting then (st, Ok("OK"))
    else
      match IsConnected(st.backend, env.backend)
      case Ok(up) => if up then (st, Ok("OK")) else (st.(machine := IDLE), Ok("TUNNEL_STOPPED"))
      case Err(failure) => FailWith(st, failure)
  }

  predicate ValidProfile(p: Profile) {
    match p
    case WireGuardKind(w) => ValidWireGuard(w)
    case AmneziaWgKind(a) => ValidAmneziaWg(a)
    case VlessKind(v) => ValidVless(v)
  }

  function ImportStep(st: ServiceState, operationId: string, p: Profile, valid: bool, env: Env): Coded {
    if Blank(operationId) then (st, Err(EmptyOperationId))
    else if !valid then (st, Err(BadProfile))
    else
      var (files, stored) := Store(st.files, p, env.vault);
      (st.(files := files),
       match stored
       case Err(e) => Err(e)
       case Ok(handle) => if ValidIdentifier(handle) then Ok(handle) else Err(ProfileStoreUnavailable))
  }

  type Answer = (ServiceState, Result<CommandOutcome, CommandError>)

  function Reply(requestId: string, coded: Coded): Answer {
    (coded.0, match coded.1
              case Err(e) => Err(e)
              case Ok(code) => Ok(CommandOutcome(requestId, coded.0.machine, code, None)))
  }

  function ReplyStored(requestId: string, coded: Coded): Answer {
    (coded.0, match coded.1
              case Err(e) => Err(e)
              case Ok(handle) =>
                Ok(CommandOutcome(requestId, coded.0.machine.(profileId := Some(handle)), "PROFILE_STORED", None)))
  }

  function Execute(st: ServiceState, requestId: string, command: ControlCommand, env: Env): Answer {
    match command
    case Status => Reply(requestId, ReconcileStep(st, env))
    case Diagnostics => Reply(requestId, (st, Ok("DIAGNOSTICS_REDACTED")))
    case Connect(operationId, profileId, protocol, killSwitch) =>
      Reply(requestId, ConnectStep(st, operationId, profileId, protocol, killSwitch, env))
    case Disconnect(operationId) => Reply(requestId, DisconnectStep(st, operationId, env))
    case ImportWireGuard(operationId, p) =>
      ReplyStored(requestId, ImportStep(st, operationId, WireGuardKind(p), ValidWireGuard(p), env))
    case ImportAmneziaWg(operationId, p) =>
      ReplyStored(requestId, ImportStep(st, operationId, AmneziaWgKind(p), ValidAmneziaWg(p), env))
    case ImportVless(operationId, p) =>
      ReplyStored(requestId, ImportStep(st, operationId, VlessKind(p), ValidVless(p), env))
    case DeleteProfile(operationId, profileId) =>
      if Blank(operationId) then (st, Err(EmptyOperationId))
      else if Blank(profileId) then (st, Err(EmptyProfileId))
      else
        var (files, deleted) := Deleted(st.files, profileId, env.vault);
        Reply(requestId, (st.(files := files), if deleted.Ok? then Ok("PROFILE_DELETED") else Err(deleted.error)))
    case Statistics =>
      match StatisticsOf(st.backend, env.backend)
      case Ok(s) => (st, Ok(CommandOutcome(requestId, st.machine, "OK", Some(s))))
      case Err(failure) => (st, Ok(CommandOutcome(requestId, st.machine, FailureCode(failure).1, None)))
  }

  function ProcessStep(st: ServiceState, context: AuthorizationContext, r: RequestEnvelope, env: Env): Answer {
    if !context.IsAllowed() then (st, Err(UnauthorizedCaller))
    else if r.requestId in st.recentIdSet then (st, Err(DuplicateRequest))
    else Execute(Remembered(st, r.requestId), r.requestId, r.command, env)
  }

  ////////// Frames //////////

  const INVALID_REQUEST_ID := "invalid-request"

  function SafeError(requestId: string, code: string): ResponseEnvelope {
    ResponseEnvelope(CONTRACT_VERSION, requestId, ConnectionPhase.Error, None, false, code, None)
  }

  function ErrorCode(e: CommandError): string {
    match e
    case Busy => "BUSY"
    case DuplicateRequest => "DUPLICATE_REQUEST"
    case EmptyOperationId => "INVALID_REQUEST"
    case EmptyProfileId => "INVALID_REQUEST"
    case InvalidFailurePhase => "INVALID_REQUEST"
    case BadProfile => "INVALID_REQUEST"
    case ProfileNotFound => "PROFILE_NOT_FOUND"
    case ProfileStoreUnavailable => "PROFILE_STORE_UNAVAILABLE"
    case UnauthorizedCaller => "UNAUTHORIZED"
  }

  function Respond(r: RequestEnvelope, outcome: Result<CommandOutcome, CommandError>): ResponseEnvelope {
    match outcome
    case Ok(o) =>
      ResponseEnvelope(CONTRACT_VERSION, o.requestId, o.state.phase, o.state.profileId, o.state.killSwitchActive,
        o.code, o.statistics)
    case Err(e) => SafeError(r.requestId, ErrorCode(e))
  }

  function FrameStep(st: ServiceState, frame: Bytes, context: AuthorizationContext, env: Env): (ServiceState,
      ResponseEnvelope) {
    match Wire.DecodeRequest(frame)
    case Err(_) => (st, SafeError(INVALID_REQUEST_ID, "INVALID_REQUEST"))
    case Ok(r) =>
      var (after, outcome) := ProcessStep(st, context, r, env);
      (after, Respond(r, outcome))
  }

  /** One pipe connection: a stream comes in, and the bytes of at most one response go out. */
  function ConnectionStep(st: ServiceState, stream: Bytes, context: AuthorizationContext, env: Env)
    : (ServiceState, Option<Result<Bytes, FrameError>>)
  {
    match WireFraming.ReadFrame(stream)
    case Closed => (st, None)
    case Malformed(_) => (st, Some(Wire.EncodeResponse(SafeError(INVALID_REQUEST_ID, "INVALID_REQUEST"))))
    case Whole(frame, _) =>
      var (after, response) := FrameStep(st, frame, context, env);
      (after, Some(Wire.EncodeResponse(response)))
  }

  ////////// The processor as it runs //////////

  class ServiceCommandProcessor {
    const machine: ConnectionStateMachine
    var recentIds: seq<string>
    var recentIdSet: set<string>
    const vault: DpapiProfileVault
    const backend: WindowsVpnBackend

    constructor ()
      ensures Valid() && Abs() == START
      ensures fresh(machine) && fresh(vault) && fresh(backend) && fresh(backend.Repr())
    {
      machine := new ConnectionStateMachine();
      recentIds, recentIdSet := [], {};
      vault := new DpapiProfileVault();
      backend := new WindowsVpnBackend();
    }

    ghost predicate Valid() { backend.Valid() }

    ghost function Repr(): set<object> { {this, machine, vault} + backend.Repr() }

    ghost function Abs(): ServiceState
      reads Repr()
    {
      ServiceState(machine.state, recentIds, recentIdSet, vault.files, backend.Abs())
    }

    method Remember(requestId: string)
      modifies this
      ensures Abs() == Remembered(old(Abs()), requestId)
    {
      if |recentIds| == MAX_RECENT_REQUESTS {
        var expired := recentIds[0];
        recentIds := recentIds[1..];
        recentIdSet := recentIdSet - {expired};
      }
      recentIdSet := recentIdSet + {requestId};
      recentIds := recentIds + [requestId];
    }

    method Fail(failure: BackendFailure) returns (r: Result<string, CommandError>)
      requires Valid()
      modifies machine
      ensures (Abs(), r) == FailWith(old(Abs()), failure)
    {
      var (phase, code) := FailureCode(failure);
      var _ :- machine.Fail(phase, code);
      r := Ok(code);
    }

    method Load(protocol: Protocol, handle: string, env: VaultEnv) returns (r: Result<bool, CommandError>)
      ensures r == LoadFor(vault.files, protocol, handle, env)
    {
      hide LoadedWireGuard, LoadedAmneziaWg, LoadedVless, ValidWireGuard, ValidAmneziaWg, ValidVless;
      match protocol {
        case WireGuard =>
          var p :- vault.LoadWireGuard(handle, env);
          r := Ok(ValidWireGuard(p));
        case AmneziaWg =>
          var p :- vault.LoadAmneziaWg(handle, env);
          r := Ok(ValidAmneziaWg(p));
        case VlessReality =>
          var p :- vault.LoadVless(handle, env);
          r := Ok(ValidVless(p));
      }
    }

    method StartTunnel(protocol: Protocol, killSwitch: bool, valid: bool, env: BackendEnv) returns (result: Done)
      requires Valid()
      modifies backend.Repr()
      ensures (backend.Abs(), result) == ConnectEngine(old(backend.Abs()), EngineFor(protocol), killSwitch, valid, env)
    {
      hide ConnectEngine;
      match protocol {
        case WireGuard => result := backend.ConnectWireGuard(killSwitch, valid, env);
        case AmneziaWg => result := backend.ConnectAmneziaWg(killSwitch, valid, env);
        case VlessReality => result := backend.ConnectVless(killSwitch, valid, env);
      }
    }

    method ConnectRequest(operationId: string, profileId: string, protocol: Protocol, killSwitch: bool, env: Env)
      returns (r: Result<string, CommandError>)
      requires Valid()
      modifies Repr()
      ensures (Abs(), r) == ConnectStep(old(Abs()), operationId, profileId, protocol, killSwitch, env)
    {
      hide LoadFor, ConnectEngine, Blank, FailWith, EngineFor;
      if machine.state.phase.IsFailure() { var _ := machine.ResetFailure(); }
      var _ :- machine.BeginConnect(operationId, profileId);
      var _ :- machine.MarkValidated();
      var valid :- Load(protocol, profileId, env.vault);
      var result := StartTunnel(protocol, killSwitch, valid, env.backend);
      if result.Err? {
        r := Fail(result.error);
      } else {
        var _ := machine.MarkConnected(false);
        r := Ok("CONNECTED");
      }
    }

    method DisconnectRequest(operationId: string, env: Env) returns (r: Result<string, CommandError>)
      requires Valid()
      modifies Repr()
      ensures (Abs(), r) == DisconnectStep(old(Abs()), operationId, env)
    {
      hide DisconnectAll, Blank;
      if machine.state.phase.IsFailure() {
        var stopped := backend.Disconnect(env.backend);
        if stopped.Err? { return Err(ProfileStoreUnavailable); }
        var _ := machine.ResetFailure();
      } else {
        var _ :- machine.BeginDisconnect(operationId);
        var stopped := backend.Disconnect(env.backend);
        if stopped.Err? { return Err(ProfileStoreUnavailable); }
        var _ := machine.MarkDisconnected();
      }
      r := Ok("DISCONNECTED");
    }

    method ReconcileStatus(env: Env) returns (r: Result<string, CommandError>)
      requires Valid()
      modifies machine
      ensures (Abs(), r) == ReconcileStep(old(Abs()), env)
    {
      hide IsConnected;
      if machine.state.phase != Connected && machine.state.phase != Reconnecting { return Ok("OK"); }
      var up := backend.TunnelUp(env.backend);
      if up.Err? {
        r := Fail(up.error);
      } else if up.value {
        r := Ok("OK");
      } else {
        machine.ReconcileDisconnected();
        r := Ok("TUNNEL_STOPPED");
      }
    }

    method ImportProfile(operationId: string, p: Profile, env: Env) returns (r: Result<string, CommandError>)
      requires Valid()
      modifies vault
      ensures (Abs(), r) == ImportStep(old(Abs()), operationId, p, ValidProfile(p), env)
    {
      hide Store, ValidIdentifier, ValidWireGuard, ValidAmneziaWg, ValidVless, Blank;
      if Blank(operationId) { return Err(EmptyOperationId); }
      if !ValidProfile(p) { return Err(BadProfile); }
      var handle;
      match p {
        case WireGuardKind(w) => handle :- vault.StoreWireGuard(w, env.vault);
        case AmneziaWgKind(a) => handle :- vault.StoreAmneziaWg(a, env.vault);
        case VlessKind(v) => handle :- vault.StoreVless(v, env.vault);
      }
      if !ValidIdentifier(handle) { return Err(ProfileStoreUnavailable); }
      r := Ok(handle);
    }

    method Process(context: AuthorizationContext, request: RequestEnvelope, env: Env)
      returns (r: Result<CommandOutcome, CommandError>)
      requires Valid()
      modifies Repr()
      ensures (Abs(), r) == ProcessStep(old(Abs()), context, request, env)
    {
      if !context.IsAllowed() { return Err(UnauthorizedCaller); }
      if request.requestId in recentIdSet { return Err(DuplicateRequest); }
      Remember(request.requestId);
      r := Dispatch(request.requestId, request.command, env);
    }

    method Dispatch(requestId: string, command: ControlCommand, env: Env)
      returns (r: Result<CommandOutcome, CommandError>)
      requires Valid()
      modifies Repr()
      ensures (Abs(), r) == Execute(old(Abs()), requestId, command, env)
    {
      hide ConnectStep, DisconnectStep, ReconcileStep, ImportStep, Deleted, StatisticsOf, Blank, FailureCode;
      var code, returnedProfileId, statistics := "", None, None;
      match command {
        case Status => code :- ReconcileStatus(env);
        case Diagnostics => code := "DIAGNOSTICS_REDACTED";
        case Connect(operationId, profileId, protocol, killSwitch) =>
          code :- ConnectRequest(operationId, profileId, protocol, killSwitch, env);
        case Disconnect(operationId) => code :- DisconnectRequest(operationId, env);
        case ImportWireGuard(operationId, p) =>
          var handle :- ImportProfile(operationId, WireGuardKind(p), env);
          code, returnedProfileId := "PROFILE_STORED", Some(handle);
        case ImportAmneziaWg(operationId, p) =>
          var handle :- ImportProfile(operationId, AmneziaWgKind(p), env);
          code, returnedProfileId := "PROFILE_STORED", Some(handle);
        case ImportVless(operationId, p) =>
          var handle :- ImportProfile(operationId, VlessKind(p), env);
          code, returnedProfileId := "PROFILE_STORED", Some(handle);
        case DeleteProfile(operationId, profileId) =>
          if Blank(operationId) { return Err(EmptyOperationId); }
          if Blank(profileId) { return Err(EmptyProfileId); }
          var _ :- vault.Delete(profileId, env.vault);
          code := "PROFILE_DELETED";
        case Statistics =>
          var s := backend.Statistics(env.backend);
          if s.Ok? { code, statistics := "OK", Some(s.value); } else { code := FailureCode(s.error).1; }
      }
      var state := machine.state;
      if returnedProfileId.Some? { state := state.(profileId := returnedProfileId); }
      r := Ok(CommandOutcome(requestId, state, code, statistics));
    }
  }

  method ProcessFrame(processor: ServiceCommandProcessor, frame: Bytes, context: AuthorizationContext, env: Env)
    returns (response: ResponseEnvelope)
    requires processor.Valid()
    modifies processor.Repr()
    ensures (processor.Abs(), response) == FrameStep(old(processor.Abs()), frame, context, env)
  {
    hide ProcessStep, Wire.DecodeRequest;
    var request := WireCodec.DecodeRequestBytes(frame);
    if request.Err? { return SafeError(INVALID_REQUEST_ID, "INVALID_REQUEST"); }
    var outcome := processor.Process(context, request.value, env);
    response := Respond(request.value, outcome);
  }

  /** Reads a header, then as much as it declares, and writes one response. */
  method HandleOne(processor: ServiceCommandProcessor, stream: Bytes, context: AuthorizationContext, env: Env)
    returns (answer: Option<Result<Bytes, FrameError>>)
    requires processor.Valid()
    modifies processor.Repr()
    ensures (processor.Abs(), answer) == ConnectionStep(old(processor.Abs()), stream, context, env)
  {
    hide FrameStep, Wire.EncodeResponse, Wire.DeclaredFrameSize;
    if |stream| < 12 { return None; }
    var size := Wire.DeclaredFrameSize(stream[..12]);
    var response := SafeError(INVALID_REQUEST_ID, "INVALID_REQUEST");
    if size.Ok? {
      if |stream| < size.value { return None; }
      response := ProcessFrame(processor, stream[..size.value], context, env);
    }
    var bytes := WireCodec.EncodeResponseBytes(response);
    answer := Some(bytes);
  }
}
