/** What each request is answered after every run, and which profile the answers name. */
module ServiceAnswers {
  import opened Basics
  import opened Contracts
  import opened Machine
  import opened Vault
  import opened Backend
  import opened Service
  import opened ServiceSteps
  import opened ServiceRuns
  import opened ServiceStorage
  import ImportLimits
  import Provisioning
  import Wire
  import WireFraming

  ////////// The forms of an answer //////////

  /** An answer that reports an error and nothing else. */
  function Refusal(requestId: string, code: string): ResponseEnvelope {
    ResponseEnvelope(4, requestId, ConnectionPhase.Error, None, false, code, None)
  }

  function Report(requestId: string, phase: ConnectionPhase, profileId: Option<string>, code: string,
      statistics: Option<TunnelStatistics>): ResponseEnvelope {
    ResponseEnvelope(4, requestId, phase, profileId, false, code, statistics)
  }

  /** The phase a failure of the backend leads to, and the code it is reported with. */
  const FAILURES: map<BackendFailure, (ConnectionPhase, string)> := map[
    EngineUnavailable := (ConnectionPhase.Error, "ENGINE_NOT_INSTALLED"),
    NetworkDown := (NoNetwork, "NO_NETWORK"),
    ServerDown := (ServerUnavailable, "SERVER_UNAVAILABLE"),
    ProfileRefused := (ConnectionPhase.Error, "INVALID_PROFILE"),
    UnsupportedFeature := (ConnectionPhase.Error, "UNSUPPORTED_FEATURE"),
    Internal := (ConnectionPhase.Error, "ENGINE_FAILED")]

  lemma FailureKnown(f: BackendFailure)
    ensures f in FAILURES && FailureCode(f) == FAILURES[f]
  {
  }

  function InMachine(phase: ConnectionPhase, profileId: Option<string>, errorCode: Option<string>): StateEvent {
    StateEvent(4, phase, profileId, false, errorCode)
  }

  /** An executed frame is the request it decodes to, carried out after its id was remembered. */
  lemma HeardStep(st: ServiceState, frame: Bytes, context: AuthorizationContext, env: Env)
    requires Executed(st, frame, context)
    ensures var request := Request(frame);
      var (after, outcome) := Execute(Remembered(st, request.requestId), request.requestId, request.command, env);
      FrameStep(st, frame, context, env) == (after, Respond(request, outcome))
  {
    hide Execute, Remembered, Respond, Wire.DecodeRequest;
  }

  ////////// Connecting //////////

  /** The calls made for an engine. */
  function Calls(env: BackendEnv, protocol: Protocol): EngineEnv {
    match protocol case WireGuard => env.wireguard case AmneziaWg => env.amneziawg case VlessReality => env.xray
  }

  function StopFailure(o: StopOutcome): seq<BackendFailure> { if o.StopFailed? then [o.failure] else [] }

  function StopFailures(env: BackendEnv): seq<BackendFailure> {
    StopFailure(env.wireguard.stop) + StopFailure(env.amneziawg.stop) + StopFailure(env.xray.stop)
  }

  /** Everything that can fail when a valid profile is connected, in the order in which it is met. */
  function Failures(env: BackendEnv, protocol: Protocol, killSwitch: bool): seq<BackendFailure> {
    var calls := Calls(env, protocol);
    StopFailures(env)
    + (if killSwitch then [UnsupportedFeature] else [])
    + StopFailure(calls.cleanup)
    + (if calls.prepare.Some? then [calls.prepare.value] else [])
    + if calls.start.StartFailed? then [calls.start.failure] else []
  }

  lemma StartsExactly(s: BackendState, protocol: Protocol, killSwitch: bool, env: BackendEnv)
    ensures var failures := Failures(env, protocol, killSwitch);
      ConnectEngine(s, EngineFor(protocol), killSwitch, true, env).1
        == if failures == [] then Ok(()) else Err(failures[0])
  {
  }

  /** Which engine runs for a protocol. */
  predicate TunnelRuns(b: BackendState, protocol: Protocol) {
    match protocol
    case WireGuard => b.wireguard && b.active == Some(WireGuardEngine)
    case AmneziaWg => b.amneziawg && b.active == Some(AmneziaWgEngine)
    case VlessReality => b.xray && b.active == Some(XrayEngine)
  }

  predicate KindPrefix(handle: string, protocol: Protocol) {
    match protocol
    case WireGuard => true
    case AmneziaWg => HasPrefix(handle, "awg-")
    case VlessReality => HasPrefix(handle, "xray-")
  }

  predicate IsThere(inputs: seq<Input>, handle: string) { FileName(handle) in StateAfter(inputs).files }

  predicate IsTorn(inputs: seq<Input>, handle: string) {
    IsThere(inputs, handle) && StateAfter(inputs).files[FileName(handle)].Torn?
  }

  /** Why the profile of a handle cannot be loaded after a run, if so. */
  function LoadProblem(inputs: seq<Input>, protocol: Protocol, handle: string, env: VaultEnv): Option<string> {
    if !ValidHandle(handle) || !KindPrefix(handle, protocol) then Some("PROFILE_NOT_FOUND")
    else if env.readFails then Some("PROFILE_STORE_UNAVAILABLE")
    else if !IsThere(inputs, handle) then Some("PROFILE_NOT_FOUND")
    else if env.unprotectFails || IsTorn(inputs, handle) then Some("PROFILE_STORE_UNAVAILABLE")
    else if OfProtocol(Found(inputs, handle), protocol) then None
    else Some("INVALID_REQUEST")
  }

  lemma LoadsExactly(inputs: seq<Input>, protocol: Protocol, handle: string, env: VaultEnv)
    ensures var problem := LoadProblem(inputs, protocol, handle, env);
      var loaded := LoadFor(StateAfter(inputs).files, protocol, handle, env);
      if problem.None? then loaded == Ok(true) else loaded.Err? && ErrorCode(loaded.error) == problem.value
  {
    hide StateAfter, Found, OfProtocol, ValidHandle, FileName, Wire.DecodeWireGuardProfile,
         Wire.DecodeAmneziaWgProfile, Wire.DecodeVlessProfile, ValidWireGuard, ValidAmneziaWg, ValidVless;
    LoadedIsValid(StateAfter(inputs).files, protocol, handle, env);
    if Readable(env) { LoadableExactly(inputs, protocol, handle, env); }
  }

  /**
    A connect that is heard: refused while busy; if its profile cannot be loaded, answered with the reason and
    left Connecting; otherwise Connected, or in the failure that came first. The profile named is its own.
   */
  lemma ConnectAnswer(inputs: seq<Input>, frame: Bytes, context: AuthorizationContext, env: Env)
    requires Executed(StateAfter(inputs), frame, context) && Request(frame).command.Connect?
    ensures var st := StateAfter(inputs);
      var (after, response) := FrameStep(st, frame, context, env);
      var Connect(_, profileId, protocol, killSwitch) := Request(frame).command;
      var id := Request(frame).requestId;
      var problem := LoadProblem(inputs, protocol, profileId, env.vault);
      var failures := Failures(env.backend, protocol, killSwitch);
      if !AtRest(st) then
        response == Refusal(id, "BUSY") && after.machine == st.machine && after.backend == st.backend
      else if problem.Some? then
        response == Refusal(id, problem.value) && after.machine == InMachine(Connecting, Some(profileId), None)
        && after.backend == st.backend
      else if failures == [] then
        response == Report(id, Connected, Some(profileId), "CONNECTED", None)
        && after.machine == InMachine(Connected, Some(profileId), None) && TunnelRuns(after.backend, protocol)
      else
        failures[0] in FAILURES
        && var (phase, code) := FAILURES[failures[0]];
        response == Report(id, phase, Some(profileId), code, None)
        && after.machine == InMachine(phase, Some(profileId), Some(code)) && after.backend.active == None
  {
    hide StateAfter, ValidIdentifier, Wire.DecodeRequest, LoadFor, ConnectEngine, Failures, FAILURES, Remembered,
         Coherent, Blank, LoadProblem, FailureCode;
    var st := StateAfter(inputs);
    var Connect(operationId, profileId, protocol, killSwitch) := Request(frame).command;
    RunSound(inputs);
    DecodedIds(frame);
    HeardStep(st, frame, context, env);
    RememberedKeeps(st, Request(frame).requestId);
    IdentifierNotBlank(operationId);
    IdentifierNotBlank(profileId);
    LoadsExactly(inputs, protocol, profileId, env.vault);
    StartsExactly(st.backend, protocol, killSwitch, env.backend);
    ConnectRuns(st.backend, EngineFor(protocol), killSwitch, true, env.backend, EngineFor(protocol));
    var failures := Failures(env.backend, protocol, killSwitch);
    if failures != [] {
      FailureKnown(failures[0]);
      FailureIsFailure(failures[0]);
    }
  }

  lemma FailureIsFailure(f: BackendFailure)
    ensures FailureCode(f).0.IsFailure()
  {
  }

  ////////// Disconnecting and asking //////////

  /** A disconnect that is heard: refused unless there is a connection or a failure; idle if no stop fails. */
  lemma DisconnectAnswer(inputs: seq<Input>, frame: Bytes, context: AuthorizationContext, env: Env)
    requires Executed(StateAfter(inputs), frame, context) && Request(frame).command.Disconnect?
    ensures var st := StateAfter(inputs);
      var (after, response) := FrameStep(st, frame, context, env);
      var id := Request(frame).requestId;
      if st.machine.phase != Connected && !st.machine.phase.IsFailure() then
        response == Refusal(id, "BUSY") && after.machine == st.machine && after.backend == st.backend
      else if StopFailures(env.backend) == [] then
        response == Report(id, Disconnected, None, "DISCONNECTED", None)
        && after.machine == InMachine(Disconnected, None, None) && after.backend.active == None
      else
        response == Refusal(id, "PROFILE_STORE_UNAVAILABLE") && after.backend.active == None
        && after.machine == (if st.machine.phase == Connected then
            InMachine(Disconnecting, st.machine.profileId, None) else st.machine)
  {
    hide StateAfter, ValidIdentifier, Wire.DecodeRequest, DisconnectAll, Remembered, Blank;
    var st := StateAfter(inputs);
    var operationId := Request(frame).command.operationId;
    RunSound(inputs);
    DecodedIds(frame);
    HeardStep(st, frame, context, env);
    RememberedKeeps(st, Request(frame).requestId);
    IdentifierNotBlank(operationId);
    DisconnectRuns(st.backend, env.backend, WireGuardEngine);
    StopsExactly(env.backend);
    UnavailableCode();
    if !AllStop(env.backend) {
      assert DisconnectAll(st.backend, env.backend).1.Err?;
      assert st.machine.phase == Connected || st.machine.phase.IsFailure() ==>
        DisconnectStep(Remembered(st, Request(frame).requestId), operationId, env).1 == Err(ProfileStoreUnavailable);
    }
  }

  lemma UnavailableCode()
    ensures ErrorCode(ProfileStoreUnavailable) == "PROFILE_STORE_UNAVAILABLE"
  {
  }

  lemma StopsExactly(env: BackendEnv)
    ensures StopFailures(env) == [] <==> AllStop(env)
  {
  }

  /** What the query of an engine is answered: it runs, it does not, or it cannot be asked. */
  function Asked(running: bool, query: QueryOutcome): Result<bool, BackendFailure> {
    match query
    case Sees => Ok(running)
    case Misses => Ok(false)
    case QueryFailed(failure) => Err(failure)
  }

  /** What the active engine, if any, says about its tunnel. */
  function ActiveAsked(b: BackendState, env: BackendEnv): Option<Result<bool, BackendFailure>> {
    match b.active
    case None => None
    case Some(WireGuardEngine) => Some(Asked(b.wireguard, env.wireguard.query))
    case Some(AmneziaWgEngine) => Some(Asked(b.amneziawg, env.amneziawg.query))
    case Some(XrayEngine) => Some(Asked(b.xray, env.xray.query))
  }

  /**
    A status request that is heard: nothing happens unless the machine is Connected; then the active engine is
    asked, and a tunnel that is gone makes the machine idle, one that cannot be asked puts it in a failure.
   */
  lemma StatusAnswer(inputs: seq<Input>, frame: Bytes, context: AuthorizationContext, env: Env)
    requires Executed(StateAfter(inputs), frame, context) && Request(frame).command.Status?
    ensures var st := StateAfter(inputs);
      var (after, response) := FrameStep(st, frame, context, env);
      var id := Request(frame).requestId;
      var answer := ActiveAsked(st.backend, env.backend);
      after.backend == st.backend &&
      if st.machine.phase != Connected || answer == Some(Ok(true)) then
        response == Report(id, st.machine.phase, st.machine.profileId, "OK", None) && after.machine == st.machine
      else if answer == Some(Ok(false)) then
        response == Report(id, Disconnected, None, "TUNNEL_STOPPED", None)
        && after.machine == InMachine(Disconnected, None, None)
      else
        answer.Some? && answer.value.Err? && answer.value.error in FAILURES
        && var (phase, code) := FAILURES[answer.value.error];
        response == Report(id, phase, st.machine.profileId, code, None)
        && after.machine == InMachine(phase, st.machine.profileId, Some(code))
  {
    hide StateAfter, ValidIdentifier, Wire.DecodeRequest, Remembered, Blank, FAILURES, FailureCode;
    var st := StateAfter(inputs);
    RunSound(inputs);
    HeardStep(st, frame, context, env);
    RememberedKeeps(st, Request(frame).requestId);
    var up := IsConnected(st.backend, env.backend);
    if up.Err? {
      FailureKnown(up.error);
      FailureIsFailure(up.error);
    }
  }

  /** What the active engine, if any, counts. */
  function ActiveCounts(b: BackendState, env: BackendEnv): Option<Result<TunnelStatistics, BackendFailure>> {
    match b.active
    case None => None
    case Some(WireGuardEngine) => Some(env.wireguard.statistics)
    case Some(AmneziaWgEngine) => Some(env.amneziawg.statistics)
    case Some(XrayEngine) => Some(env.xray.statistics)
  }

  /** Statistics are those of the active engine; neither they nor diagnostics change anything. */
  lemma StatisticsAnswer(inputs: seq<Input>, frame: Bytes, context: AuthorizationContext, env: Env)
    requires Executed(StateAfter(inputs), frame, context)
    requires Request(frame).command.Statistics? || Request(frame).command.Diagnostics?
    ensures var st := StateAfter(inputs);
      var (after, response) := FrameStep(st, frame, context, env);
      var (id, m) := (Request(frame).requestId, st.machine);
      after.machine == m && after.backend == st.backend && after.files == st.files &&
      if Request(frame).command.Diagnostics? then
        response == Report(id, m.phase, m.profileId, "DIAGNOSTICS_REDACTED", None)
      else
        match ActiveCounts(st.backend, env.backend)
        case None => response == Report(id, m.phase, m.profileId, "ENGINE_NOT_INSTALLED", None)
        case Some(Ok(counts)) => response == Report(id, m.phase, m.profileId, "OK", Some(counts))
        case Some(Err(failure)) =>
          failure in FAILURES && response == Report(id, m.phase, m.profileId, FAILURES[failure].1, None)
  {
    hide StateAfter, ValidIdentifier, Wire.DecodeRequest, Remembered, Blank, FAILURES, FailureCode;
    var st := StateAfter(inputs);
    RunSound(inputs);
    HeardStep(st, frame, context, env);
    RememberedKeeps(st, Request(frame).requestId);
    var counts := StatisticsOf(st.backend, env.backend);
    if counts.Err? { FailureKnown(counts.error); }
    EngineMissing();
  }

  lemma EngineMissing()
    ensures FailureCode(EngineUnavailable).1 == "ENGINE_NOT_INSTALLED"
  {
  }

  ////////// Storing and deleting //////////

  /** The handle a store gives out: the kind's prefix and the digits of the first random number that is free. */
  function FreeHandle(files: Files, prefix: string, attempts: seq<Attempt>): string
    decreases attempts
  {
    if attempts == [] || attempts[0].random.None? then prefix
    else if FileName(prefix + HexBytes(attempts[0].random.value)) in files then FreeHandle(files, prefix, attempts[1..])
    else prefix + HexBytes(attempts[0].random.value)
  }

  function KindOf(p: Profile): string {
    match p case WireGuardKind(_) => "wg-" case AmneziaWgKind(_) => "awg-" case VlessKind(_) => "xray-"
  }

  lemma {:induction false} CreatedHandle(files: Files, p: Profile, blob: Blob, attempts: seq<Attempt>)
    ensures var (after, r) := CreateFile(files, KindOf(p), blob, attempts);
      r.Ok? ==> r.value == FreeHandle(files, KindOf(p), attempts) && after == files[r.value := blob]
    decreases attempts
  {
    hide ValidHandle, FileName, HexBytes, KindOf;
    if attempts != [] && attempts[0].random.Some? {
      GeneratedHandle(p, attempts[0].random.value);
      SameKind(p);
      CreatedHandle(files, p, blob, attempts[1..]);
    }
  }

  lemma SameKind(p: Profile)
    ensures Prefix(p) == KindOf(p)
  {
  }

  lemma {:induction false} CreateProblem(files: Files, p: Profile, blob: Blob, attempts: seq<Attempt>)
    ensures var r := CreateFile(files, Prefix(p), blob, attempts).1; r.Err? ==> r.error == ProfileStoreUnavailable
    decreases attempts
  {
    hide ValidHandle, FileName, HexBytes, Prefix;
    if attempts != [] && attempts[0].random.Some? {
      GeneratedHandle(p, attempts[0].random.value);
      CreateProblem(files, p, blob, attempts[1..]);
    }
  }

  /** The file that a failed store leaves behind: the free one whose write and whose removal both failed. */
  function Remains(files: Files, prefix: string, blob: Blob, attempts: seq<Attempt>): Files
    decreases attempts
  {
    if attempts == [] || attempts[0].random.None? || attempts[0].openFails then files
    else
      var name := prefix + HexBytes(attempts[0].random.value);
      if FileName(name) in files then Remains(files, prefix, blob, attempts[1..])
      else if attempts[0].writeFails && attempts[0].discardFails then
        files[name := if attempts[0].whole then blob else Torn]
      else files
  }

  lemma {:induction false} CreateRemains(files: Files, p: Profile, blob: Blob, attempts: seq<Attempt>)
    ensures var (after, r) := CreateFile(files, KindOf(p), blob, attempts);
      r.Err? ==> after == Remains(files, KindOf(p), blob, attempts)
    decreases attempts
  {
    hide ValidHandle, FileName, HexBytes, KindOf;
    if attempts != [] && attempts[0].random.Some? {
      GeneratedHandle(p, attempts[0].random.value);
      SameKind(p);
      CreateRemains(files, p, blob, attempts[1..]);
    }
  }

  predicate StoreWorks(st: ServiceState, p: Profile, env: VaultEnv) {
    ImportLimits.Storable(p) && !env.protectFails && ImportLimits.Serves(st.files, KindOf(p), env.attempts)
  }

  /**
    An import that is heard names the new handle if it was stored, and otherwise reports a profile that cannot be
    written, or a vault that does not work. Then no file is new but one whose write and removal both failed.
    Connections are not touched.
   */
  lemma ImportAnswer(inputs: seq<Input>, frame: Bytes, p: Profile, context: AuthorizationContext, env: Env)
    requires Executed(StateAfter(inputs), frame, context) && Provisioning.IsImport(frame, p)
    ensures var st := StateAfter(inputs);
      var (after, response) := FrameStep(st, frame, context, env);
      var id := Request(frame).requestId;
      after.machine == st.machine && after.backend == st.backend &&
      if StoreWorks(st, p, env.vault) then
        var handle := FreeHandle(st.files, KindOf(p), env.vault.attempts);
        response == Report(id, st.machine.phase, Some(handle), "PROFILE_STORED", None)
        && Payload(p).Ok? && after.files == st.files[handle := Sealed(Payload(p).value)]
      else
        response == Refusal(id, if ImportLimits.Storable(p) then "PROFILE_STORE_UNAVAILABLE" else "INVALID_REQUEST")
        && after.files == (if Payload(p).Err? || env.vault.protectFails then st.files
          else Remains(st.files, KindOf(p), Sealed(Payload(p).value), env.vault.attempts))
  {
    hide StateAfter, ValidIdentifier, Wire.DecodeRequest, Remembered, Blank, Payload, CreateFile, FreeHandle, Remains,
         ImportLimits.Serves, ImportLimits.Storable, KindOf, Prefix, ValidWireGuard,
         ValidAmneziaWg, ValidVless;
    var st := StateAfter(inputs);
    RunSound(inputs);
    DecodedIds(frame);
    HeardStep(st, frame, context, env);
    RememberedSound(st, Request(frame).requestId);
    RememberedKeeps(st, Request(frame).requestId);
    ImportSteps(Remembered(st, Request(frame).requestId), Request(frame).command.operationId, p, env);
    ImportLimits.ImportValid(frame, p);
    ImportLimits.PayloadExactly(p);
    SameKind(p);
    if Payload(p).Ok? {
      var blob := Sealed(Payload(p).value);
      ImportLimits.CreatedExactly(st.files, p, blob, env.vault.attempts);
      CreatedHandle(st.files, p, blob, env.vault.attempts);
      CreateProblem(st.files, p, blob, env.vault.attempts);
      CreateRemains(st.files, p, blob, env.vault.attempts);
    }
  }

  /**
    A delete that is heard removes the one file of its handle exactly if the handle is valid, the file is there,
    whatever it holds, and removing works; otherwise it removes nothing and says why.
   */
  lemma DeleteAnswer(inputs: seq<Input>, frame: Bytes, context: AuthorizationContext, env: Env)
    requires Executed(StateAfter(inputs), frame, context) && Request(frame).command.DeleteProfile?
    ensures var st := StateAfter(inputs);
      var (after, response) := FrameStep(st, frame, context, env);
      var (id, m, handle) := (Request(frame).requestId, st.machine, Request(frame).command.profileId);
      after.machine == m && after.backend == st.backend &&
      if !ValidHandle(handle) then response == Refusal(id, "PROFILE_NOT_FOUND") && after.files == st.files
      else if env.vault.removeFails then
        response == Refusal(id, "PROFILE_STORE_UNAVAILABLE") && after.files == st.files
      else if FileName(handle) !in st.files then
        response == Refusal(id, "PROFILE_NOT_FOUND") && after.files == st.files
      else
        response == Report(id, m.phase, m.profileId, "PROFILE_DELETED", None)
        && after.files == st.files - {FileName(handle)}
  {
    hide StateAfter, ValidIdentifier, Wire.DecodeRequest, Remembered, Blank, ValidHandle, FileName;
    var st := StateAfter(inputs);
    RunSound(inputs);
    DecodedIds(frame);
    HeardStep(st, frame, context, env);
    RememberedKeeps(st, Request(frame).requestId);
    IdentifierNotBlank(Request(frame).command.operationId);
    IdentifierNotBlank(Request(frame).command.profileId);
  }

  /** The same for the profiles: a deletion that works takes the handle's one out, held or left over, and no other. */
  lemma DeletedModel(inputs: seq<Input>, frame: Bytes, context: AuthorizationContext, env: Env)
    requires Executed(StateAfter(inputs), frame, context) && Request(frame).command.DeleteProfile?
    ensures var handle := Request(frame).command.profileId;
      var (before, after) := (ModelAfter(VaultHistory(inputs)),
        ModelAfter(VaultHistory(inputs + [Frame(frame, context, env)])));
      if ValidHandle(handle) && IsThere(inputs, handle) && !env.vault.removeFails then
        after == Model(before.held - {FileName(handle)}, before.leftovers - {FileName(handle)})
      else after == before
  {
    hide StateAfter, Wire.DecodeRequest, ValidHandle, FileName, FilesAfter, ModelAfter, ModelStep, VaultHistory;
    var handle := Request(frame).command.profileId;
    RunFiles(inputs);
    DeleteHistory(inputs, frame, context, env);
    HistoryThen(VaultHistory(inputs), DeleteOp(handle, env.vault));
    DeleteModel(FilesAfter(VaultHistory(inputs)), ModelAfter(VaultHistory(inputs)), handle, env.vault);
  }

  lemma DeleteHistory(inputs: seq<Input>, frame: Bytes, context: AuthorizationContext, env: Env)
    requires Executed(StateAfter(inputs), frame, context) && Request(frame).command.DeleteProfile?
    ensures VaultHistory(inputs + [Frame(frame, context, env)])
      == VaultHistory(inputs) + [DeleteOp(Request(frame).command.profileId, env.vault)]
  {
    hide StateAfter, Wire.DecodeRequest;
    assert (inputs + [Frame(frame, context, env)])[..|inputs|] == inputs;
  }

  lemma DeleteModel(files: Files, model: Model, handle: string, env: VaultEnv)
    ensures ModelStep(files, model, DeleteOp(handle, env)) ==
      if ValidHandle(handle) && FileName(handle) in files && !env.removeFails then
        Model(model.held - {FileName(handle)}, model.leftovers - {FileName(handle)})
      else model
  {
    hide ValidHandle, FileName;
  }

  ////////// Everybody else, and whole connections //////////

  /** Who is not heard, and what he is told. A caller is heard only from the one session, signed in, locally. */
  lemma OtherAnswer(st: ServiceState, frame: Bytes, context: AuthorizationContext, env: Env)
    ensures var (after, response) := FrameStep(st, frame, context, env);
      match Wire.DecodeRequest(frame)
      case Err(_) => after == st && response == Refusal("invalid-request", "INVALID_REQUEST")
      case Ok(request) =>
        if !context.isLocal || !context.isAuthenticated || context.clientSessionId == 0
          || context.clientSessionId != context.allowedSessionId
        then after == st && response == Refusal(request.requestId, "UNAUTHORIZED")
        else if request.requestId in st.recentIdSet then
          after == st && response == Refusal(request.requestId, "DUPLICATE_REQUEST")
        else Executed(st, frame, context)
  {
    hide Execute, Remembered, Wire.DecodeRequest;
  }

  /** The bytes of one connection decode to the response to the frame that was read, or to a refusal. */
  lemma ConnectionAnswer(inputs: seq<Input>, stream: Bytes, context: AuthorizationContext, env: Env)
    ensures var st := StateAfter(inputs);
      var (after, answer) := ConnectionStep(st, stream, context, env);
      match WireFraming.ReadFrame(stream)
      case Closed => after == st && answer == None
      case Malformed(_) =>
        after == st && answer.Some? && answer.value.Ok?
        && Wire.DecodeResponse(answer.value.value) == Ok(Refusal("invalid-request", "INVALID_REQUEST"))
      case Whole(frame, _) =>
        after == FrameStep(st, frame, context, env).0 && answer.Some? && answer.value.Ok?
        && Wire.DecodeResponse(answer.value.value) == Ok(FrameStep(st, frame, context, env).1)
  {
    hide FrameStep, Wire.EncodeResponse, Wire.DecodeResponse, WireFraming.ReadFrame, ValidIdentifier, StateAfter;
    match WireFraming.ReadFrame(stream)
    case Closed =>
    case Malformed(_) =>
      InvalidRequestIdValid();
      ErrorCodeValid(BadProfile);
      Arrives(SafeError(INVALID_REQUEST_ID, "INVALID_REQUEST"));
    case Whole(frame, _) => EveryAnswerArrives(inputs, frame, context, env);
  }

  ////////// Which profile the machine names //////////

  /** The profile of the last connect that was heard at rest. */
  function LastBegun(inputs: seq<Input>): Option<string> {
    if inputs == [] then None
    else
      var before, last := inputs[..|inputs| - 1], inputs[|inputs| - 1];
      if last.Frame? && Executed(StateAfter(before), last.frame, last.context)
        && Request(last.frame).command.Connect? && AtRest(StateAfter(before))
      then Some(Request(last.frame).command.profileId)
      else LastBegun(before)
  }

  predicate Names(m: StateEvent, profileId: Option<string>) {
    m.profileId == if m.phase == Disconnected then None else profileId
  }

  lemma NamesNext(inputs: seq<Input>, input: Input, last: Option<string>)
    requires Names(StateAfter(inputs).machine, last)
    ensures var st := StateAfter(inputs);
      Names(Next(st, input).machine,
        if input.Frame? && Executed(st, input.frame, input.context) && Request(input.frame).command.Connect?
          && AtRest(st) then Some(Request(input.frame).command.profileId) else last)
  {
    hide StateAfter, Wire.DecodeRequest, FrameStep, LoadProblem, Failures, FAILURES, Provisioning.IsImport;
    var st := StateAfter(inputs);
    FailuresFail();
    if input.Frame? {
      var Frame(frame, context, env) := input;
      if Executed(st, frame, context) {
        match Request(frame).command
        case Connect(_, _, _, _) => ConnectAnswer(inputs, frame, context, env);
        case Disconnect(_) => DisconnectAnswer(inputs, frame, context, env);
        case Status => StatusAnswer(inputs, frame, context, env);
        case Statistics => StatisticsAnswer(inputs, frame, context, env);
        case Diagnostics => StatisticsAnswer(inputs, frame, context, env);
        case DeleteProfile(_, _) => DeleteAnswer(inputs, frame, context, env);
        case ImportWireGuard(_, w) =>
          assert Provisioning.IsImport(frame, WireGuardKind(w)) by { ImportKind(frame, WireGuardKind(w)); }
          ImportAnswer(inputs, frame, WireGuardKind(w), context, env);
        case ImportAmneziaWg(_, a) =>
          assert Provisioning.IsImport(frame, AmneziaWgKind(a)) by { ImportKind(frame, AmneziaWgKind(a)); }
          ImportAnswer(inputs, frame, AmneziaWgKind(a), context, env);
        case ImportVless(_, v) =>
          assert Provisioning.IsImport(frame, VlessKind(v)) by { ImportKind(frame, VlessKind(v)); }
          ImportAnswer(inputs, frame, VlessKind(v), context, env);
      } else {
        OthersChangeNothing(st, frame, context, env);
      }
    }
  }

  lemma FailuresFail()
    ensures forall f :: f in FAILURES ==> FAILURES[f].0.IsFailure()
  {
  }

  lemma ImportKind(frame: Bytes, p: Profile)
    requires Wire.DecodeRequest(frame).Ok?
    requires match p
      case WireGuardKind(w) => Request(frame).command.ImportWireGuard? && Request(frame).command.wireguard == w
      case AmneziaWgKind(a) => Request(frame).command.ImportAmneziaWg? && Request(frame).command.amneziawg == a
      case VlessKind(v) => Request(frame).command.ImportVless? && Request(frame).command.vless == v
    ensures Provisioning.IsImport(frame, p)
  {
    hide Wire.DecodeRequest;
  }

  /**
    After every run an idle machine names no profile, and any other the profile of the last connect that was
    heard at rest: a connection its own, a failure the one that failed, a wedged machine the one that wedged it.
   */
  lemma {:induction false} ProfileNamed(inputs: seq<Input>)
    ensures StateAfter(inputs).machine.profileId
      == if StateAfter(inputs).machine.phase == Disconnected then None else LastBegun(inputs)
    decreases |inputs|
  {
    hide Next, Wire.DecodeRequest;
    if inputs != [] {
      var before, last := inputs[..|inputs| - 1], inputs[|inputs| - 1];
      ProfileNamed(before);
      NamesNext(before, last, LastBegun(before));
    }
  }
}
