/** What one request does to a service that has run soundly so far. */
module ServiceSteps {
  import opened Basics
  import opened Contracts
  import opened Machine
  import opened Vault
  import opened Backend
  import opened Service
  import Text
  import Wire

  ////////// Identifiers //////////

  predicate IdsValid(c: ControlCommand) {
    match c
    case Connect(operationId, profileId, _, _) => ValidIdentifier(operationId) && ValidIdentifier(profileId)
    case DeleteProfile(operationId, profileId) => ValidIdentifier(operationId) && ValidIdentifier(profileId)
    case Disconnect(operationId) => ValidIdentifier(operationId)
    case ImportWireGuard(operationId, p) => ValidIdentifier(operationId) && ValidWireGuard(p)
    case ImportAmneziaWg(operationId, p) => ValidIdentifier(operationId) && ValidAmneziaWg(p)
    case ImportVless(operationId, p) => ValidIdentifier(operationId) && ValidVless(p)
    case _ => true
  }

  /** The decoder hands out identifiers and profiles only after checking them. */
  lemma DecodedIds(frame: Bytes)
    requires Wire.DecodeRequest(frame).Ok?
    ensures ValidIdentifier(Wire.DecodeRequest(frame).value.requestId)
      && IdsValid(Wire.DecodeRequest(frame).value.command)
  {
    hide Wire.DecodeFrame, Wire.TakeString, Wire.TakeProfile, Wire.TakeAmneziaWg, Wire.TakeVless, Wire.TakeProtocol,
         Wire.TakeBool, ValidWireGuard, ValidAmneziaWg, ValidVless, ValidIdentifier;
  }

  lemma IdentifierNotBlank(s: string)
    requires ValidIdentifier(s)
    ensures !Blank(s)
  {
    assert IsIdChar(s[0]) && !Text.IsSpace(s[0]);
  }

  predicate IsOutcomeCode(code: string) {
    code == "OK" || code == "CONNECTED" || code == "DISCONNECTED" || code == "TUNNEL_STOPPED"
    || code == "DIAGNOSTICS_REDACTED" || code == "PROFILE_STORED" || code == "PROFILE_DELETED"
  }

  /** The codes for callers who are not heard at all. */
  predicate IsRefusal(code: string) { code == "DUPLICATE_REQUEST" || code == "UNAUTHORIZED" }

  lemma OutcomeCodeValid(code: string)
    requires IsOutcomeCode(code)
    ensures ValidIdentifier(code) && !IsRefusal(code)
  {
    forall i | 0 <= i < |code| ensures IsIdChar(code[i]) {}
    assert |code| != |"DUPLICATE_REQUEST"| && (|code| == |"UNAUTHORIZED"| ==> code[0] == 'D');
  }

  lemma FailureCodeIdentifier(f: BackendFailure)
    ensures ValidIdentifier(FailureCode(f).1)
  {
    var code := FailureCode(f).1;
    forall i | 0 <= i < |code| ensures IsIdChar(code[i]) {}
  }

  lemma FailureCodeValid(f: BackendFailure)
    ensures ValidIdentifier(FailureCode(f).1) && FailureCode(f).0.IsFailure()
    ensures FailureCode(f).1 != "CONNECTED" && FailureCode(f).1 != "DISCONNECTED" && !IsRefusal(FailureCode(f).1)
  {
    hide ValidIdentifier;
    FailureCodeIdentifier(f);
    var code := FailureCode(f).1;
    assert |code| != |"CONNECTED"| && |code| != |"DISCONNECTED"| && |code| != |"DUPLICATE_REQUEST"|;
  }

  lemma ErrorCodeIdentifier(e: CommandError)
    ensures ValidIdentifier(ErrorCode(e))
  {
    var code := ErrorCode(e);
    forall i | 0 <= i < |code| ensures IsIdChar(code[i]) {}
  }

  lemma ErrorCodeValid(e: CommandError)
    ensures ValidIdentifier(ErrorCode(e))
    ensures ErrorCode(e) != "CONNECTED" && ErrorCode(e) != "DISCONNECTED"
    ensures ErrorCode(e) == "DUPLICATE_REQUEST" <==> e == DuplicateRequest
    ensures ErrorCode(e) == "UNAUTHORIZED" <==> e == UnauthorizedCaller
  {
    hide ValidIdentifier;
    ErrorCodeIdentifier(e);
    var code := ErrorCode(e);
    assert |code| != |"CONNECTED"| && (|code| == |"DISCONNECTED"| ==> code[0] == 'U');
    assert |"DUPLICATE_REQUEST"| == |"PROFILE_NOT_FOUND"| && "DUPLICATE_REQUEST"[0] != "PROFILE_NOT_FOUND"[0];
  }

  lemma InvalidRequestIdValid()
    ensures ValidIdentifier(INVALID_REQUEST_ID)
  {
    forall i | 0 <= i < |INVALID_REQUEST_ID| ensures IsIdChar(INVALID_REQUEST_ID[i]) {}
  }

  ////////// What every request keeps //////////

  /**
    The machine is coherent and at rest in one of the phases the processor uses, without kill switch and
    with a profile id that fits in a response; and a connection has an active engine.
   */
  predicate Sound(st: ServiceState) {
    Coherent(st.machine) && !st.machine.killSwitchActive
    && st.machine.phase != Validating && st.machine.phase != Reconnecting
    && (st.machine.profileId.Some? ==> ValidIdentifier(st.machine.profileId.value))
    && (st.machine.phase == Connected ==> st.backend.active.Some?)
  }

  /**
    What a request that came through the decoder can end in: an answer that fits in a response, or one of four
    errors.
   */
  predicate Reports(r: Result<CommandOutcome, CommandError>, requestId: string, after: ServiceState) {
    match r
    case Ok(o) =>
      o.requestId == requestId && ValidIdentifier(o.code) && !IsRefusal(o.code)
      && o.state.phase == after.machine.phase && !o.state.killSwitchActive
      && (o.state.profileId.Some? ==> ValidIdentifier(o.state.profileId.value))
    case Err(e) => e == Busy || StorageError(e)
  }

  predicate StorageError(e: CommandError) { e == ProfileNotFound || e == ProfileStoreUnavailable || e == BadProfile }

  lemma FailKeeps(st: ServiceState, failure: BackendFailure)
    requires Coherent(st.machine)
    requires st.machine.profileId.Some? ==> ValidIdentifier(st.machine.profileId.value)
    ensures var (after, r) := FailWith(st, failure);
      Sound(after) && r == Ok(FailureCode(failure).1) && after.machine.phase.IsFailure() && after.backend == st.backend
  {
    hide ValidIdentifier, Blank;
    FailureCodeValid(failure);
  }

  lemma LoadErrors(files: Files, protocol: Protocol, handle: string, env: VaultEnv)
    ensures var r := LoadFor(files, protocol, handle, env); r.Err? ==> StorageError(r.error)
  {
    hide ValidHandle, FileName, Wire.DecodeWireGuardProfile, Wire.DecodeAmneziaWgProfile, Wire.DecodeVlessProfile,
         ValidWireGuard, ValidAmneziaWg, ValidVless;
  }

  lemma {:induction false} CreateErrors(files: Files, prefix: string, blob: Blob, attempts: seq<Attempt>)
    ensures var r := CreateFile(files, prefix, blob, attempts).1; r.Err? ==> StorageError(r.error)
  {
    hide ValidHandle, FileName, HexBytes;
    if attempts != [] { CreateErrors(files, prefix, blob, attempts[1..]); }
  }

  predicate SameWindow(a: ServiceState, b: ServiceState) {
    a.recentIds == b.recentIds && a.recentIdSet == b.recentIdSet
  }

  /** The machine says Connected only if the engine asked for runs and is the active one. */
  predicate Settled(after: ServiceState, code: string, protocol: Protocol) {
    if code == "CONNECTED" then
      after.machine.phase == Connected && after.backend.active == Some(EngineFor(protocol))
        && after.backend.Running(EngineFor(protocol))
    else after.machine.phase.IsFailure()
  }

  /** Connecting is refused while busy; it stays Connecting when the profile cannot be loaded; else it settles. */
  lemma ConnectSteps(st: ServiceState, operationId: string, profileId: string, protocol: Protocol, killSwitch: bool,
      env: Env)
    requires Sound(st) && ValidIdentifier(operationId) && ValidIdentifier(profileId)
    ensures var (after, r) := ConnectStep(st, operationId, profileId, protocol, killSwitch, env);
      var loaded := LoadFor(st.files, protocol, profileId, env.vault);
      Sound(after) && SameWindow(st, after) && after.files == st.files
      && if !st.machine.phase.IsFailure() && st.machine.phase != Disconnected then after == st && r == Err(Busy)
         else if loaded.Err? then
           r == Err(loaded.error) && StorageError(loaded.error) && after.machine.phase == Connecting
           && after.backend == st.backend
         else
           r.Ok? && ValidIdentifier(r.value) && !IsRefusal(r.value) && r.value != "DISCONNECTED"
           && Settled(after, r.value, protocol)
  {
    hide ValidIdentifier, Blank, LoadFor, ConnectEngine;
    IdentifierNotBlank(operationId);
    IdentifierNotBlank(profileId);
    OutcomeCodeValid("CONNECTED");
    LoadErrors(st.files, protocol, profileId, env.vault);
    var loaded := LoadFor(st.files, protocol, profileId, env.vault);
    if loaded.Ok? {
      var begun := AfterReset(st).(machine := StateEvent(CONTRACT_VERSION, Connecting, Some(profileId), false, None));
      ConnectRuns(st.backend, EngineFor(protocol), killSwitch, loaded.value, env.backend, EngineFor(protocol));
      var (backend, result) := ConnectEngine(st.backend, EngineFor(protocol), killSwitch, loaded.value, env.backend);
      if result.Err? {
        FailureCodeValid(result.error);
        FailKeeps(begun.(backend := backend), result.error);
      }
    }
  }

  /** Disconnecting is refused, or tells all engines to stop; if a stop fails, it leaves a connection Disconnecting. */
  lemma DisconnectSteps(st: ServiceState, operationId: string, env: Env)
    requires Sound(st) && ValidIdentifier(operationId)
    ensures var (after, r) := DisconnectStep(st, operationId, env);
      Sound(after) && SameWindow(st, after) && after.files == st.files
      && if !st.machine.phase.IsFailure() && st.machine.phase != Connected then after == st && r == Err(Busy)
         else
           after.backend == DisconnectAll(st.backend, env.backend).0
           && if DisconnectAll(st.backend, env.backend).1.Err? then
                r == Err(ProfileStoreUnavailable)
                && after.machine == (if st.machine.phase == Connected then st.machine.(phase := Disconnecting)
                  else st.machine)
              else r == Ok("DISCONNECTED") && after.machine == IDLE
  {
    hide ValidIdentifier, Blank, DisconnectAll;
    IdentifierNotBlank(operationId);
  }

  /** Asking for the status never touches the engines; only a Connected machine can change by it. */
  lemma StatusSteps(st: ServiceState, env: Env)
    requires Sound(st)
    ensures var (after, r) := ReconcileStep(st, env);
      var up := IsConnected(st.backend, env.backend);
      Sound(after) && SameWindow(st, after) && after.files == st.files && after.backend == st.backend
      && if st.machine.phase != Connected || up == Ok(true) then after == st && r == Ok("OK")
         else if up.Ok? then after.machine == IDLE && r == Ok("TUNNEL_STOPPED")
         else after.machine.phase.IsFailure() && r == Ok(FailureCode(up.error).1)
  {
    hide ValidIdentifier, Blank, IsConnected;
    var up := IsConnected(st.backend, env.backend);
    if st.machine.phase == Connected && up.Err? { FailKeeps(st, up.error); }
  }

  lemma HandleIsIdentifier(handle: string)
    requires ValidHandle(handle)
    ensures ValidIdentifier(handle)
  {
    forall i | 0 <= i < |handle| ensures IsIdChar(handle[i]) {
      if i >= |handle| - 32 { assert handle[i] == handle[|handle| - 32..][i - (|handle| - 32)]; }
    }
  }

  /** An import changes nothing but the files, and answers with what the vault answered. */
  lemma ImportSteps(st: ServiceState, operationId: string, p: Profile, env: Env)
    requires Sound(st) && ValidIdentifier(operationId) && ValidProfile(p)
    ensures var (after, r) := ImportStep(st, operationId, p, true, env);
      (after.files, r) == Store(st.files, p, env.vault) && after == st.(files := after.files)
      && (match r case Ok(handle) => ValidIdentifier(handle) case Err(e) => StorageError(e))
  {
    hide ValidIdentifier, Blank, Payload, CreateFile, ValidHandle;
    IdentifierNotBlank(operationId);
    if Payload(p).Ok? {
      CreateErrors(st.files, Prefix(p), Sealed(Payload(p).value), env.vault.attempts);
      CreateFileAdds(st.files, p, Sealed(Payload(p).value), env.vault.attempts);
      var (_, r) := Store(st.files, p, env.vault);
      if r.Ok? { HandleIsIdentifier(r.value); }
    }
  }

  ////////// One command //////////

  predicate AtRest(st: ServiceState) { st.machine.phase == Disconnected || st.machine.phase.IsFailure() }

  /** The two phases no request leads out of. */
  predicate Wedged(st: ServiceState) { st.machine.phase == Connecting || st.machine.phase == Disconnecting }

  /** A connect whose profile cannot be loaded, or a disconnect of a connection that an engine refuses. */
  predicate Wedges(st: ServiceState, command: ControlCommand, env: Env) {
    match command
    case Connect(_, profileId, protocol, _) =>
      AtRest(st)
        && LoadFor(st.files, protocol, profileId, env.vault).Err?
    case Disconnect(_) => st.machine.phase == Connected && DisconnectAll(st.backend, env.backend).1.Err?
    case _ => false
  }

  predicate Answered(r: Result<CommandOutcome, CommandError>, code: string) { r.Ok? && r.value.code == code }

  /** Which engine the connection runs on after a command. */
  predicate KeepsConnection(st: ServiceState, after: ServiceState, command: ControlCommand, r: Result<CommandOutcome,
      CommandError>) {
    after.machine.phase == Connected ==>
      if Answered(r, "CONNECTED") then command.Connect? && after.backend.active == Some(EngineFor(command.protocol))
      else st.machine.phase == Connected && after.backend.active == st.backend.active
  }

  lemma Executes(st: ServiceState, requestId: string, command: ControlCommand, env: Env)
    requires Sound(st) && IdsValid(command)
    ensures var (after, r) := Execute(st, requestId, command, env);
      Sound(after) && SameWindow(st, after) && Reports(r, requestId, after)
      && KeepsConnection(st, after, command, r)
      && (Answered(r, "DISCONNECTED") ==>
          after.machine == IDLE && after.backend == DisconnectAll(st.backend, env.backend).0 && AllStop(env.backend))
      && (Wedged(after) <==> Wedged(st) || Wedges(st, command, env))
      && (Wedged(st) ==> after.machine == st.machine)
  {
    hide ValidIdentifier, Blank, LoadFor, DisconnectAll, IsConnected, Store, ValidWireGuard, ValidAmneziaWg, ValidVless,
         ConnectStep, DisconnectStep, ReconcileStep, ImportStep, StatisticsOf;
    match command
    case Status => StatusExecutes(st, requestId, env);
    case Diagnostics => OutcomeCodeValid("DIAGNOSTICS_REDACTED");
    case Connect(operationId, profileId, protocol, killSwitch) => ConnectSteps(st, operationId, profileId, protocol,
      killSwitch, env);
    case Disconnect(operationId) =>
      OutcomeCodeValid("DISCONNECTED");
      DisconnectRuns(st.backend, env.backend, WireGuardEngine);
      DisconnectSteps(st, operationId, env);
    case ImportWireGuard(operationId, p) => ImportExecutes(st, requestId, operationId, WireGuardKind(p), env);
    case ImportAmneziaWg(operationId, p) => ImportExecutes(st, requestId, operationId, AmneziaWgKind(p), env);
    case ImportVless(operationId, p) => ImportExecutes(st, requestId, operationId, VlessKind(p), env);
    case DeleteProfile(operationId, profileId) => DeleteExecutes(st, requestId, operationId, profileId, env);
    case Statistics =>
      OutcomeCodeValid("OK");
      var s := StatisticsOf(st.backend, env.backend);
      if s.Err? { FailureCodeValid(s.error); }
  }

  /** What every command but a connect does: it keeps the connection's engine, if the connection lives on. */
  predicate Calm(st: ServiceState, requestId: string, after: ServiceState, r: Result<CommandOutcome, CommandError>) {
    Sound(after) && SameWindow(st, after) && Reports(r, requestId, after)
    && !Answered(r, "CONNECTED") && !Answered(r, "DISCONNECTED")
    && (Wedged(after) <==> Wedged(st)) && (Wedged(st) ==> after.machine == st.machine)
    && (after.machine.phase == Connected ==> st.machine.phase == Connected) && after.backend == st.backend
  }

  lemma StatusExecutes(st: ServiceState, requestId: string, env: Env)
    requires Sound(st)
    ensures var (after, r) := Execute(st, requestId, Status, env); Calm(st, requestId, after, r) && r.Ok?
  {
    hide ValidIdentifier, Blank, IsConnected, ReconcileStep;
    StatusSteps(st, env);
    OutcomeCodeValid("OK");
    OutcomeCodeValid("TUNNEL_STOPPED");
    var up := IsConnected(st.backend, env.backend);
    if up.Err? { FailureCodeValid(up.error); }
  }

  lemma ImportExecutes(st: ServiceState, requestId: string, operationId: string, p: Profile, env: Env)
    requires Sound(st) && ValidIdentifier(operationId) && ValidProfile(p)
    ensures var (after, r) := ReplyStored(requestId, ImportStep(st, operationId, p, true, env));
      Calm(st, requestId, after, r) && after.machine == st.machine
  {
    hide ValidIdentifier, Blank, ImportStep, Store, ValidWireGuard, ValidAmneziaWg, ValidVless;
    ImportSteps(st, operationId, p, env);
    OutcomeCodeValid("PROFILE_STORED");
  }

  lemma DeleteExecutes(st: ServiceState, requestId: string, operationId: string, profileId: string, env: Env)
    requires Sound(st) && ValidIdentifier(operationId) && ValidIdentifier(profileId)
    ensures var (after, r) := Execute(st, requestId, DeleteProfile(operationId, profileId), env);
      Calm(st, requestId, after, r) && after.machine == st.machine
  {
    hide ValidIdentifier, Blank, ValidHandle, FileName;
    IdentifierNotBlank(operationId);
    IdentifierNotBlank(profileId);
    OutcomeCodeValid("PROFILE_DELETED");
  }
}
