/** The connection state machine of the service. */
module Machine {
  import opened Basics
  import opened Contracts
  import Text

  datatype CommandError =
    | Busy | DuplicateRequest | EmptyOperationId | EmptyProfileId | InvalidFailurePhase | UnauthorizedCaller
    | BadProfile | ProfileNotFound | ProfileStoreUnavailable

  /** The state, and what each call of the machine makes of it. */
  datatype StateEvent = StateEvent(
    contractVersion: U32, phase: ConnectionPhase, profileId: Option<string>, killSwitchActive: bool,
    errorCode: Option<string>)
  {
    function BeginConnect(operationId: string, profileId: string): Step {
      if Blank(operationId) then Err(EmptyOperationId)
      else if Blank(profileId) then Err(EmptyProfileId)
      else if phase != Disconnected then Err(Busy)
      else Ok(StateEvent(CONTRACT_VERSION, Validating, Some(profileId), false, None))
    }

    function MarkValidated(): Step {
      if phase != Validating then Err(Busy) else Ok(this.(phase := Connecting))
    }

    function MarkConnected(killSwitch: bool): Step {
      if phase != Connecting && phase != Reconnecting then Err(Busy)
      else Ok(this.(phase := Connected, killSwitchActive := killSwitch, errorCode := None))
    }

    function BeginReconnect(): Step {
      if phase != Connected then Err(Busy) else Ok(this.(phase := Reconnecting))
    }

    function BeginDisconnect(operationId: string): Step {
      if Blank(operationId) then Err(EmptyOperationId)
      else if phase != Connected && phase != Reconnecting then Err(Busy)
      else Ok(this.(phase := Disconnecting))
    }

    function MarkDisconnected(): Step {
      if phase != Disconnecting then Err(Busy) else Ok(IDLE)
    }

    function Fail(failure: ConnectionPhase, code: string): Step {
      if !failure.IsFailure() then Err(InvalidFailurePhase)
      else Ok(this.(phase := failure, killSwitchActive := false, errorCode := Some(code)))
    }

    function ResetFailure(): Step {
      if !phase.IsFailure() then Err(Busy) else Ok(IDLE)
    }

    /** A refused call changes nothing. */
    function After(step: Step): StateEvent { if step.Ok? then step.value else this }
  }

  type Step = Result<StateEvent, CommandError>

  const IDLE := StateEvent(CONTRACT_VERSION, Disconnected, None, false, None)

  /** Rust's `trim().is_empty()`; unlike Dart, Rust does not count the byte order mark as a blank. */
  predicate Blank(s: string) { forall i :: 0 <= i < |s| ==> Text.IsSpace(s[i]) && s[i] as int != 0xFEFF }

  class ConnectionStateMachine {
    var state: StateEvent

    constructor ()
      ensures state == IDLE
    {
      state := IDLE;
    }

    method BeginConnect(operationId: string, profileId: string) returns (r: Result<(), CommandError>)
      modifies this
      ensures Obeys(old(state).BeginConnect(operationId, profileId), r, old(state), state)
    {
      if Blank(operationId) { return Err(EmptyOperationId); }
      if Blank(profileId) { return Err(EmptyProfileId); }
      if state.phase != Disconnected { return Err(Busy); }
      state := StateEvent(CONTRACT_VERSION, Validating, Some(profileId), false, None);
      r := Ok(());
    }

    method MarkValidated() returns (r: Result<(), CommandError>)
      modifies this
      ensures Obeys(old(state).MarkValidated(), r, old(state), state)
    {
      if state.phase != Validating { return Err(Busy); }
      state := state.(phase := Connecting);
      r := Ok(());
    }

    method MarkConnected(killSwitchActive: bool) returns (r: Result<(), CommandError>)
      modifies this
      ensures Obeys(old(state).MarkConnected(killSwitchActive), r, old(state), state)
    {
      if state.phase != Connecting && state.phase != Reconnecting { return Err(Busy); }
      state := state.(phase := Connected);
      state := state.(killSwitchActive := killSwitchActive);
      state := state.(errorCode := None);
      r := Ok(());
    }

    method BeginReconnect() returns (r: Result<(), CommandError>)
      modifies this
      ensures Obeys(old(state).BeginReconnect(), r, old(state), state)
    {
      if state.phase != Connected { return Err(Busy); }
      state := state.(phase := Reconnecting);
      r := Ok(());
    }

    method BeginDisconnect(operationId: string) returns (r: Result<(), CommandError>)
      modifies this
      ensures Obeys(old(state).BeginDisconnect(operationId), r, old(state), state)
    {
      if Blank(operationId) { return Err(EmptyOperationId); }
      if state.phase != Connected && state.phase != Reconnecting { return Err(Busy); }
      state := state.(phase := Disconnecting);
      r := Ok(());
    }

    method MarkDisconnected() returns (r: Result<(), CommandError>)
      modifies this
      ensures Obeys(old(state).MarkDisconnected(), r, old(state), state)
    {
      if state.phase != Disconnecting { return Err(Busy); }
      state := IDLE;
      r := Ok(());
    }

    method ReconcileDisconnected()
      modifies this
      ensures state == IDLE
    {
      state := IDLE;
    }

    method Fail(phase: ConnectionPhase, errorCode: string) returns (r: Result<(), CommandError>)
      modifies this
      ensures Obeys(old(state).Fail(phase, errorCode), r, old(state), state)
    {
      if !phase.IsFailure() { return Err(InvalidFailurePhase); }
      state := state.(phase := phase);
      state := state.(killSwitchActive := false);
      state := state.(errorCode := Some(errorCode));
      r := Ok(());
    }

    method ResetFailure() returns (r: Result<(), CommandError>)
      modifies this
      ensures Obeys(old(state).ResetFailure(), r, old(state), state)
    {
      if !state.phase.IsFailure() { return Err(Busy); }
      state := IDLE;
      r := Ok(());
    }
  }

  /** A method did what its step function says: the new state, or an error and no change. */
  ghost predicate Obeys(step: Step, r: Result<(), CommandError>, before: StateEvent, after: StateEvent) {
    match step
    case Ok(s) => r == Ok(()) && after == s
    case Err(e) => r == Err(e) && after == before
  }

  ////////// Every run of public calls //////////

  datatype Call =
    | CallBeginConnect(operationId: string, profileId: string) | CallMarkValidated | CallMarkConnected(killSwitch: bool)
    | CallBeginReconnect | CallBeginDisconnect(operationId: string) | CallMarkDisconnected | CallReconcileDisconnected
    | CallFail(phase: ConnectionPhase, errorCode: string) | CallResetFailure

  function Apply(s: StateEvent, call: Call): StateEvent {
    match call
    case CallBeginConnect(operationId, profileId) => s.After(s.BeginConnect(operationId, profileId))
    case CallMarkValidated => s.After(s.MarkValidated())
    case CallMarkConnected(killSwitch) => s.After(s.MarkConnected(killSwitch))
    case CallBeginReconnect => s.After(s.BeginReconnect())
    case CallBeginDisconnect(operationId) => s.After(s.BeginDisconnect(operationId))
    case CallMarkDisconnected => s.After(s.MarkDisconnected())
    case CallReconcileDisconnected => IDLE
    case CallFail(phase, errorCode) => s.After(s.Fail(phase, errorCode))
    case CallResetFailure => s.After(s.ResetFailure())
  }

  function Run(calls: seq<Call>): StateEvent {
    if calls == [] then IDLE else Apply(Run(calls[..|calls| - 1]), calls[|calls| - 1])
  }

  /**
    Disconnected is the idle state; an error code is there exactly in a failure; the kill switch is
    active only in and around a connection; and every phase of a connection names its profile.
   */
  predicate Coherent(s: StateEvent) {
    s.contractVersion == CONTRACT_VERSION
    && (s.phase == Disconnected ==> s == IDLE)
    && (s.errorCode.Some? <==> s.phase.IsFailure())
    && (s.killSwitchActive ==> s.phase == Connected || s.phase == Reconnecting || s.phase == Disconnecting)
    && (!s.phase.IsFailure() && s.phase != Disconnected ==> s.profileId.Some?)
    && (s.profileId.Some? ==> !Blank(s.profileId.value))
  }

  lemma {:induction false} RunCoherent(calls: seq<Call>)
    ensures Coherent(Run(calls))
  {
    hide Blank;
    if calls != [] { RunCoherent(calls[..|calls| - 1]); }
  }

  lemma RunThen(calls: seq<Call>, call: Call)
    ensures Run(calls + [call]) == Apply(Run(calls), call)
  {
    assert (calls + [call])[..|calls|] == calls;
  }

  /** A sequence of calls that reaches a given coherent state. */
  function Script(s: StateEvent): seq<Call> {
    var connecting := if s.profileId.Some? then [CallBeginConnect("x", s.profileId.value)] else [];
    match s.phase
    case Disconnected => []
    case Validating => connecting
    case Connecting => connecting + [CallMarkValidated]
    case Connected => connecting + [CallMarkValidated] + [CallMarkConnected(s.killSwitchActive)]
    case Reconnecting => connecting + [CallMarkValidated] + [CallMarkConnected(s.killSwitchActive)]
      + [CallBeginReconnect]
    case Disconnecting => connecting + [CallMarkValidated] + [CallMarkConnected(s.killSwitchActive)]
      + [CallBeginDisconnect("x")]
    case _ => connecting + [CallFail(s.phase, if s.errorCode.Some? then s.errorCode.value else "")]
  }

  lemma LetterIsNotBlank()
    ensures !Blank("x")
  {
    assert !Text.IsSpace("x"[0]);
  }

  lemma ScriptReaches(s: StateEvent)
    requires Coherent(s)
    ensures Run(Script(s)) == s
  {
    hide Blank;
    LetterIsNotBlank();
    if s.profileId.Some? {
      var c1 := [CallBeginConnect("x", s.profileId.value)];
      assert c1 == [] + c1;
      RunThen([], c1[0]);
      RunThen(c1, CallMarkValidated);
      var c2 := c1 + [CallMarkValidated];
      RunThen(c2, CallMarkConnected(s.killSwitchActive));
      var c3 := c2 + [CallMarkConnected(s.killSwitchActive)];
      RunThen(c3, CallBeginReconnect);
      RunThen(c3, CallBeginDisconnect("x"));
      if s.errorCode.Some? { RunThen(c1, CallFail(s.phase, s.errorCode.value)); }
    } else if s.errorCode.Some? {
      RunThen([], CallFail(s.phase, s.errorCode.value));
    }
  }

  /** The coherent states are exactly the ones some sequence of calls reaches. */
  lemma ReachableExactly(s: StateEvent)
    ensures Coherent(s) <==> exists calls :: Run(calls) == s
  {
    hide Coherent;
    if Coherent(s) { ScriptReaches(s); }
    if calls :| Run(calls) == s { RunCoherent(calls); }
  }

  ////////// The diagram //////////

  datatype Event =
    | BeginsConnect | Validated | ConnectedNow | BeginsReconnect | BeginsDisconnect | DisconnectedNow | Reconciled
    | Failed(failure: ConnectionPhase) | Reset

  function EventOf(call: Call): Event {
    match call
    case CallBeginConnect(_, _) => BeginsConnect
    case CallMarkValidated => Validated
    case CallMarkConnected(_) => ConnectedNow
    case CallBeginReconnect => BeginsReconnect
    case CallBeginDisconnect(_) => BeginsDisconnect
    case CallMarkDisconnected => DisconnectedNow
    case CallReconcileDisconnected => Reconciled
    case CallFail(phase, _) => Failed(phase)
    case CallResetFailure => Reset
  }

  /** The arrows of the diagram. A failure and a reconciliation can come anywhere. */
  predicate Arrow(from: ConnectionPhase, event: Event, to: ConnectionPhase) {
    (from == Disconnected && event == BeginsConnect && to == Validating)
    || (from == Validating && event == Validated && to == Connecting)
    || (from == Connecting && event == ConnectedNow && to == Connected)
    || (from == Connected && event == BeginsReconnect && to == Reconnecting)
    || (from == Reconnecting && event == ConnectedNow && to == Connected)
    || (from == Connected && event == BeginsDisconnect && to == Disconnecting)
    || (from == Reconnecting && event == BeginsDisconnect && to == Disconnecting)
    || (from == Disconnecting && event == DisconnectedNow && to == Disconnected)
    || (from == BlockedBySubscription && event == Reset && to == Disconnected)
    || (from == NoNetwork && event == Reset && to == Disconnected)
    || (from == ServerUnavailable && event == Reset && to == Disconnected)
    || (from == ConnectionPhase.Error && event == Reset && to == Disconnected)
    || (event == Failed(BlockedBySubscription) && to == BlockedBySubscription)
    || (event == Failed(NoNetwork) && to == NoNetwork)
    || (event == Failed(ServerUnavailable) && to == ServerUnavailable)
    || (event == Failed(ConnectionPhase.Error) && to == ConnectionPhase.Error)
    || (event == Reconciled && to == Disconnected)
  }

  predicate IdsThere(call: Call) {
    match call
    case CallBeginConnect(operationId, profileId) => !Blank(operationId) && !Blank(profileId)
    case CallBeginDisconnect(operationId) => !Blank(operationId)
    case _ => true
  }

  /** What a call that is accepted writes besides the phase. */
  predicate Writes(s: StateEvent, call: Call, t: StateEvent) {
    t.contractVersion == CONTRACT_VERSION &&
    if t.phase == Disconnected then t == IDLE
    else
      t.profileId == (if call.CallBeginConnect? then Some(call.profileId) else s.profileId)
      && t.killSwitchActive == (if call.CallMarkConnected? then call.killSwitch
        else !call.CallBeginConnect? && !call.CallFail? && s.killSwitchActive)
      && t.errorCode == (if call.CallFail? then Some(call.errorCode) else None)
  }

  /** A call does exactly what an arrow says, or nothing where there is none or an id is missing. */
  lemma FollowsArrows(s: StateEvent, call: Call, t: StateEvent)
    requires Coherent(s)
    ensures Apply(s, call) == t <==>
      if IdsThere(call) && exists to :: Arrow(s.phase, EventOf(call), to) then
        Arrow(s.phase, EventOf(call), t.phase) && Writes(s, call, t)
      else t == s
  {
    hide Blank;
    var next := Apply(s, call);
    assert IdsThere(call) && next != s ==> Arrow(s.phase, EventOf(call), next.phase);
    forall to | Arrow(s.phase, EventOf(call), to) ensures IdsThere(call) ==> next.phase == to {}
  }
}
