/**
  What holds of the service after every run: any frames from any callers, any faults, tunnels that stop by
  themselves.
 */
module ServiceRuns {
  import opened Basics
  import opened Contracts
  import opened Machine
  import opened Backend
  import opened Service
  import opened ServiceSteps
  import Wire
  import WireRoundTrip
  import WireFraming

  datatype Input =
    | Frame(frame: Bytes, context: AuthorizationContext, env: Env)
    | TunnelStops(engine: Engine)

  function Next(st: ServiceState, input: Input): ServiceState {
    match input
    case Frame(frame, context, env) => FrameStep(st, frame, context, env).0
    case TunnelStops(engine) => st.(backend := st.backend.SetRunning(engine, false))
  }

  function StateAfter(inputs: seq<Input>): ServiceState {
    if inputs == [] then START else Next(StateAfter(inputs[..|inputs| - 1]), inputs[|inputs| - 1])
  }

  /** A frame that decodes, from a caller who may give orders. */
  predicate Authorised(frame: Bytes, context: AuthorizationContext) {
    Wire.DecodeRequest(frame).Ok? && context.IsAllowed()
  }

  function Request(frame: Bytes): RequestEnvelope
    requires Wire.DecodeRequest(frame).Ok?
  {
    Wire.DecodeRequest(frame).value
  }

  predicate Executed(st: ServiceState, frame: Bytes, context: AuthorizationContext) {
    Authorised(frame, context) && Request(frame).requestId !in st.recentIdSet
  }

  ////////// One frame //////////

  lemma RememberedSound(st: ServiceState, id: string)
    requires Sound(st)
    ensures Sound(Remembered(st, id))
  {
    hide Coherent, ValidIdentifier;
  }

  predicate Encodable(response: ResponseEnvelope) {
    response.contractVersion == CONTRACT_VERSION && ValidIdentifier(response.requestId)
      && ValidIdentifier(response.code)
    && (response.profileId.Some? ==> ValidIdentifier(response.profileId.value))
  }

  /** The outcome of an executed frame, as the response reports it. */
  lemma FrameExecutes(st: ServiceState, frame: Bytes, context: AuthorizationContext, env: Env)
    requires Sound(st) && Executed(st, frame, context)
    ensures var (after, response) := FrameStep(st, frame, context, env);
      var request := Request(frame);
      var (done, r) := Execute(Remembered(st, request.requestId), request.requestId, request.command, env);
      after == done && Encodable(response) && response.requestId == request.requestId
      && !IsRefusal(response.code)
      && (response.code == "CONNECTED" <==> Answered(r, "CONNECTED"))
      && (response.code == "DISCONNECTED" <==> Answered(r, "DISCONNECTED"))
      && (r.Ok? ==> response.phase == after.machine.phase && !response.killSwitchActive)
      && (r.Err? ==> r.error == Busy || StorageError(r.error))
  {
    hide Sound, IdsValid, Execute, ValidIdentifier, Remembered, Wire.DecodeRequest;
    DecodedIds(frame);
    var request := Request(frame);
    RememberedSound(st, request.requestId);
    Executes(Remembered(st, request.requestId), request.requestId, request.command, env);
    var (done, r) := Execute(Remembered(st, request.requestId), request.requestId, request.command, env);
    if r.Err? { ErrorCodeValid(r.error); }
  }

  /** Frames that do not decode, strangers and repeated requests are answered and change nothing. */
  lemma OthersChangeNothing(st: ServiceState, frame: Bytes, context: AuthorizationContext, env: Env)
    requires !Executed(st, frame, context)
    ensures var (after, response) := FrameStep(st, frame, context, env);
      after == st && Encodable(response) && response.code != "CONNECTED" && response.code != "DISCONNECTED"
      && response.code == (if Wire.DecodeRequest(frame).Err? then "INVALID_REQUEST"
                           else if !context.IsAllowed() then "UNAUTHORIZED" else "DUPLICATE_REQUEST")
  {
    hide Execute, ValidIdentifier, Remembered, Wire.DecodeRequest, IdsValid;
    ErrorCodeValid(BadProfile);
    ErrorCodeValid(DuplicateRequest);
    ErrorCodeValid(UnauthorizedCaller);
    InvalidRequestIdValid();
    if Wire.DecodeRequest(frame).Ok? { DecodedIds(frame); }
  }

  /** Every answer can be sent, and arrives as it was meant. */
  lemma Arrives(response: ResponseEnvelope)
    requires Encodable(response)
    ensures Wire.EncodeResponse(response).Ok?
      && Wire.DecodeResponse(Wire.EncodeResponse(response).value) == Ok(response)
  {
    hide Wire.EncodeResponse, Wire.DecodeResponse, ValidIdentifier;
    WireRoundTrip.ResponseEncodable(response);
    WireRoundTrip.ResponseRoundTrip(response);
  }

  lemma NextSound(st: ServiceState, input: Input)
    requires Sound(st)
    ensures Sound(Next(st, input))
  {
    hide Execute, ValidIdentifier, Remembered, Wire.DecodeRequest, IdsValid, Coherent;
    match input
    case TunnelStops(engine) =>
    case Frame(frame, context, env) =>
      if Executed(st, frame, context) {
        FrameExecutes(st, frame, context, env);
        DecodedIds(frame);
        var request := Request(frame);
        RememberedSound(st, request.requestId);
        Executes(Remembered(st, request.requestId), request.requestId, request.command, env);
      } else {
        OthersChangeNothing(st, frame, context, env);
      }
  }

  ////////// Every run //////////

  lemma StartSound()
    ensures Sound(START)
  {
    hide Blank;
  }

  lemma {:induction false} RunSound(inputs: seq<Input>)
    ensures Sound(StateAfter(inputs))
  {
    hide Sound, Next;
    if inputs == [] {
      StartSound();
    } else {
      RunSound(inputs[..|inputs| - 1]);
      NextSound(StateAfter(inputs[..|inputs| - 1]), inputs[|inputs| - 1]);
    }
  }

  /** After any run, whatever bytes come next: the answer is one the encoder takes and the decoder gives back. */
  lemma EveryAnswerArrives(inputs: seq<Input>, frame: Bytes, context: AuthorizationContext, env: Env)
    ensures var response := FrameStep(StateAfter(inputs), frame, context, env).1;
      Wire.EncodeResponse(response).Ok? && Wire.DecodeResponse(Wire.EncodeResponse(response).value) == Ok(response)
  {
    hide Sound, FrameStep, Wire.EncodeResponse, Wire.DecodeResponse, Execute;
    var st := StateAfter(inputs);
    RunSound(inputs);
    if Executed(st, frame, context) {
      FrameExecutes(st, frame, context, env);
    } else {
      OthersChangeNothing(st, frame, context, env);
    }
    Arrives(FrameStep(st, frame, context, env).1);
  }

  /** The same for a whole pipe connection: a caller who sends a whole frame or a bad header gets a readable answer. */
  lemma EveryConnectionAnswered(inputs: seq<Input>, stream: Bytes, context: AuthorizationContext, env: Env)
    ensures var answer := ConnectionStep(StateAfter(inputs), stream, context, env).1;
      if WireFraming.ReadFrame(stream).Closed? then answer == None
      else answer.Some? && answer.value.Ok? && Wire.DecodeResponse(answer.value.value).Ok?
  {
    hide FrameStep, Wire.EncodeResponse, Wire.DecodeResponse, WireFraming.ReadFrame, ValidIdentifier;
    match WireFraming.ReadFrame(stream)
    case Closed =>
    case Malformed(_) =>
      InvalidRequestIdValid();
      ErrorCodeValid(BadProfile);
      Arrives(SafeError(INVALID_REQUEST_ID, "INVALID_REQUEST"));
    case Whole(frame, _) => EveryAnswerArrives(inputs, frame, context, env);
  }

  /** The protocol of the last request answered with "CONNECTED". */
  function LastConnected(inputs: seq<Input>): Option<Protocol> {
    if inputs == [] then None
    else
      var before, last := inputs[..|inputs| - 1], inputs[|inputs| - 1];
      if last.Frame? && Wire.DecodeRequest(last.frame).Ok? && Request(last.frame).command.Connect?
         && FrameStep(StateAfter(before), last.frame, last.context, last.env).1.code == "CONNECTED"
      then Some(Request(last.frame).command.protocol)
      else LastConnected(before)
  }

  lemma NextKeepsConnection(st: ServiceState, input: Input)
    requires Sound(st) && Next(st, input).machine.phase == Connected
    ensures
      if input.Frame? && FrameStep(st, input.frame, input.context, input.env).1.code == "CONNECTED" then
        Wire.DecodeRequest(input.frame).Ok? && Request(input.frame).command.Connect?
        && Next(st, input).backend.active == Some(EngineFor(Request(input.frame).command.protocol))
      else st.machine.phase == Connected && Next(st, input).backend.active == st.backend.active
  {
    hide Execute, ValidIdentifier, Remembered, Wire.DecodeRequest, IdsValid, Coherent;
    match input
    case TunnelStops(engine) =>
    case Frame(frame, context, env) =>
      if Executed(st, frame, context) {
        FrameExecutes(st, frame, context, env);
        DecodedIds(frame);
        var request := Request(frame);
        RememberedSound(st, request.requestId);
        RememberedKeeps(st, request.requestId);
        Executes(Remembered(st, request.requestId), request.requestId, request.command, env);
      } else {
        OthersChangeNothing(st, frame, context, env);
      }
  }

  lemma RememberedKeeps(st: ServiceState, id: string)
    ensures var after := Remembered(st, id);
      after.machine == st.machine && after.backend == st.backend && after.files == st.files
  {
  }

  /** While the machine says Connected, the active engine is that of the protocol connected last. */
  lemma {:induction false} ConnectedEngine(inputs: seq<Input>)
    requires StateAfter(inputs).machine.phase == Connected
    ensures LastConnected(inputs).Some?
      && StateAfter(inputs).backend.active == Some(EngineFor(LastConnected(inputs).value))
    decreases |inputs|
  {
    hide Sound, FrameStep, Next, Wire.DecodeRequest;
    if inputs != [] {
      var before, last := inputs[..|inputs| - 1], inputs[|inputs| - 1];
      RunSound(before);
      NextKeepsConnection(StateAfter(before), last);
      if StateAfter(before).machine.phase == Connected { ConnectedEngine(before); }
    }
  }

  /**
    "DISCONNECTED" is answered by an idle machine. An engine then still runs exactly if it ran before and
    its stop was missed.
   */
  lemma DisconnectedExactly(inputs: seq<Input>, frame: Bytes, context: AuthorizationContext, env: Env, e: Engine)
    requires FrameStep(StateAfter(inputs), frame, context, env).1.code == "DISCONNECTED"
    ensures var after := StateAfter(inputs + [Frame(frame, context, env)]);
      after.machine == IDLE && after.backend.active == None
      && (after.backend.Running(e) <==> StateAfter(inputs).backend.Running(e) && EnvOf(env.backend, e).stop.Missed?)
  {
    hide Execute, ValidIdentifier, Remembered, Wire.DecodeRequest, IdsValid, Sound;
    var st := StateAfter(inputs);
    NextInput(inputs, Frame(frame, context, env));
    RunSound(inputs);
    if Executed(st, frame, context) {
      FrameExecutes(st, frame, context, env);
      DecodedIds(frame);
      var request := Request(frame);
      RememberedSound(st, request.requestId);
      RememberedKeeps(st, request.requestId);
      Disconnected(Remembered(st, request.requestId), request.requestId, request.command, env);
      DisconnectRuns(st.backend, env.backend, e);
    } else {
      OthersChangeNothing(st, frame, context, env);
    }
  }

  lemma Disconnected(st: ServiceState, requestId: string, command: ControlCommand, env: Env)
    requires Sound(st) && IdsValid(command) && Answered(Execute(st, requestId, command, env).1, "DISCONNECTED")
    ensures var after := Execute(st, requestId, command, env).0;
      after.machine == IDLE && after.backend == DisconnectAll(st.backend, env.backend).0 && AllStop(env.backend)
  {
    hide Sound, ValidIdentifier, DisconnectAll, Wire.DecodeRequest;
    Executes(st, requestId, command, env);
  }

  lemma NextInput(inputs: seq<Input>, input: Input)
    ensures StateAfter(inputs + [input]) == Next(StateAfter(inputs), input)
  {
    assert (inputs + [input])[..|inputs|] == inputs;
  }

  ////////// Wedged machines //////////

  predicate WedgedBy(st: ServiceState, input: Input) {
    input.Frame? && Executed(st, input.frame, input.context) && Wedges(st, Request(input.frame).command, input.env)
  }

  lemma WedgesRemembered(st: ServiceState, id: string, command: ControlCommand, env: Env)
    ensures Wedges(Remembered(st, id), command, env) == Wedges(st, command, env)
  {
    hide LoadFor, DisconnectAll;
  }

  lemma NextWedged(st: ServiceState, input: Input)
    requires Sound(st)
    ensures Wedged(Next(st, input)) <==> Wedged(st) || WedgedBy(st, input)
    ensures Wedged(st) ==> Next(st, input).machine == st.machine
  {
    hide Execute, ValidIdentifier, Remembered, Wire.DecodeRequest, IdsValid, Sound, Wedges;
    match input
    case TunnelStops(engine) =>
    case Frame(frame, context, env) =>
      if Executed(st, frame, context) {
        FrameExecutes(st, frame, context, env);
        DecodedIds(frame);
        var request := Request(frame);
        RememberedSound(st, request.requestId);
        RememberedKeeps(st, request.requestId);
        WedgesRemembered(st, request.requestId, request.command, env);
        Executes(Remembered(st, request.requestId), request.requestId, request.command, env);
      } else {
        OthersChangeNothing(st, frame, context, env);
      }
  }

  predicate WedgedAt(inputs: seq<Input>, i: nat) { i < |inputs| && WedgedBy(StateAfter(inputs[..i]), inputs[i]) }

  lemma WedgedAtPrefix(inputs: seq<Input>, n: nat, i: nat)
    requires i < n <= |inputs|
    ensures WedgedAt(inputs[..n], i) == WedgedAt(inputs, i)
  {
    hide WedgedBy, StateAfter;
    assert inputs[..n][..i] == inputs[..i];
  }

  /**
    Between requests the machine is Disconnected, Connected or failed, unless at some point of the run a
    connect could not load its profile or the disconnect of a connection was refused by an engine.
   */
  lemma {:induction false} WedgedExactly(inputs: seq<Input>)
    ensures Wedged(StateAfter(inputs)) <==> exists i :: WedgedAt(inputs, i)
  {
    hide WedgedBy, Next, Wedged, Sound;
    if inputs == [] {
      StartNotWedged();
    } else {
      var n := |inputs| - 1;
      RunSound(inputs[..n]);
      NextWedged(StateAfter(inputs[..n]), inputs[n]);
      WedgedExactly(inputs[..n]);
      forall i: nat | i < n ensures WedgedAt(inputs[..n], i) == WedgedAt(inputs, i) { WedgedAtPrefix(inputs, n, i); }
      assert WedgedAt(inputs, n) == WedgedBy(StateAfter(inputs[..n]), inputs[n]);
    }
  }

  lemma StartNotWedged()
    ensures !Wedged(StateAfter([]))
  {
  }

  /** No later input, of any kind, changes the machine again. */
  lemma {:induction false} WedgedForever(inputs: seq<Input>, more: seq<Input>)
    requires Wedged(StateAfter(inputs))
    ensures StateAfter(inputs + more).machine == StateAfter(inputs).machine
    decreases |more|
  {
    hide Next, Sound, StateAfter;
    if more == [] {
      assert inputs + more == inputs;
    } else {
      var n := |more| - 1;
      WedgedForever(inputs, more[..n]);
      assert inputs + more == inputs + more[..n] + [more[n]];
      NextInput(inputs + more[..n], more[n]);
      RunSound(inputs + more[..n]);
      NextWedged(StateAfter(inputs + more[..n]), more[n]);
    }
  }
}
