/** From the client's import to the service's vault and back to the client's answer. */
module Provisioning {
  import opened Basics
  import opened Contracts
  import opened Vault
  import opened Service
  import opened ServiceSteps
  import opened ServiceRuns
  import opened ServiceStorage
  import Wire
  import WireRoundTrip
  import WireBounds
  import Client = ClientWire
  import ClientAgreement
  import Machine

  /** The client reads every answer to a frame it sent as what the service meant. */
  lemma ClientReadsAnswer(inputs: seq<Input>, frame: Bytes, context: AuthorizationContext, env: Env)
    requires Wire.DecodeRequest(frame).Ok?
    ensures var response := FrameStep(StateAfter(inputs), frame, context, env).1;
      var bytes := Wire.EncodeResponse(response);
      bytes.Ok? && Client.ClientDecode(bytes.value, Request(frame).requestId)
        == Ok(ClientAgreement.ResponseView(response))
  {
    hide Sound, FrameStep, Wire.EncodeResponse, Wire.DecodeResponse, Wire.DecodeRequest, Execute, Client.ClientDecode,
         StateAfter;
    EveryAnswerArrives(inputs, frame, context, env);
    AnswersItsRequest(inputs, frame, context, env);
    DecodedIds(frame);
    var response := FrameStep(StateAfter(inputs), frame, context, env).1;
    ClientAgreement.DecodersAgree(Wire.EncodeResponse(response).value, Request(frame).requestId);
    ClientAgreement.ServiceAcceptedIsClientAccepted(Wire.EncodeResponse(response).value);
  }

  lemma AnswersItsRequest(inputs: seq<Input>, frame: Bytes, context: AuthorizationContext, env: Env)
    requires Wire.DecodeRequest(frame).Ok?
    ensures FrameStep(StateAfter(inputs), frame, context, env).1.requestId == Request(frame).requestId
  {
    hide Sound, Execute, Wire.DecodeRequest, StateAfter;
    RunSound(inputs);
    if Executed(StateAfter(inputs), frame, context) { FrameExecutes(StateAfter(inputs), frame, context, env); }
  }

  predicate IsImport(frame: Bytes, p: Profile) {
    Wire.DecodeRequest(frame).Ok? &&
    match p
    case WireGuardKind(w) => Request(frame).command.ImportWireGuard? && Request(frame).command.wireguard == w
    case AmneziaWgKind(a) => Request(frame).command.ImportAmneziaWg? && Request(frame).command.amneziawg == a
    case VlessKind(v) => Request(frame).command.ImportVless? && Request(frame).command.vless == v
  }

  lemma ImportAnswer(st: ServiceState, frame: Bytes, p: Profile, context: AuthorizationContext, env: Env)
    requires Sound(st) && Executed(st, frame, context) && IsImport(frame, p)
    ensures var response := FrameStep(st, frame, context, env).1;
      var stored := Store(st.files, p, env.vault).1;
      if stored.Ok? then response.code == "PROFILE_STORED" && response.profileId == Some(stored.value)
      else response.code != "PROFILE_STORED"
    ensures InputPart(st, Frame(frame, context, env)) == [StoreOp(p, env.vault)]
  {
    hide ValidIdentifier, Wire.DecodeRequest, Store, ImportStep, ValidWireGuard, ValidAmneziaWg, ValidVless,
         Machine.Coherent;
    DecodedIds(frame);
    var request := Request(frame);
    RememberedSound(st, request.requestId);
    RememberedKeeps(st, request.requestId);
    ImportSteps(Remembered(st, request.requestId), request.command.operationId, p, env);
    var stored := Store(st.files, p, env.vault).1;
    assert |"PROFILE_STORED"| == 14;
    if stored.Err? { ErrorCodeLengths(stored.error); }
  }

  lemma ErrorCodeLengths(e: Machine.CommandError)
    ensures |ErrorCode(e)| != |"PROFILE_STORED"|
  {
  }

  /**
    An import answered with a handle has stored the profile under that handle, which was free, and has left
    every other profile as it was. Any other answer gives out no handle, and leaves everything that can be
    loaded as it was exactly if no failed call left a whole file behind.
   */
  lemma ImportedIsHeld(inputs: seq<Input>, frame: Bytes, p: Profile, context: AuthorizationContext, env: Env)
    requires Executed(StateAfter(inputs), frame, context) && IsImport(frame, p)
    ensures var response := FrameStep(StateAfter(inputs), frame, context, env).1;
      var before, after := ModelAfter(VaultHistory(inputs)),
        ModelAfter(VaultHistory(inputs + [Frame(frame, context, env)]));
      if response.code == "PROFILE_STORED" then
        response.profileId.Some? && response.profileId.value !in before.All()
        && after == before.(held := before.held[response.profileId.value := p])
        && Held(inputs + [Frame(frame, context, env)], response.profileId.value) == Some(p)
      else
        after.held == before.held
        && (after.All() == before.All() <==> StoreLeftover(StateAfter(inputs).files, p, env.vault) == None)
  {
    hide Sound, FrameStep, Wire.DecodeRequest, Executed, IsImport, StateAfter, Store, StoreLeftover, ModelAfter,
         FilesAfter,
         InputPart, ValidHandle, FileName, Model.All;
    var input := Frame(frame, context, env);
    RunSound(inputs);
    ImportAnswer(StateAfter(inputs), frame, p, context, env);
    RunFiles(inputs);
    assert (inputs + [input])[..|inputs|] == inputs;
    assert VaultHistory(inputs + [input]) == VaultHistory(inputs) + [StoreOp(p, env.vault)];
    StoreThenLoad(VaultHistory(inputs), p, env.vault);
    StoredHandle(VaultHistory(inputs), p, env.vault);
  }

  lemma StoredHandle(history: seq<VaultOp>, p: Profile, env: VaultEnv)
    ensures var r := Store(FilesAfter(history), p, env).1;
      r.Ok? ==> ValidHandle(r.value) && FileName(r.value) == r.value
  {
    hide ValidHandle, FileName, CreateFile, FilesAfter, Leftover, Payload;
    if Payload(p).Ok? { CreateFileAdds(FilesAfter(history), p, Sealed(Payload(p).value), env.attempts); }
  }

  /**
    The whole way for a WireGuard profile: the client's import is heard as the profile it meant, and the
    handle the client reads from an answer of "PROFILE_STORED" stands for that profile, ready to connect.
   */
  lemma ClientImportIsHeld(inputs: seq<Input>, requestId: string, operationId: string, p: WireGuardProfile,
      dns: seq<string>,
    context: AuthorizationContext, env: Env)
    requires ValidIdentifier(requestId) && ValidIdentifier(operationId)
    requires ValidWireGuard(p) && WireBounds.TextsFit(p) && WireRoundTrip.Denote(dns, p.dnsServers)
    requires context.IsAllowed() && requestId !in StateAfter(inputs).recentIdSet
    ensures Client.EncodeImport(requestId, operationId, ClientAgreement.ClientView(p, dns)).Ok?
    ensures var frame := Client.EncodeImport(requestId, operationId, ClientAgreement.ClientView(p, dns)).value;
      var bytes := Wire.EncodeResponse(FrameStep(StateAfter(inputs), frame, context, env).1);
      bytes.Ok? && Client.ClientDecode(bytes.value, requestId).Ok?
      && var answer := Client.ClientDecode(bytes.value, requestId).value;
         answer.code == "PROFILE_STORED" ==>
           answer.profileId.Some? && Held(inputs + [Frame(frame, context, env)], answer.profileId.value)
             == Some(WireGuardKind(p))
  {
    hide Sound, FrameStep, Wire.DecodeRequest, StateAfter, Client.EncodeImport, Client.ClientDecode,
         Wire.EncodeResponse,
         ValidWireGuard, ValidIdentifier, WireBounds.TextsFit, WireRoundTrip.Denote, Held, ModelAfter, VaultHistory;
    ClientAgreement.ImportUnderstood(requestId, operationId, p, dns);
    var frame := Client.EncodeImport(requestId, operationId, ClientAgreement.ClientView(p, dns)).value;
    ClientReadsAnswer(inputs, frame, context, env);
    ImportedIsHeld(inputs, frame, WireGuardKind(p), context, env);
  }

  /** The same for AmneziaWG. */
  lemma ClientAmneziaWgImportIsHeld(inputs: seq<Input>, requestId: string, operationId: string, p: AmneziaWgProfile,
      dns: seq<string>,
    context: AuthorizationContext, env: Env)
    requires ValidIdentifier(requestId) && ValidIdentifier(operationId)
    requires ValidAmneziaWg(p) && WireBounds.AmneziaWgTextsFit(p) && WireRoundTrip.Denote(dns, p.wireguard.dnsServers)
    requires context.IsAllowed() && requestId !in StateAfter(inputs).recentIdSet
    ensures Client.EncodeAmneziaWgImport(requestId, operationId, ClientAgreement.ClientAmneziaWgView(p, dns)).Ok?
    ensures var frame := Client.EncodeAmneziaWgImport(requestId, operationId,
      ClientAgreement.ClientAmneziaWgView(p, dns)).value;
      var bytes := Wire.EncodeResponse(FrameStep(StateAfter(inputs), frame, context, env).1);
      bytes.Ok? && Client.ClientDecode(bytes.value, requestId).Ok?
      && var answer := Client.ClientDecode(bytes.value, requestId).value;
         answer.code == "PROFILE_STORED" ==>
           answer.profileId.Some? && Held(inputs + [Frame(frame, context, env)], answer.profileId.value)
             == Some(AmneziaWgKind(p))
  {
    hide Sound, FrameStep, Wire.DecodeRequest, StateAfter, Client.EncodeAmneziaWgImport, Client.ClientDecode,
         Wire.EncodeResponse,
         ValidAmneziaWg, ValidIdentifier, WireBounds.AmneziaWgTextsFit, WireRoundTrip.Denote, Held, ModelAfter,
           VaultHistory;
    ClientAgreement.AmneziaWgImportUnderstood(requestId, operationId, p, dns);
    var frame := Client.EncodeAmneziaWgImport(requestId, operationId,
      ClientAgreement.ClientAmneziaWgView(p, dns)).value;
    ClientReadsAnswer(inputs, frame, context, env);
    ImportedIsHeld(inputs, frame, AmneziaWgKind(p), context, env);
  }

  /** The same for VLESS. */
  lemma ClientVlessImportIsHeld(inputs: seq<Input>, requestId: string, operationId: string, p: VlessProfile,
    context: AuthorizationContext, env: Env)
    requires ValidIdentifier(requestId) && ValidIdentifier(operationId) && ValidVless(p)
    requires context.IsAllowed() && requestId !in StateAfter(inputs).recentIdSet
    ensures Client.EncodeVlessImport(requestId, operationId, p).Ok?
    ensures var frame := Client.EncodeVlessImport(requestId, operationId, p).value;
      var bytes := Wire.EncodeResponse(FrameStep(StateAfter(inputs), frame, context, env).1);
      bytes.Ok? && Client.ClientDecode(bytes.value, requestId).Ok?
      && var answer := Client.ClientDecode(bytes.value, requestId).value;
         answer.code == "PROFILE_STORED" ==>
           answer.profileId.Some? && Held(inputs + [Frame(frame, context, env)], answer.profileId.value)
             == Some(VlessKind(p))
  {
    hide Sound, FrameStep, Wire.DecodeRequest, StateAfter, Client.EncodeVlessImport, Client.ClientDecode,
         Wire.EncodeResponse,
         ValidVless, ValidIdentifier, Held, ModelAfter, VaultHistory;
    ClientAgreement.VlessImportUnderstood(requestId, operationId, p);
    var frame := Client.EncodeVlessImport(requestId, operationId, p).value;
    ClientReadsAnswer(inputs, frame, context, env);
    ImportedIsHeld(inputs, frame, VlessKind(p), context, env);
  }

  ////////// Deletion //////////

  lemma DeleteAnswer(st: ServiceState, frame: Bytes, context: AuthorizationContext, env: Env)
    requires Sound(st) && Executed(st, frame, context) && Request(frame).command.DeleteProfile?
    ensures var response := FrameStep(st, frame, context, env).1;
      var handle := Request(frame).command.profileId;
      var deleted := Deleted(st.files, handle, env.vault).1;
      (response.code == "PROFILE_DELETED" <==> deleted.Ok?)
      && (response.code == "PROFILE_NOT_FOUND" <==> deleted == Err(Machine.ProfileNotFound))
    ensures InputPart(st, Frame(frame, context, env)) == [DeleteOp(Request(frame).command.profileId, env.vault)]
  {
    hide ValidIdentifier, Wire.DecodeRequest, ValidHandle, FileName, Machine.Coherent, Machine.Blank;
    DecodedIds(frame);
    var command := Request(frame).command;
    RememberedKeeps(st, Request(frame).requestId);
    IdentifierNotBlank(command.operationId);
    IdentifierNotBlank(command.profileId);
    assert |"PROFILE_DELETED"| == 15 && |"PROFILE_NOT_FOUND"| == 17 && |"PROFILE_STORE_UNAVAILABLE"| == 25;
  }

  lemma GoneFromModel(history: seq<VaultOp>, handle: string, env: VaultEnv)
    ensures var r := Deleted(FilesAfter(history), handle, env).1;
      r.Ok? || r == Err(Machine.ProfileNotFound) ==>
        Lookup(ModelStep(FilesAfter(history), ModelAfter(history), DeleteOp(handle, env)).All(), handle) == None
  {
    hide ValidHandle, FileName, FilesAfter, ModelAfter, Mirrors;
    HistoryRefines(history);
    MirroredNames(FilesAfter(history), ModelAfter(history).All());
  }

  /** A profile whose deletion was answered with "PROFILE_DELETED" or "PROFILE_NOT_FOUND" can be loaded no more. */
  lemma DeletedIsGone(inputs: seq<Input>, frame: Bytes, context: AuthorizationContext, env: Env)
    requires Executed(StateAfter(inputs), frame, context) && Request(frame).command.DeleteProfile?
    requires var code := FrameStep(StateAfter(inputs), frame, context, env).1.code;
      code == "PROFILE_DELETED" || code == "PROFILE_NOT_FOUND"
    ensures Found(inputs + [Frame(frame, context, env)], Request(frame).command.profileId) == None
  {
    hide Sound, FrameStep, Wire.DecodeRequest, StateAfter, Deleted, FilesAfter, InputPart, Lookup, ModelStep;
    var input, handle := Frame(frame, context, env), Request(frame).command.profileId;
    RunSound(inputs);
    DeleteAnswer(StateAfter(inputs), frame, context, env);
    RunFiles(inputs);
    assert (inputs + [input])[..|inputs|] == inputs;
    var history := VaultHistory(inputs);
    assert VaultHistory(inputs + [input]) == history + [DeleteOp(handle, env.vault)];
    HistoryThen(history, DeleteOp(handle, env.vault));
    GoneFromModel(history, handle, env.vault);
  }
}
