/** The frames with which the client asks for connections, and what the service takes them for. */
module ClientEngine {
  import opened Basics
  import opened Contracts
  import opened Wire
  import opened WireRoundTrip
  import opened WireBounds
  import opened ClientAgreement
  import Client = ClientWire

  /** The kill switch is refused before anything is sent, so its byte is always zero. */
  function ConnectBody(profileId: string, protocol: Protocol): Client.Encoded {
    var profile :- Client.IdentifierBytes(profileId);
    Ok(profile + [match protocol case WireGuard => 1 case AmneziaWg => 2 case VlessReality => 3, 0])
  }

  function EncodeConnect(requestId: string, operationId: string, profileId: string, protocol: Protocol)
    : Client.Encoded
  {
    Client.ImportFrame(2, requestId, operationId, ConnectBody(profileId, protocol))
  }

  function EncodeDisconnect(requestId: string, operationId: string): Client.Encoded {
    Client.ImportFrame(3, requestId, operationId, Ok([]))
  }

  /** A request without a body of its own. */
  function EncodeQuestion(opcode: Byte, requestId: string): Client.Encoded {
    var request :- Client.IdentifierBytes(requestId);
    Client.Frame(opcode, request)
  }

  lemma ConnectUnderstood(requestId: string, operationId: string, profileId: string, protocol: Protocol)
    requires ValidIdentifier(requestId) && ValidIdentifier(operationId) && ValidIdentifier(profileId)
    ensures var frame := EncodeConnect(requestId, operationId, profileId, protocol);
      frame.Ok? && DecodeRequest(frame.value)
        == Ok(RequestEnvelope(CONTRACT_VERSION, requestId, Connect(operationId, profileId, protocol, false)))
  {
    hide PutString, TakeString, EncodeFrame, DecodeFrame, Client.ImportFrame, ValidIdentifier, TakeProfile,
         TakeAmneziaWg, TakeVless, Client.IdentifierBytes;
    SameIdentifier(profileId);
    PutStringAccepted(profileId);
    var tail: Bytes := [match protocol case WireGuard => 1 case AmneziaWg => 2 case VlessReality => 3, 0];
    ImportFrameBytes(2, requestId, operationId, PutString(profileId).value + tail);
    TakePutTwoIds(operationId, profileId, tail);
    assert tail[1..] == [0] && [0][1..] == [];
  }

  lemma DisconnectUnderstood(requestId: string, operationId: string)
    requires ValidIdentifier(requestId) && ValidIdentifier(operationId)
    ensures var frame := EncodeDisconnect(requestId, operationId);
      frame.Ok? && DecodeRequest(frame.value)
        == Ok(RequestEnvelope(CONTRACT_VERSION, requestId, Disconnect(operationId)))
  {
    hide PutString, TakeString, EncodeFrame, DecodeFrame, Client.ImportFrame, ValidIdentifier, TakeProfile,
         TakeAmneziaWg, TakeVless;
    ImportFrameBytes(3, requestId, operationId, []);
  }

  /** Asking for the status and for the statistics. */
  lemma QuestionsUnderstood(requestId: string)
    requires ValidIdentifier(requestId)
    ensures var frame := EncodeQuestion(1, requestId);
      frame.Ok? && DecodeRequest(frame.value) == Ok(RequestEnvelope(CONTRACT_VERSION, requestId, Status))
    ensures var frame := EncodeQuestion(7, requestId);
      frame.Ok? && DecodeRequest(frame.value) == Ok(RequestEnvelope(CONTRACT_VERSION, requestId, Statistics))
  {
    hide PutString, TakeString, DecodeFrame, ValidIdentifier, TakeProfile, TakeAmneziaWg, TakeVless,
         Client.IdentifierBytes, Client.Frame, Header;
    SameIdentifier(requestId);
    PutStringAccepted(requestId);
    var body := PutString(requestId).value;
    SameFrame(1, body);
    SameFrame(7, body);
    DecodeEncodedFrame(1, body);
    DecodeEncodedFrame(7, body);
    assert body + [] == body;
    TakePutString(requestId, []);
  }
}
