/** The client's encoder and decoder speak the service's language. */
module ClientAgreement {
  import opened Basics
  import opened Contracts
  import opened IpText
  import Text
  import opened Wire
  import opened WireRoundTrip
  import opened WireCanonical
  import opened WireBounds
  import Client = ClientWire
  import LE = LittleEndian
  import Utf8

  ////////// Imports //////////

  lemma {:induction false} AsciiUnits(v: string)
    requires Utf8.IsAscii(v)
    ensures Client.LowBytes(Client.CodeUnits(v)) == Utf8.Encode(v)
  {
    if v != "" {
      AsciiUnits(v[1..]);
      assert Client.CodeUnits(v) == [v[0] as int] + Client.CodeUnits(v[1..]);
      assert Client.LowBytes(Client.CodeUnits(v)) == [v[0] as int] + Client.LowBytes(Client.CodeUnits(v[1..]));
      assert Utf8.EncodeChar(v[0]) == [v[0] as int];
    }
  }

  lemma ZeroBytes(v: string)
    requires Utf8.IsAscii(v)
    ensures 0 in Utf8.Encode(v) <==> '\0' in v
  {
    Utf8.EncodeAscii(v);
    var bs := Utf8.AsciiBytes(v);
    if 0 in bs {
      var i :| 0 <= i < |bs| && bs[i] == 0;
      assert v[i] == '\0';
    }
    if '\0' in v {
      var i :| 0 <= i < |v| && v[i] == '\0';
      assert bs[i] == 0;
    }
  }

  lemma OneLowByte(n: nat)
    requires n < 256
    ensures Client.LowBytes([n]) == [n]
  {
  }

  /** On ASCII text both encoders write the same bounded string. */
  lemma SameBounded(v: string, maximum: nat)
    requires Utf8.IsAscii(v) && PutBounded(v, maximum).Ok? && |Utf8.Encode(v)| <= 253
    ensures Client.BoundedString(v) == Ok(PutBounded(v, maximum).value)
  {
    AsciiUnits(v);
    ZeroBytes(v);
    Utf8.EncodeLength(v);
    OneLowByte(|Utf8.Encode(v)|);
  }

  lemma SameIdentifier(v: string)
    requires ValidIdentifier(v)
    ensures PutString(v).Ok? && Client.IdentifierBytes(v) == Ok(PutString(v).value)
  {
    IdentifierAscii(v);
    Utf8.EncodeAscii(v);
    AsciiUnits(v);
    ZeroBytes(v);
    OneLowByte(|Utf8.Encode(v)|);
  }

  lemma {:induction false} SameBoundedAll(vs: seq<string>)
    requires PutBoundedAll(vs).Ok? && forall i :: 0 <= i < |vs| ==> Utf8.IsAscii(vs[i])
    ensures Client.BoundedStrings(vs) == Ok(PutBoundedAll(vs).value)
  {
    hide Client.BoundedString, PutBounded;
    if vs != [] {
      BoundedAllFits(vs);
      SameBounded(vs[0], 253);
      SameBoundedAll(vs[1..]);
    }
  }

  lemma SameList(vs: seq<string>)
    requires PutList(vs).Ok? && forall i :: 0 <= i < |vs| ==> Utf8.IsAscii(vs[i])
    ensures Client.StringList(vs) == Ok(PutList(vs).value)
  {
    SameBoundedAll(vs);
    OneLowByte(|vs|);
  }

  /** The client's long string rule is the weaker one: it lets the C1 controls through. */
  lemma SameLong(v: string)
    requires PutLong(v).Ok?
    ensures Client.LongString(v) == Ok(PutLong(v).value)
  {
    Utf8.EncodeLength(v);
  }

  lemma {:induction false} SameLongAll(vs: seq<string>)
    requires PutLongAll(vs).Ok?
    ensures Client.LongStrings(vs) == Ok(PutLongAll(vs).value)
  {
    hide Client.LongString, PutLong;
    if vs != [] {
      SameLong(vs[0]);
      SameLongAll(vs[1..]);
    }
  }

  /** The client's copy of a profile: the same fields, with DNS servers as some text that denotes them. */
  function ClientView(p: WireGuardProfile, dns: seq<string>): Client.ClientProfile {
    Client.ClientProfile(p.privateKey, p.addresses, dns, p.peerPublicKey, p.presharedKey, p.endpointHost,
      p.endpointPort, p.allowedIps, p.persistentKeepalive)
  }

  function ClientAmneziaWgView(p: AmneziaWgProfile, dns: seq<string>): Client.ClientAmneziaWg {
    Client.ClientAmneziaWg(ClientView(p.wireguard, dns), p.jc, p.jmin, p.jmax, p.s1, p.s2, p.s3, p.s4,
      p.h1, p.h2, p.h3, p.h4, p.specialJunk)
  }

  lemma NetworksAscii(vs: seq<string>, minimum: nat, maximum: nat)
    requires ValidNetworks(vs, minimum, maximum)
    ensures forall i :: 0 <= i < |vs| ==> Utf8.IsAscii(vs[i])
  {
    forall i | 0 <= i < |vs| ensures Utf8.IsAscii(vs[i]) { NetworkAscii(vs[i]); }
  }

  lemma DenotedAscii(texts: seq<string>, dns: seq<IpAddr>)
    requires Denote(texts, dns)
    ensures forall i :: 0 <= i < |texts| ==> Utf8.IsAscii(texts[i])
  {
    forall i | 0 <= i < |texts| ensures Utf8.IsAscii(texts[i]) {
      ParsedChars(texts[i]);
      AddressAscii(texts[i]);
    }
  }

  lemma SameOptions(p: WireGuardProfile)
    ensures Client.OptionalKey(p.presharedKey) == PutOptionalKey(p.presharedKey)
    ensures Client.OptionalU16(p.persistentKeepalive) == PutOptionalU16(p.persistentKeepalive)
    ensures Client.U16Bytes(p.endpointPort) == LE.Put(p.endpointPort, 2)
  {
  }

  lemma SameProfile(p: WireGuardProfile, dns: seq<string>)
    requires ValidWireGuard(p) && TextsFit(p) && Denote(dns, p.dnsServers)
    ensures PutProfileWith(p, dns).Ok?
    ensures Client.ProfileBytes(ClientView(p, dns)) == Ok(PutProfileWith(p, dns).value)
  {
    hide PutList, Client.StringList, PutBounded, Client.BoundedString, ValidEndpointHost, Denote, Client.OptionalKey,
         PutOptionalKey, Client.OptionalU16, PutOptionalU16, LE.Put, ValidNetworks, ZeroKey, TextsFit;
    ProfileAccepted(p, dns);
    NetworksAscii(p.addresses, 1, 8);
    SameList(p.addresses);
    NetworksAscii(p.allowedIps, 1, 32);
    SameList(p.allowedIps);
    DenotedAscii(dns, p.dnsServers);
    SameList(dns);
    HostAscii(p.endpointHost);
    HostLength(p.endpointHost);
    SameBounded(p.endpointHost, 253);
    SameOptions(p);
  }

  lemma {:induction false} SameNumbers(ns: seq<U16>)
    ensures Client.U16All(ns) == PutNumbers(ns)
  {
    if ns != [] { SameNumbers(ns[1..]); }
  }

  lemma SameAmneziaWg(p: AmneziaWgProfile, dns: seq<string>)
    requires ValidAmneziaWg(p) && AmneziaWgTextsFit(p) && Denote(dns, p.wireguard.dnsServers)
    ensures PutAmneziaWgWith(p, dns).Ok?
    ensures Client.AmneziaWgBytes(ClientAmneziaWgView(p, dns)) == Ok(PutAmneziaWgWith(p, dns).value)
  {
    hide PutProfileWith, Client.ProfileBytes, PutBoundedAll, Client.BoundedStrings, PutLongAll, Client.LongStrings,
         ValidWireGuard, ValidNumericRange, Denote, PutNumbers, Client.U16All, ValidLongString, TextsFit;
    AmneziaWgAccepted(p, dns);
    SameProfile(p.wireguard, dns);
    forall i | 0 <= i < 4 ensures Utf8.IsAscii(Headers(p)[i]) { RangeAscii(Headers(p)[i]); }
    assert Client.ClientHeaders(ClientAmneziaWgView(p, dns)) == Headers(p);
    SameBoundedAll(Headers(p));
    SameLongAll(p.specialJunk);
    assert Client.ClientNumbers(ClientAmneziaWgView(p, dns)) == Numbers(p);
    SameNumbers(Numbers(p));
    OneLowByte(|p.specialJunk|);
  }

  lemma SameShortId(v: string)
    requires Text.AllHex(v) && |v| <= 16
    ensures PutOptionalBounded(v, 16).Ok?
    ensures Client.OptionalBoundedString(v) == Ok(PutOptionalBounded(v, 16).value)
  {
    DigitsAscii(v);
    ZeroBytes(v);
    Utf8.EncodeAscii(v);
    OneLowByte(|Utf8.Encode(v)|);
  }

  lemma UuidAscii(s: string)
    requires ValidUuid(s)
    ensures Utf8.IsAscii(s)
  {
  }

  lemma SameVless(p: VlessProfile)
    requires ValidVless(p)
    ensures PutVless(p).Ok? && Client.VlessBytes(p) == Ok(PutVless(p).value)
  {
    hide PutBounded, Client.BoundedString, PutOptionalBounded, Client.OptionalBoundedString, PutLong,
         Client.LongString, ValidEndpointHost, LE.Put, Utf8.Encode;
    VlessAccepted(p);
    VlessTexts(p);
    HostAscii(p.endpointHost);
    HostAscii(p.serverName);
    IdentifierAscii(p.realityPassword);
    UuidAscii(p.clientId);
    SameBounded(p.clientId, 36);
    SameBounded(p.endpointHost, 253);
    SameBounded(p.serverName, 253);
    SameBounded(p.fingerprint, 32);
    SameBounded(p.realityPassword, 128);
    SameShortId(p.shortId);
    SameLong(p.spiderX);
    assert Client.U16Bytes(p.endpointPort) == LE.Put(p.endpointPort, 2);
  }

  lemma SameFrame(opcode: Byte, body: Bytes)
    requires |body| + 12 <= MAX_FRAME_SIZE
    ensures Client.Frame(opcode, body) == Ok(EncodeFrame(opcode, body).value)
  {
  }

  /** An import frame with the given profile bytes is the one the service reads them back from. */
  lemma ImportFrameBytes(opcode: Byte, requestId: string, operationId: string, profile: Bytes)
    requires ValidIdentifier(requestId) && ValidIdentifier(operationId) && |profile| <= MAX_AMNEZIAWG + 48
    ensures PutString(requestId).Ok? && PutString(operationId).Ok?
    ensures var body := PutString(requestId).value + (PutString(operationId).value + profile);
      EncodeFrame(opcode, body).Ok?
      && Client.ImportFrame(opcode, requestId, operationId, Ok(profile)) == Ok(EncodeFrame(opcode, body).value)
      && DecodeFrame(EncodeFrame(opcode, body).value) == Ok((opcode, body))
      && TakeId(body) == Ok((requestId, PutString(operationId).value + profile))
      && TakeId(PutString(operationId).value + profile) == Ok((operationId, profile))
  {
    hide PutString, Client.IdentifierBytes, TakeString;
    SameIdentifier(requestId);
    SameIdentifier(operationId);
    PutStringAccepted(requestId);
    PutStringAccepted(operationId);
    var body := PutString(requestId).value + (PutString(operationId).value + profile);
    SameFrame(opcode, body);
    DecodeEncodedFrame(opcode, body);
    TakePutString(requestId, PutString(operationId).value + profile);
    TakePutString(operationId, profile);
  }

  /** The service reads a client's WireGuard import as the profile the client meant. */
  lemma ImportUnderstood(requestId: string, operationId: string, p: WireGuardProfile, dns: seq<string>)
    requires ValidIdentifier(requestId) && ValidIdentifier(operationId)
    requires ValidWireGuard(p) && TextsFit(p) && Denote(dns, p.dnsServers)
    ensures var frame := Client.EncodeImport(requestId, operationId, ClientView(p, dns));
      frame.Ok? && DecodeRequest(frame.value)
        == Ok(RequestEnvelope(CONTRACT_VERSION, requestId, ImportWireGuard(operationId, p)))
  {
    hide PutProfileWith, Client.ProfileBytes, TakeProfile, PutString, TakeId, EncodeFrame, DecodeFrame,
         Client.ImportFrame,
         ValidIdentifier, Denote, TextsFit, TakeTwoIds, TakeAmneziaWg, TakeVless;
    SameProfile(p, dns);
    ProfileAccepted(p, dns);
    var profile := PutProfileWith(p, dns).value;
    ImportFrameBytes(5, requestId, operationId, profile);
    assert profile + [] == profile;
    TakePutProfile(p, dns, []);
  }

  lemma AmneziaWgImportUnderstood(requestId: string, operationId: string, p: AmneziaWgProfile, dns: seq<string>)
    requires ValidIdentifier(requestId) && ValidIdentifier(operationId)
    requires ValidAmneziaWg(p) && AmneziaWgTextsFit(p) && Denote(dns, p.wireguard.dnsServers)
    ensures var frame := Client.EncodeAmneziaWgImport(requestId, operationId, ClientAmneziaWgView(p, dns));
      frame.Ok? && DecodeRequest(frame.value)
        == Ok(RequestEnvelope(CONTRACT_VERSION, requestId, ImportAmneziaWg(operationId, p)))
  {
    hide PutAmneziaWgWith, Client.AmneziaWgBytes, TakeAmneziaWg, PutString, TakeId, EncodeFrame, DecodeFrame,
         Client.ImportFrame, ValidIdentifier, Denote, AmneziaWgTextsFit, TakeTwoIds, TakeProfile, TakeVless;
    SameAmneziaWg(p, dns);
    AmneziaWgAccepted(p, dns);
    var profile := PutAmneziaWgWith(p, dns).value;
    ImportFrameBytes(8, requestId, operationId, profile);
    assert profile + [] == profile;
    TakePutAmneziaWg(p, dns, []);
  }

  lemma VlessImportUnderstood(requestId: string, operationId: string, p: VlessProfile)
    requires ValidIdentifier(requestId) && ValidIdentifier(operationId) && ValidVless(p)
    ensures var frame := Client.EncodeVlessImport(requestId, operationId, p);
      frame.Ok? && DecodeRequest(frame.value)
        == Ok(RequestEnvelope(CONTRACT_VERSION, requestId, ImportVless(operationId, p)))
  {
    hide PutVless, Client.VlessBytes, TakeAmneziaWg, PutString, TakeId, EncodeFrame, DecodeFrame, Client.ImportFrame,
         ValidIdentifier, TakeTwoIds, TakeProfile, TakeVless, ValidVless;
    SameVless(p);
    VlessAccepted(p);
    ImportFrameBytes(9, requestId, operationId, PutVless(p).value);
    TakeWholeVless(p);
  }

  lemma DeleteUnderstood(requestId: string, operationId: string, profileId: string)
    requires ValidIdentifier(requestId) && ValidIdentifier(operationId) && ValidIdentifier(profileId)
    ensures var frame := Client.EncodeDelete(requestId, operationId, profileId);
      frame.Ok? && DecodeRequest(frame.value)
        == Ok(RequestEnvelope(CONTRACT_VERSION, requestId, DeleteProfile(operationId, profileId)))
  {
    hide PutString, TakeString, EncodeFrame, DecodeFrame, Client.ImportFrame, ValidIdentifier, TakeProfile,
         TakeAmneziaWg, TakeVless, Client.IdentifierBytes;
    SameIdentifier(profileId);
    PutStringAccepted(profileId);
    ImportFrameBytes(6, requestId, operationId, PutString(profileId).value);
    assert PutString(profileId).value + [] == PutString(profileId).value;
    TakePutTwoIds(operationId, profileId, []);
  }

  ////////// Responses //////////

  lemma LatinAscii(bs: Bytes, v: string)
    requires Utf8.IsAscii(v)
    ensures Client.Latin(bs) == v <==> Utf8.Decode(bs) == Some(v)
  {
    Utf8.EncodeAscii(v);
    Utf8.DecodeEncode(v);
    if Client.Latin(bs) == v {
      assert bs == Utf8.AsciiBytes(v);
    }
    if Utf8.Decode(bs) == Some(v) {
      Utf8.EncodeDecode(bs);
      assert Client.Latin(bs) == v;
    }
  }

  /** Both readers give the same identifier, or neither gives it. */
  lemma SameString(s: Bytes, v: string, rest: Bytes)
    requires ValidIdentifier(v)
    ensures Client.ReadString(s) == Ok((v, rest)) <==> TakeId(s) == Ok((v, rest))
  {
    IdentifierAscii(v);
    if s != [] && s[0] <= |s[1..]| { LatinAscii(s[1..][..s[0]], v); }
  }

  lemma SamePhase(s: Bytes)
    ensures Client.ReadPhase(s).Ok? <==> TakePhase(s).Ok?
    ensures TakePhase(s).Ok? ==>
      Client.ReadPhase(s).value == (PhaseByte(TakePhase(s).value.0) as int, TakePhase(s).value.1)
  {
  }

  lemma SameFlag(s: Bytes)
    ensures Client.ReadFlag(s).Ok? <==> TakeBool(s).Ok?
    ensures TakeBool(s).Ok? ==> Client.ReadFlag(s).value == TakeBool(s).value
  {
  }

  lemma SameInt64(s: Bytes)
    ensures Client.ReadInt64(s).Ok? <==> TakeU64(s).Ok?
    ensures TakeU64(s).Ok? ==> Client.ReadInt64(s).value == (LE.Signed(TakeU64(s).value.0) as int, TakeU64(s).value.1)
  {
  }

  /** A counter as the client sees it: exact below 2^63, negative from there on. */
  function Counter(n: U64): int { LE.Signed(n) }

  lemma CounterExact(n: U64)
    ensures Counter(n) == n <==> n < 0x8000_0000_0000_0000
    ensures Counter(n) < 0 <==> n >= 0x8000_0000_0000_0000
  {
  }

  function StatisticsView(s: Option<TunnelStatistics>): Client.ClientStatistics {
    match s
    case None => Client.ClientStatistics(None, None, None)
    case Some(t) =>
      Client.ClientStatistics(Some(Counter(t.bytesReceived)), Some(Counter(t.bytesSent)), t.lastHandshakeUnixMs)
  }

  lemma SameOptionalInt64(s: Bytes)
    ensures Client.ReadOptionalInt64(s).Ok? <==> TakeOptionalI64(s).Ok?
    ensures TakeOptionalI64(s).Ok? ==>
      Client.ReadOptionalInt64(s).value == (TakeOptionalI64(s).value.0, TakeOptionalI64(s).value.1)
  {
    hide TakeU64, Client.ReadInt64, TakeBool, Client.ReadFlag;
    SameFlag(s);
    if TakeBool(s).Ok? { SameInt64(TakeBool(s).value.1); }
  }

  lemma SameStatistics(s: Bytes)
    ensures Client.ReadStatistics(s).Ok? <==> TakeStatistics(s).Ok?
    ensures TakeStatistics(s).Ok? ==>
      Client.ReadStatistics(s).value == (StatisticsView(TakeStatistics(s).value.0), TakeStatistics(s).value.1)
  {
    hide TakeU64, Client.ReadInt64, TakeBool, Client.ReadFlag, TakeOptionalI64, Client.ReadOptionalInt64;
    SameFlag(s);
    if TakeBool(s).Ok? {
      var s1 := TakeBool(s).value.1;
      SameInt64(s1);
      if TakeU64(s1).Ok? {
        var s2 := TakeU64(s1).value.1;
        SameInt64(s2);
        if TakeU64(s2).Ok? { SameOptionalInt64(TakeU64(s2).value.1); }
      }
    }
  }

  /** Both readers of an optional identifier agree whenever the text is a valid identifier. */
  lemma SameOptionalString(s: Bytes, v: Option<string>, rest: Bytes)
    requires v.Some? ==> ValidIdentifier(v.value)
    ensures Client.ReadOptionalString(s) == Ok((v, rest)) <==> TakeOptionalId(s) == Ok((v, rest))
  {
    hide TakeId, Client.ReadString, ValidIdentifier, TakeBool, Client.ReadFlag;
    SameFlag(s);
    if TakeBool(s).Ok? && TakeBool(s).value.0 && v.Some? {
      var s1 := TakeBool(s).value.1;
      SameString(s1, v.value, rest);
      if Client.ReadString(s1).Ok? {
        var (w, r) := Client.ReadString(s1).value;
        assert Client.ReadOptionalString(s) == Ok((Some(w), r));
      }
      if TakeId(s1).Ok? {
        var (w, r) := TakeId(s1).value;
        assert TakeOptionalId(s) == Ok((Some(w), r));
      }
    }
  }

  lemma SameEnvelope(frame: Bytes)
    ensures Client.GoodEnvelope(frame) <==> DecodeFrame(frame).Ok? && DecodeFrame(frame).value.0 == 0x81
    ensures DecodeFrame(frame).Ok? ==> |frame| >= 12 && DecodeFrame(frame).value.1 == frame[12..]
  {
    if |frame| >= 12 {
      assert frame[..4] == MAGIC <==> frame[0] == 0x4b && frame[1] == 0x56 && frame[2] == 0x50 && frame[3] == 0x4e;
    }
  }

  /** A decoded response as the client keeps it. */
  function ResponseView(r: ResponseEnvelope): Client.ClientResponse {
    var s := StatisticsView(r.statistics);
    Client.ClientResponse(PhaseByte(r.phase), r.profileId, r.killSwitchActive, r.code, s.received, s.sent, s.handshake)
  }

  lemma ServiceAcceptedIsClientAccepted(frame: Bytes)
    requires DecodeResponse(frame).Ok?
    ensures var r := DecodeResponse(frame).value;
      Client.ClientDecode(frame, r.requestId) == Ok(ResponseView(r))
  {
    hide Client.GoodEnvelope, DecodeFrame, TakeString, Client.ReadString, TakePhase, Client.ReadPhase, TakeOptionalId,
         Client.ReadOptionalString, TakeBool, Client.ReadFlag, TakeStatistics, Client.ReadStatistics, ValidIdentifier;
    var r := DecodeResponse(frame).value;
    SameEnvelope(frame);
    var body := frame[12..];
    var s1 := TakeId(body).value.1;
    SameString(body, r.requestId, s1);
    SamePhase(s1);
    var s2 := TakePhase(s1).value.1;
    var s3 := TakeOptionalId(s2).value.1;
    if r.profileId.Some? { OptionalIdValid(s2); }
    SameOptionalString(s2, r.profileId, s3);
    SameFlag(s3);
    var s4 := TakeBool(s3).value.1;
    var s5 := TakeId(s4).value.1;
    SameString(s4, r.code, s5);
    SameStatistics(s5);
  }

  lemma OptionalIdValid(s: Bytes)
    requires TakeOptionalId(s).Ok? && TakeOptionalId(s).value.0.Some?
    ensures ValidIdentifier(TakeOptionalId(s).value.0.value)
  {
  }

  lemma ClientAcceptedIsServiceAccepted(frame: Bytes, expected: string)
    requires ValidIdentifier(expected) && Client.ClientDecode(frame, expected).Ok?
    ensures DecodeResponse(frame).Ok? && DecodeResponse(frame).value.requestId == expected
  {
    hide Client.GoodEnvelope, DecodeFrame, TakeString, Client.ReadString, TakePhase, Client.ReadPhase, TakeOptionalId,
         Client.ReadOptionalString, TakeBool, Client.ReadFlag, TakeStatistics, Client.ReadStatistics, ValidIdentifier;
    SameEnvelope(frame);
    var body := frame[12..];
    var s1 := Client.ReadString(body).value.1;
    SameString(body, expected, s1);
    SamePhase(s1);
    var s2 := Client.ReadPhase(s1).value.1;
    var (profileId, s3) := Client.ReadOptionalString(s2).value;
    SameOptionalString(s2, profileId, s3);
    SameFlag(s3);
    var s4 := Client.ReadFlag(s3).value.1;
    var (code, s5) := Client.ReadString(s4).value;
    SameString(s4, code, s5);
    SameStatistics(s5);
  }

  /** Two independent decoders, one language. */
  lemma DecodersAgree(frame: Bytes, expected: string)
    requires ValidIdentifier(expected)
    ensures Client.ClientDecode(frame, expected).Ok? <==>
      DecodeResponse(frame).Ok? && DecodeResponse(frame).value.requestId == expected
    ensures Client.ClientDecode(frame, expected).Ok? ==>
      Client.ClientDecode(frame, expected).value == ResponseView(DecodeResponse(frame).value)
  {
    hide Client.ClientDecode, DecodeResponse;
    if Client.ClientDecode(frame, expected).Ok? { ClientAcceptedIsServiceAccepted(frame, expected); }
    if DecodeResponse(frame).Ok? { ServiceAcceptedIsClientAccepted(frame); }
  }
}
