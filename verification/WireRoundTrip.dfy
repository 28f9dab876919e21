/** Decoding undoes encoding: requests, responses and the three vault payloads. */
module WireRoundTrip {
  import opened Basics
  import opened Contracts
  import opened IpText
  import opened Wire
  import LE = LittleEndian
  import Utf8

  lemma Assoc(a: Bytes, b: Bytes, c: Bytes)
    ensures (a + b) + c == a + (b + c)
  {
  }

  lemma TakeBytesPut(a: Bytes, rest: Bytes)
    ensures TakeBytes(a + rest, |a|) == Ok((a, rest))
  {
    assert (a + rest)[..|a|] == a && (a + rest)[|a|..] == rest;
  }

  lemma TakeBytePut(b: Byte, rest: Bytes)
    ensures TakeByte([b] + rest) == Ok((b, rest))
  {
    assert ([b] + rest)[1..] == rest;
  }

  lemma TakeLastByte(b: Byte)
    ensures TakeByte([b]) == Ok((b, []))
  {
    assert [b][1..] == [];
  }

  lemma TakeCounted(v: string, rest: Bytes)
    requires |Utf8.Encode(v)| < 256
    ensures TakeString(Counted(Utf8.Encode(v)) + rest) == Ok((v, rest))
  {
    var bs := Utf8.Encode(v);
    Assoc([|bs|], bs, rest);
    TakeBytePut(|bs|, bs + rest);
    TakeBytesPut(bs, rest);
    Utf8.DecodeEncode(v);
  }

  lemma IdentifierBytes(v: string)
    requires ValidIdentifier(v)
    ensures |Utf8.Encode(v)| == |v| && PutString(v) == Ok(Counted(Utf8.Encode(v)))
  {
    IdentifierAscii(v);
    Utf8.EncodeAscii(v);
  }

  lemma TakePutString(v: string, rest: Bytes)
    requires PutString(v).Ok?
    ensures TakeString(PutString(v).value + rest) == Ok((v, rest))
    ensures TakeId(PutString(v).value + rest) == Ok((v, rest))
  {
    TakeCounted(v, rest);
  }

  lemma TakePutBounded(v: string, maximum: nat, rest: Bytes)
    requires PutBounded(v, maximum).Ok?
    ensures TakeBounded(PutBounded(v, maximum).value + rest) == Ok((v, rest))
  {
    TakeCounted(v, rest);
  }

  lemma TakePutU16(n: U16, rest: Bytes)
    ensures TakeU16(LE.Put(n, 2) + rest) == Ok((n, rest))
  {
    TakeBytesPut(LE.Put(n, 2), rest);
    LE.RoundTrip16(n);
  }

  lemma TakePutLong(v: string, rest: Bytes)
    requires PutLong(v).Ok?
    ensures TakeLong(PutLong(v).value + rest) == Ok((v, rest))
  {
    var bs := Utf8.Encode(v);
    Assoc(LE.Put(|bs|, 2), bs, rest);
    TakePutU16(|bs|, bs + rest);
    TakeBytesPut(bs, rest);
    Utf8.DecodeEncode(v);
    Utf8.EncodeLength(v);
  }

  lemma {:induction false} TakePutBoundedAll(vs: seq<string>, rest: Bytes)
    requires PutBoundedAll(vs).Ok?
    ensures TakeBoundedAll(PutBoundedAll(vs).value + rest, |vs|) == Ok((vs, rest))
  {
    if vs == [] {
      assert PutBoundedAll(vs).value + rest == rest;
    } else {
      var first, others := PutBounded(vs[0], 253).value, PutBoundedAll(vs[1..]).value;
      Assoc(first, others, rest);
      TakePutBounded(vs[0], 253, others + rest);
      TakePutBoundedAll(vs[1..], rest);
      assert [vs[0]] + vs[1..] == vs;
    }
  }

  lemma {:induction false} TakePutLongAll(vs: seq<string>, rest: Bytes)
    requires PutLongAll(vs).Ok?
    ensures TakeLongAll(PutLongAll(vs).value + rest, |vs|) == Ok((vs, rest))
  {
    if vs == [] {
      assert PutLongAll(vs).value + rest == rest;
    } else {
      var first, others := PutLong(vs[0]).value, PutLongAll(vs[1..]).value;
      Assoc(first, others, rest);
      TakePutLong(vs[0], others + rest);
      TakePutLongAll(vs[1..], rest);
      assert [vs[0]] + vs[1..] == vs;
    }
  }

  lemma {:induction false} TakePutNumbers(ns: seq<U16>, rest: Bytes)
    ensures TakeNumbers(PutNumbers(ns) + rest, |ns|) == Ok((ns, rest))
  {
    if ns == [] {
      assert PutNumbers(ns) + rest == rest;
    } else {
      Assoc(LE.Put(ns[0], 2), PutNumbers(ns[1..]), rest);
      TakePutU16(ns[0], PutNumbers(ns[1..]) + rest);
      TakePutNumbers(ns[1..], rest);
      assert [ns[0]] + ns[1..] == ns;
    }
  }

  lemma TakePutList(vs: seq<string>, maximum: nat, rest: Bytes)
    requires PutList(vs).Ok? && |vs| <= maximum
    ensures TakeList(PutList(vs).value + rest, maximum) == Ok((vs, rest))
  {
    var items := PutBoundedAll(vs).value;
    Assoc([|vs|], items, rest);
    TakeBytePut(|vs|, items + rest);
    TakePutBoundedAll(vs, rest);
  }

  lemma TakePutOptionalKey(k: Option<SecretKey>, rest: Bytes)
    ensures TakeOptionalKey(PutOptionalKey(k) + rest) == Ok((k, rest))
  {
    if k.Some? {
      Assoc([1], k.value, rest);
      TakeBytePut(1, k.value + rest);
      TakeBytesPut(k.value, rest);
    } else {
      TakeBytePut(0, rest);
    }
  }

  lemma TakePutOptionalU16(n: Option<U16>, rest: Bytes)
    ensures TakeOptionalU16(PutOptionalU16(n) + rest) == Ok((n, rest))
  {
    if n.Some? {
      Assoc([1], LE.Put(n.value, 2), rest);
      TakeBytePut(1, LE.Put(n.value, 2) + rest);
      TakePutU16(n.value, rest);
    } else {
      TakeBytePut(0, rest);
    }
  }

  ////////// Profiles //////////

  /** Each DNS text reads as the server at its position. */
  predicate Denote(texts: seq<string>, servers: seq<IpAddr>) {
    |texts| == |servers| && forall i :: 0 <= i < |texts| ==> Parse(texts[i]) == Some(servers[i])
  }

  lemma {:induction false} ParseAllDenoted(texts: seq<string>, servers: seq<IpAddr>)
    requires Denote(texts, servers)
    ensures ParseAll(texts) == Ok(servers)
  {
    if texts != [] {
      ParseAllDenoted(texts[1..], servers[1..]);
      assert [servers[0]] + servers[1..] == servers;
    }
  }

  lemma PrintedDenote(servers: seq<IpAddr>)
    ensures Denote(PrintAll(servers), servers)
  {
    forall i | 0 <= i < |servers| ensures Parse(PrintAll(servers)[i]) == Some(servers[i]) {
      PrintParse(servers[i]);
    }
  }

  /** The list limits of the decoder, which validation implies. */
  predicate FitsLists(p: WireGuardProfile) {
    |p.addresses| <= 8 && |p.dnsServers| <= 8 && |p.allowedIps| <= 32
  }

  lemma TakePutProfile(p: WireGuardProfile, dns: seq<string>, rest: Bytes)
    requires FitsLists(p) && Denote(dns, p.dnsServers)
    requires PutProfileWith(p, dns).Ok?
    ensures TakeProfile(PutProfileWith(p, dns).value + rest) == Ok((p, rest))
  {
    var addresses, servers := PutList(p.addresses).value, PutList(dns).value;
    var host, allowed := PutBounded(p.endpointHost, 253).value, PutList(p.allowedIps).value;
    var preshared, port, keepalive
      := PutOptionalKey(p.presharedKey), LE.Put(p.endpointPort, 2), PutOptionalU16(p.persistentKeepalive);
    var e8 := allowed + keepalive;
    var e7 := port + e8;
    var e6 := host + e7;
    var e5 := preshared + e6;
    var e4 := p.peerPublicKey + e5;
    var e3 := servers + e4;
    var e2 := addresses + e3;
    Assoc(p.privateKey, e2, rest);
    TakeBytesPut(p.privateKey, e2 + rest);
    Assoc(addresses, e3, rest);
    TakePutList(p.addresses, 8, e3 + rest);
    Assoc(servers, e4, rest);
    TakePutList(dns, 8, e4 + rest);
    ParseAllDenoted(dns, p.dnsServers);
    Assoc(p.peerPublicKey, e5, rest);
    TakeBytesPut(p.peerPublicKey, e5 + rest);
    Assoc(preshared, e6, rest);
    TakePutOptionalKey(p.presharedKey, e6 + rest);
    Assoc(host, e7, rest);
    TakePutBounded(p.endpointHost, 253, e7 + rest);
    Assoc(port, e8, rest);
    TakePutU16(p.endpointPort, e8 + rest);
    Assoc(allowed, keepalive, rest);
    TakePutList(p.allowedIps, 32, keepalive + rest);
    TakePutOptionalU16(p.persistentKeepalive, rest);
  }

  lemma TakePutAmneziaWg(p: AmneziaWgProfile, dns: seq<string>, rest: Bytes)
    requires FitsLists(p.wireguard) && Denote(dns, p.wireguard.dnsServers) && |p.specialJunk| <= 5
    requires PutAmneziaWgWith(p, dns).Ok?
    ensures TakeAmneziaWg(PutAmneziaWgWith(p, dns).value + rest) == Ok((p, rest))
  {
    hide PutProfileWith, TakeProfile, TakeNumbers, PutNumbers, TakeBoundedAll, PutBoundedAll, TakeLongAll, PutLongAll;
    var base, numbers := PutProfileWith(p.wireguard, dns).value, PutNumbers(Numbers(p));
    var headers, junk := PutBoundedAll(Headers(p)).value, PutLongAll(p.specialJunk).value;
    var e4 := [|p.specialJunk|] + junk;
    var e3 := headers + e4;
    var e2 := numbers + e3;
    Assoc(base, e2, rest);
    TakePutProfile(p.wireguard, dns, e2 + rest);
    Assoc(numbers, e3, rest);
    TakePutNumbers(Numbers(p), e3 + rest);
    Assoc(headers, e4, rest);
    TakePutBoundedAll(Headers(p), e4 + rest);
    Assoc([|p.specialJunk|], junk, rest);
    TakeBytePut(|p.specialJunk|, junk + rest);
    TakePutLongAll(p.specialJunk, rest);
  }

  lemma TakePutVless(p: VlessProfile, rest: Bytes)
    requires PutVless(p).Ok?
    ensures TakeVless(PutVless(p).value + rest) == Ok((p, rest))
  {
    var clientId, host, port := PutBounded(p.clientId, 36).value, PutBounded(p.endpointHost, 253).value,
      LE.Put(p.endpointPort, 2);
    var name, fingerprint := PutBounded(p.serverName, 253).value, PutBounded(p.fingerprint, 32).value;
    var password, shortId, spiderX
      := PutBounded(p.realityPassword, 128).value, PutOptionalBounded(p.shortId, 16).value, PutLong(p.spiderX).value;
    var e7 := shortId + spiderX;
    var e6 := password + e7;
    var e5 := fingerprint + e6;
    var e4 := name + e5;
    var e3 := port + e4;
    var e2 := host + e3;
    Assoc(clientId, e2, rest);
    TakePutBounded(p.clientId, 36, e2 + rest);
    Assoc(host, e3, rest);
    TakePutBounded(p.endpointHost, 253, e3 + rest);
    Assoc(port, e4, rest);
    TakePutU16(p.endpointPort, e4 + rest);
    Assoc(name, e5, rest);
    TakePutBounded(p.serverName, 253, e5 + rest);
    Assoc(fingerprint, e6, rest);
    TakePutBounded(p.fingerprint, 32, e6 + rest);
    Assoc(password, e7, rest);
    TakePutBounded(p.realityPassword, 128, e7 + rest);
    Assoc(shortId, spiderX, rest);
    TakeCounted(p.shortId, spiderX + rest);
    TakePutLong(p.spiderX, rest);
  }

  ////////// Frames //////////

  lemma HeaderFields(opcode: Byte, length: nat)
    requires length < 0x1_0000_0000
    ensures var h := Header(opcode, length);
            h[..4] == MAGIC && LE.GetU16(h[4..6]) == CONTRACT_VERSION && h[6] == opcode && h[7] == 0
            && LE.GetU32(h[8..12]) == length
  {
    var h := Header(opcode, length);
    assert h[4..6] == LE.Put(CONTRACT_VERSION, 2) && h[8..12] == LE.Put(length, 4);
    LE.RoundTrip16(CONTRACT_VERSION);
    LE.RoundTrip32(length);
  }

  lemma DecodeEncodedFrame(opcode: Byte, body: Bytes)
    requires EncodeFrame(opcode, body).Ok?
    ensures DecodeFrame(EncodeFrame(opcode, body).value) == Ok((opcode, body))
  {
    var frame, h := EncodeFrame(opcode, body).value, Header(opcode, |body|);
    HeaderFields(opcode, |body|);
    assert frame[..4] == h[..4] && frame[4..6] == h[4..6] && frame[8..12] == h[8..12];
    assert frame[12..] == body;
  }

  lemma TakeWholeProfile(p: WireGuardProfile)
    requires ValidWireGuard(p) && PutProfile(p).Ok?
    ensures TakeProfile(PutProfile(p).value) == Ok((p, []))
  {
    PrintedDenote(p.dnsServers);
    TakePutProfile(p, PrintAll(p.dnsServers), []);
    assert PutProfile(p).value + [] == PutProfile(p).value;
  }

  lemma TakeWholeAmneziaWg(p: AmneziaWgProfile)
    requires ValidAmneziaWg(p) && PutAmneziaWg(p).Ok?
    ensures TakeAmneziaWg(PutAmneziaWg(p).value) == Ok((p, []))
  {
    PrintedDenote(p.wireguard.dnsServers);
    TakePutAmneziaWg(p, PrintAll(p.wireguard.dnsServers), []);
    assert PutAmneziaWg(p).value + [] == PutAmneziaWg(p).value;
  }

  lemma TakeWholeVless(p: VlessProfile)
    requires PutVless(p).Ok?
    ensures TakeVless(PutVless(p).value) == Ok((p, []))
  {
    TakePutVless(p, []);
    assert PutVless(p).value + [] == PutVless(p).value;
  }

  lemma TakePutTwoIds(a: string, b: string, rest: Bytes)
    requires PutString(a).Ok? && PutString(b).Ok?
    ensures TakeTwoIds(PutString(a).value + (PutString(b).value + rest)) == Ok(((a, b), rest))
  {
    TakePutString(a, PutString(b).value + rest);
    TakePutString(b, rest);
  }

  lemma TakePutConnect(c: ControlCommand)
    requires c.Connect? && PutCommand(c).Ok?
    ensures TakeCommand(2, PutCommand(c).value) == Ok((c, []))
  {
    hide PutString, TakeTwoIds;
    var flags := [ProtocolByte(c.protocol), BoolByte(c.killSwitch)];
    TakePutTwoIds(c.operationId, c.profileId, flags);
    TakeBytePut(ProtocolByte(c.protocol), [BoolByte(c.killSwitch)]);
    TakeLastByte(BoolByte(c.killSwitch));
    assert TakeProtocol(flags) == Ok((c.protocol, [BoolByte(c.killSwitch)]));
    assert TakeBool([BoolByte(c.killSwitch)]) == Ok((c.killSwitch, []));
  }

  lemma TakePutImportWireGuard(c: ControlCommand)
    requires c.ImportWireGuard? && PutCommand(c).Ok?
    ensures TakeCommand(5, PutCommand(c).value) == Ok((c, []))
  {
    hide TakeProfile, PutProfileWith, ValidWireGuard;
    var profile := PutProfile(c.wireguard).value;
    TakePutString(c.operationId, profile);
    TakeWholeProfile(c.wireguard);
  }

  lemma TakePutImportAmneziaWg(c: ControlCommand)
    requires c.ImportAmneziaWg? && PutCommand(c).Ok?
    ensures TakeCommand(8, PutCommand(c).value) == Ok((c, []))
  {
    hide TakeAmneziaWg, PutAmneziaWgWith, ValidAmneziaWg;
    var profile := PutAmneziaWg(c.amneziawg).value;
    TakePutString(c.operationId, profile);
    TakeWholeAmneziaWg(c.amneziawg);
  }

  lemma TakePutImportVless(c: ControlCommand)
    requires c.ImportVless? && PutCommand(c).Ok?
    ensures TakeCommand(9, PutCommand(c).value) == Ok((c, []))
  {
    hide TakeVless, PutVless, ValidVless;
    var profile := PutVless(c.vless).value;
    TakePutString(c.operationId, profile);
    TakeWholeVless(c.vless);
  }

  lemma TakePutCommand(c: ControlCommand)
    requires PutCommand(c).Ok?
    ensures TakeCommand(Opcode(c), PutCommand(c).value) == Ok((c, []))
  {
    hide PutString, TakeString, TakeTwoIds, TakeProfile, PutProfileWith, TakeAmneziaWg, PutAmneziaWgWith, TakeVless,
         PutVless, ValidWireGuard, ValidAmneziaWg, ValidVless, TakeProtocol, TakeBool;
    match c
    case Status =>
    case Diagnostics =>
    case Statistics =>
    case Connect(_, _, _, _) => TakePutConnect(c);
    case Disconnect(operationId) =>
      assert PutString(operationId).value + [] == PutString(operationId).value;
      TakePutString(operationId, []);
    case DeleteProfile(operationId, profileId) =>
      assert PutString(profileId).value + [] == PutString(profileId).value;
      TakePutTwoIds(operationId, profileId, []);
    case ImportWireGuard(_, _) => TakePutImportWireGuard(c);
    case ImportAmneziaWg(_, _) => TakePutImportAmneziaWg(c);
    case ImportVless(_, _) => TakePutImportVless(c);
  }

  /** What the service decodes is what the client encoded, for all nine operations. */
  lemma RequestRoundTrip(r: RequestEnvelope)
    requires EncodeRequest(r).Ok?
    ensures DecodeRequest(EncodeRequest(r).value) == Ok(r)
  {
    var id, command := PutString(r.requestId).value, PutCommand(r.command).value;
    DecodeEncodedFrame(Opcode(r.command), id + command);
    TakePutString(r.requestId, command);
    TakePutCommand(r.command);
  }

  lemma UntagTagged(tag: Bytes, payload: Bytes)
    requires |tag| == 4 && Tagged(tag, payload).Ok?
    ensures Untag(tag, Tagged(tag, payload).value) == Ok(payload)
  {
    assert (tag + payload)[4..] == payload;
  }

  lemma WireGuardPayloadRoundTrip(p: WireGuardProfile)
    requires EncodeWireGuardProfile(p).Ok?
    ensures DecodeWireGuardProfile(EncodeWireGuardProfile(p).value) == Ok(p)
  {
    UntagTagged(WIREGUARD_TAG, PutProfile(p).value);
    TakeWholeProfile(p);
  }

  lemma AmneziaWgPayloadRoundTrip(p: AmneziaWgProfile)
    requires EncodeAmneziaWgProfile(p).Ok?
    ensures DecodeAmneziaWgProfile(EncodeAmneziaWgProfile(p).value) == Ok(p)
  {
    UntagTagged(AMNEZIAWG_TAG, PutAmneziaWg(p).value);
    TakeWholeAmneziaWg(p);
  }

  lemma VlessPayloadRoundTrip(p: VlessProfile)
    requires EncodeVlessProfile(p).Ok?
    ensures DecodeVlessProfile(EncodeVlessProfile(p).value) == Ok(p)
  {
    UntagTagged(VLESS_TAG, PutVless(p).value);
    TakeWholeVless(p);
  }

  ////////// Responses //////////

  lemma TakePutU64(n: U64, rest: Bytes)
    ensures TakeU64(LE.Put(n, 8) + rest) == Ok((n, rest))
  {
    TakeBytesPut(LE.Put(n, 8), rest);
    LE.RoundTrip64(n);
  }

  lemma TakePutPhase(phase: ConnectionPhase, rest: Bytes)
    ensures TakePhase([PhaseByte(phase)] + rest) == Ok((phase, rest))
  {
    TakeBytePut(PhaseByte(phase), rest);
  }

  lemma TakePutOptionalString(v: Option<string>, rest: Bytes)
    requires PutOptionalString(v).Ok?
    ensures TakeOptionalId(PutOptionalString(v).value + rest) == Ok((v, rest))
  {
    if v.Some? {
      var bs := PutString(v.value).value;
      Assoc([1], bs, rest);
      TakeBytePut(1, bs + rest);
      TakePutString(v.value, rest);
    } else {
      TakeBytePut(0, rest);
    }
  }

  lemma TakePutOptionalI64(n: Option<I64>)
    ensures TakeOptionalI64(PutOptionalI64(n)) == Ok((n, []))
  {
    if n.Some? {
      var bits := LE.Put(LE.Unsigned(n.value), 8);
      TakeBytePut(1, bits);
      assert bits + [] == bits;
      TakePutU64(LE.Unsigned(n.value), []);
    } else {
      TakeLastByte(0);
    }
  }

  lemma TakePutStatistics(s: Option<TunnelStatistics>)
    ensures TakeStatistics(PutStatistics(s)) == Ok((s, []))
  {
    hide TakeU64, LE.Put, TakeOptionalI64, PutOptionalI64;
    if s.Some? {
      var t := s.value;
      var sent := LE.Put(t.bytesSent, 8) + PutOptionalI64(t.lastHandshakeUnixMs);
      TakeBytePut(1, LE.Put(t.bytesReceived, 8) + sent);
      TakePutU64(t.bytesReceived, sent);
      TakePutU64(t.bytesSent, PutOptionalI64(t.lastHandshakeUnixMs));
      TakePutOptionalI64(t.lastHandshakeUnixMs);
    } else {
      TakeLastByte(0);
    }
  }

  lemma ResponseRoundTrip(r: ResponseEnvelope)
    requires EncodeResponse(r).Ok?
    ensures DecodeResponse(EncodeResponse(r).value) == Ok(r)
  {
    hide PutString, TakeString, PutStatistics, TakeStatistics, EncodeFrame, DecodeFrame;
    var id, profile, code := PutString(r.requestId).value, PutOptionalString(r.profileId).value,
      PutString(r.code).value;
    var e5 := code + PutStatistics(r.statistics);
    var e4 := [BoolByte(r.killSwitchActive)] + e5;
    var e3 := profile + e4;
    var e2 := [PhaseByte(r.phase)] + e3;
    DecodeEncodedFrame(0x81, id + e2);
    TakePutString(r.requestId, e2);
    TakePutPhase(r.phase, e3);
    TakePutOptionalString(r.profileId, e4);
    TakeBytePut(BoolByte(r.killSwitchActive), e5);
    TakePutString(r.code, PutStatistics(r.statistics));
    TakePutStatistics(r.statistics);
  }

  /** The service can encode exactly the responses that are built from identifiers. */
  lemma ResponseEncodable(r: ResponseEnvelope)
    ensures EncodeResponse(r).Ok? <==>
      r.contractVersion == CONTRACT_VERSION && ValidIdentifier(r.requestId) && ValidIdentifier(r.code)
      && (r.profileId.Some? ==> ValidIdentifier(r.profileId.value))
  {
    if ValidIdentifier(r.requestId) && ValidIdentifier(r.code) {
      IdentifierBytes(r.requestId);
      IdentifierBytes(r.code);
      if r.profileId.Some? && ValidIdentifier(r.profileId.value) { IdentifierBytes(r.profileId.value); }
    }
  }
}
