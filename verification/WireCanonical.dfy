/** Re-encoding what was decoded gives the same bytes back, so no two accepted frames mean the same. */
module WireCanonical {
  import opened Basics
  import opened Contracts
  import opened IpText
  import opened Wire
  import opened WireRoundTrip
  import LE = LittleEndian
  import Utf8

  lemma ByteInverse(s: Bytes)
    requires TakeByte(s).Ok?
    ensures s == [TakeByte(s).value.0] + TakeByte(s).value.1
  {
  }

  lemma BytesInverse(s: Bytes, n: nat)
    requires TakeBytes(s, n).Ok?
    ensures s == TakeBytes(s, n).value.0 + TakeBytes(s, n).value.1
  {
  }

  lemma TextInverse(s: Bytes, n: nat)
    requires TakeText(s, n).Ok?
    ensures var (v, rest) := TakeText(s, n).value;
            |Utf8.Encode(v)| == n && s == Utf8.Encode(v) + rest
  {
    BytesInverse(s, n);
    Utf8.EncodeDecode(s[..n]);
  }

  lemma StringInverse(s: Bytes)
    requires TakeString(s).Ok?
    ensures var (v, rest) := TakeString(s).value;
            |Utf8.Encode(v)| < 256 && s == Counted(Utf8.Encode(v)) + rest
  {
    ByteInverse(s);
    var (n, s1) := TakeByte(s).value;
    TextInverse(s1, n);
    var (v, rest) := TakeString(s).value;
    Assoc([n], Utf8.Encode(v), rest);
  }

  lemma IdInverse(s: Bytes)
    requires TakeString(s).Ok? && ValidIdentifier(TakeString(s).value.0)
    ensures var (v, rest) := TakeString(s).value;
            PutString(v).Ok? && s == PutString(v).value + rest
  {
    StringInverse(s);
    IdentifierBytes(TakeString(s).value.0);
  }

  lemma BoundedInverse(s: Bytes, maximum: nat)
    requires TakeBounded(s).Ok? && |Utf8.Encode(TakeBounded(s).value.0)| <= maximum
    ensures var (v, rest) := TakeBounded(s).value;
            PutBounded(v, maximum).Ok? && s == PutBounded(v, maximum).value + rest
  {
    StringInverse(s);
  }

  lemma U16Inverse(s: Bytes)
    requires TakeU16(s).Ok?
    ensures s == LE.Put(TakeU16(s).value.0, 2) + TakeU16(s).value.1
  {
    BytesInverse(s, 2);
    LE.PutGet(s[..2]);
  }

  lemma U64Inverse(s: Bytes)
    requires TakeU64(s).Ok?
    ensures s == LE.Put(TakeU64(s).value.0, 8) + TakeU64(s).value.1
  {
    BytesInverse(s, 8);
    LE.PutGet(s[..8]);
  }

  lemma LongInverse(s: Bytes)
    requires TakeLong(s).Ok?
    ensures var (v, rest) := TakeLong(s).value;
            PutLong(v).Ok? && s == PutLong(v).value + rest
  {
    U16Inverse(s);
    var (n, s1) := TakeU16(s).value;
    TextInverse(s1, n);
    var (v, rest) := TakeLong(s).value;
    Utf8.EncodeLength(v);
    Assoc(LE.Put(n, 2), Utf8.Encode(v), rest);
  }

  lemma HostLength(v: string)
    requires ValidEndpointHost(v)
    ensures |Utf8.Encode(v)| <= 253
  {
    HostAscii(v);
    Utf8.EncodeAscii(v);
    if Parse(v).Some? { AddressLength(v); }
  }

  lemma VlessInverse(s: Bytes)
    requires TakeVless(s).Ok? && ValidVless(TakeVless(s).value.0)
    ensures var (p, rest) := TakeVless(s).value;
            PutVless(p).Ok? && s == PutVless(p).value + rest
  {
    hide TakeBounded, PutBounded, TakeU16, TakeString, TakeLong, PutLong, ValidEndpointHost, LE.Put;
    var (clientId, s1) := TakeBounded(s).value;
    var (host, s2) := TakeBounded(s1).value;
    var (port, s3) := TakeU16(s2).value;
    var (name, s4) := TakeBounded(s3).value;
    var (fingerprint, s5) := TakeBounded(s4).value;
    var (password, s6) := TakeBounded(s5).value;
    var (shortId, s7) := TakeString(s6).value;
    var (spiderX, rest) := TakeLong(s7).value;
    VlessTexts(TakeVless(s).value.0);
    BoundedInverse(s, 36);
    BoundedInverse(s1, 253);
    U16Inverse(s2);
    BoundedInverse(s3, 253);
    BoundedInverse(s4, 32);
    BoundedInverse(s5, 128);
    StringInverse(s6);
    LongInverse(s7);
    var e8 := PutLong(spiderX).value;
    var e7 := Counted(Utf8.Encode(shortId)) + e8;
    var e6 := PutBounded(password, 128).value + e7;
    var e5 := PutBounded(fingerprint, 32).value + e6;
    var e4 := PutBounded(name, 253).value + e5;
    var e3 := LE.Put(port, 2) + e4;
    var e2 := PutBounded(host, 253).value + e3;
    Assoc(Counted(Utf8.Encode(shortId)), e8, rest);
    Assoc(PutBounded(password, 128).value, e7, rest);
    Assoc(PutBounded(fingerprint, 32).value, e6, rest);
    Assoc(PutBounded(name, 253).value, e5, rest);
    Assoc(LE.Put(port, 2), e4, rest);
    Assoc(PutBounded(host, 253).value, e3, rest);
    Assoc(PutBounded(clientId, 36).value, e2, rest);
  }

  /** The byte lengths of a valid VLESS profile's texts. */
  lemma VlessTexts(p: VlessProfile)
    requires ValidVless(p)
    ensures |Utf8.Encode(p.clientId)| == 36 && |Utf8.Encode(p.endpointHost)| <= 253
    ensures |Utf8.Encode(p.serverName)| <= 253 && |Utf8.Encode(p.fingerprint)| == 6
    ensures |Utf8.Encode(p.realityPassword)| == 43
    ensures |Utf8.Encode(p.shortId)| <= 16 && '\0' !in p.shortId
  {
    HostLength(p.endpointHost);
    HostLength(p.serverName);
    Utf8.EncodeAscii(p.clientId);
    IdentifierAscii(p.fingerprint);
    Utf8.EncodeAscii(p.fingerprint);
    IdentifierAscii(p.realityPassword);
    Utf8.EncodeAscii(p.realityPassword);
    DigitsAscii(p.shortId);
    Utf8.EncodeAscii(p.shortId);
  }

  lemma FrameInverse(frame: Bytes)
    requires DecodeFrame(frame).Ok?
    ensures var (opcode, body) := DecodeFrame(frame).value;
            EncodeFrame(opcode, body) == Ok(frame)
  {
    var (opcode, body) := DecodeFrame(frame).value;
    LE.PutGet(frame[4..6]);
    LE.PutGet(frame[8..12]);
    assert frame[..12] == frame[..4] + frame[4..6] + [frame[6], frame[7]] + frame[8..12];
    assert frame == frame[..12] + frame[12..];
  }

  lemma TwoIdsInverse(s: Bytes)
    requires TakeTwoIds(s).Ok?
    ensures var ((a, b), rest) := TakeTwoIds(s).value;
            PutString(a).Ok? && PutString(b).Ok? && ValidIdentifier(a) && ValidIdentifier(b)
            && s == PutString(a).value + (PutString(b).value + rest)
  {
    IdInverse(s);
    IdInverse(TakeString(s).value.1);
  }

  lemma FlagInverse(s: Bytes)
    requires TakeBool(s).Ok?
    ensures s == [BoolByte(TakeBool(s).value.0)] + TakeBool(s).value.1
  {
    ByteInverse(s);
  }

  lemma ProtocolInverse(s: Bytes)
    requires TakeProtocol(s).Ok?
    ensures s == [ProtocolByte(TakeProtocol(s).value.0)] + TakeProtocol(s).value.1
  {
    ByteInverse(s);
  }

  lemma ConnectInverse(s: Bytes)
    requires TakeCommand(2, s).Ok?
    ensures var (c, rest) := TakeCommand(2, s).value;
            PutCommand(c).Ok? && s == PutCommand(c).value + rest && Opcode(c) == 2
  {
    hide TakeTwoIds, PutString, TakeProtocol, TakeBool;
    TwoIdsInverse(s);
    var ((a, b), s1) := TakeTwoIds(s).value;
    ProtocolInverse(s1);
    var (protocol, s2) := TakeProtocol(s1).value;
    FlagInverse(s2);
    var (killSwitch, rest) := TakeBool(s2).value;
    var flags := [ProtocolByte(protocol), BoolByte(killSwitch)];
    assert s1 == flags + rest;
    Assoc(PutString(b).value, flags, rest);
    Assoc(PutString(a).value, PutString(b).value + flags, rest);
  }

  predicate CanonicalKind(c: ControlCommand) { !c.ImportWireGuard? && !c.ImportAmneziaWg? }

  lemma ImportVlessInverse(s: Bytes)
    requires TakeCommand(9, s).Ok?
    ensures var (c, rest) := TakeCommand(9, s).value;
            PutCommand(c).Ok? && s == PutCommand(c).value + rest && Opcode(c) == 9
  {
    hide TakeVless, PutVless, PutString, TakeString, ValidVless;
    IdInverse(s);
    var (id, s1) := TakeId(s).value;
    VlessInverse(s1);
    var (p, rest) := TakeVless(s1).value;
    Assoc(PutString(id).value, PutVless(p).value, rest);
  }

  lemma CommandInverse(opcode: Byte, s: Bytes)
    requires TakeCommand(opcode, s).Ok? && CanonicalKind(TakeCommand(opcode, s).value.0)
    ensures var (c, rest) := TakeCommand(opcode, s).value;
            PutCommand(c).Ok? && s == PutCommand(c).value + rest && Opcode(c) == opcode
  {
    hide TakeVless, PutVless, PutString, TakeString, TakeTwoIds, TakeProfile, TakeAmneziaWg,
         ValidVless, ValidWireGuard, ValidAmneziaWg, PutProfileWith, PutAmneziaWgWith;
    var (c, rest) := TakeCommand(opcode, s).value;
    if opcode == 2 {
      ConnectInverse(s);
    } else if opcode == 3 {
      IdInverse(s);
    } else if opcode == 6 {
      TwoIdsInverse(s);
      Assoc(PutString(c.operationId).value, PutString(c.profileId).value, rest);
    } else if opcode == 9 {
      ImportVlessInverse(s);
    }
  }

  /** An accepted request, other than the two whose DNS texts are rewritten, re-encodes to itself. */
  lemma RequestCanonical(frame: Bytes)
    requires DecodeRequest(frame).Ok? && CanonicalKind(DecodeRequest(frame).value.command)
    ensures EncodeRequest(DecodeRequest(frame).value) == Ok(frame)
  {
    hide TakeCommand, PutCommand, TakeString, PutString, EncodeFrame, DecodeFrame;
    FrameInverse(frame);
    var (opcode, body) := DecodeFrame(frame).value;
    IdInverse(body);
    var (id, s1) := TakeId(body).value;
    CommandInverse(opcode, s1);
    var c := TakeCommand(opcode, s1).value.0;
    assert PutCommand(c).value + [] == PutCommand(c).value;
  }

  lemma PhaseInverse(s: Bytes)
    requires TakePhase(s).Ok?
    ensures s == [PhaseByte(TakePhase(s).value.0)] + TakePhase(s).value.1
  {
    ByteInverse(s);
  }

  lemma OptionalIdInverse(s: Bytes)
    requires TakeOptionalId(s).Ok?
    ensures var (v, rest) := TakeOptionalId(s).value;
            PutOptionalString(v).Ok? && s == PutOptionalString(v).value + rest
  {
    FlagInverse(s);
    var (present, s1) := TakeBool(s).value;
    if present {
      IdInverse(s1);
      var (v, rest) := TakeOptionalId(s).value;
      Assoc([1], PutString(v.value).value, rest);
    }
  }

  lemma OptionalI64Inverse(s: Bytes)
    requires TakeOptionalI64(s).Ok?
    ensures s == PutOptionalI64(TakeOptionalI64(s).value.0) + TakeOptionalI64(s).value.1
  {
    FlagInverse(s);
    var (present, s1) := TakeBool(s).value;
    if present {
      U64Inverse(s1);
      var (n, rest) := TakeU64(s1).value;
      assert LE.Unsigned(LE.Signed(n)) == n;
      Assoc([1], LE.Put(n, 8), rest);
    }
  }

  lemma StatisticsInverse(s: Bytes)
    requires TakeStatistics(s).Ok?
    ensures s == PutStatistics(TakeStatistics(s).value.0) + TakeStatistics(s).value.1
  {
    hide TakeU64, LE.Put, TakeOptionalI64, PutOptionalI64;
    FlagInverse(s);
    var (present, s1) := TakeBool(s).value;
    if present {
      U64Inverse(s1);
      var (received, s2) := TakeU64(s1).value;
      U64Inverse(s2);
      var (sent, s3) := TakeU64(s2).value;
      OptionalI64Inverse(s3);
      var (handshake, rest) := TakeOptionalI64(s3).value;
      var e3 := PutOptionalI64(handshake);
      Assoc(LE.Put(sent, 8), e3, rest);
      Assoc(LE.Put(received, 8), LE.Put(sent, 8) + e3, rest);
      Assoc([1], LE.Put(received, 8) + (LE.Put(sent, 8) + e3), rest);
    }
  }

  /** Every accepted response re-encodes to itself. */
  lemma ResponseCanonical(frame: Bytes)
    requires DecodeResponse(frame).Ok?
    ensures EncodeResponse(DecodeResponse(frame).value) == Ok(frame)
  {
    hide TakeString, PutString, TakePhase, TakeOptionalId, PutOptionalString, TakeBool, TakeStatistics,
         PutStatistics, EncodeFrame, DecodeFrame, ValidIdentifier;
    FrameInverse(frame);
    var (opcode, body) := DecodeFrame(frame).value;
    IdInverse(body);
    var (id, s1) := TakeId(body).value;
    PhaseInverse(s1);
    var (phase, s2) := TakePhase(s1).value;
    OptionalIdInverse(s2);
    var (profileId, s3) := TakeOptionalId(s2).value;
    FlagInverse(s3);
    var (killSwitch, s4) := TakeBool(s3).value;
    IdInverse(s4);
    var (code, s5) := TakeId(s4).value;
    StatisticsInverse(s5);
    var statistics := TakeStatistics(s5).value.0;
    assert PutStatistics(statistics) + [] == PutStatistics(statistics);
  }

  ////////// The two imports that carry DNS text //////////

  predicate FitsWire(vs: seq<string>) { forall i :: 0 <= i < |vs| ==> |Utf8.Encode(vs[i])| <= 253 }

  lemma {:induction false} BoundedAllInverse(s: Bytes, n: nat)
    requires TakeBoundedAll(s, n).Ok? && FitsWire(TakeBoundedAll(s, n).value.0)
    ensures var (vs, rest) := TakeBoundedAll(s, n).value;
            PutBoundedAll(vs).Ok? && s == PutBoundedAll(vs).value + rest
    decreases n
  {
    hide TakeBounded, PutBounded;
    if n > 0 {
      var (vs, rest) := TakeBoundedAll(s, n).value;
      var (v, s1) := TakeBounded(s).value;
      var vs1 := TakeBoundedAll(s1, n - 1).value.0;
      assert v == vs[0] && vs1 == vs[1..];
      BoundedInverse(s, 253);
      BoundedAllInverse(s1, n - 1);
      Assoc(PutBounded(v, 253).value, PutBoundedAll(vs1).value, rest);
    }
  }

  lemma {:induction false} BoundedAllFits(vs: seq<string>)
    requires PutBoundedAll(vs).Ok?
    ensures FitsWire(vs)
  {
    if vs != [] {
      BoundedAllFits(vs[1..]);
      forall i | 0 <= i < |vs| ensures |Utf8.Encode(vs[i])| <= 253 {
        if i > 0 { assert vs[i] == vs[1..][i - 1]; }
      }
    }
  }

  lemma ListInverse(s: Bytes, maximum: nat)
    requires TakeList(s, maximum).Ok? && FitsWire(TakeList(s, maximum).value.0)
    ensures var (vs, rest) := TakeList(s, maximum).value;
            PutList(vs).Ok? && s == PutList(vs).value + rest
  {
    ByteInverse(s);
    var (n, s1) := TakeByte(s).value;
    BoundedAllInverse(s1, n);
    var (vs, rest) := TakeList(s, maximum).value;
    Assoc([n], PutBoundedAll(vs).value, rest);
  }

  lemma {:induction false} LongAllInverse(s: Bytes, n: nat)
    requires TakeLongAll(s, n).Ok?
    ensures var (vs, rest) := TakeLongAll(s, n).value;
            |vs| == n && PutLongAll(vs).Ok? && s == PutLongAll(vs).value + rest
    decreases n
  {
    hide TakeLong, PutLong;
    if n > 0 {
      var (vs, rest) := TakeLongAll(s, n).value;
      var (v, s1) := TakeLong(s).value;
      var vs1 := TakeLongAll(s1, n - 1).value.0;
      assert v == vs[0] && vs1 == vs[1..];
      LongInverse(s);
      LongAllInverse(s1, n - 1);
      Assoc(PutLong(v).value, PutLongAll(vs1).value, rest);
    }
  }

  lemma {:induction false} NumbersInverse(s: Bytes, n: nat)
    requires TakeNumbers(s, n).Ok?
    ensures s == PutNumbers(TakeNumbers(s, n).value.0) + TakeNumbers(s, n).value.1
    decreases n
  {
    hide TakeU16, LE.Put;
    if n > 0 {
      var (vs, rest) := TakeNumbers(s, n).value;
      var (v, s1) := TakeU16(s).value;
      var vs1 := TakeNumbers(s1, n - 1).value.0;
      assert v == vs[0] && vs1 == vs[1..];
      U16Inverse(s);
      NumbersInverse(s1, n - 1);
      Assoc(LE.Put(v, 2), PutNumbers(vs1), rest);
    }
  }

  lemma OptionalKeyInverse(s: Bytes)
    requires TakeOptionalKey(s).Ok?
    ensures s == PutOptionalKey(TakeOptionalKey(s).value.0) + TakeOptionalKey(s).value.1
  {
    ByteInverse(s);
    var (flag, s1) := TakeByte(s).value;
    if flag == 1 {
      BytesInverse(s1, 32);
      var (k, rest) := TakeKey(s1).value;
      Assoc([1], k, rest);
    }
  }

  lemma OptionalU16Inverse(s: Bytes)
    requires TakeOptionalU16(s).Ok?
    ensures s == PutOptionalU16(TakeOptionalU16(s).value.0) + TakeOptionalU16(s).value.1
  {
    ByteInverse(s);
    var (flag, s1) := TakeByte(s).value;
    if flag == 1 {
      U16Inverse(s1);
      var (n, rest) := TakeU16(s1).value;
      Assoc([1], LE.Put(n, 2), rest);
    }
  }

  /** The DNS texts of a profile on the wire; the decoded profile keeps only their meaning. */
  function DnsTexts(s: Bytes): seq<string>
    requires TakeProfile(s).Ok?
  {
    TakeList(TakeList(TakeKey(s).value.1, 8).value.1, 8).value.0
  }

  /** The texts the encoder would have written: short enough, and addresses as they print. */
  predicate CanonicalTexts(p: WireGuardProfile, dns: seq<string>) {
    FitsWire(p.addresses) && FitsWire(p.allowedIps) && dns == PrintAll(p.dnsServers)
  }

  lemma {:induction false} PrintedFit(dns: seq<IpAddr>)
    ensures FitsWire(PrintAll(dns))
  {
    forall i | 0 <= i < |dns| ensures |Utf8.Encode(PrintAll(dns)[i])| <= 253 {
      PrintLength(dns[i]);
      Utf8.EncodeLength(PrintAll(dns)[i]);
    }
  }

  lemma ProfileInverse(s: Bytes)
    requires TakeProfile(s).Ok? && CanonicalTexts(TakeProfile(s).value.0, DnsTexts(s))
    requires ValidEndpointHost(TakeProfile(s).value.0.endpointHost)
    ensures var (p, rest) := TakeProfile(s).value;
            PutProfile(p).Ok? && s == PutProfile(p).value + rest
  {
    hide TakeList, PutList, TakeBounded, PutBounded, TakeOptionalKey, PutOptionalKey, TakeOptionalU16,
         PutOptionalU16, TakeU16, LE.Put, ParseAll, ValidEndpointHost, PrintAll;
    var (p, rest) := TakeProfile(s).value;
    var (privateKey, s1) := TakeKey(s).value;
    var (addresses, s2) := TakeList(s1, 8).value;
    var (dnsTexts, s3) := TakeList(s2, 8).value;
    var (peerKey, s4) := TakeKey(s3).value;
    var (preshared, s5) := TakeOptionalKey(s4).value;
    var (host, s6) := TakeBounded(s5).value;
    var (port, s7) := TakeU16(s6).value;
    var (allowed, s8) := TakeList(s7, 32).value;
    BytesInverse(s, 32);
    ListInverse(s1, 8);
    PrintedFit(p.dnsServers);
    ListInverse(s2, 8);
    BytesInverse(s3, 32);
    OptionalKeyInverse(s4);
    HostLength(host);
    BoundedInverse(s5, 253);
    U16Inverse(s6);
    ListInverse(s7, 32);
    OptionalU16Inverse(s8);
    var e9 := PutOptionalU16(p.persistentKeepalive);
    var e8 := PutList(allowed).value + e9;
    var e7 := LE.Put(port, 2) + e8;
    var e6 := PutBounded(host, 253).value + e7;
    var e5 := PutOptionalKey(preshared) + e6;
    var e4 := peerKey + e5;
    var e3 := PutList(dnsTexts).value + e4;
    var e2 := PutList(addresses).value + e3;
    Assoc(PutList(allowed).value, e9, rest);
    Assoc(LE.Put(port, 2), e8, rest);
    Assoc(PutBounded(host, 253).value, e7, rest);
    Assoc(PutOptionalKey(preshared), e6, rest);
    Assoc(peerKey, e5, rest);
    Assoc(PutList(dnsTexts).value, e4, rest);
    Assoc(PutList(addresses).value, e3, rest);
    Assoc(privateKey, e2, rest);
  }

  /** A profile as the encoder writes it carries printed DNS texts. */
  lemma WrittenTexts(p: WireGuardProfile, rest: Bytes)
    requires FitsLists(p) && PutProfile(p).Ok?
    ensures TakeProfile(PutProfile(p).value + rest) == Ok((p, rest))
    ensures CanonicalTexts(p, DnsTexts(PutProfile(p).value + rest))
  {
    hide TakeList, PutList, TakeBounded, PutBounded, PutOptionalKey, PutOptionalU16, LE.Put, PrintAll, Denote;
    PrintedDenote(p.dnsServers);
    TakePutProfile(p, PrintAll(p.dnsServers), rest);
    var addresses, servers := PutList(p.addresses).value, PutList(PrintAll(p.dnsServers)).value;
    var e4 := p.peerPublicKey + (PutOptionalKey(p.presharedKey) + (PutBounded(p.endpointHost, 253).value +
      (LE.Put(p.endpointPort, 2) + (PutList(p.allowedIps).value + PutOptionalU16(p.persistentKeepalive)))));
    Assoc(p.privateKey, addresses + (servers + e4), rest);
    TakeBytesPut(p.privateKey, addresses + (servers + e4) + rest);
    Assoc(addresses, servers + e4, rest);
    TakePutList(p.addresses, 8, (servers + e4) + rest);
    Assoc(servers, e4, rest);
    PrintedCount(p.dnsServers);
    TakePutList(PrintAll(p.dnsServers), 8, e4 + rest);
    ListFits(p.addresses);
    ListFits(p.allowedIps);
  }

  lemma PrintedCount(dns: seq<IpAddr>)
    ensures |PrintAll(dns)| == |dns|
  {
  }

  lemma ListFits(vs: seq<string>)
    requires PutList(vs).Ok?
    ensures FitsWire(vs)
  {
    BoundedAllFits(vs);
  }

  predicate CanonicalAmneziaWgTexts(p: AmneziaWgProfile, dns: seq<string>) {
    CanonicalTexts(p.wireguard, dns) && FitsWire(Headers(p))
  }

  lemma AmneziaWgInverse(s: Bytes)
    requires TakeAmneziaWg(s).Ok? && CanonicalAmneziaWgTexts(TakeAmneziaWg(s).value.0, DnsTexts(s))
    requires ValidEndpointHost(TakeAmneziaWg(s).value.0.wireguard.endpointHost)
    ensures var (p, rest) := TakeAmneziaWg(s).value;
            PutAmneziaWg(p).Ok? && s == PutAmneziaWg(p).value + rest
  {
    hide TakeProfile, PutProfileWith, TakeNumbers, PutNumbers, TakeBoundedAll, PutBoundedAll, TakeLongAll,
         PutLongAll, CanonicalTexts, ValidEndpointHost, FitsWire;
    var (p, rest) := TakeAmneziaWg(s).value;
    var (base, s1) := TakeProfile(s).value;
    var (n, s2) := TakeNumbers(s1, 7).value;
    var (h, s3) := TakeBoundedAll(s2, 4).value;
    var (count, s4) := TakeByte(s3).value;
    ProfileInverse(s);
    NumbersInverse(s1, 7);
    assert h == Headers(p) && n == Numbers(p);
    BoundedAllInverse(s2, 4);
    ByteInverse(s3);
    LongAllInverse(s4, count);
    var e5 := PutLongAll(p.specialJunk).value;
    var e4 := [count] + e5;
    var e3 := PutBoundedAll(h).value + e4;
    var e2 := PutNumbers(n) + e3;
    Assoc([count], e5, rest);
    Assoc(PutBoundedAll(h).value, e4, rest);
    Assoc(PutNumbers(n), e3, rest);
    Assoc(PutProfile(base).value, e2, rest);
  }

  lemma WrittenAmneziaWgTexts(p: AmneziaWgProfile)
    requires FitsLists(p.wireguard) && PutAmneziaWg(p).Ok?
    ensures TakeProfile(PutAmneziaWg(p).value).Ok?
    ensures CanonicalAmneziaWgTexts(p, DnsTexts(PutAmneziaWg(p).value))
  {
    hide PutProfileWith, TakeProfile, PutNumbers, PutBoundedAll, PutLongAll, CanonicalTexts;
    WrittenTexts(p.wireguard, PutNumbers(Numbers(p))
      + (PutBoundedAll(Headers(p)).value + ([|p.specialJunk|] + PutLongAll(p.specialJunk).value)));
    BoundedAllFits(Headers(p));
  }

  /** The bytes of the profile inside an import request. */
  function ProfileBytes(frame: Bytes): Bytes
    requires DecodeRequest(frame).Ok?
  {
    var afterId := TakeId(DecodeFrame(frame).value.1).value.1;
    if TakeId(afterId).Ok? then TakeId(afterId).value.1 else []
  }

  /** What an import frame must satisfy to be one the encoder writes; other frames always are. */
  predicate WrittenCanonically(frame: Bytes)
    requires DecodeRequest(frame).Ok?
  {
    match DecodeRequest(frame).value.command
    case ImportWireGuard(_, p) =>
      TakeProfile(ProfileBytes(frame)).Ok? && CanonicalTexts(p, DnsTexts(ProfileBytes(frame)))
    case ImportAmneziaWg(_, p) =>
      TakeProfile(ProfileBytes(frame)).Ok? && CanonicalAmneziaWgTexts(p, DnsTexts(ProfileBytes(frame)))
    case _ => true
  }

  /** Where the profile of a written import frame is found again. */
  lemma WrittenProfileBytes(frame: Bytes, profile: Bytes)
    requires DecodeRequest(frame).Ok? && EncodeRequest(DecodeRequest(frame).value) == Ok(frame)
    requires var c := DecodeRequest(frame).value.command;
             (c.ImportWireGuard? && PutProfile(c.wireguard) == Ok(profile))
             || (c.ImportAmneziaWg? && PutAmneziaWg(c.amneziawg) == Ok(profile))
    ensures ProfileBytes(frame) == profile
  {
    hide TakeCommand, PutString, TakeString, PutProfileWith, PutAmneziaWgWith, ValidWireGuard, ValidAmneziaWg,
         DecodeFrame, EncodeFrame;
    var r := DecodeRequest(frame).value;
    var id, operation := PutString(r.requestId).value, PutString(r.command.operationId).value;
    DecodeEncodedFrame(Opcode(r.command), id + (operation + profile));
    TakePutString(r.requestId, operation + profile);
    TakePutString(r.command.operationId, profile);
  }

  lemma ImportProfileBytes(frame: Bytes)
    requires DecodeRequest(frame).Ok?
    requires var c := DecodeRequest(frame).value.command; c.ImportWireGuard? || c.ImportAmneziaWg?
    ensures var c, s := DecodeRequest(frame).value.command, ProfileBytes(frame);
      if c.ImportWireGuard? then TakeProfile(s) == Ok((c.wireguard, [])) && ValidWireGuard(c.wireguard)
      else TakeAmneziaWg(s) == Ok((c.amneziawg, [])) && TakeProfile(s).Ok? && ValidAmneziaWg(c.amneziawg)
  {
    hide TakeProfile, ValidWireGuard, TakeNumbers, TakeBoundedAll, TakeLongAll, DecodeFrame;
    hide TakeVless, ValidVless, TakeString, TakeTwoIds;
    var (opcode, body) := DecodeFrame(frame).value;
    var s1 := TakeId(body).value.1;
    assert TakeCommand(opcode, s1).value == (DecodeRequest(frame).value.command, []);
    var s := ProfileBytes(frame);
    if opcode == 5 {
      var (p, rest) := TakeProfile(s).value;
      assert TakeCommand(5, s1).value == (ImportWireGuard(TakeId(s1).value.0, p), rest);
    } else {
      assert opcode == 8;
      var (p, rest) := TakeAmneziaWg(s).value;
      assert TakeCommand(8, s1).value == (ImportAmneziaWg(TakeId(s1).value.0, p), rest);
    }
  }

  /** Where an import frame keeps its two identifiers and its profile. */
  lemma ImportLayout(frame: Bytes)
    requires DecodeRequest(frame).Ok?
    requires var c := DecodeRequest(frame).value.command; c.ImportWireGuard? || c.ImportAmneziaWg?
    ensures var r := DecodeRequest(frame).value;
      PutString(r.requestId).Ok? && PutString(r.command.operationId).Ok?
      && ValidIdentifier(r.requestId) && ValidIdentifier(r.command.operationId) && r.contractVersion == CONTRACT_VERSION
      && EncodeFrame(Opcode(r.command),
           PutString(r.requestId).value + (PutString(r.command.operationId).value + ProfileBytes(frame))) == Ok(frame)
  {
    hide TakeString, PutString, EncodeFrame, DecodeFrame, TakeProfile, TakeAmneziaWg, TakeVless, TakeTwoIds,
         ValidWireGuard, ValidAmneziaWg, ValidVless, ValidIdentifier;
    FrameInverse(frame);
    var (opcode, body) := DecodeFrame(frame).value;
    IdInverse(body);
    IdInverse(TakeId(body).value.1);
  }

  lemma ImportCanonical(frame: Bytes)
    requires DecodeRequest(frame).Ok? && WrittenCanonically(frame)
    requires !CanonicalKind(DecodeRequest(frame).value.command)
    ensures EncodeRequest(DecodeRequest(frame).value) == Ok(frame)
  {
    hide PutString, EncodeFrame, DecodeRequest, TakeProfile, PutProfileWith, TakeAmneziaWg, PutAmneziaWgWith,
         CanonicalTexts, CanonicalAmneziaWgTexts, ProfileBytes, ValidIdentifier;
    ImportProfileBytes(frame);
    ImportLayout(frame);
    var c, s := DecodeRequest(frame).value.command, ProfileBytes(frame);
    if c.ImportWireGuard? {
      ProfileInverse(s);
      assert PutProfile(c.wireguard).value + [] == PutProfile(c.wireguard).value;
    } else {
      AmneziaWgInverse(s);
      assert PutAmneziaWg(c.amneziawg).value + [] == PutAmneziaWg(c.amneziawg).value;
    }
  }

  /** Exactly which accepted requests re-encode to themselves. */
  lemma RequestCanonicalExactly(frame: Bytes)
    requires DecodeRequest(frame).Ok?
    ensures EncodeRequest(DecodeRequest(frame).value) == Ok(frame) <==> WrittenCanonically(frame)
  {
    hide TakeProfile, PutProfileWith, TakeAmneziaWg, PutAmneziaWgWith, CanonicalTexts, TakeString, PutString,
         TakeCommand, DecodeFrame, EncodeFrame, ProfileBytes, DnsTexts;
    var c := DecodeRequest(frame).value.command;
    if CanonicalKind(c) {
      RequestCanonical(frame);
    } else {
      ImportProfileBytes(frame);
      if WrittenCanonically(frame) {
        ImportCanonical(frame);
      } else if EncodeRequest(DecodeRequest(frame).value) == Ok(frame) {
        if c.ImportWireGuard? {
          WrittenProfileBytes(frame, PutProfile(c.wireguard).value);
          assert PutProfile(c.wireguard).value + [] == PutProfile(c.wireguard).value;
          WrittenTexts(c.wireguard, []);
        } else {
          WrittenProfileBytes(frame, PutAmneziaWg(c.amneziawg).value);
          WrittenAmneziaWgTexts(c.amneziawg);
        }
      }
    }
  }
}
