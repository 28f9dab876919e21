/** The format as plain rows of bytes, with every number that the two sides must agree on. */
module WireLayout {
  import opened Basics
  import opened Contracts
  import opened Wire
  import LE = LittleEndian
  import Utf8

  ////////// Numbers and texts //////////

  function Two(n: nat): Bytes { [n % 256, n / 256 % 256] }

  function Four(n: nat): Bytes { [n % 256, n / 256 % 256, n / 65536 % 256, n / 16777216 % 256] }

  function Eight(n: nat): Bytes { Four(n) + Four(n / 0x1_0000_0000) }

  lemma TwoBytes(n: nat)
    ensures LE.Put(n, 2) == Two(n)
  {
    assert LE.Put(n, 2) == [n % 256] + LE.Put(n / 256, 1);
  }

  lemma FourBytes(n: nat)
    ensures LE.Put(n, 4) == Four(n)
  {
    TwoBytes(n / 65536);
    assert n / 256 / 256 == n / 65536 && n / 65536 / 256 == n / 16777216;
    assert LE.Put(n, 4) == [n % 256] + ([n / 256 % 256] + LE.Put(n / 256 / 256, 2));
  }

  lemma OneMoreByte(n: nat, k: nat)
    ensures LE.Put(n, k + 1) == [n % 256] + LE.Put(n / 256, k)
  {
  }

  lemma EightBytes(n: nat)
    ensures LE.Put(n, 8) == Eight(n)
  {
    hide LE.Put;
    var rest := LE.Put(n / 0x1_0000_0000, 4);
    OneMoreByte(n, 7);
    OneMoreByte(n / 256, 6);
    OneMoreByte(n / 65536, 5);
    OneMoreByte(n / 16777216, 4);
    assert n / 256 / 256 == n / 65536 && n / 65536 / 256 == n / 16777216 && n / 16777216 / 256 == n / 0x1_0000_0000;
    FourBytes(n / 0x1_0000_0000);
  }

  /** A text behind its length in one byte. */
  function Short(v: string): seq<int> { [|Utf8.Encode(v)|] + Utf8.Encode(v) }

  function ShortAll(vs: seq<string>): seq<int> { if vs == [] then [] else Short(vs[0]) + ShortAll(vs[1..]) }

  /** A text behind its length in two bytes. */
  function Long(v: string): seq<int> { Two(|Utf8.Encode(v)|) + Utf8.Encode(v) }

  function LongAll(vs: seq<string>): seq<int> { if vs == [] then [] else Long(vs[0]) + LongAll(vs[1..]) }

  function OptionalKey(k: Option<SecretKey>): seq<int> { match k case None => [0] case Some(key) => [1] + key }

  function OptionalTwo(n: Option<U16>): seq<int> { match n case None => [0] case Some(v) => [1] + Two(v) }

  ////////// Profiles //////////

  function WireGuardLayout(p: WireGuardProfile): seq<int> {
    p.privateKey
    + ([|p.addresses|] + ShortAll(p.addresses)
    + ([|p.dnsServers|] + ShortAll(PrintAll(p.dnsServers))
    + (p.peerPublicKey
    + (OptionalKey(p.presharedKey)
    + (Short(p.endpointHost)
    + (Two(p.endpointPort)
    + ([|p.allowedIps|] + ShortAll(p.allowedIps)
    + OptionalTwo(p.persistentKeepalive))))))))
  }

  function AmneziaWgLayout(p: AmneziaWgProfile): seq<int> {
    WireGuardLayout(p.wireguard)
    + (Two(p.jc) + (Two(p.jmin) + (Two(p.jmax) + (Two(p.s1) + (Two(p.s2) + (Two(p.s3) + (Two(p.s4)
    + (Short(p.h1) + (Short(p.h2) + (Short(p.h3) + (Short(p.h4)
    + ([|p.specialJunk|] + LongAll(p.specialJunk)))))))))))))
  }

  function VlessLayout(p: VlessProfile): seq<int> {
    Short(p.clientId) + (Short(p.endpointHost) + (Two(p.endpointPort) + (Short(p.serverName) + (Short(p.fingerprint)
    + (Short(p.realityPassword) + (Short(p.shortId) + Long(p.spiderX)))))))
  }

  lemma {:induction false} ShortAllPut(vs: seq<string>)
    requires PutBoundedAll(vs).Ok?
    ensures PutBoundedAll(vs).value == ShortAll(vs)
  {
    if vs != [] { ShortAllPut(vs[1..]); }
  }

  lemma {:induction false} LongAllPut(vs: seq<string>)
    requires PutLongAll(vs).Ok?
    ensures PutLongAll(vs).value == LongAll(vs)
  {
    hide LE.Put;
    if vs != [] {
      TwoBytes(|Utf8.Encode(vs[0])|);
      LongAllPut(vs[1..]);
    }
  }

  lemma OptionsPut(p: WireGuardProfile)
    ensures PutOptionalKey(p.presharedKey) == OptionalKey(p.presharedKey)
    ensures PutOptionalU16(p.persistentKeepalive) == OptionalTwo(p.persistentKeepalive)
  {
    hide LE.Put;
    if p.persistentKeepalive.Some? { TwoBytes(p.persistentKeepalive.value); }
  }

  lemma WireGuardPut(p: WireGuardProfile)
    requires PutProfile(p).Ok?
    ensures PutProfile(p).value == WireGuardLayout(p)
  {
    hide LE.Put, PutBoundedAll, ShortAll, Two, PutOptionalKey, PutOptionalU16, OptionalKey, OptionalTwo, PrintAll;
    ShortAllPut(p.addresses);
    ShortAllPut(PrintAll(p.dnsServers));
    ShortAllPut(p.allowedIps);
    OptionsPut(p);
    TwoBytes(p.endpointPort);
  }

  lemma NumbersPut(a: U16, b: U16, c: U16, d: U16, e: U16, f: U16, g: U16, rest: Bytes)
    ensures PutNumbers([a, b, c, d, e, f, g]) + rest
      == Two(a) + (Two(b) + (Two(c) + (Two(d) + (Two(e) + (Two(f) + (Two(g) + rest))))))
  {
    hide LE.Put, Two;
    TwoBytes(a);
    TwoBytes(b);
    TwoBytes(c);
    TwoBytes(d);
    TwoBytes(e);
    TwoBytes(f);
    TwoBytes(g);
    MoreNumbers(g, []);
    MoreNumbers(f, [g]);
    MoreNumbers(e, [f, g]);
    MoreNumbers(d, [e, f, g]);
    MoreNumbers(c, [d, e, f, g]);
    MoreNumbers(b, [c, d, e, f, g]);
    MoreNumbers(a, [b, c, d, e, f, g]);
    assert [g] + [] == [g] && PutNumbers([]) == [];
  }

  lemma MoreNumbers(n: U16, ns: seq<U16>)
    ensures PutNumbers([n] + ns) == LE.Put(n, 2) + PutNumbers(ns)
  {
    hide LE.Put;
    assert ([n] + ns)[1..] == ns;
  }

  lemma MoreShort(v: string, vs: seq<string>, rest: seq<int>)
    ensures ShortAll([v] + vs) + rest == Short(v) + (ShortAll(vs) + rest)
  {
    hide Short;
    assert ([v] + vs)[1..] == vs;
  }

  lemma FourShort(a: string, b: string, c: string, d: string, rest: seq<int>)
    ensures ShortAll([a, b, c, d]) + rest == Short(a) + (Short(b) + (Short(c) + (Short(d) + rest)))
  {
    hide Short, ShortAll;
    MoreShort(d, [], rest);
    MoreShort(c, [d], rest);
    MoreShort(b, [c, d], rest);
    MoreShort(a, [b, c, d], rest);
    assert ShortAll([]) + rest == rest by { NoShort(); }
    assert [d] + [] == [d] && [c] + [d] == [c, d] && [b] + [c, d] == [b, c, d] && [a] + [b, c, d] == [a, b, c, d];
  }

  lemma NoShort()
    ensures ShortAll([]) == []
  {
  }

  lemma AmneziaWgPut(p: AmneziaWgProfile)
    requires PutAmneziaWg(p).Ok?
    ensures PutAmneziaWg(p).value == AmneziaWgLayout(p)
  {
    hide LE.Put, PutBoundedAll, ShortAll, Two, Short, PutProfileWith, WireGuardLayout, PutNumbers, PutLongAll, LongAll;
    WireGuardPut(p.wireguard);
    ShortAllPut(Headers(p));
    LongAllPut(p.specialJunk);
    var junk: Bytes := [|p.specialJunk|] + PutLongAll(p.specialJunk).value;
    var headers := PutBoundedAll(Headers(p)).value;
    NumbersPut(p.jc, p.jmin, p.jmax, p.s1, p.s2, p.s3, p.s4, headers + junk);
    FourShort(p.h1, p.h2, p.h3, p.h4, junk);
  }

  lemma VlessPut(p: VlessProfile)
    requires PutVless(p).Ok?
    ensures PutVless(p).value == VlessLayout(p)
  {
    hide LE.Put, Two;
    TwoBytes(p.endpointPort);
    TwoBytes(|Utf8.Encode(p.spiderX)|);
  }

  ////////// Requests //////////

  function ProtocolNumber(p: Protocol): int { match p case WireGuard => 1 case AmneziaWg => 2 case VlessReality => 3 }

  /** The operation's number, and what follows the request id. */
  function CommandLayout(c: ControlCommand): (int, seq<int>) {
    match c
    case Status => (1, [])
    case Connect(operationId, profileId, protocol, killSwitch) =>
      (2, Short(operationId) + (Short(profileId) + [ProtocolNumber(protocol), if killSwitch then 1 else 0]))
    case Disconnect(operationId) => (3, Short(operationId))
    case Diagnostics => (4, [])
    case ImportWireGuard(operationId, p) => (5, Short(operationId) + WireGuardLayout(p))
    case DeleteProfile(operationId, profileId) => (6, Short(operationId) + Short(profileId))
    case Statistics => (7, [])
    case ImportAmneziaWg(operationId, p) => (8, Short(operationId) + AmneziaWgLayout(p))
    case ImportVless(operationId, p) => (9, Short(operationId) + VlessLayout(p))
  }

  /** The letters KVPN, version 4, the operation, a zero, the length of what follows, and that. */
  function Envelope(operation: int, body: seq<int>): seq<int> {
    [0x4b, 0x56, 0x50, 0x4e, 4, 0, operation, 0] + Four(|body|) + body
  }

  lemma FrameLayout(operation: Byte, body: Bytes)
    requires EncodeFrame(operation, body).Ok?
    ensures EncodeFrame(operation, body).value == Envelope(operation, body)
  {
    hide LE.Put;
    FourBytes(|body|);
    TwoBytes(4);
  }

  lemma CommandPut(c: ControlCommand)
    requires PutCommand(c).Ok?
    ensures CommandLayout(c) == (Opcode(c), PutCommand(c).value)
  {
    hide LE.Put, PutProfile, PutAmneziaWg, PutVless, WireGuardLayout, AmneziaWgLayout, VlessLayout, ValidIdentifier,
         ValidWireGuard, ValidAmneziaWg, ValidVless, Utf8.Encode;
    match c
    case ImportWireGuard(_, p) => WireGuardPut(p);
    case ImportAmneziaWg(_, p) => AmneziaWgPut(p);
    case ImportVless(_, p) => VlessPut(p);
    case _ =>
  }

  /** Every request frame, byte by byte. */
  lemma RequestLayout(r: RequestEnvelope)
    requires EncodeRequest(r).Ok?
    ensures var (operation, body) := CommandLayout(r.command);
      EncodeRequest(r).value == Envelope(operation, Short(r.requestId) + body)
  {
    hide PutCommand, CommandLayout, EncodeFrame, Envelope, ValidIdentifier, Utf8.Encode, Opcode;
    CommandPut(r.command);
    FrameLayout(Opcode(r.command), PutString(r.requestId).value + PutCommand(r.command).value);
  }

  ////////// Responses //////////

  function PhaseNumber(p: ConnectionPhase): int {
    match p
    case Disconnected => 0
    case Validating => 1
    case Connecting => 2
    case Connected => 3
    case Reconnecting => 4
    case Disconnecting => 5
    case BlockedBySubscription => 6
    case NoNetwork => 7
    case ServerUnavailable => 8
    case Error => 9
  }

  /** A negative time in two's complement. */
  function Time(n: I64): seq<int> { Eight(if n < 0 then n + 0x1_0000_0000_0000_0000 else n) }

  function StatisticsLayout(s: Option<TunnelStatistics>): seq<int> {
    match s
    case None => [0]
    case Some(t) =>
      [1] + (Eight(t.bytesReceived) + (Eight(t.bytesSent)
      + match t.lastHandshakeUnixMs case None => [0] case Some(n) => [1] + Time(n)))
  }

  lemma StatisticsPut(s: Option<TunnelStatistics>)
    ensures PutStatistics(s) == StatisticsLayout(s)
  {
    hide LE.Put, Eight;
    if s.Some? {
      EightBytes(s.value.bytesReceived);
      EightBytes(s.value.bytesSent);
      if s.value.lastHandshakeUnixMs.Some? { EightBytes(LE.Unsigned(s.value.lastHandshakeUnixMs.value)); }
    }
  }

  /** Every response frame, byte by byte. */
  lemma ResponseLayout(r: ResponseEnvelope)
    requires EncodeResponse(r).Ok?
    ensures EncodeResponse(r).value == Envelope(0x81, Short(r.requestId) + ([PhaseNumber(r.phase)]
      + ((match r.profileId case None => [0] case Some(v) => [1] + Short(v))
      + ([if r.killSwitchActive then 1 else 0] + (Short(r.code) + StatisticsLayout(r.statistics))))))
  {
    hide EncodeFrame, Envelope, ValidIdentifier, Utf8.Encode, PutStatistics, StatisticsLayout;
    StatisticsPut(r.statistics);
    var id, code := PutString(r.requestId).value, PutString(r.code).value;
    var profile := PutOptionalString(r.profileId).value;
    FrameLayout(0x81, id + ([PhaseByte(r.phase)] + (profile + ([BoolByte(r.killSwitchActive)]
      + (code + PutStatistics(r.statistics))))));
  }

  ////////// Vault payloads //////////

  /** Every vault payload: four letters, and the profile as it is sent. */
  lemma PayloadLayout(w: WireGuardProfile, a: AmneziaWgProfile, v: VlessProfile)
    ensures EncodeWireGuardProfile(w).Ok? ==>
      EncodeWireGuardProfile(w).value == [0x4b, 0x57, 0x50, 0x31] + WireGuardLayout(w)
    ensures EncodeAmneziaWgProfile(a).Ok? ==>
      EncodeAmneziaWgProfile(a).value == [0x4b, 0x41, 0x50, 0x31] + AmneziaWgLayout(a)
    ensures EncodeVlessProfile(v).Ok? ==> EncodeVlessProfile(v).value == [0x4b, 0x58, 0x50, 0x31] + VlessLayout(v)
  {
    hide PutProfile, PutAmneziaWg, PutVless, WireGuardLayout, AmneziaWgLayout, VlessLayout, ValidWireGuard,
         ValidAmneziaWg, ValidVless;
    if PutProfile(w).Ok? { WireGuardPut(w); }
    if PutAmneziaWg(a).Ok? { AmneziaWgPut(a); }
    if PutVless(v).Ok? { VlessPut(v); }
  }
}
