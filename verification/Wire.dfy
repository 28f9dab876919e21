/**
  The binary format. `Put*` gives the bytes a value is written as; `Take*` reads a value from the front
  of some bytes and returns it with what is left. The classes of `WireCodec` do the same on a growing
  buffer and a moving cursor.
 */
module Wire {
  import opened Basics
  import opened Contracts
  import opened IpText
  import LE = LittleEndian
  import Utf8

  type Put = Result<Bytes, FrameError>
  type Parsed<T> = Result<(T, Bytes), FrameError>

  const MAGIC: Bytes := [0x4b, 0x56, 0x50, 0x4e]

  ////////// Writing //////////

  function Counted(bs: Bytes): Bytes
    requires |bs| < 256
  {
    [|bs|] + bs
  }

  function PutString(v: string): Put {
    var bs := Utf8.Encode(v);
    if !ValidIdentifier(v) || |bs| > 255 then Err(InvalidIdentifier) else Ok(Counted(bs))
  }

  function PutBounded(v: string, maximum: nat): Put {
    var bs := Utf8.Encode(v);
    if v == "" || |bs| > maximum || '\0' in v || |bs| > 255 then Err(InvalidProfile) else Ok(Counted(bs))
  }

  function PutOptionalBounded(v: string, maximum: nat): Put {
    var bs := Utf8.Encode(v);
    if |bs| > maximum || '\0' in v || |bs| > 255 then Err(InvalidProfile) else Ok(Counted(bs))
  }

  function PutLong(v: string): Put {
    var bs := Utf8.Encode(v);
    if !ValidLongString(v) then Err(InvalidProfile) else Ok(LE.Put(|bs|, 2) + bs)
  }

  function PutBoundedAll(vs: seq<string>): Put {
    if vs == [] then Ok([])
    else
      var first :- PutBounded(vs[0], 253);
      var others :- PutBoundedAll(vs[1..]);
      Ok(first + others)
  }

  function PutLongAll(vs: seq<string>): Put {
    if vs == [] then Ok([])
    else
      var first :- PutLong(vs[0]);
      var others :- PutLongAll(vs[1..]);
      Ok(first + others)
  }

  function PutList(vs: seq<string>): Put {
    if |vs| > 255 then Err(InvalidProfile)
    else
      var items :- PutBoundedAll(vs);
      Ok([|vs|] + items)
  }

  function PutOptionalKey(k: Option<SecretKey>): Bytes { if k.Some? then [1] + k.value else [0] }

  function PutOptionalU16(n: Option<U16>): Bytes { if n.Some? then [1] + LE.Put(n.value, 2) else [0] }

  /** A profile whose DNS servers are written as the given texts. */
  function PutProfileWith(p: WireGuardProfile, dns: seq<string>): Put {
    var addresses :- PutList(p.addresses);
    var servers :- PutList(dns);
    var host :- PutBounded(p.endpointHost, 253);
    var allowed :- PutList(p.allowedIps);
    Ok(p.privateKey + (addresses + (servers + (p.peerPublicKey + (PutOptionalKey(p.presharedKey)
       + (host + (LE.Put(p.endpointPort, 2) + (allowed + PutOptionalU16(p.persistentKeepalive)))))))))
  }

  function PrintAll(dns: seq<IpAddr>): (texts: seq<string>)
    ensures |texts| == |dns|
  {
    seq(|dns|, i requires 0 <= i < |dns| => Print(dns[i]))
  }

  function PutProfile(p: WireGuardProfile): Put { PutProfileWith(p, PrintAll(p.dnsServers)) }

  function PutNumbers(ns: seq<U16>): Bytes { if ns == [] then [] else LE.Put(ns[0], 2) + PutNumbers(ns[1..]) }

  function Numbers(p: AmneziaWgProfile): seq<U16> { [p.jc, p.jmin, p.jmax, p.s1, p.s2, p.s3, p.s4] }

  function Headers(p: AmneziaWgProfile): seq<string> { [p.h1, p.h2, p.h3, p.h4] }

  function PutAmneziaWgWith(p: AmneziaWgProfile, dns: seq<string>): Put {
    var base :- PutProfileWith(p.wireguard, dns);
    var headers :- PutBoundedAll(Headers(p));
    if |p.specialJunk| > 255 then Err(InvalidProfile)
    else
      var junk :- PutLongAll(p.specialJunk);
      Ok(base + (PutNumbers(Numbers(p)) + (headers + ([|p.specialJunk|] + junk))))
  }

  function PutAmneziaWg(p: AmneziaWgProfile): Put { PutAmneziaWgWith(p, PrintAll(p.wireguard.dnsServers)) }

  function PutVless(p: VlessProfile): Put {
    var clientId :- PutBounded(p.clientId, 36);
    var host :- PutBounded(p.endpointHost, 253);
    var name :- PutBounded(p.serverName, 253);
    var fingerprint :- PutBounded(p.fingerprint, 32);
    var password :- PutBounded(p.realityPassword, 128);
    var shortId :- PutOptionalBounded(p.shortId, 16);
    var spiderX :- PutLong(p.spiderX);
    Ok(clientId + (host + (LE.Put(p.endpointPort, 2) + (name + (fingerprint + (password + (shortId + spiderX)))))))
  }

  function ProtocolByte(p: Protocol): Byte {
    match p case WireGuard => 1 case AmneziaWg => 2 case VlessReality => 3
  }

  function BoolByte(b: bool): Byte { if b then 1 else 0 }

  function PhaseByte(p: ConnectionPhase): Byte {
    match p
    case Disconnected => 0 case Validating => 1 case Connecting => 2 case Connected => 3
    case Reconnecting => 4 case Disconnecting => 5 case BlockedBySubscription => 6
    case NoNetwork => 7 case ServerUnavailable => 8 case Error => 9
  }

  function Opcode(c: ControlCommand): Byte {
    match c
    case Status => 1 case Connect(_, _, _, _) => 2 case Disconnect(_) => 3 case Diagnostics => 4
    case ImportWireGuard(_, _) => 5 case DeleteProfile(_, _) => 6 case Statistics => 7
    case ImportAmneziaWg(_, _) => 8 case ImportVless(_, _) => 9
  }

  function RequireId(v: string): Result<(), FrameError> {
    if ValidIdentifier(v) then Ok(()) else Err(InvalidIdentifier)
  }

  /** The body of a command after the request id. */
  function PutCommand(c: ControlCommand): Put {
    match c
    case Status => Ok([])
    case Diagnostics => Ok([])
    case Statistics => Ok([])
    case Connect(operationId, profileId, protocol, killSwitch) =>
      var operation :- PutString(operationId);
      var profile :- PutString(profileId);
      Ok(operation + (profile + [ProtocolByte(protocol), BoolByte(killSwitch)]))
    case Disconnect(operationId) => PutString(operationId)
    case DeleteProfile(operationId, profileId) =>
      var operation :- PutString(operationId);
      var profile :- PutString(profileId);
      Ok(operation + profile)
    case ImportWireGuard(operationId, p) =>
      var _ :- RequireId(operationId);
      var _ :- Check(ValidWireGuard(p));
      var operation :- PutString(operationId);
      var profile :- PutProfile(p);
      Ok(operation + profile)
    case ImportAmneziaWg(operationId, p) =>
      var _ :- RequireId(operationId);
      var _ :- Check(ValidAmneziaWg(p));
      var operation :- PutString(operationId);
      var profile :- PutAmneziaWg(p);
      Ok(operation + profile)
    case ImportVless(operationId, p) =>
      var _ :- RequireId(operationId);
      var _ :- Check(ValidVless(p));
      var operation :- PutString(operationId);
      var profile :- PutVless(p);
      Ok(operation + profile)
  }

  function Header(opcode: Byte, length: nat): (bs: Bytes)
    ensures |bs| == 12
  {
    MAGIC + LE.Put(CONTRACT_VERSION, 2) + [opcode, 0] + LE.Put(length, 4)
  }

  function EncodeFrame(opcode: Byte, body: Bytes): Put {
    if |body| + 12 > MAX_FRAME_SIZE then Err(TooLarge) else Ok(Header(opcode, |body|) + body)
  }

  function EncodeRequest(r: RequestEnvelope): Put {
    var _ :- RequireId(r.requestId);
    if r.contractVersion != CONTRACT_VERSION then Err(UnsupportedVersion)
    else
      var id :- PutString(r.requestId);
      var command :- PutCommand(r.command);
      EncodeFrame(Opcode(r.command), id + command)
  }

  const WIREGUARD_TAG: Bytes := [0x4b, 0x57, 0x50, 0x31]
  const AMNEZIAWG_TAG: Bytes := [0x4b, 0x41, 0x50, 0x31]
  const VLESS_TAG: Bytes := [0x4b, 0x58, 0x50, 0x31]

  function Tagged(tag: Bytes, payload: Bytes): Put {
    if |tag + payload| > MAX_FRAME_SIZE then Err(TooLarge) else Ok(tag + payload)
  }

  function EncodeWireGuardProfile(p: WireGuardProfile): Put {
    var _ :- Check(ValidWireGuard(p));
    var payload :- PutProfile(p);
    Tagged(WIREGUARD_TAG, payload)
  }

  function EncodeAmneziaWgProfile(p: AmneziaWgProfile): Put {
    var _ :- Check(ValidAmneziaWg(p));
    var payload :- PutAmneziaWg(p);
    Tagged(AMNEZIAWG_TAG, payload)
  }

  function EncodeVlessProfile(p: VlessProfile): Put {
    var _ :- Check(ValidVless(p));
    var payload :- PutVless(p);
    Tagged(VLESS_TAG, payload)
  }

  function PutOptionalI64(n: Option<I64>): Bytes {
    if n.Some? then [1] + LE.Put(LE.Unsigned(n.value), 8) else [0]
  }

  function PutStatistics(s: Option<TunnelStatistics>): Bytes {
    match s
    case None => [0]
    case Some(t) =>
      [1] + (LE.Put(t.bytesReceived, 8) + (LE.Put(t.bytesSent, 8) + PutOptionalI64(t.lastHandshakeUnixMs)))
  }

  function PutOptionalString(v: Option<string>): Put {
    match v
    case None => Ok([0])
    case Some(s) => var bs :- PutString(s); Ok([1] + bs)
  }

  function EncodeResponse(r: ResponseEnvelope): Put {
    if r.contractVersion != CONTRACT_VERSION then Err(UnsupportedVersion)
    else
      var _ :- RequireId(r.requestId);
      var _ :- RequireId(r.code);
      var id :- PutString(r.requestId);
      var profile :- PutOptionalString(r.profileId);
      var code :- PutString(r.code);
      EncodeFrame(0x81, id + ([PhaseByte(r.phase)] + (profile + ([BoolByte(r.killSwitchActive)] +
        (code + PutStatistics(r.statistics))))))
  }

  ////////// Reading //////////

  function TakeByte(s: Bytes): Parsed<Byte> { if s == [] then Err(InvalidLength) else Ok((s[0], s[1..])) }

  function TakeBytes(s: Bytes, n: nat): (r: Parsed<Bytes>)
    ensures r.Ok? ==> |r.value.0| == n
  {
    if |s| < n then Err(InvalidLength) else Ok((s[..n], s[n..]))
  }

  function TakeText(s: Bytes, n: nat): Parsed<string> {
    var (bs, rest) :- TakeBytes(s, n);
    match Utf8.Decode(bs)
    case None => Err(InvalidUtf8)
    case Some(v) => Ok((v, rest))
  }

  function TakeString(s: Bytes): Parsed<string> {
    var (n, rest) :- TakeByte(s);
    TakeText(rest, n)
  }

  function TakeU16(s: Bytes): Parsed<U16> {
    var (bs, rest) :- TakeBytes(s, 2);
    Ok((LE.GetU16(bs), rest))
  }

  function TakeU64(s: Bytes): Parsed<U64> {
    var (bs, rest) :- TakeBytes(s, 8);
    Ok((LE.GetU64(bs), rest))
  }

  function TakeI64(s: Bytes): Parsed<I64> {
    var (n, rest) :- TakeU64(s);
    Ok((LE.Signed(n), rest))
  }

  function TakeLong(s: Bytes): Parsed<string> {
    var (n, s1) :- TakeU16(s);
    if n == 0 || n > 4096 then Err(InvalidProfile)
    else
      var (v, rest) :- TakeText(s1, n);
      if exists i :: 0 <= i < |v| && IsControl(v[i]) then Err(InvalidProfile) else Ok((v, rest))
  }

  function TakeBounded(s: Bytes): Parsed<string> {
    var (v, rest) :- TakeString(s);
    if v == "" || '\0' in v then Err(InvalidProfile) else Ok((v, rest))
  }

  function TakeBoundedAll(s: Bytes, n: nat): (r: Parsed<seq<string>>)
    ensures r.Ok? ==> |r.value.0| == n
  {
    if n == 0 then Ok(([], s))
    else
      var (v, s1) :- TakeBounded(s);
      var (vs, rest) :- TakeBoundedAll(s1, n - 1);
      Ok(([v] + vs, rest))
  }

  function TakeLongAll(s: Bytes, n: nat): Parsed<seq<string>> {
    if n == 0 then Ok(([], s))
    else
      var (v, s1) :- TakeLong(s);
      var (vs, rest) :- TakeLongAll(s1, n - 1);
      Ok(([v] + vs, rest))
  }

  function TakeList(s: Bytes, maximum: nat): Parsed<seq<string>> {
    var (n, s1) :- TakeByte(s);
    if n > maximum then Err(InvalidProfile) else TakeBoundedAll(s1, n)
  }

  function ParseAll(texts: seq<string>): Result<seq<IpAddr>, FrameError> {
    if texts == [] then Ok([])
    else if Parse(texts[0]).None? then Err(InvalidProfile)
    else
      var others :- ParseAll(texts[1..]);
      Ok([Parse(texts[0]).value] + others)
  }

  function TakeKey(s: Bytes): Parsed<SecretKey> {
    var (k, rest) :- TakeBytes(s, 32);
    Ok((k, rest))
  }

  function TakeOptionalKey(s: Bytes): Parsed<Option<SecretKey>> {
    var (flag, s1) :- TakeByte(s);
    if flag == 0 then Ok((None, s1))
    else if flag == 1 then
      var (k, rest) :- TakeKey(s1);
      Ok((Some(k), rest))
    else Err(InvalidBoolean)
  }

  function TakeOptionalU16(s: Bytes): Parsed<Option<U16>> {
    var (flag, s1) :- TakeByte(s);
    if flag == 0 then Ok((None, s1))
    else if flag == 1 then
      var (n, rest) :- TakeU16(s1);
      Ok((Some(n), rest))
    else Err(InvalidBoolean)
  }

  function TakeProfile(s: Bytes): Parsed<WireGuardProfile> {
    var (privateKey, s1) :- TakeKey(s);
    var (addresses, s2) :- TakeList(s1, 8);
    var (dnsTexts, s3) :- TakeList(s2, 8);
    var dns :- ParseAll(dnsTexts);
    var (peerKey, s4) :- TakeKey(s3);
    var (preshared, s5) :- TakeOptionalKey(s4);
    var (host, s6) :- TakeBounded(s5);
    var (port, s7) :- TakeU16(s6);
    var (allowed, s8) :- TakeList(s7, 32);
    var (keepalive, rest) :- TakeOptionalU16(s8);
    Ok((WireGuardProfile(privateKey, addresses, dns, peerKey, preshared, host, port, allowed, keepalive), rest))
  }

  function TakeNumbers(s: Bytes, n: nat): (r: Parsed<seq<U16>>)
    ensures r.Ok? ==> |r.value.0| == n
  {
    if n == 0 then Ok(([], s))
    else
      var (v, s1) :- TakeU16(s);
      var (vs, rest) :- TakeNumbers(s1, n - 1);
      Ok(([v] + vs, rest))
  }

  function TakeAmneziaWg(s: Bytes): Parsed<AmneziaWgProfile> {
    var (base, s1) :- TakeProfile(s);
    var (n, s2) :- TakeNumbers(s1, 7);
    var (h, s3) :- TakeBoundedAll(s2, 4);
    var (count, s4) :- TakeByte(s3);
    if count > 5 then Err(InvalidProfile)
    else
      var (junk, rest) :- TakeLongAll(s4, count);
      Ok((AmneziaWgProfile(base, n[0], n[1], n[2], n[3], n[4], n[5], n[6], h[0], h[1], h[2], h[3], junk), rest))
  }

  function TakeVless(s: Bytes): Parsed<VlessProfile> {
    var (clientId, s1) :- TakeBounded(s);
    var (host, s2) :- TakeBounded(s1);
    var (port, s3) :- TakeU16(s2);
    var (name, s4) :- TakeBounded(s3);
    var (fingerprint, s5) :- TakeBounded(s4);
    var (password, s6) :- TakeBounded(s5);
    var (shortId, s7) :- TakeString(s6);
    var (spiderX, rest) :- TakeLong(s7);
    Ok((VlessProfile(clientId, host, port, name, fingerprint, password, shortId, spiderX), rest))
  }

  function TakeId(s: Bytes): Parsed<string> {
    var (v, rest) :- TakeString(s);
    var _ :- RequireId(v);
    Ok((v, rest))
  }

  /** Two strings are read before either is checked. */
  function TakeTwoIds(s: Bytes): Parsed<(string, string)> {
    var (a, s1) :- TakeString(s);
    var (b, rest) :- TakeString(s1);
    var _ :- RequireId(a);
    var _ :- RequireId(b);
    Ok(((a, b), rest))
  }

  function TakeProtocol(s: Bytes): Parsed<Protocol> {
    var (b, rest) :- TakeByte(s);
    if b == 1 then Ok((WireGuard, rest))
    else if b == 2 then Ok((AmneziaWg, rest))
    else if b == 3 then Ok((VlessReality, rest))
    else Err(InvalidProtocol)
  }

  function TakeBool(s: Bytes): Parsed<bool> {
    var (b, rest) :- TakeByte(s);
    if b == 0 then Ok((false, rest)) else if b == 1 then Ok((true, rest)) else Err(InvalidBoolean)
  }

  function TakeCommand(opcode: Byte, s: Bytes): Parsed<ControlCommand> {
    match opcode
    case 1 => Ok((Status, s))
    case 2 =>
      var ((operationId, profileId), s1) :- TakeTwoIds(s);
      var (protocol, s2) :- TakeProtocol(s1);
      var (killSwitch, rest) :- TakeBool(s2);
      Ok((Connect(operationId, profileId, protocol, killSwitch), rest))
    case 3 =>
      var (operationId, rest) :- TakeId(s);
      Ok((Disconnect(operationId), rest))
    case 4 => Ok((Diagnostics, s))
    case 5 =>
      var (operationId, s1) :- TakeId(s);
      var (p, rest) :- TakeProfile(s1);
      var _ :- Check(ValidWireGuard(p));
      Ok((ImportWireGuard(operationId, p), rest))
    case 6 =>
      var ((operationId, profileId), rest) :- TakeTwoIds(s);
      Ok((DeleteProfile(operationId, profileId), rest))
    case 7 => Ok((Statistics, s))
    case 8 =>
      var (operationId, s1) :- TakeId(s);
      var (p, rest) :- TakeAmneziaWg(s1);
      var _ :- Check(ValidAmneziaWg(p));
      Ok((ImportAmneziaWg(operationId, p), rest))
    case 9 =>
      var (operationId, s1) :- TakeId(s);
      var (p, rest) :- TakeVless(s1);
      var _ :- Check(ValidVless(p));
      Ok((ImportVless(operationId, p), rest))
    case _ => Err(UnknownOperation)
  }

  /** The opcode and the body of a complete frame. */
  function DecodeFrame(frame: Bytes): Parsed<Byte> {
    if |frame| > MAX_FRAME_SIZE then Err(TooLarge)
    else if |frame| < 12 then Err(TooShort)
    else if frame[..4] != MAGIC then Err(InvalidMagic)
    else if LE.GetU16(frame[4..6]) != CONTRACT_VERSION then Err(UnsupportedVersion)
    else if frame[7] != 0 then Err(UnknownOperation)
    else if LE.GetU32(frame[8..12]) != |frame| - 12 then Err(InvalidLength)
    else Ok((frame[6], frame[12..]))
  }

  function Finish<T>(parsed: (T, Bytes)): Result<T, FrameError> {
    if parsed.1 == [] then Ok(parsed.0) else Err(TrailingData)
  }

  function DecodeRequest(frame: Bytes): Result<RequestEnvelope, FrameError> {
    var (opcode, body) :- DecodeFrame(frame);
    var (id, s1) :- TakeId(body);
    var parsed :- TakeCommand(opcode, s1);
    var command :- Finish(parsed);
    Ok(RequestEnvelope(CONTRACT_VERSION, id, command))
  }

  function DeclaredFrameSize(header: Bytes): (r: Result<nat, FrameError>)
    ensures r.Ok? ==> 12 <= r.value <= MAX_FRAME_SIZE
  {
    if |header| != 12 then Err(TooShort)
    else if header[..4] != MAGIC then Err(InvalidMagic)
    else if LE.GetU16(header[4..6]) != CONTRACT_VERSION then Err(UnsupportedVersion)
    else if header[7] != 0 then Err(UnknownOperation)
    else
      var total := LE.GetU32(header[8..12]) + 12;
      if total > MAX_FRAME_SIZE then Err(TooLarge) else Ok(total)
  }

  function Untag(tag: Bytes, bytes: Bytes): Result<Bytes, FrameError>
    requires |tag| == 4
  {
    if |bytes| > MAX_FRAME_SIZE then Err(TooLarge)
    else if !(tag <= bytes) then Err(InvalidMagic)
    else Ok(bytes[4..])
  }

  function DecodeWireGuardProfile(bytes: Bytes): Result<WireGuardProfile, FrameError> {
    var payload :- Untag(WIREGUARD_TAG, bytes);
    var parsed :- TakeProfile(payload);
    var p :- Finish(parsed);
    var _ :- Check(ValidWireGuard(p));
    Ok(p)
  }

  function DecodeAmneziaWgProfile(bytes: Bytes): Result<AmneziaWgProfile, FrameError> {
    var payload :- Untag(AMNEZIAWG_TAG, bytes);
    var parsed :- TakeAmneziaWg(payload);
    var p :- Finish(parsed);
    var _ :- Check(ValidAmneziaWg(p));
    Ok(p)
  }

  function DecodeVlessProfile(bytes: Bytes): Result<VlessProfile, FrameError> {
    var payload :- Untag(VLESS_TAG, bytes);
    var parsed :- TakeVless(payload);
    var p :- Finish(parsed);
    var _ :- Check(ValidVless(p));
    Ok(p)
  }

  function TakePhase(s: Bytes): Parsed<ConnectionPhase> {
    var (b, rest) :- TakeByte(s);
    match b
    case 0 => Ok((Disconnected, rest)) case 1 => Ok((Validating, rest)) case 2 => Ok((Connecting, rest))
    case 3 => Ok((Connected, rest)) case 4 => Ok((Reconnecting, rest)) case 5 => Ok((Disconnecting, rest))
    case 6 => Ok((BlockedBySubscription, rest)) case 7 => Ok((NoNetwork, rest))
    case 8 => Ok((ServerUnavailable, rest)) case 9 => Ok((Error, rest))
    case _ => Err(UnknownOperation)
  }

  function TakeOptionalId(s: Bytes): Parsed<Option<string>> {
    var (present, s1) :- TakeBool(s);
    if !present then Ok((None, s1))
    else
      var (v, rest) :- TakeId(s1);
      Ok((Some(v), rest))
  }

  function TakeOptionalI64(s: Bytes): Parsed<Option<I64>> {
    var (present, s1) :- TakeBool(s);
    if !present then Ok((None, s1))
    else
      var (n, rest) :- TakeI64(s1);
      Ok((Some(n), rest))
  }

  function TakeStatistics(s: Bytes): Parsed<Option<TunnelStatistics>> {
    var (present, s1) :- TakeBool(s);
    if !present then Ok((None, s1))
    else
      var (received, s2) :- TakeU64(s1);
      var (sent, s3) :- TakeU64(s2);
      var (handshake, rest) :- TakeOptionalI64(s3);
      Ok((Some(TunnelStatistics(received, sent, handshake)), rest))
  }

  function DecodeResponse(frame: Bytes): Result<ResponseEnvelope, FrameError> {
    var (opcode, body) :- DecodeFrame(frame);
    if opcode != 0x81 then Err(UnknownOperation)
    else
      var (id, s1) :- TakeId(body);
      var (phase, s2) :- TakePhase(s1);
      var (profileId, s3) :- TakeOptionalId(s2);
      var (killSwitch, s4) :- TakeBool(s3);
      var (code, s5) :- TakeId(s4);
      var parsed :- TakeStatistics(s5);
      var statistics :- Finish(parsed);
      Ok(ResponseEnvelope(CONTRACT_VERSION, id, phase, profileId, killSwitch, code, statistics))
  }
}
