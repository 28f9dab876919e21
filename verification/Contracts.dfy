/** The request, response and profile types of the service contract, and what makes them valid. */
module Contracts {
  import opened Basics
  import opened Text
  import opened IpText
  import Utf8

  const CONTRACT_VERSION := 4
  const MAX_FRAME_SIZE := 32768

  datatype Protocol = WireGuard | AmneziaWg | VlessReality

  datatype ConnectionPhase =
    | Disconnected | Validating | Connecting | Connected | Reconnecting | Disconnecting
    | BlockedBySubscription | NoNetwork | ServerUnavailable | Error
  {
    predicate IsFailure() { BlockedBySubscription? || NoNetwork? || ServerUnavailable? || Error? }
  }

  type SecretKey = k: Bytes | |k| == 32 witness seq(32, _ => 0)

  datatype WireGuardProfile = WireGuardProfile(
    privateKey: SecretKey, addresses: seq<string>, dnsServers: seq<IpAddr>, peerPublicKey: SecretKey,
    presharedKey: Option<SecretKey>, endpointHost: string, endpointPort: U16, allowedIps: seq<string>,
    persistentKeepalive: Option<U16>)

  /**
    The seven small numbers are, in the order of the wire and of the text, junk packet count, minimum
    and maximum size, then the four values the text calls S1 to S4. The four texts are H1 to H4.
   */
  datatype AmneziaWgProfile = AmneziaWgProfile(
    wireguard: WireGuardProfile, jc: U16, jmin: U16, jmax: U16, s1: U16, s2: U16, s3: U16, s4: U16,
    h1: string, h2: string, h3: string, h4: string, specialJunk: seq<string>)

  datatype VlessProfile = VlessProfile(
    clientId: string, endpointHost: string, endpointPort: U16, serverName: string, fingerprint: string,
    realityPassword: string, shortId: string, spiderX: string)

  datatype ControlCommand =
    | Status
    | Connect(operationId: string, profileId: string, protocol: Protocol, killSwitch: bool)
    | Disconnect(operationId: string)
    | Diagnostics
    | ImportWireGuard(operationId: string, wireguard: WireGuardProfile)
    | ImportAmneziaWg(operationId: string, amneziawg: AmneziaWgProfile)
    | ImportVless(operationId: string, vless: VlessProfile)
    | DeleteProfile(operationId: string, profileId: string)
    | Statistics

  datatype RequestEnvelope = RequestEnvelope(contractVersion: U32, requestId: string, command: ControlCommand)

  datatype TunnelStatistics = TunnelStatistics(
    bytesReceived: U64, bytesSent: U64, lastHandshakeUnixMs: Option<I64>)

  datatype ResponseEnvelope = ResponseEnvelope(
    contractVersion: U32, requestId: string, phase: ConnectionPhase, profileId: Option<string>,
    killSwitchActive: bool, code: string, statistics: Option<TunnelStatistics>)

  datatype FrameError =
    | TooLarge | TooShort | InvalidMagic | UnsupportedVersion | UnknownOperation | InvalidLength
    | InvalidUtf8 | InvalidIdentifier | InvalidProtocol | InvalidBoolean | TrailingData | InvalidProfile

  ////////// Validation //////////

  predicate IsAlphanumeric(c: char) { '0' <= c <= '9' || 'a' <= c <= 'z' || 'A' <= c <= 'Z' }

  predicate IsIdChar(c: char) { IsAlphanumeric(c) || c == '-' || c == '_' }

  predicate AllIdChars(s: string) { forall i :: 0 <= i < |s| ==> IsIdChar(s[i]) }

  /** Identifier characters are one byte each, so counting characters counts bytes. */
  predicate ValidIdentifier(s: string) { s != "" && |s| <= 64 && AllIdChars(s) }

  predicate ZeroKey(k: SecretKey) { forall i :: 0 <= i < 32 ==> k[i] == 0 }

  /** Rust's integer parsing: an optional plus sign, then at least one digit. */
  function ParseUnsigned(s: string, bound: nat): Option<nat> {
    var digits := if s != "" && s[0] == '+' then s[1..] else s;
    if digits != "" && AllDigits(digits) && DecValue(digits) < bound then Some(DecValue(digits)) else None
  }

  predicate ValidNetwork(s: string) {
    var cut := IndexOf(s, '/');
    cut < |s| &&
    var address, prefix := Parse(s[..cut]), ParseUnsigned(s[cut + 1..], 256);
    address.Some? && prefix.Some? && prefix.value <= if address.value.V4? then 32 else 128
  }

  predicate ValidNetworks(values: seq<string>, minimum: nat, maximum: nat) {
    minimum <= |values| <= maximum && forall i :: 0 <= i < |values| ==> ValidNetwork(values[i])
  }

  predicate ValidLabel(part: string) {
    1 <= |part| <= 63 && part[0] != '-' && part[|part| - 1] != '-'
    && forall i :: 0 <= i < |part| ==> IsAlphanumeric(part[i]) || part[i] == '-'
  }

  predicate ValidHostname(s: string) {
    s != "" && |s| <= 253 && s[0] != '.' && s[|s| - 1] != '.'
    && var labels := Split(s, '.'); forall i :: 0 <= i < |labels| ==> ValidLabel(labels[i])
  }

  predicate ValidEndpointHost(s: string) { Parse(s).Some? || ValidHostname(s) }

  predicate ValidNumericRange(s: string) {
    var parts := Split(s, '-');
    |parts| <= 2
    && (forall i :: 0 <= i < |parts| ==> parts[i] != "" && AllDigits(parts[i]) && DecValue(parts[i]) < 0x1_0000_0000)
    && (|parts| == 2 ==> DecValue(parts[0]) <= DecValue(parts[1]))
  }

  /** The C0 and C1 control characters and DEL. */
  predicate IsControl(c: char) { c as int < 32 || 127 <= c as int < 160 }

  predicate ValidLongString(s: string) {
    s != "" && |Utf8.Encode(s)| <= 4096 && forall i :: 0 <= i < |s| ==> !IsControl(s[i])
  }

  predicate ValidWireGuard(p: WireGuardProfile) {
    !ZeroKey(p.privateKey) && !ZeroKey(p.peerPublicKey)
    && (p.presharedKey.Some? ==> !ZeroKey(p.presharedKey.value))
    && ValidNetworks(p.addresses, 1, 8)
    && |p.dnsServers| <= 8
    && ValidEndpointHost(p.endpointHost)
    && p.endpointPort != 0
    && ValidNetworks(p.allowedIps, 1, 32)
    && p.persistentKeepalive != Some(0)
  }

  predicate ValidAmneziaWg(p: AmneziaWgProfile) {
    ValidWireGuard(p.wireguard)
    && p.jc <= 10 && 64 <= p.jmin <= 1024 && 64 <= p.jmax <= 1024 && p.jmin <= p.jmax
    && p.s1 <= 64 && p.s2 <= 64 && p.s3 <= 64 && p.s4 <= 32 && |p.specialJunk| <= 5
    && ValidNumericRange(p.h1) && ValidNumericRange(p.h2) && ValidNumericRange(p.h3) && ValidNumericRange(p.h4)
    && forall i :: 0 <= i < |p.specialJunk| ==> ValidLongString(p.specialJunk[i])
  }

  predicate ValidUuid(s: string) {
    |s| == 36 && forall i :: 0 <= i < 36 ==>
      if i == 8 || i == 13 || i == 18 || i == 23 then s[i] == '-' else IsHexDigit(s[i])
  }

  predicate ValidVless(p: VlessProfile) {
    ValidUuid(p.clientId) && ValidEndpointHost(p.endpointHost) && p.endpointPort != 0
    && ValidEndpointHost(p.serverName) && p.fingerprint == "chrome"
    && |p.realityPassword| == 43 && AllIdChars(p.realityPassword)
    && |p.shortId| <= 16 && |p.shortId| % 2 == 0 && AllHex(p.shortId)
    && p.spiderX == "/"
  }

  function Check(valid: bool): Result<(), FrameError> { if valid then Ok(()) else Err(InvalidProfile) }

  ////////// Every validated text but the special junk is plain ASCII //////////

  lemma IdentifierAscii(s: string)
    requires AllIdChars(s)
    ensures Utf8.IsAscii(s) && '\0' !in s
  {
  }

  lemma DigitsAscii(s: string)
    requires AllHex(s)
    ensures Utf8.IsAscii(s) && '\0' !in s
  {
  }

  /** What a network is written with: address characters, one slash, and a prefix of digits. */
  predicate IsNetworkChar(c: char) { IsIpChar(c) || c == '/' || c == '+' }

  lemma NetworkChars(s: string)
    requires ValidNetwork(s)
    ensures s != "" && forall i :: 0 <= i < |s| ==> IsNetworkChar(s[i])
  {
    var cut := IndexOf(s, '/');
    var prefix := s[cut + 1..];
    ParsedChars(s[..cut]);
    forall i | 0 <= i < |s| ensures IsNetworkChar(s[i]) {
      if i < cut {
        assert s[i] in s[..cut];
      } else if i > cut {
        assert s[i] == prefix[i - cut - 1];
        if prefix[0] == '+' && i > cut + 1 { assert s[i] == prefix[1..][i - cut - 2]; }
      }
    }
  }

  lemma HostnameChars(s: string)
    requires ValidHostname(s)
    ensures forall c :: c in s ==> IsAlphanumeric(c) || c == '-' || c == '.'
  {
    forall c | c in s && c != '.' ensures IsAlphanumeric(c) || c == '-' {
      SplitCovers(s, '.', c);
      var part :| part in Split(s, '.') && c in part;
    }
  }

  lemma HostAscii(s: string)
    requires ValidEndpointHost(s)
    ensures s != "" && Utf8.IsAscii(s) && '\0' !in s
  {
    if Parse(s).Some? {
      ParsedChars(s);
      forall i | 0 <= i < |s| ensures s[i] as int < 0x80 { assert s[i] in s; }
    } else {
      HostnameChars(s);
      forall i | 0 <= i < |s| ensures s[i] as int < 0x80 { assert s[i] in s; }
    }
  }

  lemma NetworkAscii(s: string)
    requires ValidNetwork(s)
    ensures s != "" && Utf8.IsAscii(s) && '\0' !in s
  {
    hide ValidNetwork;
    NetworkChars(s);
  }

  lemma RangeChars(s: string)
    requires ValidNumericRange(s)
    ensures s != "" && forall c :: c in s ==> IsDigit(c) || c == '-'
  {
    forall c | c in s && c != '-' ensures IsDigit(c) {
      SplitCovers(s, '-', c);
      var part :| part in Split(s, '-') && c in part;
    }
  }

  lemma RangeAscii(s: string)
    requires ValidNumericRange(s)
    ensures s != "" && Utf8.IsAscii(s) && '\0' !in s
  {
    RangeChars(s);
    forall i | 0 <= i < |s| ensures s[i] as int < 0x80 { assert s[i] in s; }
  }
}
