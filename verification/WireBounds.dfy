/** How large an encoded request can get, and exactly which requests the encoder accepts. */
module WireBounds {
  import opened Basics
  import opened Contracts
  import opened Text
  import opened IpText
  import opened Wire
  import opened WireRoundTrip
  import opened WireCanonical
  import Utf8

  const MAX_PROFILE := 10839
  const MAX_AMNEZIAWG := 32360
  const MAX_REQUEST := 32502

  lemma {:induction false} BoundedAllAccepted(vs: seq<string>)
    requires FitsWire(vs) && forall i :: 0 <= i < |vs| ==> vs[i] != "" && '\0' !in vs[i]
    ensures PutBoundedAll(vs).Ok? && |PutBoundedAll(vs).value| <= 254 * |vs|
  {
    if vs != [] { BoundedAllAccepted(vs[1..]); }
  }

  lemma AddressAccepted(v: string)
    requires Parse(v).Some? && |v| <= 253
    ensures PutBounded(v, 253).Ok? && |PutBounded(v, 253).value| == |v| + 1
  {
    hide Parse;
    ParsedChars(v);
    AddressAscii(v);
    Utf8.EncodeAscii(v);
  }

  lemma {:induction false} DnsAccepted(texts: seq<string>, dns: seq<IpAddr>, longest: nat)
    requires Denote(texts, dns) && longest <= 45 && forall i :: 0 <= i < |texts| ==> |texts[i]| <= longest
    ensures PutBoundedAll(texts).Ok? && |PutBoundedAll(texts).value| <= (longest + 1) * |texts|
  {
    hide PutBounded, Parse;
    if texts != [] {
      forall i | 0 <= i < |texts| - 1 ensures |texts[1..][i]| <= longest { assert texts[1..][i] == texts[i + 1]; }
      DnsAccepted(texts[1..], dns[1..], longest);
      assert (longest + 1) * |texts| == (longest + 1) * (|texts| - 1) + (longest + 1);
      AddressAccepted(texts[0]);
    }
  }

  /** A client's DNS servers may be spelled up to six characters longer than the printer spells them. */
  lemma DnsSize(texts: seq<string>, dns: seq<IpAddr>)
    requires Denote(texts, dns) && |texts| <= 8
    ensures PutBoundedAll(texts).Ok? && |PutBoundedAll(texts).value| <= 368
    ensures texts == PrintAll(dns) ==> |PutBoundedAll(texts).value| <= 320
  {
    hide Parse, Print;
    forall i | 0 <= i < |texts| ensures |texts[i]| <= 45 { AddressLength(texts[i]); }
    DnsAccepted(texts, dns, 45);
    if texts == PrintAll(dns) {
      forall i | 0 <= i < |texts| ensures |texts[i]| <= 39 { PrintLength(dns[i]); }
      DnsAccepted(texts, dns, 39);
    }
  }

  lemma AddressAscii(s: string)
    requires forall c :: c in s ==> IsIpChar(c)
    ensures Utf8.IsAscii(s) && '\0' !in s
  {
    forall i | 0 <= i < |s| ensures s[i] as int < 0x80 { assert s[i] in s; }
  }

  lemma {:induction false} LongAllAccepted(vs: seq<string>)
    requires forall i :: 0 <= i < |vs| ==> ValidLongString(vs[i])
    ensures PutLongAll(vs).Ok? && |PutLongAll(vs).value| <= 4098 * |vs|
  {
    hide ValidLongString;
    if vs != [] {
      LongAllAccepted(vs[1..]);
      LongAccepted(vs[0]);
    }
  }

  lemma LongAccepted(v: string)
    requires ValidLongString(v)
    ensures PutLong(v).Ok? && |PutLong(v).value| <= 4098
  {
  }

  lemma NetworksAccepted(vs: seq<string>, minimum: nat, maximum: nat)
    requires ValidNetworks(vs, minimum, maximum) && FitsWire(vs) && maximum <= 255
    ensures PutList(vs).Ok? && |PutList(vs).value| <= 1 + 254 * maximum
  {
    forall i | 0 <= i < |vs| ensures vs[i] != "" && '\0' !in vs[i] { NetworkAscii(vs[i]); }
    BoundedAllAccepted(vs);
  }

  /** The texts of a profile that validation leaves unbounded. */
  predicate TextsFit(p: WireGuardProfile) { FitsWire(p.addresses) && FitsWire(p.allowedIps) }

  lemma ProfileAccepted(p: WireGuardProfile, dns: seq<string>)
    requires ValidWireGuard(p) && Denote(dns, p.dnsServers)
    ensures PutProfileWith(p, dns).Ok? <==> TextsFit(p)
    ensures PutProfileWith(p, dns).Ok? ==> |PutProfileWith(p, dns).value| <= MAX_PROFILE + 48
    ensures PutProfileWith(p, dns).Ok? && dns == PrintAll(p.dnsServers)
      ==> |PutProfileWith(p, dns).value| <= MAX_PROFILE
  {
    hide FitsWire, ValidNetworks, PutOptionalKey, PutOptionalU16, ValidEndpointHost;
    if PutProfileWith(p, dns).Ok? {
      ListFits(p.addresses);
      ListFits(p.allowedIps);
    }
    if TextsFit(p) {
      NetworksAccepted(p.addresses, 1, 8);
      NetworksAccepted(p.allowedIps, 1, 32);
      DnsSize(dns, p.dnsServers);
      HostLength(p.endpointHost);
      HostAscii(p.endpointHost);
      OptionSizes(p);
    }
  }

  lemma OptionSizes(p: WireGuardProfile)
    ensures |PutOptionalKey(p.presharedKey)| <= 33 && |PutOptionalU16(p.persistentKeepalive)| <= 3
  {
  }

  predicate AmneziaWgTextsFit(p: AmneziaWgProfile) { TextsFit(p.wireguard) && FitsWire(Headers(p)) }

  lemma {:induction false} NumbersSize(ns: seq<U16>)
    ensures |PutNumbers(ns)| == 2 * |ns|
  {
    if ns != [] { NumbersSize(ns[1..]); }
  }

  lemma AmneziaWgAccepted(p: AmneziaWgProfile, dns: seq<string>)
    requires ValidAmneziaWg(p) && Denote(dns, p.wireguard.dnsServers)
    ensures PutAmneziaWgWith(p, dns).Ok? <==> AmneziaWgTextsFit(p)
    ensures PutAmneziaWgWith(p, dns).Ok? ==> |PutAmneziaWgWith(p, dns).value| <= MAX_AMNEZIAWG + 48
    ensures PutAmneziaWgWith(p, dns).Ok? && dns == PrintAll(p.wireguard.dnsServers)
      ==> |PutAmneziaWgWith(p, dns).value| <= MAX_AMNEZIAWG
  {
    hide PutProfileWith, PutNumbers, PutBoundedAll, PutLongAll, ValidWireGuard, TextsFit, FitsWire,
         ValidLongString, ValidNumericRange, Denote;
    ProfileAccepted(p.wireguard, dns);
    NumbersSize(Numbers(p));
    LongAllAccepted(p.specialJunk);
    if PutAmneziaWgWith(p, dns).Ok? {
      BoundedAllFits(Headers(p));
    }
    if AmneziaWgTextsFit(p) {
      forall i | 0 <= i < 4 ensures Headers(p)[i] != "" && '\0' !in Headers(p)[i] { RangeAscii(Headers(p)[i]); }
      BoundedAllAccepted(Headers(p));
    }
  }

  lemma VlessAccepted(p: VlessProfile)
    requires ValidVless(p)
    ensures PutVless(p).Ok? && |PutVless(p).value| <= 5000
  {
    hide ValidEndpointHost, Utf8.Encode;
    VlessTexts(p);
    HostAscii(p.endpointHost);
    HostAscii(p.serverName);
    IdentifierAscii(p.realityPassword);
    UuidHasNoZero(p.clientId);
    SlashIsLong();
  }

  lemma UuidHasNoZero(s: string)
    requires ValidUuid(s)
    ensures '\0' !in s
  {
  }

  lemma SlashIsLong()
    ensures PutLong("/").Ok? && |PutLong("/").value| == 3
  {
    Utf8.EncodeAscii("/");
  }

  /** What a command must satisfy for the encoder to take it. */
  predicate Encodable(c: ControlCommand) {
    match c
    case Connect(operationId, profileId, _, _) => ValidIdentifier(operationId) && ValidIdentifier(profileId)
    case Disconnect(operationId) => ValidIdentifier(operationId)
    case DeleteProfile(operationId, profileId) => ValidIdentifier(operationId) && ValidIdentifier(profileId)
    case ImportWireGuard(operationId, p) => ValidIdentifier(operationId) && ValidWireGuard(p) && TextsFit(p)
    case ImportAmneziaWg(operationId, p) => ValidIdentifier(operationId) && ValidAmneziaWg(p) && AmneziaWgTextsFit(p)
    case ImportVless(operationId, p) => ValidIdentifier(operationId) && ValidVless(p)
    case _ => true
  }

  lemma PutStringAccepted(v: string)
    ensures PutString(v).Ok? <==> ValidIdentifier(v)
    ensures PutString(v).Ok? ==> |PutString(v).value| <= 65
  {
    if ValidIdentifier(v) { IdentifierBytes(v); }
  }

  lemma CommandAccepted(c: ControlCommand)
    ensures PutCommand(c).Ok? <==> Encodable(c)
    ensures PutCommand(c).Ok? ==> |PutCommand(c).value| <= 65 + MAX_AMNEZIAWG
  {
    hide PutString, PutProfileWith, PutAmneziaWgWith, PutVless, ValidWireGuard, ValidAmneziaWg, ValidVless,
         TextsFit, AmneziaWgTextsFit, ValidIdentifier, Denote;
    match c
    case Connect(operationId, profileId, _, _) => PutStringAccepted(operationId); PutStringAccepted(profileId);
    case Disconnect(operationId) => PutStringAccepted(operationId);
    case DeleteProfile(operationId, profileId) => PutStringAccepted(operationId); PutStringAccepted(profileId);
    case ImportWireGuard(operationId, p) =>
      PutStringAccepted(operationId);
      PrintedDenote(p.dnsServers);
      if ValidWireGuard(p) { ProfileAccepted(p, PrintAll(p.dnsServers)); }
    case ImportAmneziaWg(operationId, p) =>
      PutStringAccepted(operationId);
      PrintedDenote(p.wireguard.dnsServers);
      if ValidAmneziaWg(p) { AmneziaWgAccepted(p, PrintAll(p.wireguard.dnsServers)); }
    case ImportVless(operationId, p) =>
      PutStringAccepted(operationId);
      if ValidVless(p) { VlessAccepted(p); }
    case _ =>
  }

  /** No request is refused for its size, and none is longer than 32502 bytes. */
  lemma RequestSize(r: RequestEnvelope)
    ensures EncodeRequest(r).Ok? <==>
      ValidIdentifier(r.requestId) && r.contractVersion == CONTRACT_VERSION && Encodable(r.command)
    ensures EncodeRequest(r).Ok? ==> |EncodeRequest(r).value| <= MAX_REQUEST
    ensures EncodeRequest(r) != Err(TooLarge)
  {
    hide PutString, PutCommand, Encodable;
    PutStringAccepted(r.requestId);
    CommandAccepted(r.command);
    StringNeverTooLarge(r.requestId);
    CommandNeverTooLarge(r.command);
  }

  lemma StringNeverTooLarge(v: string)
    ensures PutString(v) != Err(TooLarge)
  {
  }

  lemma {:induction false} BoundedAllError(vs: seq<string>)
    ensures PutBoundedAll(vs).Ok? || PutBoundedAll(vs) == Err(InvalidProfile)
  {
    if vs != [] { BoundedAllError(vs[1..]); }
  }

  lemma {:induction false} LongAllError(vs: seq<string>)
    ensures PutLongAll(vs).Ok? || PutLongAll(vs) == Err(InvalidProfile)
  {
    if vs != [] { LongAllError(vs[1..]); }
  }

  lemma ProfileError(p: WireGuardProfile, dns: seq<string>)
    ensures PutProfileWith(p, dns).Ok? || PutProfileWith(p, dns) == Err(InvalidProfile)
  {
    hide PutBoundedAll, Utf8.Encode;
    BoundedAllError(p.addresses);
    BoundedAllError(dns);
    BoundedAllError(p.allowedIps);
  }

  lemma AmneziaWgError(p: AmneziaWgProfile, dns: seq<string>)
    ensures PutAmneziaWgWith(p, dns).Ok? || PutAmneziaWgWith(p, dns) == Err(InvalidProfile)
  {
    hide PutBoundedAll, PutLongAll, PutProfileWith;
    ProfileError(p.wireguard, dns);
    BoundedAllError(Headers(p));
    LongAllError(p.specialJunk);
  }

  lemma CommandNeverTooLarge(c: ControlCommand)
    ensures PutCommand(c) != Err(TooLarge)
  {
    hide PutString, PutProfileWith, PutAmneziaWgWith, PutBounded, PutOptionalBounded, PutLong, ValidWireGuard,
         ValidAmneziaWg, ValidVless, ValidIdentifier;
    match c
    case Connect(operationId, profileId, _, _) => StringNeverTooLarge(operationId); StringNeverTooLarge(profileId);
    case Disconnect(operationId) => StringNeverTooLarge(operationId);
    case DeleteProfile(operationId, profileId) => StringNeverTooLarge(operationId); StringNeverTooLarge(profileId);
    case ImportWireGuard(operationId, p) =>
      StringNeverTooLarge(operationId);
      ProfileError(p, PrintAll(p.dnsServers));
    case ImportAmneziaWg(operationId, p) =>
      StringNeverTooLarge(operationId);
      AmneziaWgError(p, PrintAll(p.wireguard.dnsServers));
    case ImportVless(operationId, p) =>
      StringNeverTooLarge(operationId);
      if ValidVless(p) { VlessAccepted(p); }
    case _ =>
  }

  /** Nor does any vault payload run into the cap. */
  lemma PayloadSizes(w: WireGuardProfile, a: AmneziaWgProfile, v: VlessProfile)
    ensures EncodeWireGuardProfile(w).Ok? <==> ValidWireGuard(w) && TextsFit(w)
    ensures EncodeAmneziaWgProfile(a).Ok? <==> ValidAmneziaWg(a) && AmneziaWgTextsFit(a)
    ensures EncodeVlessProfile(v).Ok? <==> ValidVless(v)
  {
    hide PutProfileWith, PutAmneziaWgWith, PutVless, ValidWireGuard, ValidAmneziaWg, ValidVless, TextsFit,
         AmneziaWgTextsFit, Denote;
    PrintedDenote(w.dnsServers);
    PrintedDenote(a.wireguard.dnsServers);
    if ValidWireGuard(w) { ProfileAccepted(w, PrintAll(w.dnsServers)); }
    if ValidAmneziaWg(a) { AmneziaWgAccepted(a, PrintAll(a.wireguard.dnsServers)); }
    if ValidVless(v) { VlessAccepted(v); }
  }

  ////////// A request of exactly that size //////////

  function Repeat(c: char, n: nat): string { seq(n, _ => c) }

  lemma {:induction false} ZerosValue(n: nat)
    ensures AllDigits(Repeat('0', n)) && DecValue(Repeat('0', n)) == 0
  {
    if n > 0 {
      ZerosValue(n - 1);
      assert Repeat('0', n)[..n - 1] == Repeat('0', n - 1);
    }
  }

  lemma RepeatSize(c: char, n: nat)
    requires 0 < c as int < 0x80
    ensures |Repeat(c, n)| == n && |Utf8.Encode(Repeat(c, n))| == n && '\0' !in Repeat(c, n)
  {
    Utf8.EncodeAscii(Repeat(c, n));
  }

  const LONG_NETWORK: string := "1.1.1.1/" + Repeat('0', 245)

  lemma OnesParse()
    ensures Parse("1.1.1.1").Some? && Parse("1.1.1.1").value.V4?
  {
    var octets: seq<Byte> := [1, 1, 1, 1];
    assert Dec(1) == "1";
    assert DecTexts(octets) == ["1", "1", "1", "1"];
    assert Print(V4(octets)) == "1.1.1.1";
    PrintParse(V4(octets));
  }

  lemma LongPrefixParses()
    ensures ParseUnsigned(Repeat('0', 245), 256) == Some(0)
  {
    ZerosValue(245);
  }

  lemma LongNetworkValid()
    ensures ValidNetwork(LONG_NETWORK) && |Utf8.Encode(LONG_NETWORK)| == 253
  {
    hide Parse, ParseUnsigned, Repeat;
    var s, zeros := LONG_NETWORK, Repeat('0', 245);
    RepeatEnds('0', 245);
    assert s == "1.1.1.1" + ['/'] + zeros;
    IndexOfFirst("1.1.1.1", '/', zeros);
    assert s[..7] == "1.1.1.1" && s[8..] == zeros;
    OnesParse();
    LongPrefixParses();
    NetworkAscii(s);
    Utf8.EncodeAscii(s);
  }

  const LONG_HOST: string :=
    Join([Repeat('a', 63), Repeat('a', 63), Repeat('a', 63), Repeat('a', 61)], ".")

  lemma LongHostShape()
    ensures |LONG_HOST| == 253 && LONG_HOST[0] == 'a' && LONG_HOST[252] == 'a'
  {
    hide Repeat;
    var a, b := Repeat('a', 63), Repeat('a', 61);
    RepeatEnds('a', 63);
    RepeatEnds('a', 61);
    assert [a, a, a, b][1..] == [a, a, b];
    assert [a, a, b][1..] == [a, b];
    assert [a, b][1..] == [b];
    assert LONG_HOST == a + "." + (a + "." + (a + "." + b));
  }

  lemma RepeatEnds(c: char, n: nat)
    requires n > 0
    ensures |Repeat(c, n)| == n && Repeat(c, n)[0] == c && Repeat(c, n)[n - 1] == c
  {
  }

  lemma LongLabelsValid(n: nat)
    requires 1 <= n <= 63
    ensures ValidLabel(Repeat('a', n)) && '.' !in Repeat('a', n)
  {
  }

  lemma LongHostname()
    ensures ValidHostname(LONG_HOST)
  {
    hide Repeat, ValidLabel, Split, Join;
    LongLabelsValid(63);
    LongLabelsValid(61);
    LongHostShape();
    var parts := [Repeat('a', 63), Repeat('a', 63), Repeat('a', 63), Repeat('a', 61)];
    SplitJoin(parts, '.');
  }

  lemma LongHostValid()
    ensures ValidEndpointHost(LONG_HOST) && |Utf8.Encode(LONG_HOST)| == 253
  {
    hide LONG_HOST, ValidHostname, Parse, Utf8.Encode, Utf8.IsAscii;
    LongHostname();
    LongHostShape();
    HostAscii(LONG_HOST);
    Utf8.EncodeAscii(LONG_HOST);
  }

  const LONG_DNS: IpAddr := V6(seq(8, _ => 0xffff))

  lemma LongDnsPrinted()
    ensures Print(LONG_DNS) != "" && |Utf8.Encode(Print(LONG_DNS))| == 39 && '\0' !in Print(LONG_DNS)
  {
    hide Print, Hex, Parse;
    LongGroup();
    var texts := HexTexts(LONG_DNS.groups);
    forall i | 0 <= i < |texts| ensures |texts[i]| == 4 { assert texts[i] == Hex(0xffff); }
    JoinSize(texts, 4);
    WithoutZeros(LONG_DNS.groups);
    PrintParse(LONG_DNS);
    ParsedChars(Print(LONG_DNS));
    AddressAscii(Print(LONG_DNS));
    Utf8.EncodeAscii(Print(LONG_DNS));
  }

  lemma LongGroup()
    ensures |Hex(0xffff)| == 4
  {
    assert |Hex(0xf)| == 1;
    assert |Hex(0xff)| == 2;
    assert |Hex(0xfff)| == 3;
  }

  lemma {:induction false} JoinSize(parts: seq<string>, each: nat)
    requires parts != [] && forall i :: 0 <= i < |parts| ==> |parts[i]| == each
    ensures |Join(parts, ":")| + 1 == |parts| * (each + 1)
  {
    if |parts| > 1 {
      JoinSize(parts[1..], each);
      assert |parts| * (each + 1) == (|parts| - 1) * (each + 1) + (each + 1);
    }
  }

  lemma OneMoreTime(n: nat, size: nat)
    requires n > 0
    ensures n * size == (n - 1) * size + size
  {
  }

  lemma {:induction false} SameSizes(v: string, n: nat)
    requires PutBounded(v, 253).Ok?
    ensures PutBoundedAll(seq(n, _ => v)).Ok?
    ensures |PutBoundedAll(seq(n, _ => v)).value| == n * |PutBounded(v, 253).value|
  {
    hide PutBounded;
    if n > 0 {
      SameSizes(v, n - 1);
      assert seq(n, _ => v)[1..] == seq(n - 1, _ => v);
      OneMoreTime(n, |PutBounded(v, 253).value|);
    }
  }

  lemma {:induction false} SameLongSizes(v: string, n: nat)
    requires PutLong(v).Ok?
    ensures PutLongAll(seq(n, _ => v)).Ok?
    ensures |PutLongAll(seq(n, _ => v)).value| == n * |PutLong(v).value|
  {
    hide PutLong;
    if n > 0 {
      SameLongSizes(v, n - 1);
      assert seq(n, _ => v)[1..] == seq(n - 1, _ => v);
      OneMoreTime(n, |PutLong(v).value|);
    }
  }

  const LARGEST_BASE := WireGuardProfile(
    seq(32, _ => 1), seq(8, _ => LONG_NETWORK), seq(8, _ => LONG_DNS), seq(32, _ => 1), Some(seq(32, _ => 1)),
    LONG_HOST, 443, seq(32, _ => LONG_NETWORK), Some(25))

  lemma LargestBase()
    ensures ValidWireGuard(LARGEST_BASE) && PutProfile(LARGEST_BASE).Ok?
    ensures |PutProfile(LARGEST_BASE).value| == MAX_PROFILE
  {
    hide ValidNetwork, ValidEndpointHost, Utf8.Encode, Print;
    var p := LARGEST_BASE;
    assert p.privateKey[0] == 1 && p.peerPublicKey[0] == 1 && p.presharedKey.value[0] == 1;
    LongNetworkValid();
    LongHostValid();
    LongDnsPrinted();
    NetworkAscii(LONG_NETWORK);
    HostAscii(LONG_HOST);
    assert PrintAll(p.dnsServers) == seq(8, _ => Print(LONG_DNS));
    PrintedCount(p.dnsServers);
    SameSizes(LONG_NETWORK, 8);
    SameSizes(LONG_NETWORK, 32);
    SameSizes(Print(LONG_DNS), 8);
  }

  const LONG_RANGE: string := Repeat('0', 253)
  const LONG_JUNK: string := Repeat('a', 4096)

  lemma LongRangeValid()
    ensures ValidNumericRange(LONG_RANGE)
  {
    SplitWhole(LONG_RANGE, '-');
    ZerosValue(253);
  }

  const LARGEST := AmneziaWgProfile(LARGEST_BASE, 10, 64, 1024, 64, 64, 64, 32,
    LONG_RANGE, LONG_RANGE, LONG_RANGE, LONG_RANGE, seq(5, _ => LONG_JUNK))

  lemma LargestAmneziaWg()
    ensures ValidAmneziaWg(LARGEST) && PutAmneziaWg(LARGEST).Ok?
    ensures |PutAmneziaWg(LARGEST).value| == MAX_AMNEZIAWG
  {
    hide ValidWireGuard, ValidNumericRange, PutProfileWith, Utf8.Encode, PutNumbers;
    LargestBase();
    LongRangeValid();
    RepeatSize('0', 253);
    RepeatSize('a', 4096);
    assert Headers(LARGEST) == seq(4, _ => LONG_RANGE);
    SameSizes(LONG_RANGE, 4);
    SameLongSizes(LONG_JUNK, 5);
    NumbersSize(Numbers(LARGEST));
  }

  lemma LongIdentifier()
    ensures var id := Repeat('a', 64); ValidIdentifier(id) && PutString(id).Ok? && |PutString(id).value| == 65
  {
    RepeatSize('a', 64);
    IdentifierBytes(Repeat('a', 64));
  }

  /** The bound is met: this import is 32502 bytes on the wire. */
  lemma RequestSizeTight()
    ensures var id := Repeat('a', 64);
      var r := RequestEnvelope(CONTRACT_VERSION, id, ImportAmneziaWg(id, LARGEST));
      EncodeRequest(r).Ok? && |EncodeRequest(r).value| == MAX_REQUEST
  {
    hide ValidAmneziaWg, PutAmneziaWgWith, PutString, ValidIdentifier, Repeat;
    LargestAmneziaWg();
    LongIdentifier();
  }
}
