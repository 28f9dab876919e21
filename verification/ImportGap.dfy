/** Exactly which configurations the client takes but the service refuses. */
module ImportGap {
  import opened Basics
  import opened Text
  import opened IpText
  import opened Contracts
  import opened ClientConfig
  import opened Wire
  import opened WireRoundTrip
  import opened WireCanonical
  import opened WireBounds
  import opened ClientAgreement
  import LE = LittleEndian
  import Client = ClientWire
  import Utf8

  ////////// What the client's parser guarantees //////////

  predicate ClientValid(q: Client.ClientProfile) {
    !ZeroKey(q.privateKey) && !ZeroKey(q.peerPublicKey) && (q.presharedKey.Some? ==> !ZeroKey(q.presharedKey.value))
    && ClientNetworks(q.addresses, 1, 8)
    && |q.dnsServers| <= 8 && (forall i :: 0 <= i < |q.dnsServers| ==> Parse(q.dnsServers[i]).Some?)
    && ValidEndpointHost(q.endpointHost) && 1 <= q.endpointPort <= 65535
    && ClientNetworks(q.allowedIps, 1, 32)
    && (q.persistentKeepalive.Some? ==> 1 <= q.persistentKeepalive.value <= 65535)
  }

  lemma DecodedKey(value: string)
    ensures DecodeKey(value).Ok? ==> !ZeroKey(DecodeKey(value).value)
  {
  }

  lemma ParsedEndpoint(value: string)
    ensures var r := ParseEndpoint(value);
      r.Ok? ==> ValidEndpointHost(r.value.0) && 1 <= r.value.1 <= 65535
  {
    hide Parse, ValidHostname, TryParseInt, IndexOf, AfterLast;
  }

  lemma FinishedIsValid(st: WgState)
    ensures WgFinish(st).Ok? ==> ClientValid(WgFinish(st).value)
  {
    hide Parse, ValidEndpointHost, ClientNetwork, DecodeKey, ParseEndpoint, Csv, ZeroKey, TryParseInt;
    if WgFinish(st).Ok? {
      ParsedEndpoint(st.peer["Endpoint"][0]);
      DecodedKey(st.interface["PrivateKey"][0]);
      DecodedKey(st.peer["PublicKey"][0]);
      if Count(st.peer, "PresharedKey") != 0 { DecodedKey(st.peer["PresharedKey"][0]); }
    }
  }

  lemma ParsedIsValid(source: string)
    ensures ParseWireGuard(source).Ok? ==> ClientValid(ParseWireGuard(source).value)
  {
    hide ClientValid, WgFinish, WgScan, SplitLines, Oversized;
    if ParseWireGuard(source).Ok? { FinishedIsValid(WgScan(SplitLines(source), WG_START).value); }
  }

  ////////// Networks //////////

  /** After the slash there are only digits and plus signs. */
  predicate PlainPrefix(v: string) {
    forall i :: IndexOf(v, '/') < i < |v| ==> IsDigit(v[i]) || v[i] == '+'
  }

  lemma {:induction false} MoreParts(s: string)
    requires '/' in s
    ensures |Split(s, '/')| >= 2
  {
    if s[0] != '/' { MoreParts(s[1..]); }
  }

  lemma CutParts(a: string, b: string)
    requires '/' !in a && |Split(a + ['/'] + b, '/')| == 2
    ensures Split(a + ['/'] + b, '/') == [a, b]
  {
    SplitHead(a, b, '/');
    if '/' in b { MoreParts(b); } else { SplitWhole(b, '/'); }
  }

  lemma NetworkParts(v: string)
    requires ClientNetwork(v)
    ensures var cut := IndexOf(v, '/');
      cut < |v| && Split(v, '/') == [v[..cut], v[cut + 1..]]
  {
    hide Parse, TryParseInt, Split;
    var cut := IndexOf(v, '/');
    if cut == |v| {
      SplitWhole(v, '/');
    } else {
      assert v == v[..cut] + ['/'] + v[cut + 1..];
      CutParts(v[..cut], v[cut + 1..]);
    }
  }

  lemma PlainPrefixRead(prefix: string)
    requires TryParseInt(prefix).Some? && 0 <= TryParseInt(prefix).value < 256
    requires forall i :: 0 <= i < |prefix| ==> IsDigit(prefix[i]) || prefix[i] == '+'
    ensures ParseUnsigned(prefix, 256) == Some(TryParseInt(prefix).value)
  {
    TrimIdentity(prefix);
  }

  /** A network the client takes is one the service takes exactly if its prefix is plain. */
  lemma PlainIsValid(v: string)
    requires ClientNetwork(v)
    ensures ValidNetwork(v) <==> PlainPrefix(v)
  {
    hide Parse, TryParseInt, ParseUnsigned, Split, IsDigit;
    NetworkParts(v);
    var cut := IndexOf(v, '/');
    var prefix := v[cut + 1..];
    if PlainPrefix(v) {
      forall i | 0 <= i < |prefix| ensures IsDigit(prefix[i]) || prefix[i] == '+' {
        assert prefix[i] == v[cut + 1 + i];
      }
      PlainPrefixRead(prefix);
    }
    if ValidNetwork(v) {
      PlainDigits(prefix);
      forall i | cut < i < |v| ensures IsDigit(v[i]) || v[i] == '+' { assert v[i] == prefix[i - cut - 1]; }
    }
  }

  lemma PlainDigits(prefix: string)
    requires ParseUnsigned(prefix, 256).Some?
    ensures forall i :: 0 <= i < |prefix| ==> IsDigit(prefix[i]) || prefix[i] == '+'
  {
    hide DecValue;
    forall i | 0 <= i < |prefix| ensures IsDigit(prefix[i]) || prefix[i] == '+' {
      if prefix[0] == '+' && i > 0 { assert prefix[i] == prefix[1..][i - 1]; }
    }
  }

  ////////// Networks on the wire //////////

  /** What the service reads where the client wrote a text: one byte of each UTF-16 unit, taken as UTF-8. */
  function Received(v: string): Option<string> { Utf8.Decode(Client.LowBytes(Client.CodeUnits(v))) }

  lemma {:induction false} TrimLeftCovers(s: string)
    ensures forall c :: c in s ==> IsSpace(c) || c in TrimLeft(s)
  {
    if s != "" && IsSpace(s[0]) {
      TrimLeftCovers(s[1..]);
      assert s == [s[0]] + s[1..];
    }
  }

  lemma {:induction false} TrimRightCovers(s: string)
    ensures forall c :: c in s ==> IsSpace(c) || c in TrimRight(s)
  {
    if s != "" && IsSpace(s[|s| - 1]) {
      TrimRightCovers(s[..|s| - 1]);
      assert s == s[..|s| - 1] + [s[|s| - 1]];
    }
  }

  predicate IsLiteralChar(c: char) { IsHexDigit(c) || c == 'x' || c == 'X' || c == '+' || c == '-' }

  predicate IsNumberChar(c: char) { IsLiteralChar(c) || IsSpace(c) }

  lemma MagnitudeChars(digits: string)
    requires Magnitude(digits).Some?
    ensures forall i :: 0 <= i < |digits| ==> IsLiteralChar(digits[i])
  {
    hide DecValue, HexValue;
    forall i | 0 <= i < |digits| ensures IsLiteralChar(digits[i]) {
      if HexText(digits) && i > 1 { assert digits[i] == digits[2..][i - 2]; }
    }
  }

  lemma NumberChars(s: string)
    requires TryParseInt(s).Some?
    ensures forall c :: c in s ==> IsNumberChar(c)
  {
    hide TrimLeft, TrimRight, IsSpace, Magnitude, HexText;
    TrimRightCovers(s);
    TrimLeftCovers(TrimRight(s));
    var trimmed := Trim(s);
    var signed := trimmed != "" && (trimmed[0] == '+' || trimmed[0] == '-');
    MagnitudeChars(if signed then trimmed[1..] else trimmed);
    forall c | c in trimmed ensures IsLiteralChar(c) {
      var i :| 0 <= i < |trimmed| && trimmed[i] == c;
      if signed && i > 0 { assert trimmed[i] == trimmed[1..][i - 1]; }
    }
  }

  /** A number character whose low byte reads as a digit or a plus sign is that character. */
  lemma LowByteTells(c: char, b: char)
    requires IsNumberChar(c) && (IsDigit(b) || b == '+') && c as int % 256 == b as int
    ensures c == b
  {
  }

  lemma AddressAscii(s: string)
    requires Parse(s).Some?
    ensures forall i :: 0 <= i < |s| ==> s[i] as int < 128
  {
    hide Parse;
    ParsedChars(s);
    forall i | 0 <= i < |s| ensures s[i] as int < 128 { assert s[i] in s; }
  }

  lemma ClientNetworkChars(v: string)
    requires ClientNetwork(v)
    ensures var cut := IndexOf(v, '/');
      cut < |v| && (forall i :: 0 <= i < cut ==> v[i] as int < 128)
        && (forall i :: cut < i < |v| ==> IsNumberChar(v[i]))
  {
    hide Parse, TryParseInt, Split, IsNumberChar;
    NetworkParts(v);
    var cut := IndexOf(v, '/');
    AddressAscii(v[..cut]);
    NumberChars(v[cut + 1..]);
    forall i | 0 <= i < cut ensures v[i] as int < 128 { assert v[i] == v[..cut][i]; }
    forall i | cut < i < |v| ensures IsNumberChar(v[i]) { assert v[i] == v[cut + 1..][i - cut - 1]; }
  }

  lemma {:induction false} PlaneUnits(v: string)
    requires forall i :: 0 <= i < |v| ==> v[i] as int < 0x1_0000
    ensures |Client.CodeUnits(v)| == |v| && forall i :: 0 <= i < |v| ==> Client.CodeUnits(v)[i] == v[i] as int
  {
    if v != "" {
      PlaneUnits(v[1..]);
      assert Client.CodeUnits(v) == [v[0] as int] + Client.CodeUnits(v[1..]);
    }
  }

  lemma AsciiReceived(v: string, t: string)
    requires Received(v) == Some(t) && Utf8.IsAscii(t)
    requires forall i :: 0 <= i < |v| ==> v[i] as int < 0x1_0000
    ensures |t| == |v| && forall i :: 0 <= i < |v| ==> t[i] as int == v[i] as int % 256
  {
    var bs := Client.LowBytes(Client.CodeUnits(v));
    PlaneUnits(v);
    Utf8.EncodeDecode(bs);
    Utf8.EncodeAscii(t);
    assert Utf8.AsciiBytes(t) == bs;
    forall i | 0 <= i < |v| ensures t[i] as int == v[i] as int % 256 { assert Utf8.AsciiBytes(t)[i] == bs[i]; }
  }

  predicate LowBytesOf(v: string, t: string) {
    |t| == |v| && forall i :: 0 <= i < |v| ==> t[i] as int == v[i] as int % 256
  }

  /** Up to and with the slash nothing can change. */
  lemma SameUpToSlash(v: string, t: string)
    requires LowBytesOf(v, t) && IndexOf(v, '/') < |v|
    requires forall i :: 0 <= i < IndexOf(v, '/') ==> v[i] as int < 128
    ensures IndexOf(t, '/') == IndexOf(v, '/') && forall i :: 0 <= i <= IndexOf(v, '/') ==> t[i] == v[i]
  {
    hide IndexOf;
    var cut := IndexOf(v, '/');
    forall i | 0 <= i <= cut ensures t[i] == v[i] {}
    forall i | 0 <= i < cut ensures t[i] != '/' { assert v[i] == v[..cut][i]; }
    FirstIs(t, '/', cut);
  }

  lemma FirstIs(s: string, c: char, k: nat)
    requires k < |s| && s[k] == c && forall i :: 0 <= i < k ==> s[i] != c
    ensures IndexOf(s, c) == k
  {
    hide IndexOf;
    var i := IndexOf(s, c);
    assert forall j :: 0 <= j < i ==> s[j] == s[..i][j];
  }

  lemma ValidPrefixChars(t: string)
    requires ValidNetwork(t)
    ensures forall i :: IndexOf(t, '/') < i < |t| ==> IsDigit(t[i]) || t[i] == '+'
  {
    hide Parse, ParseUnsigned, IndexOf, IsSpace, IsDigit;
    var cut := IndexOf(t, '/');
    PlainDigits(t[cut + 1..]);
    forall i | cut < i < |t| ensures IsDigit(t[i]) || t[i] == '+' { assert t[i] == t[cut + 1..][i - cut - 1]; }
  }

  /** Whatever a network turns into on its way, if the service takes it, it is the network that was sent. */
  lemma ReceivedNetwork(v: string, t: string)
    requires ClientNetwork(v) && Received(v) == Some(t) && ValidNetwork(t)
    ensures t == v
  {
    hide ClientNetwork, ValidNetwork, Received, IsNumberChar, Utf8.IsAscii, IsDigit, IndexOf;
    ClientNetworkChars(v);
    NetworkAscii(t);
    var cut := IndexOf(v, '/');
    forall i | 0 <= i < |v| ensures v[i] as int < 0x1_0000 { if i > cut { NumberCharSmall(v[i]); } }
    AsciiReceived(v, t);
    SameUpToSlash(v, t);
    ValidPrefixChars(t);
    forall i | cut < i < |v| ensures t[i] == v[i] { LowByteTells(v[i], t[i]); }
  }

  lemma NumberCharSmall(c: char)
    requires IsNumberChar(c)
    ensures c as int < 0x1_0000
  {
  }

  ////////// Reading back what the client wrote //////////

  predicate Pairs(sent: seq<string>, read: seq<string>) {
    |sent| == |read| && forall i :: 0 <= i < |sent| ==> Received(sent[i]) == Some(read[i])
  }

  lemma BoundedReadBack(v: string, rest: Bytes)
    requires Client.BoundedString(v).Ok? && TakeBounded(Client.BoundedString(v).value + rest).Ok?
    ensures var (t, s) := TakeBounded(Client.BoundedString(v).value + rest).value; s == rest && Received(v) == Some(t)
  {
    hide Utf8.Decode, Client.CodeUnits;
    var bs := Client.LowBytes(Client.CodeUnits(v));
    OneLowByte(|bs|);
    Assoc([|bs|], bs, rest);
    TakeBytePut(|bs|, bs + rest);
    TakeBytesPut(bs, rest);
  }

  lemma {:induction false} BoundedAllReadBack(vs: seq<string>, rest: Bytes)
    requires Client.BoundedStrings(vs).Ok? && TakeBoundedAll(Client.BoundedStrings(vs).value + rest, |vs|).Ok?
    ensures var (ts, s) := TakeBoundedAll(Client.BoundedStrings(vs).value + rest, |vs|).value;
      s == rest && Pairs(vs, ts)
  {
    hide Client.BoundedString, TakeBounded, Received;
    if vs == [] {
      assert [] + rest == rest;
    } else {
      var first, others := Client.BoundedString(vs[0]).value, Client.BoundedStrings(vs[1..]).value;
      Assoc(first, others, rest);
      BoundedReadBack(vs[0], others + rest);
      BoundedAllReadBack(vs[1..], rest);
      var ts := TakeBoundedAll(others + rest, |vs| - 1).value.0;
      forall i | 0 <= i < |vs| ensures Received(vs[i])
        == Some(([TakeBounded(first + (others + rest)).value.0] + ts)[i]) {
        if i > 0 { assert Received(vs[1..][i - 1]) == Some(ts[i - 1]); }
      }
    }
  }

  lemma ListReadBack(vs: seq<string>, maximum: nat, rest: Bytes)
    requires Client.StringList(vs).Ok? && |vs| < 256 && TakeList(Client.StringList(vs).value + rest, maximum).Ok?
    ensures var (ts, s) := TakeList(Client.StringList(vs).value + rest, maximum).value; s == rest && Pairs(vs, ts)
  {
    hide Client.BoundedStrings, TakeBoundedAll, Pairs;
    var items := Client.BoundedStrings(vs).value;
    OneLowByte(|vs|);
    Assoc([|vs|], items, rest);
    TakeBytePut(|vs|, items + rest);
    BoundedAllReadBack(vs, rest);
  }

  lemma PortReadBack(n: int, rest: Bytes)
    ensures TakeU16(Client.U16Bytes(n) + rest).Ok? && TakeU16(Client.U16Bytes(n) + rest).value.1 == rest
  {
    TakeBytesPut(Client.U16Bytes(n), rest);
  }

  lemma OptionsReadBack(k: Option<SecretKey>, n: Option<int>, rest: Bytes)
    ensures TakeOptionalKey(Client.OptionalKey(k) + rest) == Ok((k, rest))
    ensures TakeOptionalU16(Client.OptionalU16(n) + rest).Ok?
      && TakeOptionalU16(Client.OptionalU16(n) + rest).value.1 == rest
  {
    hide Client.U16Bytes;
    TakePutOptionalKey(k, rest);
    if n.Some? {
      Assoc([1], Client.U16Bytes(n.value), rest);
      TakeBytePut(1, Client.U16Bytes(n.value) + rest);
      PortReadBack(n.value, rest);
    } else {
      TakeBytePut(0, rest);
    }
  }

  /** If the service can read a client's profile at all, it reads its networks as they arrived, and nothing more. */
  lemma ProfileReadBack(q: Client.ClientProfile, rest: Bytes)
    requires Client.ProfileBytes(q).Ok? && TakeProfile(Client.ProfileBytes(q).value + rest).Ok?
    requires |q.addresses| < 256 && |q.dnsServers| < 256 && |q.allowedIps| < 256
    ensures var (p, s) := TakeProfile(Client.ProfileBytes(q).value + rest).value;
      s == rest && Pairs(q.addresses, p.addresses) && Pairs(q.allowedIps, p.allowedIps)
  {
    hide Client.StringList, Client.BoundedString, Client.OptionalKey, Client.OptionalU16, Client.U16Bytes, TakeList,
         TakeBounded,
         TakeOptionalKey, TakeOptionalU16, TakeU16, Pairs, ParseAll;
    var addresses, dns := Client.StringList(q.addresses).value, Client.StringList(q.dnsServers).value;
    var host, allowed := Client.BoundedString(q.endpointHost).value, Client.StringList(q.allowedIps).value;
    var e8 := Client.OptionalU16(q.persistentKeepalive) + rest;
    var e7 := allowed + e8;
    var e6 := Client.U16Bytes(q.endpointPort) + e7;
    var e5 := host + e6;
    var e4 := Client.OptionalKey(q.presharedKey) + e5;
    var e3 := q.peerPublicKey + e4;
    var e2 := dns + e3;
    var e1 := addresses + e2;
    NineParts(q.privateKey, addresses, dns, q.peerPublicKey, Client.OptionalKey(q.presharedKey), host,
      Client.U16Bytes(q.endpointPort), allowed, Client.OptionalU16(q.persistentKeepalive), rest);
    TakeBytesPut(q.privateKey, e1);
    ListReadBack(q.addresses, 8, e2);
    ListReadBack(q.dnsServers, 8, e3);
    TakeBytesPut(q.peerPublicKey, e4);
    OptionsReadBack(q.presharedKey, q.persistentKeepalive, e5);
    BoundedReadBack(q.endpointHost, e6);
    PortReadBack(q.endpointPort, e7);
    ListReadBack(q.allowedIps, 32, e8);
    OptionsReadBack(q.presharedKey, q.persistentKeepalive, rest);
  }

  lemma NineParts(a: Bytes, b: Bytes, c: Bytes, d: Bytes, e: Bytes, f: Bytes, g: Bytes, h: Bytes, i: Bytes, rest: Bytes)
    ensures a + (b + (c + (d + (e + (f + (g + (h + i))))))) + rest
      == a + (b + (c + (d + (e + (f + (g + (h + (i + rest))))))))
  {
    Assoc(h, i, rest);
    Assoc(g, h + i, rest);
    Assoc(f, g + (h + i), rest);
    Assoc(e, f + (g + (h + i)), rest);
    Assoc(d, e + (f + (g + (h + i))), rest);
    Assoc(c, d + (e + (f + (g + (h + i)))), rest);
    Assoc(b, c + (d + (e + (f + (g + (h + i))))), rest);
    Assoc(a, b + (c + (d + (e + (f + (g + (h + i)))))), rest);
  }

  ////////// The service's view of the client's profile //////////

  /** Every network's prefix length is plain. */
  predicate PlainNetworks(q: Client.ClientProfile) {
    (forall i :: 0 <= i < |q.addresses| ==> PlainPrefix(q.addresses[i]))
    && forall i :: 0 <= i < |q.allowedIps| ==> PlainPrefix(q.allowedIps[i])
  }

  lemma {:induction false} ReceivedNetworks(vs: seq<string>, ts: seq<string>, minimum: nat, maximum: nat)
    requires ClientNetworks(vs, minimum, maximum) && Pairs(vs, ts) && ValidNetworks(ts, minimum, maximum)
    ensures forall i :: 0 <= i < |vs| ==> PlainPrefix(vs[i])
  {
    hide ClientNetwork, ValidNetwork, PlainPrefix, Received;
    forall i | 0 <= i < |vs| ensures PlainPrefix(vs[i]) {
      ReceivedNetwork(vs[i], ts[i]);
      PlainIsValid(vs[i]);
    }
  }

  lemma {:induction false} NetworksValid(vs: seq<string>, minimum: nat, maximum: nat)
    requires ClientNetworks(vs, minimum, maximum) && forall i :: 0 <= i < |vs| ==> PlainPrefix(vs[i])
    ensures ValidNetworks(vs, minimum, maximum)
  {
    hide ClientNetwork, ValidNetwork, PlainPrefix;
    forall i | 0 <= i < |vs| ensures ValidNetwork(vs[i]) { PlainIsValid(vs[i]); }
  }

  function Addresses(texts: seq<string>): (servers: seq<IpAddr>)
    requires forall i :: 0 <= i < |texts| ==> Parse(texts[i]).Some?
    ensures |servers| == |texts|
  {
    seq(|texts|, i requires 0 <= i < |texts| => Parse(texts[i]).value)
  }

  function ServiceView(q: Client.ClientProfile): WireGuardProfile
    requires ClientValid(q)
  {
    WireGuardProfile(q.privateKey, q.addresses, Addresses(q.dnsServers), q.peerPublicKey, q.presharedKey,
      q.endpointHost,
      q.endpointPort, q.allowedIps, q.persistentKeepalive)
  }

  lemma ViewIsValid(q: Client.ClientProfile)
    requires ClientValid(q) && PlainNetworks(q)
    ensures ValidWireGuard(ServiceView(q)) && Denote(q.dnsServers, ServiceView(q).dnsServers)
    ensures ClientView(ServiceView(q), q.dnsServers) == q
  {
    hide ClientNetwork, ValidNetwork, PlainPrefix, ValidEndpointHost, ZeroKey, Parse;
    NetworksValid(q.addresses, 1, 8);
    NetworksValid(q.allowedIps, 1, 32);
  }

  lemma {:induction false} WrittenFits(vs: seq<string>)
    requires Client.BoundedStrings(vs).Ok? && forall i :: 0 <= i < |vs| ==> Utf8.IsAscii(vs[i])
    ensures FitsWire(vs)
  {
    hide Utf8.Encode, Client.CodeUnits, Utf8.IsAscii, Client.LowBytes;
    if vs != [] {
      WrittenFits(vs[1..]);
      AsciiUnits(vs[0]);
      forall i | 0 <= i < |vs| ensures |Utf8.Encode(vs[i])| <= 253 { if i > 0 { assert vs[i] == vs[1..][i - 1]; } }
    }
  }

  lemma WrittenTextsFit(q: Client.ClientProfile)
    requires ClientValid(q) && PlainNetworks(q) && Client.ProfileBytes(q).Ok?
    ensures TextsFit(ServiceView(q))
  {
    hide ClientNetwork, PlainPrefix, ValidEndpointHost, ZeroKey, Parse, Client.BoundedStrings, FitsWire,
         Client.BoundedString;
    NetworksValid(q.addresses, 1, 8);
    NetworksValid(q.allowedIps, 1, 32);
    forall i | 0 <= i < |q.addresses| ensures Utf8.IsAscii(q.addresses[i]) { NetworkAscii(q.addresses[i]); }
    forall i | 0 <= i < |q.allowedIps| ensures Utf8.IsAscii(q.allowedIps[i]) { NetworkAscii(q.allowedIps[i]); }
    WrittenFits(q.addresses);
    WrittenFits(q.allowedIps);
  }

  ////////// The gap //////////

  /** A client's import frame carries the ids and the profile bytes where the service looks for them. */
  lemma ImportFrameRead(opcode: Byte, requestId: string, operationId: string, profile: Client.Encoded)
    requires ValidIdentifier(requestId) && ValidIdentifier(operationId)
    requires Client.ImportFrame(opcode, requestId, operationId, profile).Ok?
    ensures var frame := Client.ImportFrame(opcode, requestId, operationId, profile).value;
      profile.Ok? && PutString(operationId).Ok? && PutString(requestId).Ok?
      && DecodeFrame(frame) == Ok((opcode, PutString(requestId).value + (PutString(operationId).value + profile.value)))
      && TakeId(PutString(requestId).value + (PutString(operationId).value + profile.value))
         == Ok((requestId, PutString(operationId).value + profile.value))
      && TakeId(PutString(operationId).value + profile.value) == Ok((operationId, profile.value))
  {
    hide PutString, Client.IdentifierBytes, TakeString, DecodeFrame, EncodeFrame, Client.Frame;
    SameIdentifier(requestId);
    SameIdentifier(operationId);
    PutStringAccepted(requestId);
    PutStringAccepted(operationId);
    var body := PutString(requestId).value + (PutString(operationId).value + profile.value);
    FrameOfBody(opcode, body);
    TakePutString(requestId, PutString(operationId).value + profile.value);
    TakePutString(operationId, profile.value);
  }

  lemma FrameOfBody(opcode: Byte, body: Bytes)
    requires Client.Frame(opcode, body).Ok?
    ensures DecodeFrame(Client.Frame(opcode, body).value) == Ok((opcode, body))
  {
    hide DecodeFrame;
    SameFrame(opcode, body);
    DecodeEncodedFrame(opcode, body);
  }

  /**
    Of the profiles the client takes for valid and can write, the service accepts exactly those with plain
    prefixes.
   */
  lemma ProfileGapExactly(q: Client.ClientProfile, requestId: string, operationId: string)
    requires ValidIdentifier(requestId) && ValidIdentifier(operationId) && ClientValid(q)
    requires Client.EncodeImport(requestId, operationId, q).Ok?
    ensures DecodeRequest(Client.EncodeImport(requestId, operationId, q).value).Ok? <==> PlainNetworks(q)
  {
    hide ClientValid, Client.ProfileBytes, Client.ImportFrame, DecodeFrame, TakeId, TakeProfile, PutString,
         ValidIdentifier, ValidWireGuard, Denote, TextsFit, PlainNetworks, TakeTwoIds, TakeAmneziaWg, TakeVless;
    ImportFrameRead(5, requestId, operationId, Client.ProfileBytes(q));
    if PlainNetworks(q) {
      ViewIsValid(q);
      WrittenTextsFit(q);
      ImportUnderstood(requestId, operationId, ServiceView(q), q.dnsServers);
    }
    var bytes := Client.ProfileBytes(q).value;
    if TakeProfile(bytes).Ok? && ValidWireGuard(TakeProfile(bytes).value.0) { ReadPlain(q); }
  }

  /**
    Of the configurations the client parses and can write, the service accepts exactly those whose networks
    all have plain prefix lengths: the client also takes blanks and a minus sign there.
   */
  lemma WireGuardGapExactly(source: string, requestId: string, operationId: string)
    requires ValidIdentifier(requestId) && ValidIdentifier(operationId) && ParseWireGuard(source).Ok?
    requires Client.EncodeImport(requestId, operationId, ParseWireGuard(source).value).Ok?
    ensures DecodeRequest(Client.EncodeImport(requestId, operationId, ParseWireGuard(source).value).value).Ok?
      <==> PlainNetworks(ParseWireGuard(source).value)
  {
    hide ParseWireGuard, ClientValid, Client.EncodeImport, DecodeRequest, ValidIdentifier, PlainNetworks;
    ParsedIsValid(source);
    ProfileGapExactly(ParseWireGuard(source).value, requestId, operationId);
  }

  lemma ReadPlain(q: Client.ClientProfile)
    requires ClientValid(q) && Client.ProfileBytes(q).Ok?
    requires TakeProfile(Client.ProfileBytes(q).value).Ok?
      && ValidWireGuard(TakeProfile(Client.ProfileBytes(q).value).value.0)
    ensures PlainNetworks(q)
  {
    hide TakeProfile, Client.ProfileBytes, ClientValid, PlainNetworks, ValidWireGuard;
    assert Client.ProfileBytes(q).value + [] == Client.ProfileBytes(q).value;
    BaseReadPlain(q, []);
  }

  ////////// AmneziaWG //////////

  predicate AmneziaWgClientValid(q: Client.ClientAmneziaWg) {
    ClientValid(q.wireGuard)
    && 0 <= q.jc <= 10 && 64 <= q.jmin <= q.jmax <= 1024
    && 0 <= q.s1 <= 64 && 0 <= q.s2 <= 64 && 0 <= q.s3 <= 64 && 0 <= q.s4 <= 32
    && ValidNumericRange(q.h1) && ValidNumericRange(q.h2) && ValidNumericRange(q.h3) && ValidNumericRange(q.h4)
    && |q.specialJunk| <= 5 && forall i :: 0 <= i < |q.specialJunk| ==> AcceptedValue(q.specialJunk[i])
  }

  predicate AllValuesAccepted(values: map<string, string>) { forall k :: k in values ==> AcceptedValue(values[k]) }

  lemma {:induction false} ScannedAccepted(lines: seq<string>, st: AwgState)
    requires AllValuesAccepted(st.values)
    ensures AwgScan(lines, st).Ok? ==> AllValuesAccepted(AwgScan(lines, st).value.values)
    decreases lines
  {
    hide AcceptedValue, Trim, IndexOf, AWG_KEYS;
    if lines != [] && AwgStep(st, lines[0]).Ok? { ScannedAccepted(lines[1..], AwgStep(st, lines[0]).value); }
  }

  lemma {:induction false} SpecialAccepted(values: map<string, string>, index: nat, missing: bool)
    requires AllValuesAccepted(values) && index <= 6
    ensures var r := Special(values, index, missing);
      r.Ok? ==> |r.value| <= 6 - index && forall i :: 0 <= i < |r.value| ==> AcceptedValue(r.value[i])
    decreases 6 - index
  {
    hide AcceptedValue, Dec;
    if index <= 5 {
      SpecialAccepted(values, index + 1, true);
      SpecialAccepted(values, index + 1, false);
    }
  }

  lemma RangeIsValid(value: string)
    ensures RangeText(value).Ok? ==> RangeText(value).value == value && ValidNumericRange(value)
  {
    hide Split, DecValue;
  }

  lemma AmneziaWgFinishedIsValid(st: AwgState)
    requires AllValuesAccepted(st.values)
    ensures AwgFinish(st).Ok? ==>
      AmneziaWgClientValid(AwgFinish(st).value)
        && ParseWireGuard(Join(st.kept, "\n")) == Ok(AwgFinish(st).value.wireGuard)
  {
    hide AcceptedValue, ParseWireGuard, TryParseInt, RangeText, ValidNumericRange, ClientValid, Special, Join;
    if AwgFinish(st).Ok? {
      SpecialAccepted(st.values, 1, false);
      ParsedIsValid(Join(st.kept, "\n"));
      RangeIsValid(st.values[REQUIRED_KEYS[7]]);
      RangeIsValid(st.values[REQUIRED_KEYS[8]]);
      RangeIsValid(st.values[REQUIRED_KEYS[9]]);
      RangeIsValid(st.values[REQUIRED_KEYS[10]]);
    }
  }

  lemma AmneziaWgParsedIsValid(source: string)
    ensures ParseAmneziaWg(source).Ok? ==> AmneziaWgClientValid(ParseAmneziaWg(source).value)
  {
    hide AmneziaWgClientValid, AwgFinish, AwgScan, SplitLines, Oversized, AcceptedValue;
    if ParseAmneziaWg(source).Ok? {
      ScannedAccepted(SplitLines(source), AWG_START);
      AmneziaWgFinishedIsValid(AwgScan(SplitLines(source), AWG_START).value);
    }
  }

  /** No special packet holds a C1 control character. */
  predicate PlainPackets(q: Client.ClientAmneziaWg) {
    forall i :: 0 <= i < |q.specialJunk| ==> PlainPacket(q.specialJunk[i])
  }

  predicate PlainPacket(v: string) { forall i :: 0 <= i < |v| ==> !(128 <= v[i] as int < 160) }

  function AmneziaWgServiceView(q: Client.ClientAmneziaWg): AmneziaWgProfile
    requires AmneziaWgClientValid(q)
  {
    AmneziaWgProfile(ServiceView(q.wireGuard), q.jc, q.jmin, q.jmax, q.s1, q.s2, q.s3, q.s4, q.h1, q.h2, q.h3, q.h4,
      q.specialJunk)
  }

  lemma PacketIsValid(v: string)
    requires AcceptedValue(v) && Client.LongString(v).Ok?
    ensures ValidLongString(v) <==> PlainPacket(v)
  {
  }

  lemma {:induction false} LongWritten(vs: seq<string>)
    requires Client.LongStrings(vs).Ok?
    ensures forall i :: 0 <= i < |vs| ==> Client.LongString(vs[i]).Ok?
  {
    hide Client.LongString;
    if vs != [] {
      LongWritten(vs[1..]);
      forall i | 0 <= i < |vs| ensures Client.LongString(vs[i]).Ok? { if i > 0 { assert vs[i] == vs[1..][i - 1]; } }
    }
  }

  lemma PacketsValid(vs: seq<string>)
    requires Client.LongStrings(vs).Ok? && forall i :: 0 <= i < |vs| ==> AcceptedValue(vs[i]) && PlainPacket(vs[i])
    ensures forall i :: 0 <= i < |vs| ==> ValidLongString(vs[i])
  {
    hide Client.LongString, AcceptedValue, PlainPacket, ValidLongString;
    LongWritten(vs);
    forall i | 0 <= i < |vs| ensures ValidLongString(vs[i]) { PacketIsValid(vs[i]); }
  }

  lemma AmneziaWgViewIsValid(q: Client.ClientAmneziaWg)
    requires AmneziaWgClientValid(q) && PlainNetworks(q.wireGuard) && PlainPackets(q) && Client.AmneziaWgBytes(q).Ok?
    ensures ValidAmneziaWg(AmneziaWgServiceView(q)) && AmneziaWgTextsFit(AmneziaWgServiceView(q))
    ensures ClientAmneziaWgView(AmneziaWgServiceView(q), q.wireGuard.dnsServers) == q
  {
    hide ClientValid, PlainNetworks, Client.ProfileBytes, Client.BoundedStrings, Client.LongStrings, ValidWireGuard,
         TextsFit,
         Denote, ValidNumericRange, AcceptedValue, PlainPacket, ValidLongString, FitsWire;
    ViewIsValid(q.wireGuard);
    WrittenTextsFit(q.wireGuard);
    PacketsValid(q.specialJunk);
    RangeAscii(q.h1);
    RangeAscii(q.h2);
    RangeAscii(q.h3);
    RangeAscii(q.h4);
    WrittenFits(Client.ClientHeaders(q));
    assert Headers(AmneziaWgServiceView(q)) == Client.ClientHeaders(q);
  }

  lemma {:induction false} NumbersReadBack(ns: seq<int>, rest: Bytes)
    ensures TakeNumbers(Client.U16All(ns) + rest, |ns|).Ok?
      && TakeNumbers(Client.U16All(ns) + rest, |ns|).value.1 == rest
  {
    hide Client.U16Bytes, TakeU16;
    if ns == [] {
      assert [] + rest == rest;
    } else {
      Assoc(Client.U16Bytes(ns[0]), Client.U16All(ns[1..]), rest);
      PortReadBack(ns[0], Client.U16All(ns[1..]) + rest);
      NumbersReadBack(ns[1..], rest);
    }
  }

  lemma LongReadBack(v: string, rest: Bytes)
    requires Client.LongString(v).Ok?
    ensures var r := TakeLong(Client.LongString(v).value + rest); r.Ok? ==> r.value == (v, rest) && PlainPacket(v)
  {
    hide LE.Put, Utf8.Encode, Utf8.Decode, LE.GetU16;
    var bs := Utf8.Encode(v);
    Assoc(LE.Put(|bs|, 2), bs, rest);
    TakePutU16(|bs|, bs + rest);
    TakeBytesPut(bs, rest);
    Utf8.DecodeEncode(v);
  }

  lemma {:induction false} LongAllReadBack(vs: seq<string>, rest: Bytes)
    requires Client.LongStrings(vs).Ok?
    ensures var r := TakeLongAll(Client.LongStrings(vs).value + rest, |vs|);
      r.Ok? ==> r.value == (vs, rest) && forall i :: 0 <= i < |vs| ==> PlainPacket(vs[i])
  {
    hide Client.LongString, TakeLong, PlainPacket;
    if vs == [] {
      assert [] + rest == rest;
    } else {
      Assoc(Client.LongString(vs[0]).value, Client.LongStrings(vs[1..]).value, rest);
      LongReadBack(vs[0], Client.LongStrings(vs[1..]).value + rest);
      LongAllReadBack(vs[1..], rest);
      if TakeLongAll(Client.LongStrings(vs).value + rest, |vs|).Ok? {
        assert [vs[0]] + vs[1..] == vs;
        forall i | 0 <= i < |vs| ensures PlainPacket(vs[i]) { if i > 0 { assert vs[i] == vs[1..][i - 1]; } }
      }
    }
  }

  lemma AmneziaWgReadPlain(q: Client.ClientAmneziaWg)
    requires AmneziaWgClientValid(q) && Client.AmneziaWgBytes(q).Ok?
    requires TakeAmneziaWg(Client.AmneziaWgBytes(q).value).Ok?
      && ValidAmneziaWg(TakeAmneziaWg(Client.AmneziaWgBytes(q).value).value.0)
    ensures PlainNetworks(q.wireGuard) && PlainPackets(q)
    ensures TakeAmneziaWg(Client.AmneziaWgBytes(q).value).value.0.specialJunk == q.specialJunk
  {
    hide TakeProfile, Client.ProfileBytes, Client.BoundedStrings, Client.LongStrings, Client.U16All, TakeNumbers,
         TakeBoundedAll,
         TakeLongAll, ValidNumericRange, ValidLongString, AcceptedValue, PlainPacket, Pairs, PlainNetworks,
           ValidWireGuard;
    var base, headers := Client.ProfileBytes(q.wireGuard).value, Client.BoundedStrings(Client.ClientHeaders(q)).value;
    var junk := Client.LongStrings(q.specialJunk).value;
    var e4 := Client.LowBytes([|q.specialJunk|]) + junk;
    var e3 := headers + e4;
    var e2 := Client.U16All(Client.ClientNumbers(q)) + e3;
    assert |q.wireGuard.addresses| < 256 && |q.wireGuard.dnsServers| < 256
      && |q.wireGuard.allowedIps| < 256 by { FewTexts(q.wireGuard); }
    ProfileReadBack(q.wireGuard, e2);
    NumbersReadBack(Client.ClientNumbers(q), e3);
    BoundedAllReadBack(Client.ClientHeaders(q), e4);
    OneLowByte(|q.specialJunk|);
    TakeBytePut(|q.specialJunk|, junk);
    assert junk + [] == junk;
    LongAllReadBack(q.specialJunk, []);
    BaseReadPlain(q.wireGuard, e2);
  }

  lemma FewTexts(q: Client.ClientProfile)
    requires ClientValid(q)
    ensures |q.addresses| < 256 && |q.dnsServers| < 256 && |q.allowedIps| < 256
  {
    hide ClientNetwork, Parse, ValidEndpointHost, ZeroKey;
  }

  lemma BaseReadPlain(q: Client.ClientProfile, rest: Bytes)
    requires ClientValid(q) && Client.ProfileBytes(q).Ok?
    requires TakeProfile(Client.ProfileBytes(q).value + rest).Ok?
    requires ValidWireGuard(TakeProfile(Client.ProfileBytes(q).value + rest).value.0)
    ensures PlainNetworks(q)
  {
    hide TakeProfile, Client.ProfileBytes, ClientNetwork, ValidNetwork, PlainPrefix, Received, ZeroKey,
         ValidEndpointHost, Parse;
    ProfileReadBack(q, rest);
    var p := TakeProfile(Client.ProfileBytes(q).value + rest).value.0;
    ReceivedNetworks(q.addresses, p.addresses, 1, 8);
    ReceivedNetworks(q.allowedIps, p.allowedIps, 1, 32);
  }

  /** The same for AmneziaWG, where the client also takes C1 control characters in special packets. */
  lemma AmneziaWgGapExactly(source: string, requestId: string, operationId: string)
    requires ValidIdentifier(requestId) && ValidIdentifier(operationId) && ParseAmneziaWg(source).Ok?
    requires Client.EncodeAmneziaWgImport(requestId, operationId, ParseAmneziaWg(source).value).Ok?
    ensures var q := ParseAmneziaWg(source).value;
      DecodeRequest(Client.EncodeAmneziaWgImport(requestId, operationId, q).value).Ok?
      <==> PlainNetworks(q.wireGuard) && PlainPackets(q)
  {
    hide ParseAmneziaWg, AmneziaWgClientValid, Client.AmneziaWgBytes, Client.ImportFrame, DecodeFrame, TakeId,
         TakeAmneziaWg,
         PutString, ValidIdentifier, ValidAmneziaWg, Denote, AmneziaWgTextsFit, PlainNetworks, PlainPackets, TakeTwoIds,
         TakeProfile, TakeVless;
    var q := ParseAmneziaWg(source).value;
    AmneziaWgParsedIsValid(source);
    ImportFrameRead(8, requestId, operationId, Client.AmneziaWgBytes(q));
    if PlainNetworks(q.wireGuard) && PlainPackets(q) {
      AmneziaWgViewIsValid(q);
      assert Denote(q.wireGuard.dnsServers, AmneziaWgServiceView(q).wireguard.dnsServers) by { ViewDenotes(q); }
      AmneziaWgImportUnderstood(requestId, operationId, AmneziaWgServiceView(q), q.wireGuard.dnsServers);
    }
    var bytes := Client.AmneziaWgBytes(q).value;
    if TakeAmneziaWg(bytes).Ok? && ValidAmneziaWg(TakeAmneziaWg(bytes).value.0) { AmneziaWgReadPlain(q); }
  }

  lemma ViewDenotes(q: Client.ClientAmneziaWg)
    requires AmneziaWgClientValid(q)
    ensures Denote(q.wireGuard.dnsServers, AmneziaWgServiceView(q).wireguard.dnsServers)
  {
    hide ClientNetwork, Parse, ValidEndpointHost, ZeroKey, ValidNumericRange, AcceptedValue;
  }
}
