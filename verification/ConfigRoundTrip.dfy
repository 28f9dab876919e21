/** The client's parsers read back exactly what the service's printers write. */
module ConfigRoundTrip {
  import opened Basics
  import opened Text
  import opened IpText
  import opened Contracts
  import opened ConfigText
  import opened ClientConfig
  import opened ConfigScan
  import opened ClientAgreement
  import WireCanonical
  import Base64
  import Client = ClientWire
  import Utf8
  import Wire

  ////////// Keys //////////

  predicate Letter(c: char) { 'A' <= c <= 'Z' || 'a' <= c <= 'z' || '0' <= c <= '9' }

  lemma WordIsPlain(k: string)
    requires k != "" && forall i :: 0 <= i < |k| ==> Letter(k[i])
    ensures PlainKey(k)
  {
  }

  lemma WgKeysPlain()
    ensures PlainKey("PrivateKey") && PlainKey("Address") && PlainKey("DNS") && PlainKey("PublicKey")
    ensures PlainKey("PresharedKey") && PlainKey("Endpoint") && PlainKey("AllowedIPs")
      && PlainKey("PersistentKeepalive")
  {
    hide PlainKey;
    WordIsPlain("PrivateKey");
    WordIsPlain("Address");
    WordIsPlain("DNS");
    WordIsPlain("PublicKey");
    WordIsPlain("PresharedKey");
    WordIsPlain("Endpoint");
    WordIsPlain("AllowedIPs");
    WordIsPlain("PersistentKeepalive");
  }

  lemma AwgKeysPlain()
    ensures forall i :: 0 <= i < 16 ==> PlainKey(AWG_KEYS[i])
  {
    hide PlainKey;
    forall i | 0 <= i < 16 ensures PlainKey(AWG_KEYS[i]) { WordIsPlain(AWG_KEYS[i]); }
  }

  /** Two numbers that tell the sixteen keys apart: first letter and last letter. */
  function Mark(k: string): int
    requires k != ""
  {
    k[0] as int * 1000 + k[|k| - 1] as int
  }

  lemma AwgKeysDistinct()
    ensures Distinct(AWG_KEYS)
  {
    forall i, j | 0 <= i < j < 16 ensures AWG_KEYS[i] != AWG_KEYS[j] {
      assert Mark(AWG_KEYS[i]) != Mark(AWG_KEYS[j]);
    }
  }

  lemma WgKeysAreNotAwg(k: string)
    requires k in INTERFACE_KEYS || k in PEER_KEYS
    ensures k !in AWG_KEYS
  {
    assert |k| == 3 || |k| >= 7;
    forall i | 0 <= i < 16 ensures AWG_KEYS[i] != k { assert |AWG_KEYS[i]| == 2 || |AWG_KEYS[i]| == 4; }
  }

  ////////// Values //////////

  /** Visible ASCII characters: neither blank nor control. */
  predicate SolidChar(c: char) { 33 <= c as int < 127 }

  predicate Solid(s: string) { s != "" && forall i :: 0 <= i < |s| ==> SolidChar(s[i]) }

  lemma SolidShape(s: string)
    requires Solid(s)
    ensures Trimmed(s) && Trim(s) == s && Printable(s) && Utf8.IsAscii(s)
  {
    TrimIdentity(s);
  }

  lemma SymbolIsSolid(c: char)
    requires Base64.IsSymbol(c)
    ensures SolidChar(c)
  {
  }

  lemma KeyText(k: SecretKey)
    ensures Solid(Base64.Encode(k)) && |Base64.Encode(k)| == 44
    ensures !ZeroKey(k) ==> DecodeKey(Base64.Encode(k)) == Ok(k)
  {
    hide Base64.Encode, Base64.IsSymbol;
    Base64.EncodedShape(k);
    forall i | 0 <= i < |Base64.Encode(k)| ensures SolidChar(Base64.Encode(k)[i]) {
      SymbolIsSolid(Base64.Encode(k)[i]);
    }
    Base64.RoundTrip(k);
  }

  lemma DecText(n: nat)
    ensures Solid(Dec(n)) && AllDigits(Dec(n))
    ensures n < 0x8000_0000_0000_0000 ==> TryParseInt(Dec(n)) == Some(n)
  {
    DecRoundTrip(n);
    SolidShape(Dec(n));
    assert IsDigit(Dec(n)[0]);
  }

  /** Rust's and Dart's number parsers agree on a network prefix. */
  lemma PrefixRead(prefix: string)
    requires ParseUnsigned(prefix, 256).Some?
    ensures '/' !in prefix && TryParseInt(prefix) == Some(ParseUnsigned(prefix, 256).value)
  {
    hide DecValue;
    var digits := if prefix[0] == '+' then prefix[1..] else prefix;
    assert '/' !in digits;
    assert Solid(prefix) by {
      forall i | 0 <= i < |prefix| ensures SolidChar(prefix[i]) {
        if prefix[0] == '+' && i > 0 { assert prefix[i] == digits[i - 1]; }
      }
    }
    SolidShape(prefix);
  }

  lemma NetworkText(s: string)
    requires ValidNetwork(s)
    ensures Solid(s) && ',' !in s && ClientNetwork(s)
  {
    hide Parse, ParseUnsigned, TryParseInt, IsNetworkChar;
    var cut := IndexOf(s, '/');
    var address, prefix := s[..cut], s[cut + 1..];
    PrefixRead(prefix);
    assert s == address + ['/'] + prefix;
    SplitHead(address, prefix, '/');
    SplitWhole(prefix, '/');
    assert Split(s, '/') == [address, prefix];
    NetworkChars(s);
    forall i | 0 <= i < |s| ensures SolidChar(s[i]) && s[i] != ',' { NetworkCharIsSolid(s[i]); }
  }

  lemma NetworkCharIsSolid(c: char)
    requires IsNetworkChar(c)
    ensures SolidChar(c) && c != ','
  {
  }

  lemma AddressText(a: IpAddr)
    ensures Solid(Print(a)) && ',' !in Print(a) && Parse(Print(a)) == Some(a)
  {
    PrintParse(a);
    ParsedChars(Print(a));
    forall i | 0 <= i < |Print(a)| ensures SolidChar(Print(a)[i]) { assert Print(a)[i] in Print(a); }
  }

  lemma HostText(s: string)
    requires ValidEndpointHost(s)
    ensures Solid(s) && '[' !in s && ']' !in s
    ensures if ':' in s then Parse(s).Some? && Parse(s).value.V6? else Parse(s).Some? || ValidHostname(s)
  {
    if Parse(s).Some? {
      ParsedChars(s);
      forall i | 0 <= i < |s| ensures SolidChar(s[i]) { assert s[i] in s; }
    } else {
      HostnameChars(s);
      forall i | 0 <= i < |s| ensures SolidChar(s[i]) { assert s[i] in s; }
    }
  }

  lemma RangeTextRead(h: string)
    requires ValidNumericRange(h)
    ensures Solid(h) && RangeText(h) == Ok(h)
  {
    RangeChars(h);
    forall i | 0 <= i < |h| ensures SolidChar(h[i]) { assert h[i] in h; }
  }

  lemma {:induction false} AfterLastOf(a: string, c: char, b: string)
    requires c !in b
    ensures AfterLast(a + [c] + b, c) == |a| + 1
    decreases |b|
  {
    var s := a + [c] + b;
    if b == "" {
      assert s[|s| - 1] == c;
    } else {
      assert s[..|s| - 1] == a + [c] + b[..|b| - 1];
      assert s[|s| - 1] == b[|b| - 1];
      AfterLastOf(a, c, b[..|b| - 1]);
    }
  }

  lemma PortRead(host: string, port: U16)
    requires port != 0
    ensures PortOf(host, Dec(port)) == Ok((host, port as int))
  {
    DecText(port);
  }

  lemma BracketedEndpoint(host: string, port: U16)
    requires port != 0 && ']' !in host && Parse(host).Some? && Parse(host).value.V6?
    ensures ParseEndpoint("[" + host + "]" + ":" + Dec(port)) == Ok((host, port as int))
  {
    hide Parse, Dec, TryParseInt, PortOf, IsIpChar;
    ParsedChars(host);
    DecText(port);
    var value := "[" + host + "]" + ":" + Dec(port);
    assert value == ("[" + host) + [']'] + (":" + Dec(port));
    IndexOfFirst("[" + host, ']', ":" + Dec(port));
    assert value[1..|host| + 1] == host && value[|host| + 3..] == Dec(port);
    assert value[|host| + 2] == ':';
    PortRead(host, port);
  }

  lemma PlainEndpoint(host: string, port: U16)
    requires port != 0 && host != "" && '[' !in host && (Parse(host).Some? || ValidHostname(host))
    ensures ParseEndpoint(host + ":" + Dec(port)) == Ok((host, port as int))
  {
    hide Parse, Dec, ValidHostname, TryParseInt, PortOf, Solid;
    DecText(port);
    var value := host + ":" + Dec(port);
    assert value == host + [':'] + Dec(port);
    DigitsHaveNoSeparator(Dec(port));
    AfterLastOf(host, ':', Dec(port));
    assert value[0] == host[0] && host[0] in host;
    assert value[..|host|] == host && value[|host| + 1..] == Dec(port);
    PortRead(host, port);
  }

  lemma EndpointRead(p: WireGuardProfile)
    requires ValidEndpointHost(p.endpointHost) && p.endpointPort != 0
    ensures Solid(EndpointText(p))
    ensures ParseEndpoint(EndpointText(p)) == Ok((p.endpointHost, p.endpointPort as int))
  {
    hide Parse, Dec, ValidHostname, ParseEndpoint;
    HostText(p.endpointHost);
    DecText(p.endpointPort);
    if ':' in p.endpointHost {
      BracketedEndpoint(p.endpointHost, p.endpointPort);
    } else {
      PlainEndpoint(p.endpointHost, p.endpointPort);
    }
  }

  ////////// Comma-separated lists //////////

  /** A piece of a list: solid text without a comma. */
  predicate Item(s: string) { Solid(s) && ',' !in s }

  lemma TrimAllBlank(x: string)
    ensures TrimAll(Split([' '] + x, ',')) == TrimAll(Split(x, ','))
  {
    hide Trim;
    var s := [' '] + x;
    assert s[1..] == x && s[0] == ' ';
    var parts := Split(x, ',');
    assert Split(s, ',') == [[' '] + parts[0]] + parts[1..];
    assert Split(s, ',')[1..] == parts[1..];
    SpaceIsSpace();
    TrimLeading(' ', parts[0]);
  }

  lemma {:induction false} CsvJoin(vs: seq<string>)
    requires vs != [] && forall i :: 0 <= i < |vs| ==> Item(vs[i])
    ensures TrimAll(Split(Join(vs, ", "), ',')) == vs
  {
    hide Trim;
    var v := vs[0];
    SolidShape(v);
    if |vs| == 1 {
      SplitWhole(v, ',');
      assert TrimAll([v]) == [v] + TrimAll([]) by { assert [v][1..] == []; }
    } else {
      var others := Join(vs[1..], ", ");
      assert Join(vs, ", ") == v + [','] + ([' '] + others);
      SplitHead(v, [' '] + others, ',');
      TrimAllBlank(others);
      CsvJoin(vs[1..]);
      var pieces := Split([' '] + others, ',');
      assert ([v] + pieces)[1..] == pieces;
    }
  }

  lemma {:induction false} JoinShape(vs: seq<string>)
    requires vs != [] && forall i :: 0 <= i < |vs| ==> Solid(vs[i])
    ensures var s := Join(vs, ", "); s != "" && Trimmed(s) && Printable(s)
  {
    SolidShape(vs[0]);
    if |vs| > 1 { JoinShape(vs[1..]); }
  }

  /** A joined list, as a field value, is read back as the list. */
  lemma ListRead(vs: seq<string>)
    requires vs != [] && forall i :: 0 <= i < |vs| ==> Item(vs[i])
    ensures var s := Join(vs, ", ");
      Trim(s) == s && s != "" && Printable(s) && CsvAll([s]) == vs
  {
    hide Solid, Join, Trim, Trimmed, Printable, Split, CsvAll;
    JoinShape(vs);
    TrimIdentity(Join(vs, ", "));
    CsvJoin(vs);
    CsvOne(Join(vs, ", "));
  }

  lemma CsvOne(s: string)
    ensures CsvAll([s]) == TrimAll(Split(s, ','))
  {
    hide Split, TrimAll;
    var fields := TrimAll(Split(s, ','));
    assert [s][1..] == [];
    assert CsvAll([]) == [];
    assert fields + [] == fields;
  }

  ////////// The WireGuard text //////////

  /** Networks the client reads back from a list, whether or not the service takes them. */
  predicate Listed(vs: seq<string>, minimum: nat, maximum: nat) {
    ClientNetworks(vs, minimum, maximum) && forall i :: 0 <= i < |vs| ==> Item(vs[i])
  }

  /** A profile whose text the client reads: it need not be valid for the service. */
  predicate Legible(p: WireGuardProfile) {
    !ZeroKey(p.privateKey) && !ZeroKey(p.peerPublicKey)
    && (p.presharedKey.Some? ==> !ZeroKey(p.presharedKey.value))
    && Listed(p.addresses, 1, 8)
    && |p.dnsServers| <= 8
    && ValidEndpointHost(p.endpointHost)
    && p.endpointPort != 0
    && Listed(p.allowedIps, 1, 32)
    && p.persistentKeepalive != Some(0)
  }

  lemma NetworksItems(vs: seq<string>, minimum: nat, maximum: nat)
    requires ValidNetworks(vs, minimum, maximum)
    ensures Listed(vs, minimum, maximum)
  {
    hide ValidNetwork, ClientNetwork, Item;
    forall i | 0 <= i < |vs| ensures Item(vs[i]) && ClientNetwork(vs[i]) { NetworkItem(vs[i]); }
  }

  lemma ValidIsLegible(p: WireGuardProfile)
    requires ValidWireGuard(p)
    ensures Legible(p)
  {
    hide ValidNetworks, Listed, ValidEndpointHost, ZeroKey;
    NetworksItems(p.addresses, 1, 8);
    NetworksItems(p.allowedIps, 1, 32);
  }

  lemma NetworkItem(s: string)
    requires ValidNetwork(s)
    ensures Item(s) && ClientNetwork(s)
  {
    hide ValidNetwork, ClientNetwork;
    NetworkText(s);
  }

  lemma DnsItems(dns: seq<IpAddr>)
    ensures forall i :: 0 <= i < |dns| ==> Item(Wire.PrintAll(dns)[i]) && Parse(Wire.PrintAll(dns)[i]) == Some(dns[i])
  {
    forall i | 0 <= i < |dns| ensures Item(Wire.PrintAll(dns)[i]) && Parse(Wire.PrintAll(dns)[i]) == Some(dns[i]) {
      AddressText(dns[i]);
    }
  }

  /** A field whose value is read back unchanged. */
  predicate Faithful(f: Field) { PlainKey(f.0) && Trim(f.1) == f.1 && f.1 != "" && Printable(f.1) }

  lemma SolidFaithful(k: string, v: string)
    requires PlainKey(k) && Solid(v)
    ensures Faithful((k, v))
  {
    SolidShape(v);
  }

  lemma InterfaceFaithful(p: WireGuardProfile)
    requires Legible(p)
    ensures forall i ::
      0 <= i < |InterfaceFields(p)| ==> Faithful(InterfaceFields(p)[i]) && InterfaceFields(p)[i].0 in INTERFACE_KEYS
    ensures Distinct(Keys(InterfaceFields(p)))
  {
    hide PlainKey, Base64.Encode, Join, Trim, Solid, Printable, ValidEndpointHost, Item, ZeroKey, Wire.PrintAll;
    WgKeysPlain();
    KeyText(p.privateKey);
    SolidFaithful("PrivateKey", Base64.Encode(p.privateKey));
    ListRead(p.addresses);
    if p.dnsServers != [] {
      DnsItems(p.dnsServers);
      WireCanonical.PrintedCount(p.dnsServers);
      ListRead(Wire.PrintAll(p.dnsServers));
    }
  }

  lemma PeerKeysDistinct(p: WireGuardProfile)
    ensures Distinct(Keys(PeerFields(p)))
  {
    hide Base64.Encode, Join, EndpointText, Dec;
    var ks := Keys(PeerFields(p));
    forall i, j | 0 <= i < j < |ks| ensures ks[i] != ks[j] { assert |ks[i]| != |ks[j]|; }
  }

  lemma KeyFaithful(k: string, key: SecretKey)
    requires PlainKey(k)
    ensures Faithful((k, Base64.Encode(key)))
  {
    hide PlainKey, Base64.Encode, Solid, Faithful;
    KeyText(key);
    SolidFaithful(k, Base64.Encode(key));
  }

  lemma ListFaithful(k: string, vs: seq<string>, minimum: nat, maximum: nat)
    requires PlainKey(k) && Listed(vs, minimum, maximum) && minimum > 0
    ensures Faithful((k, Join(vs, ", ")))
  {
    hide PlainKey, Join, Trim, Printable, Item, ClientNetwork, CsvAll;
    ListRead(vs);
  }

  predicate PeerReady(fs: seq<Field>) { forall i :: 0 <= i < |fs| ==> Faithful(fs[i]) && fs[i].0 in PEER_KEYS }

  lemma ReadyOne(f: Field)
    requires Faithful(f) && f.0 in PEER_KEYS
    ensures PeerReady([f])
  {
    hide Faithful;
  }

  lemma ReadyAppend(a: seq<Field>, b: seq<Field>)
    requires PeerReady(a) && PeerReady(b)
    ensures PeerReady(a + b)
  {
    hide Faithful;
  }

  lemma PeerKeysIn()
    ensures "PublicKey" in PEER_KEYS && "PresharedKey" in PEER_KEYS && "Endpoint" in PEER_KEYS
      && "AllowedIPs" in PEER_KEYS && "PersistentKeepalive" in PEER_KEYS
  {
  }

  lemma PeerFaithful(p: WireGuardProfile)
    requires Legible(p)
    ensures PeerReady(PeerFields(p)) && Distinct(Keys(PeerFields(p)))
  {
    hide PlainKey, Base64.Encode, Join, Solid, ValidEndpointHost, EndpointText, Dec, Listed, ZeroKey, Distinct, Keys,
         Faithful, PeerReady, PEER_KEYS;
    PeerKeysDistinct(p);
    WgKeysPlain();
    PeerKeysIn();
    var key := [("PublicKey", Base64.Encode(p.peerPublicKey))];
    KeyFaithful("PublicKey", p.peerPublicKey);
    ReadyOne(key[0]);
    var preshared := if p.presharedKey.Some? then [("PresharedKey", Base64.Encode(p.presharedKey.value))] else [];
    if p.presharedKey.Some? {
      KeyFaithful("PresharedKey", p.presharedKey.value);
      ReadyOne(preshared[0]);
    } else {
      ReadyNone();
    }
    ReadyAppend(key, preshared);
    var middle := [("Endpoint", EndpointText(p)), ("AllowedIPs", Join(p.allowedIps, ", "))];
    MiddleReady(p);
    ReadyAppend(key + preshared, middle);
    var keepalive := if p.persistentKeepalive.Some? then [("PersistentKeepalive", Dec(p.persistentKeepalive.value))]
      else [];
    if p.persistentKeepalive.Some? {
      DecText(p.persistentKeepalive.value);
      SolidFaithful("PersistentKeepalive", Dec(p.persistentKeepalive.value));
      ReadyOne(keepalive[0]);
    } else {
      ReadyNone();
    }
    ReadyAppend(key + preshared + middle, keepalive);
  }

  lemma ReadyNone()
    ensures PeerReady([])
  {
  }

  lemma MiddleReady(p: WireGuardProfile)
    requires Legible(p)
    ensures PeerReady([("Endpoint", EndpointText(p)), ("AllowedIPs", Join(p.allowedIps, ", "))])
  {
    hide PlainKey, Join, Solid, ValidEndpointHost, EndpointText, Listed, ZeroKey, Faithful, PeerReady, PEER_KEYS;
    WgKeysPlain();
    PeerKeysIn();
    var a, b := ("Endpoint", EndpointText(p)), ("AllowedIPs", Join(p.allowedIps, ", "));
    EndpointRead(p);
    SolidFaithful("Endpoint", EndpointText(p));
    ReadyOne(a);
    ListFaithful("AllowedIPs", p.allowedIps, 1, 32);
    ReadyOne(b);
    ReadyAppend([a], [b]);
    assert [a] + [b] == [a, b];
  }

  /** The parser's state at the end of a written configuration. */
  function Finished(p: WireGuardProfile): WgState {
    WgState(PutLists(map[], InterfaceFields(p)), PutLists(map[], PeerFields(p)), Some(PeerSection), 1, 1)
  }

  lemma ScanConfig(p: WireGuardProfile)
    requires Legible(p)
    ensures WgScan(ConfigLines(p, []), WG_START) == Ok(Finished(p))
  {
    hide WgStep, WgScan, PutLists, InterfaceFields, PeerFields, Legible, FieldLine, PlainKey, Trim, Printable;
    InterfaceFaithful(p);
    PeerFaithful(p);
    var i, e := FieldLines(InterfaceFields(p)), FieldLines(PeerFields(p));
    var s1 := WG_START.(interfaceCount := 1, current := Some(InterfaceSection));
    var s2 := s1.(interface := PutLists(map[], InterfaceFields(p)));
    var s3 := s2.(peerCount := 1, current := Some(PeerSection));
    assert ConfigLines(p, []) == ["[Interface]"] + (i + ([""] + (["[Peer]"] + e)));
    WgScanAppend(["[Interface]"], i + ([""] + (["[Peer]"] + e)), WG_START);
    WgScanOne("[Interface]", WG_START);
    WgHeaders(WG_START);
    WgScanAppend(i, [""] + (["[Peer]"] + e), s1);
    ScanInterface(InterfaceFields(p), s1);
    WgScanAppend([""], ["[Peer]"] + e, s2);
    WgScanOne("", s2);
    WgHeaders(s2);
    WgScanAppend(["[Peer]"], e, s2);
    WgScanOne("[Peer]", s2);
    ScanPeer(PeerFields(p), s3);
  }

  lemma InterfaceValues(p: WireGuardProfile)
    requires Legible(p)
    ensures var m := Finished(p).interface;
      Count(m, "PrivateKey") == 1 && DecodeKey(m["PrivateKey"][0]) == Ok(p.privateKey)
      && Csv(m, "Address") == p.addresses && Csv(m, "DNS") == Wire.PrintAll(p.dnsServers)
  {
    hide PlainKey, Base64.Encode, Join, Trim, Printable, ValidEndpointHost, Item, ZeroKey, Wire.PrintAll, DecodeKey,
         PutLists, CsvAll;
    var fs := InterfaceFields(p);
    InterfaceFaithful(p);
    PutListsAt(map[], fs, 0);
    KeyText(p.privateKey);
    PutListsAt(map[], fs, 1);
    ListRead(p.addresses);
    WireCanonical.PrintedCount(p.dnsServers);
    if p.dnsServers != [] {
      PutListsAt(map[], fs, 2);
      DnsItems(p.dnsServers);
      ListRead(Wire.PrintAll(p.dnsServers));
    } else {
      assert "DNS" !in Keys(fs) by { assert |"DNS"| == 3; }
      PutListsKeeps(map[], fs, "DNS");
    }
  }

  lemma PeerKeyValues(p: WireGuardProfile)
    requires Legible(p)
    ensures var m := Finished(p).peer;
      Count(m, "PublicKey") == 1 && DecodeKey(m["PublicKey"][0]) == Ok(p.peerPublicKey)
      && (if p.presharedKey.Some? then
        Count(m, "PresharedKey") == 1 && DecodeKey(m["PresharedKey"][0]) == Ok(p.presharedKey.value)
          else Count(m, "PresharedKey") == 0)
  {
    hide PlainKey, Base64.Encode, Join, Trim, Printable, ValidEndpointHost, ZeroKey, DecodeKey, PutLists,
         EndpointText, Dec, ValidNetworks;
    var fs := PeerFields(p);
    PeerFaithful(p);
    PutListsAt(map[], fs, 0);
    KeyText(p.peerPublicKey);
    if p.presharedKey.Some? {
      PutListsAt(map[], fs, 1);
      KeyText(p.presharedKey.value);
    } else {
      assert "PresharedKey" !in Keys(fs) by { assert |"PresharedKey"| == 12; }
      PutListsKeeps(map[], fs, "PresharedKey");
    }
  }

  lemma PeerValues(p: WireGuardProfile)
    requires Legible(p)
    ensures var m := Finished(p).peer;
      Count(m, "Endpoint") == 1 && ParseEndpoint(m["Endpoint"][0]) == Ok((p.endpointHost, p.endpointPort as int))
      && Csv(m, "AllowedIPs") == p.allowedIps
      && Count(m, "PersistentKeepalive") <= 1
      && ParseKeepalive(m) == Ok(p.persistentKeepalive)
  {
    hide PlainKey, Base64.Encode, Join, Trim, Printable, ValidEndpointHost, ZeroKey, PutLists, EndpointText,
         Dec, ParseEndpoint, Item, CsvAll, TryParseInt;
    var fs := PeerFields(p);
    PeerFaithful(p);
    var at := if p.presharedKey.Some? then 2 else 1;
    PutListsAt(map[], fs, at);
    EndpointRead(p);
    PutListsAt(map[], fs, at + 1);
    ListRead(p.allowedIps);
    if p.persistentKeepalive.Some? {
      PutListsAt(map[], fs, at + 2);
      DecText(p.persistentKeepalive.value);
    } else {
      assert "PersistentKeepalive" !in Keys(fs) by { assert |"PersistentKeepalive"| == 19; }
      PutListsKeeps(map[], fs, "PersistentKeepalive");
    }
  }

  lemma FinishConfig(p: WireGuardProfile)
    requires Legible(p)
    ensures WgFinish(Finished(p)) == Ok(ClientView(p, Wire.PrintAll(p.dnsServers)))
  {
    hide Finished, DecodeKey, ParseEndpoint, ParseKeepalive, Csv, Count, ClientNetwork, ValidNetwork, ValidEndpointHost,
         ZeroKey, Wire.PrintAll, Parse, Item;
    assert Finished(p).interfaceCount == 1 && Finished(p).peerCount == 1 by { FinishedCounts(p); }
    InterfaceValues(p);
    PeerKeyValues(p);
    PeerValues(p);
    DnsItems(p.dnsServers);
    WireCanonical.PrintedCount(p.dnsServers);
  }

  lemma FinishedCounts(p: WireGuardProfile)
    ensures Finished(p).interfaceCount == 1 && Finished(p).peerCount == 1
  {
  }

  ////////// No line holds a control character //////////

  lemma PrintableLine(s: string)
    requires Printable(s)
    ensures NoEol(s) && '\0' !in s
  {
  }

  lemma FieldLinePrintable(f: Field)
    requires PlainKey(f.0) && Printable(f.1)
    ensures Printable(FieldLine(f))
  {
  }

  lemma FieldLinesPrintable(fs: seq<Field>)
    requires forall i :: 0 <= i < |fs| ==> PlainKey(fs[i].0) && Printable(fs[i].1)
    ensures forall i :: 0 <= i < |fs| ==> Printable(FieldLines(fs)[i])
  {
    hide PlainKey, Printable, FieldLine;
    forall i | 0 <= i < |fs| ensures Printable(FieldLines(fs)[i]) { FieldLinePrintable(fs[i]); }
  }

  lemma ConfigPrintable(p: WireGuardProfile, extra: seq<Field>)
    requires Legible(p)
    requires forall i :: 0 <= i < |extra| ==> PlainKey(extra[i].0) && Printable(extra[i].1)
    ensures forall i :: 0 <= i < |ConfigLines(p, extra)| ==> Printable(ConfigLines(p, extra)[i])
  {
    hide PlainKey, Printable, FieldLine, InterfaceFields, PeerFields, FieldLines, Legible, Trim;
    InterfaceFaithful(p);
    PeerFaithful(p);
    FieldLinesPrintable(InterfaceFields(p));
    FieldLinesPrintable(extra);
    FieldLinesPrintable(PeerFields(p));
    HeadersPrintable();
  }

  lemma HeadersPrintable()
    ensures Printable("[Interface]") && Printable("") && Printable("[Peer]")
  {
  }

  lemma {:induction false} CrLfNoZero(lines: seq<string>)
    requires forall i :: 0 <= i < |lines| ==> Printable(lines[i])
    ensures '\0' !in CrLf(lines)
  {
    hide Printable;
    if lines != [] {
      PrintableLine(lines[0]);
      CrLfNoZero(lines[1..]);
    }
  }

  /** A printable configuration is refused exactly for its length, and otherwise cut into its lines. */
  lemma ConfigCut(lines: seq<string>)
    requires forall i :: 0 <= i < |lines| ==> Printable(lines[i])
    ensures SplitLines(CrLf(lines)) == lines
    ensures Oversized(CrLf(lines)) <==> Units(CrLf(lines)) > 65536
  {
    hide Printable, NoEol;
    forall i | 0 <= i < |lines| ensures NoEol(lines[i]) { PrintableLine(lines[i]); }
    CrLfSplits(lines);
    CrLfNoZero(lines);
  }

  /** The text of a legible profile is read back unless it is longer than the parser's limit. */
  lemma LegibleParsed(p: WireGuardProfile)
    requires Legible(p)
    ensures ParseWireGuard(WireGuardText(p)) ==
      if Units(WireGuardText(p)) <= 65536 then Ok(ClientView(p, Wire.PrintAll(p.dnsServers)))
        else Err(ConfigError.InvalidProfile)
  {
    hide Legible, ConfigLines, CrLf, SplitLines, WgScan, WgFinish, Finished, Oversized, Units, Printable;
    ConfigPrintable(p, []);
    ConfigCut(ConfigLines(p, []));
    ScanConfig(p);
    FinishConfig(p);
  }

  /** The WireGuard text is read back as the profile unless it is longer than the parser's limit. */
  lemma WireGuardRoundTrip(p: WireGuardProfile)
    requires ValidWireGuard(p)
    ensures ParseWireGuard(WireGuardText(p)) ==
      if Units(WireGuardText(p)) <= 65536 then Ok(ClientView(p, Wire.PrintAll(p.dnsServers)))
        else Err(ConfigError.InvalidProfile)
  {
    hide ValidWireGuard, Legible, ParseWireGuard, WireGuardText, Units;
    ValidIsLegible(p);
    LegibleParsed(p);
  }

  ////////// The AmneziaWG text //////////

  /** The same for AmneziaWG: special packets may hold any characters but the C0 controls. */
  predicate LegibleAmneziaWg(p: AmneziaWgProfile) {
    Legible(p.wireguard)
    && p.jc <= 10 && 64 <= p.jmin <= 1024 && 64 <= p.jmax <= 1024 && p.jmin <= p.jmax
    && p.s1 <= 64 && p.s2 <= 64 && p.s3 <= 64 && p.s4 <= 32 && |p.specialJunk| <= 5
    && ValidNumericRange(p.h1) && ValidNumericRange(p.h2) && ValidNumericRange(p.h3) && ValidNumericRange(p.h4)
    && forall i :: 0 <= i < |p.specialJunk| ==> LegiblePacket(p.specialJunk[i])
  }

  predicate LegiblePacket(v: string) { |Utf8.Encode(v)| <= 4096 && Printable(v) }

  lemma ValidAmneziaWgIsLegible(p: AmneziaWgProfile)
    requires ValidAmneziaWg(p)
    ensures LegibleAmneziaWg(p)
  {
    hide ValidWireGuard, Legible, ValidNumericRange;
    ValidIsLegible(p.wireguard);
  }

  lemma OneDigit(n: nat)
    requires 1 <= n <= 5
    ensures "I" + Dec(n) == ["I1", "I2", "I3", "I4", "I5"][n - 1]
  {
  }

  lemma FieldKeys(p: AmneziaWgProfile)
    requires |p.specialJunk| <= 5
    ensures |AmneziaWgFields(p)| == 11 + |p.specialJunk|
    ensures Keys(AmneziaWgFields(p)) == AWG_KEYS[..11 + |p.specialJunk|]
  {
    hide Dec;
    var fs := AmneziaWgFields(p);
    forall i | 0 <= i < |fs| ensures fs[i].0 == AWG_KEYS[i] {
      if i >= 11 { OneDigit(i - 10); }
    }
  }

  lemma FieldsDistinct(p: AmneziaWgProfile)
    requires |p.specialJunk| <= 5
    ensures Distinct(Keys(AmneziaWgFields(p)))
    ensures forall i :: 0 <= i < |AmneziaWgFields(p)| ==>
      AmneziaWgFields(p)[i].0 == AWG_KEYS[i] && PlainKey(AmneziaWgFields(p)[i].0) && AmneziaWgFields(p)[i].0 in AWG_KEYS
  {
    hide PlainKey, AmneziaWgFields;
    FieldKeys(p);
    AwgKeysDistinct();
    AwgKeysPlain();
    var fs := AmneziaWgFields(p);
    forall i | 0 <= i < |fs| ensures fs[i].0 == AWG_KEYS[i] { assert Keys(fs)[i] == fs[i].0; }
  }

  /** Where the fields of an AmneziaWG profile stand among its lines. */
  lemma FieldAt(p: AmneziaWgProfile)
    ensures var fs := AmneziaWgFields(p);
      fs[0].1 == Dec(p.jc) && fs[1].1 == Dec(p.jmin) && fs[2].1 == Dec(p.jmax) && fs[3].1 == Dec(p.s1)
      && fs[4].1 == Dec(p.s2) && fs[5].1 == Dec(p.s3) && fs[6].1 == Dec(p.s4)
      && fs[7].1 == p.h1 && fs[8].1 == p.h2 && fs[9].1 == p.h3 && fs[10].1 == p.h4
      && forall j :: 0 <= j < |p.specialJunk| ==> fs[11 + j].1 == p.specialJunk[j]
  {
    hide Dec;
  }

  lemma FieldsPrintable(p: AmneziaWgProfile)
    requires LegibleAmneziaWg(p)
    ensures forall i :: 0 <= i < |AmneziaWgFields(p)| ==> Printable(AmneziaWgFields(p)[i].1)
  {
    hide AmneziaWgFields, Dec, Solid, ValidNumericRange, Legible;
    FieldKeys(p);
    FieldAt(p);
    NumbersSolid(p);
    forall i | 0 <= i < |AmneziaWgFields(p)| ensures Printable(AmneziaWgFields(p)[i].1) {
      if i < 11 { SolidShape(AmneziaWgFields(p)[i].1); }
        else { assert AmneziaWgFields(p)[i].1 == p.specialJunk[i - 11]; }
    }
  }

  lemma NumbersSolid(p: AmneziaWgProfile)
    requires LegibleAmneziaWg(p)
    ensures forall i :: 0 <= i < 11 ==> Solid(AmneziaWgFields(p)[i].1)
  {
    hide AmneziaWgFields, Dec, Solid, ValidNumericRange, Legible, LegiblePacket;
    FieldAt(p);
    SolidNumber(p.jc);
    SolidNumber(p.jmin);
    SolidNumber(p.jmax);
    SolidNumber(p.s1);
    SolidNumber(p.s2);
    SolidNumber(p.s3);
    SolidNumber(p.s4);
    SolidRange(p.h1);
    SolidRange(p.h2);
    SolidRange(p.h3);
    SolidRange(p.h4);
  }

  lemma SolidNumber(n: nat)
    ensures Solid(Dec(n))
  {
    DecText(n);
  }

  lemma SolidRange(h: string)
    requires ValidNumericRange(h)
    ensures Solid(h)
  {
    RangeTextRead(h);
  }

  lemma ShortDec(n: U16)
    ensures AcceptedValue(Trim(Dec(n)))
  {
    DecText(n);
    DecLength(n);
    SolidAccepted(Dec(n));
  }

  lemma SolidAccepted(s: string)
    requires Solid(s)
    ensures AcceptedValue(Trim(s)) <==> |s| <= 4096
  {
    SolidShape(s);
    UnitsBound(s);
  }

  predicate ShortHeaders(p: AmneziaWgProfile) {
    |p.h1| <= 4096 && |p.h2| <= 4096 && |p.h3| <= 4096 && |p.h4| <= 4096
  }

  lemma NumberFieldsAccepted(p: AmneziaWgProfile)
    requires LegibleAmneziaWg(p)
    ensures (forall i :: 0 <= i < 11 ==> AcceptedValue(Trim(AmneziaWgFields(p)[i].1))) <==> ShortHeaders(p)
  {
    hide AmneziaWgFields, Dec, Solid, ValidNumericRange, Legible, LegiblePacket, AcceptedValue, Trim;
    FieldAt(p);
    FieldKeys(p);
    var fs := AmneziaWgFields(p);
    SolidRange(p.h1);
    SolidRange(p.h2);
    SolidRange(p.h3);
    SolidRange(p.h4);
    SolidAccepted(p.h1);
    SolidAccepted(p.h2);
    SolidAccepted(p.h3);
    SolidAccepted(p.h4);
    ShortDec(p.jc);
    ShortDec(p.jmin);
    ShortDec(p.jmax);
    ShortDec(p.s1);
    ShortDec(p.s2);
    ShortDec(p.s3);
    ShortDec(p.s4);
    assert AcceptedValue(Trim(fs[7].1)) <==> |p.h1| <= 4096;
    assert AcceptedValue(Trim(fs[8].1)) <==> |p.h2| <= 4096;
    assert AcceptedValue(Trim(fs[9].1)) <==> |p.h3| <= 4096;
    assert AcceptedValue(Trim(fs[10].1)) <==> |p.h4| <= 4096;
  }

  predicate TrimmedJunk(p: AmneziaWgProfile) { forall j :: 0 <= j < |p.specialJunk| ==> Trimmed(p.specialJunk[j]) }

  lemma JunkAccepted(v: string)
    requires ValidLongString(v) && Trimmed(v)
    ensures AcceptedValue(Trim(v))
  {
    TrimIdentity(v);
    UnitsBound(v);
  }

  lemma FieldsAccepted(p: AmneziaWgProfile)
    requires ValidAmneziaWg(p)
    ensures ShortHeaders(p) && TrimmedJunk(p) ==> AllAccepted(AmneziaWgFields(p))
    ensures AllAccepted(AmneziaWgFields(p)) ==> ShortHeaders(p)
  {
    hide AmneziaWgFields, Dec, ValidNumericRange, ValidWireGuard, LegibleAmneziaWg, ValidLongString, AcceptedValue,
         Trim, ShortHeaders, Trimmed;
    ValidAmneziaWgIsLegible(p);
    FieldKeys(p);
    FieldAt(p);
    NumberFieldsAccepted(p);
    var fs := AmneziaWgFields(p);
    if ShortHeaders(p) && TrimmedJunk(p) {
      forall i | 0 <= i < |fs| ensures AcceptedValue(Trim(fs[i].1)) {
        if i >= 11 {
          JunkAccepted(p.specialJunk[i - 11]);
          assert fs[11 + (i - 11)].1 == p.specialJunk[i - 11];
        }
      }
    }
  }

  function Values(p: AmneziaWgProfile): map<string, string> { PutFields(map[], AmneziaWgFields(p)) }

  lemma ScanAmneziaWg(p: AmneziaWgProfile)
    requires LegibleAmneziaWg(p)
    ensures AwgScan(ConfigLines(p.wireguard, AmneziaWgFields(p)), AWG_START) ==
      if AllAccepted(AmneziaWgFields(p)) then Ok(AwgState(Values(p), ConfigLines(p.wireguard, []), false))
      else Err(ConfigError.InvalidProfile)
  {
    hide AwgStep, AwgScan, PutFields, InterfaceFields, PeerFields, AmneziaWgFields, Legible, FieldLine, PlainKey,
         Trim, Printable, AllAccepted, Distinct, AWG_KEYS, ValidNumericRange, LegiblePacket;
    var base, fs := p.wireguard, AmneziaWgFields(p);
    InterfaceFaithful(base);
    PeerFaithful(base);
    FieldsDistinct(p);
    var i, f, e := FieldLines(InterfaceFields(base)), FieldLines(fs), FieldLines(PeerFields(base));
    var tail := [""] + (["[Peer]"] + e);
    assert ConfigLines(base, fs) == ["[Interface]"] + (i + (f + tail));
    var s1 := AwgState(map[], ["[Interface]"], true);
    AwgScanAppend(["[Interface]"], i + (f + tail), AWG_START);
    AwgScanOne("[Interface]", AWG_START);
    KeptHeaders(AWG_START);
    assert [] + ["[Interface]"] == ["[Interface]"];
    var s2 := s1.(kept := ["[Interface]"] + i);
    AwgScanAppend(i, f + tail, s1);
    OtherKeys(InterfaceFields(base));
    KeptFields(InterfaceFields(base), s1);
    AwgScanAppend(f, tail, s2);
    ScanFields(fs, s2);
    if AllAccepted(fs) {
      var s3 := s2.(values := Values(p));
      AwgScanAppend([""], ["[Peer]"] + e, s3);
      AwgScanOne("", s3);
      KeptHeaders(s3);
      var s4 := s3.(kept := s3.kept + [""]);
      AwgScanAppend(["[Peer]"], e, s4);
      AwgScanOne("[Peer]", s4);
      KeptHeaders(s4);
      var s5 := s4.(kept := s4.kept + ["[Peer]"], inInterface := false);
      OtherKeys(PeerFields(base));
      KeptFields(PeerFields(base), s5);
      assert s5.kept + e == ConfigLines(base, []);
    }
  }

  lemma OtherKeys(fs: seq<Field>)
    requires forall i :: 0 <= i < |fs| ==> fs[i].0 in INTERFACE_KEYS || fs[i].0 in PEER_KEYS
    ensures forall i :: 0 <= i < |fs| ==> fs[i].0 !in AWG_KEYS
  {
    hide AWG_KEYS;
    forall i | 0 <= i < |fs| ensures fs[i].0 !in AWG_KEYS { WgKeysAreNotAwg(fs[i].0); }
  }

  /** What the parser has collected under each key. */
  lemma CollectedValues(p: AmneziaWgProfile)
    requires |p.specialJunk| <= 5
    ensures forall i :: 0 <= i < |AmneziaWgFields(p)| ==>
      AWG_KEYS[i] in Values(p) && Values(p)[AWG_KEYS[i]] == Trim(AmneziaWgFields(p)[i].1)
    ensures forall i :: |AmneziaWgFields(p)| <= i < 16 ==> AWG_KEYS[i] !in Values(p)
  {
    hide AmneziaWgFields, Trim, PutFields, PlainKey;
    FieldsDistinct(p);
    FieldKeys(p);
    AwgKeysDistinct();
    var fs := AmneziaWgFields(p);
    forall i | 0 <= i < |fs| ensures AWG_KEYS[i] in Values(p) && Values(p)[AWG_KEYS[i]] == Trim(fs[i].1) {
      PutFieldsAt(map[], fs, i);
    }
    forall i | |fs| <= i < 16 ensures AWG_KEYS[i] !in Values(p) {
      assert AWG_KEYS[i] !in Keys(fs);
      PutFieldsKeeps(map[], fs, AWG_KEYS[i]);
    }
  }

  function TrimEach(vs: seq<string>): (ts: seq<string>)
    ensures |ts| == |vs|
  {
    seq(|vs|, i requires 0 <= i < |vs| => Trim(vs[i]))
  }

  function JunkKey(index: nat): string { "I" + Dec(index) }

  lemma {:induction false} SpecialFrom(values: map<string, string>, ws: seq<string>, index: nat, missing: bool)
    requires |ws| <= 5 && 1 <= index <= 6 && (missing ==> index > |ws|)
    requires forall j :: 1 <= j <= |ws| ==> JunkKey(j) in values && values[JunkKey(j)] == ws[j - 1]
    requires forall j :: |ws| < j <= 5 ==> JunkKey(j) !in values
    ensures Special(values, index, missing) == Ok(if index <= |ws| then ws[index - 1..] else [])
    decreases 6 - index
  {
    hide Dec;
    if index <= 5 {
      var key := JunkKey(index);
      if index <= |ws| {
        SpecialFrom(values, ws, index + 1, false);
        assert key in values && values[key] == ws[index - 1];
        assert ws[index - 1..] == [ws[index - 1]] + ws[index..];
      } else {
        assert key !in values;
        SpecialFrom(values, ws, index + 1, true);
      }
    }
  }

  lemma SpecialRead(p: AmneziaWgProfile)
    requires |p.specialJunk| <= 5
    ensures Special(Values(p), 1, false) == Ok(TrimEach(p.specialJunk))
  {
    hide AmneziaWgFields, Trim, Values, Dec, AWG_KEYS;
    CollectedValues(p);
    FieldKeys(p);
    FieldAt(p);
    var ws := TrimEach(p.specialJunk);
    forall j | 1 <= j <= 5
      ensures if j <= |ws| then JunkKey(j) in Values(p) && Values(p)[JunkKey(j)] == ws[j - 1]
        else JunkKey(j) !in Values(p)
    {
      SpecialKey(j);
      if j <= |ws| { assert AmneziaWgFields(p)[11 + (j - 1)].1 == p.specialJunk[j - 1]; }
    }
    SpecialFrom(Values(p), ws, 1, false);
    if ws != [] { assert ws[0..] == ws; }
  }

  lemma SpecialKey(j: nat)
    requires 1 <= j <= 5
    ensures |AWG_KEYS| == 16 && AWG_KEYS[10 + j] == JunkKey(j)
  {
    OneDigit(j);
  }

  lemma NumberRead(n: U16, minimum: int, maximum: int)
    requires minimum <= n <= maximum
    ensures IntegerIn(Trim(Dec(n)), minimum, maximum) == Ok(n as int)
  {
    DecText(n);
    SolidShape(Dec(n));
  }

  lemma HeaderRead(h: string)
    requires ValidNumericRange(h)
    ensures RangeText(Trim(h)) == Ok(h)
  {
    hide RangeText;
    RangeTextRead(h);
    SolidShape(h);
  }

  /** The client's view of the profile with the special packets it read. */
  function ReadView(p: AmneziaWgProfile): Client.ClientAmneziaWg {
    ClientAmneziaWgView(p, Wire.PrintAll(p.wireguard.dnsServers)).(specialJunk := TrimEach(p.specialJunk))
  }

  lemma RequiredPresent(p: AmneziaWgProfile)
    requires |p.specialJunk| <= 5
    ensures HasAll(Values(p), REQUIRED_KEYS)
    ensures forall i :: 0 <= i < 11 ==> Values(p)[REQUIRED_KEYS[i]] == Trim(AmneziaWgFields(p)[i].1)
  {
    hide AmneziaWgFields, Trim, Values;
    CollectedValues(p);
    FieldKeys(p);
    forall i | 0 <= i < 11 ensures REQUIRED_KEYS[i] == AWG_KEYS[i] {}
  }

  lemma FinishAmneziaWg(p: AmneziaWgProfile)
    requires LegibleAmneziaWg(p) && Units(Join(ConfigLines(p.wireguard, []), "\n")) <= 65536
    ensures AwgFinish(AwgState(Values(p), ConfigLines(p.wireguard, []), false)) == Ok(ReadView(p))
  {
    hide AmneziaWgFields, Trim, Values, Dec, IntegerIn, RangeText, ParseWireGuard, Special, Legible,
         ValidNumericRange, LegiblePacket, ConfigLines, Units, Wire.PrintAll, HasAll, REQUIRED_KEYS;
    RequiredPresent(p);
    FieldAt(p);
    NumberRead(p.jc, 0, 10);
    NumberRead(p.jmin, 64, 1024);
    NumberRead(p.jmax, 64, 1024);
    SpecialRead(p);
    KeptParses(p.wireguard);
    NumberRead(p.s1, 0, 64);
    NumberRead(p.s2, 0, 64);
    NumberRead(p.s3, 0, 64);
    NumberRead(p.s4, 0, 32);
    HeaderRead(p.h1);
    HeaderRead(p.h2);
    HeaderRead(p.h3);
    HeaderRead(p.h4);
    RequiredCount();
  }

  lemma RequiredCount()
    ensures |REQUIRED_KEYS| == 11
  {
  }

  /** The kept lines, joined again, are the plain WireGuard configuration. */
  lemma KeptParses(p: WireGuardProfile)
    requires Legible(p) && Units(Join(ConfigLines(p, []), "\n")) <= 65536
    ensures ParseWireGuard(Join(ConfigLines(p, []), "\n")) == Ok(ClientView(p, Wire.PrintAll(p.dnsServers)))
  {
    hide Legible, ConfigLines, SplitLines, WgScan, WgFinish, Finished, Units, Printable, NoEol, Wire.PrintAll;
    var lines := ConfigLines(p, []);
    ConfigPrintable(p, []);
    forall i | 0 <= i < |lines| ensures NoEol(lines[i]) { PrintableLine(lines[i]); }
    LastLine(p);
    JoinSplits(lines);
    JoinNoZero(lines);
    ScanConfig(p);
    FinishConfig(p);
  }

  lemma LastLine(p: WireGuardProfile)
    ensures var lines := ConfigLines(p, []); lines != [] && lines[|lines| - 1] != ""
  {
    hide Base64.Encode, Join, EndpointText, Dec;
    var e := FieldLines(PeerFields(p));
    assert ConfigLines(p, [])[|ConfigLines(p, [])| - 1] == e[|e| - 1];
    assert |e[|e| - 1]| >= 3;
  }

  lemma {:induction false} JoinNoZero(lines: seq<string>)
    requires forall i :: 0 <= i < |lines| ==> Printable(lines[i])
    ensures '\0' !in Join(lines, "\n")
  {
    hide Printable;
    if lines != [] {
      PrintableLine(lines[0]);
      JoinNoZero(lines[1..]);
    }
  }

  lemma KeptShorter(p: WireGuardProfile, extra: seq<Field>)
    ensures Units(Join(ConfigLines(p, []), "\n")) <= Units(CrLf(ConfigLines(p, extra)))
  {
    hide Units, TotalUnits, CrLf, Join, InterfaceFields, PeerFields, FieldLines;
    var head, tail := ["[Interface]"] + FieldLines(InterfaceFields(p)), ["", "[Peer]"] + FieldLines(PeerFields(p));
    NoFields();
    assert ConfigLines(p, []) == head + tail;
    assert ConfigLines(p, extra) == head + (FieldLines(extra) + tail);
    JoinUnits(ConfigLines(p, []));
    CrLfUnits(ConfigLines(p, extra));
    TotalUnitsAppend(head, tail, 2);
    TotalUnitsAppend(head, FieldLines(extra) + tail, 2);
    TotalUnitsAppend(FieldLines(extra), tail, 2);
  }

  lemma NoFields()
    ensures FieldLines([]) == []
  {
  }

  /** What the client's parser makes of the text of a legible profile, in every case. */
  lemma LegibleAmneziaWgParsed(p: AmneziaWgProfile)
    requires LegibleAmneziaWg(p)
    ensures ParseAmneziaWg(AmneziaWgText(p)) ==
      if Units(AmneziaWgText(p)) <= 65536 && AllAccepted(AmneziaWgFields(p)) then Ok(ReadView(p))
        else Err(ConfigError.InvalidProfile)
  {
    hide ConfigLines, CrLf, SplitLines, AwgScan, AwgFinish, Units, Printable, AmneziaWgFields, PlainKey,
         AllAccepted, Values, Legible, ValidNumericRange, LegiblePacket, Join, ReadView, Oversized, Distinct,
           AWG_KEYS;
    FieldsDistinct(p);
    FieldsPrintable(p);
    ConfigPrintable(p.wireguard, AmneziaWgFields(p));
    ConfigCut(ConfigLines(p.wireguard, AmneziaWgFields(p)));
    ScanAmneziaWg(p);
    KeptShorter(p.wireguard, AmneziaWgFields(p));
    if Units(AmneziaWgText(p)) <= 65536 { FinishAmneziaWg(p); }
  }

  /** What the client's parser makes of a rendered AmneziaWG profile, in every case. */
  lemma AmneziaWgParsed(p: AmneziaWgProfile)
    requires ValidAmneziaWg(p)
    ensures ParseAmneziaWg(AmneziaWgText(p)) ==
      if Units(AmneziaWgText(p)) <= 65536 && AllAccepted(AmneziaWgFields(p)) then Ok(ReadView(p))
        else Err(ConfigError.InvalidProfile)
  {
    hide ValidAmneziaWg, LegibleAmneziaWg, ParseAmneziaWg, AmneziaWgText, AmneziaWgFields, Units, AllAccepted, ReadView;
    ValidAmneziaWgIsLegible(p);
    LegibleAmneziaWgParsed(p);
  }

  lemma JunkUnchanged(p: AmneziaWgProfile)
    ensures TrimEach(p.specialJunk) == p.specialJunk <==> TrimmedJunk(p)
  {
    forall j | 0 <= j < |p.specialJunk| ensures Trim(p.specialJunk[j]) == p.specialJunk[j]
      <==> Trimmed(p.specialJunk[j]) {
      TrimIdentity(p.specialJunk[j]);
    }
    if TrimEach(p.specialJunk) == p.specialJunk {
      forall j | 0 <= j < |p.specialJunk| ensures Trimmed(p.specialJunk[j]) {
        assert TrimEach(p.specialJunk)[j] == Trim(p.specialJunk[j]);
      }
    }
  }

  /**
    Parsing undoes printing exactly when the text is within the parser's limit, no H value is longer
    than its value limit, and no special packet starts or ends with a blank.
   */
  lemma AmneziaWgRoundTrip(p: AmneziaWgProfile)
    requires ValidAmneziaWg(p)
    ensures ParseAmneziaWg(AmneziaWgText(p)) == Ok(ClientAmneziaWgView(p, Wire.PrintAll(p.wireguard.dnsServers)))
      <==> Units(AmneziaWgText(p)) <= 65536 && ShortHeaders(p) && TrimmedJunk(p)
  {
    hide AmneziaWgText, AmneziaWgFields, Units, ValidAmneziaWg, ShortHeaders, TrimmedJunk, AllAccepted, TrimEach,
         ParseAmneziaWg;
    AmneziaWgParsed(p);
    FieldsAccepted(p);
    JunkUnchanged(p);
  }
}
