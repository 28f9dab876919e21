/** What the client's parsers read in any text, told line by line. */
module ConfigMeaning {
  import opened Basics
  import opened Text
  import opened ClientConfig
  import opened ConfigScan
  import Base64
  import Contracts
  import IpText
  import Client = ClientWire

  ////////// Lines //////////

  predicate IsIgnored(line: string) {
    var l := Trim(line);
    l == "" || l[0] == '#' || l[0] == ';'
  }

  predicate IsField(line: string) { !IsIgnored(line) && Trim(line) != "[Interface]" && Trim(line) != "[Peer]" }

  predicate HasKey(line: string) { 0 < IndexOf(Trim(line), '=') < |Trim(line)| }

  function KeyOf(line: string): string { Trim(Trim(line)[..IndexOf(Trim(line), '=')]) }

  function ValueOf(line: string): string
    requires HasKey(line)
  {
    Trim(Trim(line)[IndexOf(Trim(line), '=') + 1..])
  }

  function Init(lines: seq<string>): seq<string>
    requires lines != []
  {
    lines[..|lines| - 1]
  }

  function Last(lines: seq<string>): string
    requires lines != []
  {
    lines[|lines| - 1]
  }

  /** The section that the last header among the lines opens. */
  function Current(lines: seq<string>): Option<Section> {
    if lines == [] then None
    else if Trim(Last(lines)) == "[Interface]" then Some(InterfaceSection)
    else if Trim(Last(lines)) == "[Peer]" then Some(PeerSection)
    else Current(Init(lines))
  }

  function Occurrences(lines: seq<string>, header: string): nat {
    if lines == [] then 0 else Occurrences(Init(lines), header) + if Trim(Last(lines)) == header then 1 else 0
  }

  predicate Allowed(section: Section, key: string) {
    match section
    case InterfaceSection => key == "PrivateKey" || key == "Address" || key == "DNS"
    case PeerSection =>
      key == "PublicKey" || key == "PresharedKey" || key == "Endpoint" || key == "AllowedIPs"
      || key == "PersistentKeepalive"
  }

  /** What is wrong with a line that comes after others. */
  function Problem(before: seq<string>, line: string): Option<ConfigError> {
    if !IsField(line) then None
    else if Current(before).None? || !HasKey(line) then Some(InvalidProfile)
    else if !Allowed(Current(before).value, KeyOf(line)) || ValueOf(line) == "" then Some(UnsupportedField)
    else None
  }

  predicate NoProblems(lines: seq<string>, n: nat) {
    n <= |lines| && forall i :: 0 <= i < n ==> Problem(lines[..i], lines[i]) == None
  }

  predicate FirstProblem(lines: seq<string>, n: nat, e: ConfigError) {
    n < |lines| && NoProblems(lines, n) && Problem(lines[..n], lines[n]) == Some(e)
  }

  predicate FieldFor(before: seq<string>, line: string, section: Section, key: string) {
    IsField(line) && HasKey(line) && Current(before) == Some(section) && KeyOf(line) == key
  }

  /** The values of all lines of a section with the given key, in order. */
  function Values(lines: seq<string>, section: Section, key: string): seq<string> {
    if lines == [] then []
    else
      Values(Init(lines), section, key)
      + if FieldFor(Init(lines), Last(lines), section, key) then [ValueOf(Last(lines))] else []
  }

  ////////// The WireGuard parser's scan //////////

  function Lookup(fields: Fields, key: string): seq<string> { if key in fields then fields[key] else [] }

  /** The parser's state says of the lines what there is to say. */
  ghost predicate Reads(lines: seq<string>, st: WgState) {
    st.current == Current(lines)
    && st.interfaceCount == Occurrences(lines, "[Interface]") && st.peerCount == Occurrences(lines, "[Peer]")
    && (forall key :: Lookup(st.interface, key) == Values(lines, InterfaceSection, key))
    && (forall key :: Lookup(st.peer, key) == Values(lines, PeerSection, key))
  }

  lemma AllowedKeys(section: Section, key: string)
    ensures key in (if section.InterfaceSection? then INTERFACE_KEYS else PEER_KEYS) <==> Allowed(section, key)
  {
  }

  lemma OneMoreLine(before: seq<string>, line: string)
    ensures var lines := before + [line];
      lines != [] && Init(lines) == before && Last(lines) == line
  {
    assert (before + [line])[..|before|] == before;
  }

  lemma MoreValues(before: seq<string>, line: string, section: Section, key: string)
    ensures Values(before + [line], section, key)
      == Values(before, section, key) + if FieldFor(before, line, section, key) then [ValueOf(line)] else []
  {
    hide FieldFor, ValueOf;
    OneMoreLine(before, line);
  }

  lemma MoreOccurrences(before: seq<string>, line: string, header: string)
    ensures Occurrences(before + [line], header) == Occurrences(before, header) + if Trim(line) == header then 1 else 0
  {
    hide Trim;
    OneMoreLine(before, line);
  }

  lemma MoreCurrent(before: seq<string>, line: string)
    ensures Current(before + [line])
      == if Trim(line) == "[Interface]" then Some(InterfaceSection)
         else if Trim(line) == "[Peer]" then Some(PeerSection) else Current(before)
  {
    hide Trim;
    OneMoreLine(before, line);
  }

  lemma Added(fields: Fields, k: string, v: string, key: string)
    ensures Lookup(AddTo(fields, k, v), key) == Lookup(fields, key) + if key == k then [v] else []
  {
  }

  /** A line that is no field adds no value. */
  lemma NoValue(before: seq<string>, line: string)
    requires !IsField(line)
    ensures forall section, key :: Values(before + [line], section, key) == Values(before, section, key)
  {
    hide Trim, IndexOf;
    forall section, key ensures Values(before + [line], section, key) == Values(before, section, key) {
      MoreValues(before, line, section, key);
    }
  }

  lemma FieldReads(before: seq<string>, line: string, st: WgState, next: WgState)
    requires Reads(before, st) && IsField(line) && HasKey(line) && Current(before).Some?
    requires next == match Current(before).value
      case InterfaceSection => st.(interface := AddTo(st.interface, KeyOf(line), ValueOf(line)))
      case PeerSection => st.(peer := AddTo(st.peer, KeyOf(line), ValueOf(line)))
    ensures Reads(before + [line], next)
  {
    hide Trim, IndexOf, AddTo, Values, Lookup;
    MoreCurrent(before, line);
    MoreOccurrences(before, line, "[Interface]");
    MoreOccurrences(before, line, "[Peer]");
    forall key ensures Lookup(next.interface, key) == Values(before + [line], InterfaceSection, key)
      && Lookup(next.peer, key) == Values(before + [line], PeerSection, key) {
      MoreValues(before, line, InterfaceSection, key);
      MoreValues(before, line, PeerSection, key);
      Added(st.interface, KeyOf(line), ValueOf(line), key);
      Added(st.peer, KeyOf(line), ValueOf(line), key);
    }
  }

  function Placed(st: WgState, section: Section, line: string): WgState
    requires HasKey(line)
  {
    match section
    case InterfaceSection => st.(interface := AddTo(st.interface, KeyOf(line), ValueOf(line)))
    case PeerSection => st.(peer := AddTo(st.peer, KeyOf(line), ValueOf(line)))
  }

  lemma FieldStep(before: seq<string>, line: string, st: WgState)
    requires st.current == Current(before) && IsField(line)
    ensures match Problem(before, line)
      case None => HasKey(line) && st.current.Some? && WgStep(st, line) == Ok(Placed(st, st.current.value, line))
      case Some(e) => WgStep(st, line) == Err(e)
  {
    hide Trim, IndexOf, INTERFACE_KEYS, PEER_KEYS, AddTo, Current, Allowed;
    if st.current.Some? && HasKey(line) { AllowedKeys(st.current.value, KeyOf(line)); }
  }

  lemma OtherStep(line: string, st: WgState)
    requires !IsField(line)
    ensures WgStep(st, line) ==
      if Trim(line) == "[Interface]" then
        Ok(st.(interfaceCount := st.interfaceCount + 1, current := Some(InterfaceSection)))
      else if Trim(line) == "[Peer]" then Ok(st.(peerCount := st.peerCount + 1, current := Some(PeerSection)))
      else Ok(st)
  {
    hide Trim, IndexOf;
    Distinct();
  }

  lemma OtherReads(before: seq<string>, line: string, st: WgState)
    requires Reads(before, st) && !IsField(line)
    ensures WgStep(st, line).Ok? && Reads(before + [line], WgStep(st, line).value)
  {
    hide Trim, IndexOf, Values, Lookup, WgStep, IsField, Current, Occurrences;
    OtherStep(line, st);
    NoValue(before, line);
    MoreCurrent(before, line);
    MoreOccurrences(before, line, "[Interface]");
    MoreOccurrences(before, line, "[Peer]");
    Distinct();
  }

  lemma StepReads(before: seq<string>, line: string, st: WgState)
    requires Reads(before, st)
    ensures match WgStep(st, line)
      case Ok(next) => Problem(before, line) == None && Reads(before + [line], next)
      case Err(e) => Problem(before, line) == Some(e)
  {
    hide Reads, WgStep, IsField, HasKey;
    assert st.current == Current(before) by { ReadsCurrent(before, st); }
    if IsField(line) {
      FieldStep(before, line, st);
      if Problem(before, line) == None { FieldReads(before, line, st, Placed(st, st.current.value, line)); }
    } else {
      OtherReads(before, line, st);
    }
  }

  lemma ReadsCurrent(before: seq<string>, st: WgState)
    requires Reads(before, st)
    ensures st.current == Current(before)
  {
  }

  lemma Distinct()
    ensures "[Interface]" != "[Peer]" && "[Interface]"[0] == '[' && "[Peer]"[0] == '['
  {
    assert |"[Interface]"| != |"[Peer]"|;
  }

  lemma {:induction false} ScanReads(lines: seq<string>)
    ensures match WgScan(lines, WG_START)
      case Ok(st) => NoProblems(lines, |lines|) && Reads(lines, st)
      case Err(e) => exists n: nat :: FirstProblem(lines, n, e)
    decreases |lines|
  {
    hide WgStep, Problem, Reads;
    if lines == [] {
      StartReads();
    } else {
      var before, line, n := Init(lines), Last(lines), |lines| - 1;
      assert lines == before + [line];
      ScanReads(before);
      WgScanAppend(before, [line], WG_START);
      forall i | 0 <= i < n ensures Problem(lines[..i], lines[i]) == Problem(before[..i], before[i]) {
        assert lines[..i] == before[..i];
      }
      match WgScan(before, WG_START) {
        case Ok(st) =>
          WgScanOne(line, st);
          StepReads(before, line, st);
          if WgStep(st, line).Err? { assert FirstProblem(lines, n, WgStep(st, line).error); }
        case Err(e) =>
          var k: nat :| FirstProblem(before, k, e);
          assert lines[..k] == before[..k] && lines[k] == before[k];
          assert FirstProblem(lines, k, e);
      }
    }
  }

  lemma StartReads()
    ensures Reads([], WG_START)
  {
  }

  ////////// Lists //////////

  /** The pieces that are not blank, without the blanks around them. */
  function NonBlank(pieces: seq<string>): seq<string> {
    if pieces == [] then [] else NonBlank(Init(pieces)) + if Trim(Last(pieces)) == "" then [] else [Trim(Last(pieces))]
  }

  /** Several lines of one key are read as one line, joined by commas. */
  function Items(values: seq<string>): seq<string> { NonBlank(Split(Join(values, ","), ',')) }

  lemma {:induction false} NonBlankConcat(a: seq<string>, b: seq<string>)
    ensures NonBlank(a + b) == NonBlank(a) + NonBlank(b)
    decreases |b|
  {
    hide Trim;
    if b == [] {
      assert a + b == a;
    } else {
      assert Init(a + b) == a + Init(b) && Last(a + b) == Last(b);
      NonBlankConcat(a, Init(b));
    }
  }

  lemma {:induction false} TrimAllReads(pieces: seq<string>)
    ensures TrimAll(pieces) == NonBlank(pieces)
  {
    hide Trim;
    if pieces != [] {
      TrimAllReads(pieces[1..]);
      assert pieces == [pieces[0]] + pieces[1..];
      NonBlankConcat([pieces[0]], pieces[1..]);
      assert Init([pieces[0]]) == [] && NonBlank([]) == [];
    }
  }

  lemma SplitCons(c: char, t: string, sep: char)
    ensures var rest := Split(t, sep);
      Split([c] + t, sep) == if c == sep then [""] + rest else [[c] + rest[0]] + rest[1..]
  {
    assert ([c] + t)[1..] == t;
  }

  lemma FirstPiece(c: char, rest: seq<string>, more: seq<string>)
    requires rest != []
    ensures [[c] + (rest + more)[0]] + (rest + more)[1..] == ([[c] + rest[0]] + rest[1..]) + more
  {
    assert (rest + more)[1..] == rest[1..] + more;
  }

  lemma {:induction false} SplitConcat(a: string, sep: char, b: string)
    ensures Split(a + [sep] + b, sep) == Split(a, sep) + Split(b, sep)
  {
    hide Split;
    if a == "" {
      assert a + [sep] + b == [sep] + b;
      SplitCons(sep, b, sep);
      EmptySplit(sep);
    } else {
      var c, t := a[0], a[1..];
      assert a == [c] + t && a + [sep] + b == [c] + (t + [sep] + b);
      SplitConcat(t, sep, b);
      SplitCons(c, t + [sep] + b, sep);
      SplitCons(c, t, sep);
      FirstPiece(c, Split(t, sep), Split(b, sep));
    }
  }

  lemma EmptySplit(sep: char)
    ensures Split("", sep) == [""]
  {
  }

  lemma {:induction false} CsvReads(values: seq<string>)
    ensures CsvAll(values) == Items(values)
  {
    hide Trim, Split, TrimAll, NonBlank;
    if values == [] {
      NothingSplit();
    } else {
      TrimAllReads(Split(values[0], ','));
      CsvReads(values[1..]);
      if |values| == 1 {
        assert values[1..] == [] && NonBlank(Split("", ',')) == [] by { NothingSplit(); }
        assert CsvAll(values[1..]) == [];
      } else {
        SplitConcat(values[0], ',', Join(values[1..], ","));
        NonBlankConcat(Split(values[0], ','), Split(Join(values[1..], ","), ','));
      }
    }
  }

  lemma NothingSplit()
    ensures NonBlank(Split("", ',')) == []
  {
    EmptySplit(',');
    assert Init([""]) == [];
  }

  ////////// Endpoints //////////

  /** An IPv6 host in brackets, or any host without, then a colon and the port's text. */
  predicate WrittenEndpoint(value: string, host: string, portText: string) {
    (IpText.Parse(host).Some? && IpText.Parse(host).value.V6? && value == "[" + host + "]" + ":" + portText)
    || ((IpText.Parse(host).Some? || Contracts.ValidHostname(host)) && ':' !in portText
      && value == host + ":" + portText)
  }

  predicate IsPort(portText: string, port: int) { TryParseInt(portText) == Some(port) && 1 <= port <= 65535 }

  lemma HostChars(host: string)
    requires IpText.Parse(host).Some? || Contracts.ValidHostname(host)
    ensures host != "" && '[' !in host && ']' !in host
  {
    if IpText.Parse(host).Some? { IpText.ParsedChars(host); } else { Contracts.HostnameChars(host); }
  }

  lemma {:induction false} LastOf(s: string, c: char)
    ensures c !in s[AfterLast(s, c)..]
    decreases |s|
  {
    var i := AfterLast(s, c);
    if s != "" && s[|s| - 1] != c {
      var init := s[..|s| - 1];
      LastOf(init, c);
      assert s[i..] == init[i..] + [s[|s| - 1]];
    }
  }

  lemma {:induction false} LastIs(a: string, c: char, b: string)
    requires c !in b
    ensures AfterLast(a + [c] + b, c) == |a| + 1
    decreases |b|
  {
    var s := a + [c] + b;
    if b == "" {
      assert s[|s| - 1] == c;
    } else {
      assert s[..|s| - 1] == a + [c] + b[..|b| - 1] && s[|s| - 1] == b[|b| - 1];
      LastIs(a, c, b[..|b| - 1]);
    }
  }

  /** The port's text of an endpoint that is read, and its host. */
  lemma EndpointIsWritten(value: string, host: string, port: int)
    requires ParseEndpoint(value) == Ok((host, port))
    ensures exists portText :: WrittenEndpoint(value, host, portText) && IsPort(portText, port)
  {
    hide IpText.Parse, Contracts.ValidHostname, TryParseInt, IndexOf, AfterLast;
    if value != "" && value[0] == '[' {
      var close := IndexOf(value, ']');
      var portText := value[close + 2..];
      assert value == "[" + value[1..close] + "]" + ":" + portText;
      assert WrittenEndpoint(value, host, portText) && IsPort(portText, port);
    } else {
      var after := AfterLast(value, ':');
      var portText := value[after..];
      LastOf(value, ':');
      assert value == value[..after - 1] + ":" + portText;
      assert WrittenEndpoint(value, host, portText) && IsPort(portText, port);
    }
  }

  lemma NumberNotEmpty(text: string)
    requires TryParseInt(text).Some?
    ensures text != ""
  {
    assert Trim("") == "" && Magnitude("") == None;
  }

  lemma WrittenIsRead(value: string, host: string, portText: string, port: int)
    requires WrittenEndpoint(value, host, portText) && IsPort(portText, port)
    ensures ParseEndpoint(value) == Ok((host, port))
  {
    hide IpText.Parse, Contracts.ValidHostname, TryParseInt, IndexOf, AfterLast;
    HostChars(host);
    NumberNotEmpty(portText);
    if value == "[" + host + "]" + ":" + portText && IpText.Parse(host).Some? && IpText.Parse(host).value.V6? {
      assert value == ("[" + host) + [']'] + (":" + portText);
      IndexOfFirst("[" + host, ']', ":" + portText);
      assert value[1..|host| + 1] == host && value[|host| + 3..] == portText && value[|host| + 2] == ':';
    } else {
      assert value == host + [':'] + portText;
      assert value[0] == host[0] && host[0] in host;
      LastIs(host, ':', portText);
      assert value[..|host|] == host && value[|host| + 1..] == portText;
    }
  }

  /** Exactly which texts are endpoints, and of what. */
  lemma EndpointExactly(value: string, host: string, port: int)
    ensures ParseEndpoint(value) == Ok((host, port))
      <==> exists portText :: WrittenEndpoint(value, host, portText) && IsPort(portText, port)
  {
    hide ParseEndpoint, WrittenEndpoint, IsPort;
    if ParseEndpoint(value) == Ok((host, port)) { EndpointIsWritten(value, host, port); }
    if portText :| WrittenEndpoint(value, host, portText) && IsPort(portText, port) {
      WrittenIsRead(value, host, portText, port);
    }
  }

  ////////// The whole WireGuard configuration //////////

  predicate IsKey(text: string, key: Contracts.SecretKey) {
    Base64.Decode(text) == Some(key) && !Contracts.ZeroKey(key)
  }

  predicate IsKeepalive(text: string, keepalive: Option<int>) {
    TryParseInt(text).Some? && 0 <= TryParseInt(text).value <= 65535
    && keepalive == if TryParseInt(text).value == 0 then None else TryParseInt(text)
  }

  /** The lines say exactly this profile. */
  predicate Says(lines: seq<string>, q: Client.ClientProfile) {
    var keys, publics := Values(lines, InterfaceSection, "PrivateKey"), Values(lines, PeerSection, "PublicKey");
    var shared, endpoints := Values(lines, PeerSection, "PresharedKey"), Values(lines, PeerSection, "Endpoint");
    var keepalives := Values(lines, PeerSection, "PersistentKeepalive");
    NoProblems(lines, |lines|)
    && Occurrences(lines, "[Interface]") == 1 && Occurrences(lines, "[Peer]") == 1
    && |keys| == 1 && IsKey(keys[0], q.privateKey)
    && |publics| == 1 && IsKey(publics[0], q.peerPublicKey)
    && |endpoints| == 1 && ParseEndpoint(endpoints[0]) == Ok((q.endpointHost, q.endpointPort))
    && (if q.presharedKey.Some? then |shared| == 1 && IsKey(shared[0], q.presharedKey.value) else shared == [])
    && (if keepalives == [] then q.persistentKeepalive == None
        else |keepalives| == 1 && IsKeepalive(keepalives[0], q.persistentKeepalive))
    && q.addresses == Items(Values(lines, InterfaceSection, "Address")) && ClientNetworks(q.addresses, 1, 8)
    && q.dnsServers == Items(Values(lines, InterfaceSection, "DNS")) && |q.dnsServers| <= 8
    && (forall i :: 0 <= i < |q.dnsServers| ==> IpText.Parse(q.dnsServers[i]).Some?)
    && q.allowedIps == Items(Values(lines, PeerSection, "AllowedIPs")) && ClientNetworks(q.allowedIps, 1, 32)
  }

  lemma KeyExactly(text: string, key: Contracts.SecretKey)
    ensures DecodeKey(text) == Ok(key) <==> IsKey(text, key)
  {
    hide Base64.Decode;
  }

  lemma Counted(fields: Fields, key: string)
    ensures Count(fields, key) == |Lookup(fields, key)|
  {
  }

  lemma FieldsAre(lines: seq<string>, st: WgState)
    requires Reads(lines, st)
    ensures forall key :: Count(st.interface, key) == |Values(lines, InterfaceSection, key)|
    ensures forall key :: Count(st.peer, key) == |Values(lines, PeerSection, key)|
    ensures forall key :: Csv(st.interface, key) == Items(Values(lines, InterfaceSection, key))
    ensures forall key :: Csv(st.peer, key) == Items(Values(lines, PeerSection, key))
  {
    hide Values, CsvAll, Items, Lookup;
    forall key ensures Count(st.interface, key) == |Values(lines, InterfaceSection, key)|
      && Csv(st.interface, key) == Items(Values(lines, InterfaceSection, key)) {
      ListReads(st.interface, key);
    }
    forall key ensures Count(st.peer, key) == |Values(lines, PeerSection, key)|
      && Csv(st.peer, key) == Items(Values(lines, PeerSection, key)) {
      ListReads(st.peer, key);
    }
  }

  lemma ListReads(fields: Fields, key: string)
    ensures Csv(fields, key) == Items(Lookup(fields, key)) && Count(fields, key) == |Lookup(fields, key)|
  {
    hide CsvAll, Items;
    CsvReads(Lookup(fields, key));
    assert CsvAll([]) == [] by { NothingListed(); }
  }

  lemma NothingListed()
    ensures CsvAll([]) == []
  {
  }

  lemma KeepaliveExactly(fields: Fields, keepalive: Option<int>)
    ensures var values := Lookup(fields, "PersistentKeepalive");
      ParseKeepalive(fields) == Ok(keepalive) <==>
      if "PersistentKeepalive" !in fields then keepalive == None
      else |values| == 1 && IsKeepalive(values[0], keepalive)
  {
    hide TryParseInt;
  }

  /** A list in the state is never empty. */
  predicate Filled(st: WgState) {
    (forall key :: key in st.interface ==> st.interface[key] != [])
    && (forall key :: key in st.peer ==> st.peer[key] != [])
  }

  lemma {:induction false} ScanFills(lines: seq<string>, st: WgState)
    requires Filled(st)
    ensures WgScan(lines, st).Ok? ==> Filled(WgScan(lines, st).value)
    decreases lines
  {
    hide Trim, IndexOf, INTERFACE_KEYS, PEER_KEYS;
    if lines != [] && WgStep(st, lines[0]).Ok? { ScanFills(lines[1..], WgStep(st, lines[0]).value); }
  }

  /** What the fields of a finished scan are, key by key. */
  predicate Known(lines: seq<string>, st: WgState) {
    Lookup(st.interface, "PrivateKey") == Values(lines, InterfaceSection, "PrivateKey")
    && Lookup(st.peer, "PublicKey") == Values(lines, PeerSection, "PublicKey")
    && Lookup(st.peer, "PresharedKey") == Values(lines, PeerSection, "PresharedKey")
    && Lookup(st.peer, "Endpoint") == Values(lines, PeerSection, "Endpoint")
    && Lookup(st.peer, "PersistentKeepalive") == Values(lines, PeerSection, "PersistentKeepalive")
    && Csv(st.interface, "Address") == Items(Values(lines, InterfaceSection, "Address"))
    && Csv(st.interface, "DNS") == Items(Values(lines, InterfaceSection, "DNS"))
    && Csv(st.peer, "AllowedIPs") == Items(Values(lines, PeerSection, "AllowedIPs"))
    && st.interfaceCount == Occurrences(lines, "[Interface]") && st.peerCount == Occurrences(lines, "[Peer]")
  }

  lemma ReadsKnown(lines: seq<string>, st: WgState)
    requires Reads(lines, st)
    ensures Known(lines, st)
  {
    hide Values, Items, Occurrences, Csv, Lookup, Current;
    FieldsAre(lines, st);
  }

  lemma FinishedSays(lines: seq<string>, st: WgState, q: Client.ClientProfile)
    requires Known(lines, st) && Filled(st) && NoProblems(lines, |lines|) && WgFinish(st) == Ok(q)
    ensures Says(lines, q)
  {
    hide NoProblems, Values, Items, ClientNetworks, IpText.Parse, ParseEndpoint, DecodeKey, ParseKeepalive, IsKey,
         IsKeepalive, Occurrences, Csv;
    KeepaliveExactly(st.peer, q.persistentKeepalive);
    KeyExactly(st.interface["PrivateKey"][0], q.privateKey);
    KeyExactly(st.peer["PublicKey"][0], q.peerPublicKey);
    if q.presharedKey.Some? { KeyExactly(st.peer["PresharedKey"][0], q.presharedKey.value); }
    var endpoint := ParseEndpoint(st.peer["Endpoint"][0]).value;
    assert endpoint == (endpoint.0, endpoint.1);
  }

  lemma SaidFinishes(lines: seq<string>, st: WgState, q: Client.ClientProfile)
    requires Known(lines, st) && Filled(st) && Says(lines, q)
    ensures WgFinish(st) == Ok(q)
  {
    hide NoProblems, Values, Items, ClientNetworks, IpText.Parse, ParseEndpoint, DecodeKey, ParseKeepalive, IsKey,
         IsKeepalive, Occurrences, Csv;
    KeepaliveExactly(st.peer, q.persistentKeepalive);
    KeyExactly(st.interface["PrivateKey"][0], q.privateKey);
    KeyExactly(st.peer["PublicKey"][0], q.peerPublicKey);
    if q.presharedKey.Some? { KeyExactly(st.peer["PresharedKey"][0], q.presharedKey.value); }
  }

  /**
    Exactly which texts are WireGuard configurations, and of which profile: every line is good where it stands,
    each section is there once, the single values are there once, and the lists are all lines' items in order.
   */
  lemma WireGuardExactly(source: string, q: Client.ClientProfile)
    ensures ParseWireGuard(source) == Ok(q)
      <==> Units(source) <= 65536 && '\0' !in source && Says(SplitLines(source), q)
  {
    hide Says, WgFinish, WgScan, SplitLines, Units, Reads, NoProblems;
    var lines := SplitLines(source);
    ScanReads(lines);
    match WgScan(lines, WG_START)
    case Ok(st) =>
      ReadsKnown(lines, st);
      assert Filled(WG_START);
      ScanFills(lines, WG_START);
      if WgFinish(st) == Ok(q) { FinishedSays(lines, st, q); }
      if Says(lines, q) { SaidFinishes(lines, st, q); }
    case Err(e) =>
      var n: nat :| FirstProblem(lines, n, e);
      assert !Says(lines, q) by { NotSaid(lines, n, e, q); }
  }

  lemma NotSaid(lines: seq<string>, n: nat, e: ConfigError, q: Client.ClientProfile)
    requires FirstProblem(lines, n, e)
    ensures !Says(lines, q)
  {
    hide Problem, Values, Items, ClientNetworks, ParseEndpoint, Occurrences;
    assert Problem(lines[..n], lines[n]) == Some(e);
  }

  /** The first line that is wrong decides the error. */
  lemma FirstProblemReported(source: string, n: nat, e: ConfigError)
    requires Units(source) <= 65536 && '\0' !in source && FirstProblem(SplitLines(source), n, e)
    ensures ParseWireGuard(source) == Err(e)
  {
    hide WgFinish, WgScan, SplitLines, Units, Reads, Problem;
    var lines := SplitLines(source);
    ScanReads(lines);
    assert Problem(lines[..n], lines[n]) == Some(e);
    if WgScan(lines, WG_START).Err? {
      var k: nat :| FirstProblem(lines, k, WgScan(lines, WG_START).error);
      assert Problem(lines[..k], lines[k]) == Some(WgScan(lines, WG_START).error);
      assert k == n;
    }
  }

  /** A second key, endpoint or keepalive is refused; further lists are appended. */
  lemma SecondValueRefused(source: string, section: Section, key: string)
    requires |Values(SplitLines(source), section, key)| > 1
    requires (section == InterfaceSection && key == "PrivateKey") || (section == PeerSection && (key == "PublicKey"
      || key == "PresharedKey" || key == "Endpoint" || key == "PersistentKeepalive"))
    ensures ParseWireGuard(source).Err?
  {
    hide ParseWireGuard, SplitLines, Values, NoProblems, Items, ClientNetworks, ParseEndpoint, Occurrences, IsKey,
         IsKeepalive, Units;
    if ParseWireGuard(source).Ok? { WireGuardExactly(source, ParseWireGuard(source).value); }
  }

  /** Lines that are blank or start with a number sign or a semicolon can stand anywhere. */
  lemma IgnoredChangesNothing(source: string, plain: string, a: seq<string>, line: string, b: seq<string>)
    requires IsIgnored(line) && SplitLines(source) == a + [line] + b && SplitLines(plain) == a + b
    requires Units(source) <= 65536 && '\0' !in source && Units(plain) <= 65536 && '\0' !in plain
    ensures ParseWireGuard(source) == ParseWireGuard(plain)
  {
    hide WgFinish, SplitLines, Units, Trim, IndexOf;
    WgScanAppend(a + [line], b, WG_START);
    WgScanAppend(a, [line], WG_START);
    WgScanAppend(a, b, WG_START);
    if WgScan(a, WG_START).Ok? {
      var st := WgScan(a, WG_START).value;
      WgScanOne(line, st);
      assert WgStep(st, line) == Ok(st);
    }
  }

  ////////// The AmneziaWG configuration //////////

  predicate AwgKey(key: string) {
    key == "Jc" || key == "Jmin" || key == "Jmax" || key == "S1" || key == "S2" || key == "S3" || key == "S4"
    || key == "H1" || key == "H2" || key == "H3" || key == "H4"
    || key == "I1" || key == "I2" || key == "I3" || key == "I4" || key == "I5"
  }

  predicate IsAwg(line: string) { HasKey(line) && AwgKey(KeyOf(line)) }

  /** The value of the last line with the key, in any section. */
  function AwgValue(lines: seq<string>, key: string): Option<string> {
    if lines == [] then None
    else if IsAwg(Last(lines)) && KeyOf(Last(lines)) == key then Some(ValueOf(Last(lines)))
    else AwgValue(Init(lines), key)
  }

  function OtherLines(lines: seq<string>): seq<string> {
    if lines == [] then [] else OtherLines(Init(lines)) + if IsAwg(Last(lines)) then [] else [Last(lines)]
  }

  /** An AmneziaWG line stands in an interface section, is the first with its key, and has an acceptable value. */
  predicate AwgGood(before: seq<string>, line: string) {
    IsAwg(line) ==>
      Current(before) == Some(InterfaceSection) && AwgValue(before, KeyOf(line)) == None
      && 1 <= Units(ValueOf(line)) <= 4096
      && forall i :: 0 <= i < |ValueOf(line)| ==> ValueOf(line)[i] as int >= 32 && ValueOf(line)[i] as int != 127
  }

  predicate AllAwgGood(lines: seq<string>) { forall i :: 0 <= i < |lines| ==> AwgGood(lines[..i], lines[i]) }

  ghost predicate AwgReads(lines: seq<string>, st: AwgState) {
    st.inInterface == (Current(lines) == Some(InterfaceSection)) && st.kept == OtherLines(lines)
    && forall key :: AwgValue(lines, key) == if key in st.values then Some(st.values[key]) else None
  }

  lemma AwgKeys(key: string)
    ensures key in AWG_KEYS <==> AwgKey(key)
  {
    assert AWG_KEYS == ["Jc", "Jmin", "Jmax", "S1", "S2", "S3", "S4", "H1", "H2", "H3", "H4", "I1", "I2", "I3", "I4",
      "I5"];
  }

  lemma MoreAwg(before: seq<string>, line: string)
    ensures OtherLines(before + [line]) == OtherLines(before) + if IsAwg(line) then [] else [line]
    ensures forall key ::
      AwgValue(before + [line], key)
        == if IsAwg(line) && KeyOf(line) == key then Some(ValueOf(line)) else AwgValue(before, key)
  {
    hide IsAwg, ValueOf, KeyOf;
    OneMoreLine(before, line);
  }

  lemma NoSigns()
    ensures '=' !in "[Interface]" && '=' !in "[Peer]"
  {
  }

  lemma AwgStepReads(before: seq<string>, line: string, st: AwgState)
    requires AwgReads(before, st)
    ensures if AwgGood(before, line) then AwgStep(st, line).Ok? && AwgReads(before + [line], AwgStep(st, line).value)
      else AwgStep(st, line) == Err(InvalidProfile)
  {
    hide Trim, IndexOf, AWG_KEYS, AwgKey, OtherLines, AwgValue;
    AwgKeys(KeyOf(line));
    MoreAwg(before, line);
    MoreCurrent(before, line);
    NoSigns();
    if HasKey(line) { EmptyUnits(ValueOf(line)); }
  }

  lemma EmptyUnits(v: string)
    ensures Units(v) >= 1 <==> v != ""
  {
    UnitsBound(v);
  }

  lemma {:induction false} AwgScanReads(lines: seq<string>)
    ensures if AllAwgGood(lines) then AwgScan(lines, AWG_START).Ok? && AwgReads(lines, AwgScan(lines, AWG_START).value)
      else AwgScan(lines, AWG_START) == Err(InvalidProfile)
    decreases |lines|
  {
    hide AwgStep, AwgGood, AwgReads;
    if lines == [] {
      AwgStartReads();
    } else {
      var before, line, n := Init(lines), Last(lines), |lines| - 1;
      assert lines == before + [line];
      AwgScanReads(before);
      AwgScanAppend(before, [line], AWG_START);
      forall i | 0 <= i < n ensures AwgGood(lines[..i], lines[i]) == AwgGood(before[..i], before[i]) {
        assert lines[..i] == before[..i];
      }
      if AllAwgGood(before) {
        var st := AwgScan(before, AWG_START).value;
        AwgScanOne(line, st);
        AwgStepReads(before, line, st);
      }
      assert AllAwgGood(lines) <==> AllAwgGood(before) && AwgGood(before, line) by {
        assert lines[..n] == before && lines[n] == line;
      }
    }
  }

  lemma AwgStartReads()
    ensures AwgReads([], AWG_START)
  {
  }

  predicate IsNumber(value: Option<string>, minimum: int, maximum: int, n: int) {
    value.Some? && TryParseInt(value.value) == Some(n) && minimum <= n <= maximum
  }

  predicate IsRange(value: Option<string>, range: string) { value == Some(range) && Contracts.ValidNumericRange(range) }

  /** The special packets are I1 to the last, without a gap. */
  predicate IsSpecial(i1: Option<string>, i2: Option<string>, i3: Option<string>, i4: Option<string>,
      i5: Option<string>, junk: seq<string>) {
    |junk| <= 5
    && forall i :: 0 <= i < 5 ==> [i1, i2, i3, i4, i5][i] == if i < |junk| then Some(junk[i]) else None
  }

  predicate AwgSays(lines: seq<string>, q: Client.ClientAmneziaWg) {
    AllAwgGood(lines)
    && IsNumber(AwgValue(lines, "Jc"), 0, 10, q.jc)
    && IsNumber(AwgValue(lines, "Jmin"), 64, 1024, q.jmin) && IsNumber(AwgValue(lines, "Jmax"), 64, 1024, q.jmax)
    && q.jmin <= q.jmax
    && IsNumber(AwgValue(lines, "S1"), 0, 64, q.s1) && IsNumber(AwgValue(lines, "S2"), 0, 64, q.s2)
    && IsNumber(AwgValue(lines, "S3"), 0, 64, q.s3) && IsNumber(AwgValue(lines, "S4"), 0, 32, q.s4)
    && IsRange(AwgValue(lines, "H1"), q.h1) && IsRange(AwgValue(lines, "H2"), q.h2)
    && IsRange(AwgValue(lines, "H3"), q.h3) && IsRange(AwgValue(lines, "H4"), q.h4)
    && IsSpecial(AwgValue(lines, "I1"), AwgValue(lines, "I2"), AwgValue(lines, "I3"), AwgValue(lines, "I4"),
      AwgValue(lines, "I5"), q.specialJunk)
    && ParseWireGuard(Join(OtherLines(lines), "\n")) == Ok(q.wireGuard)
  }

  function InMap(values: map<string, string>, key: string): Option<string> {
    if key in values then Some(values[key]) else None
  }

  lemma NumberExactly(value: string, minimum: int, maximum: int, n: int)
    ensures IntegerIn(value, minimum, maximum) == Ok(n) <==> IsNumber(Some(value), minimum, maximum, n)
  {
    hide TryParseInt;
  }

  lemma RangeExactly(value: string, range: string)
    ensures RangeText(value) == Ok(range) <==> IsRange(Some(value), range)
  {
    hide Split, DecValue;
  }

  function PacketKey(index: nat): string {
    if index == 1 then "I1" else if index == 2 then "I2" else if index == 3 then "I3" else if index == 4 then "I4"
    else "I5"
  }

  lemma JunkName(index: nat)
    requires 1 <= index <= 5
    ensures "I" + Dec(index) == PacketKey(index)
  {
  }

  /** What is collected from the index on: the packets up to the first gap, if nothing comes after it. */
  predicate SpecialFromIs(values: map<string, string>, index: nat, missing: bool, junk: seq<string>) {
    1 <= index <= 6 && |junk| <= 6 - index && (missing ==> junk == [])
    && forall i: nat :: index <= i <= 5 ==>
      InMap(values, PacketKey(i)) == if i - index < |junk| then Some(junk[i - index]) else None
  }

  lemma {:induction false} SpecialExactly(values: map<string, string>, index: nat, missing: bool, junk: seq<string>)
    requires 1 <= index <= 6
    ensures Special(values, index, missing) == Ok(junk) <==> SpecialFromIs(values, index, missing, junk)
    decreases 6 - index
  {
    hide Dec, PacketKey, SpecialFromIs;
    if index == 6 {
      NoSpecial(values, missing);
      NothingLeft(values, missing, junk);
    } else {
      SpecialStep(values, index, missing);
      JunkName(index);
      var key := PacketKey(index);
      if key !in values {
        SpecialExactly(values, index + 1, true, junk);
        AfterGap(values, index, missing, junk);
      } else if !missing && junk != [] {
        SpecialExactly(values, index + 1, false, junk[1..]);
        AfterOne(values, index, junk);
        assert [junk[0]] + junk[1..] == junk;
      } else {
        UnexpectedOne(values, index, missing, junk);
      }
    }
  }

  lemma NothingLeft(values: map<string, string>, missing: bool, junk: seq<string>)
    ensures SpecialFromIs(values, 6, missing, junk) <==> junk == []
  {
  }

  lemma UnexpectedOne(values: map<string, string>, index: nat, missing: bool, junk: seq<string>)
    requires 1 <= index <= 5 && PacketKey(index) in values && (missing || junk == [])
    ensures !SpecialFromIs(values, index, missing, junk)
  {
    hide PacketKey;
    assert InMap(values, PacketKey(index)).Some?;
  }

  lemma AfterGap(values: map<string, string>, index: nat, missing: bool, junk: seq<string>)
    requires 1 <= index <= 5 && PacketKey(index) !in values
    ensures SpecialFromIs(values, index, missing, junk) <==> SpecialFromIs(values, index + 1, true, junk)
  {
    hide PacketKey;
    assert InMap(values, PacketKey(index)) == None;
  }

  lemma AfterOne(values: map<string, string>, index: nat, junk: seq<string>)
    requires 1 <= index <= 5 && junk != [] && PacketKey(index) in values
    ensures SpecialFromIs(values, index, false, junk)
      <==> SpecialFromIs(values, index + 1, false, junk[1..]) && values[PacketKey(index)] == junk[0]
  {
    hide PacketKey;
    assert InMap(values, PacketKey(index)) == Some(values[PacketKey(index)]);
  }

  lemma SpecialIs(values: map<string, string>, junk: seq<string>)
    ensures SpecialFromIs(values, 1, false, junk) <==> IsSpecial(InMap(values, "I1"), InMap(values, "I2"),
      InMap(values, "I3"), InMap(values, "I4"), InMap(values, "I5"), junk)
  {
    hide InMap;
    var found := [InMap(values, "I1"), InMap(values, "I2"), InMap(values, "I3"), InMap(values, "I4"),
      InMap(values, "I5")];
    forall i: nat | 1 <= i <= 5 ensures found[i - 1] == InMap(values, PacketKey(i)) {}
    if SpecialFromIs(values, 1, false, junk) {
      forall i: nat | i < 5 ensures found[i] == if i < |junk| then Some(junk[i]) else None {
        assert found[i] == InMap(values, PacketKey(i + 1));
      }
    }
  }

  /** The map of values, key by key. */
  predicate AwgKnown(lines: seq<string>, st: AwgState) {
    st.kept == OtherLines(lines)
    && AwgValue(lines, "Jc") == InMap(st.values, "Jc") && AwgValue(lines, "Jmin") == InMap(st.values, "Jmin")
    && AwgValue(lines, "Jmax") == InMap(st.values, "Jmax") && AwgValue(lines, "S1") == InMap(st.values, "S1")
    && AwgValue(lines, "S2") == InMap(st.values, "S2") && AwgValue(lines, "S3") == InMap(st.values, "S3")
    && AwgValue(lines, "S4") == InMap(st.values, "S4") && AwgValue(lines, "H1") == InMap(st.values, "H1")
    && AwgValue(lines, "H2") == InMap(st.values, "H2") && AwgValue(lines, "H3") == InMap(st.values, "H3")
    && AwgValue(lines, "H4") == InMap(st.values, "H4") && AwgValue(lines, "I1") == InMap(st.values, "I1")
    && AwgValue(lines, "I2") == InMap(st.values, "I2") && AwgValue(lines, "I3") == InMap(st.values, "I3")
    && AwgValue(lines, "I4") == InMap(st.values, "I4") && AwgValue(lines, "I5") == InMap(st.values, "I5")
  }

  predicate AllThere(v: map<string, string>) {
    "Jc" in v && "Jmin" in v && "Jmax" in v && "S1" in v && "S2" in v && "S3" in v && "S4" in v
    && "H1" in v && "H2" in v && "H3" in v && "H4" in v
  }

  lemma HasAllExactly(v: map<string, string>)
    ensures HasAll(v, REQUIRED_KEYS) <==> AllThere(v)
    ensures |REQUIRED_KEYS| == 11
  {
    hide REQUIRED_KEYS;
    RequiredAt();
    if AllThere(v) {
      forall i | 0 <= i < 11 ensures REQUIRED_KEYS[i] in v {}
    }
  }

  lemma AwgFinishExactly(lines: seq<string>, st: AwgState, q: Client.ClientAmneziaWg)
    requires AwgKnown(lines, st) && AllAwgGood(lines)
    ensures AwgFinish(st) == Ok(q) <==> AwgSays(lines, q)
  {
    hide OtherLines, AwgValue, IntegerIn, RangeText, ParseWireGuard, Special, IsNumber, IsRange, IsSpecial, Join,
         AllAwgGood, REQUIRED_KEYS, HasAll;
    var v := st.values;
    HasAllExactly(v);
    if AllThere(v) {
      RequiredAt();
      NumberExactly(v["Jc"], 0, 10, q.jc);
      NumberExactly(v["Jmin"], 64, 1024, q.jmin);
      NumberExactly(v["Jmax"], 64, 1024, q.jmax);
      NumberExactly(v["S1"], 0, 64, q.s1);
      NumberExactly(v["S2"], 0, 64, q.s2);
      NumberExactly(v["S3"], 0, 64, q.s3);
      NumberExactly(v["S4"], 0, 32, q.s4);
      RangeExactly(v["H1"], q.h1);
      RangeExactly(v["H2"], q.h2);
      RangeExactly(v["H3"], q.h3);
      RangeExactly(v["H4"], q.h4);
      SpecialExactly(v, 1, false, q.specialJunk);
      SpecialIs(v, q.specialJunk);
    } else {
      NothingThere(lines, q);
    }
  }

  lemma NothingThere(lines: seq<string>, q: Client.ClientAmneziaWg)
    ensures AwgSays(lines, q) ==>
      AwgValue(lines, "Jc").Some? && AwgValue(lines, "Jmin").Some? && AwgValue(lines, "Jmax").Some?
      && AwgValue(lines, "S1").Some? && AwgValue(lines, "S2").Some? && AwgValue(lines, "S3").Some?
      && AwgValue(lines, "S4").Some? && AwgValue(lines, "H1").Some? && AwgValue(lines, "H2").Some?
      && AwgValue(lines, "H3").Some? && AwgValue(lines, "H4").Some?
  {
    hide OtherLines, AwgValue, ParseWireGuard, IsSpecial, Join, AllAwgGood, TryParseInt, Contracts.ValidNumericRange;
  }

  lemma RequiredAt()
    ensures |REQUIRED_KEYS| == 11 && REQUIRED_KEYS[0] == "Jc" && REQUIRED_KEYS[1] == "Jmin"
    ensures REQUIRED_KEYS[2] == "Jmax" && REQUIRED_KEYS[3] == "S1" && REQUIRED_KEYS[4] == "S2"
    ensures REQUIRED_KEYS[5] == "S3" && REQUIRED_KEYS[6] == "S4" && REQUIRED_KEYS[7] == "H1"
    ensures REQUIRED_KEYS[8] == "H2" && REQUIRED_KEYS[9] == "H3" && REQUIRED_KEYS[10] == "H4"
  {
  }

  /** Exactly which texts are AmneziaWG configurations, and of which profile. */
  lemma AmneziaWgExactly(source: string, q: Client.ClientAmneziaWg)
    ensures ParseAmneziaWg(source) == Ok(q)
      <==> Units(source) <= 65536 && '\0' !in source && AwgSays(SplitLines(source), q)
  {
    hide AwgSays, AwgFinish, AwgScan, SplitLines, Units, AwgReads, AllAwgGood;
    var lines := SplitLines(source);
    AwgScanReads(lines);
    if AllAwgGood(lines) {
      AwgReadsKnown(lines, AwgScan(lines, AWG_START).value);
      AwgFinishExactly(lines, AwgScan(lines, AWG_START).value, q);
    } else {
      SaidIsGood(lines, q);
    }
  }

  lemma SaidIsGood(lines: seq<string>, q: Client.ClientAmneziaWg)
    ensures AwgSays(lines, q) ==> AllAwgGood(lines)
  {
    hide OtherLines, AwgValue, ParseWireGuard, IsSpecial, Join, AllAwgGood, IsNumber, IsRange;
  }

  lemma AwgReadsKnown(lines: seq<string>, st: AwgState)
    requires AwgReads(lines, st)
    ensures AwgKnown(lines, st)
  {
    hide OtherLines, AwgValue, Current;
  }

  ////////// Cutting lines //////////

  /** A line ends with a carriage return, a line feed, or both in this order. */
  lemma LinesExactly(line: string, rest: string)
    requires NoEol(line)
    ensures SplitLines(line) == if line == "" then [] else [line]
    ensures SplitLines(line + "\n" + rest) == [line] + SplitLines(rest)
    ensures SplitLines(line + "\r\n" + rest) == [line] + SplitLines(rest)
    ensures (rest == "" || rest[0] != '\n') ==> SplitLines(line + "\r" + rest) == [line] + SplitLines(rest)
  {
    LineEndBefore(line, "");
    assert line + "" == line;
    EndedBy(line, "\n", rest);
    EndedBy(line, "\r\n", rest);
    if rest == "" || rest[0] != '\n' { EndedBy(line, "\r", rest); }
  }

  lemma EndedBy(line: string, end: string, rest: string)
    requires NoEol(line) && (end == "\n" || end == "\r\n" || (end == "\r" && (rest == "" || rest[0] != '\n')))
    ensures SplitLines(line + end + rest) == [line] + SplitLines(rest)
  {
    hide LineEnd;
    var s := line + end + rest;
    assert s == line + (end + rest);
    LineEndBefore(line, end + rest);
    assert s[..|line|] == line && s[|line| + |end|..] == rest && s[|line|] == end[0];
    if end == "\r" && rest != "" { assert s[|line| + 1] == rest[0]; }
  }
}
