/** The desktop client's parsers for WireGuard and AmneziaWG configuration text. */
module ClientConfig {
  import opened Basics
  import opened Text
  import Base64
  import Contracts
  import IpText
  import Client = ClientWire

  datatype ConfigError =
    | InvalidProfile | UnsupportedField | InvalidDns | InvalidNetwork | InvalidEndpoint | InvalidKey | InvalidKeepalive
    | NumberFormat

  /** The length of a Dart string: its UTF-16 code units. */
  function Units(s: string): nat { |Client.CodeUnits(s)| }

  ////////// Lines //////////

  predicate IsEol(c: char) { c == '\r' || c == '\n' }

  function LineEnd(s: string): (i: nat)
    ensures i <= |s|
    ensures i < |s| ==> IsEol(s[i])
  {
    if s == "" || IsEol(s[0]) then 0 else 1 + LineEnd(s[1..])
  }

  /** `LineSplitter`: lines end with CR, LF or CR LF; the last one may be unended. */
  function SplitLines(s: string): seq<string>
    decreases |s|
  {
    if s == "" then []
    else
      var end := LineEnd(s);
      if end == |s| then [s]
      else
        var next := if s[end] == '\r' && end + 1 < |s| && s[end + 1] == '\n' then end + 2 else end + 1;
        [s[..end]] + SplitLines(s[next..])
  }

  ////////// Numbers //////////

  /** Text in hexadecimal: `0x` or `0X`, then digits. */
  predicate HexText(digits: string) {
    |digits| > 2 && digits[0] == '0' && (digits[1] == 'x' || digits[1] == 'X') && AllHex(digits[2..])
  }

  /** The number that unsigned digits stand for. */
  function Magnitude(digits: string): Option<nat> {
    if HexText(digits) then Some(HexValue(digits[2..]))
    else if digits != "" && AllDigits(digits) then Some(DecValue(digits))
    else None
  }

  /**
    `int.tryParse`: blanks around, a sign, decimal or hexadecimal digits, at most 64 bits. Hexadecimal numbers
    from 2^63 on are two's complement unless they have a minus sign.
   */
  function TryParseInt(source: string): Option<int> {
    var s := Trim(source);
    var signed := s != "" && (s[0] == '+' || s[0] == '-');
    var digits := if signed then s[1..] else s;
    match Magnitude(digits)
    case None => None
    case Some(unsigned) =>
      var magnitude: int := unsigned;
      var wraps := HexText(digits) && s[0] != '-' && 0x8000_0000_0000_0000 <= magnitude < 0x1_0000_0000_0000_0000;
      var n: int :=
        if wraps then magnitude - 0x1_0000_0000_0000_0000 else if s[0] == '-' then -magnitude else magnitude;
      if -0x8000_0000_0000_0000 <= n < 0x8000_0000_0000_0000 then Some(n) else None
  }

  function IntegerIn(value: string, minimum: int, maximum: int): Result<int, ConfigError> {
    match TryParseInt(value)
    case None => Err(InvalidProfile)
    case Some(n) => if n < minimum || n > maximum then Err(InvalidProfile) else Ok(n)
  }

  /** One or two decimal numbers with a dash between; numbers beyond 64 bits make Dart's parser throw. */
  function RangeText(value: string): Result<string, ConfigError> {
    var parts := Split(value, '-');
    if |parts| > 2 || exists i :: 0 <= i < |parts| && (parts[i] == "" || !AllDigits(parts[i])) then Err(InvalidProfile)
    else
      var start, end := DecValue(parts[0]), DecValue(parts[|parts| - 1]);
      if start >= 0x8000_0000_0000_0000 || end >= 0x8000_0000_0000_0000 then Err(NumberFormat)
      else if start > 0xffff_ffff || end > 0xffff_ffff || start > end then Err(InvalidProfile)
      else Ok(value)
  }

  ////////// The WireGuard parser //////////

  datatype Section = InterfaceSection | PeerSection

  type Fields = map<string, seq<string>>

  datatype WgState = WgState(
    interface: Fields, peer: Fields, current: Option<Section>, interfaceCount: nat, peerCount: nat)

  const WG_START := WgState(map[], map[], None, 0, 0)

  const INTERFACE_KEYS := {"PrivateKey", "Address", "DNS"}
  const PEER_KEYS := {"PublicKey", "PresharedKey", "Endpoint", "AllowedIPs", "PersistentKeepalive"}

  function AddTo(fields: Fields, key: string, value: string): Fields {
    fields[key := (if key in fields then fields[key] else []) + [value]]
  }

  function WgStep(st: WgState, original: string): Result<WgState, ConfigError> {
    var line := Trim(original);
    if line == "" || line[0] == '#' || line[0] == ';' then Ok(st)
    else if line == "[Interface]" then
      Ok(st.(interfaceCount := st.interfaceCount + 1, current := Some(InterfaceSection)))
    else if line == "[Peer]" then
      Ok(st.(peerCount := st.peerCount + 1, current := Some(PeerSection)))
    else
      var separator := IndexOf(line, '=');
      if st.current.None? || separator == 0 || separator == |line| then Err(InvalidProfile)
      else
        var key, value := Trim(line[..separator]), Trim(line[separator + 1..]);
        var allowed := if st.current.value.InterfaceSection? then INTERFACE_KEYS else PEER_KEYS;
        if key !in allowed || value == "" then Err(UnsupportedField)
        else if st.current.value.InterfaceSection? then Ok(st.(interface := AddTo(st.interface, key, value)))
        else Ok(st.(peer := AddTo(st.peer, key, value)))
  }

  function WgScan(lines: seq<string>, st: WgState): Result<WgState, ConfigError> {
    if lines == [] then Ok(st)
    else
      var next :- WgStep(st, lines[0]);
      WgScan(lines[1..], next)
  }

  function Count(fields: Fields, key: string): nat { if key in fields then |fields[key]| else 0 }

  function TrimAll(vs: seq<string>): seq<string> {
    if vs == [] then []
    else
      var v := Trim(vs[0]);
      (if v == "" then [] else [v]) + TrimAll(vs[1..])
  }

  function CsvAll(values: seq<string>): seq<string> {
    if values == [] then [] else TrimAll(Split(values[0], ',')) + CsvAll(values[1..])
  }

  function Csv(fields: Fields, key: string): seq<string> { if key in fields then CsvAll(fields[key]) else [] }

  predicate ClientNetwork(value: string) {
    var parts := Split(value, '/');
    |parts| == 2 &&
    var address, prefix := IpText.Parse(parts[0]), TryParseInt(parts[1]);
    address.Some? && prefix.Some? && 0 <= prefix.value <= if address.value.V4? then 32 else 128
  }

  predicate ClientNetworks(values: seq<string>, minimum: nat, maximum: nat) {
    minimum <= |values| <= maximum && forall i :: 0 <= i < |values| ==> ClientNetwork(values[i])
  }

  /** The position just after the last `c`, or 0 when there is none. */
  function AfterLast(s: string, c: char): (i: nat)
    ensures i <= |s| && (i > 0 ==> s[i - 1] == c)
  {
    if s == "" then 0 else if s[|s| - 1] == c then |s| else AfterLast(s[..|s| - 1], c)
  }

  function PortOf(host: string, portText: string): Result<(string, int), ConfigError> {
    match TryParseInt(portText)
    case None => Err(InvalidEndpoint)
    case Some(port) => if port < 1 || port > 65535 then Err(InvalidEndpoint) else Ok((host, port))
  }

  function ParseEndpoint(value: string): Result<(string, int), ConfigError> {
    if value != "" && value[0] == '[' then
      var close := IndexOf(value, ']');
      if close <= 1 || close + 2 >= |value| || value[close + 1] != ':' then Err(InvalidEndpoint)
      else
        var host := value[1..close];
        if IpText.Parse(host).Some? && IpText.Parse(host).value.V6? then PortOf(host, value[close + 2..])
        else Err(InvalidEndpoint)
    else
      var after := AfterLast(value, ':');
      if after <= 1 || after == |value| then Err(InvalidEndpoint)
      else
        var host := value[..after - 1];
        if IpText.Parse(host).None? && !Contracts.ValidHostname(host) then Err(InvalidEndpoint)
        else PortOf(host, value[after..])
  }

  function ParseKeepalive(fields: Fields): Result<Option<int>, ConfigError> {
    if "PersistentKeepalive" !in fields then Ok(None)
    else if |fields["PersistentKeepalive"]| != 1 then Err(InvalidProfile)
    else
      match TryParseInt(fields["PersistentKeepalive"][0])
      case None => Err(InvalidKeepalive)
      case Some(n) =>
        if n < 0 || n > 65535 then Err(InvalidKeepalive) else Ok(if n == 0 then None else Some(n))
  }

  function DecodeKey(value: string): Result<Contracts.SecretKey, ConfigError> {
    match Base64.Decode(value)
    case None => Err(InvalidKey)
    case Some(bs) => if |bs| != 32 || (forall i :: 0 <= i < |bs| ==> bs[i] == 0) then Err(InvalidKey) else Ok(bs)
  }

  function WgFinish(st: WgState): Result<Client.ClientProfile, ConfigError> {
    if st.interfaceCount != 1 || st.peerCount != 1 then Err(InvalidProfile)
    else if Count(st.interface, "PrivateKey") != 1 || Count(st.peer, "PublicKey") != 1
         || Count(st.peer, "Endpoint") != 1 || Count(st.peer, "PresharedKey") > 1
         || Count(st.peer, "PersistentKeepalive") > 1 then Err(InvalidProfile)
    else
      var addresses, dns := Csv(st.interface, "Address"), Csv(st.interface, "DNS");
      var allowed := Csv(st.peer, "AllowedIPs");
      if !ClientNetworks(addresses, 1, 8) then Err(InvalidNetwork)
      else if |dns| > 8 || exists i :: 0 <= i < |dns| && IpText.Parse(dns[i]).None? then Err(InvalidDns)
      else if !ClientNetworks(allowed, 1, 32) then Err(InvalidNetwork)
      else
        var (host, port) :- ParseEndpoint(st.peer["Endpoint"][0]);
        var keepalive :- ParseKeepalive(st.peer);
        var privateKey :- DecodeKey(st.interface["PrivateKey"][0]);
        var publicKey :- DecodeKey(st.peer["PublicKey"][0]);
        if Count(st.peer, "PresharedKey") == 0 then
          Ok(Client.ClientProfile(privateKey, addresses, dns, publicKey, None, host, port, allowed, keepalive))
        else
          var preshared :- DecodeKey(st.peer["PresharedKey"][0]);
          Ok(Client.ClientProfile(privateKey, addresses, dns, publicKey, Some(preshared), host, port, allowed,
            keepalive))
  }

  predicate Oversized(source: string) { Units(source) > 64 * 1024 || '\0' in source }

  function ParseWireGuard(source: string): Result<Client.ClientProfile, ConfigError> {
    if Oversized(source) then Err(InvalidProfile)
    else
      var st :- WgScan(SplitLines(source), WG_START);
      WgFinish(st)
  }

  ////////// The AmneziaWG parser //////////

  datatype AwgState = AwgState(values: map<string, string>, kept: seq<string>, inInterface: bool)

  const AWG_START := AwgState(map[], [], false)

  const REQUIRED_KEYS := ["Jc", "Jmin", "Jmax", "S1", "S2", "S3", "S4", "H1", "H2", "H3", "H4"]
  const AWG_KEYS := REQUIRED_KEYS + ["I1", "I2", "I3", "I4", "I5"]

  predicate AcceptedValue(value: string) {
    value != "" && Units(value) <= 4096 && forall i ::
      0 <= i < |value| ==> value[i] as int >= 32 && value[i] as int != 127
  }

  function AwgStep(st: AwgState, original: string): Result<AwgState, ConfigError> {
    var line := Trim(original);
    var inside := if line == "[Peer]" then false else line == "[Interface]" || st.inInterface;
    var separator := IndexOf(line, '=');
    if 0 < separator < |line| && Trim(line[..separator]) in AWG_KEYS then
      var key, value := Trim(line[..separator]), Trim(line[separator + 1..]);
      if !inside || key in st.values || !AcceptedValue(value) then Err(InvalidProfile)
      else Ok(st.(values := st.values[key := value], inInterface := inside))
    else Ok(st.(kept := st.kept + [original], inInterface := inside))
  }

  function AwgScan(lines: seq<string>, st: AwgState): Result<AwgState, ConfigError> {
    if lines == [] then Ok(st)
    else
      var next :- AwgStep(st, lines[0]);
      AwgScan(lines[1..], next)
  }

  predicate HasAll(values: map<string, string>, keys: seq<string>) { forall i :: 0 <= i < |keys| ==> keys[i] in values }

  /** The special packets from `index` on; a gap in their numbering is an error. */
  function Special(values: map<string, string>, index: nat, missing: bool): Result<seq<string>, ConfigError>
    decreases 6 - index
  {
    if index > 5 then Ok([])
    else
      var key := "I" + Dec(index);
      if key !in values then Special(values, index + 1, true)
      else if missing then Err(InvalidProfile)
      else
        var others :- Special(values, index + 1, false);
        Ok([values[key]] + others)
  }

  function AwgFinish(st: AwgState): Result<Client.ClientAmneziaWg, ConfigError> {
    if !HasAll(st.values, REQUIRED_KEYS) then Err(InvalidProfile)
    else
      assert forall i :: 0 <= i < 11 ==> REQUIRED_KEYS[i] in st.values;
      var at := (i: nat) requires i < 11 => st.values[REQUIRED_KEYS[i]];
      var jc :- IntegerIn(at(0), 0, 10);
      var jmin :- IntegerIn(at(1), 64, 1024);
      var jmax :- IntegerIn(at(2), 64, 1024);
      if jmin > jmax then Err(InvalidProfile)
      else
        var special :- Special(st.values, 1, false);
        var wireGuard :- ParseWireGuard(Join(st.kept, "\n"));
        var s1 :- IntegerIn(at(3), 0, 64);
        var s2 :- IntegerIn(at(4), 0, 64);
        var s3 :- IntegerIn(at(5), 0, 64);
        var s4 :- IntegerIn(at(6), 0, 32);
        var h1 :- RangeText(at(7));
        var h2 :- RangeText(at(8));
        var h3 :- RangeText(at(9));
        var h4 :- RangeText(at(10));
        Ok(Client.ClientAmneziaWg(wireGuard, jc, jmin, jmax, s1, s2, s3, s4, h1, h2, h3, h4, special))
  }

  function ParseAmneziaWg(source: string): Result<Client.ClientAmneziaWg, ConfigError> {
    if Oversized(source) then Err(InvalidProfile)
    else
      var st :- AwgScan(SplitLines(source), AWG_START);
      AwgFinish(st)
  }

  ////////// The parsers as they run //////////

  method WireGuardParse(source: string) returns (r: Result<Client.ClientProfile, ConfigError>)
    ensures r == ParseWireGuard(source)
  {
    hide WgFinish, SplitLines, Trim, IndexOf, AddTo, Oversized;
    if Oversized(source) { return Err(InvalidProfile); }
    var interface: Fields, peer: Fields := map[], map[];
    var current: Option<Section> := None;
    var interfaceCount, peerCount := 0, 0;
    var lines := SplitLines(source);
    assert lines[0..] == lines;
    for i := 0 to |lines|
      invariant interfaceCount >= 0 && peerCount >= 0
      invariant WgScan(lines, WG_START)
        == WgScan(lines[i..], WgState(interface, peer, current, interfaceCount, peerCount))
    {
      ghost var st := WgState(interface, peer, current, interfaceCount, peerCount);
      assert lines[i..][1..] == lines[i + 1..];
      var line := Trim(lines[i]);
      if line == "" || line[0] == '#' || line[0] == ';' { continue; }
      if line == "[Interface]" {
        interfaceCount := interfaceCount + 1;
        current := Some(InterfaceSection);
        continue;
      }
      if line == "[Peer]" {
        peerCount := peerCount + 1;
        current := Some(PeerSection);
        continue;
      }
      var separator := IndexOf(line, '=');
      if current.None? || separator == 0 || separator == |line| { return Err(InvalidProfile); }
      var key, value := Trim(line[..separator]), Trim(line[separator + 1..]);
      var allowed := if current.value.InterfaceSection? then INTERFACE_KEYS else PEER_KEYS;
      if key !in allowed || value == "" { return Err(UnsupportedField); }
      if current.value.InterfaceSection? {
        interface := AddTo(interface, key, value);
      } else {
        peer := AddTo(peer, key, value);
      }
    }
    r := WgFinish(WgState(interface, peer, current, interfaceCount, peerCount));
  }

  method AmneziaWgParse(source: string) returns (r: Result<Client.ClientAmneziaWg, ConfigError>)
    ensures r == ParseAmneziaWg(source)
  {
    hide SplitLines, AcceptedValue, Oversized, AwgFinish;
    if Oversized(source) { return Err(InvalidProfile); }
    var values: map<string, string> := map[];
    var wireGuardLines: seq<string> := [];
    var inInterface := false;
    var lines := SplitLines(source);
    assert lines[0..] == lines;
    for i := 0 to |lines|
      invariant AwgScan(lines, AWG_START) == AwgScan(lines[i..], AwgState(values, wireGuardLines, inInterface))
    {
      ghost var st := AwgState(values, wireGuardLines, inInterface);
      assert lines[i..][1..] == lines[i + 1..];
      var line := Trim(lines[i]);
      if line == "[Interface]" { inInterface := true; }
      if line == "[Peer]" { inInterface := false; }
      var separator := IndexOf(line, '=');
      if 0 < separator < |line| && Trim(line[..separator]) in AWG_KEYS {
        var key := Trim(line[..separator]);
        if !inInterface || key in values { return Err(InvalidProfile); }
        var value := Trim(line[separator + 1..]);
        if !AcceptedValue(value) { return Err(InvalidProfile); }
        values := values[key := value];
      } else {
        wireGuardLines := wireGuardLines + [lines[i]];
      }
    }
    r := AmneziaWgFinish(AwgState(values, wireGuardLines, inInterface));
  }

  method AmneziaWgFinish(st: AwgState) returns (r: Result<Client.ClientAmneziaWg, ConfigError>)
    ensures r == AwgFinish(st)
  {
    hide IntegerIn, RangeText, ParseWireGuard, Dec;
    if !HasAll(st.values, REQUIRED_KEYS) { return Err(InvalidProfile); }
    var values := st.values;
    assert forall i :: 0 <= i < 11 ==> REQUIRED_KEYS[i] in values;
    var jc :- IntegerIn(values[REQUIRED_KEYS[0]], 0, 10);
    var jmin :- IntegerIn(values[REQUIRED_KEYS[1]], 64, 1024);
    var jmax :- IntegerIn(values[REQUIRED_KEYS[2]], 64, 1024);
    if jmin > jmax { return Err(InvalidProfile); }
    var special :- CollectSpecial(values);
    var wireGuard :- WireGuardParse(Join(st.kept, "\n"));
    var s1 :- IntegerIn(values[REQUIRED_KEYS[3]], 0, 64);
    var s2 :- IntegerIn(values[REQUIRED_KEYS[4]], 0, 64);
    var s3 :- IntegerIn(values[REQUIRED_KEYS[5]], 0, 64);
    var s4 :- IntegerIn(values[REQUIRED_KEYS[6]], 0, 32);
    var h1 :- RangeText(values[REQUIRED_KEYS[7]]);
    var h2 :- RangeText(values[REQUIRED_KEYS[8]]);
    var h3 :- RangeText(values[REQUIRED_KEYS[9]]);
    var h4 :- RangeText(values[REQUIRED_KEYS[10]]);
    r := Ok(Client.ClientAmneziaWg(wireGuard, jc, jmin, jmax, s1, s2, s3, s4, h1, h2, h3, h4, special));
  }

  lemma SpecialStep(values: map<string, string>, index: nat, missing: bool)
    requires index <= 5
    ensures var key := "I" + Dec(index);
      Special(values, index, missing) ==
      if key !in values then Special(values, index + 1, true)
      else if missing then Err(InvalidProfile)
      else
        match Special(values, index + 1, false)
        case Ok(others) => Ok([values[key]] + others)
        case Err(e) => Err(e)
  {
    hide Dec;
  }

  lemma NoSpecial(values: map<string, string>, missing: bool)
    ensures Special(values, 6, missing) == Ok([])
  {
  }

  /** What was collected, and what is still to be collected, make the whole. */
  predicate Collected(done: seq<string>, todo: Result<seq<string>, ConfigError>,
      whole: Result<seq<string>, ConfigError>)
  {
    match todo
    case Ok(others) => whole == Ok(done + others)
    case Err(e) => whole == Err(e)
  }

  lemma CollectedMore(done: seq<string>, value: string, todo: Result<seq<string>, ConfigError>,
      whole: Result<seq<string>, ConfigError>)
    requires Collected(done, match todo case Ok(others) => Ok([value] + others) case Err(e) => Err(e), whole)
    ensures Collected(done + [value], todo, whole)
  {
    if todo.Ok? { assert done + ([value] + todo.value) == (done + [value]) + todo.value; }
  }

  lemma CollectedNothing(whole: Result<seq<string>, ConfigError>)
    ensures Collected([], whole, whole)
  {
    if whole.Ok? { assert [] + whole.value == whole.value; }
  }

  lemma CollectedAll(done: seq<string>, whole: Result<seq<string>, ConfigError>)
    requires Collected(done, Ok([]), whole)
    ensures whole == Ok(done)
  {
    assert done + [] == done;
  }

  method CollectSpecial(values: map<string, string>) returns (r: Result<seq<string>, ConfigError>)
    ensures r == Special(values, 1, false)
  {
    hide Dec, Special, Collected;
    var special: seq<string> := [];
    var missing := false;
    var index := 1;
    ghost var whole := Special(values, 1, false);
    CollectedNothing(whole);
    while index <= 5
      invariant 1 <= index <= 6
      invariant Collected(special, Special(values, index, missing), whole)
    {
      SpecialStep(values, index, missing);
      var key := "I" + Dec(index);
      if key !in values {
        missing := true;
      } else {
        if missing {
          assert whole == Err(InvalidProfile) by { CollectedError(special, InvalidProfile, whole); }
          return Err(InvalidProfile);
        }
        CollectedMore(special, values[key], Special(values, index + 1, false), whole);
        special := special + [values[key]];
      }
      index := index + 1;
    }
    NoSpecial(values, missing);
    CollectedAll(special, whole);
    r := Ok(special);
  }

  lemma CollectedError(done: seq<string>, e: ConfigError, whole: Result<seq<string>, ConfigError>)
    requires Collected(done, Err(e), whole)
    ensures whole == Err(e)
  {
  }
}
