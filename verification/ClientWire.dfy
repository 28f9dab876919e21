/**
  The desktop client's own encoder and decoder, written separately from the service's: import and delete
  requests going out, responses coming in.
 */
module ClientWire {
  import opened Basics
  import opened Contracts
  import LE = LittleEndian
  import Utf8

  datatype ClientError = BadIdentifier | BadProfile | ProfileTooLarge | BadResponse | BadHandle

  /** The client's profiles keep DNS servers as text. */
  datatype ClientProfile = ClientProfile(
    privateKey: SecretKey, addresses: seq<string>, dnsServers: seq<string>, peerPublicKey: SecretKey,
    presharedKey: Option<SecretKey>, endpointHost: string, endpointPort: int, allowedIps: seq<string>,
    persistentKeepalive: Option<int>)

  datatype ClientAmneziaWg = ClientAmneziaWg(
    wireGuard: ClientProfile, jc: int, jmin: int, jmax: int, s1: int, s2: int, s3: int, s4: int,
    h1: string, h2: string, h3: string, h4: string, specialJunk: seq<string>)

  type Encoded = Result<Bytes, ClientError>

  ////////// Encoding //////////

  /** UTF-16: characters beyond the basic plane become surrogate pairs. */
  function CodeUnits(s: string): seq<U16> {
    if s == "" then []
    else
      var n := s[0] as int;
      (if n < 0x1_0000 then [n] else [0xD800 + (n - 0x1_0000) / 1024, 0xDC00 + (n - 0x1_0000) % 1024])
      + CodeUnits(s[1..])
  }

  /** `Uint8List.fromList` keeps the low byte of every number. */
  function LowBytes(ns: seq<int>): Bytes { seq(|ns|, i requires 0 <= i < |ns| => ns[i] % 256) }

  function Sized(bs: Bytes): Bytes { LowBytes([|bs|]) + bs }

  function BoundedString(v: string): Encoded {
    var bs := LowBytes(CodeUnits(v));
    if bs == [] || |bs| > 253 || 0 in bs then Err(BadProfile) else Ok(Sized(bs))
  }

  function OptionalBoundedString(v: string): Encoded {
    var bs := Utf8.Encode(v);
    if |bs| > 253 || 0 in bs then Err(BadProfile) else Ok(Sized(bs))
  }

  function U16Bytes(n: int): Bytes { LE.Put(n % 0x1_0000, 2) }

  function LongString(v: string): Encoded {
    var bs := Utf8.Encode(v);
    if bs == [] || |bs| > 4096 || (exists i :: 0 <= i < |v| && (v[i] as int < 32 || v[i] as int == 127))
    then Err(BadProfile) else Ok(U16Bytes(|bs|) + bs)
  }

  function IdentifierBytes(v: string): Encoded {
    if !ValidIdentifier(v) then Err(BadIdentifier) else BoundedString(v)
  }

  function BoundedStrings(vs: seq<string>): Encoded {
    if vs == [] then Ok([])
    else
      var first :- BoundedString(vs[0]);
      var others :- BoundedStrings(vs[1..]);
      Ok(first + others)
  }

  function LongStrings(vs: seq<string>): Encoded {
    if vs == [] then Ok([])
    else
      var first :- LongString(vs[0]);
      var others :- LongStrings(vs[1..]);
      Ok(first + others)
  }

  function StringList(vs: seq<string>): Encoded {
    var items :- BoundedStrings(vs);
    Ok(LowBytes([|vs|]) + items)
  }

  function OptionalKey(k: Option<SecretKey>): Bytes { if k.Some? then [1] + k.value else [0] }

  function OptionalU16(n: Option<int>): Bytes { if n.Some? then [1] + U16Bytes(n.value) else [0] }

  function ProfileBytes(p: ClientProfile): Encoded {
    var addresses :- StringList(p.addresses);
    var dns :- StringList(p.dnsServers);
    var host :- BoundedString(p.endpointHost);
    var allowed :- StringList(p.allowedIps);
    Ok(p.privateKey + (addresses + (dns + (p.peerPublicKey + (OptionalKey(p.presharedKey)
       + (host + (U16Bytes(p.endpointPort) + (allowed + OptionalU16(p.persistentKeepalive)))))))))
  }

  function U16All(ns: seq<int>): Bytes { if ns == [] then [] else U16Bytes(ns[0]) + U16All(ns[1..]) }

  function ClientNumbers(p: ClientAmneziaWg): seq<int> { [p.jc, p.jmin, p.jmax, p.s1, p.s2, p.s3, p.s4] }

  function ClientHeaders(p: ClientAmneziaWg): seq<string> { [p.h1, p.h2, p.h3, p.h4] }

  function AmneziaWgBytes(p: ClientAmneziaWg): Encoded {
    var base :- ProfileBytes(p.wireGuard);
    var headers :- BoundedStrings(ClientHeaders(p));
    var junk :- LongStrings(p.specialJunk);
    Ok(base + (U16All(ClientNumbers(p)) + (headers + (LowBytes([|p.specialJunk|]) + junk))))
  }

  function VlessBytes(p: VlessProfile): Encoded {
    var clientId :- BoundedString(p.clientId);
    var host :- BoundedString(p.endpointHost);
    var name :- BoundedString(p.serverName);
    var fingerprint :- BoundedString(p.fingerprint);
    var password :- BoundedString(p.realityPassword);
    var shortId :- OptionalBoundedString(p.shortId);
    var spiderX :- LongString(p.spiderX);
    Ok(clientId + (host + (U16Bytes(p.endpointPort) + (name + (fingerprint + (password + (shortId + spiderX)))))))
  }

  function Frame(opcode: Byte, body: Bytes): Encoded {
    if |body| + 12 > 32768 then Err(ProfileTooLarge)
    else Ok([0x4b, 0x56, 0x50, 0x4e] + LE.Put(4, 2) + [opcode, 0] + LE.Put(|body|, 4) + body)
  }

  function ImportFrame(opcode: Byte, requestId: string, operationId: string, profile: Encoded): Encoded {
    var request :- IdentifierBytes(requestId);
    var operation :- IdentifierBytes(operationId);
    var bytes :- profile;
    Frame(opcode, request + (operation + bytes))
  }

  function EncodeImport(requestId: string, operationId: string, p: ClientProfile): Encoded {
    ImportFrame(5, requestId, operationId, ProfileBytes(p))
  }

  function EncodeAmneziaWgImport(requestId: string, operationId: string, p: ClientAmneziaWg): Encoded {
    ImportFrame(8, requestId, operationId, AmneziaWgBytes(p))
  }

  function EncodeVlessImport(requestId: string, operationId: string, p: VlessProfile): Encoded {
    ImportFrame(9, requestId, operationId, VlessBytes(p))
  }

  function EncodeDelete(requestId: string, operationId: string, profileId: string): Encoded {
    ImportFrame(6, requestId, operationId, IdentifierBytes(profileId))
  }

  ////////// Decoding //////////

  datatype ClientResponse = ClientResponse(
    phase: nat, profileId: Option<string>, killSwitchActive: bool, code: string,
    bytesReceived: Option<int>, bytesSent: Option<int>, lastHandshakeUnixMs: Option<int>)

  type Read<T> = Result<(T, Bytes), ClientError>

  function ReadByte(s: Bytes): Read<Byte> { if s == [] then Err(BadResponse) else Ok((s[0], s[1..])) }

  /** `String.fromCharCodes` makes one character of each byte. */
  function Latin(bs: Bytes): string { seq(|bs|, i requires 0 <= i < |bs| => bs[i] as char) }

  function ReadString(s: Bytes): Read<string> {
    var (n, rest) :- ReadByte(s);
    if n > |rest| then Err(BadResponse) else Ok((Latin(rest[..n]), rest[n..]))
  }

  /** Dart integers are signed, so `getUint64` gives counters from 2^63 up as negative numbers. */
  function ReadInt64(s: Bytes): Read<int> {
    if |s| < 8 then Err(BadResponse) else Ok((LE.Signed(LE.GetU64(s[..8])), s[8..]))
  }

  function ReadPhase(s: Bytes): Read<nat> {
    var (b, rest) :- ReadByte(s);
    if b > 9 then Err(BadResponse) else Ok((b, rest))
  }

  function ReadFlag(s: Bytes): Read<bool> {
    var (b, rest) :- ReadByte(s);
    if b > 1 then Err(BadResponse) else Ok((b == 1, rest))
  }

  function ReadOptionalString(s: Bytes): Read<Option<string>> {
    var (present, s1) :- ReadFlag(s);
    if !present then Ok((None, s1))
    else
      var (v, rest) :- ReadString(s1);
      Ok((Some(v), rest))
  }

  datatype ClientStatistics = ClientStatistics(received: Option<int>, sent: Option<int>, handshake: Option<int>)

  function ReadOptionalInt64(s: Bytes): Read<Option<int>> {
    var (present, s1) :- ReadFlag(s);
    if !present then Ok((None, s1))
    else
      var (n, rest) :- ReadInt64(s1);
      Ok((Some(n), rest))
  }

  function ReadStatistics(s: Bytes): Read<ClientStatistics> {
    var (present, s1) :- ReadFlag(s);
    if !present then Ok((ClientStatistics(None, None, None), s1))
    else
      var (received, s2) :- ReadInt64(s1);
      var (sent, s3) :- ReadInt64(s2);
      var (handshake, rest) :- ReadOptionalInt64(s3);
      Ok((ClientStatistics(Some(received), Some(sent), handshake), rest))
  }

  predicate GoodEnvelope(frame: Bytes) {
    12 <= |frame| <= 32768
    && frame[0] == 0x4b && frame[1] == 0x56 && frame[2] == 0x50 && frame[3] == 0x4e
    && LE.GetU16(frame[4..6]) == 4 && frame[6] == 0x81 && frame[7] == 0
    && LE.GetU32(frame[8..12]) == |frame| - 12
  }

  function ClientDecode(frame: Bytes, expected: string): Result<ClientResponse, ClientError> {
    if !GoodEnvelope(frame) then Err(BadResponse)
    else
      var (requestId, s1) :- ReadString(frame[12..]);
      var (phase, s2) :- ReadPhase(s1);
      var (profileId, s3) :- ReadOptionalString(s2);
      var (killSwitch, s4) :- ReadFlag(s3);
      var (code, s5) :- ReadString(s4);
      var (statistics, rest) :- ReadStatistics(s5);
      if rest != [] || requestId != expected || !ValidIdentifier(code)
         || (profileId.Some? && !ValidIdentifier(profileId.value))
      then Err(BadResponse)
      else Ok(ClientResponse(phase, profileId, killSwitch, code, statistics.received, statistics.sent,
        statistics.handshake))
  }

  ////////// The client as it runs //////////

  /** The reader returned what `spec` says and stands before what `spec` left over. */
  ghost predicate Agrees<T>(spec: Read<T>, r: Result<T, ClientError>, rest: Bytes) {
    match spec
    case Ok((v, s)) => r == Ok(v) && rest == s
    case Err(e) => r == Err(e)
  }

  class Cursor {
    const bytes: Bytes
    var offset: nat

    constructor (bytes: Bytes, offset: nat)
      requires offset <= |bytes|
      ensures Valid() && this.bytes == bytes && Rest() == bytes[offset..]
    {
      this.bytes := bytes;
      this.offset := offset;
    }

    ghost predicate Valid()
      reads this
    {
      offset <= |bytes|
    }

    ghost function Rest(): Bytes
      reads this
      requires Valid()
    {
      bytes[offset..]
    }

    predicate Finished()
      reads this
      requires Valid()
      ensures Finished() <==> Rest() == []
    {
      offset == |bytes|
    }

    method Next() returns (r: Result<Byte, ClientError>)
      requires Valid()
      modifies this`offset
      ensures Valid() && Agrees(ReadByte(old(Rest())), r, Rest())
    {
      if offset >= |bytes| { return Err(BadResponse); }
      r := Ok(bytes[offset]);
      offset := offset + 1;
    }

    method String() returns (r: Result<string, ClientError>)
      requires Valid()
      modifies this`offset
      ensures Valid() && Agrees(ReadString(old(Rest())), r, Rest())
    {
      var length :- Next();
      var end := offset + length;
      if end > |bytes| { return Err(BadResponse); }
      assert bytes[offset..][..length] == bytes[offset..end] && bytes[offset..][length..] == bytes[end..];
      r := Ok(Latin(bytes[offset..end]));
      offset := end;
    }

    method Int64() returns (r: Result<int, ClientError>)
      requires Valid()
      modifies this`offset
      ensures Valid() && Agrees(ReadInt64(old(Rest())), r, Rest())
    {
      if offset + 8 > |bytes| { return Err(BadResponse); }
      assert bytes[offset..][..8] == bytes[offset..offset + 8] && bytes[offset..][8..] == bytes[offset + 8..];
      r := Ok(LE.Signed(LE.GetU64(bytes[offset..offset + 8])));
      offset := offset + 8;
    }

    method Flag() returns (r: Result<bool, ClientError>)
      requires Valid()
      modifies this`offset
      ensures Valid() && Agrees(ReadFlag(old(Rest())), r, Rest())
    {
      var b :- Next();
      if b > 1 { return Err(BadResponse); }
      r := Ok(b == 1);
    }

    method OptionalString() returns (r: Result<Option<string>, ClientError>)
      requires Valid()
      modifies this`offset
      ensures Valid() && Agrees(ReadOptionalString(old(Rest())), r, Rest())
    {
      hide ReadString;
      var present :- Flag();
      if !present { return Ok(None); }
      var v :- String();
      r := Ok(Some(v));
    }

    method Statistics() returns (r: Result<ClientStatistics, ClientError>)
      requires Valid()
      modifies this`offset
      ensures Valid() && Agrees(ReadStatistics(old(Rest())), r, Rest())
    {
      hide ReadInt64, ReadFlag;
      var present :- Flag();
      if !present { return Ok(ClientStatistics(None, None, None)); }
      var received :- Int64();
      var sent :- Int64();
      var hasHandshake :- Flag();
      if !hasHandshake { return Ok(ClientStatistics(Some(received), Some(sent), None)); }
      var handshake :- Int64();
      r := Ok(ClientStatistics(Some(received), Some(sent), Some(handshake)));
    }
  }

  method DecodeVpnIpcResponse(frame: Bytes, expected: string) returns (r: Result<ClientResponse, ClientError>)
    ensures r == ClientDecode(frame, expected)
  {
    hide GoodEnvelope, ReadString, ReadOptionalString, ReadFlag, ReadStatistics, ValidIdentifier;
    if !GoodEnvelope(frame) { return Err(BadResponse); }
    EnvelopeHasHeader(frame);
    var cursor := new Cursor(frame, 12);
    var requestId :- cursor.String();
    var phase :- cursor.Next();
    if phase > 9 { return Err(BadResponse); }
    var profileId :- cursor.OptionalString();
    var killSwitch :- cursor.Flag();
    var code :- cursor.String();
    var statistics :- cursor.Statistics();
    if !cursor.Finished() || requestId != expected || !ValidIdentifier(code)
       || (profileId.Some? && !ValidIdentifier(profileId.value)) {
      return Err(BadResponse);
    }
    r := Ok(ClientResponse(phase, profileId, killSwitch, code, statistics.received, statistics.sent,
      statistics.handshake));
  }

  lemma EnvelopeHasHeader(frame: Bytes)
    requires GoodEnvelope(frame)
    ensures |frame| >= 12
  {
  }

  /** What is left to encode decides the result: the invariant of the encoder's loops. */
  ghost predicate Continues(whole: Encoded, written: Bytes, remaining: Encoded) {
    match remaining
    case Ok(bs) => whole == Ok(written + bs)
    case Err(e) => whole == Err(e)
  }

  /** The part that the plain and the AmneziaWG import have in common. */
  method BuildProfile(p: ClientProfile) returns (r: Encoded)
    ensures r == ProfileBytes(p)
  {
    hide StringList, BoundedString, OptionalKey, OptionalU16, U16Bytes;
    var addresses :- StringList(p.addresses);
    var dns :- StringList(p.dnsServers);
    var host :- BoundedString(p.endpointHost);
    var allowed :- StringList(p.allowedIps);
    var body: Bytes := p.privateKey;
    body := body + addresses;
    body := body + dns;
    body := body + p.peerPublicKey;
    body := body + OptionalKey(p.presharedKey);
    body := body + host;
    body := body + U16Bytes(p.endpointPort);
    body := body + allowed;
    body := body + OptionalU16(p.persistentKeepalive);
    r := Ok(body);
    LeftToRight(p.privateKey, addresses, dns, p.peerPublicKey, OptionalKey(p.presharedKey), host,
      U16Bytes(p.endpointPort), allowed, OptionalU16(p.persistentKeepalive));
  }

  lemma LeftToRight(a: Bytes, b: Bytes, c: Bytes, d: Bytes, e: Bytes, f: Bytes, g: Bytes, h: Bytes, i: Bytes)
    ensures a + b + c + d + e + f + g + h + i == a + (b + (c + (d + (e + (f + (g + (h + i)))))))
  {
    assert a + b + c + d + e + f + g + h + i == a + b + c + d + e + f + (g + (h + i));
    assert a + b + c + d + e + f + (g + (h + i)) == a + b + c + (d + (e + (f + (g + (h + i)))));
    assert a + b + c + (d + (e + (f + (g + (h + i))))) == a + (b + (c + (d + (e + (f + (g + (h + i)))))));
  }

  method AddNumbers(start: Bytes, numbers: seq<int>) returns (body: Bytes)
    ensures body == start + U16All(numbers)
  {
    hide U16Bytes, U16All;
    body := start;
    ghost var written: Bytes := [];
    assert numbers[0..] == numbers;
    for i := 0 to |numbers|
      invariant body == start + written
      invariant U16All(numbers) == written + U16All(numbers[i..])
    {
      NextNumber(written, numbers, i);
      body := body + U16Bytes(numbers[i]);
      written := written + U16Bytes(numbers[i]);
    }
    NoMoreNumbers(written, numbers);
  }

  lemma NextNumber(written: Bytes, numbers: seq<int>, i: nat)
    requires i < |numbers|
    ensures written + U16All(numbers[i..]) == (written + U16Bytes(numbers[i])) + U16All(numbers[i + 1..])
  {
    hide U16Bytes;
    assert numbers[i..][1..] == numbers[i + 1..];
  }

  lemma NoMoreNumbers(written: Bytes, numbers: seq<int>)
    ensures written + U16All(numbers[|numbers|..]) == written
  {
  }

  method AddBounded(start: Bytes, values: seq<string>) returns (r: Encoded)
    ensures r == match BoundedStrings(values) case Ok(bs) => Ok(start + bs) case Err(e) => Err(e)
  {
    hide BoundedString;
    var body := start;
    ghost var written: Bytes := [];
    assert values[0..] == values;
    FromStart(BoundedStrings(values));
    for i := 0 to |values|
      invariant body == start + written
      invariant Continues(BoundedStrings(values), written, BoundedStrings(values[i..]))
    {
      assert values[i..][1..] == values[i + 1..];
      var item :- BoundedString(values[i]);
      NextItem(written, item, BoundedStrings(values[i + 1..]));
      body := body + item;
      written := written + item;
    }
    assert written + [] == written;
    r := Ok(body);
  }

  method AddLong(start: Bytes, values: seq<string>) returns (r: Encoded)
    ensures r == match LongStrings(values) case Ok(bs) => Ok(start + bs) case Err(e) => Err(e)
  {
    hide LongString;
    var body := start;
    ghost var written: Bytes := [];
    assert values[0..] == values;
    FromStart(LongStrings(values));
    for i := 0 to |values|
      invariant body == start + written
      invariant Continues(LongStrings(values), written, LongStrings(values[i..]))
    {
      assert values[i..][1..] == values[i + 1..];
      var item :- LongString(values[i]);
      NextItem(written, item, LongStrings(values[i + 1..]));
      body := body + item;
      written := written + item;
    }
    assert written + [] == written;
    r := Ok(body);
  }

  method BuildAmneziaWg(p: ClientAmneziaWg) returns (r: Encoded)
    ensures r == AmneziaWgBytes(p)
  {
    hide ProfileBytes, BoundedStrings, LongStrings, U16All;
    var base :- BuildProfile(p.wireGuard);
    var numbers := ClientNumbers(p);
    var body := AddNumbers(base, numbers);
    var headers := ClientHeaders(p);
    body :- AddBounded(body, headers);
    body := body + LowBytes([|p.specialJunk|]);
    body :- AddLong(body, p.specialJunk);
    r := Ok(body);
    FiveParts(base, U16All(numbers), BoundedStrings(headers).value, LowBytes([|p.specialJunk|]),
      LongStrings(p.specialJunk).value);
  }

  lemma FiveParts(a: Bytes, b: Bytes, c: Bytes, d: Bytes, e: Bytes)
    ensures a + b + c + d + e == a + (b + (c + (d + e)))
  {
  }

  lemma FromStart(whole: Encoded)
    ensures Continues(whole, [], whole)
  {
    if whole.Ok? { assert [] + whole.value == whole.value; }
  }

  lemma NextItem(written: Bytes, item: Bytes, others: Encoded)
    ensures others.Ok? ==> written + (item + others.value) == (written + item) + others.value
  {
  }
}
