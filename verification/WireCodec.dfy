/**
  The codec as the service runs it: writers append to a growing buffer, and a cursor moves over the
  input. Every method is tied to the `Put*` or `Take*` function that says what it writes or reads.
 */
module WireCodec {
  import opened Basics
  import opened Contracts
  import opened Wire
  import LE = LittleEndian
  import Utf8

  class Buffer {
    var bytes: Bytes

    constructor ()
      ensures bytes == []
    {
      bytes := [];
    }

    method Push(b: Byte)
      modifies this
      ensures bytes == old(bytes) + [b]
    {
      bytes := bytes + [b];
    }

    method Extend(bs: Bytes)
      modifies this
      ensures bytes == old(bytes) + bs
    {
      bytes := bytes + bs;
    }
  }

  /** A writer appended exactly what `spec` says, or failed with its error and only appended. */
  ghost predicate Wrote(spec: Put, r: Result<(), FrameError>, before: Bytes, after: Bytes) {
    match spec
    case Ok(bs) => r == Ok(()) && after == before + bs
    case Err(e) => r == Err(e) && before <= after
  }

  method PutStringTo(target: Buffer, value: string) returns (r: Result<(), FrameError>)
    modifies target
    ensures Wrote(PutString(value), r, old(target.bytes), target.bytes)
  {
    var _ :- RequireId(value);
    var bs := Utf8.Encode(value);
    if |bs| > 255 { return Err(InvalidIdentifier); }
    target.Push(|bs|);
    target.Extend(bs);
    r := Ok(());
    assert target.bytes == old(target.bytes) + Counted(bs);
  }

  method PutBoundedTo(target: Buffer, value: string, maximum: nat) returns (r: Result<(), FrameError>)
    modifies target
    ensures Wrote(PutBounded(value, maximum), r, old(target.bytes), target.bytes)
  {
    var bs := Utf8.Encode(value);
    if value == "" || |bs| > maximum || '\0' in value { return Err(InvalidProfile); }
    if |bs| > 255 { return Err(InvalidProfile); }
    target.Push(|bs|);
    target.Extend(bs);
    r := Ok(());
    assert target.bytes == old(target.bytes) + Counted(bs);
  }

  method PutOptionalBoundedTo(target: Buffer, value: string, maximum: nat) returns (r: Result<(), FrameError>)
    modifies target
    ensures Wrote(PutOptionalBounded(value, maximum), r, old(target.bytes), target.bytes)
  {
    var bs := Utf8.Encode(value);
    if |bs| > maximum || '\0' in value { return Err(InvalidProfile); }
    if |bs| > 255 { return Err(InvalidProfile); }
    target.Push(|bs|);
    target.Extend(bs);
    r := Ok(());
    assert target.bytes == old(target.bytes) + Counted(bs);
  }

  method PutLongTo(target: Buffer, value: string) returns (r: Result<(), FrameError>)
    modifies target
    ensures Wrote(PutLong(value), r, old(target.bytes), target.bytes)
  {
    if !ValidLongString(value) { return Err(InvalidProfile); }
    var bs := Utf8.Encode(value);
    target.Extend(LE.Put(|bs|, 2));
    target.Extend(bs);
    r := Ok(());
    assert target.bytes == old(target.bytes) + (LE.Put(|bs|, 2) + bs);
  }

  /** What remains of a list decides the whole: the loop invariant of the two list writers. */
  ghost predicate Continues(whole: Put, written: Bytes, remaining: Put) {
    match remaining
    case Ok(bs) => whole == Ok(written + bs)
    case Err(e) => whole == Err(e)
  }

  lemma ContinuesFromStart(whole: Put)
    ensures Continues(whole, [], whole)
  {
    if whole.Ok? { assert [] + whole.value == whole.value; }
  }

  lemma BoundedAllStep(whole: Put, written: Bytes, vs: seq<string>)
    requires vs != [] && Continues(whole, written, PutBoundedAll(vs))
    ensures match PutBounded(vs[0], 253)
      case Ok(bs) => Continues(whole, written + bs, PutBoundedAll(vs[1..]))
      case Err(e) => whole == Err(e)
  {
    hide PutBounded;
    if PutBounded(vs[0], 253).Ok? && PutBoundedAll(vs[1..]).Ok? {
      var a, b := PutBounded(vs[0], 253).value, PutBoundedAll(vs[1..]).value;
      assert written + (a + b) == (written + a) + b;
    }
  }

  lemma LongAllStep(whole: Put, written: Bytes, vs: seq<string>)
    requires vs != [] && Continues(whole, written, PutLongAll(vs))
    ensures match PutLong(vs[0])
      case Ok(bs) => Continues(whole, written + bs, PutLongAll(vs[1..]))
      case Err(e) => whole == Err(e)
  {
    hide PutLong;
    if PutLong(vs[0]).Ok? && PutLongAll(vs[1..]).Ok? {
      var a, b := PutLong(vs[0]).value, PutLongAll(vs[1..]).value;
      assert written + (a + b) == (written + a) + b;
    }
  }

  method PutBoundedAllTo(target: Buffer, values: seq<string>) returns (r: Result<(), FrameError>)
    modifies target
    ensures Wrote(PutBoundedAll(values), r, old(target.bytes), target.bytes)
  {
    hide PutBounded;
    var i := 0;
    ghost var start, written := target.bytes, [];
    ContinuesFromStart(PutBoundedAll(values));
    assert values[0..] == values;
    while i < |values|
      invariant 0 <= i <= |values|
      invariant target.bytes == start + written
      invariant Continues(PutBoundedAll(values), written, PutBoundedAll(values[i..]))
    {
      BoundedAllStep(PutBoundedAll(values), written, values[i..]);
      var put := PutBoundedTo(target, values[i], 253);
      if put.Err? { return put; }
      written := written + PutBounded(values[i], 253).value;
      assert values[i..][1..] == values[i + 1..];
      i := i + 1;
    }
    r := Ok(());
    assert written + [] == written;
  }

  method PutStringList(target: Buffer, values: seq<string>) returns (r: Result<(), FrameError>)
    modifies target
    ensures Wrote(PutList(values), r, old(target.bytes), target.bytes)
  {
    if |values| > 255 { return Err(InvalidProfile); }
    target.Push(|values|);
    r := PutBoundedAllTo(target, values);
    if r.Ok? {
      assert target.bytes == old(target.bytes) + ([|values|] + PutBoundedAll(values).value);
    }
  }

  method PutOptionalKeyTo(target: Buffer, key: Option<SecretKey>)
    modifies target
    ensures target.bytes == old(target.bytes) + PutOptionalKey(key)
  {
    match key {
      case Some(k) =>
        target.Push(1);
        target.Extend(k);
        assert target.bytes == old(target.bytes) + ([1] + k);
      case None => target.Push(0);
    }
  }

  method PutOptionalU16To(target: Buffer, n: Option<U16>)
    modifies target
    ensures target.bytes == old(target.bytes) + PutOptionalU16(n)
  {
    match n {
      case Some(v) =>
        target.Push(1);
        target.Extend(LE.Put(v, 2));
        assert target.bytes == old(target.bytes) + ([1] + LE.Put(v, 2));
      case None => target.Push(0);
    }
  }

  /** Appending nine pieces one by one is appending them together. */
  lemma Nine(z: Bytes, a: Bytes, b: Bytes, c: Bytes, d: Bytes, e: Bytes, f: Bytes, g: Bytes, h: Bytes, i: Bytes)
    ensures z + a + b + c + d + e + f + g + h + i == z + (a + (b + (c + (d + (e + (f + (g + (h + i))))))))
  {
    Four(z, a, b, c, d + (e + (f + (g + (h + i)))));
    Four(z + a + b + c, d, e, f, g + (h + i));
    Four(z + a + b + c + d + e + f, g, h, i, []);
    assert g + (h + (i + [])) == g + (h + i);
    assert z + a + b + c + d + e + f + g + h + i + [] == z + a + b + c + d + e + f + g + h + i;
  }

  lemma Four(z: Bytes, a: Bytes, b: Bytes, c: Bytes, rest: Bytes)
    ensures z + a + b + c + rest == z + (a + (b + (c + rest)))
  {
    assert z + a + b + c + rest == z + a + b + (c + rest);
    assert z + a + b + (c + rest) == z + a + (b + (c + rest));
    assert z + a + (b + (c + rest)) == z + (a + (b + (c + rest)));
  }

  method PutProfileTo(target: Buffer, p: WireGuardProfile) returns (r: Result<(), FrameError>)
    modifies target
    ensures Wrote(PutProfile(p), r, old(target.bytes), target.bytes)
  {
    hide PutList, PutBounded, PutOptionalKey, PutOptionalU16, LE.Put;
    target.Extend(p.privateKey);
    var _ :- PutStringList(target, p.addresses);
    var dns := PrintAll(p.dnsServers);
    var _ :- PutStringList(target, dns);
    target.Extend(p.peerPublicKey);
    PutOptionalKeyTo(target, p.presharedKey);
    var _ :- PutBoundedTo(target, p.endpointHost, 253);
    target.Extend(LE.Put(p.endpointPort, 2));
    var _ :- PutStringList(target, p.allowedIps);
    PutOptionalU16To(target, p.persistentKeepalive);
    r := Ok(());
    Nine(old(target.bytes), p.privateKey, PutList(p.addresses).value, PutList(dns).value, p.peerPublicKey,
      PutOptionalKey(p.presharedKey), PutBounded(p.endpointHost, 253).value, LE.Put(p.endpointPort, 2),
      PutList(p.allowedIps).value, PutOptionalU16(p.persistentKeepalive));
  }

  method PutNumbersTo(target: Buffer, numbers: seq<U16>)
    modifies target
    ensures target.bytes == old(target.bytes) + PutNumbers(numbers)
  {
    hide LE.Put, PutNumbers;
    ghost var written: Bytes := [];
    var i := 0;
    assert numbers[0..] == numbers;
    while i < |numbers|
      invariant 0 <= i <= |numbers|
      invariant target.bytes == old(target.bytes) + written
      invariant PutNumbers(numbers) == written + PutNumbers(numbers[i..])
    {
      PutNumbersStep(numbers, i, written);
      target.Extend(LE.Put(numbers[i], 2));
      written := written + LE.Put(numbers[i], 2);
      i := i + 1;
    }
    NoNumbersLeft(numbers, written);
  }

  lemma PutNumbersStep(numbers: seq<U16>, i: nat, written: Bytes)
    requires i < |numbers|
    ensures written + PutNumbers(numbers[i..]) == (written + LE.Put(numbers[i], 2)) + PutNumbers(numbers[i + 1..])
  {
    hide LE.Put;
    assert numbers[i..][1..] == numbers[i + 1..];
  }

  lemma NoNumbersLeft(numbers: seq<U16>, written: Bytes)
    ensures written + PutNumbers(numbers[|numbers|..]) == written
  {
  }

  method PutLongAllTo(target: Buffer, values: seq<string>) returns (r: Result<(), FrameError>)
    modifies target
    ensures Wrote(PutLongAll(values), r, old(target.bytes), target.bytes)
  {
    hide PutLong;
    var i := 0;
    ghost var start, written := target.bytes, [];
    ContinuesFromStart(PutLongAll(values));
    assert values[0..] == values;
    while i < |values|
      invariant 0 <= i <= |values|
      invariant target.bytes == start + written
      invariant Continues(PutLongAll(values), written, PutLongAll(values[i..]))
    {
      LongAllStep(PutLongAll(values), written, values[i..]);
      var put := PutLongTo(target, values[i]);
      if put.Err? { return put; }
      written := written + PutLong(values[i]).value;
      assert values[i..][1..] == values[i + 1..];
      i := i + 1;
    }
    r := Ok(());
    assert written + [] == written;
  }

  method PutAmneziaWgTo(target: Buffer, p: AmneziaWgProfile) returns (r: Result<(), FrameError>)
    modifies target
    ensures Wrote(PutAmneziaWg(p), r, old(target.bytes), target.bytes)
  {
    hide PutProfileWith, PutNumbers, PutBoundedAll, PutLongAll;
    var _ :- PutProfileTo(target, p.wireguard);
    PutNumbersTo(target, Numbers(p));
    var _ :- PutBoundedAllTo(target, Headers(p));
    if |p.specialJunk| > 255 { return Err(InvalidProfile); }
    target.Push(|p.specialJunk|);
    var _ :- PutLongAllTo(target, p.specialJunk);
    r := Ok(());
    var base, headers, junk := PutProfile(p.wireguard).value, PutBoundedAll(Headers(p)).value,
      PutLongAll(p.specialJunk).value;
    Four(old(target.bytes), base, PutNumbers(Numbers(p)), headers, [|p.specialJunk|] + junk);
    assert old(target.bytes) + base + PutNumbers(Numbers(p)) + headers + [|p.specialJunk|] + junk
        == old(target.bytes) + base + PutNumbers(Numbers(p)) + headers + ([|p.specialJunk|] + junk);
  }

  method PutVlessTo(target: Buffer, p: VlessProfile) returns (r: Result<(), FrameError>)
    modifies target
    ensures Wrote(PutVless(p), r, old(target.bytes), target.bytes)
  {
    hide PutBounded, PutOptionalBounded, PutLong, LE.Put;
    var _ :- PutBoundedTo(target, p.clientId, 36);
    var _ :- PutBoundedTo(target, p.endpointHost, 253);
    target.Extend(LE.Put(p.endpointPort, 2));
    var _ :- PutBoundedTo(target, p.serverName, 253);
    var _ :- PutBoundedTo(target, p.fingerprint, 32);
    var _ :- PutBoundedTo(target, p.realityPassword, 128);
    var _ :- PutOptionalBoundedTo(target, p.shortId, 16);
    var _ :- PutLongTo(target, p.spiderX);
    r := Ok(());
    Nine(old(target.bytes), [], PutBounded(p.clientId, 36).value, PutBounded(p.endpointHost, 253).value,
      LE.Put(p.endpointPort, 2), PutBounded(p.serverName, 253).value, PutBounded(p.fingerprint, 32).value,
      PutBounded(p.realityPassword, 128).value, PutOptionalBounded(p.shortId, 16).value, PutLong(p.spiderX).value);
    assert old(target.bytes) + [] == old(target.bytes);
    assert [] + PutVless(p).value == PutVless(p).value;
  }

  method EncodeFrameBytes(opcode: Byte, body: Bytes) returns (r: Put)
    ensures r == EncodeFrame(opcode, body)
  {
    if |body| + 12 > MAX_FRAME_SIZE { return Err(TooLarge); }
    var frame := new Buffer();
    frame.Extend(MAGIC);
    frame.Extend(LE.Put(CONTRACT_VERSION, 2));
    frame.Push(opcode);
    frame.Push(0);
    frame.Extend(LE.Put(|body|, 4));
    frame.Extend(body);
    r := Ok(frame.bytes);
    assert frame.bytes == Header(opcode, |body|) + body;
  }

  lemma RefusedId(v: string)
    ensures PutString(v).Ok? ==> ValidIdentifier(v)
    ensures PutString(v).Err? ==> PutString(v) == Err(InvalidIdentifier)
  {
  }

  method PutCommandTo(body: Buffer, c: ControlCommand) returns (r: Result<(), FrameError>)
    modifies body
    ensures Wrote(PutCommand(c), r, old(body.bytes), body.bytes)
  {
    hide PutString, PutProfileWith, PutAmneziaWgWith, PutVless, ValidWireGuard, ValidAmneziaWg, ValidVless;
    ghost var start := body.bytes;
    assert start + [] == start;
    match c {
      case Status => r := Ok(());
      case Diagnostics => r := Ok(());
      case Statistics => r := Ok(());
      case Connect(operationId, profileId, protocol, killSwitch) =>
        RefusedId(operationId);
        RefusedId(profileId);
        var _ :- RequireId(operationId);
        var _ :- RequireId(profileId);
        var _ :- PutStringTo(body, operationId);
        var _ :- PutStringTo(body, profileId);
        body.Push(ProtocolByte(protocol));
        body.Push(BoolByte(killSwitch));
        r := Ok(());
        Four(start, PutString(operationId).value, PutString(profileId).value, [ProtocolByte(protocol)],
          [BoolByte(killSwitch)]);
      case Disconnect(operationId) =>
        r := PutStringTo(body, operationId);
      case DeleteProfile(operationId, profileId) =>
        var _ :- PutStringTo(body, operationId);
        var _ :- PutStringTo(body, profileId);
        r := Ok(());
      case ImportWireGuard(operationId, p) =>
        var _ :- RequireId(operationId);
        var _ :- Check(ValidWireGuard(p));
        var _ :- PutStringTo(body, operationId);
        r := PutProfileTo(body, p);
      case ImportAmneziaWg(operationId, p) =>
        var _ :- RequireId(operationId);
        var _ :- Check(ValidAmneziaWg(p));
        var _ :- PutStringTo(body, operationId);
        r := PutAmneziaWgTo(body, p);
      case ImportVless(operationId, p) =>
        var _ :- RequireId(operationId);
        var _ :- Check(ValidVless(p));
        var _ :- PutStringTo(body, operationId);
        r := PutVlessTo(body, p);
    }
  }

  method EncodeRequestBytes(request: RequestEnvelope) returns (r: Put)
    ensures r == EncodeRequest(request)
  {
    hide PutString, PutCommand;
    var _ :- RequireId(request.requestId);
    if request.contractVersion != CONTRACT_VERSION { return Err(UnsupportedVersion); }
    var body := new Buffer();
    var _ :- PutStringTo(body, request.requestId);
    var _ :- PutCommandTo(body, request.command);
    assert body.bytes == PutString(request.requestId).value + PutCommand(request.command).value;
    r := EncodeFrameBytes(Opcode(request.command), body.bytes);
  }

  method EncodeResponseBytes(response: ResponseEnvelope) returns (r: Put)
    ensures r == EncodeResponse(response)
  {
    hide PutString, PutOptionalI64, ValidIdentifier;
    if response.contractVersion != CONTRACT_VERSION { return Err(UnsupportedVersion); }
    var _ :- RequireId(response.requestId);
    var _ :- RequireId(response.code);
    var body := new Buffer();
    var _ :- PutStringTo(body, response.requestId);
    body.Push(PhaseByte(response.phase));
    ghost var e1 := PutString(response.requestId).value + [PhaseByte(response.phase)];
    ghost var profile := PutOptionalString(response.profileId);
    match response.profileId {
      case Some(profileId) =>
        body.Push(1);
        var _ :- PutStringTo(body, profileId);
        assert body.bytes == e1 + ([1] + PutString(profileId).value);
      case None => body.Push(0);
    }
    assert body.bytes == e1 + profile.value;
    body.Push(BoolByte(response.killSwitchActive));
    var _ :- PutStringTo(body, response.code);
    ghost var e2 := body.bytes;
    PutStatisticsTo(body, response.statistics);
    ghost var code, statistics := PutString(response.code).value, PutStatistics(response.statistics);
    Four(PutString(response.requestId).value, [PhaseByte(response.phase)], profile.value,
      [BoolByte(response.killSwitchActive)], code + statistics);
    assert e1 + profile.value + [BoolByte(response.killSwitchActive)] + code + statistics
        == e1 + profile.value + [BoolByte(response.killSwitchActive)] + (code + statistics);
    r := EncodeFrameBytes(0x81, body.bytes);
  }

  method PutStatisticsTo(body: Buffer, statistics: Option<TunnelStatistics>)
    modifies body
    ensures body.bytes == old(body.bytes) + PutStatistics(statistics)
  {
    hide LE.Put;
    ghost var start := body.bytes;
    match statistics {
      case Some(t) =>
        body.Push(1);
        body.Extend(LE.Put(t.bytesReceived, 8));
        body.Extend(LE.Put(t.bytesSent, 8));
        match t.lastHandshakeUnixMs {
          case Some(ms) =>
            body.Push(1);
            body.Extend(LE.Put(LE.Unsigned(ms), 8));
            assert body.bytes == start + [1] + LE.Put(t.bytesReceived, 8) + LE.Put(t.bytesSent, 8)
              + ([1] + LE.Put(LE.Unsigned(ms), 8));
          case None => body.Push(0);
        }
        Four(start, [1], LE.Put(t.bytesReceived, 8), LE.Put(t.bytesSent, 8), PutOptionalI64(t.lastHandshakeUnixMs));
      case None => body.Push(0);
    }
  }

  method TaggedBytes(tag: Bytes, buffer: Buffer, put: Result<(), FrameError>, ghost payload: Put) returns (r: Put)
    requires Wrote(payload, put, tag, buffer.bytes)
    ensures r == match payload case Ok(bs) => Tagged(tag, bs) case Err(e) => Err(e)
  {
    var _ :- put;
    if |buffer.bytes| > MAX_FRAME_SIZE { return Err(TooLarge); }
    r := Ok(buffer.bytes);
  }

  method EncodeWireGuardPayload(p: WireGuardProfile) returns (r: Put)
    ensures r == EncodeWireGuardProfile(p)
  {
    hide PutProfileWith, ValidWireGuard;
    var _ :- Check(ValidWireGuard(p));
    var buffer := new Buffer();
    buffer.Extend(WIREGUARD_TAG);
    var put := PutProfileTo(buffer, p);
    r := TaggedBytes(WIREGUARD_TAG, buffer, put, PutProfile(p));
  }

  method EncodeAmneziaWgPayload(p: AmneziaWgProfile) returns (r: Put)
    ensures r == EncodeAmneziaWgProfile(p)
  {
    hide PutAmneziaWgWith, ValidAmneziaWg;
    var _ :- Check(ValidAmneziaWg(p));
    var buffer := new Buffer();
    buffer.Extend(AMNEZIAWG_TAG);
    var put := PutAmneziaWgTo(buffer, p);
    r := TaggedBytes(AMNEZIAWG_TAG, buffer, put, PutAmneziaWg(p));
  }

  method EncodeVlessPayload(p: VlessProfile) returns (r: Put)
    ensures r == EncodeVlessProfile(p)
  {
    hide PutVless, ValidVless;
    var _ :- Check(ValidVless(p));
    var buffer := new Buffer();
    buffer.Extend(VLESS_TAG);
    var put := PutVlessTo(buffer, p);
    r := TaggedBytes(VLESS_TAG, buffer, put, PutVless(p));
  }

  ////////// Reading //////////

  /** A reader returned what `spec` says and stands before what `spec` left over. */
  ghost predicate Agrees<T>(spec: Parsed<T>, r: Result<T, FrameError>, rest: Bytes) {
    match spec
    case Ok((v, s)) => r == Ok(v) && rest == s
    case Err(e) => r == Err(e)
  }

  lemma NumbersStep(s: Bytes, n: nat)
    requires n > 0
    ensures TakeNumbers(s, n) ==
      match TakeU16(s) {
        case Err(e) => Err(e)
        case Ok((v, s1)) =>
          match TakeNumbers(s1, n - 1)
          case Err(e) => Err(e)
          case Ok((vs, rest)) => Ok(([v] + vs, rest))
      }
  {
  }

  lemma BoundedStep(s: Bytes, n: nat)
    requires n > 0
    ensures TakeBoundedAll(s, n) ==
      match TakeBounded(s) {
        case Err(e) => Err(e)
        case Ok((v, s1)) =>
          match TakeBoundedAll(s1, n - 1)
          case Err(e) => Err(e)
          case Ok((vs, rest)) => Ok(([v] + vs, rest))
      }
  {
  }

  class Cursor {
    const bytes: Bytes
    var offset: nat

    constructor (bytes: Bytes)
      ensures Valid() && this.bytes == bytes && Rest() == bytes
    {
      this.bytes := bytes;
      this.offset := 0;
    }

    ghost predicate Valid()
      reads this
    {
      offset <= |bytes|
    }

    ghost function Rest(): Bytes
      reads this
      requires Valid()
    {
      bytes[offset..]
    }

    predicate Finished()
      reads this
      requires Valid()
      ensures Finished() <==> Rest() == []
    {
      offset == |bytes|
    }

    method Next() returns (r: Result<Byte, FrameError>)
      requires Valid()
      modifies this`offset
      ensures Valid() && Agrees(TakeByte(old(Rest())), r, Rest())
    {
      if offset >= |bytes| { return Err(InvalidLength); }
      r := Ok(bytes[offset]);
      offset := offset + 1;
    }

    method Slice(n: nat) returns (r: Result<Bytes, FrameError>)
      requires Valid()
      modifies this`offset
      ensures Valid() && Agrees(TakeBytes(old(Rest()), n), r, Rest())
    {
      var end := offset + n;
      if end > |bytes| { return Err(InvalidLength); }
      r := Ok(bytes[offset..end]);
      assert bytes[offset..][..n] == bytes[offset..end] && bytes[offset..][n..] == bytes[end..];
      offset := end;
    }

    method String() returns (r: Result<string, FrameError>)
      requires Valid()
      modifies this`offset
      ensures Valid() && Agrees(TakeString(old(Rest())), r, Rest())
    {
      var n :- Next();
      var bs :- Slice(n);
      match Utf8.Decode(bs) {
        case None => r := Err(InvalidUtf8);
        case Some(v) => r := Ok(v);
      }
    }

    method U16() returns (r: Result<U16, FrameError>)
      requires Valid()
      modifies this`offset
      ensures Valid() && Agrees(TakeU16(old(Rest())), r, Rest())
    {
      var bs :- Slice(2);
      r := Ok(LE.GetU16(bs));
    }

    method U64() returns (r: Result<U64, FrameError>)
      requires Valid()
      modifies this`offset
      ensures Valid() && Agrees(TakeU64(old(Rest())), r, Rest())
    {
      var bs :- Slice(8);
      r := Ok(LE.GetU64(bs));
    }

    method I64() returns (r: Result<I64, FrameError>)
      requires Valid()
      modifies this`offset
      ensures Valid() && Agrees(TakeI64(old(Rest())), r, Rest())
    {
      var n :- U64();
      r := Ok(LE.Signed(n));
    }

    method LongString() returns (r: Result<string, FrameError>)
      requires Valid()
      modifies this`offset
      ensures Valid() && Agrees(TakeLong(old(Rest())), r, Rest())
    {
      hide LE.GetU16;
      var n :- U16();
      if n == 0 || n > 4096 { return Err(InvalidProfile); }
      var bs :- Slice(n);
      match Utf8.Decode(bs) {
        case None => r := Err(InvalidUtf8);
        case Some(v) =>
          if exists i :: 0 <= i < |v| && IsControl(v[i]) { return Err(InvalidProfile); }
          r := Ok(v);
      }
    }

    method BoundedString() returns (r: Result<string, FrameError>)
      requires Valid()
      modifies this`offset
      ensures Valid() && Agrees(TakeBounded(old(Rest())), r, Rest())
    {
      var v :- String();
      if v == "" || '\0' in v { return Err(InvalidProfile); }
      r := Ok(v);
    }

    method OptionalBoundedString() returns (r: Result<string, FrameError>)
      requires Valid()
      modifies this`offset
      ensures Valid() && Agrees(TakeString(old(Rest())), r, Rest())
    {
      var n :- Next();
      var bs :- Slice(n);
      match Utf8.Decode(bs) {
        case None => r := Err(InvalidUtf8);
        case Some(v) => r := Ok(v);
      }
    }

    method StringList(maximum: nat) returns (r: Result<seq<string>, FrameError>)
      requires Valid()
      modifies this`offset
      ensures Valid() && Agrees(TakeList(old(Rest()), maximum), r, Rest())
    {
      hide TakeBounded, TakeBoundedAll;
      var count :- Next();
      if count > maximum { return Err(InvalidProfile); }
      var values: seq<string> := [];
      ghost var s := Rest();
      assert Rejoins([], TakeBoundedAll(s, count), TakeBoundedAll(s, count)) by {
        if TakeBoundedAll(s, count).Ok? {
          assert [] + TakeBoundedAll(s, count).value.0 == TakeBoundedAll(s, count).value.0;
        }
      }
      while |values| < count
        invariant Valid() && |values| <= count
        invariant Rejoins(values, TakeBoundedAll(Rest(), count - |values|), TakeBoundedAll(s, count))
      {
        BoundedStep(Rest(), count - |values|);
        ghost var tail := TakeBoundedAll(Rest(), count - |values|);
        var v :- BoundedString();
        if tail.Ok? { assert values + tail.value.0 == (values + [v]) + tail.value.0[1..]; }
        values := values + [v];
      }
      NoNumbers(Rest());
      assert values + [] == values;
      r := Ok(values);
      assert values + [] == values;
    }

    method LongStrings(count: nat) returns (r: Result<seq<string>, FrameError>)
      requires Valid()
      modifies this`offset
      ensures Valid() && Agrees(TakeLongAll(old(Rest()), count), r, Rest())
    {
      hide TakeLong;
      var values: seq<string> := [];
      ghost var s := Rest();
      assert Rejoins([], TakeLongAll(s, count), TakeLongAll(s, count)) by {
        if TakeLongAll(s, count).Ok? { assert [] + TakeLongAll(s, count).value.0 == TakeLongAll(s, count).value.0; }
      }
      while |values| < count
        invariant Valid() && |values| <= count
        invariant Rejoins(values, TakeLongAll(Rest(), count - |values|), TakeLongAll(s, count))
      {
        ghost var tail := TakeLongAll(Rest(), count - |values|);
        var v :- LongString();
        if tail.Ok? { assert values + tail.value.0 == (values + [v]) + tail.value.0[1..]; }
        values := values + [v];
      }
      r := Ok(values);
      assert values + [] == values;
    }

    /** The values read so far and those still to come make up the whole list. */
    static ghost predicate Rejoins(values: seq<string>, tail: Parsed<seq<string>>, whole: Parsed<seq<string>>) {
      match tail
      case Ok((vs, rest)) => whole == Ok((values + vs, rest))
      case Err(e) => whole == Err(e)
    }

    method Key() returns (r: Result<SecretKey, FrameError>)
      requires Valid()
      modifies this`offset
      ensures Valid() && Agrees(TakeKey(old(Rest())), r, Rest())
    {
      var bs :- Slice(32);
      r := Ok(bs);
    }

    method OptionalKey() returns (r: Result<Option<SecretKey>, FrameError>)
      requires Valid()
      modifies this`offset
      ensures Valid() && Agrees(TakeOptionalKey(old(Rest())), r, Rest())
    {
      var flag :- Next();
      if flag == 0 { return Ok(None); }
      if flag != 1 { return Err(InvalidBoolean); }
      var k :- Key();
      r := Ok(Some(k));
    }

    method OptionalU16() returns (r: Result<Option<U16>, FrameError>)
      requires Valid()
      modifies this`offset
      ensures Valid() && Agrees(TakeOptionalU16(old(Rest())), r, Rest())
    {
      var flag :- Next();
      if flag == 0 { return Ok(None); }
      if flag != 1 { return Err(InvalidBoolean); }
      var n :- U16();
      r := Ok(Some(n));
    }

    method Profile() returns (r: Result<WireGuardProfile, FrameError>)
      requires Valid()
      modifies this`offset
      ensures Valid() && Agrees(TakeProfile(old(Rest())), r, Rest())
    {
      hide TakeKey, TakeList, ParseAll, TakeOptionalKey, TakeBounded, TakeU16, TakeOptionalU16;
      var privateKey :- Key();
      var addresses :- StringList(8);
      var dnsTexts :- StringList(8);
      var dns :- ParseAll(dnsTexts);
      var peerKey :- Key();
      var preshared :- OptionalKey();
      var host :- BoundedString();
      var port :- U16();
      var allowed :- StringList(32);
      var keepalive :- OptionalU16();
      r := Ok(WireGuardProfile(privateKey, addresses, dns, peerKey, preshared, host, port, allowed, keepalive));
    }

    method SevenNumbers() returns (r: Result<seq<U16>, FrameError>)
      requires Valid()
      modifies this`offset
      ensures Valid() && Agrees(TakeNumbers(old(Rest()), 7), r, Rest())
    {
      hide TakeU16, TakeNumbers;
      NumbersStep(Rest(), 7);
      var jc :- U16();
      NumbersStep(Rest(), 6);
      var jmin :- U16();
      NumbersStep(Rest(), 5);
      var jmax :- U16();
      NumbersStep(Rest(), 4);
      var s1 :- U16();
      NumbersStep(Rest(), 3);
      var s2 :- U16();
      NumbersStep(Rest(), 2);
      var s3 :- U16();
      NumbersStep(Rest(), 1);
      var s4 :- U16();
      NoNumbers(Rest());
      assert [jc] + ([jmin] + ([jmax] + ([s1] + ([s2] + ([s3] + ([s4] + [])))))) == [jc, jmin, jmax, s1, s2, s3, s4];
      r := Ok([jc, jmin, jmax, s1, s2, s3, s4]);
    }

    lemma NoNumbers(s: Bytes)
      ensures TakeNumbers(s, 0) == Ok(([], s)) && TakeBoundedAll(s, 0) == Ok(([], s))
    {
    }

    method FourHeaders() returns (r: Result<seq<string>, FrameError>)
      requires Valid()
      modifies this`offset
      ensures Valid() && Agrees(TakeBoundedAll(old(Rest()), 4), r, Rest())
    {
      hide TakeBounded, TakeBoundedAll;
      BoundedStep(Rest(), 4);
      var h1 :- BoundedString();
      BoundedStep(Rest(), 3);
      var h2 :- BoundedString();
      BoundedStep(Rest(), 2);
      var h3 :- BoundedString();
      BoundedStep(Rest(), 1);
      var h4 :- BoundedString();
      NoNumbers(Rest());
      assert [h1] + ([h2] + ([h3] + ([h4] + []))) == [h1, h2, h3, h4];
      r := Ok([h1, h2, h3, h4]);
    }

    method AmneziaWg() returns (r: Result<AmneziaWgProfile, FrameError>)
      requires Valid()
      modifies this`offset
      ensures Valid() && Agrees(TakeAmneziaWg(old(Rest())), r, Rest())
    {
      hide TakeProfile, TakeNumbers, TakeBoundedAll, TakeLongAll;
      var base :- Profile();
      var n :- SevenNumbers();
      var h :- FourHeaders();
      var count :- Next();
      if count > 5 { return Err(InvalidProfile); }
      var junk :- LongStrings(count);
      r := Ok(AmneziaWgProfile(base, n[0], n[1], n[2], n[3], n[4], n[5], n[6], h[0], h[1], h[2], h[3], junk));
    }

    method Vless() returns (r: Result<VlessProfile, FrameError>)
      requires Valid()
      modifies this`offset
      ensures Valid() && Agrees(TakeVless(old(Rest())), r, Rest())
    {
      hide TakeBounded, TakeU16, TakeString, TakeLong;
      var clientId :- BoundedString();
      var host :- BoundedString();
      var port :- U16();
      var name :- BoundedString();
      var fingerprint :- BoundedString();
      var password :- BoundedString();
      var shortId :- OptionalBoundedString();
      var spiderX :- LongString();
      r := Ok(VlessProfile(clientId, host, port, name, fingerprint, password, shortId, spiderX));
    }

    method Id() returns (r: Result<string, FrameError>)
      requires Valid()
      modifies this`offset
      ensures Valid() && Agrees(TakeId(old(Rest())), r, Rest())
    {
      var v :- String();
      var _ :- RequireId(v);
      r := Ok(v);
    }

    method TwoIds() returns (r: Result<(string, string), FrameError>)
      requires Valid()
      modifies this`offset
      ensures Valid() && Agrees(TakeTwoIds(old(Rest())), r, Rest())
    {
      hide TakeString;
      var a :- String();
      var b :- String();
      var _ :- RequireId(a);
      var _ :- RequireId(b);
      r := Ok((a, b));
    }

    method Bool() returns (r: Result<bool, FrameError>)
      requires Valid()
      modifies this`offset
      ensures Valid() && Agrees(TakeBool(old(Rest())), r, Rest())
    {
      var b :- Next();
      if b == 0 { return Ok(false); }
      if b == 1 { return Ok(true); }
      r := Err(InvalidBoolean);
    }

    method ProtocolOf() returns (r: Result<Protocol, FrameError>)
      requires Valid()
      modifies this`offset
      ensures Valid() && Agrees(TakeProtocol(old(Rest())), r, Rest())
    {
      var b :- Next();
      if b == 1 { return Ok(Protocol.WireGuard); }
      if b == 2 { return Ok(Protocol.AmneziaWg); }
      if b == 3 { return Ok(VlessReality); }
      r := Err(InvalidProtocol);
    }

    method Command(opcode: Byte) returns (r: Result<ControlCommand, FrameError>)
      requires Valid()
      modifies this`offset
      ensures Valid() && Agrees(TakeCommand(opcode, old(Rest())), r, Rest())
    {
      hide TakeTwoIds, TakeProtocol, TakeBool, TakeId, TakeProfile, TakeAmneziaWg, TakeVless, ValidWireGuard,
           ValidAmneziaWg, ValidVless;
      match opcode {
        case 1 => r := Ok(Status);
        case 2 =>
          var ids :- TwoIds();
          var protocol :- ProtocolOf();
          var killSwitch :- Bool();
          r := Ok(Connect(ids.0, ids.1, protocol, killSwitch));
        case 3 =>
          var operationId :- Id();
          r := Ok(Disconnect(operationId));
        case 4 => r := Ok(Diagnostics);
        case 5 =>
          var operationId :- Id();
          var p :- Profile();
          var _ :- Check(ValidWireGuard(p));
          r := Ok(ImportWireGuard(operationId, p));
        case 6 =>
          var ids :- TwoIds();
          r := Ok(DeleteProfile(ids.0, ids.1));
        case 7 => r := Ok(Statistics);
        case 8 =>
          var operationId :- Id();
          var p :- AmneziaWg();
          var _ :- Check(ValidAmneziaWg(p));
          r := Ok(ImportAmneziaWg(operationId, p));
        case 9 =>
          var operationId :- Id();
          var p :- Vless();
          var _ :- Check(ValidVless(p));
          r := Ok(ImportVless(operationId, p));
        case _ => r := Err(UnknownOperation);
      }
    }

    method Phase() returns (r: Result<ConnectionPhase, FrameError>)
      requires Valid()
      modifies this`offset
      ensures Valid() && Agrees(TakePhase(old(Rest())), r, Rest())
    {
      var b :- Next();
      match b {
        case 0 => r := Ok(Disconnected);
        case 1 => r := Ok(Validating);
        case 2 => r := Ok(Connecting);
        case 3 => r := Ok(Connected);
        case 4 => r := Ok(Reconnecting);
        case 5 => r := Ok(Disconnecting);
        case 6 => r := Ok(BlockedBySubscription);
        case 7 => r := Ok(NoNetwork);
        case 8 => r := Ok(ServerUnavailable);
        case 9 => r := Ok(Error);
        case _ => r := Err(UnknownOperation);
      }
    }

    method OptionalId() returns (r: Result<Option<string>, FrameError>)
      requires Valid()
      modifies this`offset
      ensures Valid() && Agrees(TakeOptionalId(old(Rest())), r, Rest())
    {
      hide TakeBool, TakeId;
      var present :- Bool();
      if !present { return Ok(None); }
      var v :- Id();
      r := Ok(Some(v));
    }

    method TunnelStatisticsOf() returns (r: Result<Option<TunnelStatistics>, FrameError>)
      requires Valid()
      modifies this`offset
      ensures Valid() && Agrees(TakeStatistics(old(Rest())), r, Rest())
    {
      hide TakeBool, TakeU64, TakeI64;
      var present :- Bool();
      if !present { return Ok(None); }
      var received :- U64();
      var sent :- U64();
      var hasHandshake :- Bool();
      if !hasHandshake { return Ok(Some(TunnelStatistics(received, sent, None))); }
      var ms :- I64();
      r := Ok(Some(TunnelStatistics(received, sent, Some(ms))));
    }
  }

  method DecodeRequestBytes(frame: Bytes) returns (r: Result<RequestEnvelope, FrameError>)
    ensures r == DecodeRequest(frame)
  {
    hide TakeCommand, TakeId;
    if |frame| > MAX_FRAME_SIZE { return Err(TooLarge); }
    if |frame| < 12 { return Err(TooShort); }
    if frame[..4] != MAGIC { return Err(InvalidMagic); }
    var version := LE.GetU16(frame[4..6]);
    if version != CONTRACT_VERSION { return Err(UnsupportedVersion); }
    var opcode := frame[6];
    if frame[7] != 0 { return Err(UnknownOperation); }
    if LE.GetU32(frame[8..12]) != |frame| - 12 { return Err(InvalidLength); }
    var cursor := new Cursor(frame[12..]);
    var id :- cursor.Id();
    var command :- cursor.Command(opcode);
    if !cursor.Finished() { return Err(TrailingData); }
    r := Ok(RequestEnvelope(version, id, command));
  }

  method DecodeResponseBytes(frame: Bytes) returns (r: Result<ResponseEnvelope, FrameError>)
    ensures r == DecodeResponse(frame)
  {
    hide TakeId, TakePhase, TakeBool, TakeStatistics, TakeOptionalId, DecodeFrame;
    var envelope :- DecodeFrame(frame);
    var (opcode, body) := envelope;
    if opcode != 0x81 { return Err(UnknownOperation); }
    var cursor := new Cursor(body);
    var id :- cursor.Id();
    var phase :- cursor.Phase();
    var profileId :- cursor.OptionalId();
    var killSwitch :- cursor.Bool();
    var code :- cursor.Id();
    var statistics :- cursor.TunnelStatisticsOf();
    if !cursor.Finished() { return Err(TrailingData); }
    r := Ok(ResponseEnvelope(CONTRACT_VERSION, id, phase, profileId, killSwitch, code, statistics));
  }

  method DecodeWireGuardPayload(bytes: Bytes) returns (r: Result<WireGuardProfile, FrameError>)
    ensures r == DecodeWireGuardProfile(bytes)
  {
    hide TakeProfile, ValidWireGuard;
    var payload :- Untag(WIREGUARD_TAG, bytes);
    var cursor := new Cursor(payload);
    var p :- cursor.Profile();
    if !cursor.Finished() { return Err(TrailingData); }
    var _ :- Check(ValidWireGuard(p));
    r := Ok(p);
  }

  method DecodeAmneziaWgPayload(bytes: Bytes) returns (r: Result<AmneziaWgProfile, FrameError>)
    ensures r == DecodeAmneziaWgProfile(bytes)
  {
    hide TakeAmneziaWg, ValidAmneziaWg;
    var payload :- Untag(AMNEZIAWG_TAG, bytes);
    var cursor := new Cursor(payload);
    var p :- cursor.AmneziaWg();
    if !cursor.Finished() { return Err(TrailingData); }
    var _ :- Check(ValidAmneziaWg(p));
    r := Ok(p);
  }

  method DecodeVlessPayload(bytes: Bytes) returns (r: Result<VlessProfile, FrameError>)
    ensures r == DecodeVlessProfile(bytes)
  {
    hide TakeVless, ValidVless;
    var payload :- Untag(VLESS_TAG, bytes);
    var cursor := new Cursor(payload);
    var p :- cursor.Vless();
    if !cursor.Finished() { return Err(TrailingData); }
    var _ :- Check(ValidVless(p));
    r := Ok(p);
  }
}
