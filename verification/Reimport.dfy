/** Configuration texts on their way through the client's parser and encoder and back into the service. */
module Reimport {
  import opened Basics
  import opened Text
  import opened IpText
  import opened Contracts
  import opened ConfigText
  import opened ClientConfig
  import opened ConfigScan
  import opened ConfigRoundTrip
  import opened ConfigEndToEnd
  import opened ClientAgreement
  import opened ImportGap
  import opened Wire
  import opened WireRoundTrip
  import opened WireCanonical
  import opened WireBounds
  import Client = ClientWire
  import Utf8

  ////////// Profiles the service printed //////////

  /** The client parses the text, writes an import of it, and the service reads that as the profile. */
  predicate Reimported(text: string, requestId: string, operationId: string, p: WireGuardProfile) {
    var parsed := ParseWireGuard(text);
    parsed.Ok? &&
    var frame := Client.EncodeImport(requestId, operationId, parsed.value);
    frame.Ok? && DecodeRequest(frame.value)
      == Ok(RequestEnvelope(CONTRACT_VERSION, requestId, ImportWireGuard(operationId, p)))
  }

  predicate AmneziaWgReimported(text: string, requestId: string, operationId: string, p: AmneziaWgProfile) {
    var parsed := ParseAmneziaWg(text);
    parsed.Ok? &&
    var frame := Client.EncodeAmneziaWgImport(requestId, operationId, parsed.value);
    frame.Ok? && DecodeRequest(frame.value)
      == Ok(RequestEnvelope(CONTRACT_VERSION, requestId, ImportAmneziaWg(operationId, p)))
  }

  lemma ValidFits(vs: seq<string>, minimum: nat, maximum: nat)
    requires ValidNetworks(vs, minimum, maximum) && Client.StringList(vs).Ok?
    ensures FitsWire(vs)
  {
    hide ValidNetwork, Utf8.IsAscii, Client.BoundedStrings;
    forall i | 0 <= i < |vs| ensures Utf8.IsAscii(vs[i]) { NetworkAscii(vs[i]); }
    WrittenFits(vs);
  }

  /** The client writes no text that is longer than the service's encoder allows. */
  lemma WrittenProfileFits(p: WireGuardProfile, dns: seq<string>)
    requires ValidWireGuard(p) && Client.ProfileBytes(ClientView(p, dns)).Ok?
    ensures TextsFit(p)
  {
    hide ValidNetworks, Client.StringList, Client.BoundedString, FitsWire, ValidEndpointHost, ZeroKey;
    ValidFits(p.addresses, 1, 8);
    ValidFits(p.allowedIps, 1, 32);
  }

  /** What the service printed comes back to it unless the client refuses to write a text for its length. */
  lemma PrintParseImportWireGuard(requestId: string, operationId: string, p: WireGuardProfile)
    requires ValidIdentifier(requestId) && ValidIdentifier(operationId) && ValidWireGuard(p) && ShortTexts(p)
    ensures Reimported(WireGuardText(p), requestId, operationId, p) <==> TextsFit(p)
  {
    hide ParseWireGuard, WireGuardText, DecodeRequest, ValidWireGuard, ValidIdentifier, Denote, Client.ProfileBytes,
         ShortTexts, TextsFit, Client.IdentifierBytes, Client.Frame;
    HeldWireGuardRoundTrip(p);
    var q := ClientView(p, PrintAll(p.dnsServers));
    if TextsFit(p) {
      PrintedDenote(p.dnsServers);
      ImportUnderstood(requestId, operationId, p, q.dnsServers);
    }
    if Client.EncodeImport(requestId, operationId, q).Ok? { WrittenProfileFits(p, q.dnsServers); }
  }

  lemma WrittenAmneziaWgFits(p: AmneziaWgProfile, q: Client.ClientAmneziaWg)
    requires ValidAmneziaWg(p) && q == ReadView(p) && Client.AmneziaWgBytes(q).Ok?
    ensures AmneziaWgTextsFit(p)
  {
    hide ValidWireGuard, TextsFit, FitsWire, ValidNumericRange, ValidLongString, Client.ProfileBytes,
         Client.BoundedStrings, Client.LongStrings, TrimEach, PrintAll, Utf8.IsAscii;
    WrittenProfileFits(p.wireguard, PrintAll(p.wireguard.dnsServers));
    RangeAscii(p.h1);
    RangeAscii(p.h2);
    RangeAscii(p.h3);
    RangeAscii(p.h4);
    WrittenFits(Client.ClientHeaders(q));
    assert Headers(p) == Client.ClientHeaders(q);
  }

  /** The service reads the special packets the client sent. */
  lemma PacketsArrive(requestId: string, operationId: string, q: Client.ClientAmneziaWg)
    requires ValidIdentifier(requestId) && ValidIdentifier(operationId) && AmneziaWgClientValid(q)
    requires Client.EncodeAmneziaWgImport(requestId, operationId, q).Ok?
    ensures var r := DecodeRequest(Client.EncodeAmneziaWgImport(requestId, operationId, q).value);
      r.Ok? ==> r.value.command.ImportAmneziaWg? && r.value.command.amneziawg.specialJunk == q.specialJunk
  {
    hide AmneziaWgClientValid, Client.AmneziaWgBytes, Client.ImportFrame, DecodeFrame, TakeId, TakeAmneziaWg, PutString,
         ValidIdentifier, ValidAmneziaWg, TakeTwoIds, TakeProfile, TakeVless;
    ImportFrameRead(8, requestId, operationId, Client.AmneziaWgBytes(q));
    var bytes := Client.AmneziaWgBytes(q).value;
    if TakeAmneziaWg(bytes).Ok? && ValidAmneziaWg(TakeAmneziaWg(bytes).value.0) { AmneziaWgReadPlain(q); }
  }

  /** The same for AmneziaWG, where blanks around special packets are lost as well. */
  lemma PrintParseImport(requestId: string, operationId: string, p: AmneziaWgProfile)
    requires ValidIdentifier(requestId) && ValidIdentifier(operationId)
    requires ValidAmneziaWg(p) && ShortAmneziaWgTexts(p)
    ensures AmneziaWgReimported(AmneziaWgText(p), requestId, operationId, p) <==> AmneziaWgTextsFit(p) && TrimmedJunk(p)
  {
    hide ParseAmneziaWg, AmneziaWgText, Client.AmneziaWgBytes, Client.IdentifierBytes, Client.Frame, DecodeRequest,
         ValidAmneziaWg, AmneziaWgTextsFit, TrimmedJunk, ValidIdentifier, Denote, ShortAmneziaWgTexts, AllAccepted,
         AmneziaWgFields, Units, AmneziaWgClientValid, TrimEach;
    var text := AmneziaWgText(p);
    if AmneziaWgTextsFit(p) && TrimmedJunk(p) {
      HeldProfileRoundTrip(p);
      PrintedDenote(p.wireguard.dnsServers);
      AmneziaWgImportUnderstood(requestId, operationId, p, PrintAll(p.wireguard.dnsServers));
    }
    if AmneziaWgReimported(text, requestId, operationId, p) {
      AmneziaWgParsed(p);
      AmneziaWgParsedIsValid(text);
      var q := ReadView(p);
      WrittenAmneziaWgFits(p, q);
      PacketsArrive(requestId, operationId, q);
      JunkUnchanged(p);
    }
  }

  ////////// Texts the service refuses //////////

  const ONES := "1.1.1.1"

  /** A profile with one network, used twice. */
  function Narrow(network: string): WireGuardProfile {
    WireGuardProfile(seq(32, _ => 1), [network], [], seq(32, _ => 1), None, ONES, 1, [network], None)
  }

  lemma NarrowLegible(v: string)
    requires ClientNetwork(v) && Item(v)
    ensures Legible(Narrow(v))
  {
    hide ClientNetwork, Item, Parse;
    OnesParse();
    assert Narrow(v).privateKey[0] == 1 && Narrow(v).peerPublicKey[0] == 1;
  }

  lemma NarrowShort(v: string)
    requires Item(v) && |v| <= 253
    ensures ShortTexts(Narrow(v))
  {
    SolidShape(v);
    Utf8.EncodeAscii(v);
  }

  lemma BoundedWrites(v: string)
    requires Solid(v) && |v| <= 253
    ensures Client.BoundedString(v).Ok? && |Client.BoundedString(v).value| == |v| + 1
  {
    AsciiUnits(v);
    Utf8.EncodeAscii(v);
  }

  lemma OnesSolid()
    ensures Solid(ONES) && Solid("a") && ValidIdentifier("a")
  {
  }

  lemma NarrowWrites(v: string)
    requires Item(v) && |v| <= 253
    ensures Client.EncodeImport("a", "a", ClientView(Narrow(v), [])).Ok?
  {
    hide Client.BoundedString, Solid, ValidIdentifier;
    OnesSolid();
    BoundedWrites(v);
    BoundedWrites(ONES);
    BoundedWrites("a");
    assert [v][1..] == [];
    assert Client.BoundedStrings([v]) == Ok(Client.BoundedString(v).value + []);
  }

  /**
    Every network that the client takes and the service does not, and that survives in a list, stands in some
    configuration text that the client parses, writes to the wire, and the service refuses.
   */
  lemma OddNetworkRefused(v: string)
    requires ClientNetwork(v) && Item(v) && |v| <= 253 && !PlainPrefix(v)
    ensures var parsed := ParseWireGuard(WireGuardText(Narrow(v)));
      parsed == Ok(ClientView(Narrow(v), [])) && Client.EncodeImport("a", "a", parsed.value).Ok?
      && DecodeRequest(Client.EncodeImport("a", "a", parsed.value).value).Err?
  {
    hide ClientNetwork, Item, PlainPrefix, ParseWireGuard, Client.EncodeImport, DecodeRequest, Legible, ShortTexts,
         WireGuardText, Units, ValidIdentifier, Solid;
    NarrowLegible(v);
    NarrowShort(v);
    WireGuardTextWithinLimit(Narrow(v));
    LegibleParsed(Narrow(v));
    NarrowWrites(v);
    OnesSolid();
    var q := ClientView(Narrow(v), []);
    assert !PlainNetworks(q) by { assert !PlainPrefix(q.addresses[0]); }
    WireGuardGapExactly(WireGuardText(Narrow(v)), "a", "a");
  }

  const HEX_PREFIX := ONES + ['/'] + "0x18"
  const MINUS_ZERO := ONES + ['/'] + "-0"

  lemma TwoParts(p: string, r: string, sep: char)
    requires sep !in p && sep !in r
    ensures IndexOf(p + [sep] + r, sep) == |p| && Split(p + [sep] + r, sep) == [p, r]
  {
    hide Split, IndexOf;
    IndexOfFirst(p, sep, r);
    SplitHead(p, r, sep);
    SplitWhole(r, sep);
  }

  lemma OddReads()
    ensures TryParseInt("0x18") == Some(24) && TryParseInt("-0") == Some(0)
  {
    TrimIdentity("0x18");
    TrimIdentity("-0");
    assert "0x18"[2..] == "18" && HexValue("1") == 1;
    assert "-0"[1..] == "0" && DecValue("0") == 0;
  }

  lemma OddNetwork(v: string, prefix: string)
    requires v == ONES + ['/'] + prefix && prefix != "" && TryParseInt(prefix).Some?
    requires 0 <= TryParseInt(prefix).value <= 32 && |prefix| <= 200
    requires forall i :: 0 <= i < |prefix| ==> SolidChar(prefix[i]) && prefix[i] != '/' && prefix[i] != ','
    requires exists i :: 0 <= i < |prefix| && !IsDigit(prefix[i]) && prefix[i] != '+'
    ensures ClientNetwork(v) && Item(v) && |v| <= 253 && !PlainPrefix(v)
  {
    hide Parse, Split, IndexOf, TryParseInt, IsDigit;
    OnesParse();
    TwoParts(ONES, prefix, '/');
    var i :| 0 <= i < |prefix| && !IsDigit(prefix[i]) && prefix[i] != '+';
    assert v[8 + i] == prefix[i];
    assert ONES + ['/'] == "1.1.1.1/";
  }

  /** Concretely: a prefix length in hexadecimal is taken, written and refused. */
  lemma HexPrefixRefused()
    ensures var text := WireGuardText(Narrow(HEX_PREFIX));
      ParseWireGuard(text).Ok? && Client.EncodeImport("a", "a", ParseWireGuard(text).value).Ok?
      && DecodeRequest(Client.EncodeImport("a", "a", ParseWireGuard(text).value).value).Err?
  {
    hide ParseWireGuard, Client.EncodeImport, DecodeRequest, WireGuardText, TryParseInt;
    OddReads();
    assert !IsDigit("0x18"[1]);
    OddNetwork(HEX_PREFIX, "0x18");
    OddNetworkRefused(HEX_PREFIX);
  }

  /** Concretely: so is a prefix length of minus zero. */
  lemma MinusZeroRefused()
    ensures var text := WireGuardText(Narrow(MINUS_ZERO));
      ParseWireGuard(text).Ok? && Client.EncodeImport("a", "a", ParseWireGuard(text).value).Ok?
      && DecodeRequest(Client.EncodeImport("a", "a", ParseWireGuard(text).value).value).Err?
  {
    hide ParseWireGuard, Client.EncodeImport, DecodeRequest, WireGuardText, TryParseInt;
    OddReads();
    assert !IsDigit("-0"[0]);
    OddNetwork(MINUS_ZERO, "-0");
    OddNetworkRefused(MINUS_ZERO);
  }

  ////////// The same for special packets //////////

  const C1_PACKET := ['\U{0080}']

  const C1_JUNK := LARGEST.(specialJunk := [C1_PACKET])

  lemma C1Packet()
    ensures LegiblePacket(C1_PACKET) && Trim(C1_PACKET) == C1_PACKET && AcceptedValue(C1_PACKET)
    ensures !PlainPacket(C1_PACKET)
    ensures Client.LongString(C1_PACKET).Ok? && |Client.LongString(C1_PACKET).value| == 4
  {
    TrimIdentity(C1_PACKET);
    assert C1_PACKET[1..] == "";
    assert Utf8.Encode(C1_PACKET) == Utf8.EncodeChar(C1_PACKET[0]) + [];
    UnitsBound(C1_PACKET);
  }

  lemma C1Legible()
    ensures LegibleAmneziaWg(C1_JUNK) && ShortAmneziaWgTexts(C1_JUNK) && ShortHeaders(C1_JUNK)
  {
    hide ValidWireGuard, Legible, LegiblePacket, ValidNumericRange, ValidLongString, TextsFit, ShortTexts, FitsWire,
         Short, LARGEST_BASE, LONG_RANGE, LONG_JUNK, C1_PACKET;
    BlankJunkValid();
    ValidAmneziaWgIsLegible(BLANK_JUNK);
    FitIsShort(BLANK_JUNK);
    C1Packet();
    assert Headers(C1_JUNK) == Headers(BLANK_JUNK);
    HeadersShort(C1_JUNK);
  }

  lemma C1Accepted()
    ensures AllAccepted(AmneziaWgFields(C1_JUNK)) && TrimEach(C1_JUNK.specialJunk) == C1_JUNK.specialJunk
  {
    hide AmneziaWgFields, AcceptedValue, Trim, LegibleAmneziaWg, ShortHeaders, LARGEST, C1_PACKET;
    C1Legible();
    C1Packet();
    NumberFieldsAccepted(C1_JUNK);
    FieldKeys(C1_JUNK);
    FieldAt(C1_JUNK);
    var fs := AmneziaWgFields(C1_JUNK);
    forall i | 0 <= i < |fs| ensures AcceptedValue(Trim(fs[i].1)) {
      if i >= 11 { assert fs[11 + (i - 11)].1 == C1_JUNK.specialJunk[i - 11]; }
    }
  }

  lemma OnePacket(v: string)
    requires Client.LongString(v).Ok?
    ensures Client.LongStrings([v]) == Ok(Client.LongString(v).value + [])
  {
    hide Client.LongString;
    assert [v][1..] == [];
  }

  lemma BlankPacket()
    ensures Client.LongString("a ").Ok? && |Client.LongString("a ").value| == 4
  {
    Utf8.EncodeAscii("a ");
  }

  /** It is as long as a profile the client can write. */
  lemma C1Writes()
    ensures Client.EncodeAmneziaWgImport("a", "a", ReadView(C1_JUNK)).Ok?
  {
    hide LARGEST, C1_PACKET, Client.LongString, ValidAmneziaWg, AmneziaWgTextsFit, Denote, ValidIdentifier,
         DecodeRequest, Client.ProfileBytes, Client.BoundedStrings, Client.U16All, Client.IdentifierBytes, PrintAll;
    BlankJunkValid();
    OnesSolid();
    PrintedDenote(LARGEST.wireguard.dnsServers);
    var dns := PrintAll(LARGEST.wireguard.dnsServers);
    AmneziaWgImportUnderstood("a", "a", BLANK_JUNK, dns);
    C1Packet();
    C1Accepted();
    BlankPacket();
    OnePacket("a ");
    OnePacket(C1_PACKET);
  }

  /** Concretely: a special packet with a C1 control character is taken, written and refused. */
  lemma ControlPacketRefused()
    ensures var text := AmneziaWgText(C1_JUNK);
      ParseAmneziaWg(text).Ok? && Client.EncodeAmneziaWgImport("a", "a", ParseAmneziaWg(text).value).Ok?
      && DecodeRequest(Client.EncodeAmneziaWgImport("a", "a", ParseAmneziaWg(text).value).value).Err?
  {
    hide LARGEST, C1_PACKET, ParseAmneziaWg, Client.EncodeAmneziaWgImport, DecodeRequest, AmneziaWgText, AllAccepted,
         AmneziaWgFields, PlainPacket, PlainNetworks, ValidIdentifier, LegibleAmneziaWg, ShortAmneziaWgTexts, Units;
    C1Legible();
    C1Accepted();
    TextWithinLimit(C1_JUNK);
    LegibleAmneziaWgParsed(C1_JUNK);
    C1Writes();
    C1Packet();
    OnesSolid();
    var q := ReadView(C1_JUNK);
    assert !PlainPackets(q) by { assert q.specialJunk[0] == C1_PACKET; }
    AmneziaWgGapExactly(AmneziaWgText(C1_JUNK), "a", "a");
  }
}
