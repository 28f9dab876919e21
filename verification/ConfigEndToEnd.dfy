/**
  Profiles that came over the wire or out of the vault survive printing, parsing and re-import, but for blanks
  in special packets.
 */
module ConfigEndToEnd {
  import opened Basics
  import opened Text
  import opened IpText
  import opened Contracts
  import opened ConfigText
  import opened ClientConfig
  import opened ConfigScan
  import opened ConfigRoundTrip
  import opened ClientAgreement
  import opened Wire
  import opened WireRoundTrip
  import opened WireCanonical
  import opened WireBounds
  import Base64
  import Utf8

  /** Texts as short as the decoder's length byte makes them. */
  predicate Short(vs: seq<string>) { forall i :: 0 <= i < |vs| ==> |Utf8.Encode(vs[i])| <= 255 }

  predicate ShortTexts(p: WireGuardProfile) { Short(p.addresses) && Short(p.allowedIps) }

  predicate ShortAmneziaWgTexts(p: AmneziaWgProfile) { ShortTexts(p.wireguard) && Short(Headers(p)) }

  lemma {:induction false} TakenShort(s: Bytes, n: nat)
    requires TakeBoundedAll(s, n).Ok?
    ensures Short(TakeBoundedAll(s, n).value.0)
    decreases n
  {
    hide TakeBounded;
    if n > 0 {
      var (v, s1) := TakeBounded(s).value;
      TakenOneShort(s);
      TakenShort(s1, n - 1);
    }
  }

  lemma TakenOneShort(s: Bytes)
    requires TakeBounded(s).Ok?
    ensures |Utf8.Encode(TakeBounded(s).value.0)| <= 255
  {
    StringInverse(s);
  }

  lemma TakenProfileShort(s: Bytes)
    requires TakeProfile(s).Ok?
    ensures ShortTexts(TakeProfile(s).value.0)
  {
    hide TakeBoundedAll, TakeKey, ParseAll, TakeOptionalKey, TakeBounded, TakeU16, TakeOptionalU16, Short;
    var s1 := TakeKey(s).value.1;
    TakenListShort(s1, 8);
    var s2 := TakeList(s1, 8).value.1;
    var s3 := TakeList(s2, 8).value.1;
    var s4 := TakeKey(s3).value.1;
    var s5 := TakeOptionalKey(s4).value.1;
    var s6 := TakeBounded(s5).value.1;
    var s7 := TakeU16(s6).value.1;
    TakenListShort(s7, 32);
  }

  lemma TakenListShort(s: Bytes, maximum: nat)
    requires TakeList(s, maximum).Ok?
    ensures Short(TakeList(s, maximum).value.0)
  {
    var (n, s1) := TakeByte(s).value;
    TakenShort(s1, n);
  }

  lemma TakenAmneziaWgShort(s: Bytes)
    requires TakeAmneziaWg(s).Ok?
    ensures ShortAmneziaWgTexts(TakeAmneziaWg(s).value.0)
  {
    hide TakeProfile, TakeNumbers, TakeBoundedAll, TakeLongAll, Short;
    TakenProfileShort(s);
    var s1 := TakeProfile(s).value.1;
    var s2 := TakeNumbers(s1, 7).value.1;
    TakenShort(s2, 4);
    assert TakeBoundedAll(s2, 4).value.0 == Headers(TakeAmneziaWg(s).value.0);
  }

  /** Every imported or unsealed AmneziaWG profile is valid and has short texts. */
  lemma ImportedShort(frame: Bytes)
    requires DecodeRequest(frame).Ok? && DecodeRequest(frame).value.command.ImportAmneziaWg?
    ensures var p := DecodeRequest(frame).value.command.amneziawg; ValidAmneziaWg(p) && ShortAmneziaWgTexts(p)
  {
    hide TakeAmneziaWg, ValidAmneziaWg, ProfileBytes, ShortAmneziaWgTexts, DecodeRequest;
    ImportProfileBytes(frame);
    TakenAmneziaWgShort(ProfileBytes(frame));
  }

  lemma UnsealedShort(bytes: Bytes)
    requires DecodeAmneziaWgProfile(bytes).Ok?
    ensures var p := DecodeAmneziaWgProfile(bytes).value; ValidAmneziaWg(p) && ShortAmneziaWgTexts(p)
  {
    hide TakeAmneziaWg, ValidAmneziaWg, ShortAmneziaWgTexts;
    TakenAmneziaWgShort(Untag(AMNEZIAWG_TAG, bytes).value);
  }

  ////////// The text of such a profile is within the parser's limits //////////

  lemma LineUnits(k: string, v: string, bound: nat)
    requires Units(k) + 3 + Units(v) <= bound
    ensures Units(FieldLine((k, v))) <= bound
  {
    UnitsAppend(k + " = ", v);
    UnitsAppend(k, " = ");
    UnitsBound(" = ");
  }

  /** A solid key and value make a line as long as they are. */
  lemma SolidLine(k: string, v: string)
    requires Utf8.IsAscii(k) && Utf8.IsAscii(v)
    ensures Units(FieldLine((k, v))) == |k| + 3 + |v|
  {
    UnitsAppend(k + " = ", v);
    UnitsAppend(k, " = ");
    UnitsBound(" = ");
    UnitsBound(k);
    UnitsBound(v);
  }

  lemma {:induction false} JoinedAscii(vs: seq<string>)
    requires forall i :: 0 <= i < |vs| ==> Utf8.IsAscii(vs[i])
    ensures Utf8.IsAscii(Join(vs, ", "))
  {
    if |vs| > 1 { JoinedAscii(vs[1..]); }
  }

  lemma NetworksLength(vs: seq<string>, minimum: nat, maximum: nat)
    requires Listed(vs, minimum, maximum) && Short(vs)
    ensures Utf8.IsAscii(Join(vs, ", ")) && |Join(vs, ", ")| <= maximum * 257
  {
    forall i | 0 <= i < |vs| ensures |vs[i]| <= 255 && Utf8.IsAscii(vs[i]) {
      SolidShape(vs[i]);
      Utf8.EncodeAscii(vs[i]);
    }
    JoinedAscii(vs);
    JoinLength(vs, ", ", 255);
    assert |vs| * 257 <= maximum * 257;
  }

  lemma DnsLength(dns: seq<IpAddr>)
    requires |dns| <= 8
    ensures Utf8.IsAscii(Join(PrintAll(dns), ", ")) && |Join(PrintAll(dns), ", ")| <= 328
  {
    PrintedDenote(dns);
    DenotedAscii(PrintAll(dns), dns);
    forall i | 0 <= i < |dns| ensures |PrintAll(dns)[i]| <= 39 { PrintLength(dns[i]); }
    JoinedAscii(PrintAll(dns));
    JoinLength(PrintAll(dns), ", ", 39);
    assert |dns| * 41 <= 8 * 41;
  }

  lemma InterfaceUnits(p: WireGuardProfile)
    requires Legible(p) && ShortTexts(p)
    ensures TotalUnits(FieldLines(InterfaceFields(p)), 2) <= 3 * 2068
  {
    hide FieldLine, Base64.Encode, Join, Utf8.IsAscii, Short, Item, ValidEndpointHost, ZeroKey, PrintAll, Units;
    KeyText(p.privateKey);
    SolidShape(Base64.Encode(p.privateKey));
    InterfaceKeysAscii();
    SolidLine("PrivateKey", Base64.Encode(p.privateKey));
    NetworksLength(p.addresses, 1, 8);
    SolidLine("Address", Join(p.addresses, ", "));
    DnsLength(p.dnsServers);
    SolidLine("DNS", Join(PrintAll(p.dnsServers), ", "));
    TotalUnitsBound(FieldLines(InterfaceFields(p)), 2, 2066);
  }

  lemma InterfaceKeysAscii()
    ensures Utf8.IsAscii("PrivateKey") && Utf8.IsAscii("Address") && Utf8.IsAscii("DNS")
  {
  }

  lemma PeerKeysAscii()
    ensures Utf8.IsAscii("PublicKey") && Utf8.IsAscii("PresharedKey") && Utf8.IsAscii("Endpoint")
    ensures Utf8.IsAscii("AllowedIPs") && Utf8.IsAscii("PersistentKeepalive")
  {
  }

  lemma EndpointLength(p: WireGuardProfile)
    requires ValidEndpointHost(p.endpointHost) && p.endpointPort != 0
    ensures Utf8.IsAscii(EndpointText(p)) && |EndpointText(p)| <= 261
  {
    EndpointRead(p);
    SolidShape(EndpointText(p));
    HostLength(p.endpointHost);
    Utf8.EncodeLength(p.endpointHost);
    DecLength(p.endpointPort);
  }

  /** The peer lines but for the routes are short; the routes' line has its own bound. */
  lemma PeerUnits(p: WireGuardProfile)
    requires Legible(p) && ShortTexts(p)
    ensures TotalUnits(FieldLines(PeerFields(p)), 2) <= 4 * 274 + 8239
  {
    hide FieldLine, Base64.Encode, Join, Utf8.IsAscii, Short, Item, ValidEndpointHost, ZeroKey, Dec,
         EndpointText,
         Units, TotalUnits;
    PeerKeysAscii();
    KeyText(p.peerPublicKey);
    SolidShape(Base64.Encode(p.peerPublicKey));
    SolidLine("PublicKey", Base64.Encode(p.peerPublicKey));
    if p.presharedKey.Some? {
      KeyText(p.presharedKey.value);
      SolidShape(Base64.Encode(p.presharedKey.value));
      SolidLine("PresharedKey", Base64.Encode(p.presharedKey.value));
    }
    EndpointLength(p);
    SolidLine("Endpoint", EndpointText(p));
    NetworksLength(p.allowedIps, 1, 32);
    SolidLine("AllowedIPs", Join(p.allowedIps, ", "));
    if p.persistentKeepalive.Some? {
      DecText(p.persistentKeepalive.value);
      SolidShape(Dec(p.persistentKeepalive.value));
      DecLength(p.persistentKeepalive.value);
      SolidLine("PersistentKeepalive", Dec(p.persistentKeepalive.value));
    }
    PeerUnitsFrom(p);
  }

  lemma PeerUnitsFrom(p: WireGuardProfile)
    requires forall i :: 0 <= i < |PeerFields(p)| ==>
      Units(FieldLine(PeerFields(p)[i])) <= if PeerFields(p)[i].0 == "AllowedIPs" then 8237 else 272
    ensures TotalUnits(FieldLines(PeerFields(p)), 2) <= 4 * 274 + 8239
  {
    hide FieldLine, Base64.Encode, Join, Dec, EndpointText, Units, TotalUnits;
    var fs := PeerFields(p);
    var at := if p.presharedKey.Some? then 3 else 2;
    var before, after := FieldLines(fs[..at]), FieldLines(fs[at + 1..]);
    forall i | 0 <= i < |fs| && i != at ensures fs[i].0 != "AllowedIPs" { assert |fs[i].0| != |"AllowedIPs"|; }
    assert FieldLines(fs) == before + ([FieldLine(fs[at])] + after);
    TotalUnitsAppend(before, [FieldLine(fs[at])] + after, 2);
    TotalUnitsAppend([FieldLine(fs[at])], after, 2);
    TotalUnitsBound(before, 2, 272);
    TotalUnitsBound(after, 2, 272);
    TotalUnitsBound([FieldLine(fs[at])], 2, 8237);
  }

  lemma FieldUnits(p: AmneziaWgProfile)
    requires LegibleAmneziaWg(p) && Short(Headers(p))
    ensures TotalUnits(FieldLines(NumberFields(p)), 2) <= 11 * 262
    ensures TotalUnits(FieldLines(SpecialFields(p.specialJunk)), 2) <= 5 * 4103
  {
    hide FieldLine, Units, TotalUnits, Legible, ValidNumericRange, Dec, Utf8.IsAscii, LegiblePacket;
    NumberUnits(p);
    TotalUnitsBound(FieldLines(NumberFields(p)), 2, 260);
    JunkUnits(p);
    TotalUnitsBound(FieldLines(SpecialFields(p.specialJunk)), 2, 4101);
  }

  lemma ShortKeysAscii(i: nat)
    requires i < 11
    ensures |REQUIRED_KEYS| == 11 && Utf8.IsAscii(REQUIRED_KEYS[i])
    ensures |REQUIRED_KEYS[i]| <= if i < 7 then 4 else 2
  {
  }

  lemma NumberUnits(p: AmneziaWgProfile)
    requires LegibleAmneziaWg(p) && Short(Headers(p))
    ensures forall i :: 0 <= i < 11 ==> Units(FieldLines(NumberFields(p))[i]) <= 260
  {
    hide FieldLine, Units, Legible, ValidNumericRange, Dec, Utf8.IsAscii, LegiblePacket, AmneziaWgFields;
    forall i | 0 <= i < 11 ensures Units(FieldLines(NumberFields(p))[i]) <= 260 {
      ShortKeysAscii(i);
      NumberValueLength(p, i);
      var f := NumberFields(p)[i];
      assert f == (f.0, f.1);
      SolidLine(f.0, f.1);
    }
  }

  lemma NumberValueLength(p: AmneziaWgProfile, i: nat)
    requires LegibleAmneziaWg(p) && Short(Headers(p)) && i < 11
    ensures Utf8.IsAscii(NumberFields(p)[i].1) && |NumberFields(p)[i].1| <= if i < 7 then 5 else 255
    ensures NumberFields(p)[i].0 == REQUIRED_KEYS[i]
  {
    hide Legible, ValidNumericRange, Dec, Utf8.IsAscii, LegiblePacket, Solid;
    var n := if i < 7 then Numbers(p)[i] else 0;
    SolidNumber(n);
    DecLength(n);
    SolidShape(Dec(n));
    if i >= 7 {
      var h := Headers(p)[i - 7];
      SolidRange(h);
      SolidShape(h);
      Utf8.EncodeLength(h);
    }
  }

  lemma JunkUnits(p: AmneziaWgProfile)
    requires |p.specialJunk| <= 5 && forall i :: 0 <= i < |p.specialJunk| ==> LegiblePacket(p.specialJunk[i])
    ensures forall i :: 0 <= i < |p.specialJunk| ==> Units(FieldLines(SpecialFields(p.specialJunk))[i]) <= 4101
  {
    hide FieldLine, Units, Dec;
    forall i | 0 <= i < |p.specialJunk| ensures Units(FieldLines(SpecialFields(p.specialJunk))[i]) <= 4101 {
      UnitsBound(p.specialJunk[i]);
      JunkKeyUnits(i + 1);
      LineUnits("I" + Dec(i + 1), p.specialJunk[i], 4101);
    }
  }

  lemma JunkKeyUnits(i: nat)
    requires 1 <= i <= 5
    ensures Units("I" + Dec(i)) == 2
  {
    OneDigit(i);
    UnitsBound(["I1", "I2", "I3", "I4", "I5"][i - 1]);
  }

  lemma HeaderLineUnits()
    ensures Units("[Interface]") == 11 && Units("") == 0 && Units("[Peer]") == 6
  {
    UnitsBound("[Interface]");
    UnitsBound("[Peer]");
  }

  lemma HeaderUnits()
    ensures TotalUnits(["[Interface]"], 2) == 13 && TotalUnits(["", "[Peer]"], 2) == 10
  {
    hide Units;
    HeaderLineUnits();
    assert ["[Interface]"][1..] == [] && ["", "[Peer]"][1..] == ["[Peer]"] && ["[Peer]"][1..] == [];
  }

  /** No profile of this kind is refused for the length of its text. */
  lemma TextWithinLimit(p: AmneziaWgProfile)
    requires LegibleAmneziaWg(p) && ShortAmneziaWgTexts(p)
    ensures Units(AmneziaWgText(p)) <= 65536 && ShortHeaders(p)
  {
    hide CrLf, Units, TotalUnits, InterfaceFields, PeerFields, NumberFields, SpecialFields, Legible, ShortTexts,
         ValidNumericRange, LegiblePacket;
    var base := p.wireguard;
    var i, n, s, e := FieldLines(InterfaceFields(base)), FieldLines(NumberFields(p)),
      FieldLines(SpecialFields(p.specialJunk)), FieldLines(PeerFields(base));
    assert FieldLines(AmneziaWgFields(p)) == n + s;
    assert ConfigLines(base, AmneziaWgFields(p)) == ["[Interface]"] + (i + (n + (s + (["", "[Peer]"] + e))));
    CrLfUnits(ConfigLines(base, AmneziaWgFields(p)));
    TotalUnitsAppend(["[Interface]"], i + (n + (s + (["", "[Peer]"] + e))), 2);
    TotalUnitsAppend(i, n + (s + (["", "[Peer]"] + e)), 2);
    TotalUnitsAppend(n, s + (["", "[Peer]"] + e), 2);
    TotalUnitsAppend(s, ["", "[Peer]"] + e, 2);
    TotalUnitsAppend(["", "[Peer]"], e, 2);
    HeaderUnits();
    InterfaceUnits(base);
    FieldUnits(p);
    PeerUnits(base);
    HeadersShort(p);
  }

  lemma HeadersShort(p: AmneziaWgProfile)
    requires Short(Headers(p))
    ensures ShortHeaders(p)
  {
    forall i | 0 <= i < 4 ensures |Headers(p)[i]| <= 255 { Utf8.EncodeLength(Headers(p)[i]); }
    assert Headers(p)[0] == p.h1 && Headers(p)[1] == p.h2 && Headers(p)[2] == p.h3 && Headers(p)[3] == p.h4;
  }

  lemma WireGuardTextWithinLimit(p: WireGuardProfile)
    requires Legible(p) && ShortTexts(p)
    ensures Units(WireGuardText(p)) <= 65536
  {
    hide CrLf, Units, TotalUnits, InterfaceFields, PeerFields, Legible, ShortTexts;
    var i, e := FieldLines(InterfaceFields(p)), FieldLines(PeerFields(p));
    NoFields();
    assert ConfigLines(p, []) == ["[Interface]"] + (i + (["", "[Peer]"] + e));
    CrLfUnits(ConfigLines(p, []));
    TotalUnitsAppend(["[Interface]"], i + (["", "[Peer]"] + e), 2);
    TotalUnitsAppend(i, ["", "[Peer]"] + e, 2);
    TotalUnitsAppend(["", "[Peer]"], e, 2);
    HeaderUnits();
    InterfaceUnits(p);
    PeerUnits(p);
  }

  /** For every profile the service can hold, only blanks around a special packet break the round trip. */
  lemma HeldProfileRoundTrip(p: AmneziaWgProfile)
    requires ValidAmneziaWg(p) && ShortAmneziaWgTexts(p)
    ensures ParseAmneziaWg(AmneziaWgText(p)) == Ok(ClientAmneziaWgView(p, PrintAll(p.wireguard.dnsServers)))
      <==> TrimmedJunk(p)
  {
    hide AmneziaWgText, Units, ValidAmneziaWg, LegibleAmneziaWg, ShortHeaders, TrimmedJunk, ParseAmneziaWg,
         ShortAmneziaWgTexts;
    ValidAmneziaWgIsLegible(p);
    TextWithinLimit(p);
    AmneziaWgRoundTrip(p);
  }

  lemma HeldWireGuardRoundTrip(p: WireGuardProfile)
    requires ValidWireGuard(p) && ShortTexts(p)
    ensures ParseWireGuard(WireGuardText(p)) == Ok(ClientView(p, PrintAll(p.dnsServers)))
  {
    hide WireGuardText, Units, ValidWireGuard, Legible, ParseWireGuard, ShortTexts;
    ValidIsLegible(p);
    WireGuardTextWithinLimit(p);
    WireGuardRoundTrip(p);
  }

  lemma FitsIsShort(p: WireGuardProfile)
    requires TextsFit(p)
    ensures ShortTexts(p)
  {
  }

  const BLANK_JUNK := LARGEST.(specialJunk := ["a "])

  lemma BlankJunkValid()
    ensures ValidAmneziaWg(BLANK_JUNK) && AmneziaWgTextsFit(BLANK_JUNK)
  {
    hide ValidWireGuard, ValidNumericRange, PutAmneziaWgWith, TextsFit, FitsWire;
    LargestAmneziaWg();
    PrintedDenote(LARGEST.wireguard.dnsServers);
    AmneziaWgAccepted(LARGEST, PrintAll(LARGEST.wireguard.dnsServers));
    assert Headers(BLANK_JUNK) == Headers(LARGEST);
    assert ValidLongString("a ") by { Utf8.EncodeAscii("a "); }
  }

  /** A profile the service accepts, holds and prints, but which the client reads as another one. */
  lemma BlankJunkIsLost(requestId: string)
    requires ValidIdentifier(requestId)
    ensures EncodeRequest(RequestEnvelope(CONTRACT_VERSION, requestId, ImportAmneziaWg(requestId, BLANK_JUNK))).Ok?
    ensures ParseAmneziaWg(AmneziaWgText(BLANK_JUNK))
      != Ok(ClientAmneziaWgView(BLANK_JUNK, PrintAll(BLANK_JUNK.wireguard.dnsServers)))
  {
    hide ValidAmneziaWg, EncodeRequest, ParseAmneziaWg, AmneziaWgText, AmneziaWgTextsFit, ValidIdentifier,
         ShortAmneziaWgTexts;
    BlankJunkValid();
    RequestSize(RequestEnvelope(CONTRACT_VERSION, requestId, ImportAmneziaWg(requestId, BLANK_JUNK)));
    assert ShortAmneziaWgTexts(BLANK_JUNK) by { FitIsShort(BLANK_JUNK); }
    HeldProfileRoundTrip(BLANK_JUNK);
    assert !TrimmedJunk(BLANK_JUNK) by { assert !Trimmed(BLANK_JUNK.specialJunk[0]); }
  }

  lemma FitIsShort(p: AmneziaWgProfile)
    requires AmneziaWgTextsFit(p)
    ensures ShortAmneziaWgTexts(p)
  {
    FitsIsShort(p.wireguard);
  }
}
