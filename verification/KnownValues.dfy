/** Values that are known from elsewhere, or that a reader can check by eye. */
module KnownValues {
  import opened Basics
  import opened Text
  import opened IpText
  import opened Contracts
  import opened ClientConfig
  import Base64
  import LE = LittleEndian
  import Utf8
  import Wire
  import WireBounds
  import WireLayout
  import WireRoundTrip
  import Zip

  ////////// Texts //////////

  /** One character of each length in UTF-8. */
  lemma Utf8Known()
    ensures Utf8.Encode("A") == [0x41] && Utf8.Encode(['\U{00E9}']) == [0xC3, 0xA9]
    ensures Utf8.Encode(['\U{20AC}']) == [0xE2, 0x82, 0xAC] && Utf8.Encode(['\U{1F600}']) == [0xF0, 0x9F, 0x98, 0x80]
  {
    OneCharacter('A');
    OneCharacter('\U{00E9}');
    OneCharacter('\U{20AC}');
    OneCharacter('\U{1F600}');
  }

  lemma OneCharacter(c: char)
    ensures Utf8.Encode([c]) == Utf8.EncodeChar(c)
  {
    assert [c][1..] == "";
    assert Utf8.EncodeChar(c) + [] == Utf8.EncodeChar(c);
  }

  /** The examples of section 10 of RFC 4648: the first letters of "foobar". */
  lemma Base64Known()
    ensures Base64.Encode([]) == "" && Base64.Encode([0x66]) == "Zg==" && Base64.Encode([0x66, 0x6f]) == "Zm8="
    ensures Base64.Encode([0x66, 0x6f, 0x6f]) == "Zm9v"
    ensures Base64.Encode([0xfb, 0xff, 0xbf]) == "+/+/"
  {
  }

  /** Numbers as Dart reads them. */
  lemma NumbersKnown()
    ensures TryParseInt("-7") == Some(-7) && TryParseInt("+7") == Some(7)
    ensures TryParseInt("0X1f") == Some(31) && TryParseInt("-0x1F") == Some(-31) && TryParseInt("0x") == None
  {
    hide Trim, TrimLeft, TrimRight;
    SevenRead();
    HexRead();
    TrimIdentity("-7");
    TrimIdentity("+7");
    TrimIdentity("0X1f");
    TrimIdentity("-0x1F");
    TrimIdentity("0x");
    assert "-7"[1..] == "7" && "+7"[1..] == "7" && "-0x1F"[1..] == "0x1F";
    assert !IsDigit("0x"[1]);
  }

  lemma SevenRead()
    ensures Magnitude("7") == Some(7) && !HexText("7")
  {
    assert "7"[..0] == "";
  }

  lemma HexRead()
    ensures Magnitude("0X1f") == Some(31) && Magnitude("0x1F") == Some(31)
  {
    assert "0X1f"[2..] == "1f" && "0x1F"[2..] == "1F";
    assert "1f"[..1] == "1" && "1F"[..1] == "1" && "1"[..0] == "";
    assert HexValue("1") == 1;
  }

  /** The other numbers in two's complement, and the largest and smallest. */
  lemma LargeNumbersKnown(digits: string)
    requires |digits| > 2 && digits[0] == '0' && digits[1] == 'x' && AllHex(digits[2..])
    requires HexValue(digits[2..]) == 0xffff_ffff_ffff_ffff
    ensures TryParseInt(digits) == Some(-1) && TryParseInt("-" + digits) == None
  {
    hide HexValue;
    assert !IsSpace(digits[0]) && !IsSpace(digits[|digits| - 1]) by { assert IsHexDigit(digits[2..][|digits| - 3]); }
    TrimIdentity(digits);
    TrimIdentity("-" + digits);
    assert ("-" + digits)[1..] == digits;
  }

  /** What an identifier may be. */
  lemma IdentifiersKnown()
    ensures ValidIdentifier("aZ-_9") && !ValidIdentifier("") && !ValidIdentifier("a.b") && !ValidIdentifier("a b")
    ensures ValidIdentifier(WireBounds.Repeat('a', 64)) && !ValidIdentifier(WireBounds.Repeat('a', 65))
  {
    assert !IsIdChar("a.b"[1]) && !IsIdChar("a b"[1]);
  }

  /** What a hostname may be. */
  lemma HostnamesKnown()
    ensures ValidHostname("a-1.b") && !ValidHostname("") && !ValidHostname(".a") && !ValidHostname("a.")
    ensures !ValidHostname("a..b") && !ValidHostname("a_b") && !ValidHostname("-a") && !ValidHostname("a-")
    ensures !ValidHostname(WireBounds.Repeat('a', 64))
  {
    hide Split;
    SplitHead("a-1", "b", '.');
    SplitWhole("b", '.');
    assert "a-1" + ['.'] + "b" == "a-1.b";
    SplitHead("a", ".b", '.');
    SplitHead("", "b", '.');
    assert "a" + ['.'] + ".b" == "a..b" && "" + ['.'] + "b" == ".b";
    assert Split("a..b", '.')[1] == "";
    OneLabel("a_b");
    OneLabel("-a");
    OneLabel("a-");
    OneLabel(WireBounds.Repeat('a', 64));
    assert !IsAlphanumeric("a_b"[1]) && "a_b"[1] != '-';
  }

  lemma OneLabel(s: string)
    requires '.' !in s
    ensures ValidHostname(s) ==> ValidLabel(s)
  {
    SplitWhole(s, '.');
    assert Split(s, '.')[0] == s;
  }

  ////////// A whole archive //////////

  /** Numbers of two and four bytes in a row, the low byte first. */
  function Row(fields: seq<(nat, nat)>): Bytes {
    if fields == [] then []
    else (if fields[0].0 == 2 then WireLayout.Two(fields[0].1) else WireLayout.Four(fields[0].1)) + Row(fields[1..])
  }

  function Widths(fields: seq<(nat, nat)>): seq<nat> { seq(|fields|, i requires 0 <= i < |fields| => fields[i].0) }

  function Contents(fields: seq<(nat, nat)>): seq<nat> { seq(|fields|, i requires 0 <= i < |fields| => fields[i].1) }

  lemma {:induction false} FieldsInARow(fields: seq<(nat, nat)>)
    requires forall i :: 0 <= i < |fields| ==> fields[i].0 == 2 || fields[i].0 == 4
    ensures Zip.Fields(Contents(fields), Widths(fields)) == Row(fields)
  {
    hide LE.Put, WireLayout.Two, WireLayout.Four;
    if fields != [] {
      assert Contents(fields)[1..] == Contents(fields[1..]) && Widths(fields)[1..] == Widths(fields[1..]);
      FieldsInARow(fields[1..]);
      WireLayout.TwoBytes(fields[0].1);
      WireLayout.FourBytes(fields[0].1);
    }
  }

  /** Section 4.3.7 of the APPNOTE: signature, version 2.0, UTF-8 names, stored, midnight, 1 January 1980, and so on. */
  function LocalRow(crc: nat, size: nat, name: nat): seq<(nat, nat)> {
    [(4, 0x04034b50), (2, 20), (2, 0x800), (2, 0), (2, 0), (2, 0x21), (4, crc), (4, size), (4, size), (2, name), (2, 0)]
  }

  /** Section 4.3.12. */
  function CentralRow(crc: nat, size: nat, name: nat, offset: nat): seq<(nat, nat)> {
    [(4, 0x02014b50), (2, 20), (2, 20), (2, 0x800), (2, 0), (2, 0), (2, 0x21), (4, crc), (4, size), (4, size),
     (2, name), (2, 0), (2, 0), (2, 0), (2, 0), (4, 0), (4, offset)]
  }

  /** Section 4.3.16. */
  function EndRow(count: nat, size: nat, offset: nat): seq<(nat, nat)> {
    [(4, 0x06054b50), (2, 0), (2, 0), (2, count), (2, count), (4, size), (4, offset), (2, 0)]
  }

  /** Every header of every archive, number by number. */
  lemma ArchiveRows(e: Zip.Entry, offset: nat, count: nat, size: nat)
    ensures var (crc, name) := (Zip.Checksum(e.data), Utf8.Encode(e.name));
      Zip.LocalHeader(e) == Row(LocalRow(crc, |e.data|, |name|)) + name
      && Zip.CentralHeader(e, offset) == Row(CentralRow(crc, |e.data|, |name|, offset)) + name
    ensures Zip.Fields(Zip.EndValues(count, size, offset), Zip.END_WIDTHS) == Row(EndRow(count, size, offset))
  {
    hide Zip.Fields, Row, Zip.Checksum, Utf8.Encode;
    var crc, name := Zip.Checksum(e.data), |Utf8.Encode(e.name)|;
    FieldsInARow(LocalRow(crc, |e.data|, name));
    FieldsInARow(CentralRow(crc, |e.data|, name, offset));
    FieldsInARow(EndRow(count, size, offset));
    assert Contents(LocalRow(crc, |e.data|, name)) == Zip.LocalValues(e);
    assert Widths(LocalRow(crc, |e.data|, name)) == Zip.LOCAL_WIDTHS;
    assert Contents(CentralRow(crc, |e.data|, name, offset)) == Zip.CentralValues(e, offset);
    assert Widths(CentralRow(crc, |e.data|, name, offset)) == Zip.CENTRAL_WIDTHS;
    assert Contents(EndRow(count, size, offset)) == Zip.EndValues(count, size, offset);
    assert Widths(EndRow(count, size, offset)) == Zip.END_WIDTHS;
  }

  ////////// A VLESS profile //////////

  const VLESS_EXAMPLE := VlessProfile("123e4567-e89b-12d3-a456-426614174000", "1.1.1.1", 443, "1.1.1.1", "chrome",
    WireBounds.Repeat('a', 43), "0123456789abcdef", "/")

  /** A profile that is accepted, sent and read. */
  lemma VlessKnown(id: string)
    requires ValidIdentifier(id)
    ensures ValidVless(VLESS_EXAMPLE)
    ensures var r := RequestEnvelope(4, id, ImportVless(id, VLESS_EXAMPLE));
      Wire.EncodeRequest(r).Ok? && Wire.DecodeRequest(Wire.EncodeRequest(r).value) == Ok(r)
  {
    hide Wire.EncodeRequest, Wire.DecodeRequest, ValidIdentifier, ValidVless;
    VlessExampleValid();
    var r := RequestEnvelope(4, id, ImportVless(id, VLESS_EXAMPLE));
    WireBounds.RequestSize(r);
    WireRoundTrip.RequestRoundTrip(r);
  }

  lemma VlessExampleValid()
    ensures ValidVless(VLESS_EXAMPLE)
  {
    hide Parse, ValidUuid, ValidHostname;
    WireBounds.OnesParse();
    ExampleUuid();
    assert forall i :: 0 <= i < 43 ==> WireBounds.Repeat('a', 43)[i] == 'a';
  }

  lemma ExampleUuid()
    ensures ValidUuid("123e4567-e89b-12d3-a456-426614174000")
  {
  }
}
