/**
  IP addresses and their text as Rust's standard library reads and prints them: dotted decimal for IPv4; groups of
  hexadecimal digits for IPv6, with `::` for a run of zeros and an embedded IPv4 part at the end (section 2.2 of
  RFC 4291, sections 4 and 5 of RFC 5952).
 */
module IpText {
  import opened Basics
  import opened Text

  datatype Address = V4(octets: seq<Byte>) | V6(groups: seq<U16>)

  type IpAddr = a: Address | if a.V4? then |a.octets| == 4 else |a.groups| == 8
    witness V4([0, 0, 0, 0])

  ////////// Printing //////////

  function DecTexts(ns: seq<Byte>): (ts: seq<string>)
    ensures |ts| == |ns|
  {
    seq(|ns|, i requires 0 <= i < |ns| => Dec(ns[i]))
  }

  function HexTexts(ns: seq<U16>): (ts: seq<string>)
    ensures |ts| == |ns|
  {
    seq(|ns|, i requires 0 <= i < |ns| => Hex(ns[i]))
  }

  function PrintOctets(octets: seq<Byte>): string { Join(DecTexts(octets), ".") }

  function PrintGroups(groups: seq<U16>): string { Join(HexTexts(groups), ":") }

  datatype Run = Run(start: nat, length: nat)

  predicate Zeros(groups: seq<U16>, r: Run) {
    r.start + r.length <= |groups| && forall i :: r.start <= i < r.start + r.length ==> groups[i] == 0
  }

  /** The longest run of zeros, the first of them: `current` ends before `i`, `longest` is the longest so far. */
  function LongestFrom(groups: seq<U16>, i: nat, current: Run, longest: Run): (r: Run)
    requires i <= |groups| && Zeros(groups, longest) && Zeros(groups, current)
    requires current.length > 0 ==> current.start + current.length == i
    ensures Zeros(groups, r)
    decreases |groups| - i
  {
    if i == |groups| then longest
    else if groups[i] != 0 then LongestFrom(groups, i + 1, Run(0, 0), longest)
    else
      var next := if current.length == 0 then Run(i, 1) else Run(current.start, current.length + 1);
      LongestFrom(groups, i + 1, next, if next.length > longest.length then next else longest)
  }

  function Longest(groups: seq<U16>): (r: Run)
    ensures Zeros(groups, r)
  {
    LongestFrom(groups, 0, Run(0, 0), Run(0, 0))
  }

  /** An IPv6 address that stands for an IPv4 one. */
  predicate Mapped(groups: seq<U16>)
    requires |groups| == 8
  {
    Zeros(groups, Run(0, 5)) && groups[5] == 0xffff
  }

  function Octets(high: U16, low: U16): (octets: seq<Byte>)
    ensures |octets| == 4 && Words(octets) == [high, low]
  {
    [high / 256, high % 256, low / 256, low % 256]
  }

  function Words(octets: seq<Byte>): seq<U16>
    requires |octets| == 4
  {
    [octets[0] as int * 256 + octets[1], octets[2] as int * 256 + octets[3]]
  }

  function Print(a: IpAddr): string {
    match a
    case V4(octets) => PrintOctets(octets)
    case V6(groups) =>
      var zeros := Longest(groups);
      if Mapped(groups) then "::" + ("ffff:" + PrintOctets(Octets(groups[6], groups[7])))
      else if zeros.length > 1 then
        PrintGroups(groups[..zeros.start]) + ("::" + PrintGroups(groups[zeros.start + zeros.length..]))
      else PrintGroups(groups)
  }

  ////////// Reading //////////

  /** An octet has no leading zero: "0" is one, "00" and "01" are not. */
  predicate IsOctet(s: string) {
    1 <= |s| <= 3 && AllDigits(s) && (|s| > 1 ==> s[0] != '0') && DecValue(s) < 256
  }

  predicate IsGroup(s: string) { 1 <= |s| <= 4 && AllHex(s) }

  function GroupValue(s: string): U16
    requires IsGroup(s)
  {
    HexBound(s); HexValue(s)
  }

  predicate AreGroups(parts: seq<string>) { forall i :: 0 <= i < |parts| ==> IsGroup(parts[i]) }

  function GroupValues(parts: seq<string>): (ns: seq<U16>)
    requires AreGroups(parts)
    ensures |ns| == |parts|
  {
    seq(|parts|, i requires 0 <= i < |parts| => GroupValue(parts[i]))
  }

  predicate IsV4(s: string) {
    var parts := Split(s, '.');
    |parts| == 4 && forall i :: 0 <= i < 4 ==> IsOctet(parts[i])
  }

  function ReadOctets(s: string): (octets: seq<Byte>)
    requires IsV4(s)
    ensures |octets| == 4
  {
    var parts := Split(s, '.');
    seq(4, i requires 0 <= i < 4 => DecValue(parts[i]))
  }

  /** Groups between colons; at the end of an address the last may be an IPv4 part, which makes two of them. */
  function ReadGroups(s: string, atEnd: bool): Option<seq<U16>> {
    if s == "" then Some([])
    else
      var parts := Split(s, ':');
      var last := |parts| - 1;
      if AreGroups(parts) then Some(GroupValues(parts))
      else if atEnd && AreGroups(parts[..last]) && IsV4(parts[last]) then
        Some(GroupValues(parts[..last]) + Words(ReadOctets(parts[last])))
      else None
  }

  /** The position of the first double colon, or the length when there is none. */
  function DoubleColon(s: string): (i: nat)
    ensures i <= |s| && (i < |s| ==> i + 1 < |s| && s[i] == ':' && s[i + 1] == ':')
  {
    if |s| < 2 then |s| else if s[0] == ':' && s[1] == ':' then 0 else 1 + DoubleColon(s[1..])
  }

  /** A double colon stands for at least one group of zeros. */
  function ReadV6(s: string): (r: Option<seq<U16>>)
    ensures r.Some? ==> |r.value| == 8
  {
    var cut := DoubleColon(s);
    if cut == |s| then
      var groups := ReadGroups(s, true);
      if groups.Some? && |groups.value| == 8 then groups else None
    else
      var head, end := ReadGroups(s[..cut], false), ReadGroups(s[cut + 2..], true);
      if head.Some? && end.Some? && |head.value| + |end.value| <= 7 then
        Some(head.value + seq(8 - |head.value| - |end.value|, _ => 0) + end.value)
      else None
  }

  function Parse(s: string): Option<IpAddr> {
    if IsV4(s) then Some(V4(ReadOctets(s)))
    else if ReadV6(s).Some? then Some(V6(ReadV6(s).value))
    else None
  }

  ////////// Characters //////////

  lemma DigitsHaveNoSeparator(s: string)
    requires AllHex(s)
    ensures '.' !in s && ':' !in s
  {
  }

  predicate IsIpChar(c: char) { IsHexDigit(c) || c == '.' || c == ':' }

  lemma V4Chars(s: string)
    requires IsV4(s)
    ensures s != "" && forall c :: c in s ==> IsDigit(c) || c == '.'
  {
    forall c | c in s && c != '.' ensures IsDigit(c) {
      SplitCovers(s, '.', c);
      var part :| part in Split(s, '.') && c in part;
    }
  }

  lemma GroupsChars(s: string, atEnd: bool)
    requires ReadGroups(s, atEnd).Some?
    ensures forall c :: c in s ==> IsIpChar(c)
    ensures ':' !in s ==> |ReadGroups(s, atEnd).value| <= 2
  {
    hide IsV4, IsHexDigit, IsDigit;
    var parts := Split(s, ':');
    forall c | c in s ensures IsIpChar(c) {
      if c != ':' {
        SplitCovers(s, ':', c);
        var part :| part in parts && c in part;
        var i :| 0 <= i < |parts| && parts[i] == part;
        PartChars(part, c);
      }
    }
    if ':' !in s { SplitWhole(s, ':'); }
  }

  lemma PartChars(part: string, c: char)
    requires (IsGroup(part) || IsV4(part)) && c in part
    ensures IsIpChar(c)
  {
    if IsV4(part) { V4Chars(part); }
  }

  lemma V6Chars(s: string)
    requires ReadV6(s).Some?
    ensures ':' in s && forall c :: c in s ==> IsIpChar(c)
  {
    hide ReadGroups;
    var cut := DoubleColon(s);
    if cut == |s| {
      GroupsChars(s, true);
    } else {
      GroupsChars(s[..cut], false);
      GroupsChars(s[cut + 2..], true);
      assert s[cut] == ':';
      forall c | c in s ensures IsIpChar(c) {
        var i :| 0 <= i < |s| && s[i] == c;
        if i < cut { assert c in s[..cut]; } else if i >= cut + 2 { assert s[cut + 2..][i - cut - 2] == c; }
      }
    }
  }

  lemma V6IsNotV4(s: string)
    requires ':' in s
    ensures !IsV4(s)
  {
    if IsV4(s) { V4Chars(s); }
  }

  /** Address text is made of digits and its two separators, and only IPv6 text holds a colon. */
  lemma ParsedChars(s: string)
    requires Parse(s).Some?
    ensures s != "" && forall c :: c in s ==> IsIpChar(c)
    ensures ':' in s <==> Parse(s).value.V6?
  {
    hide ReadV6;
    if IsV4(s) { V4Chars(s); } else { V6Chars(s); }
  }

  ////////// Reading back what is printed //////////

  lemma DecIsOctet(n: Byte)
    ensures IsOctet(Dec(n)) && DecValue(Dec(n)) == n
  {
    DecRoundTrip(n);
    DecLength(n);
    if n >= 10 { assert Dec(n)[0] != '0'; }
  }

  lemma OctetsRead(octets: seq<Byte>)
    requires |octets| == 4
    ensures IsV4(PrintOctets(octets)) && ReadOctets(PrintOctets(octets)) == octets
  {
    var texts := DecTexts(octets);
    forall i | 0 <= i < 4 ensures IsOctet(texts[i]) && DecValue(texts[i]) == octets[i] && '.' !in texts[i] {
      DecIsOctet(octets[i]);
      DigitsHaveNoSeparator(texts[i]);
    }
    SplitJoin(texts, '.');
  }

  lemma HexIsGroup(n: U16)
    ensures IsGroup(Hex(n)) && GroupValue(Hex(n)) == n && ':' !in Hex(n)
  {
    HexRoundTrip(n);
    DigitsHaveNoSeparator(Hex(n));
  }

  lemma GroupsRead(groups: seq<U16>, atEnd: bool)
    ensures ReadGroups(PrintGroups(groups), atEnd) == Some(groups)
  {
    hide Hex, GroupValue, IsGroup, Split;
    if groups != [] {
      var texts := HexTexts(groups);
      forall i | 0 <= i < |texts| ensures IsGroup(texts[i]) && GroupValue(texts[i]) == groups[i] && ':' !in texts[i] {
        HexIsGroup(groups[i]);
      }
      SplitJoin(texts, ':');
      PrintedSpaced(groups);
      assert GroupValues(texts) == groups;
    }
  }

  /** No two colons stand side by side, and none at either end. */
  predicate Spaced(s: string) {
    (forall i :: 0 <= i < |s| - 1 ==> s[i] != ':' || s[i + 1] != ':')
    && (s != "" ==> s[0] != ':' && s[|s| - 1] != ':')
  }

  lemma {:induction false} PrintedSpaced(groups: seq<U16>)
    ensures Spaced(PrintGroups(groups)) && (groups != [] ==> PrintGroups(groups) != "")
  {
    hide Hex;
    if groups != [] {
      HexIsGroup(groups[0]);
      assert HexTexts(groups)[1..] == HexTexts(groups[1..]);
      PrintedSpaced(groups[1..]);
      if |groups| > 1 { SpacedJoin(Hex(groups[0]), PrintGroups(groups[1..])); }
    }
  }

  lemma SpacedJoin(a: string, b: string)
    requires a != "" && ':' !in a && b != "" && Spaced(b)
    ensures Spaced(a + ":" + b)
  {
    var s := a + ":" + b;
    forall i | 0 <= i < |s| - 1 ensures s[i] != ':' || s[i + 1] != ':' {
      if i < |a| { assert s[i] == a[i]; } else if i > |a| { assert s[i] == b[i - |a| - 1]; }
    }
  }

  lemma {:induction false} NoDoubleColon(s: string)
    requires forall i :: 0 <= i < |s| - 1 ==> s[i] != ':' || s[i + 1] != ':'
    ensures DoubleColon(s) == |s|
  {
    if |s| >= 2 { NoDoubleColon(s[1..]); }
  }

  lemma {:induction false} FirstDoubleColon(h: string, r: string)
    requires forall i :: 0 <= i < |h| - 1 ==> h[i] != ':' || h[i + 1] != ':'
    requires h != "" ==> h[|h| - 1] != ':'
    ensures DoubleColon(h + ("::" + r)) == |h|
  {
    if h != "" {
      assert (h + ("::" + r))[1..] == h[1..] + ("::" + r);
      FirstDoubleColon(h[1..], r);
    }
  }

  /** A text with a double colon is read in two parts. */
  lemma ReadParts(h: string, r: string)
    requires Spaced(h)
    ensures var s, head, end := h + ("::" + r), ReadGroups(h, false), ReadGroups(r, true);
      ':' in s && (head.Some? && end.Some? && |head.value| + |end.value| <= 7 ==>
        ReadV6(s) == Some(head.value + seq(8 - |head.value| - |end.value|, _ => 0) + end.value))
  {
    hide ReadGroups;
    var s := h + ("::" + r);
    FirstDoubleColon(h, r);
    assert s[..|h|] == h && s[|h| + 2..] == r;
    assert s[|h|] == ':';
  }

  lemma MappedRead(octets: seq<Byte>)
    requires |octets| == 4
    ensures ReadGroups("ffff:" + PrintOctets(octets), true) == Some([0xffff] + Words(octets))
  {
    hide PrintOctets, IsV4, ReadOctets, Split, IsGroup;
    var end := PrintOctets(octets);
    OctetsRead(octets);
    V4Chars(end);
    assert "ffff" + [':'] + end == "ffff:" + end;
    SplitHead("ffff", end, ':');
    SplitWhole(end, ':');
    assert Split("ffff:" + end, ':') == ["ffff", end];
    var parts := ["ffff", end];
    assert !AreGroups(parts) by {
      V4IsNoGroup(end);
      assert !IsGroup(parts[1]);
    }
    FfffRead();
    assert parts[..1] == ["ffff"];
    assert GroupValues(["ffff"]) == [0xffff];
  }

  lemma FfffRead()
    ensures IsGroup("ffff") && GroupValue("ffff") == 0xffff && ':' !in "ffff"
  {
    assert "ffff"[..3] == "fff" && "fff"[..2] == "ff" && "ff"[..1] == "f" && "f"[..0] == "";
    assert HexValue("f") == 0xf;
    assert HexValue("ff") == 0xff;
    assert HexValue("fff") == 0xfff;
  }

  lemma V4IsNoGroup(s: string)
    requires IsV4(s)
    ensures !IsGroup(s)
  {
    if '.' !in s { SplitWhole(s, '.'); }
  }

  /** Reading an address back from its printed text. */
  lemma PrintParse(a: IpAddr)
    ensures Parse(Print(a)) == Some(a)
  {
    hide ReadV6, PrintGroups, PrintOctets, IsV4, Longest, ReadOctets;
    if a.V4? {
      OctetsRead(a.octets);
    } else {
      GroupsParse(a.groups);
      V6IsNotV4(Print(a));
    }
  }

  lemma GroupsParse(groups: seq<U16>)
    requires |groups| == 8
    ensures ':' in Print(V6(groups)) && ReadV6(Print(V6(groups))) == Some(groups)
  {
    hide ReadV6, PrintGroups, PrintOctets, Longest, Octets, Mapped, Zeros;
    if Mapped(groups) {
      MappedParse(groups);
    } else if Longest(groups).length > 1 {
      ShortenedParse(groups, Longest(groups));
    } else {
      PlainParse(groups);
    }
  }

  lemma MappedParse(groups: seq<U16>)
    requires |groups| == 8 && Mapped(groups)
    ensures var s := "::" + ("ffff:" + PrintOctets(Octets(groups[6], groups[7])));
      ':' in s && ReadV6(s) == Some(groups)
  {
    hide ReadV6, ReadGroups, PrintOctets, Octets;
    var octets := Octets(groups[6], groups[7]);
    MappedRead(octets);
    EmptyRead();
    var s := "::" + ("ffff:" + PrintOctets(octets));
    ReadParts("", "ffff:" + PrintOctets(octets));
    assert "" + s == s;
    MappedGroups(groups);
  }

  lemma MappedGroups(groups: seq<U16>)
    requires |groups| == 8 && Mapped(groups)
    ensures [] + seq(5, _ => 0) + ([0xffff] + [groups[6], groups[7]]) == groups
  {
  }

  lemma ShortenedParse(groups: seq<U16>, zeros: Run)
    requires |groups| == 8 && Zeros(groups, zeros) && zeros.length > 0
    ensures var s := PrintGroups(groups[..zeros.start])
        + ("::" + PrintGroups(groups[zeros.start + zeros.length..]));
      ':' in s && ReadV6(s) == Some(groups)
  {
    hide ReadV6, ReadGroups, PrintGroups, Spaced;
    var h, r := groups[..zeros.start], groups[zeros.start + zeros.length..];
    GroupsRead(h, false);
    GroupsRead(r, true);
    PrintedSpaced(h);
    ReadParts(PrintGroups(h), PrintGroups(r));
    ZerosFilled(groups, zeros);
  }

  lemma ZerosFilled(groups: seq<U16>, zeros: Run)
    requires Zeros(groups, zeros)
    ensures groups[..zeros.start] + seq(zeros.length, _ => 0) + groups[zeros.start + zeros.length..] == groups
  {
  }

  lemma EmptyRead()
    ensures ReadGroups("", false) == Some([])
  {
  }

  lemma PlainParse(groups: seq<U16>)
    requires |groups| == 8
    ensures ':' in PrintGroups(groups) && ReadV6(PrintGroups(groups)) == Some(groups)
  {
    hide ReadGroups, PrintGroups;
    GroupsRead(groups, true);
    PrintedSpaced(groups);
    NoDoubleColon(PrintGroups(groups));
    GroupsChars(PrintGroups(groups), true);
  }

  /** An address without a zero is printed in full. */
  lemma WithoutZeros(groups: seq<U16>)
    requires |groups| == 8 && forall i :: 0 <= i < 8 ==> groups[i] != 0
    ensures Print(V6(groups)) == PrintGroups(groups)
  {
    hide PrintGroups, PrintOctets, Longest;
    var zeros := Longest(groups);
    assert zeros.start < 8 ==> groups[zeros.start] != 0;
    assert groups[0] != 0;
  }

  ////////// Lengths //////////

  /** The last piece of a join is not followed by the separator. */
  lemma {:induction false} JoinLength(parts: seq<string>, sep: string, each: nat)
    requires forall i :: 0 <= i < |parts| ==> |parts[i]| <= each
    ensures |Join(parts, sep)| <= |parts| * (each + |sep|)
    ensures parts != [] ==> |Join(parts, sep)| + |sep| <= |parts| * (each + |sep|)
  {
    if |parts| > 1 {
      JoinLength(parts[1..], sep, each);
      assert (|parts| - 1) * (each + |sep|) + (each + |sep|) == |parts| * (each + |sep|);
    } else if |parts| == 1 {
      assert 1 * (each + |sep|) == each + |sep|;
    }
  }

  lemma OctetsLength(octets: seq<Byte>)
    requires |octets| == 4
    ensures |PrintOctets(octets)| <= 15
  {
    forall i | 0 <= i < 4 ensures |DecTexts(octets)[i]| <= 3 { DecLength(octets[i]); }
    JoinLength(DecTexts(octets), ".", 3);
  }

  lemma GroupsLength(groups: seq<U16>)
    ensures |PrintGroups(groups)| <= 5 * |groups| && (groups != [] ==> |PrintGroups(groups)| < 5 * |groups|)
  {
    forall i | 0 <= i < |groups| ensures |HexTexts(groups)[i]| <= 4 { HexRoundTrip(groups[i]); }
    JoinLength(HexTexts(groups), ":", 4);
  }

  lemma PrintLength(a: IpAddr)
    ensures 1 <= |Print(a)| <= 39
  {
    hide PrintGroups, PrintOctets, Longest, Parse;
    match a {
      case V4(octets) => OctetsLength(octets);
      case V6(groups) =>
        var zeros := Longest(groups);
        OctetsLength(Octets(groups[6], groups[7]));
        GroupsLength(groups);
        GroupsLength(groups[..zeros.start]);
        GroupsLength(groups[zeros.start + zeros.length..]);
    }
    PrintParse(a);
    ParsedChars(Print(a));
  }

  /** A text is as long as its pieces and the separators between them. */
  lemma {:induction false} PiecesLength(s: string, sep: char, each: nat)
    requires forall i :: 0 <= i < |Split(s, sep)| ==> |Split(s, sep)[i]| <= each
    ensures |s| + 1 <= |Split(s, sep)| * (each + 1)
  {
    PiecesTotal(s, sep);
    TotalBound(Split(s, sep), each);
  }

  function Total(parts: seq<string>): nat { if parts == [] then 0 else |parts[0]| + 1 + Total(parts[1..]) }

  lemma {:induction false} PiecesTotal(s: string, sep: char)
    ensures Total(Split(s, sep)) == |s| + 1
  {
    if s != "" {
      PiecesTotal(s[1..], sep);
      var parts, others := Split(s, sep), Split(s[1..], sep);
      if s[0] == sep { assert parts[1..] == others; } else { assert parts[1..] == others[1..]; }
    }
  }

  lemma {:induction false} TotalBound(parts: seq<string>, each: nat)
    requires forall i :: 0 <= i < |parts| ==> |parts[i]| <= each
    ensures Total(parts) <= |parts| * (each + 1)
  {
    if parts != [] {
      TotalBound(parts[1..], each);
      assert |parts| * (each + 1) == (|parts| - 1) * (each + 1) + (each + 1);
    }
  }

  lemma {:induction false} TotalAppend(a: seq<string>, b: seq<string>)
    ensures Total(a + b) == Total(a) + Total(b)
  {
    if a == [] {
      assert a + b == b;
    } else {
      assert (a + b)[1..] == a[1..] + b;
      TotalAppend(a[1..], b);
    }
  }

  lemma ReadGroupsLength(s: string, atEnd: bool)
    requires ReadGroups(s, atEnd).Some?
    ensures |s| <= 5 * |ReadGroups(s, atEnd).value| + if atEnd then 5 else 0
  {
    hide IsV4, Split, ReadOctets;
    if s != "" {
      var parts := Split(s, ':');
      var last := |parts| - 1;
      PiecesTotal(s, ':');
      if AreGroups(parts) {
        TotalBound(parts, 4);
      } else {
        PiecesLength(parts[last], '.', 3) by { OctetPieces(parts[last]); }
        assert |parts[last]| <= 15 by { OctetPieces(parts[last]); }
        TotalBound(parts[..last], 4);
        assert parts == parts[..last] + [parts[last]];
        TotalAppend(parts[..last], [parts[last]]);
        assert [parts[last]][1..] == [];
      }
    }
  }

  lemma OctetPieces(s: string)
    requires IsV4(s)
    ensures |Split(s, '.')| == 4 && forall i :: 0 <= i < 4 ==> |Split(s, '.')[i]| <= 3
  {
  }

  /** The longest texts end in an IPv4 part; no printed one is as long. */
  lemma AddressLength(v: string)
    requires Parse(v).Some?
    ensures |v| <= 45
  {
    hide ReadGroups;
    if IsV4(v) {
      OctetPieces(v);
      PiecesLength(v, '.', 3);
    } else {
      var cut := DoubleColon(v);
      if cut == |v| {
        ReadGroupsLength(v, true);
      } else {
        ReadGroupsLength(v[..cut], false);
        ReadGroupsLength(v[cut + 2..], true);
      }
    }
  }

  ////////// Exactly how addresses are printed //////////

  /** No run of zeros that ends by `n` is longer, and none as long starts earlier. */
  ghost predicate Best(groups: seq<U16>, n: nat, r: Run) {
    r.start + r.length <= n
    && forall q: Run :: q.start + q.length <= n && Zeros(groups, q) && q.length > 0 ==>
      q.length < r.length || (q.length == r.length && r.start <= q.start)
  }

  /** The zeros just before `i`, all of them. */
  predicate Reaches(groups: seq<U16>, i: nat, current: Run)
    requires i <= |groups|
  {
    Zeros(groups, current) && (if current.length == 0 then i == 0 || groups[i - 1] != 0
      else current.start + current.length == i && (current.start == 0 || groups[current.start - 1] != 0))
  }

  lemma ZeroAt(groups: seq<U16>, q: Run, k: nat)
    requires Zeros(groups, q) && q.start <= k < q.start + q.length
    ensures groups[k] == 0
  {
  }

  lemma EndsHere(groups: seq<U16>, i: nat, current: Run, q: Run)
    requires i < |groups| && groups[i] == 0 && Reaches(groups, i, current)
    requires Zeros(groups, q) && q.length > 0 && q.start + q.length == i + 1
    ensures (if current.length == 0 then i else current.start) <= q.start
  {
    var first: nat := if current.length == 0 then i else current.start;
    var before: nat := if first > 0 then first - 1 else 0;
    if q.start <= before { ZeroAt(groups, q, before); }
  }

  lemma BestPastOther(groups: seq<U16>, i: nat, longest: Run)
    requires i < |groups| && groups[i] != 0 && Best(groups, i, longest)
    ensures Best(groups, i + 1, longest) && Reaches(groups, i + 1, Run(0, 0))
  {
    forall q: Run | q.start + q.length <= i + 1 && Zeros(groups, q) && q.length > 0 ensures q.start + q.length <= i {
      if q.start + q.length == i + 1 { ZeroAt(groups, q, i); }
    }
  }

  lemma BestPastZero(groups: seq<U16>, i: nat, current: Run, longest: Run, next: Run, better: Run)
    requires i < |groups| && groups[i] == 0 && Reaches(groups, i, current) && Best(groups, i, longest)
    requires next == if current.length == 0 then Run(i, 1) else Run(current.start, current.length + 1)
    requires better == if next.length > longest.length then next else longest
    ensures Best(groups, i + 1, better) && Reaches(groups, i + 1, next)
  {
    forall q: Run | q.start + q.length <= i + 1 && Zeros(groups, q) && q.length > 0
      ensures q.length < better.length || (q.length == better.length && better.start <= q.start) {
      if q.start + q.length == i + 1 { EndsHere(groups, i, current, q); }
    }
  }

  lemma {:induction false} LongestBest(groups: seq<U16>, i: nat, current: Run, longest: Run)
    requires i <= |groups| && Zeros(groups, longest) && Reaches(groups, i, current) && Best(groups, i, longest)
    requires current.length <= longest.length
    ensures Best(groups, |groups|, LongestFrom(groups, i, current, longest))
    decreases |groups| - i
  {
    hide Best;
    if i < |groups| {
      if groups[i] != 0 {
        BestPastOther(groups, i, longest);
        LongestBest(groups, i + 1, Run(0, 0), longest);
      } else {
        var next := if current.length == 0 then Run(i, 1) else Run(current.start, current.length + 1);
        var better := if next.length > longest.length then next else longest;
        BestPastZero(groups, i, current, longest, next, better);
        LongestBest(groups, i + 1, next, better);
      }
    }
  }

  /** The zeros that are left out are the first of the longest runs, if it has two at least. */
  lemma ShortenedExactly(groups: seq<U16>, r: Run)
    requires |groups| == 8 && !Mapped(groups) && Zeros(groups, r) && r.length > 0 && Best(groups, 8, r)
    ensures Print(V6(groups)) == if r.length == 1 then PrintGroups(groups)
      else PrintGroups(groups[..r.start]) + ("::" + PrintGroups(groups[r.start + r.length..]))
  {
    hide PrintGroups, PrintOctets, Mapped;
    LongestBest(groups, 0, Run(0, 0), Run(0, 0));
    var longest := Longest(groups);
    assert longest.length > 0 ==> longest == r;
  }

  ////////// IPv4 has one text only //////////

  lemma {:induction false} DecCanonical(s: string)
    requires s != "" && AllDigits(s) && (|s| > 1 ==> s[0] != '0')
    ensures Dec(DecValue(s)) == s && (s[0] != '0' ==> DecValue(s) > 0)
  {
    if |s| > 1 {
      var t := s[..|s| - 1];
      DecCanonical(t);
      assert s == t + [s[|s| - 1]];
    } else {
      assert s[..0] == "" && s == [s[0]];
    }
  }

  /** An IPv4 address is read from the text it is printed as, and from no other. */
  lemma V4Exactly(s: string, octets: seq<Byte>)
    requires |octets| == 4
    ensures Parse(s) == Some(V4(octets)) <==> s == PrintOctets(octets)
  {
    hide ReadV6;
    if s == PrintOctets(octets) { OctetsRead(octets); }
    if Parse(s) == Some(V4(octets)) {
      var parts := Split(s, '.');
      forall i | 0 <= i < 4 ensures parts[i] == DecTexts(octets)[i] { DecCanonical(parts[i]); }
      assert parts == DecTexts(octets);
      JoinSplit(s, '.');
    }
  }

  lemma {:induction false} JoinSplit(s: string, sep: char)
    ensures Join(Split(s, sep), [sep]) == s
  {
    if s != "" {
      JoinSplit(s[1..], sep);
      var rest := Split(s[1..], sep);
      assert s == [s[0]] + s[1..];
      if s[0] == sep {
        assert ([""] + rest)[1..] == rest;
      } else {
        assert ([[s[0]] + rest[0]] + rest[1..])[1..] == rest[1..];
      }
    }
  }
}
