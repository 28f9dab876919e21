/** The stored-only ZIP writer of the diagnostics export, against a reader written from PKWARE's APPNOTE.TXT. */
module Zip {
  import opened Basics
  import opened Crc
  import LE = LittleEndian
  import Utf8

  datatype Entry = Entry(name: string, data: Bytes)

  /** Numbers of given widths in a row, each cut to its width. */
  function Fields(values: seq<nat>, widths: seq<nat>): (bs: Bytes)
    requires |values| == |widths|
  {
    if widths == [] then [] else LE.Put(values[0], widths[0]) + Fields(values[1..], widths[1..])
  }

  function Total(widths: seq<nat>): nat { if widths == [] then 0 else widths[0] + Total(widths[1..]) }

  const LOCAL_WIDTHS: seq<nat> := [4, 2, 2, 2, 2, 2, 4, 4, 4, 2, 2]
  const CENTRAL_WIDTHS: seq<nat> := [4, 2, 2, 2, 2, 2, 2, 4, 4, 4, 2, 2, 2, 2, 2, 4, 4]
  const END_WIDTHS: seq<nat> := [4, 2, 2, 2, 2, 4, 4, 2]

  const LOCAL_SIGNATURE := 0x04034b50
  const CENTRAL_SIGNATURE := 0x02014b50
  const END_SIGNATURE := 0x06054b50
  const UTF8_FLAG := 0x0800

  function Checksum(data: Bytes): U32 { Crc32(data) as int }

  ////////// The archive //////////

  function LocalValues(e: Entry): seq<nat> {
    [LOCAL_SIGNATURE, 20, UTF8_FLAG, 0, 0, 0x21, Checksum(e.data), |e.data|, |e.data|, |Utf8.Encode(e.name)|, 0]
  }

  function LocalHeader(e: Entry): Bytes { Fields(LocalValues(e), LOCAL_WIDTHS) + Utf8.Encode(e.name) }

  function CentralValues(e: Entry, offset: nat): seq<nat> {
    [CENTRAL_SIGNATURE, 20, 20, UTF8_FLAG, 0, 0, 0x21, Checksum(e.data), |e.data|, |e.data|, |Utf8.Encode(e.name)|,
     0, 0, 0, 0, 0, offset]
  }

  function CentralHeader(e: Entry, offset: nat): Bytes {
    Fields(CentralValues(e, offset), CENTRAL_WIDTHS) + Utf8.Encode(e.name)
  }

  function Record(e: Entry): Bytes { LocalHeader(e) + e.data }

  function Local(files: seq<Entry>): Bytes { if files == [] then [] else Record(files[0]) + Local(files[1..]) }

  /** The directory of files whose records start at the given offset. */
  function Central(files: seq<Entry>, offset: nat): Bytes
    decreases files
  {
    if files == [] then [] else CentralHeader(files[0], offset) + Central(files[1..], offset + |Record(files[0])|)
  }

  function EndValues(count: nat, centralSize: nat, centralOffset: nat): seq<nat> {
    [END_SIGNATURE, 0, 0, count, count, centralSize, centralOffset, 0]
  }

  function Archive(files: seq<Entry>): Bytes {
    var local, central := Local(files), Central(files, 0);
    local + central + Fields(EndValues(|files|, |central|, |local|), END_WIDTHS)
  }

  ////////// The writer as it runs //////////

  method U16Bytes(value: nat) returns (bs: Bytes)
    ensures bs == LE.Put(value, 2)
  {
    bs := [value % 256, value / 256 % 256];
    assert LE.Put(value, 2) == [value % 256] + LE.Put(value / 256, 1);
  }

  method U32Bytes(value: nat) returns (bs: Bytes)
    ensures bs == LE.Put(value, 4)
  {
    bs := [value % 256, value / 256 % 256, value / 256 / 256 % 256, value / 256 / 256 / 256 % 256];
    assert LE.Put(value, 4) == [value % 256] + ([value / 256 % 256] + LE.Put(value / 256 / 256, 2));
  }

  lemma NextField(bs: Bytes, values: seq<nat>, widths: seq<nat>, i: nat)
    requires |values| == |widths| && i < |values|
    ensures bs + Fields(values[i..], widths[i..])
      == (bs + LE.Put(values[i], widths[i])) + Fields(values[i + 1..], widths[i + 1..])
  {
    hide LE.Put;
    assert values[i..][1..] == values[i + 1..] && widths[i..][1..] == widths[i + 1..];
  }

  lemma NoMoreFields(bs: Bytes, values: seq<nat>, widths: seq<nat>)
    requires |values| == |widths|
    ensures bs + Fields(values[|values|..], widths[|values|..]) == bs
  {
  }

  /** The builder's chain of numbers, two or four bytes each. */
  method AddAll(values: seq<nat>, widths: seq<nat>) returns (bs: Bytes)
    requires |values| == |widths| && forall i :: 0 <= i < |widths| ==> widths[i] == 2 || widths[i] == 4
    ensures bs == Fields(values, widths)
  {
    hide Fields, LE.Put;
    bs := [];
    assert values[0..] == values && widths[0..] == widths;
    for i := 0 to |values|
      invariant Fields(values, widths) == bs + Fields(values[i..], widths[i..])
    {
      NextField(bs, values, widths, i);
      var next;
      if widths[i] == 2 { next := U16Bytes(values[i]); } else { next := U32Bytes(values[i]); }
      bs := bs + next;
    }
    NoMoreFields(bs, values, widths);
  }

  lemma NextLocal(local: Bytes, files: seq<Entry>, i: nat)
    requires i < |files|
    ensures local + Local(files[i..]) == (local + Record(files[i])) + Local(files[i + 1..])
  {
    hide Record;
    assert files[i..][1..] == files[i + 1..];
  }

  lemma NextCentral(central: Bytes, files: seq<Entry>, i: nat, offset: nat)
    requires i < |files|
    ensures central + Central(files[i..], offset)
      == (central + CentralHeader(files[i], offset)) + Central(files[i + 1..], offset + |Record(files[i])|)
  {
    hide Record, CentralHeader;
    assert files[i..][1..] == files[i + 1..];
  }

  lemma NoMoreFiles(files: seq<Entry>, bytes: Bytes, offset: nat)
    ensures bytes + Local(files[|files|..]) == bytes && bytes + Central(files[|files|..], offset) == bytes
  {
  }

  method Encode(files: seq<Entry>) returns (archive: Bytes)
    ensures archive == Archive(files)
  {
    hide Record, CentralHeader, Fields, Utf8.Encode, Crc32, Local, Central;
    var local: Bytes := [];
    var central: Bytes := [];
    var offset := 0;
    assert files[0..] == files;
    for i := 0 to |files|
      invariant offset == |local|
      invariant Local(files) == local + Local(files[i..])
      invariant Central(files, 0) == central + Central(files[i..], offset)
    {
      var localHeader, centralHeader := Headers(files[i], offset);
      NextLocal(local, files, i);
      NextCentral(central, files, i, offset);
      local := local + (localHeader + files[i].data);
      central := central + centralHeader;
      offset := offset + (|localHeader| + |files[i].data|);
    }
    NoMoreFiles(files, local, offset);
    NoMoreFiles(files, central, offset);
    var end := AddAll(EndValues(|files|, |central|, offset), END_WIDTHS);
    archive := local + central + end;
  }

  method Headers(e: Entry, offset: nat) returns (localHeader: Bytes, centralHeader: Bytes)
    ensures localHeader + e.data == Record(e) && centralHeader == CentralHeader(e, offset)
  {
    hide Fields, Utf8.Encode, Crc32;
    var name := Utf8.Encode(e.name);
    var crc := ComputeCrc32(e.data);
    var first := AddAll([LOCAL_SIGNATURE, 20, UTF8_FLAG, 0, 0, 0x21, crc, |e.data|, |e.data|, |name|, 0], LOCAL_WIDTHS);
    localHeader := first + name;
    var second := AddAll([CENTRAL_SIGNATURE, 20, 20, UTF8_FLAG, 0, 0, 0x21, crc, |e.data|, |e.data|, |name|, 0, 0, 0, 0,
      0, offset],
                         CENTRAL_WIDTHS);
    centralHeader := second + name;
  }

  ////////// The reader //////////

  function TakeFields(s: Bytes, widths: seq<nat>): (r: Option<(seq<nat>, Bytes)>)
    ensures r.Some? ==> |r.value.0| == |widths|
    ensures r.Some? ==> |r.value.1| <= |s|
    decreases widths
  {
    if widths == [] then Some(([], s))
    else if |s| < widths[0] then None
    else
      match TakeFields(s[widths[0]..], widths[1..])
      case None => None
      case Some((values, rest)) => Some(([LE.Get(s[..widths[0]])] + values, rest))
  }

  /** Section 4.3.7: a local header, which must repeat the directory's entry, and after it the file's data. */
  function ReadRecord(a: Bytes, offset: nat, name: Bytes, crc: nat, size: nat): Option<Bytes> {
    hide TakeFields, Checksum;
    if offset > |a| then None
    else
      match TakeFields(a[offset..], LOCAL_WIDTHS)
      case None => None
      case Some((v, s)) =>
        if v[0] != LOCAL_SIGNATURE || v[2] != UTF8_FLAG || v[3] != 0 || v[6] != crc || v[7] != size || v[8] != size then
          None
        else if |s| < v[9] + v[10] + size || s[..v[9]] != name then None
        else
          var data := s[v[9] + v[10]..v[9] + v[10] + size];
          if Checksum(data) != crc then None else Some(data)
  }

  /** Section 4.3.12: one entry of the central directory, followed to its record. */
  function ReadEntry(a: Bytes, s: Bytes): Option<(Entry, Bytes)> {
    hide TakeFields, Utf8.Decode, ReadRecord;
    match TakeFields(s, CENTRAL_WIDTHS)
    case None => None
    case Some((v, s1)) =>
      if v[0] != CENTRAL_SIGNATURE || v[3] != UTF8_FLAG || v[4] != 0 || v[8] != v[9] || v[13] != 0 then None
      else if |s1| < v[10] + v[11] + v[12] then None
      else
        match ReadRecord(a, v[16], s1[..v[10]], v[7], v[8])
        case None => None
        case Some(data) =>
          match Utf8.Decode(s1[..v[10]])
          case None => None
          case Some(name) => Some((Entry(name, data), s1[v[10] + v[11] + v[12]..]))
  }

  function ReadDirectory(a: Bytes, s: Bytes, n: nat): Option<(seq<Entry>, Bytes)>
    decreases n
  {
    if n == 0 then Some(([], s))
    else
      match ReadEntry(a, s)
      case None => None
      case Some((e, s1)) =>
        match ReadDirectory(a, s1, n - 1)
        case None => None
        case Some((entries, rest)) => Some(([e] + entries, rest))
  }

  /** Section 4.3.16: the end record is the last one whose comment reaches to the end of the archive. */
  function FindEnd(a: Bytes, p: nat): (r: Option<nat>)
    requires p <= |a|
    ensures r.Some? ==> r.value <= |a|
    decreases p
  {
    match TakeFields(a[p..], END_WIDTHS)
    case Some((v, comment)) =>
      if v[0] == END_SIGNATURE && v[7] == |comment| then Some(p)
      else if p == 0 then None else FindEnd(a, p - 1)
    case None => if p == 0 then None else FindEnd(a, p - 1)
  }

  function Read(a: Bytes): Option<seq<Entry>> {
    match FindEnd(a, |a|)
    case None => None
    case Some(p) => ReadFrom(a, p)
  }

  function ReadFrom(a: Bytes, p: nat): Option<seq<Entry>>
    requires p <= |a|
  {
    match TakeFields(a[p..], END_WIDTHS)
    case None => None
    case Some((v, _)) =>
      if v[1] != 0 || v[2] != 0 || v[3] != v[4] || v[6] + v[5] != p then None
      else
        match ReadDirectory(a, a[v[6]..p], v[4])
        case Some((entries, rest)) => if rest == [] then Some(entries) else None
        case None => None
  }

  ////////// The reader finds everything //////////

  predicate Fit(values: seq<nat>, widths: seq<nat>)
    requires |values| == |widths|
  {
    forall i :: 0 <= i < |values| ==> values[i] < LE.Power256(widths[i])
  }

  lemma {:induction false} TakeWhatWasPut(values: seq<nat>, widths: seq<nat>, rest: Bytes)
    requires |values| == |widths| && Fit(values, widths)
    ensures TakeFields(Fields(values, widths) + rest, widths) == Some((values, rest))
    decreases widths
  {
    if widths == [] {
      assert [] + rest == rest;
    } else {
      var head, tail := LE.Put(values[0], widths[0]), Fields(values[1..], widths[1..]);
      LE.GetPut(values[0], widths[0]);
      TakeWhatWasPut(values[1..], widths[1..], rest);
      assert Fields(values, widths) + rest == head + (tail + rest);
      assert (head + (tail + rest))[..widths[0]] == head && (head + (tail + rest))[widths[0]..] == tail + rest;
      assert [values[0]] + values[1..] == values;
    }
  }

  /** The limits of the 16 and 32 bit fields. */
  predicate WithinLimits(files: seq<Entry>) {
    |files| < 0x1_0000 && |Local(files)| < 0x1_0000_0000 && |Central(files, 0)| < 0x1_0000_0000
    && forall i :: 0 <= i < |files| ==> |Utf8.Encode(files[i].name)| < 0x1_0000
  }

  lemma LocalFits(e: Entry)
    requires |e.data| < 0x1_0000_0000 && |Utf8.Encode(e.name)| < 0x1_0000
    ensures Fit(LocalValues(e), LOCAL_WIDTHS)
  {
    hide Checksum, Utf8.Encode;
    LE.Widths();
  }

  lemma CentralFits(e: Entry, offset: nat)
    requires |e.data| < 0x1_0000_0000 && |Utf8.Encode(e.name)| < 0x1_0000 && offset < 0x1_0000_0000
    ensures Fit(CentralValues(e, offset), CENTRAL_WIDTHS)
  {
    hide Checksum, Utf8.Encode;
    LE.Widths();
  }

  lemma RecordRead(a: Bytes, offset: nat, e: Entry, after: Bytes)
    requires offset <= |a| && a[offset..] == Record(e) + after
    requires |e.data| < 0x1_0000_0000 && |Utf8.Encode(e.name)| < 0x1_0000
    ensures ReadRecord(a, offset, Utf8.Encode(e.name), Checksum(e.data), |e.data|) == Some(e.data)
  {
    hide Checksum, Utf8.Encode, Fields, TakeFields, Fit;
    var name := Utf8.Encode(e.name);
    var s := name + (e.data + after);
    assert Record(e) + after == Fields(LocalValues(e), LOCAL_WIDTHS) + s;
    LocalFits(e);
    TakeWhatWasPut(LocalValues(e), LOCAL_WIDTHS, s);
    assert s[..|name|] == name && s[|name|..|name| + |e.data|] == e.data;
  }

  /** From this offset on, the archive holds the records of these files. */
  predicate Placed(a: Bytes, files: seq<Entry>, offset: nat) { offset <= |a| && Local(files) <= a[offset..] }

  lemma CutPrefix(a: Bytes, offset: nat, record: Bytes, more: Bytes)
    requires offset <= |a| && record + more <= a[offset..]
    ensures offset + |record| <= |a| && a[offset..] == record + a[offset + |record|..]
    ensures more <= a[offset + |record|..]
  {
    var s := a[offset..];
    assert s[..|record|] == record && s[|record|..] == a[offset + |record|..];
    assert s[..|record| + |more|] == record + more;
    assert s[|record|..][..|more|] == more;
  }

  lemma FirstPlaced(a: Bytes, files: seq<Entry>, offset: nat)
    requires files != [] && Placed(a, files, offset)
    ensures exists after :: a[offset..] == Record(files[0]) + after
    ensures Placed(a, files[1..], offset + |Record(files[0])|)
  {
    hide Record;
    CutPrefix(a, offset, Record(files[0]), Local(files[1..]));
  }

  lemma PlacedRead(a: Bytes, files: seq<Entry>, offset: nat)
    requires files != [] && Placed(a, files, offset) && |Local(files)| < 0x1_0000_0000
      && |Utf8.Encode(files[0].name)| < 0x1_0000
    ensures var e := files[0];
      ReadRecord(a, offset, Utf8.Encode(e.name), Checksum(e.data), |e.data|) == Some(e.data)
    ensures |files[0].data| <= |Local(files)|
    ensures Placed(a, files[1..], offset + |Record(files[0])|)
  {
    hide Checksum, Utf8.Encode, Fields, TakeFields, Fit, ReadRecord, LocalHeader;
    FirstPlaced(a, files, offset);
    var after :| a[offset..] == Record(files[0]) + after;
    RecordRead(a, offset, files[0], after);
  }

  /** A directory entry is followed to its record; it names the file, and the record gives the bytes. */
  lemma EntryRead(a: Bytes, e: Entry, offset: nat, more: Bytes)
    requires |e.data| < 0x1_0000_0000 && |Utf8.Encode(e.name)| < 0x1_0000 && offset < 0x1_0000_0000
    ensures ReadEntry(a, CentralHeader(e, offset) + more) ==
      match ReadRecord(a, offset, Utf8.Encode(e.name), Checksum(e.data), |e.data|)
      case Some(data) => Some((Entry(e.name, data), more))
      case None => None
  {
    hide Checksum, Utf8.Encode, Fields, TakeFields, Fit, ReadRecord, Utf8.Decode;
    var name := Utf8.Encode(e.name);
    assert CentralHeader(e, offset) + more == Fields(CentralValues(e, offset), CENTRAL_WIDTHS) + (name + more);
    CentralFits(e, offset);
    TakeWhatWasPut(CentralValues(e, offset), CENTRAL_WIDTHS, name + more);
    assert (name + more)[..|name|] == name && (name + more)[|name|..] == more;
    Utf8.DecodeEncode(e.name);
  }

  lemma {:induction false} DirectoryRead(a: Bytes, files: seq<Entry>, offset: nat, rest: Bytes)
    requires Placed(a, files, offset) && offset + |Local(files)| < 0x1_0000_0000
    requires forall i :: 0 <= i < |files| ==> |Utf8.Encode(files[i].name)| < 0x1_0000
    ensures ReadDirectory(a, Central(files, offset) + rest, |files|) == Some((files, rest))
    decreases files
  {
    hide Checksum, Utf8.Encode, Placed, ReadRecord, ReadEntry, Record, CentralHeader;
    if files == [] {
      assert [] + rest == rest;
    } else {
      var e := files[0];
      var more := Central(files[1..], offset + |Record(e)|) + rest;
      assert Central(files, offset) + rest == CentralHeader(e, offset) + more;
      PlacedRead(a, files, offset);
      EntryRead(a, e, offset, more);
      DirectoryRead(a, files[1..], offset + |Record(e)|, rest);
      assert [e] + files[1..] == files;
    }
  }

  lemma SmallEnd(a: Bytes, p: nat)
    requires p <= |a| < p + 22
    ensures TakeFields(a[p..], END_WIDTHS) == None
  {
    TakeTooMuch(a[p..], END_WIDTHS);
    assert Total(END_WIDTHS) == 22;
  }

  lemma {:induction false} TakeTooMuch(s: Bytes, widths: seq<nat>)
    requires |s| < Total(widths)
    ensures TakeFields(s, widths) == None
    decreases widths
  {
    if |s| >= widths[0] { TakeTooMuch(s[widths[0]..], widths[1..]); }
  }

  lemma {:induction false} EndFound(a: Bytes, p: nat, q: nat)
    requires q + 22 == |a| && q <= p <= |a|
    requires var r := TakeFields(a[q..], END_WIDTHS);
      r.Some? && r.value.0[0] == END_SIGNATURE && r.value.0[7] == |r.value.1|
    ensures FindEnd(a, p) == Some(q)
    decreases p
  {
    hide TakeFields;
    if p > q {
      SmallEnd(a, p);
      EndFound(a, p - 1, q);
    }
  }

  lemma {:induction false} FieldsLength(values: seq<nat>, widths: seq<nat>)
    requires |values| == |widths|
    ensures |Fields(values, widths)| == Total(widths)
    decreases widths
  {
    if widths != [] { FieldsLength(values[1..], widths[1..]); }
  }

  lemma {:induction false} RecordsSmall(files: seq<Entry>, i: nat)
    requires i < |files|
    ensures |files[i].data| <= |Local(files)|
  {
    hide LocalHeader;
    if i > 0 {
      RecordsSmall(files[1..], i - 1);
    }
  }

  /** Finding the end record and the directory of an archive, whatever stands in the records' place. */
  lemma DirectoryFound(files: seq<Entry>, a: Bytes, local: Bytes)
    requires WithinLimits(files) && |local| == |Local(files)|
    requires a == local + Central(files, 0) + Fields(EndValues(|files|, |Central(files, 0)|, |local|), END_WIDTHS)
    ensures Read(a) ==
      match ReadDirectory(a, Central(files, 0) + [], |files|)
      case Some((entries, rest)) => if rest == [] then Some(entries) else None
      case None => None
  {
    hide Local, Central, Fields, TakeFields, Fit, FindEnd, ReadDirectory, Utf8.Encode;
    var central := Central(files, 0);
    var values := EndValues(|files|, |central|, |local|);
    var p := |local| + |central|;
    FieldsLength(values, END_WIDTHS);
    assert Total(END_WIDTHS) == 22;
    assert a[p..] == Fields(values, END_WIDTHS) + [];
    EndFits(|files|, |central|, |local|);
    TakeWhatWasPut(values, END_WIDTHS, []);
    EndFound(a, |a|, p);
    assert a[|local|..p] == central + [];
  }

  /** Whatever files within the limits are written, the reader gets back exactly their names and their bytes. */
  lemma ArchiveReadsBack(files: seq<Entry>)
    requires WithinLimits(files)
    ensures Read(Archive(files)) == Some(files)
  {
    hide Local, Central, Fields, ReadDirectory, Utf8.Encode, Read;
    var a, local := Archive(files), Local(files);
    DirectoryFound(files, a, local);
    assert a[0..] == local + a[|local|..];
    DirectoryRead(a, files, 0, []);
  }

  ////////// The reader lets no small change pass //////////

  lemma RecordRefused(a: Bytes, offset: nat, e: Entry, changed: Bytes, after: Bytes)
    requires offset <= |a| && a[offset..] == LocalHeader(e) + (changed + after)
    requires |changed| == |e.data| < 0x1_0000_0000 && |Utf8.Encode(e.name)| < 0x1_0000
    requires Checksum(changed) != Checksum(e.data)
    ensures ReadRecord(a, offset, Utf8.Encode(e.name), Checksum(e.data), |e.data|) == None
  {
    hide Checksum, Utf8.Encode, Fields, TakeFields, Fit;
    var name := Utf8.Encode(e.name);
    var s := name + (changed + after);
    assert LocalHeader(e) + (changed + after) == Fields(LocalValues(e), LOCAL_WIDTHS) + s;
    LocalFits(e);
    TakeWhatWasPut(LocalValues(e), LOCAL_WIDTHS, s);
    assert s[|name|..|name| + |e.data|] == changed;
  }

  lemma {:induction false} DirectoryRefused(a: Bytes, files: seq<Entry>, offset: nat, k: nat, rest: Bytes)
    requires k < |files| && offset + |Local(files)| < 0x1_0000_0000
    requires forall i :: 0 <= i < |files| ==> |Utf8.Encode(files[i].name)| < 0x1_0000
    requires var e := files[k];
      ReadRecord(a, offset + |Local(files[..k])|, Utf8.Encode(e.name), Checksum(e.data), |e.data|) == None
    ensures ReadDirectory(a, Central(files, offset) + rest, |files|) == None
    decreases k
  {
    hide Checksum, Utf8.Encode, ReadRecord, ReadEntry, Record, CentralHeader;
    var e := files[0];
    var more := Central(files[1..], offset + |Record(e)|) + rest;
    assert Central(files, offset) + rest == CentralHeader(e, offset) + more;
    RecordsSmall(files, 0);
    EntryRead(a, e, offset, more);
    if k > 0 {
      assert files[..k][1..] == files[1..][..k - 1];
      DirectoryRefused(a, files[1..], offset + |Record(e)|, k - 1, rest);
    }
  }

  lemma {:induction false} LocalAround(files: seq<Entry>, k: nat)
    requires k < |files|
    ensures Local(files) == Local(files[..k]) + (Record(files[k]) + Local(files[k + 1..]))
  {
    hide Record;
    if k > 0 {
      assert files[..k][1..] == files[1..][..k - 1] && files[1..][k..] == files[k + 1..];
      LocalAround(files[1..], k - 1);
    } else {
      assert [] + Local(files) == Local(files);
    }
  }

  /** The archive with other bytes in the place of one file's data. */
  function Tampered(files: seq<Entry>, k: nat, changed: Bytes): Bytes
    requires k < |files|
  {
    Local(files[..k]) + (LocalHeader(files[k]) + changed + Local(files[k + 1..])) + Archive(files)[|Local(files)|..]
  }

  lemma Untampered(files: seq<Entry>, k: nat)
    requires k < |files|
    ensures Tampered(files, k, files[k].data) == Archive(files)
  {
    hide LocalHeader, Local;
    LocalAround(files, k);
    assert Archive(files) == Local(files) + Archive(files)[|Local(files)|..];
  }

  lemma TamperedRecord(files: seq<Entry>, k: nat, changed: Bytes)
    requires k < |files|
    ensures var a, offset := Tampered(files, k, changed), |Local(files[..k])|;
      offset <= |a| && exists after :: a[offset..] == LocalHeader(files[k]) + (changed + after)
  {
    hide LocalHeader, Local, Central, Fields;
    var a, offset := Tampered(files, k, changed), |Local(files[..k])|;
    var after := Local(files[k + 1..]) + Archive(files)[|Local(files)|..];
    assert a[offset..] == LocalHeader(files[k]) + (changed + after);
  }

  lemma TamperedDirectory(files: seq<Entry>, k: nat, changed: Bytes)
    requires WithinLimits(files) && k < |files| && |changed| == |files[k].data|
    ensures Read(Tampered(files, k, changed)) ==
      match ReadDirectory(Tampered(files, k, changed), Central(files, 0) + [], |files|)
      case Some((entries, rest)) => if rest == [] then Some(entries) else None
      case None => None
  {
    hide LocalHeader, Local, Central, Fields, ReadDirectory, Read, Utf8.Encode;
    var local := Local(files[..k]) + (LocalHeader(files[k]) + changed + Local(files[k + 1..]));
    LocalAround(files, k);
    var central := Central(files, 0);
    var end := Fields(EndValues(|files|, |central|, |Local(files)|), END_WIDTHS);
    assert Archive(files)[|Local(files)|..] == central + end;
    assert Tampered(files, k, changed) == local + central + end;
    DirectoryFound(files, Tampered(files, k, changed), local);
  }

  /** Changing bytes of a file, but only among four neighbours, makes the reader refuse the archive. */
  lemma TamperingRefused(files: seq<Entry>, k: nat, before: Bytes, x: Bytes, y: Bytes, after: Bytes)
    requires WithinLimits(files) && k < |files| && files[k].data == before + x + after
    requires |x| == |y| <= 4 && x != y
    ensures Read(Tampered(files, k, before + y + after)) == None
  {
    hide LocalHeader, Local, Central, ReadDirectory, Utf8.Encode, Read, Crc32, ReadRecord, Tampered, Archive;
    var e, changed := files[k], before + y + after;
    var a, offset := Tampered(files, k, changed), |Local(files[..k])|;
    TamperedDirectory(files, k, changed);
    TamperedRecord(files, k, changed);
    var rest :| a[offset..] == LocalHeader(e) + (changed + rest);
    ChangeDetected(before, x, y, after);
    SameChecksum(changed, e.data);
    RecordsSmall(files, k);
    RecordRefused(a, offset, e, changed, rest);
    DirectoryRefused(a, files, 0, k, []);
  }

  lemma SameChecksum(a: Bytes, b: Bytes)
    ensures Checksum(a) == Checksum(b) ==> Crc32(a) == Crc32(b)
  {
    hide Crc32;
    assert (Crc32(a) as int) as bv32 == Crc32(a) && (Crc32(b) as int) as bv32 == Crc32(b);
  }

  lemma EndFits(count: nat, centralSize: nat, centralOffset: nat)
    requires count < 0x1_0000 && centralSize < 0x1_0000_0000 && centralOffset < 0x1_0000_0000
    ensures Fit(EndValues(count, centralSize, centralOffset), END_WIDTHS)
  {
    LE.Widths();
  }
}
