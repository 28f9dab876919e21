/** How the client's parsers cut configuration text into lines, keys and values. */
module ConfigScan {
  import opened Basics
  import opened Text
  import opened ConfigText
  import opened ClientConfig
  import Client = ClientWire
  import Utf8

  ////////// Cutting a text into lines //////////

  predicate NoEol(s: string) { forall i :: 0 <= i < |s| ==> !IsEol(s[i]) }

  lemma {:induction false} LineEndBefore(x: string, r: string)
    requires NoEol(x) && (r == "" || IsEol(r[0]))
    ensures LineEnd(x + r) == |x|
  {
    if x != "" {
      assert (x + r)[1..] == x[1..] + r;
      LineEndBefore(x[1..], r);
    } else {
      assert x + r == r;
    }
  }

  lemma {:induction false} CrLfSplits(lines: seq<string>)
    requires forall i :: 0 <= i < |lines| ==> NoEol(lines[i])
    ensures SplitLines(CrLf(lines)) == lines
  {
    if lines != [] {
      var x, others := lines[0], CrLf(lines[1..]);
      var r := "\r\n" + others;
      assert CrLf(lines) == x + r;
      LineEndBefore(x, r);
      assert (x + r)[..|x|] == x && (x + r)[|x| + 2..] == others;
      CrLfSplits(lines[1..]);
      assert [lines[0]] + lines[1..] == lines;
    }
  }

  lemma AfterEol(x: string, r: string)
    ensures (x + ("\n" + r))[..|x|] == x && (x + ("\n" + r))[|x| + 1..] == r
  {
  }

  lemma {:induction false} JoinSplits(lines: seq<string>)
    requires lines != [] && lines[|lines| - 1] != ""
    requires forall i :: 0 <= i < |lines| ==> NoEol(lines[i])
    ensures SplitLines(Join(lines, "\n")) == lines
  {
    var x := lines[0];
    if |lines| == 1 {
      LineEndBefore(x, "");
      assert x + "" == x;
    } else {
      var r := "\n" + Join(lines[1..], "\n");
      assert Join(lines, "\n") == x + r;
      LineEndBefore(x, r);
      AfterEol(x, Join(lines[1..], "\n"));
      JoinSplits(lines[1..]);
      assert [lines[0]] + lines[1..] == lines;
    }
  }

  ////////// Lengths //////////

  lemma {:induction false} UnitsAppend(a: string, b: string)
    ensures Client.CodeUnits(a + b) == Client.CodeUnits(a) + Client.CodeUnits(b)
  {
    if a == "" {
      assert a + b == b;
    } else {
      assert (a + b)[1..] == a[1..] + b;
      UnitsAppend(a[1..], b);
    }
  }

  lemma {:induction false} UnitsBound(s: string)
    ensures |s| <= Units(s) <= |Utf8.Encode(s)|
    ensures Utf8.IsAscii(s) ==> Units(s) == |s|
  {
    if s != "" { UnitsBound(s[1..]); }
  }

  /** The length of a list of lines when each is followed by `each` more characters. */
  function TotalUnits(lines: seq<string>, each: nat): nat {
    if lines == [] then 0 else Units(lines[0]) + each + TotalUnits(lines[1..], each)
  }

  lemma {:induction false} CrLfUnits(lines: seq<string>)
    ensures Units(CrLf(lines)) == TotalUnits(lines, 2)
  {
    if lines != [] {
      CrLfUnits(lines[1..]);
      UnitsAppend(lines[0] + "\r\n", CrLf(lines[1..]));
      UnitsAppend(lines[0], "\r\n");
      UnitsBound("\r\n");
    }
  }

  lemma {:induction false} JoinUnits(lines: seq<string>)
    ensures Units(Join(lines, "\n")) <= TotalUnits(lines, 2)
  {
    if |lines| == 1 {
    } else if lines != [] {
      JoinUnits(lines[1..]);
      UnitsAppend(lines[0] + "\n", Join(lines[1..], "\n"));
      UnitsAppend(lines[0], "\n");
      UnitsBound("\n");
    }
  }

  lemma {:induction false} TotalUnitsAppend(a: seq<string>, b: seq<string>, each: nat)
    ensures TotalUnits(a + b, each) == TotalUnits(a, each) + TotalUnits(b, each)
  {
    if a == [] {
      assert a + b == b;
    } else {
      assert (a + b)[1..] == a[1..] + b;
      TotalUnitsAppend(a[1..], b, each);
    }
  }

  lemma {:induction false} TotalUnitsBound(lines: seq<string>, each: nat, bound: nat)
    requires forall i :: 0 <= i < |lines| ==> Units(lines[i]) <= bound
    ensures TotalUnits(lines, each) <= |lines| * (bound + each)
  {
    if lines != [] {
      TotalUnitsBound(lines[1..], each, bound);
      assert |lines| * (bound + each) == (|lines| - 1) * (bound + each) + (bound + each);
    }
  }

  ////////// Key and value of a line //////////

  /** Text without C0 control characters. */
  predicate Printable(s: string) { forall i :: 0 <= i < |s| ==> s[i] as int >= 32 }

  predicate PlainKey(k: string) {
    k != "" && '=' !in k && Trimmed(k) && k[0] != '#' && k[0] != ';' && k[0] != '[' && Printable(k)
  }

  /** What follows the equals sign of a written field, once blanks at the end are gone. */
  function FieldTail(v: string): string { if TrimRight(v) == "" then "" else " " + TrimRight(v) }

  lemma TrimmedLine(k: string, v: string)
    requires PlainKey(k)
    ensures Trim(FieldLine((k, v))) == k + " =" + FieldTail(v)
  {
    hide IsSpace;
    SpaceIsSpace();
    var original, tail := FieldLine((k, v)), FieldTail(v);
    TrimRightSuffix(k + " = ", v);
    assert original == k + " = " + v;
    if TrimRight(v) == "" {
      TrimRightSuffix(k + " =", " ");
      assert k + " =" + " " == k + " = ";
      TrimRightTwice(" ");
      assert TrimRight(" ") == "" by { assert " "[..0] == ""; }
      assert (k + " =")[|k + " ="| - 1] == '=';
      EqualsIsNotSpace();
    } else {
      assert k + " = " + TrimRight(v) == k + " =" + tail;
    }
    assert TrimRight(original) == k + " =" + tail;
    assert (k + " =" + tail)[0] == k[0];
  }

  lemma TailTrims(v: string)
    ensures Trim(FieldTail(v)) == Trim(v)
  {
    hide IsSpace;
    if TrimRight(v) != "" {
      SpaceIsSpace();
      TrimLeading(' ', TrimRight(v));
      TrimRightTwice(v);
      assert [' '] + TrimRight(v) == FieldTail(v);
    }
  }

  /** A written field is read back as its key and its trimmed value, whatever the value. */
  lemma FieldLineParts(k: string, v: string)
    requires PlainKey(k)
    ensures var line := Trim(FieldLine((k, v)));
      line != "" && line[0] == k[0] && |line| > |k| + 1 && IndexOf(line, '=') == |k| + 1
      && Trim(line[..|k| + 1]) == k && Trim(line[|k| + 2..]) == Trim(v)
  {
    hide IsSpace, Trim, IndexOf, FieldTail, FieldLine;
    TrimmedLine(k, v);
    var line, tail := Trim(FieldLine((k, v))), FieldTail(v);
    assert line == (k + " ") + ['='] + tail;
    IndexOfFirst(k + " ", '=', tail);
    assert line[..|k| + 1] == k + " " && line[|k| + 2..] == tail;
    TrimKey(k);
    TailTrims(v);
  }

  lemma SpaceIsSpace()
    ensures IsSpace(' ')
  {
  }

  lemma EqualsIsNotSpace()
    ensures !IsSpace('=')
  {
  }

  lemma TrimKey(k: string)
    requires PlainKey(k)
    ensures Trim(k + " ") == k
  {
    hide IsSpace;
    SpaceIsSpace();
    TrimRightSuffix(k, " ");
    assert TrimRight(" ") == "" by { assert " "[..0] == ""; }
  }

  ////////// Scanning with the AmneziaWG parser //////////

  lemma {:induction false} AwgScanAppend(a: seq<string>, b: seq<string>, st: AwgState)
    ensures AwgScan(a + b, st) ==
      match AwgScan(a, st) case Ok(mid) => AwgScan(b, mid) case Err(e) => Err(e)
  {
    hide AwgStep;
    if a == [] {
      assert a + b == b;
    } else {
      assert (a + b)[1..] == a[1..] + b;
      if AwgStep(st, a[0]).Ok? { AwgScanAppend(a[1..], b, AwgStep(st, a[0]).value); }
    }
  }

  lemma AwgScanOne(line: string, st: AwgState)
    ensures AwgScan([line], st) == AwgStep(st, line)
  {
    hide AwgStep;
    assert [line][1..] == [];
    if AwgStep(st, line).Ok? { assert AwgScan([], AwgStep(st, line).value) == Ok(AwgStep(st, line).value); }
  }

  /** Field keys, in the order they are written. */
  function Keys(fs: seq<Field>): seq<string> { seq(|fs|, i requires 0 <= i < |fs| => fs[i].0) }

  lemma BracketLines()
    ensures Trim("[Interface]") == "[Interface]" && Trim("[Peer]") == "[Peer]" && Trim("") == ""
    ensures '=' !in "[Interface]" && '=' !in "[Peer]"
    ensures "[Interface]" != "[Peer]" && "[Interface]" != "" && "[Peer]" != ""
  {
    TrimIdentity("[Interface]");
    TrimIdentity("[Peer]");
    assert "[Interface]"[1] != "[Peer]"[1];
  }

  lemma FieldLineIsNoHeader(k: string, v: string)
    requires PlainKey(k)
    ensures var line := Trim(FieldLine((k, v))); line != "[Interface]" && line != "[Peer]"
  {
    FieldLineParts(k, v);
    assert "[Interface]"[0] == '[' && "[Peer]"[0] == '[';
  }

  /** Lines of other keys are kept for the WireGuard parser. */
  lemma {:induction false} KeptFields(fs: seq<Field>, st: AwgState)
    requires forall i :: 0 <= i < |fs| ==> PlainKey(fs[i].0) && fs[i].0 !in AWG_KEYS
    ensures AwgScan(FieldLines(fs), st) == Ok(st.(kept := st.kept + FieldLines(fs)))
  {
    hide PlainKey, Trim, FieldLine;
    if fs == [] {
      assert st.kept + [] == st.kept;
    } else {
      var (k, v) := fs[0];
      FieldLineParts(k, v);
      FieldLineIsNoHeader(k, v);
      var next := st.(kept := st.kept + [FieldLine(fs[0])]);
      assert AwgStep(st, FieldLine(fs[0])) == Ok(next);
      KeptFields(fs[1..], next);
      assert FieldLines(fs)[1..] == FieldLines(fs[1..]);
      assert next.kept + FieldLines(fs[1..]) == st.kept + FieldLines(fs);
    }
  }

  lemma KeptPlain(line: string, st: AwgState)
    requires Trim(line) == line && '=' !in line
    ensures AwgStep(st, line) == Ok(AwgState(st.values, st.kept + [line],
      if line == "[Peer]" then false else line == "[Interface]" || st.inInterface))
  {
    hide Trim, AcceptedValue, AWG_KEYS;
  }

  lemma KeptHeaders(st: AwgState)
    ensures AwgStep(st, "[Interface]") == Ok(st.(kept := st.kept + ["[Interface]"], inInterface := true))
    ensures AwgStep(st, "[Peer]") == Ok(st.(kept := st.kept + ["[Peer]"], inInterface := false))
    ensures AwgStep(st, "") == Ok(st.(kept := st.kept + [""]))
  {
    hide Trim, AwgStep;
    BracketLines();
    KeptPlain("[Interface]", st);
    KeptPlain("[Peer]", st);
    KeptPlain("", st);
  }

  function PutFields(m: map<string, string>, fs: seq<Field>): map<string, string>
    decreases fs
  {
    if fs == [] then m else PutFields(m[fs[0].0 := Trim(fs[0].1)], fs[1..])
  }

  predicate AllAccepted(fs: seq<Field>) { forall i :: 0 <= i < |fs| ==> AcceptedValue(Trim(fs[i].1)) }

  lemma FieldStep(k: string, v: string, st: AwgState)
    requires st.inInterface && PlainKey(k) && k in AWG_KEYS && k !in st.values
    ensures AwgStep(st, FieldLine((k, v))) ==
      if AcceptedValue(Trim(v)) then Ok(st.(values := st.values[k := Trim(v)])) else Err(InvalidProfile)
  {
    hide PlainKey, Trim, FieldLine, AcceptedValue, AWG_KEYS;
    FieldLineParts(k, v);
    FieldLineIsNoHeader(k, v);
  }

  /** The AmneziaWG fields end up in the map with their trimmed values, or one of them is refused. */
  lemma {:induction false} ScanFields(fs: seq<Field>, st: AwgState)
    requires st.inInterface
    requires forall i :: 0 <= i < |fs| ==> PlainKey(fs[i].0) && fs[i].0 in AWG_KEYS && fs[i].0 !in st.values
    requires Distinct(Keys(fs))
    ensures AwgScan(FieldLines(fs), st)
      == if AllAccepted(fs) then Ok(st.(values := PutFields(st.values, fs))) else Err(InvalidProfile)
  {
    hide PlainKey, Trim, FieldLine, AcceptedValue, AwgStep, AWG_KEYS;
    if fs != [] {
      var (k, v) := fs[0];
      FieldStep(k, v, st);
      assert FieldLines(fs)[1..] == FieldLines(fs[1..]);
      if AcceptedValue(Trim(v)) {
        var next := st.(values := st.values[k := Trim(v)]);
        assert AwgStep(st, FieldLine(fs[0])) == Ok(next);
        forall i | 0 <= i < |fs[1..]| ensures fs[1..][i].0 !in next.values {
          assert Keys(fs)[0] == k && Keys(fs)[i + 1] == fs[1..][i].0;
        }
        assert Keys(fs[1..]) == Keys(fs)[1..];
        ScanFields(fs[1..], next);
        if AllAccepted(fs[1..]) {
          forall i | 0 <= i < |fs| ensures AcceptedValue(Trim(fs[i].1)) {
            if i > 0 { assert fs[i] == fs[1..][i - 1]; }
          }
        } else {
          var i :| 0 <= i < |fs[1..]| && !AcceptedValue(Trim(fs[1..][i].1));
          assert fs[1..][i] == fs[i + 1];
        }
      } else {
        assert AwgStep(st, FieldLine(fs[0])) == Err(InvalidProfile);
      }
    }
  }

  lemma {:induction false} PutFieldsKeeps(m: map<string, string>, fs: seq<Field>, k: string)
    requires k !in Keys(fs)
    ensures k in PutFields(m, fs) <==> k in m
    ensures k in m ==> PutFields(m, fs)[k] == m[k]
    decreases fs
  {
    hide Trim;
    if fs != [] {
      assert Keys(fs)[0] == fs[0].0;
      assert Keys(fs[1..]) == Keys(fs)[1..];
      PutFieldsKeeps(m[fs[0].0 := Trim(fs[0].1)], fs[1..], k);
    }
  }

  lemma {:induction false} PutFieldsAt(m: map<string, string>, fs: seq<Field>, i: nat)
    requires i < |fs| && Distinct(Keys(fs))
    ensures fs[i].0 in PutFields(m, fs) && PutFields(m, fs)[fs[i].0] == Trim(fs[i].1)
    decreases fs
  {
    hide Trim;
    var next := m[fs[0].0 := Trim(fs[0].1)];
    assert Keys(fs[1..]) == Keys(fs)[1..];
    if i == 0 {
      assert Keys(fs)[0] == fs[0].0;
      PutFieldsKeeps(next, fs[1..], fs[0].0);
    } else {
      PutFieldsAt(next, fs[1..], i - 1);
    }
  }

  ////////// Scanning with the WireGuard parser //////////

  lemma {:induction false} WgScanAppend(a: seq<string>, b: seq<string>, st: WgState)
    ensures WgScan(a + b, st) ==
      match WgScan(a, st) case Ok(mid) => WgScan(b, mid) case Err(e) => Err(e)
  {
    hide WgStep;
    if a == [] {
      assert a + b == b;
    } else {
      assert (a + b)[1..] == a[1..] + b;
      if WgStep(st, a[0]).Ok? { WgScanAppend(a[1..], b, WgStep(st, a[0]).value); }
    }
  }

  lemma WgScanOne(line: string, st: WgState)
    ensures WgScan([line], st) == WgStep(st, line)
  {
    hide WgStep;
    assert [line][1..] == [];
    if WgStep(st, line).Ok? { assert WgScan([], WgStep(st, line).value) == Ok(WgStep(st, line).value); }
  }

  lemma WgHeaders(st: WgState)
    ensures WgStep(st, "[Interface]")
      == Ok(st.(interfaceCount := st.interfaceCount + 1, current := Some(InterfaceSection)))
    ensures WgStep(st, "[Peer]") == Ok(st.(peerCount := st.peerCount + 1, current := Some(PeerSection)))
    ensures WgStep(st, "") == Ok(st)
  {
    BracketLines();
  }

  function PutLists(m: Fields, fs: seq<Field>): Fields
    decreases fs
  {
    if fs == [] then m else PutLists(AddTo(m, fs[0].0, Trim(fs[0].1)), fs[1..])
  }

  predicate Written(fs: seq<Field>) {
    forall i :: 0 <= i < |fs| ==> PlainKey(fs[i].0) && Trim(fs[i].1) != ""
  }

  lemma {:induction false} ScanInterface(fs: seq<Field>, st: WgState)
    requires st.current == Some(InterfaceSection) && Written(fs)
    requires forall i :: 0 <= i < |fs| ==> fs[i].0 in INTERFACE_KEYS
    ensures WgScan(FieldLines(fs), st) == Ok(st.(interface := PutLists(st.interface, fs)))
  {
    hide PlainKey, Trim, FieldLine, AddTo;
    if fs != [] {
      var (k, v) := fs[0];
      FieldLineParts(k, v);
      FieldLineIsNoHeader(k, v);
      KeyStart(k);
      var next := st.(interface := AddTo(st.interface, k, Trim(v)));
      assert WgStep(st, FieldLine(fs[0])) == Ok(next);
      ScanInterface(fs[1..], next);
      assert FieldLines(fs)[1..] == FieldLines(fs[1..]);
    }
  }

  lemma {:induction false} ScanPeer(fs: seq<Field>, st: WgState)
    requires st.current == Some(PeerSection) && Written(fs)
    requires forall i :: 0 <= i < |fs| ==> fs[i].0 in PEER_KEYS
    ensures WgScan(FieldLines(fs), st) == Ok(st.(peer := PutLists(st.peer, fs)))
  {
    hide PlainKey, Trim, FieldLine, AddTo;
    if fs != [] {
      var (k, v) := fs[0];
      FieldLineParts(k, v);
      FieldLineIsNoHeader(k, v);
      KeyStart(k);
      var next := st.(peer := AddTo(st.peer, k, Trim(v)));
      assert WgStep(st, FieldLine(fs[0])) == Ok(next);
      ScanPeer(fs[1..], next);
      assert FieldLines(fs)[1..] == FieldLines(fs[1..]);
    }
  }

  lemma KeyStart(k: string)
    requires PlainKey(k)
    ensures k != "" && k[0] != '#' && k[0] != ';'
  {
  }

  lemma {:induction false} PutListsKeeps(m: Fields, fs: seq<Field>, k: string)
    requires k !in Keys(fs)
    ensures k in PutLists(m, fs) <==> k in m
    ensures k in m ==> PutLists(m, fs)[k] == m[k]
    decreases fs
  {
    hide Trim;
    if fs != [] {
      assert Keys(fs)[0] == fs[0].0;
      assert Keys(fs[1..]) == Keys(fs)[1..];
      PutListsKeeps(AddTo(m, fs[0].0, Trim(fs[0].1)), fs[1..], k);
    }
  }

  lemma {:induction false} PutListsAt(m: Fields, fs: seq<Field>, i: nat)
    requires i < |fs| && Distinct(Keys(fs)) && fs[i].0 !in m
    ensures fs[i].0 in PutLists(m, fs) && PutLists(m, fs)[fs[i].0] == [Trim(fs[i].1)]
    decreases fs
  {
    hide Trim;
    var next := AddTo(m, fs[0].0, Trim(fs[0].1));
    assert Keys(fs[1..]) == Keys(fs)[1..];
    assert Keys(fs)[0] == fs[0].0 && Keys(fs)[i] == fs[i].0;
    if i == 0 {
      PutListsKeeps(next, fs[1..], fs[0].0);
    } else {
      PutListsAt(next, fs[1..], i - 1);
    }
  }
}
