/** The standard Base64 alphabet with padding (section 4 of RFC 4648). */
module Base64 {
  import opened Basics

  function Symbol(i: nat): (c: char)
    requires i < 64
  {
    if i < 26 then (65 + i) as char
    else if i < 52 then (71 + i) as char
    else if i < 62 then (i - 4) as char
    else if i == 62 then '+' else '/'
  }

  /** Dart's decoder also reads the URL-safe symbols. */
  function SymbolValue(c: char): (r: Option<nat>)
    ensures r.Some? ==> r.value < 64
  {
    if 'A' <= c <= 'Z' then Some(c as int - 65)
    else if 'a' <= c <= 'z' then Some(c as int - 71)
    else if '0' <= c <= '9' then Some(c as int + 4)
    else if c == '+' || c == '-' then Some(62)
    else if c == '/' || c == '_' then Some(63)
    else None
  }

  function Encode(bs: Bytes): string {
    if bs == [] then ""
    else if |bs| == 1 then [Symbol(bs[0] / 4), Symbol(bs[0] % 4 * 16), '=', '=']
    else if |bs| == 2 then
      [Symbol(bs[0] / 4), Symbol(bs[0] % 4 * 16 + bs[1] / 16), Symbol(bs[1] % 16 * 4), '=']
    else
      [Symbol(bs[0] / 4), Symbol(bs[0] % 4 * 16 + bs[1] / 16), Symbol(bs[1] % 16 * 4 + bs[2] / 64), Symbol(bs[2] % 64)]
      + Encode(bs[3..])
  }

  /** Refuses wrong lengths, foreign characters, misplaced padding and non-zero bits before padding. */
  function Decode(s: string): Option<Bytes> {
    if s == "" then Some([])
    else if |s| < 4 then None
    else
      match (SymbolValue(s[0]), SymbolValue(s[1]))
      case (Some(a), Some(b)) =>
        if s[2] == '=' then
          if |s| == 4 && s[3] == '=' && b % 16 == 0 then Some([a * 4 + b / 16]) else None
        else (
          match SymbolValue(s[2])
          case None => None
          case Some(c) =>
            if s[3] == '=' then
              if |s| == 4 && c % 4 == 0 then Some([a * 4 + b / 16, b % 16 * 16 + c / 4]) else None
            else
              match (SymbolValue(s[3]), Decode(s[4..]))
              case (Some(d), Some(rest)) => Some([a * 4 + b / 16, b % 16 * 16 + c / 4, c % 4 * 64 + d] + rest)
              case _ => None
        )
      case _ => None
  }

  lemma SymbolRoundTrip(i: nat)
    requires i < 64
    ensures SymbolValue(Symbol(i)) == Some(i) && Symbol(i) != '='
  {
  }

  /** Three bytes are regained from their four six-bit groups. */
  lemma Regroup(x: Byte, y: Byte, z: Byte)
    ensures var a, b, c, d := x / 4, x % 4 * 16 + y / 16, y % 16 * 4 + z / 64, z % 64;
            a < 64 && b < 64 && c < 64 && d < 64
            && a * 4 + b / 16 == x && b % 16 * 16 + c / 4 == y && c % 4 * 64 + d == z
  {
  }

  lemma DecodeBlock(a: nat, b: nat, c: nat, d: nat, rest: string)
    requires a < 64 && b < 64 && c < 64 && d < 64
    requires Decode(rest).Some?
    ensures Decode([Symbol(a), Symbol(b), Symbol(c), Symbol(d)] + rest)
         == Some([a * 4 + b / 16, b % 16 * 16 + c / 4, c % 4 * 64 + d] + Decode(rest).value)
  {
    var s := [Symbol(a), Symbol(b), Symbol(c), Symbol(d)] + rest;
    SymbolRoundTrip(a);
    SymbolRoundTrip(b);
    SymbolRoundTrip(c);
    SymbolRoundTrip(d);
    assert s[4..] == rest;
  }

  lemma DecodeTail(a: nat, b: nat, c: nat)
    requires a < 64 && b < 64 && c < 64 && c % 4 == 0
    ensures Decode([Symbol(a), Symbol(b), Symbol(c), '=']) == Some([a * 4 + b / 16, b % 16 * 16 + c / 4])
  {
    SymbolRoundTrip(a);
    SymbolRoundTrip(b);
    SymbolRoundTrip(c);
  }

  lemma RoundTripTwo(x: Byte, y: Byte)
    ensures Decode(Encode([x, y])) == Some([x, y])
  {
    var a, b, c := x / 4, x % 4 * 16 + y / 16, y % 16 * 4;
    assert Encode([x, y]) == [Symbol(a), Symbol(b), Symbol(c), '='];
    DecodeTail(a, b, c);
    Regroup(x, y, 0);
    assert b % 16 * 16 + c / 4 == y;
  }

  lemma RoundTripOne(x: Byte)
    ensures Decode(Encode([x])) == Some([x])
  {
    SymbolRoundTrip(x / 4);
    SymbolRoundTrip(x % 4 * 16);
    Regroup(x, 0, 0);
  }

  lemma {:induction false} RoundTrip(bs: Bytes)
    ensures Decode(Encode(bs)) == Some(bs)
  {
    if |bs| == 1 {
      assert bs == [bs[0]];
      RoundTripOne(bs[0]);
    } else if |bs| == 2 {
      assert bs == [bs[0], bs[1]];
      RoundTripTwo(bs[0], bs[1]);
    } else if |bs| >= 3 {
      RoundTrip(bs[3..]);
      assert bs == [bs[0], bs[1], bs[2]] + bs[3..];
      RoundTripBlock(bs[0], bs[1], bs[2], bs[3..]);
    }
  }

  lemma EncodeBlock(x: Byte, y: Byte, z: Byte, rest: Bytes)
    ensures Encode([x, y, z] + rest)
         == [Symbol(x / 4), Symbol(x % 4 * 16 + y / 16), Symbol(y % 16 * 4 + z / 64), Symbol(z % 64)] + Encode(rest)
  {
    assert ([x, y, z] + rest)[3..] == rest;
  }

  lemma RoundTripBlock(x: Byte, y: Byte, z: Byte, rest: Bytes)
    requires Decode(Encode(rest)) == Some(rest)
    ensures Decode(Encode([x, y, z] + rest)) == Some([x, y, z] + rest)
  {
    hide Encode, Decode, Symbol;
    EncodeBlock(x, y, z, rest);
    Regroup(x, y, z);
    DecodeBlock(x / 4, x % 4 * 16 + y / 16, y % 16 * 4 + z / 64, z % 64, Encode(rest));
  }

  predicate IsSymbol(c: char) { SymbolValue(c).Some? || c == '=' }

  lemma SymbolIsSymbol(i: nat)
    requires i < 64
    ensures IsSymbol(Symbol(i))
  {
    SymbolRoundTrip(i);
  }

  lemma PaddingIsSymbol()
    ensures IsSymbol('=')
  {
  }

  lemma {:induction false} EncodedShape(bs: Bytes)
    ensures |Encode(bs)| == (|bs| + 2) / 3 * 4
    ensures forall i :: 0 <= i < |Encode(bs)| ==> IsSymbol(Encode(bs)[i])
  {
    hide Symbol, IsSymbol;
    PaddingIsSymbol();
    if |bs| >= 3 {
      EncodedShape(bs[3..]);
      SymbolIsSymbol(bs[0] / 4);
      SymbolIsSymbol(bs[0] % 4 * 16 + bs[1] / 16);
      SymbolIsSymbol(bs[1] % 16 * 4 + bs[2] / 64);
      SymbolIsSymbol(bs[2] % 64);
    } else if |bs| == 2 {
      SymbolIsSymbol(bs[0] / 4);
      SymbolIsSymbol(bs[0] % 4 * 16 + bs[1] / 16);
      SymbolIsSymbol(bs[1] % 16 * 4);
    } else if |bs| == 1 {
      SymbolIsSymbol(bs[0] / 4);
      SymbolIsSymbol(bs[0] % 4 * 16);
    }
  }

  /** The standard symbol for one of the other alphabet. */
  function StandardSymbol(c: char): char { if c == '-' then '+' else if c == '_' then '/' else c }

  function Standard(s: string): (t: string)
    ensures |t| == |s|
  {
    seq(|s|, i requires 0 <= i < |s| => StandardSymbol(s[i]))
  }

  lemma ValueOfSymbol(c: char, n: nat)
    ensures n < 64 ==> (SymbolValue(c) == Some(n) <==> StandardSymbol(c) == Symbol(n))
    ensures StandardSymbol(c) == '=' <==> c == '='
  {
  }

  lemma StandardRest(s: string, k: nat)
    requires k <= |s|
    ensures Standard(s)[k..] == Standard(s[k..])
  {
  }

  lemma {:induction false} DecodedIsEncoding(s: string, bs: Bytes)
    requires Decode(s) == Some(bs)
    ensures Standard(s) == Encode(bs)
    decreases |s|
  {
    hide Symbol, SymbolValue, StandardSymbol;
    if s != "" {
      var a, b := SymbolValue(s[0]).value, SymbolValue(s[1]).value;
      ValueOfSymbol(s[0], a);
      ValueOfSymbol(s[1], b);
      if s[2] == '=' {
        PairOf(a, b);
        assert bs == [a * 4 + b / 16];
        PaddingStays();
      } else {
        var c := SymbolValue(s[2]).value;
        ValueOfSymbol(s[2], c);
        if s[3] == '=' {
          TripleOf(a, b, c);
          assert bs == [a * 4 + b / 16, b % 16 * 16 + c / 4];
          PaddingStays();
        } else {
          var d, rest := SymbolValue(s[3]).value, Decode(s[4..]).value;
          ValueOfSymbol(s[3], d);
          DecodedIsEncoding(s[4..], rest);
          BlockOf(a, b, c, d);
          EncodeBlock(a * 4 + b / 16, b % 16 * 16 + c / 4, c % 4 * 64 + d, rest);
          StandardRest(s, 4);
          assert Standard(s) == Standard(s)[..4] + Standard(s)[4..];
        }
      }
    }
  }

  lemma PaddingStays()
    ensures StandardSymbol('=') == '='
  {
  }

  lemma PairOf(a: nat, b: nat)
    requires a < 64 && b < 64 && b % 16 == 0
    ensures var x := a * 4 + b / 16; x < 256 && x / 4 == a && x % 4 * 16 == b
  {
  }

  lemma TripleOf(a: nat, b: nat, c: nat)
    requires a < 64 && b < 64 && c < 64 && c % 4 == 0
    ensures var x, y := a * 4 + b / 16, b % 16 * 16 + c / 4;
      x < 256 && y < 256 && x / 4 == a && x % 4 * 16 + y / 16 == b && y % 16 * 4 == c
  {
  }

  lemma BlockOf(a: nat, b: nat, c: nat, d: nat)
    requires a < 64 && b < 64 && c < 64 && d < 64
    ensures var x, y, z := a * 4 + b / 16, b % 16 * 16 + c / 4, c % 4 * 64 + d;
      x < 256 && y < 256 && z < 256
      && x / 4 == a && x % 4 * 16 + y / 16 == b && y % 16 * 4 + z / 64 == c && z % 64 == d
  {
  }

  /** Decoding looks at the standard symbols only. */
  lemma {:induction false} DecodesAsStandard(s: string)
    ensures Decode(s) == Decode(Standard(s))
    decreases |s|
  {
    hide SymbolValue, StandardSymbol;
    if |s| >= 4 {
      SameValue(s[0]);
      SameValue(s[1]);
      SameValue(s[2]);
      SameValue(s[3]);
      DecodesAsStandard(s[4..]);
      StandardRest(s, 4);
    }
  }

  lemma SameValue(c: char)
    ensures SymbolValue(StandardSymbol(c)) == SymbolValue(c) && (StandardSymbol(c) == '=' <==> c == '=')
  {
  }

  /** A text decodes exactly to the bytes of which it is the encoding, in the standard or the URL-safe alphabet. */
  lemma DecodeExactly(s: string, bs: Bytes)
    ensures Decode(s) == Some(bs) <==> Standard(s) == Encode(bs)
  {
    hide Decode, Encode;
    if Decode(s) == Some(bs) { DecodedIsEncoding(s, bs); }
    if Standard(s) == Encode(bs) {
      DecodesAsStandard(s);
      RoundTrip(bs);
    }
  }
}
