/** UTF-8 (RFC 3629): how a Rust `String` lies in memory and on the wire. */
module Utf8 {
  import opened Basics

  function EncodeChar(c: char): (bs: Bytes)
    ensures 1 <= |bs| <= 4
  {
    var n := c as int;
    if n < 0x80 then [n]
    else if n < 0x800 then [0xC0 + n / 64, 0x80 + n % 64]
    else if n < 0x1_0000 then [0xE0 + n / 4096, 0x80 + n / 64 % 64, 0x80 + n % 64]
    else [0xF0 + n / 262144, 0x80 + n / 4096 % 64, 0x80 + n / 64 % 64, 0x80 + n % 64]
  }

  function Encode(s: string): Bytes {
    if s == "" then [] else EncodeChar(s[0]) + Encode(s[1..])
  }

  predicate Continues(b: Byte) { 0x80 <= b < 0xC0 }

  /** What a byte carries besides its marker bits. */
  function Bits(b: Byte, marker: int): int { b - marker }

  /** Decodes the first scalar value, refusing overlong forms and surrogates. */
  function DecodeFirst(bs: Bytes): (r: Option<(char, nat)>)
    ensures r.Some? ==> 1 <= r.value.1 <= |bs|
  {
    if bs == [] then None
    else if bs[0] < 0x80 then Some((bs[0] as char, 1))
    else if 0xC2 <= bs[0] < 0xE0 && |bs| >= 2 && Continues(bs[1]) then
      var n: int := Bits(bs[0], 0xC0) * 64 + Bits(bs[1], 0x80);
      Some((n as char, 2))
    else if 0xE0 <= bs[0] < 0xF0 && |bs| >= 3 && Continues(bs[1]) && Continues(bs[2]) then
      var n: int := Bits(bs[0], 0xE0) * 4096 + Bits(bs[1], 0x80) * 64 + Bits(bs[2], 0x80);
      if n < 0x800 || 0xD800 <= n < 0xE000 then None else Some((n as char, 3))
    else if 0xF0 <= bs[0] < 0xF5 && |bs| >= 4 && Continues(bs[1]) && Continues(bs[2]) && Continues(bs[3]) then
      var n: int := Bits(bs[0], 0xF0) * 262144 + Bits(bs[1], 0x80) * 4096 + Bits(bs[2], 0x80) * 64 + Bits(bs[3], 0x80);
      if n < 0x1_0000 || n > 0x10_FFFF then None else Some((n as char, 4))
    else None
  }

  function Decode(bs: Bytes): Option<string> {
    if bs == [] then Some("")
    else
      match DecodeFirst(bs)
      case None => None
      case Some((c, k)) =>
        match Decode(bs[k..])
        case None => None
        case Some(s) => Some([c] + s)
  }

  lemma DecodeFirstOfEncoded(c: char, rest: Bytes)
    ensures DecodeFirst(EncodeChar(c) + rest) == Some((c, |EncodeChar(c)|))
  {
    var n, bs := c as int, EncodeChar(c) + rest;
    assert forall i :: 0 <= i < |EncodeChar(c)| ==> bs[i] == EncodeChar(c)[i];
    SixBitGroups(n);
  }

  /** A number is put together again from its six-bit groups. */
  lemma SixBitGroups(n: nat)
    ensures n == n / 64 * 64 + n % 64
    ensures n / 64 == n / 4096 * 64 + n / 64 % 64
    ensures n / 4096 == n / 262144 * 64 + n / 4096 % 64
  {
    assert n / 64 / 64 == n / 4096;
    assert n / 4096 / 64 == n / 262144;
  }

  /** Six-bit groups are what division and remainder give back. */
  lemma GroupsOf(a: nat, b: nat)
    requires b < 64
    ensures (a * 64 + b) / 64 == a && (a * 64 + b) % 64 == b
  {
  }

  lemma TwoBytes(a: nat, b: nat)
    requires 2 <= a < 32 && b < 64
    ensures var n := a * 64 + b; 0x80 <= n < 0x800 && [0xC0 + n / 64, 0x80 + n % 64] == [0xC0 + a, 0x80 + b]
  {
    GroupsOf(a, b);
  }

  lemma ThreeBytes(a: nat, b: nat, c: nat)
    requires a < 16 && b < 64 && c < 64
    ensures var n := a * 4096 + b * 64 + c;
      [0xE0 + n / 4096, 0x80 + n / 64 % 64, 0x80 + n % 64] == [0xE0 + a, 0x80 + b, 0x80 + c]
  {
    var n := a * 4096 + b * 64 + c;
    assert n == (a * 64 + b) * 64 + c;
    GroupsOf(a * 64 + b, c);
    GroupsOf(a, b);
    assert n / 64 / 64 == n / 4096;
  }

  lemma FourBytes(a: nat, b: nat, c: nat, d: nat)
    requires a < 8 && b < 64 && c < 64 && d < 64
    ensures var n := a * 262144 + b * 4096 + c * 64 + d;
      [0xF0 + n / 262144, 0x80 + n / 4096 % 64, 0x80 + n / 64 % 64, 0x80 + n % 64]
        == [0xF0 + a, 0x80 + b, 0x80 + c, 0x80 + d]
  {
    var high := a * 4096 + b * 64 + c;
    var n := a * 262144 + b * 4096 + c * 64 + d;
    assert n == high * 64 + d;
    GroupsOf(high, d);
    assert high == (a * 64 + b) * 64 + c;
    GroupsOf(a * 64 + b, c);
    GroupsOf(a, b);
    assert n / 64 / 64 == n / 4096 && n / 4096 / 64 == n / 262144;
  }

  lemma EncodeOfDecodedFirst(bs: Bytes)
    requires DecodeFirst(bs).Some?
    ensures EncodeChar(DecodeFirst(bs).value.0) == bs[..DecodeFirst(bs).value.1]
  {
    var (c, k) := DecodeFirst(bs).value;
    if k == 2 {
      TwoBytes(Bits(bs[0], 0xC0), Bits(bs[1], 0x80));
    } else if k == 3 {
      ThreeBytes(Bits(bs[0], 0xE0), Bits(bs[1], 0x80), Bits(bs[2], 0x80));
    } else if k == 4 {
      FourBytes(Bits(bs[0], 0xF0), Bits(bs[1], 0x80), Bits(bs[2], 0x80), Bits(bs[3], 0x80));
    }
  }

  lemma {:induction false} DecodeEncode(s: string)
    ensures Decode(Encode(s)) == Some(s)
  {
    if s != "" {
      var head, tail := EncodeChar(s[0]), Encode(s[1..]);
      DecodeFirstOfEncoded(s[0], tail);
      assert (head + tail)[|head|..] == tail;
      DecodeEncode(s[1..]);
      assert [s[0]] + s[1..] == s;
    }
  }

  lemma {:induction false} EncodeDecode(bs: Bytes)
    requires Decode(bs).Some?
    ensures Encode(Decode(bs).value) == bs
  {
    hide DecodeFirst, EncodeChar;
    if bs != [] {
      var (c, k) := DecodeFirst(bs).value;
      EncodeOfDecodedFirst(bs);
      EncodeDecode(bs[k..]);
      var s := Decode(bs).value;
      assert s[0] == c && s[1..] == Decode(bs[k..]).value;
      assert bs[..k] + bs[k..] == bs;
    }
  }

  predicate IsAscii(s: string) { forall i :: 0 <= i < |s| ==> s[i] as int < 0x80 }

  /** One byte per character: the form every identifier, address and host takes. */
  function AsciiBytes(s: string): Bytes
    requires IsAscii(s)
  {
    seq(|s|, i requires 0 <= i < |s| => s[i] as int)
  }

  lemma {:induction false} EncodeAscii(s: string)
    requires IsAscii(s)
    ensures Encode(s) == AsciiBytes(s)
  {
    if s != "" {
      EncodeAscii(s[1..]);
      assert EncodeChar(s[0]) == [s[0] as int];
      assert AsciiBytes(s) == [s[0] as int] + AsciiBytes(s[1..]);
    } else {
      assert AsciiBytes(s) == [];
    }
  }

  lemma {:induction false} EncodeLength(s: string)
    ensures |s| <= |Encode(s)| <= 4 * |s|
    ensures s == "" <==> Encode(s) == []
  {
    if s != "" { EncodeLength(s[1..]); }
  }
}
