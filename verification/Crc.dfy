/** The bitwise CRC-32 of the diagnostics archive, and the changes it cannot miss. */
module Crc {
  import opened Basics

  const POLYNOMIAL: bv32 := 0xedb88320
  const ONES: bv32 := 0xffffffff

  function Word(b: Byte): bv32 { b as bv32 }

  function Xor(a: bv32, b: bv32): bv32 { a ^ b }

  function Half(w: bv32): bv32 { w >> 1 }

  predicate Low(w: bv32) { w & 1 == 1 }

  /** One turn of the inner loop. */
  function Shift(crc: bv32): bv32 { if Low(crc) then Xor(Half(crc), POLYNOMIAL) else Half(crc) }

  function ShiftTimes(crc: bv32, n: nat): bv32
    decreases n
  {
    if n == 0 then crc else ShiftTimes(Shift(crc), n - 1)
  }

  /** The register after some more bytes. */
  function Register(crc: bv32, data: Bytes): bv32
    decreases data
  {
    if data == [] then crc else Register(ShiftTimes(Xor(crc, Word(data[0])), 8), data[1..])
  }

  function Crc32(data: Bytes): bv32 { Xor(Register(ONES, data), ONES) }

  method ComputeCrc32(data: Bytes) returns (r: U32)
    ensures r == Crc32(data) as int
  {
    hide Word, Xor, Half, Low;
    var crc := ONES;
    for i := 0 to |data|
      invariant Register(ONES, data) == Register(crc, data[i..])
    {
      assert data[i..][1..] == data[i + 1..];
      crc := Xor(crc, Word(data[i]));
      ghost var mixed := crc;
      for bit := 0 to 8
        invariant ShiftTimes(mixed, 8) == ShiftTimes(crc, 8 - bit)
      {
        crc := if Low(crc) then Xor(Half(crc), POLYNOMIAL) else Half(crc);
      }
    }
    r := Xor(crc, ONES) as int;
  }

  ////////// The same, one bit at a time //////////

  /** The division by the polynomial as it is usually drawn: every message bit enters the register by itself. */
  function BitRegister(crc: bv32, bits: seq<bool>): bv32
    decreases bits
  {
    if bits == [] then crc else BitRegister(Shift(Xor(crc, BitWord(bits[0]))), bits[1..])
  }

  function BitWord(bit: bool): bv32 { if bit then 1 else 0 }

  function LowBits(w: bv32, n: nat): (bits: seq<bool>)
    ensures |bits| == n
    decreases n
  {
    if n == 0 then [] else [Low(w)] + LowBits(Half(w), n - 1)
  }

  function HighPart(w: bv32, n: nat): bv32
    decreases n
  {
    if n == 0 then w else HighPart(Half(w), n - 1)
  }

  /** The bits of a message, the lowest of each byte first. */
  function MessageBits(data: Bytes): seq<bool> {
    if data == [] then [] else LowBits(Word(data[0]), 8) + MessageBits(data[1..])
  }

  lemma HalfOfXor(x: bv32, y: bv32)
    ensures Half(Xor(x, y)) == Xor(Half(x), Half(y))
  {
  }

  lemma LowOfXor(x: bv32, y: bv32)
    ensures Low(Xor(x, y)) == (Low(x) != Low(y))
  {
  }

  lemma XorHalf(x: bv32, y: bv32)
    ensures Half(Xor(x, y)) == Xor(Half(x), Half(y)) && Low(Xor(x, y)) == (Low(x) != Low(y))
  {
    hide Xor, Half, Low;
    HalfOfXor(x, y);
    LowOfXor(x, y);
  }

  lemma XorAssoc(a: bv32, b: bv32, c: bv32)
    ensures Xor(Xor(a, b), c) == Xor(a, Xor(b, c))
  {
  }

  lemma XorCommutes(a: bv32, b: bv32)
    ensures Xor(a, b) == Xor(b, a)
  {
  }

  lemma XorUnits(a: bv32)
    ensures Xor(a, a) == 0 && Xor(a, 0) == a
  {
  }

  lemma PairsOfXors(a: bv32, b: bv32, c: bv32, d: bv32)
    ensures Xor(Xor(a, b), Xor(c, d)) == Xor(Xor(a, c), Xor(b, d))
  {
    hide Xor;
    XorAssoc(a, b, Xor(c, d));
    XorAssoc(b, c, d);
    XorCommutes(b, c);
    XorAssoc(c, b, d);
    XorAssoc(a, c, Xor(b, d));
  }

  lemma XorLaws(a: bv32, b: bv32, c: bv32)
    ensures Xor(Xor(a, b), c) == Xor(a, Xor(b, c)) && Xor(a, b) == Xor(b, a)
    ensures Xor(a, a) == 0 && Xor(a, 0) == a && Xor(Xor(a, c), Xor(b, c)) == Xor(a, b)
  {
    hide Xor;
    XorAssoc(a, b, c);
    XorCommutes(a, b);
    XorUnits(a);
    XorUnits(c);
    XorUnits(Xor(a, b));
    PairsOfXors(a, c, b, c);
  }

  lemma ShiftLinear(x: bv32, y: bv32)
    ensures Shift(Xor(x, y)) == Xor(Shift(x), Shift(y))
  {
    hide Xor, Half, Low;
    XorHalf(x, y);
    XorLaws(Half(x), Half(y), POLYNOMIAL);
    XorLaws(Half(x), POLYNOMIAL, Half(y));
    XorLaws(Half(y), POLYNOMIAL, Half(x));
  }

  lemma BitHalves(bit: bool)
    ensures Half(BitWord(bit)) == 0 && Low(BitWord(bit)) == bit
  {
  }

  lemma LowBitEnters(c: bv32, w: bv32)
    ensures Shift(Xor(c, w)) == Xor(Shift(Xor(c, BitWord(Low(w)))), Half(w))
  {
    hide Xor, Half, Low, BitWord;
    var b := BitWord(Low(w));
    XorHalf(c, w);
    XorHalf(c, b);
    BitHalves(Low(w));
    XorLaws(Half(c), Half(w), POLYNOMIAL);
    XorLaws(Half(c), POLYNOMIAL, Half(w));
    XorLaws(Half(w), POLYNOMIAL, Half(w));
    XorLaws(Half(c), 0, 0);
  }

  lemma {:induction false} BitsEnterOneByOne(c: bv32, w: bv32, n: nat)
    ensures ShiftTimes(Xor(c, w), n) == Xor(BitRegister(c, LowBits(w, n)), HighPart(w, n))
    decreases n
  {
    hide Shift, Xor, Half, Low, BitWord;
    if n > 0 {
      LowBitEnters(c, w);
      BitsEnterOneByOne(Shift(Xor(c, BitWord(Low(w)))), Half(w), n - 1);
      assert LowBits(w, n)[1..] == LowBits(Half(w), n - 1);
    }
  }

  lemma Parity(b: Byte)
    ensures Low(Word(b)) == (b % 2 == 1)
  {
  }

  lemma Halve(b: Byte)
    ensures Half(Word(b)) == Word(b / 2)
  {
    var h := b / 2;
    assert b == 2 * h || b == 2 * h + 1;
  }

  function Exp2(n: nat): nat { if n == 0 then 1 else 2 * Exp2(n - 1) }

  lemma {:induction false} NothingAbove(b: Byte, n: nat)
    requires b < Exp2(n)
    ensures HighPart(Word(b), n) == 0
    decreases n
  {
    hide Word, Half;
    if n == 0 {
      assert Word(0) == 0 by { WordOfZero(); }
    } else {
      Halve(b);
      NothingAbove(b / 2, n - 1);
    }
  }

  lemma WordOfZero()
    ensures Word(0) == 0
  {
  }

  lemma NoHighPart(b: Byte)
    ensures HighPart(Word(b), 8) == 0
  {
    hide Word, HighPart, Exp2;
    ByteIsEightBits();
    NothingAbove(b, 8);
  }

  lemma {:induction false} BitRegisterConcat(c: bv32, a: seq<bool>, b: seq<bool>)
    ensures BitRegister(c, a + b) == BitRegister(BitRegister(c, a), b)
    decreases a
  {
    hide Shift, Xor, BitWord;
    if a == [] {
      assert a + b == b;
    } else {
      assert (a + b)[1..] == a[1..] + b;
      BitRegisterConcat(Shift(Xor(c, BitWord(a[0]))), a[1..], b);
    }
  }

  /** The byte loop computes the remainder of the message's bits. */
  lemma {:induction false} ByteLoopIsDivision(c: bv32, data: Bytes)
    ensures Register(c, data) == BitRegister(c, MessageBits(data))
    decreases data
  {
    hide Shift, Word, Xor, BitWord, Half, Low;
    if data != [] {
      var w := Word(data[0]);
      BitsEnterOneByOne(c, w, 8);
      NoHighPart(data[0]);
      XorLaws(BitRegister(c, LowBits(w, 8)), 0, 0);
      BitRegisterConcat(c, LowBits(w, 8), MessageBits(data[1..]));
      ByteLoopIsDivision(ShiftTimes(Xor(c, w), 8), data[1..]);
    }
  }

  ////////// What a change does to the register //////////

  function Difference(a: seq<bool>, b: seq<bool>): (d: seq<bool>)
    requires |a| == |b|
    ensures |d| == |a|
  {
    seq(|a|, i requires 0 <= i < |a| => a[i] != b[i])
  }

  lemma Mixed(c: bv32, d: bv32, a: bool, b: bool)
    ensures Xor(Xor(c, BitWord(a)), Xor(d, BitWord(b))) == Xor(Xor(c, d), BitWord(a != b))
  {
    hide Xor, BitWord;
    PairsOfXors(c, BitWord(a), d, BitWord(b));
    BitsDiffer(a, b);
  }

  lemma BitsDiffer(a: bool, b: bool)
    ensures Xor(BitWord(a), BitWord(b)) == BitWord(a != b)
  {
  }

  lemma {:induction false} RegistersDiffer(c: bv32, d: bv32, a: seq<bool>, b: seq<bool>)
    requires |a| == |b|
    ensures Xor(BitRegister(c, a), BitRegister(d, b)) == BitRegister(Xor(c, d), Difference(a, b))
    decreases a
  {
    hide Shift, BitWord, Xor;
    if a != [] {
      var c1, d1 := Xor(c, BitWord(a[0])), Xor(d, BitWord(b[0]));
      Mixed(c, d, a[0], b[0]);
      ShiftLinear(c1, d1);
      RegistersDiffer(Shift(c1), Shift(d1), a[1..], b[1..]);
      assert Difference(a, b)[1..] == Difference(a[1..], b[1..]);
    }
  }

  lemma ShiftOfNothing(x: bv32)
    ensures Shift(x) == 0 ==> x == 0
  {
  }

  /** A register without the top bit tells what it was before the shift. */
  lemma ShiftKernel(x: bv32)
    ensures !Top(Shift(x)) ==> x == Twice(Shift(x))
  {
  }

  lemma ShiftOfTwice(w: bv32)
    ensures !Top(w) ==> Shift(Twice(w)) == w
  {
  }

  predicate Top(w: bv32) { w & 0x80000000 != 0 }

  function Twice(w: bv32): bv32 { w << 1 }

  /** A difference in the register never goes away by itself. */
  lemma {:induction false} NeverCancels(d: bv32, n: nat)
    requires d != 0
    ensures BitRegister(d, seq(n, _ => false)) != 0
    decreases n
  {
    hide Shift, Xor;
    if n > 0 {
      ShiftOfNothing(d);
      XorLaws(d, 0, 0);
      NeverCancels(Shift(d), n - 1);
      assert seq(n, _ => false)[1..] == seq(n - 1, _ => false);
    }
  }

  /** The bits as a number, the first one lowest. */
  function BurstWord(bits: seq<bool>): bv32 {
    if bits == [] then 0 else Xor(BitWord(bits[0]), Twice(BurstWord(bits[1..])))
  }

  /** The top `n` bits are clear. */
  predicate TopClear(w: bv32, n: nat)
    decreases n
  {
    n == 0 || (!Top(w) && TopClear(Twice(w), n - 1))
  }

  lemma TopOfXor(x: bv32, y: bv32)
    ensures Top(Xor(x, y)) == (Top(x) != Top(y))
  {
  }

  lemma TwiceOfXor(x: bv32, y: bv32)
    ensures Twice(Xor(x, y)) == Xor(Twice(x), Twice(y))
  {
  }

  lemma {:induction false} TopClearXor(x: bv32, y: bv32, n: nat)
    requires TopClear(x, n) && TopClear(y, n)
    ensures TopClear(Xor(x, y), n)
    decreases n
  {
    hide Top, Twice, Xor;
    if n > 0 {
      TopOfXor(x, y);
      TwiceOfXor(x, y);
      TopClearXor(Twice(x), Twice(y), n - 1);
    }
  }

  lemma {:induction false} TopClearFewer(w: bv32, n: nat, m: nat)
    requires TopClear(w, m) && n <= m
    ensures TopClear(w, n)
    decreases m
  {
    hide Top, Twice;
    if n > 0 { TopClearFewer(Twice(w), n - 1, m - 1); }
  }

  lemma BitIsLow(bit: bool)
    ensures TopClear(BitWord(bit), 31)
  {
    assert TopClear(0x1000000, 7);
    assert TopClear(0x10000, 15);
    assert TopClear(0x100, 23);
    assert TopClear(1, 31);
    assert TopClear(0, 7);
    assert TopClear(0, 15);
    assert TopClear(0, 23);
  }

  lemma {:induction false} ZeroIsClear(n: nat)
    ensures TopClear(0, n)
  {
    if n > 0 {
      ZeroIsClear(n - 1);
      assert Twice(0) == 0;
    }
  }

  lemma {:induction false} BurstFits(bits: seq<bool>)
    requires |bits| <= 32
    ensures TopClear(BurstWord(bits), 32 - |bits|)
  {
    hide Xor, Twice, BitWord, Top;
    if bits == [] {
      ZeroIsClear(32);
    } else {
      var n := 32 - |bits|;
      BurstFits(bits[1..]);
      BitIsLow(bits[0]);
      TopClearFewer(BitWord(bits[0]), n, 31);
      assert TopClear(Twice(BurstWord(bits[1..])), n);
      TopClearXor(BitWord(bits[0]), Twice(BurstWord(bits[1..])), n);
    }
  }

  lemma ShortBurst(bits: seq<bool>)
    requires |bits| <= 31
    ensures !Top(BurstWord(bits))
  {
    hide BurstWord, Top;
    BurstFits(bits);
  }

  /** A burst of at most 32 bits leaves no trace exactly in the register that holds it. */
  lemma {:induction false} TracelessBurst(d: bv32, bits: seq<bool>)
    requires |bits| <= 32
    ensures BitRegister(d, bits) == 0 <==> d == BurstWord(bits)
    decreases bits
  {
    hide Shift, BitWord, Xor, Twice, Top;
    if bits != [] {
      var bit, w := BitWord(bits[0]), BurstWord(bits[1..]);
      TracelessBurst(Shift(Xor(d, bit)), bits[1..]);
      ShortBurst(bits[1..]);
      ShiftKernel(Xor(d, bit));
      ShiftOfTwice(w);
      Unmix(d, bit, Twice(w));
    }
  }

  lemma Unmix(d: bv32, bit: bv32, w: bv32)
    ensures Xor(d, bit) == w <==> d == Xor(bit, w)
  {
    hide Xor;
    XorLaws(d, bit, bit);
    XorLaws(bit, w, bit);
    XorCommutes(bit, w);
    XorAssoc(w, bit, bit);
    XorUnits(bit);
    XorUnits(d);
    XorUnits(w);
  }

  lemma SplitBurst(bit: bool, w: bv32)
    requires Xor(BitWord(bit), Twice(w)) == 0 && !Top(w)
    ensures !bit && w == 0
  {
  }

  lemma {:induction false} EmptyBurst(bits: seq<bool>)
    requires |bits| <= 32 && BurstWord(bits) == 0
    ensures forall i :: 0 <= i < |bits| ==> !bits[i]
  {
    hide BitWord, Xor, Twice, Top;
    if bits != [] {
      ShortBurst(bits[1..]);
      SplitBurst(bits[0], BurstWord(bits[1..]));
      EmptyBurst(bits[1..]);
      forall i | 0 <= i < |bits| ensures !bits[i] { if i > 0 { assert bits[i] == bits[1..][i - 1]; } }
    }
  }

  lemma Equal(p: bv32, q: bv32)
    ensures Xor(p, q) == 0 <==> p == q
  {
    hide Xor;
    XorLaws(p, p, q);
    XorUnits(p);
    XorUnits(q);
    XorCommutes(0, q);
  }

  lemma BurstLeavesTrace(c: bv32, x: seq<bool>, y: seq<bool>)
    requires |x| == |y| <= 32 && x != y
    ensures BitRegister(c, x) != BitRegister(c, y)
  {
    hide BitRegister, Xor, BurstWord;
    RegistersDiffer(c, c, x, y);
    Equal(c, c);
    Equal(BitRegister(c, x), BitRegister(c, y));
    var burst := Difference(x, y);
    if BitRegister(c, x) == BitRegister(c, y) {
      TracelessBurst(0, burst);
      EmptyBurst(burst);
      assert forall i :: 0 <= i < |x| ==> burst[i] == (x[i] != y[i]);
    }
  }

  lemma DifferenceStays(p: bv32, q: bv32, after: seq<bool>)
    requires p != q
    ensures BitRegister(p, after) != BitRegister(q, after)
  {
    hide BitRegister, Xor;
    RegistersDiffer(p, q, after, after);
    assert Difference(after, after) == seq(|after|, _ => false);
    Equal(p, q);
    NeverCancels(Xor(p, q), |after|);
    Equal(BitRegister(p, after), BitRegister(q, after));
  }

  /** Any change confined to 32 consecutive bits changes the remainder. */
  lemma BurstChanges(c: bv32, before: seq<bool>, x: seq<bool>, y: seq<bool>, after: seq<bool>)
    requires |x| == |y| <= 32 && x != y
    ensures BitRegister(c, before + x + after) != BitRegister(c, before + y + after)
  {
    hide BitRegister;
    BitRegisterConcat(c, before + x, after);
    BitRegisterConcat(c, before + y, after);
    BitRegisterConcat(c, before, x);
    BitRegisterConcat(c, before, y);
    BurstLeavesTrace(BitRegister(c, before), x, y);
    DifferenceStays(BitRegister(BitRegister(c, before), x), BitRegister(BitRegister(c, before), y), after);
  }

  /** Two messages whose bits differ, but only within some 32 in a row, have different checksums. */
  lemma BurstDetected(a: Bytes, b: Bytes, before: seq<bool>, x: seq<bool>, y: seq<bool>, after: seq<bool>)
    requires MessageBits(a) == before + x + after && MessageBits(b) == before + y + after
    requires |x| == |y| <= 32 && x != y
    ensures Crc32(a) != Crc32(b)
  {
    hide BitRegister, Register, MessageBits, Xor;
    ByteLoopIsDivision(ONES, a);
    ByteLoopIsDivision(ONES, b);
    BurstChanges(ONES, before, x, y, after);
    XorLaws(Register(ONES, a), Register(ONES, b), ONES);
    Equal(Register(ONES, a), Register(ONES, b));
    Equal(Crc32(a), Crc32(b));
  }

  ////////// In bytes //////////

  lemma {:induction false} BitsTellBytes(x: Byte, y: Byte, n: nat)
    requires LowBits(Word(x), n) == LowBits(Word(y), n) && x < Exp2(n) && y < Exp2(n)
    ensures x == y
    decreases n
  {
    hide Word, Half, Low;
    if n > 0 {
      Halve(x);
      Halve(y);
      Parity(x);
      Parity(y);
      assert LowBits(Word(x), n)[0] == LowBits(Word(y), n)[0];
      assert LowBits(Word(x), n)[1..] == LowBits(Word(y), n)[1..];
      BitsTellBytes(x / 2, y / 2, n - 1);
    }
  }

  lemma {:induction false} MessageBitsConcat(a: Bytes, b: Bytes)
    ensures MessageBits(a + b) == MessageBits(a) + MessageBits(b)
  {
    hide LowBits, Word;
    if a == [] {
      assert a + b == b;
    } else {
      assert (a + b)[1..] == a[1..] + b;
      MessageBitsConcat(a[1..], b);
    }
  }

  lemma SameParts(x: seq<bool>, xs: seq<bool>, y: seq<bool>, ys: seq<bool>)
    requires |x| == |y| && x + xs == y + ys
    ensures x == y && xs == ys
  {
    assert (x + xs)[..|x|] == x && (y + ys)[..|x|] == y;
    assert (x + xs)[|x|..] == xs && (y + ys)[|x|..] == ys;
  }

  lemma ByteIsEightBits()
    ensures Exp2(8) == 256
  {
    assert Exp2(4) == 16;
  }

  lemma {:induction false} MessageBitsInjective(a: Bytes, b: Bytes)
    requires |a| == |b| && MessageBits(a) == MessageBits(b)
    ensures a == b
  {
    hide Word, LowBits, Exp2;
    if a != [] {
      SameParts(LowBits(Word(a[0]), 8), MessageBits(a[1..]), LowBits(Word(b[0]), 8), MessageBits(b[1..]));
      ByteIsEightBits();
      BitsTellBytes(a[0], b[0], 8);
      MessageBitsInjective(a[1..], b[1..]);
      assert a == [a[0]] + a[1..] && b == [b[0]] + b[1..];
    }
  }

  lemma {:induction false} MessageBitsLength(data: Bytes)
    ensures |MessageBits(data)| == 8 * |data|
  {
    if data != [] { MessageBitsLength(data[1..]); }
  }

  /** In particular, a change of one byte, or of any bytes among four neighbours, is always seen. */
  lemma ChangeDetected(before: Bytes, x: Bytes, y: Bytes, after: Bytes)
    requires |x| == |y| <= 4 && x != y
    ensures Crc32(before + x + after) != Crc32(before + y + after)
  {
    hide MessageBits, Crc32;
    MessageBitsConcat(before + x, after);
    MessageBitsConcat(before + y, after);
    MessageBitsConcat(before, x);
    MessageBitsConcat(before, y);
    MessageBitsLength(x);
    MessageBitsLength(y);
    if MessageBits(x) == MessageBits(y) { MessageBitsInjective(x, y); }
    BurstDetected(before + x + after, before + y
      + after, MessageBits(before), MessageBits(x), MessageBits(y), MessageBits(after));
  }

  ////////// Thirty-three bits //////////

  /** The polynomial, one bit longer than the register: the only change of 33 bits that can escape. */
  const PATTERN: seq<bool> := [true] + PATTERN_TAIL

  const PATTERN_TAIL: seq<bool> := [false, false, false] + PATTERN_REST

  /** The polynomial's bits from the fifth on. */
  const PATTERN_REST: seq<bool> :=
    [false, false, true, false] + [false, true, true, false] + [false, false, false, false]
    + [true, false, false, false] + [true, true, true, false] + [true, true, false, true] + [true, false, true, true]
    + [true]

  lemma OneMore(bit: bool, rest: seq<bool>)
    ensures BurstWord([bit] + rest) == Xor(BitWord(bit), Twice(BurstWord(rest)))
  {
    hide Xor, BitWord, Twice;
    assert ([bit] + rest)[1..] == rest;
  }

  /** The word that four bits in front of a word make. */
  function Prepend(a: bool, b: bool, c: bool, d: bool, w: bv32): bv32 {
    Xor(BitWord(a), Twice(Xor(BitWord(b), Twice(Xor(BitWord(c), Twice(Xor(BitWord(d), Twice(w))))))))
  }

  lemma FourMore(a: bool, b: bool, c: bool, d: bool, rest: seq<bool>, w: bv32, v: bv32)
    requires BurstWord(rest) == w && Prepend(a, b, c, d, w) == v
    ensures BurstWord([a, b, c, d] + rest) == v
  {
    hide BurstWord, Xor, BitWord, Twice;
    OneMore(d, rest);
    OneMore(c, [d] + rest);
    OneMore(b, [c] + ([d] + rest));
    OneMore(a, [b] + ([c] + ([d] + rest)));
    assert [a, b, c, d] + rest == [a] + ([b] + ([c] + ([d] + rest)));
  }

  lemma RestIsWord()
    ensures |PATTERN_REST| == 29 && BurstWord(PATTERN_REST) == 0x1db71064
  {
    hide BurstWord;
    assert BurstWord([]) == 0 by { EmptyWord(); }
    OneMore(true, []);
    assert [true] + [] == [true];
    assert BurstWord([true]) == 1;
    FourMore(true, false, true, true, [true], 0x1, 0x1d);
    var t7 := [true, false, true, true] + [true];
    FourMore(true, true, false, true, t7, 0x1d, 0x1db);
    var t6 := [true, true, false, true] + t7;
    FourMore(true, true, true, false, t6, 0x1db, 0x1db7);
    var t5 := [true, true, true, false] + t6;
    FourMore(true, false, false, false, t5, 0x1db7, 0x1db71);
    var t4 := [true, false, false, false] + t5;
    FourMore(false, false, false, false, t4, 0x1db71, 0x1db710);
    var t3 := [false, false, false, false] + t4;
    FourMore(false, true, true, false, t3, 0x1db710, 0x1db7106);
    var t2 := [false, true, true, false] + t3;
    FourMore(false, false, true, false, t2, 0x1db7106, 0x1db71064);
    var t1 := [false, false, true, false] + t2;
    assert PATTERN_REST == t1;
  }

  lemma TailIsPolynomial()
    ensures |PATTERN_TAIL| == 32 && BurstWord(PATTERN_TAIL) == POLYNOMIAL
  {
    hide BurstWord, PATTERN_REST;
    var rest := PATTERN_REST;
    RestIsWord();
    OneMore(false, rest);
    OneMore(false, [false] + rest);
    OneMore(false, [false] + ([false] + rest));
    assert PATTERN_TAIL == [false] + ([false] + ([false] + rest));
    assert Xor(0, Twice(Xor(0, Twice(Xor(0, Twice(0x1db71064)))))) == POLYNOMIAL;
  }

  lemma EmptyWord()
    ensures BurstWord([]) == 0
  {
  }

  lemma BurstWordInjective(x: seq<bool>, y: seq<bool>)
    requires |x| == |y| <= 32 && BurstWord(x) == BurstWord(y)
    ensures x == y
  {
    hide BitRegister, BurstWord;
    TracelessBurst(BurstWord(x), x);
    TracelessBurst(BurstWord(x), y);
    if x != y { BurstLeavesTrace(BurstWord(x), x, y); }
  }

  lemma FirstBit(bit: bool)
    ensures Shift(Xor(0, BitWord(bit))) == if bit then POLYNOMIAL else 0
  {
  }

  /** A change of 33 bits, not all false, leaves no trace exactly if it is the polynomial. */
  lemma TracelessPattern(d: seq<bool>)
    requires |d| == 33
    ensures BitRegister(0, d) == 0 <==> d == PATTERN || forall i :: 0 <= i < 33 ==> !d[i]
  {
    hide Shift, Xor, BitWord, PATTERN_TAIL, BurstWord;
    FirstBit(d[0]);
    TailIsPolynomial();
    assert d == [d[0]] + d[1..] && PATTERN[1..] == PATTERN_TAIL;
    if d[0] {
      TracelessBurst(POLYNOMIAL, d[1..]);
      if BurstWord(d[1..]) == POLYNOMIAL { BurstWordInjective(d[1..], PATTERN_TAIL); }
    } else {
      TracelessBurst(0, d[1..]);
      if BurstWord(d[1..]) == 0 { EmptyBurst(d[1..]); } else if forall i :: 0 <= i < 33 ==> !d[i] { NoBits(d[1..]); }
    }
  }

  lemma {:induction false} NoBits(bits: seq<bool>)
    requires forall i :: 0 <= i < |bits| ==> !bits[i]
    ensures BurstWord(bits) == 0
  {
    if bits != [] {
      NoBits(bits[1..]);
      assert Xor(BitWord(false), Twice(0)) == 0;
    }
  }

  /** A change within 33 consecutive bits escapes the checksum exactly if it adds the polynomial there. */
  lemma EscapesExactly(a: Bytes, b: Bytes, before: seq<bool>, x: seq<bool>, y: seq<bool>, after: seq<bool>)
    requires MessageBits(a) == before + x + after && MessageBits(b) == before + y + after
    requires |x| == |y| == 33 && x != y
    ensures Crc32(a) == Crc32(b) <==> Difference(x, y) == PATTERN
  {
    hide BitRegister, Register, MessageBits, Xor, PATTERN;
    ByteLoopIsDivision(ONES, a);
    ByteLoopIsDivision(ONES, b);
    Equal(Register(ONES, a), Register(ONES, b));
    Equal(Crc32(a), Crc32(b));
    XorLaws(Register(ONES, a), Register(ONES, b), ONES);
    Passing(ONES, before, x, after);
    Passing(ONES, before, y, after);
    var start := BitRegister(ONES, before);
    var p, q := BitRegister(start, x), BitRegister(start, y);
    if p != q { DifferenceStays(p, q, after); }
    RegistersDiffer(start, start, x, y);
    Equal(start, start);
    Equal(p, q);
    TracelessPattern(Difference(x, y));
    assert forall i :: 0 <= i < 33 ==> Difference(x, y)[i] == (x[i] != y[i]);
  }

  lemma Passing(c: bv32, before: seq<bool>, x: seq<bool>, after: seq<bool>)
    ensures BitRegister(c, before + x + after) == BitRegister(BitRegister(BitRegister(c, before), x), after)
  {
    hide BitRegister;
    BitRegisterConcat(c, before + x, after);
    BitRegisterConcat(c, before, x);
  }

  /** The bits of a number, the lowest first. */
  function NumberBits(n: nat, count: nat): seq<bool>
    decreases count
  {
    if count == 0 then [] else [n % 2 == 1] + NumberBits(n / 2, count - 1)
  }

  lemma {:induction false} ByteBits(b: Byte, n: nat)
    ensures LowBits(Word(b), n) == NumberBits(b, n)
    decreases n
  {
    hide Word, Half, Low;
    if n > 0 {
      Parity(b);
      Halve(b);
      ByteBits(b / 2, n - 1);
    }
  }

  lemma OneNumberBit(n: nat, count: nat)
    ensures NumberBits(n, count + 1) == [n % 2 == 1] + NumberBits(n / 2, count)
  {
  }

  lemma Quotients(n: nat)
    ensures n / 2 / 2 == n / 4 && n / 4 / 2 == n / 8 && n / 8 / 2 == n / 16
  {
  }

  lemma FourNumberBits(n: nat, count: nat)
    ensures NumberBits(n, count + 4)
      == [n % 2 == 1, n / 2 % 2 == 1, n / 4 % 2 == 1, n / 8 % 2 == 1] + NumberBits(n / 16, count)
  {
    hide NumberBits;
    Quotients(n);
    OneNumberBit(n, count + 3);
    OneNumberBit(n / 2, count + 2);
    OneNumberBit(n / 4, count + 1);
    OneNumberBit(n / 8, count);
  }

  lemma OneByteMore(b: Byte, rest: Bytes)
    ensures MessageBits([b] + rest)
      == [b % 2 == 1, b / 2 % 2 == 1, b / 4 % 2 == 1, b / 8 % 2 == 1]
         + ([b / 16 % 2 == 1, b / 32 % 2 == 1, b / 64 % 2 == 1, b / 128 % 2 == 1] + MessageBits(rest))
  {
    hide Word, LowBits, NumberBits;
    assert ([b] + rest)[1..] == rest;
    ByteBits(b, 8);
    FourNumberBits(b, 4);
    FourNumberBits(b / 16, 0);
    assert NumberBits(b / 256, 0) == [] by { NoNumberBits(b / 256); }
    assert b / 16 / 2 == b / 32 && b / 16 / 4 == b / 64 && b / 16 / 8 == b / 128 && b / 16 / 16 == b / 256;
  }

  lemma NoNumberBits(n: nat)
    ensures NumberBits(n, 0) == []
  {
  }

  /** Four is the most: there are changes of five neighbouring bytes that no checksum shows. */
  lemma FiveBytesCanEscape()
    ensures Crc32([0, 0, 0, 0, 0]) == Crc32([0x41, 0x06, 0x71, 0xdb, 0x01])
  {
    hide Crc32, MessageBits, Difference, PATTERN, PATTERN_TAIL, PATTERN_REST;
    var x, none := seq(33, _ => false), seq(7, _ => false);
    ZeroBits();
    PatternBits();
    TailIsPolynomial();
    PatternFromZeros();
    assert [] + x + none == x + none && [] + PATTERN + none == PATTERN + none;
    EscapesExactly([0, 0, 0, 0, 0], [0x41, 0x06, 0x71, 0xdb, 0x01], [], x, PATTERN, none);
  }

  lemma PatternFromZeros()
    ensures var x := seq(33, _ => false);
      |PATTERN| == 33 && PATTERN != x && Difference(x, PATTERN) == PATTERN
  {
    hide PATTERN_TAIL;
    TailIsPolynomial();
    assert PATTERN[0];
  }

  lemma ZeroByte(rest: Bytes)
    ensures MessageBits([0] + rest) == seq(8, _ => false) + MessageBits(rest)
  {
    hide MessageBits;
    OneByteMore(0, rest);
  }

  lemma ZeroBits()
    ensures MessageBits([0, 0, 0, 0, 0]) == seq(33, _ => false) + seq(7, _ => false)
  {
    hide MessageBits;
    NoMessageBits();
    ZeroByte([]);
    ZeroByte([0]);
    ZeroByte([0, 0]);
    ZeroByte([0, 0, 0]);
    ZeroByte([0, 0, 0, 0]);
    assert [0] + [] == [0] && [0] + [0] == [0, 0] && [0] + [0, 0] == [0, 0, 0];
    assert [0] + [0, 0, 0] == [0, 0, 0, 0] && [0] + [0, 0, 0, 0] == [0, 0, 0, 0, 0];
  }

  lemma NoMessageBits()
    ensures MessageBits([]) == []
  {
  }

  /** The bits of the pattern's bytes, four at a time. */
  function PatternNibbles(): seq<bool> {
    [true, false, false, false] + ([false, false, true, false] + ([false, true, true, false]
    + ([false, false, false, false] + ([true, false, false, false] + ([true, true, true, false]
    + ([true, true, false, true] + ([true, false, true, true] + ([true, false, false, false]
    + ([false, false, false, false] + [])))))))))
  }

  lemma PatternBits()
    ensures MessageBits([0x41, 0x06, 0x71, 0xdb, 0x01]) == PATTERN + seq(7, _ => false)
  {
    hide MessageBits, PatternNibbles, PATTERN;
    PatternBytes();
    PatternLayout();
  }

  lemma KnownByte(b: Byte, low: seq<bool>, high: seq<bool>, rest: Bytes)
    requires [b % 2 == 1, b / 2 % 2 == 1, b / 4 % 2 == 1, b / 8 % 2 == 1] == low
    requires [b / 16 % 2 == 1, b / 32 % 2 == 1, b / 64 % 2 == 1, b / 128 % 2 == 1] == high
    ensures MessageBits([b] + rest) == low + (high + MessageBits(rest))
  {
    hide MessageBits;
    OneByteMore(b, rest);
  }

  lemma PatternData()
    ensures [0x41] + ([0x06] + ([0x71] + ([0xdb] + ([0x01] + [])))) == [0x41, 0x06, 0x71, 0xdb, 0x01]
  {
  }

  lemma PatternBytes()
    ensures MessageBits([0x41, 0x06, 0x71, 0xdb, 0x01]) == PatternNibbles()
  {
    hide MessageBits;
    NoMessageBits();
    PatternData();
    KnownByte(0x01, [true, false, false, false], [false, false, false, false], []);
    KnownByte(0xdb, [true, true, false, true], [true, false, true, true], [0x01] + []);
    KnownByte(0x71, [true, false, false, false], [true, true, true, false], [0xdb] + ([0x01] + []));
    KnownByte(0x06, [false, true, true, false], [false, false, false, false], [0x71] + ([0xdb] + ([0x01] + [])));
    KnownByte(0x41, [true, false, false, false], [false, false, true, false], [0x06]
      + ([0x71] + ([0xdb] + ([0x01] + []))));
  }

  lemma PatternLayout()
    ensures PatternNibbles() == PATTERN + seq(7, _ => false)
  {
  }
}
