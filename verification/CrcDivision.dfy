/** The checksum as schoolbook division of polynomials over bits, and some values it must take. */
module CrcDivision {
  import opened Basics
  import opened Crc

  /** The generator x^32 + x^26 + ... + 1 below its leading term, highest power first. */
  const GENERATOR: seq<bool> :=
    [false, false, false, false, false, true, false, false, true, true, false, false, false, false, false, true,
     false, false, false, true, true, true, false, true, true, false, true, true, false, true, true, true]

  /** The second sequence added to the front of the first, without carry. */
  function AddFront(bits: seq<bool>, front: seq<bool>): (r: seq<bool>)
    requires |front| <= |bits|
    ensures |r| == |bits|
  {
    seq(|bits|, i requires 0 <= i < |bits| => if i < |front| then bits[i] != front[i] else bits[i])
  }

  /** Long division: as long as more than 32 bits are left, a leading one takes the generator away. */
  function Remainder(bits: seq<bool>): (r: seq<bool>)
    requires |bits| >= 32
    ensures |r| == 32
    decreases |bits|
  {
    hide GENERATOR, AddFront;
    assert |GENERATOR| == 32 by { GeneratorLength(); }
    if |bits| == 32 then bits
    else Remainder(if bits[0] then AddFront(bits[1..], GENERATOR) else bits[1..])
  }

  lemma GeneratorLength()
    ensures |GENERATOR| == 32
  {
  }

  function Flip(bits: seq<bool>): (r: seq<bool>)
    ensures |r| == |bits|
  {
    seq(|bits|, i requires 0 <= i < |bits| => !bits[i])
  }

  const ZEROS: seq<bool> := seq(32, _ => false)

  ////////// Long division in a register //////////

  /** The first bit of the register leaves it, a new one enters at the other end. */
  function Divide(r: bv32, bits: seq<bool>): bv32
    decreases bits
  {
    if bits == [] then r else Divide(Xor(Shift(r), LastBit(bits[0])), bits[1..])
  }

  function LastBit(bit: bool): bv32 { if bit then 0x80000000 else 0 }

  lemma {:induction false} Window(bits: seq<bool>, next: bool, n: nat)
    requires |bits| == n && n <= 32
    ensures BurstWord(bits + [next]) == Xor(BurstWord(bits), Power(next, n))
    decreases n
  {
    hide Xor, Twice, BitWord, Power;
    if n == 0 {
      assert bits + [next] == [next];
      OneBit(next);
    } else {
      assert (bits + [next])[0] == bits[0] && (bits + [next])[1..] == bits[1..] + [next];
      Window(bits[1..], next, n - 1);
      TwiceOfXor(BurstWord(bits[1..]), Power(next, n - 1));
      PowerTwice(next, n);
      XorLaws(BitWord(bits[0]), Twice(BurstWord(bits[1..])), Power(next, n));
    }
  }

  /** A bit at the n-th place. */
  function Power(bit: bool, n: nat): bv32
    decreases n
  {
    if n == 0 then BitWord(bit) else Twice(Power(bit, n - 1))
  }

  lemma PowerTwice(bit: bool, n: nat)
    requires n > 0
    ensures Power(bit, n) == Twice(Power(bit, n - 1))
  {
  }

  lemma OneBit(bit: bool)
    ensures BurstWord([bit]) == Xor(BurstWord([]), Power(bit, 0))
  {
    assert [bit][1..] == [];
  }

  /** The bits of a window, moved on by one. */
  lemma Slide(bits: seq<bool>, next: bool)
    requires |bits| == 32
    ensures BurstWord(bits[1..] + [next]) == Xor(Half(BurstWord(bits)), LastBit(next))
    ensures Low(BurstWord(bits)) == bits[0]
  {
    hide Xor, Twice, BitWord, Half, Low, Power, LastBit;
    var rest := BurstWord(bits[1..]);
    ShortBurst(bits[1..]);
    Window(bits[1..], next, 31);
    TopPower(next);
    HalfOfTwice(bits[0], rest);
  }

  lemma HalfOfTwice(bit: bool, w: bv32)
    requires !Top(w)
    ensures Half(Xor(BitWord(bit), Twice(w))) == w && Low(Xor(BitWord(bit), Twice(w))) == bit
  {
  }

  lemma TopPower(bit: bool)
    ensures Power(bit, 31) == LastBit(bit)
  {
    assert Power(bit, 7) == if bit then 0x80 else 0;
    assert Power(bit, 15) == if bit then 0x8000 else 0;
    assert Power(bit, 23) == if bit then 0x800000 else 0;
  }

  lemma {:induction false} BurstWordOfXor(a: seq<bool>, b: seq<bool>)
    requires |a| == |b|
    ensures BurstWord(AddFront(a, b)) == Xor(BurstWord(a), BurstWord(b))
  {
    hide Xor, Twice, BitWord;
    if a == [] {
      EmptyWord();
      assert AddFront(a, b) == [];
      XorUnits(0);
    } else {
      BurstWordOfXor(a[1..], b[1..]);
      assert AddFront(a, b)[1..] == AddFront(a[1..], b[1..]);
      BitsDiffer(a[0], b[0]);
      TwiceOfXor(BurstWord(a[1..]), BurstWord(b[1..]));
      PairsOfXors(BitWord(a[0]), Twice(BurstWord(a[1..])), BitWord(b[0]), Twice(BurstWord(b[1..])));
    }
  }

  lemma GeneratorWord()
    ensures BurstWord(GENERATOR) == 0xedb88320
  {
    hide BurstWord;
    TailIsPolynomial();
    assert GENERATOR == PATTERN_TAIL;
  }

  /** Keeping the 32 leading bits in a register divides as well. */
  lemma {:induction false} DivideIsRemainder(bits: seq<bool>)
    requires |bits| >= 32
    ensures BurstWord(Remainder(bits)) == Divide(BurstWord(bits[..32]), bits[32..])
    decreases |bits|
  {
    hide Xor, Half, Low, LastBit, GENERATOR, BurstWord, AddFront;
    GeneratorLength();
    if |bits| == 32 {
      assert bits[..32] == bits;
    } else {
      var w := BurstWord(bits[..32]);
      var next := if bits[0] then AddFront(bits[1..], GENERATOR) else bits[1..];
      DivideIsRemainder(next);
      Slide(bits[..32], bits[32]);
      assert bits[..32][1..] + [bits[32]] == bits[1..33];
      FrontAdded(bits);
      GeneratorWord();
      XorLaws(Half(w), 0xedb88320, LastBit(bits[32]));
      XorLaws(Half(w), LastBit(bits[32]), 0xedb88320);
      XorLaws(0xedb88320, LastBit(bits[32]), 0);
      assert bits[32..][1..] == bits[33..];
    }
  }

  /** What one step of the division makes of the leading bits, and of the others. */
  lemma FrontAdded(bits: seq<bool>)
    requires |bits| > 32 && |GENERATOR| == 32
    ensures var next := if bits[0] then AddFront(bits[1..], GENERATOR) else bits[1..];
      next[32..] == bits[33..]
      && BurstWord(next[..32])
        == if bits[0] then Xor(BurstWord(bits[1..33]), BurstWord(GENERATOR)) else BurstWord(bits[1..33])
  {
    hide Xor, GENERATOR, BurstWord;
    if bits[0] {
      BurstWordOfXor(bits[1..33], GENERATOR);
      assert AddFront(bits[1..], GENERATOR)[..32] == AddFront(bits[1..33], GENERATOR);
    } else {
      assert bits[1..][..32] == bits[1..33];
    }
  }

  ////////// The checksum //////////

  /** A register fed from below is one fed from above that is 32 bits ahead. */
  lemma {:induction false} AheadByOneWord(s: bv32, m: seq<bool>, rest: seq<bool>)
    requires rest == m + ZEROS
    ensures Divide(Xor(s, BurstWord(rest[..32])), rest[32..]) == BitRegister(s, m)
    decreases |m|
  {
    hide Xor, Half, Low, LastBit, BurstWord, Shift, BitWord;
    var l := BurstWord(rest[..32]);
    if m == [] {
      assert rest[..32] == ZEROS;
      NoBits(ZEROS);
      XorUnits(s);
    } else {
      LowBitEnters(s, l);
      Slide(rest[..32], rest[32]);
      assert rest[..32][1..] + [rest[32]] == rest[1..33];
      var next := Shift(Xor(s, BitWord(m[0])));
      assert rest[0] == m[0];
      XorLaws(next, Half(l), LastBit(rest[32]));
      assert rest[1..] == m[1..] + ZEROS && rest[1..][..32] == rest[1..33] && rest[1..][32..] == rest[32..][1..];
      AheadByOneWord(next, m[1..], rest[1..]);
    }
  }

  lemma {:induction false} Flipped(bits: seq<bool>)
    requires |bits| == 32
    ensures BurstWord(Flip(bits)) == Xor(0xffffffff, BurstWord(bits))
  {
    hide Xor, BurstWord;
    var ones := seq(32, _ => true);
    BurstWordOfXor(ones, bits);
    assert Flip(bits) == AddFront(ones, bits);
    AllOnes();
  }

  lemma AllOnes()
    ensures BurstWord(seq(32, _ => true)) == 0xffffffff
  {
    OnesWord(8);
    OnesWord(16);
    OnesWord(24);
    OnesWord(32);
  }

  /** The n lowest bits. */
  function Ones(n: nat): bv32 { if n == 0 then 0 else Xor(1, Twice(Ones(n - 1))) }

  lemma {:induction false} OnesWord(n: nat)
    ensures BurstWord(seq(n, _ => true)) == Ones(n)
    ensures n == 8 ==> Ones(n) == 0xff
    ensures n == 16 ==> Ones(n) == 0xffff
    ensures n == 24 ==> Ones(n) == 0xffffff
    ensures n == 32 ==> Ones(n) == 0xffffffff
  {
    if n > 0 {
      OnesWord(n - 1);
      assert seq(n, _ => true)[1..] == seq(n - 1, _ => true);
    }
    assert Ones(8) == 0xff;
    assert Ones(16) == 0xffff;
    assert Ones(24) == 0xffffff;
    assert Ones(32) == 0xffffffff;
  }

  lemma {:induction false} BitsOfWord(bits: seq<bool>)
    requires |bits| <= 32
    ensures LowBits(BurstWord(bits), |bits|) == bits
  {
    hide Xor, Twice, BitWord, Half, Low, Top;
    if bits != [] {
      ShortBurst(bits[1..]);
      HalfOfTwice(bits[0], BurstWord(bits[1..]));
      BitsOfWord(bits[1..]);
      assert [bits[0]] + bits[1..] == bits;
    }
  }

  /** The first 32 bits complemented. */
  function FlipFront(bits: seq<bool>): (r: seq<bool>)
    requires |bits| >= 32
    ensures |r| == |bits|
  {
    Flip(bits[..32]) + bits[32..]
  }

  /**
    The checksum of any message, however short: append 32 zeros, complement the first 32 bits, divide by the
    generator, and complement the remainder.
   */
  lemma ChecksumIsRemainder(data: Bytes)
    ensures LowBits(Crc32(data), 32) == Flip(Remainder(FlipFront(MessageBits(data) + ZEROS)))
  {
    hide Xor, BurstWord, BitRegister, Register, MessageBits, Remainder, LowBits, Flip;
    var m := MessageBits(data);
    var bits := FlipFront(m + ZEROS);
    ByteLoopIsDivision(ONES, data);
    AheadByOneWord(0xffffffff, m, m + ZEROS);
    Flipped((m + ZEROS)[..32]);
    DivideIsRemainder(bits);
    assert bits[..32] == Flip((m + ZEROS)[..32]) && bits[32..] == (m + ZEROS)[32..];
    Flipped(Remainder(bits));
    XorCommutes(BurstWord(Remainder(bits)), 0xffffffff);
    BitsOfWord(Flip(Remainder(bits)));
  }

  ////////// Known values //////////

  function Byteful(c: bv32): bv32 { Shift(Shift(Shift(Shift(Shift(Shift(Shift(Shift(c)))))))) }

  lemma EightShifts(c: bv32)
    ensures ShiftTimes(c, 8) == Byteful(c)
  {
    hide Shift;
    FourShifts(c);
    FourShifts(Shift(Shift(Shift(Shift(c)))));
    MoreShifts(c, 4, 4);
  }

  lemma FourShifts(c: bv32)
    ensures ShiftTimes(c, 4) == Shift(Shift(Shift(Shift(c))))
  {
    hide Shift;
    assert ShiftTimes(Shift(Shift(Shift(Shift(c)))), 0) == Shift(Shift(Shift(Shift(c))));
  }

  lemma {:induction false} MoreShifts(c: bv32, n: nat, m: nat)
    ensures ShiftTimes(c, n + m) == ShiftTimes(ShiftTimes(c, n), m)
    decreases n
  {
    hide Shift;
    if n > 0 { MoreShifts(Shift(c), n - 1, m); }
  }

  /** One more byte enters the register. */
  lemma OneByte(c: bv32, b: Byte, r: bv32, rest: Bytes)
    requires Byteful(Xor(c, Word(b))) == r
    ensures Register(c, [b] + rest) == Register(r, rest)
  {
    hide Shift, Xor, Word, ShiftTimes;
    EightShifts(Xor(c, Word(b)));
    assert ([b] + rest)[1..] == rest;
  }

  lemma NoMoreBytes(c: bv32)
    ensures Register(c, []) == c
  {
  }

  lemma ZeroTurns()
    ensures Word(0) == 0 && Xor(0xffffffff, 0) == 0xffffffff
    ensures Shift(0xffffffff) == 0x92477cdf && Shift(0x92477cdf) == 0xa49b3d4f
    ensures Shift(0xa49b3d4f) == 0xbff51d87 && Shift(0xbff51d87) == 0xb2420de3
    ensures Shift(0xb2420de3) == 0xb49985d1 && Shift(0xb49985d1) == 0xb7f441c8
    ensures Shift(0xb7f441c8) == 0x5bfa20e4 && Shift(0x5bfa20e4) == 0x2dfd1072
  {
  }

  lemma ZeroShifts()
    ensures Byteful(Xor(0xffffffff, Word(0))) == 0x2dfd1072
  {
    hide Xor, Word, Shift;
    ZeroTurns();
  }

  lemma ZeroChecksum()
    ensures Crc32([0]) == 0xd202ef8d
  {
    hide Register, Shift;
    ZeroShifts();
    OneByte(0xffffffff, 0, 0x2dfd1072, []);
    assert [0] + [] == [0];
    NoMoreBytes(0x2dfd1072);
  }

  lemma Turns1()
    ensures Word(0x31) == 0x31 && Xor(0xffffffff, 0x31) == 0xffffffce
    ensures Shift(0xffffffce) == 0x7fffffe7 && Shift(0x7fffffe7) == 0xd2477cd3
    ensures Shift(0xd2477cd3) == 0x849b3d49 && Shift(0x849b3d49) == 0xaff51d84
    ensures Shift(0xaff51d84) == 0x57fa8ec2 && Shift(0x57fa8ec2) == 0x2bfd4761
    ensures Shift(0x2bfd4761) == 0xf8462090 && Shift(0xf8462090) == 0x7c231048
  {
  }

  lemma Digit1()
    ensures Byteful(Xor(0xffffffff, Word(0x31))) == 0x7c231048
  {
    hide Xor, Word, Shift;
    Turns1();
  }

  lemma Turns2()
    ensures Word(0x32) == 0x32 && Xor(0x7c231048, 0x32) == 0x7c23107a
    ensures Shift(0x7c23107a) == 0x3e11883d && Shift(0x3e11883d) == 0xf2b0473e
    ensures Shift(0xf2b0473e) == 0x7958239f && Shift(0x7958239f) == 0xd11492ef
    ensures Shift(0xd11492ef) == 0x8532ca57 && Shift(0x8532ca57) == 0xaf21e60b
    ensures Shift(0xaf21e60b) == 0xba287025 && Shift(0xba287025) == 0xb0acbb32
  {
  }

  lemma Digit2()
    ensures Byteful(Xor(0x7c231048, Word(0x32))) == 0xb0acbb32
  {
    hide Xor, Word, Shift;
    Turns2();
  }

  lemma Turns3()
    ensures Word(0x33) == 0x33 && Xor(0xb0acbb32, 0x33) == 0xb0acbb01
    ensures Shift(0xb0acbb01) == 0xb5eedea0 && Shift(0xb5eedea0) == 0x5af76f50
    ensures Shift(0x5af76f50) == 0x2d7bb7a8 && Shift(0x2d7bb7a8) == 0x16bddbd4
    ensures Shift(0x16bddbd4) == 0x0b5eedea && Shift(0x0b5eedea) == 0x05af76f5
    ensures Shift(0x05af76f5) == 0xef6f385a && Shift(0xef6f385a) == 0x77b79c2d
  {
  }

  lemma Digit3()
    ensures Byteful(Xor(0xb0acbb32, Word(0x33))) == 0x77b79c2d
  {
    hide Xor, Word, Shift;
    Turns3();
  }

  lemma Turns4()
    ensures Word(0x34) == 0x34 && Xor(0x77b79c2d, 0x34) == 0x77b79c19
    ensures Shift(0x77b79c19) == 0xd6634d2c && Shift(0xd6634d2c) == 0x6b31a696
    ensures Shift(0x6b31a696) == 0x3598d34b && Shift(0x3598d34b) == 0xf774ea85
    ensures Shift(0xf774ea85) == 0x9602f662 && Shift(0x9602f662) == 0x4b017b31
    ensures Shift(0x4b017b31) == 0xc8383eb8 && Shift(0xc8383eb8) == 0x641c1f5c
  {
  }

  lemma Digit4()
    ensures Byteful(Xor(0x77b79c2d, Word(0x34))) == 0x641c1f5c
  {
    hide Xor, Word, Shift;
    Turns4();
  }

  lemma Turns5()
    ensures Word(0x35) == 0x35 && Xor(0x641c1f5c, 0x35) == 0x641c1f69
    ensures Shift(0x641c1f69) == 0xdfb68c94 && Shift(0xdfb68c94) == 0x6fdb464a
    ensures Shift(0x6fdb464a) == 0x37eda325 && Shift(0x37eda325) == 0xf64e52b2
    ensures Shift(0xf64e52b2) == 0x7b272959 && Shift(0x7b272959) == 0xd02b178c
    ensures Shift(0xd02b178c) == 0x68158bc6 && Shift(0x68158bc6) == 0x340ac5e3
  {
  }

  lemma Digit5()
    ensures Byteful(Xor(0x641c1f5c, Word(0x35))) == 0x340ac5e3
  {
    hide Xor, Word, Shift;
    Turns5();
  }

  lemma Turns6()
    ensures Word(0x36) == 0x36 && Xor(0x340ac5e3, 0x36) == 0x340ac5d5
    ensures Shift(0x340ac5d5) == 0xf7bde1ca && Shift(0xf7bde1ca) == 0x7bdef0e5
    ensures Shift(0x7bdef0e5) == 0xd057fb52 && Shift(0xd057fb52) == 0x682bfda9
    ensures Shift(0x682bfda9) == 0xd9ad7df4 && Shift(0xd9ad7df4) == 0x6cd6befa
    ensures Shift(0x6cd6befa) == 0x366b5f7d && Shift(0x366b5f7d) == 0xf68d2c9e
  {
  }

  lemma Digit6()
    ensures Byteful(Xor(0x340ac5e3, Word(0x36))) == 0xf68d2c9e
  {
    hide Xor, Word, Shift;
    Turns6();
  }

  lemma Turns7()
    ensures Word(0x37) == 0x37 && Xor(0xf68d2c9e, 0x37) == 0xf68d2ca9
    ensures Shift(0xf68d2ca9) == 0x96fe1574 && Shift(0x96fe1574) == 0x4b7f0aba
    ensures Shift(0x4b7f0aba) == 0x25bf855d && Shift(0x25bf855d) == 0xff67418e
    ensures Shift(0xff67418e) == 0x7fb3a0c7 && Shift(0x7fb3a0c7) == 0xd2615343
    ensures Shift(0xd2615343) == 0x84882a81 && Shift(0x84882a81) == 0xaffc9660
  {
  }

  lemma Digit7()
    ensures Byteful(Xor(0xf68d2c9e, Word(0x37))) == 0xaffc9660
  {
    hide Xor, Word, Shift;
    Turns7();
  }

  lemma Turns8()
    ensures Word(0x38) == 0x38 && Xor(0xaffc9660, 0x38) == 0xaffc9658
    ensures Shift(0xaffc9658) == 0x57fe4b2c && Shift(0x57fe4b2c) == 0x2bff2596
    ensures Shift(0x2bff2596) == 0x15ff92cb && Shift(0x15ff92cb) == 0xe7474a45
    ensures Shift(0xe7474a45) == 0x9e1b2602 && Shift(0x9e1b2602) == 0x4f0d9301
    ensures Shift(0x4f0d9301) == 0xca3e4aa0 && Shift(0xca3e4aa0) == 0x651f2550
  {
  }

  lemma Digit8()
    ensures Byteful(Xor(0xaffc9660, Word(0x38))) == 0x651f2550
  {
    hide Xor, Word, Shift;
    Turns8();
  }

  lemma Turns9()
    ensures Word(0x39) == 0x39 && Xor(0x651f2550, 0x39) == 0x651f2569
    ensures Shift(0x651f2569) == 0xdf371194 && Shift(0xdf371194) == 0x6f9b88ca
    ensures Shift(0x6f9b88ca) == 0x37cdc465 && Shift(0x37cdc465) == 0xf65e6112
    ensures Shift(0xf65e6112) == 0x7b2f3089 && Shift(0x7b2f3089) == 0xd02f1b64
    ensures Shift(0xd02f1b64) == 0x68178db2 && Shift(0x68178db2) == 0x340bc6d9
  {
  }

  lemma Digit9()
    ensures Byteful(Xor(0x651f2550, Word(0x39))) == 0x340bc6d9
  {
    hide Xor, Word, Shift;
    Turns9();
  }

  /** The nine digits from 1 to 9, the usual test of a CRC-32. */
  lemma CheckValue()
    ensures Crc32([0x31, 0x32, 0x33, 0x34, 0x35, 0x36, 0x37, 0x38, 0x39]) == 0xcbf43926
  {
    hide Register, Shift, Xor, Word;
    var r8 := [0x39] + [];
    var r7 := [0x38] + r8;
    var r6 := [0x37] + r7;
    var r5 := [0x36] + r6;
    var r4 := [0x35] + r5;
    var r3 := [0x34] + r4;
    var r2 := [0x33] + r3;
    var r1 := [0x32] + r2;
    assert [0x31, 0x32, 0x33, 0x34, 0x35, 0x36, 0x37, 0x38, 0x39] == [0x31] + r1;
    Digit1();
    OneByte(0xffffffff, 0x31, 0x7c231048, r1);
    Digit2();
    OneByte(0x7c231048, 0x32, 0xb0acbb32, r2);
    Digit3();
    OneByte(0xb0acbb32, 0x33, 0x77b79c2d, r3);
    Digit4();
    OneByte(0x77b79c2d, 0x34, 0x641c1f5c, r4);
    Digit5();
    OneByte(0x641c1f5c, 0x35, 0x340ac5e3, r5);
    Digit6();
    OneByte(0x340ac5e3, 0x36, 0xf68d2c9e, r6);
    Digit7();
    OneByte(0xf68d2c9e, 0x37, 0xaffc9660, r7);
    Digit8();
    OneByte(0xaffc9660, 0x38, 0x651f2550, r8);
    Digit9();
    OneByte(0x651f2550, 0x39, 0x340bc6d9, []);
    NoMoreBytes(0x340bc6d9);
    assert Xor(0x340bc6d9, 0xffffffff) == 0xcbf43926 by { LastWord(); }
  }

  lemma LastWord()
    ensures Xor(0x340bc6d9, 0xffffffff) == 0xcbf43926
  {
  }
}
