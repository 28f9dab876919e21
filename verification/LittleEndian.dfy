/** Fixed-width little-endian integers, as `to_le_bytes` and `setUint16` write them. */
module LittleEndian {
  import opened Basics

  function Power256(n: nat): nat { if n == 0 then 1 else 256 * Power256(n - 1) }

  /** The `n` low bytes of `v`, least significant first; higher bytes are cut off. */
  function Put(v: nat, n: nat): (bs: Bytes)
    ensures |bs| == n
  {
    if n == 0 then [] else [v % 256] + Put(v / 256, n - 1)
  }

  function Get(bs: Bytes): nat { if bs == [] then 0 else bs[0] + 256 * Get(bs[1..]) }

  lemma {:induction false} GetPut(v: nat, n: nat)
    requires v < Power256(n)
    ensures Get(Put(v, n)) == v
  {
    if n > 0 {
      GetPut(v / 256, n - 1);
      assert Put(v, n)[1..] == Put(v / 256, n - 1);
    }
  }

  lemma {:induction false} PutGet(bs: Bytes)
    ensures Get(bs) < Power256(|bs|)
    ensures Put(Get(bs), |bs|) == bs
  {
    if bs != [] {
      PutGet(bs[1..]);
      assert Get(bs) / 256 == Get(bs[1..]) && Get(bs) % 256 == bs[0];
      assert [bs[0]] + bs[1..] == bs;
    }
  }

  lemma Widths()
    ensures Power256(2) == 0x1_0000
    ensures Power256(4) == 0x1_0000_0000
    ensures Power256(8) == 0x1_0000_0000_0000_0000
  {
    assert Power256(4) == 256 * (256 * Power256(2));
    assert Power256(6) == 256 * (256 * Power256(4));
    assert Power256(8) == 256 * (256 * Power256(6));
  }

  /** The two's complement pattern of a signed 64-bit number. */
  function Unsigned(v: I64): U64 { if v < 0 then v + 0x1_0000_0000_0000_0000 else v }

  function Signed(v: U64): I64 {
    if v < 0x8000_0000_0000_0000 then v else v - 0x1_0000_0000_0000_0000
  }

  function GetU16(bs: Bytes): U16
    requires |bs| == 2
  {
    PutGet(bs); Widths(); Get(bs)
  }

  function GetU32(bs: Bytes): U32
    requires |bs| == 4
  {
    PutGet(bs); Widths(); Get(bs)
  }

  function GetU64(bs: Bytes): U64
    requires |bs| == 8
  {
    PutGet(bs); Widths(); Get(bs)
  }

  lemma RoundTrip16(v: U16)
    ensures GetU16(Put(v, 2)) == v
  {
    Widths(); GetPut(v, 2);
  }

  lemma RoundTrip32(v: U32)
    ensures GetU32(Put(v, 4)) == v
  {
    Widths(); GetPut(v, 4);
  }

  lemma RoundTrip64(v: U64)
    ensures GetU64(Put(v, 8)) == v
  {
    Widths(); GetPut(v, 8);
  }
}
