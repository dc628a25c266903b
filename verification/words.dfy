/** The machine's integers: 32- and 64-bit two's complement values, their wrap-around, and the
    little-endian byte form in which every load, store and DMA transfer moves them. */
module Words {
  const TWO32: int := 0x1_0000_0000
  const TWO64: int := 0x1_0000_0000_0000_0000

  type byte = x: int | 0 <= x < 256
  type int32 = x: int | -0x8000_0000 <= x < 0x8000_0000
  type int64 = x: int | -0x8000_0000_0000_0000 <= x < 0x8000_0000_0000_0000
  type uint32 = x: int | 0 <= x < 0x1_0000_0000

  /** A bit of a register word. */
  function Flag(b: bool, weight: int): int { if b then weight else 0 }

  /** A C cast to `int32_t`: the residue of x modulo 2^32 read as a signed value. */
  function Wrap32(x: int): (w: int32)
    ensures (x - w) % TWO32 == 0
    ensures -0x8000_0000 <= x < 0x8000_0000 ==> w == x
  {
    var w := (x + 0x8000_0000) % TWO32 - 0x8000_0000;
    assert x - w == TWO32 * ((x + 0x8000_0000) / TWO32);
    w
  }

  /** A C cast to `int64_t`. */
  function Wrap64(x: int): (w: int64)
    ensures (x - w) % TWO64 == 0
    ensures -0x8000_0000_0000_0000 <= x < 0x8000_0000_0000_0000 ==> w == x
  {
    var w := (x + 0x8000_0000_0000_0000) % TWO64 - 0x8000_0000_0000_0000;
    assert x - w == TWO64 * ((x + 0x8000_0000_0000_0000) / TWO64);
    w
  }

  /** The `n` low bytes of `v`, least significant first. */
  function Bytes(v: nat, n: nat): (bs: seq<byte>)
    ensures |bs| == n
  {
    if n == 0 then [] else [v % 256] + Bytes(v / 256, n - 1)
  }

  /** The number a little-endian byte string denotes. */
  function Number(bs: seq<byte>): (v: nat)
  {
    if bs == [] then 0 else bs[0] + 256 * Number(bs[1..])
  }

  function Pow256(n: nat): (p: nat)
    ensures p > 0
  {
    if n == 0 then 1 else 256 * Pow256(n - 1)
  }

  lemma {:induction false} NumberOfBytes(v: nat, n: nat)
    requires v < Pow256(n)
    ensures Number(Bytes(v, n)) == v
  {
    if n > 0 {
      assert v / 256 < Pow256(n - 1);
      NumberOfBytes(v / 256, n - 1);
      assert Bytes(v, n)[1..] == Bytes(v / 256, n - 1);
    }
  }

  function Bytes32(v: int): (bs: seq<byte>)
    ensures |bs| == 4
  {
    Bytes(v % TWO32, 4)
  }

  function Bytes64(v: int): (bs: seq<byte>)
    ensures |bs| == 8
  {
    Bytes(v % TWO64, 8)
  }

  lemma FourBytes()
    ensures Pow256(4) == TWO32
  {
    assert Pow256(1) == 256;
    assert Pow256(2) == 0x1_0000;
    assert Pow256(3) == 0x100_0000;
  }

  lemma SameResidue(v: int)
    ensures Wrap32(v % TWO32) == Wrap32(v)
  {
    assert v == v % TWO32 + TWO32 * (v / TWO32);
  }

  /** Storing a word and loading it back gives the value the register held, sign included. */
  lemma Word32RoundTrip(v: int)
    ensures Wrap32(Number(Bytes32(v))) == Wrap32(v)
  {
    FourBytes();
    NumberOfBytes(v % TWO32, 4);
    SameResidue(v);
  }

  lemma Word64RoundTrip(v: int64)
    ensures Wrap64(Number(Bytes64(v))) == v
  {
    assert Pow256(8) == TWO64 by {
      assert Pow256(2) == 0x1_0000;
      assert Pow256(4) == 0x1_0000_0000;
      assert Pow256(6) == 0x1_0000_0000_0000;
    }
    NumberOfBytes(v % TWO64, 8);
  }

  /** `mem` with the bytes `bs` written at `at`. */
  function Splice(mem: seq<byte>, at: nat, bs: seq<byte>): (m: seq<byte>)
    requires at + |bs| <= |mem|
    ensures |m| == |mem|
  {
    mem[..at] + bs + mem[at + |bs|..]
  }

  /** The difference of two instants, taken on their low 32 bits: exact as long as the instants are
      less than 2^31 ticks apart, however often the counter has wrapped. */
  function WrappedGap(later: int, earlier: int): int32 { Wrap32(Wrap32(later) - earlier) }

  lemma WrappedGapIsExact(later: int, earlier: int)
    requires -0x8000_0000 <= later - earlier < 0x8000_0000
    ensures WrappedGap(later, earlier) == later - earlier
  {
    var k := (later - Wrap32(later)) / TWO32;
    assert Wrap32(later) == later - TWO32 * k;
    assert (later - earlier - TWO32 * k + 0x8000_0000) % TWO32 == later - earlier + 0x8000_0000;
  }
}
