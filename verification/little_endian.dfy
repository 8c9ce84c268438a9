/** Fixed-width unsigned integers, least significant byte first. */
module LittleEndian {
  import opened SolanaCodec

  type u32 = n: int | 0 <= n < 0x1_0000_0000
  type u64 = n: int | 0 <= n < 0x1_0000_0000_0000_0000

  const MAX_U64: u64 := 0xFFFF_FFFF_FFFF_FFFF

  function Pow256(width: nat): (r: nat)
    ensures r > 0
  {
    if width == 0 then 1 else 256 * Pow256(width - 1)
  }

  function LE(n: nat, width: nat): (r: Bytes)
    ensures |r| == width
  {
    if width == 0 then [] else [n % 256] + LE(n / 256, width - 1)
  }

  function FromLE(b: Bytes): nat {
    if b == [] then 0 else b[0] + 256 * FromLE(b[1..])
  }

  lemma {:induction false} ReadBack(n: nat, width: nat)
    requires n < Pow256(width)
    ensures FromLE(LE(n, width)) == n
  {
    if width == 0 {
    } else {
      ReadBack(n / 256, width - 1);
      assert LE(n, width)[1..] == LE(n / 256, width - 1);
    }
  }

  lemma Widths()
    ensures Pow256(4) == 0x1_0000_0000 && Pow256(8) == 0x1_0000_0000_0000_0000
  {
    assert Pow256(2) == 0x1_0000;
    assert Pow256(4) == 256 * (256 * Pow256(2));
    assert Pow256(6) == 256 * (256 * Pow256(4));
    assert Pow256(8) == 256 * (256 * Pow256(6));
  }

  function U32(n: u32): (r: Bytes)
    ensures |r| == 4
  {
    LE(n, 4)
  }

  function U64(n: u64): (r: Bytes)
    ensures |r| == 8
  {
    LE(n, 8)
  }

  lemma U32ReadsBack(n: u32)
    ensures FromLE(U32(n)) == n
  {
    Widths();
    ReadBack(n, 4);
  }

  lemma U64ReadsBack(n: u64)
    ensures FromLE(U64(n)) == n
  {
    Widths();
    ReadBack(n, 8);
  }
}
