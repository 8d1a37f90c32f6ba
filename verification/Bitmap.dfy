/** One bit per block: the free bitmap of fs.c, inside a disk block. */
module Bitmap {
  import opened Blocks

  const BPB: nat := 8192

  function Pow2(w: nat): (r: nat)
    ensures r > 0
  {
    if w == 0 then 1 else 2 * Pow2(w - 1)
  }

  /** Bit k of x: (x & (1 << k)) != 0. */
  predicate Has(x: nat, k: nat)
  {
    if k == 0 then x % 2 == 1 else Has(x / 2, k - 1)
  }

  /** x with bit k set or cleared: x | (1 << k) and x & ~(1 << k). */
  function Put(x: nat, k: nat, on: bool, w: nat): (r: nat)
    requires k < w && x < Pow2(w)
    ensures r < Pow2(w)
  {
    if k == 0 then 2 * (x / 2) + (if on then 1 else 0)
    else 2 * Put(x / 2, k - 1, on, w - 1) + x % 2
  }

  lemma {:induction false} HasPut(x: nat, k: nat, on: bool, w: nat, j: nat)
    requires k < w && x < Pow2(w)
    ensures Has(Put(x, k, on, w), j) <==> if j == k then on else Has(x, j)
  {
    var r := Put(x, k, on, w);
    if k == 0 {
      assert r / 2 == x / 2;
    } else {
      assert r / 2 == Put(x / 2, k - 1, on, w - 1);
      if j > 0 {
        HasPut(x / 2, k - 1, on, w - 1, j - 1);
      }
    }
  }

  lemma ByteWidth()
    ensures Pow2(8) == 256
  {
  }

  predicate Bit(b: Block, i: nat)
    requires i < BPB
  {
    Has(b.bytes[i / 8], i % 8)
  }

  function SetBit(b: Block, i: nat, on: bool): (r: Block)
    requires i < BPB
  {
    ByteWidth();
    Block(b.bytes[i / 8 := Put(b.bytes[i / 8], i % 8, on, 8)])
  }

  /** Changing one bit changes no other. */
  lemma BitOfSetBit(b: Block, i: nat, on: bool, j: nat)
    requires i < BPB && j < BPB
    ensures Bit(SetBit(b, i, on), j) <==> if i == j then on else Bit(b, j)
  {
    ByteWidth();
    if i / 8 == j / 8 {
      HasPut(b.bytes[i / 8], i % 8, on, 8, j % 8);
      assert i % 8 == j % 8 ==> i == j;
    }
  }
}
