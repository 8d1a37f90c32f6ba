/** Disk blocks: `BSIZE` bytes, read either bytewise or as little-endian 32-bit words.

    Everything the file system keeps on disk other than file bytes (the log header, the
    indirect blocks, the on-disk inodes) is an array of 32-bit words, so the one law that
    those users need is that a word store is seen by a word load at the same index and at
    no other.
 */
module Blocks {
  const BSIZE := 1024
  const NWORDS := 256
  const WORD_LIMIT := 0x1_0000_0000

  type Byte = x: int | 0 <= x < 256
  type Bytes = s: seq<Byte> | |s| == BSIZE witness seq(BSIZE, _ => 0)
  datatype Block = Block(bytes: Bytes)
  type Word32 = x: int | 0 <= x < WORD_LIMIT

  function ZeroBlock(): (b: Block)
  {
    Block(seq(BSIZE, _ => 0))
  }

  function Word(b: Block, i: nat): (w: Word32)
    requires i < NWORDS
  {
    (b.bytes[4 * i] as int) + 0x100 * (b.bytes[4 * i + 1] as int)
      + 0x1_0000 * (b.bytes[4 * i + 2] as int) + 0x100_0000 * (b.bytes[4 * i + 3] as int)
  }

  function SetWord(b: Block, i: nat, w: Word32): (r: Block)
    requires i < NWORDS
  {
    Block(b.bytes[4 * i := w % 0x100]
                 [4 * i + 1 := w / 0x100 % 0x100]
                 [4 * i + 2 := w / 0x1_0000 % 0x100]
                 [4 * i + 3 := w / 0x100_0000])
  }

  /** Load after store, for every pair of indices. */
  lemma WordOfSetWord(b: Block, i: nat, w: Word32, j: nat)
    requires i < NWORDS && j < NWORDS
    ensures Word(SetWord(b, i, w), j) == if i == j then w else Word(b, j)
  {
    if i == j {
      Recompose(w);
    }
  }

  lemma Recompose(w: Word32)
    ensures w == w % 0x100 + 0x100 * (w / 0x100 % 0x100) + 0x1_0000 * (w / 0x1_0000 % 0x100)
                 + 0x100_0000 * (w / 0x100_0000)
  {
    assert w / 0x1_0000 == w / 0x100 / 0x100;
    assert w / 0x100_0000 == w / 0x1_0000 / 0x100;
  }

  lemma ZeroWord(i: nat)
    requires i < NWORDS
    ensures Word(ZeroBlock(), i) == 0
  {
  }
}
