/** The on-disk inode: sixteen 32-bit words, sixteen inodes to a block. */
module Inodes {
  import opened Blocks
  import opened FsState

  const HALF: nat := 0x1_0000

  /** Every field fits its place in struct dinode. */
  ghost predicate Fits(ip: Inode)
  {
    && ip.kind < HALF && ip.major < HALF && ip.minor < HALF && ip.nlink < HALF && ip.size < WORD_LIMIT
    && |ip.addrs| == NDIRECT + 1 && forall k :: 0 <= k < |ip.addrs| ==> ip.addrs[k] < WORD_LIMIT
  }

  function InodeWord(ip: Inode, m: nat): (w: nat)
    requires |ip.addrs| == NDIRECT + 1 && m < IPB
    ensures Fits(ip) ==> w < WORD_LIMIT
  {
    if m == 0 then ip.kind + HALF * ip.major
    else if m == 1 then ip.minor + HALF * ip.nlink
    else if m == 2 then ip.size
    else ip.addrs[m - 3]
  }

  /** The first k words of inode `slot` of a block, stored. */
  function PutWords(b: Block, slot: nat, ip: Inode, k: nat): (r: Block)
    requires slot < IPB && k <= IPB && Fits(ip)
  {
    if k == 0 then b
    else SetWord(PutWords(b, slot, ip, k - 1), IPB * slot + k - 1, InodeWord(ip, k - 1))
  }

  function PutInode(b: Block, slot: nat, ip: Inode): (r: Block)
    requires slot < IPB && Fits(ip)
  {
    PutWords(b, slot, ip, IPB)
  }

  function GetAddr(b: Block, slot: nat, k: nat): (a: nat)
    requires slot < IPB && k <= NDIRECT
  {
    Word(b, IPB * slot + 3 + k)
  }

  function GetAddrs(b: Block, slot: nat): (addrs: seq<nat>)
    requires slot < IPB
    ensures |addrs| == NDIRECT + 1
  {
    seq(NDIRECT + 1, k requires 0 <= k <= NDIRECT => GetAddr(b, slot, k))
  }

  function GetInode(b: Block, slot: nat): (ip: Inode)
    requires slot < IPB
  {
    var w0, w1 := Word(b, IPB * slot), Word(b, IPB * slot + 1);
    Inode(w0 % HALF, w0 / HALF, w1 % HALF, w1 / HALF, Word(b, IPB * slot + 2),
          GetAddrs(b, slot))
  }

  lemma {:induction false} WordOfPutWords(b: Block, slot: nat, ip: Inode, k: nat, w: nat)
    requires slot < IPB && k <= IPB && Fits(ip) && w < NWORDS
    ensures Word(PutWords(b, slot, ip, k), w) ==
              if IPB * slot <= w < IPB * slot + k then InodeWord(ip, w - IPB * slot) else Word(b, w)
  {
    hide Word, SetWord, InodeWord;
    if k > 0 {
      WordOfPutWords(b, slot, ip, k - 1, w);
      WordOfSetWord(PutWords(b, slot, ip, k - 1), IPB * slot + k - 1, InodeWord(ip, k - 1), w);
    }
  }

  /** What iupdate stores, ilock loads; and the other inodes of the block are left alone. */
  lemma InodeRoundTrip(b: Block, slot: nat, ip: Inode, other: nat)
    requires slot < IPB && other < IPB && Fits(ip)
    ensures GetInode(PutInode(b, slot, ip), other) == if other == slot then ip else GetInode(b, other)
  {
    hide Word, PutWords;
    var r := PutInode(b, slot, ip);
    WordOfPutWords(b, slot, ip, IPB, IPB * other);
    WordOfPutWords(b, slot, ip, IPB, IPB * other + 1);
    WordOfPutWords(b, slot, ip, IPB, IPB * other + 2);
    var want := if other == slot then ip.addrs else GetAddrs(b, other);
    forall k | 0 <= k < NDIRECT + 1
      ensures GetAddrs(r, other)[k] == want[k]
    {
      WordOfPutWords(b, slot, ip, IPB, IPB * other + 3 + k);
    }
    assert GetAddrs(r, other) == want;
  }
}
