/** What files contain, as byte sequences, and how block-level changes look from there. */
module FsContents {
  import opened Blocks
  import opened FsState

  const MAXBYTES: nat := MAXFILE * BSIZE

  function SlotOf(i: nat, bn: nat): (s: Slot)
  {
    if bn < NDIRECT then Direct(i, bn) else Entry(i, bn - NDIRECT)
  }

  /** The block that holds block `bn` of file i; 0 for a hole. */
  ghost function BlockOf(v: Fs, i: nat, bn: nat): (b: nat)
    requires i < |v.ips| && |v.ips[i].addrs| == NDIRECT + 1 && bn < MAXFILE
  {
    Ref(v, SlotOf(i, bn))
  }

  /** The byte at offset k of file i, whether or not k is below its size. A hole reads as zero. */
  ghost function FileByte(v: Fs, i: nat, k: nat): (x: Byte)
    requires i < |v.ips| && |v.ips[i].addrs| == NDIRECT + 1 && k < MAXBYTES
  {
    var b := BlockOf(v, i, k / BSIZE);
    if 0 < b < |v.d| then v.d[b].bytes[k % BSIZE] else 0
  }

  ghost predicate Sizes(v: Fs)
  {
    forall i :: 0 <= i < |v.ips| ==> |v.ips[i].addrs| == NDIRECT + 1 && v.ips[i].size <= MAXBYTES
  }

  ghost function Content(v: Fs, i: nat): (s: seq<Byte>)
    requires Sizes(v) && i < |v.ips|
  {
    seq(v.ips[i].size, k requires 0 <= k < v.ips[i].size => FileByte(v, i, k))
  }

  /** Every block of file i below its size is mapped. */
  ghost predicate NoHoles(v: Fs, i: nat)
    requires i < |v.ips| && |v.ips[i].addrs| == NDIRECT + 1
  {
    forall bn :: 0 <= bn < MAXFILE && bn * BSIZE < v.ips[i].size ==> BlockOf(v, i, bn) != 0
  }

  /** No byte of any file differs, and no inode but for its block addresses. */
  ghost predicate SameFiles(v: Fs, v': Fs)
  {
    && |v'.ips| == |v.ips|
    && (forall i :: 0 <= i < |v.ips| ==> |v.ips[i].addrs| == |v'.ips[i].addrs| == NDIRECT + 1)
    && (forall i :: 0 <= i < |v.ips| ==> v'.ips[i] == v.ips[i].(addrs := v'.ips[i].addrs))
    && (forall i: nat, k: nat :: i < |v.ips| && k < MAXBYTES ==> FileByte(v', i, k) == FileByte(v, i, k))
  }

  lemma SameFilesTransitive(v: Fs, v1: Fs, v2: Fs)
    requires SameFiles(v, v1) && SameFiles(v1, v2)
    ensures SameFiles(v, v2)
  {
    hide FileByte;
    forall i: nat, k: nat | i < |v.ips| && k < MAXBYTES
      ensures FileByte(v2, i, k) == FileByte(v, i, k)
    {
      assert FileByte(v1, i, k) == FileByte(v, i, k);
    }
  }

  /** Changing a block that no slot refers to. */
  lemma UnreferencedWrite(l: Layout, v: Fs, b: nat, x: Block)
    requires LayoutOk(l, v) && Owned(l, v) && 0 < b < |v.d| && b !in v.owner
    ensures SameFiles(v, v.(d := v.d[b := x]))
  {
    var v' := v.(d := v.d[b := x]);
    IndirectOwned(l, v, b);
    forall i: nat, k: nat | i < |v.ips| && k < MAXBYTES
      ensures FileByte(v', i, k) == FileByte(v, i, k)
    {
      var s := SlotOf(i, k / BSIZE);
      RefSame(v, b, x, s);
      assert Ref(v, s) != b;
    }
  }

  /** Giving a reference to a zeroed block: a hole that read as zero still does. */
  lemma AttachSameFiles(l: Layout, v: Fs, v': Fs, t: Slot, b: nat)
    requires LayoutOk(l, v) && LayoutOk(l, v') && Owned(l, v) && Attached(v, v', t, b) && 0 < b < |v.d| == |v'.d|
    requires v.d[b] == v'.d[b] == ZeroBlock()
    requires forall x :: x in v.owner && !v.owner[x].Indirect? ==> x < |v.d| && v'.d[x] == v.d[x]
    requires |v'.ips| == |v.ips| && forall i :: 0 <= i < |v.ips| ==> v'.ips[i] == v.ips[i].(addrs := v'.ips[i].addrs)
    ensures SameFiles(v, v')
  {
    hide Ref;
    forall i: nat, k: nat | i < |v.ips| && k < MAXBYTES
      ensures FileByte(v', i, k) == FileByte(v, i, k)
    {
      var s := SlotOf(i, k / BSIZE);
      assert IsSlot(v, s);
      if s != t {
        assert Ref(v', s) == Ref(v, s);
        assert Ref(v, s) == 0 || v.owner[Ref(v, s)] == s;
      }
    }
  }

  /** Writing block `bn` of file i changes those bytes of that file and nothing else. */
  lemma DataWrite(l: Layout, v: Fs, i: nat, bn: nat, x: Block, m: nat, k: nat)
    requires LayoutOk(l, v) && Owned(l, v) && i < |v.ips| && bn < MAXFILE && 0 < BlockOf(v, i, bn) < |v.d|
    requires m < |v.ips| && k < MAXBYTES
    ensures var v' := v.(d := v.d[BlockOf(v, i, bn) := x]);
            FileByte(v', m, k) == if m == i && k / BSIZE == bn then x.bytes[k % BSIZE] else FileByte(v, m, k)
  {
    var b, s, t := BlockOf(v, i, bn), SlotOf(m, k / BSIZE), SlotOf(i, bn);
    assert IsSlot(v, t) && v.owner[b] == t;
    DataNotIndirectOwned(l, v, b);
    RefSame(v, b, x, s);
    hide Ref;
    assert IsSlot(v, s);
    assert Ref(v, s) == b ==> s == t;
    assert s == t ==> m == i && k / BSIZE == bn;
  }

  lemma DataNotIndirectOwned(l: Layout, v: Fs, b: nat)
    requires LayoutOk(l, v) && Owned(l, v) && b in v.owner && !v.owner[b].Indirect?
    ensures NotIndirect(v, b)
  {
    forall i | 0 <= i < |v.ips| && |v.ips[i].addrs| == NDIRECT + 1
      ensures v.ips[i].addrs[NDIRECT] != b
    {
      assert IsSlot(v, Indirect(i));
      assert Ref(v, Indirect(i)) == v.ips[i].addrs[NDIRECT];
    }
  }

  /** References are only added. */
  ghost predicate Grows(v: Fs, v': Fs)
  {
    forall s: Slot :: IsSlot(v, s) ==> IsSlot(v', s) && (Ref(v, s) == 0 || Ref(v', s) == Ref(v, s))
  }

  lemma GrowsTransitive(v: Fs, v1: Fs, v2: Fs)
    requires Grows(v, v1) && Grows(v1, v2)
    ensures Grows(v, v2)
  {
    hide Ref, IsSlot;
    forall s: Slot | IsSlot(v, s)
      ensures IsSlot(v2, s) && (Ref(v, s) == 0 || Ref(v2, s) == Ref(v, s))
    {
      assert IsSlot(v1, s);
    }
  }
}
