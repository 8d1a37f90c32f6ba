/** fs.c: block allocation, inode block maps, truncation, reading and writing, as methods on a disk
    seen through the cache and log. `logged` collects the blocks passed to log_write. */
module FileSystem {
  import opened Blocks
  import opened Bitmap
  import opened Collections
  import opened FsState
  import opened FsContents
  import opened FileData
  import opened Inodes

  /** balloc's result: the block is marked in the bitmap and zeroed. */
  ghost function Allocated(l: Layout, v: Fs, b: nat): (r: Fs)
    requires BBlock(l, b) < |v.d| && b < |v.d|
  {
    var w := BitPut(l, v, b, true);
    w.(d := w.d[b := ZeroBlock()])
  }

  lemma AllocateKeeps(l: Layout, v: Fs, float: set<nat>, b: nat)
    requires Inv(l, v, float, {}) && b < l.size && !Used(l, v.d, b)
    ensures Inv(l, Allocated(l, v, b), float + {b}, {}) && Allocated(l, v, b).d[b] == ZeroBlock()
    ensures SameFiles(v, Allocated(l, v, b))
    ensures b !in float && b !in v.owner && 0 < l.datastart <= b
  {
    hide Owned, Mapped, SameFiles;
    var w := BitPut(l, v, b, true);
    MarkKeeps(l, v, float, b);
    UnownedMeta(l, v, float, BBlock(l, b));
    UnreferencedWrite(l, v, BBlock(l, b), SetBit(v.d[BBlock(l, b)], b % BPB, true));
    FloatNotIndirect(l, w, float + {b}, {}, b);
    WriteKeeps(l, w, float + {b}, {}, b, ZeroBlock());
    UnreferencedWrite(l, w, b, ZeroBlock());
    SameFilesTransitive(v, w, Allocated(l, v, b));
  }

  lemma UnownedMeta(l: Layout, v: Fs, float: set<nat>, b: nat)
    requires Inv(l, v, float, {}) && b < l.datastart
    ensures b !in v.owner
  {
  }

  lemma UsedIndex(l: Layout, v: Fs, base: nat, bi: nat)
    requires base % BPB == 0 && bi < BPB && BBlock(l, base + bi) < |v.d|
    ensures BBlock(l, base + bi) == BBlock(l, base) && (base + bi) % BPB == bi
  {
  }

  lemma AllocatedRefs(l: Layout, v: Fs, float: set<nat>, b: nat, s: Slot)
    requires Inv(l, v, float, {}) && b < l.size && !Used(l, v.d, b) && IsSlot(v, s)
    ensures IsSlot(Allocated(l, v, b), s) && Ref(Allocated(l, v, b), s) == Ref(v, s)
  {
    hide Owned, Mapped, Ref;
    MarkKeeps(l, v, float, b);
    var w := BitPut(l, v, b, true);
    IndirectOwned(l, v, BBlock(l, b));
    RefSame(v, BBlock(l, b), SetBit(v.d[BBlock(l, b)], b % BPB, true), s);
    FloatNotIndirect(l, w, float + {b}, {}, b);
    RefSame(w, b, ZeroBlock(), s);
  }

  lemma AttachGrows(v: Fs, v': Fs, t: Slot, b: nat)
    requires Attached(v, v', t, b)
    ensures Grows(v, v')
  {
    hide Ref, IsSlot;
  }

  lemma AllocatedGrows(l: Layout, v: Fs, b: nat)
    requires Inv(l, v, {}, {}) && b < l.size && !Used(l, v.d, b)
    ensures Grows(v, Allocated(l, v, b))
  {
    hide Owned, Mapped, Allocated, Ref;
    forall s: Slot | IsSlot(v, s)
      ensures IsSlot(Allocated(l, v, b), s) && (Ref(v, s) == 0 || Ref(Allocated(l, v, b), s) == Ref(v, s))
    {
      AllocatedRefs(l, v, {}, b, s);
    }
  }

  /** A direct slot filled with a fresh block. */
  ghost function NewDirect(l: Layout, v: Fs, i: nat, k: nat, b: nat): (r: Fs)
    requires BBlock(l, b) < |v.d| && b < |v.d| && i < |v.ips| && k < |v.ips[i].addrs|
  {
    AttachDirect(Allocated(l, v, b), i, k, b)
  }

  ghost function NewIndirect(l: Layout, v: Fs, i: nat, b: nat): (r: Fs)
    requires BBlock(l, b) < |v.d| && b < |v.d| && i < |v.ips| && |v.ips[i].addrs| == NDIRECT + 1
  {
    AttachIndirect(Allocated(l, v, b), i, b)
  }

  ghost function NewEntry(l: Layout, v: Fs, i: nat, j: nat, b: nat): (r: Fs)
    requires BBlock(l, b) < |v.d| && b < |v.d| <= WORD_LIMIT && i < |v.ips| && |v.ips[i].addrs| == NDIRECT + 1
    requires v.ips[i].addrs[NDIRECT] < |v.d| && j < NINDIRECT
  {
    AttachEntry(Allocated(l, v, b), i, j, b)
  }

  /** What bmap may do to the file system when it fills slot `t` with block `b`. */
  ghost predicate Filled(l: Layout, v: Fs, v': Fs, t: Slot, b: nat)
  {
    && Inv(l, v', {}, {}) && SameFiles(v, v') && Grows(v, v')
    && IsSlot(v', t) && Ref(v', t) == b && b != 0
    && (forall s: Slot :: IsSlot(v', s) && s != t && IsSlot(v, s) ==> Ref(v', s) == Ref(v, s))
  }

  lemma FillDirect(l: Layout, v: Fs, i: nat, k: nat, b: nat)
    requires Inv(l, v, {}, {}) && b < l.size && !Used(l, v.d, b) && i < |v.ips| && k < NDIRECT && v.ips[i].addrs[k] == 0
    ensures Filled(l, v, NewDirect(l, v, i, k, b), Direct(i, k), b)
  {
    hide Owned, Mapped, SameFiles, Ref, Attached, Used;
    var w, v' := Allocated(l, v, b), NewDirect(l, v, i, k, b);
    SingletonFloat(b);
    AllocateKeeps(l, v, {}, b);
    AllocatedFields(l, v, b);
    AttachDirectKeeps(l, w, {b}, i, k, b);
    OwnersFit(l, w);
    AttachSameFiles(l, w, v', Direct(i, k), b);
    Assemble(l, v, w, v', Direct(i, k), b);
  }

  lemma OwnersFit(l: Layout, v: Fs)
    requires LayoutOk(l, v) && Owned(l, v)
    ensures forall x :: x in v.owner ==> 0 < l.datastart <= x < l.size <= |v.d|
  {
  }

  lemma SingletonFloat(b: nat)
    ensures {} + {b} == {b} && {b} - {b} == {}
  {
  }

  lemma Assemble(l: Layout, v: Fs, w: Fs, v': Fs, t: Slot, b: nat)
    requires Inv(l, v, {}, {}) && b < l.size && !Used(l, v.d, b) && w == Allocated(l, v, b)
    requires Inv(l, v', {}, {}) && SameFiles(v, w) && SameFiles(w, v') && Attached(w, v', t, b)
    ensures Filled(l, v, v', t, b)
  {
    hide Inv, SameFiles, Ref, Allocated, IsSlot;
    SameFilesTransitive(v, w, v');
    AllocatedGrows(l, v, b);
    AttachGrows(w, v', t, b);
    GrowsTransitive(v, w, v');
    forall s: Slot | IsSlot(v', s) && s != t && IsSlot(v, s)
      ensures Ref(v', s) == Ref(v, s)
    {
      AllocatedRefs(l, v, {}, b, s);
    }
  }

  lemma FillIndirect(l: Layout, v: Fs, i: nat, b: nat)
    requires Inv(l, v, {}, {}) && b < l.size && !Used(l, v.d, b) && i < |v.ips| && v.ips[i].addrs[NDIRECT] == 0
    ensures Filled(l, v, NewIndirect(l, v, i, b), Indirect(i), b)
  {
    hide Owned, Mapped, SameFiles, Ref, Attached, Used;
    var w, v' := Allocated(l, v, b), NewIndirect(l, v, i, b);
    SingletonFloat(b);
    AllocateKeeps(l, v, {}, b);
    AllocatedFields(l, v, b);
    AttachIndirectKeeps(l, w, {b}, i, b);
    OwnersFit(l, w);
    AttachSameFiles(l, w, v', Indirect(i), b);
    Assemble(l, v, w, v', Indirect(i), b);
  }

  lemma FillEntry(l: Layout, v: Fs, i: nat, j: nat, b: nat)
    requires Inv(l, v, {}, {}) && b < l.size && !Used(l, v.d, b) && i < |v.ips| && j < NINDIRECT
    requires 0 < v.ips[i].addrs[NDIRECT] < |v.d| && Word(v.d[v.ips[i].addrs[NDIRECT]], j) == 0
    ensures Filled(l, v, NewEntry(l, v, i, j, b), Entry(i, j), b)
  {
    hide Owned, Mapped, SameFiles, Attached, Used, Word, SetWord;
    var w, v' := Allocated(l, v, b), NewEntry(l, v, i, j, b);
    var a := v.ips[i].addrs[NDIRECT];
    SingletonFloat(b);
    AllocateKeeps(l, v, {}, b);
    AllocatedFields(l, v, b);
    AllocatedRefs(l, v, {}, b, Entry(i, j));
    AttachEntryKeeps(l, w, {b}, i, j, b);
    IndirectOwner(l, w, i);
    AttachSameFiles(l, w, v', Entry(i, j), b);
    Assemble(l, v, w, v', Entry(i, j), b);
  }

  lemma IndirectOwner(l: Layout, v: Fs, i: nat)
    requires LayoutOk(l, v) && Owned(l, v) && i < |v.ips| && v.ips[i].addrs[NDIRECT] > 0
    ensures var a := v.ips[i].addrs[NDIRECT]; a in v.owner && v.owner[a] == Indirect(i) && l.datastart <= a < l.size
    ensures forall x :: x in v.owner ==> x < |v.d|
  {
    assert IsSlot(v, Indirect(i)) && Ref(v, Indirect(i)) == v.ips[i].addrs[NDIRECT];
  }

  // ---- iupdate ----

  ghost function InodeStored(l: Layout, v: Fs, i: nat): (r: Fs)
    requires i < |v.ips| && Fits(v.ips[i]) && IBlock(l, i) < |v.d|
  {
    v.(d := v.d[IBlock(l, i) := PutInode(v.d[IBlock(l, i)], i % IPB, v.ips[i])])
  }

  /** The copy of inode i on disk is up to date. */
  ghost predicate OnDisk(l: Layout, v: Fs, i: nat)
    requires i < |v.ips| && IBlock(l, i) < |v.d|
  {
    GetInode(v.d[IBlock(l, i)], i % IPB) == v.ips[i]
  }

  /** Every inode on disk is up to date. */
  ghost predicate InodesOnDisk(l: Layout, v: Fs)
  {
    forall m :: 0 <= m < |v.ips| ==> IBlock(l, m) < |v.d| && OnDisk(l, v, m)
  }

  lemma OthersTruncated(l: Layout, v0: Fs, v: Fs, i: nat)
    requires Truncating(l, v0, v, i, BlocksOf(v0, i))
    ensures i < |v.ips| == |v0.ips| && forall m :: 0 <= m < |v.ips| && m != i ==> v.ips[m] == v0.ips[m]
  {
    hide BlocksOf;
  }

  lemma WrittenOnDisk(l: Layout, v0: Fs, v: Fs, i: nat, off: nat, data: seq<Byte>, tot: nat)
    requires Inv(l, v0, {}, {}) && Inv(l, v, {}, {}) && i < |v.ips| && Fits(v.ips[i]) && IBlock(l, i) < |v.d|
    requires Wrote(v0, InodeStored(l, v, i), i, off, data, tot) && v.d[..l.bmapstart] == v0.d[..l.bmapstart]
    ensures InodesOnDisk(l, v0) ==> InodesOnDisk(l, InodeStored(l, v, i))
  {
    hide Owned, Mapped, FileByte, PutInode, OnDisk;
    if InodesOnDisk(l, v0) {
      OthersOnDisk(l, v0, v, i);
    }
  }

  /** Storing inode i is enough when nothing else has changed among the inodes and their blocks. */
  lemma OthersOnDisk(l: Layout, v0: Fs, v: Fs, i: nat)
    requires Inv(l, v0, {}, {}) && Inv(l, v, {}, {}) && i < |v.ips| == |v0.ips| && Fits(v.ips[i]) && InodesOnDisk(l, v0)
    requires v.d[..l.bmapstart] == v0.d[..l.bmapstart]
        && forall m :: 0 <= m < |v.ips| && m != i ==> v.ips[m] == v0.ips[m]
    ensures IBlock(l, i) < |v.d| && InodesOnDisk(l, InodeStored(l, v, i))
  {
    hide Owned, Mapped, SameFiles, Ref, GetInode, PutInode;
    StoreInodeKeeps(l, v, i);
    forall m | 0 <= m < |v.ips| && m != i
      ensures IBlock(l, m) < |v.d| && OnDisk(l, v, m)
    {
      assert v.d[..l.bmapstart][IBlock(l, m)] == v0.d[..l.bmapstart][IBlock(l, m)];
    }
  }

  lemma DataBlock(l: Layout, v: Fs, i: nat, bn: nat)
    requires Inv(l, v, {}, {}) && i < |v.ips| && bn < MAXFILE && BlockOf(v, i, bn) != 0
    ensures l.inodestart <= l.bmapstart <= BlockOf(v, i, bn) < |v.d|
  {
    hide Ref, Mapped;
    FoundOwned(l, v, i, bn);
  }

  lemma PrefixKept(d: seq<Block>, b: nat, x: Block, n: nat)
    requires n <= b < |d|
    ensures d[b := x][..n] == d[..n]
  {
  }

  lemma StoreInodeKeeps(l: Layout, v: Fs, i: nat)
    requires Inv(l, v, {}, {}) && i < |v.ips| && Fits(v.ips[i])
    ensures 0 < IBlock(l, i) < |v.d| && Inv(l, InodeStored(l, v, i), {}, {}) && SameFiles(v, InodeStored(l, v, i))
    ensures OnDisk(l, InodeStored(l, v, i), i)
    ensures forall m :: 0 <= m < |v.ips| && IBlock(l, m) < |v.d| && OnDisk(l, v, m) ==>
        OnDisk(l, InodeStored(l, v, i), m)
    ensures forall s: Slot :: IsSlot(v, s) ==>
        IsSlot(InodeStored(l, v, i), s) && Ref(InodeStored(l, v, i), s) == Ref(v, s)
  {
    hide Owned, Mapped, SameFiles, Ref, GetInode, PutInode;
    var ib, x := IBlock(l, i), PutInode(v.d[IBlock(l, i)], i % IPB, v.ips[i]);
    UnownedMeta(l, v, {}, ib);
    IndirectOwned(l, v, ib);
    WriteKeeps(l, v, {}, {}, ib, x);
    UnreferencedWrite(l, v, ib, x);
    InodeRoundTrip(v.d[ib], i % IPB, v.ips[i], i % IPB);
    forall m | 0 <= m < |v.ips| && IBlock(l, m) < |v.d| && OnDisk(l, v, m)
      ensures OnDisk(l, InodeStored(l, v, i), m)
    {
      InodeRoundTrip(v.d[ib], i % IPB, v.ips[i], m % IPB);
      assert m / IPB == i / IPB && m % IPB == i % IPB ==> m == i;
    }
    forall s: Slot | IsSlot(v, s)
      ensures IsSlot(InodeStored(l, v, i), s) && Ref(InodeStored(l, v, i), s) == Ref(v, s)
    {
      RefSame(v, ib, x, s);
    }
  }

  // ---- itrunc ----

  /** Truncation on its way: inode i has lost the blocks in `gone`, nothing else of any file changed. */
  ghost predicate Truncating(l: Layout, v0: Fs, v: Fs, i: nat, gone: set<nat>)
  {
    && |v.ips| == |v0.ips| && |v.d| == |v0.d| && i < |v.ips|
    && (forall m :: 0 <= m < |v.ips| && m != i ==> v.ips[m] == v0.ips[m])
    && v.ips[i] == v0.ips[i].(addrs := v.ips[i].addrs)
    && (forall b :: l.datastart <= b < |v.d| ==> v.d[b] == v0.d[b])
    && v.owner == v0.owner - gone
  }

  /** Blocks of inode i in its first k direct slots. */
  ghost function DirectBlocks(v: Fs, i: nat, k: nat): (r: set<nat>)
  {
    set b | b in v.owner && v.owner[b].Direct? && v.owner[b].inum == i && v.owner[b].k < k
  }

  ghost function EntryBlocks(v: Fs, i: nat, j: nat): (r: set<nat>)
  {
    set b | b in v.owner && v.owner[b].Entry? && v.owner[b].inum == i && v.owner[b].j < j
  }

  ghost function BlocksOf(v: Fs, i: nat): (r: set<nat>)
  {
    set b | b in v.owner && v.owner[b].inum == i
  }

  /** The bitmap blocks that hold the bits of some blocks. */
  ghost function MapBlocks(l: Layout, bs: set<nat>): (r: set<nat>)
  {
    set b | b in bs :: BBlock(l, b)
  }

  /** What a truncation logs fits one transaction when the freed blocks have their bits in few enough
      bitmap blocks, and always on a disk with that few. */
  lemma TruncationFits(l: Layout, v: Fs, i: nat, logged: set<nat>, budget: nat)
    requires logged <= MapBlocks(l, BlocksOf(v, i)) + {IBlock(l, i)}
    ensures |MapBlocks(l, BlocksOf(v, i))| < budget ==> |logged| <= budget
    ensures Owned(l, v) && budget > 0 && l.size <= (budget - 1) * BPB ==> |logged| <= budget
  {
    hide BlocksOf, Ref, IsSlot;
    var maps := MapBlocks(l, BlocksOf(v, i));
    SubsetCard(logged, maps + {IBlock(l, i)});
    if Owned(l, v) && budget > 0 && l.size <= (budget - 1) * BPB {
      FewMapBlocks(l, v, i, budget - 1);
    }
  }

  lemma FewMapBlocks(l: Layout, v: Fs, i: nat, n: nat)
    requires Owned(l, v) && l.size <= n * BPB
    ensures |MapBlocks(l, BlocksOf(v, i))| <= n
  {
    hide Ref, IsSlot;
    var maps, c := MapBlocks(l, BlocksOf(v, i)), l.bmapstart;
    var range := UpTo(c + n) - UpTo(c);
    forall x | x in maps
      ensures x in range
    {
      var b :| b in BlocksOf(v, i) && x == BBlock(l, b);
      assert b < l.size;
      assert b / BPB < n;
    }
    assert UpTo(c + n) == UpTo(c) + range;
    SubsetCard(maps, range);
  }

  lemma DirectMine(l: Layout, v0: Fs, v: Fs, i: nat, k: nat)
    requires Inv(l, v, {}, {}) && DirectDone(l, v0, v, i, k) && k < NDIRECT && v.ips[i].addrs[k] != 0
    ensures BBlock(l, v.ips[i].addrs[k]) in MapBlocks(l, BlocksOf(v0, i))
  {
    hide Mapped, DirectBlocks;
    assert IsSlot(v, Direct(i, k)) && Ref(v, Direct(i, k)) == v.ips[i].addrs[k];
    assert v.ips[i].addrs[k] in BlocksOf(v0, i);
  }

  lemma EntryMine(l: Layout, v1: Fs, v: Fs, i: nat, j: nat)
    requires EntriesDone(l, v1, v, i, j) && j < NINDIRECT && 0 < v.ips[i].addrs[NDIRECT] < |v.d|
    requires Word(v.d[v.ips[i].addrs[NDIRECT]], j) != 0
    ensures BBlock(l, Word(v.d[v.ips[i].addrs[NDIRECT]], j)) in MapBlocks(l, BlocksOf(v1, i))
  {
    hide Mapped, EntryBlocks, Word;
    var b: nat := Word(v.d[v.ips[i].addrs[NDIRECT]], j);
    assert IsSlot(v, Entry(i, j)) && Ref(v, Entry(i, j)) == b;
    assert b in BlocksOf(v1, i);
  }

  lemma IndirectMine(l: Layout, v0: Fs, v1: Fs, i: nat)
    requires Inv(l, v1, {}, {}) && DirectDone(l, v0, v1, i, NDIRECT) && v1.ips[i].addrs[NDIRECT] != 0
    ensures BBlock(l, v1.ips[i].addrs[NDIRECT]) in MapBlocks(l, BlocksOf(v0, i))
    ensures MapBlocks(l, BlocksOf(v1, i)) <= MapBlocks(l, BlocksOf(v0, i))
  {
    hide Mapped, DirectBlocks;
    assert IsSlot(v1, Indirect(i)) && Ref(v1, Indirect(i)) == v1.ips[i].addrs[NDIRECT];
    assert v1.ips[i].addrs[NDIRECT] in BlocksOf(v0, i);
    assert BlocksOf(v1, i) <= BlocksOf(v0, i);
  }

  lemma DirectStep(l: Layout, v: Fs, i: nat, k: nat)
    requires LayoutOk(l, v) && Owned(l, v) && i < |v.ips| && k < NDIRECT
    ensures var b := v.ips[i].addrs[k];
            DirectBlocks(v, i, k + 1) == DirectBlocks(v, i, k) + if b == 0 then {} else {b}
    ensures v.ips[i].addrs[k] != 0 ==> v.ips[i].addrs[k] in v.owner && v.owner[v.ips[i].addrs[k]] == Direct(i, k)
  {
    assert IsSlot(v, Direct(i, k)) && Ref(v, Direct(i, k)) == v.ips[i].addrs[k];
  }

  lemma EntryStep(l: Layout, v: Fs, i: nat, j: nat)
    requires LayoutOk(l, v) && Owned(l, v) && i < |v.ips| && j < NINDIRECT && 0 < v.ips[i].addrs[NDIRECT] < |v.d|
    ensures var b := Word(v.d[v.ips[i].addrs[NDIRECT]], j);
            EntryBlocks(v, i, j + 1) == EntryBlocks(v, i, j) + if b == 0 then {} else {b as nat}
    ensures var b := Word(v.d[v.ips[i].addrs[NDIRECT]], j);
            b != 0 ==>
                b in v.owner && v.owner[b] == Entry(i, j) && l.datastart <= b < l.size
                && b !in EntryBlocks(v, i, j)
  {
    assert IsSlot(v, Entry(i, j)) && Ref(v, Entry(i, j)) == Word(v.d[v.ips[i].addrs[NDIRECT]], j);
  }

  /** The first k direct slots of inode i have been freed. */
  ghost predicate DirectDone(l: Layout, v0: Fs, v: Fs, i: nat, k: nat)
  {
    && Truncating(l, v0, v, i, DirectBlocks(v0, i, k)) && |v.ips[i].addrs| == |v0.ips[i].addrs| == NDIRECT + 1
    && (forall m :: 0 <= m < k && m < NDIRECT ==> v.ips[i].addrs[m] == 0)
    && (forall m :: k <= m <= NDIRECT ==> v.ips[i].addrs[m] == v0.ips[i].addrs[m])
  }

  lemma FreeDirect(l: Layout, v0: Fs, v: Fs, i: nat, k: nat)
    requires LayoutOk(l, v0) && Owned(l, v0) && Inv(l, v, {}, {}) && DirectDone(l, v0, v, i, k) && k < NDIRECT
    requires v.ips[i].addrs[k] != 0
    ensures var b := v.ips[i].addrs[k];
            && b < l.size && BBlock(l, b) < |v.d| && Used(l, v.d, b)
            && Inv(l, DetachDirect(BitPut(l, v, b, false), i, k), {}, {})
            && DirectDone(l, v0, DetachDirect(BitPut(l, v, b, false), i, k), i, k + 1)
  {
    hide Mapped, Ref, Used, IsSlot;
    var b := v.ips[i].addrs[k];
    DirectStep(l, v0, i, k);
    DirectStep(l, v, i, k);
    UnmarkKeeps(l, v, {}, b);
    SingletonFloat(b);
    hide Owned;
    DetachDirectKeeps(l, BitPut(l, v, b, false), {b}, i, k);
    assert DirectBlocks(v0, i, k + 1) == DirectBlocks(v0, i, k) + {b};
  }

  lemma SkipDirect(l: Layout, v0: Fs, v: Fs, i: nat, k: nat)
    requires LayoutOk(l, v0) && Owned(l, v0) && DirectDone(l, v0, v, i, k) && k < NDIRECT && v.ips[i].addrs[k] == 0
    ensures DirectDone(l, v0, v, i, k + 1)
  {
    DirectStep(l, v0, i, k);
  }

  /** The direct slots are gone and the first j entries of the indirect block are marked free. */
  ghost predicate EntriesDone(l: Layout, v1: Fs, v: Fs, i: nat, j: nat)
  {
    && v == v1.(d := v.d) && |v.d| == |v1.d| && i < |v.ips|
    && (forall b :: l.datastart <= b < |v.d| ==> v.d[b] == v1.d[b])
    && Inv(l, v, {}, EntryBlocks(v1, i, j))
  }

  lemma FreeEntry(l: Layout, v1: Fs, v: Fs, i: nat, j: nat)
    requires LayoutOk(l, v1) && Owned(l, v1) && EntriesDone(l, v1, v, i, j) && j < NINDIRECT
    requires 0 < v.ips[i].addrs[NDIRECT] < |v.d| && Word(v.d[v.ips[i].addrs[NDIRECT]], j) != 0
    ensures var b := Word(v.d[v.ips[i].addrs[NDIRECT]], j);
            && b < l.size && BBlock(l, b) < |v.d| && Used(l, v.d, b)
            && EntriesDone(l, v1, BitPut(l, v, b, false), i, j + 1)
  {
    hide Owned, Mapped, Ref, Used, Word;
    IndirectOwner(l, v1, i);
    var b: nat := Word(v.d[v.ips[i].addrs[NDIRECT]], j);
    EntryStep(l, v1, i, j);
    UnmarkKeeps(l, v, EntryBlocks(v1, i, j), b);
  }

  lemma SkipEntry(l: Layout, v1: Fs, v: Fs, i: nat, j: nat)
    requires LayoutOk(l, v1) && Owned(l, v1) && EntriesDone(l, v1, v, i, j) && j < NINDIRECT
    requires 0 < v.ips[i].addrs[NDIRECT] < |v.d| && Word(v.d[v.ips[i].addrs[NDIRECT]], j) == 0
    ensures EntriesDone(l, v1, v, i, j + 1)
  {
    hide Owned, Mapped, Ref, Used, Word;
    IndirectOwner(l, v1, i);
    EntryStep(l, v1, i, j);
    assert EntryBlocks(v1, i, j + 1) == EntryBlocks(v1, i, j);
  }

  lemma FreeIndirect(l: Layout, v1: Fs, v: Fs, i: nat)
    requires LayoutOk(l, v1) && Owned(l, v1) && EntriesDone(l, v1, v, i, NINDIRECT) && v.ips[i].addrs[NDIRECT] != 0
    ensures var a := v.ips[i].addrs[NDIRECT];
            && a < l.size && BBlock(l, a) < |v.d| && Used(l, v.d, a)
            && Inv(l, DetachIndirect(BitPut(l, v, a, false), i), {}, {})
  {
    var a := v.ips[i].addrs[NDIRECT];
    IndirectOwner(l, v1, i);
    UnmarkKeeps(l, v, EntryBlocks(v1, i, NINDIRECT), a);
    AllBeyond(l, v1, i);
    hide Owned, Mapped, Ref, Used;
    var w := BitPut(l, v, a, false);
    assert Beyond(w, i) == EntryBlocks(v1, i, NINDIRECT) + {a};
    DetachIndirectKeeps(l, w, Beyond(w, i), i);
  }

  lemma AllBeyond(l: Layout, v: Fs, i: nat)
    requires LayoutOk(l, v) && Owned(l, v) && i < |v.ips| && v.ips[i].addrs[NDIRECT] != 0
    ensures Beyond(v, i) == EntryBlocks(v, i, NINDIRECT) + {v.ips[i].addrs[NDIRECT]}
  {
    assert IsSlot(v, Indirect(i)) && Ref(v, Indirect(i)) == v.ips[i].addrs[NDIRECT];
    forall b | b in v.owner && v.owner[b].inum == i && !v.owner[b].Direct?
      ensures b in EntryBlocks(v, i, NINDIRECT) || b == v.ips[i].addrs[NDIRECT]
    {
      assert IsSlot(v, v.owner[b]) && Ref(v, v.owner[b]) == b;
    }
  }

  /** A file of which neither the inode nor any data block changed. */
  lemma OthersSame(l: Layout, v0: Fs, v: Fs, m: nat, k: nat)
    requires LayoutOk(l, v0) && Owned(l, v0) && m < |v0.ips| && m < |v.ips| && v.ips[m] == v0.ips[m] && |v.d| == |v0.d|
    requires forall b :: l.datastart <= b < |v.d| ==> v.d[b] == v0.d[b]
    requires k < MAXBYTES
    ensures FileByte(v, m, k) == FileByte(v0, m, k)
  {
    var s := SlotOf(m, k / BSIZE);
    assert IsSlot(v0, s) && IsSlot(v0, Indirect(m));
    assert Ref(v0, Indirect(m)) == v0.ips[m].addrs[NDIRECT];
    assert Ref(v, s) == Ref(v0, s);
  }

  ghost function Emptied(ip: Inode): (r: Inode)
  {
    ip.(size := 0, addrs := seq(NDIRECT + 1, _ => 0))
  }

  /** itrunc's result: inode i is empty, its blocks and only those are unowned, and no other inode or
      byte of another file changed. */
  ghost predicate Truncated(l: Layout, v0: Fs, v: Fs, i: nat)
  {
    && LayoutOk(l, v0) && LayoutOk(l, v) && i < |v.ips| == |v0.ips|
    && v.ips == v0.ips[i := Emptied(v0.ips[i])]
    && v.owner == v0.owner - BlocksOf(v0, i)
    && (forall m: nat, k: nat :: m < |v.ips| && m != i && k < MAXBYTES ==> FileByte(v, m, k) == FileByte(v0, m, k))
  }

  lemma DirectOnly(l: Layout, v0: Fs, v: Fs, i: nat)
    requires LayoutOk(l, v0) && Owned(l, v0) && DirectDone(l, v0, v, i, NDIRECT) && v.ips[i].addrs[NDIRECT] == 0
    ensures v.owner == v0.owner - BlocksOf(v0, i)
  {
    assert IsSlot(v0, Indirect(i)) && Ref(v0, Indirect(i)) == 0;
    forall b | b in v0.owner && v0.owner[b].inum == i
      ensures v0.owner[b].Direct? && v0.owner[b].k < NDIRECT
    {
      assert IsSlot(v0, v0.owner[b]) && Ref(v0, v0.owner[b]) == b;
    }
    assert BlocksOf(v0, i) == DirectBlocks(v0, i, NDIRECT);
  }

  lemma DirectAndBeyond(l: Layout, v0: Fs, v1: Fs, v: Fs, i: nat)
    requires LayoutOk(l, v0) && Owned(l, v0) && DirectDone(l, v0, v1, i, NDIRECT) && v.owner == v1.owner - Beyond(v1, i)
    ensures v.owner == v0.owner - BlocksOf(v0, i)
  {
    forall b | b in v0.owner && v0.owner[b].inum == i && v0.owner[b].Direct?
      ensures v0.owner[b].k < NDIRECT
    {
      assert IsSlot(v0, v0.owner[b]);
    }
  }

  /** Setting the size and storing the inode finishes the truncation. */
  lemma TruncateEnds(l: Layout, v0: Fs, v2: Fs, v: Fs, i: nat)
    requires Inv(l, v0, {}, {}) && Inv(l, v2, {}, {}) && i < |v0.ips| && Fits(v0.ips[i])
    requires Truncating(l, v0, v2, i, BlocksOf(v0, i)) && forall m :: 0 <= m <= NDIRECT ==> v2.ips[i].addrs[m] == 0
    requires v == v2.(ips := v2.ips[i := v2.ips[i].(size := 0)])
    ensures Fits(v.ips[i]) && Inv(l, v, {}, {}) && IBlock(l, i) < |v.d|
    ensures Inv(l, InodeStored(l, v, i), {}, {}) && Truncated(l, v0, InodeStored(l, v, i), i)
        && OnDisk(l, InodeStored(l, v, i), i)
  {
    hide Owned, Mapped, Ref, BlocksOf, GetInode, PutInode;
    MetaKeeps(l, v2, {}, {}, i, v2.ips[i].(size := 0));
    StoreInodeKeeps(l, v, i);
    var w := InodeStored(l, v, i);
    assert w.ips[i].addrs == seq(NDIRECT + 1, _ => 0);
    assert w.ips == v0.ips[i := Emptied(v0.ips[i])];
    forall m: nat, k: nat | m < |w.ips| && m != i && k < MAXBYTES
      ensures FileByte(w, m, k) == FileByte(v0, m, k)
    {
      OthersSame(l, v0, w, m, k);
    }
  }

  lemma NothingDone(l: Layout, v0: Fs, i: nat)
    requires LayoutOk(l, v0) && i < |v0.ips|
    ensures DirectDone(l, v0, v0, i, 0)
  {
    assert DirectBlocks(v0, i, 0) == {};
  }

  lemma NoEntryDone(l: Layout, v: Fs, i: nat)
    requires Inv(l, v, {}, {}) && i < |v.ips|
    ensures EntriesDone(l, v, v, i, 0)
  {
    assert EntryBlocks(v, i, 0) == {};
  }

  lemma IndirectGone(l: Layout, v0: Fs, v1: Fs, v: Fs, i: nat)
    requires LayoutOk(l, v0) && Owned(l, v0) && DirectDone(l, v0, v1, i, NDIRECT) && EntriesDone(l, v1, v, i, NINDIRECT)
    requires var a := v.ips[i].addrs[NDIRECT]; a < l.size && BBlock(l, a) < |v.d|
    ensures var w := DetachIndirect(BitPut(l, v, v.ips[i].addrs[NDIRECT], false), i);
            Truncating(l, v0, w, i, BlocksOf(v0, i)) && forall m :: 0 <= m <= NDIRECT ==> w.ips[i].addrs[m] == 0
  {
    hide Owned, Mapped, BlocksOf, EntryBlocks, DirectBlocks, SetBit;
    var w := DetachIndirect(BitPut(l, v, v.ips[i].addrs[NDIRECT], false), i);
    DirectAndBeyond(l, v0, v1, w, i);
  }

  ghost predicate Full(l: Layout, v: Fs)
  {
    forall c: nat :: c < l.size ==> BBlock(l, c) < |v.d| && Used(l, v.d, c)
  }

  /** The file has no block for offset a. */
  ghost predicate Lacks(v: Fs, i: nat, a: nat)
  {
    i < |v.ips| && |v.ips[i].addrs| == NDIRECT + 1 && a < MAXBYTES && BlockOf(v, i, a / BSIZE) == 0
  }

  lemma WriteLacked(l: Layout, v: Fs, v': Fs, i: nat, off: nat, data: seq<Byte>, a: nat)
    requires Writing(l, v, v', i, off, data) && Lacks(v', i, a)
    ensures Lacks(v, i, a)
  {
    hide Inv, Grows, MappedUpTo, FileByte, Lacks;
    LackedBefore(v, v', i, a);
  }

  lemma LackedBefore(v: Fs, v': Fs, i: nat, a: nat)
    requires Grows(v, v') && Lacks(v', i, a) && |v.ips| == |v'.ips| && |v.ips[i].addrs| == NDIRECT + 1
    ensures Lacks(v, i, a)
  {
    hide Ref;
    assert IsSlot(v, SlotOf(i, a / BSIZE));
  }

  lemma Unchanged(l: Layout, v: Fs)
    requires LayoutOk(l, v)
    ensures SameFiles(v, v) && Grows(v, v)
  {
  }

  lemma SlotFacts(l: Layout, v: Fs, i: nat, bn: nat)
    requires Inv(l, v, {}, {}) && i < |v.ips| && bn < MAXFILE
    ensures IsSlot(v, SlotOf(i, bn)) && IsSlot(v, Indirect(i))
    ensures Ref(v, Indirect(i)) == v.ips[i].addrs[NDIRECT]
  {
  }

  lemma NoEntries(v: Fs, i: nat, j: nat)
    requires IsSlot(v, Entry(i, j)) && v.ips[i].addrs[NDIRECT] == 0
    ensures Ref(v, Entry(i, j)) == 0
  {
  }

  lemma LoggedTwice(base: set<nat>, logged1: set<nat>, logged2: set<nat>, marks1: set<nat>, marks2: set<nat>, a: nat,
                    addr: nat)
    requires logged1 <= base + marks1 + ({a} - {0}) && logged2 <= logged1 + marks2 + ({addr, a} - {0})
    ensures logged2 <= base + (marks1 + marks2) + ({addr, a} - {0}) && |marks1 + marks2| <= |marks1| + |marks2|
  {
  }

  lemma SameShape(v: Fs, v': Fs, i: nat)
    requires SameFiles(v, v') && i < |v.ips|
    ensures |v'.ips| == |v.ips| && |v'.ips[i].addrs| == |v.ips[i].addrs| == NDIRECT + 1
  {
  }

  lemma AddrsFit(l: Layout, v: Fs, i: nat)
    requires LayoutOk(l, v) && Owned(l, v) && i < |v.ips|
    ensures forall k :: 0 <= k <= NDIRECT ==> v.ips[i].addrs[k] < WORD_LIMIT
  {
    forall k | 0 <= k <= NDIRECT
      ensures v.ips[i].addrs[k] < WORD_LIMIT
    {
      var s := if k < NDIRECT then Direct(i, k) else Indirect(i);
      assert IsSlot(v, s) && Ref(v, s) == v.ips[i].addrs[k];
    }
  }

  ghost function Resized(v: Fs, i: nat, size: nat): (r: Fs)
    requires i < |v.ips|
  {
    v.(ips := v.ips[i := v.ips[i].(size := size)])
  }

  lemma ResizeKeeps(l: Layout, v: Fs, i: nat, size: nat)
    requires Inv(l, v, {}, {}) && i < |v.ips|
    ensures Inv(l, Resized(v, i, size), {}, {}) && Grows(v, Resized(v, i, size))
    ensures forall m: nat, k: nat :: m < |v.ips| && k < MAXBYTES ==>
        FileByte(Resized(v, i, size), m, k) == FileByte(v, m, k)
  {
    hide Owned, Mapped, Ref;
    MetaKeeps(l, v, {}, {}, i, v.ips[i].(size := size));
  }

  lemma StoredGrows(l: Layout, v: Fs, i: nat)
    requires Inv(l, v, {}, {}) && i < |v.ips| && Fits(v.ips[i])
    ensures IBlock(l, i) < |v.d| && Grows(v, InodeStored(l, v, i))
  {
    hide Inv, SameFiles, InodeStored, OnDisk, Ref;
    StoreInodeKeeps(l, v, i);
  }

  /** The end of writei: the size grows if need be and the inode is stored. */
  lemma WriteEnds(l: Layout, v0: Fs, v: Fs, i: nat, off: nat, data: seq<Byte>, tot: nat)
    requires Writing(l, v0, v, i, off, data) && tot <= |data| && off + |data| <= MAXBYTES && Sizes(v0)
        && Fits(v0.ips[i])
    ensures LayoutOk(l, v) && i < |v.ips| && Inv(l, Resized(v, i, Max(v.ips[i].size, off + tot)), {}, {})
    ensures Fits(Resized(v, i, Max(v.ips[i].size, off + tot)).ips[i]) && IBlock(l, i) < |v.d|
    ensures var w := InodeStored(l, Resized(v, i, Max(v.ips[i].size, off + tot)), i);
            Wrote(v0, w, i, off, data, tot) && Sizes(w) && Grows(v, w)
  {
    hide Owned, Mapped, Ref, SameFiles, MappedUpTo, Grows, OnDisk, FileByte, InodeStored;
    var size := Max(v.ips[i].size, off + tot);
    AddrsFit(l, v, i);
    ResizeKeeps(l, v, i, size);
    var v1 := Resized(v, i, size);
    StoreInodeKeeps(l, v1, i);
    StoredGrows(l, v1, i);
    GrowsTransitive(v, v1, InodeStored(l, v1, i));
    StoredSame(l, v1, i);
  }

  lemma StoredSame(l: Layout, v: Fs, i: nat)
    requires i < |v.ips| && Fits(v.ips[i]) && IBlock(l, i) < |v.d| && SameFiles(v, InodeStored(l, v, i))
    ensures InodeStored(l, v, i).ips == v.ips
    ensures forall m :: 0 <= m < |v.ips| ==> |v.ips[m].addrs| == NDIRECT + 1
    ensures forall m: nat, k: nat :: m < |v.ips| && k < MAXBYTES ==>
        FileByte(InodeStored(l, v, i), m, k) == FileByte(v, m, k)
  {
    hide FileByte;
  }

  lemma NoHolesKept(l: Layout, v0: Fs, v: Fs, w: Fs, i: nat, off: nat, data: seq<Byte>, tot: nat)
    requires Writing(l, v0, v, i, off, data) && Wrote(v0, w, i, off, data, tot) && tot <= |data| && Grows(v, w)
    requires off <= v0.ips[i].size && NoHoles(v0, i)
    ensures NoHoles(w, i)
  {
    hide Inv, Ref, FileByte;
    forall bn | 0 <= bn < MAXFILE && bn * BSIZE < w.ips[i].size
      ensures BlockOf(w, i, bn) != 0
    {
      assert IsSlot(v0, SlotOf(i, bn)) && IsSlot(v, SlotOf(i, bn));
      if bn * BSIZE < v0.ips[i].size {
        assert BlockOf(v0, i, bn) != 0;
      } else {
        assert BlockOf(v, i, bn) != 0;
      }
    }
  }

  lemma FullKept(l: Layout, v: Fs, i: nat, size: nat)
    requires LayoutOk(l, v) && i < |v.ips| && Fits(Resized(v, i, size).ips[i]) && IBlock(l, i) < |v.d| && Full(l, v)
    ensures Full(l, InodeStored(l, Resized(v, i, size), i))
  {
    hide PutInode;
  }

  /** A write that touches t blocks logs at most 2t + 3 blocks, or one less. */
  lemma BudgetEnds(v0: Fs, v: Fs, i: nat, off: nat, n: nat, base: set<nat>, logged: set<nat>, x: set<nat>, ib: nat)
    requires BudgetOf(v0, v, i, off, base, logged, x, Span(off, n))
    ensures |logged + {ib} - base| <= 2 * Span(off, n) + 3 - Saved(v0, i, off)
  {
    hide NoHoles;
    var ind := v.ips[i].addrs[NDIRECT];
    assert logged + {ib} - base <= x + {ind, ib};
    SubsetCard(logged + {ib} - base, x + {ind, ib});
    assert |x + {ind, ib}| <= |x| + |{ind, ib}| <= |x| + 2;
  }

  /** readi on its way: `out` has been copied out, and no block was allocated unless the file has a
      hole. */
  ghost predicate Reading(l: Layout, v0: Fs, v: Fs, logged0: set<nat>, logged: set<nat>, i: nat, off: nat,
                          out: seq<Byte>)
  {
    && Sizes(v0) && i < |v0.ips| && off + |out| <= v0.ips[i].size
    && Inv(l, v, {}, {}) && SameFiles(v0, v) && out == Content(v0, i)[off..off + |out|]
    && (NoHoles(v0, i) ==> v == v0 && logged == logged0)
  }

  lemma ReadLacked(l: Layout, v: Fs, v': Fs, logged: set<nat>, logged': set<nat>, i: nat, off: nat, out: seq<Byte>,
                   a: nat)
    requires Reading(l, v, v', logged, logged', i, off, out) && Grows(v, v') && Lacks(v', i, a)
    ensures Lacks(v, i, a)
  {
    hide Inv, Grows, Content, Lacks, FileByte, NoHoles;
    SameShape(v, v', i);
    LackedBefore(v, v', i, a);
  }

  lemma ReadStarts(l: Layout, v: Fs, logged: set<nat>, i: nat, off: nat)
    requires Inv(l, v, {}, {}) && Sizes(v) && i < |v.ips| && off <= v.ips[i].size
    ensures Reading(l, v, v, logged, logged, i, off, [])
  {
    hide Owned, Mapped, FileByte, Ref;
  }

  lemma ReadLooks(l: Layout, v0: Fs, v: Fs, v1: Fs, logged0: set<nat>, logged: set<nat>, logged1: set<nat>, i: nat,
                  off: nat, out: seq<Byte>)
    requires Reading(l, v0, v, logged0, logged, i, off, out) && off + |out| < v0.ips[i].size
    requires Inv(l, v1, {}, {}) && SameFiles(v, v1) && |v1.ips| == |v.ips| == |v0.ips|
        && |v.ips[i].addrs| == |v1.ips[i].addrs| == NDIRECT + 1
    requires BlockOf(v, i, (off + |out|) / BSIZE) != 0 ==> v1 == v && logged1 == logged
    ensures Reading(l, v0, v1, logged0, logged1, i, off, out)
    ensures NoHoles(v0, i) ==> BlockOf(v1, i, (off + |out|) / BSIZE) != 0
  {
    hide Owned, Mapped, FileByte, Ref, Content, SameFiles;
    SameFilesTransitive(v0, v, v1);
    if NoHoles(v0, i) {
      assert (off + |out|) / BSIZE * BSIZE < v0.ips[i].size;
      assert BlockOf(v0, i, (off + |out|) / BSIZE) != 0;
    }
  }

  lemma ReadCopies(l: Layout, v0: Fs, v: Fs, logged0: set<nat>, logged: set<nat>, i: nat, off: nat, out: seq<Byte>,
                   m: nat, b: nat)
    requires Reading(l, v0, v, logged0, logged, i, off, out)
    requires off + |out| < v0.ips[i].size && off + |out| + m <= v0.ips[i].size && (off + |out|) % BSIZE + m <= BSIZE
    requires i < |v.ips| && |v.ips[i].addrs| == NDIRECT + 1 && b == BlockOf(v, i, (off + |out|) / BSIZE) && b != 0
    ensures b < |v.d|
    ensures var o := (off + |out|) % BSIZE; Reading(l, v0, v, logged0, logged, i, off, out + v.d[b].bytes[o..o + m])
  {
    hide Owned, Mapped, FileByte, Ref, Content, SameFiles, NoHoles;
    var p := off + |out|;
    FoundOwned(l, v, i, p / BSIZE);
    SameContent(v0, v, i);
    SameSize(v0, v, i);
    if m > 0 {
      ChunkRead(v, i, p, m, b);
    }
    ContentSize(v0, i);
    var c := Content(v0, i);
    assert c[off..p] + c[p..p + m] == c[off..p + m];
  }

  lemma ReadEnds(l: Layout, v0: Fs, v: Fs, logged0: set<nat>, logged: set<nat>, i: nat, off: nat, out: seq<Byte>)
    requires Reading(l, v0, v, logged0, logged, i, off, out)
    ensures Inv(l, v, {}, {}) && SameFiles(v0, v) && off + |out| <= |Content(v0, i)|
        && out == Content(v0, i)[off..off + |out|]
    ensures NoHoles(v0, i) ==> v == v0 && logged == logged0
  {
    hide Owned, Mapped, FileByte, Ref, Content, SameFiles, NoHoles;
    ContentSize(v0, i);
  }

  lemma SameSize(v: Fs, v': Fs, i: nat)
    requires SameFiles(v, v') && i < |v.ips|
    ensures |v'.ips| == |v.ips| && v'.ips[i].size == v.ips[i].size
  {
  }

  lemma ContentSize(v: Fs, i: nat)
    requires Sizes(v) && i < |v.ips|
    ensures |Content(v, i)| == v.ips[i].size
  {
  }

  /** A fresh image: no inode refers to a block and the bitmap marks the metadata and nothing else. */
  lemma FreshImage(l: Layout, d: seq<Block>, ips: seq<Inode>)
    requires LayoutOk(l, Fs(d, ips, map[]))
    requires forall i, k :: 0 <= i < |ips| && 0 <= k <= NDIRECT ==> ips[i].addrs[k] == 0
    requires forall b :: 0 <= b < l.size ==> (Used(l, d, b) <==> b < l.datastart)
    ensures Inv(l, Fs(d, ips, map[]), {}, {})
  {
    var v := Fs(d, ips, map[]);
    forall s: Slot | IsSlot(v, s)
      ensures Ref(v, s) == 0
    {
      assert v.ips[s.inum].addrs[NDIRECT] == 0;
    }
  }

  // ---- count_free_disk ----

  ghost function FreeBelow(l: Layout, d: seq<Block>, n: nat): (r: set<nat>)
  {
    set c | 0 <= c < n && BBlock(l, c) < |d| && !Used(l, d, c)
  }

  lemma FreeStep(l: Layout, d: seq<Block>, n: nat)
    requires BBlock(l, n) < |d|
    ensures |FreeBelow(l, d, n + 1)| == |FreeBelow(l, d, n)| + if Used(l, d, n) then 0 else 1
  {
    hide Used;
    var a := FreeBelow(l, d, n);
    assert FreeBelow(l, d, n + 1) == if Used(l, d, n) then a else a + {n};
  }

  /** Conservation: metadata, owned blocks and free blocks make up the disk. */
  lemma FreeTotal(l: Layout, v: Fs)
    requires Inv(l, v, {}, {})
    ensures |FreeBelow(l, v.d, l.size)| + |v.owner.Keys| + l.datastart == l.size
  {
    hide Inv, FreeBelow;
    FreeMembers(l, v);
    SplitCount(l.datastart, l.size, v.owner.Keys, FreeBelow(l, v.d, l.size));
  }

  lemma SplitCount(lo: nat, n: nat, used: set<nat>, free: set<nat>)
    requires lo <= n && forall c :: c in used ==> lo <= c < n
    requires forall c: nat :: c in free <==> lo <= c < n && c !in used
    ensures |free| + |used| + lo == n
  {
    assert UpTo(n) == UpTo(lo) + (used + free);
    assert used !! free && UpTo(lo) !! used + free;
  }

  lemma FreeMembers(l: Layout, v: Fs)
    requires Inv(l, v, {}, {})
    ensures l.datastart <= l.size
    ensures forall c :: c in v.owner ==> l.datastart <= c < l.size
    ensures forall c: nat :: c in FreeBelow(l, v.d, l.size) <==> l.datastart <= c < l.size && c !in v.owner
    ensures forall c :: c in FreeBelow(l, v.d, l.size) ==> 0 <= c
  {
    hide Used, Ref, IsSlot;
  }

  const INT_LIMIT: nat := 0x8000_0000
  const LONG_LIMIT: nat := 0x1_0000_0000_0000_0000

  /** An int product that wrapped, as the uint64 it is returned as. */
  function IntToLong(x: nat): (r: nat)
  {
    var w := x % WORD_LIMIT;
    if w < INT_LIMIT then w else LONG_LIMIT - WORD_LIMIT + w
  }

  class FileSystem {
    const l: Layout
    var d: seq<Block>
    var ips: seq<Inode>
    ghost var v: Fs
    ghost var logged: set<nat>
    ghost var area: seq<Block>        // the inode blocks and what is before them
    ghost var since: seq<Block>       // the disk when the operation began
    var writes: seq<Write>            // the blocks it has changed since, in order
    ghost var torn: bool              // it has changed one without log_write
    ghost var stored: nat             // how many of the changes there were after the last iupdate

    ghost predicate Area()
      reads this`d, this`area
    {
      l.bmapstart <= |d| && area == d[..l.bmapstart]
    }

    ghost predicate Changes()
      reads this`d, this`since, this`writes, this`logged, this`torn, this`stored
    {
      && Changed(l, since, writes, logged, d) && (!torn ==> AllRecorded(writes)) && AboveInodes(l, writes, stored)
    }

    ghost predicate Valid(float: set<nat>)
      reads this
    {
      v.d == d && v.ips == ips && Inv(l, v, float, {}) && Area() && Changes()
    }

    constructor (l: Layout, d: seq<Block>, ips: seq<Inode>, ghost owner: map<nat, Slot>)
      requires Inv(l, Fs(d, ips, owner), {}, {})
      ensures Valid({}) && this.l == l && v == Fs(d, ips, owner) && logged == {}
    {
      this.l, this.d, this.ips, v, logged, area := l, d, ips, Fs(d, ips, owner), {}, d[..l.bmapstart];
      since, writes, torn, stored := d, [], false, 0;
    }

    lemma Aside()
      requires Changes()
      ensures AboveInodes(l, writes, stored)
    {
    }

    // begin_op, as far as the record of changes goes.
    method Begin()
      modifies this`since, this`writes, this`logged, this`torn, this`stored
      ensures since == d && writes == [] && logged == {} && !torn && stored == 0 && Changes()
    {
      since, writes, logged, torn, stored := d, [], {}, false, 0;
    }

    // The holder of the buffer of a bitmap or data block changes it and calls log_write.
    method Put(b: nat, x: Block)
      requires Changes() && Area() && l.inodestart <= l.bmapstart <= b < |d|
      modifies this`d, this`logged, this`writes
      ensures d == old(d)[b := x] && writes == old(writes) + [Write(b, x, true)] && Changes() && Area()
      ensures logged == old(logged) + {b}
    {
      hide Changed;
      ChangedNext(l, since, writes, logged, d, b, x, true);
      PrefixKept(d, b, x, l.bmapstart);
      d := d[b := x];
      writes := writes + [Write(b, x, true)];
      logged := logged + {b};
    }

    // The same for a block of inodes.
    method PutInodes(b: nat, x: Block)
      requires Changes() && l.inodestart <= b < l.bmapstart <= |d|
      modifies this`d, this`logged, this`writes, this`area, this`stored
      ensures d == old(d)[b := x] && writes == old(writes) + [Write(b, x, true)] && Changes() && Area()
      ensures logged == old(logged) + {b} && stored == |writes|
    {
      hide Changed;
      ChangedNext(l, since, writes, logged, d, b, x, true);
      d := d[b := x];
      writes := writes + [Write(b, x, true)];
      logged := logged + {b};
      area, stored := d[..l.bmapstart], |writes|;
    }

    // The holder changes the buffer and releases it without log_write.
    method Smear(b: nat, x: Block)
      requires Changes() && Area() && l.inodestart <= l.bmapstart <= b < |d|
      modifies this`d, this`writes, this`torn
      ensures d == old(d)[b := x] && writes == old(writes) + [Write(b, x, false)] && torn && Changes() && Area()
    {
      hide Changed;
      ChangedNext(l, since, writes, logged, d, b, x, false);
      PrefixKept(d, b, x, l.bmapstart);
      d := d[b := x];
      writes := writes + [Write(b, x, false)];
      torn := true;
    }

    // balloc: first free bit of the bitmap, in order of block number; 0 if there is none.
    method Balloc(ghost float: set<nat>) returns (b: nat)
      requires Valid(float)
      modifies this`d, this`v, this`logged, this`writes
      ensures b == 0 ==> v == old(v) && d == old(d) && logged == old(logged) && writes == old(writes) && Full(l, v)
      ensures b != 0 ==>
                Valid(float + {b}) && b < l.size && BBlock(l, b) < |v.d| == |old(v).d|
                && v == Allocated(l, old(v), b)
      ensures b != 0 ==>
                !Used(l, old(v).d, b)
                && forall c: nat :: c < b ==> BBlock(l, c) < |v.d| && Used(l, old(v).d, c)
      ensures b != 0 ==> logged == old(logged) + {BBlock(l, b), b}
    {
      hide FileSystem.Area, FileSystem.Changes, Owned, Mapped, Allocated, SameFiles, Bit, SetBit, ZeroBlock;
      var base := 0;
      while base < l.size
        invariant base % BPB == 0 && v == old(v) && d == old(d) && logged == old(logged) && ips == old(ips)
            && writes == old(writes)
        invariant forall c: nat :: c < base && c < l.size ==> BBlock(l, c) < |v.d| && Used(l, v.d, c)
        decreases l.size - base
      {
        var bb := BBlock(l, base);
        var bi := 0;
        while bi < BPB && base + bi < l.size
          invariant 0 <= bi <= BPB && v == old(v) && d == old(d) && logged == old(logged) && ips == old(ips)
              && writes == old(writes)
          invariant forall c: nat :: c < base + bi && c < l.size ==> BBlock(l, c) < |v.d| && Used(l, v.d, c)
          decreases BPB - bi
        {
          UsedIndex(l, v, base, bi);
          if !Bit(d[bb], bi) {
            b := base + bi;
            AllocateKeeps(l, v, float, b);
            Take(float, b);
            return;
          }
          bi := bi + 1;
        }
        base := base + BPB;
      }
      return 0;
    }

    // The end of balloc: the bit is set and the block zeroed.
    method Take(ghost float: set<nat>, b: nat)
      requires Valid(float) && b < l.size && BBlock(l, b) < |v.d| && !Used(l, v.d, b) && l.datastart <= b
      modifies this`d, this`v, this`logged, this`writes
      ensures Valid(float + {b}) && v == Allocated(l, old(v), b) && |v.d| == |old(v).d|
          && logged == old(logged) + {BBlock(l, b), b}
    {
      hide FileSystem.Area, FileSystem.Changes, Owned, Mapped, Allocated, SameFiles, SetBit, ZeroBlock;
      AllocateKeeps(l, v, float, b);
      AllocatedFields(l, v, b);
      Put(BBlock(l, b), SetBit(d[BBlock(l, b)], b % BPB, true));
      Put(b, ZeroBlock());
      v := Allocated(l, v, b);
    }

    // bfree. False for the "freeing free block" panic.
    method Bfree(b: nat) returns (ok: bool)
      requires v.d == d && b < l.size && LayoutOk(l, v) && Area() && Changes()
      modifies this`d, this`v, this`logged, this`writes
      ensures Area() && Changes()
      ensures LayoutOk(l, old(v)) && BBlock(l, b) < |old(v).d|
      ensures ok <==> Used(l, old(v).d, b)
      ensures !ok ==> v == old(v) && d == old(d) && logged == old(logged)
      ensures ok ==> v == BitPut(l, old(v), b, false) && v.d == d && logged == old(logged) + {BBlock(l, b)}
    {
      hide FileSystem.Area, FileSystem.Changes, Bit, SetBit;
      var bb, bi := BBlock(l, b), b % BPB;
      if !Bit(d[bb], bi) {
        return false;
      }
      v := BitPut(l, v, b, false);
      Put(bb, SetBit(d[bb], bi, false));
      return true;
    }

    // bmap: block `bn` of file i, allocated if it is not mapped yet; 0 if the disk is full.
    // `marks` are the bitmap blocks it logged.
    method Bmap(i: nat, bn: nat) returns (addr: nat, ghost marks: set<nat>)
      requires Valid({}) && i < |ips| && bn < MAXFILE
      modifies this`d, this`ips, this`v, this`logged, this`writes
      ensures Valid({}) && SameFiles(old(v), v) && Grows(old(v), v) && i < |v.ips| && |v.ips| == |old(v).ips|
      ensures addr == BlockOf(v, i, bn)
      ensures BlockOf(old(v), i, bn) != 0 ==> v == old(v) && logged == old(logged) && marks == {}
      ensures addr == 0 ==> Full(l, v)
      ensures forall m :: 0 <= m < |v.ips| && m != i ==> v.ips[m] == old(v).ips[m]
      ensures logged <= old(logged) + marks + ({addr, v.ips[i].addrs[NDIRECT]} - {0})
      ensures |marks| <= 1 + Newly(old(v).ips[i].addrs[NDIRECT], v.ips[i].addrs[NDIRECT])
    {
      hide FileSystem.Area, FileSystem.Changes, Inv, SameFiles, Grows, Ref, Full;
      SlotFacts(l, v, i, bn);
      if bn < NDIRECT {
        addr, marks := BmapDirect(i, bn);
        SlotFacts(l, v, i, bn);
      } else {
        addr, marks := BmapBeyond(i, bn - NDIRECT);
      }
    }

    method BmapBeyond(i: nat, j: nat) returns (addr: nat, ghost marks: set<nat>)
      requires Valid({}) && i < |ips| && j < NINDIRECT
      modifies this`d, this`ips, this`v, this`logged, this`writes
      ensures Valid({}) && SameFiles(old(v), v) && Grows(old(v), v) && IsSlot(old(v), Entry(i, j))
          && IsSlot(v, Entry(i, j))
      ensures addr == Ref(v, Entry(i, j)) && |v.ips| == |old(v).ips|
      ensures forall m :: 0 <= m < |v.ips| && m != i ==> v.ips[m] == old(v).ips[m]
      ensures Ref(old(v), Entry(i, j)) != 0 ==> v == old(v) && logged == old(logged) && marks == {}
      ensures addr == 0 ==> Full(l, v)
      ensures logged <= old(logged) + marks + ({addr, v.ips[i].addrs[NDIRECT]} - {0})
      ensures |marks| <= 1 + Newly(old(v).ips[i].addrs[NDIRECT], v.ips[i].addrs[NDIRECT])
    {
      hide FileSystem.Area, FileSystem.Changes, Inv, SameFiles, Grows, Ref, Full;
      SlotFacts(l, v, i, NDIRECT + j);
      if ips[i].addrs[NDIRECT] == 0 {
        NoEntries(v, i, j);
      }
      ghost var marks1, marks2;
      var a;
      a, marks1 := BmapIndirect(i);
      SlotFacts(l, v, i, NDIRECT + j);
      if a == 0 {
        addr, marks := 0, marks1;
        NoEntries(v, i, j);
      } else {
        ghost var v1, logged1 := v, logged;
        addr, marks2 := BmapEntry(i, j);
        SlotFacts(l, v, i, NDIRECT + j);
        marks := marks1 + marks2;
        LoggedTwice(old(logged), logged1, logged, marks1, marks2, a, addr);
        SameFilesTransitive(old(v), v1, v);
        GrowsTransitive(old(v), v1, v);
      }
    }

    method BmapDirect(i: nat, k: nat) returns (addr: nat, ghost marks: set<nat>)
      requires Valid({}) && i < |ips| && k < NDIRECT
      modifies this`d, this`ips, this`v, this`logged, this`writes
      ensures Valid({}) && SameFiles(old(v), v) && Grows(old(v), v) && IsSlot(old(v), Direct(i, k))
          && IsSlot(v, Direct(i, k))
      ensures addr == Ref(v, Direct(i, k)) && |v.ips| == |old(v).ips|
      ensures forall m :: 0 <= m < |v.ips| && m != i ==> v.ips[m] == old(v).ips[m]
      ensures Ref(old(v), Direct(i, k)) != 0 ==> v == old(v) && logged == old(logged) && marks == {}
      ensures addr == 0 ==> Full(l, v)
      ensures logged <= old(logged) + marks + ({addr} - {0}) && |marks| <= 1
    {
      hide FileSystem.Area, FileSystem.Changes, Owned, Mapped, SameFiles, Grows;
      marks := {};
      addr := ips[i].addrs[k];
      Unchanged(l, v);
      if addr == 0 {
        addr := Balloc({});
        if addr != 0 {
          FillDirect(l, old(v), i, k, addr);
          AllocatedFields(l, old(v), addr);
          marks := {BBlock(l, addr)};
          ips := ips[i := ips[i].(addrs := ips[i].addrs[k := addr])];
          v := NewDirect(l, old(v), i, k, addr);
        }
      }
    }

    method BmapIndirect(i: nat) returns (addr: nat, ghost marks: set<nat>)
      requires Valid({}) && i < |ips|
      modifies this`d, this`ips, this`v, this`logged, this`writes
      ensures Valid({}) && SameFiles(old(v), v) && Grows(old(v), v) && IsSlot(old(v), Indirect(i))
          && IsSlot(v, Indirect(i))
      ensures addr == Ref(v, Indirect(i)) && |v.ips| == |old(v).ips|
      ensures forall m :: 0 <= m < |v.ips| && m != i ==> v.ips[m] == old(v).ips[m]
      ensures forall s: Slot :: IsSlot(old(v), s) && IsSlot(v, s) && s != Indirect(i) ==> Ref(v, s) == Ref(old(v), s)
      ensures Ref(old(v), Indirect(i)) != 0 ==> v == old(v) && logged == old(logged) && marks == {}
      ensures addr == 0 ==> Full(l, v) && v == old(v)
      ensures logged <= old(logged) + marks + ({addr} - {0}) && |marks| <= 1
    {
      hide FileSystem.Area, FileSystem.Changes, Owned, Mapped, SameFiles, Grows;
      marks := {};
      addr := ips[i].addrs[NDIRECT];
      Unchanged(l, v);
      if addr == 0 {
        addr := Balloc({});
        if addr != 0 {
          FillIndirect(l, old(v), i, addr);
          AllocatedFields(l, old(v), addr);
          marks := {BBlock(l, addr)};
          ips := ips[i := ips[i].(addrs := ips[i].addrs[NDIRECT := addr])];
          v := NewIndirect(l, old(v), i, addr);
        }
      }
    }

    method BmapEntry(i: nat, j: nat) returns (addr: nat, ghost marks: set<nat>)
      requires Valid({}) && i < |ips| && j < NINDIRECT && IsSlot(v, Indirect(i)) && Ref(v, Indirect(i)) != 0
      modifies this`d, this`v, this`logged, this`writes
      ensures Valid({}) && SameFiles(old(v), v) && Grows(old(v), v) && IsSlot(old(v), Entry(i, j))
          && IsSlot(v, Entry(i, j))
      ensures addr == Ref(v, Entry(i, j)) && v.ips == old(v).ips
      ensures Ref(old(v), Entry(i, j)) != 0 ==> v == old(v) && logged == old(logged) && marks == {}
      ensures addr == 0 ==> Full(l, v)
      ensures logged <= old(logged) + marks + ({addr, Ref(v, Indirect(i))} - {0}) && |marks| <= 1
    {
      hide FileSystem.Area, FileSystem.Changes, Owned, Mapped, SameFiles, Grows, Word, SetWord;
      marks := {};
      var a := ips[i].addrs[NDIRECT];
      IndirectOwner(l, v, i);
      Unchanged(l, v);
      addr := Word(d[a], j);
      if addr == 0 {
        addr := Balloc({});
        if addr != 0 {
          FillEntry(l, old(v), i, j, addr);
          AllocatedFields(l, old(v), addr);
          marks := {BBlock(l, addr)};
          Put(a, SetWord(d[a], j, addr));
          v := NewEntry(l, old(v), i, j, addr);
        }
      }
    }

    // iupdate
    method Iupdate(i: nat)
      requires Valid({}) && i < |ips| && Fits(ips[i])
      modifies this`d, this`v, this`logged, this`writes, this`area, this`stored
      ensures Valid({}) && IBlock(l, i) < |old(v).d| && v == InodeStored(l, old(v), i)
          && logged == old(logged) + {IBlock(l, i)}
      ensures OnDisk(l, v, i) && SameFiles(old(v), v)
      ensures |writes| == |old(writes)| + 1 && writes[..|old(writes)|] == old(writes)
          && writes[|old(writes)|].blk == IBlock(l, i)
    {
      hide FileSystem.Changes, Owned, Mapped, SameFiles, Ref, OnDisk;
      StoreInodeKeeps(l, v, i);
      var ib := IBlock(l, i);
      v := InodeStored(l, v, i);
      PutInodes(ib, PutInode(d[ib], i % IPB, ips[i]));
    }

    // itrunc. Every bfree it calls finds its block in use.
    method Itrunc(i: nat)
      requires Valid({}) && i < |ips| && Fits(ips[i])
      modifies this`d, this`ips, this`v, this`logged, this`writes, this`area, this`stored
      ensures InodeLast(l, writes, old(stored), i)
      ensures Valid({}) && Truncated(l, old(v), v, i) && OnDisk(l, v, i)
      ensures logged <= old(logged) + MapBlocks(l, BlocksOf(old(v), i)) + {IBlock(l, i)}
      ensures InodesOnDisk(l, old(v)) ==> InodesOnDisk(l, v)
    {
      hide FileSystem.Changes, Inv, Truncated, OnDisk, InodeStored, Truncating, InodesOnDisk, MapBlocks;
      ghost var v0 := v;
      TruncDirect(i);
      TruncIndirect(i, v0);
      ghost var v2 := v;
      ips := ips[i := ips[i].(size := 0)];
      v := v.(ips := ips);
      TruncateEnds(l, v0, v2, v, i);
      ghost var v3 := v;
      Aside();
      Iupdate(i);
      if InodesOnDisk(l, v0) {
        OthersTruncated(l, v0, v2, i);
        OthersOnDisk(l, v0, v3, i);
      }
    }

    method TruncIndirect(i: nat, ghost v0: Fs)
      requires Valid({}) && Inv(l, v0, {}, {}) && DirectDone(l, v0, v, i, NDIRECT)
      modifies this`d, this`ips, this`v, this`logged, this`writes
      ensures Valid({}) && Truncating(l, v0, v, i, BlocksOf(v0, i)) && i < |ips| && |ips[i].addrs| == NDIRECT + 1
      ensures forall m :: 0 <= m <= NDIRECT ==> v.ips[i].addrs[m] == 0
      ensures logged <= old(logged) + MapBlocks(l, BlocksOf(v0, i))
    {
      hide FileSystem.Area, FileSystem.Changes, Owned, Mapped, Used, BlocksOf, EntryBlocks, DirectBlocks, EntriesDone,
          MapBlocks, Word;
      var a := ips[i].addrs[NDIRECT];
      if a == 0 {
        DirectOnly(l, v0, v, i);
      } else {
        ghost var v1 := v;
        FreeEntries(i);
        FreeIndirect(l, v1, v, i);
        IndirectGone(l, v0, v1, v, i);
        IndirectMine(l, v0, v1, i);
        var ok := Bfree(a);
        assert ok;
        v := DetachIndirect(v, i);
        ips := ips[i := ips[i].(addrs := ips[i].addrs[NDIRECT := 0])];
      }
    }

    method FreeEntries(i: nat)
      requires Valid({}) && i < |ips| && ips[i].addrs[NDIRECT] != 0
      modifies this`d, this`v, this`logged, this`writes
      ensures EntriesDone(l, old(v), v, i, NINDIRECT) && v.d == d && v.ips == ips && Area() && Changes()
      ensures logged <= old(logged) + MapBlocks(l, BlocksOf(old(v), i))
    {
      hide FileSystem.Area, FileSystem.Changes, Owned, Mapped, Used, EntryBlocks, MapBlocks, BlocksOf, Word;
      ghost var v1 := v;
      NoEntryDone(l, v, i);
      IndirectOwner(l, v, i);
      var a := ips[i].addrs[NDIRECT];
      var j := 0;
      while j < NINDIRECT
        invariant 0 <= j <= NINDIRECT && EntriesDone(l, v1, v, i, j) && v.d == d && v.ips == ips && Area() && Changes()
        invariant logged <= old(logged) + MapBlocks(l, BlocksOf(v1, i))
      {
        var b := Word(d[a], j);
        if b != 0 {
          FreeEntry(l, v1, v, i, j);
          EntryMine(l, v1, v, i, j);
          var ok := Bfree(b);
          assert ok;
        } else {
          SkipEntry(l, v1, v, i, j);
        }
        j := j + 1;
      }
    }

    method TruncDirect(i: nat)
      requires Valid({}) && i < |ips|
      modifies this`d, this`ips, this`v, this`logged, this`writes
      ensures Valid({}) && DirectDone(l, old(v), v, i, NDIRECT) && i < |v.ips|
      ensures logged <= old(logged) + MapBlocks(l, BlocksOf(old(v), i))
    {
      hide FileSystem.Area, FileSystem.Changes, Owned, Mapped, Used, DirectDone, MapBlocks, BlocksOf;
      ghost var v0 := v;
      NothingDone(l, v0, i);
      var k := 0;
      while k < NDIRECT
        invariant 0 <= k <= NDIRECT && Valid({}) && i < |ips| && DirectDone(l, v0, v, i, k)
        invariant logged <= old(logged) + MapBlocks(l, BlocksOf(v0, i))
      {
        if ips[i].addrs[k] != 0 {
          FreeDirect(l, v0, v, i, k);
          DirectMine(l, v0, v, i, k);
          var b := ips[i].addrs[k];
          var ok := Bfree(b);
          assert ok;
          v := DetachDirect(v, i, k);
          ips := ips[i := ips[i].(addrs := ips[i].addrs[k := 0])];
        } else {
          SkipDirect(l, v0, v, i, k);
        }
        k := k + 1;
      }
    }

    // The loop of writei. `src` holds the bytes that can be read at the caller's address; when they
    // are fewer than n the copy of some block stops early, having changed the cached block.
    method WriteBlocks(i: nat, off: nat, src: seq<Byte>, n: nat) returns (tot: nat, ghost got: nat, ghost x: set<nat>)
      requires Valid({}) && i < |ips| && off + n <= MAXBYTES && off <= ips[i].size && |src| <= n
      modifies this`d, this`ips, this`v, this`logged, this`writes, this`torn
      ensures |src| == n ==> torn == old(torn)
      ensures v.d == d && v.ips == ips && Area() && Changes() && tot <= got <= |src|
          && Writing(l, old(v), v, i, off, src[..got])
      ensures tot == n ==> got == n
      ensures tot < n ==>
                (Full(l, v) && Lacks(old(v), i, off + tot) && got == tot) || (got == |src| < n && got < tot + BSIZE)
      ensures BudgetOf(old(v), v, i, off, old(logged), logged, x, Span(off, n))
    {
      hide FileSystem.Area, FileSystem.Changes, Inv, Grows, SameFiles, Writing, BudgetOf, Going, Patch, Full, Span, Ref,
          Paced;
      ghost var v0, base, t := v, logged, 0;
      Starts(l, v, i, off, n, base);
      tot, got, x := 0, 0, {};
      assert src[..0] == [];
      while tot < n
        invariant got == tot <= |src| && v.d == d && v.ips == ips && Area() && Changes() && torn == old(torn)
            && i < |ips|
        invariant Going(l, v0, v, i, off, n, src[..tot], base, logged, x, t) && Inv(l, v, {}, {}) && tot <= n
      {
        ghost var v1, logged1 := v, logged;
        ghost var marks;
        var addr;
        var bn, o := (off + tot) / BSIZE, (off + tot) % BSIZE;
        addr, marks := Bmap(i, bn);
        SameShape(v1, v, i);
        LookUp(l, v0, v1, v, i, off, n, src[..tot], base, logged1, logged, x, marks, addr, t);
        x, t := x + marks + {addr}, t + 1;
        if addr == 0 {
          WriteLacked(l, v0, v, i, off, src[..tot], off + tot);
          return;
        }
        var m := Min(n - tot, BSIZE - o);
        if tot + m > |src| {
          CopyIn(l, v0, v, i, off, n, src[..tot], src[tot..], base, logged, x, Span(off, n), addr);
          assert src[..tot] + src[tot..] == src[..|src|];
          DataBlock(l, v, i, bn);
          Smear(addr, Patch(d[addr], o, src[tot..]));
          v := v.(d := d);
          got := |src|;
          return;
        }
        CopyIn(l, v0, v, i, off, n, src[..tot], src[tot..tot + m], base, logged + {addr}, x, t, addr);
        assert src[..tot] + src[tot..tot + m] == src[..tot + m];
        DataBlock(l, v, i, bn);
        Put(addr, Patch(d[addr], o, src[tot..tot + m]));
        v := v.(d := d);
        tot := tot + m;
        got := tot;
      }
      Ends(l, v0, v, i, off, n, src[..tot], base, logged, x, t);
    }

    // writei. `src` holds the bytes that can be read at the caller's address, at most n.
    method Writei(i: nat, off: nat, src: seq<Byte>, n: nat) returns (r: int, ghost got: nat)
      requires Valid({}) && Sizes(v) && i < |ips| && Fits(ips[i]) && off < WORD_LIMIT && n < WORD_LIMIT && |src| <= n
      modifies this`d, this`ips, this`v, this`logged, this`writes, this`area, this`torn, this`stored
      ensures |src| == n ==> torn == old(torn)
      ensures if r == -1 then writes == old(writes) else InodeLast(l, writes, old(stored), i)
      ensures Valid({}) && Sizes(v) && i < |v.ips| && Fits(v.ips[i])
      ensures r == -1 <==> off > old(v).ips[i].size || off + n > MAXBYTES
      ensures r == -1 ==> v == old(v) && logged == old(logged)
      ensures r != -1 ==> 0 <= r <= got <= |src| && Wrote(old(v), v, i, off, src[..got], r) && OnDisk(l, v, i)
      ensures r == n ==> got == n
      ensures 0 <= r < n ==>
                (Full(l, v) && Lacks(old(v), i, off + r) && got == r) || (got == |src| < n && got < r + BSIZE)
      ensures NoHoles(old(v), i) ==> NoHoles(v, i)
      ensures InodesOnDisk(l, old(v)) ==> InodesOnDisk(l, v)
      ensures |logged - old(logged)| <= 2 * Span(off, n) + 3 - Saved(old(v), i, off)
    {
      hide FileSystem.Changes, Owned, Mapped, Writing, BudgetOf, Wrote, NoHoles, Grows, SameFiles, Full, InodeStored,
          Lacks, LayoutOk, Fits, Span, Saved, OnDisk, InodesOnDisk;
      got := 0;
      if off > ips[i].size || (off + n) % WORD_LIMIT < off {
        return -1, 0;
      }
      if off + n > MAXBYTES {
        return -1, 0;
      }
      ghost var x;
      var tot;
      tot, got, x := WriteBlocks(i, off, src, n);
      WriteEnds(l, old(v), v, i, off, src[..got], tot);
      ghost var v1, size := v, Max(v.ips[i].size, off + tot);
      if Full(l, v) {
        FullKept(l, v, i, size);
      }
      BudgetEnds(old(v), v, i, off, n, old(logged), logged, x, IBlock(l, i));
      if off + tot > ips[i].size {
        ips := ips[i := ips[i].(size := off + tot)];
      }
      v := Resized(v, i, size);
      assert v.ips == ips;
      ghost var v2 := v;
      Aside();
      Iupdate(i);
      WrittenOnDisk(l, old(v), v2, i, off, src[..got], tot);
      if NoHoles(old(v), i) {
        NoHolesKept(l, old(v), v1, v, i, off, src[..got], tot);
      }
      r := tot;
    }

    // readi. `room` is the number of bytes that can be written at the caller's address, `out` what
    // was written there. A hole is filled with a zeroed block on the way.
    method Readi(i: nat, off: nat, n: nat, room: nat) returns (r: int, out: seq<Byte>)
      requires Valid({}) && Sizes(v) && i < |ips| && off < WORD_LIMIT && n < WORD_LIMIT
      modifies this`d, this`ips, this`v, this`logged, this`writes
      ensures Valid({}) && SameFiles(old(v), v)
      ensures off > old(v).ips[i].size || off + n >= WORD_LIMIT ==> r == 0 && out == []
      ensures off <= old(v).ips[i].size ==>
          off + |out| <= |Content(old(v), i)| && out == Content(old(v), i)[off..off + |out|]
      ensures off <= old(v).ips[i].size && off + n < WORD_LIMIT ==>
                var want := Min(n, old(v).ips[i].size - off);
                && |out| <= want && |out| <= room && (r == -1 ==> |out| == room < want) && (r != -1 ==> r == |out|)
                && (0 <= r < want ==> Full(l, v) && Lacks(old(v), i, off + r))
                && (NoHoles(old(v), i) ==> r == if room < want then -1 else want)
      ensures NoHoles(old(v), i) ==> v == old(v) && logged == old(logged)
    {
      hide FileSystem.Area, FileSystem.Changes, Owned, Mapped, SameFiles, Content, Grows, Ref, FileByte, NoHoles,
          Reading, Full;
      r, out := 0, [];
      ContentSize(v, i);
      Unchanged(l, v);
      if off > ips[i].size || (off + n) % WORD_LIMIT < off {
        return;
      }
      var want := if off + n > ips[i].size then ips[i].size - off else n;
      r, out := ReadBlocks(i, off, want, room);
      ReadEnds(l, old(v), v, old(logged), logged, i, off, out);
    }

    // The loop of readi.
    method ReadBlocks(i: nat, off: nat, want: nat, room: nat) returns (r: int, out: seq<Byte>)
      requires Valid({}) && Sizes(v) && i < |ips| && off + want <= ips[i].size
      modifies this`d, this`ips, this`v, this`logged, this`writes
      ensures v.d == d && v.ips == ips && Area() && Changes() && Reading(l, old(v), v, old(logged), logged, i, off, out)
      ensures |out| <= want && |out| <= room && (r == -1 ==> |out| == room < want) && (r != -1 ==> r == |out|)
      ensures 0 <= r < want ==> Full(l, v) && Lacks(old(v), i, off + r)
      ensures NoHoles(old(v), i) ==> r == if room < want then -1 else want
    {
      hide FileSystem.Area, FileSystem.Changes, Owned, Mapped, SameFiles, Grows, Ref, NoHoles, Reading, Full;
      ghost var v0, logged0 := v, logged;
      ReadStarts(l, v, logged, i, off);
      Unchanged(l, v);
      var tot := 0;
      out := [];
      while tot < want
        invariant tot == |out| <= want && tot <= room && v.d == d && v.ips == ips && Area() && Changes()
            && i < |ips| == |v0.ips| && Inv(l, v, {}, {})
        invariant Reading(l, v0, v, logged0, logged, i, off, out) && Grows(v0, v)
      {
        ghost var v1, logged1 := v, logged;
        ghost var marks;
        var addr;
        var bn, o := (off + tot) / BSIZE, (off + tot) % BSIZE;
        addr, marks := Bmap(i, bn);
        ReadLooks(l, v0, v1, v, logged0, logged1, logged, i, off, out);
        GrowsTransitive(v0, v1, v);
        if addr == 0 {
          SameShape(v1, v, i);
          ReadLacked(l, v0, v, logged0, logged, i, off, out, off + tot);
          r := tot;
          return;
        }
        var m := Min(want - tot, BSIZE - o);
        if tot + m > room {
          ReadCopies(l, v0, v, logged0, logged, i, off, out, room - tot, addr);
          out := out + d[addr].bytes[o..o + (room - tot)];
          r := -1;
          return;
        }
        ReadCopies(l, v0, v, logged0, logged, i, off, out, m, addr);
        out := out + d[addr].bytes[o..o + m];
        tot := tot + m;
      }
      r := tot;
    }

    // count_free_disk. The product is computed in an int.
    method CountFreeDisk() returns (bytes: nat)
      requires Valid({})
      ensures |v.owner.Keys| + l.datastart <= l.size
      ensures var free := l.size - l.datastart - |v.owner.Keys|;
              bytes == IntToLong(free * BSIZE) && (bytes == free * BSIZE <==> free * BSIZE < INT_LIMIT)
    {
      hide FileSystem.Area, FileSystem.Changes, Owned, Mapped, Bit, FreeBelow;
      FreeTotal(l, v);
      var free, base := 0, 0;
      NoneBelow(l, d);
      while base < l.size
        invariant base % BPB == 0 && free == |FreeBelow(l, d, if base < l.size then base else l.size)|
        decreases l.size - base
      {
        var bb := BBlock(l, base);
        var bi := 0;
        while bi < BPB && base + bi < l.size
          invariant 0 <= bi <= BPB && base + bi <= l.size && free == |FreeBelow(l, d, base + bi)|
          decreases BPB - bi
        {
          UsedIndex(l, v, base, bi);
          FreeStep(l, d, base + bi);
          if !Bit(d[bb], bi) {
            free := free + 1;
          }
          bi := bi + 1;
        }
        base := base + BPB;
      }
      bytes := IntToLong(free * BSIZE);
    }
  }

  lemma NoneBelow(l: Layout, d: seq<Block>)
    ensures FreeBelow(l, d, 0) == {}
  {
  }

  lemma AllocatedFields(l: Layout, v: Fs, b: nat)
    requires BBlock(l, b) < |v.d| && b < |v.d|
    ensures Allocated(l, v, b).ips == v.ips && Allocated(l, v, b).owner == v.owner
    ensures Allocated(l, v, b).d == v.d[BBlock(l, b) := SetBit(v.d[BBlock(l, b)], b % BPB, true)][b := ZeroBlock()]
  {
  }
}
