/** Inodes, bitmap and indirect blocks of fs.c as one value, and who owns which data block.

    `d` is the disk as the file system sees it, through cache and log. `ips` holds the inodes as
    their in-memory copies. `owner` is the inverse of the block references: the one slot (a direct
    slot, an indirect slot or an entry of an indirect block) that refers to a data block.
 */
module FsState {
  import opened Blocks
  import opened Bitmap

  const NDIRECT: nat := 12
  const NINDIRECT: nat := NWORDS
  const MAXFILE: nat := NDIRECT + NINDIRECT
  const IPB: nat := 16

  datatype Layout = Layout(size: nat, inodestart: nat, bmapstart: nat, datastart: nat)

  datatype Inode = Inode(kind: nat, major: nat, minor: nat, nlink: nat, size: nat, addrs: seq<nat>)

  datatype Slot = Direct(inum: nat, k: nat) | Indirect(inum: nat) | Entry(inum: nat, j: nat)

  datatype Fs = Fs(d: seq<Block>, ips: seq<Inode>, owner: map<nat, Slot>)

  function BBlock(l: Layout, b: nat): (r: nat)
  {
    b / BPB + l.bmapstart
  }

  function IBlock(l: Layout, inum: nat): (r: nat)
  {
    inum / IPB + l.inodestart
  }

  /** Boot block, superblock and log, then inodes, bitmap and data. */
  ghost predicate LayoutOk(l: Layout, v: Fs)
  {
    && 0 < l.inodestart <= l.bmapstart <= l.datastart <= l.size <= |v.d| <= WORD_LIMIT
    && (forall i :: 0 <= i < |v.ips| ==> IBlock(l, i) < l.bmapstart)
    && (forall b :: 0 <= b < l.size ==> BBlock(l, b) < l.datastart)
    && (forall i :: 0 <= i < |v.ips| ==> |v.ips[i].addrs| == NDIRECT + 1)
  }

  ghost predicate IsSlot(v: Fs, s: Slot)
  {
    && s.inum < |v.ips| && |v.ips[s.inum].addrs| == NDIRECT + 1
    && match s
       case Direct(_, k) => k < NDIRECT
       case Indirect(_) => true
       case Entry(_, j) => j < NINDIRECT
  }

  /** The block a slot refers to; 0 if none. */
  ghost function Ref(v: Fs, s: Slot): (b: nat)
    requires IsSlot(v, s)
  {
    match s
    case Direct(i, k) => v.ips[i].addrs[k]
    case Indirect(i) => v.ips[i].addrs[NDIRECT]
    case Entry(i, j) =>
      var a := v.ips[i].addrs[NDIRECT];
      if 0 < a < |v.d| then Word(v.d[a], j) else 0
  }

  ghost predicate Used(l: Layout, d: seq<Block>, b: nat)
    requires BBlock(l, b) < |d|
  {
    Bit(d[BBlock(l, b)], b % BPB)
  }

  /** No block has two references, and `owner` knows the one it has. */
  ghost predicate Owned(l: Layout, v: Fs)
  {
    && (forall s: Slot :: IsSlot(v, s) ==> Ref(v, s) == 0 || (Ref(v, s) in v.owner && v.owner[Ref(v, s)] == s))
    && (forall b :: b in v.owner ==> IsSlot(v, v.owner[b]) && Ref(v, v.owner[b]) == b && l.datastart <= b < l.size)
  }

  /** The bitmap marks the metadata, the referenced blocks and nothing else, but for blocks that have
      just been allocated and are not referenced yet (`float`) and blocks that have just been freed
      and are about to lose their reference (`loose`). */
  ghost predicate Mapped(l: Layout, v: Fs, float: set<nat>, loose: set<nat>)
    requires LayoutOk(l, v)
  {
    && (forall b :: 0 <= b < l.size ==>
          (Used(l, v.d, b) <==> b < l.datastart || (b in v.owner && b !in loose) || b in float))
    && (forall b :: b in float ==> l.datastart <= b < l.size && b !in v.owner)
    && (forall b :: b in loose ==> b in v.owner)
  }

  ghost predicate Inv(l: Layout, v: Fs, float: set<nat>, loose: set<nat>)
  {
    LayoutOk(l, v) && Owned(l, v) && Mapped(l, v, float, loose)
  }

  // ---- the changes of one operation ----

  /** A block that was changed, and whether log_write was called for it. */
  datatype Write = Write(blk: nat, data: Block, record: bool)

  ghost function Replay(d: seq<Block>, ws: seq<Write>): (r: seq<Block>)
    ensures |r| == |d|
  {
    if ws == [] then d
    else
      var r, w := Replay(d, ws[..|ws| - 1]), ws[|ws| - 1];
      if w.blk < |r| then r[w.blk := w.data] else r
  }

  /** The changes `ws`, none of them before the inodes, turn the disk `since` into d, and `logged`
      holds the blocks of those that were recorded. */
  ghost predicate Changed(l: Layout, since: seq<Block>, ws: seq<Write>, logged: set<nat>, d: seq<Block>)
  {
    && d == Replay(since, ws)
    && forall i :: 0 <= i < |ws| ==> l.inodestart <= ws[i].blk < |d| && (ws[i].record ==> ws[i].blk in logged)
  }

  predicate AllRecorded(ws: seq<Write>)
  {
    forall i :: 0 <= i < |ws| ==> ws[i].record
  }

  /** From the change `from` on, only bitmap and data blocks. */
  ghost predicate AboveInodes(l: Layout, ws: seq<Write>, from: nat)
  {
    from <= |ws| && forall j :: from <= j < |ws| ==> l.bmapstart <= ws[j].blk
  }

  /** The changes from `from` on end with inode i's block, and are of bitmap and data blocks before. */
  ghost predicate InodeLast(l: Layout, ws: seq<Write>, from: nat, i: nat)
  {
    |ws| > 0 && ws[|ws| - 1].blk == IBlock(l, i) && AboveInodes(l, ws[..|ws| - 1], from)
  }

  lemma ChangedNext(l: Layout, since: seq<Block>, ws: seq<Write>, logged: set<nat>, d: seq<Block>, b: nat, x: Block,
                    record: bool)
    requires Changed(l, since, ws, logged, d) && l.inodestart <= b < |d|
    ensures Changed(l, since, ws + [Write(b, x, record)], if record then logged + {b} else logged, d[b := x])
  {
    assert (ws + [Write(b, x, record)])[..|ws|] == ws;
  }

  // ---- changing the bitmap ----

  ghost function BitPut(l: Layout, v: Fs, b: nat, on: bool): (r: Fs)
    requires BBlock(l, b) < |v.d|
  {
    v.(d := v.d[BBlock(l, b) := SetBit(v.d[BBlock(l, b)], b % BPB, on)])
  }

  lemma UsedAfter(l: Layout, v: Fs, b: nat, on: bool, c: nat)
    requires BBlock(l, b) < |v.d| && BBlock(l, c) < |v.d|
    ensures Used(l, BitPut(l, v, b, on).d, c) <==> if b == c then on else Used(l, v.d, c)
  {
    if BBlock(l, b) == BBlock(l, c) {
      BitOfSetBit(v.d[BBlock(l, b)], b % BPB, on, c % BPB);
      assert b / BPB == c / BPB;
    }
  }

  /** `b` is the indirect block of no inode. */
  ghost predicate NotIndirect(v: Fs, b: nat)
  {
    forall i :: 0 <= i < |v.ips| && |v.ips[i].addrs| == NDIRECT + 1 ==> v.ips[i].addrs[NDIRECT] != b
  }

  lemma RefSame(v: Fs, b: nat, x: Block, s: Slot)
    requires b < |v.d| && NotIndirect(v, b) && IsSlot(v, s)
    ensures IsSlot(v.(d := v.d[b := x]), s) && Ref(v.(d := v.d[b := x]), s) == Ref(v, s)
  {
  }

  /** A block that holds no references can change without changing any. */
  lemma OwnedKept(l: Layout, v: Fs, b: nat, x: Block)
    requires Owned(l, v) && b < |v.d| && NotIndirect(v, b)
    ensures Owned(l, v.(d := v.d[b := x]))
  {
    hide Ref, IsSlot;
    var v' := v.(d := v.d[b := x]);
    forall s: Slot | IsSlot(v', s)
      ensures Ref(v', s) == 0 || (Ref(v', s) in v'.owner && v'.owner[Ref(v', s)] == s)
    {
      SameSlots(v, v', s);
      RefSame(v, b, x, s);
    }
    forall c | c in v'.owner
      ensures IsSlot(v', v'.owner[c]) && Ref(v', v'.owner[c]) == c && l.datastart <= c < l.size
    {
      RefSame(v, b, x, v.owner[c]);
    }
  }

  lemma SameSlots(v: Fs, v': Fs, s: Slot)
    requires v'.ips == v.ips
    ensures IsSlot(v', s) <==> IsSlot(v, s)
  {
  }

  /** Indirect blocks are data blocks that someone owns. */
  lemma IndirectOwned(l: Layout, v: Fs, b: nat)
    requires Owned(l, v) && LayoutOk(l, v) && (b < l.datastart || b !in v.owner) && b > 0
    ensures NotIndirect(v, b)
  {
    forall i | 0 <= i < |v.ips| && |v.ips[i].addrs| == NDIRECT + 1
      ensures v.ips[i].addrs[NDIRECT] != b
    {
      assert IsSlot(v, Indirect(i));
      assert Ref(v, Indirect(i)) == v.ips[i].addrs[NDIRECT];
    }
  }

  lemma MarkMapped(l: Layout, v: Fs, float: set<nat>, b: nat)
    requires LayoutOk(l, v) && b < l.size && LayoutOk(l, BitPut(l, v, b, true)) && Mapped(l, v, float, {})
        && !Used(l, v.d, b)
    ensures Mapped(l, BitPut(l, v, b, true), float + {b}, {})
  {
    hide Used;
    var v' := BitPut(l, v, b, true);
    forall c | 0 <= c < l.size
      ensures Used(l, v'.d, c) <==> c < l.datastart || c in v'.owner || c in float + {b}
    {
      UsedAfter(l, v, b, true, c);
    }
  }

  /** balloc's effect on the bitmap: a free block becomes a used one without a reference. */
  lemma MarkKeeps(l: Layout, v: Fs, float: set<nat>, b: nat)
    requires Inv(l, v, float, {}) && b < l.size && !Used(l, v.d, b)
    ensures Inv(l, BitPut(l, v, b, true), float + {b}, {})
    ensures b !in float && b !in v.owner && l.datastart <= b
  {
    hide Owned, Mapped, Ref;
    MarkFacts(l, v, float, b);
    MarkMapped(l, v, float, b);
    IndirectOwned(l, v, BBlock(l, b));
    OwnedKept(l, v, BBlock(l, b), SetBit(v.d[BBlock(l, b)], b % BPB, true));
  }

  lemma MarkFacts(l: Layout, v: Fs, float: set<nat>, b: nat)
    requires Inv(l, v, float, {}) && b < l.size && !Used(l, v.d, b)
    ensures b !in float && b !in v.owner && l.datastart <= b
    ensures LayoutOk(l, BitPut(l, v, b, true)) && 0 < BBlock(l, b) < l.datastart
  {
  }

  /** bfree's effect: a referenced block that is about to lose its reference is marked free. */
  lemma UnmarkMapped(l: Layout, v: Fs, loose: set<nat>, b: nat)
    requires LayoutOk(l, v) && l.datastart <= b < l.size && LayoutOk(l, BitPut(l, v, b, false))
        && Mapped(l, v, {}, loose)
    requires b in v.owner && b !in loose
    ensures Used(l, v.d, b) && Mapped(l, BitPut(l, v, b, false), {}, loose + {b})
  {
    hide Used;
    var v' := BitPut(l, v, b, false);
    forall c | 0 <= c < l.size
      ensures Used(l, v'.d, c) <==> c < l.datastart || (c in v'.owner && c !in loose + {b})
    {
      UsedAfter(l, v, b, false, c);
    }
  }

  lemma UnmarkKeeps(l: Layout, v: Fs, loose: set<nat>, b: nat)
    requires Inv(l, v, {}, loose) && b in v.owner && b !in loose
    ensures b < l.size && BBlock(l, b) < |v.d| && Used(l, v.d, b)
    ensures Inv(l, BitPut(l, v, b, false), {}, loose + {b})
  {
    hide Mapped, Ref;
    assert l.datastart <= b < l.size;
    assert LayoutOk(l, BitPut(l, v, b, false));
    UnmarkMapped(l, v, loose, b);
    hide Owned;
    IndirectOwned(l, v, BBlock(l, b));
    OwnedKept(l, v, BBlock(l, b), SetBit(v.d[BBlock(l, b)], b % BPB, false));
  }

  /** Writing a block that is neither bitmap nor indirect block. */
  lemma WriteKeeps(l: Layout, v: Fs, float: set<nat>, loose: set<nat>, b: nat, x: Block)
    requires Inv(l, v, float, loose) && 0 < b < |v.d| && NotIndirect(v, b)
    requires b < l.bmapstart || l.datastart <= b
    ensures Inv(l, v.(d := v.d[b := x]), float, loose)
  {
    OwnedKept(l, v, b, x);
    hide Owned, Ref, NotIndirect;
    var v' := v.(d := v.d[b := x]);
    forall c | 0 <= c < l.size
      ensures Used(l, v'.d, c) <==> Used(l, v.d, c)
    {
      assert BBlock(l, c) != b;
    }
  }

  lemma FloatNotIndirect(l: Layout, v: Fs, float: set<nat>, loose: set<nat>, b: nat)
    requires Inv(l, v, float, loose) && b in float
    ensures NotIndirect(v, b) && l.datastart <= b < l.size && 0 < b < |v.d|
  {
    IndirectOwned(l, v, b);
  }

  /** A block owned by a direct slot or by an entry is not an indirect block. */
  lemma DataNotIndirect(l: Layout, v: Fs, float: set<nat>, loose: set<nat>, b: nat)
    requires Inv(l, v, float, loose) && b in v.owner && !v.owner[b].Indirect?
    ensures NotIndirect(v, b) && l.datastart <= b < l.size && 0 < b < |v.d|
  {
    forall i | 0 <= i < |v.ips| && |v.ips[i].addrs| == NDIRECT + 1
      ensures v.ips[i].addrs[NDIRECT] != b
    {
      assert IsSlot(v, Indirect(i));
      assert Ref(v, Indirect(i)) == v.ips[i].addrs[NDIRECT];
    }
  }

  // ---- changing references ----

  ghost function AddrPut(v: Fs, i: nat, k: nat, b: nat): (r: seq<Inode>)
    requires i < |v.ips| && k < |v.ips[i].addrs|
  {
    v.ips[i := v.ips[i].(addrs := v.ips[i].addrs[k := b])]
  }

  /** An unreferenced block gets its reference in a direct slot. */
  ghost function AttachDirect(v: Fs, i: nat, k: nat, b: nat): (r: Fs)
    requires i < |v.ips| && k < |v.ips[i].addrs|
  {
    v.(ips := AddrPut(v, i, k, b), owner := v.owner[b := Direct(i, k)])
  }

  ghost function AttachIndirect(v: Fs, i: nat, b: nat): (r: Fs)
    requires i < |v.ips| && |v.ips[i].addrs| == NDIRECT + 1
  {
    v.(ips := AddrPut(v, i, NDIRECT, b), owner := v.owner[b := Indirect(i)])
  }

  ghost function AttachEntry(v: Fs, i: nat, j: nat, b: nat): (r: Fs)
    requires i < |v.ips| && |v.ips[i].addrs| == NDIRECT + 1 && v.ips[i].addrs[NDIRECT] < |v.d| && j < NINDIRECT
        && b < WORD_LIMIT
  {
    var a := v.ips[i].addrs[NDIRECT];
    v.(d := v.d[a := SetWord(v.d[a], j, b)], owner := v.owner[b := Entry(i, j)])
  }

  /** What attaching means for `owner`: one slot went from nothing to `b`, no other changed. */
  ghost predicate Attached(v: Fs, v': Fs, t: Slot, b: nat)
  {
    && v'.owner == v.owner[b := t] && b !in v.owner && b > 0
    && IsSlot(v, t) && IsSlot(v', t) && Ref(v, t) == 0 && Ref(v', t) == b
    && (forall s: Slot :: IsSlot(v', s) <==> IsSlot(v, s))
    && (forall s: Slot :: IsSlot(v, s) && s != t ==> Ref(v', s) == Ref(v, s))
  }

  lemma AttachOwned(l: Layout, v: Fs, v': Fs, t: Slot, b: nat)
    requires Owned(l, v) && Attached(v, v', t, b) && 0 < l.datastart <= b < l.size
    ensures Owned(l, v')
  {
    hide Ref, IsSlot;
    forall s: Slot | IsSlot(v', s)
      ensures Ref(v', s) == 0 || (Ref(v', s) in v'.owner && v'.owner[Ref(v', s)] == s)
    {
      assert IsSlot(v, s);
    }
    forall c | c in v'.owner
      ensures IsSlot(v', v'.owner[c]) && Ref(v', v'.owner[c]) == c && l.datastart <= c < l.size
    {
      if c != b {
        assert v.owner[c] != t;
        assert IsSlot(v, v.owner[c]);
      }
    }
  }

  lemma DirectAttached(v: Fs, i: nat, k: nat, b: nat)
    requires i < |v.ips| && |v.ips[i].addrs| == NDIRECT + 1 && k < NDIRECT && v.ips[i].addrs[k] == 0 && b !in v.owner
        && b > 0
    ensures Attached(v, AttachDirect(v, i, k, b), Direct(i, k), b)
  {
  }

  lemma IndirectAttached(v: Fs, i: nat, b: nat)
    requires i < |v.ips| && |v.ips[i].addrs| == NDIRECT + 1 && v.ips[i].addrs[NDIRECT] == 0 && b !in v.owner
    requires 0 < b < |v.d| && forall j :: 0 <= j < NINDIRECT ==> Word(v.d[b], j) == 0
    ensures Attached(v, AttachIndirect(v, i, b), Indirect(i), b)
  {
    hide Word;
  }

  lemma EntryAttached(v: Fs, i: nat, j: nat, b: nat)
    requires i < |v.ips| && |v.ips[i].addrs| == NDIRECT + 1 && j < NINDIRECT && b !in v.owner && 0 < b < WORD_LIMIT
    requires 0 < v.ips[i].addrs[NDIRECT] < |v.d| && Word(v.d[v.ips[i].addrs[NDIRECT]], j) == 0
    requires forall m :: 0 <= m < |v.ips| && m != i && |v.ips[m].addrs| == NDIRECT + 1 ==>
               v.ips[m].addrs[NDIRECT] != v.ips[i].addrs[NDIRECT]
    ensures Attached(v, AttachEntry(v, i, j, b), Entry(i, j), b)
  {
    hide Word, SetWord;
    var a := v.ips[i].addrs[NDIRECT];
    forall m: nat | m < NWORDS
      ensures Word(AttachEntry(v, i, j, b).d[a], m) == if m == j then b else Word(v.d[a], m)
    {
      WordOfSetWord(v.d[a], j, b, m);
    }
  }

  lemma AttachDirectKeeps(l: Layout, v: Fs, float: set<nat>, i: nat, k: nat, b: nat)
    requires Inv(l, v, float, {}) && i < |v.ips| && k < NDIRECT && v.ips[i].addrs[k] == 0 && b in float
    ensures Inv(l, AttachDirect(v, i, k, b), float - {b}, {}) && Attached(v, AttachDirect(v, i, k, b), Direct(i, k), b)
  {
    hide Owned, Attached;
    FloatNotIndirect(l, v, float, {}, b);
    DirectAttached(v, i, k, b);
    AttachOwned(l, v, AttachDirect(v, i, k, b), Direct(i, k), b);
    AttachMapped(l, v, AttachDirect(v, i, k, b), float, b);
  }

  lemma AttachMapped(l: Layout, v: Fs, v': Fs, float: set<nat>, b: nat)
    requires LayoutOk(l, v) && LayoutOk(l, v') && Mapped(l, v, float, {}) && b in float
    requires v'.owner.Keys == v.owner.Keys + {b} && |v'.d| == |v.d|
    requires forall x :: 0 <= x < l.datastart && x < |v.d| ==> v'.d[x] == v.d[x]
    ensures Mapped(l, v', float - {b}, {})
  {
  }

  lemma AttachIndirectKeeps(l: Layout, v: Fs, float: set<nat>, i: nat, b: nat)
    requires Inv(l, v, float, {}) && i < |v.ips| && v.ips[i].addrs[NDIRECT] == 0 && b in float && b < |v.d|
        && v.d[b] == ZeroBlock()
    ensures Inv(l, AttachIndirect(v, i, b), float - {b}, {}) && Attached(v, AttachIndirect(v, i, b), Indirect(i), b)
  {
    hide Owned, Attached, Word;
    FloatNotIndirect(l, v, float, {}, b);
    forall j: nat | j < NINDIRECT
      ensures Word(v.d[b], j) == 0
    {
      ZeroWord(j);
    }
    IndirectAttached(v, i, b);
    AttachOwned(l, v, AttachIndirect(v, i, b), Indirect(i), b);
    AttachMapped(l, v, AttachIndirect(v, i, b), float, b);
  }

  lemma AttachEntryKeeps(l: Layout, v: Fs, float: set<nat>, i: nat, j: nat, b: nat)
    requires Inv(l, v, float, {}) && i < |v.ips| && j < NINDIRECT && b in float && b < WORD_LIMIT
    requires 0 < v.ips[i].addrs[NDIRECT] < |v.d| && Word(v.d[v.ips[i].addrs[NDIRECT]], j) == 0
    ensures Inv(l, AttachEntry(v, i, j, b), float - {b}, {}) && Attached(v, AttachEntry(v, i, j, b), Entry(i, j), b)
  {
    hide Owned, Attached, Word, SetWord;
    FloatNotIndirect(l, v, float, {}, b);
    IndirectUnique(l, v, i);
    EntryAttached(v, i, j, b);
    AttachOwned(l, v, AttachEntry(v, i, j, b), Entry(i, j), b);
    AttachMapped(l, v, AttachEntry(v, i, j, b), float, b);
  }

  /** An indirect block belongs to one inode. */
  lemma IndirectUnique(l: Layout, v: Fs, i: nat)
    requires Owned(l, v) && LayoutOk(l, v) && i < |v.ips| && v.ips[i].addrs[NDIRECT] > 0
    ensures l.datastart <= v.ips[i].addrs[NDIRECT] < l.size
    ensures forall m :: 0 <= m < |v.ips| && m != i ==> v.ips[m].addrs[NDIRECT] != v.ips[i].addrs[NDIRECT]
  {
    assert IsSlot(v, Indirect(i)) && Ref(v, Indirect(i)) == v.ips[i].addrs[NDIRECT];
    forall m | 0 <= m < |v.ips| && m != i
      ensures v.ips[m].addrs[NDIRECT] != v.ips[i].addrs[NDIRECT]
    {
      assert IsSlot(v, Indirect(m)) && Ref(v, Indirect(m)) == v.ips[m].addrs[NDIRECT];
    }
  }

  /** Dropping references: every slot that referred to a block of `gone` refers to nothing. */
  ghost predicate Detached(v: Fs, v': Fs, gone: set<nat>)
  {
    && v'.d == v.d && v'.owner == v.owner - gone
    && (forall s: Slot :: IsSlot(v', s) <==> IsSlot(v, s))
    && (forall s: Slot :: IsSlot(v, s) ==> Ref(v', s) == if Ref(v, s) in gone then 0 else Ref(v, s))
  }

  lemma DetachKeeps(l: Layout, v: Fs, v': Fs, loose: set<nat>, gone: set<nat>)
    requires Inv(l, v, {}, loose) && LayoutOk(l, v') && Detached(v, v', gone) && gone <= loose
    ensures Inv(l, v', {}, loose - gone)
  {
    DetachOwned(l, v, v', gone);
    hide Owned, Detached;
    DetachMapped(l, v, v', loose, gone);
  }

  lemma DetachOwned(l: Layout, v: Fs, v': Fs, gone: set<nat>)
    requires Owned(l, v) && Detached(v, v', gone)
    ensures Owned(l, v') && v'.d == v.d && v'.owner == v.owner - gone
  {
    hide Ref, IsSlot;
    forall s: Slot | IsSlot(v', s)
      ensures Ref(v', s) == 0 || (Ref(v', s) in v'.owner && v'.owner[Ref(v', s)] == s)
    {
      assert IsSlot(v, s);
    }
    forall c | c in v'.owner
      ensures IsSlot(v', v'.owner[c]) && Ref(v', v'.owner[c]) == c && l.datastart <= c < l.size
    {
      assert IsSlot(v, v.owner[c]);
    }
  }

  lemma DetachMapped(l: Layout, v: Fs, v': Fs, loose: set<nat>, gone: set<nat>)
    requires LayoutOk(l, v) && LayoutOk(l, v') && Mapped(l, v, {}, loose)
    requires v'.d == v.d && v'.owner == v.owner - gone && gone <= loose
    ensures Mapped(l, v', {}, loose - gone)
  {
    hide Used;
  }

  ghost function DetachDirect(v: Fs, i: nat, k: nat): (r: Fs)
    requires i < |v.ips| && k < |v.ips[i].addrs|
  {
    v.(ips := AddrPut(v, i, k, 0), owner := v.owner - {v.ips[i].addrs[k]})
  }

  lemma DetachDirectKeeps(l: Layout, v: Fs, loose: set<nat>, i: nat, k: nat)
    requires Inv(l, v, {}, loose) && i < |v.ips| && k < NDIRECT && v.ips[i].addrs[k] in loose && v.ips[i].addrs[k] != 0
    ensures Inv(l, DetachDirect(v, i, k), {}, loose - {v.ips[i].addrs[k]})
  {
    var v', b := DetachDirect(v, i, k), v.ips[i].addrs[k];
    DirectDetached(l, v, i, k);
    DetachKeeps(l, v, v', loose, {b});
  }

  lemma DirectDetached(l: Layout, v: Fs, i: nat, k: nat)
    requires Owned(l, v) && LayoutOk(l, v) && i < |v.ips| && k < NDIRECT && v.ips[i].addrs[k] != 0
    ensures Detached(v, DetachDirect(v, i, k), {v.ips[i].addrs[k]}) && LayoutOk(l, DetachDirect(v, i, k))
  {
    var v', b, t := DetachDirect(v, i, k), v.ips[i].addrs[k], Direct(i, k);
    assert IsSlot(v, t) && Ref(v, t) == b;
    forall s: Slot | IsSlot(v, s)
      ensures Ref(v', s) == if Ref(v, s) == b then 0 else Ref(v, s)
    {
      assert Ref(v, s) == b ==> s == t;
    }
  }

  /** The blocks reached through the indirect slot of inode i, with the indirect block itself. */
  ghost function Beyond(v: Fs, i: nat): (r: set<nat>)
  {
    set b | b in v.owner && v.owner[b].inum == i && !v.owner[b].Direct?
  }

  ghost function DetachIndirect(v: Fs, i: nat): (r: Fs)
    requires i < |v.ips| && |v.ips[i].addrs| == NDIRECT + 1
  {
    v.(ips := AddrPut(v, i, NDIRECT, 0), owner := v.owner - Beyond(v, i))
  }

  lemma IndirectDetached(l: Layout, v: Fs, i: nat)
    requires Owned(l, v) && LayoutOk(l, v) && i < |v.ips|
    ensures Detached(v, DetachIndirect(v, i), Beyond(v, i)) && LayoutOk(l, DetachIndirect(v, i))
  {
    var v' := DetachIndirect(v, i);
    forall s: Slot | IsSlot(v, s)
      ensures Ref(v', s) == if Ref(v, s) in Beyond(v, i) then 0 else Ref(v, s)
    {
      if Ref(v, s) != 0 {
        assert v.owner[Ref(v, s)] == s;
      }
    }
  }

  lemma DetachIndirectKeeps(l: Layout, v: Fs, loose: set<nat>, i: nat)
    requires Inv(l, v, {}, loose) && i < |v.ips| && loose == Beyond(v, i)
    ensures Inv(l, DetachIndirect(v, i), {}, {})
  {
    IndirectDetached(l, v, i);
    DetachKeeps(l, v, DetachIndirect(v, i), loose, loose);
    assert loose - loose == {};
  }

  /** Changing an inode other than its block addresses. */
  lemma MetaKeeps(l: Layout, v: Fs, float: set<nat>, loose: set<nat>, i: nat, ip: Inode)
    requires Inv(l, v, float, loose) && i < |v.ips| && ip.addrs == v.ips[i].addrs
    ensures Inv(l, v.(ips := v.ips[i := ip]), float, loose)
    ensures forall s: Slot :: IsSlot(v, s) ==>
        IsSlot(v.(ips := v.ips[i := ip]), s) && Ref(v.(ips := v.ips[i := ip]), s) == Ref(v, s)
  {
    var v' := v.(ips := v.ips[i := ip]);
    forall s: Slot
      ensures IsSlot(v', s) <==> IsSlot(v, s)
      ensures IsSlot(v, s) ==> Ref(v', s) == Ref(v, s)
    {
    }
    assert LayoutOk(l, v');
    MetaOwned(l, v, v');
    hide Owned, Ref;
    assert Mapped(l, v', float, loose);
  }

  lemma MetaOwned(l: Layout, v: Fs, v': Fs)
    requires Owned(l, v) && v'.owner == v.owner
    requires forall s: Slot :: (IsSlot(v', s) <==> IsSlot(v, s))
    requires forall s: Slot :: IsSlot(v, s) ==> Ref(v', s) == Ref(v, s)
    ensures Owned(l, v')
  {
    hide Ref, IsSlot;
    forall s: Slot | IsSlot(v', s)
      ensures Ref(v', s) == 0 || (Ref(v', s) in v'.owner && v'.owner[Ref(v', s)] == s)
    {
      assert IsSlot(v, s);
    }
  }
}
