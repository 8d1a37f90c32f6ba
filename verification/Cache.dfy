/** The buffer cache of bio.c: NBUF buffers on an LRU ring in front of one disk.

    A `View` is what the cache stands for. `cur` is the disk as seen through the cache: what a
    reader that gets a buffer for a block finds in it. `dirty` is the set of blocks whose cached
    contents the disk does not have yet. Because eviction never writes back, a dirty block
    survives only while its buffer stays referenced, so every dirty block is pinned or held.
 */
module Cache {
  import opened Blocks
  import opened Collections
  import opened Ring

  const NBUF: nat := 30
  const HEAD: nat := NBUF
  const ROOTDEV: nat := 1

  datatype Buf = Buf(valid: bool, dev: nat, blockno: nat, refcnt: nat, held: bool, data: Block)

  datatype View = View(
    cur: seq<Block>,        // contents, through the cache
    disk: seq<Block>,       // contents, on the disk
    trace: seq<seq<Block>>, // the disk after each write that has reached it
    dirty: set<nat>,        // blocks on which `cur` and `disk` may differ
    refs: multiset<nat>,    // references taken by bget and not yet dropped by brelse
    pinned: set<nat>,       // blocks the log has pinned
    held: set<nat>,         // blocks whose buffer is sleep-locked
    ready: map<nat, nat>,   // held blocks whose contents have been read in, with their buffer
    loc: map<nat, nat>)     // which buffer holds which block

  /** Buffers start out on device 0, block 0, and belong to no block until first recycled; after
      that there is at most one buffer for each block. */
  ghost predicate Indexed(bufs: seq<Buf>, v: View)
  {
    && |bufs| == NBUF && |v.cur| == |v.disk|
    && (forall blk :: blk in v.loc ==>
          blk < |v.disk| && v.loc[blk] < NBUF && bufs[v.loc[blk]].dev == ROOTDEV && bufs[v.loc[blk]].blockno == blk)
    && (forall i :: 0 <= i < NBUF && bufs[i].dev == ROOTDEV ==> bufs[i].blockno in v.loc && v.loc[bufs[i].blockno] == i)
    && (forall i :: 0 <= i < NBUF && bufs[i].dev != ROOTDEV ==>
       bufs[i].dev == 0 && bufs[i].refcnt == 0 && !bufs[i].held)
  }

  /** Reference counts are the users' references plus the log's pin. */
  ghost predicate Counted(bufs: seq<Buf>, v: View)
    requires Indexed(bufs, v)
  {
    && (forall blk :: blk in v.loc ==>
          && bufs[v.loc[blk]].refcnt == v.refs[blk] + (if blk in v.pinned then 1 else 0)
          && (bufs[v.loc[blk]].held <==> blk in v.held))
    && (forall blk :: blk in v.refs ==> blk in v.loc)
    && (forall blk :: blk in v.pinned ==> blk in v.loc)
    && (forall blk :: blk in v.held ==> blk in v.refs)
    && (forall blk :: blk in v.ready ==>
       blk in v.held && blk in v.loc && v.loc[blk] == v.ready[blk] && bufs[v.loc[blk]].valid)
  }

  ghost predicate Coherent(bufs: seq<Buf>, v: View)
    requires Indexed(bufs, v)
  {
    && (forall blk :: blk in v.loc ==>
          if bufs[v.loc[blk]].valid then bufs[v.loc[blk]].data == v.cur[blk]
          else blk !in v.dirty && blk !in v.pinned && bufs[v.loc[blk]].refcnt > 0)
    && (forall blk :: 0 <= blk < |v.disk| && blk !in v.dirty ==> v.cur[blk] == v.disk[blk])
    && (forall blk :: blk in v.dirty ==> blk in v.pinned || blk in v.held)
  }

  ghost predicate Inv(bufs: seq<Buf>, v: View)
  {
    Indexed(bufs, v) && Counted(bufs, v) && Coherent(bufs, v) && |v.trace| > 0 && v.trace[|v.trace| - 1] == v.disk
  }

  /** Blocks whose buffer has been recycled for them but not read in yet. */
  ghost function Pending(bufs: seq<Buf>, v: View): (s: set<nat>)
  {
    set blk | blk in v.loc && v.loc[blk] < |bufs| && !bufs[v.loc[blk]].valid
  }

  ghost function PendingCount(bufs: seq<Buf>, v: View): (n: nat)
  {
    |Pending(bufs, v)|
  }

  /** The blocks that hold a buffer in place. */
  ghost function InUse(v: View): (s: set<nat>)
  {
    (set blk | blk in v.refs) + v.pinned
  }

  // ---- what the operations do to the view ----

  ghost function Taken(v: View, blk: nat, loc: map<nat, nat>): (r: View)
  {
    v.(refs := v.refs + multiset{blk}, loc := loc)
  }

  ghost function Locked(v: View, blk: nat): (r: View)
  {
    v.(held := v.held + {blk})
  }

  ghost function Filled(v: View, blk: nat, b: nat): (r: View)
  {
    v.(ready := v.ready[blk := b])
  }

  ghost function Stored(v: View, blk: nat, data: Block): (r: View)
    requires blk < |v.cur|
  {
    v.(cur := v.cur[blk := data], dirty := v.dirty + {blk})
  }

  ghost function Written(v: View, blk: nat): (r: View)
    requires blk < |v.cur| == |v.disk|
  {
    var disk := v.disk[blk := v.cur[blk]];
    v.(disk := disk, dirty := v.dirty - {blk}, trace := v.trace + [disk])
  }

  ghost function Pinned(v: View, blk: nat): (r: View)
  {
    v.(pinned := v.pinned + {blk})
  }

  ghost function Unpinned(v: View, blk: nat): (r: View)
  {
    v.(pinned := v.pinned - {blk})
  }

  ghost function Unlocked(v: View, blk: nat): (r: View)
  {
    v.(held := v.held - {blk}, ready := v.ready - {blk})
  }

  ghost function Dropped(v: View, blk: nat): (r: View)
  {
    v.(refs := v.refs - multiset{blk})
  }

  ghost function ReadIn(v: View, blk: nat, b: nat, loc: map<nat, nat>): (r: View)
  {
    Filled(Locked(Taken(v, blk, loc), blk), blk, b)
  }

  ghost function Released(v: View, blk: nat): (r: View)
  {
    Dropped(Unlocked(v, blk), blk)
  }

  // ---- each of them keeps the invariant ----

  /** Replacing the buffer of `blk` by one for the same block. */
  lemma UpdateIndexed(bufs: seq<Buf>, v: View, blk: nat, b: Buf, v': View)
    requires Indexed(bufs, v) && blk in v.loc && b.dev == ROOTDEV && b.blockno == blk
    requires v'.loc == v.loc && Elsewhere(v, v', blk)
    ensures v.loc[blk] < |bufs| && Indexed(bufs[v.loc[blk] := b], v')
    ensures forall x :: x in v.loc && x != blk ==> v.loc[x] != v.loc[blk]
  {
  }

  lemma UpdatePending(bufs: seq<Buf>, v: View, blk: nat, b: Buf, v': View)
    requires blk in v.loc && v.loc[blk] < |bufs| && v'.loc == v.loc
    requires forall x :: x in v.loc && x != blk ==> v.loc[x] != v.loc[blk]
    ensures PendingCount(bufs[v.loc[blk] := b], v') ==
              PendingCount(bufs, v) + (if b.valid then 0 else 1) - (if bufs[v.loc[blk]].valid then 0 else 1)
  {
    var p, p' := Pending(bufs, v), Pending(bufs[v.loc[blk] := b], v');
    var want := if b.valid then p - {blk} else p + {blk};
    forall x
      ensures x in p' <==> x in want
    {
      if x in v.loc && x != blk && v.loc[x] < |bufs| {
        assert bufs[v.loc[blk] := b][v.loc[x]] == bufs[v.loc[x]];
      }
    }
    assert p' == want;
    assert blk in p <==> !bufs[v.loc[blk]].valid;
    OneMoreOrLess(p, blk);
  }

  lemma OneMoreOrLess(p: set<nat>, x: nat)
    ensures |p + {x}| == |p| + (if x in p then 0 else 1) && |p - {x}| == |p| - (if x in p then 1 else 0)
  {
    assert if x in p then p + {x} == p else p - {x} == p;
  }

  ghost predicate Elsewhere(v: View, v': View, blk: nat)
  {
    && |v'.cur| == |v.cur| && |v'.disk| == |v.disk|
    && (forall x :: 0 <= x < |v.cur| && x != blk ==> v'.cur[x] == v.cur[x])
    && (forall x :: 0 <= x < |v.disk| && x != blk ==> v'.disk[x] == v.disk[x])
    && (forall x :: x != blk ==> (x in v'.dirty <==> x in v.dirty))
    && (forall x :: x != blk ==> (x in v'.pinned <==> x in v.pinned))
    && (forall x :: x != blk ==> (x in v'.held <==> x in v.held))
    && (forall x :: x != blk ==> v'.refs[x] == v.refs[x])
    && (forall x :: x != blk ==> (x in v'.ready <==> x in v.ready))
    && (forall x :: x != blk && x in v.ready ==> v'.ready[x] == v.ready[x])
  }

  ghost predicate LocallyOk(v: View, blk: nat, b: Buf)
    requires blk < |v.cur| == |v.disk| && blk in v.loc
  {
    && b.refcnt == v.refs[blk] + (if blk in v.pinned then 1 else 0)
    && (b.held <==> blk in v.held)
    && (blk in v.held ==> blk in v.refs)
    && (blk in v.ready ==> blk in v.held && v.ready[blk] == v.loc[blk] && b.valid)
    && (if b.valid then b.data == v.cur[blk] else blk !in v.dirty && blk !in v.pinned && b.refcnt > 0)
    && (blk !in v.dirty ==> v.cur[blk] == v.disk[blk])
    && (blk in v.dirty ==> blk in v.pinned || blk in v.held)
  }

  lemma Apart(bufs: seq<Buf>, v: View, blk: nat)
    requires Indexed(bufs, v) && blk in v.loc
    ensures |bufs| == NBUF && v.loc[blk] < NBUF
    ensures forall x :: x in v.loc ==> v.loc[x] < NBUF && (x != blk ==> v.loc[x] != v.loc[blk])
  {
  }

  lemma UpdateCounted(bufs: seq<Buf>, v: View, blk: nat, b: Buf, v': View)
    requires Indexed(bufs, v) && Counted(bufs, v) && blk in v.loc && b.dev == ROOTDEV && b.blockno == blk
    requires v'.loc == v.loc && Elsewhere(v, v', blk) && LocallyOk(v', blk, b)
    requires Indexed(bufs[v.loc[blk] := b], v')
    ensures Counted(bufs[v.loc[blk] := b], v')
  {
    hide Indexed;
    Apart(bufs, v, blk);
    var bufs' := bufs[v.loc[blk] := b];
    assert forall x :: x in v.loc && x != blk ==> bufs'[v.loc[x]] == bufs[v.loc[x]];
  }

  lemma UpdateCoherent(bufs: seq<Buf>, v: View, blk: nat, b: Buf, v': View)
    requires Indexed(bufs, v) && Coherent(bufs, v) && blk in v.loc && b.dev == ROOTDEV && b.blockno == blk
    requires v'.loc == v.loc && Elsewhere(v, v', blk) && LocallyOk(v', blk, b)
    requires Indexed(bufs[v.loc[blk] := b], v')
    ensures Coherent(bufs[v.loc[blk] := b], v')
  {
  }

  lemma UpdateKeeps(bufs: seq<Buf>, v: View, blk: nat, b: Buf, v': View)
    requires Inv(bufs, v) && blk in v.loc && b.dev == ROOTDEV && b.blockno == blk && blk < |v.disk| == |v.cur|
    requires v'.loc == v.loc && Elsewhere(v, v', blk) && LocallyOk(v', blk, b)
    requires |v'.trace| > 0 && v'.trace[|v'.trace| - 1] == v'.disk
    ensures v.loc[blk] < |bufs| && Inv(bufs[v.loc[blk] := b], v')
    ensures PendingCount(bufs[v.loc[blk] := b], v') ==
              PendingCount(bufs, v) + (if b.valid then 0 else 1) - (if bufs[v.loc[blk]].valid then 0 else 1)
  {
    hide Indexed, Counted, Coherent, Elsewhere, LocallyOk, PendingCount;
    UpdateIndexed(bufs, v, blk, b, v');
    UpdatePending(bufs, v, blk, b, v');
    UpdateCounted(bufs, v, blk, b, v');
    UpdateCoherent(bufs, v, blk, b, v');
  }

  /** What the invariant says about the buffer of a block that someone uses. */
  lemma UsedFacts(bufs: seq<Buf>, v: View, blk: nat)
    requires Inv(bufs, v) && (blk in v.loc || blk in v.refs || blk in v.pinned || blk in v.held)
    ensures |bufs| == NBUF && |v.cur| == |v.disk| && |v.trace| > 0 && v.trace[|v.trace| - 1] == v.disk
    ensures blk in v.loc && v.loc[blk] < NBUF && blk < |v.disk|
    ensures LocallyOk(v, blk, bufs[v.loc[blk]])
    ensures bufs[v.loc[blk]].dev == ROOTDEV && bufs[v.loc[blk]].blockno == blk
  {
  }

  lemma ReadyFacts(bufs: seq<Buf>, v: View, blk: nat)
    requires Inv(bufs, v) && blk in v.ready
    ensures |bufs| == NBUF && |v.cur| == |v.disk| && |v.trace| > 0 && v.trace[|v.trace| - 1] == v.disk
    ensures blk in v.loc && v.loc[blk] == v.ready[blk] < NBUF && blk < |v.disk|
    ensures LocallyOk(v, blk, bufs[v.loc[blk]])
    ensures bufs[v.loc[blk]].dev == ROOTDEV && bufs[v.loc[blk]].blockno == blk
    ensures blk in v.held && v.refs[blk] > 0 && bufs[v.loc[blk]].valid && bufs[v.loc[blk]].data == v.cur[blk]
  {
    assert blk in v.refs;
    UsedFacts(bufs, v, blk);
  }

  lemma Located(bufs: seq<Buf>, v: View, i: nat)
    requires Inv(bufs, v) && i < NBUF && bufs[i].dev == ROOTDEV
    ensures |bufs| == NBUF && bufs[i].blockno in v.loc && v.loc[bufs[i].blockno] == i
  {
  }

  lemma LookupFacts(bufs: seq<Buf>, v: View, blk: nat)
    requires Inv(bufs, v)
    ensures |bufs| == NBUF
    ensures blk in v.loc ==> v.loc[blk] < NBUF && bufs[v.loc[blk]].dev == ROOTDEV && bufs[v.loc[blk]].blockno == blk
  {
  }

  lemma HitStep(bufs: seq<Buf>, v: View, i: nat)
    requires Inv(bufs, v) && i < NBUF && bufs[i].dev == ROOTDEV
    ensures |bufs| == NBUF && bufs[i].blockno in v.loc && v.loc[bufs[i].blockno] == i
    ensures var bufs' := bufs[i := bufs[i].(refcnt := bufs[i].refcnt + 1)];
            var v' := Taken(v, bufs[i].blockno, v.loc);
            Inv(bufs', v') && PendingCount(bufs', v') == PendingCount(bufs, v)
  {
    hide Inv, PendingCount, Pending;
    Located(bufs, v, i);
    var blk := bufs[i].blockno;
    UsedFacts(bufs, v, blk);
    UpdateKeeps(bufs, v, blk, bufs[i].(refcnt := bufs[i].refcnt + 1), Taken(v, blk, v.loc));
  }

  lemma LockStep(bufs: seq<Buf>, v: View, blk: nat)
    requires Inv(bufs, v) && blk in v.refs && blk !in v.held && blk in v.loc
    ensures |bufs| == NBUF && v.loc[blk] < NBUF
    ensures var i := v.loc[blk];
            var bufs' := bufs[i := bufs[i].(held := true)];
            var v' := if bufs[i].valid then Filled(Locked(v, blk), blk, i) else Locked(v, blk);
            Inv(bufs', v') && PendingCount(bufs', v') == PendingCount(bufs, v)
  {
    hide Inv, PendingCount, Pending;
    UsedFacts(bufs, v, blk);
    var i := v.loc[blk];
    UpdateKeeps(bufs, v, blk, bufs[i].(held := true), if bufs[i].valid then Filled(Locked(v, blk), blk, i)
        else Locked(v, blk));
  }

  lemma FillStep(bufs: seq<Buf>, v: View, blk: nat)
    requires Inv(bufs, v) && blk in v.held && blk in v.loc && v.loc[blk] < |bufs| && !bufs[v.loc[blk]].valid
    ensures |bufs| == NBUF && blk < |v.disk|
    ensures var i := v.loc[blk];
            var bufs' := bufs[i := bufs[i].(data := v.disk[blk], valid := true)];
            Inv(bufs', Filled(v, blk, i)) && PendingCount(bufs', Filled(v, blk, i)) == PendingCount(bufs, v) - 1
  {
    hide Inv, PendingCount, Pending;
    UsedFacts(bufs, v, blk);
    var i := v.loc[blk];
    UpdateKeeps(bufs, v, blk, bufs[i].(data := v.disk[blk], valid := true), Filled(v, blk, i));
  }

  lemma StoreStep(bufs: seq<Buf>, v: View, blk: nat, data: Block)
    requires Inv(bufs, v) && blk in v.ready
    ensures |bufs| == NBUF && v.ready[blk] < NBUF && blk < |v.cur|
    ensures var bufs' := bufs[v.ready[blk] := bufs[v.ready[blk]].(data := data)];
            Inv(bufs', Stored(v, blk, data)) && PendingCount(bufs', Stored(v, blk, data)) == PendingCount(bufs, v)
  {
    hide Inv, PendingCount, Pending;
    ReadyFacts(bufs, v, blk);
    UpdateKeeps(bufs, v, blk, bufs[v.loc[blk]].(data := data), Stored(v, blk, data));
  }

  lemma WriteStep(bufs: seq<Buf>, v: View, blk: nat)
    requires Inv(bufs, v) && blk in v.ready
    ensures |bufs| == NBUF && v.ready[blk] < NBUF && blk < |v.cur| == |v.disk|
    ensures bufs[v.ready[blk]].data == v.cur[blk] && bufs[v.ready[blk]].blockno == blk
    ensures Inv(bufs, Written(v, blk)) && PendingCount(bufs, Written(v, blk)) == PendingCount(bufs, v)
  {
    hide Inv, PendingCount, Pending;
    ReadyFacts(bufs, v, blk);
    UpdateKeeps(bufs, v, blk, bufs[v.loc[blk]], Written(v, blk));
    assert bufs[v.loc[blk] := bufs[v.loc[blk]]] == bufs;
  }

  lemma PinStep(bufs: seq<Buf>, v: View, blk: nat)
    requires Inv(bufs, v) && blk in v.ready && blk !in v.pinned
    ensures |bufs| == NBUF && v.ready[blk] < NBUF
    ensures var bufs' := bufs[v.ready[blk] := bufs[v.ready[blk]].(refcnt := bufs[v.ready[blk]].refcnt + 1)];
            Inv(bufs', Pinned(v, blk)) && PendingCount(bufs', Pinned(v, blk)) == PendingCount(bufs, v)
  {
    hide Inv, PendingCount, Pending;
    ReadyFacts(bufs, v, blk);
    UpdateKeeps(bufs, v, blk, bufs[v.loc[blk]].(refcnt := bufs[v.loc[blk]].refcnt + 1), Pinned(v, blk));
  }

  lemma UnpinStep(bufs: seq<Buf>, v: View, blk: nat)
    requires Inv(bufs, v) && blk in v.ready && blk in v.pinned
    ensures |bufs| == NBUF && v.ready[blk] < NBUF && bufs[v.ready[blk]].refcnt > 0
    ensures var bufs' := bufs[v.ready[blk] := bufs[v.ready[blk]].(refcnt := bufs[v.ready[blk]].refcnt - 1)];
            Inv(bufs', Unpinned(v, blk)) && PendingCount(bufs', Unpinned(v, blk)) == PendingCount(bufs, v)
  {
    hide Inv, PendingCount, Pending;
    ReadyFacts(bufs, v, blk);
    UpdateKeeps(bufs, v, blk, bufs[v.loc[blk]].(refcnt := bufs[v.loc[blk]].refcnt - 1), Unpinned(v, blk));
  }

  lemma UnlockStep(bufs: seq<Buf>, v: View, blk: nat)
    requires Inv(bufs, v) && blk in v.ready && (blk in v.dirty ==> blk in v.pinned)
    ensures |bufs| == NBUF && v.ready[blk] < NBUF
    ensures blk in v.refs && blk in v.loc && v.loc[blk] == v.ready[blk] && bufs[v.ready[blk]].valid
    ensures var bufs' := bufs[v.ready[blk] := bufs[v.ready[blk]].(held := false)];
            Inv(bufs', Unlocked(v, blk)) && PendingCount(bufs', Unlocked(v, blk)) == PendingCount(bufs, v)
  {
    hide Inv, PendingCount, Pending;
    ReadyFacts(bufs, v, blk);
    UpdateKeeps(bufs, v, blk, bufs[v.loc[blk]].(held := false), Unlocked(v, blk));
  }

  lemma DropStep(bufs: seq<Buf>, v: View, blk: nat)
    requires Inv(bufs, v) && blk in v.refs && blk !in v.held && blk in v.loc && v.loc[blk] < |bufs|
        && bufs[v.loc[blk]].valid
    ensures |bufs| == NBUF && bufs[v.loc[blk]].refcnt > 0
    ensures var bufs' := bufs[v.loc[blk] := bufs[v.loc[blk]].(refcnt := bufs[v.loc[blk]].refcnt - 1)];
            Inv(bufs', Dropped(v, blk)) && PendingCount(bufs', Dropped(v, blk)) == PendingCount(bufs, v)
  {
    hide Inv, PendingCount, Pending;
    UsedFacts(bufs, v, blk);
    UpdateKeeps(bufs, v, blk, bufs[v.loc[blk]].(refcnt := bufs[v.loc[blk]].refcnt - 1), Dropped(v, blk));
  }

  // ---- recycling ----

  /** Where the blocks are once buffer `i` has been given to `blk`. */
  ghost function Relocated(v: View, i: nat, blk: nat): (r: map<nat, nat>)
    ensures blk in r && r[blk] == i
    ensures forall x :: x != blk ==> (x in r <==> x in v.loc && v.loc[x] != i)
    ensures forall x :: x in r && x != blk ==> r[x] == v.loc[x]
  {
    (map x | x in v.loc && v.loc[x] != i :: v.loc[x])[blk := i]
  }

  ghost function Recycled(bufs: seq<Buf>, i: nat, blk: nat): (r: seq<Buf>)
    requires i < |bufs|
  {
    bufs[i := bufs[i].(dev := ROOTDEV, blockno := blk, valid := false, refcnt := 1)]
  }

  lemma RecycleIndexed(bufs: seq<Buf>, v: View, i: nat, blk: nat)
    requires Indexed(bufs, v) && i < NBUF && blk < |v.disk| && blk !in v.loc
    ensures Indexed(Recycled(bufs, i, blk), Taken(v, blk, Relocated(v, i, blk)))
  {
  }

  lemma Unreferenced(bufs: seq<Buf>, v: View, i: nat)
    requires Indexed(bufs, v) && Counted(bufs, v) && i < NBUF && bufs[i].refcnt == 0
    ensures |bufs| == NBUF && !bufs[i].held
    ensures forall x :: x in v.loc && v.loc[x] == i ==> x !in v.refs && x !in v.pinned && x !in v.held && x !in v.ready
    ensures forall x :: x in v.loc ==> v.loc[x] < NBUF
  {
    if bufs[i].dev == ROOTDEV {
      assert v.loc[bufs[i].blockno] == i;
    }
  }

  lemma RecycleCounted(bufs: seq<Buf>, v: View, i: nat, blk: nat)
    requires Indexed(bufs, v) && Counted(bufs, v)
    requires i < NBUF && bufs[i].refcnt == 0 && blk < |v.disk| && blk !in v.loc
    requires Indexed(Recycled(bufs, i, blk), Taken(v, blk, Relocated(v, i, blk)))
    ensures Counted(Recycled(bufs, i, blk), Taken(v, blk, Relocated(v, i, blk)))
  {
    hide Indexed, Relocated;
    Unreferenced(bufs, v, i);
    var bufs', v' := Recycled(bufs, i, blk), Taken(v, blk, Relocated(v, i, blk));
    assert blk !in v.refs && blk !in v.pinned && blk !in v.held;
    assert forall x :: x in v'.loc && x != blk ==>
        x in v.loc && v'.loc[x] == v.loc[x] && bufs'[v.loc[x]] == bufs[v.loc[x]];
  }

  lemma RecycleCoherent(bufs: seq<Buf>, v: View, i: nat, blk: nat)
    requires Indexed(bufs, v) && Coherent(bufs, v) && i < NBUF && blk < |v.disk| && blk !in v.dirty && blk !in v.pinned
    requires Indexed(Recycled(bufs, i, blk), Taken(v, blk, Relocated(v, i, blk)))
    ensures Coherent(Recycled(bufs, i, blk), Taken(v, blk, Relocated(v, i, blk)))
  {
  }

  lemma RecyclePending(bufs: seq<Buf>, v: View, i: nat, blk: nat)
    requires i < |bufs| && blk !in v.loc
    requires forall x :: x in v.loc && v.loc[x] == i ==> bufs[i].valid
    ensures PendingCount(Recycled(bufs, i, blk), Taken(v, blk, Relocated(v, i, blk))) == PendingCount(bufs, v) + 1
  {
    hide Relocated;
    var bufs', v' := Recycled(bufs, i, blk), Taken(v, blk, Relocated(v, i, blk));
    var p, p' := Pending(bufs, v), Pending(bufs', v');
    forall x
      ensures x in p' <==> x in p || x == blk
    {
      if x != blk && x in v.loc && v.loc[x] != i {
        assert v'.loc[x] == v.loc[x];
      }
    }
    assert p' == p + {blk};
  }

  /** A miss takes an unreferenced buffer away from whatever clean block it held. */
  lemma RecycleStep(bufs: seq<Buf>, v: View, i: nat, blk: nat)
    requires Inv(bufs, v) && i < NBUF && bufs[i].refcnt == 0 && blk < |v.disk| && blk !in v.loc
    ensures |bufs| == NBUF
    ensures Inv(Recycled(bufs, i, blk), Taken(v, blk, Relocated(v, i, blk)))
    ensures PendingCount(Recycled(bufs, i, blk), Taken(v, blk, Relocated(v, i, blk))) == PendingCount(bufs, v) + 1
  {
    RecycleIndexed(bufs, v, i, blk);
    RecycleCounted(bufs, v, i, blk);
    assert blk !in v.dirty && blk !in v.pinned by {
      assert blk !in v.pinned && blk !in v.refs;
    }
    RecycleCoherent(bufs, v, i, blk);
    RecyclePending(bufs, v, i, blk);
  }

  /** A buffer that was recycled and not read in yet has a reference, and no pin. */
  lemma NonePending(bufs: seq<Buf>, v: View)
    requires Inv(bufs, v) && v.refs == multiset{}
    ensures PendingCount(bufs, v) == 0
  {
    assert Pending(bufs, v) == {};
  }

  // ---- free buffers ----

  ghost function Busy(bufs: seq<Buf>): (s: set<nat>)
  {
    set i | i in UpTo(|bufs|) && bufs[i].refcnt > 0
  }

  /** The buffers in use are as many as the blocks in use. */
  lemma BusyCard(bufs: seq<Buf>, v: View)
    requires Inv(bufs, v)
    ensures |bufs| == NBUF && |Busy(bufs)| == |InUse(v)| <= NBUF
  {
    var used, busy := InUse(v), Busy(bufs);
    UsedToBusy(bufs, v);
    InjectionCard(used, busy, v.loc);
    var back := map i | i in busy :: bufs[i].blockno;
    BusyToUsed(bufs, v);
    InjectionCard(busy, used, back);
    SubsetCard(busy, UpTo(|bufs|));
  }

  lemma UsedToBusy(bufs: seq<Buf>, v: View)
    requires Inv(bufs, v)
    ensures forall x :: x in InUse(v) ==> x in v.loc && v.loc[x] in Busy(bufs)
    ensures forall x, y :: x in v.loc && y in v.loc && v.loc[x] == v.loc[y] ==> x == y
  {
  }

  lemma BusyToUsed(bufs: seq<Buf>, v: View)
    requires Inv(bufs, v)
    ensures |bufs| == NBUF
    ensures forall i :: i in Busy(bufs) ==> bufs[i].blockno in InUse(v)
    ensures forall i, j :: i in Busy(bufs) && j in Busy(bufs) && bufs[i].blockno == bufs[j].blockno ==> i == j
  {
  }

  lemma AllBusy(bufs: seq<Buf>)
    ensures (forall i :: 0 <= i < |bufs| ==> bufs[i].refcnt > 0) <==> |Busy(bufs)| == |bufs|
  {
    var all, busy := UpTo(|bufs|), Busy(bufs);
    SubsetCard(busy, all);
    if i :| 0 <= i < |bufs| && bufs[i].refcnt == 0 {
      assert i in all && i !in busy;
    } else {
      assert busy == all;
    }
  }

  lemma NoneBusy()
    ensures Busy([]) == {}
  {
  }

  lemma BusySnoc(bufs: seq<Buf>)
    requires |bufs| > 0
    ensures |Busy(bufs)| == |Busy(bufs[..|bufs| - 1])| + if bufs[|bufs| - 1].refcnt > 0 then 1 else 0
  {
    var n := |bufs| - 1;
    assert Busy(bufs) == Busy(bufs[..n]) + if bufs[n].refcnt > 0 then {n} else {};
  }

  /** Every buffer is taken exactly when NBUF blocks are in use, and then by those blocks. */
  lemma NoFreeBuffer(bufs: seq<Buf>, v: View)
    requires Inv(bufs, v)
    ensures |bufs| == NBUF
    ensures (forall i :: 0 <= i < NBUF ==> bufs[i].refcnt > 0) <==> |InUse(v)| == NBUF
    ensures |InUse(v)| <= NBUF
    ensures |InUse(v)| == NBUF ==> v.loc.Keys == InUse(v)
  {
    BusyCard(bufs, v);
    AllBusy(bufs);
    if |InUse(v)| == NBUF {
      AllInUse(bufs, v);
    }
  }

  lemma AllInUse(bufs: seq<Buf>, v: View)
    requires Inv(bufs, v) && forall i :: 0 <= i < |bufs| ==> bufs[i].refcnt > 0
    ensures v.loc.Keys == InUse(v)
  {
  }

  // ---- the ring ----

  /** The ring holds every buffer, in order of release. */
  ghost predicate LruRing(prev: seq<nat>, next: seq<nat>, order: seq<nat>, stamp: seq<int>, clock: nat)
  {
    && |order| == NBUF && |stamp| == NBUF
    && Linked(HEAD, prev, next, order)
    && (forall i, j :: 0 <= i < j < NBUF ==> stamp[order[i]] > stamp[order[j]])
    && (forall i :: 0 <= i < NBUF ==> stamp[i] < clock)
  }

  ghost function PositionOf(prev: seq<nat>, next: seq<nat>, order: seq<nat>, stamp: seq<int>, clock: nat,
                            b: nat): (p: nat)
    requires LruRing(prev, next, order, stamp, clock) && b < NBUF
    ensures p < |order| == NBUF && order[p] == b && |stamp| == NBUF && |prev| == |next| == NBUF + 1
  {
    Pigeonhole(order, NBUF, b);
    var p: nat :| p < |order| && order[p] == b;
    p
  }

  lemma Restamped(order: seq<nat>, stamp: seq<int>, clock: nat, p: nat)
    requires |order| == NBUF && |stamp| == NBUF && p < NBUF && Elements(HEAD, order)
    requires forall i, j :: 0 <= i < j < NBUF ==> stamp[order[i]] > stamp[order[j]]
    requires forall i :: 0 <= i < NBUF ==> stamp[i] < clock
    ensures var o, t := [order[p]] + Without(order, p), stamp[order[p] := clock];
            && Elements(HEAD, o)
            && forall i, j :: 0 <= i < j < NBUF ==> t[o[i]] > t[o[j]]
  {
    var b, rest := order[p], Without(order, p);
    var o, t := [b] + rest, stamp[b := clock];
    forall i | 0 <= i < |rest|
      ensures rest[i] == order[if i < p then i else i + 1] && rest[i] != b
    {
    }
    forall i, j | 0 <= i < j < NBUF
      ensures t[o[i]] > t[o[j]]
    {
      assert o[j] == rest[j - 1] != b;
      if i > 0 {
        assert o[i] == rest[i - 1] != b;
      }
    }
  }

  /** Moving a buffer to the front makes it the most recently released one. */
  lemma MoveToFront(prev: seq<nat>, next: seq<nat>, order: seq<nat>, stamp: seq<int>, clock: nat, p: nat)
    requires LruRing(prev, next, order, stamp, clock) && p < NBUF
    ensures next[order[p]] <= HEAD && prev[order[p]] <= HEAD && next[order[p]] != order[p]
    ensures var b := order[p];
            var prev1 := prev[next[b] := prev[b]];
            var next1 := next[prev[b] := next[b]];
            && next1[HEAD] <= HEAD
            && LruRing(prev1[b := HEAD][next1[HEAD] := b], next1[b := next1[HEAD]][HEAD := b],
                       [b] + Without(order, p), stamp[b := clock], clock + 1)
  {
    var b := order[p];
    assert At(HEAD, order, p + 1) == b;
    assert next[b] == At(HEAD, order, p + 2) && prev[b] == At(HEAD, order, p);
    UnlinkRing(HEAD, prev, next, order, p);
    var prev1 := prev[next[b] := prev[b]];
    var next1 := next[prev[b] := next[b]];
    var rest := Without(order, p);
    assert next1[HEAD] == At(HEAD, rest, 1) by {
      assert At(HEAD, rest, 0) == HEAD;
    }
    PushFrontRing(HEAD, prev1, next1, rest, b);
    Restamped(order, stamp, clock, p);
  }

  lemma InitialInv(bufs: seq<Buf>, d: seq<Block>)
    requires |bufs| == NBUF
    requires forall i :: 0 <= i < NBUF ==> bufs[i].dev == 0 && bufs[i].refcnt == 0 && !bufs[i].held
    ensures Inv(bufs, Fresh(d)) && PendingCount(bufs, Fresh(d)) == 0
  {
    assert Pending(bufs, Fresh(d)) == {};
  }

  ghost function Fresh(d: seq<Block>): (v: View)
  {
    View(d, d, [d], {}, multiset{}, {}, {}, map[], map[])
  }

  class BufferCache {
    var bufs: seq<Buf>
    var prev: seq<nat>
    var next: seq<nat>
    var disk: seq<Block>
    var history: seq<seq<Block>>      // the disk after each write that has reached it

    // The monitor's counters.
    var lookups: nat
    var hits: nat
    var recycles: nat
    var diskReads: nat

    // The ring as a sequence, most recently released first, and when each was released.
    ghost var order: seq<nat>
    ghost var stamp: seq<int>
    ghost var clock: nat

    ghost var v: View

    ghost predicate Valid()
      reads this
    {
      && LruRing(prev, next, order, stamp, clock)
      && Inv(bufs, v)
      && disk == v.disk && history == v.trace
      && lookups == hits + recycles
      && recycles == diskReads + PendingCount(bufs, v)
    }

    // binit: push every buffer at the front, so that buffer 0 is the first to be recycled.
    constructor (d: seq<Block>)
      ensures Valid() && v == Fresh(d)
      ensures clock == 0 && forall i :: 0 <= i < NBUF ==> stamp[i] == i - NBUF
    {
      hide Inv, Indexed, Counted, Coherent, Pending;
      bufs := seq(NBUF, _ => Buf(false, 0, 0, 0, false, ZeroBlock()));
      prev := seq(NBUF + 1, _ => HEAD);
      next := seq(NBUF + 1, _ => HEAD);
      disk, history := d, [d];
      lookups, hits, recycles, diskReads := 0, 0, 0, 0;
      order, stamp, clock := [], seq(NBUF, i => i - NBUF), 0;
      v := Fresh(d);
      new;
      var b := 0;
      while b < NBUF
        invariant 0 <= b <= NBUF
        invariant |order| == b && Linked(HEAD, prev, next, order)
        invariant forall j :: 0 <= j < b ==> order[j] == b - 1 - j
        modifies this`prev, this`next, this`order
      {
        assert At(HEAD, order, 0) == HEAD;
        assert next[HEAD] == At(HEAD, order, 1) <= HEAD;
        PushFrontRing(HEAD, prev, next, order, b);
        next := next[b := next[HEAD]];
        prev := prev[b := HEAD];
        prev := prev[next[HEAD] := b];
        next := next[HEAD := b];
        order := [b] + order;
        b := b + 1;
      }
      InitialInv(bufs, d);
    }

    lemma OrderCovers(i: nat)
      requires LruRing(prev, next, order, stamp, clock) && i < NBUF
      ensures i in order
    {
      Pigeonhole(order, NBUF, i);
    }

    // First loop of bget: from the most recently released end.
    method Lookup(blk: nat) returns (r: Option<nat>)
      requires LruRing(prev, next, order, stamp, clock) && |bufs| == NBUF
      ensures r.Some? ==> r.value < NBUF && bufs[r.value].dev == ROOTDEV && bufs[r.value].blockno == blk
      ensures r.None? ==> forall i :: 0 <= i < NBUF ==> !(bufs[i].dev == ROOTDEV && bufs[i].blockno == blk)
    {
      assert At(HEAD, order, 0) == HEAD;
      var b := next[HEAD];
      ghost var k := 1;
      while b != HEAD
        invariant 1 <= k <= NBUF + 1 && b == At(HEAD, order, k)
        invariant forall j :: 0 <= j < k - 1 ==> !(bufs[order[j]].dev == ROOTDEV && bufs[order[j]].blockno == blk)
        decreases NBUF + 1 - k
      {
        if bufs[b].dev == ROOTDEV && bufs[b].blockno == blk {
          return Some(b);
        }
        b := next[b];
        k := k + 1;
      }
      forall i: nat | i < NBUF
        ensures !(bufs[i].dev == ROOTDEV && bufs[i].blockno == blk)
      {
        OrderCovers(i);
      }
      return None;
    }

    // Second loop of bget: from the least recently released end.
    method FindVictim() returns (r: Option<nat>)
      requires LruRing(prev, next, order, stamp, clock) && |bufs| == NBUF
      ensures r.Some? ==> r.value < NBUF && bufs[r.value].refcnt == 0
      ensures r.Some? ==> forall j :: 0 <= j < NBUF && bufs[j].refcnt == 0 ==> stamp[r.value] <= stamp[j]
      ensures r.None? ==> forall j :: 0 <= j < NBUF ==> bufs[j].refcnt > 0
    {
      assert At(HEAD, order, NBUF + 1) == HEAD;
      var b := prev[HEAD];
      ghost var k := NBUF;
      while b != HEAD
        invariant 0 <= k <= NBUF && b == At(HEAD, order, k)
        invariant forall j :: k <= j < NBUF ==> bufs[order[j]].refcnt > 0
        decreases k
      {
        if bufs[b].refcnt == 0 {
          forall j: nat | j < NBUF && bufs[j].refcnt == 0
            ensures stamp[b] <= stamp[j]
          {
            OrderCovers(j);
            var p :| 0 <= p < NBUF && order[p] == j;
          }
          return Some(b);
        }
        b := prev[b];
        k := k - 1;
      }
      forall j: nat | j < NBUF
        ensures bufs[j].refcnt > 0
      {
        OrderCovers(j);
      }
      return None;
    }

    // bget's critical section. None is the "no buffers" panic.
    method Bget(blk: nat) returns (r: Option<nat>)
      requires Valid() && blk < |v.disk|
      modifies this`bufs, this`v, this`lookups, this`hits, this`recycles
      ensures r.None? <==> blk !in old(v).loc && |InUse(old(v))| == NBUF
      ensures r.None? ==> Valid() && v == old(v)
      ensures r.Some? ==> Valid() && blk in v.loc && v.loc[blk] == r.value && v == Taken(old(v), blk, v.loc)
      // a hit leaves every buffer where it was
      ensures r.Some? && blk in old(v).loc ==> v.loc == old(v).loc && hits == old(hits) + 1 && recycles == old(recycles)
      // a miss takes the unreferenced buffer released longest ago, and only that one
      ensures r.Some? && blk !in old(v).loc ==>
                && hits == old(hits) && recycles == old(recycles) + 1
                && old(bufs)[r.value].refcnt == 0
                && (forall j :: 0 <= j < NBUF && old(bufs)[j].refcnt == 0 ==> stamp[r.value] <= stamp[j])
                && v.loc == Relocated(old(v), r.value, blk)
      ensures r.Some? ==> r.value < |bufs|
    {
      hide Inv, LruRing, PendingCount, Relocated, InUse;
      NoFreeBuffer(bufs, v);
      LookupFacts(bufs, v, blk);
      r := Lookup(blk);
      if r.Some? {
        HitStep(bufs, v, r.value);
        v := Taken(v, blk, v.loc);
        bufs := bufs[r.value := bufs[r.value].(refcnt := bufs[r.value].refcnt + 1)];
        lookups, hits := lookups + 1, hits + 1;
      } else {
        r := FindVictim();
        if r.Some? {
          RecycleStep(bufs, v, r.value, blk);
          v := Taken(v, blk, Relocated(v, r.value, blk));
          bufs := bufs[r.value := bufs[r.value].(dev := ROOTDEV, blockno := blk, valid := false, refcnt := 1)];
          lookups, recycles := lookups + 1, recycles + 1;
        }
      }
    }

    // The sleep lock of a buffer, taken by one of those that hold a reference to it.
    method AcquireSleep(b: nat, ghost blk: nat)
      requires Valid() && blk in v.refs && blk !in v.held && blk in v.loc && v.loc[blk] == b
      modifies this`bufs, this`v
      ensures Valid() && b < |bufs|
          && v == (if bufs[b].valid then Filled(Locked(old(v), blk), blk, b) else Locked(old(v), blk))
      ensures blk in v.held && blk in v.loc && v.loc[blk] == b
    {
      hide Inv, LruRing, PendingCount;
      LockStep(bufs, v, blk);
      v := if bufs[b].valid then Filled(Locked(v, blk), blk, b) else Locked(v, blk);
      bufs := bufs[b := bufs[b].(held := true)];
    }

    // virtio_disk_rw(b, 0) followed by valid = 1, in bread.
    method Fill(b: nat, blk: nat)
      requires Valid() && blk in v.held && blk in v.loc && v.loc[blk] == b && b < |bufs| && !bufs[b].valid
      modifies this`bufs, this`v, this`diskReads
      ensures Valid() && v == Filled(old(v), blk, b) && diskReads == old(diskReads) + 1
    {
      hide Inv, LruRing, PendingCount;
      FillStep(bufs, v, blk);
      bufs := bufs[b := bufs[b].(data := disk[blk], valid := true)];
      v := Filled(v, blk, b);
      diskReads := diskReads + 1;
    }

    // bread: the locked buffer of a block. A caller that already has it locked would wait for itself.
    method Bread(blk: nat) returns (r: Option<nat>)
      requires Valid() && blk < |v.disk| && blk !in v.held
      modifies this`bufs, this`v, this`lookups, this`hits, this`recycles, this`diskReads
      ensures r.None? <==> blk !in old(v).loc && |InUse(old(v))| == NBUF
      ensures r.None? ==> Valid() && v == old(v)
      ensures r.Some? ==> Valid() && v == ReadIn(old(v), blk, r.value, v.loc)
    {
      hide Inv, LruRing, PendingCount;
      r := Bget(blk);
      if r.Some? {
        AcquireSleep(r.value, blk);
        if !bufs[r.value].valid {
          Fill(r.value, blk);
        }
      }
    }

    /** While nobody is between bget and the end of bread, disk reads have caught up with recycles. */
    lemma ReadsCaughtUp()
      requires Valid() && v.refs == multiset{}
      ensures diskReads == recycles && lookups == hits + diskReads
    {
      NonePending(bufs, v);
    }

    // The contents a holder sees.
    method Data(b: nat, ghost blk: nat) returns (data: Block)
      requires Valid() && blk in v.ready && v.ready[blk] == b
      ensures blk < |v.cur| == |v.disk| && data == v.cur[blk]
    {
      ReadyFacts(bufs, v, blk);
      data := bufs[b].data;
    }

    // The holder of a buffer changes its contents.
    method Store(b: nat, ghost blk: nat, data: Block)
      requires Valid() && blk in v.ready && v.ready[blk] == b
      modifies this`bufs, this`v
      ensures Valid() && blk < |old(v).cur| && v == Stored(old(v), blk, data)
    {
      hide Inv, LruRing, PendingCount;
      StoreStep(bufs, v, blk, data);
      bufs := bufs[b := bufs[b].(data := data)];
      v := Stored(v, blk, data);
    }

    // bwrite: one atomic disk write.
    method Bwrite(b: nat, ghost blk: nat)
      requires Valid() && blk in v.ready && v.ready[blk] == b
      modifies this`disk, this`history, this`v
      ensures Valid() && blk < |old(v).cur| == |old(v).disk| && v == Written(old(v), blk)
    {
      hide Inv, LruRing, PendingCount;
      WriteStep(bufs, v, blk);
      disk := disk[bufs[b].blockno := bufs[b].data];
      history := history + [disk];
      v := Written(v, blk);
    }

    // bpin and bunpin, on behalf of the log.
    method Bpin(b: nat, ghost blk: nat)
      requires Valid() && blk in v.ready && v.ready[blk] == b && blk !in v.pinned
      modifies this`bufs, this`v
      ensures Valid() && v == Pinned(old(v), blk)
    {
      hide Inv, LruRing, PendingCount;
      PinStep(bufs, v, blk);
      bufs := bufs[b := bufs[b].(refcnt := bufs[b].refcnt + 1)];
      v := Pinned(v, blk);
    }

    method Bunpin(b: nat, ghost blk: nat)
      requires Valid() && blk in v.ready && v.ready[blk] == b && blk in v.pinned
      modifies this`bufs, this`v
      ensures Valid() && v == Unpinned(old(v), blk)
    {
      hide Inv, LruRing, PendingCount;
      UnpinStep(bufs, v, blk);
      bufs := bufs[b := bufs[b].(refcnt := bufs[b].refcnt - 1)];
      v := Unpinned(v, blk);
    }

    // First half of brelse. The contents may differ from the disk only if the log has them.
    method ReleaseSleep(b: nat, ghost blk: nat)
      requires Valid() && blk in v.ready && v.ready[blk] == b && (blk in v.dirty ==> blk in v.pinned)
      modifies this`bufs, this`v
      ensures Valid() && v == Unlocked(old(v), blk)
      ensures blk in v.refs && blk in v.loc && v.loc[blk] == b && b < |bufs| && bufs[b].valid
    {
      hide Inv, LruRing, PendingCount;
      UnlockStep(bufs, v, blk);
      bufs := bufs[b := bufs[b].(held := false)];
      v := Unlocked(v, blk);
    }

    // Second half of brelse: drop the reference and, if it was the last, move to the front.
    method Unref(b: nat, ghost blk: nat)
      requires Valid() && blk in v.refs && blk !in v.held && blk in v.loc && v.loc[blk] == b && b < |bufs|
          && bufs[b].valid
      modifies this`bufs, this`v, this`prev, this`next, this`order, this`stamp, this`clock
      ensures Valid() && v == Dropped(old(v), blk)
      ensures b < |bufs| && b < |stamp| == |old(stamp)|
      ensures if bufs[b].refcnt == 0 then stamp == old(stamp)[b := old(clock)] && clock == old(clock) + 1
          else stamp == old(stamp)
    {
      hide Inv, LruRing, PendingCount;
      DropStep(bufs, v, blk);
      ghost var p := PositionOf(prev, next, order, stamp, clock, b);
      bufs := bufs[b := bufs[b].(refcnt := bufs[b].refcnt - 1)];
      v := Dropped(v, blk);
      if bufs[b].refcnt == 0 {
        MoveFront(b);
      }
    }

    method MoveFront(b: nat)
      requires b < NBUF && LruRing(prev, next, order, stamp, clock)
      modifies this`prev, this`next, this`order, this`stamp, this`clock
      ensures LruRing(prev, next, order, stamp, clock)
      ensures b < |stamp| == |old(stamp)| && stamp == old(stamp)[b := old(clock)] && clock == old(clock) + 1
    {
      hide LruRing;
      ghost var p := PositionOf(prev, next, order, stamp, clock, b);
      MoveToFront(prev, next, order, stamp, clock, p);
      prev := prev[next[b] := prev[b]];
      next := next[prev[b] := next[b]];
      next := next[b := next[HEAD]];
      prev := prev[b := HEAD];
      prev := prev[next[HEAD] := b];
      next := next[HEAD := b];
      order, stamp, clock := [b] + Without(order, p), stamp[b := clock], clock + 1;
    }

    method Brelse(b: nat, ghost blk: nat)
      requires Valid() && blk in v.ready && v.ready[blk] == b && (blk in v.dirty ==> blk in v.pinned)
      modifies this`bufs, this`v, this`prev, this`next, this`order, this`stamp, this`clock
      ensures Valid() && v == Released(old(v), blk)
    {
      hide Inv, LruRing, PendingCount;
      ReleaseSleep(b, blk);
      Unref(b, blk);
    }

    // count_free_cache
    method CountFree() returns (bytes: nat)
      requires Valid()
      ensures bytes == BSIZE * (NBUF - |InUse(v)|)
    {
      hide Inv, LruRing, PendingCount, Busy, InUse;
      BusyCard(bufs, v);
      bytes := 0;
      var i := 0;
      assert bufs[..0] == [];
      NoneBusy();
      while i < |bufs|
        invariant 0 <= i <= |bufs|
        invariant bytes == BSIZE * (i - |Busy(bufs[..i])|)
      {
        assert bufs[..i + 1][..i] == bufs[..i];
        BusySnoc(bufs[..i + 1]);
        if bufs[i].refcnt == 0 {
          bytes := bytes + BSIZE;
        }
        i := i + 1;
      }
      assert bufs[..i] == bufs;
    }
  }
}
