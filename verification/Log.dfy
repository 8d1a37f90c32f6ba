/** log.c over the buffer cache: logging a write, committing, recovering.

    The view's `trace` lists the disk after every write, so a method's contract on `trace`
    says at which disks a crash can happen while it runs.
 */
module Log {
  import opened Blocks
  import opened Collections
  import opened RedoLog
  import opened Cache
  import GroupCommit

  datatype LogWriteResult = Recorded | TooBig | OutsideTransaction

  /** What end_op comes to; the last two are panics. */
  datatype EndResult = Ended | Committed | NoBuffers | WhileCommitting

  ghost predicate Distinct(h: seq<nat>)
  {
    forall i, j :: 0 <= i < j < |h| ==> h[i] != h[j]
  }

  /** Between commits: nothing in the on-disk log, and the in-memory header lists exactly the
      pinned blocks, each once. */
  ghost predicate LogInv(start: nat, lh: seq<nat>, v: View)
  {
    && EmptyLog(start, v.disk) && |v.cur| == |v.disk|
    && |lh| <= LOGBLOCKS && Homes(start, |v.disk|, lh) && Distinct(lh)
    && v.pinned == Elems(lh)
    && (forall blk :: blk in v.dirty ==> !InLog(start, blk))
  }

  /** While the blocks `h` are moved, other processes may have buffers locked and referenced, but not
      those of the log or of `h`, and they have changed none: no operation is running. */
  ghost predicate Quiet(start: nat, h: seq<nat>, v: View)
  {
    && (forall blk :: blk in v.held ==> Apart(start, h, blk))
    && (forall blk :: blk in v.ready ==> Apart(start, h, blk))
    && (forall blk :: blk in v.refs ==> !InLog(start, blk))
    && v.dirty <= v.pinned
  }

  ghost predicate Apart(start: nat, h: seq<nat>, blk: nat)
  {
    !InLog(start, blk) && blk !in h
  }

  /** The view after one block has been read, overwritten, written to disk and released. */
  ghost function Through(v: View, x: nat, data: Block, loc: map<nat, nat>): (r: View)
    requires x < |v.cur| == |v.disk|
  {
    var disk := v.disk[x := data];
    v.(cur := v.cur[x := data], disk := disk, trace := v.trace + [disk], dirty := v.dirty - {x}, loc := loc)
  }

  /** The view after one block has been changed and logged. */
  ghost function Updated(v: View, x: nat, data: Block, loc: map<nat, nat>): (r: View)
    requires x < |v.cur|
  {
    v.(cur := v.cur[x := data], dirty := v.dirty + {x}, pinned := v.pinned + {x}, loc := loc)
  }

  lemma UpdateView(v: View, x: nat, data: Block, b: nat, loc: map<nat, nat>)
    requires x !in v.held && x !in v.ready && x < |v.cur|
    ensures Released(Pinned(Stored(ReadIn(v, x, b, loc), x, data), x), x) == Updated(v, x, data, loc)
    ensures x in v.pinned ==> Released(Stored(ReadIn(v, x, b, loc), x, data), x) == Updated(v, x, data, loc)
  {
    assert v.refs + multiset{x} - multiset{x} == v.refs;
    assert v.held + {x} - {x} == v.held && v.ready[x := b] - {x} == v.ready;
    assert x in v.pinned ==> v.pinned + {x} == v.pinned;
  }

  lemma StoredLogInv(start: nat, lh: seq<nat>, v0: View, blk: nat, b: nat, loc: map<nat, nat>, data: Block)
    requires LogInv(start, lh, v0) && IsHome(start, |v0.disk|, blk)
    ensures LogInv(start, lh, Stored(ReadIn(v0, blk, b, loc), blk, data))
    ensures blk in lh ==> blk in v0.pinned
  {
  }

  lemma HomeInRange(start: nat, lh: seq<nat>, v: View, blk: nat)
    requires LogInv(start, lh, v) && IsHome(start, |v.disk|, blk)
    ensures blk < |v.cur| == |v.disk|
  {
  }

  lemma UpdatedLogInv(start: nat, lh: seq<nat>, v: View, blk: nat, data: Block, loc: map<nat, nat>)
    requires LogInv(start, lh, v) && IsHome(start, |v.disk|, blk) && blk < |v.cur| && |lh| < LOGBLOCKS
    ensures LogInv(start, if blk in lh then lh else lh + [blk], Updated(v, blk, data, loc))
  {
    assert Elems(lh + [blk]) == Elems(lh) + {blk};
  }

  lemma CancelRefs(refs: multiset<nat>, x: nat, y: nat)
    ensures refs + multiset{x} + multiset{y} - multiset{y} - multiset{x} == refs
    ensures refs + multiset{y} + multiset{x} - multiset{y} - multiset{x} == refs
  {
  }

  lemma CancelLocks(held: set<nat>, ready: map<nat, nat>, x: nat, y: nat, b: nat, c: nat, dirty: set<nat>)
    requires x !in held && y !in held && x !in ready && y !in ready
    ensures held + {x} + {y} - {y} - {x} == held && held + {y} + {x} - {y} - {x} == held
    ensures ready[x := b][y := c] - {y} - {x} == ready && ready[y := c][x := b] - {y} - {x} == ready
    ensures dirty + {x} - {x} == dirty - {x}
  {
  }

  /** Reading blocks x and y, writing x through and releasing both. */
  lemma CopyView(v: View, x: nat, y: nat, data: Block, b: nat, c: nat, loc1: map<nat, nat>, loc2: map<nat, nat>)
    requires x !in v.held && y !in v.held && x !in v.ready && y !in v.ready && x != y && x < |v.cur| == |v.disk|
    ensures Released(Released(Written(Stored(ReadIn(ReadIn(v, x, b, loc1), y, c, loc2), x, data), x), y), x)
            == Through(v, x, data, loc2)
    ensures Released(Released(Written(Stored(ReadIn(ReadIn(v, y, c, loc1), x, b, loc2), x, data), x), y), x)
            == Through(v, x, data, loc2)
  {
    CancelRefs(v.refs, x, y);
    CancelLocks(v.held, v.ready, x, y, b, c, v.dirty);
  }

  lemma HeadView(v: View, x: nat, data: Block, b: nat, loc: map<nat, nat>)
    requires x !in v.held && x !in v.ready && x < |v.cur| == |v.disk|
    ensures Released(Written(Stored(ReadIn(v, x, b, loc), x, data), x), x) == Through(v, x, data, loc)
  {
    assert v.refs + multiset{x} - multiset{x} == v.refs;
    assert v.dirty + {x} - {x} == v.dirty - {x};
  }

  lemma ReadView(v: View, x: nat, b: nat, loc: map<nat, nat>)
    requires x !in v.held && x !in v.ready
    ensures Released(ReadIn(v, x, b, loc), x) == v.(loc := loc)
  {
    assert v.refs + multiset{x} - multiset{x} == v.refs;
  }

  lemma SizeFacts(bufs: seq<Buf>, v: View)
    requires Inv(bufs, v)
    ensures |v.cur| == |v.disk| && |InUse(v)| <= NBUF
    ensures forall blk :: blk in v.pinned ==> blk in v.loc
    ensures Clean(v)
    ensures |InUse(v)| == NBUF ==> v.loc.Keys == InUse(v)
  {
    NoFreeBuffer(bufs, v);
  }

  lemma InUseTaken(v: View, blk: nat, b: nat, loc: map<nat, nat>)
    ensures |InUse(ReadIn(v, blk, b, loc))| <= |InUse(v)| + 1
  {
    assert InUse(ReadIn(v, blk, b, loc)) == InUse(v) + {blk};
  }

  /** The view after `tail` steps of write_log from view `v0`. */
  ghost predicate WroteLog(start: nat, lh: seq<nat>, v0: View, v: View, tail: nat)
  {
    && LogInv(start, lh, v0) && tail <= |lh|
    && v.disk == Logged(start, v0.disk, v0.cur, lh, tail)
    && v.trace == v0.trace + LoggedTrace(start, v0.disk, v0.cur, lh, tail)
    && SameHome(start, v.cur, v0.cur)
    && v.dirty == v0.dirty && v.pinned == v0.pinned
    && v.refs == v0.refs && v.held == v0.held && v.ready == v0.ready
  }

  lemma WroteLogStart(start: nat, lh: seq<nat>, v0: View)
    requires LogInv(start, lh, v0)
    ensures WroteLog(start, lh, v0, v0, 0)
  {
  }

  lemma WroteLogFacts(start: nat, lh: seq<nat>, v0: View, v: View, tail: nat)
    requires WroteLog(start, lh, v0, v, tail) && tail < |lh| && Quiet(start, lh, v0)
    ensures start + tail + 1 < |v.disk| && lh[tail] < |v.disk| && lh[tail] != start + tail + 1
    ensures lh[tail] in v.pinned && start + tail + 1 !in v.pinned
    ensures Quiet(start, lh, v) && InUse(v) == InUse(v0) && InLog(start, start + tail + 1)
  {
    assert IsHome(start, |v.disk|, lh[tail]);
  }

  lemma WroteLogNext(start: nat, lh: seq<nat>, v0: View, v1: View, v: View, tail: nat)
    requires WroteLog(start, lh, v0, v1, tail) && tail < |lh| && lh[tail] < |v1.cur| == |v1.disk|
        && start + tail + 1 < |v1.cur|
    requires v == Through(v1, start + tail + 1, v1.cur[lh[tail]], v.loc)
    ensures WroteLog(start, lh, v0, v, tail + 1)
  {
    assert IsHome(start, |v0.disk|, lh[tail]);
    assert v1.cur[lh[tail]] == v0.cur[lh[tail]];
    assert LoggedTrace(start, v0.disk, v0.cur, lh, tail + 1) == LoggedTrace(start, v0.disk, v0.cur, lh,
        tail) + [v.disk];
    assert start + tail + 1 !in v1.dirty;
  }

  ghost predicate InstallPre(start: nat, h: seq<nat>, v: View, recovering: bool)
  {
    && start + LOGBLOCKS < |v.disk| == |v.cur| && |h| <= LOGBLOCKS && Homes(start, |v.disk|, h)
    && (forall blk :: blk in v.dirty ==> !InLog(start, blk))
    && (forall blk :: blk in v.pinned ==> !InLog(start, blk))
    && (!recovering ==> Distinct(h) && v.pinned == Elems(h))
  }

  /** The view after `tail` steps of install_trans from view `v0`. */
  ghost predicate DidInstall(start: nat, h: seq<nat>, v0: View, v: View, tail: nat, recovering: bool)
  {
    && InstallPre(start, h, v0, recovering) && tail <= |h|
    && v.disk == Installed(start, v0.disk, h, tail)
    && v.cur == Installed(start, v0.cur, h, tail)
    && v.trace == v0.trace + InstalledTrace(start, v0.disk, h, tail)
    && v.dirty == v0.dirty - Elems(h[..tail])
    && v.pinned == (if recovering then v0.pinned else v0.pinned - Elems(h[..tail]))
    && v.refs == v0.refs && v.held == v0.held && v.ready == v0.ready
  }

  lemma DidInstallStart(start: nat, h: seq<nat>, v0: View, recovering: bool)
    requires InstallPre(start, h, v0, recovering)
    ensures DidInstall(start, h, v0, v0, 0, recovering)
  {
  }

  lemma DidInstallFacts(start: nat, h: seq<nat>, v0: View, v: View, tail: nat, recovering: bool)
    requires DidInstall(start, h, v0, v, tail, recovering) && tail < |h| && Quiet(start, h, v0)
    ensures start + tail + 1 < |v.disk| && h[tail] < |v.disk| && h[tail] != start + tail + 1
    ensures !recovering ==> h[tail] in v.pinned
    ensures start + tail + 1 !in v.pinned && start + tail + 1 !in v.dirty && InLog(start, start + tail + 1)
    ensures Quiet(start, h, v) && |InUse(v)| <= |InUse(v0)|
  {
    assert IsHome(start, |v.disk|, h[tail]);
    SubsetCard(InUse(v), InUse(v0));
    if !recovering {
      assert h[tail] !in h[..tail];
    }
  }

  lemma DidInstallNext(start: nat, h: seq<nat>, v0: View, v1: View, v: View, tail: nat, recovering: bool)
    requires DidInstall(start, h, v0, v1, tail, recovering) && tail < |h|
    requires start + tail + 1 < |v1.cur| == |v1.disk| && h[tail] < |v1.disk|
    requires v1.cur[start + tail + 1] == v1.disk[start + tail + 1]
    requires var w := Through(v1, h[tail], v1.cur[start + tail + 1], v.loc);
             v == if recovering then w else Unpinned(w, h[tail])
    ensures DidInstall(start, h, v0, v, tail + 1, recovering)
  {
    hide InLog;
    assert InstalledTrace(start, v0.disk, h, tail + 1) == InstalledTrace(start, v0.disk, h, tail) + [v.disk];
    assert Elems(h[..tail + 1]) == Elems(h[..tail]) + {h[tail]};
  }

  lemma Unused(start: nat, h: seq<nat>, v: View, blk: nat)
    requires Quiet(start, h, v) && InLog(start, blk) && blk !in v.pinned
    ensures blk !in InUse(v) && blk !in v.held && blk !in v.ready && blk !in v.dirty
  {
  }

  lemma NotLocked(start: nat, h: seq<nat>, v: View, i: nat)
    requires Quiet(start, h, v) && i < |h|
    ensures h[i] !in v.held && h[i] !in v.ready
  {
  }

  /** What a commit of blocks `h` from view `v0` leaves behind: an empty log, nothing pinned or dirty,
      the home blocks on disk at their new contents, and on the way the disks of CommitTrace. */
  ghost predicate DidCommit(start: nat, h: seq<nat>, v0: View, v: View)
  {
    && LogInv(start, h, v0) && LogInv(start, [], v)
    && v.dirty == {} && v.disk == v.cur && SameHome(start, v.cur, v0.cur)
    && v.refs == v0.refs && v.held == v0.held && v.ready == v0.ready
    && v.trace == v0.trace + (if h == [] then [] else CommitTrace(start, v0.disk, v0.cur, h))
    && (if h == [] then v == v0 else v.trace[|v.trace| - 1] == v.disk)
  }

  /** Cache and disk agree except on the dirty blocks. */
  ghost predicate Clean(v: View)
  {
    |v.cur| == |v.disk| && forall blk :: 0 <= blk < |v.disk| && blk !in v.dirty ==> v.cur[blk] == v.disk[blk]
  }

  lemma NothingToCommit(start: nat, v0: View)
    requires LogInv(start, [], v0) && v0.dirty <= v0.pinned && Clean(v0)
    ensures DidCommit(start, [], v0, v0)
  {
    assert v0.pinned == {};
  }

  lemma AfterWriteLog(start: nat, h: seq<nat>, v0: View, v1: View)
    requires WroteLog(start, h, v0, v1, |h|) && Quiet(start, h, v0) && |InUse(v0)| < NBUF
    ensures |h| <= LOGBLOCKS && forall i :: 0 <= i < |h| ==> h[i] < WORD_LIMIT
    ensures Quiet(start, h, v1) && start < |v1.disk| && |InUse(v1)| < NBUF && start !in v1.pinned && start !in v1.dirty
  {
    assert InUse(v1) == InUse(v0);
    forall i | 0 <= i < |h|
      ensures h[i] < WORD_LIMIT
    {
      assert IsHome(start, |v0.disk|, h[i]);
    }
  }

  /** The header write commits. */
  lemma AfterHeader(start: nat, h: seq<nat>, v0: View, v1: View, v2: View)
    requires WroteLog(start, h, v0, v1, |h|) && Quiet(start, h, v0) && |InUse(v0)| < NBUF
    requires |h| <= LOGBLOCKS && forall i :: 0 <= i < |h| ==> h[i] < WORD_LIMIT
    requires start < |v1.cur| == |v1.disk| && v1.cur[start] == v1.disk[start]
    requires v2 == Through(v1, start, PutHeader(v1.cur[start], h), v2.loc)
    ensures LogInv(start, h, v0) && v2.disk == RedoLog.Committed(start, v0.disk, v0.cur, h)
    ensures InstallPre(start, h, v2, false) && Quiet(start, h, v2) && |InUse(v2)| < NBUF
  {
    hide Logged, PutHeader, LoggedTrace;
    assert InUse(v2) == InUse(v0);
    assert v2.dirty == v0.dirty;
  }

  lemma AfterInstall(start: nat, h: seq<nat>, v0: View, v1: View, v2: View, v3: View)
    requires WroteLog(start, h, v0, v1, |h|) && Quiet(start, h, v0) && |InUse(v0)| < NBUF
    requires start < |v1.disk| == |v1.cur| && |h| <= LOGBLOCKS && forall i :: 0 <= i < |h| ==> h[i] < WORD_LIMIT
    requires v2 == Through(v1, start, PutHeader(v1.cur[start], h), v2.loc)
    requires DidInstall(start, h, v2, v3, |h|, false)
    ensures Quiet(start, h, v3) && start < |v3.disk| && |InUse(v3)| < NBUF && start !in v3.pinned && start !in v3.dirty
  {
    hide Logged, PutHeader, LoggedTrace, Installed;
    SubsetCard(InUse(v3), InUse(v0));
  }

  /** Clearing the header ends the commit. */
  lemma CommitDone(start: nat, h: seq<nat>, v0: View, v1: View, v2: View, v3: View, v: View)
    requires WroteLog(start, h, v0, v1, |h|) && h != []
    requires LogInv(start, h, v0) && v2.disk == RedoLog.Committed(start, v0.disk, v0.cur, h)
    requires start < |v1.disk| == |v1.cur|
    requires v2 == Through(v1, start, PutHeader(v1.cur[start], h), v2.loc)
    requires DidInstall(start, h, v2, v3, |h|, false)
    requires start < |v3.disk| == |v3.cur| && v3.cur[start] == v3.disk[start]
    requires v == Through(v3, start, PutHeader(v3.cur[start], []), v.loc)
    requires v0.dirty <= v0.pinned && Clean(v0) && Clean(v)
    ensures DidCommit(start, h, v0, v)
  {
    hide Logged, PutHeader, Installed, LoggedTrace, InstalledTrace, Header, HeaderCount;
    assert h[..|h|] == h;
    assert v.dirty == {} && v.pinned == {};
    CommittedMeansNew(start, v0.disk, v0.cur, h);
    CommittedHeader(start, v0.disk, v0.cur, h);
    ClearedEmpty(start, v2.disk, h);
    assert v.disk == Cleared(start, v3.disk);
    assert v.cur == v.disk;
  }

  lemma FreshFacts(start: nat, v: View)
    requires v == Fresh(v.disk) && ValidLog(start, v.disk)
    ensures Quiet(start, [], v) && start < |v.disk| && |InUse(v)| == 0 && start !in v.dirty && v.pinned == {}
    ensures HeaderCount(v.disk[start]) <= LOGBLOCKS
  {
    assert InUse(v) == {};
  }

  lemma RecoveryPre(start: nat, d: Disk, v1: View, h: seq<nat>)
    requires ValidLog(start, d) && v1 == Fresh(d).(loc := v1.loc) && h == Header(d[start])
    ensures Quiet(start, h, v1) && InstallPre(start, h, v1, true) && |InUse(v1)| == 0
  {
    assert InUse(v1) == {};
  }

  lemma BeforeClearing(start: nat, d: Disk, v1: View, h: seq<nat>, v2: View)
    requires ValidLog(start, d) && v1 == Fresh(d).(loc := v1.loc) && h == Header(d[start])
    requires DidInstall(start, h, v1, v2, |h|, true)
    ensures Quiet(start, h, v2) && start < |v2.disk| && |InUse(v2)| == 0 && start !in v2.pinned && start !in v2.dirty
  {
    hide Installed, InstalledTrace;
    assert InUse(v2) == {};
  }

  lemma RecoveryDone(start: nat, d: Disk, v1: View, h: seq<nat>, v2: View, v: View)
    requires ValidLog(start, d) && v1 == Fresh(d).(loc := v1.loc) && h == Header(d[start])
    requires DidInstall(start, h, v1, v2, |h|, true)
    requires start < |v2.disk| == |v2.cur| && v2.cur[start] == v2.disk[start]
    requires v == Through(v2, start, PutHeader(v2.cur[start], []), v.loc) && Clean(v)
    ensures Booted(start, d, v)
  {
    hide Installed, InstalledTrace, PutHeader;
    assert v.disk == Cleared(start, v2.disk);
    RecoveryEnds(start, d);
    assert v.dirty == {} && v.pinned == {};
  }

  /** The view after recover_from_log on disk d. */
  ghost predicate Booted(start: nat, d: Disk, v: View)
    requires ValidLog(start, d)
  {
    && v.disk == v.cur == RecoveryResult(start, d) && v.trace == [d] + RecoveryTrace(start, d)
    && LogInv(start, [], v) && Quiet(start, [], v) && v.refs == multiset{} && v.held == {} && v.ready == map[]
  }

  /** Crash safety of a commit, end to end: whichever of its disk writes the machine stops after, and
      however often recovery is interrupted, one recovery that completes leaves an empty log and all
      home blocks at their contents from before the transaction, or all at those from after it. */
  lemma CommitIsAtomic(start: nat, h: seq<nat>, v0: View, v: View, k: nat, crashes: seq<nat>)
    requires DidCommit(start, h, v0, v) && h != [] && v0.dirty <= v0.pinned && Clean(v0)
    requires |v0.trace| <= k < |v.trace|
    ensures ValidLog(start, v.trace[k]) && ValidLog(start, AfterCrashes(start, v.trace[k], crashes))
    ensures EmptyLog(start, RecoveryResult(start, AfterCrashes(start, v.trace[k], crashes)))
    ensures SameHome(start, RecoveryResult(start, AfterCrashes(start, v.trace[k], crashes)),
                     if k < |v0.trace| + |h| then v0.disk else v.disk)
  {
    hide Recovered, RecoveryResult, AfterCrashes, CommitTrace;
    CrashInCommit(start, v0.disk, v0.cur, h, k - |v0.trace|);
    RecoveryCompletes(start, v.trace[k], crashes);
  }

  class Log {
    const cache: BufferCache
    const start: nat
    var lh: seq<nat>
    var outstanding: nat
    var committing: bool

    constructor (c: BufferCache, s: nat)
      ensures cache == c && start == s && lh == [] && outstanding == 0 && !committing
    {
      cache, start, lh, outstanding, committing := c, s, [], 0, false;
    }

    // bread where a buffer is sure to be found.
    method BreadSure(blk: nat) returns (b: nat)
      requires cache.Valid() && blk < |cache.v.disk| && blk !in cache.v.held
      requires blk in cache.v.loc || blk in cache.v.pinned || |InUse(cache.v)| < NBUF
      modifies cache
      ensures cache.Valid() && cache.v == ReadIn(old(cache.v), blk, b, cache.v.loc)
    {
      hide *;
      assert cache.Valid();
      CacheFacts();
      var r := cache.Bread(blk);
      b := r.value;
    }

    lemma CacheFacts()
      requires cache.Valid()
      ensures |cache.v.cur| == |cache.v.disk| && |InUse(cache.v)| <= NBUF
      ensures forall blk :: blk in cache.v.pinned ==> blk in cache.v.loc
      ensures Clean(cache.v)
      ensures |InUse(cache.v)| == NBUF ==> cache.v.loc.Keys == InUse(cache.v)
    {
      SizeFacts(cache.bufs, cache.v);
    }

    // One turn of write_log's loop. False if the cache has no buffer left for the log block.
    method WriteLogStep(tail: nat) returns (ok: bool)
      requires cache.Valid() && Quiet(start, lh, cache.v) && tail < |lh| && InLog(start, start + tail + 1)
      requires start + tail + 1 < |cache.v.disk| && lh[tail] < |cache.v.disk| && lh[tail] != start + tail + 1
      requires lh[tail] in cache.v.pinned && start + tail + 1 !in cache.v.pinned
      modifies cache
      ensures ok <==> |InUse(old(cache.v))| < NBUF
      ensures cache.Valid() && (!ok ==> cache.v == old(cache.v))
      ensures lh[tail] < |old(cache.v).cur| == |old(cache.v).disk|
      ensures ok ==>
                cache.Valid()
                && cache.v == Through(old(cache.v), start + tail + 1, old(cache.v).cur[lh[tail]], cache.v.loc)
    {
      hide BufferCache.Valid, InUse, Quiet, Clean, InLog, Through;
      ghost var v0 := cache.v;
      CacheFacts();
      Unused(start, lh, v0, start + tail + 1);
      NotLocked(start, lh, v0, tail);
      var r := cache.Bread(start + tail + 1);
      if r.None? {
        return false;
      }
      CopyToLog(tail, r.value, v0);
      return true;
    }

    method CopyToLog(tail: nat, to: nat, ghost v0: View)
      requires cache.Valid() && tail < |lh| && start + tail + 1 !in v0.held && start + tail + 1 !in v0.ready
          && lh[tail] !in v0.held && lh[tail] !in v0.ready
      requires cache.v == ReadIn(v0, start + tail + 1, to, cache.v.loc)
      requires start + tail + 1 < |v0.cur| == |v0.disk| && lh[tail] < |v0.disk| && lh[tail] != start + tail + 1
      requires lh[tail] in v0.pinned
      modifies cache
      ensures cache.Valid() && cache.v == Through(v0, start + tail + 1, v0.cur[lh[tail]], cache.v.loc)
    {
      hide BufferCache.Valid, InUse, Through;
      ghost var loc1 := cache.v.loc;
      var from := BreadSure(lh[tail]);
      ghost var loc2 := cache.v.loc;
      var data := cache.Data(from, lh[tail]);
      cache.Store(to, start + tail + 1, data);
      cache.Bwrite(to, start + tail + 1);
      cache.Brelse(from, lh[tail]);
      cache.Brelse(to, start + tail + 1);
      CopyView(v0, start + tail + 1, lh[tail], data, to, from, loc1, loc2);
    }

    // One turn of install_trans's loop.
    method InstallStep(tail: nat, recovering: bool)
      requires cache.Valid() && Quiet(start, lh, cache.v) && tail < |lh|
      requires start + tail + 1 < |cache.v.disk| && lh[tail] < |cache.v.disk| && lh[tail] != start + tail + 1
          && InLog(start, start + tail + 1)
      requires if recovering then |InUse(cache.v)| < NBUF - 1 else lh[tail] in cache.v.pinned && |InUse(cache.v)| < NBUF
      requires start + tail + 1 !in cache.v.pinned
      modifies cache
      ensures cache.Valid() && start + tail + 1 < |old(cache.v).cur| == |old(cache.v).disk|
      ensures var w := Through(old(cache.v), lh[tail], old(cache.v).cur[start + tail + 1], cache.v.loc);
              cache.v == if recovering then w else Unpinned(w, lh[tail])
    {
      hide BufferCache.Valid, InUse, Clean, Through, Quiet;
      ghost var v0 := cache.v;
      CacheFacts();
      Unused(start, lh, v0, start + tail + 1);
      NotLocked(start, lh, v0, tail);
      var lbuf := BreadSure(start + tail + 1);
      ghost var loc1 := cache.v.loc;
      InUseTaken(v0, start + tail + 1, lbuf, loc1);
      CopyHome(start + tail + 1, lh[tail], lbuf, recovering, v0);
    }

    method CopyHome(from: nat, to: nat, lbuf: nat, recovering: bool, ghost v0: View)
      requires cache.Valid() && from != to && from < |v0.cur| == |v0.disk| && to < |v0.disk|
      requires from !in v0.held && from !in v0.ready && to !in v0.held && to !in v0.ready && from !in v0.dirty
      requires cache.v == ReadIn(v0, from, lbuf, cache.v.loc) && (!recovering ==> to in v0.pinned)
      requires to in v0.pinned || |InUse(cache.v)| < NBUF
      modifies cache
      ensures cache.Valid()
      ensures var w := Through(v0, to, v0.cur[from], cache.v.loc);
              cache.v == if recovering then w else Unpinned(w, to)
    {
      hide BufferCache.Valid, InUse, Clean, Through, Quiet;
      ghost var loc1 := cache.v.loc;
      var dbuf := BreadSure(to);
      ghost var loc2 := cache.v.loc;
      var data := cache.Data(lbuf, from);
      cache.Store(dbuf, to, data);
      cache.Bwrite(dbuf, to);
      if !recovering {
        cache.Bunpin(dbuf, to);
      }
      cache.Brelse(lbuf, from);
      cache.Brelse(dbuf, to);
      CopyView(v0, to, from, data, dbuf, lbuf, loc1, loc2);
    }

    method FillHeader(b: Block) returns (data: Block)
      requires |lh| <= LOGBLOCKS && forall i :: 0 <= i < |lh| ==> lh[i] < WORD_LIMIT
      ensures data == PutHeader(b, lh)
    {
      hide SetWord;
      data := SetWord(b, 0, |lh|);
      var i := 0;
      while i < |lh|
        invariant 0 <= i <= |lh|
        invariant data == PutNumbers(b, lh, i)
      {
        data := SetWord(data, i + 1, lh[i]);
        i := i + 1;
      }
    }

    // write_head: the count and the numbers go into the header block, which goes to disk.
    method WriteHead()
      requires cache.Valid() && Quiet(start, lh, cache.v) && start < |cache.v.disk| && |InUse(cache.v)| < NBUF
      requires start !in cache.v.pinned
      requires |lh| <= LOGBLOCKS && forall i :: 0 <= i < |lh| ==> lh[i] < WORD_LIMIT
      modifies cache
      ensures cache.Valid() && start < |old(cache.v).cur| == |old(cache.v).disk|
      ensures cache.v == Through(old(cache.v), start, PutHeader(old(cache.v).cur[start], lh), cache.v.loc)
    {
      hide BufferCache.Valid, InUse, PutHeader;
      ghost var v0 := cache.v;
      CacheFacts();
      var b := BreadSure(start);
      var data := cache.Data(b, start);
      data := FillHeader(data);
      cache.Store(b, start, data);
      cache.Bwrite(b, start);
      cache.Brelse(b, start);
      HeadView(v0, start, data, b, cache.v.loc);
    }

    // read_head
    method ReadHead()
      requires cache.Valid() && Quiet(start, lh, cache.v) && start < |cache.v.disk| && |InUse(cache.v)| < NBUF
      requires start !in cache.v.dirty
      requires HeaderCount(cache.v.disk[start]) <= LOGBLOCKS
      modifies this`lh, cache
      ensures cache.Valid() && cache.v == old(cache.v).(loc := cache.v.loc)
      ensures lh == Header(old(cache.v).disk[start])
    {
      hide BufferCache.Valid, InUse, Word;
      ghost var v0 := cache.v;
      CacheFacts();
      var b := BreadSure(start);
      var data := cache.Data(b, start);
      var n := Word(data, 0);
      lh := [];
      var i := 0;
      while i < n
        invariant 0 <= i <= n && |lh| == i && n == HeaderCount(data) <= LOGBLOCKS
        invariant forall j :: 0 <= j < i ==> lh[j] == Word(data, j + 1)
        modifies this`lh
      {
        lh := lh + [Word(data, i + 1)];
        i := i + 1;
      }
      assert lh == Header(data);
      cache.Brelse(b, start);
      ReadView(v0, start, b, cache.v.loc);
    }

    // write_log: the changed blocks go to the log.
    method WriteLog() returns (ok: bool)
      requires cache.Valid() && Quiet(start, lh, cache.v) && LogInv(start, lh, cache.v)
      modifies cache
      ensures ok <==> lh == [] || |InUse(old(cache.v))| < NBUF
      ensures cache.Valid() && (!ok ==> cache.v == old(cache.v))
      ensures ok ==> WroteLog(start, lh, old(cache.v), cache.v, |lh|)
    {
      hide BufferCache.Valid, InUse, WroteLog, LogInv;
      ghost var v0 := cache.v;
      WroteLogStart(start, lh, v0);
      var tail := 0;
      while tail < |lh|
        invariant 0 <= tail <= |lh| && cache.Valid()
        invariant WroteLog(start, lh, v0, cache.v, tail)
        invariant if tail > 0 then |InUse(v0)| < NBUF else cache.v == v0
      {
        ghost var v1 := cache.v;
        WroteLogFacts(start, lh, v0, v1, tail);
        ok := WriteLogStep(tail);
        if !ok {
          return;
        }
        WroteLogNext(start, lh, v0, v1, cache.v, tail);
        tail := tail + 1;
      }
      return true;
    }

    // install_trans: the log blocks go to their homes.
    method InstallTrans(recovering: bool)
      requires cache.Valid() && Quiet(start, lh, cache.v) && InstallPre(start, lh, cache.v, recovering)
      requires |InUse(cache.v)| < if recovering then NBUF - 1 else NBUF
      modifies cache
      ensures cache.Valid() && DidInstall(start, lh, old(cache.v), cache.v, |lh|, recovering)
    {
      hide BufferCache.Valid, InUse, DidInstall, InstallPre;
      ghost var v0 := cache.v;
      DidInstallStart(start, lh, v0, recovering);
      var tail := 0;
      while tail < |lh|
        invariant 0 <= tail <= |lh| && cache.Valid()
        invariant DidInstall(start, lh, v0, cache.v, tail, recovering)
      {
        ghost var v1 := cache.v;
        CacheFacts();
        DidInstallFacts(start, lh, v0, v1, tail, recovering);
        InstallStep(tail, recovering);
        DidInstallNext(start, lh, v0, v1, cache.v, tail, recovering);
        tail := tail + 1;
      }
    }

    // commit. The result is false for the "no buffers" panic of the cache, which a commit runs into
    // exactly when there is something to commit and every buffer is taken: the log may pin as many
    // blocks as there are buffers.
    method Commit() returns (ok: bool)
      requires cache.Valid() && Quiet(start, lh, cache.v) && LogInv(start, lh, cache.v)
      modifies this`lh, cache
      ensures ok <==> old(lh) == [] || |InUse(old(cache.v))| < NBUF
      ensures cache.Valid() && (!ok ==> lh == old(lh) && cache.v == old(cache.v))
      ensures ok ==> lh == [] && DidCommit(start, old(lh), old(cache.v), cache.v)
    {
      hide BufferCache.Valid, InUse, LogInv, WroteLog, DidInstall, DidCommit, InstallPre;
      ghost var v0, h := cache.v, lh;
      CacheFacts();
      ok := true;
      if |lh| > 0 {
        ok := WriteLog();
        if ok {
          ghost var v1 := cache.v;
          CacheFacts();
          AfterWriteLog(start, h, v0, v1);
          WriteHead();
          ghost var v2 := cache.v;
          CacheFacts();
          AfterHeader(start, h, v0, v1, v2);
          InstallTrans(false);
          ghost var v3 := cache.v;
          CacheFacts();
          AfterInstall(start, h, v0, v1, v2, v3);
          lh := [];
          WriteHead();
          CacheFacts();
          CommitDone(start, h, v0, v1, v2, v3, cache.v);
        }
      } else {
        NothingToCommit(start, v0);
      }
    }

    // begin_op, one test of its loop. False: the caller sleeps.
    method BeginOp() returns (ok: bool)
      modifies this`outstanding
      ensures ok <==> GroupCommit.Admits(committing, |lh|, old(outstanding))
      ensures outstanding == old(outstanding) + if ok then 1 else 0
    {
      if committing {
        return false;
      }
      if |lh| + (outstanding + 1) * GroupCommit.MAXOPBLOCKS > LOGBLOCKS {
        return false;
      }
      outstanding := outstanding + 1;
      return true;
    }

    // end_op: the last operation commits.
    method EndOp() returns (r: EndResult)
      requires outstanding > 0 && cache.Valid() && LogInv(start, lh, cache.v)
          && (outstanding == 1 ==> Quiet(start, lh, cache.v))
      modifies this`outstanding, this`committing, this`lh, cache
      ensures outstanding == old(outstanding) - 1 && cache.Valid()
      ensures r == WhileCommitting <==> old(committing)
      ensures r == Ended <==> !old(committing) && outstanding > 0
      ensures r == NoBuffers <==> !old(committing) && outstanding == 0 && old(lh) != [] && |InUse(old(cache.v))| == NBUF
      ensures r != Committed ==> lh == old(lh) && cache.v == old(cache.v)
      ensures r == Committed ==> lh == [] && !committing && DidCommit(start, old(lh), old(cache.v), cache.v)
      ensures r == Ended ==> !committing
    {
      hide BufferCache.Valid, InUse, LogInv, DidCommit, Quiet;
      CacheFacts();
      outstanding := outstanding - 1;
      if committing {
        return WhileCommitting;
      }
      if outstanding > 0 {
        return Ended;
      }
      committing := true;
      var ok := Commit();
      if !ok {
        return NoBuffers;
      }
      committing := false;
      return Committed;
    }

    // recover_from_log, on a cache that has just been set up.
    method RecoverFromLog()
      requires cache.Valid() && cache.v == Fresh(cache.v.disk) && ValidLog(start, cache.v.disk)
      modifies this`lh, cache
      ensures cache.Valid() && lh == [] && Booted(start, old(cache.v).disk, cache.v)
    {
      hide BufferCache.Valid, DidInstall, InstallPre, RecoveryResult, RecoveryTrace;
      ghost var d := cache.v.disk;
      FreshFacts(start, cache.v);
      ReadHead();
      ghost var v1, h := cache.v, lh;
      RecoveryPre(start, d, v1, h);
      InstallTrans(true);
      ghost var v2 := cache.v;
      CacheFacts();
      BeforeClearing(start, d, v1, h, v2);
      lh := [];
      WriteHead();
      CacheFacts();
      RecoveryDone(start, d, v1, h, v2, cache.v);
    }

    // log_write, for the holder of a locked buffer of a home block. The full log is noticed before
    // the search for an earlier entry, so a write that would be absorbed is refused too.
    method LogWrite(b: nat, blk: nat) returns (r: LogWriteResult)
      requires cache.Valid() && LogInv(start, lh, cache.v)
      requires blk in cache.v.ready && cache.v.ready[blk] == b && IsHome(start, |cache.v.disk|, blk)
      modifies this`lh, cache
      ensures r == TooBig <==> |old(lh)| >= LOGBLOCKS
      ensures r == OutsideTransaction <==> |old(lh)| < LOGBLOCKS && outstanding < 1
      ensures r != Recorded ==> lh == old(lh) && cache.v == old(cache.v)
      ensures r == Recorded ==> lh == if blk in old(lh) then old(lh) else old(lh) + [blk]
      ensures r == Recorded ==> cache.v == if blk in old(lh) then old(cache.v) else Pinned(old(cache.v), blk)
      ensures cache.Valid() && LogInv(start, lh, cache.v)
    {
      hide BufferCache.Valid;
      if |lh| >= LOGBLOCKS {
        return TooBig;
      }
      if outstanding < 1 {
        return OutsideTransaction;
      }
      var i := 0;
      while i < |lh| && lh[i] != blk
        invariant 0 <= i <= |lh| && blk !in lh[..i]
      {
        i := i + 1;
      }
      if i == |lh| {
        assert lh[..i] == lh;
        ghost var v0 := cache.v;
        cache.Bpin(b, blk);
        lh := lh + [blk];
        assert Elems(lh) == Elems(old(lh)) + {blk};
      } else {
        lh := lh[i := blk];
        assert lh == old(lh);
      }
      return Recorded;
    }

    // How a block is changed within an operation: bread, change, log_write, brelse. The view it leaves
    // is the one before with this block changed. None is the "no buffers" panic.
    method Update(blk: nat, data: Block) returns (r: Option<LogWriteResult>)
      requires cache.Valid() && LogInv(start, lh, cache.v) && IsHome(start, |cache.v.disk|, blk)
      requires blk !in cache.v.held && blk !in cache.v.ready
      modifies this`lh, cache
      ensures r.None? <==> blk !in old(cache.v).loc && |InUse(old(cache.v))| == NBUF
      ensures r.Some? ==> (r.value == TooBig <==> |old(lh)| >= LOGBLOCKS)
      ensures r.Some? ==> (r.value == OutsideTransaction <==> |old(lh)| < LOGBLOCKS && outstanding < 1)
      ensures cache.Valid() && cache.v.trace == old(cache.v).trace && cache.v.disk == old(cache.v).disk
      ensures r == Some(Recorded) ==>
          LogInv(start, lh, cache.v) && lh == if blk in old(lh) then old(lh) else old(lh) + [blk]
      ensures r == Some(Recorded) ==>
          blk < |old(cache.v).cur| && cache.v == Updated(old(cache.v), blk, data, cache.v.loc)
    {
      hide BufferCache.Valid, InUse, LogInv, Updated;
      ghost var v0, h := cache.v, lh;
      HomeInRange(start, h, v0, blk);
      var b := cache.Bread(blk);
      if b.None? {
        return None;
      }
      ghost var loc := cache.v.loc;
      cache.Store(b.value, blk, data);
      StoredLogInv(start, h, v0, blk, b.value, loc, data);
      var w := LogWrite(b.value, blk);
      if w == Recorded {
        cache.Brelse(b.value, blk);
        UpdateView(v0, blk, data, b.value, loc);
        UpdatedLogInv(start, h, v0, blk, data, loc);
      }
      return Some(w);
    }
  }

  // ---- a commit that runs out of buffers ----

  ghost predicate Logging(start: nat, base: nat, lh: seq<nat>, v: View)
  {
    && LogInv(start, lh, v) && v.refs == multiset{} && v.held == {} && v.ready == map[] && v.dirty <= v.pinned
    && forall i :: 0 <= i < |lh| ==> lh[i] == base + i
  }

  lemma LoggingFacts(start: nat, base: nat, lh: seq<nat>, v: View)
    requires Logging(start, base, lh, v)
    ensures LogInv(start, lh, v) && Quiet(start, lh, v) && |InUse(v)| == |lh|
    ensures base + |lh| !in v.held && base + |lh| !in v.ready && base + |lh| !in lh && |v.cur| == |v.disk|
  {
    DistinctCard(lh);
    assert InUse(v) == Elems(lh);
  }

  lemma LoggingNext(start: nat, base: nat, lh: seq<nat>, v0: View, data: Block, loc: map<nat, nat>)
    requires Logging(start, base, lh, v0) && |lh| < LOGBLOCKS && IsHome(start, |v0.disk|, base + |lh|)
        && base + |lh| < |v0.cur|
    ensures Logging(start, base, lh + [base + |lh|], Updated(v0, base + |lh|, data, loc))
  {
    assert Elems(lh + [base + |lh|]) == Elems(lh) + {base + |lh|};
  }

  lemma ZeroDisk(start: nat, d: Disk)
    requires start + LOGBLOCKS < |d| <= WORD_LIMIT && d[start] == ZeroBlock()
    ensures EmptyLog(start, d)
  {
    ZeroWord(0);
  }

  /** Three operations, as many as begin_op admits, that change LOGBLOCKS blocks between them, which is
      within their budgets, pin every buffer; the commit finds none for its first log block. */
  method FullLogCannotCommit() returns (log: Log, admitted: seq<bool>, ended: seq<EndResult>)
    ensures admitted == [true, true, true] && ended == [Ended, Ended, NoBuffers]
    ensures log.cache.Valid() && LogInv(log.start, log.lh, log.cache.v)
        && |log.lh| == LOGBLOCKS == 3 * GroupCommit.MAXOPBLOCKS
    ensures |InUse(log.cache.v)| == NBUF
  {
    hide BufferCache.Valid, InUse, LogInv, Quiet, Logging, Word;
    var d := seq(100, _ => ZeroBlock());
    var cache := new BufferCache(d);
    log := new Log(cache, 2);
    ZeroDisk(2, d);
    FreshLogging(2, 50, cache.v);
    var b1 := log.BeginOp();
    var b2 := log.BeginOp();
    var b3 := log.BeginOp();
    admitted := [b1, b2, b3];
    while |log.lh| < LOGBLOCKS
      invariant |log.lh| <= LOGBLOCKS && log.outstanding == 3 && !log.committing && log.start == 2
      invariant log.cache == cache && fresh(cache) && fresh(log)
      invariant cache.Valid() && Logging(2, 50, log.lh, cache.v) && |cache.v.disk| == 100
    {
      ghost var v0, h := cache.v, log.lh;
      LoggingFacts(2, 50, h, v0);
      var r := log.Update(50 + |log.lh|, ZeroBlock());
      assert r == Some(Recorded);
      LoggingNext(2, 50, h, v0, ZeroBlock(), cache.v.loc);
    }
    LoggingFacts(2, 50, log.lh, cache.v);
    var e1 := log.EndOp();
    var e2 := log.EndOp();
    var e3 := log.EndOp();
    ended := [e1, e2, e3];
  }

  lemma FreshLogging(start: nat, base: nat, v: View)
    requires v == Fresh(v.disk) && EmptyLog(start, v.disk)
    ensures Logging(start, base, [], v)
  {
  }
}
