/** What every disk of a run stands for: the file system after some number of whole operations.

    `trace` lists the disk after every write that reached it, `past` the file system after each
    operation so far, beginning with the one that was mounted, and `upto` says for each disk which of
    those it recovers to.
 */
module CrashConsistency {
  import opened Blocks
  import opened Collections
  import opened RedoLog
  import opened Cache
  import opened FsState
  import opened FsContents
  import opened FileSystem
  import opened Log

  datatype History = History(trace: seq<Disk>, past: seq<Fs>, upto: seq<nat>)

  /** The invariant of the file system, with every inode stored. */
  ghost predicate Consistent(l: Layout, f: Fs)
  {
    FsState.Inv(l, f, {}, {}) && InodesOnDisk(l, f) && Sizes(f)
  }

  ghost predicate LogBeforeInodes(l: Layout, start: nat)
  {
    start + LOGBLOCKS < l.inodestart
  }

  /** Two file systems with the same inodes, owners and bytes. */
  ghost predicate SameContents(a: Fs, b: Fs)
  {
    && a.ips == b.ips && a.owner == b.owner
    && forall i: nat, k: nat :: i < |a.ips| && |a.ips[i].addrs| == NDIRECT + 1 && k < MAXBYTES ==>
       FileByte(a, i, k) == FileByte(b, i, k)
  }

  // ---- a disk that differs only in the log area holds the same file system ----

  lemma HomeRef(l: Layout, start: nat, f: Fs, r: seq<Block>, s: Slot)
    requires FsState.Inv(l, f, {}, {}) && LogBeforeInodes(l, start) && SameHome(start, r, f.d) && IsSlot(f, s)
    ensures IsSlot(f.(d := r), s) && Ref(f.(d := r), s) == Ref(f, s)
  {
    hide Mapped;
    if s.Entry? {
      assert IsSlot(f, Indirect(s.inum));
      assert Ref(f, Indirect(s.inum)) == f.ips[s.inum].addrs[NDIRECT];
    }
  }

  lemma HomeOwned(l: Layout, start: nat, f: Fs, r: seq<Block>)
    requires FsState.Inv(l, f, {}, {}) && LogBeforeInodes(l, start) && SameHome(start, r, f.d)
    ensures Owned(l, f.(d := r))
  {
    hide Mapped, Ref, IsSlot, SameHome;
    var g := f.(d := r);
    forall s: Slot | IsSlot(g, s)
      ensures Ref(g, s) == 0 || (Ref(g, s) in g.owner && g.owner[Ref(g, s)] == s)
    {
      SlotsSame(f, g, s);
      HomeRef(l, start, f, r, s);
    }
    forall b | b in g.owner
      ensures IsSlot(g, g.owner[b]) && Ref(g, g.owner[b]) == b && l.datastart <= b < l.size
    {
      HomeRef(l, start, f, r, f.owner[b]);
    }
  }

  lemma SlotsSame(f: Fs, g: Fs, s: Slot)
    requires f.ips == g.ips
    ensures IsSlot(f, s) <==> IsSlot(g, s)
  {
  }

  lemma HomeMapped(l: Layout, start: nat, f: Fs, r: seq<Block>)
    requires FsState.Inv(l, f, {}, {}) && LogBeforeInodes(l, start) && SameHome(start, r, f.d)
    ensures LayoutOk(l, f.(d := r)) && Mapped(l, f.(d := r), {}, {})
  {
    hide Owned;
    var g := f.(d := r);
    forall b | 0 <= b < l.size
      ensures Used(l, g.d, b) <==> Used(l, f.d, b)
    {
      assert !InLog(start, BBlock(l, b));
    }
  }

  lemma HomeInodes(l: Layout, start: nat, f: Fs, r: seq<Block>)
    requires Consistent(l, f) && LogBeforeInodes(l, start) && SameHome(start, r, f.d)
    ensures InodesOnDisk(l, f.(d := r))
  {
    hide Owned, Mapped;
    forall m | 0 <= m < |f.ips|
      ensures IBlock(l, m) < |r| && OnDisk(l, f.(d := r), m)
    {
      assert !InLog(start, IBlock(l, m));
    }
  }

  lemma HomeByte(l: Layout, start: nat, f: Fs, r: seq<Block>, i: nat, k: nat)
    requires FsState.Inv(l, f, {}, {}) && LogBeforeInodes(l, start) && SameHome(start, r, f.d)
    requires i < |f.ips| && |f.ips[i].addrs| == NDIRECT + 1 && k < MAXBYTES
    ensures FileByte(f.(d := r), i, k) == FileByte(f, i, k)
  {
    hide Mapped, Ref;
    var s := SlotOf(i, k / BSIZE);
    assert IsSlot(f, s);
    HomeRef(l, start, f, r, s);
  }

  lemma HomeConsistent(l: Layout, start: nat, f: Fs, r: seq<Block>)
    requires Consistent(l, f) && LogBeforeInodes(l, start) && SameHome(start, r, f.d)
    ensures Consistent(l, f.(d := r)) && SameContents(f.(d := r), f)
  {
    hide Owned, Mapped, LayoutOk, InodesOnDisk, FileByte, SameHome;
    HomeOwned(l, start, f, r);
    HomeMapped(l, start, f, r);
    HomeInodes(l, start, f, r);
    forall i: nat, k: nat | i < |f.ips| && |f.ips[i].addrs| == NDIRECT + 1 && k < MAXBYTES
      ensures FileByte(f.(d := r), i, k) == FileByte(f, i, k)
    {
      HomeByte(l, start, f, r, i, k);
    }
  }

  // ---- what a disk stands for ----

  /** Recovery turns the disk d into one with these home blocks. */
  ghost predicate Stands(start: nat, d: Disk, home: Disk)
  {
    ValidLog(start, d) && SameHome(start, Recovered(start, d), home)
  }

  ghost predicate StandsAt(start: nat, h: History, k: nat)
  {
    k < |h.trace| && k < |h.upto| && h.upto[k] < |h.past| && Stands(start, h.trace[k], h.past[h.upto[k]].d)
  }

  ghost predicate HistoryOk(l: Layout, start: nat, h: History)
  {
    && LogBeforeInodes(l, start) && |h.upto| == |h.trace| > 0 && h.past != []
    && (forall i :: 0 <= i < |h.past| ==> Consistent(l, h.past[i]))
    && (forall k: nat :: k < |h.trace| ==> StandsAt(start, h, k))
    && (forall j, k :: 0 <= j < k < |h.upto| ==> h.upto[j] <= h.upto[k])
  }

  lemma SameHomeTransitive(start: nat, a: Disk, b: Disk, c: Disk)
    requires SameHome(start, a, b) && SameHome(start, b, c)
    ensures SameHome(start, a, c)
  {
  }

  /** Crash safety of the whole file system. Whichever disk of the run the machine stops at, and however
      often recovery is interrupted, one recovery that completes leaves an empty log and a consistent
      file system with the contents that the first `upto[k]` operations made. */
  lemma CrashLeavesWholeOperations(l: Layout, start: nat, h: History, k: nat, crashes: seq<nat>)
    requires HistoryOk(l, start, h) && k < |h.trace|
    ensures ValidLog(start, h.trace[k]) && ValidLog(start, AfterCrashes(start, h.trace[k], crashes))
    ensures h.upto[k] < |h.past|
    ensures var r, f := RecoveryResult(start, AfterCrashes(start, h.trace[k], crashes)), h.past[h.upto[k]];
            EmptyLog(start, r) && Consistent(l, f.(d := r)) && SameContents(f.(d := r), f)
  {
    hide Consistent, SameHome, RecoveryResult, AfterCrashes, Recovered, SameContents;
    assert StandsAt(start, h, k);
    RecoveryCompletes(start, h.trace[k], crashes);
    var r, f := RecoveryResult(start, AfterCrashes(start, h.trace[k], crashes)), h.past[h.upto[k]];
    SameHomeTransitive(start, r, Recovered(start, h.trace[k]), f.d);
    HomeConsistent(l, start, f, r);
  }

  // ---- operations ----

  /** What cache and log keep between operations. */
  ghost predicate Idle(start: nat, lh: seq<nat>, v: View)
  {
    && LogInv(start, lh, v) && Clean(v) && v.dirty <= v.pinned && |v.trace| > 0 && v.trace[|v.trace| - 1] == v.disk
    && v.refs == multiset{} && v.held == {} && v.ready == map[]
  }

  lemma IdleQuiet(start: nat, lh: seq<nat>, v: View)
    requires Idle(start, lh, v)
    ensures LogInv(start, lh, v) && Quiet(start, lh, v) && |v.trace| > 0 && v.held == {} && v.ready == map[]
  {
  }

  /** One block that an operation of the file system changes is one change of the disk it sees. */
  lemma UpdateSeen(start: nat, lh: seq<nat>, v: View, d: Disk, blk: nat, data: Block, loc: map<nat, nat>)
    requires Idle(start, lh, v) && SameHome(start, v.cur, d) && IsHome(start, |v.disk|, blk) && |lh| < LOGBLOCKS
        && blk < |v.cur|
    ensures blk < |d| && SameHome(start, Updated(v, blk, data, loc).cur, d[blk := data])
    ensures Idle(start, if blk in lh then lh else lh + [blk], Updated(v, blk, data, loc))
  {
    hide LogInv;
    UpdatedLogInv(start, lh, v, blk, data, loc);
  }

  lemma OperationKeeps(l: Layout, start: nat, h: History, f: Fs)
    requires HistoryOk(l, start, h) && Consistent(l, f)
    ensures HistoryOk(l, start, h.(past := h.past + [f]))
  {
    hide Consistent, Stands;
    var h' := h.(past := h.past + [f]);
    forall k: nat | k < |h'.trace|
      ensures StandsAt(start, h', k)
    {
      assert StandsAt(start, h, k);
    }
  }

  // ---- commits ----

  /** The disks of a commit of blocks lh: up to the header write the old file system, then the new. */
  ghost function CommitUpto(h: History, lh: seq<nat>): (upto: seq<nat>)
    requires |h.upto| > 0 && h.past != []
  {
    var n := |h.past| - 1;
    if lh == [] then h.upto[|h.upto| - 1 := n]
    else h.upto + seq(|lh|, _ => Last(h.upto)) + seq(|lh| + 2, _ => n)
  }

  lemma IdleAfterCommit(start: nat, lh: seq<nat>, v0: View, v: View)
    requires Idle(start, lh, v0) && DidCommit(start, lh, v0, v)
    ensures Idle(start, [], v) && SameHome(start, v.cur, v0.cur)
    ensures v.trace == v0.trace + if lh == [] then [] else CommitTrace(start, v0.disk, v0.cur, lh)
    ensures lh == [] ==> v.disk == v0.disk && EmptyLog(start, v0.disk)
  {
    hide CommitTrace, InLog;
  }

  lemma EmptyStands(start: nat, d: Disk, home: Disk)
    requires EmptyLog(start, d) && SameHome(start, d, home)
    ensures Stands(start, d, home)
  {
  }

  lemma CommitStands(start: nat, lh: seq<nat>, v0: View, was: Disk, now: Disk, k: nat)
    requires Idle(start, lh, v0) && lh != [] && SameHome(start, v0.disk, was) && SameHome(start, v0.cur, now)
    requires k < 2 * |lh| + 2
    ensures |lh| <= LOGBLOCKS && start + LOGBLOCKS < |v0.disk| == |v0.cur| <= WORD_LIMIT && Homes(start, |v0.disk|, lh)
    ensures Stands(start, CommitTrace(start, v0.disk, v0.cur, lh)[k], if k < |lh| then was else now)
  {
    hide Recovered, CommitTrace, InLog, HeaderCount, Header;
    OverlayOfDirty(start, lh, v0);
    CrashInCommit(start, v0.disk, v0.cur, lh, k);
    var c := CommitTrace(start, v0.disk, v0.cur, lh)[k];
    if k < |lh| {
      SameHomeTransitive(start, Recovered(start, c), v0.disk, was);
    } else {
      SameHomeTransitive(start, Recovered(start, c), v0.cur, now);
    }
  }

  lemma OverlayOfDirty(start: nat, lh: seq<nat>, v0: View)
    requires Idle(start, lh, v0)
    ensures EmptyLog(start, v0.disk) && |v0.cur| == |v0.disk| && |lh| <= LOGBLOCKS && Homes(start, |v0.disk|, lh)
    ensures Overlay(start, v0.disk, v0.cur, lh)
  {
    hide InLog, HeaderCount, Header;
  }

  lemma CommitKeeps(l: Layout, start: nat, h: History, lh: seq<nat>, v0: View, v: View)
    requires HistoryOk(l, start, h) && Idle(start, lh, v0) && DidCommit(start, lh, v0, v) && v0.trace == h.trace
    requires SameHome(start, v0.cur, Last(h.past).d)
    ensures HistoryOk(l, start, History(v.trace, h.past, CommitUpto(h, lh)))
    ensures Last(CommitUpto(h, lh)) == |h.past| - 1
  {
    hide Consistent, Stands, DidCommit, CommitTrace, SameHome, Idle, LogBeforeInodes;
    IdleAfterCommit(start, lh, v0, v);
    LastStands(l, start, h, lh, v0);
    var h' := History(v.trace, h.past, CommitUpto(h, lh));
    if lh != [] {
      CommitStands(start, lh, v0, h.past[Last(h.upto)].d, Last(h.past).d, 0);
      assert |CommitTrace(start, v0.disk, v0.cur, lh)| == 2 * |lh| + 2;
    }
    forall k: nat | k < |h'.trace|
      ensures StandsAt(start, h', k)
    {
      if k < |h.trace| {
        assert StandsAt(start, h, k);
        if lh == [] && k == |h.trace| - 1 {
          EmptyCommit(start, h, v0, v);
        }
      } else {
        CommitStands(start, lh, v0, h.past[Last(h.upto)].d, Last(h.past).d, k - |h.trace|);
      }
    }
    UptoRises(l, start, h, lh);
  }

  lemma UptoRises(l: Layout, start: nat, h: History, lh: seq<nat>)
    requires HistoryOk(l, start, h)
    ensures var u := CommitUpto(h, lh);
            forall j, k :: 0 <= j < k < |u| ==> u[j] <= u[k]
  {
    hide Consistent, Stands;
    assert StandsAt(start, h, |h.trace| - 1);
  }

  lemma LastStands(l: Layout, start: nat, h: History, lh: seq<nat>, v0: View)
    requires HistoryOk(l, start, h) && Idle(start, lh, v0) && v0.trace == h.trace
    ensures Last(h.upto) < |h.past| && SameHome(start, v0.disk, h.past[Last(h.upto)].d)
  {
    hide Consistent, InLog;
    assert StandsAt(start, h, |h.trace| - 1);
    EmptyRecovered(start, v0.disk);
  }

  /** Nothing was logged, so what is on disk is what the operations left. */
  lemma EmptyCommit(start: nat, h: History, v0: View, v: View)
    requires Idle(start, [], v0) && h.past != [] && SameHome(start, v0.cur, Last(h.past).d) && v0.trace == h.trace
    requires v.trace == v0.trace
    ensures |h.trace| > 0 && Stands(start, v.trace[|h.trace| - 1], Last(h.past).d)
  {
    hide InLog, Recovered;
    assert v0.cur == v0.disk;
    EmptyStands(start, v0.disk, Last(h.past).d);
  }

  // ---- recovery ----

  lemma IdleAfterBoot(start: nat, d: Disk, v: View)
    requires ValidLog(start, d) && Booted(start, d, v)
    ensures Idle(start, [], v) && |v.trace| == |RecoveryTrace(start, d)| + 1
  {
    hide InLog, HeaderCount, Header, Installed;
  }

  lemma BootStands(start: nat, d: Disk, v: View, home: Disk, k: nat)
    requires Stands(start, d, home) && Booted(start, d, v) && k < |v.trace|
    ensures Stands(start, v.trace[k], home)
  {
    hide InLog, RecoveryResult, Recovered, LogInv, Quiet, RecoveryTrace;
    if k > 0 {
      CrashInRecovery(start, d, k - 1);
      SameHomeTransitive(start, Recovered(start, v.trace[k]), Recovered(start, d), home);
    }
  }

  lemma BootKeeps(l: Layout, start: nat, past: seq<Fs>, d: Disk, v: View)
    requires LogBeforeInodes(l, start) && past != [] && (forall i :: 0 <= i < |past| ==> Consistent(l, past[i]))
    requires Stands(start, d, Last(past).d) && Booted(start, d, v)
    ensures HistoryOk(l, start, History(v.trace, past, seq(|v.trace|, _ => |past| - 1)))
  {
    hide Consistent, Booted, SameHome, Recovered;
    var h := History(v.trace, past, seq(|v.trace|, _ => |past| - 1));
    IdleBooted(start, d, v);
    forall k: nat | k < |h.trace|
      ensures StandsAt(start, h, k)
    {
      BootStands(start, d, v, Last(past).d, k);
    }
  }

  lemma IdleBooted(start: nat, d: Disk, v: View)
    requires ValidLog(start, d) && Booted(start, d, v)
    ensures |v.trace| > 0
  {
    hide RecoveryTrace, RecoveryResult, LogInv, Quiet;
  }
}
