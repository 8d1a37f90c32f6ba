/** File system, log and cache as one machine: operations of fs.c, whose block changes go through the
    log, begin_op and end_op around them, commits, and the loss of power at any disk write.
 */
module Machine {
  import opened Blocks
  import opened Collections
  import opened RedoLog
  import opened Cache
  import opened FsState
  import opened FsContents
  import opened FileData
  import opened Bitmap
  import opened Inodes
  import opened FileSystem
  import opened Log
  import opened CrashConsistency
  import File
  import GroupCommit

  /** What an operation did: bytes written at an offset, a file emptied, or nothing. */
  datatype Op = Spliced(i: nat, off: nat, data: seq<Byte>) | Cleared(i: nat) | Refused

  ghost predicate Did(l: Layout, a: Fs, op: Op, b: Fs)
  {
    match op
    case Spliced(i, off, data) => Wrote(a, b, i, off, data, |data|)
    case Cleared(i) => Truncated(l, a, b, i)
    case Refused => SameContents(b, a)
  }

  /** What can be told of a machine between two commands. `writes` are the block changes of its last
      operation. */
  datatype Snap = Snap(dead: bool, outstanding: nat, lh: seq<nat>, ops: seq<Op>, past: seq<Fs>, upto: seq<nat>,
                       fs: Fs, writes: seq<Write>)

  /** Each operation leads from one file system to the next. */
  ghost predicate Chained(l: Layout, past: seq<Fs>, ops: seq<Op>)
  {
    |past| == |ops| + 1 && forall j :: 0 <= j < |ops| ==> Did(l, past[j], ops[j], past[j + 1])
  }

  lemma ChainedNext(l: Layout, past: seq<Fs>, ops: seq<Op>, op: Op, f: Fs)
    requires Chained(l, past, ops) && Did(l, Last(past), op, f)
    ensures Chained(l, past + [f], ops + [op])
  {
    hide Did;
  }

  lemma ChainedPrefix(l: Layout, past: seq<Fs>, ops: seq<Op>, n: nat)
    requires Chained(l, past, ops) && n < |past|
    ensures |past| == |ops| + 1 && Chained(l, past[..n + 1], ops[..n])
  {
    hide Did;
  }

  /** An operation does not see a difference in the log area. */
  lemma DidFromSame(l: Layout, a: Fs, a': Fs, op: Op, b: Fs)
    requires Did(l, a', op, b) && SameContents(a', a) && LayoutOk(l, a') && LayoutOk(l, a)
    ensures Did(l, a, op, b)
  {
    hide FileByte;
  }

  lemma StoredFits(l: Layout, f: Fs, i: nat)
    requires Consistent(l, f) && i < |f.ips|
    ensures Fits(f.ips[i])
  {
    hide Owned, Mapped, Word, GetAddrs;
    assert IBlock(l, i) < |f.d| && OnDisk(l, f, i);
    DecodedFits(f.d[IBlock(l, i)], i % IPB);
  }

  lemma DecodedFits(b: Block, slot: nat)
    requires slot < IPB
    ensures Fits(GetInode(b, slot))
  {
    hide Word;
    forall k | 0 <= k <= NDIRECT
      ensures GetInode(b, slot).addrs[k] < WORD_LIMIT
    {
      assert GetInode(b, slot).addrs[k] == GetAddr(b, slot, k);
    }
  }

  // ---- what a command does ----

  function WriteOp(i: nat, off: nat, src: seq<Byte>, r: int): (op: Op)
    requires r == -1 || 0 <= r <= |src|
  {
    if r == -1 then Refused else Spliced(i, off, src[..r])
  }

  /** What writei returned for bytes that can all be read. */
  ghost predicate Gave(l: Layout, a: Fs, i: nat, off: nat, src: seq<Byte>, r: int, b: Fs)
  {
    && i < |a.ips| && (r == -1 || 0 <= r <= |src|)
    && (r == -1 <==> off > a.ips[i].size || off + |src| > MAXBYTES) && (0 <= r < |src| ==> Full(l, b))
  }

  ghost predicate SolidFile(f: Fs, i: nat)
  {
    i < |f.ips| && |f.ips[i].addrs| == NDIRECT + 1 && NoHoles(f, i)
  }

  /** The file system did `op`, by the changes `writes`; it is one more operation exactly if the log has
      room for them, and otherwise the machine has panicked. */
  ghost predicate Operated(l: Layout, a: Snap, op: Op, b: Snap)
  {
    && Did(l, a.fs, op, b.fs) && b.fs.d == Replay(a.fs.d, b.writes)
    && (b.dead <==> !LogFits(a.lh, a.outstanding, b.writes)) && b.outstanding == a.outstanding && b.upto == a.upto
    && b.past == (if b.dead then a.past else a.past + [b.fs]) && b.ops == (if b.dead then a.ops else a.ops + [op])
    && (!b.dead ==> Elems(b.lh) == Elems(a.lh) + BlocksIn(b.writes) && |b.lh| == |Elems(b.lh)| <= LOGBLOCKS)
  }

  /** Some operation has begun and the log has room for its budget. */
  predicate Reserved(a: Snap)
  {
    a.outstanding >= 1 && |a.lh| + GroupCommit.MAXOPBLOCKS <= LOGBLOCKS
  }

  /** The operation did not panic and added no more than its budget to the log. */
  predicate InBudget(a: Snap, b: Snap)
  {
    !b.dead && |b.lh| <= |a.lh| + GroupCommit.MAXOPBLOCKS
  }

  /** All bits lie in so few bitmap blocks that freeing any blocks stays within the budget. */
  predicate SmallBitmap(l: Layout)
  {
    l.size <= (GroupCommit.MAXOPBLOCKS - 1) * BPB
  }

  /** begin_op's test. */
  predicate Admits(a: Snap)
  {
    |a.lh| + (a.outstanding + 1) * GroupCommit.MAXOPBLOCKS <= LOGBLOCKS
  }

  /** end_op: the last operation commits, and panics exactly if the log is full. */
  ghost predicate Closed(a: Snap, b: Snap)
  {
    && a.outstanding > 0 && a.upto != [] && a.past != []
    && b == if a.outstanding > 1 then a.(outstanding := a.outstanding - 1)
            else if |a.lh| == LOGBLOCKS then a.(outstanding := 0, dead := true)
            else a.(outstanding := 0, lh := [], upto := CommitUpto(History([], a.past, a.upto), a.lh))
  }

  /** Exactly the operations that disk k stood for are left. */
  ghost predicate Rebooted(l: Layout, a: Snap, k: nat, b: Snap)
  {
    && k < |a.upto| && a.upto[k] < |a.past| == |a.ops| + 1
    && !b.dead && b.outstanding == 0 && b.lh == [] && b.past == a.past[..a.upto[k] + 1] && b.ops == a.ops[..a.upto[k]]
    && SameContents(b.fs, a.past[a.upto[k]]) && Consistent(l, b.fs)
    && b.upto != [] && forall j :: 0 <= j < |b.upto| ==> b.upto[j] == a.upto[k]
  }

  // ---- when the log has room ----

  ghost function BlocksIn(ws: seq<Write>): (bs: set<nat>)
  {
    set w | w in ws :: w.blk
  }

  /** No log_write of these changes panics: there is an operation, and whenever the next one comes the
      log is not full, be the block listed already or not. */
  ghost predicate LogFits(lh: seq<nat>, outstanding: nat, ws: seq<Write>)
  {
    FitsTo(lh, outstanding, ws, |ws|)
  }

  ghost predicate FitsTo(lh: seq<nat>, outstanding: nat, ws: seq<Write>, n: nat)
    requires n <= |ws|
  {
    && (n == 0 || outstanding >= 1)
    && forall j: nat :: j < n ==> |Elems(lh) + BlocksIn(ws[..j])| < LOGBLOCKS
  }

  lemma FitsNone(lh: seq<nat>, outstanding: nat, ws: seq<Write>)
    ensures FitsTo(lh, outstanding, ws, 0) && ws[..0] == [] && Elems(lh) == Elems(lh) + BlocksIn(ws[..0])
  {
  }

  /** The log is at lh after the first n log_writes. */
  lemma FitsNext(lh0: seq<nat>, outstanding: nat, ws: seq<Write>, n: nat, lh: seq<nat>)
    requires n < |ws| && FitsTo(lh0, outstanding, ws, n) && Elems(lh) == Elems(lh0) + BlocksIn(ws[..n])
    ensures FitsTo(lh0, outstanding, ws, n + 1) <==> outstanding >= 1 && |Elems(lh)| < LOGBLOCKS
    ensures !FitsTo(lh0, outstanding, ws, n + 1) ==> !LogFits(lh0, outstanding, ws)
    ensures Elems(if ws[n].blk in lh then lh else lh + [ws[n].blk]) == Elems(lh0) + BlocksIn(ws[..n + 1])
  {
    hide BlocksIn;
    BlocksNext(ws, n);
  }

  lemma BlocksNext(ws: seq<Write>, j: nat)
    requires j < |ws|
    ensures BlocksIn(ws[..j + 1]) == BlocksIn(ws[..j]) + {ws[j].blk}
  {
    assert ws[..j + 1] == ws[..j] + [ws[j]];
    forall b
      ensures b in BlocksIn(ws[..j + 1]) <==> b in BlocksIn(ws[..j]) + {ws[j].blk}
    {
      if b in BlocksIn(ws[..j]) {
        var w :| w in ws[..j] && w.blk == b;
        assert w in ws[..j + 1];
      }
      assert ws[j] in ws[..j + 1];
    }
  }

  /** Changes that end with their inode's block fit when their blocks do, even if they fill the log: the
      last block to be listed is the last to be written. */
  lemma RoomSuffices(l: Layout, lh: seq<nat>, outstanding: nat, ws: seq<Write>, logged: set<nat>, i: nat)
    requires InodeLast(l, ws, 0, i) && IBlock(l, i) < l.bmapstart && outstanding >= 1
    requires BlocksIn(ws) <= logged && |Elems(lh)| + |logged| <= LOGBLOCKS
    ensures LogFits(lh, outstanding, ws)
  {
    var ib := IBlock(l, i);
    forall j: nat | j < |ws|
      ensures |Elems(lh) + BlocksIn(ws[..j])| < LOGBLOCKS
    {
      assert ws[|ws| - 1] in ws;
      assert ib in logged;
      BeforeTheInode(l, ws, i, j);
      SubsetCard(BlocksIn(ws[..j]), logged - {ib});
      SubsetCard(Elems(lh) + BlocksIn(ws[..j]), Elems(lh) + (logged - {ib}));
    }
  }

  lemma BeforeTheInode(l: Layout, ws: seq<Write>, i: nat, j: nat)
    requires InodeLast(l, ws, 0, i) && IBlock(l, i) < l.bmapstart && j < |ws|
    ensures BlocksIn(ws[..j]) <= BlocksIn(ws) - {IBlock(l, i)}
  {
    forall b | b in BlocksIn(ws[..j])
      ensures b in BlocksIn(ws) && b != IBlock(l, i)
    {
      var w :| w in ws[..j] && w.blk == b;
      var k :| 0 <= k < j && ws[k] == w;
      assert ws[..|ws| - 1][k] == w;
    }
  }

  lemma BlocksLogged(l: Layout, since: seq<Block>, ws: seq<Write>, logged: set<nat>, d: seq<Block>)
    requires Changed(l, since, ws, logged, d) && AllRecorded(ws)
    ensures BlocksIn(ws) <= logged
  {
  }

  lemma Completed(l: Layout, a: Snap, op: Op, b: Snap)
    requires Did(l, a.fs, op, b.fs) && b.fs.d == Replay(a.fs.d, b.writes)
    requires (b.dead <==> !LogFits(a.lh, a.outstanding, b.writes)) && b.outstanding == a.outstanding && b.upto == a.upto
    requires b.past == (if b.dead then a.past else a.past + [b.fs])
    requires b.ops == (if b.dead then a.ops else a.ops + [op])
    requires !b.dead ==> Elems(b.lh) == Elems(a.lh) + BlocksIn(b.writes) && |b.lh| == |Elems(b.lh)| <= LOGBLOCKS
    ensures Operated(l, a, op, b)
  {
  }

  /** A chunk of filewrite fits in the room that begin_op keeps for one operation. */
  lemma WriteFits(l: Layout, lh: seq<nat>, outstanding: nat, v: Fs, ws: seq<Write>, logged: set<nat>, i: nat, off: nat,
                  src: seq<Byte>, r: int)
    requires Consistent(l, v) && SolidFile(v, i) && outstanding >= 1 && |src| <= File.MAXCHUNK
    requires |Elems(lh)| + GroupCommit.MAXOPBLOCKS <= LOGBLOCKS && BlocksIn(ws) <= logged
    requires if r == -1 then ws == [] else InodeLast(l, ws, 0, i)
    requires |logged - {}| <= 2 * Span(off, |src|) + 3 - Saved(v, i, off)
    ensures LogFits(lh, outstanding, ws) && |Elems(lh) + BlocksIn(ws)| <= |Elems(lh)| + GroupCommit.MAXOPBLOCKS
  {
    hide Owned, Mapped, NoHoles, InodesOnDisk, BlocksIn, InodeLast, LogFits;
    File.ChunkFits(v, i, off, |src|);
    assert logged - {} == logged;
    AtMostLogged(lh, BlocksIn(ws), logged);
    if r == -1 {
      NothingFits(lh, outstanding);
    } else {
      RoomSuffices(l, lh, outstanding, ws, logged, i);
    }
  }

  lemma AtMostLogged(lh: seq<nat>, bs: set<nat>, logged: set<nat>)
    requires bs <= logged
    ensures |Elems(lh) + bs| <= |Elems(lh)| + |logged|
  {
    SubsetCard(bs, logged);
  }

  lemma WithRoom(l: Layout, a: Snap, op: Op, b: Snap)
    requires Operated(l, a, op, b) && LogFits(a.lh, a.outstanding, b.writes) && |Elems(a.lh)| == |a.lh|
    requires |Elems(a.lh) + BlocksIn(b.writes)| <= |Elems(a.lh)| + GroupCommit.MAXOPBLOCKS
    ensures InBudget(a, b)
  {
    hide LogFits, BlocksIn, Did, Replay;
  }

  lemma NothingFits(lh: seq<nat>, outstanding: nat)
    ensures LogFits(lh, outstanding, [])
  {
  }

  /** So does a truncation, on a disk whose bitmap is small enough. */
  lemma TruncateFits(l: Layout, lh: seq<nat>, outstanding: nat, v: Fs, ws: seq<Write>, logged: set<nat>, i: nat)
    requires Consistent(l, v) && i < |v.ips| && outstanding >= 1 && SmallBitmap(l)
    requires |Elems(lh)| + GroupCommit.MAXOPBLOCKS <= LOGBLOCKS && BlocksIn(ws) <= logged && InodeLast(l, ws, 0, i)
    requires logged <= {} + MapBlocks(l, BlocksOf(v, i)) + {IBlock(l, i)}
    ensures LogFits(lh, outstanding, ws) && |Elems(lh) + BlocksIn(ws)| <= |Elems(lh)| + GroupCommit.MAXOPBLOCKS
  {
    hide Mapped, InodesOnDisk, BlocksIn, InodeLast, LogFits, Ref, IsSlot;
    TruncationFits(l, v, i, logged, GroupCommit.MAXOPBLOCKS);
    AtMostLogged(lh, BlocksIn(ws), logged);
    RoomSuffices(l, lh, outstanding, ws, logged, i);
  }

  lemma IdleCount(start: nat, lh: seq<nat>, v: View)
    requires Idle(start, lh, v)
    ensures |Elems(lh)| == |lh| <= LOGBLOCKS && InUse(v) == Elems(lh)
  {
    DistinctCard(lh);
  }

  lemma ReplayNext(d: seq<Block>, ws: seq<Write>, j: nat)
    requires j < |ws| && ws[j].blk < |d|
    ensures Replay(d, ws[..j + 1]) == Replay(d, ws[..j])[ws[j].blk := ws[j].data]
  {
    assert ws[..j + 1][..j] == ws[..j];
  }

  /** The changes of an operation are of home blocks, and each was recorded. */
  ghost predicate Loggable(start: nat, size: nat, ws: seq<Write>)
  {
    forall i :: 0 <= i < |ws| ==> IsHome(start, size, ws[i].blk) && ws[i].record
  }

  lemma ChangesLoggable(l: Layout, start: nat, since: seq<Block>, ws: seq<Write>, logged: set<nat>, d: seq<Block>)
    requires Changed(l, since, ws, logged, d) && AllRecorded(ws) && LogBeforeInodes(l, start)
    ensures Loggable(start, |since|, ws) && |d| == |since| && d == Replay(since, ws)
  {
  }

  lemma SameHomeItself(start: nat, d: Disk)
    ensures SameHome(start, d, d)
  {
  }

  // Power comes on with disk d, which stands for file system f: recover_from_log, and the inodes are
  // read back from their blocks.
  method Boot(l: Layout, start: nat, d: Disk, inodes: nat, ghost f: Fs) returns (log: Log, fs: FileSystem)
    requires LogBeforeInodes(l, start) && Stands(start, d, f.d) && Consistent(l, f) && |f.ips| == inodes
    ensures fresh(log) && fresh(log.cache) && fresh(fs)
    ensures log.start == start && log.cache.Valid() && log.lh == [] && log.outstanding == 0 && !log.committing
    ensures Booted(start, d, log.cache.v)
    ensures fs.Valid({}) && fs.l == l && fs.v == f.(d := log.cache.v.disk) && Consistent(l, fs.v)
    ensures SameContents(fs.v, f) && SameHome(start, fs.v.d, f.d)
  {
    hide BufferCache.Valid, Booted, FsState.Inv, SameHome, Recovered, InodesOnDisk, Sizes, SameContents, GetInode;
    var cache := new BufferCache(d);
    log := new Log(cache, start);
    log.RecoverFromLog();
    var disk := DiskOf(cache);
    BootHome(start, d, log.cache.v, f.d);
    HomeConsistent(l, start, f, disk);
    var ips := ReadInodes(l, disk, inodes, f.(d := disk));
    fs := new FileSystem(l, disk, ips, f.owner);
  }

  method DiskOf(cache: BufferCache) returns (d: Disk)
    requires cache.Valid()
    ensures d == cache.v.disk
  {
    d := cache.disk;
  }

  method DiskAt(cache: BufferCache, k: nat) returns (d: Disk)
    requires cache.Valid() && k < |cache.v.trace|
    ensures d == cache.v.trace[k]
  {
    d := cache.history[k];
  }

  lemma BootHome(start: nat, d: Disk, v: View, home: Disk)
    requires Stands(start, d, home) && Booted(start, d, v)
    ensures SameHome(start, v.disk, home)
  {
    hide SameHome, Recovered, RecoveryResult, LogInv, Quiet, RecoveryTrace;
    RecoveryEnds(start, d);
    SameHomeTransitive(start, v.disk, Recovered(start, d), home);
  }

  method ReadInodes(l: Layout, d: Disk, n: nat, ghost f: Fs) returns (ips: seq<Inode>)
    requires InodesOnDisk(l, f) && f.d == d && |f.ips| == n
    ensures ips == f.ips
  {
    hide GetInode;
    ips := [];
    var i := 0;
    while i < n
      invariant 0 <= i <= n && ips == f.ips[..i]
    {
      assert OnDisk(l, f, i);
      ips := ips + [GetInode(d[IBlock(l, i)], i % IPB)];
      i := i + 1;
    }
  }

  class Machine {
    const l: Layout
    const start: nat
    const inodes: nat
    var log: Log
    var fs: FileSystem
    var dead: bool                // it has panicked
    ghost var ops: seq<Op>        // the operations so far
    ghost var past: seq<Fs>       // the file system that was mounted, and after each operation
    ghost var upto: seq<nat>      // the operations that each disk so far stands for

    ghost function Record(): (h: History)
      reads this, log, log.cache
    {
      History(log.cache.v.trace, past, upto)
    }

    ghost function Now(): (s: Snap)
      reads this, log, log.cache, fs
    {
      Snap(dead, log.outstanding, log.lh, ops, past, upto, fs.v, fs.writes)
    }

    /** The file system that running processes see is the one that the last operation left, and cache
        and log hold its blocks. */
    ghost predicate Running()
      reads this, log, log.cache, fs
    {
      && past != [] && fs.Valid({}) && fs.l == l && Consistent(l, fs.v) && !log.committing
      && Idle(start, log.lh, log.cache.v) && SameHome(start, log.cache.v.cur, fs.v.d)
      && |fs.v.ips| == inodes && SameContents(fs.v, Last(past)) && SameHome(start, fs.v.d, Last(past).d)
    }

    ghost predicate Valid()
      reads this, log, log.cache, fs
    {
      && log.start == start && log.cache.Valid() && HistoryOk(l, start, Record())
      && (forall i :: 0 <= i < |past| ==> |past[i].ips| == inodes) && Chained(l, past, ops)
      && (!dead ==> Running())
    }

    constructor (l: Layout, start: nat, d: Disk, inodes: nat, ghost f: Fs)
      requires LogBeforeInodes(l, start) && Stands(start, d, f.d) && Consistent(l, f) && |f.ips| == inodes
      ensures Valid() && !dead && this.l == l && this.start == start && this.inodes == inodes
      ensures past == [f] && ops == [] && SameContents(fs.v, f)
      ensures fresh(log) && fresh(log.cache) && fresh(fs)
    {
      hide BufferCache.Valid, FileSystem.Valid, Consistent, SameHome, Stands, Booted, Idle, SameContents;
      this.l, this.start, this.inodes := l, start, inodes;
      var g, s := Boot(l, start, d, inodes, f);
      log, fs, dead := g, s, false;
      ops, past, upto := [], [f], seq(|g.cache.v.trace|, _ => 0);
      BootKeeps(l, start, [f], d, g.cache.v);
      Started(l, start, d, g.cache.v, s.v, f);
    }

    /** What the invariant says. */
    lemma Meaning()
      requires Valid()
      ensures past != [] && HistoryOk(l, start, Record()) && Chained(l, past, ops)
      ensures !dead ==> Consistent(l, fs.v) && SameContents(fs.v, Last(past))
    {
      hide Consistent, SameContents, Chained;
    }

    // The block changes of one operation, each as the bread, change, log_write and brelse of its code.
    // False if one of them panics.
    method LogAll(ws: seq<Write>, ghost d0: Disk) returns (ok: bool)
      requires log.start == start && log.cache.Valid() && Idle(start, log.lh, log.cache.v)
      requires SameHome(start, log.cache.v.cur, d0) && Loggable(start, |d0|, ws)
      modifies log`lh, log.cache
      ensures log.cache.Valid() && log.cache.v.trace == old(log.cache.v).trace
      ensures ok ==> Idle(start, log.lh, log.cache.v) && SameHome(start, log.cache.v.cur, Replay(d0, ws))
      ensures ok <==> LogFits(old(log.lh), log.outstanding, ws)
      ensures ok ==> Elems(log.lh) == Elems(old(log.lh)) + BlocksIn(ws)
    {
      hide BufferCache.Valid, Idle, SameHome, Replay, InUse, LogInv, Updated, BlocksIn, FitsTo;
      var j := 0;
      FitsNone(log.lh, log.outstanding, ws);
      assert ws[..0] == [] && Replay(d0, []) == d0 by { ReplayNone(d0); }
      while j < |ws|
        invariant 0 <= j <= |ws| && log.cache.Valid() && Idle(start, log.lh, log.cache.v)
        invariant log.cache.v.trace == old(log.cache.v).trace && SameHome(start, log.cache.v.cur, Replay(d0, ws[..j]))
        invariant Elems(log.lh) == Elems(old(log.lh)) + BlocksIn(ws[..j])
        invariant FitsTo(old(log.lh), log.outstanding, ws, j)
      {
        ghost var v, lh := log.cache.v, log.lh;
        IdleFacts(start, lh, v, Replay(d0, ws[..j]));
        IdleCount(start, lh, v);
        FitsNext(old(log.lh), log.outstanding, ws, j, lh);
        var r := log.Update(ws[j].blk, ws[j].data);
        if r != Some(Recorded) {
          return false;
        }
        UpdateSeen(start, lh, v, Replay(d0, ws[..j]), ws[j].blk, ws[j].data, log.cache.v.loc);
        ReplayNext(d0, ws, j);
        j := j + 1;
      }
      assert ws[..j] == ws;
      return true;
    }

    // begin_op. False: the caller sleeps.
    method Begin() returns (ok: bool)
      requires Valid() && !dead
      modifies log`outstanding
      ensures Valid() && (ok <==> Admits(old(Now())))
      ensures Now() == old(Now()).(outstanding := old(log.outstanding) + if ok then 1 else 0)
    {
      hide BufferCache.Valid, FileSystem.Valid, HistoryOk, Chained, Consistent, SameHome, Idle;
      ok := log.BeginOp();
    }

    // A write of bytes that can be read, as one operation. False if it panics.
    method Write(i: nat, off: nat, src: seq<Byte>) returns (ok: bool, r: int)
      requires Valid() && !dead && i < inodes && off < WORD_LIMIT && |src| < WORD_LIMIT
      modifies this`dead, this`past, this`ops, log`lh, log.cache, fs
      ensures Valid() && Gave(l, old(fs.v), i, off, src, r, fs.v) && ok == !dead
      ensures Operated(l, old(Now()), WriteOp(i, off, src, r), Now())
      ensures Reserved(old(Now())) && |src| <= File.MAXCHUNK && SolidFile(old(fs.v), i) ==> InBudget(old(Now()), Now())
    {
      hide BufferCache.Valid, FsState.Inv, HistoryOk, InodesOnDisk, SameHome, Idle, Wrote, SameContents, Chained,
          FileSystem.Area, Changed, NoHoles, Span, Saved, Full, LogFits, BlocksIn, Replay, InodeLast, AboveInodes,
              Operated, InBudget;
      ghost var a, v0 := Now(), fs.v;
      StoredFits(l, v0, i);
      IdleCount(start, log.lh, log.cache.v);
      fs.Begin();
      ghost var got;
      r, got := fs.Writei(i, off, src, |src|);
      if r != -1 {
        WroteCount(v0, fs.v, i, off, src[..got], r);
      }
      SameContentsItself(fs.v);
      ok := Finish(a, WriteOp(i, off, src, r));
      Completed(l, a, WriteOp(i, off, src, r), Now());
      if Reserved(a) && |src| <= File.MAXCHUNK && SolidFile(v0, i) {
        WriteFits(l, a.lh, a.outstanding, v0, fs.writes, fs.logged, i, off, src, r);
        WithRoom(l, a, WriteOp(i, off, src, r), Now());
      }
    }

    // itrunc as one operation. False if it panics.
    method Truncate(i: nat) returns (ok: bool)
      requires Valid() && !dead && i < inodes
      modifies this`dead, this`past, this`ops, log`lh, log.cache, fs
      ensures Valid() && ok == !dead && Operated(l, old(Now()), Cleared(i), Now())
      ensures Reserved(old(Now())) && SmallBitmap(l) ==> InBudget(old(Now()), Now())
    {
      hide BufferCache.Valid, FsState.Inv, HistoryOk, InodesOnDisk, SameHome, Idle, Truncated, SameContents, Chained,
          FileSystem.Area, Changed, LogFits, BlocksIn, Replay, InodeLast, AboveInodes, MapBlocks, BlocksOf, Operated,
              InBudget;
      ghost var a, v0 := Now(), fs.v;
      StoredFits(l, v0, i);
      IdleCount(start, log.lh, log.cache.v);
      fs.Begin();
      fs.Itrunc(i);
      TruncatedSizes(l, v0, fs.v, i);
      ok := Finish(a, Cleared(i));
      Completed(l, a, Cleared(i), Now());
      if Reserved(a) && SmallBitmap(l) {
        TruncateFits(l, a.lh, a.outstanding, v0, fs.writes, fs.logged, i);
        WithRoom(l, a, Cleared(i), Now());
      }
    }

    // end_op. The last of the operations commits them all; then they are durable.
    method End() returns (r: EndResult)
      requires Valid() && !dead && log.outstanding > 0
      modifies this`dead, this`upto, log, log.cache
      ensures Valid() && past == old(past) && upto != [] && log == old(log) && log.cache == old(log.cache)
      ensures r == Ended || r == Committed || r == NoBuffers
      ensures dead <==> r == NoBuffers
      ensures r == Committed ==> Last(upto) == |past| - 1
      ensures Closed(old(Now()), Now())
    {
      hide BufferCache.Valid, FileSystem.Valid, HistoryOk, Chained, Consistent, SameHome, SameContents, Idle, DidCommit,
          InUse, LogInv, Quiet;
      ghost var h, v0, lh := Record(), log.cache.v, log.lh;
      TraceNotEmpty(l, start, h);
      IdleQuiet(start, lh, v0);
      IdleCount(start, lh, v0);
      r := log.EndOp();
      if r == NoBuffers {
        dead := true;
      } else if r == Committed {
        SameHomeTransitive(start, v0.cur, fs.v.d, Last(past).d);
        CommitKeeps(l, start, h, lh, v0, log.cache.v);
        CommitRuns(start, lh, v0, log.cache.v, fs.v.d);
        upto := CommitUpto(h, lh);
      }
    }

    // Power is lost when the disk is the k-th of those so far, and comes back. What was done by then
    // and committed is there, as whole operations; this includes disks in the middle of a commit and
    // in the middle of the recovery after an earlier loss.
    method PowerLoss(k: nat)
      requires Valid() && k < |log.cache.v.trace|
      modifies this
      ensures Valid() && !dead && fresh(log) && fresh(log.cache) && fresh(fs)
      ensures |old(upto)| == |old(log.cache.v).trace| && old(upto)[k] < |old(past)|
      ensures past == old(past)[..old(upto)[k] + 1] && |old(past)| == |old(ops)| + 1 && ops == old(ops)[..old(upto)[k]]
      ensures SameContents(fs.v, Last(past)) && Consistent(l, fs.v)
      ensures Rebooted(l, old(Now()), k, Now())
    {
      hide BufferCache.Valid, FileSystem.Valid, HistoryOk, Chained, Consistent, SameHome, Idle, Stands, Booted,
          SameContents;
      ghost var h := Record();
      TraceNotEmpty(l, start, h);
      PrefixConsistent(l, start, h, k);
      var d := DiskAt(log.cache, k);
      ghost var f := past[upto[k]];
      ChainedPrefix(l, past, ops, upto[k]);
      past, ops := past[..upto[k] + 1], ops[..upto[k]];
      assert Last(past) == f;
      var g, s := Boot(l, start, d, inodes, f);
      BootKeeps(l, start, past, d, g.cache.v);
      Started(l, start, d, g.cache.v, s.v, f);
      log, fs, dead := g, s, false;
      ghost var n := |past| - 1;
      upto := seq(|g.cache.v.trace|, _ => n);
    }

    // The changes that the file system made since the machine was as in `a` go to the log.
    method Finish(ghost a: Snap, ghost op: Op) returns (ok: bool)
      requires log.start == start && log.cache.Valid() && HistoryOk(l, start, Record()) && !dead && !log.committing
      requires past != [] && (forall i :: 0 <= i < |past| ==> |past[i].ips| == inodes) && Chained(l, past, ops)
      requires a.past == past && a.ops == ops && a.lh == log.lh && a.outstanding == log.outstanding
      requires Consistent(l, a.fs) && SameContents(a.fs, Last(past)) && Did(l, a.fs, op, fs.v)
      requires fs.Valid({}) && fs.l == l && Consistent(l, fs.v) && |fs.v.ips| == inodes
      requires !fs.torn && fs.since == a.fs.d && Idle(start, log.lh, log.cache.v)
          && SameHome(start, log.cache.v.cur, a.fs.d)
      modifies this`dead, this`past, this`ops, log`lh, log.cache
      ensures Valid() && ok == !dead && BlocksIn(fs.writes) <= fs.logged && fs.v.d == Replay(a.fs.d, fs.writes)
      ensures past == if ok then a.past + [fs.v] else a.past
      ensures ops == if ok then a.ops + [op] else a.ops
      ensures ok <==> LogFits(a.lh, a.outstanding, fs.writes)
      ensures ok ==> Elems(log.lh) == Elems(a.lh) + BlocksIn(fs.writes) && |log.lh| == |Elems(log.lh)| <= LOGBLOCKS
    {
      hide LogFits, BlocksIn, BufferCache.Valid, Consistent, HistoryOk, SameHome, SameContents, Chained, Did, Idle,
          Changed, Replay,
          Loggable, FileSystem.Area;
      Opened(l, start, Record());
      ChangesLoggable(l, start, fs.since, fs.writes, fs.logged, fs.d);
      BlocksLogged(l, fs.since, fs.writes, fs.logged, fs.d);
      ghost var h := Record();
      ok := LogAll(fs.writes, a.fs.d);
      if ok {
        OperationKeeps(l, start, h, fs.v);
        DidHere(l, start, h, a.fs, op, fs.v);
        ChainedNext(l, past, ops, op, fs.v);
        past, ops := past + [fs.v], ops + [op];
        SameHomeItself(start, fs.v.d);
        SameContentsItself(fs.v);
        IdleCount(start, log.lh, log.cache.v);
      } else {
        dead := true;
      }
    }
  }

  /** Idle again after a commit, with the same file system. */
  lemma CommitRuns(start: nat, lh: seq<nat>, v0: View, v: View, d: Disk)
    requires Idle(start, lh, v0) && DidCommit(start, lh, v0, v) && SameHome(start, v0.cur, d)
    ensures Idle(start, [], v) && SameHome(start, v.cur, d)
  {
    hide DidCommit, Idle, SameHome;
    IdleAfterCommit(start, lh, v0, v);
    SameHomeTransitive(start, v.cur, v0.cur, d);
  }

  lemma PrefixConsistent(l: Layout, start: nat, h: History, k: nat)
    requires HistoryOk(l, start, h) && k < |h.trace|
    ensures LogBeforeInodes(l, start) && k < |h.upto| && h.upto[k] < |h.past|
    ensures Stands(start, h.trace[k], h.past[h.upto[k]].d) && Consistent(l, h.past[h.upto[k]])
    ensures forall i :: 0 <= i <= h.upto[k] ==> Consistent(l, h.past[i])
  {
    hide Consistent, Stands;
    assert StandsAt(start, h, k);
  }

  lemma TraceNotEmpty(l: Layout, start: nat, h: History)
    requires HistoryOk(l, start, h)
    ensures |h.upto| == |h.trace| > 0
  {
  }

  lemma DidHere(l: Layout, start: nat, h: History, was: Fs, op: Op, f: Fs)
    requires HistoryOk(l, start, h) && Consistent(l, was) && SameContents(was, Last(h.past)) && Did(l, was, op, f)
    ensures Did(l, Last(h.past), op, f)
  {
    hide Did, SameContents, Owned, Mapped, InodesOnDisk, StandsAt;
    assert Consistent(l, Last(h.past));
    DidFromSame(l, Last(h.past), was, op, f);
  }

  lemma SameContentsItself(f: Fs)
    ensures SameContents(f, f)
  {
  }

  lemma Opened(l: Layout, start: nat, h: History)
    requires HistoryOk(l, start, h)
    ensures LogBeforeInodes(l, start)
  {
  }

  lemma WroteCount(v0: Fs, v: Fs, i: nat, off: nat, data: seq<Byte>, tot: nat)
    requires Wrote(v0, v, i, off, data, tot)
    ensures |v.ips| == |v0.ips|
  {
  }

  lemma TruncatedSizes(l: Layout, v0: Fs, v: Fs, i: nat)
    requires Truncated(l, v0, v, i) && Sizes(v0)
    ensures Sizes(v) && |v.ips| == |v0.ips|
  {
  }

  lemma ReplayNone(d: seq<Block>)
    ensures Replay(d, []) == d
  {
  }

  lemma IdleFacts(start: nat, lh: seq<nat>, v: View, d: Disk)
    requires Idle(start, lh, v) && SameHome(start, v.cur, d)
    ensures LogInv(start, lh, v) && v.held == {} && v.ready == map[] && |v.disk| == |v.cur| == |d|
  {
  }

  lemma Started(l: Layout, start: nat, d: Disk, v: View, g: Fs, f: Fs)
    requires Stands(start, d, f.d) && Booted(start, d, v) && g == f.(d := v.disk)
    ensures Idle(start, [], v) && SameHome(start, v.cur, g.d) && |v.trace| > 0
  {
    hide RecoveryResult, RecoveryTrace, LogInv, Quiet, Idle;
    IdleAfterBoot(start, d, v);
    SameHomeItself(start, v.cur);
  }

  // ---- runs ----

  datatype Command = Begin | Write(i: nat, off: nat, src: seq<Byte>) | Truncate(i: nat) | End | PowerLoss(k: nat)

  /** What a command does; one that makes no sense, and any but a power loss after a panic, does nothing. */
  ghost predicate Effect(l: Layout, inodes: nat, c: Command, a: Snap, b: Snap)
  {
    match c
    case Begin => b == if !a.dead && Admits(a) then a.(outstanding := a.outstanding + 1) else a
    case Write(i, off, src) =>
      if a.dead || i >= inodes || off >= WORD_LIMIT || |src| >= WORD_LIMIT then b == a
      else
        && (exists r: int :: Gave(l, a.fs, i, off, src, r, b.fs) && Operated(l, a, WriteOp(i, off, src, r), b))
        && (Reserved(a) && |src| <= File.MAXCHUNK && SolidFile(a.fs, i) ==> InBudget(a, b))
    case Truncate(i) =>
      if a.dead || i >= inodes then b == a
      else
        && Operated(l, a, Cleared(i), b)
        && (Reserved(a) && SmallBitmap(l) ==> InBudget(a, b))
    case End => if a.dead || a.outstanding == 0 then b == a else Closed(a, b)
    case PowerLoss(k) => if k >= |a.upto| then b == a else Rebooted(l, a, k, b)
  }

  method Step(m: Machine, c: Command)
    requires m.Valid()
    modifies m, m.log, m.log.cache, m.fs
    ensures m.Valid() && Effect(m.l, m.inodes, c, old(m.Now()), m.Now())
    ensures m.log == old(m.log) || fresh(m.log)
    ensures m.log.cache == old(m.log.cache) || fresh(m.log.cache)
    ensures m.fs == old(m.fs) || fresh(m.fs)
  {
    hide Machine.Valid, Operated, Gave, Closed, Rebooted, SolidFile, Admits;
    var disks := Disks(m);
    match c
    case Begin =>
      if !m.dead {
        var ok := m.Begin();
      }
    case Write(i, off, src) =>
      if !m.dead && i < m.inodes && off < WORD_LIMIT && |src| < WORD_LIMIT {
        var ok, r := m.Write(i, off, src);
      }
    case Truncate(i) =>
      if !m.dead && i < m.inodes {
        var ok := m.Truncate(i);
      }
    case End =>
      if !m.dead && m.log.outstanding > 0 {
        var r := m.End();
      }
    case PowerLoss(k) =>
      if k < disks {
        m.PowerLoss(k);
      }
  }

  method Disks(m: Machine) returns (n: nat)
    requires m.Valid()
    ensures n == |m.log.cache.v.trace| == |m.upto|
  {
    n := |m.log.cache.history|;
  }

  // Whatever is asked of the machine, in whatever order, and whenever its power is lost: every disk it
  // has written recovers to the file system that a prefix of the operations made, and while it runs
  // processes see the one that all of them made.
  method Run(m: Machine, script: seq<Command>) returns (ghost run: seq<Snap>)
    requires m.Valid()
    modifies m, m.log, m.log.cache, m.fs
    ensures |run| == |script| + 1 && run[0] == old(m.Now()) && Last(run) == m.Now()
    ensures forall j :: 0 <= j < |script| ==> Effect(m.l, m.inodes, script[j], run[j], run[j + 1])
    ensures m.Valid() && m.past != [] && HistoryOk(m.l, m.start, m.Record()) && Chained(m.l, m.past, m.ops)
    ensures !m.dead ==> Consistent(m.l, m.fs.v) && SameContents(m.fs.v, Last(m.past))
  {
    hide Machine.Valid, Effect;
    var j := 0;
    run := [m.Now()];
    while j < |script|
      invariant 0 <= j <= |script| && m.Valid() && |run| == j + 1 && run[0] == old(m.Now()) && run[j] == m.Now()
      invariant forall i :: 0 <= i < j ==> Effect(m.l, m.inodes, script[i], run[i], run[i + 1])
      invariant m.log == old(m.log) || fresh(m.log)
      invariant m.log.cache == old(m.log.cache) || fresh(m.log.cache)
      invariant m.fs == old(m.fs) || fresh(m.fs)
    {
      Step(m, script[j]);
      run := run + [m.Now()];
      j := j + 1;
    }
    m.Meaning();
  }

  /** A bracket of one operation that keeps to its budget: no panic, and when it is over the operation is
      on disk to stay. */
  lemma BracketIsDurable(l: Layout, inodes: nat, c: Command, a: Snap, a1: Snap, a2: Snap, b: Snap)
    requires !a.dead && a.outstanding == 0 && a.lh == [] && a.past != [] && a.upto != []
    requires Effect(l, inodes, Begin, a, a1) && Effect(l, inodes, c, a1, a2) && Effect(l, inodes, End, a2, b)
    requires if c.Truncate? then c.i < inodes && SmallBitmap(l)
             else c.Write? && c.i < inodes && c.off < WORD_LIMIT && |c.src| <= File.MAXCHUNK && SolidFile(a.fs, c.i)
    ensures !b.dead && b.outstanding == 0 && b.lh == []
    ensures |b.past| == |a.past| + 1 && a.past <= b.past && |b.ops| == |a.ops| + 1 && a.ops <= b.ops
    ensures b.upto != [] && Last(b.upto) == |b.past| - 1
  {
    hide SolidFile, Gave, LogFits, Did, Replay, BlocksIn;
    assert InBudget(a1, a2);
  }

  // ---- a machine to start with ----

  lemma ZeroInode(slot: nat)
    requires slot < IPB
    ensures GetInode(ZeroBlock(), slot).size == 0 && |GetInode(ZeroBlock(), slot).addrs| == NDIRECT + 1
    ensures forall k :: 0 <= k <= NDIRECT ==> GetInode(ZeroBlock(), slot).addrs[k] == 0
  {
    hide Word, ZeroBlock;
    ZeroWord(IPB * slot + 2);
    forall k | 0 <= k <= NDIRECT
      ensures GetInode(ZeroBlock(), slot).addrs[k] == 0
    {
      ZeroWord(IPB * slot + 3 + k);
      assert GetInode(ZeroBlock(), slot).addrs[k] == GetAddr(ZeroBlock(), slot, k);
    }
  }

  /** An image with zeroed inodes and a bitmap that marks the metadata alone is consistent. */
  lemma FreshConsistent(l: Layout, d: seq<Block>, ips: seq<Inode>)
    requires LayoutOk(l, Fs(d, ips, map[])) && forall b :: 0 <= b < l.size ==> (Used(l, d, b) <==> b < l.datastart)
    requires forall i: nat :: i < |ips| ==> d[IBlock(l, i)] == ZeroBlock() && ips[i] == GetInode(ZeroBlock(), i % IPB)
    ensures Consistent(l, Fs(d, ips, map[]))
  {
    hide GetInode, ZeroBlock, Used, Owned, Mapped;
    forall i: nat | i < |ips|
      ensures ips[i].size == 0 && |ips[i].addrs| == NDIRECT + 1
          && forall k :: 0 <= k <= NDIRECT ==> ips[i].addrs[k] == 0
    {
      ZeroInode(i % IPB);
    }
    FreshImage(l, d, ips);
  }

  // A bitmap block with its first n bits set.
  method FirstBits(n: nat) returns (x: Block)
    requires n <= BPB
    ensures forall k: nat :: k < BPB ==> (Bit(x, k) <==> k < n)
  {
    hide Bit, SetBit, ZeroBlock;
    x := ZeroBlock();
    ZeroBits();
    var j := 0;
    while j < n
      invariant 0 <= j <= n && forall k: nat :: k < BPB ==> (Bit(x, k) <==> k < j)
    {
      forall k: nat | k < BPB
        ensures Bit(SetBit(x, j, true), k) <==> k < j + 1
      {
        BitOfSetBit(x, j, true, k);
      }
      x := SetBit(x, j, true);
      j := j + 1;
    }
  }

  lemma ZeroBits()
    ensures forall k: nat :: k < BPB ==> !Bit(ZeroBlock(), k)
  {
    forall k: nat | k < BPB
      ensures !Bit(ZeroBlock(), k)
    {
      ZeroHasNone(k % 8);
    }
  }

  lemma {:induction false} ZeroHasNone(k: nat)
    ensures !Has(0, k)
  {
    if k > 0 {
      ZeroHasNone(k - 1);
    }
  }

  // A small disk, freshly made: boot and super block, log, one block of inodes, one of bitmap, data.
  method FreshMachine() returns (m: Machine)
    ensures m.Valid() && !m.dead && m.inodes == IPB && m.ops == []
  {
    hide Bit, ZeroBlock, GetInode, Consistent, Machine.Valid, Word;
    var x := FirstBits(35);
    var d := seq(100, _ => ZeroBlock())[34 := x];
    var l := Layout(100, 33, 34, 35);
    var ips := seq(IPB, i requires 0 <= i < IPB => GetInode(ZeroBlock(), i));
    ghost var f := Fs(d, ips, map[]);
    forall i: nat | i < IPB
      ensures ips[i] == GetInode(ZeroBlock(), i % IPB) && |ips[i].addrs| == NDIRECT + 1 && IBlock(l, i) == 33
    {
      ZeroInode(i);
    }
    forall b | 0 <= b < 100
      ensures BBlock(l, b) == 34 && (Used(l, d, b) <==> b < 35)
    {
    }
    FreshConsistent(l, d, ips);
    ZeroDisk(2, d);
    FreshStands(2, d);
    m := new Machine(l, 2, d, IPB, f);
  }

  lemma FreshStands(start: nat, d: Disk)
    requires EmptyLog(start, d)
    ensures Stands(start, d, d)
  {
    hide Stands;
    SameHomeItself(start, d);
    EmptyStands(start, d, d);
  }
}
