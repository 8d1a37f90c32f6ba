/** The on-disk redo log of log.c as values: what a disk means after recovery, which disks
    a commit or a recovery passes through, and why a crash at any of them is harmless.

    The log area is the header block at `start` followed by LOGBLOCKS log blocks. The header
    holds a count n and n home block numbers; log block t is the new contents of home t.
 */
module RedoLog {
  import opened Blocks

  const LOGBLOCKS: nat := 30

  type Disk = seq<Block>

  ghost predicate InLog(start: nat, blk: nat)
  {
    start <= blk <= start + LOGBLOCKS
  }

  ghost predicate IsHome(start: nat, size: nat, blk: nat)
  {
    blk < size && !InLog(start, blk)
  }

  /** Two disks that agree outside the log area. */
  ghost predicate SameHome(start: nat, a: Disk, b: Disk)
  {
    |a| == |b| && forall blk :: 0 <= blk < |a| && !InLog(start, blk) ==> a[blk] == b[blk]
  }

  // ---- the header block ----

  ghost function HeaderCount(b: Block): (n: nat)
  {
    Word(b, 0)
  }

  ghost function Header(b: Block): (h: seq<nat>)
    requires HeaderCount(b) <= LOGBLOCKS
    ensures |h| == HeaderCount(b)
  {
    seq(HeaderCount(b), i requires 0 <= i < HeaderCount(b) => Word(b, i + 1))
  }

  /** write_head changes the count and the first n numbers and leaves the rest of the block. */
  ghost function PutNumbers(b: Block, h: seq<nat>, k: nat): (r: Block)
    requires k <= |h| <= LOGBLOCKS && forall i :: 0 <= i < |h| ==> h[i] < WORD_LIMIT
  {
    if k == 0 then SetWord(b, 0, |h|) else SetWord(PutNumbers(b, h, k - 1), k, h[k - 1])
  }

  ghost function PutHeader(b: Block, h: seq<nat>): (r: Block)
    requires |h| <= LOGBLOCKS && forall i :: 0 <= i < |h| ==> h[i] < WORD_LIMIT
  {
    PutNumbers(b, h, |h|)
  }

  lemma {:induction false} PutNumbersWords(b: Block, h: seq<nat>, k: nat)
    requires k <= |h| <= LOGBLOCKS && forall i :: 0 <= i < |h| ==> h[i] < WORD_LIMIT
    ensures Word(PutNumbers(b, h, k), 0) == |h|
    ensures forall i :: 0 <= i < k ==> Word(PutNumbers(b, h, k), i + 1) == h[i]
  {
    hide Word, SetWord;
    if k == 0 {
      WordOfSetWord(b, 0, |h|, 0);
    } else {
      var p := PutNumbers(b, h, k - 1);
      PutNumbersWords(b, h, k - 1);
      WordOfSetWord(p, k, h[k - 1], 0);
      forall i | 0 <= i < k
        ensures Word(PutNumbers(b, h, k), i + 1) == h[i]
      {
        WordOfSetWord(p, k, h[k - 1], i + 1);
        if i < k - 1 {
          assert Word(p, i + 1) == h[i];
        }
      }
    }
  }

  /** What write_head writes, read_head reads back. */
  lemma HeaderRoundTrip(b: Block, h: seq<nat>)
    requires |h| <= LOGBLOCKS && forall i :: 0 <= i < |h| ==> h[i] < WORD_LIMIT
    ensures HeaderCount(PutHeader(b, h)) <= LOGBLOCKS && Header(PutHeader(b, h)) == h
  {
    PutNumbersWords(b, h, |h|);
  }

  // ---- what a disk means ----

  /** A disk whose log can be replayed: every number in the header is a home block. */
  ghost predicate ValidLog(start: nat, d: Disk)
  {
    && start + LOGBLOCKS < |d| <= WORD_LIMIT
    && HeaderCount(d[start]) <= LOGBLOCKS
    && Homes(start, |d|, Header(d[start]))
  }

  ghost predicate EmptyLog(start: nat, d: Disk)
  {
    ValidLog(start, d) && HeaderCount(d[start]) == 0
  }

  ghost predicate Homes(start: nat, size: nat, h: seq<nat>)
  {
    forall t :: 0 <= t < |h| ==> IsHome(start, size, h[t])
  }

  /** The first k steps of install_trans: log block t goes to its home. */
  ghost function Installed(start: nat, d: Disk, h: seq<nat>, k: nat): (r: Disk)
    requires k <= |h| <= LOGBLOCKS && start + LOGBLOCKS < |d| && Homes(start, |d|, h)
    ensures |r| == |d|
  {
    if k == 0 then d
    else
      var p := Installed(start, d, h, k - 1);
      p[h[k - 1] := p[start + k]]
  }

  /** The disk that recovery turns `d` into, as far as home blocks go. */
  ghost function Recovered(start: nat, d: Disk): (r: Disk)
    requires ValidLog(start, d)
    ensures |r| == |d|
  {
    Installed(start, d, Header(d[start]), HeaderCount(d[start]))
  }

  /** The last of the first k header entries that names `blk`, or -1. */
  ghost function LastEntry(h: seq<nat>, k: nat, blk: nat): (t: int)
    requires k <= |h|
    ensures -1 <= t < k && (t < 0 <==> blk !in h[..k]) && (t >= 0 ==> h[t] == blk)
  {
    if k == 0 then -1
    else
      assert h[..k] == h[..k - 1] + [h[k - 1]];
      if h[k - 1] == blk then k - 1 else LastEntry(h, k - 1, blk)
  }

  /** A block named in the first k header entries gets the log block of its last entry there;
      every other block, and in particular the log itself, is left alone. */
  lemma {:induction false} InstalledAt(start: nat, d: Disk, h: seq<nat>, k: nat, blk: nat)
    requires k <= |h| <= LOGBLOCKS && start + LOGBLOCKS < |d| && Homes(start, |d|, h) && blk < |d|
    ensures var t := LastEntry(h, k, blk);
            Installed(start, d, h, k)[blk] == if t < 0 then d[blk] else d[start + t + 1]
  {
    if k > 0 {
      InstalledAt(start, d, h, k - 1, blk);
      InstalledAt(start, d, h, k - 1, start + k);
      NotLogged(start, |d|, h, k - 1, start + k);
    }
  }

  lemma NotLogged(start: nat, size: nat, h: seq<nat>, k: nat, blk: nat)
    requires k <= |h| && Homes(start, size, h) && InLog(start, blk)
    ensures LastEntry(h, k, blk) < 0
  {
  }

  lemma {:induction false} LastEntryGrows(h: seq<nat>, k: nat, n: nat, blk: nat)
    requires k <= n <= |h|
    ensures LastEntry(h, k, blk) <= LastEntry(h, n, blk)
  {
    if k < n {
      LastEntryGrows(h, k, n - 1, blk);
    }
  }

  /** Replaying the log over a disk on which part of it has been replayed already. */
  lemma InstallIdempotent(start: nat, d: Disk, h: seq<nat>, k: nat)
    requires k <= |h| <= LOGBLOCKS && start + LOGBLOCKS < |d| && Homes(start, |d|, h)
    ensures Installed(start, Installed(start, d, h, k), h, |h|) == Installed(start, d, h, |h|)
  {
    hide Installed, LastEntry;
    var p := Installed(start, d, h, k);
    forall blk: nat | blk < |d|
      ensures Installed(start, p, h, |h|)[blk] == Installed(start, d, h, |h|)[blk]
    {
      InstalledAt(start, p, h, |h|, blk);
      InstalledAt(start, d, h, |h|, blk);
      var t := LastEntry(h, |h|, blk);
      if t < 0 {
        LastEntryGrows(h, k, |h|, blk);
        InstalledAt(start, d, h, k, blk);
      } else {
        NotLogged(start, |d|, h, k, start + t + 1);
        InstalledAt(start, d, h, k, start + t + 1);
      }
    }
  }

  // ---- recovery ----

  /** The disk after each write of recover_from_log: the installs, then the cleared header. */
  ghost function RecoveryTrace(start: nat, d: Disk): (tr: seq<Disk>)
    requires ValidLog(start, d)
    ensures |tr| == HeaderCount(d[start]) + 1
  {
    var h := Header(d[start]);
    InstalledTrace(start, d, h, |h|) + [Cleared(start, Installed(start, d, h, |h|))]
  }

  ghost function Cleared(start: nat, d: Disk): (r: Disk)
    requires start < |d|
  {
    d[start := PutHeader(d[start], [])]
  }

  lemma EmptyInstall(start: nat, d: Disk)
    requires start + LOGBLOCKS < |d|
    ensures Installed(start, d, [], 0) == d
  {
  }

  /** A crash after any write of a recovery leaves a disk that recovers to the same home blocks. */
  lemma CrashInRecovery(start: nat, d: Disk, k: nat)
    requires ValidLog(start, d) && k < |RecoveryTrace(start, d)|
    ensures ValidLog(start, RecoveryTrace(start, d)[k])
    ensures SameHome(start, Recovered(start, RecoveryTrace(start, d)[k]), Recovered(start, d))
  {
    hide Installed, PutHeader, HeaderCount, LastEntry;
    var h := Header(d[start]);
    if k < |h| {
      var p := Installed(start, d, h, k + 1);
      NotLogged(start, |d|, h, k + 1, start);
      InstalledAt(start, d, h, k + 1, start);
      assert p[start] == d[start];
      InstallIdempotent(start, d, h, k + 1);
    } else {
      var r := Installed(start, d, h, |h|);
      HeaderRoundTrip(r[start], []);
      EmptyInstall(start, Cleared(start, r));
    }
  }

  /** A run of recoveries in which the i-th crashes after `crashes[i] + 1` disk writes, or not at
      all if it has fewer than that. */
  ghost function AfterCrashes(start: nat, d: Disk, crashes: seq<nat>): (r: Disk)
    requires ValidLog(start, d)
    decreases |crashes|
  {
    if crashes == [] then d
    else
      var tr := RecoveryTrace(start, d);
      var k := if crashes[0] < |tr| then crashes[0] else |tr| - 1;
      CrashInRecovery(start, d, k);
      AfterCrashes(start, tr[k], crashes[1..])
  }

  /** However often recovery is interrupted, the disk keeps recovering to the same home blocks. */
  lemma {:induction false} CrashesKeepMeaning(start: nat, d: Disk, crashes: seq<nat>)
    requires ValidLog(start, d)
    ensures ValidLog(start, AfterCrashes(start, d, crashes))
    ensures SameHome(start, Recovered(start, AfterCrashes(start, d, crashes)), Recovered(start, d))
    decreases |crashes|
  {
    hide Recovered, RecoveryTrace;
    if crashes != [] {
      var tr := RecoveryTrace(start, d);
      var k := if crashes[0] < |tr| then crashes[0] else |tr| - 1;
      CrashInRecovery(start, d, k);
      CrashesKeepMeaning(start, tr[k], crashes[1..]);
    }
  }

  /** The disk after the last write of a recovery. */
  ghost function RecoveryResult(start: nat, d: Disk): (r: Disk)
    requires ValidLog(start, d)
  {
    RecoveryTrace(start, d)[HeaderCount(d[start])]
  }

  lemma RecoveryEnds(start: nat, d: Disk)
    requires ValidLog(start, d)
    ensures EmptyLog(start, RecoveryResult(start, d)) && SameHome(start, RecoveryResult(start, d), Recovered(start, d))
  {
    hide Installed, PutHeader;
    var r := Recovered(start, d);
    HeaderRoundTrip(r[start], []);
    assert RecoveryResult(start, d) == Cleared(start, r);
  }

  /** One recovery that runs to its end, after any number that did not, leaves an empty log and the
      home blocks that the first disk stood for. */
  lemma RecoveryCompletes(start: nat, d: Disk, crashes: seq<nat>)
    requires ValidLog(start, d)
    ensures ValidLog(start, AfterCrashes(start, d, crashes))
    ensures EmptyLog(start, RecoveryResult(start, AfterCrashes(start, d, crashes)))
    ensures SameHome(start, RecoveryResult(start, AfterCrashes(start, d, crashes)), Recovered(start, d))
  {
    hide Recovered, RecoveryTrace;
    CrashesKeepMeaning(start, d, crashes);
    RecoveryEnds(start, AfterCrashes(start, d, crashes));
  }

  // ---- commit ----

  /** The first k steps of write_log: the new contents of home h[t] go to log block t. */
  ghost function Logged(start: nat, d: Disk, cur: Disk, h: seq<nat>, k: nat): (r: Disk)
    requires k <= |h| <= LOGBLOCKS && start + LOGBLOCKS < |d| == |cur| && Homes(start, |d|, h)
    ensures |r| == |d|
  {
    if k == 0 then d else Logged(start, d, cur, h, k - 1)[start + k := cur[h[k - 1]]]
  }

  lemma {:induction false} LoggedAt(start: nat, d: Disk, cur: Disk, h: seq<nat>, k: nat, blk: nat)
    requires k <= |h| <= LOGBLOCKS && start + LOGBLOCKS < |d| == |cur| && Homes(start, |d|, h) && blk < |d|
    ensures Logged(start, d, cur, h, k)[blk] == if start < blk <= start + k then cur[h[blk - start - 1]] else d[blk]
  {
    if k > 0 {
      LoggedAt(start, d, cur, h, k - 1, blk);
    }
  }

  /** The disk once the header write has committed the transaction. */
  ghost function Committed(start: nat, d: Disk, cur: Disk, h: seq<nat>): (r: Disk)
    requires |h| <= LOGBLOCKS && start + LOGBLOCKS < |d| == |cur| <= WORD_LIMIT && Homes(start, |d|, h)
    ensures |r| == |d|
  {
    var l := Logged(start, d, cur, h, |h|);
    l[start := PutHeader(l[start], h)]
  }

  ghost function LoggedTrace(start: nat, d: Disk, cur: Disk, h: seq<nat>, k: nat): (tr: seq<Disk>)
    requires k <= |h| <= LOGBLOCKS && start + LOGBLOCKS < |d| == |cur| && Homes(start, |d|, h)
    ensures |tr| == k
  {
    seq(k, i requires 0 <= i < k => Logged(start, d, cur, h, i + 1))
  }

  ghost function InstalledTrace(start: nat, d: Disk, h: seq<nat>, k: nat): (tr: seq<Disk>)
    requires k <= |h| <= LOGBLOCKS && start + LOGBLOCKS < |d| && Homes(start, |d|, h)
    ensures |tr| == k
  {
    seq(k, i requires 0 <= i < k => Installed(start, d, h, i + 1))
  }

  /** The disk after each write of commit: log blocks, header, installs, cleared header. */
  ghost function CommitTrace(start: nat, d: Disk, cur: Disk, h: seq<nat>): (tr: seq<Disk>)
    requires |h| <= LOGBLOCKS && start + LOGBLOCKS < |d| == |cur| <= WORD_LIMIT && Homes(start, |d|, h)
    ensures |tr| == 2 * |h| + 2
  {
    var c := Committed(start, d, cur, h);
    LoggedTrace(start, d, cur, h, |h|) + [c] + InstalledTrace(start, c, h,
        |h|) + [Cleared(start, Installed(start, c, h, |h|))]
  }

  /** `cur` is `d` with the blocks of `h` changed. */
  ghost predicate Overlay(start: nat, d: Disk, cur: Disk, h: seq<nat>)
  {
    |cur| == |d| && forall blk :: 0 <= blk < |d| && !InLog(start, blk) && blk !in h ==> cur[blk] == d[blk]
  }

  lemma CommittedHeader(start: nat, d: Disk, cur: Disk, h: seq<nat>)
    requires ValidLog(start, d) && |cur| == |d| && |h| <= LOGBLOCKS && Homes(start, |d|, h)
    ensures ValidLog(start, Committed(start, d, cur, h)) && Header(Committed(start, d, cur, h)[start]) == h
  {
    HeaderRoundTrip(Logged(start, d, cur, h, |h|)[start], h);
  }

  /** From the header write on, the disk stands for the new contents. */
  lemma CommittedMeansNew(start: nat, d: Disk, cur: Disk, h: seq<nat>)
    requires ValidLog(start, d) && |h| <= LOGBLOCKS && Homes(start, |d|, h) && Overlay(start, d, cur, h)
    ensures ValidLog(start, Committed(start, d, cur, h))
    ensures SameHome(start, Recovered(start, Committed(start, d, cur, h)), cur)
  {
    hide Installed, Logged, PutHeader, Header, LastEntry;
    var c := Committed(start, d, cur, h);
    CommittedHeader(start, d, cur, h);
    assert h[..|h|] == h;
    forall blk: nat | blk < |d| && !InLog(start, blk)
      ensures Recovered(start, c)[blk] == cur[blk]
    {
      InstalledAt(start, c, h, |h|, blk);
      var t := LastEntry(h, |h|, blk);
      if t < 0 {
        LoggedAt(start, d, cur, h, |h|, blk);
      } else {
        LoggedAt(start, d, cur, h, |h|, start + t + 1);
      }
    }
  }

  /** Up to the header write, the disk stands for the old contents. */
  lemma LoggedMeansOld(start: nat, d: Disk, cur: Disk, h: seq<nat>, k: nat)
    requires EmptyLog(start, d) && |cur| == |d|
    requires k <= |h| <= LOGBLOCKS && Homes(start, |d|, h)
    ensures ValidLog(start, Logged(start, d, cur, h, k))
    ensures SameHome(start, Recovered(start, Logged(start, d, cur, h, k)), d)
  {
    var l := Logged(start, d, cur, h, k);
    LoggedAt(start, d, cur, h, k, start);
    assert Recovered(start, l) == l;
    forall blk | 0 <= blk < |d| && !InLog(start, blk)
      ensures l[blk] == d[blk]
    {
      LoggedAt(start, d, cur, h, k, blk);
    }
  }

  /** Crash atomicity: after each write of a commit the disk recovers to the old home blocks if the
      header has not been written yet and to the new ones if it has. */
  lemma CrashInCommit(start: nat, d: Disk, cur: Disk, h: seq<nat>, k: nat)
    requires EmptyLog(start, d)
    requires 0 < |h| <= LOGBLOCKS && Homes(start, |d|, h) && Overlay(start, d, cur, h)
    requires k < |CommitTrace(start, d, cur, h)|
    ensures var c := CommitTrace(start, d, cur, h)[k];
            ValidLog(start, c) && SameHome(start, Recovered(start, c), if k < |h| then d else cur)
  {
    hide Installed, Logged, Recovered, Cleared;
    if k < |h| {
      LoggedMeansOld(start, d, cur, h, k + 1);
    } else {
      var c := Committed(start, d, cur, h);
      CommittedMeansNew(start, d, cur, h);
      CommittedHeader(start, d, cur, h);
      if k > |h| {
        assert CommitTrace(start, d, cur, h)[k] == RecoveryTrace(start, c)[k - |h| - 1];
        CrashInRecovery(start, c, k - |h| - 1);
      }
    }
  }

  lemma ClearedEmpty(start: nat, d: Disk, h: seq<nat>)
    requires ValidLog(start, d) && |h| <= LOGBLOCKS && Homes(start, |d|, h)
    ensures EmptyLog(start, Cleared(start, Installed(start, d, h, |h|)))
    ensures SameHome(start, Cleared(start, Installed(start, d, h, |h|)), Installed(start, d, h, |h|))
  {
    HeaderRoundTrip(Installed(start, d, h, |h|)[start], []);
  }

  lemma EmptyRecovered(start: nat, d: Disk)
    requires EmptyLog(start, d)
    ensures Recovered(start, d) == d
  {
  }

  /** The last disk of a commit has an empty log and the new home blocks. */
  lemma CommitEnds(start: nat, d: Disk, cur: Disk, h: seq<nat>)
    requires EmptyLog(start, d) && 0 < |h| <= LOGBLOCKS && Homes(start, |d|, h) && Overlay(start, d, cur, h)
    ensures var c := CommitTrace(start, d, cur, h)[2 * |h| + 1]; EmptyLog(start, c) && SameHome(start, c, cur)
  {
    hide Recovered, Installed, Logged, PutHeader, Cleared;
    CommittedHeader(start, d, cur, h);
    ClearedEmpty(start, Committed(start, d, cur, h), h);
    CrashInCommit(start, d, cur, h, 2 * |h| + 1);
    EmptyRecovered(start, CommitTrace(start, d, cur, h)[2 * |h| + 1]);
  }
}
