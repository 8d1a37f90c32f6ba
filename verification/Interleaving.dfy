/** Operations whose block writes interleave, and what a crash leaves of them.

    A run is one of GroupCommit with the data of its log_writes. `writes` lists these in order, each
    with the number of its operation and of the transaction it fell into; the first `done` of them have
    been committed. `first` is the disk at the start of the run and `disk` the one now.
 */
module Interleaving {
  import opened Blocks
  import opened Collections
  import opened RedoLog
  import opened GroupCommit

  datatype Entry = Entry(op: nat, tx: nat, blk: nat, data: Block)

  datatype Run = Run(g: State, first: Disk, disk: Disk, ids: map<nat, nat>, next: nat, writes: seq<Entry>, done: nat)

  /** An event, with the data if it is a log_write. */
  datatype Action = Action(e: Event, data: Block)

  ghost predicate Possible(start: nat, r: Run, a: Action)
  {
    Enabled(r.g, a.e) && Next(r.g, a.e).Ok? && (a.e.Write? ==> IsHome(start, |r.first|, a.e.blk) && a.e.p in r.ids)
  }

  ghost function After(start: nat, r: Run, a: Action): (r': Run)
    requires Possible(start, r, a)
  {
    var g := Next(r.g, a.e).s;
    match a.e
    case Begin(p) => if p in g.ops then r.(g := g, ids := r.ids[p := r.next], next := r.next + 1) else r.(g := g)
    case Write(p, blk) => r.(g := g, writes := r.writes + [Entry(r.ids[p], r.g.tx, blk, a.data)])
    case End(p) => r.(g := g)
    case Committed => r.(g := g, done := |r.writes|, disk := CommitDisk(start, r))
  }

  /** The disk with blocks written in order. */
  ghost function Applied(d: Disk, ws: seq<(nat, Block)>): (r: Disk)
    ensures |r| == |d|
  {
    if ws == [] then d
    else
      var p, w := Applied(d, ws[..|ws| - 1]), ws[|ws| - 1];
      if w.0 < |p| then p[w.0 := w.1] else p
  }

  function Pairs(ws: seq<Entry>): (r: seq<(nat, Block)>)
  {
    seq(|ws|, j requires 0 <= j < |ws| => (ws[j].blk, ws[j].data))
  }

  /** The disk as processes see it, with every log_write so far. */
  ghost function Seen(r: Run): (d: Disk)
  {
    Applied(r.first, Pairs(r.writes))
  }

  /** What commit's blocks need to be; a run never gets anywhere else. */
  ghost predicate Committable(start: nat, r: Run)
  {
    && |r.g.lh| <= LOGBLOCKS && start + LOGBLOCKS < |r.disk| == |r.first| <= WORD_LIMIT
    && Homes(start, |r.disk|, r.g.lh)
  }

  /** The disk when the commit is over. */
  ghost function CommitDisk(start: nat, r: Run): (d: Disk)
  {
    if r.g.lh != [] && Committable(start, r) then Last(CommitTrace(start, r.disk, Seen(r), r.g.lh)) else r.disk
  }

  // ---- the invariant ----

  /** The transaction of an entry says whether it has been committed, and an operation has only one. */
  ghost predicate Dated(r: Run)
  {
    && r.done <= |r.writes|
    && (forall j :: 0 <= j < |r.writes| ==>
       r.writes[j].tx <= r.g.tx && r.writes[j].op < r.next && (r.writes[j].tx < r.g.tx <==> j < r.done))
    && (forall j, k :: 0 <= j < |r.writes| && 0 <= k < |r.writes| && r.writes[j].op == r.writes[k].op ==>
       r.writes[j].tx == r.writes[k].tx)
  }

  /** What running operations have written is of the open transaction. */
  ghost predicate Numbered(r: Run)
  {
    && (forall p :: p in r.g.ops ==> p in r.ids && r.ids[p] < r.next)
    && (forall p, j :: p in r.g.ops && 0 <= j < |r.writes| && r.writes[j].op == r.ids[p] ==> r.writes[j].tx == r.g.tx)
    && (forall p, q :: p in r.g.ops && q in r.g.ops && p != q ==> r.ids[p] != r.ids[q])
  }

  ghost predicate Listed(start: nat, r: Run)
  {
    && |r.g.lh| <= LOGBLOCKS && Homes(start, |r.first|, r.g.lh)
    && (forall j :: r.done <= j < |r.writes| ==> r.writes[j].blk in r.g.lh)
    && (forall j :: 0 <= j < |r.writes| ==> IsHome(start, |r.first|, r.writes[j].blk))
  }

  /** The disk has an empty log and holds the committed entries. */
  ghost predicate Backed(start: nat, r: Run)
  {
    EmptyLog(start, r.disk) && SameHome(start, r.disk, Applied(r.first, Prefix(Pairs(r.writes), r.done)))
  }

  ghost predicate Ok(start: nat, r: Run)
  {
    GroupCommit.Inv(r.g) && Dated(r) && Numbered(r) && Listed(start, r) && Backed(start, r)
  }

  /** Which operations run after an event, and in which transaction. */
  lemma RunningAfter(s: State, e: Event)
    requires GroupCommit.Inv(s) && Enabled(s, e) && Next(s, e).Ok?
    ensures var s' := Next(s, e).s;
            && (e.Begin? ==> s'.ops.Keys == s.ops.Keys || s'.ops.Keys == s.ops.Keys + {e.p})
            && (e.Write? ==> s'.ops.Keys == s.ops.Keys) && (e.End? ==> s'.ops.Keys == s.ops.Keys - {e.p})
            && (if e.Committed? then s'.ops.Keys == {} && s'.tx == s.tx + 1 else s'.tx == s.tx)
  {
    hide WithinBudget, Owned, Justified, Record, SpaceShort;
  }

  lemma DatedKept(start: nat, r: Run, a: Action)
    requires Ok(start, r) && Possible(start, r, a)
    ensures Dated(After(start, r, a))
  {
    hide GroupCommit.Inv, Listed, Backed, CommitDisk, Next;
    RunningAfter(r.g, a.e);
    if a.e.Write? {
      WriterNumbered(r, a.e.p);
    }
  }

  lemma WriterNumbered(r: Run, p: nat)
    requires Numbered(r) && p in r.g.ops
    ensures p in r.ids && r.ids[p] < r.next
    ensures forall j :: 0 <= j < |r.writes| && r.writes[j].op == r.ids[p] ==> r.writes[j].tx == r.g.tx
  {
  }

  lemma NumberedKept(start: nat, r: Run, a: Action)
    requires Ok(start, r) && Possible(start, r, a)
    ensures Numbered(After(start, r, a))
  {
    hide GroupCommit.Inv, Listed, Backed, CommitDisk, Next, Enabled;
    RunningAfter(r.g, a.e);
    var r' := After(start, r, a);
    assert forall p :: p in r'.g.ops <==> p in r'.g.ops.Keys;
    assert forall p :: p in r.g.ops <==> p in r.g.ops.Keys;
  }

  lemma ListedKept(start: nat, r: Run, a: Action)
    requires Ok(start, r) && Possible(start, r, a)
    ensures Listed(start, After(start, r, a))
  {
    hide WithinBudget, GroupCommit.Owned, Justified, Dated, Numbered, Phased, InLog, Backed, CommitDisk;
  }

  function Prefix<T>(ws: seq<T>, n: nat): (r: seq<T>)
  {
    if n <= |ws| then ws[..n] else ws
  }

  lemma {:induction false} AppliedElsewhere(d: Disk, ws: seq<(nat, Block)>, n: nat, b: nat)
    requires n <= |ws| && b < |d| && forall j :: n <= j < |ws| ==> ws[j].0 != b
    ensures Applied(d, ws)[b] == Applied(d, ws[..n])[b]
    decreases |ws|
  {
    if n < |ws| {
      AppliedElsewhere(d, ws[..|ws| - 1], n, b);
      assert ws[..|ws| - 1][..n] == ws[..n];
    } else {
      assert ws[..n] == ws;
    }
  }

  lemma OverlayOfWrites(start: nat, r: Run)
    requires Listed(start, r) && r.done <= |r.writes| && Backed(start, r)
    ensures Overlay(start, r.disk, Seen(r), r.g.lh) && Committable(start, r)
  {
    hide Applied, HeaderCount, Header;
    forall b | 0 <= b < |r.disk| && !InLog(start, b) && b !in r.g.lh
      ensures Seen(r)[b] == r.disk[b]
    {
      AppliedElsewhere(r.first, Pairs(r.writes), r.done, b);
    }
  }

  lemma BackedKept(start: nat, r: Run, a: Action)
    requires Ok(start, r) && Possible(start, r, a)
    ensures Backed(start, After(start, r, a))
  {
    hide GroupCommit.Inv, Numbered, Next, Enabled, SameHome, EmptyLog, CommitTrace, Listed, Applied, Overlay;
    var r' := After(start, r, a);
    if a.e.Committed? {
      CommitBacked(start, r);
      assert Prefix(Pairs(r.writes), |r.writes|) == Pairs(r.writes);
    } else {
      assert Prefix(Pairs(r'.writes), r'.done) == Prefix(Pairs(r.writes), r.done);
    }
  }

  lemma SomethingListed(start: nat, r: Run)
    requires Listed(start, r) && r.done < |r.writes|
    ensures r.g.lh != []
  {
    assert r.writes[r.done].blk in r.g.lh;
  }

  lemma CommitBacked(start: nat, r: Run)
    requires Dated(r) && Listed(start, r) && Backed(start, r)
    ensures EmptyLog(start, CommitDisk(start, r)) && SameHome(start, CommitDisk(start, r), Seen(r))
  {
    hide Applied, CommitTrace, HeaderCount, Header, InLog;
    OverlayOfWrites(start, r);
    if r.done < |r.writes| {
      SomethingListed(start, r);
    }
    if r.g.lh == [] {
      assert Prefix(Pairs(r.writes), r.done) == Pairs(r.writes);
    } else {
      CommitEnds(start, r.disk, Seen(r), r.g.lh);
    }
  }

  lemma StepKeepsOk(start: nat, r: Run, a: Action)
    requires Ok(start, r) && Possible(start, r, a)
    ensures Ok(start, After(start, r, a))
  {
    hide GroupCommit.Inv, Dated, Numbered, Listed, Backed;
    GroupCommit.StepKeepsInv(r.g, a.e);
    BackedKept(start, r, a);
    DatedKept(start, r, a);
    NumberedKept(start, r, a);
    ListedKept(start, r, a);
  }

  // ---- runs ----

  ghost predicate Begins(start: nat, r: Run)
  {
    && r.g == GroupCommit.Initial && r.ids == map[] && r.next == 0 && r.writes == [] && r.done == 0
    && r.disk == r.first && EmptyLog(start, r.first)
  }

  ghost predicate Leads(start: nat, r: Run, acts: seq<Action>, t: Run)
    decreases |acts|
  {
    if acts == [] then t == r
    else exists m: Run ::
          Leads(start, r, acts[..|acts| - 1], m) && Possible(start, m, Last(acts))
          && t == After(start, m, Last(acts))
  }

  lemma {:induction false} RunsKeepOk(start: nat, r: Run, acts: seq<Action>, t: Run)
    requires Begins(start, r) && Leads(start, r, acts, t)
    ensures Ok(start, t) && t.first == r.first
    decreases |acts|
  {
    hide GroupCommit.Inv, Dated, Numbered, Listed, Backed, Possible, CommitDisk;
    if acts == [] {
      BeginsOk(start, r);
    } else {
      var m: Run :| Leads(start, r, acts[..|acts| - 1], m) && Possible(start, m, Last(acts))
          && t == After(start, m, Last(acts));
      RunsKeepOk(start, r, acts[..|acts| - 1], m);
      StepKeepsOk(start, m, Last(acts));
    }
  }

  lemma BeginsOk(start: nat, r: Run)
    requires Begins(start, r)
    ensures Ok(start, r)
  {
    GroupCommit.InitialOk();
  }

  // ---- what the actions alone say ----

  function Front(acts: seq<Action>): (r: seq<Action>)
    requires acts != []
  {
    acts[..|acts| - 1]
  }

  /** Block and data of each log_write, in order. */
  function Issued(acts: seq<Action>): (ps: seq<(nat, Block)>)
  {
    if acts == [] then []
    else if Last(acts).e.Write? then Issued(Front(acts)) + [(Last(acts).e.blk, Last(acts).data)]
    else Issued(Front(acts))
  }

  /** How many log_writes came before the end of the last commit. */
  function Sealed(acts: seq<Action>): (n: nat)
    ensures n <= |Issued(acts)|
  {
    if acts == [] then 0 else if Last(acts).e.Committed? then |Issued(acts)| else Sealed(Front(acts))
  }

  function Reached(acts: seq<Action>): (s: State)
  {
    if acts == [] then GroupCommit.Initial
    else
      var r := Next(Reached(Front(acts)), Last(acts).e);
      if r.Ok? then r.s else Reached(Front(acts))
  }

  /** The last action is a begin_op that was let in. */
  predicate Admitted(acts: seq<Action>)
  {
    acts != [] && Last(acts).e.Begin? && Last(acts).e.p in Reached(acts).ops
  }

  /** How many operations have begun. */
  function Started(acts: seq<Action>): (n: nat)
  {
    if acts == [] then 0 else Started(Front(acts)) + if Admitted(acts) then 1 else 0
  }

  /** The last operation that p began: how many had begun before it. */
  function Operation(acts: seq<Action>, p: nat): (op: nat)
  {
    if acts == [] then 0
    else if Admitted(acts) && Last(acts).e.p == p then Started(Front(acts))
    else Operation(Front(acts), p)
  }

  /** The operation of each log_write, in order. */
  function Issuers(acts: seq<Action>): (ops: seq<nat>)
    ensures |ops| == |Issued(acts)|
  {
    if acts == [] then []
    else if Last(acts).e.Write? then Issuers(Front(acts)) + [Operation(Front(acts), Last(acts).e.p)]
    else Issuers(Front(acts))
  }

  ghost predicate Follows(acts: seq<Action>, t: Run)
  {
    && t.g == Reached(acts) && Pairs(t.writes) == Issued(acts) && t.done == Sealed(acts) && t.next == Started(acts)
    && (forall p :: p in t.ids ==> t.ids[p] == Operation(acts, p))
    && (forall j :: 0 <= j < |t.writes| ==> t.writes[j].op == Issuers(acts)[j])
  }

  lemma StepFollows(start: nat, acts: seq<Action>, m: Run)
    requires acts != [] && Follows(Front(acts), m) && Possible(start, m, Last(acts))
    ensures Follows(acts, After(start, m, Last(acts)))
  {
    hide Next, Enabled, CommitDisk;
    var t := After(start, m, Last(acts));
    assert Pairs(t.writes) == Issued(acts);
  }

  /** What a run has recorded is what its actions say: every log_write, in order, with its block and data
      and the operation it belongs to, and how many of them are committed. */
  lemma {:induction false} RunFollowsActions(start: nat, r: Run, acts: seq<Action>, t: Run)
    requires Begins(start, r) && Leads(start, r, acts, t)
    ensures Follows(acts, t)
    decreases |acts|
  {
    hide Possible, CommitDisk, Follows;
    if acts == [] {
      BeginFollows(start, r);
    } else {
      var m: Run :| Leads(start, r, Front(acts), m) && Possible(start, m, Last(acts))
          && t == After(start, m, Last(acts));
      RunFollowsActions(start, r, Front(acts), m);
      StepFollows(start, acts, m);
    }
  }

  lemma BeginFollows(start: nat, r: Run)
    requires Begins(start, r)
    ensures Follows([], r)
  {
  }

  // ---- what a crash leaves ----

  /** Of the first n log_writes, either all of an operation's or none. */
  ghost predicate Whole(ops: seq<nat>, n: nat, op: nat)
  {
    || (forall j :: 0 <= j < |ops| && ops[j] == op ==> j < n)
    || (forall j :: 0 <= j < |ops| && ops[j] == op ==> j >= n)
  }

  lemma CommittedAreWhole(acts: seq<Action>, t: Run, op: nat)
    requires Dated(t) && Follows(acts, t)
    ensures Whole(Issuers(acts), Sealed(acts), op)
  {
    hide Issuers, Issued, Sealed, Reached;
    assert |Pairs(t.writes)| == |t.writes|;
    if j :| 0 <= j < |t.writes| && t.writes[j].op == op {
      forall k | 0 <= k < |t.writes| && t.writes[k].op == op
        ensures k < t.done <==> j < t.done
      {
        assert t.writes[k].tx == t.writes[j].tx;
      }
    }
  }

  lemma RunningUnsealed(acts: seq<Action>, t: Run, p: nat, j: nat)
    requires Dated(t) && Numbered(t) && Follows(acts, t) && p in Reached(acts).ops && j < |Issuers(acts)|
        && Issuers(acts)[j] == Operation(acts, p)
    ensures j >= Sealed(acts)
  {
    hide Issuers, Issued, Sealed, Reached, Operation;
    assert |Pairs(t.writes)| == |t.writes|;
  }

  /** While operations run and until a commit begins, whatever recoveries are interrupted, the disk
      recovers to the log_writes up to the last commit: for each operation all of them or none, and none of
      a running one. */
  lemma CrashBetween(start: nat, r: Run, acts: seq<Action>, t: Run, crashes: seq<nat>, op: nat)
    requires Begins(start, r) && Leads(start, r, acts, t)
    ensures ValidLog(start, t.disk) && ValidLog(start, AfterCrashes(start, t.disk, crashes))
    ensures SameHome(start, RecoveryResult(start, AfterCrashes(start, t.disk, crashes)),
                     Applied(r.first, Issued(acts)[..Sealed(acts)]))
    ensures Whole(Issuers(acts), Sealed(acts), op)
    ensures forall p, j :: p in Reached(acts).ops && 0 <= j < |Issuers(acts)| && Issuers(acts)[j] == Operation(acts, p)
              ==> j >= Sealed(acts)
  {
    hide Leads, GroupCommit.Inv, Listed, Applied, RecoveryResult, AfterCrashes, Recovered, HeaderCount, Header;
    hide Issued, Issuers, Sealed, Reached, Operation, Dated, Numbered;
    RunsKeepOk(start, r, acts, t);
    RunFollowsActions(start, r, acts, t);
    CommittedAreWhole(acts, t, op);
    EmptyRecovered(start, t.disk);
    RecoveryCompletes(start, t.disk, crashes);
    forall p, j | p in Reached(acts).ops && 0 <= j < |Issuers(acts)| && Issuers(acts)[j] == Operation(acts, p)
      ensures j >= Sealed(acts)
    {
      RunningUnsealed(acts, t, p, j);
    }
  }

  /** A crash after any disk write of a commit, in any interleaving, with recoveries that are interrupted
      too: the disk recovers to the log_writes up to the commit before, or to all of them if the header is
      written. Either way each operation is there as a whole or not at all, and none is running. */
  lemma CrashInInterleavedCommit(start: nat, r: Run, acts: seq<Action>, t: Run, k: nat, crashes: seq<nat>, op: nat)
    requires Begins(start, r) && Leads(start, r, acts, t) && t.g.committing && t.g.lh != [] && k < 2 * |t.g.lh| + 2
    ensures Committable(start, t) && t.g.ops == map[] && Seen(t) == Applied(r.first, Issued(acts))
    ensures var c := CommitTrace(start, t.disk, Seen(t), t.g.lh)[k];
            ValidLog(start, c) && ValidLog(start, AfterCrashes(start, c, crashes))
    ensures var c := CommitTrace(start, t.disk, Seen(t), t.g.lh)[k];
            var n := if k < |t.g.lh| then Sealed(acts) else |Issued(acts)|;
            && SameHome(start, RecoveryResult(start, AfterCrashes(start, c, crashes)),
                        Applied(r.first, Issued(acts)[..n]))
            && Whole(Issuers(acts), n, op)
  {
    hide Leads, Applied, Recovered, CommitTrace, WithinBudget, GroupCommit.Owned, Justified, Numbered, RecoveryResult,
        AfterCrashes, HeaderCount, Header, Listed;
    hide Issued, Issuers, Sealed, Reached, Operation;
    RunsKeepOk(start, r, acts, t);
    RunFollowsActions(start, r, acts, t);
    CommittedAreWhole(acts, t, op);
    OverlayOfWrites(start, t);
    CrashInCommit(start, t.disk, Seen(t), t.g.lh, k);
    RecoveryCompletes(start, CommitTrace(start, t.disk, Seen(t), t.g.lh)[k], crashes);
    assert Issued(acts)[..|Issued(acts)|] == Issued(acts);
  }
}
