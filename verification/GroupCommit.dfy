/** Group commit: how concurrent operations share one log transaction.

    One event is one critical section of log.lock, so a run of events is an interleaving of any
    number of processes. An operation is a begin_op .. end_op bracket; it keeps to its budget if it
    writes at most MAXOPBLOCKS distinct blocks.
 */
module GroupCommit {
  import opened RedoLog
  import opened Collections

  const MAXOPBLOCKS: nat := 10

  /** What an operation has written, which of those blocks it was the first to log, and the
      transaction that was open when it began. */
  datatype Op = Op(written: set<nat>, added: set<nat>, tx: nat)

  datatype State = State(
    lh: seq<nat>,         // log.lh
    committing: bool,     // log.committing
    ops: map<nat, Op>,    // running operations, by process; log.outstanding is their number
    asleep: set<nat>,     // processes sleeping on the log
    tx: nat,              // the number of commits so far
    finished: set<nat>)   // blocks written by the operations of this transaction that have ended

  datatype Event =
    | Begin(p: nat)               // begin_op, one test of its loop
    | Write(p: nat, blk: nat)     // log_write
    | End(p: nat)                 // end_op up to the commit
    | Committed                   // end_op after the commit

  datatype Outcome = Ok(s: State) | TooBig | OutsideTransaction | EndWhileCommitting

  predicate SpaceShort(s: State)
  {
    |s.lh| + (|s.ops| + 1) * MAXOPBLOCKS > LOGBLOCKS
  }

  /** What the code does. */
  function Next(s: State, e: Event): (r: Outcome)
  {
    match e
    case Begin(p) =>
      if s.committing || SpaceShort(s) then Ok(s.(asleep := s.asleep + {p}))
      else Ok(s.(ops := s.ops[p := Op({}, {}, s.tx)], asleep := s.asleep - {p}))
    case Write(p, blk) =>
      if |s.lh| >= LOGBLOCKS then TooBig
      else if |s.ops| < 1 then OutsideTransaction
      else if p !in s.ops then Ok(s.(lh := Record(s.lh, blk)))
      else
        var o := s.ops[p];
        var o' := o.(written := o.written + {blk}, added := if blk in s.lh then o.added else o.added + {blk});
        Ok(s.(lh := Record(s.lh, blk), ops := s.ops[p := o']))
    case End(p) =>
      var done := if p in s.ops then s.finished + s.ops[p].written else s.finished;
      if s.committing then EndWhileCommitting
      else if |s.ops - {p}| == 0 then Ok(s.(ops := s.ops - {p}, finished := done, committing := true))
      else Ok(s.(ops := s.ops - {p}, finished := done, asleep := {}))
    case Committed =>
      Ok(s.(lh := [], committing := false, asleep := {}, tx := s.tx + 1, finished := {}))
  }

  /** Log absorption: a block is listed once. */
  function Record(lh: seq<nat>, blk: nat): (r: seq<nat>)
  {
    if blk in lh then lh else lh + [blk]
  }

  /** When an event can happen: a process runs one operation at a time and stays within its budget,
      and only the end of a commit clears the log. */
  predicate Enabled(s: State, e: Event)
  {
    match e
    case Begin(p) => p !in s.ops
    case Write(p, blk) => p in s.ops && |s.ops[p].written + {blk}| <= MAXOPBLOCKS
    case End(p) => p in s.ops
    case Committed => s.committing
  }

  const Initial := State([], false, map[], {}, 0, {})

  /** begin_op's test. */
  predicate Admits(committing: bool, listed: nat, outstanding: nat)
  {
    !committing && listed + (outstanding + 1) * MAXOPBLOCKS <= LOGBLOCKS
  }

  /** An operation begins, with nothing written yet, exactly when begin_op lets it; otherwise it sleeps. */
  lemma BeginAdmitted(s: State, p: nat)
    requires p !in s.ops
    ensures Next(s, Begin(p)).Ok?
    ensures var s' := Next(s, Begin(p)).s;
            if Admits(s.committing, |s.lh|, |s.ops|) then
              s'.ops == s.ops[p := Op({}, {}, s.tx)] && p !in s'.asleep
            else s'.ops == s.ops && p in s'.asleep
  {
  }

  // ---- the invariant ----

  /** Blocks that the running operations may still add. */
  ghost function Reserved(ops: map<nat, Op>): (n: int)
    decreases |ops|
  {
    if |ops| == 0 then 0
    else
      var p :| p in ops;
      MAXOPBLOCKS - |ops[p].added| + Reserved(ops - {p})
  }

  /** The sum does not depend on the order in which it is taken. */
  lemma {:induction false} ReservedSplit(ops: map<nat, Op>, p: nat)
    requires p in ops
    ensures Reserved(ops) == MAXOPBLOCKS - |ops[p].added| + Reserved(ops - {p})
    decreases |ops|
  {
    var q :| q in ops && Reserved(ops) == MAXOPBLOCKS - |ops[q].added| + Reserved(ops - {q});
    if q != p {
      ReservedSplit(ops - {q}, p);
      ReservedSplit(ops - {p}, q);
      assert ops - {q} - {p} == ops - {p} - {q};
    }
  }

  ghost predicate OpOk(s: State, o: Op)
  {
    o.added <= o.written <= Elems(s.lh) && |o.written| <= MAXOPBLOCKS && o.tx == s.tx
  }

  /** The log never holds more than was reserved. */
  ghost predicate WithinBudget(s: State)
  {
    |s.lh| + Reserved(s.ops) <= LOGBLOCKS
  }

  /** A commit never runs beside an operation, and there is nothing to commit when none has run. */
  ghost predicate Phased(s: State)
  {
    && (s.committing ==> s.ops == map[])
    && (!s.committing && s.ops == map[] ==> s.lh == [])
  }

  /** The open transaction lists, once each, what its running operations have written and what its
      finished ones wrote, and nothing else. */
  ghost predicate Owned(s: State)
  {
    && (forall i, j :: 0 <= i < j < |s.lh| ==> s.lh[i] != s.lh[j])
    && (forall p :: p in s.ops ==> OpOk(s, s.ops[p]))
    && s.finished <= Elems(s.lh)
    && (forall blk :: blk in s.lh ==> blk in s.finished || WrittenByRunning(s, blk))
  }

  ghost predicate WrittenByRunning(s: State, blk: nat)
  {
    exists p :: p in s.ops && blk in s.ops[p].written
  }

  /** Nobody sleeps on the log without a reason. */
  ghost predicate Justified(s: State)
  {
    s.asleep != {} ==> s.committing || SpaceShort(s)
  }

  ghost predicate Inv(s: State)
  {
    WithinBudget(s) && Phased(s) && Owned(s) && Justified(s)
  }

  lemma {:induction false} ReservedNonNegative(s: State, ops: map<nat, Op>)
    requires forall p :: p in ops ==> OpOk(s, ops[p])
    ensures Reserved(ops) >= 0
    ensures Reserved(ops) == 0 ==> forall p :: p in ops ==> |ops[p].added| == MAXOPBLOCKS
    decreases |ops|
  {
    if |ops| > 0 {
      forall p | p in ops
        ensures MAXOPBLOCKS - |ops[p].added| >= 0 && Reserved(ops) >= MAXOPBLOCKS - |ops[p].added|
      {
        ReservedSplit(ops, p);
        ReservedNonNegative(s, ops - {p});
        SubsetCard(ops[p].added, ops[p].written);
      }
      var p :| p in ops;
    }
  }

  lemma {:induction false} ReservedBound(ops: map<nat, Op>)
    ensures Reserved(ops) <= MAXOPBLOCKS * |ops|
    decreases |ops|
  {
    if |ops| > 0 {
      var p :| p in ops;
      ReservedSplit(ops, p);
      ReservedBound(ops - {p});
    }
  }

  lemma BeginBudget(s: State, p: nat)
    requires WithinBudget(s) && p !in s.ops && !SpaceShort(s)
    ensures |s.lh| + Reserved(s.ops[p := Op({}, {}, s.tx)]) <= LOGBLOCKS
  {
    var ops' := s.ops[p := Op({}, {}, s.tx)];
    ReservedBound(s.ops);
    ReservedSplit(ops', p);
    assert ops' - {p} == s.ops;
  }

  lemma WriteBudget(s: State, p: nat, o: Op, k: nat)
    requires WithinBudget(s) && p in s.ops && |o.added| == |s.ops[p].added| + k
    ensures |s.lh| + k + Reserved(s.ops[p := o]) <= LOGBLOCKS
  {
    ReservedSplit(s.ops, p);
    ReservedSplit(s.ops[p := o], p);
    assert s.ops[p := o] - {p} == s.ops - {p};
  }

  lemma EndBudget(s: State, p: nat)
    requires WithinBudget(s) && p in s.ops && OpOk(s, s.ops[p])
    ensures |s.lh| + Reserved(s.ops - {p}) <= LOGBLOCKS
  {
    ReservedSplit(s.ops, p);
    SubsetCard(s.ops[p].added, s.ops[p].written);
  }

  lemma BudgetKept(s: State, e: Event)
    requires WithinBudget(s) && Phased(s) && Owned(s) && Enabled(s, e) && Next(s, e).Ok?
    ensures WithinBudget(Next(s, e).s)
  {
    hide Reserved, SpaceShort;
    var s' := Next(s, e).s;
    match e
    case Begin(p) =>
      if !s.committing && !SpaceShort(s) {
        BeginBudget(s, p);
      }
    case Write(p, blk) =>
      assert blk !in s.lh ==> blk !in s.ops[p].added;
      WriteBudget(s, p, s'.ops[p], if blk in s.lh then 0 else 1);
    case End(p) =>
      EndBudget(s, p);
    case Committed =>
      NothingReserved();
  }

  lemma NothingReserved()
    ensures Reserved(map[]) == 0
  {
  }

  lemma PhasesKept(s: State, e: Event)
    requires Inv(s) && Enabled(s, e) && Next(s, e).Ok?
    ensures Phased(Next(s, e).s)
  {
    hide WithinBudget, Owned, Justified, SpaceShort, Record;
    match e
    case Begin(p) =>
    case Write(p, blk) => assert p in Next(s, e).s.ops;
    case End(p) => assert s.ops - {p} == map[] <==> |s.ops - {p}| == 0;
    case Committed =>
  }

  lemma WriteOwned(s: State, p: nat, blk: nat)
    requires Owned(s) && Enabled(s, Write(p, blk)) && Next(s, Write(p, blk)).Ok?
    ensures Owned(Next(s, Write(p, blk)).s)
  {
    hide Record;
    var s' := Next(s, Write(p, blk)).s;
    RecordElems(s.lh, blk);
    forall b | b in s'.lh && b !in s'.finished
      ensures WrittenByRunning(s', b)
    {
      if b == blk {
        assert b in s'.ops[p].written;
      } else {
        assert WrittenByRunning(s, b);
        var q :| q in s.ops && b in s.ops[q].written;
        assert q in s'.ops && b in s'.ops[q].written;
      }
    }
    assert forall q :: q in s'.ops ==> OpOk(s', s'.ops[q]);
  }

  lemma RecordElems(lh: seq<nat>, blk: nat)
    requires forall i, j :: 0 <= i < j < |lh| ==> lh[i] != lh[j]
    ensures Elems(Record(lh, blk)) == Elems(lh) + {blk}
    ensures forall i, j :: 0 <= i < j < |Record(lh, blk)| ==> Record(lh, blk)[i] != Record(lh, blk)[j]
  {
  }

  lemma EndOwned(s: State, p: nat)
    requires Owned(s) && p in s.ops && !s.committing
    ensures Owned(Next(s, End(p)).s)
  {
    var s' := Next(s, End(p)).s;
    forall b | b in s'.lh && b !in s'.finished
      ensures WrittenByRunning(s', b)
    {
      assert WrittenByRunning(s, b);
      var q :| q in s.ops && b in s.ops[q].written;
      assert q in s'.ops && b in s'.ops[q].written;
    }
  }

  lemma BeginOwned(s: State, p: nat)
    requires Owned(s) && p !in s.ops
    ensures Owned(Next(s, Begin(p)).s)
  {
    hide SpaceShort;
    var s' := Next(s, Begin(p)).s;
    forall b | b in s'.lh && b !in s'.finished
      ensures WrittenByRunning(s', b)
    {
      assert WrittenByRunning(s, b);
      var q :| q in s.ops && b in s.ops[q].written;
      assert q in s'.ops && b in s'.ops[q].written;
    }
  }

  lemma OwnedKept(s: State, e: Event)
    requires Phased(s) && Owned(s) && Enabled(s, e) && Next(s, e).Ok?
    ensures Owned(Next(s, e).s)
  {
    match e
    case Begin(p) => BeginOwned(s, p);
    case Write(p, blk) => WriteOwned(s, p, blk);
    case End(p) => EndOwned(s, p);
    case Committed =>
  }

  lemma JustifiedKept(s: State, e: Event)
    requires Inv(s) && Enabled(s, e) && Next(s, e).Ok?
    ensures Justified(Next(s, e).s)
  {
    if e.Write? {
      assert |Next(s, e).s.ops| == |s.ops|;
    }
  }

  lemma StepKeepsInv(s: State, e: Event)
    requires Inv(s) && Enabled(s, e) && Next(s, e).Ok?
    ensures Inv(Next(s, e).s)
  {
    hide WithinBudget, Phased, Owned, Justified, Next, Enabled;
    BudgetKept(s, e);
    PhasesKept(s, e);
    OwnedKept(s, e);
    JustifiedKept(s, e);
  }

  // ---- every interleaving ----

  /** The run `es` goes through from `s`, each event being possible when it happens. */
  ghost predicate Goes(s: State, es: seq<Event>, end: State)
    decreases |es|
  {
    if es == [] then s == end
    else Enabled(s, es[0]) && Next(s, es[0]).Ok? && Goes(Next(s, es[0]).s, es[1..], end)
  }

  /** Every state of every interleaving satisfies the invariant. */
  lemma {:induction false} RunsKeepInv(s: State, es: seq<Event>, end: State)
    requires Inv(s) && Goes(s, es, end)
    ensures Inv(end)
    decreases |es|
  {
    hide Inv, Next, Enabled;
    if es != [] {
      StepKeepsInv(s, es[0]);
      RunsKeepInv(Next(s, es[0]).s, es[1..], end);
    }
  }

  lemma InitialOk()
    ensures Inv(Initial)
  {
  }

  /** No event of an operation that keeps to its budget hits a panic, except a second write of a block
      when the log is full to the last block; and then every running operation has added its whole
      budget. A write by an operation that still has some of its budget left always succeeds. */
  lemma PanicsOnlyWhenFull(es: seq<Event>, s: State, e: Event)
    requires Goes(Initial, es, s) && Enabled(s, e)
    ensures Next(s, e) != OutsideTransaction && Next(s, e) != EndWhileCommitting
    ensures Next(s, e) == TooBig <==> e.Write? && |s.lh| == LOGBLOCKS
    ensures Next(s, e) == TooBig ==>
              e.blk in s.ops[e.p].written && forall p :: p in s.ops ==> |s.ops[p].added| == MAXOPBLOCKS
  {
    InitialOk();
    RunsKeepInv(Initial, es, s);
    ReservedNonNegative(s, s.ops);
    if Next(s, e) == TooBig {
      var o := s.ops[e.p];
      SubsetCard(o.added, o.written);
      SubsetCard(o.written, o.written + {e.blk});
    }
  }

  /** A commit writes whole operations: when it runs, none is in progress, and the log holds exactly
      the blocks written by the operations that began since the last commit and have all ended. Until
      it is over, no event changes what is being committed. */
  lemma CommitsWholeOperations(es: seq<Event>, s: State, e: Event)
    requires Goes(Initial, es, s) && s.committing && Enabled(s, e)
    ensures s.ops == map[] && Elems(s.lh) == s.finished
    ensures e == Committed || (e.Begin? && Next(s, e).Ok? && Next(s, e).s == s.(asleep := s.asleep + {e.p}))
  {
    InitialOk();
    RunsKeepInv(Initial, es, s);
    forall blk | blk in Elems(s.lh)
      ensures blk in s.finished
    {
      assert !WrittenByRunning(s, blk);
    }
  }

  lemma StillListed(s: State, p: nat)
    requires Inv(s) && p in s.ops
    ensures s.ops[p].written <= Elems(s.lh)
  {
    assert OpOk(s, s.ops[p]);
  }

  lemma StillRunning(s: State, e: Event, p: nat)
    requires Inv(s) && Enabled(s, e) && Next(s, e).Ok? && p in s.ops && e != End(p)
    ensures var s' := Next(s, e).s; p in s'.ops && s'.tx == s.tx && s.ops[p].written <= s'.ops[p].written
  {
  }

  /** The blocks an operation writes all go into the transaction that was open when it began, and that
      transaction is not committed before it ends. */
  lemma {:induction false} OneTransactionPerOperation(s: State, es: seq<Event>, end: State, p: nat)
    requires Inv(s) && Goes(s, es, end) && p in s.ops
    requires forall i :: 0 <= i < |es| ==> es[i] != End(p)
    ensures p in end.ops && end.tx == s.tx && s.ops[p].written <= end.ops[p].written <= Elems(end.lh)
    decreases |es|
  {
    hide Inv, Next, Enabled, OpOk;
    if es == [] {
      StillListed(s, p);
    } else {
      StepKeepsInv(s, es[0]);
      StillRunning(s, es[0], p);
      assert forall i :: 0 <= i < |es[1..]| ==> es[1..][i] == es[i + 1];
      OneTransactionPerOperation(Next(s, es[0]).s, es[1..], end, p);
    }
  }

  // ---- the panic is reachable ----

  lemma {:induction false} GoesOn(s: State, es: seq<Event>, mid: State, e: Event)
    requires Goes(s, es, mid) && Enabled(mid, e) && Next(mid, e).Ok?
    ensures Goes(s, es + [e], Next(mid, e).s)
    decreases |es|
  {
    hide Next, Enabled;
    if es == [] {
      assert ([e])[1..] == [];
    } else {
      GoesOn(Next(s, es[0]).s, es[1..], mid, e);
      assert (es + [e])[1..] == es[1..] + [e];
    }
  }

  ghost function Blocks(p: nat, k: nat): (r: set<nat>)
    ensures forall b: nat :: b in r <==> b < k && Share(p, b)
  {
    set b | b in UpTo(k) && Share(p, b)
  }

  predicate Share(p: nat, b: nat)
  {
    MAXOPBLOCKS * p <= b < MAXOPBLOCKS * p + MAXOPBLOCKS
  }

  ghost function FillOp(p: nat, k: nat): (o: Op)
  {
    Op(Blocks(p, k), Blocks(p, k), 0)
  }

  /** Operations 0, 1 and 2 are running and between them have written blocks 0 .. k-1 in turn. */
  ghost function Filled(k: nat): (s: State)
  {
    State(seq(k, i => i), false, map[0 := FillOp(0, k), 1 := FillOp(1, k), 2 := FillOp(2, k)], {}, 0, {})
  }

  lemma BlocksGrow(p: nat, k: nat)
    ensures Blocks(p, k + 1) == if Share(p, k) then Blocks(p, k) + {k} else Blocks(p, k)
    ensures k !in Blocks(p, k)
  {
  }

  lemma {:induction false} BlocksCard(p: nat, k: nat)
    ensures |Blocks(p, k)| == if k < MAXOPBLOCKS * p then 0 else if k < MAXOPBLOCKS * p + MAXOPBLOCKS
        then k - MAXOPBLOCKS * p else MAXOPBLOCKS
  {
    hide Blocks;
    if k == 0 {
      NoBlocks(p);
    } else {
      BlocksCard(p, k - 1);
      BlocksGrow(p, k - 1);
    }
  }

  lemma NoBlocks(p: nat)
    ensures Blocks(p, 0) == {}
  {
  }

  lemma ThreeBegin() returns (es: seq<Event>)
    ensures Goes(Initial, es, Filled(0))
  {
    var o := Op({}, {}, 0);
    var s1 := Initial.(ops := map[0 := o]);
    var s2 := Initial.(ops := map[0 := o, 1 := o]);
    var s3 := Initial.(ops := map[0 := o, 1 := o, 2 := o]);
    assert Next(Initial, Begin(0)) == Ok(s1);
    assert Next(s1, Begin(1)) == Ok(s2) by {
      assert |s1.ops| == 1;
    }
    assert Next(s2, Begin(2)) == Ok(s3) by {
      assert |s2.ops| == 2;
    }
    es := [Begin(0)];
    GoesOn(Initial, [], Initial, Begin(0));
    assert [] + [Begin(0)] == es;
    GoesOn(Initial, es, s1, Begin(1));
    es := es + [Begin(1)];
    GoesOn(Initial, es, s2, Begin(2));
    es := es + [Begin(2)];
    FilledStart(s3);
  }

  lemma FilledStart(s: State)
    requires s == Initial.(ops := map[0 := Op({}, {}, 0), 1 := Op({}, {}, 0), 2 := Op({}, {}, 0)])
    ensures s == Filled(0)
  {
    assert Blocks(0, 0) == Blocks(1, 0) == Blocks(2, 0) == {};
  }

  lemma {:induction false} ThreeFill(k: nat) returns (es: seq<Event>)
    requires k <= LOGBLOCKS
    ensures Goes(Initial, es, Filled(k))
  {
    hide Filled, Next, Enabled, Share;
    if k == 0 {
      es := ThreeBegin();
    } else {
      var before := ThreeFill(k - 1);
      var e := Write((k - 1) / MAXOPBLOCKS, k - 1);
      ShareOf(k - 1);
      FillStep((k - 1) / MAXOPBLOCKS, k - 1);
      GoesOn(Initial, before, Filled(k - 1), e);
      es := before + [e];
    }
  }

  lemma ShareOf(b: nat)
    requires b < LOGBLOCKS
    ensures b / MAXOPBLOCKS < 3 && Share(b / MAXOPBLOCKS, b)
  {
  }

  lemma FillStep(p: nat, k: nat)
    requires p < 3 && Share(p, k)
    ensures Enabled(Filled(k), Write(p, k)) && Next(Filled(k), Write(p, k)) == Ok(Filled(k + 1))
  {
    hide Blocks, FillOp;
    var s := Filled(k);
    FillOpStep(0, k);
    FillOpStep(1, k);
    FillOpStep(2, k);
    WriteNew(s, p, k);
    assert s.lh + [k] == Filled(k + 1).lh;
    assert s.ops[p := FillOp(p, k + 1)] == Filled(k + 1).ops by {
      if p == 0 {
      } else if p == 1 {
      } else {
      }
    }
  }

  lemma WriteNew(s: State, p: nat, blk: nat)
    requires p in s.ops && blk !in s.lh && |s.lh| < LOGBLOCKS
    ensures Next(s, Write(p, blk)) ==
              Ok(s.(lh := s.lh + [blk],
                    ops := s.ops[p := Op(s.ops[p].written + {blk}, s.ops[p].added + {blk}, s.ops[p].tx)]))
  {
    assert |s.ops| > 0;
  }

  lemma FillOpStep(p: nat, k: nat)
    ensures Share(p, k) ==>
        FillOp(p, k + 1) == Op(FillOp(p, k).written + {k}, FillOp(p, k).added + {k}, FillOp(p, k).tx)
    ensures !Share(p, k) ==> FillOp(p, k + 1) == FillOp(p, k)
    ensures Share(p, k) ==> |FillOp(p, k).written + {k}| <= MAXOPBLOCKS
  {
    BlocksGrow(p, k);
    BlocksCard(p, k + 1);
  }

  /** Three operations can fill the log to its last block, each within its budget; writing one of its
      own blocks again is then within an operation's budget and panics. */
  lemma AbsorbedWriteCanPanic() returns (es: seq<Event>, s: State)
    ensures Goes(Initial, es, s) && Enabled(s, Write(0, 0)) && Next(s, Write(0, 0)) == TooBig
    ensures 0 in s.lh
  {
    es, s := FullPanics(LOGBLOCKS);
  }

  lemma FullPanics(n: nat) returns (es: seq<Event>, s: State)
    requires n == LOGBLOCKS
    ensures Goes(Initial, es, s) && Enabled(s, Write(0, 0)) && Next(s, Write(0, 0)) == TooBig && 0 in s.lh
  {
    hide Blocks, Goes;
    es := ThreeFill(n);
    s := Filled(n);
    BlocksCard(0, n);
    ZeroIn(n);
    assert s.ops[0].written + {0} == s.ops[0].written;
    assert s.lh[0] == 0;
  }

  lemma ZeroIn(n: nat)
    requires n > 0
    ensures 0 in Blocks(0, n)
  {
  }
}
