/** Scheduling, sleep and wakeup (proc.c, sleeplock.c) on any number of CPUs and processes.

    One event is one step of one CPU between spinlock operations. `lk` is a condition lock and
    `blocked` the condition it guards, as a sleeper tests it: a sleeplock that is held, or a log that
    is committing or short of space. `prog` says where a process is in its use of the two.
 */
module Scheduling {
  import opened Collections

  datatype Pc =
    | Idle                      // in scheduler(), no p->lock held
    | Chosen(p: nat)            // in scheduler(), p->lock acquired
    | SwitchIn(p: nat)          // p marked RUNNING, about to swtch to it
    | Entered(p: nat)           // on p's stack, p->lock still held from scheduler()
    | Run(p: nat)               // on p's stack, p->lock not held
    | Own(p: nat)               // on p's stack, p has acquired its own lock
    | Leaving(p: nat)           // on p's stack in sched(), p no longer RUNNING
    | Back(p: nat)              // back on the scheduler's stack, p->lock still held
    | Other(p: nat, q: nat)     // on p's stack, q->lock held, in wakeup, kkill, kfork or kwait

  datatype Status = Unused | Used | Sleeping | Runnable | Running | Zombie

  datatype Prog =
    | Free                      // not using the condition
    | Crit                      // holds lk
    | Saw(b: bool)              // holds lk, has read the condition and found b
    | Sleep1                    // in sleep(), holds lk, about to acquire its own lock
    | Sleep2                    // in sleep(), holds both
    | Sleep3                    // in sleep(), lk released, still holds its own lock
    | Slept                     // has gone to sleep on the condition's channel
    | Away                      // has gone to sleep on some other channel
    | Waking(k: nat)            // in wakeup(), holds lk, has done the processes below k

  datatype State = State(
    cpu: seq<Pc>,
    cur: seq<Option<nat>>,      // c->proc
    st: seq<Status>,            // p->state
    lock: seq<Option<nat>>,     // the CPU that holds p->lock
    prog: seq<Prog>,
    lk: Option<nat>,            // the process that holds lk
    blocked: bool)

  datatype Event =
    | Scan(c: nat, p: nat)              // scheduler: acquire(&p->lock)
    | Skip(c: nat)                      // scheduler: p is not RUNNABLE, release
    | Choose(c: nat)                    // scheduler: p->state = RUNNING, c->proc = p
    | SwtchTo(c: nat)                   // swtch to the process
    | Enter(c: nat)                     // the process releases p->lock
    | LockOwn(c: nat)                   // yield, kexit, killed, or a sleep elsewhere: acquire(&p->lock)
    | UnlockOwn(c: nat)
    | Leave(c: nat, to: Status)         // the process sets its state before sched()
    | SwtchFrom(c: nat)                 // swtch to the scheduler
    | Done(c: nat)                      // scheduler: c->proc = 0, release(&p->lock)
    | LockOther(c: nat, q: nat)         // acquire(&q->lock)
    | SetOther(c: nat, to: Status)      // change q's state
    | UnlockOther(c: nat)
    | Acquire(c: nat)                   // acquire(lk)
    | Release(c: nat)                   // release(lk)
    | Test(c: nat)                      // under lk: read the condition
    | Block(c: nat)                     // under lk: the condition comes to hold
    | Unblock(c: nat)                   // under lk: it ceases to hold; wakeup follows
    | GoToSleep(c: nat)                 // under lk: the condition was found to hold, call sleep
    | SleepLock(c: nat)                 // sleep: acquire(&p->lock)
    | SleepRelease(c: nat)              // sleep: release(lk)
    | SleepNow(c: nat)                  // sleep: p->state = SLEEPING
    | WakeSkip(c: nat)                  // wakeup: p == myproc()
    | WakeLock(c: nat)                  // wakeup: acquire(&p->lock)
    | WakeOne(c: nat)                   // wakeup: make it RUNNABLE if it sleeps on the channel, release
    | WakeEnd(c: nat)                   // wakeup returns

  /** The process whose kernel stack or context a CPU is using. */
  function Cur(pc: Pc): (p: Option<nat>)
  {
    match pc
    case Idle => None
    case Chosen(_) => None
    case SwitchIn(p) => Some(p)
    case Entered(p) => Some(p)
    case Run(p) => Some(p)
    case Own(p) => Some(p)
    case Leaving(p) => Some(p)
    case Back(p) => Some(p)
    case Other(p, _) => Some(p)
  }

  /** The p->lock a CPU holds. */
  function Held(pc: Pc): (p: Option<nat>)
  {
    match pc
    case Idle => None
    case Run(_) => None
    case Other(_, q) => Some(q)
    case Chosen(p) => Some(p)
    case SwitchIn(p) => Some(p)
    case Entered(p) => Some(p)
    case Own(p) => Some(p)
    case Leaving(p) => Some(p)
    case Back(p) => Some(p)
  }

  /** Changes that another process makes, in wakeup, kkill, allocproc, kfork and freeproc. */
  predicate Allowed(from: Status, to: Status)
  {
    || (from == Sleeping && to == Runnable)
    || (from == Unused && to == Used)
    || (from == Used && (to == Runnable || to == Unused))
    || (from == Zombie && to == Unused)
  }

  /** In the critical section, with no reason to sleep. */
  predicate GoesOn(g: Prog)
  {
    g == Crit || g == Saw(false)
  }

  ghost predicate Shape(s: State)
  {
    && |s.cur| == |s.cpu| && |s.lock| == |s.prog| == |s.st|
    && (forall c :: 0 <= c < |s.cpu| ==> (Cur(s.cpu[c]).Some? ==> Cur(s.cpu[c]).value < |s.st|))
    && (forall c :: 0 <= c < |s.cpu| ==> (Held(s.cpu[c]).Some? ==> Held(s.cpu[c]).value < |s.st|))
  }

  ghost predicate Enabled(s: State, e: Event)
    requires Shape(s)
  {
    && e.c < |s.cpu|
    && var pc := s.cpu[e.c];
       match e
       case Scan(c, p) => pc.Idle? && p < |s.st| && s.lock[p].None?
       case Skip(c) => pc.Chosen? && s.st[pc.p] != Runnable
       case Choose(c) => pc.Chosen? && s.st[pc.p] == Runnable
       case SwtchTo(c) => pc.SwitchIn?
       case Enter(c) => pc.Entered?
       case LockOwn(c) => pc.Run? && s.prog[pc.p] == Free && s.lock[pc.p].None?
       case UnlockOwn(c) => pc.Own? && s.prog[pc.p] == Free
       case Leave(c, to) => pc.Own? && s.prog[pc.p] == Free && (to == Runnable || to == Sleeping || to == Zombie)
       case SwtchFrom(c) => pc.Leaving?
       case Done(c) => pc.Back?
       case LockOther(c, q) => pc.Run? && s.prog[pc.p] == Free && q < |s.st| && q != pc.p && s.lock[q].None?
       case SetOther(c, to) => pc.Other? && s.prog[pc.p] == Free && Allowed(s.st[pc.q], to)
       case UnlockOther(c) => pc.Other? && s.prog[pc.p] == Free
       case Acquire(c) => pc.Run? && s.prog[pc.p] == Free && s.lk.None?
       case Release(c) => pc.Run? && GoesOn(s.prog[pc.p])
       case Test(c) => pc.Run? && GoesOn(s.prog[pc.p])
       case Block(c) => pc.Run? && GoesOn(s.prog[pc.p])
       case Unblock(c) => pc.Run? && GoesOn(s.prog[pc.p])
       case GoToSleep(c) => pc.Run? && s.prog[pc.p] == Saw(true)
       case SleepLock(c) => pc.Run? && s.prog[pc.p] == Sleep1 && s.lock[pc.p].None?
       case SleepRelease(c) => pc.Own? && s.prog[pc.p] == Sleep2
       case SleepNow(c) => pc.Own? && s.prog[pc.p] == Sleep3
       case WakeSkip(c) => pc.Run? && s.prog[pc.p] == Waking(pc.p)
       case WakeLock(c) => pc.Run? && s.prog[pc.p].Waking? && s.prog[pc.p].k != pc.p && s.prog[pc.p].k < |s.st|
           && s.lock[s.prog[pc.p].k].None?
       case WakeOne(c) => pc.Other? && s.prog[pc.p] == Waking(pc.q)
       case WakeEnd(c) => pc.Run? && s.prog[pc.p].Waking? && s.prog[pc.p].k >= |s.st|
  }

  ghost function Next(s: State, e: Event): (s': State)
    requires Shape(s) && Enabled(s, e)
  {
    var c, pc := e.c, s.cpu[e.c];
    match e
    case Scan(_, p) => s.(cpu := s.cpu[c := Chosen(p)], lock := s.lock[p := Some(c)])
    case Skip(_) => s.(cpu := s.cpu[c := Idle], lock := s.lock[pc.p := None])
    case Choose(_) => s.(cpu := s.cpu[c := SwitchIn(pc.p)], st := s.st[pc.p := Running], cur := s.cur[c := Some(pc.p)])
    case SwtchTo(_) => s.(cpu := s.cpu[c := Entered(pc.p)])
    case Enter(_) => s.(cpu := s.cpu[c := Run(pc.p)], lock := s.lock[pc.p := None], prog := s.prog[pc.p := Free])
    case LockOwn(_) => s.(cpu := s.cpu[c := Own(pc.p)], lock := s.lock[pc.p := Some(c)])
    case UnlockOwn(_) => s.(cpu := s.cpu[c := Run(pc.p)], lock := s.lock[pc.p := None])
    case Leave(_, to) =>
      s.(cpu := s.cpu[c := Leaving(pc.p)], st := s.st[pc.p := to],
          prog := s.prog[pc.p := if to == Sleeping then Away else Free])
    case SwtchFrom(_) => s.(cpu := s.cpu[c := Back(pc.p)])
    case Done(_) => s.(cpu := s.cpu[c := Idle], cur := s.cur[c := None], lock := s.lock[pc.p := None])
    case LockOther(_, q) => s.(cpu := s.cpu[c := Other(pc.p, q)], lock := s.lock[q := Some(c)])
    case SetOther(_, to) => s.(st := s.st[pc.q := to])
    case UnlockOther(_) => s.(cpu := s.cpu[c := Run(pc.p)], lock := s.lock[pc.q := None])
    case Acquire(_) => s.(lk := Some(pc.p), prog := s.prog[pc.p := Crit])
    case Release(_) => s.(lk := None, prog := s.prog[pc.p := Free])
    case Test(_) => s.(prog := s.prog[pc.p := Saw(s.blocked)])
    case Block(_) => s.(blocked := true, prog := s.prog[pc.p := Crit])
    case Unblock(_) => s.(blocked := false, prog := s.prog[pc.p := Waking(0)])
    case GoToSleep(_) => s.(prog := s.prog[pc.p := Sleep1])
    case SleepLock(_) => s.(cpu := s.cpu[c := Own(pc.p)], lock := s.lock[pc.p := Some(c)],
        prog := s.prog[pc.p := Sleep2])
    case SleepRelease(_) => s.(lk := None, prog := s.prog[pc.p := Sleep3])
    case SleepNow(_) => s.(cpu := s.cpu[c := Leaving(pc.p)], st := s.st[pc.p := Sleeping],
        prog := s.prog[pc.p := Slept])
    case WakeSkip(_) => s.(prog := s.prog[pc.p := Waking(pc.p + 1)])
    case WakeLock(_) => s.(cpu := s.cpu[c := Other(pc.p, s.prog[pc.p].k)], lock := s.lock[s.prog[pc.p].k := Some(c)])
    case WakeOne(_) =>
      s.(cpu := s.cpu[c := Run(pc.p)], lock := s.lock[pc.q := None], prog := s.prog[pc.p := Waking(pc.q + 1)],
         st := if s.st[pc.q] == Sleeping && s.prog[pc.q] == Slept then s.st[pc.q := Runnable] else s.st)
    case WakeEnd(_) => s.(prog := s.prog[pc.p := Crit])
  }

  /** wakeup makes the processes RUNNABLE that sleep on the channel, as it comes to them, and changes the
      state of no other. */
  lemma WakesOnlySleepers(s: State, e: Event, q: nat)
    requires Shape(s) && Enabled(s, e) && (e.WakeSkip? || e.WakeLock? || e.WakeOne? || e.WakeEnd?) && q < |s.st|
    ensures var s' := Next(s, e);
            && |s'.st| == |s.st|
            && (s'.st[q] != s.st[q] ==> s.st[q] == Sleeping && s.prog[q] == Slept && s'.st[q] == Runnable)
            && (e.WakeOne? && s.cpu[e.c].q == q ==> !(s'.st[q] == Sleeping && s.prog[q] == Slept))
  {
  }

  // ---- the invariant ----

  /** A p->lock is held by the CPU that says so, and by no other. */
  ghost predicate Locks(s: State)
    requires Shape(s)
  {
    && (forall c :: 0 <= c < |s.cpu| ==> (Held(s.cpu[c]).Some? ==> s.lock[Held(s.cpu[c]).value] == Some(c)))
    && (forall p :: 0 <= p < |s.st| ==>
       (s.lock[p].Some? ==> s.lock[p].value < |s.cpu| && Held(s.cpu[s.lock[p].value]) == Some(p)))
  }

  /** A process is current on at most one CPU. */
  ghost predicate OneCpu(s: State)
    requires Shape(s)
  {
    && (forall c, d :: 0 <= c < |s.cpu| && 0 <= d < |s.cpu| && c != d && Cur(s.cpu[c]).Some? ==>
       Cur(s.cpu[c]) != Cur(s.cpu[d]))
    && (forall c :: 0 <= c < |s.cpu| ==> s.cur[c] == Cur(s.cpu[c]))
  }

  ghost predicate StatusOk(s: State, c: nat)
    requires Shape(s) && c < |s.cpu|
  {
    var pc := s.cpu[c];
    if pc.Leaving? || pc.Back? then s.st[pc.p] != Running && s.st[pc.p] != Unused && s.st[pc.p] != Used
    else Cur(pc).Some? ==> s.st[pc.p] == Running
  }

  ghost predicate ProgOk(s: State, c: nat)
    requires Shape(s) && c < |s.cpu|
  {
    var pc := s.cpu[c];
    match pc
    case Run(p) => s.prog[p] == Free || s.prog[p] == Crit || s.prog[p].Saw? || s.prog[p] == Sleep1 || s.prog[p].Waking?
    case Own(p) => s.prog[p] == Free || s.prog[p] == Sleep2 || s.prog[p] == Sleep3
    case Other(p, q) => s.prog[p] == Free || s.prog[p] == Waking(q)
    case SwitchIn(p) => Resting(s.prog[p])
    case Entered(p) => Resting(s.prog[p])
    case Leaving(p) => Resting(s.prog[p])
    case Back(p) => Resting(s.prog[p])
    case _ => true
  }

  predicate Resting(g: Prog)
  {
    g == Free || g == Slept || g == Away
  }

  ghost predicate OnCpu(s: State)
    requires Shape(s)
  {
    forall c: nat :: c < |s.cpu| ==> StatusOk(s, c) && ProgOk(s, c)
  }

  /** A process that is not RUNNING holds neither lk nor its own lock; a sleeper is where it says; lk
      is held by the process that says so. */
  ghost predicate RestOk(s: State, p: nat)
    requires Shape(s) && p < |s.st|
  {
    && (s.st[p] != Running ==> Resting(s.prog[p]))
    && (s.st[p] == Sleeping ==> s.prog[p] == Slept || s.prog[p] == Away)
    && (s.lk == Some(p) <==> HoldsLk(s.prog[p]))
    && (s.prog[p] == Sleep3 ==> s.lock[p].Some? && s.lock[p].value < |s.cpu| && s.cpu[s.lock[p].value] == Own(p))
  }

  predicate HoldsLk(g: Prog)
  {
    g == Crit || g.Saw? || g == Sleep1 || g == Sleep2 || g.Waking?
  }

  ghost predicate AtRest(s: State)
    requires Shape(s)
  {
    (s.lk.Some? ==> s.lk.value < |s.st|) && forall p: nat :: p < |s.st| ==> RestOk(s, p)
  }

  /** p sleeps on the condition's channel, or is past the point of no return in sleep(). */
  predicate Sleeps(s: State, p: nat)
    requires p < |s.st| == |s.prog|
  {
    s.prog[p] == Sleep3 || (s.st[p] == Sleeping && s.prog[p] == Slept)
  }

  /** A wakeup is under way that has not reached p yet. */
  ghost predicate Coming(s: State, p: nat)
    requires Shape(s)
  {
    s.lk.Some? && s.lk.value < |s.st| && s.prog[s.lk.value].Waking? && s.prog[s.lk.value].k <= p
  }

  /** Nobody sleeps through a wakeup, and what was read under lk stays true while lk is held. */
  ghost predicate NoneForgotten(s: State)
    requires Shape(s)
  {
    forall p: nat :: p < |s.st| ==> Remembered(s, p)
  }

  ghost predicate Remembered(s: State, p: nat)
    requires Shape(s) && p < |s.st|
  {
    && (Sleeps(s, p) ==> s.blocked || Coming(s, p)) && (s.prog[p] == Sleep1 || s.prog[p] == Sleep2 ==> s.blocked)
    && (s.prog[p].Saw? ==> s.prog[p].b == s.blocked) && (s.prog[p].Waking? ==> !s.blocked)
  }

  ghost predicate Inv(s: State)
  {
    Shape(s) && Locks(s) && OneCpu(s) && OnCpu(s) && AtRest(s) && NoneForgotten(s)
  }

  ghost predicate InRange(s: State, pc: Pc)
  {
    && (Cur(pc).Some? ==> Cur(pc).value < |s.st|)
    && (Held(pc).Some? ==> Held(pc).value < |s.st|)
  }

  /** Steps that use the condition lock or wake its sleepers; the others only schedule. */
  predicate OnCondition(e: Event)
  {
    || e.Acquire? || e.Release? || e.Test? || e.Block? || e.Unblock? || e.GoToSleep? || e.SleepLock? || e.SleepRelease?
    || e.SleepNow? || e.WakeSkip? || e.WakeLock? || e.WakeOne? || e.WakeEnd?
  }

  ghost predicate Moved(s: State, s': State, c: nat)
  {
    && |s'.cpu| == |s.cpu| == |s'.cur| && |s'.st| == |s'.lock| == |s'.prog| == |s.st|
    && c < |s.cpu| && s'.cpu == s.cpu[c := s'.cpu[c]] && InRange(s, s'.cpu[c])
  }

  lemma ScheduleMoves(s: State, e: Event)
    requires Shape(s) && Enabled(s, e) && !OnCondition(e)
    ensures Moved(s, Next(s, e), e.c)
  {
    assert InRange(s, s.cpu[e.c]);
  }

  lemma ConditionMoves(s: State, e: Event)
    requires Shape(s) && Enabled(s, e) && OnCondition(e)
    ensures Moved(s, Next(s, e), e.c)
  {
    assert InRange(s, s.cpu[e.c]);
  }

  lemma StepShape(s: State, e: Event)
    requires Shape(s) && Enabled(s, e)
    ensures Shape(Next(s, e))
  {
    hide Next, Enabled, Cur, Held;
    if OnCondition(e) {
      ConditionMoves(s, e);
    } else {
      ScheduleMoves(s, e);
    }
    var s' := Next(s, e);
    forall c | 0 <= c < |s'.cpu|
      ensures InRange(s, s'.cpu[c])
    {
      if c != e.c {
        assert s'.cpu[c] == s.cpu[c];
      }
    }
  }

  /** A step moves one CPU, which keeps the p->lock it holds, takes a free one or gives its own back. */
  ghost predicate LockChange(s: State, s': State, c: nat)
    requires Shape(s) && Shape(s')
  {
    && c < |s.cpu| == |s'.cpu| && s'.cpu == s.cpu[c := s'.cpu[c]] && |s'.st| == |s.st|
    && var h, h' := Held(s.cpu[c]), Held(s'.cpu[c]);
       || (h == h' && s'.lock == s.lock)
       || (h.None? && h'.Some? && s.lock[h'.value].None? && s'.lock == s.lock[h'.value := Some(c)])
       || (h.Some? && h'.None? && s'.lock == s.lock[h.value := None])
  }

  lemma ScheduleLockChange(s: State, s': State, e: Event)
    requires Shape(s) && Enabled(s, e) && s' == Next(s, e) && Shape(s') && !OnCondition(e)
    ensures LockChange(s, s', e.c)
  {
  }

  lemma ConditionLockChange(s: State, s': State, e: Event)
    requires Shape(s) && Enabled(s, e) && s' == Next(s, e) && Shape(s') && OnCondition(e)
    ensures LockChange(s, s', e.c)
  {
  }

  lemma StepLockChange(s: State, e: Event)
    requires Shape(s) && Enabled(s, e) && Shape(Next(s, e))
    ensures LockChange(s, Next(s, e), e.c)
  {
    hide Next, Enabled, Shape, LockChange;
    if OnCondition(e) {
      ConditionLockChange(s, Next(s, e), e);
    } else {
      ScheduleLockChange(s, Next(s, e), e);
    }
  }

  lemma LocksKept(s: State, s': State, c: nat)
    requires Shape(s) && Shape(s') && Locks(s) && LockChange(s, s', c)
    ensures Locks(s')
  {
    hide Held, Cur;
  }

  /** The process that becomes current, if any, was on no CPU. */
  lemma CurKept(s: State, s': State, c: nat)
    requires Shape(s) && Shape(s') && OneCpu(s) && c < |s.cpu| == |s'.cpu| && s'.cpu == s.cpu[c := s'.cpu[c]]
    requires s'.cur == s.cur[c := Cur(s'.cpu[c])]
    requires Cur(s'.cpu[c]) == Cur(s.cpu[c]) || Cur(s'.cpu[c]).None?
        || forall d :: 0 <= d < |s.cpu| ==> Cur(s.cpu[d]) != Cur(s'.cpu[c])
    ensures OneCpu(s')
  {
    hide Held, Cur;
  }

  /** A RUNNABLE process whose lock is held by a scheduler is on no CPU: had it been running, its CPU
      would hold the lock until the switch is complete. */
  lemma NotOnAnyCpu(s: State, c: nat, d: nat)
    requires Inv(s) && c < |s.cpu| && d < |s.cpu| && s.cpu[c].Chosen? && s.st[s.cpu[c].p] == Runnable
    ensures Cur(s.cpu[d]) != Some(s.cpu[c].p)
  {
    assert StatusOk(s, d);
  }

  lemma StepOneCpu(s: State, e: Event)
    requires Inv(s) && Enabled(s, e) && Shape(Next(s, e))
    ensures OneCpu(Next(s, e))
  {
    hide Locks, OnCpu, AtRest, NoneForgotten;
    if e.Choose? {
      forall d | 0 <= d < |s.cpu|
        ensures Cur(s.cpu[d]) != Some(s.cpu[e.c].p)
      {
        NotOnAnyCpu(s, e.c, d);
      }
    }
    CurKept(s, Next(s, e), e.c);
  }

  /** What a step leaves alone: every process but the one on the CPU and the one whose lock it holds. */
  ghost predicate Untouched(s: State, s': State, p: nat)
    requires p < |s.st| == |s.prog| == |s.lock|
  {
    && |s'.st| == |s'.prog| == |s'.lock| == |s.st| && s'.st[p] == s.st[p] && s'.prog[p] == s.prog[p]
    && (s.lock[p].Some? ==> s'.lock[p] == s.lock[p]) && (s'.lk == Some(p) <==> s.lk == Some(p))
  }

  lemma ElsewhereSchedule(s: State, s': State, e: Event, p: nat)
    requires Shape(s) && Enabled(s, e) && s' == Next(s, e) && p < |s.st| && !OnCondition(e)
    requires Cur(s.cpu[e.c]) != Some(p) && Held(s.cpu[e.c]) != Some(p)
    ensures Untouched(s, s', p)
  {
  }

  lemma ElsewhereCondition(s: State, s': State, e: Event, p: nat)
    requires Shape(s) && AtRest(s) && Enabled(s, e) && s' == Next(s, e) && p < |s.st| && OnCondition(e)
    requires Cur(s.cpu[e.c]) != Some(p) && Held(s.cpu[e.c]) != Some(p)
    ensures Untouched(s, s', p)
  {
    hide AtRest;
    LkElsewhere(s, s', e, p);
  }

  lemma LkElsewhere(s: State, s': State, e: Event, p: nat)
    requires Shape(s) && AtRest(s) && Enabled(s, e) && s' == Next(s, e) && p < |s.st| && OnCondition(e)
        && Cur(s.cpu[e.c]) != Some(p)
    ensures s'.lk == Some(p) <==> s.lk == Some(p)
  {
    hide AtRest;
    if e.Release? || e.SleepRelease? || e.Acquire? {
      RestAt(s, s.cpu[e.c].p);
    }
  }

  lemma Elsewhere(s: State, s': State, e: Event, p: nat)
    requires Shape(s) && AtRest(s) && Enabled(s, e) && s' == Next(s, e) && p < |s.st|
    requires Cur(s.cpu[e.c]) != Some(p) && Held(s.cpu[e.c]) != Some(p)
    ensures Untouched(s, s', p)
  {
    hide Next, AtRest, Enabled, Shape, Held, Cur, Untouched;
    if OnCondition(e) {
      ElsewhereCondition(s, s', e, p);
    } else {
      ElsewhereSchedule(s, s', e, p);
    }
  }

  lemma RestAt(s: State, p: nat)
    requires Shape(s) && AtRest(s) && p < |s.st|
    ensures RestOk(s, p)
  {
  }

  /** What a step does to the process whose lock it holds, where that is not the one on the CPU. */
  lemma Target(s: State, s': State, e: Event, q: nat)
    requires Shape(s) && Enabled(s, e) && s' == Next(s, e) && Held(s.cpu[e.c]) == Some(q) && Cur(s.cpu[e.c]) != Some(q)
    ensures |s'.st| == |s'.prog| == |s.st| && s'.prog[q] == s.prog[q] && s'.lk == s.lk
    ensures s'.st[q] == s.st[q] || Allowed(s.st[q], s'.st[q])
        || (e.Choose? && s.st[q] == Runnable && s'.st[q] == Running)
    ensures !s.cpu[e.c].Own?
    ensures e.WakeOne? ==> !(s'.st[q] == Sleeping && s'.prog[q] == Slept)
  {
  }

  /** A step of one CPU changes neither the state nor the program of a process on another CPU. */
  lemma StepOthers(s: State, s': State, e: Event, d: nat)
    requires Inv(s) && Enabled(s, e) && s' == Next(s, e) && d < |s.cpu| && d != e.c < |s.cpu| && Cur(s.cpu[d]).Some?
    ensures |s'.prog| == |s'.st| == |s.st| && s'.prog[Cur(s.cpu[d]).value] == s.prog[Cur(s.cpu[d]).value]
    ensures s'.st[Cur(s.cpu[d]).value] == s.st[Cur(s.cpu[d]).value]
  {
    hide Next, Enabled, AtRest, NoneForgotten;
    var x := Cur(s.cpu[d]).value;
    assert StatusOk(s, d);
    if Held(s.cpu[e.c]) == Some(x) {
      Target(s, s', e, x);
    } else {
      Elsewhere(s, s', e, x);
    }
  }

  lemma StepSelfSchedule(s: State, s': State, e: Event)
    requires Inv(s) && Enabled(s, e) && s' == Next(s, e) && Shape(s') && !OnCondition(e)
    ensures StatusOk(s', e.c) && ProgOk(s', e.c)
  {
    hide Locks, OneCpu, NoneForgotten;
    assert StatusOk(s, e.c) && ProgOk(s, e.c);
    if Held(s.cpu[e.c]).Some? {
      assert RestOk(s, Held(s.cpu[e.c]).value);
    }
  }

  lemma StepSelfCondition(s: State, s': State, e: Event)
    requires Inv(s) && Enabled(s, e) && s' == Next(s, e) && Shape(s') && OnCondition(e)
    ensures StatusOk(s', e.c) && ProgOk(s', e.c)
  {
    hide Locks, OneCpu, NoneForgotten, Held, AtRest;
    assert StatusOk(s, e.c) && ProgOk(s, e.c);
  }

  lemma StepOnCpu(s: State, e: Event)
    requires Inv(s) && Enabled(s, e) && Shape(Next(s, e))
    ensures OnCpu(Next(s, e))
  {
    hide Next, Locks, OneCpu, AtRest, NoneForgotten, Held, Enabled;
    var s' := Next(s, e);
    StepLockChange(s, e);
    forall d: nat | d < |s'.cpu|
      ensures StatusOk(s', d) && ProgOk(s', d)
    {
      if d == e.c {
        if OnCondition(e) {
          StepSelfCondition(s, s', e);
        } else {
          StepSelfSchedule(s, s', e);
        }
      } else {
        assert s'.cpu[d] == s.cpu[d];
        assert StatusOk(s, d) && ProgOk(s, d);
        if Cur(s.cpu[d]).Some? {
          StepOthers(s, s', e, d);
        }
      }
    }
  }

  lemma RestElsewhere(s: State, s': State, e: Event, p: nat)
    requires Inv(s) && Enabled(s, e) && s' == Next(s, e) && Shape(s') && p < |s.st| == |s'.st|
    requires Cur(s.cpu[e.c]) != Some(p) && Held(s.cpu[e.c]) != Some(p)
    ensures RestOk(s', p)
  {
    hide Next, Enabled, OneCpu, OnCpu, NoneForgotten;
    Elsewhere(s, s', e, p);
    StepLockChange(s, e);
    assert RestOk(s, p);
  }

  lemma RestTarget(s: State, s': State, e: Event, q: nat)
    requires Inv(s) && Enabled(s, e) && s' == Next(s, e) && Shape(s') && q < |s.st| == |s'.st|
    requires e.c < |s.cpu| && Held(s.cpu[e.c]) == Some(q) && Cur(s.cpu[e.c]) != Some(q)
    ensures RestOk(s', q)
  {
    hide Next, Enabled, OneCpu, OnCpu, NoneForgotten;
    Target(s, s', e, q);
    assert RestOk(s, q);
  }

  lemma RestSelfSchedule(s: State, s': State, e: Event, p: nat)
    requires Inv(s) && Enabled(s, e) && s' == Next(s, e) && Shape(s') && p < |s.st| == |s'.st|
        && Cur(s.cpu[e.c]) == Some(p) && !OnCondition(e)
    ensures RestOk(s', p)
  {
    hide OneCpu, NoneForgotten, Locks;
    assert RestOk(s, p) && StatusOk(s, e.c) && ProgOk(s, e.c);
  }

  lemma RestSelfCondition(s: State, s': State, e: Event, p: nat)
    requires Inv(s) && Enabled(s, e) && s' == Next(s, e) && Shape(s') && p < |s.st| == |s'.st|
        && Cur(s.cpu[e.c]) == Some(p) && OnCondition(e)
    ensures RestOk(s', p)
  {
    hide OneCpu, NoneForgotten;
    assert RestOk(s, p) && StatusOk(s, e.c) && ProgOk(s, e.c);
  }

  lemma StepAtRest(s: State, e: Event)
    requires Inv(s) && Enabled(s, e) && Shape(Next(s, e))
    ensures AtRest(Next(s, e))
  {
    hide Next, OneCpu, OnCpu, NoneForgotten, Held, Cur, Locks, RestOk;
    var s' := Next(s, e);
    LkInRange(s, s', e);
    forall p: nat | p < |s'.st|
      ensures RestOk(s', p)
    {
      if Cur(s.cpu[e.c]) == Some(p) {
        if OnCondition(e) {
          RestSelfCondition(s, s', e, p);
        } else {
          RestSelfSchedule(s, s', e, p);
        }
      } else if Held(s.cpu[e.c]) == Some(p) {
        RestTarget(s, s', e, p);
      } else {
        RestElsewhere(s, s', e, p);
      }
    }
  }

  lemma LkInRange(s: State, s': State, e: Event)
    requires Shape(s) && AtRest(s) && Enabled(s, e) && s' == Next(s, e)
    ensures |s'.st| == |s.st| && (s'.lk.Some? ==> s'.lk.value < |s'.st|)
  {
    hide RestOk;
  }

  // ---- no wakeup is lost ----

  lemma RememberedElsewhere(s: State, s': State, e: Event, p: nat)
    requires Inv(s) && Enabled(s, e) && s' == Next(s, e) && Shape(s') && p < |s.st| == |s'.st| && e.c < |s.cpu|
    requires Cur(s.cpu[e.c]) != Some(p) && Held(s.cpu[e.c]) != Some(p)
    ensures Remembered(s', p)
  {
    hide Next, Enabled, OneCpu, OnCpu, Locks, AtRest, Held, Coming;
    Elsewhere(s, s', e, p);
    assert Remembered(s, p);
    RestAt(s, p);
    if OnCondition(e) {
      ProgressCondition(s, s', e, p);
    } else {
      ProgressSchedule(s, s', e, p);
    }
  }

  /** Where the condition ceases to hold a wakeup begins, and it does not pass a process by. */
  lemma ProgressCondition(s: State, s': State, e: Event, p: nat)
    requires Shape(s) && AtRest(s) && Enabled(s, e) && s' == Next(s, e) && Shape(s') && OnCondition(e)
    requires p < |s.st| && Held(s.cpu[e.c]) != Some(p) && Cur(s.cpu[e.c]) != Some(p)
    ensures |s'.st| == |s.st| && (s.blocked || Coming(s, p) ==> s'.blocked || Coming(s', p))
    ensures s.blocked != s'.blocked ==> s.lk == Cur(s.cpu[e.c])
  {
    hide AtRest;
    RestAt(s, s.cpu[e.c].p);
  }

  lemma ProgressSchedule(s: State, s': State, e: Event, p: nat)
    requires Shape(s) && AtRest(s) && OnCpu(s) && Enabled(s, e) && s' == Next(s, e) && Shape(s') && !OnCondition(e)
        && p < |s.st|
    ensures |s'.st| == |s.st| && s'.blocked == s.blocked && (Coming(s, p) ==> Coming(s', p))
  {
    hide AtRest;
    assert ProgOk(s, e.c);
    if Cur(s.cpu[e.c]).Some? {
      RestAt(s, Cur(s.cpu[e.c]).value);
    }
  }

  lemma RememberedTarget(s: State, s': State, e: Event, q: nat)
    requires Inv(s) && Enabled(s, e) && s' == Next(s, e) && Shape(s') && q < |s.st| == |s'.st| && e.c < |s.cpu|
    requires Held(s.cpu[e.c]) == Some(q) && Cur(s.cpu[e.c]) != Some(q)
    ensures Remembered(s', q)
  {
    hide OneCpu, OnCpu, AtRest, Coming;
    RestAt(s, q);
    Target(s, s', e, q);
    assert Remembered(s, q);
    if !OnCondition(e) {
      ProgressSchedule(s, s', e, q);
    }
  }

  lemma RememberedSelf(s: State, s': State, e: Event, p: nat)
    requires Inv(s) && Enabled(s, e) && s' == Next(s, e) && Shape(s') && p < |s.st| == |s'.st|
        && Cur(s.cpu[e.c]) == Some(p)
    ensures Remembered(s', p)
  {
    hide OneCpu, Locks, AtRest;
    RestAt(s, p);
    assert Remembered(s, p) && StatusOk(s, e.c) && ProgOk(s, e.c);
  }

  lemma StepNoneForgotten(s: State, e: Event)
    requires Inv(s) && Enabled(s, e) && Shape(Next(s, e))
    ensures NoneForgotten(Next(s, e))
  {
    hide Next, OneCpu, OnCpu, AtRest, Held, Cur, Locks, Remembered;
    var s' := Next(s, e);
    LkInRange(s, s', e);
    forall p: nat | p < |s'.st|
      ensures Remembered(s', p)
    {
      if Cur(s.cpu[e.c]) == Some(p) {
        RememberedSelf(s, s', e, p);
      } else if Held(s.cpu[e.c]) == Some(p) {
        RememberedTarget(s, s', e, p);
      } else {
        RememberedElsewhere(s, s', e, p);
      }
    }
  }

  lemma StepKeepsInv(s: State, e: Event)
    requires Inv(s) && Enabled(s, e)
    ensures Inv(Next(s, e))
  {
    hide Next, OneCpu, OnCpu, AtRest, Locks, NoneForgotten, Enabled;
    StepShape(s, e);
    StepLockChange(s, e);
    LocksKept(s, Next(s, e), e.c);
    StepOneCpu(s, e);
    StepOnCpu(s, e);
    StepAtRest(s, e);
    StepNoneForgotten(s, e);
  }

  /** A process's state is changed only by the CPU that holds its lock, and whoever yields, sleeps, exits or
      is changed by another gets the state that was asked for. */
  lemma ChangedUnderLock(s: State, e: Event, q: nat)
    requires Inv(s) && Enabled(s, e) && q < |s.st|
    ensures var s', pc := Next(s, e), s.cpu[e.c];
            && |s'.st| == |s.st| && (s'.st[q] != s.st[q] ==> s.lock[q] == Some(e.c))
            && (e.Choose? && pc.p == q ==> s'.st[q] == Running)
            && (e.Leave? && pc.p == q ==> s'.st[q] == e.to)
            && (e.SleepNow? && pc.p == q ==> s'.st[q] == Sleeping)
            && (e.SetOther? && pc.q == q ==> s'.st[q] == e.to)
  {
    hide OneCpu, OnCpu, AtRest, NoneForgotten, Next;
    LockHere(s, e.c);
    if OnCondition(e) {
      ConditionChanges(s, e, q);
    } else {
      ScheduleChanges(s, e, q);
    }
  }

  lemma LockHere(s: State, c: nat)
    requires Shape(s) && Locks(s) && c < |s.cpu|
    ensures Held(s.cpu[c]).Some? ==> s.lock[Held(s.cpu[c]).value] == Some(c)
  {
  }

  lemma ConditionChanges(s: State, e: Event, q: nat)
    requires Shape(s) && Enabled(s, e) && q < |s.st| && OnCondition(e)
    requires Held(s.cpu[e.c]).Some? ==> s.lock[Held(s.cpu[e.c]).value] == Some(e.c)
    ensures var s' := Next(s, e);
            && |s'.st| == |s.st| && (s'.st[q] != s.st[q] ==> s.lock[q] == Some(e.c))
            && (e.SleepNow? && s.cpu[e.c].p == q ==> s'.st[q] == Sleeping)
  {
  }

  lemma ScheduleChanges(s: State, e: Event, q: nat)
    requires Shape(s) && Enabled(s, e) && q < |s.st| && !OnCondition(e)
    requires Held(s.cpu[e.c]).Some? ==> s.lock[Held(s.cpu[e.c]).value] == Some(e.c)
    ensures var s', pc := Next(s, e), s.cpu[e.c];
            && |s'.st| == |s.st| && (s'.st[q] != s.st[q] ==> s.lock[q] == Some(e.c))
            && (e.Choose? && pc.p == q ==> s'.st[q] == Running)
            && (e.Leave? && pc.p == q ==> s'.st[q] == e.to)
            && (e.SetOther? && pc.q == q ==> s'.st[q] == e.to)
  {
  }

  // ---- runs ----

  /** All CPUs in their scheduler, no lock held, nobody asleep. */
  ghost predicate Initial(s: State)
  {
    && Shape(s) && s.lk.None?
    && (forall c :: 0 <= c < |s.cpu| ==> s.cpu[c] == Idle && s.cur[c].None?)
    && (forall p :: 0 <= p < |s.st| ==>
       s.lock[p].None? && s.prog[p] == Free && (s.st[p] == Unused || s.st[p] == Runnable))
  }

  /** The events can happen one after the other, and lead from s to t. */
  ghost predicate Leads(s: State, es: seq<Event>, t: State)
    decreases |es|
  {
    if es == [] then t == s
    else exists m: State ::
          Leads(s, es[..|es| - 1], m) && Shape(m) && Enabled(m, es[|es| - 1])
          && t == Next(m, es[|es| - 1])
  }

  lemma {:induction false} RunsKeepInv(s: State, es: seq<Event>, t: State)
    requires Initial(s) && Leads(s, es, t)
    ensures Inv(t)
    decreases |es|
  {
    hide Next, Enabled;
    if es == [] {
      InitialInv(s);
    } else {
      var m: State :| Leads(s, es[..|es| - 1], m) && Shape(m) && Enabled(m, es[|es| - 1]) && t == Next(m, es[|es| - 1]);
      RunsKeepInv(s, es[..|es| - 1], m);
      StepKeepsInv(m, es[|es| - 1]);
    }
  }

  lemma InitialInv(s: State)
    requires Initial(s)
    ensures Inv(s)
  {
  }

  /** In every run a process is current on at most one CPU, and no CPU switches to a process while
      another is still on its stack. */
  lemma OneCpuPerProcess(s: State, es: seq<Event>, t: State, c: nat, d: nat)
    requires Initial(s) && Leads(s, es, t) && c < |t.cpu| == |t.cur| && d < |t.cpu| && c != d && t.cur[c].Some?
    ensures t.cur[c] != t.cur[d]
    ensures t.cpu[c].SwitchIn? ==> Cur(t.cpu[d]) != Some(t.cpu[c].p)
  {
    hide Leads, Next, Enabled;
    RunsKeepInv(s, es, t);
  }

  /** In every run, while the condition lock is free whoever sleeps on the channel has reason to. */
  lemma NoLostWakeup(s: State, es: seq<Event>, t: State, p: nat)
    requires Initial(s) && Leads(s, es, t) && p < |t.st| == |t.prog| && t.lk.None? && t.st[p] == Sleeping
        && t.prog[p] == Slept
    ensures t.blocked
  {
    hide Leads, Next, Enabled;
    RunsKeepInv(s, es, t);
    assert Remembered(t, p);
  }

  /** When wakeup returns, nobody is asleep on the channel. */
  lemma WakeupReachesAll(s: State, es: seq<Event>, t: State, c: nat, p: nat)
    requires Initial(s) && Leads(s, es, t) && Shape(t) && Enabled(t, WakeEnd(c)) && p < |t.st|
    ensures !(t.st[p] == Sleeping && t.prog[p] == Slept)
  {
    hide Leads, Next, Initial, Locks, OneCpu, OnCpu, AtRest, Held;
    RunsKeepInv(s, es, t);
    assert Remembered(t, p) && Remembered(t, t.cpu[c].p);
    RestAt(t, t.cpu[c].p);
  }

  // ---- sleeplocks ----

  /** acquiresleep sets the lock after it read that it is not held; releasesleep is called by a holder. */
  ghost predicate SleeplockUse(s: State, e: Event, holders: set<nat>)
    requires Shape(s) && Enabled(s, e)
  {
    && (e.Block? ==> s.prog[s.cpu[e.c].p] == Saw(false))
    && (e.Unblock? ==> s.cpu[e.c].p in holders)
  }

  ghost function HoldersAfter(s: State, e: Event, holders: set<nat>): (h: set<nat>)
    requires Shape(s) && Enabled(s, e)
  {
    if e.Block? then holders + {s.cpu[e.c].p} else if e.Unblock? then holders - {s.cpu[e.c].p} else holders
  }

  /** A run in which the condition is a sleeplock, with the processes that hold it. */
  ghost predicate LeadsHolding(s: State, es: seq<Event>, t: State, holders: set<nat>)
    decreases |es|
  {
    if es == [] then t == s && !s.blocked && holders == {}
    else
      var e := es[|es| - 1];
      exists m: State, h: set<nat> ::
        LeadsHolding(s, es[..|es| - 1], m, h) && Shape(m) && Enabled(m, e) && SleeplockUse(m, e, h) && t == Next(m, e)
            && holders == HoldersAfter(m, e, h)
  }

  lemma {:induction false} HoldingLeads(s: State, es: seq<Event>, t: State, holders: set<nat>)
    requires LeadsHolding(s, es, t, holders)
    ensures Leads(s, es, t)
    decreases |es|
  {
    hide Next, Enabled, Shape;
    if es != [] {
      var e := es[|es| - 1];
      var m: State, h: set<nat> :| LeadsHolding(s, es[..|es| - 1], m, h) && Shape(m) && Enabled(m, e)
          && SleeplockUse(m, e, h)
                                   && t == Next(m, e) && holders == HoldersAfter(m, e, h);
      HoldingLeads(s, es[..|es| - 1], m, h);
    }
  }

  /** In every run at most one process holds a sleeplock, and `locked` says whether one does. That
      nobody sets it between another's read and write is what the inner spinlock is for. */
  lemma {:induction false} SleeplockExclusion(s: State, es: seq<Event>, t: State, holders: set<nat>)
    requires Initial(s) && LeadsHolding(s, es, t, holders)
    ensures |holders| <= 1 && (t.blocked <==> holders != {})
    decreases |es|
  {
    hide Shape, Initial, Leads, Next, Enabled;
    if es != [] {
      var e := es[|es| - 1];
      var m: State, h: set<nat> :| LeadsHolding(s, es[..|es| - 1], m, h) && Shape(m) && Enabled(m, e)
          && SleeplockUse(m, e, h)
                                   && t == Next(m, e) && holders == HoldersAfter(m, e, h);
      SleeplockExclusion(s, es[..|es| - 1], m, h);
      HoldingLeads(s, es[..|es| - 1], m, h);
      RunsKeepInv(s, es[..|es| - 1], m);
      BlockedAfter(m, e);
      if e.Block? {
        StillFree(m, e);
      } else if e.Unblock? {
        LastHolder(m, e, h);
      }
    }
  }

  /** A process about to set the lock still sees what it read. */
  lemma StillFree(s: State, e: Event)
    requires Inv(s) && Enabled(s, e) && e.Block? && s.prog[s.cpu[e.c].p] == Saw(false)
    ensures !s.blocked
  {
    hide Locks, OneCpu, OnCpu, AtRest;
    assert Remembered(s, s.cpu[e.c].p);
  }

  lemma BlockedAfter(s: State, e: Event)
    requires Shape(s) && Enabled(s, e)
    ensures Next(s, e).blocked == if e.Block? then true else if e.Unblock? then false else s.blocked
  {
  }

  lemma LastHolder(s: State, e: Event, holders: set<nat>)
    requires Shape(s) && Enabled(s, e) && e.Unblock? && SleeplockUse(s, e, holders) && |holders| <= 1
    ensures HoldersAfter(s, e, holders) == {}
  {
    hide Shape;
    var p := s.cpu[e.c].p;
    assert holders == (holders - {p}) + {p};
    assert |holders| == |holders - {p}| + 1;
  }
}
