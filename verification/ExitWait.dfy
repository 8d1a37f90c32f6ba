/** kfork, kexit and kwait (proc.c) over a process table of any size.

    One event is one step of one process between operations on wait_lock or on a p->lock. `wl` is the
    process that holds wait_lock.
 */
module ExitWait {
  import opened Collections

  datatype Status =
    | Unused
    | Used(maker: nat)          // allocated by kfork of `maker`, not RUNNABLE yet
    | Alive                     // RUNNABLE, RUNNING, or asleep elsewhere
    | Waiting                   // SLEEPING in kwait
    | Zombie

  datatype Prog =
    | Normal
    | Forking(q: nat)           // kfork: child allocated and being filled in
    | Forked(q: nat)            // kfork: parent pointer set
    | Reparent(k: nat)          // kexit: holds wait_lock, slots below k seen
    | Notify(k: nat)            // kexit: slot k given to init, about to wake init
    | Parting                   // kexit: about to wake the parent
    | Dying                     // kexit: about to become a zombie
    | Dead
    | Scanning(k: nat, kids: bool)    // kwait: holds wait_lock, slots below k seen
    | Nodding                   // kwait: has decided to sleep, still holds wait_lock
    | Drowsy                    // kwait: in sleep, wait_lock released, holds its own lock
    | Asleep
    | Woken                     // kwait: returned from sleep's switch, wants wait_lock

  /** For each slot: how many processes in it have exited and were reaped, which slot forked the
      process now in it, and how many processes of that slot had exited by then. */
  datatype State = State(st: seq<Status>, parent: seq<Option<nat>>, prog: seq<Prog>, wl: Option<nat>, init: nat,
                         exits: seq<nat>, reaps: seq<nat>, maker: seq<nat>, life: seq<nat>, killed: seq<bool>)

  datatype Event =
    | ForkAlloc(p: nat, q: nat)
    | ForkFail(p: nat)
    | ForkParent(p: nat)
    | ForkRun(p: nat)
    | ExitLock(p: nat)
    | ExitScan(p: nat)
    | ExitNotify(p: nat)
    | ExitDone(p: nat)
    | ExitWake(p: nat)
    | ExitZombie(p: nat)
    | WaitLock(p: nat)
    | WaitReap(p: nat)
    | WaitNext(p: nat)
    | WaitFault(p: nat)         // copyout of a zombie's status failed
    | WaitReturn(p: nat)        // no children, or killed
    | WaitStay(p: nat)          // children, and not killed
    | WaitSleep(p: nat)
    | WaitAsleep(p: nat)
    | Kill(p: nat)              // kkill, or setkilled in usertrap
    | KillFree(p: nat)          // kkill of pid 0, which finds a free slot

  ghost predicate Shape(s: State)
  {
    && |s.parent| == |s.prog| == |s.exits| == |s.reaps| == |s.maker| == |s.life| == |s.killed| == |s.st|
    && s.init < |s.st|
  }

  predicate HoldsWl(g: Prog)
  {
    g.Reparent? || g.Notify? || g.Parting? || g.Dying? || g.Scanning? || g.Nodding?
  }

  /** x sleeps in kwait, or is about to and can no longer be stopped from it. */
  ghost predicate Rests(s: State, x: nat)
    requires Shape(s) && x < |s.st|
  {
    s.prog[x] == Drowsy || s.st[x] == Waiting
  }

  ghost predicate Enabled(s: State, e: Event)
    requires Shape(s)
  {
    && e.p < |s.st|
    && var g := s.prog[e.p];
       match e
       case ForkAlloc(p, q) => g == Normal && s.st[p] == Alive && q < |s.st| && s.st[q] == Unused
       case ForkFail(p) => g.Forking?
       case ForkParent(p) => g.Forking? && s.wl.None?
       case ForkRun(p) => g.Forked?
       case ExitLock(p) => g == Normal && s.st[p] == Alive && p != s.init && s.wl.None?
       case ExitScan(p) => g.Reparent? && g.k < |s.st|
       case ExitNotify(p) => g.Notify? && s.prog[s.init] != Drowsy
       case ExitDone(p) => g.Reparent? && g.k >= |s.st|
       case ExitWake(p) => g == Parting
           && (s.parent[p].Some? && s.parent[p].value < |s.st| ==> s.prog[s.parent[p].value] != Drowsy)
       case ExitZombie(p) => g == Dying
       case WaitLock(p) => (g == Normal || g == Woken) && s.st[p] == Alive && s.wl.None?
       case WaitReap(p) => g.Scanning? && g.k < |s.st| && s.parent[g.k] == Some(p) && s.st[g.k] == Zombie
       case WaitNext(p) => g.Scanning? && g.k < |s.st| && !(s.parent[g.k] == Some(p) && s.st[g.k] == Zombie)
       case WaitFault(p) => g.Scanning? && g.k < |s.st| && s.parent[g.k] == Some(p) && s.st[g.k] == Zombie
       case WaitReturn(p) => g.Scanning? && g.k >= |s.st| && (!g.kids || s.killed[p])
       case WaitStay(p) => g.Scanning? && g.k >= |s.st| && g.kids && !s.killed[p]
       case WaitSleep(p) => g == Nodding
       case WaitAsleep(p) => g == Drowsy
       case Kill(p) => s.st[p] != Unused && g != Drowsy
       case KillFree(p) => s.st[p] == Unused
  }

  /** wakeup(x), where x sleeps on its own channel in kwait. */
  ghost function WakeUp(s: State, x: nat): (s': State)
    requires Shape(s) && x < |s.st|
  {
    if s.st[x] == Waiting then s.(st := s.st[x := Alive], prog := s.prog[x := Woken]) else s
  }

  ghost function SetProg(s: State, p: nat, g: Prog): (s': State)
    requires Shape(s) && p < |s.st|
  {
    s.(prog := s.prog[p := g])
  }

  ghost function Next(s: State, e: Event): (s': State)
    requires Shape(s) && Enabled(s, e)
  {
    var g := s.prog[e.p];
    match e
    case ForkAlloc(p, q) =>
      SetProg(s, p, Forking(q)).(st := s.st[q := Used(p)], maker := s.maker[q := p], life := s.life[q := s.exits[p]])
    case ForkFail(p) =>
      if g.q < |s.st| then SetProg(s, p, Normal).(st := s.st[g.q := Unused], killed := s.killed[g.q := false])
      else s
    case ForkParent(p) => if g.q < |s.st| then SetProg(s, p, Forked(g.q)).(parent := s.parent[g.q := Some(p)]) else s
    case ForkRun(p) => if g.q < |s.st| then SetProg(s, p, Normal).(st := s.st[g.q := Alive]) else s
    case ExitLock(p) => SetProg(s, p, Reparent(0)).(wl := Some(p))
    case ExitScan(p) =>
      if s.parent[g.k] == Some(p) then SetProg(s, p, Notify(g.k)).(parent := s.parent[g.k := Some(s.init)])
      else SetProg(s, p, Reparent(g.k + 1))
    case ExitNotify(p) => SetProg(WakeUp(s, s.init), p, Reparent(g.k + 1))
    case ExitDone(p) => SetProg(s, p, Parting)
    case ExitWake(p) =>
      SetProg(if s.parent[p].Some? && s.parent[p].value < |s.st| then WakeUp(s, s.parent[p].value) else s, p, Dying)
    case ExitZombie(p) =>
        SetProg(s, p, Dead).(st := s.st[p := Zombie], wl := None, exits := s.exits[p := s.exits[p] + 1])
    case WaitLock(p) => SetProg(s, p, Scanning(0, false)).(wl := Some(p))
    case WaitReap(p) =>
      s.(st := s.st[g.k := Unused], parent := s.parent[g.k := None], prog := s.prog[g.k := Normal][p := Normal],
         wl := None, reaps := s.reaps[g.k := s.reaps[g.k] + 1], killed := s.killed[g.k := false])
    case WaitNext(p) => SetProg(s, p, Scanning(g.k + 1, g.kids || s.parent[g.k] == Some(p)))
    case WaitFault(p) => SetProg(s, p, Normal).(wl := None)
    case WaitReturn(p) => SetProg(s, p, Normal).(wl := None)
    case WaitStay(p) => SetProg(s, p, Nodding)
    case WaitSleep(p) => SetProg(s, p, Drowsy).(wl := None)
    case WaitAsleep(p) => SetProg(s, p, Asleep).(st := s.st[p := Waiting])
    case Kill(p) => WakeUp(s, p).(killed := s.killed[p := true])
    case KillFree(p) => s.(killed := s.killed[p := true])
  }

  // ---- the invariant ----

  predicate Lives(t: Status)
  {
    t == Alive || t == Waiting
  }

  /** State, program and wait_lock of one process agree. */
  ghost predicate Agrees(s: State, p: nat)
    requires Shape(s) && p < |s.st|
  {
    var t, g := s.st[p], s.prog[p];
    && (s.wl == Some(p) <==> HoldsWl(g))
    && (t == Waiting <==> g == Asleep) && (t == Zombie <==> g == Dead)
    && (t == Unused || t.Used? ==> g == Normal)
    && (g.Forking? ==> g.q < |s.st| && s.st[g.q] == Used(p) && s.parent[g.q].None?)
    && (g.Forked? ==> g.q < |s.st| && s.st[g.q] == Used(p) && s.parent[g.q] == Some(p))
    && (p == s.init ==> Lives(t) && !g.Reparent? && !g.Notify? && !g.Parting? && !g.Dying?)
    && s.exits[p] == s.reaps[p] + (if t == Zombie then 1 else 0)
    && (s.parent[p].Some? ==> s.parent[p].value < |s.st|)
    && (p != s.init && (Lives(t) || t == Zombie) ==> s.parent[p].Some?) && (t == Unused ==> s.parent[p].None?)
  }

  /** Slot k of a process that was handed over to init is about to be announced. */
  ghost predicate Announced(s: State, k: nat)
    requires Shape(s)
  {
    s.wl.Some? && s.wl.value < |s.st| && s.prog[s.wl.value] == Notify(k)
  }

  /** What holds of process x and slot k if x is the parent of k. */
  ghost predicate Kin(s: State, x: nat, k: nat)
    requires Shape(s) && x < |s.st| && k < |s.st|
  {
    s.parent[k] == Some(x) ==>
      && Lives(s.st[x])
      && (s.prog[x].Reparent? ==> k >= s.prog[x].k) && (s.prog[x].Notify? ==> k > s.prog[x].k) && !s.prog[x].Parting?
         && !s.prog[x].Dying?
      && (s.prog[x] == Nodding || (s.prog[x].Scanning? && k < s.prog[x].k) ==> s.st[k] != Zombie)
      && (Rests(s, x) && s.st[k] == Zombie ==> x == s.init && Announced(s, k))
      && (s.prog[k] == Dying ==> !Rests(s, x))
  }

  ghost predicate Inv(s: State)
  {
    && Shape(s)
    && (forall p: nat :: p < |s.st| ==> Agrees(s, p))
    && (forall x: nat, k: nat :: x < |s.st| && k < |s.st| ==> Kin(s, x, k))
  }

  lemma StepShape(s: State, e: Event)
    requires Shape(s) && Enabled(s, e)
    ensures Shape(Next(s, e)) && |Next(s, e).st| == |s.st| && Next(s, e).init == s.init
  {
    hide Next;
    if IsExit(e) {
      ExitShape(s, e);
    } else {
      OtherShape(s, e);
    }
  }

  lemma ExitShape(s: State, e: Event)
    requires Shape(s) && Enabled(s, e) && IsExit(e)
    ensures Shape(Next(s, e)) && |Next(s, e).st| == |s.st| && Next(s, e).init == s.init
  {
  }

  lemma OtherShape(s: State, e: Event)
    requires Shape(s) && Enabled(s, e) && !IsExit(e)
    ensures Shape(Next(s, e)) && |Next(s, e).st| == |s.st| && Next(s, e).init == s.init
  {
  }

  predicate IsFork(e: Event)
  {
    e.ForkAlloc? || e.ForkFail? || e.ForkParent? || e.ForkRun?
  }

  predicate IsExit(e: Event)
  {
    e.ExitLock? || e.ExitScan? || e.ExitNotify? || e.ExitDone? || e.ExitWake? || e.ExitZombie?
  }

  lemma ForkAgrees(s: State, s': State, e: Event, p: nat)
    requires Shape(s) && Enabled(s, e) && s' == Next(s, e) && Shape(s') && p < |s.st| == |s'.st| && IsFork(e)
    requires Agrees(s, p) && Agrees(s, e.p) && (e.ForkAlloc? ==> Agrees(s, e.q))
    ensures Agrees(s', p)
  {
  }

  lemma ExitAgrees(s: State, s': State, e: Event, p: nat)
    requires Inv(s) && Enabled(s, e) && s' == Next(s, e) && Shape(s') && p < |s.st| == |s'.st| && IsExit(e)
    ensures Agrees(s', p)
  {
    hide Kin, Agrees;
    AgreesAt(s, p);
    AgreesAt(s, e.p);
    match e
    case ExitNotify(q) => WakeAgrees(s, q, s.init, p, Reparent(s.prog[q].k + 1));
    case ExitWake(q) =>
      if s.parent[q].Some? {
        ParentLives(s, q);
        WakeAgrees(s, q, s.parent[q].value, p, Dying);
      } else {
        AloneAgrees(s, s', e, p);
      }
    case _ => AloneAgrees(s, s', e, p);
  }

  lemma AgreesAt(s: State, p: nat)
    requires Inv(s) && p < |s.st|
    ensures Agrees(s, p)
  {
  }

  lemma ParentLives(s: State, p: nat)
    requires Inv(s) && p < |s.st| && s.parent[p].Some?
    ensures s.parent[p].value < |s.st| && Lives(s.st[s.parent[p].value])
  {
    assert Agrees(s, p) && Kin(s, s.parent[p].value, p);
  }

  /** Exit steps that change nobody but the one who exits and a parent pointer. */
  lemma AloneAgrees(s: State, s': State, e: Event, p: nat)
    requires Shape(s) && Enabled(s, e) && s' == Next(s, e) && Shape(s') && p < |s.st| == |s'.st| && IsExit(e)
    requires Agrees(s, p) && Agrees(s, e.p) && !e.ExitNotify? && (e.ExitWake? ==> s.parent[e.p].None?)
    ensures Agrees(s', p)
  {
    if e.ExitScan? {
      ScanAgrees(s, s', e, p);
    }
  }

  lemma ScanAgrees(s: State, s': State, e: Event, p: nat)
    requires Shape(s) && Enabled(s, e) && s' == Next(s, e) && Shape(s') && p < |s.st| == |s'.st| && e.ExitScan?
    requires Agrees(s, p) && Agrees(s, e.p)
    ensures Agrees(s', p)
  {
  }

  /** A waker moves on and the process it wakes is alive again. */
  lemma WakeAgrees(s: State, w: nat, x: nat, p: nat, g: Prog)
    requires Shape(s) && w < |s.st| && x < |s.st| && p < |s.st| && Agrees(s, p) && Agrees(s, w) && HoldsWl(s.prog[w])
        && HoldsWl(g)
    requires !g.Scanning? && !g.Nodding? && w != s.init
    ensures Agrees(SetProg(WakeUp(s, x), w, g), p)
  {
  }

  lemma ReapAgrees(s: State, s': State, e: Event, p: nat)
    requires Shape(s) && Enabled(s, e) && s' == Next(s, e) && Shape(s') && p < |s.st| == |s'.st| && e.WaitReap?
    requires Agrees(s, p) && Agrees(s, e.p)
    ensures Agrees(s', p)
  {
  }

  lemma WaitAgrees(s: State, s': State, e: Event, p: nat)
    requires Shape(s) && Enabled(s, e) && s' == Next(s, e) && Shape(s') && p < |s.st| == |s'.st| && !IsFork(e)
        && !IsExit(e) && !e.WaitReap?
    requires Agrees(s, p) && Agrees(s, e.p)
    ensures Agrees(s', p)
  {
    hide Next, Agrees;
    if e.WaitSleep? || e.WaitAsleep? || e.Kill? || e.KillFree? {
      SleepAgrees(s, s', e, p);
    } else {
      LookAgrees(s, s', e, p);
    }
  }

  lemma SleepAgrees(s: State, s': State, e: Event, p: nat)
    requires Shape(s) && Enabled(s, e) && s' == Next(s, e) && Shape(s') && p < |s.st| == |s'.st|
    requires Agrees(s, p) && Agrees(s, e.p) && (e.WaitSleep? || e.WaitAsleep? || e.Kill? || e.KillFree?)
    ensures Agrees(s', p)
  {
  }

  lemma LookAgrees(s: State, s': State, e: Event, p: nat)
    requires Shape(s) && Enabled(s, e) && s' == Next(s, e) && Shape(s') && p < |s.st| == |s'.st|
    requires e.WaitLock? || e.WaitNext? || e.WaitFault? || e.WaitReturn? || e.WaitStay?
    requires Agrees(s, p) && Agrees(s, e.p)
    ensures Agrees(s', p)
  {
  }

  // ---- parents and children ----

  ghost predicate Facts(s: State, e: Event, x: nat, k: nat)
    requires Shape(s)
  {
    && e.p < |s.st| && x < |s.st| && k < |s.st|
    && Agrees(s, x) && Agrees(s, k) && Agrees(s, e.p) && Agrees(s, s.init) && Kin(s, x, k)
  }

  lemma ForkKin(s: State, s': State, e: Event, x: nat, k: nat)
    requires Shape(s) && Enabled(s, e) && s' == Next(s, e) && Shape(s') && |s'.st| == |s.st| && Facts(s, e, x, k)
        && IsFork(e)
    requires s.prog[e.p].Forking? || s.prog[e.p].Forked? ==> s.prog[e.p].q < |s.st| && Agrees(s, s.prog[e.p].q)
    ensures Kin(s', x, k)
  {
    hide Next, Kin, Agrees;
    if e.ForkParent? {
      ForkParentKin(s, s', e, x, k);
    } else {
      ForkSlotKin(s, s', e, x, k);
    }
  }

  lemma ForkParentKin(s: State, s': State, e: Event, x: nat, k: nat)
    requires Shape(s) && Enabled(s, e) && s' == Next(s, e) && Shape(s') && |s'.st| == |s.st| && Facts(s, e, x, k)
        && e.ForkParent?
    requires s.prog[e.p].q < |s.st| && Agrees(s, s.prog[e.p].q)
    ensures Kin(s', x, k)
  {
  }

  lemma ForkSlotKin(s: State, s': State, e: Event, x: nat, k: nat)
    requires Shape(s) && Enabled(s, e) && s' == Next(s, e) && Shape(s') && |s'.st| == |s.st| && Facts(s, e, x, k)
        && IsFork(e) && !e.ForkParent?
    requires s.prog[e.p].Forking? || s.prog[e.p].Forked? ==> s.prog[e.p].q < |s.st| && Agrees(s, s.prog[e.p].q)
    ensures Kin(s', x, k)
  {
  }

  lemma ReapKin(s: State, s': State, e: Event, x: nat, k: nat)
    requires Shape(s) && Enabled(s, e) && s' == Next(s, e) && Shape(s') && |s'.st| == |s.st| && Facts(s, e, x, k)
        && e.WaitReap?
    ensures Kin(s', x, k)
  {
  }

  lemma WaitKin(s: State, s': State, e: Event, x: nat, k: nat)
    requires Shape(s) && Enabled(s, e) && s' == Next(s, e) && Shape(s') && |s'.st| == |s.st| && Facts(s, e, x, k)
    requires !IsFork(e) && !IsExit(e) && !e.WaitReap?
    ensures Kin(s', x, k)
  {
    hide Next, Kin, Agrees;
    if e.WaitSleep? || e.WaitAsleep? || e.Kill? || e.KillFree? {
      SleepKin(s, s', e, x, k);
    } else {
      ScanKin(s, s', e, x, k);
    }
  }

  lemma SleepKin(s: State, s': State, e: Event, x: nat, k: nat)
    requires Shape(s) && Enabled(s, e) && s' == Next(s, e) && Shape(s') && |s'.st| == |s.st| && Facts(s, e, x, k)
    requires e.WaitSleep? || e.WaitAsleep? || e.Kill? || e.KillFree?
    ensures Kin(s', x, k)
  {
  }

  lemma ScanKin(s: State, s': State, e: Event, x: nat, k: nat)
    requires Shape(s) && Enabled(s, e) && s' == Next(s, e) && Shape(s') && |s'.st| == |s.st| && Facts(s, e, x, k)
    requires e.WaitLock? || e.WaitNext? || e.WaitFault? || e.WaitReturn? || e.WaitStay?
    ensures Kin(s', x, k)
  {
  }

  lemma ExitStepKin(s: State, s': State, e: Event, x: nat, k: nat)
    requires Shape(s) && Enabled(s, e) && s' == Next(s, e) && Shape(s') && |s'.st| == |s.st| && Facts(s, e, x, k)
    requires e.ExitLock? || e.ExitDone?
    ensures Kin(s', x, k)
  {
  }

  lemma ExitScanKin(s: State, s': State, e: Event, x: nat, k: nat)
    requires Shape(s) && Enabled(s, e) && s' == Next(s, e) && Shape(s') && |s'.st| == |s.st| && Facts(s, e, x, k)
        && e.ExitScan?
    ensures Kin(s', x, k)
  {
  }

  lemma ExitNotifyKin(s: State, s': State, e: Event, x: nat, k: nat)
    requires Shape(s) && Enabled(s, e) && s' == Next(s, e) && Shape(s') && |s'.st| == |s.st| && Facts(s, e, x, k)
        && e.ExitNotify?
    ensures Kin(s', x, k)
  {
  }

  lemma ExitWakeKin(s: State, s': State, e: Event, x: nat, k: nat)
    requires Shape(s) && Enabled(s, e) && s' == Next(s, e) && Shape(s') && |s'.st| == |s.st| && Facts(s, e, x, k)
        && e.ExitWake?
    ensures Kin(s', x, k)
  {
  }

  lemma ExitZombieKin(s: State, s': State, e: Event, x: nat, k: nat)
    requires Shape(s) && Enabled(s, e) && s' == Next(s, e) && Shape(s') && |s'.st| == |s.st| && Facts(s, e, x, k)
    requires e.ExitZombie? && forall y: nat :: y < |s.st| ==> Kin(s, e.p, y)
    ensures Kin(s', x, k)
  {
  }

  lemma StepAgrees(s: State, s': State, e: Event, p: nat)
    requires Inv(s) && Enabled(s, e) && s' == Next(s, e) && Shape(s') && p < |s.st| == |s'.st| && e.p < |s.st|
    ensures Agrees(s', p)
  {
    hide Next, Enabled, Agrees, Kin;
    AgreesAt(s, p);
    AgreesAt(s, e.p);
    if IsFork(e) {
      if e.ForkAlloc? {
        FreeSlot(s, e);
      }
      ForkAgrees(s, s', e, p);
    } else if IsExit(e) {
      ExitAgrees(s, s', e, p);
    } else if e.WaitReap? {
      ReapAgrees(s, s', e, p);
    } else {
      WaitAgrees(s, s', e, p);
    }
  }

  lemma FreeSlot(s: State, e: Event)
    requires Inv(s) && Enabled(s, e) && e.ForkAlloc?
    ensures e.q < |s.st| && Agrees(s, e.q)
  {
  }

  lemma ForkTarget(s: State, p: nat)
    requires Inv(s) && p < |s.st|
    ensures s.prog[p].Forking? || s.prog[p].Forked? ==> s.prog[p].q < |s.st| && Agrees(s, s.prog[p].q)
  {
    assert Agrees(s, p);
  }

  lemma StepKin(s: State, s': State, e: Event, x: nat, k: nat)
    requires Inv(s) && Enabled(s, e) && s' == Next(s, e) && Shape(s') && x < |s.st| == |s'.st| && k < |s.st|
        && e.p < |s.st|
    ensures Kin(s', x, k)
  {
    hide Next, Enabled, Agrees, Kin;
    assert Facts(s, e, x, k);
    if IsFork(e) {
      ForkTarget(s, e.p);
      ForkKin(s, s', e, x, k);
    } else if e.WaitReap? {
      ReapKin(s, s', e, x, k);
    } else if !IsExit(e) {
      WaitKin(s, s', e, x, k);
    } else if e.ExitNotify? {
      ExitNotifyKin(s, s', e, x, k);
    } else if e.ExitWake? {
      ExitWakeKin(s, s', e, x, k);
    } else if e.ExitZombie? {
      ExitZombieKin(s, s', e, x, k);
    } else if e.ExitScan? {
      ExitScanKin(s, s', e, x, k);
    } else {
      ExitStepKin(s, s', e, x, k);
    }
  }

  lemma StepKeepsInv(s: State, e: Event)
    requires Inv(s) && Enabled(s, e)
    ensures Inv(Next(s, e))
  {
    hide Next, Agrees, Kin;
    StepShape(s, e);
    var s' := Next(s, e);
    forall p: nat | p < |s'.st|
      ensures Agrees(s', p)
    {
      StepAgrees(s, s', e, p);
    }
    forall x: nat, k: nat | x < |s'.st| && k < |s'.st|
      ensures Kin(s', x, k)
    {
      StepKin(s, s', e, x, k);
    }
  }

  // ---- runs ----

  /** init alone. */
  ghost predicate Initial(s: State)
  {
    && Shape(s) && s.wl.None?
    && (forall p :: 0 <= p < |s.st| ==>
       s.st[p] == (if p == s.init then Alive else Unused) && s.parent[p].None? && s.prog[p] == Normal)
    && (forall p :: 0 <= p < |s.st| ==> s.exits[p] == 0 && s.reaps[p] == 0 && !s.killed[p])
  }

  ghost predicate Leads(s: State, es: seq<Event>, t: State)
    decreases |es|
  {
    if es == [] then t == s
    else exists m: State ::
          Leads(s, es[..|es| - 1], m) && Shape(m) && Enabled(m, es[|es| - 1])
          && t == Next(m, es[|es| - 1])
  }

  lemma {:induction false} RunsKeepInv(s: State, es: seq<Event>, t: State)
    requires Initial(s) && Leads(s, es, t)
    ensures Inv(t)
    decreases |es|
  {
    hide Next, Enabled;
    if es != [] {
      var m: State :| Leads(s, es[..|es| - 1], m) && Shape(m) && Enabled(m, es[|es| - 1]) && t == Next(m, es[|es| - 1]);
      RunsKeepInv(s, es[..|es| - 1], m);
      StepKeepsInv(m, es[|es| - 1]);
    }
  }

  /** No parent pointer ever names an UNUSED or ZOMBIE process, and whoever has exited and was not
      reaped has a parent that lives. */
  lemma ParentsLive(s: State, es: seq<Event>, t: State, k: nat)
    requires Initial(s) && Leads(s, es, t) && Shape(t) && k < |t.st|
    ensures t.parent[k].Some? ==> t.parent[k].value < |t.st| && Lives(t.st[t.parent[k].value])
    ensures t.st[k] == Zombie ==> t.parent[k].Some?
  {
    hide Leads, Next, Enabled;
    RunsKeepInv(s, es, t);
    assert Agrees(t, k);
    if t.parent[k].Some? {
      ParentLives(t, k);
    }
  }

  /** While wait_lock is free, no process sleeps in kwait that has a zombie child. */
  lemma NoneWaitsForZombie(s: State, es: seq<Event>, t: State, x: nat, k: nat)
    requires Initial(s) && Leads(s, es, t) && Shape(t) && x < |t.st| && k < |t.st| && t.wl.None? && t.st[x] == Waiting
        && t.parent[k] == Some(x)
    ensures t.st[k] != Zombie
  {
    hide Leads, Next, Enabled;
    RunsKeepInv(s, es, t);
    assert Kin(t, x, k);
  }

  /** Every exit is reaped at most once. */
  lemma ReapedOnce(s: State, es: seq<Event>, t: State, k: nat)
    requires Initial(s) && Leads(s, es, t) && Shape(t) && k < |t.st|
    ensures t.reaps[k] <= t.exits[k] <= t.reaps[k] + 1 && (t.exits[k] > t.reaps[k] <==> t.st[k] == Zombie)
  {
    hide Leads, Next, Enabled;
    RunsKeepInv(s, es, t);
    assert Agrees(t, k);
  }

  // ---- havekids ----

  /** Some slot below k is a child of x. */
  ghost predicate HasChild(s: State, x: nat, k: nat)
    requires Shape(s)
  {
    exists j :: 0 <= j < k && j < |s.st| && s.parent[j] == Some(x)
  }

  /** The scan knows whether it has met a child, and whoever sleeps has one. */
  ghost predicate Counted(s: State, x: nat)
    requires Shape(s) && x < |s.st|
  {
    match s.prog[x]
    case Scanning(k, kids) => k <= |s.st| && (kids <==> HasChild(s, x, k))
    case Nodding => HasChild(s, x, |s.st|)
    case Drowsy => HasChild(s, x, |s.st|)
    case Asleep => HasChild(s, x, |s.st|)
    case _ => true
  }

  lemma OthersWake(s: State, s': State, e: Event, x: nat)
    requires Shape(s) && Enabled(s, e) && s' == Next(s, e) && Shape(s') && x < |s.st| == |s'.st| && e.p != x
    ensures s'.prog[x] == s.prog[x] || s'.prog[x] == Woken || s'.prog[x] == Normal
  {
  }

  /** A step of another process takes no child from x, and none is given or taken while x has wait_lock. */
  lemma OthersSpare(s: State, s': State, e: Event, x: nat)
    requires Shape(s) && Enabled(s, e) && s' == Next(s, e) && Shape(s') && x < |s.st| == |s'.st| && e.p < |s.st|
    requires Agrees(s, x) && Agrees(s, e.p) && e.p != x
    ensures forall j :: 0 <= j < |s.st| && s.parent[j] == Some(x) ==> s'.parent[j] == Some(x)
    ensures HoldsWl(s.prog[x]) ==> s'.parent == s.parent
  {
  }

  lemma OwnStepCounted(s: State, s': State, e: Event)
    requires Shape(s) && Enabled(s, e) && s' == Next(s, e) && Shape(s') && e.p < |s.st| == |s'.st|
    requires Agrees(s, e.p) && Counted(s, e.p)
    ensures Counted(s', e.p)
  {
    hide Agrees, HasChild;
    var x, g := e.p, s.prog[e.p];
    if e.WaitNext? {
      OneMore(s, x, g.k);
      SameChildren(s, s', x, g.k + 1);
    } else if e.WaitLock? {
      NoneYet(s', x);
    } else if e.WaitStay? || e.WaitSleep? || e.WaitAsleep? || e.Kill? || e.KillFree? {
      SameChildren(s, s', x, |s.st|);
      if g.Scanning? {
        SameChildren(s, s', x, g.k);
      }
    }
  }

  lemma OneMore(s: State, x: nat, k: nat)
    requires Shape(s) && k < |s.st|
    ensures HasChild(s, x, k + 1) <==> HasChild(s, x, k) || s.parent[k] == Some(x)
  {
  }

  lemma NoneYet(s: State, x: nat)
    requires Shape(s)
    ensures !HasChild(s, x, 0)
  {
  }

  lemma SameChildren(s: State, s': State, x: nat, k: nat)
    requires Shape(s) && Shape(s') && s'.parent == s.parent
    ensures HasChild(s', x, k) <==> HasChild(s, x, k)
  {
  }

  /** Children are taken from a parent that scans or sleeps only by itself. */
  lemma StepCounted(s: State, s': State, e: Event, x: nat)
    requires Shape(s) && Enabled(s, e) && s' == Next(s, e) && Shape(s') && x < |s.st| == |s'.st| && e.p < |s.st|
    requires Agrees(s, x) && Agrees(s, e.p) && Counted(s, x)
    ensures Counted(s', x)
  {
    hide Next, Enabled, Agrees;
    if e.p == x {
      OwnStepCounted(s, s', e);
    } else {
      OthersWake(s, s', e, x);
      OthersSpare(s, s', e, x);
    }
  }

  lemma {:induction false} RunsKeepCounted(s: State, es: seq<Event>, t: State, x: nat)
    requires Initial(s) && Leads(s, es, t) && x < |s.st|
    ensures Shape(t) && |t.st| == |s.st| && Counted(t, x)
    decreases |es|
  {
    hide Next, Enabled, Counted, Agrees, Kin;
    if es == [] {
      InitialCounted(s, x);
    } else {
      var e := es[|es| - 1];
      var m: State :| Leads(s, es[..|es| - 1], m) && Shape(m) && Enabled(m, e) && t == Next(m, e);
      RunsKeepCounted(s, es[..|es| - 1], m, x);
      RunsKeepInv(s, es[..|es| - 1], m);
      StepShape(m, e);
      EventOf(m, e);
      StepCounted(m, t, e, x);
    }
  }

  lemma EventOf(s: State, e: Event)
    requires Shape(s) && Enabled(s, e)
    ensures e.p < |s.st|
  {
  }

  lemma InitialCounted(s: State, x: nat)
    requires Initial(s) && x < |s.st|
    ensures Counted(s, x)
  {
  }

  /** Whoever sleeps in kwait, or is about to, is the parent of some slot. */
  lemma SleepersHaveChildren(s: State, es: seq<Event>, t: State, x: nat)
    requires Initial(s) && Leads(s, es, t) && x < |s.st| && Shape(t) && |t.st| == |s.st|
    requires Rests(t, x) || t.prog[x] == Nodding
    ensures HasChild(t, x, |t.st|)
  {
    hide Leads, Next, Enabled, Initial, HasChild;
    RunsKeepCounted(s, es, t, x);
    RunsKeepInv(s, es, t);
    assert Agrees(t, x);
  }

  /** kwait returns -1 only to a process that has no child or was killed, and after a failed copyout; and it
      sleeps only in one that has a child. */
  lemma WaitAnswersRightly(s: State, es: seq<Event>, t: State, p: nat)
    requires Initial(s) && Leads(s, es, t) && p < |s.st| && Shape(t) && |t.st| == |s.st|
    ensures Enabled(t, WaitReturn(p)) ==> t.killed[p] || !HasChild(t, p, |t.st|)
    ensures Enabled(t, WaitStay(p)) ==> !t.killed[p] && HasChild(t, p, |t.st|)
    ensures t.prog[p].Scanning? && t.prog[p].k >= |t.st| ==> Enabled(t, WaitReturn(p)) || Enabled(t, WaitStay(p))
  {
    hide Leads, Next, Initial, HasChild;
    RunsKeepCounted(s, es, t, p);
  }

  // ---- slots ----

  /** A slot that kfork has taken is still in its hands. */
  ghost predicate Tidy(s: State, q: nat)
    requires Shape(s) && q < |s.st|
  {
    s.st[q].Used? ==> s.st[q].maker < |s.st| && InHands(s.prog[s.st[q].maker], q)
  }

  predicate InHands(g: Prog, q: nat)
  {
    g == Forking(q) || g == Forked(q)
  }

  lemma StepHands(s: State, s': State, e: Event, q: nat)
    requires Shape(s) && Enabled(s, e) && s' == Next(s, e) && Shape(s') && q < |s.st| == |s'.st| && e.p < |s.st|
    requires Agrees(s, e.p) && Tidy(s, q) && (s.st[q].Used? ==> Agrees(s, s.st[q].maker)) && s'.st[q].Used?
    ensures s'.st[q].maker < |s.st| && InHands(s'.prog[s'.st[q].maker], q)
  {
    hide Next;
    if IsFork(e) {
      ForkHands(s, s', e, q);
    } else if IsExit(e) {
      ExitHands(s, s', e, q);
    } else {
      WaitHands(s, s', e, q);
    }
  }

  lemma ForkHands(s: State, s': State, e: Event, q: nat)
    requires Shape(s) && Enabled(s, e) && s' == Next(s, e) && Shape(s') && q < |s.st| == |s'.st| && IsFork(e)
    requires Agrees(s, e.p) && Tidy(s, q) && s'.st[q].Used?
    ensures s'.st[q].maker < |s.st| && InHands(s'.prog[s'.st[q].maker], q)
  {
  }

  lemma ExitHands(s: State, s': State, e: Event, q: nat)
    requires Shape(s) && Enabled(s, e) && s' == Next(s, e) && Shape(s') && q < |s.st| == |s'.st| && IsExit(e)
    requires Tidy(s, q) && (s.st[q].Used? ==> Agrees(s, s.st[q].maker)) && s'.st[q].Used?
    ensures s'.st[q] == s.st[q] && s'.prog[s.st[q].maker] == s.prog[s.st[q].maker]
  {
  }

  lemma WaitHands(s: State, s': State, e: Event, q: nat)
    requires Shape(s) && Enabled(s, e) && s' == Next(s, e) && Shape(s') && q < |s.st| == |s'.st| && !IsFork(e)
        && !IsExit(e)
    requires Tidy(s, q) && (s.st[q].Used? ==> Agrees(s, s.st[q].maker)) && s'.st[q].Used?
    ensures s'.st[q] == s.st[q] && s'.prog[s.st[q].maker] == s.prog[s.st[q].maker]
  {
  }

  lemma {:induction false} RunsKeepTidy(s: State, es: seq<Event>, t: State, q: nat)
    requires Initial(s) && Leads(s, es, t) && q < |s.st|
    ensures Shape(t) && |t.st| == |s.st| && Tidy(t, q)
    decreases |es|
  {
    hide Next, Enabled, InHands, Agrees, Kin;
    if es != [] {
      var e := es[|es| - 1];
      var m: State :| Leads(s, es[..|es| - 1], m) && Shape(m) && Enabled(m, e) && t == Next(m, e);
      RunsKeepTidy(s, es[..|es| - 1], m, q);
      RunsKeepInv(s, es[..|es| - 1], m);
      StepShape(m, e);
      EventOf(m, e);
      if t.st[q].Used? {
        StepHands(m, t, e, q);
      }
    }
  }

  // ---- killed ----

  /** Only kkill and setkilled mark a slot, and the mark stays until the slot is freed. It ends a wait. */
  lemma MarkedUntilFreed(s: State, s': State, e: Event, q: nat)
    requires Shape(s) && Enabled(s, e) && s' == Next(s, e) && Shape(s') && q < |s.st| == |s'.st| && e.p < |s.st|
    requires Agrees(s, e.p)
    ensures s'.killed[q] <==>
            e == Kill(q) || e == KillFree(q) || (s.killed[q] && !(s.st[q] != Unused && s'.st[q] == Unused))
    ensures s.st[q] == Unused && s'.st[q] != Unused ==> e.ForkAlloc? && e.q == q
    ensures e == Kill(q) ==> s'.st[q] == if s.st[q] == Waiting then Alive else s.st[q]
  {
    hide Next;
    if IsExit(e) {
      ExitMarks(s, s', e, q);
    } else {
      OtherMarks(s, s', e, q);
    }
  }

  lemma ExitMarks(s: State, s': State, e: Event, q: nat)
    requires Shape(s) && Enabled(s, e) && s' == Next(s, e) && Shape(s') && q < |s.st| == |s'.st| && IsExit(e)
    requires Agrees(s, e.p)
    ensures s'.killed == s.killed && (s'.st[q] == Unused <==> s.st[q] == Unused)
  {
  }

  lemma OtherMarks(s: State, s': State, e: Event, q: nat)
    requires Shape(s) && Enabled(s, e) && s' == Next(s, e) && Shape(s') && q < |s.st| == |s'.st| && !IsExit(e)
    requires Agrees(s, e.p)
    ensures s'.killed[q] <==>
            e == Kill(q) || e == KillFree(q) || (s.killed[q] && !(s.st[q] != Unused && s'.st[q] == Unused))
    ensures s.st[q] == Unused && s'.st[q] != Unused ==> e.ForkAlloc? && e.q == q
    ensures e == Kill(q) ==> s'.st[q] == if s.st[q] == Waiting then Alive else s.st[q]
  {
  }

  ghost predicate MarkedFree(s: State, q: nat)
    requires Shape(s)
  {
    q < |s.st| && s.st[q] == Unused && s.killed[q]
  }

  /** There was a kkill of pid 0 that found slot q, and no kfork has taken the slot since. */
  ghost predicate HitWhileFree(es: seq<Event>, q: nat)
  {
    exists k :: 0 <= k < |es| && es[k] == KillFree(q) && forall j :: k < j < |es| ==> !Takes(es[j], q)
  }

  predicate Takes(e: Event, q: nat)
  {
    e.ForkAlloc? && e.q == q
  }

  lemma HitSnoc(es: seq<Event>, q: nat)
    requires es != []
    ensures HitWhileFree(es, q) <==>
            Last(es) == KillFree(q) || (!Takes(Last(es), q) && HitWhileFree(es[..|es| - 1], q))
  {
    var front := es[..|es| - 1];
    if k :| 0 <= k < |front| && front[k] == KillFree(q) && forall j :: k < j < |front| ==> !Takes(front[j], q) {
      assert es[k] == front[k];
      if !Takes(Last(es), q) {
        assert forall j :: k < j < |es| ==> !Takes(es[j], q);
      }
    }
    if k :| 0 <= k < |es| && es[k] == KillFree(q) && forall j :: k < j < |es| ==> !Takes(es[j], q) {
      if k < |front| {
        assert front[k] == es[k] && forall j :: k < j < |front| ==> front[j] == es[j];
      }
    }
  }

  /** That no free slot is marked as killed is false of the code: it fails exactly in the runs where a
      kkill of pid 0 has hit a free slot that is not taken yet. */
  lemma {:induction false} MarkedFreeExactly(s: State, es: seq<Event>, t: State, q: nat)
    requires Initial(s) && Leads(s, es, t) && q < |s.st|
    ensures Shape(t) && |t.st| == |s.st| && (MarkedFree(t, q) <==> HitWhileFree(es, q))
    decreases |es|
  {
    hide Next, Enabled, Agrees, Kin, HitWhileFree;
    if es == [] {
      NoneHit(q);
    } else {
      var e := Last(es);
      var m: State :| Leads(s, es[..|es| - 1], m) && Shape(m) && Enabled(m, e) && t == Next(m, e);
      MarkedFreeExactly(s, es[..|es| - 1], m, q);
      RunsKeepInv(s, es[..|es| - 1], m);
      StepShape(m, e);
      EventOf(m, e);
      MarkedUntilFreed(m, t, e, q);
      StillFree(m, e, q);
      HitSnoc(es, q);
    }
  }

  lemma NoneHit(q: nat)
    ensures !HitWhileFree([], q)
  {
  }

  lemma StillFree(s: State, e: Event, q: nat)
    requires Shape(s) && Enabled(s, e) && |Next(s, e).st| == |s.st| && q < |s.st|
    ensures e == KillFree(q) ==> Next(s, e).st[q] == Unused
    ensures e == Kill(q) ==> s.st[q] != Unused && Next(s, e).st[q] != Unused
    ensures Takes(e, q) ==> Next(s, e).st[q] != Unused
  {
  }

  lemma LeadsOn(s: State, es: seq<Event>, m: State, e: Event)
    requires Leads(s, es, m) && Shape(m) && Enabled(m, e)
    ensures Leads(s, es + [e], Next(m, e))
  {
    hide Next, Enabled;
    assert (es + [e])[..|es + [e]| - 1] == es;
  }

  /** In any table with a second slot there is a run in which a process is killed before it is born. */
  lemma BornKilled(s: State, q: nat) returns (es: seq<Event>, t: State)
    requires Initial(s) && q < |s.st| && q != s.init
    ensures Leads(s, es, t) && es == [KillFree(q), ForkAlloc(s.init, q)]
    ensures Shape(t) && |t.st| == |s.st| && t.st[q] == Used(s.init) && t.killed[q]
  {
    hide Leads;
    var m := Next(s, KillFree(q));
    NoSteps(s);
    LeadsOn(s, [], s, KillFree(q));
    assert [] + [KillFree(q)] == [KillFree(q)];
    LeadsOn(s, [KillFree(q)], m, ForkAlloc(s.init, q));
    es := [KillFree(q)] + [ForkAlloc(s.init, q)];
    t := Next(m, ForkAlloc(s.init, q));
  }

  lemma NoSteps(s: State)
    ensures Leads(s, [], s)
  {
  }

  // ---- who reaps ----

  /** Slot k holds a child of the process that is in slot x now, not of an earlier one. */
  ghost predicate ChildOf(s: State, k: nat, x: nat)
    requires Shape(s)
  {
    k < |s.st| && x < |s.st| && s.maker[k] == x && s.life[k] == s.exits[x]
  }

  ghost predicate Lineage(s: State, p: nat)
    requires Shape(s) && p < |s.st|
  {
    && (s.parent[p].Some? && s.parent[p].value != s.init ==> ChildOf(s, p, s.parent[p].value))
    && (s.prog[p].Forking? ==> ChildOf(s, s.prog[p].q, p))
  }

  ghost predicate Lineages(s: State)
    requires Shape(s)
  {
    forall p: nat :: p < |s.st| ==> Lineage(s, p)
  }

  lemma ForkLineage(s: State, s': State, e: Event, p: nat)
    requires Shape(s) && Enabled(s, e) && s' == Next(s, e) && Shape(s') && p < |s.st| == |s'.st|
    requires Lineage(s, p) && Lineage(s, e.p) && IsFork(e) && !e.ForkAlloc?
    ensures Lineage(s', p)
  {
  }

  lemma LeaveLineage(s: State, s': State, e: Event, p: nat)
    requires Shape(s) && Enabled(s, e) && s' == Next(s, e) && Shape(s') && p < |s.st| == |s'.st|
    requires Lineage(s, p) && IsExit(e) && !e.ExitZombie?
    ensures Lineage(s', p)
  {
  }

  lemma WaitLineage(s: State, s': State, e: Event, p: nat)
    requires Shape(s) && Enabled(s, e) && s' == Next(s, e) && Shape(s') && p < |s.st| == |s'.st|
    requires Lineage(s, p) && !IsFork(e) && !IsExit(e)
    ensures Lineage(s', p)
  {
  }

  lemma AllocLineage(s: State, s': State, e: Event, p: nat)
    requires Shape(s) && Enabled(s, e) && s' == Next(s, e) && Shape(s') && p < |s.st| == |s'.st|
    requires Lineage(s, p) && Agrees(s, p) && e.ForkAlloc?
    ensures Lineage(s', p)
  {
  }

  /** Whoever has become a zombie has no children left. */
  lemma ExitLineage(s: State, s': State, e: Event, p: nat)
    requires Shape(s) && Enabled(s, e) && s' == Next(s, e) && Shape(s') && p < |s.st| == |s'.st|
    requires Lineage(s, p) && Kin(s, e.p, p) && e.ExitZombie?
    ensures Lineage(s', p)
  {
  }

  lemma StepLineages(s: State, e: Event)
    requires Inv(s) && Lineages(s) && Enabled(s, e) && Shape(Next(s, e)) && |Next(s, e).st| == |s.st|
    ensures Lineages(Next(s, e))
  {
    hide Next, Lineage, Agrees, Kin;
    var s' := Next(s, e);
    forall p: nat | p < |s'.st|
      ensures Lineage(s', p)
    {
      assert Lineage(s, e.p) && Lineage(s, p);
      if e.ForkAlloc? {
        AgreesAt(s, p);
        AllocLineage(s, s', e, p);
      } else if e.ExitZombie? {
        assert Kin(s, e.p, p);
        ExitLineage(s, s', e, p);
      } else if IsFork(e) {
        ForkLineage(s, s', e, p);
      } else if IsExit(e) {
        LeaveLineage(s, s', e, p);
      } else {
        WaitLineage(s, s', e, p);
      }
    }
  }

  lemma {:induction false} RunsKeepLineages(s: State, es: seq<Event>, t: State)
    requires Initial(s) && Leads(s, es, t)
    ensures Shape(t) && Lineages(t)
    decreases |es|
  {
    hide Next, Enabled;
    if es != [] {
      var e := es[|es| - 1];
      var m: State :| Leads(s, es[..|es| - 1], m) && Shape(m) && Enabled(m, e) && t == Next(m, e);
      RunsKeepLineages(s, es[..|es| - 1], m);
      RunsKeepInv(s, es[..|es| - 1], m);
      StepShape(m, e);
      StepLineages(m, e);
    }
  }

  /** In every run a process is reaped by the very process that forked it, or else by init. */
  lemma ReapedByParent(s: State, es: seq<Event>, t: State, p: nat)
    requires Initial(s) && Leads(s, es, t) && Shape(t) && Enabled(t, WaitReap(p))
    ensures p == t.init || ChildOf(t, t.prog[p].k, p)
  {
    hide Leads, Next, Initial;
    RunsKeepLineages(s, es, t);
    assert Lineage(t, t.prog[p].k);
  }
}
