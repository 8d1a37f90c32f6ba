/** Process memory (proc.c, sysproc.c): growing and shrinking, faults, fork and teardown. */
module Processes {
  import opened Collections
  import opened PageTable
  import opened TableSteps
  import opened Spaces
  import opened VirtualMemory

  const LIMIT64: nat := 0x1_0000_0000_0000_0000
  const INT_LIMIT: int := 0x8000_0000
  const RX := Perm(true, false, true, false)
  const RW := Perm(true, true, false, false)
  const RWU := Perm(true, true, false, true)

  /** An address space of `sz` bytes: user pages lie below its size, which stays below the trapframe
      and trampoline pages, and those are mapped. */
  ghost predicate Space(v: Vm, r: nat, sz: nat, tf: nat, tramp: nat)
  {
    && IsRoot(v, r) && Pages(sz) <= TRAPFRAME && IsHeld(v, tf)
    && Lookup(v, r, TRAMPOLINE) == Leaf(tramp, RX) && Lookup(v, r, TRAPFRAME) == Leaf(tf, RW)
    && Bounded(v, r, sz)
  }

  ghost predicate Bounded(v: Vm, r: nat, sz: nat)
  {
    forall w: nat :: Lookup(v, r, w).Leaf? ==> w < Pages(sz) || w == TRAPFRAME || w == TRAMPOLINE
  }

  lemma SpaceGained(v: Vm, v': Vm, r: nat, sz: nat, sz': nat, tf: nat, tramp: nat, want: map<nat, Pg>)
    requires Space(v, r, sz, tf, tramp) && Gained(v, v', r, want) && sz <= sz' && Pages(sz') <= TRAPFRAME
    requires forall w :: w in want ==> w < Pages(sz')
    ensures Space(v', r, sz', tf, tramp)
  {
    hide Lookup;
  }

  lemma SpaceDropped(v: Vm, v': Vm, r: nat, sz: nat, sz': nat, tf: nat, tramp: nat)
    requires Space(v, r, sz, tf, tramp) && IsRoot(v', r) && Dropped(v, v', r, Pages(sz'), Pages(sz)) && sz' <= sz
    ensures Space(v', r, sz', tf, tramp)
  {
    hide Lookup;
    forall w: nat | Lookup(v', r, w).Leaf?
      ensures w < Pages(sz') || w == TRAPFRAME || w == TRAMPOLINE
    {
      if w < TRAPFRAME && !(Pages(sz') <= w < Pages(sz)) {
        assert See(v', r, w) == See(v, r, w);
      }
    }
  }

  /** What is done to one address space is not seen in another. */
  lemma SpaceElsewhere(v: Vm, v': Vm, pool: set<nat>, r: nat, g: set<nat>, q: nat, sz: nat, tf: nat, tramp: nat)
    requires Inv(v, pool) && Inv(v', pool) && Touches(v, v', r, g) && q != r && Space(v, q, sz, tf, tramp) && tf !in g
    requires forall f :: f in g && f in v.owner ==> v.owner[f] == Held
    ensures Space(v', q, sz, tf, tramp) && forall w: nat :: w < TRAPFRAME ==> See(v', q, w) == See(v, q, w)
  {
    hide Lookup, See, Inv;
    forall w: nat
      ensures IsRoot(v', q) && Lookup(v', q, w) == Lookup(v, q, w) && (w < TRAPFRAME ==> See(v', q, w) == See(v, q, w))
    {
      OtherSpace(v, v', pool, r, g, q, w);
    }
  }

  /** Growth by n runs into the trapframe, or there may be too few frames: a page needs one for itself and
      at most two for tables. */
  ghost predicate NoRoom(v: Vm, sz: nat, n: nat)
  {
    sz + n > TRAPFRAME * PGSIZE || |v.free| < 3 * (Pages(sz + n) - Pages(sz))
  }

  class Process {
    const k: Kernel
    const pagetable: nat
    const trapframe: nat
    const trampoline: nat
    var sz: nat

    ghost predicate Valid()
      reads this, k
    {
      k.Valid() && Space(k.v, pagetable, sz, trapframe, trampoline)
    }

    constructor (k: Kernel, pagetable: nat, trapframe: nat, trampoline: nat, sz: nat)
      requires k.Valid() && Space(k.v, pagetable, sz, trapframe, trampoline)
      ensures Valid() && this.k == k && this.pagetable == pagetable && this.trapframe == trapframe
      ensures this.trampoline == trampoline && this.sz == sz
    {
      this.k, this.pagetable, this.trapframe, this.trampoline, this.sz := k, pagetable, trapframe, trampoline, sz;
    }

    // growproc
    method Growproc(n: int) returns (ret: int)
      requires Valid() && -INT_LIMIT <= n < INT_LIMIT
      modifies k, this`sz
      ensures Valid() && (ret == 0 || ret == -1) && Touches(old(k.v), k.v, pagetable, {})
      ensures n > 0 && ret == 0 ==>
                sz == old(sz) + n && Gained(old(k.v), k.v, pagetable, Zeroed(Pages(old(sz)), Pages(sz), RWU))
      ensures ret == -1 ==> n > 0 && sz == old(sz) && Grown(old(k.v), k.v, pagetable) && NoRoom(old(k.v), sz, n)
      ensures n <= 0 && (n == 0 || old(sz) + n < 0) ==> ret == 0 && sz == old(sz) && k.v == old(k.v)
      ensures n < 0 <= old(sz) + n ==>
          ret == 0 && sz == old(sz) + n && Dropped(old(k.v), k.v, pagetable, Pages(sz), Pages(old(sz)))
    {
      hide Lookup, Inv, Gained, Grown, Dropped, Zeroed, Touches, Space;
      ghost var v0 := k.v;
      SpaceFacts(k.v, pagetable, sz, trapframe, trampoline);
      var size := sz;
      if n > 0 {
        if size + n > TRAPFRAME * PGSIZE {
          NotGrown(k.v, pagetable);
          GrownTouches(v0, k.v, k.pool, pagetable);
          return -1;
        }
        size := k.Uvmalloc(pagetable, size, size + n, RWU);
        if size == 0 {
          GrownTouches(v0, k.v, k.pool, pagetable);
          SpaceGrown(v0, k.v, pagetable, sz, trapframe, trampoline);
          return -1;
        }
        ZeroedBelow(Pages(sz), Pages(size), RWU);
        GainedTouches(v0, k.v, pagetable, Zeroed(Pages(sz), Pages(size), RWU));
        SpaceGained(v0, k.v, pagetable, sz, size, trapframe, trampoline, Zeroed(Pages(sz), Pages(size), RWU));
      } else if n < 0 {
        size := k.Uvmdealloc(pagetable, size, (size + n) % LIMIT64);
        if size < sz {
          SpaceDropped(v0, k.v, pagetable, sz, size, trapframe, trampoline);
          DroppedTouches(v0, k.v, pagetable, Pages(size), Pages(sz));
        } else {
          TouchesSame(v0, pagetable);
        }
      } else {
        TouchesSame(v0, pagetable);
      }
      sz := size;
      return 0;
    }

    // sys_sbrk. Lazy growth only raises the size.
    method Sbrk(n: int, eager: bool) returns (ret: int)
      requires Valid() && -INT_LIMIT <= n < INT_LIMIT
      modifies k, this`sz
      ensures Valid() && Touches(old(k.v), k.v, pagetable, {}) && (ret == -1 || ret == old(sz))
      ensures ret == -1 ==> n >= 0 && sz == old(sz) && Grown(old(k.v), k.v, pagetable) && NoRoom(old(k.v), sz, n)
      ensures ret != -1 ==> sz == if old(sz) + n < 0 then old(sz) else old(sz) + n
      ensures ret != -1 && n >= 0 && eager ==> Gained(old(k.v), k.v, pagetable, Zeroed(Pages(old(sz)), Pages(sz), RWU))
      ensures ret != -1 && n < 0 <= old(sz) + n ==> Dropped(old(k.v), k.v, pagetable, Pages(sz), Pages(old(sz)))
      ensures n >= 0 && !eager ==> k.v == old(k.v) && (ret == -1 <==> old(sz) + n > TRAPFRAME * PGSIZE)
    {
      hide Lookup, Inv, Gained, Grown, Dropped, Zeroed, Touches, Space;
      var addr := sz;
      SpaceFacts(k.v, pagetable, sz, trapframe, trampoline);
      NotGrown(k.v, pagetable);
      TouchesSame(k.v, pagetable);
      NothingGained(k.v, pagetable, Pages(sz), RWU);
      if eager || n < 0 {
        var r := Growproc(n);
        if r < 0 {
          return -1;
        }
      } else {
        if (addr + n) % LIMIT64 < addr {
          return -1;
        }
        if addr + n > TRAPFRAME * PGSIZE {
          return -1;
        }
        SpaceLarger(k.v, pagetable, sz, sz + n, trapframe, trampoline);
        sz := sz + n;
      }
      return addr;
    }

    // A page fault of the process at address va.
    method Fault(va: nat) returns (pa: Option<nat>)
      requires Valid()
      modifies k
      ensures Valid() && Touches(old(k.v), k.v, pagetable, {})
      ensures pa.Some? ==>
                && va < sz && !Lookup(old(k.v), pagetable, va / PGSIZE).Leaf?
                && Lookup(k.v, pagetable, va / PGSIZE) == Leaf(pa.value, RWU)
                && Gained(old(k.v), k.v, pagetable, map[va / PGSIZE := Pg(RWU, Filled(0))])
      ensures pa.None? ==>
                Grown(old(k.v), k.v, pagetable)
                && (|| va >= sz || Lookup(old(k.v), pagetable, va / PGSIZE).Leaf?
                    || (|k.v.free| <= 1 && |old(k.v).free| < 3))
    {
      hide Lookup, Inv, Gained, Grown, Touches, Space;
      ghost var v0 := k.v;
      SpaceFacts(k.v, pagetable, sz, trapframe, trampoline);
      pa := k.Vmfault(pagetable, va, sz);
      if pa.Some? {
        GainedTouches(v0, k.v, pagetable, map[va / PGSIZE := Pg(RWU, Filled(0))]);
        SpaceGained(v0, k.v, pagetable, sz, sz, trapframe, trampoline, map[va / PGSIZE := Pg(RWU, Filled(0))]);
      } else {
        GrownTouches(v0, k.v, k.pool, pagetable);
        SpaceGrown(v0, k.v, pagetable, sz, trapframe, trampoline);
      }
    }
  }

  lemma SpaceLarger(v: Vm, r: nat, sz: nat, sz': nat, tf: nat, tramp: nat)
    requires Space(v, r, sz, tf, tramp) && sz <= sz' && Pages(sz') <= TRAPFRAME
    ensures Space(v, r, sz', tf, tramp)
  {
    hide Lookup;
  }

  // ---- creating and destroying ----

  /** Every role, and with them the set of free frames, and what the owned frames hold, is as before. */
  ghost predicate Restored(v: Vm, v': Vm)
  {
    && v'.owner == v.owner && (forall f :: f in v'.free <==> f in v.free) && v'.tab == v.tab
    && (forall f :: f in v.owner && !IsTable(v.owner[f]) && f in v.data ==> f in v'.data && v'.data[f] == v.data[f])
  }

  lemma VanishedRestored(v: Vm, v': Vm, pool: set<nat>, r: nat)
    requires Inv(v, pool) && Inv(v', pool) && NoneOf(v, r) && Vanished(v, v', r)
    ensures Restored(v, v')
  {
    hide Downward, Upward, Leaves, Pooled;
    BackToStart(v, v', pool, r);
  }

  lemma FreshRoot(v: Vm, pool: set<nat>, r: nat)
    requires Inv(v, pool) && r !in v.owner
    ensures NoneOf(v, r)
  {
    hide Lookup, MidAt, LowAt, Downward;
    forall f | f in v.owner
      ensures !Of(v.owner[f], r)
    {
      match v.owner[f]
      case Mid(q, i) => assert IsRoot(v, q);
      case Low(q, i, j) => assert IsRoot(v, q);
      case _ =>
    }
  }

  lemma CreateTouches(v: Vm, r: nat)
    requires v.free != [] && r == v.free[0] && r !in v.owner && r !in v.tab
    ensures Touches(v, MakeRoot(Alloc(v), r), r, {})
  {
  }

  /** proc_pagetable: an address space without user memory, or nothing. */
  method ProcPagetable(k: Kernel, tf: nat, tramp: nat) returns (pagetable: Option<nat>)
    requires k.Valid() && IsHeld(k.v, tf)
    modifies k
    ensures k.Valid()
    ensures pagetable.None? ==> Restored(old(k.v), k.v) && |old(k.v).free| < 5
    ensures pagetable.Some? ==> |old(k.v).free| <= |k.v.free| + 5
    ensures pagetable.Some? ==> && pagetable.value !in old(k.v).owner && Space(k.v, pagetable.value, 0, tf, tramp)
                                && Touches(old(k.v), k.v, pagetable.value, {})
  {
    hide Lookup, Inv, Grown, Touches, NoneOf, Placed, Outside, MakeRoot, Alloc, IsHeld, Restored, Space;
    ghost var v0 := k.v;
    var r := k.Uvmcreate();
    if r.None? {
      SameRestored(v0);
      return None;
    }
    Created(v0, k.v, k.pool, r.value, tf);
    ghost var v1 := k.v;
    var outcome := k.Mappages(r.value, TRAMPOLINE, tramp, RX);
    if !outcome.Done? {
      GrownNoLeaf(v1, k.v, k.pool, r.value);
      ghost var v2 := k.v;
      TouchesTransitive(v0, v1, v2, r.value, {});
      k.Uvmfree(r.value, 0);
      TouchesTransitive(v0, v2, k.v, r.value, {});
      VanishedRestored(v0, k.v, k.pool, r.value);
      return None;
    }
    PlacedSpecial(v1, k.v, k.pool, r.value, TRAMPOLINE, tramp, RX);
    ghost var v2 := k.v;
    TouchesTransitive(v0, v1, v2, r.value, {});
    OneMapped(v1, v2, r.value, tramp);
    outcome := k.Mappages(r.value, TRAPFRAME, tf, RW);
    ghost var v3 := k.v;
    if !outcome.Done? {
      GrownTouches(v2, v3, k.pool, r.value);
      TouchesTransitive(v0, v2, v3, r.value, {});
      k.UnmapSpecial(r.value, TRAMPOLINE);
      TouchesTransitive(v0, v3, k.v, r.value, {});
      OneUnmapped(v2, v3, k.v, r.value);
      ghost var v4 := k.v;
      k.Uvmfree(r.value, 0);
      TouchesTransitive(v0, v4, k.v, r.value, {});
      VanishedRestored(v0, k.v, k.pool, r.value);
      return None;
    }
    PlacedSpecial(v2, v3, k.pool, r.value, TRAPFRAME, tf, RW);
    TouchesTransitive(v0, v2, v3, r.value, {});
    BothMapped(v0, v2, v3, r.value, tf, tramp);
    return r;
  }

  lemma SameRestored(v: Vm)
    ensures Restored(v, v)
  {
  }

  lemma Created(v: Vm, v1: Vm, pool: set<nat>, r: nat, tf: nat)
    requires Inv(v, pool) && v.free != [] && r == v.free[0] && r !in v.owner && v1 == MakeRoot(Alloc(v), r)
        && IsHeld(v, tf)
    ensures Touches(v, v1, r, {}) && NoneOf(v, r) && IsHeld(v1, tf) && |v1.free| == |v.free| - 1
  {
    hide Lookup, Downward, Upward, Leaves, Touches, NoneOf;
    FreshRoot(v, pool, r);
    CreateTouches(v, r);
  }

  lemma GrownNoLeaf(v: Vm, v': Vm, pool: set<nat>, r: nat)
    requires Inv(v, pool) && IsRoot(v, r) && Grown(v, v', r) && forall w: nat :: Lookup(v, r, w) == Invalid
    ensures Touches(v, v', r, {}) && forall w: nat :: !Lookup(v', r, w).Leaf?
  {
    hide Lookup, Inv, Touches;
    GrownTouches(v, v', pool, r);
  }

  lemma OneMapped(v: Vm, v': Vm, r: nat, tramp: nat)
    requires Placed(v, v', r, TRAMPOLINE, tramp, RX) && forall w: nat :: Lookup(v, r, w) == Invalid
    ensures forall w: nat :: Lookup(v', r, w) == if w == TRAMPOLINE then Leaf(tramp, RX) else Invalid
    ensures forall f :: IsHeld(v, f) ==> IsHeld(v', f)
  {
    hide Lookup;
  }

  lemma OneUnmapped(v: Vm, v1: Vm, v': Vm, r: nat)
    requires Grown(v, v1, r) && Outside(v1, v', r, TRAMPOLINE, TRAMPOLINE + 1) && !Lookup(v', r, TRAMPOLINE).Leaf?
    requires forall w: nat :: w != TRAMPOLINE ==> Lookup(v, r, w) == Invalid
    ensures forall w: nat :: !Lookup(v', r, w).Leaf?
  {
    hide Lookup;
    forall w: nat
      ensures !Lookup(v', r, w).Leaf?
    {
      if w < TRAPFRAME {
        assert See(v', r, w) == See(v1, r, w);
      }
    }
  }

  lemma BothMapped(v0: Vm, v: Vm, v': Vm, r: nat, tf: nat, tramp: nat)
    requires Placed(v, v', r, TRAPFRAME, tf, RW) && IsRoot(v', r) && IsHeld(v, tf)
    requires forall w: nat :: Lookup(v, r, w) == if w == TRAMPOLINE then Leaf(tramp, RX) else Invalid
    ensures Space(v', r, 0, tf, tramp)
  {
    hide Lookup;
  }

  /** freeproc and proc_freepagetable: the frames of the address space and the trapframe go back to the
      pool, each once, and nothing else changes. */
  method Freeproc(k: Kernel, r: nat, tf: nat, tramp: nat, sz: nat)
    requires k.Valid() && Space(k.v, r, sz, tf, tramp)
    modifies k
    ensures k.Valid() && Touches(old(k.v), k.v, r, {tf}) && NoneOf(k.v, r) && tf !in k.v.owner
  {
    hide Lookup, Inv, Touches, NoneOf, Outside, IsHeld, Space, Free;
    ghost var v0 := k.v;
    SpaceParts(k.v, r, sz, tf, tramp);
    k.Kfree(tf);
    ghost var v1 := k.v;
    TrapFreed(v0, r, tf);
    k.UnmapSpecial(r, TRAMPOLINE);
    ghost var v2 := k.v;
    TouchesMore(v1, v2, r, {tf});
    TouchesTransitive(v0, v1, v2, r, {tf});
    k.UnmapSpecial(r, TRAPFRAME);
    ghost var v3 := k.v;
    TouchesMore(v2, v3, r, {tf});
    TouchesTransitive(v0, v2, v3, r, {tf});
    UserOnly(v1, v2, v3, r, sz);
    k.Uvmfree(r, sz);
    TrapStaysFree(v3, k.v, r, tf);
    TouchesMore(v3, k.v, r, {tf});
    TouchesTransitive(v0, v3, k.v, r, {tf});
  }

  lemma SpaceParts(v: Vm, r: nat, sz: nat, tf: nat, tramp: nat)
    requires Space(v, r, sz, tf, tramp)
    ensures IsRoot(v, r) && IsHeld(v, tf) && Pages(sz) <= TRAPFRAME && Bounded(v, r, sz)
  {
  }

  lemma TrapFreed(v: Vm, r: nat, tf: nat)
    requires IsHeld(v, tf)
    ensures Touches(v, Free(v, tf), r, {tf}) && (IsRoot(v, r) ==> IsRoot(Free(v, tf), r)) && tf !in Free(v, tf).owner
    ensures forall w: nat :: Lookup(Free(v, tf), r, w) == Lookup(v, r, w)
  {
    hide Lookup;
    FreeTouches(v, r, tf);
    SameTables(v, Free(v, tf));
  }

  lemma UserOnly(v1: Vm, v2: Vm, v3: Vm, r: nat, sz: nat)
    requires Bounded(v1, r, sz) && Outside(v1, v2, r, TRAMPOLINE, TRAMPOLINE + 1)
        && Outside(v2, v3, r, TRAPFRAME, TRAPFRAME + 1)
    requires !Lookup(v2, r, TRAMPOLINE).Leaf? && !Lookup(v3, r, TRAPFRAME).Leaf?
    ensures forall w: nat :: Lookup(v3, r, w).Leaf? ==> w < Pages(sz)
  {
    hide Lookup;
    forall w: nat | Lookup(v3, r, w).Leaf?
      ensures w < Pages(sz)
    {
      if w < TRAPFRAME {
        assert See(v3, r, w) == See(v2, r, w);
        assert See(v2, r, w) == See(v1, r, w);
      }
    }
  }

  lemma TrapStaysFree(v: Vm, v': Vm, r: nat, tf: nat)
    requires Vanished(v, v', r) && tf !in v.owner
    ensures tf !in v'.owner
  {
  }

  /** The pages of the parent below its size, and no others, are in the child, with equal permissions
      and contents, on frames that were free. */
  ghost predicate Copied(v0: Vm, v: Vm, p: nat, c: nat, n: nat)
  {
    forall w: nat :: w < n ==>
      match See(v0, p, w)
      case Unmapped => !Lookup(v, c, w).Leaf?
      case Mapped(_, perm, contents) => Fresh(v0, v, Lookup(v, c, w), Pg(perm, contents))
  }

  /** The memory side of kfork. */
  method Kfork(k: Kernel, p: Process) returns (child: Option<(nat, nat)>)
    requires p.Valid() && p.k == k
    modifies k
    ensures p.Valid() && forall w: nat :: w < TRAPFRAME ==> See(k.v, p.pagetable, w) == See(old(k.v), p.pagetable, w)
    ensures child.None? ==>
              Restored(old(k.v), k.v) && |old(k.v).free| < 3 * PageCount(old(k.v), p.pagetable, Pages(p.sz)) + 6
    ensures child.Some? ==>
              && Space(k.v, child.value.0, p.sz, child.value.1, p.trampoline)
              && NoneOf(old(k.v), child.value.0)
              && Touches(old(k.v), k.v, child.value.0, {child.value.1})
              && child.value.1 !in old(k.v).owner
              && Copied(old(k.v), k.v, p.pagetable, child.value.0, Pages(p.sz))
  {
    hide Lookup, Inv, Touches, NoneOf, Space, Restored, Alloc, See, Gained, Grown, PagesOf, Copied;
    ghost var v0 := k.v;
    SameRestored(v0);
    var tf := k.Kalloc();
    if tf.None? {
      return None;
    }
    ghost var v1 := k.v;
    AllocHeld(v0);
    var np := ProcPagetable(k, tf.value, p.trampoline);
    if np.None? {
      GiveBack(v0, v1, k.v, k.pool, tf.value);
      k.Kfree(tf.value);
      RestoredSpace(v0, k.v, k.pool, p.pagetable, p.sz, p.trapframe, p.trampoline);
      return None;
    }
    ghost var v2 := k.v;
    var r := np.value;
    ForkStart(v0, v1, v2, k.pool, r, tf.value, p.pagetable, p.sz, p.trapframe, p.trampoline);
    CountSeen(v2, v0, p.pagetable, Pages(p.sz));
    var ok := k.Uvmcopy(p.pagetable, r, p.sz);
    ghost var v3 := k.v;
    if !ok {
      GrownTouches(v2, v3, k.pool, r);
      SpaceGrown(v2, v3, r, 0, tf.value, p.trampoline);
      Freeproc(k, r, tf.value, p.trampoline, 0);
      ForkUndone(v0, v2, v3, k.v, k.pool, r, tf.value);
      RestoredSpace(v0, k.v, k.pool, p.pagetable, p.sz, p.trapframe, p.trampoline);
      return None;
    }
    ForkDone(v0, v2, v3, k.pool, r, tf.value, p.pagetable, p.sz, p.trapframe, p.trampoline);
    return Some((r, tf.value));
  }

  lemma AllocHeld(v: Vm)
    requires v.free != []
    ensures IsHeld(Alloc(v), v.free[0]) && |Alloc(v).free| == |v.free| - 1
  {
  }

  lemma GiveBack(v0: Vm, v1: Vm, v2: Vm, pool: set<nat>, tf: nat)
    requires v0.free != [] && tf == v0.free[0] && tf !in v0.owner && v1 == Alloc(v0) && Restored(v1, v2)
    ensures IsHeld(v2, tf) && Restored(v0, Free(v2, tf))
  {
  }

  lemma RestoredSpace(v0: Vm, v: Vm, pool: set<nat>, p: nat, sz: nat, tf: nat, tramp: nat)
    requires Inv(v0, pool) && Restored(v0, v) && Space(v0, p, sz, tf, tramp)
    ensures Space(v, p, sz, tf, tramp) && forall w: nat :: w < TRAPFRAME ==> See(v, p, w) == See(v0, p, w)
  {
    hide Lookup, Inv;
    SameTables(v0, v);
    forall w: nat | w < TRAPFRAME
      ensures See(v, p, w) == See(v0, p, w)
    {
      if Lookup(v0, p, w).Leaf? {
        LeafData(v0, pool, p, w);
      }
    }
  }

  lemma ForkStart(v0: Vm, v1: Vm, v2: Vm, pool: set<nat>, r: nat, tf: nat, p: nat, sz: nat, ptf: nat, tramp: nat)
    requires Inv(v0, pool) && Inv(v2, pool) && v0.free != [] && tf == v0.free[0] && tf !in v0.owner && v1 == Alloc(v0)
    requires r !in v1.owner && Space(v2, r, 0, tf, tramp) && Touches(v1, v2, r, {}) && Space(v0, p, sz, ptf, tramp)
    ensures p != r && Touches(v0, v2, r, {tf}) && NoneOf(v0, r) && IsRoot(v2, r) && Pages(sz) <= TRAPFRAME
    ensures Space(v2, p, sz, ptf, tramp) && IsRoot(v2, p)
        && forall w: nat :: w < TRAPFRAME ==> See(v2, p, w) == See(v0, p, w)
    ensures forall w: nat :: w < Pages(sz) ==> !Lookup(v2, r, w).Leaf?
  {
    hide Lookup, Inv, Touches, NoneOf, See;
    FreshRoot(v0, pool, r);
    AllocTouches(v0, r);
    TouchesMore(v1, v2, r, {tf});
    TouchesTransitive(v0, v1, v2, r, {tf});
    SpaceElsewhere(v0, v2, pool, r, {tf}, p, sz, ptf, tramp);
  }

  lemma ForkUndone(v0: Vm, v2: Vm, v3: Vm, v4: Vm, pool: set<nat>, r: nat, tf: nat)
    requires Inv(v0, pool) && Inv(v4, pool) && NoneOf(v0, r) && tf !in v0.owner && tf !in v4.owner && NoneOf(v4, r)
    requires Touches(v0, v2, r, {tf}) && Touches(v2, v3, r, {}) && Touches(v3, v4, r, {tf})
    ensures Restored(v0, v4)
  {
    hide Inv, Touches, NoneOf, Restored;
    TouchesMore(v2, v3, r, {tf});
    TouchesTransitive(v0, v2, v3, r, {tf});
    TouchesTransitive(v0, v3, v4, r, {tf});
    TouchesClosed(v0, v4, r, tf);
    VanishedRestored(v0, v4, pool, r);
  }

  lemma ForkDone(v0: Vm, v2: Vm, v3: Vm, pool: set<nat>, r: nat, tf: nat, p: nat, sz: nat, ptf: nat, tramp: nat)
    requires Inv(v0, pool) && Inv(v3, pool) && NoneOf(v0, r) && p != r && tf !in v0.owner
    requires Touches(v0, v2, r, {tf}) && Space(v2, r, 0, tf, tramp) && Space(v0, p, sz, ptf, tramp)
    requires (forall w: nat :: w < TRAPFRAME ==> See(v2, p, w) == See(v0, p, w))
        && Gained(v2, v3, r, PagesOf(v2, p, Pages(sz)))
    ensures Space(v3, r, sz, tf, tramp) && Touches(v0, v3, r, {tf}) && Space(v3, p, sz, ptf, tramp)
    ensures forall w: nat :: w < TRAPFRAME ==> See(v3, p, w) == See(v0, p, w)
    ensures Copied(v0, v3, p, r, Pages(sz))
  {
    hide Lookup, Inv, Touches, NoneOf, See, Gained, Copied, PagesOf;
    SpaceFacts(v0, p, sz, ptf, tramp);
    SpaceFacts(v2, r, 0, tf, tramp);
    var want := PagesOf(v2, p, Pages(sz));
    SpaceGained(v2, v3, r, 0, sz, tf, tramp, want);
    GainedTouches(v2, v3, r, want);
    TouchesMore(v2, v3, r, {tf});
    TouchesTransitive(v0, v2, v3, r, {tf});
    SpaceElsewhere(v0, v3, pool, r, {tf}, p, sz, ptf, tramp);
    AllCopied(v0, v2, v3, r, tf, p, Pages(sz));
  }

  lemma AllCopied(v0: Vm, v2: Vm, v3: Vm, r: nat, tf: nat, p: nat, n: nat)
    requires NoneOf(v0, r) && tf !in v0.owner && Touches(v0, v2, r, {tf}) && n <= TRAPFRAME
    requires (forall w: nat :: w < TRAPFRAME ==> See(v2, p, w) == See(v0, p, w)) && Gained(v2, v3, r, PagesOf(v2, p, n))
    requires forall w: nat :: w < n ==> !Lookup(v2, r, w).Leaf?
    ensures Copied(v0, v3, p, r, n)
  {
    hide Lookup, KeptFrames, PagesOf;
    forall w: nat | w < n
      ensures match See(v0, p, w)
              case Unmapped => !Lookup(v3, r, w).Leaf?
              case Mapped(_, perm, contents) => Fresh(v0, v3, Lookup(v3, r, w), Pg(perm, contents))
    {
      assert See(v2, p, w) == See(v0, p, w);
      if See(v0, p, w).Mapped? {
        PagesOfAt(v2, p, n, w);
        assert Fresh(v2, v3, Lookup(v3, r, w), PagesOf(v2, p, n)[w]);
      }
    }
  }

  lemma {:induction false} PagesOfAt(v: Vm, p: nat, n: nat, w: nat)
    requires w < n && See(v, p, w).Mapped?
    ensures w in PagesOf(v, p, n) && PagesOf(v, p, n)[w] == Pg(See(v, p, w).perm, See(v, p, w).contents)
  {
    hide Lookup;
    if w < n - 1 {
      PagesOfAt(v, p, n - 1, w);
    }
  }

  lemma SpaceFacts(v: Vm, r: nat, sz: nat, tf: nat, tramp: nat)
    requires Space(v, r, sz, tf, tramp)
    ensures IsRoot(v, r) && Pages(sz) <= TRAPFRAME
        && forall w: nat :: Pages(sz) <= w < TRAPFRAME ==> !Lookup(v, r, w).Leaf?
  {
  }

  lemma DroppedTouches(v: Vm, v': Vm, r: nat, lo: nat, hi: nat)
    requires Dropped(v, v', r, lo, hi)
    ensures Touches(v, v', r, {})
  {
  }

  lemma TouchesSame(v: Vm, r: nat)
    ensures Touches(v, v, r, {})
  {
  }

  lemma SpaceGrown(v: Vm, v': Vm, r: nat, sz: nat, tf: nat, tramp: nat)
    requires Space(v, r, sz, tf, tramp) && Grown(v, v', r)
    ensures Space(v', r, sz, tf, tramp)
  {
    hide Lookup;
  }

  lemma ZeroedBelow(lo: nat, hi: nat, perm: Perm)
    ensures forall w :: w in Zeroed(lo, hi, perm) ==> w < hi
  {
  }
}
