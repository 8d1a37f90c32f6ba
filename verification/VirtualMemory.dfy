/** vm.c and kalloc.c as methods: physical pages, page tables and user address spaces. */
module VirtualMemory {
  import opened Collections
  import opened PageTable
  import opened TableSteps
  import opened Spaces
  import opened Teardown

  function Px(level: nat, vpn: nat): (k: nat)
    requires level < 3
  {
    if level == 2 then Px2(vpn) else if level == 1 then Px1(vpn) else Px0(vpn)
  }

  /** Where walk is: the table it has reached at a level. */
  ghost predicate At(v: Vm, r: nat, vpn: nat, level: nat, t: nat)
  {
    && t in v.tab && |v.tab[t]| == ENTRIES
    && (level == 2 ==> t == r)
    && (level == 1 ==> MidAt(v, r, Px2(vpn)) == Table(t))
    && (level == 0 ==> LowAt(v, r, Px2(vpn), Px1(vpn)) == Table(t))
  }

  lemma WalkDown(v: Vm, pool: set<nat>, r: nat, vpn: nat, level: nat, t: nat)
    requires Inv(v, pool) && IsRoot(v, r) && vpn < MAXVPN && 0 < level <= 2 && At(v, r, vpn, level, t)
    ensures Px(level, vpn) < ENTRIES
    ensures v.tab[t][Px(level, vpn)].Table? || v.tab[t][Px(level, vpn)].Invalid?
    ensures v.tab[t][Px(level, vpn)].Table? ==> At(v, r, vpn, level - 1, v.tab[t][Px(level, vpn)].frame)
    ensures v.tab[t][Px(level, vpn)].Invalid? ==> Lookup(v, r, vpn) == Invalid
  {
    LevelsDiffer(v, r, Px2(vpn), Px1(vpn));
  }

  ghost function NewTable(v: Vm, r: nat, vpn: nat, level: nat, t: nat): (v': Vm)
    requires v.free != [] && t in v.tab && |v.tab[t]| == ENTRIES && vpn < MAXVPN && 0 < level <= 2
  {
    if level == 2 then MakeTable(Alloc(v), t, Px2(vpn), v.free[0], Mid(r, Px2(vpn)))
    else MakeTable(Alloc(v), t, Px1(vpn), v.free[0], Low(r, Px2(vpn), Px1(vpn)))
  }

  lemma WalkGrows(v: Vm, pool: set<nat>, r: nat, vpn: nat, level: nat, t: nat)
    requires Inv(v, pool) && IsRoot(v, r) && vpn < MAXVPN && 0 < level <= 2 && At(v, r, vpn, level, t) && v.free != []
    requires v.tab[t][Px(level, vpn)].Invalid?
    ensures Inv(NewTable(v, r, vpn, level, t), pool) && Grown(v, NewTable(v, r, vpn, level, t), r)
    ensures At(NewTable(v, r, vpn, level, t), r, vpn, level - 1, v.free[0]) && v.free[0] != t
    ensures IsRoot(NewTable(v, r, vpn, level, t), r)
  {
    hide Lookup, Downward, Upward, Leaves, Grown;
    AllocKeeps(v, pool);
    if level == 2 {
      NewMidGrown(v, pool, r, Px2(vpn));
    } else {
      NewLowGrown(v, pool, r, Px2(vpn), Px1(vpn), t);
    }
  }

  lemma NotGrown(v: Vm, r: nat)
    ensures Grown(v, v, r)
  {
  }

  /** mappages: done, out of page-table pages, or the "remap" panic. */
  datatype MapResult = Done | NoMemory | Remap

  class Kernel {
    ghost const pool: set<nat>
    var free: seq<nat>
    var tab: map<nat, seq<Pte>>
    var data: map<nat, Contents>
    ghost var v: Vm

    ghost predicate Valid()
      reads this
    {
      v.free == free && v.tab == tab && v.data == data && Inv(v, pool)
    }

    // kinit and freerange: the frames lo..hi are put on the list in order.
    constructor (lo: nat, hi: nat)
      requires lo <= hi
      ensures Valid() && pool == Range(lo, hi) && v.owner == map[] && |v.free| == hi - lo
    {
      pool := Range(lo, hi);
      free, tab, data, v := [], map[], map[], Vm([], map[], map[], map[]);
      new;
      var f := lo;
      while f < hi
        invariant lo <= f <= hi && v.free == free && v.tab == tab && v.data == data && pool == Range(lo, hi)
        invariant v.owner == map[] && v.tab == map[] && Pooled(v, Range(lo, f)) && |v.free| == f - lo
      {
        FreeNext(v, lo, f);
        free, data := [f] + free, data[f := Filled(1)];
        v := Free(v, f);
        f := f + 1;
      }
      NoRoles(v);
    }

    // count_free_ram: a walk along the list.
    method CountFreeRam() returns (bytes: nat)
      requires Valid()
      ensures bytes == PGSIZE * (|pool| - |v.owner.Keys|)
    {
      bytes := 0;
      var i := 0;
      while i < |free|
        invariant 0 <= i <= |free| && bytes == PGSIZE * i
      {
        bytes := bytes + PGSIZE;
        i := i + 1;
      }
      FreeCount(v, pool);
    }

    // kalloc
    method Kalloc() returns (f: Option<nat>)
      requires Valid()
      modifies this
      ensures Valid() && (f.None? <==> old(v).free == [])
      ensures f.None? ==> v == old(v)
      ensures f.Some? ==> f.value == old(v).free[0] && v == Alloc(old(v)) && f.value !in old(v).owner
    {
      hide Shaped, Downward, Upward, Leaves;
      if free == [] {
        return None;
      }
      AllocKeeps(v, pool);
      v := Alloc(v);
      f := Some(free[0]);
      data := data[free[0] := Filled(5)];
      free := free[1..];
    }

    // kfree of a frame in use
    method Kfree(f: nat)
      requires Valid() && IsHeld(v, f)
      modifies this
      ensures Valid() && v == Free(old(v), f)
    {
      hide Shaped, Downward, Upward, Leaves;
      FreeKeeps(v, pool, f);
      v := Free(v, f);
      data := data[f := Filled(1)];
      free := [f] + free;
    }

    // walk. The result is the lowest table; the entry is the one at Px0(vpn).
    method Walk(r: nat, vpn: nat, alloc: bool) returns (h: Option<nat>)
      requires Valid() && IsRoot(v, r) && vpn < MAXVPN
      modifies this
      ensures Valid() && IsRoot(v, r) && Grown(old(v), v, r)
      ensures h.Some? ==> HasEntry(v, r, vpn, h.value)
      ensures h.None? ==> Lookup(old(v), r, vpn) == Invalid && (alloc ==> v.free == [] && |old(v).free| < 2)
      ensures |old(v).free| <= |v.free| + 2
      ensures !alloc || Lookup(old(v), r, vpn) != Invalid ==> v == old(v)
    {
      hide Shaped, Downward, Upward, Leaves, Pooled, Lookup, Grown, NewTable, MidAt, LowAt;
      var t, level := r, 2;
      RootAt(v, pool, r, vpn);
      NotGrown(v, r);
      while level > 0
        invariant 0 <= level <= 2 && Valid() && IsRoot(v, r) && At(v, r, vpn, level, t) && Grown(old(v), v, r)
        invariant !alloc || Lookup(old(v), r, vpn) != Invalid ==> v == old(v)
        invariant |old(v).free| <= |v.free| + 2 - level
      {
        ghost var v1 := v;
        WalkDown(v, pool, r, vpn, level, t);
        var k := Px(level, vpn);
        var pte := tab[t][k];
        GrownLookup(old(v), v, r, vpn);
        if pte.Table? {
          t := pte.frame;
        } else {
          if !alloc {
            return None;
          }
          var f := Kalloc();
          if f.None? {
            return None;
          }
          WalkGrows(v1, pool, r, vpn, level, t);
          GrownTransitive(old(v), v1, NewTable(v1, r, vpn, level, t), r);
          NewTableFields(v1, r, vpn, level, t);
          tab := tab[f.value := Empty()];
          tab := tab[t := tab[t][k := Table(f.value)]];
          v := NewTable(v1, r, vpn, level, t);
          t := f.value;
        }
        level := level - 1;
      }
      return Some(t);
    }

    // mappages for one page. The frame of a user page must not be in use elsewhere.
    method Mappages(r: nat, vpn: nat, f: nat, perm: Perm) returns (outcome: MapResult)
      requires Valid() && IsRoot(v, r) && vpn < MAXVPN && (vpn < TRAPFRAME ==> IsHeld(v, f))
      modifies this
      ensures Valid() && IsRoot(v, r)
      ensures outcome.Remap? <==> Lookup(old(v), r, vpn) != Invalid
      ensures outcome.Remap? ==> v == old(v)
      ensures outcome.NoMemory? ==> v.free == [] && |old(v).free| < 2 && Grown(old(v), v, r)
      ensures |old(v).free| <= |v.free| + 2
      ensures outcome.Done? ==> Placed(old(v), v, r, vpn, f, perm)
    {
      hide Inv, Lookup, Grown, LowAt, Placed, IsHeld, PutLeaf, HasEntry;
      var h := Walk(r, vpn, true);
      GrownLookup(old(v), v, r, vpn);
      if h.None? {
        return NoMemory;
      }
      EntryIs(v, r, vpn, h.value);
      var pte := tab[h.value][Px0(vpn)];
      if !pte.Invalid? {
        return Remap;
      }
      GrownPlaced(old(v), v, pool, r, vpn, h.value, f, perm);
      PutLeafFields(v, r, vpn, h.value, f, perm);
      v := PutLeaf(v, r, vpn, h.value, f, perm);
      tab := tab[h.value := tab[h.value][Px0(vpn) := Leaf(f, perm)]];
      outcome := Done;
    }

    // Common to uvmalloc, uvmcopy and vmfault: a fresh frame with the given contents is mapped, or
    // given back.
    method MapFresh(r: nat, vpn: nat, perm: Perm, contents: Contents) returns (f: Option<nat>)
      requires Valid() && IsRoot(v, r) && vpn < TRAPFRAME && Lookup(v, r, vpn) == Invalid
      modifies this
      ensures Valid() && IsRoot(v, r)
      ensures f.Some? ==>
                Gained(old(v), v, r, map[vpn := Pg(perm, contents)])
                && Lookup(v, r, vpn) == Leaf(f.value, perm)
      ensures f.None? ==> Grown(old(v), v, r) && |v.free| <= 1 && |old(v).free| < 3
      ensures |old(v).free| <= |v.free| + 3
    {
      hide Inv, Lookup, Grown, Placed, Gained;
      f := Kalloc();
      if f.None? {
        NotGrown(v, r);
        return;
      }
      FillKeeps(v, pool, f.value, contents);
      SameTables(old(v), v);
      data := data[f.value := contents];
      v := v.(data := data);
      SameTables(old(v), v);
      ghost var v1 := v;
      var outcome := Mappages(r, vpn, f.value, perm);
      if outcome.NoMemory? {
        FailedGrown(old(v), v1, v, r, f.value);
        GrownHeld(v1, v, r, f.value);
        Kfree(f.value);
        f := None;
        return;
      }
      assert outcome.Done?;
      PlacedGained(old(v), v1, v, r, vpn, f.value, perm, contents);
      PlacedLookup(v1, v, r, vpn, f.value, perm);
    }

    // uvmunmap of user pages, with do_free
    method Uvmunmap(r: nat, lo: nat, n: nat)
      requires Valid() && IsRoot(v, r) && lo + n <= TRAPFRAME
      modifies this
      ensures Valid() && IsRoot(v, r) && Dropped(old(v), v, r, lo, lo + n)
    {
      hide Inv, Lookup, Dropped, HasEntry, DropPage, Grown;
      ghost var v0 := v;
      NothingUnmapped(v, r, lo);
      var a := lo;
      while a < lo + n
        invariant lo <= a <= lo + n && Valid() && IsRoot(v, r) && Dropped(v0, v, r, lo, a)
      {
        var h := Walk(r, a, false);
        if h.Some? {
          EntryIs(v, r, a, h.value);
          LookupKind(v, pool, r, a);
          var pte := tab[h.value][Px0(a)];
          if !pte.Invalid? {
            UnmapPage(v0, v, pool, r, lo, a, h.value);
            DropFields(v, r, a, h.value);
            v := DropPage(v, r, a, h.value);
            data := data[pte.frame := Filled(1)];
            free := [pte.frame] + free;
            tab := tab[h.value := tab[h.value][Px0(a) := Invalid]];
          } else {
            SkipPage(v0, v, pool, r, lo, a);
          }
        } else {
          SkipPage(v0, v, pool, r, lo, a);
        }
        a := a + 1;
      }
    }

    // uvmunmap of the trampoline or trapframe page, without do_free
    method UnmapSpecial(r: nat, vpn: nat)
      requires Valid() && IsRoot(v, r) && TRAPFRAME <= vpn < MAXVPN
      modifies this
      ensures Valid() && IsRoot(v, r) && !Lookup(v, r, vpn).Leaf? && v.owner == old(v).owner
      ensures Touches(old(v), v, r, {}) && Outside(old(v), v, r, vpn, vpn + 1)
    {
      hide Inv, Lookup, HasEntry, Grown;
      var h := Walk(r, vpn, false);
      if h.Some? {
        EntryIs(v, r, vpn, h.value);
        var pte := tab[h.value][Px0(vpn)];
        if !pte.Invalid? {
          ClearSpecial(v, pool, r, vpn, h.value);
          v := SetEntry(v, h.value, Px0(vpn), Invalid);
          tab := tab[h.value := tab[h.value][Px0(vpn) := Invalid]];
        }
      }
    }

    // uvmdealloc
    method Uvmdealloc(r: nat, oldsz: nat, newsz: nat) returns (sz: nat)
      requires Valid() && IsRoot(v, r) && Pages(oldsz) <= TRAPFRAME
      modifies this
      ensures Valid() && IsRoot(v, r) && sz == if newsz < oldsz then newsz else oldsz
      ensures newsz >= oldsz ==> v == old(v)
      ensures newsz < oldsz ==> Dropped(old(v), v, r, Pages(newsz), Pages(oldsz))
    {
      hide Inv, Lookup, Dropped;
      if newsz >= oldsz {
        return oldsz;
      }
      if Pages(newsz) < Pages(oldsz) {
        Uvmunmap(r, Pages(newsz), Pages(oldsz) - Pages(newsz));
      } else {
        NothingUnmapped(v, r, Pages(oldsz));
      }
      return newsz;
    }

    // uvmalloc
    method Uvmalloc(r: nat, oldsz: nat, newsz: nat, perm: Perm) returns (sz: nat)
      requires Valid() && IsRoot(v, r) && Pages(newsz) <= TRAPFRAME
      requires forall w: nat :: Pages(oldsz) <= w < Pages(newsz) ==> !Lookup(v, r, w).Leaf?
      modifies this
      ensures Valid() && IsRoot(v, r)
      ensures newsz < oldsz ==> sz == oldsz && v == old(v)
      ensures newsz >= oldsz ==>
                || (sz == newsz && Gained(old(v), v, r, Zeroed(Pages(oldsz), Pages(newsz), perm)))
                || (sz == 0 && Grown(old(v), v, r) && |old(v).free| < 3 * (Pages(newsz) - Pages(oldsz)))
    {
      hide Inv, Lookup, Dropped, Gained, Grown, Zeroed;
      if newsz < oldsz {
        return oldsz;
      }
      ghost var v0 := v;
      var lo := Pages(oldsz);
      var a := lo;
      NothingGained(v, r, lo, perm);
      while a < Pages(newsz)
        invariant lo <= a <= Pages(newsz) && Valid() && IsRoot(v, r) && Gained(v0, v, r, Zeroed(lo, a, perm))
        invariant |v0.free| <= |v.free| + 3 * (a - lo)
      {
        ghost var v1 := v;
        NotYet(v0, v, pool, r, lo, a, perm);
        var mem := MapFresh(r, a, perm, Filled(0));
        if mem.None? {
          GrownGained(v1, v, r);
          GainedMore(v0, v1, v, r, Zeroed(lo, a, perm), map[]);
          assert Zeroed(lo, a, perm) + map[] == Zeroed(lo, a, perm);
          ghost var v2 := v;
          var back := Uvmdealloc(r, a * PGSIZE, lo * PGSIZE);
          if a == lo {
            NothingUnmapped(v, r, lo);
          }
          ZeroedKeys(lo, a, perm);
          GainedThenDropped(v0, v2, v, pool, r, Zeroed(lo, a, perm), lo, a);
          return 0;
        }
        ZeroedKeys(lo, a, perm);
        GainedMore(v0, v1, v, r, Zeroed(lo, a, perm), map[a := Pg(perm, Filled(0))]);
        a := a + 1;
      }
      return newsz;
    }

    // uvmcopy from address space p to address space c
    method Uvmcopy(p: nat, c: nat, sz: nat) returns (ok: bool)
      requires Valid() && IsRoot(v, p) && IsRoot(v, c) && p != c && Pages(sz) <= TRAPFRAME
      requires forall w: nat :: w < Pages(sz) ==> !Lookup(v, c, w).Leaf?
      modifies this
      ensures Valid() && IsRoot(v, c)
      ensures ok ==> Gained(old(v), v, c, PagesOf(old(v), p, Pages(sz)))
      ensures !ok ==> Grown(old(v), v, c) && |old(v).free| < 3 * PageCount(old(v), p, Pages(sz))
    {
      hide Inv, Lookup, Dropped, Gained, Grown, PagesOf, See, HasEntry;
      ghost var v0 := v;
      var i := 0;
      NoPagesYet(v, p, c);
      while i < Pages(sz)
        invariant 0 <= i <= Pages(sz) && Valid() && IsRoot(v, c) && IsRoot(v, p) && Gained(v0, v, c, PagesOf(v0, p, i))
        invariant |v0.free| <= |v.free| + 3 * PageCount(v0, p, i)
      {
        CopyFacts(v0, v, pool, p, c, i);
        var h := Walk(p, i, false);
        ghost var v1 := v;
        if h.None? {
          PagesOfStep(v0, p, i);
        } else {
          EntryIs(v, p, i, h.value);
          var pte := tab[h.value][Px0(i)];
          if pte.Invalid? {
            PagesOfStep(v0, p, i);
          } else {
            var mem := MapFresh(c, i, pte.perm, data[pte.frame]);
            if mem.None? {
              GrownGained(v1, v, c);
              GainedMore(v0, v1, v, c, PagesOf(v0, p, i), map[]);
              assert PagesOf(v0, p, i) + map[] == PagesOf(v0, p, i);
              ghost var v2 := v;
              Uvmunmap(c, 0, i);
              GainedThenDropped(v0, v2, v, pool, c, PagesOf(v0, p, i), 0, i);
              CountGrows(v0, p, i + 1, Pages(sz));
              return false;
            }
            PagesOfStep(v0, p, i);
            GainedMore(v0, v1, v, c, PagesOf(v0, p, i), map[i := Pg(pte.perm, v1.data[pte.frame])]);
            StillRoot(v1, v, c, p, map[i := Pg(pte.perm, v1.data[pte.frame])]);
          }
        }
        i := i + 1;
      }
      return true;
    }

    // vmfault for the process with page table r and size sz
    method Vmfault(r: nat, va: nat, sz: nat) returns (pa: Option<nat>)
      requires Valid() && IsRoot(v, r) && Pages(sz) <= TRAPFRAME
      modifies this
      ensures Valid() && IsRoot(v, r)
      ensures pa.Some? ==> && va < sz && !Lookup(old(v), r, va / PGSIZE).Leaf?
                           && Gained(old(v), v, r, map[va / PGSIZE := Pg(Perm(true, true, false, true), Filled(0))])
                           && Lookup(v, r, va / PGSIZE) == Leaf(pa.value, Perm(true, true, false, true))
      ensures pa.None? ==> && Grown(old(v), v, r)
                           && (va >= sz || Lookup(old(v), r, va / PGSIZE).Leaf? || (|v.free| <= 1 && |old(v).free| < 3))
    {
      hide Inv, Lookup, Gained, Grown, HasEntry;
      NotGrown(v, r);
      if va >= sz {
        return None;
      }
      var vpn := va / PGSIZE;
      LookupKind(v, pool, r, vpn);
      var h := Walk(r, vpn, false);
      if h.Some? {
        EntryIs(v, r, vpn, h.value);
        if !tab[h.value][Px0(vpn)].Invalid? {
          return None;
        }
      }
      pa := MapFresh(r, vpn, Perm(true, true, false, true), Filled(0));
    }

    // freewalk. The "leaf" panic is unreachable.
    method Freewalk(t: nat, ghost level: nat)
      requires Valid() && t in v.owner && IsTable(v.owner[t]) && NoLeaf(v, v.owner[t]) && level == Depth(v.owner[t])
      modifies this
      ensures v.free == free && v.tab == tab && v.data == data && Gone(old(v), v, pool, old(v).owner[t])
      decreases level
    {
      hide Inv, NoLeaf, Taking, Gone, Blanked, Sub, SubUnder;
      ghost var v0 := v;
      TakingStarts(v, pool, t);
      var i := 0;
      while i < ENTRIES
        invariant 0 <= i <= ENTRIES && Valid() && Taking(v0, v, t, i)
      {
        EntryOfTaking(v0, v, pool, t, i);
        var pte := tab[t][i];
        if pte.Table? {
          NoLeafBelow(v0, v, t, i, pte.frame);
          ghost var v1 := v;
          DepthBelow(v0, v, t, i, pte.frame);
          Freewalk(pte.frame, Depth(v.owner[pte.frame]));
          TakeEntry(v0, v1, v, pool, t, i, pte.frame);
          tab := tab[t := tab[t][i := Invalid]];
          v := v.(tab := tab);
        } else {
          SkipEntry(v0, v, pool, t, i);
        }
        i := i + 1;
      }
      TakingEnds(v0, v, pool, t);
      v := TableFreed(v, t);
      free, data, tab := [t] + free, data[t := Filled(1)], tab - {t};
    }

    // uvmfree
    method Uvmfree(r: nat, sz: nat)
      requires Valid() && IsRoot(v, r) && Pages(sz) <= TRAPFRAME
          && forall w: nat :: Lookup(v, r, w).Leaf? ==> w < Pages(sz)
      modifies this
      ensures Valid() && Vanished(old(v), v, r)
    {
      hide Inv, Lookup, Dropped, NoLeaf, Gone, Touches, NoneOf;
      ghost var v0 := v;
      if sz > 0 {
        Uvmunmap(r, 0, Pages(sz));
      } else {
        NothingUnmapped(v, r, 0);
      }
      AllDropped(v0, v, pool, r, Pages(sz));
      ghost var v1 := v;
      NothingMapped(v, pool, r);
      Freewalk(r, 2);
      RootGone(v1, v, pool, r);
      TouchesTransitive(v0, v1, v, r, {});
    }

    // uvmcreate
    method Uvmcreate() returns (r: Option<nat>)
      requires Valid()
      modifies this
      ensures Valid()
      ensures r.None? ==> v == old(v) && v.free == []
      ensures r.Some? ==> && old(v).free != [] && r.value == old(v).free[0] && v == MakeRoot(Alloc(old(v)), r.value)
                          && IsRoot(v, r.value) && r.value !in old(v).owner
                             && forall w: nat :: Lookup(v, r.value, w) == Invalid
    {
      hide Inv, Lookup;
      r := Kalloc();
      if r.None? {
        return;
      }
      MakeRootKeeps(v, pool, r.value);
      tab := tab[r.value := Empty()];
      v := MakeRoot(v, r.value);
    }
  }

  lemma DepthBelow(v0: Vm, v: Vm, t: nat, k: nat, g: nat)
    requires Taking(v0, v, t, k) && ChildAt(v, t, k, g)
    ensures Depth(v.owner[g]) < Depth(v0.owner[t])
  {
    hide Blanked, Sub, SubUnder;
  }

  lemma AllDropped(v0: Vm, v: Vm, pool: set<nat>, r: nat, n: nat)
    requires Inv(v0, pool) && Inv(v, pool) && IsRoot(v0, r) && n <= TRAPFRAME && Dropped(v0, v, r, 0, n)
    requires forall w: nat :: Lookup(v0, r, w).Leaf? ==> w < n
    ensures Touches(v0, v, r, {}) && forall w: nat :: !Lookup(v, r, w).Leaf?
  {
    hide Lookup, Inv, Touches;
    forall w: nat
      ensures !Lookup(v, r, w).Leaf?
    {
      if n <= w < TRAPFRAME {
        assert See(v, r, w) == See(v0, r, w);
      }
    }
  }

  /** The pages below n of an address space, as fork should copy them. */
  ghost function PagesOf(v: Vm, p: nat, n: nat): (want: map<nat, Pg>)
    ensures forall w :: w in want <==> 0 <= w < n && Lookup(v, p, w).Leaf?
  {
    if n == 0 then map[]
    else
      var m := See(v, p, n - 1);
      if m.Mapped? then PagesOf(v, p, n - 1)[n - 1 := Pg(m.perm, m.contents)] else PagesOf(v, p, n - 1)
  }

  lemma NoPagesYet(v: Vm, p: nat, c: nat)
    ensures Gained(v, v, c, PagesOf(v, p, 0))
  {
  }

  lemma PagesOfStep(v: Vm, p: nat, i: nat)
    ensures var s := See(v, p, i);
            && (s.Unmapped? ==> PagesOf(v, p, i + 1) == PagesOf(v, p, i))
            && (s.Mapped? ==> && PagesOf(v, p, i).Keys !! map[i := Pg(s.perm, s.contents)].Keys
                              && PagesOf(v, p, i + 1) == PagesOf(v, p, i) + map[i := Pg(s.perm, s.contents)])
  {
    hide Lookup;
  }

  /** How many of the pages below n are mapped. */
  ghost function PageCount(v: Vm, p: nat, n: nat): (m: nat)
  {
    if n == 0 then 0 else PageCount(v, p, n - 1) + if See(v, p, n - 1).Mapped? then 1 else 0
  }

  lemma {:induction false} PagesCounted(v: Vm, p: nat, n: nat)
    ensures PageCount(v, p, n) == |PagesOf(v, p, n)|
  {
    hide Lookup, See;
    if n > 0 {
      PagesCounted(v, p, n - 1);
    }
  }

  lemma {:induction false} CountGrows(v: Vm, p: nat, i: nat, n: nat)
    requires i <= n
    ensures PageCount(v, p, i) <= PageCount(v, p, n)
  {
    hide See;
    if i < n {
      CountGrows(v, p, i, n - 1);
    }
  }

  lemma {:induction false} CountSeen(v: Vm, v': Vm, p: nat, n: nat)
    requires n <= TRAPFRAME && forall w: nat :: w < TRAPFRAME ==> See(v, p, w) == See(v', p, w)
    ensures PageCount(v, p, n) == PageCount(v', p, n)
  {
    hide See;
    if n > 0 {
      CountSeen(v, v', p, n - 1);
    }
  }

  /** While pages are copied the parent is as it was, and the child's next page is not there yet. */
  lemma CopyFacts(v0: Vm, v: Vm, pool: set<nat>, p: nat, c: nat, i: nat)
    requires Inv(v0, pool) && Inv(v, pool) && IsRoot(v0, p) && IsRoot(v, c) && p != c && i < TRAPFRAME
    requires Gained(v0, v, c, PagesOf(v0, p, i)) && !Lookup(v0, c, i).Leaf?
    ensures Lookup(v, c, i) == Invalid
    ensures IsRoot(v, p) && Lookup(v, p, i) == Lookup(v0, p, i) && See(v, p, i) == See(v0, p, i)
    ensures Lookup(v, p, i).Leaf? || Lookup(v, p, i).Invalid?
    ensures Lookup(v, p, i).Leaf? ==>
        Lookup(v, p, i).frame in v.data
            && See(v0, p, i) == Mapped(Lookup(v, p, i).frame, Lookup(v, p, i).perm, v.data[Lookup(v, p, i).frame])
    ensures Lookup(v, p, i).Invalid? ==> See(v0, p, i) == Unmapped
  {
    hide Lookup, Inv, PagesOf;
    LookupKind(v, pool, c, i);
    GainedTouches(v0, v, c, PagesOf(v0, p, i));
    OtherSpace(v0, v, pool, c, {}, p, i);
    LookupKind(v, pool, p, i);
    if Lookup(v, p, i).Leaf? {
      LeafData(v, pool, p, i);
    }
  }

  lemma LeafData(v: Vm, pool: set<nat>, r: nat, w: nat)
    requires Inv(v, pool) && IsRoot(v, r) && w < TRAPFRAME && Lookup(v, r, w).Leaf?
    ensures Lookup(v, r, w).frame in v.data && Lookup(v, r, w).frame in v.owner
        && v.owner[Lookup(v, r, w).frame] == Page(r, w)
  {
    hide Lookup;
  }

  lemma StillRoot(v: Vm, v': Vm, c: nat, p: nat, want: map<nat, Pg>)
    requires Gained(v, v', c, want) && IsRoot(v, p)
    ensures IsRoot(v', p)
  {
  }

  /** PGROUNDUP(sz) / PGSIZE */
  function Pages(sz: nat): (n: nat)
  {
    (sz + PGSIZE - 1) / PGSIZE
  }

  ghost function Zeroed(lo: nat, hi: nat, perm: Perm): (want: map<nat, Pg>)
    ensures forall w :: w in want <==> lo <= w < hi
    decreases hi
  {
    if hi <= lo then map[] else Zeroed(lo, hi - 1, perm)[hi - 1 := Pg(perm, Filled(0))]
  }

  lemma ZeroedKeys(lo: nat, a: nat, perm: Perm)
    requires lo <= a
    ensures Zeroed(lo, a, perm).Keys !! map[a := Pg(perm, Filled(0))].Keys
    ensures Zeroed(lo, a, perm) + map[a := Pg(perm, Filled(0))] == Zeroed(lo, a + 1, perm)
  {
  }

  lemma NothingGained(v: Vm, r: nat, lo: nat, perm: Perm)
    ensures Gained(v, v, r, Zeroed(lo, lo, perm))
  {
  }

  lemma NotYet(v0: Vm, v: Vm, pool: set<nat>, r: nat, lo: nat, a: nat, perm: Perm)
    requires Inv(v, pool) && IsRoot(v, r) && Gained(v0, v, r, Zeroed(lo, a, perm)) && !Lookup(v0, r, a).Leaf?
    ensures Lookup(v, r, a) == Invalid
  {
    hide Lookup, Inv;
    LookupKind(v, pool, r, a);
  }

  lemma DropFields(v: Vm, r: nat, k: nat, h: nat)
    requires HasEntry(v, r, k, h) && Lookup(v, r, k).Leaf?
    ensures var w, f := DropPage(v, r, k, h), Lookup(v, r, k).frame;
            w.free == [f] + v.free && w.data == v.data[f := Filled(1)]
                && w.tab == v.tab[h := v.tab[h][Px0(k) := Invalid]]
  {
  }

  lemma ClearSpecial(v: Vm, pool: set<nat>, r: nat, vpn: nat, h: nat)
    requires Inv(v, pool) && IsRoot(v, r) && HasEntry(v, r, vpn, h) && vpn >= TRAPFRAME
    ensures var w := SetEntry(v, h, Px0(vpn), Invalid);
            && Inv(w, pool) && IsRoot(w, r) && Touches(v, w, r, {}) && Outside(v, w, r, vpn, vpn + 1)
               && !Lookup(w, r, vpn).Leaf?
  {
    hide Lookup, Downward, Upward, Leaves, LowAt;
    SpecialKeeps(v, pool, r, vpn, h, Invalid);
    HasEntryOwner(v, r, vpn, h);
  }

  ghost function Range(lo: nat, hi: nat): (s: set<nat>)
    ensures forall f :: f in s <==> lo <= f < hi
    decreases hi
  {
    if hi <= lo then {} else Range(lo, hi - 1) + {hi - 1}
  }

  lemma FreeNext(v: Vm, lo: nat, f: nat)
    requires Pooled(v, Range(lo, f)) && v.owner == map[] && lo <= f
    ensures Pooled(Free(v, f), Range(lo, f + 1)) && Free(v, f).owner == map[] && Free(v, f).tab == v.tab
  {
  }

  lemma NoRoles(v: Vm)
    requires v.owner == map[] && v.tab == map[]
    ensures Shaped(v) && Downward(v) && Upward(v) && Leaves(v)
  {
  }

  /** The list holds every frame without a role once. */
  lemma FreeCount(v: Vm, pool: set<nat>)
    requires Pooled(v, pool)
    ensures |v.free| == |pool| - |v.owner.Keys|
  {
    DistinctCard(v.free);
    assert pool == Elems(v.free) + v.owner.Keys;
    assert Elems(v.free) !! v.owner.Keys;
  }

  lemma RootAt(v: Vm, pool: set<nat>, r: nat, vpn: nat)
    requires Inv(v, pool) && IsRoot(v, r)
    ensures At(v, r, vpn, 2, r)
  {
  }

  lemma GrownLookup(v: Vm, v': Vm, r: nat, vpn: nat)
    requires Grown(v, v', r)
    ensures Lookup(v', r, vpn) == Lookup(v, r, vpn)
    ensures IsRoot(v, r) ==> IsRoot(v', r)
  {
  }

  lemma FillKeeps(v: Vm, pool: set<nat>, f: nat, contents: Contents)
    requires Inv(v, pool)
    ensures Inv(v.(data := v.data[f := contents]), pool)
  {
    hide Lookup, MidAt, LowAt;
    SameTables(v, v.(data := v.data[f := contents]));
  }

  lemma GrownHeld(v: Vm, v': Vm, r: nat, f: nat)
    requires Grown(v, v', r) && IsHeld(v, f)
    ensures IsHeld(v', f) && (IsRoot(v, r) ==> IsRoot(v', r))
  {
  }

  lemma PlacedLookup(v: Vm, v': Vm, r: nat, vpn: nat, f: nat, perm: Perm)
    requires Placed(v, v', r, vpn, f, perm)
    ensures Lookup(v', r, vpn) == Leaf(f, perm)
  {
  }

  lemma PutLeafFields(v: Vm, r: nat, vpn: nat, h: nat, f: nat, perm: Perm)
    requires HasEntry(v, r, vpn, h)
    ensures var w := PutLeaf(v, r, vpn, h, f, perm);
            w.free == v.free && w.data == v.data && w.tab == v.tab[h := v.tab[h][Px0(vpn) := Leaf(f, perm)]]
  {
  }

  lemma NewTableFields(v: Vm, r: nat, vpn: nat, level: nat, t: nat)
    requires v.free != [] && t in v.tab && |v.tab[t]| == ENTRIES && vpn < MAXVPN && 0 < level <= 2 && v.free[0] != t
    ensures Px(level, vpn) < ENTRIES
    ensures var w := NewTable(v, r, vpn, level, t);
            && w.free == v.free[1..] && w.data == v.data[v.free[0] := Filled(5)]
            && w.tab == v.tab[v.free[0] := Empty()][t := v.tab[t][Px(level, vpn) := Table(v.free[0])]]
  {
  }
}
