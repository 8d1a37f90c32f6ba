/** Address spaces as their users see them, and what an operation on one leaves alone. */
module Spaces {
  import opened PageTable
  import opened TableSteps

  datatype Seen = Unmapped | Mapped(frame: nat, perm: Perm, contents: Contents)

  ghost function See(v: Vm, r: nat, vpn: nat): (s: Seen)
  {
    var p := Lookup(v, r, vpn);
    if p.Leaf? then Mapped(p.frame, p.perm, if p.frame in v.data then v.data[p.frame] else Filled(0)) else Unmapped
  }

  /** Frames that belong neither to the address space under r nor to `g` keep their role and contents,
      and no other frame gets such a role. */
  ghost predicate Touches(v: Vm, v': Vm, r: nat, g: set<nat>)
  {
    && (forall f :: f in v.owner && f !in g && !Of(v.owner[f], r) ==>
          && f in v'.owner && v'.owner[f] == v.owner[f]
          && (f in v.data && !IsTable(v.owner[f]) ==> f in v'.data && v'.data[f] == v.data[f])
          && (f in v.tab ==> f in v'.tab && v'.tab[f] == v.tab[f]))
    && (forall f :: f in v'.owner && f !in g && !Of(v'.owner[f], r) ==> f in v.owner && v'.owner[f] == v.owner[f])
  }

  lemma TouchesTransitive(v: Vm, v1: Vm, v2: Vm, r: nat, g: set<nat>)
    requires Touches(v, v1, r, g) && Touches(v1, v2, r, g)
    ensures Touches(v, v2, r, g)
  {
  }

  /** A frame taken from the pool that ended up in the address space, or back in the pool. */
  lemma TouchesClosed(v: Vm, v': Vm, r: nat, f: nat)
    requires Touches(v, v', r, {f}) && f !in v.owner && (f in v'.owner ==> Of(v'.owner[f], r))
    ensures Touches(v, v', r, {})
  {
  }

  lemma TouchesMore(v: Vm, v': Vm, r: nat, g: set<nat>)
    requires Touches(v, v', r, {})
    ensures Touches(v, v', r, g)
  {
  }

  /** Other address spaces do not notice. */
  lemma OtherSpace(v: Vm, v': Vm, pool: set<nat>, r: nat, g: set<nat>, q: nat, vpn: nat)
    requires Inv(v, pool) && Inv(v', pool) && Touches(v, v', r, g) && IsRoot(v, q) && q != r
    requires forall f :: f in g && f in v.owner ==> v.owner[f] == Held
    ensures IsRoot(v', q) && Lookup(v', q, vpn) == Lookup(v, q, vpn)
    ensures vpn < TRAPFRAME ==> See(v', q, vpn) == See(v, q, vpn)
  {
    hide Downward, Upward, EntryOk;
    var i, j := Px2(vpn), Px1(vpn);
    LevelsDiffer(v, q, i, j);
    assert v'.tab[q] == v.tab[q];
    assert MidAt(v', q, i) == MidAt(v, q, i);
    assert LowAt(v', q, i, j) == LowAt(v, q, i, j);
  }

  lemma AllocTouches(v: Vm, r: nat)
    requires v.free != []
    ensures Touches(v, Alloc(v), r, {v.free[0]})
  {
  }

  lemma FreeTouches(v: Vm, r: nat, f: nat)
    ensures Touches(v, Free(v, f), r, {f})
  {
  }

  /** Only page-table pages of the address space under r were added; nothing is seen of it. */
  ghost predicate Grown(v: Vm, v': Vm, r: nat)
  {
    && (forall f :: f in v.owner ==> f in v'.owner && v'.owner[f] == v.owner[f])
    && (forall f :: f in v.owner && f in v.data && !IsTable(v.owner[f]) ==> f in v'.data && v'.data[f] == v.data[f])
    && (forall f :: f in v.owner && f in v.tab && !Of(v.owner[f], r) ==> f in v'.tab && v'.tab[f] == v.tab[f])
    && (forall f :: f in v'.owner && f !in v.owner ==> Of(v'.owner[f], r) && IsTable(v'.owner[f]))
    && (forall w: nat :: Lookup(v', r, w) == Lookup(v, r, w))
  }

  lemma GrownTransitive(v: Vm, v1: Vm, v2: Vm, r: nat)
    requires Grown(v, v1, r) && Grown(v1, v2, r)
    ensures Grown(v, v2, r)
  {
    hide Lookup;
  }

  lemma GrownTouches(v: Vm, v': Vm, pool: set<nat>, r: nat)
    requires Inv(v, pool) && IsRoot(v, r) && Grown(v, v', r)
    ensures Touches(v, v', r, {}) && Outside(v, v', r, 0, 0) && IsRoot(v', r)
  {
    hide Lookup, Downward, Upward, Shaped;
    forall w: nat | w < TRAPFRAME
      ensures See(v', r, w) == See(v, r, w)
    {
      assert Lookup(v', r, w) == Lookup(v, r, w);
    }
  }

  /** A free frame becomes a table on the path to a page. */
  ghost function NewMid(v: Vm, r: nat, i: nat): (v': Vm)
    requires v.free != [] && r in v.tab && i < |v.tab[r]|
  {
    MakeTable(Alloc(v), r, i, v.free[0], Mid(r, i))
  }

  ghost function NewLow(v: Vm, r: nat, i: nat, j: nat, m: nat): (v': Vm)
    requires v.free != [] && m in v.tab && j < |v.tab[m]|
  {
    MakeTable(Alloc(v), m, j, v.free[0], Low(r, i, j))
  }

  lemma NewMidGrown(v: Vm, pool: set<nat>, r: nat, i: nat)
    requires Inv(v, pool) && v.free != [] && IsRoot(v, r) && i < ENTRIES && MidAt(v, r, i) == Invalid
    ensures r in v.tab && i < |v.tab[r]| && Inv(NewMid(v, r, i), pool)
    ensures Grown(v, NewMid(v, r, i), r) && MidAt(NewMid(v, r, i), r, i) == Table(v.free[0])
  {
    hide Lookup, MidAt, LowAt, Downward, Upward, Leaves;
    AllocKeeps(v, pool);
    SameTables(v, Alloc(v));
    MakeMidKeeps(Alloc(v), pool, r, i, v.free[0]);
  }

  lemma NewLowGrown(v: Vm, pool: set<nat>, r: nat, i: nat, j: nat, m: nat)
    requires Inv(v, pool) && v.free != [] && IsRoot(v, r) && j < ENTRIES && MidAt(v, r, i) == Table(m)
        && LowAt(v, r, i, j) == Invalid
    ensures m in v.tab && j < |v.tab[m]| && Inv(NewLow(v, r, i, j, m), pool)
    ensures Grown(v, NewLow(v, r, i, j, m), r) && LowAt(NewLow(v, r, i, j, m), r, i, j) == Table(v.free[0])
  {
    hide Lookup, MidAt, LowAt, Downward, Upward, Leaves;
    AllocKeeps(v, pool);
    SameTables(v, Alloc(v));
    LevelsDiffer(v, r, i, j);
    MakeLowKeeps(Alloc(v), pool, r, i, j, v.free[0]);
  }

  /** Every page of the address space outside lo..hi is as before, and so are the entries above. */
  ghost predicate Outside(v: Vm, v': Vm, r: nat, lo: nat, hi: nat)
  {
    && (forall w: nat :: w < TRAPFRAME && !(lo <= w < hi) ==> See(v', r, w) == See(v, r, w))
    && (forall w: nat :: w >= TRAPFRAME && !(lo <= w < hi) ==> Lookup(v', r, w) == Lookup(v, r, w))
  }

  lemma OutsideTransitive(v: Vm, v1: Vm, v2: Vm, r: nat, lo: nat, hi: nat)
    requires Outside(v, v1, r, lo, hi) && Outside(v1, v2, r, lo, hi)
    ensures Outside(v, v2, r, lo, hi)
  {
    hide See, Lookup;
  }

  lemma EntryIs(v: Vm, r: nat, vpn: nat, h: nat)
    requires HasEntry(v, r, vpn, h)
    ensures h in v.tab && |v.tab[h]| == ENTRIES && Lookup(v, r, vpn) == v.tab[h][Px0(vpn)]
  {
  }

  /** mappages, after walk: the entry is set. */
  ghost function PutLeaf(v: Vm, r: nat, vpn: nat, h: nat, f: nat, perm: Perm): (v': Vm)
    requires HasEntry(v, r, vpn, h)
  {
    if vpn < TRAPFRAME then PutPage(v, r, vpn, h, f, perm) else SetEntry(v, h, Px0(vpn), Leaf(f, perm))
  }

  lemma OutsideWider(v: Vm, v': Vm, r: nat, lo: nat, hi: nat, lo': nat, hi': nat)
    requires Outside(v, v', r, lo, hi) && (lo == hi || lo' <= lo <= hi <= hi')
    ensures Outside(v, v', r, lo', hi')
  {
    hide See, Lookup;
  }

  // ---- unmapping ----

  /** The frames of the user pages lo..hi. */
  ghost function PagesIn(v: Vm, r: nat, lo: nat, hi: nat): (s: set<nat>)
  {
    set f | f in v.owner && v.owner[f].Page? && v.owner[f].root == r && lo <= v.owner[f].vpn < hi
  }

  /** uvmunmap with do_free: pages lo..hi are gone, their frames and no others are free again. */
  ghost predicate Dropped(v: Vm, v': Vm, r: nat, lo: nat, hi: nat)
  {
    && Touches(v, v', r, {}) && Outside(v, v', r, lo, hi) && v'.owner == v.owner - PagesIn(v, r, lo, hi)
    && (forall w: nat :: lo <= w < hi ==> !Lookup(v', r, w).Leaf?)
  }

  lemma NothingUnmapped(v: Vm, r: nat, lo: nat)
    ensures Dropped(v, v, r, lo, lo)
  {
    assert PagesIn(v, r, lo, lo) == {};
  }

  /** Page k has no frame. */
  lemma SkipPage(v0: Vm, v: Vm, pool: set<nat>, r: nat, lo: nat, k: nat)
    requires Inv(v0, pool) && IsRoot(v0, r) && Dropped(v0, v, r, lo, k) && lo <= k < TRAPFRAME && !Lookup(v, r, k).Leaf?
    ensures Dropped(v0, v, r, lo, k + 1)
  {
    hide Lookup, Downward, Upward, Shaped, Touches;
    assert See(v, r, k) == See(v0, r, k);
    assert PagesIn(v0, r, lo, k + 1) == PagesIn(v0, r, lo, k);
    OutsideWider(v0, v, r, lo, k, lo, k + 1);
  }

  lemma DropStep(v: Vm, pool: set<nat>, r: nat, k: nat, h: nat)
    requires Inv(v, pool) && IsRoot(v, r) && HasEntry(v, r, k, h) && k < TRAPFRAME && Lookup(v, r, k).Leaf?
    ensures var w := DropPage(v, r, k, h);
            && Inv(w, pool) && IsRoot(w, r) && Touches(v, w, r, {}) && Outside(v, w, r, k, k + 1)
               && Lookup(w, r, k) == Invalid
            && Lookup(v, r, k).frame in v.owner && v.owner[Lookup(v, r, k).frame] == Page(r, k)
               && w.owner == v.owner - {Lookup(v, r, k).frame}
  {
    hide Downward, Upward, Lookup;
    DropPageKeeps(v, pool, r, k, h);
    HasEntryOwner(v, r, k, h);
    DropOutside(v, pool, r, k, h);
  }

  lemma DropOutside(v: Vm, pool: set<nat>, r: nat, k: nat, h: nat)
    requires Inv(v, pool) && IsRoot(v, r) && HasEntry(v, r, k, h) && k < TRAPFRAME && Lookup(v, r, k).Leaf?
    requires forall w: nat :: Lookup(DropPage(v, r, k, h), r, w) == if w == k then Invalid else Lookup(v, r, w)
    ensures Outside(v, DropPage(v, r, k, h), r, k, k + 1)
  {
    hide Downward, Upward, Lookup, Shaped, HasEntry;
    var v' := DropPage(v, r, k, h);
    forall w: nat | w < TRAPFRAME && w != k
      ensures See(v', r, w) == See(v, r, w)
    {
      assert Lookup(v', r, w) == Lookup(v, r, w);
    }
  }

  /** The frame of page k is freed. */
  lemma UnmapPage(v0: Vm, v: Vm, pool: set<nat>, r: nat, lo: nat, k: nat, h: nat)
    requires Inv(v0, pool) && IsRoot(v0, r) && Dropped(v0, v, r, lo, k) && lo <= k < TRAPFRAME
    requires Inv(v, pool) && IsRoot(v, r) && HasEntry(v, r, k, h) && Lookup(v, r, k).Leaf?
    ensures Inv(DropPage(v, r, k, h), pool) && IsRoot(DropPage(v, r, k, h), r)
        && Dropped(v0, DropPage(v, r, k, h), r, lo, k + 1)
  {
    hide Inv, Lookup, Touches, HasEntry, DropPage, Outside;
    var w := DropPage(v, r, k, h);
    DropStep(v, pool, r, k, h);
    TouchesTransitive(v0, v, w, r, {});
    OutsideWider(v0, v, r, lo, k, lo, k + 1);
    OutsideWider(v, w, r, k, k + 1, lo, k + 1);
    OutsideTransitive(v0, v, w, r, lo, k + 1);
    var f := Lookup(v, r, k).frame;
    OnePage(v0, pool, r, lo, k, f);
    forall x: nat | lo <= x < k + 1
      ensures !Lookup(w, r, x).Leaf?
    {
      if x < k {
        StaysInvalid(v, w, r, k, x);
      }
    }
  }

  lemma StaysInvalid(v: Vm, w: Vm, r: nat, k: nat, x: nat)
    requires Outside(v, w, r, k, k + 1) && x < k < TRAPFRAME && !Lookup(v, r, x).Leaf?
    ensures !Lookup(w, r, x).Leaf?
  {
    hide Lookup;
    assert See(w, r, x) == See(v, r, x);
  }

  lemma OnePage(v: Vm, pool: set<nat>, r: nat, lo: nat, k: nat, f: nat)
    requires Inv(v, pool) && f in v.owner && v.owner[f] == Page(r, k) && lo <= k
    ensures PagesIn(v, r, lo, k + 1) == PagesIn(v, r, lo, k) + {f}
  {
    hide Downward, Upward, Lookup, Shaped;
  }

  // ---- adding fresh pages ----

  datatype Pg = Pg(perm: Perm, contents: Contents)

  /** The address space under r gained exactly the pages in `want`, on frames that had no role, and
      page-table pages. No frame that had a role changed. */
  ghost predicate Gained(v: Vm, v': Vm, r: nat, want: map<nat, Pg>)
  {
    && KeptFrames(v, v', r)
    && (forall f :: f in v'.owner && f !in v.owner ==>
       Of(v'.owner[f], r) && (v'.owner[f].Page? ==> v'.owner[f].vpn in want))
    && (forall w: nat :: w !in want ==> Lookup(v', r, w) == Lookup(v, r, w))
    && (forall w: nat :: w in want ==> Fresh(v, v', Lookup(v', r, w), want[w]))
  }

  /** Frames with a role keep it, with their contents; tables outside r's tree are as before. */
  ghost predicate KeptFrames(v: Vm, v': Vm, r: nat)
  {
    && (forall f :: f in v.owner ==> f in v'.owner && v'.owner[f] == v.owner[f])
    && (forall f :: f in v.owner && f in v.data && !IsTable(v.owner[f]) ==> f in v'.data && v'.data[f] == v.data[f])
    && (forall f :: f in v.owner && f in v.tab && !Of(v.owner[f], r) ==> f in v'.tab && v'.tab[f] == v.tab[f])
  }

  lemma KeptTransitive(v: Vm, v1: Vm, v2: Vm, r: nat)
    requires KeptFrames(v, v1, r) && KeptFrames(v1, v2, r)
    ensures KeptFrames(v, v2, r) && forall f :: f in v.owner ==> f in v1.owner && f in v2.owner
  {
  }

  lemma FreshKept(v: Vm, v1: Vm, v2: Vm, r: nat, p: Pte, pg: Pg)
    requires KeptFrames(v1, v2, r) && Fresh(v, v1, p, pg)
    ensures Fresh(v, v2, p, pg)
  {
  }

  ghost predicate Fresh(v: Vm, v': Vm, p: Pte, pg: Pg)
  {
    && p.Leaf? && p.perm == pg.perm && p.frame !in v.owner && p.frame in v'.owner && v'.owner[p.frame].Page?
    && p.frame in v'.data && v'.data[p.frame] == pg.contents
  }

  lemma GrownGained(v: Vm, v': Vm, r: nat)
    requires Grown(v, v', r)
    ensures Gained(v, v', r, map[])
  {
  }

  lemma GainedMore(v: Vm, v1: Vm, v2: Vm, r: nat, want: map<nat, Pg>, more: map<nat, Pg>)
    requires Gained(v, v1, r, want) && Gained(v1, v2, r, more) && want.Keys !! more.Keys
    ensures Gained(v, v2, r, want + more)
  {
    hide Lookup, KeptFrames, Fresh;
    KeptTransitive(v, v1, v2, r);
    RolesMore(v, v1, v2, r, want, more);
    forall w: nat | w in want + more
      ensures Fresh(v, v2, Lookup(v2, r, w), (want + more)[w])
    {
      if w in more {
        FreshEarlier(v, v1, v2, r, Lookup(v2, r, w), more[w]);
      } else {
        FreshKept(v, v1, v2, r, Lookup(v1, r, w), want[w]);
      }
    }
  }

  lemma FreshEarlier(v: Vm, v1: Vm, v2: Vm, r: nat, p: Pte, pg: Pg)
    requires KeptFrames(v, v1, r) && Fresh(v1, v2, p, pg)
    ensures Fresh(v, v2, p, pg)
  {
  }

  lemma RolesMore(v: Vm, v1: Vm, v2: Vm, r: nat, want: map<nat, Pg>, more: map<nat, Pg>)
    requires Gained(v, v1, r, want) && Gained(v1, v2, r, more)
    ensures forall f :: f in v2.owner && f !in v.owner ==>
        Of(v2.owner[f], r) && (v2.owner[f].Page? ==> v2.owner[f].vpn in want + more)
  {
    hide Lookup, Fresh;
  }

  lemma GainedTouches(v: Vm, v': Vm, r: nat, want: map<nat, Pg>)
    requires Gained(v, v', r, want)
    ensures Touches(v, v', r, {}) && (IsRoot(v, r) ==> IsRoot(v', r))
  {
    hide Lookup, Fresh;
  }

  /** Dropping what was gained leaves at most new page-table pages behind. */
  lemma GainedThenDropped(v: Vm, v1: Vm, v2: Vm, pool: set<nat>, r: nat, want: map<nat, Pg>, lo: nat, hi: nat)
    requires Inv(v, pool) && Inv(v1, pool) && Inv(v2, pool) && IsRoot(v, r) && IsRoot(v1, r) && IsRoot(v2, r)
    requires Gained(v, v1, r, want) && Dropped(v1, v2, r, lo, hi) && hi <= TRAPFRAME
    requires (forall w :: w in want ==> lo <= w < hi) && (forall w: nat :: lo <= w < hi ==> !Lookup(v, r, w).Leaf?)
    ensures Grown(v, v2, r)
  {
    hide Lookup, Inv, Outside, Fresh;
    NoPagesIn(v, pool, r, lo, hi);
    forall w: nat
      ensures Lookup(v2, r, w) == Lookup(v, r, w)
    {
      BackToLookup(v, v1, v2, pool, r, want, lo, hi, w);
    }
    forall f | f in v.owner && f in v.data && !IsTable(v.owner[f])
      ensures f in v2.data && v2.data[f] == v.data[f]
    {
      if Of(v.owner[f], r) {
        SeenData(v1, v2, pool, r, lo, hi, f);
      }
    }
  }

  lemma NoPagesIn(v: Vm, pool: set<nat>, r: nat, lo: nat, hi: nat)
    requires Inv(v, pool) && forall w: nat :: lo <= w < hi ==> !Lookup(v, r, w).Leaf?
    ensures forall f :: f in v.owner && v.owner[f].Page? && v.owner[f].root == r ==> !(lo <= v.owner[f].vpn < hi)
  {
    hide Lookup;
  }

  lemma BackToLookup(v: Vm, v1: Vm, v2: Vm, pool: set<nat>, r: nat, want: map<nat, Pg>, lo: nat, hi: nat, w: nat)
    requires Inv(v, pool) && Inv(v1, pool) && Inv(v2, pool) && IsRoot(v, r) && IsRoot(v1, r) && IsRoot(v2, r)
    requires Gained(v, v1, r, want) && Dropped(v1, v2, r, lo, hi) && hi <= TRAPFRAME
    requires (forall w :: w in want ==> lo <= w < hi) && (forall w: nat :: lo <= w < hi ==> !Lookup(v, r, w).Leaf?)
    ensures Lookup(v2, r, w) == Lookup(v, r, w)
  {
    hide Lookup, Inv, Fresh, Touches;
    LookupKind(v, pool, r, w);
    LookupKind(v1, pool, r, w);
    LookupKind(v2, pool, r, w);
    if !(lo <= w < hi) && w < TRAPFRAME {
      assert See(v2, r, w) == See(v1, r, w);
    }
  }

  lemma SeenData(v1: Vm, v2: Vm, pool: set<nat>, r: nat, lo: nat, hi: nat, f: nat)
    requires Inv(v1, pool) && Inv(v2, pool) && Outside(v1, v2, r, lo, hi)
    requires f in v1.owner && v1.owner[f].Page? && v1.owner[f].root == r && !(lo <= v1.owner[f].vpn < hi)
    requires f in v2.owner && v2.owner[f] == v1.owner[f]
    ensures f in v1.data && f in v2.data && v2.data[f] == v1.data[f]
  {
    hide Lookup, Downward, Upward, Shaped;
    var w := v1.owner[f].vpn;
    assert See(v2, r, w) == See(v1, r, w);
  }

  /** mappages succeeded: one more leaf, and page-table pages on the way to it. */
  ghost predicate Placed(v: Vm, v': Vm, r: nat, vpn: nat, f: nat, perm: Perm)
  {
    && (forall g :: g in v.owner && (g != f || vpn >= TRAPFRAME) ==> g in v'.owner && v'.owner[g] == v.owner[g])
    && (forall g :: g in v.owner && g in v.data && !IsTable(v.owner[g]) ==> g in v'.data && v'.data[g] == v.data[g])
    && (forall g :: g in v.owner && g in v.tab && !Of(v.owner[g], r) ==> g in v'.tab && v'.tab[g] == v.tab[g])
    && (forall g :: g in v'.owner && g !in v.owner ==> Of(v'.owner[g], r) && IsTable(v'.owner[g]))
    && (vpn < TRAPFRAME ==> f in v'.owner && v'.owner[f] == Page(r, vpn))
    && (forall w: nat :: Lookup(v', r, w) == if w == vpn then Leaf(f, perm) else Lookup(v, r, w))
  }

  lemma GrownPlaced(v0: Vm, v1: Vm, pool: set<nat>, r: nat, vpn: nat, h: nat, f: nat, perm: Perm)
    requires Grown(v0, v1, r) && Inv(v1, pool) && IsRoot(v1, r)
    requires HasEntry(v1, r, vpn, h) && Lookup(v1, r, vpn) == Invalid && (vpn < TRAPFRAME ==> IsHeld(v0, f))
    ensures var w := PutLeaf(v1, r, vpn, h, f, perm);
            Inv(w, pool) && IsRoot(w, r) && Placed(v0, w, r, vpn, f, perm)
  {
    hide Lookup, Inv, HasEntry, PutLeaf, Placed, LowAt;
    assert vpn < TRAPFRAME ==> IsHeld(v1, f);
    PutLeafKeeps(v1, pool, r, vpn, h, f, perm);
    PutLeafPlaced(v1, pool, r, vpn, h, f, perm);
    GrownThenPlaced(v0, v1, PutLeaf(v1, r, vpn, h, f, perm), r, vpn, f, perm);
  }

  lemma PutLeafKeeps(v: Vm, pool: set<nat>, r: nat, vpn: nat, h: nat, f: nat, perm: Perm)
    requires Inv(v, pool) && IsRoot(v, r)
    requires HasEntry(v, r, vpn, h) && Lookup(v, r, vpn) == Invalid && (vpn < TRAPFRAME ==> IsHeld(v, f))
    ensures var w := PutLeaf(v, r, vpn, h, f, perm);
            Inv(w, pool) && IsRoot(w, r)
                && forall x: nat :: Lookup(w, r, x) == if x == vpn then Leaf(f, perm) else Lookup(v, r, x)
  {
    hide Lookup, Inv, HasEntry, LowAt;
    if vpn < TRAPFRAME {
      PutPageKeeps(v, pool, r, vpn, h, f, perm);
    } else {
      SpecialKeeps(v, pool, r, vpn, h, Leaf(f, perm));
    }
  }

  lemma PutLeafPlaced(v: Vm, pool: set<nat>, r: nat, vpn: nat, h: nat, f: nat, perm: Perm)
    requires Inv(v, pool) && IsRoot(v, r)
    requires HasEntry(v, r, vpn, h) && Lookup(v, r, vpn) == Invalid && (vpn < TRAPFRAME ==> IsHeld(v, f))
    ensures Placed(v, PutLeaf(v, r, vpn, h, f, perm), r, vpn, f, perm)
  {
    hide Lookup, Downward, Upward, Leaves, LowAt;
    HasEntryOwner(v, r, vpn, h);
    PutLeafKeeps(v, pool, r, vpn, h, f, perm);
  }

  lemma GrownThenPlaced(v0: Vm, v1: Vm, v2: Vm, r: nat, vpn: nat, f: nat, perm: Perm)
    requires Grown(v0, v1, r) && Placed(v1, v2, r, vpn, f, perm) && (vpn < TRAPFRAME ==> f in v0.owner)
    ensures Placed(v0, v2, r, vpn, f, perm)
  {
    hide Lookup;
  }

  /** A frame just taken from the free list, filled and mapped. */
  lemma PlacedGained(v: Vm, v1: Vm, v2: Vm, r: nat, vpn: nat, f: nat, perm: Perm, contents: Contents)
    requires v.free != [] && f == v.free[0] && f !in v.owner && v1 == Alloc(v).(data := Alloc(v).data[f := contents])
    requires vpn < TRAPFRAME && Placed(v1, v2, r, vpn, f, perm)
        && (forall w: nat :: Lookup(v1, r, w) == Lookup(v, r, w))
    ensures Gained(v, v2, r, map[vpn := Pg(perm, contents)])
  {
    hide Lookup;
  }

  lemma PlacedSpecial(v: Vm, v': Vm, pool: set<nat>, r: nat, vpn: nat, f: nat, perm: Perm)
    requires Inv(v, pool) && IsRoot(v, r) && Placed(v, v', r, vpn, f, perm) && vpn >= TRAPFRAME
    ensures Touches(v, v', r, {}) && Outside(v, v', r, vpn, vpn + 1) && IsRoot(v', r)
  {
    hide Lookup, Downward, Upward, Shaped;
    forall w: nat | w < TRAPFRAME
      ensures See(v', r, w) == See(v, r, w)
    {
      assert Lookup(v', r, w) == Lookup(v, r, w);
    }
  }

  /** The frame goes back to the free list when mappages could not get a page-table page. */
  lemma FailedGrown(v: Vm, v1: Vm, v2: Vm, r: nat, f: nat)
    requires v.free != [] && f == v.free[0] && f !in v.owner && v1.owner == v.owner[f := Held] && v1.tab == v.tab
    requires (forall g :: g in v.data && g != f ==> g in v1.data && v1.data[g] == v.data[g]) && Grown(v1, v2, r)
    ensures Grown(v, Free(v2, f), r)
  {
    hide Lookup;
    SameTables(v, v1);
    SameTables(v2, Free(v2, f));
  }

  // ---- a whole address space disappears ----

  ghost predicate NoneOf(v: Vm, r: nat)
  {
    forall f :: f in v.owner ==> !Of(v.owner[f], r)
  }

  ghost predicate Vanished(v: Vm, v': Vm, r: nat)
  {
    Touches(v, v', r, {}) && NoneOf(v', r)
  }

  /** Building an address space up from nothing and taking it down again leaves every role, and with
      them the set of free frames, as it was. */
  lemma BackToStart(v: Vm, v': Vm, pool: set<nat>, r: nat)
    requires Inv(v, pool) && Inv(v', pool) && NoneOf(v, r) && Vanished(v, v', r)
    ensures v'.owner == v.owner && forall f :: f in v'.free <==> f in v.free
  {
    hide Shaped, Downward, Upward, Leaves;
    assert forall f :: f in v.owner ==> f in v'.owner && v'.owner[f] == v.owner[f];
    assert forall f :: f in v'.owner ==> f in v.owner;
  }
}
