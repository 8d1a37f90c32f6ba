/** freewalk: taking a page-table tree apart, subtree by subtree. */
module Teardown {
  import opened PageTable
  import opened TableSteps
  import opened Spaces

  /** The role of the table that entry k of a table in role `top` points to. */
  ghost function ChildRole(top: Role, k: nat): (role: Role)
    requires top.Root? || top.Mid?
  {
    if top.Root? then Mid(top.root, k) else Low(top.root, top.i, k)
  }

  /** Tables at or below the place `top`. */
  ghost predicate Inside(role: Role, top: Role)
  {
    || role == top
    || (top.Root? && (role.Mid? || role.Low?) && role.root == top.root)
    || (top.Mid? && role.Low? && role.root == top.root && role.i == top.i)
  }

  /** Tables below one of the first k entries of `top`. */
  ghost predicate Under(role: Role, top: Role, k: nat)
  {
    || (top.Root? && (role.Mid? || role.Low?) && role.root == top.root && role.i < k)
    || (top.Mid? && role.Low? && role.root == top.root && role.i == top.i && role.j < k)
  }

  ghost function Sub(v: Vm, top: Role): (s: set<nat>)
  {
    set f | f in v.owner && Inside(v.owner[f], top)
  }

  ghost function SubUnder(v: Vm, top: Role, k: nat): (s: set<nat>)
  {
    set f | f in v.owner && Under(v.owner[f], top, k)
  }

  ghost predicate NoLeaf(v: Vm, top: Role)
  {
    forall f, k :: f in v.owner && Inside(v.owner[f], top) && f in v.tab && 0 <= k < |v.tab[f]| ==> !v.tab[f][k].Leaf?
  }

  /** Entry k of table p, which led to the subtree `top`, is cleared and the subtree is gone. */
  ghost predicate Cut(v: Vm, v': Vm, p: nat, k: nat, top: Role)
  {
    && p in v.tab && k < |v.tab[p]| && p !in Sub(v, top)
    && v'.owner == v.owner - Sub(v, top) && v'.tab == (v.tab - Sub(v, top))[p := v.tab[p][k := Invalid]]
  }

  /** Two frames in the same place of the tree are the same. */
  lemma PlaceUnique(v: Vm, f: nat, g: nat)
    requires Upward(v) && Shaped(v) && f in v.owner && g in v.owner && v.owner[f] == v.owner[g] && IsTable(v.owner[f])
    ensures f == g
  {
  }

  ghost predicate ChildAt(v: Vm, p: nat, k: nat, t: nat)
  {
    && p in v.owner && (v.owner[p].Root? || v.owner[p].Mid?) && p in v.tab && k < |v.tab[p]| && v.tab[p][k] == Table(t)
    && t in v.owner && v.owner[t] == ChildRole(v.owner[p], k)
  }

  /** Only the entry that is cut leads into the subtree from outside. */
  lemma WayIn(v: Vm, p: nat, k: nat, t: nat, f: nat, m: nat)
    requires Shaped(v) && Downward(v) && Upward(v) && ChildAt(v, p, k, t)
    requires f in v.tab && f in v.owner && m < |v.tab[f]| && v.tab[f][m].Table? && EntryOk(v, f, m)
    requires !Inside(v.owner[f], v.owner[t]) && v.tab[f][m].frame in v.owner
        && Inside(v.owner[v.tab[f][m].frame], v.owner[t])
    ensures f == p && m == k
  {
    hide MidAt, LowAt;
    PlaceUnique(v, f, p);
  }

  lemma CutDownward(v: Vm, v': Vm, p: nat, k: nat, t: nat)
    requires Shaped(v) && Downward(v) && Upward(v) && ChildAt(v, p, k, t) && Cut(v, v', p, k, v.owner[t])
    ensures Shaped(v') && Downward(v')
  {
    hide MidAt, LowAt, Upward;
    var top := v.owner[t];
    forall f, m | f in v'.tab && f in v'.owner && 0 <= m < |v'.tab[f]|
      ensures v'.tab[f][m].Invalid? || EntryOk(v', f, m)
    {
      assert v.tab[f][m].Invalid? || EntryOk(v, f, m);
      if v.tab[f][m].Table? && v.tab[f][m].frame in v.owner && Inside(v.owner[v.tab[f][m].frame], top) {
        WayIn(v, p, k, t, f, m);
      }
    }
  }

  lemma CutUpward(v: Vm, v': Vm, p: nat, k: nat, t: nat)
    requires Shaped(v) && Downward(v) && Upward(v) && ChildAt(v, p, k, t) && Cut(v, v', p, k, v.owner[t])
    ensures Upward(v')
  {
    var top := v.owner[t];
    forall f | f in v'.owner
      ensures match v'.owner[f]
              case Mid(r, i) => IsRoot(v', r) && MidAt(v', r, i) == Table(f)
              case Low(r, i, j) => IsRoot(v', r) && LowAt(v', r, i, j) == Table(f)
              case _ => true
    {
      match v'.owner[f]
      case Mid(r, i) =>
        assert MidAt(v, r, i) == Table(f);
      case Low(r, i, j) =>
        assert LowAt(v, r, i, j) == Table(f);
        LevelsDiffer(v, r, i, j);
      case _ =>
    }
  }

  lemma CutLookup(v: Vm, v': Vm, p: nat, k: nat, t: nat, r: nat, vpn: nat)
    requires Shaped(v) && Downward(v) && Upward(v) && ChildAt(v, p, k, t) && Cut(v, v', p, k, v.owner[t])
        && NoLeaf(v, v.owner[t])
    requires IsRoot(v, r)
    ensures Lookup(v', r, vpn) == Lookup(v, r, vpn) || (Lookup(v', r, vpn) == Invalid && !Lookup(v, r, vpn).Leaf?)
  {
    var top := v.owner[t];
    var i, j := Px2(vpn), Px1(vpn);
    LevelsDiffer(v, r, i, j);
    if Lookup(v, r, vpn).Leaf? {
      var m, h := MidAt(v, r, i).frame, LowAt(v, r, i, j).frame;
      assert !Inside(v.owner[h], top);
      assert !Inside(v.owner[m], top) && !Inside(v.owner[r], top);
      assert p != h;
    }
  }

  lemma CutLeaves(v: Vm, v': Vm, p: nat, k: nat, t: nat)
    requires Shaped(v) && Downward(v) && Upward(v) && Leaves(v)
    requires ChildAt(v, p, k, t) && Cut(v, v', p, k, v.owner[t]) && NoLeaf(v, v.owner[t])
    ensures Leaves(v')
  {
    hide Lookup, Shaped, Downward, Upward, NoLeaf;
    forall r, vpn: nat | IsRoot(v', r) && vpn < TRAPFRAME && Lookup(v', r, vpn).Leaf?
      ensures Lookup(v', r, vpn).frame in v'.owner && v'.owner[Lookup(v', r, vpn).frame] == Page(r, vpn)
    {
      CutLookup(v, v', p, k, t, r, vpn);
    }
    forall f | f in v'.owner && v'.owner[f].Page?
      ensures IsRoot(v', v'.owner[f].root) && v'.owner[f].vpn < TRAPFRAME
      ensures Lookup(v', v'.owner[f].root, v'.owner[f].vpn).Leaf?
          && Lookup(v', v'.owner[f].root, v'.owner[f].vpn).frame == f
    {
      CutLookup(v, v', p, k, t, v.owner[f].root, v.owner[f].vpn);
    }
  }

  lemma CutKeeps(v: Vm, v': Vm, pool: set<nat>, p: nat, k: nat, t: nat)
    requires Inv(v, pool) && ChildAt(v, p, k, t) && Cut(v, v', p, k, v.owner[t]) && NoLeaf(v, v.owner[t])
        && Pooled(v', pool)
    ensures Inv(v', pool)
  {
    hide Shaped, Downward, Upward, Leaves, NoLeaf, Cut;
    CutDownward(v, v', p, k, t);
    CutUpward(v, v', p, k, t);
    CutLeaves(v, v', p, k, t);
  }

  // ---- the loop of freewalk ----

  ghost function Blanked(s: seq<Pte>, k: nat): (r: seq<Pte>)
  {
    seq(|s|, i requires 0 <= i < |s| => if i < k then Invalid else s[i])
  }

  ghost predicate SameData(v: Vm, v': Vm, s: set<nat>)
  {
    forall f :: f in v.data && f !in s ==> f in v'.data && v'.data[f] == v.data[f]
  }

  /** The subtrees under the first k entries of table t are gone. */
  ghost predicate Taking(v0: Vm, v: Vm, t: nat, k: nat)
  {
    && t in v0.owner && IsTable(v0.owner[t]) && t in v0.tab && t in v.owner && v.owner[t] == v0.owner[t]
    && v.owner == v0.owner - SubUnder(v0, v0.owner[t], k)
    && v.tab == (v0.tab - SubUnder(v0, v0.owner[t], k))[t := Blanked(v0.tab[t], k)]
    && SameData(v0, v, Sub(v0, v0.owner[t]))
  }

  /** The whole subtree `top` is gone; the entry that led to it is not cleared yet. */
  ghost predicate Gone(v0: Vm, v: Vm, pool: set<nat>, top: Role)
  {
    && v.owner == v0.owner - Sub(v0, top) && v.tab == v0.tab - Sub(v0, top) && SameData(v0, v, Sub(v0, top))
    && Pooled(v, pool)
  }

  lemma TakingStarts(v: Vm, pool: set<nat>, t: nat)
    requires Inv(v, pool) && t in v.owner && IsTable(v.owner[t])
    ensures Taking(v, v, t, 0)
  {
    hide Downward, Upward, Leaves;
    assert SubUnder(v, v.owner[t], 0) == {};
    assert Blanked(v.tab[t], 0) == v.tab[t];
  }

  lemma UnderStep(v: Vm, top: Role, k: nat)
    requires top.Root? || top.Mid?
    ensures SubUnder(v, top, k + 1) == SubUnder(v, top, k) + Sub(v, ChildRole(top, k))
    ensures SubUnder(v, top, k) !! Sub(v, ChildRole(top, k))
  {
  }

  lemma LowHasNone(v: Vm, top: Role, k: nat)
    requires top.Low?
    ensures SubUnder(v, top, k) == {}
  {
  }

  /** A subtree hangs from its entry. */
  lemma SubtreeEntry(v: Vm, pool: set<nat>, t: nat, k: nat, f: nat)
    requires Inv(v, pool) && t in v.owner && (v.owner[t].Root? || v.owner[t].Mid?) && f in v.owner
    requires Inside(v.owner[f], ChildRole(v.owner[t], k))
    ensures t in v.tab && k < |v.tab[t]| && v.tab[t][k].Table?
  {
    hide Leaves, Pooled;
    match v.owner[f]
    case Mid(r, i) =>
      assert MidAt(v, r, i) == Table(f);
    case Low(r, i, j) =>
      assert LowAt(v, r, i, j) == Table(f);
      LevelsDiffer(v, r, i, j);
      if v.owner[t].Mid? {
        PlaceUnique(v, MidAt(v, r, i).frame, t);
      }
    case _ =>
  }

  lemma NoSubtree(v: Vm, pool: set<nat>, t: nat, k: nat)
    requires Inv(v, pool) && t in v.owner && (v.owner[t].Root? || v.owner[t].Mid?) && t in v.tab && k < |v.tab[t]|
        && v.tab[t][k].Invalid?
    ensures Sub(v, ChildRole(v.owner[t], k)) == {}
  {
    hide Inv;
    if Sub(v, ChildRole(v.owner[t], k)) != {} {
      var f :| f in Sub(v, ChildRole(v.owner[t], k));
      SubtreeEntry(v, pool, t, k, f);
      assert false;
    }
  }

  lemma SkipEntry(v0: Vm, v: Vm, pool: set<nat>, t: nat, k: nat)
    requires Inv(v0, pool) && Taking(v0, v, t, k) && k < |v0.tab[t]| && v0.tab[t][k].Invalid?
    ensures Taking(v0, v, t, k + 1)
  {
    hide Inv, Sub, SubUnder, SameData;
    var top := v0.owner[t];
    if top.Low? {
      LowHasNone(v0, top, k);
      LowHasNone(v0, top, k + 1);
    } else {
      NoSubtree(v0, pool, t, k);
      UnderStep(v0, top, k);
    }
    assert Blanked(v0.tab[t], k + 1) == Blanked(v0.tab[t], k);
  }

  /** The subtree of entry k was freed and the entry is cleared. */
  lemma TakeEntry(v0: Vm, v: Vm, w: Vm, pool: set<nat>, t: nat, k: nat, g: nat)
    requires Inv(v0, pool) && Inv(v, pool) && Taking(v0, v, t, k) && ChildAt(v, t, k, g) && NoLeaf(v, v.owner[g])
    requires Gone(v, w, pool, v.owner[g])
    ensures t in w.tab && k < |w.tab[t]|
    ensures var x := w.(tab := w.tab[t := w.tab[t][k := Invalid]]); Inv(x, pool) && Taking(v0, x, t, k + 1)
  {
    hide Inv, NoLeaf, Pooled;
    var top, child := v0.owner[t], v.owner[g];
    UnderStep(v0, top, k);
    SubLater(v0, v, t, k);
    var x := w.(tab := w.tab[t := w.tab[t][k := Invalid]]);
    assert t !in Sub(v, child);
    assert Cut(v, x, t, k, child);
    PoolOf(w, x, pool);
    CutKeeps(v, x, pool, t, k, g);
    assert Blanked(v0.tab[t], k + 1) == Blanked(v0.tab[t], k)[k := Invalid];
    InsideChild(v0, top, k);
  }

  lemma SubLater(v0: Vm, v: Vm, t: nat, k: nat)
    requires Taking(v0, v, t, k) && (v0.owner[t].Root? || v0.owner[t].Mid?)
    ensures Sub(v, ChildRole(v0.owner[t], k)) == Sub(v0, ChildRole(v0.owner[t], k))
  {
    hide SameData, Blanked;
    UnderStep(v0, v0.owner[t], k);
  }

  lemma PoolOf(w: Vm, x: Vm, pool: set<nat>)
    requires Pooled(w, pool) && x.owner == w.owner && x.free == w.free && x.data == w.data
    ensures Pooled(x, pool)
  {
  }

  lemma InsideChild(v: Vm, top: Role, k: nat)
    requires top.Root? || top.Mid?
    ensures Sub(v, ChildRole(top, k)) <= Sub(v, top)
  {
  }

  /** All entries are empty and the table itself is freed. */
  ghost function TableFreed(v: Vm, t: nat): (w: Vm)
  {
    v.(free := [t] + v.free, tab := v.tab - {t}, data := v.data[t := Filled(1)], owner := v.owner - {t})
  }

  lemma AllUnder(v: Vm, pool: set<nat>, t: nat)
    requires Inv(v, pool) && t in v.owner && IsTable(v.owner[t])
    ensures Sub(v, v.owner[t]) == SubUnder(v, v.owner[t], ENTRIES) + {t}
  {
    hide Leaves, Pooled;
    var top := v.owner[t];
    forall f | f in v.owner && Inside(v.owner[f], top)
      ensures f == t || Under(v.owner[f], top, ENTRIES)
    {
      if v.owner[f] == top {
        PlaceUnique(v, f, t);
      } else if v.owner[f].Low? {
        LevelsDiffer(v, v.owner[f].root, v.owner[f].i, v.owner[f].j);
      }
    }
  }

  lemma TakingEnds(v0: Vm, v: Vm, pool: set<nat>, t: nat)
    requires Inv(v0, pool) && Inv(v, pool) && Taking(v0, v, t, ENTRIES)
    ensures Gone(v0, TableFreed(v, t), pool, v0.owner[t])
  {
    hide Shaped, Downward, Upward, Leaves, Sub, SubUnder;
    AllUnder(v0, pool, t);
  }

  lemma EntryOfTaking(v0: Vm, v: Vm, pool: set<nat>, t: nat, k: nat)
    requires Inv(v0, pool) && Inv(v, pool) && Taking(v0, v, t, k) && k < ENTRIES && NoLeaf(v0, v0.owner[t])
    ensures t in v.tab && |v.tab[t]| == |v0.tab[t]| == ENTRIES && v.tab[t][k] == v0.tab[t][k] && !v.tab[t][k].Leaf?
    ensures v.tab[t][k].Table? ==> ChildAt(v, t, k, v.tab[t][k].frame) && IsTable(v.owner[v.tab[t][k].frame])
  {
    hide Upward, Leaves, Pooled, SubUnder, Sub;
    assert Inside(v0.owner[t], v0.owner[t]);
    if v.tab[t][k].Table? {
      assert EntryOk(v, t, k);
    }
  }

  lemma NoLeafBelow(v0: Vm, v: Vm, t: nat, k: nat, g: nat)
    requires Taking(v0, v, t, k) && NoLeaf(v0, v0.owner[t]) && ChildAt(v, t, k, g)
    ensures NoLeaf(v, v.owner[g])
  {
    hide Blanked, SameData, SubUnder, Sub;
    forall f, m | f in v.owner && Inside(v.owner[f], v.owner[g]) && f in v.tab && 0 <= m < |v.tab[f]|
      ensures !v.tab[f][m].Leaf?
    {
      assert f != t;
      assert Inside(v0.owner[f], v0.owner[t]);
    }
  }

  /** Levels below a table. */
  ghost function Depth(role: Role): (n: nat)
  {
    if role.Root? then 2 else if role.Mid? then 1 else 0
  }

  /** No leaf is found from r, so none is in its tables. */
  lemma NothingMapped(v: Vm, pool: set<nat>, r: nat)
    requires Inv(v, pool) && IsRoot(v, r) && forall vpn: nat :: !Lookup(v, r, vpn).Leaf?
    ensures NoLeaf(v, Root(r))
  {
    hide Leaves, Pooled;
    forall f, k | f in v.owner && Inside(v.owner[f], Root(r)) && f in v.tab && 0 <= k < |v.tab[f]|
      ensures !v.tab[f][k].Leaf?
    {
      assert v.tab[f][k].Invalid? || EntryOk(v, f, k);
      if v.owner[f].Low? {
        var i, j := v.owner[f].i, v.owner[f].j;
        LevelsDiffer(v, r, i, j);
        var vpn := (i * ENTRIES + j) * ENTRIES + k;
        PxOf(i, j, k);
        assert Lookup(v, r, vpn) == v.tab[f][k];
      }
    }
  }

  lemma PxOf(i: nat, j: nat, k: nat)
    requires j < ENTRIES && k < ENTRIES
    ensures var vpn := (i * ENTRIES + j) * ENTRIES + k; Px2(vpn) == i && Px1(vpn) == j && Px0(vpn) == k
  {
  }

  lemma RootGoneShape(v: Vm, w: Vm, pool: set<nat>, r: nat)
    requires Inv(v, pool) && IsRoot(v, r) && Gone(v, w, pool, Root(r))
    ensures Shaped(w) && Downward(w)
  {
    hide Leaves, Pooled, SameData, MidAt, LowAt;
    forall f, k | f in w.tab && f in w.owner && 0 <= k < |w.tab[f]|
      ensures w.tab[f][k].Invalid? || EntryOk(w, f, k)
    {
      assert v.tab[f][k].Invalid? || EntryOk(v, f, k);
    }
  }

  lemma RootGoneLookup(v: Vm, w: Vm, pool: set<nat>, r: nat, q: nat, i: nat, j: nat)
    requires Inv(v, pool) && IsRoot(v, r) && Gone(v, w, pool, Root(r)) && IsRoot(v, q) && q != r
    ensures IsRoot(w, q) && MidAt(w, q, i) == MidAt(v, q, i) && LowAt(w, q, i, j) == LowAt(v, q, i, j)
    ensures forall vpn: nat :: Px2(vpn) == i && Px1(vpn) == j ==> Lookup(w, q, vpn) == Lookup(v, q, vpn)
  {
    hide Leaves, Pooled, SameData, Downward, Upward;
    LevelsDiffer(v, q, i, j);
  }

  lemma RootGoneUpward(v: Vm, w: Vm, pool: set<nat>, r: nat)
    requires Inv(v, pool) && IsRoot(v, r) && Gone(v, w, pool, Root(r))
    ensures Upward(w)
  {
    hide Leaves, Pooled, SameData, MidAt, LowAt, Downward;
    forall f | f in w.owner
      ensures match w.owner[f]
              case Mid(q, i) => IsRoot(w, q) && MidAt(w, q, i) == Table(f)
              case Low(q, i, j) => IsRoot(w, q) && LowAt(w, q, i, j) == Table(f)
              case _ => true
    {
      match w.owner[f]
      case Mid(q, i) => RootGoneLookup(v, w, pool, r, q, i, 0);
      case Low(q, i, j) => RootGoneLookup(v, w, pool, r, q, i, j);
      case _ =>
    }
  }

  lemma RootGoneLeaves(v: Vm, w: Vm, pool: set<nat>, r: nat)
    requires Inv(v, pool) && IsRoot(v, r) && Gone(v, w, pool, Root(r)) && forall vpn: nat :: !Lookup(v, r, vpn).Leaf?
    ensures Leaves(w)
  {
    hide Pooled, SameData, Lookup, Downward, Upward;
    forall q, vpn: nat | IsRoot(w, q) && vpn < TRAPFRAME && Lookup(w, q, vpn).Leaf?
      ensures Lookup(w, q, vpn).frame in w.owner && w.owner[Lookup(w, q, vpn).frame] == Page(q, vpn)
    {
      RootGoneLookup(v, w, pool, r, q, Px2(vpn), Px1(vpn));
    }
    forall f | f in w.owner && w.owner[f].Page?
      ensures IsRoot(w, w.owner[f].root) && w.owner[f].vpn < TRAPFRAME
      ensures Lookup(w, w.owner[f].root, w.owner[f].vpn).Leaf? && Lookup(w, w.owner[f].root, w.owner[f].vpn).frame == f
    {
      assert v.owner[f].root != r;
      RootGoneLookup(v, w, pool, r, v.owner[f].root, Px2(v.owner[f].vpn), Px1(v.owner[f].vpn));
    }
  }

  /** freewalk on a root without leaves: the address space is gone, everything else is as before. */
  lemma RootGone(v: Vm, w: Vm, pool: set<nat>, r: nat)
    requires Inv(v, pool) && IsRoot(v, r) && Gone(v, w, pool, Root(r)) && forall vpn: nat :: !Lookup(v, r, vpn).Leaf?
    ensures Inv(w, pool) && Vanished(v, w, r)
  {
    hide Pooled, Lookup, Downward, Upward, Shaped;
    RootGoneShape(v, w, pool, r);
    RootGoneUpward(v, w, pool, r);
    RootGoneLeaves(v, w, pool, r);
    forall f | f in w.owner
      ensures !Of(w.owner[f], r)
    {
      assert v.owner[f].Page? ==> Lookup(v, v.owner[f].root, v.owner[f].vpn).Leaf?;
    }
  }
}
