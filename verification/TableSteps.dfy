/** Steps on page tables: adding tables, setting and clearing leaves. Each keeps the invariant and
    changes the flat map from pages to leaves only where it says. */
module TableSteps {
  import opened PageTable

  function Empty(): (t: seq<Pte>)
  {
    seq(ENTRIES, _ => Invalid)
  }

  /** A held frame becomes an empty root. */
  ghost function MakeRoot(v: Vm, f: nat): (r: Vm)
  {
    v.(tab := v.tab[f := Empty()], owner := v.owner[f := Root(f)])
  }

  /** A held frame becomes an empty table in entry k of table p. */
  ghost function MakeTable(v: Vm, p: nat, k: nat, f: nat, role: Role): (r: Vm)
    requires p in v.tab && k < |v.tab[p]|
  {
    v.(tab := v.tab[f := Empty()][p := v.tab[p][k := Table(f)]], owner := v.owner[f := role])
  }

  ghost predicate IsHeld(v: Vm, f: nat)
  {
    f in v.owner && v.owner[f] == Held
  }

  lemma NotReferred(v: Vm, f: nat, r: nat, i: nat, j: nat)
    requires Shaped(v) && Downward(v) && IsHeld(v, f)
    ensures IsRoot(v, r) ==> MidAt(v, r, i) != Table(f) && LowAt(v, r, i, j) != Table(f)
    ensures f !in v.tab
  {
    if IsRoot(v, r) && MidAt(v, r, i).Table? {
      assert EntryOk(v, r, i);
      var g := MidAt(v, r, i).frame;
      if LowAt(v, r, i, j).Table? {
        assert EntryOk(v, g, j);
      }
    }
  }

  lemma RootLookups(v: Vm, pool: set<nat>, f: nat)
    requires Inv(v, pool) && IsHeld(v, f)
    ensures forall r, i :: IsRoot(v, r) ==> MidAt(MakeRoot(v, f), r, i) == MidAt(v, r, i)
    ensures forall r, i, j :: IsRoot(v, r) ==> LowAt(MakeRoot(v, f), r, i, j) == LowAt(v, r, i, j)
    ensures forall r, vpn :: IsRoot(v, r) ==> Lookup(MakeRoot(v, f), r, vpn) == Lookup(v, r, vpn)
    ensures forall vpn :: Lookup(MakeRoot(v, f), f, vpn) == Invalid
  {
    var v' := MakeRoot(v, f);
    forall r, i, j | IsRoot(v, r)
      ensures MidAt(v', r, i) == MidAt(v, r, i) && LowAt(v', r, i, j) == LowAt(v, r, i, j)
    {
      NotReferred(v, f, r, i, j);
    }
    forall r, vpn | IsRoot(v, r)
      ensures Lookup(v', r, vpn) == Lookup(v, r, vpn)
    {
      NotReferred(v, f, r, Px2(vpn), Px1(vpn));
    }
    forall vpn
      ensures Lookup(v', f, vpn) == Invalid
    {
      assert MidAt(v', f, Px2(vpn)) == Invalid;
    }
  }

  lemma MakeRootDownward(v: Vm, f: nat)
    requires Shaped(v) && Downward(v) && IsHeld(v, f)
    ensures Shaped(MakeRoot(v, f)) && Downward(MakeRoot(v, f))
  {
    var v' := MakeRoot(v, f);
    forall g, k | g in v'.tab && g in v'.owner && 0 <= k < |v'.tab[g]|
      ensures v'.tab[g][k].Invalid? || EntryOk(v', g, k)
    {
      if g != f {
        assert v.tab[g][k].Invalid? || EntryOk(v, g, k);
      }
    }
  }

  lemma MakeRootKeeps(v: Vm, pool: set<nat>, f: nat)
    requires Inv(v, pool) && IsHeld(v, f)
    ensures Inv(MakeRoot(v, f), pool) && IsRoot(MakeRoot(v, f), f) && f !in v.tab
    ensures forall r, vpn :: IsRoot(v, r) ==> Lookup(MakeRoot(v, f), r, vpn) == Lookup(v, r, vpn)
    ensures forall vpn :: Lookup(MakeRoot(v, f), f, vpn) == Invalid
  {
    hide Lookup, MidAt, LowAt;
    var v' := MakeRoot(v, f);
    RootLookups(v, pool, f);
    MakeRootDownward(v, f);
    UpwardKept(v, v', f);
    LeavesKept(v, v', f);
  }

  /** A held frame becomes a table, and the entries that mattered are the same. */
  lemma UpwardKept(v: Vm, v': Vm, f: nat)
    requires Upward(v) && IsHeld(v, f) && f in v'.owner && v'.owner == v.owner[f := v'.owner[f]]
    requires forall r, i :: IsRoot(v, r) && MidAt(v, r, i).Table? ==> MidAt(v', r, i) == MidAt(v, r, i)
    requires forall r, i, j :: IsRoot(v, r) && LowAt(v, r, i, j).Table? ==> LowAt(v', r, i, j) == LowAt(v, r, i, j)
    requires match v'.owner[f]
             case Mid(r, i) => IsRoot(v, r) && MidAt(v', r, i) == Table(f)
             case Low(r, i, j) => IsRoot(v, r) && LowAt(v', r, i, j) == Table(f)
             case _ => true
    ensures Upward(v')
  {
    hide MidAt, LowAt;
  }

  lemma LeavesKept(v: Vm, v': Vm, f: nat)
    requires Leaves(v) && IsHeld(v, f) && f in v'.owner && v'.owner == v.owner[f := v'.owner[f]] && IsTable(v'.owner[f])
    requires forall r, vpn :: IsRoot(v, r) ==> Lookup(v', r, vpn) == Lookup(v, r, vpn)
    requires IsRoot(v', f) ==> forall vpn :: Lookup(v', f, vpn) == Invalid
    ensures Leaves(v')
  {
    hide Lookup;
    forall r, vpn: nat | IsRoot(v', r) && vpn < TRAPFRAME && Lookup(v', r, vpn).Leaf?
      ensures Lookup(v', r, vpn).frame in v'.owner && v'.owner[Lookup(v', r, vpn).frame] == Page(r, vpn)
    {
      assert r != f;
      assert IsRoot(v, r);
    }
    forall g | g in v'.owner && v'.owner[g].Page?
      ensures IsRoot(v', v'.owner[g].root) && v'.owner[g].vpn < TRAPFRAME
      ensures Lookup(v', v'.owner[g].root, v'.owner[g].vpn).Leaf?
          && Lookup(v', v'.owner[g].root, v'.owner[g].vpn).frame == g
    {
      assert g != f;
      assert IsRoot(v, v.owner[g].root);
    }
  }

  // ---- a table of the middle level ----

  lemma MidLookups(v: Vm, pool: set<nat>, r: nat, i: nat, f: nat)
    requires Inv(v, pool) && IsHeld(v, f) && IsRoot(v, r) && i < ENTRIES && MidAt(v, r, i) == Invalid
    ensures r in v.tab && i < |v.tab[r]|
    ensures var v' := MakeTable(v, r, i, f, Mid(r, i));
            && (forall r', i' :: IsRoot(v, r') ==>
               MidAt(v', r', i') == if r' == r && i' == i then Table(f) else MidAt(v, r', i'))
            && (forall r', i', j :: IsRoot(v, r') ==> LowAt(v', r', i', j) == LowAt(v, r', i', j))
            && (forall r', vpn :: IsRoot(v, r') ==> Lookup(v', r', vpn) == Lookup(v, r', vpn))
  {
    var v' := MakeTable(v, r, i, f, Mid(r, i));
    NotReferred(v, f, r, i, 0);
    forall r', i', j | IsRoot(v, r')
      ensures MidAt(v', r', i') == if r' == r && i' == i then Table(f) else MidAt(v, r', i')
      ensures LowAt(v', r', i', j) == LowAt(v, r', i', j)
      ensures LowAt(v, r', i', j).Table? ==> LowAt(v, r', i', j).frame != r && LowAt(v, r', i', j).frame != f
    {
      NotReferred(v, f, r', i', j);
      LevelsDiffer(v, r', i', j);
    }
    forall r', vpn | IsRoot(v, r')
      ensures Lookup(v', r', vpn) == Lookup(v, r', vpn)
    {
      assert LowAt(v', r', Px2(vpn), Px1(vpn)) == LowAt(v, r', Px2(vpn), Px1(vpn));
    }
  }

  /** A middle or low table is not a root; a low table is not a middle one. */
  lemma LevelsDiffer(v: Vm, r: nat, i: nat, j: nat)
    requires Shaped(v) && Downward(v) && IsRoot(v, r)
    ensures MidAt(v, r, i).Table? ==> MidAt(v, r, i).frame in v.owner && v.owner[MidAt(v, r, i).frame] == Mid(r, i)
    ensures LowAt(v, r, i, j).Table? ==>
        LowAt(v, r, i, j).frame in v.owner && v.owner[LowAt(v, r, i, j).frame] == Low(r, i, j)
    ensures MidAt(v, r, i).Table? || MidAt(v, r, i).Invalid?
    ensures LowAt(v, r, i, j).Table? || LowAt(v, r, i, j).Invalid?
    ensures MidAt(v, r, i).Table? <== LowAt(v, r, i, j).Table?
  {
    if !MidAt(v, r, i).Invalid? {
      assert EntryOk(v, r, i);
      var m := MidAt(v, r, i).frame;
      if !LowAt(v, r, i, j).Invalid? {
        assert EntryOk(v, m, j);
      }
    }
  }

  lemma MakeMidDownward(v: Vm, r: nat, i: nat, f: nat)
    requires Shaped(v) && Downward(v) && IsHeld(v, f) && IsRoot(v, r) && i < ENTRIES && MidAt(v, r, i) == Invalid
    ensures r in v.tab && i < |v.tab[r]|
    ensures Shaped(MakeTable(v, r, i, f, Mid(r, i))) && Downward(MakeTable(v, r, i, f, Mid(r, i)))
  {
    var v' := MakeTable(v, r, i, f, Mid(r, i));
    forall g, k | g in v'.tab && g in v'.owner && 0 <= k < |v'.tab[g]|
      ensures v'.tab[g][k].Invalid? || EntryOk(v', g, k)
    {
      if g != f && !(g == r && k == i) {
        assert v.tab[g][k].Invalid? || EntryOk(v, g, k);
      }
    }
  }

  lemma MakeMidKeeps(v: Vm, pool: set<nat>, r: nat, i: nat, f: nat)
    requires Inv(v, pool) && IsHeld(v, f) && IsRoot(v, r) && i < ENTRIES && MidAt(v, r, i) == Invalid
    ensures r in v.tab && i < |v.tab[r]|
    ensures var v' := MakeTable(v, r, i, f, Mid(r, i));
            && Inv(v', pool) && MidAt(v', r, i) == Table(f)
            && (forall r', vpn :: IsRoot(v, r') ==> Lookup(v', r', vpn) == Lookup(v, r', vpn))
  {
    hide Lookup, MidAt, LowAt;
    MidLookups(v, pool, r, i, f);
    MakeMidDownward(v, r, i, f);
    var v' := MakeTable(v, r, i, f, Mid(r, i));
    UpwardKept(v, v', f);
    LeavesKept(v, v', f);
  }

  // ---- a table of the lowest level ----

  lemma LowLookups(v: Vm, pool: set<nat>, r: nat, i: nat, j: nat, f: nat)
    requires Inv(v, pool) && IsHeld(v, f) && IsRoot(v, r) && MidAt(v, r, i).Table? && j < ENTRIES
        && LowAt(v, r, i, j) == Invalid
    ensures MidAt(v, r, i).frame in v.tab && j < |v.tab[MidAt(v, r, i).frame]|
    ensures var v' := MakeTable(v, MidAt(v, r, i).frame, j, f, Low(r, i, j));
            && (forall r', i' :: IsRoot(v, r') ==> MidAt(v', r', i') == MidAt(v, r', i'))
            && (forall r', i', j' :: IsRoot(v, r') ==>
                  LowAt(v', r', i', j') == if r' == r && i' == i && j' == j then Table(f) else LowAt(v, r', i', j'))
            && (forall r', vpn :: IsRoot(v, r') ==> Lookup(v', r', vpn) == Lookup(v, r', vpn))
  {
    LevelsDiffer(v, r, i, j);
    NotReferred(v, f, r, i, j);
    var m := MidAt(v, r, i).frame;
    var v' := MakeTable(v, m, j, f, Low(r, i, j));
    forall r', i', j' | IsRoot(v, r')
      ensures MidAt(v', r', i') == MidAt(v, r', i')
      ensures LowAt(v', r', i', j') == if r' == r && i' == i && j' == j then Table(f) else LowAt(v, r', i', j')
      ensures LowAt(v, r', i', j').Table? ==> LowAt(v, r', i', j').frame != m && LowAt(v, r', i', j').frame != f
    {
      NotReferred(v, f, r', i', j');
      LevelsDiffer(v, r', i', j');
    }
    forall r', vpn | IsRoot(v, r')
      ensures Lookup(v', r', vpn) == Lookup(v, r', vpn)
    {
      assert LowAt(v', r', Px2(vpn), Px1(vpn)) == LowAt(v, r', Px2(vpn), Px1(vpn))
          || LowAt(v, r', Px2(vpn), Px1(vpn)) == Invalid;
    }
  }

  lemma MakeLowDownward(v: Vm, r: nat, i: nat, j: nat, m: nat, f: nat)
    requires Shaped(v) && Downward(v) && IsHeld(v, f) && m in v.owner && v.owner[m] == Mid(r, i) && j < ENTRIES
    ensures m in v.tab && j < |v.tab[m]|
    ensures Shaped(MakeTable(v, m, j, f, Low(r, i, j))) && Downward(MakeTable(v, m, j, f, Low(r, i, j)))
  {
    var v' := MakeTable(v, m, j, f, Low(r, i, j));
    forall g, k | g in v'.tab && g in v'.owner && 0 <= k < |v'.tab[g]|
      ensures v'.tab[g][k].Invalid? || EntryOk(v', g, k)
    {
      if g != f && !(g == m && k == j) {
        assert v.tab[g][k].Invalid? || EntryOk(v, g, k);
      }
    }
  }

  lemma MakeLowKeeps(v: Vm, pool: set<nat>, r: nat, i: nat, j: nat, f: nat)
    requires Inv(v, pool) && IsHeld(v, f) && IsRoot(v, r) && MidAt(v, r, i).Table? && j < ENTRIES
        && LowAt(v, r, i, j) == Invalid
    ensures MidAt(v, r, i).frame in v.tab && j < |v.tab[MidAt(v, r, i).frame]|
    ensures var v' := MakeTable(v, MidAt(v, r, i).frame, j, f, Low(r, i, j));
            && Inv(v', pool) && LowAt(v', r, i, j) == Table(f)
            && (forall r', vpn :: IsRoot(v, r') ==> Lookup(v', r', vpn) == Lookup(v, r', vpn))
  {
    hide Lookup, MidAt, LowAt;
    LevelsDiffer(v, r, i, j);
    LowLookups(v, pool, r, i, j, f);
    var m := MidAt(v, r, i).frame;
    MakeLowDownward(v, r, i, j, m, f);
    var v' := MakeTable(v, m, j, f, Low(r, i, j));
    UpwardKept(v, v', f);
    LeavesKept(v, v', f);
  }

  // ---- leaf entries ----

  /** The lowest table that holds the entry of a page, if it is there. */
  ghost predicate HasEntry(v: Vm, r: nat, vpn: nat, h: nat)
  {
    LowAt(v, r, Px2(vpn), Px1(vpn)) == Table(h) && h in v.tab && |v.tab[h]| == ENTRIES
  }

  ghost function SetEntry(v: Vm, h: nat, k: nat, p: Pte): (r: Vm)
    requires h in v.tab && k < |v.tab[h]|
  {
    v.(tab := v.tab[h := v.tab[h][k := p]])
  }

  lemma HasEntryOwner(v: Vm, r: nat, vpn: nat, h: nat)
    requires Shaped(v) && Downward(v) && IsRoot(v, r) && LowAt(v, r, Px2(vpn), Px1(vpn)) == Table(h)
    ensures HasEntry(v, r, vpn, h) && h in v.owner && v.owner[h] == Low(r, Px2(vpn), Px1(vpn))
  {
    LevelsDiffer(v, r, Px2(vpn), Px1(vpn));
  }

  /** The three-level tree is a flat map: setting one entry changes one page of one address space. */
  lemma EntryLookups(v: Vm, r: nat, vpn: nat, h: nat, p: Pte)
    requires Shaped(v) && Downward(v) && IsRoot(v, r) && HasEntry(v, r, vpn, h)
    ensures var v' := SetEntry(v, h, Px0(vpn), p);
            && (forall r', i :: IsRoot(v, r') ==> MidAt(v', r', i) == MidAt(v, r', i))
            && (forall r', i, j :: IsRoot(v, r') ==> LowAt(v', r', i, j) == LowAt(v, r', i, j))
            && (forall r', w: nat :: IsRoot(v, r') ==>
               Lookup(v', r', w) == if r' == r && w == vpn then p else Lookup(v, r', w))
  {
    var v' := SetEntry(v, h, Px0(vpn), p);
    HasEntryOwner(v, r, vpn, h);
    forall r', i, j | IsRoot(v, r')
      ensures MidAt(v', r', i) == MidAt(v, r', i) && LowAt(v', r', i, j) == LowAt(v, r', i, j)
      ensures LowAt(v, r', i, j) == Table(h) ==> r' == r && i == Px2(vpn) && j == Px1(vpn)
    {
      LevelsDiffer(v, r', i, j);
    }
    forall r', w: nat | IsRoot(v, r')
      ensures Lookup(v', r', w) == if r' == r && w == vpn then p else Lookup(v, r', w)
    {
      assert LowAt(v', r', Px2(w), Px1(w)) == LowAt(v, r', Px2(w), Px1(w));
      if LowAt(v, r', Px2(w), Px1(w)) == Table(h) && Px0(w) == Px0(vpn) {
        PxInjective(w, vpn);
      }
    }
  }

  /** A leaf or nothing in a lowest table; no role of a table changes. */
  lemma EntryShape(v: Vm, v': Vm, r: nat, vpn: nat, h: nat, p: Pte)
    requires Shaped(v) && Downward(v) && Upward(v) && IsRoot(v, r) && HasEntry(v, r, vpn, h) && !p.Table?
    requires v'.tab == SetEntry(v, h, Px0(vpn), p).tab
    requires forall f :: f in v.owner && IsTable(v.owner[f]) ==> f in v'.owner && v'.owner[f] == v.owner[f]
    requires forall f :: f in v'.owner && IsTable(v'.owner[f]) ==> f in v.owner && v'.owner[f] == v.owner[f]
    ensures Shaped(v') && Downward(v') && Upward(v')
  {
    hide MidAt, LowAt, Lookup;
    EntryDownward(v, v', r, vpn, h, p);
    var w := SetEntry(v, h, Px0(vpn), p);
    EntryLookups(v, r, vpn, h, p);
    SameTables(w, v');
  }

  lemma EntryDownward(v: Vm, v': Vm, r: nat, vpn: nat, h: nat, p: Pte)
    requires Shaped(v) && Downward(v) && IsRoot(v, r) && HasEntry(v, r, vpn, h) && !p.Table?
    requires v'.tab == SetEntry(v, h, Px0(vpn), p).tab
    requires forall f :: f in v.owner && IsTable(v.owner[f]) ==> f in v'.owner && v'.owner[f] == v.owner[f]
    requires forall f :: f in v'.owner && IsTable(v'.owner[f]) ==> f in v.owner && v'.owner[f] == v.owner[f]
    ensures Shaped(v') && Downward(v')
  {
    hide LowAt;
    HasEntryOwner(v, r, vpn, h);
    forall g, k | g in v'.tab && g in v'.owner && 0 <= k < |v'.tab[g]|
      ensures v'.tab[g][k].Invalid? || EntryOk(v', g, k)
    {
      if !(g == h && k == Px0(vpn)) {
        assert v.tab[g][k].Invalid? || EntryOk(v, g, k);
      }
    }
  }

  /** mappages for a user page: a held frame becomes that page. */
  ghost function PutPage(v: Vm, r: nat, vpn: nat, h: nat, f: nat, perm: Perm): (v': Vm)
    requires HasEntry(v, r, vpn, h)
  {
    SetEntry(v, h, Px0(vpn), Leaf(f, perm)).(owner := v.owner[f := Page(r, vpn)])
  }

  /** uvmunmap for a user page: its frame goes back to the free list. */
  ghost function DropPage(v: Vm, r: nat, vpn: nat, h: nat): (v': Vm)
    requires HasEntry(v, r, vpn, h) && Lookup(v, r, vpn).Leaf?
  {
    var f := Lookup(v, r, vpn).frame;
    Free(SetEntry(v, h, Px0(vpn), Invalid), f)
  }

  lemma PutPageKeeps(v: Vm, pool: set<nat>, r: nat, vpn: nat, h: nat, f: nat, perm: Perm)
    requires Inv(v, pool) && IsRoot(v, r) && HasEntry(v, r, vpn, h) && IsHeld(v, f) && vpn < TRAPFRAME
        && Lookup(v, r, vpn) == Invalid
    ensures Inv(PutPage(v, r, vpn, h, f, perm), pool)
    ensures forall r', w: nat :: IsRoot(v, r') ==>
              Lookup(PutPage(v, r, vpn, h, f, perm), r', w) == if r' == r && w == vpn then Leaf(f, perm)
                  else Lookup(v, r', w)
  {
    hide MidAt, LowAt, Lookup, Downward, Upward, EntryOk;
    var v' := PutPage(v, r, vpn, h, f, perm);
    EntryLookups(v, r, vpn, h, Leaf(f, perm));
    SameTables(SetEntry(v, h, Px0(vpn), Leaf(f, perm)), v');
    EntryShape(v, v', r, vpn, h, Leaf(f, perm));
    PutPageLeaves(v, v', r, vpn, f, perm);
  }

  lemma PutPageLeaves(v: Vm, v': Vm, r: nat, vpn: nat, f: nat, perm: Perm)
    requires Leaves(v) && IsRoot(v, r) && IsHeld(v, f) && vpn < TRAPFRAME && v'.owner == v.owner[f := Page(r, vpn)]
    requires Lookup(v, r, vpn) == Invalid
    requires forall r', w: nat :: IsRoot(v, r') ==>
        Lookup(v', r', w) == if r' == r && w == vpn then Leaf(f, perm) else Lookup(v, r', w)
    ensures Leaves(v')
  {
    hide Lookup;
    forall r', w: nat | IsRoot(v', r') && w < TRAPFRAME && Lookup(v', r', w).Leaf?
      ensures Lookup(v', r', w).frame in v'.owner && v'.owner[Lookup(v', r', w).frame] == Page(r', w)
    {
      assert IsRoot(v, r');
    }
    forall g | g in v'.owner && v'.owner[g].Page?
      ensures IsRoot(v', v'.owner[g].root) && v'.owner[g].vpn < TRAPFRAME
      ensures Lookup(v', v'.owner[g].root, v'.owner[g].vpn).Leaf?
          && Lookup(v', v'.owner[g].root, v'.owner[g].vpn).frame == g
    {
      if g != f {
        assert IsRoot(v, v.owner[g].root);
      }
    }
  }

  lemma DropPageKeeps(v: Vm, pool: set<nat>, r: nat, vpn: nat, h: nat)
    requires Inv(v, pool) && IsRoot(v, r) && HasEntry(v, r, vpn, h) && vpn < TRAPFRAME && Lookup(v, r, vpn).Leaf?
    ensures Inv(DropPage(v, r, vpn, h), pool)
    ensures Lookup(v, r, vpn).frame in v.owner && v.owner[Lookup(v, r, vpn).frame] == Page(r, vpn)
    ensures forall r', w: nat :: IsRoot(v, r') ==>
              Lookup(DropPage(v, r, vpn, h), r', w) == if r' == r && w == vpn then Invalid else Lookup(v, r', w)
  {
    hide MidAt, LowAt, Lookup, Downward, Upward, EntryOk;
    var f := Lookup(v, r, vpn).frame;
    assert f in v.owner && v.owner[f] == Page(r, vpn);
    var v' := DropPage(v, r, vpn, h);
    EntryLookups(v, r, vpn, h, Invalid);
    SameTables(SetEntry(v, h, Px0(vpn), Invalid), v');
    EntryShape(v, v', r, vpn, h, Invalid);
    DropPageLeaves(v, v', r, vpn, f);
  }

  lemma DropPageLeaves(v: Vm, v': Vm, r: nat, vpn: nat, f: nat)
    requires Leaves(v) && IsRoot(v, r) && vpn < TRAPFRAME && Lookup(v, r, vpn).Leaf? && Lookup(v, r, vpn).frame == f
    requires v'.owner == v.owner - {f}
    requires forall r', w: nat :: IsRoot(v, r') ==>
        Lookup(v', r', w) == if r' == r && w == vpn then Invalid else Lookup(v, r', w)
    ensures Leaves(v')
  {
    hide Lookup;
    forall r', w: nat | IsRoot(v', r') && w < TRAPFRAME && Lookup(v', r', w).Leaf?
      ensures Lookup(v', r', w).frame in v'.owner && v'.owner[Lookup(v', r', w).frame] == Page(r', w)
    {
      assert IsRoot(v, r');
    }
    forall g | g in v'.owner && v'.owner[g].Page?
      ensures IsRoot(v', v'.owner[g].root) && v'.owner[g].vpn < TRAPFRAME
      ensures Lookup(v', v'.owner[g].root, v'.owner[g].vpn).Leaf?
          && Lookup(v', v'.owner[g].root, v'.owner[g].vpn).frame == g
    {
      assert IsRoot(v, v.owner[g].root);
    }
  }

  /** Entries at and above TRAPFRAME: no frame changes its role. */
  lemma SpecialKeeps(v: Vm, pool: set<nat>, r: nat, vpn: nat, h: nat, p: Pte)
    requires Inv(v, pool) && IsRoot(v, r) && HasEntry(v, r, vpn, h) && vpn >= TRAPFRAME && !p.Table?
    ensures Inv(SetEntry(v, h, Px0(vpn), p), pool)
    ensures forall r', w: nat :: IsRoot(v, r') ==>
              Lookup(SetEntry(v, h, Px0(vpn), p), r', w) == if r' == r && w == vpn then p else Lookup(v, r', w)
  {
    hide MidAt, LowAt, Lookup, Downward, Upward, EntryOk;
    var v' := SetEntry(v, h, Px0(vpn), p);
    EntryLookups(v, r, vpn, h, p);
    EntryShape(v, v', r, vpn, h, p);
    forall r', w: nat | IsRoot(v', r') && w < TRAPFRAME && Lookup(v', r', w).Leaf?
      ensures Lookup(v', r', w).frame in v'.owner && v'.owner[Lookup(v', r', w).frame] == Page(r', w)
    {
      assert IsRoot(v, r');
    }
    forall g | g in v'.owner && v'.owner[g].Page?
      ensures IsRoot(v', v'.owner[g].root) && v'.owner[g].vpn < TRAPFRAME
      ensures Lookup(v', v'.owner[g].root, v'.owner[g].vpn).Leaf?
          && Lookup(v', v'.owner[g].root, v'.owner[g].vpn).frame == g
    {
      assert IsRoot(v, v.owner[g].root);
    }
  }

  lemma LookupKind(v: Vm, pool: set<nat>, r: nat, vpn: nat)
    requires Inv(v, pool) && IsRoot(v, r)
    ensures Lookup(v, r, vpn).Leaf? || Lookup(v, r, vpn) == Invalid
  {
    LevelsDiffer(v, r, Px2(vpn), Px1(vpn));
    if !Lookup(v, r, vpn).Invalid? {
      assert EntryOk(v, LowAt(v, r, Px2(vpn), Px1(vpn)).frame, Px0(vpn));
    }
  }
}
