/** Physical frames and the three-level page tables of vm.c as one value, and what each frame is for.

    Frames are numbered. `free` is kmem.freelist, `tab` holds the frames used as page-table pages and
    `data` the contents of all others. `owner` gives the role of every frame that is not free.
 */
module PageTable {

  const ENTRIES: nat := 512
  /** Virtual page numbers: MAXVA is 2^38 and a page 2^12 bytes. */
  const MAXVPN: nat := 0x400_0000
  const TRAMPOLINE: nat := MAXVPN - 1
  const TRAPFRAME: nat := MAXVPN - 2

  datatype Perm = Perm(r: bool, w: bool, x: bool, u: bool)

  datatype Pte = Invalid | Table(frame: nat) | Leaf(frame: nat, perm: Perm)

  /** A frame is held by kernel code, is a page-table page at a position of the tree under `root`, or
      is the user page `vpn` of the address space under `root`. */
  datatype Role = Held | Root(root: nat) | Mid(root: nat, i: nat) | Low(root: nat, i: nat, j: nat) | Page(root: nat,
      vpn: nat)

  const PGSIZE: nat := 4096

  type Contents = c: seq<nat> | |c| == PGSIZE witness seq(PGSIZE, _ => 0)

  function Filled(x: nat): (c: Contents)
  {
    seq(PGSIZE, _ => x)
  }

  datatype Vm = Vm(free: seq<nat>, tab: map<nat, seq<Pte>>, data: map<nat, Contents>, owner: map<nat, Role>)

  function Px2(vpn: nat): (i: nat)
  {
    vpn / (ENTRIES * ENTRIES)
  }

  function Px1(vpn: nat): (j: nat)
    ensures j < ENTRIES
  {
    vpn / ENTRIES % ENTRIES
  }

  function Px0(vpn: nat): (k: nat)
    ensures k < ENTRIES
  {
    vpn % ENTRIES
  }

  /** Distinct pages use distinct entries. */
  lemma PxInjective(a: nat, b: nat)
    requires Px2(a) == Px2(b) && Px1(a) == Px1(b) && Px0(a) == Px0(b)
    ensures a == b
  {
    assert a / ENTRIES / ENTRIES == a / (ENTRIES * ENTRIES) && b / ENTRIES / ENTRIES == b / (ENTRIES * ENTRIES);
  }

  ghost predicate IsTable(role: Role)
  {
    role.Root? || role.Mid? || role.Low?
  }

  /** The role belongs to the address space under r. */
  ghost predicate Of(role: Role, r: nat)
  {
    !role.Held? && role.root == r
  }

  ghost predicate IsRoot(v: Vm, r: nat)
  {
    r in v.owner && v.owner[r] == Root(r)
  }

  /** The page tables and their frames: entries point to tables of the next level in the right place. */
  ghost predicate Shaped(v: Vm)
  {
    && (forall f :: f in v.tab <==> f in v.owner && IsTable(v.owner[f]))
    && (forall f :: f in v.tab ==> |v.tab[f]| == ENTRIES)
    && (forall f :: f in v.owner && v.owner[f].Root? ==> v.owner[f].root == f)
  }

  ghost predicate Downward(v: Vm)
  {
    forall f, k :: f in v.tab && f in v.owner && 0 <= k < |v.tab[f]| ==> v.tab[f][k].Invalid? || EntryOk(v, f, k)
  }

  ghost predicate EntryOk(v: Vm, f: nat, k: nat)
    requires f in v.tab && f in v.owner && k < |v.tab[f]|
  {
    match v.owner[f]
    case Root(r) => v.tab[f][k].Table? && v.tab[f][k].frame in v.owner && v.owner[v.tab[f][k].frame] == Mid(f, k)
    case Mid(r, i) => v.tab[f][k].Table? && v.tab[f][k].frame in v.owner && v.owner[v.tab[f][k].frame] == Low(r, i, k)
    case Low(r, i, j) => v.tab[f][k].Leaf?
    case _ => true
  }

  /** Every table below a root is pointed to from its place. */
  ghost predicate Upward(v: Vm)
  {
    forall f :: f in v.owner ==>
      match v.owner[f]
      case Mid(r, i) => IsRoot(v, r) && MidAt(v, r, i) == Table(f)
      case Low(r, i, j) => IsRoot(v, r) && LowAt(v, r, i, j) == Table(f)
      case _ => true
  }

  ghost function MidAt(v: Vm, r: nat, i: nat): (p: Pte)
  {
    if r in v.tab && i < |v.tab[r]| then v.tab[r][i] else Invalid
  }

  ghost function LowAt(v: Vm, r: nat, i: nat, j: nat): (p: Pte)
  {
    var m := MidAt(v, r, i);
    if m.Table? && m.frame in v.tab && j < |v.tab[m.frame]| then v.tab[m.frame][j] else Invalid
  }

  /** The leaf entry that walk finds for a page; Invalid if a table is missing on the way. */
  ghost function Lookup(v: Vm, r: nat, vpn: nat): (p: Pte)
  {
    var l := LowAt(v, r, Px2(vpn), Px1(vpn));
    if l.Table? && l.frame in v.tab && Px0(vpn) < |v.tab[l.frame]| then v.tab[l.frame][Px0(vpn)] else Invalid
  }

  /** User pages: the frame of every user leaf belongs to that page and that page alone. */
  ghost predicate Leaves(v: Vm)
  {
    && (forall r, vpn: nat :: IsRoot(v, r) && vpn < TRAPFRAME && Lookup(v, r, vpn).Leaf? ==>
          Lookup(v, r, vpn).frame in v.owner && v.owner[Lookup(v, r, vpn).frame] == Page(r, vpn))
    && (forall f :: f in v.owner && v.owner[f].Page? ==>
          && IsRoot(v, v.owner[f].root) && v.owner[f].vpn < TRAPFRAME
          && Lookup(v, v.owner[f].root, v.owner[f].vpn).Leaf? && Lookup(v, v.owner[f].root, v.owner[f].vpn).frame == f)
  }

  /** Conservation: the frames of the pool are either free, once, or have a role. */
  ghost predicate Pooled(v: Vm, pool: set<nat>)
  {
    && (forall i, j :: 0 <= i < j < |v.free| ==> v.free[i] != v.free[j])
    && (forall f :: f in v.free <==> f in pool && f !in v.owner)
    && v.owner.Keys <= pool && pool <= v.data.Keys
  }

  ghost predicate Inv(v: Vm, pool: set<nat>)
  {
    Shaped(v) && Downward(v) && Upward(v) && Leaves(v) && Pooled(v, pool)
  }

  // ---- kalloc and kfree ----

  ghost function Alloc(v: Vm): (r: Vm)
    requires v.free != []
  {
    v.(free := v.free[1..], data := v.data[v.free[0] := Filled(5)], owner := v.owner[v.free[0] := Held])
  }

  ghost function Free(v: Vm, f: nat): (r: Vm)
  {
    v.(free := [f] + v.free, data := v.data[f := Filled(1)], owner := v.owner - {f})
  }

  /** No table changed. */
  lemma SameTables(v: Vm, v': Vm)
    requires v'.tab == v.tab
    ensures forall r, i :: MidAt(v', r, i) == MidAt(v, r, i)
    ensures forall r, i, j :: LowAt(v', r, i, j) == LowAt(v, r, i, j)
    ensures forall r, vpn :: Lookup(v', r, vpn) == Lookup(v, r, vpn)
  {
  }

  /** The tables do not mind a frame that comes or goes as `Held`. */
  lemma HeldKeeps(v: Vm, v': Vm, f: nat)
    requires Shaped(v) && Downward(v) && Upward(v) && Leaves(v) && v'.tab == v.tab
    requires v'.owner == v.owner[f := Held] || v'.owner == v.owner - {f}
    requires f in v.owner ==> v.owner[f] == Held
    ensures Shaped(v') && Downward(v') && Upward(v') && Leaves(v')
  {
    hide Lookup, MidAt, LowAt;
    SameTables(v, v');
    HeldShape(v, v', f);
    HeldUpward(v, v', f);
    HeldLeaves(v, v', f);
  }

  lemma HeldShape(v: Vm, v': Vm, f: nat)
    requires Shaped(v) && Downward(v) && v'.tab == v.tab
    requires v'.owner == v.owner[f := Held] || v'.owner == v.owner - {f}
    requires f in v.owner ==> v.owner[f] == Held
    ensures Shaped(v') && Downward(v')
  {
    forall g, k | g in v'.tab && g in v'.owner && 0 <= k < |v'.tab[g]|
      ensures v'.tab[g][k].Invalid? || EntryOk(v', g, k)
    {
      assert v.tab[g][k].Invalid? || EntryOk(v, g, k);
    }
  }

  lemma HeldUpward(v: Vm, v': Vm, f: nat)
    requires Upward(v) && v'.tab == v.tab
    requires v'.owner == v.owner[f := Held] || v'.owner == v.owner - {f}
    requires f in v.owner ==> v.owner[f] == Held
    ensures Upward(v')
  {
    hide MidAt, LowAt;
    SameTables(v, v');
  }

  lemma HeldLeaves(v: Vm, v': Vm, f: nat)
    requires Leaves(v) && v'.tab == v.tab
    requires v'.owner == v.owner[f := Held] || v'.owner == v.owner - {f}
    requires f in v.owner ==> v.owner[f] == Held
    ensures Leaves(v')
  {
    hide Lookup;
    SameTables(v, v');
  }

  lemma AllocKeeps(v: Vm, pool: set<nat>)
    requires Inv(v, pool) && v.free != []
    ensures Inv(Alloc(v), pool) && v.free[0] in pool && v.free[0] !in v.owner
  {
    hide Shaped, Downward, Upward, Leaves;
    HeldKeeps(v, Alloc(v), v.free[0]);
  }

  lemma FreeKeeps(v: Vm, pool: set<nat>, f: nat)
    requires Inv(v, pool) && f in v.owner && v.owner[f] == Held
    ensures Inv(Free(v, f), pool)
  {
    hide Shaped, Downward, Upward, Leaves;
    HeldKeeps(v, Free(v, f), f);
  }
}
