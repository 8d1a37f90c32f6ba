/** copyin and copyout (vm.c): user memory as an array of bytes, in which pages that were promised but
    not allocated yet read as zero. */
module UserMemory {
  import opened Collections
  import opened PageTable
  import opened TableSteps
  import opened Spaces
  import opened VirtualMemory
  import opened Processes

  /** The byte at user address a. */
  ghost function MemByte(v: Vm, r: nat, a: nat): (x: nat)
  {
    var s := See(v, r, a / PGSIZE);
    if s.Mapped? then s.contents[a % PGSIZE] else 0
  }

  ghost predicate SameBytes(v: Vm, v': Vm, r: nat)
  {
    forall a: nat :: a / PGSIZE < TRAPFRAME ==> MemByte(v', r, a) == MemByte(v, r, a)
  }

  /** The process may not touch address a: it is mapped without PTE_U, or not mapped and beyond the
      size. */
  ghost predicate NoAccess(v: Vm, r: nat, sz: nat, a: nat)
  {
    var p := Lookup(v, r, a / PGSIZE);
    if p.Leaf? then !p.perm.u else a / PGSIZE * PGSIZE >= sz
  }

  /** The page at address a is not there yet, and there may be too few frames for it. */
  ghost predicate Starved(v: Vm, r: nat, a: nat)
  {
    !Lookup(v, r, a / PGSIZE).Leaf? && |v.free| <= 1
  }

  lemma SameTransitive(v: Vm, v1: Vm, v2: Vm, r: nat)
    requires SameBytes(v, v1, r) && SameBytes(v1, v2, r)
    ensures SameBytes(v, v2, r)
  {
    hide MemByte;
    forall a: nat | a / PGSIZE < TRAPFRAME
      ensures MemByte(v2, r, a) == MemByte(v, r, a)
    {
      assert MemByte(v1, r, a) == MemByte(v, r, a);
    }
  }

  lemma SameItself(v: Vm, r: nat)
    ensures SameBytes(v, v, r)
  {
  }

  /** A page fault cannot be seen in memory. */
  lemma FaultInvisible(v: Vm, v': Vm, pool: set<nat>, r: nat, vpn: nat, perm: Perm)
    requires Inv(v, pool) && IsRoot(v, r) && Gained(v, v', r, map[vpn := Pg(perm, Filled(0))])
        && !Lookup(v, r, vpn).Leaf?
    ensures SameBytes(v, v', r)
  {
    hide Inv, Lookup;
    forall a: nat | a / PGSIZE < TRAPFRAME
      ensures MemByte(v', r, a) == MemByte(v, r, a)
    {
      var w := a / PGSIZE;
      if w == vpn {
        assert Fresh(v, v', Lookup(v', r, w), Pg(perm, Filled(0)));
      } else if Lookup(v, r, w).Leaf? {
        LeafData(v, pool, r, w);
      }
    }
  }

  /** Eager growth gives the memory that lazy growth promises: nothing can be told apart by reading. */
  lemma EagerLikeLazy(v: Vm, v': Vm, pool: set<nat>, r: nat, lo: nat, hi: nat, perm: Perm)
    requires Inv(v, pool) && IsRoot(v, r) && Gained(v, v', r, Zeroed(lo, hi, perm))
        && forall w: nat :: lo <= w < hi ==> !Lookup(v, r, w).Leaf?
    ensures SameBytes(v, v', r)
  {
    hide Inv, Lookup, Gained, Zeroed, MemByte;
    forall a: nat | a / PGSIZE < TRAPFRAME
      ensures MemByte(v', r, a) == MemByte(v, r, a)
    {
      EagerByte(v, v', pool, r, lo, hi, perm, a);
    }
  }

  lemma EagerByte(v: Vm, v': Vm, pool: set<nat>, r: nat, lo: nat, hi: nat, perm: Perm, a: nat)
    requires Inv(v, pool) && IsRoot(v, r) && Gained(v, v', r, Zeroed(lo, hi, perm)) && a / PGSIZE < TRAPFRAME
    requires lo <= a / PGSIZE < hi ==> !Lookup(v, r, a / PGSIZE).Leaf?
    ensures MemByte(v', r, a) == MemByte(v, r, a)
  {
    hide Inv, Lookup, Zeroed;
    var w := a / PGSIZE;
    ZeroedAt(lo, hi, perm, w);
    if lo <= w < hi {
      assert Fresh(v, v', Lookup(v', r, w), Pg(perm, Filled(0)));
    } else if Lookup(v, r, w).Leaf? {
      LeafData(v, pool, r, w);
    }
  }

  lemma {:induction false} ZeroedAt(lo: nat, hi: nat, perm: Perm, w: nat)
    ensures w in Zeroed(lo, hi, perm) <==> lo <= w < hi
    ensures lo <= w < hi ==> Zeroed(lo, hi, perm)[w] == Pg(perm, Filled(0))
    decreases hi
  {
    if lo < hi {
      ZeroedAt(lo, hi - 1, perm, w);
    }
  }

  lemma GrowthInvisible(v: Vm, v': Vm, pool: set<nat>, r: nat)
    requires Inv(v, pool) && IsRoot(v, r) && Grown(v, v', r)
    ensures SameBytes(v, v', r)
  {
    hide Inv, Lookup;
    forall a: nat | a / PGSIZE < TRAPFRAME
      ensures MemByte(v', r, a) == MemByte(v, r, a)
    {
      if Lookup(v, r, a / PGSIZE).Leaf? {
        LeafData(v, pool, r, a / PGSIZE);
      }
    }
  }

  lemma LeafBelow(v: Vm, r: nat, sz: nat, tf: nat, tramp: nat, w: nat)
    requires Space(v, r, sz, tf, tramp) && Lookup(v, r, w).Leaf? && Lookup(v, r, w).perm.u
    ensures w < Pages(sz) <= TRAPFRAME
  {
    hide Lookup;
  }

  lemma Beyond(v: Vm, r: nat, sz: nat, tf: nat, tramp: nat, w: nat)
    requires Space(v, r, sz, tf, tramp)
    ensures w >= MAXVPN ==> !Lookup(v, r, w).Leaf?
  {
    hide Lookup;
  }

  /** walkaddr, and vmfault where that fails: the frame of the page at address va. */
  method UserPage(p: Process, va: nat) returns (f: Option<nat>)
    requires p.Valid()
    modifies p.k
    ensures p.Valid() && Touches(old(p.k.v), p.k.v, p.pagetable, {}) && SameBytes(old(p.k.v), p.k.v, p.pagetable)
    ensures f.None? ==> NoAccess(p.k.v, p.pagetable, p.sz, va) || Starved(p.k.v, p.pagetable, va)
    ensures f.Some? ==> var e := Lookup(p.k.v, p.pagetable, va / PGSIZE);
              e.Leaf? && e.frame == f.value && e.perm.u
              && va / PGSIZE < TRAPFRAME
  {
    hide Lookup, Inv, Touches, Space, SameBytes, Gained, Grown, HasEntry;
    var k := p.k;
    ghost var v0 := k.v;
    SameItself(v0, p.pagetable);
    TouchesSame(v0, p.pagetable);
    SpaceFacts(v0, p.pagetable, p.sz, p.trapframe, p.trampoline);
    var vpn := va / PGSIZE;
    if vpn < MAXVPN {
      var h := k.Walk(p.pagetable, vpn, false);
      LookupKind(k.v, k.pool, p.pagetable, vpn);
      if h.Some? {
        EntryIs(k.v, p.pagetable, vpn, h.value);
        var pte := k.tab[h.value][Px0(vpn)];
        if pte.Leaf? && pte.perm.u {
          LeafBelow(k.v, p.pagetable, p.sz, p.trapframe, p.trampoline, vpn);
          return Some(pte.frame);
        }
      }
    }
    Beyond(k.v, p.pagetable, p.sz, p.trapframe, p.trampoline, vpn);
    f := p.Fault(vpn * PGSIZE);
    if f.None? {
      GrowthInvisible(v0, k.v, k.pool, p.pagetable);
      GrownLookup(v0, k.v, p.pagetable, vpn);
    } else {
      FaultInvisible(v0, k.v, k.pool, p.pagetable, vpn, RWU);
    }
  }

  /** `out` are the bytes from address src on. */
  ghost predicate Gathered(v: Vm, r: nat, src: nat, out: seq<nat>)
  {
    forall i :: 0 <= i < |out| ==> out[i] == MemByte(v, r, src + i)
  }

  lemma NothingGathered(v: Vm, r: nat, src: nat)
    ensures Gathered(v, r, src, [])
  {
  }

  /** copyin: the bytes at src, as far as they can be read. Memory does not change. */
  method Copyin(p: Process, src: nat, len: nat) returns (ok: bool, out: seq<nat>)
    requires p.Valid()
    modifies p.k
    ensures p.Valid() && Touches(old(p.k.v), p.k.v, p.pagetable, {}) && SameBytes(old(p.k.v), p.k.v, p.pagetable)
    ensures |out| <= len && Gathered(old(p.k.v), p.pagetable, src, out)
    ensures ok <==> |out| == len
    ensures !ok ==>
                NoAccess(p.k.v, p.pagetable, p.sz, src + |out|) || Starved(p.k.v, p.pagetable, src + |out|)
  {
    hide Lookup, Inv, Touches, Space, SameBytes, NoAccess, Starved, MemByte, Gathered;
    ghost var v0 := p.k.v;
    SameItself(v0, p.pagetable);
    TouchesSame(v0, p.pagetable);
    out := [];
    NothingGathered(v0, p.pagetable, src);
    while |out| < len
      invariant p.Valid() && Touches(v0, p.k.v, p.pagetable, {}) && SameBytes(v0, p.k.v, p.pagetable)
      invariant |out| <= len && Gathered(v0, p.pagetable, src, out)
    {
      ghost var v1 := p.k.v;
      var va := src + |out|;
      var f := UserPage(p, va);
      TouchesTransitive(v0, v1, p.k.v, p.pagetable, {});
      SameTransitive(v0, v1, p.k.v, p.pagetable);
      if f.None? {
        return false, out;
      }
      SpaceFacts(p.k.v, p.pagetable, p.sz, p.trapframe, p.trampoline);
      var o := va % PGSIZE;
      var n := if PGSIZE - o < len - |out| then PGSIZE - o else len - |out|;
      ChunkRead(v0, p.k.v, p.k.pool, p.pagetable, src, out, n);
      out := out + p.k.data[f.value][o..o + n];
    }
    ok := true;
  }

  /** Bytes read so far, and those of the next page. */
  lemma ChunkRead(v0: Vm, v: Vm, pool: set<nat>, r: nat, src: nat, out: seq<nat>, n: nat)
    requires var va := src + |out|;
              && Inv(v, pool) && IsRoot(v, r) && va / PGSIZE < TRAPFRAME
              && Lookup(v, r, va / PGSIZE).Leaf?
              && SameBytes(v0, v, r) && va % PGSIZE + n <= PGSIZE
    requires Gathered(v0, r, src, out)
    ensures Lookup(v, r, (src + |out|) / PGSIZE).frame in v.data
    ensures var o := (src + |out|) % PGSIZE;
            Gathered(v0, r, src, out + v.data[Lookup(v, r, (src + |out|) / PGSIZE).frame][o..o + n])
  {
    hide Inv, Lookup;
    var va := src + |out|;
    LeafData(v, pool, r, va / PGSIZE);
    var o, page := va % PGSIZE, v.data[Lookup(v, r, va / PGSIZE).frame];
    var more := out + page[o..o + n];
    forall i | 0 <= i < |more|
      ensures more[i] == MemByte(v0, r, src + i)
    {
      if i >= |out| {
        var j := i - |out|;
        SamePage(va, j);
        assert more[i] == page[o + j];
        assert MemByte(v0, r, va + j) == MemByte(v, r, va + j);
      }
    }
  }

  lemma SamePage(va: nat, j: nat)
    requires va % PGSIZE + j < PGSIZE
    ensures (va + j) / PGSIZE == va / PGSIZE && (va + j) % PGSIZE == va % PGSIZE + j
  {
  }

  /** The bytes at dst are `data`, every other byte is as before. */
  ghost predicate Holds(v0: Vm, v: Vm, r: nat, dst: nat, data: seq<nat>)
  {
    forall a: nat :: a / PGSIZE < TRAPFRAME ==>
        MemByte(v, r, a) == if dst <= a < dst + |data| then data[a - dst] else MemByte(v0, r, a)
  }

  lemma HoldsThenSame(v0: Vm, v: Vm, v': Vm, r: nat, dst: nat, data: seq<nat>)
    requires Holds(v0, v, r, dst, data) && SameBytes(v, v', r)
    ensures Holds(v0, v', r, dst, data)
  {
    hide MemByte;
  }

  function Patched(c: Contents, o: nat, x: seq<nat>): (r: Contents)
    requires o + |x| <= PGSIZE
  {
    c[..o] + x + c[o + |x|..]
  }

  ghost function Written(v: Vm, f: nat, o: nat, x: seq<nat>): (v': Vm)
    requires f in v.data && o + |x| <= PGSIZE
  {
    v.(data := v.data[f := Patched(v.data[f], o, x)])
  }

  /** Writing within one user page. */
  lemma PageWritten(v0: Vm, v: Vm, pool: set<nat>, r: nat, dst: nat, data: seq<nat>, x: seq<nat>, va: nat, f: nat)
    requires Inv(v, pool) && IsRoot(v, r) && Holds(v0, v, r, dst, data) && va == dst + |data|
    requires va / PGSIZE < TRAPFRAME && Lookup(v, r, va / PGSIZE).Leaf? && Lookup(v, r, va / PGSIZE).frame == f
        && va % PGSIZE + |x| <= PGSIZE
    ensures f in v.data && f in v.owner && v.owner[f] == Page(r, va / PGSIZE)
    ensures Holds(v0, Written(v, f, va % PGSIZE, x), r, dst, data + x)
  {
    hide Inv, Lookup, Patched, MemByte;
    LeafData(v, pool, r, va / PGSIZE);
    var v' := Written(v, f, va % PGSIZE, x);
    SameTables(v, v');
    forall a: nat | a / PGSIZE < TRAPFRAME
      ensures MemByte(v', r, a) == if dst <= a < dst + |data + x| then (data + x)[a - dst] else MemByte(v0, r, a)
    {
      ByteWritten(v, v', pool, r, va, x, a);
      assert MemByte(v, r, a) == if dst <= a < dst + |data| then data[a - dst] else MemByte(v0, r, a);
    }
  }

  lemma ByteWritten(v: Vm, v': Vm, pool: set<nat>, r: nat, va: nat, x: seq<nat>, a: nat)
    requires Inv(v, pool) && IsRoot(v, r) && va / PGSIZE < TRAPFRAME && Lookup(v, r, va / PGSIZE).Leaf?
        && va % PGSIZE + |x| <= PGSIZE
    requires a / PGSIZE < TRAPFRAME && Lookup(v, r, va / PGSIZE).frame in v.data
        && v' == Written(v, Lookup(v, r, va / PGSIZE).frame, va % PGSIZE, x)
    requires forall w: nat :: Lookup(v', r, w) == Lookup(v, r, w)
    ensures MemByte(v', r, a) == if va <= a < va + |x| then x[a - va] else MemByte(v, r, a)
  {
    hide Inv, Lookup, Patched;
    var vpn, w := va / PGSIZE, a / PGSIZE;
    LeafData(v, pool, r, vpn);
    if w == vpn {
      PatchedAt(v.data[Lookup(v, r, vpn).frame], va % PGSIZE, x, a % PGSIZE);
    } else {
      assert !(va <= a < va + |x|);
      if Lookup(v, r, w).Leaf? {
        LeafData(v, pool, r, w);
      }
    }
  }

  lemma PatchedAt(c: Contents, o: nat, x: seq<nat>, k: nat)
    requires o + |x| <= PGSIZE && k < PGSIZE
    ensures Patched(c, o, x)[k] == if o <= k < o + |x| then x[k - o] else c[k]
  {
  }

  lemma WriteKeeps(v: Vm, pool: set<nat>, r: nat, sz: nat, tf: nat, tramp: nat, f: nat, o: nat, x: seq<nat>)
    requires Inv(v, pool) && Space(v, r, sz, tf, tramp) && f in v.data && f in v.owner && Of(v.owner[f], r)
        && o + |x| <= PGSIZE
    ensures Inv(Written(v, f, o, x), pool) && Space(Written(v, f, o, x), r, sz, tf, tramp)
        && Touches(v, Written(v, f, o, x), r, {})
  {
    hide Lookup, Inv, Patched;
    FillKeeps(v, pool, f, Patched(v.data[f], o, x));
    SameTables(v, Written(v, f, o, x));
  }

  /** copyout: as much of src as fits on writable pages is stored at dst, and nothing else changes. */
  method Copyout(p: Process, dst: nat, src: seq<nat>) returns (ok: bool, ghost done: nat)
    requires p.Valid()
    modifies p.k
    ensures p.Valid() && Touches(old(p.k.v), p.k.v, p.pagetable, {})
    ensures done <= |src| && Holds(old(p.k.v), p.k.v, p.pagetable, dst, src[..done]) && (ok <==> done == |src|)
    ensures !ok ==>
              NoAccess(p.k.v, p.pagetable, p.sz, dst + done) || ReadOnly(p.k.v, p.pagetable, dst + done)
              || Starved(p.k.v, p.pagetable, dst + done)
  {
    hide Lookup, Inv, Touches, Space, SameBytes, NoAccess, Starved, Holds, Written, ReadOnly;
    ghost var v0 := p.k.v;
    NothingHeld(v0, p.pagetable, dst);
    TouchesSame(v0, p.pagetable);
    var i := 0;
    assert src[..0] == [];
    while i < |src|
      invariant 0 <= i <= |src| && p.Valid() && Touches(v0, p.k.v, p.pagetable, {})
          && Holds(v0, p.k.v, p.pagetable, dst, src[..i])
    {
      ghost var v1 := p.k.v;
      var va := dst + i;
      var f := UserPage(p, va);
      TouchesTransitive(v0, v1, p.k.v, p.pagetable, {});
      HoldsThenSame(v0, v1, p.k.v, p.pagetable, dst, src[..i]);
      if f.None? {
        return false, i;
      }
      SpaceFacts(p.k.v, p.pagetable, p.sz, p.trapframe, p.trampoline);
      var h := p.k.Walk(p.pagetable, va / PGSIZE, false);
      EntryIs(p.k.v, p.pagetable, va / PGSIZE, h.value);
      var pte := p.k.tab[h.value][Px0(va / PGSIZE)];
      if !pte.perm.w {
        IsReadOnly(p.k.v, p.pagetable, va);
        return false, i;
      }
      var o := va % PGSIZE;
      var n := if PGSIZE - o < |src| - i then PGSIZE - o else |src| - i;
      StoreChunk(p, v0, dst, src, i, f.value, o, n);
      i := i + n;
    }
    return true, i;
  }

  /** memmove into the page that was found. */
  method StoreChunk(p: Process, ghost v0: Vm, ghost dst: nat, src: seq<nat>, i: nat, f: nat, o: nat, n: nat)
    requires p.Valid() && Touches(v0, p.k.v, p.pagetable, {}) && i + n <= |src|
        && Holds(v0, p.k.v, p.pagetable, dst, src[..i])
    requires (dst + i) / PGSIZE < TRAPFRAME && o == (dst + i) % PGSIZE && o + n <= PGSIZE
    requires Lookup(p.k.v, p.pagetable, (dst + i) / PGSIZE).Leaf?
        && Lookup(p.k.v, p.pagetable, (dst + i) / PGSIZE).frame == f
    modifies p.k
    ensures p.Valid() && Touches(v0, p.k.v, p.pagetable, {}) && Holds(v0, p.k.v, p.pagetable, dst, src[..i + n])
  {
    hide Lookup, Inv, Touches, Space, Holds, Patched;
    var k := p.k;
    SpaceFacts(k.v, p.pagetable, p.sz, p.trapframe, p.trampoline);
    PageWritten(v0, k.v, k.pool, p.pagetable, dst, src[..i], src[i..i + n], dst + i, f);
    WriteKeeps(k.v, k.pool, p.pagetable, p.sz, p.trapframe, p.trampoline, f, o, src[i..i + n]);
    TouchesTransitive(v0, k.v, Written(k.v, f, o, src[i..i + n]), p.pagetable, {});
    assert src[..i] + src[i..i + n] == src[..i + n];
    k.data := k.data[f := Patched(k.data[f], o, src[i..i + n])];
    k.v := Written(k.v, f, o, src[i..i + n]);
  }

  /** The page is mapped without PTE_W. */
  ghost predicate ReadOnly(v: Vm, r: nat, a: nat)
  {
    var p := Lookup(v, r, a / PGSIZE);
    p.Leaf? && !p.perm.w
  }

  lemma IsReadOnly(v: Vm, r: nat, a: nat)
    requires Lookup(v, r, a / PGSIZE).Leaf? && !Lookup(v, r, a / PGSIZE).perm.w
    ensures ReadOnly(v, r, a)
  {
  }

  lemma NothingHeld(v: Vm, r: nat, dst: nat)
    ensures Holds(v, v, r, dst, [])
  {
  }
}
