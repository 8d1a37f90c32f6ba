/** malloc and free (umalloc.c) on the heap's headers. */
module Umalloc {
  import opened Collections
  import opened HeapState

  const HEADER: nat := 16
  const MINUNITS: nat := 4096
  const INT_LIMIT: nat := 0x8000_0000

  /** Steps along the list from position j to position m, at least one. */
  function Steps(n: nat, j: nat, m: nat): (s: int)
  {
    if m > j then m - j else m - j + n
  }

  /** Header and payload in units; the payload has room for nbytes. */
  function NUnits(nbytes: nat): (n: nat)
    ensures n > 0 && (n - 1) * HEADER >= nbytes && (n > 1 ==> (n - 2) * HEADER < nbytes)
  {
    (nbytes + HEADER - 1) / HEADER + 1
  }

  function Wanted(nunits: nat): (nu: nat)
  {
    if nunits < MINUNITS then MINUNITS else nunits
  }

  class Allocator {
    const base: nat
    var ptr: map<nat, nat>
    var size: map<nat, nat>
    var freep: Option<nat>
    ghost var h: Heap

    ghost predicate Valid()
      reads this
    {
      h.ptr == ptr && h.size == size
      && (freep.None? ==> h.live == {} && h.block == map[] && h.ring == [])
      && (freep.Some? ==> Inv(h, base) && freep.value in h.ring)
    }

    constructor (base: nat)
      ensures Valid() && freep == None && this.base == base
    {
      this.base := base;
      ptr, size, freep, h := map[], map[], None, Heap(map[], map[], [], {}, map[]);
    }

    // free of the block whose header is at bp
    method Free(bp: nat)
      requires Valid() && freep.Some? && bp in h.live
      modifies this`ptr, this`size, this`freep, this`h
      ensures Valid() && freep.Some? && h.live == old(h).live - {bp} && h.block.Keys == old(h).block.Keys
      ensures forall a :: a in h.live ==> a in h.size && a in old(h).size && h.size[a] == old(h).size[a]
      ensures bp in old(h).size
          && exists m: nat :: m < |h.ring| && h.ring[m] in h.size && h.size[h.ring[m]] >= old(h).size[bp]
    {
      hide Circle, Partition, Coalesced, Gap, Freed;
      var p, k := FindPlace(bp);
      FreedKeeps(h, base, k, bp);
      FreedFields(h, base, k, bp);
      FreedBig(h, base, k, bp);
      h := Freed(h, base, k, bp);
      var nxt := ptr[p];
      if bp + size[bp] == nxt {
        size := size[bp := size[bp] + size[nxt]];
        ptr := ptr[bp := ptr[nxt]];
      } else {
        ptr := ptr[bp := nxt];
      }
      if p + size[p] == bp {
        size := size[p := size[p] + size[bp]];
        ptr := ptr[p := ptr[bp]];
      } else {
        ptr := ptr[p := bp];
      }
      freep := Some(p);
    }

    // morecore, for a request of nu units when sbrk would return `more`
    method Morecore(nunits: nat, more: Option<nat>) returns (p: Option<nat>)
      requires Valid() && freep.Some? && nunits > 0
      requires more.Some? ==>
          more.value > base && forall u :: more.value <= u < more.value + Wanted(nunits) ==> u !in h.block
      modifies this`ptr, this`size, this`freep, this`h
      ensures Valid() && freep.Some? && h.live == old(h).live && (p.None? <==> more.None?)
      ensures p.None? ==> h == old(h) && freep == old(freep)
      ensures p.Some? ==> p == freep && h.block.Keys == old(h).block.Keys + Units(more.value, Wanted(nunits)).Keys
      ensures p.Some? ==> exists m: nat :: m < |h.ring| && h.ring[m] in h.size && h.size[h.ring[m]] >= nunits
      ensures forall a :: a in h.live ==> a in h.size && a in old(h).size && h.size[a] == old(h).size[a]
    {
      hide Circle, Partition, Coalesced, Granted, Units;
      SizedAll(h, base);
      if more.None? {
        return None;
      }
      var nu := Wanted(nunits);
      GrantedKeeps(h, base, more.value, nu);
      GrantedFields(h, more.value, nu);
      size := size[more.value := nu];
      h := Granted(h, more.value, nu);
      ghost var h1 := h;
      Free(more.value);
      assert h.live == old(h).live;
      return freep;
    }

    // malloc when sbrk would return `more`
    method Malloc(nbytes: nat, more: Option<nat>) returns (r: Option<nat>)
      requires Valid() && Wanted(NUnits(nbytes)) * HEADER < INT_LIMIT
      requires more.Some? ==>
          more.value > base && forall u :: more.value <= u < more.value + Wanted(NUnits(nbytes)) ==> u !in h.block
      modifies this
      ensures Valid() && freep.Some?
      ensures r.None? ==> more.None? && h.live == old(h).live && h.block.Keys == old(h).block.Keys
      ensures r.None? ==> TooSmall(h, NUnits(nbytes))
      ensures r.Some? && !TooSmall(old(h), NUnits(nbytes)) ==>
                old(freep).Some? && FirstFit(old(h), old(freep).value, NUnits(nbytes), r.value - 1)
      ensures r.Some? ==> && r.value > 0 && r.value - 1 !in old(h).live && h.live == old(h).live + {r.value - 1}
                          && r.value - 1 in h.size && h.size[r.value - 1] == NUnits(nbytes)
      ensures h.block.Keys == old(h).block.Keys
          || (&& more.Some? && h.block.Keys == old(h).block.Keys + Units(more.value, Wanted(NUnits(nbytes))).Keys
              && TooSmall(old(h), NUnits(nbytes)))
      ensures forall a :: a in old(h).live ==> a in h.size && a in old(h).size && h.size[a] == old(h).size[a]
    {
      hide Inv, Units, NUnits, Wanted;
      var nunits := NUnits(nbytes);
      if freep.None? {
        ptr, size, freep := ptr[base := base], size[base := 0], Some(base);
        h := Heap(ptr, size, [base], {}, map[]);
        OnlyBase(h, base);
        NoneTooBig(old(h), nunits);
      }
      r := Search(nunits, more);
    }

    // The search loop of malloc: first fit from freep on.
    method Search(nunits: nat, more: Option<nat>) returns (r: Option<nat>)
      requires Valid() && freep.Some? && nunits > 0
      requires more.Some? ==>
          more.value > base && forall u :: more.value <= u < more.value + Wanted(nunits) ==> u !in h.block
      modifies this`ptr, this`size, this`freep, this`h
      ensures Valid() && freep.Some?
      ensures r.None? ==> more.None? && h.live == old(h).live && h.block.Keys == old(h).block.Keys
      ensures r.None? ==> TooSmall(h, nunits)
      ensures r.Some? && !TooSmall(old(h), nunits) ==> FirstFit(old(h), old(freep).value, nunits, r.value - 1)
      ensures r.Some? ==> && r.value > 0 && r.value - 1 !in old(h).live && h.live == old(h).live + {r.value - 1}
                          && r.value - 1 in h.size && h.size[r.value - 1] == nunits
      ensures h.block.Keys == old(h).block.Keys
          || (&& more.Some? && h.block.Keys == old(h).block.Keys + Units(more.value, Wanted(nunits)).Keys
              && TooSmall(old(h), nunits))
      ensures forall a :: a in old(h).live ==> a in h.size && a in old(h).size && h.size[a] == old(h).size[a]
    {
      hide Circle, Partition, Coalesced, Units, Wanted, AllSmall, TooSmall, FirstFit;
      SizedAll(h, base);
      ghost var h0, asked := h, false;
      ghost var f: nat, m: nat := IndexOf(h.ring, freep.value), 0;
      ghost var j: nat := f;
      var prevp := freep.value;
      Look(h, base, j);
      SmallStart(h, j, nunits);
      var p := ptr[prevp];
      while true
        invariant freep.Some? && Valid() && j < |h.ring| && f < |h.ring| && prevp == h.ring[j]
            && freep.value == h.ring[f]
        invariant p == h.ring[After(j, |h.ring|)] && h.live == h0.live && (!asked ==> h == h0)
        invariant forall a :: a in h.live ==> a in h.size && a in h0.size && h.size[a] == h0.size[a]
        invariant !asked ==> AllSmall(h, j, f, nunits)
        invariant asked ==> more.Some? && h.block.Keys == h0.block.Keys + Units(more.value, Wanted(nunits)).Keys
        invariant asked ==> TooSmall(h0, nunits)
        invariant !asked ==> freep == old(freep)
        invariant asked ==>
                  m < |h.ring| && h.ring[m] in h.size && h.size[h.ring[m]] >= nunits
                  && Steps(|h.ring|, j, m) <= Steps(|h.ring|, j, f)
        decreases if asked then 0 else 1, Steps(|h.ring|, j, f)
      {
        Look(h, base, After(j, |h.ring|));
        if size[p] >= nunits {
          BaseFirst(h, base);
          if !asked {
            Fits(h, j, f, nunits);
          }
          r := Take(prevp, p, j + 1, nunits);
          return;
        }
        Onward(h, base, j, f, m);
        if !asked {
          SmallStep(h, j, f, nunits);
        }
        if p == freep.value {
          var q := Morecore(nunits, more);
          if q.None? {
            return None;
          }
          m :| m < |h.ring| && h.ring[m] in h.size && h.size[h.ring[m]] >= nunits;
          p := q.value;
          f := IndexOf(h.ring, p);
          j := f;
          asked := true;
          Look(h, base, j);
        } else {
          j := After(j, |h.ring|);
        }
        prevp := p;
        p := ptr[p];
      }
    }

    // malloc's last step: block p, whole or its tail, is handed out.
    method Take(prevp: nat, p: nat, ghost k: nat, nunits: nat) returns (r: Option<nat>)
      requires Valid() && freep.Some? && 1 <= k < |h.ring| && p == h.ring[k] && prevp == h.ring[k - 1]
      requires p in size && size[p] >= nunits > 0
      modifies this`ptr, this`size, this`freep, this`h
      ensures Valid() && freep == Some(prevp) && h.block.Keys == old(h).block.Keys
      ensures r.Some? && r.value > 0 && r.value - 1 !in old(h).live && h.live == old(h).live + {r.value - 1}
      ensures r.value - 1 in h.size && h.size[r.value - 1] == nunits && r.value - 1 == p + old(size)[p] - nunits
      ensures forall a :: a in old(h).live ==> a in h.size && a in old(h).size && h.size[a] == old(h).size[a]
    {
      hide Circle, Partition, Coalesced, Gap;
      SizedLive(h, base);
      InRing(h, base, k);
      if size[p] == nunits {
        TakeWholeKeeps(h, base, k);
        PrevStays(h.ring, k);
        h := TakeWhole(h, k);
        ptr := ptr[prevp := ptr[p]];
        r := Some(p + 1);
      } else {
        TakeTailKeeps(h, base, k, nunits);
        h := TakeTail(h, k, nunits);
        size := size[p := size[p] - nunits];
        var q := p + size[p];
        size := size[q := nunits];
        r := Some(q + 1);
      }
      freep := Some(prevp);
    }

    // The search loop of free: the free block, or base, after which bp belongs.
    method FindPlace(bp: nat) returns (p: nat, ghost k: nat)
      requires Valid() && freep.Some? && bp in h.live
      ensures Between(h, k, bp) && p == h.ring[k]
    {
      hide Circle, Partition, Coalesced, Between;
      p := freep.value;
      k :| 0 <= k < |h.ring| && h.ring[k] == p;
      LiveAbove(h, base, bp);
      ghost var m := PlaceOf(h, base, bp);
      SearchStep(h, base, k, m, bp);
      while !(bp > p && bp < ptr[p])
        invariant k < |h.ring| && p == h.ring[k] && p in ptr && m < |h.ring| && Between(h, m, bp)
        invariant (bp > p && bp < ptr[p]) || (p >= ptr[p] && (bp > p || bp < ptr[p])) <==> k == m
        decreases if k <= m then m - k else m - k + |h.ring|
      {
        if p >= ptr[p] && (bp > p || bp < ptr[p]) {
          break;
        }
        SearchStep(h, base, k, m, bp);
        p := ptr[p];
        k := After(k, |h.ring|);
        SearchStep(h, base, k, m, bp);
      }
    }
  }

  function After(k: nat, n: nat): (j: nat)
  {
    if k + 1 == n then 0 else k + 1
  }

  /** The two conditions of the search say that this is the place. */
  lemma SearchStep(h: Heap, base: nat, k: nat, m: nat, b: nat)
    requires Inv(h, base) && k < |h.ring| && m < |h.ring| && Between(h, m, b) && b > base
    ensures h.ring[k] in h.ptr && h.ptr[h.ring[k]] == h.ring[After(k, |h.ring|)]
    ensures var p := h.ring[k]; (b > p && b < h.ptr[p]) || (p >= h.ptr[p] && (b > p || b < h.ptr[p])) <==> k == m
  {
    hide Partition, Coalesced;
    NextInRing(h, base, k);
  }

  ghost function IndexOf(ring: seq<nat>, a: nat): (k: nat)
    requires a in ring
    ensures k < |ring| && ring[k] == a
  {
    var k :| 0 <= k < |ring| && ring[k] == a; k
  }

  lemma OnlyBase(h: Heap, base: nat)
    requires h.ring == [base] && base in h.ptr && h.ptr[base] == base && base in h.size && h.size[base] == 0
        && h.live == {} && h.block == map[]
    ensures Inv(h, base)
  {
  }

  lemma Look(h: Heap, base: nat, j: nat)
    requires Inv(h, base) && j < |h.ring|
    ensures h.ring[j] in h.size && h.ring[j] in h.ptr && h.ptr[h.ring[j]] == h.ring[After(j, |h.ring|)]
    ensures j == 0 ==> h.ring[j] == base && h.size[base] == 0
  {
    InRing(h, base, j);
    NextInRing(h, base, j);
  }

  /** Passing a block that is not at m brings the search one step nearer to m and to f. */
  lemma Onward(h: Heap, base: nat, j: nat, f: nat, m: nat)
    requires Inv(h, base) && j < |h.ring| && f < |h.ring|
    ensures h.ring[After(j, |h.ring|)] == h.ring[f] <==> After(j, |h.ring|) == f
    ensures Steps(|h.ring|, j, f) >= 1 && (Steps(|h.ring|, j, f) == 1 <==> After(j, |h.ring|) == f)
    ensures After(j, |h.ring|) != f ==> Steps(|h.ring|, After(j, |h.ring|), f) == Steps(|h.ring|, j, f) - 1
    ensures m < |h.ring| ==> Steps(|h.ring|, j, m) >= 1 && (Steps(|h.ring|, j, m) == 1 <==> After(j, |h.ring|) == m)
    ensures m < |h.ring| && After(j, |h.ring|) != m ==>
        Steps(|h.ring|, After(j, |h.ring|), m) == Steps(|h.ring|, j, m) - 1
  {
    hide Partition, Coalesced;
  }

  /** The blocks passed since the search left f are too small. */
  ghost predicate AllSmall(h: Heap, j: nat, f: nat, n: nat)
  {
    forall i: nat :: i < |h.ring| && Steps(|h.ring|, j, i) > Steps(|h.ring|, j, f) ==>
        h.ring[i] in h.size && h.size[h.ring[i]] < n
  }

  /** a is the end of the first free block, from the one behind `start` on, that has n units. */
  ghost predicate FirstFit(h: Heap, start: nat, n: nat, a: int)
  {
    exists j: nat, f: nat ::
      && j < |h.ring| && f < |h.ring| && h.ring[f] == start && AllSmall(h, j, f, n)
      && FitsAt(h, h.ring[After(j, |h.ring|)], n, a)
  }

  predicate FitsAt(h: Heap, p: nat, n: nat, a: int)
  {
    p in h.size && h.size[p] >= n && a == p + h.size[p] - n
  }

  lemma Fits(h: Heap, j: nat, f: nat, n: nat)
    requires j < |h.ring| && f < |h.ring| && AllSmall(h, j, f, n)
    requires h.ring[After(j, |h.ring|)] in h.size && h.size[h.ring[After(j, |h.ring|)]] >= n
    ensures var p := h.ring[After(j, |h.ring|)]; FirstFit(h, h.ring[f], n, p + h.size[p] - n)
  {
    hide AllSmall;
    var p := h.ring[After(j, |h.ring|)];
    assert FitsAt(h, h.ring[After(j, |h.ring|)], n, p + h.size[p] - n);
  }

  lemma NoneTooBig(h: Heap, n: nat)
    requires h.ring == []
    ensures TooSmall(h, n)
  {
  }

  /** Every free block has fewer than n units. */
  ghost predicate TooSmall(h: Heap, n: nat)
  {
    forall k: nat :: k < |h.ring| ==> h.ring[k] in h.size && h.size[h.ring[k]] < n
  }

  lemma SmallStart(h: Heap, j: nat, n: nat)
    requires j < |h.ring|
    ensures AllSmall(h, j, j, n)
  {
  }

  lemma SmallStep(h: Heap, j: nat, f: nat, n: nat)
    requires j < |h.ring| && f < |h.ring| && AllSmall(h, j, f, n)
    requires h.ring[After(j, |h.ring|)] in h.size && h.size[h.ring[After(j, |h.ring|)]] < n
    ensures After(j, |h.ring|) != f ==> AllSmall(h, After(j, |h.ring|), f, n)
    ensures After(j, |h.ring|) == f ==> TooSmall(h, n)
  {
  }

  lemma PrevStays(ring: seq<nat>, k: nat)
    requires 1 <= k < |ring|
    ensures ring[k - 1] in ring[..k] + ring[k + 1..]
  {
    assert (ring[..k] + ring[k + 1..])[k - 1] == ring[k - 1];
  }

  lemma SizedAll(h: Heap, base: nat)
    requires Inv(h, base)
    ensures forall a :: a in h.live ==> a in h.size
  {
    SizedLive(h, base);
  }

  lemma GrantedFields(h: Heap, a: nat, n: nat)
    ensures var r := Granted(h, a, n);
            r.ptr == h.ptr && r.size == h.size[a := n] && r.ring == h.ring && r.live == h.live + {a}
                && r.block.Keys == h.block.Keys + Units(a, n).Keys
  {
    hide Units;
  }

  lemma LiveAbove(h: Heap, base: nat, b: nat)
    requires Inv(h, base) && b in h.live
    ensures b > base && b !in h.ring
  {
    assert IsBlock(h, base, b);
  }

  /** The position after which an address above base belongs. */
  ghost function PlaceOf(h: Heap, base: nat, b: nat): (k: nat)
    requires Inv(h, base) && b > base && b !in h.ring
    ensures Between(h, k, b)
  {
    Last(h.ring, b, |h.ring|)
  }

  ghost function Last(ring: seq<nat>, b: nat, n: nat): (k: nat)
    requires 0 < n <= |ring| && ring[0] < b && b !in ring && (n < |ring| ==> b < ring[n])
    ensures k < |ring| && ring[k] < b && (k + 1 < |ring| ==> b < ring[k + 1])
  {
    if ring[n - 1] < b then n - 1 else Last(ring, b, n - 1)
  }
}
