/** The heap of umalloc.c as one value. Addresses count units of one header.

    `ptr` and `size` are the header fields by address, `ring` the free list in address order starting
    with `base`, `live` the blocks handed out, and `block` tells for every unit obtained from sbrk
    which block it belongs to.
 */
module HeapState {

  datatype Heap = Heap(ptr: map<nat, nat>, size: map<nat, nat>, ring: seq<nat>, live: set<nat>, block: map<nat, nat>)

  function Next(ring: seq<nat>, k: nat): (a: nat)
    requires k < |ring|
  {
    if k + 1 == |ring| then ring[0] else ring[k + 1]
  }

  /** The free list is one circle through `ring`, in address order from base. */
  ghost predicate Circle(h: Heap, base: nat)
  {
    && |h.ring| > 0 && h.ring[0] == base
    && Rising(h.ring) && Linked(h.ptr, h.ring)
    && (forall k :: 0 <= k < |h.ring| ==> h.ring[k] in h.size) && h.size[base] == 0
  }

  ghost predicate Rising(ring: seq<nat>)
  {
    forall j, k :: 0 <= j < k < |ring| ==> ring[j] < ring[k]
  }

  ghost predicate Linked(ptr: map<nat, nat>, ring: seq<nat>)
  {
    forall k: nat :: k < |ring| ==> ring[k] in ptr && ptr[ring[k]] == Next(ring, k)
  }

  ghost predicate IsFree(h: Heap, base: nat, a: nat)
  {
    a in h.ring && a != base
  }

  ghost predicate IsBlock(h: Heap, base: nat, a: nat)
  {
    IsFree(h, base, a) || a in h.live
  }

  ghost predicate Sized(h: Heap, base: nat)
  {
    && (forall a: nat :: IsBlock(h, base, a) ==> a in h.size && h.size[a] > 0 && a > base)
    && (forall a: nat :: a in h.live ==> a !in h.ring)
  }

  /** Every unit lies in the block it belongs to. */
  ghost predicate Belongs(h: Heap, base: nat)
  {
    forall u: nat :: u in h.block ==>
      IsBlock(h, base, h.block[u]) && h.block[u] in h.size && h.block[u] <= u < h.block[u] + h.size[h.block[u]]
  }

  /** Every unit of a block belongs to it. */
  ghost predicate Covers(h: Heap, base: nat)
  {
    forall a: nat, u: nat :: IsBlock(h, base, a) && a in h.size && a <= u < a + h.size[a] ==>
        u in h.block && h.block[u] == a
  }

  /** Free and live blocks partition the units obtained from sbrk. */
  ghost predicate Partition(h: Heap, base: nat)
  {
    Sized(h, base) && Belongs(h, base) && Covers(h, base)
  }

  /** Free block k ends before the next one begins. */
  ghost predicate Gap(h: Heap, k: nat)
  {
    k + 1 < |h.ring| && h.ring[k] in h.size ==> h.ring[k] + h.size[h.ring[k]] < h.ring[k + 1]
  }

  /** No two free blocks touch. */
  ghost predicate Coalesced(h: Heap)
  {
    forall k: nat :: k >= 1 ==> Gap(h, k)
  }

  ghost predicate Inv(h: Heap, base: nat)
  {
    Circle(h, base) && Partition(h, base) && Coalesced(h)
  }

  /** Blocks do not overlap. */
  lemma Disjoint(h: Heap, base: nat, a: nat, b: nat)
    requires Partition(h, base) && IsBlock(h, base, a) && IsBlock(h, base, b) && a < b
    ensures a + h.size[a] <= b
  {
    assert b in h.block && h.block[b] == b;
  }

  // ---- taking blocks into the list ----

  /** Where in the list block b belongs: after ring[k]. */
  ghost predicate Between(h: Heap, k: nat, b: nat)
  {
    k < |h.ring| && h.ring[k] < b && (k + 1 < |h.ring| ==> b < h.ring[k + 1])
  }

  ghost function Insert(h: Heap, k: nat, b: nat): (r: Heap)
    requires k < |h.ring| && h.ring[k] in h.ptr
  {
    h.(ptr := h.ptr[b := h.ptr[h.ring[k]]][h.ring[k] := b], ring := h.ring[..k + 1] + [b] + h.ring[k + 1..],
        live := h.live - {b})
  }

  lemma InsertRising(ring: seq<nat>, k: nat, b: nat)
    requires Rising(ring) && k < |ring| && ring[k] < b && (k + 1 < |ring| ==> b < ring[k + 1])
    ensures Rising(ring[..k + 1] + [b] + ring[k + 1..])
  {
    if k + 1 < |ring| {
      assert forall j :: k + 1 < j < |ring| ==> ring[k + 1] < ring[j];
    }
    assert forall j :: 0 <= j < k ==> ring[j] < ring[k];
  }

  lemma InsertLinked(ptr: map<nat, nat>, ring: seq<nat>, k: nat, b: nat)
    requires Rising(ring) && Linked(ptr, ring) && k < |ring| && ring[k] < b && (k + 1 < |ring| ==> b < ring[k + 1])
    ensures Linked(ptr[b := ptr[ring[k]]][ring[k] := b], ring[..k + 1] + [b] + ring[k + 1..])
  {
    var ring' := ring[..k + 1] + [b] + ring[k + 1..];
    var ptr' := ptr[b := ptr[ring[k]]][ring[k] := b];
    InsertRising(ring, k, b);
    forall j: nat | j < |ring'|
      ensures ring'[j] in ptr' && ptr'[ring'[j]] == Next(ring', j)
    {
      if j != k && j != k + 1 {
        InsertApart(ring, k, b, j);
        assert ptr[ring'[j]] == Next(ring, if j < k then j else j - 1);
      }
    }
  }

  lemma InsertApart(ring: seq<nat>, k: nat, b: nat, j: nat)
    requires Rising(ring) && k < |ring| && ring[k] < b && (k + 1 < |ring| ==> b < ring[k + 1]) && j <= |ring| && j != k
        && j != k + 1
    ensures var ring' := ring[..k + 1] + [b] + ring[k + 1..]; var i := if j < k then j else j - 1;
            i < |ring| && ring'[j] == ring[i] && ring'[j] != b && ring'[j] != ring[k] && Next(ring', j) == Next(ring, i)
  {
  }

  lemma InsertCircle(h: Heap, base: nat, k: nat, b: nat)
    requires Circle(h, base) && Between(h, k, b) && b in h.size
    ensures Circle(Insert(h, k, b), base)
  {
    hide Rising, Linked;
    InsertRising(h.ring, k, b);
    InsertLinked(h.ptr, h.ring, k, b);
  }

  lemma InsertPartition(h: Heap, base: nat, k: nat, b: nat)
    requires Circle(h, base) && Partition(h, base) && Between(h, k, b) && b in h.live
    ensures Partition(Insert(h, k, b), base)
  {
    var h' := Insert(h, k, b);
    forall a
      ensures a in h'.ring <==> a in h.ring || a == b
    {
      InsertMember(h.ring, k, b, a);
    }
    assert forall a :: IsBlock(h', base, a) <==> IsBlock(h, base, a);
  }

  lemma InsertMember(ring: seq<nat>, k: nat, b: nat, a: nat)
    requires k < |ring|
    ensures a in ring[..k + 1] + [b] + ring[k + 1..] <==> a in ring || a == b
  {
    assert ring == ring[..k + 1] + ring[k + 1..];
  }

  /** Two free blocks that touch become one. */
  ghost function Join(h: Heap, j: nat): (r: Heap)
    requires j + 1 < |h.ring| && h.ring[j] in h.size && h.ring[j + 1] in h.size && h.ring[j + 1] in h.ptr
  {
    var a, b := h.ring[j], h.ring[j + 1];
    h.(ptr := h.ptr[a := h.ptr[b]], size := h.size[a := h.size[a] + h.size[b]],
        ring := h.ring[..j + 1] + h.ring[j + 2..],
       block := map u | u in h.block :: if h.block[u] == b then a else h.block[u])
  }

  lemma JoinRing(ptr: map<nat, nat>, ring: seq<nat>, j: nat)
    requires Rising(ring) && Linked(ptr, ring) && j + 1 < |ring|
    ensures Rising(ring[..j + 1] + ring[j + 2..])
        && Linked(ptr[ring[j] := ptr[ring[j + 1]]], ring[..j + 1] + ring[j + 2..])
  {
    hide Rising, Linked;
    JoinRising(ring, j);
    JoinLinked(ptr, ring, j);
  }

  lemma JoinRising(ring: seq<nat>, j: nat)
    requires Rising(ring) && j + 1 < |ring|
    ensures Rising(ring[..j + 1] + ring[j + 2..])
  {
  }

  lemma JoinLinked(ptr: map<nat, nat>, ring: seq<nat>, j: nat)
    requires Rising(ring) && Linked(ptr, ring) && j + 1 < |ring|
    ensures Linked(ptr[ring[j] := ptr[ring[j + 1]]], ring[..j + 1] + ring[j + 2..])
  {
    var ring' := ring[..j + 1] + ring[j + 2..];
    var ptr' := ptr[ring[j] := ptr[ring[j + 1]]];
    forall k: nat | k < |ring'|
      ensures ring'[k] in ptr' && ptr'[ring'[k]] == Next(ring', k)
    {
      JoinLinkedAt(ptr, ring, j, k);
    }
  }

  lemma JoinLinkedAt(ptr: map<nat, nat>, ring: seq<nat>, j: nat, k: nat)
    requires Rising(ring) && Linked(ptr, ring) && j + 1 < |ring| && k + 1 < |ring|
    ensures var ring', ptr' := ring[..j + 1] + ring[j + 2..], ptr[ring[j] := ptr[ring[j + 1]]];
            ring'[k] in ptr' && ptr'[ring'[k]] == Next(ring', k)
  {
    hide Rising, Linked;
    var ring' := ring[..j + 1] + ring[j + 2..];
    assert |ring'| == |ring| - 1;
    LinkedAt(ptr, ring, j + 1);
    if k <= j {
      LinkedAt(ptr, ring, k);
      DistinctAt(ring, j, k);
    } else {
      LinkedAt(ptr, ring, k + 1);
      DistinctAt(ring, j, k + 1);
    }
  }

  lemma LinkedAt(ptr: map<nat, nat>, ring: seq<nat>, k: nat)
    requires Linked(ptr, ring) && k < |ring|
    ensures ring[k] in ptr && ptr[ring[k]] == Next(ring, k)
  {
  }

  lemma DistinctAt(ring: seq<nat>, j: nat, k: nat)
    requires Rising(ring) && j < |ring| && k < |ring|
    ensures ring[j] == ring[k] <==> j == k
  {
  }

  lemma JoinMember(ring: seq<nat>, j: nat, a: nat)
    requires Rising(ring) && j + 1 < |ring|
    ensures a in ring[..j + 1] + ring[j + 2..] <==> a in ring && a != ring[j + 1]
  {
    assert ring == ring[..j + 1] + [ring[j + 1]] + ring[j + 2..];
  }

  lemma JoinKeeps(h: Heap, base: nat, j: nat)
    requires Circle(h, base) && Partition(h, base) && 1 <= j < |h.ring| - 1
        && h.ring[j] + h.size[h.ring[j]] == h.ring[j + 1]
    ensures Circle(Join(h, j), base) && Partition(Join(h, j), base)
  {
    var h' := Join(h, j);
    JoinRing(h.ptr, h.ring, j);
    JoinPartition(h, base, j);
  }

  lemma JoinPartition(h: Heap, base: nat, j: nat)
    requires Circle(h, base) && Partition(h, base) && 1 <= j < |h.ring| - 1 && h.ring[j + 1] in h.ptr
    requires h.ring[j] + h.size[h.ring[j]] == h.ring[j + 1]
    ensures Partition(Join(h, j), base)
  {
    hide Rising, Linked, Partition, Next;
    var h', x, y := Join(h, j), h.ring[j], h.ring[j + 1];
    LiveNotFree(h, base);
    JoinBlocks(h, base, j);
    JoinUnits(h, h', base, x, y);
  }

  lemma LiveNotFree(h: Heap, base: nat)
    requires Partition(h, base)
    ensures forall a :: a in h.live ==> a !in h.ring
  {
  }

  lemma JoinUnits(h: Heap, h': Heap, base: nat, x: nat, y: nat)
    requires Partition(h, base) && IsFree(h, base, x) && IsFree(h, base, y) && x != y && x + h.size[x] == y
    requires h'.size == h.size[x := h.size[x] + h.size[y]] && h'.live == h.live
    requires h'.block == map u | u in h.block :: if h.block[u] == y then x else h.block[u]
    requires forall a: nat :: a in h'.ring <==> a in h.ring && a != y
    ensures Partition(h', base)
  {
    hide Belongs, Covers;
    assert forall a: nat :: IsBlock(h', base, a) <==> IsBlock(h, base, a) && a != y;
    JoinBelongs(h, h', base, x, y);
    JoinCovers(h, h', base, x, y);
  }

  lemma JoinBelongs(h: Heap, h': Heap, base: nat, x: nat, y: nat)
    requires Belongs(h, base) && x in h.size && y in h.size && x + h.size[x] == y && IsBlock(h, base, x) && x != y
    requires h'.size == h.size[x := h.size[x] + h.size[y]]
    requires h'.block == map u | u in h.block :: if h.block[u] == y then x else h.block[u]
    requires forall a: nat :: IsBlock(h', base, a) <==> IsBlock(h, base, a) && a != y
    ensures Belongs(h', base)
  {
    hide IsBlock;
  }

  lemma JoinCovers(h: Heap, h': Heap, base: nat, x: nat, y: nat)
    requires Covers(h, base) && x in h.size && y in h.size && x + h.size[x] == y
    requires IsBlock(h, base, x) && IsBlock(h, base, y) && x != y
    requires h'.size == h.size[x := h.size[x] + h.size[y]]
    requires h'.block == map u | u in h.block :: if h.block[u] == y then x else h.block[u]
    requires forall a: nat :: IsBlock(h', base, a) <==> IsBlock(h, base, a) && a != y
    ensures Covers(h', base)
  {
    hide IsBlock;
    forall a: nat, u: nat | IsBlock(h', base, a) && a in h'.size && a <= u < a + h'.size[a]
      ensures u in h'.block && h'.block[u] == a
    {
      if a == x && u >= y {
        assert h.block[u] == y;
      } else {
        assert h.block[u] == a;
      }
    }
  }

  lemma JoinBlocks(h: Heap, base: nat, j: nat)
    requires Circle(h, base) && 1 <= j < |h.ring| - 1 && (forall a :: a in h.live ==> a !in h.ring)
    ensures h.ring[j] in h.size && h.ring[j + 1] in h.size && h.ring[j + 1] in h.ptr && h.ring[j] != h.ring[j + 1]
    ensures IsFree(h, base, h.ring[j]) && IsFree(h, base, h.ring[j + 1])
    ensures forall a: nat :: a in Join(h, j).ring <==> a in h.ring && a != h.ring[j + 1]
  {
    forall a: nat
      ensures a in Join(h, j).ring <==> a in h.ring && a != h.ring[j + 1]
    {
      JoinMember(h.ring, j, a);
    }
  }

  // ---- free ----

  lemma JoinGap(h: Heap, base: nat, j: nat, i: nat)
    requires Circle(h, base) && 1 <= j < |h.ring| - 1 && h.ring[j + 1] in h.ptr
        && h.ring[j] + h.size[h.ring[j]] == h.ring[j + 1]
    ensures i < j && Gap(h, i) ==> Gap(Join(h, j), i)
    ensures Gap(h, j + 1) ==> Gap(Join(h, j), j)
    ensures i > j && Gap(h, i + 1) ==> Gap(Join(h, j), i)
  {
    hide Linked;
  }

  ghost function WithNext(h: Heap, k: nat): (r: Heap)
    requires k < |h.ring| && h.ring[k] in h.size
        && (k + 1 < |h.ring| ==> h.ring[k + 1] in h.size && h.ring[k + 1] in h.ptr)
  {
    if k + 1 < |h.ring| && h.ring[k] + h.size[h.ring[k]] == h.ring[k + 1] then Join(h, k) else h
  }

  /** A list whose neighbours may touch at `k` is mended there. */
  lemma WithNextKeeps(h: Heap, base: nat, k: nat)
    requires Circle(h, base) && Partition(h, base) && 1 <= k < |h.ring|
    requires forall i: nat :: 1 <= i && i != k && i != k - 1 ==> Gap(h, i)
    ensures h.ring[k] in h.size && (k + 1 < |h.ring| ==> h.ring[k + 1] in h.size && h.ring[k + 1] in h.ptr)
    ensures var r := WithNext(h, k);
            && Circle(r, base) && Partition(r, base) && k < |r.ring| && r.ring[..k + 1] == h.ring[..k + 1]
               && r.live == h.live
            && r.block.Keys == h.block.Keys && (forall i: nat :: 1 <= i && i != k - 1 ==> Gap(r, i))
            && (k > 1 && Gap(h, k - 1) ==> Gap(r, k - 1))
               && (forall a :: a in h.live ==> a in h.size && a in r.size && r.size[a] == h.size[a])
            && (k > 1 ==> h.ring[k - 1] in r.size && r.size[h.ring[k - 1]] == h.size[h.ring[k - 1]])
  {
    hide Partition, Rising, Gap, Linked;
    InRing(h, base, k);
    SizedLive(h, base);
    if k + 1 < |h.ring| && h.ring[k] + h.size[h.ring[k]] == h.ring[k + 1] {
      JoinKeeps(h, base, k);
      forall i: nat | 1 <= i && i != k - 1
        ensures Gap(WithNext(h, k), i)
      {
        JoinGap(h, base, k, i);
      }
      JoinGap(h, base, k, k - 1);
    } else {
      NoTouch(h, base, k);
    }
  }

  lemma InRing(h: Heap, base: nat, k: nat)
    requires Circle(h, base) && k < |h.ring|
    ensures h.ring[k] in h.size && h.ring[k] in h.ptr
        && (k + 1 < |h.ring| ==> h.ring[k + 1] in h.size && h.ring[k + 1] in h.ptr)
    ensures k > 0 ==>
              IsFree(h, base, h.ring[k]) && h.ring[k] > base && h.ring[k - 1] in h.size
              && h.ring[k - 1] != h.ring[k]
    ensures k + 1 < |h.ring| ==> h.ring[k] < h.ring[k + 1]
  {
  }

  lemma SizedLive(h: Heap, base: nat)
    requires Partition(h, base)
    ensures forall a :: a in h.live ==> a in h.size && a !in h.ring
  {
    assert forall a: nat :: a in h.live ==> IsBlock(h, base, a);
  }

  lemma NoTouch(h: Heap, base: nat, k: nat)
    requires Circle(h, base) && Partition(h, base) && 1 <= k < |h.ring|
    requires k + 1 < |h.ring| && h.ring[k] in h.size ==> h.ring[k] + h.size[h.ring[k]] != h.ring[k + 1]
    ensures Gap(h, k)
  {
    if k + 1 < |h.ring| {
      InRing(h, base, k);
      InRing(h, base, k + 1);
      Disjoint(h, base, h.ring[k], h.ring[k + 1]);
    }
  }

  lemma InsertGap(h: Heap, base: nat, k: nat, b: nat, i: nat)
    requires Circle(h, base) && Coalesced(h) && Between(h, k, b) && 1 <= i && i != k && i != k + 1
    ensures Gap(Insert(h, k, b), i)
  {
    hide Rising;
    if i < k {
      assert Gap(h, i);
    } else {
      assert Gap(h, i - 1);
    }
  }

  /** The list with block b put back, joined with its neighbours where they touch. */
  ghost function Freed(h: Heap, base: nat, k: nat, b: nat): (r: Heap)
    requires Inv(h, base) && Between(h, k, b) && b in h.live
  {
    Inserted(h, base, k, b);
    var h1 := Insert(h, k, b);
    WithNextKeeps(h1, base, k + 1);
    var h2 := WithNext(h1, k + 1);
    if k == 0 then h2 else WithNextKeeps(h2, base, k); WithNext(h2, k)
  }

  lemma Inserted(h: Heap, base: nat, k: nat, b: nat)
    requires Inv(h, base) && Between(h, k, b) && b in h.live
    ensures h.ring[k] in h.ptr
    ensures var r := Insert(h, k, b);
            && Circle(r, base) && Partition(r, base) && k + 1 < |r.ring| && r.ring[..k + 1] == h.ring[..k + 1]
               && r.ring[k + 1] == b
            && (forall i: nat :: 1 <= i && i != k && i != k + 1 ==> Gap(r, i))
  {
    hide Rising, Linked, Gap, Partition;
    InRing(h, base, k);
    SizedLive(h, base);
    InsertCircle(h, base, k, b);
    InsertPartition(h, base, k, b);
    forall i: nat | 1 <= i && i != k && i != k + 1
      ensures Gap(Insert(h, k, b), i)
    {
      InsertGap(h, base, k, b, i);
    }
  }

  lemma FreedKeeps(h: Heap, base: nat, k: nat, b: nat)
    requires Inv(h, base) && Between(h, k, b) && b in h.live
    ensures var r := Freed(h, base, k, b);
            && Inv(r, base) && r.live == h.live - {b} && r.block.Keys == h.block.Keys && k < |r.ring|
               && r.ring[k] == h.ring[k]
            && forall a :: a in r.live ==> a in h.size && a in r.size && r.size[a] == h.size[a]
  {
    hide Circle, Partition, Gap, Insert, WithNext;
    Inserted(h, base, k, b);
    InsertFields(h, base, k, b);
    var h1 := Insert(h, k, b);
    WithNextKeeps(h1, base, k + 1);
    var h2 := WithNext(h1, k + 1);
    assert h2.ring[k] == h2.ring[..k + 2][k] == h1.ring[..k + 1][k];
    if k > 0 {
      WithNextKeeps(h2, base, k);
      var h3 := WithNext(h2, k);
      assert h3.ring[k] == h3.ring[..k + 1][k];
    }
  }

  lemma InsertFields(h: Heap, base: nat, k: nat, b: nat)
    requires k < |h.ring| && h.ring[k] in h.ptr
    ensures var r := Insert(h, k, b);
            r.size == h.size && r.block == h.block && r.live == h.live - {b} && |r.ring| == |h.ring| + 1
            && r.ptr == h.ptr[b := h.ptr[h.ring[k]]][h.ring[k] := b]
  {
  }

  lemma WithNextFields(h: Heap, base: nat, k: nat)
    requires Circle(h, base) && 1 <= k < |h.ring|
    ensures h.ring[k] in h.size && h.ring[k] in h.ptr && h.ptr[h.ring[k]] in h.size && h.ptr[h.ring[k]] in h.ptr
    ensures k + 1 < |h.ring| ==> h.ring[k + 1] in h.size && h.ring[k + 1] in h.ptr
    ensures var a, nxt, r := h.ring[k], h.ptr[h.ring[k]], WithNext(h, k);
            if a + h.size[a] == nxt then r.size == h.size[a := h.size[a] + h.size[nxt]]
                && r.ptr == h.ptr[a := h.ptr[nxt]]
            else r.size == h.size && r.ptr == h.ptr
  {
    hide Rising, Linked;
    InRing(h, base, k);
    NextInRing(h, base, k);
  }

  /** The first assignments of free: b takes its successor in, or points to it. */
  lemma FreedForward(h: Heap, base: nat, k: nat, b: nat)
    requires Inv(h, base) && Between(h, k, b) && b in h.live
    ensures b in h.size && h.ring[k] in h.ptr && h.ptr[h.ring[k]] in h.ptr && h.ptr[h.ring[k]] in h.size
        && h.ring[k] in h.size && b != h.ring[k]
    ensures k + 1 < |Insert(h, k, b).ring| && Circle(Insert(h, k, b), base)
    ensures Insert(h, k, b).ring[k + 1] in h.size
    ensures k + 2 < |Insert(h, k, b).ring| ==>
        Insert(h, k, b).ring[k + 2] in h.size && Insert(h, k, b).ring[k + 2] in Insert(h, k, b).ptr
    ensures var nxt, r := h.ptr[h.ring[k]], WithNext(Insert(h, k, b), k + 1);
            && r.size == (if b + h.size[b] == nxt then h.size[b := h.size[b] + h.size[nxt]] else h.size)
            && r.ptr == h.ptr[b := if b + h.size[b] == nxt then h.ptr[nxt] else nxt][h.ring[k] := b]
  {
    hide Partition, Gap, Rising, Circle, Insert, WithNext;
    InRing(h, base, k);
    SizedLive(h, base);
    NextInRing(h, base, k);
    Inserted(h, base, k, b);
    InsertFields(h, base, k, b);
    var h1, p, nxt := Insert(h, k, b), h.ring[k], h.ptr[h.ring[k]];
    WithNextFields(h1, base, k + 1);
    assert h1.ptr[b] == nxt;
    NextDiffers(h, base, k, b);
  }

  lemma NextDiffers(h: Heap, base: nat, k: nat, b: nat)
    requires Inv(h, base) && Between(h, k, b) && b in h.live && b in h.size
    ensures h.ring[k] in h.ptr
        && (b + h.size[b] == h.ptr[h.ring[k]] ==> h.ptr[h.ring[k]] != h.ring[k] && h.ptr[h.ring[k]] != b)
  {
  }

  /** What the assignments in free come to. */
  lemma FreedFields(h: Heap, base: nat, k: nat, b: nat)
    requires Inv(h, base) && Between(h, k, b) && b in h.live
    ensures b in h.size && h.ring[k] in h.ptr && h.ptr[h.ring[k]] in h.ptr && h.ptr[h.ring[k]] in h.size
        && h.ring[k] in h.size && b != h.ring[k]
    ensures var p, nxt := h.ring[k], h.ptr[h.ring[k]];
            var size1 := if b + h.size[b] == nxt then h.size[b := h.size[b] + h.size[nxt]] else h.size;
            var ptr1 := h.ptr[b := if b + h.size[b] == nxt then h.ptr[nxt] else nxt];
            var r := Freed(h, base, k, b);
            if p + size1[p] == b then r.size == size1[p := size1[p] + size1[b]] && r.ptr == ptr1[p := ptr1[b]]
            else r.size == size1 && r.ptr == ptr1[p := b]
  {
    hide Partition, Gap, Circle, Insert, WithNext;
    FreedForward(h, base, k, b);
    Inserted(h, base, k, b);
    InsertFields(h, base, k, b);
    var h1 := Insert(h, k, b);
    WithNextKeeps(h1, base, k + 1);
    var h2, p := WithNext(h1, k + 1), h.ring[k];
    assert h2.ring[k] == h2.ring[..k + 2][k] == h1.ring[..k + 1][k] == p;
    if k > 0 {
      WithNextKeeps(h2, base, k);
      WithNextFields(h2, base, k);
    } else {
      BaseFirst(h, base);
    }
  }

  /** After free some free block is at least as large as the one given back. */
  lemma FreedBig(h: Heap, base: nat, k: nat, b: nat)
    requires Inv(h, base) && Between(h, k, b) && b in h.live && b in h.size
    ensures var r := Freed(h, base, k, b);
            exists m: nat :: m < |r.ring| && r.ring[m] in r.size && r.size[r.ring[m]] >= h.size[b]
  {
    hide Partition, Gap, Insert, WithNext, Circle;
    FreedKeeps(h, base, k, b);
    FreedFields(h, base, k, b);
    Inserted(h, base, k, b);
    InsertFields(h, base, k, b);
    var h1 := Insert(h, k, b);
    WithNextKeeps(h1, base, k + 1);
    var h2, r := WithNext(h1, k + 1), Freed(h, base, k, b);
    assert h2.ring[k + 1] == h2.ring[..k + 2][k + 1] == h1.ring[k + 1] == b;
    assert h2.ring[k] == h2.ring[..k + 2][k] == h1.ring[..k + 1][k] == h.ring[k];
    BaseFirst(h, base);
    if k > 0 {
      WithNextKeeps(h2, base, k);
      WithNextFields(h2, base, k);
      NotJoined(h2, base, k);
    }
    if h.ring[k] in r.size && r.size[h.ring[k]] >= h.size[b] {
      assert r.ring[k] == h.ring[k];
    } else {
      assert r.ring[k + 1] == b;
    }
  }

  lemma NotJoined(h: Heap, base: nat, k: nat)
    requires Circle(h, base) && 1 <= k < |h.ring| - 1
    ensures h.ring[k] in h.size && h.ring[k + 1] in h.size && h.ring[k + 1] in h.ptr
    ensures h.ring[k] + h.size[h.ring[k]] != h.ring[k + 1] ==> WithNext(h, k) == h
    ensures h.ring[k] in h.ptr && h.ptr[h.ring[k]] == h.ring[k + 1]
  {
    InRing(h, base, k);
    NextInRing(h, base, k);
  }

  lemma BaseFirst(h: Heap, base: nat)
    requires Inv(h, base)
    ensures |h.ring| > 0 && h.ring[0] == base && base in h.size && h.size[base] == 0
  {
  }

  lemma NextInRing(h: Heap, base: nat, k: nat)
    requires Circle(h, base) && k < |h.ring|
    ensures h.ring[k] in h.ptr && h.ptr[h.ring[k]] == Next(h.ring, k) && Next(h.ring, k) in h.ptr
        && Next(h.ring, k) in h.size
    ensures k + 1 == |h.ring| ==> Next(h.ring, k) == base
  {
  }

  // ---- malloc ----

  /** A free block is handed out whole. */
  ghost function TakeWhole(h: Heap, k: nat): (r: Heap)
    requires 1 <= k < |h.ring| && h.ring[k] in h.ptr
  {
    h.(ptr := h.ptr[h.ring[k - 1] := h.ptr[h.ring[k]]], ring := h.ring[..k] + h.ring[k + 1..],
        live := h.live + {h.ring[k]})
  }

  lemma TakeWholeKeeps(h: Heap, base: nat, k: nat)
    requires Inv(h, base) && 1 <= k < |h.ring|
    ensures h.ring[k] in h.ptr && Inv(TakeWhole(h, k), base)
  {
    hide Partition, Gap, Circle, Linked, Rising;
    TakeWholeCircle(h, base, k);
    var h' := TakeWhole(h, k);
    TakeWholePartition(h, base, k);
    forall i: nat | i >= 1
      ensures Gap(h', i)
    {
      TakeWholeGap(h, base, k, i);
    }
  }

  lemma TakeWholeCircle(h: Heap, base: nat, k: nat)
    requires Circle(h, base) && 1 <= k < |h.ring|
    ensures h.ring[k] in h.ptr && Circle(TakeWhole(h, k), base)
  {
    hide Linked, Rising;
    InRing(h, base, k);
    JoinRing(h.ptr, h.ring, k - 1);
  }

  lemma TakeWholePartition(h: Heap, base: nat, k: nat)
    requires Circle(h, base) && Partition(h, base) && 1 <= k < |h.ring| && h.ring[k] in h.ptr
    ensures Partition(TakeWhole(h, k), base)
  {
    hide Linked;
    var h' := TakeWhole(h, k);
    forall a: nat
      ensures a in h'.ring <==> a in h.ring && a != h.ring[k]
    {
      JoinMember(h.ring, k - 1, a);
    }
    assert forall a: nat :: IsBlock(h', base, a) <==> IsBlock(h, base, a);
  }

  lemma TakeWholeGap(h: Heap, base: nat, k: nat, i: nat)
    requires Inv(h, base) && 1 <= k < |h.ring| && h.ring[k] in h.ptr && i >= 1
    ensures Gap(TakeWhole(h, k), i)
  {
    hide Partition, Linked;
    assert Gap(h, i) && Gap(h, i + 1);
    if i == k - 1 && k + 1 < |h.ring| {
      assert h.ring[k] < h.ring[k + 1];
    }
  }

  /** The last n units of a larger free block are handed out. */
  ghost function TakeTail(h: Heap, k: nat, n: nat): (r: Heap)
    requires k < |h.ring| && h.ring[k] in h.size && 0 < n < h.size[h.ring[k]]
  {
    var p := h.ring[k];
    var q := p + h.size[p] - n;
    h.(size := h.size[p := h.size[p] - n][q := n], live := h.live + {q},
       block := map u | u in h.block :: if q <= u < q + n then q else h.block[u])
  }

  lemma TakeTailKeeps(h: Heap, base: nat, k: nat, n: nat)
    requires Inv(h, base) && 1 <= k < |h.ring| && h.ring[k] in h.size && 0 < n < h.size[h.ring[k]]
    ensures Inv(TakeTail(h, k, n), base) && h.ring[k] + h.size[h.ring[k]] - n !in h.live
  {
    hide Gap, Linked, Rising, Belongs, Covers, Sized;
    InRing(h, base, k);
    var p, h' := h.ring[k], TakeTail(h, k, n);
    var q := p + h.size[p] - n;
    NotAStart(h, base, p, q);
    TakeTailBlocks(h, h', base, p, n);
    forall i: nat | i >= 1
      ensures Gap(h', i)
    {
      TakeTailGap(h, base, k, n, i);
    }
  }

  lemma NotAStart(h: Heap, base: nat, p: nat, q: nat)
    requires Partition(h, base) && IsFree(h, base, p) && p in h.size && p < q < p + h.size[p]
    ensures !IsBlock(h, base, q) && q != base && q !in h.ring && q !in h.live && q > base && p !in h.live
  {
    assert h.block[q] == p;
  }

  lemma TakeTailGap(h: Heap, base: nat, k: nat, n: nat, i: nat)
    requires Circle(h, base) && Coalesced(h) && 1 <= k < |h.ring| && h.ring[k] in h.size && 0 < n < h.size[h.ring[k]]
        && i >= 1
    requires h.ring[k] + h.size[h.ring[k]] - n !in h.ring
    ensures Gap(TakeTail(h, k, n), i)
  {
    hide Linked;
    assert Gap(h, i);
  }

  lemma TakeTailBlocks(h: Heap, h': Heap, base: nat, p: nat, n: nat)
    requires Partition(h, base) && IsFree(h, base, p) && p in h.size && 0 < n < h.size[p] && h'.ring == h.ring
    requires var q := p + h.size[p] - n;
             && h'.size == h.size[p := h.size[p] - n][q := n] && h'.live == h.live + {q} && !IsBlock(h, base, q)
                && q !in h.ring && q > base
             && h'.block == map u | u in h.block :: if q <= u < q + n then q else h.block[u]
    ensures Partition(h', base)
  {
    hide Belongs, Covers;
    var q := p + h.size[p] - n;
    assert forall a: nat :: IsBlock(h', base, a) <==> IsBlock(h, base, a) || a == q;
    TakeTailBelongs(h, h', base, p, n);
    TakeTailCovers(h, h', base, p, n);
  }

  lemma TakeTailBelongs(h: Heap, h': Heap, base: nat, p: nat, n: nat)
    requires Belongs(h, base) && Covers(h, base) && p in h.size && 0 < n < h.size[p] && IsBlock(h, base, p)
    requires var q := p + h.size[p] - n;
             && h'.size == h.size[p := h.size[p] - n][q := n] && !IsBlock(h, base, q)
             && h'.block == map u | u in h.block :: if q <= u < q + n then q else h.block[u]
    requires forall a: nat :: IsBlock(h', base, a) <==> IsBlock(h, base, a) || a == p + h.size[p] - n
    ensures Belongs(h', base)
  {
    hide IsBlock;
  }

  lemma TakeTailCovers(h: Heap, h': Heap, base: nat, p: nat, n: nat)
    requires Covers(h, base) && p in h.size && 0 < n < h.size[p] && IsBlock(h, base, p)
    requires var q := p + h.size[p] - n;
             && h'.size == h.size[p := h.size[p] - n][q := n] && !IsBlock(h, base, q)
             && h'.block == map u | u in h.block :: if q <= u < q + n then q else h.block[u]
    requires forall a: nat :: IsBlock(h', base, a) <==> IsBlock(h, base, a) || a == p + h.size[p] - n
    ensures Covers(h', base)
  {
    hide IsBlock;
    var q := p + h.size[p] - n;
    forall a: nat, u: nat | IsBlock(h', base, a) && a in h'.size && a <= u < a + h'.size[a]
      ensures u in h'.block && h'.block[u] == a
    {
      assert q <= u < q + n ==> h.block[u] == p;
      if a != q {
        assert h.block[u] == a;
      }
    }
  }

  // ---- morecore ----

  /** sbrk granted the units a..a+n, as a block that free will take in. */
  ghost function Granted(h: Heap, a: nat, n: nat): (r: Heap)
  {
    h.(size := h.size[a := n], live := h.live + {a}, block := h.block + Units(a, n))
  }

  ghost function Units(a: nat, n: nat): (m: map<nat, nat>)
    ensures forall u :: u in m <==> a <= u < a + n
    ensures forall u :: u in m ==> m[u] == a
    decreases n
  {
    if n == 0 then map[] else Units(a, n - 1)[a + n - 1 := a]
  }

  lemma GrantedKeeps(h: Heap, base: nat, a: nat, n: nat)
    requires Inv(h, base) && a > base && n > 0 && forall u :: a <= u < a + n ==> u !in h.block
    ensures Inv(Granted(h, a, n), base) && a !in h.ring && a !in h.live
  {
    hide Gap, Linked, Rising, Units, Partition;
    NotOurs(h, base, a);
    GrantedPartition(h, base, a, n);
    forall i: nat | i >= 1
      ensures Gap(Granted(h, a, n), i)
    {
      GrantedGap(h, base, a, n, i);
    }
  }

  lemma GrantedPartition(h: Heap, base: nat, a: nat, n: nat)
    requires Partition(h, base) && a > base && n > 0 && a !in h.ring && a !in h.live
        && forall u :: a <= u < a + n ==> u !in h.block
    ensures Partition(Granted(h, a, n), base)
  {
    hide Units, Belongs, Covers;
    assert forall b: nat :: IsBlock(Granted(h, a, n), base, b) <==> IsBlock(h, base, b) || b == a;
    GrantedBelongs(h, base, a, n);
    GrantedCovers(h, base, a, n);
  }

  lemma GrantedBelongs(h: Heap, base: nat, a: nat, n: nat)
    requires Belongs(h, base) && n > 0 && !IsBlock(h, base, a)
    requires forall b: nat :: IsBlock(Granted(h, a, n), base, b) <==> IsBlock(h, base, b) || b == a
    ensures Belongs(Granted(h, a, n), base)
  {
    hide Units, IsBlock;
  }

  lemma GrantedCovers(h: Heap, base: nat, a: nat, n: nat)
    requires Covers(h, base) && n > 0 && !IsBlock(h, base, a) && forall u :: a <= u < a + n ==> u !in h.block
    requires forall b: nat :: IsBlock(Granted(h, a, n), base, b) <==> IsBlock(h, base, b) || b == a
    ensures Covers(Granted(h, a, n), base)
  {
    hide Units, IsBlock;
  }

  lemma GrantedGap(h: Heap, base: nat, a: nat, n: nat, i: nat)
    requires Circle(h, base) && Coalesced(h) && a !in h.ring && i >= 1
    ensures Gap(Granted(h, a, n), i)
  {
    hide Linked, Rising, Units;
    assert Gap(h, i);
  }

  lemma NotOurs(h: Heap, base: nat, a: nat)
    requires Inv(h, base) && a > base && a !in h.block
    ensures a !in h.ring && a !in h.live && !IsBlock(h, base, a)
  {
    hide Gap, Linked, Rising, Partition;
    if IsBlock(h, base, a) {
      StartInBlock(h, base, a);
      assert false;
    }
  }

  lemma StartInBlock(h: Heap, base: nat, a: nat)
    requires Partition(h, base) && IsBlock(h, base, a)
    ensures a in h.block && h.block[a] == a
  {
    assert a in h.size && a <= a < a + h.size[a];
  }
}
