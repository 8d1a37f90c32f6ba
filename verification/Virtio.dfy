/** The virtqueue of virtio_disk.c: descriptors, available and used rings, and who owns what.

    The device is an environment that obeys VirtIO 1.1: it takes entries of the available ring in
    order, and for each request it has taken it writes a status, 0 or an error, and then one entry of the
    used ring.
 */
module Virtio {
  import opened Collections

  const NUM: nat := 8
  const WRAP: nat := 0x1_0000

  const BSIZE: nat := 1024
  const REQSIZE: nat := 16      // sizeof(struct virtio_blk_req)
  const WORD: nat := 0x1_0000_0000

  /** `write`: the device writes the memory at addr. */
  datatype Desc = Desc(addr: nat, len: nat, next: nat, more: bool, write: bool)

  const BLANK: Desc := Desc(0, 0, 0, false, false)

  /** struct virtio_blk_req. `out`: a write to the disk. */
  datatype Op = Op(out: bool, sector: nat)

  /** struct disk. `busy` are the buffers whose b->disk is 1. */
  datatype Disk = Disk(free: seq<bool>, desc: seq<Desc>, avail: seq<nat>, availIdx: nat,
                       used: seq<nat>, usedIdx: nat, seenUsed: nat,
                       info: seq<Option<nat>>, status: seq<nat>, ops: seq<Op>, busy: set<nat>)

  /** Submitted as the i-th request, taken by the device, reported as the i-th completion with a
      status, or acknowledged by the interrupt handler. */
  datatype Phase = Queued(i: nat) | Taken | Used(i: nat, code: nat) | Acked

  datatype Req = Req(b: nat, op: Op, d1: nat, d2: nat, phase: Phase)

  /** Requests by head descriptor, the owner of each descriptor, the heads of all submissions and of
      all completions so far, and how many of those were consumed. */
  datatype Track = Track(reqs: map<nat, Req>, own: seq<Option<nat>>, made: seq<nat>, seen: nat,
                         done: seq<nat>, acked: nat)

  ghost predicate Shape(d: Disk, g: Track)
  {
    && |d.free| == |d.desc| == |d.avail| == |d.used| == |d.info| == |d.status| == |d.ops| == |g.own| == NUM
    && d.availIdx == |g.made| % WRAP && d.usedIdx == |g.done| % WRAP && d.seenUsed == g.acked % WRAP
    && g.seen <= |g.made| && g.acked <= |g.done|
  }

  /** Descriptor i belongs to the chain of request h. */
  predicate InChain(h: nat, r: Req, i: nat)
  {
    i == h || i == r.d1 || i == r.d2
  }

  ghost predicate Chain(d: Disk, g: Track, h: nat)
    requires Shape(d, g) && h in g.reqs
  {
    var r := g.reqs[h];
    && h < NUM && r.d1 < NUM && r.d2 < NUM && h != r.d1 && h != r.d2 && r.d1 != r.d2
    && d.desc[h] == Desc(h, REQSIZE, r.d1, true, false) && d.desc[r.d1] == Desc(r.b, BSIZE, r.d2, true, !r.op.out)
    && d.desc[r.d2] == Desc(h, 1, 0, false, true) && d.ops[h] == r.op
    && g.own[h] == g.own[r.d1] == g.own[r.d2] == Some(h)
    && d.info[h] == Some(r.b) && (r.b in d.busy <==> r.phase != Acked)
  }

  ghost predicate Owners(d: Disk, g: Track)
    requires Shape(d, g)
  {
    && (forall i :: 0 <= i < NUM ==> (d.free[i] <==> g.own[i].None?))
    && (forall i: nat :: i < NUM && g.own[i].Some? ==>
       g.own[i].value in g.reqs && InChain(g.own[i].value, g.reqs[g.own[i].value], i))
  }

  ghost predicate Chains(d: Disk, g: Track)
    requires Shape(d, g)
  {
    && (forall h :: h in g.reqs ==> Chain(d, g, h))
    && (forall h, k :: h in g.reqs && k in g.reqs && h != k ==> g.reqs[h].b != g.reqs[k].b)
  }

  /** Free descriptors and the chains of the requests in flight partition the descriptors. */
  ghost predicate Partition(d: Disk, g: Track)
    requires Shape(d, g)
  {
    Owners(d, g) && Chains(d, g)
  }

  /** The rings hold the requests that were not consumed yet. */
  ghost predicate Rings(d: Disk, g: Track)
    requires Shape(d, g)
  {
    && (forall i: nat :: g.seen <= i < |g.made| ==>
          g.made[i] in g.reqs && g.reqs[g.made[i]].phase == Queued(i) && d.avail[i % NUM] == g.made[i])
    && (forall i: nat :: g.acked <= i < |g.done| ==>
          && g.done[i] in g.reqs && g.done[i] < NUM && g.reqs[g.done[i]].phase == Used(i, d.status[g.done[i]])
          && d.used[i % NUM] == g.done[i])
    && (forall h :: h in g.reqs && g.reqs[h].phase.Queued? ==>
       g.seen <= g.reqs[h].phase.i < |g.made| && g.made[g.reqs[h].phase.i] == h)
    && (forall h :: h in g.reqs && g.reqs[h].phase.Used? ==>
       g.acked <= g.reqs[h].phase.i < |g.done| && g.done[g.reqs[h].phase.i] == h)
  }

  ghost predicate Inv(d: Disk, g: Track)
  {
    Shape(d, g) && Partition(d, g) && Rings(d, g)
  }

  // ---- the rings do not overflow ----

  /** Distinct numbers below n, none of them x, fill at most n - 1 places. */
  lemma FewerThan(n: nat, s: seq<nat>, x: nat)
    requires x < n && x !in s && (forall i :: 0 <= i < |s| ==> s[i] < n)
        && forall i, j :: 0 <= i < j < |s| ==> s[i] != s[j]
    ensures |s| < n
  {
    DistinctCard(s);
    SubsetCard(Elems(s) + {x}, UpTo(n));
  }

  lemma QueuedAt(d: Disk, g: Track, i: nat)
    requires Inv(d, g) && g.seen <= i < |g.made|
    ensures g.made[i] in g.reqs && g.reqs[g.made[i]].phase == Queued(i) && d.avail[i % NUM] == g.made[i]
        && g.made[i] < NUM
  {
    hide InChain;
    assert Chain(d, g, g.made[i]);
  }

  lemma UsedAt(d: Disk, g: Track, i: nat)
    requires Inv(d, g) && g.acked <= i < |g.done|
    ensures g.done[i] in g.reqs && g.done[i] < NUM && g.reqs[g.done[i]].phase == Used(i, d.status[g.done[i]])
        && d.used[i % NUM] == g.done[i]
    ensures d.info[g.done[i]] == Some(g.reqs[g.done[i]].b) && g.reqs[g.done[i]].b in d.busy
  {
    hide InChain;
    assert Chain(d, g, g.done[i]);
  }

  lemma ChainAt(d: Disk, g: Track, h: nat)
    requires Inv(d, g) && h in g.reqs
    ensures Chain(d, g, h)
  {
  }

  /** The available ring has room for one more request while a descriptor is free. */
  lemma RoomInAvail(d: Disk, g: Track, x: nat)
    requires Inv(d, g) && x < NUM && x !in g.reqs
    ensures |g.made| - g.seen < NUM
  {
    hide Partition, Rings;
    var s := g.made[g.seen..];
    forall i, j | 0 <= i < j < |s|
      ensures s[i] != s[j]
    {
      QueuedAt(d, g, g.seen + i);
      QueuedAt(d, g, g.seen + j);
    }
    forall i | 0 <= i < |s|
      ensures s[i] < NUM && s[i] in g.reqs
    {
      QueuedAt(d, g, g.seen + i);
    }
    FewerThan(NUM, s, x);
  }

  /** The used ring has room for the completion of any request the device still has. */
  lemma RoomInUsed(d: Disk, g: Track, h: nat)
    requires Inv(d, g) && h in g.reqs && g.reqs[h].phase == Taken
    ensures |g.done| - g.acked < NUM
  {
    hide Partition, Rings;
    ChainAt(d, g, h);
    var s := g.done[g.acked..];
    forall i, j | 0 <= i < j < |s|
      ensures s[i] != s[j]
    {
      UsedAt(d, g, g.acked + i);
      UsedAt(d, g, g.acked + j);
    }
    forall i | 0 <= i < |s|
      ensures s[i] < NUM && s[i] != h
    {
      UsedAt(d, g, g.acked + i);
    }
    FewerThan(NUM, s, h);
  }

  // ---- submitting a request ----

  ghost predicate ThreeFree(d: Disk, h: nat, d1: nat, d2: nat)
  {
    && |d.free| == NUM && h < NUM && d1 < NUM && d2 < NUM && h != d1 && h != d2 && d1 != d2
    && d.free[h] && d.free[d1] && d.free[d2]
  }

  ghost function Submitted(d: Disk, b: nat, op: Op, h: nat, d1: nat, d2: nat): (r: Disk)
    requires ThreeFree(d, h, d1, d2) && |d.desc| == |d.avail| == |d.info| == |d.status| == |d.ops| == NUM
  {
    d.(free := d.free[h := false][d1 := false][d2 := false],
       ops := d.ops[h := op],
       desc := d.desc[h := Desc(h, REQSIZE, d1, true, false)]
                     [d1 := Desc(b, BSIZE, d2, true, !op.out)]
                     [d2 := Desc(h, 1, 0, false, true)],
       status := d.status[h := 0xff], info := d.info[h := Some(b)], busy := d.busy + {b},
       avail := d.avail[d.availIdx % NUM := h], availIdx := (d.availIdx + 1) % WRAP)
  }

  ghost function Recorded(g: Track, b: nat, op: Op, h: nat, d1: nat, d2: nat): (r: Track)
    requires |g.own| == NUM && h < NUM && d1 < NUM && d2 < NUM
  {
    g.(reqs := g.reqs[h := Req(b, op, d1, d2, Queued(|g.made|))],
        own := g.own[h := Some(h)][d1 := Some(h)][d2 := Some(h)], made := g.made + [h])
  }

  lemma SubmitShape(d: Disk, g: Track, b: nat, op: Op, h: nat, d1: nat, d2: nat)
    requires Shape(d, g) && ThreeFree(d, h, d1, d2)
    ensures Shape(Submitted(d, b, op, h, d1, d2), Recorded(g, b, op, h, d1, d2))
  {
  }

  lemma FreeNotReq(d: Disk, g: Track, i: nat)
    requires Inv(d, g) && i < NUM && d.free[i]
    ensures i !in g.reqs && forall k :: k in g.reqs ==> !InChain(k, g.reqs[k], i)
  {
    forall k | k in g.reqs
      ensures !InChain(k, g.reqs[k], i)
    {
      assert Chain(d, g, k);
    }
  }

  lemma SubmitChain(d: Disk, g: Track, b: nat, op: Op, h: nat, d1: nat, d2: nat, k: nat)
    requires Shape(d, g) && ThreeFree(d, h, d1, d2) && b !in d.busy
    requires Shape(Submitted(d, b, op, h, d1, d2), Recorded(g, b, op, h, d1, d2))
    requires k != h ==> && k in g.reqs && Chain(d, g, k) && g.reqs[k].b != b && !InChain(k, g.reqs[k], h)
                        && !InChain(k, g.reqs[k], d1) && !InChain(k, g.reqs[k], d2)
    ensures Chain(Submitted(d, b, op, h, d1, d2), Recorded(g, b, op, h, d1, d2), k)
  {
  }

  lemma SubmitOwners(d: Disk, g: Track, b: nat, op: Op, h: nat, d1: nat, d2: nat)
    requires Shape(d, g) && Owners(d, g) && ThreeFree(d, h, d1, d2) && h !in g.reqs
    requires Shape(Submitted(d, b, op, h, d1, d2), Recorded(g, b, op, h, d1, d2))
    ensures Owners(Submitted(d, b, op, h, d1, d2), Recorded(g, b, op, h, d1, d2))
  {
  }

  lemma SubmitPartition(d: Disk, g: Track, b: nat, op: Op, h: nat, d1: nat, d2: nat)
    requires Inv(d, g) && ThreeFree(d, h, d1, d2) && b !in d.busy && forall k :: k in g.reqs ==> g.reqs[k].b != b
    requires Shape(Submitted(d, b, op, h, d1, d2), Recorded(g, b, op, h, d1, d2))
    ensures Partition(Submitted(d, b, op, h, d1, d2), Recorded(g, b, op, h, d1, d2))
  {
    hide Rings, Owners, Chain, Submitted, InChain;
    FreeNotReq(d, g, h);
    FreeNotReq(d, g, d1);
    FreeNotReq(d, g, d2);
    SubmitOwners(d, g, b, op, h, d1, d2);
    var g' := Recorded(g, b, op, h, d1, d2);
    forall k | k in g'.reqs
      ensures Chain(Submitted(d, b, op, h, d1, d2), g', k)
    {
      SubmitChain(d, g, b, op, h, d1, d2, k);
    }
  }

  lemma SubmitRings(d: Disk, g: Track, b: nat, op: Op, h: nat, d1: nat, d2: nat)
    requires Inv(d, g) && ThreeFree(d, h, d1, d2)
        && Shape(Submitted(d, b, op, h, d1, d2), Recorded(g, b, op, h, d1, d2))
    ensures Rings(Submitted(d, b, op, h, d1, d2), Recorded(g, b, op, h, d1, d2))
  {
    hide Partition;
    FreeNotReq(d, g, h);
    RoomInAvail(d, g, h);
    var d', g' := Submitted(d, b, op, h, d1, d2), Recorded(g, b, op, h, d1, d2);
    forall i: nat | g'.seen <= i < |g'.made|
      ensures g'.made[i] in g'.reqs && g'.reqs[g'.made[i]].phase == Queued(i) && d'.avail[i % NUM] == g'.made[i]
    {
      OtherPlace(|g.made|, i, d.availIdx);
    }
  }

  /** An index that wrapped at 16 bits still finds the place, and no unconsumed entry is there. */
  lemma OtherPlace(n: nat, i: nat, idx: nat)
    requires idx == n % WRAP && i <= n < i + NUM
    ensures idx % NUM == n % NUM && (i % NUM == n % NUM <==> i == n)
  {
    SamePlace(n);
    OnlySame(n, i);
  }

  /** NUM divides 2^16. */
  lemma SamePlace(n: nat)
    ensures n % WRAP % NUM == n % NUM
  {
  }

  lemma OnlySame(n: nat, i: nat)
    requires i <= n < i + NUM
    ensures i % NUM == n % NUM <==> i == n
  {
  }

  lemma SubmitKeeps(d: Disk, g: Track, b: nat, op: Op, h: nat, d1: nat, d2: nat)
    requires Inv(d, g) && ThreeFree(d, h, d1, d2) && b !in d.busy && forall k :: k in g.reqs ==> g.reqs[k].b != b
    ensures Inv(Submitted(d, b, op, h, d1, d2), Recorded(g, b, op, h, d1, d2)) && h !in g.reqs
  {
    hide Partition, Rings, Submitted, Recorded;
    SubmitShape(d, g, b, op, h, d1, d2);
    SubmitPartition(d, g, b, op, h, d1, d2);
    SubmitRings(d, g, b, op, h, d1, d2);
    FreeNotReq(d, g, h);
  }

  // ---- the device ----

  ghost function SetPhase(g: Track, h: nat, phase: Phase): (r: Track)
    requires h in g.reqs
  {
    g.(reqs := g.reqs[h := g.reqs[h].(phase := phase)])
  }

  /** The device takes the next entry of the available ring. */
  ghost function TakeNext(g: Track): (r: Track)
    requires g.seen < |g.made| && g.made[g.seen] in g.reqs
  {
    SetPhase(g, g.made[g.seen], Taken).(seen := g.seen + 1)
  }

  lemma PhasePartition(d: Disk, g: Track, d': Disk, g': Track, h: nat, phase: Phase)
    requires Shape(d, g) && Partition(d, g) && Shape(d', g') && h in g.reqs && g'.reqs == SetPhase(g, h, phase).reqs
        && g'.own == g.own
    requires d'.free == d.free && d'.desc == d.desc && d'.info == d.info && d'.ops == d.ops
    requires d'.busy == (if phase == Acked then d.busy - {g.reqs[h].b} else d.busy) && g.reqs[h].phase != Acked
    ensures Partition(d', g')
  {
    hide Chain, InChain;
    PhaseOwners(d, g, d', g', h, phase);
    forall k | k in g'.reqs
      ensures Chain(d', g', k)
    {
      PhaseChain(d, g, d', g', h, phase, k);
    }
  }

  lemma PhaseOwners(d: Disk, g: Track, d': Disk, g': Track, h: nat, phase: Phase)
    requires Shape(d, g) && Owners(d, g) && Shape(d', g') && h in g.reqs && g'.reqs == SetPhase(g, h, phase).reqs
        && g'.own == g.own
    requires d'.free == d.free
    ensures Owners(d', g')
  {
  }

  lemma PhaseChain(d: Disk, g: Track, d': Disk, g': Track, h: nat, phase: Phase, k: nat)
    requires Shape(d, g) && Shape(d', g') && h in g.reqs && k in g.reqs && Chain(d, g, k)
        && (h != k ==> g.reqs[h].b != g.reqs[k].b)
    requires g'.reqs == SetPhase(g, h, phase).reqs && g'.own == g.own && d'.free == d.free && d'.desc == d.desc
        && d'.info == d.info && d'.ops == d.ops
    requires d'.busy == (if phase == Acked then d.busy - {g.reqs[h].b} else d.busy) && g.reqs[h].phase != Acked
    ensures Chain(d', g', k)
  {
  }

  lemma TakeKeeps(d: Disk, g: Track)
    requires Inv(d, g) && g.seen < |g.made|
    ensures g.made[g.seen] in g.reqs && Inv(d, TakeNext(g)) && g.made[g.seen] == d.avail[g.seen % NUM]
  {
    hide Partition, Chain;
    QueuedAt(d, g, g.seen);
    var h := g.made[g.seen];
    PhasePartition(d, g, d, TakeNext(g), h, Taken);
  }

  /** The device reports request h: status first, then the used ring. */
  ghost function Reported(d: Disk, h: nat, code: nat): (r: Disk)
    requires |d.used| == |d.status| == NUM && h < NUM
  {
    d.(status := d.status[h := code], used := d.used[d.usedIdx % NUM := h], usedIdx := (d.usedIdx + 1) % WRAP)
  }

  ghost function ReportRecorded(g: Track, h: nat, code: nat): (r: Track)
    requires h in g.reqs
  {
    SetPhase(g, h, Used(|g.done|, code)).(done := g.done + [h])
  }

  lemma ReportKeeps(d: Disk, g: Track, h: nat, code: nat)
    requires Inv(d, g) && h in g.reqs && g.reqs[h].phase == Taken
    ensures h < NUM && Inv(Reported(d, h, code), ReportRecorded(g, h, code))
  {
    hide Partition, Chain, Rings;
    ChainAt(d, g, h);
    HeadInRange(d, g, h);
    PhasePartition(d, g, Reported(d, h, code), ReportRecorded(g, h, code), h, Used(|g.done|, code));
    ReportRings(d, g, h, code);
  }

  lemma HeadInRange(d: Disk, g: Track, h: nat)
    requires Shape(d, g) && h in g.reqs && Chain(d, g, h)
    ensures h < NUM && g.reqs[h].d1 < NUM && g.reqs[h].d2 < NUM
  {
  }

  lemma ReportRings(d: Disk, g: Track, h: nat, code: nat)
    requires Inv(d, g) && h in g.reqs && g.reqs[h].phase == Taken && h < NUM
        && Shape(Reported(d, h, code), ReportRecorded(g, h, code))
    ensures Rings(Reported(d, h, code), ReportRecorded(g, h, code))
  {
    hide Partition;
    RoomInUsed(d, g, h);
    var d', g' := Reported(d, h, code), ReportRecorded(g, h, code);
    forall i: nat | g'.acked <= i < |g'.done|
      ensures && g'.done[i] in g'.reqs && g'.done[i] < NUM
          && g'.reqs[g'.done[i]].phase == Used(i, d'.status[g'.done[i]])
              && d'.used[i % NUM] == g'.done[i]
    {
      OtherPlace(|g.done|, i, d.usedIdx);
    }
  }

  // ---- the interrupt handler, one completion ----

  ghost function AckedOne(d: Disk, b: nat): (r: Disk)
  {
    d.(busy := d.busy - {b}, seenUsed := (d.seenUsed + 1) % WRAP)
  }

  ghost function AckRecorded(g: Track): (r: Track)
    requires g.acked < |g.done| && g.done[g.acked] in g.reqs
  {
    SetPhase(g, g.done[g.acked], Acked).(acked := g.acked + 1)
  }

  /** The handler finds the request that was reported, and clears its buffer and no other. */
  lemma AckKeeps(d: Disk, g: Track)
    requires Inv(d, g) && g.acked < |g.done|
    ensures d.seenUsed % NUM < NUM && d.used[d.seenUsed % NUM] == g.done[g.acked] < NUM && g.done[g.acked] in g.reqs
    ensures g.reqs[g.done[g.acked]].phase == Used(g.acked, d.status[g.done[g.acked]])
        && d.info[g.done[g.acked]] == Some(g.reqs[g.done[g.acked]].b)
    ensures Inv(AckedOne(d, g.reqs[g.done[g.acked]].b), AckRecorded(g))
  {
    hide Partition, Chain, Rings, Shape;
    UsedAt(d, g, g.acked);
    AckShape(d, g);
    var h := g.done[g.acked];
    PhasePartition(d, g, AckedOne(d, g.reqs[h].b), AckRecorded(g), h, Acked);
    AckRings(d, g);
  }

  lemma AckShape(d: Disk, g: Track)
    requires Shape(d, g) && g.acked < |g.done| && g.done[g.acked] in g.reqs
    ensures Shape(AckedOne(d, g.reqs[g.done[g.acked]].b), AckRecorded(g)) && d.seenUsed % NUM == g.acked % NUM
  {
    SamePlace(g.acked);
    NextCount(g.acked);
  }

  lemma NextCount(n: nat)
    ensures (n % WRAP + 1) % WRAP == (n + 1) % WRAP
  {
  }

  lemma AckRings(d: Disk, g: Track)
    requires Inv(d, g) && g.acked < |g.done| && g.done[g.acked] in g.reqs && g.reqs[g.done[g.acked]].phase.Used?
    requires Shape(AckedOne(d, g.reqs[g.done[g.acked]].b), AckRecorded(g))
    ensures Rings(AckedOne(d, g.reqs[g.done[g.acked]].b), AckRecorded(g))
  {
    hide Partition;
  }

  /** A completion that carries an error. */
  predicate Failed(r: Req)
  {
    r.phase.Used? && r.phase.code != 0
  }

  /** A request after the handler has gone through the first `acked` completions. */
  function Answered(r: Req, acked: nat): (r': Req)
  {
    if r.phase.Used? && r.phase.i < acked then r.(phase := Acked) else r
  }

  /** From g0, the handler has gone through the completions before g.acked and found no error. */
  ghost predicate AnsweredTo(g0: Track, g: Track)
  {
    && g.done == g0.done && g.made == g0.made && g.seen == g0.seen && g.reqs.Keys == g0.reqs.Keys
    && (forall h :: h in g.reqs ==> g.reqs[h] == Answered(g0.reqs[h], g.acked))
    && (forall h :: h in g.reqs && g0.reqs[h].phase.Used? && g0.reqs[h].phase.i < g.acked ==> !Failed(g0.reqs[h]))
  }

  lemma AnsweredNone(d: Disk, g: Track)
    requires Inv(d, g)
    ensures AnsweredTo(g, g)
  {
    hide Partition;
  }

  lemma AnsweredNext(d: Disk, g0: Track, g: Track)
    requires Inv(d, g) && g.acked < |g.done| && g.done[g.acked] in g.reqs && AnsweredTo(g0, g)
    requires g.reqs[g.done[g.acked]].phase == Used(g.acked, 0)
    ensures AnsweredTo(g0, AckRecorded(g))
  {
    hide Partition, Rings, Shape;
    var h, g' := g.done[g.acked], AckRecorded(g);
    forall k | k in g'.reqs
      ensures g'.reqs[k] == Answered(g0.reqs[k], g'.acked)
          && (g0.reqs[k].phase.Used? && g0.reqs[k].phase.i < g'.acked ==> !Failed(g0.reqs[k]))
    {
      if g.reqs[k].phase.Used? {
        UsedHead(d, g, k);
      }
    }
  }

  lemma UsedHead(d: Disk, g: Track, h: nat)
    requires Inv(d, g) && h in g.reqs && g.reqs[h].phase.Used?
    ensures g.acked <= g.reqs[h].phase.i < |g.done| && g.done[g.reqs[h].phase.i] == h
  {
    hide Partition;
  }

  lemma StoppedAt(g0: Track, g: Track)
    requires AnsweredTo(g0, g) && g.acked < |g.done| && g.done[g.acked] in g.reqs && Failed(g.reqs[g.done[g.acked]])
    ensures exists h :: h in g0.reqs && Failed(g0.reqs[h])
  {
    assert Failed(g0.reqs[g.done[g.acked]]);
  }

  lemma AnsweredAll(d: Disk, g0: Track, g: Track)
    requires Inv(d, g) && g.acked == |g.done| && AnsweredTo(g0, g)
    ensures forall h :: h in g0.reqs ==> !Failed(g0.reqs[h])
  {
    hide Partition;
  }

  /** The handler's loop condition, on indices that wrap, says whether completions are left. */
  lemma MoreToAck(d: Disk, g: Track)
    requires Inv(d, g)
    ensures d.seenUsed != d.usedIdx <==> g.acked < |g.done|
  {
    hide Partition, Rings;
    if g.acked < |g.done| {
      NotAWrapApart(d, g);
    }
  }

  lemma NotAWrapApart(d: Disk, g: Track)
    requires Inv(d, g)
    ensures |g.done| - g.acked <= NUM
  {
    hide Partition, Rings;
    var s := g.done[g.acked..];
    forall i, j | 0 <= i < j < |s|
      ensures s[i] != s[j]
    {
      UsedAt(d, g, g.acked + i);
      UsedAt(d, g, g.acked + j);
    }
    forall i | 0 <= i < |s|
      ensures s[i] < NUM
    {
      UsedAt(d, g, g.acked + i);
    }
    AtMost(NUM, s);
  }

  lemma AtMost(n: nat, s: seq<nat>)
    requires (forall i :: 0 <= i < |s| ==> s[i] < n) && forall i, j :: 0 <= i < j < |s| ==> s[i] != s[j]
    ensures |s| <= n
  {
    DistinctCard(s);
    SubsetCard(Elems(s), UpTo(n));
  }

  // ---- the requester frees its chain ----

  ghost function Released(d: Disk, h: nat, d1: nat, d2: nat): (r: Disk)
    requires |d.free| == |d.desc| == |d.info| == NUM && h < NUM && d1 < NUM && d2 < NUM
  {
    d.(info := d.info[h := None], free := d.free[h := true][d1 := true][d2 := true],
       desc := d.desc[h := BLANK][d1 := BLANK][d2 := BLANK])
  }

  ghost function Forgotten(g: Track, h: nat): (r: Track)
    requires h in g.reqs && h < |g.own| && g.reqs[h].d1 < |g.own| && g.reqs[h].d2 < |g.own|
  {
    g.(reqs := g.reqs - {h}, own := g.own[h := None][g.reqs[h].d1 := None][g.reqs[h].d2 := None])
  }

  lemma FinishKeeps(d: Disk, g: Track, h: nat)
    requires Inv(d, g) && h in g.reqs && g.reqs[h].phase == Acked
    ensures h < NUM && g.reqs[h].d1 < NUM && g.reqs[h].d2 < NUM
    ensures Inv(Released(d, h, g.reqs[h].d1, g.reqs[h].d2), Forgotten(g, h))
  {
    hide Rings, Chain;
    ChainAt(d, g, h);
    HeadInRange(d, g, h);
    FinishOwners(d, g, h);
    var d', g' := Released(d, h, g.reqs[h].d1, g.reqs[h].d2), Forgotten(g, h);
    forall k | k in g'.reqs
      ensures Chain(d', g', k)
    {
      FinishChain(d, g, h, k);
    }
    FinishRings(d, g, h);
  }

  lemma FinishChain(d: Disk, g: Track, h: nat, k: nat)
    requires Shape(d, g) && h in g.reqs && k in g.reqs && h != k && Chain(d, g, h) && Chain(d, g, k)
    requires Shape(Released(d, h, g.reqs[h].d1, g.reqs[h].d2), Forgotten(g, h))
    ensures Chain(Released(d, h, g.reqs[h].d1, g.reqs[h].d2), Forgotten(g, h), k)
  {
  }

  lemma FinishOwners(d: Disk, g: Track, h: nat)
    requires Shape(d, g) && Owners(d, g) && h in g.reqs && Chain(d, g, h)
    requires Shape(Released(d, h, g.reqs[h].d1, g.reqs[h].d2), Forgotten(g, h))
    ensures Owners(Released(d, h, g.reqs[h].d1, g.reqs[h].d2), Forgotten(g, h))
  {
  }

  lemma FinishRings(d: Disk, g: Track, h: nat)
    requires Shape(d, g) && Rings(d, g) && h in g.reqs && g.reqs[h].phase == Acked && Chain(d, g, h)
    requires Shape(Released(d, h, g.reqs[h].d1, g.reqs[h].d2), Forgotten(g, h))
    ensures Rings(Released(d, h, g.reqs[h].d1, g.reqs[h].d2), Forgotten(g, h))
  {
    hide Chain;
  }

  // ---- the driver ----

  /** Descriptors that are free matter to nobody. */
  lemma FreeDescsIrrelevant(d: Disk, g: Track, desc: seq<Desc>)
    requires Inv(d, g) && |desc| == NUM && forall i :: 0 <= i < NUM && !d.free[i] ==> desc[i] == d.desc[i]
    ensures Inv(d.(desc := desc), g)
  {
    var d' := d.(desc := desc);
    forall k | k in g.reqs
      ensures Chain(d', g, k)
    {
      assert Chain(d, g, k);
    }
  }

  class VirtioDisk {
    var d: Disk
    ghost var g: Track

    constructor ()
      ensures Inv(d, g) && g.reqs == map[] && d.busy == {} && g.made == g.done == []
          && (forall i :: 0 <= i < NUM ==> d.free[i])
    {
      d := Disk(seq(NUM, _ => true), seq(NUM, _ => BLANK), seq(NUM, _ => 0), 0, seq(NUM, _ => 0), 0, 0,
                seq(NUM, _ => None), seq(NUM, _ => 0), seq(NUM, _ => Op(false, 0)), {});
      g := Track(map[], seq(NUM, _ => None), [], 0, [], 0);
    }

    // alloc_desc: -1 if no descriptor is free.
    method AllocDesc() returns (r: int)
      requires |d.free| == NUM
      modifies this`d
      ensures r == -1 ==> d == old(d) && forall i :: 0 <= i < NUM ==> !d.free[i]
      ensures r != -1 ==> 0 <= r < NUM && old(d).free[r] && d == old(d).(free := old(d).free[r := false])
    {
      var i := 0;
      while i < NUM
        invariant 0 <= i <= NUM && d == old(d) && forall j :: 0 <= j < i ==> !d.free[j]
      {
        if d.free[i] {
          d := d.(free := d.free[i := false]);
          return i;
        }
        i := i + 1;
      }
      return -1;
    }

    // free_desc. False for its panics.
    method FreeDesc(i: nat) returns (ok: bool)
      requires |d.free| == |d.desc| == NUM
      modifies this`d
      ensures ok <==> i < NUM && !old(d).free[i]
      ensures !ok ==> d == old(d)
      ensures ok ==> d == old(d).(desc := old(d).desc[i := BLANK], free := old(d).free[i := true])
    {
      if i >= NUM {
        return false;
      }
      if d.free[i] {
        return false;
      }
      d := d.(desc := d.desc[i := BLANK]);
      d := d.(free := d.free[i := true]);
      return true;
    }

    // alloc3_desc: three free descriptors, or none is taken.
    method Alloc3() returns (idx: seq<nat>)
      requires Inv(d, g)
      modifies this`d
      ensures |idx| == 3 || idx == []
      ensures |idx| == 3 ==> && ThreeFree(old(d), idx[0], idx[1], idx[2])
                             && d == old(d).(free := old(d).free[idx[0] := false][idx[1] := false][idx[2] := false])
      ensures idx == [] ==>
          Inv(d, g) && d == old(d).(desc := d.desc) && forall a: nat, b: nat, c: nat :: !ThreeFree(old(d), a, b, c)
    {
      hide Partition, Rings;
      ghost var d0 := d;
      idx := [];
      while |idx| < 3
        invariant |idx| <= 3 && d == d0.(free := d.free) && |d.free| == NUM
        invariant forall j :: 0 <= j < |idx| ==> idx[j] < NUM && d0.free[idx[j]]
        invariant forall j, k :: 0 <= j < k < |idx| ==> idx[j] != idx[k]
        invariant forall i: nat :: i < NUM ==> (d.free[i] <==> d0.free[i] && i !in idx)
      {
        var i := AllocDesc();
        if i < 0 {
          TooFew(d0, idx);
          GiveBack(d0, idx);
          FreeDescsIrrelevant(d0, g, d.desc);
          return [];
        }
        idx := idx + [i];
      }
      assert d.free == d0.free[idx[0] := false][idx[1] := false][idx[2] := false];
    }

    // The inner loop of alloc3_desc: what was taken is freed again.
    method GiveBack(ghost d0: Disk, idx: seq<nat>)
      requires |d0.free| == |d0.desc| == |d.free| == NUM && d == d0.(free := d.free)
      requires (forall j :: 0 <= j < |idx| ==> idx[j] < NUM && d0.free[idx[j]])
          && (forall j, k :: 0 <= j < k < |idx| ==> idx[j] != idx[k])
      requires forall i: nat :: i < NUM ==> (d.free[i] <==> d0.free[i] && i !in idx)
      modifies this`d
      ensures d == d0.(desc := d.desc) && |d.desc| == NUM
          && forall i: nat :: i < NUM && !d0.free[i] ==> d.desc[i] == d0.desc[i]
    {
      var j := 0;
      while j < |idx|
        invariant 0 <= j <= |idx| && d == d0.(free := d.free, desc := d.desc) && |d.free| == |d.desc| == NUM
        invariant forall i: nat :: i < NUM ==> (d.free[i] <==> d0.free[i] && i !in idx[j..])
        invariant forall i: nat :: i < NUM && !d0.free[i] ==> d.desc[i] == d0.desc[i]
      {
        assert idx[j] in idx[j..];
        var ok := FreeDesc(idx[j]);
        assert ok;
        assert idx[j..] == [idx[j]] + idx[j + 1..];
        j := j + 1;
      }
      assert d.free == d0.free;
    }

    // virtio_disk_rw up to the notification. None: no three descriptors are free, the caller sleeps.
    // The sector number is computed in 32 bits.
    method Submit(b: nat, blockno: nat, write: bool) returns (h: Option<nat>)
      requires Inv(d, g) && b !in d.busy && forall k :: k in g.reqs ==> g.reqs[k].b != b
      modifies this
      ensures Inv(d, g)
      ensures h.None? ==>
                g == old(g) && d == old(d).(desc := d.desc)
                && forall x: nat, y: nat, z: nat :: !ThreeFree(old(d), x, y, z)
      ensures h.Some? ==>
                && h.value !in old(g).reqs && h.value in g.reqs && g.reqs[h.value].b == b
                && g.reqs[h.value].op == Op(write, blockno * (BSIZE / 512) % WORD)
                && g.reqs == old(g).reqs[h.value := g.reqs[h.value]]
                && g.made == old(g).made + [h.value] && g.seen == old(g).seen && g.done == old(g).done
                && g.acked == old(g).acked && d.busy == old(d).busy + {b}
    {
      hide Partition, Rings;
      ghost var d0 := d;
      var op := Op(write, blockno * (BSIZE / 512) % WORD);
      var idx := Alloc3();
      if idx == [] {
        return None;
      }
      SubmitKeeps(d0, g, b, op, idx[0], idx[1], idx[2]);
      g := Recorded(g, b, op, idx[0], idx[1], idx[2]);
      d := d.(ops := d.ops[idx[0] := op]);
      d := d.(desc := d.desc[idx[0] := Desc(idx[0], REQSIZE, idx[1], true, false)]);
      d := d.(desc := d.desc[idx[1] := Desc(b, BSIZE, idx[2], true, !write)]);
      d := d.(status := d.status[idx[0] := 0xff]);
      d := d.(desc := d.desc[idx[2] := Desc(idx[0], 1, 0, false, true)]);
      d := d.(busy := d.busy + {b});
      d := d.(info := d.info[idx[0] := Some(b)]);
      d := d.(avail := d.avail[d.availIdx % NUM := idx[0]]);
      d := d.(availIdx := (d.availIdx + 1) % WRAP);
      assert d == Submitted(d0, b, op, idx[0], idx[1], idx[2]);
      return Some(idx[0]);
    }

    // The device consumes the next entry of the available ring; `last` counts those it has consumed.
    // Following the chain it finds the request, the buffer and which way the data goes.
    method DeviceTake(last: nat) returns (h: nat, op: Op, data: Desc, status: Desc)
      requires Inv(d, g) && g.seen < |g.made| && last == g.seen
      modifies this`g
      ensures Inv(d, g) && h == old(g).made[old(g).seen] && h in old(g).reqs && g == TakeNext(old(g))
      ensures op == old(g).reqs[h].op && data.addr == old(g).reqs[h].b && data.len == BSIZE && data.write == !op.out
      ensures status.addr == h && status.len == 1 && status.write && !status.more
    {
      hide Partition, Rings;
      TakeKeeps(d, g);
      ChainAt(d, g, g.made[g.seen]);
      h := d.avail[last % NUM];
      op := d.ops[d.desc[h].addr];
      data := d.desc[d.desc[h].next];
      status := d.desc[data.next];
      g := TakeNext(g);
    }

    // The device completes a request that it has taken, with a status: 0, an I/O error or unsupported.
    method DeviceReport(h: nat, code: nat)
      requires Inv(d, g) && h in g.reqs && g.reqs[h].phase == Taken
      modifies this
      ensures Inv(d, g) && g == ReportRecorded(old(g), h, code)
    {
      hide Partition, Rings;
      ReportKeeps(d, g, h, code);
      d := d.(status := d.status[h := code]);
      d := d.(used := d.used[d.usedIdx % NUM := h]);
      d := d.(usedIdx := (d.usedIdx + 1) % WRAP);
      g := ReportRecorded(g, h, code);
    }

    // virtio_disk_intr. False for its status panic, at the first completion with an error.
    method Intr() returns (ok: bool)
      requires Inv(d, g)
      modifies this
      ensures Inv(d, g) && AnsweredTo(old(g), g)
      ensures ok <==> forall h :: h in old(g).reqs ==> !Failed(old(g).reqs[h])
      ensures if ok then g.acked == |g.done|
              else g.acked < |g.done| && g.done[g.acked] in g.reqs
                   && Failed(g.reqs[g.done[g.acked]])
    {
      hide Partition, Rings, AnsweredTo;
      MoreToAck(d, g);
      AnsweredNone(d, g);
      while d.seenUsed != d.usedIdx
        invariant Inv(d, g) && AnsweredTo(old(g), g)
        invariant d.seenUsed != d.usedIdx <==> g.acked < |g.done|
        decreases |g.done| - g.acked
      {
        AckKeeps(d, g);
        var id := d.used[d.seenUsed % NUM];
        if d.status[id] != 0 {
          StoppedAt(old(g), g);
          return false;
        }
        var b := d.info[id].value;
        AnsweredNext(d, old(g), g);
        d := d.(busy := d.busy - {b});
        d := d.(seenUsed := (d.seenUsed + 1) % WRAP);
        g := AckRecorded(g);
        MoreToAck(d, g);
      }
      AnsweredAll(d, old(g), g);
      return true;
    }

    // The end of virtio_disk_rw, once b->disk is 0 again.
    method Finish(h: nat)
      requires Inv(d, g) && h in g.reqs && g.reqs[h].phase == Acked
      modifies this
      ensures Inv(d, g) && h < NUM && old(g).reqs[h].d1 < NUM && old(g).reqs[h].d2 < NUM && |old(g).own| == NUM
          && g == Forgotten(old(g), h)
    {
      hide Partition, Rings;
      FinishKeeps(d, g, h);
      ChainAt(d, g, h);
      AllTaken(d, g, h);
      d := d.(info := d.info[h := None]);
      FreeChain(h, g.reqs[h].d1, g.reqs[h].d2);
      g := Forgotten(g, h);
    }

    // free_chain: follows the chain and frees exactly its three descriptors, without a panic.
    method FreeChain(h: nat, ghost d1: nat, ghost d2: nat)
      requires |d.free| == |d.desc| == NUM && h < NUM && d1 < NUM && d2 < NUM && h != d1 && h != d2 && d1 != d2
      requires !d.free[h] && !d.free[d1] && !d.free[d2]
      requires d.desc[h].more && d.desc[h].next == d1 && d.desc[d1].more && d.desc[d1].next == d2 && !d.desc[d2].more
      modifies this`d
      ensures d == old(d).(free := old(d).free[h := true][d1 := true][d2 := true],
                           desc := old(d).desc[h := BLANK][d1 := BLANK][d2 := BLANK])
    {
      ghost var d0 := d;
      var i := h;
      ghost var n := 0;
      while true
        invariant 0 <= n <= 2 && i == (if n == 0 then h else if n == 1 then d1 else d2)
        invariant d == d0.(free := Freeing(d0.free, h, d1, n), desc := Blanking(d0.desc, h, d1, n))
        decreases 3 - n
      {
        var more, nxt := d.desc[i].more, d.desc[i].next;
        var ok := FreeDesc(i);
        assert ok;
        if more {
          i := nxt;
        } else {
          break;
        }
        n := n + 1;
      }
    }
  }

  /** A device that answers the first request with an I/O error makes the handler panic. */
  method ErrorStatusPanics() returns (disk: VirtioDisk, h: nat, ok: bool)
    ensures Inv(disk.d, disk.g) && h in disk.g.reqs && Failed(disk.g.reqs[h]) && disk.g.reqs[h].op == Op(false, 14)
    ensures disk.g.made == disk.g.done == [h] && disk.g.acked == 0 && !ok
  {
    hide Partition, Rings;
    disk := new VirtioDisk();
    assert ThreeFree(disk.d, 0, 1, 2);
    var r := disk.Submit(1, 7, false);
    var op, data, status;
    h, op, data, status := disk.DeviceTake(0);
    disk.DeviceReport(h, 1);
    assert Failed(disk.g.reqs[h]);
    ok := disk.Intr();
  }

  ghost function Freeing(free: seq<bool>, h: nat, d1: nat, n: nat): (r: seq<bool>)
    requires h < |free| && d1 < |free|
  {
    if n == 0 then free else if n == 1 then free[h := true] else free[h := true][d1 := true]
  }

  ghost function Blanking(desc: seq<Desc>, h: nat, d1: nat, n: nat): (r: seq<Desc>)
    requires h < |desc| && d1 < |desc|
  {
    if n == 0 then desc else if n == 1 then desc[h := BLANK] else desc[h := BLANK][d1 := BLANK]
  }

  lemma AllTaken(d: Disk, g: Track, h: nat)
    requires Inv(d, g) && h in g.reqs
    ensures h < NUM && g.reqs[h].d1 < NUM && g.reqs[h].d2 < NUM && !d.free[h] && !d.free[g.reqs[h].d1]
        && !d.free[g.reqs[h].d2]
  {
    assert Chain(d, g, h);
  }

  lemma TooFew(d: Disk, idx: seq<nat>)
    requires |d.free| == NUM && |idx| < 3 && forall i: nat :: i < NUM && d.free[i] ==> i in idx
    ensures forall a: nat, b: nat, c: nat :: !ThreeFree(d, a, b, c)
  {
    forall a: nat, b: nat, c: nat
      ensures !ThreeFree(d, a, b, c)
    {
      if ThreeFree(d, a, b, c) {
        SubsetCard({a, b, c}, Elems(idx));
        ElemsCard(idx);
        assert false;
      }
    }
  }

  lemma {:induction false} ElemsCard(s: seq<nat>)
    ensures |Elems(s)| <= |s|
  {
    if s != [] {
      ElemsCard(s[1..]);
      assert Elems(s) == Elems(s[1..]) + {s[0]};
    }
  }
}
