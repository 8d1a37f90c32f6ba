/** What readi and writei do to the bytes of files, and how many blocks a write may log. */
module FileData {
  import opened Blocks
  import opened FsState
  import opened FsContents

  /** A block with some of its bytes replaced. */
  function Patch(b: Block, o: nat, x: seq<Byte>): (r: Block)
    requires o + |x| <= BSIZE
  {
    Block(b.bytes[..o] + x + b.bytes[o + |x|..])
  }

  /** File i holds `data` at offset `off`; every other byte of every file, and every inode but for
      block addresses of file i, is as before. */
  ghost predicate Overlaid(v0: Fs, v: Fs, i: nat, off: nat, data: seq<Byte>)
  {
    && i < |v.ips| == |v0.ips|
    && (forall m :: 0 <= m < |v.ips| ==> |v.ips[m].addrs| == |v0.ips[m].addrs| == NDIRECT + 1)
    && (forall m :: 0 <= m < |v.ips| && m != i ==> v.ips[m] == v0.ips[m])
    && v.ips[i] == v0.ips[i].(addrs := v.ips[i].addrs)
    && (forall m: nat, k: nat :: m < |v.ips| && k < MAXBYTES ==>
          FileByte(v, m, k) == if m == i && off <= k < off + |data| then data[k - off] else FileByte(v0, m, k))
  }

  lemma OverlaidThenSame(v0: Fs, v: Fs, v': Fs, i: nat, off: nat, data: seq<Byte>)
    requires Overlaid(v0, v, i, off, data) && SameFiles(v, v')
    requires |v'.ips| == |v.ips| && forall m :: 0 <= m < |v.ips| && m != i ==> v'.ips[m] == v.ips[m]
    ensures Overlaid(v0, v', i, off, data)
  {
    hide FileByte;
  }

  /** Copying the next bytes into the block that bmap found for them. */
  lemma ChunkOverlaid(l: Layout, v0: Fs, v: Fs, i: nat, off: nat, data: seq<Byte>, x: seq<Byte>)
    requires LayoutOk(l, v) && Owned(l, v) && Overlaid(v0, v, i, off, data)
    requires off + |data| < MAXBYTES && (off + |data|) % BSIZE + |x| <= BSIZE
    requires 0 < BlockOf(v, i, (off + |data|) / BSIZE) < |v.d|
    ensures var b := BlockOf(v, i, (off + |data|) / BSIZE);
            Overlaid(v0, v.(d := v.d[b := Patch(v.d[b], (off + |data|) % BSIZE, x)]), i, off, data + x)
  {
    hide Owned;
    var bn, o := (off + |data|) / BSIZE, (off + |data|) % BSIZE;
    var b := BlockOf(v, i, bn);
    var y := Patch(v.d[b], o, x);
    var v' := v.(d := v.d[b := y]);
    forall m: nat, k: nat | m < |v'.ips| && k < MAXBYTES
      ensures FileByte(v', m, k) == if m == i && off <= k < off + |data + x| then (data + x)[k - off]
          else FileByte(v0, m, k)
    {
      DataWrite(l, v, i, bn, y, m, k);
      SameBlock(off + |data|, k, |x|);
      if m == i && k / BSIZE == bn {
        assert FileByte(v, i, k) == v.d[b].bytes[k % BSIZE];
        PatchAt(v.d[b], o, x, k % BSIZE);
      }
    }
  }

  lemma PatchAt(b: Block, o: nat, x: seq<Byte>, k: nat)
    requires o + |x| <= BSIZE && k < BSIZE
    ensures Patch(b, o, x).bytes[k] == if o <= k < o + |x| then x[k - o] else b.bytes[k]
  {
  }

  lemma SameBlock(p: nat, k: nat, n: nat)
    requires p % BSIZE + n <= BSIZE
    ensures p / BSIZE == k / BSIZE ==> k - p == k % BSIZE - p % BSIZE
    ensures p <= k < p + n ==> p / BSIZE == k / BSIZE
  {
  }

  /** Every block of file i from offset `off` to `off + n` is mapped. */
  ghost predicate MappedUpTo(v: Fs, i: nat, off: nat, n: nat)
    requires i < |v.ips| && |v.ips[i].addrs| == NDIRECT + 1
  {
    n > 0 ==> forall bn :: off / BSIZE <= bn < MAXFILE && bn * BSIZE < off + n ==> BlockOf(v, i, bn) != 0
  }

  /** writei on its way: `data` has been copied in. */
  ghost predicate Writing(l: Layout, v0: Fs, v: Fs, i: nat, off: nat, data: seq<Byte>)
  {
    Inv(l, v, {}, {}) && Overlaid(v0, v, i, off, data) && Grows(v0, v) && MappedUpTo(v, i, off, |data|)
  }

  lemma NothingWritten(l: Layout, v: Fs, i: nat, off: nat)
    requires Inv(l, v, {}, {}) && i < |v.ips|
    ensures Writing(l, v, v, i, off, [])
  {
  }

  /** What bmap did to the file system before the next bytes are copied. */
  ghost predicate Looked(l: Layout, v: Fs, v1: Fs, i: nat)
  {
    && Inv(l, v1, {}, {}) && SameFiles(v, v1) && Grows(v, v1)
    && |v1.ips| == |v.ips| && forall m :: 0 <= m < |v.ips| && m != i ==> v1.ips[m] == v.ips[m]
  }

  lemma LookedWriting(l: Layout, v0: Fs, v: Fs, v1: Fs, i: nat, off: nat, data: seq<Byte>)
    requires Writing(l, v0, v, i, off, data) && Looked(l, v, v1, i)
    ensures Writing(l, v0, v1, i, off, data)
  {
    hide Inv, Ref, Overlaid, SameFiles, Grows, MappedUpTo;
    GrowsTransitive(v0, v, v1);
    OverlaidThenSame(v0, v, v1, i, off, data);
    OverlaidShape(v0, v, i, off, data);
    OverlaidShape(v0, v1, i, off, data);
    GrowsMapped(v, v1, i, off, |data|);
  }

  lemma OverlaidShape(v0: Fs, v: Fs, i: nat, off: nat, data: seq<Byte>)
    requires Overlaid(v0, v, i, off, data)
    ensures i < |v.ips| == |v0.ips| && |v.ips[i].addrs| == |v0.ips[i].addrs| == NDIRECT + 1
    ensures v.ips[i] == v0.ips[i].(addrs := v.ips[i].addrs)
  {
  }

  lemma GrowsMapped(v: Fs, v1: Fs, i: nat, off: nat, n: nat)
    requires i < |v.ips| && |v.ips[i].addrs| == NDIRECT + 1 && i < |v1.ips| && |v1.ips[i].addrs| == NDIRECT + 1
    requires Grows(v, v1) && MappedUpTo(v, i, off, n)
    ensures MappedUpTo(v1, i, off, n)
  {
    hide Ref;
    forall bn | n > 0 && off / BSIZE <= bn < MAXFILE && bn * BSIZE < off + n
      ensures BlockOf(v1, i, bn) != 0
    {
      assert BlockOf(v, i, bn) != 0;
      assert IsSlot(v, SlotOf(i, bn));
    }
  }

  /** One turn of writei's loop after bmap: bytes `x` go into the block found, and end no later than
      that block does. */
  lemma ChunkWritten(l: Layout, v0: Fs, v: Fs, i: nat, off: nat, data: seq<Byte>, x: seq<Byte>)
    requires Writing(l, v0, v, i, off, data)
    requires off + |data| < MAXBYTES && (off + |data|) % BSIZE + |x| <= BSIZE
    requires BlockOf(v, i, (off + |data|) / BSIZE) != 0
    ensures var b := BlockOf(v, i, (off + |data|) / BSIZE);
            && l.datastart <= b < l.size <= |v.d|
            && Writing(l, v0, v.(d := v.d[b := Patch(v.d[b], (off + |data|) % BSIZE, x)]), i, off, data + x)
  {
    hide Owned, Mapped, Ref, Overlaid, Grows, MappedUpTo, Patch;
    OverlaidShape(v0, v, i, off, data);
    var bn, o := (off + |data|) / BSIZE, (off + |data|) % BSIZE;
    var b := BlockOf(v, i, bn);
    FoundOwned(l, v, i, bn);
    DataNotIndirect(l, v, {}, {}, b);
    var y := Patch(v.d[b], o, x);
    ChunkOverlaid(l, v0, v, i, off, data, x);
    WriteKeeps(l, v, {}, {}, b, y);
    DataGrows(v, b, y);
    GrowsTransitive(v0, v, v.(d := v.d[b := y]));
    ChunkMapped(v, i, off, |data|, |x|, b, y);
  }

  lemma ChunkMapped(v: Fs, i: nat, off: nat, n: nat, m: nat, b: nat, y: Block)
    requires i < |v.ips| && |v.ips[i].addrs| == NDIRECT + 1 && MappedUpTo(v, i, off, n)
    requires off + n < MAXBYTES && (off + n) % BSIZE + m <= BSIZE
    requires b < |v.d| && NotIndirect(v, b) && BlockOf(v, i, (off + n) / BSIZE) != 0
    ensures MappedUpTo(v.(d := v.d[b := y]), i, off, n + m)
  {
    hide Ref, NotIndirect;
    forall c | n + m > 0 && off / BSIZE <= c < MAXFILE && c * BSIZE < off + n + m
      ensures BlockOf(v.(d := v.d[b := y]), i, c) != 0
    {
      EarlierBlock(off, n, m, c);
      assert BlockOf(v, i, c) != 0;
      RefSame(v, b, y, SlotOf(i, c));
    }
  }

  lemma FoundOwned(l: Layout, v: Fs, i: nat, bn: nat)
    requires Owned(l, v) && LayoutOk(l, v) && i < |v.ips| && bn < MAXFILE && BlockOf(v, i, bn) != 0
    ensures var b := BlockOf(v, i, bn); b in v.owner && v.owner[b] == SlotOf(i, bn) && l.datastart <= b < l.size
  {
    assert IsSlot(v, SlotOf(i, bn));
  }

  lemma DataGrows(v: Fs, b: nat, x: Block)
    requires b < |v.d| && NotIndirect(v, b)
    ensures Grows(v, v.(d := v.d[b := x]))
  {
    hide Ref;
    forall s: Slot | IsSlot(v, s)
      ensures IsSlot(v.(d := v.d[b := x]), s) && Ref(v.(d := v.d[b := x]), s) == Ref(v, s)
    {
      RefSame(v, b, x, s);
    }
  }

  lemma EarlierBlock(off: nat, n: nat, m: nat, c: nat)
    requires (off + n) % BSIZE + m <= BSIZE && off / BSIZE <= c && c * BSIZE < off + n + m
    ensures c == (off + n) / BSIZE || (n > 0 && c * BSIZE < off + n)
  {
  }

  // ---- how many blocks a write logs ----

  /** The number of blocks that `n` bytes at offset `off` touch. */
  function Span(off: nat, n: nat): (t: nat)
  {
    (off % BSIZE + n + BSIZE - 1) / BSIZE
  }

  /** 1 if the first block a write at `off` touches is certain to be mapped already. */
  ghost function Saved(v: Fs, i: nat, off: nat): (n: nat)
    requires i < |v.ips| && |v.ips[i].addrs| == NDIRECT + 1
    ensures n <= 1
  {
    if off % BSIZE != 0 && NoHoles(v, i) then 1 else 0
  }

  function Newly(ind0: nat, ind: nat): (n: nat)
  {
    if ind0 == 0 && ind != 0 then 1 else 0
  }

  /** `x` are the bitmap and data blocks logged while t blocks were written: two each, one more if
      the indirect block was allocated (it was at ind0 and is at ind), one less if the first block was
      there. */
  ghost predicate Budget(saved: nat, ind0: nat, ind: nat, base: set<nat>, logged: set<nat>, x: set<nat>, t: nat)
  {
    && logged <= base + x + ({ind} - {0})
    && |x| + (if t > 0 then saved else 0) <= 2 * t + Newly(ind0, ind)
    && (ind0 == 0 || ind == ind0)
  }

  lemma BudgetStep(saved: nat, ind0: nat, ind: nat, ind1: nat, base: set<nat>, logged: set<nat>, logged1: set<nat>,
                   x: set<nat>,
                   marks: set<nat>, addr: nat, t: nat)
    requires Budget(saved, ind0, ind, base, logged, x, t) && (ind == 0 || ind1 == ind) && saved <= 1
    requires logged1 <= logged + marks + ({addr, ind1} - {0}) && |marks| <= 1 + Newly(ind, ind1)
    requires t == 0 && saved == 1 ==> marks == {}
    ensures Budget(saved, ind0, ind1, base, logged1, x + marks + {addr}, t + 1)
    ensures Budget(saved, ind0, ind1, base, logged1 + {addr}, x + marks + {addr}, t + 1)
  {
    assert |x + marks + {addr}| <= |x| + |marks| + 1;
  }

  lemma IndirectStays(v: Fs, v': Fs, i: nat)
    requires i < |v.ips| == |v'.ips| && |v.ips[i].addrs| == |v'.ips[i].addrs| == NDIRECT + 1 && Grows(v, v')
    ensures v.ips[i].addrs[NDIRECT] != 0 ==> v'.ips[i].addrs[NDIRECT] == v.ips[i].addrs[NDIRECT]
  {
    assert IsSlot(v, Indirect(i)) && Ref(v, Indirect(i)) == v.ips[i].addrs[NDIRECT];
  }

  /** Where the first block of a write is certain to be mapped. */
  lemma FirstBlockThere(v: Fs, i: nat, off: nat)
    requires i < |v.ips| && |v.ips[i].addrs| == NDIRECT + 1 && off <= v.ips[i].size && off < MAXBYTES
        && Saved(v, i, off) == 1
    ensures BlockOf(v, i, off / BSIZE) != 0
  {
    hide Ref;
    assert off / BSIZE * BSIZE < v.ips[i].size;
  }

  lemma BudgetUpTo(saved: nat, ind0: nat, ind: nat, base: set<nat>, logged: set<nat>, x: set<nat>, t: nat, off: nat,
                   n: nat, tot: nat)
    requires Budget(saved, ind0, ind, base, logged, x, t) && saved <= 1 && Paced(off, n, tot, t)
    ensures Budget(saved, ind0, ind, base, logged, x, Span(off, n))
  {
  }

  /** After t blocks, `tot` bytes have been written, up to the end of a block or to the end. */
  predicate Paced(off: nat, n: nat, tot: nat, t: nat)
  {
    && tot <= n && t <= Span(off, n) && (t == 0 ==> tot == 0)
    && (t > 0 && tot < n ==> off % BSIZE + tot == t * BSIZE)
  }

  lemma PacedStep(off: nat, n: nat, tot: nat, t: nat)
    requires Paced(off, n, tot, t) && tot < n
    ensures t + 1 <= Span(off, n)
    ensures var m := if n - tot < BSIZE - (off + tot) % BSIZE then n - tot else BSIZE - (off + tot) % BSIZE;
            m > 0 && Paced(off, n, tot + m, t + 1)
  {
  }

  // ---- the loop of writei ----

  function Min(a: nat, b: nat): (m: nat)
  {
    if a < b then a else b
  }

  ghost predicate BudgetOf(v0: Fs, v: Fs, i: nat, off: nat, base: set<nat>, logged: set<nat>, x: set<nat>, t: nat)
  {
    && i < |v.ips| == |v0.ips| && |v.ips[i].addrs| == |v0.ips[i].addrs| == NDIRECT + 1
    && Budget(Saved(v0, i, off), v0.ips[i].addrs[NDIRECT], v.ips[i].addrs[NDIRECT], base, logged, x, t)
  }

  ghost predicate Going(l: Layout, v0: Fs, v: Fs, i: nat, off: nat, n: nat, data: seq<Byte>,
                        base: set<nat>, logged: set<nat>, x: set<nat>, t: nat)
  {
    && Writing(l, v0, v, i, off, data) && BudgetOf(v0, v, i, off, base, logged, x, t)
    && Paced(off, n, |data|, t) && (t == 0 ==> v == v0 && data == [])
  }

  lemma Starts(l: Layout, v: Fs, i: nat, off: nat, n: nat, base: set<nat>)
    requires Inv(l, v, {}, {}) && i < |v.ips|
    ensures Going(l, v, v, i, off, n, [], base, base, {}, 0)
  {
    hide Owned, Mapped, Overlaid, Grows;
    NothingWritten(l, v, i, off);
  }

  /** What bmap says about its call for the block of the next byte. */
  ghost predicate Found(l: Layout, v: Fs, v1: Fs, i: nat, bn: nat, logged: set<nat>, logged1: set<nat>, marks: set<nat>,
                        addr: nat)
  {
    && Looked(l, v, v1, i) && bn < MAXFILE && i < |v1.ips| && |v1.ips[i].addrs| == |v.ips[i].addrs| == NDIRECT + 1
    && addr == BlockOf(v1, i, bn) && (BlockOf(v, i, bn) != 0 ==> marks == {})
    && logged1 <= logged + marks + ({addr, v1.ips[i].addrs[NDIRECT]} - {0})
    && |marks| <= 1 + Newly(v.ips[i].addrs[NDIRECT], v1.ips[i].addrs[NDIRECT])
  }

  lemma LookUp(l: Layout, v0: Fs, v: Fs, v1: Fs, i: nat, off: nat, n: nat, data: seq<Byte>,
               base: set<nat>, logged: set<nat>, logged1: set<nat>, x: set<nat>, marks: set<nat>, addr: nat, t: nat)
    requires Going(l, v0, v, i, off, n, data, base, logged, x, t) && |data| < n && off <= v0.ips[i].size
        && off + n <= MAXBYTES
    requires Found(l, v, v1, i, (off + |data|) / BSIZE, logged, logged1, marks, addr)
    ensures Writing(l, v0, v1, i, off, data)
    ensures Span(off, n) > 0 && BudgetOf(v0, v1, i, off, base, logged1, x + marks + {addr}, Span(off, n))
    ensures BudgetOf(v0, v1, i, off, base, logged1 + {addr}, x + marks + {addr}, t + 1)
    ensures var m := Min(n - |data|, BSIZE - (off + |data|) % BSIZE); m > 0 && Paced(off, n, |data| + m, t + 1)
  {
    hide Inv, Overlaid, Grows, SameFiles, MappedUpTo, Budget, Ref, NoHoles, Paced, Saved, Span, BlockOf;
    LookedWriting(l, v0, v, v1, i, off, data);
    PacedStep(off, n, |data|, t);
    LookUpBudget(l, v0, v, v1, i, off, n, data, base, logged, logged1, x, marks, addr, t);
    BudgetUpTo(Saved(v0, i, off), v0.ips[i].addrs[NDIRECT], v1.ips[i].addrs[NDIRECT], base, logged1, x + marks + {addr},
        t + 1, off, n,
               |data| + Min(n - |data|, BSIZE - (off + |data|) % BSIZE));
  }

  lemma LookUpBudget(l: Layout, v0: Fs, v: Fs, v1: Fs, i: nat, off: nat, n: nat, data: seq<Byte>,
                     base: set<nat>, logged: set<nat>, logged1: set<nat>, x: set<nat>, marks: set<nat>, addr: nat,
                         t: nat)
    requires Going(l, v0, v, i, off, n, data, base, logged, x, t) && |data| < n && off <= v0.ips[i].size
        && off + n <= MAXBYTES
    requires Found(l, v, v1, i, (off + |data|) / BSIZE, logged, logged1, marks, addr)
    ensures BudgetOf(v0, v1, i, off, base, logged1, x + marks + {addr}, t + 1)
    ensures BudgetOf(v0, v1, i, off, base, logged1 + {addr}, x + marks + {addr}, t + 1)
  {
    hide Inv, Overlaid, Grows, SameFiles, MappedUpTo, Budget, Ref, NoHoles, Paced, Saved, Writing;
    if t == 0 && Saved(v0, i, off) == 1 {
      FirstBlockThere(v0, i, off);
    }
    IndirectStays(v, v1, i);
    BudgetStep(Saved(v0, i, off), v0.ips[i].addrs[NDIRECT], v.ips[i].addrs[NDIRECT], v1.ips[i].addrs[NDIRECT], base,
        logged, logged1, x, marks, addr, t);
  }

  lemma CopyIn(l: Layout, v0: Fs, v: Fs, i: nat, off: nat, n: nat, data: seq<Byte>, y: seq<Byte>,
               base: set<nat>, logged: set<nat>, x: set<nat>, t: nat, addr: nat)
    requires Writing(l, v0, v, i, off, data) && BudgetOf(v0, v, i, off, base, logged, x, t) && t > 0
    requires off + |data| < MAXBYTES && (off + |data|) % BSIZE + |y| <= BSIZE
    requires addr == BlockOf(v, i, (off + |data|) / BSIZE) != 0
    ensures addr < |v.d|
    ensures var w := v.(d := v.d[addr := Patch(v.d[addr], (off + |data|) % BSIZE, y)]);
            && Writing(l, v0, w, i, off, data + y) && Inv(l, w, {}, {}) && BudgetOf(v0, w, i, off, base, logged, x, t)
            && (Paced(off, n, |data| + |y|, t) ==> Going(l, v0, w, i, off, n, data + y, base, logged, x, t))
  {
    hide Inv, Overlaid, Grows, MappedUpTo, Budget, Patch, Paced, Saved;
    ChunkWritten(l, v0, v, i, off, data, y);
  }

  lemma Ends(l: Layout, v0: Fs, v: Fs, i: nat, off: nat, n: nat, data: seq<Byte>, base: set<nat>, logged: set<nat>,
             x: set<nat>, t: nat)
    requires Going(l, v0, v, i, off, n, data, base, logged, x, t)
    ensures Writing(l, v0, v, i, off, data) && BudgetOf(v0, v, i, off, base, logged, x, Span(off, n))
  {
    hide Writing, Budget, Paced, Saved, Span;
    BudgetUpTo(Saved(v0, i, off), v0.ips[i].addrs[NDIRECT], v.ips[i].addrs[NDIRECT], base, logged, x, t, off, n,
        |data|);
  }

  // ---- what a whole write and a whole read mean ----

  function Max(a: nat, b: nat): (m: nat)
  {
    if a < b then b else a
  }

  /** The result of writei: `data` lies at offset `off` of file i, whose size covers the first `tot`
      bytes of it. Nothing else about any file changed. */
  ghost predicate Wrote(v0: Fs, v: Fs, i: nat, off: nat, data: seq<Byte>, tot: nat)
  {
    && i < |v.ips| == |v0.ips|
    && (forall m :: 0 <= m < |v.ips| ==> |v.ips[m].addrs| == |v0.ips[m].addrs| == NDIRECT + 1)
    && (forall m :: 0 <= m < |v.ips| && m != i ==> v.ips[m] == v0.ips[m])
    && v.ips[i] == v0.ips[i].(size := Max(v0.ips[i].size, off + tot), addrs := v.ips[i].addrs)
    && (forall m: nat, k: nat :: m < |v.ips| && k < MAXBYTES ==>
          FileByte(v, m, k) == if m == i && off <= k < off + |data| then data[k - off] else FileByte(v0, m, k))
  }

  function Splice(s: seq<Byte>, off: nat, x: seq<Byte>): (r: seq<Byte>)
    requires off <= |s|
  {
    s[..off] + x + if off + |x| < |s| then s[off + |x|..] else []
  }

  /** As contents: a complete write replaces the bytes from `off` on, extends the file if it has to,
      and leaves every other file as it was. */
  lemma WroteContent(v0: Fs, v: Fs, i: nat, off: nat, data: seq<Byte>, m: nat)
    requires Sizes(v0) && Sizes(v) && Wrote(v0, v, i, off, data, |data|) && off <= v0.ips[i].size && m < |v.ips|
    ensures Content(v, m) == if m == i then Splice(Content(v0, m), off, data) else Content(v0, m)
  {
    hide FileByte;
    var c, c0 := Content(v, m), Content(v0, m);
    if m == i {
      var r := Splice(c0, off, data);
      assert |c| == |r|;
      forall k | 0 <= k < |c|
        ensures c[k] == r[k]
      {
        assert c[k] == FileByte(v, m, k);
      }
    } else {
      assert |c| == |c0|;
      forall k | 0 <= k < |c|
        ensures c[k] == c0[k]
      {
        assert c[k] == FileByte(v, m, k);
      }
    }
  }

  /** What was written is what is read back, and what is read elsewhere is what was there. */
  lemma ReadBack(s: seq<Byte>, off: nat, x: seq<Byte>, p: nat, n: nat)
    requires off <= |s| && p + n <= |Splice(s, off, x)|
    ensures p == off && n == |x| ==> Splice(s, off, x)[p..p + n] == x
    ensures p + n <= off ==> Splice(s, off, x)[p..p + n] == s[p..p + n]
    ensures off + |x| <= p && p + n <= |s| ==> Splice(s, off, x)[p..p + n] == s[p..p + n]
  {
  }

  lemma SameContent(v: Fs, v': Fs, i: nat)
    requires Sizes(v) && SameFiles(v, v') && i < |v.ips|
    ensures Sizes(v') && Content(v', i) == Content(v, i)
  {
    hide FileByte;
    assert Sizes(v');
    forall k | 0 <= k < v.ips[i].size
      ensures Content(v', i)[k] == Content(v, i)[k]
    {
      assert Content(v', i)[k] == FileByte(v', i, k);
    }
  }

  /** The bytes of one block of a file. */
  lemma ChunkRead(v: Fs, i: nat, p: nat, m: nat, b: nat)
    requires Sizes(v) && i < |v.ips| && p % BSIZE + m <= BSIZE && p + m <= v.ips[i].size && m > 0
    requires b == BlockOf(v, i, p / BSIZE) && 0 < b < |v.d|
    ensures v.d[b].bytes[p % BSIZE..p % BSIZE + m] == Content(v, i)[p..p + m]
  {
    var bytes, want := v.d[b].bytes[p % BSIZE..p % BSIZE + m], Content(v, i)[p..p + m];
    forall k | 0 <= k < m
      ensures bytes[k] == want[k]
    {
      SameBlock(p, p + k, m);
      assert Content(v, i)[p + k] == FileByte(v, i, p + k);
    }
  }
}
