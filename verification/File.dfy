/** filewrite on an inode (file.c): a long write is cut into transactions that fit the log. */
module File {
  import opened Blocks
  import opened FsState
  import opened FsContents
  import opened FileData
  import opened Inodes
  import opened FileSystem
  import GroupCommit

  /** The largest chunk filewrite gives to one writei. */
  const MAXCHUNK: nat := (GroupCommit.MAXOPBLOCKS - 1 - 1 - 2) / 2 * BSIZE

  /** Any chunk, at any offset of a file without holes, logs at most MAXOPBLOCKS distinct blocks. */
  lemma ChunkFits(v: Fs, i: nat, off: nat, n: nat)
    requires i < |v.ips| && |v.ips[i].addrs| == NDIRECT + 1 && NoHoles(v, i) && n <= MAXCHUNK
    ensures 2 * Span(off, n) + 3 - Saved(v, i, off) <= GroupCommit.MAXOPBLOCKS
  {
    hide NoHoles;
  }

  /** Writes at adjacent offsets add up to one write. */
  lemma WroteTwice(v0: Fs, v1: Fs, v2: Fs, i: nat, off: nat, data1: seq<Byte>, data2: seq<Byte>, tot: nat)
    requires Wrote(v0, v1, i, off, data1, |data1|) && Wrote(v1, v2, i, off + |data1|, data2, tot)
    ensures Wrote(v0, v2, i, off, data1 + data2, |data1| + tot)
  {
    hide FileByte;
    var data := data1 + data2;
    forall m: nat, k: nat | m < |v2.ips| && k < MAXBYTES
      ensures FileByte(v2, m, k) == if m == i && off <= k < off + |data| then data[k - off] else FileByte(v0, m, k)
    {
      assert FileByte(v1, m, k) == if m == i && off <= k < off + |data1| then data1[k - off] else FileByte(v0, m, k);
    }
  }

  function ChunkSize(n: nat): (n1: nat)
  {
    if n > MAXCHUNK then MAXCHUNK else n
  }

  /** Offset a is in none of the blocks of a file of that size. */
  predicate Unbacked(size: nat, a: nat)
  {
    a / BSIZE * BSIZE >= size
  }

  lemma LacksUnbacked(v: Fs, i: nat, a: nat)
    requires Lacks(v, i, a) && NoHoles(v, i)
    ensures Unbacked(v.ips[i].size, a)
  {
    hide Ref;
  }

  lemma NotSmaller(v0: Fs, v: Fs, i: nat, off: nat, data: seq<Byte>, tot: nat)
    requires WroteSoFar(v0, v, i, off, data, tot) && i < |v0.ips|
    ensures i < |v.ips| && v.ips[i].size >= v0.ips[i].size
  {
    hide FileByte;
  }

  /** What has been written after k bytes of a long write. */
  ghost predicate WroteSoFar(v0: Fs, v: Fs, i: nat, off: nat, data: seq<Byte>, tot: nat)
  {
    (v == v0 && data == [] && tot == 0) || Wrote(v0, v, i, off, data, tot)
  }

  lemma WroteMore(v0: Fs, v1: Fs, v2: Fs, i: nat, off: nat, data1: seq<Byte>, data2: seq<Byte>, tot: nat)
    requires WroteSoFar(v0, v1, i, off, data1, |data1|) && Wrote(v1, v2, i, off + |data1|, data2, tot)
    ensures Wrote(v0, v2, i, off, data1 + data2, |data1| + tot)
    ensures WroteSoFar(v0, v2, i, off, data1 + data2, |data1| + tot)
  {
    hide Wrote;
    if v1 == v0 && data1 == [] {
      assert data1 + data2 == data2;
    } else {
      WroteTwice(v0, v1, v2, i, off, data1, data2, tot);
    }
  }

  class OpenFile {
    const fs: FileSystem
    const i: nat
    var off: nat
    /** The blocks each transaction logged, oldest first. */
    ghost var transactions: seq<set<nat>>

    ghost predicate Valid()
      reads this, fs
    {
      && fs.Valid({}) && Sizes(fs.v) && i < |fs.v.ips| && Fits(fs.v.ips[i]) && NoHoles(fs.v, i) && off < WORD_LIMIT
      && forall k :: 0 <= k < |transactions| ==> |transactions[k]| <= GroupCommit.MAXOPBLOCKS
    }

    constructor (fs: FileSystem, i: nat)
      requires fs.Valid({}) && Sizes(fs.v) && i < |fs.v.ips| && Fits(fs.v.ips[i]) && NoHoles(fs.v, i)
      ensures Valid() && this.fs == fs && this.i == i && off == 0 && transactions == []
    {
      this.fs, this.i, off, transactions := fs, i, 0, [];
    }

    // filewrite on an inode: one transaction per chunk.
    method Filewrite(src: seq<Byte>, n: int) returns (ret: int, ghost done: nat, ghost got: nat)
      requires Valid() && n < INT_LIMIT && (n < 0 || |src| <= n)
      modifies this`off, this`transactions, fs`d, fs`ips, fs`v, fs`logged, fs`area, fs`since, fs`writes, fs`torn,
          fs`stored
      ensures Valid() && old(transactions) <= transactions
      ensures ret == -1 || ret == n
      ensures n < 0 ==> ret == -1 && fs.v == old(fs.v) && off == old(off)
      ensures n >= 0 ==> off == old(off) + done && done <= got <= |src| && (ret == n <==> done == n)
      ensures n >= 0 ==> WroteSoFar(old(fs.v), fs.v, i, old(off), src[..got], done)
      ensures ret == n >= 0 ==> got == n
      ensures n > 0 && ret == -1 ==>
                || old(off) + done > fs.v.ips[i].size || off + ChunkSize(n - done) > MAXBYTES
                || (Full(fs.l, fs.v) && Unbacked(old(fs.v).ips[i].size, off)) || got == |src| < n
    {
      hide OpenFile.Valid, WroteSoFar, Full;
      ValidIndex();
      ghost var v0, off0 := fs.v, off;
      var k := 0;
      done, got := 0, 0;
      assert src[..0] == [];
      NothingYet(v0, i, off0);
      while k < n
        invariant 0 <= k == done == got <= |src| && (n >= 0 ==> k <= n) && off == off0 + k
        invariant Valid() && old(transactions) <= transactions
        invariant n < 0 ==> k == 0 && fs.v == v0
        invariant WroteSoFar(v0, fs.v, i, off0, src[..k], k)
      {
        var n1 := ChunkSize(n - k);
        var r;
        NotSmaller(v0, fs.v, i, off0, src[..k], k);
        r, done, got := Chunk(src, k, n, n1, v0, off0);
        if r != n1 {
          break;
        }
        k := k + r;
      }
      ret := if k == n then n else -1;
    }

    lemma ValidIndex()
      requires Valid()
      ensures i < |fs.v.ips|
    {
    }

    // One transaction of filewrite: n1 bytes from the k-th on.
    method Chunk(src: seq<Byte>, k: nat, n: nat, n1: nat, ghost v0: Fs, ghost off0: nat)
        returns (r: int, ghost done: nat, ghost got: nat)
      requires Valid() && k <= |src| <= n && 0 < n1 <= MAXCHUNK && k + n1 <= n && off == off0 + k
      requires WroteSoFar(v0, fs.v, i, off0, src[..k], k)
      modifies this`off, this`transactions, fs`d, fs`ips, fs`v, fs`logged, fs`area, fs`since, fs`writes, fs`torn,
          fs`stored
      ensures Valid() && transactions == old(transactions) + [fs.logged] && |fs.logged| <= GroupCommit.MAXOPBLOCKS
      ensures off == off0 + done && done <= got <= |src| && (r == n1 ==> done == got == k + n1)
          && (r != n1 ==> done < k + n1)
      ensures WroteSoFar(v0, fs.v, i, off0, src[..got], done)
      ensures r != n1 ==>
                i < |fs.v.ips|
                && (|| off > fs.v.ips[i].size || (done == k && off + n1 > MAXBYTES)
                    || (Full(fs.l, fs.v) && Unbacked(old(fs.v).ips[i].size, off)) || got == |src| < n)
    {
      hide Wrote, NoHoles, Sizes, Inv, Span, Saved, Full, OnDisk, WroteSoFar, Lacks, Unbacked;
      ghost var v1 := fs.v;
      fs.Begin();
      var chunk := if k + n1 <= |src| then src[k..k + n1] else src[k..];
      ChunkFits(fs.v, i, off, n1);
      ghost var g;
      r, g := fs.Writei(i, off, chunk, n1);
      assert fs.logged - {} == fs.logged;
      transactions := transactions + [fs.logged];
      done, got := k, k;
      if r >= 0 {
        WroteMore(v0, v1, fs.v, i, off0, src[..k], chunk[..g], r);
        Joined(src, k, chunk, g);
        got := k + g;
        done := k + r;
        if Lacks(v1, i, off + r) {
          LacksUnbacked(v1, i, off + r);
        }
      }
      if r > 0 {
        off := off + r;
      }
    }
  }

  lemma Joined(src: seq<Byte>, k: nat, chunk: seq<Byte>, g: nat)
    requires k <= |src| && g <= |chunk| && chunk <= src[k..]
    ensures k + g <= |src| && src[..k] + chunk[..g] == src[..k + g]
  {
    assert chunk[..g] == src[k..][..g] == src[k..k + g];
  }

  lemma NothingYet(v: Fs, i: nat, off: nat)
    ensures WroteSoFar(v, v, i, off, [], 0)
  {
  }
}
