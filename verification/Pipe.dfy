/** Pipes (pipe.c). A method is one stay inside pi->lock, from acquiring it to releasing it or going to
    sleep; a sleeper calls the method again when it is woken. So a sequence of calls is an
    interleaving of readers, writers and closers.
 */
module Pipe {
  import opened Collections

  const PIPESIZE: nat := 512
  const WRAP: nat := 0x1_0000_0000

  type Byte = x: int | 0 <= x < 256

  datatype Outcome = Returned(r: int) | Slept

  /** Why the loop of pipewrite stops: no reader or killed, no room, or nothing left to copy. */
  datatype Stop = Gone | Full | Ended

  /** killed(pr) is true from the loop's turn `at` on. */
  predicate Killed(at: Option<nat>, i: nat)
  {
    at.Some? && i >= at.value
  }

  /** pipewrite returns -1: at its next turn there is no reader, or the kill comes before the bytes that
      can be copied, the bytes asked for and the room in the ring are used up. */
  ghost predicate GivesUp(readopen: bool, src: seq<Byte>, n: int, i0: nat, at: Option<nat>, room: nat)
  {
    i0 < n && (!readopen || (at.Some? && at.value <= |src| && at.value < n && at.value - i0 <= room))
  }

  /** The kill comes after the first byte that this stay stores in an empty ring, and before the
      wakeup that would follow the last one. */
  ghost predicate CutShort(src: seq<Byte>, n: int, i0: nat, at: Option<nat>)
  {
    at.Some? && i0 < at.value <= |src| && at.value < n && at.value - i0 <= PIPESIZE
  }

  /** What can be checked before the call decides why the loop stops. */
  lemma StopReason(stop: Stop, readopen: bool, src: seq<Byte>, n: int, i0: nat, i: nat, at: Option<nat>, room: nat)
    requires i0 <= i <= |src| && (|src| <= n || (n < 0 && src == [])) && i - i0 <= room
    requires i > i0 ==> readopen && !Killed(at, i - 1)
    requires stop == Gone ==> (!readopen || Killed(at, i)) && i < n
    requires stop == Full ==> readopen && !Killed(at, i) && i < n && i - i0 == room
    requires stop == Ended ==> i >= n || (i == |src| && readopen && !Killed(at, i))
    ensures stop == Gone <==> GivesUp(readopen, src, n, i0, at, room)
    ensures room == PIPESIZE ==> (stop == Gone && i > i0 <==> readopen && CutShort(src, n, i0, at))
  {
  }

  class Pipe {
    var data: array<Byte>
    var nread: nat
    var nwrite: nat
    var readopen: bool
    var writeopen: bool
    var readers: set<nat>             // processes asleep on &pi->nread
    var writers: set<nat>             // processes asleep on &pi->nwrite
    ghost var written: seq<Byte>      // every byte ever put in
    ghost var taken: nat              // how many of them were taken out

    /** Counters are the true counts modulo 2^32, and the ring holds what was not taken yet. */
    ghost predicate Valid()
      reads this, data
    {
      && Ring(data[..], nread, nwrite, written, taken)
      && (writers != {} ==> |written| == taken + PIPESIZE && readopen)
    }

    /** Whoever sleeps in piperead has reason to. */
    ghost predicate Awake()
      reads this
    {
      readers != {} ==> |written| == taken && writeopen
    }

    constructor ()
      ensures Valid() && fresh(data) && written == [] && taken == 0 && readopen && writeopen && readers == writers == {}
    {
      data := new Byte[PIPESIZE](_ => 0);
      nread, nwrite, readopen, writeopen, readers, writers, written, taken := 0, 0, true, true, {}, {}, [], 0;
    }

    // pi->data[pi->nwrite++ % PIPESIZE] = x
    method Put(x: Byte)
      requires Ring(data[..], nread, nwrite, written, taken) && |written| < taken + PIPESIZE
      modifies this`nwrite, this`written, data
      ensures Ring(data[..], nread, nwrite, written, taken) && written == old(written) + [x]
    {
      hide Ring;
      IsFull(data[..], nread, nwrite, written, taken);
      Push(data[..], nread, nwrite, written, taken, x);
      ghost var before := data[..];
      data[nwrite % PIPESIZE] := x;
      assert data[..] == before[nwrite % PIPESIZE := x];
      nwrite := (nwrite + 1) % WRAP;
      written := written + [x];
    }

    // pipewrite by process pid, from its i-th byte on. `src` are the bytes that can be read at addr.
    method Write(pid: nat, src: seq<Byte>, n: int, i0: nat, killedAt: Option<nat>) returns (o: Outcome, i: nat)
      requires Valid() && i0 <= |src| && (|src| <= n || (n < 0 && src == []))
      modifies this, data
      ensures Valid() && data == old(data)
      ensures i0 <= i <= |src| && written == old(written) + src[i0..i] && taken == old(taken)
          && readopen == old(readopen) && writeopen == old(writeopen)
      ensures i > i0 ==> readopen && !Killed(killedAt, i - 1)
      ensures o == Slept ==> && |written| == taken + PIPESIZE && readopen && !Killed(killedAt, i) && i < n
                             && writers == old(writers) + {pid} && readers == {}
      ensures o.Returned? && o.r != -1 ==> o.r == i && readers == {} && writers == old(writers)
      ensures o.Returned? && o.r != -1 ==> i >= n || (i == |src| && readopen && !Killed(killedAt, i))
      ensures o == Returned(-1) ==>
          (!readopen || Killed(killedAt, i)) && i < n && readers == old(readers) && writers == old(writers)
      ensures o == Returned(-1) <==> GivesUp(readopen, src, n, i0, killedAt, PIPESIZE - (|old(written)| - taken))
      ensures old(Awake()) ==> (Awake() <==> !(old(readers) != {} && readopen && CutShort(src, n, i0, killedAt)))
      ensures !old(Awake()) ==>
          (Awake() <==> !GivesUp(readopen, src, n, i0, killedAt, PIPESIZE - (|old(written)| - taken)))
    {
      hide Ring, Killed, GivesUp, CutShort;
      IsFull(data[..], nread, nwrite, written, taken);
      var stop;
      stop, i := Fill(src, n, i0, killedAt);
      IsFull(data[..], nread, nwrite, written, taken);
      StopReason(stop, readopen, src, n, i0, i, killedAt, PIPESIZE - (|old(written)| - taken));
      match stop
      case Gone =>
        return Returned(-1), i;
      case Full =>
        readers := {};
        writers := writers + {pid};
        return Slept, i;
      case Ended =>
        readers := {};
        return Returned(i), i;
    }

    // The loop of pipewrite, up to what makes it stop.
    method Fill(src: seq<Byte>, n: int, i0: nat, killedAt: Option<nat>) returns (stop: Stop, i: nat)
      requires Ring(data[..], nread, nwrite, written, taken) && i0 <= |src| && (|src| <= n || (n < 0 && src == []))
      modifies this`nwrite, this`written, data
      ensures Ring(data[..], nread, nwrite, written, taken) && i0 <= i <= |src| && written == old(written) + src[i0..i]
      ensures i > i0 ==> readopen && !Killed(killedAt, i - 1) && |old(written)| < taken + PIPESIZE
      ensures stop == Gone ==> (!readopen || Killed(killedAt, i)) && i < n
      ensures stop == Full ==> readopen && !Killed(killedAt, i) && i < n && |written| == taken + PIPESIZE
      ensures stop == Ended ==> i >= n || (i == |src| && readopen && !Killed(killedAt, i))
    {
      hide Ring, Killed;
      i := i0;
      assert src[i0..i] == [];
      while i < n
        invariant i0 <= i <= |src| && Ring(data[..], nread, nwrite, written, taken)
            && written == old(written) + src[i0..i]
        invariant i > i0 ==> readopen && !Killed(killedAt, i - 1) && |old(written)| < taken + PIPESIZE
      {
        if !readopen || Killed(killedAt, i) {
          return Gone, i;
        }
        IsFull(data[..], nread, nwrite, written, taken);
        if nwrite == (nread + PIPESIZE) % WRAP {
          return Full, i;
        }
        if i >= |src| {
          break;
        }
        Put(src[i]);
        assert src[i0..i + 1] == src[i0..i] + [src[i]];
        i := i + 1;
      }
      return Ended, i;
    }

    // piperead by process pid. `room` is how many bytes can be written at addr.
    method Read(pid: nat, n: int, room: nat, killed: bool) returns (o: Outcome, out: seq<Byte>)
      requires Valid()
      modifies this
      ensures Valid() && data == old(data) && written == old(written) && readopen == old(readopen)
          && writeopen == old(writeopen)
      ensures old(Awake()) ==> Awake()
      ensures taken == old(taken) + |out| && taken <= |written| && out == written[old(taken)..taken]
      ensures o == Slept ==>
          out == [] && |written| == taken && writeopen && !killed && readers == old(readers) + {pid}
              && writers == old(writers)
      ensures o == Returned(-1) ==>
                out == [] && readers == old(readers)
                    && ((killed && |written| == taken && writeopen)
                       || (n > 0 && room == 0 && |written| > taken && writers == {}))
      ensures o.Returned? && o.r != -1 ==>
                && o.r == |out| && o.r <= (if n >= 0 then n else 0) && readers == old(readers) && writers == {}
                && (|written| > old(taken) || !writeopen)
                && (o.r < n ==> |written| == taken || o.r == room)
                   && (o.r == 0 && n > 0 ==> |written| == taken && !writeopen)
    {
      hide Ring;
      IsFull(data[..], nread, nwrite, written, taken);
      out := [];
      if nread == nwrite && writeopen {
        if killed {
          return Returned(-1), [];
        }
        readers := readers + {pid};
        return Slept, [];
      }
      o, out := Drain(n, room);
    }

    // The copying loop of piperead.
    method Drain(n: int, room: nat) returns (o: Outcome, out: seq<Byte>)
      requires Ring(data[..], nread, nwrite, written, taken)
      modifies this`nread, this`taken, this`writers
      ensures Ring(data[..], nread, nwrite, written, taken) && writers == {}
      ensures taken == old(taken) + |out| && taken <= |written| && out == written[old(taken)..taken]
      ensures o == Returned(-1) ==> out == [] && n > 0 && room == 0 && |written| > taken
      ensures o.Returned? && (o.r != -1 ==>
          && o.r == |out| && o.r <= (if n >= 0 then n else 0)
          && (o.r < n ==> |written| == taken || (o.r == room && room > 0)))
    {
      hide Ring;
      IsFull(data[..], nread, nwrite, written, taken);
      out := [];
      var i := 0;
      while i < n
        invariant 0 <= i == |out| <= room && (n >= 0 ==> i <= n) && (n < 0 ==> i == 0)
        invariant Ring(data[..], nread, nwrite, written, taken) && taken == old(taken) + i <= |written|
        invariant out == written[old(taken)..taken] && (i == 0 && n > 0 ==> taken == old(taken))
      {
        IsFull(data[..], nread, nwrite, written, taken);
        if nread == nwrite {
          break;
        }
        Oldest(data[..], nread, nwrite, written, taken);
        var ch := data[nread % PIPESIZE];
        if i >= room {
          if i == 0 {
            writers := {};
            return Returned(-1), [];
          }
          break;
        }
        out := out + [ch];
        nread := (nread + 1) % WRAP;
        taken := taken + 1;
        i := i + 1;
      }
      IsFull(data[..], nread, nwrite, written, taken);
      writers := {};
      return Returned(i), out;
    }

    // pipeclose of one end. True when both are closed and the page is freed.
    method Close(writable: bool) returns (freed: bool)
      requires Valid()
      modifies this
      ensures Valid() && data == old(data) && written == old(written) && taken == old(taken)
          && freed == (!readopen && !writeopen)
      ensures writable ==> !writeopen && readopen == old(readopen) && readers == {} && writers == old(writers)
      ensures !writable ==> !readopen && writeopen == old(writeopen) && writers == {} && readers == old(readers)
      ensures old(Awake()) ==> Awake()
    {
      hide Ring;
      if writable {
        writeopen := false;
        readers := {};
      } else {
        readopen := false;
        writers := {};
      }
      return !readopen && !writeopen;
    }

    // kkill of a sleeper.
    method Kill(pid: nat)
      requires Valid()
      modifies this`readers, this`writers
      ensures Valid() && readers == old(readers) - {pid} && writers == old(writers) - {pid}
      ensures old(Awake()) ==> Awake()
    {
      hide Ring;
      readers, writers := readers - {pid}, writers - {pid};
    }
  }

  /** A writer killed between two bytes of one call leaves a reader asleep beside unread data. */
  method KilledWriterLeavesReaderAsleep() returns (p: Pipe)
    ensures p.Valid() && 1 in p.readers && p.taken < |p.written| && p.writeopen && !p.Awake()
  {
    p := new Pipe();
    var o, out := p.Read(1, 1, 1, false);
    var o', i := p.Write(2, [7, 7], 2, 0, Some(1));
    assert i == 1;
  }

  ghost predicate Ring(data: seq<Byte>, nread: nat, nwrite: nat, written: seq<Byte>, taken: nat)
  {
    && |data| == PIPESIZE && nwrite == |written| % WRAP && nread == taken % WRAP
    && taken <= |written| <= taken + PIPESIZE
    && (forall i :: taken <= i < |written| ==> data[i % PIPESIZE] == written[i])
  }

  /** The test for a full ring, on counters that wrap. */
  lemma IsFull(data: seq<Byte>, nread: nat, nwrite: nat, written: seq<Byte>, taken: nat)
    requires Ring(data, nread, nwrite, written, taken)
    ensures |data| == PIPESIZE && taken <= |written| <= taken + PIPESIZE
    ensures nwrite == (nread + PIPESIZE) % WRAP <==> |written| == taken + PIPESIZE
    ensures nwrite == nread <==> |written| == taken
    ensures nwrite % PIPESIZE == |written| % PIPESIZE && nread % PIPESIZE == taken % PIPESIZE
  {
    Wrapped(taken, |written|);
    Wrapped(taken, taken + PIPESIZE);
    SamePlace(|written|);
    SamePlace(taken);
  }

  /** Counts less than 2^32 apart are equal when they are equal modulo 2^32. */
  lemma Wrapped(t: nat, w: nat)
    requires t <= w <= t + PIPESIZE
    ensures w % WRAP == (t % WRAP + (w - t)) % WRAP
    ensures w % WRAP == t % WRAP <==> w == t
    ensures w % WRAP == (t % WRAP + PIPESIZE) % WRAP <==> w == t + PIPESIZE
  {
    var q, r := t / WRAP, t % WRAP;
    assert t == q * WRAP + r;
    if r + (w - t) < WRAP {
      ModOf(q, r + (w - t), w);
    } else {
      ModOf(q + 1, r + (w - t) - WRAP, w);
    }
  }

  lemma ModOf(q: nat, r: nat, n: nat)
    requires r < WRAP && n == q * WRAP + r
    ensures n % WRAP == r
  {
  }

  /** PIPESIZE divides 2^32. */
  lemma SamePlace(n: nat)
    ensures n % WRAP % PIPESIZE == n % PIPESIZE
  {
  }

  lemma Push(data: seq<Byte>, nread: nat, nwrite: nat, written: seq<Byte>, taken: nat, x: Byte)
    requires Ring(data, nread, nwrite, written, taken) && |written| < taken + PIPESIZE
    ensures Ring(data[nwrite % PIPESIZE := x], nread, (nwrite + 1) % WRAP, written + [x], taken)
  {
    IsFull(data, nread, nwrite, written, taken);
    forall i | taken <= i < |written| + 1
      ensures data[nwrite % PIPESIZE := x][i % PIPESIZE] == (written + [x])[i]
    {
      Elsewhere(i, |written|);
    }
    NextCount(|written|, nwrite);
  }

  lemma Elsewhere(i: nat, n: nat)
    requires i <= n < i + PIPESIZE
    ensures i % PIPESIZE == n % PIPESIZE <==> i == n
  {
  }

  lemma NextCount(n: nat, c: nat)
    requires c == n % WRAP
    ensures (c + 1) % WRAP == (n + 1) % WRAP
  {
  }

  /** The next byte to take is the oldest one in the ring. */
  lemma Oldest(data: seq<Byte>, nread: nat, nwrite: nat, written: seq<Byte>, taken: nat)
    requires Ring(data, nread, nwrite, written, taken) && taken < |written|
    ensures nread % PIPESIZE < |data| && data[nread % PIPESIZE] == written[taken]
    ensures Ring(data, (nread + 1) % WRAP, nwrite, written, taken + 1)
  {
    IsFull(data, nread, nwrite, written, taken);
    NextCount(taken, nread);
  }
}
