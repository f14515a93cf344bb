/**
  Pipes (pipe.c).  A call of pipewrite or piperead holds the lock from its start, or from a wakeup,
  until it returns or sleeps; each such stretch is one method call here, and any interleaving of
  readers and writers is a sequence of these calls.  The counters are 32-bit and wrap.
 */
module Pipe {
  import opened Words

  const PIPESIZE: nat := 512

  // ---------------------------------------------------------------- Counters that wrap

  lemma IndexWraps(a: nat)
    ensures a % UINT % PIPESIZE == a % PIPESIZE
  {
  }

  lemma NextWraps(a: nat)
    ensures (a % UINT + 1) % UINT == (a + 1) % UINT
  {
  }

  /** The tests of pipe.c on wrapped counters tell full and empty apart. */
  lemma FullEmpty(r: nat, w: nat)
    requires r <= w <= r + PIPESIZE
    ensures w % UINT == (r % UINT + PIPESIZE) % UINT <==> w == r + PIPESIZE
    ensures r % UINT == w % UINT <==> r == w
  {
  }

  // ---------------------------------------------------------------- The ring

  /** The ring holds the bytes accepted and not yet delivered. */
  predicate Ring(data: seq<int>, accepted: seq<int>, r: nat) {
    && |data| == PIPESIZE && r <= |accepted| <= r + PIPESIZE
    && forall k :: r <= k < |accepted| ==> data[k % PIPESIZE] == accepted[k]
  }

  lemma RingPut(data: seq<int>, accepted: seq<int>, r: nat, b: int)
    requires Ring(data, accepted, r) && |accepted| < r + PIPESIZE
    ensures Ring(data[|accepted| % PIPESIZE := b], accepted + [b], r)
  {
  }

  datatype Wrote = Wrote(n: nat) | WriterSleeps(done: nat) | WriteFailed(done: nat)
  datatype Read = Read(bytes: seq<int>) | ReaderSleeps | ReadFailed

  class PipeState {
    const data: array<int>
    var nread: nat
    var nwrite: nat
    var readopen: bool
    var writeopen: bool
    /** Processes asleep on &p->nread and on &p->nwrite. */
    var readers: set<nat>
    var writers: set<nat>
    ghost var accepted: seq<int>
    ghost var delivered: seq<int>

    /** First in, first out: what was delivered is a prefix of what was accepted, and the ring holds the rest. */
    ghost predicate Valid()
      reads this, data
    {
      && data.Length == PIPESIZE
      && nread == |delivered| % UINT && nwrite == |accepted| % UINT
      && Ring(data[..], accepted, |delivered|)
      && delivered == accepted[..|delivered|]
    }

    ghost predicate Empty()
      reads this
    {
      |accepted| == |delivered|
    }

    ghost predicate Full()
      reads this
    {
      |accepted| == |delivered| + PIPESIZE
    }

    /** No one sleeps for nothing: readers only on an empty pipe, writers only on a full one, with the other end open. */
    ghost predicate Attentive()
      reads this
    {
      && (readers != {} ==> Empty() && writeopen && readopen)
      && (writers != {} ==> Full() && readopen && writeopen)
    }

    constructor ()
      ensures Valid() && Attentive() && fresh(data) && accepted == delivered == [] && readopen && writeopen
      ensures readers == writers == {}
    {
      data := new int[PIPESIZE](i => 0);
      nread, nwrite, readopen, writeopen := 0, 0, true, true;
      readers, writers := {}, {};
      accepted, delivered := [], [];
    }

    method Put(b: int)
      requires Valid() && !Full()
      modifies data, `nwrite, `accepted
      ensures Valid() && accepted == old(accepted) + [b]
    {
      RingPut(data[..], accepted, |delivered|, b);
      IndexWraps(|accepted|);
      NextWraps(|accepted|);
      data[nwrite % PIPESIZE] := b;
      nwrite := (nwrite + 1) % UINT;
      ghost var w := |accepted|;
      assert data[..] == old(data[..])[w % PIPESIZE := b];
      accepted := accepted + [b];
    }

    method Take() returns (b: int)
      requires Valid() && !Empty()
      modifies `nread, `delivered
      ensures Valid() && delivered == old(delivered) + [b] && |delivered| <= |accepted| && b == accepted[|old(delivered)|]
    {
      IndexWraps(|delivered|);
      NextWraps(|delivered|);
      b := data[nread % PIPESIZE];
      nread := (nread + 1) % UINT;
      delivered := delivered + [b];
    }

    /**
      pipewrite from byte i on, until it is done, sleeps or fails.  With a killed writer the wakeup of
      the readers can be left out; then, and only then, someone may sleep for nothing.
     */
    method WriteSegment(t: nat, addr: seq<int>, i0: nat, killed: bool) returns (r: Wrote)
      requires Valid() && i0 <= |addr| && writeopen && t !in readers && t !in writers
      modifies this, data
      ensures Valid() && delivered == old(delivered) && readopen == old(readopen) && writeopen
      ensures r.Wrote? ==> r.n == |addr| && accepted == old(accepted) + addr[i0..] && writers == old(writers)
      ensures r.Wrote? || r.WriterSleeps? ==> readers == {}
      ensures r.WriterSleeps? || r.WriteFailed? ==> i0 <= r.done < |addr| && accepted == old(accepted) + addr[i0..r.done] && Full()
      ensures r.WriterSleeps? ==> writers == old(writers) + {t} && readopen && !killed
      ensures r.WriteFailed? ==> (!readopen || killed) && writers == old(writers) && readers == old(readers)
      ensures
        var room := PIPESIZE - (|old(accepted)| - |delivered|);
        && (r.Wrote? <==> |addr| - i0 <= room)
        && (r.WriteFailed? <==> |addr| - i0 > room && (!readopen || killed))
      ensures old(Attentive()) ==> (Attentive() <==> !(killed && old(readers) != {} && |addr| - i0 > PIPESIZE))
    {
      var i := i0;
      while i < |addr|
        invariant i0 <= i <= |addr| && Valid() && delivered == old(delivered)
        invariant accepted == old(accepted) + addr[i0..i]
        invariant unchanged(`readers, `writers, `readopen, `writeopen)
        invariant i > i0 ==> !Empty()
      {
        FullEmpty(|delivered|, |accepted|);
        if nwrite == (nread + PIPESIZE) % UINT {
          if !readopen || killed { return WriteFailed(i); }
          readers := {};
          writers := writers + {t};
          return WriterSleeps(i);
        }
        Put(addr[i]);
        assert addr[i0..i] + [addr[i]] == addr[i0..i + 1];
        i := i + 1;
      }
      assert addr[i0..i] == addr[i0..];
      readers := {};
      return Wrote(|addr|);
    }

    /** piperead, until it returns or sleeps. */
    method ReadSegment(t: nat, n: nat, killed: bool) returns (r: Read)
      requires Valid() && readopen && t !in readers && t !in writers
      modifies this
      ensures Valid() && accepted == old(accepted) && readopen && writeopen == old(writeopen)
      ensures old(Attentive()) ==> Attentive()
      ensures r.Read? ==> && delivered == old(delivered) + r.bytes
                          && |r.bytes| == Min(n, |accepted| - |old(delivered)|)
                          && (old(Empty()) ==> !writeopen) && writers == {} && unchanged(`readers)
      ensures r.ReaderSleeps? || r.ReadFailed? ==> delivered == old(delivered) && Empty() && writeopen
      ensures r.ReaderSleeps? ==> !killed && readers == old(readers) + {t} && unchanged(`writers)
      ensures r.ReadFailed? ==> killed && unchanged(`readers, `writers)
    {
      FullEmpty(|delivered|, |accepted|);
      if nread == nwrite && writeopen {
        if killed { return ReadFailed; }
        readers := readers + {t};
        return ReaderSleeps;
      }
      var bytes := [];
      while |bytes| < n
        invariant |bytes| <= n && Valid() && accepted == old(accepted) && delivered == old(delivered) + bytes
        invariant unchanged(`readers, `writers, `readopen, `writeopen)
      {
        FullEmpty(|delivered|, |accepted|);
        if nread == nwrite { break; }
        var b := Take();
        bytes := bytes + [b];
      }
      writers := {};
      return Read(bytes);
    }

    /** kill() takes a sleeper off its channel. */
    method Kill(t: nat)
      requires Valid()
      modifies `readers, `writers
      ensures Valid() && readers == old(readers) - {t} && writers == old(writers) - {t}
      ensures old(Attentive()) ==> Attentive()
    {
      readers, writers := readers - {t}, writers - {t};
    }

    /** pipeclose by the last user of an end, who is therefore not asleep in it; true when the pipe is gone. */
    method Close(writable: bool) returns (gone: bool)
      requires Valid() && (if writable then writers == {} else readers == {})
      modifies this
      ensures Valid() && accepted == old(accepted) && delivered == old(delivered)
      ensures old(Attentive()) ==> Attentive()
      ensures writeopen == (old(writeopen) && !writable) && readopen == (old(readopen) && writable)
      ensures gone <==> !readopen && !writeopen
      ensures if writable then readers == {} && writers == old(writers) else writers == {} && readers == old(readers)
    {
      if writable {
        writeopen := false;
        readers := {};
      } else {
        readopen := false;
        writers := {};
      }
      return !readopen && !writeopen;
    }
  }

  function Min(a: nat, b: nat): nat { if a < b then a else b }

  /** A reader asleep on an empty pipe, and a killed writer with one byte too many: the pipe is full and the reader sleeps on. */
  method ReaderLeftAsleep() returns (p: PipeState)
    ensures fresh(p) && p.Valid() && p.Full() && p.readers == {1} && !p.Attentive()
  {
    p := new PipeState();
    var r := p.ReadSegment(1, 1, false);
    var w := p.WriteSegment(2, seq(PIPESIZE + 1, i => 0), 0, true);
  }
}
