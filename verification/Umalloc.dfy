/**
  The user-level allocator of umalloc.c: a circular, address-ordered list of free blocks through
  headers in memory, with base at the lowest address.  Addresses and sizes count Headers (8 bytes).
 */
module Umalloc {
  import opened Words
  import opened FreeList

  const HEADER := 8

  /** Units asked for by malloc(nbytes), in 32-bit unsigned arithmetic. */
  function NUnits(nbytes: nat): (n: nat)
    ensures 0 < n
  {
    (nbytes + HEADER - 1) % UINT / HEADER + 1
  }

  /** Units that morecore asks for. */
  function Claim(nbytes: nat): nat { Max(NUnits(nbytes), 4096) }

  /** A 32-bit word as an int. */
  function Signed(w: nat): int { if w < 0x8000_0000 then w else w - UINT }

  /** The argument of sbrk for nu units, as the int it arrives as. */
  function Argument(nu: nat): int { Signed(nu * HEADER % UINT) }

  /** The rounding leaves room for nbytes exactly when it does not wrap, and then with no unit to spare. */
  lemma RoomExact(nbytes: nat)
    requires nbytes < UINT
    ensures (NUnits(nbytes) - 1) * HEADER >= nbytes <==> nbytes <= UINT - HEADER
    ensures (NUnits(nbytes) - 2) * HEADER < nbytes
  {
  }

  /** morecore asks for 4096 units, or for those of a request that needs more. */
  lemma ClaimIs(nbytes: nat)
    requires nbytes <= UINT - HEADER
    ensures Claim(nbytes) == if nbytes <= 4095 * 8 then 4096 else (nbytes + 7) / 8 + 1
    ensures 8 * LIMIT == 0x8000_0000
  {
  }

  /** malloc(0xFFFFFFFF) asks for a single unit: the header and no room at all. */
  lemma WrapGivesNoRoom()
    ensures NUnits(UINT - 1) == 1
  {
  }

  /** The argument of sbrk is positive exactly for these requests. */
  lemma SbrkArgument(nbytes: nat)
    requires nbytes < UINT
    ensures Argument(Claim(nbytes)) > 0 <==> nbytes <= 0x8000_0000 - 16 || nbytes > UINT - HEADER
    ensures Argument(Claim(nbytes)) > 0 ==> Argument(Claim(nbytes)) == Claim(nbytes) * HEADER
    ensures Argument(Claim(nbytes)) <= 0 ==>
              Argument(Claim(nbytes)) == Claim(nbytes) * HEADER - UINT && 0x1000_0000 <= NUnits(nbytes) == Claim(nbytes)
  {
  }

  /** malloc(0x80000000) wants more memory and tells sbrk to take memory away. */
  lemma HalfGoesBackwards()
    ensures Argument(Claim(0x8000_0000)) == 8 - 0x8000_0000 < 0
  {
  }

  datatype Break = Failed | At(addr: int)
  datatype Pointer = Null | Pointer(addr: int)

  /** KERNBASE in units. */
  const LIMIT := 0x1000_0000

  /** What sbrk returns, and where the process's memory ends afterwards. */
  datatype Extent = Extent(at: Break, brk: int)

  /**
    sbrk of n bytes for a process of brk units.  It fails at KERNBASE or without memory.  A negative n
    that takes all memory fails after taking it; one that takes more wraps around and succeeds with
    nothing done.
   */
  function Sbrk(brk: int, n: int, memory: bool): Extent {
    if n > 0 then
      if brk * HEADER + n < LIMIT * HEADER && memory then Extent(At(brk), brk + n / HEADER) else Extent(Failed, brk)
    else if n == 0 || brk * HEADER + n < 0 then Extent(At(brk), brk)
    else if brk * HEADER + n == 0 then Extent(Failed, 0)
    else Extent(At(brk), brk + n / HEADER)
  }

  lemma SbrkIs(brk: int, nbytes: nat, memory: bool)
    requires nbytes < UINT && 0 < brk < LIMIT
    ensures
      var n := Claim(nbytes);
      var g := Sbrk(brk, Argument(n), memory);
      && n >= 4096 && (g.at.At? ==> g.at.addr == brk)
      && (Argument(n) > 0 ==> g.brk == if g.at.At? then brk + n else brk)
      && (Argument(n) > 0 ==> (g.at.At? <==> memory && brk + n < LIMIT))
      && (Argument(n) <= 0 ==> 0 <= Back(nbytes) <= LIMIT)
      && (Argument(n) <= 0 ==> (g.at.Failed? <==> brk == Back(nbytes)))
      && (Argument(n) <= 0 ==> g.brk == if Back(nbytes) <= brk then brk - Back(nbytes) else brk)
  {
    SbrkArgument(nbytes);
  }

  /** Units that a request from two gigabytes on tells sbrk to give back. */
  function Back(nbytes: nat): int { 0x2000_0000 - Claim(nbytes) }

  /** The requests for which sbrk is told to obtain memory. */
  predicate Obtains(nbytes: nat) { nbytes <= 0x8000_0000 - 16 || nbytes > UINT - 8 }

  /** What sbrk makes of the claim for nbytes, by the memory there is: more of it, or less, or a failure. */
  ghost predicate Extended(brk: int, nbytes: nat, memory: bool, failed: bool, brk': int) {
    if Obtains(nbytes) then
      (failed <==> !(memory && brk + Claim(nbytes) < LIMIT)) && brk' == (if failed then brk else brk + Claim(nbytes))
    else
      (failed <==> brk == Back(nbytes)) && brk' == if Back(nbytes) <= brk then brk - Back(nbytes) else brk
  }

  lemma SbrkExtends(brk: int, nbytes: nat, memory: bool)
    requires nbytes < UINT && 0 < brk < LIMIT
    ensures
      var g := Sbrk(brk, Argument(Claim(nbytes)), memory);
      Extended(brk, nbytes, memory, g.at.Failed?, g.brk)
  {
    hide Sbrk;
    SbrkIs(brk, nbytes, memory);
    SbrkArgument(nbytes);
  }

  // ---------------------------------------------------------------- The ring in memory

  function Next(i: nat, n: nat): (j: nat)
    requires i < n
    ensures j < n
  {
    if i + 1 == n then 0 else i + 1
  }

  /** Headers for the blocks of f, each pointing at the next and the last at the first. */
  predicate Linked(ptr: map<int, int>, size: map<int, nat>, f: seq<Blk>) {
    forall i :: 0 <= i < |f| ==> LinkedAt(ptr, size, f, i)
  }

  predicate LinkedAt(ptr: map<int, int>, size: map<int, nat>, f: seq<Blk>, i: nat)
    requires i < |f|
  {
    && f[i].addr in ptr && ptr[f[i].addr] == f[Next(i, |f|)].addr
    && f[i].addr in size && size[f[i].addr] == f[i].size
  }

  /** Every header of m but those at a and b is as before. */
  ghost predicate KeptBut<T>(m: map<int, T>, m': map<int, T>, a: int, b: int) {
    forall x :: x in m && x != a && x != b ==> x in m' && m'[x] == m[x]
  }

  lemma Addresses(f: seq<Blk>, i: nat, j: nat)
    requires Ordered(f) && i < |f| && j < |f|
    ensures f[i].addr == f[j].addr <==> i == j
    ensures f[i].addr < f[j].addr <==> i < j
  {
    if i < j { OrderedFar(f, i, j); }
    if j < i { OrderedFar(f, j, i); }
  }

  /** What the four assignments of free() leave in the headers of b and of the block before it. */
  ghost predicate Joined(ptr: map<int, int>, size: map<int, nat>, f: seq<Blk>, b: Blk, t: nat)
    requires t < |f|
  {
    var follow := if JoinsNext(f, b, t) then f[Next(t + 1, |f|)].addr else f[Next(t, |f|)].addr;
    && f[t].addr in ptr && f[t].addr in size
    && (if JoinsPrev(f, b, t) then
          ptr[f[t].addr] == follow && size[f[t].addr] == f[t].size + Grown(f, b, t).size
        else
          && ptr[f[t].addr] == b.addr && size[f[t].addr] == f[t].size
          && b.addr in ptr && b.addr in size
          && ptr[b.addr] == follow && size[b.addr] == Grown(f, b, t).size)
  }

  lemma LinkedInsert(ptr: map<int, int>, size: map<int, nat>, ptr': map<int, int>, size': map<int, nat>,
                     f: seq<Blk>, b: Blk, t: nat)
    requires Ordered(f) && Linked(ptr, size, f) && Apart(f, b) && Before(f, b, t)
    requires KeptBut(ptr, ptr', b.addr, f[t].addr) && KeptBut(size, size', b.addr, f[t].addr)
    requires Joined(ptr', size', f, b, t)
    ensures Linked(ptr', size', Insert(f, b, t))
  {
    forall i | 0 <= i < |Insert(f, b, t)| ensures LinkedAt(ptr', size', Insert(f, b, t), i) {
      LinkedInsertAt(ptr, size, ptr', size', f, b, t, i);
    }
  }

  lemma LinkedInsertAt(ptr: map<int, int>, size: map<int, nat>, ptr': map<int, int>, size': map<int, nat>,
                       f: seq<Blk>, b: Blk, t: nat, i: nat)
    requires Ordered(f) && Linked(ptr, size, f) && Apart(f, b) && Before(f, b, t)
    requires KeptBut(ptr, ptr', b.addr, f[t].addr) && KeptBut(size, size', b.addr, f[t].addr)
    requires Joined(ptr', size', f, b, t)
    requires i < |Insert(f, b, t)|
    ensures LinkedAt(ptr', size', Insert(f, b, t), i)
  {
    hide Insert, After, Apart, Ordered;
    var n := |Insert(f, b, t)|;
    InsertLength(f, b, t);
    InsertAt(f, b, t, i);
    InsertAt(f, b, t, Next(i, n));
    var k := if i <= t then i
             else i + (if JoinsPrev(f, b, t) then 0 else -1) + (if JoinsNext(f, b, t) then 1 else 0);
    if i < t || t < k {
      assert LinkedAt(ptr, size, f, k);
      Addresses(f, k, t);
      NotItsAddress(f, b, t, k);
    }
  }

  lemma InsertLength(f: seq<Blk>, b: Blk, t: nat)
    requires t < |f|
    ensures |Insert(f, b, t)|
         == |f| + (if JoinsPrev(f, b, t) then 0 else 1) - (if JoinsNext(f, b, t) then 1 else 0)
  {
  }

  lemma NotItsAddress(f: seq<Blk>, b: Blk, t: nat, k: nat)
    requires Ordered(f) && Before(f, b, t) && k < |f|
    ensures f[k].addr != b.addr
    ensures f[k].addr < b.addr <==> k <= t
  {
    Addresses(f, k, t);
    if k > t { Addresses(f, t + 1, k); }
  }

  /** The free block put in place is at least as large as the one freed. */
  lemma InsertFits(f: seq<Blk>, b: Blk, t: nat) returns (i: nat)
    requires t < |f|
    ensures i < |Insert(f, b, t)| && Insert(f, b, t)[i].size >= b.size
  {
    i := if JoinsPrev(f, b, t) then t else t + 1;
  }

  lemma LinkedTake(ptr: map<int, int>, size: map<int, nat>, ptr': map<int, int>, size': map<int, nat>,
                   f: seq<Blk>, j: nat, n: nat)
    requires Ordered(f) && Linked(ptr, size, f) && j < |f|
    requires var k := Next(j, |f|); k > 0 && f[k].size >= n > 0
    requires
      var k := Next(j, |f|);
      if f[k].size == n then ptr' == ptr[f[j].addr := f[Next(k, |f|)].addr] && size' == size
      else ptr' == ptr && size' == size[f[k].addr := f[k].size - n][Taken(f, k, n).addr := n]
    ensures Linked(ptr', size', Take(f, Next(j, |f|), n))
  {
    var k := Next(j, |f|);
    var g := Take(f, k, n);
    forall i | 0 <= i < |g| ensures LinkedAt(ptr', size', g, i) {
      var m := if f[k].size == n && i >= k then i + 1 else i;
      assert LinkedAt(ptr, size, f, m);
      Addresses(f, m, j);
      Addresses(f, m, k);
      if f[k].size > n {
        if m < k { OrderedFar(f, m, k); }
        if k < m { OrderedFar(f, k, m); }
      }
    }
  }

  lemma RingAt(ptr: map<int, int>, size: map<int, nat>, f: seq<Blk>, i: nat)
    requires Linked(ptr, size, f) && i < |f|
    ensures LinkedAt(ptr, size, f, i)
  {
  }

  /** The blocks after block s up to block j, going round, are too small. */
  predicate Passed(f: seq<Blk>, s: nat, j: nat, n: nat) {
    forall i :: 0 <= i < |f| && (if s <= j then s < i <= j else s < i || i <= j) ==> f[i].size < n
  }

  predicate NoneFits(f: seq<Blk>, n: nat) {
    forall i :: 0 <= i < |f| ==> f[i].size < n
  }

  /** One more block passed; coming round to s, all are. */
  lemma PassedNext(f: seq<Blk>, s: nat, j: nat, n: nat)
    requires s < |f| && j < |f| && Passed(f, s, j, n) && f[Next(j, |f|)].size < n
    ensures if Next(j, |f|) == s then NoneFits(f, n) else Passed(f, s, Next(j, |f|), n)
  {
  }

  /** No free block but base counts as none. */
  ghost predicate SameFree(f: seq<Blk>, g: seq<Blk>) {
    g == f || (f == [] && |g| == 1 && g[0].size == 0)
  }

  lemma SameFreeRefl(f: seq<Blk>)
    ensures SameFree(f, f)
  {
  }

  lemma PassedNone(f: seq<Blk>, s: nat, n: nat)
    ensures Passed(f, s, s, n)
  {
  }

  lemma FitsFree(f: seq<Blk>, g: seq<Blk>, i: nat, n: nat)
    requires i < |g| && g[i].size >= n > 0
    ensures !NoneFits(g, n)
    ensures SameFree(f, g) ==> !NoneFits(f, n)
  {
  }

  /** Whatever is large enough ends at e. */
  predicate FitsEnd(f: seq<Blk>, n: nat, e: int) {
    forall i :: 0 <= i < |f| && f[i].size >= n ==> f[i].End() == e
  }

  lemma FitsEndAt(f: seq<Blk>, n: nat, e: int, i: nat)
    requires FitsEnd(f, n, e) && i < |f| && f[i].size >= n
    ensures f[i].End() == e
  {
  }

  lemma NoneFitsBefore(f: seq<Blk>, g: seq<Blk>, n: nat)
    requires NoneFits(g, n)
    ensures SameFree(f, g) ==> NoneFits(f, n)
  {
  }

  function Max(a: nat, b: nat): nat {
    if a < b then b else a
  }

  // ---------------------------------------------------------------- Blocks handed out

  /** The blocks handed out overlap neither the free list nor each other, and keep their headers. */
  ghost predicate LiveOk(f: seq<Blk>, size: map<int, nat>, live: map<int, nat>) {
    && (forall a :: a in live ==> Apart(f, Blk(a, live[a])) && a in size && size[a] == live[a])
    && (forall a, b :: a in live && b in live && a != b ==> Disjoint(Blk(a, live[a]), Blk(b, live[b])))
  }

  ghost predicate Below(f: seq<Blk>, live: map<int, nat>, top: int) {
    && (forall i :: 0 <= i < |f| ==> f[i].End() <= top)
    && (forall a :: a in live ==> a + live[a] <= top)
  }

  ghost function Some(live: map<int, nat>): (a: int)
    requires exists a :: a in live
    ensures a in live
  {
    var a :| a in live;
    a
  }

  ghost function LiveSum(live: map<int, nat>): nat {
    if exists a :: a in live then
      var a := Some(live);
      live[a] + LiveSum(live - {a})
    else 0
  }

  lemma {:induction false} LiveSumWithout(live: map<int, nat>, a: int)
    requires a in live
    ensures LiveSum(live) == live[a] + LiveSum(live - {a})
    decreases |live|
  {
    var b := Some(live);
    if a != b {
      LiveSumWithout(live - {b}, a);
      assert live - {b} - {a} == live - {a} - {b};
      LiveSumWithout(live - {a}, b);
    }
  }

  lemma LiveSumWith(live: map<int, nat>, a: int, n: nat)
    requires a !in live
    ensures LiveSum(live[a := n]) == n + LiveSum(live)
  {
    LiveSumWithout(live[a := n], a);
    assert live[a := n] - {a} == live;
  }

  lemma LiveInsert(f: seq<Blk>, size: map<int, nat>, size': map<int, nat>, live: map<int, nat>, b: Blk, t: nat)
    requires Ordered(f) && Apart(f, b) && Before(f, b, t) && LiveOk(f, size, live)
    requires KeptBut(size, size', b.addr, f[t].addr)
    requires b.addr !in live && forall a :: a in live ==> Disjoint(b, Blk(a, live[a]))
    ensures LiveOk(Insert(f, b, t), size', live)
  {
    forall a | a in live ensures Apart(Insert(f, b, t), Blk(a, live[a])) && a in size' && size'[a] == live[a] {
      assert Apart(f, Blk(a, live[a]));
      InsertApart(f, b, t, Blk(a, live[a]));
      assert a != f[t].addr by { assert Disjoint(f[t], Blk(a, live[a])); }
    }
  }

  /** A block handed out overlaps no other, and is no less known once it is taken off the books. */
  lemma FreeFacts(f: seq<Blk>, size: map<int, nat>, live: map<int, nat>, top: int, a: int)
    requires LiveOk(f, size, live) && Below(f, live, top) && a in live
    ensures Apart(f, Blk(a, live[a])) && a in size && size[a] == live[a] && Blk(a, live[a]).End() <= top
    ensures LiveOk(f, size, live - {a}) && Below(f, live - {a}, top)
    ensures forall c :: c in live - {a} ==> Disjoint(Blk(a, live[a]), Blk(c, live[c]))
  {
  }

  lemma BelowInsert(f: seq<Blk>, b: Blk, t: nat, live: map<int, nat>, top: int, top': int)
    requires t < |f| && Below(f, live, top) && b.End() <= top' && top <= top'
    requires Apart(f, b)
    ensures Below(Insert(f, b, t), live, top')
  {
  }

  /** A block above all others is the only one that can be large enough, joined to one below or not. */
  lemma FitsNew(f: seq<Blk>, live: map<int, nat>, top: int, b: Blk, t: nat, n: nat)
    requires Before(f, b, t) && Below(f, live, top) && b.addr >= top && 0 < b.size && NoneFits(f, n) && Ordered(f)
    ensures FitsEnd(Insert(f, b, t), n, b.End())
  {
    assert forall i :: 0 <= i < |f| ==> f[i].addr <= f[i].End() <= top < b.End();
    forall i | 0 <= i < |Insert(f, b, t)| && Insert(f, b, t)[i].size >= n ensures Insert(f, b, t)[i].End() == b.End() {
      InsertAt(f, b, t, i);
    }
  }

  lemma BelowAt(f: seq<Blk>, live: map<int, nat>, top: int, i: nat)
    requires Below(f, live, top) && i < |f|
    ensures f[i].End() <= top
  {
  }

  /** The block behind the address returned lies in memory and has room for nbytes. */
  predicate Usable(addr: int, nbytes: nat, brk: int) {
    addr - 1 + NUnits(nbytes) <= brk && (NUnits(nbytes) - 1) * HEADER >= nbytes
  }

  /** How far malloc has got: before morecore nothing has changed, after it only the new block is large enough. */
  ghost predicate Stage(grown: bool, f0: seq<Blk>, f: seq<Blk>, top0: int, top: int, brk0: int, brk: int, nbytes: nat, memory: bool) {
    var n, g := NUnits(nbytes), Sbrk(brk0, Argument(Claim(nbytes)), memory);
    if grown then
      && g.at.At? && NoneFits(f0, n) && !NoneFits(f, n) && FitsEnd(f, n, top)
      && top == brk0 + Claim(nbytes) && brk == g.brk
    else SameFree(f0, f) && top == top0 && brk == brk0
  }

  lemma StageStart(f0: seq<Blk>, f: seq<Blk>, top: int, brk: int, nbytes: nat, memory: bool)
    requires SameFree(f0, f)
    ensures Stage(false, f0, f, top, top, brk, brk, nbytes, memory)
  {
  }

  /** When no block is large enough, morecore has not been called. */
  lemma StageShort(grown: bool, f0: seq<Blk>, f: seq<Blk>, top0: int, top: int, brk0: int, brk: int, nbytes: nat, memory: bool)
    requires Stage(grown, f0, f, top0, top, brk0, brk, nbytes, memory) && NoneFits(f, NUnits(nbytes))
    ensures !grown && NoneFits(f0, NUnits(nbytes)) && top == top0 && brk == brk0
  {
    NoneFitsBefore(f0, f, NUnits(nbytes));
  }

  lemma StageGrown(f0: seq<Blk>, f: seq<Blk>, top0: int, top: int, brk0: int, brk: int, nbytes: nat, memory: bool)
    requires
      var n, g := NUnits(nbytes), Sbrk(brk0, Argument(Claim(nbytes)), memory);
      && g.at.At? && NoneFits(f0, n) && !NoneFits(f, n) && FitsEnd(f, n, top)
      && top == brk0 + Claim(nbytes) && brk == g.brk
    ensures Stage(true, f0, f, top0, top, brk0, brk, nbytes, memory)
  {
  }

  /** What the block found is worth. */
  lemma StageEnd(grown: bool, f0: seq<Blk>, f: seq<Blk>, top0: int, top: int, brk0: int, brk: int, nbytes: nat, memory: bool, k: nat)
    requires Stage(grown, f0, f, top0, top, brk0, brk, nbytes, memory) && nbytes < UINT && 0 < top0 <= brk0 < LIMIT
    requires k < |f| && f[k].size >= NUnits(nbytes) && f[k].End() <= top
    ensures
      var n, g := NUnits(nbytes), Sbrk(brk0, Argument(Claim(nbytes)), memory);
      && (grown <==> NoneFits(f0, n) && g.at.At?) && !(NoneFits(f0, n) && g.at.Failed?)
      && brk == (if NoneFits(f0, n) then g.brk else brk0)
      && (top <= brk < LIMIT <==> !NoneFits(f0, n) || Argument(Claim(nbytes)) > 0)
    ensures
      Usable(f[k].End() - NUnits(nbytes) + 1, nbytes, brk) <==>
      (!NoneFits(f0, NUnits(nbytes)) && nbytes <= UINT - HEADER) || nbytes <= 0x8000_0000 - 16
  {
    hide NUnits, Sbrk, Argument, NoneFits, FitsEnd, SameFree;
    FitsFree(f0, f, k, NUnits(nbytes));
    if grown { FitsEndAt(f, NUnits(nbytes), top, k); }
    RoomExact(nbytes);
    SbrkArgument(nbytes);
    SbrkIs(brk0, nbytes, memory);
  }

  lemma LiveTake(f: seq<Blk>, size: map<int, nat>, size': map<int, nat>, live: map<int, nat>, k: nat, n: nat)
    requires Ordered(f) && 1 <= k < |f| && f[k].size >= n > 0 && LiveOk(f, size, live)
    requires KeptBut(size, size', f[k].addr, Taken(f, k, n).addr)
    requires Taken(f, k, n).addr in size' && size'[Taken(f, k, n).addr] == n
    ensures Taken(f, k, n).addr !in live
    ensures LiveOk(Take(f, k, n), size', live[Taken(f, k, n).addr := n])
  {
    var b := Taken(f, k, n);
    var live' := live[b.addr := n];
    TakeOrdered(f, k, n);
    forall a | a in live
      ensures a != b.addr && Disjoint(b, Blk(a, live[a]))
      ensures Apart(Take(f, k, n), Blk(a, live[a])) && a in size' && size'[a] == live[a]
    {
      assert Apart(f, Blk(a, live[a]));
      TakeApart(f, k, n, Blk(a, live[a]));
      assert a != f[k].addr by { assert Disjoint(f[k], Blk(a, live[a])); }
    }
    assert b == Blk(b.addr, live'[b.addr]);
  }

  lemma BelowTake(f: seq<Blk>, live: map<int, nat>, top: int, k: nat, n: nat)
    requires k < |f| && f[k].size >= n && Below(f, live, top)
    ensures Below(Take(f, k, n), live[Taken(f, k, n).addr := n], top)
  {
  }

  // ---------------------------------------------------------------- The allocator

  class Heap {
    const base: int
    var ptr: map<int, int>
    var size: map<int, nat>
    var freep: Pointer
    ghost var free: seq<Blk>
    ghost var live: map<int, nat>
    /** Where the process's memory ends. */
    var brk: int
    /** All units linked in by morecore, and the end of the highest block. */
    ghost var total: nat
    ghost var top: int

    /** The circular list is in address order, base first, and no two of its blocks touch. */
    ghost predicate Ring()
      reads this
    {
      && Ordered(free) && free[0].addr == base && Linked(ptr, size, free)
      && freep.Pointer? && exists i :: 0 <= i < |free| && free[i].addr == freep.addr
    }

    ghost predicate Counted()
      reads this
    {
      && LiveOk(free, size, live) && Below(free, live, top)
      && Sum(free) + LiveSum(live) == total
    }

    /** The bookkeeping alone, whether or not there is memory behind it. */
    ghost predicate Sound()
      reads this
    {
      && 0 <= base < top
      && if freep.Null? then free == [] && live == map[] && total == 0 else Ring() && Counted()
    }

    ghost predicate Valid()
      reads this
    {
      Sound() && top <= brk < LIMIT
    }

    /** Memory may be there already, and more may come from elsewhere. */
    constructor (b: int, e: int)
      requires 0 <= b < e < LIMIT
      ensures Valid() && live == map[] && base == b && brk == e && free == []
    {
      base := b;
      ptr, size := map[], map[];
      freep := Null;
      brk := e;
      free, live, total, top := [], map[], 0, e;
    }

    /** The search loop of free(): the free block after which bp belongs. */
    method FindPlace(bp: int, ghost b: Blk) returns (p: int, ghost t: nat)
      requires Ring() && b.addr == bp && Apart(free, b)
      ensures Before(free, b, t) && p == free[t].addr
      ensures exists k: nat :: Before(free, b, k) && p == free[k].addr
    {
      t := Place(free, b);
      p := freep.addr;
      ghost var i :| 0 <= i < |free| && free[i].addr == p;
      while true
        invariant 0 <= i < |free| && p == free[i].addr
        decreases if i <= t then t - i else t - i + |free|
      {
        assert LinkedAt(ptr, size, free, i);
        PlaceStops(free, b, t, i);
        var next := ptr[p];
        if bp > p && bp < next { break; }
        if p >= next && (bp > p || bp < next) { break; }
        p := next;
        i := Next(i, |free|);
      }
    }

    /** free() without the caller's bookkeeping: bp becomes a free block, joined to its neighbours. */
    method FreeBlock(bp: int, ghost b: Blk) returns (ghost t: nat)
      requires Ring() && b.addr == bp && Apart(free, b) && bp in size && size[bp] == b.size
      modifies `ptr, `size, `freep, `free
      ensures Ring() && Before(old(free), b, t) && free == Insert(old(free), b, t)
      ensures freep == Pointer(old(free)[t].addr)
      ensures KeptBut(old(size), size, bp, old(free)[t].addr)
    {
      var p;
      p, t := FindPlace(bp, b);
      Relink(bp, b, p, t);
      InsertOrdered(free, b, t);
      LinkedInsert(old(ptr), old(size), ptr, size, free, b, t);
      InsertAt(free, b, t, t);
      InsertLength(free, b, t);
      free := Insert(free, b, t);
      freep := Pointer(p);
    }

    method Relink(bp: int, ghost b: Blk, p: int, ghost t: nat)
      requires Ring() && b.addr == bp && Apart(free, b) && bp in size && size[bp] == b.size
      requires Before(free, b, t) && p == free[t].addr
      modifies `ptr, `size
      ensures Joined(ptr, size, free, b, t)
      ensures KeptBut(old(ptr), ptr, bp, p) && KeptBut(old(size), size, bp, p)
    {
      assert LinkedAt(ptr, size, free, t);
      ghost var k := Next(t, |free|);
      assert LinkedAt(ptr, size, free, k);
      NotItsAddress(free, b, t, k);
      NotItsAddress(free, b, t, t);
      Addresses(free, t, k);
      var next := ptr[p];
      if bp + size[bp] == next {
        size := size[bp := size[bp] + size[next]];
        ptr := ptr[bp := ptr[next]];
      } else {
        ptr := ptr[bp := next];
      }
      if p + size[p] == bp {
        size := size[p := size[p] + size[bp]];
        ptr := ptr[p := ptr[bp]];
      } else {
        ptr := ptr[p := bp];
      }
    }

    /** free(): the block goes back to the free list and nothing else changes hands. */
    method Free(ap: int) returns (ghost t: nat)
      requires Valid() && ap - 1 in live
      modifies this
      ensures Valid()
      ensures live == old(live) - {ap - 1} && total == old(total) && brk == old(brk)
      ensures
        var b := Blk(ap - 1, old(live)[ap - 1]);
        Before(old(free), b, t) && free == Insert(old(free), b, t)
    {
      hide Ordered, Linked, LiveOk, Below, Sum, LiveSum, Apart, Before, Insert, KeptBut, Disjoint;
      var bp := ap - 1;
      ghost var b := Blk(bp, live[bp]);
      FreeFacts(free, size, live, top, bp);
      t := FreeBlock(bp, b);
      live := live - {bp};
      LiveInsert(old(free), old(size), size, live, b, t);
      BelowInsert(old(free), b, t, live, top, top);
      InsertSum(old(free), b, t);
      LiveSumWithout(old(live), bp);
    }

    /** morecore(): a new block of at least 4096 units where memory ended, or failure. */
    method MoreCore(nu: nat, memory: bool, ghost nbytes: nat) returns (p: Pointer, ghost i: nat)
      requires Valid() && freep.Pointer? && nbytes < UINT && nu == NUnits(nbytes)
      modifies this
      ensures Sound() && freep.Pointer? && live == old(live)
      ensures p.Null? <==> Sbrk(old(brk), Argument(Claim(nbytes)), memory).at.Failed?
      ensures p.Null? ==> free == old(free) && total == old(total) && unchanged(`ptr, `size, `freep, `top)
      ensures p.Pointer? ==> p == freep && i < |free| && free[i].size >= nu
      ensures p.Pointer? ==> total == old(total) + Claim(nbytes) && top == old(brk) + Claim(nbytes)
      ensures p.Pointer? && NoneFits(old(free), nu) ==> FitsEnd(free, nu, top)
      ensures brk == Sbrk(old(brk), Argument(Claim(nbytes)), memory).brk
      ensures Extended(old(brk), nbytes, memory, p.Null?, brk)
    {
      hide Insert, Ordered, Apart, LiveOk, Below, LiveSum, Sum, Linked, Before, NoneFits, FitsEnd, NUnits, Sbrk, Argument, Extended;
      var n := if nu < 4096 then 4096 else nu;
      var g := Sbrk(brk, Argument(n), memory);
      SbrkIs(brk, nbytes, memory);
      SbrkExtends(brk, nbytes, memory);
      brk := g.brk;
      if g.at.Failed? { return Null, 0; }
      var hp := g.at.addr;
      ghost var b := Blk(hp, n);
      AboveTop(free, size, live, top, b);
      SizeAbove(ptr, size, free, live, top, hp, n);
      size := size[hp := n];
      ghost var t := FreeBlock(hp, b);
      LiveInsert(old(free), old(size), size, live, b, t);
      BelowInsert(old(free), b, t, live, top, b.End());
      InsertSum(old(free), b, t);
      i := InsertFits(old(free), b, t);
      if NoneFits(old(free), nu) { FitsNew(old(free), live, top, b, t, nu); }
      total := total + n;
      top := b.End();
      p := freep;
    }

    /** Cut the request off block p, or unlink p when it fits exactly. */
    method Carve(prevp: int, p: int, nunits: nat, ghost j: nat) returns (r: int)
      requires Ring() && Counted() && j < |free| && 0 < nunits
      requires prevp == free[j].addr && p == free[Next(j, |free|)].addr && free[Next(j, |free|)].size >= nunits
      modifies `ptr, `size, `freep, `free, `live
      ensures Ring() && Counted()
      ensures
        var k := Next(j, |old(free)|);
        && r == Taken(old(free), k, nunits).addr + 1 && free == Take(old(free), k, nunits)
        && r - 1 !in old(live) && live == old(live)[r - 1 := nunits]
    {
      hide Take, Linked, Ordered, LiveOk, Below, Sum, LiveSum, Apart;
      ghost var k := Next(j, |free|);
      CarveFacts(ptr, size, free, live, top, j, nunits);
      var q := Cut(prevp, p, nunits, j);
      LinkedTake(old(ptr), old(size), ptr, size, free, j, nunits);
      LiveTake(free, old(size), size, live, k, nunits);
      free, live := Take(free, k, nunits), live[q := nunits];
      freep := Pointer(prevp);
      r := q + 1;
    }

    /** The program moves the break up by itself. */
    method Raise(n: nat)
      requires Valid() && brk + n < LIMIT
      modifies `brk
      ensures Valid() && brk == old(brk) + n
    {
      brk := brk + n;
    }

    /**
      malloc(): a block of NUnits(nbytes) units that overlaps nothing handed out before, its
      header included.  morecore is called at most once, and only when no free block is large
      enough; the search then succeeds.  The block lies in memory and has room for nbytes exactly
      when a free block was large enough and the rounding did not wrap, or the request is below two
      gigabytes.
     */
    method Malloc(nbytes: nat, memory: bool) returns (r: Pointer, ghost grown: bool)
      requires Valid() && nbytes < UINT
      modifies this
      ensures Sound()
      ensures Valid() <==> !NoneFits(old(free), NUnits(nbytes)) || Argument(Claim(nbytes)) > 0
      ensures
        var g := Sbrk(old(brk), Argument(Claim(nbytes)), memory);
        && (grown <==> NoneFits(old(free), NUnits(nbytes)) && g.at.At?)
        && (r.Null? <==> NoneFits(old(free), NUnits(nbytes)) && g.at.Failed?)
        && brk == (if NoneFits(old(free), NUnits(nbytes)) then g.brk else old(brk))
      ensures r.Null? ==> NoneFits(old(free), NUnits(nbytes))
      ensures NoneFits(old(free), NUnits(nbytes)) ==> Extended(old(brk), nbytes, memory, r.Null?, brk)
      ensures NoneFits(old(free), NUnits(nbytes)) && nbytes <= 0x8000_0000 - 16 ==>
        && (r.Pointer? <==> memory && old(brk) + Claim(nbytes) < LIMIT)
        && brk == old(brk) + if r.Pointer? then Claim(nbytes) else 0
      ensures total == old(total) + if grown then Claim(nbytes) else 0
      ensures r.Null? ==> live == old(live)
      ensures r.Pointer? ==> r.addr - 1 !in old(live) && live == old(live)[r.addr - 1 := NUnits(nbytes)]
      ensures r.Pointer? ==>
                (Usable(r.addr, nbytes, brk) <==>
                 (!NoneFits(old(free), NUnits(nbytes)) && nbytes <= UINT - HEADER) || nbytes <= 0x8000_0000 - 16)
    {
      hide Ordered, Linked, LiveOk, Below, Sum, LiveSum, NUnits, Take, Passed, NoneFits, SameFree, FitsEnd, Sbrk, Argument, Claim, Usable, Stage, Walking, Ring, Counted,
           Extended;
      var nunits := NUnits(nbytes);
      SameFreeRefl(free);
      if freep.Null? { Init(); }
      SbrkIs(brk, nbytes, memory);
      SbrkExtends(brk, nbytes, memory);
      SbrkArgument(nbytes);
      StageStart(old(free), free, top, brk, nbytes, memory);
      grown := false;
      var prevp := freep.addr;
      ghost var s: nat := WalkStart(nunits);
      ghost var j: nat := s;
      var p := ptr[prevp];
      while true
        invariant Walking(s, j, prevp, p, nunits) && live == old(live)
        invariant Stage(grown, old(free), free, old(top), top, old(brk), brk, nbytes, memory)
        invariant total == old(total) + if grown then Claim(nbytes) else 0
        decreases !grown, if j < s then s - j else s - j + |free|
      {
        WalkOn(s, j, prevp, p, nunits);
        if size[p] >= nunits {
          var a := HandOut(prevp, p, nunits, j, grown, old(free), old(top), old(brk), nbytes, memory);
          r := Pointer(a);
          return;
        }
        if p == freep.addr {
          StageShort(grown, old(free), free, old(top), top, old(brk), brk, nbytes, memory);
          var q;
          q := Refill(nunits, memory, nbytes);
          if q.Null? { return Null, grown; }
          grown := true;
          StageGrown(old(free), free, old(top), top, old(brk), brk, nbytes, memory);
          s := WalkStart(nunits);
          p, j := q.addr, s;
        } else {
          j := Next(j, |free|);
        }
        prevp := p;
        p := ptr[p];
      }
    }

    /** The search is between blocks j and j + 1 and has passed those after block s, where freep points. */
    ghost predicate Walking(s: nat, j: nat, prevp: int, p: int, n: nat)
      reads this
    {
      && Sound() && freep.Pointer?
      && j < |free| && prevp == free[j].addr && p == free[Next(j, |free|)].addr
      && s < |free| && freep.addr == free[s].addr && Passed(free, s, j, n)
    }

    lemma WalkStart(n: nat) returns (s: nat)
      requires Sound() && freep.Pointer?
      ensures freep.addr in ptr && Walking(s, s, freep.addr, ptr[freep.addr], n)
    {
      s :| 0 <= s < |free| && free[s].addr == freep.addr;
      PassedNone(free, s, n);
      RingAt(ptr, size, free, s);
    }

    /** A block too small is passed; coming round, all are. */
    lemma WalkOn(s: nat, j: nat, prevp: int, p: int, n: nat)
      requires Walking(s, j, prevp, p, n)
      ensures p in ptr && p in size && j < |free| && s < |free| && Sound() && freep.Pointer?
      ensures size[p] == free[Next(j, |free|)].size && prevp == free[j].addr && p == free[Next(j, |free|)].addr
      ensures size[p] < n && p == freep.addr ==> NoneFits(free, n)
      ensures size[p] < n && p != freep.addr ==> Walking(s, Next(j, |free|), p, ptr[p], n) && Next(j, |free|) != s
    {
      RingAt(ptr, size, free, Next(j, |free|));
      Addresses(free, Next(j, |free|), s);
      if size[p] < n { PassedNext(free, s, j, n); }
    }

    /** The block found is cut, and what it is worth. */
    method HandOut(prevp: int, p: int, nunits: nat, ghost j: nat, ghost grown: bool, ghost f0: seq<Blk>, ghost top0: int,
                   ghost brk0: int, ghost nbytes: nat, ghost memory: bool)
      returns (a: int)
      requires Sound() && freep.Pointer? && j < |free| && nunits == NUnits(nbytes) && nbytes < UINT && 0 < top0 <= brk0 < LIMIT
      requires prevp == free[j].addr && p == free[Next(j, |free|)].addr && free[Next(j, |free|)].size >= nunits
      requires Stage(grown, f0, free, top0, top, brk0, brk, nbytes, memory)
      modifies `ptr, `size, `freep, `free, `live
      ensures Sound() && freep.Pointer? && a - 1 !in old(live) && live == old(live)[a - 1 := nunits]
      ensures
        var g := Sbrk(brk0, Argument(Claim(nbytes)), memory);
        && (grown <==> NoneFits(f0, nunits) && g.at.At?) && !(NoneFits(f0, nunits) && g.at.Failed?)
        && brk == (if NoneFits(f0, nunits) then g.brk else brk0)
        && (top <= brk < LIMIT <==> !NoneFits(f0, nunits) || Argument(Claim(nbytes)) > 0)
      ensures
        Usable(a, nbytes, brk) <==> (!NoneFits(f0, nunits) && nbytes <= UINT - HEADER) || nbytes <= 0x8000_0000 - 16
    {
      hide Ordered, Linked, LiveOk, Below, Sum, LiveSum, NUnits, Take, NoneFits, Sbrk, Argument, Claim, Usable, Stage;
      ghost var k := Next(j, |free|);
      BelowAt(free, live, top, k);
      StageEnd(grown, f0, free, top0, top, brk0, brk, nbytes, memory, k);
      a := Carve(prevp, p, nunits, j);
    }

    /** morecore from within malloc; the search goes on from the new block's neighbour. */
    method Refill(nunits: nat, memory: bool, ghost nbytes: nat) returns (p: Pointer)
      requires Valid() && freep.Pointer? && nbytes < UINT && nunits == NUnits(nbytes) && NoneFits(free, nunits)
      modifies this
      ensures Sound() && freep.Pointer? && live == old(live)
      ensures p.Null? <==> Sbrk(old(brk), Argument(Claim(nbytes)), memory).at.Failed?
      ensures p.Null? ==> total == old(total) && top == old(top)
      ensures p.Pointer? ==> && p == freep && !NoneFits(free, nunits) && FitsEnd(free, nunits, top)
                             && total == old(total) + Claim(nbytes) && top == old(brk) + Claim(nbytes)
      ensures brk == Sbrk(old(brk), Argument(Claim(nbytes)), memory).brk
    {
      hide Ordered, Linked, LiveOk, Below, Sum, LiveSum, NUnits, Sbrk, Argument, Claim, FitsEnd;
      ghost var i;
      p, i := MoreCore(nunits, memory, nbytes);
      if p.Pointer? { FitsFree(free, free, i, nunits); }
    }

    /** The first call of malloc makes base a ring of its own. */
    method Init()
      requires Valid() && freep.Null?
      modifies `ptr, `size, `freep, `free
      ensures Ring() && Counted() && SameFree(old(free), free)
    {
      ptr, size := ptr[base := base], size[base := 0];
      free := [Blk(base, 0)];
      freep := Pointer(base);
      assert free[0].addr == base && LinkedAt(ptr, size, free, 0);
      assert free[..0] == [];
    }

    method Cut(prevp: int, p: int, nunits: nat, ghost j: nat) returns (q: int)
      requires 0 < nunits && j + 1 < |free| && LinkedAt(ptr, size, free, j) && LinkedAt(ptr, size, free, j + 1)
      requires prevp == free[j].addr && p == free[j + 1].addr && free[j + 1].size >= nunits
      modifies `ptr, `size
      ensures q == Taken(free, j + 1, nunits).addr && q in size && size[q] == nunits
      ensures KeptBut(old(size), size, p, q)
      ensures
        var k := j + 1;
        if free[k].size == nunits then ptr == old(ptr)[prevp := free[Next(k, |free|)].addr] && size == old(size)
        else ptr == old(ptr) && size == old(size)[p := free[k].size - nunits][q := nunits]
    {
      q := p;
      if size[p] == nunits {
        ptr := ptr[prevp := ptr[p]];
      } else {
        size := size[p := size[p] - nunits];
        q := p + size[p];
        size := size[q := nunits];
      }
    }
  }

  lemma CarveFacts(ptr: map<int, int>, size: map<int, nat>, f: seq<Blk>, live: map<int, nat>, top: int,
                   j: nat, n: nat)
    requires Ordered(f) && Linked(ptr, size, f) && LiveOk(f, size, live) && Below(f, live, top)
    requires j < |f| && f[Next(j, |f|)].size >= n > 0
    ensures
      var k := Next(j, |f|);
      && k == j + 1
      && LinkedAt(ptr, size, f, j) && LinkedAt(ptr, size, f, k)
      && Ordered(Take(f, k, n)) && Take(f, k, n)[0] == f[0]
      && j < |Take(f, k, n)| && Take(f, k, n)[j].addr == f[j].addr
      && Sum(Take(f, k, n)) == Sum(f) - n
      && Taken(f, k, n).addr !in live
      && LiveSum(live[Taken(f, k, n).addr := n]) == LiveSum(live) + n
      && Below(Take(f, k, n), live[Taken(f, k, n).addr := n], top)
  {
    var k := Next(j, |f|);
    TakeOrdered(f, k, n);
    TakeSum(f, k, n);
    BelowTake(f, live, top, k, n);
    var b := Taken(f, k, n);
    forall a | a in live ensures a != b.addr {
      assert Apart(f, Blk(a, live[a]));
      assert Disjoint(f[k], Blk(a, live[a]));
    }
    LiveSumWith(live, b.addr, n);
  }

  lemma AboveTop(f: seq<Blk>, size: map<int, nat>, live: map<int, nat>, top: int, b: Blk)
    requires Ordered(f) && LiveOk(f, size, live) && Below(f, live, top)
    requires b.addr >= top && b.size > 0 && f[0].addr < top
    ensures Apart(f, b) && b.addr !in live
    ensures forall a :: a in live ==> Disjoint(b, Blk(a, live[a]))
  {
  }

  lemma SizeAbove(ptr: map<int, int>, size: map<int, nat>, f: seq<Blk>, live: map<int, nat>, top: int, hp: int, n: nat)
    requires Ordered(f) && Linked(ptr, size, f) && hp >= top && f[0].addr < top && Below(f, live, top)
    ensures Linked(ptr, size[hp := n], f)
  {
    var size' := size[hp := n];
    forall i | 0 <= i < |f| ensures LinkedAt(ptr, size', f, i) {
      assert LinkedAt(ptr, size, f, i);
      assert f[i].End() <= top;
    }
  }

  /** Where b belongs among the free blocks. */
  lemma Place(f: seq<Blk>, b: Blk) returns (t: nat)
    requires Ordered(f) && Apart(f, b)
    ensures Before(f, b, t)
  {
    t := 0;
    while t + 1 < |f| && f[t + 1].addr < b.addr
      invariant t < |f| && f[t].addr < b.addr
    {
      t := t + 1;
    }
    if t + 1 < |f| { assert Disjoint(f[t + 1], b); }
  }

  /** The tests of the search loop hold at the place of b and nowhere else. */
  lemma PlaceStops(f: seq<Blk>, b: Blk, t: nat, i: nat)
    requires Ordered(f) && Before(f, b, t) && f[0].addr < b.addr && i < |f|
    ensures
      var p, next := f[i].addr, f[Next(i, |f|)].addr;
      (b.addr > p && b.addr < next) || (p >= next && (b.addr > p || b.addr < next)) <==> i == t
  {
    NotItsAddress(f, b, t, i);
    NotItsAddress(f, b, t, Next(i, |f|));
    Addresses(f, i, Next(i, |f|));
  }
}
