/**
  The free list of umalloc.c as a value: blocks in address order, the empty block `base` first,
  with a gap after each, so that no two free blocks are adjacent.  Sizes and addresses count
  Headers.
 */
module FreeList {

  datatype Blk = Blk(addr: int, size: nat) {
    function End(): int { addr + size }
  }

  predicate Ordered(f: seq<Blk>) {
    && |f| >= 1 && f[0].size == 0
    && (forall i :: 1 <= i < |f| ==> f[i].size > 0)
    && (forall i :: 0 < i < |f| ==> f[i - 1].End() < f[i].addr)
  }

  lemma {:induction false} OrderedFar(f: seq<Blk>, i: nat, j: nat)
    requires Ordered(f) && i < j < |f|
    ensures f[i].End() < f[j].addr
    decreases j
  {
    if i < j - 1 { OrderedFar(f, i, j - 1); }
  }

  /** The blocks share no unit. */
  predicate Disjoint(a: Blk, b: Blk) {
    a.End() <= b.addr || b.End() <= a.addr
  }

  /** A block above base that overlaps no free block. */
  predicate Apart(f: seq<Blk>, b: Blk) {
    b.size > 0 && (|f| >= 1 ==> f[0].addr < b.addr) && forall i :: 0 <= i < |f| ==> Disjoint(f[i], b)
  }

  function Sum(f: seq<Blk>): nat {
    if f == [] then 0 else Sum(f[..|f| - 1]) + f[|f| - 1].size
  }

  lemma {:induction false} SumConcat(f: seq<Blk>, g: seq<Blk>)
    ensures Sum(f + g) == Sum(f) + Sum(g)
    decreases |g|
  {
    if g == [] {
      assert f + g == f;
    } else {
      SumConcat(f, g[..|g| - 1]);
      assert (f + g)[..|f + g| - 1] == f + g[..|g| - 1];
    }
  }

  lemma SumEmpty()
    ensures Sum([]) == 0
  {
  }

  /** A block in the middle counts its own size. */
  lemma SumMiddle(f: seq<Blk>, b: Blk, g: seq<Blk>)
    ensures Sum(f + [b] + g) == Sum(f) + b.size + Sum(g)
  {
    assert [b][..0] == [];
    SumConcat(f + [b], g);
    SumConcat(f, [b]);
  }

  // ---------------------------------------------------------------- free()

  /** The block after which b belongs is number t. */
  predicate Before(f: seq<Blk>, b: Blk, t: nat) {
    t < |f| && f[t].addr < b.addr && (t + 1 < |f| ==> b.addr < f[t + 1].addr)
  }

  /** Does b touch the next free block, or the one before? */
  predicate JoinsNext(f: seq<Blk>, b: Blk, t: nat) {
    t + 1 < |f| && b.End() == f[t + 1].addr
  }

  predicate JoinsPrev(f: seq<Blk>, b: Blk, t: nat)
    requires t < |f|
  {
    f[t].End() == b.addr
  }

  /** b grown by the next free block where they touch. */
  function Grown(f: seq<Blk>, b: Blk, t: nat): Blk {
    if JoinsNext(f, b, t) then Blk(b.addr, b.size + f[t + 1].size) else b
  }

  function After(f: seq<Blk>, b: Blk, t: nat): seq<Blk>
    requires t < |f|
  {
    if JoinsNext(f, b, t) then f[t + 2..] else f[t + 1..]
  }

  /** The free list with b put back after block t and joined to its neighbours. */
  function Insert(f: seq<Blk>, b: Blk, t: nat): seq<Blk>
    requires t < |f|
  {
    var g := Grown(f, b, t);
    if JoinsPrev(f, b, t) then f[..t] + [Blk(f[t].addr, f[t].size + g.size)] + After(f, b, t)
    else f[..t + 1] + [g] + After(f, b, t)
  }

  /** Block i of the new list. */
  lemma InsertAt(f: seq<Blk>, b: Blk, t: nat, i: nat)
    requires t < |f| && i < |Insert(f, b, t)|
    ensures
      var g := Insert(f, b, t)[i];
      var lo, hi := JoinsPrev(f, b, t), JoinsNext(f, b, t);
      if i < t then g == f[i]
      else if i == t then g == if lo then Blk(f[t].addr, f[t].size + Grown(f, b, t).size) else f[t]
      else if i == t + 1 && !lo then g == Grown(f, b, t)
      else
        var k := i + (if lo then 0 else -1) + (if hi then 1 else 0);
        t < k < |f| && g == f[k] && (hi ==> t + 1 < k)
  {
  }

  lemma InsertOrdered(f: seq<Blk>, b: Blk, t: nat)
    requires Ordered(f) && Apart(f, b) && Before(f, b, t)
    ensures Ordered(Insert(f, b, t)) && Insert(f, b, t)[0] == f[0]
  {
    var g := Insert(f, b, t);
    assert Disjoint(f[t], b);
    if t + 1 < |f| { assert Disjoint(f[t + 1], b); }
    InsertAt(f, b, t, 0);
    forall i | 0 < i < |g| ensures g[i - 1].End() < g[i].addr && g[i].size > 0 {
      hide Insert, After;
      InsertAt(f, b, t, i - 1);
      InsertAt(f, b, t, i);
    }
  }

  lemma AfterSum(f: seq<Blk>, b: Blk, t: nat)
    requires t < |f|
    ensures Grown(f, b, t).size + Sum(After(f, b, t)) == b.size + Sum(f[t + 1..])
  {
    hide Sum;
    if JoinsNext(f, b, t) {
      assert f[t + 1..] == [] + [f[t + 1]] + f[t + 2..];
      SumMiddle([], f[t + 1], f[t + 2..]);
      SumEmpty();
    }
  }

  /** Freeing a block adds exactly its units. */
  lemma InsertSum(f: seq<Blk>, b: Blk, t: nat)
    requires t < |f|
    ensures Sum(Insert(f, b, t)) == Sum(f) + b.size
  {
    hide Sum, Grown, After;
    AfterSum(f, b, t);
    var g := Grown(f, b, t);
    var rest := After(f, b, t);
    assert f == f[..t] + [f[t]] + f[t + 1..];
    SumMiddle(f[..t], f[t], f[t + 1..]);
    if JoinsPrev(f, b, t) {
      SumMiddle(f[..t], Blk(f[t].addr, f[t].size + g.size), rest);
    } else {
      assert f[..t + 1] == f[..t] + [f[t]] + [];
      SumMiddle(f[..t], f[t], []);
      SumEmpty();
      SumMiddle(f[..t + 1], g, rest);
    }
  }

  /** Blocks that overlapped neither the list nor b do not overlap the new list. */
  lemma InsertApart(f: seq<Blk>, b: Blk, t: nat, c: Blk)
    requires Ordered(f) && Apart(f, b) && Before(f, b, t) && Apart(f, c) && Disjoint(b, c)
    ensures Apart(Insert(f, b, t), c)
  {
  }

  // ---------------------------------------------------------------- malloc()

  /** The free list after n units are cut off the end of block k, or the block is taken whole. */
  function Take(f: seq<Blk>, k: nat, n: nat): seq<Blk>
    requires k < |f| && f[k].size >= n
  {
    if f[k].size == n then f[..k] + f[k + 1..] else f[k := Blk(f[k].addr, f[k].size - n)]
  }

  function Taken(f: seq<Blk>, k: nat, n: nat): Blk
    requires k < |f| && f[k].size >= n
  {
    Blk(f[k].End() - n, n)
  }

  lemma TakeOrdered(f: seq<Blk>, k: nat, n: nat)
    requires Ordered(f) && 1 <= k < |f| && f[k].size >= n > 0
    ensures Ordered(Take(f, k, n)) && Take(f, k, n)[0] == f[0]
    ensures Apart(Take(f, k, n), Taken(f, k, n))
  {
    var g := Take(f, k, n);
    assert forall i :: 0 <= i < |g| ==> g[i] == if i < k then f[i] else if f[k].size == n then f[i + 1] else g[i];
    forall i | 0 <= i < |g| ensures Disjoint(g[i], Taken(f, k, n)) {
      var j := if f[k].size == n && i >= k then i + 1 else i;
      if j < k { OrderedFar(f, j, k); }
      if k < j { OrderedFar(f, k, j); }
    }
    forall i | 0 < i < |g| ensures g[i - 1].End() < g[i].addr && g[i].size > 0 {
      if f[k].size == n && i == k { OrderedFar(f, k - 1, k + 1); }
    }
    OrderedFar(f, 0, k);
  }

  /** Allocating removes exactly n units. */
  lemma TakeSum(f: seq<Blk>, k: nat, n: nat)
    requires k < |f| && f[k].size >= n
    ensures Sum(Take(f, k, n)) == Sum(f) - n
  {
    hide Sum;
    assert f == f[..k] + [f[k]] + f[k + 1..];
    SumMiddle(f[..k], f[k], f[k + 1..]);
    if f[k].size == n {
      SumConcat(f[..k], f[k + 1..]);
    } else {
      var b := Blk(f[k].addr, f[k].size - n);
      assert Take(f, k, n) == f[..k] + [b] + f[k + 1..];
      SumMiddle(f[..k], b, f[k + 1..]);
    }
  }

  lemma TakeApart(f: seq<Blk>, k: nat, n: nat, c: Blk)
    requires Ordered(f) && 1 <= k < |f| && f[k].size >= n > 0 && Apart(f, c)
    ensures Apart(Take(f, k, n), c) && Disjoint(Taken(f, k, n), c)
  {
  }

  /** malloc then free of the same block restores the free list. */
  lemma TakeInsert(f: seq<Blk>, k: nat, n: nat)
    requires Ordered(f) && 1 <= k < |f| && f[k].size >= n > 0
    ensures
      var t := if f[k].size == n then k - 1 else k;
      && Before(Take(f, k, n), Taken(f, k, n), t)
      && Insert(Take(f, k, n), Taken(f, k, n), t) == f
  {
    var g := Take(f, k, n);
    var b := Taken(f, k, n);
    if f[k].size == n {
      assert g[..k] == f[..k] && g[k..] == f[k + 1..];
      assert f == f[..k] + [f[k]] + f[k + 1..];
    } else {
      assert f == g[..k] + [f[k]] + g[k + 1..];
    }
  }
}
