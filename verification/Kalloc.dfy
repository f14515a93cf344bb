/**
  The page allocator of kalloc.c: free pages chained through their first words.
 */
module Kalloc {
  import opened PageTable

  const KERNBASE := 0x8000_0000

  datatype Ptr = Null | At(f: nat)

  /** P2V of the frame's address. */
  function Va(f: nat): Word { KERNBASE + f * PGSIZE }

  /** memset(v, 1, PGSIZE) */
  const JUNK: Word := 0x01010101

  function Link(free: seq<nat>, i: nat): Word {
    if i < |free| then Va(free[i]) else 0
  }

  /** The list at head runs through exactly the free frames, each once. */
  predicate Chain(mem: Mem, head: Word, free: seq<nat>, uses: Uses) {
    && head == Link(free, 0)
    && (forall i :: 0 <= i < |free| ==> free[i] < |mem| && |mem[free[i]]| > 0 && mem[free[i]][0] == Link(free, i + 1))
    && (forall i, j :: 0 <= i < j < |free| ==> free[i] != free[j])
    && |uses| == |mem| && (forall f :: 0 <= f < |uses| ==> (uses[f] == Free <==> f in free))
  }

  /** Frames of the kernel image are never handed out. */
  predicate Image(uses: Uses, first: nat) {
    forall f :: 0 <= f < |uses| && f < first ==> uses[f] == Held
  }

  lemma ChainPush(mem: Mem, head: Word, free: seq<nat>, uses: Uses, f: nat, p: Frame)
    requires Chain(mem, head, free, uses) && f < |mem| && uses[f] != Free
    requires |p| > 0 && p[0] == head
    ensures Chain(mem[f := p], Va(f), [f] + free, uses[f := Free])
  {
  }

  lemma ChainPop(mem: Mem, head: Word, free: seq<nat>, uses: Uses, u: Use)
    requires Chain(mem, head, free, uses) && free != [] && u != Free
    ensures free[0] < |mem| && |mem[free[0]]| > 0 && uses[free[0]] == Free
    ensures Chain(mem, mem[free[0]][0], free[1..], uses[free[0] := u])
  {
    var free', uses' := free[1..], uses[free[0] := u];
    assert uses[free[0]] == Free;
    forall i | 0 <= i < |free'|
      ensures free'[i] < |mem| && |mem[free'[i]]| > 0 && mem[free'[i]][0] == Link(free', i + 1)
    {
      assert free'[i] == free[i + 1];
      assert Link(free', i + 1) == Link(free, i + 2);
    }
    forall g | 0 <= g < |uses| ensures uses'[g] == Free <==> g in free' {
      if g in free { var k :| 0 <= k < |free| && free[k] == g; assert k > 0 ==> free'[k - 1] == g; }
    }
  }

  /** Changing frames and uses that are not free, to others that are not free, leaves the chain. */
  lemma ChainKeeps(mem: Mem, head: Word, free: seq<nat>, uses: Uses, mem': Mem, uses': Uses)
    requires Chain(mem, head, free, uses) && |mem'| == |mem| && |uses'| == |uses|
    requires forall f :: 0 <= f < |uses| ==> (uses[f] == Free <==> uses'[f] == Free)
    requires forall f :: 0 <= f < |uses| && uses[f] == Free ==> mem'[f] == mem[f]
    ensures Chain(mem', head, free, uses')
  {
  }

  lemma VaFrame(f: nat)
    ensures Va(f) != 0 && (Va(f) - KERNBASE) / PGSIZE == f
  {
  }

  class Memory {
    /** The first frame after the kernel image. */
    const first: nat
    var mem: Mem
    var freelist: Word
    ghost var free: seq<nat>
    ghost var uses: Uses

    /** What the allocator itself relies on. */
    ghost predicate Listed()
      reads this
    {
      && Sized(mem, uses) && Chain(mem, freelist, free, uses)
      && Image(uses, first) && 1 <= first < NFRAMES
    }

    ghost predicate Valid()
      reads this
    {
      Listed() && Spaces(mem, uses)
    }

    /** kinit1 and kinit2 over memory of any contents. */
    constructor (n: nat, m: Mem)
      requires 1 <= n < 1024 && |m| == NFRAMES && forall f :: 0 <= f < NFRAMES ==> |m[f]| == ENTRIES
      ensures Valid() && first == n
      ensures forall f :: 0 <= f < NFRAMES ==> uses[f] == if f < n then Held else Free
    {
      first := n;
      mem := m;
      freelist := 0;
      free := [];
      uses := seq(NFRAMES, i => Held);
      new;
      FreeRange(n, 1024);
      FreeRange(1024, NFRAMES);
    }

    /** freerange in pages. */
    method FreeRange(lo: nat, hi: nat)
      requires Valid() && first <= lo <= hi <= NFRAMES && forall f :: lo <= f < hi ==> uses[f] == Held
      modifies this
      ensures Valid()
      ensures forall f :: 0 <= f < NFRAMES ==> uses[f] == if lo <= f < hi then Free else old(uses[f])
    {
      hide Spaces, Chain;
      var p := lo;
      while p < hi
        invariant lo <= p <= hi && Valid()
        invariant forall f :: 0 <= f < NFRAMES ==> uses[f] == if lo <= f < p then Free else old(uses[f])
      {
        RefillKeeps(mem, uses, p, Junked(freelist), Free);
        var ok := Kfree(p);
        p := p + 1;
      }
    }

    /** kfree: the page is filled with junk and put first; an address outside the free memory panics. */
    method Kfree(f: nat) returns (ok: bool)
      requires Listed() && (f < NFRAMES ==> uses[f] != Free)
      modifies this
      ensures Listed()
      ensures ok <==> first <= f < NFRAMES
      ensures if ok then && uses == old(uses)[f := Free] && free == [f] + old(free)
                         && mem == old(mem)[f := Junked(old(freelist))]
              else unchanged(this)
    {
      if f < first || f >= NFRAMES { return false; }
      ChainPush(mem, freelist, free, uses, f, Junked(freelist));
      mem := mem[f := Junked(freelist)];
      freelist := Va(f);
      free, uses := [f] + free, uses[f := Free];
      ok := true;
    }

    /** kalloc: the first page of the list, or null when there is none. */
    method Kalloc() returns (r: Ptr)
      requires Valid()
      modifies `freelist, `free, `uses
      ensures Valid()
      ensures r.Null? <==> old(free) == []
      ensures r.Null? ==> unchanged(this)
      ensures r.At? ==> && first <= r.f < NFRAMES && old(uses)[r.f] == Free
                        && uses == old(uses)[r.f := Held] && old(free) == [r.f] + free
    {
      if freelist == 0 {
        EmptyChain(mem, freelist, free, uses);
        return Null;
      }
      EmptyChain(mem, freelist, free, uses);
      ChainPop(mem, freelist, free, uses, Held);
      ghost var f := free[0];
      RefillKeeps(mem, uses, f, mem[f], Held);
      assert mem[f := mem[f]] == mem;
      VaFrame(f);
      var p := (freelist - KERNBASE) / PGSIZE;
      freelist := mem[p][0];
      uses := uses[f := Held];
      free := free[1..];
      r := At(p);
    }
  }

  lemma EmptyChain(mem: Mem, head: Word, free: seq<nat>, uses: Uses)
    requires Chain(mem, head, free, uses)
    ensures head == 0 <==> free == []
    ensures free != [] ==> head == Va(free[0])
  {
  }

  /** A freed page: junk, with the link in its first word. */
  function Junked(next: Word): (p: Frame)
    ensures |p| == 1024 && p[0] == next && forall i :: 0 < i < 1024 ==> p[i] == 0x0101_0101
  {
    seq(ENTRIES, i => if i == 0 then next else JUNK)
  }
}
