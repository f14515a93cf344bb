/**
  The page-table operations of vm.c over the page allocator.  A virtual page number v stands for
  the address v * PGSIZE; the word of v in address space d is its entry in the flat view.
 */
module Vm {
  import opened Words
  import opened PageTable
  import opened Kalloc
  import opened Sets

  const NPAGES := 0x10_0000
  /** KERNBASE / PGSIZE */
  const USERPAGES := 0x8_0000

  function Pdx(v: nat): nat { v / 1024 }

  function Ptx(v: nat): nat { v % 1024 }

  lemma Indices(v: nat)
    requires v < NPAGES
    ensures Pdx(v) < ENTRIES && Ptx(v) < ENTRIES && v == Pdx(v) * 1024 + Ptx(v)
    ensures v < USERPAGES <==> Pdx(v) < USER
  {
  }

  lemma IndicesOf(i: nat, j: nat)
    requires j < 1024
    ensures Pdx(i * 1024 + j) == i && Ptx(i * 1024 + j) == j
  {
  }

  /** The flat view of v. */
  function Word(mem: Mem, d: nat, v: nat): PageTable.Word { Entry(mem, d, Pdx(v), Ptx(v)) }

  function PageOf(d: nat, v: nat): Use { Page(d, Pdx(v), Ptx(v)) }

  predicate SameEntries(mem: Mem, mem': Mem, d: nat) {
    forall i, j :: 0 <= i < ENTRIES && 0 <= j < ENTRIES ==> Entry(mem', d, i, j) == Entry(mem, d, i, j)
  }

  /** Pages v to v + n of d point at frames f onwards; all others are as before. */
  predicate RangeSet(mem: Mem, mem': Mem, d: nat, v: nat, n: nat, f: nat, flags: nat) {
    forall i, j :: 0 <= i < ENTRIES && 0 <= j < ENTRIES ==>
      Entry(mem', d, i, j) == if v <= i * 1024 + j < v + n then Pte(f + (i * 1024 + j - v), flags) else Entry(mem, d, i, j)
  }

  predicate NonePresent(mem: Mem, d: nat, lo: nat, hi: nat) {
    forall i, j :: 0 <= i < ENTRIES && 0 <= j < ENTRIES && lo <= i * 1024 + j < hi ==> !Present(Entry(mem, d, i, j))
  }

  lemma NonePresentStart(mem: Mem, d: nat, v: nat)
    ensures NonePresent(mem, d, v, v)
  {
  }

  lemma NonePresentMore(mem: Mem, d: nat, lo: nat, v: nat)
    requires NonePresent(mem, d, lo, v) && !Present(Word(mem, d, v))
    ensures NonePresent(mem, d, lo, v + 1)
  {
  }

  lemma NonePresentAt(mem: Mem, d: nat, lo: nat, hi: nat, v: nat)
    requires NonePresent(mem, d, lo, hi) && lo <= v < hi && v < NPAGES
    ensures !Present(Word(mem, d, v))
  {
  }

  /** The page table of va in d; with alloc a missing one is made, if there is a free page. */
  method Walkpgdir(m: Memory, d: nat, v: nat, alloc: bool) returns (t: Ptr)
    requires m.Valid() && Live(m.uses, d) && v < NPAGES
    modifies m
    ensures m.Valid() && Live(m.uses, d) && SameEntries(old(m.mem), m.mem, d)
    ensures OthersKept(old(m.mem), old(m.uses), m.mem, m.uses, d, 0, 0)
    ensures PagesKept(old(m.mem), old(m.uses), m.mem, m.uses)
    ensures t.At? ==> Pdx(v) < ENTRIES && Present(m.mem[d][Pdx(v)]) && PteFrame(m.mem[d][Pdx(v)]) == t.f
    ensures t.Null? <==> Pdx(v) < ENTRIES && !Present(old(m.mem)[d][Pdx(v)]) && (!alloc || old(m.free) == [])
    ensures t.Null? || !alloc ==> unchanged(m)
    ensures t.At? ==> Spent(old(m.mem), |old(m.free)|, m.mem, |m.free|, d, {Pdx(v)})
  {
    hide Spaces, Chain, Image, Entry, OthersKept, PagesKept, SameEntries, Pdx;
    Indices(v);
    var i := Pdx(v);
    var pde := m.mem[d][i];
    OthersKeptRefl(m.mem, m.uses, d, 0, 0);
    SameRefl(m.mem, m.uses, d);
    if Present(pde) {
      TableAt(m.mem, m.uses, d, i);
      return At(PteFrame(pde));
    }
    if !alloc { return Null; }
    t := m.Kalloc();
    if t.At? {
      InstallTable(m, d, i, t.f);
      SpentOne(old(m.mem), m.mem, d, i, Pte(t.f, 7));
      assert m.uses == old(m.uses)[t.f := Table(d, i)];
      TableKept(old(m.mem), old(m.uses), m.mem, d, i, t.f);
    }
  }

  lemma SpentOne(mem: Mem, mem': Mem, d: nat, i: nat, w: PageTable.Word)
    requires d < |mem| == |mem'| && i < |mem[d]| && !Present(mem[d][i]) && Present(w) && mem'[d] == mem[d][i := w]
    ensures Tables(mem', d) == Tables(mem, d) + {i} && |Tables(mem', d)| == |Tables(mem, d)| + 1
  {
    assert i !in Tables(mem, d);
  }

  lemma SameRefl(mem: Mem, uses: Uses, d: nat)
    requires |mem| == |uses|
    ensures SameEntries(mem, mem, d) && PagesKept(mem, uses, mem, uses)
  {
  }

  lemma TableKept(mem: Mem, uses: Uses, mem': Mem, d: nat, i: nat, t: nat)
    requires Sized(mem, uses) && Live(uses, d) && t < NFRAMES && uses[t] == Free && t != d
    requires |mem'| == |mem| && mem' == mem[t := mem'[t]][d := mem'[d]]
    ensures OthersKept(mem, uses, mem', uses[t := Table(d, i)], d, 0, 0)
    ensures PagesKept(mem, uses, mem', uses[t := Table(d, i)])
  {
  }

  /** Clear a fresh page and point entry i of the directory at it. */
  method InstallTable(m: Memory, d: nat, i: nat, t: nat)
    requires m.Valid() && Live(m.uses, d) && i < ENTRIES && !Present(m.mem[d][i])
    requires m.first <= t < NFRAMES && m.uses[t] == Held
    modifies m
    ensures m.Valid() && SameEntries(old(m.mem), m.mem, d) && m.uses == old(m.uses)[t := Table(d, i)]
    ensures m.mem == old(m.mem)[t := m.mem[t]][d := m.mem[d]] && m.free == old(m.free)
    ensures m.mem[d] == old(m.mem)[d][i := Pte(t, 7)]
    ensures Present(m.mem[d][i]) && PteFrame(m.mem[d][i]) == t
  {
    ghost var mem0, uses0 := m.mem, m.uses;
    var blank := seq(ENTRIES, k => 0);
    RefillKeeps(mem0, uses0, t, blank, Held);
    assert uses0[t := Held] == uses0;
    m.mem := m.mem[t := blank];
    AddTableKeeps(m.mem, uses0, d, i, t);
    ghost var mem1 := m.mem;
    m.mem := Put(m.mem, d, i, Pte(t, PTE_P + PTE_W + PTE_U));
    m.uses := m.uses[t := Table(d, i)];
    ChainKeeps(mem0, m.freelist, m.free, uses0, m.mem, m.uses);
  }

  datatype Outcome = Done | NoMemory | Remap

  /** A user mapping hands its frames over to the address space. */
  function Given(v: nat, f: nat, n: nat): nat {
    if v < USERPAGES then f + n else f
  }

  /** The loop body of mappages. */
  method MapOne(m: Memory, d: nat, v: nat, f: nat, perm: nat) returns (r: Outcome)
    requires m.Valid() && Live(m.uses, d) && v < NPAGES && perm < PGSIZE
    requires v < USERPAGES ==> m.first <= f < NFRAMES && m.uses[f] == Held
    modifies m
    ensures m.Valid() && Live(m.uses, d)
    ensures r.Remap? <==> Present(Word(old(m.mem), d, v))
    ensures r.NoMemory? <==> Pdx(v) !in Tables(old(m.mem), d) && old(m.free) == []
    ensures Spent(old(m.mem), |old(m.free)|, m.mem, |m.free|, d, if r.Done? then {Pdx(v)} else {})
    ensures if r.Done? then RangeSet(old(m.mem), m.mem, d, v, 1, f, WithP(perm)) else SameEntries(old(m.mem), m.mem, d)
    ensures v < USERPAGES ==> m.mem[f] == old(m.mem)[f] && m.uses[f] == if r.Done? then PageOf(d, v) else Held
    ensures OthersKept(old(m.mem), old(m.uses), m.mem, m.uses, d, f, Given(v, f, 1))
    ensures PagesKept(old(m.mem), old(m.uses), m.mem, m.uses)
  {
    hide Spaces, Chain, Image, OthersKept, PagesKept, SameEntries, RangeSet, Entry, Pdx, Ptx, Mine;
    Indices(v);
    var t := Walkpgdir(m, d, v, true);
    ghost var mem1, uses1 := m.mem, m.uses;
    WalkFacts(old(m.mem), old(m.uses), mem1, uses1, d, v, f);
    if t.Null? {
      NoTable(m.mem, d, v);
      return NoMemory;
    }
    TableAt(m.mem, m.uses, d, Pdx(v));
    if Present(m.mem[t.f][Ptx(v)]) {
      HasTable(old(m.mem), d, v);
      return Remap;
    }
    SetEntry(m, d, v, t.f, Pte(f, WithP(perm)), f, perm);
    OthersKeptTrans(old(m.mem), old(m.uses), mem1, uses1, m.mem, m.uses, d, f, Given(v, f, 1));
    PagesKeptTrans(old(m.mem), old(m.uses), mem1, uses1, m.mem, m.uses);
    RangeAfterSame(old(m.mem), mem1, m.mem, d, v, f, WithP(perm));
    return Done;
  }

  lemma WalkFacts(mem: Mem, uses: Uses, mem': Mem, uses': Uses, d: nat, v: nat, f: nat)
    requires SameEntries(mem, mem', d) && OthersKept(mem, uses, mem', uses', d, 0, 0) && v < NPAGES
    requires Sized(mem, uses)
    ensures Word(mem', d, v) == Word(mem, d, v)
    ensures f < NFRAMES && uses[f] == Held ==> uses'[f] == Held && mem'[f] == mem[f]
    ensures OthersKept(mem, uses, mem', uses', d, f, Given(v, f, 1))
  {
  }

  lemma NoTable(mem: Mem, d: nat, v: nat)
    requires d < |mem| && Pdx(v) < |mem[d]| && !Present(mem[d][Pdx(v)])
    ensures !Present(Word(mem, d, v))
  {
  }

  lemma HasTable(mem: Mem, d: nat, v: nat)
    requires Present(Word(mem, d, v))
    ensures Pdx(v) in Tables(mem, d) && Tables(mem, d) + {Pdx(v)} == Tables(mem, d) + {}
  {
  }

  lemma RangeAfterSame(mem: Mem, mem1: Mem, mem2: Mem, d: nat, v: nat, f: nat, flags: nat)
    requires SameEntries(mem, mem1, d) && RangeSet(mem1, mem2, d, v, 1, f, flags)
    ensures RangeSet(mem, mem2, d, v, 1, f, flags)
  {
  }

  /** An entry that was not present becomes a present one for the frame. */
  method SetEntry(m: Memory, d: nat, v: nat, t: nat, w: PageTable.Word, ghost f: nat, ghost perm: nat)
    requires m.Valid() && Live(m.uses, d) && v < NPAGES && perm < PGSIZE && w == Pte(f, WithP(perm))
    requires v < USERPAGES ==> m.first <= f < NFRAMES && m.uses[f] == Held
    requires Pdx(v) < ENTRIES && Present(m.mem[d][Pdx(v)]) && PteFrame(m.mem[d][Pdx(v)]) == t
    requires !Present(Word(m.mem, d, v))
    modifies m
    ensures m.Valid() && Live(m.uses, d)
    ensures RangeSet(old(m.mem), m.mem, d, v, 1, f, WithP(perm))
    ensures v < USERPAGES ==> m.mem[f] == old(m.mem)[f] && m.uses[f] == PageOf(d, v)
    ensures OthersKept(old(m.mem), old(m.uses), m.mem, m.uses, d, f, Given(v, f, 1))
    ensures PagesKept(old(m.mem), old(m.uses), m.mem, m.uses)
    ensures m.free == old(m.free) && Tables(m.mem, d) == Tables(old(m.mem), d)
  {
    hide Spaces, Chain, Entry, RangeSet;
    Indices(v);
    PteParts(f, perm);
    ghost var mem0, uses0 := m.mem, m.uses;
    ghost var uses' := if v < USERPAGES then uses0[f := PageOf(d, v)] else uses0;
    TableAt(mem0, uses0, d, Pdx(v));
    SetLeafKeeps(mem0, uses0, uses', d, Pdx(v), Ptx(v), w);
    SetRange(mem0, uses0, d, v, f, perm);
    m.mem := Put(m.mem, t, Ptx(v), w);
    m.uses := uses';
    ChainKeeps(mem0, m.freelist, m.free, uses0, m.mem, m.uses);
  }

  lemma SetRange(mem: Mem, uses: Uses, d: nat, v: nat, f: nat, perm: nat)
    requires Spaces(mem, uses) && Sized(mem, uses) && Live(uses, d) && v < NPAGES
    requires Pdx(v) < ENTRIES && Present(mem[d][Pdx(v)]) && 0 <= PteFrame(mem[d][Pdx(v)]) < NFRAMES && Ptx(v) < ENTRIES
    ensures RangeSet(mem, Put(mem, PteFrame(mem[d][Pdx(v)]), Ptx(v), Pte(f, WithP(perm))), d, v, 1, f, WithP(perm))
  {
    hide Spaces, Entry, Pte;
    var w := Pte(f, WithP(perm));
    SetLeafEntries(mem, uses, d, Pdx(v), Ptx(v), w);
    var mem' := Put(mem, PteFrame(mem[d][Pdx(v)]), Ptx(v), w);
    forall i, j | 0 <= i < ENTRIES && 0 <= j < ENTRIES
      ensures Entry(mem', d, i, j) == if i * 1024 + j == v then w else Entry(mem, d, i, j)
    {
      IndicesOf(i, j);
    }
  }

  /** Frames f to f + n are held, but for the first k, which are pages v onwards of d. */
  predicate HandedOver(uses: Uses, d: nat, v: nat, f: nat, n: nat, k: nat) {
    v < USERPAGES ==>
      && f + n <= |uses| && v + n <= USERPAGES
      && forall g :: f <= g < f + n ==> uses[g] == if g < f + k then PageOf(d, v + g - f) else Held
  }

  /** mappages has mapped k pages of its range and changed no other. */
  ghost predicate Mapping(mem: Mem, uses: Uses, mem': Mem, uses': Uses, d: nat, v: nat, n: nat, f: nat, perm: nat, k: nat) {
    && RangeSet(mem, mem', d, v, k, f, WithP(perm))
    && HandedOver(uses', d, v, f, n, k)
    && (v < USERPAGES ==> f + n <= |mem| == |mem'| && forall g :: f <= g < f + n ==> mem'[g] == mem[g])
    && OthersKept(mem, uses, mem', uses', d, f, Given(v, f, n))
    && PagesKept(mem, uses, mem', uses')
  }

  lemma MappingStart(mem: Mem, uses: Uses, d: nat, v: nat, n: nat, f: nat, perm: nat)
    requires |mem| == |uses| && HandedOver(uses, d, v, f, n, 0)
    ensures Mapping(mem, uses, mem, uses, d, v, n, f, perm, 0)
  {
  }

  /** One more page, or none on failure. */
  lemma MappingMore(mem: Mem, uses: Uses, m1: Mem, u1: Uses, m2: Mem, u2: Uses,
                    d: nat, v: nat, n: nat, f: nat, perm: nat, k: nat, done: bool)
    requires Mapping(mem, uses, m1, u1, d, v, n, f, perm, k) && k < n && v + n <= NPAGES && |u1| == |u2| == |m1| == |m2|
    requires if done then RangeSet(m1, m2, d, v + k, 1, f + k, WithP(perm)) else SameEntries(m1, m2, d)
    requires v < USERPAGES ==> m2[f + k] == m1[f + k] && u2[f + k] == if done then PageOf(d, v + k) else Held
    requires OthersKept(m1, u1, m2, u2, d, f + k, Given(v, f + k, 1)) && PagesKept(m1, u1, m2, u2)
    ensures Mapping(mem, uses, m2, u2, d, v, n, f, perm, if done then k + 1 else k)
  {
  }

  /** The pages that the bytes va to va + size touch. */
  function FirstPage(va: nat): nat { va / PGSIZE }

  function Pages(va: nat, size: nat): nat
    requires 0 < size
  {
    (va + size - 1) / PGSIZE - va / PGSIZE + 1
  }

  lemma PagesBound(va: nat, size: nat)
    requires 0 < size && va + size <= UINT
    ensures 0 < Pages(va, size) && FirstPage(va) + Pages(va, size) <= NPAGES
    ensures FirstPage(va) + Pages(va, size) - 1 == (va + size - 1) / PGSIZE
  {
  }

  /** The directory entries of n pages from v on. */
  function Dirs(v: nat, n: nat): set<nat> {
    set q | v <= q < v + n :: Pdx(q)
  }

  lemma DirsMore(v: nat, n: nat)
    ensures Dirs(v, n + 1) == Dirs(v, n) + {Pdx(v + n)}
  {
  }

  /** Page tables that n pages from v on lack. */
  function Missing(mem: Mem, d: nat, v: nat, n: nat): nat {
    |Dirs(v, n) - Tables(mem, d)|
  }

  lemma {:induction false} DirsGrow(v: nat, k: nat, n: nat)
    requires k <= n
    ensures Dirs(v, k) <= Dirs(v, n)
  {
  }

  /** Memory for the tables is short exactly when the mapping stops at a missing one. */
  lemma Shortage(mem: Mem, free: nat, mem': Mem, free': nat, d: nat, v: nat, k: nat, n: nat)
    requires Spent(mem, free, mem', free', d, Dirs(v, k)) && k <= n
    requires k < n ==> free' == 0 && Pdx(v + k) !in Tables(mem', d)
    ensures k == n <==> free >= Missing(mem, d, v, n)
  {
    SpentPrice(mem, free, mem', free', d, Dirs(v, k));
    if k < n {
      DirsMore(v, k);
      DirsGrow(v, k + 1, n);
      var less, all := Dirs(v, k) - Tables(mem, d), Dirs(v, n) - Tables(mem, d);
      assert less + {Pdx(v + k)} <= all;
      SubsetCount(less + {Pdx(v + k)}, all);
    }
  }

  /**
    mappages: entries for exactly the pages of its range, frames in order; it stops at the first
    page that needs a table when memory is out, and panics at the first that is mapped already.
   */
  method Mappages(m: Memory, d: nat, va: nat, size: nat, pa: nat, perm: nat) returns (r: Outcome, ghost k: nat)
    requires m.Valid() && Live(m.uses, d) && perm < PGSIZE
    requires 0 < size && va + size <= UINT
    requires FirstPage(va) < USERPAGES ==> m.first <= pa / PGSIZE
    requires HandedOver(m.uses, d, FirstPage(va), pa / PGSIZE, Pages(va, size), 0)
    modifies m
    ensures m.Valid() && Live(m.uses, d)
    ensures Mapping(old(m.mem), old(m.uses), m.mem, m.uses, d, FirstPage(va), Pages(va, size), pa / PGSIZE, perm, k)
    ensures k <= Pages(va, size) && (r.Done? <==> k == Pages(va, size))
    ensures r.Remap? <==> k < Pages(va, size) && Present(Word(old(m.mem), d, FirstPage(va) + k))
    ensures NonePresent(old(m.mem), d, FirstPage(va), FirstPage(va) + k)
    ensures Spent(old(m.mem), |old(m.free)|, m.mem, |m.free|, d, Dirs(FirstPage(va), k))
    ensures !r.Remap? ==> (r.Done? <==> |old(m.free)| >= Missing(old(m.mem), d, FirstPage(va), Pages(va, size)))
  {
    hide Spent, Dirs, Missing, Tables, NonePresent, Spaces, Chain, Image, RangeSet, Word, Mapping, HandedOver, OthersKept, PagesKept, SameEntries, Pages, FirstPage;
    ghost var v, n, f0 := FirstPage(va), Pages(va, size), pa / PGSIZE;
    PagesBound(va, size);
    MappingStart(m.mem, m.uses, d, v, n, f0, perm);
    NonePresentStart(m.mem, d, v);
    SpentNone(m.mem, |m.free|, d, v);
    var a, last, f := FirstPage(va), (va + size - 1) / PGSIZE, pa / PGSIZE;
    k := 0;
    while true
      invariant 0 <= k < n && a == v + k && f == f0 + k
      invariant m.Valid() && Live(m.uses, d)
      invariant Mapping(old(m.mem), old(m.uses), m.mem, m.uses, d, v, n, f0, perm, k)
      invariant NonePresent(old(m.mem), d, v, v + k)
      invariant Spent(old(m.mem), |old(m.free)|, m.mem, |m.free|, d, Dirs(v, k))
      decreases n - k
    {
      ghost var m1, u1 := m.mem, m.uses;
      MappingMeans(old(m.mem), old(m.uses), m1, u1, d, v, n, f0, perm, k);
      ghost var free1 := |m.free|;
      r := MapOne(m, d, a, f, perm);
      SpentMore(old(m.mem), |old(m.free)|, m1, free1, m.mem, |m.free|, d, v, k, r.Done?);
      MappingMore(old(m.mem), old(m.uses), m1, u1, m.mem, m.uses, d, v, n, f0, perm, k, r.Done?);
      if r.NoMemory? { Shortage(old(m.mem), |old(m.free)|, m.mem, |m.free|, d, v, k, n); }
      if !r.Done? { return; }
      NonePresentMore(old(m.mem), d, v, v + k);
      k := k + 1;
      if a == last {
        Shortage(old(m.mem), |old(m.free)|, m.mem, |m.free|, d, v, k, n);
        break;
      }
      a := a + 1;
      f := f + 1;
    }
  }

  lemma SpentNone(mem: Mem, free: nat, d: nat, v: nat)
    ensures Spent(mem, free, mem, free, d, Dirs(v, 0))
  {
    assert Dirs(v, 0) == {};
  }

  /** One more page with its table, or nothing. */
  lemma SpentMore(m0: Mem, f0: nat, m1: Mem, f1: nat, m2: Mem, f2: nat, d: nat, v: nat, k: nat, more: bool)
    requires Spent(m0, f0, m1, f1, d, Dirs(v, k)) && Spent(m1, f1, m2, f2, d, if more then {Pdx(v + k)} else {})
    ensures Spent(m0, f0, m2, f2, d, Dirs(v, if more then k + 1 else k))
    ensures Pdx(v + k) in Tables(m2, d) <==> Pdx(v + k) in Tables(m1, d) || more
    ensures !more ==> f1 == f2
  {
    DirsMore(v, k);
    SpentTrans(m0, f0, m1, f1, m2, f2, d, Dirs(v, k), if more then {Pdx(v + k)} else {});
    assert Dirs(v, k) + {} == Dirs(v, k);
  }

  lemma MappingMeans(mem: Mem, uses: Uses, mem': Mem, uses': Uses, d: nat, v: nat, n: nat, f: nat, perm: nat, k: nat)
    requires Mapping(mem, uses, mem', uses', d, v, n, f, perm, k) && k < n && v + n <= NPAGES
    ensures v < USERPAGES ==> v + k < USERPAGES && f + k < |uses'| && uses'[f + k] == Held
    ensures v + k < USERPAGES <==> v < USERPAGES
    ensures Word(mem', d, v + k) == Word(mem, d, v + k)
  {
  }

  // ---------------------------------------------------------------- deallocuvm, freevm

  predicate InRange(u: Use, d: nat, lo: nat, hi: nat) {
    u.Page? && u.d == d && lo <= u.i * 1024 + u.j < hi
  }

  /** Exactly the present user pages lo to hi of d are unmapped and free; nothing else changed. */
  ghost predicate Unmapped(mem: Mem, uses: Uses, mem': Mem, uses': Uses, d: nat, lo: nat, hi: nat) {
    && |mem| == |mem'| == |uses| == |uses'|
    && (forall f :: 0 <= f < |uses| ==> uses'[f] == if InRange(uses[f], d, lo, hi) then Free else uses[f])
    && (forall f :: 0 <= f < |uses| && uses[f] != Free && !InRange(uses[f], d, lo, hi) && !(uses[f].Table? && uses[f].d == d)
          ==> mem'[f] == mem[f])
    && (forall i, j :: 0 <= i < ENTRIES && 0 <= j < ENTRIES ==>
          Entry(mem', d, i, j) == if lo <= i * 1024 + j < hi && Present(Entry(mem, d, i, j)) then 0 else Entry(mem, d, i, j))
  }

  lemma UnmappedStart(mem: Mem, uses: Uses, d: nat, lo: nat)
    requires |mem| == |uses|
    ensures Unmapped(mem, uses, mem, uses, d, lo, lo)
  {
  }

  /** Passing pages that are not mapped. */
  lemma UnmappedSkip(mem: Mem, uses: Uses, mem': Mem, uses': Uses, d: nat, lo: nat, a: nat, b: nat)
    requires Spaces(mem, uses) && Unmapped(mem, uses, mem', uses', d, lo, a) && lo <= a <= b <= USERPAGES
    requires forall i, j :: 0 <= i < ENTRIES && 0 <= j < ENTRIES && a <= i * 1024 + j < b ==> !Present(Entry(mem', d, i, j))
    ensures Unmapped(mem, uses, mem', uses', d, lo, b)
  {
  }

  /** A missing table has no entry present. */
  lemma SkipTable(mem: Mem, d: nat, a: nat)
    requires d < |mem| && a < USERPAGES && Pdx(a) < |mem[d]| && !Present(mem[d][Pdx(a)])
    ensures a < (Pdx(a) + 1) * 1024 <= USERPAGES
    ensures forall i, j :: 0 <= i < ENTRIES && 0 <= j < ENTRIES && a <= i * 1024 + j < (Pdx(a) + 1) * 1024 ==>
              !Present(Entry(mem, d, i, j))
  {
  }

  /** Freeing the page of v and clearing its entry. */
  lemma UnmapStep(mem: Mem, uses: Uses, d: nat, v: nat, t: nat, p: Frame)
    requires Spaces(mem, uses) && Live(uses, d) && v < USERPAGES && |p| == ENTRIES
    requires Pdx(v) < ENTRIES && Present(mem[d][Pdx(v)]) && PteFrame(mem[d][Pdx(v)]) == t && Present(Word(mem, d, v))
    ensures t < NFRAMES && uses[t] == Table(d, Pdx(v)) && Ptx(v) < ENTRIES && mem[t][Ptx(v)] == Word(mem, d, v)
    ensures 0 <= PteFrame(Word(mem, d, v)) < NFRAMES && PteFrame(Word(mem, d, v)) != t
    ensures uses[PteFrame(Word(mem, d, v))] == PageOf(d, v)
    ensures
      var f := PteFrame(Word(mem, d, v));
      && Spaces(Put(mem[f := p], t, Ptx(v), 0), uses[f := Free])
      && Unmapped(mem, uses, Put(mem[f := p], t, Ptx(v), 0), uses[f := Free], d, v, v + 1)
  {
    Indices(v);
    TableAt(mem, uses, d, Pdx(v));
    assert LeafOk(mem, uses, t, Ptx(v));
    var f := PteFrame(Word(mem, d, v));
    SetLeafKeeps(mem, uses, uses[f := Held], d, Pdx(v), Ptx(v), 0);
    var m1 := Put(mem, t, Ptx(v), 0);
    RefillKeeps(m1, uses[f := Held], f, p, Free);
    assert uses[f := Held][f := Free] == uses[f := Free];
    var m2 := Put(mem[f := p], t, Ptx(v), 0);
    assert m1[f := p] == m2;
    SetLeafEntries(mem, uses, d, Pdx(v), Ptx(v), 0);
    forall g | 0 <= g < |uses| && InRange(uses[g], d, v, v + 1) ensures g == f {
      assert PageHeld(mem, uses, g);
      IndicesOf(uses[g].i, uses[g].j);
    }
    forall i, j | 0 <= i < ENTRIES && 0 <= j < ENTRIES
      ensures Entry(m2, d, i, j) == if v <= i * 1024 + j < v + 1 && Present(Entry(mem, d, i, j)) then 0 else Entry(mem, d, i, j)
    {
      IndicesOf(i, j);
    }
  }

  lemma UnmappedTrans(m0: Mem, u0: Uses, m1: Mem, u1: Uses, m2: Mem, u2: Uses, d: nat, lo: nat, a: nat, b: nat)
    requires Unmapped(m0, u0, m1, u1, d, lo, a) && Unmapped(m1, u1, m2, u2, d, a, b) && lo <= a <= b
    ensures Unmapped(m0, u0, m2, u2, d, lo, b)
  {
  }

  /** PGROUNDUP(sz) / PGSIZE */
  function Up(sz: nat): nat { (sz + PGSIZE - 1) / PGSIZE }

  lemma UpBound(sz: nat, a: nat)
    ensures a * PGSIZE < sz <==> a < Up(sz)
    ensures sz <= KERNBASE ==> Up(sz) <= USERPAGES
  {
  }

  function Min(a: nat, b: nat): nat { if a < b then a else b }

  /** deallocuvm: exactly the present pages from newsz up to oldsz go, though whole missing tables are skipped. */
  method Deallocuvm(m: Memory, d: nat, oldsz: nat, newsz: nat) returns (sz: nat)
    requires m.Valid() && Live(m.uses, d) && oldsz <= KERNBASE
    modifies m
    ensures m.Valid() && Live(m.uses, d)
    ensures newsz >= oldsz ==> sz == oldsz && unchanged(m)
    ensures newsz < oldsz ==> sz == newsz && Unmapped(old(m.mem), old(m.uses), m.mem, m.uses, d, Up(newsz), Up(oldsz))
  {
    hide Spaces, Chain, Image, Unmapped, Up, Pdx, Ptx, Entry;
    if newsz >= oldsz { return oldsz; }
    ghost var lo, hi := Up(newsz), Up(oldsz);
    var a := Up(newsz);
    UpMonotone(newsz, oldsz);
    UpBound(oldsz, a);
    UnmappedStart(m.mem, m.uses, d, lo);
    while a * PGSIZE < oldsz
      invariant lo <= a <= USERPAGES && lo <= hi <= USERPAGES && m.Valid() && Live(m.uses, d)
      invariant Unmapped(old(m.mem), old(m.uses), m.mem, m.uses, d, lo, Min(a, hi))
    {
      UpBound(oldsz, a);
      Indices(a);
      a := DeallocOne(m, d, a, old(m.mem), old(m.uses), lo, hi);
    }
    UpBound(oldsz, a);
    return newsz;
  }

  lemma UpMonotone(a: nat, b: nat)
    requires a <= b
    ensures Up(a) <= Up(b)
  {
  }

  /** The loop body of deallocuvm; the panic for physical address 0 and those of kfree cannot happen. */
  method DeallocOne(m: Memory, d: nat, a: nat, ghost mem0: Mem, ghost uses0: Uses, ghost lo: nat, ghost hi: nat)
    returns (b: nat)
    requires m.Valid() && Live(m.uses, d) && lo <= a < hi <= USERPAGES && Pdx(a) < ENTRIES
    requires Spaces(mem0, uses0) && Unmapped(mem0, uses0, m.mem, m.uses, d, lo, a)
    modifies m
    ensures m.Valid() && Live(m.uses, d) && a < b <= USERPAGES
    ensures Unmapped(mem0, uses0, m.mem, m.uses, d, lo, Min(b, hi))
  {
    hide Spaces, Chain, Unmapped, Pdx, Ptx, Entry;
    var t := Walkpgdir(m, d, a, false);
    if t.Null? {
      SkipTable(m.mem, d, a);
      b := (Pdx(a) + 1) * 1024;
      UnmappedSkip(mem0, uses0, m.mem, m.uses, d, lo, a, Min(b, hi));
      return;
    }
    b := a + 1;
    TableAt(m.mem, m.uses, d, Pdx(a));
    Indices(a);
    var pte := m.mem[t.f][Ptx(a)];
    if Present(pte) {
      var f := PteFrame(pte);
      ghost var m1, u1 := m.mem, m.uses;
      UnmapStep(m1, u1, d, a, t.f, Junked(m.freelist));
      ImageAt(m.uses, m.first, f);
      var ok := m.Kfree(f);
      assert ok;
      ghost var m2 := m.mem;
      m.mem := Put(m.mem, t.f, Ptx(a), 0);
      ChainKeeps(m2, m.freelist, m.free, m.uses, m.mem, m.uses);
      UnmappedTrans(mem0, uses0, m1, u1, m.mem, m.uses, d, lo, a, b);
    } else {
      OnePage(m.mem, d, a);
      UnmappedSkip(mem0, uses0, m.mem, m.uses, d, lo, a, b);
    }
  }

  lemma ImageAt(uses: Uses, first: nat, f: nat)
    requires Image(uses, first) && f < |uses| && uses[f] != Held
    ensures first <= f
  {
  }

  lemma OnePage(mem: Mem, d: nat, a: nat)
    requires !Present(Word(mem, d, a))
    ensures forall i, j :: 0 <= i < ENTRIES && 0 <= j < ENTRIES && a <= i * 1024 + j < a + 1 ==> !Present(Entry(mem, d, i, j))
  {
  }

  /** Tables of d below entry i are free, and nothing else changed. */
  ghost predicate Torn(mem: Mem, uses: Uses, mem': Mem, uses': Uses, d: nat, i: nat) {
    && |mem| == |mem'| == |uses| == |uses'| && d < |uses| && uses'[d] == Dir(i) && mem'[d] == mem[d]
    && (forall f :: 0 <= f < |uses| && f != d ==>
          uses'[f] == if uses[f].Table? && uses[f].d == d && uses[f].i < i then Free else uses[f])
    && (forall f :: 0 <= f < |uses| && uses[f] != Free && !Mine(uses[f], d, f) ==> mem'[f] == mem[f])
  }

  /** Every frame of d is free, and no other frame changed its use or, unless free, its contents. */
  ghost predicate Gone(mem: Mem, uses: Uses, mem': Mem, uses': Uses, d: nat) {
    && |mem| == |mem'| == |uses| == |uses'|
    && (forall f :: 0 <= f < |uses| ==> uses'[f] == if Mine(uses[f], d, f) then Free else uses[f])
    && (forall f :: 0 <= f < |uses| && uses[f] != Free && !Mine(uses[f], d, f) ==> mem'[f] == mem[f])
  }

  /** freevm: every page, table and directory of d is back on the free list, once, and nothing else is. */
  method Freevm(m: Memory, d: nat)
    requires m.Valid() && Live(m.uses, d)
    modifies m
    ensures m.Valid() && Gone(old(m.mem), old(m.uses), m.mem, m.uses, d)
  {
    hide Spaces, Chain, Unmapped, Torn, NoPages, Mine;
    var sz := Deallocuvm(m, d, KERNBASE, 0);
    ghost var mem1, uses1 := m.mem, m.uses;
    UpBound(KERNBASE, 0);
    AllUnmapped(old(m.mem), old(m.uses), mem1, uses1, d, Up(0), Up(KERNBASE));
    TornStart(mem1, uses1, d);
    var i := 0;
    while i < ENTRIES
      invariant 0 <= i <= ENTRIES && m.Valid() && Torn(mem1, uses1, m.mem, m.uses, d, i)
    {
      TearOne(m, d, i, mem1, uses1);
      i := i + 1;
    }
    FreeDir(m, d, mem1, uses1);
    GoneAll(old(m.mem), old(m.uses), mem1, uses1, m.mem, m.uses, d);
  }

  lemma AllUnmapped(mem: Mem, uses: Uses, mem': Mem, uses': Uses, d: nat, lo: nat, hi: nat)
    requires Spaces(mem, uses) && Unmapped(mem, uses, mem', uses', d, lo, hi) && lo == Up(0) && hi == Up(KERNBASE)
    ensures NoPages(uses', d)
  {
  }

  lemma TornStart(mem: Mem, uses: Uses, d: nat)
    requires |mem| == |uses| && Live(uses, d) && Spaces(mem, uses)
    ensures Torn(mem, uses, mem, uses, d, 0)
  {
  }

  /** One round of the second loop of freevm. */
  method TearOne(m: Memory, d: nat, i: nat, ghost mem1: Mem, ghost uses1: Uses)
    requires m.Valid() && i < ENTRIES && Torn(mem1, uses1, m.mem, m.uses, d, i)
    requires NoPages(uses1, d) && Spaces(mem1, uses1)
    modifies m
    ensures m.Valid() && Torn(mem1, uses1, m.mem, m.uses, d, i + 1)
  {
    hide Spaces, Chain;
    ghost var mem0, uses0 := m.mem, m.uses;
    assert NoPages(uses0, d);
    DropTableKeeps(mem0, uses0, d, i);
    TornTables(mem1, uses1, mem0, uses0, d, i);
    if Present(m.mem[d][i]) {
      var t := PteFrame(m.mem[d][i]);
      ImageAt(m.uses, m.first, t);
      RefillKeeps(mem0, uses0[t := Held][d := Dir(i + 1)], t, Junked(m.freelist), Free);
      assert uses0[t := Held][d := Dir(i + 1)][t := Free] == uses0[t := Free][d := Dir(i + 1)];
      var ok := m.Kfree(t);
      assert ok;
    }
    ghost var uses2 := m.uses;
    m.uses := m.uses[d := Dir(i + 1)];
    ChainKeeps(m.mem, m.freelist, m.free, uses2, m.mem, m.uses);
  }

  /** The only table of d at entry i is the one entry i points at. */
  lemma TornTables(mem1: Mem, uses1: Uses, mem: Mem, uses: Uses, d: nat, i: nat)
    requires Spaces(mem1, uses1) && Torn(mem1, uses1, mem, uses, d, i) && i < ENTRIES && d < |mem| && i < |mem[d]|
    ensures forall f :: 0 <= f < |uses1| && uses1[f].Table? && uses1[f].d == d && uses1[f].i == i ==>
              Present(mem[d][i]) && PteFrame(mem[d][i]) == f
  {
  }

  /** The last kfree of freevm. */
  method FreeDir(m: Memory, d: nat, ghost mem1: Mem, ghost uses1: Uses)
    requires m.Valid() && Torn(mem1, uses1, m.mem, m.uses, d, ENTRIES)
    modifies m
    ensures m.Valid() && |mem1| == |uses1| == |m.mem| == |m.uses| && d < |uses1|
    ensures forall f :: 0 <= f < |uses1| && f != d ==>
              m.uses[f] == if uses1[f].Table? && uses1[f].d == d && uses1[f].i < ENTRIES then Free else uses1[f]
    ensures forall f :: 0 <= f < |uses1| && uses1[f] != Free && !Mine(uses1[f], d, f) && f != d ==> m.mem[f] == mem1[f]
    ensures m.uses[d] == Free
  {
    hide Spaces, Chain;
    DropDirKeeps(m.mem, m.uses, d);
    ImageAt(m.uses, m.first, d);
    RefillKeeps(m.mem, m.uses[d := Held], d, Junked(m.freelist), Free);
    assert m.uses[d := Held][d := Free] == m.uses[d := Free];
    var ok := m.Kfree(d);
    assert ok;
  }

  lemma GoneAll(mem: Mem, uses: Uses, mem1: Mem, uses1: Uses, mem2: Mem, uses2: Uses, d: nat)
    requires Spaces(mem, uses) && Live(uses, d) && Spaces(mem1, uses1)
    requires Unmapped(mem, uses, mem1, uses1, d, Up(0), Up(KERNBASE))
    requires |mem1| == |uses1| == |mem2| == |uses2| && d < |uses1|
    requires forall f :: 0 <= f < |uses1| && f != d ==>
               uses2[f] == if uses1[f].Table? && uses1[f].d == d && uses1[f].i < ENTRIES then Free else uses1[f]
    requires forall f :: 0 <= f < |uses1| && uses1[f] != Free && !Mine(uses1[f], d, f) && f != d ==> mem2[f] == mem1[f]
    requires uses2[d] == Free
    ensures Gone(mem, uses, mem2, uses2, d)
  {
  }

  // ---------------------------------------------------------------- allocuvm

  predicate NewPage(mem: Mem, uses: Uses, uses0: Uses, d: nat, i: nat, j: nat) {
    var w := Entry(mem, d, i, j);
    var f := PteFrame(w);
    && Present(w) && PteFlags(w) == PTE_P + PTE_W + PTE_U
    && 0 <= f < |mem| == |uses| == |uses0|
    && uses0[f] == Free && uses[f] == Page(d, i, j) && Blank(mem[f])
  }

  /** Pages lo to hi of d are new, writable and blank; all other pages are as they were. */
  ghost predicate Grew(mem: Mem, uses: Uses, mem': Mem, uses': Uses, d: nat, lo: nat, hi: nat) {
    && OthersKept(mem, uses, mem', uses', d, 0, 0) && PagesKept(mem, uses, mem', uses')
    && (forall i, j :: 0 <= i < ENTRIES && 0 <= j < ENTRIES ==>
          if lo <= i * 1024 + j < hi then NewPage(mem', uses', uses, d, i, j) else Entry(mem', d, i, j) == Entry(mem, d, i, j))
  }

  /** The mapping of d is as before; frames may have become tables of d and nothing else. */
  ghost predicate Restored(mem: Mem, uses: Uses, mem': Mem, uses': Uses, d: nat) {
    && OthersKept(mem, uses, mem', uses', d, 0, 0) && PagesKept(mem, uses, mem', uses')
    && (forall i, j :: 0 <= i < ENTRIES && 0 <= j < ENTRIES ==>
          Entry(mem', d, i, j) == Entry(mem, d, i, j) || (!Present(Entry(mem', d, i, j)) && !Present(Entry(mem, d, i, j))))
    && (forall f :: 0 <= f < |uses| && uses'[f] != uses[f] ==> uses[f] == Free && uses'[f].Table? && uses'[f].d == d)
  }

  lemma GrewStart(mem: Mem, uses: Uses, d: nat, lo: nat)
    requires |mem| == |uses|
    ensures Grew(mem, uses, mem, uses, d, lo, lo)
  {
  }

  /** A fresh frame f with the given contents mapped at v, or not mapped for want of a table. */
  ghost predicate Added(mem: Mem, uses: Uses, mem': Mem, uses': Uses, d: nat, v: nat, f: nat, flags: nat, page: Frame, done: bool) {
    && |mem| == |mem'| == |uses| == |uses'| && f < |uses| && uses[f] == Free
    && OthersKept(mem, uses, mem', uses', d, f, f + 1) && PagesKept(mem, uses, mem', uses')
    && mem'[f] == page && uses'[f] == (if done then PageOf(d, v) else Held)
    && if done then RangeSet(mem, mem', d, v, 1, f, flags) else SameEntries(mem, mem', d)
  }

  lemma GrewMore(m0: Mem, u0: Uses, m1: Mem, u1: Uses, m2: Mem, u2: Uses, d: nat, lo: nat, v: nat, f: nat, page: Frame)
    requires Grew(m0, u0, m1, u1, d, lo, v) && Added(m1, u1, m2, u2, d, v, f, 7, page, true) && Blank(page) && lo <= v
    ensures Grew(m0, u0, m2, u2, d, lo, v + 1)
  {
    assert u0[f] == Free;
    PagesKeptTrans(m0, u0, m1, u1, m2, u2);
    PteParts(f, 7);
    forall i, j | 0 <= i < ENTRIES && 0 <= j < ENTRIES
      ensures if lo <= i * 1024 + j < v + 1 then NewPage(m2, u2, u0, d, i, j) else Entry(m2, d, i, j) == Entry(m0, d, i, j)
    {
      IndicesOf(i, j);
      if lo <= i * 1024 + j < v {
        assert NewPage(m1, u1, u0, d, i, j);
        assert Entry(m2, d, i, j) == Entry(m1, d, i, j);
      }
    }
  }

  /** Unmapping what was grown restores the mapping. */
  lemma RestoredAll(m0: Mem, u0: Uses, m1: Mem, u1: Uses, m2: Mem, u2: Uses, d: nat, lo: nat, v: nat, hi: nat)
    requires Spaces(m0, u0) && Live(u0, d) && Spaces(m2, u2) && NonePresent(m0, d, lo, hi) && lo <= v <= hi
    requires Grew(m0, u0, m1, u1, d, lo, v) && Unmapped(m1, u1, m2, u2, d, lo, hi)
    ensures Restored(m0, u0, m2, u2, d)
  {
    forall f | 0 <= f < |u0| && InRange(u1[f], d, lo, hi) ensures u0[f] == Free {
      NotPresentNotPage(m0, u0, d, lo, hi, f);
    }
    forall f | 0 <= f < |u0| && u2[f] != u0[f] ensures u0[f] == Free && u2[f].Table? && u2[f].d == d {
      if u2[f].Page? {
        assert PageHeld(m2, u2, f);
        var i, j := u2[f].i, u2[f].j;
        assert Entry(m2, d, i, j) == Entry(m1, d, i, j) == Entry(m0, d, i, j);
        TableAt0(m0, u0, d, i, j);
      }
    }
    forall i, j | 0 <= i < ENTRIES && 0 <= j < ENTRIES
      ensures Entry(m2, d, i, j) == Entry(m0, d, i, j) || (!Present(Entry(m2, d, i, j)) && !Present(Entry(m0, d, i, j)))
    {
    }
  }

  /** A present user entry points at a frame used as its page. */
  lemma TableAt0(mem: Mem, uses: Uses, d: nat, i: nat, j: nat)
    requires Spaces(mem, uses) && Live(uses, d) && i < USER && j < ENTRIES && Present(Entry(mem, d, i, j))
    ensures 0 <= PteFrame(Entry(mem, d, i, j)) < NFRAMES && uses[PteFrame(Entry(mem, d, i, j))] == Page(d, i, j)
  {
    TableAt(mem, uses, d, i);
    assert LeafOk(mem, uses, PteFrame(mem[d][i]), j);
  }

  lemma NotPresentNotPage(mem: Mem, uses: Uses, d: nat, lo: nat, hi: nat, f: nat)
    requires Spaces(mem, uses) && NonePresent(mem, d, lo, hi) && f < |uses|
    ensures !InRange(uses[f], d, lo, hi)
  {
  }

  /** A page that found no table: giving it back afterwards is as if it had never been taken. */
  lemma NeverTaken(m0: Mem, u0: Uses, m1: Mem, u1: Uses, m2: Mem, u2: Uses, d: nat, lo: nat, v: nat, f: nat, page: Frame)
    requires Grew(m0, u0, m1, u1, d, lo, v) && Added(m1, u1, m2, u2, d, v, f, 7, page, false)
    ensures Grew(m0, u0, m2, u2[f := Free], d, lo, v)
  {
  }

  lemma UnmappedWithout(m2: Mem, u2: Uses, m3: Mem, u3: Uses, d: nat, lo: nat, hi: nat, f: nat, p: Frame)
    requires Unmapped(m2, u2, m3, u3, d, lo, hi) && Spaces(m3, u3) && Live(u3, d) && f < |u2| && u2[f] == Held && |p| == ENTRIES
    ensures Unmapped(m2, u2[f := Free], m3[f := p], u3[f := Free], d, lo, hi)
    ensures Spaces(m3[f := p], u3[f := Free])
  {
    RefillKeeps(m3, u3, f, p, Free);
  }

  datatype Growth = Size(sz: nat) | OutOfMemory | AlreadyMapped

  /**
    allocuvm: new blank pages up to newsz, or the mapping as it was.  It panics only when a page of
    the range is mapped already.
   */
  method Allocuvm(m: Memory, d: nat, oldsz: nat, newsz: nat) returns (r: Growth)
    requires m.Valid() && Live(m.uses, d)
    modifies m
    ensures m.Valid() && Live(m.uses, d)
    ensures newsz >= KERNBASE ==> r == OutOfMemory && unchanged(m)
    ensures newsz < KERNBASE && newsz < oldsz ==> r == Size(oldsz) && unchanged(m)
    ensures r.Size? && oldsz <= newsz ==> r.sz == newsz && Grew(old(m.mem), old(m.uses), m.mem, m.uses, d, Up(oldsz), Up(newsz))
    ensures r.OutOfMemory? && NonePresent(old(m.mem), d, Up(oldsz), Up(newsz)) ==> Restored(old(m.mem), old(m.uses), m.mem, m.uses, d)
    ensures r.AlreadyMapped? ==> !NonePresent(old(m.mem), d, Up(oldsz), Up(newsz))
    ensures oldsz <= newsz < KERNBASE && !r.AlreadyMapped? ==>
              (r.Size? <==> |old(m.free)| >= Price(old(m.mem), d, Up(oldsz), Up(newsz)))
  {
    hide Spent, Price, Spaces, Chain, Image, Grew, Added, Unmapped, Restored, NonePresent, Up, Dirs, Live, Missing, Tables;
    if newsz >= KERNBASE {
      RestoredSame(m.mem, m.uses, d);
      return OutOfMemory;
    }
    if newsz < oldsz { return Size(oldsz); }
    ghost var lo, hi := Up(oldsz), Up(newsz);
    UpMonotone(oldsz, newsz);
    var a := Up(oldsz);
    UpBound(newsz, a);
    GrewStart(m.mem, m.uses, d, lo);
    SpentNone(m.mem, |m.free|, d, lo);
    ghost var all := |m.free|;
    while a * PGSIZE < newsz
      invariant lo <= a <= hi <= USERPAGES && m.Valid() && Live(m.uses, d) && a - lo <= all == |old(m.free)|
      invariant Spent(old(m.mem), all - (a - lo), m.mem, |m.free|, d, Dirs(lo, a - lo))
      invariant Grew(old(m.mem), old(m.uses), m.mem, m.uses, d, lo, a)
    {
      UpBound(newsz, a);
      ghost var m1, u1 := m.mem, m.uses;
      var g;
      ghost var f, page;
      ghost var free1 := |m.free|;
      g, f, page := GrowOne(m, d, a);
      match g {
        case Got =>
          GrewMore(old(m.mem), old(m.uses), m1, u1, m.mem, m.uses, d, lo, a, f, page);
          SpentPage(old(m.mem), all - (a - lo), m1, free1, m.mem, |m.free|, d, lo, a - lo);
        case Mapped =>
          GrewPresent(old(m.mem), old(m.uses), m1, u1, d, lo, a, hi);
          return AlreadyMapped;
        case NoPage =>
          PriceShort(old(m.mem), all, m1, free1, d, lo, a, hi);
          GiveUp(m, d, newsz, oldsz, old(m.mem), old(m.uses), a);
          return OutOfMemory;
        case Tableless(q) =>
          PriceShort(old(m.mem), all, m1, free1, d, lo, a, hi);
          NeverTaken(old(m.mem), old(m.uses), m1, u1, m.mem, m.uses, d, lo, a, f, page);
          GiveBack(m, d, newsz, oldsz, old(m.mem), old(m.uses), a, q);
          return OutOfMemory;
      }
      a := a + 1;
    }
    UpBound(newsz, a);
    SpentPrice(old(m.mem), all - (a - lo), m.mem, |m.free|, d, Dirs(lo, a - lo));
    PriceIs(old(m.mem), d, lo, hi);
    return Size(newsz);
  }

  /** Frames for pages lo to hi: one each, and the tables they lack. */
  function Price(mem: Mem, d: nat, lo: nat, hi: nat): nat
    requires lo <= hi
  {
    hi - lo + Missing(mem, d, lo, hi - lo)
  }

  lemma PriceIs(mem: Mem, d: nat, lo: nat, hi: nat)
    requires lo <= hi
    ensures Price(mem, d, lo, hi) == hi - lo + |Dirs(lo, hi - lo) - Tables(mem, d)|
  {
  }

  lemma SpentPage(m0: Mem, f0: nat, m1: Mem, f1: nat, m2: Mem, f2: nat, d: nat, v: nat, k: nat)
    requires Spent(m0, f0, m1, f1, d, Dirs(v, k)) && 0 < f1 && Spent(m1, f1 - 1, m2, f2, d, {Pdx(v + k)})
    ensures 0 < f0 && Spent(m0, f0 - 1, m2, f2, d, Dirs(v, k + 1))
  {
    SpentPrice(m0, f0, m1, f1, d, Dirs(v, k));
    DirsMore(v, k);
    SpentTrans(m0, f0 - 1, m1, f1 - 1, m2, f2, d, Dirs(v, k), {Pdx(v + k)});
  }

  /** No page, or the last page without a table: the price of all pages is above what there was. */
  lemma PriceShort(mem: Mem, all: nat, mem': Mem, free': nat, d: nat, lo: nat, a: nat, hi: nat)
    requires lo <= a < hi && a - lo <= all && Spent(mem, all - (a - lo), mem', free', d, Dirs(lo, a - lo))
    requires free' == 0 || (free' == 1 && Pdx(a) !in Tables(mem', d))
    ensures all < Price(mem, d, lo, hi)
  {
    hide Dirs, Tables, Pdx, Missing, Price;
    var k, n := a - lo, hi - lo;
    PriceIs(mem, d, lo, hi);
    SpentPrice(mem, all - k, mem', free', d, Dirs(lo, k));
    DirsMore(lo, k);
    DirsGrow(lo, k + 1, n);
    var less, more := Dirs(lo, k) - Tables(mem, d), Dirs(lo, k + 1) - Tables(mem, d);
    SubsetCount(more, Dirs(lo, n) - Tables(mem, d));
    SubsetCount(less, more);
    if free' == 1 { assert more == less + {Pdx(a)}; }
  }

  lemma RestoredSame(mem: Mem, uses: Uses, d: nat)
    requires |mem| == |uses|
    ensures Restored(mem, uses, mem, uses, d)
  {
  }

  /** A page not reached yet is mapped now only if it was mapped before. */
  lemma GrewPresent(m0: Mem, u0: Uses, m1: Mem, u1: Uses, d: nat, lo: nat, v: nat, hi: nat)
    requires Grew(m0, u0, m1, u1, d, lo, v) && lo <= v < hi <= USERPAGES && Present(Word(m1, d, v))
    ensures !NonePresent(m0, d, lo, hi)
  {
  }

  /** allocuvm's clean-up when there is no page. */
  method GiveUp(m: Memory, d: nat, newsz: nat, oldsz: nat, ghost mem0: Mem, ghost uses0: Uses, ghost v: nat)
    requires m.Valid() && Live(m.uses, d) && oldsz < newsz < KERNBASE && Up(oldsz) <= v <= Up(newsz)
    requires Spaces(mem0, uses0) && Live(uses0, d) && Grew(mem0, uses0, m.mem, m.uses, d, Up(oldsz), v)
    modifies m
    ensures m.Valid() && Live(m.uses, d)
    ensures NonePresent(mem0, d, Up(oldsz), Up(newsz)) ==> Restored(mem0, uses0, m.mem, m.uses, d)
  {
    hide Spaces, Chain, Image, Grew, Unmapped, Restored, NonePresent, Up;
    ghost var m1, u1 := m.mem, m.uses;
    var sz := Deallocuvm(m, d, newsz, oldsz);
    if NonePresent(mem0, d, Up(oldsz), Up(newsz)) {
      RestoredAll(mem0, uses0, m1, u1, m.mem, m.uses, d, Up(oldsz), v, Up(newsz));
    }
  }

  /** allocuvm's clean-up when the page q found no table. */
  method GiveBack(m: Memory, d: nat, newsz: nat, oldsz: nat, ghost mem0: Mem, ghost uses0: Uses, ghost v: nat, q: nat)
    requires m.Valid() && Live(m.uses, d) && oldsz < newsz < KERNBASE && Up(oldsz) <= v <= Up(newsz)
    requires m.first <= q < |m.uses| && m.uses[q] == Held
    requires Spaces(mem0, uses0) && Live(uses0, d) && Grew(mem0, uses0, m.mem, m.uses[q := Free], d, Up(oldsz), v)
    modifies m
    ensures m.Valid() && Live(m.uses, d)
    ensures NonePresent(mem0, d, Up(oldsz), Up(newsz)) ==> Restored(mem0, uses0, m.mem, m.uses, d)
  {
    hide Spaces, Chain, Grew, Restored, NonePresent, Up;
    ghost var m1, u1 := m.mem, m.uses;
    var sz := Deallocuvm(m, d, newsz, oldsz);
    assert m.uses[q] == Held;
    UnmappedWithout(m1, u1, m.mem, m.uses, d, Up(oldsz), Up(newsz), q, Junked(m.freelist));
    var ok := m.Kfree(q);
    if NonePresent(mem0, d, Up(oldsz), Up(newsz)) {
      RestoredAll(mem0, uses0, m1, u1[q := Free], m.mem, m.uses, d, Up(oldsz), v, Up(newsz));
    }
  }

  datatype Fetched = Got | NoPage | Tableless(f: nat) | Mapped

  /** The loop body of allocuvm, before it cleans up. */
  method GrowOne(m: Memory, d: nat, v: nat) returns (r: Fetched, ghost f: nat, ghost page: Frame)
    requires m.Valid() && Live(m.uses, d) && v < USERPAGES
    modifies m
    ensures m.Valid() && Live(m.uses, d)
    ensures r.NoPage? ==> unchanged(m)
    ensures r.NoPage? <==> |old(m.free)| == 0
    ensures r.Tableless? ==> |old(m.free)| == 1 && Pdx(v) !in Tables(old(m.mem), d)
    ensures r.Got? ==> Spent(old(m.mem), |old(m.free)| - 1, m.mem, |m.free|, d, {Pdx(v)})
    ensures r.Mapped? ==> Present(Word(old(m.mem), d, v))
    ensures r.Got? ==> Added(old(m.mem), old(m.uses), m.mem, m.uses, d, v, f, 7, page, true) && Blank(page)
    ensures r.Tableless? ==> r.f == f && m.first <= f < |m.uses| && m.uses[f] == Held
    ensures r.Tableless? ==> Added(old(m.mem), old(m.uses), m.mem, m.uses, d, v, f, 7, page, false)
  {
    hide Spaces, Chain, Image, Added, OthersKept, PagesKept, RangeSet, SameEntries, Mapping, HandedOver, Pages, FirstPage, Entry, Blank;
    var blank := seq(ENTRIES, k => 0);
    f, page := 0, blank;
    var p := m.Kalloc();
    if p.Null? { return NoPage, 0, blank; }
    f := p.f;
    var o := Place(m, d, v, p.f, blank, PTE_W + PTE_U, old(m.mem), old(m.uses));
    AllZero(blank);
    match o {
      case Done => return Got, f, blank;
      case NoMemory => return Tableless(p.f), f, blank;
      case Remap => return Mapped, f, blank;
    }
  }

  lemma AllZero(p: Frame)
    requires |p| == ENTRIES && forall j :: 0 <= j < ENTRIES ==> p[j] == 0
    ensures Blank(p)
  {
  }

  /** Fill the frame f that kalloc handed out, and map it at v. */
  method Place(m: Memory, d: nat, v: nat, f: nat, page: Frame, perm: nat, ghost mem0: Mem, ghost uses0: Uses) returns (o: Outcome)
    requires m.Valid() && Live(m.uses, d) && v < USERPAGES && |page| == ENTRIES && perm < PGSIZE
    requires m.first <= f < NFRAMES && |uses0| == NFRAMES && uses0[f] == Free && m.uses == uses0[f := Held] && m.mem == mem0
    modifies m
    ensures m.Valid() && Live(m.uses, d)
    ensures o.Remap? <==> Present(Word(mem0, d, v))
    ensures !o.Remap? ==> Added(mem0, uses0, m.mem, m.uses, d, v, f, WithP(perm), page, o.Done?)
    ensures o.NoMemory? ==> f < |m.uses| && m.uses[f] == Held
    ensures !o.Remap? ==> (o.NoMemory? <==> Pdx(v) !in Tables(mem0, d) && |old(m.free)| == 0)
    ensures o.Done? ==> Spent(mem0, |old(m.free)|, m.mem, |m.free|, d, {Pdx(v)})
  {
    hide Spent, Tables, Missing, Dirs, Spaces, Chain, Image, Added, OthersKept, PagesKept, RangeSet, SameEntries, Mapping, HandedOver, Pages, FirstPage, Entry;
    ghost var u1 := m.uses;
    Cleared(m.mem, m.freelist, m.free, m.uses, d, f, v, page);
    m.mem := m.mem[f := page];
    ghost var m1 := m.mem;
    OnePages(m.uses, d, v, f);
    ghost var k;
    o, k := Mappages(m, d, v * PGSIZE, PGSIZE, f * PGSIZE, perm);
    SameTables(mem0, m1, d);
    DirsOne(mem0, d, v);
    if o.Remap? { return; }
    if o.Done? { NonePresentAt(m1, d, v, v + 1, v); } else { assert k == 0; }
    AddedBy(mem0, uses0, m1, u1, m.mem, m.uses, d, v, f, perm, k);
    AddedMeans(mem0, uses0, m.mem, m.uses, d, v, f, WithP(perm), page, k == 1);
  }

  lemma SameTables(mem: Mem, mem': Mem, d: nat)
    requires |mem| == |mem'| && (d < |mem| ==> mem'[d] == mem[d])
    ensures Tables(mem', d) == Tables(mem, d)
    ensures forall m2, f, f2, more :: Spent(mem', f, m2, f2, d, more) ==> Spent(mem, f, m2, f2, d, more)
    ensures forall v, n :: Missing(mem', d, v, n) == Missing(mem, d, v, n)
  {
  }

  lemma DirsOne(mem: Mem, d: nat, v: nat)
    ensures Dirs(v, 1) == {Pdx(v)} && Missing(mem, d, v, 1) == if Pdx(v) in Tables(mem, d) then 0 else 1
  {
    DirsMore(v, 0);
    assert Dirs(v, 0) == {};
    assert Dirs(v, 1) - Tables(mem, d) == if Pdx(v) in Tables(mem, d) then {} else {Pdx(v)};
  }

  lemma OnePages(uses: Uses, d: nat, v: nat, f: nat)
    requires v < USERPAGES && f < |uses| && uses[f] == Held
    ensures FirstPage(v * PGSIZE) == v && Pages(v * PGSIZE, PGSIZE) == 1 && f * PGSIZE / PGSIZE == f
    ensures HandedOver(uses, d, v, f, 1, 0)
  {
  }

  /** Filling a page that kalloc just handed out. */
  lemma Cleared(mem: Mem, head: PageTable.Word, free: seq<nat>, uses: Uses, d: nat, f: nat, v: nat, p: Frame)
    requires Spaces(mem, uses) && Sized(mem, uses) && Chain(mem, head, free, uses) && Live(uses, d) && v < NPAGES
    requires f < NFRAMES && uses[f] == Held && |p| == ENTRIES
    ensures Spaces(mem[f := p], uses) && Chain(mem[f := p], head, free, uses)
    ensures SameEntries(mem, mem[f := p], d) && Word(mem[f := p], d, v) == Word(mem, d, v)
  {
    RefillKeeps(mem, uses, f, p, Held);
    assert uses[f := Held] == uses;
    ChainKeeps(mem, head, free, uses, mem[f := p], uses);
    Indices(v);
  }

  lemma AddedMeans(mem: Mem, uses: Uses, mem': Mem, uses': Uses, d: nat, v: nat, f: nat, flags: nat, page: Frame, done: bool)
    requires Added(mem, uses, mem', uses', d, v, f, flags, page, done)
    ensures f < |uses'| && uses'[f] == if done then PageOf(d, v) else Held
  {
  }

  lemma AddedBy(m0: Mem, u0: Uses, m1: Mem, u1: Uses, m2: Mem, u2: Uses, d: nat, v: nat, f: nat, perm: nat, k: nat)
    requires |m0| == |u0| && f < |u0| && u0[f] == Free && u1 == u0[f := Held] && |m1| == |m0| && m1 == m0[f := m1[f]]
    requires SameEntries(m0, m1, d) && v < USERPAGES && k <= 1
    requires Mapping(m1, u1, m2, u2, d, v, 1, f, perm, k)
    ensures Added(m0, u0, m2, u2, d, v, f, WithP(perm), m1[f], k == 1)
  {
  }
}
