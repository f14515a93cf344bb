/**
  Whole address spaces of vm.c: setupkvm and copyuvm.
 */
module VmCopy {
  import opened Words
  import opened PageTable
  import opened Kalloc
  import opened Vm
  import opened Sets

  // ---------------------------------------------------------------- setupkvm

  /** KERNLINK, PHYSTOP and DEVSPACE as page numbers above KERNBASE, or as they are. */
  const KERNLINK := 0x100
  const DEVSPACE := 0xFE000

  datatype Kmap = Kmap(va: nat, size: nat, pa: nat, perm: nat)

  /** The table kmap, where the kernel's data start at physical page data. */
  function KernelMap(data: nat, k: nat): Kmap
    requires KERNLINK < data < NFRAMES
  {
    if k == 0 then Kmap(KERNBASE, 0x10_0000, 0, PTE_W)
    else if k == 1 then Kmap(KERNBASE + 0x10_0000, data * PGSIZE - 0x10_0000, 0x10_0000, 0)
    else if k == 2 then Kmap(KERNBASE + data * PGSIZE, 0xE00_0000 - data * PGSIZE, data * PGSIZE, PTE_W)
    else Kmap(0xFE00_0000, 0x200_0000, 0xFE00_0000, PTE_W)
  }

  /** First page, number of pages, first frame. */
  function KernelRange(data: nat, k: nat): (nat, nat, nat)
    requires KERNLINK < data < NFRAMES
  {
    if k == 0 then (USERPAGES, KERNLINK, 0)
    else if k == 1 then (USERPAGES + KERNLINK, data - KERNLINK, KERNLINK)
    else if k == 2 then (USERPAGES + data, NFRAMES - data, data)
    else (DEVSPACE, NPAGES - DEVSPACE, DEVSPACE)
  }

  lemma KernelRanges(data: nat, k: nat)
    requires KERNLINK < data < NFRAMES && k < 4
    ensures
      var e, r := KernelMap(data, k), KernelRange(data, k);
      && 0 < e.size && e.va + e.size <= UINT && e.perm < PGSIZE
      && FirstPage(e.va) == r.0 && Pages(e.va, e.size) == r.1 && e.pa / PGSIZE == r.2
  {
  }

  /** What the first k entries of kmap make of virtual page v; with all four, the kernel's mapping. */
  function KernelEntry(data: nat, k: nat, v: nat): PageTable.Word
    requires KERNLINK < data < NFRAMES
  {
    if k > 0 && USERPAGES <= v < USERPAGES + KERNLINK then Pte(v - USERPAGES, PTE_P + PTE_W)
    else if k > 1 && USERPAGES + KERNLINK <= v < USERPAGES + data then Pte(v - USERPAGES, PTE_P)
    else if k > 2 && USERPAGES + data <= v < USERPAGES + NFRAMES then Pte(v - USERPAGES, PTE_P + PTE_W)
    else if k > 3 && DEVSPACE <= v then Pte(v, PTE_P + PTE_W)
    else 0
  }

  predicate KernelPart(mem: Mem, d: nat, data: nat, k: nat)
    requires KERNLINK < data < NFRAMES
  {
    forall i, j :: 0 <= i < ENTRIES && 0 <= j < ENTRIES ==> Entry(mem, d, i, j) == KernelEntry(data, k, i * 1024 + j)
  }

  lemma KernelAbsent(mem: Mem, d: nat, data: nat, k: nat, q: nat)
    requires KERNLINK < data < NFRAMES && k < 4 && KernelPart(mem, d, data, k)
    requires var r := KernelRange(data, k); q < r.1
    ensures !Present(Vm.Word(mem, d, KernelRange(data, k).0 + q))
  {
  }

  /** Address space d came to be out of free frames, everything else being as before. */
  ghost predicate Born(mem: Mem, uses: Uses, mem': Mem, uses': Uses, d: nat) {
    && OthersKept(mem, uses, mem', uses', d, 0, 0) && PagesKept(mem, uses, mem', uses')
    && d < |uses| && uses[d] == Free && Live(uses', d)
  }

  /** Every frame has its use again, and every frame in use its contents. */
  predicate AsBefore(mem: Mem, uses: Uses, mem': Mem, uses': Uses) {
    uses' == uses && |mem| == |mem'| == |uses| && forall f :: 0 <= f < |uses| && uses[f] != Free ==> mem'[f] == mem[f]
  }

  /** The directory entries of the first k ranges of kmap. */
  function KernelDirs(data: nat, k: nat): set<nat>
    requires KERNLINK < data < NFRAMES
  {
    if k == 0 then {}
    else
      var r := KernelRange(data, k - 1);
      KernelDirs(data, k - 1) + Dirs(r.0, r.1)
  }

  /** The page tables of the kernel: up to PHYSTOP, and for the devices. */
  function KernelTables(): set<nat> {
    Interval(512, 568) + Interval(1016, 1024)
  }

  /** The frames of an address space that maps only the kernel: its directory and 64 page tables. */
  const KERNELFRAMES := 65

  lemma KernelTablesCount()
    ensures |KernelTables()| == KERNELFRAMES - 1
  {
    IntervalCount(512, 568);
    IntervalCount(1016, 1024);
    assert Interval(512, 568) * Interval(1016, 1024) == {};
  }

  /** Pages in a row lie in directory entries in a row. */
  lemma DirsRow(v: nat, n: nat)
    requires 0 < n
    ensures Dirs(v, n) == Interval(Pdx(v), Pdx(v + n - 1) + 1)
  {
    forall i | i in Interval(Pdx(v), Pdx(v + n - 1) + 1) ensures i in Dirs(v, n) {
      var q := if i * 1024 < v then v else i * 1024;
      assert v <= q < v + n && Pdx(q) == i;
    }
  }

  /** Wherever the kernel's data start, its ranges need the same tables. */
  lemma KernelDirsAll(data: nat)
    requires KERNLINK < data < NFRAMES
    ensures KernelDirs(data, 4) == KernelTables()
  {
    var r0, r1, r2, r3 := KernelRange(data, 0), KernelRange(data, 1), KernelRange(data, 2), KernelRange(data, 3);
    DirsRow(r0.0, r0.1);
    DirsRow(r1.0, r1.1);
    DirsRow(r2.0, r2.1);
    DirsRow(r3.0, r3.1);
    var a, b := Pdx(USERPAGES + data - 1), Pdx(USERPAGES + data);
    assert Dirs(r0.0, r0.1) == Interval(512, 513);
    assert Dirs(r1.0, r1.1) == Interval(512, a + 1) && Dirs(r2.0, r2.1) == Interval(b, 568) && b <= a + 1;
    assert Dirs(r3.0, r3.1) == Interval(1016, 1024);
    KernelDirsFour(data);
  }

  lemma KernelDirsFour(data: nat)
    requires KERNLINK < data < NFRAMES
    ensures
      var r0, r1, r2, r3 := KernelRange(data, 0), KernelRange(data, 1), KernelRange(data, 2), KernelRange(data, 3);
      KernelDirs(data, 4) == Dirs(r0.0, r0.1) + Dirs(r1.0, r1.1) + Dirs(r2.0, r2.1) + Dirs(r3.0, r3.1)
  {
    hide Dirs, KernelRange;
    assert KernelDirs(data, 1) == KernelDirs(data, 0) + Dirs(KernelRange(data, 0).0, KernelRange(data, 0).1);
    assert KernelDirs(data, 2) == KernelDirs(data, 1) + Dirs(KernelRange(data, 1).0, KernelRange(data, 1).1);
    assert KernelDirs(data, 3) == KernelDirs(data, 2) + Dirs(KernelRange(data, 2).0, KernelRange(data, 2).1);
  }

  lemma {:induction false} KernelDirsGrow(data: nat, k: nat)
    requires KERNLINK < data < NFRAMES && k <= 4
    ensures KernelDirs(data, k) <= KernelTables()
    decreases 4 - k
  {
    if k == 4 { KernelDirsAll(data); } else { KernelDirsGrow(data, k + 1); }
  }

  /** The tables of d are those of the first k ranges, and they and the free frames make up all. */
  predicate KernelSpent(mem: Mem, free: nat, d: nat, data: nat, k: nat, all: nat)
    requires KERNLINK < data < NFRAMES
  {
    Tables(mem, d) == KernelDirs(data, k) && free + |Tables(mem, d)| == all
  }

  lemma KernelSpentMore(m1: Mem, f1: nat, m2: Mem, f2: nat, d: nat, data: nat, k: nat, all: nat)
    requires KERNLINK < data < NFRAMES && k < 4 && KernelSpent(m1, f1, d, data, k, all)
    requires var r := KernelRange(data, k); Spent(m1, f1, m2, f2, d, Dirs(r.0, r.1))
    ensures KernelSpent(m2, f2, d, data, k + 1, all)
  {
  }

  /** A range that finds too few frames is a range of at most 64 tables in all. */
  lemma KernelShort(mem: Mem, free: nat, d: nat, data: nat, k: nat, all: nat)
    requires KERNLINK < data < NFRAMES && k < 4 && KernelSpent(mem, free, d, data, k, all)
    requires var r := KernelRange(data, k); free < Vm.Missing(mem, d, r.0, r.1)
    ensures all < KERNELFRAMES - 1
  {
    hide Dirs, KernelTables, KernelRange, Tables;
    var r := KernelRange(data, k);
    var have, want := KernelDirs(data, k), Dirs(r.0, r.1);
    assert KernelDirs(data, k + 1) == have + (want - have);
    KernelDirsGrow(data, k + 1);
    SubsetCount(KernelDirs(data, k + 1), KernelTables());
    KernelTablesCount();
  }

  lemma KernelDone(mem: Mem, free: nat, d: nat, data: nat, all: nat)
    requires KERNLINK < data < NFRAMES && KernelSpent(mem, free, d, data, 4, all)
    ensures Tables(mem, d) == KernelTables() && free + KERNELFRAMES - 1 == all
  {
    KernelDirsAll(data);
    KernelTablesCount();
  }

  /** setupkvm: an address space with exactly the kernel's mapping, or nothing at all. */
  method Setupkvm(m: Memory, data: nat) returns (r: Ptr)
    requires m.Valid() && KERNLINK < data < NFRAMES
    modifies m
    ensures m.Valid()
    ensures r.Null? ==> AsBefore(old(m.mem), old(m.uses), m.mem, m.uses)
    ensures r.At? ==> Born(old(m.mem), old(m.uses), m.mem, m.uses, r.f) && KernelPart(m.mem, r.f, data, 4)
    ensures r.At? <==> |old(m.free)| >= KERNELFRAMES
    ensures r.At? ==> |m.free| == |old(m.free)| - KERNELFRAMES && Tables(m.mem, r.f) == KernelTables()
  {
    hide KernelSpent, KernelTables, Tables, Spent, Vm.Missing, Dirs, Spaces, Chain, Image, Born, KernelPart, Mapping, OthersKept, PagesKept, Gone, KernelRange, RangeSet, Entry, HandedOver, Pages, FirstPage;
    r := m.Kalloc();
    if r.Null? { return; }
    ghost var d := r.f;
    ClearDir(m, r.f, old(m.mem), old(m.uses), data);
    ghost var all := |m.free|;
    var k := 0;
    while k < 4
      invariant 0 <= k <= 4 && m.Valid() && r == At(d) && all == |old(m.free)| - 1
      invariant KernelSpent(m.mem, |m.free|, d, data, k, all)
      invariant Born(old(m.mem), old(m.uses), m.mem, m.uses, d) && KernelPart(m.mem, d, data, k)
    {
      ghost var m1, u1 := m.mem, m.uses;
      KernelRanges(data, k);
      KernelOver(u1, d, data, k);
      BornMeans(old(m.mem), old(m.uses), m1, u1, d);
      var e := KernelMap(data, k);
      ghost var done, free1 := 0, |m.free|;
      var o;
      o, done := Mappages(m, r.f, e.va, e.size, e.pa, e.perm);
      BornMore(old(m.mem), old(m.uses), m1, u1, m.mem, m.uses, d, data, k, done);
      if !o.Done? {
        if o.Remap? { KernelAbsent(m1, d, data, k, done); assert false; }
        KernelShort(m1, free1, d, data, k, all);
        ghost var m2, u2 := m.mem, m.uses;
        Freevm(m, r.f);
        BornGone(old(m.mem), old(m.uses), m2, u2, m.mem, m.uses, d);
        return Null;
      }
      KernelMapped(m1, u1, m.mem, m.uses, d, data, k);
      KernelSpentMore(m1, free1, m.mem, |m.free|, d, data, k, all);
      k := k + 1;
    }
    KernelDone(m.mem, |m.free|, d, data, all);
  }

  lemma BornMeans(mem: Mem, uses: Uses, mem': Mem, uses': Uses, d: nat)
    requires Born(mem, uses, mem', uses', d)
    ensures Live(uses', d)
  {
  }

  lemma KernelOver(uses: Uses, d: nat, data: nat, k: nat)
    requires KERNLINK < data < NFRAMES && k < 4
    ensures var r := KernelRange(data, k); r.0 >= USERPAGES && HandedOver(uses, d, r.0, r.2, r.1, 0)
  {
  }

  lemma BornMore(m0: Mem, u0: Uses, m1: Mem, u1: Uses, m2: Mem, u2: Uses, d: nat, data: nat, k: nat, n: nat)
    requires KERNLINK < data < NFRAMES && k < 4 && Born(m0, u0, m1, u1, d) && Live(u2, d)
    requires var r := KernelRange(data, k); Mapping(m1, u1, m2, u2, d, r.0, r.1, r.2, KernelMap(data, k).perm, n)
    ensures Born(m0, u0, m2, u2, d)
  {
  }

  lemma KernelMapped(m1: Mem, u1: Uses, m2: Mem, u2: Uses, d: nat, data: nat, k: nat)
    requires KERNLINK < data < NFRAMES && k < 4 && KernelPart(m1, d, data, k)
    requires var r := KernelRange(data, k); Mapping(m1, u1, m2, u2, d, r.0, r.1, r.2, KernelMap(data, k).perm, r.1)
    ensures KernelPart(m2, d, data, k + 1)
  {
  }

  /** Taking a new address space down again leaves no trace. */
  lemma BornGone(m0: Mem, u0: Uses, m1: Mem, u1: Uses, m2: Mem, u2: Uses, d: nat)
    requires Spaces(m0, u0) && Born(m0, u0, m1, u1, d) && Gone(m1, u1, m2, u2, d)
    ensures AsBefore(m0, u0, m2, u2)
  {
  }

  lemma NotMine(mem: Mem, uses: Uses, d: nat, f: nat)
    requires Spaces(mem, uses) && d < |uses| && !uses[d].Dir? && f < |uses|
    ensures !Mine(uses[f], d, f)
  {
  }

  method ClearDir(m: Memory, d: nat, ghost mem0: Mem, ghost uses0: Uses, ghost data: nat)
    requires m.Valid() && m.first <= d < NFRAMES && m.uses[d] == Held && KERNLINK < data < NFRAMES
    requires |uses0| == NFRAMES && m.uses == uses0[d := Held] && uses0[d] == Free && m.mem == mem0
    modifies m
    ensures m.Valid() && Born(mem0, uses0, m.mem, m.uses, d) && KernelPart(m.mem, d, data, 0)
    ensures m.free == old(m.free) && KernelSpent(m.mem, |m.free|, d, data, 0, |m.free|)
  {
    ghost var m1, u1 := m.mem, m.uses;
    var blank := seq(ENTRIES, k => 0);
    RefillKeeps(m1, u1, d, blank, Held);
    assert u1[d := Held] == u1;
    m.mem := m.mem[d := blank];
    NewDirKeeps(m.mem, u1, d);
    m.uses := m.uses[d := Dir(0)];
    ChainKeeps(m1, m.freelist, m.free, u1, m.mem, m.uses);
    assert Tables(m.mem, d) == {};
  }

  // ---------------------------------------------------------------- copyuvm

  /** Page (i, j) of the child has the parent's flags and contents, on a frame of its own. */
  predicate Twin(m0: Mem, mem: Mem, uses: Uses, p: nat, d: nat, i: nat, j: nat) {
    var wp, wc := Entry(m0, p, i, j), Entry(mem, d, i, j);
    && Present(wp) && Present(wc) && PteFlags(wc) == PteFlags(wp)
    && 0 <= PteFrame(wc) < |mem| == |uses| && 0 <= PteFrame(wp) < |m0|
    && uses[PteFrame(wc)] == Page(d, i, j) && mem[PteFrame(wc)] == m0[PteFrame(wp)]
  }

  /** The first n pages are copied; the child has the kernel's mapping and no other page. */
  ghost predicate Copying(m0: Mem, u0: Uses, mem: Mem, uses: Uses, p: nat, d: nat, data: nat, n: nat)
    requires KERNLINK < data < NFRAMES
  {
    && Born(m0, u0, mem, uses, d)
    && forall i, j :: 0 <= i < ENTRIES && 0 <= j < ENTRIES ==>
         if i * 1024 + j < n then Twin(m0, mem, uses, p, d, i, j)
         else Entry(mem, d, i, j) == KernelEntry(data, 4, i * 1024 + j)
  }

  /** An address space other than d is as it was. */
  lemma OtherSpace(m0: Mem, u0: Uses, mem: Mem, uses: Uses, p: nat, d: nat, v: nat)
    requires Spaces(m0, u0) && Live(u0, p) && Born(m0, u0, mem, uses, d) && v < USERPAGES
    ensures Live(uses, p) && p != d && Vm.Word(mem, p, v) == Vm.Word(m0, p, v)
    ensures
      var f := PteFrame(Vm.Word(m0, p, v));
      Present(Vm.Word(m0, p, v)) ==> 0 <= f < |m0| == |mem| && mem[f] == m0[f]
  {
    Indices(v);
    NotMine(m0, u0, d, p);
    var i := Pdx(v);
    assert mem[p] == m0[p];
    if Present(m0[p][i]) {
      TableAt(m0, u0, p, i);
      NotMine(m0, u0, d, PteFrame(m0[p][i]));
      if Present(Vm.Word(m0, p, v)) {
        TableAt0(m0, u0, p, i, Ptx(v));
        NotMine(m0, u0, d, PteFrame(Vm.Word(m0, p, v)));
      }
    }
  }

  lemma CopyingMore(m0: Mem, u0: Uses, m1: Mem, u1: Uses, m2: Mem, u2: Uses, p: nat, d: nat, data: nat, v: nat, f: nat, flags: nat)
    requires KERNLINK < data < NFRAMES && v < USERPAGES && Live(u2, d)
    requires Copying(m0, u0, m1, u1, p, d, data, v)
    requires
      var w := Vm.Word(m0, p, v);
      && Present(w) && 0 <= PteFrame(w) < |m0| && flags == PteFlags(w) < PGSIZE && WithP(flags) == flags
      && Added(m1, u1, m2, u2, d, v, f, flags, m0[PteFrame(w)], true)
    ensures Copying(m0, u0, m2, u2, p, d, data, v + 1)
  {
    BornAdded(m0, u0, m1, u1, m2, u2, d, v, f, flags, m0[PteFrame(Vm.Word(m0, p, v))]);
    PteParts(f, flags);
    forall i, j | 0 <= i < ENTRIES && 0 <= j < ENTRIES
      ensures if i * 1024 + j < v + 1 then Twin(m0, m2, u2, p, d, i, j)
              else Entry(m2, d, i, j) == KernelEntry(data, 4, i * 1024 + j)
    {
      IndicesOf(i, j);
      if i * 1024 + j < v {
        assert Twin(m0, m1, u1, p, d, i, j);
        assert Entry(m2, d, i, j) == Entry(m1, d, i, j);
      }
    }
  }

  lemma BornAdded(m0: Mem, u0: Uses, m1: Mem, u1: Uses, m2: Mem, u2: Uses, d: nat, v: nat, f: nat, flags: nat, page: Frame)
    requires Born(m0, u0, m1, u1, d) && Added(m1, u1, m2, u2, d, v, f, flags, page, true) && Live(u2, d)
    ensures Born(m0, u0, m2, u2, d)
  {
  }

  lemma CopyingStart(m0: Mem, u0: Uses, mem: Mem, uses: Uses, p: nat, d: nat, data: nat)
    requires KERNLINK < data < NFRAMES && Born(m0, u0, mem, uses, d) && KernelPart(mem, d, data, 4)
    ensures Copying(m0, u0, mem, uses, p, d, data, 0)
  {
  }

  /** The child's next page is not mapped yet. */
  lemma CopyingNext(m0: Mem, u0: Uses, mem: Mem, uses: Uses, p: nat, d: nat, data: nat, v: nat)
    requires KERNLINK < data < NFRAMES && Copying(m0, u0, mem, uses, p, d, data, v) && v < USERPAGES
    ensures Born(m0, u0, mem, uses, d) && Live(uses, d) && !Present(Vm.Word(mem, d, v))
  {
  }

  predicate AllPresent(mem: Mem, d: nat, n: nat) {
    forall v :: 0 <= v < n ==> Present(Vm.Word(mem, d, v))
  }

  /** AsBefore, but for the frame f, which was free and is now held by no one. */
  predicate Leaked(mem: Mem, uses: Uses, mem': Mem, uses': Uses, f: nat) {
    && f < |uses| && uses[f] == Free && uses' == uses[f := Held]
    && |mem| == |mem'| == |uses| && forall g :: 0 <= g < |uses| && uses[g] != Free ==> mem'[g] == mem[g]
  }

  lemma AddedGone(m0: Mem, u0: Uses, m1: Mem, u1: Uses, m2: Mem, u2: Uses, m3: Mem, u3: Uses, d: nat, v: nat, f: nat, flags: nat, page: Frame)
    requires Spaces(m0, u0) && Born(m0, u0, m1, u1, d) && Added(m1, u1, m2, u2, d, v, f, flags, page, false)
    requires Gone(m2, u2, m3, u3, d)
    ensures Leaked(m0, u0, m3, u3, f)
  {
  }

  lemma FlagsKept(w: PageTable.Word)
    requires Present(w)
    ensures 0 <= PteFlags(w) < PGSIZE && WithP(PteFlags(w)) == PteFlags(w)
  {
  }

  /** Page tables for n pages from address 0 on. */
  function UserTables(n: nat): nat { (n + 1023) / 1024 }

  /**
    A copy of n pages with this many frames free runs out of memory just when it wants a page table,
    the page for it already taken.
   */
  ghost predicate Leaks(free: nat, n: nat) {
    exists q: nat :: LeaksAt(free, n, q)
  }

  predicate LeaksAt(free: nat, n: nat, q: nat) {
    free == KERNELFRAMES + 1 + 1025 * q && 1024 * q < n
  }

  /** With one frame more than the kernel needs, copying any process loses it. */
  lemma LeaksOne(n: nat)
    requires 0 < n
    ensures Leaks(KERNELFRAMES + 1, n)
  {
    assert LeaksAt(KERNELFRAMES + 1, n, 0);
  }

  lemma LeakAt(all: nat, n: nat, v: nat)
    requires v < n && v % 1024 == 0 && all == KERNELFRAMES + v + UserTables(v) + 1
    ensures Leaks(all, n) && all < KERNELFRAMES + n + UserTables(n)
  {
    var q := v / 1024;
    assert v == 1024 * q && UserTables(v) == q;
    assert LeaksAt(all, n, q);
    UserTablesGrow(v + 1, n);
  }

  /** Out of memory at the page itself. */
  lemma NoLeak(all: nat, n: nat, v: nat)
    requires all == KERNELFRAMES + v + UserTables(v) || (v == 0 && all < KERNELFRAMES)
    ensures !Leaks(all, n)
    ensures v < n || all < KERNELFRAMES ==> all < KERNELFRAMES + n + UserTables(n)
  {
    if v < n { UserTablesGrow(v, n); }
    forall q: nat ensures !LeaksAt(all, n, q) {
      if v <= 1024 * q { UserTablesGrow(v, 1024 * q); } else { UserTablesGrow(1024 * q + 1, v); }
    }
  }

  lemma UserTablesGrow(a: nat, b: nat)
    requires a <= b
    ensures UserTables(a) <= UserTables(b)
    ensures forall q: nat :: UserTables(1024 * q) == q && UserTables(1024 * q + 1) == q + 1
  {
  }

  /** v pages are copied: so many frames are left, and the child has tables for these pages. */
  ghost predicate CopySpent(mem: Mem, free: nat, d: nat, all: nat, v: nat) {
    && Tables(mem, d) == KernelTables() + Dirs(0, v)
    && free + |Tables(mem, d)| + v + 1 == all
  }

  lemma CopySpentStart(mem: Mem, free: nat, d: nat, all: nat)
    requires Tables(mem, d) == KernelTables() && free + KERNELFRAMES == all
    ensures CopySpent(mem, free, d, all, 0)
  {
    KernelTablesCount();
    assert Dirs(0, 0) == {};
  }

  lemma CopySpentMore(m1: Mem, f1: nat, m2: Mem, f2: nat, d: nat, all: nat, v: nat)
    requires CopySpent(m1, f1, d, all, v) && 0 < f1 && Spent(m1, f1 - 1, m2, f2, d, {Pdx(v)})
    ensures CopySpent(m2, f2, d, all, v + 1)
  {
    hide Dirs, KernelTables, Tables, Pdx;
    DirsMore(0, v);
  }

  lemma CopySpentMeans(mem: Mem, free: nat, d: nat, all: nat, v: nat, n: nat)
    requires CopySpent(mem, free, d, all, v) && v <= n <= USERPAGES
    ensures all == KERNELFRAMES + v + UserTables(v) + free
    ensures v < USERPAGES ==> (Pdx(v) in Tables(mem, d) <==> v % 1024 != 0)
  {
    hide Dirs, KernelTables, Tables, Interval, UserTables;
    DirsFromZero(v);
    UserTablesCount(UserTables(v));
    if v < USERPAGES { InUserTables(v); }
  }

  lemma DirsFromZero(v: nat)
    ensures Dirs(0, v) == Interval(0, UserTables(v)) && (v <= USERPAGES ==> UserTables(v) <= 512)
  {
    if v > 0 { DirsRow(0, v); } else { assert Dirs(0, 0) == {}; }
  }

  lemma UserTablesCount(k: nat)
    requires k <= 512
    ensures |KernelTables() + Interval(0, k)| == KERNELFRAMES - 1 + k
  {
    KernelTablesCount();
    IntervalCount(0, k);
    assert Interval(0, k) * KernelTables() == {};
  }

  lemma InUserTables(v: nat)
    requires v < USERPAGES
    ensures Pdx(v) in KernelTables() + Interval(0, UserTables(v)) <==> v % 1024 != 0
  {
  }

  datatype Copy = Child(d: nat) | Failed | Missing

  /**
    copyuvm: the child has the parent's contents and flags on frames of its own, and the parent is as
    it was.  When memory is out the child is gone, but a page that found no table is not given back.
   */
  method Copyuvm(m: Memory, p: nat, sz: nat, data: nat) returns (r: Copy, ghost leak: Ptr)
    requires m.Valid() && Live(m.uses, p) && sz <= KERNBASE && KERNLINK < data < NFRAMES
    modifies m
    ensures m.Valid()
    ensures r.Child? ==> Copying(old(m.mem), old(m.uses), m.mem, m.uses, p, r.d, data, Up(sz)) && r.d != p
    ensures r.Failed? ==>
              match leak
              case Null => AsBefore(old(m.mem), old(m.uses), m.mem, m.uses)
              case At(f) => Leaked(old(m.mem), old(m.uses), m.mem, m.uses, f)
    ensures r.Missing? ==> !AllPresent(old(m.mem), p, Up(sz))
    ensures !r.Missing? ==> (r.Child? <==> |old(m.free)| >= KERNELFRAMES + Up(sz) + UserTables(Up(sz)))
    ensures r.Failed? ==> (leak.At? <==> Leaks(|old(m.free)|, Up(sz)))
  {
    hide CopySpent, KernelTables, Leaks, UserTables, Tables, Spent, Pdx, Added, Spaces, Chain, Image, Born, Copying, KernelPart, Gone, Up, Entry, AllPresent, AsBefore, Leaked;
    leak := Null;
    var k := Setupkvm(m, data);
    ghost var all, n := |old(m.free)|, Up(sz);
    if k.Null? {
      NoLeak(all, n, 0);
      return Failed, Null;
    }
    var d := k.f;
    CopySpentStart(m.mem, |m.free|, d, all);
    CopyingStart(old(m.mem), old(m.uses), m.mem, m.uses, p, d, data);
    var v := 0;
    UpBound(sz, v);
    while v * PGSIZE < sz
      invariant 0 <= v <= Up(sz) <= USERPAGES && m.Valid()
      invariant CopySpent(m.mem, |m.free|, d, all, v)
      invariant Copying(old(m.mem), old(m.uses), m.mem, m.uses, p, d, data, v)
    {
      UpBound(sz, v);
      ghost var m1, u1 := m.mem, m.uses;
      CopyingNext(old(m.mem), old(m.uses), m1, u1, p, d, data, v);
      OtherSpace(old(m.mem), old(m.uses), m1, u1, p, d, v);
      var g;
      ghost var f, flags;
      ghost var free1 := |m.free|;
      CopySpentMeans(m1, free1, d, all, v, n);
      g, f, flags := CopyOne(m, p, d, v);
      match g {
        case Got =>
          CopyingMore(old(m.mem), old(m.uses), m1, u1, m.mem, m.uses, p, d, data, v, f, flags);
          CopySpentMore(m1, free1, m.mem, |m.free|, d, all, v);
        case Mapped =>
          NotAllPresent(old(m.mem), p, v, Up(sz));
          return Missing, Null;
        case NoPage =>
          NoLeak(all, n, v);
          Freevm(m, d);
          BornGone(old(m.mem), old(m.uses), m1, u1, m.mem, m.uses, d);
          return Failed, Null;
        case Tableless(_) =>
          ghost var m2, u2 := m.mem, m.uses;
          LeakAt(all, n, v);
          Freevm(m, d);
          AddedGone(old(m.mem), old(m.uses), m1, u1, m2, u2, m.mem, m.uses, d, v, f, flags, old(m.mem)[PteFrame(Vm.Word(old(m.mem), p, v))]);
          return Failed, At(f);
      }
      v := v + 1;
    }
    UpBound(sz, v);
    CopyingMeans(old(m.mem), old(m.uses), m.mem, m.uses, p, d, data, v);
    CopySpentMeans(m.mem, |m.free|, d, all, v, n);
    return Child(d), Null;
  }

  lemma CopyingMeans(m0: Mem, u0: Uses, mem: Mem, uses: Uses, p: nat, d: nat, data: nat, v: nat)
    requires KERNLINK < data < NFRAMES && Copying(m0, u0, mem, uses, p, d, data, v) && Live(u0, p)
    ensures p != d
  {
  }

  lemma NotAllPresent(mem: Mem, d: nat, v: nat, n: nat)
    requires v < n && !Present(Vm.Word(mem, d, v))
    ensures !AllPresent(mem, d, n)
  {
  }

  /** The loop body of copyuvm; Mapped stands for its two panics. */
  method CopyOne(m: Memory, p: nat, d: nat, v: nat) returns (r: Fetched, ghost f: nat, ghost flags: nat)
    requires m.Valid() && Live(m.uses, p) && Live(m.uses, d) && v < USERPAGES && !Present(Vm.Word(m.mem, d, v))
    modifies m
    ensures m.Valid() && Live(m.uses, d)
    ensures r.NoPage? || r.Mapped? ==> unchanged(m)
    ensures r.Mapped? <==> !Present(Vm.Word(old(m.mem), p, v))
    ensures r.NoPage? ==> |old(m.free)| == 0
    ensures r.Tableless? ==> |old(m.free)| == 1 && Pdx(v) !in Tables(old(m.mem), d)
    ensures r.Got? ==> |old(m.free)| > 0 && Spent(old(m.mem), |old(m.free)| - 1, m.mem, |m.free|, d, {Pdx(v)})
    ensures !r.Mapped? ==> && flags == PteFlags(Vm.Word(old(m.mem), p, v)) < PGSIZE && WithP(flags) == flags
                           && 0 <= PteFrame(Vm.Word(old(m.mem), p, v)) < |old(m.mem)|
    ensures r.Got? || r.Tableless? ==>
              Added(old(m.mem), old(m.uses), m.mem, m.uses, d, v, f, flags, old(m.mem)[PteFrame(Vm.Word(old(m.mem), p, v))], r.Got?)
  {
    hide Spaces, Chain, Image, Added, Entry;
    f, flags := 0, 0;
    Indices(v);
    var t := Walkpgdir(m, p, v, false);
    if t.Null? {
      NoTable(m.mem, p, v);
      return Mapped, 0, 0;
    }
    TableAt(m.mem, m.uses, p, Pdx(v));
    var pte := m.mem[t.f][Ptx(v)];
    if !Present(pte) { return Mapped, 0, 0; }
    TableAt0(m.mem, m.uses, p, Pdx(v), Ptx(v));
    FlagsKept(pte);
    flags := PteFlags(pte);
    var q := m.Kalloc();
    if q.Null? { return NoPage, 0, PteFlags(pte); }
    f := q.f;
    var o := Place(m, d, v, q.f, m.mem[PteFrame(pte)], PteFlags(pte), old(m.mem), old(m.uses));
    if o.Done? { return Got, f, PteFlags(pte); }
    return Tableless(q.f), f, PteFlags(pte);
  }
}
