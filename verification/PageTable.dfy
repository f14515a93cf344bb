/**
  Two-level page tables in physical memory (vm.c), the use every page frame is put to, and what
  the elementary changes of a table keep.  Addresses are split as in mmu.h: directory index i,
  table index j; virtual page i * 1024 + j.
 */
module PageTable {

  const ENTRIES := 1024
  /** PHYSTOP / PGSIZE */
  const NFRAMES := 0xE000
  /** PDX(KERNBASE): directory entries below belong to the user. */
  const USER := 512
  const PGSIZE := 4096

  const PTE_P := 1
  const PTE_W := 2
  const PTE_U := 4

  type Word = int
  type Frame = seq<Word>
  type Mem = seq<Frame>

  // ---------------------------------------------------------------- Entries

  function Pte(frame: nat, flags: nat): Word { frame * PGSIZE + flags }

  function PteFrame(w: Word): int { w / PGSIZE }

  function PteFlags(w: Word): int { w % PGSIZE }

  predicate Present(w: Word) { w % 2 == 1 }

  /** perm | PTE_P */
  function WithP(perm: nat): nat { if perm % 2 == 1 then perm else perm + 1 }

  lemma PteParts(frame: nat, perm: nat)
    requires perm < PGSIZE
    ensures WithP(perm) < PGSIZE
    ensures
      var w := Pte(frame, WithP(perm));
      Present(w) && PteFrame(w) == frame && PteFlags(w) == WithP(perm)
  {
    Split(frame, WithP(perm));
    Parity(frame, WithP(perm));
  }

  lemma Split(frame: nat, flags: nat)
    requires flags < 4096
    ensures (frame * 4096 + flags) / 4096 == frame && (frame * 4096 + flags) % 4096 == flags
  {
  }

  lemma Parity(frame: nat, flags: nat)
    ensures (frame * 4096 + flags) % 2 == flags % 2
  {
  }

  // ---------------------------------------------------------------- Uses of frames

  /**
    A directory with lo > 0 is being torn down: its tables below lo have been given back.
    Held frames are the kernel's: handed out by kalloc and not (yet) in an address space.
   */
  datatype Use = Free | Held | Dir(lo: nat) | Table(d: nat, i: nat) | Page(d: nat, i: nat, j: nat)

  type Uses = seq<Use>

  /** The flat view: the entry of virtual page (i, j) in address space d, 0 where there is no table. */
  function Entry(mem: Mem, d: nat, i: nat, j: nat): Word {
    if d < |mem| && i < |mem[d]| && Present(mem[d][i]) then Leaf(mem, PteFrame(mem[d][i]), j) else 0
  }

  function Leaf(mem: Mem, t: int, j: nat): Word {
    if 0 <= t < |mem| && j < |mem[t]| then mem[t][j] else 0
  }

  predicate Sized(mem: Mem, uses: Uses) {
    |mem| == NFRAMES && |uses| == NFRAMES && forall f :: 0 <= f < NFRAMES ==> |mem[f]| == ENTRIES
  }

  predicate DirOk(mem: Mem, uses: Uses, d: nat, i: nat)
    requires Sized(mem, uses) && d < NFRAMES && i < ENTRIES
  {
    Present(mem[d][i]) ==> 0 <= PteFrame(mem[d][i]) < NFRAMES && uses[PteFrame(mem[d][i])] == Table(d, i)
  }

  predicate LeafOk(mem: Mem, uses: Uses, t: nat, j: nat)
    requires Sized(mem, uses) && t < NFRAMES && j < ENTRIES && uses[t].Table?
  {
    Present(mem[t][j]) ==>
      0 <= PteFrame(mem[t][j]) < NFRAMES && uses[PteFrame(mem[t][j])] == Page(uses[t].d, uses[t].i, j)
  }

  /** A table is the one its directory points at. */
  predicate TableHeld(mem: Mem, uses: Uses, t: nat)
    requires Sized(mem, uses) && t < NFRAMES && uses[t].Table?
  {
    var u := uses[t];
    && u.d < NFRAMES && uses[u.d].Dir? && uses[u.d].lo <= u.i < ENTRIES
    && Present(mem[u.d][u.i]) && PteFrame(mem[u.d][u.i]) == t
  }

  /** A user page is the one its entry points at. */
  predicate PageHeld(mem: Mem, uses: Uses, f: nat)
    requires Sized(mem, uses) && f < NFRAMES && uses[f].Page?
  {
    var u := uses[f];
    && u.d < NFRAMES && uses[u.d].Dir? && uses[u.d].lo <= u.i < USER && u.j < ENTRIES
    && Present(mem[u.d][u.i])
    && Present(Entry(mem, u.d, u.i, u.j)) && PteFrame(Entry(mem, u.d, u.i, u.j)) == f
  }

  /**
    Every directory and user table entry points at a frame put to exactly that use, and every frame
    so used is pointed at from there.  As each frame has one use, none is mapped twice.
   */
  predicate Spaces(mem: Mem, uses: Uses) {
    && Sized(mem, uses)
    && (forall d, i :: 0 <= d < NFRAMES && uses[d].Dir? && uses[d].lo <= i < ENTRIES ==> DirOk(mem, uses, d, i))
    && (forall t, j :: 0 <= t < NFRAMES && uses[t].Table? && uses[t].i < USER && 0 <= j < ENTRIES ==> LeafOk(mem, uses, t, j))
    && (forall t :: 0 <= t < NFRAMES && uses[t].Table? ==> TableHeld(mem, uses, t))
    && (forall f :: 0 <= f < NFRAMES && uses[f].Page? ==> PageHeld(mem, uses, f))
  }

  /** The entries of directory d that have a page table. */
  function Tables(mem: Mem, d: nat): set<nat> {
    if d < |mem| then set i | 0 <= i < |mem[d]| && Present(mem[d][i]) else {}
  }

  /** The tables in more are there now, and those that were missing came off the free list. */
  predicate Spent(mem: Mem, free: nat, mem': Mem, free': nat, d: nat, more: set<nat>) {
    && Tables(mem', d) == Tables(mem, d) + more
    && free' + |Tables(mem', d)| == free + |Tables(mem, d)|
  }

  lemma SpentTrans(m0: Mem, f0: nat, m1: Mem, f1: nat, m2: Mem, f2: nat, d: nat, a: set<nat>, b: set<nat>)
    requires Spent(m0, f0, m1, f1, d, a) && Spent(m1, f1, m2, f2, d, b)
    ensures Spent(m0, f0, m2, f2, d, a + b)
  {
  }

  /** The price of tables is the number of those missing. */
  lemma SpentPrice(mem: Mem, free: nat, mem': Mem, free': nat, d: nat, more: set<nat>)
    requires Spent(mem, free, mem', free', d, more)
    ensures free == free' + |more - Tables(mem, d)|
  {
    assert Tables(mem', d) == Tables(mem, d) + (more - Tables(mem, d));
  }

  predicate Live(uses: Uses, d: nat) {
    d < |uses| && uses[d] == Dir(0)
  }

  /** Frames of the address space d. */
  predicate Mine(u: Use, d: nat, f: nat) {
    match u
    case Dir(_) => f == d
    case Table(e, _) => e == d
    case Page(e, _, _) => e == d
    case _ => false
  }

  /**
    Frames in use outside address space d, and not numbered lo to hi, keep their use and contents; none outside
    is taken or given up.
   */
  predicate OthersKept(mem: Mem, uses: Uses, mem': Mem, uses': Uses, d: nat, lo: nat, hi: nat) {
    && |mem| == |mem'| == |uses| == |uses'|
    && (forall f :: 0 <= f < |uses| && !(lo <= f < hi) && uses[f] != Free && !Mine(uses[f], d, f) ==>
          uses'[f] == uses[f] && mem'[f] == mem[f])
    && (forall f :: 0 <= f < |uses| && !(lo <= f < hi) && uses[f] != uses'[f] ==> uses'[f] == Free || Mine(uses'[f], d, f))
  }

  lemma OthersKeptTrans(m0: Mem, u0: Uses, m1: Mem, u1: Uses, m2: Mem, u2: Uses, d: nat, lo: nat, hi: nat)
    requires OthersKept(m0, u0, m1, u1, d, lo, hi) && OthersKept(m1, u1, m2, u2, d, lo, hi)
    ensures OthersKept(m0, u0, m2, u2, d, lo, hi)
  {
  }

  lemma OthersKeptRefl(m: Mem, u: Uses, d: nat, lo: nat, hi: nat)
    requires |m| == |u|
    ensures OthersKept(m, u, m, u, d, lo, hi)
  {
  }

  /** No address space loses a frame, and user pages keep their contents. */
  predicate PagesKept(mem: Mem, uses: Uses, mem': Mem, uses': Uses) {
    && |mem| == |mem'| == |uses| == |uses'|
    && (forall f :: 0 <= f < |uses| && uses[f] !in {Free, Held} ==> uses'[f] == uses[f])
    && (forall f :: 0 <= f < |uses| && uses[f].Page? ==> mem'[f] == mem[f])
  }

  lemma PagesKeptTrans(m0: Mem, u0: Uses, m1: Mem, u1: Uses, m2: Mem, u2: Uses)
    requires PagesKept(m0, u0, m1, u1) && PagesKept(m1, u1, m2, u2)
    ensures PagesKept(m0, u0, m2, u2)
  {
  }

  // ---------------------------------------------------------------- Elementary changes

  /** The table that entry i of directory d points at. */
  lemma TableAt(mem: Mem, uses: Uses, d: nat, i: nat)
    requires Spaces(mem, uses) && d < NFRAMES && uses[d].Dir? && uses[d].lo <= i < ENTRIES && Present(mem[d][i])
    ensures 0 <= PteFrame(mem[d][i]) < NFRAMES && uses[PteFrame(mem[d][i])] == Table(d, i)
    ensures forall j :: 0 <= j < ENTRIES ==> Entry(mem, d, i, j) == mem[PteFrame(mem[d][i])][j]
  {
    assert DirOk(mem, uses, d, i);
  }

  /** A frame outside the tables may change contents, and use while it is in no address space. */
  lemma RefillKeeps(mem: Mem, uses: Uses, f: nat, p: Frame, u: Use)
    requires Spaces(mem, uses) && f < NFRAMES && |p| == ENTRIES
    requires if u == uses[f] then !uses[f].Dir? && !uses[f].Table? else uses[f] in {Free, Held} && u in {Free, Held}
    ensures Spaces(mem[f := p], uses[f := u])
    ensures forall d, i, j :: 0 <= d < NFRAMES && uses[d].Dir? && uses[d].lo <= i < ENTRIES && 0 <= j < ENTRIES ==>
              Entry(mem[f := p], d, i, j) == Entry(mem, d, i, j)
  {
    var mem', uses' := mem[f := p], uses[f := u];
    forall d, i, j | 0 <= d < NFRAMES && uses[d].Dir? && uses[d].lo <= i < ENTRIES && 0 <= j < ENTRIES
      ensures Entry(mem', d, i, j) == Entry(mem, d, i, j)
    {
      if Present(mem[d][i]) { TableAt(mem, uses, d, i); }
    }
    forall t, j | 0 <= t < NFRAMES && uses'[t].Table? && uses'[t].i < USER && 0 <= j < ENTRIES
      ensures LeafOk(mem', uses', t, j)
    {
      assert LeafOk(mem, uses, t, j);
    }
    forall d, i | 0 <= d < NFRAMES && uses'[d].Dir? && uses'[d].lo <= i < ENTRIES ensures DirOk(mem', uses', d, i) {
      assert DirOk(mem, uses, d, i);
    }
    forall t | 0 <= t < NFRAMES && uses'[t].Table? ensures TableHeld(mem', uses', t) {
      assert TableHeld(mem, uses, t);
    }
    forall g | 0 <= g < NFRAMES && uses'[g].Page? ensures PageHeld(mem', uses', g) {
      assert PageHeld(mem, uses, g);
    }
  }

  /** The page table memory with word j of frame f replaced. */
  function Put(mem: Mem, f: nat, j: nat, w: Word): (r: Mem)
    requires f < |mem| && j < |mem[f]|
    ensures |r| == |mem| && |r[f]| == |mem[f]| && r[f][j] == w
    ensures forall k :: 0 <= k < |mem[f]| && k != j ==> r[f][k] == mem[f][k]
    ensures forall g :: 0 <= g < |mem| && g != f ==> r[g] == mem[g]
  {
    mem[f := mem[f][j := w]]
  }

  predicate Blank(p: Frame) {
    |p| == ENTRIES && forall j :: 0 <= j < ENTRIES ==> p[j] == 0
  }

  /** A blank table in place of a missing one changes no entry. */
  lemma AddTableKeeps(mem: Mem, uses: Uses, d: nat, i: nat, t: nat)
    requires Spaces(mem, uses) && d < NFRAMES && uses[d].Dir? && uses[d].lo <= i < ENTRIES && !Present(mem[d][i])
    requires t < NFRAMES && uses[t] == Held && Blank(mem[t])
    ensures
      var mem', uses' := Put(mem, d, i, Pte(t, 7)), uses[t := Table(d, i)];
      && Spaces(mem', uses') && Present(mem'[d][i]) && PteFrame(mem'[d][i]) == t
      && (forall e, k, j :: 0 <= e < NFRAMES && uses[e].Dir? && uses[e].lo <= k < ENTRIES && 0 <= j < ENTRIES ==>
            Entry(mem', e, k, j) == Entry(mem, e, k, j))
  {
    PteParts(t, 7);
    hide Pte, Blank;
    var mem', uses' := Put(mem, d, i, Pte(t, 7)), uses[t := Table(d, i)];
    forall e, k, j | 0 <= e < NFRAMES && uses[e].Dir? && uses[e].lo <= k < ENTRIES && 0 <= j < ENTRIES
      ensures Entry(mem', e, k, j) == Entry(mem, e, k, j)
    {
      if Present(mem[e][k]) { TableAt(mem, uses, e, k); }
      if e == d && k == i { BlankAt(mem[t], j); }
    }
    forall e, k | 0 <= e < NFRAMES && uses'[e].Dir? && uses'[e].lo <= k < ENTRIES ensures DirOk(mem', uses', e, k) {
      assert DirOk(mem, uses, e, k);
    }
    forall s, j | 0 <= s < NFRAMES && uses'[s].Table? && uses'[s].i < USER && 0 <= j < ENTRIES
      ensures LeafOk(mem', uses', s, j)
    {
      if s == t { BlankAt(mem[t], j); } else { assert LeafOk(mem, uses, s, j); }
    }
    forall s | 0 <= s < NFRAMES && uses'[s].Table? ensures TableHeld(mem', uses', s) {
      if s != t { assert TableHeld(mem, uses, s); }
    }
    forall g | 0 <= g < NFRAMES && uses'[g].Page? ensures PageHeld(mem', uses', g) {
      assert PageHeld(mem, uses, g);
    }
  }

  lemma BlankAt(p: Frame, j: nat)
    requires Blank(p) && j < ENTRIES
    ensures p[j] == 0 && !Present(p[j])
  {
  }

  /** What the uses become when entry (i, j) of d is set: a mapped user page belongs to it, an unmapped one to no one. */
  predicate Remapped(mem: Mem, uses: Uses, uses': Uses, d: nat, i: nat, j: nat, w: Word)
    requires Sized(mem, uses)
  {
    var was := Entry(mem, d, i, j);
    if i >= USER then uses' == uses
    else if Present(w) then
      var f := PteFrame(w);
      !Present(was) && 0 <= f < NFRAMES && uses[f] == Held && uses' == uses[f := Page(d, i, j)]
    else
      var f := PteFrame(was);
      Present(was) && 0 <= f < NFRAMES && uses' == uses[f := Held]
  }

  /** Setting an entry changes that entry and no other, of this or any address space. */
  lemma SetLeafEntries(mem: Mem, uses: Uses, d: nat, i: nat, j: nat, w: Word)
    requires Spaces(mem, uses) && d < NFRAMES && uses[d].Dir? && uses[d].lo <= i < ENTRIES && j < ENTRIES && Present(mem[d][i])
    ensures 0 <= PteFrame(mem[d][i]) < NFRAMES
    ensures
      var mem' := Put(mem, PteFrame(mem[d][i]), j, w);
      forall e, k, l :: 0 <= e < NFRAMES && uses[e].Dir? && uses[e].lo <= k < ENTRIES && 0 <= l < ENTRIES ==>
        Entry(mem', e, k, l) == if e == d && k == i && l == j then w else Entry(mem, e, k, l)
  {
    TableAt(mem, uses, d, i);
    var mem' := Put(mem, PteFrame(mem[d][i]), j, w);
    forall e, k, l | 0 <= e < NFRAMES && uses[e].Dir? && uses[e].lo <= k < ENTRIES && 0 <= l < ENTRIES
      ensures Entry(mem', e, k, l) == if e == d && k == i && l == j then w else Entry(mem, e, k, l)
    {
      if Present(mem[e][k]) { TableAt(mem, uses, e, k); }
    }
  }

  lemma SetLeafKeeps(mem: Mem, uses: Uses, uses': Uses, d: nat, i: nat, j: nat, w: Word)
    requires Spaces(mem, uses) && d < NFRAMES && uses[d].Dir? && uses[d].lo <= i < ENTRIES && j < ENTRIES && Present(mem[d][i])
    requires Remapped(mem, uses, uses', d, i, j, w)
    ensures 0 <= PteFrame(mem[d][i]) < NFRAMES
    ensures Spaces(Put(mem, PteFrame(mem[d][i]), j, w), uses')
  {
    TableAt(mem, uses, d, i);
    SetLeafEntries(mem, uses, d, i, j, w);
    var t := PteFrame(mem[d][i]);
    var mem' := Put(mem, t, j, w);
    if i < USER { assert LeafOk(mem, uses, t, j); }
    forall e, k | 0 <= e < NFRAMES && uses'[e].Dir? && uses'[e].lo <= k < ENTRIES ensures DirOk(mem', uses', e, k) {
      assert DirOk(mem, uses, e, k);
    }
    forall s, l | 0 <= s < NFRAMES && uses'[s].Table? && uses'[s].i < USER && 0 <= l < ENTRIES
      ensures LeafOk(mem', uses', s, l)
    {
      assert LeafOk(mem, uses, s, l);
      assert TableHeld(mem, uses, s);
    }
    forall s | 0 <= s < NFRAMES && uses'[s].Table? ensures TableHeld(mem', uses', s) {
      assert TableHeld(mem, uses, s);
    }
    forall g | 0 <= g < NFRAMES && uses'[g].Page? ensures PageHeld(mem', uses', g) {
      if uses[g].Page? { assert PageHeld(mem, uses, g); }
    }
  }

  /** A blank frame becomes an empty address space. */
  lemma NewDirKeeps(mem: Mem, uses: Uses, d: nat)
    requires Spaces(mem, uses) && d < NFRAMES && uses[d] == Held && Blank(mem[d])
    ensures Spaces(mem, uses[d := Dir(0)])
    ensures forall i, j :: 0 <= i < ENTRIES && 0 <= j < ENTRIES ==> Entry(mem, d, i, j) == 0
  {
    var uses' := uses[d := Dir(0)];
    forall i | 0 <= i < ENTRIES ensures mem[d][i] == 0 { BlankAt(mem[d], i); }
    forall e, k | 0 <= e < NFRAMES && uses'[e].Dir? && uses'[e].lo <= k < ENTRIES ensures DirOk(mem, uses', e, k) {
      if e == d { BlankAt(mem[d], k); } else { assert DirOk(mem, uses, e, k); }
    }
    forall s, l | 0 <= s < NFRAMES && uses'[s].Table? && uses'[s].i < USER && 0 <= l < ENTRIES
      ensures LeafOk(mem, uses', s, l)
    {
      assert LeafOk(mem, uses, s, l);
    }
    forall s | 0 <= s < NFRAMES && uses'[s].Table? ensures TableHeld(mem, uses', s) {
      assert TableHeld(mem, uses, s);
    }
    forall g | 0 <= g < NFRAMES && uses'[g].Page? ensures PageHeld(mem, uses', g) {
      assert PageHeld(mem, uses, g);
    }
  }

  /** No user page of d is left. */
  predicate NoPages(uses: Uses, d: nat) {
    forall f :: 0 <= f < |uses| && uses[f].Page? ==> uses[f].d != d
  }

  /** Giving back the table of entry i, the lowest not yet given back. */
  lemma DropTableKeeps(mem: Mem, uses: Uses, d: nat, i: nat)
    requires Spaces(mem, uses) && d < NFRAMES && uses[d] == Dir(i) && i < ENTRIES && NoPages(uses, d)
    ensures Present(mem[d][i]) ==> 0 <= PteFrame(mem[d][i]) < NFRAMES && uses[PteFrame(mem[d][i])] == Table(d, i)
    ensures
      var uses1 := if Present(mem[d][i]) then uses[PteFrame(mem[d][i]) := Held] else uses;
      Spaces(mem, uses1[d := Dir(i + 1)])
  {
    if Present(mem[d][i]) { TableAt(mem, uses, d, i); }
    var uses1 := if Present(mem[d][i]) then uses[PteFrame(mem[d][i]) := Held] else uses;
    var uses' := uses1[d := Dir(i + 1)];
    forall e, k | 0 <= e < NFRAMES && uses'[e].Dir? && uses'[e].lo <= k < ENTRIES ensures DirOk(mem, uses', e, k) {
      assert DirOk(mem, uses, e, k);
    }
    forall s, l | 0 <= s < NFRAMES && uses'[s].Table? && uses'[s].i < USER && 0 <= l < ENTRIES
      ensures LeafOk(mem, uses', s, l)
    {
      assert LeafOk(mem, uses, s, l);
    }
    forall s | 0 <= s < NFRAMES && uses'[s].Table? ensures TableHeld(mem, uses', s) {
      assert TableHeld(mem, uses, s);
    }
    forall g | 0 <= g < NFRAMES && uses'[g].Page? ensures PageHeld(mem, uses', g) {
      assert PageHeld(mem, uses, g);
    }
  }

  /** The directory itself, once all its tables are gone. */
  lemma DropDirKeeps(mem: Mem, uses: Uses, d: nat)
    requires Spaces(mem, uses) && d < NFRAMES && uses[d] == Dir(ENTRIES)
    ensures Spaces(mem, uses[d := Held])
    ensures forall f :: 0 <= f < NFRAMES && f != d ==> !Mine(uses[f], d, f)
  {
    var uses' := uses[d := Held];
    forall f | 0 <= f < NFRAMES && f != d ensures !Mine(uses[f], d, f) {
      if uses[f].Table? { assert TableHeld(mem, uses, f); }
      if uses[f].Page? { assert PageHeld(mem, uses, f); }
    }
    forall e, k | 0 <= e < NFRAMES && uses'[e].Dir? && uses'[e].lo <= k < ENTRIES ensures DirOk(mem, uses', e, k) {
      assert DirOk(mem, uses, e, k);
    }
    forall s, l | 0 <= s < NFRAMES && uses'[s].Table? && uses'[s].i < USER && 0 <= l < ENTRIES
      ensures LeafOk(mem, uses', s, l)
    {
      assert LeafOk(mem, uses, s, l);
    }
    forall s | 0 <= s < NFRAMES && uses'[s].Table? ensures TableHeld(mem, uses', s) {
      assert TableHeld(mem, uses, s);
    }
    forall g | 0 <= g < NFRAMES && uses'[g].Page? ensures PageHeld(mem, uses', g) {
      assert PageHeld(mem, uses, g);
    }
  }
}
