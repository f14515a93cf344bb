/**
  Free blocks and log records (fs.c): how many blocks a range of a file lacks, how many are free, and
  which blocks an operation has logged.
 */
module FsSpace {
  import opened FsFormat
  import opened FsImage
  import opened Sets

  // ---------------------------------------------------------------- free blocks

  function Spare(sb: Super, owner: Owner): int { sb.size - sb.nmeta - |owner| }

  /** The disk is full exactly when no block is left over. */
  lemma SpareIs(sb: Super, blocks: seq<Block>, inodes: seq<Inode>, owner: Owner)
    requires Image(sb, blocks, inodes, owner)
    ensures Layout(sb) && |blocks| == sb.size && Spare(sb, owner) >= 0
    ensures Spare(sb, owner) == 0 <==> forall c :: 0 <= c < sb.size ==> Used(sb, blocks, c)
  {
    hide Used, Owned;
    OwnedShape(sb, blocks, inodes, owner, 0, 0);
    var all := Interval(sb.nmeta, sb.size);
    IntervalCount(sb.nmeta, sb.size);
    forall b | b in owner.Keys ensures b in all { }
    SubsetCount(owner.Keys, all);
    if forall c :: 0 <= c < sb.size ==> Used(sb, blocks, c) {
      assert owner.Keys == all;
    } else {
      var c: nat :| c < sb.size && !Used(sb, blocks, c);
      SubsetCount(owner.Keys, all - {c});
    }
  }

  /** File blocks lo..hi that have no block yet. */
  function Holes(blocks: seq<Block>, ino: Inode, lo: nat, hi: nat): nat
    requires Shaped(ino) && hi <= MAXFILE
  {
    if lo >= hi then 0 else Holes(blocks, ino, lo, hi - 1) + if Ref(blocks, ino, Slot(hi - 1)) == 0 then 1 else 0
  }

  /** Blocks to allocate before file blocks lo..hi are all there, the indirect block included. */
  function Lack(blocks: seq<Block>, ino: Inode, lo: nat, hi: nat): nat
    requires Shaped(ino) && hi <= MAXFILE
  {
    Holes(blocks, ino, lo, hi) + if lo < hi && hi > NDIRECT && ino.addrs[NDIRECT] == 0 then 1 else 0
  }

  lemma LackOne(blocks: seq<Block>, ino: Inode, n: nat)
    requires Shaped(ino) && n < MAXFILE
    ensures Lack(blocks, ino, n, n + 1) ==
            (if Ref(blocks, ino, Slot(n)) == 0 then 1 else 0) + if n >= NDIRECT && ino.addrs[NDIRECT] == 0 then 1 else 0
  {
    assert Holes(blocks, ino, n, n) == 0;
  }

  lemma {:induction false} HolesMore(blocks: seq<Block>, ino: Inode, lo: nat, mid: nat, hi: nat)
    requires Shaped(ino) && lo <= mid <= hi <= MAXFILE
    ensures Holes(blocks, ino, lo, mid) <= Holes(blocks, ino, lo, hi)
    decreases hi
  {
    if mid < hi { HolesMore(blocks, ino, lo, mid, hi - 1); }
  }

  // ---------------------------------------------------------------- changing the slots of one file block

  /** All slots are as they were, but for that of file block n of inode i and the indirect block that it needs. */
  ghost predicate Elsewhere(b0: seq<Block>, i0: seq<Inode>, b1: seq<Block>, i1: seq<Inode>, i: nat, n: nat)
    requires n < MAXFILE
  {
    && |i0| == |i1|
    && (forall j :: 0 <= j < |i0| ==> Shaped(i0[j]) && Shaped(i1[j]))
    && (forall j, l :: 0 <= j < |i0| && 0 <= l < SLOTS && !(j == i && (l == Slot(n) || (l == NDIRECT <= n))) ==>
         Ref(b1, i1[j], l) == Ref(b0, i0[j], l))
  }

  lemma ElsewhereRefl(b: seq<Block>, inodes: seq<Inode>, i: nat, n: nat)
    requires n < MAXFILE && forall j :: 0 <= j < |inodes| ==> Shaped(inodes[j])
    ensures Elsewhere(b, inodes, b, inodes, i, n)
  {
  }

  lemma ElsewhereTrans(b0: seq<Block>, i0: seq<Inode>, b1: seq<Block>, i1: seq<Inode>, b2: seq<Block>, i2: seq<Inode>,
                       i: nat, n: nat)
    requires n < MAXFILE && Elsewhere(b0, i0, b1, i1, i, n) && Elsewhere(b1, i1, b2, i2, i, n)
    ensures Elsewhere(b0, i0, b2, i2, i, n)
  {
  }

  lemma SetElsewhere(b0: seq<Block>, i0: seq<Inode>, b1: seq<Block>, i1: seq<Inode>, i: nat, k: nat, r: nat, n: nat)
    requires n < MAXFILE && RefSet(b0, i0, b1, i1, i, k, r) && (k == Slot(n) || k == NDIRECT <= n)
    ensures Elsewhere(b0, i0, b1, i1, i, n)
  {
  }

  lemma SameElsewhere(b0: seq<Block>, i0: seq<Inode>, b1: seq<Block>, i1: seq<Inode>, b2: seq<Block>, i: nat, n: nat)
    requires n < MAXFILE && Elsewhere(b0, i0, b1, i1, i, n)
    requires forall j, l :: 0 <= j < |i1| && 0 <= l < SLOTS ==> Ref(b2, i1[j], l) == Ref(b1, i1[j], l)
    ensures Elsewhere(b0, i0, b2, i1, i, n)
  {
  }

  // ---------------------------------------------------------------- what was logged

  /** Every block that changed has been logged, and none below the free map changed. */
  ghost predicate Trace(sb: Super, b0: seq<Block>, l0: set<nat>, b1: seq<Block>, l1: set<nat>) {
    && |b1| == |b0| && l0 <= l1
    && forall b :: 0 <= b < |b0| && b1[b] != b0[b] ==> b in l1 && sb.bmapstart <= b
  }

  lemma TraceRefl(sb: Super, b: seq<Block>, l: set<nat>)
    ensures Trace(sb, b, l, b, l)
  {
  }

  lemma TraceTrans(sb: Super, b0: seq<Block>, l0: set<nat>, b1: seq<Block>, l1: set<nat>, b2: seq<Block>, l2: set<nat>)
    requires Trace(sb, b0, l0, b1, l1) && Trace(sb, b1, l1, b2, l2)
    ensures Trace(sb, b0, l0, b2, l2)
  {
  }

  lemma TraceSet(sb: Super, b0: seq<Block>, l0: set<nat>, b1: seq<Block>, l1: set<nat>, at: nat, data: Block)
    requires Trace(sb, b0, l0, b1, l1) && sb.bmapstart <= at < |b1|
    ensures Trace(sb, b0, l0, b1[at := data], l1 + {at})
  {
  }

  /** If file block n was not there, its block, the free-map block of that and the indirect block are logged. */
  predicate Noted(sb: Super, b0: seq<Block>, ino: Inode, b1: seq<Block>, ino': Inode, logged: set<nat>, n: nat)
    requires Shaped(ino) && Shaped(ino') && n < MAXFILE
  {
    Ref(b0, ino, Slot(n)) == 0 ==>
      var r := Ref(b1, ino', Slot(n));
      r in logged && sb.bmapstart + r / BPB in logged && (n >= NDIRECT ==> ino'.addrs[NDIRECT] in logged)
  }

  // ---------------------------------------------------------------- block after block

  /** File blocks lo..mid of inode i are there now, and those after them are as they were. */
  ghost predicate Fetched(b0: seq<Block>, i0: seq<Inode>, o0: Owner, b1: seq<Block>, i1: seq<Inode>, o1: Owner,
                          i: nat, lo: nat, mid: nat) {
    && i < |i0| == |i1| && Shaped(i0[i]) && Shaped(i1[i]) && lo <= mid <= MAXFILE
    && |o1| == |o0| + Lack(b0, i0[i], lo, mid)
    && (forall n :: lo <= n < mid ==> Ref(b1, i1[i], Slot(n)) != 0)
    && (forall n :: mid <= n < MAXFILE ==> Ref(b1, i1[i], Slot(n)) == Ref(b0, i0[i], Slot(n)))
    && (if lo < mid && mid > NDIRECT then i1[i].addrs[NDIRECT] != 0 else i1[i].addrs[NDIRECT] == i0[i].addrs[NDIRECT])
  }

  lemma FetchedNone(b0: seq<Block>, i0: seq<Inode>, o0: Owner, i: nat, lo: nat)
    requires i < |i0| && Shaped(i0[i]) && lo <= MAXFILE
    ensures Fetched(b0, i0, o0, b0, i0, o0, i, lo, lo)
  {
  }

  lemma FetchedMore(b0: seq<Block>, i0: seq<Inode>, o0: Owner, b1: seq<Block>, i1: seq<Inode>, o1: Owner,
                    b2: seq<Block>, i2: seq<Inode>, o2: Owner, i: nat, lo: nat, mid: nat)
    requires Fetched(b0, i0, o0, b1, i1, o1, i, lo, mid) && mid < MAXFILE && Elsewhere(b1, i1, b2, i2, i, mid)
    requires |o2| == |o1| + Lack(b1, i1[i], mid, mid + 1) && Ref(b2, i2[i], Slot(mid)) != 0
    ensures Fetched(b0, i0, o0, b2, i2, o2, i, lo, mid + 1)
  {
    LackOne(b1, i1[i], mid);
    assert Ref(b2, i2[i], NDIRECT) == i2[i].addrs[NDIRECT] && Ref(b1, i1[i], NDIRECT) == i1[i].addrs[NDIRECT];
    forall n | lo <= n < mid ensures Ref(b2, i2[i], Slot(n)) == Ref(b1, i1[i], Slot(n)) {
      assert Slot(n) != Slot(mid);
    }
    forall n | mid + 1 <= n < MAXFILE ensures Ref(b2, i2[i], Slot(n)) == Ref(b0, i0[i], Slot(n)) {
      assert Slot(n) != Slot(mid);
    }
  }

  /** Too few blocks for the next file block are too few for the range. */
  lemma FetchedShort(sb: Super, b0: seq<Block>, i0: seq<Inode>, o0: Owner, b1: seq<Block>, i1: seq<Inode>, o1: Owner,
                     i: nat, lo: nat, mid: nat, hi: nat)
    requires Fetched(b0, i0, o0, b1, i1, o1, i, lo, mid) && mid < hi <= MAXFILE
    requires Spare(sb, o1) < Lack(b1, i1[i], mid, mid + 1)
    ensures Spare(sb, o0) < Lack(b0, i0[i], lo, hi)
  {
    hide Ref;
    LackOne(b1, i1[i], mid);
    HolesMore(b0, i0[i], lo, mid + 1, hi);
  }

  lemma {:induction false} HolesSplit(blocks: seq<Block>, ino: Inode, lo: nat, mid: nat, hi: nat)
    requires Shaped(ino) && lo <= mid <= hi <= MAXFILE
    ensures Holes(blocks, ino, lo, hi) == Holes(blocks, ino, lo, mid) + Holes(blocks, ino, mid, hi)
    decreases hi
  {
    if mid < hi { HolesSplit(blocks, ino, lo, mid, hi - 1); }
  }

  lemma {:induction false} HolesSame(b0: seq<Block>, ino: Inode, b1: seq<Block>, ino': Inode, lo: nat, hi: nat)
    requires Shaped(ino) && Shaped(ino') && hi <= MAXFILE
    requires forall n :: lo <= n < hi ==> Ref(b1, ino', Slot(n)) == Ref(b0, ino, Slot(n))
    ensures Holes(b1, ino', lo, hi) == Holes(b0, ino, lo, hi)
    decreases hi
  {
    if lo < hi { HolesSame(b0, ino, b1, ino', lo, hi - 1); }
  }

  lemma {:induction false} NoHoles(blocks: seq<Block>, ino: Inode, lo: nat, hi: nat)
    requires Shaped(ino) && hi <= MAXFILE
    ensures Holes(blocks, ino, lo, hi) == 0 <==> forall n :: lo <= n < hi ==> Ref(blocks, ino, Slot(n)) != 0
    decreases hi
  {
    if lo < hi { NoHoles(blocks, ino, lo, hi - 1); }
  }

  function Max(a: nat, b: nat): nat { if a < b then b else a }

  /** What a range lacks when an earlier one was fetched, and what both lack together. */
  lemma LackThen(b0: seq<Block>, i0: seq<Inode>, o0: Owner, b1: seq<Block>, i1: seq<Inode>, o1: Owner,
                 i: nat, lo: nat, mid: nat, n: nat, m: nat)
    requires Fetched(b0, i0, o0, b1, i1, o1, i, lo, mid) && lo <= n <= mid && n <= m <= MAXFILE
    ensures Lack(b0, i0[i], lo, Max(mid, m)) == Lack(b0, i0[i], lo, mid) + Lack(b1, i1[i], n, m)
  {
    hide Ref;
    if m <= mid {
      NoHoles(b1, i1[i], n, m);
    } else {
      HolesSplit(b0, i0[i], lo, mid, m);
      HolesSplit(b1, i1[i], n, mid, m);
      NoHoles(b1, i1[i], n, mid);
      HolesSame(b0, i0[i], b1, i1[i], mid, m);
    }
  }

  lemma FetchedThen(b0: seq<Block>, i0: seq<Inode>, o0: Owner, b1: seq<Block>, i1: seq<Inode>, o1: Owner,
                    b2: seq<Block>, i2: seq<Inode>, o2: Owner, i: nat, lo: nat, mid: nat, n: nat, m: nat)
    requires Fetched(b0, i0, o0, b1, i1, o1, i, lo, mid) && lo <= n <= mid
    requires Fetched(b1, i1, o1, b2, i2, o2, i, n, m) && RefsKept(b1, i1, b2, i2)
    ensures Fetched(b0, i0, o0, b2, i2, o2, i, lo, Max(mid, m))
  {
    hide Lack;
    LackThen(b0, i0, o0, b1, i1, o1, i, lo, mid, n, m);
    assert Ref(b2, i2[i], NDIRECT) == i2[i].addrs[NDIRECT] && Ref(b1, i1[i], NDIRECT) == i1[i].addrs[NDIRECT];
    forall l | lo <= l < Max(mid, m) ensures Ref(b2, i2[i], Slot(l)) != 0 {
      if l < mid { assert Ref(b1, i1[i], Slot(l)) != 0; }
    }
  }

  /** File blocks lo..mid are there and logged, and whatever it took to get them. */
  ghost predicate Recorded(sb: Super, b0: seq<Block>, i0: seq<Inode>, b1: seq<Block>, i1: seq<Inode>, logged: set<nat>,
                           i: nat, lo: nat, mid: nat) {
    && i < |i0| == |i1| && Shaped(i0[i]) && Shaped(i1[i]) && mid <= MAXFILE
    && forall n :: lo <= n < mid ==>
         && Ref(b1, i1[i], Slot(n)) != 0 && Ref(b1, i1[i], Slot(n)) in logged
         && Noted(sb, b0, i0[i], b1, i1[i], logged, n)
  }

  lemma RecordedMore(sb: Super, b0: seq<Block>, i0: seq<Inode>, o0: Owner, b1: seq<Block>, i1: seq<Inode>, o1: Owner,
                     l1: set<nat>, b2: seq<Block>, i2: seq<Inode>, l2: set<nat>, i: nat, lo: nat, mid: nat)
    requires Recorded(sb, b0, i0, b1, i1, l1, i, lo, mid) && Fetched(b0, i0, o0, b1, i1, o1, i, lo, mid)
    requires mid < MAXFILE && RefsKept(b1, i1, b2, i2) && l1 <= l2
    requires Ref(b2, i2[i], Slot(mid)) != 0 && Ref(b2, i2[i], Slot(mid)) in l2 && Noted(sb, b1, i1[i], b2, i2[i], l2, mid)
    ensures Recorded(sb, b0, i0, b2, i2, l2, i, lo, mid + 1)
  {
    hide Lack;
    forall n | lo <= n < mid + 1
      ensures Ref(b2, i2[i], Slot(n)) != 0 && Ref(b2, i2[i], Slot(n)) in l2 && Noted(sb, b0, i0[i], b2, i2[i], l2, n)
    {
      if n < mid { RecordedKept(sb, b0, i0[i], b1, i1, b2, i2, l1, l2, i, n); }
    }
  }

  lemma RecordedKept(sb: Super, b0: seq<Block>, ino: Inode, b1: seq<Block>, i1: seq<Inode>, b2: seq<Block>, i2: seq<Inode>,
                     l1: set<nat>, l2: set<nat>, i: nat, n: nat)
    requires Shaped(ino) && i < |i1| && n < MAXFILE && RefsKept(b1, i1, b2, i2) && l1 <= l2
    requires Ref(b1, i1[i], Slot(n)) != 0 && Ref(b1, i1[i], Slot(n)) in l1 && Noted(sb, b0, ino, b1, i1[i], l1, n)
    ensures Ref(b2, i2[i], Slot(n)) == Ref(b1, i1[i], Slot(n)) && Noted(sb, b0, ino, b2, i2[i], l2, n)
  {
    assert Ref(b1, i1[i], NDIRECT) == i1[i].addrs[NDIRECT] && Ref(b2, i2[i], NDIRECT) == i2[i].addrs[NDIRECT];
  }
}
