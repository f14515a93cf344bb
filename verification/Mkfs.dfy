/**
  mkfs.c: the image it builds satisfies the ownership invariant that fs.c keeps, and its files hold
  what was appended to them.
 */
module Mkfs {
  import opened FsFormat
  import opened FsImage
  import opened FsSpace
  import opened FileSystem
  import opened Sets
  import Directory

  const NINODES: nat := 200
  const NLOG: nat := 30
  /** NINODES / IPB + 1 */
  const NINODEBLOCKS: nat := 26
  /** FSSIZE / (BSIZE*8) + 1 */
  const NBITMAP: nat := 5
  const NMETA: nat := 63
  const ROOTINO: nat := 1

  /** [ boot | super | log | inodes | free map | data ] */
  const SB := Super(FSSIZE, 2 + NLOG, 2 + NLOG + NINODEBLOCKS, NMETA)

  lemma LayoutOk()
    ensures Layout(SB) && SB == Super(20000, 32, 58, 63) && NINODES == 200
    ensures NINODEBLOCKS == NINODES / IPB + 1 && NBITMAP == FSSIZE / (BSIZE * 8) + 1
    ensures NMETA == 2 + NLOG + NINODEBLOCKS + NBITMAP == SB.bmapstart + NBITMAP
  {
  }

  /** The image under construction: the blocks handed out so far are those from NMETA to freeblock, each
      named once, and the rest of the disk is zero. */
  ghost predicate Building(blocks: seq<Block>, inodes: seq<Inode>, owner: Owner, freeblock: nat) {
    && Owned(SB, blocks, inodes, owner, 0, 0)
    && SB.nmeta <= freeblock <= SB.size
    && (forall b :: b in owner <==> SB.nmeta <= b < freeblock)
    && (forall b :: freeblock <= b < SB.size ==> blocks[b] == ZeroBlock())
    && (forall b :: SB.bmapstart <= b < SB.nmeta ==> blocks[b] == ZeroBlock())
  }

  /** The bytes of file i above its size are zero. */
  ghost predicate ZeroTail(blocks: seq<Block>, ino: Inode) {
    Shaped(ino) && forall p :: ino.size <= p < MAXBYTES ==> FileByte(blocks, ino, p) == 0
  }

  lemma TakeBlock(blocks: seq<Block>, inodes: seq<Inode>, owner: Owner, freeblock: nat, i: nat, k: nat)
    requires Building(blocks, inodes, owner, freeblock) && freeblock < SB.size && i < |inodes| && k < SLOTS
    requires Ref(blocks, inodes[i], k) == 0 && (k > NDIRECT ==> inodes[i].addrs[NDIRECT] != 0)
    ensures k > NDIRECT ==> 0 < inodes[i].addrs[NDIRECT] < |blocks|
    ensures
      var blocks' := BindBlocks(blocks, inodes[i], k, freeblock);
      var inodes' := inodes[i := BindInode(inodes[i], k, freeblock)];
      && Building(blocks', inodes', owner[freeblock := (i, k)], freeblock + 1)
      && Ref(blocks', inodes'[i], k) == freeblock > 0
      && SameFiles(blocks, inodes, blocks', inodes') && RefSet(blocks, inodes, blocks', inodes', i, k, freeblock)
      && (k > NDIRECT ==> inodes' == inodes)
  {
    hide Ref, FileBlock, BindBlocks, SameFiles, RefsKept, RefSet, Layout;
    BindFresh(SB, blocks, inodes, owner, i, k, freeblock);
  }

  lemma PutBytes(blocks: seq<Block>, inodes: seq<Inode>, owner: Owner, freeblock: nat, i: nat, off: nat, src: seq<Byte>)
    requires Building(blocks, inodes, owner, freeblock) && i < |inodes|
    requires off / BSIZE < MAXFILE && off % BSIZE + |src| <= BSIZE
    requires Ref(blocks, inodes[i], Slot(off / BSIZE)) != 0
    ensures
      var r := Ref(blocks, inodes[i], Slot(off / BSIZE));
      && r < |blocks|
      && var blocks' := blocks[r := Splice(blocks[r], off % BSIZE, src)];
         && Building(blocks', inodes, owner, freeblock)
         && OtherFiles(blocks, inodes, blocks', inodes, i)
         && Wrote(blocks, inodes[i], blocks', inodes[i], off, src)
         && (forall j, k :: 0 <= j < |inodes| && 0 <= k < SLOTS ==> Ref(blocks', inodes[j], k) == Ref(blocks, inodes[j], k))
  {
    var n := off / BSIZE;
    var r := Ref(blocks, inodes[i], Slot(n));
    assert r in owner;
    var data := Splice(blocks[r], off % BSIZE, src);
    StoreOwned(SB, blocks, inodes, owner, i, n, data);
    assert blocks[r] == FileBlock(blocks, inodes[i], n);
    WroteBlock(blocks, inodes[i], blocks[r := data], inodes[i], off, src);
  }

  lemma RefAddr(blocks: seq<Block>, ino: Inode, k: nat)
    requires Shaped(ino) && k <= NDIRECT
    ensures Ref(blocks, ino, k) == ino.addrs[k]
  {
  }

  lemma NoEntry(blocks: seq<Block>, ino: Inode, fbn: nat)
    requires Shaped(ino) && NDIRECT <= fbn < MAXFILE
    ensures ino.addrs[NDIRECT] == 0 ==> Ref(blocks, ino, Slot(fbn)) == 0
  {
  }

  /** A slot was filled or had a block already; slot l then reads as it did, unless it is k. */
  lemma EnsuredElsewhere(b0: seq<Block>, i0: seq<Inode>, b1: seq<Block>, i1: seq<Inode>, i: nat, k: nat, r: nat, fbn: nat)
    requires fbn < MAXFILE && (k == Slot(fbn) || k == NDIRECT <= fbn) && i < |i0|
    requires (forall j :: 0 <= j < |i0| ==> Shaped(i0[j]))
    requires (b1 == b0 && i1 == i0) || RefSet(b0, i0, b1, i1, i, k, r)
    ensures Elsewhere(b0, i0, b1, i1, i, fbn) && |i1| == |i0| && Shaped(i1[i])
    ensures k == NDIRECT ==> Ref(b1, i1[i], Slot(fbn)) == Ref(b0, i0[i], Slot(fbn))
  {
    if b1 == b0 && i1 == i0 {
      ElsewhereRefl(b0, i0, i, fbn);
    } else {
      SetElsewhere(b0, i0, b1, i1, i, k, r, fbn);
    }
  }

  function EmptyInode(): Inode {
    Inode(seq(NDIRECT + 1, _ => 0), 0)
  }

  /** The inodes not handed out yet are empty. */
  ghost predicate Untouched(inodes: seq<Inode>, freeinode: nat) {
    freeinode <= |inodes| && forall j :: freeinode <= j < |inodes| ==> inodes[j] == EmptyInode()
  }

  // ---------------------------------------------------------------- how many blocks a file takes

  /** Blocks of a file of n bytes, the indirect block included. */
  function Cost(n: nat): nat { (n + BSIZE - 1) / BSIZE + if n > NDIRECT * BSIZE then 1 else 0 }

  lemma CostMore(n: nat, m: nat)
    requires n <= m
    ensures Cost(n) <= Cost(m)
  {
  }

  /** The file has exactly the blocks that its first e bytes need. */
  ghost predicate TightTo(blocks: seq<Block>, ino: Inode, e: nat) {
    && Shaped(ino)
    && (forall n :: 0 <= n < MAXFILE ==> (Ref(blocks, ino, Slot(n)) != 0 <==> n * BSIZE < e))
    && (Ref(blocks, ino, NDIRECT) != 0 <==> NDIRECT * BSIZE < e)
  }

  ghost predicate Tight(blocks: seq<Block>, ino: Inode) {
    TightTo(blocks, ino, ino.size)
  }

  /** What the next n bytes take, if they end in the block where they begin. */
  lemma TurnCost(blocks: seq<Block>, ino: Inode, e: nat, n: nat)
    requires TightTo(blocks, ino, e) && 0 < n && e % BSIZE + n <= BSIZE && e / BSIZE < MAXFILE
    ensures Lack(blocks, ino, e / BSIZE, e / BSIZE + 1) == Cost(e + n) - Cost(e)
  {
    hide Ref, Lack;
    LackOne(blocks, ino, e / BSIZE);
    RefAddr(blocks, ino, NDIRECT);
    EndsBlock(e, n);
  }

  lemma EndsBlock(e: nat, n: nat)
    requires 0 < n && e % BSIZE + n <= BSIZE
    ensures
      var b := e / BSIZE;
      && b * BSIZE <= e < e + n <= (b + 1) * BSIZE && (e + n + BSIZE - 1) / BSIZE == b + 1
      && (e + BSIZE - 1) / BSIZE == (if e % BSIZE == 0 then b else b + 1) && (b * BSIZE < e <==> e % BSIZE != 0)
  {
  }

  lemma TurnTight(b0: seq<Block>, i0: seq<Inode>, b1: seq<Block>, i1: seq<Inode>, i: nat, e: nat, n: nat)
    requires i < |i0| && TightTo(b0, i0[i], e) && 0 < n && e % BSIZE + n <= BSIZE && e / BSIZE < MAXFILE
    requires Elsewhere(b0, i0, b1, i1, i, e / BSIZE) && Ref(b1, i1[i], Slot(e / BSIZE)) != 0
    ensures TightTo(b1, i1[i], e + n)
  {
    var b := e / BSIZE;
    EndsBlock(e, n);
    NoEntryAt(b1, i1[i], b);
    forall m | 0 <= m < MAXFILE ensures Ref(b1, i1[i], Slot(m)) != 0 <==> m * BSIZE < e + n {
      hide Ref;
      if m != b { assert Slot(m) != Slot(b) && Ref(b1, i1[i], Slot(m)) == Ref(b0, i0[i], Slot(m)); }
    }
  }

  lemma NoEntryAt(blocks: seq<Block>, ino: Inode, b: nat)
    requires Shaped(ino) && b < MAXFILE && Ref(blocks, ino, Slot(b)) != 0
    ensures b >= NDIRECT ==> Ref(blocks, ino, NDIRECT) != 0
  {
  }

  /** The other files keep exactly their blocks. */
  ghost predicate TightKept(b0: seq<Block>, i0: seq<Inode>, b1: seq<Block>, i1: seq<Inode>, i: nat) {
    |i1| == |i0| && forall j :: 0 <= j < |i0| && j != i && Tight(b0, i0[j]) ==> Tight(b1, i1[j])
  }

  lemma KeptBy(b0: seq<Block>, i0: seq<Inode>, b1: seq<Block>, i1: seq<Inode>, i: nat, n: nat)
    requires n < MAXFILE && Elsewhere(b0, i0, b1, i1, i, n) && OtherFiles(b0, i0, b1, i1, i)
    ensures TightKept(b0, i0, b1, i1, i)
  {
    hide Ref, FileBlock;
    forall j | 0 <= j < |i0| && j != i && Tight(b0, i0[j]) ensures Tight(b1, i1[j]) {
      assert forall l :: 0 <= l < SLOTS ==> Ref(b1, i1[j], l) == Ref(b0, i0[j], l);
    }
  }

  lemma KeptRefl(blocks: seq<Block>, inodes: seq<Inode>, i: nat)
    ensures TightKept(blocks, inodes, blocks, inodes, i)
  {
  }

  lemma KeptTrans(b0: seq<Block>, i0: seq<Inode>, b1: seq<Block>, i1: seq<Inode>, b2: seq<Block>, i2: seq<Inode>, i: nat)
    requires TightKept(b0, i0, b1, i1, i) && TightKept(b1, i1, b2, i2, i)
    ensures TightKept(b0, i0, b2, i2, i)
  {
    hide Tight;
  }

  /** iappend so far: e bytes, and what they took since the file ended at off. */
  ghost predicate Filled(b0: seq<Block>, i0: seq<Inode>, f0: nat, blocks: seq<Block>, inodes: seq<Inode>, free: nat, i: nat, off: nat, e: nat) {
    && i < |i0| && i < |inodes| && TightKept(b0, i0, blocks, inodes, i)
    && (TightTo(b0, i0[i], off) ==> TightTo(blocks, inodes[i], e) && free == f0 + Cost(e) - Cost(off))
  }

  lemma FilledNone(b0: seq<Block>, i0: seq<Inode>, f0: nat, i: nat, off: nat)
    requires i < |i0|
    ensures Filled(b0, i0, f0, b0, i0, f0, i, off, off)
  {
  }

  lemma FilledMore(b0: seq<Block>, i0: seq<Inode>, f0: nat, b1: seq<Block>, i1: seq<Inode>, f1: nat,
                 b2: seq<Block>, i2: seq<Inode>, f2: nat, i: nat, off: nat, e: nat, n: nat)
    requires Filled(b0, i0, f0, b1, i1, f1, i, off, e) && 0 < n && e % BSIZE + n <= BSIZE && e / BSIZE < MAXFILE && Shaped(i1[i])
    requires OtherFiles(b1, i1, b2, i2, i) && Elsewhere(b1, i1, b2, i2, i, e / BSIZE)
    requires f2 == f1 + Lack(b1, i1[i], e / BSIZE, e / BSIZE + 1) && Ref(b2, i2[i], Slot(e / BSIZE)) != 0
    ensures Filled(b0, i0, f0, b2, i2, f2, i, off, e + n)
  {
    hide TightTo, TightKept, Elsewhere, OtherFiles, Lack, Ref;
    assert |i2| == |i1| by { KeptBy(b1, i1, b2, i2, i, e / BSIZE); KeptIs(b1, i1, b2, i2, i); }
    KeptBy(b1, i1, b2, i2, i, e / BSIZE);
    KeptTrans(b0, i0, b1, i1, b2, i2, i);
    if TightTo(b0, i0[i], off) {
      TurnCost(b1, i1[i], e, n);
      TurnTight(b1, i1, b2, i2, i, e, n);
    }
  }

  lemma KeptIs(b0: seq<Block>, i0: seq<Inode>, b1: seq<Block>, i1: seq<Inode>, i: nat)
    requires TightKept(b0, i0, b1, i1, i)
    ensures |i1| == |i0|
  {
  }

  lemma FilledShort(b0: seq<Block>, i0: seq<Inode>, f0: nat, b1: seq<Block>, i1: seq<Inode>, f1: nat,
                  i: nat, off: nat, e: nat, n: nat, end: nat)
    requires Filled(b0, i0, f0, b1, i1, f1, i, off, e) && 0 < n && e % BSIZE + n <= BSIZE && e / BSIZE < MAXFILE && e + n <= end
    requires Shaped(i1[i]) && f1 + Lack(b1, i1[i], e / BSIZE, e / BSIZE + 1) > SB.size
    ensures TightTo(b0, i0[i], off) ==> f0 + Cost(end) - Cost(off) > SB.size
  {
    hide TightTo, TightKept, Lack;
    if TightTo(b0, i0[i], off) {
      TurnCost(b1, i1[i], e, n);
      CostMore(e + n, end);
    }
  }

  /** No more blocks were taken than there are. */
  lemma FilledBound(b0: seq<Block>, i0: seq<Inode>, f0: nat, blocks: seq<Block>, inodes: seq<Inode>, owner: Owner, free: nat,
                  i: nat, off: nat, e: nat)
    requires Filled(b0, i0, f0, blocks, inodes, free, i, off, e) && Building(blocks, inodes, owner, free)
    ensures TightTo(b0, i0[i], off) ==> f0 + Cost(e) - Cost(off) <= SB.size
  {
  }

  lemma FilledEnd(b0: seq<Block>, i0: seq<Inode>, f0: nat, blocks: seq<Block>, inodes: seq<Inode>, free: nat, i: nat, off: nat, e: nat)
    requires Filled(b0, i0, f0, blocks, inodes, free, i, off, e) && e <= MAXBYTES && Shaped(inodes[i])
    ensures
      var i2 := inodes[i := inodes[i].(size := e)];
      && TightKept(b0, i0, blocks, i2, i)
      && (TightTo(b0, i0[i], off) ==> Tight(blocks, i2[i]) && free == f0 + Cost(e) - Cost(off))
  {
    hide Ref;
    var i2 := inodes[i := inodes[i].(size := e)];
    forall l | 0 <= l < SLOTS ensures Ref(blocks, i2[i], l) == Ref(blocks, inodes[i], l) { ResizeRef(blocks, inodes[i], e, l); }
  }

  class Image {
    var blocks: seq<Block>
    var inodes: seq<Inode>
    var freeinode: nat
    var freeblock: nat
    ghost var owner: Owner

    ghost predicate Valid()
      reads this
    {
      Building(blocks, inodes, owner, freeblock) && Untouched(inodes, freeinode)
    }

    /** A zeroed disk. */
    constructor ()
      ensures Valid() && |inodes| == NINODES && freeinode == 1 && freeblock == NMETA
      ensures forall i :: 0 <= i < NINODES ==> inodes[i] == EmptyInode()
      ensures forall files: seq<File> :: Holds(blocks, inodes, files, 0, [])
    {
      blocks := seq(FSSIZE, _ => ZeroBlock());
      inodes := seq(NINODES, _ => EmptyInode());
      freeinode := 1;
      freeblock := SB.nmeta;
      owner := map[];
    }

    /** Gives slot k of inode i the next free block if it has none; false when the disk is used up. */
    method Ensure(i: nat, k: nat) returns (ok: bool)
      requires Valid() && i < freeinode && k < SLOTS && Shaped(inodes[i]) && (k > NDIRECT ==> inodes[i].addrs[NDIRECT] != 0)
      modifies this`blocks, this`inodes, this`freeblock, this`owner
      ensures Valid() && SameFiles(old(blocks), old(inodes), blocks, inodes)
      ensures i < |inodes| && Shaped(inodes[i]) && freeblock <= old(freeblock) + 1
      ensures ok ==> Ref(blocks, inodes[i], k) != 0
      ensures k > NDIRECT ==> inodes == old(inodes)
      ensures !ok ==> freeblock == SB.size
      ensures ok <==> Ref(old(blocks), old(inodes)[i], k) != 0 || old(freeblock) < SB.size
      ensures !ok || Ref(old(blocks), old(inodes)[i], k) != 0 ==>
        blocks == old(blocks) && inodes == old(inodes) && freeblock == old(freeblock)
      ensures ok && Ref(old(blocks), old(inodes)[i], k) == 0 ==>
        freeblock == old(freeblock) + 1 && RefSet(old(blocks), old(inodes), blocks, inodes, i, k, old(freeblock))
    {
      hide Building, SameFiles, Ref, BindBlocks, BindInode, RefSet;
      BuildingShaped(blocks, inodes, owner, freeblock);
      SameFilesRefl(blocks, inodes);
      if Ref(blocks, inodes[i], k) != 0 { return true; }
      if freeblock >= SB.size { return false; }
      TakeBlock(blocks, inodes, owner, freeblock, i, k);
      blocks, inodes := BindBlocks(blocks, inodes[i], k, freeblock), inodes[i := BindInode(inodes[i], k, freeblock)];
      owner := owner[freeblock := (i, k)];
      freeblock := freeblock + 1;
      ok := true;
    }

    /** The block of byte off, allocated if necessary. */
    method EnsureBlock(i: nat, fbn: nat) returns (ok: bool)
      requires Valid() && i < freeinode && fbn < MAXFILE
      modifies this`blocks, this`inodes, this`freeblock, this`owner
      ensures Valid() && SameFiles(old(blocks), old(inodes), blocks, inodes)
      ensures i < |inodes| && Shaped(inodes[i]) && freeblock <= old(freeblock) + 2
      ensures ok ==> Ref(blocks, inodes[i], Slot(fbn)) != 0
      ensures !ok ==> freeblock == SB.size
      ensures Shaped(old(inodes)[i])
      ensures ok <==> old(freeblock) + Lack(old(blocks), old(inodes)[i], fbn, fbn + 1) <= SB.size
      ensures ok ==>
        && freeblock == old(freeblock) + Lack(old(blocks), old(inodes)[i], fbn, fbn + 1)
        && Elsewhere(old(blocks), old(inodes), blocks, inodes, i, fbn)
    {
      hide Building, SameFiles, RefSet, Elsewhere, Lack, Ref;
      BuildingShaped(blocks, inodes, owner, freeblock);
      ElsewhereRefl(blocks, inodes, i, fbn);
      LackOne(blocks, inodes[i], fbn);
      if fbn < NDIRECT {
        ok := Ensure(i, fbn);
        if ok { EnsuredElsewhere(old(blocks), old(inodes), blocks, inodes, i, fbn, old(freeblock), fbn); }
      } else {
        RefAddr(blocks, inodes[i], NDIRECT);
        NoEntry(blocks, inodes[i], fbn);
        ok := Ensure(i, NDIRECT);
        RefAddr(blocks, inodes[i], NDIRECT);
        if !ok { return; }
        ghost var blocks1, inodes1, free1 := blocks, inodes, freeblock;
        EnsuredElsewhere(old(blocks), old(inodes), blocks, inodes, i, NDIRECT, old(freeblock), fbn);
        ok := Ensure(i, fbn + 1);
        SameFilesTrans(old(blocks), old(inodes), blocks1, inodes1, blocks, inodes);
        if ok {
          EnsuredElsewhere(blocks1, inodes1, blocks, inodes, i, fbn + 1, free1, fbn);
          ElsewhereTrans(old(blocks), old(inodes), blocks1, inodes1, blocks, inodes, i, fbn);
        }
      }
    }

    /** One turn of iappend's loop. */
    method AppendBlock(i: nat, off: nat, src: seq<Byte>) returns (ok: bool)
      requires Valid() && i < freeinode && off / BSIZE < MAXFILE && off % BSIZE + |src| <= BSIZE
      modifies this`blocks, this`inodes, this`freeblock, this`owner
      ensures Valid() && OtherFiles(old(blocks), old(inodes), blocks, inodes, i)
      ensures i < |inodes| && Shaped(inodes[i]) && inodes[i].size == old(inodes)[i].size && freeblock <= old(freeblock) + 2
      ensures ok ==> Wrote(old(blocks), old(inodes)[i], blocks, inodes[i], off, src)
      ensures !ok ==> freeblock == SB.size
      ensures Shaped(old(inodes)[i])
      ensures ok <==> old(freeblock) + Lack(old(blocks), old(inodes)[i], off / BSIZE, off / BSIZE + 1) <= SB.size
      ensures ok ==>
        && freeblock == old(freeblock) + Lack(old(blocks), old(inodes)[i], off / BSIZE, off / BSIZE + 1)
        && Elsewhere(old(blocks), old(inodes), blocks, inodes, i, off / BSIZE) && Ref(blocks, inodes[i], Slot(off / BSIZE)) != 0
    {
      hide Building, SameFiles, OtherFiles, Wrote, Lack, Elsewhere;
      ok := EnsureBlock(i, off / BSIZE);
      SameFilesOthers(old(blocks), old(inodes), blocks, inodes, i);
      SameFilesMeans(old(blocks), old(inodes), blocks, inodes, i);
      if !ok { return; }
      PutBytes(blocks, inodes, owner, freeblock, i, off, src);
      ghost var blocks1 := blocks;
      var r := Ref(blocks, inodes[i], Slot(off / BSIZE));
      blocks := blocks[r := Splice(blocks[r], off % BSIZE, src)];
      SameElsewhere(old(blocks), old(inodes), blocks1, inodes, blocks, i, off / BSIZE);
      OtherFilesTrans(old(blocks), old(inodes), blocks1, inodes, blocks, inodes, i);
      SameThenWrote(old(blocks), old(inodes), blocks1, inodes, blocks, i, off, src);
    }

    /** Appends to a file; false when mkfs gives up because the file or the disk is full. */
    method Iappend(i: nat, data: seq<Byte>) returns (ok: bool)
      requires Valid() && i < freeinode && Shaped(inodes[i]) && ZeroTail(blocks, inodes[i])
      modifies this`blocks, this`inodes, this`freeblock, this`owner
      ensures Valid() && OtherFiles(old(blocks), old(inodes), blocks, inodes, i)
      ensures i < |inodes| && Shaped(inodes[i])
      ensures ok ==> Content(blocks, inodes[i]) == Content(old(blocks), old(inodes)[i]) + data
      ensures ok ==> ZeroTail(blocks, inodes[i])
      ensures ok ==> TightKept(old(blocks), old(inodes), blocks, inodes, i) && inodes[i].size == old(inodes)[i].size + |data|
      ensures Tight(old(blocks), old(inodes)[i]) ==>
        var off, end := old(inodes)[i].size, old(inodes)[i].size + |data|;
        && (ok <==> end <= MAXBYTES && old(freeblock) + Cost(end) - Cost(off) <= SB.size)
        && (ok ==> Tight(blocks, inodes[i]) && freeblock == old(freeblock) + Cost(end) - Cost(off))
    {
      hide Owned, OtherFiles, Wrote, Content, ZeroTail, Appended, Filled, TightTo, TightKept, Cost;
      var off := inodes[i].size;
      ghost var b0, i0, f0 := blocks, inodes, freeblock;
      AppendedNone(blocks, inodes, owner, freeblock, i, data);
      FilledNone(b0, i0, f0, i, off);
      FilledBound(b0, i0, f0, blocks, inodes, owner, freeblock, i, off, off);
      var done := 0;
      while done < |data|
        invariant done <= |data| && Valid() && i < |inodes| && off + done <= MAXBYTES
        invariant Appended(b0, i0, blocks, inodes, i, off, data, done)
        invariant Filled(b0, i0, f0, blocks, inodes, freeblock, i, off, off + done)
      {
        if (off + done) / BSIZE >= MAXFILE {
          AppendedMeans(b0, i0, blocks, inodes, i, off, data, done);
          return false;
        }
        var n1 := Piece(off + done, |data| - done);
        ok := AppendNext(i, off, data, done, n1, b0, i0, f0);
        if !ok { return; }
        done := done + n1;
      }
      AppendedMeans(b0, i0, blocks, inodes, i, off, data, done);
      FilledBound(b0, i0, f0, blocks, inodes, owner, freeblock, i, off, off + |data|);
      FilledEnd(b0, i0, f0, blocks, inodes, freeblock, i, off, off + |data|);
      AppendedEnd(b0, i0, blocks, inodes, owner, freeblock, i, off, data);
      inodes := inodes[i := inodes[i].(size := off + |data|)];
      ok := true;
    }

    method AppendNext(i: nat, off: nat, data: seq<Byte>, done: nat, n1: nat,
                      ghost b0: seq<Block>, ghost i0: seq<Inode>, ghost f0: nat) returns (ok: bool)
      requires Valid() && i < freeinode && done + n1 <= |data| && 0 < n1 && (off + done) / BSIZE < MAXFILE
      requires (off + done) % BSIZE + n1 <= BSIZE && Appended(b0, i0, blocks, inodes, i, off, data, done)
      requires Filled(b0, i0, f0, blocks, inodes, freeblock, i, off, off + done)
      modifies this`blocks, this`inodes, this`freeblock, this`owner
      ensures Valid() && OtherFiles(b0, i0, blocks, inodes, i) && i < |inodes| && Shaped(inodes[i])
      ensures ok ==> Appended(b0, i0, blocks, inodes, i, off, data, done + n1)
      ensures ok ==> off + done + n1 <= MAXBYTES
      ensures ok ==> Filled(b0, i0, f0, blocks, inodes, freeblock, i, off, off + (done + n1))
      ensures !ok && TightTo(b0, i0[i], off) ==> f0 + Cost(off + |data|) - Cost(off) > SB.size
    {
      hide Building, OtherFiles, Wrote, Filled, TightTo, Cost, Lack, Elsewhere, Ref;
      ghost var blocks1, inodes1, free1 := blocks, inodes, freeblock;
      ok := AppendBlock(i, off + done, data[done..done + n1]);
      OtherFilesTrans(b0, i0, blocks1, inodes1, blocks, inodes, i);
      if ok {
        WroteMore(b0, i0[i], blocks1, inodes1[i], blocks, inodes[i], off, data[..done], data[done..done + n1]);
        assert data[..done + n1] == data[..done] + data[done..done + n1];
        FilledMore(b0, i0, f0, blocks1, inodes1, free1, blocks, inodes, freeblock, i, off, off + done, n1);
      } else {
        FilledShort(b0, i0, f0, blocks1, inodes1, free1, i, off, off + done, n1, off + |data|);
      }
    }

    /** The next inode number, its inode empty. */
    method Ialloc() returns (i: nat)
      requires Valid() && freeinode < |inodes|
      modifies this`freeinode, this`inodes
      ensures Valid() && i == old(freeinode) && freeinode == i + 1
      ensures inodes == old(inodes) && inodes[i] == EmptyInode()
    {
      i := freeinode;
      freeinode := freeinode + 1;
      assert inodes[i := EmptyInode()] == inodes;
      inodes := inodes[i := EmptyInode()];
    }

    /** balloc: marks every block below freeblock, in the one free-map block it writes. */
    method MarkUsed() returns (ok: bool)
      requires Valid()
      modifies this`blocks
      ensures ok <==> freeblock < BPB
      ensures ok ==> FsImage.Image(SB, blocks, inodes, owner) && SameFiles(old(blocks), inodes, blocks, inodes)
      ensures !ok ==> blocks == old(blocks)
    {
      if freeblock >= BSIZE * 8 { return false; }
      var buf: Block := ZeroBlock();
      ZeroBits();
      for i := 0 to freeblock
        invariant forall j :: 0 <= j < BPB ==> Bit(buf, j) == (j < i)
      {
        buf := PutBit(buf, i, true);
      }
      MarkedImage(blocks, inodes, owner, freeblock, buf);
      blocks := blocks[SB.bmapstart := buf];
      ok := true;
    }

    /** Rounds the size of the root directory up to the next block boundary. */
    method PadRoot(i: nat)
      requires Valid() && i < freeinode && Shaped(inodes[i]) && ZeroTail(blocks, inodes[i]) && inodes[i].size < MAXBYTES
      modifies this`inodes
      ensures Valid() && OtherFiles(blocks, old(inodes), blocks, inodes, i) && i < |inodes| && Shaped(inodes[i])
      ensures Content(blocks, inodes[i]) == Padded(Content(blocks, old(inodes)[i]))
    {
      PadKeeps(blocks, inodes, owner, freeblock, i);
      inodes := inodes[i := inodes[i].(size := (inodes[i].size / BSIZE + 1) * BSIZE)];
    }

    /** Copies a host file in pieces of one block. */
    method CopyFile(i: nat, data: seq<Byte>) returns (ok: bool)
      requires Valid() && i < freeinode && Shaped(inodes[i]) && ZeroTail(blocks, inodes[i])
      modifies this`blocks, this`inodes, this`freeblock, this`owner
      ensures Valid() && OtherFiles(old(blocks), old(inodes), blocks, inodes, i)
      ensures i < |inodes| && Shaped(inodes[i])
      ensures ok ==> Content(blocks, inodes[i]) == Content(old(blocks), old(inodes)[i]) + data
      ensures ok ==> ZeroTail(blocks, inodes[i])
      ensures ok ==> TightKept(old(blocks), old(inodes), blocks, inodes, i)
      ensures Tight(old(blocks), old(inodes)[i]) ==>
        var off, end := old(inodes)[i].size, old(inodes)[i].size + |data|;
        && (ok <==> end <= MAXBYTES && old(freeblock) + Cost(end) - Cost(off) <= SB.size)
        && (ok ==> Tight(blocks, inodes[i]) && freeblock == old(freeblock) + Cost(end) - Cost(off))
    {
      hide Owned, OtherFiles, Content, ZeroTail, Tight, TightKept, Cost;
      ghost var b0, i0, c := blocks, inodes, Content(blocks, inodes[i]);
      ghost var off, f0, tight := inodes[i].size, freeblock, Tight(blocks, inodes[i]);
      BuildingShaped(blocks, inodes, owner, freeblock);
      OtherFilesRefl(blocks, inodes, i);
      KeptRefl(blocks, inodes, i);
      var done := 0;
      while done < |data|
        invariant done <= |data| && Valid() && OtherFiles(b0, i0, blocks, inodes, i)
        invariant i < |inodes| && Shaped(inodes[i]) && ZeroTail(blocks, inodes[i])
        invariant Content(blocks, inodes[i]) == c + data[..done]
        invariant TightKept(b0, i0, blocks, inodes, i) && inodes[i].size == off + done
        invariant tight ==> Tight(blocks, inodes[i]) && freeblock == f0 + Cost(off + done) - Cost(off)
      {
        var cc := if |data| - done < BSIZE then |data| - done else BSIZE;
        ghost var blocks1, inodes1 := blocks, inodes;
        ok := Iappend(i, data[done..done + cc]);
        OtherFilesTrans(b0, i0, blocks1, inodes1, blocks, inodes, i);
        CostMore(off + done + cc, off + |data|);
        if !ok { return; }
        KeptTrans(b0, i0, blocks1, inodes1, blocks, inodes, i);
        assert c + data[..done] + data[done..done + cc] == c + data[..done + cc];
        done := done + cc;
      }
      assert data[..done] == data;
      BuildingShaped(blocks, inodes, owner, freeblock);
      ok := true;
    }

    /** One more file: a directory entry in the root, then the contents. */
    method AddFile(ghost files: seq<File>, ghost k: nat, f: File, ghost root: seq<Byte>) returns (ok: bool)
      requires Valid() && k < |files| && f == files[k] && freeinode == 2 + k < NINODES
      requires Holds(blocks, inodes, files, k, root)
      modifies this`blocks, this`inodes, this`freeblock, this`owner, this`freeinode
      ensures Valid()
      ensures ok ==> freeinode == 3 + k && Holds(blocks, inodes, files, k + 1, root + f.entry)
      ensures ok <==>
        && |root + f.entry| <= MAXBYTES && |f.data| <= MAXBYTES
        && old(freeblock) + Cost(|root + f.entry|) - Cost(|root|) + Cost(|f.data|) <= SB.size
      ensures ok ==> freeblock == old(freeblock) + Cost(|root + f.entry|) - Cost(|root|) + Cost(|f.data|)
    {
      hide Building, OtherFiles, Content, ZeroTail, Shaped, Tight, TightKept;
      HoldsIndex(blocks, inodes, files, k, root, 2 + k);
      ghost var b0, i0 := blocks, inodes;
      var i := Ialloc();
      ok := Iappend(ROOTINO, f.entry);
      if !ok { return; }
      ghost var b1, i1 := blocks, inodes;
      OtherIndex(b0, i0, b1, i1, ROOTINO);
      HoldsRoot(b0, i0, b1, i1, files, k, root, f.entry);
      HoldsIndex(b1, i1, files, k, root + f.entry, 2 + k);
      ok := CopyFile(i, f.data);
      if !ok { return; }
      OtherIndex(b1, i1, blocks, inodes, i);
      HoldsFile(b1, i1, blocks, inodes, files, k, root + f.entry);
    }

    /** mkfs main: the finished image has an exact free map with every block owned at most once, the root
        directory holds the entries in order, padded with zeroes to a block, and each file its contents. */
    method Build(dot: seq<Byte>, dotdot: seq<Byte>, files: seq<File>) returns (ok: bool)
      requires Valid() && freeinode == 1 && |files| + 2 <= NINODES
      requires |dot| == |dotdot| == Directory.DIRENT && forall k :: 0 <= k < |files| ==> |files[k].entry| == Directory.DIRENT
      requires Holds(blocks, inodes, files, 0, [])
      modifies this`blocks, this`inodes, this`freeblock, this`owner, this`freeinode
      ensures ok ==>
        && FsImage.Image(SB, blocks, inodes, owner) && |inodes| == NINODES
        && Content(blocks, inodes[ROOTINO]) == Padded(dot + dotdot + Entries(files))
        && forall k :: 0 <= k < |files| ==> Content(blocks, inodes[2 + k]) == files[k].data
      ensures ok <==>
        && (forall k :: 0 <= k < |files| ==> |files[k].data| <= MAXBYTES)
        && old(freeblock) + Cost(Directory.DIRENT * (2 + |files|)) + Total(files) < BPB
    {
      hide Building, OtherFiles, Content, ZeroTail, Shaped, Holds, FsImage.Image, SameFiles, Padded, Tight, TightKept, Cost, Total;
      BuildingShaped(blocks, inodes, owner, freeblock);
      NoCost();
      ghost var f0 := freeblock;
      HoldsIndex(blocks, inodes, files, 0, [], ROOTINO);
      var root := Ialloc();
      ghost var b0, i0 := blocks, inodes;
      ok := Iappend(root, dot);
      CostMore(Directory.DIRENT, Directory.DIRENT * (2 + |files|));
      CostMore(2 * Directory.DIRENT, Directory.DIRENT * (2 + |files|));
      if !ok { return; }
      ghost var b1, i1 := blocks, inodes;
      OtherIndex(b0, i0, b1, i1, ROOTINO);
      HoldsRoot(b0, i0, b1, i1, files, 0, [], dot);
      HoldsIndex(b1, i1, files, 0, [] + dot, ROOTINO);
      ok := Iappend(root, dotdot);
      if !ok { return; }
      OtherIndex(b1, i1, blocks, inodes, ROOTINO);
      HoldsRoot(b1, i1, blocks, inodes, files, 0, [] + dot, dotdot);
      assert [] + dot + dotdot == dot + dotdot + Entries(files[..0]);
      NoTotal(files);
      for k := 0 to |files|
        invariant Valid() && freeinode == 2 + k
        invariant Holds(blocks, inodes, files, k, dot + dotdot + Entries(files[..k]))
        invariant freeblock == f0 + Cost(Directory.DIRENT * (2 + k)) + Total(files[..k])
        invariant forall j :: 0 <= j < k ==> |files[j].data| <= MAXBYTES
      {
        EntriesLength(files[..k]);
        EntriesMore(dot + dotdot, files, k);
        TotalMore(files, k);
        CostMore(Directory.DIRENT * (3 + k), Directory.DIRENT * (2 + |files|));
        ok := AddFile(files, k, files[k], dot + dotdot + Entries(files[..k]));
        if !ok { return; }
      }
      assert files[..|files|] == files;
      EntriesLength(files);
      ok := Finish(files, dot + dotdot + Entries(files));
    }

    method Finish(ghost files: seq<File>, ghost root: seq<Byte>) returns (ok: bool)
      requires Valid() && ROOTINO < freeinode && |files| + 2 <= NINODES && Holds(blocks, inodes, files, |files|, root) && |root| < MAXBYTES
      modifies this`blocks, this`inodes
      ensures ok <==> freeblock < BPB
      ensures ok ==>
        && FsImage.Image(SB, blocks, inodes, owner) && |inodes| == NINODES
        && Content(blocks, inodes[ROOTINO]) == Padded(root)
        && forall k :: 0 <= k < |files| ==> Content(blocks, inodes[2 + k]) == files[k].data
    {
      hide Building, OtherFiles, ZeroTail, FsImage.Image, SameFiles, Padded, Content;
      HoldsIndex(blocks, inodes, files, |files|, root, ROOTINO);
      ghost var i0 := inodes;
      PadRoot(ROOTINO);
      ghost var b1 := blocks;
      OtherIndex(b1, i0, b1, inodes, ROOTINO);
      ok := MarkUsed();
      if ok {
        SameFilesMeans(b1, inodes, blocks, inodes, ROOTINO);
        forall k | 0 <= k < |files| ensures Content(blocks, inodes[2 + k]) == files[k].data {
          OtherContents(b1, i0, b1, inodes, ROOTINO, 2 + k);
          SameFilesMeans(b1, inodes, blocks, inodes, 2 + k);
        }
      }
    }
  }

  /** A file on the host: its directory entry, inode number included, and its contents. */
  datatype File = File(entry: seq<Byte>, data: seq<Byte>)

  function Entries(files: seq<File>): seq<Byte> {
    if files == [] then [] else Entries(files[..|files| - 1]) + files[|files| - 1].entry
  }

  /** Blocks of the contents of the files. */
  function Total(files: seq<File>): nat {
    if files == [] then 0 else Total(files[..|files| - 1]) + Cost(|files[|files| - 1].data|)
  }

  lemma NoCost()
    ensures Cost(0) == 0
  {
  }

  lemma NoTotal(files: seq<File>)
    ensures Total(files[..0]) == 0 && files[..|files|] == files
  {
  }

  lemma {:induction false} TotalMore(files: seq<File>, k: nat)
    requires k < |files|
    ensures Total(files[..k + 1]) == Total(files[..k]) + Cost(|files[k].data|) <= Total(files)
    decreases |files|
  {
    hide Cost;
    assert files[..k + 1][..k] == files[..k];
    if k + 1 < |files| {
      var init := files[..|files| - 1];
      TotalMore(init, k);
      assert init[..k + 1] == files[..k + 1] && init[..k] == files[..k];
    } else {
      assert files[..k + 1] == files;
    }
  }

  lemma EntriesMore(prefix: seq<Byte>, files: seq<File>, k: nat)
    requires k < |files|
    ensures prefix + Entries(files[..k]) + files[k].entry == prefix + Entries(files[..k + 1])
  {
    assert files[..k + 1][..k] == files[..k];
  }

  lemma {:induction false} EntriesLength(files: seq<File>)
    requires forall k :: 0 <= k < |files| ==> |files[k].entry| == Directory.DIRENT
    ensures |Entries(files)| == Directory.DIRENT * |files|
  {
    if files != [] { EntriesLength(files[..|files| - 1]); }
  }

  /** The first k files are on the image, the root directory holds root, the other inodes are empty. */
  ghost predicate Holds(blocks: seq<Block>, inodes: seq<Inode>, files: seq<File>, k: nat, root: seq<Byte>)
    requires k <= |files|
  {
    && |inodes| == NINODES
    && (forall i :: 0 <= i < NINODES ==> Shaped(inodes[i]) && ZeroTail(blocks, inodes[i]) && Tight(blocks, inodes[i]))
    && Content(blocks, inodes[ROOTINO]) == root
    && (forall i :: 0 <= i < NINODES && i != ROOTINO ==>
         Content(blocks, inodes[i]) == if 2 <= i < 2 + k then files[i - 2].data else [])
  }

  lemma HoldsIndex(blocks: seq<Block>, inodes: seq<Inode>, files: seq<File>, k: nat, root: seq<Byte>, i: nat)
    requires k <= |files| && Holds(blocks, inodes, files, k, root) && i < NINODES
    ensures |inodes| == NINODES && Shaped(inodes[i]) && ZeroTail(blocks, inodes[i]) && Tight(blocks, inodes[i])
    ensures i == ROOTINO ==> inodes[i].size == |root|
    ensures i >= 2 + k ==> inodes[i].size == 0
  {
  }

  lemma OtherIndex(blocks: seq<Block>, inodes: seq<Inode>, blocks': seq<Block>, inodes': seq<Inode>, i: nat)
    requires OtherFiles(blocks, inodes, blocks', inodes', i)
    ensures |inodes| == |inodes'| && forall j :: 0 <= j < |inodes| ==> Shaped(inodes[j]) && Shaped(inodes'[j])
  {
  }

  /** What happens to file i does not show in file j. */
  lemma OtherKept(blocks: seq<Block>, inodes: seq<Inode>, blocks': seq<Block>, inodes': seq<Inode>, i: nat, j: nat)
    requires OtherFiles(blocks, inodes, blocks', inodes', i) && j < |inodes| && j != i && ZeroTail(blocks, inodes[j])
    ensures Content(blocks', inodes'[j]) == Content(blocks, inodes[j]) && ZeroTail(blocks', inodes'[j])
  {
    OtherContents(blocks, inodes, blocks', inodes', i, j);
    forall p | inodes'[j].size <= p < MAXBYTES ensures FileByte(blocks', inodes'[j], p) == 0 {
      assert FileByte(blocks, inodes[j], p) == 0;
      assert FileBlock(blocks, inodes[j], p / BSIZE) == FileBlock(blocks', inodes'[j], p / BSIZE);
    }
  }

  lemma HoldsRoot(b0: seq<Block>, i0: seq<Inode>, b1: seq<Block>, i1: seq<Inode>, files: seq<File>, k: nat, root: seq<Byte>, more: seq<Byte>)
    requires k <= |files| && Holds(b0, i0, files, k, root) && OtherFiles(b0, i0, b1, i1, ROOTINO)
    requires |i1| == NINODES && Shaped(i1[ROOTINO]) && ZeroTail(b1, i1[ROOTINO])
    requires Tight(b1, i1[ROOTINO]) && TightKept(b0, i0, b1, i1, ROOTINO)
    requires Content(b1, i1[ROOTINO]) == Content(b0, i0[ROOTINO]) + more
    ensures Holds(b1, i1, files, k, root + more)
  {
    hide Content, ZeroTail, Tight;
    forall i | 0 <= i < NINODES && i != ROOTINO
      ensures ZeroTail(b1, i1[i]) && Content(b1, i1[i]) == if 2 <= i < 2 + k then files[i - 2].data else []
    {
      OtherKept(b0, i0, b1, i1, ROOTINO, i);
    }
  }

  lemma HoldsFile(b0: seq<Block>, i0: seq<Inode>, b1: seq<Block>, i1: seq<Inode>, files: seq<File>, k: nat, root: seq<Byte>)
    requires k < |files| && 2 + k < NINODES && Holds(b0, i0, files, k, root) && OtherFiles(b0, i0, b1, i1, 2 + k)
    requires |i1| == NINODES && Shaped(i1[2 + k]) && ZeroTail(b1, i1[2 + k])
    requires Tight(b1, i1[2 + k]) && TightKept(b0, i0, b1, i1, 2 + k)
    requires Content(b1, i1[2 + k]) == Content(b0, i0[2 + k]) + files[k].data
    ensures Holds(b1, i1, files, k + 1, root)
  {
    hide Content, ZeroTail, Tight;
    forall i | 0 <= i < NINODES && i != 2 + k
      ensures ZeroTail(b1, i1[i]) && Content(b1, i1[i]) == Content(b0, i0[i])
    {
      OtherKept(b0, i0, b1, i1, 2 + k, i);
    }
    assert Content(b0, i0[2 + k]) == [];
  }

  /** iappend after done bytes. */
  ghost predicate Appended(b0: seq<Block>, i0: seq<Inode>, blocks: seq<Block>, inodes: seq<Inode>,
                           i: nat, off: nat, data: seq<Byte>, done: nat)
    requires done <= |data|
  {
    && i < |i0| && OtherFiles(b0, i0, blocks, inodes, i) && i < |inodes| && Shaped(i0[i]) && Shaped(inodes[i])
    && inodes[i].size == i0[i].size == off
    && Wrote(b0, i0[i], blocks, inodes[i], off, data[..done])
  }

  lemma AppendedNone(blocks: seq<Block>, inodes: seq<Inode>, owner: Owner, freeblock: nat, i: nat, data: seq<Byte>)
    requires Building(blocks, inodes, owner, freeblock) && i < |inodes|
    ensures Shaped(inodes[i]) && Appended(blocks, inodes, blocks, inodes, i, inodes[i].size, data, 0)
  {
  }

  lemma AppendedMeans(b0: seq<Block>, i0: seq<Inode>, blocks: seq<Block>, inodes: seq<Inode>,
                      i: nat, off: nat, data: seq<Byte>, done: nat)
    requires done <= |data| && Appended(b0, i0, blocks, inodes, i, off, data, done)
    ensures OtherFiles(b0, i0, blocks, inodes, i) && i < |inodes| && Shaped(inodes[i])
  {
  }

  lemma ResizeBuilding(blocks: seq<Block>, inodes: seq<Inode>, owner: Owner, freeblock: nat, i: nat, size: nat)
    requires Building(blocks, inodes, owner, freeblock) && i < |inodes| && size <= MAXBYTES
    ensures
      var inodes' := inodes[i := inodes[i].(size := size)];
      && Building(blocks, inodes', owner, freeblock)
      && OtherFiles(blocks, inodes, blocks, inodes', i)
      && Wrote(blocks, inodes[i], blocks, inodes'[i], 0, [])
  {
  }

  lemma AppendedEnd(b0: seq<Block>, i0: seq<Inode>, blocks: seq<Block>, inodes: seq<Inode>, owner: Owner, freeblock: nat,
                    i: nat, off: nat, data: seq<Byte>)
    requires Building(blocks, inodes, owner, freeblock) && Appended(b0, i0, blocks, inodes, i, off, data, |data|)
    requires off + |data| <= MAXBYTES && ZeroTail(b0, i0[i])
    ensures
      var i2 := inodes[i := inodes[i].(size := off + |data|)];
      && Building(blocks, i2, owner, freeblock) && OtherFiles(b0, i0, blocks, i2, i) && Shaped(i2[i])
      && Content(blocks, i2[i]) == Content(b0, i0[i]) + data
      && ZeroTail(blocks, i2[i])
  {
    hide Building, OtherFiles;
    var i2 := inodes[i := inodes[i].(size := off + |data|)];
    ResizeBuilding(blocks, inodes, owner, freeblock, i, off + |data|);
    OtherFilesTrans(b0, i0, blocks, inodes, blocks, i2, i);
    assert data[..|data|] == data;
    WroteContent(b0, i0[i], blocks, i2[i], off, data);
  }

  lemma {:induction false} ZeroByteBit(i: nat)
    ensures !ByteBit(0, i)
  {
    if i > 0 { ZeroByteBit(i - 1); }
  }

  lemma ZeroBits()
    ensures forall j :: 0 <= j < BPB ==> !Bit(ZeroBlock(), j)
  {
    forall j | 0 <= j < BPB ensures !Bit(ZeroBlock(), j) { ZeroByteBit(j % 8); }
  }

  /** Marking the blocks below freeblock makes the free map exact. */
  lemma MarkedImage(blocks: seq<Block>, inodes: seq<Inode>, owner: Owner, freeblock: nat, buf: Block)
    requires Building(blocks, inodes, owner, freeblock) && freeblock < BPB
    requires forall j :: 0 <= j < BPB ==> Bit(buf, j) == (j < freeblock)
    ensures
      var blocks' := blocks[SB.bmapstart := buf];
      FsImage.Image(SB, blocks', inodes, owner) && SameFiles(blocks, inodes, blocks', inodes)
  {
    var blocks' := blocks[SB.bmapstart := buf];
    RefsElsewhere(SB, blocks, blocks', inodes, owner, 0, 0);
    ZeroBits();
    forall b | 0 <= b < SB.size ensures Used(SB, blocks', b) == (b < freeblock) {
      if b / BPB > 0 {
        assert blocks'[SB.bmapstart + b / BPB] == ZeroBlock();
      }
    }
  }

  function Zeroes(n: nat): (z: seq<Byte>)
    ensures |z| == n && forall i :: 0 <= i < n ==> z[i] == 0
  {
    seq(n, _ => 0)
  }

  function Padded(c: seq<Byte>): seq<Byte> {
    c + Zeroes(BSIZE - |c| % BSIZE)
  }

  lemma PadKeeps(blocks: seq<Block>, inodes: seq<Inode>, owner: Owner, freeblock: nat, i: nat)
    requires Building(blocks, inodes, owner, freeblock) && i < |inodes| && ZeroTail(blocks, inodes[i]) && inodes[i].size < MAXBYTES
    ensures
      var size := (inodes[i].size / BSIZE + 1) * BSIZE;
      var i2 := inodes[i := inodes[i].(size := size)];
      && size <= MAXBYTES && Building(blocks, i2, owner, freeblock) && OtherFiles(blocks, inodes, blocks, i2, i) && Shaped(i2[i])
      && Content(blocks, i2[i]) == Padded(Content(blocks, inodes[i]))
  {
    var size := (inodes[i].size / BSIZE + 1) * BSIZE;
    ResizeBuilding(blocks, inodes, owner, freeblock, i, size);
    var ino := inodes[i].(size := size);
    var c := Content(blocks, inodes[i]);
    forall p | 0 <= p < size ensures Content(blocks, ino)[p] == Padded(c)[p] {
      assert Content(blocks, ino)[p] == FileByte(blocks, ino, p) == FileByte(blocks, inodes[i], p);
    }
  }

  lemma BuildingShaped(blocks: seq<Block>, inodes: seq<Inode>, owner: Owner, freeblock: nat)
    requires Building(blocks, inodes, owner, freeblock)
    ensures SB.nmeta <= freeblock <= SB.size && forall j :: 0 <= j < |inodes| ==> Shaped(inodes[j])
  {
  }

  lemma SameThenWrote(b0: seq<Block>, i0: seq<Inode>, b1: seq<Block>, i1: seq<Inode>, b2: seq<Block>, i: nat, off: nat, src: seq<Byte>)
    requires SameFiles(b0, i0, b1, i1) && i < |i0| && Wrote(b1, i1[i], b2, i1[i], off, src)
    ensures Wrote(b0, i0[i], b2, i1[i], off, src)
  {
  }
}
