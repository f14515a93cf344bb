/**
  What the chunks of filewrite log: two of them that extend different files fill the log.  file.c writes a
  chunk of 13 blocks in each transaction so that it fits the log, but only while no other shares it.
 */
module ChunkLog {
  import opened Sets
  import opened FsFormat
  import opened FsImage
  import opened FsSpace
  import opened FileSystem
  import LogChunks

  /** A chunk of the largest size at the end of file i starts inside a block and ends in one that is not there yet. */
  predicate Extends(blocks: seq<Block>, inodes: seq<Inode>, i: nat) {
    && i < |inodes| && Shaped(inodes[i]) && inodes[i].size % BSIZE != 0 && inodes[i].size + MAXCHUNK <= MAXBYTES
    && Ref(blocks, inodes[i], Slot(Last(inodes[i].size))) == 0
  }

  /** The last file block of a chunk at off. */
  function Last(off: nat): nat { (off + MAXCHUNK - 1) / BSIZE }

  lemma LastIs(off: nat)
    requires off % BSIZE != 0 && off + MAXCHUNK <= MAXBYTES
    ensures NDIRECT <= Last(off) == off / BSIZE + 13 == EndBlock(off, MAXCHUNK) - 1 < MAXFILE
  {
  }

  // ---------------------------------------------------------------- the blocks of one file

  /** Slots lo..hi of the file and its indirect block. */
  function Own(blocks: seq<Block>, ino: Inode, lo: nat, hi: nat): set<nat>
    requires Shaped(ino) && hi <= MAXFILE
  {
    DataBlocks(blocks, ino, lo, hi) + {ino.addrs[NDIRECT]}
  }

  lemma {:induction false} DataOwned(sb: Super, blocks: seq<Block>, inodes: seq<Inode>, owner: Owner, i: nat, lo: nat,
                                     hi: nat)
    requires Image(sb, blocks, inodes, owner) && i < |inodes| && Shaped(inodes[i]) && hi <= MAXFILE
    ensures forall b :: b in DataBlocks(blocks, inodes[i], lo, hi) && b != 0 ==>
      sb.nmeta <= b && b in owner && owner[b].0 == i && (hi > 0 ==> owner[b].1 <= Slot(hi - 1)) && owner[b].1 != NDIRECT
    decreases hi
  {
    hide Image, Ref;
    if lo < hi {
      DataOwned(sb, blocks, inodes, owner, i, lo, hi - 1);
      SlotOwned(sb, blocks, inodes, owner, i, Slot(hi - 1));
    }
  }

  lemma SlotOwned(sb: Super, blocks: seq<Block>, inodes: seq<Inode>, owner: Owner, i: nat, k: nat)
    requires Image(sb, blocks, inodes, owner) && i < |inodes| && k < SLOTS
    ensures Shaped(inodes[i]) && Layout(sb)
    ensures
      var r := Ref(blocks, inodes[i], k);
      r != 0 ==> r in owner && owner[r] == (i, k) && sb.nmeta <= r < sb.size
  {
  }

  /** Blocks of one file are distinct. */
  lemma {:induction false} DataCount(sb: Super, blocks: seq<Block>, inodes: seq<Inode>, owner: Owner, i: nat, lo: nat,
                                     hi: nat)
    requires Image(sb, blocks, inodes, owner) && i < |inodes| && Shaped(inodes[i]) && lo <= hi <= MAXFILE
    requires forall n :: lo <= n < hi ==> Ref(blocks, inodes[i], Slot(n)) != 0
    ensures |DataBlocks(blocks, inodes[i], lo, hi)| == hi - lo && 0 !in DataBlocks(blocks, inodes[i], lo, hi)
    decreases hi
  {
    hide Image, Ref;
    if lo < hi {
      DataCount(sb, blocks, inodes, owner, i, lo, hi - 1);
      DataOwned(sb, blocks, inodes, owner, i, lo, hi - 1);
      SlotOwned(sb, blocks, inodes, owner, i, Slot(hi - 1));
    }
  }

  lemma OwnCount(sb: Super, blocks: seq<Block>, inodes: seq<Inode>, owner: Owner, i: nat, lo: nat, hi: nat)
    requires Image(sb, blocks, inodes, owner) && i < |inodes| && Shaped(inodes[i]) && lo <= hi <= MAXFILE
    requires inodes[i].addrs[NDIRECT] != 0 && forall n :: lo <= n < hi ==> Ref(blocks, inodes[i], Slot(n)) != 0
    ensures |Own(blocks, inodes[i], lo, hi)| == hi - lo + 1
    ensures forall b :: b in Own(blocks, inodes[i], lo, hi) ==> sb.nmeta <= b && b in owner && owner[b].0 == i
  {
    hide Image;
    DataCount(sb, blocks, inodes, owner, i, lo, hi);
    DataOwned(sb, blocks, inodes, owner, i, lo, hi);
    SlotOwned(sb, blocks, inodes, owner, i, NDIRECT);
  }

  // ---------------------------------------------------------------- what one chunk logs

  /** The chunk's blocks are there and logged, with the indirect block, a block of the free map and one of the inodes. */
  ghost predicate Full(sb: Super, blocks: seq<Block>, inodes: seq<Inode>, logged: set<nat>, i: nat, lo: nat, hi: nat) {
    && i < |inodes| && Shaped(inodes[i]) && lo <= hi <= MAXFILE && inodes[i].addrs[NDIRECT] != 0
    && (forall n :: lo <= n < hi ==> Ref(blocks, inodes[i], Slot(n)) != 0)
    && Own(blocks, inodes[i], lo, hi) <= logged && InodeBlock(sb, i) in logged
    && exists b :: b in logged && sb.bmapstart <= b < sb.nmeta
  }

  lemma {:induction false} RecordedHas(sb: Super, b0: seq<Block>, i0: seq<Inode>, b1: seq<Block>, i1: seq<Inode>,
                                       logged: set<nat>, i: nat, lo: nat, mid: nat, hi: nat)
    requires Recorded(sb, b0, i0, b1, i1, logged, i, lo, hi) && mid <= hi
    ensures DataBlocks(b1, i1[i], lo, mid) <= logged
    decreases mid
  {
    hide Ref, Noted;
    if lo < mid { RecordedHas(sb, b0, i0, b1, i1, logged, i, lo, mid - 1, hi); }
  }

  lemma ChunkFull(sb: Super, b0: seq<Block>, i0: seq<Inode>, b1: seq<Block>, i1: seq<Inode>, o1: Owner, logged: set<nat>,
                  i: nat)
    requires Extends(b0, i0, i) && Image(sb, b1, i1, o1) && InodeBlock(sb, i) in logged
    requires
      var off := i0[i].size;
      EndBlock(off, MAXCHUNK) <= MAXFILE && Recorded(sb, b0, i0, b1, i1, logged, i, off / BSIZE, EndBlock(off, MAXCHUNK))
    ensures
      var off := i0[i].size;
      Full(sb, b1, i1, logged, i, off / BSIZE, EndBlock(off, MAXCHUNK))
  {
    hide Image, EndBlock;
    var off := i0[i].size;
    LastIs(off);
    var r := Ref(b1, i1[i], Slot(Last(off)));
    SlotOwned(sb, b1, i1, o1, i, Slot(Last(off)));
    RecordedHas(sb, b0, i0, b1, i1, logged, i, off / BSIZE, EndBlock(off, MAXCHUNK), EndBlock(off, MAXCHUNK));
    BitmapBelow(sb, r);
    assert Noted(sb, b0, i0[i], b1, i1[i], logged, Last(off)) && sb.bmapstart + r / BPB in logged;
    assert i1[i].addrs[NDIRECT] != 0;
  }

  lemma BitmapBelow(sb: Super, r: nat)
    requires Layout(sb) && r < sb.size
    ensures sb.bmapstart <= sb.bmapstart + r / BPB < sb.nmeta
  {
  }

  /** What was logged of file i stays its own while the other chunk runs. */
  lemma FullStays(sb: Super, b1: seq<Block>, i1: seq<Inode>, b2: seq<Block>, i2: seq<Inode>, logged: set<nat>, i: nat,
                  lo: nat, hi: nat)
    requires Full(sb, b1, i1, logged, i, lo, hi) && RefsKept(b1, i1, b2, i2)
    ensures Full(sb, b2, i2, logged, i, lo, hi)
  {
    DataBlocksKept(b1, i1, b2, i2, i, lo, hi);
    assert Ref(b1, i1[i], NDIRECT) == i1[i].addrs[NDIRECT] && Ref(b2, i2[i], NDIRECT) == i2[i].addrs[NDIRECT];
  }

  /** A slot of another file is not affected by a chunk. */
  lemma OtherSlots(sb: Super, b0: seq<Block>, i0: seq<Inode>, b1: seq<Block>, i1: seq<Inode>, o1: Owner, logged: set<nat>,
                   i: nat, off: nat, n: nat, j: nat, k: nat)
    requires Image(sb, b1, i1, o1) && OnlyInode(i0, i1, i) && i < |i1| && j < |i0| && j != i && Shaped(i1[i]) && k < SLOTS
    requires off + n <= MAXBYTES && EndBlock(off, n) <= MAXFILE && Logs(b0, {}, b1, logged)
    requires logged <= Touched(sb, b1, i1[i], off, n) + {InodeBlock(sb, i)} && InodeBlock(sb, i) < sb.bmapstart
    ensures i1[j] == i0[j] && Shaped(i1[j]) && Ref(b1, i1[j], k) == Ref(b0, i0[j], k)
  {
    hide Image, EndBlock, Word;
    SlotOwned(sb, b1, i1, o1, j, NDIRECT);
    SlotOwned(sb, b1, i1, o1, i, NDIRECT);
    DataOwned(sb, b1, i1, o1, i, off / BSIZE, EndBlock(off, n));
    LayoutBound(sb, b1, i1, o1);
    var p := i1[j].addrs[NDIRECT];
    if p != 0 {
      assert p !in BitmapBlocks(sb);
      assert p !in logged;
    }
  }

  // ---------------------------------------------------------------- two chunks

  /** Together they log more than the log holds. */
  lemma BothFull(sb: Super, blocks: seq<Block>, inodes: seq<Inode>, owner: Owner, i: nat, j: nat,
                 a: set<nat>, b: set<nat>, lo: nat, lo': nat)
    requires Image(sb, blocks, inodes, owner) && i != j && i < |inodes| && InodeBlock(sb, i) < sb.bmapstart
    requires Full(sb, blocks, inodes, a, i, lo, lo + 14) && Full(sb, blocks, inodes, b, j, lo', lo' + 14)
    ensures |a + b| >= 32 && LogChunks.TogetherPanics(a, b)
  {
    hide Image, LogChunks.TogetherPanics, Ref;
    OwnCount(sb, blocks, inodes, owner, i, lo, lo + 14);
    OwnCount(sb, blocks, inodes, owner, j, lo', lo' + 14);
    var own, own' := Own(blocks, inodes[i], lo, lo + 14), Own(blocks, inodes[j], lo', lo' + 14);
    var m :| m in a && sb.bmapstart <= m < sb.nmeta;
    TwoOwn(own, own', m, InodeBlock(sb, i), a + b);
    LogChunks.ManyBlocksPanic(a, b);
  }

  lemma TwoOwn(own: set<nat>, own': set<nat>, m: nat, n: nat, all: set<nat>)
    requires own !! own' && m !in own + own' && n !in own + own' && m != n
    requires own <= all && own' <= all && m in all && n in all
    ensures |own| + |own'| + 2 <= |all|
  {
    assert |own + own'| == |own| + |own'|;
    assert |own + own' + {m, n}| == |own + own'| + |{m, n}|;
    SubsetCount(own + own' + {m, n}, all);
  }

  /** A range of 14 blocks lacks 15 at most. */
  lemma {:induction false} HolesBound(blocks: seq<Block>, ino: Inode, lo: nat, hi: nat)
    requires Shaped(ino) && lo <= hi <= MAXFILE
    ensures Holes(blocks, ino, lo, hi) <= hi - lo
    decreases hi
  {
    if lo < hi { HolesBound(blocks, ino, lo, hi - 1); }
  }

  lemma LackBound(blocks: seq<Block>, ino: Inode, off: nat)
    requires Shaped(ino) && off % BSIZE != 0 && off + MAXCHUNK <= MAXBYTES
    ensures EndBlock(off, MAXCHUNK) <= MAXFILE && Lack(blocks, ino, off / BSIZE, EndBlock(off, MAXCHUNK)) <= 15
  {
    hide Ref, EndBlock;
    LastIs(off);
    HolesBound(blocks, ino, off / BSIZE, EndBlock(off, MAXCHUNK));
  }

  /** Two chunks that extend different files.  Both succeed if 30 blocks are free; then they log at least 32 blocks,
      and if their calls share a commit, log_write panics, however large the log and whatever the order. */
  method TwoChunks(fs: Fs, i: nat, j: nat, src: seq<Byte>, tail: seq<Byte>)
    returns (r: Written, r': Written, ghost a: set<nat>, ghost b: set<nat>)
    requires fs.Valid() && i != j && Extends(fs.blocks, fs.inodes, i) && Extends(fs.blocks, fs.inodes, j)
    requires |src| == MAXCHUNK == |tail|
    modifies fs`blocks, fs`inodes, fs`owner, fs`logged
    ensures fs.Valid() && b == fs.logged
    ensures r.Count? && r'.Count? ==> |a + b| >= 32 && LogChunks.TogetherPanics(a, b)
    ensures Spare(fs.sb, old(fs.owner)) >= 30 ==> r.Count? && r'.Count?
  {
    hide Image, Ref, EndBlock, LogChunks.TogetherPanics, LogChunks.NeverPanics, OtherFiles, RefsKept, Content, Overlaid, Logs,
         TableKept, Touched, Recorded, Lack, OnlyInode, HasSlots, Dinode, Full;
    ghost var b0, i0 := fs.blocks, fs.inodes;
    var off, off' := fs.inodes[i].size, fs.inodes[j].size;
    LastIs(off);
    LastIs(off');
    LackBound(b0, i0[i], off);
    r := ExtendOne(fs, i, src);
    a := fs.logged;
    ghost var b1, i1 := fs.blocks, fs.inodes;
    r' := Panicked;
    b := a;
    if r.Count? {
      assert Extends(b1, i1, j) && i1[j].size == off' by {
        OtherSlots(fs.sb, b0, i0, b1, i1, fs.owner, a, i, off, MAXCHUNK, j, Slot(Last(off')));
      }
      LackBound(b1, i1[j], off');
      r' := ExtendOne(fs, j, tail);
      b := fs.logged;
      if r'.Count? {
        FullStays(fs.sb, b1, i1, fs.blocks, fs.inodes, a, i, off / BSIZE, off / BSIZE + 14);
        InodeBelow(fs.sb, fs.blocks, fs.inodes, fs.owner, i);
        BothFull(fs.sb, fs.blocks, fs.inodes, fs.owner, i, j, a, b, off / BSIZE, off' / BSIZE);
      }
    }
  }

  lemma InodeBelow(sb: Super, blocks: seq<Block>, inodes: seq<Inode>, owner: Owner, i: nat)
    requires Image(sb, blocks, inodes, owner) && i < |inodes|
    ensures InodeBlock(sb, i) < sb.bmapstart
  {
    InodeWords(sb, blocks, inodes, owner, i);
  }

  /** One chunk at the end of a file. */
  method ExtendOne(fs: Fs, i: nat, src: seq<Byte>) returns (r: Written)
    requires fs.Valid() && Extends(fs.blocks, fs.inodes, i) && |src| == MAXCHUNK
    modifies fs`blocks, fs`inodes, fs`owner, fs`logged
    ensures fs.Valid() && |fs.inodes| == |old(fs.inodes)| && RefsKept(old(fs.blocks), old(fs.inodes), fs.blocks, fs.inodes)
    ensures EndBlock(old(fs.inodes)[i].size, MAXCHUNK) <= MAXFILE
    ensures
      var off := old(fs.inodes)[i].size;
      var lack := Lack(old(fs.blocks), old(fs.inodes)[i], off / BSIZE, EndBlock(off, MAXCHUNK));
      && (r.Count? <==> Spare(fs.sb, old(fs.owner)) >= lack)
      && (r.Count? ==> |fs.owner| == |old(fs.owner)| + lack)
    ensures r.Count? ==>
      var lo := old(fs.inodes)[i].size / BSIZE;
      Full(fs.sb, fs.blocks, fs.inodes, fs.logged, i, lo, lo + 14)
    ensures r.Count? ==>
      && OnlyInode(old(fs.inodes), fs.inodes, i) && Logs(old(fs.blocks), {}, fs.blocks, fs.logged)
      && Shaped(fs.inodes[i]) && InodeBlock(fs.sb, i) < fs.sb.bmapstart
      && fs.logged <= Touched(fs.sb, fs.blocks, fs.inodes[i], old(fs.inodes)[i].size, MAXCHUNK) + {InodeBlock(fs.sb, i)}
  {
    hide Image, Ref, EndBlock, LogChunks.NeverPanics, OtherFiles, RefsKept, Content, Overlaid, Logs, TableKept, Touched,
         Recorded, Lack, OnlyInode, HasSlots, Dinode, Full;
    ghost var b0, i0 := fs.blocks, fs.inodes;
    LastIs(fs.inodes[i].size);
    r := fs.WriteChunk(i, fs.inodes[i].size, src, false);
    if r.Count? { ChunkFull(fs.sb, b0, i0, fs.blocks, fs.inodes, fs.owner, fs.logged, i); }
  }
}
