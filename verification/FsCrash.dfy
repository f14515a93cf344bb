/**
  Files across a crash: a chunk of filewrite (fs.c, file.c) and its commit (log.c).  What counts is what the next
  boot finds on the disk, its inodes included.
 */
module FsCrash {
  import opened Words
  import opened FsFormat
  import opened FsImage
  import opened FsSpace
  import opened FileSystem
  import ChunkLog
  import LogChunks
  import W = WriteAheadLog

  // ---------------------------------------------------------------- the files on a disk

  /** The inodes as they are on the disk. */
  function Table(sb: Super, disk: seq<Block>, n: nat): (t: seq<Inode>)
    requires sb.inodestart + n / IPB < |disk|
    ensures |t| == n
  {
    seq(n, i requires 0 <= i < n => Dinode(sb, disk, i))
  }

  /** Every inode on the disk is the one in memory. */
  ghost predicate AllSaved(sb: Super, blocks: seq<Block>, inodes: seq<Inode>) {
    forall j :: 0 <= j < |inodes| ==> InodeBlock(sb, j) < |blocks| && Dinode(sb, blocks, j) == inodes[j]
  }

  /** The disk alone is a whole file system with these contents of its files. */
  ghost predicate Holds(sb: Super, disk: seq<Block>, owner: Owner, files: seq<seq<Byte>>) {
    && sb.inodestart + |files| / IPB < |disk|
    && var t := Table(sb, disk, |files|);
       && Image(sb, disk, t, owner)
       && forall j :: 0 <= j < |files| ==> Shaped(t[j]) && Content(disk, t[j]) == files[j]
  }

  ghost function Files(blocks: seq<Block>, inodes: seq<Inode>): (f: seq<seq<Byte>>)
    requires forall j :: 0 <= j < |inodes| ==> Shaped(inodes[j])
    ensures |f| == |inodes|
  {
    seq(|inodes|, j requires 0 <= j < |inodes| => Content(blocks, inodes[j]))
  }

  /** The disks agree from the inodes on. */
  ghost predicate SameFrom(sb: Super, disk: seq<Block>, blocks: seq<Block>) {
    |disk| == |blocks| && forall c :: sb.inodestart <= c < |blocks| ==> disk[c] == blocks[c]
  }

  lemma TableIs(sb: Super, blocks: seq<Block>, disk: seq<Block>, inodes: seq<Inode>)
    requires SameFrom(sb, disk, blocks) && AllSaved(sb, blocks, inodes) && sb.inodestart + |inodes| / IPB < |blocks|
    ensures Table(sb, disk, |inodes|) == inodes
  {
    hide DinodeAt;
    var t := Table(sb, disk, |inodes|);
    forall j | 0 <= j < |inodes| ensures t[j] == inodes[j] {
      assert disk[InodeBlock(sb, j)] == blocks[InodeBlock(sb, j)];
    }
  }

  /** A disk that agrees with the cache has the files that the cache shows. */
  lemma HoldsFrom(sb: Super, blocks: seq<Block>, inodes: seq<Inode>, owner: Owner, disk: seq<Block>)
    requires Image(sb, blocks, inodes, owner) && AllSaved(sb, blocks, inodes) && SameFrom(sb, disk, blocks)
    ensures forall j :: 0 <= j < |inodes| ==> Shaped(inodes[j])
    ensures Holds(sb, disk, owner, Files(blocks, inodes))
  {
    hide Image, AllSaved, Content, SameFiles;
    ImageShaped(sb, blocks, inodes, owner);
    TableBelow(sb, blocks, inodes, owner);
    TableIs(sb, blocks, disk, inodes);
    AboveKeeps(sb, blocks, disk, inodes, owner);
    forall j | 0 <= j < |inodes| ensures Content(disk, inodes[j]) == Files(blocks, inodes)[j] {
      SameFilesMeans(blocks, inodes, disk, inodes, j);
    }
  }

  lemma TableBelow(sb: Super, blocks: seq<Block>, inodes: seq<Inode>, owner: Owner)
    requires Image(sb, blocks, inodes, owner)
    ensures sb.inodestart <= sb.inodestart + |inodes| / IPB < sb.bmapstart < |blocks| == sb.size
  {
  }

  // ---------------------------------------------------------------- an inode that was not written

  /** A block number that only the inode in memory has: the block is marked in use and no inode on the disk names it. */
  lemma LostFrom(sb: Super, b0: seq<Block>, i0: seq<Inode>, b1: seq<Block>, i1: seq<Inode>, o1: Owner, i: nat,
                 disk: seq<Block>, owner: Owner)
    requires Image(sb, b1, i1, o1) && RefsKept(b0, i0, b1, i1) && SameFrom(sb, disk, b1) && i < |i1|
    requires i0[i].addrs != i1[i].addrs && AllSaved(sb, b1, i1[i := i0[i]])
    ensures sb.inodestart + |i1| / IPB < |disk| && !Image(sb, disk, Table(sb, disk, |i1|), owner)
  {
    hide Owned, Marked, Used, Ref, AllSaved;
    TableBelow(sb, b1, i1, o1);
    var t := i1[i := i0[i]];
    TableIs(sb, b1, disk, t);
    var k: nat :| k <= NDIRECT && i0[i].addrs[k] != i1[i].addrs[k];
    RefAddr(b0, i0[i], k);
    RefAddr(b1, i1[i], k);
    var x := i1[i].addrs[k];
    AddrOwned(sb, b1, i1, o1, i, k);
    if Image(sb, disk, t, owner) {
      AboveKeeps(sb, b1, disk, i1, o1);
      AddrOwned(sb, disk, i1, o1, i, k);
      ImageMeans(sb, disk, t, owner);
      var j, l :| 0 <= j < |t| && 0 <= l < SLOTS && Ref(disk, t[j], l) == x;
      Named(sb, b0, i0, b1, disk, i1, o1, i, k, j, l);
      assert false;
    }
  }

  lemma RefAddr(blocks: seq<Block>, ino: Inode, k: nat)
    requires Shaped(ino) && k <= NDIRECT
    ensures Ref(blocks, ino, k) == ino.addrs[k]
  {
  }

  lemma AddrOwned(sb: Super, blocks: seq<Block>, inodes: seq<Inode>, owner: Owner, i: nat, k: nat)
    requires Image(sb, blocks, inodes, owner) && i < |inodes| && k <= NDIRECT
    ensures Shaped(inodes[i]) && Layout(sb) && |blocks| == sb.size
    ensures
      var x := inodes[i].addrs[k];
      x != 0 ==> x in owner && owner[x] == (i, k) && sb.nmeta <= x < sb.size && Used(sb, blocks, x)
  {
    RefAddr(blocks, inodes[i], k);
  }

  /** With the old inode i, no slot names the new block. */
  lemma Named(sb: Super, b0: seq<Block>, i0: seq<Inode>, b1: seq<Block>, disk: seq<Block>, i1: seq<Inode>, o1: Owner,
              i: nat, k: nat, j: nat, l: nat)
    requires Image(sb, disk, i1, o1) && RefsKept(b0, i0, b1, i1) && i < |i1| && k <= NDIRECT && j < |i1| && l < SLOTS
    requires 0 == i0[i].addrs[k] != i1[i].addrs[k] && Shaped(i0[i])
    ensures Shaped(i1[i := i0[i]][j]) && Ref(disk, i1[i := i0[i]][j], l) != i1[i].addrs[k]
  {
    var x := i1[i].addrs[k];
    assert Ref(disk, i1[i], k) == x && Ref(b0, i0[i], NDIRECT) == i0[i].addrs[NDIRECT];
    assert Ref(b1, i1[i], NDIRECT) == i1[i].addrs[NDIRECT];
    assert o1[x] == (i, k);
    if j == i {
      if l <= NDIRECT {
        assert Ref(b0, i0[i], l) == i0[i].addrs[l] && Ref(b1, i1[i], l) == i1[i].addrs[l];
        assert Ref(disk, i1[i], l) == i1[i].addrs[l];
      } else if i0[i].addrs[NDIRECT] != 0 {
        assert Ref(disk, i0[i], l) == Ref(disk, i1[i], l);
      }
    }
  }

  // ---------------------------------------------------------------- commit and recovery

  /** lh lists exactly the logged blocks. */
  ghost predicate Lists(lh: seq<nat>, logged: set<nat>) {
    forall b :: b in lh <==> b in logged
  }

  /** What bread returns for the logged blocks. */
  function View(blocks: seq<Block>, logged: set<nat>): map<nat, Block> {
    map b | b in logged && b < |blocks| :: blocks[b]
  }

  /** The commit of the logged blocks is cut off after k block writes, the recoveries after it as cuts says, and the
      last recovery completes. */
  ghost predicate Crashes(g: W.Geometry, d: W.Disk, blocks: seq<Block>, logged: set<nat>, lh: seq<nat>, k: nat,
                          cuts: seq<nat>) {
    && W.Clean(g, d) && W.GoodList(g, d, lh) && Lists(lh, logged) && |d| == |blocks| && k <= W.CommitLength(lh)
    && W.CutsOk(g, W.Apply(d, W.CommitWrites(g, d, lh, View(blocks, logged))[..k]), cuts)
  }

  ghost function After(g: W.Geometry, d: W.Disk, blocks: seq<Block>, logged: set<nat>, lh: seq<nat>, k: nat,
                       cuts: seq<nat>): W.Disk
    requires Crashes(g, d, blocks, logged, lh, k, cuts)
  {
    var e := W.AfterCuts(g, W.Apply(d, W.CommitWrites(g, d, lh, View(blocks, logged))[..k]), cuts);
    W.RecoverDespiteCuts(g, W.Apply(d, W.CommitWrites(g, d, lh, View(blocks, logged))[..k]), cuts);
    W.Recovered(g, e)
  }

  /** From the inodes on, the disk is the old one before the header is written and the new one afterwards. */
  lemma AfterIs(g: W.Geometry, d: W.Disk, sb: Super, b0: seq<Block>, b1: seq<Block>, logged: set<nat>, lh: seq<nat>,
                k: nat, cuts: seq<nat>)
    requires Crashes(g, d, b1, logged, lh, k, cuts) && W.SameHome(g, d, b0) && g.start + g.size <= sb.inodestart
    requires Logs(b0, {}, b1, logged)
    ensures SameFrom(sb, After(g, d, b1, logged, lh, k, cuts), if k <= |lh| then b0 else b1)
  {
    hide W.Recovered, W.AfterCuts, W.Apply, W.CommitWrites, W.CutsOk, W.Recoverable, W.Clean;
    W.CrashAtomicity(g, d, lh, View(b1, logged), k, cuts);
    var r := After(g, d, b1, logged, lh, k, cuts);
    forall c | sb.inodestart <= c < |b1| ensures r[c] == if k <= |lh| then b0[c] else b1[c] {
      assert !W.InLog(g, c);
    }
  }

  // ---------------------------------------------------------------- a chunk of filewrite

  /** The chunk writes the inode, or no slot of it changes. */
  predicate KeepsInode(ino: Inode, off: nat, n: nat, full: bool) {
    || off > ino.size || off + n > MAXBYTES
    || (off + n > ino.size && !(full && n > 0)) || HasSlots(ino, off, n)
  }

  /** A chunk, its commit, a crash at any block write of it, any number of crashes in the recoveries, and one recovery
      that completes.  The disk then holds the old files if the header was not written.  If it was, the disk holds the
      new ones exactly when the chunk left the inode in step; otherwise a block is marked in use that no inode on the
      disk names, so no ownership makes it a file system. */
  method CrashInChunk(fs: Fs, i: nat, off: nat, src: seq<Byte>, full: bool, ghost g: W.Geometry, ghost d: W.Disk)
    returns (r: Written)
    requires fs.Valid() && AllSaved(fs.sb, fs.blocks, fs.inodes) && i < |fs.inodes| && off < UINT && |src| <= MAXCHUNK
    requires W.SameHome(g, d, fs.blocks) && g.start + g.size <= fs.sb.inodestart
    modifies fs`blocks, fs`inodes, fs`owner, fs`logged
    ensures fs.Valid() && |fs.inodes| == |old(fs.inodes)| && Shaped(fs.inodes[i]) && Shaped(old(fs.inodes)[i])
    ensures forall j :: 0 <= j < |fs.inodes| ==> Shaped(fs.inodes[j]) && Shaped(old(fs.inodes)[j])
    ensures forall j :: 0 <= j < |fs.inodes| && j != i ==> Files(fs.blocks, fs.inodes)[j] == old(Files(fs.blocks, fs.inodes))[j]
    ensures r.Count? ==>
      && off <= old(fs.inodes)[i].size
      && Files(fs.blocks, fs.inodes)[i] == Overlaid(old(Files(fs.blocks, fs.inodes))[i], off, src)
    ensures !r.Panicked? && fs.sb.size == FSSIZE && W.LOGSIZE <= g.size ==>
      exists lh :: W.GoodList(g, d, lh) && Lists(lh, fs.logged)
    ensures !r.Panicked? ==> forall lh, k: nat, cuts :: Crashes(g, d, fs.blocks, fs.logged, lh, k, cuts) ==>
      Survives(fs.sb, old(Files(fs.blocks, fs.inodes)), old(fs.owner), Files(fs.blocks, fs.inodes), fs.owner,
               After(g, d, fs.blocks, fs.logged, lh, k, cuts), k > |lh|, KeepsInode(old(fs.inodes)[i], off, |src|, full))
  {
    hide Image, OtherFiles, RefsKept, Content, Overlaid, Logs, TableKept, Recorded, Lack, OnlyInode, HasSlots, Touched,
         AllSaved, Survives, Crashes, After, W.SameHome, W.GoodList, Lists, LogChunks.NeverPanics, EndBlock, Dinode;
    ghost var b0, i0, o0 := fs.blocks, fs.inodes, fs.owner;
    ImageShaped(fs.sb, b0, i0, o0);
    SavedAt(fs.sb, b0, i0, i);
    r := fs.WriteChunk(i, off, src, full);
    OthersSame(b0, i0, fs.blocks, fs.inodes, i);
    if !r.Panicked? {
      if fs.sb.size == FSSIZE && W.LOGSIZE <= g.size {
        HomeLength(g, d, b0);
        CanCommit(fs.sb, b0, i0, o0, fs.blocks, fs.inodes, fs.owner, fs.logged, i, off, |src|, r, g, d);
      }
      ghost var kept := KeepsInode(i0[i], off, |src|, full);
      if kept {
        SavedAll(fs.sb, b0, i0, fs.blocks, fs.inodes, i);
      } else {
        OverlaidLength(Content(b0, i0[i]), off, src);
        LostAll(fs.sb, b0, i0, fs.blocks, fs.inodes, i);
      }
      EveryCrash(fs.sb, b0, i0, o0, fs.blocks, fs.inodes, fs.owner, fs.logged, i, g, d, kept);
    }
  }

  lemma EveryCrash(sb: Super, b0: seq<Block>, i0: seq<Inode>, o0: Owner, b1: seq<Block>, i1: seq<Inode>, o1: Owner,
                   logged: set<nat>, i: nat, g: W.Geometry, d: W.Disk, kept: bool)
    requires Image(sb, b0, i0, o0) && AllSaved(sb, b0, i0) && Image(sb, b1, i1, o1) && RefsKept(b0, i0, b1, i1) && i < |i1|
    requires if kept then AllSaved(sb, b1, i1) else AllSaved(sb, b1, i1[i := i0[i]]) && i0[i].addrs != i1[i].addrs
    requires W.SameHome(g, d, b0) && g.start + g.size <= sb.inodestart && Logs(b0, {}, b1, logged)
    ensures forall j :: 0 <= j < |i0| ==> Shaped(i0[j]) && Shaped(i1[j])
    ensures forall lh, k: nat, cuts :: Crashes(g, d, b1, logged, lh, k, cuts) ==>
      Survives(sb, Files(b0, i0), o0, Files(b1, i1), o1, After(g, d, b1, logged, lh, k, cuts), k > |lh|, kept)
  {
    hide Image, AllSaved, Survives, Crashes, After, Files, RefsKept, Logs, W.SameHome;
    ImageShaped(sb, b0, i0, o0);
    ImageShaped(sb, b1, i1, o1);
    assert |i1| == |i0| by { KeptLength(b0, i0, b1, i1); }
    forall lh, k: nat, cuts | Crashes(g, d, b1, logged, lh, k, cuts)
      ensures Survives(sb, Files(b0, i0), o0, Files(b1, i1), o1, After(g, d, b1, logged, lh, k, cuts), k > |lh|, kept)
    {
      AfterIs(g, d, sb, b0, b1, logged, lh, k, cuts);
      SurvivesFrom(sb, b0, i0, o0, b1, i1, o1, i, After(g, d, b1, logged, lh, k, cuts), k > |lh|, kept);
    }
  }

  lemma KeptLength(b0: seq<Block>, i0: seq<Inode>, b1: seq<Block>, i1: seq<Inode>)
    requires RefsKept(b0, i0, b1, i1)
    ensures |i1| == |i0|
  {
  }

  lemma HomeLength(g: W.Geometry, d: W.Disk, e: W.Disk)
    requires W.SameHome(g, d, e)
    ensures |d| == |e|
  {
  }

  lemma {:induction false} Listing(logged: set<nat>) returns (lh: seq<nat>)
    ensures W.Distinct(lh) && Lists(lh, logged) && |lh| == |logged|
  {
    if logged == {} {
      lh := [];
    } else {
      var b :| b in logged;
      var init := Listing(logged - {b});
      lh := init + [b];
    }
  }

  /** The log of mkfs takes the chunk. */
  lemma CanCommit(sb: Super, b0: seq<Block>, i0: seq<Inode>, o0: Owner, blocks: seq<Block>, inodes: seq<Inode>, owner: Owner,
                  logged: set<nat>, i: nat, off: nat, n: nat, r: Written, g: W.Geometry, d: W.Disk)
    requires Image(sb, b0, i0, o0) && Image(sb, blocks, inodes, owner) && i < |inodes| && Shaped(inodes[i])
    requires |d| == |b0| && g.start + g.size <= sb.inodestart && W.LOGSIZE <= g.size && |logged| <= LogChunks.CHUNKBLOCKS
    requires r.BadRange? ==> logged == {}
    requires !r.BadRange? ==>
      && off + n <= MAXBYTES && EndBlock(off, n) <= MAXFILE && logged <= Touched(sb, blocks, inodes[i], off, n) + {InodeBlock(sb, i)}
      && Recorded(sb, b0, i0, blocks, inodes, logged, i, off / BSIZE, EndBlock(off, n))
    ensures exists lh :: W.GoodList(g, d, lh) && Lists(lh, logged)
  {
    hide Image, Ref, Recorded, EndBlock, Touched;
    TableBelow(sb, b0, i0, o0);
    TableBelow(sb, blocks, inodes, owner);
    forall b | b in logged ensures sb.inodestart <= b < |blocks| {
      LoggedAbove(sb, b0, i0, blocks, inodes, owner, logged, i, off, n, b);
    }
    var lh := Listing(logged);
    forall k | 0 <= k < |lh| ensures lh[k] < |d| && !W.InLog(g, lh[k]) {
      assert lh[k] in logged;
    }
  }

  lemma LoggedAbove(sb: Super, b0: seq<Block>, i0: seq<Inode>, blocks: seq<Block>, inodes: seq<Inode>, owner: Owner,
                    logged: set<nat>, i: nat, off: nat, n: nat, b: nat)
    requires Image(sb, blocks, inodes, owner) && i < |inodes| && Shaped(inodes[i])
    requires off + n <= MAXBYTES && EndBlock(off, n) <= MAXFILE
    requires b in Touched(sb, blocks, inodes[i], off, n) + {InodeBlock(sb, i)}
    requires Recorded(sb, b0, i0, blocks, inodes, logged, i, off / BSIZE, EndBlock(off, n))
    ensures sb.inodestart <= b < |blocks|
  {
    hide Image, Ref, Noted, DataBlocks, BitmapBlocks, EndBlock, Dinode;
    TableBelow(sb, blocks, inodes, owner);
    if b in BitmapBlocks(sb) {
      BitmapAbove(sb, blocks, inodes, owner, b);
    } else if b == InodeBlock(sb, i) {
      InodeWords(sb, blocks, inodes, owner, i);
    } else if b in IndirectBlock(inodes[i]) {
      IndirectAbove(sb, blocks, inodes, owner, i);
    } else {
      EndBlockFits(off, n);
      LayoutBound(sb, blocks, inodes, owner);
      ChunkLog.DataCount(sb, blocks, inodes, owner, i, off / BSIZE, EndBlock(off, n));
      ChunkLog.DataOwned(sb, blocks, inodes, owner, i, off / BSIZE, EndBlock(off, n));
    }
  }

  lemma BitmapAbove(sb: Super, blocks: seq<Block>, inodes: seq<Inode>, owner: Owner, b: nat)
    requires Image(sb, blocks, inodes, owner) && b in BitmapBlocks(sb)
    ensures sb.bmapstart <= b < |blocks|
  {
    hide Owned, Marked;
    LayoutBound(sb, blocks, inodes, owner);
  }

  /** What the disk holds in the end. */
  ghost predicate Survives(sb: Super, files: seq<seq<Byte>>, owner: Owner, files': seq<seq<Byte>>, owner': Owner,
                           disk: W.Disk, committed: bool, kept: bool) {
    if !committed then Holds(sb, disk, owner, files)
    else if kept then Holds(sb, disk, owner', files')
    else sb.inodestart + |files'| / IPB < |disk| && forall o :: !Image(sb, disk, Table(sb, disk, |files'|), o)
  }

  lemma SavedAt(sb: Super, blocks: seq<Block>, inodes: seq<Inode>, i: nat)
    requires AllSaved(sb, blocks, inodes) && i < |inodes|
    ensures InodeBlock(sb, i) < |blocks| && Dinode(sb, blocks, i) == inodes[i]
  {
  }

  lemma OthersSame(b0: seq<Block>, i0: seq<Inode>, b1: seq<Block>, i1: seq<Inode>, i: nat)
    requires OtherFiles(b0, i0, b1, i1, i)
    ensures forall j :: 0 <= j < |i0| ==> Shaped(i0[j]) && Shaped(i1[j])
    ensures forall j :: 0 <= j < |i0| && j != i ==> Files(b1, i1)[j] == Files(b0, i0)[j]
  {
    hide OtherFiles, Content;
    OtherShaped(b0, i0, b1, i1, i);
    forall j | 0 <= j < |i0| && j != i ensures Files(b1, i1)[j] == Files(b0, i0)[j] {
      OtherContents(b0, i0, b1, i1, i, j);
    }
  }

  lemma OtherShaped(b0: seq<Block>, i0: seq<Inode>, b1: seq<Block>, i1: seq<Inode>, i: nat)
    requires OtherFiles(b0, i0, b1, i1, i)
    ensures |i1| == |i0| && forall j :: 0 <= j < |i0| ==> Shaped(i0[j]) && Shaped(i1[j])
  {
  }

  lemma SavedAll(sb: Super, b0: seq<Block>, i0: seq<Inode>, b1: seq<Block>, i1: seq<Inode>, i: nat)
    requires AllSaved(sb, b0, i0) && OnlyInode(i0, i1, i) && TableKept(sb, |i1|, b0, b1, i) && i < |i1|
    requires InodeBlock(sb, i) < |b1| && Dinode(sb, b1, i) == i1[i]
    ensures AllSaved(sb, b1, i1)
  {
    hide Dinode;
  }

  /** The disk still has the old inode i. */
  lemma LostAll(sb: Super, b0: seq<Block>, i0: seq<Inode>, b1: seq<Block>, i1: seq<Inode>, i: nat)
    requires AllSaved(sb, b0, i0) && OnlyInode(i0, i1, i) && TableKept(sb, |i1|, b0, b1, |i1|) && i < |i1|
    ensures InodeBlock(sb, i) < |b1| && Dinode(sb, b1, i) == i0[i] && AllSaved(sb, b1, i1[i := i0[i]])
  {
    hide Dinode;
  }

  lemma OverlaidLength(c: seq<Byte>, off: nat, src: seq<Byte>)
    requires off <= |c|
    ensures |Overlaid(c, off, src)| == Max(|c|, off + |src|)
  {
  }

  lemma SurvivesFrom(sb: Super, b0: seq<Block>, i0: seq<Inode>, o0: Owner, b1: seq<Block>, i1: seq<Inode>, o1: Owner, i: nat,
                     disk: W.Disk, committed: bool, kept: bool)
    requires Image(sb, b0, i0, o0) && AllSaved(sb, b0, i0) && Image(sb, b1, i1, o1) && RefsKept(b0, i0, b1, i1) && i < |i1|
    requires if kept then AllSaved(sb, b1, i1) else AllSaved(sb, b1, i1[i := i0[i]]) && i0[i].addrs != i1[i].addrs
    requires SameFrom(sb, disk, if committed then b1 else b0)
    ensures forall j :: 0 <= j < |i0| ==> Shaped(i0[j]) && Shaped(i1[j])
    ensures Survives(sb, Files(b0, i0), o0, Files(b1, i1), o1, disk, committed, kept)
  {
    hide Image, AllSaved, SameFrom, Holds, Files, Table, Ref;
    ImageShaped(sb, b0, i0, o0);
    ImageShaped(sb, b1, i1, o1);
    if !committed {
      HoldsFrom(sb, b0, i0, o0, disk);
    } else if kept {
      HoldsFrom(sb, b1, i1, o1, disk);
    } else {
      TableBelow(sb, b1, i1, o1);
      assert |disk| == |b1| by { SameLength(sb, disk, b1); }
      forall o ensures !Image(sb, disk, Table(sb, disk, |i1|), o) {
        LostFrom(sb, b0, i0, b1, i1, o1, i, disk, o);
      }
    }
  }

  lemma SameLength(sb: Super, disk: seq<Block>, blocks: seq<Block>)
    requires SameFrom(sb, disk, blocks)
    ensures |disk| == |blocks|
  {
  }
}
