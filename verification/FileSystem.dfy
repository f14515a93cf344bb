/**
  The block and file layers of fs.c: balloc, bfree, bmap, itrunc, readi, writei, and the chunked
  filewrite of file.c, on a disk that is updated in place.
 */
module FileSystem {
  import opened Words
  import opened FsFormat
  import opened FsImage
  import opened FsSpace
  import opened Sets
  import WriteAheadLog
  import LogChunks

  const LOGSIZE := WriteAheadLog.LOGSIZE
  const CHUNKBLOCKS := LogChunks.CHUNKBLOCKS

  const MAXBYTES: nat := MAXFILE * BSIZE

  datatype Option<+T> = None | Some(value: T)

  /** src laid over a block from byte at on. */
  function Splice(b: Block, at: nat, src: seq<Byte>): (r: Block)
    requires at + |src| <= BSIZE
    ensures forall q :: 0 <= q < BSIZE ==> r[q] == if at <= q < at + |src| then src[q - at] else b[q]
  {
    b[..at] + src + b[at + |src|..]
  }

  /** Byte p of a file, below or above its size. */
  function FileByte(blocks: seq<Block>, ino: Inode, p: nat): Byte
    requires Shaped(ino) && p < MAXBYTES
  {
    FileBlock(blocks, ino, p / BSIZE)[p % BSIZE]
  }

  /** The flat byte array after a write of src at off. */
  function Overlaid(c: seq<Byte>, off: nat, src: seq<Byte>): seq<Byte>
    requires off <= |c|
  {
    c[..off] + src + if off + |src| < |c| then c[off + |src|..] else []
  }

  // ---------------------------------------------------------------- which blocks get logged

  /** The blocks of the free map. */
  function BitmapBlocks(sb: Super): set<nat> {
    Interval(sb.bmapstart, sb.bmapstart + sb.size / BPB + 1)
  }

  function IndirectBlock(ino: Inode): set<nat>
    requires Shaped(ino)
  {
    if ino.addrs[NDIRECT] == 0 then {} else {ino.addrs[NDIRECT]}
  }

  /** The disk blocks of the file blocks lo..hi. */
  function DataBlocks(blocks: seq<Block>, ino: Inode, lo: nat, hi: nat): set<nat>
    requires Shaped(ino) && hi <= MAXFILE
  {
    if lo >= hi then {} else DataBlocks(blocks, ino, lo, hi - 1) + {Ref(blocks, ino, Slot(hi - 1))}
  }

  lemma {:induction false} DataBlocksCount(blocks: seq<Block>, ino: Inode, lo: nat, hi: nat)
    requires Shaped(ino) && lo <= hi <= MAXFILE
    ensures |DataBlocks(blocks, ino, lo, hi)| <= hi - lo
    decreases hi
  {
    if lo < hi { DataBlocksCount(blocks, ino, lo, hi - 1); }
  }

  lemma {:induction false} DataBlocksKept(blocks: seq<Block>, inodes: seq<Inode>, blocks': seq<Block>, inodes': seq<Inode>,
                                          i: nat, lo: nat, hi: nat)
    requires RefsKept(blocks, inodes, blocks', inodes') && i < |inodes| && hi <= MAXFILE
    requires forall n :: lo <= n < hi ==> Ref(blocks, inodes[i], Slot(n)) != 0
    ensures DataBlocks(blocks', inodes'[i], lo, hi) == DataBlocks(blocks, inodes[i], lo, hi)
    decreases hi
  {
    if lo < hi { DataBlocksKept(blocks, inodes, blocks', inodes', i, lo, hi - 1); }
  }

  lemma {:induction false} DataBlocksHas(blocks: seq<Block>, ino: Inode, lo: nat, hi: nat, n: nat)
    requires Shaped(ino) && lo <= n < hi <= MAXFILE
    ensures Ref(blocks, ino, Slot(n)) in DataBlocks(blocks, ino, lo, hi)
    ensures DataBlocks(blocks, ino, lo, n) <= DataBlocks(blocks, ino, lo, hi)
    decreases hi
  {
    if n < hi - 1 { DataBlocksHas(blocks, ino, lo, hi - 1, n); }
  }

  /** min(n, BSIZE - off%BSIZE). */
  function Piece(off: nat, n: nat): (m: nat)
    ensures m <= n && off % BSIZE + m <= BSIZE
    ensures n > 0 ==> m > 0
  {
    if n < BSIZE - off % BSIZE then n else BSIZE - off % BSIZE
  }

  /** One past the last file block that bytes off..off+n touch. */
  function EndBlock(off: nat, n: nat): nat {
    if n == 0 then off / BSIZE else (off + n - 1) / BSIZE + 1
  }

  /** What a write of n bytes at off may log, apart from the inode. */
  function Touched(sb: Super, blocks: seq<Block>, ino: Inode, off: nat, n: nat): set<nat>
    requires Shaped(ino) && off + n <= MAXBYTES
  {
    BitmapBlocks(sb) + IndirectBlock(ino) + DataBlocks(blocks, ino, off / BSIZE, EndBlock(off, n))
  }

  /** The outcome of writei: a panic, -1 for a bad range, -1 after the container's quota was hit, or n. */
  datatype Written = Panicked | BadRange | OverQuota | Count(n: nat)

  /** The outcome of readi: a panic, -1 for a bad range, or the bytes. */
  datatype Read = ReadPanicked | ReadBadRange | Data(bytes: seq<Byte>)

  /** filewrite's chunk: ((LOGSIZE-1-1-2) / 2) * 512. */
  const MAXCHUNK: nat := 6656

  class Fs {
    const sb: Super
    var blocks: seq<Block>        // the disk as seen through the log and the cache
    var inodes: seq<Inode>        // in memory
    ghost var owner: Owner
    ghost var logged: set<nat>    // block numbers passed to log_write

    ghost predicate Valid()
      reads this
    {
      Image(sb, blocks, inodes, owner)
    }

    /** The inode on the disk is the one in memory. */
    predicate Saved(i: nat)
      reads this
    {
      i < |inodes| && InodeBlock(sb, i) < |blocks| && Dinode(sb, blocks, i) == inodes[i]
    }

    /** iupdate: the inode goes into its block. */
    method Iupdate(i: nat)
      requires Valid() && i < |inodes|
      modifies this`blocks, this`logged
      ensures Valid() && Saved(i) && TableKept(sb, |inodes|, old(blocks), blocks, i)
      ensures InodeBlock(sb, i) < sb.bmapstart && logged == old(logged) + {InodeBlock(sb, i)}
      ensures Logs(old(blocks), old(logged), blocks, logged) && SameAbove(sb, old(blocks), blocks)
    {
      hide Owned, Marked, Logs, TableKept, SameAbove, DinodeAt, PutDinode;
      ImageShaped(sb, blocks, inodes, owner);
      InodeWords(sb, blocks, inodes, owner, i);
      var at := InodeBlock(sb, i);
      UpdateKeeps(sb, blocks, logged, inodes, owner, i);
      blocks := blocks[at := PutDinode(blocks[at], i % IPB, inodes[i])];
      logged := logged + {at};
    }

    /** The inner loop of balloc: the first clear bit at or after block b in b's free-map block. */
    method ScanBitmap(b: nat) returns (bi: nat)
      requires Layout(sb) && |blocks| == sb.size && b < sb.size && b % BPB == 0
      ensures bi <= BPB && b + bi <= sb.size
      ensures forall c :: b <= c < b + bi ==> Used(sb, blocks, c)
      ensures bi < BPB && b + bi < sb.size ==> !Used(sb, blocks, b + bi)
    {
      bi := 0;
      while bi < BPB && b + bi < sb.size
        invariant bi <= BPB && b + bi <= sb.size
        invariant forall c :: b <= c < b + bi ==> Used(sb, blocks, c)
      {
        assert (b + bi) / BPB == b / BPB && (b + bi) % BPB == bi;
        if !Bit(blocks[sb.bmapstart + b / BPB], bi) {
          assert !Used(sb, blocks, b + bi);
          return;
        }
        bi := bi + 1;
      }
    }

    /** None is the panic "balloc: out of blocks". */
    method Balloc() returns (found: Option<nat>)
      requires Valid()
      modifies this`blocks, this`logged
      ensures found.Some? ==>
        && sb.nmeta <= found.value < sb.size
        && !Used(sb, old(blocks), found.value) && found.value !in owner
        && (forall c :: 0 <= c < found.value ==> Used(sb, old(blocks), c))
        && blocks == Allocate(sb, old(blocks), found.value)
        && 0 < found.value && logged == old(logged) + {sb.bmapstart + found.value / BPB} + {found.value}
      ensures found.None? ==> (
        && blocks == old(blocks) && logged == old(logged)
        && forall c :: 0 <= c < sb.size ==> Used(sb, blocks, c))
      ensures found.Some? <==> Spare(sb, owner) > 0
      ensures Trace(sb, old(blocks), old(logged), blocks, logged)
    {
      hide Owned, Marked, Trace, Allocate, Used;
      SpareIs(sb, blocks, inodes, owner);
      TraceRefl(sb, blocks, logged);
      found := FindFree();
      if found.Some? {
        FreeIs(sb, blocks, inodes, owner, found.value);
        MarkAndZero(found.value);
      }
    }

    /** The outer loop of balloc: the first block whose bit is clear. */
    method FindFree() returns (found: Option<nat>)
      requires Layout(sb) && |blocks| == sb.size
      ensures found.Some? ==>
        found.value < sb.size && !Used(sb, blocks, found.value) && forall c :: 0 <= c < found.value ==> Used(sb, blocks, c)
      ensures found.None? ==> forall c :: 0 <= c < sb.size ==> Used(sb, blocks, c)
    {
      hide Used;
      var b := 0;
      while b < sb.size
        invariant b % BPB == 0
        invariant forall c :: 0 <= c < b && c < sb.size ==> Used(sb, blocks, c)
      {
        var bi := ScanBitmap(b);
        if bi < BPB && b + bi < sb.size {
          return Some(b + bi);
        }
        b := b + BPB;
      }
      return None;
    }

    method MarkAndZero(b: nat)
      requires Layout(sb) && |blocks| == sb.size && sb.nmeta <= b < sb.size
      modifies this`blocks, this`logged
      ensures blocks == Allocate(sb, old(blocks), b)
      ensures logged == old(logged) + {sb.bmapstart + b / BPB} + {b}
      ensures Trace(sb, old(blocks), old(logged), blocks, logged)
    {
      hide PutBit, Used;
      var at := sb.bmapstart + b / BPB;
      blocks := blocks[at := PutBit(blocks[at], b % BPB, true)];
      logged := logged + {at};
      blocks := blocks[b := ZeroBlock()];
      logged := logged + {b};
    }

    /** true is the panic "freeing free block". */
    method Bfree(b: nat) returns (panicked: bool)
      requires Layout(sb) && |blocks| == sb.size && b < sb.size
      modifies this`blocks, this`logged
      ensures panicked <==> !Used(sb, old(blocks), b)
      ensures blocks == if panicked then old(blocks) else PutUsed(sb, old(blocks), b, false)
      ensures logged == if panicked then old(logged) else old(logged) + {sb.bmapstart + b / BPB}
      ensures Trace(sb, old(blocks), old(logged), blocks, logged)
    {
      var at, bi := sb.bmapstart + b / BPB, b % BPB;
      if !Bit(blocks[at], bi) {
        return true;
      }
      blocks := blocks[at := PutBit(blocks[at], bi, false)];
      logged := logged + {at};
      return false;
    }

    /** Gives slot k of inode i a block of its own, unless the disk is full. */
    method AllocateSlot(i: nat, k: nat) returns (found: Option<nat>)
      requires Valid() && i < |inodes| && k < SLOTS
      requires Shaped(inodes[i]) && Ref(blocks, inodes[i], k) == 0 && (k > NDIRECT ==> inodes[i].addrs[NDIRECT] != 0)
      modifies this`blocks, this`inodes, this`owner, this`logged
      ensures Valid() && (found.Some? ==> found.value != 0)
      ensures Slotted(sb, old(blocks), old(inodes), old(owner), old(logged), blocks, inodes, owner, logged, i, k,
                      if found.Some? then found.value else 0)
      ensures found.None? ==>
        && blocks == old(blocks) && inodes == old(inodes) && owner == old(owner) && logged == old(logged)
        && forall c :: 0 <= c < sb.size ==> Used(sb, blocks, c)
    {
      hide Owned, Marked, Slotted, Used, Trace, Allocate, Ref;
      found := Balloc();
      if found.Some? {
        var r := found.value;
        if k > NDIRECT {
          SlottedEntry(sb, old(blocks), inodes, owner, old(logged), blocks, logged, i, k, r);
          var p := inodes[i].addrs[NDIRECT];
          blocks := blocks[p := PutWord(blocks[p], k - NDIRECT - 1, r)];
          logged := logged + {p};
        } else {
          SlottedDirect(sb, old(blocks), inodes, owner, old(logged), blocks, logged, i, k, r);
          inodes := inodes[i := inodes[i].(addrs := inodes[i].addrs[k := r])];
        }
        owner := owner[r := (i, k)];
      } else {
        SlottedNone(sb, blocks, inodes, owner, logged, i, k);
      }
    }

    /** None is a panic: a block number out of range, or fewer blocks free than it takes. */
    method Bmap(i: nat, bn: nat) returns (addr: Option<nat>)
      requires Valid() && i < |inodes|
      modifies this`blocks, this`inodes, this`owner, this`logged
      ensures Valid() && (bn >= MAXFILE ==> addr.None? && unchanged(this))
      ensures bn < MAXFILE ==>
        Mapped(sb, old(blocks), old(inodes), old(owner), old(logged), blocks, inodes, owner, logged, i, bn, addr.Some?)
      ensures addr.Some? ==>
        i < |inodes| && Shaped(inodes[i]) && 0 != addr.value < |blocks| && addr.value == Ref(blocks, inodes[i], Slot(bn))
      ensures addr.None? && bn < MAXFILE ==> forall c :: 0 <= c < sb.size ==> Used(sb, blocks, c)
    {
      hide Owned, Marked, Used, Slotted, Mapped, Ref;
      ImageShaped(sb, blocks, inodes, owner);
      if bn >= MAXFILE { return None; }
      if bn < NDIRECT {
        addr := Some(inodes[i].addrs[bn]);
        DirectRef(blocks, inodes[i], bn);
        if addr.value == 0 {
          addr := AllocateSlot(i, bn);
          MappedDirect(sb, old(blocks), old(inodes), old(owner), old(logged), blocks, inodes, owner, logged, i, bn,
                       if addr.Some? then addr.value else 0);
        } else {
          MappedSame(sb, blocks, inodes, owner, logged, i, bn);
        }
      } else {
        addr := BmapIndirect(i, bn);
      }
      MappedMeans(sb, old(blocks), old(inodes), old(owner), old(logged), blocks, inodes, owner, logged, i, bn, addr.Some?);
    }

    /** bmap for a file block beyond the direct ones. */
    method BmapIndirect(i: nat, bn: nat) returns (addr: Option<nat>)
      requires Valid() && i < |inodes| && NDIRECT <= bn < MAXFILE
      modifies this`blocks, this`inodes, this`owner, this`logged
      ensures Valid()
      ensures Mapped(sb, old(blocks), old(inodes), old(owner), old(logged), blocks, inodes, owner, logged, i, bn, addr.Some?)
      ensures addr.Some? ==> i < |inodes| && Shaped(inodes[i]) && 0 != addr.value == Ref(blocks, inodes[i], Slot(bn))
    {
      hide Owned, Marked, Used, Slotted, Mapped, Ref;
      var loaded := LoadIndirect(i);
      ghost var blocks1, inodes1, owner1, logged1 := blocks, inodes, owner, logged;
      if !loaded {
        MappedUnloaded(sb, old(blocks), old(inodes), old(owner), old(logged), blocks, inodes, owner, logged, i, bn);
        return None;
      }
      LoadedRef(sb, old(blocks), old(inodes), old(owner), old(logged), blocks, inodes, owner, logged, i, bn);
      addr := Some(Word(blocks[inodes[i].addrs[NDIRECT]], bn - NDIRECT));
      if addr.value == 0 {
        addr := AllocateSlot(i, bn + 1);
        EntryMapped(sb, old(blocks), old(inodes), old(owner), old(logged), blocks1, inodes1, owner1, logged1,
                    blocks, inodes, owner, logged, i, bn, if addr.Some? then addr.value else 0);
      } else {
        MappedSame(sb, blocks, inodes, owner, logged, i, bn);
      }
    }

    /** The indirect block of inode i, allocated if necessary. */
    method LoadIndirect(i: nat) returns (loaded: bool)
      requires Valid() && i < |inodes|
      modifies this`blocks, this`inodes, this`owner, this`logged
      ensures Valid() && Loaded(sb, old(blocks), old(inodes), old(owner), old(logged), blocks, inodes, owner, logged, i)
      ensures i < |inodes| && Shaped(inodes[i]) && (loaded <==> inodes[i].addrs[NDIRECT] != 0)
      ensures loaded ==> inodes[i].addrs[NDIRECT] < |blocks|
    {
      hide Owned, Marked, Used, Slotted;
      ImageShaped(sb, blocks, inodes, owner);
      loaded := true;
      if inodes[i].addrs[NDIRECT] == 0 {
        var p := AllocateSlot(i, NDIRECT);
        loaded := p.Some?;
        SlottedMeans(sb, old(blocks), old(inodes), old(owner), old(logged), blocks, inodes, owner, logged, i, NDIRECT,
                     if p.Some? then p.value else 0);
      }
      IndirectAbove(sb, blocks, inodes, owner, i);
    }

    /** The first loop of itrunc. */
    method TruncateDirect(i: nat) returns (panicked: bool)
      requires Valid() && i < |inodes|
      modifies this`blocks, this`inodes, this`owner, this`logged
      ensures !panicked && Valid() && SameOthers(old(blocks), old(inodes), blocks, inodes, i) && i < |inodes|
      ensures inodes[i].size == old(inodes)[i].size && inodes[i].addrs[NDIRECT] == old(inodes)[i].addrs[NDIRECT]
      ensures forall t :: 0 <= t < NDIRECT ==> inodes[i].addrs[t] == 0
      ensures forall b :: b in owner <==> b in old(owner) && !(old(owner)[b].0 == i && old(owner)[b].1 < NDIRECT)
      ensures forall b :: b in owner ==> owner[b] == old(owner)[b]
      ensures Trace(sb, old(blocks), old(logged), blocks, logged)
    {
      hide Owned, Marked, SameOthers, Trace;
      panicked := false;
      ImageShaped(sb, blocks, inodes, owner);
      SameOthersRefl(sb, blocks, inodes, owner, i);
      TraceRefl(sb, blocks, logged);
      for k := 0 to NDIRECT
        invariant !panicked && Valid() && SameOthers(old(blocks), old(inodes), blocks, inodes, i)
        invariant i < |inodes| && |inodes[i].addrs| == NDIRECT + 1
        invariant inodes[i].size == old(inodes)[i].size && inodes[i].addrs[NDIRECT] == old(inodes)[i].addrs[NDIRECT]
        invariant forall t :: 0 <= t < k ==> inodes[i].addrs[t] == 0
        invariant forall b :: b in owner <==> b in old(owner) && !(old(owner)[b].0 == i && old(owner)[b].1 < k)
        invariant forall b :: b in owner ==> owner[b] == old(owner)[b]
        invariant Trace(sb, old(blocks), old(logged), blocks, logged)
      {
        ghost var blocks1, inodes1, logged1 := blocks, inodes, logged;
        panicked := TruncateOne(i, k);
        SameOthersTrans(old(blocks), old(inodes), blocks1, inodes1, blocks, inodes, i);
        TraceTrans(sb, old(blocks), old(logged), blocks1, logged1, blocks, logged);
      }
    }

    method TruncateOne(i: nat, k: nat) returns (panicked: bool)
      requires Valid() && i < |inodes| && k < NDIRECT
      modifies this`blocks, this`inodes, this`owner, this`logged
      ensures !panicked && Valid() && SameOthers(old(blocks), old(inodes), blocks, inodes, i) && i < |inodes|
      ensures |old(inodes)[i].addrs| == NDIRECT + 1 && inodes[i] == old(inodes)[i].(addrs := old(inodes)[i].addrs[k := 0])
      ensures forall b :: b in owner <==> b in old(owner) && old(owner)[b] != (i, k)
      ensures forall b :: b in owner ==> owner[b] == old(owner)[b]
      ensures Trace(sb, old(blocks), old(logged), blocks, logged)
    {
      hide Owned, Marked, SameOthers, PutUsed, Used, Ref, Trace;
      panicked := false;
      OwnerOf(sb, blocks, inodes, owner, i, k);
      SameOthersRefl(sb, blocks, inodes, owner, i);
      TraceRefl(sb, blocks, logged);
      if inodes[i].addrs[k] != 0 {
        FreeDirect(sb, blocks, inodes, owner, i, k);
        panicked := Bfree(inodes[i].addrs[k]);
        owner := owner - {inodes[i].addrs[k]};
        inodes := inodes[i := inodes[i].(addrs := inodes[i].addrs[k := 0])];
      }
    }

    /** The loop over the indirect block: the entries' bits are cleared while the block still names them. */
    method TruncateEntries(i: nat) returns (panicked: bool)
      requires Valid() && i < |inodes| && inodes[i].addrs[NDIRECT] != 0
      modifies this`blocks, this`owner, this`logged
      ensures !panicked && Owned(sb, blocks, inodes, owner, i, NINDIRECT) && Marked(sb, blocks, owner)
      ensures SameOthers(old(blocks), inodes, blocks, inodes, i)
      ensures forall b :: b in owner <==> b in old(owner) && !(old(owner)[b].0 == i && old(owner)[b].1 > NDIRECT)
      ensures forall b :: b in owner ==> owner[b] == old(owner)[b]
      ensures Trace(sb, old(blocks), old(logged), blocks, logged)
    {
      hide Owned, Marked, SameOthers, Trace;
      panicked := false;
      SameOthersRefl(sb, blocks, inodes, owner, i);
      TraceRefl(sb, blocks, logged);
      NoneDead(sb, blocks, inodes, owner, 0, i);
      OwnedShape(sb, blocks, inodes, owner, i, 0);
      for j := 0 to NINDIRECT
        invariant !panicked && |blocks| == sb.size
        invariant Owned(sb, blocks, inodes, owner, i, j) && Marked(sb, blocks, owner)
        invariant SameOthers(old(blocks), inodes, blocks, inodes, i)
        invariant forall b :: b in owner <==>
          b in old(owner) && !(old(owner)[b].0 == i && NDIRECT < old(owner)[b].1 <= NDIRECT + j)
        invariant forall b :: b in owner ==> owner[b] == old(owner)[b]
        invariant Trace(sb, old(blocks), old(logged), blocks, logged)
      {
        ghost var blocks1, logged1 := blocks, logged;
        panicked := TruncateEntry(i, j);
        SameOthersTrans(old(blocks), inodes, blocks1, inodes, blocks, inodes, i);
        TraceTrans(sb, old(blocks), old(logged), blocks1, logged1, blocks, logged);
      }
      SlotsBound(sb, old(blocks), inodes, old(owner));
    }

    method DropIndirect(i: nat) returns (panicked: bool)
      requires Owned(sb, blocks, inodes, owner, i, NINDIRECT) && Marked(sb, blocks, owner)
      requires i < |inodes| && inodes[i].addrs[NDIRECT] != 0
      modifies this`blocks, this`inodes, this`owner, this`logged
      ensures !panicked && Valid() && SameOthers(old(blocks), old(inodes), blocks, inodes, i)
      ensures inodes[i] == old(inodes)[i].(addrs := old(inodes)[i].addrs[NDIRECT := 0])
      ensures old(inodes)[i].addrs[NDIRECT] in old(owner) && old(owner)[old(inodes)[i].addrs[NDIRECT]] == (i, NDIRECT)
      ensures owner == old(owner) - {old(inodes)[i].addrs[NDIRECT]}
      ensures Trace(sb, old(blocks), old(logged), blocks, logged)
    {
      hide Marked, SameOthers, Trace, PutUsed, Used;
      FreeIndirect(sb, blocks, inodes, owner, i);
      panicked := Bfree(inodes[i].addrs[NDIRECT]);
      owner := owner - {inodes[i].addrs[NDIRECT]};
      inodes := inodes[i := inodes[i].(addrs := inodes[i].addrs[NDIRECT := 0])];
    }

    /** The second half of itrunc. */
    method TruncateIndirect(i: nat) returns (panicked: bool)
      requires Valid() && i < |inodes| && inodes[i].addrs[NDIRECT] != 0
      modifies this`blocks, this`inodes, this`owner, this`logged
      ensures !panicked && Valid() && SameOthers(old(blocks), old(inodes), blocks, inodes, i)
      ensures inodes[i] == old(inodes)[i].(addrs := old(inodes)[i].addrs[NDIRECT := 0])
      ensures forall b :: b in owner <==> b in old(owner) && !(old(owner)[b].0 == i && old(owner)[b].1 >= NDIRECT)
      ensures forall b :: b in owner ==> owner[b] == old(owner)[b]
      ensures Trace(sb, old(blocks), old(logged), blocks, logged)
    {
      hide Owned, Marked, SameOthers, Trace;
      OnlyIndirect(sb, blocks, inodes, owner, i);
      panicked := TruncateEntries(i);
      ghost var blocks1, logged1 := blocks, logged;
      panicked := DropIndirect(i);
      SameOthersTrans(old(blocks), old(inodes), blocks1, old(inodes), blocks, inodes, i);
      TraceTrans(sb, old(blocks), old(logged), blocks1, logged1, blocks, logged);
    }

    method TruncateEntry(i: nat, j: nat) returns (panicked: bool)
      requires Owned(sb, blocks, inodes, owner, i, j) && |blocks| == sb.size && Marked(sb, blocks, owner)
      requires i < |inodes| && j < NINDIRECT && inodes[i].addrs[NDIRECT] != 0
      modifies this`blocks, this`owner, this`logged
      ensures !panicked && |blocks| == sb.size && Owned(sb, blocks, inodes, owner, i, j + 1) && Marked(sb, blocks, owner)
      ensures SameOthers(old(blocks), inodes, blocks, inodes, i)
      ensures forall b :: b in owner <==> b in old(owner) && old(owner)[b] != (i, NDIRECT + 1 + j)
      ensures forall b :: b in owner ==> owner[b] == old(owner)[b]
      ensures Trace(sb, old(blocks), old(logged), blocks, logged)
    {
      hide Owned, Marked, SameOthers, Trace, PutUsed, Used, Ref;
      panicked := false;
      OwnedShape(sb, blocks, inodes, owner, i, j);
      EntryWord(sb, blocks, inodes, owner, i, j);
      FreeEntry(sb, blocks, inodes, owner, i, j);
      TraceRefl(sb, blocks, logged);
      var a := Word(blocks[inodes[i].addrs[NDIRECT]], j);
      if a != 0 {
        panicked := Bfree(a);
        owner := owner - {a};
      } else {
        SameOthersSelf(blocks, inodes, i);
      }
    }

    /** Discards the contents: "freeing free block" cannot happen, exactly the blocks that the inode
        named become free, every other file keeps its contents, and every block that changed is logged. */
    method Itrunc(i: nat) returns (panicked: bool)
      requires Valid() && i < |inodes|
      modifies this`blocks, this`inodes, this`owner, this`logged
      ensures !panicked && Valid() && SameOthers(old(blocks), old(inodes), blocks, inodes, i)
      ensures Saved(i) && inodes[i].size == 0 && forall t :: 0 <= t <= NDIRECT ==> inodes[i].addrs[t] == 0
      ensures forall b :: sb.nmeta <= b < sb.size ==>
        (Used(sb, blocks, b) <==> Used(sb, old(blocks), b) && old(owner)[b].0 != i)
      ensures Logs(old(blocks), old(logged), blocks, logged) && InodeBlock(sb, i) in logged
      ensures TableKept(sb, |inodes|, old(blocks), blocks, i)
    {
      hide Owned, Marked, SameOthers, Trace, Logs, TableKept, SameAbove, Used;
      MarkedMeans(sb, blocks, inodes, owner);
      panicked := TruncateBlocks(i);
      ghost var blocks2, inodes2, logged2 := blocks, inodes, logged;
      TableRoom(sb, blocks, inodes, owner);
      TraceTable(sb, old(blocks), old(logged), blocks, logged, |inodes|);
      ResizeKeeps(sb, blocks, inodes, owner, i, 0);
      inodes := inodes[i := inodes[i].(size := 0)];
      SameOthersTrans(old(blocks), old(inodes), blocks, inodes2, blocks, inodes, i);
      Iupdate(i);
      LogsTrans(old(blocks), old(logged), blocks2, logged2, blocks, logged);
      TableTrans(sb, |inodes|, old(blocks), blocks2, blocks, i);
      AboveKeeps(sb, blocks2, blocks, inodes, owner);
      SameFilesOnward(old(blocks), old(inodes), blocks2, inodes, blocks, i);
      MarkedMeans(sb, blocks, inodes, owner);
    }

    /** itrunc up to the inode itself. */
    method TruncateBlocks(i: nat) returns (panicked: bool)
      requires Valid() && i < |inodes|
      modifies this`blocks, this`inodes, this`owner, this`logged
      ensures !panicked && Valid() && SameOthers(old(blocks), old(inodes), blocks, inodes, i) && i < |inodes|
      ensures Shaped(inodes[i])
      ensures forall t :: 0 <= t <= NDIRECT ==> inodes[i].addrs[t] == 0
      ensures forall b :: b in owner <==> b in old(owner) && old(owner)[b].0 != i
      ensures Trace(sb, old(blocks), old(logged), blocks, logged)
    {
      hide Owned, Marked, SameOthers, Trace;
      panicked := TruncateDirect(i);
      ghost var blocks1, inodes1, logged1 := blocks, inodes, logged;
      ImageShaped(sb, blocks, inodes, owner);
      if inodes[i].addrs[NDIRECT] != 0 {
        panicked := TruncateIndirect(i);
        SameOthersTrans(old(blocks), old(inodes), blocks1, inodes1, blocks, inodes, i);
        TraceTrans(sb, old(blocks), old(logged), blocks1, logged1, blocks, logged);
      } else {
        NoneOwned(sb, blocks, inodes, owner, i);
      }
    }

    /** One turn of writei's loop: the part of src that falls into one block. */
    method WriteBlock(i: nat, off: nat, src: seq<Byte>) returns (ok: bool)
      requires Valid() && i < |inodes| && off % BSIZE + |src| <= BSIZE
      modifies this`blocks, this`inodes, this`owner, this`logged
      ensures Valid() && RefsKept(old(blocks), old(inodes), blocks, inodes) && i < |inodes| == |old(inodes)|
      ensures Shaped(inodes[i])
      ensures OtherFiles(old(blocks), old(inodes), blocks, inodes, i) && inodes[i].size == old(inodes)[i].size
      ensures Shaped(old(inodes)[i])
      ensures ok <==>
        off / BSIZE < MAXFILE && Spare(sb, old(owner)) >= Lack(old(blocks), old(inodes)[i], off / BSIZE, off / BSIZE + 1)
      ensures ok ==> Wrote(old(blocks), old(inodes)[i], blocks, inodes[i], off, src)
      ensures ok ==>
        && Put(sb, old(blocks), old(inodes), old(owner), blocks, inodes, owner, logged, i, off / BSIZE)
        && Ref(blocks, inodes[i], Slot(off / BSIZE)) != 0
      ensures !ok && off / BSIZE < MAXFILE ==> forall c :: 0 <= c < sb.size ==> Used(sb, blocks, c)
      ensures Trace(sb, old(blocks), old(logged), blocks, logged)
      ensures off / BSIZE < MAXFILE ==>
        && logged <= old(logged) + BitmapBlocks(sb) + IndirectBlock(inodes[i]) + {Ref(blocks, inodes[i], Slot(off / BSIZE))}
        && OnlySlot(old(inodes)[i], inodes[i], Head(off / BSIZE))
    {
      hide Owned, Marked, OtherFiles, RefsKept, SameFiles, Wrote, Used, Elsewhere, Trace, Lack, Noted, OnlySlot, BitmapBlocks,
           OnlyInode;
      ImageShaped(sb, blocks, inodes, owner);
      SameFilesRefl(blocks, inodes);
      RefsKeptRefl(blocks, inodes);
      TraceRefl(sb, blocks, logged);
      var addr := Bmap(i, off / BSIZE);
      SameFilesMeans(old(blocks), old(inodes), blocks, inodes, i);
      if addr.None? {
        SameFilesOthers(old(blocks), old(inodes), blocks, inodes, i);
        return false;
      }
      StoreEffect(sb, old(blocks), old(inodes), blocks, inodes, owner, i, off, src);
      var r := addr.value;
      var data := Splice(blocks[r], off % BSIZE, src);
      DataAbove(sb, blocks, inodes, owner, i, off / BSIZE);
      TraceSet(sb, old(blocks), old(logged), blocks, logged, r, data);
      SameElsewhere(old(blocks), old(inodes), blocks, inodes, blocks[r := data], i, off / BSIZE);
      NotedSame(sb, old(blocks), old(inodes)[i], blocks, blocks[r := data], inodes[i], logged, logged + {r}, off / BSIZE);
      blocks := blocks[r := data];
      logged := logged + {r};
      ok := true;
    }

    /** writei's loop.  It fails exactly when fewer blocks are free than the range lacks. */
    method WriteLoop(i: nat, off: nat, src: seq<Byte>) returns (ok: bool)
      requires Valid() && i < |inodes| && off + |src| <= MAXBYTES
      modifies this`blocks, this`inodes, this`owner, this`logged
      ensures Valid() && OtherFiles(old(blocks), old(inodes), blocks, inodes, i) && i < |inodes| == |old(inodes)|
      ensures inodes[i].size == old(inodes)[i].size
      ensures ok ==> Wrote(old(blocks), old(inodes)[i], blocks, inodes[i], off, src)
      ensures logged <= old(logged) + Touched(sb, blocks, inodes[i], off, |src|)
      ensures ok ==> (inodes[i] == old(inodes)[i] <==> HasSlots(old(inodes)[i], off, |src|))
      ensures !ok ==> forall c :: 0 <= c < sb.size ==> Used(sb, blocks, c)
      ensures Shaped(old(inodes)[i]) && EndBlock(off, |src|) <= MAXFILE
      ensures ok <==> Spare(sb, old(owner)) >= Lack(old(blocks), old(inodes)[i], off / BSIZE, EndBlock(off, |src|))
      ensures ok ==>
        && Recorded(sb, old(blocks), old(inodes), blocks, inodes, logged, i, off / BSIZE, EndBlock(off, |src|))
        && |owner| == |old(owner)| + Lack(old(blocks), old(inodes)[i], off / BSIZE, EndBlock(off, |src|))
        && Fetched(old(blocks), old(inodes), old(owner), blocks, inodes, owner, i, off / BSIZE, EndBlock(off, |src|))
        && OnlyInode(old(inodes), inodes, i)
      ensures RefsKept(old(blocks), old(inodes), blocks, inodes)
      ensures Trace(sb, old(blocks), old(logged), blocks, logged)
    {
      hide Wrote, Progress, Touched, OtherFiles, RefsKept, Owned, Marked, Used, Ref, BitmapBlocks, IndirectBlock, Grew,
           OnlySlot, HasSlots, Paid, Put, Trace, Lack, Recorded, EndBlock, OnlyInode, Fetched;
      ImageShaped(sb, blocks, inodes, owner);
      EndBlockFits(off, |src|);
      var tot := 0;
      ProgressStart(sb, blocks, inodes, logged, i, off, src);
      GrewNone(inodes[i], off);
      PaidNone(sb, blocks, inodes, owner, logged, i, off / BSIZE);
      while tot < |src|
        invariant tot <= |src| && Valid() && i < |inodes| == |old(inodes)| && Grew(old(inodes)[i], inodes[i], off, tot)
        invariant tot == 0 || tot == |src| || (off + tot) % BSIZE == 0
        invariant Progress(sb, old(blocks), old(inodes), old(logged), blocks, inodes, logged, i, off, src, tot)
        invariant Paid(sb, old(blocks), old(inodes), old(owner), old(logged), blocks, inodes, owner, logged,
                       i, off / BSIZE, EndBlock(off, tot))
      {
        var m := Piece(off + tot, |src| - tot);
        EndBlockAt(off, tot, m, |src|);
        ok := WriteTurn(i, off, src, tot, m, old(blocks), old(inodes), old(owner), old(logged));
        if !ok { return; }
        tot := tot + m;
      }
      ProgressEnd(sb, old(blocks), old(inodes), old(logged), blocks, inodes, logged, i, off, src);
      GrewMeans(old(inodes)[i], inodes[i], off, |src|);
      PaidMeans(sb, old(blocks), old(inodes), old(owner), old(logged), blocks, inodes, owner, logged,
                i, off / BSIZE, EndBlock(off, |src|));
      ok := true;
    }

    /** One turn, b0.. being the state before the first. */
    method WriteTurn(i: nat, off: nat, src: seq<Byte>, tot: nat, m: nat,
                     ghost b0: seq<Block>, ghost i0: seq<Inode>, ghost o0: Owner, ghost l0: set<nat>) returns (ok: bool)
      requires Valid() && i < |i0| == |inodes| && Shaped(i0[i]) && off + |src| <= MAXBYTES && Grew(i0[i], inodes[i], off, tot)
      requires tot < |src| && m == Piece(off + tot, |src| - tot) && (tot == 0 || (off + tot) % BSIZE == 0)
      requires Progress(sb, b0, i0, l0, blocks, inodes, logged, i, off, src, tot)
      requires Paid(sb, b0, i0, o0, l0, blocks, inodes, owner, logged, i, off / BSIZE, EndBlock(off, tot))
      modifies this`blocks, this`inodes, this`owner, this`logged
      ensures Valid() && i < |inodes| == |i0|
      ensures ok ==>
        && Grew(i0[i], inodes[i], off, tot + m) && Progress(sb, b0, i0, l0, blocks, inodes, logged, i, off, src, tot + m)
        && Paid(sb, b0, i0, o0, l0, blocks, inodes, owner, logged, i, off / BSIZE, EndBlock(off, tot + m))
      ensures !ok ==>
        && OtherFiles(b0, i0, blocks, inodes, i) && Shaped(inodes[i]) && inodes[i].size == i0[i].size
        && logged <= l0 + Touched(sb, blocks, inodes[i], off, |src|)
        && EndBlock(off, |src|) <= MAXFILE && Spare(sb, o0) < Lack(b0, i0[i], off / BSIZE, EndBlock(off, |src|))
        && RefsKept(b0, i0, blocks, inodes) && Trace(sb, b0, l0, blocks, logged)
        && forall c :: 0 <= c < sb.size ==> Used(sb, blocks, c)
    {
      hide Wrote, Progress, Touched, OtherFiles, RefsKept, Owned, Marked, Used, Ref, BitmapBlocks, IndirectBlock, Grew,
           OnlySlot, Paid, Put, Trace, Lack, EndBlock, OnlyInode;
      ImageShaped(sb, blocks, inodes, owner);
      EndBlockAt(off, tot, m, |src|);
      ghost var blocks1, inodes1, owner1, logged1 := blocks, inodes, owner, logged;
      ok := WriteBlock(i, off + tot, src[tot..tot + m]);
      if ok {
        ProgressMore(sb, b0, i0, l0, blocks1, inodes1, logged1, blocks, inodes, logged, i, off, src, tot, m);
        GrewMore(i0[i], inodes1[i], blocks, inodes[i], off, tot, m);
        PaidMore(sb, b0, i0, o0, l0, blocks1, inodes1, owner1, logged1, blocks, inodes, owner, logged,
                 i, off / BSIZE, EndBlock(off, tot));
      } else {
        ProgressLost(sb, b0, i0, l0, blocks1, inodes1, logged1, blocks, inodes, logged, i, off, src, tot, m);
        PaidShort(sb, b0, i0, o0, l0, blocks1, inodes1, owner1, logged1, blocks, inodes, logged,
                  i, off / BSIZE, EndBlock(off, tot), EndBlock(off, |src|));
      }
    }

    /** full: the container's disk quota is exhausted.  Then the bytes are in place but the file does not
        grow; in every other successful case the file is the old byte array with src laid over it.
        Unless the file grows the inode is not written, and a block that it did not name before the call is
        lost with it when the inode is read again. */
    method Writei(i: nat, src: seq<Byte>, off: nat, full: bool) returns (r: Written)
      requires Valid() && i < |inodes| && off < UINT && |src| < UINT
      modifies this`blocks, this`inodes, this`owner, this`logged
      ensures Valid() && OtherFiles(old(blocks), old(inodes), blocks, inodes, i) && i < |inodes| == |old(inodes)|
      ensures Shaped(inodes[i])
      ensures r.BadRange? <==> off > old(inodes)[i].size || off + |src| >= UINT || off + |src| > MAXBYTES
      ensures r.BadRange? ==> blocks == old(blocks) && inodes == old(inodes) && logged == old(logged)
      ensures r.Count? ==>
        && r.n == |src| && !(full && src != [])
        && Content(blocks, inodes[i]) == Overlaid(Content(old(blocks), old(inodes)[i]), off, src)
      ensures r.OverQuota? ==>
        && full && src != []
        && Content(blocks, inodes[i]) ==
           Overlaid(Content(old(blocks), old(inodes)[i]), off, src)[..old(inodes)[i].size]
      ensures r.Panicked? ==> forall c :: 0 <= c < sb.size ==> Used(sb, blocks, c)
      ensures Shaped(old(inodes)[i])
      ensures !r.BadRange? ==> EndBlock(off, |src|) <= MAXFILE
      ensures r.Panicked? <==>
        !r.BadRange? && Spare(sb, old(owner)) < Lack(old(blocks), old(inodes)[i], off / BSIZE, EndBlock(off, |src|))
      ensures !r.BadRange? ==>
        logged <= old(logged) + Touched(sb, blocks, inodes[i], off, |src|) + {InodeBlock(sb, i)}
      ensures Logs(old(blocks), old(logged), blocks, logged) && TableKept(sb, |inodes|, old(blocks), blocks, i)
      ensures r.Count? || r.OverQuota? ==>
        && Recorded(sb, old(blocks), old(inodes), blocks, inodes, logged, i, off / BSIZE, EndBlock(off, |src|))
        && |owner| == |old(owner)| + Lack(old(blocks), old(inodes)[i], off / BSIZE, EndBlock(off, |src|))
        && Fetched(old(blocks), old(inodes), old(owner), blocks, inodes, owner, i, off / BSIZE, EndBlock(off, |src|))
      ensures !r.Panicked? ==> OnlyInode(old(inodes), inodes, i)
      ensures RefsKept(old(blocks), old(inodes), blocks, inodes)
      ensures r.Count? && off + |src| > old(inodes)[i].size ==> Saved(i) && InodeBlock(sb, i) in logged
      ensures !(r.Count? && off + |src| > old(inodes)[i].size) ==> TableKept(sb, |inodes|, old(blocks), blocks, |inodes|)
      ensures old(Saved(i)) && !r.Panicked? ==>
        (Saved(i) <==> r.BadRange? || (r.Count? && off + |src| > old(inodes)[i].size) || HasSlots(old(inodes)[i], off, |src|))
    {
      hide Owned, Marked, Touched, Used, HasSlots, Wrote, Trace, Logs, TableKept, Recorded, Lack, RefsKept, OtherFiles,
           Overlaid, Content, DinodeAt, SameAbove, OnlyInode, Fetched;
      OnlyInodeRefl(inodes, i);
      ImageShaped(sb, blocks, inodes, owner);
      RefsKeptRefl(blocks, inodes);
      OtherFilesRefl(blocks, inodes, i);
      TraceRefl(sb, blocks, logged);
      TableRoom(sb, blocks, inodes, owner);
      TraceTable(sb, blocks, logged, blocks, logged, |inodes|);
      if off > inodes[i].size || (off + |src|) % UINT < off {
        return BadRange;
      }
      if off + |src| > MAXFILE * BSIZE {
        return BadRange;
      }
      var ok := WriteLoop(i, off, src);
      ImageShaped(sb, blocks, inodes, owner);
      TraceTable(sb, old(blocks), old(logged), blocks, logged, |inodes|);
      InodeWords(sb, blocks, inodes, owner, i);
      if !ok { return Panicked; }
      WroteContent(old(blocks), old(inodes)[i], blocks, inodes[i], off, src);
      if full && |src| > 0 {
        return OverQuota;
      }
      if |src| > 0 && off + |src| > inodes[i].size {
        GrowInode(i, off, src, old(blocks), old(inodes), old(owner), old(logged));
      }
      return Count(|src|);
    }

    /** The end of writei for a file that grew. */
    method GrowInode(i: nat, off: nat, src: seq<Byte>, ghost b0: seq<Block>, ghost i0: seq<Inode>, ghost o0: Owner, ghost l0: set<nat>)
      requires Valid() && OtherFiles(b0, i0, blocks, inodes, i) && i < |i0| == |inodes| && Shaped(i0[i]) && Shaped(inodes[i])
      requires Wrote(b0, i0[i], blocks, inodes[i], off, src) && inodes[i].size == i0[i].size
      requires off <= i0[i].size < off + |src| <= MAXBYTES
      requires RefsKept(b0, i0, blocks, inodes) && Logs(b0, l0, blocks, logged) && TableKept(sb, |inodes|, b0, blocks, i)
      requires Recorded(sb, b0, i0, blocks, inodes, logged, i, off / BSIZE, EndBlock(off, |src|)) && OnlyInode(i0, inodes, i)
      requires Fetched(b0, i0, o0, blocks, inodes, owner, i, off / BSIZE, EndBlock(off, |src|))
      modifies this`blocks, this`inodes, this`logged
      ensures Valid() && OtherFiles(b0, i0, blocks, inodes, i) && i < |inodes| == |i0| && Shaped(inodes[i])
      ensures Content(blocks, inodes[i]) == Overlaid(Content(b0, i0[i]), off, src)
      ensures Saved(i) && RefsKept(b0, i0, blocks, inodes)
      ensures Logs(b0, l0, blocks, logged) && TableKept(sb, |inodes|, b0, blocks, i)
      ensures Recorded(sb, b0, i0, blocks, inodes, logged, i, off / BSIZE, EndBlock(off, |src|)) && OnlyInode(i0, inodes, i)
      ensures Fetched(b0, i0, o0, blocks, inodes, owner, i, off / BSIZE, EndBlock(off, |src|))
      ensures logged == old(logged) + {InodeBlock(sb, i)}
      ensures Touched(sb, blocks, inodes[i], off, |src|) == Touched(sb, old(blocks), old(inodes)[i], off, |src|)
    {
      hide Owned, Marked, Touched, Wrote, Logs, TableKept, Recorded, RefsKept, OtherFiles, Overlaid, Content, DinodeAt,
           SameAbove, SameFiles, Fetched;
      FetchedResize(b0, i0, o0, blocks, inodes, owner, i, off + |src|, off / BSIZE, EndBlock(off, |src|));
      GrowKeeps(sb, b0, i0, blocks, inodes, owner, i, off, src);
      ResizeRefs(sb, b0, i0, blocks, inodes, logged, i, off + |src|, off / BSIZE, EndBlock(off, |src|));
      inodes := inodes[i := inodes[i].(size := off + |src|)];
      ghost var blocks1, logged1 := blocks, logged;
      Iupdate(i);
      AboveKeeps(sb, blocks1, blocks, inodes, owner);
      SameFilesOthers(blocks1, inodes, blocks, inodes, i);
      OtherFilesTrans(b0, i0, blocks1, inodes, blocks, inodes, i);
      SameFilesMeans(blocks1, inodes, blocks, inodes, i);
      AboveRefs(sb, b0, i0, blocks1, blocks, inodes, logged1, logged, i, off / BSIZE, EndBlock(off, |src|));
      AboveTouched(sb, blocks1, blocks, inodes, i, off, |src|);
      FetchedAbove(b0, i0, o0, blocks1, blocks, inodes, owner, i, off / BSIZE, EndBlock(off, |src|));
      LogsTrans(b0, l0, blocks1, logged1, blocks, logged);
      TableTrans(sb, |inodes|, b0, blocks1, blocks, i);
    }

    /** Reads the exact slice, clipped at the size; no file changes, though holes get blocks.  It panics exactly
        when fewer blocks are free than the range lacks. */
    method Readi(i: nat, off: nat, n: nat) returns (r: Read)
      requires Valid() && i < |inodes| && off < UINT && n < UINT
      modifies this`blocks, this`inodes, this`owner, this`logged
      ensures Valid() && SameFiles(old(blocks), old(inodes), blocks, inodes) && Shaped(old(inodes)[i])
      ensures r.ReadBadRange? <==> off > old(inodes)[i].size || off + n >= UINT
      ensures r.Data? ==>
        var size := old(inodes)[i].size;
        off <= size && r.bytes == Content(old(blocks), old(inodes)[i])[off..if off + n > size then size else off + n]
      ensures !r.ReadBadRange? ==>
        var m := Clipped(old(inodes)[i].size, off, n);
        Took(sb, old(blocks), old(inodes), old(owner), old(logged), blocks, inodes, owner, logged, i, off, m, r.Data?)
      ensures r.ReadPanicked? ==> forall c :: 0 <= c < sb.size ==> Used(sb, blocks, c)
    {
      hide Owned, Marked, SameFiles, Content, Took, Used;
      ImageShaped(sb, blocks, inodes, owner);
      SameFilesRefl(blocks, inodes);
      if off > inodes[i].size || (off + n) % UINT < off {
        return ReadBadRange;
      }
      r := ReadLoop(i, off, if off + n > inodes[i].size then inodes[i].size - off else n);
    }

    method ReadLoop(i: nat, off: nat, n: nat) returns (r: Read)
      requires Valid() && i < |inodes| && off + n <= inodes[i].size
      modifies this`blocks, this`inodes, this`owner, this`logged
      ensures Valid() && SameFiles(old(blocks), old(inodes), blocks, inodes)
      ensures !r.ReadBadRange? && Shaped(old(inodes)[i])
      ensures r.Data? ==> r.bytes == Content(old(blocks), old(inodes)[i])[off..off + n]
      ensures Took(sb, old(blocks), old(inodes), old(owner), old(logged), blocks, inodes, owner, logged, i, off, n, r.Data?)
      ensures r.ReadPanicked? ==> forall c :: 0 <= c < sb.size ==> Used(sb, blocks, c)
    {
      hide Owned, Marked, SameFiles, IsSlice, Content, Used, Got, Took;
      ImageShaped(sb, blocks, inodes, owner);
      ghost var c := Content(blocks, inodes[i]);
      ghost var b0, i0, o0, l0 := blocks, inodes, owner, logged;
      SameFilesRefl(b0, i0);
      SliceNone(c, off);
      GotNone(sb, b0, i0, o0, l0, i, off);
      var dst: seq<Byte> := [];
      while |dst| < n
        invariant |dst| <= n && i < |inodes| == |i0| && Shaped(inodes[i]) && inodes[i].size == |c| && off + n <= |c|
        invariant Valid() && SameFiles(b0, i0, blocks, inodes)
        invariant |dst| == 0 || |dst| == n || (off + |dst|) % BSIZE == 0
        invariant IsSlice(dst, c, off) && Got(sb, b0, i0, o0, l0, blocks, inodes, owner, logged, i, off, |dst|)
      {
        var m := Piece(off + |dst|, n - |dst|);
        var piece := ReadNext(i, off, n, dst, m, c, b0, i0, o0, l0);
        if piece.ReadPanicked? { return ReadPanicked; }
        dst := dst + piece.bytes;
      }
      SliceAll(dst, c, off);
      GotMeans(sb, b0, i0, o0, l0, blocks, inodes, owner, logged, i, off, n);
      return Data(dst);
    }

    method ReadNext(i: nat, off: nat, n: nat, dst: seq<Byte>, m: nat, ghost c: seq<Byte>,
                    ghost b0: seq<Block>, ghost i0: seq<Inode>, ghost o0: Owner, ghost l0: set<nat>)
      returns (r: Read)
      requires Valid() && i < |i0| == |inodes| && Shaped(i0[i]) && Shaped(inodes[i]) && off + n <= |c|
      requires |dst| + m <= n && inodes[i].size == |c| && 0 < m == Piece(off + |dst|, n - |dst|)
      requires |dst| == 0 || (off + |dst|) % BSIZE == 0
      requires SameFiles(b0, i0, blocks, inodes) && c == Content(b0, i0[i]) && IsSlice(dst, c, off)
      requires Got(sb, b0, i0, o0, l0, blocks, inodes, owner, logged, i, off, |dst|)
      modifies this`blocks, this`inodes, this`owner, this`logged
      ensures Valid() && SameFiles(b0, i0, blocks, inodes)
      ensures |inodes| == |i0| && Shaped(inodes[i]) && inodes[i].size == |c|
      ensures !r.ReadBadRange?
      ensures r.Data? ==> |r.bytes| == m && IsSlice(dst + r.bytes, c, off)
      ensures r.Data? ==> Got(sb, b0, i0, o0, l0, blocks, inodes, owner, logged, i, off, |dst| + m)
      ensures r.ReadPanicked? ==>
        && Took(sb, b0, i0, o0, l0, blocks, inodes, owner, logged, i, off, n, false)
        && forall c :: 0 <= c < sb.size ==> Used(sb, blocks, c)
    {
      hide Owned, Marked, SameFiles, IsSlice, Content, Used, Got, Took, Elsewhere, Trace, RefsKept, Lack, Ref, EndBlock;
      ghost var blocks1, inodes1, owner1, logged1 := blocks, inodes, owner, logged;
      EndBlockAt(off, |dst|, m, n);
      r := ReadBlock(i, off + |dst|, m);
      SameFilesTrans(b0, i0, blocks1, inodes1, blocks, inodes);
      SameFilesMeans(b0, i0, blocks, inodes, i);
      if r.Data? {
        SliceMore(dst, c, off, r.bytes);
        GotMore(sb, b0, i0, o0, l0, blocks1, inodes1, owner1, logged1, blocks, inodes, owner, logged, i, off, |dst|, m);
      } else {
        GotShort(sb, b0, i0, o0, l0, blocks1, inodes1, owner1, logged1, blocks, inodes, owner, logged, i, off, |dst|, n);
      }
    }

    /** One turn of readi's loop. */
    method ReadBlock(i: nat, off: nat, m: nat) returns (r: Read)
      requires Valid() && i < |inodes| && off + m <= inodes[i].size && 0 < m && off % BSIZE + m <= BSIZE
      modifies this`blocks, this`inodes, this`owner, this`logged
      ensures Valid() && SameFiles(old(blocks), old(inodes), blocks, inodes)
      ensures !r.ReadBadRange? && off / BSIZE < MAXFILE && Shaped(old(inodes)[i])
      ensures r.Data? ==> r.bytes == Content(blocks, inodes[i])[off..off + m]
      ensures r.Data? <==> Spare(sb, old(owner)) >= Lack(old(blocks), old(inodes)[i], off / BSIZE, off / BSIZE + 1)
      ensures r.Data? ==>
        && Ref(blocks, inodes[i], Slot(off / BSIZE)) != 0
        && |owner| == |old(owner)| + Lack(old(blocks), old(inodes)[i], off / BSIZE, off / BSIZE + 1)
      ensures Elsewhere(old(blocks), old(inodes), blocks, inodes, i, off / BSIZE)
      ensures RefsKept(old(blocks), old(inodes), blocks, inodes)
      ensures Trace(sb, old(blocks), old(logged), blocks, logged)
      ensures r.ReadPanicked? ==> forall c :: 0 <= c < sb.size ==> Used(sb, blocks, c)
    {
      hide Owned, Marked, SameFiles, Used, Elsewhere, Trace, RefsKept, Lack;
      ImageShaped(sb, blocks, inodes, owner);
      var addr := Bmap(i, off / BSIZE);
      SameFilesMeans(old(blocks), old(inodes), blocks, inodes, i);
      if addr.None? { return ReadPanicked; }
      BlockSlice(blocks, inodes[i], off, m);
      return Data(blocks[addr.value][off % BSIZE..off % BSIZE + m]);
    }

    /** One transaction of filewrite.  However it ends, every block that changed is logged, and on a disk of FSSIZE
        blocks these are at most CHUNKBLOCKS, so log_write cannot panic while no other call shares the commit. */
    method WriteChunk(i: nat, off: nat, src: seq<Byte>, full: bool) returns (r: Written)
      requires Valid() && i < |inodes| && off < UINT && |src| <= MAXCHUNK
      modifies this`blocks, this`inodes, this`owner, this`logged
      ensures Valid() && OtherFiles(old(blocks), old(inodes), blocks, inodes, i) && i < |inodes| == |old(inodes)|
      ensures Shaped(inodes[i])
      ensures Shaped(old(inodes)[i]) && RefsKept(old(blocks), old(inodes), blocks, inodes)
      ensures r.Count? ==>
        && off <= old(inodes)[i].size && r.n == |src| && !(full && src != [])
        && Content(blocks, inodes[i]) == Overlaid(Content(old(blocks), old(inodes)[i]), off, src)
      ensures r.OverQuota? ==>
        && full && src != [] && off <= old(inodes)[i].size
        && Content(blocks, inodes[i]) ==
           Overlaid(Content(old(blocks), old(inodes)[i]), off, src)[..old(inodes)[i].size]
      ensures r.BadRange? <==> off > old(inodes)[i].size || off + |src| > MAXBYTES
      ensures r.BadRange? ==> blocks == old(blocks) && inodes == old(inodes) && logged == {}
      ensures !r.BadRange? ==> EndBlock(off, |src|) <= MAXFILE && InodeBlock(sb, i) < sb.bmapstart
      ensures r.Panicked? <==>
        !r.BadRange? && Spare(sb, old(owner)) < Lack(old(blocks), old(inodes)[i], off / BSIZE, EndBlock(off, |src|))
      ensures Logs(old(blocks), {}, blocks, logged) && TableKept(sb, |inodes|, old(blocks), blocks, i)
      ensures !r.BadRange? ==> logged <= Touched(sb, blocks, inodes[i], off, |src|) + {InodeBlock(sb, i)}
      ensures r.Count? || r.OverQuota? ==>
        && Recorded(sb, old(blocks), old(inodes), blocks, inodes, logged, i, off / BSIZE, EndBlock(off, |src|))
        && |owner| == |old(owner)| + Lack(old(blocks), old(inodes)[i], off / BSIZE, EndBlock(off, |src|))
        && Fetched(old(blocks), old(inodes), old(owner), blocks, inodes, owner, i, off / BSIZE, EndBlock(off, |src|))
      ensures !r.Panicked? ==> OnlyInode(old(inodes), inodes, i)
      ensures r.Count? && off + |src| > old(inodes)[i].size ==> Saved(i) && InodeBlock(sb, i) in logged
      ensures !(r.Count? && off + |src| > old(inodes)[i].size) ==> TableKept(sb, |inodes|, old(blocks), blocks, |inodes|)
      ensures old(Saved(i)) && !r.Panicked? ==>
        (Saved(i) <==> r.BadRange? || (r.Count? && off + |src| > old(inodes)[i].size) || HasSlots(old(inodes)[i], off, |src|))
      ensures |logged| <= 17 + sb.size / BPB
      ensures sb.size == FSSIZE ==> |logged| <= CHUNKBLOCKS && LogChunks.NeverPanics(logged)
    {
      hide Owned, Marked, OtherFiles, Content, Overlaid, Touched, Used, LogChunks.NeverPanics, Logs, TableKept, Recorded,
           HasSlots, RefsKept, Lack, DinodeAt, OnlyInode, Fetched;
      ImageShaped(sb, blocks, inodes, owner);
      InodeWords(sb, blocks, inodes, owner, i);
      logged := {};
      r := Writei(i, src, off, full);
      if !r.BadRange? {
        ChunkTouches(sb, blocks, inodes[i], i, off, |src|);
        assert {} + Touched(sb, blocks, inodes[i], off, |src|) == Touched(sb, blocks, inodes[i], off, |src|);
        SubsetCount(logged, Touched(sb, blocks, inodes[i], off, |src|) + {InodeBlock(sb, i)});
      }
      if |logged| <= CHUNKBLOCKS { LogChunks.FewBlocksFit(logged); }
    }

    /** full holds the numbers of the chunks that hit the quota; stop counts the chunks that go through.  The first
        chunk that is out of range, lacks more blocks than are free or hits the quota ends the loop, and the new
        offset is where it starts.  The bytes up to there, and no others, are laid over the file, unless that chunk
        panicked or hit the quota; the chunk that hits the quota is laid over it too, as far as the file then reaches. */
    method FileWrite(i: nat, off: nat, src: seq<Byte>, full: set<nat>) returns (r: Written, off': nat, ghost stop: nat)
      requires Valid() && i < |inodes| && off + |src| < UINT
      modifies this`blocks, this`inodes, this`owner, this`logged
      ensures Valid() && OtherFiles(old(blocks), old(inodes), blocks, inodes, i) && Shaped(old(inodes)[i])
      ensures r.Count? ==> r.n == |src| && off' == off + |src|
      ensures !r.Count? ==> stop < Chunks(|src|) && off' == off + stop * MAXCHUNK <= off + |src|
      ensures r.Count? || r.BadRange? ==>
        LaidOver(Content(old(blocks), old(inodes)[i]), off, src, off' - off, Content(blocks, inodes[i]))
      ensures r.OverQuota? ==>
        CutShort(Content(old(blocks), old(inodes)[i]), off, src, off' - off, Content(blocks, inodes[i]))
      ensures r.Count? <==> stop == Chunks(|src|)
      ensures forall e :: 0 <= e < stop ==> Passes(sb, old(blocks), old(inodes)[i], old(owner), off, |src|, full, e)
      ensures r.BadRange? <==> stop < Chunks(|src|) && Beyond(old(inodes)[i].size, off, |src|, stop)
      ensures r.Panicked? <==>
        && stop < Chunks(|src|) && !Beyond(old(inodes)[i].size, off, |src|, stop)
        && Starved(sb, old(blocks), old(inodes)[i], old(owner), off, |src|, stop)
      ensures r.OverQuota? <==>
        && stop < Chunks(|src|) && !Beyond(old(inodes)[i].size, off, |src|, stop)
        && !Starved(sb, old(blocks), old(inodes)[i], old(owner), off, |src|, stop) && stop in full
      ensures r.Count? <==>
        || src == []
        || (&& off <= old(inodes)[i].size && off + |src| <= MAXBYTES && (forall e :: 0 <= e < Chunks(|src|) ==> e !in full)
            && Enough(sb, old(blocks), old(inodes)[i], old(owner), off, |src|))
    {
      hide OtherFiles, Content, LaidOver, CutShort, Owned, Marked, PartWritten, Passes, Beyond, Starved, Chunked, Enough;
      PartNone(sb, blocks, inodes, owner, i, off, src);
      ghost var c, b0, i0, o0 := Content(blocks, inodes[i]), blocks, inodes, owner;
      ChunkedNone(sb, b0, i0, o0, i, off, |src|);
      var done, k := 0, 0;
      while done < |src|
        invariant done <= |src| && done == At(|src|, k) && k <= Chunks(|src|) && (done == |src| ==> k == Chunks(|src|))
        invariant PartWritten(sb, b0, i0, blocks, inodes, owner, i, c, off, src, done)
        invariant Chunked(sb, b0, i0, o0, blocks, inodes, owner, i, off, |src|, done)
        invariant forall e :: 0 <= e < k ==> Passes(sb, b0, i0[i], o0, off, |src|, full, e)
      {
        var n1 := Chunk(src, done);
        ChunkAt(|src|, k);
        r := WriteNext(i, off, src, done, n1, k in full, c, b0, i0, o0, k);
        PassesIs(sb, b0, i0[i], o0, off, |src|, full, k);
        if !r.Count? {
          PartMeans(sb, b0, i0, blocks, inodes, owner, i, c, off, src, done, r.BadRange?);
          PassesNot(sb, b0, i0[i], o0, off, |src|, full, k);
          return r, off + done, k;
        }
        done, k := done + n1, k + 1;
      }
      PartMeans(sb, b0, i0, blocks, inodes, owner, i, c, off, src, done, true);
      PassesAll(sb, b0, i0[i], o0, off, |src|, full);
      return Count(|src|), off + done, k;
    }

    /** One turn of filewrite's loop, c being what the file held before the first. */
    method WriteNext(i: nat, off: nat, src: seq<Byte>, done: nat, n1: nat, full: bool,
                     ghost c: seq<Byte>, ghost b0: seq<Block>, ghost i0: seq<Inode>, ghost o0: Owner, ghost k: nat) returns (r: Written)
      requires off + |src| < UINT && done < done + n1 <= |src| && n1 <= MAXCHUNK && n1 == Chunk(src, done)
      requires PartWritten(sb, b0, i0, blocks, inodes, owner, i, c, off, src, done)
      requires i < |i0| && Shaped(i0[i]) && done == k * MAXCHUNK && done + n1 == At(|src|, k + 1)
      requires Chunked(sb, b0, i0, o0, blocks, inodes, owner, i, off, |src|, done)
      modifies this`blocks, this`inodes, this`owner, this`logged
      ensures r.Count? ==> PartWritten(sb, b0, i0, blocks, inodes, owner, i, c, off, src, done + n1)
      ensures r.BadRange? ==> PartWritten(sb, b0, i0, blocks, inodes, owner, i, c, off, src, done)
      ensures !r.Count? ==> Image(sb, blocks, inodes, owner) && OtherFiles(b0, i0, blocks, inodes, i)
      ensures r.OverQuota? ==> i < |inodes| && Shaped(inodes[i]) && CutShort(c, off, src, done, Content(blocks, inodes[i]))
      ensures r.Count? ==> Chunked(sb, b0, i0, o0, blocks, inodes, owner, i, off, |src|, done + n1)
      ensures r.BadRange? <==> Beyond(i0[i].size, off, |src|, k)
      ensures r.Panicked? <==> !Beyond(i0[i].size, off, |src|, k) && Starved(sb, b0, i0[i], o0, off, |src|, k)
      ensures r.OverQuota? <==> !Beyond(i0[i].size, off, |src|, k) && !Starved(sb, b0, i0[i], o0, off, |src|, k) && full
    {
      hide OtherFiles, Content, LaidOver, CutShort, Image, Overlaid, Logs, TableKept, Recorded, HasSlots, RefsKept, Lack,
           Dinode, LogChunks.NeverPanics, OnlyInode, Fetched, Beyond, Starved, Chunked, EndBlock, Touched;
      ghost var blocks1, inodes1, owner1 := blocks, inodes, owner;
      BeyondIs(sb, b0, i0, o0, blocks, inodes, owner, i, off, |src|, done, n1, k);
      r := WriteChunk(i, off + done, src[done..done + n1], full);
      OtherFilesTrans(b0, i0, blocks1, inodes1, blocks, inodes, i);
      if !r.BadRange? {
        StarvedIs(sb, b0, i0, o0, blocks1, inodes1, owner1, i, off, |src|, done, n1, k);
      }
      if r.Count? {
        LaidOverMore(c, off, src, done, n1, Content(blocks1, inodes1[i]), Content(blocks, inodes[i]));
        OverlaidGrows(Content(blocks1, inodes1[i]), off + done, src[done..done + n1]);
        ChunkedMore(sb, b0, i0, o0, blocks1, inodes1, owner1, blocks, inodes, owner, i, off, |src|, done, n1);
      } else if r.OverQuota? {
        CutMore(c, off, src, done, Content(blocks1, inodes1[i]), Content(blocks, inodes[i]));
      }
    }
  }

  // ---------------------------------------------------------------- the chunks of filewrite

  /** How many chunks n bytes make, and where chunk k of them starts. */
  function Chunks(n: nat): nat { (n + MAXCHUNK - 1) / MAXCHUNK }

  function At(n: nat, k: nat): nat { if k * MAXCHUNK < n then k * MAXCHUNK else n }

  lemma ChunkAt(n: nat, k: nat)
    requires At(n, k) < n
    ensures At(n, k) == k * MAXCHUNK && k < Chunks(n)
    ensures At(n, k + 1) == k * MAXCHUNK + if n - k * MAXCHUNK > MAXCHUNK then MAXCHUNK else n - k * MAXCHUNK
    ensures At(n, k + 1) == n ==> k + 1 == Chunks(n)
  {
  }

  /** Chunk k starts beyond the end of the file, or ends beyond the largest file. */
  predicate Beyond(size: nat, off: nat, n: nat, k: nat) {
    (k == 0 && off > size) || off + At(n, k + 1) > MAXBYTES
  }

  /** The bytes up to the end of chunk k lack more blocks than are free. */
  predicate Starved(sb: Super, blocks: seq<Block>, ino: Inode, owner: Owner, off: nat, n: nat, k: nat) {
    !Enough(sb, blocks, ino, owner, off, At(n, k + 1))
  }

  predicate Enough(sb: Super, blocks: seq<Block>, ino: Inode, owner: Owner, off: nat, n: nat) {
    Shaped(ino) && EndBlock(off, n) <= MAXFILE && Spare(sb, owner) >= Lack(blocks, ino, off / BSIZE, EndBlock(off, n))
  }

  predicate Passes(sb: Super, blocks: seq<Block>, ino: Inode, owner: Owner, off: nat, n: nat, full: set<nat>, k: nat) {
    !Beyond(ino.size, off, n, k) && !Starved(sb, blocks, ino, owner, off, n, k) && k !in full
  }

  lemma PassesIs(sb: Super, blocks: seq<Block>, ino: Inode, owner: Owner, off: nat, n: nat, full: set<nat>, k: nat)
    ensures Passes(sb, blocks, ino, owner, off, n, full, k) <==>
      !Beyond(ino.size, off, n, k) && !Starved(sb, blocks, ino, owner, off, n, k) && k !in full
  {
  }

  /** If every chunk passes, all of the bytes are in range and there are blocks enough for them. */
  lemma PassesAll(sb: Super, blocks: seq<Block>, ino: Inode, owner: Owner, off: nat, n: nat, full: set<nat>)
    requires forall e :: 0 <= e < Chunks(n) ==> Passes(sb, blocks, ino, owner, off, n, full, e)
    ensures n > 0 ==>
      && off <= ino.size && off + n <= MAXBYTES && (forall e :: 0 <= e < Chunks(n) ==> e !in full)
      && Enough(sb, blocks, ino, owner, off, n)
  {
    hide Enough;
    if n > 0 {
      var last := Chunks(n) - 1;
      assert At(n, last + 1) == n && 0 < Chunks(n);
      assert Passes(sb, blocks, ino, owner, off, n, full, 0) && Passes(sb, blocks, ino, owner, off, n, full, last);
      forall e | 0 <= e < Chunks(n) ensures e !in full { assert Passes(sb, blocks, ino, owner, off, n, full, e); }
    }
  }

  /** And if a chunk does not, not. */
  lemma PassesNot(sb: Super, blocks: seq<Block>, ino: Inode, owner: Owner, off: nat, n: nat, full: set<nat>, k: nat)
    requires k < Chunks(n) && !Passes(sb, blocks, ino, owner, off, n, full, k) && Shaped(ino)
    ensures n > 0
    ensures !(&& off <= ino.size && off + n <= MAXBYTES && (forall e :: 0 <= e < Chunks(n) ==> e !in full)
              && Enough(sb, blocks, ino, owner, off, n))
  {
    hide EndBlock, Ref;
    assert At(n, k + 1) <= n;
    if off + n <= MAXBYTES && Enough(sb, blocks, ino, owner, off, n) {
      EndBlockLess(off, At(n, k + 1), n);
      HolesMore(blocks, ino, off / BSIZE, EndBlock(off, At(n, k + 1)), EndBlock(off, n));
    }
  }

  lemma EndBlockLess(off: nat, m: nat, n: nat)
    requires m <= n
    ensures off / BSIZE <= EndBlock(off, m) <= EndBlock(off, n)
  {
  }

  /** filewrite after done bytes: the blocks of these are there, and the file reaches as far. */
  ghost predicate Chunked(sb: Super, b0: seq<Block>, i0: seq<Inode>, o0: Owner, b1: seq<Block>, i1: seq<Inode>, o1: Owner,
                          i: nat, off: nat, n: nat, done: nat) {
    if done == 0 then b1 == b0 && i1 == i0 && o1 == o0
    else
      && i < |i0| == |i1| && off <= i0[i].size && off + done <= MAXBYTES && off + done <= i1[i].size
      && Fetched(b0, i0, o0, b1, i1, o1, i, off / BSIZE, EndBlock(off, done))
  }

  lemma ChunkedNone(sb: Super, b0: seq<Block>, i0: seq<Inode>, o0: Owner, i: nat, off: nat, n: nat)
    ensures Chunked(sb, b0, i0, o0, b0, i0, o0, i, off, n, 0)
  {
  }

  lemma BeyondIs(sb: Super, b0: seq<Block>, i0: seq<Inode>, o0: Owner, b1: seq<Block>, i1: seq<Inode>, o1: Owner,
                 i: nat, off: nat, n: nat, done: nat, n1: nat, k: nat)
    requires Chunked(sb, b0, i0, o0, b1, i1, o1, i, off, n, done) && i < |i0| && i < |i1|
    requires done == k * MAXCHUNK && done + n1 == At(n, k + 1)
    ensures Beyond(i0[i].size, off, n, k) <==> off + done > i1[i].size || off + done + n1 > MAXBYTES
  {
  }

  lemma StarvedIs(sb: Super, b0: seq<Block>, i0: seq<Inode>, o0: Owner, b1: seq<Block>, i1: seq<Inode>, o1: Owner,
                  i: nat, off: nat, n: nat, done: nat, n1: nat, k: nat)
    requires Chunked(sb, b0, i0, o0, b1, i1, o1, i, off, n, done) && i < |i0| && i < |i1| && Shaped(i0[i]) && Shaped(i1[i])
    requires 0 < n1 && done + n1 == At(n, k + 1) && off + done + n1 <= MAXBYTES && EndBlock(off + done, n1) <= MAXFILE
    ensures Starved(sb, b0, i0[i], o0, off, n, k) <==>
      Spare(sb, o1) < Lack(b1, i1[i], (off + done) / BSIZE, EndBlock(off + done, n1))
  {
    hide Lack, Ref;
    if done == 0 {
      EndBlockFits(off, n1);
    } else {
      EndBlocks(off, done, n1);
      FetchedLack(b0, i0, o0, b1, i1, o1, i, off / BSIZE, EndBlock(off, done), (off + done) / BSIZE, EndBlock(off + done, n1));
    }
  }

  lemma FetchedLack(b0: seq<Block>, i0: seq<Inode>, o0: Owner, b1: seq<Block>, i1: seq<Inode>, o1: Owner,
                    i: nat, lo: nat, mid: nat, n: nat, m: nat)
    requires Fetched(b0, i0, o0, b1, i1, o1, i, lo, mid) && lo <= n <= mid && n <= m <= MAXFILE
    ensures Lack(b0, i0[i], lo, Max(mid, m)) == |o1| - |o0| + Lack(b1, i1[i], n, m)
  {
    hide Lack;
    LackThen(b0, i0, o0, b1, i1, o1, i, lo, mid, n, m);
  }

  /** The blocks of two pieces, one after the other. */
  lemma EndBlocks(off: nat, done: nat, n1: nat)
    requires 0 < done && 0 < n1 && off + done + n1 <= MAXBYTES
    ensures off / BSIZE <= (off + done) / BSIZE <= EndBlock(off, done) && (off + done) / BSIZE <= EndBlock(off + done, n1) <= MAXFILE
    ensures Max(EndBlock(off, done), EndBlock(off + done, n1)) == EndBlock(off, done + n1) == EndBlock(off + done, n1)
  {
  }

  lemma OverlaidGrows(c: seq<Byte>, off: nat, src: seq<Byte>)
    requires off <= |c|
    ensures |Overlaid(c, off, src)| >= off + |src|
  {
  }

  lemma ChunkedMore(sb: Super, b0: seq<Block>, i0: seq<Inode>, o0: Owner, b1: seq<Block>, i1: seq<Inode>, o1: Owner,
                    b2: seq<Block>, i2: seq<Inode>, o2: Owner, i: nat, off: nat, n: nat, done: nat, n1: nat)
    requires Chunked(sb, b0, i0, o0, b1, i1, o1, i, off, n, done) && i < |i0| && i < |i1| == |i2| && Shaped(i0[i])
    requires 0 < n1 && off + done <= i1[i].size && off + done + n1 <= MAXBYTES && off + done + n1 <= i2[i].size
    requires Fetched(b1, i1, o1, b2, i2, o2, i, (off + done) / BSIZE, EndBlock(off + done, n1)) && RefsKept(b1, i1, b2, i2)
    ensures Chunked(sb, b0, i0, o0, b2, i2, o2, i, off, n, done + n1)
  {
    hide Fetched, RefsKept, EndBlock;
    if done > 0 {
      EndBlocks(off, done, n1);
      FetchedThen(b0, i0, o0, b1, i1, o1, b2, i2, o2, i, off / BSIZE, EndBlock(off, done), (off + done) / BSIZE, EndBlock(off + done, n1));
    }
  }

  // ---------------------------------------------------------------- files as bytes

  /** Every file but i has the same size and the same blocks. */
  ghost predicate OtherFiles(blocks: seq<Block>, inodes: seq<Inode>, blocks': seq<Block>, inodes': seq<Inode>, i: nat) {
    && |inodes| == |inodes'|
    && (forall j :: 0 <= j < |inodes| ==> Shaped(inodes[j]) && Shaped(inodes'[j]))
    && (forall j :: 0 <= j < |inodes| && j != i ==> inodes[j].size == inodes'[j].size)
    && (forall j, n :: 0 <= j < |inodes| && j != i && 0 <= n < MAXFILE ==>
         FileBlock(blocks, inodes[j], n) == FileBlock(blocks', inodes'[j], n))
  }

  lemma OtherFilesTrans(b1: seq<Block>, i1: seq<Inode>, b2: seq<Block>, i2: seq<Inode>, b3: seq<Block>, i3: seq<Inode>,
                        i: nat)
    requires OtherFiles(b1, i1, b2, i2, i) && OtherFiles(b2, i2, b3, i3, i)
    ensures OtherFiles(b1, i1, b3, i3, i)
  {
  }

  /** In the source's terms: the flat contents of every other file are unchanged. */
  lemma OtherContents(blocks: seq<Block>, inodes: seq<Inode>, blocks': seq<Block>, inodes': seq<Inode>, i: nat, j: nat)
    requires OtherFiles(blocks, inodes, blocks', inodes', i) && j < |inodes| && j != i
    ensures Content(blocks', inodes'[j]) == Content(blocks, inodes[j])
  {
  }

  /** The bytes of the file, below and above its size, are the old ones except for src at off. */
  ghost predicate Wrote(blocks: seq<Block>, ino: Inode, blocks': seq<Block>, ino': Inode, off: nat, src: seq<Byte>) {
    && Shaped(ino) && Shaped(ino')
    && forall p :: 0 <= p < MAXBYTES ==>
         FileByte(blocks', ino', p) == if off <= p < off + |src| then src[p - off] else FileByte(blocks, ino, p)
  }

  lemma WroteMore(b1: seq<Block>, i1: Inode, b2: seq<Block>, i2: Inode, b3: seq<Block>, i3: Inode,
                  off: nat, src: seq<Byte>, more: seq<Byte>)
    requires Wrote(b1, i1, b2, i2, off, src) && Wrote(b2, i2, b3, i3, off + |src|, more)
    ensures Wrote(b1, i1, b3, i3, off, src + more)
  {
  }

  lemma WroteSame(b1: seq<Block>, i1: Inode, b2: seq<Block>, i2: Inode)
    requires Shaped(i1) && Shaped(i2)
    requires forall n :: 0 <= n < MAXFILE ==> FileBlock(b1, i1, n) == FileBlock(b2, i2, n)
    ensures Wrote(b1, i1, b2, i2, 0, [])
  {
  }

  lemma WroteBlock(b1: seq<Block>, i1: Inode, b2: seq<Block>, i2: Inode, off: nat, src: seq<Byte>)
    requires Shaped(i1) && Shaped(i2) && off % BSIZE + |src| <= BSIZE && off / BSIZE < MAXFILE
    requires forall n :: 0 <= n < MAXFILE ==>
      FileBlock(b2, i2, n) ==
      if n == off / BSIZE then Splice(FileBlock(b1, i1, n), off % BSIZE, src) else FileBlock(b1, i1, n)
    ensures Wrote(b1, i1, b2, i2, off, src)
  {
    forall p | 0 <= p < MAXBYTES
      ensures FileByte(b2, i2, p) == if off <= p < off + |src| then src[p - off] else FileByte(b1, i1, p)
    {
      assert p / BSIZE < MAXFILE;
      assert FileByte(b2, i2, p) == FileBlock(b2, i2, p / BSIZE)[p % BSIZE];
    }
  }

  /** Bytes at every offset and a size determine the flat array. */
  lemma WroteContent(b1: seq<Block>, i1: Inode, b2: seq<Block>, i2: Inode, off: nat, src: seq<Byte>)
    requires Wrote(b1, i1, b2, i2, off, src) && off <= i1.size
    ensures i2.size == (if off + |src| > i1.size then off + |src| else i1.size) ==>
      Content(b2, i2) == Overlaid(Content(b1, i1), off, src)
    ensures i2.size == i1.size ==> Content(b2, i2) == Overlaid(Content(b1, i1), off, src)[..i1.size]
  {
    var all := Overlaid(Content(b1, i1), off, src);
    forall p | 0 <= p < i2.size && p < |all| && (i2.size == |all| || i2.size == i1.size)
      ensures Content(b2, i2)[p] == all[p]
    {
      assert Content(b2, i2)[p] == FileByte(b2, i2, p);
      if p < i1.size { assert Content(b1, i1)[p] == FileByte(b1, i1, p); }
    }
  }

  lemma TouchedMore(sb: Super, b1: seq<Block>, i1: seq<Inode>, b2: seq<Block>, i2: seq<Inode>, i: nat, off: nat, tot: nat,
                    m: nat)
    requires RefsKept(b1, i1, b2, i2) && i < |i1| && 0 < m && off + tot + m <= MAXBYTES
    requires (off + tot) % BSIZE + m <= BSIZE
    requires forall n :: off / BSIZE <= n < EndBlock(off, tot) ==> Ref(b1, i1[i], Slot(n)) != 0
    ensures Touched(sb, b1, i1[i], off, tot) <= Touched(sb, b2, i2[i], off, tot + m)
    ensures Ref(b2, i2[i], Slot((off + tot) / BSIZE)) in Touched(sb, b2, i2[i], off, tot + m)
    ensures Ref(b2, i2[i], Slot((off + tot) / BSIZE)) != 0 ==>
      forall n :: off / BSIZE <= n < EndBlock(off, tot + m) ==> Ref(b2, i2[i], Slot(n)) != 0
  {
    hide EndBlock, RefsKept, Ref;
    EndBlockNext(off, tot, m);
    RefsKeptIndex(b1, i1, b2, i2, i);
    TouchedRange(b1, i1, b2, i2, i, off / BSIZE, EndBlock(off, tot), EndBlock(off, tot + m));
  }

  lemma RefsKeptIndex(b1: seq<Block>, i1: seq<Inode>, b2: seq<Block>, i2: seq<Inode>, i: nat)
    requires RefsKept(b1, i1, b2, i2) && i < |i1|
    ensures |i2| == |i1| && Shaped(i1[i]) && Shaped(i2[i])
  {
  }

  lemma IndirectKept(b1: seq<Block>, i1: seq<Inode>, b2: seq<Block>, i2: seq<Inode>, i: nat)
    requires RefsKept(b1, i1, b2, i2) && i < |i1|
    ensures IndirectBlock(i1[i]) <= IndirectBlock(i2[i])
  {
    assert Ref(b1, i1[i], NDIRECT) == i1[i].addrs[NDIRECT];
    assert Ref(b2, i2[i], NDIRECT) == i2[i].addrs[NDIRECT];
  }

  /** The blocks lo..mid plus perhaps one more. */
  lemma TouchedRange(b1: seq<Block>, i1: seq<Inode>, b2: seq<Block>, i2: seq<Inode>, i: nat, lo: nat, mid: nat, hi: nat)
    requires RefsKept(b1, i1, b2, i2) && i < |i1| && lo <= mid <= hi <= MAXFILE && lo < hi && hi - 1 <= mid
    requires forall n :: lo <= n < mid ==> Ref(b1, i1[i], Slot(n)) != 0
    ensures DataBlocks(b1, i1[i], lo, mid) <= DataBlocks(b2, i2[i], lo, hi)
    ensures Ref(b2, i2[i], Slot(hi - 1)) in DataBlocks(b2, i2[i], lo, hi)
    ensures IndirectBlock(i1[i]) <= IndirectBlock(i2[i])
    ensures Ref(b2, i2[i], Slot(hi - 1)) != 0 ==> forall n :: lo <= n < hi ==> Ref(b2, i2[i], Slot(n)) != 0
  {
    hide DataBlocks, Ref, Slot, IndirectBlock;
    IndirectKept(b1, i1, b2, i2, i);
    DataBlocksKept(b1, i1, b2, i2, i, lo, mid);
    DataBlocksHas(b2, i2[i], lo, hi, hi - 1);
    if mid < hi { DataBlocksHas(b2, i2[i], lo, hi, mid); }
    forall n | lo <= n < hi && Ref(b2, i2[i], Slot(hi - 1)) != 0 ensures Ref(b2, i2[i], Slot(n)) != 0 {
      assert n < mid ==> Ref(b1, i1[i], Slot(n)) != 0;
    }
  }

  lemma EndBlockNext(off: nat, tot: nat, m: nat)
    requires 0 < m && (off + tot) % BSIZE + m <= BSIZE && off + tot + m <= MAXBYTES
    ensures
      var mid, hi := EndBlock(off, tot), EndBlock(off, tot + m);
      hi == (off + tot) / BSIZE + 1 && hi - 1 <= mid <= hi <= MAXFILE && off / BSIZE <= mid
  {
  }

  // ---------------------------------------------------------------- what bmap does

  /** No more than the free map, the indirect block and block r got logged. */
  predicate MayLog(sb: Super, l0: set<nat>, l1: set<nat>, ino: Inode, r: nat) {
    Shaped(ino) && l1 <= l0 + BitmapBlocks(sb) + IndirectBlock(ino) + {r}
  }

  lemma MayLogMore(sb: Super, l0: set<nat>, l1: set<nat>, l2: set<nat>, ino: Inode, r: nat)
    requires Shaped(ino) && MayLog(sb, l0, l1, ino, ino.addrs[NDIRECT]) && ino.addrs[NDIRECT] != 0
    requires MayLog(sb, l1, l2, ino, r)
    ensures MayLog(sb, l0, l2, ino, r)
  {
  }

  /** balloc and the store of the block number r in slot k of inode i; r is 0 when no block was free. */
  ghost predicate Slotted(sb: Super, b0: seq<Block>, i0: seq<Inode>, o0: Owner, l0: set<nat>,
                          b1: seq<Block>, i1: seq<Inode>, o1: Owner, l1: set<nat>, i: nat, k: nat, r: nat) {
    && i < |i0| == |i1| && Shaped(i0[i]) && Shaped(i1[i]) && k < SLOTS
    && SameFiles(b0, i0, b1, i1) && RefsKept(b0, i0, b1, i1) && RefSet(b0, i0, b1, i1, i, k, r) && Trace(sb, b0, l0, b1, l1)
    && (r != 0 <==> Spare(sb, o0) > 0) && |o1| == |o0| + (if r != 0 then 1 else 0)
    && (r != 0 ==> r in l1 && sb.bmapstart + r / BPB in l1 && (k > NDIRECT ==> i1[i].addrs[NDIRECT] in l1))
    && (k > NDIRECT ==> i1 == i0) && (k <= NDIRECT ==> OnlySlot(i0[i], i1[i], k)) && OnlyInode(i0, i1, i)
    && MayLog(sb, l0, l1, i1[i], r)
  }

  lemma SlottedNone(sb: Super, blocks: seq<Block>, inodes: seq<Inode>, owner: Owner, logged: set<nat>, i: nat, k: nat)
    requires Image(sb, blocks, inodes, owner) && i < |inodes| && Shaped(inodes[i]) && k < SLOTS
    requires Ref(blocks, inodes[i], k) == 0
    requires Spare(sb, owner) <= 0
    ensures Slotted(sb, blocks, inodes, owner, logged, blocks, inodes, owner, logged, i, k, 0)
  {
    hide Owned, Marked, SameFiles, RefsKept, Ref;
    ImageShaped(sb, blocks, inodes, owner);
    SameFilesRefl(blocks, inodes);
    RefsKeptRefl(blocks, inodes);
  }

  lemma SlottedDirect(sb: Super, b0: seq<Block>, i0: seq<Inode>, o0: Owner, l0: set<nat>, b: seq<Block>, l: set<nat>,
                      i: nat, k: nat, r: nat)
    requires Image(sb, b0, i0, o0) && i < |i0| && Shaped(i0[i]) && k <= NDIRECT && Ref(b0, i0[i], k) == 0
    requires sb.nmeta <= r < sb.size && !Used(sb, b0, r) && b == Allocate(sb, b0, r)
    requires Spare(sb, o0) > 0 && l == l0 + {sb.bmapstart + r / BPB} + {r} && Trace(sb, b0, l0, b, l)
    ensures
      var i1 := i0[i := i0[i].(addrs := i0[i].addrs[k := r])];
      Image(sb, b, i1, o0[r := (i, k)]) && Slotted(sb, b0, i0, o0, l0, b, i1, o0[r := (i, k)], l, i, k, r)
  {
    hide Image, SameFiles, RefsKept, RefSet, Used, Allocate, BindBlocks, BindInode, BitmapBlocks, Trace, OnlySlot, Ref;
    AllocateFresh(sb, b0, i0, o0, i, k, r);
    BitmapHas(sb, r);
    LayoutBound(sb, b0, i0, o0);
    BindIs(b, i0[i], k, r);
    OnlySlotSet(b0, i0[i], k, r);
  }

  lemma SlottedEntry(sb: Super, b0: seq<Block>, i0: seq<Inode>, o0: Owner, l0: set<nat>, b: seq<Block>, l: set<nat>,
                     i: nat, k: nat, r: nat)
    requires Image(sb, b0, i0, o0) && i < |i0| && Shaped(i0[i]) && NDIRECT < k < SLOTS
    requires Ref(b0, i0[i], k) == 0 && i0[i].addrs[NDIRECT] != 0
    requires sb.nmeta <= r < sb.size && !Used(sb, b0, r) && b == Allocate(sb, b0, r)
    requires Spare(sb, o0) > 0 && l == l0 + {sb.bmapstart + r / BPB} + {r} && Trace(sb, b0, l0, b, l)
    ensures r < UINT && i0[i].addrs[NDIRECT] < |b|
    ensures
      var p := i0[i].addrs[NDIRECT];
      var b1 := b[p := PutWord(b[p], k - NDIRECT - 1, r)];
      Image(sb, b1, i0, o0[r := (i, k)]) && Slotted(sb, b0, i0, o0, l0, b1, i0, o0[r := (i, k)], l + {p}, i, k, r)
  {
    hide Image, SameFiles, RefsKept, RefSet, Used, Allocate, BindBlocks, BindInode, BitmapBlocks, Trace, OnlySlot, Ref,
         PutWord;
    AllocateFresh(sb, b0, i0, o0, i, k, r);
    BitmapHas(sb, r);
    LayoutBound(sb, b0, i0, o0);
    IndirectAbove(sb, b0, i0, o0, i);
    BindIs(b, i0[i], k, r);
    var p := i0[i].addrs[NDIRECT];
    TraceSet(sb, b0, l0, b, l, p, PutWord(b[p], k - NDIRECT - 1, r));
    assert i0 == i0[i := BindInode(i0[i], k, r)];
  }

  lemma LayoutBound(sb: Super, blocks: seq<Block>, inodes: seq<Inode>, owner: Owner)
    requires Image(sb, blocks, inodes, owner)
    ensures Layout(sb) && 0 < sb.nmeta <= |blocks| == sb.size < UINT && forall b :: b in owner ==> sb.nmeta <= b < sb.size
  {
  }

  lemma RefSetAt(b0: seq<Block>, i0: seq<Inode>, b1: seq<Block>, i1: seq<Inode>, i: nat, k: nat, r: nat, l: nat)
    requires RefSet(b0, i0, b1, i1, i, k, r) && i < |i0| && l < SLOTS
    ensures Shaped(i0[i]) && Shaped(i1[i]) && Ref(b1, i1[i], l) == if l == k then r else Ref(b0, i0[i], l)
  {
  }

  lemma SlottedMeans(sb: Super, b0: seq<Block>, i0: seq<Inode>, o0: Owner, l0: set<nat>,
                     b1: seq<Block>, i1: seq<Inode>, o1: Owner, l1: set<nat>, i: nat, k: nat, r: nat)
    requires Slotted(sb, b0, i0, o0, l0, b1, i1, o1, l1, i, k, r)
    ensures i < |i0| == |i1| && Shaped(i1[i]) && Ref(b1, i1[i], k) == r
  {
  }

  /** The indirect block was there, or slot NDIRECT got one, unless none was free. */
  ghost predicate Loaded(sb: Super, b0: seq<Block>, i0: seq<Inode>, o0: Owner, l0: set<nat>,
                         b1: seq<Block>, i1: seq<Inode>, o1: Owner, l1: set<nat>, i: nat) {
    && i < |i0| == |i1| && Shaped(i0[i]) && Shaped(i1[i])
    && if i0[i].addrs[NDIRECT] != 0 then b1 == b0 && i1 == i0 && o1 == o0 && l1 == l0
       else Slotted(sb, b0, i0, o0, l0, b1, i1, o1, l1, i, NDIRECT, i1[i].addrs[NDIRECT])
  }

  /** bmap of file block n of inode i: it is there now, with the blocks that it lacked, or these were not free. */
  ghost predicate Mapped(sb: Super, b0: seq<Block>, i0: seq<Inode>, o0: Owner, l0: set<nat>,
                         b1: seq<Block>, i1: seq<Inode>, o1: Owner, l1: set<nat>, i: nat, n: nat, ok: bool) {
    && i < |i0| == |i1| && Shaped(i0[i]) && Shaped(i1[i]) && n < MAXFILE
    && SameFiles(b0, i0, b1, i1) && RefsKept(b0, i0, b1, i1) && Elsewhere(b0, i0, b1, i1, i, n) && Trace(sb, b0, l0, b1, l1)
    && (ok <==> Spare(sb, o0) >= Lack(b0, i0[i], n, n + 1))
    && (ok ==> |o1| == |o0| + Lack(b0, i0[i], n, n + 1) && Ref(b1, i1[i], Slot(n)) != 0)
    && (ok ==> Noted(sb, b0, i0[i], b1, i1[i], l1, n)) && (!ok ==> Spare(sb, o1) <= 0)
    && MayLog(sb, l0, l1, i1[i], Ref(b1, i1[i], Slot(n)))
    && OnlySlot(i0[i], i1[i], Head(n)) && OnlyInode(i0, i1, i)
  }

  lemma MappedMeans(sb: Super, b0: seq<Block>, i0: seq<Inode>, o0: Owner, l0: set<nat>,
                    b1: seq<Block>, i1: seq<Inode>, o1: Owner, l1: set<nat>, i: nat, n: nat, ok: bool)
    requires Mapped(sb, b0, i0, o0, l0, b1, i1, o1, l1, i, n, ok) && Image(sb, b1, i1, o1)
    ensures i < |i1| && Shaped(i1[i]) && n < MAXFILE && Ref(b1, i1[i], Slot(n)) < |b1| == sb.size && Layout(sb)
    ensures !ok ==> forall c :: 0 <= c < sb.size ==> Used(sb, b1, c)
  {
    hide Image;
    SpareIs(sb, b1, i1, o1);
    RefBound(sb, b1, i1, o1, i, Slot(n));
  }

  lemma MappedSame(sb: Super, blocks: seq<Block>, inodes: seq<Inode>, owner: Owner, logged: set<nat>, i: nat, n: nat)
    requires Image(sb, blocks, inodes, owner) && i < |inodes| && n < MAXFILE && Shaped(inodes[i])
    requires Ref(blocks, inodes[i], Slot(n)) != 0
    ensures Mapped(sb, blocks, inodes, owner, logged, blocks, inodes, owner, logged, i, n, true)
  {
    hide Owned, Marked, SameFiles, RefsKept, Lack, Elsewhere, BitmapBlocks, OnlySlot;
    ImageShaped(sb, blocks, inodes, owner);
    SameFilesRefl(blocks, inodes);
    RefsKeptRefl(blocks, inodes);
    ElsewhereRefl(blocks, inodes, i, n);
    OnlySlotSame(inodes[i], Head(n));
    LackOne(blocks, inodes[i], n);
    SpareIs(sb, blocks, inodes, owner);
  }

  lemma MappedDirect(sb: Super, b0: seq<Block>, i0: seq<Inode>, o0: Owner, l0: set<nat>,
                     b1: seq<Block>, i1: seq<Inode>, o1: Owner, l1: set<nat>, i: nat, n: nat, r: nat)
    requires n < NDIRECT && Slotted(sb, b0, i0, o0, l0, b1, i1, o1, l1, i, n, r) && Ref(b0, i0[i], n) == 0
    ensures Mapped(sb, b0, i0, o0, l0, b1, i1, o1, l1, i, n, r != 0) && Ref(b1, i1[i], Slot(n)) == r
  {
    hide SameFiles, RefsKept, RefSet, Lack, Elsewhere, OnlySlot, MayLog, Trace, Ref, OnlyInode;
    SetElsewhere(b0, i0, b1, i1, i, n, r, n);
    RefSetAt(b0, i0, b1, i1, i, n, r, n);
    LackOne(b0, i0[i], n);
  }

  lemma MappedUnloaded(sb: Super, b0: seq<Block>, i0: seq<Inode>, o0: Owner, l0: set<nat>,
                       b1: seq<Block>, i1: seq<Inode>, o1: Owner, l1: set<nat>, i: nat, n: nat)
    requires NDIRECT <= n < MAXFILE && Loaded(sb, b0, i0, o0, l0, b1, i1, o1, l1, i) && i1[i].addrs[NDIRECT] == 0
    ensures Mapped(sb, b0, i0, o0, l0, b1, i1, o1, l1, i, n, false)
  {
    hide SameFiles, RefsKept, RefSet, Lack, Elsewhere, OnlySlot, MayLog, Trace, OnlyInode;
    SetElsewhere(b0, i0, b1, i1, i, NDIRECT, 0, n);
    LackOne(b0, i0[i], n);
  }

  lemma LoadedRef(sb: Super, b0: seq<Block>, i0: seq<Inode>, o0: Owner, l0: set<nat>,
                  b1: seq<Block>, i1: seq<Inode>, o1: Owner, l1: set<nat>, i: nat, n: nat)
    requires NDIRECT <= n < MAXFILE && Loaded(sb, b0, i0, o0, l0, b1, i1, o1, l1, i) && 0 < i1[i].addrs[NDIRECT] < |b1|
    ensures Ref(b1, i1[i], Slot(n)) == Word(b1[i1[i].addrs[NDIRECT]], n - NDIRECT) && Slot(n) == n + 1
    ensures Ref(b1, i1[i], Slot(n)) == Ref(b0, i0[i], Slot(n))
    ensures i0[i].addrs[NDIRECT] == 0 ==> Ref(b0, i0[i], Slot(n)) == 0
  {
  }

  lemma MappedEntry(sb: Super, b0: seq<Block>, i0: seq<Inode>, o0: Owner, l0: set<nat>,
                    b1: seq<Block>, i1: seq<Inode>, o1: Owner, l1: set<nat>, i: nat, n: nat, r: nat)
    requires NDIRECT <= n < MAXFILE && Slotted(sb, b0, i0, o0, l0, b1, i1, o1, l1, i, n + 1, r)
    requires i0[i].addrs[NDIRECT] != 0 && Ref(b0, i0[i], n + 1) == 0
    ensures Mapped(sb, b0, i0, o0, l0, b1, i1, o1, l1, i, n, r != 0) && Ref(b1, i1[i], Slot(n)) == r
  {
    hide SameFiles, RefsKept, RefSet, Lack, Elsewhere, OnlySlot, MayLog, Trace, Ref, OnlyInode;
    SetElsewhere(b0, i0, b1, i1, i, n + 1, r, n);
    RefSetAt(b0, i0, b1, i1, i, n + 1, r, n + 1);
    LackOne(b0, i0[i], n);
    OnlySlotSame(i0[i], NDIRECT);
  }

  lemma EntryMapped(sb: Super, b0: seq<Block>, i0: seq<Inode>, o0: Owner, l0: set<nat>,
                    b1: seq<Block>, i1: seq<Inode>, o1: Owner, l1: set<nat>,
                    b2: seq<Block>, i2: seq<Inode>, o2: Owner, l2: set<nat>, i: nat, n: nat, r: nat)
    requires NDIRECT <= n < MAXFILE && Loaded(sb, b0, i0, o0, l0, b1, i1, o1, l1, i) && i1[i].addrs[NDIRECT] != 0
    requires Slotted(sb, b1, i1, o1, l1, b2, i2, o2, l2, i, n + 1, r) && Ref(b1, i1[i], n + 1) == 0
    ensures Mapped(sb, b0, i0, o0, l0, b2, i2, o2, l2, i, n, r != 0)
    ensures i < |i2| && Shaped(i2[i]) && Ref(b2, i2[i], Slot(n)) == r
  {
    hide Mapped, SameFiles, RefsKept, RefSet, Trace, Ref;
    MappedEntry(sb, b1, i1, o1, l1, b2, i2, o2, l2, i, n, r);
    if i0[i].addrs[NDIRECT] == 0 {
      MappedFresh(sb, b0, i0, o0, l0, b1, i1, o1, l1, b2, i2, o2, l2, i, n, r != 0);
    }
  }

  /** With the indirect block allocated just before. */
  lemma MappedFresh(sb: Super, b0: seq<Block>, i0: seq<Inode>, o0: Owner, l0: set<nat>,
                    b1: seq<Block>, i1: seq<Inode>, o1: Owner, l1: set<nat>,
                    b2: seq<Block>, i2: seq<Inode>, o2: Owner, l2: set<nat>, i: nat, n: nat, ok: bool)
    requires NDIRECT <= n < MAXFILE && i < |i1| && Shaped(i1[i])
    requires Slotted(sb, b0, i0, o0, l0, b1, i1, o1, l1, i, NDIRECT, i1[i].addrs[NDIRECT])
    requires i0[i].addrs[NDIRECT] == 0 != i1[i].addrs[NDIRECT]
    requires Mapped(sb, b1, i1, o1, l1, b2, i2, o2, l2, i, n, ok) && i2[i] == i1[i] && Ref(b1, i1[i], Slot(n)) == 0
    ensures Mapped(sb, b0, i0, o0, l0, b2, i2, o2, l2, i, n, ok)
  {
    hide SameFiles, RefsKept, RefSet, Lack, Elsewhere, OnlySlot, MayLog, Trace, Ref, OnlyInode;
    SetElsewhere(b0, i0, b1, i1, i, NDIRECT, i1[i].addrs[NDIRECT], n);
    RefSetAt(b0, i0, b1, i1, i, NDIRECT, i1[i].addrs[NDIRECT], Slot(n));
    LackOne(b0, i0[i], n);
    LackOne(b1, i1[i], n);
    ElsewhereTrans(b0, i0, b1, i1, b2, i2, i, n);
    SameFilesTrans(b0, i0, b1, i1, b2, i2);
    RefsKeptTrans(b0, i0, b1, i1, b2, i2);
    TraceTrans(sb, b0, l0, b1, l1, b2, l2);
    MayLogMore(sb, l0, l1, l2, i1[i], Ref(b2, i2[i], Slot(n)));
    OnlyInodeTrans(i0, i1, i2, i);
  }

  // ---------------------------------------------------------------- what a range costs

  lemma EndBlockFits(off: nat, n: nat)
    requires off + n <= MAXBYTES
    ensures off / BSIZE <= EndBlock(off, n) <= MAXFILE && EndBlock(off, 0) == off / BSIZE
  {
  }

  /** The next piece starts in the first block not yet done, and ends the range or that block. */
  lemma EndBlockAt(off: nat, tot: nat, m: nat, n: nat)
    requires tot < n && off + n <= MAXBYTES && m == Piece(off + tot, n - tot) && (tot == 0 || (off + tot) % BSIZE == 0)
    ensures 0 < m && (off + tot) / BSIZE == EndBlock(off, tot) < MAXFILE && (off + tot) % BSIZE + m <= BSIZE
    ensures EndBlock(off, tot + m) == EndBlock(off, tot) + 1 <= EndBlock(off, n) <= MAXFILE
    ensures tot + m == n || (off + (tot + m)) % BSIZE == 0
  {
  }

  /** File block n of inode i is there and logged, for what it lacked; no other slot changed. */
  ghost predicate Put(sb: Super, b1: seq<Block>, i1: seq<Inode>, o1: Owner, b2: seq<Block>, i2: seq<Inode>, o2: Owner,
                      l2: set<nat>, i: nat, n: nat) {
    && n < MAXFILE && Elsewhere(b1, i1, b2, i2, i, n) && i < |i1| && OnlyInode(i1, i2, i)
    && |o2| == |o1| + Lack(b1, i1[i], n, n + 1)
    && Ref(b2, i2[i], Slot(n)) != 0 && Ref(b2, i2[i], Slot(n)) in l2 && Noted(sb, b1, i1[i], b2, i2[i], l2, n)
  }

  ghost predicate Paid(sb: Super, b0: seq<Block>, i0: seq<Inode>, o0: Owner, l0: set<nat>,
                       b1: seq<Block>, i1: seq<Inode>, o1: Owner, l1: set<nat>, i: nat, lo: nat, mid: nat) {
    && Fetched(b0, i0, o0, b1, i1, o1, i, lo, mid) && Recorded(sb, b0, i0, b1, i1, l1, i, lo, mid)
    && Trace(sb, b0, l0, b1, l1) && RefsKept(b0, i0, b1, i1) && OnlyInode(i0, i1, i)
  }

  lemma PaidNone(sb: Super, b0: seq<Block>, i0: seq<Inode>, o0: Owner, l0: set<nat>, i: nat, lo: nat)
    requires i < |i0| && (forall j :: 0 <= j < |i0| ==> Shaped(i0[j])) && lo <= MAXFILE
    ensures Paid(sb, b0, i0, o0, l0, b0, i0, o0, l0, i, lo, lo)
  {
    FetchedNone(b0, i0, o0, i, lo);
  }

  lemma PaidMore(sb: Super, b0: seq<Block>, i0: seq<Inode>, o0: Owner, l0: set<nat>,
                 b1: seq<Block>, i1: seq<Inode>, o1: Owner, l1: set<nat>,
                 b2: seq<Block>, i2: seq<Inode>, o2: Owner, l2: set<nat>, i: nat, lo: nat, mid: nat)
    requires Paid(sb, b0, i0, o0, l0, b1, i1, o1, l1, i, lo, mid) && Put(sb, b1, i1, o1, b2, i2, o2, l2, i, mid)
    requires Trace(sb, b1, l1, b2, l2) && RefsKept(b1, i1, b2, i2)
    ensures Paid(sb, b0, i0, o0, l0, b2, i2, o2, l2, i, lo, mid + 1)
  {
    hide Fetched, Recorded, RefsKept, Elsewhere, Lack, OnlyInode;
    OnlyInodeTrans(i0, i1, i2, i);
    FetchedMore(b0, i0, o0, b1, i1, o1, b2, i2, o2, i, lo, mid);
    RecordedMore(sb, b0, i0, o0, b1, i1, o1, l1, b2, i2, l2, i, lo, mid);
    RefsKeptTrans(b0, i0, b1, i1, b2, i2);
    TraceTrans(sb, b0, l0, b1, l1, b2, l2);
  }

  lemma PaidShort(sb: Super, b0: seq<Block>, i0: seq<Inode>, o0: Owner, l0: set<nat>,
                  b1: seq<Block>, i1: seq<Inode>, o1: Owner, l1: set<nat>, b2: seq<Block>, i2: seq<Inode>, l2: set<nat>,
                  i: nat, lo: nat, mid: nat, hi: nat)
    requires Paid(sb, b0, i0, o0, l0, b1, i1, o1, l1, i, lo, mid) && mid < hi <= MAXFILE
    requires Trace(sb, b1, l1, b2, l2) && RefsKept(b1, i1, b2, i2) && Spare(sb, o1) < Lack(b1, i1[i], mid, mid + 1)
    ensures i < |i0| && Shaped(i0[i]) && Spare(sb, o0) < Lack(b0, i0[i], lo, hi)
    ensures Trace(sb, b0, l0, b2, l2) && RefsKept(b0, i0, b2, i2)
  {
    hide RefsKept, Lack, Recorded;
    FetchedShort(sb, b0, i0, o0, b1, i1, o1, i, lo, mid, hi);
    TraceTrans(sb, b0, l0, b1, l1, b2, l2);
    RefsKeptTrans(b0, i0, b1, i1, b2, i2);
  }

  lemma PaidMeans(sb: Super, b0: seq<Block>, i0: seq<Inode>, o0: Owner, l0: set<nat>,
                  b1: seq<Block>, i1: seq<Inode>, o1: Owner, l1: set<nat>, i: nat, lo: nat, hi: nat)
    requires Paid(sb, b0, i0, o0, l0, b1, i1, o1, l1, i, lo, hi) && Image(sb, b1, i1, o1)
    ensures i < |i0| && Shaped(i0[i]) && hi <= MAXFILE && Spare(sb, o0) >= Lack(b0, i0[i], lo, hi)
    ensures Recorded(sb, b0, i0, b1, i1, l1, i, lo, hi) && Trace(sb, b0, l0, b1, l1) && RefsKept(b0, i0, b1, i1)
    ensures |o1| == |o0| + Lack(b0, i0[i], lo, hi) && OnlyInode(i0, i1, i) && Fetched(b0, i0, o0, b1, i1, o1, i, lo, hi)
  {
    hide Image, RefsKept, Recorded, Lack;
    SpareIs(sb, b1, i1, o1);
  }

  /** readi so far: n bytes from off. */
  ghost predicate Got(sb: Super, b0: seq<Block>, i0: seq<Inode>, o0: Owner, l0: set<nat>,
                      b1: seq<Block>, i1: seq<Inode>, o1: Owner, l1: set<nat>, i: nat, off: nat, n: nat) {
    && Fetched(b0, i0, o0, b1, i1, o1, i, off / BSIZE, EndBlock(off, n))
    && Trace(sb, b0, l0, b1, l1) && RefsKept(b0, i0, b1, i1)
  }

  /** What readi of n bytes does to the free blocks: it takes what the range lacks, or there is not enough. */
  ghost predicate Took(sb: Super, b0: seq<Block>, i0: seq<Inode>, o0: Owner, l0: set<nat>,
                       b1: seq<Block>, i1: seq<Inode>, o1: Owner, l1: set<nat>, i: nat, off: nat, n: nat, enough: bool) {
    && i < |i0| && Shaped(i0[i]) && EndBlock(off, n) <= MAXFILE
    && (enough <==> Spare(sb, o0) >= Lack(b0, i0[i], off / BSIZE, EndBlock(off, n)))
    && (enough ==> Fetched(b0, i0, o0, b1, i1, o1, i, off / BSIZE, EndBlock(off, n)))
    && Trace(sb, b0, l0, b1, l1) && RefsKept(b0, i0, b1, i1)
  }

  /** The bytes that readi reads. */
  function Clipped(size: nat, off: nat, n: nat): nat
    requires off <= size
  {
    if off + n > size then size - off else n
  }

  lemma GotNone(sb: Super, b0: seq<Block>, i0: seq<Inode>, o0: Owner, l0: set<nat>, i: nat, off: nat)
    requires i < |i0| && (forall j :: 0 <= j < |i0| ==> Shaped(i0[j])) && off <= MAXBYTES
    ensures Got(sb, b0, i0, o0, l0, b0, i0, o0, l0, i, off, 0)
  {
    FetchedNone(b0, i0, o0, i, off / BSIZE);
  }

  lemma GotMore(sb: Super, b0: seq<Block>, i0: seq<Inode>, o0: Owner, l0: set<nat>,
                b1: seq<Block>, i1: seq<Inode>, o1: Owner, l1: set<nat>,
                b2: seq<Block>, i2: seq<Inode>, o2: Owner, l2: set<nat>, i: nat, off: nat, tot: nat, m: nat)
    requires Got(sb, b0, i0, o0, l0, b1, i1, o1, l1, i, off, tot) && EndBlock(off, tot) < MAXFILE
    requires EndBlock(off, tot + m) == EndBlock(off, tot) + 1 && Elsewhere(b1, i1, b2, i2, i, EndBlock(off, tot))
    requires |o2| == |o1| + Lack(b1, i1[i], EndBlock(off, tot), EndBlock(off, tot) + 1)
    requires Ref(b2, i2[i], Slot(EndBlock(off, tot))) != 0
    requires Trace(sb, b1, l1, b2, l2) && RefsKept(b1, i1, b2, i2)
    ensures Got(sb, b0, i0, o0, l0, b2, i2, o2, l2, i, off, tot + m)
  {
    hide Fetched, RefsKept, Elsewhere, Lack, Trace;
    FetchedMore(b0, i0, o0, b1, i1, o1, b2, i2, o2, i, off / BSIZE, EndBlock(off, tot));
    RefsKeptTrans(b0, i0, b1, i1, b2, i2);
    TraceTrans(sb, b0, l0, b1, l1, b2, l2);
  }

  lemma GotShort(sb: Super, b0: seq<Block>, i0: seq<Inode>, o0: Owner, l0: set<nat>,
                 b1: seq<Block>, i1: seq<Inode>, o1: Owner, l1: set<nat>,
                 b2: seq<Block>, i2: seq<Inode>, o2: Owner, l2: set<nat>, i: nat, off: nat, tot: nat, n: nat)
    requires Got(sb, b0, i0, o0, l0, b1, i1, o1, l1, i, off, tot) && EndBlock(off, tot) < EndBlock(off, n) <= MAXFILE
    requires Spare(sb, o1) < Lack(b1, i1[i], EndBlock(off, tot), EndBlock(off, tot) + 1)
    requires Trace(sb, b1, l1, b2, l2) && RefsKept(b1, i1, b2, i2)
    ensures Took(sb, b0, i0, o0, l0, b2, i2, o2, l2, i, off, n, false)
  {
    hide RefsKept, Lack, Trace;
    FetchedShort(sb, b0, i0, o0, b1, i1, o1, i, off / BSIZE, EndBlock(off, tot), EndBlock(off, n));
    RefsKeptTrans(b0, i0, b1, i1, b2, i2);
    TraceTrans(sb, b0, l0, b1, l1, b2, l2);
  }

  lemma GotMeans(sb: Super, b0: seq<Block>, i0: seq<Inode>, o0: Owner, l0: set<nat>,
                 b1: seq<Block>, i1: seq<Inode>, o1: Owner, l1: set<nat>, i: nat, off: nat, n: nat)
    requires Got(sb, b0, i0, o0, l0, b1, i1, o1, l1, i, off, n) && Image(sb, b1, i1, o1)
    ensures Took(sb, b0, i0, o0, l0, b1, i1, o1, l1, i, off, n, true)
  {
    hide Image, RefsKept, Lack, Trace;
    SpareIs(sb, b1, i1, o1);
  }

  lemma DirectRef(blocks: seq<Block>, ino: Inode, n: nat)
    requires Shaped(ino) && n < NDIRECT
    ensures Ref(blocks, ino, Slot(n)) == ino.addrs[n] && Slot(n) == n
  {
  }

  lemma DataAbove(sb: Super, blocks: seq<Block>, inodes: seq<Inode>, owner: Owner, i: nat, n: nat)
    requires Image(sb, blocks, inodes, owner) && i < |inodes| && n < MAXFILE
    ensures Shaped(inodes[i])
    ensures Ref(blocks, inodes[i], Slot(n)) != 0 ==> sb.bmapstart < sb.nmeta <= Ref(blocks, inodes[i], Slot(n)) < |blocks|
  {
  }

  lemma NotedSame(sb: Super, b0: seq<Block>, ino: Inode, b1: seq<Block>, b2: seq<Block>, ino': Inode, l1: set<nat>,
                  l2: set<nat>, n: nat)
    requires Shaped(ino) && Shaped(ino') && n < MAXFILE && Noted(sb, b0, ino, b1, ino', l1, n) && l1 <= l2
    requires Ref(b2, ino', Slot(n)) == Ref(b1, ino', Slot(n))
    ensures Noted(sb, b0, ino, b2, ino', l2, n)
  {
  }

  /** The size is no part of the slots. */
  lemma ResizeRefs(sb: Super, b0: seq<Block>, i0: seq<Inode>, b1: seq<Block>, i1: seq<Inode>, logged: set<nat>, i: nat,
                   size: nat, lo: nat, hi: nat)
    requires RefsKept(b0, i0, b1, i1) && Recorded(sb, b0, i0, b1, i1, logged, i, lo, hi) && size <= MAXBYTES
    ensures
      var i2 := i1[i := i1[i].(size := size)];
      RefsKept(b0, i0, b1, i2) && Recorded(sb, b0, i0, b1, i2, logged, i, lo, hi)
  {
    var i2 := i1[i := i1[i].(size := size)];
    assert forall j, l :: 0 <= j < |i1| && 0 <= l < SLOTS ==> Ref(b1, i2[j], l) == Ref(b1, i1[j], l);
  }

  lemma AboveRefs(sb: Super, b0: seq<Block>, i0: seq<Inode>, b1: seq<Block>, b2: seq<Block>, inodes: seq<Inode>,
                  l1: set<nat>, l2: set<nat>, i: nat, lo: nat, hi: nat)
    requires RefsKept(b0, i0, b1, inodes) && Recorded(sb, b0, i0, b1, inodes, l1, i, lo, hi) && l1 <= l2
    requires (forall j :: 0 <= j < |inodes| ==> Shaped(inodes[j])) &&
      forall j, k :: 0 <= j < |inodes| && 0 <= k < SLOTS ==> Ref(b2, inodes[j], k) == Ref(b1, inodes[j], k)
    ensures RefsKept(b0, i0, b2, inodes) && Recorded(sb, b0, i0, b2, inodes, l2, i, lo, hi)
  {
  }

  lemma FetchedResize(b0: seq<Block>, i0: seq<Inode>, o0: Owner, b1: seq<Block>, i1: seq<Inode>, o1: Owner, i: nat, size: nat,
                      lo: nat, hi: nat)
    requires Fetched(b0, i0, o0, b1, i1, o1, i, lo, hi) && size <= MAXBYTES
    ensures Fetched(b0, i0, o0, b1, i1[i := i1[i].(size := size)], o1, i, lo, hi)
  {
    hide Lack, Ref;
    forall n | 0 <= n < MAXFILE ensures Ref(b1, i1[i].(size := size), Slot(n)) == Ref(b1, i1[i], Slot(n)) {
      ResizeRef(b1, i1[i], size, Slot(n));
    }
  }

  lemma FetchedAbove(b0: seq<Block>, i0: seq<Inode>, o0: Owner, b1: seq<Block>, b2: seq<Block>, inodes: seq<Inode>, o1: Owner,
                     i: nat, lo: nat, hi: nat)
    requires Fetched(b0, i0, o0, b1, inodes, o1, i, lo, hi)
    requires (forall j :: 0 <= j < |inodes| ==> Shaped(inodes[j])) &&
      forall j, k :: 0 <= j < |inodes| && 0 <= k < SLOTS ==> Ref(b2, inodes[j], k) == Ref(b1, inodes[j], k)
    ensures Fetched(b0, i0, o0, b2, inodes, o1, i, lo, hi)
  {
    hide Lack, Ref;
  }

  lemma AboveTouched(sb: Super, b1: seq<Block>, b2: seq<Block>, inodes: seq<Inode>, i: nat, off: nat, n: nat)
    requires i < |inodes| && Shaped(inodes[i]) && off + n <= MAXBYTES
    requires (forall j :: 0 <= j < |inodes| ==> Shaped(inodes[j])) &&
      forall j, k :: 0 <= j < |inodes| && 0 <= k < SLOTS ==> Ref(b2, inodes[j], k) == Ref(b1, inodes[j], k)
    ensures Touched(sb, b2, inodes[i], off, n) == Touched(sb, b1, inodes[i], off, n)
  {
    SameDataBlocks(b1, b2, inodes, i, off / BSIZE, EndBlock(off, n));
  }

  lemma {:induction false} SameDataBlocks(b1: seq<Block>, b2: seq<Block>, inodes: seq<Inode>, i: nat, lo: nat, hi: nat)
    requires i < |inodes| && Shaped(inodes[i]) && hi <= MAXFILE
    requires (forall j :: 0 <= j < |inodes| ==> Shaped(inodes[j])) &&
      forall j, k :: 0 <= j < |inodes| && 0 <= k < SLOTS ==> Ref(b2, inodes[j], k) == Ref(b1, inodes[j], k)
    ensures DataBlocks(b2, inodes[i], lo, hi) == DataBlocks(b1, inodes[i], lo, hi)
    decreases hi
  {
    if lo < hi { SameDataBlocks(b1, b2, inodes, i, lo, hi - 1); }
  }

  lemma SlotsBound(sb: Super, blocks: seq<Block>, inodes: seq<Inode>, owner: Owner)
    requires Image(sb, blocks, inodes, owner)
    ensures forall b :: b in owner ==> owner[b].1 < SLOTS
  {
  }

  lemma EntryWord(sb: Super, blocks: seq<Block>, inodes: seq<Inode>, owner: Owner, i: nat, j: nat)
    requires Owned(sb, blocks, inodes, owner, i, j) && i < |inodes| && j < NINDIRECT && inodes[i].addrs[NDIRECT] != 0
    ensures inodes[i].addrs[NDIRECT] < |blocks|
    ensures Ref(blocks, inodes[i], NDIRECT + 1 + j) == Word(blocks[inodes[i].addrs[NDIRECT]], j)
    ensures forall b :: b in owner && owner[b] == (i, NDIRECT + 1 + j) ==> b == Ref(blocks, inodes[i], NDIRECT + 1 + j) != 0
  {
    assert Live(i, NDIRECT, i, j);
    assert Ref(blocks, inodes[i], NDIRECT) == inodes[i].addrs[NDIRECT];
  }

  lemma SameOthersSelf(blocks: seq<Block>, inodes: seq<Inode>, i: nat)
    requires forall j :: 0 <= j < |inodes| ==> Shaped(inodes[j])
    ensures SameOthers(blocks, inodes, blocks, inodes, i)
  {
  }

  /** An inode without blocks owns none. */
  lemma NoneOwned(sb: Super, blocks: seq<Block>, inodes: seq<Inode>, owner: Owner, i: nat)
    requires Image(sb, blocks, inodes, owner) && i < |inodes| && forall t :: 0 <= t <= NDIRECT ==> inodes[i].addrs[t] == 0
    ensures forall b :: b in owner ==> owner[b].0 != i
  {
    forall b | b in owner ensures owner[b].0 != i {
      assert Ref(blocks, inodes[owner[b].0], owner[b].1) == b;
    }
  }

  lemma MarkedMeans(sb: Super, blocks: seq<Block>, inodes: seq<Inode>, owner: Owner)
    requires Image(sb, blocks, inodes, owner)
    ensures Layout(sb) && |blocks| == sb.size
    ensures forall b :: sb.nmeta <= b < sb.size ==> (Used(sb, blocks, b) <==> b in owner)
  {
  }

  lemma TableRoom(sb: Super, blocks: seq<Block>, inodes: seq<Inode>, owner: Owner)
    requires Image(sb, blocks, inodes, owner)
    ensures sb.inodestart + |inodes| / IPB < sb.bmapstart
  {
  }

  lemma LogsTrans(b0: seq<Block>, l0: set<nat>, b1: seq<Block>, l1: set<nat>, b2: seq<Block>, l2: set<nat>)
    requires Logs(b0, l0, b1, l1) && Logs(b1, l1, b2, l2)
    ensures Logs(b0, l0, b2, l2)
  {
  }

  lemma TableTrans(sb: Super, n: nat, b0: seq<Block>, b1: seq<Block>, b2: seq<Block>, i: nat)
    requires TableKept(sb, n, b0, b1, i) && TableKept(sb, n, b1, b2, i)
    ensures TableKept(sb, n, b0, b2, i)
  {
    hide Dinode;
  }

  lemma SameFilesOnward(b0: seq<Block>, i0: seq<Inode>, b1: seq<Block>, i1: seq<Inode>, b2: seq<Block>, i: nat)
    requires SameOthers(b0, i0, b1, i1, i) && SameFiles(b1, i1, b2, i1)
    ensures SameOthers(b0, i0, b2, i1, i)
  {
  }

  /** Every block that changed has been logged. */
  ghost predicate Logs(b0: seq<Block>, l0: set<nat>, b1: seq<Block>, l1: set<nat>) {
    |b1| == |b0| && l0 <= l1 && forall b :: 0 <= b < |b0| && b1[b] != b0[b] ==> b in l1
  }

  /** The blocks from the free map on are as they were. */
  ghost predicate SameAbove(sb: Super, b0: seq<Block>, b1: seq<Block>) {
    |b1| == |b0| && forall b :: sb.bmapstart <= b < |b0| ==> b1[b] == b0[b]
  }

  /** Of the n inodes on the disk only i may have changed, and of the blocks before them none. */
  ghost predicate TableKept(sb: Super, n: nat, b0: seq<Block>, b1: seq<Block>, i: nat) {
    && |b1| == |b0| && (forall b :: 0 <= b < sb.inodestart && b < |b0| ==> b1[b] == b0[b])
    && forall j :: 0 <= j < n && InodeBlock(sb, j) < |b0| && j != i ==> Dinode(sb, b1, j) == Dinode(sb, b0, j)
  }

  lemma InodeWords(sb: Super, blocks: seq<Block>, inodes: seq<Inode>, owner: Owner, i: nat)
    requires Image(sb, blocks, inodes, owner) && i < |inodes|
    ensures Shaped(inodes[i]) && forall k :: 0 <= k <= NDIRECT ==> inodes[i].addrs[k] < UINT
    ensures InodeBlock(sb, i) < sb.bmapstart < |blocks|
  {
    forall k | 0 <= k <= NDIRECT ensures inodes[i].addrs[k] < UINT {
      assert Ref(blocks, inodes[i], k) == inodes[i].addrs[k];
    }
  }

  lemma UpdateKeeps(sb: Super, blocks: seq<Block>, logged: set<nat>, inodes: seq<Inode>, owner: Owner, i: nat)
    requires Image(sb, blocks, inodes, owner) && i < |inodes| && Shaped(inodes[i])
    requires InodeBlock(sb, i) < sb.bmapstart < |blocks| && forall k :: 0 <= k <= NDIRECT ==> inodes[i].addrs[k] < UINT
    ensures
      var at := InodeBlock(sb, i);
      var b1 := blocks[at := PutDinode(blocks[at], i % IPB, inodes[i])];
      && Image(sb, b1, inodes, owner) && Dinode(sb, b1, i) == inodes[i] && TableKept(sb, |inodes|, blocks, b1, i)
      && Logs(blocks, logged, b1, logged + {at}) && SameAbove(sb, blocks, b1)
  {
    hide DinodeAt, PutDinode, Image;
    var at := InodeBlock(sb, i);
    var b1 := blocks[at := PutDinode(blocks[at], i % IPB, inodes[i])];
    AboveKeeps(sb, blocks, b1, inodes, owner);
    PutDinodeAt(blocks[at], i % IPB, inodes[i], i % IPB);
    forall j | 0 <= j < |inodes| && InodeBlock(sb, j) < |blocks| && j != i ensures Dinode(sb, b1, j) == Dinode(sb, blocks, j) {
      if j / IPB == i / IPB { PutDinodeAt(blocks[at], i % IPB, inodes[i], j % IPB); }
    }
  }

  /** The image does not depend on the blocks below the free map. */
  lemma AboveKeeps(sb: Super, b0: seq<Block>, b1: seq<Block>, inodes: seq<Inode>, owner: Owner)
    requires Image(sb, b0, inodes, owner) && SameAbove(sb, b0, b1)
    ensures Image(sb, b1, inodes, owner) && SameFiles(b0, inodes, b1, inodes)
    ensures forall j, k :: 0 <= j < |inodes| && 0 <= k < SLOTS ==> Ref(b1, inodes[j], k) == Ref(b0, inodes[j], k)
  {
    RefsElsewhere(sb, b0, b1, inodes, owner, 0, 0);
    hide Owned, SameFiles, Ref;
    OwnedShape(sb, b0, inodes, owner, 0, 0);
    forall b | 0 <= b < sb.size ensures Used(sb, b1, b) == Used(sb, b0, b) { }
  }

  lemma TraceTable(sb: Super, b0: seq<Block>, l0: set<nat>, b1: seq<Block>, l1: set<nat>, n: nat)
    requires Trace(sb, b0, l0, b1, l1) && sb.inodestart + n / IPB < sb.bmapstart
    ensures Logs(b0, l0, b1, l1)
    ensures forall i :: TableKept(sb, n, b0, b1, i)
    ensures forall j :: 0 <= j < n && InodeBlock(sb, j) < |b0| ==> Dinode(sb, b1, j) == Dinode(sb, b0, j)
  {
    hide DinodeAt;
    forall j | 0 <= j < n && InodeBlock(sb, j) < |b0| ensures Dinode(sb, b1, j) == Dinode(sb, b0, j) {
      assert j / IPB <= n / IPB;
    }
  }

  lemma BitmapHas(sb: Super, r: nat)
    requires r < sb.size
    ensures sb.bmapstart + r / BPB in BitmapBlocks(sb)
  {
  }

  /** A block that is not marked is a data block that nobody owns. */
  lemma FreeIs(sb: Super, blocks: seq<Block>, inodes: seq<Inode>, owner: Owner, b: nat)
    requires Image(sb, blocks, inodes, owner) && b < sb.size && !Used(sb, blocks, b)
    ensures 0 < sb.nmeta <= b && b !in owner
  {
  }

  lemma OnlySlotSame(ino: Inode, k: nat)
    requires Shaped(ino)
    ensures OnlySlot(ino, ino, k)
  {
  }

  lemma OnlySlotSet(blocks: seq<Block>, ino: Inode, k: nat, r: nat)
    requires Shaped(ino) && k <= NDIRECT && Ref(blocks, ino, k) == 0
    ensures OnlySlot(ino, ino.(addrs := ino.addrs[k := r]), k)
  {
  }

  lemma BindIs(blocks: seq<Block>, ino: Inode, k: nat, r: nat)
    requires Shaped(ino) && k < SLOTS && r < UINT && (k > NDIRECT ==> 0 < ino.addrs[NDIRECT] < |blocks|)
    ensures BindBlocks(blocks, ino, k, r) ==
            if k > NDIRECT then blocks[ino.addrs[NDIRECT] := PutWord(blocks[ino.addrs[NDIRECT]], k - NDIRECT - 1, r)] else blocks
    ensures BindInode(ino, k, r) == if k > NDIRECT then ino else ino.(addrs := ino.addrs[k := r])
  {
  }

  lemma IndirectAbove(sb: Super, blocks: seq<Block>, inodes: seq<Inode>, owner: Owner, i: nat)
    requires Image(sb, blocks, inodes, owner) && i < |inodes|
    ensures Shaped(inodes[i]) && (inodes[i].addrs[NDIRECT] != 0 ==> sb.bmapstart < sb.nmeta <= inodes[i].addrs[NDIRECT] < |blocks|)
  {
    assert Ref(blocks, inodes[i], NDIRECT) == inodes[i].addrs[NDIRECT];
  }

  /** The slot of the inode that leads to its n-th block. */
  function Head(n: nat): nat {
    if n < NDIRECT then n else NDIRECT
  }

  /** No inode in memory changed but i. */
  ghost predicate OnlyInode(i0: seq<Inode>, i1: seq<Inode>, i: nat) {
    |i1| == |i0| && forall j :: 0 <= j < |i0| && j != i ==> i1[j] == i0[j]
  }

  lemma OnlyInodeRefl(inodes: seq<Inode>, i: nat)
    ensures OnlyInode(inodes, inodes, i)
  {
  }

  lemma OnlyInodeTrans(i0: seq<Inode>, i1: seq<Inode>, i2: seq<Inode>, i: nat)
    requires OnlyInode(i0, i1, i) && OnlyInode(i1, i2, i)
    ensures OnlyInode(i0, i2, i)
  {
  }

  /** No slot changed but k, and that only if it was empty. */
  predicate OnlySlot(ino: Inode, ino': Inode, k: nat) {
    && Shaped(ino) && Shaped(ino') && ino'.size == ino.size
    && forall t :: 0 <= t <= NDIRECT && (t != k || ino.addrs[t] != 0) ==> ino'.addrs[t] == ino.addrs[t]
  }

  /** The inode names a block, or an indirect block, for all of bytes off..off+n. */
  predicate HasSlots(ino: Inode, off: nat, n: nat) {
    Shaped(ino) && forall m :: off / BSIZE <= m < EndBlock(off, n) ==> ino.addrs[Head(m)] != 0
  }

  /** After a write of n bytes at off: the slots for these bytes are filled, and no other was. */
  ghost predicate Grew(ino: Inode, ino': Inode, off: nat, n: nat) {
    && Shaped(ino) && HasSlots(ino', off, n) && ino'.size == ino.size
    && forall t :: 0 <= t <= NDIRECT && (ino.addrs[t] != 0 || !Heads(off, n, t)) ==> ino'.addrs[t] == ino.addrs[t]
  }

  predicate Heads(off: nat, n: nat, t: nat) {
    exists m :: off / BSIZE <= m < EndBlock(off, n) && Head(m) == t
  }

  lemma GrewNone(ino: Inode, off: nat)
    requires Shaped(ino)
    ensures Grew(ino, ino, off, 0)
  {
  }

  lemma GrewMore(ino: Inode, ino1: Inode, blocks: seq<Block>, ino2: Inode, off: nat, tot: nat, m: nat)
    requires Grew(ino, ino1, off, tot) && 0 < m && (off + tot) % BSIZE + m <= BSIZE && off + tot + m <= MAXBYTES
    requires OnlySlot(ino1, ino2, Head((off + tot) / BSIZE)) && Ref(blocks, ino2, Slot((off + tot) / BSIZE)) != 0
    ensures Grew(ino, ino2, off, tot + m)
  {
    EndBlockNext(off, tot, m);
    var h := (off + tot) / BSIZE;
    assert ino2.addrs[Head(h)] != 0;
    forall n | off / BSIZE <= n < EndBlock(off, tot + m) ensures ino2.addrs[Head(n)] != 0 {
      assert n == h || ino1.addrs[Head(n)] != 0;
    }
    assert Heads(off, tot + m, Head(h));
    forall t | 0 <= t <= NDIRECT && (ino.addrs[t] != 0 || !Heads(off, tot + m, t)) ensures ino2.addrs[t] == ino.addrs[t] {
      if Heads(off, tot, t) {
        var n :| off / BSIZE <= n < EndBlock(off, tot) && Head(n) == t;
        assert Heads(off, tot + m, t);
      }
    }
  }

  lemma GrewMeans(ino: Inode, ino': Inode, off: nat, n: nat)
    requires Grew(ino, ino', off, n)
    ensures ino' == ino <==> HasSlots(ino, off, n)
  {
    if HasSlots(ino, off, n) {
      forall t | 0 <= t <= NDIRECT ensures ino'.addrs[t] == ino.addrs[t] {
        if Heads(off, n, t) { var m :| off / BSIZE <= m < EndBlock(off, n) && Head(m) == t; }
      }
      assert ino'.addrs == ino.addrs;
    }
  }

  /** The first byte of an empty file: over quota its block is lost. */
  lemma FirstByteLoses(ino: Inode)
    requires Shaped(ino) && ino.addrs[0] == 0
    ensures !HasSlots(ino, 0, 1)
  {
    assert 0 / BSIZE <= 0 < EndBlock(0, 1) && ino.addrs[Head(0)] == 0;
  }

  /** writei after tot bytes. */
  ghost predicate Progress(sb: Super, b0: seq<Block>, i0: seq<Inode>, logged0: set<nat>,
                           blocks: seq<Block>, inodes: seq<Inode>, logged: set<nat>, i: nat, off: nat, src: seq<Byte>,
                           tot: nat)
    requires tot <= |src| && off + |src| <= MAXBYTES
  {
    && i < |i0| && OtherFiles(b0, i0, blocks, inodes, i) && inodes[i].size == i0[i].size
    && Wrote(b0, i0[i], blocks, inodes[i], off, src[..tot])
    && logged <= logged0 + Touched(sb, blocks, inodes[i], off, tot)
    && (forall n :: off / BSIZE <= n < EndBlock(off, tot) ==> Ref(blocks, inodes[i], Slot(n)) != 0)
  }

  lemma ProgressStart(sb: Super, b0: seq<Block>, i0: seq<Inode>, logged0: set<nat>, i: nat, off: nat, src: seq<Byte>)
    requires i < |i0| && (forall j :: 0 <= j < |i0| ==> Shaped(i0[j])) && off + |src| <= MAXBYTES
    ensures Progress(sb, b0, i0, logged0, b0, i0, logged0, i, off, src, 0)
  {
  }

  lemma ProgressEnd(sb: Super, b0: seq<Block>, i0: seq<Inode>, logged0: set<nat>,
                    b1: seq<Block>, i1: seq<Inode>, logged1: set<nat>, i: nat, off: nat, src: seq<Byte>)
    requires off + |src| <= MAXBYTES && Progress(sb, b0, i0, logged0, b1, i1, logged1, i, off, src, |src|)
    ensures i < |i0| == |i1| && Shaped(i0[i]) && Shaped(i1[i]) && i1[i].size == i0[i].size
    ensures OtherFiles(b0, i0, b1, i1, i) && Wrote(b0, i0[i], b1, i1[i], off, src)
    ensures logged1 <= logged0 + Touched(sb, b1, i1[i], off, |src|)
  {
  }

  lemma ProgressLost(sb: Super, b0: seq<Block>, i0: seq<Inode>, logged0: set<nat>,
                     b1: seq<Block>, i1: seq<Inode>, logged1: set<nat>,
                     b2: seq<Block>, i2: seq<Inode>, logged2: set<nat>, i: nat, off: nat, src: seq<Byte>, tot: nat, m: nat)
    requires 0 < m && tot + m <= |src| && off + |src| <= MAXBYTES && (off + tot) % BSIZE + m <= BSIZE
    requires Progress(sb, b0, i0, logged0, b1, i1, logged1, i, off, src, tot)
    requires RefsKept(b1, i1, b2, i2) && OtherFiles(b1, i1, b2, i2, i) && i2[i].size == i1[i].size
    requires logged2 <= logged1 + BitmapBlocks(sb) + IndirectBlock(i2[i]) + {Ref(b2, i2[i], Slot((off + tot) / BSIZE))}
    ensures i < |i0| && OtherFiles(b0, i0, b2, i2, i) && i2[i].size == i0[i].size && Shaped(i2[i])
    ensures logged2 <= logged0 + Touched(sb, b2, i2[i], off, |src|)
  {
    OtherFilesTrans(b0, i0, b1, i1, b2, i2, i);
    TouchedMore(sb, b1, i1, b2, i2, i, off, tot, m);
    TouchedGrows(sb, b2, i2[i], off, tot + m, |src|);
  }

  lemma TouchedGrows(sb: Super, blocks: seq<Block>, ino: Inode, off: nat, n: nat, n': nat)
    requires Shaped(ino) && n <= n' && off + n' <= MAXBYTES
    ensures Touched(sb, blocks, ino, off, n) <= Touched(sb, blocks, ino, off, n')
  {
    hide DataBlocks;
    var lo, mid, hi := off / BSIZE, EndBlock(off, n), EndBlock(off, n');
    assert lo <= mid <= hi <= MAXFILE;
    if mid < hi { DataBlocksHas(blocks, ino, lo, hi, mid); }
  }

  lemma ProgressMore(sb: Super, b0: seq<Block>, i0: seq<Inode>, logged0: set<nat>,
                     b1: seq<Block>, i1: seq<Inode>, logged1: set<nat>,
                     b2: seq<Block>, i2: seq<Inode>, logged2: set<nat>, i: nat, off: nat, src: seq<Byte>, tot: nat, m: nat)
    requires 0 < m && tot + m <= |src| && off + |src| <= MAXBYTES && (off + tot) % BSIZE + m <= BSIZE
    requires Progress(sb, b0, i0, logged0, b1, i1, logged1, i, off, src, tot)
    requires RefsKept(b1, i1, b2, i2) && OtherFiles(b1, i1, b2, i2, i) && i2[i].size == i1[i].size
    requires Wrote(b1, i1[i], b2, i2[i], off + tot, src[tot..tot + m])
    requires Ref(b2, i2[i], Slot((off + tot) / BSIZE)) != 0
    requires logged2 <= logged1 + BitmapBlocks(sb) + IndirectBlock(i2[i]) + {Ref(b2, i2[i], Slot((off + tot) / BSIZE))}
    ensures Progress(sb, b0, i0, logged0, b2, i2, logged2, i, off, src, tot + m)
  {
    OtherFilesTrans(b0, i0, b1, i1, b2, i2, i);
    WroteMore(b0, i0[i], b1, i1[i], b2, i2[i], off, src[..tot], src[tot..tot + m]);
    assert src[..tot + m] == src[..tot] + src[tot..tot + m];
    TouchedMore(sb, b1, i1, b2, i2, i, off, tot, m);
  }

  lemma GrowKeeps(sb: Super, b1: seq<Block>, i1: seq<Inode>, b2: seq<Block>, i2: seq<Inode>, owner: Owner, i: nat,
                  off: nat, src: seq<Byte>)
    requires Image(sb, b2, i2, owner) && OtherFiles(b1, i1, b2, i2, i) && i < |i1|
    requires Wrote(b1, i1[i], b2, i2[i], off, src) && i2[i].size == i1[i].size
    requires off <= i1[i].size < off + |src| <= MAXBYTES
    ensures
      var i3 := i2[i := i2[i].(size := off + |src|)];
      && Image(sb, b2, i3, owner) && OtherFiles(b1, i1, b2, i3, i)
      && Content(b2, i3[i]) == Overlaid(Content(b1, i1[i]), off, src)
      && Touched(sb, b2, i3[i], off, |src|) == Touched(sb, b2, i2[i], off, |src|)
  {
    var i3 := i2[i := i2[i].(size := off + |src|)];
    ResizeKeeps(sb, b2, i2, owner, i, off + |src|);
    WroteSame(b2, i2[i], b2, i3[i]);
    WroteMore(b1, i1[i], b2, i2[i], b2, i3[i], off, src, []);
    assert src + [] == src;
    WroteContent(b1, i1[i], b2, i3[i], off, src);
    SizelessBlocks(b2, i2[i], i3[i], off / BSIZE, EndBlock(off, |src|));
  }

  lemma {:induction false} SizelessBlocks(blocks: seq<Block>, ino: Inode, ino': Inode, lo: nat, hi: nat)
    requires Shaped(ino) && Shaped(ino') && ino.addrs == ino'.addrs && hi <= MAXFILE
    ensures DataBlocks(blocks, ino, lo, hi) == DataBlocks(blocks, ino', lo, hi)
    decreases hi
  {
    if lo < hi { SizelessBlocks(blocks, ino, ino', lo, hi - 1); }
  }

  ghost predicate IsSlice(dst: seq<Byte>, c: seq<Byte>, off: nat) {
    off + |dst| <= |c| && dst == c[off..off + |dst|]
  }

  lemma SliceNone(c: seq<Byte>, off: nat)
    requires off <= |c|
    ensures IsSlice([], c, off)
  {
  }

  lemma SliceMore(dst: seq<Byte>, c: seq<Byte>, off: nat, more: seq<Byte>)
    requires IsSlice(dst, c, off) && off + |dst| + |more| <= |c| && more == c[off + |dst|..off + |dst| + |more|]
    ensures IsSlice(dst + more, c, off)
  {
  }

  lemma SliceAll(dst: seq<Byte>, c: seq<Byte>, off: nat)
    requires IsSlice(dst, c, off)
    ensures off + |dst| <= |c| && dst == c[off..off + |dst|]
  {
  }

  lemma BlockSlice(blocks: seq<Block>, ino: Inode, off: nat, m: nat)
    requires Shaped(ino) && off + m <= ino.size && 0 < m && off % BSIZE + m <= BSIZE
    ensures FileBlock(blocks, ino, off / BSIZE)[off % BSIZE..off % BSIZE + m] == Content(blocks, ino)[off..off + m]
  {
  }

  /** The byte array r is c with the first done bytes of src written at off. */
  ghost predicate LaidOver(c: seq<Byte>, off: nat, src: seq<Byte>, done: nat, r: seq<Byte>)
    requires done <= |src|
  {
    if done == 0 then r == c else off <= |c| && r == Overlaid(c, off, src[..done])
  }

  /** The length of filewrite's next chunk after done bytes. */
  function Chunk(src: seq<Byte>, done: nat): nat
    requires done <= |src|
  {
    if |src| - done > MAXCHUNK then MAXCHUNK else |src| - done
  }

  /** The chunk after done bytes hit the quota: it is laid over the file, which does not grow for it. */
  ghost predicate CutShort(c: seq<Byte>, off: nat, src: seq<Byte>, done: nat, r: seq<Byte>)
    requires done <= |src|
  {
    && off <= |c|
    && r == Overlaid(c, off, src[..done + Chunk(src, done)])[..if done > 0 && off + done > |c| then off + done else |c|]
  }

  lemma CutMore(c: seq<Byte>, off: nat, src: seq<Byte>, done: nat, r1: seq<Byte>, r2: seq<Byte>)
    requires done < |src| && LaidOver(c, off, src, done, r1) && off + done <= |r1|
    requires r2 == Overlaid(r1, off + done, src[done..done + Chunk(src, done)])[..|r1|]
    ensures CutShort(c, off, src, done, r2)
  {
    var n1 := Chunk(src, done);
    LaidOverMore(c, off, src, done, n1, r1, Overlaid(r1, off + done, src[done..done + n1]));
  }

  /** filewrite after done bytes. */
  ghost predicate PartWritten(sb: Super, b0: seq<Block>, i0: seq<Inode>, blocks: seq<Block>, inodes: seq<Inode>, owner: Owner,
                              i: nat, c: seq<Byte>, off: nat, src: seq<Byte>, done: nat)
    requires done <= |src|
  {
    && Image(sb, blocks, inodes, owner) && OtherFiles(b0, i0, blocks, inodes, i)
    && i < |inodes| && Shaped(inodes[i]) && LaidOver(c, off, src, done, Content(blocks, inodes[i]))
  }

  lemma PartNone(sb: Super, blocks: seq<Block>, inodes: seq<Inode>, owner: Owner, i: nat, off: nat, src: seq<Byte>)
    requires Image(sb, blocks, inodes, owner) && i < |inodes|
    ensures Shaped(inodes[i])
    ensures PartWritten(sb, blocks, inodes, blocks, inodes, owner, i, Content(blocks, inodes[i]), off, src, 0)
  {
  }

  lemma PartMeans(sb: Super, b0: seq<Block>, i0: seq<Inode>, blocks: seq<Block>, inodes: seq<Inode>, owner: Owner,
                  i: nat, c: seq<Byte>, off: nat, src: seq<Byte>, done: nat, intact: bool)
    requires done <= |src| && (intact ==> PartWritten(sb, b0, i0, blocks, inodes, owner, i, c, off, src, done))
    ensures intact ==> Image(sb, blocks, inodes, owner) && OtherFiles(b0, i0, blocks, inodes, i)
    ensures intact ==> i < |inodes| && Shaped(inodes[i]) && LaidOver(c, off, src, done, Content(blocks, inodes[i]))
  {
  }

  lemma LaidOverMore(c: seq<Byte>, off: nat, src: seq<Byte>, done: nat, n1: nat, r1: seq<Byte>, r2: seq<Byte>)
    requires done + n1 <= |src| && 0 < n1 && LaidOver(c, off, src, done, r1)
    requires off + done <= |r1| && r2 == Overlaid(r1, off + done, src[done..done + n1])
    ensures LaidOver(c, off, src, done + n1, r2)
  {
  }

  const FSSIZE: nat := 20000

  /** A chunk touches at most 14 data blocks, the indirect block, the inode and the free map. */
  lemma ChunkTouches(sb: Super, blocks: seq<Block>, ino: Inode, i: nat, off: nat, n: nat)
    requires Shaped(ino) && off + n <= MAXBYTES && n <= MAXCHUNK
    ensures |Touched(sb, blocks, ino, off, n) + {InodeBlock(sb, i)}| <= 17 + sb.size / BPB
    ensures sb.size == FSSIZE ==> |Touched(sb, blocks, ino, off, n) + {InodeBlock(sb, i)}| <= CHUNKBLOCKS
    ensures MAXCHUNK == (LOGSIZE - 1 - 1 - 2) / 2 * 512
  {
    var lo, hi := off / BSIZE, EndBlock(off, n);
    assert lo <= hi <= lo + 14;
    DataBlocksCount(blocks, ino, lo, hi);
    IntervalCount(sb.bmapstart, sb.bmapstart + sb.size / BPB + 1);
    UnionCount(BitmapBlocks(sb), IndirectBlock(ino));
    UnionCount(BitmapBlocks(sb) + IndirectBlock(ino), DataBlocks(blocks, ino, lo, hi));
    UnionCount(Touched(sb, blocks, ino, off, n), {InodeBlock(sb, i)});
  }

  lemma UnionCount(s: set<nat>, t: set<nat>)
    ensures |s + t| <= |s| + |t|
  {
  }

  lemma SameFilesOthers(b0: seq<Block>, i0: seq<Inode>, b1: seq<Block>, i1: seq<Inode>, i: nat)
    requires SameFiles(b0, i0, b1, i1)
    ensures OtherFiles(b0, i0, b1, i1, i)
  {
  }

  /** What a memmove into the block that bmap found does to the files. */
  lemma StoreEffect(sb: Super, b0: seq<Block>, i0: seq<Inode>, b1: seq<Block>, i1: seq<Inode>, owner: Owner,
                    i: nat, off: nat, src: seq<Byte>)
    requires Image(sb, b1, i1, owner) && i < |i1| && off / BSIZE < MAXFILE && off % BSIZE + |src| <= BSIZE
    requires SameFiles(b0, i0, b1, i1) && RefsKept(b0, i0, b1, i1)
    requires Ref(b1, i1[i], Slot(off / BSIZE)) != 0
    ensures
      var r := Ref(b1, i1[i], Slot(off / BSIZE));
      && r < |b1|
      && var b2 := b1[r := Splice(b1[r], off % BSIZE, src)];
         && Image(sb, b2, i1, owner) && RefsKept(b0, i0, b2, i1) && OtherFiles(b0, i0, b2, i1, i)
         && Wrote(b0, i0[i], b2, i1[i], off, src)
         && (forall j, l :: 0 <= j < |i1| && 0 <= l < SLOTS ==> Ref(b2, i1[j], l) == Ref(b1, i1[j], l))
  {
    var n := off / BSIZE;
    var r := Ref(b1, i1[i], Slot(n));
    RefBound(sb, b1, i1, owner, i, Slot(n));
    var data := Splice(b1[r], off % BSIZE, src);
    StoreData(sb, b1, i1, owner, i, n, data);
    var b2 := b1[r := data];
    WroteBlock(b0, i0[i], b2, i1[i], off, src);
    forall j, l | 0 <= j < |i0| && 0 <= l < SLOTS && Ref(b0, i0[j], l) != 0
      ensures Ref(b2, i1[j], l) == Ref(b0, i0[j], l)
    {
      assert Ref(b2, i1[j], l) == Ref(b1, i1[j], l);
    }
  }

  lemma OtherFilesRefl(blocks: seq<Block>, inodes: seq<Inode>, i: nat)
    requires forall j :: 0 <= j < |inodes| ==> Shaped(inodes[j])
    ensures OtherFiles(blocks, inodes, blocks, inodes, i)
  {
  }

  lemma SameFilesRefl(blocks: seq<Block>, inodes: seq<Inode>)
    requires forall j :: 0 <= j < |inodes| ==> Shaped(inodes[j])
    ensures SameFiles(blocks, inodes, blocks, inodes)
  {
  }

  lemma SameFilesMeans(blocks: seq<Block>, inodes: seq<Inode>, blocks': seq<Block>, inodes': seq<Inode>, j: nat)
    requires SameFiles(blocks, inodes, blocks', inodes') && j < |inodes|
    ensures |inodes'| == |inodes| && Shaped(inodes[j]) && Shaped(inodes'[j]) && inodes'[j].size == inodes[j].size
    ensures Content(blocks', inodes'[j]) == Content(blocks, inodes[j])
  {
  }

  lemma OwnerOf(sb: Super, blocks: seq<Block>, inodes: seq<Inode>, owner: Owner, i: nat, k: nat)
    requires Image(sb, blocks, inodes, owner) && i < |inodes| && k <= NDIRECT
    ensures Layout(sb) && |blocks| == sb.size && Shaped(inodes[i])
    ensures forall b :: b in owner && owner[b] == (i, k) ==> b == inodes[i].addrs[k] != 0
  {
  }

  lemma SameOthersRefl(sb: Super, blocks: seq<Block>, inodes: seq<Inode>, owner: Owner, i: nat)
    requires Image(sb, blocks, inodes, owner)
    ensures SameOthers(blocks, inodes, blocks, inodes, i)
  {
  }

  lemma RefsKeptRefl(blocks: seq<Block>, inodes: seq<Inode>)
    requires forall j :: 0 <= j < |inodes| ==> Shaped(inodes[j])
    ensures RefsKept(blocks, inodes, blocks, inodes)
  {
  }

  lemma RefsKeptTrans(b1: seq<Block>, i1: seq<Inode>, b2: seq<Block>, i2: seq<Inode>, b3: seq<Block>, i3: seq<Inode>)
    requires RefsKept(b1, i1, b2, i2) && RefsKept(b2, i2, b3, i3)
    ensures RefsKept(b1, i1, b3, i3)
  {
  }

  lemma OnlyIndirect(sb: Super, blocks: seq<Block>, inodes: seq<Inode>, owner: Owner, i: nat)
    requires Image(sb, blocks, inodes, owner) && i < |inodes|
    ensures Shaped(inodes[i]) && forall b :: b in owner && owner[b] == (i, NDIRECT) ==> b == inodes[i].addrs[NDIRECT]
  {
  }

  lemma ImageShaped(sb: Super, blocks: seq<Block>, inodes: seq<Inode>, owner: Owner)
    requires Image(sb, blocks, inodes, owner)
    ensures forall j :: 0 <= j < |inodes| ==> Shaped(inodes[j])
  {
  }

  lemma RefBound(sb: Super, blocks: seq<Block>, inodes: seq<Inode>, owner: Owner, i: nat, k: nat)
    requires Image(sb, blocks, inodes, owner) && i < |inodes| && k < SLOTS
    ensures Ref(blocks, inodes[i], k) < |blocks|
  {
  }

  /** A size is not part of ownership. */
  lemma ResizeKeeps(sb: Super, blocks: seq<Block>, inodes: seq<Inode>, owner: Owner, i: nat, size: nat)
    requires Image(sb, blocks, inodes, owner) && i < |inodes| && size <= MAXBYTES
    ensures
      var inodes' := inodes[i := inodes[i].(size := size)];
      && Image(sb, blocks, inodes', owner)
      && SameOthers(blocks, inodes, blocks, inodes', i)
      && (forall n :: 0 <= n < MAXFILE ==> FileBlock(blocks, inodes'[i], n) == FileBlock(blocks, inodes[i], n))
      && RefsKept(blocks, inodes, blocks, inodes')
  {
    hide Ref, Used, Live;
    var inodes' := inodes[i := inodes[i].(size := size)];
    forall j, k | 0 <= j < |inodes| && 0 <= k < SLOTS ensures Ref(blocks, inodes'[j], k) == Ref(blocks, inodes[j], k) {
      if j == i { ResizeRef(blocks, inodes[i], size, k); }
    }
  }

  lemma ResizeRef(blocks: seq<Block>, ino: Inode, size: nat, k: nat)
    requires Shaped(ino) && size <= MAXBYTES && k < SLOTS
    ensures Ref(blocks, ino.(size := size), k) == Ref(blocks, ino, k)
  {
  }
}
