/**
  Directories as bytes of a file (dirlookup and dirlink in fs.c, the end of sys_unlink): 16 bytes to a
  slot, read with readi and written with writei.  What the bytes say is the map of module Directory.
 */
module DirBytes {
  import opened FsFormat
  import opened FsImage
  import opened FsSpace
  import opened FileSystem
  import opened Path
  import D = Directory

  const DE := D.DIRENT

  /** A C string of bytes. */
  predicate Bytes(name: string) {
    forall j :: 0 <= j < |name| ==> '\0' < name[j] < '\U{100}'
  }

  /** Byte j of a name that is padded with zeroes. */
  function NameByte(name: string, j: nat): int {
    if j < |name| then name[j] as int else 0
  }

  function Inum(b: seq<Byte>): nat
    requires |b| == DE
  {
    b[0] % 256 + 256 * (b[1] % 256)
  }

  /** The 16 bytes b stand for e; the name of an empty slot does not matter. */
  ghost predicate Holds(b: seq<Byte>, e: D.Dirent) {
    && |b| == 16 && e.inum == b[0] % 256 + 256 * (b[1] % 256)
    && (e.inum != 0 ==>
         && Bytes(e.name) && |e.name| <= DIRSIZ
         && forall j :: 0 <= j < DIRSIZ ==> b[2 + j] % 256 == NameByte(e.name, j))
  }

  function Entry(c: seq<Byte>, k: nat): seq<Byte>
    requires DE * k + DE <= |c|
  {
    c[DE * k..DE * k + DE]
  }

  ghost predicate IsDirectory(c: seq<Byte>, slots: seq<D.Dirent>) {
    |c| == DE * |slots| && forall k :: 0 <= k < |slots| ==> Holds(Entry(c, k), slots[k])
  }

  /** What dirlink writes. */
  function Encode(inum: nat, name: string): (b: seq<Byte>)
    ensures |b| == DE
  {
    [inum % 256, inum / 256] + seq(DIRSIZ, j requires 0 <= j => NameByte(name, j))
  }

  lemma EncodeHolds(inum: nat, name: string)
    requires inum < 65536 && Bytes(name)
    ensures Holds(Encode(inum, name), D.Dirent(inum, Cut(name)))
  {
    var b := Encode(inum, name);
    forall j | 0 <= j < DIRSIZ ensures b[2 + j] % 256 == NameByte(Cut(name), j) {
      assert b[2 + j] == NameByte(name, j) == NameByte(Cut(name), j);
    }
  }

  function Put(slots: seq<D.Dirent>, k: nat, e: D.Dirent): seq<D.Dirent>
    requires k <= |slots|
  {
    if k < |slots| then slots[k := e] else slots + [e]
  }

  /** Laying an entry over the bytes sets one slot, or adds one at the end. */
  lemma PutEntry(c: seq<Byte>, slots: seq<D.Dirent>, k: nat, b: seq<Byte>, e: D.Dirent)
    requires IsDirectory(c, slots) && k <= |slots| && Holds(b, e)
    ensures DE * k <= |c| && IsDirectory(Overlaid(c, DE * k, b), Put(slots, k, e))
  {
    hide Holds;
    assert |b| == DE by { HoldsLength(b, e); }
    var c', slots' := Overlaid(c, DE * k, b), Put(slots, k, e);
    forall m | 0 <= m < |slots'| ensures Holds(Entry(c', m), slots'[m]) {
      if m == k {
        assert Entry(c', m) == b;
      } else {
        assert Entry(c', m) == Entry(c, m);
      }
    }
  }

  lemma HoldsLength(b: seq<Byte>, e: D.Dirent)
    requires Holds(b, e)
    ensures |b| == DE
  {
  }

  /** namecmp: the names agree up to DIRSIZ characters. */
  method Namecmp(name: string, b: seq<Byte>, ghost e: D.Dirent) returns (same: bool)
    requires Bytes(name) && Holds(b, e) && e.inum != 0
    ensures same <==> Cut(name) == e.name
  {
    var j := 0;
    while j < DIRSIZ && j < |name| && name[j] as int == b[2 + j] % 256
      invariant 0 <= j <= DIRSIZ && j <= |name|
      invariant forall m :: 0 <= m < j ==> name[m] as int == b[2 + m] % 256
    {
      j := j + 1;
    }
    NamesAgree(name, b, e, j);
    same := j == DIRSIZ || NameByte(name, j) == b[2 + j] % 256;
  }

  lemma NamesAgree(name: string, b: seq<Byte>, e: D.Dirent, j: nat)
    requires Bytes(name) && Holds(b, e) && e.inum != 0 && j <= DIRSIZ && j <= |name|
    requires forall m :: 0 <= m < j ==> name[m] as int == b[2 + m] % 256
    requires j < DIRSIZ ==> j == |name| || name[j] as int != b[2 + j] % 256
    ensures j == DIRSIZ || NameByte(name, j) == b[2 + j] % 256 <==> Cut(name) == e.name
  {
    forall m | 0 <= m < j ensures m < |e.name| && name[m] == e.name[m] {
      assert name[m] as int > 0 && b[2 + m] % 256 == NameByte(e.name, m);
    }
    assert j <= |e.name| by {
      if j > 0 {
        var m := j - 1;
        assert name[m] as int > 0 && b[2 + m] % 256 == NameByte(e.name, m);
        assert m < |e.name|;
      }
    }
    assert name[..j] == e.name[..j];
    if j == DIRSIZ {
      assert Cut(name) == name[..j] && e.name[..j] == e.name;
    } else {
      assert b[2 + j] % 256 == NameByte(e.name, j);
      if j < |e.name| {
        assert e.name[j] as int > 0;
      } else {
        assert e.name == e.name[..j];
        if j == |name| { assert Cut(name) == name; } else { assert |Cut(name)| > j; }
      }
    }
  }

  // ---------------------------------------------------------------- over the file system

  /** Inode i is a directory with these slots. */
  ghost predicate DirAt(fs: Fs, i: nat, slots: seq<D.Dirent>)
    reads fs
  {
    && fs.Valid() && i < |fs.inodes| && Shaped(fs.inodes[i]) && fs.inodes[i].size <= MAXBYTES
    && IsDirectory(Content(fs.blocks, fs.inodes[i]), slots)
  }

  ghost predicate DiskFull(fs: Fs)
    reads fs
    requires fs.Valid()
  {
    forall c :: 0 <= c < fs.sb.size ==> Used(fs.sb, fs.blocks, c)
  }

  // ---------------------------------------------------------------- the blocks of a directory

  /** One past the last file block of the first k slots. */
  function End(k: nat): nat { EndBlock(0, DE * k) }

  /** The file block of slot k. */
  function BlockOf(k: nat): nat { DE * k / BSIZE }

  lemma EndIs(k: nat)
    ensures End(k) == (k + 31) / 32 && BlockOf(k) == k / 32 && EndBlock(DE * k, DE) == BlockOf(k) + 1
  {
  }

  lemma EndMore(k: nat, l: nat)
    requires k <= l
    ensures BlockOf(l) <= End(l) <= End(l + 1) == Max(End(l), BlockOf(l) + 1) && End(k) <= End(l)
    ensures l < D.MAXSLOTS ==> End(l + 1) <= MAXFILE
    ensures End(D.MAXSLOTS + 1) > MAXFILE && EndBlock(DE * l, DE) == BlockOf(l) + 1
  {
    hide End, BlockOf, EndBlock;
    EndIs(k);
    EndIs(l);
    EndIs(l + 1);
    EndIs(D.MAXSLOTS + 1);
  }

  /** Fewer blocks are free than the first k slots lack. */
  ghost predicate Short(sb: Super, blocks: seq<Block>, inodes: seq<Inode>, owner: Owner, i: nat, k: nat) {
    && i < |inodes| && Shaped(inodes[i]) && End(k) <= MAXFILE
    && Spare(sb, owner) < Lack(blocks, inodes[i], 0, End(k))
  }

  lemma ShortMore(sb: Super, blocks: seq<Block>, inodes: seq<Inode>, owner: Owner, i: nat, k: nat, l: nat)
    requires Short(sb, blocks, inodes, owner, i, k) && k <= l && End(l) <= MAXFILE
    ensures Short(sb, blocks, inodes, owner, i, l)
  {
    hide Ref, EndBlock;
    EndMore(k, l);
    HolesMore(blocks, inodes[i], 0, End(k), End(l));
  }

  /** The directory is as it was, and the blocks of its first k slots are there. */
  ghost predicate Since(fs: Fs, b0: seq<Block>, i0: seq<Inode>, o0: Owner, i: nat, slots: seq<D.Dirent>, k: nat)
    reads fs
  {
    && DirAt(fs, i, slots) && k <= |slots| && SameFiles(b0, i0, fs.blocks, fs.inodes) && RefsKept(b0, i0, fs.blocks, fs.inodes)
    && Fetched(b0, i0, o0, fs.blocks, fs.inodes, fs.owner, i, 0, End(k))
  }

  lemma SinceNone(fs: Fs, i: nat, slots: seq<D.Dirent>)
    requires DirAt(fs, i, slots)
    ensures Since(fs, fs.blocks, fs.inodes, fs.owner, i, slots, 0)
  {
    hide DirAt, SameFiles, RefsKept, Fetched, Image;
    DirMeans(fs, i, slots);
    SameFilesRefl(fs.blocks, fs.inodes);
    RefsKeptRefl(fs.blocks, fs.inodes);
    FetchedNone(fs.blocks, fs.inodes, fs.owner, i, 0);
  }

  lemma SinceEnough(fs: Fs, b0: seq<Block>, i0: seq<Inode>, o0: Owner, i: nat, slots: seq<D.Dirent>, k: nat)
    requires Since(fs, b0, i0, o0, i, slots, k)
    ensures !Short(fs.sb, b0, i0, o0, i, k)
  {
    hide Image, IsDirectory, SameFiles, RefsKept, Lack, EndBlock;
    SpareIs(fs.sb, fs.blocks, fs.inodes, fs.owner);
  }

  /** The blocks of the first k slots were there already. */
  lemma SinceAgain(fs: Fs, b0: seq<Block>, i0: seq<Inode>, o0: Owner, i: nat, slots: seq<D.Dirent>, k: nat, l: nat)
    requires Since(fs, b0, i0, o0, i, slots, k) && l <= k
    ensures !Short(fs.sb, fs.blocks, fs.inodes, fs.owner, i, l)
  {
    hide Image, IsDirectory, SameFiles, RefsKept, Lack, EndBlock;
    EndMore(l, k);
    SpareIs(fs.sb, fs.blocks, fs.inodes, fs.owner);
    LackThen(b0, i0, o0, fs.blocks, fs.inodes, fs.owner, i, 0, End(k), 0, End(l));
  }

  lemma SinceTrans(fs: Fs, b0: seq<Block>, i0: seq<Inode>, o0: Owner, b1: seq<Block>, i1: seq<Inode>, o1: Owner,
                   i: nat, slots: seq<D.Dirent>, k: nat, l: nat)
    requires SameFiles(b0, i0, b1, i1) && RefsKept(b0, i0, b1, i1) && Fetched(b0, i0, o0, b1, i1, o1, i, 0, End(k))
    requires Since(fs, b1, i1, o1, i, slots, l) && l <= k <= |slots|
    ensures Since(fs, b0, i0, o0, i, slots, k)
  {
    hide DirAt, SameFiles, RefsKept, Fetched, EndBlock;
    EndMore(l, k);
    SameFilesTrans(b0, i0, b1, i1, fs.blocks, fs.inodes);
    RefsKeptTrans(b0, i0, b1, i1, fs.blocks, fs.inodes);
    FetchedThen(b0, i0, o0, b1, i1, o1, fs.blocks, fs.inodes, fs.owner, i, 0, End(k), 0, End(l));
  }

  /** Reads slot k after the slots below it. */
  method ReadEntry(fs: Fs, i: nat, k: nat, ghost slots: seq<D.Dirent>, ghost b0: seq<Block>, ghost i0: seq<Inode>,
                   ghost o0: Owner)
    returns (r: Read)
    requires Since(fs, b0, i0, o0, i, slots, k) && k < |slots|
    modifies fs`blocks, fs`inodes, fs`owner, fs`logged
    ensures DirAt(fs, i, slots) && SameFiles(b0, i0, fs.blocks, fs.inodes)
    ensures r.Data? ==> Holds(r.bytes, slots[k]) && Since(fs, b0, i0, o0, i, slots, k + 1)
    ensures !r.Data? ==> r.ReadPanicked? && DiskFull(fs) && Short(fs.sb, b0, i0, o0, i, k + 1)
  {
    hide Owned, Marked, SameFiles, RefsKept, Fetched, Holds, Used, Lack, EndBlock, Trace;
    ghost var c := Content(fs.blocks, fs.inodes[i]);
    ghost var b1, i1, o1 := fs.blocks, fs.inodes, fs.owner;
    DirMeans(fs, i, slots);
    r := fs.Readi(i, DE * k, DE);
    SameFilesMeans(b1, i1, fs.blocks, fs.inodes, i);
    SameFilesTrans(b0, i0, b1, i1, fs.blocks, fs.inodes);
    EndMore(k, k);
    FetchedMeans(b0, i0, o0, b1, i1, o1, i, End(k), BlockOf(k));
    if r.Data? {
      assert r.bytes == Entry(c, k);
      RefsKeptTrans(b0, i0, b1, i1, fs.blocks, fs.inodes);
      FetchedThen(b0, i0, o0, b1, i1, o1, fs.blocks, fs.inodes, fs.owner, i, 0, End(k), BlockOf(k), BlockOf(k) + 1);
    }
  }

  /** What the blocks up to mid and file block n lacked. */
  lemma FetchedMeans(b0: seq<Block>, i0: seq<Inode>, o0: Owner, b1: seq<Block>, i1: seq<Inode>, o1: Owner, i: nat,
                     mid: nat, n: nat)
    requires Fetched(b0, i0, o0, b1, i1, o1, i, 0, mid) && n <= mid && n < MAXFILE
    ensures i < |i0| == |i1| && Shaped(i0[i]) && Shaped(i1[i]) && mid <= MAXFILE
    ensures Lack(b0, i0[i], 0, Max(mid, n + 1)) == |o1| - |o0| + Lack(b1, i1[i], n, n + 1)
  {
    hide Lack;
    LackThen(b0, i0, o0, b1, i1, o1, i, 0, mid, n, n + 1);
  }

  // ---------------------------------------------------------------- dirlookup

  /** One past the last slot that dirlookup reads, if it gets to slot k. */
  function Looked(slots: seq<D.Dirent>, name: string, k: nat): nat
    decreases |slots| - k
  {
    if k >= |slots| then |slots|
    else if D.Live(slots, k) && slots[k].name == name then k + 1 else Looked(slots, name, k + 1)
  }

  lemma {:induction false} LookedBound(slots: seq<D.Dirent>, name: string, k: nat)
    requires k <= |slots|
    ensures k <= Looked(slots, name, k) <= |slots| && (k < |slots| ==> k < Looked(slots, name, k))
    ensures (forall m :: k <= m < |slots| && D.Live(slots, m) ==> slots[m].name != name) ==> Looked(slots, name, k) == |slots|
    decreases |slots| - k
  {
    if k < |slots| { LookedBound(slots, name, k + 1); }
  }

  datatype Found = Missing | At(k: nat, inum: nat) | Unread

  /** dirlookup: the entry of the name if and only if the directory has it.  It panics exactly when the slots up
      to that entry, or all of them, lack more blocks than are free. */
  method Dirlookup(fs: Fs, i: nat, name: string, ghost slots: seq<D.Dirent>) returns (r: Found)
    requires DirAt(fs, i, slots) && D.Unique(slots) && Bytes(name)
    modifies fs`blocks, fs`inodes, fs`owner, fs`logged
    ensures DirAt(fs, i, slots) && SameFiles(old(fs.blocks), old(fs.inodes), fs.blocks, fs.inodes)
    ensures r.Missing? ==> Cut(name) !in D.Names(slots)
    ensures r.At? ==>
      && D.Live(slots, r.k) && slots[r.k].name == Cut(name)
      && Cut(name) in D.Names(slots) && D.Names(slots)[Cut(name)] == r.inum
    ensures r.Unread? ==> DiskFull(fs)
    ensures r.Unread? <==> Short(fs.sb, old(fs.blocks), old(fs.inodes), old(fs.owner), i, Looked(slots, Cut(name), 0))
    ensures !r.Unread? ==>
      Since(fs, old(fs.blocks), old(fs.inodes), old(fs.owner), i, slots, Looked(slots, Cut(name), 0))
  {
    hide Owned, Marked, SameFiles, Holds, DirAt, DiskFull, D.Unique, Since, Short;
    DirMeans(fs, i, slots);
    var size := fs.inodes[i].size;
    ghost var b0, i0, o0 := fs.blocks, fs.inodes, fs.owner;
    SameFilesRefl(b0, i0);
    SinceNone(fs, i, slots);
    ghost var looked := Looked(slots, Cut(name), 0);
    LookedBound(slots, Cut(name), 0);
    EndMore(looked, |slots|);
    var k := 0;
    while DE * k < size
      invariant 0 <= k <= |slots| && size == DE * |slots|
      invariant DirAt(fs, i, slots) && SameFiles(b0, i0, fs.blocks, fs.inodes) && Since(fs, b0, i0, o0, i, slots, k)
      invariant looked == Looked(slots, Cut(name), k)
      invariant forall m :: 0 <= m < k && D.Live(slots, m) ==> slots[m].name != Cut(name)
    {
      LookedBound(slots, Cut(name), k);
      var de := ReadEntry(fs, i, k, slots, b0, i0, o0);
      if !de.Data? {
        LookedShort(fs.sb, b0, i0, o0, i, k + 1, looked, |slots|);
        return Unread;
      }
      HoldsInum(de.bytes, slots[k]);
      if Inum(de.bytes) != 0 {
        var same := Namecmp(name, de.bytes, slots[k]);
        if same {
          D.NamesAt(slots, k);
          SinceEnough(fs, b0, i0, o0, i, slots, looked);
          return At(k, Inum(de.bytes));
        }
      }
      k := k + 1;
    }
    SinceEnough(fs, b0, i0, o0, i, slots, looked);
    r := Missing;
  }

  lemma LookedShort(sb: Super, blocks: seq<Block>, inodes: seq<Inode>, owner: Owner, i: nat, k: nat, l: nat, n: nat)
    requires Short(sb, blocks, inodes, owner, i, k) && k <= l <= n <= D.MAXSLOTS
    ensures Short(sb, blocks, inodes, owner, i, l)
  {
    hide Short, EndBlock;
    if l > 0 { EndMore(l - 1, l - 1); } else { EndMore(0, 0); }
    ShortMore(sb, blocks, inodes, owner, i, k, l);
  }

  lemma HoldsInum(b: seq<Byte>, e: D.Dirent)
    requires Holds(b, e)
    ensures |b| == 16 && e.inum == b[0] % 256 + 256 * (b[1] % 256)
  {
  }

  lemma DirMeans(fs: Fs, i: nat, slots: seq<D.Dirent>)
    requires DirAt(fs, i, slots)
    ensures fs.Valid() && i < |fs.inodes| && fs.inodes[i].size == DE * |slots| && |slots| <= D.MAXSLOTS
    ensures forall j :: 0 <= j < |fs.inodes| ==> Shaped(fs.inodes[j])
  {
    ImageShaped(fs.sb, fs.blocks, fs.inodes, fs.owner);
  }

  // ---------------------------------------------------------------- dirlink

  datatype Added = Linked | Exists | Stopped

  /** The first empty slot from k on, or the end. */
  function Empty(slots: seq<D.Dirent>, k: nat): nat
    decreases |slots| - k
  {
    if k >= |slots| then |slots| else if !D.Live(slots, k) then k else Empty(slots, k + 1)
  }

  lemma {:induction false} EmptyBound(slots: seq<D.Dirent>, k: nat)
    requires k <= |slots|
    ensures k <= Empty(slots, k) <= |slots| && !D.Live(slots, Empty(slots, k))
    ensures forall m :: k <= m < Empty(slots, k) ==> D.Live(slots, m)
    decreases |slots| - k
  {
    if k < |slots| && D.Live(slots, k) { EmptyBound(slots, k + 1); }
  }

  /** dirlink's own loop, after dirlookup has read every slot. */
  method FindEmpty(fs: Fs, i: nat, ghost slots: seq<D.Dirent>, ghost b0: seq<Block>, ghost i0: seq<Inode>, ghost o0: Owner)
    returns (k: nat)
    requires Since(fs, b0, i0, o0, i, slots, |slots|)
    modifies fs`blocks, fs`inodes, fs`owner, fs`logged
    ensures Since(fs, b0, i0, o0, i, slots, |slots|) && k == Empty(slots, 0)
  {
    hide Owned, Marked, SameFiles, Holds, DirAt, DiskFull, Since, Short, Fetched, RefsKept;
    ghost var b1, i1, o1 := fs.blocks, fs.inodes, fs.owner;
    SinceMeans(fs, b0, i0, o0, i, slots, |slots|);
    DirMeans(fs, i, slots);
    var size := fs.inodes[i].size;
    SinceNone(fs, i, slots);
    SinceNotShort(fs, b0, i0, o0, i, slots);
    k := 0;
    while DE * k < size
      invariant 0 <= k <= |slots| && size == DE * |slots| && Empty(slots, 0) == Empty(slots, k)
      invariant Since(fs, b1, i1, o1, i, slots, k)
    {
      var de := ReadEntry(fs, i, k, slots, b1, i1, o1);
      HoldsInum(de.bytes, slots[k]);
      if Inum(de.bytes) == 0 {
        SinceTrans(fs, b0, i0, o0, b1, i1, o1, i, slots, |slots|, k + 1);
        return;
      }
      k := k + 1;
    }
    SinceTrans(fs, b0, i0, o0, b1, i1, o1, i, slots, |slots|, k);
  }

  lemma SinceMeans(fs: Fs, b0: seq<Block>, i0: seq<Inode>, o0: Owner, i: nat, slots: seq<D.Dirent>, k: nat)
    requires Since(fs, b0, i0, o0, i, slots, k)
    ensures DirAt(fs, i, slots) && SameFiles(b0, i0, fs.blocks, fs.inodes) && RefsKept(b0, i0, fs.blocks, fs.inodes)
    ensures Fetched(b0, i0, o0, fs.blocks, fs.inodes, fs.owner, i, 0, End(k))
  {
  }

  lemma SinceNotShort(fs: Fs, b0: seq<Block>, i0: seq<Inode>, o0: Owner, i: nat, slots: seq<D.Dirent>)
    requires Since(fs, b0, i0, o0, i, slots, |slots|)
    ensures forall l :: 0 <= l <= |slots| ==> !Short(fs.sb, fs.blocks, fs.inodes, fs.owner, i, l)
  {
    hide Since, Short;
    forall l | 0 <= l <= |slots| ensures !Short(fs.sb, fs.blocks, fs.inodes, fs.owner, i, l) {
      SinceAgain(fs, b0, i0, o0, i, slots, |slots|, l);
    }
  }

  /** The block of slot k is not there, nor are as many blocks free as it takes to get it. */
  ghost predicate Blockless(sb: Super, blocks: seq<Block>, inodes: seq<Inode>, owner: Owner, i: nat, k: nat) {
    && i < |inodes| && Shaped(inodes[i]) && k < D.MAXSLOTS
    && Spare(sb, owner) < Lack(blocks, inodes[i], BlockOf(k), BlockOf(k) + 1)
  }

  /** Writes 16 bytes over slot k or at the end; anything but success is a panic. */
  method WriteEntry(fs: Fs, i: nat, k: nat, b: seq<Byte>, full: bool, ghost slots: seq<D.Dirent>, ghost e: D.Dirent)
    returns (ok: bool)
    requires DirAt(fs, i, slots) && k <= |slots| && Holds(b, e)
    modifies fs`blocks, fs`inodes, fs`owner, fs`logged
    ensures fs.Valid() && OtherFiles(old(fs.blocks), old(fs.inodes), fs.blocks, fs.inodes, i)
    ensures RefsKept(old(fs.blocks), old(fs.inodes), fs.blocks, fs.inodes)
    ensures ok <==>
      !full && k < D.MAXSLOTS && !Blockless(fs.sb, old(fs.blocks), old(fs.inodes), old(fs.owner), i, k)
    ensures ok ==> DirAt(fs, i, Put(slots, k, e)) && Ref(fs.blocks, fs.inodes[i], Slot(BlockOf(k))) != 0
    ensures !ok ==> full || k == D.MAXSLOTS || DiskFull(fs)
  {
    hide Owned, Marked, OtherFiles, Holds, Used, Touched, HasSlots, Overlaid, IsDirectory, RefsKept, Lack, Logs, TableKept,
         EndBlock, Dinode, Noted, Ref;
    ghost var c := Content(fs.blocks, fs.inodes[i]);
    HoldsInum(b, e);
    PutEntry(c, slots, k, b, e);
    DirMeans(fs, i, slots);
    EndMore(k, k);
    var r := fs.Writei(i, b, DE * k, full);
    ok := r.Count?;
    if ok { ImageShaped(fs.sb, fs.blocks, fs.inodes, fs.owner); }
  }

  /** The slots whose blocks dirlink needs: those up to the name, or else all of them and the empty one. */
  ghost function Needs(slots: seq<D.Dirent>, name: string): nat {
    if name in D.Names(slots) then Looked(slots, name, 0) else Max(|slots|, Empty(slots, 0) + 1)
  }

  ghost predicate Crowded(slots: seq<D.Dirent>) {
    |slots| == D.MAXSLOTS && forall m :: 0 <= m < |slots| ==> D.Live(slots, m)
  }

  /** Every block of the directory is there. */
  ghost predicate Filled(fs: Fs, i: nat, slots: seq<D.Dirent>)
    reads fs
  {
    DirAt(fs, i, slots) && forall n :: 0 <= n < End(|slots|) && n < MAXFILE ==> Ref(fs.blocks, fs.inodes[i], Slot(n)) != 0
  }

  /** dirlink: the name is added to the map of the directory, unless it is there.  It panics exactly when the
      slots that it needs lack more blocks than are free or, for a name not there, the container is over its
      quota or the directory has the largest size and no empty slot.  Each name added leaves no hole. */
  method Dirlink(fs: Fs, i: nat, name: string, inum: nat, full: bool, ghost slots: seq<D.Dirent>)
    returns (r: Added, ghost slots': seq<D.Dirent>)
    requires DirAt(fs, i, slots) && D.Unique(slots) && Bytes(name) && 0 < inum < 65536
    modifies fs`blocks, fs`inodes, fs`owner, fs`logged
    ensures fs.Valid() && OtherFiles(old(fs.blocks), old(fs.inodes), fs.blocks, fs.inodes, i)
    ensures r.Exists? ==> Cut(name) in D.Names(slots) && DirAt(fs, i, slots)
    ensures r.Linked? ==>
      && Cut(name) !in D.Names(slots) && Filled(fs, i, slots') && D.Unique(slots')
      && D.Names(slots') == D.Names(slots)[Cut(name) := inum]
      && forall m :: D.Live(slots, m) ==> D.Live(slots', m) && slots'[m] == slots[m]
    ensures r.Stopped? ==> full || DiskFull(fs) || Crowded(slots)
    ensures r.Stopped? <==>
      || Short(fs.sb, old(fs.blocks), old(fs.inodes), old(fs.owner), i, Needs(slots, Cut(name)))
      || (Cut(name) !in D.Names(slots) && (full || Crowded(slots)))
  {
    hide Owned, Marked, SameFiles, OtherFiles, Holds, DirAt, DiskFull, D.Unique, D.Names, Since, Short, RefsKept, Fetched,
         Blockless;
    DirMeans(fs, i, slots);
    slots' := slots;
    ghost var b0, i0, o0 := fs.blocks, fs.inodes, fs.owner;
    var at := Dirlookup(fs, i, name, slots);
    DirMeans(fs, i, slots);
    SameFilesOthers(b0, i0, fs.blocks, fs.inodes, i);
    NeedsMore(fs.sb, b0, i0, o0, i, slots, Cut(name));
    if at.Unread? { return Stopped, slots; }
    if at.At? { return Exists, slots; }
    LookedAll(slots, Cut(name));
    var k := FindEmpty(fs, i, slots, b0, i0, o0);
    SinceMeans(fs, b0, i0, o0, i, slots, |slots|);
    SameFilesOthers(b0, i0, fs.blocks, fs.inodes, i);
    EmptyBound(slots, 0);
    ghost var e := D.Dirent(inum, Cut(name));
    EncodeHolds(inum, name);
    ghost var b2, i2, o2 := fs.blocks, fs.inodes, fs.owner;
    BlocklessIs(fs.sb, b0, i0, o0, b2, i2, o2, i, slots, k);
    var ok := WriteEntry(fs, i, k, Encode(inum, name), full, slots, e);
    OtherFilesTrans(b0, i0, b2, i2, fs.blocks, fs.inodes, i);
    if !ok { return Stopped, slots; }
    FilledMore(fs, b0, i0, o0, b2, i2, o2, i, slots, k, Put(slots, k, e));
    D.NamesAdd(slots, Put(slots, k, e), k, e);
    return Linked, Put(slots, k, e);
  }

  lemma LookedAll(slots: seq<D.Dirent>, name: string)
    requires name !in D.Names(slots)
    ensures Looked(slots, name, 0) == |slots|
  {
    forall m | 0 <= m < |slots| && D.Live(slots, m) ensures slots[m].name != name {
      assert slots[m].name in D.LiveNames(slots);
    }
    LookedBound(slots, name, 0);
  }

  lemma NeedsMore(sb: Super, blocks: seq<Block>, inodes: seq<Inode>, owner: Owner, i: nat, slots: seq<D.Dirent>, name: string)
    requires |slots| <= D.MAXSLOTS
    ensures Short(sb, blocks, inodes, owner, i, Looked(slots, name, 0)) ==>
      Short(sb, blocks, inodes, owner, i, Needs(slots, name)) || (name !in D.Names(slots) && Crowded(slots))
  {
    hide Short, D.Names, EndBlock;
    EmptyBound(slots, 0);
    if name !in D.Names(slots) && Short(sb, blocks, inodes, owner, i, Looked(slots, name, 0)) {
      LookedAll(slots, name);
      if Empty(slots, 0) < D.MAXSLOTS {
        LookedShort(sb, blocks, inodes, owner, i, |slots|, Needs(slots, name), D.MAXSLOTS);
      }
    }
  }

  /** After all slots were read, the block of slot k is out of reach exactly when it was at the start. */
  lemma BlocklessIs(sb: Super, b0: seq<Block>, i0: seq<Inode>, o0: Owner, b1: seq<Block>, i1: seq<Inode>, o1: Owner,
                    i: nat, slots: seq<D.Dirent>, k: nat)
    requires Fetched(b0, i0, o0, b1, i1, o1, i, 0, End(|slots|)) && k <= |slots| <= D.MAXSLOTS
    ensures k < D.MAXSLOTS ==> (Blockless(sb, b1, i1, o1, i, k) <==> Short(sb, b0, i0, o0, i, Max(|slots|, k + 1)))
    ensures k == D.MAXSLOTS ==> !Short(sb, b0, i0, o0, i, Max(|slots|, k + 1))
  {
    hide Lack, EndBlock, Fetched;
    EndMore(k, k);
    EndMore(k, |slots|);
    if k < D.MAXSLOTS {
      if k < |slots| { EndMore(k + 1, |slots|); }
      FetchedMeans(b0, i0, o0, b1, i1, o1, i, End(|slots|), BlockOf(k));
    }
  }

  lemma FilledMore(fs: Fs, b0: seq<Block>, i0: seq<Inode>, o0: Owner, b2: seq<Block>, i2: seq<Inode>, o2: Owner,
                   i: nat, slots: seq<D.Dirent>, k: nat, slots': seq<D.Dirent>)
    requires Fetched(b0, i0, o0, b2, i2, o2, i, 0, End(|slots|)) && RefsKept(b2, i2, fs.blocks, fs.inodes)
    requires k <= |slots| < D.MAXSLOTS || k < |slots| <= D.MAXSLOTS
    requires |slots'| == Max(|slots|, k + 1) && DirAt(fs, i, slots') && Ref(fs.blocks, fs.inodes[i], Slot(BlockOf(k))) != 0
    ensures Filled(fs, i, slots')
  {
    hide Lack, EndBlock, Image, IsDirectory, Ref;
    EndMore(k, |slots|);
    forall n | 0 <= n < End(|slots'|) && n < MAXFILE ensures Ref(fs.blocks, fs.inodes[i], Slot(n)) != 0 {
      if n < End(|slots|) { assert Ref(b2, i2[i], Slot(n)) != 0; }
    }
  }

  /** In a directory without holes dirlink finds a name that is there, and for any other it stops exactly when over
      the quota, without a slot, or when the block of the empty slot is not there and cannot be got: on a full disk,
      exactly when that block is not there. */
  lemma StopsFilled(fs: Fs, i: nat, slots: seq<D.Dirent>, name: string)
    requires Filled(fs, i, slots)
    ensures Short(fs.sb, fs.blocks, fs.inodes, fs.owner, i, Needs(slots, name)) <==>
      name !in D.Names(slots) && Blockless(fs.sb, fs.blocks, fs.inodes, fs.owner, i, Empty(slots, 0))
    ensures Spare(fs.sb, fs.owner) == 0 && Empty(slots, 0) < D.MAXSLOTS ==>
      (Blockless(fs.sb, fs.blocks, fs.inodes, fs.owner, i, Empty(slots, 0)) <==>
        Ref(fs.blocks, fs.inodes[i], Slot(BlockOf(Empty(slots, 0)))) == 0)
  {
    hide Image, IsDirectory, D.Names, EndBlock, Short, Lack, Ref;
    DirMeans(fs, i, slots);
    FilledSince(fs, i, slots);
    EmptyBound(slots, 0);
    LookedBound(slots, name, 0);
    BlocklessIs(fs.sb, fs.blocks, fs.inodes, fs.owner, fs.blocks, fs.inodes, fs.owner, i, slots, Empty(slots, 0));
    SinceAgain(fs, fs.blocks, fs.inodes, fs.owner, i, slots, |slots|, Looked(slots, name, 0));
    if Spare(fs.sb, fs.owner) == 0 && Empty(slots, 0) < D.MAXSLOTS { OnFullDisk(fs, i, Empty(slots, 0)); }
  }

  lemma OnFullDisk(fs: Fs, i: nat, k: nat)
    requires i < |fs.inodes| && Shaped(fs.inodes[i]) && Spare(fs.sb, fs.owner) == 0 && k < D.MAXSLOTS
    ensures Blockless(fs.sb, fs.blocks, fs.inodes, fs.owner, i, k) <==> Ref(fs.blocks, fs.inodes[i], Slot(BlockOf(k))) == 0
  {
    LackOne(fs.blocks, fs.inodes[i], BlockOf(k));
  }

  lemma FilledSince(fs: Fs, i: nat, slots: seq<D.Dirent>)
    requires Filled(fs, i, slots)
    ensures Since(fs, fs.blocks, fs.inodes, fs.owner, i, slots, |slots|)
  {
    hide Image, IsDirectory, SameFiles, RefsKept, EndBlock;
    DirMeans(fs, i, slots);
    SameFilesRefl(fs.blocks, fs.inodes);
    RefsKeptRefl(fs.blocks, fs.inodes);
    if |slots| > 0 { EndMore(|slots| - 1, |slots| - 1); } else { EndMore(0, 0); }
    NoHoles(fs.blocks, fs.inodes[i], 0, End(|slots|));
  }

  /** What sys_unlink does to the slot it looked up. */
  method Clear(fs: Fs, i: nat, k: nat, full: bool, ghost slots: seq<D.Dirent>) returns (ok: bool)
    requires DirAt(fs, i, slots) && D.Unique(slots) && D.Live(slots, k)
    modifies fs`blocks, fs`inodes, fs`owner, fs`logged
    ensures fs.Valid() && OtherFiles(old(fs.blocks), old(fs.inodes), fs.blocks, fs.inodes, i)
    ensures ok ==>
      var slots' := slots[k := D.Dirent(0, "")];
      DirAt(fs, i, slots') && D.Unique(slots') && D.Names(slots') == D.Names(slots) - {slots[k].name}
    ensures ok <==> !full && !Blockless(fs.sb, old(fs.blocks), old(fs.inodes), old(fs.owner), i, k)
    ensures !ok ==> full || DiskFull(fs)
  {
    hide Owned, Marked, OtherFiles, DirAt, DiskFull, D.Unique, D.Names, RefsKept, Blockless, Ref;
    ghost var e := D.Dirent(0, "");
    DirMeans(fs, i, slots);
    ok := WriteEntry(fs, i, k, seq(DE, _ => 0), full, slots, e);
    D.NamesDel(slots, k);
  }
}
