/**
  Who owns which block: the direct, indirect and indirect-entry block numbers of all inodes
  against the free map, and the file contents that they spell out (fs.c, fs.h).
 */
module FsImage {
  import opened Words
  import opened FsFormat

  /** The superblock; blocks below nmeta are boot, super, log, inode and free-map blocks. */
  datatype Super = Super(size: nat, inodestart: nat, bmapstart: nat, nmeta: nat)

  predicate Layout(sb: Super) {
    && 0 < sb.bmapstart && sb.bmapstart + sb.size / BPB < sb.nmeta <= sb.size < UINT
  }

  /** addrs[NDIRECT] is the indirect block. */
  datatype Inode = Inode(addrs: seq<nat>, size: nat)

  predicate Shaped(ino: Inode) {
    |ino.addrs| == NDIRECT + 1 && ino.size <= MAXFILE * BSIZE
  }

  /** The block numbers of an inode: 0..11 direct, 12 the indirect block, 13..140 its entries. */
  const SLOTS: nat := MAXFILE + 1

  function Ref(blocks: seq<Block>, ino: Inode, k: nat): nat
    requires Shaped(ino) && k < SLOTS
  {
    if k <= NDIRECT then ino.addrs[k]
    else
      var p := ino.addrs[NDIRECT];
      if p == 0 || p >= |blocks| then 0 else Word(blocks[p], k - NDIRECT - 1)
  }

  /** The slot of the n-th block of a file. */
  function Slot(n: nat): (k: nat)
    requires n < MAXFILE
    ensures k < SLOTS && k != NDIRECT
  {
    if n < NDIRECT then n else n + 1
  }

  /** The contents of the n-th block of a file; a block not yet allocated reads as zeroes. */
  function FileBlock(blocks: seq<Block>, ino: Inode, n: nat): Block
    requires Shaped(ino) && n < MAXFILE
  {
    var r := Ref(blocks, ino, Slot(n));
    if r == 0 || r >= |blocks| then ZeroBlock() else blocks[r]
  }

  /** A file as a flat byte array. */
  function Content(blocks: seq<Block>, ino: Inode): (c: seq<Byte>)
    requires Shaped(ino)
    ensures |c| == ino.size
  {
    seq(ino.size, p requires 0 <= p < ino.size => FileBlock(blocks, ino, p / BSIZE)[p % BSIZE])
  }

  // ---------------------------------------------------------------- inodes on the disk

  /** An inode takes 16 words: type and numbers, the link count, then the size and the addresses. */
  const SIZEWORD: nat := 2

  /** The s-th inode of an inode block. */
  function DinodeAt(b: Block, s: nat): Inode
    requires s < IPB
  {
    Inode(seq<nat>(NDIRECT + 1, k requires 0 <= k <= NDIRECT => Word(b, 16 * s + SIZEWORD + 1 + k)), Word(b, 16 * s + SIZEWORD))
  }

  /** What iupdate makes of an inode block. */
  function PutDinode(b: Block, s: nat, ino: Inode): Block
    requires s < IPB && Shaped(ino)
  {
    PutWords(b, 16 * s + SIZEWORD, [ino.size] + ino.addrs)
  }

  /** The block of inode i, and the inode as it is there. */
  function InodeBlock(sb: Super, i: nat): nat { sb.inodestart + i / IPB }

  function Dinode(sb: Super, blocks: seq<Block>, i: nat): Inode
    requires InodeBlock(sb, i) < |blocks|
  {
    DinodeAt(blocks[InodeBlock(sb, i)], i % IPB)
  }

  lemma PutDinodeAt(b: Block, s: nat, ino: Inode, t: nat)
    requires s < IPB && t < IPB && Shaped(ino) && forall k :: 0 <= k <= NDIRECT ==> ino.addrs[k] < UINT
    ensures DinodeAt(PutDinode(b, s, ino), t) == if t == s then ino else DinodeAt(b, t)
  {
    hide Word, PutWords;
    var ws, r := [ino.size] + ino.addrs, PutDinode(b, s, ino);
    PutWordsAt(b, 16 * s + SIZEWORD, ws, 16 * t + SIZEWORD);
    var d, e := DinodeAt(r, t), if t == s then ino else DinodeAt(b, t);
    forall k | 0 <= k <= NDIRECT ensures d.addrs[k] == e.addrs[k] {
      PutWordsAt(b, 16 * s + SIZEWORD, ws, 16 * t + SIZEWORD + 1 + k);
    }
    assert d.addrs == e.addrs;
  }

  // ---------------------------------------------------------------- the free map

  /** The bit of block b in the free map. */
  predicate Used(sb: Super, blocks: seq<Block>, b: nat)
    requires Layout(sb) && |blocks| == sb.size && b < sb.size
  {
    Bit(blocks[sb.bmapstart + b / BPB], b % BPB)
  }

  // ---------------------------------------------------------------- ownership

  /** Maps each owned block to the one slot that names it. */
  type Owner = map<nat, (nat, nat)>

  /** itrunc clears the bits of the entries 13.. of inode di before it drops the indirect block;
      the first dj of them no longer count. */
  predicate Live(i: nat, k: nat, di: nat, dj: nat) {
    !(i == di && NDIRECT < k <= NDIRECT + dj)
  }

  ghost predicate Owned(sb: Super, blocks: seq<Block>, inodes: seq<Inode>, owner: Owner, di: nat, dj: nat) {
    && Layout(sb) && |blocks| == sb.size && sb.inodestart + |inodes| / IPB < sb.bmapstart
    && (forall i :: 0 <= i < |inodes| ==> Shaped(inodes[i]))
    && (forall i, k :: 0 <= i < |inodes| && 0 <= k < SLOTS && Live(i, k, di, dj) ==>
         var r := Ref(blocks, inodes[i], k);
         r != 0 ==> r in owner && owner[r] == (i, k))
    && (forall b :: b in owner ==>
         && sb.nmeta <= b < sb.size
         && owner[b].0 < |inodes| && owner[b].1 < SLOTS && Live(owner[b].0, owner[b].1, di, dj)
         && Ref(blocks, inodes[owner[b].0], owner[b].1) == b)
  }

  /** The free map is exact: a bit is set for the metadata blocks and the owned ones, for no other. */
  ghost predicate Marked(sb: Super, blocks: seq<Block>, owner: Owner)
    requires Layout(sb) && |blocks| == sb.size
  {
    forall b :: 0 <= b < sb.size ==> (Used(sb, blocks, b) <==> b < sb.nmeta || b in owner)
  }

  ghost predicate Image(sb: Super, blocks: seq<Block>, inodes: seq<Inode>, owner: Owner) {
    Owned(sb, blocks, inodes, owner, 0, 0) && Marked(sb, blocks, owner)
  }

  /** What Image says in the source's terms: no block is named twice, none is metadata or beyond the
      disk, every named block is marked in use, and every marked block is named. */
  lemma ImageMeans(sb: Super, blocks: seq<Block>, inodes: seq<Inode>, owner: Owner)
    requires Image(sb, blocks, inodes, owner)
    ensures forall i, k, j, l | 0 <= i < |inodes| && 0 <= j < |inodes| && 0 <= k < SLOTS && 0 <= l < SLOTS ::
      Ref(blocks, inodes[i], k) != 0 && Ref(blocks, inodes[i], k) == Ref(blocks, inodes[j], l) ==> i == j && k == l
    ensures forall i, k :: 0 <= i < |inodes| && 0 <= k < SLOTS && Ref(blocks, inodes[i], k) != 0 ==>
      var r := Ref(blocks, inodes[i], k);
      sb.nmeta <= r < sb.size && Used(sb, blocks, r)
    ensures forall b :: sb.nmeta <= b < sb.size && Used(sb, blocks, b) ==>
      exists i, k :: 0 <= i < |inodes| && 0 <= k < SLOTS && Ref(blocks, inodes[i], k) == b
  {
  }

  /** Every inode of the second image spells out the same file blocks as in the first. */
  ghost predicate SameFiles(blocks: seq<Block>, inodes: seq<Inode>, blocks': seq<Block>, inodes': seq<Inode>) {
    && |inodes| == |inodes'|
    && (forall j :: 0 <= j < |inodes| ==>
         Shaped(inodes[j]) && Shaped(inodes'[j]) && inodes[j].size == inodes'[j].size)
    && (forall j, n :: 0 <= j < |inodes| && 0 <= n < MAXFILE ==>
         FileBlock(blocks, inodes[j], n) == FileBlock(blocks', inodes'[j], n))
  }

  lemma SameFilesTrans(b1: seq<Block>, i1: seq<Inode>, b2: seq<Block>, i2: seq<Inode>, b3: seq<Block>, i3: seq<Inode>)
    requires SameFiles(b1, i1, b2, i2) && SameFiles(b2, i2, b3, i3)
    ensures SameFiles(b1, i1, b3, i3)
  {
  }

  // ---------------------------------------------------------------- the free map

  /** Sets or clears the bit of block b. */
  function PutUsed(sb: Super, blocks: seq<Block>, b: nat, on: bool): (r: seq<Block>)
    requires Layout(sb) && |blocks| == sb.size && b < sb.size
    ensures |r| == |blocks|
    ensures forall c :: 0 <= c < sb.size ==> Used(sb, r, c) == if c == b then on else Used(sb, blocks, c)
    ensures forall c :: sb.nmeta <= c < sb.size ==> r[c] == blocks[c]
  {
    var at := sb.bmapstart + b / BPB;
    var r := blocks[at := PutBit(blocks[at], b % BPB, on)];
    assert forall c :: 0 <= c < sb.size ==> Used(sb, r, c) == if c == b then on else Used(sb, blocks, c) by {
      forall c | 0 <= c < sb.size ensures Used(sb, r, c) == if c == b then on else Used(sb, blocks, c) {
        if c / BPB == b / BPB && c != b { assert c % BPB != b % BPB; }
      }
    }
    r
  }

  /** What balloc does to the disk: mark the block and zero it. */
  function Allocate(sb: Super, blocks: seq<Block>, b: nat): (r: seq<Block>)
    requires Layout(sb) && |blocks| == sb.size && sb.nmeta <= b < sb.size
    ensures |r| == |blocks|
    ensures forall c :: 0 <= c < sb.size ==> Used(sb, r, c) == (c == b || Used(sb, blocks, c))
    ensures forall c :: sb.nmeta <= c < sb.size ==> r[c] == if c == b then ZeroBlock() else blocks[c]
  {
    var marked := PutUsed(sb, blocks, b, true);
    var r := marked[b := ZeroBlock()];
    assert forall c :: 0 <= c < sb.size ==> r[sb.bmapstart + c / BPB] == marked[sb.bmapstart + c / BPB];
    r
  }

  // ---------------------------------------------------------------- changing one block

  /** A block that no slot names may change without any file noticing. */
  lemma RefsElsewhere(sb: Super, blocks: seq<Block>, blocks': seq<Block>, inodes: seq<Inode>, owner: Owner, di: nat, dj: nat)
    requires Owned(sb, blocks, inodes, owner, di, dj)
    requires |blocks'| == |blocks|
    requires forall c :: c in owner ==> blocks'[c] == blocks[c]
    ensures Owned(sb, blocks', inodes, owner, di, dj)
    ensures forall i, k :: 0 <= i < |inodes| && 0 <= k < SLOTS ==> Ref(blocks', inodes[i], k) == Ref(blocks, inodes[i], k)
    ensures dj == 0 ==> SameFiles(blocks, inodes, blocks', inodes)
  {
    forall i, k | 0 <= i < |inodes| && 0 <= k < SLOTS
      ensures Ref(blocks', inodes[i], k) == Ref(blocks, inodes[i], k)
    {
      assert Ref(blocks, inodes[i], NDIRECT) == inodes[i].addrs[NDIRECT];
    }
  }

  /** Changing the data of block n of file i changes that file block and nothing else. */
  lemma StoreOwned(sb: Super, blocks: seq<Block>, inodes: seq<Inode>, owner: Owner, i: nat, n: nat, data: Block)
    requires Owned(sb, blocks, inodes, owner, 0, 0) && i < |inodes| && n < MAXFILE
    requires Ref(blocks, inodes[i], Slot(n)) != 0
    ensures
      var r := Ref(blocks, inodes[i], Slot(n));
      && sb.nmeta <= r < |blocks| && r in owner
      && var blocks' := blocks[r := data];
         && Owned(sb, blocks', inodes, owner, 0, 0)
         && (forall j, k :: 0 <= j < |inodes| && 0 <= k < SLOTS ==> Ref(blocks', inodes[j], k) == Ref(blocks, inodes[j], k))
         && (forall j, m :: 0 <= j < |inodes| && 0 <= m < MAXFILE ==>
              FileBlock(blocks', inodes[j], m) == if j == i && m == n then data else FileBlock(blocks, inodes[j], m))
  {
    var r := Ref(blocks, inodes[i], Slot(n));
    assert owner[r] == (i, Slot(n));
    var blocks' := blocks[r := data];
    forall j, k | 0 <= j < |inodes| && 0 <= k < SLOTS
      ensures Ref(blocks', inodes[j], k) == Ref(blocks, inodes[j], k)
    {
      assert Ref(blocks, inodes[j], NDIRECT) == inodes[j].addrs[NDIRECT] != r;
    }
    forall j, m | 0 <= j < |inodes| && 0 <= m < MAXFILE
      ensures FileBlock(blocks', inodes[j], m) == if j == i && m == n then data else FileBlock(blocks, inodes[j], m)
    {
      assert Ref(blocks, inodes[j], Slot(m)) == r ==> (j, Slot(m)) == (i, Slot(n));
    }
  }

  lemma StoreData(sb: Super, blocks: seq<Block>, inodes: seq<Inode>, owner: Owner, i: nat, n: nat, data: Block)
    requires Image(sb, blocks, inodes, owner) && i < |inodes| && n < MAXFILE
    requires Ref(blocks, inodes[i], Slot(n)) != 0
    ensures
      var r := Ref(blocks, inodes[i], Slot(n));
      && r < |blocks|
      && var blocks' := blocks[r := data];
         && Image(sb, blocks', inodes, owner)
         && (forall j, k :: 0 <= j < |inodes| && 0 <= k < SLOTS ==> Ref(blocks', inodes[j], k) == Ref(blocks, inodes[j], k))
         && (forall j, m :: 0 <= j < |inodes| && 0 <= m < MAXFILE ==>
              FileBlock(blocks', inodes[j], m) == if j == i && m == n then data else FileBlock(blocks, inodes[j], m))
  {
    hide Ref, FileBlock, Used;
    StoreOwned(sb, blocks, inodes, owner, i, n, data);
    UsedBelow(sb, blocks, blocks[Ref(blocks, inodes[i], Slot(n)) := data]);
  }

  /** Block numbers once stored stay. */
  ghost predicate RefsKept(blocks: seq<Block>, inodes: seq<Inode>, blocks': seq<Block>, inodes': seq<Inode>) {
    && |inodes| == |inodes'|
    && (forall j :: 0 <= j < |inodes| ==> Shaped(inodes[j]) && Shaped(inodes'[j]))
    && (forall j, l :: 0 <= j < |inodes| && 0 <= l < SLOTS && Ref(blocks, inodes[j], l) != 0 ==>
         Ref(blocks', inodes'[j], l) == Ref(blocks, inodes[j], l))
  }

  /** Slot k of inode i names r now; every other slot is as it was. */
  ghost predicate RefSet(blocks: seq<Block>, inodes: seq<Inode>, blocks': seq<Block>, inodes': seq<Inode>, i: nat, k: nat, r: nat) {
    && |inodes| == |inodes'|
    && (forall j :: 0 <= j < |inodes| ==> Shaped(inodes[j]) && Shaped(inodes'[j]))
    && (forall j, l :: 0 <= j < |inodes| && 0 <= l < SLOTS ==>
         Ref(blocks', inodes'[j], l) == if j == i && l == k then r else Ref(blocks, inodes[j], l))
  }

  // ---------------------------------------------------------------- naming a fresh block

  /** Stores block number r in slot k of inode i. */
  function BindBlocks(blocks: seq<Block>, ino: Inode, k: nat, r: nat): (b: seq<Block>)
    requires Shaped(ino) && k < SLOTS && r < UINT
    requires k > NDIRECT ==> 0 < ino.addrs[NDIRECT] < |blocks|
    ensures |b| == |blocks|
  {
    if k <= NDIRECT then blocks
    else
      var p := ino.addrs[NDIRECT];
      blocks[p := PutWord(blocks[p], k - NDIRECT - 1, r)]
  }

  function BindInode(ino: Inode, k: nat, r: nat): (d: Inode)
    requires Shaped(ino) && k < SLOTS
    ensures Shaped(d) && d.size == ino.size
  {
    if k <= NDIRECT then ino.(addrs := ino.addrs[k := r]) else ino
  }

  lemma BindRefs(sb: Super, blocks: seq<Block>, inodes: seq<Inode>, owner: Owner, i: nat, k: nat, r: nat)
    requires Owned(sb, blocks, inodes, owner, 0, 0) && i < |inodes| && k < SLOTS
    requires Ref(blocks, inodes[i], k) == 0 && (k > NDIRECT ==> inodes[i].addrs[NDIRECT] != 0)
    requires r !in owner && sb.nmeta <= r < sb.size && blocks[r] == ZeroBlock()
    ensures k > NDIRECT ==> 0 < inodes[i].addrs[NDIRECT] < |blocks|
    ensures
      var blocks' := BindBlocks(blocks, inodes[i], k, r);
      var inodes' := inodes[i := BindInode(inodes[i], k, r)];
      forall j, l :: 0 <= j < |inodes| && 0 <= l < SLOTS ==>
        Ref(blocks', inodes'[j], l) == if j == i && l == k then r else Ref(blocks, inodes[j], l)
  {
    if k > NDIRECT {
      assert Ref(blocks, inodes[i], NDIRECT) == inodes[i].addrs[NDIRECT];
    }
    var blocks' := BindBlocks(blocks, inodes[i], k, r);
    var inodes' := inodes[i := BindInode(inodes[i], k, r)];
    forall j, l | 0 <= j < |inodes| && 0 <= l < SLOTS
      ensures Ref(blocks', inodes'[j], l) == if j == i && l == k then r else Ref(blocks, inodes[j], l)
    {
      if l > NDIRECT {
        assert Ref(blocks, inodes[j], NDIRECT) == inodes[j].addrs[NDIRECT];
        ZeroWord(l - NDIRECT - 1);
      }
    }
  }

  lemma BindOwned(sb: Super, blocks: seq<Block>, inodes: seq<Inode>, owner: Owner, i: nat, k: nat, r: nat,
                  blocks': seq<Block>, inodes': seq<Inode>)
    requires Owned(sb, blocks, inodes, owner, 0, 0) && i < |inodes| && k < SLOTS
    requires Ref(blocks, inodes[i], k) == 0
    requires r !in owner && sb.nmeta <= r < sb.size
    requires |blocks'| == |blocks| && |inodes'| == |inodes| && forall j :: 0 <= j < |inodes| ==> Shaped(inodes'[j])
    requires forall j, l :: 0 <= j < |inodes| && 0 <= l < SLOTS ==>
      Ref(blocks', inodes'[j], l) == if j == i && l == k then r else Ref(blocks, inodes[j], l)
    ensures Owned(sb, blocks', inodes', owner[r := (i, k)], 0, 0)
    ensures RefsKept(blocks, inodes, blocks', inodes')
  {
  }

  /** A zeroed block reads like none, and only an indirect block was written. */
  lemma BindFiles(sb: Super, blocks: seq<Block>, inodes: seq<Inode>, owner: Owner, i: nat, k: nat, r: nat,
                  blocks': seq<Block>, inodes': seq<Inode>)
    requires Owned(sb, blocks, inodes, owner, 0, 0) && i < |inodes| && k < SLOTS
    requires Ref(blocks, inodes[i], k) == 0
    requires r !in owner && 0 < sb.nmeta <= r < sb.size && blocks[r] == ZeroBlock()
    requires |blocks'| == |blocks| && |inodes'| == |inodes|
    requires forall j :: 0 <= j < |inodes| ==> Shaped(inodes'[j]) && inodes'[j].size == inodes[j].size
    requires forall c :: 0 <= c < |blocks| && !(c in owner && owner[c].1 == NDIRECT) ==> blocks'[c] == blocks[c]
    requires forall j, l :: 0 <= j < |inodes| && 0 <= l < SLOTS ==>
      Ref(blocks', inodes'[j], l) == if j == i && l == k then r else Ref(blocks, inodes[j], l)
    ensures SameFiles(blocks, inodes, blocks', inodes')
  {
  }

  /** Naming a fresh zeroed block in an empty slot keeps ownership and every file. */
  lemma BindFresh(sb: Super, blocks: seq<Block>, inodes: seq<Inode>, owner: Owner, i: nat, k: nat, r: nat)
    requires Owned(sb, blocks, inodes, owner, 0, 0) && i < |inodes| && k < SLOTS
    requires Ref(blocks, inodes[i], k) == 0 && (k > NDIRECT ==> inodes[i].addrs[NDIRECT] != 0)
    requires r !in owner && sb.nmeta <= r < sb.size && blocks[r] == ZeroBlock()
    ensures k > NDIRECT ==> 0 < inodes[i].addrs[NDIRECT] < |blocks|
    ensures
      var blocks' := BindBlocks(blocks, inodes[i], k, r);
      var inodes' := inodes[i := BindInode(inodes[i], k, r)];
      && Owned(sb, blocks', inodes', owner[r := (i, k)], 0, 0)
      && Ref(blocks', inodes'[i], k) == r
      && SameFiles(blocks, inodes, blocks', inodes')
      && (forall c :: 0 <= c < sb.size && c !in owner ==> blocks'[c] == blocks[c])
      && RefsKept(blocks, inodes, blocks', inodes') && RefSet(blocks, inodes, blocks', inodes', i, k, r)
  {
    BindRefs(sb, blocks, inodes, owner, i, k, r);
    var blocks' := BindBlocks(blocks, inodes[i], k, r);
    var inodes' := inodes[i := BindInode(inodes[i], k, r)];
    if k > NDIRECT {
      assert Ref(blocks, inodes[i], NDIRECT) == inodes[i].addrs[NDIRECT];
    }
    BindOwned(sb, blocks, inodes, owner, i, k, r, blocks', inodes');
    BindFiles(sb, blocks, inodes, owner, i, k, r, blocks', inodes');
  }

  /** The free map does not depend on the blocks above the metadata. */
  lemma UsedBelow(sb: Super, blocks: seq<Block>, blocks': seq<Block>)
    requires Layout(sb) && |blocks| == sb.size == |blocks'|
    requires forall c :: 0 <= c < sb.nmeta ==> blocks'[c] == blocks[c]
    ensures forall b :: 0 <= b < sb.size ==> Used(sb, blocks', b) == Used(sb, blocks, b)
  {
  }

  /** A free block belongs to nobody, and marking and zeroing it disturbs nobody. */
  lemma AllocateFree(sb: Super, blocks: seq<Block>, inodes: seq<Inode>, owner: Owner, r: nat)
    requires Image(sb, blocks, inodes, owner) && r < sb.size && !Used(sb, blocks, r)
    ensures sb.nmeta <= r && r !in owner && Layout(sb) && |blocks| == sb.size && Marked(sb, blocks, owner)
    ensures forall c :: c in owner ==> sb.nmeta <= c
    ensures
      var marked := Allocate(sb, blocks, r);
      && Owned(sb, marked, inodes, owner, 0, 0)
      && SameFiles(blocks, inodes, marked, inodes)
      && (forall i, k :: 0 <= i < |inodes| && 0 <= k < SLOTS ==> Ref(marked, inodes[i], k) == Ref(blocks, inodes[i], k))
      && marked[r] == ZeroBlock()
  {
    RefsElsewhere(sb, blocks, Allocate(sb, blocks, r), inodes, owner, 0, 0);
  }

  lemma AllocateMarked(sb: Super, blocks: seq<Block>, owner: Owner, r: nat, slot: (nat, nat), blocks': seq<Block>)
    requires Layout(sb) && |blocks| == sb.size == |blocks'| && sb.nmeta <= r < sb.size && Marked(sb, blocks, owner)
    requires forall c :: 0 <= c < sb.nmeta ==> blocks'[c] == Allocate(sb, blocks, r)[c]
    ensures Marked(sb, blocks', owner[r := slot])
  {
    hide Allocate;
    UsedBelow(sb, Allocate(sb, blocks, r), blocks');
  }

  lemma RefsKeptFrom(b1: seq<Block>, i1: seq<Inode>, b2: seq<Block>, b3: seq<Block>, i3: seq<Inode>)
    requires RefsKept(b2, i1, b3, i3)
    requires forall i, k :: 0 <= i < |i1| && 0 <= k < SLOTS ==> Ref(b2, i1[i], k) == Ref(b1, i1[i], k)
    ensures RefsKept(b1, i1, b3, i3)
  {
  }

  /** balloc followed by storing the number: the step that bmap takes up to twice. */
  lemma AllocateFresh(sb: Super, blocks: seq<Block>, inodes: seq<Inode>, owner: Owner, i: nat, k: nat, r: nat)
    requires Image(sb, blocks, inodes, owner) && i < |inodes| && k < SLOTS
    requires Ref(blocks, inodes[i], k) == 0 && (k > NDIRECT ==> inodes[i].addrs[NDIRECT] != 0)
    requires r < sb.size && !Used(sb, blocks, r)
    ensures sb.nmeta <= r && r !in owner && (k > NDIRECT ==> 0 < inodes[i].addrs[NDIRECT] < |blocks|)
    ensures
      var blocks' := BindBlocks(Allocate(sb, blocks, r), inodes[i], k, r);
      var inodes' := inodes[i := BindInode(inodes[i], k, r)];
      && Image(sb, blocks', inodes', owner[r := (i, k)])
      && Ref(blocks', inodes'[i], k) == r
      && SameFiles(blocks, inodes, blocks', inodes')
      && RefsKept(blocks, inodes, blocks', inodes') && RefSet(blocks, inodes, blocks', inodes', i, k, r)
  {
    hide Allocate, FileBlock, BindInode, BindBlocks, Ref, Marked, Used, SameFiles, Owned, RefsKept, RefSet, Layout, Slot;
    AllocateFree(sb, blocks, inodes, owner, r);
    var marked := Allocate(sb, blocks, r);
    BindFresh(sb, marked, inodes, owner, i, k, r);
    var blocks' := BindBlocks(marked, inodes[i], k, r);
    AllocateMarked(sb, blocks, owner, r, (i, k), blocks');
    SameFilesTrans(blocks, inodes, marked, inodes, blocks', inodes[i := BindInode(inodes[i], k, r)]);
    RefsKeptFrom(blocks, inodes, marked, blocks', inodes[i := BindInode(inodes[i], k, r)]);
    RefSetFrom(blocks, inodes, marked, blocks', inodes[i := BindInode(inodes[i], k, r)], i, k, r);
  }

  lemma RefSetFrom(b1: seq<Block>, i1: seq<Inode>, b2: seq<Block>, b3: seq<Block>, i3: seq<Inode>, i: nat, k: nat, r: nat)
    requires RefSet(b2, i1, b3, i3, i, k, r)
    requires forall j, l :: 0 <= j < |i1| && 0 <= l < SLOTS ==> Ref(b2, i1[j], l) == Ref(b1, i1[j], l)
    ensures RefSet(b1, i1, b3, i3, i, k, r)
  {
  }

  // ---------------------------------------------------------------- giving blocks back

  /** Every file but di spells out the same blocks. */
  ghost predicate SameOthers(blocks: seq<Block>, inodes: seq<Inode>, blocks': seq<Block>, inodes': seq<Inode>, di: nat) {
    && |inodes| == |inodes'|
    && (forall j :: 0 <= j < |inodes| ==> Shaped(inodes[j]) && Shaped(inodes'[j]))
    && (forall j :: 0 <= j < |inodes| && j != di ==> inodes'[j] == inodes[j])
    && (forall j, n :: 0 <= j < |inodes| && j != di && 0 <= n < MAXFILE ==>
         FileBlock(blocks, inodes[j], n) == FileBlock(blocks', inodes'[j], n))
  }

  lemma SameOthersTrans(b1: seq<Block>, i1: seq<Inode>, b2: seq<Block>, i2: seq<Inode>,
                        b3: seq<Block>, i3: seq<Inode>, di: nat)
    requires SameOthers(b1, i1, b2, i2, di) && SameOthers(b2, i2, b3, i3, di)
    ensures SameOthers(b1, i1, b3, i3, di)
  {
  }

  lemma BitmapOnly(sb: Super, blocks: seq<Block>, blocks': seq<Block>, inodes: seq<Inode>, owner: Owner, di: nat, dj: nat)
    requires Owned(sb, blocks, inodes, owner, di, dj) && dj <= NINDIRECT
    requires |blocks'| == |blocks| && forall c :: sb.nmeta <= c < sb.size ==> blocks'[c] == blocks[c]
    ensures forall i, k :: 0 <= i < |inodes| && 0 <= k < SLOTS ==> Ref(blocks', inodes[i], k) == Ref(blocks, inodes[i], k)
    ensures SameOthers(blocks, inodes, blocks', inodes, di)
  {
    RefsElsewhere(sb, blocks, blocks', inodes, owner, di, dj);
    forall j, n | 0 <= j < |inodes| && j != di && 0 <= n < MAXFILE
      ensures FileBlock(blocks, inodes[j], n) == FileBlock(blocks', inodes[j], n)
    {
      var r := Ref(blocks, inodes[j], Slot(n));
      assert Live(j, Slot(n), di, dj);
      assert r != 0 ==> r in owner;
    }
  }

  lemma FreeMarked(sb: Super, blocks: seq<Block>, owner: Owner, r: nat)
    requires Layout(sb) && |blocks| == sb.size && Marked(sb, blocks, owner) && sb.nmeta <= r < sb.size && r in owner
    ensures Used(sb, blocks, r) && Marked(sb, PutUsed(sb, blocks, r, false), owner - {r})
  {
  }

  lemma NoneDead(sb: Super, blocks: seq<Block>, inodes: seq<Inode>, owner: Owner, di: nat, di': nat)
    requires Owned(sb, blocks, inodes, owner, di, 0)
    ensures Owned(sb, blocks, inodes, owner, di', 0)
  {
  }

  lemma OwnedShape(sb: Super, blocks: seq<Block>, inodes: seq<Inode>, owner: Owner, di: nat, dj: nat)
    requires Owned(sb, blocks, inodes, owner, di, dj)
    ensures Layout(sb) && |blocks| == sb.size
    ensures forall i :: 0 <= i < |inodes| ==> Shaped(inodes[i])
    ensures forall b :: b in owner ==> sb.nmeta <= b < sb.size
  {
  }

  lemma OwnedAt(sb: Super, blocks: seq<Block>, inodes: seq<Inode>, owner: Owner, di: nat, dj: nat, i: nat, k: nat)
    requires Owned(sb, blocks, inodes, owner, di, dj) && i < |inodes| && k < SLOTS && Live(i, k, di, dj)
    ensures Shaped(inodes[i])
    ensures Ref(blocks, inodes[i], k) != 0 ==>
              && Ref(blocks, inodes[i], k) in owner && owner[Ref(blocks, inodes[i], k)] == (i, k)
              && sb.nmeta <= Ref(blocks, inodes[i], k) < sb.size
  {
  }

  /** The inode loses slot k, or the indirect block with all its entries; its block is free. */
  lemma DropOwned(sb: Super, blocks: seq<Block>, inodes: seq<Inode>, blocks': seq<Block>, inodes': seq<Inode>,
                  owner: Owner, i: nat, k: nat, r: nat, dj: nat)
    requires Owned(sb, blocks, inodes, owner, i, dj) && i < |inodes| && k <= NDIRECT && r in owner && owner[r] == (i, k)
    requires |blocks'| == |blocks| && |inodes'| == |inodes| && forall j :: 0 <= j < |inodes| ==> Shaped(inodes'[j])
    requires if k == NDIRECT then dj == NINDIRECT else dj == 0
    requires forall j, l :: 0 <= j < |inodes| && 0 <= l < SLOTS ==>
               Ref(blocks', inodes'[j], l) == if j == i && (l == k || (k == NDIRECT && l > k)) then 0 else Ref(blocks, inodes[j], l)
    ensures Owned(sb, blocks', inodes', owner - {r}, 0, 0)
  {
  }

  /** The bits of the free map aside, the files other than i are untouched. */
  lemma OtherInodes(blocks: seq<Block>, inodes: seq<Inode>, blocks': seq<Block>, inodes': seq<Inode>, i: nat)
    requires SameOthers(blocks, inodes, blocks', inodes, i) && i < |inodes| && |inodes'| == |inodes|
    requires Shaped(inodes'[i]) && forall j :: 0 <= j < |inodes| && j != i ==> inodes'[j] == inodes[j]
    ensures SameOthers(blocks, inodes, blocks', inodes', i)
  {
  }

  /** A direct block that is allocated is freed and its slot cleared. */
  lemma FreeDirect(sb: Super, blocks: seq<Block>, inodes: seq<Inode>, owner: Owner, i: nat, k: nat)
    requires Image(sb, blocks, inodes, owner) && i < |inodes| && k < NDIRECT
    requires inodes[i].addrs[k] != 0
    ensures
      var r := inodes[i].addrs[k];
      && r < sb.size && Used(sb, blocks, r) && r in owner && owner[r] == (i, k)
      && var blocks' := PutUsed(sb, blocks, r, false);
         var inodes' := inodes[i := inodes[i].(addrs := inodes[i].addrs[k := 0])];
         && Image(sb, blocks', inodes', owner - {r})
         && SameOthers(blocks, inodes, blocks', inodes', i)
  {
    hide PutUsed, Marked, Owned, SameOthers;
    OwnedShape(sb, blocks, inodes, owner, 0, 0);
    OwnedAt(sb, blocks, inodes, owner, 0, 0, i, k);
    var r := inodes[i].addrs[k];
    var blocks' := PutUsed(sb, blocks, r, false);
    var inodes' := inodes[i := inodes[i].(addrs := inodes[i].addrs[k := 0])];
    FreeMarked(sb, blocks, owner, r);
    NoneDead(sb, blocks, inodes, owner, 0, i);
    BitmapOnly(sb, blocks, blocks', inodes, owner, i, 0);
    forall j, l | 0 <= j < |inodes| && 0 <= l < SLOTS
      ensures Ref(blocks', inodes'[j], l) == if j == i && l == k then 0 else Ref(blocks, inodes[j], l)
    {
      assert Ref(blocks', inodes[j], l) == Ref(blocks, inodes[j], l);
    }
    DropOwned(sb, blocks, inodes, blocks', inodes', owner, i, k, r, 0);
    OtherInodes(blocks, inodes, blocks', inodes', i);
  }

  /** Once the bit of entry j is cleared, the entry no longer counts. */
  lemma EntryDies(sb: Super, blocks: seq<Block>, inodes: seq<Inode>, owner: Owner, i: nat, j: nat)
    requires Owned(sb, blocks, inodes, owner, i, j) && i < |inodes| && j < NINDIRECT
    ensures
      var r := Ref(blocks, inodes[i], NDIRECT + 1 + j);
      Owned(sb, blocks, inodes, owner - {r}, i, j + 1)
  {
  }

  lemma EntryAt(sb: Super, blocks: seq<Block>, inodes: seq<Inode>, owner: Owner, i: nat, j: nat)
    requires Owned(sb, blocks, inodes, owner, i, j) && i < |inodes| && j < NINDIRECT
    ensures Shaped(inodes[i])
    ensures
      var r := Ref(blocks, inodes[i], NDIRECT + 1 + j);
      if r == 0 then Owned(sb, blocks, inodes, owner, i, j + 1)
      else r in owner && owner[r] == (i, NDIRECT + 1 + j) && sb.nmeta <= r < sb.size
  {
    var r := Ref(blocks, inodes[i], NDIRECT + 1 + j);
    OwnedAt(sb, blocks, inodes, owner, i, j, i, NDIRECT + 1 + j);
    if r == 0 {
      EntryDies(sb, blocks, inodes, owner, i, j);
      assert owner - {r} == owner;
    }
  }

  /** The block that entry j of the indirect block names, if any, is freed. */
  lemma FreeEntry(sb: Super, blocks: seq<Block>, inodes: seq<Inode>, owner: Owner, i: nat, j: nat)
    requires Owned(sb, blocks, inodes, owner, i, j) && Marked(sb, blocks, owner) && i < |inodes| && j < NINDIRECT
    ensures
      var r := Ref(blocks, inodes[i], NDIRECT + 1 + j);
      && (r == 0 ==> Owned(sb, blocks, inodes, owner, i, j + 1))
      && (r != 0 ==>
        && r < sb.size && Used(sb, blocks, r) && r in owner && owner[r] == (i, NDIRECT + 1 + j)
        && var blocks' := PutUsed(sb, blocks, r, false);
           && Owned(sb, blocks', inodes, owner - {r}, i, j + 1) && Marked(sb, blocks', owner - {r})
           && SameOthers(blocks, inodes, blocks', inodes, i))
  {
    hide PutUsed, Ref, FileBlock, SameOthers, Marked, Owned, Used, Live, Layout;
    OwnedShape(sb, blocks, inodes, owner, i, j);
    EntryAt(sb, blocks, inodes, owner, i, j);
    var r := Ref(blocks, inodes[i], NDIRECT + 1 + j);
    if r != 0 {
      EntryDies(sb, blocks, inodes, owner, i, j);
      FreeMarked(sb, blocks, owner, r);
      BitmapOnly(sb, blocks, PutUsed(sb, blocks, r, false), inodes, owner, i, j);
      RefsElsewhere(sb, blocks, PutUsed(sb, blocks, r, false), inodes, owner - {r}, i, j + 1);
    }
  }

  /** After all its entries the indirect block is freed and its slot cleared. */
  lemma FreeIndirect(sb: Super, blocks: seq<Block>, inodes: seq<Inode>, owner: Owner, i: nat)
    requires Owned(sb, blocks, inodes, owner, i, NINDIRECT) && Marked(sb, blocks, owner) && i < |inodes|
    requires inodes[i].addrs[NDIRECT] != 0
    ensures
      var r := inodes[i].addrs[NDIRECT];
      && r < sb.size && Used(sb, blocks, r) && r in owner && owner[r] == (i, NDIRECT)
      && var blocks' := PutUsed(sb, blocks, r, false);
         var inodes' := inodes[i := inodes[i].(addrs := inodes[i].addrs[NDIRECT := 0])];
         && Image(sb, blocks', inodes', owner - {r})
         && SameOthers(blocks, inodes, blocks', inodes', i)
  {
    hide PutUsed, Marked, Owned, SameOthers;
    OwnedShape(sb, blocks, inodes, owner, i, NINDIRECT);
    OwnedAt(sb, blocks, inodes, owner, i, NINDIRECT, i, NDIRECT);
    var r := inodes[i].addrs[NDIRECT];
    var blocks' := PutUsed(sb, blocks, r, false);
    var inodes' := inodes[i := inodes[i].(addrs := inodes[i].addrs[NDIRECT := 0])];
    FreeMarked(sb, blocks, owner, r);
    BitmapOnly(sb, blocks, blocks', inodes, owner, i, NINDIRECT);
    forall j, l | 0 <= j < |inodes| && 0 <= l < SLOTS
      ensures Ref(blocks', inodes'[j], l) == if j == i && l >= NDIRECT then 0 else Ref(blocks, inodes[j], l)
    {
      assert Ref(blocks', inodes[j], l) == Ref(blocks, inodes[j], l);
    }
    DropOwned(sb, blocks, inodes, blocks', inodes', owner, i, NDIRECT, r, NINDIRECT);
    OtherInodes(blocks, inodes, blocks', inodes', i);
  }
}
