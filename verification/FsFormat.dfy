/**
  The bytes of a file-system block (fs.h): the bits of the free map and the words of an indirect
  block are views of the same 512 bytes.
 */
module FsFormat {
  import opened Words

  const BSIZE: nat := 512
  const NDIRECT: nat := 12
  const NINDIRECT: nat := 128
  const MAXFILE: nat := NDIRECT + NINDIRECT
  /** Bits of the free map in one block. */
  const BPB: nat := 4096
  /** Inodes in one block. */
  const IPB: nat := 8

  /** A byte counts modulo 256 wherever its value matters, so that any integer may stand for one. */
  type Byte = int
  type Block = b: seq<Byte> | |b| == BSIZE witness seq(BSIZE, i => 0)

  function ZeroBlock(): (b: Block)
    ensures forall i :: 0 <= i < BSIZE ==> b[i] == 0
  {
    seq(BSIZE, i => 0)
  }

  // ---------------------------------------------------------------- bits

  function Pow2(n: nat): nat {
    if n == 0 then 1 else 2 * Pow2(n - 1)
  }

  /** Bit i of x. */
  predicate ByteBit(x: nat, i: nat) {
    if i == 0 then x % 2 == 1 else ByteBit(x / 2, i - 1)
  }

  /** An n-bit x with bit i set or cleared. */
  function PutByteBit(x: nat, i: nat, on: bool, n: nat): (r: nat)
    requires i < n && x < Pow2(n)
    ensures r < Pow2(n)
    ensures ByteBit(r, i) == on
  {
    var low := if i == 0 then if on then 1 else 0 else x % 2;
    var high := if i == 0 then x / 2 else PutByteBit(x / 2, i - 1, on, n - 1);
    Halves(high, low);
    2 * high + low
  }

  lemma Halves(high: nat, low: nat)
    requires low < 2
    ensures (2 * high + low) / 2 == high && (2 * high + low) % 2 == low
  {
  }

  lemma {:induction false} OtherByteBit(x: nat, i: nat, j: nat, on: bool, n: nat)
    requires i < n && j < n && i != j && x < Pow2(n)
    ensures ByteBit(PutByteBit(x, i, on, n), j) == ByteBit(x, j)
  {
    if i > 0 && j > 0 { OtherByteBit(x / 2, i - 1, j - 1, on, n - 1); }
  }

  lemma EightBits()
    ensures Pow2(8) == 256
  {
  }

  predicate Bit(b: Block, i: nat)
    requires i < BPB
  {
    ByteBit(b[i / 8] % 256, i % 8)
  }

  function PutBit(b: Block, i: nat, on: bool): (r: Block)
    requires i < BPB
    ensures forall j :: 0 <= j < BPB ==> Bit(r, j) == if j == i then on else Bit(b, j)
  {
    EightBits();
    var r: Block := b[i / 8 := PutByteBit(b[i / 8] % 256, i % 8, on, 8)];
    BitsAfter(b, i, on, r);
    r
  }

  lemma BitAfter(b: Block, i: nat, on: bool, r: Block, j: nat)
    requires i < BPB && j < BPB && Pow2(8) == 256
    requires r == b[i / 8 := PutByteBit(b[i / 8] % 256, i % 8, on, 8)]
    ensures Bit(r, j) == if j == i then on else Bit(b, j)
  {
    hide PutByteBit, ByteBit, Pow2;
    if j / 8 == i / 8 {
      var x := PutByteBit(b[i / 8] % 256, i % 8, on, 8);
      assert r[j / 8] == x && x % 256 == x;
      if j != i { OtherByteBit(b[i / 8] % 256, i % 8, j % 8, on, 8); }
    } else {
      assert r[j / 8] == b[j / 8];
    }
  }

  lemma BitsAfter(b: Block, i: nat, on: bool, r: Block)
    requires i < BPB && Pow2(8) == 256 && r == b[i / 8 := PutByteBit(b[i / 8] % 256, i % 8, on, 8)]
    ensures forall j :: 0 <= j < BPB ==> Bit(r, j) == if j == i then on else Bit(b, j)
  {
    hide PutByteBit, Bit;
    forall j | 0 <= j < BPB ensures Bit(r, j) == if j == i then on else Bit(b, j) { BitAfter(b, i, on, r, j); }
  }

  // ---------------------------------------------------------------- words

  function Word(b: Block, k: nat): (w: nat)
    requires k < NINDIRECT
    ensures w < UINT
  {
    b[4 * k] % 256 + 0x100 * (b[4 * k + 1] % 256) + 0x10000 * (b[4 * k + 2] % 256) + 0x1000000 * (b[4 * k + 3] % 256)
  }

  /** An indirect block with w, little-endian, as its k-th entry. */
  function PutWord(b: Block, k: nat, w: nat): (r: Block)
    requires k < NINDIRECT && w < UINT
    ensures Word(r, k) == w
    ensures forall j :: 0 <= j < NINDIRECT && j != k ==> Word(r, j) == Word(b, j)
  {
    FourBytes(w);
    FourPlaces(b, k, w % 0x100, w / 0x100 % 0x100, w / 0x10000 % 0x100, w / 0x1000000);
    b[4 * k := w % 0x100][4 * k + 1 := w / 0x100 % 0x100][4 * k + 2 := w / 0x10000 % 0x100][4 * k + 3 := w / 0x1000000]
  }

  /** A block with ws as its words from at on, each cut to 32 bits. */
  function PutWords(b: Block, at: nat, ws: seq<nat>): Block
    requires at + |ws| <= NINDIRECT
  {
    if ws == [] then b
    else
      var n := |ws| - 1;
      PutWord(PutWords(b, at, ws[..n]), at + n, ws[n] % UINT)
  }

  lemma {:induction false} PutWordsAt(b: Block, at: nat, ws: seq<nat>, k: nat)
    requires at + |ws| <= NINDIRECT && k < NINDIRECT
    ensures Word(PutWords(b, at, ws), k) == if at <= k < at + |ws| then ws[k - at] % UINT else Word(b, k)
    decreases |ws|
  {
    if ws != [] { PutWordsAt(b, at, ws[..|ws| - 1], k); }
  }

  lemma FourPlaces(b: Block, k: nat, w0: nat, w1: nat, w2: nat, w3: nat)
    requires k < NINDIRECT && w0 < 256 && w1 < 256 && w2 < 256 && w3 < 256
    ensures
      var r := b[4 * k := w0][4 * k + 1 := w1][4 * k + 2 := w2][4 * k + 3 := w3];
      && Word(r, k) == w0 + 0x100 * w1 + 0x10000 * w2 + 0x1000000 * w3
      && (forall j :: 0 <= j < NINDIRECT && j != k ==> Word(r, j) == Word(b, j))
  {
  }

  lemma FourBytes(w: nat)
    requires w < UINT
    ensures w / 0x1000000 < 0x100
    ensures w == w % 0x100 + 0x100 * (w / 0x100 % 0x100) + 0x10000 * (w / 0x10000 % 0x100) + 0x1000000 * (w / 0x1000000)
  {
    assert w / 0x100 == w / 0x100 % 0x100 + 0x100 * (w / 0x100 / 0x100);
    assert w / 0x100 / 0x100 == w / 0x10000;
  }

  lemma ZeroWord(k: nat)
    requires k < NINDIRECT
    ensures Word(ZeroBlock(), k) == 0
  {
  }
}
