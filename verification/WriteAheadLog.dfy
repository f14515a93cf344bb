/**
  The redo log of log.c as block writes on a disk.

  A disk is a sequence of blocks and one block write is atomic.  commit() and
  recover_from_log() are the sequences of block writes that they issue; a crash is a
  prefix of such a sequence.  The theorems say what the next recovery makes of it.
 */
module WriteAheadLog {
  import opened Words
  import opened FsFormat

  const MAXOPBLOCKS: nat := 10
  const LOGSIZE: nat := MAXOPBLOCKS * 3

  type Block = FsFormat.Block
  type Disk = seq<Block>

  /** Where the log lies on the disk: sb.logstart and sb.nlog. */
  datatype Geometry = Geometry(start: nat, size: nat)

  datatype Write = Write(at: nat, data: Block)

  predicate InLog(g: Geometry, b: nat) {
    g.start <= b < g.start + g.size
  }

  predicate Fits(g: Geometry, d: Disk) {
    1 <= g.size && g.start + g.size <= |d| <= UINT
  }

  predicate Distinct(s: seq<nat>) {
    forall i, j :: 0 <= i < j < |s| ==> s[i] != s[j]
  }

  /** Block numbers that a transaction may record: distinct, on the disk, outside the log,
      and few enough for the header and for the log area. */
  predicate GoodList(g: Geometry, d: Disk, lh: seq<nat>) {
    && |lh| <= LOGSIZE
    && |lh| < g.size
    && Distinct(lh)
    && forall i :: 0 <= i < |lh| ==> lh[i] < |d| && !InLog(g, lh[i])
  }

  ghost function IndexOf(s: seq<nat>, b: nat): (i: nat)
    requires b in s
    ensures i < |s| && s[i] == b
  {
    var i :| 0 <= i < |s| && s[i] == b;
    i
  }

  lemma IndexOfAt(s: seq<nat>, i: nat)
    requires Distinct(s) && i < |s|
    ensures IndexOf(s, s[i]) == i
  {
  }

  // ---------------------------------------------------------------- the header block

  /** write_head stores the count and the entries and leaves the words after them alone. */
  function PutHead(b: Block, lh: seq<nat>): (r: Block)
    requires |lh| <= LOGSIZE
    ensures Word(r, 0) == |lh|
  {
    PutWordsAt(PutWord(b, 0, |lh|), 1, lh, 0);
    PutWords(PutWord(b, 0, |lh|), 1, lh)
  }

  /** A header block that read_head can load: a count in range. */
  predicate HeadOk(b: Block) {
    Word(b, 0) <= LOGSIZE
  }

  function GetHead(b: Block): (lh: seq<nat>)
    requires HeadOk(b)
    ensures |lh| == Word(b, 0) <= LOGSIZE
  {
    seq(Word(b, 0), i requires 0 <= i < Word(b, 0) => Word(b, 1 + i))
  }

  /** What write_head stores, read_head loads, whatever the block held before. */
  lemma HeadRoundTrip(b: Block, lh: seq<nat>)
    requires |lh| <= LOGSIZE && forall i :: 0 <= i < |lh| ==> lh[i] < UINT
    ensures HeadOk(PutHead(b, lh)) && GetHead(PutHead(b, lh)) == lh
  {
    hide Word;
    forall i | 0 <= i < |lh| ensures GetHead(PutHead(b, lh))[i] == lh[i] {
      PutWordsAt(PutWord(b, 0, |lh|), 1, lh, 1 + i);
    }
  }

  // ---------------------------------------------------------------- sequences of writes

  predicate OnDisk(d: Disk, ws: seq<Write>) {
    forall i :: 0 <= i < |ws| ==> ws[i].at < |d|
  }

  /** The disk after the writes, issued in order. */
  function Apply(d: Disk, ws: seq<Write>): (r: Disk)
    requires OnDisk(d, ws)
    ensures |r| == |d|
  {
    if ws == [] then d
    else
      var w := ws[|ws| - 1];
      Apply(d, ws[..|ws| - 1])[w.at := w.data]
  }

  lemma ApplyNext(d: Disk, ws: seq<Write>, k: nat)
    requires OnDisk(d, ws) && k < |ws|
    ensures Apply(d, ws[..k + 1]) == Apply(d, ws[..k])[ws[k].at := ws[k].data]
  {
    assert ws[..k + 1][..k] == ws[..k];
  }

  lemma {:induction false} ApplyConcat(d: Disk, ws: seq<Write>, vs: seq<Write>)
    requires OnDisk(d, ws) && OnDisk(d, vs)
    ensures OnDisk(d, ws + vs) && Apply(d, ws + vs) == Apply(Apply(d, ws), vs)
    decreases |vs|
  {
    if vs == [] {
      assert ws + vs == ws;
    } else {
      ApplyConcat(d, ws, vs[..|vs| - 1]);
      assert (ws + vs)[..|ws + vs| - 1] == ws + vs[..|vs| - 1];
    }
  }

  // ---------------------------------------------------------------- commit()

  /** The i-th block write of commit(): n copies into the log, the header, n installs,
      the cleared header.  `view` is what bread returns for a logged block. */
  function CommitWrite(g: Geometry, d: Disk, lh: seq<nat>, view: map<nat, Block>, i: nat): Write
    requires Fits(g, d) && |lh| <= LOGSIZE
    requires forall j :: 0 <= j < |lh| ==> lh[j] in view
    requires i < 2 * |lh| + 2
  {
    var n := |lh|;
    if i < n then Write(g.start + 1 + i, view[lh[i]])
    else if i == n then Write(g.start, PutHead(d[g.start], lh))
    else if i <= 2 * n then Write(lh[i - n - 1], view[lh[i - n - 1]])
    else Write(g.start, PutHead(PutHead(d[g.start], lh), []))
  }

  /** commit() writes nothing when the header is empty. */
  function CommitLength(lh: seq<nat>): nat {
    if lh == [] then 0 else 2 * |lh| + 2
  }

  function CommitWrites(g: Geometry, d: Disk, lh: seq<nat>, view: map<nat, Block>): (ws: seq<Write>)
    requires Fits(g, d) && GoodList(g, d, lh)
    requires forall j :: 0 <= j < |lh| ==> lh[j] in view
    ensures |ws| == CommitLength(lh) && OnDisk(d, ws)
  {
    seq(CommitLength(lh), i requires 0 <= i < CommitLength(lh) => CommitWrite(g, d, lh, view, i))
  }

  /** The contents of block b after the first k block writes of commit(). */
  ghost function CommitPoint(g: Geometry, d: Disk, lh: seq<nat>, view: map<nat, Block>, k: nat, b: nat): Block
    requires Fits(g, d) && GoodList(g, d, lh) && b < |d|
    requires forall j :: 0 <= j < |lh| ==> lh[j] in view
  {
    var n := |lh|;
    if b == g.start then
      if k <= n then d[b] else if k <= 2 * n + 1 then PutHead(d[b], lh) else PutHead(PutHead(d[b], lh), [])
    else if g.start < b <= g.start + n then
      if b - g.start - 1 < k then view[lh[b - g.start - 1]] else d[b]
    else if b in lh && n + 1 + IndexOf(lh, b) < k then view[b]
    else d[b]
  }

  lemma CommitPointNext(g: Geometry, d: Disk, lh: seq<nat>, view: map<nat, Block>, k: nat, b: nat)
    requires Fits(g, d) && GoodList(g, d, lh) && b < |d|
    requires forall j :: 0 <= j < |lh| ==> lh[j] in view
    requires k < CommitLength(lh)
    ensures
      var w := CommitWrite(g, d, lh, view, k);
      CommitPoint(g, d, lh, view, k + 1, b) == if b == w.at then w.data else CommitPoint(g, d, lh, view, k, b)
  {
  }

  lemma {:induction false} CommitPrefix(g: Geometry, d: Disk, lh: seq<nat>, view: map<nat, Block>, k: nat)
    requires Fits(g, d) && GoodList(g, d, lh)
    requires forall j :: 0 <= j < |lh| ==> lh[j] in view
    requires k <= CommitLength(lh)
    ensures forall b :: 0 <= b < |d| ==>
      Apply(d, CommitWrites(g, d, lh, view)[..k])[b] == CommitPoint(g, d, lh, view, k, b)
  {
    var ws := CommitWrites(g, d, lh, view);
    if k > 0 {
      CommitPrefix(g, d, lh, view, k - 1);
      ApplyNext(d, ws, k - 1);
      forall b | 0 <= b < |d|
        ensures Apply(d, ws[..k])[b] == CommitPoint(g, d, lh, view, k, b)
      {
        CommitPointNext(g, d, lh, view, k - 1, b);
      }
    }
  }

  lemma CommitPrefixAt(g: Geometry, d: Disk, lh: seq<nat>, view: map<nat, Block>, k: nat, b: nat)
    requires Fits(g, d) && GoodList(g, d, lh) && b < |d|
    requires forall j :: 0 <= j < |lh| ==> lh[j] in view
    requires k <= CommitLength(lh)
    ensures Apply(d, CommitWrites(g, d, lh, view)[..k])[b] == CommitPoint(g, d, lh, view, k, b)
  {
    CommitPrefix(g, d, lh, view, k);
  }

  /** Once copied, the i-th log block holds the i-th logged block until commit() ends. */
  lemma CopiedAt(g: Geometry, d: Disk, lh: seq<nat>, view: map<nat, Block>, k: nat, i: nat)
    requires Fits(g, d) && GoodList(g, d, lh)
    requires forall j :: 0 <= j < |lh| ==> lh[j] in view
    requires i < |lh| && i < k <= CommitLength(lh)
    ensures Apply(d, CommitWrites(g, d, lh, view)[..k])[g.start + 1 + i] == view[lh[i]]
  {
    var b := g.start + 1 + i;
    CommitPrefixAt(g, d, lh, view, k, b);
    assert b - g.start - 1 == i;
  }

  // ---------------------------------------------------------------- recover_from_log()

  /** The header and the log blocks describe a transaction that recovery can install. */
  predicate Recoverable(g: Geometry, d: Disk) {
    Fits(g, d) && HeadOk(d[g.start]) && GoodList(g, d, GetHead(d[g.start]))
  }

  /** The i-th block write of recover_from_log(): installs from the log, then the cleared header. */
  function RecoverWrite(g: Geometry, d: Disk, i: nat): Write
    requires Recoverable(g, d) && i <= |GetHead(d[g.start])|
  {
    var lh := GetHead(d[g.start]);
    if i < |lh| then Write(lh[i], d[g.start + 1 + i])
    else Write(g.start, PutHead(d[g.start], []))
  }

  function RecoverWrites(g: Geometry, d: Disk): (ws: seq<Write>)
    requires Recoverable(g, d)
    ensures |ws| == |GetHead(d[g.start])| + 1 && OnDisk(d, ws)
  {
    var n := |GetHead(d[g.start])|;
    seq(n + 1, i requires 0 <= i <= n => RecoverWrite(g, d, i))
  }

  /** The disk that a recovery running to completion leaves. */
  function Recovered(g: Geometry, d: Disk): Disk
    requires Recoverable(g, d)
  {
    Apply(d, RecoverWrites(g, d))
  }

  ghost function RecoverPoint(g: Geometry, d: Disk, k: nat, b: nat): Block
    requires Recoverable(g, d) && b < |d|
  {
    var lh := GetHead(d[g.start]);
    if b == g.start then if k <= |lh| then d[b] else PutHead(d[b], [])
    else if b in lh && IndexOf(lh, b) < k then d[g.start + 1 + IndexOf(lh, b)]
    else d[b]
  }

  lemma RecoverPointNext(g: Geometry, d: Disk, k: nat, b: nat)
    requires Recoverable(g, d) && b < |d| && k <= |GetHead(d[g.start])|
    ensures
      var w := RecoverWrite(g, d, k);
      RecoverPoint(g, d, k + 1, b) == if b == w.at then w.data else RecoverPoint(g, d, k, b)
  {
  }

  lemma {:induction false} RecoverPrefix(g: Geometry, d: Disk, k: nat)
    requires Recoverable(g, d) && k <= |GetHead(d[g.start])| + 1
    ensures forall b :: 0 <= b < |d| ==> Apply(d, RecoverWrites(g, d)[..k])[b] == RecoverPoint(g, d, k, b)
  {
    var ws := RecoverWrites(g, d);
    if k > 0 {
      RecoverPrefix(g, d, k - 1);
      ApplyNext(d, ws, k - 1);
      forall b | 0 <= b < |d|
        ensures Apply(d, ws[..k])[b] == RecoverPoint(g, d, k, b)
      {
        RecoverPointNext(g, d, k - 1, b);
      }
    }
  }

  lemma RecoveredAt(g: Geometry, d: Disk)
    requires Recoverable(g, d)
    ensures |Recovered(g, d)| == |d|
    ensures forall b :: 0 <= b < |d| ==>
      Recovered(g, d)[b] == RecoverPoint(g, d, |GetHead(d[g.start])| + 1, b)
  {
    var n := |GetHead(d[g.start])| + 1;
    RecoverPrefix(g, d, n);
    assert RecoverWrites(g, d)[..n] == RecoverWrites(g, d);
  }

  // ---------------------------------------------------------------- what survives a crash

  /** The two disks agree on every block outside the log. */
  predicate SameHome(g: Geometry, d: Disk, e: Disk) {
    |d| == |e| && forall b :: 0 <= b < |d| && !InLog(g, b) ==> d[b] == e[b]
  }

  /** A completed recovery: the on-disk header count is back to 0. */
  predicate Clean(g: Geometry, d: Disk) {
    Fits(g, d) && Word(d[g.start], 0) == 0
  }

  /** The disk with every block of m at its contents in m. */
  function Overlay(d: Disk, m: map<nat, Block>): (r: Disk)
    ensures |r| == |d|
    ensures forall b :: 0 <= b < |d| ==> r[b] == if b in m then m[b] else d[b]
  {
    seq(|d|, b requires 0 <= b < |d| => if b in m then m[b] else d[b])
  }

  /** The transaction's contents for exactly the recorded blocks. */
  function Restrict(view: map<nat, Block>, lh: seq<nat>): map<nat, Block> {
    map b | b in view && b in lh :: view[b]
  }

  lemma CleanRecoverable(g: Geometry, d: Disk)
    requires Clean(g, d)
    ensures Recoverable(g, d) && GetHead(d[g.start]) == []
  {
  }

  /** Recovery of a clean disk changes no home block. */
  lemma RecoverClean(g: Geometry, d: Disk)
    requires Clean(g, d)
    ensures Recoverable(g, d) && SameHome(g, Recovered(g, d), d) && Clean(g, Recovered(g, d))
  {
    CleanRecoverable(g, d);
    RecoveredAt(g, d);
  }

  /** A recovery writes the log's contents over the recorded blocks and nothing else. */
  lemma RecoveredIs(g: Geometry, e: Disk, f: Disk)
    requires Recoverable(g, e) && |f| == |e|
    requires
      var lh := GetHead(e[g.start]);
      && (forall i :: 0 <= i < |lh| ==> f[lh[i]] == e[g.start + 1 + i])
      && (forall b :: 0 <= b < |e| && !InLog(g, b) && b !in lh ==> f[b] == e[b])
    ensures Clean(g, Recovered(g, e)) && SameHome(g, Recovered(g, e), f)
  {
    RecoveredAt(g, e);
    var lh := GetHead(e[g.start]);
    forall b | 0 <= b < |e| && !InLog(g, b)
      ensures Recovered(g, e)[b] == f[b]
    {
      if b in lh {
        var i := IndexOf(lh, b);
        assert f[lh[i]] == e[g.start + 1 + i];
      }
    }
  }

  lemma CommittedIs(g: Geometry, d: Disk, lh: seq<nat>, view: map<nat, Block>, k: nat, e: Disk)
    requires Clean(g, d) && GoodList(g, d, lh)
    requires forall j :: 0 <= j < |lh| ==> lh[j] in view
    requires |lh| < k <= 2 * |lh| + 1
    requires |e| == |d| && forall b :: 0 <= b < |d| ==> e[b] == CommitPoint(g, d, lh, view, k, b)
    ensures Recoverable(g, e) && Clean(g, Recovered(g, e))
    ensures SameHome(g, Recovered(g, e), Overlay(d, Restrict(view, lh)))
  {
    hide PutHead, GetHead, HeadOk, Word, Recovered;
    assert e[g.start] == PutHead(d[g.start], lh);
    HeadRoundTrip(d[g.start], lh);
    var f := Overlay(d, Restrict(view, lh));
    forall i | 0 <= i < |lh| ensures f[lh[i]] == e[g.start + 1 + i] {
      assert e[g.start + 1 + i] == CommitPoint(g, d, lh, view, k, g.start + 1 + i) == view[lh[i]];
    }
    RecoveredIs(g, e, f);
  }

  /** Crash atomicity of commit(): cut off after any k block writes, the next recovery yields
      all the old contents while the header is unwritten, all the new ones afterwards. */
  lemma CommitAtomic(g: Geometry, d: Disk, lh: seq<nat>, view: map<nat, Block>, k: nat)
    requires Clean(g, d) && GoodList(g, d, lh)
    requires forall j :: 0 <= j < |lh| ==> lh[j] in view
    requires k <= CommitLength(lh)
    ensures
      var e := Apply(d, CommitWrites(g, d, lh, view)[..k]);
      && Recoverable(g, e)
      && Clean(g, Recovered(g, e))
      && SameHome(g, Recovered(g, e), if k <= |lh| then d else Overlay(d, Restrict(view, lh)))
  {
    hide Apply, CommitWrites, CommitPoint, Recovered, Recoverable, GoodList, Restrict;
    var e := Apply(d, CommitWrites(g, d, lh, view)[..k]);
    CommitPrefix(g, d, lh, view, k);
    if |lh| < k <= 2 * |lh| + 1 {
      CommittedIs(g, d, lh, view, k, e);
    } else {
      NotCommittedIs(g, d, lh, view, k, e);
      RecoverClean(g, e);
    }
  }

  /** Before the header is written the home blocks are old, and after it is cleared they are new. */
  lemma NotCommittedIs(g: Geometry, d: Disk, lh: seq<nat>, view: map<nat, Block>, k: nat, e: Disk)
    requires Clean(g, d) && GoodList(g, d, lh)
    requires forall j :: 0 <= j < |lh| ==> lh[j] in view
    requires k <= |lh| || k == CommitLength(lh)
    requires |e| == |d| && forall b :: 0 <= b < |d| ==> e[b] == CommitPoint(g, d, lh, view, k, b)
    ensures Clean(g, e) && SameHome(g, e, if k <= |lh| then d else Overlay(d, Restrict(view, lh)))
  {
    hide PutHead, Word;
    assert e[g.start] == CommitPoint(g, d, lh, view, k, g.start);
  }

  lemma InterruptedIs(g: Geometry, d: Disk, k: nat, e: Disk)
    requires Recoverable(g, d) && k <= |GetHead(d[g.start])|
    requires |e| == |d| && forall b :: 0 <= b < |d| ==> e[b] == RecoverPoint(g, d, k, b)
    ensures Recoverable(g, e) && Clean(g, Recovered(g, e))
    ensures SameHome(g, Recovered(g, e), Recovered(g, d))
  {
    hide Word, PutHead, GetHead, HeadOk, Recovered;
    var lh := GetHead(d[g.start]);
    RecoveredAt(g, d);
    assert e[g.start] == d[g.start];
    forall i | 0 <= i < |lh| ensures Recovered(g, d)[lh[i]] == e[g.start + 1 + i] {
      assert e[g.start + 1 + i] == RecoverPoint(g, d, k, g.start + 1 + i);
      IndexOfAt(lh, i);
    }
    RecoveredIs(g, e, Recovered(g, d));
  }

  /** A crash after any k block writes of a recovery loses nothing: recovering again
      gives the same home blocks. */
  lemma RecoverIdempotent(g: Geometry, d: Disk, k: nat)
    requires Recoverable(g, d) && k <= |GetHead(d[g.start])| + 1
    ensures
      var e := Apply(d, RecoverWrites(g, d)[..k]);
      && Recoverable(g, e)
      && Clean(g, Recovered(g, d)) && Clean(g, Recovered(g, e))
      && SameHome(g, Recovered(g, e), Recovered(g, d))
  {
    var e := Apply(d, RecoverWrites(g, d)[..k]);
    RecoveredAt(g, d);
    if k <= |GetHead(d[g.start])| {
      RecoverPrefix(g, d, k);
      InterruptedIs(g, d, k, e);
    } else {
      assert RecoverWrites(g, d)[..k] == RecoverWrites(g, d);
      RecoverClean(g, e);
    }
  }

  /** cuts[i] is the number of block writes that the i-th, interrupted recovery got to issue. */
  predicate CutsOk(g: Geometry, d: Disk, cuts: seq<nat>)
    decreases |cuts|
  {
    && Recoverable(g, d)
    && (cuts != [] ==>
      && cuts[0] <= |GetHead(d[g.start])| + 1
      && CutsOk(g, Apply(d, RecoverWrites(g, d)[..cuts[0]]), cuts[1..]))
  }

  /** The disk after that many interrupted recoveries. */
  function AfterCuts(g: Geometry, d: Disk, cuts: seq<nat>): Disk
    requires CutsOk(g, d, cuts)
    decreases |cuts|
  {
    if cuts == [] then d else AfterCuts(g, Apply(d, RecoverWrites(g, d)[..cuts[0]]), cuts[1..])
  }

  lemma {:induction false} RecoverDespiteCuts(g: Geometry, d: Disk, cuts: seq<nat>)
    requires CutsOk(g, d, cuts)
    ensures
      var e := AfterCuts(g, d, cuts);
      && Recoverable(g, e) && Clean(g, Recovered(g, e))
      && SameHome(g, Recovered(g, e), Recovered(g, d))
    decreases |cuts|
  {
    if cuts == [] {
      RecoverIdempotent(g, d, 0);
    } else {
      RecoverIdempotent(g, d, cuts[0]);
      RecoverDespiteCuts(g, Apply(d, RecoverWrites(g, d)[..cuts[0]]), cuts[1..]);
    }
  }

  /** Each of them runs on the disk that the one before it left, and may be cut off anywhere. */
  lemma {:induction false} CutsLast(g: Geometry, d: Disk, cuts: seq<nat>, n: nat)
    requires CutsOk(g, d, cuts)
    ensures
      var e := AfterCuts(g, d, cuts);
      && Recoverable(g, e)
      && (n <= |GetHead(e[g.start])| + 1 ==>
           CutsOk(g, d, cuts + [n]) && AfterCuts(g, d, cuts + [n]) == Apply(e, RecoverWrites(g, e)[..n]))
    decreases |cuts|
  {
    hide Recovered, Apply, SameHome, Clean;
    RecoverDespiteCuts(g, d, cuts);
    if cuts == [] {
      if n <= |GetHead(d[g.start])| + 1 { RecoverIdempotent(g, d, n); }
    } else {
      CutsLast(g, Apply(d, RecoverWrites(g, d)[..cuts[0]]), cuts[1..], n);
      assert (cuts + [n])[1..] == cuts[1..] + [n];
    }
  }

  /** Crash atomicity: a crash anywhere in commit(), then any number of crashes anywhere in
      recovery, then one completed recovery: all home blocks old or all home blocks new, the
      choice fixed by whether the header write happened, and the header count is 0. */
  lemma CrashAtomicity(g: Geometry, d: Disk, lh: seq<nat>, view: map<nat, Block>, k: nat, cuts: seq<nat>)
    requires Clean(g, d) && GoodList(g, d, lh)
    requires forall j :: 0 <= j < |lh| ==> lh[j] in view
    requires k <= CommitLength(lh)
    requires CutsOk(g, Apply(d, CommitWrites(g, d, lh, view)[..k]), cuts)
    ensures
      var e := AfterCuts(g, Apply(d, CommitWrites(g, d, lh, view)[..k]), cuts);
      && Recoverable(g, e)
      && Clean(g, Recovered(g, e))
      && SameHome(g, Recovered(g, e), if k <= |lh| then d else Overlay(d, Restrict(view, lh)))
  {
    CommitAtomic(g, d, lh, view, k);
    RecoverDespiteCuts(g, Apply(d, CommitWrites(g, d, lh, view)[..k]), cuts);
  }
}
