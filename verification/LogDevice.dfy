/**
  log.c as it runs: the in-memory header, the pinned buffers and the disk, updated in place.
  Every method is tied to the block writes of WriteAheadLog and to the steps of GroupCommit.
 */
module LogDevice {
  import opened Words
  import opened FsFormat
  import opened WriteAheadLog
  import opened GroupCommit

  class Log {
    const g: Geometry
    var disk: Disk
    var dirty: map<nat, Block>        // the cache's buffers with B_DIRTY set
    var n: nat                        // lh.n
    var block: array<nat>             // lh.block
    var outstanding: int
    var committing: bool
    ghost var written: seq<Write>     // every block write so far, in order

    ghost predicate Valid()
      reads this, block
    {
      && Fits(g, disk)
      && block.Length == LOGSIZE && n <= LOGSIZE
      && GoodList(g, disk, block[..n])
      && (forall b :: b in dirty ==> b < |disk| && !InLog(g, b))
    }

    /** Every recorded block is pinned, and no other block is. */
    ghost predicate Pinned()
      reads this, block
      requires Valid()
    {
      Listed(dirty, block[..n])
    }

    /** bread: the cached contents if the buffer is dirty, else the disk's. */
    function View(b: nat): Block
      reads this
      requires b < |disk|
    {
      if b in dirty then dirty[b] else disk[b]
    }

    /** bwrite: one block reaches the disk. */
    method BWrite(b: nat, data: Block)
      requires Valid() && b < |disk|
      modifies this`disk, this`dirty, this`written
      ensures disk == old(disk)[b := data] && dirty == old(dirty) - {b}
      ensures written == old(written) + [Write(b, data)]
      ensures Valid()
    {
      disk := disk[b := data];
      dirty := dirty - {b};
      written := written + [Write(b, data)];
    }

    method WriteHead()
      requires Valid()
      modifies this`disk, this`dirty, this`written
      ensures Valid()
      ensures disk == old(disk)[g.start := PutHead(old(disk)[g.start], block[..n])]
      ensures dirty == old(dirty)
      ensures written == old(written) + [Write(g.start, PutHead(old(disk)[g.start], block[..n]))]
    {
      hide Word, PutWord, Distinct;
      var hb := PutWord(View(g.start), 0, n);
      for i := 0 to n
        invariant hb == PutWords(PutWord(disk[g.start], 0, n), 1, block[..i])
      {
        assert block[..i + 1][..i] == block[..i];
        hb := PutWord(hb, i + 1, block[i] % UINT);
      }
      BWrite(g.start, hb);
    }

    method ReadHead()
      requires Fits(g, disk) && block.Length == LOGSIZE && HeadOk(disk[g.start])
      requires g.start !in dirty
      modifies this`n, block
      ensures n <= LOGSIZE && block[..n] == GetHead(disk[g.start])
    {
      var buf := View(g.start);
      n := Word(buf, 0);
      for i := 0 to n
        invariant n == Word(buf, 0)
        invariant forall j :: 0 <= j < i ==> block[j] == GetHead(buf)[j]
      {
        block[i] := Word(buf, i + 1);
      }
    }

    /** Copies the pinned buffers into the log area. */
    method WriteLog(ghost ws: seq<Write>)
      requires Valid() && Pinned() && ws == CommitWrites(g, disk, block[..n], dirty)
      modifies this`disk, this`dirty, this`written
      ensures Valid() && Pinned() && dirty == old(dirty)
      ensures Issued(old(disk), ws, n, old(written), disk, written)
    {
      hide Issued, CommitWrites, GoodList, Listed, Apply;
      PinnedAll(dirty, block[..n]);
      CopyWrites(g, disk, block[..n], dirty);
      IssueNone(disk, ws, written);
      for tail := 0 to n
        invariant Valid() && dirty == old(dirty)
        invariant Issued(old(disk), ws, tail, old(written), disk, written)
      {
        ghost var d, w := disk, written;
        CopyOne(tail);
        assert block[..n][tail] == block[tail];
        assert ws[tail] == Write(g.start + 1 + tail, dirty[block[tail]]);
        IssueNext(old(disk), ws, tail, old(written), d, w, disk, written);
      }
    }

    /** One turn of write_log's loop: a pinned buffer goes to the next log block. */
    method CopyOne(tail: nat)
      requires Valid() && Pinned() && tail < n
      modifies this`disk, this`dirty, this`written
      ensures Valid() && dirty == old(dirty) && block[tail] in dirty
      ensures g.start + 1 + tail < |old(disk)| && disk == old(disk)[g.start + 1 + tail := dirty[block[tail]]]
      ensures written == old(written) + [Write(g.start + 1 + tail, dirty[block[tail]])]
    {
      assert block[..n][tail] in dirty;
      var from := View(block[tail]);
      BWrite(g.start + tail + 1, from);
    }

    /** One turn of install_trans's loop. */
    method InstallOne(tail: nat)
      requires Valid() && tail < n
      modifies this`disk, this`dirty, this`written
      ensures Valid()
      ensures block[tail] < |disk| && !InLog(g, block[tail])
      ensures disk == old(disk)[block[tail] := old(disk)[g.start + 1 + tail]]
      ensures written == old(written) + [Write(block[tail], old(disk)[g.start + 1 + tail])]
      ensures dirty == old(dirty) - {block[tail]}
    {
      assert block[..n][tail] == block[tail];
      var lbuf := View(g.start + tail + 1);
      BWrite(block[tail], lbuf);
    }

    /** Installs the transaction that the log area holds and unpins its buffers.  The caller has issued the
        first k of the writes ws on disk d0; these are the next n. */
    method InstallTrans(ghost d0: Disk, ghost ws: seq<Write>, ghost k: nat, ghost w0: seq<Write>)
      requires Valid() && k + n <= |ws| && Issued(d0, ws, k, w0, disk, written)
      requires Installs(g, ws, k, block[..n], disk)
      modifies this`disk, this`dirty, this`written
      ensures Valid() && Issued(d0, ws, k + n, w0, disk, written)
      ensures forall b :: b in dirty <==> b in old(dirty) && b !in block[..n]
    {
      hide Issued, Distinct;
      for tail := 0 to n
        invariant Valid() && |disk| == |old(disk)|
        invariant Issued(d0, ws, k + tail, w0, disk, written)
        invariant forall b :: 0 <= b < |disk| && InLog(g, b) ==> disk[b] == old(disk)[b]
        invariant forall b :: b in dirty <==> b in old(dirty) && b !in block[..tail]
      {
        ghost var d, w := disk, written;
        assert block[..n][tail] == block[tail];
        assert ws[k + tail] == Write(block[tail], d[g.start + 1 + tail]);
        InstallOne(tail);
        IssueNext(d0, ws, k + tail, w0, d, w, disk, written);
        assert block[..tail + 1] == block[..tail] + [block[tail]];
      }
    }

    /** What commit() and recover_from_log() end with: install, then write a header with count 0. */
    method InstallAndClear(ghost d0: Disk, ghost ws: seq<Write>, ghost k: nat, ghost w0: seq<Write>)
      requires Valid() && |ws| == k + n + 1 && Issued(d0, ws, k, w0, disk, written)
      requires Installs(g, ws, k, block[..n], disk)
      requires ws[k + n] == Write(g.start, PutHead(disk[g.start], []))
      modifies this`disk, this`dirty, this`written, this`n
      ensures Valid() && n == 0
      ensures OnDisk(d0, ws) && disk == Apply(d0, ws) && written == w0 + ws
      ensures forall b :: b in dirty <==> b in old(dirty) && b !in old(block[..n])
    {
      ghost var m := n;
      InstallTrans(d0, ws, k, w0);
      IssuedHead(g, d0, ws, k, m, w0, old(disk), old(written), disk, written, old(block[..n]));
      n := 0;
      assert block[..0] == [];
      ghost var d, w := disk, written;
      hide Issued, Installs, PutHead, Distinct;
      WriteHead();
      IssueNext(d0, ws, k + m, w0, d, w, disk, written);
      IssuedAll(d0, ws, w0, disk, written);
    }

    /** commit() with a transaction in the header. */
    method CommitSome()
      requires Valid() && Pinned() && n > 0
      modifies this`disk, this`dirty, this`written, this`n
      ensures Valid() && n == 0 && dirty == map[]
      ensures disk == Apply(old(disk), CommitWrites(g, old(disk), old(block[..n]), old(dirty)))
      ensures written == old(written) + CommitWrites(g, old(disk), old(block[..n]), old(dirty))
    {
      hide CommitWrites, Issued, PutHead, Installs, Distinct, Word, Apply;
      ghost var lh, d, view, w0 := block[..n], disk, dirty, written;
      ghost var ws := CommitWrites(g, d, lh, view);
      WriteLog(ws);
      ghost var d1, w1 := disk, written;
      CommitHead(g, d, lh, view, w0, disk, written);
      WriteHead();
      IssueNext(d, ws, |lh|, w0, d1, w1, disk, written);
      CommitRest(g, d, lh, view, w0, disk, written);
      InstallAndClear(d, ws, |lh| + 1, w0);
      assert dirty == map[];
    }

    method Commit()
      requires Valid() && Pinned()
      modifies this`disk, this`dirty, this`written, this`n
      ensures Valid() && n == 0 && dirty == map[]
      ensures disk == Apply(old(disk), CommitWrites(g, old(disk), old(block[..n]), old(dirty)))
      ensures written == old(written) + CommitWrites(g, old(disk), old(block[..n]), old(dirty))
    {
      if n > 0 {
        CommitSome();
      }
    }

    method RecoverFromLog()
      requires block.Length == LOGSIZE && dirty == map[]
      requires Recoverable(g, disk)
      modifies this`disk, this`dirty, this`written, this`n, block
      ensures Valid() && n == 0 && dirty == map[]
      ensures disk == Recovered(g, old(disk)) && written == old(written) + RecoverWrites(g, old(disk))
    {
      ghost var ws := RecoverWrites(g, disk);
      IssueNone(disk, ws, written);
      RecoverParts(g, disk);
      hide RecoverWrites, Issued, PutHead, Installs, Distinct;
      ReadHead();
      InstallAndClear(disk, ws, 0, written);
    }

    /** One turn of begin_op's loop under log.lock; false means that the caller sleeps. */
    method BeginOp() returns (begun: bool)
      modifies this`outstanding
      ensures begun <==> MayBegin(n, old(outstanding), committing)
      ensures begun <==> !committing && n + 10 * (old(outstanding) + 1) <= 30
      ensures outstanding == if begun then old(outstanding) + 1 else old(outstanding)
    {
      if committing {
        begun := false;
      } else if n + (outstanding + 1) * MAXOPBLOCKS > LOGSIZE {
        begun := false;
      } else {
        outstanding := outstanding + 1;
        begun := true;
      }
    }

    /** The caller has stored data in the buffer of block b. */
    method LogWrite(b: nat, data: Block) returns (panicked: bool)
      requires Valid() && Pinned() && b < |disk| && !InLog(g, b)
      modifies this`n, this`dirty, block
      ensures Valid() && Pinned()
      ensures panicked <==> TooBig(g, old(n)) || outstanding < 1
      ensures block[..n] == if panicked then old(block[..n]) else Absorb(old(block[..n]), b)
      ensures dirty == if panicked then old(dirty) else old(dirty)[b := data]
    {
      if n >= LOGSIZE || n >= g.size - 1 || outstanding < 1 {
        return true;
      }
      var i := 0;
      while i < n
        invariant i <= n
        invariant forall j :: 0 <= j < i ==> block[j] != b
      {
        if block[i] == b { break; }
        i := i + 1;
      }
      ghost var lh := block[..n];
      assert i < n ==> lh[i] == b;
      assert i == n ==> b !in lh;
      block[i] := b;
      if i == n {
        n := n + 1;
        assert block[..n] == lh + [b];
      } else {
        assert block[..n] == lh;
      }
      dirty := dirty[b := data];
      panicked := false;
    }

    method EndOp() returns (panicked: bool)
      requires Valid() && Pinned()
      modifies this`disk, this`dirty, this`written, this`n, this`outstanding, this`committing
      ensures Valid() && outstanding == old(outstanding) - 1
      ensures panicked <==> old(committing)
      ensures !panicked && old(outstanding) == 1 ==>
        && n == 0 && dirty == map[] && !committing
        && written == old(written) + CommitWrites(g, old(disk), old(block[..n]), old(dirty))
        && disk == Apply(old(disk), CommitWrites(g, old(disk), old(block[..n]), old(dirty)))
      ensures panicked || old(outstanding) != 1 ==>
        n == old(n) && dirty == old(dirty) && disk == old(disk) && written == old(written) && committing == old(committing)
    {
      outstanding := outstanding - 1;
      if committing {
        return true;
      }
      if outstanding == 0 {
        committing := true;
        Commit();
        committing := false;
      }
      panicked := false;
    }
  }

  /** Of the writes ws planned on disk d0, the first k have been issued. */
  ghost predicate Issued(d0: Disk, ws: seq<Write>, k: nat, w0: seq<Write>, d: Disk, w: seq<Write>) {
    OnDisk(d0, ws) && k <= |ws| && d == Apply(d0, ws[..k]) && w == w0 + ws[..k]
  }

  lemma IssueNone(d0: Disk, ws: seq<Write>, w0: seq<Write>)
    requires OnDisk(d0, ws)
    ensures Issued(d0, ws, 0, w0, d0, w0)
  {
  }

  lemma IssueNext(d0: Disk, ws: seq<Write>, k: nat, w0: seq<Write>, d: Disk, w: seq<Write>, d': Disk, w': seq<Write>)
    requires Issued(d0, ws, k, w0, d, w) && k < |ws|
    requires ws[k].at < |d| && d' == d[ws[k].at := ws[k].data] && w' == w + [ws[k]]
    ensures Issued(d0, ws, k + 1, w0, d', w')
  {
    ApplyNext(d0, ws, k);
    assert ws[..k + 1] == ws[..k] + [ws[k]];
  }

  lemma IssuedAll(d0: Disk, ws: seq<Write>, w0: seq<Write>, d: Disk, w: seq<Write>)
    requires Issued(d0, ws, |ws|, w0, d, w)
    ensures OnDisk(d0, ws) && d == Apply(d0, ws) && w == w0 + ws
  {
    assert ws[..|ws|] == ws;
  }

  /** The writes k.. of ws are those of install_trans on disk d. */
  ghost predicate Installs(g: Geometry, ws: seq<Write>, k: nat, lh: seq<nat>, d: Disk) {
    && Fits(g, d) && k + |lh| <= |ws| && |lh| < g.size
    && forall i :: 0 <= i < |lh| ==> ws[k + i] == Write(lh[i], d[g.start + 1 + i])
  }

  lemma {:induction false} ApplyElsewhere(d: Disk, ws: seq<Write>, b: nat)
    requires OnDisk(d, ws) && b < |d| && forall i :: 0 <= i < |ws| ==> ws[i].at != b
    ensures Apply(d, ws)[b] == d[b]
    decreases |ws|
  {
    if ws != [] { ApplyElsewhere(d, ws[..|ws| - 1], b); }
  }

  /** Installing writes no log block, so the header that is then cleared is the one found before. */
  lemma IssuedHead(g: Geometry, d0: Disk, ws: seq<Write>, k: nat, m: nat, w0: seq<Write>,
                   d: Disk, w: seq<Write>, d': Disk, w': seq<Write>, lh: seq<nat>)
    requires Issued(d0, ws, k, w0, d, w) && Issued(d0, ws, k + m, w0, d', w')
    requires |lh| == m && Installs(g, ws, k, lh, d) && GoodList(g, d, lh)
    ensures |d'| == |d| && d'[g.start] == d[g.start]
  {
    var vs := ws[k..k + m];
    assert ws[..k + m] == ws[..k] + vs;
    ApplyConcat(d0, ws[..k], vs);
    forall i | 0 <= i < m ensures vs[i].at != g.start {
      assert vs[i] == ws[k + i];
      assert !InLog(g, lh[i]);
    }
    ApplyElsewhere(d, vs, g.start);
  }

  lemma PinnedAll(dirty: map<nat, Block>, lh: seq<nat>)
    requires Listed(dirty, lh)
    ensures forall j :: 0 <= j < |lh| ==> lh[j] in dirty
  {
  }

  lemma CopyWrites(g: Geometry, d: Disk, lh: seq<nat>, view: map<nat, Block>)
    requires Fits(g, d) && GoodList(g, d, lh)
    requires forall j :: 0 <= j < |lh| ==> lh[j] in view
    ensures |lh| <= |CommitWrites(g, d, lh, view)|
    ensures forall i :: 0 <= i < |lh| ==> CommitWrites(g, d, lh, view)[i] == Write(g.start + 1 + i, view[lh[i]])
  {
  }

  lemma CommitHead(g: Geometry, d: Disk, lh: seq<nat>, view: map<nat, Block>, w0: seq<Write>, d': Disk, w': seq<Write>)
    requires Fits(g, d) && GoodList(g, d, lh) && lh != []
    requires forall j :: 0 <= j < |lh| ==> lh[j] in view
    requires Issued(d, CommitWrites(g, d, lh, view), |lh|, w0, d', w')
    ensures CommitWrites(g, d, lh, view)[|lh|] == Write(g.start, PutHead(d'[g.start], lh))
  {
    CommitPrefixAt(g, d, lh, view, |lh|, g.start);
  }

  /** After the header write, the rest of commit() is what recover_from_log() would do. */
  lemma CommitRest(g: Geometry, d: Disk, lh: seq<nat>, view: map<nat, Block>, w0: seq<Write>, d': Disk, w': seq<Write>)
    requires Fits(g, d) && GoodList(g, d, lh) && lh != []
    requires forall j :: 0 <= j < |lh| ==> lh[j] in view
    requires Issued(d, CommitWrites(g, d, lh, view), |lh| + 1, w0, d', w')
    ensures
      var n, ws := |lh|, CommitWrites(g, d, lh, view);
      && |ws| == n + 1 + n + 1
      && Installs(g, ws, n + 1, lh, d')
      && ws[n + 1 + n] == Write(g.start, PutHead(d'[g.start], []))
  {
    hide Distinct, CommitWrites, PutHead, Apply;
    var n, ws := |lh|, CommitWrites(g, d, lh, view);
    LastWrite(g, d, lh, view);
    forall i | 0 <= i < n ensures ws[n + 1 + i] == Write(lh[i], d'[g.start + 1 + i]) {
      InstallWrite(g, d, lh, view, i);
      CopiedAt(g, d, lh, view, n + 1, i);
    }
    CommitPrefixAt(g, d, lh, view, n + 1, g.start);
  }

  lemma LastWrite(g: Geometry, d: Disk, lh: seq<nat>, view: map<nat, Block>)
    requires Fits(g, d) && GoodList(g, d, lh) && lh != []
    requires forall j :: 0 <= j < |lh| ==> lh[j] in view
    ensures
      var n, ws := |lh|, CommitWrites(g, d, lh, view);
      |ws| == n + 1 + n + 1 && ws[n + 1 + n] == Write(g.start, PutHead(PutHead(d[g.start], lh), []))
  {
  }

  lemma InstallWrite(g: Geometry, d: Disk, lh: seq<nat>, view: map<nat, Block>, i: nat)
    requires Fits(g, d) && GoodList(g, d, lh) && i < |lh|
    requires forall j :: 0 <= j < |lh| ==> lh[j] in view
    ensures CommitWrites(g, d, lh, view)[|lh| + 1 + i] == Write(lh[i], view[lh[i]])
  {
  }

  lemma RecoverParts(g: Geometry, d: Disk)
    requires Recoverable(g, d)
    ensures
      var lh, ws := GetHead(d[g.start]), RecoverWrites(g, d);
      && |ws| == |lh| + 1
      && Installs(g, ws, 0, lh, d)
      && ws[|lh|] == Write(g.start, PutHead(d[g.start], []))
  {
  }
}
