/**
  commit() over the buffer cache (log.c on top of bio.c).  A logged block stays in the cache until it is
  installed, and commit() itself reads the blocks of the log area through the same cache.  Processes that
  only read (fileread, filestat) make no transaction and may hold buffers meanwhile.
 */
module CommitCache {
  import opened BufferRing
  import opened Bcache
  import opened Sets
  import WAL = WriteAheadLog
  import GC = GroupCommit
  import LogReservation

  /** The device that holds the log. */
  const DEV: nat := 1

  /** The dirty buffers are those of the blocks in pins. */
  ghost predicate PinnedBy(s: seq<Buf>, pins: set<nat>) {
    && (forall b :: 0 <= b < NBUF <= |s| && s[b].dirty ==> s[b].dev == DEV && s[b].blockno in pins)
    && (forall x :: x in pins ==> exists b :: 0 <= b < NBUF <= |s| && s[b].dirty && Id(s[b]) == (DEV, x))
  }

  /** Buffers that processes which only read hold or wait for, and the blocks that commit() uses. */
  datatype Readers = Readers(bufs: set<nat>, mine: set<nat>)

  /** Readers have none of commit()'s blocks and have dirtied nothing. */
  predicate Reading(s: seq<Buf>, rd: Readers) {
    forall b :: b in rd.bufs ==> b < NBUF <= |s| && !s[b].dirty && !(s[b].dev == DEV && s[b].blockno in rd.mine)
  }

  /** commit() holds the buffers in held; apart from the readers' nobody holds or waits for one. */
  ghost predicate Quiet(c: Cache, held: set<nat>, pins: set<nat>, rd: Readers)
    reads c, c.buf
  {
    && c.Valid() && c.edited == {} && held !! rd.bufs && held <= c.locked <= held + rd.bufs
    && (forall b :: 0 <= b < NBUF && b !in rd.bufs ==> c.pending[b] == 0)
    && (forall b :: b in rd.bufs && b < NBUF ==> b in c.locked || c.pending[b] > 0)
    && Reading(c.buf[..], rd) && PinnedBy(c.buf[..], pins)
  }

  /** The last contents stored for a block. */
  ghost function View(c: Cache, at: nat): Data
    reads c
  {
    Latest(c.init, c.stores, (DEV, at))
  }

  // ---------------------------------------------------------------- how many buffers are pinned

  lemma {:induction false} PinCount(s: seq<Buf>, dirty: set<nat>, pins: set<nat>)
    requires |s| >= NBUF && Unique(s)
    requires forall b :: b in dirty ==> b < NBUF && s[b].dev == DEV && s[b].blockno in pins
    requires forall x :: x in pins ==> exists b :: b in dirty && s[b].blockno == x
    ensures |dirty| == |pins|
  {
    if dirty != {} {
      var b :| b in dirty;
      forall c | c in dirty - {b} ensures s[c].blockno in pins - {s[b].blockno} {
        assert Id(s[c]) != Id(s[b]);
      }
      forall x | x in pins - {s[b].blockno} ensures exists c :: c in dirty - {b} && s[c].blockno == x {
        var c :| c in dirty && s[c].blockno == x;
      }
      PinCount(s, dirty - {b}, pins - {s[b].blockno});
    } else {
      assert pins == {};
    }
  }

  function DirtyOf(s: seq<Buf>): set<nat>
    requires |s| >= NBUF
  {
    set b: nat | b < NBUF && s[b].dirty
  }

  lemma DirtyCount(s: seq<Buf>, pins: set<nat>)
    requires |s| >= NBUF && Unique(s) && PinnedBy(s, pins)
    ensures |DirtyOf(s)| == |pins|
  {
    hide Unique;
    var dirty := DirtyOf(s);
    forall x | x in pins ensures exists b :: b in dirty && s[b].blockno == x {
      var b :| 0 <= b < NBUF && s[b].dirty && Id(s[b]) == (DEV, x);
      assert b in dirty;
    }
    PinCount(s, dirty, pins);
  }

  /** Pinned buffers and readers' buffers are different ones; together they may be all. */
  lemma AllBusy(s: seq<Buf>, pins: set<nat>, rd: Readers)
    requires |s| >= NBUF && Unique(s) && PinnedBy(s, pins) && Reading(s, rd)
    ensures |pins| + |rd.bufs| <= NBUF
    ensures (forall b :: 0 <= b < NBUF ==> s[b].dirty || b in rd.bufs) <==> |pins| + |rd.bufs| == NBUF
  {
    hide Unique, PinnedBy;
    DirtyCount(s, pins);
    var all, busy := Interval(0, NBUF), DirtyOf(s) + rd.bufs;
    IntervalCount(0, NBUF);
    assert DirtyOf(s) !! rd.bufs && |busy| == |pins| + |rd.bufs|;
    assert busy <= all;
    SubsetCount(busy, all);
    if forall b :: 0 <= b < NBUF ==> s[b].dirty || b in rd.bufs {
      assert busy == all;
    } else {
      var b: nat :| b < NBUF && !s[b].dirty && b !in rd.bufs;
      SubsetCount(busy, all - {b});
    }
  }

  // ---------------------------------------------------------------- the steps of commit()

  lemma PinnedSame(s: seq<Buf>, s': seq<Buf>, pins: set<nat>)
    requires PinnedBy(s, pins) && |s| == |s'| >= NBUF
    requires forall b :: 0 <= b < NBUF ==> s'[b].dirty == s[b].dirty && (s[b].dirty ==> Id(s'[b]) == Id(s[b]))
    ensures PinnedBy(s', pins)
  {
    forall x | x in pins ensures exists b :: 0 <= b < NBUF <= |s'| && s'[b].dirty && Id(s'[b]) == (DEV, x) {
      var b :| 0 <= b < NBUF && s[b].dirty && Id(s[b]) == (DEV, x);
      assert s'[b].dirty;
    }
  }

  lemma PinnedLess(s: seq<Buf>, b: nat, buf: Buf, pins: set<nat>)
    requires PinnedBy(s, pins) && |s| >= NBUF && b < NBUF && Unique(s)
    requires s[b].dev == DEV && Id(buf) == Id(s[b]) && !buf.dirty
    ensures PinnedBy(s[b := buf], pins - {s[b].blockno})
  {
    var s', pins' := s[b := buf], pins - {s[b].blockno};
    forall c | 0 <= c < NBUF && s'[c].dirty ensures s'[c].dev == DEV && s'[c].blockno in pins' {
      assert Id(s[c]) != Id(s[b]);
    }
    forall x | x in pins' ensures exists c :: 0 <= c < NBUF <= |s'| && s'[c].dirty && Id(s'[c]) == (DEV, x) {
      var c :| 0 <= c < NBUF && s[c].dirty && Id(s[c]) == (DEV, x);
      assert s'[c].dirty;
    }
  }

  lemma ReadingLess(s: seq<Buf>, b: nat, buf: Buf, rd: Readers)
    requires Reading(s, rd) && b < NBUF <= |s| && b !in rd.bufs
    ensures Reading(s[b := buf], rd)
  {
  }

  /** bread while commit() runs. */
  method Read(c: Cache, at: nat, ghost held: set<nat>, ghost pins: set<nat>, ghost rd: Readers) returns (r: Result)
    requires Quiet(c, held, pins, rd) && at in rd.mine && forall b :: b in held && b < NBUF ==> Id(c.buf[b]) != (DEV, at)
    modifies c, c.buf
    ensures r.Panic? <==> !Cached(old(c.buf[..]), (DEV, at)) && forall b :: 0 <= b < NBUF ==> !Idle(old(c.buf[b]))
    ensures c.disk == old(c.disk) && c.stores == old(c.stores)
    ensures r.Got? ==>
      && Quiet(c, held + {r.b}, pins, rd) && r.b < NBUF && r.b !in held
      && c.buf[r.b].valid && Id(c.buf[r.b]) == (DEV, at) && c.buf[r.b].data == View(c, at)
      && forall b :: 0 <= b < NBUF && b != r.b ==> c.buf[b] == old(c.buf[..])[b]
  {
    hide Links, Recent, Unique, Coherent, Latest, PinnedBy;
    ghost var s := c.buf[..];
    r := c.Bread(DEV, at);
    if r.Got? {
      assert r.b !in rd.bufs;
      PinnedSame(s, c.buf[..], pins);
    }
  }

  /** The buffer is changed and written: it is no longer pinned. */
  method Write(c: Cache, b: nat, data: Data, ghost held: set<nat>, ghost pins: set<nat>, ghost rd: Readers)
    requires Quiet(c, held, pins, rd) && b in held && b < NBUF && c.buf[b].valid && c.buf[b].dev == DEV
    modifies c, c.buf
    ensures Quiet(c, held, pins - {old(c.buf[b].blockno)}, rd)
    ensures c.stores == old(c.stores) + [Store((DEV, old(c.buf[b].blockno)), data)]
    ensures forall d :: 0 <= d < NBUF ==> Id(c.buf[d]) == old(Id(c.buf[d])) && c.buf[d].valid == old(c.buf[d].valid)
  {
    hide Links, Recent, Unique, Coherent, Latest, PinnedBy, Reading;
    ghost var s := c.buf[..];
    ghost var after := s[b].(data := data, dirty := false, valid := true);
    PinnedLess(s, b, after, pins);
    ReadingLess(s, b, after, rd);
    c.Edit(b, data);
    var ok := c.Bwrite(b);
    assert c.buf[..] == s[b := after];
  }

  method Release(c: Cache, b: nat, ghost held: set<nat>, ghost pins: set<nat>, ghost rd: Readers)
    requires Quiet(c, held, pins, rd) && b in held && b < NBUF
    modifies c, c.buf
    ensures Quiet(c, held - {b}, pins, rd) && c.disk == old(c.disk) && c.stores == old(c.stores)
  {
    hide Links, Recent, Unique, Coherent, Latest, PinnedBy;
    ghost var s := c.buf[..];
    var ok := c.Brelse(b);
    PinnedSame(s, c.buf[..], pins);
  }

  /** bread of a block of commit()'s that is not pinned, with no buffer held. */
  lemma ReadNeeds(c: Cache, pins: set<nat>, rd: Readers, at: nat)
    requires Quiet(c, {}, pins, rd) && at in rd.mine && at !in pins
    ensures |pins| + |rd.bufs| <= NBUF
    ensures |pins| + |rd.bufs| == NBUF <==>
            !Cached(c.buf[..], (DEV, at)) && forall b :: 0 <= b < NBUF ==> !Idle(c.buf[b])
  {
    hide Links, Recent, Coherent;
    var s := c.buf[..];
    AllBusy(s, pins, rd);
    forall b | 0 <= b < NBUF ensures s[b] == c.buf[b] && (Idle(s[b]) <==> !s[b].dirty && b !in rd.bufs) { }
    if |pins| + |rd.bufs| == NBUF {
      forall b | 0 <= b < NBUF ensures Id(s[b]) != (DEV, at) { assert s[b].dirty || b in rd.bufs; }
    }
  }

  lemma PinCached(s: seq<Buf>, pins: set<nat>, at: nat)
    requires PinnedBy(s, pins) && |s| >= NBUF && at in pins
    ensures Cached(s, (DEV, at))
  {
  }

  /** write_head: the header is read, changed and written. */
  method WriteHead(c: Cache, start: nat, head: Data, ghost pins: set<nat>, ghost rd: Readers) returns (panicked: bool)
    requires Quiet(c, {}, pins, rd) && start in rd.mine && start !in pins
    modifies c, c.buf
    ensures panicked <==> |pins| + |rd.bufs| == NBUF
    ensures panicked ==> c.disk == old(c.disk) && c.stores == old(c.stores)
    ensures !panicked ==> Quiet(c, {}, pins, rd) && c.stores == old(c.stores) + [Store((DEV, start), head)]
  {
    hide Quiet;
    ReadNeeds(c, pins, rd, start);
    var r := Read(c, start, {}, pins, rd);
    if r.Panic? { return true; }
    assert {} + {r.b} == {r.b};
    Write(c, r.b, head, {r.b}, pins, rd);
    assert pins - {start} == pins;
    Release(c, r.b, {r.b}, pins, rd);
    assert {r.b} - {r.b} == {};
    panicked := false;
  }

  /** One turn of write_log's loop, or of install_trans's: the block log of the log area and a pinned block are
      read, and one is copied over the other. */
  method Copy(c: Cache, log: nat, at: nat, install: bool, ghost pins: set<nat>, ghost rd: Readers) returns (panicked: bool)
    requires Quiet(c, {}, pins, rd) && log in rd.mine && at in rd.mine && log !in pins && at in pins
    modifies c, c.buf
    ensures panicked <==> |pins| + |rd.bufs| == NBUF
    ensures panicked ==> c.disk == old(c.disk) && c.stores == old(c.stores)
    ensures !panicked && !install ==>
      Quiet(c, {}, pins, rd) && c.stores == old(c.stores) + [Store((DEV, log), old(View(c, at)))]
    ensures !panicked && install ==>
      Quiet(c, {}, pins - {at}, rd) && c.stores == old(c.stores) + [Store((DEV, at), old(View(c, log)))]
  {
    hide Quiet;
    ReadNeeds(c, pins, rd, log);
    var l := Read(c, log, {}, pins, rd);
    if l.Panic? { return true; }
    panicked := false;
    assert {} + {l.b} == {l.b};
    assert Cached(c.buf[..], (DEV, at)) by { QuietCached(c, {l.b}, pins, rd, at); }
    var d := Read(c, at, {l.b}, pins, rd);
    ghost var held := {l.b, d.b};
    assert {l.b} + {d.b} == held;
    if install {
      Write(c, d.b, c.buf[l.b].data, held, pins, rd);
      Release(c, l.b, held, pins - {at}, rd);
      Release(c, d.b, held - {l.b}, pins - {at}, rd);
    } else {
      Write(c, l.b, c.buf[d.b].data, held, pins, rd);
      assert pins - {log} == pins;
      Release(c, d.b, held, pins, rd);
      Release(c, l.b, held - {d.b}, pins, rd);
    }
    assert held - {l.b} - {d.b} == {} && held - {d.b} - {l.b} == {};
  }

  lemma QuietCached(c: Cache, held: set<nat>, pins: set<nat>, rd: Readers, at: nat)
    requires Quiet(c, held, pins, rd) && at in pins
    ensures Cached(c.buf[..], (DEV, at))
  {
    PinCached(c.buf[..], pins, at);
  }

  // ---------------------------------------------------------------- commit()

  /** What the blocks hold once the log area has copies of the first t blocks of lh: the others are as before. */
  ghost predicate Copied(init: map<Key, Data>, stores0: seq<Store>, stores: seq<Store>, start: nat, lh: seq<nat>, t: nat)
    requires t <= |lh|
  {
    && (forall x: nat :: !(start <= x <= start + |lh|) ==>
         Latest(init, stores, (DEV, x)) == Latest(init, stores0, (DEV, x)))
    && (forall k :: 0 <= k < t ==> Latest(init, stores, (DEV, start + 1 + k)) == Latest(init, stores0, (DEV, lh[k])))
  }

  lemma CopiedHead(init: map<Key, Data>, stores0: seq<Store>, stores: seq<Store>, start: nat, lh: seq<nat>, t: nat,
                   head: Data)
    requires t <= |lh| && Copied(init, stores0, stores, start, lh, t)
    ensures Copied(init, stores0, stores + [Store((DEV, start), head)], start, lh, t)
  {
    hide Latest;
    var st := Store((DEV, start), head);
    forall x: nat ensures x != start ==> Latest(init, stores + [st], (DEV, x)) == Latest(init, stores, (DEV, x)) {
      LatestNext(init, stores, st, (DEV, x));
    }
  }

  lemma CopiedLog(init: map<Key, Data>, stores0: seq<Store>, stores: seq<Store>, start: nat, lh: seq<nat>, t: nat)
    requires t < |lh| && Copied(init, stores0, stores, start, lh, t) && !(start <= lh[t] <= start + |lh|)
    ensures
      var st := Store((DEV, start + 1 + t), Latest(init, stores, (DEV, lh[t])));
      Copied(init, stores0, stores + [st], start, lh, t + 1)
  {
    hide Latest;
    var st := Store((DEV, start + 1 + t), Latest(init, stores, (DEV, lh[t])));
    var stores' := stores + [st];
    forall x: nat | !(start <= x <= start + |lh|)
      ensures Latest(init, stores', (DEV, x)) == Latest(init, stores0, (DEV, x))
    {
      LatestNext(init, stores, st, (DEV, x));
    }
    forall k | 0 <= k < t + 1
      ensures Latest(init, stores', (DEV, start + 1 + k)) == Latest(init, stores0, (DEV, lh[k]))
    {
      LatestNext(init, stores, st, (DEV, start + 1 + k));
    }
  }

  lemma CopiedInstall(init: map<Key, Data>, stores0: seq<Store>, stores: seq<Store>, start: nat, lh: seq<nat>, t: nat)
    requires t < |lh| && Copied(init, stores0, stores, start, lh, |lh|) && !(start <= lh[t] <= start + |lh|)
    ensures
      var st := Store((DEV, lh[t]), Latest(init, stores, (DEV, start + 1 + t)));
      Copied(init, stores0, stores + [st], start, lh, |lh|)
  {
    hide Latest;
    var st := Store((DEV, lh[t]), Latest(init, stores, (DEV, start + 1 + t)));
    forall x: nat
      ensures Latest(init, stores + [st], (DEV, x)) == if x == lh[t] then st.data else Latest(init, stores, (DEV, x))
    {
      LatestNext(init, stores, st, (DEV, x));
    }
  }

  function Pins(lh: seq<nat>, t: nat): set<nat>
    requires t <= |lh|
  {
    set x | x in lh[t..]
  }

  lemma {:induction false} PinsCount(lh: seq<nat>, t: nat)
    requires t <= |lh| && WAL.Distinct(lh)
    ensures |Pins(lh, t)| == |lh| - t && (t < |lh| ==> lh[t] in Pins(lh, t) && Pins(lh, t) - {lh[t]} == Pins(lh, t + 1))
    decreases |lh| - t
  {
    if t < |lh| {
      PinsCount(lh, t + 1);
      assert lh[t..] == [lh[t]] + lh[t + 1..];
      assert Pins(lh, t) == Pins(lh, t + 1) + {lh[t]};
      assert lh[t] !in lh[t + 1..];
    }
  }

  /** lh is what log_write recorded: distinct blocks outside the log area, all pinned. */
  ghost predicate Recorded(start: nat, lh: seq<nat>) {
    WAL.Distinct(lh) && forall k :: 0 <= k < |lh| ==> !(start <= lh[k] <= start + |lh|)
  }

  /** The blocks that commit() reads and writes. */
  function Mine(start: nat, lh: seq<nat>): set<nat> {
    Pins(lh, 0) + Interval(start, start + |lh| + 1)
  }

  lemma LogMine(start: nat, lh: seq<nat>, t: nat, k: nat)
    requires Recorded(start, lh) && t <= |lh| && k <= |lh|
    ensures start + k in Mine(start, lh) && start + k !in Pins(lh, t) && (k < |lh| ==> lh[k] in Mine(start, lh))
  {
    if k < |lh| { assert lh[0..][k] == lh[k]; }
  }

  lemma PinsFit(c: Cache, pins: set<nat>, rd: Readers)
    requires Quiet(c, {}, pins, rd)
    ensures |pins| + |rd.bufs| <= NBUF
  {
    AllBusy(c.buf[..], pins, rd);
  }

  /** The pinned blocks go to the log area.  The first read panics exactly when every buffer is pinned or
      in a reader's hands. */
  method WriteLog(c: Cache, start: nat, lh: seq<nat>, ghost rd: Readers) returns (panicked: bool)
    requires Quiet(c, {}, Pins(lh, 0), rd) && Recorded(start, lh) && rd.mine == Mine(start, lh) && lh != []
    modifies c, c.buf
    ensures |lh| + |rd.bufs| <= NBUF && (panicked <==> |lh| + |rd.bufs| == NBUF)
    ensures panicked ==> c.disk == old(c.disk)
    ensures !panicked ==> Quiet(c, {}, Pins(lh, 0), rd) && Copied(c.init, old(c.stores), c.stores, start, lh, |lh|)
  {
    hide Quiet, Copied, Latest, Mine;
    PinsCount(lh, 0);
    PinsFit(c, Pins(lh, 0), rd);
    panicked := false;
    CopiedNone(c.init, c.stores, start, lh);
    var tail := 0;
    while tail < |lh| && !panicked
      invariant 0 <= tail <= |lh|
      invariant panicked ==> |lh| + |rd.bufs| == NBUF && tail == 0 && c.disk == old(c.disk)
      invariant !panicked ==>
        && Quiet(c, {}, Pins(lh, 0), rd) && Copied(c.init, old(c.stores), c.stores, start, lh, tail)
        && (tail == 0 ==> c.disk == old(c.disk)) && (tail > 0 ==> |lh| + |rd.bufs| != NBUF)
      decreases |lh| - tail, !panicked
    {
      LogMine(start, lh, 0, tail + 1);
      LogMine(start, lh, 0, tail);
      ghost var stores1 := c.stores;
      panicked := Copy(c, start + tail + 1, lh[tail], false, Pins(lh, 0), rd);
      if !panicked {
        CopiedLog(c.init, old(c.stores), stores1, start, lh, tail);
        tail := tail + 1;
      }
    }
  }

  lemma CopiedNone(init: map<Key, Data>, stores: seq<Store>, start: nat, lh: seq<nat>)
    ensures Copied(init, stores, stores, start, lh, 0)
  {
  }

  /** install_trans: every block of lh goes home and is no longer pinned. */
  method InstallTrans(c: Cache, start: nat, lh: seq<nat>, ghost stores0: seq<Store>, ghost rd: Readers)
    requires Quiet(c, {}, Pins(lh, 0), rd) && Recorded(start, lh) && rd.mine == Mine(start, lh)
    requires |lh| + |rd.bufs| < NBUF && Copied(c.init, stores0, c.stores, start, lh, |lh|)
    modifies c, c.buf
    ensures Quiet(c, {}, Pins(lh, |lh|), rd) && Copied(c.init, stores0, c.stores, start, lh, |lh|)
  {
    hide Quiet, Copied, Latest, Mine;
    for tail := 0 to |lh|
      invariant Quiet(c, {}, Pins(lh, tail), rd) && Copied(c.init, stores0, c.stores, start, lh, |lh|)
    {
      PinsCount(lh, tail);
      LogMine(start, lh, tail, tail + 1);
      LogMine(start, lh, tail, tail);
      ghost var stores1 := c.stores;
      var panicked := Copy(c, start + tail + 1, lh[tail], true, Pins(lh, tail), rd);
      CopiedInstall(c.init, stores0, stores1, start, lh, tail);
    }
  }

  /** commit(): the read of a log block finds no buffer, and the kernel panics with nothing on the disk, exactly
      when all NBUF buffers are pinned or in readers' hands.  Otherwise every block of lh reaches its home, and
      nothing stays pinned. */
  method Commit(c: Cache, start: nat, lh: seq<nat>, head: Data, clear: Data, ghost rd: Readers) returns (panicked: bool)
    requires Quiet(c, {}, Pins(lh, 0), rd) && Recorded(start, lh) && rd.mine == Mine(start, lh)
    modifies c, c.buf
    ensures panicked <==> lh != [] && |lh| + |rd.bufs| == NBUF
    ensures panicked ==> c.disk == old(c.disk)
    ensures !panicked ==>
      && Quiet(c, {}, {}, rd)
      && forall x: nat :: !(start <= x <= start + |lh|) ==> Bcache.Get(c.disk, (DEV, x)) == old(View(c, x))
  {
    hide Quiet, Copied, Latest, Mine;
    panicked := false;
    if |lh| > 0 {
      panicked := WriteLog(c, start, lh, rd);
      if panicked { return; }
      PinsCount(lh, 0);
      LogMine(start, lh, 0, 0);
      CopiedHead(c.init, old(c.stores), c.stores, start, lh, |lh|, head);
      panicked := WriteHead(c, start, head, Pins(lh, 0), rd);
      InstallTrans(c, start, lh, old(c.stores), rd);
      PinsCount(lh, |lh|);
      CopiedHead(c.init, old(c.stores), c.stores, start, lh, |lh|, clear);
      panicked := WriteHead(c, start, clear, Pins(lh, |lh|), rd);
    } else {
      CopiedNone(c.init, c.stores, start, lh);
    }
    assert Pins(lh, |lh|) == {};
    OnDisk(c, old(c.stores), start, lh, rd);
  }

  /** With nothing pinned the disk holds the last contents stored. */
  lemma OnDisk(c: Cache, stores0: seq<Store>, start: nat, lh: seq<nat>, rd: Readers)
    requires Quiet(c, {}, {}, rd) && Copied(c.init, stores0, c.stores, start, lh, |lh|)
    ensures forall x: nat :: !(start <= x <= start + |lh|) ==>
      Bcache.Get(c.disk, (DEV, x)) == Latest(c.init, stores0, (DEV, x))
  {
    forall x: nat | !(start <= x <= start + |lh|)
      ensures Bcache.Get(c.disk, (DEV, x)) == Latest(c.init, stores0, (DEV, x))
    {
      assert NoneDirty(c.buf[..], (DEV, x));
    }
  }

  // ---------------------------------------------------------------- no size of the log avoids both panics

  /** end_op has handed n blocks to commit(). */
  predicate Commits(o: GC.Outcome, n: nat) {
    o.Moved? && o.state.phase == GC.Commit(0) && |o.state.lh| == n
  }

  lemma EndsRun(g: WAL.Geometry, d: WAL.Disk, fill: seq<GC.Action>, n: nat)
    requires LogReservation.Budgeted(g, GC.Boot(d), WAL.MAXOPBLOCKS, fill)
    requires
      var o := GC.Run(g, GC.Boot(d), fill);
      o.Moved? && LogReservation.Filled(g, d, o.state, 3, WAL.MAXOPBLOCKS, n)
    ensures
      var run := fill + [GC.End(0)] + [GC.End(1)] + [GC.End(2)];
      LogReservation.Budgeted(g, GC.Boot(d), WAL.MAXOPBLOCKS, run) && Commits(GC.Run(g, GC.Boot(d), run), n)
  {
    hide GC.Run, LogReservation.Budgeted, GC.Boot;
    var m, b := WAL.MAXOPBLOCKS, GC.Boot(d);
    var s0 := GC.Run(g, b, fill).state;
    LogReservation.RunMore(g, b, m, fill, s0, GC.End(0));
    var s1 := GC.DoEnd(s0, 0).state;
    LogReservation.RunMore(g, b, m, fill + [GC.End(0)], s1, GC.End(1));
    var s2 := GC.DoEnd(s1, 1).state;
    LogReservation.RunMore(g, b, m, fill + [GC.End(0)] + [GC.End(1)], s2, GC.End(2));
  }

  /** Calls that keep to their reservations hand n blocks to commit() in some run exactly when the log area has
      a header and room for n.  So in the log that mkfs makes they hand over one block fewer than there are
      buffers, and one reader's buffer is enough for commit() to panic. */
  lemma HandsOver(g: WAL.Geometry, d: WAL.Disk, n: nat)
    requires WAL.Clean(g, d) && g.start + g.size + WAL.LOGSIZE <= |d| && n <= WAL.LOGSIZE
    ensures n < g.size <==>
            exists run :: LogReservation.Budgeted(g, GC.Boot(d), WAL.MAXOPBLOCKS, run)
                          && Commits(GC.Run(g, GC.Boot(d), run), n)
  {
    hide GC.Run, LogReservation.Budgeted, LogReservation.Filled;
    var m := WAL.MAXOPBLOCKS;
    if n < g.size {
      LogReservation.FillingRuns(g, d, 3, m, n, d[0]);
      EndsRun(g, d, LogReservation.Filling(g, 3, m, n, d[0]), n);
    } else {
      forall run | GC.Run(g, GC.Boot(d), run).Moved? ensures !Commits(GC.Run(g, GC.Boot(d), run), n) {
        LogHolds(g, d, run, n);
      }
    }
  }

  lemma LogHolds(g: WAL.Geometry, d: WAL.Disk, run: seq<GC.Action>, n: nat)
    requires WAL.Clean(g, d) && g.size <= n && GC.Run(g, GC.Boot(d), run).Moved?
    ensures !Commits(GC.Run(g, GC.Boot(d), run), n)
  {
    GC.RunKeeps(g, GC.Boot(d), run);
  }

  /** Even with no reader about, a log of any size has a run that ends in the panic of log_write or in that of
      commit(). */
  lemma EitherPanic(g: WAL.Geometry, d: WAL.Disk)
    requires WAL.Clean(g, d) && g.start + g.size + WAL.LOGSIZE <= |d|
    ensures exists run :: LogReservation.Budgeted(g, GC.Boot(d), WAL.MAXOPBLOCKS, run)
                          && var o := GC.Run(g, GC.Boot(d), run); o.Panicked? || Commits(o, NBUF)
  {
    hide GC.Run, LogReservation.Budgeted;
    if g.size > WAL.LOGSIZE { HandsOver(g, d, NBUF); } else { LogReservation.SmallLogPanics(g, d); }
  }
}
