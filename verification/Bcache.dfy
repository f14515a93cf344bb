/**
  The buffer cache of bio.c at the granularity of its locks: bget looks up or recycles under
  bcache.lock, the buffer's sleep lock is taken when it is free, iderw copies between buffer and
  disk, log_write pins, and brelse drops the sleep lock and then, under bcache.lock, the reference.
  Any interleaving of callers is a sequence of calls of the methods below.
 */
module Bcache {
  import opened BufferRing

  /** MAXOPBLOCKS * 3 buffers; the list head stands after them. */
  const NBUF: nat := 30

  type Key = (nat, nat)

  /** One store: a bwrite or a log_write of these contents for this block. */
  datatype Store = Store(key: Key, data: Data)

  function Id(b: Buf): Key { (b.dev, b.blockno) }

  const ZERO: Data := []

  function Get(disk: map<Key, Data>, k: Key): Data {
    if k in disk then disk[k] else ZERO
  }

  /** The last contents stored for k, or else those of the initial disk. */
  function Latest(init: map<Key, Data>, stores: seq<Store>, k: Key): Data {
    if stores == [] then Get(init, k)
    else
      var last := stores[|stores| - 1];
      if last.key == k then last.data else Latest(init, stores[..|stores| - 1], k)
  }

  lemma LatestNext(init: map<Key, Data>, stores: seq<Store>, st: Store, k: Key)
    ensures Latest(init, stores + [st], k) == if st.key == k then st.data else Latest(init, stores, k)
  {
  }

  // ---------------------------------------------------------------- What every step keeps

  /** No two buffers hold the same block of a device other than 0. */
  predicate Unique(s: seq<Buf>) {
    forall b, c :: 0 <= b < NBUF <= |s| && 0 <= c < NBUF && s[b].dev != 0 && Id(s[b]) == Id(s[c]) ==> b == c
  }

  /** No buffer of k awaits its transaction. */
  predicate NoneDirty(s: seq<Buf>, k: Key) {
    forall b :: 0 <= b < NBUF <= |s| && Id(s[b]) == k ==> !s[b].dirty
  }

  /** A valid buffer that is not being changed holds the last contents stored; so does the disk, for undirtied blocks. */
  ghost predicate Coherent(s: seq<Buf>, edited: set<nat>, disk: map<Key, Data>, init: map<Key, Data>, stores: seq<Store>) {
    && (forall b :: 0 <= b < NBUF <= |s| ==> (s[b].dirty ==> s[b].valid))
    && (forall b :: 0 <= b < NBUF <= |s| && s[b].dev != 0 && s[b].valid && b !in edited
          ==> s[b].data == Latest(init, stores, Id(s[b])))
    && (forall k: Key :: k.0 != 0 && NoneDirty(s, k) ==> Get(disk, k) == Latest(init, stores, k))
  }

  /** refcnt counts the holder of the sleep lock and every caller that waits for it or is about to let go. */
  predicate Counted(s: seq<Buf>, locked: set<nat>, edited: set<nat>, pending: seq<nat>) {
    && |pending| == NBUF && edited <= locked
    && (forall b :: 0 <= b < NBUF <= |s| ==> s[b].refcnt == pending[b] + if b in locked then 1 else 0)
  }

  /** The list runs through all buffers, the later released the nearer to the head. */
  predicate Recent(o: seq<nat>, when: seq<nat>, clock: nat) {
    && |o| == NBUF && |when| == NBUF
    && (forall i :: 0 <= i < NBUF ==> o[i] < NBUF && when[o[i]] < clock)
    && (forall b :: 0 <= b < NBUF ==> b in o)
    && (forall i, j :: 0 <= i < j < NBUF ==> when[o[i]] > when[o[j]])
  }

  /** A buffer bget may recycle. */
  predicate Idle(b: Buf) {
    b.refcnt == 0 && !b.dirty
  }

  function Moved(o: seq<nat>, k: nat): seq<nat>
    requires k < |o|
  {
    [o[k]] + Without(o, k)
  }

  /** A buffer whose last reference goes becomes the most recent one; the others keep their order. */
  lemma RecentMoved(o: seq<nat>, when: seq<nat>, clock: nat, k: nat)
    requires Recent(o, when, clock) && k < NBUF
    ensures Recent(Moved(o, k), when[o[k] := clock], clock + 1)
  {
    var o', when' := Moved(o, k), when[o[k] := clock];
    forall b | 0 <= b < NBUF ensures b in o' {
      assert b in o;
      var i :| 0 <= i < |o| && o[i] == b;
      assert i != k ==> o'[if i < k then i + 1 else i] == b;
      assert i == k ==> o'[0] == b;
    }
    forall i | 0 < i < NBUF
      ensures o'[i] == o[if i <= k then i - 1 else i] && o'[i] != o[k] && when'[o'[i]] == when[o'[i]] < clock
    {
      var j := if i <= k then i - 1 else i;
      assert o'[i] == o[j];
      assert if j < k then when[o[j]] > when[o[k]] else when[o[k]] > when[o[j]];
    }
  }

  lemma StoreKeeps(s: seq<Buf>, b: nat, buf: Buf, edited: set<nat>, disk: map<Key, Data>, disk': map<Key, Data>,
                   init: map<Key, Data>, stores: seq<Store>)
    requires |s| == NBUF + 1 && b < NBUF && Unique(s) && Coherent(s, edited, disk, init, stores)
    requires Id(buf) == Id(s[b]) && buf.valid
    requires if buf.dirty then disk' == disk else disk' == disk[Id(buf) := buf.data]
    ensures Unique(s[b := buf])
    ensures Coherent(s[b := buf], edited - {b}, disk', init, stores + [Store(Id(buf), buf.data)])
  {
    var s', st := s[b := buf], Store(Id(buf), buf.data);
    var stores' := stores + [st];
    forall c | 0 <= c < NBUF && s'[c].dev != 0 && s'[c].valid && c !in edited - {b}
      ensures s'[c].data == Latest(init, stores', Id(s'[c]))
    {
      LatestNext(init, stores, st, Id(s'[c]));
    }
    forall k: Key | k.0 != 0 && NoneDirty(s', k) ensures Get(disk', k) == Latest(init, stores', k) {
      LatestNext(init, stores, st, k);
      if k != Id(buf) {
        forall c | 0 <= c < NBUF && Id(s[c]) == k ensures !s[c].dirty { assert s'[c] == s[c]; }
        assert NoneDirty(s, k);
      } else {
        assert !s'[b].dirty;
      }
    }
  }

  /** The same blocks with the same contents. */
  predicate SameContents(s: seq<Buf>, s': seq<Buf>) {
    && |s| == |s'|
    && forall b :: 0 <= b < NBUF <= |s| ==>
         s'[b] == s[b].(refcnt := s'[b].refcnt, next := s'[b].next, prev := s'[b].prev)
  }

  lemma SameKeeps(s: seq<Buf>, s': seq<Buf>, edited: set<nat>, disk: map<Key, Data>, init: map<Key, Data>, stores: seq<Store>)
    requires |s| == NBUF + 1 && Unique(s) && Coherent(s, edited, disk, init, stores) && SameContents(s, s')
    ensures Unique(s') && Coherent(s', edited, disk, init, stores)
  {
  }

  predicate Cached(s: seq<Buf>, k: Key) {
    exists c :: 0 <= c < NBUF <= |s| && Id(s[c]) == k
  }

  function Fresh(b: Buf, k: Key): Buf {
    b.(dev := k.0, blockno := k.1, valid := false, dirty := false, refcnt := 1)
  }

  /** Recycling an idle buffer for a block not cached forgets nothing. */
  lemma RecycleKeeps(s: seq<Buf>, b: nat, k: Key, edited: set<nat>, disk: map<Key, Data>, init: map<Key, Data>, stores: seq<Store>)
    requires |s| == NBUF + 1 && b < NBUF && Unique(s) && Coherent(s, edited, disk, init, stores)
    requires Idle(s[b]) && !Cached(s, k)
    ensures Unique(s[b := Fresh(s[b], k)]) && Coherent(s[b := Fresh(s[b], k)], edited, disk, init, stores)
  {
  }

  function Filled(b: Buf, disk: map<Key, Data>): Buf {
    b.(valid := true, data := Get(disk, Id(b)))
  }

  /** What iderw reads into a buffer that was not valid is the last contents stored. */
  lemma FillKeeps(s: seq<Buf>, b: nat, edited: set<nat>, disk: map<Key, Data>, init: map<Key, Data>, stores: seq<Store>)
    requires |s| == NBUF + 1 && b < NBUF && Unique(s) && Coherent(s, edited, disk, init, stores) && !s[b].valid
    ensures Unique(s[b := Filled(s[b], disk)]) && Coherent(s[b := Filled(s[b], disk)], edited, disk, init, stores)
  {
  }

  lemma EditKeeps(s: seq<Buf>, b: nat, d: Data, edited: set<nat>, disk: map<Key, Data>, init: map<Key, Data>, stores: seq<Store>)
    requires |s| == NBUF + 1 && b < NBUF && Unique(s) && Coherent(s, edited, disk, init, stores)
    ensures Unique(s[b := s[b].(data := d)])
    ensures Coherent(s[b := s[b].(data := d)], edited + {b}, disk, init, stores)
  {
  }

  lemma LinksSame(s: seq<Buf>, s': seq<Buf>, o: seq<nat>)
    requires Links(s, NBUF, o) && |s| == |s'|
    requires forall i :: 0 <= i < |s| ==> s'[i].next == s[i].next && s'[i].prev == s[i].prev
    ensures Links(s', NBUF, o)
  {
    forall i | 0 <= i <= |o| ensures Linked(s', NBUF, o, i) { LinksAt(s, NBUF, o, i); }
  }

  /** n - 1, n - 2, ..., 0 */
  function Down(n: nat): seq<nat> {
    if n == 0 then [] else [n - 1] + Down(n - 1)
  }

  lemma {:induction false} DownIs(n: nat)
    ensures |Down(n)| == n
    ensures forall i :: 0 <= i < n ==> Down(n)[i] == n - 1 - i
    ensures forall b :: 0 <= b < n <==> b in Down(n)
  {
    if n > 0 { DownIs(n - 1); }
  }

  lemma DownRecent()
    ensures Recent(Down(NBUF), seq(NBUF, i => i), NBUF)
  {
    DownIs(NBUF);
  }

  lemma LinksNone(s: seq<Buf>)
    requires |s| == NBUF + 1 && s[NBUF].next == NBUF && s[NBUF].prev == NBUF
    ensures Links(s, NBUF, [])
  {
  }

  predicate Zeroed(b: Buf) {
    b.dev == 0 && b.blockno == 0 && b.refcnt == 0 && !b.valid && !b.dirty
  }

  lemma ZeroedCoherent(s: seq<Buf>, d: map<Key, Data>)
    requires |s| == NBUF + 1 && forall i :: 0 <= i <= NBUF ==> Zeroed(s[i])
    ensures Unique(s) && Coherent(s, {}, d, d, [])
  {
  }

  datatype Result = Panic | Got(b: nat)

  class Cache {
    const buf: array<Buf>
    var disk: map<Key, Data>
    var locked: set<nat>
    ghost var edited: set<nat>
    ghost var pending: seq<nat>
    ghost var order: seq<nat>
    ghost var when: seq<nat>
    ghost var clock: nat
    ghost const init: map<Key, Data>
    ghost var stores: seq<Store>

    ghost predicate Valid()
      reads this, buf
    {
      && buf.Length == NBUF + 1
      && Links(buf[..], NBUF, order) && Recent(order, when, clock)
      && Unique(buf[..]) && Coherent(buf[..], edited, disk, init, stores)
      && Counted(buf[..], locked, edited, pending)
    }

    /** binit over zeroed buffers: the last buffer ends up first. */
    constructor (d: map<Key, Data>)
      ensures Valid() && fresh(buf) && disk == d && init == d && stores == [] && locked == {} && edited == {}
      ensures order == Down(NBUF)
    {
      buf := new Buf[NBUF + 1](i => Buf(0, 0, 0, false, false, ZERO, 0, 0));
      disk, init, locked, edited, stores := d, d, {}, {}, [];
      pending := seq(NBUF, i => 0);
      when := seq(NBUF, i => i);
      clock := NBUF;
      order := Down(0);
      new;
      LinkAll();
      DownRecent();
      ZeroedCoherent(buf[..], d);
    }

    method LinkAll()
      requires buf.Length == NBUF + 1 && order == [] && forall i :: 0 <= i <= NBUF ==> Zeroed(buf[i])
      modifies buf, `order
      ensures order == Down(NBUF) && Links(buf[..], NBUF, order)
      ensures forall i :: 0 <= i <= NBUF ==> Zeroed(buf[i])
    {
      hide Links;
      buf[NBUF] := buf[NBUF].(prev := NBUF, next := NBUF);
      LinksNone(buf[..]);
      var b := 0;
      while b < NBUF
        invariant 0 <= b <= NBUF && order == Down(b) && Links(buf[..], NBUF, order)
        invariant forall i :: 0 <= i <= NBUF ==> Zeroed(buf[i])
      {
        DownIs(b);
        PushKeeps(buf[..], NBUF, order, b);
        ghost var s := buf[..];
        assert s[NBUF] == buf[NBUF];
        PushFront(b);
        forall i | 0 <= i <= NBUF ensures Zeroed(buf[i]) { assert buf[i] == buf[..][i] && Zeroed(s[i]); }
        order := [b] + order;
        b := b + 1;
      }
    }

    /** The first loop of bget: the buffer of this block, if there is one. */
    method Lookup(dev: nat, blockno: nat) returns (b: nat)
      requires Valid()
      ensures b <= NBUF
      ensures if b == NBUF then !Cached(buf[..], (dev, blockno)) else Id(buf[b]) == (dev, blockno)
    {
      ghost var i := 0;
      LinksAt(buf[..], NBUF, order, 0);
      b := buf[NBUF].next;
      while b != NBUF
        invariant 0 <= i <= NBUF && b == At(NBUF, order, i + 1)
        invariant forall j :: 0 <= j < i ==> Id(buf[order[j]]) != (dev, blockno)
        decreases NBUF - i
      {
        if buf[b].dev == dev && buf[b].blockno == blockno { return; }
        LinksAt(buf[..], NBUF, order, i + 1);
        i := i + 1;
        b := buf[b].next;
      }
      forall c | 0 <= c < NBUF ensures Id(buf[..][c]) != (dev, blockno) {
        assert c in order;
      }
    }

    /** The second loop of bget: the idle buffer nearest the tail is the one released longest ago. */
    method LeastRecent() returns (b: nat)
      requires Valid()
      ensures b <= NBUF
      ensures b == NBUF ==> forall c :: 0 <= c < NBUF ==> !Idle(buf[c])
      ensures b < NBUF ==> Idle(buf[b]) && forall c :: 0 <= c < NBUF && Idle(buf[c]) ==> when[b] <= when[c]
    {
      ghost var i := NBUF;
      LinksAt(buf[..], NBUF, order, NBUF);
      b := buf[NBUF].prev;
      while b != NBUF
        invariant 0 <= i <= NBUF && b == At(NBUF, order, i)
        invariant forall j :: i <= j < NBUF ==> !Idle(buf[order[j]])
        decreases i
      {
        if buf[b].refcnt == 0 && !buf[b].dirty {
          forall c | 0 <= c < NBUF && Idle(buf[c]) ensures when[b] <= when[c] {
            assert c in order;
          }
          return;
        }
        LinksAt(buf[..], NBUF, order, i - 1);
        i := i - 1;
        b := buf[b].prev;
      }
      forall c | 0 <= c < NBUF ensures !Idle(buf[c]) {
        assert c in order;
      }
    }

    /** bget, up to the release of bcache.lock: the caller holds a reference and must take the sleep lock. */
    method Bget(dev: nat, blockno: nat) returns (r: Result)
      requires Valid()
      modifies this, buf
      ensures Valid() && SameButRefs(old(disk), old(locked), old(edited), old(stores)) && SameOrder(old(order), old(when), old(clock))
      ensures r.Panic? <==> !Cached(old(buf[..]), (dev, blockno)) && forall c :: 0 <= c < NBUF ==> !Idle(old(buf[c]))
      ensures r.Panic? ==> buf[..] == old(buf[..]) && pending == old(pending)
      ensures r.Got? ==> r.b < NBUF && pending == old(pending)[r.b := old(pending)[r.b] + 1]
      ensures r.Got? && Cached(old(buf[..]), (dev, blockno)) ==>
                && Id(old(buf[..])[r.b]) == (dev, blockno)
                && buf[..] == old(buf[..])[r.b := old(buf[..])[r.b].(refcnt := old(buf[..])[r.b].refcnt + 1)]
      ensures r.Got? && !Cached(old(buf[..]), (dev, blockno)) ==>
                && Idle(old(buf[..])[r.b])
                && (forall c :: 0 <= c < NBUF && Idle(old(buf[..])[c]) ==> when[r.b] <= when[c])
                && buf[..] == old(buf[..])[r.b := Fresh(old(buf[..])[r.b], (dev, blockno))]
    {
      hide Links, Recent, Unique, Coherent;
      ghost var s := buf[..];
      var b := Lookup(dev, blockno);
      if b != NBUF {
        assert Id(s[b]) == (dev, blockno);
        buf[b] := buf[b].(refcnt := buf[b].refcnt + 1);
        ghost var s' := s[b := s[b].(refcnt := s[b].refcnt + 1)];
        assert buf[..] == s';
        SameKeeps(s, s', edited, disk, init, stores);
        LinksSame(s, s', order);
      } else {
        b := LeastRecent();
        if b == NBUF { return Panic; }
        buf[b] := buf[b].(dev := dev, blockno := blockno, valid := false, dirty := false, refcnt := 1);
        ghost var s' := s[b := Fresh(s[b], (dev, blockno))];
        assert buf[..] == s';
        assert Idle(s[b]);
        RecycleKeeps(s, b, (dev, blockno), edited, disk, init, stores);
        LinksSame(s, s', order);
      }
      pending := pending[b := pending[b] + 1];
      r := Got(b);
    }

    /** Everything but buffers and references is as given. */
    ghost predicate SameButRefs(disk0: map<Key, Data>, locked0: set<nat>, edited0: set<nat>, stores0: seq<Store>)
      reads this
    {
      disk == disk0 && locked == locked0 && edited == edited0 && stores == stores0
    }

    ghost predicate SameOrder(order0: seq<nat>, when0: seq<nat>, clock0: nat)
      reads this
    {
      order == order0 && when == when0 && clock == clock0
    }

    /** acquiresleep by a caller whose bget counted it, once the lock is free. */
    method Acquire(b: nat)
      requires Valid() && b < NBUF && pending[b] > 0 && b !in locked
      modifies `locked, `pending
      ensures Valid() && locked == old(locked) + {b} && pending == old(pending)[b := old(pending)[b] - 1]
      ensures b !in edited
    {
      locked := locked + {b};
      pending := pending[b := pending[b] - 1];
    }

    /** The rest of bread: read the block unless the buffer is valid.  The holder sees the last contents stored. */
    method Fill(b: nat)
      requires Valid() && b in locked && b < NBUF
      modifies buf, `disk
      ensures Valid() && disk == old(disk) && buf[..] == old(buf[..])[b := buf[b]]
      ensures buf[b].valid && Id(buf[b]) == old(Id(buf[b])) && buf[b].dirty == old(buf[b].dirty)
      ensures buf[b].refcnt == old(buf[b].refcnt)
      ensures buf[b].dev != 0 && b !in edited ==> buf[b].data == Latest(init, stores, Id(buf[b]))
    {
      ghost var s := buf[..];
      if !buf[b].valid {
        FillKeeps(s, b, edited, disk, init, stores);
        Iderw(b);
        ghost var s' := s[b := Filled(s[b], disk)];
        assert buf[..] == s';
        LinksSame(s, s', order);
      }
      assert buf[..][b] == buf[b];
    }

    /** iderw: write a dirty buffer out, or read one that is not valid in. */
    method Iderw(b: nat)
      requires b < NBUF < buf.Length && (buf[b].dirty || !buf[b].valid)
      modifies buf, `disk
      ensures buf[..] == old(buf[..])[b := buf[b]]
      ensures if old(buf[b]).dirty then
                buf[b] == old(buf[b]).(dirty := false, valid := true) && disk == old(disk)[Id(buf[b]) := buf[b].data]
              else buf[b] == Filled(old(buf[b]), disk) && disk == old(disk)
    {
      if buf[b].dirty {
        disk := disk[(buf[b].dev, buf[b].blockno) := buf[b].data];
        buf[b] := buf[b].(dirty := false, valid := true);
      } else {
        buf[b] := buf[b].(data := Get(disk, (buf[b].dev, buf[b].blockno)), valid := true);
      }
    }

    /** bread when no one holds the block: the buffer is locked and holds the last contents stored. */
    method Bread(dev: nat, blockno: nat) returns (r: Result)
      requires Valid()
      requires forall b :: b in locked && b < NBUF ==> Id(buf[b]) != (dev, blockno)
      modifies this, buf
      ensures Valid() && disk == old(disk) && stores == old(stores) && edited == old(edited)
      ensures r.Panic? <==> !Cached(old(buf[..]), (dev, blockno)) && forall c :: 0 <= c < NBUF ==> !Idle(old(buf[c]))
      ensures r.Got? ==> && r.b < NBUF && locked == old(locked) + {r.b} && r.b !in old(locked)
                         && buf[r.b].valid && Id(buf[r.b]) == (dev, blockno)
      ensures r.Got? && dev != 0 ==> buf[r.b].data == Latest(init, stores, (dev, blockno))
      ensures r.Got? ==> pending == old(pending) && forall c :: 0 <= c < NBUF && c != r.b ==> buf[c] == old(buf[..])[c]
      ensures r.Got? ==> buf[r.b].dirty == old(buf[..])[r.b].dirty
      ensures r.Got? ==> Id(old(buf[..])[r.b]) == (dev, blockno) || Idle(old(buf[..])[r.b])
    {
      hide Links, Recent, Unique, Coherent, Latest, Cached;
      r := Bget(dev, blockno);
      if r.Got? {
        assert Id(buf[..][r.b]) == (dev, blockno);
        assert r.b !in locked;
        Acquire(r.b);
        Fill(r.b);
        assert forall c :: 0 <= c < NBUF ==> buf[c] == buf[..][c];
      }
    }

    /** The holder changes the contents in memory. */
    method Edit(b: nat, d: Data)
      requires Valid() && b in locked && b < NBUF && buf[b].valid
      modifies buf, `edited
      ensures Valid() && buf[..] == old(buf[..])[b := old(buf[b]).(data := d)] && edited == old(edited) + {b}
    {
      ghost var s := buf[..];
      EditKeeps(s, b, d, edited, disk, init, stores);
      buf[b] := buf[b].(data := d);
      ghost var s' := s[b := s[b].(data := d)];
      assert buf[..] == s';
      LinksSame(s, s', order);
      edited := edited + {b};
    }

    /** bwrite: the contents go to the disk; without the lock it panics. */
    method Bwrite(b: nat) returns (ok: bool)
      requires Valid() && b < NBUF
      modifies buf, `disk, `edited, `stores
      ensures Valid() && (ok <==> b in locked)
      ensures ok ==> && buf[..] == old(buf[..])[b := old(buf[b]).(valid := true, dirty := false)]
                     && disk == old(disk)[old(Id(buf[b])) := old(buf[b].data)]
                     && stores == old(stores) + [Store(old(Id(buf[b])), old(buf[b].data))]
                     && edited == old(edited) - {b}
      ensures !ok ==> buf[..] == old(buf[..]) && unchanged(`disk, `edited, `stores)
    {
      if b !in locked { return false; }
      ghost var s := buf[..];
      ghost var after := s[b].(valid := true, dirty := false);
      StoreKeeps(s, b, after, edited, disk, disk[Id(s[b]) := s[b].data], init, stores);
      buf[b] := buf[b].(dirty := true);
      Iderw(b);
      ghost var s' := s[b := after];
      assert buf[..] == s';
      LinksSame(s, s', order);
      stores := stores + [Store(Id(after), after.data)];
      edited := edited - {b};
      ok := true;
    }

    /** log_write's effect on the cache: the buffer is pinned until its transaction is installed. */
    method LogWrite(b: nat)
      requires Valid() && b in locked && b < NBUF && buf[b].valid
      modifies buf, `edited, `stores
      ensures Valid() && buf[..] == old(buf[..])[b := old(buf[b]).(dirty := true)]
      ensures stores == old(stores) + [Store(old(Id(buf[b])), old(buf[b].data))] && edited == old(edited) - {b}
    {
      ghost var s := buf[..];
      ghost var after := s[b].(dirty := true);
      StoreKeeps(s, b, after, edited, disk, disk, init, stores);
      buf[b] := buf[b].(dirty := true);
      ghost var s' := s[b := after];
      assert buf[..] == s';
      LinksSame(s, s', order);
      stores := stores + [Store(Id(after), after.data)];
      edited := edited - {b};
    }

    /** The first half of brelse: the sleep lock is let go, contents logged or written. */
    method ReleaseSleep(b: nat) returns (ok: bool)
      requires Valid() && b < NBUF && b !in edited
      modifies `locked, `pending
      ensures Valid() && (ok <==> b in old(locked))
      ensures ok ==> locked == old(locked) - {b} && pending == old(pending)[b := old(pending)[b] + 1]
      ensures !ok ==> unchanged(`locked, `pending)
    {
      if b !in locked { return false; }
      locked := locked - {b};
      pending := pending[b := pending[b] + 1];
      ok := true;
    }

    /** The second half of brelse: the reference goes, and the last one moves the buffer to the front. */
    method Drop(b: nat)
      requires Valid() && b < NBUF && pending[b] > 0
      modifies buf, `pending, `order, `when, `clock
      ensures Valid() && pending == old(pending)[b := old(pending)[b] - 1]
      ensures SameContents(old(buf[..]), buf[..])
      ensures buf[b].refcnt == old(buf[b].refcnt) - 1
      ensures old(buf[b].refcnt) > 1 ==> SameOrder(old(order), old(when), old(clock))
      ensures old(buf[b].refcnt) == 1 ==>
                && order[0] == b && when == old(when)[b := old(clock)] && clock == old(clock) + 1
                && (exists k :: 0 <= k < |old(order)| && old(order)[k] == b && order == Moved(old(order), k))
    {
      hide Links, Recent, Unique, Coherent;
      ghost var s := buf[..];
      buf[b] := buf[b].(refcnt := buf[b].refcnt - 1);
      ghost var s1 := s[b := s[b].(refcnt := s[b].refcnt - 1)];
      assert buf[..] == s1;
      LinksSame(s, s1, order);
      pending := pending[b := pending[b] - 1];
      if buf[b].refcnt == 0 {
        InOrder(order, when, clock, b);
        ghost var k :| 0 <= k < |order| && order[k] == b;
        MoveFront(b, k);
        RecentMoved(order, when, clock, k);
        order, when, clock := Moved(order, k), when[b := clock], clock + 1;
      }
      SameKeeps(s, buf[..], edited, disk, init, stores);
    }

    /** Unlink b and link it after the head. */
    method MoveFront(b: nat, ghost k: nat)
      requires buf.Length == NBUF + 1 && Links(buf[..], NBUF, order) && k < |order| && b == order[k] && b < NBUF
      modifies buf
      ensures Links(buf[..], NBUF, Moved(order, k)) && SameBufs(old(buf[..]), buf[..])
    {
      ghost var s := buf[..];
      UnlinkKeeps(s, NBUF, order, k);
      ghost var s1 := Unlinked(s, b);
      NotInWithout(order, k);
      PushKeeps(s1, NBUF, Without(order, k), b);
      assert s[b] == buf[b];
      var n, p := buf[b].next, buf[b].prev;
      buf[n] := buf[n].(prev := p);
      buf[p] := buf[p].(next := n);
      assert buf[..] == s1;
      PushFront(b);
    }

    method PushFront(b: nat)
      requires b < buf.Length && NBUF < buf.Length && buf[NBUF].next < buf.Length
      modifies buf
      ensures buf[..] == Pushed(old(buf[..]), NBUF, b)
    {
      var n := buf[NBUF].next;
      buf[b] := buf[b].(next := n);
      buf[b] := buf[b].(prev := NBUF);
      buf[n] := buf[n].(prev := b);
      buf[NBUF] := buf[NBUF].(next := b);
    }

    /** brelse as a whole; without the lock it panics. */
    method Brelse(b: nat) returns (ok: bool)
      requires Valid() && b < NBUF && b !in edited
      modifies this, buf
      ensures Valid() && (ok <==> b in old(locked)) && disk == old(disk) && stores == old(stores) && edited == old(edited)
      ensures SameContents(old(buf[..]), buf[..])
      ensures ok ==> locked == old(locked) - {b} && pending == old(pending) && buf[b].refcnt == old(buf[b].refcnt) - 1
      ensures ok && old(pending)[b] == 0 ==> order[0] == b
    {
      ok := ReleaseSleep(b);
      if ok { Drop(b); }
    }
  }

  lemma InOrder(o: seq<nat>, when: seq<nat>, clock: nat, b: nat)
    requires Recent(o, when, clock) && b < NBUF
    ensures |o| == NBUF && |when| == NBUF && exists k :: 0 <= k < |o| && o[k] == b
  {
    assert b in o;
  }

  lemma NotInWithout(o: seq<nat>, k: nat)
    requires k < |o| && Distinct(NBUF, o)
    ensures o[k] !in Without(o, k)
  {
  }
}
