/**
  Link counts (sys_link, sys_unlink and create in sysfile.c; iput in fs.c) as a state machine: each
  change of a link count or of a directory is one step, and the steps of any number of calls
  interleave.  Directory entries other than "." and ".." are a map from directory and name to inode;
  module Directory shows that the slots of a directory behave like it.
 */
module Links {
  import opened Sets
  import Directory

  /** The root directory. */
  const ROOT: nat := 1

  /** Names a directory has slots for, "." and ".." aside. */
  const SLOTS: nat := Directory.MAXSLOTS - 2

  /** Slots of the inode cache. */
  const NINODE: nat := 50

  datatype Kind = None | File | Dir | Dev

  /** ref counts the inode's references in memory; nlink is a 16-bit short. */
  datatype Inode = Inode(kind: Kind, nlink: int, ref: nat)

  type Name = string
  type Key = (nat, Name)

  /**
    A call between its first change and its last.  Linking: nlink counted, entry not yet written.
    Unlinking: entry cleared, no count lowered yet.  Unlinked: the parent is done with.  Creating: the
    inode is allocated with nlink 1; counted says whether the parent has been counted up for ".." and
    the dots are written.
   */
  datatype Call =
    | Linking(x: nat)
    | Unlinking(d: nat, x: nat, dir: bool)
    | Unlinked(x: nat)
    | Creating(d: nat, x: nat, name: Name, kind: Kind, counted: bool)

  /** dots: where ".." of each directory leads.  outside: references of processes between calls.  stale: a
      directory has been freed with entries in it, and what they named may be counted too high for ever. */
  datatype State =
    State(inodes: seq<Inode>, entries: map<Key, nat>, dots: map<nat, nat>, outside: multiset<nat>, calls: map<nat, Call>,
          stale: bool)

  // ---------------------------------------------------------------- What is counted

  /** Entries that name x. */
  function Naming(entries: map<Key, nat>, x: nat): set<Key> {
    set k | k in entries && entries[k] == x
  }

  /** Entries of directory d. */
  function Of(entries: map<Key, nat>, d: nat): set<Key> {
    set k | k in entries && k.0 == d
  }

  /** Entries of x that name directories. */
  function Children(entries: map<Key, nat>, inodes: seq<Inode>, x: nat): set<Key> {
    set k | k in entries && k.0 == x && entries[k] < |inodes| && inodes[entries[k]].kind == Dir
  }

  /** Kid: has a count of x outstanding, up for an entry to come or to lower for one gone, and refers to x. */
  datatype Role = Kid | Parent | Debt

  predicate In(r: Role, c: Call, x: nat) {
    match r
    case Kid => c.x == x
    // Holds the directory x, locked and referenced.
    case Parent => (c.Unlinking? || c.Creating?) && c.d == x
    // Has a count of the directory x outstanding.
    case Debt => ((c.Unlinking? && c.dir) || (c.Creating? && c.counted)) && c.d == x
  }

  function Calls(calls: map<nat, Call>, r: Role, x: nat): set<nat> {
    set t | t in calls && In(r, calls[t], x)
  }

  /** What the link count of x stands for; the root is counted once for itself. */
  function Wanted(s: State, x: nat): nat {
    |Naming(s.entries, x)| + |Children(s.entries, s.inodes, x)| + |Calls(s.calls, Kid, x)| + |Calls(s.calls, Debt, x)|
    + if x == ROOT then 1 else 0
  }

  /**
    The link count of x is at least the number of entries naming it, plus its linked child
    directories, plus the counts outstanding, and just that for a directory, and for every inode unless
    entries went with their directory; references are counted exactly; a free inode has no links; a
    directory is named once, the root never.
   */
  predicate InodeOk(s: State, x: nat)
    requires x < |s.inodes|
  {
    var i := s.inodes[x];
    && Wanted(s, x) <= i.nlink <= 32767
    && (i.kind == Dir || !s.stale ==> i.nlink == Wanted(s, x))
    && (i.kind == Dir ==> |Naming(s.entries, x)| + |Calls(s.calls, Kid, x)| <= if x == ROOT then 0 else 1)
    && i.ref == |Calls(s.calls, Kid, x)| + |Calls(s.calls, Parent, x)| + s.outside[x]
    && (i.kind == None ==> i.nlink == 0 && i.ref == 0)
    && |Of(s.entries, x)| <= SLOTS
  }

  predicate Allocated(inodes: seq<Inode>, x: nat) {
    x < |inodes| && inodes[x].kind != None
  }

  predicate IsDir(inodes: seq<Inode>, x: nat) {
    x < |inodes| && inodes[x].kind == Dir
  }

  predicate CallOk(inodes: seq<Inode>, entries: map<Key, nat>, dots: map<nat, nat>, c: Call) {
    && Allocated(inodes, c.x)
    && (c.Linking? ==> !IsDir(inodes, c.x))
    && (c.Unlinking? ==> IsDir(inodes, c.d) && (c.dir <==> IsDir(inodes, c.x)))
    && (c.Creating? ==>
          && IsDir(inodes, c.d) && inodes[c.x].kind == c.kind
          && (c.counted ==> c.kind == Dir && c.x in dots && dots[c.x] == c.d) && (c.d, c.name) !in entries)
  }

  predicate CallsOk(inodes: seq<Inode>, entries: map<Key, nat>, dots: map<nat, nat>, calls: map<nat, Call>) {
    forall t :: t in calls ==> CallOk(inodes, entries, dots, calls[t])
  }

  /** A directory that a call has locked is locked by that call alone. */
  predicate Exclusive(calls: map<nat, Call>) {
    forall t, u :: t in calls && u in calls && t != u && (calls[t].Creating? || calls[t].Unlinking?) ==>
      !In(Parent, calls[u], calls[t].d)
  }

  /** Entries are in directories and name allocated inodes; ".." of a directory so named leads back. */
  predicate EntriesOk(inodes: seq<Inode>, entries: map<Key, nat>, dots: map<nat, nat>) {
    forall k :: k in entries ==>
      && IsDir(inodes, k.0) && Allocated(inodes, entries[k])
      && (IsDir(inodes, entries[k]) ==> entries[k] in dots && dots[entries[k]] == k.0)
  }

  ghost predicate Inv(s: State) {
    && (forall x :: 0 <= x < |s.inodes| ==> InodeOk(s, x))
    && CallsOk(s.inodes, s.entries, s.dots, s.calls) && Exclusive(s.calls) && EntriesOk(s.inodes, s.entries, s.dots)
    && (forall x :: x in s.outside ==> x < |s.inodes|)
    && IsDir(s.inodes, ROOT) && ROOT in s.dots && s.dots[ROOT] == ROOT
  }

  // ---------------------------------------------------------------- Steps

  datatype Action =
    | Lookup(d: nat, name: Name)
    | Root
    | Dotdot(d: nat)
    | Idup(x: nat)
    | LinkStart(t: nat, x: nat)
    | LinkEntry(t: nat, d: nat, name: Name)
    | LinkBad(t: nat)
    | Unlink(t: nat, d: nat, name: Name)
    | UnlinkParent(t: nat)
    | UnlinkChild(t: nat)
    | Create(t: nat, d: nat, name: Name, kind: Kind, x: nat)
    | CreateCount(t: nat)
    | CreateEntry(t: nat)
    | Iput(x: nat)

  datatype Outcome = Moved(s: State) | Blocked | Refused | Panicked

  /** One more, on a signed 16-bit count. */
  function Inc(n: int): int { if n == 32767 then -32768 else n + 1 }

  predicate Has(s: State, x: nat) {
    x < |s.inodes| && x in s.outside
  }

  function Ref(s: State, x: nat, n: int): State
    requires x < |s.inodes| && s.inodes[x].ref + n >= 0
  {
    s.(inodes := s.inodes[x := s.inodes[x].(ref := s.inodes[x].ref + n)])
  }

  function Nlink(s: State, x: nat, n: int): State
    requires x < |s.inodes|
  {
    s.(inodes := s.inodes[x := s.inodes[x].(nlink := n)])
  }

  /** The call's reference to x becomes one of its process, to be put later. */
  function End(s: State, t: nat): State
    requires t in s.calls
  {
    s.(calls := s.calls - {t}, outside := s.outside + multiset{s.calls[t].x})
  }

  /** A directory is locked from the lookup of a create or unlink to the end of its changes. */
  predicate Locked(s: State, d: nat) {
    Calls(s.calls, Parent, d) != {}
  }

  /** No slot is left, and the directory is as large as a file can be. */
  predicate Full(s: State, d: nat) {
    |Of(s.entries, d)| >= SLOTS
  }

  /** isdirempty */
  predicate EmptyDir(s: State, d: nat) {
    forall k :: k in s.entries ==> k.0 != d
  }

  /** The inodes that are in the cache to stay. */
  function Cached(inodes: seq<Inode>): set<nat> {
    set x | 0 <= x < |inodes| && inodes[x].ref > 0
  }

  /** iget of x finds neither x nor a slot to recycle. */
  predicate NoRoom(inodes: seq<Inode>, x: nat) {
    x < |inodes| && inodes[x].ref == 0 && |Cached(inodes)| >= NINODE
  }

  /** ialloc takes x: inode 0 is never used. */
  predicate FirstFree(inodes: seq<Inode>, x: nat) {
    1 <= x < |inodes| && inodes[x].kind == None && forall y :: 1 <= y < x ==> inodes[y].kind != None
  }

  predicate NoneFree(inodes: seq<Inode>) {
    forall x :: 1 <= x < |inodes| ==> inodes[x].kind != None
  }

  /** dirlookup meets the name and takes a reference for a moment. */
  function Taken(s: State, k: Key): Outcome
    requires k in s.entries
  {
    if NoRoom(s.inodes, s.entries[k]) then Panicked else Refused
  }

  function Step(s: State, a: Action): Outcome {
    match a
    case Lookup(d, name) =>
      if !Has(s, d) || s.inodes[d].kind != Dir || (d, name) !in s.entries then Refused
      else
        var x := s.entries[(d, name)];
        if x >= |s.inodes| || NoRoom(s.inodes, x) || s.inodes[x].kind == None then Panicked
        else Moved(Ref(s, x, 1).(outside := s.outside + multiset{x}))
    case Root =>
      if ROOT >= |s.inodes| then Refused
      else if NoRoom(s.inodes, ROOT) then Panicked
      else Moved(Ref(s, ROOT, 1).(outside := s.outside + multiset{ROOT}))
    case Dotdot(d) =>
      if !Has(s, d) || s.inodes[d].kind != Dir || d !in s.dots then Refused
      else
        var x := s.dots[d];
        if NoRoom(s.inodes, x) || !Allocated(s.inodes, x) then Panicked
        else Moved(Ref(s, x, 1).(outside := s.outside + multiset{x}))
    case Idup(x) =>
      if !Has(s, x) then Refused else Moved(Ref(s, x, 1).(outside := s.outside + multiset{x}))
    case LinkStart(t, x) =>
      if t in s.calls || !Has(s, x) || s.inodes[x].kind in {None, Dir} then Refused
      else Moved(Nlink(s, x, Inc(s.inodes[x].nlink)).(calls := s.calls[t := Linking(x)], outside := s.outside - multiset{x}))
    case LinkEntry(t, d, name) =>
      if t !in s.calls || !s.calls[t].Linking? || !Has(s, d) || s.inodes[d].kind != Dir then Refused
      else if Locked(s, d) then Blocked
      else if (d, name) in s.entries then Taken(s, (d, name))
      else if Full(s, d) then Panicked
      else Moved(End(s, t).(entries := s.entries[(d, name) := s.calls[t].x]))
    case LinkBad(t) =>
      if t !in s.calls || !s.calls[t].Linking? || s.calls[t].x >= |s.inodes| then Refused
      else Moved(End(Nlink(s, s.calls[t].x, s.inodes[s.calls[t].x].nlink - 1), t))
    case Unlink(t, d, name) =>
      if t in s.calls || !Has(s, d) || s.inodes[d].kind != Dir then Refused
      else if Locked(s, d) then Blocked
      else if (d, name) !in s.entries then Refused
      else
        var x := s.entries[(d, name)];
        if x >= |s.inodes| || NoRoom(s.inodes, x) || s.inodes[x].kind == None || s.inodes[x].nlink < 1 then Panicked
        else if s.inodes[x].kind == Dir && !EmptyDir(s, x) then Refused
        else Moved(Ref(s, x, 1).(entries := s.entries - {(d, name)}, outside := s.outside - multiset{d},
                                 calls := s.calls[t := Unlinking(d, x, s.inodes[x].kind == Dir)]))
    case UnlinkParent(t) =>
      if t !in s.calls || !s.calls[t].Unlinking? || s.calls[t].d >= |s.inodes| then Refused
      else
        var c := s.calls[t];
        var s1 := if c.dir then Nlink(s, c.d, s.inodes[c.d].nlink - 1) else s;
        Moved(s1.(calls := s.calls[t := Unlinked(c.x)], outside := s.outside + multiset{c.d}))
    case UnlinkChild(t) =>
      if t !in s.calls || !s.calls[t].Unlinked? || s.calls[t].x >= |s.inodes| then Refused
      else Moved(End(Nlink(s, s.calls[t].x, s.inodes[s.calls[t].x].nlink - 1), t))
    case Create(t, d, name, kind, x) =>
      if t in s.calls || !Has(s, d) || s.inodes[d].kind != Dir || kind == None then Refused
      else if Locked(s, d) then Blocked
      else if (d, name) in s.entries then Taken(s, (d, name))
      else if NoneFree(s.inodes) then Panicked
      else if !FirstFree(s.inodes, x) then Refused
      else if NoRoom(s.inodes, x) then Panicked
      else Moved(s.(inodes := s.inodes[x := Inode(kind, 1, 1)], outside := s.outside - multiset{d},
                    calls := s.calls[t := Creating(d, x, name, kind, false)]))
    case CreateCount(t) =>
      if t !in s.calls || !s.calls[t].Creating? || s.calls[t].kind != Dir || s.calls[t].counted || s.calls[t].d >= |s.inodes| then Refused
      else
        var c := s.calls[t];
        Moved(Nlink(s, c.d, Inc(s.inodes[c.d].nlink)).(calls := s.calls[t := c.(counted := true)], dots := s.dots[c.x := c.d]))
    case CreateEntry(t) =>
      if t !in s.calls || !s.calls[t].Creating? || (s.calls[t].kind == Dir && !s.calls[t].counted) then Refused
      else
        var c := s.calls[t];
        if (c.d, c.name) in s.entries || Full(s, c.d) then Panicked
        else Moved(End(s, t).(entries := s.entries[(c.d, c.name) := c.x], outside := s.outside + multiset{c.x, c.d}))
    case Iput(x) =>
      if !Has(s, x) || s.inodes[x].ref == 0 then Refused
      else if s.inodes[x].nlink == 0 && s.inodes[x].ref == 1 then
        Moved(s.(inodes := s.inodes[x := Inode(None, 0, 0)], outside := s.outside - multiset{x},
                 entries := map k | k in s.entries && k.0 != x :: s.entries[k], dots := s.dots - {x},
                 stale := s.stale || !EmptyDir(s, x)))
      else Moved(Ref(s, x, -1).(outside := s.outside - multiset{x}))
  }

  // ---------------------------------------------------------------- How the counts change

  lemma CallsAdd(calls: map<nat, Call>, t: nat, c: Call, r: Role, x: nat)
    requires t !in calls
    ensures |Calls(calls[t := c], r, x)| == |Calls(calls, r, x)| + if In(r, c, x) then 1 else 0
  {
    assert Calls(calls[t := c], r, x) == if In(r, c, x) then Calls(calls, r, x) + {t} else Calls(calls, r, x);
  }

  lemma CallsDel(calls: map<nat, Call>, t: nat, r: Role, x: nat)
    requires t in calls
    ensures |Calls(calls - {t}, r, x)| == |Calls(calls, r, x)| - if In(r, calls[t], x) then 1 else 0
  {
    assert (calls - {t})[t := calls[t]] == calls;
    CallsAdd(calls - {t}, t, calls[t], r, x);
  }

  lemma CallsSet(calls: map<nat, Call>, t: nat, c: Call, r: Role, x: nat)
    requires t in calls
    ensures |Calls(calls[t := c], r, x)|
         == |Calls(calls, r, x)| - (if In(r, calls[t], x) then 1 else 0) + if In(r, c, x) then 1 else 0
  {
    CallsDel(calls, t, r, x);
    CallsAdd(calls - {t}, t, c, r, x);
    assert (calls - {t})[t := c] == calls[t := c];
  }

  lemma EntryAdd(entries: map<Key, nat>, inodes: seq<Inode>, k: Key, v: nat, x: nat)
    requires k !in entries
    ensures |Naming(entries[k := v], x)| == |Naming(entries, x)| + if v == x then 1 else 0
    ensures |Children(entries[k := v], inodes, x)|
         == |Children(entries, inodes, x)| + if k.0 == x && v < |inodes| && inodes[v].kind == Dir then 1 else 0
    ensures |Of(entries[k := v], x)| == |Of(entries, x)| + if k.0 == x then 1 else 0
  {
    NamingAdd(entries, k, v, x);
    ChildrenAdd(entries, inodes, k, v, x);
    OfAdd(entries, k, v, x);
  }

  lemma OfAdd(entries: map<Key, nat>, k: Key, v: nat, d: nat)
    requires k !in entries
    ensures |Of(entries[k := v], d)| == |Of(entries, d)| + if k.0 == d then 1 else 0
  {
    assert Of(entries[k := v], d) == if k.0 == d then Of(entries, d) + {k} else Of(entries, d);
  }

  lemma NamingAdd(entries: map<Key, nat>, k: Key, v: nat, x: nat)
    requires k !in entries
    ensures |Naming(entries[k := v], x)| == |Naming(entries, x)| + if v == x then 1 else 0
  {
    assert Naming(entries[k := v], x) == if v == x then Naming(entries, x) + {k} else Naming(entries, x);
  }

  lemma ChildrenAdd(entries: map<Key, nat>, inodes: seq<Inode>, k: Key, v: nat, x: nat)
    requires k !in entries
    ensures |Children(entries[k := v], inodes, x)|
         == |Children(entries, inodes, x)| + if k.0 == x && v < |inodes| && inodes[v].kind == Dir then 1 else 0
  {
    var more := k.0 == x && v < |inodes| && inodes[v].kind == Dir;
    assert Children(entries[k := v], inodes, x)
        == if more then Children(entries, inodes, x) + {k} else Children(entries, inodes, x);
  }

  lemma EntryDel(entries: map<Key, nat>, inodes: seq<Inode>, k: Key, x: nat)
    requires k in entries
    ensures |Naming(entries - {k}, x)| == |Naming(entries, x)| - if entries[k] == x then 1 else 0
    ensures |Children(entries - {k}, inodes, x)|
         == |Children(entries, inodes, x)| - if k.0 == x && entries[k] < |inodes| && inodes[entries[k]].kind == Dir then 1 else 0
    ensures |Of(entries - {k}, x)| == |Of(entries, x)| - if k.0 == x then 1 else 0
  {
    assert (entries - {k})[k := entries[k]] == entries;
    EntryAdd(entries - {k}, inodes, k, entries[k], x);
  }

  /** Changing counts and references, or the kind of an inode no entry names, leaves the children. */
  lemma ChildrenSame(entries: map<Key, nat>, inodes: seq<Inode>, inodes': seq<Inode>, x: nat)
    requires |inodes'| == |inodes|
    requires forall k :: k in entries && entries[k] < |inodes| ==> inodes'[entries[k]].kind == inodes[entries[k]].kind
    ensures Children(entries, inodes', x) == Children(entries, inodes, x)
  {
  }

  lemma NamingNone(entries: map<Key, nat>, x: nat, k: Key)
    requires |Naming(entries, x)| == 0 && k in entries
    ensures entries[k] != x
  {
    assert k !in Naming(entries, x);
  }

  lemma NamingSome(entries: map<Key, nat>, k: Key)
    requires k in entries
    ensures |Naming(entries, entries[k])| >= 1
  {
    assert k in Naming(entries, entries[k]);
  }

  // ---------------------------------------------------------------- What each step keeps

  /** The same inodes are allocated, as the same kinds. */
  predicate SameKinds(inodes: seq<Inode>, inodes': seq<Inode>) {
    |inodes'| == |inodes| && forall x :: 0 <= x < |inodes| ==> inodes'[x].kind == inodes[x].kind
  }

  /** Counts and references do not matter to entries and calls. */
  lemma KindsKeep(inodes: seq<Inode>, inodes': seq<Inode>, entries: map<Key, nat>, dots: map<nat, nat>, calls: map<nat, Call>)
    requires SameKinds(inodes, inodes') && CallsOk(inodes, entries, dots, calls) && EntriesOk(inodes, entries, dots)
    ensures CallsOk(inodes', entries, dots, calls) && EntriesOk(inodes', entries, dots)
    ensures forall y :: Children(entries, inodes', y) == Children(entries, inodes, y)
  {
  }

  lemma RefKeeps(s: State, x: nat)
    requires Inv(s) && Allocated(s.inodes, x)
    ensures Inv(Ref(s, x, 1).(outside := s.outside + multiset{x}))
  {
    hide Calls, Children, Naming, Of, CallsOk, EntriesOk;
    var s' := Ref(s, x, 1).(outside := s.outside + multiset{x});
    KindsKeep(s.inodes, s'.inodes, s.entries, s.dots, s.calls);
    forall y | 0 <= y < |s.inodes| ensures InodeOk(s', y) { assert InodeOk(s, y); }
  }

  lemma LinkStartKeeps(s: State, t: nat, x: nat)
    requires Inv(s) && t !in s.calls && Has(s, x) && s.inodes[x].kind !in {None, Dir} && s.inodes[x].nlink < 32767
    ensures Inv(Nlink(s, x, s.inodes[x].nlink + 1).(calls := s.calls[t := Linking(x)], outside := s.outside - multiset{x}))
  {
    hide Calls, Children, Naming, Of, EntriesOk;
    var s' := Nlink(s, x, s.inodes[x].nlink + 1).(calls := s.calls[t := Linking(x)], outside := s.outside - multiset{x});
    KindsKeep(s.inodes, s'.inodes, s.entries, s.dots, s.calls);
    forall y | 0 <= y < |s.inodes| ensures InodeOk(s', y) {
      assert InodeOk(s, y);
      CallsAdd(s.calls, t, Linking(x), Kid, y);
      CallsAdd(s.calls, t, Linking(x), Parent, y);
      CallsAdd(s.calls, t, Linking(x), Debt, y);
    }
  }

  /** Ending a call that counts x, its count of x lowered by one or its entry written. */
  lemma EndCounts(s: State, t: nat, y: nat)
    requires t in s.calls
    ensures |Calls(End(s, t).calls, Kid, y)| == |Calls(s.calls, Kid, y)| - if s.calls[t].x == y then 1 else 0
    ensures |Calls(End(s, t).calls, Parent, y)| == |Calls(s.calls, Parent, y)| - if In(Parent, s.calls[t], y) then 1 else 0
    ensures |Calls(End(s, t).calls, Debt, y)| == |Calls(s.calls, Debt, y)| - if In(Debt, s.calls[t], y) then 1 else 0
  {
    CallsDel(s.calls, t, Kid, y);
    CallsDel(s.calls, t, Parent, y);
    CallsDel(s.calls, t, Debt, y);
  }

  lemma LinkEntryKeeps(s: State, t: nat, d: nat, name: Name)
    requires Inv(s) && t in s.calls && s.calls[t].Linking? && IsDir(s.inodes, d) && (d, name) !in s.entries
    requires !Locked(s, d) && !Full(s, d)
    ensures Inv(End(s, t).(entries := s.entries[(d, name) := s.calls[t].x]))
  {
    hide Calls, Children, Naming, Of;
    var k, x := (d, name), s.calls[t].x;
    var s' := End(s, t).(entries := s.entries[k := x]);
    assert CallOk(s.inodes, s.entries, s.dots, s.calls[t]);
    forall y | 0 <= y < |s.inodes| ensures InodeOk(s', y) {
      assert InodeOk(s, y);
      EndCounts(s, t, y);
      EntryAdd(s.entries, s.inodes, k, x, y);
    }
    NotLocked(s, d);
    forall u | u in s'.calls ensures CallOk(s'.inodes, s'.entries, s'.dots, s'.calls[u]) {
      assert CallOk(s.inodes, s.entries, s.dots, s.calls[u]);
    }
  }

  lemma NotLocked(s: State, d: nat)
    requires !Locked(s, d)
    ensures forall t :: t in s.calls ==> !In(Parent, s.calls[t], d)
  {
    forall t | t in s.calls ensures !In(Parent, s.calls[t], d) {
      assert t !in Calls(s.calls, Parent, d);
    }
  }

  /** LinkBad and UnlinkChild: the count of x goes down with the call. */
  lemma LowerKeeps(s: State, t: nat)
    requires Inv(s) && t in s.calls && (s.calls[t].Linking? || s.calls[t].Unlinked?) && s.calls[t].x < |s.inodes|
    ensures Inv(End(Nlink(s, s.calls[t].x, s.inodes[s.calls[t].x].nlink - 1), t))
  {
    hide Calls, Children, Naming, Of, EntriesOk;
    var x := s.calls[t].x;
    var s1 := Nlink(s, x, s.inodes[x].nlink - 1);
    var s' := End(s1, t);
    KindsKeep(s.inodes, s'.inodes, s.entries, s.dots, s.calls);
    assert CallOk(s.inodes, s.entries, s.dots, s.calls[t]);
    forall y | 0 <= y < |s.inodes| ensures InodeOk(s', y) {
      assert InodeOk(s, y);
      EndCounts(s1, t, y);
    }
  }

  lemma UnlinkInode(s: State, t: nat, k: Key, c: Call, y: nat)
    requires k in s.entries && s.entries[k] < |s.inodes|
    requires c == Unlinking(k.0, s.entries[k], s.inodes[s.entries[k]].kind == Dir)
    requires t !in s.calls && y < |s.inodes| && InodeOk(s, y) && s.outside[k.0] > 0 && s.inodes[s.entries[k]].kind != None
    ensures InodeOk(Ref(s, s.entries[k], 1).(entries := s.entries - {k}, outside := s.outside - multiset{k.0}, calls := s.calls[t := c]), y)
  {
    hide Calls, Children, Naming, Of;
    var inodes' := Ref(s, s.entries[k], 1).inodes;
    ChildrenSame(s.entries, s.inodes, inodes', y);
    EntryDel(s.entries, inodes', k, y);
    CallsAdd(s.calls, t, c, Kid, y);
    CallsAdd(s.calls, t, c, Parent, y);
    CallsAdd(s.calls, t, c, Debt, y);
  }

  lemma UnlinkKeeps(s: State, t: nat, d: nat, name: Name)
    requires Inv(s) && t !in s.calls && Has(s, d) && IsDir(s.inodes, d) && (d, name) in s.entries && !Locked(s, d)
    ensures Allocated(s.inodes, s.entries[(d, name)])
    ensures
      var x := s.entries[(d, name)];
      Inv(Ref(s, x, 1).(entries := s.entries - {(d, name)}, outside := s.outside - multiset{d},
                        calls := s.calls[t := Unlinking(d, x, s.inodes[x].kind == Dir)]))
  {
    hide Calls, Children, Naming, Of;
    var k := (d, name);
    var x := s.entries[k];
    var c := Unlinking(d, x, s.inodes[x].kind == Dir);
    var s' := Ref(s, x, 1).(entries := s.entries - {k}, outside := s.outside - multiset{d}, calls := s.calls[t := c]);
    KindsKeep(s.inodes, s'.inodes, s.entries, s.dots, s.calls);
    forall y | 0 <= y < |s.inodes| ensures InodeOk(s', y) { UnlinkInode(s, t, k, c, y); }
    NotLocked(s, d);
    forall u | u in s'.calls ensures CallOk(s'.inodes, s'.entries, s'.dots, s'.calls[u]) {
      if u != t { assert CallOk(s.inodes, s.entries, s.dots, s.calls[u]); }
    }
  }

  lemma UnlinkParentKeeps(s: State, t: nat)
    requires Inv(s) && t in s.calls && s.calls[t].Unlinking? && s.calls[t].d < |s.inodes|
    ensures
      var c := s.calls[t];
      var s1 := if c.dir then Nlink(s, c.d, s.inodes[c.d].nlink - 1) else s;
      Inv(s1.(calls := s.calls[t := Unlinked(c.x)], outside := s.outside + multiset{c.d}))
  {
    hide Calls, Children, Naming, Of, EntriesOk;
    var c := s.calls[t];
    var s1 := if c.dir then Nlink(s, c.d, s.inodes[c.d].nlink - 1) else s;
    var s' := s1.(calls := s.calls[t := Unlinked(c.x)], outside := s.outside + multiset{c.d});
    KindsKeep(s.inodes, s'.inodes, s.entries, s.dots, s.calls);
    assert CallOk(s.inodes, s.entries, s.dots, c);
    forall y | 0 <= y < |s.inodes| ensures InodeOk(s', y) {
      ChildrenSame(s.entries, s.inodes, s'.inodes, y);
      UnlinkParentInode(s, t, y);
    }
  }

  lemma UnlinkParentInode(s: State, t: nat, y: nat)
    requires t in s.calls && s.calls[t].Unlinking? && s.calls[t].d < |s.inodes| && y < |s.inodes| && InodeOk(s, y)
    requires IsDir(s.inodes, s.calls[t].d)
    ensures
      var c := s.calls[t];
      var s1 := if c.dir then Nlink(s, c.d, s.inodes[c.d].nlink - 1) else s;
      InodeOk(s1.(calls := s.calls[t := Unlinked(c.x)], outside := s.outside + multiset{c.d}), y)
  {
    hide Calls, Children, Naming, Of;
    var c := s.calls[t];
    var s1 := if c.dir then Nlink(s, c.d, s.inodes[c.d].nlink - 1) else s;
    ChildrenSame(s.entries, s.inodes, s1.inodes, y);
    CallsSet(s.calls, t, Unlinked(c.x), Kid, y);
    CallsSet(s.calls, t, Unlinked(c.x), Parent, y);
    CallsSet(s.calls, t, Unlinked(c.x), Debt, y);
  }

  lemma CreateInode(s: State, t: nat, c: Call, y: nat)
    requires c.Creating? && !c.counted && t !in s.calls && c.x < |s.inodes| && y < |s.inodes| && InodeOk(s, y)
    requires InodeOk(s, c.x)
    requires s.outside[c.d] > 0 && c.d != c.x && c.kind != None && s.inodes[c.x].kind == None
    requires forall k :: k in s.entries ==> s.entries[k] != c.x
    ensures InodeOk(s.(inodes := s.inodes[c.x := Inode(c.kind, 1, 1)], outside := s.outside - multiset{c.d}, calls := s.calls[t := c]), y)
  {
    hide Calls, Children, Naming, Of;
    ChildrenSame(s.entries, s.inodes, s.inodes[c.x := Inode(c.kind, 1, 1)], y);
    CallsAdd(s.calls, t, c, Kid, y);
    CallsAdd(s.calls, t, c, Parent, y);
    CallsAdd(s.calls, t, c, Debt, y);
  }

  lemma CreateKeeps(s: State, t: nat, d: nat, name: Name, kind: Kind, x: nat)
    requires Inv(s) && t !in s.calls && Has(s, d) && IsDir(s.inodes, d) && (d, name) !in s.entries && !Locked(s, d)
    requires kind != None && x < |s.inodes| && s.inodes[x].kind == None
    ensures Inv(s.(inodes := s.inodes[x := Inode(kind, 1, 1)], outside := s.outside - multiset{d},
                   calls := s.calls[t := Creating(d, x, name, kind, false)]))
  {
    hide Calls, Children, Naming, Of, Exclusive, CallsOk;
    var c := Creating(d, x, name, kind, false);
    var s' := s.(inodes := s.inodes[x := Inode(kind, 1, 1)], outside := s.outside - multiset{d}, calls := s.calls[t := c]);
    assert InodeOk(s, x);
    forall y | 0 <= y < |s.inodes| ensures InodeOk(s', y) { CreateInode(s, t, c, y); }
    CreateCalls(s, t, c);
  }

  lemma CreateCalls(s: State, t: nat, c: Call)
    requires CallsOk(s.inodes, s.entries, s.dots, s.calls) && Exclusive(s.calls) && EntriesOk(s.inodes, s.entries, s.dots)
    requires c.Creating? && !c.counted && t !in s.calls && IsDir(s.inodes, c.d) && (c.d, c.name) !in s.entries && !Locked(s, c.d)
    requires c.kind != None && c.x < |s.inodes| && s.inodes[c.x].kind == None
    ensures
      var inodes, calls := s.inodes[c.x := Inode(c.kind, 1, 1)], s.calls[t := c];
      CallsOk(inodes, s.entries, s.dots, calls) && Exclusive(calls) && EntriesOk(inodes, s.entries, s.dots)
  {
    hide Calls;
    var inodes, calls := s.inodes[c.x := Inode(c.kind, 1, 1)], s.calls[t := c];
    NotLocked(s, c.d);
    forall u | u in calls ensures CallOk(inodes, s.entries, s.dots, calls[u]) {
      if u != t { assert CallOk(s.inodes, s.entries, s.dots, s.calls[u]); }
    }
  }

  lemma CreateCountKeeps(s: State, t: nat)
    requires Inv(s) && t in s.calls && s.calls[t].Creating? && s.calls[t].kind == Dir && !s.calls[t].counted
    requires s.calls[t].d < |s.inodes| && s.inodes[s.calls[t].d].nlink < 32767
    ensures
      var c := s.calls[t];
      Inv(Nlink(s, c.d, s.inodes[c.d].nlink + 1).(calls := s.calls[t := c.(counted := true)], dots := s.dots[c.x := c.d]))
  {
    hide Calls, Children, Naming, Of, EntriesOk;
    var c := s.calls[t];
    var c' := c.(counted := true);
    var s' := Nlink(s, c.d, s.inodes[c.d].nlink + 1).(calls := s.calls[t := c'], dots := s.dots[c.x := c.d]);
    DotsSet(s, t);
    KindsKeep(s.inodes, s'.inodes, s.entries, s'.dots, s'.calls);
    assert CallOk(s.inodes, s.entries, s.dots, c);
    forall y | 0 <= y < |s.inodes| ensures InodeOk(s', y) {
      assert InodeOk(s, y);
      CallsSet(s.calls, t, c', Kid, y);
      CallsSet(s.calls, t, c', Parent, y);
      CallsSet(s.calls, t, c', Debt, y);
    }
  }

  /** Writing the dots of a directory that no entry names and no other call makes. */
  lemma DotsSet(s: State, t: nat)
    requires Inv(s) && t in s.calls && s.calls[t].Creating? && s.calls[t].kind == Dir
    ensures
      var c := s.calls[t];
      var dots := s.dots[c.x := c.d];
      && c.x != ROOT && EntriesOk(s.inodes, s.entries, dots)
      && (forall u :: u in s.calls && u != t ==> CallOk(s.inodes, s.entries, dots, s.calls[u]))
      && CallOk(s.inodes, s.entries, dots, c.(counted := true))
  {
    var c := s.calls[t];
    assert CallOk(s.inodes, s.entries, s.dots, c);
    assert InodeOk(s, c.x);
    assert t in Calls(s.calls, Kid, c.x);
    forall k | k in s.entries ensures s.entries[k] != c.x { NamingNone(s.entries, c.x, k); }
    forall u | u in s.calls && u != t ensures s.calls[u].x != c.x { OnlyKid(s.calls, t, u); }
    forall u | u in s.calls ensures CallOk(s.inodes, s.entries, s.dots, s.calls[u]) { }
  }

  lemma OnlyKid(calls: map<nat, Call>, t: nat, u: nat)
    requires t in calls && u in calls && t != u && |Calls(calls, Kid, calls[t].x)| <= 1
    ensures calls[u].x != calls[t].x
  {
    if calls[u].x == calls[t].x {
      SubsetCount({t, u}, Calls(calls, Kid, calls[t].x));
    }
  }

  lemma CreateEntryInode(s: State, t: nat, y: nat)
    requires t in s.calls && s.calls[t].Creating? && (s.calls[t].kind == Dir <==> s.calls[t].counted) && !Full(s, s.calls[t].d)
    requires y < |s.inodes| && InodeOk(s, y) && s.calls[t].x < |s.inodes| && s.inodes[s.calls[t].x].kind == s.calls[t].kind
    requires (s.calls[t].d, s.calls[t].name) !in s.entries
    ensures
      var c := s.calls[t];
      InodeOk(End(s, t).(entries := s.entries[(c.d, c.name) := c.x], outside := s.outside + multiset{c.x, c.d}), y)
  {
    hide Calls, Children, Naming, Of;
    EndCounts(s, t, y);
    EntryAdd(s.entries, s.inodes, (s.calls[t].d, s.calls[t].name), s.calls[t].x, y);
  }

  lemma CreateEntryKeeps(s: State, t: nat)
    requires Inv(s) && t in s.calls && s.calls[t].Creating? && (s.calls[t].kind == Dir ==> s.calls[t].counted)
    requires !Full(s, s.calls[t].d)
    ensures (s.calls[t].d, s.calls[t].name) !in s.entries
    ensures
      var c := s.calls[t];
      Inv(End(s, t).(entries := s.entries[(c.d, c.name) := c.x], outside := s.outside + multiset{c.x, c.d}))
  {
    hide Calls, Children, Naming, Of;
    var c := s.calls[t];
    var k := (c.d, c.name);
    assert CallOk(s.inodes, s.entries, s.dots, c);
    var s' := End(s, t).(entries := s.entries[k := c.x], outside := s.outside + multiset{c.x, c.d});
    forall y | 0 <= y < |s.inodes| ensures InodeOk(s', y) { CreateEntryInode(s, t, y); }
    forall u | u in s'.calls ensures CallOk(s'.inodes, s'.entries, s'.dots, s'.calls[u]) {
      assert CallOk(s.inodes, s.entries, s.dots, s.calls[u]);
    }
  }

  lemma IputKeeps(s: State, x: nat)
    requires Inv(s) && Has(s, x) && s.inodes[x].ref > 0 && !(s.inodes[x].nlink == 0 && s.inodes[x].ref == 1)
    ensures Inv(Ref(s, x, -1).(outside := s.outside - multiset{x}))
  {
    hide Calls, Children, Naming, Of, CallsOk, EntriesOk;
    var s' := Ref(s, x, -1).(outside := s.outside - multiset{x});
    KindsKeep(s.inodes, s'.inodes, s.entries, s.dots, s.calls);
    forall y | 0 <= y < |s.inodes| ensures InodeOk(s', y) { assert InodeOk(s, y); }
  }

  function Without(entries: map<Key, nat>, x: nat): map<Key, nat> {
    map k | k in entries && k.0 != x :: entries[k]
  }

  /** Entries go with their directory; the counts they stood for can only be too high then. */
  lemma WithoutFewer(entries: map<Key, nat>, inodes: seq<Inode>, inodes': seq<Inode>, x: nat, y: nat)
    requires |inodes| == |inodes'| && forall z :: 0 <= z < |inodes| && z != x ==> inodes'[z] == inodes[z]
    requires x < |inodes| && inodes'[x].kind == None
    ensures |Naming(Without(entries, x), y)| <= |Naming(entries, y)|
    ensures |Children(Without(entries, x), inodes', y)| <= |Children(entries, inodes, y)|
    ensures |Of(Without(entries, x), y)| <= |Of(entries, y)|
  {
    SubsetCount(Naming(Without(entries, x), y), Naming(entries, y));
    SubsetCount(Children(Without(entries, x), inodes', y), Children(entries, inodes, y));
    SubsetCount(Of(Without(entries, x), y), Of(entries, y));
  }

  /** A directory without child directories takes no count of a directory with it. */
  lemma WithoutSame(entries: map<Key, nat>, inodes: seq<Inode>, inodes': seq<Inode>, x: nat, y: nat)
    requires |inodes| == |inodes'| && forall z :: 0 <= z < |inodes| && z != x ==> inodes'[z] == inodes[z]
    requires IsDir(inodes, y) && y != x && |Children(entries, inodes, x)| == 0
    requires forall k :: k in entries ==> entries[k] != x
    ensures Naming(Without(entries, x), y) == Naming(entries, y)
    ensures Children(Without(entries, x), inodes', y) == Children(entries, inodes, y)
  {
    forall k | k in Naming(entries, y) ensures k in Naming(Without(entries, x), y) {
      assert k !in Children(entries, inodes, x);
    }
  }

  /** An empty directory takes no entry with it. */
  lemma WithoutNone(entries: map<Key, nat>, inodes: seq<Inode>, inodes': seq<Inode>, x: nat, y: nat)
    requires |inodes| == |inodes'| && forall z :: 0 <= z < |inodes| && z != x ==> inodes'[z] == inodes[z]
    requires forall k :: k in entries ==> k.0 != x && entries[k] != x
    ensures Naming(Without(entries, x), y) == Naming(entries, y)
    ensures Children(Without(entries, x), inodes', y) == Children(entries, inodes, y)
  {
  }

  lemma FreeInode(s: State, x: nat, y: nat)
    requires x < |s.inodes| && InodeOk(s, x) && y < |s.inodes| && InodeOk(s, y) && s.outside[x] > 0
    requires s.inodes[x].nlink == 0 && s.inodes[x].ref == 1 && forall k :: k in s.entries ==> s.entries[k] != x
    ensures InodeOk(s.(inodes := s.inodes[x := Inode(None, 0, 0)], outside := s.outside - multiset{x},
                       entries := Without(s.entries, x), dots := s.dots - {x}, stale := s.stale || !EmptyDir(s, x)), y)
  {
    hide Calls, Children, Naming, Of;
    var inodes' := s.inodes[x := Inode(None, 0, 0)];
    WithoutFewer(s.entries, s.inodes, inodes', x, y);
    if s.inodes[y].kind == Dir && y != x { WithoutSame(s.entries, s.inodes, inodes', x, y); }
    if EmptyDir(s, x) { WithoutNone(s.entries, s.inodes, inodes', x, y); }
  }

  /** iput frees only an inode that no entry names and no call refers to. */
  lemma FreeKeeps(s: State, x: nat)
    requires Inv(s) && Has(s, x) && s.inodes[x].nlink == 0 && s.inodes[x].ref == 1
    ensures x != ROOT && forall k :: k in s.entries ==> s.entries[k] != x
    ensures forall t :: t in s.calls ==> s.calls[t].x != x && !In(Parent, s.calls[t], x)
    ensures Inv(s.(inodes := s.inodes[x := Inode(None, 0, 0)], outside := s.outside - multiset{x},
                   entries := Without(s.entries, x), dots := s.dots - {x}, stale := s.stale || !EmptyDir(s, x)))
  {
    hide Calls, Children, Naming, Of;
    var s' := s.(inodes := s.inodes[x := Inode(None, 0, 0)], outside := s.outside - multiset{x},
                 entries := Without(s.entries, x), dots := s.dots - {x}, stale := s.stale || !EmptyDir(s, x));
    assert InodeOk(s, x);
    forall k | k in s.entries ensures s.entries[k] != x { NamingNone(s.entries, x, k); }
    forall t | t in s.calls ensures s.calls[t].x != x && !In(Parent, s.calls[t], x) { CallsNone(s.calls, t, x); }
    forall y | 0 <= y < |s.inodes| ensures InodeOk(s', y) { FreeInode(s, x, y); }
    forall u | u in s'.calls ensures CallOk(s'.inodes, s'.entries, s'.dots, s'.calls[u]) {
      assert CallOk(s.inodes, s.entries, s.dots, s.calls[u]);
    }
  }

  lemma CallsNone(calls: map<nat, Call>, t: nat, x: nat)
    requires t in calls && |Calls(calls, Kid, x)| == 0 && |Calls(calls, Parent, x)| == 0
    ensures calls[t].x != x && !In(Parent, calls[t], x)
  {
    assert t !in Calls(calls, Kid, x) && t !in Calls(calls, Parent, x);
  }

  // ---------------------------------------------------------------- The theorems

  /** sys_link raises a link count past what a short can hold. */
  predicate Wraps(s: State, a: Action) {
    a.LinkStart? && a.x < |s.inodes| && s.inodes[a.x].nlink == 32767
  }

  /** A directory never has more links than it has slots, by far. */
  lemma DirectoryLinks(s: State, d: nat)
    requires Inv(s) && IsDir(s.inodes, d)
    ensures s.inodes[d].nlink <= SLOTS + 3 < 32767
  {
    assert InodeOk(s, d);
    SubsetCount(Children(s.entries, s.inodes, d), Of(s.entries, d));
    SubsetCount(Calls(s.calls, Debt, d), Calls(s.calls, Parent, d));
    OneParent(s.calls, d);
  }

  lemma CreateCountFits(s: State, t: nat)
    requires Inv(s) && t in s.calls && s.calls[t].Creating?
    ensures s.calls[t].d < |s.inodes| && s.inodes[s.calls[t].d].nlink < 32767
  {
    assert CallOk(s.inodes, s.entries, s.dots, s.calls[t]);
    DirectoryLinks(s, s.calls[t].d);
  }

  lemma OneParent(calls: map<nat, Call>, d: nat)
    requires Exclusive(calls)
    ensures |Calls(calls, Parent, d)| <= 1
  {
    if t :| t in Calls(calls, Parent, d) {
      assert Calls(calls, Parent, d) == {t};
    } else {
      assert Calls(calls, Parent, d) == {};
    }
  }

  lemma StepKeeps(s: State, a: Action)
    requires Inv(s) && !Wraps(s, a) && Step(s, a).Moved?
    ensures Inv(Step(s, a).s)
  {
    hide Inv, Calls, EmptyDir, Locked, Full, NoRoom, NoneFree;
    match a
    case Lookup(d, name) => RefKeeps(s, s.entries[(d, name)]);
    case Root => RootAllocated(s); RefKeeps(s, ROOT);
    case Dotdot(d) => RefKeeps(s, s.dots[d]);
    case Idup(x) => HeldAllocated(s, x); RefKeeps(s, x);
    case LinkStart(t, x) => AtMost(s, x); LinkStartKeeps(s, t, x);
    case LinkEntry(t, d, name) => LinkEntryKeeps(s, t, d, name);
    case LinkBad(t) => LowerKeeps(s, t);
    case Unlink(t, d, name) => UnlinkKeeps(s, t, d, name);
    case UnlinkParent(t) => UnlinkParentKeeps(s, t);
    case UnlinkChild(t) => LowerKeeps(s, t);
    case Create(t, d, name, kind, x) => CreateKeeps(s, t, d, name, kind, x);
    case CreateCount(t) => CreateCountFits(s, t); CreateCountKeeps(s, t);
    case CreateEntry(t) => CreateEntryKeeps(s, t);
    case Iput(x) =>
      if s.inodes[x].nlink == 0 && s.inodes[x].ref == 1 {
        FreeKeeps(s, x);
        assert Step(s, a).s.entries == Without(s.entries, x);
      } else {
        IputKeeps(s, x);
      }
  }

  lemma RootAllocated(s: State)
    requires Inv(s)
    ensures Allocated(s.inodes, ROOT)
  {
  }

  lemma HeldAllocated(s: State, x: nat)
    requires Inv(s) && Has(s, x)
    ensures Allocated(s.inodes, x)
  {
    assert InodeOk(s, x);
  }

  lemma AtMost(s: State, x: nat)
    requires Inv(s) && x < |s.inodes|
    ensures s.inodes[x].nlink <= 32767
  {
    assert InodeOk(s, x);
  }

  /** The count is kept exactly when sys_link does not meet 32767 links; there it is lost. */
  lemma StepKeepsExactly(s: State, a: Action)
    requires Inv(s) && Step(s, a).Moved?
    ensures Inv(Step(s, a).s) <==> !Wraps(s, a)
    ensures
      var s' := Step(s, a).s;
      Wraps(s, a) ==> s'.inodes[a.x].nlink < |Naming(s'.entries, a.x)|
  {
    if Wraps(s, a) {
      var s' := Step(s, a).s;
      assert s'.inodes[a.x].nlink == -32768;
      assert !InodeOk(s', a.x);
    } else {
      StepKeeps(s, a);
    }
  }

  /** dirlink finds neither an empty slot nor room for another. */
  predicate NoSlot(s: State, a: Action) {
    match a
    case LinkEntry(t, d, name) =>
      && t in s.calls && s.calls[t].Linking? && Has(s, d) && s.inodes[d].kind == Dir && (d, name) !in s.entries
      && !Locked(s, d) && Full(s, d)
    case CreateEntry(t) =>
      && t in s.calls && s.calls[t].Creating? && (s.calls[t].kind == Dir ==> s.calls[t].counted) && Full(s, s.calls[t].d)
    case _ => false
  }

  /** ".." of a directory still held leads to an inode that has been freed. */
  predicate Dangling(s: State, a: Action) {
    a.Dotdot? && Has(s, a.d) && s.inodes[a.d].kind == Dir && a.d in s.dots && !Allocated(s.inodes, s.dots[a.d])
  }

  /** create finds no free inode. */
  predicate NoInode(s: State, a: Action) {
    && a.Create? && a.t !in s.calls && Has(s, a.d) && s.inodes[a.d].kind == Dir && a.kind != None && !Locked(s, a.d)
    && (a.d, a.name) !in s.entries && NoneFree(s.inodes)
  }

  /** An inode not in the cache is looked up or allocated while NINODE others are in use. */
  predicate CacheFull(s: State, a: Action) {
    match a
    case Root => NoRoom(s.inodes, ROOT)
    case Dotdot(d) => Has(s, d) && s.inodes[d].kind == Dir && d in s.dots && NoRoom(s.inodes, s.dots[d])
    case Lookup(d, name) => Has(s, d) && s.inodes[d].kind == Dir && Away(s, d, name)
    case LinkEntry(t, d, name) =>
      t in s.calls && s.calls[t].Linking? && Has(s, d) && s.inodes[d].kind == Dir && !Locked(s, d) && Away(s, d, name)
    case Unlink(t, d, name) => t !in s.calls && Has(s, d) && s.inodes[d].kind == Dir && !Locked(s, d) && Away(s, d, name)
    case Create(t, d, name, kind, x) =>
      && t !in s.calls && Has(s, d) && s.inodes[d].kind == Dir && kind != None && !Locked(s, d)
      && (Away(s, d, name) || ((d, name) !in s.entries && FirstFree(s.inodes, x) && NoRoom(s.inodes, x)))
    case _ => false
  }

  predicate Away(s: State, d: nat, name: Name) {
    (d, name) in s.entries && NoRoom(s.inodes, s.entries[(d, name)])
  }

  /**
    A step panics exactly for want of a slot in the directory, of a free inode or of a slot in the
    inode cache, or for a dangling "..".  So the panics for a link count below 1, for an entry naming
    a freed inode and for a name taken in create cannot happen.
   */
  lemma PanicsExactly(s: State, a: Action)
    requires Inv(s)
    ensures Step(s, a).Panicked? <==> NoSlot(s, a) || Dangling(s, a) || NoInode(s, a) || CacheFull(s, a)
  {
    hide Calls, Children, Of, NoRoom;
    match a
    case Unlink(t, d, name) =>
      if (d, name) in s.entries {
        NamingSome(s.entries, (d, name));
        assert InodeOk(s, s.entries[(d, name)]);
      }
    case CreateEntry(t) =>
      if t in s.calls { assert CallOk(s.inodes, s.entries, s.dots, s.calls[t]); }
    case _ =>
  }

  /** One inode more or less in use. */
  lemma CachedSet(inodes: seq<Inode>, x: nat, i: Inode)
    requires x < |inodes|
    ensures |Cached(inodes[x := i])|
         == |Cached(inodes)| - (if inodes[x].ref > 0 then 1 else 0) + if i.ref > 0 then 1 else 0
  {
    var rest := Cached(inodes) - {x};
    assert Cached(inodes[x := i]) == if i.ref > 0 then rest + {x} else rest;
    assert Cached(inodes) == if inodes[x].ref > 0 then rest + {x} else rest;
  }

  /** No more inodes are in use than the cache has slots. */
  lemma StepCached(s: State, a: Action)
    requires Inv(s) && |Cached(s.inodes)| <= NINODE && Step(s, a).Moved?
    ensures |Cached(Step(s, a).s.inodes)| <= 50
  {
    hide Cached, Calls, EmptyDir, Locked, Full, CallsOk, EntriesOk, Exclusive;
    var s' := Step(s, a).s;
    var x := Changed(s, a);
    if s'.inodes != s.inodes {
      CachedSet(s.inodes, x, s'.inodes[x]);
      assert InodeOk(s, x);
    }
  }

  /** At most inode x changes, and it comes into the cache only where there is room for it. */
  predicate OneChanged(s: State, s': State, x: nat) {
    s'.inodes == s.inodes ||
    (&& x < |s.inodes| == |s'.inodes| && s'.inodes == s.inodes[x := s'.inodes[x]]
     && (s.inodes[x].ref == 0 < s'.inodes[x].ref ==> !NoRoom(s.inodes, x) || Has(s, x)))
  }

  /** The one inode that a step changes. */
  lemma Changed(s: State, a: Action) returns (x: nat)
    requires Step(s, a).Moved?
    ensures OneChanged(s, Step(s, a).s, x)
  {
    hide OneChanged, Step;
    if a.Lookup? || a.Root? || a.Dotdot? || a.Idup? || a.Iput? {
      x := ReferenceChanged(s, a);
    } else if a.Create? {
      x := a.x;
      CreateChanged(s, a);
    } else {
      x := CallChanged(s, a);
    }
  }

  lemma ReferenceChanged(s: State, a: Action) returns (x: nat)
    requires Step(s, a).Moved? && (a.Lookup? || a.Root? || a.Dotdot? || a.Idup? || a.Iput?)
    ensures OneChanged(s, Step(s, a).s, x)
  {
    hide NoRoom, Calls, EmptyDir, Locked, Full;
    match a
    case Lookup(d, name) => x := s.entries[(d, name)];
    case Root => x := ROOT;
    case Dotdot(d) => x := s.dots[d];
    case Idup(y) => x := y;
    case Iput(y) => x := y;
  }

  lemma CreateChanged(s: State, a: Action)
    requires Step(s, a).Moved? && a.Create?
    ensures OneChanged(s, Step(s, a).s, a.x)
  {
    hide NoRoom, Calls, Locked, Full, NoneFree;
  }

  lemma CallChanged(s: State, a: Action) returns (x: nat)
    requires Step(s, a).Moved? && !(a.Lookup? || a.Root? || a.Dotdot? || a.Idup? || a.Iput? || a.Create?)
    ensures OneChanged(s, Step(s, a).s, x)
  {
    hide NoRoom, Calls, EmptyDir, Locked, Full;
    x := 0;
    match a
    case LinkStart(t, y) => x := y;
    case LinkEntry(_, _, _) =>
    case LinkBad(t) => x := s.calls[t].x;
    case Unlink(t, d, name) => x := s.entries[(d, name)];
    case UnlinkParent(t) => x := s.calls[t].d;
    case UnlinkChild(t) => x := s.calls[t].x;
    case CreateCount(t) => x := s.calls[t].d;
    case CreateEntry(_) =>
  }

  /** ".." never dangles in the root or in a directory that an entry names: there it leads to the holder of the entry. */
  lemma DotdotHolds(s: State, d: nat, k: Key)
    requires Inv(s) && (d == ROOT || (k in s.entries && s.entries[k] == d && IsDir(s.inodes, d)))
    ensures !Dangling(s, Dotdot(d)) && d in s.dots && IsDir(s.inodes, s.dots[d]) && (d != ROOT ==> s.dots[d] == k.0)
  {
    if d == ROOT && k in s.entries && s.entries[k] == ROOT {
      NamingSome(s.entries, k);
      assert InodeOk(s, ROOT);
    }
  }

  // ---------------------------------------------------------------- Whole runs

  function Run(s: State, run: seq<Action>): State
    decreases |run|
  {
    if run == [] then s
    else
      var o := Step(s, run[0]);
      Run(if o.Moved? then o.s else s, run[1..])
  }

  predicate NoWrap(s: State, run: seq<Action>)
    decreases |run|
  {
    run != [] ==>
      && !Wraps(s, run[0])
      && NoWrap(if Step(s, run[0]).Moved? then Step(s, run[0]).s else s, run[1..])
  }

  lemma {:induction false} RunKeeps(s: State, run: seq<Action>)
    requires Inv(s) && NoWrap(s, run)
    ensures Inv(Run(s, run))
    ensures |Cached(s.inodes)| <= NINODE ==> |Cached(Run(s, run).inodes)| <= NINODE
    decreases |run|
  {
    if run != [] {
      var o := Step(s, run[0]);
      if o.Moved? {
        StepKeeps(s, run[0]);
        if |Cached(s.inodes)| <= NINODE { StepCached(s, run[0]); }
      }
      RunKeeps(if o.Moved? then o.s else s, run[1..]);
    }
  }

  /**
    After any run without wrap-around, link counts are at least the number of entries naming the
    inode, and exact unless a directory was freed with entries in it, every entry names an allocated
    inode, ".." of a directory so named leads to the directory that holds the entry, no more inodes are
    in use than the cache holds, and the next step panics exactly for want of a slot, of an inode or of
    room in the cache, or for a dangling "..".
   */
  lemma NeverUndercounts(s: State, run: seq<Action>, a: Action, x: nat)
    requires Inv(s) && |Cached(s.inodes)| <= NINODE && NoWrap(s, run) && x < |Run(s, run).inodes|
    ensures
      var e := Run(s, run);
      && e.inodes[x].nlink >= |Naming(e.entries, x)|
      && (IsDir(e.inodes, x) || !e.stale ==> e.inodes[x].nlink == Wanted(e, x))
      && EntriesOk(e.inodes, e.entries, e.dots) && |Cached(e.inodes)| <= NINODE
      && (Step(e, a).Panicked? <==> NoSlot(e, a) || Dangling(e, a) || NoInode(e, a) || CacheFull(e, a))
  {
    RunKeeps(s, run);
    assert InodeOk(Run(s, run), x);
    PanicsExactly(Run(s, run), a);
  }

  /** The file system as mkfs leaves it: every file entered once, in the root directory; every nlink is 1. */
  lemma InitialInv(inodes: seq<Inode>, entries: map<Key, nat>, stale: bool)
    requires |inodes| > 1 && inodes[1] == Inode(Dir, 1, 0)
    requires forall x :: 0 <= x < |inodes| && x != 1 ==> inodes[x] in {Inode(None, 0, 0), Inode(File, 1, 0)}
    requires forall k :: k in entries ==> k.0 == 1 && entries[k] < |inodes| && inodes[entries[k]].kind == File
    requires forall k, l :: k in entries && l in entries && k != l ==> entries[k] != entries[l]
    requires |entries| <= SLOTS
    requires !stale ==> forall x :: 0 <= x < |inodes| && inodes[x].kind == File ==> exists k :: k in entries && entries[k] == x
    ensures Inv(State(inodes, entries, map[ROOT := ROOT], multiset{}, map[], stale)) && Cached(inodes) == {}
  {
    var s := State(inodes, entries, map[ROOT := ROOT], multiset{}, map[], stale);
    forall x | 0 <= x < |inodes| ensures InodeOk(s, x) {
      assert Children(entries, inodes, x) == {};
      assert forall r :: Calls(map[], r, x) == {};
      SubsetCount(Of(entries, x), entries.Keys);
      if k :| k in entries && entries[k] == x {
        assert Naming(entries, x) == {k};
      } else {
        assert Naming(entries, x) == {};
      }
    }
  }
}
