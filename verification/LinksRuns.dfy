/**
  Runs of file-system calls that go wrong (sysfile.c, fs.c): one in which ".." leads to a freed inode,
  one in which sys_link wraps a link count, one that uses up the inodes and one that fills the inode
  cache.
 */
module LinksRuns {
  import opened Sets
  import opened Links

  // ---------------------------------------------------------------- Runs in pieces

  lemma {:induction false} RunConcat(s: State, a: seq<Action>, b: seq<Action>)
    requires NoWrap(s, a) && NoWrap(Run(s, a), b)
    ensures NoWrap(s, a + b) && Run(s, a + b) == Run(Run(s, a), b)
    decreases |a|
  {
    if a == [] {
      assert a + b == b;
    } else {
      var o := Step(s, a[0]);
      RunConcat(if o.Moved? then o.s else s, a[1..], b);
      assert (a + b)[0] == a[0] && (a + b)[1..] == a[1..] + b;
    }
  }

  /** Some run without wrap-around leads from s to e. */
  ghost predicate Leads(s: State, e: State) {
    exists run :: NoWrap(s, run) && Run(s, run) == e
  }

  lemma LeadsNowhere(s: State)
    ensures Leads(s, s)
  {
    assert NoWrap(s, []) && Run(s, []) == s;
  }

  lemma LeadsOn(s: State, e: State, f: State)
    requires Leads(s, e) && Leads(e, f)
    ensures Leads(s, f)
  {
    var a :| NoWrap(s, a) && Run(s, a) == e;
    var b :| NoWrap(e, b) && Run(e, b) == f;
    RunConcat(s, a, b);
  }

  lemma LeadsStep(s: State, a: Action, e: State)
    requires !Wraps(s, a) && Step(s, a) == Moved(e)
    ensures Leads(s, e)
  {
    hide Step, Wraps;
    assert [a][1..] == [] && Run(e, []) == e && NoWrap(e, []);
    assert NoWrap(s, [a]) && Run(s, [a]) == e;
  }

  lemma NotLockedIdle(s: State, d: nat)
    requires s.calls == map[]
    ensures !Locked(s, d)
  {
    assert Calls(s.calls, Parent, d) == {};
  }

  // ---------------------------------------------------------------- Whole calls

  /** After mkdir of name in d, as inode x. */
  function Made(s: State, d: nat, name: Name, x: nat): State
    requires d < |s.inodes| && x < |s.inodes|
  {
    s.(inodes := s.inodes[x := Inode(Dir, 1, 1)][d := s.inodes[d].(nlink := s.inodes[d].nlink + 1)],
       entries := s.entries[(d, name) := x], dots := s.dots[x := d], outside := s.outside + multiset{x})
  }

  /** mkdir while it makes the inode, and once it has counted the parent. */
  function Making(s: State, d: nat, name: Name, x: nat): State
    requires x < |s.inodes|
  {
    s.(inodes := s.inodes[x := Inode(Dir, 1, 1)], outside := s.outside - multiset{d},
       calls := map[0 := Creating(d, x, name, Dir, false)])
  }

  function Counting(s: State, d: nat, name: Name, x: nat): State
    requires d < |s.inodes| && x < |s.inodes|
  {
    Made(s, d, name, x).(entries := s.entries, outside := s.outside - multiset{d},
                         calls := map[0 := Creating(d, x, name, Dir, true)])
  }

  lemma MkdirOne(s: State, d: nat, name: Name, x: nat)
    requires s.calls == map[] && Has(s, d) && s.inodes[d].kind == Dir && (d, name) !in s.entries
    requires FirstFree(s.inodes, x) && |Cached(s.inodes)| < NINODE
    ensures Step(s, Create(0, d, name, Dir, x)) == Moved(Making(s, d, name, x))
  {
    NotLockedIdle(s, d);
    assert s.calls[0 := Creating(d, x, name, Dir, false)] == map[0 := Creating(d, x, name, Dir, false)];
  }

  lemma MkdirTwo(s: State, d: nat, name: Name, x: nat)
    requires d < |s.inodes| && x < |s.inodes| && x != d && s.inodes[d].nlink < 32767
    ensures Step(Making(s, d, name, x), CreateCount(0)) == Moved(Counting(s, d, name, x))
  {
    var c := Creating(d, x, name, Dir, true);
    assert Making(s, d, name, x).calls[0 := c] == map[0 := c];
  }

  lemma MkdirThree(s: State, d: nat, name: Name, x: nat)
    requires s.calls == map[] && Has(s, d) && x < |s.inodes| && x != d && (d, name) !in s.entries && !Full(s, d)
    ensures Step(Counting(s, d, name, x), CreateEntry(0)) == Moved(Made(s, d, name, x))
  {
    var s2 := Counting(s, d, name, x);
    assert s2.calls - {0} == map[];
    assert s2.outside + multiset{x, d} == s.outside + multiset{x};
  }

  lemma Mkdir(s: State, d: nat, name: Name, x: nat)
    requires s.calls == map[] && Has(s, d) && s.inodes[d].kind == Dir && s.inodes[d].nlink < 32767 && (d, name) !in s.entries
    requires FirstFree(s.inodes, x) && |Cached(s.inodes)| < NINODE && x != d && !Full(s, d)
    ensures Leads(s, Made(s, d, name, x))
  {
    hide Full, Step, Made, Making, Counting;
    MkdirOne(s, d, name, x);
    MkdirTwo(s, d, name, x);
    MkdirThree(s, d, name, x);
    var s1, s2, e := Making(s, d, name, x), Counting(s, d, name, x), Made(s, d, name, x);
    LeadsStep(s, Create(0, d, name, Dir, x), s1);
    LeadsStep(s1, CreateCount(0), s2);
    LeadsStep(s2, CreateEntry(0), e);
    LeadsOn(s, s1, s2);
    LeadsOn(s, s2, e);
  }

  lemma SameFull(s: State, s': State, d: nat)
    requires s.entries == s'.entries
    ensures Full(s, d) <==> Full(s', d)
  {
  }

  /** After unlink of the empty directory x, name in d; the caller still refers to it. */
  function Unmade(s: State, d: nat, name: Name, x: nat): State
    requires d < |s.inodes| && x < |s.inodes|
  {
    s.(inodes := s.inodes[x := s.inodes[x].(nlink := s.inodes[x].nlink - 1, ref := s.inodes[x].ref + 1)]
                         [d := s.inodes[d].(nlink := s.inodes[d].nlink - 1)],
       entries := s.entries - {(d, name)}, outside := s.outside + multiset{x})
  }

  /** unlink with the entry cleared, and once the parent is done with. */
  function Clearing(s: State, d: nat, name: Name, x: nat): State
    requires x < |s.inodes|
  {
    s.(inodes := s.inodes[x := s.inodes[x].(ref := s.inodes[x].ref + 1)], entries := s.entries - {(d, name)},
       outside := s.outside - multiset{d}, calls := map[0 := Unlinking(d, x, true)])
  }

  function Lowering(s: State, d: nat, name: Name, x: nat): State
    requires d < |s.inodes| && x < |s.inodes|
  {
    s.(inodes := s.inodes[x := s.inodes[x].(ref := s.inodes[x].ref + 1)][d := s.inodes[d].(nlink := s.inodes[d].nlink - 1)],
       entries := s.entries - {(d, name)}, calls := map[0 := Unlinked(x)])
  }

  lemma RmdirOne(s: State, d: nat, name: Name, x: nat)
    requires s.calls == map[] && Has(s, d) && s.inodes[d].kind == Dir && (d, name) in s.entries && s.entries[(d, name)] == x
    requires x < |s.inodes| && s.inodes[x].kind == Dir && s.inodes[x].nlink >= 1 && s.inodes[x].ref > 0 && EmptyDir(s, x)
    ensures Step(s, Unlink(0, d, name)) == Moved(Clearing(s, d, name, x))
  {
    NotLockedIdle(s, d);
    assert s.calls[0 := Unlinking(d, x, true)] == map[0 := Unlinking(d, x, true)];
  }

  lemma RmdirTwo(s: State, d: nat, name: Name, x: nat)
    requires Has(s, d) && x < |s.inodes| && x != d
    ensures Step(Clearing(s, d, name, x), UnlinkParent(0)) == Moved(Lowering(s, d, name, x))
  {
    var s1 := Clearing(s, d, name, x);
    assert s1.calls[0 := Unlinked(x)] == map[0 := Unlinked(x)];
    assert s1.outside + multiset{d} == s.outside;
  }

  lemma RmdirThree(s: State, d: nat, name: Name, x: nat)
    requires s.calls == map[] && d < |s.inodes| && x < |s.inodes| && x != d
    ensures Step(Lowering(s, d, name, x), UnlinkChild(0)) == Moved(Unmade(s, d, name, x))
  {
    var s2 := Lowering(s, d, name, x);
    assert s2.calls - {0} == map[];
    assert s2.inodes[x := s2.inodes[x].(nlink := s2.inodes[x].nlink - 1)] == Unmade(s, d, name, x).inodes;
  }

  lemma Rmdir(s: State, d: nat, name: Name, x: nat)
    requires s.calls == map[] && Has(s, d) && s.inodes[d].kind == Dir && (d, name) in s.entries && s.entries[(d, name)] == x
    requires x < |s.inodes| && s.inodes[x].kind == Dir && s.inodes[x].nlink >= 1 && s.inodes[x].ref > 0
    requires x != d && EmptyDir(s, x)
    ensures Leads(s, Unmade(s, d, name, x))
  {
    hide Step, Unmade, Clearing, Lowering, EmptyDir;
    RmdirOne(s, d, name, x);
    RmdirTwo(s, d, name, x);
    RmdirThree(s, d, name, x);
    var s1, s2, e := Clearing(s, d, name, x), Lowering(s, d, name, x), Unmade(s, d, name, x);
    LeadsStep(s, Unlink(0, d, name), s1);
    LeadsStep(s1, UnlinkParent(0), s2);
    LeadsStep(s2, UnlinkChild(0), e);
    LeadsOn(s, s1, s2);
    LeadsOn(s, s2, e);
  }

  /** After sys_link of x as name in d. */
  function Named(s: State, x: nat, d: nat, name: Name): State
    requires x < |s.inodes|
  {
    s.(inodes := s.inodes[x := s.inodes[x].(nlink := s.inodes[x].nlink + 1)], entries := s.entries[(d, name) := x])
  }

  /** sys_link with the count raised and no entry yet. */
  function Raised(s: State, x: nat): State
    requires x < |s.inodes|
  {
    s.(inodes := s.inodes[x := s.inodes[x].(nlink := s.inodes[x].nlink + 1)], calls := map[0 := Linking(x)],
       outside := s.outside - multiset{x})
  }

  lemma LinkOne(s: State, x: nat)
    requires s.calls == map[] && Has(s, x) && s.inodes[x].kind == File && s.inodes[x].nlink < 32767
    ensures Step(s, LinkStart(0, x)) == Moved(Raised(s, x))
  {
    assert s.calls[0 := Linking(x)] == map[0 := Linking(x)];
  }

  lemma LinkTwo(s: State, x: nat, d: nat, name: Name)
    requires s.calls == map[] && Has(s, x) && Has(s, d) && s.inodes[d].kind == Dir && x != d
    requires (d, name) !in s.entries && !Full(s, d)
    ensures Step(Raised(s, x), LinkEntry(0, d, name)) == Moved(Named(s, x, d, name))
  {
    hide Full;
    var s1 := Raised(s, x);
    SameFull(s, s1, d);
    assert Calls(s1.calls, Parent, d) == {};
    assert s1.calls - {0} == map[];
    assert s1.outside + multiset{x} == s.outside;
  }

  lemma Link(s: State, x: nat, d: nat, name: Name)
    requires s.calls == map[] && Has(s, x) && s.inodes[x].kind == File && s.inodes[x].nlink < 32767
    requires Has(s, d) && s.inodes[d].kind == Dir && x != d && (d, name) !in s.entries && !Full(s, d)
    ensures Leads(s, Named(s, x, d, name))
  {
    hide Full, Step, Raised, Named;
    var s1, e := Raised(s, x), Named(s, x, d, name);
    LinkOne(s, x);
    LinkTwo(s, x, d, name);
    LeadsStep(s, LinkStart(0, x), s1);
    LeadsStep(s1, LinkEntry(0, d, name), e);
    LeadsOn(s, s1, e);
  }

  // ---------------------------------------------------------------- Dot-dot to nowhere

  /** A file system with nothing in it, as mkfs would leave it. */
  const EMPTY := State([Inode(None, 0, 0), Inode(Dir, 1, 0), Inode(None, 0, 0), Inode(None, 0, 0)], map[],
                       map[ROOT := ROOT], multiset{}, map[], false)

  const FREE := Inode(None, 0, 0)

  /** The root, a directory a in it and b in that, as far as they exist; the process refers to all of them. */
  function Nested(root: Inode, a: Inode, b: Inode, entries: map<Key, nat>, dots: map<nat, nat>, held: multiset<nat>): State {
    State([FREE, root, a, b], entries, dots, held, map[], false)
  }

  function DotsUp(): map<nat, nat> { map[ROOT := ROOT, 2 := ROOT, 3 := 2] }

  lemma RootHeld(s1: State)
    requires s1 == Nested(Inode(Dir, 1, 1), FREE, FREE, map[], map[ROOT := ROOT], multiset{1})
    ensures Leads(EMPTY, s1)
  {
    hide Leads;
    assert multiset{} + multiset{1} == multiset{1};
    FewInodes(EMPTY.inodes);
    LeadsStep(EMPTY, Root, s1);
  }

  lemma OuterMade(s1: State, s2: State)
    requires s1 == Nested(Inode(Dir, 1, 1), FREE, FREE, map[], map[ROOT := ROOT], multiset{1})
    requires s2 == Nested(Inode(Dir, 2, 1), Inode(Dir, 1, 1), FREE, map[(ROOT, "a") := 2], map[ROOT := ROOT, 2 := ROOT], multiset{1, 2})
    ensures Leads(s1, s2)
  {
    hide Leads, Step, Cached, Full;
    FewEntries(s1, 1);
    FewInodes(s1.inodes);
    Mkdir(s1, 1, "a", 2);
    assert Made(s1, 1, "a", 2) == s2;
  }

  lemma InnerMade(s2: State, s3: State)
    requires s2 == Nested(Inode(Dir, 2, 1), Inode(Dir, 1, 1), FREE, map[(ROOT, "a") := 2], map[ROOT := ROOT, 2 := ROOT], multiset{1, 2})
    requires s3 == Nested(Inode(Dir, 2, 1), Inode(Dir, 2, 1), Inode(Dir, 1, 1),
                          map[(ROOT, "a") := 2, (2, "b") := 3], DotsUp(), multiset{1, 2, 3})
    ensures Leads(s2, s3)
  {
    hide Leads, Step, Cached, Full;
    FewEntries(s2, 2);
    FewInodes(s2.inodes);
    Mkdir(s2, 2, "b", 3);
    assert Made(s2, 2, "b", 3) == s3;
  }

  /** mkdir a and a/b; the process stays in a/b. */
  lemma NestedMade(s3: State)
    requires s3 == Nested(Inode(Dir, 2, 1), Inode(Dir, 2, 1), Inode(Dir, 1, 1),
                          map[(ROOT, "a") := 2, (2, "b") := 3], DotsUp(), multiset{1, 2, 3})
    ensures Leads(EMPTY, s3)
  {
    hide Leads;
    var s1 := Nested(Inode(Dir, 1, 1), FREE, FREE, map[], map[ROOT := ROOT], multiset{1});
    var s2 := Nested(Inode(Dir, 2, 1), Inode(Dir, 1, 1), FREE, map[(ROOT, "a") := 2], map[ROOT := ROOT, 2 := ROOT], multiset{1, 2});
    RootHeld(s1);
    OuterMade(s1, s2);
    InnerMade(s2, s3);
    LeadsOn(EMPTY, s1, s2);
    LeadsOn(EMPTY, s2, s3);
  }

  lemma FewInodes(inodes: seq<Inode>)
    requires |inodes| < NINODE
    ensures |Cached(inodes)| < NINODE
  {
    SubsetCount(Cached(inodes), Interval(0, |inodes|));
    IntervalCount(0, |inodes|);
  }

  lemma FewEntries(s: State, d: nat)
    requires |s.entries| < SLOTS
    ensures !Full(s, d)
  {
    SubsetCount(Of(s.entries, d), s.entries.Keys);
  }

  /** iput of a reference that is not the last. */
  lemma Put(s: State, x: nat)
    requires Has(s, x) && s.inodes[x].ref >= 2
    ensures Leads(s, s.(inodes := s.inodes[x := s.inodes[x].(ref := s.inodes[x].ref - 1)], outside := s.outside - multiset{x}))
  {
    LeadsStep(s, Iput(x), s.(inodes := s.inodes[x := s.inodes[x].(ref := s.inodes[x].ref - 1)], outside := s.outside - multiset{x}));
  }

  /** iput of the last reference to a directory without links or entries. */
  lemma PutLast(s: State, x: nat)
    requires Has(s, x) && s.inodes[x].ref == 1 && s.inodes[x].nlink == 0 && EmptyDir(s, x)
    ensures Leads(s, s.(inodes := s.inodes[x := FREE], outside := s.outside - multiset{x}, dots := s.dots - {x}))
  {
    assert (map k | k in s.entries && k.0 != x :: s.entries[k]) == s.entries;
    LeadsStep(s, Iput(x), s.(inodes := s.inodes[x := FREE], outside := s.outside - multiset{x}, dots := s.dots - {x}));
  }

  /** rmdir a/b, which the process still uses. */
  lemma InnerRemoved(s3: State, s5: State)
    requires s3 == Nested(Inode(Dir, 2, 1), Inode(Dir, 2, 1), Inode(Dir, 1, 1),
                          map[(ROOT, "a") := 2, (2, "b") := 3], DotsUp(), multiset{1, 2, 3})
    requires s5 == Nested(Inode(Dir, 2, 1), Inode(Dir, 1, 1), Inode(Dir, 0, 1), map[(ROOT, "a") := 2], DotsUp(), multiset{1, 2, 3})
    ensures Leads(s3, s5)
  {
    hide Leads, Step;
    var s4 := Unmade(s3, 2, "b", 3);
    Rmdir(s3, 2, "b", 3);
    Put(s4, 3);
    assert s3.entries - {(2, "b")} == map[(ROOT, "a") := 2];
    assert s4.outside - multiset{3} == multiset{1, 2, 3};
    LeadsOn(s3, s4, s5);
  }

  /** rmdir a, the reference of the call included. */
  lemma OuterUnlinked(s5: State, s7: State)
    requires s5 == Nested(Inode(Dir, 2, 1), Inode(Dir, 1, 1), Inode(Dir, 0, 1), map[(ROOT, "a") := 2], DotsUp(), multiset{1, 2, 3})
    requires s7 == Nested(Inode(Dir, 1, 1), Inode(Dir, 0, 1), Inode(Dir, 0, 1), map[], DotsUp(), multiset{1, 2, 3})
    ensures Leads(s5, s7)
  {
    hide Leads, Step;
    var s6 := Unmade(s5, 1, "a", 2);
    Rmdir(s5, 1, "a", 2);
    Put(s6, 2);
    assert s5.entries - {(ROOT, "a")} == map[];
    assert s6.outside - multiset{2} == multiset{1, 2, 3};
    LeadsOn(s5, s6, s7);
  }

  lemma OuterFreed(s7: State, s8: State)
    requires s7 == Nested(Inode(Dir, 1, 1), Inode(Dir, 0, 1), Inode(Dir, 0, 1), map[], DotsUp(), multiset{1, 2, 3})
    requires s8 == Nested(Inode(Dir, 1, 1), FREE, Inode(Dir, 0, 1), map[], map[ROOT := ROOT, 3 := 2], multiset{1, 3})
    ensures Leads(s7, s8)
  {
    hide Leads, Step;
    PutLast(s7, 2);
    assert s7.outside - multiset{2} == multiset{1, 3};
    assert DotsUp() - {2} == map[ROOT := ROOT, 3 := 2];
    assert s7.inodes[2 := FREE] == s8.inodes;
  }

  /**
    Make a and a/b, stay in a/b, remove a/b and then a: looking up ".." panics, for a is freed.
   */
  lemma DotdotPanics() returns (e: State)
    ensures Inv(EMPTY) && Leads(EMPTY, e) && Step(e, Dotdot(3)).Panicked?
  {
    hide Leads;
    InitialInv(EMPTY.inodes, EMPTY.entries, false);
    var s3 := Nested(Inode(Dir, 2, 1), Inode(Dir, 2, 1), Inode(Dir, 1, 1), map[(ROOT, "a") := 2, (2, "b") := 3], DotsUp(), multiset{1, 2, 3});
    var s5 := Nested(Inode(Dir, 2, 1), Inode(Dir, 1, 1), Inode(Dir, 0, 1), map[(ROOT, "a") := 2], DotsUp(), multiset{1, 2, 3});
    var s7 := Nested(Inode(Dir, 1, 1), Inode(Dir, 0, 1), Inode(Dir, 0, 1), map[], DotsUp(), multiset{1, 2, 3});
    e := Nested(Inode(Dir, 1, 1), FREE, Inode(Dir, 0, 1), map[], map[ROOT := ROOT, 3 := 2], multiset{1, 3});
    NestedMade(s3);
    InnerRemoved(s3, s5);
    OuterUnlinked(s5, s7);
    OuterFreed(s7, e);
    LeadsOn(EMPTY, s3, s5);
    LeadsOn(EMPTY, s5, s7);
    LeadsOn(EMPTY, s7, e);
  }

  // ---------------------------------------------------------------- 32767 links

  /** Directories to hold the links, and links in each. */
  const DIRS: nat := 8
  const EACH: nat := 4200

  /** The first link of the file is its entry in the root. */
  const MORE: nat := 32766

  /** Names of two characters, neither of them a slash. */
  function Short(q: nat): Name
    requires q < EACH
  {
    [(65 + q / 100) as char, (128 + q % 100) as char]
  }

  lemma ShortDiffer(p: nat, q: nat)
    requires p < EACH && q < EACH && p != q
    ensures Short(p) != Short(q)
  {
    assert p / 100 != q / 100 || p % 100 != q % 100;
    assert Short(p)[0] != Short(q)[0] || Short(p)[1] != Short(q)[1];
  }

  /** A file system with one file, as mkfs would leave it, and room for the directories. */
  function OneFile(): State {
    State(seq(3 + DIRS, i => if i == ROOT then Inode(Dir, 1, 0) else if i == 2 then Inode(File, 1, 0) else FREE),
          map[(ROOT, "f") := 2], map[ROOT := ROOT], multiset{}, map[], false)
  }

  /** i directories are made, empty, and the process refers to them, to the root and to the file. */
  predicate Built(s: State, i: nat) {
    && s.calls == map[] && |s.inodes| == 3 + DIRS && i <= DIRS && BuiltInodes(s, i) && BuiltEntries(s.entries, i)
  }

  predicate BuiltInodes(s: State, i: nat)
    requires |s.inodes| == 3 + DIRS
  {
    && Has(s, ROOT) && s.inodes[ROOT].kind == Dir && s.inodes[ROOT].nlink == 1 + i
    && Has(s, 2) && s.inodes[2].kind == File && s.inodes[2].nlink == 1
    && (forall j :: 3 <= j < 3 + DIRS ==> if j < 3 + i then Has(s, j) && s.inodes[j].kind == Dir else s.inodes[j].kind == None)
  }

  predicate BuiltEntries(entries: map<Key, nat>, i: nat) {
    && |entries| == 1 + i && (forall k :: k in entries ==> k.0 == ROOT)
    && (forall j :: i <= j < DIRS ==> (ROOT, Short(j)) !in entries)
  }

  lemma BuiltStart() returns (s: State)
    ensures Leads(OneFile(), s) && Built(s, 0)
  {
    var s0 := OneFile();
    var s1 := Ref(s0, ROOT, 1).(outside := s0.outside + multiset{ROOT});
    FewInodes(s0.inodes);
    LeadsStep(s0, Root, s1);
    FewInodes(s1.inodes);
    s := Ref(s1, 2, 1).(outside := s1.outside + multiset{2});
    LeadsStep(s1, Lookup(ROOT, "f"), s);
    LeadsOn(s0, s1, s);
    assert s.entries.Keys == {(ROOT, "f")};
    forall j | 0 <= j < DIRS ensures (ROOT, Short(j)) !in s.entries { assert |Short(j)| != |"f"|; }
  }

  lemma BuiltInodesMore(s: State, i: nat, name: Name)
    requires |s.inodes| == 3 + DIRS && BuiltInodes(s, i) && i < DIRS
    ensures BuiltInodes(Made(s, ROOT, name, 3 + i), i + 1)
  {
    var e := Made(s, ROOT, name, 3 + i);
    forall j | 3 <= j < 3 + DIRS
      ensures if j < 3 + (i + 1) then Has(e, j) && e.inodes[j].kind == Dir else e.inodes[j].kind == None
    {
      assert j != 3 + i ==> e.inodes[j] == s.inodes[j];
    }
  }

  lemma BuiltEntriesMore(entries: map<Key, nat>, i: nat, v: nat)
    requires BuiltEntries(entries, i) && i < DIRS
    ensures BuiltEntries(entries[(ROOT, Short(i)) := v], i + 1)
  {
    var e := entries[(ROOT, Short(i)) := v];
    assert e.Keys == entries.Keys + {(ROOT, Short(i))};
    forall j | i + 1 <= j < DIRS ensures (ROOT, Short(j)) !in e { ShortDiffer(i, j); }
  }

  lemma BuiltMkdir(s: State, i: nat)
    requires Built(s, i) && i < DIRS
    ensures Leads(s, Made(s, ROOT, Short(i), 3 + i))
  {
    hide Leads, Made, Step, Cached, Full, Short;
    FewEntries(s, ROOT);
    FewInodes(s.inodes);
    assert FirstFree(s.inodes, 3 + i) by {
      forall y | 1 <= y < 3 + i ensures s.inodes[y].kind != None { assert y == ROOT || y == 2 || 3 <= y; }
    }
    Mkdir(s, ROOT, Short(i), 3 + i);
  }

  lemma BuiltMore(s: State, i: nat)
    requires Built(s, i) && i < DIRS
    ensures Leads(s, Made(s, ROOT, Short(i), 3 + i)) && Built(Made(s, ROOT, Short(i), 3 + i), i + 1)
  {
    hide Leads, BuiltInodes, BuiltEntries, Short;
    BuiltMkdir(s, i);
    BuiltInodesMore(s, i, Short(i));
    BuiltEntriesMore(s.entries, i, 3 + i);
  }

  lemma {:induction false} BuiltAll(s: State, i: nat) returns (e: State)
    requires Built(s, i)
    ensures Leads(s, e) && Built(e, DIRS)
    decreases DIRS - i
  {
    if i == DIRS {
      LeadsNowhere(s);
      e := s;
    } else {
      hide Built, Leads, Made;
      BuiltMeans(s, i);
      BuiltMore(s, i);
      var s1 := Made(s, ROOT, Short(i), 3 + i);
      e := BuiltAll(s1, i + 1);
      LeadsOn(s, s1, e);
    }
  }

  lemma BuiltMeans(s: State, i: nat)
    requires Built(s, i)
    ensures i <= DIRS && |s.inodes| == 3 + DIRS
  {
  }

  /** Of the first m links, how many are in directory 3 + j. */
  function Filled(m: nat, j: nat): nat {
    if m <= EACH * j then 0 else if m >= EACH * j + EACH then EACH else m - EACH * j
  }

  /** The file has m more links, EACH to a directory in turn. */
  predicate Ready(s: State, m: nat) {
    && s.calls == map[] && |s.inodes| == 3 + DIRS
    && Has(s, 2) && s.inodes[2].kind == File && s.inodes[2].nlink == 1 + m
    && (forall j :: 0 <= j < DIRS ==> ReadyDir(s, m, j))
  }

  predicate ReadyDir(s: State, m: nat, j: nat) {
    && Has(s, 3 + j) && s.inodes[3 + j].kind == Dir && |Of(s.entries, 3 + j)| == Filled(m, j)
    && forall q :: Filled(m, j) <= q < EACH ==> (3 + j, Short(q)) !in s.entries
  }

  lemma ReadyStart(s: State)
    requires Built(s, DIRS)
    ensures Ready(s, 0)
  {
    forall j | 0 <= j < DIRS ensures ReadyDir(s, 0, j) { assert Of(s.entries, 3 + j) == {}; }
  }

  lemma ReadyMore(s: State, m: nat)
    requires Ready(s, m) && m < MORE
    ensures
      var j, q := m / EACH, m % EACH;
      Leads(s, Named(s, 2, 3 + j, Short(q))) && Ready(Named(s, 2, 3 + j, Short(q)), m + 1)
  {
    var j, q := m / EACH, m % EACH;
    assert m == EACH * j + q && j < DIRS && Filled(m, j) == q;
    assert ReadyDir(s, m, j);
    Link(s, 2, 3 + j, Short(q));
    var e := Named(s, 2, 3 + j, Short(q));
    var m' := m + 1;
    forall i | 0 <= i < DIRS ensures ReadyDir(e, m', i) { ReadyDirMore(s, m, i); }
  }

  lemma ReadyDirMore(s: State, m: nat, i: nat)
    requires Ready(s, m) && m < MORE && i < DIRS && ReadyDir(s, m, m / EACH)
    ensures ReadyDir(Named(s, 2, 3 + m / EACH, Short(m % EACH)), m + 1, i)
  {
    var j, q := m / EACH, m % EACH;
    assert ReadyDir(s, m, i);
    OfAdd(s.entries, (3 + j, Short(q)), 2, 3 + i);
    var e := Named(s, 2, 3 + j, Short(q));
    if i == j {
      forall p | q < p < EACH ensures (3 + j, Short(p)) !in e.entries { ShortDiffer(p, q); }
    }
  }

  lemma {:induction false} ReadyAll(s: State, m: nat) returns (e: State)
    requires Ready(s, m) && m <= MORE
    ensures Leads(s, e) && Ready(e, MORE)
    decreases MORE - m
  {
    if m == MORE {
      LeadsNowhere(s);
      e := s;
    } else {
      hide Ready, Leads, Named;
      ReadyMeans(s, m);
      ReadyMore(s, m);
      var s1 := Named(s, 2, 3 + m / EACH, Short(m % EACH));
      e := ReadyAll(s1, m + 1);
      LeadsOn(s, s1, e);
    }
  }

  lemma ReadyMeans(s: State, m: nat)
    requires Ready(s, m)
    ensures |s.inodes| == 3 + DIRS
  {
  }

  /**
    sys_link can reach 32767 links of one file, in eight directories; the next call makes the count
    negative while entries name the file.
   */
  lemma WrapReached() returns (e: State)
    ensures Inv(OneFile()) && Leads(OneFile(), e)
    ensures Wraps(e, LinkStart(0, 2)) && Step(e, LinkStart(0, 2)).Moved?
    ensures
      var s := Step(e, LinkStart(0, 2)).s;
      s.inodes[2].nlink < |Naming(s.entries, 2)|
  {
    OneFileInv();
    var s := BuiltStart();
    var d := BuiltAll(s, 0);
    ReadyStart(d);
    e := ReadyAll(d, 0);
    LeadsOn(OneFile(), s, d);
    LeadsOn(OneFile(), d, e);
  }

  lemma OneFileInv()
    ensures Inv(OneFile())
  {
    InitialInv(OneFile().inodes, OneFile().entries, false);
  }

  // ---------------------------------------------------------------- No inode, no room in the cache

  /** The file system that mkfs makes of no files, with n inodes. */
  function Fresh(n: nat): State {
    State(seq(n, i => if i == ROOT then Inode(Dir, 1, 0) else FREE), map[], map[ROOT := ROOT], multiset{}, map[], false)
  }

  /** After open with O_CREATE of name in d, as inode x. */
  function Opened(s: State, d: nat, name: Name, x: nat): State
    requires x < |s.inodes|
  {
    s.(inodes := s.inodes[x := Inode(File, 1, 1)], entries := s.entries[(d, name) := x], outside := s.outside + multiset{x})
  }

  function Opening(s: State, d: nat, name: Name, x: nat): State
    requires x < |s.inodes|
  {
    s.(inodes := s.inodes[x := Inode(File, 1, 1)], outside := s.outside - multiset{d},
       calls := map[0 := Creating(d, x, name, File, false)])
  }

  lemma OpenOne(s: State, d: nat, name: Name, x: nat)
    requires s.calls == map[] && Has(s, d) && s.inodes[d].kind == Dir && (d, name) !in s.entries
    requires FirstFree(s.inodes, x) && |Cached(s.inodes)| < NINODE
    ensures Step(s, Create(0, d, name, File, x)) == Moved(Opening(s, d, name, x))
  {
    NotLockedIdle(s, d);
    assert s.calls[0 := Creating(d, x, name, File, false)] == map[0 := Creating(d, x, name, File, false)];
  }

  lemma OpenTwo(s: State, d: nat, name: Name, x: nat)
    requires s.calls == map[] && Has(s, d) && x < |s.inodes| && x != d && (d, name) !in s.entries && !Full(s, d)
    ensures Step(Opening(s, d, name, x), CreateEntry(0)) == Moved(Opened(s, d, name, x))
  {
    var s1 := Opening(s, d, name, x);
    assert s1.calls - {0} == map[];
    assert s1.outside + multiset{x, d} == s.outside + multiset{x};
  }

  lemma Open(s: State, d: nat, name: Name, x: nat)
    requires s.calls == map[] && Has(s, d) && s.inodes[d].kind == Dir && (d, name) !in s.entries && !Full(s, d)
    requires FirstFree(s.inodes, x) && |Cached(s.inodes)| < NINODE && x != d
    ensures Leads(s, Opened(s, d, name, x))
  {
    hide Full, Step, Opening, Opened, Cached;
    var s1, e := Opening(s, d, name, x), Opened(s, d, name, x);
    OpenOne(s, d, name, x);
    OpenTwo(s, d, name, x);
    LeadsStep(s, Create(0, d, name, File, x), s1);
    LeadsStep(s1, CreateEntry(0), e);
    LeadsOn(s, s1, e);
  }

  /** i files are in the root directory, the first of them inode 2, and are open or closed. */
  predicate Files(s: State, n: nat, i: nat, open: bool) {
    && s.calls == map[] && 2 + i <= n == |s.inodes| <= EACH
    && FilesInodes(s, i, open) && FilesEntries(s.entries, n, i)
  }

  predicate FilesInodes(s: State, i: nat, open: bool)
    requires 2 + i <= |s.inodes|
  {
    && s.inodes[0] == FREE && Has(s, ROOT) && s.inodes[ROOT] == Inode(Dir, 1, 1)
    && (forall j :: 2 <= j < |s.inodes| ==> s.inodes[j] == FileInode(j < 2 + i, open))
  }

  function FileInode(made: bool, open: bool): Inode {
    if !made then FREE else Inode(File, 1, if open then 1 else 0)
  }

  predicate FilesEntries(entries: map<Key, nat>, n: nat, i: nat)
    requires n <= EACH
  {
    |entries| == i && forall j :: i <= j < n ==> (ROOT, Short(j)) !in entries
  }

  lemma FilesCached(s: State, n: nat, i: nat, open: bool)
    requires Files(s, n, i, open)
    ensures |Cached(s.inodes)| == if open then 1 + i else 1
  {
    if open {
      assert Cached(s.inodes) == Interval(1, 2 + i) by {
        forall x: nat ensures x in Cached(s.inodes) <==> x in Interval(1, 2 + i) { }
      }
      IntervalCount(1, 2 + i);
    } else {
      assert Cached(s.inodes) == {ROOT};
    }
  }

  lemma FilesFirst(s: State, n: nat, i: nat, open: bool)
    requires Files(s, n, i, open)
    ensures if 2 + i < n then FirstFree(s.inodes, 2 + i) else NoneFree(s.inodes)
  {
    forall y | 1 <= y < 2 + i ensures s.inodes[y].kind != None { assert y == ROOT || 2 <= y; }
  }

  lemma FilesEntriesMore(entries: map<Key, nat>, n: nat, i: nat, v: nat)
    requires n <= EACH && i < n && FilesEntries(entries, n, i)
    ensures FilesEntries(entries[(ROOT, Short(i)) := v], n, i + 1)
  {
    var e := entries[(ROOT, Short(i)) := v];
    assert e.Keys == entries.Keys + {(ROOT, Short(i))};
    forall j | i + 1 <= j < n ensures (ROOT, Short(j)) !in e { ShortDiffer(i, j); }
  }

  lemma FilesStart(n: nat, open: bool) returns (s: State)
    requires 2 <= n <= EACH
    ensures Leads(Fresh(n), s) && Files(s, n, 0, open)
  {
    var s0 := Fresh(n);
    assert Cached(s0.inodes) == {};
    s := Ref(s0, ROOT, 1).(outside := s0.outside + multiset{ROOT});
    LeadsStep(s0, Root, s);
  }

  /** What the next file makes of the state: it is closed again, or stays open. */
  function Next(s: State, i: nat, open: bool): State
    requires 2 + i < |s.inodes| <= EACH
  {
    var e := Opened(s, ROOT, Short(i), 2 + i);
    if open then e else e.(inodes := e.inodes[2 + i := Inode(File, 1, 0)], outside := e.outside - multiset{2 + i})
  }

  lemma FilesInodesNext(s: State, i: nat, open: bool)
    requires 2 + i < |s.inodes| <= EACH && FilesInodes(s, i, open)
    ensures FilesInodes(Next(s, i, open), i + 1, open)
  {
    hide Short;
    var e, x := Next(s, i, open), 2 + i;
    assert e.inodes == s.inodes[x := Inode(File, 1, if open then 1 else 0)];
    forall j | 2 <= j < |e.inodes| ensures e.inodes[j] == FileInode(j < 2 + (i + 1), open) {
      assert j != x ==> e.inodes[j] == s.inodes[j];
    }
  }

  lemma FilesNext(s: State, n: nat, i: nat, open: bool)
    requires Files(s, n, i, open) && 2 + i < n
    ensures Files(Next(s, i, open), n, i + 1, open)
  {
    hide FilesEntries, FilesInodes, Short;
    FilesEntriesMore(s.entries, n, i, 2 + i);
    FilesInodesNext(s, i, open);
  }

  lemma FilesLeads(s: State, n: nat, i: nat, open: bool)
    requires Files(s, n, i, open) && 2 + i < n && (open ==> 1 + i < NINODE)
    ensures Leads(s, Next(s, i, open))
  {
    hide Leads, Step, Cached, Full, Short;
    FilesCached(s, n, i, open);
    FilesFirst(s, n, i, open);
    FewEntries(s, ROOT);
    Open(s, ROOT, Short(i), 2 + i);
    if !open {
      var e := Opened(s, ROOT, Short(i), 2 + i);
      Close(e, 2 + i);
      assert e.inodes[2 + i].(ref := 0) == Inode(File, 1, 0);
      LeadsOn(s, e, Next(s, i, open));
    }
  }

  /** iput of the last reference to a file that has a link. */
  lemma Close(s: State, x: nat)
    requires Has(s, x) && s.inodes[x].ref == 1 && s.inodes[x].nlink == 1
    ensures Leads(s, s.(inodes := s.inodes[x := s.inodes[x].(ref := 0)], outside := s.outside - multiset{x}))
  {
    LeadsStep(s, Iput(x), s.(inodes := s.inodes[x := s.inodes[x].(ref := 0)], outside := s.outside - multiset{x}));
  }

  lemma {:induction false} FilesAll(s: State, n: nat, i: nat, m: nat, open: bool) returns (e: State)
    requires Files(s, n, i, open) && i <= m && 2 + m <= n && (open ==> m < NINODE)
    ensures Leads(s, e) && Files(e, n, m, open)
    decreases m - i
  {
    hide Leads, Next, FilesInodes, FilesEntries;
    if i == m {
      LeadsNowhere(s);
      e := s;
    } else {
      FilesNext(s, n, i, open);
      FilesLeads(s, n, i, open);
      var s1 := Next(s, i, open);
      e := FilesAll(s1, n, i + 1, m, open);
      LeadsOn(s, s1, e);
    }
  }

  lemma FreshInv(n: nat)
    requires 2 <= n
    ensures Inv(Fresh(n))
  {
    InitialInv(Fresh(n).inodes, Fresh(n).entries, false);
  }

  /** With n inodes, n - 2 files, all closed, leave none for another: create panics. */
  lemma NoInodeReached(n: nat) returns (e: State, a: Action)
    requires 2 <= n <= EACH
    ensures Inv(Fresh(n)) && Leads(Fresh(n), e) && NoInode(e, a) && Step(e, a).Panicked?
  {
    FreshInv(n);
    var s := FilesStart(n, false);
    e := FilesAll(s, n, 0, n - 2, false);
    LeadsOn(Fresh(n), s, e);
    a := Create(0, ROOT, Short(n - 2), File, 0);
    FilesFirst(e, n, n - 2, false);
    NotLockedIdle(e, ROOT);
  }

  /** With 49 files open and the root in use, no other inode comes into the cache: create panics although inodes are free. */
  lemma CacheFullReached(n: nat) returns (e: State, a: Action)
    requires NINODE + 1 < n <= EACH
    ensures Inv(Fresh(n)) && Leads(Fresh(n), e) && CacheFull(e, a) && Step(e, a).Panicked? && !NoneFree(e.inodes)
  {
    FreshInv(n);
    var m := NINODE - 1;
    var s := FilesStart(n, true);
    e := FilesAll(s, n, 0, m, true);
    LeadsOn(Fresh(n), s, e);
    a := Create(0, ROOT, Short(m), File, 2 + m);
    FilesFirst(e, n, m, true);
    FilesCached(e, n, m, true);
    NotLockedIdle(e, ROOT);
  }
}
