/**
  What the calls of sysfile.c answer and what they leave behind, in every state and over every run of module Links:
  which step is refused, waits, panics or goes through; how an entry comes and goes; and that a call ends
  with what it was asked for, whatever other calls do meanwhile.
 */
module LinksLaws {
  import opened Links

  // ---------------------------------------------------------------- when a step goes through

  /** Directory x has an entry besides "." and "..". */
  ghost predicate Holds(s: State, x: nat) {
    exists k :: k in s.entries && k.0 == x
  }

  /** The caller is there: it refers to the inode, and its call has got so far. */
  predicate Placed(s: State, a: Action) {
    match a
    case Lookup(d, _) => Has(s, d)
    case Root => true
    case Dotdot(d) => Has(s, d)
    case Idup(x) => Has(s, x)
    case LinkStart(t, x) => t !in s.calls && Has(s, x)
    case LinkEntry(t, d, _) => t in s.calls && s.calls[t].Linking? && Has(s, d)
    case LinkBad(t) => t in s.calls && s.calls[t].Linking?
    case Unlink(t, d, _) => t !in s.calls && Has(s, d)
    case UnlinkParent(t) => t in s.calls && s.calls[t].Unlinking?
    case UnlinkChild(t) => t in s.calls && s.calls[t].Unlinked?
    case Create(t, d, _, kind, _) => t !in s.calls && Has(s, d) && kind != None
    case CreateCount(t) => t in s.calls && s.calls[t].Creating? && s.calls[t].kind == Dir && !s.calls[t].counted
    case CreateEntry(t) => t in s.calls && s.calls[t].Creating? && (s.calls[t].kind == Dir ==> s.calls[t].counted)
    case Iput(x) => Has(s, x)
  }

  /** The directory that the step looks into is none. */
  predicate NotADirectory(s: State, a: Action) {
    (a.Lookup? || a.Dotdot? || a.LinkEntry? || a.Unlink? || a.Create?) && Has(s, a.d) && s.inodes[a.d].kind != Dir
  }

  /** A call on the same directory has it locked. */
  predicate Waits(s: State, a: Action) {
    (a.LinkEntry? || a.Unlink? || a.Create?) && !NotADirectory(s, a) && exists t :: t in s.calls && In(Parent, s.calls[t], a.d)
  }

  /** The name is not there, or is there where it must not be; a link to a directory; a directory that is not empty. */
  ghost predicate Errs(s: State, a: Action) {
    match a
    case Lookup(d, name) => (d, name) !in s.entries
    case Dotdot(d) => d !in s.dots
    case LinkStart(_, x) => Has(s, x) && s.inodes[x].kind == Dir
    case LinkEntry(_, d, name) => (d, name) in s.entries
    case Unlink(_, d, name) =>
      (d, name) !in s.entries || (IsDir(s.inodes, s.entries[(d, name)]) && Holds(s, s.entries[(d, name)]))
    case Create(_, d, name, _, x) => (d, name) in s.entries || (!NoneFree(s.inodes) && !FirstFree(s.inodes, x))
    case _ => false
  }

  /** The panics of PanicsExactly. */
  predicate Dies(s: State, a: Action) {
    NoSlot(s, a) || Dangling(s, a) || NoInode(s, a) || CacheFull(s, a)
  }

  /** Every step has one of four outcomes, each for its own reasons: it is refused exactly when it is out of place, not
      into a directory, or in error, it waits exactly for a locked directory, and it goes through otherwise. */
  lemma RefusedExactly(s: State, a: Action)
    requires Inv(s)
    ensures Step(s, a).Refused? <==> !Placed(s, a) || NotADirectory(s, a) || (!Waits(s, a) && !Dies(s, a) && Errs(s, a))
    ensures Step(s, a).Blocked? <==> Placed(s, a) && Waits(s, a)
    ensures Step(s, a).Panicked? <==> Dies(s, a)
    ensures Step(s, a).Moved? <==>
      Placed(s, a) && !NotADirectory(s, a) && !Waits(s, a) && !Dies(s, a) && !Errs(s, a)
  {
    hide Inv, Naming, Children, Of, NoRoom, FirstFree, NoneFree, Full;
    PanicsExactly(s, a);
    if a.LinkEntry? || a.Unlink? || a.Create? { LockedIs(s, a.d); }
    match a
    case Unlink(t, d, name) => if (d, name) in s.entries { EmptyIs(s, s.entries[(d, name)]); }
    case LinkStart(t, x) => if Has(s, x) { HeldAllocated(s, x); }
    case LinkBad(t) => CallInodes(s, t);
    case UnlinkParent(t) => CallInodes(s, t);
    case UnlinkChild(t) => CallInodes(s, t);
    case CreateCount(t) => CallInodes(s, t);
    case Root => RootAllocated(s);
    case Iput(x) => if Has(s, x) { HeldCounted(s, x); }
    case _ =>
  }

  lemma LockedIs(s: State, d: nat)
    ensures Locked(s, d) <==> exists t :: t in s.calls && In(Parent, s.calls[t], d)
  {
    if t :| t in s.calls && In(Parent, s.calls[t], d) { assert t in Calls(s.calls, Parent, d); }
  }

  lemma EmptyIs(s: State, x: nat)
    ensures EmptyDir(s, x) <==> !Holds(s, x)
  {
  }

  lemma CallInodes(s: State, t: nat)
    requires Inv(s)
    ensures t in s.calls ==> s.calls[t].x < |s.inodes| && (s.calls[t].Unlinking? || s.calls[t].Creating? ==> s.calls[t].d < |s.inodes|)
  {
    if t in s.calls { assert CallOk(s.inodes, s.entries, s.dots, s.calls[t]); }
  }

  lemma HeldCounted(s: State, x: nat)
    requires Inv(s) && Has(s, x)
    ensures s.inodes[x].ref > 0
  {
    assert InodeOk(s, x);
  }

  // ---------------------------------------------------------------- how entries come and go

  /** An entry goes by its own unlink, which leaves a directory that is not empty alone, or with its directory once
      that is freed. */
  lemma EntryGoes(s: State, a: Action, k: Key)
    requires Inv(s) && Step(s, a).Moved? && k in s.entries
    ensures
      var s' := Step(s, a).s;
      if k in s'.entries then s'.entries[k] == s.entries[k]
      else
        || (a.Unlink? && (a.d, a.name) == k && !(IsDir(s.inodes, s.entries[k]) && Holds(s, s.entries[k])))
        || (a.Iput? && a.x == k.0 && IsDir(s.inodes, k.0) && s.inodes[k.0].nlink == 0 && s.inodes[k.0].ref == 1)
  {
    hide InodeOk, Calls, Of, NoRoom, Full;
    assert IsDir(s.inodes, k.0) && Allocated(s.inodes, s.entries[k]);
    if a.Unlink? && (a.d, a.name) in s.entries { EmptyIs(s, s.entries[(a.d, a.name)]); }
    if a.CreateEntry? && a.t in s.calls { assert CallOk(s.inodes, s.entries, s.dots, s.calls[a.t]); }
  }

  /** An entry comes from a sys_link or create that has counted the inode it names. */
  lemma EntryComes(s: State, a: Action, k: Key)
    requires Step(s, a).Moved? && k !in s.entries && k in Step(s, a).s.entries
    ensures (a.LinkEntry? && (a.d, a.name) == k) || (a.CreateEntry? && (s.calls[a.t].d, s.calls[a.t].name) == k)
    ensures a.t in s.calls && Step(s, a).s.entries[k] == s.calls[a.t].x
  {
    hide Calls, Of, NoRoom, Full;
  }

  /** A directory that holds an entry keeps the entry that names it. */
  lemma HolderKept(s: State, a: Action, k: Key)
    requires Inv(s) && Step(s, a).Moved? && k in s.entries && IsDir(s.inodes, s.entries[k]) && Holds(s, s.entries[k])
    ensures
      var s' := Step(s, a).s;
      k in s'.entries && s'.entries[k] == s.entries[k] && IsDir(s'.inodes, s.entries[k])
  {
    hide Step, Inv;
    EntryGoes(s, a, k);
    ParentCounted(s, k);
    KindStays(s, a, k);
  }

  lemma ParentCounted(s: State, k: Key)
    requires Inv(s) && k in s.entries && IsDir(s.inodes, s.entries[k])
    ensures k.0 < |s.inodes| && s.inodes[k.0].nlink > 0
  {
    assert k in Children(s.entries, s.inodes, k.0);
    assert InodeOk(s, k.0);
  }

  /** A kind changes only when a free inode is taken or an inode is freed. */
  lemma KindChanges(s: State, a: Action, x: nat)
    requires Step(s, a).Moved? && x < |s.inodes|
    ensures |Step(s, a).s.inodes| == |s.inodes|
    ensures
      || Step(s, a).s.inodes[x].kind == s.inodes[x].kind
      || (a.Create? && a.x == x && s.inodes[x].kind == None)
      || (a.Iput? && a.x == x && Has(s, x) && s.inodes[x].nlink == 0 && s.inodes[x].ref == 1)
  {
    if a.Create? || a.Iput? {
      hide Calls, Of, NoRoom, Full, EmptyDir, Locked, NoneFree;
    } else if a.Lookup? || a.Root? || a.Dotdot? || a.Idup? {
      ReferencesSame(s, a);
    } else {
      hide Step;
      KindsSame(s, a);
    }
  }

  lemma ReferencesSame(s: State, a: Action)
    requires Step(s, a).Moved? && (a.Lookup? || a.Root? || a.Dotdot? || a.Idup?)
    ensures SameKinds(s.inodes, Step(s, a).s.inodes)
  {
    hide NoRoom;
  }

  lemma KindsSame(s: State, a: Action)
    requires Step(s, a).Moved? && !(a.Lookup? || a.Root? || a.Dotdot? || a.Idup? || a.Create? || a.Iput?)
    ensures SameKinds(s.inodes, Step(s, a).s.inodes)
  {
    hide Calls, Of, NoRoom, Full, EmptyDir, Locked, Nlink, Ref, SameKinds, Inc;
    SameKindsRefl(s.inodes);
    match a
    case LinkStart(t, y) => NlinkKinds(s, y, Inc(s.inodes[y].nlink));
    case LinkBad(t) => NlinkKinds(s, s.calls[t].x, s.inodes[s.calls[t].x].nlink - 1);
    case Unlink(t, d, name) => RefKinds(s, s.entries[(d, name)]);
    case UnlinkParent(t) => NlinkKinds(s, s.calls[t].d, s.inodes[s.calls[t].d].nlink - 1);
    case UnlinkChild(t) => NlinkKinds(s, s.calls[t].x, s.inodes[s.calls[t].x].nlink - 1);
    case CreateCount(t) => NlinkKinds(s, s.calls[t].d, Inc(s.inodes[s.calls[t].d].nlink));
    case LinkEntry(_, _, _) =>
    case CreateEntry(_) =>
  }

  lemma SameKindsRefl(inodes: seq<Inode>)
    ensures SameKinds(inodes, inodes)
  {
  }

  lemma NlinkKinds(s: State, x: nat, n: int)
    requires x < |s.inodes|
    ensures SameKinds(s.inodes, Nlink(s, x, n).inodes)
  {
  }

  lemma RefKinds(s: State, x: nat)
    requires x < |s.inodes|
    ensures SameKinds(s.inodes, Ref(s, x, 1).inodes)
  {
  }

  /** An inode that an entry names stays what it is. */
  lemma KindStays(s: State, a: Action, k: Key)
    requires Inv(s) && Step(s, a).Moved? && k in s.entries
    ensures
      var x := s.entries[k];
      x < |s.inodes| == |Step(s, a).s.inodes| && Step(s, a).s.inodes[x].kind == s.inodes[x].kind
  {
    hide Step, InodeOk;
    assert Allocated(s.inodes, s.entries[k]);
    KindChanges(s, a, s.entries[k]);
    if a.Iput? && Has(s, a.x) && s.inodes[a.x].nlink == 0 && s.inodes[a.x].ref == 1 { FreeKeeps(s, a.x); }
  }

  /** Directory x holds an entry all along. */
  ghost predicate AlwaysHolds(s: State, run: seq<Action>, x: nat)
    decreases |run|
  {
    && Holds(s, x)
    && (run != [] ==> AlwaysHolds(if Step(s, run[0]).Moved? then Step(s, run[0]).s else s, run[1..], x))
  }

  /** So over any run no unlink takes the name of a directory that holds an entry all along. */
  lemma {:induction false} HolderKeptRun(s: State, run: seq<Action>, k: Key)
    requires Inv(s) && NoWrap(s, run) && k in s.entries && IsDir(s.inodes, s.entries[k]) && AlwaysHolds(s, run, s.entries[k])
    ensures
      var e := Run(s, run);
      k in e.entries && e.entries[k] == s.entries[k] && IsDir(e.inodes, s.entries[k])
    decreases |run|
  {
    hide Inv, Step, Holds;
    if run != [] {
      var o := Step(s, run[0]);
      if o.Moved? {
        StepKeeps(s, run[0]);
        HolderKept(s, run[0], k);
      }
      HolderKeptRun(if o.Moved? then o.s else s, run[1..], k);
    }
  }

  // ---------------------------------------------------------------- calls among others

  /** The step belongs to call t. */
  predicate By(a: Action, t: nat) {
    match a
    case LinkStart(u, _) => u == t
    case LinkEntry(u, _, _) => u == t
    case LinkBad(u) => u == t
    case Unlink(u, _, _) => u == t
    case UnlinkParent(u) => u == t
    case UnlinkChild(u) => u == t
    case Create(u, _, _, _, _) => u == t
    case CreateCount(u) => u == t
    case CreateEntry(u) => u == t
    case _ => false
  }

  predicate OfOthers(run: seq<Action>, t: nat) {
    forall i :: 0 <= i < |run| ==> !By(run[i], t)
  }

  lemma CallChanges(s: State, a: Action, t: nat)
    requires Step(s, a).Moved? && t in s.calls && !By(a, t)
    ensures t in Step(s, a).s.calls && Step(s, a).s.calls[t] == s.calls[t]
  {
    hide Calls, Of, NoRoom, Full, EmptyDir, Locked, NoneFree, FirstFree;
  }

  /** The steps of others leave a call, and the kind of its inode, alone. */
  lemma CallStays(s: State, a: Action, t: nat)
    requires Inv(s) && Step(s, a).Moved? && t in s.calls && !By(a, t)
    ensures
      var s' := Step(s, a).s;
      && t in s'.calls && s'.calls[t] == s.calls[t]
      && s.calls[t].x < |s.inodes| == |s'.inodes| && s'.inodes[s.calls[t].x].kind == s.inodes[s.calls[t].x].kind
  {
    hide Step, InodeOk;
    assert CallOk(s.inodes, s.entries, s.dots, s.calls[t]);
    CallChanges(s, a, t);
    KindChanges(s, a, s.calls[t].x);
    if a.Iput? && Has(s, a.x) && s.inodes[a.x].nlink == 0 && s.inodes[a.x].ref == 1 { FreeKeeps(s, a.x); }
  }

  lemma {:induction false} CallStaysRun(s: State, run: seq<Action>, t: nat)
    requires Inv(s) && NoWrap(s, run) && t in s.calls && OfOthers(run, t)
    ensures
      var e := Run(s, run);
      && Inv(e) && t in e.calls && e.calls[t] == s.calls[t]
      && s.calls[t].x < |s.inodes| == |e.inodes| && e.inodes[s.calls[t].x].kind == s.inodes[s.calls[t].x].kind
    decreases |run|
  {
    hide Inv, Step;
    CallInodes(s, t);
    if run != [] {
      var o := Step(s, run[0]);
      assert !By(run[0], t);
      if o.Moved? {
        StepKeeps(s, run[0]);
        CallStays(s, run[0], t);
      }
      CallStaysRun(if o.Moved? then o.s else s, run[1..], t);
    }
  }

  /** The state after a step that goes through. */
  function After(s: State, a: Action): State
    requires Step(s, a).Moved?
  {
    Step(s, a).s
  }

  /** sys_link among other calls: the new name names the inode that was to be linked. */
  lemma GivesName(s: State, t: nat, x: nat, run: seq<Action>, d: nat, name: Name)
    requires Inv(s) && !Wraps(s, LinkStart(t, x)) && Step(s, LinkStart(t, x)).Moved?
    requires NoWrap(After(s, LinkStart(t, x)), run) && OfOthers(run, t)
    requires Step(Run(After(s, LinkStart(t, x)), run), LinkEntry(t, d, name)).Moved?
    ensures
      var s1 := Run(After(s, LinkStart(t, x)), run);
      var e := After(s1, LinkEntry(t, d, name));
      && (d, name) !in s1.entries && e.entries == s1.entries[(d, name) := x]
      && t !in e.calls && x < |e.inodes| && e.inodes[x].kind == s.inodes[x].kind
  {
    hide Inv, Step;
    var s0 := After(s, LinkStart(t, x));
    LinkStarts(s, t, x);
    StepKeeps(s, LinkStart(t, x));
    CallStaysRun(s0, run, t);
    LinkEnters(Run(s0, run), t, d, name);
  }

  lemma LinkStarts(s: State, t: nat, x: nat)
    requires Step(s, LinkStart(t, x)).Moved?
    ensures
      var s0 := After(s, LinkStart(t, x));
      t in s0.calls && s0.calls[t] == Linking(x) && x < |s0.inodes| == |s.inodes| && s0.inodes[x].kind == s.inodes[x].kind
  {
  }

  lemma LinkEnters(s: State, t: nat, d: nat, name: Name)
    requires Step(s, LinkEntry(t, d, name)).Moved?
    ensures
      var e := After(s, LinkEntry(t, d, name));
      && t in s.calls && (d, name) !in s.entries && e.entries == s.entries[(d, name) := s.calls[t].x]
      && t !in e.calls && e.inodes == s.inodes
  {
  }

  /** create of a file or device among other calls. */
  lemma Creates(s: State, a: Action, run: seq<Action>)
    requires Inv(s) && a.Create? && a.kind != Dir && Step(s, a).Moved?
    requires NoWrap(After(s, a), run) && OfOthers(run, a.t) && Step(Run(After(s, a), run), CreateEntry(a.t)).Moved?
    ensures
      var s1 := Run(After(s, a), run);
      var e := After(s1, CreateEntry(a.t));
      && (a.d, a.name) !in s.entries && (a.d, a.name) !in s1.entries && e.entries == s1.entries[(a.d, a.name) := a.x]
      && FirstFree(s.inodes, a.x) && a.t !in e.calls && a.x < |e.inodes| && e.inodes[a.x].kind == a.kind
  {
    hide Inv, Step, FirstFree;
    var s0 := After(s, a);
    StepKeeps(s, a);
    CreateStarts(s, a);
    CallStaysRun(s0, run, a.t);
    CreateEnters(Run(s0, run), a.t);
  }

  lemma CreateEnters(s: State, t: nat)
    requires Step(s, CreateEntry(t)).Moved?
    ensures
      var e := After(s, CreateEntry(t));
      && t in s.calls && s.calls[t].Creating?
      && var c := s.calls[t];
         && (c.d, c.name) !in s.entries && e.entries == s.entries[(c.d, c.name) := c.x]
         && t !in e.calls && e.inodes == s.inodes && e.dots == s.dots
  {
  }

  lemma CreateCounts(s: State, t: nat)
    requires Step(s, CreateCount(t)).Moved?
    ensures
      var e := After(s, CreateCount(t));
      && t in s.calls && s.calls[t].Creating? && t in e.calls && e.calls[t] == s.calls[t].(counted := true)
      && |e.inodes| == |s.inodes| && forall x :: 0 <= x < |s.inodes| ==> e.inodes[x].kind == s.inodes[x].kind
  {
  }

  lemma CreateStarts(s: State, a: Action)
    requires a.Create? && Step(s, a).Moved?
    ensures
      var s0 := After(s, a);
      && a.t in s0.calls && s0.calls[a.t] == Creating(a.d, a.x, a.name, a.kind, false)
      && a.x < |s0.inodes| && s0.inodes[a.x].kind == a.kind && FirstFree(s.inodes, a.x) && (a.d, a.name) !in s.entries
  {
    hide Calls, Of, Full, NoRoom, NoneFree;
  }

  /** mkdir among other calls: the new directory is named, and its ".." leads to the one that names it. */
  lemma MakesDirectory(s: State, a: Action, run: seq<Action>, more: seq<Action>)
    requires Inv(s) && a.Create? && a.kind == Dir && Step(s, a).Moved?
    requires NoWrap(After(s, a), run) && OfOthers(run, a.t) && Step(Run(After(s, a), run), CreateCount(a.t)).Moved?
    requires
      var s2 := After(Run(After(s, a), run), CreateCount(a.t));
      NoWrap(s2, more) && OfOthers(more, a.t) && Step(Run(s2, more), CreateEntry(a.t)).Moved?
    ensures
      var s3 := Run(After(Run(After(s, a), run), CreateCount(a.t)), more);
      var e := After(s3, CreateEntry(a.t));
      && (a.d, a.name) !in s3.entries && e.entries == s3.entries[(a.d, a.name) := a.x]
      && a.t !in e.calls && IsDir(e.inodes, a.x) && a.x in e.dots && e.dots[a.x] == a.d
  {
    hide Inv, Step, FirstFree;
    var s0 := After(s, a);
    StepKeeps(s, a);
    CreateStarts(s, a);
    CallStaysRun(s0, run, a.t);
    var s1 := Run(s0, run);
    CreateCounts(s1, a.t);
    var s2 := After(s1, CreateCount(a.t));
    StepKeeps(s1, CreateCount(a.t));
    CallStaysRun(s2, more, a.t);
    DotsOf(Run(s2, more), a.t);
    CreateEnters(Run(s2, more), a.t);
  }

  lemma DotsOf(s: State, t: nat)
    requires Inv(s) && t in s.calls && s.calls[t].Creating? && s.calls[t].counted
    ensures s.calls[t].x in s.dots && s.dots[s.calls[t].x] == s.calls[t].d
  {
    assert CallOk(s.inodes, s.entries, s.dots, s.calls[t]);
  }

  /** A freed inode was named by nothing and in no one's use, and takes only its own entries with it. */
  lemma FreedExactly(s: State, x: nat)
    requires Inv(s) && Has(s, x)
    ensures Step(s, Iput(x)).Moved?
    ensures
      var s' := After(s, Iput(x));
      && (s'.inodes[x].kind == None <==> s.inodes[x].nlink == 0 && s.inodes[x].ref == 1)
      && (s'.inodes[x].kind == None ==> forall k :: k in s.entries ==> s.entries[k] != x)
      && (s'.inodes[x].kind != None ==> s'.entries == s.entries && s'.inodes[x] == s.inodes[x].(ref := s.inodes[x].ref - 1))
  {
    HeldCounted(s, x);
    HeldAllocated(s, x);
    if s.inodes[x].nlink == 0 && s.inodes[x].ref == 1 { FreeKeeps(s, x); }
  }
}
