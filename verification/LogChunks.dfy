/**
  Log space for calls that log more than they reserve.  begin_op reserves MAXOPBLOCKS blocks for a
  call, but one transaction of filewrite logs up to 21; whether the capacity panic is then in
  reach depends on how many such calls share a commit.
 */
module LogChunks {
  import opened Sets
  import opened WriteAheadLog
  import FsFormat
  import opened GroupCommit
  import opened LogReservation

  /** How many blocks log_write takes before its capacity test fails. */
  function Room(g: Geometry): int {
    if g.size - 1 < LOGSIZE then g.size - 1 else LOGSIZE
  }

  /** The blocks that call op records. */
  function Foot(actions: seq<Action>, op: nat): set<nat> {
    set a | a in actions && a.Record? && a.op == op :: a.at
  }

  ghost predicate Slim(actions: seq<Action>, f: nat) {
    forall op :: |Foot(actions, op)| <= f
  }

  /** How many calls began since the log was last empty. */
  function Begun(g: Geometry, s: State, actions: seq<Action>): nat {
    if actions == [] then 0
    else
      var init, a := actions[..|actions| - 1], actions[|actions| - 1];
      if !a.Begin? then Begun(g, s, init)
      else match Run(g, s, init)
        case Moved(t) => if t.outstanding == 0 then 1 else Begun(g, s, init) + 1
        case _ => Begun(g, s, init)
  }

  /** No more than k calls ever share a commit. */
  predicate Grouped(g: Geometry, s: State, actions: seq<Action>, k: nat) {
    actions == [] || (Grouped(g, s, actions[..|actions| - 1], k) && Begun(g, s, actions) <= k)
  }

  // ---------------------------------------------------------------- enough room

  function Union(actions: seq<Action>, lo: nat, hi: nat): set<nat> {
    if hi <= lo then {} else Union(actions, lo, hi - 1) + Foot(actions, hi - 1)
  }

  lemma {:induction false} UnionHas(actions: seq<Action>, lo: nat, hi: nat, op: nat)
    requires lo <= op < hi
    ensures Foot(actions, op) <= Union(actions, lo, hi)
  {
    if op < hi - 1 { UnionHas(actions, lo, hi - 1, op); }
  }

  lemma {:induction false} UnionCount(actions: seq<Action>, lo: nat, hi: nat, f: nat)
    requires Slim(actions, f) && lo <= hi
    ensures |Union(actions, lo, hi)| <= (hi - lo) * f
    decreases hi
  {
    if lo < hi {
      UnionCount(actions, lo, hi - 1, f);
      assert |Foot(actions, hi - 1)| <= f;
      assert (hi - lo) * f == (hi - 1 - lo) * f + f;
    }
  }

  lemma {:induction false} DistinctCount(s: seq<nat>, t: set<nat>)
    requires Distinct(s) && forall b :: b in s ==> b in t
    ensures |s| <= |t|
  {
    if s != [] {
      var init, last := s[..|s| - 1], s[|s| - 1];
      forall b | b in init ensures b in t - {last} { }
      DistinctCount(init, t - {last});
    }
  }

  /** What is in the log was recorded by the calls that began since it was empty. */
  ghost predicate Covered(all: seq<Action>, s: State, begun: nat) {
    && begun <= s.nextCall
    && (forall op :: op in s.calls ==> s.nextCall - begun <= op < s.nextCall)
    && (s.phase.Idle? ==> forall b :: b in s.lh ==> b in Union(all, s.nextCall - begun, s.nextCall))
    && (s.phase.Idle? && s.outstanding == 0 ==> s.lh == [])
  }

  lemma BeginCovers(g: Geometry, all: seq<Action>, s: State, begun: nat)
    requires Inv(g, s) && Covered(all, s, begun) && DoBegin(s).Moved?
    ensures Covered(all, DoBegin(s).state, if s.outstanding == 0 then 1 else begun + 1)
  {
    hide CommitInv, RecoverInv, Separate;
    if s.outstanding == 0 {
      forall op | op in s.calls ensures false { CountZero(s.calls, s.nextCall, op); }
    }
  }

  lemma CallOutstanding(g: Geometry, s: State, op: nat)
    requires Inv(g, s) && op in s.calls
    ensures s.outstanding >= 1
  {
    CountRemove(s.calls, op, s.nextCall);
  }

  lemma RecordCovers(g: Geometry, all: seq<Action>, s: State, begun: nat, op: nat, at: nat, data: Block)
    requires Covered(all, s, begun) && s.outstanding >= 1
    requires Record(op, at, data) in all && DoRecord(g, s, op, at, data).Moved?
    ensures Covered(all, DoRecord(g, s, op, at, data).state, begun)
  {
    assert Record(op, at, data).Record? && at in Foot(all, op);
    UnionHas(all, s.nextCall - begun, s.nextCall, op);
  }

  lemma StepCovers(g: Geometry, all: seq<Action>, s: State, begun: nat, a: Action)
    requires Inv(g, s) && Covered(all, s, begun) && a in all && Next(g, s, a).Moved?
    ensures Covered(all, Next(g, s, a).state,
                    if !a.Begin? then begun else if s.outstanding == 0 then 1 else begun + 1)
  {
    hide Inv, DoBegin;
    match a
    case Begin => BeginCovers(g, all, s, begun);
    case Record(op, at, data) =>
      CallOutstanding(g, s, op);
      RecordCovers(g, all, s, begun, op, at, data);
    case _ =>
  }

  lemma {:induction false} RunCovers(g: Geometry, d: Disk, all: seq<Action>, actions: seq<Action>)
    requires Clean(g, d) && Run(g, Boot(d), actions).Moved? && forall a :: a in actions ==> a in all
    ensures Covered(all, Run(g, Boot(d), actions).state, Begun(g, Boot(d), actions))
  {
    if actions != [] {
      var init, a := actions[..|actions| - 1], actions[|actions| - 1];
      RunCovers(g, d, all, init);
      RunKeeps(g, Boot(d), init);
      StepCovers(g, all, Run(g, Boot(d), init).state, Begun(g, Boot(d), init), a);
    }
  }

  /** With no call in flight and no commit() under way the log is empty and the next call begins. */
  lemma IdleBegins(g: Geometry, d: Disk, actions: seq<Action>)
    requires Clean(g, d) && Run(g, Boot(d), actions).Moved?
    ensures
      var s := Run(g, Boot(d), actions).state;
      s.phase.Idle? && s.calls == map[] ==> s.lh == [] && Next(g, s, Begin).Moved?
  {
    hide Run;
    RunCovers(g, d, actions, actions);
    BeginsExactly(g, d, actions);
  }

  lemma {:induction false} GroupedAll(g: Geometry, s: State, actions: seq<Action>, k: nat)
    requires Grouped(g, s, actions, k)
    ensures Begun(g, s, actions) <= k
  {
  }

  lemma Times(n: nat, k: nat, f: nat)
    requires n <= k
    ensures n * f <= k * f
  {
  }

  lemma IdleDistinct(g: Geometry, s: State)
    requires Inv(g, s) && s.calls != map[]
    ensures s.phase.Idle? && Distinct(s.lh)
  {
  }

  lemma RoomAt(g: Geometry, all: seq<Action>, s: State, n: nat, k: nat, f: nat)
    requires Inv(g, s) && Covered(all, s, n) && n <= k && Slim(all, f) && k * f < Room(g) && s.calls != map[]
    ensures !TooBig(g, |s.lh|)
  {
    hide Inv, Slim, Union, Distinct;
    IdleDistinct(g, s);
    var lo := s.nextCall - n;
    DistinctCount(s.lh, Union(all, lo, s.nextCall));
    UnionCount(all, lo, s.nextCall, f);
    Times(n, k, f);
  }

  lemma RoomLeft(g: Geometry, d: Disk, all: seq<Action>, actions: seq<Action>, k: nat, f: nat)
    requires Clean(g, d) && Run(g, Boot(d), actions).Moved? && forall a :: a in actions ==> a in all
    requires Slim(all, f) && Grouped(g, Boot(d), actions, k) && k * f < Room(g)
    ensures
      var s := Run(g, Boot(d), actions).state;
      s.calls != map[] ==> !TooBig(g, |s.lh|)
  {
    hide Inv, Covered, Slim, Run;
    var s, n := Run(g, Boot(d), actions).state, Begun(g, Boot(d), actions);
    RunKeeps(g, Boot(d), actions);
    RunCovers(g, d, all, actions);
    GroupedAll(g, Boot(d), actions, k);
    if s.calls != map[] { RoomAt(g, all, s, n, k, f); }
  }

  lemma {:induction false} NextFits(g: Geometry, d: Disk, all: seq<Action>, actions: seq<Action>, k: nat, f: nat)
    requires Clean(g, d) && (forall a :: a in actions ==> a in all)
    requires Slim(all, f) && Grouped(g, Boot(d), actions, k) && k * f < Room(g)
    ensures Run(g, Boot(d), actions).Moved? || Run(g, Boot(d), actions).Blocked?
  {
    if actions != [] {
      var init, a := actions[..|actions| - 1], actions[|actions| - 1];
      NextFits(g, d, all, init, k, f);
      if Run(g, Boot(d), init).Moved? {
        RoomLeft(g, d, all, init, k, f);
        NeverHappens(g, d, init, if a.Check? || a.Record? || a.End? then a.op else 0);
      }
    }
  }

  /** While no more than k calls share a commit, each recording f distinct blocks at most, no run panics or
      overruns the header when k * f blocks leave room in the log, in any interleaving and across any crashes. */
  lemma FootprintsFit(g: Geometry, d: Disk, actions: seq<Action>, k: nat, f: nat)
    requires Clean(g, d) && Slim(actions, f) && Grouped(g, Boot(d), actions, k) && k * f < Room(g)
    ensures Run(g, Boot(d), actions).Moved? || Run(g, Boot(d), actions).Blocked?
  {
    NextFits(g, d, actions, actions, k, f);
  }

  // ---------------------------------------------------------------- and otherwise a panic

  lemma GroupedBegin(g: Geometry, s: State, actions: seq<Action>, t: State, k: nat)
    requires Grouped(g, s, actions, k + 1) && Begun(g, s, actions) == k
    requires Run(g, s, actions) == Moved(t) && t.outstanding == k
    ensures Grouped(g, s, actions + [Begin], k + 1) && Begun(g, s, actions + [Begin]) == k + 1
  {
    assert (actions + [Begin])[..|actions + [Begin]| - 1] == actions;
  }

  lemma BegunNone(g: Geometry, s: State)
    ensures Grouped(g, s, [], 0) && Begun(g, s, []) == 0
  {
  }

  lemma {:induction false} BeginsGrouped(g: Geometry, d: Disk, k: nat)
    requires k <= 3
    ensures Grouped(g, Boot(d), Begins(k), k) && Begun(g, Boot(d), Begins(k)) == k
  {
    hide Run, Boot, Grouped, Begun;
    if k == 0 {
      BegunNone(g, Boot(d));
    } else {
      var before := Begins(k - 1);
      BeginsGrouped(g, d, k - 1);
      FillingStarts(g, d, k - 1, 0);
      GroupedMore(g, Boot(d), before, k - 1, k);
      GroupedBegin(g, Boot(d), before, Run(g, Boot(d), before).state, k - 1);
    }
  }

  lemma {:induction false} GroupedMore(g: Geometry, s: State, actions: seq<Action>, j: nat, k: nat)
    requires Grouped(g, s, actions, j) && j <= k
    ensures Grouped(g, s, actions, k)
  {
    if actions != [] { GroupedMore(g, s, actions[..|actions| - 1], j, k); }
  }

  lemma GroupedStep(g: Geometry, s: State, actions: seq<Action>, a: Action, k: nat)
    requires Grouped(g, s, actions, k) && Begun(g, s, actions) == k && !a.Begin?
    ensures Grouped(g, s, actions + [a], k) && Begun(g, s, actions + [a]) == k
  {
    assert (actions + [a])[..|actions + [a]| - 1] == actions;
  }

  lemma {:induction false} FillingGrouped(g: Geometry, d: Disk, k: nat, f: nat, c: nat, data: Block)
    requires k <= 3
    ensures
      var fill := Filling(g, k, f, c, data);
      Grouped(g, Boot(d), fill, k) && Begun(g, Boot(d), fill) == k
  {
    hide Run, Boot, Grouped, Begun;
    if c == 0 {
      BeginsGrouped(g, d, k);
    } else {
      var fill, op := Filling(g, k, f, c - 1, data), Owner(c - 1, f);
      FillingGrouped(g, d, k, f, c - 1, data);
      GroupedStep(g, Boot(d), fill, Check(op), k);
      GroupedStep(g, Boot(d), fill + [Check(op)], Record(op, g.start + g.size + (c - 1), data), k);
    }
  }

  lemma {:induction false} BeginsOnly(k: nat, a: Action)
    requires a in Begins(k)
    ensures a.Begin?
  {
    if a in Begins(k - 1) { BeginsOnly(k - 1, a); }
  }

  lemma {:induction false} FillingFoot(g: Geometry, k: nat, f: nat, c: nat, data: Block, a: Action)
    requires c <= 3 * f && a in Filling(g, k, f, c, data) && a.Record?
    ensures a.op < 3 && Start(a.op, f) <= a.at - g.start - g.size < Start(a.op + 1, f)
  {
    if c == 0 {
      BeginsOnly(k, a);
    } else if a in Filling(g, k, f, c - 1, data) {
      FillingFoot(g, k, f, c - 1, data, a);
    }
  }

  lemma FillingSlim(g: Geometry, k: nat, f: nat, c: nat, data: Block, op: nat, last: Action)
    requires c <= 3 * f && !last.Record?
    ensures |Foot(Filling(g, k, f, c, data) + [last], op)| <= f
  {
    var base := g.start + g.size;
    var foot := Foot(Filling(g, k, f, c, data) + [last], op);
    forall b | b in foot ensures b in Interval(base + Start(op, f), base + Start(op + 1, f)) {
      var a :| a in Filling(g, k, f, c, data) + [last] && a.Record? && a.op == op && a.at == b;
      FillingFoot(g, k, f, c, data, a);
    }
    SubsetCount(foot, Interval(base + Start(op, f), base + Start(op + 1, f)));
    IntervalCount(base + Start(op, f), base + Start(op + 1, f));
  }

  /** k calls that begin together fill the log and the next log_write panics, even one of a block already
      in the log: the capacity test comes before the search. */
  lemma TogetherPanic(g: Geometry, d: Disk, k: nat, f: nat)
    requires Clean(g, d) && 1 <= k <= 3 && g.start + g.size + LOGSIZE <= |d| && k * f >= Room(g)
    ensures exists actions ::
      Grouped(g, Boot(d), actions, k) && Slim(actions, f) && Run(g, Boot(d), actions).Panicked?
  {
    hide Run, Boot, Grouped, Foot, Filled;
    var c := Room(g);
    assert Start(k, f) == k * f;
    var data := FsFormat.ZeroBlock();
    var fill := Filling(g, k, f, c, data);
    FillingRuns(g, d, k, f, c, data);
    FillingGrouped(g, d, k, f, c, data);
    GroupedStep(g, Boot(d), fill, Check(0), k);
    forall op ensures |Foot(fill + [Check(0)], op)| <= f { FillingSlim(g, k, f, c, data, op, Check(0)); }
    FullPanics(g, d, fill, k, f, c);
  }

  lemma FullPanics(g: Geometry, d: Disk, fill: seq<Action>, k: nat, f: nat, c: nat)
    requires 1 <= k && TooBig(g, c)
    requires var o := Run(g, Boot(d), fill); o.Moved? && Filled(g, d, o.state, k, f, c)
    ensures Run(g, Boot(d), fill + [Check(0)]).Panicked?
  {
    hide Boot, Share;
    assert (fill + [Check(0)])[..|fill|] == fill;
  }

  /** How many calls of f blocks may share a commit. */
  lemma SafeExactly(g: Geometry, d: Disk, k: nat, f: nat)
    requires Clean(g, d) && 1 <= k <= 3 && g.start + g.size + LOGSIZE <= |d|
    ensures k * f < Room(g) <==>
            forall actions :: Grouped(g, Boot(d), actions, k) && Slim(actions, f) ==> !Run(g, Boot(d), actions).Panicked?
  {
    if k * f < Room(g) {
      forall actions | Grouped(g, Boot(d), actions, k) && Slim(actions, f) ensures !Run(g, Boot(d), actions).Panicked? {
        FootprintsFit(g, d, actions, k, f);
      }
    } else {
      TogetherPanic(g, d, k, f);
    }
  }

  // ---------------------------------------------------------------- the chunks of filewrite

  /** Blocks that one chunk of filewrite may log on a disk of FSSIZE blocks. */
  const CHUNKBLOCKS: nat := 21

  /** begin_op admits three calls at once, and only one of them may be a chunk of filewrite: one chunk at a
      time never panics even in the log that mkfs makes, and two panic in a log of any size. */
  lemma ChunksExactly(g: Geometry, d: Disk, k: nat)
    requires Clean(g, d) && 1 <= k <= 3 && LOGSIZE <= g.size && g.start + g.size + LOGSIZE <= |d|
    ensures k == 1 <==>
            forall actions :: Grouped(g, Boot(d), actions, k) && Slim(actions, CHUNKBLOCKS)
                              ==> !Run(g, Boot(d), actions).Panicked?
  {
    SafeExactly(g, d, k, CHUNKBLOCKS);
  }

  predicate RecordsIn(actions: seq<Action>, blocks: set<nat>) {
    forall a :: a in actions && a.Record? ==> a.at in blocks
  }

  /** Calls made one at a time that log no other blocks never panic, in a log at least as large as mkfs's. */
  ghost predicate NeverPanics(blocks: set<nat>) {
    forall g: Geometry, d: Disk, actions: seq<Action> ::
      Clean(g, d) && LOGSIZE <= g.size && Grouped(g, Boot(d), actions, 1) && RecordsIn(actions, blocks) ==>
        Run(g, Boot(d), actions).Moved? || Run(g, Boot(d), actions).Blocked?
  }

  lemma FewBlocksFit(blocks: set<nat>)
    requires |blocks| <= CHUNKBLOCKS
    ensures NeverPanics(blocks)
  {
    forall g: Geometry, d: Disk, actions: seq<Action> |
      Clean(g, d) && LOGSIZE <= g.size && Grouped(g, Boot(d), actions, 1) && RecordsIn(actions, blocks)
      ensures Run(g, Boot(d), actions).Moved? || Run(g, Boot(d), actions).Blocked?
    {
      forall op ensures |Foot(actions, op)| <= CHUNKBLOCKS {
        SubsetCount(Foot(actions, op), blocks);
      }
      FootprintsFit(g, d, actions, 1, CHUNKBLOCKS);
    }
  }

  // ---------------------------------------------------------------- two calls and the blocks that they log

  /** The log_writes of a transaction, one after the other. */
  function LogWrites(t: Transaction): seq<Action> {
    if t == [] then []
    else
      var e := t[|t| - 1];
      LogWrites(t[..|t| - 1]) + [Check(e.op), Record(e.op, e.at, e.data)]
  }

  /** The blocks that call op logs in it. */
  function LoggedBy(t: Transaction, op: nat): set<nat> {
    set e | e in t && e.op == op :: e.at
  }

  /** Calls 0 and 1 may log these blocks: they are on the disk and not of the log. */
  predicate Loggable(g: Geometry, d: Disk, t: Transaction) {
    forall e :: e in t ==> e.op < 2 && e.at < |d| && !InLog(g, e.at)
  }

  /** Both calls are outstanding and the log holds the blocks of t. */
  ghost predicate Holding(g: Geometry, d: Disk, s: State, t: Transaction) {
    && s.disk == d && s.outstanding == 2 && s.calls.Keys == {0, 1} && |s.lh| <= Room(g)
    && (forall op :: op in s.calls ==> !s.calls[op].checked)
    && (forall e :: e in t ==> e.at in s.lh)
  }

  lemma HoldingNext(g: Geometry, d: Disk, s: State, t: Transaction, e: Event)
    requires Holding(g, d, s, t) && e.op < 2 && e.at < |d| && !InLog(g, e.at)
    ensures
      var o := DoCheck(g, s, e.op);
      o.Panicked? || (o.Moved? && var o' := DoRecord(g, o.state, e.op, e.at, e.data);
                                  o'.Moved? && Holding(g, d, o'.state, t + [e]))
  {
  }

  lemma RunTwo(g: Geometry, s: State, actions: seq<Action>, a: Action, b: Action)
    ensures Run(g, s, actions + [a, b]) ==
            match Run(g, s, actions)
            case Moved(t) => (match Next(g, t, a) case Moved(u) => Next(g, u, b) case o => o)
            case o => o
  {
    var all := actions + [a, b];
    assert all[..|all| - 1] == actions + [a];
    assert (actions + [a])[..|actions + [a]| - 1] == actions;
  }

  lemma BothBegin(g: Geometry, d: Disk)
    requires Clean(g, d)
    ensures
      var o := Run(g, Boot(d), Begins(2));
      o.Moved? && Holding(g, d, o.state, [])
  {
    FillingStarts(g, d, 2, 0);
  }

  lemma {:induction false} BothLog(g: Geometry, d: Disk, t: Transaction)
    requires Clean(g, d) && Loggable(g, d, t)
    ensures
      var o := Run(g, Boot(d), Begins(2) + LogWrites(t));
      o.Panicked? || (o.Moved? && Holding(g, d, o.state, t))
  {
    hide Run, Boot, Holding, DoCheck, DoRecord;
    BothBegin(g, d);
    if t == [] {
      assert Begins(2) + LogWrites(t) == Begins(2);
    } else {
      var init, e := t[..|t| - 1], t[|t| - 1];
      BothLog(g, d, init);
      var before := Begins(2) + LogWrites(init);
      assert Begins(2) + LogWrites(t) == before + [Check(e.op), Record(e.op, e.at, e.data)];
      RunTwo(g, Boot(d), before, Check(e.op), Record(e.op, e.at, e.data));
      if Run(g, Boot(d), before).Moved? { HoldingNext(g, d, Run(g, Boot(d), before).state, init, e); }
      assert t == init + [e];
    }
  }

  lemma {:induction false} ListCount(s: seq<nat>, t: set<nat>)
    requires forall b :: b in t ==> b in s
    ensures |t| <= |s|
  {
    if s == [] {
      assert t == {};
    } else {
      var init, last := s[..|s| - 1], s[|s| - 1];
      ListCount(init, t - {last});
      SubsetCount(t, t - {last} + {last});
    }
  }

  /** Two calls that log these blocks in one commit panic, in whatever order and in a log of any size. */
  ghost predicate TogetherPanics(blocks: set<nat>, others: set<nat>) {
    forall g: Geometry, d: Disk, t: Transaction ::
      Clean(g, d) && Loggable(g, d, t) && LoggedBy(t, 0) == blocks && LoggedBy(t, 1) == others ==>
        Run(g, Boot(d), Begins(2) + LogWrites(t)).Panicked?
  }

  lemma ManyBlocksPanic(blocks: set<nat>, others: set<nat>)
    requires |blocks + others| > LOGSIZE
    ensures TogetherPanics(blocks, others)
  {
    hide Run, Boot, Clean, LogWrites;
    forall g: Geometry, d: Disk, t: Transaction |
      Clean(g, d) && Loggable(g, d, t) && LoggedBy(t, 0) == blocks && LoggedBy(t, 1) == others
      ensures Run(g, Boot(d), Begins(2) + LogWrites(t)).Panicked?
    {
      BothLog(g, d, t);
      var o := Run(g, Boot(d), Begins(2) + LogWrites(t));
      if o.Moved? {
        forall b | b in blocks + others ensures b in o.state.lh { }
        ListCount(o.state.lh, blocks + others);
      }
    }
  }

  /** There are such transactions for any two sets of blocks. */
  lemma {:induction false} SomeWrites(blocks: set<nat>, others: set<nat>, data: Block) returns (t: Transaction)
    ensures LoggedBy(t, 0) == blocks && LoggedBy(t, 1) == others
    ensures forall e :: e in t ==> e.op < 2 && e.at in blocks + others
  {
    if blocks != {} {
      var b :| b in blocks;
      var u := SomeWrites(blocks - {b}, others, data);
      t := u + [Event(0, b, data)];
      SomeMore(u, Event(0, b, data));
    } else if others != {} {
      var b :| b in others;
      var u := SomeWrites(blocks, others - {b}, data);
      t := u + [Event(1, b, data)];
      SomeMore(u, Event(1, b, data));
    } else {
      t := [];
    }
  }

  lemma SomeMore(t: Transaction, e: Event)
    ensures LoggedBy(t + [e], 0) == LoggedBy(t, 0) + if e.op == 0 then {e.at} else {}
    ensures LoggedBy(t + [e], 1) == LoggedBy(t, 1) + if e.op == 1 then {e.at} else {}
  {
    assert (t + [e])[|t|] == e;
    forall f | f in t ensures f in t + [e] { }
  }
}
