/**
  What the steps of the log wait for (log.c): when each goes through, that commit() and recovery end, and that the
  log empties when the calls in flight do.
 */
module GroupProgress {
  import opened WriteAheadLog
  import opened GroupCommit
  import LogChunks

  /** Block writes that commit() or recovery has yet to issue. */
  function Left(s: State): int {
    match s.phase
    case Idle => 0
    case Commit(pc) => (if s.lh == [] then 0 else 2 * |s.lh| + 2) - pc
    case Recover(pc) => |s.lh| + 1 - pc
  }

  /** The header and the log area have room for one more block. */
  predicate Room(g: Geometry, s: State) {
    |s.lh| < 30 && |s.lh| + 1 < g.size
  }

  /** Every outcome of every step, but for begin_op, which BeginsExactly has. */
  lemma OutcomesExactly(g: Geometry, s: State, a: Action)
    requires Inv(g, s) && !a.Begin?
    ensures
      match a
      case Check(op) =>
        && (Next(g, s, a).Moved? <==> op in s.calls && Room(g, s))
        && (Next(g, s, a).Panicked? <==> op in s.calls && !Room(g, s))
      case Record(op, at, _) =>
        var ready := op in s.calls && s.calls[op].checked && at < |s.disk| && !(g.start <= at < g.start + g.size);
        && (Next(g, s, a).Moved? <==> ready && (at in s.lh || Room(g, s)))
        && (Next(g, s, a).Overrun? <==> ready && at !in s.lh && !Room(g, s))
      case End(op) => Next(g, s, a).Moved? <==> op in s.calls && !s.calls[op].checked
      case DiskWrite => Next(g, s, a).Moved? <==> Left(s) > 0
      case Finish => Next(g, s, a).Moved? <==> !s.phase.Idle? && Left(s) == 0
      case Crash => Next(g, s, a).Moved?
    ensures !Next(g, s, a).Moved? ==>
      || Next(g, s, a).Blocked?
      || (a.Check? && Next(g, s, a).Panicked?) || (a.Record? && Next(g, s, a).Overrun?)
  {
    match a
    case Check(op) => if op in s.calls { CountRemove(s.calls, op, s.nextCall); }
    case DiskWrite => DiskWriteDefined(g, s);
    case Crash => RecoversDurable(g, s);
    case Record(_, _, _) =>
    case End(_) =>
    case Finish =>
  }

  function Times(n: nat, a: Action): (r: seq<Action>)
    ensures |r| == n && forall k :: 0 <= k < n ==> r[k] == a
  {
    seq(n, _ => a)
  }

  /** t is s but for the disk and the pinned buffers, in the same phase. */
  predicate Writing(s: State, t: State) {
    && t.lh == s.lh && t.calls == s.calls && t.closed == s.closed && t.current == s.current && t.home == s.home
    && t.nextCall == s.nextCall && t.phase.Commit? == s.phase.Commit? && t.phase.Recover? == s.phase.Recover?
  }

  lemma WriteCounts(g: Geometry, s: State)
    requires Inv(g, s) && Next(g, s, DiskWrite).Moved?
    ensures
      var t := Next(g, s, DiskWrite).state;
      Inv(g, t) && Writing(s, t) && Left(t) == Left(s) - 1
  {
    hide Inv, Next, NextCommitWrite, NextRecoverWrite, Writing, Left;
    StepKeeps(g, s, DiskWrite);
    WriteMoves(g, s);
  }

  lemma WriteMoves(g: Geometry, s: State)
    requires Next(g, s, DiskWrite).Moved?
    ensures Writing(s, Next(g, s, DiskWrite).state) && Left(Next(g, s, DiskWrite).state) == Left(s) - 1
  {
    hide NextCommitWrite, NextRecoverWrite;
  }

  /** The writes that are left go through. */
  lemma {:induction false} Writes(g: Geometry, s: State, n: nat)
    requires Inv(g, s) && n <= Left(s)
    ensures
      var o := Run(g, s, Times(n, DiskWrite));
      o.Moved? && Inv(g, o.state) && Writing(s, o.state) && Left(o.state) == Left(s) - n
    decreases n
  {
    hide Inv, Next, Left;
    if n > 0 {
      Writes(g, s, n - 1);
      var t := Run(g, s, Times(n - 1, DiskWrite)).state;
      assert Times(n, DiskWrite)[..n - 1] == Times(n - 1, DiskWrite);
      OutcomesExactly(g, t, DiskWrite);
      WriteCounts(g, t);
    }
  }

  /** The steps that end commit() or recovery. */
  function Ending(s: State): seq<Action>
    requires Left(s) >= 0
  {
    if s.phase.Idle? then [] else Times(Left(s), DiskWrite) + [Finish]
  }

  /** commit() and recovery end, by their own steps alone: the log is empty and the disk holds all transactions handed
      over. */
  lemma Completes(g: Geometry, s: State)
    requires Inv(g, s) && !s.phase.Idle?
    ensures Left(s) >= 0
    ensures
      var o := Run(g, s, Ending(s));
      && o.Moved? && Inv(g, o.state)
      && o.state.phase.Idle? && o.state.lh == [] && o.state.calls == map[] && o.state.closed == s.closed
      && Clean(g, o.state.disk) && SameHome(g, o.state.disk, Effect(s.home, s.closed))
  {
    LeftPositive(g, s);
    Writes(g, s, Left(s));
    var t, run := Run(g, s, Times(Left(s), DiskWrite)).state, Ending(s);
    assert run[..|run| - 1] == Times(Left(s), DiskWrite);
    FinishEnds(g, s, t);
  }

  lemma LeftPositive(g: Geometry, s: State)
    requires Inv(g, s)
    ensures Left(s) >= 0
  {
  }

  lemma FinishEnds(g: Geometry, s: State, t: State)
    requires Inv(g, t) && Writing(s, t) && !s.phase.Idle? && Left(t) == 0
    ensures
      var o := Next(g, t, Finish);
      && o.Moved? && Inv(g, o.state)
      && o.state.phase.Idle? && o.state.lh == [] && o.state.calls == map[] && o.state.closed == s.closed
      && Clean(g, o.state.disk) && SameHome(g, o.state.disk, Effect(s.home, s.closed))
  {
    OutcomesExactly(g, t, Finish);
    StepKeeps(g, t, Finish);
  }

  // ---------------------------------------------------------------- the calls in flight end

  lemma {:induction false} RunThen(g: Geometry, s: State, a: seq<Action>, b: seq<Action>)
    requires Run(g, s, a).Moved?
    ensures Run(g, s, a + b) == Run(g, Run(g, s, a).state, b)
    decreases |b|
  {
    hide Next;
    if b == [] {
      assert a + b == a;
    } else {
      RunThen(g, s, a, b[..|b| - 1]);
      assert (a + b)[..|a + b| - 1] == a + b[..|b| - 1];
    }
  }

  /** No call is between the test of log_write and its recording. */
  predicate Settled(s: State) {
    forall op :: op in s.calls ==> !s.calls[op].checked
  }

  lemma EndOne(g: Geometry, s: State, op: nat)
    requires Inv(g, s) && s.phase.Idle? && Settled(s) && op in s.calls
    ensures
      var o := Next(g, s, End(op));
      && o.Moved? && Inv(g, o.state) && o.state.calls == s.calls - {op} && Settled(o.state) && o.state.home == s.home
      && (o.state.calls == map[] ==> o.state.phase.Commit? && o.state.closed == s.closed + [s.current])
      && (o.state.calls != map[] ==> o.state.phase.Idle? && o.state.closed == s.closed && o.state.current == s.current)
  {
    assert History(s);
    hide Inv;
    OutcomesExactly(g, s, End(op));
    StepKeeps(g, s, End(op));
    LastOut(s, op);
  }

  lemma LastOut(s: State, op: nat)
    requires History(s) && op in s.calls
    ensures s.outstanding == 1 <==> s.calls - {op} == map[]
  {
    CountBelow(s.calls, s.nextCall);
    assert Below(s.calls, s.nextCall) == s.calls.Keys;
    var rest := s.calls - {op};
    assert rest.Keys == s.calls.Keys - {op} && |rest.Keys| == s.outstanding - 1;
    if s.outstanding == 1 { assert rest.Keys == {}; }
  }

  /** Once the calls in flight return, and no other begins, their transaction is on the disk and the log is empty. */
  lemma {:induction false} Drains(g: Geometry, s: State) returns (run: seq<Action>)
    requires Inv(g, s) && s.phase.Idle? && Settled(s) && s.calls != map[]
    ensures forall a :: a in run ==> a.End? || a.DiskWrite? || a.Finish?
    ensures
      var o := Run(g, s, run);
      && o.Moved? && o.state.phase.Idle? && o.state.lh == [] && o.state.calls == map[]
      && o.state.closed == s.closed + [s.current] && SameHome(g, o.state.disk, Effect(s.home, s.closed + [s.current]))
    decreases |s.calls|
  {
    hide Inv, Next, SameHome, Effect, Clean, Settled;
    var op :| op in s.calls;
    EndOne(g, s, op);
    var t := Next(g, s, End(op)).state;
    var rest;
    if t.calls == map[] {
      Completes(g, t);
      rest := Ending(t);
    } else {
      assert s.calls.Keys == t.calls.Keys + {op};
      rest := Drains(g, t);
    }
    assert [End(op)][..0] == [] && Run(g, s, [End(op)]) == Moved(t);
    RunThen(g, s, [End(op)], rest);
    run := [End(op)] + rest;
  }

  lemma Reached(g: Geometry, d: Disk, actions: seq<Action>)
    requires Clean(g, d) && Run(g, Boot(d), actions).Moved?
    ensures Inv(g, Run(g, Boot(d), actions).state)
  {
    RunKeeps(g, Boot(d), actions);
  }

  /** So no run gets stuck: from every state that one can reach with no log_write half done, the log is emptied by steps
      of the calls in flight and of commit() or recovery, and begin_op admits a call. */
  lemma NeverStuck(g: Geometry, d: Disk, actions: seq<Action>) returns (more: seq<Action>)
    requires Clean(g, d) && Run(g, Boot(d), actions).Moved? && Settled(Run(g, Boot(d), actions).state)
    ensures forall a :: a in more ==> a.End? || a.DiskWrite? || a.Finish?
    ensures
      var o := Run(g, Boot(d), actions + more);
      o.Moved? && o.state.phase.Idle? && o.state.lh == [] && o.state.calls == map[] && Next(g, o.state, Begin).Moved?
  {
    hide Inv, SameHome, Effect, Clean, Settled, Next;
    Reached(g, d, actions);
    var s := Run(g, Boot(d), actions).state;
    if !s.phase.Idle? {
      Completes(g, s);
      more := Ending(s);
    } else if s.calls != map[] {
      more := Drains(g, s);
    } else {
      more := [];
    }
    RunThen(g, Boot(d), actions, more);
    LogChunks.IdleBegins(g, d, actions + more);
  }
}
