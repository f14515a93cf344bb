/**
  Log space: begin_op reserves MAXOPBLOCKS blocks for each call.  When every call keeps to its
  reservation, the capacity panic of log_write is unreachable exactly when the log area has
  room for the header and LOGSIZE blocks.
 */
module LogReservation {
  import opened WriteAheadLog
  import opened GroupCommit

  /** Every log_write of the run is made by a call with fewer than m before it; with MAXOPBLOCKS for m, by a
      call with part of its reservation left. */
  predicate Budgeted(g: Geometry, s: State, m: nat, actions: seq<Action>) {
    actions == [] ||
    (var init, a := actions[..|actions| - 1], actions[|actions| - 1];
     && Budgeted(g, s, m, init)
     && (a.Check? ==>
       match Run(g, s, init)
       case Moved(t) => a.op in t.calls ==> t.calls[a.op].used < m
       case _ => true))
  }

  /** Blocks that the outstanding calls may still log. */
  function Unused(calls: map<nat, Call>, n: nat): int {
    if n == 0 then 0
    else Unused(calls, n - 1) + if n - 1 in calls then MAXOPBLOCKS - calls[n - 1].used else 0
  }

  ghost predicate Reserved(s: State) {
    && (forall op :: op in s.calls ==>
         && op < s.nextCall && s.calls[op].used <= MAXOPBLOCKS
         && (s.calls[op].checked ==> s.calls[op].used < MAXOPBLOCKS))
    && (s.phase.Idle? ==> |s.lh| + Unused(s.calls, s.nextCall) <= LOGSIZE)
    && s.outstanding == Count(s.calls, s.nextCall)
    && (!s.phase.Idle? ==> s.calls == map[])
  }

  lemma {:induction false} UnusedSet(calls: map<nat, Call>, op: nat, c: Call, n: nat)
    requires op < n
    ensures Unused(calls[op := c], n) ==
            Unused(calls, n) + MAXOPBLOCKS - c.used - if op in calls then MAXOPBLOCKS - calls[op].used else 0
  {
    if op < n - 1 { UnusedSet(calls, op, c, n - 1); } else { UnusedAbove(calls, op, c, n - 1); }
  }

  lemma {:induction false} UnusedAbove(calls: map<nat, Call>, op: nat, c: Call, n: nat)
    requires n <= op
    ensures Unused(calls[op := c], n) == Unused(calls, n)
  {
    if n > 0 { UnusedAbove(calls, op, c, n - 1); }
  }

  lemma {:induction false} UnusedRemove(calls: map<nat, Call>, op: nat, n: nat)
    requires op in calls && calls[op].used <= MAXOPBLOCKS
    ensures Unused(calls - {op}, n) <= Unused(calls, n)
  {
    if n > 0 { UnusedRemove(calls, op, n - 1); }
  }

  /** No more is reserved than begin_op accounts for, and no less than any one call's share. */
  lemma {:induction false} UnusedBounds(calls: map<nat, Call>, n: nat, op: nat)
    requires forall o :: o in calls ==> calls[o].used <= MAXOPBLOCKS
    ensures 0 <= Unused(calls, n) <= MAXOPBLOCKS * Count(calls, n)
    ensures op in calls && op < n ==> Unused(calls, n) >= MAXOPBLOCKS - calls[op].used
  {
    if n > 0 { UnusedBounds(calls, n - 1, op); }
  }

  lemma BeginReserves(s: State)
    requires Reserved(s) && DoBegin(s).Moved?
    ensures Reserved(DoBegin(s).state)
  {
    CountSet(s.calls, s.nextCall, Call(0, false), s.nextCall);
    UnusedAbove(s.calls, s.nextCall, Call(0, false), s.nextCall);
    UnusedBounds(s.calls, s.nextCall, 0);
  }

  lemma CheckReserves(g: Geometry, s: State, op: nat)
    requires Reserved(s) && DoCheck(g, s, op).Moved? && s.calls[op].used < MAXOPBLOCKS
    ensures Reserved(DoCheck(g, s, op).state)
  {
    CountSet(s.calls, op, s.calls[op].(checked := true), s.nextCall);
    UnusedSet(s.calls, op, s.calls[op].(checked := true), s.nextCall);
  }

  lemma RecordReserves(g: Geometry, s: State, op: nat, at: nat, data: Block)
    requires Reserved(s) && DoRecord(g, s, op, at, data).Moved?
    ensures Reserved(DoRecord(g, s, op, at, data).state)
  {
    CountSet(s.calls, op, Call(s.calls[op].used + 1, false), s.nextCall);
    UnusedSet(s.calls, op, Call(s.calls[op].used + 1, false), s.nextCall);
  }

  lemma EndReserves(s: State, op: nat)
    requires Reserved(s) && DoEnd(s, op).Moved?
    ensures Reserved(DoEnd(s, op).state)
  {
    var t := DoEnd(s, op).state;
    CountRemove(s.calls, op, s.nextCall);
    UnusedRemove(s.calls, op, s.nextCall);
    if t.outstanding == 0 {
      forall o | o in t.calls ensures false { CountZero(t.calls, t.nextCall, o); }
    }
  }

  lemma StepReserves(g: Geometry, s: State, a: Action)
    requires Inv(g, s) && Reserved(s) && Next(g, s, a).Moved?
    requires a.Check? && a.op in s.calls ==> s.calls[a.op].used < MAXOPBLOCKS
    ensures Reserved(Next(g, s, a).state)
  {
    match a
    case Begin => BeginReserves(s);
    case Check(op) => CheckReserves(g, s, op);
    case Record(op, at, data) => RecordReserves(g, s, op, at, data);
    case End(op) => EndReserves(s, op);
    case DiskWrite =>
    case Finish =>
      UnusedNone(s.nextCall);
    case Crash =>
      CountNone(s.nextCall);
  }

  lemma {:induction false} UnusedNone(n: nat)
    ensures Unused(map[], n) == 0
  {
    if n > 0 { UnusedNone(n - 1); }
  }

  lemma {:induction false} RunReserves(g: Geometry, d: Disk, actions: seq<Action>)
    requires Clean(g, d) && Budgeted(g, Boot(d), MAXOPBLOCKS, actions) && Run(g, Boot(d), actions).Moved?
    ensures Inv(g, Run(g, Boot(d), actions).state) && Reserved(Run(g, Boot(d), actions).state)
  {
    RunKeeps(g, Boot(d), actions);
    if actions != [] {
      var init := actions[..|actions| - 1];
      RunReserves(g, d, init);
      StepReserves(g, Run(g, Boot(d), init).state, actions[|actions| - 1]);
    }
  }

  /** In a log area larger than LOGSIZE no run of calls within their reservation ever panics or
      overruns the header, in any interleaving and across any crashes. */
  lemma {:induction false} ReservationSuffices(g: Geometry, d: Disk, actions: seq<Action>)
    requires Clean(g, d) && g.size > LOGSIZE && Budgeted(g, Boot(d), MAXOPBLOCKS, actions)
    ensures Run(g, Boot(d), actions).Moved? || Run(g, Boot(d), actions).Blocked?
  {
    if actions != [] {
      var init, a := actions[..|actions| - 1], actions[|actions| - 1];
      ReservationSuffices(g, d, init);
      if Run(g, Boot(d), init).Moved? {
        RunReserves(g, d, init);
        NextAllowed(g, d, init, a);
      }
    }
  }

  lemma NextAllowed(g: Geometry, d: Disk, init: seq<Action>, a: Action)
    requires Clean(g, d) && g.size > LOGSIZE && Run(g, Boot(d), init).Moved?
    requires Inv(g, Run(g, Boot(d), init).state) && Reserved(Run(g, Boot(d), init).state)
    requires
      var s := Run(g, Boot(d), init).state;
      a.Check? && a.op in s.calls ==> s.calls[a.op].used < MAXOPBLOCKS
    ensures
      var o := Next(g, Run(g, Boot(d), init).state, a);
      o.Moved? || o.Blocked?
  {
    var s := Run(g, Boot(d), init).state;
    if a.Check? || a.Record? || a.End? {
      NeverHappens(g, d, init, a.op);
      if a.op in s.calls { UnusedBounds(s.calls, s.nextCall, a.op); }
    } else {
      NeverHappens(g, d, init, 0);
    }
  }

  // ---------------------------------------------------------------- and a smaller log does panic

  /** Where the op-th of three shares of f begins. */
  function Start(op: nat, f: nat): nat {
    if op == 0 then 0 else if op == 1 then f else if op == 2 then 2 * f else 3 * f
  }

  /** Which call logs the c-th block when each in turn logs f. */
  function Owner(c: nat, f: nat): nat {
    if c < f then 0 else if c < 2 * f then 1 else 2
  }

  /** How many of the first c blocks the op-th call logs. */
  function Share(c: nat, op: nat, f: nat): nat {
    if c <= Start(op, f) then 0 else if c >= Start(op + 1, f) then f else c - Start(op, f)
  }

  function Begins(k: nat): seq<Action> {
    if k == 0 then [] else Begins(k - 1) + [Begin]
  }

  /** k calls begin, and log c distinct blocks beyond the log area, f each in turn. */
  function Filling(g: Geometry, k: nat, f: nat, c: nat, data: Block): seq<Action> {
    if c == 0 then Begins(k)
    else Filling(g, k, f, c - 1, data) + [Check(Owner(c - 1, f))]
         + [Record(Owner(c - 1, f), g.start + g.size + (c - 1), data)]
  }

  ghost predicate Filled(g: Geometry, d: Disk, s: State, k: nat, f: nat, c: nat) {
    && s.phase.Idle? && s.outstanding == k && s.disk == d && s.nextCall == k
    && |s.lh| == c && (forall i :: 0 <= i < c ==> s.lh[i] == g.start + g.size + i)
    && (forall op :: op in s.calls <==> 0 <= op < k)
    && (forall op :: 0 <= op < k ==> s.calls[op] == Call(Share(c, op, f), false))
  }

  lemma RunMore(g: Geometry, s: State, m: nat, actions: seq<Action>, t: State, a: Action)
    requires Budgeted(g, s, m, actions) && Run(g, s, actions) == Moved(t)
    requires a.Check? && a.op in t.calls ==> t.calls[a.op].used < m
    ensures Run(g, s, actions + [a]) == Next(g, t, a)
    ensures Budgeted(g, s, m, actions + [a])
  {
  }

  lemma BeginFills(g: Geometry, d: Disk, s: State, k: nat, f: nat)
    requires Filled(g, d, s, k, f, 0) && k < 3
    ensures DoBegin(s).Moved? && Filled(g, d, DoBegin(s).state, k + 1, f, 0)
  {
  }

  lemma NoneBegun(g: Geometry, d: Disk, f: nat)
    ensures Budgeted(g, Boot(d), f, []) && Filled(g, d, Boot(d), 0, f, 0)
  {
  }

  lemma {:induction false} FillingStarts(g: Geometry, d: Disk, k: nat, f: nat)
    requires k <= 3
    ensures Budgeted(g, Boot(d), f, Begins(k))
    ensures
      var o := Run(g, Boot(d), Begins(k));
      o.Moved? && Filled(g, d, o.state, k, f, 0)
  {
    hide Budgeted, Filled, DoBegin;
    if k == 0 {
      NoneBegun(g, d, f);
    } else {
      FillingStarts(g, d, k - 1, f);
      BeginFills(g, d, Run(g, Boot(d), Begins(k - 1)).state, k - 1, f);
      RunMore(g, Boot(d), f, Begins(k - 1), Run(g, Boot(d), Begins(k - 1)).state, Begin);
    }
  }

  lemma OwnerFits(c: nat, k: nat, f: nat)
    requires c < Start(k, f) && k <= 3
    ensures Owner(c, f) < k && Share(c, Owner(c, f), f) < f
  {
  }

  lemma ShareNext(c: nat, k: nat, op: nat, f: nat)
    requires c < Start(k, f) && op < k <= 3
    ensures Share(c + 1, op, f) == if op == Owner(c, f) then Share(c, op, f) + 1 else Share(c, op, f)
  {
  }

  lemma FillingMore(g: Geometry, d: Disk, s: State, k: nat, f: nat, c: nat, data: Block)
    requires Filled(g, d, s, k, f, c) && c < Start(k, f) && k <= 3
    requires c < LOGSIZE && c + 1 < g.size && g.start + g.size + c < |d|
    ensures
      var op := Owner(c, f);
      var o := DoCheck(g, s, op);
      && op in s.calls && s.calls[op].used < f && o.Moved?
      && var p := DoRecord(g, o.state, op, g.start + g.size + c, data);
         p.Moved? && Filled(g, d, p.state, k, f, c + 1)
  {
    hide Owner, Share, Start;
    forall o | 0 <= o < k ensures Share(c + 1, o, f) == if o == Owner(c, f) then Share(c, o, f) + 1 else Share(c, o, f) {
      ShareNext(c, k, o, f);
    }
    OwnerFits(c, k, f);
  }

  lemma FillingExtends(g: Geometry, d: Disk, before: seq<Action>, k: nat, f: nat, c: nat, data: Block)
    requires c < Start(k, f) && k <= 3 && c < LOGSIZE && c + 1 < g.size && g.start + g.size + c < |d|
    requires Budgeted(g, Boot(d), f, before)
    requires var o := Run(g, Boot(d), before); o.Moved? && Filled(g, d, o.state, k, f, c)
    ensures
      var op := Owner(c, f);
      var after := before + [Check(op)] + [Record(op, g.start + g.size + c, data)];
      && Budgeted(g, Boot(d), f, after)
      && var o := Run(g, Boot(d), after); o.Moved? && Filled(g, d, o.state, k, f, c + 1)
  {
    var op := Owner(c, f);
    var s := Run(g, Boot(d), before).state;
    FillingMore(g, d, s, k, f, c, data);
    RunMore(g, Boot(d), f, before, s, Check(op));
    RunMore(g, Boot(d), f, before + [Check(op)], DoCheck(g, s, op).state, Record(op, g.start + g.size + c, data));
  }

  lemma {:induction false} FillingRuns(g: Geometry, d: Disk, k: nat, f: nat, c: nat, data: Block)
    requires c <= Start(k, f) && k <= 3 && c <= LOGSIZE && c < g.size && g.start + g.size + c <= |d|
    ensures Budgeted(g, Boot(d), f, Filling(g, k, f, c, data))
    ensures
      var o := Run(g, Boot(d), Filling(g, k, f, c, data));
      o.Moved? && Filled(g, d, o.state, k, f, c)
  {
    hide Run, Budgeted, Filled, Boot;
    if c == 0 {
      FillingStarts(g, d, k, f);
    } else {
      FillingRuns(g, d, k, f, c - 1, data);
      FillingExtends(g, d, Filling(g, k, f, c - 1, data), k, f, c - 1, data);
    }
  }

  /** With g.size <= LOGSIZE three calls that stay within their reservations reach the panic. */
  lemma SmallLogPanics(g: Geometry, d: Disk)
    requires Clean(g, d) && g.size <= LOGSIZE && g.start + g.size + LOGSIZE <= |d|
    ensures exists actions :: Budgeted(g, Boot(d), MAXOPBLOCKS, actions) && Run(g, Boot(d), actions).Panicked?
  {
    var m, c := MAXOPBLOCKS, g.size - 1;
    var fill := Filling(g, 3, m, c, d[0]);
    FillingRuns(g, d, 3, m, c, d[0]);
    var op := Owner(c, m);
    var s := Run(g, Boot(d), fill).state;
    assert s.calls[op].used == Share(c, op, m) < m;
    RunMore(g, Boot(d), m, fill, s, Check(op));
    assert Run(g, Boot(d), fill + [Check(op)]).Panicked?;
  }

  /** Exactly when the capacity panic is out of reach of calls that keep to MAXOPBLOCKS.  mkfs makes
      a log of LOGSIZE blocks (mkfs.c:25), header included, which is one block too few. */
  lemma CapacityExact(g: Geometry, d: Disk)
    requires Clean(g, d) && g.start + g.size + LOGSIZE <= |d|
    ensures g.size > LOGSIZE <==>
            forall actions :: Budgeted(g, Boot(d), MAXOPBLOCKS, actions) ==> !Run(g, Boot(d), actions).Panicked?
  {
    if g.size > LOGSIZE {
      forall actions | Budgeted(g, Boot(d), MAXOPBLOCKS, actions) ensures !Run(g, Boot(d), actions).Panicked? {
        ReservationSuffices(g, d, actions);
      }
    } else {
      SmallLogPanics(g, d);
    }
  }
}
