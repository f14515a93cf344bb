/**
  Group commit: every interleaving of begin_op, log_write, end_op, commit() and crashes.

  An action is one critical section of log.lock, one block write, or a crash.  A call may be
  preempted between any two actions, and in particular between the capacity test of log_write,
  which is made without the lock, and the recording of the block.
 */
module GroupCommit {
  import opened WriteAheadLog

  /** One log_write of a file-system call: op logs the contents data of block at. */
  datatype Event = Event(op: nat, at: nat, data: Block)

  type Transaction = seq<Event>

  /** pc counts the block writes that commit() or recover_from_log() has issued. */
  datatype Phase = Idle | Commit(pc: nat) | Recover(pc: nat)

  /** A call between begin_op and end_op: its log_writes so far, and whether it is past the
      capacity test of one that has not recorded its block yet. */
  datatype Call = Call(used: nat, checked: bool)

  datatype State = State(
    disk: Disk,
    dirty: map<nat, Block>,     // buffers pinned by B_DIRTY
    lh: seq<nat>,               // log.lh.block[..log.lh.n]
    outstanding: int,
    phase: Phase,               // Commit means log.committing
    calls: map<nat, Call>,
    nextCall: nat,
    // history
    home: Disk,                 // the disk at the beginning of the run
    base: Disk,                 // the disk when the current phase began
    view: map<nat, Block>,      // the pinned buffers when the current phase began
    closed: seq<Transaction>,   // transactions handed to commit() and not lost in a crash
    current: Transaction)       // log_writes since the last one was handed over

  datatype Action =
    | Begin
    | Check(op: nat)
    | Record(op: nat, at: nat, data: Block)
    | End(op: nat)
    | DiskWrite
    | Finish
    | Crash

  /** Blocked: the action cannot happen here (the caller sleeps).  Overrun: a block number would
      be stored past the header array or past the log area. */
  datatype Outcome = Moved(state: State) | Blocked | Panicked | Overrun

  // ---------------------------------------------------------------- the steps

  /** begin_op's test under log.lock. */
  predicate MayBegin(n: nat, outstanding: int, committing: bool) {
    !committing && n + (outstanding + 1) * MAXOPBLOCKS <= LOGSIZE
  }

  /** log_write's first test, made before log.lock is taken. */
  predicate TooBig(g: Geometry, n: nat) {
    n >= LOGSIZE || n >= g.size - 1
  }

  /** log_write's search and append: a block already recorded is absorbed. */
  function Absorb(lh: seq<nat>, b: nat): (r: seq<nat>)
    ensures Distinct(lh) ==> Distinct(r)
    ensures b in r && forall x :: x in r <==> x in lh || x == b
  {
    if b in lh then lh else lh + [b]
  }

  /** The next block write of commit(), computed from the state at that moment. */
  function NextCommitWrite(g: Geometry, s: State, pc: nat): Write
    requires Fits(g, s.disk) && |s.lh| <= LOGSIZE && |s.lh| < g.size
    requires pc < 2 * |s.lh| + 2
  {
    var n := |s.lh|;
    if pc < n then
      var b := s.lh[pc];
      Write(g.start + 1 + pc,
            if b in s.dirty then s.dirty[b] else if b < |s.disk| then s.disk[b] else s.disk[g.start])
    else if pc == n then Write(g.start, PutHead(s.disk[g.start], s.lh))
    else if pc <= 2 * n then Write(s.lh[pc - n - 1], s.disk[g.start + 1 + (pc - n - 1)])
    else Write(g.start, PutHead(s.disk[g.start], []))
  }

  /** The next block write of recover_from_log(). */
  function NextRecoverWrite(g: Geometry, s: State, pc: nat): Write
    requires Fits(g, s.disk) && |s.lh| < g.size && pc <= |s.lh|
  {
    if pc < |s.lh| then Write(s.lh[pc], s.disk[g.start + 1 + pc])
    else Write(g.start, PutHead(s.disk[g.start], []))
  }

  /** bwrite: the block reaches the disk and its buffer is no longer dirty. */
  function Store(s: State, w: Write, phase: Phase): State
    requires w.at < |s.disk|
  {
    s.(disk := s.disk[w.at := w.data], dirty := s.dirty - {w.at}, phase := phase)
  }

  /** How many closed transactions a crash now would keep: all but one being committed whose
      header is not on the disk yet. */
  function Durable(s: State): nat {
    if s.phase.Commit? && s.lh != [] && s.phase.pc <= |s.lh| && s.closed != [] then |s.closed| - 1
    else |s.closed|
  }

  function DoBegin(s: State): Outcome {
    if s.phase.Recover? || !MayBegin(|s.lh|, s.outstanding, s.phase.Commit?) then Blocked
    else Moved(s.(outstanding := s.outstanding + 1,
                  calls := s.calls[s.nextCall := Call(0, false)],
                  nextCall := s.nextCall + 1))
  }

  function DoCheck(g: Geometry, s: State, op: nat): Outcome {
    if op !in s.calls then Blocked
    else if TooBig(g, |s.lh|) || s.outstanding < 1 then Panicked
    else Moved(s.(calls := s.calls[op := s.calls[op].(checked := true)]))
  }

  function DoRecord(g: Geometry, s: State, op: nat, at: nat, data: Block): Outcome {
    if op !in s.calls || !s.calls[op].checked || at >= |s.disk| || InLog(g, at) then Blocked
    else if at !in s.lh && TooBig(g, |s.lh|) then Overrun
    else Moved(s.(lh := Absorb(s.lh, at),
                  dirty := s.dirty[at := data],
                  calls := s.calls[op := Call(s.calls[op].used + 1, false)],
                  current := s.current + [Event(op, at, data)]))
  }

  function DoEnd(s: State, op: nat): Outcome {
    if op !in s.calls || s.calls[op].checked then Blocked
    else if s.phase.Commit? then Panicked
    else
      var t := s.(outstanding := s.outstanding - 1, calls := s.calls - {op});
      if t.outstanding != 0 then Moved(t)
      else Moved(t.(phase := Commit(0), base := s.disk, view := s.dirty,
                    closed := s.closed + [s.current], current := []))
  }

  function DoDiskWrite(g: Geometry, s: State): Outcome {
    if !Fits(g, s.disk) || |s.lh| > LOGSIZE || |s.lh| >= g.size then Overrun
    else match s.phase
      case Idle => Blocked
      case Commit(pc) =>
        if pc >= CommitLength(s.lh) then Blocked
        else
          var w := NextCommitWrite(g, s, pc);
          if w.at >= |s.disk| then Overrun else Moved(Store(s, w, Commit(pc + 1)))
      case Recover(pc) =>
        if pc > |s.lh| then Blocked
        else
          var w := NextRecoverWrite(g, s, pc);
          if w.at >= |s.disk| then Overrun else Moved(Store(s, w, Recover(pc + 1)))
  }

  /** commit() returns and log.committing is cleared, or the boot-time recovery returns. */
  function DoFinish(s: State): Outcome {
    match s.phase
    case Idle => Blocked
    case Commit(pc) => if pc < CommitLength(s.lh) then Blocked else Moved(s.(phase := Idle, lh := []))
    case Recover(pc) => if pc <= |s.lh| then Blocked else Moved(s.(phase := Idle, lh := []))
  }

  /** Power loss: only the disk remains, and the next boot reads the header. */
  function DoCrash(g: Geometry, s: State): Outcome {
    if !Recoverable(g, s.disk) then Overrun
    else Moved(s.(dirty := map[], lh := GetHead(s.disk[g.start]), outstanding := 0, calls := map[],
                  phase := Recover(0), base := s.disk, view := map[],
                  closed := s.closed[..Durable(s)], current := []))
  }

  function Next(g: Geometry, s: State, a: Action): Outcome {
    match a
    case Begin => DoBegin(s)
    case Check(op) => DoCheck(g, s, op)
    case Record(op, at, data) => DoRecord(g, s, op, at, data)
    case End(op) => DoEnd(s, op)
    case DiskWrite => DoDiskWrite(g, s)
    case Finish => DoFinish(s)
    case Crash => DoCrash(g, s)
  }

  /** The actions in order; the run stops at the first that does not move. */
  function Run(g: Geometry, s: State, actions: seq<Action>): Outcome {
    if actions == [] then Moved(s)
    else match Run(g, s, actions[..|actions| - 1])
      case Moved(t) => Next(g, t, actions[|actions| - 1])
      case Blocked => Blocked
      case Panicked => Panicked
      case Overrun => Overrun
  }

  /** A booted system: no calls, an empty log. */
  function Boot(d: Disk): State {
    State(d, map[], [], 0, Idle, map[], 0, d, d, map[], [], [])
  }

  // ---------------------------------------------------------------- what a run should mean

  /** The blocks of a transaction with the contents logged last. */
  function Final(t: Transaction): map<nat, Block> {
    if t == [] then map[]
    else
      var e := t[|t| - 1];
      Final(t[..|t| - 1])[e.at := e.data]
  }

  /** The disk after whole transactions, in order, with no log and no cache. */
  function Effect(d: Disk, ts: seq<Transaction>): (r: Disk)
    ensures |r| == |d|
  {
    if ts == [] then d else Overlay(Effect(d, ts[..|ts| - 1]), Final(ts[|ts| - 1]))
  }

  /** No call has log_writes in two transactions. */
  ghost predicate Separate(closed: seq<Transaction>, current: Transaction) {
    && (forall i, j :: 0 <= i < j < |closed| ==>
         forall e, f :: e in closed[i] && f in closed[j] ==> e.op != f.op)
    && (forall i :: 0 <= i < |closed| ==> forall e, f :: e in closed[i] && f in current ==> e.op != f.op)
  }

  // ---------------------------------------------------------------- the invariant

  function Count(calls: map<nat, Call>, n: nat): nat {
    if n == 0 then 0 else Count(calls, n - 1) + if n - 1 in calls then 1 else 0
  }

  ghost predicate History(s: State) {
    && Separate(s.closed, s.current)
    && (forall op :: op in s.calls ==> op < s.nextCall)
    && (forall e :: e in s.current ==> e.op < s.nextCall)
    && (forall i :: 0 <= i < |s.closed| ==>
         forall e :: e in s.closed[i] ==> e.op < s.nextCall && e.op !in s.calls)
    && s.outstanding == Count(s.calls, s.nextCall)
  }

  ghost predicate NoCalls(s: State) {
    s.calls == map[] && s.outstanding == 0 && s.current == []
  }

  ghost predicate Listed(m: map<nat, Block>, lh: seq<nat>) {
    forall b :: b in m <==> b in lh
  }

  ghost predicate IdleInv(g: Geometry, s: State) {
    && Clean(g, s.disk)
    && SameHome(g, s.disk, Effect(s.home, s.closed))
    && GoodList(g, s.disk, s.lh)
    && s.dirty == Final(s.current) && Listed(s.dirty, s.lh)
  }

  ghost predicate CommitInv(g: Geometry, s: State, pc: nat) {
    && NoCalls(s)
    && s.closed != []
    && Clean(g, s.base)
    && SameHome(g, s.base, Effect(s.home, s.closed[..|s.closed| - 1]))
    && GoodList(g, s.base, s.lh)
    && s.view == Final(s.closed[|s.closed| - 1]) && Listed(s.view, s.lh)
    && pc <= CommitLength(s.lh)
    && s.disk == Apply(s.base, CommitWrites(g, s.base, s.lh, s.view)[..pc])
    && (forall b :: b in s.dirty <==> b in s.lh && pc <= |s.lh| + 1 + IndexOf(s.lh, b))
    && (forall b :: b in s.dirty ==> s.dirty[b] == s.view[b])
  }

  ghost predicate RecoverInv(g: Geometry, s: State, pc: nat) {
    && NoCalls(s)
    && Recoverable(g, s.base)
    && s.lh == GetHead(s.base[g.start])
    && pc <= |s.lh| + 1
    && s.disk == Apply(s.base, RecoverWrites(g, s.base)[..pc])
    && SameHome(g, Recovered(g, s.base), Effect(s.home, s.closed))
    && s.dirty == map[]
  }

  ghost predicate Inv(g: Geometry, s: State) {
    && History(s)
    && match s.phase
       case Idle => IdleInv(g, s)
       case Commit(pc) => CommitInv(g, s, pc)
       case Recover(pc) => RecoverInv(g, s, pc)
  }

  // ---------------------------------------------------------------- counting calls

  lemma {:induction false} CountSet(calls: map<nat, Call>, op: nat, c: Call, n: nat)
    ensures Count(calls[op := c], n) == Count(calls, n) + if op < n && op !in calls then 1 else 0
    decreases n
  {
    if n > 0 { CountSet(calls, op, c, n - 1); }
  }

  lemma {:induction false} CountRemove(calls: map<nat, Call>, op: nat, n: nat)
    requires op in calls
    ensures Count(calls - {op}, n) == Count(calls, n) - if op < n then 1 else 0
    decreases n
  {
    if n > 0 { CountRemove(calls, op, n - 1); }
  }

  lemma {:induction false} CountZero(calls: map<nat, Call>, n: nat, op: nat)
    requires Count(calls, n) == 0 && op < n
    ensures op !in calls
  {
    if op < n - 1 { CountZero(calls, n - 1, op); }
  }

  lemma {:induction false} CountNone(n: nat)
    ensures Count(map[], n) == 0
  {
    if n > 0 { CountNone(n - 1); }
  }

  // ---------------------------------------------------------------- every step keeps it

  lemma BeginKeeps(g: Geometry, s: State)
    requires Inv(g, s) && DoBegin(s).Moved?
    ensures Inv(g, DoBegin(s).state)
  {
    CountSet(s.calls, s.nextCall, Call(0, false), s.nextCall);
  }

  lemma CheckKeeps(g: Geometry, s: State, op: nat)
    requires Inv(g, s) && DoCheck(g, s, op).Moved?
    ensures Inv(g, DoCheck(g, s, op).state)
  {
    CountSet(s.calls, op, s.calls[op].(checked := true), s.nextCall);
  }

  lemma RecordHistory(g: Geometry, s: State, op: nat, at: nat, data: Block)
    requires History(s) && DoRecord(g, s, op, at, data).Moved?
    ensures History(DoRecord(g, s, op, at, data).state)
  {
    var t := DoRecord(g, s, op, at, data).state;
    CountSet(s.calls, op, Call(s.calls[op].used + 1, false), s.nextCall);
    assert forall e :: e in t.current ==> e in s.current || e == Event(op, at, data);
  }

  lemma RecordKeeps(g: Geometry, s: State, op: nat, at: nat, data: Block)
    requires Inv(g, s) && DoRecord(g, s, op, at, data).Moved?
    ensures Inv(g, DoRecord(g, s, op, at, data).state)
  {
    var t := DoRecord(g, s, op, at, data).state;
    RecordHistory(g, s, op, at, data);
    assert s.phase.Idle?;
    hide History, Effect, SameHome, Clean, CommitInv, RecoverInv;
    assert t.current[..|t.current| - 1] == s.current;
  }

  lemma EndKeeps(g: Geometry, s: State, op: nat)
    requires Inv(g, s) && DoEnd(s, op).Moved?
    ensures Inv(g, DoEnd(s, op).state)
  {
    var t := DoEnd(s, op).state;
    CountRemove(s.calls, op, s.nextCall);
    if t.outstanding == 0 {
      forall o | o in t.calls ensures false { CountZero(t.calls, t.nextCall, o); }
      assert t.closed[..|t.closed| - 1] == s.closed;
      assert CommitWrites(g, t.base, t.lh, t.view)[..0] == [];
    }
  }

  lemma CopyWriteAt(g: Geometry, s: State, pc: nat)
    requires CommitInv(g, s, pc) && pc < |s.lh|
    ensures NextCommitWrite(g, s, pc) == CommitWrite(g, s.base, s.lh, s.view, pc)
  {
  }

  lemma HeadWriteAt(g: Geometry, s: State, pc: nat)
    requires CommitInv(g, s, pc) && s.lh != [] && (pc == |s.lh| || pc == 2 * |s.lh| + 1)
    ensures NextCommitWrite(g, s, pc) == CommitWrite(g, s.base, s.lh, s.view, pc)
  {
    CommitPrefixAt(g, s.base, s.lh, s.view, pc, g.start);
  }

  lemma InstallWriteAt(g: Geometry, s: State, pc: nat)
    requires CommitInv(g, s, pc) && |s.lh| < pc <= 2 * |s.lh|
    ensures NextCommitWrite(g, s, pc) == CommitWrite(g, s.base, s.lh, s.view, pc)
  {
    hide Apply, CommitWrites, PutHead, Effect, Final, IndexOf, SameHome;
    CopiedAt(g, s.base, s.lh, s.view, pc, pc - |s.lh| - 1);
  }

  /** What commit() writes next, read from the live state, is what it would have written had it
      computed every write when it started. */
  lemma CommitWriteAt(g: Geometry, s: State, pc: nat)
    requires CommitInv(g, s, pc) && pc < CommitLength(s.lh)
    ensures NextCommitWrite(g, s, pc) == CommitWrites(g, s.base, s.lh, s.view)[pc]
  {
    if pc < |s.lh| {
      CopyWriteAt(g, s, pc);
    } else if |s.lh| < pc <= 2 * |s.lh| {
      InstallWriteAt(g, s, pc);
    } else {
      HeadWriteAt(g, s, pc);
    }
  }

  /** Each install unpins the buffer of the block it writes. */
  lemma CommitUnpins(g: Geometry, s: State, pc: nat, b: nat)
    requires CommitInv(g, s, pc) && pc < CommitLength(s.lh)
    ensures
      var w := CommitWrites(g, s.base, s.lh, s.view)[pc];
      b in s.dirty - {w.at} <==> b in s.lh && pc + 1 <= |s.lh| + 1 + IndexOf(s.lh, b)
  {
    hide Apply, PutHead, Effect, Final, IndexOf, Clean, SameHome;
    var n := |s.lh|;
    if n < pc <= 2 * n { IndexOfAt(s.lh, pc - n - 1); }
  }

  lemma CommitStepKeeps(g: Geometry, s: State, pc: nat)
    requires Inv(g, s) && s.phase == Commit(pc) && DoDiskWrite(g, s).Moved?
    ensures Inv(g, DoDiskWrite(g, s).state)
  {
    hide PutHead, Effect, Final, Clean, SameHome, Separate, NextCommitWrite, CommitWrites, Apply;
    var t := DoDiskWrite(g, s).state;
    CommitWriteAt(g, s, pc);
    ApplyNext(s.base, CommitWrites(g, s.base, s.lh, s.view), pc);
    forall b
      ensures b in t.dirty <==> b in s.lh && pc + 1 <= |s.lh| + 1 + IndexOf(s.lh, b)
    {
      CommitUnpins(g, s, pc, b);
    }
  }

  lemma RecoverStepKeeps(g: Geometry, s: State, pc: nat)
    requires Inv(g, s) && s.phase == Recover(pc) && DoDiskWrite(g, s).Moved?
    ensures Inv(g, DoDiskWrite(g, s).state)
  {
    var ws := RecoverWrites(g, s.base);
    RecoverPrefix(g, s.base, pc);
    assert s.disk[g.start] == RecoverPoint(g, s.base, pc, g.start);
    if pc < |s.lh| {
      assert s.disk[g.start + 1 + pc] == RecoverPoint(g, s.base, pc, g.start + 1 + pc);
    }
    assert NextRecoverWrite(g, s, pc) == ws[pc];
    ApplyNext(s.base, ws, pc);
  }

  lemma OverlayHome(g: Geometry, d: Disk, e: Disk, m: map<nat, Block>)
    requires SameHome(g, d, e)
    ensures SameHome(g, Overlay(d, m), Overlay(e, m))
  {
  }

  lemma CommitRecovers(g: Geometry, s: State, pc: nat)
    requires CommitInv(g, s, pc) && s.phase == Commit(pc)
    ensures Recoverable(g, s.disk) && Clean(g, Recovered(g, s.disk))
    ensures SameHome(g, Recovered(g, s.disk), Effect(s.home, s.closed[..Durable(s)]))
  {
    CommitAtomic(g, s.base, s.lh, s.view, pc);
    if Durable(s) == |s.closed| {
      EffectOfLast(g, s);
    }
  }

  lemma EffectOfLast(g: Geometry, s: State)
    requires s.closed != [] && Listed(s.view, s.lh)
    requires SameHome(g, s.base, Effect(s.home, s.closed[..|s.closed| - 1]))
    requires s.view == Final(s.closed[|s.closed| - 1])
    ensures Restrict(s.view, s.lh) == s.view
    ensures SameHome(g, Overlay(s.base, s.view), Effect(s.home, s.closed[..|s.closed|]))
    ensures s.lh == [] ==> SameHome(g, s.base, Effect(s.home, s.closed[..|s.closed|]))
  {
    assert s.closed[..|s.closed|] == s.closed;
    OverlayHome(g, s.base, Effect(s.home, s.closed[..|s.closed| - 1]), s.view);
  }

  /** The disk of a state is always one from which recovery yields the durable transactions. */
  lemma RecoversDurable(g: Geometry, s: State)
    requires Inv(g, s)
    ensures Recoverable(g, s.disk) && Clean(g, Recovered(g, s.disk))
    ensures SameHome(g, Recovered(g, s.disk), Effect(s.home, s.closed[..Durable(s)]))
  {
    match s.phase
    case Idle =>
      RecoverClean(g, s.disk);
      assert s.closed[..Durable(s)] == s.closed;
    case Commit(pc) =>
      CommitRecovers(g, s, pc);
    case Recover(pc) =>
      RecoverIdempotent(g, s.base, pc);
      assert s.closed[..Durable(s)] == s.closed;
  }

  lemma CommittedHome(g: Geometry, s: State, pc: nat)
    requires CommitInv(g, s, pc) && pc == CommitLength(s.lh)
    ensures SameHome(g, s.disk, Effect(s.home, s.closed))
  {
    hide PutHead, Apply, CommitWrites, Final, IndexOf;
    forall b | 0 <= b < |s.disk| && !InLog(g, b) ensures s.disk[b] == Effect(s.home, s.closed)[b] {
      CommitPrefixAt(g, s.base, s.lh, s.view, pc, b);
    }
  }

  lemma CommittedClean(g: Geometry, s: State, pc: nat)
    requires CommitInv(g, s, pc) && pc == CommitLength(s.lh)
    ensures Clean(g, s.disk) && s.dirty == map[]
  {
  }

  lemma FinishCommitKeeps(g: Geometry, s: State, pc: nat)
    requires Inv(g, s) && s.phase == Commit(pc) && DoFinish(s).Moved?
    ensures Inv(g, DoFinish(s).state)
  {
    hide Effect, Apply, CommitWrites, SameHome, Clean;
    CommittedHome(g, s, pc);
    CommittedClean(g, s, pc);
  }

  lemma FinishKeeps(g: Geometry, s: State)
    requires Inv(g, s) && DoFinish(s).Moved?
    ensures Inv(g, DoFinish(s).state)
  {
    match s.phase
    case Commit(pc) => FinishCommitKeeps(g, s, pc);
    case Recover(pc) =>
      assert RecoverWrites(g, s.base)[..pc] == RecoverWrites(g, s.base);
      RecoverIdempotent(g, s.base, pc);
  }

  lemma CrashKeeps(g: Geometry, s: State)
    requires Inv(g, s) && DoCrash(g, s).Moved?
    ensures Inv(g, DoCrash(g, s).state)
  {
    RecoversDurable(g, s);
    CountNone(s.nextCall);
    assert RecoverWrites(g, s.disk)[..0] == [];
  }

  lemma DiskWriteKeeps(g: Geometry, s: State)
    requires Inv(g, s) && DoDiskWrite(g, s).Moved?
    ensures Inv(g, DoDiskWrite(g, s).state)
  {
    hide Inv;
    match s.phase
    case Idle =>
    case Commit(pc) => CommitStepKeeps(g, s, pc);
    case Recover(pc) => RecoverStepKeeps(g, s, pc);
  }

  lemma HomeKept(g: Geometry, s: State, a: Action)
    requires Next(g, s, a).Moved?
    ensures Next(g, s, a).state.home == s.home
  {
  }

  lemma StepKeeps(g: Geometry, s: State, a: Action)
    requires Inv(g, s) && Next(g, s, a).Moved?
    ensures Inv(g, Next(g, s, a).state)
  {
    hide Inv, DoBegin, DoCheck, DoRecord, DoEnd, DoDiskWrite, DoFinish, DoCrash;
    match a
    case Begin => BeginKeeps(g, s);
    case Check(op) => CheckKeeps(g, s, op);
    case Record(op, at, data) => RecordKeeps(g, s, op, at, data);
    case End(op) => EndKeeps(g, s, op);
    case DiskWrite => DiskWriteKeeps(g, s);
    case Finish => FinishKeeps(g, s);
    case Crash => CrashKeeps(g, s);
  }

  lemma {:induction false} RunKeeps(g: Geometry, s: State, actions: seq<Action>)
    requires Inv(g, s) && Run(g, s, actions).Moved?
    ensures Inv(g, Run(g, s, actions).state) && Run(g, s, actions).state.home == s.home
  {
    if actions != [] {
      var init := actions[..|actions| - 1];
      RunKeeps(g, s, init);
      StepKeeps(g, Run(g, s, init).state, actions[|actions| - 1]);
      HomeKept(g, Run(g, s, init).state, actions[|actions| - 1]);
    }
  }

  // ---------------------------------------------------------------- the theorems

  /** Group commit is atomic in every run: at every reachable state, recovering the disk yields
      exactly the first k whole transactions, the others never having touched a home block, and
      no call is split over two transactions. */
  lemma GroupCommitAtomic(g: Geometry, d: Disk, actions: seq<Action>)
    requires Clean(g, d) && Run(g, Boot(d), actions).Moved?
    ensures
      var s := Run(g, Boot(d), actions).state;
      && Recoverable(g, s.disk) && Clean(g, Recovered(g, s.disk))
      && SameHome(g, Recovered(g, s.disk), Effect(d, s.closed[..Durable(s)]))
      && Separate(s.closed, s.current)
  {
    RunKeeps(g, Boot(d), actions);
    RecoversDurable(g, Run(g, Boot(d), actions).state);
  }

  /** Durability: no action loses a transaction that a crash would have kept. */
  lemma DurableStays(g: Geometry, s: State, a: Action)
    requires Inv(g, s) && Next(g, s, a).Moved?
    ensures
      var t := Next(g, s, a).state;
      s.closed[..Durable(s)] <= t.closed[..Durable(t)]
  {
    assert s.phase.Commit? ==> s.calls == map[];
    hide Inv;
    DurableGrows(g, s, a);
  }

  lemma DurableGrows(g: Geometry, s: State, a: Action)
    requires Next(g, s, a).Moved? && (s.phase.Commit? ==> s.calls == map[])
    ensures
      var t := Next(g, s, a).state;
      s.closed[..Durable(s)] <= t.closed[..Durable(t)]
  {
  }

  lemma DiskWriteDefined(g: Geometry, s: State)
    requires Inv(g, s)
    ensures !DoDiskWrite(g, s).Overrun?
  {
  }

  /** The steps that no run can take: the log.committing panic, the panic for a log_write outside a
      transaction, a begin_op during commit(), and a crash that the next boot cannot recover. */
  lemma NeverHappens(g: Geometry, d: Disk, actions: seq<Action>, op: nat)
    requires Clean(g, d) && Run(g, Boot(d), actions).Moved?
    ensures
      var s := Run(g, Boot(d), actions).state;
      && !DoEnd(s, op).Panicked?
      && (op in s.calls ==> s.outstanding >= 1)
      && (s.phase.Commit? ==> s.outstanding == 0 && s.calls == map[] && DoBegin(s).Blocked?)
      && DoCrash(g, s).Moved? && !DoDiskWrite(g, s).Overrun?
  {
    RunKeeps(g, Boot(d), actions);
    var s := Run(g, Boot(d), actions).state;
    assert Recoverable(g, s.disk) by { RecoversDurable(g, s); }
    DiskWriteDefined(g, s);
    if op in s.calls { CountRemove(s.calls, op, s.nextCall); }
  }

  function Below(calls: map<nat, Call>, n: nat): set<nat> {
    set op | op in calls && op < n
  }

  lemma {:induction false} CountBelow(calls: map<nat, Call>, n: nat)
    ensures Count(calls, n) == |Below(calls, n)|
    decreases n
  {
    if n == 0 {
      assert Below(calls, n) == {};
    } else {
      CountBelow(calls, n - 1);
      assert Below(calls, n) == if n - 1 in calls then Below(calls, n - 1) + {n - 1} else Below(calls, n - 1);
    }
  }

  /** In every reachable state begin_op admits a call exactly when neither commit() nor recovery is under way and the
      blocks recorded leave room for ten more from each call in flight and from this one. */
  lemma BeginsExactly(g: Geometry, d: Disk, actions: seq<Action>)
    requires Clean(g, d) && Run(g, Boot(d), actions).Moved?
    ensures
      var s := Run(g, Boot(d), actions).state;
      && s.outstanding == |s.calls.Keys|
      && (Next(g, s, Begin).Moved? <==> s.phase.Idle? && |s.lh| + 10 * (|s.calls.Keys| + 1) <= 30)
      && (Next(g, s, Begin).Blocked? <==> !Next(g, s, Begin).Moved?)
  {
    RunKeeps(g, Boot(d), actions);
    var s := Run(g, Boot(d), actions).state;
    CountBelow(s.calls, s.nextCall);
    assert Below(s.calls, s.nextCall) == s.calls.Keys;
  }
}
