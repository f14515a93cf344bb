/**
  Runs of the process table: whatever the other processes do, a process that sleeps stays asleep until its
  channel is woken or it is killed, and then it is runnable.
 */
module ProcRuns {
  import opened Proc

  /** One section with ptable.lock held. */
  datatype Action =
    | Wake(chan: Chan)
    | Leave(cur: nat)
    | Wait(cur: nat)
    | Begin
    | Abandon(i: nat)
    | Enter(cur: nat, i: nat)
    | Finish(cur: nat, i: nat)
    | Doze(cur: nat, id: nat)
    | Dispatch(i: nat)
    | Pause(cur: nat)
    | Slay(pid: nat, allowed: bool)

  /** The action wakes a process with this number that sleeps on this channel. */
  predicate Rouses(a: Action, pid: nat, id: nat) {
    a == Wake(Other(id)) || (a.Slay? && a.pid == pid && a.allowed)
  }

  predicate Dozing(p: Proc) {
    p.state == SLEEPING && p.chan.Other?
  }

  /** A sleeper is made runnable if the action rouses it, and sleeps on if it does not. */
  predicate Sleeper(p: Proc, p': Proc, a: Action)
    requires Dozing(p)
  {
    && p'.pid == p.pid && p'.chan == p.chan
    && p'.state == if Rouses(a, p.pid, p.chan.id) then RUNNABLE else SLEEPING
  }

  /** The action, if the table is in a state for it. */
  method Perform(t: ProcTable, a: Action)
    requires t.Valid()
    modifies t, t.proc
    ensures t.Valid()
    ensures forall i :: 0 <= i < NPROC && Dozing(old(t.proc[i])) ==> Sleeper(old(t.proc[i]), t.proc[i], a)
  {
    hide TableOk, Ledger;
    match a {
      case Wake(chan) => t.Wakeup(chan);
      case Leave(cur) => if cur < NPROC && t.proc[cur].state == RUNNING { var _ := t.Exit(cur); }
      case Wait(cur) => if cur < NPROC && t.proc[cur].state == RUNNING { var _ := t.WaitScan(cur); }
      case Begin => var _ := t.Allocproc();
      case Abandon(i) => if i < NPROC && t.proc[i].state == EMBRYO && t.proc[i].parent == -1 { t.ForkFail(i); }
      case Enter(cur, i) =>
        if cur < NPROC && i < NPROC && t.proc[i].state == EMBRYO && t.proc[cur].state == RUNNING { t.ForkParent(cur, i); }
      case Finish(cur, i) =>
        if cur < NPROC && i < NPROC && t.proc[i].state == EMBRYO && t.proc[cur].state == RUNNING && t.proc[i].parent == cur {
          t.ForkDone(cur, i);
        }
      case Doze(cur, id) => if cur < NPROC && t.proc[cur].state == RUNNING { t.Sleep(cur, id); }
      case Dispatch(i) => if i < NPROC && t.proc[i].state == RUNNABLE { t.Schedule(i); }
      case Pause(cur) => if cur < NPROC && t.proc[cur].state == RUNNING { t.Yield(cur); }
      case Slay(pid, allowed) => var _ := t.Kill(pid, allowed);
    }
  }

  predicate Undisturbed(actions: seq<Action>, pid: nat, id: nat) {
    forall a :: a in actions ==> !Rouses(a, pid, id)
  }

  method Run(t: ProcTable, actions: seq<Action>, ghost i: nat, ghost pid: nat, ghost id: nat)
    requires t.Valid() && i < NPROC && t.proc[i].state == SLEEPING && t.proc[i].chan == Other(id) && t.proc[i].pid == pid
    modifies t, t.proc
    ensures t.Valid()
    ensures Undisturbed(actions, pid, id) ==>
      t.proc[i].state == SLEEPING && t.proc[i].chan == Other(id) && t.proc[i].pid == pid
  {
    var k := 0;
    while k < |actions|
      invariant 0 <= k <= |actions| && t.Valid()
      invariant Undisturbed(actions[..k], pid, id) ==>
        t.proc[i].state == SLEEPING && t.proc[i].chan == Other(id) && t.proc[i].pid == pid
    {
      Perform(t, actions[k]);
      assert actions[..k + 1] == actions[..k] + [actions[k]];
      k := k + 1;
    }
    assert actions[..k] == actions;
  }

  /** sleep() by one process, anything at all by the others, and wakeup() of the channel: no one sleeps on it, and
      the process is runnable unless it was roused before. */
  method SleepAndWake(t: ProcTable, cur: nat, id: nat, others: seq<Action>)
    requires t.Valid() && cur < NPROC && t.proc[cur].state == RUNNING
    modifies t, t.proc
    ensures t.Valid()
    ensures forall i :: 0 <= i < NPROC ==> !(t.proc[i].state == SLEEPING && t.proc[i].chan == Other(id))
    ensures Undisturbed(others, old(t.proc[cur].pid), id) ==>
      t.proc[cur].state == RUNNABLE && t.proc[cur].pid == old(t.proc[cur].pid)
  {
    hide TableOk, Ledger;
    t.Sleep(cur, id);
    Run(t, others, cur, t.proc[cur].pid, id);
    t.Wakeup(Other(id));
  }
}
