/**
  The process table of proc.c, one method for each section that runs with ptable.lock held.  A run
  of the system is any sequence of calls; whenever the lock is free, Valid() holds.  pause and
  resume are not part of the model.
 */
module Proc {

  datatype ProcState = UNUSED | EMBRYO | SLEEPING | RUNNABLE | RUNNING | ZOMBIE

  /** wait() sleeps on the process itself; all other channels are addresses of something else. */
  datatype Chan = NoChan | Self(p: int) | Other(id: nat)

  /** parent is a slot, or -1 for none. */
  datatype Proc = Proc(state: ProcState, pid: nat, parent: int, chan: Chan, killed: bool)

  const NPROC: nat := 64

  type Table = seq<Proc>

  predicate Alive(p: Proc) {
    p.state in {SLEEPING, RUNNABLE, RUNNING}
  }

  // ---------------------------------------------------------------- What holds when the lock is free

  /** A live or exited process has a live parent, unless it is init. */
  predicate Parented(s: Table, init: nat, i: nat)
    requires i < |s|
  {
    (Alive(s[i]) || s[i].state == ZOMBIE) && i != init ==> 0 <= s[i].parent < |s| && s[i].parent != i && Alive(s[s[i].parent])
  }

  /** A process asleep in wait() has no exited child; the channel Self is for its own process. */
  predicate Attentive(s: Table, i: nat)
    requires i < |s|
  {
    s[i].state == SLEEPING && s[i].chan.Self? ==>
      s[i].chan.p == i && forall c :: 0 <= c < |s| && s[c].parent == i ==> s[c].state != ZOMBIE
  }

  /** A free slot has no parent; one being filled has none yet, or a live one. */
  predicate Orphan(s: Table, i: nat)
    requires i < |s|
  {
    && (s[i].state == UNUSED ==> s[i].parent == -1)
    && (s[i].state == EMBRYO ==> s[i].parent == -1 || (0 <= s[i].parent < |s| && s[i].parent != i && Alive(s[s[i].parent])))
  }

  predicate TableOk(s: Table, init: nat) {
    && init < |s| && Alive(s[init])
    && (forall i :: 0 <= i < |s| ==> Parented(s, init, i))
    && (forall i :: 0 <= i < |s| ==> Attentive(s, i))
    && (forall i :: 0 <= i < |s| ==> Orphan(s, i))
  }

  predicate Used(p: Proc) { p.state != UNUSED }

  /** Process numbers are handed out once, and no free slot has that of a process; exited processes are exactly
      the zombies and the reaped. */
  predicate Ledger(s: Table, nextpid: nat, exited: set<nat>, reaped: set<nat>) {
    && (forall i, j :: 0 <= i < |s| && 0 <= j < |s| && i != j && Used(s[i]) ==> s[i].pid != s[j].pid)
    && 0 < nextpid && (forall i :: 0 <= i < |s| ==> s[i].pid < nextpid && (Used(s[i]) ==> s[i].pid != 0))
    && (forall pid :: pid in exited ==> pid < nextpid)
    && reaped <= exited
    && (forall i :: 0 <= i < |s| && Used(s[i]) ==> (s[i].pid in exited <==> s[i].state == ZOMBIE))
    && (forall i :: 0 <= i < |s| && Used(s[i]) ==> s[i].pid !in reaped)
    && (forall pid :: pid in exited && pid !in reaped ==> exists i :: 0 <= i < |s| && s[i].state == ZOMBIE && s[i].pid == pid)
  }

  // ---------------------------------------------------------------- wakeup1

  function Wake(p: Proc, chan: Chan): Proc {
    if p.state == SLEEPING && p.chan == chan then p.(state := RUNNABLE) else p
  }

  function Woken(s: Table, chan: Chan): (r: Table)
    ensures |r| == |s| && forall i :: 0 <= i < |s| ==> r[i] == Wake(s[i], chan)
  {
    seq(|s|, i requires 0 <= i < |s| => Wake(s[i], chan))
  }

  /** Waking up never hurts. */
  lemma WokenKeeps(s: Table, init: nat, chan: Chan)
    requires TableOk(s, init)
    ensures TableOk(Woken(s, chan), init)
  {
    var r := Woken(s, chan);
    forall i | 0 <= i < |s| ensures Parented(r, init, i) { assert Parented(s, init, i); }
    forall i | 0 <= i < |s| ensures Attentive(r, i) { assert Attentive(s, i); }
    forall i | 0 <= i < |s| ensures Orphan(r, i) { assert Orphan(s, i); }
  }

  lemma LedgerSame(s: Table, s': Table, nextpid: nat, exited: set<nat>, reaped: set<nat>)
    requires Ledger(s, nextpid, exited, reaped) && |s| == |s'|
    requires forall i :: 0 <= i < |s| ==> s'[i].pid == s[i].pid
    requires forall i :: 0 <= i < |s| ==> (s'[i].state == ZOMBIE <==> s[i].state == ZOMBIE) && (Used(s'[i]) <==> Used(s[i]))
    ensures Ledger(s', nextpid, exited, reaped)
  {
  }

  // ---------------------------------------------------------------- exit

  /** The children of cur among the first n slots go to init. */
  function Adopt(p: Proc, cur: nat, init: nat): Proc {
    if p.parent == cur then p.(parent := init) else p
  }

  predicate ZombieChild(s: Table, cur: nat, n: nat) {
    exists i :: 0 <= i < n && i < |s| && s[i].parent == cur && s[i].state == ZOMBIE
  }

  /** The loop of exit() over the first n slots: children adopted, init woken if one has exited. */
  predicate Adopted(s: Table, r: Table, cur: nat, init: nat, n: nat) {
    && |r| == |s|
    && forall i :: 0 <= i < |s| ==>
         var p := if i < n then Adopt(s[i], cur, init) else s[i];
         r[i] == if ZombieChild(s, cur, n) then Wake(p, Self(init)) else p
  }

  /** After exit() nobody waits in vain, for the process or for its children. */
  lemma ExitKeeps(s: Table, w: Table, r: Table, cur: nat, init: nat)
    requires TableOk(s, init) && cur < |s| && cur != init && s[cur].state == RUNNING
    requires w == Woken(s, Self(s[cur].parent)) && Adopted(w, r, cur, init, |s|)
    ensures TableOk(r[cur := r[cur].(state := ZOMBIE)], init)
  {
    assert Parented(s, init, cur);
    WokenKeeps(s, init, Self(s[cur].parent));
    var e := r[cur := r[cur].(state := ZOMBIE)];
    forall i | 0 <= i < |s| ensures Parented(e, init, i) && Orphan(e, i) && Attentive(e, i) {
      ExitParented(w, r, cur, init, i);
      ExitAttentive(s, w, r, cur, init, i);
    }
    assert Alive(e[init]);
  }

  lemma ExitParented(w: Table, r: Table, cur: nat, init: nat, i: nat)
    requires TableOk(w, init) && cur < |w| && cur != init && w[cur].state == RUNNING && Adopted(w, r, cur, init, |w|) && i < |w|
    ensures
      var e := r[cur := r[cur].(state := ZOMBIE)];
      Parented(e, init, i) && Orphan(e, i)
  {
    hide ZombieChild;
    assert Parented(w, init, i) && Orphan(w, i);
  }

  lemma ExitAttentive(s: Table, w: Table, r: Table, cur: nat, init: nat, i: nat)
    requires TableOk(s, init) && TableOk(w, init) && cur < |s| && cur != init && s[cur].state == RUNNING && i < |s|
    requires w == Woken(s, Self(s[cur].parent)) && Adopted(w, r, cur, init, |s|)
    ensures Attentive(r[cur := r[cur].(state := ZOMBIE)], i)
  {
    var e := r[cur := r[cur].(state := ZOMBIE)];
    assert Attentive(w, i) && Attentive(s, i) && Parented(s, init, cur);
    assert ZombieChild(w, cur, |s|) || forall c :: 0 <= c < |s| && w[c].parent == cur ==> w[c].state != ZOMBIE;
  }

  lemma ExitFacts(s: Table, w: Table, r: Table, cur: nat, init: nat)
    requires cur < |s| && cur != init && s[cur].state == RUNNING
    requires w == Woken(s, Self(s[cur].parent)) && Adopted(w, r, cur, init, |s|)
    ensures |r| == |s| && r[cur].state == RUNNING
    ensures
      var e := r[cur := r[cur].(state := ZOMBIE)];
      && (forall i :: 0 <= i < |s| ==> e[i].pid == s[i].pid && e[i].parent != cur)
      && (forall i :: 0 <= i < |s| ==> (e[i].state == ZOMBIE <==> s[i].state == ZOMBIE || i == cur) && (Used(e[i]) <==> Used(s[i])))
  {
  }

  /** The same on the fields of the others. */
  lemma ExitFields(s: Table, w: Table, r: Table, cur: nat, init: nat)
    requires cur < |s| && s[cur].state == RUNNING && w == Woken(s, Self(s[cur].parent)) && Adopted(w, r, cur, init, |s|)
    ensures |r| == |s| && forall i :: 0 <= i < |s| && i != cur ==>
      && r[i].pid == s[i].pid && r[i].chan == s[i].chan && r[i].killed == s[i].killed
      && r[i].parent == (if s[i].parent == cur then init else s[i].parent)
      && r[i].state ==
         if s[i].state == SLEEPING
            && (s[i].chan == Self(s[cur].parent) || (s[i].chan == Self(init) && ZombieChild(s, cur, |s|)))
         then RUNNABLE else s[i].state
  {
    assert ZombieChild(w, cur, |s|) <==> ZombieChild(s, cur, |s|) by {
      if ZombieChild(s, cur, |s|) {
        var z :| 0 <= z < |s| && s[z].parent == cur && s[z].state == ZOMBIE;
        assert w[z].parent == cur && w[z].state == ZOMBIE;
      }
    }
    hide ZombieChild;
  }

  lemma ExitLedger(s: Table, r: Table, cur: nat, nextpid: nat, exited: set<nat>, reaped: set<nat>)
    requires Ledger(s, nextpid, exited, reaped) && cur < |s| && s[cur].state == RUNNING && |r| == |s|
    requires forall i :: 0 <= i < |s| ==> r[i].pid == s[i].pid
    requires forall i :: 0 <= i < |s| ==> (r[i].state == ZOMBIE <==> s[i].state == ZOMBIE || i == cur) && (Used(r[i]) <==> Used(s[i]))
    ensures s[cur].pid !in exited
    ensures Ledger(r, nextpid, exited + {s[cur].pid}, reaped)
  {
  }

  // ---------------------------------------------------------------- wait

  lemma ReapKeeps(s: Table, init: nat, z: nat)
    requires TableOk(s, init) && z < |s| && s[z].state == ZOMBIE
    ensures TableOk(s[z := Proc(UNUSED, 0, -1, s[z].chan, false)], init)
  {
    var r := s[z := Proc(UNUSED, 0, -1, s[z].chan, false)];
    forall i | 0 <= i < |s| ensures Parented(r, init, i) && Orphan(r, i) && Attentive(r, i) {
      assert Parented(s, init, i) && Orphan(s, i) && Attentive(s, i);
    }
  }

  lemma ReapLedger(s: Table, z: nat, nextpid: nat, exited: set<nat>, reaped: set<nat>)
    requires Ledger(s, nextpid, exited, reaped) && z < |s| && s[z].state == ZOMBIE
    ensures s[z].pid in exited && s[z].pid !in reaped
    ensures Ledger(s[z := Proc(UNUSED, 0, -1, s[z].chan, false)], nextpid, exited, reaped + {s[z].pid})
  {
    var r, reaped' := s[z := Proc(UNUSED, 0, -1, s[z].chan, false)], reaped + {s[z].pid};
    forall i | 0 <= i < |r| && Used(r[i]) ensures r[i].pid !in reaped' { assert i != z; }
    forall pid | pid in exited && pid !in reaped' ensures exists i :: 0 <= i < |r| && r[i].state == ZOMBIE && r[i].pid == pid {
      var i :| 0 <= i < |s| && s[i].state == ZOMBIE && s[i].pid == pid;
      assert r[i].state == ZOMBIE;
    }
  }

  lemma SleepKeeps(s: Table, init: nat, cur: nat, chan: Chan)
    requires TableOk(s, init) && cur < |s| && s[cur].state == RUNNING
    requires chan.Self? ==> chan.p == cur && forall c :: 0 <= c < |s| && s[c].parent == cur ==> s[c].state != ZOMBIE
    ensures TableOk(s[cur := s[cur].(state := SLEEPING, chan := chan)], init)
  {
    var r := s[cur := s[cur].(state := SLEEPING, chan := chan)];
    forall i | 0 <= i < |s| ensures Parented(r, init, i) && Orphan(r, i) && Attentive(r, i) {
      assert Parented(s, init, i) && Orphan(s, i) && Attentive(s, i);
    }
  }

  /** A live process that goes on, perhaps killed or woken, stays a good parent and child. */
  lemma AliveKeeps(s: Table, init: nat, i: nat, p: Proc)
    requires TableOk(s, init) && i < |s| && (Alive(s[i]) || s[i].state == p.state) && p.parent == s[i].parent
    requires p.state in {RUNNABLE, RUNNING} || (p.state == s[i].state && p.chan == s[i].chan)
    ensures TableOk(s[i := p], init)
  {
    var r := s[i := p];
    forall j | 0 <= j < |s| ensures Parented(r, init, j) && Orphan(r, j) && Attentive(r, j) {
      assert Parented(s, init, j) && Orphan(s, j) && Attentive(s, j);
    }
  }

  // ---------------------------------------------------------------- fork

  lemma EmbryoKeeps(s: Table, init: nat, i: nat, p: Proc)
    requires TableOk(s, init) && i < |s| && s[i].state in {UNUSED, EMBRYO} && p.state in {UNUSED, EMBRYO} && p.parent == -1
    ensures TableOk(s[i := p], init)
  {
    var r := s[i := p];
    forall j | 0 <= j < |s| ensures Parented(r, init, j) && Orphan(r, j) && Attentive(r, j) {
      assert Parented(s, init, j) && Orphan(s, j) && Attentive(s, j);
    }
  }

  lemma ForkKeeps(s: Table, init: nat, cur: nat, i: nat, state: ProcState)
    requires TableOk(s, init) && i < |s| && s[i].state == EMBRYO && cur < |s| && Alive(s[cur]) && state in {EMBRYO, RUNNABLE}
    ensures TableOk(s[i := s[i].(state := state, parent := cur)], init)
  {
    var r := s[i := s[i].(state := state, parent := cur)];
    forall j | 0 <= j < |s| ensures Parented(r, init, j) && Orphan(r, j) && Attentive(r, j) {
      assert Parented(s, init, j) && Orphan(s, j) && Attentive(s, j);
    }
  }

  /** An exited process not yet reaped is a zombie, and its parent is alive and not asleep in wait(). */
  lemma NothingLost(s: Table, init: nat, nextpid: nat, exited: set<nat>, reaped: set<nat>, pid: nat) returns (z: nat)
    requires TableOk(s, init) && Ledger(s, nextpid, exited, reaped) && pid in exited && pid !in reaped
    ensures z < |s| && s[z].state == ZOMBIE && s[z].pid == pid
    ensures 0 <= s[z].parent < |s| && Alive(s[s[z].parent])
    ensures !(s[s[z].parent].state == SLEEPING && s[s[z].parent].chan.Self?)
  {
    z :| 0 <= z < |s| && s[z].state == ZOMBIE && s[z].pid == pid;
    assert Parented(s, init, z);
    assert Attentive(s, s[z].parent);
  }

  datatype Waited = Reaped(pid: nat) | Nothing | Slept

  class ProcTable {
    const proc: array<Proc>
    const init: nat
    var nextpid: nat
    ghost var exited: set<nat>
    ghost var reaped: set<nat>

    ghost predicate Valid()
      reads this, proc
    {
      proc.Length == NPROC && TableOk(proc[..], init) && Ledger(proc[..], nextpid, exited, reaped)
    }

    /** The table after userinit(). */
    constructor ()
      ensures Valid() && fresh(proc) && proc.Length == 64 && exited == {} && reaped == {} && init == 0 && nextpid == 2
      ensures proc[0] == Proc(RUNNABLE, 1, -1, NoChan, false)
      ensures forall i :: 0 < i < NPROC ==> proc[i] == Proc(UNUSED, 0, -1, NoChan, false)
    {
      proc := new Proc[NPROC](i => if i == 0 then Proc(RUNNABLE, 1, -1, NoChan, false) else Proc(UNUSED, 0, -1, NoChan, false));
      init := 0;
      nextpid := 2;
      exited, reaped := {}, {};
    }

    /** Exactly the sleepers on the channel change, and only in that they are runnable. */
    method Wakeup1(chan: Chan)
      modifies proc
      ensures proc[..] == Woken(old(proc[..]), chan)
      ensures forall i :: 0 <= i < proc.Length ==>
        proc[i] == if old(proc[i].state) == SLEEPING && old(proc[i].chan) == chan then old(proc[i]).(state := RUNNABLE) else old(proc[i])
    {
      ghost var s := proc[..];
      var i := 0;
      while i < proc.Length
        invariant 0 <= i <= proc.Length
        invariant forall j :: 0 <= j < proc.Length ==> proc[j] == if j < i then Wake(s[j], chan) else s[j]
      {
        if proc[i].state == SLEEPING && proc[i].chan == chan {
          proc[i] := proc[i].(state := RUNNABLE);
        }
        i := i + 1;
      }
    }

    /** wakeup: everyone asleep on the channel is runnable. */
    method Wakeup(chan: Chan)
      requires Valid()
      modifies proc
      ensures Valid() && proc[..] == Woken(old(proc[..]), chan)
      ensures forall i :: 0 <= i < NPROC ==> !(proc[i].state == SLEEPING && proc[i].chan == chan)
      ensures forall i :: 0 <= i < NPROC && old(proc[i].state) == SLEEPING && old(proc[i].chan) == chan ==>
        proc[i] == old(proc[i]).(state := RUNNABLE)
      ensures forall i :: 0 <= i < NPROC && !(old(proc[i].state) == SLEEPING && old(proc[i].chan) == chan) ==>
        proc[i] == old(proc[i])
    {
      ghost var s := proc[..];
      Wakeup1(chan);
      WokenKeeps(s, init, chan);
      LedgerSame(s, proc[..], nextpid, exited, reaped);
    }

    /** The loop of exit() that passes children to init. */
    method PassChildren(cur: nat)
      modifies proc
      ensures Adopted(old(proc[..]), proc[..], cur, init, proc.Length)
    {
      ghost var s := proc[..];
      var i := 0;
      while i < proc.Length
        invariant 0 <= i <= proc.Length && Adopted(s, proc[..], cur, init, i)
      {
        ghost var r := proc[..];
        if proc[i].parent == cur {
          proc[i] := proc[i].(parent := init);
          ghost var r1 := proc[..];
          if proc[i].state == ZOMBIE { Wakeup1(Self(init)); }
          AdoptMore(s, r, proc[..], cur, init, i);
        } else {
          AdoptMore(s, r, proc[..], cur, init, i);
        }
        i := i + 1;
      }
    }

    /** exit(), from the moment it takes the lock; init must not exit. */
    method Exit(cur: nat) returns (ok: bool)
      requires Valid() && cur < NPROC && proc[cur].state == RUNNING
      modifies this, proc
      ensures Valid() && (ok <==> cur != init)
      ensures ok ==> && proc[cur].state == ZOMBIE && proc[cur].pid == old(proc[cur].pid)
                     && old(proc[cur].pid) !in old(exited) && exited == old(exited) + {proc[cur].pid} && reaped == old(reaped)
                     && (forall i :: 0 <= i < NPROC ==> proc[i].parent != cur)
      ensures ok ==> forall i :: 0 <= i < NPROC && i != cur ==>
        && proc[i].pid == old(proc[i].pid) && proc[i].chan == old(proc[i].chan) && proc[i].killed == old(proc[i].killed)
        && proc[i].parent == (if old(proc[i].parent) == cur then init else old(proc[i].parent))
        && proc[i].state ==
           if old(proc[i].state) == SLEEPING
              && (old(proc[i].chan) == Self(old(proc[cur].parent))
                  || (old(proc[i].chan) == Self(init) && ZombieChild(old(proc[..]), cur, NPROC)))
           then RUNNABLE else old(proc[i].state)
      ensures ok ==> Adopted(Woken(old(proc[..]), Self(old(proc[cur].parent))), proc[..][cur := proc[cur].(state := RUNNING)], cur, init, NPROC)
      ensures !ok ==> unchanged(this) && proc[..] == old(proc[..])
    {
      hide TableOk, Ledger, Adopted;
      if cur == init { return false; }
      ghost var s := proc[..];
      Wakeup1(Self(proc[cur].parent));
      ghost var w := proc[..];
      PassChildren(cur);
      ghost var r := proc[..];
      ExitKeeps(s, w, r, cur, init);
      proc[cur] := proc[cur].(state := ZOMBIE);
      ghost var e := r[cur := r[cur].(state := ZOMBIE)];
      assert proc[..] == e;
      ExitFacts(s, w, r, cur, init);
      ExitLedger(s, e, cur, nextpid, exited, reaped);
      exited := exited + {s[cur].pid};
      ok := true;
      forall i | 0 <= i < NPROC ensures proc[i].parent != cur { assert proc[i] == e[i]; }
      assert proc[..][cur := proc[cur].(state := RUNNING)] == r;
      forall i | 0 <= i < NPROC && i != cur ensures proc[i] == e[i] { }
      ExitFields(s, w, r, cur, init);
    }

    /**
      One round of wait() with the lock held: it reaps an exited child if there is one, gives up if
      there is no child or the process was killed, and otherwise sleeps.
     */
    method WaitScan(cur: nat) returns (r: Waited)
      requires Valid() && cur < NPROC && proc[cur].state == RUNNING
      modifies this, proc
      ensures Valid() && exited == old(exited)
      ensures r.Reaped? <==> ZombieChild(old(proc[..]), cur, NPROC)
      ensures r.Reaped? ==> && r.pid in exited && r.pid !in old(reaped) && reaped == old(reaped) + {r.pid}
                            && (exists z :: 0 <= z < NPROC && old(proc[..])[z].parent == cur && old(proc[..])[z].pid == r.pid
                                         && old(proc[..])[z].state == ZOMBIE && !ZombieChild(old(proc[..]), cur, z)
                                         && proc[..] == old(proc[..])[z := Proc(UNUSED, 0, -1, old(proc[..])[z].chan, false)])
      ensures r.Nothing? ==> && proc[..] == old(proc[..]) && reaped == old(reaped)
                             && (proc[cur].killed || forall c :: 0 <= c < NPROC ==> proc[c].parent != cur)
      ensures r.Slept? ==> && proc[..] == old(proc[..])[cur := old(proc[cur]).(state := SLEEPING, chan := Self(cur))]
                           && reaped == old(reaped)
                           && (exists c :: 0 <= c < NPROC && old(proc[..])[c].parent == cur) && !old(proc[cur]).killed
    {
      ghost var s := proc[..];
      var havekids := false;
      var i := 0;
      while i < NPROC
        invariant 0 <= i <= NPROC && proc[..] == s
        invariant forall c :: 0 <= c < i && s[c].parent == cur ==> s[c].state != ZOMBIE
        invariant havekids <==> exists c :: 0 <= c < i && s[c].parent == cur
      {
        if proc[i].parent == cur {
          havekids := true;
          if proc[i].state == ZOMBIE {
            assert s[i].parent == cur && s[i].state == ZOMBIE;
            r := Reap(i);
            return;
          }
        }
        i := i + 1;
      }
      if !havekids || proc[cur].killed { return Nothing; }
      SleepKeeps(s, init, cur, Self(cur));
      proc[cur] := proc[cur].(state := SLEEPING, chan := Self(cur));
      ghost var e := s[cur := s[cur].(state := SLEEPING, chan := Self(cur))];
      assert proc[..] == e;
      LedgerSame(s, e, nextpid, exited, reaped);
      return Slept;
    }

    /** The locked part of allocproc: the first free slot, with a number never used before. */
    method Allocproc() returns (i: int)
      requires Valid()
      modifies this, proc
      ensures Valid() && exited == old(exited) && reaped == old(reaped)
      ensures i == -1 <==> forall j :: 0 <= j < NPROC ==> Used(old(proc[..])[j])
      ensures i == -1 ==> proc[..] == old(proc[..]) && nextpid == old(nextpid)
      ensures i != -1 ==> && 0 <= i < NPROC && !Used(old(proc[..])[i]) && nextpid == old(nextpid) + 1
                          && (forall j :: 0 <= j < i ==> Used(old(proc[..])[j]))
                          && proc[..] == old(proc[..])[i := old(proc[..])[i].(state := EMBRYO, pid := old(nextpid))]
    {
      ghost var s := proc[..];
      i := 0;
      while i < NPROC
        invariant 0 <= i <= NPROC && proc[..] == s && forall j :: 0 <= j < i ==> Used(s[j])
      {
        if proc[i].state == UNUSED {
          assert Orphan(s, i);
          ghost var p := s[i].(state := EMBRYO, pid := nextpid);
          EmbryoKeeps(s, init, i, p);
          EmbryoLedger(s, i, p, nextpid, exited, reaped);
          proc[i] := proc[i].(state := EMBRYO, pid := nextpid);
          assert proc[..] == s[i := p];
          nextpid := nextpid + 1;
          return;
        }
        i := i + 1;
      }
      i := -1;
    }

    /** fork() or allocproc() out of memory: the slot is free again. */
    method ForkFail(i: nat)
      requires Valid() && i < NPROC && proc[i].state == EMBRYO && proc[i].parent == -1
      modifies proc
      ensures Valid() && proc[..] == old(proc[..])[i := old(proc[i]).(state := UNUSED)]
    {
      ghost var s := proc[..];
      ghost var p := s[i].(state := UNUSED);
      EmbryoKeeps(s, init, i, p);
      FreeLedger(s, i, p, nextpid, exited, reaped);
      proc[i] := proc[i].(state := UNUSED);
      assert proc[..] == s[i := p];
    }

    /** fork() enters the parent without the lock. */
    method ForkParent(cur: nat, i: nat)
      requires Valid() && i < NPROC && cur < NPROC && proc[i].state == EMBRYO && proc[cur].state == RUNNING
      modifies proc
      ensures Valid() && proc[..] == old(proc[..])[i := old(proc[i]).(parent := cur)]
    {
      ghost var s := proc[..];
      ForkKeeps(s, init, cur, i, EMBRYO);
      ghost var r := s[i := s[i].(state := EMBRYO, parent := cur)];
      proc[i] := proc[i].(parent := cur);
      assert proc[..] == r;
      LedgerSame(s, r, nextpid, exited, reaped);
    }

    /** The locked end of fork(). */
    method ForkDone(cur: nat, i: nat)
      requires Valid() && i < NPROC && cur < NPROC && proc[i].state == EMBRYO && proc[cur].state == RUNNING && proc[i].parent == cur
      modifies proc
      ensures Valid() && proc[..] == old(proc[..])[i := old(proc[i]).(state := RUNNABLE)]
    {
      ghost var s := proc[..];
      ForkKeeps(s, init, cur, i, RUNNABLE);
      ghost var r := s[i := s[i].(state := RUNNABLE, parent := cur)];
      proc[i] := proc[i].(state := RUNNABLE);
      assert proc[..] == r;
      LedgerSame(s, r, nextpid, exited, reaped);
    }

    /** sleep() on a channel that is not a process. */
    method Sleep(cur: nat, id: nat)
      requires Valid() && cur < NPROC && proc[cur].state == RUNNING
      modifies proc
      ensures Valid() && proc[..] == old(proc[..])[cur := old(proc[cur]).(state := SLEEPING, chan := Other(id))]
    {
      ghost var s := proc[..];
      SleepKeeps(s, init, cur, Other(id));
      ghost var r := s[cur := s[cur].(state := SLEEPING, chan := Other(id))];
      proc[cur] := proc[cur].(state := SLEEPING, chan := Other(id));
      assert proc[..] == r;
      LedgerSame(s, r, nextpid, exited, reaped);
    }

    /** The scheduler picks a runnable process. */
    method Schedule(i: nat)
      requires Valid() && i < NPROC && proc[i].state == RUNNABLE
      modifies proc
      ensures Valid() && proc[..] == old(proc[..])[i := old(proc[i]).(state := RUNNING)]
    {
      Become(i, proc[i].(state := RUNNING));
    }

    /** yield() */
    method Yield(cur: nat)
      requires Valid() && cur < NPROC && proc[cur].state == RUNNING
      modifies proc
      ensures Valid() && proc[..] == old(proc[..])[cur := old(proc[cur]).(state := RUNNABLE)]
    {
      Become(cur, proc[cur].(state := RUNNABLE));
    }

    /** kill(): the first slot with this number, if the caller may; a sleeper is made runnable. */
    method Kill(pid: nat, allowed: bool) returns (ok: bool)
      requires Valid()
      modifies proc
      ensures Valid()
      ensures ok <==> allowed && exists i :: 0 <= i < NPROC && old(proc[..])[i].pid == pid
      ensures !ok ==> proc[..] == old(proc[..])
      ensures ok ==> exists i :: && 0 <= i < NPROC && old(proc[..])[i].pid == pid
                                 && (forall j :: 0 <= j < NPROC && (j < i || Used(old(proc[..])[j])) && old(proc[..])[j].pid == pid ==> j == i)
                                 && proc[i] == old(proc[..])[i].(killed := true, state := proc[i].state)
                                 && proc[i].state != SLEEPING
                                 && (old(proc[..])[i].state == SLEEPING ==> proc[i].state == RUNNABLE)
                                 && (old(proc[..])[i].state != SLEEPING ==> proc[i].state == old(proc[..])[i].state)
                                 && proc[..] == old(proc[..])[i := proc[i]]
    {
      ghost var s := proc[..];
      var i := 0;
      while i < NPROC
        invariant 0 <= i <= NPROC && forall j :: 0 <= j < i ==> s[j].pid != pid
        invariant proc[..] == s
      {
        if proc[i].pid == pid {
          assert s[i].pid == pid;
          if !allowed { return false; }
          Become(i, Killed(proc[i]));
          return true;
        }
        i := i + 1;
      }
      return false;
    }

    method Become(i: nat, p: Proc)
      requires Valid() && i < NPROC && (Alive(proc[i]) || proc[i].state == p.state)
      requires p.parent == proc[i].parent && p.pid == proc[i].pid
      requires p.state in {RUNNABLE, RUNNING} || (p.state == proc[i].state && p.chan == proc[i].chan)
      modifies proc
      ensures Valid() && proc[..] == old(proc[..])[i := p]
    {
      ghost var s := proc[..];
      AliveKeeps(s, init, i, p);
      proc[i] := p;
      assert proc[..] == s[i := p];
      LedgerSame(s, s[i := p], nextpid, exited, reaped);
    }

    method Reap(z: nat) returns (r: Waited)
      requires Valid() && z < NPROC && proc[z].state == ZOMBIE
      modifies proc, `reaped
      ensures Valid() && r == Reaped(old(proc[z].pid)) && r.pid in exited && r.pid !in old(reaped) && reaped == old(reaped) + {r.pid}
      ensures proc[..] == old(proc[..])[z := Proc(UNUSED, 0, -1, old(proc[z].chan), false)]
    {
      ghost var s := proc[..];
      var pid := proc[z].pid;
      ReapKeeps(s, init, z);
      ReapLedger(s, z, nextpid, exited, reaped);
      proc[z] := proc[z].(pid := 0, parent := -1, killed := false, state := UNUSED);
      assert proc[..] == s[z := Proc(UNUSED, 0, -1, s[z].chan, false)];
      reaped := reaped + {pid};
      r := Reaped(pid);
    }
  }

  function Killed(p: Proc): Proc {
    p.(killed := true, state := if p.state == SLEEPING then RUNNABLE else p.state)
  }

  lemma EmbryoLedger(s: Table, i: nat, p: Proc, nextpid: nat, exited: set<nat>, reaped: set<nat>)
    requires Ledger(s, nextpid, exited, reaped) && i < |s| && !Used(s[i]) && p.state == EMBRYO && p.pid == nextpid
    ensures Ledger(s[i := p], nextpid + 1, exited, reaped)
  {
    var r := s[i := p];
    forall pid | pid in exited && pid !in reaped ensures exists j :: 0 <= j < |r| && r[j].state == ZOMBIE && r[j].pid == pid {
      var j :| 0 <= j < |s| && s[j].state == ZOMBIE && s[j].pid == pid;
      assert r[j].state == ZOMBIE;
    }
  }

  lemma FreeLedger(s: Table, i: nat, p: Proc, nextpid: nat, exited: set<nat>, reaped: set<nat>)
    requires Ledger(s, nextpid, exited, reaped) && i < |s| && s[i].state == EMBRYO && p.state == UNUSED && p.pid == s[i].pid
    ensures Ledger(s[i := p], nextpid, exited, reaped)
  {
    var r := s[i := p];
    forall pid | pid in exited && pid !in reaped ensures exists j :: 0 <= j < |r| && r[j].state == ZOMBIE && r[j].pid == pid {
      var j :| 0 <= j < |s| && s[j].state == ZOMBIE && s[j].pid == pid;
      assert r[j].state == ZOMBIE;
    }
  }

  lemma AdoptMore(s: Table, r: Table, r': Table, cur: nat, init: nat, i: nat)
    requires Adopted(s, r, cur, init, i) && i < |s| && |r'| == |r|
    requires
      var p := r[i := Adopt(r[i], cur, init)];
      if r[i].parent == cur && r[i].state == ZOMBIE then r' == Woken(p, Self(init)) else r' == p
    ensures Adopted(s, r', cur, init, i + 1)
  {
  }
}
