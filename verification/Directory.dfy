/**
  The slots of a directory (dirlookup and dirlink in fs.c, isdirempty in sysfile.c) as a map from
  names to inode numbers.  A slot holds at most DIRSIZ characters of a name, and namecmp looks at no
  more of the name it is given.  A slot with inode number 0 is empty.
 */
module Directory {
  import opened Path

  type Name = string

  datatype Dirent = Dirent(inum: nat, name: Name)

  /** The size of an entry: two bytes for the inode number, DIRSIZ for the name. */
  const DIRENT: nat := 16

  /** How many entries the longest file holds. */
  const MAXSLOTS := 4480

  predicate Live(slots: seq<Dirent>, i: int) {
    0 <= i < |slots| && slots[i].inum != 0
  }

  /** No name twice. */
  ghost predicate Unique(slots: seq<Dirent>) {
    forall i, j :: Live(slots, i) && Live(slots, j) && slots[i].name == slots[j].name ==> i == j
  }

  /** "." and ".." come first. */
  predicate Dotted(slots: seq<Dirent>) {
    && |slots| >= 2 && Live(slots, 0) && Live(slots, 1)
    && slots[0].name == "." && slots[1].name == ".."
  }

  function LiveNames(slots: seq<Dirent>): set<Name> {
    set i | 0 <= i < |slots| && slots[i].inum != 0 :: slots[i].name
  }

  ghost function SlotOf(slots: seq<Dirent>, n: Name): (i: int)
    requires n in LiveNames(slots)
    ensures Live(slots, i) && slots[i].name == n
  {
    var i :| Live(slots, i) && slots[i].name == n;
    i
  }

  /** What the directory says: names to inode numbers. */
  ghost function Names(slots: seq<Dirent>): map<Name, nat> {
    map n | n in LiveNames(slots) :: slots[SlotOf(slots, n)].inum
  }

  lemma NamesAt(slots: seq<Dirent>, i: int)
    requires Unique(slots) && Live(slots, i)
    ensures slots[i].name in Names(slots) && Names(slots)[slots[i].name] == slots[i].inum
  {
  }

  lemma SlotAt(slots: seq<Dirent>, n: Name) returns (i: int)
    requires n in Names(slots)
    ensures Live(slots, i) && slots[i].name == n && Names(slots)[n] == slots[i].inum
  {
    i := SlotOf(slots, n);
  }

  lemma OneSlot(slots: seq<Dirent>, i: int, k: int)
    requires Unique(slots) && Live(slots, i) && Live(slots, k) && i != k
    ensures slots[i].name != slots[k].name
  {
  }

  lemma AddUnique(slots: seq<Dirent>, slots': seq<Dirent>, k: nat, e: Dirent)
    requires Unique(slots) && e.inum != 0 && e.name !in Names(slots) && k <= |slots| && !Live(slots, k)
    requires slots' == if k < |slots| then slots[k := e] else slots + [e]
    ensures Unique(slots')
  {
    forall i | Live(slots', i) && i != k ensures Live(slots, i) && slots'[i] == slots[i] && slots[i].name != e.name {
      assert Live(slots, i) && slots[i].name in LiveNames(slots);
    }
  }

  /** Writing a live slot over an empty or new one adds a name. */
  lemma NamesAdd(slots: seq<Dirent>, slots': seq<Dirent>, k: nat, e: Dirent)
    requires Unique(slots) && e.inum != 0 && e.name !in Names(slots) && k <= |slots| && !Live(slots, k)
    requires slots' == if k < |slots| then slots[k := e] else slots + [e]
    ensures Unique(slots') && Names(slots') == Names(slots)[e.name := e.inum]
  {
    hide Unique, Names, LiveNames;
    AddUnique(slots, slots', k, e);
    forall n ensures n in Names(slots') <==> n in Names(slots) || n == e.name {
      if n in Names(slots) {
        var i := SlotAt(slots, n);
        assert Live(slots', i);
        NamesAt(slots', i);
      }
      if n == e.name {
        assert Live(slots', k);
        NamesAt(slots', k);
      }
      if n in Names(slots') {
        var i := SlotAt(slots', n);
        if i != k {
          assert Live(slots, i);
          NamesAt(slots, i);
        }
      }
    }
    forall n | n in Names(slots') ensures Names(slots')[n] == Names(slots)[e.name := e.inum][n] {
      var i := SlotAt(slots', n);
      if i != k {
        assert Live(slots, i);
        NamesAt(slots, i);
      }
    }
  }

  lemma DelName(slots: seq<Dirent>, slots': seq<Dirent>, k: int, n: Name)
    requires Unique(slots) && Live(slots, k) && slots' == slots[k := Dirent(0, "")] && Unique(slots')
    ensures n in Names(slots') <==> n in Names(slots) && n != slots[k].name
    ensures n in Names(slots') ==> Names(slots')[n] == Names(slots)[n]
  {
    hide Unique, Names, LiveNames;
    if n in Names(slots) && n != slots[k].name {
      var i := SlotAt(slots, n);
      assert Live(slots', i);
      NamesAt(slots', i);
    }
    if n in Names(slots') {
      var i := SlotAt(slots', n);
      assert Live(slots, i) && i != k;
      NamesAt(slots, i);
      OneSlot(slots, i, k);
    }
  }

  /** Clearing a slot removes its name. */
  lemma NamesDel(slots: seq<Dirent>, k: int)
    requires Unique(slots) && Live(slots, k)
    ensures Unique(slots[k := Dirent(0, "")])
    ensures Names(slots[k := Dirent(0, "")]) == Names(slots) - {slots[k].name}
  {
    var slots' := slots[k := Dirent(0, "")];
    assert Unique(slots') by {
      assert forall i :: Live(slots', i) ==> Live(slots, i) && slots'[i] == slots[i];
    }
    hide Unique, Names, LiveNames;
    forall n ensures n in Names(slots') <==> n in Names(slots) && n != slots[k].name { DelName(slots, slots', k, n); }
    forall n | n in Names(slots') ensures Names(slots')[n] == Names(slots)[n] { DelName(slots, slots', k, n); }
  }

  datatype Linked = Linked | Exists | Full

  class DirFile {
    var slots: seq<Dirent>

    ghost predicate Valid()
      reads this
    {
      Unique(slots) && |slots| <= MAXSLOTS && forall i :: 0 <= i < |slots| ==> |slots[i].name| <= DIRSIZ
    }

    /** dirlookup: the slot that holds the name, or -1 when the directory does not have it. */
    method Dirlookup(name: Name) returns (off: int)
      requires Valid()
      ensures off == -1 <==> Cut(name) !in Names(slots)
      ensures off != -1 ==> Live(slots, off) && slots[off].name == Cut(name) && Names(slots)[Cut(name)] == slots[off].inum
    {
      off := 0;
      while off < |slots|
        invariant 0 <= off <= |slots|
        invariant forall i :: 0 <= i < off && Live(slots, i) ==> slots[i].name != Cut(name)
      {
        if slots[off].inum != 0 && slots[off].name == Cut(name) {
          NamesAt(slots, off);
          return;
        }
        off := off + 1;
      }
      off := -1;
    }

    /** dirlink: the name is added, in the first empty slot, unless it is there already. */
    method Dirlink(name: Name, inum: nat) returns (r: Linked)
      requires Valid() && inum != 0
      modifies this
      ensures Valid()
      ensures r.Exists? <==> Cut(name) in Names(old(slots))
      ensures r.Full? <==> Cut(name) !in Names(old(slots)) && |old(slots)| == MAXSLOTS && forall i :: 0 <= i < MAXSLOTS ==> Live(old(slots), i)
      ensures r.Linked? ==> Names(slots) == Names(old(slots))[Cut(name) := inum]
      ensures !r.Linked? ==> unchanged(this)
      ensures forall i :: Live(old(slots), i) ==> Live(slots, i) && slots[i] == old(slots)[i]
    {
      var found := Dirlookup(name);
      if found != -1 { return Exists; }
      var off := 0;
      while off < |slots| && slots[off].inum != 0
        invariant 0 <= off <= |slots| && forall i :: 0 <= i < off ==> Live(slots, i)
      {
        off := off + 1;
      }
      if off == MAXSLOTS { return Full; }
      ghost var was := slots;
      slots := if off < |slots| then slots[off := Dirent(inum, Cut(name))] else slots + [Dirent(inum, Cut(name))];
      NamesAdd(was, slots, off, Dirent(inum, Cut(name)));
      return Linked.Linked;
    }

    /** What sys_unlink does to the slot it looked up. */
    method Clear(off: nat)
      requires Valid() && Live(slots, off)
      modifies this
      ensures Valid() && Names(slots) == Names(old(slots)) - {old(slots)[off].name}
      ensures |slots| == |old(slots)| && forall i :: 0 <= i < |slots| && i != off ==> slots[i] == old(slots)[i]
    {
      NamesDel(slots, off);
      slots := slots[off := Dirent(0, "")];
    }

    /** isdirempty looks only from the third slot on, and is right because "." and ".." hold the first two. */
    method Isdirempty() returns (empty: bool)
      requires Valid() && Dotted(slots)
      ensures empty <==> Names(slots).Keys == {".", ".."}
    {
      NamesAt(slots, 0);
      NamesAt(slots, 1);
      var off := 2;
      while off < |slots|
        invariant 2 <= off <= |slots| && forall i :: 2 <= i < off ==> !Live(slots, i)
      {
        if slots[off].inum != 0 {
          NamesAt(slots, off);
          assert Live(slots, off);
          return false;
        }
        off := off + 1;
      }
      forall n | n in Names(slots) ensures n in {".", ".."} {
        var i := SlotOf(slots, n);
      }
      return true;
    }
  }
}
