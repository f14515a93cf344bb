/**
  The circular list of bio.c, through the prev and next fields of an array of buffers, and the
  sequence it stands for: most recently released first, the list head not included.
 */
module BufferRing {

  type Data = seq<int>

  datatype Buf = Buf(dev: nat, blockno: nat, refcnt: nat, valid: bool, dirty: bool, data: Data, next: nat, prev: nat)

  /** Position i of the list h, o[0], o[1], ..., h. */
  function At(h: nat, o: seq<nat>, i: int): nat {
    if 1 <= i <= |o| then o[i - 1] else h
  }

  predicate Distinct(h: nat, o: seq<nat>) {
    && (forall i :: 0 <= i < |o| ==> o[i] != h)
    && (forall i, j :: 0 <= i < j < |o| ==> o[i] != o[j])
  }

  predicate Linked(s: seq<Buf>, h: nat, o: seq<nat>, i: int) {
    var a, b := At(h, o, i), At(h, o, i + 1);
    a < |s| && b < |s| && s[a].next == b && s[b].prev == a
  }

  /** s is linked, both ways, through h and the buffers of o in this order. */
  predicate Links(s: seq<Buf>, h: nat, o: seq<nat>) {
    Distinct(h, o) && forall i :: 0 <= i <= |o| ==> Linked(s, h, o, i)
  }

  lemma LinksAt(s: seq<Buf>, h: nat, o: seq<nat>, i: int)
    requires Links(s, h, o) && 0 <= i <= |o|
    ensures Linked(s, h, o, i)
  {
  }

  lemma AtDistinct(h: nat, o: seq<nat>, i: int, j: int)
    requires Distinct(h, o) && 0 <= i <= |o| && 0 <= j <= |o| && At(h, o, i) == At(h, o, j)
    ensures i == j
  {
  }

  function SetNext(s: seq<Buf>, a: nat, b: nat): (r: seq<Buf>)
    requires a < |s|
    ensures |r| == |s| && r[a].next == b && r[a].prev == s[a].prev
    ensures forall i :: 0 <= i < |s| && i != a ==> r[i] == s[i]
  {
    s[a := s[a].(next := b)]
  }

  function SetPrev(s: seq<Buf>, a: nat, b: nat): (r: seq<Buf>)
    requires a < |s|
    ensures |r| == |s| && r[a].prev == b && r[a].next == s[a].next
    ensures forall i :: 0 <= i < |s| && i != a ==> r[i] == s[i]
  {
    s[a := s[a].(prev := b)]
  }

  /** Only links differ. */
  predicate SameBufs(s: seq<Buf>, s': seq<Buf>) {
    |s| == |s'| && forall i :: 0 <= i < |s| ==> s'[i] == s[i].(next := s'[i].next, prev := s'[i].prev)
  }

  // ---------------------------------------------------------------- Taking a buffer out

  function Without(o: seq<nat>, k: nat): (r: seq<nat>)
    requires k < |o|
    ensures |r| == |o| - 1
    ensures forall i :: 0 <= i < k ==> r[i] == o[i]
    ensures forall i :: k <= i < |o| - 1 ==> r[i] == o[i + 1]
  {
    o[..k] + o[k + 1..]
  }

  function Unlinked(s: seq<Buf>, b: nat): seq<Buf>
    requires b < |s| && s[b].next < |s| && s[b].prev < |s|
  {
    SetNext(SetPrev(s, s[b].next, s[b].prev), s[b].prev, s[b].next)
  }

  lemma UnlinkKeeps(s: seq<Buf>, h: nat, o: seq<nat>, k: nat)
    requires Links(s, h, o) && k < |o|
    ensures o[k] < |s| && s[o[k]].next < |s| && s[o[k]].prev < |s|
    ensures Links(Unlinked(s, o[k]), h, Without(o, k))
    ensures SameBufs(s, Unlinked(s, o[k]))
  {
    LinksAt(s, h, o, k);
    LinksAt(s, h, o, k + 1);
    var r := Without(o, k);
    var s' := Unlinked(s, o[k]);
    forall i | 0 <= i <= |r| ensures Linked(s', h, r, i) {
      UnlinkAt(s, h, o, k, i);
    }
    forall i, j | 0 <= i < j < |r| ensures r[i] != r[j] {
      var i', j' := if i < k then i else i + 1, if j < k then j else j + 1;
      assert o[i'] != o[j'];
    }
  }

  lemma UnlinkAt(s: seq<Buf>, h: nat, o: seq<nat>, k: nat, i: int)
    requires Links(s, h, o) && k < |o| && 0 <= i < |o|
    requires o[k] < |s| && s[o[k]].next < |s| && s[o[k]].prev < |s|
    ensures Linked(Unlinked(s, o[k]), h, Without(o, k), i)
  {
    LinksAt(s, h, o, k);
    LinksAt(s, h, o, k + 1);
    var j := if i < k then i else i + 1;
    LinksAt(s, h, o, j);
    var a, b := At(h, o, k), At(h, o, k + 2);
    assert s[o[k]].next == b && s[o[k]].prev == a;
    if i != k {
      if At(h, o, j) == a { AtDistinct(h, o, j, k); }
      if j < |o| && b != h && At(h, o, j + 1) == b { AtDistinct(h, o, j + 1, k + 2); }
    }
  }

  // ---------------------------------------------------------------- Putting a buffer first

  function Pushed(s: seq<Buf>, h: nat, b: nat): seq<Buf>
    requires h < |s| && b < |s| && s[h].next < |s|
  {
    var n := s[h].next;
    SetNext(SetPrev(SetPrev(SetNext(s, b, n), b, h), n, b), h, b)
  }

  lemma PushKeeps(s: seq<Buf>, h: nat, o: seq<nat>, b: nat)
    requires Links(s, h, o) && b < |s| && b != h && b !in o
    ensures h < |s| && s[h].next < |s|
    ensures Links(Pushed(s, h, b), h, [b] + o)
    ensures SameBufs(s, Pushed(s, h, b))
  {
    LinksAt(s, h, o, 0);
    var s' := Pushed(s, h, b);
    var n := At(h, o, 1);
    forall i | 0 <= i <= |o| + 1 ensures Linked(s', h, [b] + o, i) {
      if i >= 1 {
        LinksAt(s, h, o, i - 1);
        assert At(h, [b] + o, i + 1) == At(h, o, i);
        if i >= 2 {
          assert At(h, [b] + o, i) == At(h, o, i - 1);
          if i <= |o| && At(h, o, i) == n { AtDistinct(h, o, i, 1); }
        }
      }
    }
  }
}
