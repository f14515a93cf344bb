/**
  Path elements (skipelem in fs.c): taking elements off a path one by one gives its components, cut
  to DIRSIZ characters, and leaves out empty ones.
 */
module Path {

  const DIRSIZ: nat := 14

  /** The pieces between slashes, empty ones included. */
  function Split(path: string): (r: seq<string>)
    ensures r != []
  {
    if path == "" then [""]
    else
      var rest := Split(path[1..]);
      if path[0] == '/' then [""] + rest else [[path[0]] + rest[0]] + rest[1..]
  }

  function Cut(piece: string): string { if |piece| > DIRSIZ then piece[..DIRSIZ] else piece }

  /** The pieces that are not empty, cut to the length of a directory entry. */
  function Named(pieces: seq<string>): seq<string> {
    if pieces == [] then []
    else (if pieces[0] == "" then [] else [Cut(pieces[0])]) + Named(pieces[1..])
  }

  function Elements(path: string): seq<string> { Named(Split(path)) }

  lemma SlashFirst(path: string)
    requires path != "" && path[0] == '/'
    ensures Elements(path) == Elements(path[1..])
  {
  }

  /** An element up to a slash or the end is the first piece. */
  lemma {:induction false} ElementFirst(path: string, n: nat)
    requires n <= |path| && (forall i :: 0 <= i < n ==> path[i] != '/') && (n < |path| ==> path[n] == '/')
    ensures Split(path)[0] == path[..n]
    ensures n < |path| ==> Split(path)[1..] == Split(path[n + 1..])
    ensures n == |path| ==> Split(path)[1..] == []
    decreases n
  {
    if n == 0 {
      if path != "" {
        assert ([""] + Split(path[1..]))[1..] == Split(path[1..]);
      }
    } else {
      ElementFirst(path[1..], n - 1);
      if n < |path| { assert path[1..][n..] == path[n + 1..]; }
      assert [path[0]] + path[1..][..n - 1] == path[..n];
      var rest := Split(path[1..]);
      assert ([[path[0]] + rest[0]] + rest[1..])[1..] == rest[1..];
    }
  }

  datatype Step = Done | Elem(name: string, rest: string)

  /** skipelem: the first element, and the rest of the path without leading slashes; null when there is none. */
  method Skipelem(path: string) returns (r: Step)
    ensures r.Done? <==> Elements(path) == []
    ensures r.Elem? ==> Elements(path) == [r.name] + Elements(r.rest)
    ensures r.Elem? ==> 0 < |r.name| <= DIRSIZ && |r.rest| < |path| && (r.rest != "" ==> r.rest[0] != '/')
  {
    var p := SkipSlashes(path);
    if p == "" {
      assert Split("") == [""];
      return Done;
    }
    var n := 0;
    while n < |p| && p[n] != '/'
      invariant 0 <= n <= |p| && forall i :: 0 <= i < n ==> p[i] != '/'
    {
      n := n + 1;
    }
    ElementFirst(p, n);
    var name := if n >= DIRSIZ then p[..DIRSIZ] else p[..n];
    assert name == Cut(p[..n]);
    assert Elements(p) == [name] + Named(Split(p)[1..]);
    var rest := SkipSlashes(p[n..]);
    if n < |p| {
      SlashFirst(p[n..]);
      assert p[n..][1..] == p[n + 1..];
    } else {
      assert Split("") == [""] && Elements("") == [];
      assert p[n..] == "";
    }
    return Elem(name, rest);
  }

  method SkipSlashes(path: string) returns (r: string)
    ensures Elements(r) == Elements(path) && |r| <= |path| && (r != "" ==> r[0] != '/')
    ensures path != "" && path[0] == '/' ==> |r| < |path|
  {
    r := path;
    while r != "" && r[0] == '/'
      invariant Elements(r) == Elements(path) && |r| <= |path|
      invariant path != "" && path[0] == '/' ==> r == path || |r| < |path|
      decreases |r|
    {
      SlashFirst(r);
      r := r[1..];
    }
  }
}
