/**
  The strings of a parsed command: nulterminate of sh.c writes NULs into the input, and every argument
  and file name then reads as its token.
 */
module ShellStrings {
  import opened Shell
  import ShellText

  /** Every argument and file is a whole word of s; no command has more than nine. */
  predicate Words(s: string, c: Cmd<Span>) {
    match c
    case Exec(argv) => |argv| < MAXARGS && forall k :: 0 <= k < |argv| ==> IsWord(s, argv[k])
    case Redir(d, file, mode, fd) =>
      && Words(s, d) && IsWord(s, file)
      && ((mode == O_RDONLY && fd == 0) || (mode == O_OUT && fd == 1))
    case Pipe(l, r) => Words(s, l) && Words(s, r)
    case List(l, r) => Words(s, l) && Words(s, r)
    case Back(d) => Words(s, d)
  }

  predicate RedirWords(s: string, rs: seq<Redirection<Span>>) {
    forall k :: 0 <= k < |rs| ==>
      && IsWord(s, rs[k].file)
      && ((rs[k].mode == O_RDONLY && rs[k].fd == 0) || (rs[k].mode == O_OUT && rs[k].fd == 1))
  }

  lemma NextWord(s: string, i: nat)
    requires i <= |s| && Next(s, i).tok == 'a'
    ensures IsWord(s, Span(Next(s, i).q, Next(s, i).eq))
  {
  }

  lemma {:induction false} WrapWords(s: string, c: Cmd<Span>, rs: seq<Redirection<Span>>)
    requires Words(s, c) && RedirWords(s, rs)
    ensures Words(s, Wrap(c, rs))
    decreases |rs|
  {
    if rs != [] { WrapWords(s, c, rs[..|rs| - 1]); }
  }

  lemma {:induction false} RedirsWords(s: string, i: nat, rs: seq<Redirection<Span>>)
    requires i <= |s| && RedirWords(s, rs)
    ensures Redirs(s, i, rs).Ok? ==> RedirWords(s, Redirs(s, i, rs).val)
    decreases |s| - i
  {
    if PeekAt(s, i, {'<', '>'}) {
      var t := Next(s, i);
      var w := Next(s, t.next);
      if w.tok == 'a' {
        NextWord(s, t.next);
        RedirsWords(s, w.next, rs + [Redirection(Span(w.q, w.eq), Mode(t.tok), Fd(t.tok))]);
      }
    }
  }

  lemma {:induction false} ArgsWords(s: string, i: nat, args: seq<Span>, rs: seq<Redirection<Span>>)
    requires i <= |s| && Words(s, Exec(args)) && RedirWords(s, rs)
    ensures Args(s, i, args, rs).Ok? ==> Words(s, Args(s, i, args, rs).val)
    decreases |s| - i
  {
    WrapWords(s, Exec(args), rs);
    var t := Next(s, i);
    if !PeekAt(s, i, {'|', ')', '&', ';'}) && t.tok == 'a' && |args| + 1 < MAXARGS {
      NextWord(s, i);
      RedirsWords(s, t.next, rs);
      var r := Redirs(s, t.next, rs);
      if r.Ok? { ArgsWords(s, r.i, args + [Span(t.q, t.eq)], r.val); }
    }
  }

  lemma {:induction false} SimpleWords(s: string, i: nat)
    requires i <= |s|
    ensures Simple(s, i).Ok? ==> Words(s, Simple(s, i).val)
    decreases |s| - i, 2
  {
    if PeekAt(s, i, {'('}) {
      BlockWords(s, i);
    } else {
      RedirsWords(s, i, []);
      var r := Redirs(s, i, []);
      if r.Ok? { ArgsWords(s, r.i, [], r.val); }
    }
  }

  lemma {:induction false} BlockWords(s: string, i: nat)
    requires i <= |s|
    ensures Block(s, i).Ok? ==> Words(s, Block(s, i).val)
    decreases |s| - i, 1
  {
    if PeekAt(s, i, {'('}) {
      LineWords(s, Next(s, i).next);
      var c := Line(s, Next(s, i).next);
      if c.Ok? && PeekAt(s, c.i, {')'}) {
        RedirsWords(s, Next(s, c.i).next, []);
        var r := Redirs(s, Next(s, c.i).next, []);
        if r.Ok? { WrapWords(s, c.val, r.val); }
      }
    }
  }

  lemma {:induction false} PipelineWords(s: string, i: nat)
    requires i <= |s|
    ensures Pipeline(s, i).Ok? ==> Words(s, Pipeline(s, i).val)
    decreases |s| - i, 3
  {
    SimpleWords(s, i);
    var c := Simple(s, i);
    if c.Ok? && PeekAt(s, c.i, {'|'}) { PipelineWords(s, Next(s, c.i).next); }
  }

  lemma {:induction false} BacksWords(s: string, i: nat, c: Cmd<Span>)
    requires i <= |s| && Words(s, c)
    ensures Words(s, Backs(s, i, c).0)
    decreases |s| - i
  {
    if PeekAt(s, i, {'&'}) { BacksWords(s, Next(s, i).next, Back(c)); }
  }

  lemma {:induction false} LineWords(s: string, i: nat)
    requires i <= |s|
    ensures Line(s, i).Ok? ==> Words(s, Line(s, i).val)
    decreases |s| - i, 4
  {
    PipelineWords(s, i);
    var c := Pipeline(s, i);
    if c.Ok? {
      BacksWords(s, c.i, c.val);
      var b := Backs(s, c.i, c.val);
      if PeekAt(s, b.1, {';'}) { LineWords(s, Next(s, b.1).next); }
    }
  }

  // ---------------------------------------------------------------- nulterminate

  function Spans(c: Cmd<Span>): set<Span> {
    match c
    case Exec(argv) => set k | 0 <= k < |argv| :: argv[k]
    case Redir(d, file, _, _) => Spans(d) + {file}
    case Pipe(l, r) => Spans(l) + Spans(r)
    case List(l, r) => Spans(l) + Spans(r)
    case Back(d) => Spans(d)
  }

  lemma SpansAreWords(s: string, c: Cmd<Span>, w: Span)
    requires Words(s, c) && w in Spans(c)
    ensures IsWord(s, w)
  {
  }

  function Ends(c: Cmd<Span>): set<nat> {
    set w | w in Spans(c) :: w.eq
  }

  /** nulterminate: a NUL at the end of every argument and file, and nowhere else. */
  method Nulterminate(buf: array<char>, c: Cmd<Span>)
    requires forall w :: w in Spans(c) ==> w.eq < buf.Length
    modifies buf
    ensures forall i :: 0 <= i < buf.Length ==> buf[i] == if i in Ends(c) then '\0' else old(buf[i])
    decreases c
  {
    match c {
      case Exec(argv) =>
        var k := 0;
        while k < |argv|
          invariant 0 <= k <= |argv|
          invariant forall i :: 0 <= i < buf.Length ==> buf[i] == if i in Ends(Exec(argv[..k])) then '\0' else old(buf[i])
        {
          assert argv[k] in Spans(c);
          EndsMore(argv, k);
          buf[argv[k].eq] := '\0';
          k := k + 1;
        }
        assert argv[..k] == argv;
      case Redir(d, file, mode, fd) =>
        EndsRedir(d, file, mode, fd);
        Nulterminate(buf, d);
        buf[file.eq] := '\0';
      case Pipe(l, r) =>
        assert Ends(c) == Ends(l) + Ends(r);
        Nulterminate(buf, l);
        Nulterminate(buf, r);
      case List(l, r) =>
        assert Ends(c) == Ends(l) + Ends(r);
        Nulterminate(buf, l);
        Nulterminate(buf, r);
      case Back(d) =>
        assert Ends(c) == Ends(d);
        Nulterminate(buf, d);
    }
  }

  lemma EndsMore(argv: seq<Span>, k: nat)
    requires k < |argv|
    ensures Ends(Exec(argv[..k + 1])) == Ends(Exec(argv[..k])) + {argv[k].eq}
  {
  }

  lemma EndsRedir(d: Cmd<Span>, file: Span, mode: nat, fd: nat)
    ensures Ends(Redir(d, file, mode, fd)) == Ends(d) + {file.eq}
  {
  }

  /** The C string at q. */
  function CString(b: seq<char>, q: nat): string
    decreases |b| - q
  {
    if q < |b| && b[q] != '\0' then [b[q]] + CString(b, q + 1) else ""
  }

  lemma {:induction false} CStringIs(b: seq<char>, q: nat, e: nat)
    requires q <= e < |b| && b[e] == '\0' && forall k :: q <= k < e ==> b[k] != '\0'
    ensures CString(b, q) == b[q..e]
    decreases e - q
  {
    if q < e { CStringIs(b, q + 1, e); }
  }

  /** After parsecmd every argument and every file name is the string of its token. */
  method ParseAndTerminate(s: string) returns (r: Res<Cmd<Span>>, buf: array<char>)
    requires '\0' !in s
    ensures r == Command(s) && buf.Length == |s| + 1 && fresh(buf)
    ensures r.Ok? ==> Words(s, r.val) && forall w :: w in Spans(r.val) ==> IsWord(s, w) && CString(buf[..], w.q) == s[w.q..w.eq]
    ensures r.Panic? ==> buf[..] == s + ['\0']
  {
    buf := new char[|s| + 1](i requires 0 <= i => if i < |s| then s[i] else '\0');
    r := ShellText.Parsecmd(s);
    assert buf[..] == s + ['\0'];
    if r.Panic? { return; }
    LineWords(s, 0);
    forall w | w in Spans(r.val) ensures IsWord(s, w) { SpansAreWords(s, r.val, w); }
    Nulterminate(buf, r.val);
    forall w | w in Spans(r.val) ensures CString(buf[..], w.q) == s[w.q..w.eq] {
      WordReads(s, r.val, buf[..], w);
    }
  }

  /** No end of a word lies inside another word. */
  lemma WordReads(s: string, c: Cmd<Span>, b: seq<char>, w: Span)
    requires '\0' !in s && |b| == |s| + 1 && w in Spans(c) && IsWord(s, w) && forall x :: x in Spans(c) ==> IsWord(s, x)
    requires forall i :: 0 <= i <= |s| ==> b[i] == if i in Ends(c) then '\0' else (s + ['\0'])[i]
    ensures CString(b, w.q) == s[w.q..w.eq]
  {
    assert w.eq in Ends(c);
    forall x | x in Spans(c) ensures !(w.q <= x.eq < w.eq) { assert IsWord(s, x); }
    forall k | w.q <= k < w.eq ensures b[k] == s[k] && b[k] != '\0' {
      assert s[k] in s;
    }
    CStringIs(b, w.q, w.eq);
    assert b[w.q..w.eq] == s[w.q..w.eq];
  }
}
