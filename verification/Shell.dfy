/**
  The shell's command parser (sh.c).  The input is a string s without its terminating NUL; a cursor
  is an index into it.  The tokens of a command are spans of s.
 */
module Shell {

  predicate Ws(c: char) { c in {' ', '\t', '\r', '\n', '\U{0B}'} }

  predicate Sym(c: char) { c in {'<', '|', '>', '&', ';', '(', ')'} }

  predicate WordChar(c: char) { !Ws(c) && !Sym(c) }

  datatype Span = Span(q: nat, eq: nat)

  /** O_RDONLY on descriptor 0, or O_WRONLY | O_CREATE on descriptor 1. */
  const O_RDONLY := 0
  const O_OUT := 0x201

  const MAXARGS: nat := 10

  datatype Cmd<W> =
    | Exec(argv: seq<W>)
    | Redir(cmd: Cmd<W>, file: W, mode: nat, fd: nat)
    | Pipe(left: Cmd<W>, right: Cmd<W>)
    | List(left: Cmd<W>, right: Cmd<W>)
    | Back(cmd: Cmd<W>)

  /** A redirection met by the parser and not yet wrapped around its command. */
  datatype Redirection<W> = Redirection(file: W, mode: nat, fd: nat)

  datatype Token = Token(tok: char, q: nat, eq: nat, next: nat)

  datatype Res<T> = Ok(val: T, i: nat) | Panic

  // ---------------------------------------------------------------- Tokens

  function Skip(s: string, i: nat): (j: nat)
    requires i <= |s|
    ensures i <= j <= |s| && (j < |s| ==> !Ws(s[j]))
    ensures forall k :: i <= k < j ==> Ws(s[k])
    decreases |s| - i
  {
    if i < |s| && Ws(s[i]) then Skip(s, i + 1) else i
  }

  function WordEnd(s: string, i: nat): (j: nat)
    requires i <= |s|
    ensures i <= j <= |s| && (j < |s| ==> !WordChar(s[j]))
    ensures forall k :: i <= k < j ==> WordChar(s[k])
    decreases |s| - i
  {
    if i < |s| && WordChar(s[i]) then WordEnd(s, i + 1) else i
  }

  predicate PeekAt(s: string, i: nat, toks: set<char>)
    requires i <= |s|
  {
    var j := Skip(s, i);
    j < |s| && s[j] in toks
  }

  /** The next token: its kind ('\0' at the end, 'a' for a word, '+' for >>), its extent and where the one after starts. */
  function Next(s: string, i: nat): (t: Token)
    requires i <= |s|
    ensures i <= t.q <= t.eq <= t.next <= |s|
    ensures t.tok == '\0' ==> t.next == |s|
    ensures t.q < |s| ==> t.q < t.eq
  {
    var q := Skip(s, i);
    if q == |s| then Token('\0', q, q, q)
    else if s[q] == '>' && q + 1 < |s| && s[q + 1] == '>' then Token('+', q, q + 2, Skip(s, q + 2))
    else if Sym(s[q]) then Token(s[q], q, q + 1, Skip(s, q + 1))
    else
      var e := WordEnd(s, q);
      Token('a', q, e, Skip(s, e))
  }

  /** A maximal run of word characters. */
  predicate IsWord(s: string, w: Span) {
    && w.q < w.eq <= |s| && (w.eq < |s| ==> !WordChar(s[w.eq]))
    && forall k :: w.q <= k < w.eq ==> WordChar(s[k])
  }

  /** peek: whether the next token starts with one of toks; the cursor moves to it. */
  method Peek(s: string, i: nat, toks: set<char>) returns (yes: bool, j: nat)
    requires i <= |s|
    ensures j == Skip(s, i) && (yes <==> PeekAt(s, i, toks))
  {
    j := SkipBlanks(s, i);
    yes := j < |s| && s[j] in toks;
  }

  method SkipBlanks(s: string, i: nat) returns (j: nat)
    requires i <= |s|
    ensures j == Skip(s, i)
  {
    j := i;
    while j < |s| && Ws(s[j])
      invariant i <= j <= |s| && Skip(s, j) == Skip(s, i)
    {
      j := j + 1;
    }
  }

  /** gettoken */
  method Gettoken(s: string, i: nat) returns (t: Token)
    requires i <= |s|
    ensures t == Next(s, i)
  {
    var q := SkipBlanks(s, i);
    var ret, e := '\0', q;
    if q < |s| {
      ret := s[q];
      if ret in {'|', '(', ')', ';', '&', '<'} {
        e := q + 1;
      } else if ret == '>' {
        e := q + 1;
        if e < |s| && s[e] == '>' {
          ret := '+';
          e := e + 1;
        }
      } else {
        ret := 'a';
        while e < |s| && !Ws(s[e]) && !Sym(s[e])
          invariant q <= e <= |s| && WordEnd(s, e) == WordEnd(s, q)
        {
          e := e + 1;
        }
      }
    }
    var n := SkipBlanks(s, e);
    return Token(ret, q, e, n);
  }

  // ---------------------------------------------------------------- The parser's functions

  function Mode(tok: char): nat { if tok == '<' then O_RDONLY else O_OUT }

  function Fd(tok: char): nat { if tok == '<' then 0 else 1 }

  function Wrap(c: Cmd<Span>, rs: seq<Redirection<Span>>): Cmd<Span> {
    if rs == [] then c
    else
      var r := rs[|rs| - 1];
      Redir(Wrap(c, rs[..|rs| - 1]), r.file, r.mode, r.fd)
  }

  /** parseredirs: redirections from i on, after those in rs. */
  function Redirs(s: string, i: nat, rs: seq<Redirection<Span>>): (r: Res<seq<Redirection<Span>>>)
    requires i <= |s|
    ensures r.Ok? ==> i <= r.i <= |s|
    decreases |s| - i
  {
    if !PeekAt(s, i, {'<', '>'}) then Ok(rs, Skip(s, i))
    else
      var t := Next(s, i);
      var w := Next(s, t.next);
      if w.tok != 'a' then Panic
      else Redirs(s, w.next, rs + [Redirection(Span(w.q, w.eq), Mode(t.tok), Fd(t.tok))])
  }

  /** The argument loop of parseexec. */
  function Args(s: string, i: nat, args: seq<Span>, rs: seq<Redirection<Span>>): (r: Res<Cmd<Span>>)
    requires i <= |s|
    ensures r.Ok? ==> i <= r.i <= |s|
    decreases |s| - i
  {
    if PeekAt(s, i, {'|', ')', '&', ';'}) then Ok(Wrap(Exec(args), rs), Skip(s, i))
    else
      var t := Next(s, i);
      if t.tok == '\0' then Ok(Wrap(Exec(args), rs), t.next)
      else if t.tok != 'a' || |args| + 1 >= MAXARGS then Panic
      else
        var r := Redirs(s, t.next, rs);
        if r.Panic? then Panic else Args(s, r.i, args + [Span(t.q, t.eq)], r.val)
  }

  function Simple(s: string, i: nat): (r: Res<Cmd<Span>>)
    requires i <= |s|
    ensures r.Ok? ==> i <= r.i <= |s|
    decreases |s| - i, 2
  {
    if PeekAt(s, i, {'('}) then Block(s, i)
    else
      var r := Redirs(s, i, []);
      if r.Panic? then Panic else Args(s, r.i, [], r.val)
  }

  function Block(s: string, i: nat): (r: Res<Cmd<Span>>)
    requires i <= |s|
    ensures r.Ok? ==> i <= r.i <= |s|
    decreases |s| - i, 1
  {
    if !PeekAt(s, i, {'('}) then Panic
    else
      var c := Line(s, Next(s, i).next);
      if c.Panic? || !PeekAt(s, c.i, {')'}) then Panic
      else
        var r := Redirs(s, Next(s, c.i).next, []);
        if r.Panic? then Panic else Ok(Wrap(c.val, r.val), r.i)
  }

  function Pipeline(s: string, i: nat): (r: Res<Cmd<Span>>)
    requires i <= |s|
    ensures r.Ok? ==> i <= r.i <= |s|
    decreases |s| - i, 3
  {
    var c := Simple(s, i);
    if c.Panic? || !PeekAt(s, c.i, {'|'}) then (if c.Panic? then Panic else Ok(c.val, Skip(s, c.i)))
    else
      var d := Pipeline(s, Next(s, c.i).next);
      if d.Panic? then Panic else Ok(Pipe(c.val, d.val), d.i)
  }

  /** The '&' loop of parseline. */
  function Backs(s: string, i: nat, c: Cmd<Span>): (r: (Cmd<Span>, nat))
    requires i <= |s|
    ensures i <= r.1 <= |s|
    decreases |s| - i
  {
    if !PeekAt(s, i, {'&'}) then (c, Skip(s, i)) else Backs(s, Next(s, i).next, Back(c))
  }

  function Line(s: string, i: nat): (r: Res<Cmd<Span>>)
    requires i <= |s|
    ensures r.Ok? ==> i <= r.i <= |s|
    decreases |s| - i, 4
  {
    var c := Pipeline(s, i);
    if c.Panic? then Panic
    else
      var b := Backs(s, c.i, c.val);
      if !PeekAt(s, b.1, {';'}) then Ok(b.0, Skip(s, b.1))
      else
        var d := Line(s, Next(s, b.1).next);
        if d.Panic? then Panic else Ok(List(b.0, d.val), d.i)
  }

  /** parsecmd, before nulterminate: the command, or a syntax error. */
  function Command(s: string): (r: Res<Cmd<Span>>)
  {
    var c := Line(s, 0);
    if c.Panic? || Skip(s, c.i) != |s| then Panic else Ok(c.val, |s|)
  }

  // ---------------------------------------------------------------- The parser

  lemma AfterSkip(s: string, i: nat, toks: set<char>)
    requires i <= |s|
    ensures
      var j := Skip(s, i);
      Skip(s, j) == j && Next(s, j) == Next(s, i) && (PeekAt(s, j, toks) <==> PeekAt(s, i, toks))
  {
  }

  method Parseredirs(s: string, i0: nat, rs0: seq<Redirection<Span>>) returns (r: Res<seq<Redirection<Span>>>)
    requires i0 <= |s|
    ensures r == Redirs(s, i0, rs0)
  {
    var i, rs := i0, rs0;
    while true
      invariant i <= |s| && Redirs(s, i, rs) == Redirs(s, i0, rs0)
      decreases |s| - i
    {
      AfterSkip(s, i, {'<', '>'});
      var yes, j := Peek(s, i, {'<', '>'});
      if !yes { return Ok(rs, j); }
      var t := Gettoken(s, j);
      var w := Gettoken(s, t.next);
      if w.tok != 'a' { return Panic; }
      rs := rs + [Redirection(Span(w.q, w.eq), if t.tok == '<' then O_RDONLY else O_OUT, if t.tok == '<' then 0 else 1)];
      i := w.next;
    }
  }

  method Parseexec(s: string, i0: nat) returns (r: Res<Cmd<Span>>)
    requires i0 <= |s|
    ensures r == Simple(s, i0)
    decreases |s| - i0, 2
  {
    AfterSkip(s, i0, {'('});
    var yes, i := Peek(s, i0, {'('});
    if yes {
      BlockAfterSkip(s, i0);
      r := Parseblock(s, i);
      return;
    }
    RedirsAfterSkip(s, i0, []);
    var args := [];
    var rs := Parseredirs(s, i, []);
    if rs.Panic? { return Panic; }
    while true
      invariant rs.Ok? && rs.i <= |s| && |args| < MAXARGS && Args(s, rs.i, args, rs.val) == Simple(s, i0)
      decreases |s| - rs.i
    {
      AfterSkip(s, rs.i, {'|', ')', '&', ';'});
      yes, i := Peek(s, rs.i, {'|', ')', '&', ';'});
      if yes { return Ok(Wrap(Exec(args), rs.val), i); }
      var t := Gettoken(s, i);
      if t.tok == '\0' { return Ok(Wrap(Exec(args), rs.val), t.next); }
      if t.tok != 'a' { return Panic; }
      args := args + [Span(t.q, t.eq)];
      if |args| >= MAXARGS { return Panic; }
      rs := Parseredirs(s, t.next, rs.val);
      if rs.Panic? { return Panic; }
    }
  }

  lemma RedirsAfterSkip(s: string, i: nat, rs: seq<Redirection<Span>>)
    requires i <= |s|
    ensures Redirs(s, Skip(s, i), rs) == Redirs(s, i, rs)
  {
    AfterSkip(s, i, {'<', '>'});
  }

  lemma BlockAfterSkip(s: string, i: nat)
    requires i <= |s|
    ensures Block(s, Skip(s, i)) == Block(s, i)
  {
    AfterSkip(s, i, {'('});
  }

  method Parseblock(s: string, i0: nat) returns (r: Res<Cmd<Span>>)
    requires i0 <= |s|
    ensures r == Block(s, i0)
    decreases |s| - i0, 1
  {
    AfterSkip(s, i0, {'('});
    var yes, i := Peek(s, i0, {'('});
    if !yes { return Panic; }
    var t := Gettoken(s, i);
    r := Parseline(s, t.next);
    if r.Panic? { return; }
    AfterSkip(s, r.i, {')'});
    yes, i := Peek(s, r.i, {')'});
    if !yes { return Panic; }
    t := Gettoken(s, i);
    var rs := Parseredirs(s, t.next, []);
    if rs.Panic? { return Panic; }
    return Ok(Wrap(r.val, rs.val), rs.i);
  }

  method Parsepipe(s: string, i0: nat) returns (r: Res<Cmd<Span>>)
    requires i0 <= |s|
    ensures r == Pipeline(s, i0)
    decreases |s| - i0, 3
  {
    r := Parseexec(s, i0);
    if r.Panic? { return; }
    AfterSkip(s, r.i, {'|'});
    var yes, i := Peek(s, r.i, {'|'});
    if !yes { return Ok(r.val, i); }
    var t := Gettoken(s, i);
    var d := Parsepipe(s, t.next);
    if d.Panic? { return d; }
    return Ok(Pipe(r.val, d.val), d.i);
  }

  method Parseline(s: string, i0: nat) returns (r: Res<Cmd<Span>>)
    requires i0 <= |s|
    ensures r == Line(s, i0)
    decreases |s| - i0, 4
  {
    var c := Parsepipe(s, i0);
    if c.Panic? { return Panic; }
    var cmd, i := c.val, c.i;
    while true
      invariant i0 <= i <= |s| && Backs(s, i, cmd) == Backs(s, c.i, c.val)
      decreases |s| - i
    {
      AfterSkip(s, i, {'&'});
      var yes, j := Peek(s, i, {'&'});
      if !yes { i := j; break; }
      var t := Gettoken(s, j);
      cmd, i := Back(cmd), t.next;
    }
    AfterSkip(s, i, {';'});
    var yes, k := Peek(s, i, {';'});
    if !yes { return Ok(cmd, k); }
    var t := Gettoken(s, k);
    var d := Parseline(s, t.next);
    if d.Panic? { return Panic; }
    return Ok(List(cmd, d.val), d.i);
  }
}
