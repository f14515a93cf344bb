/**
  Printing a command and parsing it again (sh.c) gives the same command, whatever blanks it is printed with.
 */
module ShellRoundTrip {
  import opened Shell
  import opened ShellGrammar
  import opened ShellText

  type Token = ShellText.Token

  /** The trees of the shell: at most nine words to a command, free of blanks and symbols. */
  predicate Printable(t: Tree) {
    match t
    case Exec(argv) => |argv| < 10 && forall i :: 0 <= i < |argv| ==> PlainWord(argv[i])
    case Redir(d, file, mode, fd) =>
      Printable(d) && PlainWord(file) && ((mode == 0 && fd == 0) || (mode == 0x201 && fd == 1))
    case Pipe(l, r) => Printable(l) && Printable(r)
    case List(l, r) => Printable(l) && Printable(r)
    case Back(d) => Printable(d)
  }

  function Word(w: string): Token { Lex.Word(w) }

  function Words(ws: seq<string>): (ts: seq<Token>)
    ensures |ts| == |ws| && forall k :: 0 <= k < |ws| ==> ts[k] == Word(ws[k])
  {
    seq(|ws|, k requires 0 <= k < |ws| => Word(ws[k]))
  }

  function Paren(ts: seq<Token>): seq<Token> { [Symbol('(')] + ts + [Symbol(')')] }

  /** The tokens of t, with parentheses around every part.  Where doubled holds, an output redirection is ">>". */
  function Print(t: Tree, doubled: Tree -> bool): seq<Token> {
    match t
    case Exec(argv) => Words(argv)
    case Redir(d, file, mode, _) =>
      Paren(Print(d, doubled)) + [Symbol(if mode == 0 then '<' else if doubled(t) then '+' else '>'), Word(file)]
    case Pipe(l, r) => Paren(Print(l, doubled)) + ([Symbol('|')] + Paren(Print(r, doubled)))
    case List(l, r) => Paren(Print(l, doubled)) + ([Symbol(';')] + Paren(Print(r, doubled)))
    case Back(d) => Paren(Print(d, doubled)) + [Symbol('&')]
  }

  lemma {:induction false} WordItems(ws: seq<string>)
    ensures IsItems(Words(ws), ws, [])
    decreases |ws|
  {
    if ws != [] {
      WordItems(ws[1..]);
      assert Words(ws)[1..] == Words(ws[1..]);
    }
  }

  lemma {:induction false} NoItems()
    ensures IsItems<string>([], [], [])
  {
  }

  /** A line in parentheses, with redirections after it. */
  lemma BlockExec(p: seq<Token>, d: Tree, t: seq<Token>, rs: seq<Redirection<string>>)
    requires IsLine(p, d) && IsItems(t, [], rs)
    ensures IsExec(Paren(p) + t, Around(d, rs))
  {
    hide IsLine, IsItems;
    var ts, k := Paren(p) + t, |p| + 1;
    assert ts[1..k] == p && ts[k + 1..] == t;
    assert IsBlock(ts, k, d, rs);
  }

  lemma ParenExec(p: seq<Token>, d: Tree)
    requires IsLine(p, d)
    ensures IsExec(Paren(p), d)
  {
    hide IsLine, IsExec;
    NoItems();
    BlockExec(p, d, [], []);
    assert Paren(p) + [] == Paren(p);
  }

  lemma ExecLine(t: seq<Token>, c: Tree)
    requires IsExec(t, c)
    ensures IsPipe(t, c) && IsBacked(t, c) && IsLine(t, c)
  {
    hide IsExec;
  }

  lemma RedirLine(p: seq<Token>, d: Tree, arrow: char, file: string)
    requires IsLine(p, d) && arrow in ARROWS
    ensures
      var r := Arrow(arrow, file);
      IsLine(Paren(p) + [Symbol(arrow), Word(file)], Redir(d, file, r.mode, r.fd))
  {
    hide IsLine, IsExec;
    var t, r := [Symbol(arrow), Word(file)], Arrow(arrow, file);
    NoItems();
    assert t[2..] == [] && [r][1..] == [];
    assert IsItems(t, [], [r]);
    BlockExec(p, d, t, [r]);
    assert [r][1..] == [] && Around(d, [r]) == Redir(d, file, r.mode, r.fd);
    ExecLine(Paren(p) + t, Redir(d, file, r.mode, r.fd));
  }

  lemma PipeLine(p: seq<Token>, l: Tree, q: seq<Token>, r: Tree)
    requires IsLine(p, l) && IsLine(q, r)
    ensures IsLine(Paren(p) + ([Symbol('|')] + Paren(q)), Pipe(l, r))
  {
    hide IsExec, IsLine, IsPipe, IsBacked, Paren;
    ParenExec(p, l);
    ParenExec(q, r);
    ExecLine(Paren(q), r);
    var t := PipeOf(Paren(p), l, Paren(q), r);
  }

  lemma PipeOf(t1: seq<Token>, l: Tree, t2: seq<Token>, r: Tree) returns (t: seq<Token>)
    requires IsExec(t1, l) && IsPipe(t2, r)
    ensures t == t1 + ([Symbol('|')] + t2) && IsLine(t, Pipe(l, r))
  {
    hide IsExec;
    t := t1 + ([Symbol('|')] + t2);
    assert t[..|t1|] == t1 && t[|t1| + 1..] == t2;
    assert IsPiped(t, |t1|, Pipe(l, r));
    assert IsPipe(t, Pipe(l, r));
    assert IsBacked(t, Pipe(l, r));
  }

  lemma ListLine(p: seq<Token>, l: Tree, q: seq<Token>, r: Tree)
    requires IsLine(p, l) && IsLine(q, r)
    ensures IsLine(Paren(p) + ([Symbol(';')] + Paren(q)), List(l, r))
  {
    hide IsExec, IsLine, IsPipe, IsBacked, Paren;
    ParenExec(p, l);
    ParenExec(q, r);
    ExecLine(Paren(p), l);
    ExecLine(Paren(q), r);
    var t := ListOf(Paren(p), l, Paren(q), r);
  }

  lemma ListOf(t1: seq<Token>, l: Tree, t2: seq<Token>, r: Tree) returns (t: seq<Token>)
    requires IsBacked(t1, l) && IsLine(t2, r)
    ensures t == t1 + ([Symbol(';')] + t2) && IsLine(t, List(l, r))
  {
    hide IsBacked;
    t := t1 + ([Symbol(';')] + t2);
    assert t[..|t1|] == t1 && t[|t1| + 1..] == t2;
    assert IsListed(t, |t1|, List(l, r));
  }

  lemma BackLine(p: seq<Token>, d: Tree)
    requires IsLine(p, d)
    ensures IsLine(Paren(p) + [Symbol('&')], Back(d))
  {
    hide IsPipe, IsLine, IsExec;
    ParenExec(p, d);
    ExecLine(Paren(p), d);
    var t := Paren(p) + [Symbol('&')];
    assert t[..|t| - 1] == Paren(p);
    BackedIsLine(t, Back(d));
  }

  lemma BackedIsLine(t: seq<Token>, c: Tree)
    requires IsBacked(t, c)
    ensures IsLine(t, c)
  {
  }

  lemma ExecWords(argv: seq<string>)
    requires |argv| < 10
    ensures IsLine(Words(argv), Exec(argv))
  {
    hide IsLine, IsItems, Words;
    WordItems(argv);
    assert Around(Exec(argv), []) == Exec(argv);
    assert IsSimple(Words(argv), Exec(argv));
    ExecLine(Words(argv), Exec(argv));
  }

  /** What is printed is a line of the grammar. */
  lemma {:induction false} PrintsLine(t: Tree, doubled: Tree -> bool)
    requires Printable(t)
    ensures IsLine(Print(t, doubled), t)
    decreases t
  {
    hide IsLine, Words, Paren;
    match t
    case Exec(argv) => ExecWords(argv);
    case Redir(d, file, mode, fd) =>
      PrintsLine(d, doubled);
      RedirLine(Print(d, doubled), d, if mode == 0 then '<' else if doubled(t) then '+' else '>', file);
    case Pipe(l, r) =>
      PrintsLine(l, doubled);
      PrintsLine(r, doubled);
      PipeLine(Print(l, doubled), l, Print(r, doubled), r);
    case List(l, r) =>
      PrintsLine(l, doubled);
      PrintsLine(r, doubled);
      ListLine(Print(l, doubled), l, Print(r, doubled), r);
    case Back(d) =>
      PrintsLine(d, doubled);
      BackLine(Print(d, doubled), d);
  }

  /** Printing any command, with ">" or ">>" for each output and any blanks between the tokens, and parsing what was
      printed gives the command back. */
  lemma RoundTrip(t: Tree, doubled: Tree -> bool, bs: seq<string>)
    requires Printable(t) && Spaced(Print(t, doubled), bs)
    ensures
      var s := Written(Print(t, doubled), bs);
      Command(s).Ok? && Text(s, Command(s).val) == t
  {
    hide Written, Command, Text, IsLine, Print;
    PrintsLine(t, doubled);
    ParsesText(Written(Print(t, doubled), bs), Print(t, doubled), bs, t);
  }

  // ---------------------------------------------------------------- blanks that do

  predicate Tokenised(ts: seq<Token>) {
    forall k :: 0 <= k < |ts| ==> IsToken(ts[k])
  }

  lemma {:induction false} PrintsTokens(t: Tree, doubled: Tree -> bool)
    requires Printable(t)
    ensures Tokenised(Print(t, doubled))
    decreases t
  {
    match t
    case Exec(argv) =>
    case Redir(d, file, mode, fd) => PrintsTokens(d, doubled);
    case Pipe(l, r) =>
      PrintsTokens(l, doubled);
      PrintsTokens(r, doubled);
    case List(l, r) =>
      PrintsTokens(l, doubled);
      PrintsTokens(r, doubled);
    case Back(d) => PrintsTokens(d, doubled);
  }

  /** Blanks between all tokens will do, of any kind and number. */
  lemma BlanksDo(t: Tree, doubled: Tree -> bool, bs: seq<string>)
    requires Printable(t) && |bs| == |Print(t, doubled)| + 1 && forall k :: 0 <= k < |bs| ==> bs[k] != "" && Blanks(bs[k])
    ensures Spaced(Print(t, doubled), bs)
  {
    hide Print, Blanks, IsToken;
    PrintsTokens(t, doubled);
  }
}
