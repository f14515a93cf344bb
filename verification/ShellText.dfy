/**
  Command lines as text.  A line is tokens with blanks between them, the blanks being space, tab, carriage return,
  line feed and vertical tab; gettoken of sh.c finds exactly these tokens, and parsecmd the command that the
  grammar gives to their text.
 */
module ShellText {
  import opened Shell
  import opened ShellGrammar

  type Tree = Cmd<string>
  type Token = Lex<string>

  // ---------------------------------------------------------------- writing a line

  predicate Blank(c: char) {
    c == ' ' || c == '\t' || c == '\r' || c == '\n' || c == '\U{0B}'
  }

  predicate Special(c: char) {
    c == '<' || c == '|' || c == '>' || c == '&' || c == ';' || c == '(' || c == ')'
  }

  predicate Blanks(b: string) {
    forall k :: 0 <= k < |b| ==> Blank(b[k])
  }

  predicate PlainWord(w: string) {
    w != "" && forall k :: 0 <= k < |w| ==> !Blank(w[k]) && !Special(w[k])
  }

  /** '+' stands for ">>". */
  predicate IsToken(x: Token) {
    match x
    case Word(w) => PlainWord(w)
    case Symbol(c) => Special(c) || c == '+'
  }

  function Spell(x: Token): string {
    match x
    case Word(w) => w
    case Symbol(c) => if c == '+' then ">>" else [c]
  }

  /** x and y may stand without a blank between them: not two words, nor ">" before ">" or ">>". */
  predicate Touch(x: Token, y: Token) {
    !(x.Word? && y.Word?) && !(x == Symbol('>') && (y == Symbol('>') || y == Symbol('+')))
  }

  /** Blanks before each token and after the last. */
  predicate Spaced(ts: seq<Token>, bs: seq<string>) {
    && |bs| == |ts| + 1
    && (forall k :: 0 <= k < |bs| ==> Blanks(bs[k]))
    && (forall k :: 0 <= k < |ts| ==> IsToken(ts[k]))
    && (forall k :: 0 < k < |ts| && bs[k] == "" ==> Touch(ts[k - 1], ts[k]))
  }

  function Written(ts: seq<Token>, bs: seq<string>): string
    requires |bs| == |ts| + 1
    decreases |ts|
  {
    if ts == [] then bs[0] else bs[0] + (Spell(ts[0]) + Written(ts[1..], bs[1..]))
  }

  // ---------------------------------------------------------------- reading it

  function Sub(s: string, w: Span): string {
    if w.q <= w.eq <= |s| then s[w.q..w.eq] else ""
  }

  /** The text of the tokens. */
  function Read(s: string, t: seq<Lex<Span>>): (r: seq<Token>)
    ensures |r| == |t|
    ensures forall k :: 0 <= k < |t| ==> r[k] == if t[k].Word? then Word(Sub(s, t[k].w)) else Symbol(t[k].c)
  {
    seq(|t|, k requires 0 <= k < |t| => if t[k].Word? then Word(Sub(s, t[k].w)) else Symbol(t[k].c))
  }

  /** The classes of sh.c are those of the text. */
  lemma Classes(c: char)
    ensures Ws(c) <==> Blank(c)
    ensures Sym(c) <==> Special(c)
    ensures WordChar(c) <==> !Blank(c) && !Special(c)
  {
  }

  /** t is at i in s. */
  predicate At(s: string, i: nat, t: string) {
    i + |t| <= |s| && s[i..i + |t|] == t
  }

  lemma SkipBlanksAt(s: string, i: nat, b: string)
    requires At(s, i, b) && Blanks(b) && (i + |b| < |s| ==> !Blank(s[i + |b|]))
    ensures Skip(s, i) == i + |b|
  {
    hide Blank;
    var j := Skip(s, i);
    if j < i + |b| {
      assert s[j] == b[j - i];
      Classes(s[j]);
      assert false;
    }
    if j > i + |b| {
      Classes(s[i + |b|]);
      assert false;
    }
  }

  lemma WordEndAt(s: string, i: nat, w: string)
    requires At(s, i, w) && PlainWord(w) && (i + |w| < |s| ==> Blank(s[i + |w|]) || Special(s[i + |w|]))
    ensures WordEnd(s, i) == i + |w|
  {
    hide Blank, Special;
    var j := WordEnd(s, i);
    if j < i + |w| {
      assert s[j] == w[j - i];
      Classes(s[j]);
      assert false;
    }
    if j > i + |w| {
      Classes(s[i + |w|]);
      assert false;
    }
  }

  /** What may follow token x directly. */
  predicate Follows(s: string, e: nat, x: Token) {
    e < |s| ==> (x.Word? ==> Blank(s[e]) || Special(s[e])) && (x == Symbol('>') ==> s[e] != '>')
  }

  /** gettoken at a token. */
  lemma TokenAt(s: string, q: nat, x: Token)
    requires IsToken(x) && At(s, q, Spell(x)) && Follows(s, q + |Spell(x)|, x)
    ensures
      var e := q + |Spell(x)|;
      && q < |s| && !Blank(s[q]) && Skip(s, q) == q
      && Next(s, q) == Shell.Token(if x.Word? then 'a' else x.c, q, e, Skip(s, e))
      && (x.Word? ==> Sub(s, Span(q, e)) == x.w)
  {
    var e := q + |Spell(x)|;
    assert s[q] == Spell(x)[0];
    Classes(s[q]);
    if x.Word? {
      WordEndAt(s, q, x.w);
    } else if x.c == '+' {
      assert s[q + 1] == Spell(x)[1];
    }
  }

  lemma {:induction false} WrittenHead(ts: seq<Token>, bs: seq<string>, y: Token)
    requires ts != [] && Spaced(ts, bs)
    requires bs[0] == "" ==> Touch(y, ts[0])
    ensures
      var r := Written(ts, bs);
      r != "" && (y.Word? ==> Blank(r[0]) || Special(r[0])) && (y == Symbol('>') ==> r[0] != '>')
  {
    assert IsToken(ts[0]) && Blanks(bs[0]);
  }

  lemma SpacedRest(ts: seq<Token>, bs: seq<string>)
    requires ts != [] && Spaced(ts, bs)
    ensures Spaced(ts[1..], bs[1..]) && (|ts| > 1 && bs[1..][0] == "" ==> Touch(ts[0], ts[1..][0]))
  {
    forall k | 0 < k < |ts[1..]| && bs[1..][k] == "" ensures Touch(ts[1..][k - 1], ts[1..][k]) {
      assert Touch(ts[k], ts[k + 1]);
    }
  }

  /** After the first token comes the end, a blank, or a token that may touch it. */
  lemma RestFollows(s: string, e: nat, ts: seq<Token>, bs: seq<string>)
    requires ts != [] && Spaced(ts, bs) && e <= |s| && s[e..] == Written(ts[1..], bs[1..])
    ensures Follows(s, e, ts[0])
  {
    SpacedRest(ts, bs);
    if e < |s| {
      assert s[e] == s[e..][0];
      if ts[1..] == [] {
        assert Written(ts[1..], bs[1..]) == bs[1..][0];
        assert Blanks(bs[1..][0]);
      } else {
        WrittenHead(ts[1..], bs[1..], ts[0]);
      }
    }
  }

  /** The tokens of a written line are those that were written. */
  lemma {:induction false} LexesAt(s: string, i: nat, ts: seq<Token>, bs: seq<string>)
    requires i <= |s| && Spaced(ts, bs) && s[i..] == Written(ts, bs)
    ensures Read(s, Tokens(s, i)) == ts
    decreases |ts|
  {
    hide Tokens, Spaced, Read, Written;
    if ts == [] {
      BlanksOnly(s, i, ts, bs);
      ReadNone(s);
    } else {
      var e := LexStep(s, i, ts, bs);
      SpacedLength(ts, bs);
      SpacedRest(ts, bs);
      LexesAt(s, e, ts[1..], bs[1..]);
      ReadCons(s, Tokens(s, i), ts);
    }
  }

  lemma ReadNone(s: string)
    ensures Read(s, []) == []
  {
  }

  /** gettoken takes the first token, up to e. */
  lemma LexStep(s: string, i: nat, ts: seq<Token>, bs: seq<string>) returns (e: nat)
    requires i <= |s| && ts != [] && Spaced(ts, bs) && s[i..] == Written(ts, bs)
    ensures e <= |s| && s[e..] == Written(ts[1..], bs[1..])
    ensures
      var t := Tokens(s, i);
      && t != [] && t[1..] == Tokens(s, e)
      && ts[0] == if t[0].Word? then Word(Sub(s, t[0].w)) else Symbol(t[0].c)
  {
    hide Tokens, Touch, Blank, Special, Next, Skip, Written, Sub;
    var q;
    q, e := FirstAt(s, i, ts, bs);
    RestFollows(s, e, ts, bs);
    SpacedFirst(ts, bs);
    hide Spaced;
    TokenAt(s, q, ts[0]);
    SkipBlanksAt(s, i, bs[0]);
    SkipTokens(s, i);
    Take(s, q);
    SkipTokens(s, e);
    if ts[0].Symbol? { NotAnA(ts[0]); }
  }

  lemma NotAnA(x: Token)
    requires IsToken(x) && x.Symbol?
    ensures x.c != 'a' && x.c != '\0'
  {
  }

  lemma SpacedFirst(ts: seq<Token>, bs: seq<string>)
    requires Spaced(ts, bs)
    ensures Blanks(bs[0]) && (ts != [] ==> IsToken(ts[0]))
  {
  }

  lemma ReadCons(s: string, t: seq<Lex<Span>>, ts: seq<Token>)
    requires t != [] && ts != [] && Read(s, t[1..]) == ts[1..]
    requires ts[0] == if t[0].Word? then Word(Sub(s, t[0].w)) else Symbol(t[0].c)
    ensures Read(s, t) == ts
  {
    forall k | 0 <= k < |t| ensures Read(s, t)[k] == ts[k] {
      if k > 0 { assert t[1..][k - 1] == t[k] && Read(s, t[1..])[k - 1] == ts[1..][k - 1]; }
    }
  }

  lemma BlanksOnly(s: string, i: nat, ts: seq<Token>, bs: seq<string>)
    requires i <= |s| && ts == [] && Spaced(ts, bs) && s[i..] == Written(ts, bs)
    ensures Tokens(s, i) == []
  {
    hide Tokens;
    assert At(s, i, bs[0]) && Blanks(bs[0]);
    SkipBlanksAt(s, i, bs[0]);
    NoTokens(s, i);
  }

  /** The first token is at q, after the blanks, and ends at e. */
  lemma FirstAt(s: string, i: nat, ts: seq<Token>, bs: seq<string>) returns (q: nat, e: nat)
    requires i <= |s| && ts != [] && |bs| == |ts| + 1 && s[i..] == Written(ts, bs)
    ensures q == i + |bs[0]| && e == q + |Spell(ts[0])| <= |s|
    ensures At(s, i, bs[0]) && At(s, q, Spell(ts[0])) && s[e..] == Written(ts[1..], bs[1..])
  {
    var b, x, r := bs[0], Spell(ts[0]), Written(ts[1..], bs[1..]);
    q := i + |b|;
    e := q + |x|;
    assert s[i..] == b + (x + r);
    assert s[i..q] == (b + (x + r))[..|b|];
    assert s[q..e] == (b + (x + r))[|b|..|b| + |x|];
    assert s[e..] == (b + (x + r))[|b| + |x|..];
  }

  // ---------------------------------------------------------------- every line is written so

  /** The token at t.q: what it spells, and what follows it. */
  lemma TokenSpells(s: string, i: nat)
    requires i <= |s| && Next(s, i).tok != '\0'
    ensures
      var t := Next(s, i);
      var x := if t.tok == 'a' then Word(Sub(s, Span(t.q, t.eq))) else Symbol(t.tok);
      && i <= t.q <= t.eq <= |s| && IsToken(x) && Spell(x) == s[t.q..t.eq] && Follows(s, t.eq, x) && Blanks(s[i..t.q])
  {
    var t := Next(s, i);
    forall k | i <= k < t.q ensures Blank(s[k]) { Classes(s[k]); }
    if t.tok == 'a' {
      forall k | t.q <= k < t.eq ensures !Blank(s[k]) && !Special(s[k]) { Classes(s[k]); }
      if t.eq < |s| { Classes(s[t.eq]); }
    } else {
      Classes(s[t.q]);
    }
  }

  lemma TouchNext(s: string, e: nat, x: Token, ts: seq<Token>, bs: seq<string>)
    requires e <= |s| && Follows(s, e, x) && Spaced(ts, bs) && s[e..] == Written(ts, bs) && ts != [] && bs[0] == ""
    ensures Touch(x, ts[0])
  {
    assert IsToken(ts[0]);
    assert s[e..][0] == Spell(ts[0])[0];
  }

  lemma SpacedMore(x: Token, ts: seq<Token>, b: string, bs: seq<string>)
    requires IsToken(x) && Blanks(b) && Spaced(ts, bs) && (ts != [] && bs[0] == "" ==> Touch(x, ts[0]))
    ensures Spaced([x] + ts, [b] + bs) && Written([x] + ts, [b] + bs) == b + (Spell(x) + Written(ts, bs))
  {
    var ts', bs' := [x] + ts, [b] + bs;
    forall k | 0 < k < |ts'| && bs'[k] == "" ensures Touch(ts'[k - 1], ts'[k]) {
      if k > 1 { assert bs[k - 1] == ""; }
    }
    assert ts'[1..] == ts && bs'[1..] == bs;
  }

  /** Any line is its tokens, written with blanks. */
  lemma {:induction false} LexedAt(s: string, i: nat) returns (bs: seq<string>)
    requires i <= |s|
    ensures
      var ts := Read(s, Tokens(s, i));
      Spaced(ts, bs) && s[i..] == Written(ts, bs)
    decreases |s| - i
  {
    hide Tokens, Spaced, Written, Next, Read, Follows, Touch, IsToken, Spell, Blanks, Sub;
    Take(s, i);
    if Tokens(s, i) == [] {
      bs := [s[i..]];
      ReadNone(s);
      NothingLeft(s, i, bs);
    } else {
      var t := Next(s, i);
      TokenSpells(s, i);
      var x := if t.tok == 'a' then Word(Sub(s, Span(t.q, t.eq))) else Symbol(t.tok);
      AfterToken(s, i);
      var more := LexedAt(s, t.eq);
      var ts := Read(s, Tokens(s, t.eq));
      bs := [s[i..t.q]] + more;
      if ts != [] && GapIsNone(ts, more) { TouchNext(s, t.eq, x, ts, more); }
      SpacedLength(ts, more);
      SpacedMore(x, ts, s[i..t.q], more);
      assert ([x] + ts)[1..] == ts;
      ReadCons(s, Tokens(s, i), [x] + ts);
      assert s[i..] == s[i..t.q] + (s[t.q..t.eq] + s[t.eq..]);
    }
  }

  predicate GapIsNone(ts: seq<Token>, bs: seq<string>) {
    bs != [] && bs[0] == ""
  }

  lemma SpacedLength(ts: seq<Token>, bs: seq<string>)
    requires Spaced(ts, bs)
    ensures |bs| == |ts| + 1
  {
  }

  lemma NothingLeft(s: string, i: nat, bs: seq<string>)
    requires i <= |s| && Tokens(s, i) == [] && bs == [s[i..]]
    ensures Spaced([], bs) && s[i..] == Written([], bs)
  {
    hide Tokens;
    NoTokens(s, i);
    forall k | i <= k < |s| ensures Blank(s[k]) { Classes(s[k]); }
  }

  lemma AfterToken(s: string, i: nat)
    requires i <= |s| && Tokens(s, i) != []
    ensures
      var t := Next(s, i);
      i < t.eq <= |s| && Tokens(s, t.eq) == Tokens(s, i)[1..]
  {
    hide Tokens;
    var t := Next(s, i);
    Take(s, i);
    SkipTokens(s, t.eq);
    NextIs(s, i);
  }

  lemma NextIs(s: string, i: nat)
    requires i <= |s| && Next(s, i).tok != '\0'
    ensures
      var t := Next(s, i);
      i < t.eq <= |s| && t.next == Skip(s, t.eq)
  {
  }

  /** The line is ts with blanks. */
  ghost predicate Lexes(s: string, ts: seq<Token>) {
    exists bs :: Spaced(ts, bs) && s == Written(ts, bs)
  }

  /** gettoken finds the tokens ts exactly when the line is ts with blanks. */
  lemma LexesExactly(s: string, ts: seq<Token>)
    ensures Read(s, Tokens(s, 0)) == ts <==> Lexes(s, ts)
  {
    hide Tokens, Written, Read;
    assert s[0..] == s;
    if Read(s, Tokens(s, 0)) == ts {
      var bs := LexedAt(s, 0);
    }
    if bs :| Spaced(ts, bs) && s == Written(ts, bs) { LexesAt(s, 0, ts, bs); }
  }

  // ---------------------------------------------------------------- commands as text

  function Subs(s: string, ws: seq<Span>): (r: seq<string>)
    ensures |r| == |ws| && forall k :: 0 <= k < |ws| ==> r[k] == Sub(s, ws[k])
  {
    seq(|ws|, k requires 0 <= k < |ws| => Sub(s, ws[k]))
  }

  function Files(s: string, rs: seq<Redirection<Span>>): (r: seq<Redirection<string>>)
    ensures |r| == |rs| && forall k :: 0 <= k < |rs| ==> r[k] == Redirection(Sub(s, rs[k].file), rs[k].mode, rs[k].fd)
  {
    seq(|rs|, k requires 0 <= k < |rs| => Redirection(Sub(s, rs[k].file), rs[k].mode, rs[k].fd))
  }

  /** The command with its words read out of s. */
  function Text(s: string, c: Cmd<Span>): Tree {
    match c
    case Exec(argv) => Exec(Subs(s, argv))
    case Redir(d, file, mode, fd) => Redir(Text(s, d), Sub(s, file), mode, fd)
    case Pipe(l, r) => Pipe(Text(s, l), Text(s, r))
    case List(l, r) => List(Text(s, l), Text(s, r))
    case Back(d) => Back(Text(s, d))
  }

  lemma {:induction false} TextAround(s: string, c: Cmd<Span>, rs: seq<Redirection<Span>>)
    ensures Text(s, Around(c, rs)) == Around(Text(s, c), Files(s, rs))
    decreases |rs|
  {
    if rs != [] {
      TextAround(s, Redir(c, rs[0].file, rs[0].mode, rs[0].fd), rs[1..]);
      assert Files(s, rs)[1..] == Files(s, rs[1..]);
    }
  }

  lemma {:induction false} ReadItems(s: string, t: seq<Lex<Span>>, ws: seq<Span>, rs: seq<Redirection<Span>>)
    requires IsItems(t, ws, rs)
    ensures IsItems(Read(s, t), Subs(s, ws), Files(s, rs))
    decreases |t|
  {
    if t == [] {
    } else if t[0].Word? {
      ReadItems(s, t[1..], ws[1..], rs);
      assert Read(s, t)[1..] == Read(s, t[1..]) && Subs(s, ws)[1..] == Subs(s, ws[1..]);
    } else {
      ReadItems(s, t[2..], ws, rs[1..]);
      assert Read(s, t)[2..] == Read(s, t[2..]) && Files(s, rs)[1..] == Files(s, rs[1..]);
    }
  }

  lemma {:induction false} ItemsBack(s: string, t: seq<Lex<Span>>, ws': seq<string>, rs': seq<Redirection<string>>)
    returns (ws: seq<Span>, rs: seq<Redirection<Span>>)
    requires IsItems(Read(s, t), ws', rs')
    ensures IsItems(t, ws, rs) && Subs(s, ws) == ws' && Files(s, rs) == rs'
    decreases |t|
  {
    if t == [] {
      ws, rs := [], [];
    } else if t[0].Word? {
      assert Read(s, t)[1..] == Read(s, t[1..]);
      var more;
      more, rs := ItemsBack(s, t[1..], ws'[1..], rs');
      ws := [t[0].w] + more;
      assert ws[1..] == more && Subs(s, ws) == [Sub(s, t[0].w)] + Subs(s, more) == ws';
    } else {
      assert Read(s, t)[2..] == Read(s, t[2..]);
      var more;
      ws, more := ItemsBack(s, t[2..], ws', rs'[1..]);
      var r := Arrow(t[0].c, t[1].w);
      rs := [r] + more;
      assert rs[1..] == more && Files(s, rs) == [Redirection(Sub(s, r.file), r.mode, r.fd)] + Files(s, more) == rs';
    }
  }

  /** What the grammar derives from the tokens it derives from their text. */
  lemma {:induction false} ReadLine(s: string, t: seq<Lex<Span>>, c: Cmd<Span>)
    requires IsLine(t, c)
    ensures IsLine(Read(s, t), Text(s, c))
    decreases |t|, 4
  {
    hide IsBacked, Read;
    if IsBacked(t, c) {
      ReadBacked(s, t, c);
    } else {
      var k: nat :| IsListed(t, k, c);
      ReadBacked(s, t[..k], c.left);
      ReadLine(s, t[k + 1..], c.right);
      SplitAt(s, t, k);
      assert IsListed(Read(s, t), k, Text(s, c));
    }
  }

  lemma SplitAt(s: string, t: seq<Lex<Span>>, k: nat)
    requires k < |t|
    ensures |Read(s, t)| == |t| && Read(s, t)[..k] == Read(s, t[..k]) && Read(s, t)[k + 1..] == Read(s, t[k + 1..])
    ensures forall c :: Read(s, t)[k] == Symbol(c) <==> t[k] == Symbol(c)
  {
  }

  lemma {:induction false} ReadBacked(s: string, t: seq<Lex<Span>>, c: Cmd<Span>)
    requires IsBacked(t, c)
    ensures IsBacked(Read(s, t), Text(s, c))
    decreases |t|, 3
  {
    hide IsPipe, Read;
    if IsPipe(t, c) {
      ReadPipe(s, t, c);
    } else {
      ReadBacked(s, t[..|t| - 1], c.cmd);
      SplitAt(s, t, |t| - 1);
    }
  }

  lemma {:induction false} ReadPipe(s: string, t: seq<Lex<Span>>, c: Cmd<Span>)
    requires IsPipe(t, c)
    ensures IsPipe(Read(s, t), Text(s, c))
    decreases |t|, 2
  {
    hide IsExec, Read;
    if IsExec(t, c) {
      ReadExec(s, t, c);
    } else {
      var k: nat :| IsPiped(t, k, c);
      ReadExec(s, t[..k], c.left);
      ReadPipe(s, t[k + 1..], c.right);
      SplitAt(s, t, k);
      assert IsPiped(Read(s, t), k, Text(s, c));
    }
  }

  lemma {:induction false} ReadExec(s: string, t: seq<Lex<Span>>, c: Cmd<Span>)
    requires IsExec(t, c)
    ensures IsExec(Read(s, t), Text(s, c))
    decreases |t|, 1
  {
    hide IsLine, Read, IsItems;
    if IsSimple(t, c) {
      var ws, rs :| IsItems(t, ws, rs) && |ws| < 10 && c == Around(Exec(ws), rs);
      ReadItems(s, t, ws, rs);
      TextAround(s, Exec(ws), rs);
      assert IsSimple(Read(s, t), Around(Exec(Subs(s, ws)), Files(s, rs)));
    } else {
      var k: nat, d, rs :| IsBlock(t, k, d, rs) && c == Around(d, rs);
      ReadLine(s, t[1..k], d);
      ReadItems(s, t[k + 1..], [], rs);
      TextAround(s, d, rs);
      BlockParts(s, t, k);
      assert Subs(s, []) == [];
      assert IsBlock(Read(s, t), k, Text(s, d), Files(s, rs));
    }
  }

  lemma BlockParts(s: string, t: seq<Lex<Span>>, k: nat)
    requires 0 < k < |t|
    ensures |Read(s, t)| == |t| && Read(s, t)[1..k] == Read(s, t[1..k]) && Read(s, t)[k + 1..] == Read(s, t[k + 1..])
    ensures forall c :: Read(s, t)[0] == Symbol(c) <==> t[0] == Symbol(c)
    ensures forall c :: Read(s, t)[k] == Symbol(c) <==> t[k] == Symbol(c)
  {
  }

  /** And nothing else. */
  lemma {:induction false} LineBack(s: string, t: seq<Lex<Span>>, d: Tree) returns (c: Cmd<Span>)
    requires IsLine(Read(s, t), d)
    ensures IsLine(t, c) && Text(s, c) == d
    decreases |t|, 4
  {
    hide IsBacked, Read;
    if IsBacked(Read(s, t), d) {
      c := BackedBack(s, t, d);
    } else {
      var k: nat :| IsListed(Read(s, t), k, d);
      ReadLength(s, t);
      SplitAt(s, t, k);
      var l := BackedBack(s, t[..k], d.left);
      var r := LineBack(s, t[k + 1..], d.right);
      c := List(l, r);
      assert IsListed(t, k, c);
    }
  }

  lemma ReadLength(s: string, t: seq<Lex<Span>>)
    ensures |Read(s, t)| == |t|
  {
  }

  lemma {:induction false} BackedBack(s: string, t: seq<Lex<Span>>, d: Tree) returns (c: Cmd<Span>)
    requires IsBacked(Read(s, t), d)
    ensures IsBacked(t, c) && Text(s, c) == d
    decreases |t|, 3
  {
    hide IsPipe, Read;
    ReadLength(s, t);
    if IsPipe(Read(s, t), d) {
      c := PipeBack(s, t, d);
    } else {
      SplitAt(s, t, |t| - 1);
      var b := BackedBack(s, t[..|t| - 1], d.cmd);
      c := Back(b);
    }
  }

  lemma {:induction false} PipeBack(s: string, t: seq<Lex<Span>>, d: Tree) returns (c: Cmd<Span>)
    requires IsPipe(Read(s, t), d)
    ensures IsPipe(t, c) && Text(s, c) == d
    decreases |t|, 2
  {
    hide IsExec, Read;
    if IsExec(Read(s, t), d) {
      c := ExecBack(s, t, d);
    } else {
      var k: nat :| IsPiped(Read(s, t), k, d);
      ReadLength(s, t);
      SplitAt(s, t, k);
      var l := ExecBack(s, t[..k], d.left);
      var r := PipeBack(s, t[k + 1..], d.right);
      c := Pipe(l, r);
      assert IsPiped(t, k, c);
    }
  }

  lemma {:induction false} ExecBack(s: string, t: seq<Lex<Span>>, d: Tree) returns (c: Cmd<Span>)
    requires IsExec(Read(s, t), d)
    ensures IsExec(t, c) && Text(s, c) == d
    decreases |t|, 1
  {
    hide IsLine, Read, IsItems;
    if IsSimple(Read(s, t), d) {
      var ws', rs' :| IsItems(Read(s, t), ws', rs') && |ws'| < 10 && d == Around(Exec(ws'), rs');
      var ws, rs := ItemsBack(s, t, ws', rs');
      TextAround(s, Exec(ws), rs);
      c := Around(Exec(ws), rs);
      assert IsSimple(t, c);
    } else {
      var k: nat, e, rs' :| IsBlock(Read(s, t), k, e, rs') && d == Around(e, rs');
      ReadLength(s, t);
      BlockParts(s, t, k);
      var b := LineBack(s, t[1..k], e);
      var ws, rs := ItemsBack(s, t[k + 1..], [], rs');
      assert ws == [];
      TextAround(s, b, rs);
      c := Around(b, rs);
      assert IsBlock(t, k, b, rs);
    }
  }

  // ---------------------------------------------------------------- the parser on text

  /** The parser reads d from a line exactly when the grammar derives d from the text of its tokens. */
  lemma ParsesText(s: string, ts: seq<Token>, bs: seq<string>, d: Tree)
    requires Spaced(ts, bs) && s == Written(ts, bs)
    ensures IsLine(ts, d) <==> Command(s).Ok? && Text(s, Command(s).val) == d
  {
    hide Tokens, Written, IsLine, Command, Text;
    LexesExactly(s, ts);
    CommandEnds(s);
    if IsLine(ts, d) {
      var c := LineBack(s, Tokens(s, 0), d);
      ParsesExactly(s, c);
    }
    if Command(s).Ok? && Text(s, Command(s).val) == d {
      ParsesExactly(s, Command(s).val);
      ReadLine(s, Tokens(s, 0), Command(s).val);
    }
  }

  lemma CommandEnds(s: string)
    ensures Command(s).Ok? ==> Command(s) == Ok(Command(s).val, |s|)
  {
  }

  lemma ParsesLexed(s: string, ts: seq<Token>, d: Tree)
    requires Lexes(s, ts)
    ensures IsLine(ts, d) <==> Command(s).Ok? && Text(s, Command(s).val) == d
  {
    var bs :| Spaced(ts, bs) && s == Written(ts, bs);
    ParsesText(s, ts, bs, d);
  }

  /** parsecmd: on every input it ends, with the command that the grammar derives or, where there is none,
      with a syntax error.  The text of the command is what the grammar derives from the text of the tokens. */
  method Parsecmd(s: string) returns (r: Res<Cmd<Span>>)
    ensures r == Command(s)
    ensures forall c :: Derives(s, c) <==> r == Ok(c, |s|)
    ensures forall ts, d :: Lexes(s, ts) ==> (IsLine(ts, d) <==> r.Ok? && Text(s, r.val) == d)
  {
    hide Derives, IsLine, Text, Lexes;
    var c := Parseline(s, 0);
    r := Panic;
    if c.Ok? {
      var yes, i := Peek(s, c.i, {});
      if i == |s| { r := Ok(c.val, |s|); }
    }
    forall c ensures Derives(s, c) <==> r == Ok(c, |s|) { ParsesExactly(s, c); }
    forall ts, d | Lexes(s, ts) ensures IsLine(ts, d) <==> r.Ok? && Text(s, r.val) == d {
      ParsesLexed(s, ts, d);
    }
  }
}
