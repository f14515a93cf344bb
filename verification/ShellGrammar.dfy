/**
  The grammar of the shell's command lines, stated on token sequences, and the parser of sh.c: it accepts
  exactly the lines that the grammar derives, with the command that the grammar assigns.
 */
module ShellGrammar {
  import opened Shell

  /** '+' is the symbol >>. */
  datatype Lex<W> = Word(w: W) | Symbol(c: char)

  function LexOf(t: Token): Lex<Span> {
    if t.tok == 'a' then Word(Span(t.q, t.eq)) else Symbol(t.tok)
  }

  /** The tokens of s from i on. */
  function Tokens(s: string, i: nat): seq<Lex<Span>>
    requires i <= |s|
    decreases |s| - i
  {
    var t := Next(s, i);
    if t.tok == '\0' then [] else [LexOf(t)] + Tokens(s, t.next)
  }

  /** Whether t starts with one of the symbols cs. */
  predicate Starts<W>(t: seq<Lex<W>>, cs: set<char>) {
    t != [] && t[0].Symbol? && t[0].c in cs
  }

  /** Whether a command may end before t: at the end of the input or before one of the symbols cs. */
  predicate Ends<W>(t: seq<Lex<W>>, cs: set<char>) {
    t == [] || Starts(t, cs)
  }

  const ARROWS: set<char> := {'<', '>', '+'}

  // ---------------------------------------------------------------- the grammar, of words of any kind

  /** "<" opens the file to read it as descriptor 0; ">" and ">>" create it to be written as descriptor 1. */
  function Arrow<W>(c: char, file: W): Redirection<W> {
    if c == '<' then Redirection(file, 0, 0) else Redirection(file, 0x201, 1)
  }

  /** The command inside the redirections, the first innermost. */
  function Around<W>(c: Cmd<W>, rs: seq<Redirection<W>>): Cmd<W>
    decreases |rs|
  {
    if rs == [] then c else Around(Redir(c, rs[0].file, rs[0].mode, rs[0].fd), rs[1..])
  }

  /** t is words and redirections in any order: ws are the words and rs the redirections, each in order. */
  ghost predicate IsItems<W>(t: seq<Lex<W>>, ws: seq<W>, rs: seq<Redirection<W>>) {
    if t == [] then ws == [] && rs == []
    else if t[0].Word? then ws != [] && ws[0] == t[0].w && IsItems(t[1..], ws[1..], rs)
    else
      && t[0].c in ARROWS && |t| >= 2 && t[1].Word?
      && rs != [] && rs[0] == Arrow(t[0].c, t[1].w) && IsItems(t[2..], ws, rs[1..])
  }

  /** simple = { word | redirection } with fewer than ten words. */
  ghost predicate IsSimple<W(!new)>(t: seq<Lex<W>>, c: Cmd<W>) {
    exists ws, rs :: IsItems(t, ws, rs) && |ws| < 10 && c == Around(Exec(ws), rs)
  }

  /** exec = simple | "(" line ")" { redirection }, the ")" at k. */
  ghost predicate IsExec<W(!new)>(t: seq<Lex<W>>, c: Cmd<W>)
    decreases |t|, 1
  {
    IsSimple(t, c) || exists k: nat, d, rs :: IsBlock(t, k, d, rs) && c == Around(d, rs)
  }

  ghost predicate IsBlock<W(!new)>(t: seq<Lex<W>>, k: nat, d: Cmd<W>, rs: seq<Redirection<W>>)
    decreases |t|, 0
  {
    && 0 < k < |t| && t[0] == Symbol('(') && t[k] == Symbol(')')
    && IsLine(t[1..k], d) && IsItems(t[k + 1..], [], rs)
  }

  /** pipe = exec | exec "|" pipe */
  ghost predicate IsPipe<W(!new)>(t: seq<Lex<W>>, c: Cmd<W>)
    decreases |t|, 3
  {
    IsExec(t, c) || exists k: nat :: IsPiped(t, k, c)
  }

  ghost predicate IsPiped<W(!new)>(t: seq<Lex<W>>, k: nat, c: Cmd<W>)
    decreases |t|, 2
  {
    c.Pipe? && k < |t| && t[k] == Symbol('|') && IsExec(t[..k], c.left) && IsPipe(t[k + 1..], c.right)
  }

  /** backed = pipe | backed "&" */
  ghost predicate IsBacked<W(!new)>(t: seq<Lex<W>>, c: Cmd<W>)
    decreases |t|, 4
  {
    IsPipe(t, c) || (c.Back? && t != [] && t[|t| - 1] == Symbol('&') && IsBacked(t[..|t| - 1], c.cmd))
  }

  /** line = backed | backed ";" line */
  ghost predicate IsLine<W(!new)>(t: seq<Lex<W>>, c: Cmd<W>)
    decreases |t|, 6
  {
    IsBacked(t, c) || exists k: nat :: IsListed(t, k, c)
  }

  ghost predicate IsListed<W(!new)>(t: seq<Lex<W>>, k: nat, c: Cmd<W>)
    decreases |t|, 5
  {
    c.List? && k < |t| && t[k] == Symbol(';') && IsBacked(t[..k], c.left) && IsLine(t[k + 1..], c.right)
  }

  ghost predicate Derives(s: string, c: Cmd<Span>) {
    IsLine(Tokens(s, 0), c)
  }

  /** parseredirs wraps each redirection around those before it. */
  lemma {:induction false} WrapIs(c: Cmd<Span>, rs: seq<Redirection<Span>>)
    ensures Wrap(c, rs) == Around(c, rs)
    decreases |rs|
  {
    if rs != [] {
      var init, r := rs[..|rs| - 1], rs[|rs| - 1];
      WrapIs(c, init);
      AroundLast(c, init, r);
      assert rs == init + [r];
    }
  }

  lemma {:induction false} AroundLast<W>(c: Cmd<W>, rs: seq<Redirection<W>>, r: Redirection<W>)
    ensures Around(c, rs + [r]) == Redir(Around(c, rs), r.file, r.mode, r.fd)
    decreases |rs|
  {
    if rs == [] {
      assert rs + [r] == [r];
    } else {
      var d := Redir(c, rs[0].file, rs[0].mode, rs[0].fd);
      AroundLast(d, rs[1..], r);
      assert (rs + [r])[1..] == rs[1..] + [r];
    }
  }

  // ---------------------------------------------------------------- the cursor and the tokens after it

  lemma SkipTokens(s: string, i: nat)
    requires i <= |s|
    ensures Skip(s, i) <= |s| && Tokens(s, Skip(s, i)) == Tokens(s, i)
  {
    AfterSkip(s, i, {});
  }

  lemma PeekStarts(s: string, i: nat, cs: set<char>)
    requires i <= |s| && cs <= {'|', '(', ')', '&', ';'}
    ensures PeekAt(s, i, cs) <==> Starts(Tokens(s, i), cs)
  {
  }

  lemma PeekArrow(s: string, i: nat)
    requires i <= |s|
    ensures PeekAt(s, i, {'<', '>'}) <==> Starts(Tokens(s, i), ARROWS)
  {
  }

  /** gettoken takes the first token. */
  lemma Take(s: string, i: nat)
    requires i <= |s|
    ensures
      var t := Next(s, i);
      && i <= t.next <= |s|
      && (t.tok == '\0' <==> Tokens(s, i) == [])
      && (Tokens(s, i) == [] ==> t.next == |s|)
      && (Tokens(s, i) != [] ==>
           && i < t.next && Tokens(s, t.next) == Tokens(s, i)[1..]
           && Tokens(s, i)[0] == LexOf(t)
           && (t.tok == 'a' <==> Tokens(s, i)[0].Word?))
  {
  }

  lemma AtEnd(s: string)
    ensures Tokens(s, |s|) == []
  {
  }

  lemma {:induction false} NoTokens(s: string, i: nat)
    requires i <= |s|
    ensures Tokens(s, i) == [] <==> Skip(s, i) == |s|
  {
  }

  // ---------------------------------------------------------------- the tokens of a line

  /** s from i on, without its blanks. */
  function NonBlank(s: string, i: nat): string
    requires i <= |s|
    decreases |s| - i
  {
    if i == |s| then "" else (if Ws(s[i]) then "" else [s[i]]) + NonBlank(s, i + 1)
  }

  function Spelling(s: string, t: seq<Lex<Span>>): string {
    if t == [] then ""
    else
      (match t[0]
       case Word(w) => if w.q <= w.eq <= |s| then s[w.q..w.eq] else ""
       case Symbol(c) => if c == '+' then ">>" else [c]) + Spelling(s, t[1..])
  }

  lemma {:induction false} BlanksDropped(s: string, i: nat, j: nat)
    requires i <= j <= |s| && forall k :: i <= k < j ==> Ws(s[k])
    ensures NonBlank(s, i) == NonBlank(s, j)
    decreases j - i
  {
    if i < j { BlanksDropped(s, i + 1, j); }
  }

  lemma {:induction false} RunKept(s: string, i: nat, j: nat)
    requires i <= j <= |s| && forall k :: i <= k < j ==> !Ws(s[k])
    ensures NonBlank(s, i) == s[i..j] + NonBlank(s, j)
    decreases j - i
  {
    hide Ws;
    if i == j {
      assert s[i..j] == "";
    } else {
      RunKept(s, i + 1, j);
      var rest := NonBlank(s, j);
      assert s[i..j] == [s[i]] + s[i + 1..j];
      assert s[i..j] + rest == [s[i]] + (s[i + 1..j] + rest);
    }
  }

  lemma NextSpan(s: string, i: nat)
    requires i <= |s|
    ensures
      var t := Next(s, i);
      && (forall k :: i <= k < t.q ==> Ws(s[k])) && (forall k :: t.eq <= k < t.next ==> Ws(s[k]))
      && (forall k :: t.q <= k < t.eq ==> !Ws(s[k]))
  {
  }

  lemma SymbolText(s: string, i: nat)
    requires i <= |s|
    ensures
      var t := Next(s, i);
      && (t.tok == '+' ==> s[t.q..t.eq] == ">>")
      && (t.tok !in {'+', 'a', '\0'} ==> s[t.q..t.eq] == [t.tok])
  {
  }

  lemma TokenText(s: string, i: nat)
    requires i <= |s| && Tokens(s, i) != []
    ensures
      var t := Next(s, i);
      NonBlank(s, i) == s[t.q..t.eq] + NonBlank(s, t.next)
  {
    hide NonBlank, Next, Ws;
    NextSpan(s, i);
    var t := Next(s, i);
    BlanksDropped(s, i, t.q);
    RunKept(s, t.q, t.eq);
    BlanksDropped(s, t.eq, t.next);
  }

  /** Nothing but blanks is lost between the characters and the tokens. */
  lemma {:induction false} TokensSpell(s: string, i: nat)
    requires i <= |s|
    ensures Spelling(s, Tokens(s, i)) == NonBlank(s, i)
    decreases |s| - i
  {
    hide Next, NonBlank;
    if Tokens(s, i) == [] {
      NoTokens(s, i);
      BlanksDropped(s, i, |s|);
      NoneLeft(s);
    } else {
      var t := Next(s, i);
      Take(s, i);
      TokensSpell(s, t.next);
      TokenText(s, i);
      SymbolText(s, i);
    }
  }

  lemma NoneLeft(s: string)
    ensures NonBlank(s, |s|) == ""
  {
  }

  /** Each word is as long as it can be. */
  lemma {:induction false} TokensWhole(s: string, i: nat, w: Span)
    requires i <= |s| && Word(w) in Tokens(s, i)
    ensures i <= w.q && IsWord(s, w) && (w.q > i ==> !WordChar(s[w.q - 1]))
    decreases |s| - i
  {
    hide Next, IsWord, WordChar;
    Take(s, i);
    var t := Next(s, i);
    if Word(w) == LexOf(t) {
      WordWhole(s, i);
    } else {
      TokensWhole(s, t.next, w);
      if w.q == t.next { TokenEnds(s, i, w); }
    }
  }

  lemma WordWhole(s: string, i: nat)
    requires i <= |s| && Next(s, i).tok == 'a'
    ensures
      var t := Next(s, i);
      i <= t.q && IsWord(s, Span(t.q, t.eq)) && (t.q > i ==> !WordChar(s[t.q - 1]))
  {
  }

  /** No word begins right after a word. */
  lemma TokenEnds(s: string, i: nat, w: Span)
    requires i <= |s| && Next(s, i).tok != '\0' && IsWord(s, w) && w.q == Next(s, i).next
    ensures w.q > 0 && !WordChar(s[w.q - 1])
  {
    var t := Next(s, i);
    if t.eq < t.next { assert Ws(s[t.next - 1]); }
  }

  // ---------------------------------------------------------------- what the parser accepts is derivable

  lemma ItemsHead(t: seq<Lex<Span>>, ws: seq<Span>, rs: seq<Redirection<Span>>)
    requires IsItems(t, ws, rs)
    ensures t == [] ==> ws == [] && rs == []
    ensures t != [] && t[0].Word? ==> ws != [] && ws[0] == t[0].w && IsItems(t[1..], ws[1..], rs)
    ensures t != [] && t[0].Symbol? ==>
      && t[0].c in ARROWS && |t| >= 2 && t[1].Word?
      && rs != [] && rs[0] == Arrow(t[0].c, t[1].w) && IsItems(t[2..], ws, rs[1..])
  {
  }

  lemma ItemsWord(w: Span, t: seq<Lex<Span>>, ws: seq<Span>, rs: seq<Redirection<Span>>)
    requires IsItems(t, ws, rs)
    ensures IsItems([Word(w)] + t, [w] + ws, rs)
  {
    assert ([Word(w)] + t)[1..] == t && ([w] + ws)[1..] == ws;
  }

  lemma ItemsArrow(c: char, w: Span, t: seq<Lex<Span>>, ws: seq<Span>, rs: seq<Redirection<Span>>)
    requires c in ARROWS && IsItems(t, ws, rs)
    ensures IsItems([Symbol(c), Word(w)] + t, ws, [Arrow(c, w)] + rs)
  {
    assert ([Symbol(c), Word(w)] + t)[2..] == t && ([Arrow(c, w)] + rs)[1..] == rs;
  }

  lemma {:induction false} ItemsConcat(t: seq<Lex<Span>>, ws: seq<Span>, rs: seq<Redirection<Span>>,
                                       t': seq<Lex<Span>>, ws': seq<Span>, rs': seq<Redirection<Span>>)
    requires IsItems(t, ws, rs) && IsItems(t', ws', rs')
    ensures IsItems(t + t', ws + ws', rs + rs')
  {
    hide Arrow, IsItems;
    ItemsHead(t, ws, rs);
    if t == [] {
      assert t + t' == t' && ws + ws' == ws' && rs + rs' == rs';
    } else if t[0].Word? {
      ItemsConcat(t[1..], ws[1..], rs, t', ws', rs');
      ItemsWord(ws[0], t[1..] + t', ws[1..] + ws', rs + rs');
      assert t + t' == [Word(ws[0])] + (t[1..] + t') && ws + ws' == [ws[0]] + (ws[1..] + ws');
    } else {
      var c, w := t[0].c, t[1].w;
      ItemsConcat(t[2..], ws, rs[1..], t', ws', rs');
      ItemsArrow(c, w, t[2..] + t', ws + ws', rs[1..] + rs');
      assert t + t' == [Symbol(c), Word(w)] + (t[2..] + t') && rs + rs' == [rs[0]] + (rs[1..] + rs');
    }
  }

  lemma {:induction false} RedirsSound(s: string, i: nat, rs0: seq<Redirection<Span>>)
    returns (t: seq<Lex<Span>>, rs: seq<Redirection<Span>>)
    requires i <= |s| && Redirs(s, i, rs0).Ok?
    ensures
      var r := Redirs(s, i, rs0);
      r.val == rs0 + rs && IsItems(t, [], rs) && Tokens(s, i) == t + Tokens(s, r.i)
    decreases |s| - i
  {
    hide Tokens, Next, PeekAt;
    PeekArrow(s, i);
    if !PeekAt(s, i, {'<', '>'}) {
      t, rs := [], [];
      SkipTokens(s, i);
    } else {
      Take(s, i);
      var a := Next(s, i);
      Take(s, a.next);
      var w := Next(s, a.next);
      var r := Arrow(a.tok, Span(w.q, w.eq));
      var t', rs' := RedirsSound(s, w.next, rs0 + [r]);
      t, rs := [LexOf(a), LexOf(w)] + t', [r] + rs';
      assert rs0 + [r] + rs' == rs0 + rs;
      ItemsArrow(a.tok, Span(w.q, w.eq), t', [], rs');
    }
  }

  lemma {:induction false} ArgsSound(s: string, i: nat, args: seq<Span>, rs0: seq<Redirection<Span>>)
    returns (t: seq<Lex<Span>>, ws: seq<Span>, rs: seq<Redirection<Span>>)
    requires i <= |s| && Args(s, i, args, rs0).Ok? && |args| < MAXARGS
    ensures
      var r := Args(s, i, args, rs0);
      && IsItems(t, ws, rs) && |args + ws| < MAXARGS && r.val == Wrap(Exec(args + ws), rs0 + rs)
      && Tokens(s, i) == t + Tokens(s, r.i)
    decreases |s| - i
  {
    hide Tokens, Next, PeekAt, Wrap, IsItems;
    if PeekAt(s, i, {'|', ')', '&', ';'}) {
      SkipTokens(s, i);
      t, ws, rs := NoItems(args, rs0);
    } else {
      Take(s, i);
      var a := Next(s, i);
      if a.tok == '\0' {
        AtEnd(s);
        t, ws, rs := NoItems(args, rs0);
      } else {
        var w := Span(a.q, a.eq);
        var t1, rs1 := RedirsSound(s, a.next, rs0);
        var t2, ws2, rs2 := ArgsSound(s, Redirs(s, a.next, rs0).i, args + [w], rs0 + rs1);
        t, ws, rs := [LexOf(a)] + (t1 + t2), [w] + ws2, rs1 + rs2;
        WordItems(w, t1, rs1, t2, ws2, rs2);
        assert args + [w] + ws2 == args + ws && rs0 + rs1 + rs2 == rs0 + rs;
      }
    }
  }

  lemma NoItems(args: seq<Span>, rs0: seq<Redirection<Span>>) returns (t: seq<Lex<Span>>, ws: seq<Span>, rs: seq<Redirection<Span>>)
    ensures t == [] && IsItems(t, ws, rs) && args + ws == args && rs0 + rs == rs0
  {
    t, ws, rs := [], [], [];
  }

  lemma WordItems(w: Span, t1: seq<Lex<Span>>, rs1: seq<Redirection<Span>>, t2: seq<Lex<Span>>, ws2: seq<Span>, rs2: seq<Redirection<Span>>)
    requires IsItems(t1, [], rs1) && IsItems(t2, ws2, rs2)
    ensures IsItems([Word(w)] + (t1 + t2), [w] + ws2, rs1 + rs2)
  {
    ItemsConcat(t1, [], rs1, t2, ws2, rs2);
    assert [] + ws2 == ws2;
    ItemsWord(w, t1 + t2, ws2, rs1 + rs2);
  }

  lemma {:induction false} SimpleSound(s: string, i: nat) returns (t: seq<Lex<Span>>)
    requires i <= |s| && Simple(s, i).Ok?
    ensures IsExec(t, Simple(s, i).val) && Tokens(s, i) == t + Tokens(s, Simple(s, i).i)
    decreases |s| - i, 2
  {
    hide Tokens, Next, PeekAt, Wrap, Around, IsItems, Args, Redirs, Block;
    if PeekAt(s, i, {'('}) {
      t := BlockSound(s, i);
    } else {
      var t1, rs1 := RedirsSound(s, i, []);
      var r := Redirs(s, i, []);
      var t2, ws, rs2 := ArgsSound(s, r.i, [], r.val);
      t := t1 + t2;
      ItemsConcat(t1, [], rs1, t2, ws, rs2);
      assert [] + ws == ws && [] + rs1 == rs1;
      WrapIs(Exec(ws), rs1 + rs2);
      assert IsSimple(t, Around(Exec(ws), rs1 + rs2));
    }
  }

  lemma {:induction false} BlockSound(s: string, i: nat) returns (t: seq<Lex<Span>>)
    requires i <= |s| && Block(s, i).Ok?
    ensures IsExec(t, Block(s, i).val) && Tokens(s, i) == t + Tokens(s, Block(s, i).i)
    decreases |s| - i, 1
  {
    hide Tokens, Next, PeekAt, Wrap, IsItems, Line, Redirs, IsLine, IsSimple;
    PeekStarts(s, i, {'('});
    Take(s, i);
    var j := Next(s, i).next;
    var t1 := LineSound(s, j);
    var c := Line(s, j);
    PeekStarts(s, c.i, {')'});
    Take(s, c.i);
    var t2, rs := RedirsSound(s, Next(s, c.i).next, []);
    assert [] + rs == rs;
    t := BlockTokens(t1, c.val, t2, rs);
  }

  lemma BlockTokens(t1: seq<Lex<Span>>, c: Cmd<Span>, t2: seq<Lex<Span>>, rs: seq<Redirection<Span>>) returns (t: seq<Lex<Span>>)
    requires IsLine(t1, c) && IsItems(t2, [], rs)
    ensures t == [Symbol('(')] + (t1 + ([Symbol(')')] + t2)) && IsExec(t, Wrap(c, rs))
  {
    hide IsLine, IsItems, Wrap, Around;
    WrapIs(c, rs);
    t := [Symbol('(')] + (t1 + ([Symbol(')')] + t2));
    var k := |t1| + 1;
    assert t[1..k] == t1 && t[k + 1..] == t2;
    assert IsBlock(t, k, c, rs);
  }

  lemma {:induction false} PipeSound(s: string, i: nat) returns (t: seq<Lex<Span>>)
    requires i <= |s| && Pipeline(s, i).Ok?
    ensures IsPipe(t, Pipeline(s, i).val) && Tokens(s, i) == t + Tokens(s, Pipeline(s, i).i)
    decreases |s| - i, 3
  {
    hide Tokens, Next, PeekAt, Simple, IsExec, IsPipe;
    var c := Simple(s, i);
    var t1 := SimpleSound(s, i);
    PeekStarts(s, c.i, {'|'});
    if !PeekAt(s, c.i, {'|'}) {
      SkipTokens(s, c.i);
      t := t1;
      ExecPipe(t1, c.val);
    } else {
      Take(s, c.i);
      var j := Next(s, c.i).next;
      var t2 := PipeSound(s, j);
      t := PipeTokens(t1, c.val, t2, Pipeline(s, j).val);
    }
  }

  lemma ExecPipe(t: seq<Lex<Span>>, c: Cmd<Span>)
    requires IsExec(t, c)
    ensures IsPipe(t, c)
  {
  }

  lemma PipeTokens(t1: seq<Lex<Span>>, c: Cmd<Span>, t2: seq<Lex<Span>>, d: Cmd<Span>) returns (t: seq<Lex<Span>>)
    requires IsExec(t1, c) && IsPipe(t2, d)
    ensures t == t1 + ([Symbol('|')] + t2) && IsPipe(t, Pipe(c, d))
  {
    hide IsExec;
    t := t1 + ([Symbol('|')] + t2);
    assert t[..|t1|] == t1 && t[|t1| + 1..] == t2;
    assert IsPiped(t, |t1|, Pipe(c, d));
  }

  lemma BackedMore(t: seq<Lex<Span>>, c: Cmd<Span>)
    requires IsBacked(t, c)
    ensures IsBacked(t + [Symbol('&')], Back(c))
  {
    hide IsPipe;
    assert (t + [Symbol('&')])[..|t|] == t;
  }

  lemma {:induction false} BacksSound(s: string, i: nat, c: Cmd<Span>, t0: seq<Lex<Span>>) returns (t: seq<Lex<Span>>)
    requires i <= |s| && IsBacked(t0, c)
    ensures IsBacked(t0 + t, Backs(s, i, c).0) && Tokens(s, i) == t + Tokens(s, Backs(s, i, c).1)
    decreases |s| - i
  {
    hide Tokens, Next, PeekAt, IsBacked;
    PeekStarts(s, i, {'&'});
    if !PeekAt(s, i, {'&'}) {
      SkipTokens(s, i);
      t := [];
      assert t0 + t == t0;
    } else {
      Take(s, i);
      var amp := [Symbol('&')];
      BackedMore(t0, c);
      var t1 := BacksSound(s, Next(s, i).next, Back(c), t0 + amp);
      t := amp + t1;
      assert t0 + amp + t1 == t0 + t;
    }
  }

  lemma {:induction false} LineSound(s: string, i: nat) returns (t: seq<Lex<Span>>)
    requires i <= |s| && Line(s, i).Ok?
    ensures IsLine(t, Line(s, i).val) && Tokens(s, i) == t + Tokens(s, Line(s, i).i)
    decreases |s| - i, 4
  {
    hide Tokens, Next, PeekAt, Pipeline, Backs, IsPipe, IsBacked, IsLine;
    var c := Pipeline(s, i);
    var t1 := PipeSound(s, i);
    PipeBacked(t1, c.val);
    var t2 := BacksSound(s, c.i, c.val, t1);
    var b := Backs(s, c.i, c.val);
    PeekStarts(s, b.1, {';'});
    if !PeekAt(s, b.1, {';'}) {
      SkipTokens(s, b.1);
      t := t1 + t2;
      BackedLine(t, b.0);
    } else {
      Take(s, b.1);
      var j := Next(s, b.1).next;
      var t3 := LineSound(s, j);
      t := ListTokens(t1 + t2, b.0, t3, Line(s, j).val);
    }
  }

  lemma PipeBacked(t: seq<Lex<Span>>, c: Cmd<Span>)
    requires IsPipe(t, c)
    ensures IsBacked(t, c)
  {
  }

  lemma BackedLine(t: seq<Lex<Span>>, c: Cmd<Span>)
    requires IsBacked(t, c)
    ensures IsLine(t, c)
  {
  }

  lemma ListTokens(t1: seq<Lex<Span>>, c: Cmd<Span>, t2: seq<Lex<Span>>, d: Cmd<Span>) returns (t: seq<Lex<Span>>)
    requires IsBacked(t1, c) && IsLine(t2, d)
    ensures t == t1 + ([Symbol(';')] + t2) && IsLine(t, List(c, d))
  {
    hide IsBacked;
    t := t1 + ([Symbol(';')] + t2);
    assert t[..|t1|] == t1 && t[|t1| + 1..] == t2;
    assert IsListed(t, |t1|, List(c, d));
  }

  // ---------------------------------------------------------------- what is derivable the parser accepts

  lemma {:induction false} RedirsComplete(s: string, i: nat, rs0: seq<Redirection<Span>>,
                                          t: seq<Lex<Span>>, rs: seq<Redirection<Span>>, u: seq<Lex<Span>>)
    returns (j: nat)
    requires i <= |s| && Tokens(s, i) == t + u && IsItems(t, [], rs) && !Starts(u, ARROWS)
    ensures j <= |s| && Redirs(s, i, rs0) == Ok(rs0 + rs, j) && Tokens(s, j) == u
    decreases |t|
  {
    hide Tokens, Next, PeekAt, IsItems;
    ItemsHead(t, [], rs);
    PeekArrow(s, i);
    if t == [] {
      assert t + u == u && rs0 + rs == rs0;
      SkipTokens(s, i);
      j := Skip(s, i);
    } else {
      Take(s, i);
      var a := Next(s, i);
      assert (t + u)[1..] == t[1..] + u;
      Take(s, a.next);
      var w := Next(s, a.next);
      assert (t[1..] + u)[1..] == t[2..] + u;
      var r := Arrow(a.tok, Span(w.q, w.eq));
      j := RedirsComplete(s, w.next, rs0 + [r], t[2..], rs[1..], u);
      assert rs0 + [r] + rs[1..] == rs0 + rs;
    }
  }

  /** Items begin with redirections; n of them come before the first word. */
  lemma {:induction false} ItemsSplit(t: seq<Lex<Span>>, ws: seq<Span>, rs: seq<Redirection<Span>>) returns (n: nat)
    requires IsItems(t, ws, rs)
    ensures n <= |rs| && 2 * n <= |t| && IsItems(t[..2 * n], [], rs[..n]) && IsItems(t[2 * n..], ws, rs[n..])
    ensures t[2 * n..] == [] || t[2 * n].Word?
  {
    if t == [] || t[0].Word? {
      n := 0;
      assert t[..2 * n] == [] && t[2 * n..] == t && rs[..n] == [] && rs[n..] == rs;
    } else {
      var m := ItemsSplit(t[2..], ws, rs[1..]);
      n := m + 1;
      assert t[..2 * n][2..] == t[2..][..2 * m] && rs[..n][1..] == rs[1..][..m];
      assert t[2 * n..] == t[2..][2 * m..] && rs[n..] == rs[1..][m..];
    }
  }

  lemma {:induction false} ArgsComplete(s: string, i: nat, args: seq<Span>, rs0: seq<Redirection<Span>>,
                                        t: seq<Lex<Span>>, ws: seq<Span>, rs: seq<Redirection<Span>>, u: seq<Lex<Span>>)
    returns (j: nat)
    requires i <= |s| && Tokens(s, i) == t + u && IsItems(t, ws, rs) && Ends(u, {'|', ')', '&', ';'})
    requires |args| + |ws| < MAXARGS && (t == [] || t[0].Word?)
    ensures j <= |s| && Args(s, i, args, rs0) == Ok(Wrap(Exec(args + ws), rs0 + rs), j) && Tokens(s, j) == u
    decreases |t|
  {
    hide Tokens, Next, PeekAt, Wrap, Redirs, IsItems;
    ItemsHead(t, ws, rs);
    PeekStarts(s, i, {'|', ')', '&', ';'});
    Take(s, i);
    var a := Next(s, i);
    if t == [] {
      assert t + u == u && args + ws == args && rs0 + rs == rs0;
      SkipTokens(s, i);
      AtEnd(s);
      j := if u == [] then |s| else Skip(s, i);
    } else {
      var w := Span(a.q, a.eq);
      var n := ItemsSplit(t[1..], ws[1..], rs);
      var t1, t2, rs1, rs2 := t[1..][..2 * n], t[1..][2 * n..], rs[..n], rs[n..];
      assert (t + u)[1..] == t1 + (t2 + u);
      var k := RedirsComplete(s, a.next, rs0, t1, rs1, t2 + u);
      j := ArgsComplete(s, k, args + [w], rs0 + rs1, t2, ws[1..], rs2, u);
      assert args + [w] + ws[1..] == args + ws && rs0 + rs1 + rs2 == rs0 + rs;
    }
  }

  lemma ItemsComplete(s: string, i: nat, t: seq<Lex<Span>>, ws: seq<Span>, rs: seq<Redirection<Span>>, u: seq<Lex<Span>>) returns (j: nat)
    requires i <= |s| && Tokens(s, i) == t + u && IsItems(t, ws, rs) && |ws| < MAXARGS && Ends(u, {'|', ')', '&', ';'})
    ensures j <= |s| && Simple(s, i) == Ok(Wrap(Exec(ws), rs), j) && Tokens(s, j) == u
  {
    hide Tokens, Next, PeekAt, Wrap, Redirs, Args, Block, IsItems;
    ItemsHead(t, ws, rs);
    PeekStarts(s, i, {'('});
    var n := ItemsSplit(t, ws, rs);
    var t1, t2, rs1, rs2 := t[..2 * n], t[2 * n..], rs[..n], rs[n..];
    assert t + u == t1 + (t2 + u);
    var k := RedirsComplete(s, i, [], t1, rs1, t2 + u);
    assert [] + rs1 == rs1 && [] + ws == ws && rs1 + rs2 == rs;
    j := ArgsComplete(s, k, [], rs1, t2, ws, rs2, u);
  }

  lemma {:induction false} SimpleComplete(s: string, i: nat, t: seq<Lex<Span>>, c: Cmd<Span>, u: seq<Lex<Span>>) returns (j: nat)
    requires i <= |s| && Tokens(s, i) == t + u && IsExec(t, c) && Ends(u, {'|', ')', '&', ';'})
    ensures j <= |s| && Simple(s, i) == Ok(c, j) && Tokens(s, j) == u
    decreases |t|, 0
  {
    hide Tokens, Next, PeekAt, Wrap, Around, IsItems, IsLine, Simple;
    if IsSimple(t, c) {
      var ws, rs :| IsItems(t, ws, rs) && |ws| < 10 && c == Around(Exec(ws), rs);
      WrapIs(Exec(ws), rs);
      j := ItemsComplete(s, i, t, ws, rs, u);
    } else {
      var k: nat, d, rs :| IsBlock(t, k, d, rs) && c == Around(d, rs);
      WrapIs(d, rs);
      Take(s, i);
      var t1, t2 := t[1..k], t[k + 1..];
      var v := [Symbol(')')] + (t2 + u);
      assert (t + u)[1..] == t1 + v;
      var a := Next(s, i).next;
      var e := LineComplete(s, a, t1, d, v);
      Take(s, e);
      assert v[1..] == t2 + u;
      j := RedirsComplete(s, Next(s, e).next, [], t2, rs, u);
      assert [] + rs == rs;
      BlockComplete(s, i, a, d, e, rs, j);
    }
  }

  lemma BlockComplete(s: string, i: nat, a: nat, d: Cmd<Span>, e: nat, rs: seq<Redirection<Span>>, j: nat)
    requires i <= |s| && Starts(Tokens(s, i), {'('}) && a == Next(s, i).next && Line(s, a) == Ok(d, e)
    requires e <= |s| && Starts(Tokens(s, e), {')'}) && Redirs(s, Next(s, e).next, []) == Ok(rs, j)
    ensures Simple(s, i) == Ok(Wrap(d, rs), j)
  {
    hide Tokens, Next, PeekAt, Wrap, Line, Redirs;
    PeekStarts(s, i, {'('});
    PeekStarts(s, e, {')'});
  }

  lemma {:induction false} PipeComplete(s: string, i: nat, t: seq<Lex<Span>>, c: Cmd<Span>, u: seq<Lex<Span>>) returns (j: nat)
    requires i <= |s| && Tokens(s, i) == t + u && IsPipe(t, c) && Ends(u, {')', '&', ';'})
    ensures j <= |s| && Pipeline(s, i) == Ok(c, j) && Tokens(s, j) == u
    decreases |t|, 1
  {
    hide Tokens, Next, PeekAt, Simple, IsExec;
    if IsExec(t, c) {
      var k := SimpleComplete(s, i, t, c, u);
      PeekStarts(s, k, {'|'});
      SkipTokens(s, k);
      j := Skip(s, k);
    } else {
      var k: nat :| IsPiped(t, k, c);
      var v := t[k + 1..] + u;
      assert t + u == t[..k] + ([Symbol('|')] + v);
      var a := SimpleComplete(s, i, t[..k], c.left, [Symbol('|')] + v);
      PeekStarts(s, a, {'|'});
      Take(s, a);
      j := PipeComplete(s, Next(s, a).next, t[k + 1..], c.right, u);
    }
  }

  /** The pipeline at i, and what the '&' loop made of it by j. */
  lemma {:induction false} BackedComplete(s: string, i: nat, t: seq<Lex<Span>>, c: Cmd<Span>, u: seq<Lex<Span>>) returns (j: nat)
    requires i <= |s| && Tokens(s, i) == t + u && IsBacked(t, c) && Ends(u, {')', '&', ';'})
    ensures j <= |s| && Tokens(s, j) == u
    ensures
      var p := Pipeline(s, i);
      p.Ok? && Backs(s, p.i, p.val) == Backs(s, j, c)
    decreases |t|, 2
  {
    hide Tokens, Next, PeekAt, IsPipe, Pipeline;
    if IsPipe(t, c) {
      j := PipeComplete(s, i, t, c, u);
    } else {
      var t1, amp := t[..|t| - 1], [Symbol('&')];
      assert t + u == t1 + (amp + u);
      var k := BackedComplete(s, i, t1, c.cmd, amp + u);
      PeekStarts(s, k, {'&'});
      Take(s, k);
      j := Next(s, k).next;
    }
  }

  lemma {:induction false} LineComplete(s: string, i: nat, t: seq<Lex<Span>>, c: Cmd<Span>, u: seq<Lex<Span>>) returns (j: nat)
    requires i <= |s| && Tokens(s, i) == t + u && IsLine(t, c) && Ends(u, {')'})
    ensures j <= |s| && Line(s, i) == Ok(c, j) && Tokens(s, j) == u
    decreases |t|, 3
  {
    hide Tokens, Next, PeekAt, IsBacked, Pipeline;
    if IsBacked(t, c) {
      var k := BackedComplete(s, i, t, c, u);
      LineEnd(s, i, k, c);
      j := Skip(s, Skip(s, k));
    } else {
      var k: nat :| IsListed(t, k, c);
      var v := [Symbol(';')] + (t[k + 1..] + u);
      assert t + u == t[..k] + v;
      var a := BackedComplete(s, i, t[..k], c.left, v);
      var e := LineMore(s, i, a, c.left);
      assert v[1..] == t[k + 1..] + u;
      j := LineComplete(s, e, t[k + 1..], c.right, u);
    }
  }

  lemma LineEnd(s: string, i: nat, k: nat, c: Cmd<Span>)
    requires i <= |s| && k <= |s| && Ends(Tokens(s, k), {')'})
    requires var p := Pipeline(s, i); p.Ok? && Backs(s, p.i, p.val) == Backs(s, k, c)
    ensures Line(s, i) == Ok(c, Skip(s, Skip(s, k))) && Tokens(s, Skip(s, Skip(s, k))) == Tokens(s, k)
  {
    hide Tokens, Next, PeekAt, Pipeline;
    PeekStarts(s, k, {'&'});
    SkipTokens(s, k);
    SkipTokens(s, Skip(s, k));
    PeekStarts(s, Skip(s, k), {';'});
  }

  /** A ';' at k: the rest of the line begins at e. */
  lemma LineMore(s: string, i: nat, k: nat, c: Cmd<Span>) returns (e: nat)
    requires i <= |s| && k <= |s| && Starts(Tokens(s, k), {';'})
    requires var p := Pipeline(s, i); p.Ok? && Backs(s, p.i, p.val) == Backs(s, k, c)
    ensures e <= |s| && Tokens(s, e) == Tokens(s, k)[1..]
    ensures
      var d := Line(s, e);
      Line(s, i) == if d.Panic? then Panic else Ok(List(c, d.val), d.i)
  {
    hide Tokens, Next, PeekAt, Pipeline;
    PeekStarts(s, k, {'&'});
    SkipTokens(s, k);
    var b := Skip(s, k);
    PeekStarts(s, b, {';'});
    Take(s, b);
    e := Next(s, b).next;
  }

  // ---------------------------------------------------------------- the parser and the grammar

  /** The parser's result is the command that the grammar derives; a syntax error means there is none. */
  lemma ParsesExactly(s: string, c: Cmd<Span>)
    ensures Derives(s, c) <==> Command(s) == Ok(c, |s|)
  {
    hide Tokens, Line, IsLine;
    if Derives(s, c) {
      assert Tokens(s, 0) == Tokens(s, 0) + [];
      var j := LineComplete(s, 0, Tokens(s, 0), c, []);
      NoTokens(s, j);
    }
    if Command(s) == Ok(c, |s|) {
      var t := LineSound(s, 0);
      NoTokens(s, Line(s, 0).i);
      assert t + [] == t;
    }
  }

  /** No line has two readings. */
  lemma Unambiguous(s: string, c: Cmd<Span>, d: Cmd<Span>)
    requires Derives(s, c) && Derives(s, d)
    ensures c == d
  {
    ParsesExactly(s, c);
    ParsesExactly(s, d);
  }
}
