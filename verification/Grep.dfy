/**
  The regular-expression matcher of grep.c against the language its patterns denote.
 */
module Grep {

  /** A character of the pattern, '.' for any, once or starred. */
  datatype Item = One(c: char) | Many(c: char)

  /** A pattern after the leading '^': its items, and whether a final '$' ties it to the end of the text. */
  datatype Pattern = Pattern(items: seq<Item>, end: bool)

  predicate CharOk(c: char, t: char) { c == '.' || c == t }

  /** The texts an item stands for. */
  predicate ItemOk(it: Item, m: string) {
    && (it.One? ==> |m| == 1)
    && forall i :: 0 <= i < |m| ==> CharOk(it.c, m[i])
  }

  /** m is made of one text for each item, in order. */
  predicate InLanguage(items: seq<Item>, m: string)
    decreases |items|
  {
    if items == [] then m == ""
    else exists k :: 0 <= k <= |m| && ItemOk(items[0], m[..k]) && InLanguage(items[1..], m[k..])
  }

  /** text[a..b] is a match. */
  predicate MatchAt(p: Pattern, text: string, a: int, b: int) {
    0 <= a <= b <= |text| && InLanguage(p.items, text[a..b]) && (p.end ==> b == |text|)
  }

  /** text starts with a match. */
  predicate Begins(p: Pattern, text: string) {
    exists b :: 0 <= b <= |text| && InLanguage(p.items, text[..b]) && (p.end ==> b == |text|)
  }

  function Parse(re: string): Pattern
    decreases |re|
  {
    if re == "" then Pattern([], false)
    else if |re| > 1 && re[1] == '*' then var p := Parse(re[2..]); Pattern([Many(re[0])] + p.items, p.end)
    else if re == "$" then Pattern([], true)
    else var p := Parse(re[1..]); Pattern([One(re[0])] + p.items, p.end)
  }

  // ---------------------------------------------------------------- Patterns as strings

  function Letters(it: Item): string {
    match it
    case One(c) => [c]
    case Many(c) => [c, '*']
  }

  function Print(p: Pattern): string
    decreases |p.items|
  {
    if p.items == [] then (if p.end then "$" else "") else Letters(p.items[0]) + Print(Pattern(p.items[1..], p.end))
  }

  /** A star after a plain character would star it, and a final '$' would tie the pattern to the end. */
  predicate Writable(p: Pattern) {
    && (forall i :: 0 <= i < |p.items| - 1 && p.items[i].One? ==> p.items[i + 1].c != '*')
    && (p.items != [] && !p.end ==> p.items[|p.items| - 1] != One('$'))
  }

  /** Every string is a pattern, and reading it as one loses nothing. */
  lemma {:induction false} PrintParse(re: string)
    ensures Print(Parse(re)) == re && Writable(Parse(re))
    decreases |re|
  {
    hide Writable, Print;
    if re == "" || re == "$" {
      WritableNone(re == "$");
    } else if |re| > 1 && re[1] == '*' {
      PrintParse(re[2..]);
      PrintCons(Many(re[0]), Parse(re[2..]));
      WritableCons(Many(re[0]), Parse(re[2..]));
      assert re == [re[0], '*'] + re[2..];
    } else {
      PrintParse(re[1..]);
      PrintCons(One(re[0]), Parse(re[1..]));
      FirstLetter(Parse(re[1..]));
      WritableCons(One(re[0]), Parse(re[1..]));
      assert re == [re[0]] + re[1..];
    }
  }

  lemma WritableNone(end: bool)
    ensures Writable(Pattern([], end)) && Print(Pattern([], end)) == if end then "$" else ""
  {
  }

  lemma WritableCons(it: Item, p: Pattern)
    requires Writable(p) && (it.One? && p.items != [] ==> p.items[0].c != '*')
    requires p.items == [] && !p.end ==> it != One('$')
    ensures Writable(Pattern([it] + p.items, p.end))
  {
    var q := [it] + p.items;
    forall i | 0 <= i < |q| - 1 && q[i].One? ensures q[i + 1].c != '*' {
      if i > 0 { assert q[i] == p.items[i - 1] && q[i + 1] == p.items[i]; }
    }
  }

  lemma PrintCons(it: Item, p: Pattern)
    ensures Print(Pattern([it] + p.items, p.end)) == Letters(it) + Print(p)
  {
    assert ([it] + p.items)[1..] == p.items;
  }

  lemma FirstLetter(p: Pattern)
    ensures p.items != [] ==> Print(p) != "" && Print(p)[0] == p.items[0].c
    ensures p.items == [] ==> Print(p) == if p.end then "$" else ""
  {
  }

  /** A pattern written out is read back exactly when no letter of it would change its meaning. */
  lemma {:induction false} ParsePrint(p: Pattern)
    ensures Parse(Print(p)) == p <==> Writable(p)
    decreases |p.items|
  {
    if Parse(Print(p)) == p { PrintParse(Print(p)); }
    if Writable(p) && p.items != [] {
      var it, q := p.items[0], Pattern(p.items[1..], p.end);
      WritableRest(p);
      ParsePrint(q);
      FirstLetter(q);
      var re := Print(p);
      assert re == Letters(it) + Print(q) && [it] + q.items == p.items;
      if it.Many? {
        assert re[2..] == Print(q);
      } else {
        assert re[1..] == Print(q);
      }
    }
  }

  lemma WritableRest(p: Pattern)
    requires Writable(p) && p.items != []
    ensures Writable(Pattern(p.items[1..], p.end))
  {
    var q := p.items[1..];
    forall i | 0 <= i < |q| - 1 && q[i].One? ensures q[i + 1].c != '*' { assert p.items[i + 1] == q[i] && p.items[i + 2] == q[i + 1]; }
  }

  // ---------------------------------------------------------------- What a first item means

  lemma BeginsNone(end: bool, text: string)
    ensures Begins(Pattern([], end), text) <==> (end ==> text == "")
  {
    assert text[..0] == "";
  }

  lemma BeginsOne(c: char, p: Pattern, text: string)
    ensures Begins(Pattern([One(c)] + p.items, p.end), text)
       <==> text != "" && CharOk(c, text[0]) && Begins(p, text[1..])
  {
    var items := [One(c)] + p.items;
    assert items[1..] == p.items;
    if b :| 0 <= b <= |text| && InLanguage(items, text[..b]) && (p.end ==> b == |text|) {
      var k :| 0 <= k <= b && ItemOk(One(c), text[..b][..k]) && InLanguage(p.items, text[..b][k..]);
      assert text[..b][1..] == text[1..][..b - 1];
    }
    if text != "" && CharOk(c, text[0]) && Begins(p, text[1..]) {
      var b :| 0 <= b <= |text[1..]| && InLanguage(p.items, text[1..][..b]) && (p.end ==> b == |text[1..]|);
      var m := text[..b + 1];
      assert m[1..] == text[1..][..b] && ItemOk(One(c), m[..1]);
    }
  }

  /** k characters of the text can go to the starred character c. */
  predicate Run(c: char, text: string, k: nat) {
    k <= |text| && forall i :: 0 <= i < k ==> CharOk(c, text[i])
  }

  lemma BeginsMany(c: char, p: Pattern, text: string)
    ensures Begins(Pattern([Many(c)] + p.items, p.end), text)
       <==> exists k :: 0 <= k <= |text| && Run(c, text, k) && Begins(p, text[k..])
  {
    var items := [Many(c)] + p.items;
    assert items[1..] == p.items;
    if b :| 0 <= b <= |text| && InLanguage(items, text[..b]) && (p.end ==> b == |text|) {
      var k :| 0 <= k <= b && ItemOk(Many(c), text[..b][..k]) && InLanguage(p.items, text[..b][k..]);
      assert text[..b][k..] == text[k..][..b - k];
      assert Run(c, text, k) by { assert forall i :: 0 <= i < k ==> text[i] == text[..b][..k][i]; }
      assert Begins(p, text[k..]);
    }
    if k :| 0 <= k <= |text| && Run(c, text, k) && Begins(p, text[k..]) {
      var b :| 0 <= b <= |text[k..]| && InLanguage(p.items, text[k..][..b]) && (p.end ==> b == |text[k..]|);
      var m := text[..k + b];
      assert m[k..] == text[k..][..b] && ItemOk(Many(c), m[..k]);
      assert InLanguage(items, m);
    }
  }

  // ---------------------------------------------------------------- The matcher

  /** matchhere: does the text start with a match? */
  method MatchHere(re: string, text: string) returns (r: bool)
    ensures r <==> Begins(Parse(re), text)
    decreases |re|, 0
  {
    if re == "" {
      BeginsNone(false, text);
      return true;
    }
    if |re| > 1 && re[1] == '*' {
      BeginsMany(re[0], Parse(re[2..]), text);
      r := MatchStar(re[0], re[2..], text);
      return;
    }
    if re[0] == '$' && |re| == 1 {
      BeginsNone(true, text);
      return text == "";
    }
    BeginsOne(re[0], Parse(re[1..]), text);
    if text != "" && (re[0] == '.' || re[0] == text[0]) {
      r := MatchHere(re[1..], text[1..]);
      return;
    }
    return false;
  }

  /** matchstar: some characters c, and then a match of re? */
  method MatchStar(c: char, re: string, text: string) returns (r: bool)
    ensures r <==> exists k :: 0 <= k <= |text| && Run(c, text, k) && Begins(Parse(re), text[k..])
    decreases |re|, 1
  {
    var i := 0;
    while true
      invariant 0 <= i <= |text| && Run(c, text, i)
      invariant forall k :: 0 <= k < i ==> !Begins(Parse(re), text[k..])
      decreases |text| - i
    {
      r := MatchHere(re, text[i..]);
      if r { return; }
      if i == |text| || !(text[i] == c || c == '.') { break; }
      i := i + 1;
    }
    forall k | i < k <= |text| ensures !Run(c, text, k) { assert !CharOk(c, text[i]); }
  }

  /** The text contains a match; a leading '^' ties it to the start. */
  ghost predicate Contains(re: string, text: string) {
    if re != "" && re[0] == '^' then exists b :: MatchAt(Parse(re[1..]), text, 0, b)
    else exists a, b :: MatchAt(Parse(re), text, a, b)
  }

  lemma BeginsAt(p: Pattern, text: string, a: nat)
    requires a <= |text|
    ensures Begins(p, text[a..]) <==> exists b :: MatchAt(p, text, a, b)
  {
    if b :| 0 <= b <= |text[a..]| && InLanguage(p.items, text[a..][..b]) && (p.end ==> b == |text[a..]|) {
      assert text[a..][..b] == text[a..a + b];
      assert MatchAt(p, text, a, a + b);
    }
    if b :| MatchAt(p, text, a, b) {
      assert text[a..][..b - a] == text[a..b];
    }
  }

  /** match: does the text contain a match anywhere? */
  method Match(re: string, text: string) returns (r: bool)
    ensures r <==> Contains(re, text)
  {
    if re != "" && re[0] == '^' {
      assert text[0..] == text;
      BeginsAt(Parse(re[1..]), text, 0);
      r := MatchHere(re[1..], text);
      return;
    }
    var i := 0;
    while true
      invariant 0 <= i <= |text|
      invariant forall a, b :: 0 <= a < i ==> !MatchAt(Parse(re), text, a, b)
      decreases |text| - i
    {
      BeginsAt(Parse(re), text, i);
      r := MatchHere(re, text[i..]);
      if r { return; }
      if i == |text| { break; }
      i := i + 1;
    }
  }
}
