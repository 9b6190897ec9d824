/** Statements of nvptx-as: stretches of the token buffer, and how they are
    printed. */
module Statements {
  import opened Common
  import opened Tokenizer

  /** What a statement is; the low bits of its flags. Headers combine the bits of
      variables and functions. */
  const DOT := 0
  const VAR := 1
  const FUNC := 2
  const INSN := 3
  const LABEL := 4
  const COMMENT := 5
  const PRED := 6

  datatype Vis = Vis(form: nat, global: bool, weak: bool, noEol: bool, prefixComment: bool)

  function Plain(form: nat): Vis {
    Vis(form, false, false, false, false)
  }

  /** The tokens from `lo` up to `hi`. */
  datatype Stmt = Stmt(vis: Vis, lo: nat, hi: nat)

  // Printing

  /** A string's contents with every backslash doubled. */
  function Doubled(s: string): string {
    if s == "" then "" else (if s[0] == '\\' then "\\\\" else [s[0]]) + Doubled(s[1..])
  }

  /** `s` with one of each two backslashes that follow each other. */
  function Halved(s: string): string {
    if s == "" then "" else [s[0]] + Halved(if "\\\\" <= s then s[2..] else s[1..])
  }

  /** Doubling adds one character for each backslash and can be undone. */
  lemma {:induction false} DoubledBack(s: string)
    ensures Halved(Doubled(s)) == s && |Doubled(s)| == |s| + multiset(s)['\\']
  {
    if s != "" {
      DoubledBack(s[1..]);
      assert s == [s[0]] + s[1..];
      HalvedOnce(s[0], Doubled(s[1..]));
    }
  }

  lemma HalvedOnce(c: char, d: string)
    ensures Halved((if c == '\\' then "\\\\" else [c]) + d) == [c] + Halved(d)
  {
    if c == '\\' {
      assert ("\\\\" + d)[2..] == d;
    } else {
      assert ([c] + d)[1..] == d;
    }
  }

  /** The text of a token; a string has its quotes. */
  function Printed(tok: Token): string {
    if tok.kind == String && |tok.text| >= 2 then "\"" + Doubled(tok.text[1..|tok.text| - 1]) + "\"" else tok.text
  }

  function TokenText(tok: Token): string {
    (if tok.space then " " else "") + Printed(tok) + (if tok.end then "\n" else "")
  }

  function StmtTokens(vis: Vis, toks: seq<Token>): string {
    if toks == [] then ""
    else StmtTokens(vis, toks[..|toks| - 1]) + (if vis.form == COMMENT then "//" else "") + TokenText(toks[|toks| - 1])
  }

  predicate InTokens(toks: seq<Token>, stmts: seq<Stmt>) {
    forall i :: 0 <= i < |stmts| ==> stmts[i].lo <= stmts[i].hi <= |toks|
  }

  function StmtText(toks: seq<Token>, s: Stmt): string
    requires s.lo <= s.hi <= |toks|
  {
    StmtTokens(s.vis, toks[s.lo..s.hi]) + (if s.vis.form == PRED then " " else "")
  }

  function StmtsText(toks: seq<Token>, stmts: seq<Stmt>): string
    requires InTokens(toks, stmts)
  {
    if stmts == [] then ""
    else StmtsText(toks, stmts[..|stmts| - 1]) + StmtText(toks, stmts[|stmts| - 1])
  }

  /** Text without backslashes is copied. */
  lemma {:induction false} DoubledPlain(a: string, b: string)
    requires '\\' !in a
    ensures Doubled(a + b) == a + Doubled(b)
  {
    if a == "" {
      assert a + b == b;
    } else {
      assert (a + b)[1..] == a[1..] + b;
      DoubledPlain(a[1..], b);
    }
  }

  lemma DoubledSame(s: string)
    ensures '\\' !in s ==> Doubled(s) == s
  {
    if '\\' !in s {
      DoubledPlain(s, "");
    }
    assert s + "" == s;
  }

  /** The next backslash from `c` on, or the end. */
  method FindBackslash(contents: string, c: nat) returns (l: nat)
    requires c <= |contents|
    ensures c <= l <= |contents| && Doubled(contents[c..]) == contents[c..l] + Doubled(contents[l..])
    ensures l < |contents| ==> contents[l] == '\\'
  {
    l := c;
    while l < |contents| && contents[l] != '\\'
      invariant c <= l <= |contents| && '\\' !in contents[c..l]
    {
      l := l + 1;
    }
    assert contents[c..] == contents[c..l] + contents[l..];
    DoubledPlain(contents[c..l], contents[l..]);
  }

  /** Copying up to a backslash, and doubling it. */
  lemma DoubledStep(contents: string, c: nat, l: nat)
    requires c <= l < |contents| && contents[l] == '\\'
      && Doubled(contents[c..]) == contents[c..l] + Doubled(contents[l..])
    ensures Doubled(contents[c..]) == contents[c..l] + "\\\\" + Doubled(contents[l + 1..])
  {
    assert contents[l..][1..] == contents[l + 1..];
    assert Doubled(contents[l..]) == "\\\\" + Doubled(contents[l + 1..]);
  }

  /** Writes a string's contents. */
  method WriteEscaped(contents: string) returns (out: string)
    ensures out == Doubled(contents)
  {
    hide Doubled;
    out := "";
    var c := 0;
    assert contents[0..] == contents;
    while c < |contents|
      invariant c <= |contents| && Doubled(contents) == out + Doubled(contents[c..])
    {
      var l := FindBackslash(contents, c);
      if l < |contents| {
        DoubledStep(contents, c, l);
        out := out + (contents[c..l] + "\\\\");
        c := l + 1;
      } else {
        out := out + contents[c..l];
        c := l;
      }
    }
    DoubledSame(contents[c..]);
  }

  method WriteText(out: string, tok: Token) returns (out': string)
    requires tok.kind == String ==> |tok.text| >= 2
    ensures out' == out + Printed(tok)
  {
    hide Doubled;
    if tok.kind == String {
      var contents := WriteEscaped(tok.text[1..|tok.text| - 1]);
      out' := out + ("\"" + contents + "\"");
    } else {
      out' := out + tok.text;
    }
  }

  method WriteToken(out: string, tok: Token) returns (out': string)
    requires tok.kind == String ==> |tok.text| >= 2
    ensures out' == out + TokenText(tok)
  {
    hide Printed;
    out' := out;
    if tok.space {
      out' := out' + " ";
    }
    out' := WriteText(out', tok);
    if tok.end {
      out' := out' + "\n";
    }
  }

  /** Strings hold both their quotes. */
  predicate QuotedStrings(toks: seq<Token>) {
    forall i :: 0 <= i < |toks| && toks[i].kind == String ==> |toks[i].text| >= 2
  }

  method WriteStmt(out: string, toks: seq<Token>, stmt: Stmt) returns (out': string)
    requires stmt.lo <= stmt.hi <= |toks| && QuotedStrings(toks)
    ensures out' == out + StmtText(toks, stmt)
  {
    hide TokenText, StmtTokens;
    out' := out;
    var tok := stmt.lo;
    NoTokens(stmt.vis);
    assert toks[stmt.lo..tok] == [] && out + "" == out;
    while tok < stmt.hi
      invariant stmt.lo <= tok <= stmt.hi && out' == out + StmtTokens(stmt.vis, toks[stmt.lo..tok])
    {
      ghost var before, slashes := StmtTokens(stmt.vis, toks[stmt.lo..tok]), if stmt.vis.form == COMMENT then "//"
        else "";
      NextToken(stmt.vis, toks, stmt.lo, tok);
      AppendAssociates(out, before, slashes);
      AppendAssociates(out, before + slashes, TokenText(toks[tok]));
      assert out' + "" == out';
      if stmt.vis.form == COMMENT {
        out' := out' + "//";
      }
      out' := WriteToken(out', toks[tok]);
      tok := tok + 1;
    }
    AppendAssociates(out, StmtTokens(stmt.vis, toks[stmt.lo..stmt.hi]), if stmt.vis.form == PRED then " " else "");
    assert out' + "" == out';
    if stmt.vis.form == PRED {
      out' := out' + " ";
    }
  }

  lemma NoTokens(vis: Vis)
    ensures StmtTokens(vis, []) == ""
  {
  }

  lemma {:induction false} NextToken(vis: Vis, toks: seq<Token>, lo: nat, tok: nat)
    requires lo <= tok < |toks|
    ensures StmtTokens(vis, toks[lo..tok + 1]) ==
      StmtTokens(vis, toks[lo..tok]) + (if vis.form == COMMENT then "//" else "") + TokenText(toks[tok])
  {
    hide TokenText;
    assert toks[lo..tok + 1][..tok - lo] == toks[lo..tok];
  }
}
