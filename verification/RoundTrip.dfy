/** Tokenising what nvptx-as prints gives back the tokens printed. */
module RoundTrip {
  import opened Common
  import opened Tokenizer
  import opened Statements
  import opened Lexemes
  import opened ParserSpec
  import opened ParserFacts
  import opened Conservation

  /** A token as printed: with slashes before it, or a blank after it. */
  datatype Unit = Unit(tok: Token, slashes: bool, gap: bool)

  function UnitText(u: Unit): string {
    (if u.slashes then "//" else "") + TokenText(u.tok) + (if u.gap then " " else "")
  }

  function Text(us: seq<Unit>): string {
    if us == [] then "" else UnitText(us[0]) + Text(us[1..])
  }

  /** The unit is a comment line, or another token. */
  predicate UnitOk(u: Unit) {
    && |u.tok.text| <= MAX_LENGTH
    && if u.slashes then u.tok.kind == Comment && !u.tok.space && u.tok.end && !u.gap && '\n' !in u.tok.text
       else Lexeme(u.tok.kind, u.tok.text) && u.tok.text[0] <= (127 as char)
  }

  /** The unit's token is printed as it is. */
  predicate AsIs(u: Unit) {
    u.slashes || Printed(u.tok) == u.tok.text
  }

  predicate AllAsIs(us: seq<Unit>) {
    forall i :: 0 <= i < |us| ==> AsIs(us[i])
  }

  /** What the text of a unit begins with, blanks aside. */
  function FirstChar(u: Unit): char {
    if u.slashes || u.tok.text == "" then '/' else u.tok.text[0]
  }

  predicate Apart(u: Unit, v: Unit) {
    u.tok.end || u.gap || v.tok.space || (u.tok.text != "" && StaysApart(u.tok.kind, u.tok.text, FirstChar(v)))
  }

  predicate UnitsOk(us: seq<Unit>) {
    && (forall i :: 0 <= i < |us| ==> UnitOk(us[i]))
    && (forall i :: 0 <= i < |us| - 1 ==> Apart(us[i], us[i + 1]))
  }

  predicate AllBlank(b: string) {
    forall i :: 0 <= i < |b| ==> IsBlank(b[i])
  }

  lemma {:induction false} SkipsBlanks(b: string, s: string)
    requires AllBlank(b) && (s != "" ==> !IsBlank(s[0]))
    ensures SkipBlanks(b + s) == s
  {
    if b == "" {
      assert b + s == s;
    } else {
      assert (b + s)[1..] == b[1..] + s;
      SkipsBlanks(b[1..], s);
    }
  }

  lemma {:induction false} LineIs(text: string, rest: string)
    requires '\n' !in text
    ensures LineLength(text + "\n" + rest) == |text|
  {
    if text == "" {
      assert (text + "\n" + rest)[0] == '\n';
    } else {
      assert (text + "\n" + rest)[1..] == text[1..] + "\n" + rest;
      LineIs(text[1..], rest);
    }
  }

  lemma ReadComment(text: string, rest: string)
    requires '\n' !in text
    ensures ReadToken("//" + text + "\n" + rest) == Piece(Comment, text, "\n" + rest, false)
  {
    var s := "//" + text + "\n" + rest;
    LineIs(text, rest);
    assert s[2..] == text + "\n" + rest;
    assert s[2..][..|text|] == text && s[2..][|text|..] == "\n" + rest;
  }

  /** Blanks keep tokens apart. */
  lemma BlankApart(kind: Kind, text: string, c: char)
    requires Lexeme(kind, text) && IsBlank(c)
    ensures StaysApart(kind, text, c)
  {
  }

  /** How the text of units begins. */
  lemma TextStarts(us: seq<Unit>)
    requires UnitsOk(us) && us != []
    ensures Text(us) != "" && Text(us)[0] == if us[0].tok.space && !us[0].slashes then ' ' else FirstChar(us[0])
  {
    hide Lexeme;
    var u := us[0];
    assert UnitOk(u);
    if !u.slashes {
      LexemeStarts(u.tok.kind, u.tok.text);
      PrintedStarts(u.tok);
    }
  }

  lemma PrintedStarts(tok: Token)
    requires Lexeme(tok.kind, tok.text)
    ensures Printed(tok) != "" && Printed(tok)[0] == tok.text[0]
  {
  }

  function KindText(us: seq<Unit>): (ks: seq<(Kind, string)>)
    ensures |ks| == |us| && forall i :: 0 <= i < |us| ==> ks[i] == (us[i].tok.kind, us[i].tok.text)
  {
    seq(|us|, i requires 0 <= i < |us| => (us[i].tok.kind, us[i].tok.text))
  }

  function RawKindText(raws: seq<Raw>): (ks: seq<(Kind, string)>)
    ensures |ks| == |raws| && forall i :: 0 <= i < |raws| ==> ks[i] == (raws[i].kind, raws[i].text)
  {
    seq(|raws|, i requires 0 <= i < |raws| => (raws[i].kind, raws[i].text))
  }

  /** Tokenising gives these tokens, and the terminator. */
  predicate LexesTo(s: string, notComment: bool, ks: seq<(Kind, string)>) {
    Lex(s, false, notComment).Tokens? && RawKindText(Lex(s, false, notComment).raws) == ks + [(Eof, "")]
  }

  /** The first token of a text that begins with blanks `b`. */
  lemma LexStep(b: string, s: string, notComment: bool) returns (raw: Raw)
    requires AllBlank(b) && s != "" && !IsBlank(s[0]) && s[0] <= (127 as char)
    requires ReadToken(s).Piece? && !ReadToken(s).more && |ReadToken(s).text| <= MAX_LENGTH
    ensures var Piece(kind, text, rest, _) := ReadToken(s);
            && raw.kind == kind && raw.text == text
            && Lex(b + s, false, notComment) == Prepend(raw, Lex(rest, false, kind != Comment))
  {
    hide ReadToken, StartsDotted, LineEnds;
    SkipsBlanks(b, s);
    var Piece(kind, text, rest, _) := ReadToken(s);
    raw := Raw(kind, text, if StartsDotted(s) then notComment else |s| < |b + s| && notComment, LineEnds(b + s));
  }

  lemma KindTextFirst(raw: Raw, raws: seq<Raw>, ks: seq<(Kind, string)>)
    requires RawKindText(raws) == ks + [(Eof, "")]
    ensures RawKindText([raw] + raws) == [(raw.kind, raw.text)] + ks + [(Eof, "")]
  {
    assert RawKindText([raw] + raws) == [(raw.kind, raw.text)] + RawKindText(raws);
    assert [(raw.kind, raw.text)] + (ks + [(Eof, "")]) == [(raw.kind, raw.text)] + ks + [(Eof, "")];
  }

  lemma LexOne(b: string, s: string, notComment: bool, kind: Kind, text: string, rest: string, ks: seq<(Kind, string)>)
    requires AllBlank(b) && s != "" && !IsBlank(s[0]) && s[0] <= (127 as char) && |text| <= MAX_LENGTH
    requires ReadToken(s) == Piece(kind, text, rest, false) && LexesTo(rest, kind != Comment, ks)
    ensures LexesTo(b + s, notComment, [(kind, text)] + ks)
  {
    hide ReadToken, Lex, RawKindText;
    var raw := LexStep(b, s, notComment);
    KindTextFirst(raw, Lex(rest, false, kind != Comment).raws, ks);
  }

  lemma LexNone(b: string, notComment: bool)
    requires AllBlank(b)
    ensures LexesTo(b, notComment, [])
  {
    SkipsBlanks(b, "");
    assert b + "" == b;
  }

  lemma LexCommentUnit(b: string, u: Unit, rest: string, notComment: bool, ks: seq<(Kind, string)>)
    requires AllBlank(b) && UnitOk(u) && u.slashes && LexesTo("\n" + rest, false, ks)
    ensures LexesTo(b + (UnitText(u) + rest), notComment, [(Comment, u.tok.text)] + ks)
  {
    hide ReadToken, LexesTo;
    ReadComment(u.tok.text, rest);
    var s := "//" + u.tok.text + "\n" + rest;
    assert UnitText(u) + rest == s;
    LexOne(b, s, notComment, Comment, u.tok.text, "\n" + rest, ks);
  }

  function AfterText(u: Unit): string {
    (if u.tok.end then "\n" else "") + (if u.gap then " " else "")
  }

  function BeforeText(u: Unit): string {
    if u.tok.space then " " else ""
  }

  /** The text of a token that is no comment, with blanks `b` before it. */
  lemma TokenUnitText(b: string, u: Unit, rest: string)
    requires AllBlank(b) && !u.slashes
    ensures b + (UnitText(u) + rest) == (b + BeforeText(u)) + (Printed(u.tok) + (AfterText(u) + rest))
    ensures AllBlank(b + BeforeText(u))
  {
    hide Printed;
    var x := BeforeText(u) + (Printed(u.tok) + (AfterText(u) + rest));
    assert UnitText(u) + rest == x;
  }

  lemma CommentUnitText(u: Unit, rest: string)
    requires UnitOk(u) && u.slashes
    ensures UnitText(u) + rest == "//" + u.tok.text + "\n" + rest
  {
  }

  lemma LexTokenUnit(b: string, u: Unit, rest: string, notComment: bool, ks: seq<(Kind, string)>)
    requires AllBlank(b) && UnitOk(u) && AsIs(u) && !u.slashes && LexesTo(AfterText(u) + rest, true, ks)
    requires EndsBefore(u.tok.kind, u.tok.text, AfterText(u) + rest)
    ensures LexesTo(b + (UnitText(u) + rest), notComment, [(u.tok.kind, u.tok.text)] + ks)
  {
    hide ReadToken, LexesTo, Lexeme, EndsBefore, UnitText, AfterText, BeforeText, Printed;
    LexemeStarts(u.tok.kind, u.tok.text);
    var after := AfterText(u) + rest;
    ReadBack(u.tok.kind, u.tok.text, after);
    TokenUnitText(b, u, rest);
    LexOne(b + BeforeText(u), u.tok.text + after, notComment, u.tok.kind, u.tok.text, after, ks);
  }

  /** Whatever blanks come first, the units' text is tokenised into the units. */
  lemma {:induction false} LexUnits(b: string, us: seq<Unit>, notComment: bool)
    requires AllBlank(b) && UnitsOk(us) && AllAsIs(us)
    ensures LexesTo(b + Text(us), notComment, KindText(us))
    decreases |us|
  {
    hide ReadToken, Lexeme, StaysApart, LexesTo, UnitText, EndsBefore, UnitOk;
    if us == [] {
      LexNone(b, notComment);
      assert b + "" == b && KindText(us) == [];
    } else {
      var u, rest := us[0], us[1..];
      UnitsTail(us);
      assert KindText(us) == [(u.tok.kind, u.tok.text)] + KindText(rest);
      LexUnits(if u.slashes then "\n" else AfterText(u), rest, !u.slashes);
      if u.slashes {
        SlashesAreComments(u);
        LexCommentUnit(b, u, Text(rest), notComment, KindText(rest));
      } else {
        UnitEnds(us, AfterText(u));
        LexTokenUnit(b, u, Text(rest), notComment, KindText(rest));
      }
    }
  }

  lemma SlashesAreComments(u: Unit)
    requires UnitOk(u) && u.slashes
    ensures u.tok.kind == Comment
  {
  }

  lemma UnitsTail(us: seq<Unit>)
    requires UnitsOk(us) && us != []
    ensures UnitsOk(us[1..]) && UnitOk(us[0])
  {
    hide UnitOk;
    var rest := us[1..];
    forall i {:trigger rest[i]} | 0 <= i < |rest| - 1
      ensures UnitOk(rest[i]) && UnitOk(rest[i + 1]) && Apart(rest[i], rest[i + 1]) {
      assert Apart(us[i + 1], us[i + 2]);
    }
  }

  /** A unit's token ends before what is printed after it. */
  lemma UnitEnds(us: seq<Unit>, after: string)
    requires UnitsOk(us) && us != [] && !us[0].slashes && after == AfterText(us[0])
    ensures us[0].tok.text != "" && EndsBefore(us[0].tok.kind, us[0].tok.text, after + Text(us[1..]))
  {
    hide Lexeme, StaysApart, Text;
    var u, rest := us[0], us[1..];
    assert UnitOk(u);
    LexemeStarts(u.tok.kind, u.tok.text);
    if after != "" {
      assert IsBlank(after[0]) && (after + Text(rest))[0] == after[0];
      BlankApart(u.tok.kind, u.tok.text, after[0]);
    } else if rest != [] {
      assert after + Text(rest) == Text(rest);
      UnitsTail(us);
      TextStarts(rest);
      assert Apart(u, us[1]);
      BlankApart(u.tok.kind, u.tok.text, ' ');
    } else {
      assert after + Text(rest) == "" by { NoText(); }
    }
  }

  lemma NoText()
    ensures Text([]) == ""
  {
  }

  // The other way: a token that is not printed as it is does not come back

  function Backslashes(m: nat): string {
    if m == 0 then "" else "\\" + Backslashes(m - 1)
  }

  /** Doubling shifts what follows, so the closing quote is not where it was. */
  lemma {:induction false} QuoteMoved(y: string, m: nat, z: string)
    requires m > 0
    ensures !(y + "\"" <= Backslashes(m) + Doubled(y) + z)
    decreases |y|
  {
    var p, q := y + "\"", Backslashes(m) + Doubled(y) + z;
    assert q[0] == '\\';
    if p <= q {
      assert p[0] == '\\';
      assert p[1..] <= q[1..];
      assert p[1..] == y[1..] + "\"";
      BackslashAfter(m - 1);
      assert q[1..] == Backslashes(m + 1) + Doubled(y[1..]) + z by {
        assert Doubled(y) == "\\\\" + Doubled(y[1..]);
        assert Backslashes(m) == "\\" + Backslashes(m - 1);
      }
      QuoteMoved(y[1..], m + 1, z);
    }
  }

  lemma {:induction false} BackslashAfter(m: nat)
    ensures Backslashes(m) + "\\\\" == Backslashes(m + 2)
  {
    if m > 0 {
      BackslashAfter(m - 1);
      assert Backslashes(m) + "\\\\" == "\\" + (Backslashes(m - 1) + "\\\\");
    }
  }

  lemma {:induction false} FirstBackslash(s: string) returns (a: string, y: string)
    requires '\\' in s
    ensures '\\' !in a && s == a + "\\" + y
  {
    if s[0] == '\\' {
      a, y := "", s[1..];
    } else {
      a, y := FirstBackslash(s[1..]);
      a := [s[0]] + a;
    }
  }

  /** Cut after its first backslash, a string and what is printed of it. */
  lemma SplitAtBackslash(inner: string, rest: string) returns (head: string, y: string)
    requires '\\' in inner
    ensures "\"" + inner + "\"" == head + (y + "\"")
    ensures "\"" + Doubled(inner) + "\"" + rest == head + ("\\" + Doubled(y) + ("\"" + rest))
  {
    var a;
    a, y := FirstBackslash(inner);
    head := "\"" + a + "\\";
    DoubledPlain(a, "\\" + y);
    assert inner == a + ("\\" + y);
    assert Doubled("\\" + y) == "\\\\" + Doubled(y) by { assert ("\\" + y)[1..] == y; }
  }

  lemma PrefixTail(head: string, a: string, b: string)
    ensures head + a <= head + b ==> a <= b
  {
    var p, q := head + a, head + b;
    assert p[|head|..] == a && q[|head|..] == b;
    if p <= q { assert q[..|p|] == p; }
  }

  /** A string with a backslash is not what is read back. */
  lemma DoubledNotBack(inner: string, rest: string)
    requires '\\' in inner
    ensures !("\"" + inner + "\"" <= "\"" + Doubled(inner) + "\"" + rest)
  {
    hide Doubled;
    var head, y := SplitAtBackslash(inner, rest);
    PrefixTail(head, y + "\"", "\\" + Doubled(y) + ("\"" + rest));
    assert Backslashes(1) == "\\" by { assert Backslashes(0) == ""; }
    QuoteMoved(y, 1, "\"" + rest);
  }

  /** If the tokens of a text are known, so is its first one. */
  lemma LexOneBack(b: string, s: string, notComment: bool, kind: Kind, text: string, ks: seq<(Kind, string)>)
    requires AllBlank(b) && s != "" && !IsBlank(s[0])
    requires LexesTo(b + s, notComment, [(kind, text)] + ks)
    ensures ReadToken(s).Piece? && ReadToken(s).kind == kind && ReadToken(s).text == text
    ensures !ReadToken(s).more ==> LexesTo(ReadToken(s).rest, kind != Comment, ks)
  {
    hide ReadToken, StartsDotted;
    SkipsBlanks(b, s);
    var l := Lex(b + s, false, notComment);
    var all := [(kind, text)] + ks + [(Eof, "")];
    assert RawKindText(l.raws) == all;
    assert all[0] == (kind, text) && all[1..] == ks + [(Eof, "")];
    assert (l.raws[0].kind, l.raws[0].text) == (kind, text);
    var p := ReadToken(s);
    if !p.more {
      var raws := Lex(p.rest, false, kind != Comment).raws;
      assert l.raws == [l.raws[0]] + raws;
      assert RawKindText(raws) == RawKindText(l.raws)[1..];
    }
  }

  lemma StringPrinted(tok: Token)
    requires Lexeme(tok.kind, tok.text) && Printed(tok) != tok.text
    ensures tok.kind == String && |tok.text| >= 2
    ensures var inner := tok.text[1..|tok.text| - 1];
            '\\' in inner && tok.text == "\"" + inner + "\"" && Printed(tok) == "\"" + Doubled(inner) + "\""
  {
    hide Doubled, StringLength, WholeWord;
    if tok.kind == String {
      StringQuoted(tok.text);
      DoubledSame(tok.text[1..|tok.text| - 1]);
    }
  }

  /** A string's text is its contents between quotes. */
  lemma StringQuoted(text: string)
    requires Lexeme(String, text)
    ensures |text| >= 2
    ensures var inner := text[1..|text| - 1];
            text == "\"" + inner + "\"" && ('\\' in text <==> '\\' in inner)
  {
    hide StringLength;
    StringIs(text[1..]);
    var inner := text[1..|text| - 1];
    assert text[|text| - 1] == text[1..][|text| - 2];
    assert text == ['"'] + inner + ['"'];
  }

  lemma ReadPrefix(s: string)
    requires s != "" && s[0] == '"' && ReadToken(s).Piece?
    ensures ReadToken(s).text <= s
  {
  }

  lemma BadUnit(b: string, u: Unit, rest: string, notComment: bool, ks: seq<(Kind, string)>)
    requires AllBlank(b) && UnitOk(u) && !AsIs(u)
    ensures !LexesTo(b + (UnitText(u) + rest), notComment, [(u.tok.kind, u.tok.text)] + ks)
  {
    hide ReadToken, LexesTo, Lexeme, UnitText, AfterText, BeforeText, Doubled;
    StringPrinted(u.tok);
    var inner := u.tok.text[1..|u.tok.text| - 1];
    var after := AfterText(u) + rest;
    var s := Printed(u.tok) + after;
    TokenUnitText(b, u, rest);
    if LexesTo(b + (UnitText(u) + rest), notComment, [(u.tok.kind, u.tok.text)] + ks) {
      LexOneBack(b + BeforeText(u), s, notComment, u.tok.kind, u.tok.text, ks);
      ReadPrefix(s);
      DoubledNotBack(inner, after);
    }
  }

  lemma GoodUnitBack(b: string, us: seq<Unit>, notComment: bool, ks: seq<(Kind, string)>)
    requires AllBlank(b) && UnitsOk(us) && us != [] && AsIs(us[0])
    requires var u := us[0]; LexesTo(b + (UnitText(u) + Text(us[1..])), notComment, [(u.tok.kind, u.tok.text)] + ks)
    ensures var u := us[0]; LexesTo((if u.slashes then "\n" else AfterText(u)) + Text(us[1..]), !u.slashes, ks)
  {
    hide ReadToken, LexesTo, Lexeme, EndsBefore, UnitsOk, UnitText, AfterText, BeforeText, Printed;
    var u, rest := us[0], Text(us[1..]);
    UnitsTail(us);
    if u.slashes {
      ReadComment(u.tok.text, rest);
      CommentUnitText(u, rest);
      LexOneBack(b, "//" + u.tok.text + "\n" + rest, notComment, u.tok.kind, u.tok.text, ks);
    } else {
      LexemeStarts(u.tok.kind, u.tok.text);
      UnitEnds(us, AfterText(u));
      ReadBack(u.tok.kind, u.tok.text, AfterText(u) + rest);
      TokenUnitText(b, u, rest);
      LexOneBack(b + BeforeText(u), u.tok.text + (AfterText(u) + rest), notComment, u.tok.kind, u.tok.text, ks);
    }
  }

  lemma BadTail(us: seq<Unit>)
    requires us != [] && !AllAsIs(us) && AsIs(us[0])
    ensures !AllAsIs(us[1..])
  {
    hide AsIs;
    var i :| 0 <= i < |us| && !AsIs(us[i]);
    assert us[1..][i - 1] == us[i];
  }

  lemma NothingAsIs()
    ensures AllAsIs([])
  {
  }

  lemma {:induction false} UnitsHead(us: seq<Unit>)
    requires us != []
    ensures Text(us) == UnitText(us[0]) + Text(us[1..])
    ensures KindText(us) == [(us[0].tok.kind, us[0].tok.text)] + KindText(us[1..])
  {
  }

  /** A unit that is not printed as it is spoils the tokens. */
  lemma {:induction false} LexFails(b: string, us: seq<Unit>, notComment: bool)
    requires AllBlank(b) && UnitsOk(us) && !AllAsIs(us)
    ensures !LexesTo(b + Text(us), notComment, KindText(us))
    decreases |us|
  {
    hide ReadToken, Lexeme, StaysApart, LexesTo, UnitText, UnitOk, UnitsOk, AsIs, AllAsIs, Text, KindText;
    assert us != [] by { NothingAsIs(); }
    var u, rest := us[0], us[1..];
    UnitsTail(us);
    UnitsHead(us);
    if AsIs(u) {
      BadTail(us);
      LexFails(if u.slashes then "\n" else AfterText(u), rest, !u.slashes);
      if LexesTo(b + Text(us), notComment, KindText(us)) {
        GoodUnitBack(b, us, notComment, KindText(rest));
      }
    } else {
      BadUnit(b, u, Text(rest), notComment, KindText(rest));
    }
  }

  // Statements as units

  function UnitAt(t: seq<Token>, s: Stmt, i: nat): Unit
    requires s.lo <= i < s.hi <= |t|
  {
    Unit(t[i], s.vis.form == COMMENT, i + 1 == s.hi && s.vis.form == PRED)
  }

  function UnitsOf(t: seq<Token>, s: Stmt): (us: seq<Unit>)
    requires s.lo <= s.hi <= |t|
    ensures |us| == s.hi - s.lo && forall k :: 0 <= k < |us| ==> us[k] == UnitAt(t, s, s.lo + k)
  {
    seq(s.hi - s.lo, k requires 0 <= k < s.hi - s.lo => UnitAt(t, s, s.lo + k))
  }

  function AllUnits(t: seq<Token>, ss: seq<Stmt>): seq<Unit>
    requires InTokens(t, ss)
  {
    if ss == [] then [] else AllUnits(t, ss[..|ss| - 1]) + UnitsOf(t, ss[|ss| - 1])
  }

  lemma {:induction false} TextAppend(a: seq<Unit>, b: seq<Unit>)
    ensures Text(a + b) == Text(a) + Text(b)
  {
    hide UnitText;
    if a == [] {
      assert a + b == b;
    } else {
      assert (a + b)[1..] == a[1..] + b;
      TextAppend(a[1..], b);
    }
  }

  lemma TextOne(u: Unit)
    ensures Text([u]) == UnitText(u)
  {
  }

  lemma PlainUnitText(u: Unit)
    requires !u.gap
    ensures UnitText(u) == (if u.slashes then "//" else "") + TokenText(u.tok)
  {
  }

  lemma {:induction false} TokensText(t: seq<Token>, s: Stmt, m: nat)
    requires s.lo <= m <= s.hi <= |t| && (s.vis.form == PRED ==> m < s.hi)
    ensures Text(UnitsOf(t, s)[..m - s.lo]) == StmtTokens(s.vis, t[s.lo..m])
    decreases m
  {
    hide TokenText, UnitText, Text;
    if s.lo == m {
      NoText();
    } else {
      TokensText(t, s, m - 1);
      var us := UnitsOf(t, s)[..m - s.lo];
      assert us == UnitsOf(t, s)[..m - 1 - s.lo] + [UnitAt(t, s, m - 1)];
      TextAppend(UnitsOf(t, s)[..m - 1 - s.lo], [UnitAt(t, s, m - 1)]);
      TextOne(UnitAt(t, s, m - 1));
      PlainUnitText(UnitAt(t, s, m - 1));
      assert t[s.lo..m][..m - 1 - s.lo] == t[s.lo..m - 1];
    }
  }

  /** A statement's text is that of its units. */
  lemma StmtUnits(t: seq<Token>, s: Stmt)
    requires s.lo < s.hi <= |t|
    ensures StmtText(t, s) == Text(UnitsOf(t, s))
  {
    hide TokenText, Text;
    if s.vis.form == PRED {
      var m := s.hi - 1;
      TokensText(t, s, m);
      var us := UnitsOf(t, s);
      assert us == us[..m - s.lo] + [UnitAt(t, s, m)];
      TextAppend(us[..m - s.lo], [UnitAt(t, s, m)]);
      TextOne(UnitAt(t, s, m));
      assert t[s.lo..s.hi][..m - s.lo] == t[s.lo..m];
    } else {
      TokensText(t, s, s.hi);
      assert UnitsOf(t, s)[..s.hi - s.lo] == UnitsOf(t, s);
    }
  }

  lemma {:induction false} StmtsUnits(t: seq<Token>, ss: seq<Stmt>)
    requires InTokens(t, ss) && forall i :: 0 <= i < |ss| ==> ss[i].lo < ss[i].hi
    ensures StmtsText(t, ss) == Text(AllUnits(t, ss))
  {
    hide StmtText, Text;
    if ss == [] {
      NoText();
    } else {
      var n := |ss| - 1;
      StmtsUnits(t, ss[..n]);
      StmtUnits(t, ss[n]);
      TextAppend(AllUnits(t, ss[..n]), UnitsOf(t, ss[n]));
    }
  }

  /** A statement's own units are fine. */
  predicate StmtFine(t: seq<Token>, s: Stmt) {
    s.lo < s.hi <= |t| && UnitsOk(UnitsOf(t, s))
  }

  /** Two statements printed one after the other stay apart. */
  predicate NextFine(t: seq<Token>, a: Stmt, b: Stmt) {
    a.lo < a.hi <= |t| && b.lo < b.hi <= |t| && Apart(UnitAt(t, a, a.hi - 1), UnitAt(t, b, b.lo))
  }

  predicate AllFine(t: seq<Token>, ss: seq<Stmt>) {
    && (forall j :: 0 <= j < |ss| ==> StmtFine(t, ss[j]))
    && (forall j {:trigger ss[j]} :: 0 <= j < |ss| - 1 ==> NextFine(t, ss[j], ss[j + 1]))
  }

  lemma UnitsAppend(a: seq<Unit>, b: seq<Unit>)
    requires UnitsOk(a) && UnitsOk(b) && (a != [] && b != [] ==> Apart(a[|a| - 1], b[0]))
    ensures UnitsOk(a + b)
  {
    hide UnitOk, Apart;
    var us := a + b;
    forall i {:trigger us[i]} | 0 <= i < |us| - 1 ensures Apart(us[i], us[i + 1]) {
      if i + 1 < |a| {
        assert Apart(a[i], a[i + 1]);
      } else if i >= |a| {
        assert us[i] == b[i - |a|] && us[i + 1] == b[i + 1 - |a|];
        assert Apart(b[i - |a|], b[i + 1 - |a|]);
      }
    }
  }

  lemma AllFineInit(t: seq<Token>, ss: seq<Stmt>)
    requires AllFine(t, ss)
    ensures InTokens(t, ss)
    ensures ss != [] ==>
      var n := |ss| - 1;
      AllFine(t, ss[..n]) && StmtFine(t, ss[n]) && (n > 0 ==> NextFine(t, ss[n - 1], ss[n]))
  {
    hide UnitsOk, NextFine;
    assert forall j :: 0 <= j < |ss| ==> StmtFine(t, ss[j]);
    if |ss| > 1 { assert NextFine(t, ss[|ss| - 2], ss[|ss| - 1]); }
  }

  /** The last unit of statements. */
  lemma LastUnit(t: seq<Token>, ss: seq<Stmt>)
    requires InTokens(t, ss) && ss != [] && ss[|ss| - 1].lo < ss[|ss| - 1].hi
    ensures var us := AllUnits(t, ss); var s := ss[|ss| - 1]; us != [] && us[|us| - 1] == UnitAt(t, s, s.hi - 1)
  {
  }

  lemma {:induction false} AllUnitsOk(t: seq<Token>, ss: seq<Stmt>)
    requires AllFine(t, ss)
    ensures InTokens(t, ss) && UnitsOk(AllUnits(t, ss))
  {
    hide UnitsOk, Apart, AllFine;
    AllFineInit(t, ss);
    if ss == [] {
      assert UnitsOk([]) by { NoUnits(); }
    } else {
      var n := |ss| - 1;
      AllUnitsOk(t, ss[..n]);
      if n > 0 {
        AllFineInit(t, ss[..n]);
        LastUnit(t, ss[..n]);
      }
      UnitsAppend(AllUnits(t, ss[..n]), UnitsOf(t, ss[n]));
    }
  }

  lemma NoUnits()
    ensures UnitsOk([])
  {
  }

  /** The tokens of the statements, as printed. */
  function StmtKindText(t: seq<Token>, ss: seq<Stmt>): seq<(Kind, string)>
    requires InTokens(t, ss)
  {
    KindText(AllUnits(t, ss))
  }

  /** Every string of the statements is without backslashes. */
  predicate NoBackslashes(t: seq<Token>, s: Stmt) {
    forall i :: s.lo <= i < s.hi && i < |t| && t[i].kind == String ==> '\\' !in t[i].text
  }

  lemma StringAsIs(tok: Token)
    requires Lexeme(tok.kind, tok.text)
    ensures Printed(tok) == tok.text <==> tok.kind == String ==> '\\' !in tok.text
  {
    hide Doubled, Halved, StringLength, WholeWord;
    if tok.kind == String {
      var inner := tok.text[1..|tok.text| - 1];
      StringQuoted(tok.text);
      DoubledSame(inner);
      DoubledBack(inner);
      assert |Printed(tok)| == |Doubled(inner)| + 2;
    }
  }

  lemma StmtAsIs(t: seq<Token>, s: Stmt)
    requires StmtFine(t, s)
    ensures AllAsIs(UnitsOf(t, s)) <==> NoBackslashes(t, s)
  {
    hide AsIs, Lexeme, Printed;
    var us := UnitsOf(t, s);
    forall i | s.lo <= i < s.hi
      ensures AsIs(us[i - s.lo]) <==> t[i].kind == String ==> '\\' !in t[i].text
    {
      UnitAsIs(us[i - s.lo]);
    }
  }

  lemma UnitAsIs(u: Unit)
    requires UnitOk(u)
    ensures AsIs(u) <==> u.tok.kind == String ==> '\\' !in u.tok.text
  {
    if !u.slashes { StringAsIs(u.tok); }
  }

  lemma {:induction false} StmtsAsIs(t: seq<Token>, ss: seq<Stmt>)
    requires InTokens(t, ss) && forall j :: 0 <= j < |ss| ==> StmtFine(t, ss[j])
    ensures AllAsIs(AllUnits(t, ss)) <==> forall j :: 0 <= j < |ss| ==> NoBackslashes(t, ss[j])
  {
    hide AsIs, AllAsIs, StmtFine, NoBackslashes;
    if ss == [] {
      assert AllAsIs([]) by { NothingAsIs(); }
    } else {
      var n := |ss| - 1;
      assert forall j :: 0 <= j < n ==> StmtFine(t, ss[..n][j]);
      StmtsAsIs(t, ss[..n]);
      StmtAsIs(t, ss[n]);
      AsIsAppend(AllUnits(t, ss[..n]), UnitsOf(t, ss[n]));
      OneMoreStmt(t, ss);
    }
  }

  lemma OneMoreStmt(t: seq<Token>, ss: seq<Stmt>)
    requires ss != []
    ensures var n := |ss| - 1;
            (forall j :: 0 <= j < |ss| ==> NoBackslashes(t, ss[j])) <==>
              (forall j :: 0 <= j < n ==> NoBackslashes(t, ss[..n][j])) && NoBackslashes(t, ss[n])
  {
    hide NoBackslashes;
    var n := |ss| - 1;
    if forall j :: 0 <= j < |ss| ==> NoBackslashes(t, ss[j]) {
      forall j | 0 <= j < n ensures NoBackslashes(t, ss[..n][j]) { assert ss[..n][j] == ss[j]; }
    }
    if (forall j :: 0 <= j < n ==> NoBackslashes(t, ss[..n][j])) && NoBackslashes(t, ss[n]) {
      forall j | 0 <= j < |ss| ensures NoBackslashes(t, ss[j]) { if j < n { assert ss[..n][j] == ss[j]; } }
    }
  }

  lemma AsIsAppend(a: seq<Unit>, b: seq<Unit>)
    ensures AllAsIs(a + b) <==> AllAsIs(a) && AllAsIs(b)
  {
    hide AsIs;
    if AllAsIs(a + b) {
      forall i | 0 <= i < |a| ensures AsIs(a[i]) { assert (a + b)[i] == a[i]; }
      forall i | 0 <= i < |b| ensures AsIs(b[i]) { assert (a + b)[|a| + i] == b[i]; }
    }
  }

  /** Fine statements are tokenised back just when they hold no string with a
      backslash. */
  lemma FineStatements(t: seq<Token>, ss: seq<Stmt>)
    requires AllFine(t, ss) && InTokens(t, ss)
    ensures LexesTo(StmtsText(t, ss), false, StmtKindText(t, ss)) <==>
      forall j :: 0 <= j < |ss| ==> NoBackslashes(t, ss[j])
  {
    hide LexesTo, UnitOk, Apart, Text, StmtsText, AllUnits, NoBackslashes, UnitsOk, AllAsIs;
    assert forall j :: 0 <= j < |ss| ==> StmtFine(t, ss[j]);
    AllUnitsOk(t, ss);
    StmtsUnits(t, ss);
    StmtsAsIs(t, ss);
    var us := AllUnits(t, ss);
    if AllAsIs(us) { LexUnits("", us, false); } else { LexFails("", us, false); }
    assert "" + Text(us) == Text(us);
  }
}
