/** Which texts are tokens, and when a token read back from a text is the one that
    was written there. */
module Lexemes {
  import opened Common
  import opened Tokenizer
  import opened Statements

  predicate WholeWord(kind: Kind, text: string) {
    && text != "" && IsWord(kind) && FirstKind(text) == kind
    && IdentLength(kind, text[0], text[1..]) == |text| - 1
  }

  /** The texts of tokens of a kind, comments aside. */
  predicate Lexeme(kind: Kind, text: string) {
    match kind
    case Char(c) => text == [c] && !IsBlank(c) && FirstKind(text) == kind
    case Label => |text| >= 2 && text[|text| - 1] == ':' && WholeWord(FirstKind(text[..|text| - 1]), text[..|text| - 1])
    case String => |text| >= 2 && text[0] == '"' && StringLength(text[1..]) == Some(|text| - 1)
    case Eof => false
    case Comment => false
    case _ => WholeWord(kind, text)
  }

  lemma LexemeStarts(kind: Kind, text: string)
    requires Lexeme(kind, text)
    ensures text != "" && !IsBlank(text[0]) && kind != Comment && kind != Eof
  {
  }

  /** A token followed by `c` ends before it. */
  predicate StaysApart(kind: Kind, text: string, c: char)
    requires text != ""
  {
    if IsWord(kind) then !Continues(kind, text[|text| - 1], c) && c != ':'
    else kind == Char('/') ==> c != '/' && c != '*'
  }

  predicate EndsBefore(kind: Kind, text: string, rest: string)
    requires text != ""
  {
    rest == "" || StaysApart(kind, text, rest[0])
  }

  lemma {:induction false} WordEnds(kind: Kind, prev: char, a: string, rest: string)
    requires IdentLength(kind, prev, a) == |a|
    requires rest != "" ==> !Continues(kind, if a == "" then prev else a[|a| - 1], rest[0])
    ensures IdentLength(kind, prev, a + rest) == |a|
    decreases |a|
  {
    if a == "" {
      assert a + rest == rest;
    } else {
      assert (a + rest)[1..] == a[1..] + rest;
      WordEnds(kind, a[0], a[1..], rest);
    }
  }

  lemma {:induction false} WordLength(kind: Kind, prev: char, s: string)
    ensures var n := IdentLength(kind, prev, s);
            && IdentLength(kind, prev, s[..n]) == n
            && (n < |s| ==> !Continues(kind, if n == 0 then prev else s[n - 1], s[n]))
    decreases |s|
  {
    if s != "" && Continues(kind, prev, s[0]) {
      WordLength(kind, s[0], s[1..]);
      var n := IdentLength(kind, prev, s);
      assert s[..n][1..] == s[1..][..n - 1];
    }
  }

  lemma {:induction false} StringEnds(a: string, rest: string)
    requires StringLength(a) == Some(|a|)
    ensures StringLength(a + rest) == Some(|a|)
    decreases |a|
  {
    if a[0] != '"' {
      var k := if a[0] == '\\' then 2 else 1;
      assert (a + rest)[k..] == a[k..] + rest;
      StringEnds(a[k..], rest);
    }
  }

  lemma {:induction false} StringIs(s: string)
    requires StringLength(s).Some?
    ensures var n := StringLength(s).value; StringLength(s[..n]) == Some(n) && s[n - 1] == '"'
    decreases |s|
  {
    if s[0] != '"' {
      var k := if s[0] == '\\' then 2 else 1;
      StringIs(s[k..]);
      var n := StringLength(s).value;
      assert s[..n][k..] == s[k..][..n - k];
    }
  }

  /** The first kind depends on no more than two characters. */
  lemma FirstKindSame(a: string, rest: string)
    requires a != "" && (a == "." && rest != "" ==> !IsDigit(rest[0]))
    ensures FirstKind(a + rest) == FirstKind(a)
  {
    assert (a + rest)[0] == a[0];
    assert |a| >= 2 ==> (a + rest)[1] == a[1];
    assert |a| == 1 && rest != "" ==> (a + rest)[1] == rest[0];
  }

  lemma WordBack(kind: Kind, w: string, rest: string)
    requires WholeWord(kind, w) && (rest != "" ==> !Continues(kind, w[|w| - 1], rest[0]))
    ensures FirstKind(w + rest) == kind && IdentLength(kind, (w + rest)[0], (w + rest)[1..]) == |w| - 1
  {
    FirstKindSame(w, rest);
    assert (w + rest)[1..] == w[1..] + rest;
    WordEnds(kind, w[0], w[1..], rest);
  }

  lemma NoCommentAt(kind: Kind, text: string, rest: string)
    requires Lexeme(kind, text) && EndsBefore(kind, text, rest)
    ensures !Begins(text + rest, '/', '/') && !Begins(text + rest, '/', '*')
  {
    var s := text + rest;
    assert s[0] == text[0];
    if s[0] == '/' {
      assert FirstKind(text) == Char('/');
      assert |s| >= 2 ==> s[1] == rest[0];
    }
  }

  lemma WordReadBack(kind: Kind, text: string, rest: string)
    requires WholeWord(kind, text) && EndsBefore(kind, text, rest)
    ensures var s := text + rest; FirstKind(s) == kind && ReadWord(kind, s) == Piece(kind, text, rest, false)
  {
    hide IdentLength, WordKind;
    WordBack(kind, text, rest);
    var s := text + rest;
    assert s[..|text|] == text && s[|text|..] == rest;
  }

  lemma LabelReadBack(text: string, rest: string)
    requires Lexeme(Label, text)
    ensures var s := text + rest;
            IsWord(FirstKind(s)) && ReadWord(FirstKind(s), s) == Piece(Label, text, rest, false)
  {
    hide IdentLength, WordKind;
    var w := text[..|text| - 1];
    WordBack(FirstKind(w), w, ":" + rest);
    var s := text + rest;
    assert w + (":" + rest) == s && s[..|text|] == text && s[|text|..] == rest;
  }

  lemma StringReadBack(text: string, rest: string)
    requires Lexeme(String, text)
    ensures var s := text + rest; FirstKind(s) == String && ReadString(s) == Piece(String, text, rest, false)
  {
    hide StringLength, WordKind;
    var s := text + rest;
    StringEnds(text[1..], rest);
    assert s[1..] == text[1..] + rest && s[0] == '"';
    assert s[..|text|] == text && s[|text|..] == rest;
  }

  /** A token followed by something it stays apart from is read back. */
  lemma ReadBack(kind: Kind, text: string, rest: string)
    requires Lexeme(kind, text) && EndsBefore(kind, text, rest)
    ensures ReadToken(text + rest) == Piece(kind, text, rest, false)
  {
    hide FirstKind, ReadString, ReadWord, EndsBefore, WholeWord;
    NoCommentAt(kind, text, rest);
    match kind {
      case Char(c) =>
        CharFirst(c, rest);
        var s := text + rest;
        assert s[..1] == text && s[1..] == rest;
      case Label => LabelReadBack(text, rest);
      case String => StringReadBack(text, rest);
      case _ => WordReadBack(kind, text, rest);
    }
  }

  lemma CharFirst(c: char, rest: string)
    requires FirstKind([c]) == Char(c)
    ensures FirstKind([c] + rest) == Char(c)
  {
    FirstKindSame([c], rest);
  }

  lemma WordIs(s: string)
    requires s != "" && IsWord(FirstKind(s))
    ensures var kind, w := FirstKind(s), s[..1 + IdentLength(FirstKind(s), s[0], s[1..])];
            WholeWord(kind, w) && (|w| < |s| ==> !Continues(kind, w[|w| - 1], s[|w|]))
  {
    var kind := FirstKind(s);
    var n := IdentLength(kind, s[0], s[1..]);
    WordLength(kind, s[0], s[1..]);
    var w, rest := s[..1 + n], s[1 + n..];
    assert w[1..] == s[1..][..n] && s == w + rest;
    assert w == "." && rest != "" ==> !IsDigit(rest[0]);
    FirstKindSame(w, rest);
  }

  lemma FirstKindIs(s: string)
    requires s != ""
    ensures FirstKind(s) == String || IsWord(FirstKind(s)) || FirstKind(s) == Char(s[0])
    ensures FirstKind(s) == String ==> s[0] == '"'
  {
  }

  lemma StringRead(s: string)
    requires s != "" && s[0] == '"' && ReadString(s).Piece?
    ensures var Piece(kind, text, rest, more) := ReadString(s);
            kind == String && Lexeme(kind, text) && s == text + rest && !more
  {
    StringIs(s[1..]);
    var text := ReadString(s).text;
    assert text[1..] == s[1..][..|text| - 1];
  }

  lemma WordRead(s: string)
    requires s != "" && IsWord(FirstKind(s))
    ensures var Piece(kind, text, rest, more) := ReadWord(FirstKind(s), s);
            Lexeme(kind, text) && s == text + rest && EndsBefore(kind, text, rest) && !more
  {
    hide IdentLength, WordKind;
    WordIs(s);
    var n := 1 + IdentLength(FirstKind(s), s[0], s[1..]);
    if n < |s| && s[n] == ':' {
      assert s[..n + 1][..n] == s[..n];
    }
  }

  /** A token that is read is a token's text, and ends before what follows. */
  lemma ReadIs(s: string)
    requires s != "" && !IsBlank(s[0]) && ReadToken(s).Piece? && ReadToken(s).kind != Comment
    ensures var Piece(kind, text, rest, more) := ReadToken(s);
            Lexeme(kind, text) && s == text + rest && EndsBefore(kind, text, rest) && !more
  {
    hide FirstKind, ReadString, ReadWord;
    FirstKindIs(s);
    if !Begins(s, '/', '/') && !Begins(s, '/', '*') {
      if FirstKind(s) == String {
        StringRead(s);
        hide Lexeme;
      } else if IsWord(FirstKind(s)) {
        WordRead(s);
        hide Lexeme;
      } else {
        SingleChar(s);
        assert s[..1] == [s[0]] && s == s[..1] + s[1..];
      }
    }
  }

  lemma SingleChar(s: string)
    requires s != "" && FirstKind(s).Char?
    ensures FirstKind(s) == Char(s[0]) && FirstKind([s[0]]) == Char(s[0])
  {
  }

  /** What holds of the tokens read: texts are tokens, the last is the terminator,
      and tokens without blanks between them stay apart. */
  predicate RawOk(r: Raw) {
    && |r.text| <= MAX_LENGTH
    && if r.kind == Comment then '\n' !in r.text else Lexeme(r.kind, r.text) && r.text[0] <= (127 as char)
  }

  predicate RawsApart(a: Raw, b: Raw) {
    && (a.kind == Comment ==> !b.space)
    && (a.kind != Comment && b.kind != Comment && b.kind != Eof
        && a.text != "" && b.text != "" && !b.eol && !b.space ==>
          StaysApart(a.kind, a.text, b.text[0]))
  }

  predicate RawsOk(raws: seq<Raw>) {
    && raws != [] && raws[|raws| - 1].kind == Eof
    && (forall i :: 0 <= i < |raws| - 1 ==> RawOk(raws[i]))
    && (forall i {:trigger raws[i]} :: 0 <= i < |raws| - 1 ==> RawsApart(raws[i], raws[i + 1]))
  }

  lemma {:induction false} BlockPlain(s: string)
    ensures '\n' !in s[..BlockLength(s)]
  {
    if s != "" && s[0] != '\n' && !Begins(s, '*', '/') {
      BlockPlain(s[1..]);
      assert s[..BlockLength(s)] == [s[0]] + s[1..][..BlockLength(s[1..])];
    }
  }

  lemma CommentIs(s: string)
    requires s != "" && ReadToken(s).Piece? && ReadToken(s).kind == Comment
    ensures '\n' !in ReadToken(s).text
  {
    if Begins(s, '/', '*') { BlockPlain(s[2..]); }
  }

  /** The first token of a text that begins after a token: with no blank before it,
      it begins the text. */
  lemma FirstRaw(s: string, notComment: bool)
    requires Lex(s, false, notComment).Tokens? && notComment
    ensures var raws := Lex(s, false, notComment).raws;
            raws != [] && var r := raws[0];
            r.kind != Comment && r.kind != Eof && r.text != "" && !r.space ==> s != "" && s[0] == r.text[0]
  {
    hide ReadToken, StartsDotted;
    var r := SkipBlanks(s);
    if r != "" {
      match ReadToken(r)
      case Piece(kind, text, rest, more) =>
        if |r| == |s| { NoBlanks(s); }
        if kind != Comment && |r| == |s| { ReadIs(r); }
    }
  }

  lemma FirstRawPlain(s: string, inComment: bool)
    requires Lex(s, inComment, false).Tokens?
    ensures var raws := Lex(s, inComment, false).raws; raws != [] && !raws[0].space
  {
  }

  lemma NoBlanks(s: string)
    requires |SkipBlanks(s)| == |s|
    ensures SkipBlanks(s) == s
  {
  }

  lemma {:induction false} LexedOk(s: string, inComment: bool, notComment: bool)
    requires Lex(s, inComment, notComment).Tokens?
    ensures RawsOk(Lex(s, inComment, notComment).raws)
    decreases |s|
  {
    hide ReadToken, StartsDotted, Lexeme, StaysApart;
    if inComment {
      var Piece(kind, text, rest, more) := ReadBlock(s);
      BlockPlain(s);
      LexedOk(rest, more, false);
      FirstRawPlain(rest, more);
      MoreOk(Raw(kind, text, false, true), Lex(rest, more, false).raws);
    } else {
      var r := SkipBlanks(s);
      if r != "" {
        var Piece(kind, text, rest, more) := ReadToken(r);
        LexedOk(rest, more, kind != Comment);
        if kind == Comment {
          CommentIs(r);
          FirstRawPlain(rest, more);
        } else {
          ReadIs(r);
          FirstRaw(rest, true);
        }
        MoreOk(Lex(s, inComment, notComment).raws[0], Lex(rest, more, kind != Comment).raws);
      }
    }
  }

  lemma MoreOk(r: Raw, raws: seq<Raw>)
    requires RawsOk(raws) && RawOk(r) && RawsApart(r, raws[0])
    ensures RawsOk([r] + raws)
  {
    hide RawOk, RawsApart;
    var all := [r] + raws;
    forall i | 0 <= i < |all| - 1 ensures RawOk(all[i]) && RawsApart(all[i], all[i + 1]) {
      if i > 0 { assert all[i] == raws[i - 1] && all[i + 1] == raws[i]; }
    }
  }
}
