/** Where nvptx-as and nvptx-run do what one might not expect: exactly when, and a file
    for which they do. */
module Surprises {
  import opened Common
  import opened Tokenizer
  import opened Statements
  import opened Lexemes
  import opened ParserSpec
  import opened ParserFacts
  import opened Conservation
  import opened FileShape
  import opened FileLayout
  import opened ShapeSame
  import opened ShapeSteps
  import opened ShapeFacts
  import opened FileDeps
  import opened Framing
  import opened RoundTrip
  import opened PrintTokenise
  import opened Process
  import opened AssembledFile
  import SymbolOrder

  // Keywords

  /** The token is the directive `s`. */
  predicate IsDirective(tok: Token, s: string) {
    tok.kind == Dotted && tok.text == "." + s
  }

  /** A token of a file counts as a keyword it is not just when it begins with another
      character than a dot. */
  lemma KeywordErrs(input: string, i: nat, s: string)
    requires Read(input).Tokens? && i < |FileTokens(input)| - 1
    ensures var tok := FileTokens(input)[i];
            (IsKeyword(tok, s) != IsDirective(tok, s)) <==> (tok.kind != Dotted && tok.text != "" && tok.text[1..] == s)
  {
    hide Lex;
    LexedOk(CString(input), false, false);
    var raw := Read(input).raws[i];
    assert RawOk(raw);
    if raw.kind == Dotted {
      assert raw.text[0] == '.' && raw.text == "." + raw.text[1..];
    }
  }

  /** So a name such as `xfunc` makes a variable's header a declaration, and what
      begins its initialiser is dropped. */
  lemma NameMakesDeclaration(t: seq<Token>, p: nat, k: nat, i: nat)
    requires Terminated(t) && p < |t|
    requires var q := PlainStop(t, p);
             && IsHeader(t, q) && q <= k < HeaderStop(t, q) && Is(t, HeaderStop(t, q), '=')
             && IsName(t, k) && (Word(t[k], "func") || Word(t[k], "entry") || Word(t[k], "extern"))
    ensures var e := HeaderStop(t, PlainStop(t, p));
            && e + 1 < |t| && ItemAt(t, p) == To(e + 1)
            && (t[e + 1].kind != Comment && t[e + 1].kind != Dotted && t[e + 1].kind != Eof
                && e < i < StrangeStop(t, e + 1) ==>
                  Lost(t, p, i))
  {
    hide Word, IsMap;
    var q := PlainStop(t, p);
    var e := HeaderStop(t, q);
    assert Says(t, q, e, "func") || Says(t, q, e, "entry") || Says(t, q, e, "extern");
    LastIsEof(t, e);
    if t[e + 1].kind != Comment && t[e + 1].kind != Dotted && t[e + 1].kind != Eof && e < i < StrangeStop(t, e + 1) {
      StrangeItem(t, p, e + 1, i);
    }
  }

  /** The item after that at `p` is dropped if it begins strangely. */
  lemma StrangeItem(t: seq<Token>, p: nat, e: nat, i: nat)
    requires Terminated(t) && p < e < |t| && t[p].kind != Eof && ItemAt(t, p) == To(e)
    requires t[e].kind != Comment && t[e].kind != Dotted && t[e].kind != Eof
    requires e <= i < StrangeStop(t, e)
    ensures Lost(t, p, i)
  {
    hide ItemAt, StrangeStop, Strange;
    StrangeAt(t, e);
    ItemMoves(t, e);
  }

  lemma StrangeAt(t: seq<Token>, e: nat)
    requires Terminated(t) && e < |t| && t[e].kind != Comment && t[e].kind != Dotted
    ensures PlainStop(t, e) == e && ItemAt(t, e) == To(StrangeStop(t, e)) && (t[e].kind != Eof ==> Strange(t, e))
  {
  }

  // Comments before bodies

  /** A comment between a function's header and its '{' is taken as the body, and the
      line of the brace is dropped. */
  lemma CommentBeforeBody(t: seq<Token>, p: nat, i: nat)
    requires Terminated(t) && p < |t|
    requires var q := PlainStop(t, p); IsHeader(t, q) && IsComment(t, HeaderStop(t, q))
    ensures var c := CommentStop(t, HeaderStop(t, PlainStop(t, p)));
            && c < |t| && ItemAt(t, p) == To(c)
            && (Is(t, c, '{') && c <= i < StrangeStop(t, c) ==> Lost(t, p, i))
  {
    hide Word, IsMap, BodyStop, StrangeStop;
    var q := PlainStop(t, p);
    var e := HeaderStop(t, q);
    CommentIn(t, e);
    CommentBody(t, e);
    var c := CommentStop(t, e);
    if Is(t, c, '{') && c <= i < StrangeStop(t, c) {
      StrangeItem(t, p, c, i);
    }
  }

  /** A comment between a header and its body is all that is taken as the body. */
  lemma CommentBody(t: seq<Token>, e: nat)
    requires IsComment(t, e)
    ensures BodyStop(t, e, 0) == Some(CommentStop(t, e)) && e < CommentStop(t, e)
  {
  }

  /** A file that loses its function's body. */
  const LOSING := ".f//\n{}"

  lemma LexesAs(s: string, notComment: bool, r: Raw, rest: string, raws: seq<Raw>)
    requires SkipBlanks(s) != "" && SkipBlanks(s)[0] <= (127 as char) && |r.text| <= MAX_LENGTH
    requires ReadToken(SkipBlanks(s)) == Piece(r.kind, r.text, rest, false)
    requires r.space == if StartsDotted(SkipBlanks(s)) then notComment else |SkipBlanks(s)| < |s| && notComment
    requires r.eol == LineEnds(s)
    requires Lex(rest, false, r.kind != Comment) == Tokens(raws)
    ensures Lex(s, false, notComment) == Tokens([r] + raws)
  {
  }

  lemma NothingLeft()
    ensures Lex("", false, true) == Tokens([Raw(Eof, "", false, false)])
  {
  }

  /** A single character, at the start of a text. */
  lemma CharLexed(c: char, rest: string, raws: seq<Raw>)
    requires FirstKind([c]) == Char(c) && !IsBlank(c) && c <= (127 as char) && c != '/' && c != '.'
    requires Lex(rest, false, true) == Tokens(raws)
    ensures Lex([c] + rest, false, true) == Tokens([Raw(Char(c), [c], false, false)] + raws)
    ensures Lex("\n" + ([c] + rest), false, false) == Tokens([Raw(Char(c), [c], false, true)] + raws)
  {
    hide ReadToken, Lex, FirstKind;
    var s := [c] + rest;
    ReadBack(Char(c), [c], rest);
    assert SkipBlanks(s) == s && !LineEnds(s) && !StartsDotted(s) by {
      FirstKindSame([c], rest);
      WordFirst(s);
    }
    LexesAs(s, true, Raw(Char(c), [c], false, false), rest, raws);
    assert ("\n" + s)[1..] == s;
    assert SkipBlanks("\n" + s) == s && LineEnds("\n" + s);
    LexesAs("\n" + s, false, Raw(Char(c), [c], false, true), rest, raws);
  }

  lemma WordFirst(s: string)
    requires s != "" && FirstKind(s).Char?
    ensures !StartsDotted(s)
  {
  }

  lemma BodyLexed()
    ensures Lex("\n{}", false, false) ==
      Tokens([Raw(Char('{'), "{", false, true), Raw(Char('}'), "}", false, false), Raw(Eof, "", false, false)])
  {
    hide Lex;
    NothingLeft();
    CharLexed('}', "", [Raw(Eof, "", false, false)]);
    assert ['}'] + "" == "}";
    CharLexed('{', "}", [Raw(Char('}'), "}", false, false), Raw(Eof, "", false, false)]);
    assert "\n" + (['{'] + "}") == "\n{}";
  }

  lemma CommentLexed()
    ensures Lex("//\n{}", false, true) ==
      Tokens([Raw(Comment, "", false, false), Raw(Char('{'), "{", false, true), Raw(Char('}'), "}", false, false),
          Raw(Eof, "", false, false)])
  {
    hide Lex, ReadToken;
    BodyLexed();
    assert "//\n{}" == "//" + "" + "\n" + "{}" && "\n" + "{}" == "\n{}";
    ReadComment("", "{}");
    LexesAs("//\n{}", true, Raw(Comment, "", false, false), "\n{}",
      [Raw(Char('{'), "{", false, true), Raw(Char('}'), "}", false, false), Raw(Eof, "", false, false)]);
  }

  lemma LosingLexed()
    ensures Read(LOSING) == Tokens([Raw(Dotted, ".f", false, false), Raw(Comment, "", false, false),
      Raw(Char('{'), "{", false, true), Raw(Char('}'), "}", false, false), Raw(Eof, "", false, false)])
  {
    hide Lex, ReadToken, CString;
    WholeString(LOSING);
    CommentLexed();
    assert ".f" + "//\n{}" == LOSING;
    assert Lexeme(Dotted, ".f") by { assert ".f"[1..] == "f"; }
    ReadBack(Dotted, ".f", "//\n{}");
    LexesAs(LOSING, false, Raw(Dotted, ".f", false, false), "//\n{}",
      [Raw(Comment, "", false, false), Raw(Char('{'), "{", false, true), Raw(Char('}'), "}", false, false),
        Raw(Eof, "", false, false)]);
  }

  /** The file is assembled, but the braces of its body are not printed. */
  lemma BodyLost() returns (input: string)
    ensures input == LOSING && Supported(input) && Assemble(input).Assembled? && Read(input).Tokens?
    ensures var t := FileTokens(input); |t| == 5 && t[2].kind == Char('{') && t[3].kind == Char('}')
    ensures forall s :: s in PrintedStmts(input) ==> !Covers(s, 2) && !Covers(s, 3)
  {
    hide Lex, Read, CString, FileReach, FileNotes, Lost, Covers, ParseTokens, PrintedStmts, Assemble, Circle;
    LosingLexed();
    input := LOSING;
    var t := FileTokens(input);
    LosingShape(t);
    NoCircle(t);
    OutcomeIs(input);
    TokensConserved(input, 2, Decls);
    TokensConserved(input, 3, Decls);
  }

  /** A file without variables has no circle. */
  lemma NoCircle(t: seq<Token>)
    requires Terminated(t) && FileReach(t, 0).To? && FileNotes(t, 0) == []
    ensures forall c :: !Circle(t, c)
  {
    hide FileReach, FileNotes, Needs;
    forall c ensures !Circle(t, c) {
      if Circle(t, c) { NeedsNoted(t, c[0], c[1]); }
    }
  }

  /** Tokens that shape so. */
  predicate Losing(t: seq<Token>) {
    && Terminated(t) && |t| == 5 && t[0] == Token(Dotted, ".f", false, false) && t[1] == Token(Comment, "", false, true)
    && t[2] == Token(Char('{'), "{", false, false) && t[3] == Token(Char('}'), "}", false, false)
  }

  lemma LosingShape(t: seq<Token>)
    requires Losing(t)
    ensures FileReach(t, 0).To? && FileNotes(t, 0) == [] && Lost(t, 0, 2) && Lost(t, 0, 3)
  {
    hide FileReach, FileNotes, Lost, ItemAt, ItemNotes;
    LosingItems(t);
    FileIs(t, 0);
    FileIs(t, 2);
    FileIs(t, 4);
    assert StrangeStop(t, 2) == 4 by { assert StrangeStop(t, 4) == 4 && StrangeStop(t, 3) == 4; }
    StrangeItem(t, 0, 2, 2);
    StrangeItem(t, 0, 2, 3);
  }

  lemma LosingItems(t: seq<Token>)
    requires Losing(t)
    ensures ItemAt(t, 0) == To(2) && ItemAt(t, 2) == To(4) && ItemNotes(t, 0) == [] && ItemNotes(t, 2) == []
  {
    assert |t[0].text[1..]| == 1;
    StrangeAt(t, 2);
    assert HeaderStop(t, 0) == 1;
    CommentBody(t, 1);
    assert CommentStop(t, 1) == 2 by { assert CommentStop(t, 2) == 2; }
    assert StrangeStop(t, 4) == 4 && StrangeStop(t, 3) == 4;
  }

  // Backslashes

  /** A well-formed file that does not survive printing. */
  const ESCAPING := ".\"\\n\";"

  lemma StringLexed()
    ensures Lex("\"\\n\";", false, true) ==
      Tokens([Raw(String, "\"\\n\"", false, false), Raw(Char(';'), ";", false, false), Raw(Eof, "", false, false)])
  {
    hide Lex, ReadToken;
    var text := "\"\\n\"";
    NothingLeft();
    CharLexed(';', "", [Raw(Eof, "", false, false)]);
    assert [';'] + "" == ";" && text + ";" == "\"\\n\";";
    assert Lexeme(String, text) by {
      assert text[1..] == "\\n\"" && text[1..][2..] == "\"";
    }
    ReadBack(String, text, ";");
    LexesAs("\"\\n\";", true, Raw(String, text, false, false), ";",
        [Raw(Char(';'), ";", false, false), Raw(Eof, "", false, false)]);
  }

  lemma EscapingLexed()
    ensures Read(ESCAPING) == Tokens([Raw(Dotted, ".", false, false), Raw(String, "\"\\n\"", false, false),
      Raw(Char(';'), ";", false, false), Raw(Eof, "", false, false)])
  {
    hide Lex, ReadToken, CString;
    WholeString(ESCAPING);
    StringLexed();
    assert "." + "\"\\n\";" == ESCAPING;
    assert Lexeme(Dotted, ".");
    ReadBack(Dotted, ".", "\"\\n\";");
    LexesAs(ESCAPING, false, Raw(Dotted, ".", false, false), "\"\\n\";",
      [Raw(String, "\"\\n\"", false, false), Raw(Char(';'), ";", false, false), Raw(Eof, "", false, false)]);
  }

  predicate Escaping(t: seq<Token>) {
    && Terminated(t) && |t| == 4 && t[0] == Token(Dotted, ".", false, false)
    && t[1] == Token(String, "\"\\n\"", false, false) && t[2] == Token(Char(';'), ";", false, false)
  }

  lemma EscapingItem(t: seq<Token>)
    requires Escaping(t)
    ensures ItemAt(t, 0) == To(3) && ItemWellFormed(t, 0) && ItemNotes(t, 0) == []
    ensures ItemPlaces(t, 0) == HeadPlaces(t, Decls, true, 0, 0, 3)
  {
    assert |t[0].text[1..]| == 0 && |t[1].text[1..]| == 3;
    assert HeaderStop(t, 0) == 2;
  }

  /** A declaration of three tokens. */
  lemma EscapingShape(t: seq<Token>)
    requires Escaping(t)
    ensures WellFormed(t, 0) && PlainFile(t) && FileReach(t, 0).To? && FileNotes(t, 0) == []
    ensures FilePlaces(t, 0)[1] == In(Decls, false, false, false, false)
  {
    hide ItemAt, ItemWellFormed, ItemPlaces, ItemNotes, FileReach, FilePlaces, FileNotes, WellFormed;
    EscapingItem(t);
    FileIs(t, 0);
    FileIs(t, 3);
    assert WellFormed(t, 0) by { EscapingWellFormed(t); }
    var ps := HeadPlaces(t, Decls, true, 0, 0, 3);
    assert FilePlaces(t, 0) == ps + [] == ps;
    assert ps == Stretch(t, Decls, Head(true), 0, 3);
  }

  lemma EscapingWellFormed(t: seq<Token>)
    requires Escaping(t) && ItemAt(t, 0) == To(3) && ItemWellFormed(t, 0)
    ensures WellFormed(t, 0)
  {
    hide ItemWellFormed, ItemAt;
    assert WellFormed(t, 3);
  }

  /** The file is well-formed and has no comments, but what is printed for it is not
      tokenised back. */
  lemma BackslashChanged() returns (input: string)
    ensures input == ESCAPING && Supported(input) && Assemble(input).Assembled? && Read(input).Tokens?
    ensures WellFormed(FileTokens(input), 0) && PlainFile(FileTokens(input))
    ensures var t, ss := ParseTokens(FileTokens(input)).t, PrintedStmts(input);
            InTokens(t, ss) && !LexesTo(Assemble(input).text, false, StmtKindText(t, ss))
  {
    hide Lex, Read, FileReach, FilePlaces, FileNotes, ParseTokens, WellFormed, PlainFile, LexesTo, StmtKindText,
      CString, PutsTo, Assemble, Circle, Lost;
    EscapingLexed();
    input := ESCAPING;
    var t := FileTokens(input);
    EscapingShape(t);
    NoCircle(t);
    OutcomeIs(input);
    ParsesFurther(input);
    AssembledRoundTrip(input);
    OwnerIs(t, 1);
    var r := ParseTokens(t);
    var s :| s in PutsTo(r.log, Decls) && Covers(s, 1) && s.hi <= |r.t|;
    assert s in PrintedStmts(input) by { assert s in Output(r.log, PrintedOrder(r.log)); }
    var j :| 0 <= j < |PrintedStmts(input)| && PrintedStmts(input)[j] == s;
    assert '\\' in t[1].text by { assert t[1].text[1] == '\\'; }
    TextKept(t);
    assert !NoBackslashes(r.t, s);
  }

  lemma ParsesFurther(input: string)
    requires Supported(input) && Assemble(input).Assembled?
    ensures Read(input).Tokens? && ParseTokens(FileTokens(input)).At?
    ensures SymbolOrder.Order(GraphOf(ParseTokens(FileTokens(input)).log)).Some?
  {
    hide Lex, ParseTokens, FileReach, GraphOf, SymbolOrder.Order, Names;
  }

  lemma TextKept(t: seq<Token>)
    requires Terminated(t) && ParseTokens(t).At?
    ensures Same(t, ParseTokens(t).t)
  {
    hide ParseTokens, Tiles, EndsAdded, SpacesKept, SafeEnds, SpacesAdded, NoFirstSpace;
    ParseTiles(t);
  }

  // Comments inside statements

  /** A comment inside a statement is printed without its slashes. */
  lemma BareComment(vis: Vis, tok: Token)
    requires vis.form != COMMENT && tok.kind == Comment && tok.end
    ensures StmtTokens(vis, [tok]) == (if tok.space then " " else "") + tok.text + "\n"
  {
    assert [tok][..0] == [];
  }

  /** What is printed there is not read back as the comment: if it holds anything but
      blanks, another token is read, and otherwise none. */
  lemma BareCommentLost(b: string, text: string, rest: string, notComment: bool, ks: seq<(Kind, string)>)
    requires AllBlank(b) && '\n' !in text && !AllBlank(text)
    ensures !LexesTo(b + text + "\n" + rest, notComment, [(Comment, text)] + ks)
  {
    hide ReadToken, LexesTo, Lex;
    var n := BlanksBefore(text);
    var head, s := b + text[..n], text[n..] + "\n" + rest;
    assert b + text + "\n" + rest == head + s;
    assert s[0] == text[n];
    if LexesTo(head + s, notComment, [(Comment, text)] + ks) {
      LexOneBack(head, s, notComment, Comment, text, ks);
      CommentShorter(text[n..], rest);
    }
  }

  lemma {:induction false} BlanksBefore(text: string) returns (n: nat)
    requires !AllBlank(text)
    ensures n < |text| && !IsBlank(text[n]) && AllBlank(text[..n])
  {
    if IsBlank(text[0]) {
      assert text == [text[0]] + text[1..];
      n := BlanksBefore(text[1..]);
      n := n + 1;
      assert text[..n] == [text[0]] + text[1..][..n - 1];
    } else {
      n := 0;
    }
  }

  /** A comment read from the line `text` is shorter than it. */
  lemma CommentShorter(text: string, rest: string)
    requires text != "" && '\n' !in text
    ensures var p := ReadToken(text + "\n" + rest); p.Piece? && p.kind == Comment ==> |p.text| < |text|
  {
    hide IdentLength, StringLength, LineLength, BlockLength;
    var s := text + "\n" + rest;
    assert s[0] == text[0];
    if |text| == 1 {
      assert s[1] == '\n';
    } else {
      assert s[1] == text[1];
      LineIs(text[2..], rest);
      assert s[2..] == text[2..] + "\n" + rest;
      BlockWithin(text[2..], rest);
    }
  }

  lemma {:induction false} BlockWithin(text: string, rest: string)
    ensures BlockLength(text + "\n" + rest) <= |text|
  {
    var s := text + "\n" + rest;
    if text == "" {
      assert s[0] == '\n';
    } else {
      assert s[1..] == text[1..] + "\n" + rest;
      BlockWithin(text[1..], rest);
    }
  }
}
