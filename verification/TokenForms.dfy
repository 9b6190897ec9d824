/** How the text nvptx-as reads is made up: blanks, and tokens as they are written. */
module TokenForms {
  import opened Common
  import opened Tokenizer
  import opened Lexemes

  // Characters

  predicate AllGap(s: string) {
    forall k :: 0 <= k < |s| ==> s[k] in {' ', '\t', '\r', '\U{0B}', '\n'}
  }

  predicate Letter(c: char) {
    'a' <= c <= 'z' || 'A' <= c <= 'Z'
  }

  predicate Numeral(c: char) {
    '0' <= c <= '9'
  }

  /** Whether `c` belongs to the same identifier or number as `before`. */
  predicate GoesOn(kind: Kind, before: char, c: char) {
    || Letter(c) || Numeral(c) || c == '_' || c == '$'
    || (c == '.' && kind != Dotted)
    || ((c == '+' || c == '-') && kind == Number && (before == 'e' || before == 'E' || before == 'p' || before == 'P'))
  }

  // Words

  /** What identifiers and numbers begin with. */
  predicate Opens(kind: Kind, text: string)
    requires text != ""
  {
    match kind
    case Dotted => text[0] == '.' && (|text| > 1 ==> !Numeral(text[1]))
    case Number => Numeral(text[0]) || (text[0] == '.' && |text| > 1 && Numeral(text[1]))
    case Ident => text[0] == '$' || text[0] == '%'
    case Symbol => Letter(text[0]) || text[0] == '_'
    case _ => false
  }

  predicate IsWordText(kind: Kind, text: string) {
    text != "" && Opens(kind, text) && forall k :: 0 < k < |text| ==> GoesOn(kind, text[k - 1], text[k])
  }

  // Strings

  /** How many backslashes stand directly before position `i`. */
  function Backslashes(s: string, i: nat): nat
    requires i <= |s|
  {
    if i > 0 && s[i - 1] == '\\' then 1 + Backslashes(s, i - 1) else 0
  }

  /** The first quote that no backslash escapes is at `n`. */
  predicate ClosesAt(s: string, n: nat) {
    && n < |s| && s[n] == '"' && Backslashes(s, n) % 2 == 0
    && forall k :: 0 <= k < n && s[k] == '"' ==> Backslashes(s, k) % 2 == 1
  }

  predicate IsStringText(text: string) {
    |text| >= 2 && text[0] == '"' && ClosesAt(text[1..], |text| - 2)
  }

  // Comments

  /** A line of a block comment, with its line feed or the end of the comment. */
  predicate IsBlockLine(form: string, text: string) {
    && (form == text + "\n" || form == text + "*/")
    && forall k :: 0 <= k < |text| ==> form[k] != '\n' && !(form[k] == '*' && form[k + 1] == '/')
  }

  /** A comment as it begins, before `next`. */
  predicate IsCommentForm(form: string, text: string, next: string) {
    || (form == "//" + text && '\n' !in text && (next != "" ==> next[0] == '\n'))
    || ("/*" <= form && IsBlockLine(form[2..], text))
  }

  // Tokens

  /** A single character that is no part of anything longer. */
  predicate IsSingle(c: char, next: string) {
    && c <= '\U{7F}' && !AllGap([c]) && !Letter(c) && !Numeral(c) && c !in {'_', '$', '%', '.', '"'}
    && (c == '/' ==> next == "" || next[0] !in {'/', '*'})
  }

  predicate IsTokenForm(kind: Kind, text: string, next: string) {
    match kind
    case Eof => false
    case Comment => false
    case Char(c) => text == [c] && IsSingle(c, next)
    case String => IsStringText(text)
    case Label =>
      && |text| >= 2 && text[|text| - 1] == ':'
      && var word := text[..|text| - 1];
         IsWordText(Dotted, word) || IsWordText(Number, word) || IsWordText(Ident, word) || IsWordText(Symbol, word)
    case _ =>
      && IsWordText(kind, text)
      && (next != "" ==> !GoesOn(kind, text[|text| - 1], next[0]) && next[0] != ':')
  }

  // The whole text

  /** A token as it stands in the text, after a gap. */
  datatype Part = Part(gap: string, form: string)

  function Whole(ps: seq<Part>): string {
    if ps == [] then "" else ps[0].gap + ps[0].form + Whole(ps[1..])
  }

  /** What comes directly after token `i`. */
  function Next(ps: seq<Part>, i: nat): string {
    if i + 1 < |ps| then ps[i + 1].gap + ps[i + 1].form else ""
  }

  /** Token `i` goes on with a block comment. */
  predicate GoesOnAt(ps: seq<Part>, raws: seq<Raw>, i: nat, inComment: bool)
    requires i < |ps| == |raws|
  {
    if i == 0 then inComment
    else raws[i - 1].kind == Comment && ps[i - 1].form != "" && ps[i - 1].form[|ps[i - 1].form| - 1] == '\n'
  }

  /** Token `i` comes after one that is no comment. */
  predicate AfterToken(raws: seq<Raw>, i: nat, notComment: bool)
    requires i < |raws|
  {
    if i == 0 then notComment else raws[i - 1].kind != Comment
  }

  predicate DotWord(form: string) {
    form != "" && form[0] == '.' && (|form| > 1 ==> !Numeral(form[1]))
  }

  /** What token `i` is, is told from how it stands in the text, and so are its flags:
      a space is noted after blanks and before a word that begins with a dot, but not
      after a comment; a line ends before a token with a line feed in its gap. */
  predicate PartOk(ps: seq<Part>, raws: seq<Raw>, i: nat, inComment: bool, notComment: bool)
    requires i < |ps| == |raws|
  {
    var Part(gap, form), Raw(kind, text, space, eol) := ps[i], raws[i];
    if GoesOnAt(ps, raws, i, inComment) then
      kind == Comment && gap == "" && IsBlockLine(form, text) && !space && eol
    else
      && AllGap(gap) && (eol <==> '\n' in gap)
      && (space <==> AfterToken(raws, i, notComment) && (gap != "" || DotWord(form)))
      && match kind
         case Eof => i == |raws| - 1 && form == "" && text == ""
         case Comment => IsCommentForm(form, text, Next(ps, i))
         case _ => form == text && IsTokenForm(kind, text, Next(ps, i))
  }

  ghost predicate PartsOk(ps: seq<Part>, raws: seq<Raw>, inComment: bool, notComment: bool) {
    && |ps| == |raws| && raws != [] && raws[|raws| - 1].kind == Eof
    && forall i :: 0 <= i < |ps| ==> PartOk(ps, raws, i, inComment, notComment)
  }

  // Texts that are not read

  /** Neither the line nor the comment ends. */
  predicate OpenLine(s: string) {
    '\n' !in s && forall k :: 0 <= k < |s| - 1 ==> !(s[k] == '*' && s[k + 1] == '/')
  }

  ghost predicate NeverCloses(s: string) {
    forall n :: !ClosesAt(s, n)
  }

  /** A block comment goes on, or begins, or a string begins, and there is no end to it. */
  ghost predicate Unended(rest: string, inComment: bool) {
    if inComment then OpenLine(rest)
    else ("/*" <= rest && OpenLine(rest[2..])) || ("\"" <= rest && NeverCloses(rest[1..]))
  }

  ghost predicate ReadsAs(form: string, text: string, next: string, inComment: bool) {
    if inComment then IsBlockLine(form, text)
    else IsCommentForm(form, text, next) || (form == text && exists kind :: IsTokenForm(kind, text, next))
  }

  /** The token there is too long to be stored. */
  ghost predicate Overlong(rest: string, inComment: bool) {
    exists form, text, next :: rest == form + next && |text| > 65535 && ReadsAs(form, text, next, inComment)
  }

  /** Why nothing is read of `rest`. */
  ghost predicate Stops(rest: string, inComment: bool, l: Lexing) {
    match l
    case Tokens(_) => false
    case NonAscii => !inComment && rest != "" && rest[0] > '\U{7F}'
    case Unsupported => Unended(rest, inComment) || Overlong(rest, inComment)
  }

  /** A text is divided into its tokens; or into some, and what is not read after them. */
  ghost predicate Divided(ps: seq<Part>, raws: seq<Raw>, inComment: bool, notComment: bool, l: Lexing) {
    && |ps| == |raws| && raws != [] && raws[|raws| - 1].kind == Eof
    && (forall i :: 0 <= i < |ps| - 1 ==> PartOk(ps, raws, i, inComment, notComment) && |raws[i].text| <= 65535)
    && EndOk(ps, raws, inComment, notComment, l)
  }

  ghost predicate EndOk(ps: seq<Part>, raws: seq<Raw>, inComment: bool, notComment: bool, l: Lexing)
    requires |ps| == |raws| && raws != []
  {
    var n := |ps| - 1;
    if l.Tokens? then l.raws == raws && PartOk(ps, raws, n, inComment, notComment)
    else
      var going := GoesOnAt(ps, raws, n, inComment);
      AllGap(ps[n].gap) && (going ==> ps[n].gap == "") && Stops(ps[n].form, going, l)
  }

  // Texts read are tokens as written

  lemma {:induction false} WordGoesOn(kind: Kind, prev: char, s: string)
    requires IdentLength(kind, prev, s) == |s|
    ensures forall k :: 0 <= k < |s| ==> GoesOn(kind, if k == 0 then prev else s[k - 1], s[k])
    decreases |s|
  {
    if s != "" {
      WordGoesOn(kind, s[0], s[1..]);
      forall k | 0 <= k < |s| ensures GoesOn(kind, if k == 0 then prev else s[k - 1], s[k]) {
        if k > 0 { assert s[1..][k - 1] == s[k] && (k > 1 ==> s[1..][k - 2] == s[k - 1]); }
      }
    }
  }

  lemma WordText(kind: Kind, text: string)
    requires WholeWord(kind, text)
    ensures IsWordText(kind, text)
  {
    WordGoesOn(kind, text[0], text[1..]);
    forall k | 0 < k < |text| ensures GoesOn(kind, text[k - 1], text[k]) {
      assert text[1..][k - 1] == text[k] && (k > 1 ==> text[1..][k - 2] == text[k - 1]);
    }
  }

  /** Backslashes after the first two characters of a text, if these belong together. */
  lemma {:induction false} BackslashesPast(s: string, k: nat, i: nat)
    requires 1 <= k <= 2 && k <= i <= |s| && (if s[0] == '\\' then k == 2 else k == 1)
    ensures Backslashes(s, i) % 2 == Backslashes(s[k..], i - k) % 2
    decreases i
  {
    if i > k {
      BackslashesPast(s, k, i - 1);
      assert s[k..][i - k - 1] == s[i - 1];
    } else {
      assert Backslashes(s, 0) == 0 && Backslashes(s[k..], 0) == 0;
      assert Backslashes(s, 1) == if s[0] == '\\' then 1 else 0;
    }
  }

  lemma {:induction false} StringCloses(s: string)
    requires StringLength(s).Some?
    ensures ClosesAt(s, StringLength(s).value - 1)
    decreases |s|
  {
    var n := StringLength(s).value - 1;
    if s[0] != '"' {
      var k := if s[0] == '\\' then 2 else 1;
      StringCloses(s[k..]);
      BackslashesPast(s, k, n);
      forall i | 0 <= i < n && s[i] == '"' ensures Backslashes(s, i) % 2 == 1 {
        if i >= k {
          BackslashesPast(s, k, i);
          assert s[k..][i - k] == s[i];
        } else {
          assert Backslashes(s, 0) == 0;
        }
      }
    }
  }

  lemma SingleText(c: char, next: string)
    requires FirstKind([c]) == Char(c) && !IsBlank(c) && c <= (127 as char) && StaysApartFrom(Char(c), [c], next)
    ensures IsSingle(c, next)
  {
  }

  predicate StaysApartFrom(kind: Kind, text: string, next: string)
    requires text != ""
  {
    next != "" ==> StaysApart(kind, text, next[0])
  }

  lemma LexemeForm(kind: Kind, text: string, next: string)
    requires Lexeme(kind, text) && text != "" && text[0] <= (127 as char) && StaysApartFrom(kind, text, next)
    ensures IsTokenForm(kind, text, next)
  {
    hide IsWordText, WholeWord, StringLength, FirstKind, IsSingle, IdentLength;
    match kind {
      case Char(c) => SingleText(c, next);
      case String => StringCloses(text[1..]);
      case Label => WordText(FirstKind(text[..|text| - 1]), text[..|text| - 1]); WordKinds(text[..|text| - 1]);
      case _ => WordText(kind, text);
    }
  }

  lemma WordKinds(text: string)
    requires text != "" && WholeWord(FirstKind(text), text)
    ensures FirstKind(text) in {Dotted, Number, Ident, Symbol}
  {
  }

  // Gaps

  /** The blanks a text begins with. */
  function Gap(s: string): (g: string)
    ensures s == g + SkipBlanks(s)
  {
    if s != "" && IsBlank(s[0]) then [s[0]] + Gap(s[1..]) else ""
  }

  lemma {:induction false} GapIs(s: string)
    ensures AllGap(Gap(s)) && (LineEnds(s) <==> '\n' in Gap(s))
    ensures |SkipBlanks(s)| < |s| <==> Gap(s) != ""
  {
    if s != "" && IsBlank(s[0]) { GapIs(s[1..]); }
  }

  // The whole text

  lemma PartAfter(p: Part, r: Raw, ps: seq<Part>, raws: seq<Raw>, inComment: bool, notComment: bool, i: nat)
    requires |ps| == |raws| && i < |ps|
    ensures PartOk([p] + ps, [r] + raws, i + 1, inComment, notComment) <==>
      PartOk(ps, raws, i, r.kind == Comment && p.form != "" && p.form[|p.form| - 1] == '\n', r.kind != Comment)
  {
    hide IsTokenForm, IsCommentForm, IsBlockLine, AllGap, DotWord, GoesOnAt, AfterToken, Next;
    var ps', raws' := [p] + ps, [r] + raws;
    assert ps'[i + 1] == ps[i] && raws'[i + 1] == raws[i];
    StateAfter(p, r, ps, raws, inComment, notComment, i);
  }

  lemma StateAfter(p: Part, r: Raw, ps: seq<Part>, raws: seq<Raw>, inComment: bool, notComment: bool, i: nat)
    requires |ps| == |raws| && i < |ps|
    ensures var ps', raws' := [p] + ps, [r] + raws;
            && Next(ps', i + 1) == Next(ps, i)
            && (GoesOnAt(ps', raws', i + 1, inComment) <==>
              GoesOnAt(ps, raws, i, r.kind == Comment && p.form != "" && p.form[|p.form| - 1] == '\n'))
            && (AfterToken(raws', i + 1, notComment) <==> AfterToken(raws, i, r.kind != Comment))
  {
  }

  lemma MoreParts(p: Part, r: Raw, ps: seq<Part>, raws: seq<Raw>, inComment: bool, notComment: bool, l: Lexing)
    requires Divided(ps, raws, r.kind == Comment && p.form != "" && p.form[|p.form| - 1] == '\n', r.kind != Comment, l)
    requires PartOk([p] + ps, [r] + raws, 0, inComment, notComment) && |r.text| <= 65535
    ensures Divided([p] + ps, [r] + raws, inComment, notComment, Prepend(r, l))
    ensures Whole([p] + ps) == p.gap + p.form + Whole(ps)
  {
    hide PartOk, Stops, GoesOnAt, AllGap;
    var ps', raws' := [p] + ps, [r] + raws;
    forall i | 0 <= i < |ps'| - 1 ensures PartOk(ps', raws', i, inComment, notComment) && |raws'[i].text| <= 65535 {
      if i > 0 { PartAfter(p, r, ps, raws, inComment, notComment, i - 1); }
    }
    PartAfter(p, r, ps, raws, inComment, notComment, |ps| - 1);
    StateAfter(p, r, ps, raws, inComment, notComment, |ps| - 1);
    assert ps'[|ps|] == ps[|ps| - 1];
    assert ps'[1..] == ps;
  }

  /** What comes directly after a token begins as all the rest does. */
  lemma NextBegins(p: Part, ps: seq<Part>, raws: seq<Raw>, inComment: bool, notComment: bool, l: Lexing)
    requires Divided(ps, raws, inComment, notComment, l)
    ensures SameStart(Next([p] + ps, 0), Whole(ps))
  {
    hide IsTokenForm, IsCommentForm, IsBlockLine, AllGap, DotWord, Stops;
    assert ([p] + ps)[1] == ps[0];
    FormNotEmpty(ps, raws, inComment, notComment, l);
    if ps[0].form == "" { assert ps[1..] == []; }
  }

  lemma FormNotEmpty(ps: seq<Part>, raws: seq<Raw>, inComment: bool, notComment: bool, l: Lexing)
    requires Divided(ps, raws, inComment, notComment, l)
    ensures ps[0].form == "" ==> |ps| == 1
  {
    hide Stops;
    if |ps| > 1 { assert PartOk(ps, raws, 0, inComment, notComment); }
  }

  /** The line of a block comment that is read next. */
  lemma BlockForm(s: string) returns (form: string)
    requires ReadBlock(s).Piece?
    ensures var Piece(kind, text, rest, more) := ReadBlock(s);
            && kind == Comment && IsBlockLine(form, text) && s == form + rest
            && form != "" && (form[|form| - 1] == '\n' <==> more)
  {
    hide BlockLength, IsBlockLine;
    var n := BlockLength(s);
    BlockPasses(s);
    var close := if s[n] == '\n' then "\n" else "*/";
    form := s[..n] + close;
    LineUpTo(s, n, close);
  }

  lemma LineUpTo(s: string, n: nat, close: string)
    requires n + |close| <= |s| && s[n..n + |close|] == close && (close == "\n" || close == "*/")
    requires forall k :: 0 <= k < n ==> s[k] != '\n' && !(k + 1 < |s| && s[k] == '*' && s[k + 1] == '/')
    ensures IsBlockLine(s[..n] + close, s[..n]) && s == s[..n] + close + s[n + |close|..]
  {
    var form := s[..n] + close;
    assert form == s[..n + |close|];
    forall k | 0 <= k < n ensures form[k] != '\n' && !(form[k] == '*' && form[k + 1] == '/') {
      assert form[k] == s[k] && form[k + 1] == s[k + 1];
    }
  }

  lemma {:induction false} BlockPasses(s: string)
    ensures var n := BlockLength(s);
            && (forall k :: 0 <= k < n ==> s[k] != '\n' && !(k + 1 < |s| && s[k] == '*' && s[k + 1] == '/'))
            && (n < |s| && s[n] != '\n' ==> n + 1 < |s| && s[n] == '*' && s[n + 1] == '/')
  {
    if s != "" && s[0] != '\n' && !Begins(s, '*', '/') {
      BlockPasses(s[1..]);
      var n := BlockLength(s);
      forall k | 0 < k < n ensures s[k] != '\n' && !(k + 1 < |s| && s[k] == '*' && s[k + 1] == '/') {
        assert s[1..][k - 1] == s[k] && (k + 1 < |s| ==> s[1..][k] == s[k + 1]);
      }
    }
  }

  /** What follows a token, as far as its first character. */
  predicate SameStart(next: string, rest: string) {
    (next == "" <==> rest == "") && (rest != "" ==> next[0] == rest[0])
  }

  /** A comment that begins here, as it stands in the text. */
  lemma CommentForm(s: string) returns (form: string)
    requires s != "" && ReadToken(s).Piece? && ReadToken(s).kind == Comment
    ensures var Piece(kind, text, rest, more) := ReadToken(s);
            && s == form + rest && |form| > 1 && form[0] == '/' && (form[|form| - 1] == '\n' <==> more)
            && forall next :: SameStart(next, rest) ==> IsCommentForm(form, text, next)
  {
    hide ReadBlock, FirstKind, IsBlockLine;
    CommentBegins(s);
    if Begins(s, '/', '/') {
      form := LineForm(s);
    } else {
      var line := BlockForm(s[2..]);
      form := "/*" + line;
      assert form[2..] == line && s == "/*" + s[2..];
      assert "/*" + line + ReadBlock(s[2..]).rest == "/*" + (line + ReadBlock(s[2..]).rest);
      assert form[|form| - 1] == line[|line| - 1];
    }
  }

  lemma LineForm(s: string) returns (form: string)
    requires Begins(s, '/', '/')
    ensures var Piece(kind, text, rest, more) := ReadLine(s[2..]);
            && form == "//" + text && s == form + rest && form[|form| - 1] != '\n' && !more
            && forall next :: SameStart(next, rest) ==> IsCommentForm(form, text, next)
  {
    var n := LineLength(s[2..]);
    form := "//" + s[2..][..n];
    assert s == form + s[2..][n..];
  }

  lemma CommentBegins(s: string)
    requires s != "" && ReadToken(s).Piece? && ReadToken(s).kind == Comment
    ensures Begins(s, '/', '/') || Begins(s, '/', '*')
  {
  }

  /** A word that begins with a dot is told from the token's own text. */
  lemma DotIs(s: string, kind: Kind, text: string, rest: string)
    requires s != "" && ReadToken(s) == Piece(kind, text, rest, false) && kind != Comment
    requires Lexeme(kind, text) && s == text + rest && EndsBefore(kind, text, rest)
    ensures StartsDotted(s) <==> DotWord(text)
  {
    hide IdentLength, StringLength;
    assert text[0] == s[0] && (|text| > 1 ==> s[1] == text[1]);
    if text == "." && rest != "" { assert s[1] == rest[0]; }
  }

  lemma LastPart(gap: string, r: Raw, notComment: bool)
    requires AllGap(gap) && r == Raw(Eof, "", gap != "" && notComment, '\n' in gap)
    ensures Divided([Part(gap, "")], [r], false, notComment, Tokens([r])) && Whole([Part(gap, "")]) == gap
  {
    assert [Part(gap, "")][1..] == [];
  }

  lemma StopPart(gap: string, rest: string, inComment: bool, notComment: bool, l: Lexing)
    requires !l.Tokens? && AllGap(gap) && (inComment ==> gap == "") && Stops(rest, inComment, l)
    ensures Divided([Part(gap, rest)], [Raw(Eof, "", false, false)], inComment, notComment, l)
    ensures Whole([Part(gap, rest)]) == gap + rest
  {
    hide Stops;
    assert [Part(gap, rest)][1..] == [];
    assert gap + rest + "" == gap + rest;
  }

  lemma CommentPart(gap: string, form: string, r: Raw, ps: seq<Part>, raws: seq<Raw>, notComment: bool)
    requires |ps| == |raws| && r.kind == Comment && IsCommentForm(form, r.text, Next([Part(gap, form)] + ps, 0))
    requires AllGap(gap) && (r.eol <==> '\n' in gap) && (r.space <==> gap != "" && notComment)
    requires form != "" && form[0] == '/'
    ensures PartOk([Part(gap, form)] + ps, [r] + raws, 0, false, notComment)
  {
  }

  lemma TokenPart(gap: string, r: Raw, ps: seq<Part>, raws: seq<Raw>, notComment: bool)
    requires |ps| == |raws| && r.kind != Comment && IsTokenForm(r.kind, r.text, Next([Part(gap, r.text)] + ps, 0))
    requires AllGap(gap) && (r.eol <==> '\n' in gap)
    requires r.space <==> notComment && (gap != "" || DotWord(r.text))
    ensures PartOk([Part(gap, r.text)] + ps, [r] + raws, 0, false, notComment)
  {
    hide DotWord, AllGap, IsWordText, IsStringText, IsSingle;
  }

  /** The first token of a text that does not begin with a blank, as it stands there. */
  lemma FirstPart(gap: string, t: string, notComment: bool, ps: seq<Part>, raws: seq<Raw>) returns (p: Part)
    requires t != "" && !IsBlank(t[0]) && t[0] <= (127 as char) && ReadToken(t).Piece? && AllGap(gap)
    requires var Piece(kind, text, rest, more) := ReadToken(t);
             Divided(ps, raws, more, kind != Comment, Lex(rest, more, kind != Comment)) && Whole(ps) == rest
    ensures var Piece(kind, text, rest, more) := ReadToken(t);
            && p.gap == gap && t == p.form + rest
            && (kind == Comment && p.form != "" && p.form[|p.form| - 1] == '\n' <==> more)
            && PartOk([p] + ps,
                [Raw(kind, text, if StartsDotted(t) then notComment else gap != "" && notComment, '\n' in gap)]
                + raws, 0, false, notComment)
  {
    hide ReadToken, StartsDotted, Lexeme, IsTokenForm, IsCommentForm, AllGap, DotWord, Whole, Next, PartOk, StaysApart,
      EndOk;
    var Piece(kind, text, rest, more) := ReadToken(t);
    var l := Lex(rest, more, kind != Comment);
    var r := Raw(kind, text, if StartsDotted(t) then notComment else gap != "" && notComment, '\n' in gap);
    if kind == Comment {
      var form := CommentForm(t);
      p := Part(gap, form);
      NextBegins(p, ps, raws, more, false, l);
      NoDot(t);
      CommentPart(gap, form, r, ps, raws, notComment);
    } else {
      ReadIs(t);
      LexemeStarts(kind, text);
      p := Part(gap, text);
      NextBegins(p, ps, raws, more, true, l);
      LexemeForm(kind, text, Next([p] + ps, 0));
      DotIs(t, kind, text, rest);
      TokenPart(gap, r, ps, raws, notComment);
    }
  }

  lemma NoDot(t: string)
    requires t != "" && ReadToken(t).Piece? && ReadToken(t).kind == Comment
    ensures !StartsDotted(t) && t[0] == '/'
  {
    CommentBegins(t);
  }

  // When a text is not read

  lemma UnclosedBlock(s: string)
    requires ReadBlock(s) == Unclosed
    ensures OpenLine(s)
  {
    BlockPasses(s);
  }

  lemma {:induction false} UnclosedString(s: string, n: nat)
    requires StringLength(s) == None
    ensures !ClosesAt(s, n)
    decreases |s|
  {
    if s != "" && s[0] != '"' {
      var k := if s[0] == '\\' then 2 else 1;
      if k <= |s| && n >= k && n < |s| {
        UnclosedString(s[k..], n - k);
        BackslashesPast(s, k, n);
        CloseShifts(s, k, n);
      } else {
        assert Backslashes(s, 0) == 0;
        assert |s| > 1 ==> Backslashes(s, 1) == if s[0] == '\\' then 1 else 0;
      }
    }
  }

  lemma CloseShifts(s: string, k: nat, n: nat)
    requires 1 <= k <= 2 && k <= n < |s| && (if s[0] == '\\' then k == 2 else k == 1)
    requires !ClosesAt(s[k..], n - k)
    ensures !ClosesAt(s, n)
  {
    if ClosesAt(s, n) {
      BackslashesPast(s, k, n);
      forall i | 0 <= i < n - k && s[k..][i] == '"' ensures Backslashes(s[k..], i) % 2 == 1 {
        BackslashesPast(s, k, i + k);
        assert s[i + k] == '"';
      }
    }
  }

  /** Nothing is read of a token that has no end. */
  lemma TokenUnended(t: string)
    requires t != "" && ReadToken(t) == Unclosed
    ensures Unended(t, false)
  {
    hide FirstKind, IdentLength, StringLength, ReadBlock, OpenLine, ClosesAt;
    if Begins(t, '/', '*') && !Begins(t, '/', '/') {
      UnclosedBlock(t[2..]);
    } else {
      UnclosedIsString(t);
      forall n ensures !ClosesAt(t[1..], n) { UnclosedString(t[1..], n); }
    }
  }

  lemma UnclosedIsString(t: string)
    requires t != "" && !Begins(t, '/', '*') && ReadToken(t) == Unclosed
    ensures t[0] == '"' && StringLength(t[1..]) == None
  {
  }

  lemma TokenOverlong(t: string)
    requires t != "" && !IsBlank(t[0]) && t[0] <= (127 as char) && ReadToken(t).Piece? && |ReadToken(t).text| > 65535
    ensures Overlong(t, false)
  {
    hide ReadToken, Lexeme, IsTokenForm, IsCommentForm, StaysApart;
    var Piece(kind, text, rest, more) := ReadToken(t);
    if kind == Comment {
      var form := CommentForm(t);
      assert SameStart(rest, rest);
      assert ReadsAs(form, text, rest, false);
    } else {
      ReadIs(t);
      LexemeStarts(kind, text);
      LexemeForm(kind, text, rest);
      assert ReadsAs(text, text, rest, false);
    }
  }

  lemma LineOverlong(s: string)
    requires ReadBlock(s).Piece? && |ReadBlock(s).text| > 65535
    ensures Overlong(s, true)
  {
    hide ReadBlock, IsBlockLine;
    var form := BlockForm(s);
    assert ReadsAs(form, ReadBlock(s).text, ReadBlock(s).rest, true);
  }

  // The whole text

  /** A line of a block comment, or why it is not read. */
  lemma {:induction false} LineDivided(s: string, notComment: bool) returns (ps: seq<Part>, raws: seq<Raw>)
    ensures |ps| == |raws| && Whole(ps) == s && Divided(ps, raws, true, notComment, Lex(s, true, notComment))
    decreases |s|, 0
  {
    hide ReadBlock, Divided, PartOk, IsBlockLine, Whole, Stops;
    var r := ReadBlock(s);
    if r == Unclosed || |r.text| > 65535 {
      if r == Unclosed { UnclosedBlock(s); } else { LineOverlong(s); }
      StopsHere(s, true);
      StopPart("", s, true, notComment, Unsupported);
      return [Part("", s)], [Raw(Eof, "", false, false)];
    }
    var form := BlockForm(s);
    ps, raws := LexDivided(r.rest, r.more, false);
    LinePart(form, r.text, ps, raws, notComment);
    var line := Raw(Comment, r.text, false, true);
    MoreParts(Part("", form), line, ps, raws, true, notComment, Lex(r.rest, r.more, false));
    ps, raws := [Part("", form)] + ps, [line] + raws;
    assert "" + form == form;
  }

  lemma StopsHere(rest: string, inComment: bool)
    requires Unended(rest, inComment) || Overlong(rest, inComment)
    ensures Stops(rest, inComment, Unsupported)
  {
  }

  /** Every text is its tokens as they stand in it and the gaps before them, so that every
      character belongs to exactly one; or it has a place where reading stops. */
  lemma {:induction false} LexDivided(s: string, inComment: bool, notComment: bool)
    returns (ps: seq<Part>, raws: seq<Raw>)
    ensures |ps| == |raws| && Whole(ps) == s
    ensures Divided(ps, raws, inComment, notComment, Lex(s, inComment, notComment))
    decreases |s|, 1
  {
    hide ReadToken, ReadBlock, StartsDotted, Divided, PartOk, SkipBlanks, LineEnds, AllGap, Whole, IsBlank, Stops;
    if inComment {
      ps, raws := LineDivided(s, notComment);
      return;
    }
    GapIs(s);
    var gap, t := Gap(s), SkipBlanks(s);
    if t == "" {
      var r := Raw(Eof, "", gap != "" && notComment, LineEnds(s));
      LastPart(gap, r, notComment);
      return [Part(gap, "")], [r];
    }
    if t[0] > (127 as char) || ReadToken(t) == Unclosed || |ReadToken(t).text| > 65535 {
      if t[0] > (127 as char) {
        OtherStops(t);
      } else {
        if ReadToken(t) == Unclosed { TokenUnended(t); } else { TokenOverlong(t); }
        StopsHere(t, false);
      }
      StopPart(gap, t, false, notComment, Lex(s, false, notComment));
      return [Part(gap, t)], [Raw(Eof, "", false, false)];
    }
    var Piece(kind, text, rest, more) := ReadToken(t);
    ps, raws := LexDivided(rest, more, kind != Comment);
    var p := FirstPart(gap, t, notComment, ps, raws);
    var r := Raw(kind, text, if StartsDotted(t) then notComment else gap != "" && notComment, LineEnds(s));
    MoreParts(p, r, ps, raws, false, notComment, Lex(rest, more, kind != Comment));
    ps, raws := [p] + ps, [r] + raws;
    AppendAssociates(gap, p.form, rest);
  }

  lemma OtherStops(t: string)
    requires t != "" && t[0] > (127 as char)
    ensures Stops(t, false, NonAscii)
  {
  }

  lemma LinePart(form: string, text: string, ps: seq<Part>, raws: seq<Raw>, notComment: bool)
    requires |ps| == |raws| && IsBlockLine(form, text)
    ensures PartOk([Part("", form)] + ps, [Raw(Comment, text, false, true)] + raws, 0, true, notComment)
  {
  }

  /** The text that is read: nothing of it is lost. */
  lemma LexParts(s: string, inComment: bool, notComment: bool) returns (ps: seq<Part>)
    requires Lex(s, inComment, notComment).Tokens?
    ensures PartsOk(ps, Lex(s, inComment, notComment).raws, inComment, notComment) && Whole(ps) == s
  {
    hide Lex, PartOk, Whole;
    var raws;
    ps, raws := LexDivided(s, inComment, notComment);
  }

  /** A token as stored has its text and its space from where it stands, and it ends a line
      just when a line feed follows in the gap, or its block comment goes on. */
  lemma StoredPart(ps: seq<Part>, raws: seq<Raw>, i: nat)
    requires PartsOk(ps, raws, false, false) && i < |raws|
    ensures var tok := Stored(raws)[i];
            && tok.kind == raws[i].kind && tok.text == raws[i].text && tok.space == raws[i].space
            && (tok.end <==>
              i + 1 < |raws| && (GoesOnAt(ps, raws, i + 1, false) || '\n' in ps[i + 1].gap))
  {
    hide IsTokenForm, IsCommentForm, IsBlockLine, AllGap, DotWord;
    if i + 1 < |raws| { assert PartOk(ps, raws, i + 1, false, false); }
  }
}
