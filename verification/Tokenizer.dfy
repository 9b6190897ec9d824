/** The tokenizer of nvptx-as. */
module Tokenizer {
  import opened Common

  datatype Kind = Eof | Char(c: char) | Symbol | Label | Ident | Dotted | Number | String | Comment

  /** `space`: preceded by space; `end`: followed by the end of the line. The text
      of a comment is what comes after its opening. */
  datatype Token = Token(kind: Kind, text: string, space: bool, end: bool)

  predicate IsBlank(c: char) {
    c == ' ' || c == '\t' || c == '\r' || c == '\U{0B}' || c == '\n'
  }

  predicate IsLetter(c: char) {
    'a' <= c <= 'z' || 'A' <= c <= 'Z'
  }

  /** Whether an identifier or number goes on with `c` after `prev`. */
  predicate Continues(kind: Kind, prev: char, c: char) {
    || IsLetter(c) || IsDigit(c) || c == '_' || c == '$'
    || (c == '.' && kind != Dotted)
    || ((c == '+' || c == '-') && kind == Number && prev in {'e', 'E', 'p', 'P'})
  }

  function IdentLength(kind: Kind, prev: char, s: string): (n: nat)
    ensures n <= |s|
    decreases |s|
  {
    if s == "" || !Continues(kind, prev, s[0]) then 0 else 1 + IdentLength(kind, s[0], s[1..])
  }

  /** What is read of a string after its opening quote; None if it is not closed. */
  function StringLength(s: string): (n: Option<nat>)
    ensures n.Some? ==> 0 < n.value <= |s|
  {
    if s == "" then None
    else if s[0] == '"' then Some(1)
    else
      var k := if s[0] == '\\' then 2 else 1;
      if k > |s| then None
      else
        match StringLength(s[k..])
        case None => None
        case Some(n) => Some(k + n)
  }

  /** Up to the end of the line. */
  function LineLength(s: string): (n: nat)
    ensures n <= |s| && (n < |s| ==> s[n] == '\n') && '\n' !in s[..n]
  {
    if s == "" || s[0] == '\n' then 0 else 1 + LineLength(s[1..])
  }

  /** `s` begins with these two characters. */
  predicate Begins(s: string, a: char, b: char) {
    |s| >= 2 && s[0] == a && s[1] == b
  }

  /** Up to the end of the line or of the block comment. */
  function BlockLength(s: string): (n: nat)
    ensures n <= |s|
    ensures n < |s| && s[n] != '\n' ==> n + 2 <= |s|
  {
    if s == "" || s[0] == '\n' || Begins(s, '*', '/') then 0 else 1 + BlockLength(s[1..])
  }

  /** A token, the text after it, and whether a block comment goes on there. */
  datatype Piece = Piece(kind: Kind, text: string, rest: string, more: bool) | Unclosed

  /** A line of a block comment. */
  function ReadBlock(s: string): (r: Piece)
    ensures r.Piece? ==> |r.rest| < |s|
  {
    var n := BlockLength(s);
    if n == |s| then Unclosed
    else if s[n] == '\n' then Piece(Comment, s[..n], s[n + 1..], true)
    else Piece(Comment, s[..n], s[n + 2..], false)
  }

  /** The kind of identifier or number that `s` begins with. */
  function WordKind(s: string): Option<Kind> {
    if s == "" then None
    else
      var c := s[0];
      if c == '.' && (|s| == 1 || !IsDigit(s[1])) then Some(Dotted)
      else if c == '.' || IsDigit(c) then Some(Number)
      else if c == '$' || c == '%' then Some(Ident)
      else if IsLetter(c) || c == '_' then Some(Symbol)
      else None
  }

  /** The kind of token, other than a comment, that `s` begins with. */
  function FirstKind(s: string): Kind
    requires s != ""
  {
    if s[0] == '"' then String
    else
      match WordKind(s)
      case None => Char(s[0])
      case Some(kind) => kind
  }

  predicate IsWord(kind: Kind) {
    kind == Dotted || kind == Number || kind == Ident || kind == Symbol
  }

  /** An identifier or number; a colon after it makes it a label. */
  function ReadWord(kind: Kind, s: string): Piece
    requires s != ""
  {
    var n := 1 + IdentLength(kind, s[0], s[1..]);
    if n < |s| && s[n] == ':' then Piece(Label, s[..n + 1], s[n + 1..], false)
    else Piece(kind, s[..n], s[n..], false)
  }

  function ReadString(s: string): Piece
    requires s != ""
  {
    match StringLength(s[1..])
    case None => Unclosed
    case Some(n) => Piece(String, s[..1 + n], s[1 + n..], false)
  }

  function ReadLine(s: string): Piece {
    var n := LineLength(s);
    Piece(Comment, s[..n], s[n..], false)
  }

  /** A token at the start of a text that does not begin with a blank. */
  function ReadToken(s: string): (r: Piece)
    requires s != ""
    ensures r.Piece? ==> |r.rest| < |s|
  {
    if Begins(s, '/', '/') then ReadLine(s[2..])
    else if Begins(s, '/', '*') then ReadBlock(s[2..])
    else if FirstKind(s) == String then ReadString(s)
    else if IsWord(FirstKind(s)) then ReadWord(FirstKind(s), s)
    else Piece(FirstKind(s), s[..1], s[1..], false)
  }

  /** Tokens are stored with a 16-bit length. */
  const MAX_LENGTH := 65535

  /** A token as read: `eol` is whether a line ends before it. */
  datatype Raw = Raw(kind: Kind, text: string, space: bool, eol: bool)

  /** `Unsupported`: a comment or string is not closed, or a token too long. */
  datatype Lexing = Tokens(raws: seq<Raw>) | NonAscii | Unsupported

  function Prepend(r: Raw, l: Lexing): Lexing {
    match l
    case Tokens(raws) => Tokens([r] + raws)
    case bad => bad
  }

  function SkipBlanks(s: string): (r: string)
    ensures |r| <= |s| && (r != "" ==> !IsBlank(r[0]))
  {
    if s != "" && IsBlank(s[0]) then SkipBlanks(s[1..]) else s
  }

  /** The blanks `s` begins with hold a line feed. */
  predicate LineEnds(s: string) {
    s != "" && IsBlank(s[0]) && (s[0] == '\n' || LineEnds(s[1..]))
  }

  /** Whether `s` begins with an identifier that starts with a dot. */
  predicate StartsDotted(s: string) {
    WordKind(s) == Some(Dotted)
  }

  /** All tokens of `s`, up to the terminator. */
  function Lex(s: string, inComment: bool, notComment: bool): Lexing
    decreases |s|
  {
    if inComment then
      match ReadBlock(s)
      case Unclosed => Unsupported
      case Piece(kind, text, rest, more) =>
        if |text| > MAX_LENGTH then Unsupported else Prepend(Raw(kind, text, false, true), Lex(rest, more, false))
    else
      var r := SkipBlanks(s);
      var space, eol := |r| < |s| && notComment, LineEnds(s);
      if r == "" then Tokens([Raw(Eof, "", space, eol)])
      else if r[0] > (127 as char) then NonAscii
      else
        match ReadToken(r)
        case Unclosed => Unsupported
        case Piece(kind, text, rest, more) =>
          if |text| > MAX_LENGTH then Unsupported
          else Prepend(Raw(kind, text, if StartsDotted(r) then notComment else space, eol),
            Lex(rest, more, kind != Comment))
  }

  /** The tokens as stored. */
  function Stored(raws: seq<Raw>): (toks: seq<Token>)
    ensures |toks| == |raws|
  {
    seq(|raws|, i requires 0 <= i < |raws| =>
      Token(raws[i].kind, raws[i].text, raws[i].space, i + 1 < |raws| && raws[i + 1].eol))
  }

  // The pointer loops

  method ScanIdent(s: string, start: nat, kind: Kind) returns (ptr: nat)
    requires 0 < start <= |s|
    ensures ptr == start + IdentLength(kind, s[start - 1], s[start..]) <= |s|
  {
    ptr := start;
    while ptr < |s| && Continues(kind, s[ptr - 1], s[ptr])
      invariant start <= ptr <= |s|
      invariant IdentLength(kind, s[start - 1], s[start..]) == ptr - start + IdentLength(kind, s[ptr - 1], s[ptr..])
    {
      assert s[ptr..][1..] == s[ptr + 1..];
      ptr := ptr + 1;
    }
  }

  method ScanString(s: string, start: nat) returns (ptr: nat)
    requires start <= |s| && StringLength(s[start..]).Some?
    ensures ptr == start + StringLength(s[start..]).value <= |s|
  {
    ptr := start;
    while true
      invariant start <= ptr <= |s| && StringLength(s[ptr..]).Some?
      invariant StringLength(s[start..]).value == ptr - start + StringLength(s[ptr..]).value
      decreases |s| - ptr
    {
      if s[ptr] == '"' {
        return ptr + 1;
      }
      assert s[ptr..][1..] == s[ptr + 1..];
      if s[ptr] == '\\' {
        assert s[ptr..][2..] == s[ptr + 2..];
        ptr := ptr + 1;
      }
      ptr := ptr + 1;
    }
  }

  method ScanLine(s: string, start: nat) returns (ptr: nat)
    requires start <= |s|
    ensures ptr == start + LineLength(s[start..]) <= |s|
  {
    ptr := start;
    while ptr < |s| && s[ptr] != '\n'
      invariant start <= ptr <= |s| && LineLength(s[start..]) == ptr - start + LineLength(s[ptr..])
    {
      assert s[ptr..][1..] == s[ptr + 1..];
      ptr := ptr + 1;
    }
  }

  /** A text from `start` on, cut at `ptr`. */
  lemma Cut(s: string, start: nat, ptr: nat)
    requires start <= ptr <= |s|
    ensures s[start..][..ptr - start] == s[start..ptr] && s[start..][ptr - start..] == s[ptr..]
  {
  }

  method ScanBlockLine(s: string, start: nat) returns (ptr: nat)
    requires start <= |s|
    ensures ptr == start + BlockLength(s[start..]) <= |s|
  {
    ptr := start;
    while ptr < |s| && s[ptr] != '\n' && !Begins(s[ptr..], '*', '/')
      invariant start <= ptr <= |s| && BlockLength(s[start..]) == ptr - start + BlockLength(s[ptr..])
    {
      assert s[ptr..][1..] == s[ptr + 1..];
      ptr := ptr + 1;
    }
  }

  /** Reads a line of a block comment. */
  method ScanBlock(s: string, start: nat) returns (text: string, ptr: nat, more: bool)
    requires start <= |s| && ReadBlock(s[start..]) != Unclosed
    ensures start < ptr <= |s| && ReadBlock(s[start..]) == Piece(Comment, text, s[ptr..], more)
  {
    hide BlockLength;
    ptr := ScanBlockLine(s, start);
    text := s[start..ptr];
    Cut(s, start, ptr);
    more := s[ptr] == '\n';
    if more {
      Cut(s, start, ptr + 1);
      ptr := ptr + 1;
    } else {
      Cut(s, start, ptr + 2);
      ptr := ptr + 2;
    }
  }

  /** Passes over blanks. */
  method ScanBlanks(s: string, start: nat) returns (ptr: nat, eol: bool)
    requires start <= |s|
    ensures start <= ptr <= |s| && SkipBlanks(s[start..]) == s[ptr..] && eol == LineEnds(s[start..])
  {
    ptr, eol := start, false;
    while ptr < |s| && IsBlank(s[ptr])
      invariant start <= ptr <= |s| && SkipBlanks(s[start..]) == SkipBlanks(s[ptr..])
      invariant LineEnds(s[start..]) == (eol || LineEnds(s[ptr..]))
    {
      assert s[ptr..][1..] == s[ptr + 1..];
      if s[ptr] == '\n' {
        eol := true;
      }
      ptr := ptr + 1;
    }
  }

  /** Reads a comment. */
  method ScanComment(s: string, start: nat) returns (text: string, ptr: nat, more: bool)
    requires start + 1 < |s| && s[start] == '/' && (s[start + 1] == '/' || s[start + 1] == '*')
    requires ReadToken(s[start..]) != Unclosed
    ensures start < ptr <= |s| && ReadToken(s[start..]) == Piece(Comment, text, s[ptr..], more)
  {
    hide ReadBlock, LineLength;
    Cut(s, start, start + 2);
    if s[start + 1] == '/' {
      ptr := ScanLine(s, start + 2);
      text, more := s[start + 2..ptr], false;
      Cut(s, start + 2, ptr);
    } else {
      text, ptr, more := ScanBlock(s, start + 2);
    }
  }

  /** Reads a token that is not a comment. */
  method ScanPlain(s: string, start: nat) returns (kind: Kind, text: string, ptr: nat)
    requires start < |s| && !Begins(s[start..], '/', '/') && !Begins(s[start..], '/', '*')
    requires ReadToken(s[start..]) != Unclosed
    ensures start < ptr <= |s| && ReadToken(s[start..]) == Piece(kind, text, s[ptr..], false)
  {
    hide ReadBlock, ReadLine, IdentLength, StringLength, FirstKind, WordKind;
    ptr := start + 1;
    Cut(s, start, ptr);
    kind := KindAt(s, start);
    if kind == String {
      ptr := ScanString(s, ptr);
    } else if IsWord(kind) {
      ptr := ScanIdent(s, ptr, kind);
      Cut(s, start, ptr);
      if ptr < |s| && s[ptr] == ':' {
        ptr := ptr + 1;
        kind := Label;
      }
    }
    text := s[start..ptr];
    Cut(s, start, ptr);
  }

  /** Reads a token. */
  method ScanToken(s: string, start: nat) returns (kind: Kind, text: string, ptr: nat, more: bool)
    requires start < |s| && ReadToken(s[start..]) != Unclosed
    ensures start < ptr <= |s| && ReadToken(s[start..]) == Piece(kind, text, s[ptr..], more)
  {
    hide ReadToken;
    if start + 1 < |s| && s[start] == '/' && (s[start + 1] == '/' || s[start + 1] == '*') {
      kind := Comment;
      text, ptr, more := ScanComment(s, start);
    } else {
      kind, text, ptr := ScanPlain(s, start);
      more := false;
    }
  }

  method KindAt(s: string, start: nat) returns (kind: Kind)
    requires start < |s|
    ensures kind == FirstKind(s[start..])
  {
    var c := s[start];
    kind := Char(c);
    if c == '"' {
      kind := String;
    } else if c == '.' && (start + 1 == |s| || !IsDigit(s[start + 1])) {
      kind := Dotted;
    } else if c == '.' || IsDigit(c) {
      kind := Number;
    } else if c == '$' || c == '%' {
      kind := Ident;
    } else if IsLetter(c) || c == '_' {
      kind := Symbol;
    }
  }

  /** `done` before the tokens of a later part, if that has any at all. */
  function After(done: seq<Raw>, l: Lexing): Lexing {
    match l
    case Tokens(raws) => Tokens(done + raws)
    case bad => bad
  }

  lemma AfterPrepend(done: seq<Raw>, r: Raw, l: Lexing)
    ensures After(done, Prepend(r, l)) == After(done + [r], l)
    ensures After([], l) == l
  {
    if l.Tokens? {
      assert done + ([r] + l.raws) == done + [r] + l.raws;
      assert [] + l.raws == l.raws;
    }
  }

  /** Storing one more token: only now is it known whether the one before ends its
      line. */
  lemma StoreNext(done: seq<Raw>, r: Raw)
    ensures Stored(done + [r]) ==
      (if done != [] && r.eol then Stored(done)[|done| - 1 := Stored(done)[|done| - 1].(end := true)] else Stored(done))
      + [Token(r.kind, r.text, r.space, false)]
  {
  }

  /** Reads the next token; None is the error "non-ascii character". */
  method NextToken(s: string, start: nat, inComment: bool, notComment: bool)
    returns (r: Option<Raw>, ptr: nat, more: bool)
    requires start <= |s| && Lex(s[start..], inComment, notComment) != Unsupported
    ensures start <= ptr <= |s|
    ensures r == None ==> Lex(s[start..], inComment, notComment) == NonAscii
    ensures r.Some? && r.value.kind == Eof ==> Lex(s[start..], inComment, notComment) == Tokens([r.value])
    ensures r.Some? && r.value.kind != Eof ==> start < ptr
    ensures r.Some? && r.value.kind != Eof ==>
      Lex(s[start..], inComment, notComment) == Prepend(r.value, Lex(s[ptr..], more, r.value.kind != Comment))
  {
    hide ReadToken, ReadBlock, SkipBlanks, LineEnds, StartsDotted;
    if inComment {
      var text;
      text, ptr, more := ScanBlock(s, start);
      return Some(Raw(Comment, text, false, true)), ptr, more;
    }
    var eol;
    ptr, eol := ScanBlanks(s, start);
    more := false;
    var space := ptr > start && notComment;
    assert ptr > start <==> |s[ptr..]| < |s[start..]|;
    if ptr == |s| {
      return Some(Raw(Eof, "", space, eol)), ptr, more;
    }
    if s[ptr] > (127 as char) {
      return None, ptr, more;
    }
    DottedAt(s, ptr);
    if s[ptr] == '.' && (ptr + 1 == |s| || !IsDigit(s[ptr + 1])) {
      space := notComment;
    }
    ghost var base := ptr;
    var kind, text;
    kind, text, ptr, more := ScanToken(s, ptr);
    NotEof(s[base..]);
    r := Some(Raw(kind, text, space, eol));
  }

  lemma NotEof(s: string)
    ensures s != "" && ReadToken(s).Piece? ==> ReadToken(s).kind != Eof
  {
  }

  /** Reads all tokens; None is the error "non-ascii character". */
  method Tokenize(s: string) returns (r: Option<seq<Token>>)
    requires Lex(s, false, false) != Unsupported
    ensures match Lex(s, false, false)
            case Tokens(raws) => r == Some(Stored(raws))
            case _ => r == None
  {
    hide Lex, Stored;
    var toks: seq<Token>, ptr, inComment, notComment := [], 0, false, false;
    ghost var done: seq<Raw> := [];
    assert s[0..] == s;
    AfterPrepend([], Raw(Eof, "", false, false), Lex(s, false, false));
    while true
      invariant ptr <= |s| && |toks| == |done| && toks == Stored(done)
      invariant Lex(s, false, false) == After(done, Lex(s[ptr..], inComment, notComment))
      decreases |s| - ptr
    {
      var raw;
      raw, ptr, inComment := NextToken(s, ptr, inComment, notComment);
      if raw == None {
        return None;
      }
      var Raw(kind, text, space, eol) := raw.value;
      StoreNext(done, raw.value);
      AfterPrepend(done, raw.value, Lex(s[ptr..], inComment, kind != Comment));
      if toks != [] && eol {
        toks := toks[|toks| - 1 := toks[|toks| - 1].(end := true)];
      }
      toks := toks + [Token(kind, text, space, false)];
      done := done + [raw.value];
      notComment := kind != Comment;
      if kind == Eof {
        return Some(toks);
      }
    }
  }

  lemma DottedAt(s: string, ptr: nat)
    requires ptr < |s|
    ensures StartsDotted(s[ptr..]) <==> s[ptr] == '.' && (ptr + 1 == |s| || !IsDigit(s[ptr + 1]))
  {
  }
}
