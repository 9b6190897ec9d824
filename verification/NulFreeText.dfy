/** Of a text without NUL the tokens have none either, nor what is printed of them. */
module NulFreeText {
  import opened Common
  import opened Tokenizer
  import opened Statements
  import opened ParserFacts
  import opened Framing

  predicate PieceIsNulFree(p: Piece) {
    p.Piece? ==> NulFree(p.text) && NulFree(p.rest)
  }

  lemma SliceNulFree(s: string, i: nat, j: nat)
    requires NulFree(s) && i <= j <= |s|
    ensures NulFree(s[i..j]) && NulFree(s[..j]) && NulFree(s[i..])
  {
  }

  lemma BlockNulFree(s: string)
    requires NulFree(s)
    ensures PieceIsNulFree(ReadBlock(s))
  {
    hide BlockLength, NulFree;
    var n := BlockLength(s);
    if n < |s| {
      SliceNulFree(s, n + 1, n + 1);
      SliceNulFree(s, 0, n);
      if s[n] != '\n' { SliceNulFree(s, n + 2, n + 2); }
    }
  }

  lemma LineNulFree(s: string)
    requires NulFree(s)
    ensures PieceIsNulFree(ReadLine(s))
  {
    hide LineLength, NulFree;
    SliceNulFree(s, LineLength(s), LineLength(s));
  }

  lemma WordNulFree(kind: Kind, s: string)
    requires NulFree(s) && s != ""
    ensures PieceIsNulFree(ReadWord(kind, s))
  {
    hide IdentLength, NulFree;
    var n := 1 + IdentLength(kind, s[0], s[1..]);
    SliceNulFree(s, n, n);
    if n < |s| { SliceNulFree(s, n + 1, n + 1); }
  }

  lemma StringNulFree(s: string)
    requires NulFree(s) && s != ""
    ensures PieceIsNulFree(ReadString(s))
  {
    hide StringLength, NulFree;
    if StringLength(s[1..]).Some? {
      var n := 1 + StringLength(s[1..]).value;
      SliceNulFree(s, n, n);
    }
  }

  lemma TokenReadNulFree(s: string)
    requires NulFree(s) && s != ""
    ensures PieceIsNulFree(ReadToken(s))
  {
    hide ReadBlock, ReadLine, ReadWord, ReadString, FirstKind, NulFree;
    SliceNulFree(s, 1, 1);
    if |s| >= 2 {
      SliceNulFree(s, 2, 2);
      LineNulFree(s[2..]);
      BlockNulFree(s[2..]);
    }
    StringNulFree(s);
    WordNulFree(FirstKind(s), s);
  }

  lemma {:induction false} BlanksNulFree(s: string)
    requires NulFree(s)
    ensures NulFree(SkipBlanks(s))
  {
    if s != "" && IsBlank(s[0]) { BlanksNulFree(s[1..]); }
  }

  predicate NulFreeRaws(raws: seq<Raw>) {
    forall i :: 0 <= i < |raws| ==> NulFree(raws[i].text)
  }

  lemma {:induction false} LexedNulFree(s: string, inComment: bool, notComment: bool)
    requires NulFree(s) && Lex(s, inComment, notComment).Tokens?
    ensures NulFreeRaws(Lex(s, inComment, notComment).raws)
    decreases |s|
  {
    hide ReadToken, ReadBlock, SkipBlanks, NulFree, StartsDotted, LineEnds;
    if inComment {
      BlockNulFree(s);
      LexedNulFree(ReadBlock(s).rest, ReadBlock(s).more, false);
    } else {
      var r := SkipBlanks(s);
      BlanksNulFree(s);
      if r == "" {
        assert NulFree("") by { NothingNulFree(); }
      } else {
        TokenReadNulFree(r);
        var p := ReadToken(r);
        LexedNulFree(p.rest, p.more, p.kind != Comment);
      }
    }
  }

  lemma NothingNulFree()
    ensures NulFree("")
  {
  }

  predicate NulFreeTokens(t: seq<Token>) {
    forall i :: 0 <= i < |t| ==> NulFree(t[i].text)
  }

  lemma {:induction false} DoubledNulFree(s: string)
    requires NulFree(s)
    ensures NulFree(Doubled(s))
  {
    if s != "" { DoubledNulFree(s[1..]); }
  }

  lemma TokenNulFree(tok: Token)
    requires NulFree(tok.text)
    ensures NulFree(TokenText(tok))
  {
    hide Doubled;
    if tok.kind == String && |tok.text| >= 2 { DoubledNulFree(tok.text[1..|tok.text| - 1]); }
  }

  lemma {:induction false} TokensNulFree(vis: Vis, t: seq<Token>)
    requires NulFreeTokens(t)
    ensures NulFree(StmtTokens(vis, t))
  {
    hide TokenText;
    if t != [] {
      TokensNulFree(vis, t[..|t| - 1]);
      TokenNulFree(t[|t| - 1]);
    }
  }

  lemma {:induction false} StmtsNulFree(t: seq<Token>, ss: seq<Stmt>)
    requires NulFreeTokens(t) && InTokens(t, ss)
    ensures NulFree(StmtsText(t, ss))
  {
    hide StmtTokens;
    if ss != [] {
      var s := ss[|ss| - 1];
      StmtsNulFree(t, ss[..|ss| - 1]);
      TokensNulFree(s.vis, t[s.lo..s.hi]);
    }
  }

  lemma SameNulFree(t: seq<Token>, t': seq<Token>)
    requires NulFreeTokens(t) && Same(t, t')
    ensures NulFreeTokens(t')
  {
  }
}
