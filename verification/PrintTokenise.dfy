/** The round trip for whole files: what the assembler prints is tokenised into the
    tokens of its statements. */
module PrintTokenise {
  import opened Common
  import opened Tokenizer
  import opened Statements
  import opened Lexemes
  import opened ParserSpec
  import opened ParserFacts
  import opened Conservation
  import opened FileShape
  import opened FileLayout
  import opened ShapeSame
  import opened ShapeSteps
  import opened ShapeFacts
  import opened RoundTrip

  /** What the round trip asks of a file: comments that end their line, stand between
      statements, and do not follow a lone slash on its line. */
  predicate PlainFile(t: seq<Token>) {
    && Terminated(t) && PlainItems(t)
    && (forall i :: 0 <= i < |t| ==> PlainComment(t, i))
  }

  predicate PlainComment(t: seq<Token>, i: nat)
    requires i < |t|
  {
    t[i].kind == Comment ==> t[i].end && (i > 0 && t[i - 1].kind == Char('/') ==> t[i - 1].end)
  }

  /** A file as read and parsed: `t0` are the tokens read, `t` the same after
      parsing. */
  predicate Parsed(raws: seq<Raw>, t0: seq<Token>, t: seq<Token>, log: seq<Event>) {
    && RawsOk(raws) && t0 == Stored(raws)
    && Same(t0, t) && EndsAdded(t0, t) && SpacesKept(t0, t, log) && SpacesAdded(t0, t, 0)
    && Tiles(log, 0, |t0| - 1) && SafeEnds(t, log) && NoFirstSpace(t, log, |t0| - 1)
    && (forall i :: 0 <= i < |t0| ==> PlainComment(t0, i)) && Fits(t0, log)
  }

  lemma {:induction false} PutIn(log: seq<Event>, k: nat)
    requires k < |log| && log[k].Put?
    ensures log[k].stmt in AllPuts(log)
  {
    var n := |log| - 1;
    if k < n { PutIn(log[..n], k); }
  }

  lemma {:induction false} FromEvent(log: seq<Event>, dest: Dest, s: Stmt)
    requires s in PutsTo(log, dest)
    ensures exists k :: 0 <= k < |log| && log[k].Put? && log[k].stmt == s
  {
    var n := |log| - 1;
    if s in PutsTo(log[..n], dest) {
      FromEvent(log[..n], dest, s);
      var k :| 0 <= k < n && log[..n][k].Put? && log[..n][k].stmt == s;
      assert log[k].Put?;
    } else {
      assert log[n].Put? && log[n].stmt == s;
    }
  }

  lemma PutBounds(log: seq<Event>, hi: nat, k: nat)
    requires Tiles(log, 0, hi) && k < |log| && log[k].Put?
    ensures log[k].stmt.lo < log[k].stmt.hi <= hi
  {
    PutIn(log, k);
    ListsInOrder(log, Decls, 0, hi);
  }

  /** No statement starts inside another. */
  lemma NoStartInside(log: seq<Event>, hi: nat, k: nat, i: nat)
    requires Tiles(log, 0, hi) && k < |log| && log[k].Put? && log[k].stmt.lo < i < log[k].stmt.hi
    ensures !StartsStmt(log, i)
  {
    if StartsStmt(log, i) {
      var j :| 0 <= j < |log| && log[j].Put? && log[j].stmt.lo == i;
      PutIn(log, j);
      PutIn(log, k);
      PutBounds(log, hi, j);
      ListsInOrder(log, Decls, 0, hi);
      OneCovers(AllPuts(log), 0, hi, log[k].stmt, log[j].stmt, i);
    }
  }

  // One token

  /** What parsing has left of a token. */
  lemma TokenFacts(raws: seq<Raw>, t0: seq<Token>, t: seq<Token>, log: seq<Event>, i: nat)
    requires Parsed(raws, t0, t, log) && i < |t0| - 1
    ensures |t| == |t0| && t[i].kind == t0[i].kind && t[i].text == t0[i].text
    ensures (t0[i].end ==> t[i].end) && PlainComment(t0, i)
    ensures RawOk(Raw(t0[i].kind, t0[i].text, false, false))
  {
    hide Lexeme, Tiles, SafeEnds, SpacesKept, SpacesAdded, NoFirstSpace, IsPunct;
    assert RawOk(raws[i]);
  }

  /** Neighbours as read, and the spaces parsing has left between them. */
  lemma PairFacts(raws: seq<Raw>, t0: seq<Token>, t: seq<Token>, log: seq<Event>, i: nat)
    requires Parsed(raws, t0, t, log) && i + 1 < |t0| - 1
    ensures |t| == |t0| && (t0[i].kind == Comment ==> !t0[i + 1].space)
    ensures
      var a, b := t0[i], t0[i + 1];
      a.text != "" && b.text != "" && a.kind != Comment && b.kind != Comment && !a.end && !b.space ==>
        StaysApart(a.kind, a.text, b.text[0])
    ensures t0[i + 1].space && !t[i + 1].space ==> IsPunct(t0[i]) || StartsStmt(log, i + 1)
    ensures t[i + 1].space && !t0[i + 1].space ==> t0[i + 1].kind == Char('(') || t0[i].kind == Char(')')
  {
    hide Lexeme, StaysApart, Tiles, SafeEnds, NoFirstSpace, IsPunct, EndsAdded, StartsStmt;
    assert RawOk(raws[i + 1]);
    if raws[i + 1].kind != Comment { LexemeStarts(raws[i + 1].kind, raws[i + 1].text); }
    assert RawsApart(raws[i], raws[i + 1]);
    assert t[i + 1].space == t[i + 1].space;
  }

  /** The statement of an event, and whether its tokens are comments. */
  lemma EventFacts(raws: seq<Raw>, t0: seq<Token>, t: seq<Token>, log: seq<Event>, k: nat, i: nat)
    requires Parsed(raws, t0, t, log) && k < |log| && log[k].Put? && log[k].stmt.lo <= i < log[k].stmt.hi
    ensures log[k].stmt.hi < |t| == |t0| && (t0[i].kind == Comment <==> log[k].stmt.vis.form == COMMENT)
    ensures i > log[k].stmt.lo ==> !StartsStmt(log, i)
    ensures !t[log[k].stmt.lo].space
  {
    hide Lexeme, SafeEnds, SpacesKept, SpacesAdded, IsPunct, EndsAdded, Tiles, StartsStmt, RawOk, RawsApart;
    PutBounds(log, |t0| - 1, k);
    if i > log[k].stmt.lo { NoStartInside(log, |t0| - 1, k, i); }
    assert log[k].stmt.lo < |t|;
    assert StmtFits(t0, log[k].stmt);
  }

  /** A token of a statement makes a fine unit. */
  lemma UnitFine(raws: seq<Raw>, t0: seq<Token>, t: seq<Token>, log: seq<Event>, k: nat, i: nat)
    requires Parsed(raws, t0, t, log) && k < |log| && log[k].Put? && log[k].stmt.lo <= i < log[k].stmt.hi
    ensures log[k].stmt.hi < |t| && UnitOk(UnitAt(t, log[k].stmt, i))
  {
    hide Lexeme, Parsed;
    EventFacts(raws, t0, t, log, k, i);
    TokenFacts(raws, t0, t, log, i);
    if log[k].stmt.vis.form == COMMENT {
      CommentNoSpace(raws, t0, t, log, k, i);
    }
  }

  /** A comment in a comment statement has no space before it. */
  lemma CommentNoSpace(raws: seq<Raw>, t0: seq<Token>, t: seq<Token>, log: seq<Event>, k: nat, i: nat)
    requires Parsed(raws, t0, t, log) && k < |log| && log[k].Put? && log[k].stmt.lo <= i < log[k].stmt.hi
    requires log[k].stmt.vis.form == COMMENT
    ensures i < |t| && !t[i].space
  {
    hide Parsed, StartsStmt;
    var s := log[k].stmt;
    EventFacts(raws, t0, t, log, k, i);
    if i > s.lo {
      EventFacts(raws, t0, t, log, k, i - 1);
      PairFacts(raws, t0, t, log, i - 1);
    }
  }

  // Two tokens

  lemma PunctApart(tok: Token, c: char)
    requires IsPunct(tok) && tok.text != ""
    ensures StaysApart(tok.kind, tok.text, c)
  {
  }

  /** Two tokens next to each other in a statement stay apart. */
  lemma PairFine(raws: seq<Raw>, t0: seq<Token>, t: seq<Token>, log: seq<Event>, k: nat, i: nat)
    requires Parsed(raws, t0, t, log) && k < |log| && log[k].Put? && log[k].stmt.lo <= i && i + 1 < log[k].stmt.hi
    ensures log[k].stmt.hi < |t| && Apart(UnitAt(t, log[k].stmt, i), UnitAt(t, log[k].stmt, i + 1))
  {
    hide Lexeme, StaysApart, Parsed, StartsStmt, RawOk;
    var s := log[k].stmt;
    EventFacts(raws, t0, t, log, k, i);
    EventFacts(raws, t0, t, log, k, i + 1);
    TokenFacts(raws, t0, t, log, i);
    TokenFacts(raws, t0, t, log, i + 1);
    PairFacts(raws, t0, t, log, i);
    if s.vis.form != COMMENT {
      HasText(t0[i]);
      HasText(t0[i + 1]);
      if IsPunct(t[i]) {
        PunctApart(t[i], FirstChar(UnitAt(t, s, i + 1)));
      }
    }
  }

  lemma HasText(tok: Token)
    requires RawOk(Raw(tok.kind, tok.text, false, false)) && tok.kind != Comment
    ensures tok.text != ""
  {
    LexemeStarts(tok.kind, tok.text);
  }

  lemma StatementFine(raws: seq<Raw>, t0: seq<Token>, t: seq<Token>, log: seq<Event>, k: nat)
    requires Parsed(raws, t0, t, log) && k < |log| && log[k].Put?
    ensures StmtFine(t, log[k].stmt)
  {
    hide Parsed, UnitOk, Apart;
    var s := log[k].stmt;
    ParsedTiles(raws, t0, t, log);
    PutBounds(log, |t0| - 1, k);
    var us := UnitsOf(t, s);
    forall j | 0 <= j < |us| ensures UnitOk(us[j]) {
      UnitFine(raws, t0, t, log, k, s.lo + j);
    }
    forall j {:trigger us[j]} | 0 <= j < |us| - 1 ensures Apart(us[j], us[j + 1]) {
      PairFine(raws, t0, t, log, k, s.lo + j);
    }
  }

  lemma ParsedTiles(raws: seq<Raw>, t0: seq<Token>, t: seq<Token>, log: seq<Event>)
    requires Parsed(raws, t0, t, log)
    ensures Tiles(log, 0, |t0| - 1) && SafeEnds(t, log) && |t| == |t0|
  {
  }

  // Two statements

  /** The statement that follows a function's header in its list. */
  predicate BodyNext(t: seq<Token>, a: Stmt, b: Stmt) {
    b.lo == a.hi && (Is(t, a.hi, '{') || IsComment(t, a.hi))
  }

  /** In a list, what follows a statement keeps apart from it; the last one keeps
      apart from anything, unless it is a header whose body is still to come. */
  lemma {:induction false} ListSafe(t: seq<Token>, log: seq<Event>, dest: Dest, n: nat)
    requires SafeEnds(t, log) && n <= |log|
    ensures var ss := PutsTo(log[..n], dest);
            && (forall j {:trigger ss[j]} :: 0 <= j < |ss| - 1 ==> LastSafe(t, ss[j]) || BodyNext(t, ss[j], ss[j + 1]))
            && (ss != [] ==>
                  var last := ss[|ss| - 1];
                  LastSafe(t, last) || (n > 0 && log[n - 1] == Put(dest, last) && FnHead(t, log, n - 1)))
  {
    hide LastSafe;
    if n > 0 {
      ListSafe(t, log, dest, n - 1);
      var e, ss1, ss := log[n - 1], PutsTo(log[..n - 1], dest), PutsTo(log[..n], dest);
      assert log[..n][..n - 1] == log[..n - 1];
      if ss1 != [] && !LastSafe(t, ss1[|ss1| - 1]) {
        assert FnHead(t, log, n - 2) && log[n - 2] == Put(dest, ss1[|ss1| - 1]);
        assert e.Put? && e.dest == dest && BodyNext(t, ss1[|ss1| - 1], e.stmt);
      }
      if e.Put? && e.dest == dest {
        assert LastSafe(t, e.stmt) || FnHead(t, log, n - 1);
      }
    }
  }

  /** Every list is safe: no header is left without its body. */
  predicate SafeList(t: seq<Token>, ss: seq<Stmt>) {
    && (forall j {:trigger ss[j]} :: 0 <= j < |ss| - 1 ==> LastSafe(t, ss[j]) || BodyNext(t, ss[j], ss[j + 1]))
    && (ss != [] ==> LastSafe(t, ss[|ss| - 1]))
  }

  lemma ListIsSafe(t: seq<Token>, log: seq<Event>, dest: Dest)
    requires SafeEnds(t, log)
    ensures SafeList(t, PutsTo(log, dest))
  {
    hide LastSafe, BodyNext;
    ListSafe(t, log, dest, |log|);
    assert log[..|log|] == log;
  }

  lemma SafeListAppend(t: seq<Token>, a: seq<Stmt>, b: seq<Stmt>)
    requires SafeList(t, a) && SafeList(t, b)
    ensures SafeList(t, a + b)
  {
    hide LastSafe, BodyNext;
    var ss := a + b;
    forall j {:trigger ss[j]} | 0 <= j < |ss| - 1 ensures LastSafe(t, ss[j]) || BodyNext(t, ss[j], ss[j + 1]) {
      if j >= |a| { assert ss[j] == b[j - |a|] && ss[j + 1] == b[j + 1 - |a|]; }
    }
  }

  lemma {:induction false} VarsSafe(t: seq<Token>, log: seq<Event>, order: seq<string>)
    requires SafeEnds(t, log)
    ensures SafeList(t, VarPuts(log, order))
  {
    hide SafeList, SafeEnds, PutsTo;
    if order == [] {
      assert SafeList(t, []) by { NothingSafe(t); }
    } else {
      var n := |order| - 1;
      VarsSafe(t, log, order[..n]);
      ListIsSafe(t, log, Var(order[n]));
      SafeListAppend(t, VarPuts(log, order[..n]), PutsTo(log, Var(order[n])));
    }
  }

  lemma NothingSafe(t: seq<Token>)
    ensures SafeList(t, [])
  {
  }

  lemma OutputSafe(t: seq<Token>, log: seq<Event>, order: seq<string>)
    requires SafeEnds(t, log)
    ensures SafeList(t, Output(log, order))
  {
    hide SafeList, SafeEnds, PutsTo, VarPuts;
    ListIsSafe(t, log, Decls);
    VarsSafe(t, log, order);
    ListIsSafe(t, log, Fns);
    SafeListAppend(t, PutsTo(log, Decls), VarPuts(log, order));
    SafeListAppend(t, PutsTo(log, Decls) + VarPuts(log, order), PutsTo(log, Fns));
  }

  lemma BraceApart(kind: Kind, text: string, c: char)
    requires text != "" && (c == '{' || (c == '/' && kind != Char('/')))
    ensures StaysApart(kind, text, c)
  {
  }

  /** Two statements of one list, or of different ones, stay apart. */
  lemma NextIsFine(raws: seq<Raw>, t0: seq<Token>, t: seq<Token>, log: seq<Event>, k: nat, j: nat)
    requires Parsed(raws, t0, t, log) && k < |log| && log[k].Put? && j < |log| && log[j].Put?
    requires LastSafe(t, log[k].stmt) || BodyNext(t, log[k].stmt, log[j].stmt)
    ensures NextFine(t, log[k].stmt, log[j].stmt)
  {
    hide Parsed, Lexeme, StaysApart, StartsStmt, RawOk;
    var a, b := log[k].stmt, log[j].stmt;
    ParsedTiles(raws, t0, t, log);
    PutBounds(log, |t0| - 1, k);
    PutBounds(log, |t0| - 1, j);
    EventFacts(raws, t0, t, log, k, a.hi - 1);
    EventFacts(raws, t0, t, log, j, b.lo);
    TokenFacts(raws, t0, t, log, a.hi - 1);
    TokenFacts(raws, t0, t, log, b.lo);
    if !t[a.hi - 1].end && t[a.hi - 1].kind != Comment {
      HasText(t0[a.hi - 1]);
      if IsPunct(t[a.hi - 1]) {
        PunctApart(t[a.hi - 1], FirstChar(UnitAt(t, b, b.lo)));
      } else if !LastSafe(t, a) {
        BodyStarts(t0[b.lo], t[b.lo]);
        BraceApart(t[a.hi - 1].kind, t[a.hi - 1].text, FirstChar(UnitAt(t, b, b.lo)));
      }
    }
  }

  lemma BodyStarts(tok0: Token, tok: Token)
    requires RawOk(Raw(tok0.kind, tok0.text, false, false)) && tok.kind == tok0.kind && tok.text == tok0.text
    ensures tok.kind == Char('{') ==> tok.text == "{"
  {
  }

  /** All that is printed is fine. */
  lemma OutputFine(raws: seq<Raw>, t0: seq<Token>, t: seq<Token>, log: seq<Event>, order: seq<string>)
    requires Parsed(raws, t0, t, log)
    ensures AllFine(t, Output(log, order))
  {
    hide Parsed, StmtFine, NextFine, LastSafe, BodyNext, Output, SafeEnds, Tiles;
    ParsedTiles(raws, t0, t, log);
    OutputSafe(t, log, order);
    var ss := Output(log, order);
    forall j | 0 <= j < |ss| ensures StmtFine(t, ss[j]) {
      var k := EventOf(log, order, ss[j]);
      StatementFine(raws, t0, t, log, k);
    }
    forall j {:trigger ss[j]} | 0 <= j < |ss| - 1 ensures NextFine(t, ss[j], ss[j + 1]) {
      var k := EventOf(log, order, ss[j]);
      var m := EventOf(log, order, ss[j + 1]);
      NextIsFine(raws, t0, t, log, k, m);
    }
  }

  /** Where a printed statement was made. */
  lemma EventOf(log: seq<Event>, order: seq<string>, s: Stmt) returns (k: nat)
    requires s in Output(log, order)
    ensures k < |log| && log[k].Put? && log[k].stmt == s
  {
    hide PutsTo, VarPuts;
    if s in PutsTo(log, Decls) {
      FromEvent(log, Decls, s);
    } else if s in PutsTo(log, Fns) {
      FromEvent(log, Fns, s);
    } else {
      FromVars(log, order, s);
    }
    k :| 0 <= k < |log| && log[k].Put? && log[k].stmt == s;
  }

  lemma {:induction false} FromVars(log: seq<Event>, order: seq<string>, s: Stmt)
    requires s in VarPuts(log, order)
    ensures exists k :: 0 <= k < |log| && log[k].Put? && log[k].stmt == s
  {
    hide PutsTo;
    var n := |order| - 1;
    if s in PutsTo(log, Var(order[n])) {
      FromEvent(log, Var(order[n]), s);
    } else {
      FromVars(log, order[..n], s);
    }
  }

  // The theorem

  lemma StoredTerminated(raws: seq<Raw>)
    requires RawsOk(raws)
    ensures Terminated(Stored(raws))
  {
    hide Lexeme;
    var t := Stored(raws);
    forall i | 0 <= i < |t| - 1 ensures t[i].kind != Eof {
      assert RawOk(raws[i]);
      if raws[i].kind != Comment { LexemeStarts(raws[i].kind, raws[i].text); }
    }
  }

  /** Tokenising what is printed, in any order of the variables, gives back the kinds
      and texts of the tokens printed, although the parser has changed the flags
      that say where spaces and line ends go: just when no printed string holds a
      backslash, which the printer doubles. */
  lemma PrintTokeniseRoundTrip(input: string, order: seq<string>)
    requires Lex(input, false, false).Tokens?
    requires var t := Stored(Lex(input, false, false).raws); PlainFile(t) && FileReach(t, 0).To?
    ensures var r := ParseTokens(Stored(Lex(input, false, false).raws));
            r.At? &&
            var ss := Output(r.log, order);
            InTokens(r.t, ss) &&
            (LexesTo(StmtsText(r.t, ss), false, StmtKindText(r.t, ss)) <==>
               forall j :: 0 <= j < |ss| ==> NoBackslashes(r.t, ss[j]))
  {
    hide Lex, ParseTokens, PlainItems, FileReach, FilePlaces, FileNotes, LogPlaces, LogNotes, Announced, Fits, LexesTo,
      Output, StmtsText, StmtKindText, RawsOk, Stored, Same, Tiles, EndsAdded, SpacesKept, SafeEnds, SpacesAdded,
      NoFirstSpace, Terminated, NoBackslashes;
    LexedOk(input, false, false);
    var raws := Lex(input, false, false).raws;
    var t0 := Stored(raws);
    ParseMeets(t0);
    FitsIsPlain(t0);
    ParseTiles(t0);
    var r := ParseTokens(t0);
    OutputFine(raws, t0, r.t, r.log, order);
    FineIn(r.t, Output(r.log, order));
    FineStatements(r.t, Output(r.log, order));
  }

  lemma FineIn(t: seq<Token>, ss: seq<Stmt>)
    requires AllFine(t, ss)
    ensures InTokens(t, ss)
  {
    assert forall j :: 0 <= j < |ss| ==> StmtFine(t, ss[j]);
  }
}
