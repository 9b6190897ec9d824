/** The parser of nvptx-as takes a file as its shape says and lays it out as the layout
    says: where each item ends, which tokens are dropped, in which list each other is
    printed and how, and what each variable depends on. */
module ShapeFacts {
  import opened Common
  import opened Tokenizer
  import opened Statements
  import opened ParserSpec
  import opened ParserFacts
  import opened Conservation
  import opened FileShape
  import opened FileLayout
  import opened ShapeSame
  import opened ShapeSteps

  // Headers

  lemma SaysStep(t: seq<Token>, p: nat, e: nat, s: string)
    requires p < e <= |t|
    ensures Says(t, p, e, s) <==> Word(t[p], s) || Says(t, p + 1, e, s)
  {
    hide Word;
    if Says(t, p, e, s) {
      var i :| p <= i < e && i < |t| && Word(t[i], s);
    }
  }

  /** What a header's tokens from `p` up to `e` add to `h`. */
  ghost predicate HeaderAdds(t: seq<Token>, p: nat, e: nat, h: Header, h': Header) {
    && (h'.isVar <==> h.isVar || Says(t, p, e, "global") || Says(t, p, e, "const"))
    && (h'.isFunc <==> h.isFunc || Says(t, p, e, "func") || Says(t, p, e, "entry"))
    && (h'.isDecl <==> h.isDecl || Says(t, p, e, "extern"))
    && h'.def == if LastName(t, p, e).Some? then LastName(t, p, e) else h.def
  }

  lemma HeaderTokenAdds(t: seq<Token>, p: nat, e: nat, h: Header, h': Header)
    requires p < e <= |t| && HeaderAdds(t, p + 1, e, HeaderToken(t, p, h), h')
    ensures HeaderAdds(t, p, e, h, h')
  {
    hide Says, LastName, HeaderToken, Word;
    SaysStep(t, p, e, "global");
    SaysStep(t, p, e, "const");
    SaysStep(t, p, e, "func");
    SaysStep(t, p, e, "entry");
    SaysStep(t, p, e, "extern");
    NameFrom(t, p, e);
    HeaderTokenIs(t, p, h);
  }

  /** A token is one keyword at most. */
  lemma OneKeyword(tok: Token)
    ensures IsKeyword(tok, "global") || IsKeyword(tok, "const") ==>
      !IsKeyword(tok, "func") && !IsKeyword(tok, "entry") && !IsKeyword(tok, "extern")
    ensures IsKeyword(tok, "func") || IsKeyword(tok, "entry") ==> !IsKeyword(tok, "extern")
    ensures IsKeyword(tok, "visible") ==> !IsKeyword(tok, "extern")
  {
    if |tok.text| > 1 {
      var c := tok.text[1];
      assert IsKeyword(tok, "global") ==> c == "global"[0];
      assert IsKeyword(tok, "const") ==> c == "const"[0];
      assert IsKeyword(tok, "func") ==> c == "func"[0];
      assert IsKeyword(tok, "visible") ==> c == "visible"[0];
      assert IsKeyword(tok, "entry") ==> c == "entry"[0] && |tok.text| == 6;
      assert IsKeyword(tok, "extern") ==> c == "extern"[0] && |tok.text| == 7;
    }
  }

  lemma HeaderTokenIs(t: seq<Token>, p: nat, h: Header)
    requires p < |t|
    ensures var tok, h1 := t[p], HeaderToken(t, p, h);
            && (h1.isVar <==> h.isVar || Word(tok, "global") || Word(tok, "const"))
            && (h1.isFunc <==> h.isFunc || Word(tok, "func") || Word(tok, "entry"))
            && (h1.isDecl <==> h.isDecl || Word(tok, "extern"))
            && h1.def == if IsName(t, p) then Some(p) else h.def
  {
    WordIs(t[p]);
    hide IsKeyword, Word;
    OneKeyword(t[p]);
  }

  /** The space of token `i` after the scan of a header from `p` up to `e`. */
  predicate HeadSpace(t: seq<Token>, p: nat, e: nat, i: nat)
    requires i < |t|
  {
    if p <= i < e && Is(t, i, '(') then true
    else if p < i <= e && Is(t, i - 1, '(') then false
    else t[i].space || (p < i <= e && Is(t, i - 1, ')') && !Is(t, i, ';'))
  }

  /** The scan of a header sets spaces around parentheses. */
  predicate Scanned(t: seq<Token>, t': seq<Token>, p: nat, e: nat) {
    && Same(t, t')
    && (forall i {:trigger t'[i]} :: 0 <= i < |t| ==> t'[i].end == t[i].end)
    && (forall i {:trigger t'[i]} :: 0 <= i < |t| ==> (t'[i].space <==> HeadSpace(t, p, e, i)))
  }

  lemma ScannedMore(t: seq<Token>, t': seq<Token>, p: nat, e: nat)
    requires p < e < |t| && !StopsHeader(t[p]) && Scanned(HeaderSpace(t, p), t', p + 1, e)
    ensures Scanned(t, t', p, e)
  {
    var t1 := HeaderSpace(t, p);
    forall i: nat, c ensures Is(t1, i, c) <==> Is(t, i, c) { }
    forall i | 0 <= i < |t| ensures t'[i].space <==> HeadSpace(t, p, e, i) {
      assert t'[i].space <==> HeadSpace(t1, p + 1, e, i);
    }
  }

  lemma NothingScanned(t: seq<Token>, p: nat)
    ensures Scanned(t, t, p, p)
  {
  }

  lemma HeaderEndsIs(tok: Token)
    ensures HeaderEnds(tok) <==> StopsHeader(tok)
  {
  }

  lemma HeaderSpaceSame(t: seq<Token>, p: nat)
    requires p < |t|
    ensures Same(t, HeaderSpace(t, p)) && (Terminated(t) ==> Terminated(HeaderSpace(t, p)))
  {
  }

  lemma {:induction false} HeaderScanIs(t: seq<Token>, p: nat, h: Header)
    requires Terminated(t) && p < |t| && (h.def.Some? ==> h.def.value < |t|)
    ensures HeaderScan(t, p, h).Some?
    ensures var (t', e, h') := HeaderScan(t, p, h).value;
            Scanned(t, t', p, e) && e == HeaderStop(t, p) && HeaderAdds(t, p, e, h, h')
    decreases |t| - p
  {
    hide HeaderAdds, HeaderSpace, HeaderToken, Scanned, StopsHeader, HeaderEnds, Same, Terminated;
    HeaderEndsIs(t[p]);
    if HeaderEnds(t[p]) {
      NothingScanned(t, p);
      NothingAdded(t, p, h);
    } else {
      NotLast(t, p);
      var t1, h1 := HeaderSpace(t, p), HeaderToken(t, p, h);
      HeaderSpaceSame(t, p);
      HeaderScanIs(t1, p + 1, h1);
      HeaderStopSame(t, t1, p + 1);
      var (t', e, h') := HeaderScan(t1, p + 1, h1).value;
      ScannedMore(t, t', p, e);
      SameBack(t, t1);
      AddsSame(t1, t, p + 1, e, h1, h');
      HeaderTokenAdds(t, p, e, h, h');
    }
  }

  lemma NothingAdded(t: seq<Token>, p: nat, h: Header)
    ensures HeaderAdds(t, p, p, h, h)
  {
  }

  lemma SameBack(t: seq<Token>, t': seq<Token>)
    requires Same(t, t')
    ensures Same(t', t)
  {
  }

  lemma AddsSame(t: seq<Token>, t': seq<Token>, p: nat, e: nat, h: Header, h': Header)
    requires Same(t, t') && HeaderAdds(t, p, e, h, h')
    ensures HeaderAdds(t', p, e, h, h')
  {
    hide Says, LastName;
    SaysSame(t, t', p, e, "global");
    SaysSame(t, t', p, e, "const");
    SaysSame(t, t', p, e, "func");
    SaysSame(t, t', p, e, "entry");
    SaysSame(t, t', p, e, "extern");
    LastNameSame(t, t', p, e);
  }

  /** The parser and the shape agree on what a header defines. */
  lemma HeaderSays(t: seq<Token>, q: nat, e: nat, h: Header)
    requires HeaderAdds(t, q, e, NO_HEADER, h)
    ensures forall c ::
      && (HeaderVis(h, c).form == VAR && !h.isDecl <==> IsVariable(t, q, e))
      && HeaderVis(h, c).form != COMMENT && HeaderVis(h, c).form != PRED
    ensures h.def == LastName(t, q, e)
  {
    hide Says, LastName;
  }

  /** The flags of a header, open or closed. */
  lemma HeadDressed(t: seq<Token>, t': seq<Token>, q: nat, e: nat)
    requires Scanned(t, t', q, e) && q <= e < |t| && StopsHeader(t[e]) && !Is(t, q, '(')
    ensures Dressed(t, t', Head(false), q, e) && Kept(t, t', q) && SameFrom(t, t', e)
    ensures var t1 := SetEnd(t', e); Dressed(t, t1, Head(true), q, e + 1) && Kept(t, t1, q) && SameFrom(t, t1, e + 1)
  {
    assert forall i {:trigger t'[i]} :: 0 <= i <= q && i < |t| ==> (HeadSpace(t, q, e, i) <==> t[i].space);
    forall i | q < i <= e ensures HeadSpace(t, q, e, i) <==> Spaced(t, Head(true), q, i) { }
    forall i | q < i <= e ensures HeadSpace(t, q, e, i) <==> Spaced(t, Head(false), q, i) { }
  }

  // Items

  lemma CommentLays(r: Parse, dest: Dest, p: nat, q: nat, known: set<string>)
    requires r.At? && r.pos == p <= q <= |r.t| && Knows(known, dest)
    ensures Lays(r, PutComment(r, dest, p, q), Stretch(r.t, dest, Remark, p, q), [], known)
  {
    hide Lays, Stretch;
    if p < q {
      PlainLays(r, dest, Plain(COMMENT).(prefixComment := true), Remark, q, known);
    } else {
      NoStretch(r.t, dest, p);
      LaysNothing(r, known);
    }
  }

  /** Flags changed first make no difference to the comment before a header. */
  lemma CommentFlags(r: Parse, t1: seq<Token>, dest: Dest, sort: Sort, p: nat, q: nat, hi: nat)
    requires r.At? && r.pos == p <= q <= hi <= |r.t| && Kept(r.t, t1, q) && SameFrom(r.t, t1, hi)
    requires Dressed(r.t, t1, sort, q, hi)
    ensures var r1, t2 := PutComment(r, dest, p, q), if p < q then ClearSpace(t1, p) else t1;
            && r1.At? && PutComment(r.(t := t1), dest, p, q) == r1.(t := t2)
            && Kept(r1.t, t2, q) && SameFrom(r1.t, t2, hi) && Dressed(r1.t, t2, sort, q, hi)
  {
    var r1, t2 := PutComment(r, dest, p, q), if p < q then ClearSpace(t1, p) else t1;
    forall i: nat, c ensures Is(r1.t, i, c) <==> Is(r.t, i, c) { }
    forall i | q < i < hi ensures Spaced(r1.t, sort, q, i) <==> Spaced(r.t, sort, q, i) { }
  }

  /** A header's statement, after the comment before it. */
  lemma HeadLays(r: Parse, t1: seq<Token>, dest: Dest, vis: Vis, closed: bool, p: nat, q: nat, hi: nat,
      known: set<string>)
    requires r.At? && r.pos == p <= q <= hi <= |r.t| && Kept(r.t, t1, q) && SameFrom(r.t, t1, hi)
    requires Dressed(r.t, t1, Head(closed), q, hi) && Suits(vis, Head(closed)) && Knows(known, dest)
    ensures Lays(r, NewStmt(PutComment(r.(t := t1), dest, p, q), dest, vis, q, hi),
      HeadPlaces(r.t, dest, closed, p, q, hi), [], known)
  {
    hide Lays, Stretch, Dressed, SameFrom, Kept, PutComment, ClearSpace, NewStmt, Suits;
    CommentLays(r, dest, p, q, known);
    CommentFlags(r, t1, dest, Head(closed), p, q, hi);
    var r1, t2 := PutComment(r, dest, p, q), if p < q then ClearSpace(t1, p) else t1;
    LaysFacts(r, r1, Stretch(r.t, dest, Remark, p, q), [], known);
    StmtLays(r1, t2, dest, vis, Head(closed), hi, known);
    StretchSame(r.t, r1.t, q, dest, Head(closed), q, hi);
    LaysTrans(r, r1, NewStmt(r1.(t := t2), dest, vis, q, hi), Stretch(r.t, dest, Remark, p, q),
      Stretch(r.t, dest, Head(closed), q, hi), [], [], known);
    NoNotes();
  }

  lemma DeclLays(r: Parse, t1: seq<Token>, p: nat, q: nat, e: nat, vis: Vis)
    requires r.At? && r.pos == p <= q <= e < |r.t| && Kept(r.t, SetEnd(t1, e), q) && SameFrom(r.t, SetEnd(t1, e), e + 1)
    requires Dressed(r.t, SetEnd(t1, e), Head(true), q, e + 1) && Suits(vis, Head(true))
    ensures Lays(r, ParseDecl(r.(t := t1), p, q, e, vis), HeadPlaces(r.t, Decls, true, p, q, e + 1), [], {})
  {
    hide Lays, Dressed, SameFrom, Kept, SetEnd, PutComment, NewStmt, HeadPlaces;
    HeadLays(r, SetEnd(t1, e), Decls, vis, true, p, q, e + 1, {});
  }

  lemma FnLays(r: Parse, t1: seq<Token>, p: nat, q: nat, e: nat, vis: Vis)
    requires r.At? && Terminated(r.t) && r.pos == p <= q <= e < |r.t| && Kept(r.t, t1, q) && SameFrom(r.t, t1, e)
    requires Dressed(r.t, t1, Head(false), q, e) && Suits(vis, Head(false))
    ensures match BodyStop(r.t, e, 0)
            case None => ParseFn(r.(t := t1), p, q, e, vis) == Overrun
            case Some(_) =>
              Lays(r, ParseFn(r.(t := t1), p, q, e, vis), HeadPlaces(r.t, Fns, false, p, q, e) + BodyPlaces(r.t, e, 0),
                [], {})
  {
    hide Lays, Dressed, SameFrom, Same, Kept, PutComment, NewStmt, HeadPlaces, BodyPlaces, BodyStop, Insns, Terminated;
    HeadLays(r, t1, Fns, vis, false, p, q, e, {});
    var r1, ps := NewStmt(PutComment(r.(t := t1), Fns, p, q), Fns, vis, q, e), HeadPlaces(r.t, Fns, false, p, q, e);
    LaysFacts(r, r1, ps, [], {});
    TerminatedSame(r.t, r1.t, e);
    BodyLays(r1, 0);
    BodySame(r.t, r1.t, e, 0);
    if BodyStop(r.t, e, 0).Some? {
      LaysTrans(r, r1, ParseFn(r.(t := t1), p, q, e, vis), ps, BodyPlaces(r.t, e, 0), [], [], {});
      NoNotes();
    }
  }

  /** A variable is looked up before its header goes to its list. */
  lemma StartVarLays(r: Parse, t1: seq<Token>, p: nat, q: nat, e: nat, vis: Vis, name: string)
    requires r.At? && r.pos == p <= q <= e < |r.t| && Kept(r.t, SetEnd(t1, e), q) && SameFrom(r.t, SetEnd(t1, e), e + 1)
    requires Dressed(r.t, SetEnd(t1, e), Head(true), q, e + 1) && Suits(vis, Head(true)) && |t1| == |r.t|
    ensures var r1 := StartVar(r.(t := t1), p, q, e, vis, name);
            && Lays(r, r1, HeadPlaces(r.t, Var(name), true, p, q, e + 1), [Touch(name)], {})
            && Touched(r1.log[|r.log|..], name)
  {
    hide Lays, Dressed, SameFrom, Kept, SetEnd, PutComment, NewStmt, HeadPlaces;
    var r0 := r.(log := r.log + [Touch(name)]);
    NoteLays(r, Touch(name), {});
    HeadLays(r0, SetEnd(t1, e), Var(name), vis, true, p, q, e + 1, {name});
    var r1, ps := StartVar(r.(t := t1), p, q, e, vis, name), HeadPlaces(r.t, Var(name), true, p, q, e + 1);
    assert r0.log[|r.log|..] == [Touch(name)];
    assert Touched([Touch(name)], name) by { assert [Touch(name)][0] == Touch(name); }
    LaysThen(r, r0, r1, [], ps, [Touch(name)], [], {}, {name});
    assert [] + ps == ps && [Touch(name)] + [] == [Touch(name)];
    TouchedAfter(r, r0, r1, name);
  }

  lemma TouchedAfter(r: Parse, r0: Parse, r1: Parse, name: string)
    requires r.At? && r0.At? && r1.At? && r0.log == r.log + [Touch(name)]
      && (exists ps, ns, known :: Lays(r0, r1, ps, ns, known))
    ensures r.log <= r1.log && Touched(r1.log[|r.log|..], name)
  {
    assert r0.log <= r1.log;
    assert r1.log[|r.log|..][0] == Touch(name);
  }

  lemma VarLays(r: Parse, t1: seq<Token>, p: nat, q: nat, e: nat, vis: Vis, name: string)
    requires r.At? && Terminated(r.t) && r.pos == p <= q <= e && e + 1 < |r.t| && |t1| == |r.t|
    requires Kept(r.t, SetEnd(t1, e), q) && SameFrom(r.t, SetEnd(t1, e), e + 1) && (Is(t1, e, '=') <==> Is(r.t, e, '='))
    requires Dressed(r.t, SetEnd(t1, e), Head(true), q, e + 1) && Suits(vis, Head(true))
    ensures var ps := HeadPlaces(r.t, Var(name), true, p, q, e + 1);
            if !Is(r.t, e, '=') then Lays(r, ParseVar(r.(t := t1), p, q, e, vis, name), ps, [Touch(name)], {})
            else
              match InitStop(r.t, e + 1)
              case None => ParseVar(r.(t := t1), p, q, e, vis, name) == Overrun
              case Some(_) =>
                Lays(r, ParseVar(r.(t := t1), p, q, e, vis, name), ps + InitPlaces(r.t, e + 1, name),
                  [Touch(name)] + InitNotes(r.t, e + 1, name), {})
  {
    hide Lays, Dressed, SameFrom, Same, Kept, SetEnd, StartVar, HeadPlaces, InitStop, InitPlaces, InitNotes, ParseInit,
      Terminated, Touched;
    StartVarLays(r, t1, p, q, e, vis, name);
    var t, r1, ps := r.t, StartVar(r.(t := t1), p, q, e, vis, name), HeadPlaces(r.t, Var(name), true, p, q, e + 1);
    LaysFacts(r, r1, ps, [Touch(name)], {});
    if Is(t, e, '=') {
      TerminatedSame(t, r1.t, e + 1);
      InitLays(r1, name);
      InitSame(t, r1.t, e + 1, name);
      if InitStop(t, e + 1).Some? {
        LaysThen(r, r1, ParseVar(r.(t := t1), p, q, e, vis, name), ps, InitPlaces(t, e + 1, name), [Touch(name)],
          InitNotes(t, e + 1, name), {}, {name});
      }
    }
  }

  /** Tokens dropped, after the comment before them. */
  lemma DropLays(r: Parse, t1: seq<Token>, p: nat, q: nat, e: nat)
    requires r.At? && r.pos == p <= q <= e <= |r.t| && Kept(r.t, t1, q) && SameFrom(r.t, t1, e)
    ensures var r1 := PutComment(r.(t := t1), Fns, p, q);
            Lays(r, r1.(log := r1.log + (if q < e then [Drop(q, e)] else []), pos := e),
              Stretch(r.t, Fns, Remark, p, q) + Nowheres(e - q), [], {})
  {
    hide Lays, Stretch, SameFrom, Kept, PutComment, Same;
    DropFlags(r, t1, p, q, e);
    CommentLays(r, Fns, p, q, {});
    var r0 := PutComment(r, Fns, p, q);
    LaysFacts(r, r0, Stretch(r.t, Fns, Remark, p, q), [], {});
    var t2 := PutComment(r.(t := t1), Fns, p, q).t;
    OnlyDrops(r0, t2, e);
    LaysTrans(r, r0, r0.(t := t2, log := r0.log + (if q < e then [Drop(q, e)] else []), pos := e),
      Stretch(r.t, Fns, Remark, p, q), Nowheres(e - q), [], [], {});
    NoNotes();
  }

  lemma DropFlags(r: Parse, t1: seq<Token>, p: nat, q: nat, e: nat)
    requires r.At? && r.pos == p <= q <= e <= |r.t| && Kept(r.t, t1, q) && SameFrom(r.t, t1, e)
    ensures var r0, r1 := PutComment(r, Fns, p, q), PutComment(r.(t := t1), Fns, p, q);
            r1 == r0.(t := r1.t) && Kept(r0.t, r1.t, q) && SameFrom(r0.t, r1.t, e)
  {
  }

  lemma OnlyDrops(r: Parse, t: seq<Token>, e: nat)
    requires r.At? && r.pos <= e && Kept(r.t, t, r.pos) && SameFrom(r.t, t, e)
    ensures Lays(r, r.(t := t, log := r.log + (if r.pos < e then [Drop(r.pos, e)] else []), pos := e),
      Nowheres(e - r.pos), [], {})
  {
    var es := if r.pos < e then [Drop(r.pos, e)] else [];
    assert (r.log + es)[|r.log|..] == es;
    if r.pos < e {
      assert [Drop(r.pos, e)][..0] == [];
      assert LogPlaces(t, es) == Nowheres(e - r.pos);
    } else {
      assert Nowheres(0) == [];
    }
  }

  /** How far one call of the parser gets. */
  ghost predicate Meets(r: Parse, r': Parse, reach: Reach, ps: seq<Place>, ns: seq<Event>)
    requires r.At?
  {
    match reach
    case To(e) => Lays(r, r', ps, ns, {})
    case Unnamed => r' == NoIdentifier
    case Endless => r' == Overrun
  }

  lemma AfterHeaderLays(r: Parse, t1: seq<Token>, p: nat, q: nat, e: nat, h: Header)
    requires r.At? && Terminated(r.t) && r.pos == p <= q < e < |r.t| && Scanned(r.t, t1, q, e) && StopsHeader(r.t[e])
    requires r.t[q].kind == Dotted && HeaderAdds(r.t, q, e, NO_HEADER, h)
    requires |t1| == |r.t| && (h.def.Some? ==> h.def.value < |r.t|)
    ensures var reach := AfterHeaderAt(r.t, q, e);
            Meets(r, AfterHeader(r.(t := t1), p, q, e, h), reach,
              if reach.To? then AfterHeaderPlaces(r.t, p, q, e) else [],
              if reach.To? && (Is(r.t, e, '=') || Is(r.t, e, ';')) && IsVariable(r.t, q, e) then
                VariableNotes(r.t, q, e)
              else [])
  {
    hide Lays, Scanned, Dressed, SameFrom, Kept, SetEnd, ParseFn, ParseVar, ParseDecl, BodyStop, BodyPlaces, InitStop,
      InitPlaces, InitNotes, IsVariable, LastName, HeaderAdds, HeadPlaces, Stretch, Terminated, Same, HeadSpace;
    var t, vis := r.t, HeaderVis(h, p < q);
    HeaderSays(t, q, e, h);
    HeadDressed(t, t1, q, e);
    ScannedToken(t, t1, q, e);
    if t[e].kind == Eof {
      DropLays(r, t1, p, q, e);
    } else if Is(t, e, '{') || IsComment(t, e) {
      FnLays(r, t1, p, q, e, vis);
    } else {
      LastIsEof(t, e);
      if IsVariable(t, q, e) {
        if LastName(t, q, e).Some? {
          NameSame(t, t1, q, e);
          assert [Touch(NameOf(t, q, e))] + [] == [Touch(NameOf(t, q, e))];
          VarLays(r, t1, p, q, e, vis, NameOf(t, q, e));
        }
      } else {
        DeclLays(r, t1, p, q, e, vis);
      }
    }
  }

  lemma ScannedToken(t: seq<Token>, t1: seq<Token>, q: nat, e: nat)
    requires Scanned(t, t1, q, e) && e < |t| && StopsHeader(t[e])
    ensures |t| == |t1| && Same(t, t1) && t1[e].kind == t[e].kind
    ensures t[e].kind == Eof || Is(t, e, '{') || IsComment(t, e) || Is(t, e, '=') || Is(t, e, ';')
  {
  }

  lemma NameSame(t: seq<Token>, t1: seq<Token>, q: nat, e: nat)
    requires Same(t, t1) && LastName(t, q, e).Some? && |t| == |t1|
    ensures t1[LastName(t, q, e).value].text == NameOf(t, q, e)
  {
  }

  /** The notes an item's header makes. */
  function NotesAfter(t: seq<Token>, q: nat, e: nat): seq<Event>
    requires e < |t| && AfterHeaderAt(t, q, e).To?
  {
    if (Is(t, e, '=') || Is(t, e, ';')) && IsVariable(t, q, e) then VariableNotes(t, q, e) else []
  }

  lemma HeaderLays(r: Parse, p: nat, q: nat)
    requires r.At? && Terminated(r.t) && r.pos == p <= q < |r.t| && r.t[q].kind == Dotted
    ensures var e := HeaderStop(r.t, q);
            var reach := AfterHeaderAt(r.t, q, e);
            Meets(r, ParseHeader(r, p, q), reach, if reach.To? then AfterHeaderPlaces(r.t, p, q, e) else [],
              if reach.To? then NotesAfter(r.t, q, e) else [])
  {
    hide Meets, Scanned, AfterHeader, AfterHeaderAt, AfterHeaderPlaces, HeaderAdds, HeaderScan, VariableNotes,
      IsVariable, Terminated, StopsHeader;
    HeaderScanIs(r.t, q, NO_HEADER);
    var (t1, e, h) := HeaderScan(r.t, q, NO_HEADER).value;
    DottedGoesOn(r.t, q);
    AfterHeaderLays(r, t1, p, q, e, h);
  }

  lemma DottedGoesOn(t: seq<Token>, q: nat)
    requires Terminated(t) && q < |t| && t[q].kind == Dotted
    ensures q < HeaderStop(t, q)
  {
  }

  lemma {:induction false} PlainEndIs(t: seq<Token>, p: nat)
    ensures PlainCommentEnd(t, p) == PlainStop(t, p)
    decreases |t| - p
  {
    assert p < |t| ==> (MapDirective(t[p]) <==> IsMap(t[p]));
    hide MapDirective, IsMap;
    if IsComment(t, p) && !IsMap(t[p]) { PlainEndIs(t, p + 1); }
  }

  lemma {:induction false} StrangeEndIs(t: seq<Token>, p: nat)
    requires Terminated(t) && p < |t|
    ensures StrangeEnd(t, p) == StrangeStop(t, p)
    decreases |t| - p
  {
    if t[p].kind != Eof && !t[p].end { StrangeEndIs(t, p + 1); }
  }

  lemma LineWords(tok: Token)
    ensures MapDirective(tok) <==> IsMap(tok)
    ensures tok.kind == Dotted ==> (LineDirective(tok) <==> IsFileLine(tok))
    ensures IsFileLine(tok) ==> tok.kind == Dotted
  {
    WordIs(tok);
  }

  lemma LineItem(r: Parse, p: nat, q: nat)
    requires r.At? && Terminated(r.t) && r.pos == p <= q < |r.t| && IsLine(r.t, q)
    ensures var t, marked := r.t, IsMap(r.t[q]);
            var r' := ParseLine(PutComment(r, Decls, p, q), Decls, Plain(if marked then COMMENT else DOT));
            match LineStop(t, q)
            case None => r' == Overrun
            case Some(e) =>
              Lays(r, r', Stretch(t, Decls, Remark, p, q) + Stretch(t, Decls, if marked then MapLine else Line, q, e),
                [], {})
  {
    hide Lays, ParseLine, PutComment, LineStop, SameFrom, Same, IsMap, IsFileLine, Stretch, Terminated;
    var t, r1, ps := r.t, PutComment(r, Decls, p, q), Stretch(r.t, Decls, Remark, p, q);
    var sort := if IsMap(t[q]) then MapLine else Line;
    CommentLays(r, Decls, p, q, {});
    LaysFacts(r, r1, ps, [], {});
    TerminatedSame(t, r1.t, q);
    LineStopSame(t, r1.t, q);
    LineLays(r1, Decls, Plain(if IsMap(t[q]) then COMMENT else DOT), sort);
    if LineStop(t, q).Some? {
      var e := LineStop(t, q).value;
      StretchSame(t, r1.t, q, Decls, sort, q, e);
      LaysTrans(r, r1, ParseLine(r1, Decls, Plain(if IsMap(t[q]) then COMMENT else DOT)), ps,
        Stretch(t, Decls, sort, q, e), [], [], {});
      NoNotes();
    }
  }

  lemma StrangeLays(r: Parse, p: nat, q: nat)
    requires r.At? && Terminated(r.t) && r.pos == p <= q < |r.t|
    ensures StrangeEnd(r.t, q) == StrangeStop(r.t, q)
    ensures var r1, e := PutComment(r, Fns, p, q), StrangeStop(r.t, q);
            Lays(r, r1.(log := r1.log + (if q < e then [Drop(q, e)] else []), pos := e),
              Stretch(r.t, Fns, Remark, p, q) + Nowheres(e - q), [], {})
  {
    hide Lays, PutComment, StrangeStop, SameFrom, Stretch, Kept;
    StrangeEndIs(r.t, q);
    SameRefl(r.t, StrangeStop(r.t, q));
    KeptAll(r.t, q);
    DropLays(r, r.t, p, q, StrangeStop(r.t, q));
  }

  /** One call of the parser takes an item, and lays it out as the tokens say. */
  lemma ItemMeets(r: Parse)
    requires r.At? && Terminated(r.t) && r.pos < |r.t| && r.t[r.pos].kind != Eof
    ensures var reach := ItemAt(r.t, r.pos);
            Meets(r, ParseFile(r), reach, if reach.To? then ItemPlaces(r.t, r.pos) else [],
              if reach.To? then ItemNotes(r.t, r.pos) else [])
  {
    hide Lays, ParseHeader, ParseLine, PutComment, LineStop, StrangeStop, HeaderStop, AfterHeaderAt, AfterHeaderPlaces,
      SameFrom, Same, IsMap, IsFileLine, MapDirective, LineDirective, Stretch, VariableNotes, IsVariable, Kept;
    var t, p, q := r.t, r.pos, PlainStop(r.t, r.pos);
    PlainEndIs(t, p);
    PlainIn(t, p);
    LineWords(t[q]);
    if IsLine(t, q) {
      LineItem(r, p, q);
    } else if IsHeader(t, q) {
      HeaderLays(r, p, q);
    } else {
      StrangeLays(r, p, q);
    }
  }

  lemma KeptAll(t: seq<Token>, p: nat)
    ensures Kept(t, t, p)
  {
  }

  // Whole files

  lemma AllIs(r: Parse)
    requires r.At? && r.pos < |r.t|
    ensures r.t[r.pos].kind == Eof ==> ParseAll(r) == r
    ensures r.t[r.pos].kind != Eof && !ParseFile(r).At? ==> ParseAll(r) == ParseFile(r)
    ensures r.t[r.pos].kind != Eof && ParseFile(r).At? && ParseFile(r).pos < |r.t| ==>
      ParseAll(r) == ParseAll(ParseFile(r))
  {
    var r1 := ParseFile(r);
    if r1.At? {
      FileMoves(r);
      if r1.pos < |r.t| && r1.t[r1.pos].kind == Eof {
        AtEnd(r1);
        FileMoves(r1);
      }
    } else if r.t[r.pos].kind == Eof {
      AtEnd(r);
    }
    hide ParseFile;
  }

  lemma AtEnd(r: Parse)
    requires r.At? && r.pos < |r.t| && r.t[r.pos].kind == Eof
    ensures ParseFile(r).At?
  {
  }

  lemma FileIs(t: seq<Token>, p: nat)
    requires Terminated(t) && p < |t|
    ensures t[p].kind == Eof ==> FileReach(t, p) == To(p) && FilePlaces(t, p) == [] && FileNotes(t, p) == []
    ensures t[p].kind != Eof && !ItemAt(t, p).To? ==> FileReach(t, p) == ItemAt(t, p)
    ensures t[p].kind != Eof && ItemAt(t, p).To? ==>
      var e := ItemAt(t, p).end;
      && p < e < |t| && FileReach(t, p) == FileReach(t, e)
      && (FileReach(t, p).To? ==>
        FilePlaces(t, p) == ItemPlaces(t, p) + FilePlaces(t, e) && FileNotes(t, p) == ItemNotes(t, p) + FileNotes(t, e))
  {
    hide ItemAt, ItemPlaces, ItemNotes;
    if t[p].kind != Eof && ItemAt(t, p).To? { ItemMoves(t, p); }
  }

  /** The parser gets through a file just when its shape says so, and lays it out as its
      layout says. */
  lemma {:induction false} AllMeets(r: Parse)
    requires r.At? && Terminated(r.t) && r.pos < |r.t|
    ensures var reach := FileReach(r.t, r.pos);
            Meets(r, ParseAll(r), reach, if reach.To? then FilePlaces(r.t, r.pos) else [],
              if reach.To? then FileNotes(r.t, r.pos) else [])
    decreases |r.t| - r.pos
  {
    hide Lays, ParseFile, ItemAt, ItemPlaces, ItemNotes, SameFrom, Same, Terminated, ParseAll, FileReach, FilePlaces,
      FileNotes;
    var t, p := r.t, r.pos;
    AllIs(r);
    FileIs(t, p);
    if t[p].kind == Eof {
      LaysNothing(r, {});
    } else {
      ItemMeets(r);
      if ItemAt(t, p).To? {
        var r1, e := ParseFile(r), ItemAt(t, p).end;
        LaysFacts(r, r1, ItemPlaces(t, p), ItemNotes(t, p), {});
        TerminatedSame(t, r1.t, e);
        AllMeets(r1);
        FileSame(t, r1.t, e);
        if FileReach(t, e).To? {
          LaysTrans(r, r1, ParseAll(r1), ItemPlaces(t, p), FilePlaces(t, e), ItemNotes(t, p), FileNotes(t, e), {});
        }
      }
    }
  }

  /** How the parser of a whole file ends is told by the file's shape; what it has made of
      it by then, by the file's layout. */
  lemma ParseMeets(t: seq<Token>)
    requires Terminated(t)
    ensures match FileReach(t, 0)
            case Unnamed => ParseTokens(t) == NoIdentifier
            case Endless => ParseTokens(t) == Overrun
            case To(_) =>
              var r := ParseTokens(t);
              && r.At? && |r.t| == |t|
              && LogPlaces(r.t, r.log) == FilePlaces(t, 0) && LogNotes(r.log) == FileNotes(t, 0)
              && Announced(r.log, {})
  {
    hide ParseAll, FileReach, FilePlaces, FileNotes, LogPlaces, LogNotes, Announced;
    AllMeets(At(t, [], 0));
    if FileReach(t, 0).To? {
      var r := ParseTokens(t);
      assert r.log[0..] == r.log;
    }
  }

  // Where each token goes

  lemma EventSpan(t: seq<Token>, e: Event)
    requires e.Put? ==> e.stmt.lo <= e.stmt.hi <= |t|
    ensures e.Put? ==> EventPlaces(t, e) == PutPlaces(t, e.dest, e.stmt)
  {
  }

  /** A statement in the list holds token `i`, and prints it so. */
  ghost predicate Stands(t: seq<Token>, ss: seq<Stmt>, i: nat, place: Place) {
    place.In? && exists s :: s in ss && Covers(s, i) && s.hi <= |t| && place == PutPlaces(t, place.dest, s)[i - s.lo]
  }

  /** In the log's places token `i` has that of the statement or stretch it is in. */
  lemma {:induction false} PlaceOf(t: seq<Token>, log: seq<Event>, hi: nat, i: nat)
    requires Tiles(log, 0, hi) && hi <= |t|
    ensures |LogPlaces(t, log)| == hi
    ensures i < hi ==>
      var place := LogPlaces(t, log)[i];
      if place == Nowhere then Dropped(log, i) else Stands(t, PutsTo(log, place.dest), i, place)
  {
    hide PutPlaces, Dropped;
    if log != [] {
      var n := |log| - 1;
      var rest, e := log[..n], log[n];
      assert log == rest + [e];
      DroppedMore(rest, e, i);
      match e {
        case Put(dest, s) =>
          PlaceOf(t, rest, s.lo, i);
          if s.lo <= i < hi {
            PutPlaced(t, dest, s, i);
            assert s in PutsTo(log, dest) && Covers(s, i);
          }
        case Drop(lo, _) => PlaceOf(t, rest, lo, i);
        case _ => PlaceOf(t, rest, hi, i);
      }
    }
  }

  lemma PutPlaced(t: seq<Token>, dest: Dest, s: Stmt, i: nat)
    requires s.lo <= i < s.hi <= |t|
    ensures PutPlaces(t, dest, s)[i - s.lo].In? && PutPlaces(t, dest, s)[i - s.lo].dest == dest
  {
  }

  lemma {:induction false} PutsAmong(log: seq<Event>, dest: Dest, s: Stmt)
    requires s in PutsTo(log, dest)
    ensures s in AllPuts(log)
  {
    var n := |log| - 1;
    if s in PutsTo(log[..n], dest) { PutsAmong(log[..n], dest, s); }
  }

  /** Every token that belongs to an item is in the list, and printed in the way, that the
      tokens tell; exactly the others are dropped. */
  lemma {:induction false} OwnerIs(t: seq<Token>, i: nat)
    requires Terminated(t) && ParseTokens(t).At? && i < |t| - 1
    ensures FileReach(t, 0).To?
    ensures var r, place := ParseTokens(t), FilePlaces(t, 0)[i];
            && (place == Nowhere <==> Lost(t, 0, i)) && (place == Nowhere <==> Dropped(r.log, i))
            && (place.In? ==> Stands(r.t, PutsTo(r.log, place.dest), i, place))
  {
    hide ParseTokens, FileReach, FilePlaces, FileNotes, Lost, Dropped, LogPlaces, LogNotes, Announced, Same, Tiles,
      EndsAdded, SpacesKept, SafeEnds, SpacesAdded, NoFirstSpace, Covers, PutPlaces;
    ParseMeets(t);
    ParseTiles(t);
    LostNowhere(t, 0, i);
    var r := ParseTokens(t);
    PlaceOf(r.t, r.log, |t| - 1, i);
    var place := FilePlaces(t, 0)[i];
    if place.In? {
      EveryToken(r.log, 0, |t| - 1, i);
      var s :| s in PutsTo(r.log, place.dest) && Covers(s, i);
      PutsAmong(r.log, place.dest, s);
    }
  }

  /** Exactly the tokens that belong to no item are dropped. */
  lemma DroppedIsLost(t: seq<Token>, i: nat)
    requires Terminated(t) && ParseTokens(t).At? && i < |t| - 1
    ensures Dropped(ParseTokens(t).log, i) <==> Lost(t, 0, i)
  {
    hide ParseTokens, Lost, Dropped, Stands, PutsTo;
    OwnerIs(t, i);
  }

  // Comments

  predicate StmtFits(t: seq<Token>, s: Stmt) {
    forall i :: s.lo <= i < s.hi && i < |t| ==> (t[i].kind == Comment <==> s.vis.form == COMMENT)
  }

  /** In the statements, comments and other tokens are kept apart. */
  predicate Fits(t: seq<Token>, es: seq<Event>) {
    forall k :: 0 <= k < |es| && es[k].Put? ==> StmtFits(t, es[k].stmt)
  }

  lemma {:induction false} PutMade(log: seq<Event>, s: Stmt)
    requires s in AllPuts(log)
    ensures exists k :: 0 <= k < |log| && log[k].Put? && log[k].stmt == s
  {
    var n := |log| - 1;
    if s in AllPuts(log[..n]) {
      PutMade(log[..n], s);
      var k :| 0 <= k < n && log[..n][k].Put? && log[..n][k].stmt == s;
      assert log[k].stmt == s;
    } else {
      assert log[n].stmt == s;
    }
  }

  lemma {:induction false} MadePut(log: seq<Event>, k: nat)
    requires k < |log| && log[k].Put?
    ensures log[k].stmt in AllPuts(log)
  {
    var n := |log| - 1;
    if k < n { MadePut(log[..n], k); }
  }

  /** Any two statements made that hold a token are the same. */
  lemma {:induction false} SameHolder(t: seq<Token>, i: nat, s: Stmt, s': Stmt)
    requires Terminated(t) && ParseTokens(t).At?
    requires s in AllPuts(ParseTokens(t).log) && s' in AllPuts(ParseTokens(t).log) && Covers(s, i) && Covers(s', i)
    ensures s == s'
  {
    hide ParseTokens, Same, Tiles, EndsAdded, SpacesKept, SafeEnds, SpacesAdded, NoFirstSpace, AllPuts, InSourceOrder,
      Terminated, Covers;
    ParseTiles(t);
    ListsInOrder(ParseTokens(t).log, Decls, 0, |t| - 1);
    OneCovers(AllPuts(ParseTokens(t).log), 0, |t| - 1, s, s', i);
  }

  lemma SlashesHere(t: seq<Token>, ss: seq<Stmt>, i: nat, place: Place) returns (s: Stmt)
    requires Stands(t, ss, i, place)
    ensures s in ss && Covers(s, i) && place.In? && (place.slashes <==> s.vis.form == COMMENT)
  {
    s :| s in ss && Covers(s, i) && s.hi <= |t| && place == PutPlaces(t, place.dest, s)[i - s.lo];
  }

  /** The statement that holds a token is behind slashes just when its place says so. */
  lemma {:induction false} SlashesOf(t: seq<Token>, i: nat, s: Stmt)
    requires Terminated(t) && ParseTokens(t).At? && i < |t| - 1
    requires s in AllPuts(ParseTokens(t).log) && Covers(s, i)
    ensures FileReach(t, 0).To? && var place := FilePlaces(t, 0)[i];
            place.In? && (place.slashes <==> s.vis.form == COMMENT)
  {
    hide ParseTokens, FileReach, FilePlaces, Lost, Dropped, AllPuts, PutsTo, Terminated, Stands, Covers;
    OwnerIs(t, i);
    var r, place := ParseTokens(t), FilePlaces(t, 0)[i];
    HeldKept(t, i, s);
    var s' := SlashesHere(r.t, PutsTo(r.log, place.dest), i, place);
    PutsAmong(r.log, place.dest, s');
    SameHolder(t, i, s, s');
  }

  lemma {:induction false} HeldKept(t: seq<Token>, i: nat, s: Stmt)
    requires Terminated(t) && ParseTokens(t).At? && i < |t| - 1
    requires s in AllPuts(ParseTokens(t).log) && Covers(s, i)
    ensures !Dropped(ParseTokens(t).log, i)
  {
    hide ParseTokens, Same, Tiles, EndsAdded, SpacesKept, SafeEnds, SpacesAdded, NoFirstSpace, AllPuts, Terminated,
      Dropped, Covers;
    ParseTiles(t);
    EveryToken(ParseTokens(t).log, 0, |t| - 1, i);
  }

  lemma {:induction false} FitsAt(t: seq<Token>, i: nat)
    requires Terminated(t) && ParseTokens(t).At? && i < |t| - 1 && Fits(t, ParseTokens(t).log)
    ensures FileReach(t, 0).To? && var place := FilePlaces(t, 0)[i];
            place.In? ==> (place.slashes <==> t[i].kind == Comment)
  {
    hide ParseTokens, FileReach, FilePlaces, Lost, Dropped, Same, Tiles, EndsAdded, SpacesKept, SafeEnds, SpacesAdded,
      NoFirstSpace, AllPuts, Stands, Terminated;
    OwnerIs(t, i);
    if FilePlaces(t, 0)[i].In? {
      ParseTiles(t);
      var log := ParseTokens(t).log;
      EveryToken(log, 0, |t| - 1, i);
      var s :| s in AllPuts(log) && Covers(s, i);
      SlashesOf(t, i, s);
      PutMade(log, s);
      var k :| 0 <= k < |log| && log[k].Put? && log[k].stmt == s;
      assert StmtFits(t, log[k].stmt);
    }
  }

  lemma {:induction false} PlainFits(t: seq<Token>, s: Stmt)
    requires Terminated(t) && ParseTokens(t).At? && PlainItems(t) && s in AllPuts(ParseTokens(t).log)
    ensures StmtFits(t, s)
  {
    hide ParseTokens, FileReach, FilePlaces, Same, Tiles, EndsAdded, SpacesKept, SafeEnds, SpacesAdded, NoFirstSpace,
      Terminated, AllPuts;
    ParseTiles(t);
    var log := ParseTokens(t).log;
    ListsInOrder(log, Decls, 0, |t| - 1);
    var k :| 0 <= k < |AllPuts(log)| && AllPuts(log)[k] == s;
    forall i | s.lo <= i < s.hi && i < |t| ensures t[i].kind == Comment <==> s.vis.form == COMMENT {
      SlashesOf(t, i, s);
    }
  }

  /** No statement holds a comment inside just when none stands inside an item. */
  lemma {:induction false} FitsIsPlain(t: seq<Token>)
    requires Terminated(t) && ParseTokens(t).At?
    ensures Fits(t, ParseTokens(t).log) <==> PlainItems(t)
  {
    hide ParseTokens, FileReach, FilePlaces, FileNotes, LogPlaces, LogNotes, Announced, StmtFits, AllPuts, Terminated;
    ParseMeets(t);
    var log := ParseTokens(t).log;
    if Fits(t, log) {
      forall i | 0 <= i < |t| - 1
        ensures FilePlaces(t, 0)[i].In? ==> (FilePlaces(t, 0)[i].slashes <==> t[i].kind == Comment) {
        FitsAt(t, i);
      }
    }
    if PlainItems(t) {
      forall k | 0 <= k < |log| && log[k].Put? ensures StmtFits(t, log[k].stmt) {
        MadePut(log, k);
        PlainFits(t, log[k].stmt);
      }
    }
  }

  /** Nothing is dropped just when nothing in the file is strange. */
  lemma NothingDropped(t: seq<Token>)
    requires Terminated(t) && ParseTokens(t).At?
    ensures (forall i :: 0 <= i < |t| - 1 ==> !Dropped(ParseTokens(t).log, i)) <==> NothingStrange(t, 0)
  {
    hide ParseTokens, Lost, NothingStrange, Dropped;
    LostIsStrange(t);
    if NothingStrange(t, 0) {
      forall i | 0 <= i < |t| - 1 ensures !Dropped(ParseTokens(t).log, i) { DroppedIsLost(t, i); }
    } else {
      var i :| 0 <= i < |t| - 1 && Lost(t, 0, i);
      DroppedIsLost(t, i);
    }
  }

  /** A well-formed file is parsed, and none of its tokens is dropped. */
  lemma WellFormedParses(t: seq<Token>)
    requires Terminated(t) && WellFormed(t, 0)
    ensures ParseTokens(t).At? && forall i :: 0 <= i < |t| - 1 ==> !Dropped(ParseTokens(t).log, i)
  {
    hide ParseTokens, NothingStrange, WellFormed, FileReach, FilePlaces, FileNotes, LogPlaces, LogNotes, Announced;
    WellFormedReaches(t, 0);
    ParseMeets(t);
    NothingDropped(t);
  }
}
