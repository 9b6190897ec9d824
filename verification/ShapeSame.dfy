/** The shape and layout of a file are told from the tokens that follow, whatever the
    parser has done to those before. */
module ShapeSame {
  import opened Common
  import opened Tokenizer
  import opened ParserSpec
  import opened ParserFacts
  import opened FileShape
  import opened FileLayout

  /** From `p` on, the same kinds, texts and line ends, and after `p` the same spaces. */
  predicate SameFrom(t: seq<Token>, t': seq<Token>, p: nat) {
    && Same(t, t')
    && (forall i {:trigger t'[i]} :: p <= i < |t| ==> t'[i].end == t[i].end)
    && (forall i {:trigger t'[i]} :: p < i < |t| ==> t'[i].space == t[i].space)
  }

  lemma SameOf(t: seq<Token>, t': seq<Token>, p: nat, q: nat)
    requires SameFrom(t, t', p) && p <= q
    ensures |t| == |t'| && Same(t, t') && SameFrom(t, t', q)
  {
  }

  lemma SameRefl(t: seq<Token>, p: nat)
    ensures SameFrom(t, t, p)
  {
  }

  lemma SameTrans(t: seq<Token>, t1: seq<Token>, t2: seq<Token>, p: nat, q: nat)
    requires SameFrom(t, t1, p) && SameFrom(t1, t2, q) && p <= q
    ensures SameFrom(t, t2, q)
  {
  }

  lemma TerminatedSame(t: seq<Token>, t': seq<Token>, p: nat)
    requires Terminated(t) && SameFrom(t, t', p) && p < |t|
    ensures Terminated(t')
  {
  }

  lemma TokenSame(t: seq<Token>, t': seq<Token>, p: nat)
    requires Same(t, t')
    ensures IsComment(t, p) <==> IsComment(t', p)
    ensures IsName(t, p) <==> IsName(t', p)
    ensures IsSeparator(t, p) <==> IsSeparator(t', p)
    ensures IsBrace(t, p) <==> IsBrace(t', p)
    ensures forall c :: Is(t, p, c) <==> Is(t', p, c)
    ensures p < |t| ==> p < |t'| && t[p].kind == t'[p].kind && t[p].text == t'[p].text
    ensures p < |t| ==> (IsMap(t[p]) <==> IsMap(t'[p])) && (IsFileLine(t[p]) <==> IsFileLine(t'[p]))
    ensures p < |t| ==> (IsBodyLine(t[p]) <==> IsBodyLine(t'[p])) && (StopsHeader(t[p]) <==> StopsHeader(t'[p]))
    ensures p < |t| ==> forall s :: Word(t[p], s) <==> Word(t'[p], s)
  {
  }

  // Where things stop

  lemma {:induction false} LineStopSame(t: seq<Token>, t': seq<Token>, p: nat)
    requires SameFrom(t, t', p)
    ensures LineStop(t, p) == LineStop(t', p)
    decreases |t| - p
  {
    if p < |t| && !t[p].end { LineStopSame(t, t', p + 1); }
  }

  lemma {:induction false} CommentStopSame(t: seq<Token>, t': seq<Token>, p: nat)
    requires Same(t, t')
    ensures CommentStop(t, p) == CommentStop(t', p)
    decreases |t| - p
  {
    TokenSame(t, t', p);
    hide Same;
    if IsComment(t, p) { CommentStopSame(t, t', p + 1); }
  }

  lemma {:induction false} PlainStopSame(t: seq<Token>, t': seq<Token>, p: nat)
    requires Same(t, t')
    ensures PlainStop(t, p) == PlainStop(t', p)
    decreases |t| - p
  {
    TokenSame(t, t', p);
    hide Same, IsMap;
    if IsComment(t, p) && !IsMap(t[p]) { PlainStopSame(t, t', p + 1); }
  }

  lemma {:induction false} SemiSame(t: seq<Token>, t': seq<Token>, p: nat)
    requires Same(t, t')
    ensures SemiAt(t, p) == SemiAt(t', p)
    decreases |t| - p
  {
    TokenSame(t, t', p);
    if p < |t| && !Is(t, p, ';') { SemiSame(t, t', p + 1); }
  }

  lemma {:induction false} SeparatorSame(t: seq<Token>, t': seq<Token>, p: nat)
    requires Same(t, t')
    ensures SeparatorAt(t, p) == SeparatorAt(t', p)
    decreases |t| - p
  {
    TokenSame(t, t', p);
    hide IsSeparator;
    if p < |t| && !IsSeparator(t, p) { SeparatorSame(t, t', p + 1); }
  }

  lemma {:induction false} HeaderStopSame(t: seq<Token>, t': seq<Token>, p: nat)
    requires Terminated(t) && Terminated(t') && Same(t, t') && p < |t|
    ensures |t| == |t'| && HeaderStop(t, p) == HeaderStop(t', p)
    decreases |t| - p
  {
    TokenSame(t, t', p);
    hide StopsHeader;
    if !StopsHeader(t[p]) {
      NotLast(t, p);
      HeaderStopSame(t, t', p + 1);
    }
  }

  lemma NotLast(t: seq<Token>, p: nat)
    requires Terminated(t) && p < |t| && !StopsHeader(t[p])
    ensures p + 1 < |t|
  {
  }

  lemma {:induction false} StrangeStopSame(t: seq<Token>, t': seq<Token>, p: nat)
    requires Terminated(t) && Terminated(t') && SameFrom(t, t', p) && p < |t|
    ensures |t| == |t'| && StrangeStop(t, p) == StrangeStop(t', p)
    decreases |t| - p
  {
    if t[p].kind != Eof && !t[p].end { StrangeStopSame(t, t', p + 1); }
  }

  lemma {:induction false} LastNameSame(t: seq<Token>, t': seq<Token>, p: nat, q: nat)
    requires Same(t, t')
    ensures LastName(t, p, q) == LastName(t', p, q)
  {
    if p < q {
      TokenSame(t, t', q - 1);
      hide IsName;
      LastNameSame(t, t', p, q - 1);
    }
  }

  lemma TrailedSame(t: seq<Token>, t': seq<Token>, p: nat, q: nat)
    requires SameFrom(t, t', p) && p < q
    ensures Trailed(t, q) == Trailed(t', q)
  {
    TokenSame(t, t', q);
  }

  lemma StopsSame(t: seq<Token>, t': seq<Token>, p: nat)
    requires SameFrom(t, t', p)
    ensures LineStop(t, p) == LineStop(t', p) && CommentStop(t, p) == CommentStop(t', p)
    ensures PlainStop(t, p) == PlainStop(t', p) && ValueStop(t, p) == ValueStop(t', p)
    ensures SemiAt(t, p) == SemiAt(t', p) && SeparatorAt(t, p) == SeparatorAt(t', p)
  {
    hide LineStop, CommentStop, PlainStop, SemiAt, SeparatorAt;
    LineStopSame(t, t', p);
    CommentStopSame(t, t', p);
    PlainStopSame(t, t', p);
    SemiSame(t, t', p);
    SeparatorSame(t, t', p);
    SeparatorSame(t, t', CommentStop(t, p));
  }

  // Places

  lemma StretchSame(t: seq<Token>, t': seq<Token>, p: nat, dest: Dest, sort: Sort, lo: nat, hi: nat)
    requires SameFrom(t, t', p) && p <= lo <= hi <= |t|
    ensures |t| == |t'| && Stretch(t, dest, sort, lo, hi) == Stretch(t', dest, sort, lo, hi)
  {
    hide Stretch, PlaceAt;
    var ps, ps' := Stretch(t, dest, sort, lo, hi), Stretch(t', dest, sort, lo, hi);
    forall k | 0 <= k < |ps| ensures ps[k] == ps'[k] { PlaceSame(t, t', p, dest, sort, lo, hi, lo + k); }
  }

  lemma PlaceSame(t: seq<Token>, t': seq<Token>, p: nat, dest: Dest, sort: Sort, lo: nat, hi: nat, i: nat)
    requires SameFrom(t, t', p) && p <= lo <= i < hi <= |t|
    ensures |t| == |t'| && PlaceAt(t, dest, sort, lo, hi, i) == PlaceAt(t', dest, sort, lo, hi, i)
  {
    hide Spaced, Closes;
    if i > lo { SpacedSame(t, t', p, sort, lo, i); }
  }

  lemma SpacedSame(t: seq<Token>, t': seq<Token>, p: nat, sort: Sort, lo: nat, i: nat)
    requires SameFrom(t, t', p) && p <= lo < i < |t|
    ensures |t| == |t'| && (Spaced(t, sort, lo, i) <==> Spaced(t', sort, lo, i))
  {
    assert t'[i].space == t[i].space;
    assert t'[i].kind == t[i].kind && t'[i - 1].kind == t[i - 1].kind && t'[lo].kind == t[lo].kind;
  }

  // Function bodies

  lemma StepStopSame(t: seq<Token>, t': seq<Token>, p: nat)
    requires SameFrom(t, t', p) && p < |t|
    ensures |t| == |t'| && StepStop(t, p) == StepStop(t', p)
  {
    hide LineStop, CommentStop, SemiAt, IsBodyLine, IsComment, IsBrace, Is, SameFrom, Same, GuardStop;
    SameOf(t, t', p, p);
    LineStopSame(t, t', p);
    CommentStopSame(t, t', p);
    SemiSame(t, t', p + 1);
    TokenSame(t, t', p);
    GuardSame(t, t', p);
  }

  lemma GuardSame(t: seq<Token>, t': seq<Token>, p: nat)
    requires Same(t, t')
    ensures GuardStop(t, p) == GuardStop(t', p)
  {
    TokenSame(t, t', p + 1);
  }

  lemma StepSortSame(t: seq<Token>, t': seq<Token>, p: nat)
    requires Same(t, t') && p < |t|
    ensures |t| == |t'| && StepSort(t, p) == StepSort(t', p) && StepDest(t, p) == StepDest(t', p)
  {
    hide Same, IsBodyLine, IsComment, IsBrace, Is, Word;
    TokenSame(t, t', p);
    assert |t| == |t'| by { LengthSame(t, t'); }
  }

  lemma LengthSame(t: seq<Token>, t': seq<Token>)
    requires Same(t, t')
    ensures |t| == |t'|
  {
  }

  lemma StepSame(t: seq<Token>, t': seq<Token>, p: nat)
    requires SameFrom(t, t', p) && p < |t|
    ensures |t| == |t'| && StepStop(t, p) == StepStop(t', p) && NextStep(t, p) == NextStep(t', p)
  {
    hide StepStop, IsBrace, Is, Trailed, SameFrom, Same;
    SameOf(t, t', p, p);
    StepStopSame(t, t', p);
    TokenSame(t, t', p);
    if StepStop(t, p).Some? { TrailedSame(t, t', p, StepStop(t, p).value); }
  }

  lemma StepPlacesSame(t: seq<Token>, t': seq<Token>, p: nat)
    requires Terminated(t) && Terminated(t') && SameFrom(t, t', p) && p < |t| && NextStep(t, p).Some?
    ensures |t| == |t'| && NextStep(t', p) == NextStep(t, p) && StepPlaces(t, p) == StepPlaces(t', p)
  {
    hide StepStop, StepSort, StepDest, Stretch, SameFrom, Same, Terminated, NextStep;
    StepSame(t, t', p);
    SameOf(t, t', p, p);
    StepSortSame(t, t', p);
    NextHasStop(t, p);
    StepIn(t, p);
    var q := StepStop(t, p).value;
    StretchSame(t, t', p, StepDest(t, p), StepSort(t, p), p, q);
    StretchSame(t, t', p, Fns, Remark, q, NextStep(t, p).value);
  }

  lemma NextHasStop(t: seq<Token>, p: nat)
    requires p < |t| && NextStep(t, p).Some?
    ensures StepStop(t, p).Some?
  {
  }

  lemma {:induction false} BodySame(t: seq<Token>, t': seq<Token>, p: nat, depth: nat)
    requires Terminated(t) && Terminated(t') && SameFrom(t, t', p)
    ensures BodyStop(t, p, depth) == BodyStop(t', p, depth)
    ensures BodyStop(t, p, depth).Some? ==> BodyPlaces(t, p, depth) == BodyPlaces(t', p, depth)
    decreases |t| - p
  {
    hide NextStep, StepPlaces, SameFrom, Same, Terminated;
    SameOf(t, t', p, p);
    if p < |t| {
      StepSame(t, t', p);
      var d := Deeper(t, p, depth);
      assert d == Deeper(t', p, depth) by { TokenSame(t, t', p); }
      hide Deeper;
      if NextStep(t, p).Some? {
        StepPlacesSame(t, t', p);
        if d != 0 {
          SameOf(t, t', p, NextStep(t, p).value);
          BodySame(t, t', NextStep(t, p).value, d);
        }
      }
    }
  }

  // Initialisers

  lemma ValueStopSame(t: seq<Token>, t': seq<Token>, p: nat)
    requires Same(t, t')
    ensures ValueStop(t, p) == ValueStop(t', p)
  {
    hide SeparatorAt, CommentStop;
    CommentStopSame(t, t', p);
    SeparatorSame(t, t', CommentStop(t, p));
  }

  lemma {:induction false} ValueSame(t: seq<Token>, t': seq<Token>, p: nat, name: string)
    requires Terminated(t) && Terminated(t') && SameFrom(t, t', p) && ValueStop(t, p).Some?
    ensures ValueStop(t', p) == ValueStop(t, p) && |t| == |t'|
    ensures Trailed(t, ValueStop(t, p).value + 1) == Trailed(t', ValueStop(t, p).value + 1)
    ensures ValuePlaces(t, p, name) == ValuePlaces(t', p, name)
  {
    hide ValueStop, Stretch, TailPlaces, SameFrom, Same, Terminated, Trailed, CommentStop;
    SameOf(t, t', p, p);
    CommentStopSame(t, t', p);
    ValueStopSame(t, t', p);
    ValueIn(t, p);
    var start, q := CommentStop(t, p), ValueStop(t, p).value;
    TrailedSame(t, t', p, q + 1);
    StretchSame(t, t', p, Var(name), Remark, p, start);
    TailSame(t, t', p, start, q, name);
  }

  lemma TailSame(t: seq<Token>, t': seq<Token>, p: nat, start: nat, q: nat, name: string)
    requires SameFrom(t, t', p) && p <= start <= q < |t| && Trailed(t, q + 1) <= |t|
    ensures |t| == |t'| && Trailed(t', q + 1) == Trailed(t, q + 1)
    ensures TailPlaces(t, start, q, name) == TailPlaces(t', start, q, name)
  {
    hide Stretch, SameFrom, Trailed;
    SameOf(t, t', p, p);
    TrailedSame(t, t', p, q + 1);
    TrailedIn(t, q + 1);
    StretchSame(t, t', p, Var(name), Value, start, q + 1);
    StretchSame(t, t', p, Var(name), Remark, q + 1, Trailed(t, q + 1));
  }

  lemma {:induction false} InitSame(t: seq<Token>, t': seq<Token>, p: nat, name: string)
    requires Terminated(t) && Terminated(t') && SameFrom(t, t', p)
    ensures InitStop(t, p) == InitStop(t', p)
    ensures InitStop(t, p).Some? ==>
      InitPlaces(t, p, name) == InitPlaces(t', p, name) && InitNotes(t, p, name) == InitNotes(t', p, name)
    decreases |t| - p
  {
    hide ValueStop, ValuePlaces, ValueNotes, SameFrom, Same, Terminated, Trailed, CommentStop, Is;
    SameOf(t, t', p, p);
    ValueStopSame(t, t', p);
    if ValueStop(t, p).Some? {
      var q := ValueStop(t, p).value;
      ValueSame(t, t', p, name);
      ValueIn(t, p);
      TokenSame(t, t', q);
      CommentStopSame(t, t', p);
      ValueNotesSame(t, t', CommentStop(t, p), q, name);
      if !Is(t, q, ';') {
        SameOf(t, t', p, Trailed(t, q + 1));
        InitSame(t, t', Trailed(t, q + 1), name);
      }
    }
  }

  lemma ValueNotesSame(t: seq<Token>, t': seq<Token>, start: nat, q: nat, name: string)
    requires Same(t, t')
    ensures ValueNotes(t, start, q, name) == ValueNotes(t', start, q, name)
  {
    hide Same, LastName;
    LastNameSame(t, t', start, q);
    var dep := LastName(t, start, q);
    if dep.Some? {
      assert IsName(t, dep.value);
      TokenSame(t, t', dep.value);
    }
  }

  // Items

  lemma VariableSame(t: seq<Token>, t': seq<Token>, p: nat, q: nat)
    requires Same(t, t')
    ensures IsVariable(t, p, q) <==> IsVariable(t', p, q)
    ensures LastName(t, p, q) == LastName(t', p, q)
    ensures LastName(t, p, q).Some? ==> NameOf(t, p, q) == NameOf(t', p, q)
  {
    hide Says;
    SaysSame(t, t', p, q, "global");
    SaysSame(t, t', p, q, "const");
    SaysSame(t, t', p, q, "func");
    SaysSame(t, t', p, q, "entry");
    SaysSame(t, t', p, q, "extern");
    LastNameSame(t, t', p, q);
  }

  lemma SaysSame(t: seq<Token>, t': seq<Token>, p: nat, q: nat, s: string)
    requires Same(t, t')
    ensures Says(t, p, q, s) <==> Says(t', p, q, s)
  {
    assert forall i :: 0 <= i < |t| ==> (Word(t[i], s) <==> Word(t'[i], s));
  }

  lemma {:induction false} FunctionSame(t: seq<Token>, t': seq<Token>, p: nat, q: nat, e: nat)
    requires Terminated(t) && Terminated(t') && SameFrom(t, t', p) && p <= q <= e < |t|
    ensures |t| == |t'| && BodyStop(t, e, 0) == BodyStop(t', e, 0)
    ensures BodyStop(t, e, 0).Some? ==>
      HeadPlaces(t, Fns, false, p, q, e) + BodyPlaces(t, e, 0) ==
        HeadPlaces(t', Fns, false, p, q, e) + BodyPlaces(t', e, 0)
  {
    hide BodyStop, BodyPlaces, HeadPlaces, SameFrom, Same, Terminated;
    SameOf(t, t', p, e);
    BodySame(t, t', e, 0);
    HeadSame(t, t', p, Fns, false, q, e);
  }

  lemma VariableItemSame(t: seq<Token>, t': seq<Token>, p: nat, q: nat, e: nat, x: string)
    requires Terminated(t) && Terminated(t') && SameFrom(t, t', p) && p <= q <= e < |t|
    ensures |t| == |t'| && InitStop(t, e + 1) == InitStop(t', e + 1)
    ensures HeadPlaces(t, Var(x), true, p, q, e + 1) == HeadPlaces(t', Var(x), true, p, q, e + 1)
    ensures InitStop(t, e + 1).Some? ==> InitPlaces(t, e + 1, x) == InitPlaces(t', e + 1, x)
  {
    hide InitStop, InitPlaces, InitNotes, HeadPlaces, SameFrom, Same, Terminated;
    SameOf(t, t', p, e + 1);
    HeadSame(t, t', p, Var(x), true, q, e + 1);
    InitSame(t, t', e + 1, x);
  }

  lemma {:induction false} AfterHeaderSame(t: seq<Token>, t': seq<Token>, p: nat, q: nat, e: nat)
    requires Terminated(t) && Terminated(t') && SameFrom(t, t', p) && p <= q <= e < |t|
    ensures |t| == |t'| && AfterHeaderAt(t, q, e) == AfterHeaderAt(t', q, e)
    ensures AfterHeaderAt(t, q, e).To? ==> AfterHeaderPlaces(t, p, q, e) == AfterHeaderPlaces(t', p, q, e)
  {
    hide IsVariable, LastName, NameOf, BodyStop, BodyPlaces, InitStop, InitPlaces, HeadPlaces, Stretch, SameFrom, Same,
      Is, IsComment, Terminated;
    SameOf(t, t', p, p);
    TokenSame(t, t', e);
    VariableSame(t, t', q, e);
    StretchSame(t, t', p, Fns, Remark, p, q);
    FunctionSame(t, t', p, q, e);
    HeadSame(t, t', p, Decls, true, q, e + 1);
    if LastName(t, q, e).Some? { VariableItemSame(t, t', p, q, e, NameOf(t, q, e)); }
  }

  lemma HeadSame(t: seq<Token>, t': seq<Token>, p: nat, dest: Dest, closed: bool, q: nat, hi: nat)
    requires SameFrom(t, t', p) && p <= q <= hi <= |t|
    ensures |t| == |t'| && HeadPlaces(t, dest, closed, p, q, hi) == HeadPlaces(t', dest, closed, p, q, hi)
  {
    hide Stretch, SameFrom;
    SameOf(t, t', p, p);
    StretchSame(t, t', p, dest, Remark, p, q);
    StretchSame(t, t', p, dest, Head(closed), q, hi);
  }

  /** What the item at `p` begins with after its comments, and where that ends. */
  lemma BeginSame(t: seq<Token>, t': seq<Token>, p: nat)
    requires Terminated(t) && Terminated(t') && SameFrom(t, t', p) && p < |t|
    ensures var q := PlainStop(t, p);
            && |t| == |t'| && PlainStop(t', p) == q && p <= q < |t| && SameFrom(t, t', q)
            && (IsLine(t, q) <==> IsLine(t', q)) && (IsHeader(t, q) <==> IsHeader(t', q))
            && (IsMap(t[q]) <==> IsMap(t'[q]))
            && LineStop(t, q) == LineStop(t', q) && StrangeStop(t, q) == StrangeStop(t', q)
            && HeaderStop(t, q) == HeaderStop(t', q) && Same(t, t')
  {
    hide LineStop, PlainStop, StrangeStop, HeaderStop, SameFrom, Same, IsMap, IsFileLine, StopsHeader, Terminated,
      IsLine;
    SameOf(t, t', p, p);
    PlainStopSame(t, t', p);
    PlainIn(t, p);
    var q := PlainStop(t, p);
    SameOf(t, t', p, q);
    TokenSame(t, t', q);
    LineSame(t, t', q);
    LineStopSame(t, t', q);
    StrangeStopSame(t, t', q);
    HeaderStopSame(t, t', q);
  }

  /** An item is told from the tokens that follow. */
  lemma ItemSame(t: seq<Token>, t': seq<Token>, p: nat)
    requires Terminated(t) && Terminated(t') && SameFrom(t, t', p) && p < |t| && t[p].kind != Eof
    ensures |t| == |t'| && t'[p].kind != Eof && ItemAt(t, p) == ItemAt(t', p)
    ensures ItemAt(t, p).To? ==> ItemPlaces(t, p) == ItemPlaces(t', p)
  {
    hide AfterHeaderAt, AfterHeaderPlaces, LineStop, PlainStop, StrangeStop, HeaderStop, SameFrom, Same, IsMap, IsLine,
      IsHeader, StopsHeader, Stretch, Terminated;
    SameOf(t, t', p, p);
    TokenSame(t, t', p);
    BeginSame(t, t', p);
    var q := PlainStop(t, p);
    AfterHeaderSame(t, t', p, q, HeaderStop(t, q));
    if ItemAt(t, p).To? {
      ItemMoves(t, p);
      StretchSame(t, t', p, Decls, Remark, p, q);
      StretchSame(t, t', p, Fns, Remark, p, q);
      StretchSame(t, t', p, Decls, if IsMap(t[q]) then MapLine else Line, q, ItemAt(t, p).end);
    }
  }

  lemma DefinesSame(t: seq<Token>, t': seq<Token>, p: nat)
    requires Terminated(t) && Terminated(t') && SameFrom(t, t', p) && p < |t|
    ensures |t| == |t'| && (DefinesVariable(t, p) <==> DefinesVariable(t', p))
  {
    hide PlainStop, HeaderStop, SameFrom, Same, IsLine, IsHeader, IsVariable, Terminated, StopsHeader, Is, LineStop,
      StrangeStop, IsMap;
    BeginSame(t, t', p);
    var q := PlainStop(t, p);
    var e := HeaderStop(t, q);
    TokenSame(t, t', e);
    VariableSame(t, t', q, e);
  }

  lemma VariableNotesSame(t: seq<Token>, t': seq<Token>, q: nat, e: nat)
    requires Terminated(t) && Terminated(t') && SameFrom(t, t', q) && q <= e
    ensures VariableNotes(t, q, e) == VariableNotes(t', q, e)
  {
    hide SameFrom, Same, IsVariable, NameOf, LastName, InitNotes, Terminated, Is;
    SameOf(t, t', q, e + 1);
    TokenSame(t, t', e);
    VariableSame(t, t', q, e);
    if LastName(t, q, e).Some? { InitSame(t, t', e + 1, NameOf(t, q, e)); }
  }

  lemma ItemNotesSame(t: seq<Token>, t': seq<Token>, p: nat)
    requires Terminated(t) && Terminated(t') && SameFrom(t, t', p) && p < |t|
    ensures |t| == |t'| && ItemNotes(t, p) == ItemNotes(t', p)
  {
    hide PlainStop, HeaderStop, SameFrom, Same, DefinesVariable, VariableNotes, Terminated, ItemAt, LineStop,
      StrangeStop, IsLine, IsHeader, IsMap;
    DefinesSame(t, t', p);
    BeginSame(t, t', p);
    VariableNotesSame(t, t', PlainStop(t, p), HeaderStop(t, PlainStop(t, p)));
  }

  lemma LineSame(t: seq<Token>, t': seq<Token>, q: nat)
    requires Same(t, t')
    ensures IsLine(t, q) <==> IsLine(t', q)
  {
    hide IsMap, IsFileLine;
    TokenSame(t, t', q);
  }

  lemma {:induction false} FileSame(t: seq<Token>, t': seq<Token>, p: nat)
    requires Terminated(t) && Terminated(t') && SameFrom(t, t', p) && p < |t|
    ensures |t| == |t'| && FileReach(t, p) == FileReach(t', p)
    ensures FileReach(t, p).To? ==> FilePlaces(t, p) == FilePlaces(t', p) && FileNotes(t, p) == FileNotes(t', p)
    decreases |t| - p
  {
    hide ItemAt, ItemPlaces, ItemNotes, SameFrom, Same, Terminated;
    SameOf(t, t', p, p);
    TokenSame(t, t', p);
    if t[p].kind != Eof {
      ItemSame(t, t', p);
      if ItemAt(t, p).To? {
        ItemNotesSame(t, t', p);
        ItemMoves(t, p);
        SameOf(t, t', p, ItemAt(t, p).end);
        FileSame(t, t', ItemAt(t, p).end);
      }
    }
  }
}
