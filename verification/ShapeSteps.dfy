/** What the steps of the parser make of function bodies and initialisers: just what the
    layout of the file says. */
module ShapeSteps {
  import opened Common
  import opened Tokenizer
  import opened Statements
  import opened ParserSpec
  import opened ParserFacts
  import opened FileShape
  import opened FileLayout
  import opened ShapeSame

  // What events say of the tokens

  /** The places of a statement's tokens, with the flags they have by now. */
  function PutPlaces(t: seq<Token>, dest: Dest, s: Stmt): (ps: seq<Place>)
    requires s.lo <= s.hi <= |t|
    ensures |ps| == s.hi - s.lo
  {
    seq(s.hi - s.lo, k requires 0 <= k < s.hi - s.lo =>
      var tok := t[s.lo + k];
      In(dest, s.vis.form == COMMENT, tok.space, tok.end, s.vis.form == PRED && s.lo + k == s.hi - 1))
  }

  function EventPlaces(t: seq<Token>, e: Event): seq<Place> {
    match e
    case Put(dest, s) => if s.lo <= s.hi <= |t| then PutPlaces(t, dest, s) else []
    case Drop(lo, hi) => if lo <= hi then Nowheres(hi - lo) else []
    case _ => []
  }

  function LogPlaces(t: seq<Token>, es: seq<Event>): seq<Place> {
    if es == [] then [] else LogPlaces(t, es[..|es| - 1]) + EventPlaces(t, es[|es| - 1])
  }

  /** The symbols looked up and the dependencies found. */
  function LogNotes(es: seq<Event>): seq<Event> {
    if es == [] then []
    else
      var e := es[|es| - 1];
      LogNotes(es[..|es| - 1]) + if e.Touch? || e.Depend? then [e] else []
  }

  /** All statements lie below `hi`. */
  predicate EndBy(es: seq<Event>, hi: nat) {
    forall k :: 0 <= k < |es| && es[k].Put? ==> es[k].stmt.hi <= hi
  }

  /** A variable is looked up before its first statement, or is `known`. */
  predicate Announced(es: seq<Event>, known: set<string>) {
    forall k :: 0 <= k < |es| && es[k].Put? && es[k].dest.Var? ==>
      es[k].dest.name in known || Touched(es[..k], es[k].dest.name)
  }

  predicate Touched(es: seq<Event>, x: string) {
    exists j :: 0 <= j < |es| && es[j] == Touch(x)
  }

  /** Before `p` nothing has changed. */
  predicate Kept(t: seq<Token>, t': seq<Token>, p: nat) {
    |t| == |t'| && forall i {:trigger t'[i]} :: 0 <= i < p && i < |t| ==> t'[i] == t[i]
  }

  /** One or more steps lay out the tokens from `r.pos` on so, and note so much. */
  ghost predicate Lays(r: Parse, r': Parse, ps: seq<Place>, ns: seq<Event>, known: set<string>)
    requires r.At?
  {
    && r'.At? && r'.pos == r.pos + |ps| && Kept(r.t, r'.t, r.pos) && SameFrom(r.t, r'.t, r'.pos)
    && r.log <= r'.log
    && var es := r'.log[|r.log|..];
       && EndBy(es, r'.pos) && Announced(es, known)
       && LogPlaces(r'.t, es) == ps && LogNotes(es) == ns
  }

  lemma {:induction false} LogAppend(t: seq<Token>, a: seq<Event>, b: seq<Event>)
    ensures LogPlaces(t, a + b) == LogPlaces(t, a) + LogPlaces(t, b)
    ensures LogNotes(a + b) == LogNotes(a) + LogNotes(b)
  {
    hide EventPlaces, LogPlaces, LogNotes;
    AppendInit(a, b);
    LogStep(t, b);
    if b != [] {
      LogStep(t, a + b);
      LogAppend(t, a, b[..|b| - 1]);
      var e := b[|b| - 1];
      AppendAssociates(LogPlaces(t, a), LogPlaces(t, b[..|b| - 1]), EventPlaces(t, e));
      AppendAssociates(LogNotes(a), LogNotes(b[..|b| - 1]), if e.Touch? || e.Depend? then [e] else []);
    }
  }

  lemma LogStep(t: seq<Token>, es: seq<Event>)
    ensures es == [] ==> LogPlaces(t, es) == [] && LogNotes(es) == []
    ensures es != [] ==>
      var n, e := |es| - 1, es[|es| - 1];
      && LogPlaces(t, es) == LogPlaces(t, es[..n]) + EventPlaces(t, e)
      && LogNotes(es) == LogNotes(es[..n]) + if e.Touch? || e.Depend? then [e] else []
  {
  }

  lemma {:induction false} LogKept(t: seq<Token>, t': seq<Token>, es: seq<Event>, p: nat)
    requires Kept(t, t', p) && EndBy(es, p)
    ensures LogPlaces(t, es) == LogPlaces(t', es)
  {
    hide EventPlaces;
    if es != [] {
      var n := |es| - 1;
      LogKept(t, t', es[..n], p);
      EventKept(t, t', es[n], p);
    }
  }

  lemma EventKept(t: seq<Token>, t': seq<Token>, e: Event, p: nat)
    requires Kept(t, t', p) && (e.Put? ==> e.stmt.hi <= p)
    ensures EventPlaces(t, e) == EventPlaces(t', e)
  {
    if e.Put? && e.stmt.lo <= e.stmt.hi <= |t| {
      var s := e.stmt;
      var ps, ps' := PutPlaces(t, e.dest, s), PutPlaces(t', e.dest, s);
      forall k | 0 <= k < |ps| ensures ps[k] == ps'[k] { assert t'[s.lo + k] == t[s.lo + k]; }
    }
  }

  lemma EndAppend(a: seq<Event>, b: seq<Event>, p: nat, q: nat)
    requires EndBy(a, p) && EndBy(b, q) && p <= q
    ensures EndBy(a + b, q)
  {
  }

  lemma AnnouncedAppend(a: seq<Event>, b: seq<Event>, known: set<string>, more: set<string>)
    requires Announced(a, known) && Announced(b, more) && forall x :: x in more ==> x in known || Touched(a, x)
    ensures Announced(a + b, known)
  {
    hide Touched;
    var c := a + b;
    forall k | 0 <= k < |c| && c[k].Put? && c[k].dest.Var?
      ensures c[k].dest.name in known || Touched(c[..k], c[k].dest.name) {
      if k < |a| {
        assert c[..k] == a[..k];
      } else {
        var x := c[k].dest.name;
        assert c[..k] == a + b[..k - |a|];
        TouchedAppend(a, b[..k - |a|], x);
      }
    }
  }

  lemma TouchedAppend(a: seq<Event>, b: seq<Event>, x: string)
    ensures Touched(a + b, x) <==> Touched(a, x) || Touched(b, x)
  {
    var c := a + b;
    if Touched(a, x) {
      var j :| 0 <= j < |a| && a[j] == Touch(x);
      assert c[j] == Touch(x);
    }
    if Touched(b, x) {
      var j :| 0 <= j < |b| && b[j] == Touch(x);
      assert c[|a| + j] == Touch(x);
    }
  }

  lemma LaysFacts(r: Parse, r': Parse, ps: seq<Place>, ns: seq<Event>, known: set<string>)
    requires r.At? && Lays(r, r', ps, ns, known)
    ensures r'.At? && r'.pos == r.pos + |ps| && SameFrom(r.t, r'.t, r'.pos) && |r.t| == |r'.t| && Same(r.t, r'.t)
  {
  }

  /** Steps after one another; the first may announce what the second knows. */
  lemma LaysThen(r: Parse, r1: Parse, r2: Parse, ps1: seq<Place>, ps2: seq<Place>, ns1: seq<Event>, ns2: seq<Event>,
      known: set<string>, more: set<string>)
    requires r.At? && r1.At? && Lays(r, r1, ps1, ns1, known) && Lays(r1, r2, ps2, ns2, more)
    requires forall x :: x in more ==> x in known || Touched(r1.log[|r.log|..], x)
    ensures Lays(r, r2, ps1 + ps2, ns1 + ns2, known)
  {
    hide LogPlaces, LogNotes, SameFrom, Announced, EndBy, Kept, Touched;
    var a, b := r1.log[|r.log|..], r2.log[|r1.log|..];
    assert r2.log[|r.log|..] == a + b;
    SameTrans(r.t, r1.t, r2.t, r1.pos, r2.pos);
    KeptTrans(r.t, r1.t, r2.t, r.pos, r1.pos);
    LogKept(r1.t, r2.t, a, r1.pos);
    LogAppend(r2.t, a, b);
    EndAppend(a, b, r1.pos, r2.pos);
    AnnouncedAppend(a, b, known, more);
  }

  lemma KeptTrans(t: seq<Token>, t1: seq<Token>, t2: seq<Token>, p: nat, q: nat)
    requires Kept(t, t1, p) && Kept(t1, t2, q) && p <= q
    ensures Kept(t, t2, p)
  {
  }

  lemma LaysTrans(r: Parse, r1: Parse, r2: Parse, ps1: seq<Place>, ps2: seq<Place>, ns1: seq<Event>, ns2: seq<Event>,
      known: set<string>)
    requires r.At? && r1.At? && Lays(r, r1, ps1, ns1, known) && Lays(r1, r2, ps2, ns2, known)
    ensures Lays(r, r2, ps1 + ps2, ns1 + ns2, known)
  {
    hide Lays, Touched;
    LaysThen(r, r1, r2, ps1, ps2, ns1, ns2, known, known);
  }

  lemma LaysNothing(r: Parse, known: set<string>)
    requires r.At?
    ensures Lays(r, r, [], [], known)
  {
    assert r.log[|r.log|..] == [];
  }

  lemma NoNotes()
    ensures var none: seq<Event> := []; none + none == none
  {
  }

  // One statement

  /** The flags that the layout asks of the tokens of a stretch, but the first's space. */
  predicate Dressed(t: seq<Token>, t': seq<Token>, sort: Sort, lo: nat, hi: nat) {
    && |t| == |t'| && hi <= |t|
    && (forall i {:trigger t'[i]} :: lo <= i < hi ==> t'[i].end == (t[i].end || (i == hi - 1 && Closes(sort))))
    && (forall i {:trigger t'[i]} :: lo < i < hi ==> t'[i].space == Spaced(t, sort, lo, i))
  }

  predicate Suits(vis: Vis, sort: Sort) {
    && (vis.form == COMMENT <==> sort == Remark || sort == MapLine)
    && (vis.form == PRED <==> sort == Guard)
  }

  predicate Knows(known: set<string>, dest: Dest) {
    dest.Var? ==> dest.name in known
  }

  lemma StmtLays(r: Parse, t: seq<Token>, dest: Dest, vis: Vis, sort: Sort, hi: nat, known: set<string>)
    requires r.At? && r.pos <= hi <= |r.t| && Kept(r.t, t, r.pos) && SameFrom(r.t, t, hi)
    requires Dressed(r.t, t, sort, r.pos, hi) && Suits(vis, sort) && Knows(known, dest)
    ensures var r' := NewStmt(r.(t := t), dest, vis, r.pos, hi);
            Lays(r, r', Stretch(r.t, dest, sort, r.pos, hi), [], known)
  {
    hide Dressed, Suits, Stretch, SameFrom, Kept, LogPlaces, LogNotes, EndBy, Announced, PutPlaces, ClearSpace;
    var lo, s := r.pos, Stmt(vis, r.pos, hi);
    assert |r.t| == |t| by { FlagsLength(r.t, t, hi); }
    var r' := NewStmt(r.(t := t), dest, vis, lo, hi);
    assert r'.log[|r.log|..] == [Put(dest, s)];
    OnePut(r'.t, dest, s, known);
    PutIs(r.t, t, dest, vis, sort, lo, hi);
    ClearedFlags(r.t, t, lo, hi);
  }

  lemma FlagsLength(t: seq<Token>, t': seq<Token>, p: nat)
    requires SameFrom(t, t', p)
    ensures |t| == |t'|
  {
  }

  lemma ClearedFlags(t: seq<Token>, t': seq<Token>, lo: nat, hi: nat)
    requires Kept(t, t', lo) && SameFrom(t, t', hi) && lo <= hi
    ensures Kept(t, ClearSpace(t', lo), lo) && SameFrom(t, ClearSpace(t', lo), hi)
  {
  }

  lemma OnePut(t: seq<Token>, dest: Dest, s: Stmt, known: set<string>)
    requires s.lo <= s.hi <= |t| && Knows(known, dest)
    ensures var es := [Put(dest, s)];
            EndBy(es, s.hi) && Announced(es, known) && LogPlaces(t, es) == PutPlaces(t, dest, s) && LogNotes(es) == []
  {
    assert [Put(dest, s)][..0] == [];
  }

  lemma PutIs(t: seq<Token>, t': seq<Token>, dest: Dest, vis: Vis, sort: Sort, lo: nat, hi: nat)
    requires lo <= hi && Dressed(t, t', sort, lo, hi) && Suits(vis, sort)
    ensures PutPlaces(ClearSpace(t', lo), dest, Stmt(vis, lo, hi)) == Stretch(t, dest, sort, lo, hi)
  {
    hide Spaced, Closes;
    var t1 := ClearSpace(t', lo);
    var ps, ps' := PutPlaces(t1, dest, Stmt(vis, lo, hi)), Stretch(t, dest, sort, lo, hi);
    forall k | 0 <= k < |ps| ensures ps[k] == ps'[k] {
      assert t1[lo + k].end == t'[lo + k].end && (k > 0 ==> t1[lo + k].space == t'[lo + k].space);
    }
  }

  /** A stretch without any change of its own. */
  lemma PlainDressed(t: seq<Token>, sort: Sort, lo: nat, hi: nat)
    requires hi <= |t| && !Closes(sort) && sort in {Line, MapLine, Remark, Brace}
    ensures Dressed(t, t, sort, lo, hi)
  {
  }

  lemma PlainLays(r: Parse, dest: Dest, vis: Vis, sort: Sort, hi: nat, known: set<string>)
    requires r.At? && r.pos <= hi <= |r.t| && sort in {Line, MapLine, Remark, Brace} && Suits(vis, sort)
    requires Knows(known, dest)
    ensures Lays(r, NewStmt(r, dest, vis, r.pos, hi), Stretch(r.t, dest, sort, r.pos, hi), [], known)
  {
    hide Lays, Dressed, Stretch, Suits;
    PlainDressed(r.t, sort, r.pos, hi);
    SameRefl(r.t, hi);
    StmtLays(r, r.t, dest, vis, sort, hi, known);
  }

  /** A comment that trails a statement. */
  lemma TrailLays(r: Parse, r1: Parse, dest: Dest, hi: nat, ps: seq<Place>, known: set<string>)
    requires r.At? && r1.At? && r1.pos == hi && IsComment(r.t, hi) && Lays(r, r1, ps, [], known) && Knows(known, dest)
    ensures Lays(r, NewStmt(r1, dest, Plain(COMMENT), hi, hi + 1), ps + Stretch(r.t, dest, Remark, hi, hi + 1), [],
      known)
  {
    hide Lays, Stretch, SameFrom;
    LaysFacts(r, r1, ps, [], known);
    StretchSame(r.t, r1.t, hi, dest, Remark, hi, hi + 1);
    PlainLays(r1, dest, Plain(COMMENT), Remark, hi + 1, known);
    LaysTrans(r, r1, NewStmt(r1, dest, Plain(COMMENT), hi, hi + 1), ps, Stretch(r.t, dest, Remark, hi, hi + 1), [], [],
      known);
    NoNotes();
  }

  /** A statement that ends its line. */
  lemma EndedLays(r: Parse, t: seq<Token>, dest: Dest, vis: Vis, sort: Sort, hi: nat, known: set<string>)
    requires r.At? && r.pos < hi < |r.t| && Kept(r.t, t, r.pos) && SameFrom(r.t, t, hi) && t[hi - 1].end
    requires Dressed(r.t, t, sort, r.pos, hi) && Suits(vis, sort) && Knows(known, dest)
    ensures Lays(r, Finish(r.(t := t), dest, vis, r.pos, hi), Stretch(r.t, dest, sort, r.pos, hi), [], known)
  {
    hide Lays, Dressed, Stretch;
    StmtLays(r, t, dest, vis, sort, hi, known);
  }

  /** A statement that takes a comment on its line. */
  lemma FinishLays(r: Parse, t: seq<Token>, dest: Dest, vis: Vis, sort: Sort, hi: nat, known: set<string>)
    requires r.At? && r.pos < hi < |r.t| && Kept(r.t, t, r.pos) && SameFrom(r.t, t, hi)
      && t[hi - 1].end == r.t[hi - 1].end
    requires Dressed(r.t, t, sort, r.pos, hi) && Suits(vis, sort) && Knows(known, dest)
    ensures var q := Trailed(r.t, hi);
            && q <= |r.t|
            && Lays(r, Finish(r.(t := t), dest, vis, r.pos, hi),
              Stretch(r.t, dest, sort, r.pos, hi) + Stretch(r.t, dest, Remark, hi, q), [], known)
  {
    hide Lays, Dressed, Stretch, SameFrom;
    SameOf(r.t, t, hi, hi);
    TokenSame(r.t, t, hi);
    var ps := Stretch(r.t, dest, sort, r.pos, hi);
    if !t[hi - 1].end && t[hi].kind == Comment {
      var v := vis.(noEol := true);
      StmtLays(r, t, dest, v, sort, hi, known);
      TrailLays(r, NewStmt(r.(t := t), dest, v, r.pos, hi), dest, hi, ps, known);
    } else {
      StmtLays(r, t, dest, vis, sort, hi, known);
      NothingTrails(r.t, dest, hi, ps);
    }
  }

  lemma NothingTrails(t: seq<Token>, dest: Dest, hi: nat, ps: seq<Place>)
    requires hi <= |t|
    ensures ps + Stretch(t, dest, Remark, hi, hi) == ps
  {
  }

  // Lines

  lemma {:induction false} LineEndIs(t: seq<Token>, p: nat)
    ensures LineEnd(t, p) == LineStop(t, p)
    decreases |t| - p
  {
    if p < |t| && !t[p].end { LineEndIs(t, p + 1); }
  }

  lemma LineLays(r: Parse, dest: Dest, vis: Vis, sort: Sort)
    requires r.At? && Terminated(r.t) && r.pos < |r.t| && sort in {Line, MapLine} && Suits(vis, sort) && !dest.Var?
    ensures match LineStop(r.t, r.pos)
            case None => ParseLine(r, dest, vis) == Overrun
            case Some(q) => Lays(r, ParseLine(r, dest, vis), Stretch(r.t, dest, sort, r.pos, q), [], {})
  {
    hide Lays, Stretch, LineEnd, Suits;
    LineEndIs(r.t, r.pos);
    match LineStop(r.t, r.pos)
    case None =>
    case Some(q) => PlainLays(r, dest, vis, sort, q, {});
  }

  // Function bodies

  /** Up to `q` spaces behind commas are gone, from `p` on. */
  predicate CommasTight(t: seq<Token>, t': seq<Token>, p: nat, q: nat) {
    && |t| == |t'| && Same(t, t') && q < |t|
    && (forall i {:trigger t'[i]} :: 0 <= i < |t| ==> t'[i].end == t[i].end)
    && (forall i {:trigger t'[i]} :: 0 <= i < |t| ==>
      t'[i].space == (t[i].space && !(p < i <= q && Is(t, i - 1, ','))))
  }

  lemma {:induction false} SemiScanIs(t: seq<Token>, p: nat)
    ensures match SemiAt(t, p)
            case None => SemiScan(t, p) == None
            case Some(q) =>
              && SemiScan(t, p).Some? && SemiScan(t, p).value.1 == q && CommasTight(t, SemiScan(t, p).value.0, p, q)
    decreases |t| - p
  {
    if p < |t| && t[p].kind != Char(';') {
      if t[p].kind == Char(',') {
        var t1 := ClearSpace(t, p + 1);
        SemiSame(t, t1, p + 1);
        SemiScanIs(t1, p + 1);
        if SemiAt(t, p + 1).Some? { TightMore(t, t1, SemiScan(t1, p + 1).value.0, p, SemiAt(t, p + 1).value); }
      } else {
        SemiScanIs(t, p + 1);
        if SemiAt(t, p + 1).Some? { TightOn(t, SemiScan(t, p + 1).value.0, p, SemiAt(t, p + 1).value); }
      }
    }
  }

  lemma TightMore(t: seq<Token>, t1: seq<Token>, t2: seq<Token>, p: nat, q: nat)
    requires Is(t, p, ',') && t1 == ClearSpace(t, p + 1) && p < q && CommasTight(t1, t2, p + 1, q)
    ensures CommasTight(t, t2, p, q)
  {
    forall i: nat ensures Is(t1, i, ',') <==> Is(t, i, ',') { }
  }

  lemma TightOn(t: seq<Token>, t2: seq<Token>, p: nat, q: nat)
    requires !Is(t, p, ',') && p < q && CommasTight(t, t2, p + 1, q)
    ensures CommasTight(t, t2, p, q)
  {
  }

  lemma InsnLays(r: Parse)
    requires r.At? && Terminated(r.t) && r.pos < |r.t|
    ensures match SemiAt(r.t, r.pos + 1)
            case None => ParsePlainInsn(r) == Overrun
            case Some(q) =>
              && q + 1 <= |r.t|
              && Lays(r, ParsePlainInsn(r), Stretch(r.t, Fns, Instruction, r.pos, q + 1), [], {})
  {
    hide Lays, Finish, Stretch, SemiScan, Dressed, SameFrom, Kept, CommasTight, SetEnd;
    SemiScanIs(r.t, r.pos + 1);
    match SemiAt(r.t, r.pos + 1)
    case None =>
    case Some(q) =>
      var t := SemiScan(r.t, r.pos + 1).value.0;
      LastIsEof(r.t, q);
      InsnDressed(r.t, t, r.pos, q);
      EndedLays(r, SetEnd(t, q), Fns, Plain(INSN), Instruction, q + 1, {});
  }

  lemma InsnDressed(t: seq<Token>, t1: seq<Token>, lo: nat, q: nat)
    requires lo < q < |t| && CommasTight(t, t1, lo + 1, q)
    ensures Dressed(t, SetEnd(t1, q), Instruction, lo, q + 1)
    ensures Kept(t, SetEnd(t1, q), lo) && SameFrom(t, SetEnd(t1, q), q + 1) && SetEnd(t1, q)[q].end
  {
  }

  lemma GuardLays(r: Parse)
    requires r.At? && Terminated(r.t) && Is(r.t, r.pos, '@')
    ensures r.pos + 1 < |r.t|
    ensures var q := GuardStop(r.t, r.pos);
            if q < |r.t| then
              Lays(r, ParsePred(r),
                Stretch(r.t, Fns, Guard, r.pos, q) + Stretch(r.t, Fns, Remark, q, Trailed(r.t, q)), [], {})
            else ParsePred(r) == Overrun
  {
    hide Lays, Finish, Stretch, Dressed, SameFrom, Kept, Trailed;
    var p, q := r.pos, GuardStop(r.t, r.pos);
    LastIsEof(r.t, p);
    var t1 := ClearSpace(r.t, p + 1);
    var t := if Is(r.t, p + 1, '!') then ClearSpace(t1, p + 2) else t1;
    if q < |r.t| {
      GuardDressed(r.t, t, p, q);
      FinishLays(r, t, Fns, Plain(PRED), Guard, q, {});
    } else {
      GuardOverruns(r);
    }
  }

  lemma GuardDressed(t: seq<Token>, t': seq<Token>, p: nat, q: nat)
    requires Is(t, p, '@') && q == GuardStop(t, p) < |t|
    requires t' == if Is(t, p + 1, '!') then ClearSpace(ClearSpace(t, p + 1), p + 2) else ClearSpace(t, p + 1)
    ensures Dressed(t, t', Guard, p, q) && Kept(t, t', p) && SameFrom(t, t', q) && t'[q - 1].end == t[q - 1].end
    ensures q == if Is(t, p + 1, '!') then p + 3 else p + 2
  {
  }

  lemma GuardOverruns(r: Parse)
    requires r.At? && Terminated(r.t) && Is(r.t, r.pos, '@') && GuardStop(r.t, r.pos) >= |r.t|
    requires r.pos + 1 < |r.t|
    ensures ParsePred(r) == Overrun
  {
  }

  lemma {:induction false} CommentEndIs(t: seq<Token>, p: nat)
    ensures CommentEnd(t, p) == CommentStop(t, p)
    decreases |t| - p
  {
    if IsComment(t, p) { CommentEndIs(t, p + 1); }
  }

  lemma LabelDressed(t: seq<Token>, p: nat)
    requires p < |t|
    ensures Dressed(t, SetEnd(t, p), Tag, p, p + 1) && Kept(t, SetEnd(t, p), p) && SameFrom(t, SetEnd(t, p), p + 1)
    ensures SetEnd(t, p)[p].end
  {
  }

  lemma RemarkLays(r: Parse)
    requires r.At? && Terminated(r.t) && IsComment(r.t, r.pos)
    ensures CommentEnd(r.t, r.pos + 1) == CommentStop(r.t, r.pos) < |r.t|
    ensures var q := CommentStop(r.t, r.pos);
            Lays(r, NewStmt(r, Fns, Plain(COMMENT), r.pos, q), Stretch(r.t, Fns, Remark, r.pos, q), [], {})
  {
    hide Lays, Stretch;
    CommentEndIs(r.t, r.pos + 1);
    CommentPast(r.t, r.pos);
    CommentIn(r.t, r.pos);
    PlainLays(r, Fns, Plain(COMMENT), Remark, CommentStop(r.t, r.pos), {});
  }

  lemma BraceLays(r: Parse)
    requires r.At? && Terminated(r.t) && IsBrace(r.t, r.pos)
    ensures var q := Trailed(r.t, r.pos + 1);
            && r.pos + 1 < |r.t| && q <= |r.t|
            && Lays(r, Finish(r, Fns, Plain(INSN), r.pos, r.pos + 1),
              Stretch(r.t, Fns, Brace, r.pos, r.pos + 1) + Stretch(r.t, Fns, Remark, r.pos + 1, q), [], {})
  {
    hide Lays, Stretch, Dressed, SameFrom, Finish, Trailed;
    LastIsEof(r.t, r.pos);
    SameRefl(r.t, r.pos + 1);
    PlainDressed(r.t, Brace, r.pos, r.pos + 1);
    FinishLays(r, r.t, Fns, Plain(INSN), Brace, r.pos + 1, {});
  }

  lemma LabelLays(r: Parse)
    requires r.At? && Terminated(r.t) && r.pos < |r.t| && r.t[r.pos].kind == Label
    ensures r.pos + 1 < |r.t|
    ensures Lays(r, Finish(r.(t := SetEnd(r.t, r.pos)), Fns, Plain(LABEL), r.pos, r.pos + 1),
      Stretch(r.t, Fns, Tag, r.pos, r.pos + 1), [], {})
  {
    hide Lays, Stretch, Dressed, SameFrom, Kept, Finish, SetEnd;
    LastIsEof(r.t, r.pos);
    LabelDressed(r.t, r.pos);
    EndedLays(r, SetEnd(r.t, r.pos), Fns, Plain(LABEL), Tag, r.pos + 1, {});
  }

  /** One step of a body. */
  lemma StepLays(r: Parse)
    requires r.At? && Terminated(r.t) && r.pos < |r.t|
    ensures match NextStep(r.t, r.pos)
            case None => Insn(r) == Overrun
            case Some(q) => Lays(r, Insn(r), StepPlaces(r.t, r.pos), [], {})
  {
    hide Lays, Finish, ParsePred, ParsePlainInsn, ParseLine, LineStop, CommentStop, CommentEnd, SemiAt, Trailed,
      Stretch, Dressed, SameFrom, Word, IsKeyword, GuardStop, StepPlaces;
    var t, p := r.t, r.pos;
    WordIs(t[p]);
    if StepStop(t, p).Some? { PlainStep(t, p); }
    if IsBodyLine(t[p]) {
      LineLays(r, StepDest(t, p), Plain(DOT), Line);
    } else if IsComment(t, p) {
      RemarkLays(r);
    } else if IsBrace(t, p) {
      BraceLays(r);
    } else if t[p].kind == Label {
      LabelLays(r);
    } else if Is(t, p, '@') {
      GuardLays(r);
    } else {
      InsnLays(r);
    }
  }

  /** Only braces and predicates take a comment. */
  lemma PlainStep(t: seq<Token>, p: nat)
    requires Terminated(t) && p < |t| && StepStop(t, p).Some?
    ensures var q := StepStop(t, p).value;
            && q < |t| && NextStep(t, p).value < |t| && q <= NextStep(t, p).value
            && StepPlaces(t, p) ==
              Stretch(t, StepDest(t, p), StepSort(t, p), p, q) + Stretch(t, Fns, Remark, q, NextStep(t, p).value)
            && (!IsBrace(t, p) && !Is(t, p, '@') ==>
              StepPlaces(t, p) == Stretch(t, StepDest(t, p), StepSort(t, p), p, q) && NextStep(t, p) == Some(q))
  {
    hide StepStop, StepDest, StepSort, Stretch, IsBrace, Is, Trailed;
    StepIn(t, p);
    var q := StepStop(t, p).value;
    NothingTrails(t, Fns, q, Stretch(t, StepDest(t, p), StepSort(t, p), p, q));
  }

  lemma CommentPast(t: seq<Token>, p: nat)
    requires IsComment(t, p)
    ensures CommentStop(t, p) == CommentStop(t, p + 1)
  {
  }

  lemma WordIs(tok: Token)
    ensures forall s :: Word(tok, s) <==> IsKeyword(tok, s)
  {
  }

  lemma DepthIs(t: seq<Token>, p: nat, depth: nat)
    requires p < |t|
    ensures DepthAfter(t, p, depth) == Deeper(t, p, depth)
  {
  }

  lemma {:induction false} BodyLays(r: Parse, depth: nat)
    requires r.At? && Terminated(r.t) && r.pos < |r.t|
    ensures match BodyStop(r.t, r.pos, depth)
            case None => Insns(r, depth) == Overrun
            case Some(q) => Lays(r, Insns(r, depth), BodyPlaces(r.t, r.pos, depth), [], {})
    decreases |r.t| - r.pos
  {
    hide Lays, Insn, SameFrom, NextStep, StepPlaces, Terminated, Same, Insns, DepthAfter, Deeper;
    StepLays(r);
    var t, p := r.t, r.pos;
    DepthIs(t, p, depth);
    var d := Deeper(t, p, depth);
    InsnsUnfold(r, depth);
    if NextStep(t, p).Some? {
      var q, r1 := NextStep(t, p).value, Insn(r);
      NextHasStop(t, p);
      StepIn(t, p);
      LaysFacts(r, r1, StepPlaces(t, p), [], {});
      if d != 0 {
        TerminatedSame(t, r1.t, q);
        BodyLays(r1, d);
        BodySame(t, r1.t, q, d);
        if BodyStop(t, q, d).Some? {
          LaysTrans(r, r1, Insns(r1, d), StepPlaces(t, p), BodyPlaces(t, q, d), [], [], {});
          NoNotes();
        }
      }
    }
  }

  lemma InsnsUnfold(r: Parse, depth: nat)
    requires r.At? && r.pos < |r.t|
    ensures Insns(r, depth) ==
      var r1, d := Insn(r), DepthAfter(r.t, r.pos, depth);
      if !r1.At? || d == 0 then r1 else Insns(r1, d)
  {
  }

  // Initialisers

  /** The scan finds the separator, and the last name before it. */
  lemma {:induction false} InitScanIs(t: seq<Token>, p: nat, def: Option<nat>)
    requires def.Some? ==> def.value < |t|
    ensures match SeparatorAt(t, p)
            case None => InitScan(t, p, def) == None
            case Some(q) => InitScan(t, p, def) == Some((q, if LastName(t, p, q).Some? then LastName(t, p, q) else def))
    decreases |t| - p
  {
    hide LastName;
    if p < |t| && !IsSeparator(t, p) {
      InitScanIs(t, p + 1, if t[p].kind == Symbol || t[p].kind == Ident then Some(p) else def);
      if SeparatorAt(t, p).Some? { NameFrom(t, p, SeparatorAt(t, p).value); }
    } else if p < |t| {
      NoName(t, p);
    }
  }

  lemma NoName(t: seq<Token>, p: nat)
    ensures LastName(t, p, p) == None
  {
  }

  /** The last name from `p` on is that after `p`, or at `p`. */
  lemma NameFrom(t: seq<Token>, p: nat, q: nat)
    requires p < q
    ensures LastName(t, p, q) ==
      if LastName(t, p + 1, q).Some? then LastName(t, p + 1, q) else if IsName(t, p) then Some(p) else None
  {
    hide LastName, IsName;
    var a, b := LastName(t, p, q), LastName(t, p + 1, q);
    if b.Some? {
      assert IsName(t, b.value);
    } else if IsName(t, p) {
      assert a.Some? && IsName(t, a.value);
    }
  }

  lemma StartLays(r: Parse, name: string)
    requires r.At? && Terminated(r.t) && r.pos < |r.t|
    ensures var start := CommentStop(r.t, r.pos);
            && start < |r.t| && CommentEnd(r.t, r.pos) == start
            && var r1 := if r.pos < start then NewStmt(r, Var(name), Plain(COMMENT), r.pos, start) else r;
               Lays(r, r1, Stretch(r.t, Var(name), Remark, r.pos, start), [], {name})
               && InitStart(r, name) == if Is(r1.t, start, '{') then r1.(t := ClearSpace(r1.t, start + 1)) else r1
  {
    hide Lays, CommentStop, CommentEnd, Stretch;
    var p, start := r.pos, CommentStop(r.t, r.pos);
    CommentEndIs(r.t, p);
    CommentIn(r.t, p);
    if p < start {
      PlainLays(r, Var(name), Plain(COMMENT), Remark, start, {name});
    } else {
      LaysNothing(r, {name});
      NoStretch(r.t, Var(name), p);
    }
  }

  lemma NoStretch(t: seq<Token>, dest: Dest, p: nat)
    requires p <= |t|
    ensures Stretch(t, dest, Remark, p, p) == []
  {
  }

  /** The flags of a value: no space behind the brace it begins with. */
  lemma ValueDressed(t: seq<Token>, start: nat, q: nat)
    requires start <= q < |t|
    ensures var t1 := if Is(t, start, '{') then ClearSpace(t, start + 1) else t;
            var t2 := ClearSpace(t1, q + 1);
            && Dressed(t, t2, Value, start, q + 1) && Kept(t, t2, start) && SameFrom(t, t2, q + 1)
            && t2[q].end == t[q].end
  {
  }

  lemma NoteLays(r: Parse, e: Event, known: set<string>)
    requires r.At? && (e.Touch? || e.Depend?)
    ensures Lays(r, r.(log := r.log + [e]), [], [e], known)
  {
    assert (r.log + [e])[|r.log|..] == [e];
    assert [e][..0] == [];
  }

  /** A value with its trailing comment. */
  lemma {:induction false} ValueLays(r: Parse, name: string)
    requires r.At? && Terminated(r.t) && r.pos < |r.t| && !IsComment(r.t, r.pos)
    ensures var t, p := r.t, r.pos;
            var r1 := if Is(t, p, '{') then r.(t := ClearSpace(t, p + 1)) else r;
            match SeparatorAt(t, p)
            case None => InitValue(r1, name) == Overrun
            case Some(q) =>
              && Trailed(t, q + 1) <= |t|
              && Lays(r, InitValue(r1, name), TailPlaces(t, p, q, name), ValueNotes(t, p, q, name), {name})
  {
    hide Lays, Finish, SeparatorAt, InitScan, InitValue, TailPlaces, ValueNotes, Trailed, Dressed, SameFrom, Kept,
      ClearSpace, Same;
    var t, p := r.t, r.pos;
    var t1 := if Is(t, p, '{') then ClearSpace(t, p + 1) else t;
    TextsSame(t, p);
    SeparatorSame(t, t1, p);
    InitValueIs(r.(t := t1), name);
    if SeparatorAt(t, p).Some? {
      var q := SeparatorAt(t, p).value;
      LastIsEof(t, q);
      TrailedIn(t, q + 1);
      ValueNotesSame(t, t1, p, q, name);
      OneDepend(t, p, q, name);
      NotedValue(r, t1, name, q, ValueNotes(t, p, q, name));
    }
  }

  lemma OneDepend(t: seq<Token>, p: nat, q: nat, name: string)
    ensures var ns := ValueNotes(t, p, q, name); ns == [] || exists x :: ns == [Depend(name, x)]
  {
  }

  lemma InitValueIs(r: Parse, name: string)
    requires r.At?
    ensures match SeparatorAt(r.t, r.pos)
            case None => InitValue(r, name) == Overrun
            case Some(q) =>
              InitValue(r, name) ==
                Finish(At(ClearSpace(r.t, q + 1), r.log + ValueNotes(r.t, r.pos, q, name), r.pos), Var(name),
                  Plain(INSN),
                  r.pos, q + 1)
  {
    hide Finish, SeparatorAt, InitScan, LastName, ClearSpace;
    InitScanIs(r.t, r.pos, None);
    assert r.log + [] == r.log;
  }

  lemma NotedValue(r: Parse, t1: seq<Token>, name: string, q: nat, ns: seq<Event>)
    requires r.At? && r.pos <= q && q + 1 < |r.t| && (ns == [] || exists x :: ns == [Depend(name, x)])
    requires t1 == if Is(r.t, r.pos, '{') then ClearSpace(r.t, r.pos + 1) else r.t
    ensures Trailed(r.t, q + 1) <= |r.t|
    ensures Lays(r, Finish(At(ClearSpace(t1, q + 1), r.log + ns, r.pos), Var(name), Plain(INSN), r.pos, q + 1),
      TailPlaces(r.t, r.pos, q, name), ns, {name})
  {
    hide Lays, Finish, Stretch, Dressed, SameFrom, Kept, ClearSpace, Trailed;
    var t, p, r1 := r.t, r.pos, r.(log := r.log + ns);
    NotesLay(r, name, ns);
    ValueDressed(t, p, q);
    FinishLays(r1, ClearSpace(t1, q + 1), Var(name), Plain(INSN), Value, q + 1, {name});
    var ps := TailPlaces(t, p, q, name);
    LaysTrans(r, r1, Finish(r1.(t := ClearSpace(t1, q + 1)), Var(name), Plain(INSN), p, q + 1), [], ps, ns, [], {name});
    assert [] + ps == ps && ns + [] == ns;
  }

  lemma NotesLay(r: Parse, name: string, ns: seq<Event>)
    requires r.At? && (ns == [] || exists x :: ns == [Depend(name, x)])
    ensures Lays(r, r.(log := r.log + ns), [], ns, {name})
  {
    hide Lays;
    if ns == [] {
      assert r.log + [] == r.log;
      LaysNothing(r, {name});
    } else {
      NoteLays(r, ns[0], {name});
    }
  }

  lemma TextsSame(t: seq<Token>, p: nat)
    ensures Same(t, ClearSpace(t, p + 1)) && Same(t, t)
  {
  }

  /** One value of an initialiser, after the comments before it. */
  lemma {:induction false} PartLays(r: Parse, name: string)
    requires r.At? && Terminated(r.t) && r.pos < |r.t|
    ensures match ValueStop(r.t, r.pos)
            case None => InitPart(r, name) == Overrun
            case Some(q) =>
              Lays(r, InitPart(r, name), ValuePlaces(r.t, r.pos, name),
                ValueNotes(r.t, CommentStop(r.t, r.pos), q, name),
                {name})
  {
    hide Lays, InitValue, SeparatorAt, Stretch, TailPlaces, ValueNotes, Trailed, SameFrom, CommentStop, CommentEnd,
      Same, Terminated;
    var t, p, start := r.t, r.pos, CommentStop(r.t, r.pos);
    StartLays(r, name);
    var r1 := if p < start then NewStmt(r, Var(name), Plain(COMMENT), p, start) else r;
    var ps := Stretch(t, Var(name), Remark, p, start);
    LaysFacts(r, r1, ps, [], {name});
    TerminatedSame(t, r1.t, start);
    SeparatorSame(t, r1.t, start);
    TokenSame(t, r1.t, start);
    assert !IsComment(t, start) by { CommentOver(t, p); }
    ValueLays(r1, name);
    if ValueStop(t, p).Some? {
      var q := ValueStop(t, p).value;
      ValueIn(t, p);
      TailSame(t, r1.t, start, start, q, name);
      ValueNotesSame(t, r1.t, start, q, name);
      var ns := ValueNotes(t, start, q, name);
      LaysTrans(r, r1, InitPart(r, name), ps, TailPlaces(t, start, q, name), [], ns, {name});
      assert [] + ns == ns;
    }
  }

  lemma CommentOver(t: seq<Token>, p: nat)
    ensures !IsComment(t, CommentStop(t, p))
  {
  }

  lemma LastInitIs(t: seq<Token>, p: nat)
    requires ValueStop(t, p).Some?
    ensures LastInit(t, p) <==> Is(t, ValueStop(t, p).value, ';')
  {
    hide InitScan, SeparatorAt, CommentStop, CommentEnd, LastName;
    CommentEndIs(t, p);
    InitScanIs(t, CommentStop(t, p), None);
  }

  lemma {:induction false} InitLays(r: Parse, name: string)
    requires r.At? && Terminated(r.t) && r.pos < |r.t|
    ensures match InitStop(r.t, r.pos)
            case None => ParseInit(r, name) == Overrun
            case Some(_) =>
              Lays(r, ParseInit(r, name), InitPlaces(r.t, r.pos, name), InitNotes(r.t, r.pos, name), {name})
    decreases |r.t| - r.pos
  {
    hide Lays, ParseInit, InitPart, LastInit, SameFrom, Same, Terminated, ValueStop, ValuePlaces, ValueNotes, Trailed,
      CommentStop;
    var t, p, r1 := r.t, r.pos, InitPart(r, name);
    InitIs(r, name);
    PartLays(r, name);
    if ValueStop(t, p).Some? {
      var q := ValueStop(t, p).value;
      ValueIn(t, p);
      LastInitIs(t, p);
      var ns := ValueNotes(t, CommentStop(t, p), q, name);
      var next := Trailed(t, q + 1);
      LaysFacts(r, r1, ValuePlaces(t, p, name), ns, {name});
      assert r1.pos == next;
      if Is(t, q, ';') {
        assert ns + [] == ns;
      } else {
        TerminatedSame(t, r1.t, next);
        InitLays(r1, name);
        InitSame(t, r1.t, next, name);
        if InitStop(t, next).Some? {
          LaysTrans(r, r1, ParseInit(r1, name), ValuePlaces(t, p, name), InitPlaces(t, next, name), ns,
            InitNotes(t, next, name), {name});
        }
      }
    }
  }

  lemma {:induction false} InitIs(r: Parse, name: string)
    requires r.At? && r.pos < |r.t|
    ensures var r1 := InitPart(r, name);
            ParseInit(r, name) == if !r1.At? || LastInit(r.t, r.pos) then r1 else ParseInit(r1, name)
  {
    hide InitPart, LastInit;
  }
}
