/** What every step of the parser keeps: tokens keep their texts, and statements
    and dropped tokens tile the buffer. */
module ParserFacts {
  import opened Common
  import opened Tokenizer
  import opened Statements
  import opened ParserSpec

  /** The same tokens, but for their flags. */
  predicate Same(t: seq<Token>, t': seq<Token>) {
    |t| == |t'| && forall i :: 0 <= i < |t| ==> t'[i].kind == t[i].kind && t'[i].text == t[i].text
  }

  /** Line ends are only added, behind what ends a statement. */
  predicate EndsAdded(t: seq<Token>, t': seq<Token>)
    requires |t| == |t'|
  {
    forall i {:trigger t'[i]} :: 0 <= i < |t| ==> t'[i].end == t[i].end || (t'[i].end && EndsStmt(t[i]))
  }

  predicate EndsStmt(tok: Token) {
    tok.kind == Char(';') || tok.kind == Char('=') || tok.kind == Label
  }

  /** A token no other can run into. */
  predicate IsPunct(tok: Token) {
    tok.kind.Char? && tok.kind.c != '/'
  }

  predicate StartsStmt(es: seq<Event>, i: nat) {
    exists k :: 0 <= k < |es| && es[k].Put? && es[k].stmt.lo == i
  }

  /** Spaces are removed only behind punctuation and at the start of statements. */
  predicate SpacesKept(t: seq<Token>, t': seq<Token>, es: seq<Event>)
    requires |t| == |t'|
  {
    forall i {:trigger t'[i]} :: 0 < i < |t| ==> t[i].space && !t'[i].space ==> IsPunct(t[i - 1]) || StartsStmt(es, i)
  }

  /** The statements and dropped tokens of `es` are next to each other, from `lo` to
      `hi`. */
  predicate Tiles(es: seq<Event>, lo: nat, hi: nat) {
    if es == [] then lo == hi
    else
      var rest := es[..|es| - 1];
      match es[|es| - 1]
      case Put(_, s) => s.lo < s.hi == hi && Tiles(rest, lo, s.lo)
      case Drop(a, b) => a < b == hi && Tiles(rest, lo, a)
      case Touch(_) => Tiles(rest, lo, hi)
      case Depend(_, _) => Tiles(rest, lo, hi)
  }

  lemma {:induction false} TilesAppend(a: seq<Event>, b: seq<Event>, lo: nat, mid: nat, hi: nat)
    requires Tiles(a, lo, mid) && Tiles(b, mid, hi)
    ensures Tiles(a + b, lo, hi)
  {
    if b == [] {
      assert a + b == a;
    } else {
      var n := |b| - 1;
      assert (a + b)[..|a + b| - 1] == a + b[..n];
      match b[n]
      case Put(_, s) => TilesAppend(a, b[..n], lo, mid, s.lo);
      case Drop(c, _) => TilesAppend(a, b[..n], lo, mid, c);
      case _ => TilesAppend(a, b[..n], lo, mid, hi);
    }
  }

  /** Whatever is printed after statement `s`, its last token stays apart. */
  predicate LastSafe(t: seq<Token>, s: Stmt) {
    && 0 < s.hi <= |t|
    && (t[s.hi - 1].end || IsPunct(t[s.hi - 1]) || t[s.hi - 1].kind == Comment || s.vis.form == PRED)
  }

  /** A function's header: its body, or a comment, is printed next. */
  predicate FnHead(t: seq<Token>, es: seq<Event>, k: nat)
    requires k < |es| && es[k].Put?
  {
    var p := es[k].stmt.hi;
    && es[k].dest == Fns && k + 1 < |es| && es[k + 1].Put? && es[k + 1].dest == Fns && es[k + 1].stmt.lo == p
    && (Is(t, p, '{') || IsComment(t, p))
  }

  predicate SafeEnds(t: seq<Token>, es: seq<Event>) {
    forall k {:trigger es[k]} :: 0 <= k < |es| && es[k].Put? ==> LastSafe(t, es[k].stmt) || FnHead(t, es, k)
  }

  lemma SafeLater(t: seq<Token>, t': seq<Token>, es: seq<Event>)
    requires SafeEnds(t, es) && Same(t, t') && EndsAdded(t, t')
    ensures SafeEnds(t', es)
  {
    forall k | 0 <= k < |es| && es[k].Put? ensures LastSafe(t', es[k].stmt) || FnHead(t', es, k) {
      assert LastSafe(t, es[k].stmt) || FnHead(t, es, k);
    }
  }

  lemma SafeAppend(t: seq<Token>, a: seq<Event>, b: seq<Event>)
    requires SafeEnds(t, a) && SafeEnds(t, b)
    ensures SafeEnds(t, a + b)
  {
    var es := a + b;
    forall k | 0 <= k < |es| && es[k].Put? ensures LastSafe(t, es[k].stmt) || FnHead(t, es, k) {
      if k < |a| {
        assert es[k] == a[k] && (k + 1 < |a| ==> es[k + 1] == a[k + 1]);
        assert LastSafe(t, a[k].stmt) || FnHead(t, a, k);
      } else {
        var j := k - |a|;
        assert es[k] == b[j] && (j + 1 < |b| ==> es[k + 1] == b[j + 1]);
        assert LastSafe(t, b[j].stmt) || FnHead(t, b, j);
      }
    }
  }

  /** Spaces are added only at parentheses, and never to tokens before `pos`. */
  predicate SpacesAdded(t: seq<Token>, t': seq<Token>, pos: nat)
    requires |t| == |t'|
  {
    && (forall i {:trigger t'[i]} :: 0 <= i < |t| ==> t'[i].space && !t[i].space ==>
          t[i].kind == Char('(') || (i > 0 && t[i - 1].kind == Char(')')))
    && (forall i {:trigger t'[i]} :: 0 <= i < |t| && i < pos ==> t'[i].space == t[i].space)
  }

  /** No statement begins with a space. */
  predicate NoFirstSpace(t: seq<Token>, es: seq<Event>, pos: nat) {
    forall k {:trigger es[k]} :: 0 <= k < |es| && es[k].Put? ==>
      es[k].stmt.lo < |t| && es[k].stmt.lo < pos && !t[es[k].stmt.lo].space
  }

  lemma SpacesAddedTrans(t: seq<Token>, t1: seq<Token>, t2: seq<Token>, p: nat, p1: nat)
    requires |t| == |t1| == |t2| && p <= p1 && Same(t, t1) && SpacesAdded(t, t1, p) && SpacesAdded(t1, t2, p1)
    ensures SpacesAdded(t, t2, p)
  {
    forall i {:trigger t2[i]} | 0 <= i < |t|
      ensures t2[i].space && !t[i].space ==> t[i].kind == Char('(') || (i > 0 && t[i - 1].kind == Char(')'))
      ensures i < p ==> t2[i].space == t[i].space
    {
      assert t1[i].kind == t[i].kind && (i > 0 ==> t1[i - 1].kind == t[i - 1].kind);
    }
  }

  lemma NoFirstSpaceAppend(t1: seq<Token>, t2: seq<Token>, a: seq<Event>, b: seq<Event>, p1: nat, p2: nat)
    requires |t1| == |t2| && p1 <= p2 && SpacesAdded(t1, t2, p1) && NoFirstSpace(t1, a, p1) && NoFirstSpace(t2, b, p2)
    ensures NoFirstSpace(t2, a + b, p2)
  {
    forall k {:trigger (a + b)[k]} | 0 <= k < |a + b| && (a + b)[k].Put?
      ensures (a + b)[k].stmt.lo < |t2| && (a + b)[k].stmt.lo < p2 && !t2[(a + b)[k].stmt.lo].space
    {
      if k < |a| {
        assert (a + b)[k] == a[k];
        assert t2[a[k].stmt.lo].space == t1[a[k].stmt.lo].space;
      } else {
        assert (a + b)[k] == b[k - |a|];
      }
    }
  }

  /** What one or more steps of the parser keep. */
  predicate Step(r: Parse, r': Parse)
    requires r.At? && r'.At?
  {
    && Same(r.t, r'.t) && EndsAdded(r.t, r'.t)
    && r.pos <= r'.pos <= |r.t|
    && r.log <= r'.log
    && Tiles(r'.log[|r.log|..], r.pos, r'.pos)
    && SpacesKept(r.t, r'.t, r'.log[|r.log|..])
    && SafeEnds(r'.t, r'.log[|r.log|..])
    && SpacesAdded(r.t, r'.t, r.pos) && NoFirstSpace(r'.t, r'.log[|r.log|..], r'.pos)
  }

  lemma StepRefl(r: Parse)
    requires r.At? && r.pos <= |r.t|
    ensures Step(r, r)
  {
  }

  lemma StepTrans(r: Parse, r1: Parse, r2: Parse)
    requires r.At? && r1.At? && r2.At? && Step(r, r1) && Step(r1, r2)
    ensures Step(r, r2)
  {
    var a, b := r1.log[|r.log|..], r2.log[|r1.log|..];
    assert r2.log[|r.log|..] == a + b;
    TilesAppend(a, b, r.pos, r1.pos, r2.pos);
    StartsIn(a, b);
    SafeLater(r1.t, r2.t, a);
    SafeAppend(r2.t, a, b);
    SpacesAddedTrans(r.t, r1.t, r2.t, r.pos, r1.pos);
    NoFirstSpaceAppend(r1.t, r2.t, a, b, r1.pos, r2.pos);
    hide SpacesAdded, NoFirstSpace, Tiles, SafeEnds, StartsStmt;
  }

  lemma StartsIn(a: seq<Event>, b: seq<Event>)
    ensures forall i :: StartsStmt(a, i) || StartsStmt(b, i) ==> StartsStmt(a + b, i)
  {
    forall i | StartsStmt(a, i) ensures StartsStmt(a + b, i) {
      var k :| 0 <= k < |a| && a[k].Put? && a[k].stmt.lo == i;
      assert (a + b)[k] == a[k];
    }
    forall i | StartsStmt(b, i) ensures StartsStmt(a + b, i) {
      var k :| 0 <= k < |b| && b[k].Put? && b[k].stmt.lo == i;
      assert (a + b)[|a| + k] == b[k];
    }
  }

  /** A change of flags alone. */
  lemma FlagStep(r: Parse, t: seq<Token>)
    requires r.At? && r.pos <= |r.t| && |t| == |r.t| && Same(r.t, t) && EndsAdded(r.t, t) && SpacesKept(r.t, t, [])
    requires SpacesAdded(r.t, t, r.pos)
    ensures Step(r, r.(t := t))
  {
  }

  lemma ClearStep(r: Parse, i: nat)
    requires r.At? && r.pos <= |r.t| && 0 < i && r.pos <= i && (i < |r.t| ==> IsPunct(r.t[i - 1]))
    ensures Step(r, r.(t := ClearSpace(r.t, i)))
  {
    FlagStep(r, ClearSpace(r.t, i));
  }

  lemma EndStep(r: Parse, i: nat)
    requires r.At? && r.pos <= |r.t| && (i < |r.t| ==> EndsStmt(r.t[i]))
    ensures Step(r, r.(t := SetEnd(r.t, i)))
  {
    FlagStep(r, SetEnd(r.t, i));
  }

  lemma NewStep(r: Parse, dest: Dest, vis: Vis, lo: nat, hi: nat)
    requires r.At? && r.pos == lo < hi <= |r.t| && LastSafe(r.t, Stmt(vis, lo, hi))
    ensures Step(r, NewStmt(r, dest, vis, lo, hi))
  {
    var r' := NewStmt(r, dest, vis, lo, hi);
    var es := r'.log[|r.log|..];
    assert es == [Put(dest, Stmt(vis, lo, hi))] && es[..0] == [];
    assert StartsStmt(es, lo) by { assert es[0].stmt.lo == lo; }
  }

  lemma FinishStep(r: Parse, dest: Dest, vis: Vis, lo: nat, hi: nat)
    requires r.At? && r.pos == lo < hi <= |r.t| && Finish(r, dest, vis, lo, hi).At?
    requires LastSafe(r.t, Stmt(vis, lo, hi))
    ensures Step(r, Finish(r, dest, vis, lo, hi))
  {
    hide Step;
    NewStep(r, dest, vis, lo, hi);
    if !r.t[hi - 1].end && r.t[hi].kind == Comment {
      NewStep(r, dest, vis.(noEol := true), lo, hi);
      var r1 := NewStmt(r, dest, vis.(noEol := true), lo, hi);
      NewStep(r1, dest, Plain(COMMENT), hi, hi + 1);
      StepTrans(r, r1, NewStmt(r1, dest, Plain(COMMENT), hi, hi + 1));
    }
  }

  lemma LineStep(r: Parse, dest: Dest, vis: Vis)
    requires r.At? && r.pos <= |r.t| && ParseLine(r, dest, vis).At?
    ensures Step(r, ParseLine(r, dest, vis))
  {
    hide Step, LineEnd;
    NewStep(r, dest, vis, r.pos, LineEnd(r.t, r.pos).value);
  }

  lemma {:induction false} SemiStep(r: Parse, p: nat)
    requires r.At? && r.pos <= |r.t| && r.pos <= p && SemiScan(r.t, p).Some?
    ensures Step(r, r.(t := SemiScan(r.t, p).value.0))
    ensures SemiScan(r.t, p).value.0[SemiScan(r.t, p).value.1].kind == Char(';')
    decreases |r.t| - p
  {
    hide Step;
    StepRefl(r);
    if r.t[p].kind == Char(',') {
      var r1 := r.(t := ClearSpace(r.t, p + 1));
      ClearStep(r, p + 1);
      SemiStep(r1, p + 1);
      StepTrans(r, r1, r1.(t := SemiScan(r1.t, p + 1).value.0));
    } else if r.t[p].kind != Char(';') {
      SemiStep(r, p + 1);
    }
  }

  lemma PlainInsnStep(r: Parse)
    requires r.At? && r.pos < |r.t| && ParsePlainInsn(r).At?
    ensures Step(r, ParsePlainInsn(r))
  {
    hide Step, Finish;
    SemiStep(r, r.pos + 1);
    var (t, q) := SemiScan(r.t, r.pos + 1).value;
    var r1, r2 := r.(t := t), r.(t := SetEnd(t, q));
    EndStep(r1, q);
    FinishStep(r2, Fns, Plain(INSN), r.pos, q + 1);
    StepTrans(r, r1, r2);
    StepTrans(r, r2, ParsePlainInsn(r));
  }

  lemma PredStep(r: Parse)
    requires r.At? && r.pos + 1 < |r.t| && Is(r.t, r.pos, '@') && ParsePred(r).At?
    ensures Step(r, ParsePred(r))
  {
    hide Step, Finish;
    var p := r.pos;
    var r1 := r.(t := ClearSpace(r.t, p + 1));
    ClearStep(r, p + 1);
    if Is(r.t, p + 1, '!') {
      var r2 := r1.(t := ClearSpace(r1.t, p + 2));
      ClearStep(r1, p + 2);
      StepTrans(r, r1, r2);
      FinishStep(r2, Fns, Plain(PRED), p, p + 3);
      StepTrans(r, r2, ParsePred(r));
    } else {
      FinishStep(r1, Fns, Plain(PRED), p, p + 2);
      StepTrans(r, r1, ParsePred(r));
    }
  }

  lemma CommentsLast(t: seq<Token>, p: nat, q: nat)
    requires Comments(t, p, q) && p < q
    ensures q <= |t| && t[q - 1].kind == Comment
  {
    assert IsComment(t, q - 1);
  }

  lemma CommentsSame(t: seq<Token>, t': seq<Token>, p: nat, q: nat)
    requires Comments(t, p, q) && Same(t, t')
    ensures Comments(t', p, q)
  {
    forall i | p <= i < q ensures IsComment(t', i) {
      assert IsComment(t, i);
    }
  }

  lemma InsnStep(r: Parse)
    requires r.At? && r.pos < |r.t| && Insn(r).At?
    ensures Step(r, Insn(r))
  {
    hide Step, Finish, ParsePred, ParsePlainInsn, ParseLine, IsKeyword;
    var t, p := r.t, r.pos;
    if t[p].kind == Dotted && (IsKeyword(t[p], "file") || IsKeyword(t[p], "loc")) {
      LineStep(r, if IsKeyword(t[p], "file") then Decls else Fns, Plain(DOT));
    } else if t[p].kind == Comment {
      var q := CommentEnd(t, p + 1);
      CommentEndIn(t, p + 1);
      if q > p + 1 { CommentsLast(t, p + 1, q); }
      NewStep(r, Fns, Plain(COMMENT), p, q);
    } else if t[p].kind == Char('{') || t[p].kind == Char('}') {
      FinishStep(r, Fns, Plain(INSN), p, p + 1);
    } else if t[p].kind == Label {
      var r1 := r.(t := SetEnd(t, p));
      EndStep(r, p);
      FinishStep(r1, Fns, Plain(LABEL), p, p + 1);
      StepTrans(r, r1, Insn(r));
    } else if t[p].kind == Char('@') {
      PredStep(r);
    } else {
      PlainInsnStep(r);
    }
  }

  lemma {:induction false} CommentEndIn(t: seq<Token>, p: nat)
    requires p <= |t|
    ensures CommentEnd(t, p) <= |t| && !IsComment(t, CommentEnd(t, p))
    decreases |t| - p
  {
    if IsComment(t, p) { CommentEndIn(t, p + 1); }
  }

  lemma {:induction false} InsnsStep(r: Parse, depth: nat)
    requires r.At? && r.pos <= |r.t| && Insns(r, depth).At?
    ensures Step(r, Insns(r, depth))
    decreases |r.t| - r.pos
  {
    hide Step, Insn, DepthAfter;
    InsnStep(r);
    var r1, d := Insn(r), DepthAfter(r.t, r.pos, depth);
    if d != 0 {
      assert r1.pos <= |r.t| by { StepBound(r, r1); }
      InsnsStep(r1, d);
      StepTrans(r, r1, Insns(r1, d));
    }
  }

  lemma StepBound(r: Parse, r': Parse)
    requires r.At? && r'.At? && Step(r, r')
    ensures r.pos <= r'.pos <= |r.t| == |r'.t| && r.log <= r'.log && Same(r.t, r'.t)
  {
  }

  // Initialisers

  lemma {:induction false} InitScanIs(t: seq<Token>, p: nat, def: Option<nat>)
    requires (def.Some? ==> def.value < |t|) && InitScan(t, p, def).Some?
    ensures var q := InitScan(t, p, def).value.0; Is(t, q, ',') || Is(t, q, ';')
    decreases |t| - p
  {
    if !Is(t, p, ',') && !Is(t, p, ';') {
      InitScanIs(t, p + 1, if t[p].kind == Symbol || t[p].kind == Ident then Some(p) else def);
    }
  }

  /** An event that takes no tokens. */
  lemma NoteStep(r: Parse, e: Event)
    requires r.At? && r.pos <= |r.t| && (e.Touch? || e.Depend?)
    ensures Step(r, r.(log := r.log + [e]))
  {
    assert (r.log + [e])[|r.log|..] == [e] && [e][..0] == [];
  }

  lemma InitStartStep(r: Parse, name: string)
    requires r.At? && r.pos <= |r.t|
    ensures Step(r, InitStart(r, name))
  {
    hide Step;
    var p, start := r.pos, CommentEnd(r.t, r.pos);
    CommentEndIn(r.t, p);
    StepRefl(r);
    var r1 := if p < start then NewStmt(r, Var(name), Plain(COMMENT), p, start) else r;
    if p < start { CommentsLast(r.t, p, start); NewStep(r, Var(name), Plain(COMMENT), p, start); }
    if Is(r1.t, start, '{') {
      ClearStep(r1, start + 1);
      StepTrans(r, r1, InitStart(r, name));
    }
  }

  lemma InitValueStep(r: Parse, name: string)
    requires r.At? && r.pos <= |r.t| && InitValue(r, name).At?
    ensures Step(r, InitValue(r, name))
  {
    hide Step, Finish, InitScan;
    InitScanIs(r.t, r.pos, None);
    var (q, def) := InitScan(r.t, r.pos, None).value;
    StepRefl(r);
    var r1 := if def.Some? then r.(log := r.log + [Depend(name, r.t[def.value].text)]) else r;
    if def.Some? { NoteStep(r, Depend(name, r.t[def.value].text)); }
    var r2 := r1.(t := ClearSpace(r1.t, q + 1));
    ClearStep(r1, q + 1);
    StepTrans(r, r1, r2);
    FinishStep(r2, Var(name), Plain(INSN), r.pos, q + 1);
    StepTrans(r, r2, InitValue(r, name));
  }

  lemma InitPartStep(r: Parse, name: string)
    requires r.At? && r.pos <= |r.t| && InitPart(r, name).At?
    ensures Step(r, InitPart(r, name))
  {
    hide Step, InitStart, InitValue;
    InitStartStep(r, name);
    StepBound(r, InitStart(r, name));
    InitValueStep(InitStart(r, name), name);
    StepTrans(r, InitStart(r, name), InitPart(r, name));
  }

  lemma {:induction false} InitStep(r: Parse, name: string)
    requires r.At? && r.pos <= |r.t| && ParseInit(r, name).At?
    ensures Step(r, ParseInit(r, name))
    decreases |r.t| - r.pos
  {
    hide Step, InitPart, LastInit;
    InitPartStep(r, name);
    var r1 := InitPart(r, name);
    if !LastInit(r.t, r.pos) {
      StepBound(r, r1);
      InitStep(r1, name);
      StepTrans(r, r1, ParseInit(r, name));
    }
  }

  // Whole files

  lemma CommentStep(r: Parse, dest: Dest, p: nat, q: nat)
    requires r.At? && r.pos == p <= q <= |r.t| && Comments(r.t, p, q)
    ensures Step(r, PutComment(r, dest, p, q))
  {
    if p < q {
      CommentsLast(r.t, p, q);
      NewStep(r, dest, Plain(COMMENT).(prefixComment := true), p, q);
    } else {
      StepRefl(r);
    }
  }

  lemma {:induction false} PlainCommentEndIn(t: seq<Token>, p: nat)
    requires p <= |t|
    ensures PlainCommentEnd(t, p) <= |t|
    decreases |t| - p
  {
    if IsComment(t, p) && !MapDirective(t[p]) { PlainCommentEndIn(t, p + 1); }
  }

  lemma HeaderSpaceStep(r: Parse, p: nat)
    requires r.At? && r.pos <= p < |r.t|
    ensures Step(r, r.(t := HeaderSpace(r.t, p)))
  {
    FlagStep(r, HeaderSpace(r.t, p));
  }

  lemma {:induction false} HeaderScanStep(r: Parse, p: nat, h: Header)
    requires r.At? && r.pos <= p && r.pos <= |r.t| && (h.def.Some? ==> h.def.value < |r.t|)
      && HeaderScan(r.t, p, h).Some?
    ensures Step(r, r.(t := HeaderScan(r.t, p, h).value.0))
    decreases |r.t| - p
  {
    hide Step, HeaderSpace, HeaderToken;
    StepRefl(r);
    if !HeaderEnds(r.t[p]) {
      var r1 := r.(t := HeaderSpace(r.t, p));
      HeaderSpaceStep(r, p);
      HeaderScanStep(r1, p + 1, HeaderToken(r.t, p, h));
      StepTrans(r, r1, r1.(t := HeaderScan(r1.t, p + 1, HeaderToken(r.t, p, h)).value.0));
    }
  }

  lemma DropStep(r: Parse, q: nat, e: nat)
    requires r.At? && r.pos == q <= e <= |r.t|
    ensures Step(r, r.(log := r.log + (if q < e then [Drop(q, e)] else []), pos := e))
  {
    var es := if q < e then [Drop(q, e)] else [];
    assert (r.log + es)[|r.log|..] == es && (q < e ==> es[..0] == []);
  }

  /** A function's body begins with a statement of its list. */
  lemma BodyFirst(r: Parse)
    requires r.At? && r.pos < |r.t| && (Is(r.t, r.pos, '{') || IsComment(r.t, r.pos)) && Insns(r, 0).At?
    ensures var log := Insns(r, 0).log;
            |r.log| < |log| && log[|r.log|].Put? && log[|r.log|].dest == Fns && log[|r.log|].stmt.lo == r.pos
  {
    hide Step, Finish, ParseLine;
    var r1, d := Insn(r), DepthAfter(r.t, r.pos, 0);
    BodyFirstStep(r);
    InsnStep(r);
    StepBound(r, r1);
    if d != 0 {
      InsnsStep(r1, d);
      StepBound(r1, Insns(r1, d));
    }
  }

  lemma BodyFirstStep(r: Parse)
    requires r.At? && r.pos < |r.t| && (Is(r.t, r.pos, '{') || IsComment(r.t, r.pos)) && Insn(r).At?
    ensures var log := Insn(r).log;
            |r.log| < |log| && log[|r.log|].Put? && log[|r.log|].dest == Fns && log[|r.log|].stmt.lo == r.pos
  {
  }

  /** A header and the body after it. */
  lemma HeadAndBody(r: Parse, vis: Vis, q: nat, e: nat)
    requires r.At? && r.pos == q < e < |r.t| && (Is(r.t, e, '{') || IsComment(r.t, e))
    requires Insns(NewStmt(r, Fns, vis, q, e), 0).At?
    ensures Step(r, Insns(NewStmt(r, Fns, vis, q, e), 0))
  {
    hide Insns;
    var r1 := NewStmt(r, Fns, vis, q, e);
    var r2 := Insns(r1, 0);
    BodyFirst(r1);
    InsnsStep(r1, 0);
    HeadStep(r, r1, r2, Put(Fns, Stmt(vis, q, e)));
  }

  /** A header's statement is safe once its body is there. */
  lemma HeadStep(r: Parse, r1: Parse, r2: Parse, e: Event)
    requires r.At? && r1.At? && r2.At? && e.Put? && r.pos == e.stmt.lo < e.stmt.hi <= |r.t|
    requires r1 == At(ClearSpace(r.t, r.pos), r.log + [e], e.stmt.hi) && Step(r1, r2)
    requires |r1.log| < |r2.log| && FnHead(r.t, [e] + r2.log[|r1.log|..], 0)
    ensures Step(r, r2)
  {
    hide Tiles, SafeEnds, StartsStmt, NoFirstSpace, SpacesAdded, SpacesKept;
    var es, head := r2.log[|r1.log|..], [e];
    assert r2.log[|r.log|..] == head + es;
    HeadTiles(r.t, e);
    TilesAppend(head, es, r.pos, r1.pos, r2.pos);
    SpacesKeptTrans(r.t, r1.t, r2.t, head, es);
    HeadSafe(r2.t, e, es);
    SpacesAddedTrans(r.t, r1.t, r2.t, r.pos, r1.pos);
    NoFirstSpaceAppend(r1.t, r2.t, head, es, r1.pos, r2.pos);
  }

  /** What the statement of a header alone leaves. */
  lemma HeadTiles(t: seq<Token>, e: Event)
    requires e.Put? && e.stmt.lo < e.stmt.hi <= |t|
    ensures var t1, lo := ClearSpace(t, e.stmt.lo), e.stmt.lo;
            && Tiles([e], lo, e.stmt.hi) && Same(t, t1) && EndsAdded(t, t1) && SpacesKept(t, t1, [e])
            && SpacesAdded(t, t1, lo) && NoFirstSpace(t1, [e], e.stmt.hi)
  {
    assert [e][..0] == [];
    assert StartsStmt([e], e.stmt.lo) by { assert [e][0].stmt.lo == e.stmt.lo; }
    hide StartsStmt;
  }

  lemma SpacesKeptTrans(t: seq<Token>, t1: seq<Token>, t2: seq<Token>, a: seq<Event>, b: seq<Event>)
    requires |t| == |t1| == |t2| && Same(t, t1) && SpacesKept(t, t1, a) && SpacesKept(t1, t2, b)
    ensures SpacesKept(t, t2, a + b)
  {
    StartsIn(a, b);
    hide StartsStmt;
    forall i {:trigger t2[i]} | 0 < i < |t| && t[i].space && !t2[i].space
      ensures IsPunct(t[i - 1]) || StartsStmt(a + b, i) {
      assert t1[i].space || !t1[i].space;
    }
  }

  lemma HeadSafe(t: seq<Token>, e: Event, es: seq<Event>)
    requires SafeEnds(t, es) && e.Put? && es != [] && FnHead(t, [e] + es, 0)
    ensures SafeEnds(t, [e] + es)
  {
    var all := [e] + es;
    forall k | 0 <= k < |all| && all[k].Put? ensures LastSafe(t, all[k].stmt) || FnHead(t, all, k) {
      if k > 0 {
        assert all[k] == es[k - 1] && (k < |es| ==> all[k + 1] == es[k]);
        assert LastSafe(t, es[k - 1].stmt) || FnHead(t, es, k - 1);
      }
    }
  }

  lemma FnStep(r: Parse, p: nat, q: nat, e: nat, vis: Vis)
    requires r.At? && r.pos == p <= q < e < |r.t| && (Is(r.t, e, '{') || IsComment(r.t, e))
    requires Comments(r.t, p, q) && ParseFn(r, p, q, e, vis).At?
    ensures Step(r, ParseFn(r, p, q, e, vis))
  {
    hide Step, Insns;
    var r1 := PutComment(r, Fns, p, q);
    CommentStep(r, Fns, p, q);
    HeadAndBody(r1, vis, q, e);
    StepTrans(r, r1, ParseFn(r, p, q, e, vis));
  }

  lemma VarStep(r: Parse, p: nat, q: nat, e: nat, vis: Vis, name: string)
    requires r.At? && r.pos == p <= q < e < |r.t| && EndsStmt(r.t[e]) && ParseVar(r, p, q, e, vis, name).At?
    requires Comments(r.t, p, q)
    ensures Step(r, ParseVar(r, p, q, e, vis, name))
  {
    hide Step, ParseInit, EndsStmt;
    var r0 := r.(t := SetEnd(r.t, e));
    EndStep(r, e);
    var r1 := r0.(log := r0.log + [Touch(name)]);
    NoteStep(r0, Touch(name));
    StepTrans(r, r0, r1);
    var r2 := PutComment(r1, Var(name), p, q);
    StepBound(r, r1);
    CommentsSame(r.t, r1.t, p, q);
    CommentStep(r1, Var(name), p, q);
    StepTrans(r, r1, r2);
    var r3 := NewStmt(r2, Var(name), vis, q, e + 1);
    NewStep(r2, Var(name), vis, q, e + 1);
    StepTrans(r, r2, r3);
    if Is(r.t, e, '=') {
      InitStep(r3, name);
      StepTrans(r, r3, ParseInit(r3, name));
    }
  }

  lemma DeclStep(r: Parse, p: nat, q: nat, e: nat, vis: Vis)
    requires r.At? && r.pos == p <= q < e < |r.t| && EndsStmt(r.t[e])
    requires Comments(r.t, p, q)
    ensures Step(r, ParseDecl(r, p, q, e, vis))
  {
    hide Step, EndsStmt;
    var r0 := r.(t := SetEnd(r.t, e));
    EndStep(r, e);
    var r1 := PutComment(r0, Decls, p, q);
    StepBound(r, r0);
    CommentsSame(r.t, r0.t, p, q);
    CommentStep(r0, Decls, p, q);
    StepTrans(r, r0, r1);
    NewStep(r1, Decls, vis, q, e + 1);
    StepTrans(r, r1, NewStmt(r1, Decls, vis, q, e + 1));
  }

  /** A header from `q` on, after a comment from `p` on. */
  lemma HeaderStep(r: Parse, p: nat, q: nat)
    requires r.At? && r.pos == p <= q < |r.t| && r.t[q].kind == Dotted && ParseHeader(r, p, q).At?
    requires Comments(r.t, p, q)
    ensures Step(r, ParseHeader(r, p, q))
  {
    hide Step, HeaderScan, ParseFn, ParseVar, ParseDecl;
    HeaderScanStep(r, q, NO_HEADER);
    HeaderGoesOn(r.t, q, NO_HEADER);
    var (t, e, h) := HeaderScan(r.t, q, NO_HEADER).value;
    var r0, vis := r.(t := t), HeaderVis(h, p < q);
    StepBound(r, r0);
    CommentsSame(r.t, r0.t, p, q);
    if t[e].kind == Eof {
      var r1 := PutComment(r0, Fns, p, q);
      CommentStep(r0, Fns, p, q);
      DropStep(r1, q, e);
      StepTrans(r0, r1, CutHeader(r0, p, q, e));
    } else if t[e].kind == Char('{') || t[e].kind == Comment {
      FnStep(r0, p, q, e, vis);
    } else if vis.form == VAR && !h.isDecl {
      VarStep(r0, p, q, e, vis, t[h.def.value].text);
    } else {
      DeclStep(r0, p, q, e, vis);
    }
    StepTrans(r, r0, ParseHeader(r, p, q));
  }

  lemma HeaderGoesOn(t: seq<Token>, q: nat, h: Header)
    requires q < |t| && !HeaderEnds(t[q]) && (h.def.Some? ==> h.def.value < |t|) && HeaderScan(t, q, h).Some?
    ensures q < HeaderScan(t, q, h).value.1
  {
  }

  lemma {:induction false} StrangeEndIn(t: seq<Token>, p: nat)
    requires p <= |t|
    ensures StrangeEnd(t, p) <= |t|
    decreases |t| - p
  {
    if p < |t| && t[p].kind != Eof && !t[p].end { StrangeEndIn(t, p + 1); }
  }

  /** One call of the file parser keeps texts and tiles what it takes. */
  lemma FileStep(r: Parse)
    requires r.At? && r.pos < |r.t| && ParseFile(r).At?
    ensures Step(r, ParseFile(r))
  {
    hide Step, ParseHeader, ParseLine, IsKeyword, MapDirective, StrangeEnd, PutComment;
    var t, p := r.t, r.pos;
    var q := PlainCommentEnd(t, p);
    PlainCommentEndIn(t, p);
    if MapDirective(t[q]) || (t[q].kind == Dotted && LineDirective(t[q])) {
      var r1 := PutComment(r, Decls, p, q);
      CommentStep(r, Decls, p, q);
      LineStep(r1, Decls, if MapDirective(t[q]) then Plain(COMMENT) else Plain(DOT));
      StepTrans(r, r1, ParseFile(r));
    } else if t[q].kind == Dotted {
      HeaderStep(r, p, q);
    } else {
      var r1 := PutComment(r, Fns, p, q);
      CommentStep(r, Fns, p, q);
      StrangeEndIn(t, q);
      DropStep(r1, q, StrangeEnd(t, q));
      StepTrans(r, r1, ParseFile(r));
    }
  }

  /** Unless it is at the end, every call takes a token. */
  lemma FileMoves(r: Parse)
    requires r.At? && r.pos < |r.t| && ParseFile(r).At?
    ensures if r.t[r.pos].kind == Eof then ParseFile(r) == r else r.pos < ParseFile(r).pos
  {
    hide ParseLine, HeaderScan, ParseFn, ParseVar, ParseDecl, IsKeyword;
    var q := PlainCommentEnd(r.t, r.pos);
    if !MapDirective(r.t[q]) && r.t[q].kind == Dotted && !LineDirective(r.t[q]) {
      HeaderGoesOn(r.t, q, NO_HEADER);
    }
  }

  /** The whole file: calls until the terminator is reached. */
  function ParseAll(r: Parse): (r': Parse)
    requires r.At? && r.pos < |r.t|
    decreases if r.At? then |r.t| - r.pos else 0
  {
    var r1 := ParseFile(r);
    if !r1.At? then r1
    else if r1.pos >= |r.t| then Overrun
    else if r1.t[r1.pos].kind == Eof then r1
    else
      FileStep(r);
      FileMoves(r);
      ParseAll(r1)
  }

  lemma {:induction false} AllStep(r: Parse)
    requires r.At? && r.pos < |r.t| && ParseAll(r).At?
    ensures Step(r, ParseAll(r))
    ensures ParseAll(r).pos < |r.t| && r.t[ParseAll(r).pos].kind == Eof
    decreases |r.t| - r.pos
  {
    hide ParseFile;
    var r1 := ParseFile(r);
    FileStep(r);
    if r1.t[r1.pos].kind != Eof {
      FileMoves(r);
      AllStep(r1);
      StepTrans(r, r1, ParseAll(r1));
    }
  }

  function ParseTokens(t: seq<Token>): Parse
    requires t != []
  {
    ParseAll(At(t, [], 0))
  }

  /** Parsing a file takes all its tokens, in statements and dropped stretches that
      tile the buffer; texts stay. */
  lemma ParseTiles(t: seq<Token>)
    requires Terminated(t) && ParseTokens(t).At?
    ensures var r := ParseTokens(t);
            && Same(t, r.t) && r.pos == |t| - 1 && Tiles(r.log, 0, |t| - 1)
            && EndsAdded(t, r.t) && SpacesKept(t, r.t, r.log) && SpacesAdded(t, r.t, 0)
            && SafeEnds(r.t, r.log) && NoFirstSpace(r.t, r.log, |t| - 1)
  {
    hide ParseAll, Step, Same, Tiles, EndsAdded, SpacesKept, SafeEnds, SpacesAdded, NoFirstSpace;
    AllStep(At(t, [], 0));
    StepFromStart(t, ParseTokens(t));
  }

  lemma StepFromStart(t: seq<Token>, r: Parse)
    requires r.At? && Step(At(t, [], 0), r)
    ensures |t| == |r.t| && Same(t, r.t) && Tiles(r.log, 0, r.pos) && EndsAdded(t, r.t) && SpacesKept(t, r.t, r.log)
    ensures SafeEnds(r.t, r.log) && SpacesAdded(t, r.t, 0) && NoFirstSpace(r.t, r.log, r.pos)
  {
    assert r.log[0..] == r.log;
    hide SafeEnds, SpacesAdded, NoFirstSpace;
    hide Same, Tiles, EndsAdded, SpacesKept;
  }
}
