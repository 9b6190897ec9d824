/** What the types listed by nvptx-nm say about the marker lines, whatever their
    order. */
module NmTypes {
  import opened Common
  import opened Markers
  import opened Nm

  // The markers read

  /** All known marker lines, GLOBAL or not. */
  function Marks(ls: seq<string>): seq<Mark> {
    if |ls| <= 2 then []
    else
      match MarkOn(ls[1], ls[2])
      case None => Marks(ls[1..])
      case Some(m) => [m] + Marks(ls[1..])
  }

  /** The last line begins as a marker, and is not the first. */
  predicate Truncated(ls: seq<string>) {
    |ls| >= 2 && StartsAt(ls[|ls| - 1], 0, BEGIN)
  }

  function AddMarks(g: Types, l: Types, ms: seq<Mark>): Outcome
    decreases |ms|
  {
    if ms == [] then Listed(g, l)
    else
      match AddMark(g, l, ms[0])
      case Listed(g', l') => AddMarks(g', l', ms[1..])
      case bad => bad
  }

  /** The GLOBAL markers, or the others. */
  function Only(global: bool, ms: seq<Mark>): seq<Marker> {
    if ms == [] then []
    else (if ms[0].global == global then [ms[0].marker] else []) + Only(global, ms[1..])
  }

  /** Reading enters the marks one by one, and then fails if the last line is
      truncated. */
  lemma {:induction false} ReadingAddsMarks(ls: seq<string>, g: Types, l: Types)
    ensures ReadLines(ls, g, l) ==
      var o := AddMarks(g, l, Marks(ls));
      if o.Listed? && Truncated(ls) then Malformed else o
  {
    hide StartsAt, MarkOn, AddMark;
    if |ls| > 2 {
      assert Truncated(ls[1..]) <==> Truncated(ls);
      match MarkOn(ls[1], ls[2])
      case None => ReadingAddsMarks(ls[1..], g, l);
      case Some(m) =>
        match AddMark(g, l, m)
        case Listed(g', l') => ReadingAddsMarks(ls[1..], g', l');
        case _ =>
    }
  }

  lemma GlobalMark(l: string, next: string)
    ensures StartsAt(l, 0, BEGIN_GLOBAL) ==>
      match MarkerBody(l[16..])
      case Unknown => MarkOn(l, next) == None
      case Known(d, f, name) => MarkOn(l, next) == Some(Mark(true, Marker(d, f, StartsAt(next, 0, WEAK), name)))
    ensures !StartsAt(l, 0, BEGIN_GLOBAL) ==> MarkOn(l, next) == None || !MarkOn(l, next).value.global
  {
    LineBegins(l);
  }

  lemma MoreMarks(m: Mark, ms: seq<Mark>)
    ensures forall b :: Only(b, [m] + ms) == (if m.global == b then [m.marker] else []) + Only(b, ms)
  {
    assert ([m] + ms)[1..] == ms;
  }

  /** Unless the last line is truncated, the GLOBAL markers are those nvptx-ld
      sees. */
  lemma {:induction false} SameGlobals(ls: seq<string>)
    requires !Truncated(ls)
    ensures LineMarkers(ls) == Some(Only(true, Marks(ls)))
  {
    hide StartsAt, MarkOn, MarkerBody;
    if |ls| > 2 {
      assert ls[1..][|ls[1..]| - 1] == ls[|ls| - 1];
      SameGlobals(ls[1..]);
      GlobalMark(ls[1], ls[2]);
      if MarkOn(ls[1], ls[2]).Some? {
        MoreMarks(MarkOn(ls[1], ls[2]).value, Marks(ls[1..]));
        assert [] + Only(true, Marks(ls[1..])) == Only(true, Marks(ls[1..]));
      }
    } else if |ls| == 2 {
      LineBegins(ls[1]);
    }
  }

  // One table

  /** Entering markers into one table; None is a failed assertion. */
  function Fold(global: bool, ts: Types, ms: seq<Marker>): Option<Types> {
    if ms == [] then Some(ts)
    else
      match Fold(global, ts, ms[..|ms| - 1])
      case None => None
      case Some(ts') => AddType(ts', ms[|ms| - 1].name, TypeOf(Mark(global, ms[|ms| - 1])))
  }

  lemma {:induction false} FoldAppend(global: bool, ts: Types, a: seq<Marker>, b: seq<Marker>)
    ensures Fold(global, ts, a + b) ==
      match Fold(global, ts, a) case None => None case Some(ts') => Fold(global, ts', b)
  {
    hide AddType, TypeOf;
    if b == [] {
      assert a + b == a;
    } else {
      FoldAppend(global, ts, a, b[..|b| - 1]);
      assert (a + b)[..|a + b| - 1] == a + b[..|b| - 1];
    }
  }

  /** Only GLOBAL markers are weak. */
  predicate WeakIsGlobal(ms: seq<Mark>) {
    forall i :: 0 <= i < |ms| && ms[i].marker.weak ==> ms[i].global
  }

  lemma FoldFirst(global: bool, ts: Types, m: Marker, ms: seq<Marker>)
    ensures Fold(global, ts, [m] + ms) ==
      match AddType(ts, m.name, TypeOf(Mark(global, m))) case None => None case Some(ts') => Fold(global, ts', ms)
  {
    hide AddType, TypeOf;
    FoldAppend(global, ts, [m], ms);
    assert [m][..0] == [];
  }

  /** Entering marks of both sorts succeeds just when no other one is weak and both
      tables take theirs. */
  lemma {:induction false} TwoTables(g: Types, l: Types, ms: seq<Mark>)
    ensures AddMarks(g, l, ms).Listed? <==>
      WeakIsGlobal(ms) && Fold(true, g, Only(true, ms)).Some? && Fold(false, l, Only(false, ms)).Some?
    ensures AddMarks(g, l, ms).Listed? ==>
      AddMarks(g, l, ms) == Listed(Fold(true, g, Only(true, ms)).value, Fold(false, l, Only(false, ms)).value)
    decreases |ms|
  {
    hide AddType, TypeOf, Fold;
    if ms == [] {
      assert Fold(true, g, []) == Some(g) && Fold(false, l, []) == Some(l) by { FoldNothing(g, l); }
    } else {
      var m := ms[0];
      assert ms == [m] + ms[1..];
      MoreMarks(m, ms[1..]);
      FoldFirst(m.global, if m.global then g else l, m.marker, Only(m.global, ms[1..]));
      assert [] + Only(!m.global, ms[1..]) == Only(!m.global, ms[1..]);
      assert WeakIsGlobal(ms) <==> (m.marker.weak ==> m.global) && WeakIsGlobal(ms[1..]);
      var o := AddMark(g, l, m);
      if o.Listed? {
        TwoTables(o.global, o.local, ms[1..]);
      }
    }
  }

  /** When nvptx-nm reads a part, the GLOBAL markers it enters are the very ones
      nvptx-ld finds there. */
  lemma ReadEntersGlobals(s: string, g: Types, l: Types)
    requires ReadText(s, g, l).Listed?
    ensures MarkersOf(s).Some? && Fold(true, g, MarkersOf(s).value) == Some(ReadText(s, g, l).global)
  {
    hide Fold;
    ReadingAddsMarks(Lines(s), g, l);
    SameGlobals(Lines(s));
    TwoTables(g, l, Marks(Lines(s)));
  }

  lemma FoldNothing(g: Types, l: Types)
    ensures Fold(true, g, []) == Some(g) && Fold(false, l, []) == Some(l)
  {
  }

  // What a type means

  predicate DefOf(m: Marker, x: string, isFunction: bool) {
    m.isDef && m.name == x && m.isFunction == isFunction
  }

  predicate HasDef(ms: seq<Marker>, x: string, isFunction: bool) {
    exists k :: 0 <= k < |ms| && DefOf(ms[k], x, isFunction)
  }

  predicate IsStrongDef(m: Marker, x: string) {
    m.isDef && !m.weak && m.name == x
  }

  predicate HasStrongDef(ms: seq<Marker>, x: string) {
    exists k :: 0 <= k < |ms| && IsStrongDef(ms[k], x)
  }

  predicate Mentions(ms: seq<Marker>, x: string) {
    exists k :: 0 <= k < |ms| && ms[k].name == x
  }

  /** A symbol is defined both as a variable and as a function. */
  predicate TwoKinds(ms: seq<Marker>, x: string) {
    HasDef(ms, x, false) && HasDef(ms, x, true)
  }

  /** The type `t` of symbol `x` says just which definitions there are. */
  predicate Tells(global: bool, ms: seq<Marker>, x: string, t: char) {
    && t in {'U', 'w', 'D', 'V', 'T', 'W', 'd', 't'}
    && (t in {'D', 'V', 'd'} <==> HasDef(ms, x, false))
    && (t in {'T', 'W', 't'} <==> HasDef(ms, x, true))
    && (t in {'D', 'T', 'd', 't'} <==> HasStrongDef(ms, x))
    && (t in {'D', 'V', 'T', 'W', 'd', 't'} ==> (t in {'d', 't'} <==> !global))
  }

  /** Weak markers are GLOBAL. */
  predicate MayBeWeak(global: bool, ms: seq<Marker>) {
    forall k :: 0 <= k < |ms| && ms[k].weak ==> global
  }

  lemma MoreMarkers(ms: seq<Marker>, m: Marker, x: string)
    ensures forall f :: HasDef(ms + [m], x, f) <==> HasDef(ms, x, f) || DefOf(m, x, f)
    ensures HasStrongDef(ms + [m], x) <==> HasStrongDef(ms, x) || IsStrongDef(m, x)
    ensures Mentions(ms + [m], x) <==> Mentions(ms, x) || m.name == x
  {
    var ms' := ms + [m];
    assert ms'[|ms|] == m && forall k :: 0 <= k < |ms| ==> ms'[k] == ms[k];
    forall f ensures HasDef(ms', x, f) <==> HasDef(ms, x, f) || DefOf(m, x, f) {
      if k :| 0 <= k < |ms| && DefOf(ms[k], x, f) { assert DefOf(ms'[k], x, f); }
      if DefOf(m, x, f) { assert DefOf(ms'[|ms|], x, f); }
    }
    if k :| 0 <= k < |ms| && IsStrongDef(ms[k], x) { assert IsStrongDef(ms'[k], x); }
    if IsStrongDef(m, x) { assert IsStrongDef(ms'[|ms|], x); }
    if k :| 0 <= k < |ms| && ms[k].name == x { assert ms'[k].name == x; }
  }

  /** Entering one more marker. */
  lemma AddTells(global: bool, ms: seq<Marker>, ts: Types, m: Marker, x: string)
    requires forall y :: y in ts <==> Mentions(ms, y)
    requires forall y :: y in ts ==> Tells(global, ms, y, ts[y])
    requires m.name == x && (m.weak ==> global)
    ensures var r := AddType(ts, x, TypeOf(Mark(global, m)));
            && (r == None <==> TwoKinds(ms + [m], x))
            && (r.Some? ==> x in r.value && Tells(global, ms + [m], x, r.value[x]))
  {
    MoreMarkers(ms, m, x);
    hide HasDef, HasStrongDef, Mentions;
    if x !in ts { NotMentioned(ms, x); }
    assert x in ts ==> Tells(global, ms, x, ts[x]);
  }

  lemma NotMentioned(ms: seq<Marker>, x: string)
    requires !Mentions(ms, x)
    ensures !HasDef(ms, x, false) && !HasDef(ms, x, true) && !HasStrongDef(ms, x)
  {
  }

  /** Entering markers fails just when some symbol is defined both as a variable
      and as a function; otherwise every symbol's type tells its definitions, in
      whatever order they come. */
  lemma {:induction false} FoldTells(global: bool, ms: seq<Marker>)
    requires MayBeWeak(global, ms)
    ensures Fold(global, map[], ms) == None <==> exists x :: TwoKinds(ms, x)
    ensures Fold(global, map[], ms).Some? ==>
      var ts := Fold(global, map[], ms).value;
      forall x :: (x in ts <==> Mentions(ms, x)) && (x in ts ==> Tells(global, ms, x, ts[x]))
  {
    hide HasDef, HasStrongDef, Mentions, Tells, TypeOf;
    if ms == [] {
      forall x ensures !TwoKinds(ms, x) && !Mentions(ms, x) {
        NothingMentioned(x);
        NotMentioned(ms, x);
      }
    } else {
      var n := |ms| - 1;
      var m := ms[n];
      assert ms == ms[..n] + [m];
      FoldTells(global, ms[..n]);
      if x :| TwoKinds(ms[..n], x) {
        MoreMarkers(ms[..n], m, x);
        assert TwoKinds(ms, x);
      } else {
        var ts := Fold(global, map[], ms[..n]).value;
        AddTells(global, ms[..n], ts, m, m.name);
        forall x | x != m.name
          ensures !TwoKinds(ms, x) && (Mentions(ms, x) <==> Mentions(ms[..n], x))
          ensures x in ts ==> Tells(global, ms, x, ts[x])
        {
          OtherName(global, ms[..n], m, x);
        }
        MoreMarkers(ms[..n], m, m.name);
      }
    }
  }

  /** A symbol without definition has the type of its last declaration. */
  lemma {:induction false} UndefinedTells(global: bool, ms: seq<Marker>, x: string, k: nat)
    requires MayBeWeak(global, ms) && Fold(global, map[], ms).Some?
    requires k < |ms| && ms[k].name == x && forall j :: k < j < |ms| ==> ms[j].name != x
    requires !HasDef(ms, x, false) && !HasDef(ms, x, true)
    ensures x in Fold(global, map[], ms).value && Fold(global, map[], ms).value[x] == if ms[k].weak then 'w' else 'U'
  {
    var n := |ms| - 1;
    assert ms == ms[..n] + [ms[n]];
    MoreMarkers(ms[..n], ms[n], x);
    FoldTells(global, ms[..n]);
    var ts := Fold(global, map[], ms[..n]).value;
    assert !DefOf(ms[n], x, ms[n].isFunction);
    hide HasDef, HasStrongDef;
    if k < n {
      UndefinedTells(global, ms[..n], x, k);
    } else if x in ts {
      assert Tells(global, ms[..n], x, ts[x]);
    }
  }

  lemma NothingMentioned(x: string)
    ensures !Mentions([], x)
  {
  }

  lemma OtherName(global: bool, ms: seq<Marker>, m: Marker, x: string)
    requires m.name != x
    ensures TwoKinds(ms + [m], x) <==> TwoKinds(ms, x)
    ensures Mentions(ms + [m], x) <==> Mentions(ms, x)
    ensures forall t :: Tells(global, ms, x, t) ==> Tells(global, ms + [m], x, t)
  {
    MoreMarkers(ms, m, x);
    hide HasDef, HasStrongDef, Mentions;
  }

  // Whole files

  /** Nothing in the part itself makes nvptx-nm fail. */
  predicate PartFine(s: string) {
    var ms := Marks(Lines(s));
    && !Truncated(Lines(s)) && WeakIsGlobal(ms)
    && Fold(false, map[], Only(false, ms)).Some?
  }

  /** The GLOBAL markers of all parts. */
  function GlobalMarkers(ps: seq<string>): seq<Marker> {
    if ps == [] then []
    else GlobalMarkers(ps[..|ps| - 1]) + Only(true, Marks(Lines(ps[|ps| - 1])))
  }

  /** The table of global symbols is that of the GLOBAL markers of all parts. */
  lemma {:induction false} PartsFold(ps: seq<string>)
    ensures ReadParts(ps).Symbols? <==>
      (forall i :: 0 <= i < |ps| ==> PartFine(ps[i])) && Fold(true, map[], GlobalMarkers(ps)).Some?
    ensures ReadParts(ps).Symbols? ==> Fold(true, map[], GlobalMarkers(ps)) == Some(ReadParts(ps).global)
  {
    hide Fold, WeakIsGlobal, Truncated;
    if ps == [] {
      FoldNothing(map[], map[]);
    } else {
      var n := |ps| - 1;
      PartsFold(ps[..n]);
      var ms := Marks(Lines(ps[n]));
      FoldAppend(true, map[], GlobalMarkers(ps[..n]), Only(true, ms));
      if ReadParts(ps[..n]).Symbols? {
        var g := ReadParts(ps[..n]).global;
        ReadingAddsMarks(Lines(ps[n]), g, map[]);
        TwoTables(g, map[], ms);
      }
      assert (forall i :: 0 <= i < |ps| ==> PartFine(ps[i])) <==>
        (forall i :: 0 <= i < n ==> PartFine(ps[..n][i])) && PartFine(ps[n]);
    }
  }

  /** nvptx-nm succeeds just when every part is fine and no global symbol is
      defined both as a variable and as a function; then its types tell the
      definitions in all parts. */
  lemma FileTells(ps: seq<string>)
    ensures ReadParts(ps).Symbols? <==>
      (forall i :: 0 <= i < |ps| ==> PartFine(ps[i])) && forall x :: !TwoKinds(GlobalMarkers(ps), x)
    ensures ReadParts(ps).Symbols? ==>
      var g, ms := ReadParts(ps).global, GlobalMarkers(ps);
      forall x :: (x in g <==> Mentions(ms, x)) && (x in g ==> Tells(true, ms, x, g[x]))
  {
    hide Fold, Tells, Mentions, TwoKinds, PartFine;
    PartsFold(ps);
    FoldTells(true, GlobalMarkers(ps));
  }
}
