/** What the linker's symbol table says about the markers linked so far, kept by
    every single marker and by every pass over the unresolved symbols. */
module LinkInvariant {
  import opened Common
  import opened Markers
  import opened LinkSpec

  /** A marker and the file it was linked from. */
  datatype Event = Event(file: nat, marker: Marker)

  function FileEvents(f: nat, ms: seq<Marker>): (es: seq<Event>)
    ensures |es| == |ms| && forall k :: 0 <= k < |es| ==> es[k] == Event(f, ms[k])
  {
    seq(|ms|, k requires 0 <= k < |ms| => Event(f, ms[k]))
  }

  /** All markers of the files `fs`, in order. */
  function Events(env: Env, fs: seq<nat>): seq<Event>
    requires Scanned(env, fs)
  {
    if fs == [] then []
    else
      var n := |fs| - 1;
      Events(env, fs[..n]) + FileEvents(fs[n], env.files[fs[n]])
  }

  predicate Scanned(env: Env, fs: seq<nat>) {
    forall i :: 0 <= i < |fs| ==> fs[i] < |env.files|
  }

  predicate Defined(es: seq<Event>, x: string) {
    es != [] && (Defined(es[..|es| - 1], x) || (es[|es| - 1].marker.isDef && es[|es| - 1].marker.name == x))
  }

  predicate Declared(es: seq<Event>, x: string) {
    es != [] && (Declared(es[..|es| - 1], x) || (!es[|es| - 1].marker.isDef && es[|es| - 1].marker.name == x))
  }

  /** The files holding a strong DEF of `x`, once per such DEF. */
  function Strong(es: seq<Event>, x: string): seq<nat> {
    if es == [] then []
    else
      var e := es[|es| - 1];
      Strong(es[..|es| - 1], x) + (if e.marker.isDef && !e.marker.weak && e.marker.name == x then [e.file] else [])
  }

  lemma OneMore(es: seq<Event>, e: Event, x: string)
    ensures Defined(es + [e], x) <==> Defined(es, x) || (e.marker.isDef && e.marker.name == x)
    ensures Declared(es + [e], x) <==> Declared(es, x) || (!e.marker.isDef && e.marker.name == x)
    ensures Strong(es + [e], x) ==
      Strong(es, x) + (if e.marker.isDef && !e.marker.weak && e.marker.name == x then [e.file] else [])
  {
    assert (es + [e])[..|es|] == es;
  }

  /** What the entry `s` of symbol `x` records after the markers `es`, with `q`
      the unresolved symbols. */
  predicate SymInv(env: Env, lists: bool, es: seq<Event>, q: seq<string>, x: string, s: Sym) {
    && s.def == Def(env, lists, |env.files|, x)
    && (!Star(x) ==> (s.included <==> Base(lists, x) || Defined(es, x)))
    && (s.referenced && !s.included ==> x in q || Dropped(env, x, s))
    && (Declared(es, x) ==> s.included || s.referenced)
    && (x in q ==> s.referenced && !s.included && Wanted(lists, es, x) && (Star(x) ==> s.def != Undefined))
    && StrongInv(lists, es, x, s)
  }

  /** An ignored symbol that no scanned file defines is no longer looked for. */
  predicate Dropped(env: Env, x: string, s: Sym) {
    x in env.ignore && s.def == Undefined
  }

  /** Why a symbol is looked for. */
  predicate Wanted(lists: bool, es: seq<Event>, x: string) {
    Star(x) || Declared(es, x) || (lists && x == TRIGGER)
  }

  predicate StrongInv(lists: bool, es: seq<Event>, x: string, s: Sym) {
    if Base(lists, x) then s.strongDef == Intrinsic && Strong(es, x) == []
    else if Strong(es, x) == [] then s.strongDef == Undefined
    else |Strong(es, x)| == 1 && s.strongDef == InFile(Strong(es, x)[0])
  }

  ghost predicate LinkInv(env: Env, lists: bool, es: seq<Event>, st: State) {
    && Distinct(st.unresolved)
    && forall x :: SymInv(env, lists, es, st.unresolved, x, Get(st, x))
  }

  // One marker

  lemma {:induction false} WithoutIs(q: seq<string>, x: string)
    requires Distinct(q)
    ensures var r := Without(q, x);
            Distinct(r) && |r| <= |q| && forall y :: y in r <==> y in q && y != x
  {
    if q != [] {
      assert q[0] !in q[1..];
      if q[0] != x {
        WithoutIs(q[1..], x);
      }
    }
  }

  lemma {:induction false} StrongDefined(es: seq<Event>, x: string)
    ensures Strong(es, x) != [] ==> Defined(es, x)
  {
    if es != [] {
      StrongDefined(es[..|es| - 1], x);
    }
  }

  /** A symbol no marker mentions keeps its entry. */
  lemma OtherSymbol(env: Env, lists: bool, es: seq<Event>, e: Event, q: seq<string>, q': seq<string>, x: string, s: Sym)
    requires SymInv(env, lists, es, q, x, s) && e.marker.name != x && (x in q <==> x in q')
    ensures SymInv(env, lists, es + [e], q', x, s)
  {
    hide Def, Defined, Declared, Strong, Star, Base;
    OneMore(es, e, x);
  }

  /** The entry of the symbol `x` a marker names, after that marker. */
  lemma SameSymbol(env: Env, lists: bool, es: seq<Event>, st: State, f: nat, m: Marker)
    requires LinkInv(env, lists, es, st) && !Star(m.name) && LinkMarker(st, f, m).Some?
    ensures var st' := LinkMarker(st, f, m).value;
            SymInv(env, lists, es + [Event(f, m)], st'.unresolved, m.name, Get(st', m.name))
  {
    hide Def, Defined, Declared, Strong, Star, Base, StartsAt;
    var x := m.name;
    OneMore(es, Event(f, m), x);
    StrongDefined(es, x);
    WithoutIs(st.unresolved, x);
    assert SymInv(env, lists, es, st.unresolved, x, Get(st, x));
  }

  /** What a marker does to the table and list besides the symbol it names. */
  lemma OtherSymbols(st: State, f: nat, m: Marker, y: string)
    requires Distinct(st.unresolved) && LinkMarker(st, f, m).Some? && y != m.name
    ensures var st' := LinkMarker(st, f, m).value;
            Get(st', y) == Get(st, y) && (y in st'.unresolved <==> y in st.unresolved)
  {
    hide StartsAt, Without;
    WithoutIs(st.unresolved, m.name);
    assert forall q: seq<string> :: y in [m.name] + q <==> y in q;
  }

  lemma ListStaysDistinct(env: Env, lists: bool, es: seq<Event>, st: State, f: nat, m: Marker)
    requires LinkInv(env, lists, es, st) && LinkMarker(st, f, m).Some?
    ensures Distinct(LinkMarker(st, f, m).value.unresolved)
    ensures forall y :: y in LinkMarker(st, f, m).value.unresolved ==> y in st.unresolved || y == m.name
  {
    hide StartsAt, Def, Defined, Declared, Strong, Star, Base;
    WithoutIs(st.unresolved, m.name);
    assert SymInv(env, lists, es, st.unresolved, m.name, Get(st, m.name));
  }

  /** Linking one marker keeps the invariant. */
  lemma MarkerKeepsInv(env: Env, lists: bool, es: seq<Event>, st: State, f: nat, m: Marker)
    requires LinkInv(env, lists, es, st) && !Star(m.name) && LinkMarker(st, f, m).Some?
    ensures LinkInv(env, lists, es + [Event(f, m)], LinkMarker(st, f, m).value)
  {
    hide LinkMarker, Get, SymInv, Distinct;
    var st' := LinkMarker(st, f, m).value;
    ListStaysDistinct(env, lists, es, st, f, m);
    forall y ensures SymInv(env, lists, es + [Event(f, m)], st'.unresolved, y, Get(st', y)) {
      if y == m.name {
        SameSymbol(env, lists, es, st, f, m);
      } else {
        OtherSymbols(st, f, m, y);
        OtherSymbol(env, lists, es, Event(f, m), st.unresolved, st'.unresolved, y, Get(st, y));
      }
    }
  }

  /** The multiple-definitions error occurs exactly at the second strong DEF of a
      symbol, or at a strong DEF of a symbol that no file may define. */
  lemma FailsAtSecondStrong(env: Env, lists: bool, es: seq<Event>, st: State, f: nat, m: Marker)
    requires LinkInv(env, lists, es, st) && !Star(m.name)
    ensures LinkMarker(st, f, m) == None <==>
      m.isDef && !m.weak && (Base(lists, m.name) || Strong(es, m.name) != [])
  {
    hide StartsAt, Def, Declared, Star, Base;
    assert SymInv(env, lists, es, st.unresolved, m.name, Get(st, m.name));
    StrongDefined(es, m.name);
  }

  // Whole files

  predicate NoStars(q: seq<string>) {
    forall x :: x in q ==> !Star(x)
  }

  predicate PlainNames(ms: seq<Marker>) {
    forall k :: 0 <= k < |ms| ==> !Star(ms[k].name)
  }

  lemma {:induction false} FileKeepsInv(env: Env, lists: bool, es: seq<Event>, st: State, f: nat, ms: seq<Marker>)
    requires LinkInv(env, lists, es, st) && PlainNames(ms) && LinkMarkers(st, f, ms).Some?
    ensures var st' := LinkMarkers(st, f, ms).value;
            && LinkInv(env, lists, es + FileEvents(f, ms), st')
            && (NoStars(st.unresolved) ==> NoStars(st'.unresolved))
  {
    hide LinkMarker, LinkInv, Star;
    assert forall k :: 0 <= k < |ms| ==> !Star(ms[k].name);
    if ms == [] {
      assert es + FileEvents(f, ms) == es;
    } else {
      var n := |ms| - 1;
      FileKeepsInv(env, lists, es, st, f, ms[..n]);
      var st1 := LinkMarkers(st, f, ms[..n]).value;
      var es1 := es + FileEvents(f, ms[..n]);
      MarkerKeepsInv(env, lists, es1, st1, f, ms[n]);
      ListStaysDistinct(env, lists, es1, st1, f, ms[n]);
      assert es1 + [Event(f, ms[n])] == es + FileEvents(f, ms);
    }
  }

  lemma {:induction false} FilesKeepInv(env: Env, lists: bool, done: seq<nat>, st: State, fs: seq<nat>)
    requires ValidEnv(env) && Scanned(env, done) && Scanned(env, fs)
    requires LinkInv(env, lists, Events(env, done), st) && LinkFiles(env, st, fs).Some?
    ensures var st' := LinkFiles(env, st, fs).value;
            && Scanned(env, done + fs)
            && LinkInv(env, lists, Events(env, done + fs), st')
            && (NoStars(st.unresolved) ==> NoStars(st'.unresolved))
  {
    hide LinkInv, Star, NoStars;
    if fs == [] {
      assert done + fs == done;
    } else {
      var n := |fs| - 1;
      FilesKeepInv(env, lists, done, st, fs[..n]);
      var st1 := LinkFiles(env, st, fs[..n]).value;
      FileKeepsInv(env, lists, Events(env, done + fs[..n]), st1, fs[n], env.files[fs[n]]);
      assert (done + fs)[..|done + fs| - 1] == done + fs[..n];
    }
  }

  /** A file's markers among those of all linked files. */
  lemma {:induction false} EventsMention(env: Env, fs: seq<nat>, x: string)
    requires Scanned(env, fs)
    ensures Defined(Events(env, fs), x) <==> exists i :: 0 <= i < |fs| && Defines(env.files[fs[i]], x)
    ensures Declared(Events(env, fs), x) <==> exists i :: 0 <= i < |fs| && Declares(env.files[fs[i]], x)
  {
    if fs != [] {
      var n := |fs| - 1;
      EventsMention(env, fs[..n], x);
      FileMentions(Events(env, fs[..n]), fs[n], env.files[fs[n]], x);
      hide Defines, Declares, Defined, Declared, Events;
      assert forall i :: 0 <= i < n ==> fs[..n][i] == fs[i];
    }
  }

  lemma {:induction false} FileMentions(es: seq<Event>, f: nat, ms: seq<Marker>, x: string)
    ensures Defined(es + FileEvents(f, ms), x) <==> Defined(es, x) || Defines(ms, x)
    ensures Declared(es + FileEvents(f, ms), x) <==> Declared(es, x) || Declares(ms, x)
  {
    hide Defined, Declared;
    if ms == [] {
      assert es + FileEvents(f, ms) == es;
    } else {
      var n := |ms| - 1;
      FileMentions(es, f, ms[..n], x);
      DefinesAppend(ms[..n], ms[n], x);
      assert ms[..n] + [ms[n]] == ms;
      OneMore(es + FileEvents(f, ms[..n]), Event(f, ms[n]), x);
      assert es + FileEvents(f, ms[..n]) + [Event(f, ms[n])] == es + FileEvents(f, ms);
    }
  }
}
