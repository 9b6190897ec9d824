/** Which variables of a file depend on which, told from its tokens. */
module FileDeps {
  import opened Common
  import opened Tokenizer
  import opened ParserSpec
  import opened Conservation
  import opened FileShape
  import opened FileLayout
  import opened ShapeSteps

  // What the log says of symbols it says in its notes

  lemma {:induction false} TouchNamed(log: seq<Event>, x: string)
    requires Touched(log, x)
    ensures x in Names(log)
  {
    hide AddNames;
    var n := |log| - 1;
    var j :| 0 <= j < |log| && log[j] == Touch(x);
    NamesOwn(log[..n]);
    NamesAdded(Names(log[..n]), Mention(log[n]));
    if j < n {
      assert log[..n][j] == Touch(x);
      TouchNamed(log[..n], x);
    }
  }

  lemma NotesMore(log: seq<Event>, e: Event)
    ensures LogNotes(log + [e]) == LogNotes(log) + if e.Touch? || e.Depend? then [e] else []
  {
    assert (log + [e])[..|log|] == log;
  }

  /** Symbols appear in the order of the notes, as each is looked up before it gets a
      statement. */
  lemma {:induction false} NamesNoted(log: seq<Event>)
    requires Announced(log, {})
    ensures Names(log) == Names(LogNotes(log))
  {
    hide AddNames, Touched;
    if log != [] {
      var n := |log| - 1;
      var rest, e := log[..n], log[n];
      AnnouncedBefore(log, n);
      NamesNoted(rest);
      NameStep(LogNotes(rest), e);
      assert LogNotes(rest) + [] == LogNotes(rest);
      if e.Put? {
        if e.dest.Var? {
          assert Touched(log[..n], e.dest.name);
          TouchNamed(rest, e.dest.name);
          SameNames(Names(rest), e.dest.name);
        } else {
          NoneAdded(Names(rest));
        }
      } else if e.Drop? {
        NoneAdded(Names(rest));
      }
    }
  }

  lemma AnnouncedBefore(log: seq<Event>, n: nat)
    requires Announced(log, {}) && n <= |log|
    ensures Announced(log[..n], {})
  {
    hide Touched;
    forall k | 0 <= k < n && log[k].Put? && log[k].dest.Var? ensures Touched(log[..n][..k], log[k].dest.name) {
      assert log[..n][..k] == log[..k];
    }
  }

  lemma NameStep(notes: seq<Event>, e: Event)
    ensures Names(notes + [e]) == AddNames(Names(notes), Mention(e))
  {
    hide AddNames;
    assert (notes + [e])[..|notes|] == notes;
  }

  lemma SameNames(ns: seq<string>, x: string)
    requires x in ns
    ensures AddNames(ns, [x]) == ns
  {
    assert [x][1..] == [];
  }

  lemma NoneAdded(ns: seq<string>)
    ensures AddNames(ns, []) == ns
  {
  }

  // Order of appearance

  /** The names that notes mention, one after another. */
  function Mentions(notes: seq<Event>): seq<string> {
    if notes == [] then [] else Mentions(notes[..|notes| - 1]) + Mention(notes[|notes| - 1])
  }

  /** The names in `all`, each once, in the order in which they first appear there. */
  ghost predicate FirstsOf(ns: seq<string>, all: seq<string>) {
    && Distinct(ns) && (forall x :: x in ns <==> x in all)
    && forall i, j, b :: 0 <= i < j < |ns| && 0 <= b < |all| && all[b] == ns[j] ==> ns[i] in all[..b]
  }

  lemma FirstsMore(ns: seq<string>, all: seq<string>, x: string)
    requires FirstsOf(ns, all)
    ensures FirstsOf(AddName(ns, x), all + [x])
  {
    var ns', all' := AddName(ns, x), all + [x];
    forall i, j, b | 0 <= i < j < |ns'| && 0 <= b < |all'| && all'[b] == ns'[j] ensures ns'[i] in all'[..b] {
      if b < |all| {
        assert all'[..b] == all[..b] && all[b] in all;
      } else {
        assert all'[..b] == all && ns'[i] in ns;
      }
    }
  }

  lemma {:induction false} FirstsAll(ns: seq<string>, all: seq<string>, xs: seq<string>)
    requires FirstsOf(ns, all)
    ensures FirstsOf(AddNames(ns, xs), all + xs)
    decreases |xs|
  {
    hide FirstsOf, AddName;
    if xs == [] {
      assert all + xs == all;
    } else {
      FirstsMore(ns, all, xs[0]);
      FirstsAll(AddName(ns, xs[0]), all + [xs[0]], xs[1..]);
      assert all + [xs[0]] + xs[1..] == all + xs;
    }
  }

  /** Symbols are kept in the order in which they first appear. */
  lemma {:induction false} NamesInOrder(notes: seq<Event>)
    ensures FirstsOf(Names(notes), Mentions(notes))
  {
    hide AddNames;
    if notes != [] {
      var n := |notes| - 1;
      NamesInOrder(notes[..n]);
      FirstsAll(Names(notes[..n]), Mentions(notes[..n]), Mention(notes[n]));
    }
  }

  // What depends on what

  lemma {:induction false} DepsNoted(log: seq<Event>, x: string)
    ensures DepsOf(log, x) == DepsOf(LogNotes(log), x)
  {
    if log != [] {
      var n := |log| - 1;
      DepsNoted(log[..n], x);
      DepStep(LogNotes(log[..n]), log[n], x);
      assert LogNotes(log[..n]) + [] == LogNotes(log[..n]);
    }
  }

  lemma DepStep(notes: seq<Event>, e: Event, x: string)
    ensures DepsOf(notes + [e], x) == DepsOf(notes, x) + if e.Depend? && e.name == x then [e.dep] else []
  {
    assert (notes + [e])[..|notes|] == notes;
  }

  // The notes, as dependencies between names

  lemma {:induction false} DepsAppend(a: seq<Event>, b: seq<Event>, x: string)
    ensures DepsOf(a + b, x) == DepsOf(a, x) + DepsOf(b, x)
  {
    if b == [] {
      assert a + b == a;
    } else {
      var n := |b| - 1;
      DepsAppend(a, b[..n], x);
      DepStep(a + b[..n], b[n], x);
      assert a + b == a + b[..n] + [b[n]];
    }
  }

  lemma OneNote(e: Event, x: string)
    ensures DepsOf([e], x) == if e.Depend? && e.name == x then [e.dep] else []
  {
    DepStep([], e, x);
    assert [] + [e] == [e];
  }

  /** One value after another, from that at `v` on. */
  ghost predicate ValueFrom(t: seq<Token>, v: nat, w: nat)
    decreases |t| - v
  {
    ValueStop(t, v).Some? && (w == v ||
      var q := ValueStop(t, v).value; Is(t, q, ',') && ValueFrom(t, Trailed(t, q + 1), w))
  }

  /** The value at `v`, up to its separator, names `y` last. */
  predicate NamesLast(t: seq<Token>, v: nat, y: string) {
    ValueStop(t, v).Some? &&
    var i := LastName(t, CommentStop(t, v), ValueStop(t, v).value); i.Some? && t[i.value].text == y
  }

  /** One item after another, from that at `p` on. */
  ghost predicate ItemFrom(t: seq<Token>, p: nat, o: nat)
    requires Terminated(t) && p < |t|
    decreases |t| - p
  {
    t[p].kind != Eof && ItemAt(t, p).To? && (o == p || (ItemMoves(t, p); ItemFrom(t, ItemAt(t, p).end, o)))
  }

  /** The item at `o` defines the variable `x`, and a value of it names `y` last. */
  ghost predicate Initialises(t: seq<Token>, o: nat, x: string, y: string)
    requires Terminated(t)
  {
    && o < |t| && ItemAt(t, o).To? && DefinesVariable(t, o)
    && var q := PlainStop(t, o);
       var e := HeaderStop(t, q);
       && LastName(t, q, e).Some? && NameOf(t, q, e) == x && Is(t, e, '=')
       && exists v :: ValueFrom(t, e + 1, v) && NamesLast(t, v, y)
  }

  /** Variable `x` is initialised with `y`, by name. */
  ghost predicate Needs(t: seq<Token>, x: string, y: string)
    requires Terminated(t)
  {
    exists o :: ItemFrom(t, 0, o) && Initialises(t, o, x, y)
  }

  lemma ValueNeeds(t: seq<Token>, p: nat, name: string, x: string, y: string)
    requires ValueStop(t, p).Some?
    ensures y in DepsOf(ValueNotes(t, CommentStop(t, p), ValueStop(t, p).value, name), x) <==>
      x == name && NamesLast(t, p, y)
  {
    hide DepsOf, LastName, CommentStop;
    NoneNeeded(x);
    var ns := ValueNotes(t, CommentStop(t, p), ValueStop(t, p).value, name);
    if ns != [] { OneNote(ns[0], x); }
  }

  lemma {:induction false} ValuesNeed(t: seq<Token>, p: nat, name: string, x: string, y: string)
    requires InitStop(t, p).Some?
    ensures y in DepsOf(InitNotes(t, p, name), x) <==>
      x == name && exists v :: ValueFrom(t, p, v) && NamesLast(t, v, y)
    decreases |t| - p
  {
    hide DepsOf, ValueNotes, ValueStop, NamesLast, ValueFrom, CommentStop, Trailed;
    var q := ValueStop(t, p).value;
    var ns := ValueNotes(t, CommentStop(t, p), q, name);
    ValueNeeds(t, p, name, x, y);
    if Is(t, q, ';') {
      assert ns + [] == ns;
      OneValue(t, p, y);
    } else {
      var next := Trailed(t, q + 1);
      TrailedIn(t, q + 1);
      StopAfter(t, p);
      ValuesNeed(t, next, name, x, y);
      DepsAppend(ns, InitNotes(t, next, name), x);
      ValuesSplit(t, p, y);
    }
  }

  lemma StopAfter(t: seq<Token>, p: nat)
    requires ValueStop(t, p).Some?
    ensures p <= ValueStop(t, p).value < |t|
  {
  }

  lemma OneValue(t: seq<Token>, p: nat, y: string)
    requires ValueStop(t, p).Some? && Is(t, ValueStop(t, p).value, ';')
    ensures NamesLast(t, p, y) <==> exists v :: ValueFrom(t, p, v) && NamesLast(t, v, y)
  {
    hide NamesLast, ValueStop, Trailed;
    assert ValueFrom(t, p, p);
  }

  lemma NoneNeeded(x: string)
    ensures DepsOf([], x) == []
  {
  }

  lemma ValuesSplit(t: seq<Token>, p: nat, y: string)
    requires InitStop(t, p).Some? && !Is(t, ValueStop(t, p).value, ';')
    ensures (exists v :: ValueFrom(t, p, v) && NamesLast(t, v, y)) <==>
      NamesLast(t, p, y) || exists v :: ValueFrom(t, Trailed(t, ValueStop(t, p).value + 1), v) && NamesLast(t, v, y)
  {
    hide NamesLast, Trailed;
    var q := ValueStop(t, p).value;
    assert Is(t, q, ',') by { SeparatorIs(t, p); }
    if NamesLast(t, p, y) { assert ValueFrom(t, p, p); }
    if v :| ValueFrom(t, Trailed(t, q + 1), v) && NamesLast(t, v, y) { assert ValueFrom(t, p, v); }
  }

  lemma SeparatorIs(t: seq<Token>, p: nat)
    requires ValueStop(t, p).Some?
    ensures IsSeparator(t, ValueStop(t, p).value)
  {
  }

  lemma ItemNeeds(t: seq<Token>, o: nat, x: string, y: string)
    requires Terminated(t) && o < |t| && ItemAt(t, o).To?
    ensures y in DepsOf(ItemNotes(t, o), x) <==> Initialises(t, o, x, y)
  {
    hide ItemAt, PlainStop, HeaderStop, DepsOf, LastName, InitStop, InitNotes, ValueFrom, NamesLast, DefinesVariable;
    NoneNeeded(x);
    if DefinesVariable(t, o) {
      VariableHere(t, o);
      var q := PlainStop(t, o);
      var e := HeaderStop(t, q);
      var name := NameOf(t, q, e);
      OneNote(Touch(name), x);
      if Is(t, e, '=') {
        ValuesNeed(t, e + 1, name, x, y);
        DepsAppend([Touch(name)], InitNotes(t, e + 1, name), x);
      } else {
        assert [Touch(name)] + [] == [Touch(name)];
      }
    }
  }

  lemma {:induction false} ItemsNeed(t: seq<Token>, p: nat, x: string, y: string)
    requires Terminated(t) && p < |t| && FileReach(t, p).To?
    ensures y in DepsOf(FileNotes(t, p), x) <==> exists o :: ItemFrom(t, p, o) && Initialises(t, o, x, y)
    decreases |t| - p
  {
    hide ItemAt, ItemNotes, DepsOf, Initialises;
    NoneNeeded(x);
    if t[p].kind != Eof {
      ItemMoves(t, p);
      var e := ItemAt(t, p).end;
      ItemNeeds(t, p, x, y);
      ItemsNeed(t, e, x, y);
      DepsAppend(ItemNotes(t, p), FileNotes(t, e), x);
      ItemsSplit(t, p, x, y);
    }
  }

  lemma ItemsSplit(t: seq<Token>, p: nat, x: string, y: string)
    requires Terminated(t) && p < |t| && t[p].kind != Eof && ItemAt(t, p).To? && p < ItemAt(t, p).end < |t|
    ensures (exists o :: ItemFrom(t, p, o) && Initialises(t, o, x, y)) <==>
      Initialises(t, p, x, y) || exists o :: ItemFrom(t, ItemAt(t, p).end, o) && Initialises(t, o, x, y)
  {
    hide ItemAt, Initialises;
    var e := ItemAt(t, p).end;
    assert ItemFrom(t, p, p);
    if o :| ItemFrom(t, e, o) && Initialises(t, o, x, y) { assert ItemFrom(t, p, o); }
  }

  /** What a variable depends on is exactly what its values name last. */
  lemma {:induction false} NeedsNoted(t: seq<Token>, x: string, y: string)
    requires Terminated(t) && FileReach(t, 0).To?
    ensures y in DepsOf(FileNotes(t, 0), x) <==> Needs(t, x, y)
  {
    hide ItemFrom, Initialises, DepsOf, FileReach, FileNotes;
    ItemsNeed(t, 0, x, y);
  }
}
