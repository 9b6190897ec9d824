/** What the parser makes of a file is all printed, once, and in source order. */
module Conservation {
  import opened Common
  import opened Tokenizer
  import opened Statements
  import opened ParserSpec
  import opened ParserFacts

  /** The statements of one list, in source order. */
  function PutsTo(log: seq<Event>, dest: Dest): seq<Stmt> {
    if log == [] then []
    else
      var e := log[|log| - 1];
      PutsTo(log[..|log| - 1], dest) + if e.Put? && e.dest == dest then [e.stmt] else []
  }

  function AllPuts(log: seq<Event>): seq<Stmt> {
    if log == [] then []
    else
      var e := log[|log| - 1];
      AllPuts(log[..|log| - 1]) + if e.Put? then [e.stmt] else []
  }

  /** The symbols an event is about. */
  function Mention(e: Event): seq<string> {
    if e.Touch? then [e.name]
    else if e.Depend? then [e.name, e.dep]
    else if e.Put? && e.dest.Var? then [e.dest.name]
    else []
  }

  /** The symbols, in order of appearance. */
  function Names(log: seq<Event>): (ns: seq<string>)
  {
    if log == [] then [] else AddNames(Names(log[..|log| - 1]), Mention(log[|log| - 1]))
  }

  function AddNames(ns: seq<string>, xs: seq<string>): seq<string>
    decreases |xs|
  {
    if xs == [] then ns else AddNames(AddName(ns, xs[0]), xs[1..])
  }

  function AddName(ns: seq<string>, x: string): seq<string> {
    if x in ns then ns else ns + [x]
  }

  /** What symbol `x` depends on, in order. */
  function DepsOf(log: seq<Event>, x: string): seq<string> {
    if log == [] then []
    else
      var e := log[|log| - 1];
      DepsOf(log[..|log| - 1], x) + if e.Depend? && e.name == x then [e.dep] else []
  }

  /** The variables' statements, symbol by symbol. */
  function VarPuts(log: seq<Event>, order: seq<string>): seq<Stmt> {
    if order == [] then []
    else VarPuts(log, order[..|order| - 1]) + PutsTo(log, Var(order[|order| - 1]))
  }

  /** What is printed: declarations, variables in the given order, functions. */
  function Output(log: seq<Event>, order: seq<string>): seq<Stmt> {
    PutsTo(log, Decls) + VarPuts(log, order) + PutsTo(log, Fns)
  }

  // In source order

  predicate InSourceOrder(ss: seq<Stmt>, lo: nat, hi: nat) {
    && (forall i :: 0 <= i < |ss| ==> lo <= ss[i].lo < ss[i].hi <= hi)
    && (forall i, j :: 0 <= i < j < |ss| ==> ss[i].hi <= ss[j].lo)
  }

  /** Every list is in source order, and so are all statements together. */
  lemma {:induction false} ListsInOrder(log: seq<Event>, dest: Dest, lo: nat, hi: nat)
    requires Tiles(log, lo, hi)
    ensures lo <= hi && InSourceOrder(PutsTo(log, dest), lo, hi) && InSourceOrder(AllPuts(log), lo, hi)
  {
    if log != [] {
      var rest := log[..|log| - 1];
      match log[|log| - 1]
      case Put(_, s) => ListsInOrder(rest, dest, lo, s.lo);
      case Drop(a, _) => ListsInOrder(rest, dest, lo, a);
      case _ => ListsInOrder(rest, dest, lo, hi);
    }
  }

  // Nothing is lost

  predicate Covers(s: Stmt, i: nat) {
    s.lo <= i < s.hi
  }

  predicate Dropped(log: seq<Event>, i: nat) {
    exists k :: 0 <= k < |log| && log[k].Drop? && log[k].lo <= i < log[k].hi
  }

  lemma DroppedMore(log: seq<Event>, e: Event, i: nat)
    ensures Dropped(log + [e], i) <==> Dropped(log, i) || (e.Drop? && e.lo <= i < e.hi)
  {
    var l := log + [e];
    if k :| 0 <= k < |log| && log[k].Drop? && log[k].lo <= i < log[k].hi { assert l[k] == log[k]; }
    assert l[|log|] == e;
  }

  /** Every token is in a statement, or dropped, but not both. */
  lemma {:induction false} EveryToken(log: seq<Event>, lo: nat, hi: nat, i: nat)
    requires Tiles(log, lo, hi) && lo <= i < hi
    ensures Dropped(log, i) <==> forall s :: s in AllPuts(log) ==> !Covers(s, i)
  {
    var n := |log| - 1;
    var rest, e := log[..n], log[n];
    assert log == rest + [e];
    DroppedMore(rest, e, i);
    match e {
      case Put(_, s) =>
        ListsInOrder(rest, Decls, lo, s.lo);
        assert AllPuts(log) == AllPuts(rest) + [s];
        assert forall x :: x in AllPuts(log) <==> x in AllPuts(rest) || x == s;
        if i < s.lo {
          EveryToken(rest, lo, s.lo, i);
        } else {
          NothingBeyond(rest, lo, s.lo, i);
          assert s in AllPuts(log) && Covers(s, i);
        }
      case Drop(a, _) =>
        ListsInOrder(rest, Decls, lo, a);
        if i < a { EveryToken(rest, lo, a, i); }
      case _ => EveryToken(rest, lo, hi, i);
    }
  }

  lemma {:induction false} NothingBeyond(log: seq<Event>, lo: nat, hi: nat, i: nat)
    requires Tiles(log, lo, hi) && i >= hi
    ensures !Dropped(log, i)
  {
    if log != [] {
      var n := |log| - 1;
      assert log == log[..n] + [log[n]];
      DroppedMore(log[..n], log[n], i);
      match log[n] {
        case Put(_, s) => NothingBeyond(log[..n], lo, s.lo, i);
        case Drop(a, _) => NothingBeyond(log[..n], lo, a, i);
        case _ => NothingBeyond(log[..n], lo, hi, i);
      }
    }
  }

  // Every statement is in one list

  /** Every symbol that owns statements has been looked up. */
  predicate Owned(log: seq<Event>, ns: seq<string>) {
    forall k :: 0 <= k < |log| && log[k].Put? && log[k].dest.Var? ==> log[k].dest.name in ns
  }

  lemma {:induction false} NamesAdded(ns: seq<string>, xs: seq<string>)
    requires Distinct(ns)
    ensures Distinct(AddNames(ns, xs)) && forall x :: x in AddNames(ns, xs) <==> x in ns || x in xs
    decreases |xs|
  {
    if xs != [] {
      NamesAdded(AddName(ns, xs[0]), xs[1..]);
    }
  }

  lemma {:induction false} NamesOwn(log: seq<Event>)
    ensures Distinct(Names(log)) && Owned(log, Names(log))
  {
    hide AddNames;
    if log != [] {
      var n := |log| - 1;
      NamesOwn(log[..n]);
      NamesAdded(Names(log[..n]), Mention(log[n]));
      assert log == log[..n] + [log[n]];
    }
  }

  /** A name that no event is about owns nothing. */
  lemma {:induction false} OwnsNothing(log: seq<Event>, x: string)
    requires x !in Names(log)
    ensures PutsTo(log, Var(x)) == [] && DepsOf(log, x) == []
  {
    hide AddNames;
    if log != [] {
      var n := |log| - 1;
      NamesOwn(log[..n]);
      NamesAdded(Names(log[..n]), Mention(log[n]));
      OwnsNothing(log[..n], x);
    }
  }

  lemma PutsMore(log: seq<Event>, e: Event, dest: Dest)
    ensures PutsTo(log + [e], dest) == PutsTo(log, dest) + if e.Put? && e.dest == dest then [e.stmt] else []
    ensures AllPuts(log + [e]) == AllPuts(log) + if e.Put? then [e.stmt] else []
  {
    assert (log + [e])[..|log|] == log;
  }

  /** The statements an event adds to the variables of `order`. */
  function Added(e: Event, order: seq<string>): multiset<Stmt> {
    if e.Put? && e.dest.Var? && e.dest.name in order then multiset{e.stmt} else multiset{}
  }

  lemma {:induction false} VarPutsMore(log: seq<Event>, e: Event, order: seq<string>)
    requires Distinct(order)
    ensures multiset(VarPuts(log + [e], order)) == multiset(VarPuts(log, order)) + Added(e, order)
  {
    hide PutsTo;
    if order != [] {
      var n := |order| - 1;
      VarPutsMore(log, e, order[..n]);
      PutsMore(log, e, Var(order[n]));
      AddedMore(e, order);
    }
  }

  lemma AddedMore(e: Event, order: seq<string>)
    requires order != [] && Distinct(order)
    ensures var n := |order| - 1;
            Added(e, order) == Added(e, order[..n]) + if e.Put? && e.dest == Var(order[n]) then multiset{e.stmt}
              else multiset{}
  {
    var n := |order| - 1;
    assert order == order[..n] + [order[n]];
  }

  /** The printed statements are all statements made. */
  lemma {:induction false} AllPrinted(log: seq<Event>, order: seq<string>)
    requires Distinct(order) && Owned(log, order)
    ensures multiset(Output(log, order)) == multiset(AllPuts(log))
  {
    hide PutsTo, AllPuts, VarPuts;
    if log == [] {
      NoPuts(order);
    } else {
      var n := |log| - 1;
      var rest, e := log[..n], log[n];
      assert log == rest + [e];
      AllPrinted(rest, order);
      VarPutsMore(rest, e, order);
      PutsMore(rest, e, Decls);
      PutsMore(rest, e, Fns);
      assert e.Put? && e.dest.Var? ==> e.dest.name in order;
      OutputCounts(rest, order);
      OutputCounts(log, order);
    }
  }

  lemma OutputCounts(log: seq<Event>, order: seq<string>)
    ensures multiset(Output(log, order)) ==
      multiset(PutsTo(log, Decls)) + multiset(VarPuts(log, order)) + multiset(PutsTo(log, Fns))
  {
  }

  lemma NoPuts(order: seq<string>)
    ensures Output([], order) == [] && AllPuts([]) == []
  {
    NoVarPuts(order);
  }

  lemma {:induction false} NoVarPuts(order: seq<string>)
    ensures VarPuts([], order) == []
  {
    if order != [] { NoVarPuts(order[..|order| - 1]); }
  }

  lemma {:induction false} CountInOrder(ss: seq<Stmt>, lo: nat, hi: nat, k: nat)
    requires InSourceOrder(ss, lo, hi) && k < |ss|
    ensures multiset(ss)[ss[k]] == 1
  {
    var n := |ss| - 1;
    assert ss == ss[..n] + [ss[n]];
    if k < n {
      CountInOrder(ss[..n], lo, hi, k);
    } else {
      assert ss[n] !in ss[..n];
    }
  }

  /** In a list in order, at most one statement covers a token. */
  lemma OneCovers(ss: seq<Stmt>, lo: nat, hi: nat, s: Stmt, s': Stmt, i: nat)
    requires InSourceOrder(ss, lo, hi) && s in ss && s' in ss && Covers(s, i) && Covers(s', i)
    ensures s == s' && multiset(ss)[s] == 1
  {
    var k :| 0 <= k < |ss| && ss[k] == s;
    var j :| 0 <= j < |ss| && ss[j] == s';
    CountInOrder(ss, lo, hi, k);
  }

  /** Token `i` is in exactly one of the statements, which comes once. */
  ghost predicate Once(out: seq<Stmt>, i: nat) {
    exists s :: Covers(s, i) && multiset(out)[s] == 1 && forall s' :: s' in out && Covers(s', i) ==> s' == s
  }

  /** Every token is printed exactly once, unless it is dropped. */
  lemma PrintedOnce(log: seq<Event>, order: seq<string>, hi: nat, i: nat)
    requires Tiles(log, 0, hi) && Distinct(order) && Owned(log, order) && i < hi
    ensures var out := Output(log, order);
            if Dropped(log, i) then forall s :: s in out ==> !Covers(s, i) else Once(out, i)
  {
    hide Output, AllPuts, PutsTo, Tiles, Dropped, Covers, InSourceOrder;
    var out, all := Output(log, order), AllPuts(log);
    AllPrinted(log, order);
    ListsInOrder(log, Decls, 0, hi);
    EveryToken(log, 0, hi, i);
    SameElements(out, all);
    if !Dropped(log, i) {
      var s :| s in all && Covers(s, i);
      OneCovers(all, 0, hi, s, s, i);
      forall s' | s' in out && Covers(s', i) ensures s' == s {
        OneCovers(all, 0, hi, s, s', i);
      }
    }
  }

  lemma SameElements(a: seq<Stmt>, b: seq<Stmt>)
    requires multiset(a) == multiset(b)
    ensures forall s :: s in a <==> s in b
  {
    assert forall s :: s in a <==> s in multiset(a);
    assert forall s :: s in b <==> s in multiset(b);
  }
}
