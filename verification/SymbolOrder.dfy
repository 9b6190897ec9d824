/** The order in which nvptx-as emits initialised variables: a depth-first walk
    over the symbols their initialisers mention. */
module SymbolOrder {
  import opened Common
  import opened StmtLists

  /** `g[i]` lists the symbols that symbol `i`'s initialiser depends on. */
  type Graph = g: seq<seq<nat>> | forall i, k :: 0 <= i < |g| && 0 <= k < |g[i]| ==> g[i][k] < |g|

  function Nodes(g: Graph): set<nat> {
    Below(|g|)
  }

  /** The walk from `e`, with `pending` the symbols being visited and `out` the
      symbols emitted so far. None is the "circular reference" error. */
  function Visit(g: Graph, pending: set<nat>, out: seq<nat>, e: nat): Option<seq<nat>>
    requires e < |g|
    decreases Nodes(g) - pending, 0
  {
    if e in out then Some(out)
    else if e in pending then None
    else
      assert e in Nodes(g) - pending && e !in Nodes(g) - (pending + {e});
      match VisitAll(g, pending + {e}, out, g[e])
      case None => None
      case Some(out') => Some(out' + [e])
  }

  function VisitAll(g: Graph, pending: set<nat>, out: seq<nat>, es: seq<nat>): Option<seq<nat>>
    requires forall k :: 0 <= k < |es| ==> es[k] < |g|
    decreases Nodes(g) - pending, 1, |es|
  {
    if es == [] then Some(out)
    else
      match Visit(g, pending, out, es[0])
      case None => None
      case Some(out') => VisitAll(g, pending, out', es[1..])
  }

  function Appearance(n: nat): (s: seq<nat>)
    ensures |s| == n && forall i :: 0 <= i < n ==> s[i] == i
  {
    seq(n, i requires 0 <= i < n => i)
  }

  /** The order for a whole file: every symbol in order of appearance. */
  function Order(g: Graph): Option<seq<nat>> {
    VisitAll(g, {}, [], Appearance(|g|))
  }

  /** Every symbol in `s` comes after all it depends on. */
  predicate Topological(g: Graph, s: seq<nat>) {
    forall i, d :: 0 <= i < |s| && s[i] < |g| && d in g[s[i]] ==> d in s[..i]
  }

  /** What holds of the emitted symbols at every step of the walk. */
  predicate Emitted(g: Graph, pending: set<nat>, out: seq<nat>) {
    && Distinct(out)
    && Topological(g, out)
    && forall e :: e in out ==> e < |g| && e !in pending
  }

  lemma {:induction false} VisitSound(g: Graph, pending: set<nat>, out: seq<nat>, e: nat)
    requires e < |g| && Emitted(g, pending, out)
    ensures var r := Visit(g, pending, out, e);
            r.Some? ==> out <= r.value && e in r.value && Emitted(g, pending, r.value)
    decreases Nodes(g) - pending, 0
  {
    if e !in out && e !in pending {
      assert e in Nodes(g) - pending && e !in Nodes(g) - (pending + {e});
      VisitAllSound(g, pending + {e}, out, g[e]);
      var r := VisitAll(g, pending + {e}, out, g[e]);
      if r.Some? {
        var o := r.value + [e];
        forall i, d | 0 <= i < |o| && o[i] < |g| && d in g[o[i]] ensures d in o[..i] {
          assert o[..i] == r.value[..i];
          if i == |r.value| { assert o[..i] == r.value; }
        }
      }
    }
  }

  lemma {:induction false} VisitAllSound(g: Graph, pending: set<nat>, out: seq<nat>, es: seq<nat>)
    requires forall k :: 0 <= k < |es| ==> es[k] < |g|
    requires Emitted(g, pending, out)
    ensures var r := VisitAll(g, pending, out, es);
            r.Some? ==> out <= r.value && (forall e :: e in es ==> e in r.value) && Emitted(g, pending, r.value)
    decreases Nodes(g) - pending, 1, |es|
  {
    if es != [] {
      VisitSound(g, pending, out, es[0]);
      var r := Visit(g, pending, out, es[0]);
      if r.Some? {
        VisitAllSound(g, pending, r.value, es[1..]);
      }
    }
  }

  /** Consecutive symbols of `p` depend on each other. */
  predicate Path(g: Graph, p: seq<nat>) {
    && (forall i :: 0 <= i < |p| ==> p[i] < |g|)
    && (forall i :: 0 <= i < |p| - 1 ==> p[i + 1] in g[p[i]])
  }

  predicate Cycle(g: Graph, p: seq<nat>) {
    |p| >= 2 && p[0] == p[|p| - 1] && Path(g, p)
  }

  ghost predicate Acyclic(g: Graph) {
    forall p :: !Cycle(g, p)
  }

  /** A failed walk has met a symbol on the path `stack` that led to it. */
  lemma {:induction false} VisitFails(g: Graph, pending: set<nat>, out: seq<nat>, e: nat, stack: seq<nat>)
    requires e < |g| && Path(g, stack + [e]) && (forall x :: x in pending <==> x in stack)
    requires Visit(g, pending, out, e) == None
    ensures !Acyclic(g)
    decreases Nodes(g) - pending, 0
  {
    var p := stack + [e];
    if e in pending {
      var k :| 0 <= k < |stack| && stack[k] == e;
      var c := p[k..];
      assert Cycle(g, c);
    } else {
      assert e in Nodes(g) - pending && e !in Nodes(g) - (pending + {e});
      VisitAllFails(g, pending + {e}, out, g[e], p);
    }
  }

  lemma {:induction false} VisitAllFails(g: Graph, pending: set<nat>, out: seq<nat>, es: seq<nat>, stack: seq<nat>)
    requires stack != [] && Path(g, stack) && (forall x :: x in pending <==> x in stack)
    requires forall k :: 0 <= k < |es| ==> es[k] in g[stack[|stack| - 1]]
    requires forall k :: 0 <= k < |es| ==> es[k] < |g|
    requires VisitAll(g, pending, out, es) == None
    ensures !Acyclic(g)
    decreases Nodes(g) - pending, 1, |es|
  {
    var r := Visit(g, pending, out, es[0]);
    if r == None {
      VisitFails(g, pending, out, es[0], stack);
    } else {
      VisitAllFails(g, pending, r.value, es[1..], stack);
    }
  }

  /** At the outermost level nothing is pending. */
  lemma {:induction false} RootFails(g: Graph, out: seq<nat>, es: seq<nat>)
    requires forall k :: 0 <= k < |es| ==> es[k] < |g|
    requires VisitAll(g, {}, out, es) == None
    ensures !Acyclic(g)
    decreases |es|
  {
    var r := Visit(g, {}, out, es[0]);
    if r == None {
      VisitFails(g, {}, out, es[0], []);
    } else {
      RootFails(g, r.value, es[1..]);
    }
  }

  /** A topological order of all symbols rules out cycles: positions fall
      strictly along every dependency. */
  lemma {:induction false} PositionsFall(g: Graph, s: seq<nat>, p: seq<nat>, i: nat)
    requires Distinct(s) && Topological(g, s) && (forall x: nat :: x < |g| ==> x in s)
    requires |p| >= 2 && Path(g, p) && i < |s| && s[i] == p[0]
    ensures p[|p| - 1] in s[..i]
  {
    assert p[1] in g[s[i]];
    var j :| 0 <= j < i && s[j] == p[1];
    if |p| > 2 {
      assert Path(g, p[1..]) by {
        forall k | 0 <= k < |p[1..]| - 1 ensures p[1..][k + 1] in g[p[1..][k]] {
          assert p[k + 1 + 1] in g[p[k + 1]];
        }
      }
      PositionsFall(g, s, p[1..], j);
    }
  }

  /** Ordering succeeds exactly on acyclic dependencies; the order then holds
      every symbol once, each after all it depends on. */
  lemma OrderCorrect(g: Graph)
    ensures Order(g).Some? <==> Acyclic(g)
    ensures Order(g).Some? ==>
      var s := Order(g).value;
      Distinct(s) && Topological(g, s) && (forall x: nat :: x in s <==> x < |g|)
  {
    var all := Appearance(|g|);
    VisitAllSound(g, {}, [], all);
    match Order(g)
    case None => RootFails(g, [], all);
    case Some(s) =>
      forall x: nat | x < |g| ensures x in s {
        assert all[x] in all;
      }
      assert forall x: nat :: x in s <==> x < |g|;
      forall p ensures !Cycle(g, p) {
        if Cycle(g, p) {
          assert p[0] in s;
          var i :| 0 <= i < |s| && s[i] == p[0];
          PositionsFall(g, s, p, i);
        }
      }
  }

  /** A file whose variables already appear in dependency order keeps it. */
  lemma OrderStable(g: Graph)
    requires Topological(g, Appearance(|g|))
    ensures Order(g) == Some(Appearance(|g|))
  {
    StableFrom(g, 0);
    assert Appearance(|g|)[0..] == Appearance(|g|) && Appearance(|g|)[..0] == [];
  }

  lemma {:induction false} StableFrom(g: Graph, i: nat)
    requires i <= |g| && Topological(g, Appearance(|g|))
    ensures VisitAll(g, {}, Appearance(|g|)[..i], Appearance(|g|)[i..]) == Some(Appearance(|g|))
    decreases |g| - i
  {
    var all := Appearance(|g|);
    if i < |g| {
      assert all[i..][0] == i && all[i..][1..] == all[i + 1..];
      assert all[..i + 1] == all[..i] + [i];
      assert i !in all[..i];
      assert forall d :: d in g[all[i]] ==> d in all[..i];
      AlreadyEmitted(g, {} + {i}, all[..i], g[i]);
      StableFrom(g, i + 1);
    } else {
      assert all[..i] == all;
    }
  }

  lemma {:induction false} AlreadyEmitted(g: Graph, pending: set<nat>, out: seq<nat>, es: seq<nat>)
    requires forall k :: 0 <= k < |es| ==> es[k] < |g| && es[k] in out
    ensures VisitAll(g, pending, out, es) == Some(out)
    decreases |es|
  {
    if es != [] {
      AlreadyEmitted(g, pending, out, es[1..]);
    }
  }

  /** A symbol of the file being assembled; `id` is its place in the vector of
      symbols in order of appearance. */
  class Symbol {
    const key: string
    const id: nat
    /** The statements that define it, last first. */
    var stmts: StmtNode?
    ghost var nodes: seq<StmtNode>
    var deps: seq<Symbol>
    var pending: bool
    var emitted: bool

    constructor (key: string, id: nat)
      ensures this.key == key && this.id == id
      ensures stmts == null && nodes == [] && deps == [] && !pending && !emitted
    {
      this.key := key;
      this.id := id;
      stmts, nodes, deps := null, [], [];
      pending, emitted := false, false;
    }
  }

  /** Every symbol is at its own place, and dependencies are symbols too. */
  ghost predicate ValidSymbols(symbols: seq<Symbol>)
    reads symbols`deps
  {
    && (forall i :: 0 <= i < |symbols| ==> symbols[i].id == i)
    && (forall i, d :: 0 <= i < |symbols| && d in symbols[i].deps ==> d in symbols)
  }

  function Ids(s: seq<Symbol>): (ids: seq<nat>)
    ensures |ids| == |s| && forall i :: 0 <= i < |s| ==> ids[i] == s[i].id
  {
    seq(|s|, i requires 0 <= i < |s| => s[i].id)
  }

  ghost function DepLists(symbols: seq<Symbol>): (g: seq<seq<nat>>)
    reads symbols`deps
    ensures |g| == |symbols|
    ensures forall i :: 0 <= i < |g| ==> g[i] == Ids(symbols[i].deps)
  {
    if symbols == [] then []
    else
      var n := |symbols| - 1;
      DepLists(symbols[..n]) + [Ids(symbols[n].deps)]
  }

  ghost function DepGraph(symbols: seq<Symbol>): (g: Graph)
    requires ValidSymbols(symbols)
    reads symbols`deps
    ensures g == DepLists(symbols)
  {
    var g := DepLists(symbols);
    assert forall i, k :: 0 <= i < |g| && 0 <= k < |g[i]| ==>
      symbols[i].deps[k] in symbols && g[i][k] == symbols[i].deps[k].id;
    g
  }

  /** The flags say which symbols are being visited and which are emitted. */
  ghost predicate Flags(symbols: seq<Symbol>, pending: set<nat>, out: seq<nat>)
    reads symbols`pending, symbols`emitted
  {
    forall i :: 0 <= i < |symbols| ==>
      (symbols[i].pending <==> i in pending) && (symbols[i].emitted <==> i in out)
  }

  lemma VisitIs(g: Graph, pending: set<nat>, out: seq<nat>, e: nat)
    requires e < |g|
    ensures Visit(g, pending, out, e) ==
      if e in out then Some(out)
      else if e in pending then None
      else
        match VisitAll(g, pending + {e}, out, g[e])
        case None => None
        case Some(out') => Some(out' + [e])
    ensures e !in pending ==> e in Nodes(g) - pending && e !in Nodes(g) - (pending + {e})
  {
    hide VisitAll;
  }

  /** The walk over what is left of `es`. */
  lemma VisitRest(g: Graph, pending: set<nat>, out: seq<nat>, es: seq<nat>, i: nat)
    requires i <= |es| && forall k :: 0 <= k < |es| ==> es[k] < |g|
    ensures i == |es| ==> VisitAll(g, pending, out, es[i..]) == Some(out)
    ensures i < |es| ==>
      VisitAll(g, pending, out, es[i..]) ==
        match Visit(g, pending, out, es[i])
        case None => None
        case Some(out') => VisitAll(g, pending, out', es[i + 1..])
    ensures es[0..] == es
  {
    hide Visit;
    if i < |es| { assert es[i..][0] == es[i] && es[i..][1..] == es[i + 1..]; }
  }

  /** A symbol's place, and what the graph says of it. */
  lemma SymbolIs(symbols: seq<Symbol>, e: Symbol)
    requires ValidSymbols(symbols) && e in symbols
    ensures e.id < |symbols| == |DepGraph(symbols)| && symbols[e.id] == e && DepGraph(symbols)[e.id] == Ids(e.deps)
    ensures forall d :: d in e.deps ==> d in symbols && d.id < |symbols|
    ensures forall i :: 0 <= i < |symbols| ==> (symbols[i] == e <==> i == e.id)
  {
    hide DepLists;
  }

  /** Marks a symbol as being visited. */
  method SetPending(e: Symbol, ghost symbols: seq<Symbol>, ghost pending: set<nat>, ghost out: seq<nat>)
    requires Flags(symbols, pending, out) && forall i :: 0 <= i < |symbols| ==> (symbols[i] == e <==> i == e.id)
    modifies e`pending
    ensures Flags(symbols, pending + {e.id}, out)
  {
    e.pending := true;
  }

  /** Marks it as emitted. */
  method SetEmitted(e: Symbol, ghost symbols: seq<Symbol>, ghost pending: set<nat>, ghost out: seq<nat>)
    requires Flags(symbols, pending + {e.id}, out) && e.id !in pending
    requires forall i :: 0 <= i < |symbols| ==> (symbols[i] == e <==> i == e.id)
    modifies e`pending, e`emitted
    ensures Flags(symbols, pending, out + [e.id])
  {
    e.pending := false;
    e.emitted := true;
  }

  lemma FlagsAt(symbols: seq<Symbol>, e: Symbol, pending: set<nat>, out: seq<nat>)
    requires Flags(symbols, pending, out) && e.id < |symbols| && symbols[e.id] == e
    ensures e.pending <==> e.id in pending
    ensures e.emitted <==> e.id in out
  {
  }

  /** The recursive walk over flagged symbols. */
  method SymbolOrderDeps(symbolsOut: seq<Symbol>, e: Symbol, ghost symbols: seq<Symbol>, ghost pending: set<nat>)
    returns (ok: bool, out: seq<Symbol>)
    requires ValidSymbols(symbols) && e in symbols
    requires Flags(symbols, pending, Ids(symbolsOut)) && (forall s :: s in symbolsOut ==> s in symbols)
    modifies symbols`pending, symbols`emitted
    ensures var r := Visit(old(DepGraph(symbols)), pending, Ids(symbolsOut), e.id);
            (ok <==> r.Some?) && (ok ==> r.value == Ids(out) && Flags(symbols, pending, Ids(out)))
    ensures forall s :: s in out ==> s in symbols
    decreases Nodes(DepGraph(symbols)) - pending, 0
  {
    hide DepGraph, DepLists, Ids, Nodes, Visit, VisitAll, ValidSymbols, Flags;
    SymbolIs(symbols, e);
    FlagsAt(symbols, e, pending, Ids(symbolsOut));
    VisitIs(DepGraph(symbols), pending, Ids(symbolsOut), e.id);
    if e.emitted {
      return true, symbolsOut;
    }
    if e.pending {
      return false, symbolsOut;
    }
    SetPending(e, symbols, pending, Ids(symbolsOut));
    ok, out := OrderDeps(symbolsOut, e, symbols, pending + {e.id});
    if !ok {
      return;
    }
    SetEmitted(e, symbols, pending, Ids(out));
    assert Ids(out + [e]) == Ids(out) + [e.id];
    out := out + [e];
  }

  /** The loop over what `e` depends on. */
  method OrderDeps(symbolsOut: seq<Symbol>, e: Symbol, ghost symbols: seq<Symbol>, ghost pending: set<nat>)
    returns (ok: bool, out: seq<Symbol>)
    requires ValidSymbols(symbols) && e in symbols && e.id < |DepGraph(symbols)|
    requires Flags(symbols, pending, Ids(symbolsOut)) && (forall s :: s in symbolsOut ==> s in symbols)
    modifies symbols`pending, symbols`emitted
    ensures var g := old(DepGraph(symbols)); var r := VisitAll(g, pending, Ids(symbolsOut), g[e.id]);
            (ok <==> r.Some?) && (ok ==> r.value == Ids(out) && Flags(symbols, pending, Ids(out)))
    ensures forall s :: s in out ==> s in symbols
    decreases Nodes(DepGraph(symbols)) - pending, 1
  {
    hide DepGraph, DepLists, Ids, Nodes, Visit, VisitAll, ValidSymbols, Flags;
    ghost var g := DepGraph(symbols);
    SymbolIs(symbols, e);
    VisitRest(g, pending, Ids(symbolsOut), g[e.id], 0);
    out := symbolsOut;
    for i := 0 to |e.deps|
      invariant forall s :: s in out ==> s in symbols
      invariant Flags(symbols, pending, Ids(out))
      invariant VisitAll(g, pending, Ids(symbolsOut), g[e.id]) == VisitAll(g, pending, Ids(out), g[e.id][i..])
    {
      VisitRest(g, pending, Ids(out), g[e.id], i);
      assert e.deps[i] in e.deps;
      ok, out := SymbolOrderDeps(out, e.deps[i], symbols, pending);
      if !ok {
        return;
      }
    }
    VisitRest(g, pending, Ids(out), g[e.id], |e.deps|);
    ok := true;
  }

  /** The loop over all symbols; a failure is a fatal error of the assembler. */
  method OrderSymbols(symbols: seq<Symbol>) returns (r: Option<seq<Symbol>>)
    requires ValidSymbols(symbols) && Flags(symbols, {}, [])
    modifies symbols`pending, symbols`emitted
    ensures var g := old(DepGraph(symbols));
            && (r.Some? <==> Order(g).Some?)
            && (r.Some? ==> Ids(r.value) == Order(g).value && forall s :: s in r.value ==> s in symbols)
  {
    ghost var g, all := DepGraph(symbols), Appearance(|symbols|);
    var out := [];
    assert all[0..] == all;
    for i := 0 to |symbols|
      invariant Flags(symbols, {}, Ids(out)) && forall s :: s in out ==> s in symbols
      invariant VisitAll(g, {}, [], all) == VisitAll(g, {}, Ids(out), all[i..])
    {
      assert all[i..][0] == symbols[i].id && all[i..][1..] == all[i + 1..];
      var ok;
      ok, out := SymbolOrderDeps(out, symbols[i], symbols, {});
      if !ok {
        return None;
      }
    }
    return Some(out);
  }
}
