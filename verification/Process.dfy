/** nvptx-as as a whole: it reads tokens, parses them, orders the variables and
    prints the statements. */
module Process {
  import opened Common
  import opened Tokenizer
  import opened Statements
  import opened StmtLists
  import opened ParserSpec
  import opened ParserFacts
  import opened Conservation
  import opened FileShape
  import opened FileLayout
  import opened ShapeSame
  import opened ShapeSteps
  import opened ShapeFacts
  import opened Framing
  import opened NulFreeText
  import opened Lexemes
  import opened RoundTrip
  import opened PrintTokenise
  import opened Assembler
  import SymbolOrder

  // Dependencies as a graph

  function IndexOf(ns: seq<string>, x: string): (i: nat)
    ensures x in ns ==> i < |ns| && ns[i] == x
  {
    if ns == [] || ns[0] == x then 0 else 1 + IndexOf(ns[1..], x)
  }

  lemma IndexUnique(ns: seq<string>, i: nat)
    requires Distinct(ns) && i < |ns|
    ensures IndexOf(ns, ns[i]) == i
  {
    assert ns[IndexOf(ns, ns[i])] == ns[i];
  }

  function Indices(ns: seq<string>, xs: seq<string>): (ks: seq<nat>)
    ensures |ks| == |xs| && forall k :: 0 <= k < |xs| ==> ks[k] == IndexOf(ns, xs[k])
  {
    seq(|xs|, k requires 0 <= k < |xs| => IndexOf(ns, xs[k]))
  }

  /** What each symbol depends on, by order of appearance. */
  function DepIndices(log: seq<Event>): (g: seq<seq<nat>>)
    ensures |g| == |Names(log)|
  {
    seq(|Names(log)|, i requires 0 <= i < |Names(log)| => Indices(Names(log), DepsOf(log, Names(log)[i])))
  }

  lemma {:induction false} DepsNamed(log: seq<Event>, x: string)
    ensures forall d :: d in DepsOf(log, x) ==> d in Names(log)
  {
    hide AddNames;
    if log != [] {
      var n := |log| - 1;
      DepsNamed(log[..n], x);
      NamesOwn(log[..n]);
      NamesAdded(Names(log[..n]), Mention(log[n]));
    }
  }

  function GraphOf(log: seq<Event>): (g: SymbolOrder.Graph)
    ensures g == DepIndices(log)
  {
    var g := DepIndices(log);
    assert forall i, k :: 0 <= i < |g| && 0 <= k < |g[i]| ==> g[i][k] < |g| by {
      forall i, k | 0 <= i < |g| && 0 <= k < |g[i]| ensures g[i][k] < |g| {
        DepsNamed(log, Names(log)[i]);
        assert DepsOf(log, Names(log)[i])[k] in Names(log);
      }
    }
    g
  }

  /** The symbols of an order, by name. */
  function NamesIn(ns: seq<string>, order: seq<nat>): (xs: seq<string>)
    ensures |xs| == |order| && forall k :: 0 <= k < |order| ==> xs[k] == if order[k] < |ns| then ns[order[k]] else ""
  {
    seq(|order|, k requires 0 <= k < |order| => if order[k] < |ns| then ns[order[k]] else "")
  }

  // The whole program

  datatype Result = Assembled(text: string) | NonAsciiCharacter | ExpectedIdentifier | CircularReference

  /** What is read of a file: it ends at the first NUL. */
  function Read(input: string): Lexing {
    Lex(CString(input), false, false)
  }

  /** The token buffer. */
  function FileTokens(input: string): (t: seq<Token>)
    requires Read(input).Tokens?
    ensures Terminated(t)
  {
    LexedOk(CString(input), false, false);
    StoredTerminated(Read(input).raws);
    Stored(Read(input).raws)
  }

  /** Comments and strings are closed, no token is overlong, and every item ends in
      the file. */
  predicate Supported(input: string) {
    match Read(input)
    case Tokens(_) => FileReach(FileTokens(input), 0) != Endless
    case NonAscii => true
    case Unsupported => false
  }

  /** What is printed, in text. */
  function PrintAll(r: Parse, order: seq<nat>): string
    requires r.At? && InTokens(r.t, Output(r.log, NamesIn(Names(r.log), order)))
  {
    StmtsText(r.t, Output(r.log, NamesIn(Names(r.log), order)))
  }

  function Assemble(input: string): Result
    requires Supported(input)
  {
    match Read(input)
    case NonAscii => NonAsciiCharacter
    case Tokens(_) =>
      ParseMeets(FileTokens(input));
      match ParseTokens(FileTokens(input))
      case NoIdentifier => ExpectedIdentifier
      case At(t, log, pos) =>
        match SymbolOrder.Order(GraphOf(log))
        case None => CircularReference
        case Some(order) =>
          OutputInTokens(input, NamesIn(Names(log), order));
          Assembled(PrintAll(At(t, log, pos), order))
  }

  /** All statements printed lie in the buffer, whose strings have both quotes. */
  lemma OutputInTokens(input: string, order: seq<string>)
    requires Read(input).Tokens? && ParseTokens(FileTokens(input)).At?
    ensures var r := ParseTokens(FileTokens(input));
            InTokens(r.t, Output(r.log, order)) && QuotedStrings(r.t)
  {
    hide Lex, ParseTokens, Output, RawsOk, Stored, EndsAdded, SpacesKept, SafeEnds, SpacesAdded, NoFirstSpace,
      Terminated, Tiles;
    LexedOk(CString(input), false, false);
    var raws, t := Read(input).raws, FileTokens(input);
    ParseTiles(t);
    var r := ParseTokens(t);
    StringsQuoted(raws, r.t);
    forall s | s in Output(r.log, order) ensures s.lo <= s.hi <= |r.t| {
      var k := EventOf(r.log, order, s);
      PutBounds(r.log, |t| - 1, k);
    }
  }

  lemma StringsQuoted(raws: seq<Raw>, t: seq<Token>)
    requires RawsOk(raws) && Same(Stored(raws), t)
    ensures QuotedStrings(t)
  {
    forall i | 0 <= i < |t| && t[i].kind == String ensures |t[i].text| >= 2 {
      assert Stored(raws)[i].kind == String && RawOk(raws[i]);
    }
  }

  // The parsed symbols hold that graph

  lemma {:induction false} SymbolAt(symbols: seq<SymbolOrder.Symbol>, index: map<string, nat>, names: seq<string>,
      s: SymbolOrder.Symbol)
    requires Indexed(symbols, index, names) && s in symbols
    ensures s.key in names && IndexOf(names, s.key) == s.id < |symbols| && symbols[s.id] == s
  {
    var i :| 0 <= i < |symbols| && symbols[i] == s;
    assert symbols[i].id == i && names[i] == s.key;
    IndexUnique(names, i);
  }

  lemma IdsAreIndices(symbols: seq<SymbolOrder.Symbol>, index: map<string, nat>, names: seq<string>,
      deps: seq<SymbolOrder.Symbol>)
    requires Indexed(symbols, index, names) && forall d :: d in deps ==> d in symbols
    ensures SymbolOrder.Ids(deps) == Indices(names, KeysOf(deps))
  {
    forall k | 0 <= k < |deps| ensures deps[k].id == IndexOf(names, deps[k].key) {
      assert deps[k] in deps;
      SymbolAt(symbols, index, names, deps[k]);
    }
  }

  lemma ParsedGraph(p: Parser)
    requires p.Valid()
    ensures SymbolOrder.ValidSymbols(p.symbols) && SymbolOrder.Flags(p.symbols, {}, [])
    ensures SymbolOrder.DepGraph(p.symbols) == GraphOf(p.log)
  {
    hide PutsTo, DepsOf, Names, Reverse, HoldsStmts, SymbolOrder.DepLists;
    var names := Names(p.log);
    forall i | 0 <= i < |p.symbols|
      ensures SymbolOrder.DepLists(p.symbols)[i] == Indices(names, DepsOf(p.log, names[i]))
    {
      assert p.symbols[i].key == names[i];
      IdsAreIndices(p.symbols, p.index, names, p.symbols[i].deps);
    }
    assert SymbolOrder.DepLists(p.symbols) == DepIndices(p.log);
  }

  // Printing it all

  lemma {:induction false} TextOfAppend(t: seq<Token>, a: seq<Stmt>, b: seq<Stmt>)
    requires InTokens(t, a) && InTokens(t, b)
    ensures InTokens(t, a + b) && StmtsText(t, a + b) == StmtsText(t, a) + StmtsText(t, b)
  {
    hide StmtsText, StmtText, InTokens;
    AppendInit(a, b);
    BothIn(t, a, b);
    TextOfLast(t, b);
    if b != [] {
      TextOfLast(t, a + b);
      TextOfAppend(t, a, b[..|b| - 1]);
      AppendAssociates(StmtsText(t, a), StmtsText(t, b[..|b| - 1]), StmtText(t, b[|b| - 1]));
    }
  }

  lemma BothIn(t: seq<Token>, a: seq<Stmt>, b: seq<Stmt>)
    requires InTokens(t, a) && InTokens(t, b)
    ensures InTokens(t, a + b)
  {
  }

  lemma {:induction false} TextOfLast(t: seq<Token>, ss: seq<Stmt>)
    requires InTokens(t, ss)
    ensures ss == [] ==> StmtsText(t, ss) == ""
    ensures ss != [] ==>
      && InTokens(t, ss[..|ss| - 1]) && ss[|ss| - 1].lo <= ss[|ss| - 1].hi <= |t|
      && StmtsText(t, ss) == StmtsText(t, ss[..|ss| - 1]) + StmtText(t, ss[|ss| - 1])
  {
  }

  lemma InTokensParts(t: seq<Token>, a: seq<Stmt>, b: seq<Stmt>)
    requires InTokens(t, a + b)
    ensures InTokens(t, a) && InTokens(t, b)
  {
    forall i | 0 <= i < |a| ensures a[i].lo <= a[i].hi <= |t| { assert (a + b)[i] == a[i]; }
    forall i | 0 <= i < |b| ensures b[i].lo <= b[i].hi <= |t| { assert (a + b)[|a| + i] == b[i]; }
  }

  lemma ContentsReversed(nodes: seq<StmtNode>, stmts: seq<Stmt>)
    requires Contents(nodes) == Reverse(stmts)
    ensures Contents(Reverse(nodes)) == stmts
  {
    ReverseTwice(stmts);
    assert Contents(Reverse(nodes)) == Reverse(Contents(nodes));
  }

  /** Turns a list around and writes it. */
  method WriteList(out: string, toks: seq<Token>, head: StmtNode?, ghost nodes: seq<StmtNode>, ghost owner: Dest,
      ghost stmts: seq<Stmt>)
    returns (out': string)
    requires Held(head, nodes, owner, stmts) && InTokens(toks, stmts) && QuotedStrings(toks)
    modifies nodes`next
    ensures out' == out + StmtsText(toks, stmts)
  {
    hide Contents, Reverse, StmtsText, InTokens;
    ContentsReversed(nodes, stmts);
    var forward := RevStmts(head, nodes);
    out' := WriteStmts(out, toks, forward, Reverse(nodes));
  }

  /** The list of a symbol. */
  ghost predicate ListOf(sym: SymbolOrder.Symbol, log: seq<Event>)
    reads sym`stmts, sym`nodes, sym.nodes`next
  {
    Held(sym.stmts, sym.nodes, Var(sym.key), PutsTo(log, Var(sym.key)))
  }

  lemma Owners(head: StmtNode?, nodes: seq<StmtNode>, owner: Dest, stmts: seq<Stmt>)
    requires Held(head, nodes, owner, stmts)
    ensures forall n :: n in nodes ==> n.owner == owner
  {
  }

  lemma ListsHeld(symbols: seq<SymbolOrder.Symbol>, all: set<StmtNode>, log: seq<Event>, s: SymbolOrder.Symbol)
    requires HoldsStmts(symbols, all, log) && s in symbols
    ensures ListOf(s, log) && forall n :: n in s.nodes ==> n in all && n.owner == Var(s.key)
  {
    HeldStmts(symbols, all, log, s);
  }

  /** Writes the variables in order. */
  method WriteVariables(p: Parser, order: seq<SymbolOrder.Symbol>, out: string) returns (out': string)
    requires forall s :: s in order ==> ListOf(s, p.log) && forall n :: n in s.nodes ==>
      n in p.nodes && n.owner == Var(s.key)
    requires Distinct(KeysOf(order)) && Held(p.fns, p.fnNodes, Fns, PutsTo(p.log, Fns))
    requires InTokens(p.toks, VarPuts(p.log, KeysOf(order))) && QuotedStrings(p.toks)
    modifies p.nodes`next
    ensures out' == out + StmtsText(p.toks, VarPuts(p.log, KeysOf(order)))
    ensures Held(p.fns, p.fnNodes, Fns, PutsTo(p.log, Fns))
  {
    hide PutsTo, StmtsText, Held, VarPuts, InTokens, QuotedStrings;
    Owners(p.fns, p.fnNodes, Fns, PutsTo(p.log, Fns));
    ghost var ks := KeysOf(order);
    out' := out;
    NoVariables(p.toks, p.log, out);
    VarsIn(p.toks, p.log, ks, 0);
    assert ks[..0] == [] && ks[..|order|] == ks;
    for i := 0 to |order|
      invariant InTokens(p.toks, VarPuts(p.log, ks[..i]))
      invariant forall j :: i <= j < |order| ==> ListOf(order[j], p.log)
      invariant Held(p.fns, p.fnNodes, Fns, PutsTo(p.log, Fns))
      invariant out' == out + StmtsText(p.toks, VarPuts(p.log, ks[..i]))
    {
      VarsPrefix(p.toks, p.log, ks, i);
      AppendAssociates(out, StmtsText(p.toks, VarPuts(p.log, ks[..i])), StmtsText(p.toks, PutsTo(p.log, Var(ks[i]))));
      assert order[i] in order;
      out' := WriteList(out', p.toks, order[i].stmts, order[i].nodes, Var(ks[i]), PutsTo(p.log, Var(ks[i])));
    }
  }

  lemma NoVariables(t: seq<Token>, log: seq<Event>, out: string)
    ensures VarPuts(log, []) == [] && out + StmtsText(t, []) == out
  {
  }

  lemma {:induction false} VarsIn(t: seq<Token>, log: seq<Event>, order: seq<string>, i: nat)
    requires i <= |order| && InTokens(t, VarPuts(log, order))
    ensures InTokens(t, VarPuts(log, order[..i]))
  {
    if i < |order| {
      var n := |order| - 1;
      InTokensParts(t, VarPuts(log, order[..n]), PutsTo(log, Var(order[n])));
      VarsIn(t, log, order[..n], i);
      assert order[..n][..i] == order[..i];
    } else {
      assert order[..i] == order;
    }
  }

  lemma VarsPrefix(t: seq<Token>, log: seq<Event>, order: seq<string>, i: nat)
    requires i < |order| && InTokens(t, VarPuts(log, order))
    ensures InTokens(t, VarPuts(log, order[..i])) && InTokens(t, PutsTo(log, Var(order[i])))
      && InTokens(t, VarPuts(log, order[..i + 1]))
    ensures StmtsText(t, VarPuts(log, order[..i + 1])) ==
      StmtsText(t, VarPuts(log, order[..i])) + StmtsText(t, PutsTo(log, Var(order[i])))
  {
    VarsIn(t, log, order, i + 1);
    assert order[..i + 1][..i] == order[..i];
    InTokensParts(t, VarPuts(log, order[..i]), PutsTo(log, Var(order[i])));
    TextOfAppend(t, VarPuts(log, order[..i]), PutsTo(log, Var(order[i])));
  }

  /** Writes declarations, variables and functions. */
  method WriteAll(p: Parser, order: seq<SymbolOrder.Symbol>) returns (out: string)
    requires HeldIn(p.decls, p.declNodes, p.nodes, Decls, PutsTo(p.log, Decls))
    requires HeldIn(p.fns, p.fnNodes, p.nodes, Fns, PutsTo(p.log, Fns)) && HoldsStmts(p.symbols, p.nodes, p.log)
    requires (forall s :: s in order ==> s in p.symbols) && Distinct(KeysOf(order))
    requires InTokens(p.toks, Output(p.log, KeysOf(order))) && QuotedStrings(p.toks)
    modifies p.nodes`next
    ensures out == StmtsText(p.toks, Output(p.log, KeysOf(order)))
  {
    hide PutsTo, VarPuts, Names, StmtsText, HoldsStmts, HoldsDeps, NoFlags, Indexed, Chain, Contents, InTokens,
      QuotedStrings;
    ghost var d, v, f := PutsTo(p.log, Decls), VarPuts(p.log, KeysOf(order)), PutsTo(p.log, Fns);
    InTokensParts(p.toks, d + v, f);
    InTokensParts(p.toks, d, v);
    TextOfAppend(p.toks, d, v);
    TextOfAppend(p.toks, d + v, f);
    Owners(p.decls, p.declNodes, Decls, d);
    Owners(p.fns, p.fnNodes, Fns, f);
    forall s | s in order
      ensures ListOf(s, p.log) && forall n :: n in s.nodes ==> n in p.nodes && n.owner == Var(s.key) {
      ListsHeld(p.symbols, p.nodes, p.log, s);
    }
    forall i {:trigger p.fnNodes[i]} | 0 <= i < |p.fnNodes| ensures p.fnNodes[i] !in p.declNodes {
      assert p.fnNodes[i] in p.fnNodes;
    }
    out := WriteList("", p.toks, p.decls, p.declNodes, Decls, d);
    out := WriteVariables(p, order, out);
    out := WriteList(out, p.toks, p.fns, p.fnNodes, Fns, f);
    assert out == "" + StmtsText(p.toks, d) + StmtsText(p.toks, v) + StmtsText(p.toks, f);
  }

  lemma OrderedKeys(symbols: seq<SymbolOrder.Symbol>, index: map<string, nat>, names: seq<string>,
      out: seq<SymbolOrder.Symbol>, order: seq<nat>)
    requires Indexed(symbols, index, names) && (forall s :: s in out ==> s in symbols) && SymbolOrder.Ids(out) == order
    ensures KeysOf(out) == NamesIn(names, order)
  {
    forall k | 0 <= k < |out| ensures KeysOf(out)[k] == NamesIn(names, order)[k] {
      assert out[k] in out;
      SymbolAt(symbols, index, names, out[k]);
      assert KeysOf(symbols)[out[k].id] == names[out[k].id];
    }
  }

  lemma EmptyFile(input: string)
    requires CString(input) == ""
    ensures Supported(input) && Assemble(input) == Assembled("")
  {
    var raws := [Raw(Eof, "", false, false)];
    assert Read(input) == Tokens(raws);
    var t := FileTokens(input);
    var r := At(t, [], 0);
    assert ParseFile(r) == r;
    assert ParseTokens(t) == r;
    assert Names([]) == [];
  }

  /** The assembler's main computation. */
  method Run(input: string) returns (r: Result)
    requires Supported(input)
    ensures r == Assemble(input)
  {
    hide Lex, Stored, ParseTokens, FileReach, Parser.ValidFor, PrintAll;
    var text := CString(input);
    if text == "" {
      EmptyFile(input);
      return Assembled("");
    }
    var toks := Tokenize(text);
    if toks == None {
      return NonAsciiCharacter;
    }
    ParseMeets(toks.value);
    var p := new Parser(toks.value);
    var ok := p.ParseWhole();
    if !ok {
      return ExpectedIdentifier;
    }
    r := Emit(p, input);
  }

  /** Orders the variables and prints. */
  method Emit(p: Parser, input: string) returns (r: Result)
    requires p.Valid() && Supported(input) && Read(input).Tokens?
    requires var parsed := ParseTokens(FileTokens(input));
             parsed.At? && p.toks == parsed.t && p.log == parsed.log
    modifies p.symbols`pending, p.symbols`emitted, p.nodes`next
    ensures r == Assemble(input)
  {
    hide Lex, Stored, FileTokens, ParseTokens, FileReach, Names, GraphOf, PutsTo, HeldIn, HoldsStmts, HoldsDeps,
      Indexed, SymbolOrder.DepGraph, SymbolOrder.Order, SymbolOrder.Acyclic;
    ParsedGraph(p);
    var order := SymbolOrder.OrderSymbols(p.symbols);
    if order == None {
      return CircularReference;
    }
    OrderedKeys(p.symbols, p.index, Names(p.log), order.value, SymbolOrder.Order(GraphOf(p.log)).value);
    OutputInTokens(input, KeysOf(order.value));
    OrderIsSound(p.log);
    var text := WriteAll(p, order.value);
    r := Assembled(text);
  }

  // What holds of every file

  /** The names of the variables in the order printed. */
  function PrintedOrder(log: seq<Event>): seq<string>
    requires SymbolOrder.Order(GraphOf(log)).Some?
  {
    NamesIn(Names(log), SymbolOrder.Order(GraphOf(log)).value)
  }

  /** The order is found just when no initialiser depends on itself, even by way of
      others; it holds every symbol once, each after all its initialiser uses. */
  lemma OrderIsSound(log: seq<Event>)
    ensures SymbolOrder.Order(GraphOf(log)).Some? <==> SymbolOrder.Acyclic(GraphOf(log))
    ensures SymbolOrder.Order(GraphOf(log)).Some? ==>
      var xs := PrintedOrder(log);
      && Distinct(xs) && Owned(log, xs)
      && (forall x :: x in xs <==> x in Names(log))
      && (forall i, d :: 0 <= i < |xs| && d in DepsOf(log, xs[i]) ==> d in xs[..i])
  {
    hide SymbolOrder.Order, SymbolOrder.Acyclic, DepsOf, AddNames;
    SymbolOrder.OrderCorrect(GraphOf(log));
    if SymbolOrder.Order(GraphOf(log)).Some? {
      var order, ns, xs := SymbolOrder.Order(GraphOf(log)).value, Names(log), PrintedOrder(log);
      NamesOwn(log);
      OrderNames(ns, order);
      forall i, d | 0 <= i < |xs| && d in DepsOf(log, xs[i]) ensures d in xs[..i] {
        assert order[i] in order;
        var k :| 0 <= k < |DepsOf(log, xs[i])| && DepsOf(log, xs[i])[k] == d;
        DepsNamed(log, xs[i]);
        assert GraphOf(log)[order[i]][k] == IndexOf(ns, d);
        assert IndexOf(ns, d) in order[..i];
        var j :| 0 <= j < i && order[j] == IndexOf(ns, d);
        assert xs[..i][j] == d;
      }
    }
  }

  lemma OrderNames(ns: seq<string>, order: seq<nat>)
    requires Distinct(ns) && Distinct(order) && forall x: nat :: x in order <==> x < |ns|
    ensures var xs := NamesIn(ns, order); Distinct(xs) && forall x :: x in xs <==> x in ns
  {
    var xs := NamesIn(ns, order);
    assert forall k :: 0 <= k < |order| ==> order[k] in order;
    forall x | x in ns ensures x in xs {
      var i: nat :| i < |ns| && ns[i] == x;
      assert i in order;
      var k :| 0 <= k < |order| && order[k] == i;
      assert xs[k] == x;
    }
  }

  /** The statements of an assembled file, as printed. */
  function PrintedStmts(input: string): seq<Stmt>
    requires Supported(input) && Assemble(input).Assembled?
  {
    var log := ParseTokens(FileTokens(input)).log;
    Output(log, PrintedOrder(log))
  }

  /** In a file that is assembled every token is printed exactly once, but for those
      that belong to no item, which are not printed; and every list is in source
      order. */
  lemma TokensConserved(input: string, i: nat, dest: Dest)
    requires Supported(input) && Assemble(input).Assembled?
    ensures var t, out := FileTokens(input), PrintedStmts(input);
            && (i < |t| - 1 ==> if Lost(t, 0, i) then forall s :: s in out ==> !Covers(s, i) else Once(out, i))
            && InSourceOrder(PutsTo(ParseTokens(t).log, dest), 0, |t| - 1)
  {
    hide Lex, ParseTokens, Output, FileTokens, FileReach, Same, EndsAdded, SpacesKept, SafeEnds, SpacesAdded,
      NoFirstSpace, Terminated, Tiles, Dropped, Lost, Covers, InSourceOrder, PutsTo, GraphOf, Names, SymbolOrder.Order;
    var t := FileTokens(input);
    ParseTiles(t);
    var log := ParseTokens(t).log;
    OrderIsSound(log);
    ListsInOrder(log, dest, 0, |t| - 1);
    if i < |t| - 1 {
      PrintedOnce(log, PrintedOrder(log), |t| - 1, i);
      DroppedIsLost(t, i);
    }
  }

  // The output is a C string

  /** What is printed holds no NUL, so it is read as a whole. */
  lemma PrintedNulFree(input: string)
    requires Supported(input) && Assemble(input).Assembled?
    ensures CString(Assemble(input).text) == Assemble(input).text
  {
    hide Lex, ParseTokens, Output, CString, NulFree, StmtsText, FileReach, GraphOf, Names, SymbolOrder.Order, Same,
      Tiles, EndsAdded, SpacesKept, SafeEnds, SpacesAdded, NoFirstSpace;
    var t := FileTokens(input);
    var r := ParseTokens(t);
    ParseMeets(t);
    ParseTiles(t);
    LexedNulFree(CString(input), false, false);
    SameNulFree(t, r.t);
    OutputInTokens(input, PrintedOrder(r.log));
    StmtsNulFree(r.t, PrintedStmts(input));
    WholeString(Assemble(input).text);
  }

  /** Tokenising an assembled file gives back the tokens of its statements, just when
      none of their strings holds a backslash. */
  lemma AssembledRoundTrip(input: string)
    requires Supported(input) && Assemble(input).Assembled? && PlainFile(FileTokens(input))
    ensures CString(Assemble(input).text) == Assemble(input).text
    ensures var t, ss := ParseTokens(FileTokens(input)).t, PrintedStmts(input);
            InTokens(t, ss) &&
            (LexesTo(Assemble(input).text, false, StmtKindText(t, ss)) <==>
               forall j :: 0 <= j < |ss| ==> NoBackslashes(t, ss[j]))
  {
    hide Lex, ParseTokens, Output, Stored, GraphOf, Names, SymbolOrder.Order, LexesTo, StmtKindText, NoBackslashes,
      StmtsText, FileReach, PlainItems;
    ParseMeets(FileTokens(input));
    PrintedNulFree(input);
    PrintTokeniseRoundTrip(CString(input), PrintedOrder(ParseTokens(FileTokens(input)).log));
  }
}
