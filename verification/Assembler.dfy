/** The parser of nvptx-as in memory: token flags, statement lists and symbols are
    updated in place, as the value model says. */
module Assembler {
  import opened Common
  import opened Tokenizer
  import opened Statements
  import opened StmtLists
  import opened ParserSpec
  import opened ParserFacts
  import opened Conservation
  import SymbolOrder

  /** The list a statement is put at the front of. */
  datatype Where = ToDecls | ToFns | ToSymbol(sym: SymbolOrder.Symbol)

  function DestOf(w: Where): Dest {
    match w
    case ToDecls => Decls
    case ToFns => Fns
    case ToSymbol(sym) => Var(sym.key)
  }

  /** The names of symbols. */
  function KeysOf(s: seq<SymbolOrder.Symbol>): (ks: seq<string>)
    ensures |ks| == |s| && forall i :: 0 <= i < |s| ==> ks[i] == s[i].key
  {
    seq(|s|, i requires 0 <= i < |s| => s[i].key)
  }

  /** The symbols are in order of appearance, and found by their names. */
  ghost predicate Indexed(symbols: seq<SymbolOrder.Symbol>, index: map<string, nat>, names: seq<string>) {
    && KeysOf(symbols) == names && Distinct(names)
    && (forall i {:trigger symbols[i]} :: 0 <= i < |symbols| ==> symbols[i].id == i)
    && (forall x {:trigger index[x]} :: x in index ==> index[x] < |names| && names[index[x]] == x)
    && (forall i {:trigger names[i]} :: 0 <= i < |names| ==> names[i] in index && index[names[i]] == i)
  }

  /** Each symbol holds its statements, last first, in nodes of `all`. */
  ghost predicate HoldsStmts(symbols: seq<SymbolOrder.Symbol>, all: set<StmtNode>, log: seq<Event>)
    reads symbols`stmts, symbols`nodes, all`next
  {
    forall i :: 0 <= i < |symbols| ==> HoldsAt(symbols[i], all, log)
  }

  ghost predicate HoldsAt(sym: SymbolOrder.Symbol, all: set<StmtNode>, log: seq<Event>)
    reads sym`stmts, sym`nodes, all`next
  {
    HeldIn(sym.stmts, sym.nodes, all, Var(sym.key), PutsTo(log, Var(sym.key)))
  }

  ghost predicate HeldIn(head: StmtNode?, nodes: seq<StmtNode>, all: set<StmtNode>, owner: Dest, stmts: seq<Stmt>)
    reads all`next
  {
    (forall n :: n in nodes ==> n in all) && Held(head, nodes, owner, stmts)
  }

  /** Each symbol holds its dependencies. */
  ghost predicate HoldsDeps(symbols: seq<SymbolOrder.Symbol>, log: seq<Event>)
    reads symbols`deps
  {
    && (forall i {:trigger symbols[i].deps} :: 0 <= i < |symbols| ==>
      KeysOf(symbols[i].deps) == DepsOf(log, symbols[i].key))
    && (forall i, d {:trigger d in symbols[i].deps} :: 0 <= i < |symbols| && d in symbols[i].deps ==> d in symbols)
  }

  ghost predicate NoFlags(symbols: seq<SymbolOrder.Symbol>)
    reads symbols`pending, symbols`emitted
  {
    && (forall i {:trigger symbols[i].pending} :: 0 <= i < |symbols| ==> !symbols[i].pending)
    && (forall i {:trigger symbols[i].emitted} :: 0 <= i < |symbols| ==> !symbols[i].emitted)
  }

  /** An event about other things changes nothing for the symbols. */
  lemma StmtsStay(symbols: seq<SymbolOrder.Symbol>, all: set<StmtNode>, log: seq<Event>, e: Event)
    requires HoldsStmts(symbols, all, log) && (e.Put? ==> !e.dest.Var?)
    ensures HoldsStmts(symbols, all, log + [e])
  {
    hide PutsTo, Held;
    forall i | 0 <= i < |symbols| ensures HoldsAt(symbols[i], all, log + [e]) {
      PutsElsewhere(log, e, Var(symbols[i].key));
    }
  }

  /** A statement that goes to another list. */
  lemma PutsElsewhere(log: seq<Event>, e: Event, dest: Dest)
    requires !(e.Put? && e.dest == dest)
    ensures PutsTo(log + [e], dest) == PutsTo(log, dest)
  {
    PutsMore(log, e, dest);
  }

  /** A statement that goes to this list. */
  lemma PutsHere(log: seq<Event>, dest: Dest, stmt: Stmt)
    ensures PutsTo(log + [Put(dest, stmt)], dest) == PutsTo(log, dest) + [stmt]
  {
    PutsMore(log, Put(dest, stmt), dest);
  }

  lemma DepsStay(symbols: seq<SymbolOrder.Symbol>, log: seq<Event>, e: Event)
    requires HoldsDeps(symbols, log) && !e.Depend?
    ensures HoldsDeps(symbols, log + [e])
  {
    hide DepsOf;
    forall i {:trigger symbols[i].deps} | 0 <= i < |symbols|
      ensures KeysOf(symbols[i].deps) == DepsOf(log + [e], symbols[i].key) {
      DepsMore(log, e, symbols[i].key);
      assert DepsOf(log, symbols[i].key) + [] == DepsOf(log, symbols[i].key);
    }
  }

  lemma NamesMore(log: seq<Event>, e: Event)
    ensures Names(log + [e]) == AddNames(Names(log), Mention(e))
  {
    assert (log + [e])[..|log|] == log;
  }

  /** Names already there are not added again. */
  lemma AddPresent(ns: seq<string>, xs: seq<string>)
    requires forall x :: x in xs ==> x in ns
    ensures AddNames(ns, xs) == ns
  {
    if xs != [] { AddPresent(ns, xs[1..]); }
  }

  lemma DepsMore(log: seq<Event>, e: Event, x: string)
    ensures DepsOf(log + [e], x) == DepsOf(log, x) + if e.Depend? && e.name == x then [e.dep] else []
  {
    assert (log + [e])[..|log|] == log;
  }

  lemma IndexedMore(symbols: seq<SymbolOrder.Symbol>, index: map<string, nat>, names: seq<string>,
      sym: SymbolOrder.Symbol)
    requires Indexed(symbols, index, names) && sym.key !in index && sym.id == |symbols|
    ensures Indexed(symbols + [sym], index[sym.key := |symbols|], names + [sym.key])
    ensures sym.key !in names
  {
  }

  lemma NotIndexed(symbols: seq<SymbolOrder.Symbol>, index: map<string, nat>, names: seq<string>, x: string)
    requires Indexed(symbols, index, names)
    ensures x in index <==> x in names
  {
    if x in names {
      var i :| 0 <= i < |names| && names[i] == x;
    }
    if x in index { assert names[index[x]] == x; }
  }

  lemma HoldsMore(symbols: seq<SymbolOrder.Symbol>, all: set<StmtNode>, log: seq<Event>, sym: SymbolOrder.Symbol)
    requires HoldsStmts(symbols, all, log) && HoldsDeps(symbols, log) && NoFlags(symbols)
    requires sym.key !in Names(log) && sym.stmts == null && sym.nodes == [] && sym.deps == [] && !sym.pending
      && !sym.emitted
    ensures HoldsStmts(symbols + [sym], all, log) && HoldsDeps(symbols + [sym], log) && NoFlags(symbols + [sym])
  {
    hide PutsTo, DepsOf, Names, Reverse;
    OwnsNothing(log, sym.key);
    NoneHeld(Var(sym.key));
  }

  /** The value from `p` on ends in ';'. */
  predicate EndsInit(t: seq<Token>, p: nat) {
    InitScan(t, p, None).Some? && Is(t, InitScan(t, p, None).value.0, ';')
  }

  class Parser {
    var toks: seq<Token>
    var decls: StmtNode?
    var fns: StmtNode?
    ghost var declNodes: seq<StmtNode>
    ghost var fnNodes: seq<StmtNode>
    ghost var nodes: set<StmtNode>
    var symbols: seq<SymbolOrder.Symbol>
    var index: map<string, nat>
    ghost var log: seq<Event>

    ghost predicate Valid()
      reads `decls, `fns, `declNodes, `fnNodes, `nodes, `symbols, `index, `log, symbols, nodes`next
    {
      ValidFor(Names(log))
    }

    /** The lists are those of the log, and the symbols have these names. */
    ghost predicate ValidFor(names: seq<string>)
      reads `decls, `fns, `declNodes, `fnNodes, `nodes, `symbols, `index, `log, symbols, nodes`next
    {
      && HeldIn(decls, declNodes, nodes, Decls, PutsTo(log, Decls))
        && HeldIn(fns, fnNodes, nodes, Fns, PutsTo(log, Fns))
      && Indexed(symbols, index, names)
      && HoldsStmts(symbols, nodes, log) && HoldsDeps(symbols, log) && NoFlags(symbols)
    }

    /** Where the parser is. */
    ghost function Here(tok: nat): (r: Parse)
      reads this
      ensures r.At?
    {
      At(toks, log, tok)
    }

    /** Symbols are only added. */
    twostate predicate Grown()
      reads this
    {
      old(symbols) <= symbols && forall i :: |old(symbols)| <= i < |symbols| ==> fresh(symbols[i])
    }

    twostate predicate NodesGrown()
      reads this
    {
      old(nodes) <= nodes && fresh(nodes - old(nodes))
    }

    constructor (toks: seq<Token>)
      ensures nodes == {}
      ensures Valid() && this.toks == toks && log == [] && symbols == []
    {
      this.toks := toks;
      decls, fns, symbols := null, null, [];
      declNodes, fnNodes, nodes := [], [], {};
      index := map[];
      log := [];
    }

    /** Finds the symbol of a name, creating it if there is none. */
    method SymbolHashLookup(x: string) returns (sym: SymbolOrder.Symbol)
      requires Valid()
      modifies `symbols, `index
      ensures Grown() && sym in symbols && sym.key == x && ValidFor(AddName(Names(log), x))
    {
      hide PutsTo, DepsOf, Names, HeldIn, HoldsStmts, HoldsDeps, NoFlags;
      if x in index {
        sym := symbols[index[x]];
      } else {
        sym := CreateSymbol(x);
      }
    }

    method CreateSymbol(x: string) returns (sym: SymbolOrder.Symbol)
      requires Valid() && x !in index
      modifies `symbols, `index
      ensures fresh(sym) && symbols == old(symbols) + [sym] && sym.key == x && ValidFor(Names(log) + [x])
    {
      hide HoldsStmts, HoldsDeps, NoFlags, Names, PutsTo, HeldIn, Indexed;
      NotIndexed(symbols, index, Names(log), x);
      sym := new SymbolOrder.Symbol(x, |symbols|);
      IndexedMore(symbols, index, Names(log), sym);
      HoldsMore(symbols, nodes, log, sym);
      index := index[x := |symbols|];
      symbols := symbols + [sym];
    }

    /** The symbol a statement defines. */
    method DefSymbol(x: string) returns (sym: SymbolOrder.Symbol)
      requires Valid()
      modifies `symbols, `index, `log
      ensures Grown() && Valid() && sym in symbols && sym.key == x && log == old(log) + [Touch(x)]
    {
      hide PutsTo, Names, HoldsStmts, HoldsDeps, NoFlags, Indexed, HeldIn;
      sym := SymbolHashLookup(x);
      OtherListsStay(log, Touch(x));
      NamesMore(log, Touch(x));
      StmtsStay(symbols, nodes, log, Touch(x));
      DepsStay(symbols, log, Touch(x));
      log := log + [Touch(x)];
    }

    /** Notes that the initialiser of `sym` uses symbol `x`. */
    method AddDep(sym: SymbolOrder.Symbol, x: string)
      requires Valid() && sym in symbols
      modifies `symbols, `index, `log, symbols`deps
      ensures Grown() && Valid() && log == old(log) + [Depend(sym.key, x)]
    {
      hide PutsTo, Names, HoldsStmts, HoldsDeps, NoFlags, Indexed, HeldIn, DepsOf, KeysOf, AddNames;
      ghost var e, names := Depend(sym.key, x), Names(log);
      IndexedKeys(symbols, index, names, sym);
      var dep := SymbolHashLookup(x);
      OtherListsStay(log, e);
      NamesMore(log, e);
      AddPair(names, sym.key, x);
      StmtsStay(symbols, nodes, log, e);
      IndexedDistinct(symbols, index, AddName(names, x));
      PushDep(sym, dep, symbols, log);
      log := log + [e];
    }

    /** Puts a statement at the front of a list. */
    method AppendStmt(w: Where, stmt: Stmt)
      requires Valid() && (w.ToSymbol? ==> w.sym in symbols)
      modifies `decls, `fns, `declNodes, `fnNodes, `nodes, `log, symbols`stmts, symbols`nodes
      ensures NodesGrown()
      ensures Valid() && log == old(log) + [Put(DestOf(w), stmt)]
    {
      hide Parser.Valid;
      match w {
        case ToDecls => AppendDecl(stmt);
        case ToFns => AppendFn(stmt);
        case ToSymbol(sym) => AppendVar(sym, stmt);
      }
    }

    /** What a statement that goes to no symbol leaves as it is. */
    lemma SymbolsStay(e: Event)
      requires Valid() && e.Put? && !e.dest.Var?
      ensures HoldsStmts(symbols, nodes, log + [e]) && HoldsDeps(symbols, log + [e]) && Names(log + [e]) == Names(log)
    {
      hide DepsOf, Names, Held, PutsTo, HoldsStmts, HoldsDeps, NoFlags, KeysOf, Indexed;
      NamesMore(log, e);
      AddPresent(Names(log), []);
      DepsStay(symbols, log, e);
      StmtsStay(symbols, nodes, log, e);
    }

    method AppendDecl(stmt: Stmt)
      requires Valid()
      modifies `decls, `declNodes, `nodes, `log
      ensures NodesGrown()
      ensures Valid() && log == old(log) + [Put(Decls, stmt)]
    {
      hide DepsOf, Names, Held, HeldIn, PutsTo, HoldsStmts, HoldsDeps, NoFlags, KeysOf, Indexed, Mention, AddNames;
      ghost var e, all := Put(Decls, stmt), nodes;
      SymbolsStay(e);
      PutsElsewhere(log, e, Fns);
      PutsHere(log, Decls, stmt);
      HeldOf(decls, declNodes, all, Decls, PutsTo(log, Decls));
      decls := StmtLists.AppendStmt(decls, stmt, declNodes, Decls, PutsTo(log, Decls));
      declNodes, nodes, log := [decls] + declNodes, nodes + {decls}, log + [e];
      HeldOf(decls, declNodes, nodes, Decls, PutsTo(log, Decls));
      HeldWider(fns, fnNodes, all, nodes, Fns, PutsTo(log, Fns));
      HoldsWider(symbols, all, nodes, log);
    }

    method AppendFn(stmt: Stmt)
      requires Valid()
      modifies `fns, `fnNodes, `nodes, `log
      ensures NodesGrown()
      ensures Valid() && log == old(log) + [Put(Fns, stmt)]
    {
      hide DepsOf, Names, Held, HeldIn, PutsTo, HoldsStmts, HoldsDeps, NoFlags, KeysOf, Indexed, Mention, AddNames;
      ghost var e, all := Put(Fns, stmt), nodes;
      SymbolsStay(e);
      PutsElsewhere(log, e, Decls);
      PutsHere(log, Fns, stmt);
      HeldOf(fns, fnNodes, all, Fns, PutsTo(log, Fns));
      fns := StmtLists.AppendStmt(fns, stmt, fnNodes, Fns, PutsTo(log, Fns));
      fnNodes, nodes, log := [fns] + fnNodes, nodes + {fns}, log + [e];
      HeldOf(fns, fnNodes, nodes, Fns, PutsTo(log, Fns));
      HeldWider(decls, declNodes, all, nodes, Decls, PutsTo(log, Decls));
      HoldsWider(symbols, all, nodes, log);
    }

    method AppendVar(sym: SymbolOrder.Symbol, stmt: Stmt)
      requires Valid() && sym in symbols
      modifies `nodes, `log, sym`stmts, sym`nodes
      ensures NodesGrown()
      ensures Valid() && log == old(log) + [Put(Var(sym.key), stmt)]
    {
      hide DepsOf, Names, HeldIn, PutsTo, HoldsStmts, HoldsDeps, NoFlags, KeysOf, AddNames;
      ghost var e := Put(Var(sym.key), stmt);
      NamesMore(log, e);
      DepsStay(symbols, log, e);
      KeyIn(symbols, sym);
      AddPresent(Names(log), [sym.key]);
      PutsElsewhere(log, e, Decls);
      PutsElsewhere(log, e, Fns);
      ghost var all := nodes;
      nodes := PutAtSymbol(sym, stmt, symbols, nodes, log);
      log := log + [e];
      HeldWider(decls, declNodes, all, nodes, Decls, PutsTo(log, Decls));
      HeldWider(fns, fnNodes, all, nodes, Fns, PutsTo(log, Fns));
    }

    // Parsing

    /** Makes a statement of the tokens up to `hi`. */
    method AllocStmt(w: Where, vis: Vis, lo: nat, hi: nat)
      requires Valid() && lo < |toks| && (w.ToSymbol? ==> w.sym in symbols)
      modifies `toks, `decls, `fns, `declNodes, `fnNodes, `nodes, `log, symbols`stmts, symbols`nodes
      ensures NodesGrown()
      ensures Valid() && Here(hi) == old(NewStmt(Here(lo), DestOf(w), vis, lo, hi))
    {
      hide Parser.Valid;
      toks := toks[lo := toks[lo].(space := false)];
      AppendStmt(w, Stmt(vis, lo, hi));
    }

    /** The same, with a comment that follows on its line. */
    method FinishStmt(w: Where, vis: Vis, lo: nat, hi: nat) returns (tok: nat)
      requires Valid() && lo < hi <= |toks| && (w.ToSymbol? ==> w.sym in symbols)
      requires Finish(Here(lo), DestOf(w), vis, lo, hi).At?
      modifies `toks, `decls, `fns, `declNodes, `fnNodes, `nodes, `log, symbols`stmts, symbols`nodes
      ensures NodesGrown()
      ensures Valid() && Here(tok) == old(Finish(Here(lo), DestOf(w), vis, lo, hi))
    {
      hide Parser.Valid;
      tok := hi;
      if !toks[hi - 1].end && toks[hi].kind == Comment {
        AllocStmt(w, vis.(noEol := true), lo, hi);
        AllocStmt(w, Plain(COMMENT), hi, hi + 1);
        tok := hi + 1;
      } else {
        AllocStmt(w, vis, lo, hi);
      }
    }

    /** Parses a line until its end, regardless of semicolons. */
    method ParseLineNosemi(w: Where, vis: Vis, start: nat) returns (tok: nat)
      requires Valid() && start < |toks| && (w.ToSymbol? ==> w.sym in symbols)
      requires ParseLine(Here(start), DestOf(w), vis).At?
      modifies `toks, `decls, `fns, `declNodes, `fnNodes, `nodes, `log, symbols`stmts, symbols`nodes
      ensures NodesGrown()
      ensures Valid() && Here(tok) == old(ParseLine(Here(start), DestOf(w), vis))
    {
      hide Parser.Valid;
      tok := start;
      while !toks[tok].end
        invariant start <= tok < |toks| && LineEnd(toks, start) == LineEnd(toks, tok)
        decreases |toks| - tok
      {
        tok := tok + 1;
      }
      tok := tok + 1;
      AllocStmt(w, vis, start, tok);
    }

    method SkipComments(start: nat) returns (tok: nat)
      ensures tok == CommentEnd(toks, start)
    {
      tok := start;
      while tok < |toks| && toks[tok].kind == Comment
        invariant CommentEnd(toks, start) == CommentEnd(toks, tok)
        decreases |toks| - tok
      {
        tok := tok + 1;
      }
    }

    /** A guard predicate. */
    method ParseGuard(start: nat) returns (tok: nat)
      requires Valid() && start + 1 < |toks| && ParsePred(Here(start)).At?
      modifies `toks, `decls, `fns, `declNodes, `fnNodes, `nodes, `log, symbols`stmts, symbols`nodes
      ensures NodesGrown()
      ensures Valid() && Here(tok) == old(ParsePred(Here(start)))
    {
      hide Parser.Valid, Finish, ClearSpace;
      tok := start + 1;
      if toks[tok].kind == Char('!') {
        toks := ClearSpace(toks, tok);
        tok := tok + 1;
      }
      toks := ClearSpace(toks, tok);
      tok := FinishStmt(ToFns, Plain(PRED), start, tok + 1);
    }

    /** An instruction, up to its ';'. */
    method ParseSemi(start: nat) returns (tok: nat)
      requires Valid() && start < |toks| && ParsePlainInsn(Here(start)).At?
      modifies `toks, `decls, `fns, `declNodes, `fnNodes, `nodes, `log, symbols`stmts, symbols`nodes
      ensures NodesGrown()
      ensures Valid() && Here(tok) == old(ParsePlainInsn(Here(start)))
    {
      hide Parser.Valid;
      hide Finish;
      tok := start + 1;
      while toks[tok].kind != Char(';')
        invariant NodesGrown() && Valid() && start < tok < |toks| == |old(toks)| && log == old(log)
          && symbols == old(symbols)
        invariant SemiScan(toks, tok) == SemiScan(old(toks), start + 1)
        decreases |toks| - tok
      {
        if toks[tok].kind == Char(',') {
          toks := ClearSpace(toks, tok + 1);
        }
        tok := tok + 1;
      }
      toks := toks[tok := toks[tok].(end := true)];
      tok := FinishStmt(ToFns, Plain(INSN), start, tok + 1);
    }

    /** One step in a function's body. */
    method ParseStep(start: nat) returns (tok: nat)
      requires Valid() && start < |toks| && Insn(Here(start)).At?
      modifies `toks, `decls, `fns, `declNodes, `fnNodes, `nodes, `log, symbols`stmts, symbols`nodes
      ensures NodesGrown()
      ensures Valid() && Here(tok) == old(Insn(Here(start)))
    {
      hide Parser.Valid, ParsePred, ParsePlainInsn, Finish, ParseLine;
      var first := toks[start];
      if first.kind == Dotted {
        if IsKeyword(first, "file") {
          tok := ParseLineNosemi(ToDecls, Plain(DOT), start);
          return;
        }
        if IsKeyword(first, "loc") {
          tok := ParseLineNosemi(ToFns, Plain(DOT), start);
          return;
        }
      }
      match first.kind {
        case Comment =>
          tok := SkipComments(start + 1);
          AllocStmt(ToFns, Plain(COMMENT), start, tok);
        case Label =>
          toks := toks[start := first.(end := true)];
          tok := FinishStmt(ToFns, Plain(LABEL), start, start + 1);
        case Char(c) =>
          if c == '{' || c == '}' {
            tok := FinishStmt(ToFns, Plain(INSN), start, start + 1);
          } else if c == '@' {
            tok := ParseGuard(start);
          } else {
            tok := ParseSemi(start);
          }
        case _ => tok := ParseSemi(start);
      }
    }

    /** A function's body. */
    method ParseInsn(start: nat) returns (tok: nat)
      requires Valid() && start < |toks| && (Is(toks, start, '{') || IsComment(toks, start))
        && Insns(Here(start), 0).At?
      modifies `toks, `decls, `fns, `declNodes, `fnNodes, `nodes, `log, symbols`stmts, symbols`nodes
      ensures NodesGrown()
      ensures Valid() && Here(tok) == old(Insns(Here(start), 0))
    {
      hide Parser.Valid, Insn;
      var depth: nat := 0;
      tok := start;
      while true
        invariant NodesGrown() && Valid() && tok < |toks| == |old(toks)| && symbols == old(symbols)
        invariant depth == 0 ==> !Is(toks, tok, '}')
        invariant Insns(Here(tok), depth) == old(Insns(Here(start), 0))
        decreases |toks| - tok
      {
        if toks[tok].kind == Char('{') {
          depth := depth + 1;
        } else if toks[tok].kind == Char('}') {
          depth := depth - 1;
        }
        tok := ParseStep(tok);
        if depth == 0 {
          return;
        }
      }
    }

    // Initialisers

    /** The next ',' or ';', and the last symbol before it. */
    method FindValueEnd(start: nat) returns (tok: nat, def: Option<nat>)
      requires InitScan(toks, start, None).Some?
      ensures InitScan(toks, start, None) == Some((tok, def))
    {
      tok, def := start, None;
      while toks[tok].kind != Char(',') && toks[tok].kind != Char(';')
        invariant start <= tok < |toks| && (def.Some? ==> def.value < |toks|)
        invariant InitScan(toks, start, None) == InitScan(toks, tok, def)
        decreases |toks| - tok
      {
        if toks[tok].kind == Symbol || toks[tok].kind == Ident {
          def := Some(tok);
        }
        tok := tok + 1;
      }
    }

    /** Comments before a value, and no space after the brace it begins with. */
    method ParseInitStart(sym: SymbolOrder.Symbol, start: nat) returns (tok: nat)
      requires Valid() && start < |toks| && sym in symbols
      modifies `toks, `decls, `fns, `declNodes, `fnNodes, `nodes, `log, symbols`stmts, symbols`nodes
      ensures NodesGrown()
      ensures Valid() && Here(tok) == old(InitStart(Here(start), sym.key))
    {
      hide Parser.Valid, ClearSpace, NewStmt;
      tok := SkipComments(start);
      if start < tok {
        AllocStmt(ToSymbol(sym), Plain(COMMENT), start, tok);
      }
      if tok < |toks| && toks[tok].kind == Char('{') {
        toks := ClearSpace(toks, tok + 1);
      }
    }

    /** The last symbol of a value, if any, is what the variable depends on. */
    method NoteDep(sym: SymbolOrder.Symbol, dep: Option<string>)
      requires Valid() && sym in symbols
      modifies `log, `symbols, `index, symbols`deps
      ensures Valid() && Grown()
      ensures log == if dep.Some? then old(log) + [Depend(sym.key, dep.value)] else old(log)
    {
      hide Parser.Valid;
      if dep.Some? {
        AddDep(sym, dep.value);
      }
    }

    /** A value, up to its ',' or ';'. */
    method ParseValue(sym: SymbolOrder.Symbol, start: nat) returns (tok: nat, end: bool)
      requires Valid() && sym in symbols && InitValue(Here(start), sym.key).At?
      modifies `toks, `decls, `fns, `declNodes, `fnNodes, `nodes, `log, `symbols, `index, symbols`stmts, symbols`nodes,
        symbols`deps
      ensures NodesGrown()
      ensures Valid() && Grown() && Here(tok) == old(InitValue(Here(start), sym.key))
      ensures end == old(EndsInit(toks, start))
    {
      hide Parser.Valid, InitScan, Finish, ClearSpace;
      var def;
      tok, def := FindValueEnd(start);
      end := toks[tok].kind == Char(';');
      NoteDep(sym, if def.Some? then Some(toks[def.value].text) else None);
      toks := ClearSpace(toks, tok + 1);
      tok := FinishStmt(ToSymbol(sym), Plain(INSN), start, tok + 1);
    }

    /** One value of an initialiser, and whether it is the last one. */
    method ParseInitPart(sym: SymbolOrder.Symbol, start: nat) returns (tok: nat, end: bool)
      requires Valid() && sym in symbols && start < |toks| && InitPart(Here(start), sym.key).At?
      modifies `toks, `decls, `fns, `declNodes, `fnNodes, `nodes, `log, `symbols, `index, symbols`stmts, symbols`nodes,
        symbols`deps
      ensures NodesGrown()
      ensures Valid() && Grown() && Here(tok) == old(InitPart(Here(start), sym.key))
      ensures end == old(LastInit(toks, start))
    {
      hide Parser.Valid, InitStart, InitValue, InitScan, LastInit;
      LastInitIs(Here(start), sym.key);
      tok := ParseInitStart(sym, start);
      tok, end := ParseValue(sym, tok);
    }

    /** The initialiser of a variable. */
    method ParseInitialiser(sym: SymbolOrder.Symbol, start: nat) returns (tok: nat)
      requires Valid() && sym in symbols && start < |toks| && ParseInit(Here(start), sym.key).At?
      modifies `toks, `decls, `fns, `declNodes, `fnNodes, `nodes, `log, `symbols, `index, symbols`stmts, symbols`nodes,
        symbols`deps
      ensures NodesGrown()
      ensures Valid() && Grown() && Here(tok) == old(ParseInit(Here(start), sym.key))
    {
      hide Parser.Valid, InitPart, LastInit, ParseInit;
      tok := start;
      while true
        invariant NodesGrown() && Valid() && Grown() && sym in symbols && tok < |toks| == |old(toks)|
        invariant ParseInit(Here(tok), sym.key) == old(ParseInit(Here(start), sym.key))
        decreases |toks| - tok
      {
        InitUnfold(Here(tok), sym.key);
        var end;
        tok, end := ParseInitPart(sym, tok);
        if end {
          return;
        }
      }
    }

    // Whole files

    method PutPrefixComment(w: Where, p: nat, q: nat)
      requires Valid() && p <= q && p < |toks| && (w.ToSymbol? ==> w.sym in symbols)
      modifies `toks, `decls, `fns, `declNodes, `fnNodes, `nodes, `log, symbols`stmts, symbols`nodes
      ensures NodesGrown()
      ensures Valid() && Here(q) == old(PutComment(Here(p), DestOf(w), p, q))
    {
      if p < q {
        AllocStmt(w, Plain(COMMENT).(prefixComment := true), p, q);
      }
    }

    /** Spaces around a header's parameters. */
    method SpaceParameters(tok: nat)
      requires tok < |toks|
      modifies `toks
      ensures toks == old(HeaderSpace(toks, tok))
    {
      var t := toks[tok];
      if t.kind == Char('(') {
        toks := ClearSpace(toks, tok + 1);
        toks := SetSpace(toks, tok);
      } else if t.kind == Char(')') && !Is(toks, tok + 1, ';') {
        toks := SetSpace(toks, tok + 1);
      }
    }

    /** A statement, after a comment. */
    method PutWithComment(w: Where, vis: Vis, p: nat, q: nat, hi: nat)
      requires Valid() && p <= q < |toks| && (w.ToSymbol? ==> w.sym in symbols)
      modifies `toks, `decls, `fns, `declNodes, `fnNodes, `nodes, `log, symbols`stmts, symbols`nodes
      ensures NodesGrown()
      ensures Valid() && Here(hi) == old(NewStmt(PutComment(Here(p), DestOf(w), p, q), DestOf(w), vis, q, hi))
    {
      hide Parser.Valid;
      PutPrefixComment(w, p, q);
      AllocStmt(w, vis, q, hi);
    }

    /** Reads a header. */
    method ScanHeader(start: nat) returns (tok: nat, h: Header)
      requires HeaderScan(toks, start, NO_HEADER).Some?
      modifies `toks
      ensures old(HeaderScan(toks, start, NO_HEADER)) == Some((toks, tok, h))
    {
      hide HeaderSpace, HeaderScan, HeaderEnds;
      HeaderUnfold(toks, start, NO_HEADER);
      tok, h := start, NO_HEADER;
      while !HeaderEnds(toks[tok])
        invariant start <= tok < |toks| == |old(toks)| && (h.def.Some? ==> h.def.value < |toks|)
        invariant HeaderScan(toks, tok, h) == old(HeaderScan(toks, start, NO_HEADER))
        decreases |toks| - tok
      {
        HeaderUnfold(toks, tok, h);
        h := HeaderToken(toks, tok, h);
        SpaceParameters(tok);
        tok := tok + 1;
        HeaderUnfold(toks, tok, h);
      }
      HeaderUnfold(toks, tok, h);
    }

    /** Notes that tokens are dropped. */
    ghost method NoteDrop(lo: nat, hi: nat)
      requires Valid()
      modifies `log
      ensures Valid() && log == old(log) + [Drop(lo, hi)]
    {
      hide PutsTo, Names, HoldsStmts, HoldsDeps, NoFlags, Indexed, Reverse, DepsOf;
      OtherListsStay(log, Drop(lo, hi));
      NamesMore(log, Drop(lo, hi));
      AddPresent(Names(log), []);
      StmtsStay(symbols, nodes, log, Drop(lo, hi));
      DepsStay(symbols, log, Drop(lo, hi));
      log := log + [Drop(lo, hi)];
    }

    /** A variable's header, up to its ';' or '='. */
    method StartVariable(p: nat, q: nat, e: nat, vis: Vis, name: string) returns (sym: SymbolOrder.Symbol)
      requires Valid() && p <= q <= e < |toks|
      modifies `toks, `decls, `fns, `declNodes, `fnNodes, `nodes, `log, `symbols, `index, symbols`stmts, symbols`nodes
      ensures NodesGrown()
      ensures Valid() && Grown() && sym in symbols && sym.key == name
      ensures Here(e + 1) == old(StartVar(Here(p), p, q, e, vis, name))
    {
      hide Parser.Valid, PutComment, NewStmt, SetEnd, ClearSpace, KeysOf;
      toks := SetEnd(toks, e);
      sym := DefSymbol(name);
      PutWithComment(ToSymbol(sym), vis, p, q, e + 1);
    }

    /** A variable, and its initialiser if it has one. */
    method ParseVariable(p: nat, q: nat, e: nat, vis: Vis, name: string) returns (tok: nat)
      requires Valid() && p <= q <= e < |toks| && ParseVar(Here(p), p, q, e, vis, name).At?
      modifies `toks, `decls, `fns, `declNodes, `fnNodes, `nodes, `log, `symbols, `index, symbols`stmts, symbols`nodes,
        symbols`deps
      ensures NodesGrown()
      ensures Valid() && Grown() && Here(tok) == old(ParseVar(Here(p), p, q, e, vis, name))
    {
      hide Parser.Valid, ParseInit, StartVar;
      tok := e + 1;
      var assign := toks[e].kind == Char('=');
      var sym := StartVariable(p, q, e, vis, name);
      if assign {
        AtEndOverruns(Here(tok), name);
        tok := ParseInitialiser(sym, tok);
      }
    }

    method ParseFunction(p: nat, q: nat, e: nat, vis: Vis) returns (tok: nat)
      requires Valid() && p <= q < e < |toks| && (Is(toks, e, '{') || IsComment(toks, e))
        && ParseFn(Here(p), p, q, e, vis).At?
      modifies `toks, `decls, `fns, `declNodes, `fnNodes, `nodes, `log, symbols`stmts, symbols`nodes
      ensures NodesGrown()
      ensures Valid() && Here(tok) == old(ParseFn(Here(p), p, q, e, vis))
    {
      hide Parser.Valid, Insns;
      PutWithComment(ToFns, vis, p, q, e);
      tok := ParseInsn(e);
    }

    method ParseDeclaration(p: nat, q: nat, e: nat, vis: Vis) returns (tok: nat)
      requires Valid() && p <= q <= e < |toks|
      modifies `toks, `decls, `fns, `declNodes, `fnNodes, `nodes, `log, symbols`stmts, symbols`nodes
      ensures NodesGrown()
      ensures Valid() && Here(tok) == old(ParseDecl(Here(p), p, q, e, vis))
    {
      hide Parser.Valid;
      toks := SetEnd(toks, e);
      PutWithComment(ToDecls, vis, p, q, e + 1);
      tok := e + 1;
    }

    /** What follows a header that ends at `e`; None is the error "expected
        identifier". */
    method ParseAfterHeader(p: nat, q: nat, e: nat, h: Header) returns (tok: Option<nat>)
      requires Valid() && p <= q < e < |toks| && HeaderEnds(toks[e]) && (h.def.Some? ==> h.def.value < |toks|)
      requires AfterHeader(Here(p), p, q, e, h) != Overrun
      modifies `toks, `decls, `fns, `declNodes, `fnNodes, `nodes, `log, `symbols, `index, symbols`stmts, symbols`nodes,
        symbols`deps
      ensures NodesGrown()
      ensures Grown() && (tok == None <==> old(AfterHeader(Here(p), p, q, e, h)) == NoIdentifier)
      ensures tok.Some? ==> Valid() && Here(tok.value) == old(AfterHeader(Here(p), p, q, e, h))
    {
      hide Parser.Valid, ParseFn, ParseVar, ParseDecl, PutComment;
      var vis := HeaderVis(h, p < q);
      var last := toks[e];
      var next := e;
      if last.kind == Eof {
        PutPrefixComment(ToFns, p, q);
        NoteDrop(q, e);
      } else if last.kind == Char('{') || last.kind == Comment {
        next := ParseFunction(p, q, e, vis);
      } else if vis.form == VAR && !h.isDecl {
        if h.def == None {
          return None;
        }
        next := ParseVariable(p, q, e, vis, toks[h.def.value].text);
      } else {
        next := ParseDeclaration(p, q, e, vis);
      }
      tok := Some(next);
    }

    /** A header at `q`, after a comment at `p`. */
    method ParseFromHeader(p: nat, q: nat) returns (tok: Option<nat>)
      requires Valid() && p <= q < |toks| && toks[q].kind == Dotted && ParseHeader(Here(p), p, q) != Overrun
      modifies `toks, `decls, `fns, `declNodes, `fnNodes, `nodes, `log, `symbols, `index, symbols`stmts, symbols`nodes,
        symbols`deps
      ensures NodesGrown()
      ensures Grown() && (tok == None <==> old(ParseHeader(Here(p), p, q)) == NoIdentifier)
      ensures tok.Some? ==> Valid() && Here(tok.value) == old(ParseHeader(Here(p), p, q))
    {
      hide Parser.Valid, HeaderScan, AfterHeader;
      HeaderGoesOn(toks, q, NO_HEADER);
      var e, h := ScanHeader(q);
      tok := ParseAfterHeader(p, q, e, h);
    }

    method SkipPlainComments(start: nat) returns (tok: nat)
      ensures tok == PlainCommentEnd(toks, start)
    {
      tok := start;
      while tok < |toks| && toks[tok].kind == Comment && !MapDirective(toks[tok])
        invariant PlainCommentEnd(toks, start) == PlainCommentEnd(toks, tok)
        decreases |toks| - tok
      {
        tok := tok + 1;
      }
    }

    method SkipStrange(start: nat) returns (tok: nat)
      requires start < |toks|
      ensures tok == StrangeEnd(toks, start)
    {
      tok := start;
      while tok < |toks| && toks[tok].kind != Eof && !toks[tok].end
        invariant StrangeEnd(toks, start) == StrangeEnd(toks, tok)
        decreases |toks| - tok
      {
        tok := tok + 1;
      }
      if tok < |toks| && toks[tok].kind != Eof {
        tok := tok + 1;
      }
    }

    /** A line directive, after a comment. */
    method ParseDirective(p: nat, q: nat, vis: Vis) returns (tok: nat)
      requires Valid() && p <= q < |toks| && ParseLine(PutComment(Here(p), Decls, p, q), Decls, vis).At?
      modifies `toks, `decls, `fns, `declNodes, `fnNodes, `nodes, `log, symbols`stmts, symbols`nodes
      ensures NodesGrown()
      ensures Valid() && Here(tok) == old(ParseLine(PutComment(Here(p), Decls, p, q), Decls, vis))
    {
      hide Parser.Valid, ParseLine, PutComment;
      PutPrefixComment(ToDecls, p, q);
      tok := ParseLineNosemi(ToDecls, vis, q);
    }

    method ParseStrange(p: nat, q: nat) returns (tok: nat)
      requires Valid() && p <= q < |toks|
      modifies `toks, `decls, `fns, `declNodes, `fnNodes, `nodes, `log, symbols`stmts, symbols`nodes
      ensures NodesGrown()
      ensures Valid()
      ensures Here(tok) == old(
        var r1, e := PutComment(Here(p), Fns, p, q), StrangeEnd(toks, q);
        r1.(log := r1.log + (if q < e then [Drop(q, e)] else []), pos := e))
    {
      hide Parser.Valid, PutComment, StrangeEnd;
      tok := SkipStrange(q);
      PutPrefixComment(ToFns, p, q);
      if q < tok {
        NoteDrop(q, tok);
      }
    }

    /** One call of the file parser; None is the error "expected identifier". */
    method ParseOne(start: nat) returns (tok: Option<nat>)
      requires Valid() && start < |toks| && ParseFile(Here(start)) != Overrun
      modifies `toks, `decls, `fns, `declNodes, `fnNodes, `nodes, `log, `symbols, `index, symbols`stmts, symbols`nodes,
        symbols`deps
      ensures NodesGrown()
      ensures Grown() && (tok == None <==> old(ParseFile(Here(start))) == NoIdentifier)
      ensures tok.Some? ==> Valid() && Here(tok.value) == old(ParseFile(Here(start)))
    {
      hide Parser.Valid, ParseLine, ParseHeader, PutComment, PlainCommentEnd, StrangeEnd, IsKeyword;
      var q := SkipPlainComments(start);
      var first := toks[q];
      if MapDirective(first) {
        var next := ParseDirective(start, q, Plain(COMMENT));
        tok := Some(next);
      } else if first.kind == Dotted {
        if LineDirective(first) {
          var next := ParseDirective(start, q, Plain(DOT));
          tok := Some(next);
        } else {
          tok := ParseFromHeader(start, q);
        }
      } else {
        var next := ParseStrange(start, q);
        tok := Some(next);
      }
    }

    /** The whole file; false is the error "expected identifier". */
    method ParseWhole() returns (ok: bool)
      requires Valid() && toks != [] && ParseTokens(toks) != Overrun && log == [] && symbols == []
      modifies `toks, `decls, `fns, `declNodes, `fnNodes, `nodes, `log, `symbols, `index
      ensures NodesGrown()
      ensures ok <==> ParseTokens(old(toks)) != NoIdentifier
      ensures ok ==>
        && Valid() && ParseTokens(old(toks)).At?
        && toks == ParseTokens(old(toks)).t && log == ParseTokens(old(toks)).log
      ensures forall i :: 0 <= i < |symbols| ==> fresh(symbols[i])
    {
      hide Parser.Valid, ParseFile, ParseAll;
      var tok := 0;
      while true
        invariant NodesGrown() && Valid() && tok < |toks| == |old(toks)|
        invariant forall i :: 0 <= i < |symbols| ==> fresh(symbols[i])
        invariant ParseAll(Here(tok)) == ParseTokens(old(toks)) && ParseTokens(old(toks)) != Overrun
        decreases |toks| - tok
      {
        ghost var r := Here(tok);
        AllUnfold(r);
        var next := ParseOne(tok);
        if next == None {
          return false;
        }
        if toks[next.value].kind == Eof {
          return true;
        }
        tok := next.value;
      }
    }
  }

  lemma {:induction false} InitScanSame(t: seq<Token>, t': seq<Token>, p: nat, def: Option<nat>)
    requires Same(t, t') && (def.Some? ==> def.value < |t|)
    ensures InitScan(t', p, def) == InitScan(t, p, def)
    decreases |t| - p
  {
    if p < |t| {
      InitScanSame(t, t', p + 1, if t[p].kind == Symbol || t[p].kind == Ident then Some(p) else def);
    }
  }

  lemma HeaderUnfold(t: seq<Token>, p: nat, h: Header)
    requires (h.def.Some? ==> h.def.value < |t|) && HeaderScan(t, p, h).Some?
    ensures p < |t|
    ensures HeaderScan(t, p, h) ==
      if HeaderEnds(t[p]) then Some((t, p, h)) else HeaderScan(HeaderSpace(t, p), p + 1, HeaderToken(t, p, h))
  {
    hide HeaderSpace;
  }

  lemma AtEndOverruns(r: Parse, name: string)
    requires r.At? && ParseInit(r, name).At?
    ensures r.pos < |r.t|
  {
  }

  lemma AllUnfold(r: Parse)
    requires r.At? && r.pos < |r.t| && ParseAll(r) != Overrun
    ensures var r1 := ParseFile(r);
            && r1 != Overrun
            && (r1.NoIdentifier? ==> ParseAll(r) == NoIdentifier)
            && (r1.At? ==> r1.pos < |r1.t| == |r.t|)
            && (r1.At? ==> if r1.t[r1.pos].kind == Eof then ParseAll(r) == r1
              else r.pos < r1.pos && ParseAll(r) == ParseAll(r1))
  {
    hide ParseFile, Step;
    if ParseFile(r).At? {
      FileStep(r);
      FileMoves(r);
    }
  }

  lemma InitUnfold(r: Parse, name: string)
    requires r.At? && r.pos < |r.t| && ParseInit(r, name).At?
    ensures InitPart(r, name).At? && |InitPart(r, name).t| == |r.t| && r.pos < InitPart(r, name).pos
    ensures if LastInit(r.t, r.pos) then ParseInit(r, name) == InitPart(r, name)
            else ParseInit(r, name) == ParseInit(InitPart(r, name), name) && InitPart(r, name).pos < |r.t|
  {
    hide InitPart, LastInit;
  }

  /** Flags do not matter for where a value ends. */
  lemma LastInitIs(r: Parse, name: string)
    requires r.At? && r.pos < |r.t| && InitPart(r, name).At?
    ensures var r1 := InitStart(r, name);
            InitScan(r1.t, r1.pos, None).Some? && (LastInit(r.t, r.pos) <==> EndsInit(r1.t, r1.pos))
  {
    hide Step;
    var r1 := InitStart(r, name);
    InitStartStep(r, name);
    StepBound(r, r1);
    InitScanSame(r.t, r1.t, r1.pos, None);
  }

  lemma OtherListsStay(log: seq<Event>, e: Event)
    ensures !e.Put? ==> PutsTo(log + [e], Decls) == PutsTo(log, Decls) && PutsTo(log + [e], Fns) == PutsTo(log, Fns)
  {
    PutsMore(log, e, Decls);
    PutsMore(log, e, Fns);
  }

  lemma IndexedKeys(symbols: seq<SymbolOrder.Symbol>, index: map<string, nat>, names: seq<string>,
      sym: SymbolOrder.Symbol)
    requires Indexed(symbols, index, names) && sym in symbols
    ensures sym.key in names
  {
    KeyIn(symbols, sym);
  }

  lemma IndexedDistinct(symbols: seq<SymbolOrder.Symbol>, index: map<string, nat>, names: seq<string>)
    requires Indexed(symbols, index, names)
    ensures Distinct(KeysOf(symbols))
  {
  }

  lemma AddPair(names: seq<string>, x: string, y: string)
    requires x in names
    ensures AddNames(names, [x, y]) == AddName(names, y)
  {
    assert [x, y][1..] == [y] && [y][1..] == [];
    assert AddNames(names, [x, y]) == AddNames(names, [y]) == AddNames(AddName(names, y), []);
  }

  /** Puts a dependency at the end of a symbol's list. */
  method PushDep(sym: SymbolOrder.Symbol, dep: SymbolOrder.Symbol, ghost symbols: seq<SymbolOrder.Symbol>,
      ghost log: seq<Event>)
    requires HoldsDeps(symbols, log) && sym in symbols && dep in symbols && Distinct(KeysOf(symbols))
    modifies sym`deps
    ensures HoldsDeps(symbols, log + [Depend(sym.key, dep.key)])
  {
    hide DepsOf;
    ghost var e := Depend(sym.key, dep.key);
    ghost var was := sym.deps;
    sym.deps := sym.deps + [dep];
    assert KeysOf(sym.deps) == KeysOf(was) + [dep.key];
    forall i {:trigger symbols[i].deps} | 0 <= i < |symbols|
      ensures KeysOf(symbols[i].deps) == DepsOf(log + [e], symbols[i].key)
    {
      DepsMore(log, e, symbols[i].key);
      assert DepsOf(log, symbols[i].key) + [] == DepsOf(log, symbols[i].key);
      if symbols[i].key == sym.key {
        SameKey(symbols, sym, symbols[i]);
      }
    }
  }

  lemma KeyIn(symbols: seq<SymbolOrder.Symbol>, sym: SymbolOrder.Symbol)
    requires sym in symbols
    ensures sym.key in KeysOf(symbols)
  {
    var i :| 0 <= i < |symbols| && symbols[i] == sym;
    assert KeysOf(symbols)[i] == sym.key;
  }

  method PutAtSymbol(sym: SymbolOrder.Symbol, stmt: Stmt, ghost symbols: seq<SymbolOrder.Symbol>,
      ghost all: set<StmtNode>, ghost log: seq<Event>)
    returns (ghost all': set<StmtNode>)
    requires HoldsStmts(symbols, all, log) && sym in symbols && Distinct(KeysOf(symbols))
    modifies sym`stmts, sym`nodes
    ensures all <= all' && fresh(all' - all) && HoldsStmts(symbols, all', log + [Put(Var(sym.key), stmt)])
  {
    hide PutsTo, Held;
    ghost var e := Put(Var(sym.key), stmt);
    PutsHere(log, Var(sym.key), stmt);
    HeldStmts(symbols, all, log, sym);
    sym.stmts := StmtLists.AppendStmt(sym.stmts, stmt, sym.nodes, Var(sym.key), PutsTo(log, Var(sym.key)));
    sym.nodes := [sym.stmts] + sym.nodes;
    all' := all + {sym.stmts};
    forall i | 0 <= i < |symbols| ensures HoldsAt(symbols[i], all', log + [e]) {
      if symbols[i] != sym {
        if symbols[i].key == sym.key { SameKey(symbols, sym, symbols[i]); }
        PutsElsewhere(log, e, Var(symbols[i].key));
      }
    }
  }

  lemma HeldStmts(symbols: seq<SymbolOrder.Symbol>, all: set<StmtNode>, log: seq<Event>, s: SymbolOrder.Symbol)
    requires HoldsStmts(symbols, all, log) && s in symbols
    ensures HoldsAt(s, all, log)
  {
    hide HoldsAt;
    var i :| 0 <= i < |symbols| && symbols[i] == s;
    assert symbols[i].stmts == s.stmts;
  }

  lemma HeldWider(head: StmtNode?, nodes: seq<StmtNode>, all: set<StmtNode>, all': set<StmtNode>, owner: Dest,
      stmts: seq<Stmt>)
    requires HeldIn(head, nodes, all, owner, stmts) && all <= all'
    ensures HeldIn(head, nodes, all', owner, stmts)
  {
    hide Held;
  }

  lemma HeldOf(head: StmtNode?, nodes: seq<StmtNode>, all: set<StmtNode>, owner: Dest, stmts: seq<Stmt>)
    ensures HeldIn(head, nodes, all, owner, stmts) <==>
      (forall n :: n in nodes ==> n in all) && Held(head, nodes, owner, stmts)
  {
    hide Held;
  }

  /** Nodes of other lists may come in. */
  lemma HoldsWider(symbols: seq<SymbolOrder.Symbol>, all: set<StmtNode>, all': set<StmtNode>, log: seq<Event>)
    requires HoldsStmts(symbols, all, log) && all <= all'
    ensures HoldsStmts(symbols, all', log)
  {
    hide Held;
    forall i | 0 <= i < |symbols| ensures HoldsAt(symbols[i], all', log) {
      assert HoldsAt(symbols[i], all, log);
    }
  }

  lemma SameKey(symbols: seq<SymbolOrder.Symbol>, a: SymbolOrder.Symbol, b: SymbolOrder.Symbol)
    requires a in symbols && b in symbols && a.key == b.key && Distinct(KeysOf(symbols))
    ensures a == b
  {
    var i :| 0 <= i < |symbols| && symbols[i] == a;
    var j :| 0 <= j < |symbols| && symbols[j] == b;
    assert KeysOf(symbols)[i] == a.key && KeysOf(symbols)[j] == b.key;
  }
}
