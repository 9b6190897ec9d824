/** What nvptx-as prints for a file, from its tokens alone: no statements, and nothing of
    what the parser keeps. */
module AssembledFile {
  import opened Common
  import opened Tokenizer
  import opened Statements
  import opened Framing
  import opened TokenForms
  import opened ParserSpec
  import opened ParserFacts
  import opened Conservation
  import opened FileShape
  import opened FileLayout
  import opened ShapeSame
  import opened ShapeSteps
  import opened ShapeFacts
  import opened LayoutText
  import opened FileDeps
  import opened PrintTokenise
  import opened Process
  import SymbolOrder

  // The order of the variables

  lemma {:induction false} GraphNoted(log: seq<Event>)
    requires Announced(log, {})
    ensures Names(log) == Names(LogNotes(log)) && GraphOf(log) == GraphOf(LogNotes(log))
  {
    hide Announced, LogNotes, Names, DepsOf, GraphOf;
    NamesNoted(log);
    GraphIs(log);
    GraphIs(LogNotes(log));
    forall i | 0 <= i < |Names(log)| ensures DepIndices(log)[i] == DepIndices(LogNotes(log))[i] {
      DepsNoted(log, Names(log)[i]);
    }
    assert DepIndices(log) == DepIndices(LogNotes(log));
  }

  lemma GraphIs(log: seq<Event>)
    ensures GraphOf(log) == DepIndices(log)
  {
  }

  /** The variables lead back to the first, each initialised with the next. */
  ghost predicate Circle(t: seq<Token>, c: seq<string>)
    requires Terminated(t)
  {
    |c| >= 2 && c[0] == c[|c| - 1] && forall k :: 0 <= k < |c| - 1 ==> Needs(t, c[k], c[k + 1])
  }

  /** A step in the graph is a dependency between names. */
  lemma {:induction false} StepNeeds(t: seq<Token>, i: nat, j: nat)
    requires Terminated(t) && FileReach(t, 0).To?
    requires var ns := FileNotes(t, 0); i < |GraphOf(ns)| && j in GraphOf(ns)[i]
    ensures var names := Names(FileNotes(t, 0));
            |GraphOf(FileNotes(t, 0))| == |names| && j < |names| && Needs(t, names[i], names[j])
  {
    hide FileNotes, FileReach, Names, DepsOf, Needs, GraphOf;
    var notes := FileNotes(t, 0);
    GraphIs(notes);
    var names := Names(notes);
    var k :| 0 <= k < |GraphOf(notes)[i]| && GraphOf(notes)[i][k] == j;
    var y := DepsOf(notes, names[i])[k];
    DepsNamed(notes, names[i]);
    assert y in DepsOf(notes, names[i]) && y in names && names[IndexOf(names, y)] == y;
    NeedsNoted(t, names[i], y);
  }

  lemma {:induction false} NeedsStep(t: seq<Token>, x: string, y: string)
    requires Terminated(t) && FileReach(t, 0).To? && Needs(t, x, y)
    ensures var notes := FileNotes(t, 0);
            var g, i, j := GraphOf(notes), IndexOf(Names(notes), x), IndexOf(Names(notes), y);
            x in Names(notes) && y in Names(notes) && i < |g| && j < |g| && j in g[i]
  {
    hide FileNotes, FileReach, Names, DepsOf, Needs, GraphOf;
    var notes := FileNotes(t, 0);
    GraphIs(notes);
    NeedsNoted(t, x, y);
    if x !in Names(notes) { OwnsNothing(notes, x); }
    DepsNamed(notes, x);
    var k :| 0 <= k < |DepsOf(notes, x)| && DepsOf(notes, x)[k] == y;
    assert GraphOf(notes)[IndexOf(Names(notes), x)][k] == IndexOf(Names(notes), y);
  }

  lemma {:induction false} CycleIsCircle(t: seq<Token>, p: seq<nat>)
    requires Terminated(t) && FileReach(t, 0).To? && SymbolOrder.Cycle(GraphOf(FileNotes(t, 0)), p)
    ensures exists c :: Circle(t, c)
  {
    hide FileNotes, FileReach, Names, Needs, GraphOf;
    var notes := FileNotes(t, 0);
    GraphIs(notes);
    var names := Names(notes);
    var c := seq(|p|, k requires 0 <= k < |p| => names[p[k]]);
    forall k | 0 <= k < |c| - 1 ensures Needs(t, c[k], c[k + 1]) {
      assert p[k + 1] in GraphOf(notes)[p[k]];
      StepNeeds(t, p[k], p[k + 1]);
    }
    assert Circle(t, c);
  }

  lemma {:induction false} CircleIsCycle(t: seq<Token>, c: seq<string>)
    requires Terminated(t) && FileReach(t, 0).To? && Circle(t, c)
    ensures exists p :: SymbolOrder.Cycle(GraphOf(FileNotes(t, 0)), p)
  {
    hide FileNotes, FileReach, Names, Needs, GraphOf;
    var notes := FileNotes(t, 0);
    GraphIs(notes);
    var p := Indices(Names(notes), c);
    forall i | 0 <= i < |p| ensures p[i] < |GraphOf(notes)| {
      if i > 0 { NeedsStep(t, c[i - 1], c[i]); } else { NeedsStep(t, c[0], c[1]); }
    }
    forall i | 0 <= i < |p| - 1 ensures p[i + 1] in GraphOf(notes)[p[i]] {
      NeedsStep(t, c[i], c[i + 1]);
    }
    assert SymbolOrder.Cycle(GraphOf(notes), p);
  }

  /** How assembling ends: the text is not ASCII where it is read, a variable lacks its
      name, variables are initialised with each other in a circle, or none of these. */
  lemma {:induction false} OutcomeIs(input: string)
    requires Supported(input)
    ensures if Read(input) == NonAscii then Assemble(input) == NonAsciiCharacter
      else
        var t := FileTokens(input);
        match FileReach(t, 0)
        case Unnamed => Assemble(input) == ExpectedIdentifier
        case Endless => false
        case To(_) => if exists c :: Circle(t, c) then Assemble(input) == CircularReference
          else Assemble(input).Assembled?
  {
    hide Lex, ParseTokens, FileTokens, FileReach, FilePlaces, FileNotes, LogPlaces, LogNotes, Announced, GraphOf, Names,
      SymbolOrder.Order, SymbolOrder.Cycle, Circle, PrintAll;
    if Read(input) == NonAscii { return; }
    var t := FileTokens(input);
    ParseMeets(t);
    if FileReach(t, 0).To? {
      var log := ParseTokens(t).log;
      OrderIsSound(log);
      GraphNoted(log);
      if c :| Circle(t, c) { CircleIsCycle(t, c); }
      if !SymbolOrder.Acyclic(GraphOf(log)) {
        var p :| SymbolOrder.Cycle(GraphOf(log), p);
        CycleIsCircle(t, p);
      }
    }
  }

  /** A well-formed file is assembled unless variables are initialised with each other in a
      circle, and then every token is printed exactly once. */
  lemma {:induction false} WellFormedConserved(input: string)
    requires Read(input).Tokens? && WellFormed(FileTokens(input), 0)
    ensures Supported(input)
    ensures Assemble(input).Assembled? <==> !exists c :: Circle(FileTokens(input), c)
    ensures Assemble(input).Assembled? ==> forall i :: 0 <= i < |FileTokens(input)| - 1 ==> Once(PrintedStmts(input), i)
  {
    hide Lex, FileTokens, FileReach, WellFormed, Lost, NothingStrange, Once, Circle, PrintedStmts, Assemble;
    var t := FileTokens(input);
    WellFormedReaches(t, 0);
    OutcomeIs(input);
    if Assemble(input).Assembled? {
      forall i | 0 <= i < |t| - 1 ensures Once(PrintedStmts(input), i) {
        NeverLost(t, 0, i);
        TokensConserved(input, i, Decls);
      }
    }
  }

  /** The order in which the variables are printed. */
  function VariableOrder(t: seq<Token>): seq<string>
    requires Terminated(t) && FileReach(t, 0).To? && SymbolOrder.Order(GraphOf(FileNotes(t, 0))).Some?
  {
    PrintedOrder(FileNotes(t, 0))
  }

  lemma {:induction false} OrderNoted(input: string)
    requires Supported(input) && Assemble(input).Assembled?
    ensures Read(input).Tokens?
    ensures var t := FileTokens(input);
            && FileReach(t, 0).To? && SymbolOrder.Order(GraphOf(FileNotes(t, 0))).Some?
            && ParseTokens(t).At? && SymbolOrder.Order(GraphOf(ParseTokens(t).log)).Some?
            && VariableOrder(t) == PrintedOrder(ParseTokens(t).log)
  {
    hide Lex, ParseTokens, FileTokens, FileReach, FilePlaces, FileNotes, LogPlaces, LogNotes, Announced, GraphOf, Names,
      SymbolOrder.Order, PrintAll, NamesIn;
    var t := FileTokens(input);
    ParseMeets(t);
    GraphNoted(ParseTokens(t).log);
  }

  /** In an assembled file each variable is printed once, after all those that its values
      name last. */
  lemma {:induction false} VariablesOrdered(input: string)
    requires Supported(input) && Assemble(input).Assembled?
    ensures Read(input).Tokens?
    ensures var t := FileTokens(input);
            && FileReach(t, 0).To? && SymbolOrder.Order(GraphOf(FileNotes(t, 0))).Some?
            && var xs := VariableOrder(t);
               && Distinct(xs) && (forall x :: x in xs <==> x in Names(FileNotes(t, 0)))
               && forall i, y :: 0 <= i < |xs| && Needs(t, xs[i], y) ==> y in xs[..i]
  {
    hide Lex, ParseTokens, FileTokens, FileReach, FileNotes, GraphOf, Names, SymbolOrder.Order, NamesIn, Needs, DepsOf,
      SymbolOrder.Acyclic, Assemble;
    OrderNoted(input);
    var t := FileTokens(input);
    var notes := FileNotes(t, 0);
    OrderIsSound(notes);
    var xs := VariableOrder(t);
    forall i, y | 0 <= i < |xs| && Needs(t, xs[i], y) ensures y in xs[..i] {
      NeedsNoted(t, xs[i], y);
    }
  }

  /** If every value names last what appeared before its variable, variables are printed in
      the order in which they first appear in the file. */
  lemma {:induction false} AppearanceKept(t: seq<Token>)
    requires Terminated(t) && FileReach(t, 0).To?
    requires var xs := Names(FileNotes(t, 0)); forall i, y :: 0 <= i < |xs| && Needs(t, xs[i], y) ==> y in xs[..i]
    ensures var notes := FileNotes(t, 0);
            && SymbolOrder.Order(GraphOf(notes)).Some?
            && VariableOrder(t) == Names(notes) && FirstsOf(VariableOrder(t), Mentions(notes))
  {
    hide FileNotes, FileReach, Names, Needs, GraphOf, SymbolOrder.Order, FirstsOf, Mentions;
    var notes := FileNotes(t, 0);
    var g, xs := GraphOf(notes), Names(notes);
    NamesInOrder(notes);
    NamesOwn(notes);
    GraphIs(notes);
    var all := SymbolOrder.Appearance(|g|);
    forall i, d | 0 <= i < |all| && all[i] < |g| && d in g[all[i]] ensures d in all[..i] {
      StepNeeds(t, i, d);
      assert xs[d] in xs[..i];
      assert d < i;
      assert all[..i][d] == d;
    }
    SymbolOrder.OrderStable(g);
  }

  // The text

  /** The tokens of the variables' lists, one list after another. */
  function VariablesText(t: seq<Token>, ps: seq<Place>, xs: seq<string>): string
    requires |ps| <= |t|
  {
    if xs == [] then ""
    else VariablesText(t, ps, xs[..|xs| - 1]) + ListText(t, ps, Var(xs[|xs| - 1]))
  }

  /** What is printed for a file: its tokens in their places, the declarations first, then
      the variables, and the functions last. */
  function FileText(t: seq<Token>): string
    requires Terminated(t) && FileReach(t, 0).To? && SymbolOrder.Order(GraphOf(FileNotes(t, 0))).Some?
  {
    var ps := FilePlaces(t, 0);
    ListText(t, ps, Decls) + VariablesText(t, ps, VariableOrder(t)) + ListText(t, ps, Fns)
  }

  lemma {:induction false} VariablesPrinted(t: seq<Token>, t': seq<Token>, log: seq<Event>, hi: nat, xs: seq<string>)
    requires Same(t, t') && Tiles(log, 0, hi) && hi <= |t'|
    ensures |t| == |t'| && |LogPlaces(t', log)| == hi && InTokens(t', VarPuts(log, xs))
    ensures StmtsText(t', VarPuts(log, xs)) == VariablesText(t, LogPlaces(t', log), xs)
  {
    hide PutsTo, StmtsText, ListText, LogPlaces, Tiles, Same;
    LengthSame(t, t');
    ListPrinted(t', log, hi, Decls);
    ListTextSame(t, t', LogPlaces(t', log), Decls);
    if xs == [] {
      NothingWritten(t');
    } else {
      var n := |xs| - 1;
      VariablesPrinted(t, t', log, hi, xs[..n]);
      ListPrinted(t', log, hi, Var(xs[n]));
      ListTextSame(t, t', LogPlaces(t', log), Var(xs[n]));
      TextOfAppend(t', VarPuts(log, xs[..n]), PutsTo(log, Var(xs[n])));
    }
  }

  lemma NothingWritten(t: seq<Token>)
    ensures StmtsText(t, []) == ""
  {
  }

  lemma {:induction false} LogPrinted(t: seq<Token>, t': seq<Token>, log: seq<Event>, hi: nat, xs: seq<string>)
    requires Same(t, t') && Tiles(log, 0, hi) && hi <= |t'|
    ensures |t| == |t'| && |LogPlaces(t', log)| == hi && InTokens(t', Output(log, xs))
    ensures var ps := LogPlaces(t', log);
            StmtsText(t', Output(log, xs)) == ListText(t, ps, Decls) + VariablesText(t, ps, xs) + ListText(t, ps, Fns)
  {
    hide PutsTo, VarPuts, StmtsText, ListText, VariablesText, LogPlaces, Tiles, Same;
    LengthSame(t, t');
    ListPrinted(t', log, hi, Decls);
    ListPrinted(t', log, hi, Fns);
    ListTextSame(t, t', LogPlaces(t', log), Decls);
    ListTextSame(t, t', LogPlaces(t', log), Fns);
    VariablesPrinted(t, t', log, hi, xs);
    TextOfAppend(t', PutsTo(log, Decls), VarPuts(log, xs));
    TextOfAppend(t', PutsTo(log, Decls) + VarPuts(log, xs), PutsTo(log, Fns));
  }

  /** What the assembler prints is exactly that. */
  lemma {:induction false} TextIs(input: string)
    requires Supported(input) && Assemble(input).Assembled?
    ensures var t := FileTokens(input);
            && FileReach(t, 0).To? && SymbolOrder.Order(GraphOf(FileNotes(t, 0))).Some?
            && Assemble(input).text == FileText(t)
  {
    hide Lex, ParseTokens, FileTokens, FileReach, FilePlaces, FileNotes, LogPlaces, LogNotes, Announced, GraphOf, Names,
      SymbolOrder.Order, Output, StmtsText, ListText, VariablesText, Same, Tiles, EndsAdded, SpacesKept, SafeEnds,
      SpacesAdded, NoFirstSpace, NamesIn;
    OrderNoted(input);
    var t := FileTokens(input);
    var r := ParseTokens(t);
    ParseMeets(t);
    ParseTiles(t);
    LogPrinted(t, r.t, r.log, |t| - 1, PrintedOrder(r.log));
  }

  // The tokens

  /** What is read of a file is made up of gaps and tokens as they are written; the tokens
      stored are these. */
  lemma {:induction false} TokensAre(input: string) returns (ps: seq<Part>)
    requires Read(input).Tokens?
    ensures Whole(ps) == CString(input) && PartsOk(ps, Read(input).raws, false, false)
    ensures var t, raws := FileTokens(input), Read(input).raws;
            |t| == |raws| && forall i :: 0 <= i < |t| ==>
              && t[i].kind == raws[i].kind && t[i].text == raws[i].text && t[i].space == raws[i].space
              && (t[i].end <==> i + 1 < |t| && (GoesOnAt(ps, raws, i + 1, false) || '\n' in ps[i + 1].gap))
  {
    hide Lex, PartOk, Stored;
    ps := LexParts(CString(input), false, false);
    var t := FileTokens(input);
    forall i | 0 <= i < |t|
      ensures t[i].end <==> i + 1 < |t| && (GoesOnAt(ps, Read(input).raws, i + 1, false) || '\n' in ps[i + 1].gap)
      ensures t[i].kind == Read(input).raws[i].kind && t[i].text == Read(input).raws[i].text
      ensures t[i].space == Read(input).raws[i].space {
      StoredPart(ps, Read(input).raws, i);
    }
  }
}
