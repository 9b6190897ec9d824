/** What nvptx-nm and nvptx-run make of the files nvptx-ld writes. */
module CrossTool {
  import opened Common
  import opened Markers
  import opened LinkSpec
  import opened LinkInvariant
  import opened LinkRun
  import opened GlobalCtors
  import opened Link
  import opened LinkProgram
  import opened Framing
  import opened NmTypes
  import opened CtorPart
  import Nm

  predicate CleanNames(env: Env) {
    forall f, k :: 0 <= f < |env.files| && 0 <= k < |env.files[f]| ==> Clean(env.files[f][k].name)
  }

  predicate CleanSpecials(st: State) {
    forall i :: 0 <= i < |st.specials| ==> Clean(st.specials[i])
  }

  /** Linking marks only names of markers as special-purpose functions. */
  lemma {:induction false} MarkersKeepSpecials(st: State, f: nat, ms: seq<Marker>)
    requires CleanSpecials(st) && LinkMarkers(st, f, ms).Some?
    requires forall k :: 0 <= k < |ms| ==> Clean(ms[k].name)
    ensures CleanSpecials(LinkMarkers(st, f, ms).value)
  {
    hide Clean, StartsAt, Without;
    if ms != [] {
      MarkersKeepSpecials(st, f, ms[..|ms| - 1]);
    }
  }

  lemma {:induction false} FilesKeepSpecials(env: Env, st: State, fs: seq<nat>)
    requires CleanNames(env) && CleanSpecials(st) && Scanned(env, fs) && LinkFiles(env, st, fs).Some?
    ensures CleanSpecials(LinkFiles(env, st, fs).value)
  {
    hide LinkMarkers, CleanSpecials, Clean;
    if fs != [] {
      var n := |fs| - 1;
      FilesKeepSpecials(env, st, fs[..n]);
      MarkersKeepSpecials(LinkFiles(env, st, fs[..n]).value, fs[n], env.files[fs[n]]);
    }
  }

  lemma {:induction false} CollectKeepsSpecials(env: Env, st: State, es: seq<string>, toAdd: seq<nat>)
    requires CollectFrom(env, st, es, toAdd).Some?
    ensures CollectFrom(env, st, es, toAdd).value.0.specials == st.specials
    decreases |es|
  {
    hide Without, Star;
    if es != [] {
      var x, st1 := es[0], TakeSpecial(st, es[0]);
      match Get(st, x).def {
        case Undefined => CollectKeepsSpecials(env, Dequeue(st1, x), es[1..], toAdd);
        case InFile(f) => CollectKeepsSpecials(env, st1, es[1..], if f in toAdd then toAdd else [f] + toAdd);
      }
    }
  }

  lemma {:induction false} ResolveKeepsSpecials(env: Env, lists: bool, st: State, rounds: seq<seq<nat>>)
    requires CleanNames(env) && CleanSpecials(st) && ResolveInv(env, lists, st, rounds)
      && Resolve(env, lists, st, rounds).Done?
    ensures CleanSpecials(Resolve(env, lists, st, rounds).st)
    decreases Unwritten(env, Flat(rounds)), |st.unresolved|
  {
    hide ResolveInv, CollectFrom, LinkFiles, Unwritten;
    if st.unresolved != [] {
      var (st1, toAdd) := Collect(env, st).value;
      CollectKeepsSpecials(env, st, st.unresolved, []);
      RoundKeepsInv(env, lists, st, rounds);
      RoundProgress(env, lists, st, rounds);
      FilesKeepSpecials(env, st1, toAdd);
      ResolveKeepsSpecials(env, lists, LinkFiles(env, st1, toAdd).value, rounds + [toAdd]);
    }
  }

  // What is in the output

  lemma PartWritten(env: Env, st: State, rounds: seq<seq<nat>>)
    requires ResolveInv(env, false, st, rounds) && st.unresolved == []
    requires AfterFirst(env, st, rounds).Linked? && AfterFirst(env, st, rounds).part.Some?
    ensures AfterFirst(env, st, rounds).part.value == JoinLines(PartLines(st.specials))
  {
    hide ResolveInv, Resolve, JoinLines, PartLines, Expected, Cdtors, ValidPriorities;
  }

  /** The part written between the runs is the lists of clean names. */
  lemma PartNames(env: Env) returns (names: seq<string>)
    requires ValidEnv(env) && CleanNames(env) && Link.Link(env).Linked?
    ensures forall i :: 0 <= i < |names| ==> Clean(names[i])
    ensures Link.Link(env).part.Some? ==> Link.Link(env).part.value == JoinLines(PartLines(names))
  {
    hide ResolveInv, Resolve, Scan, AfterFirst, JoinLines, PartLines, Clean;
    ScannedInv(env);
    ScanCorrect(env, |env.files|, "");
    ResolveKeepsSpecials(env, false, Scan(env, |env.files|), []);
    var r := Resolve(env, false, Scan(env, |env.files|), []);
    names := r.st.specials;
    if Link.Link(env).part.Some? {
      PartWritten(env, r.st, r.rounds);
    }
  }

  predicate AllScanned(datas: seq<string>) {
    forall f :: 0 <= f < |datas| ==> MarkersOf(datas[f]).Some?
  }

  lemma EnvClean(env: Env, datas: seq<string>)
    requires |env.files| == |datas| && AllScanned(datas) && AllNulFree(datas)
    requires forall f :: 0 <= f < |datas| ==> env.files[f] == MarkersOrNone(datas[f])
    ensures CleanNames(env)
  {
    hide Clean, Lines;
    forall f | 0 <= f < |datas| ensures forall m :: m in env.files[f] ==> Clean(m.name) {
      WholeString(datas[f]);
      LinesClean(datas[f]);
      NamesClean(Lines(datas[f]));
    }
  }

  lemma {:induction false} FlatSplit(rounds: seq<seq<nat>>, n: nat)
    requires n <= |rounds|
    ensures Flat(rounds) == Flat(rounds[..n]) + Flat(rounds[n..])
  {
    if n == |rounds| {
      assert rounds[..n] == rounds && rounds[n..] == [];
    } else {
      var k := |rounds| - 1;
      FlatSplit(rounds[..k], n);
      assert rounds[..k][..n] == rounds[..n] && rounds[..k][n..] == rounds[n..][..k - n];
      assert rounds[n..][|rounds[n..]| - 1] == rounds[k];
    }
  }

  /** A part of the output is a written file, or the part between the runs. */
  predicate WrittenPart(datas: seq<string>, o: Outcome, p: string)
    requires o.Linked?
  {
    (exists f :: f in Written(o) && f < |datas| && datas[f] == p) || (o.part.Some? && p == o.part.value)
  }

  lemma SelectMembers(datas: seq<string>, fs: seq<nat>)
    requires forall i :: 0 <= i < |fs| ==> fs[i] < |datas|
    ensures forall p :: p in Select(datas, fs) ==> exists f :: f in fs && f < |datas| && datas[f] == p
    ensures forall f :: f in fs ==> datas[f] in Select(datas, fs)
  {
    var s := Select(datas, fs);
    forall p | p in s ensures exists f :: f in fs && f < |datas| && datas[f] == p {
      var i :| 0 <= i < |s| && s[i] == p;
      assert fs[i] in fs;
    }
    forall f | f in fs ensures datas[f] in s {
      var i :| 0 <= i < |fs| && fs[i] == f;
      assert s[i] == datas[f];
    }
  }

  lemma OutputMembers(datas: seq<string>, o: Outcome)
    requires o.Linked? && o.firstRun <= |o.rounds| && forall i :: 0 <= i < |Written(o)| ==> Written(o)[i] < |datas|
    ensures forall p :: p in OutputParts(datas, o) ==> WrittenPart(datas, o, p)
    ensures forall f :: f in Written(o) ==> datas[f] in OutputParts(datas, o)
  {
    hide Select, Flat;
    FlatSplit(o.rounds, o.firstRun);
    var a, b := Flat(o.rounds[..o.firstRun]), Flat(o.rounds[o.firstRun..]);
    assert forall i :: 0 <= i < |a| ==> a[i] == Written(o)[i];
    assert forall i :: 0 <= i < |b| ==> b[i] == Written(o)[|a| + i];
    SelectMembers(datas, a);
    SelectMembers(datas, b);
  }

  /** The output is the written files in the order of the rounds, and the lists after
      those of the first run. */
  ghost predicate InRoundOrder(datas: seq<string>, o: Outcome, ps: seq<string>)
    requires o.Linked? && o.firstRun <= |o.rounds|
  {
    var fs, n, lists := Written(o), |Flat(o.rounds[..o.firstRun])|, if o.part.Some? then 1 else 0;
    && n <= |fs| && |ps| == |fs| + lists
    && (forall k :: 0 <= k < |fs| ==> fs[k] < |datas| && ps[if k < n then k else k + lists] == datas[fs[k]])
    && (o.part.Some? ==> ps[n] == o.part.value)
  }

  lemma PartsInOrder(datas: seq<string>, o: Outcome)
    requires o.Linked? && o.firstRun <= |o.rounds| && forall i :: 0 <= i < |Written(o)| ==> Written(o)[i] < |datas|
    ensures InRoundOrder(datas, o, OutputParts(datas, o))
  {
    hide Flat;
    FlatSplit(o.rounds, o.firstRun);
  }

  /** The GLOBAL markers nvptx-nm sees in a part. */
  function PartMarkers(p: string): seq<Marker> {
    Only(true, Marks(Lines(p)))
  }

  lemma {:induction false} GlobalsInParts(ps: seq<string>, m: Marker)
    ensures m in GlobalMarkers(ps) <==> exists p :: p in ps && m in PartMarkers(p)
  {
    hide PartMarkers;
    if ps != [] {
      var n := |ps| - 1;
      GlobalsInParts(ps[..n], m);
      assert ps == ps[..n] + [ps[n]];
      assert GlobalMarkers(ps) == GlobalMarkers(ps[..n]) + PartMarkers(ps[n]) by { OneMorePart(ps); }
    }
  }

  lemma OneMorePart(ps: seq<string>)
    requires ps != []
    ensures GlobalMarkers(ps) == GlobalMarkers(ps[..|ps| - 1]) + PartMarkers(ps[|ps| - 1])
  {
  }

  /** In a part that is fine, nvptx-nm sees the markers nvptx-ld has seen. */
  lemma FileMarkers(p: string)
    requires PartFine(p) && MarkersOf(p).Some? && NulFree(p)
    ensures PartMarkers(p) == MarkersOrNone(p)
  {
    WholeString(p);
    SameGlobals(Lines(p));
  }

  lemma EmptyPart()
    ensures PartFine("") && PartMarkers("") == [] && NulFree("")
  {
    FoldNothing(map[], map[]);
  }

  /** `env` is the link of the files `datas`, and it succeeds. */
  ghost predicate Success(env: Env, datas: seq<string>) {
    && ValidEnv(env) && Link.Link(env).Linked?
    && |env.files| == |datas| && AllScanned(datas) && AllNulFree(datas)
    && (forall f :: 0 <= f < |datas| ==> env.files[f] == MarkersOrNone(datas[f]))
  }

  /** The written files exist; the part between the runs has no NUL and no marker. */
  lemma OutputFacts(env: Env, datas: seq<string>)
    requires Success(env, datas)
    ensures var o := Link.Link(env);
            && o.firstRun <= |o.rounds| && (forall i :: 0 <= i < |Written(o)| ==> Written(o)[i] < |datas|)
            && (o.part.Some? ==> NulFree(o.part.value) && PartFine(o.part.value) && PartMarkers(o.part.value) == [])
  {
    hide Link.Link, NulFree, PartFine, JoinLines, Lines, Marks, Clean;
    LinkedInv(env);
    EnvClean(env, datas);
    var names := PartNames(env);
    PartHasNoMarks(names);
  }

  lemma OutputInOrder(env: Env, datas: seq<string>)
    requires Success(env, datas)
    ensures var o := Link.Link(env); o.firstRun <= |o.rounds| && InRoundOrder(datas, o, OutputParts(datas, o))
  {
    hide Link.Link, OutputParts, InRoundOrder, NulFree, PartFine, PartMarkers;
    OutputFacts(env, datas);
    PartsInOrder(datas, Link.Link(env));
  }

  lemma OutputClean(env: Env, datas: seq<string>)
    requires Success(env, datas)
    ensures var o := Link.Link(env); o.firstRun <= |o.rounds| && AllNulFree(OutputParts(datas, o))
  {
    hide Link.Link, NulFree, PartFine, PartMarkers, OutputParts;
    OutputFacts(env, datas);
    var o := Link.Link(env);
    OutputMembers(datas, o);
    var ps := OutputParts(datas, o);
    forall i | 0 <= i < |ps| ensures NulFree(ps[i]) {
      assert ps[i] in ps;
    }
  }

  /** Where nvptx-nm sees a GLOBAL marker. */
  lemma OutputMarkers(env: Env, datas: seq<string>, m: Marker)
    requires Success(env, datas)
    requires forall f :: f in Written(Link.Link(env)) && f < |datas| ==> PartFine(datas[f])
    ensures var o := Link.Link(env);
            && o.firstRun <= |o.rounds|
            && (forall p :: p in OutputParts(datas, o) + [""] ==> PartFine(p))
            && (m in GlobalMarkers(OutputParts(datas, o) + [""]) <==>
              exists f :: f in Written(o) && f < |env.files| && m in env.files[f])
  {
    hide Link.Link, NulFree, PartFine, PartMarkers, OutputParts, MarkersOf, MarkersOrNone, GlobalMarkers, Flat;
    OutputFacts(env, datas);
    EmptyPart();
    var o := Link.Link(env);
    OutputMembers(datas, o);
    var ps := OutputParts(datas, o) + [""];
    GlobalsInParts(ps, m);
    forall f | f in Written(o) && f < |datas| ensures PartMarkers(datas[f]) == env.files[f] {
      FileMarkers(datas[f]);
    }
    if p :| p in ps && m in PartMarkers(p) {
      assert p in OutputParts(datas, o) || p == "";
    }
  }

  /** The program's own links are of this form. */
  lemma ProgramLinks(inputs: seq<InputFile>, members: seq<string>, ignore: set<string>)
    requires var datas := Objects(inputs) + members; PlainMarkers(datas) && ScanAll(datas) == Whole
    requires LinkInputs(inputs, members, ignore).Linked?
    ensures Success(EnvOf(inputs, members, ignore), Objects(inputs) + members)
    ensures Link.Link(EnvOf(inputs, members, ignore)) == LinkInputs(inputs, members, ignore)
  {
    hide Link.Link, MarkersOf, Star, NulFree;
    AllScan(Objects(inputs) + members);
    EnvIsValid(inputs, members, ignore);
  }

  // The theorems

  /** No symbol is defined as a variable in one written file and as a function in
      another, or the same. */
  ghost predicate OneKind(env: Env, fs: seq<nat>) {
    forall f, g, m, n ::
      f in fs && g in fs && f < |env.files| && g < |env.files| && m in env.files[f] && n in env.files[g] ==>
        m.isDef && n.isDef && m.name == n.name ==> m.isFunction == n.isFunction
  }

  lemma NoTwoKinds(env: Env, datas: seq<string>, x: string)
    requires Success(env, datas) && OneKind(env, Written(Link.Link(env)))
    requires forall f :: f in Written(Link.Link(env)) && f < |datas| ==> PartFine(datas[f])
    ensures var o := Link.Link(env);
            && o.firstRun <= |o.rounds|
            && !TwoKinds(GlobalMarkers(OutputParts(datas, o) + [""]), x)
  {
    hide Link.Link, PartFine, OutputParts, MarkersOf, MarkersOrNone, GlobalMarkers;
    OutputClean(env, datas);
    var ms := GlobalMarkers(OutputParts(datas, Link.Link(env)) + [""]);
    if TwoKinds(ms, x) {
      var i :| 0 <= i < |ms| && DefOf(ms[i], x, false);
      var j :| 0 <= j < |ms| && DefOf(ms[j], x, true);
      OutputMarkers(env, datas, ms[i]);
      OutputMarkers(env, datas, ms[j]);
    }
  }

  /** What nvptx-nm makes of the output. */
  ghost function Listing(env: Env, datas: seq<string>): Nm.FileOutcome
    requires Success(env, datas)
  {
    OutputFacts(env, datas);
    Nm.ReadParts(Parts(Framed(OutputParts(datas, Link.Link(env)))))
  }

  /** nvptx-nm reads the output of a successful link without error, provided the
      files themselves are fine and each symbol is of one kind. */
  lemma OutputIsListed(env: Env, datas: seq<string>)
    requires Success(env, datas) && OneKind(env, Written(Link.Link(env)))
    requires forall f :: f in Written(Link.Link(env)) && f < |datas| ==> PartFine(datas[f])
    ensures Listing(env, datas).Symbols?
    ensures var o := Link.Link(env);
            o.firstRun <= |o.rounds| &&
            var g, ms := Listing(env, datas).global, GlobalMarkers(OutputParts(datas, o) + [""]);
            forall x :: (x in g <==> Mentions(ms, x)) && (x in g ==> Tells(true, ms, x, g[x]))
  {
    hide Link.Link, PartFine, OutputParts, MarkersOf, MarkersOrNone, GlobalMarkers, Framed, Parts, TwoKinds, Mentions,
      Tells;
    OutputClean(env, datas);
    var ps := OutputParts(datas, Link.Link(env));
    PartsOfFramed(ps);
    FileTells(ps + [""]);
    forall x ensures !TwoKinds(GlobalMarkers(ps + [""]), x) {
      NoTwoKinds(env, datas, x);
    }
    forall i | 0 <= i < |ps + [""]| ensures PartFine((ps + [""])[i]) {
      assert (ps + [""])[i] in ps + [""];
      OutputMarkers(env, datas, Marker(false, false, false, ""));
    }
  }

  /** A symbol that nvptx-nm lists as undefined is one that no file has to define:
      an intrinsic or list, or an ignored symbol that no scanned file defines. */
  lemma UndefinedIsSettled(env: Env, datas: seq<string>, x: string)
    requires Success(env, datas) && OneKind(env, Written(Link.Link(env)))
    requires forall f :: f in Written(Link.Link(env)) && f < |datas| ==> PartFine(datas[f])
    ensures Listing(env, datas).Symbols?
    ensures var g := Listing(env, datas).global;
            x in g && Nm.Undefined(g[x]) ==>
              || Base(Link.Link(env).part.Some?, x)
              || (x in env.ignore && forall f :: 0 <= f < |env.files| ==> !Defines(env.files[f], x))
  {
    hide Link.Link, PartFine, OutputParts, MarkersOf, MarkersOrNone, GlobalMarkers, Base, Listing, OneKind, ValidEnv,
      AllScanned, AllNulFree;
    OutputIsListed(env, datas);
    var o, g := Link.Link(env), Listing(env, datas).global;
    if x in g && Nm.Undefined(g[x]) {
      var ms := GlobalMarkers(OutputParts(datas, o) + [""]);
      assert Tells(true, ms, x, g[x]);
      var k :| 0 <= k < |ms| && ms[k].name == x;
      OutputMarkers(env, datas, ms[k]);
      var f :| f in Written(o) && f < |env.files| && ms[k] in env.files[f];
      assert Declares(env.files[f], x) by {
        assert !DefOf(ms[k], x, ms[k].isFunction);
        assert !ms[k].isDef;
      }
      LinkClosed(env, f, x);
      forall h | h in Written(o) && h < |env.files| ensures !Defines(env.files[h], x) {
        DefinitionSeen(env, datas, h, x);
      }
    }
  }

  /** nvptx-nm sees the definitions in written files. */
  lemma DefinitionSeen(env: Env, datas: seq<string>, h: nat, x: string)
    requires Success(env, datas) && Link.Link(env).firstRun <= |Link.Link(env).rounds|
    requires forall f :: f in Written(Link.Link(env)) && f < |datas| ==> PartFine(datas[f])
    requires h in Written(Link.Link(env)) && h < |env.files|
    ensures var ms := GlobalMarkers(OutputParts(datas, Link.Link(env)) + [""]);
            Defines(env.files[h], x) ==> HasDef(ms, x, false) || HasDef(ms, x, true)
  {
    hide Link.Link, PartFine, OutputParts, MarkersOf, MarkersOrNone, GlobalMarkers;
    if j :| 0 <= j < |env.files[h]| && env.files[h][j].isDef && env.files[h][j].name == x {
      var m := env.files[h][j];
      OutputMarkers(env, datas, m);
      var ms := GlobalMarkers(OutputParts(datas, Link.Link(env)) + [""]);
      var i :| 0 <= i < |ms| && ms[i] == m;
      assert DefOf(ms[i], x, m.isFunction);
    }
  }

  /** A symbol with a strong definition is listed as strong. */
  lemma StrongIsListed(env: Env, datas: seq<string>, f: nat, m: Marker)
    requires Success(env, datas) && OneKind(env, Written(Link.Link(env)))
    requires forall f :: f in Written(Link.Link(env)) && f < |datas| ==> PartFine(datas[f])
    requires f in Written(Link.Link(env)) && f < |env.files| && m in env.files[f] && m.isDef && !m.weak
    ensures Listing(env, datas).Symbols?
    ensures var g := Listing(env, datas).global;
            m.name in g && g[m.name] == if m.isFunction then 'T' else 'D'
  {
    hide Link.Link, PartFine, OutputParts, MarkersOf, MarkersOrNone, GlobalMarkers, Listing;
    OutputIsListed(env, datas);
    OutputMarkers(env, datas, m);
    var ms := GlobalMarkers(OutputParts(datas, Link.Link(env)) + [""]);
    var i :| 0 <= i < |ms| && ms[i] == m;
    assert DefOf(ms[i], m.name, m.isFunction) && IsStrongDef(ms[i], m.name) && ms[i].name == m.name;
    assert Mentions(ms, m.name) && HasDef(ms, m.name, m.isFunction) && HasStrongDef(ms, m.name);
    assert Tells(true, ms, m.name, Listing(env, datas).global[m.name]);
  }

  /** nvptx-run hands on exactly the parts of the output, just when no written file
      but the first is empty. */
  lemma OutputIsHandedOn(env: Env, datas: seq<string>)
    requires Success(env, datas)
    ensures var o := Link.Link(env);
            o.firstRun <= |o.rounds| &&
            var ps := OutputParts(datas, o);
            Handed(Framed(ps)) == ps <==> forall i :: 1 <= i < |ps| ==> ps[i] != ""
  {
    hide Link.Link, OutputParts, Handed, Framed;
    OutputClean(env, datas);
    HandedExactly(OutputParts(datas, Link.Link(env)));
  }
}
