/** A link whose output nvptx-run does not hand on as it was written. */
module EmptyParts {
  import opened Common
  import opened Markers
  import opened LinkSpec
  import opened LinkInvariant
  import opened LinkRun
  import opened GlobalCtors
  import opened Link
  import opened LinkProgram
  import opened Framing

  predicate NoMarkers(env: Env) {
    forall f :: 0 <= f < |env.files| ==> env.files[f] == []
  }

  lemma {:induction false} NothingLinked(env: Env, st: State, fs: seq<nat>)
    requires NoMarkers(env) && forall i :: 0 <= i < |fs| ==> fs[i] < |env.files|
    ensures LinkFiles(env, st, fs) == Some(st)
  {
    if fs != [] { NothingLinked(env, st, fs[..|fs| - 1]); }
  }

  /** The pass over the unresolved symbols adds none, and leaves the other lists. */
  lemma {:induction false} CollectAddsNone(env: Env, st: State, es: seq<string>, toAdd: seq<nat>)
    requires CollectFrom(env, st, es, toAdd).Some?
    ensures var st' := CollectFrom(env, st, es, toAdd).value.0;
            st'.specials == st.specials && forall x :: x in st'.unresolved ==> x in st.unresolved
    decreases |es|
  {
    hide Star;
    if es != [] {
      var x, st1 := es[0], TakeSpecial(st, es[0]);
      assert forall y :: y in Without(st.unresolved, x) ==> y in st.unresolved by { WithoutLess(st.unresolved, x); }
      match Get(st, x).def {
        case Undefined =>
          WithoutLess(st1.unresolved, x);
          CollectAddsNone(env, Dequeue(st1, x), es[1..], toAdd);
        case InFile(f) => CollectAddsNone(env, st1, es[1..], if f in toAdd then toAdd else [f] + toAdd);
      }
    }
  }

  lemma {:induction false} WithoutLess(q: seq<string>, x: string)
    ensures forall y :: y in Without(q, x) ==> y in q
  {
    if q != [] && q[0] != x { WithoutLess(q[1..], x); }
  }

  /** Without markers no round is needed but the first. */
  lemma OneRound(env: Env)
    requires ValidEnv(env) && NoMarkers(env) && env.keys != []
    ensures var st, n := Scan(env, |env.files|), |env.keys|;
            ResolveInv(env, false, st, []) &&
            var r := Resolve(env, false, st, []);
            r.Done? && r.rounds == [Range(0, n)] && r.st.specials == [] && !Get(r.st, TRIGGER).included
  {
    hide Scan, Collect, LinkFiles, LinkInv, NoMarkers;
    ScannedInv(env);
    FirstCollect(env);
    var st := Scan(env, |env.files|);
    var (st1, toAdd) := Collect(env, st).value;
    CollectsStars(env, st, st1, toAdd);
    assert [] + [toAdd] == [toAdd];
    RoundKeepsInv(env, false, st, []);
    RoundProgress(env, false, st, []);
    NothingLinked(env, st1, toAdd);
    OnlyStars(env, st1.unresolved);
    NoTrigger(env, st1, [toAdd]);
    RegisteredUpTo(env, |env.keys|);
  }

  lemma CollectsStars(env: Env, st: State, st1: State, toAdd: seq<nat>)
    requires Collect(env, st) == Some((st1, toAdd))
    ensures st1.specials == st.specials && forall x :: x in st1.unresolved ==> x in st.unresolved
  {
    hide CollectFrom;
    CollectAddsNone(env, st, st.unresolved, []);
  }

  lemma OnlyStars(env: Env, q: seq<string>)
    requires ValidEnv(env) && (forall x :: x in q ==> x in Registered(env, |env.keys|)) && NoStars(q)
    ensures q == []
  {
    if q != [] {
      RegisteredIs(env, |env.keys|, q[0]);
    }
  }

  lemma NoTrigger(env: Env, st: State, rounds: seq<seq<nat>>)
    requires ResolveInv(env, false, st, rounds) && NoMarkers(env)
    ensures !Get(st, TRIGGER).included
  {
    hide Def;
    EventsMention(env, Flat(rounds), TRIGGER);
    assert SymInv(env, false, Events(env, Flat(rounds)), st.unresolved, TRIGGER, Get(st, TRIGGER));
    assert !Base(false, TRIGGER) && !Star(TRIGGER) by {
      assert |TRIGGER| == 19;
    }
  }

  /** Files without markers: the inputs are linked in one round, and nothing else. */
  lemma LinksInputs(env: Env)
    requires ValidEnv(env) && NoMarkers(env) && env.keys != []
    ensures var o := Link.Link(env);
            o.Linked? && o.rounds == [Range(0, |env.keys|)] && o.firstRun == 1 && o.part == None
  {
    hide Scan, Resolve, ResolveInv, NoMarkers, SecondStart;
    OneRound(env);
    WroteFacts(Resolve(env, false, Scan(env, |env.files|), []).st, []);
    hide HandleSpecials;
  }

  lemma EmptyFileScan()
    ensures MarkersOrNone("") == [] && ScanOf("") == Whole
  {
    assert Lines("") == [""];
  }

  /** Two empty objects link to two empty parts, of which nvptx-run hands on only the
      first. */
  lemma EmptyPartSkipped() returns (inputs: seq<InputFile>)
    ensures var datas := Objects(inputs) + [];
            && PlainMarkers(datas) && ScanAll(datas) == Whole
            && var o := LinkInputs(inputs, [], {});
            && o.Linked? && o.firstRun <= |o.rounds|
            && OutputParts(datas, o) == ["", ""] && Handed(Framed(OutputParts(datas, o))) == [""]
  {
    hide ScanOf, MarkersOrNone, Link.Link, KeyOf, Framed, Handed, CString, Range;
    inputs := [Object("a", ""), Object("b", "")];
    EmptyFileScan();
    TwoInputs(inputs);
    var datas := Objects(inputs) + [];
    var env := EnvOf(inputs, [], {});
    assert datas == ["", ""];
    assert PlainMarkers(datas) && NoMarkers(env);
    assert ScanAll(datas) == Whole by { TwoScanned(datas); }
    EnvIsValid(inputs, [], {});
    LinksInputs(env);
    OutputOfTwo(datas, Link.Link(env));
    HandedOfFramed(["", ""]);
  }

  lemma TwoInputs(inputs: seq<InputFile>)
    requires inputs == [Object("a", ""), Object("b", "")]
    ensures Objects(inputs) == ["", ""] && |InputKeys(inputs)| == 2
  {
    assert inputs[..1] == [inputs[0]] && inputs[..1][..0] == [];
    assert Objects(inputs[..1]) == [""];
  }

  lemma TwoScanned(datas: seq<string>)
    requires |datas| == 2 && ScanOf(datas[0]) == Whole && ScanOf(datas[1]) == Whole
    ensures ScanAll(datas) == Whole
  {
    assert datas[..1][..0] == [];
    assert ScanAll(datas[..1]) == Whole;
  }

  lemma OutputOfTwo(datas: seq<string>, o: Outcome)
    requires |datas| == 2 && o.Linked? && o.rounds == [Range(0, 2)] && o.firstRun == 1 && o.part == None
    ensures OutputParts(datas, o) == datas
  {
    assert o.rounds[..1] == o.rounds && o.rounds[1..] == [] && o.rounds[..0] == [];
    assert Flat(o.rounds) == Range(0, 2) by { assert Flat([]) == []; }
    assert Select(datas, Range(0, 2)) == datas;
  }
}
