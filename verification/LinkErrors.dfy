/** Why a link of nvptx-ld fails, told from the markers: every error has its cause in the
    files linked by then. */
module LinkErrors {
  import opened Common
  import opened Markers
  import opened LinkSpec
  import opened LinkInvariant
  import opened LinkRun
  import opened Link
  import opened GlobalCtors
  import opened SecondRun

  // Unresolved symbols

  /** No scanned file defines the symbol, and it may not stay unresolved. */
  predicate Missing(env: Env, lists: bool, x: string) {
    x !in env.ignore && !Base(lists, x) && FirstDef(env, |env.files|, x) == Undefined
  }

  /** A linked file declares a missing symbol; in the second run it may be the trigger,
      which some scanned file declares. */
  ghost predicate MissingSomewhere(env: Env, lists: bool, rounds: seq<seq<nat>>) {
    && LinkedFor(env, lists, rounds)
    && exists x :: Missing(env, lists, x) && Sought(lists, Events(env, Flat(rounds)), x)
  }

  predicate Sought(lists: bool, es: seq<Event>, x: string) {
    Declared(es, x) || (lists && x == TRIGGER)
  }

  lemma PassFails(env: Env, lists: bool, st: State, rounds: seq<seq<nat>>)
    requires ResolveInv(env, lists, st, rounds) && Collect(env, st) == None
    ensures MissingSomewhere(env, lists, rounds)
  {
    hide Declared, FirstDef, Events, AllJustified, StrongInv, Collect;
    var es := Events(env, Flat(rounds));
    CollectStart(env, lists, es, st);
    assert LinkInv(env, lists, es, st);
    PassFailsAt(env, lists, es, st);
  }

  lemma PassFailsAt(env: Env, lists: bool, es: seq<Event>, st: State)
    requires ValidEnv(env) && LinkInv(env, lists, es, st) && Collect(env, st) == None
    ensures exists x :: Missing(env, lists, x) && Sought(lists, es, x)
  {
    hide Declared, FirstDef, StrongInv, CollectFrom, Collecting;
    CollectStart(env, lists, es, st);
    CollectFromCorrect(env, lists, es, st.unresolved, st, st.unresolved, []);
    var x :| x in st.unresolved && x !in env.ignore && Def(env, lists, |env.files|, x) == Undefined;
    assert SymInv(env, lists, es, st.unresolved, x, Get(st, x));
    assert Missing(env, lists, x) && Sought(lists, es, x);
  }

  // Second definitions

  predicate StrongDef(m: Marker, x: string) {
    m.isDef && !m.weak && m.name == x
  }

  /** Two strong DEFs of one symbol in these files, or one of a symbol that no file may
      define. */
  ghost predicate Clash(env: Env, lists: bool, fs: seq<nat>)
    requires Scanned(env, fs)
  {
    exists i, k, x ::
      && StrongAt(env, fs, i, k, x)
      && (Base(lists, x) || exists j, l :: (j, l) != (i, k) && StrongAt(env, fs, j, l, x))
  }

  predicate StrongAt(env: Env, fs: seq<nat>, i: nat, k: nat, x: string)
    requires Scanned(env, fs)
  {
    i < |fs| && k < |env.files[fs[i]]| && StrongDef(env.files[fs[i]][k], x)
  }

  lemma {:induction false} FirstFailure(st: State, f: nat, ms: seq<Marker>) returns (k: nat)
    requires LinkMarkers(st, f, ms) == None
    ensures k < |ms| && LinkMarkers(st, f, ms[..k]).Some?
    ensures LinkMarker(LinkMarkers(st, f, ms[..k]).value, f, ms[k]) == None
  {
    hide LinkMarker;
    var n := |ms| - 1;
    if LinkMarkers(st, f, ms[..n]) == None {
      k := FirstFailure(st, f, ms[..n]);
      assert ms[..n][..k] == ms[..k];
    } else {
      k := n;
    }
  }

  lemma {:induction false} FailingFile(env: Env, st: State, fs: seq<nat>) returns (i: nat)
    requires Scanned(env, fs) && LinkFiles(env, st, fs) == None
    ensures i < |fs| && LinkFiles(env, st, fs[..i]).Some?
    ensures LinkMarkers(LinkFiles(env, st, fs[..i]).value, fs[i], env.files[fs[i]]) == None
  {
    hide LinkMarkers;
    var n := |fs| - 1;
    if LinkFiles(env, st, fs[..n]) == None {
      i := FailingFile(env, st, fs[..n]);
      assert fs[..n][..i] == fs[..i];
    } else {
      i := n;
    }
  }

  lemma {:induction false} StrongFrom(es: seq<Event>, x: string) returns (j: nat)
    requires Strong(es, x) != []
    ensures j < |es| && StrongDef(es[j].marker, x)
  {
    var n := |es| - 1;
    if StrongDef(es[n].marker, x) { j := n; } else { j := StrongFrom(es[..n], x); }
  }

  /** Where a marker of the linked files stands. */
  lemma {:induction false} EventFrom(env: Env, fs: seq<nat>, j: nat) returns (i: nat, k: nat)
    requires Scanned(env, fs) && j < |Events(env, fs)|
    ensures i < |fs| && k < |env.files[fs[i]]| && Events(env, fs)[j].marker == env.files[fs[i]][k]
  {
    var n := |fs| - 1;
    var before := Events(env, fs[..n]);
    if j < |before| {
      i, k := EventFrom(env, fs[..n], j);
    } else {
      i, k := n, j - |before|;
    }
  }

  lemma StrongInFiles(env: Env, fs: seq<nat>, x: string) returns (i: nat, k: nat)
    requires Scanned(env, fs) && Strong(Events(env, fs), x) != []
    ensures StrongAt(env, fs, i, k, x)
  {
    var j := StrongFrom(Events(env, fs), x);
    i, k := EventFrom(env, fs, j);
  }

  /** A strong DEF before marker `k` of the file linked after `done`: in an earlier file,
      or earlier in this one. */
  lemma StrongBefore(env: Env, done: seq<nat>, f: nat, k: nat, x: string) returns (i: nat, l: nat)
    requires Scanned(env, done) && f < |env.files| && k <= |env.files[f]|
    requires Strong(Events(env, done) + FileEvents(f, env.files[f][..k]), x) != []
    ensures (i < |done| && StrongAt(env, done, i, l, x)) ||
      (i == |done| && l < k && StrongDef(env.files[f][l], x))
  {
    var es := Events(env, done) + FileEvents(f, env.files[f][..k]);
    var j := StrongFrom(es, x);
    if j < |Events(env, done)| {
      assert es[j] == Events(env, done)[j];
      i, l := EventFrom(env, done, j);
    } else {
      i, l := |done|, j - |Events(env, done)|;
      assert es[j] == FileEvents(f, env.files[f][..k])[l];
    }
  }

  lemma FilesFail(env: Env, lists: bool, done: seq<nat>, st: State, fs: seq<nat>)
    requires ValidEnv(env) && Scanned(env, done) && Scanned(env, fs)
    requires LinkInv(env, lists, Events(env, done), st) && LinkFiles(env, st, fs) == None
    ensures Scanned(env, done + fs) && Clash(env, lists, done + fs)
  {
    hide LinkInv, LinkFiles, LinkMarkers, Events, Strong, StrongDef, Base, LinkMarker;
    var i := FailingFile(env, st, fs);
    FilesKeepInv(env, lists, done, st, fs[..i]);
    var st1, f := LinkFiles(env, st, fs[..i]).value, fs[i];
    var ms, done1 := env.files[f], done + fs[..i];
    assert Scanned(env, done1) && LinkInv(env, lists, Events(env, done1), st1);
    var k := FirstFailure(st1, f, ms);
    assert PlainNames(ms[..k]) && !Star(ms[k].name);
    FileKeepsInv(env, lists, Events(env, done1), st1, f, ms[..k]);
    var st2 := LinkMarkers(st1, f, ms[..k]).value;
    FailsAtSecondStrong(env, lists, Events(env, done1) + FileEvents(f, ms[..k]), st2, f, ms[k]);
    ClashAt(env, lists, done, fs, i, k);
  }

  lemma ClashAt(env: Env, lists: bool, done: seq<nat>, fs: seq<nat>, i: nat, k: nat)
    requires Scanned(env, done) && Scanned(env, fs) && i < |fs| && k < |env.files[fs[i]]|
    requires var ms := env.files[fs[i]];
             && Scanned(env, done + fs[..i]) && ms[k].isDef && !ms[k].weak
             && (Base(lists, ms[k].name) ||
               Strong(Events(env, done + fs[..i]) + FileEvents(fs[i], ms[..k]), ms[k].name) != [])
    ensures Scanned(env, done + fs) && Clash(env, lists, done + fs)
  {
    hide Events, Strong, Base;
    var ms, all, n := env.files[fs[i]], done + fs, |done| + i;
    var x := ms[k].name;
    assert all[n] == fs[i] && all[..n] == done + fs[..i];
    assert StrongAt(env, all, n, k, x);
    if !Base(lists, x) {
      var j, l := StrongBefore(env, done + fs[..i], fs[i], k, x);
      assert j < n ==> all[j] == (done + fs[..i])[j];
      assert StrongAt(env, all, j, l, x) && (j, l) != (n, k);
    }
  }

  // Whole runs

  /** What makes a resolve run fail that begins after the rounds `done`. */
  ghost predicate Explained(env: Env, lists: bool, done: seq<seq<nat>>, r: Resolved) {
    match r
    case Done(_, _) => true
    case UnresolvedSymbol => exists rounds :: done <= rounds && MissingSomewhere(env, lists, rounds)
    case MultipleDefinitions => exists rounds :: done <= rounds && ClashSomewhere(env, lists, rounds)
  }

  ghost predicate ClashSomewhere(env: Env, lists: bool, rounds: seq<seq<nat>>) {
    LinkedFor(env, lists, rounds) && Clash(env, lists, Flat(rounds))
  }

  lemma RoundFails(env: Env, lists: bool, st: State, rounds: seq<seq<nat>>)
    requires ResolveInv(env, lists, st, rounds) && Collect(env, st).Some?
    requires var (st1, toAdd) := Collect(env, st).value; Scanned(env, toAdd) && LinkFiles(env, st1, toAdd) == None
    ensures ClashSomewhere(env, lists, rounds + [Collect(env, st).value.1])
  {
    hide LinkInv, Collect, LinkFiles, Events, Justified, Clash, NoStars;
    CollectFindsNew(env, lists, st, rounds);
    var (st1, toAdd) := Collect(env, st).value;
    assert (rounds + [toAdd])[..|rounds|] == rounds;
    FilesFail(env, lists, Flat(rounds), st1, toAdd);
  }

  lemma {:induction false} RunExplained(env: Env, lists: bool, st: State, rounds: seq<seq<nat>>)
    requires ResolveInv(env, lists, st, rounds)
    ensures Explained(env, lists, rounds, Resolve(env, lists, st, rounds))
    decreases Unwritten(env, Flat(rounds)), |st.unresolved|
  {
    hide ResolveInv, Collect, LinkFiles, MissingSomewhere, ClashSomewhere;
    if st.unresolved != [] {
      if Collect(env, st) == None {
        PassFails(env, lists, st, rounds);
        assert rounds <= rounds;
      } else {
        RoundKeepsInv(env, lists, st, rounds);
        var (st1, toAdd) := Collect(env, st).value;
        if LinkFiles(env, st1, toAdd) == None {
          RoundFails(env, lists, st, rounds);
          assert rounds <= rounds + [toAdd];
        } else {
          RoundProgress(env, lists, st, rounds);
          RunExplained(env, lists, LinkFiles(env, st1, toAdd).value, rounds + [toAdd]);
        }
      }
    }
  }

  /** Rounds of the second run come after all of the first, when there is a second. */
  ghost predicate Happens(env: Env, lists: bool, rounds: seq<seq<nat>>)
    requires ValidEnv(env)
  {
    lists ==> First(env).Done? && Decision(env, FirstEvents(env), First(env)) == None && First(env).rounds <= rounds
  }

  /** The cause of an error: a linked file declares a symbol that no file defines; two
      strong DEFs in linked files; or what the markers of the first run decide. The lists
      and the trigger count in the second run only. */
  ghost predicate Caused(env: Env, e: LinkError)
    requires ValidEnv(env)
  {
    match e
    case Unresolved => exists lists, rounds :: Happens(env, lists, rounds) && MissingSomewhere(env, lists, rounds)
    case MultiplyDefined =>
      exists lists, rounds :: Happens(env, lists, rounds) && ClashSomewhere(env, lists, rounds)
    case BadSpecialFunction =>
      First(env).Done? && Decision(env, FirstEvents(env), First(env)) == Some(Failed(BadSpecialFunction))
    case LateSpecialFunction =>
      && First(env).Done? && Decision(env, FirstEvents(env), First(env)) == None
      && Late(env, FirstEvents(env), First(env).rounds)
  }

  lemma RunCaused(env: Env, lists: bool, done: seq<seq<nat>>, r: Resolved)
    requires ValidEnv(env) && Explained(env, lists, done, r) && Happens(env, lists, done)
    ensures r == UnresolvedSymbol ==> Caused(env, Unresolved)
    ensures r == MultipleDefinitions ==> Caused(env, MultiplyDefined)
  {
    hide MissingSomewhere, ClashSomewhere, First, FirstEvents, Decision, Late;
    if r == UnresolvedSymbol {
      var rounds :| done <= rounds && MissingSomewhere(env, lists, rounds);
      assert Happens(env, lists, rounds);
    }
    if r == MultipleDefinitions {
      var rounds :| done <= rounds && ClashSomewhere(env, lists, rounds);
      assert Happens(env, lists, rounds);
    }
  }

  lemma SecondFails(env: Env)
    requires ValidEnv(env) && First(env).Done? && Decision(env, FirstEvents(env), First(env)) == None
    ensures Link.Link(env).Failed? ==> Caused(env, Link.Link(env).error)
  {
    hide Caused, Explained, Resolve, Scan, Late, Decision, ResolveInv, Tracks, Specials, TriggerRound,
      SecondStart, DefineList, JoinLines, PartLines;
    FirstDecides(env);
    SecondDecides(env);
    var r := First(env);
    var st := SecondStart(DefineList(DefineList(r.st, CTOR_LIST), DTOR_LIST));
    RunExplained(env, true, st, r.rounds);
    RunCaused(env, true, r.rounds, Resolve(env, true, st, r.rounds));
    LateCaused(env);
  }

  lemma LateCaused(env: Env)
    requires ValidEnv(env) && First(env).Done?
    ensures Decision(env, FirstEvents(env), First(env)) == None && Late(env, FirstEvents(env), First(env).rounds) ==>
      Caused(env, LateSpecialFunction)
    ensures Decision(env, FirstEvents(env), First(env)) == Some(Failed(BadSpecialFunction)) ==>
      Caused(env, BadSpecialFunction)
  {
    hide First, FirstEvents, Decision, Late;
  }

  lemma FirstFails(env: Env)
    requires ValidEnv(env) && !First(env).Done?
    ensures Link.Link(env).Failed? && Caused(env, Link.Link(env).error)
  {
    hide Explained, Caused, Resolve, Scan;
    ScannedInv(env);
    RunExplained(env, false, Scan(env, |env.files|), []);
    RunCaused(env, false, [], First(env));
  }

  /** Every error has its cause. */
  lemma FailureExplained(env: Env)
    requires ValidEnv(env) && Link.Link(env).Failed?
    ensures Caused(env, Link.Link(env).error)
  {
    hide Caused, First, FirstEvents, Link.Link, Specials, Tracks, ResolveInv, AfterSecond, Late;
    if !First(env).Done? {
      FirstFails(env);
    } else {
      FirstDecides(env);
      LateCaused(env);
      if Decision(env, FirstEvents(env), First(env)) == None { SecondFails(env); }
    }
  }
  /** An assertion fails only if the markers of the first run decide so, or if no scanned
      file defines the trigger and that is ignored. */
  lemma AbortExplained(env: Env)
    requires ValidEnv(env) && Link.Link(env) == AssertionFailed
    ensures First(env).Done?
    ensures Decision(env, FirstEvents(env), First(env)) == Some(AssertionFailed) ||
      (Decision(env, FirstEvents(env), First(env)) == None && NoTrigger(env))
  {
    hide Caused, First, FirstEvents, Link.Link, Specials, Tracks, ResolveInv, AfterSecond, Late, NoTrigger;
    if !First(env).Done? {
      FirstFails(env);
    } else {
      FirstDecides(env);
      if Decision(env, FirstEvents(env), First(env)) == None { SecondDecides(env); }
    }
  }
}
