/** When nvptx-ld writes the lists of constructors and destructors and links a second
    time, told from the markers alone. */
module SecondRun {
  import opened Common
  import opened Markers
  import opened LinkSpec
  import opened LinkInvariant
  import opened LinkRun
  import opened GlobalCtors
  import opened Link
  import opened CtorLists

  // Special-purpose functions

  predicate IsSpecial(x: string) {
    "_GLOBAL__" <= x
  }

  lemma SpecialName(x: string)
    ensures StartsAt(x, 0, "_GLOBAL__") <==> IsSpecial(x)
    ensures IsSpecial(x) ==> !Star(x) && !Base(true, x) && !Base(false, x)
  {
    var p := "_GLOBAL__";
    assert |x| >= |p| ==> x[..|p|] == x[0..|p|];
    if IsSpecial(x) { assert x[0] == p[0] && x[1] == p[1]; }
  }

  /** The special-purpose functions defined so far, in order of appearance. */
  function Specials(es: seq<Event>): seq<string> {
    if es == [] then []
    else
      var n := |es| - 1;
      var m := es[n].marker;
      Specials(es[..n]) + if m.isDef && IsSpecial(m.name) && !Defined(es[..n], m.name) then [m.name] else []
  }

  lemma SpecialsMore(es: seq<Event>, e: Event)
    ensures var m := e.marker;
            Specials(es + [e]) ==
              Specials(es) + if m.isDef && IsSpecial(m.name) && !Defined(es, m.name) then [m.name] else []
  {
    assert (es + [e])[..|es|] == es;
  }

  /** They are all that a DEF names, each once. */
  lemma {:induction false} SpecialsAre(es: seq<Event>)
    ensures Distinct(Specials(es)) && forall x :: x in Specials(es) <==> IsSpecial(x) && Defined(es, x)
  {
    if es != [] {
      SpecialsAre(es[..|es| - 1]);
      assert forall x :: Defined(es, x) <==>
        Defined(es[..|es| - 1], x) || (es[|es| - 1].marker.isDef && es[|es| - 1].marker.name == x);
    }
  }

  /** Some scanned file has a marker that names `x`. */
  predicate Mentioned(env: Env, n: nat, x: string)
    requires n <= |env.files|
  {
    exists f :: 0 <= f < n && Mentions(env.files[f], x)
  }

  predicate Mentions(ms: seq<Marker>, x: string) {
    exists k :: 0 <= k < |ms| && ms[k].name == x
  }

  // What the state says of them

  /** `before` are those already handled. */
  ghost predicate Tracks(env: Env, lists: bool, es: seq<Event>, st: State, before: seq<string>) {
    && before + st.specials == Specials(es)
    && (forall x :: Get(st, x).referenced && !Star(x) ==> Declared(es, x) || (lists && x == TRIGGER))
    && (TRIGGER in st.syms <==> Mentioned(env, |env.files|, TRIGGER))
  }

  lemma MarkerTracks(env: Env, lists: bool, es: seq<Event>, st: State, f: nat, m: Marker, before: seq<string>)
    requires LinkInv(env, lists, es, st) && Tracks(env, lists, es, st, before)
    requires !Star(m.name) && LinkMarker(st, f, m).Some?
    requires m.name == TRIGGER ==> Mentioned(env, |env.files|, TRIGGER)
    ensures Tracks(env, lists, es + [Event(f, m)], LinkMarker(st, f, m).value, before)
  {
    hide Declared, Defined, Def, Base, Star, StrongInv, Mentioned, Specials, Without, IsSpecial, StartsAt;
    var st', es', x := LinkMarker(st, f, m).value, es + [Event(f, m)], m.name;
    SpecialsMore(es, Event(f, m));
    SpecialName(x);
    assert SymInv(env, lists, es, st.unresolved, x, Get(st, x));
    assert before + st'.specials == Specials(es');
    forall y | Get(st', y).referenced && !Star(y) ensures Declared(es', y) || (lists && y == TRIGGER) {
      OneMore(es, Event(f, m), y);
    }
  }

  lemma {:induction false} FileTracks(env: Env, lists: bool, es: seq<Event>, st: State, f: nat, ms: seq<Marker>,
      before: seq<string>)
    requires ValidEnv(env) && f < |env.files| && ms <= env.files[f]
    requires LinkInv(env, lists, es, st) && Tracks(env, lists, es, st, before) && LinkMarkers(st, f, ms).Some?
    ensures Tracks(env, lists, es + FileEvents(f, ms), LinkMarkers(st, f, ms).value, before)
  {
    hide LinkInv, Tracks, LinkMarker, Star, Mentioned;
    if ms == [] {
      assert es + FileEvents(f, ms) == es;
    } else {
      var n := |ms| - 1;
      FileTracks(env, lists, es, st, f, ms[..n], before);
      assert PlainNames(ms[..n]) && !Star(ms[n].name) by { PlainFileNames(env, f, ms); }
      FileKeepsInv(env, lists, es, st, f, ms[..n]);
      assert ms[n].name == TRIGGER ==> Mentioned(env, |env.files|, TRIGGER) by { MentionedHere(env, f, ms, n); }
      MarkerTracks(env, lists, es + FileEvents(f, ms[..n]), LinkMarkers(st, f, ms[..n]).value, f, ms[n], before);
      assert es + FileEvents(f, ms[..n]) + [Event(f, ms[n])] == es + FileEvents(f, ms);
    }
  }

  lemma PlainFileNames(env: Env, f: nat, ms: seq<Marker>)
    requires ValidEnv(env) && f < |env.files| && ms <= env.files[f]
    ensures PlainNames(ms)
  {
    forall k | 0 <= k < |ms| ensures !Star(ms[k].name) { assert ms[k] == env.files[f][k]; }
  }

  lemma MentionedHere(env: Env, f: nat, ms: seq<Marker>, n: nat)
    requires f < |env.files| && ms <= env.files[f] && n < |ms|
    ensures Mentioned(env, |env.files|, ms[n].name)
  {
    assert env.files[f][n] == ms[n];
    assert Mentions(env.files[f], ms[n].name);
  }

  lemma {:induction false} FilesTrack(env: Env, lists: bool, done: seq<nat>, st: State, fs: seq<nat>,
      before: seq<string>)
    requires ValidEnv(env) && Scanned(env, done) && Scanned(env, fs)
    requires LinkInv(env, lists, Events(env, done), st) && Tracks(env, lists, Events(env, done), st, before)
    requires LinkFiles(env, st, fs).Some?
    ensures Scanned(env, done + fs)
    ensures Tracks(env, lists, Events(env, done + fs), LinkFiles(env, st, fs).value, before)
  {
    hide LinkInv, Tracks, LinkMarkers;
    if fs == [] {
      assert done + fs == done;
    } else {
      var n := |fs| - 1;
      FilesTrack(env, lists, done, st, fs[..n], before);
      FilesKeepInv(env, lists, done, st, fs[..n]);
      var st1 := LinkFiles(env, st, fs[..n]).value;
      FileTracks(env, lists, Events(env, done + fs[..n]), st1, fs[n], env.files[fs[n]], before);
      assert (done + fs)[..|done + fs| - 1] == done + fs[..n];
    }
  }

  /** The pass over the unresolved symbols looks up no new name, references none, and
      defines no function. */
  lemma {:induction false} PassKeeps(env: Env, st: State, es: seq<string>, toAdd: seq<nat>, x: string)
    requires CollectFrom(env, st, es, toAdd).Some? && !Star(x)
    ensures var st' := CollectFrom(env, st, es, toAdd).value.0;
            st'.specials == st.specials && Get(st', x) == Get(st, x) && (x in st'.syms <==> x in st.syms)
    decreases |es|
  {
    hide Star;
    if es != [] {
      var y, st1 := es[0], TakeSpecial(st, es[0]);
      assert y == x ==> !Star(y);
      match Get(st, y).def {
        case Undefined => PassKeeps(env, Dequeue(st1, y), es[1..], toAdd, x);
        case InFile(f) => PassKeeps(env, st1, es[1..], if f in toAdd then toAdd else [f] + toAdd, x);
      }
    }
  }

  lemma TriggerPlain()
    ensures !Star(TRIGGER) && !Base(false, TRIGGER) && !Base(true, TRIGGER)
  {
    assert |TRIGGER| == 19;
  }

  lemma CollectTracks(env: Env, lists: bool, es: seq<Event>, st: State, before: seq<string>)
    requires Tracks(env, lists, es, st, before) && Collect(env, st).Some?
    ensures Tracks(env, lists, es, Collect(env, st).value.0, before)
  {
    hide CollectFrom, Declared, Mentioned, Specials, Star;
    TriggerPlain();
    PassKeeps(env, st, st.unresolved, [], TRIGGER);
    var st' := Collect(env, st).value.0;
    forall x | Get(st', x).referenced && !Star(x) ensures Declared(es, x) || (lists && x == TRIGGER) {
      PassKeeps(env, st, st.unresolved, [], x);
    }
  }

  lemma RoundTracks(env: Env, lists: bool, st: State, rounds: seq<seq<nat>>, before: seq<string>)
    requires ResolveInv(env, lists, st, rounds) && Collect(env, st).Some?
    requires Tracks(env, lists, Events(env, Flat(rounds)), st, before)
    ensures var (st1, toAdd) := Collect(env, st).value;
            && Scanned(env, toAdd)
            && (LinkFiles(env, st1, toAdd).Some? ==>
              && Scanned(env, Flat(rounds + [toAdd]))
              && Tracks(env, lists, Events(env, Flat(rounds + [toAdd])), LinkFiles(env, st1, toAdd).value, before))
  {
    hide LinkInv, Tracks, Collect, LinkFiles, Events, AllJustified, NoStars, Justified;
    CollectFindsNew(env, lists, st, rounds);
    CollectTracks(env, lists, Events(env, Flat(rounds)), st, before);
    var (st1, toAdd) := Collect(env, st).value;
    assert (rounds + [toAdd])[..|rounds|] == rounds;
    if LinkFiles(env, st1, toAdd).Some? {
      FilesTrack(env, lists, Flat(rounds), st1, toAdd, before);
    }
  }

  /** A whole resolve run keeps track. */
  lemma {:induction false} ResolveTracks(env: Env, lists: bool, st: State, rounds: seq<seq<nat>>, before: seq<string>)
    requires ResolveInv(env, lists, st, rounds) && Resolve(env, lists, st, rounds).Done?
    requires Tracks(env, lists, Events(env, Flat(rounds)), st, before)
    ensures var r := Resolve(env, lists, st, rounds);
            Scanned(env, Flat(r.rounds)) && Tracks(env, lists, Events(env, Flat(r.rounds)), r.st, before)
    decreases Unwritten(env, Flat(rounds)), |st.unresolved|
  {
    hide ResolveInv, Tracks, Collect, LinkFiles, Events;
    JustifiedOf(env, lists, st, rounds);
    if st.unresolved != [] {
      var (st1, toAdd) := Collect(env, st).value;
      RoundKeepsInv(env, lists, st, rounds);
      RoundTracks(env, lists, st, rounds, before);
      RoundProgress(env, lists, st, rounds);
      ResolveTracks(env, lists, LinkFiles(env, st1, toAdd).value, rounds + [toAdd], before);
    }
  }

  // The start

  lemma {:induction false} ScanLooksUp(st: State, f: nat, ms: seq<Marker>, x: string)
    ensures x in ScanMarkers(st, f, ms).syms <==> x in st.syms || Mentions(ms, x)
  {
    if ms != [] {
      var n := |ms| - 1;
      ScanLooksUp(st, f, ms[..n], x);
      MentionsMore(ms[..n], ms[n], x);
      assert ms[..n] + [ms[n]] == ms;
    }
  }

  lemma MentionsMore(ms: seq<Marker>, m: Marker, x: string)
    ensures Mentions(ms + [m], x) <==> Mentions(ms, x) || m.name == x
  {
    var all := ms + [m];
    if Mentions(ms, x) {
      var k :| 0 <= k < |ms| && ms[k].name == x;
      assert all[k] == ms[k];
    }
    assert all[|ms|] == m;
  }

  lemma {:induction false} TriggerLookedUp(env: Env, n: nat)
    requires ValidEnv(env) && n <= |env.files|
    ensures TRIGGER in Scan(env, n).syms <==> Mentioned(env, n, TRIGGER)
  {
    hide Mentions, ScanMarkers, Star;
    if n > 0 {
      TriggerLookedUp(env, n - 1);
      ScanLooksUp(Scan(env, n - 1), n - 1, env.files[n - 1], TRIGGER);
      TriggerPlain();
      assert n - 1 < |env.keys| ==> Star(env.keys[n - 1]);
    } else {
      assert |TRIGGER| == 19;
    }
  }

  lemma ScannedTracks(env: Env)
    requires ValidEnv(env)
    ensures Tracks(env, false, [], Scan(env, |env.files|), [])
  {
    hide Scan, Mentioned, Star, Def;
    var n := |env.files|;
    TriggerLookedUp(env, n);
    forall x | Get(Scan(env, n), x).referenced ensures Star(x) {
      ScanCorrect(env, n, x);
    }
    ScanCorrect(env, n, "");
    assert Flat([]) == [];
  }

  /** The first resolve run. */
  function First(env: Env): Resolved
    requires ValidEnv(env)
  {
    ScannedInv(env);
    Resolve(env, false, Scan(env, |env.files|), [])
  }

  lemma FirstTracks(env: Env)
    requires ValidEnv(env) && First(env).Done?
    ensures var r := First(env);
            && ResolveInv(env, false, r.st, r.rounds) && r.st.unresolved == []
            && Scanned(env, Flat(r.rounds)) && LinkInv(env, false, Events(env, Flat(r.rounds)), r.st)
            && Tracks(env, false, Events(env, Flat(r.rounds)), r.st, [])
  {
    hide Scan, Resolve, Tracks, LinkInv, AllJustified;
    ScannedInv(env);
    ScannedTracks(env);
    assert Flat([]) == [] && Events(env, []) == [];
    ResolveTracks(env, false, Scan(env, |env.files|), [], []);
  }

  /** The markers of the first run, in the order linked. */
  function FirstEvents(env: Env): seq<Event>
    requires ValidEnv(env) && First(env).Done?
  {
    FirstTracks(env);
    Events(env, Flat(First(env).rounds))
  }

  // What is decided after the first run

  /** A constructor has no priority, or a name is of neither kind. */
  predicate BadConstructors(names: seq<string>) {
    exists i :: 0 <= i < |names| &&
      if "_GLOBAL__I_" <= names[i] then Priority(names[i]) < 0 else !("_GLOBAL__D_" <= names[i])
  }

  predicate BadDestructors(names: seq<string>) {
    exists i :: 0 <= i < |names| && "_GLOBAL__D_" <= names[i] && Priority(names[i]) < 0
  }

  lemma BadIs(names: seq<string>)
    ensures BadConstructors(names) <==> !Expected(names) || !ValidPriorities(Cdtors(names, CTOR_PREFIX))
    ensures BadDestructors(names) <==> !ValidPriorities(Cdtors(names, DTOR_PREFIX))
  {
    hide Priority, ValidPriorities, Cdtors;
    ValidIs(names, CTOR_PREFIX);
    ValidIs(names, DTOR_PREFIX);
  }

  /** What the first run's markers decide: `None` is a second run. */
  function Decision(env: Env, es: seq<Event>, r: Resolved): Option<Outcome>
    requires r.Done?
  {
    var names := Specials(es);
    if Defined(es, TRIGGER) then Some(AssertionFailed)
    else if !Mentioned(env, |env.files|, TRIGGER) || names == [] then Some(Linked(r.st, r.rounds, |r.rounds|, None))
    else if BadConstructors(names) then Some(Failed(BadSpecialFunction))
    else if Defined(es, CTOR_LIST) then Some(AssertionFailed)
    else if BadDestructors(names) then Some(Failed(BadSpecialFunction))
    else if Defined(es, DTOR_LIST) || Declared(es, TRIGGER) then Some(AssertionFailed)
    else None
  }

  lemma IncludedIs(env: Env, lists: bool, es: seq<Event>, st: State, x: string)
    requires LinkInv(env, lists, es, st) && !Star(x)
    ensures Get(st, x).included <==> Base(lists, x) || Defined(es, x)
    ensures Declared(es, x) ==> Get(st, x).included || Get(st, x).referenced
  {
    hide Base, Defined, Declared, Def, StrongInv;
    assert SymInv(env, lists, es, st.unresolved, x, Get(st, x));
  }

  lemma ListsPlain()
    ensures !Star(CTOR_LIST) && !Star(DTOR_LIST) && !Base(false, CTOR_LIST) && !Base(false, DTOR_LIST)
  {
    assert |CTOR_LIST| == 13 && |DTOR_LIST| == 13;
  }

  /** The state a second run starts from, and the text written before it. */
  lemma SecondFrom(env: Env, st: State, es: seq<Event>)
    requires LinkInv(env, false, es, st) && Tracks(env, false, es, st, [])
    requires Mentioned(env, |env.files|, TRIGGER)
    ensures Tracks(env, true, es, SecondStart(DefineList(DefineList(st, CTOR_LIST), DTOR_LIST)), Specials(es))
  {
    hide Declared, Defined, Mentioned, Specials, LinkInv, Star;
    assert [] + st.specials == st.specials && Specials(es) + [] == Specials(es);
    TriggerPlain();
    var st' := SecondStart(DefineList(DefineList(st, CTOR_LIST), DTOR_LIST));
    forall x | Get(st', x).referenced && !Star(x) ensures Declared(es, x) || x == TRIGGER {
      assert x != TRIGGER ==> Get(st, x).referenced;
    }
  }

  /** Everything but a second run is decided by the markers of the first. */
  lemma FirstDecides(env: Env)
    requires ValidEnv(env) && First(env).Done?
    ensures var r, es := First(env), FirstEvents(env);
            match Decision(env, es, r)
            case Some(o) => Link.Link(env) == o
            case None =>
              var st1 := DefineList(DefineList(r.st, CTOR_LIST), DTOR_LIST);
              && ResolveInv(env, true, SecondStart(st1), r.rounds)
              && Tracks(env, true, es, SecondStart(st1), Specials(es))
              && Link.Link(env) == AfterSecond(Resolve(env, true, SecondStart(st1), r.rounds), |r.rounds|,
                JoinLines(PartLines(Specials(es))))
  {
    hide Scan, Resolve, LinkInv, AllJustified, Defined, Declared, Base, Star, Expected, ValidPriorities, Cdtors,
      PartLines, JoinLines, SecondStart, DefineList, Specials, Mentioned, AfterSecond, ResolveInv, BadConstructors,
      BadDestructors;
    FirstTracks(env);
    var r, es := First(env), FirstEvents(env);
    var st := r.st;
    BadIs(Specials(es));
    TriggerPlain();
    ListsPlain();
    IncludedIs(env, false, es, st, TRIGGER);
    IncludedIs(env, false, es, st, CTOR_LIST);
    IncludedIs(env, false, es, st, DTOR_LIST);
    assert [] + st.specials == st.specials;
    DefinedMentioned(env, Flat(r.rounds), TRIGGER);
    if Decision(env, es, r) == None {
      SecondRunInv(env, st, r.rounds);
      SecondFrom(env, st, es);
    }
  }

  lemma DefinedMentioned(env: Env, fs: seq<nat>, x: string)
    requires Scanned(env, fs)
    ensures Defined(Events(env, fs), x) ==> Mentioned(env, |env.files|, x)
  {
    EventsMention(env, fs, x);
    if i :| 0 <= i < |fs| && Defines(env.files[fs[i]], x) {
      assert Mentions(env.files[fs[i]], x);
    }
  }

  // The second run

  /** The pass over the trigger alone collects the first file that defines it. */
  lemma TriggerCollects(env: Env, st: State)
    requires st.unresolved == [TRIGGER] && Collect(env, st).Some?
    ensures Get(st, TRIGGER).def.InFile? ==> Collect(env, st).value.1 == [Get(st, TRIGGER).def.file]
    ensures Get(st, TRIGGER).def.InFile? || TRIGGER in env.ignore
  {
    hide Star;
    TriggerPlain();
    NothingMore(env, st, if Get(st, TRIGGER).def.InFile? then [Get(st, TRIGGER).def.file] else []);
    assert [TRIGGER][1..] == [];
    assert Get(st, TRIGGER).def.InFile? ==> [Get(st, TRIGGER).def.file] + [] == [Get(st, TRIGGER).def.file];
  }

  lemma NothingMore(env: Env, st: State, toAdd: seq<nat>)
    ensures CollectFrom(env, st, [], toAdd) == Some((st, toAdd))
  {
  }

  lemma ResolveGoesOn(env: Env, st: State, rounds: seq<seq<nat>>)
    requires ResolveInv(env, true, st, rounds) && Resolve(env, true, st, rounds).Done? && st.unresolved != []
    ensures var r := Resolve(env, true, st, rounds);
            && Collect(env, st).Some? && |rounds| < |r.rounds|
            && rounds <= r.rounds && r.rounds[|rounds|] == Collect(env, st).value.1
  {
    hide ResolveInv, Collect, LinkFiles;
    var (st1, toAdd) := Collect(env, st).value;
    RoundKeepsInv(env, true, st, rounds);
    assert rounds + [toAdd] <= Resolve(env, true, st, rounds).rounds;
    assert (rounds + [toAdd])[|rounds|] == toAdd;
  }

  lemma TriggerUnresolved(st: State)
    requires st.unresolved == []
    ensures SecondStart(DefineList(DefineList(st, CTOR_LIST), DTOR_LIST)).unresolved == [TRIGGER]
  {
  }

  /** The trigger is linked from the first file that defines it, if any does. */
  lemma TriggerDefined(env: Env, es: seq<Event>, st: State)
    requires LinkInv(env, true, es, st)
    ensures Get(st, TRIGGER).def == FirstDef(env, |env.files|, TRIGGER)
    ensures Get(st, TRIGGER).included <==> Defined(es, TRIGGER)
  {
    hide Base, Star, Defined, Declared, StrongInv, FirstDef;
    TriggerPlain();
    assert SymInv(env, true, es, st.unresolved, TRIGGER, Get(st, TRIGGER));
  }

  /** Linking the trigger's file defines it. */
  lemma RoundDefines(env: Env, rounds: seq<seq<nat>>, k: nat)
    requires Scanned(env, Flat(rounds)) && TriggerRound(env, rounds, k)
    ensures Defined(Events(env, Flat(rounds)), TRIGGER)
  {
    hide Defines, Defined, FirstDef;
    var f, fs := FirstDef(env, |env.files|, TRIGGER).file, Flat(rounds);
    InFlat(rounds, k, f);
    var i :| 0 <= i < |fs| && fs[i] == f;
    EventsMention(env, fs, TRIGGER);
    assert Defines(env.files[fs[i]], TRIGGER);
  }

  lemma {:induction false} InFlat(rounds: seq<seq<nat>>, k: nat, f: nat)
    requires k < |rounds| && f in rounds[k]
    ensures f in Flat(rounds)
  {
    if k < |rounds| - 1 { InFlat(rounds[..|rounds| - 1], k, f); }
  }

  lemma UndefinedNowhere(env: Env, fs: seq<nat>, x: string)
    requires Scanned(env, fs) && Defined(Events(env, fs), x)
    ensures FirstDef(env, |env.files|, x).InFile?
  {
    hide Defines;
    EventsMention(env, fs, x);
  }

  /** Files linked for a reason, round after round. */
  ghost predicate LinkedFor(env: Env, lists: bool, rounds: seq<seq<nat>>) {
    Scanned(env, Flat(rounds)) && Distinct(Flat(rounds)) && AllJustified(env, lists, rounds)
  }

  /** One of these files defines a special-purpose function that `es` do not. */
  ghost predicate Additional(env: Env, es: seq<Event>, fs: seq<nat>)
    requires Scanned(env, fs)
  {
    exists i, x {:trigger Defines(env.files[fs[i]], x)} ::
      0 <= i < |fs| && IsSpecial(x) && Defines(env.files[fs[i]], x) && !Defined(es, x)
  }

  /** So does a file linked after these rounds. */
  ghost predicate Late(env: Env, es: seq<Event>, rounds: seq<seq<nat>>) {
    exists all :: rounds <= all && LinkedFor(env, true, all) && Additional(env, es, Flat(all))
  }

  lemma AdditionalIs(env: Env, es: seq<Event>, fs: seq<nat>, x: string)
    requires Scanned(env, fs) && x in Specials(Events(env, fs)) && x !in Specials(es)
    ensures Additional(env, es, fs)
  {
    hide Defines, Defined, Specials;
    SpecialsAre(Events(env, fs));
    SpecialsAre(es);
    EventsMention(env, fs, x);
    var i :| 0 <= i < |fs| && Defines(env.files[fs[i]], x);
  }

  /** Round `k` links just the first file that defines the trigger. */
  predicate TriggerRound(env: Env, rounds: seq<seq<nat>>, k: nat) {
    && k < |rounds| && FirstDef(env, |env.files|, TRIGGER).InFile?
    && rounds[k] == [FirstDef(env, |env.files|, TRIGGER).file]
  }

  /** How a link ends after a second run; `es` are the markers of the first, linked in
      these rounds. */
  ghost predicate SecondOutcome(env: Env, es: seq<Event>, rounds: seq<seq<nat>>, o: Outcome) {
    && (o.Linked? ==>
      && o.part == Some(JoinLines(PartLines(Specials(es)))) && o.firstRun == |rounds| && rounds <= o.rounds
      && TriggerRound(env, o.rounds, |rounds|)
      && Scanned(env, Flat(o.rounds)) && Specials(Events(env, Flat(o.rounds))) == Specials(es))
    && (o == Failed(LateSpecialFunction) ==> Late(env, es, rounds))
    && (o == AssertionFailed ==> NoTrigger(env))
  }

  /** No scanned file defines the trigger, and it may stay unresolved. */
  predicate NoTrigger(env: Env) {
    TRIGGER in env.ignore && FirstDef(env, |env.files|, TRIGGER) == Undefined
  }

  lemma SecondDecides(env: Env)
    requires ValidEnv(env) && First(env).Done? && Decision(env, FirstEvents(env), First(env)) == None
    ensures SecondOutcome(env, FirstEvents(env), First(env).rounds, Link.Link(env))
  {
    hide ResolveInv, Tracks, Resolve, SecondStart, DefineList, SecondOutcome, AfterSecond, Scan, Specials, Decision;
    FirstDecides(env);
    var r := First(env);
    FirstTracks(env);
    TriggerUnresolved(r.st);
    SecondEnds(env, SecondStart(DefineList(DefineList(r.st, CTOR_LIST), DTOR_LIST)), r.rounds, FirstEvents(env));
  }

  lemma SecondEnds(env: Env, st: State, rounds: seq<seq<nat>>, es: seq<Event>)
    requires ResolveInv(env, true, st, rounds) && st.unresolved == [TRIGGER]
    requires es == Events(env, Flat(rounds)) && Tracks(env, true, es, st, Specials(es))
    ensures SecondOutcome(env, es, rounds,
      AfterSecond(Resolve(env, true, st, rounds), |rounds|, JoinLines(PartLines(Specials(es)))))
  {
    hide Resolve, Specials, Late, Events, TriggerRound, JoinLines, PartLines, ResolveInv, Tracks, Get;
    if Resolve(env, true, st, rounds).Done? { SecondTracks(env, st, rounds, es); }
  }

  lemma SecondTracks(env: Env, st: State, rounds: seq<seq<nat>>, es: seq<Event>)
    requires ResolveInv(env, true, st, rounds) && Resolve(env, true, st, rounds).Done? && st.unresolved == [TRIGGER]
    requires es == Events(env, Flat(rounds)) && Tracks(env, true, es, st, Specials(es))
    ensures var r2 := Resolve(env, true, st, rounds);
            && Scanned(env, Flat(r2.rounds)) && rounds <= r2.rounds
            && (r2.st.specials == [] ==> Specials(Events(env, Flat(r2.rounds))) == Specials(es))
            && (r2.st.specials != [] ==> Late(env, es, rounds))
            && (if Get(r2.st, TRIGGER).included then TriggerRound(env, r2.rounds, |rounds|) else NoTrigger(env))
  {
    hide Resolve, FirstDef, Defined, Declared, Collect, Specials, Additional, Get, LinkInv, AllJustified, Events;
    var r2 := Resolve(env, true, st, rounds);
    var fs := Flat(r2.rounds);
    ResolveTracks(env, true, st, rounds, Specials(es));
    ResolveGoesOn(env, st, rounds);
    TriggerDefined(env, Events(env, Flat(rounds)), st);
    TriggerCollects(env, st);
    TriggerDefined(env, Events(env, fs), r2.st);
    if Get(r2.st, TRIGGER).included {
      UndefinedNowhere(env, fs, TRIGGER);
    } else if FirstDef(env, |env.files|, TRIGGER).InFile? {
      RoundDefines(env, r2.rounds, |rounds|);
    }
    assert Specials(es) + r2.st.specials == Specials(Events(env, fs));
    if r2.st.specials != [] {
      SpecialsAre(Events(env, fs));
      NewSpecial(Specials(es), r2.st.specials);
      AdditionalIs(env, es, fs, r2.st.specials[0]);
      assert LinkedFor(env, true, r2.rounds);
    }
  }

  lemma NewSpecial(a: seq<string>, b: seq<string>)
    requires Distinct(a + b) && b != []
    ensures b[0] in a + b && b[0] !in a
  {
    assert (a + b)[|a|] == b[0];
    forall i | 0 <= i < |a| ensures a[i] != b[0] { assert (a + b)[i] == a[i]; }
  }

  /** A file of the first run defines a special-purpose function. */
  ghost predicate SomeSpecial(env: Env, fs: seq<nat>)
    requires Scanned(env, fs)
  {
    exists i, x {:trigger Defines(env.files[fs[i]], x)} ::
      0 <= i < |fs| && IsSpecial(x) && Defines(env.files[fs[i]], x)
  }

  lemma SomeSpecialIs(env: Env, fs: seq<nat>)
    requires Scanned(env, fs)
    ensures SomeSpecial(env, fs) <==> Specials(Events(env, fs)) != []
  {
    hide Defines, Defined, Specials, Events;
    var es := Events(env, fs);
    SpecialsAre(es);
    if SomeSpecial(env, fs) {
      var i, x :| 0 <= i < |fs| && IsSpecial(x) && Defines(env.files[fs[i]], x);
      EventsMention(env, fs, x);
      assert x in Specials(es);
    }
    if Specials(es) != [] {
      var x := Specials(es)[0];
      assert x in Specials(es);
      EventsMention(env, fs, x);
      var i :| 0 <= i < |fs| && Defines(env.files[fs[i]], x);
    }
  }

  /** In a successful link the lists are written just when some scanned file names the
      trigger and some file of the first run defines a special-purpose function. Then
      the second run begins with the first file that defines the trigger; no file
      written later defines another such function. */
  lemma ListsDecided(env: Env)
    requires ValidEnv(env) && Link.Link(env).Linked?
    ensures var o := Link.Link(env);
            && o.firstRun <= |o.rounds| && Scanned(env, Flat(o.rounds)) && Scanned(env, Flat(o.rounds[..o.firstRun]))
            && var names := Specials(Events(env, Flat(o.rounds[..o.firstRun])));
            && (o.part.Some? <==>
              Mentioned(env, |env.files|, TRIGGER) && SomeSpecial(env, Flat(o.rounds[..o.firstRun])))
            && (o.part.Some? ==>
              && o.part == Some(JoinLines(PartLines(names))) && TriggerRound(env, o.rounds, o.firstRun)
              && Specials(Events(env, Flat(o.rounds))) == names)
            && (o.part.None? ==> o.firstRun == |o.rounds|)
  {
    hide Specials, Mentioned, SomeSpecial, TriggerRound, JoinLines, PartLines, Defined, Declared, Events,
      BadConstructors, BadDestructors, ResolveInv, Tracks, LinkInv, AfterSecond, Resolve, Scan;
    LinkedFirst(env);
    var r, es := First(env), FirstEvents(env);
    FirstTracks(env);
    FirstDecides(env);
    if Decision(env, es, r) == None { SecondDecides(env); }
    assert Link.Link(env).rounds[..|r.rounds|] == r.rounds;
    SomeSpecialIs(env, Flat(r.rounds));
  }

  lemma LinkedFirst(env: Env)
    requires ValidEnv(env) && !(Link.Link(env).Failed? && !First(env).Done?)
    ensures First(env).Done?
  {
    hide Resolve, Scan;
  }

  /** The special-purpose functions of the first run. */
  function FirstSpecials(o: Outcome, env: Env): seq<string>
    requires o.Linked? && o.firstRun <= |o.rounds| && Scanned(env, Flat(o.rounds[..o.firstRun]))
  {
    Specials(Events(env, Flat(o.rounds[..o.firstRun])))
  }

  lemma SpecialsOf(env: Env, fs: seq<nat>)
    requires Scanned(env, fs)
    ensures var names := Specials(Events(env, fs));
            && Distinct(names)
            && forall x :: x in names <==> IsSpecial(x) && exists i :: 0 <= i < |fs| && Defines(env.files[fs[i]], x)
  {
    hide Specials, Events, Defined, Defines;
    SpecialsAre(Events(env, fs));
    forall x ensures Defined(Events(env, fs), x) <==> exists i :: 0 <= i < |fs| && Defines(env.files[fs[i]], x) {
      EventsMention(env, fs, x);
    }
  }

  /** The two lists written hold exactly the special-purpose functions that files of the
      first run define, each of them in one list, declared and in order. */
  lemma ListsWritten(env: Env)
    requires ValidEnv(env) && Link.Link(env).Linked? && Link.Link(env).part.Some?
    ensures var o := Link.Link(env);
            && o.firstRun <= |o.rounds| && Scanned(env, Flat(o.rounds[..o.firstRun]))
            && var fs, names := Flat(o.rounds[..o.firstRun]), FirstSpecials(o, env);
            && Distinct(names)
            && (forall x :: x in names <==>
              IsSpecial(x) && exists i :: 0 <= i < |fs| && Defines(env.files[fs[i]], x))
            && (forall i :: 0 <= i < |names| ==> "_GLOBAL__I_" <= names[i] || "_GLOBAL__D_" <= names[i])
            && exists lines :: BothLists(lines, names) && o.part.value == JoinLines(lines)
  {
    hide Specials, Events, BothLists, PartLines, JoinLines, Defined, Defines, Link.Link, Mentioned, SomeSpecial;
    ListsDecided(env);
    ListsExpected(env);
    var o := Link.Link(env);
    SpecialsOf(env, Flat(o.rounds[..o.firstRun]));
    PartHolds(FirstSpecials(o, env));
  }

  lemma ListsExpected(env: Env)
    requires ValidEnv(env) && Link.Link(env).Linked? && Link.Link(env).part.Some?
    ensures var o := Link.Link(env);
            && o.firstRun <= |o.rounds| && Scanned(env, Flat(o.rounds[..o.firstRun]))
            && Expected(FirstSpecials(o, env))
  {
    hide Specials, Events, PartLines, JoinLines, Defined, Declared, Mentioned, Resolve, Scan, AfterSecond, ResolveInv,
      Tracks, LinkInv, TriggerRound, Expected, BadConstructors, BadDestructors;
    LinkedFirst(env);
    var r, es := First(env), FirstEvents(env);
    BadIs(Specials(es));
    FirstTracks(env);
    FirstDecides(env);
    if Decision(env, es, r) == None { SecondDecides(env); }
    assert Link.Link(env).rounds[..|r.rounds|] == r.rounds;
  }
}
