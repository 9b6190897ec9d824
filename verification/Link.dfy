/** A whole link on values, and what holds of every successful one. */
module Link {
  import opened Common
  import opened Markers
  import opened LinkSpec
  import opened LinkInvariant
  import opened LinkRun
  import opened GlobalCtors

  datatype LinkError = Unresolved | MultiplyDefined | BadSpecialFunction | LateSpecialFunction

  /** `firstRun` is the number of rounds of the first resolve run; `part` is the
      extra output part between the two runs. */
  datatype Outcome =
    | Linked(st: State, rounds: seq<seq<nat>>, firstRun: nat, part: Option<string>)
    | Failed(error: LinkError)
    | AssertionFailed

  function DefineList(st: State, x: string): State {
    Put(st, x, Get(st, x).(def := Intrinsic, strongDef := Intrinsic, included := true))
  }

  datatype Handled = Nothing | Wrote(st: State, part: string) | BadSpecials | ListIncluded

  function HandleSpecials(st: State, names: seq<string>): Handled {
    if names == [] then Nothing
    else if !Expected(names) || !ValidPriorities(Cdtors(names, CTOR_PREFIX)) then BadSpecials
    else if Get(st, CTOR_LIST).included then ListIncluded
    else if !ValidPriorities(Cdtors(names, DTOR_PREFIX)) then BadSpecials
    else if Get(st, DTOR_LIST).included then ListIncluded
    else Wrote(DefineList(DefineList(st, CTOR_LIST), DTOR_LIST), JoinLines(PartLines(names)))
  }

  /** The state the second run starts from. */
  function SecondStart(st: State): State {
    Enqueue(st.(specials := []), TRIGGER)
  }

  lemma ScannedInv(env: Env)
    requires ValidEnv(env)
    ensures ResolveInv(env, false, Scan(env, |env.files|), [])
  {
    hide Def, Scan, Star, Base;
    var n := |env.files|;
    var st := Scan(env, n);
    forall x ensures SymInv(env, false, [], st.unresolved, x, Get(st, x)) {
      ScanCorrect(env, n, x);
      RegisteredIs(env, n, x);
      ScannedInvSym(env, x);
    }
    ScanCorrect(env, n, "");
    RegisteredDistinct(env, n);
  }

  lemma ScannedInvSym(env: Env, x: string)
    requires ValidEnv(env)
    ensures SymInv(env, false, [], Registered(env, |env.files|), x, ScannedSym(env, |env.files|, x))
  {
    hide FirstDef, KeyFile, IsIntrinsic;
    RegisteredIs(env, |env.files|, x);
    StarNotBase(false, x);
  }

  /** The names registered are those with a key file. */
  lemma {:induction false} RegisteredIs(env: Env, n: nat, x: string)
    requires ValidEnv(env)
    ensures x in Registered(env, n) <==> KeyFile(env, n, x) != Undefined
    ensures x in Registered(env, n) ==> Star(x)
  {
    if n > 0 { RegisteredIs(env, n - 1, x); }
  }

  lemma {:induction false} RegisteredDistinct(env: Env, n: nat)
    requires ValidEnv(env)
    ensures Distinct(Registered(env, n))
  {
    if n > 0 {
      RegisteredDistinct(env, n - 1);
      if n - 1 < |env.keys| {
        RegisteredIs(env, n - 1, env.keys[n - 1]);
      }
    }
  }

  /** Defining the lists and asking for the trigger keeps what holds between
      rounds. */
  lemma SecondRunInv(env: Env, st: State, rounds: seq<seq<nat>>)
    requires ResolveInv(env, false, st, rounds) && st.unresolved == []
    requires !Get(st, CTOR_LIST).included && !Get(st, DTOR_LIST).included
    requires !Get(st, TRIGGER).included && !Get(st, TRIGGER).referenced
    ensures ResolveInv(env, true, SecondStart(DefineList(DefineList(st, CTOR_LIST), DTOR_LIST)), rounds)
  {
    var st' := SecondStart(DefineList(DefineList(st, CTOR_LIST), DTOR_LIST));
    var es := Events(env, Flat(rounds));
    forall x ensures SymInv(env, true, es, st'.unresolved, x, Get(st', x)) {
      assert SymInv(env, false, es, st.unresolved, x, Get(st, x));
      SecondRunSym(env, es, x, st);
    }
    MoreJustified(env, rounds);
  }

  lemma SecondRunSym(env: Env, es: seq<Event>, x: string, st: State)
    requires SymInv(env, false, es, [], x, Get(st, x))
    requires !Get(st, CTOR_LIST).included && !Get(st, DTOR_LIST).included
    requires !Get(st, TRIGGER).included && !Get(st, TRIGGER).referenced
    ensures SymInv(env, true, es, [TRIGGER], x, Get(SecondStart(DefineList(DefineList(st, CTOR_LIST), DTOR_LIST)), x))
  {
    hide Defined, Declared, Strong, FirstDef, KeyFile, IsIntrinsic;
    StrongDefined(es, x);
    StarNotBase(true, x);
  }

  lemma {:induction false} MoreJustified(env: Env, rounds: seq<seq<nat>>)
    requires Scanned(env, Flat(rounds)) && AllJustified(env, false, rounds)
    ensures AllJustified(env, true, rounds)
  {
    if rounds != [] {
      MoreJustified(env, rounds[..|rounds| - 1]);
    }
  }

  /** What is left to decide after the second run. */
  function AfterSecond(r: Resolved, firstRun: nat, part: string): Outcome {
    match r
    case UnresolvedSymbol => Failed(Unresolved)
    case MultipleDefinitions => Failed(MultiplyDefined)
    case Done(st, rounds) =>
      if !Get(st, TRIGGER).included then AssertionFailed
      else if st.specials != [] then Failed(LateSpecialFunction)
      else Linked(st, rounds, firstRun, Some(part))
  }

  /** The link goes on after a successful first run. */
  function AfterFirst(env: Env, st: State, rounds: seq<seq<nat>>): Outcome
    requires ResolveInv(env, false, st, rounds) && st.unresolved == []
  {
    var available := TRIGGER in st.syms;
    if available && Get(st, TRIGGER).included then AssertionFailed
    else
      match HandleSpecials(st, if available then st.specials else [])
      case Nothing => Linked(st, rounds, |rounds|, None)
      case BadSpecials => Failed(BadSpecialFunction)
      case ListIncluded => AssertionFailed
      case Wrote(st1, part) =>
        if Get(st, TRIGGER).referenced then AssertionFailed
        else
          SecondRunInv(env, st, rounds);
          AfterSecond(Resolve(env, true, SecondStart(st1), rounds), |rounds|, part)
  }

  /** The linker's main computation: scan, resolve and link, and once more after
      writing the lists of constructors and destructors. */
  function Link(env: Env): Outcome
    requires ValidEnv(env)
  {
    ScannedInv(env);
    match Resolve(env, false, Scan(env, |env.files|), [])
    case UnresolvedSymbol => Failed(Unresolved)
    case MultipleDefinitions => Failed(MultiplyDefined)
    case Done(st, rounds) => AfterFirst(env, st, rounds)
  }

  // What holds of every successful link

  /** The numbers of the files written, in order. */
  function Written(o: Outcome): seq<nat>
    requires o.Linked?
  {
    Flat(o.rounds)
  }

  /** The second run adds to the rounds of the first. */
  lemma RunsInOrder(env: Env)
    requires ValidEnv(env) && Link(env).Linked?
    ensures var o, st := Link(env), Scan(env, |env.files|);
            && ResolveInv(env, false, st, [])
            && Resolve(env, false, st, []).Done?
            && Resolve(env, false, st, []).rounds <= o.rounds
            && o.firstRun == |Resolve(env, false, st, []).rounds|
            && ResolveInv(env, o.part.Some?, o.st, o.rounds) && o.st.unresolved == []
  {
    hide ResolveInv, Scan, HandleSpecials, SecondStart;
    ScannedInv(env);
    match Resolve(env, false, Scan(env, |env.files|), [])
    case Done(st, rounds) =>
    case _ =>
  }

  lemma LinkedInv(env: Env)
    requires ValidEnv(env) && Link(env).Linked?
    ensures var o := Link(env);
            && ResolveInv(env, o.part.Some?, o.st, o.rounds) && o.st.unresolved == []
            && o.firstRun <= |o.rounds|
            && Scanned(env, Flat(o.rounds[..o.firstRun])) && AllJustified(env, false, o.rounds[..o.firstRun])
  {
    hide Link, ResolveInv, Scan;
    RunsInOrder(env);
    var first := Resolve(env, false, Scan(env, |env.files|), []);
    JustifiedOf(env, false, first.st, first.rounds);
    assert Link(env).rounds[..|first.rounds|] == first.rounds;
  }

  lemma JustifiedOf(env: Env, lists: bool, st: State, rounds: seq<seq<nat>>)
    requires ResolveInv(env, lists, st, rounds)
    ensures Scanned(env, Flat(rounds)) && AllJustified(env, lists, rounds)
  {
  }

  /** Every declaration in a written file is settled: by a definition in a written
      file, as an intrinsic or list, or by being ignored and defined nowhere. */
  lemma LinkClosed(env: Env, f: nat, x: string)
    requires ValidEnv(env) && Link(env).Linked?
    requires f in Written(Link(env)) && f < |env.files| && Declares(env.files[f], x)
    ensures var o := Link(env);
            || Base(o.part.Some?, x)
            || (exists g :: g in Written(o) && g < |env.files| && Defines(env.files[g], x))
            || (x in env.ignore && forall g :: 0 <= g < |env.files| ==> !Defines(env.files[g], x))
  {
    hide Link, Base;
    LinkedInv(env);
    var o := Link(env);
    var fs, es := Written(o), Events(env, Written(o));
    EventsMention(env, fs, x);
    var i :| 0 <= i < |fs| && fs[i] == f;
    NotSpecial(env, f, x);
    DeclaredSettled(env, o.part.Some?, es, x, o.st);
  }

  lemma NotSpecial(env: Env, f: nat, x: string)
    requires ValidEnv(env) && f < |env.files| && Declares(env.files[f], x)
    ensures !Star(x)
  {
    var k :| 0 <= k < |env.files[f]| && !env.files[f][k].isDef && env.files[f][k].name == x;
  }

  /** Once nothing is unresolved, what is declared is settled. */
  lemma DeclaredSettled(env: Env, lists: bool, es: seq<Event>, x: string, st: State)
    requires ValidEnv(env) && LinkInv(env, lists, es, st) && st.unresolved == [] && Declared(es, x) && !Star(x)
    ensures Base(lists, x) || Defined(es, x)
      || (x in env.ignore && forall g :: 0 <= g < |env.files| ==> !Defines(env.files[g], x))
  {
    hide Declared, Defined, Base, StrongInv;
    assert SymInv(env, lists, es, [], x, Get(st, x));
  }

  /** No file is written twice. */
  lemma LinkedOnce(env: Env)
    requires ValidEnv(env) && Link(env).Linked?
    ensures Distinct(Written(Link(env))) && Scanned(env, Written(Link(env)))
  {
    LinkedInv(env);
  }

  /** Among the written files each symbol has at most one strong definition, none
      if it is intrinsic, and the table names its file. */
  lemma OneStrongDefinition(env: Env, x: string)
    requires ValidEnv(env) && Link(env).Linked?
    ensures Scanned(env, Written(Link(env)))
    ensures var o := Link(env);
            StrongInv(o.part.Some?, Events(env, Written(o)), x, Get(o.st, x))
  {
    LinkedInv(env);
    var o := Link(env);
    assert SymInv(env, o.part.Some?, Events(env, Written(o)), [], x, Get(o.st, x));
  }

  /** Every file of round `r` is there for a reason that earlier rounds give; the
      trigger is a reason in the second run only. */
  lemma NothingGratuitous(env: Env, r: nat, g: nat)
    requires ValidEnv(env) && Link(env).Linked?
    requires r < |Link(env).rounds| && g in Link(env).rounds[r]
    ensures var o := Link(env);
            Scanned(env, Flat(o.rounds[..r])) && Justified(env, r >= o.firstRun, o.rounds[..r], g)
  {
    hide Link, Justified, AllJustified;
    LinkedInv(env);
    var o := Link(env);
    JustifiedOf(env, o.part.Some?, o.st, o.rounds);
    if r < o.firstRun {
      RoundJustified(env, false, o.rounds[..o.firstRun], r, g);
      assert o.rounds[..o.firstRun][..r] == o.rounds[..r];
    } else {
      RoundJustified(env, o.part.Some?, o.rounds, r, g);
      if !o.part.Some? { JustifiedMore(env, o.rounds[..r], g); }
    }
  }

  lemma JustifiedMore(env: Env, before: seq<seq<nat>>, g: nat)
    requires Scanned(env, Flat(before)) && Justified(env, false, before, g)
    ensures Justified(env, true, before, g)
  {
  }

  lemma {:induction false} RoundJustified(env: Env, lists: bool, rounds: seq<seq<nat>>, r: nat, g: nat)
    requires Scanned(env, Flat(rounds)) && AllJustified(env, lists, rounds)
    requires r < |rounds| && g in rounds[r]
    ensures Scanned(env, Flat(rounds[..r])) && Justified(env, lists, rounds[..r], g)
  {
    hide Justified;
    var n := |rounds| - 1;
    if r < n {
      RoundJustified(env, lists, rounds[..n], r, g);
      assert rounds[..n][..r] == rounds[..r];
    }
  }

  /** An input file, or in the second run the file that defines the trigger. */
  predicate Starts(env: Env, lists: bool, g: nat) {
    g < |env.keys| || (lists && FirstDef(env, |env.files|, TRIGGER) == InFile(g))
  }

  /** File `f` declares a symbol that file `g` is the first to define. */
  ghost predicate Leads(env: Env, f: nat, g: nat) {
    f < |env.files| && exists x :: Declares(env.files[f], x) && FirstDef(env, |env.files|, x) == InFile(g)
  }

  /** A file that the files linked first lead to, in at most `k` steps. */
  ghost predicate Reachable(env: Env, lists: bool, g: nat, k: nat)
    decreases k
  {
    Starts(env, lists, g) || (k > 0 && exists f: nat :: Leads(env, f, g) && Reachable(env, lists, f, k - 1))
  }

  /** One step further. */
  lemma {:induction false} ReachNext(env: Env, lists: bool, f: nat, g: nat, k: nat)
    requires Leads(env, f, g) && Reachable(env, lists, f, k)
    ensures Reachable(env, lists, g, k + 1)
  {
    hide Leads, Starts;
  }

  lemma {:induction false} ReachableLater(env: Env, g: nat, lists: bool, k: nat, lists': bool, k': nat)
    requires Reachable(env, lists, g, k) && k <= k' && (lists ==> lists')
    ensures Reachable(env, lists', g, k')
    decreases k
  {
    hide Leads, FirstDef;
    if !Starts(env, lists, g) {
      var f: nat :| Leads(env, f, g) && Reachable(env, lists, f, k - 1);
      ReachableLater(env, f, lists, k - 1, lists', k' - 1);
      ReachNext(env, lists', f, g, k' - 1);
    }
  }

  lemma {:induction false} InSomeRound(rounds: seq<seq<nat>>, f: nat) returns (r: nat)
    requires f in Flat(rounds)
    ensures r < |rounds| && f in rounds[r]
  {
    var n := |rounds| - 1;
    if f in rounds[n] { r := n; } else { r := InSomeRound(rounds[..n], f); }
  }

  /** The file that declares a symbol mentioned so far. */
  lemma DeclaringFile(env: Env, fs: seq<nat>, x: string) returns (f: nat)
    requires Scanned(env, fs) && Declared(Events(env, fs), x)
    ensures f in fs && f < |env.files| && Declares(env.files[f], x)
  {
    hide Declares, Declared, Events;
    EventsMention(env, fs, x);
    var i :| 0 <= i < |fs| && Declares(env.files[fs[i]], x);
    f := fs[i];
  }

  /** Every written file can be reached from the input files, in no more steps than
      there are rounds before its own. */
  lemma {:induction false} AllReachable(env: Env, r: nat, g: nat)
    requires ValidEnv(env) && Link(env).Linked?
    requires r < |Link(env).rounds| && g in Link(env).rounds[r]
    ensures Reachable(env, r >= Link(env).firstRun, g, r)
    decreases r
  {
    hide Link, Leads, Starts, Justified;
    var o := Link(env);
    var lists, before := r >= o.firstRun, o.rounds[..r];
    NothingGratuitous(env, r, g);
    if !Starts(env, lists, g) {
      var f := Leading(env, lists, before, g);
      var r' := InSomeRound(before, f);
      AllReachable(env, r', f);
      ReachableLater(env, f, r' >= o.firstRun, r', lists, r - 1);
      ReachNext(env, lists, f, g, r - 1);
    }
  }

  /** A justified file is one of the first, or an earlier one leads to it. */
  lemma Leading(env: Env, lists: bool, before: seq<seq<nat>>, g: nat) returns (f: nat)
    requires Scanned(env, Flat(before)) && Justified(env, lists, before, g) && !Starts(env, lists, g)
    ensures f in Flat(before) && Leads(env, f, g)
  {
    hide FirstDef, Declares, Declared, Events;
    var x :| FirstDef(env, |env.files|, x) == InFile(g) && Declared(Events(env, Flat(before)), x);
    f := DeclaringFile(env, Flat(before), x);
  }

  function Range(i: nat, n: nat): (s: seq<nat>)
    requires i <= n
    ensures |s| == n - i && forall k :: 0 <= k < |s| ==> s[k] == i + k
  {
    seq(n - i, k requires 0 <= k < n - i => i + k)
  }

  /** The pass over the registered keys, of which those from `i` on are done. */
  lemma {:induction false} CollectInputs(env: Env, st: State, i: nat)
    requires ValidEnv(env) && i <= |env.keys|
    requires forall k :: 0 <= k < i ==> Get(st, env.keys[k]).def == InFile(k)
    ensures var r := CollectFrom(env, st, Registered(env, i), Range(i, |env.keys|));
            r.Some? && r.value.1 == Range(0, |env.keys|)
    decreases i
  {
    hide TakeSpecial, CollectFrom, Registered;
    var n := |env.keys|;
    FirstRegistered(env, i);
    if i == 0 {
      NothingCollected(env, st, Range(0, n));
    } else {
      var x := env.keys[i - 1];
      assert Range(i - 1, n) == [i - 1] + Range(i, n);
      CollectOne(env, st, Registered(env, i), Range(i, n), i - 1);
      CollectInputs(env, TakeSpecial(st, x), i - 1);
    }
  }

  lemma {:induction false} NothingCollected(env: Env, st: State, toAdd: seq<nat>)
    ensures CollectFrom(env, st, [], toAdd) == Some((st, toAdd))
  {
  }

  /** The pass takes a symbol that a new file defines. */
  lemma {:induction false} CollectOne(env: Env, st: State, es: seq<string>, toAdd: seq<nat>, f: nat)
    requires es != [] && Get(st, es[0]).def == InFile(f) && f !in toAdd
    ensures CollectFrom(env, st, es, toAdd) == CollectFrom(env, TakeSpecial(st, es[0]), es[1..], [f] + toAdd)
    ensures forall y :: Get(TakeSpecial(st, es[0]), y).def == Get(st, y).def
  {
  }

  lemma {:induction false} FirstRegistered(env: Env, i: nat)
    requires i <= |env.keys|
    ensures i == 0 ==> Registered(env, i) == []
    ensures i > 0 ==> Registered(env, i) == [env.keys[i - 1]] + Registered(env, i - 1)
  {
  }

  lemma {:induction false} RegisteredUpTo(env: Env, n: nat)
    requires |env.keys| <= n
    ensures Registered(env, n) == Registered(env, |env.keys|)
  {
    if n > |env.keys| { RegisteredUpTo(env, n - 1); }
  }

  lemma {:induction false} KeyFileIs(env: Env, n: nat, i: nat)
    requires ValidEnv(env) && i < |env.keys| && i < n
    ensures KeyFile(env, n, env.keys[i]) == InFile(i)
  {
    if n - 1 > i { KeyFileIs(env, n - 1, i); }
  }

  /** The first pass collects the input files. */
  lemma FirstCollect(env: Env)
    requires ValidEnv(env)
    ensures var r := Collect(env, Scan(env, |env.files|)); r.Some? && r.value.1 == Range(0, |env.keys|)
    ensures Scan(env, |env.files|).unresolved == Registered(env, |env.keys|) && Scan(env, |env.files|).specials == []
  {
    hide Scan, CollectFrom;
    var n := |env.files|;
    var st := Scan(env, n);
    ScanCorrect(env, n, "");
    RegisteredUpTo(env, n);
    forall k | 0 <= k < |env.keys| ensures Get(st, env.keys[k]).def == InFile(k) {
      ScanCorrect(env, n, env.keys[k]);
      KeyFileIs(env, n, k);
      StarNotBase(false, env.keys[k]);
    }
    assert st.unresolved == Registered(env, |env.keys|) && Range(|env.keys|, |env.keys|) == [];
    CollectInputs(env, st, |env.keys|);
  }

  /** The first round links the input files, all of them and in order. */
  lemma InputsFirst(env: Env)
    requires ValidEnv(env) && Link(env).Linked? && env.keys != []
    ensures var o := Link(env);
            o.rounds != [] && o.rounds[0] == Range(0, |env.keys|)
  {
    hide Link, ResolveInv, Resolve, Scan, Collect;
    ScannedInv(env);
    FirstCollect(env);
    RunsInOrder(env);
    ResolveStarts(env, Scan(env, |env.files|));
  }

  lemma ResolveStarts(env: Env, st: State)
    requires ResolveInv(env, false, st, []) && Resolve(env, false, st, []).Done? && st.unresolved != []
    ensures var r := Resolve(env, false, st, []);
            Collect(env, st).Some? && r.rounds != [] && r.rounds[0] == Collect(env, st).value.1
  {
    hide ResolveInv, Collect, LinkFiles;
    var (st1, toAdd) := Collect(env, st).value;
    RoundKeepsInv(env, false, st, []);
    assert [] + [toAdd] == [toAdd];
  }
}
