/** Whole runs of nvptx-ld: the rounds of a resolve run, and the second run for
    global constructors and destructors. */
module LinkRun {
  import opened Common
  import opened Markers
  import opened LinkSpec
  import opened LinkInvariant

  // The pass over the unresolved symbols

  /** Between two steps of the pass: `rest` is still to be visited, `q0` was the
      whole list. */
  ghost predicate Collecting(env: Env, lists: bool, es: seq<Event>, q0: seq<string>, st: State, rest: seq<string>,
      toAdd: seq<nat>) {
    && LinkInv(env, lists, es, st)
    && Distinct(rest) && Distinct(toAdd)
    && (forall x :: x in rest ==> x in st.unresolved)
    && (forall x :: x in st.unresolved ==> x in rest || Kept(st, x, toAdd))
    && (forall f :: f in toAdd ==>
      f < |env.files| && exists x :: x in q0 && Def(env, lists, |env.files|, x) == InFile(f))
  }

  /** A symbol that waits for one of the files to add. */
  predicate Kept(st: State, x: string, toAdd: seq<nat>) {
    !Star(x) && Get(st, x).def.InFile? && Get(st, x).def.file in toAdd
  }

  lemma TakeSpecialKeeps(env: Env, lists: bool, es: seq<Event>, st: State, x: string)
    requires LinkInv(env, lists, es, st) && x in st.unresolved
    ensures LinkInv(env, lists, es, TakeSpecial(st, x))
    ensures forall y :: y in TakeSpecial(st, x).unresolved <==> y in st.unresolved && (y != x || !Star(x))
    ensures forall y :: Get(TakeSpecial(st, x), y).def == Get(st, y).def
  {
    hide Def, Defined, Declared, Strong, Base, Star;
    var st' := TakeSpecial(st, x);
    if Star(x) {
      WithoutIs(st.unresolved, x);
      forall y ensures SymInv(env, lists, es, st'.unresolved, y, Get(st', y)) {
        assert SymInv(env, lists, es, st.unresolved, y, Get(st, y));
      }
    }
  }

  /** Dropping an ignored symbol without definition. */
  lemma DropKeeps(env: Env, lists: bool, es: seq<Event>, st: State, x: string)
    requires LinkInv(env, lists, es, st) && Dropped(env, x, Get(st, x))
    ensures LinkInv(env, lists, es, Dequeue(st, x))
    ensures forall y :: y in Dequeue(st, x).unresolved <==> y in st.unresolved && y != x
  {
    hide Def, Defined, Declared, Strong, Base, Star;
    WithoutIs(st.unresolved, x);
    var st' := Dequeue(st, x);
    forall y ensures SymInv(env, lists, es, st'.unresolved, y, Get(st', y)) {
      assert SymInv(env, lists, es, st.unresolved, y, Get(st, y));
    }
  }

  /** An ignored symbol without definition is dropped. */
  lemma VisitDrops(env: Env, lists: bool, es: seq<Event>, q0: seq<string>, st: State, rest: seq<string>,
      toAdd: seq<nat>)
    requires ValidEnv(env) && Collecting(env, lists, es, q0, st, rest, toAdd) && rest != []
    requires Get(st, rest[0]).def == Undefined && rest[0] in env.ignore
    ensures Collecting(env, lists, es, q0, Dequeue(TakeSpecial(st, rest[0]), rest[0]), rest[1..], toAdd)
  {
    hide Def, LinkInv, Star, TakeSpecial;
    var x, rest' := rest[0], rest[1..];
    TakeSpecialKeeps(env, lists, es, st, x);
    DropKeeps(env, lists, es, TakeSpecial(st, x), x);
    assert x !in rest' && forall y :: y in rest <==> y == x || y in rest';
  }

  /** A symbol with a definition waits for its file, unless it is special. */
  lemma VisitTakes(env: Env, lists: bool, es: seq<Event>, q0: seq<string>, st: State, rest: seq<string>,
      toAdd: seq<nat>,
      f: nat)
    requires ValidEnv(env) && Collecting(env, lists, es, q0, st, rest, toAdd) && rest != []
    requires (forall x :: x in rest ==> x in q0) && Get(st, rest[0]).def == InFile(f)
    ensures Collecting(env, lists, es, q0, TakeSpecial(st, rest[0]), rest[1..],
      if f in toAdd then toAdd else [f] + toAdd)
  {
    hide Def, LinkInv, Star, TakeSpecial;
    var x, rest' := rest[0], rest[1..];
    EntryDef(env, lists, es, st, x);
    TakeSpecialKeeps(env, lists, es, st, x);
    assert x !in rest' && forall y :: y in rest <==> y == x || y in rest';
  }

  /** One step of the pass keeps what holds between its steps. */
  lemma VisitStep(env: Env, lists: bool, es: seq<Event>, q0: seq<string>, st: State, rest: seq<string>, toAdd: seq<nat>)
    requires ValidEnv(env) && Collecting(env, lists, es, q0, st, rest, toAdd) && rest != []
    requires forall x :: x in rest ==> x in q0
    ensures var x := rest[0];
            var st1 := TakeSpecial(st, x);
            match Get(st, x).def
            case Undefined => x in env.ignore ==> Collecting(env, lists, es, q0, Dequeue(st1, x), rest[1..], toAdd)
            case Intrinsic => true
            case InFile(f) => Collecting(env, lists, es, q0, st1, rest[1..], if f in toAdd then toAdd else [f] + toAdd)
  {
    hide Collecting, TakeSpecial, Dequeue, Get;
    match Get(st, rest[0]).def
    case Undefined => if rest[0] in env.ignore { VisitDrops(env, lists, es, q0, st, rest, toAdd); }
    case Intrinsic =>
    case InFile(f) => VisitTakes(env, lists, es, q0, st, rest, toAdd, f);
  }

  /** What the pass returns. */
  ghost predicate Collected(env: Env, lists: bool, es: seq<Event>, q0: seq<string>, r: Option<(State, seq<nat>)>) {
    match r
    case None => exists x :: x in q0 && x !in env.ignore && Def(env, lists, |env.files|, x) == Undefined
    case Some((st, toAdd)) =>
      && Collecting(env, lists, es, q0, st, [], toAdd)
      && forall x :: x in q0 ==> x in env.ignore || Def(env, lists, |env.files|, x) != Undefined
  }

  lemma {:induction false} CollectFromCorrect(env: Env, lists: bool, es: seq<Event>, q0: seq<string>, st: State,
      rest: seq<string>, toAdd: seq<nat>)
    requires ValidEnv(env) && Collecting(env, lists, es, q0, st, rest, toAdd)
    requires forall x :: x in rest ==> x in q0
    requires forall x :: x in q0 ==> x in rest || x in env.ignore || Def(env, lists, |env.files|, x) != Undefined
    ensures Collected(env, lists, es, q0, CollectFrom(env, st, rest, toAdd))
    decreases |rest|
  {
    hide Def, LinkInv, Star, TakeSpecial;
    if rest != [] {
      var x, st1 := rest[0], TakeSpecial(st, rest[0]);
      EntryDef(env, lists, es, st, x);
      VisitStep(env, lists, es, q0, st, rest, toAdd);
      assert forall y :: y in rest <==> y == x || y in rest[1..];
      match Get(st, x).def {
        case Undefined =>
          if x in env.ignore {
            CollectFromCorrect(env, lists, es, q0, Dequeue(st1, x), rest[1..], toAdd);
          }
        case InFile(f) =>
          CollectFromCorrect(env, lists, es, q0, st1, rest[1..], if f in toAdd then toAdd else [f] + toAdd);
      }
    }
  }

  /** An unresolved symbol is not intrinsic, and its file exists. */
  lemma EntryDef(env: Env, lists: bool, es: seq<Event>, st: State, x: string)
    requires ValidEnv(env) && LinkInv(env, lists, es, st) && x in st.unresolved
    ensures Get(st, x).def == Def(env, lists, |env.files|, x) != Intrinsic
    ensures Get(st, x).def.InFile? ==> Get(st, x).def.file < |env.files|
  {
    assert SymInv(env, lists, es, st.unresolved, x, Get(st, x));
    StarNotBase(lists, x);
  }

  // Rounds

  function Flat(rounds: seq<seq<nat>>): seq<nat> {
    if rounds == [] then [] else Flat(rounds[..|rounds| - 1]) + rounds[|rounds| - 1]
  }

  /** Why file `g` is linked in the round after the rounds `before`: it is an
      input file of the first round, or the first scanned file that defines a
      symbol declared in an earlier round, or the one that defines the trigger of
      the second run. */
  ghost predicate Justified(env: Env, lists: bool, before: seq<seq<nat>>, g: nat)
    requires Scanned(env, Flat(before))
  {
    || (before == [] && g < |env.keys|)
    || exists x ::
      && FirstDef(env, |env.files|, x) == InFile(g)
      && (Declared(Events(env, Flat(before)), x) || (lists && x == TRIGGER))
  }

  ghost predicate AllJustified(env: Env, lists: bool, rounds: seq<seq<nat>>)
    requires Scanned(env, Flat(rounds))
  {
    if rounds == [] then true
    else
      var n := |rounds| - 1;
      && Scanned(env, Flat(rounds[..n]))
      && AllJustified(env, lists, rounds[..n])
      && forall g :: g in rounds[n] ==> Justified(env, lists, rounds[..n], g)
  }

  /** What holds between rounds. */
  ghost predicate ResolveInv(env: Env, lists: bool, st: State, rounds: seq<seq<nat>>) {
    && ValidEnv(env)
    && Scanned(env, Flat(rounds)) && Distinct(Flat(rounds))
    && LinkInv(env, lists, Events(env, Flat(rounds)), st)
    && (rounds != [] ==> NoStars(st.unresolved))
    && AllJustified(env, lists, rounds)
  }

  /** No file to add was linked before: linking a file includes all it defines,
      so no unresolved symbol's definition is in a linked file. */
  lemma ToAddIsNew(env: Env, lists: bool, st: State, rounds: seq<seq<nat>>, g: nat, x: string)
    requires ResolveInv(env, lists, st, rounds)
    requires x in st.unresolved && Def(env, lists, |env.files|, x) == InFile(g)
    ensures g !in Flat(rounds) && Justified(env, lists, rounds, g)
  {
    var fs := Flat(rounds);
    assert SymInv(env, lists, Events(env, fs), st.unresolved, x, Get(st, x));
    if !Star(x) {
      EventsMention(env, fs, x);
    }
  }

  /** The pass finds only new files, and none only when it empties the list. */
  lemma CollectFindsNew(env: Env, lists: bool, st: State, rounds: seq<seq<nat>>)
    requires ResolveInv(env, lists, st, rounds) && Collect(env, st).Some?
    ensures var (st1, toAdd) := Collect(env, st).value;
            && Scanned(env, toAdd)
            && Distinct(Flat(rounds) + toAdd)
            && LinkInv(env, lists, Events(env, Flat(rounds)), st1)
            && NoStars(st1.unresolved)
            && (toAdd == [] ==> st1.unresolved == [])
            && forall g :: g in toAdd ==> Justified(env, lists, rounds, g)
  {
    hide LinkInv, Def, Star, Justified, Events;
    var fs, es := Flat(rounds), Events(env, Flat(rounds));
    CollectStart(env, lists, es, st);
    CollectFromCorrect(env, lists, es, st.unresolved, st, st.unresolved, []);
    var (st1, toAdd) := Collect(env, st).value;
    forall g | g in toAdd ensures g < |env.files| && g !in fs && Justified(env, lists, rounds, g) {
      var x :| x in st.unresolved && Def(env, lists, |env.files|, x) == InFile(g);
      ToAddIsNew(env, lists, st, rounds, g, x);
    }
    assert forall i :: 0 <= i < |toAdd| ==> toAdd[i] in toAdd;
    assert st1.unresolved != [] ==> st1.unresolved[0] in st1.unresolved;
  }

  /** One round keeps what holds between rounds. */
  lemma RoundKeepsInv(env: Env, lists: bool, st: State, rounds: seq<seq<nat>>)
    requires ResolveInv(env, lists, st, rounds) && Collect(env, st).Some?
    ensures var (st1, toAdd) := Collect(env, st).value;
            && Scanned(env, toAdd)
            && (LinkFiles(env, st1, toAdd).Some? ==>
              ResolveInv(env, lists, LinkFiles(env, st1, toAdd).value, rounds + [toAdd]))
  {
    hide LinkInv, Def, Star, LinkFiles, Justified, Events, Collect, NoStars;
    CollectFindsNew(env, lists, st, rounds);
    var (st1, toAdd) := Collect(env, st).value;
    assert (rounds + [toAdd])[..|rounds|] == rounds;
    if LinkFiles(env, st1, toAdd).Some? {
      FilesKeepInv(env, lists, Flat(rounds), st1, toAdd);
    }
  }

  lemma CollectStart(env: Env, lists: bool, es: seq<Event>, st: State)
    requires LinkInv(env, lists, es, st)
    ensures Collecting(env, lists, es, st.unresolved, st, st.unresolved, [])
  {
  }

  datatype Resolved = Done(st: State, rounds: seq<seq<nat>>) | UnresolvedSymbol | MultipleDefinitions

  ghost function Unwritten(env: Env, fs: seq<nat>): set<nat> {
    set f | f in Below(|env.files|) && f !in fs
  }

  /** A resolve run, from the rounds already linked: it ends, since every round
      links a new file or empties the list. */
  function Resolve(env: Env, ghost lists: bool, st: State, rounds: seq<seq<nat>>): (r: Resolved)
    requires ResolveInv(env, lists, st, rounds)
    ensures r.Done? ==> ResolveInv(env, lists, r.st, r.rounds) && r.st.unresolved == [] && rounds <= r.rounds
    decreases Unwritten(env, Flat(rounds)), |st.unresolved|
  {
    if st.unresolved == [] then Done(st, rounds)
    else
      match Collect(env, st)
      case None => UnresolvedSymbol
      case Some((st1, toAdd)) =>
        RoundKeepsInv(env, lists, st, rounds);
        match LinkFiles(env, st1, toAdd)
        case None => MultipleDefinitions
        case Some(st2) =>
          RoundProgress(env, lists, st, rounds);
          Resolve(env, lists, st2, rounds + [toAdd])
  }

  lemma HeadIsNew(a: seq<nat>, b: seq<nat>)
    requires Distinct(a + b) && b != []
    ensures b[0] !in a && b[0] in a + b
  {
    var c := a + b;
    assert c[|a|] == b[0] && forall i :: 0 <= i < |a| ==> c[i] == a[i];
  }

  lemma RoundProgress(env: Env, lists: bool, st: State, rounds: seq<seq<nat>>)
    requires ResolveInv(env, lists, st, rounds) && Collect(env, st).Some? && st.unresolved != []
    ensures var (st1, toAdd) := Collect(env, st).value;
            && Scanned(env, toAdd)
            && (LinkFiles(env, st1, toAdd).Some? ==>
                  var st2, rounds' := LinkFiles(env, st1, toAdd).value, rounds + [toAdd];
                  || Unwritten(env, Flat(rounds')) < Unwritten(env, Flat(rounds))
                  || (Unwritten(env, Flat(rounds')) == Unwritten(env, Flat(rounds)) && st2.unresolved == []))
  {
    hide LinkInv, ResolveInv, Collect, Events, NoStars;
    CollectFindsNew(env, lists, st, rounds);
    var (st1, toAdd) := Collect(env, st).value;
    assert (rounds + [toAdd])[..|rounds|] == rounds;
    if toAdd != [] {
      var all := Flat(rounds) + toAdd;
      HeadIsNew(Flat(rounds), toAdd);
      assert toAdd[0] in Unwritten(env, Flat(rounds)) && toAdd[0] !in Unwritten(env, all);
    } else {
      assert Flat(rounds) + toAdd == Flat(rounds);
    }
  }
}
