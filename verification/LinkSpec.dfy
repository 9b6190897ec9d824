/** What nvptx-ld computes, on values: the symbol table, one marker at a time,
    and the rounds that resolve and link. */
module LinkSpec {
  import opened Common
  import opened Markers

  /** Where a symbol is defined; files are numbered in the order scanned. */
  datatype Definition = Undefined | Intrinsic | InFile(file: nat)

  datatype Sym = Sym(def: Definition, strongDef: Definition, included: bool, referenced: bool)

  const FRESH := Sym(Undefined, Undefined, false, false)

  /** `unresolved` lists symbol names, first to last; `specials` the names of
      special-purpose functions in order of appearance. */
  datatype State = State(syms: map<string, Sym>, unresolved: seq<string>, specials: seq<string>)

  function Get(st: State, x: string): Sym {
    if x in st.syms then st.syms[x] else FRESH
  }

  function Put(st: State, x: string, s: Sym): State {
    st.(syms := st.syms[x := s])
  }

  /** What is linked: the markers of every scanned file, the first `|keys|` of
      which are input files registered under these special names, and the
      symbols that may stay unresolved. */
  datatype Env = Env(files: seq<seq<Marker>>, keys: seq<string>, ignore: set<string>)

  /** Names beginning with '*' are special. */
  predicate Star(x: string) {
    x != "" && x[0] == '*'
  }

  ghost predicate ValidEnv(env: Env) {
    && |env.keys| <= |env.files|
    && (forall i :: 0 <= i < |env.keys| ==> Star(env.keys[i]))
    && (forall i, j :: 0 <= i < j < |env.keys| ==> env.keys[i] != env.keys[j])
    && (forall f, k :: 0 <= f < |env.files| && 0 <= k < |env.files[f]| ==> !Star(env.files[f][k].name))
  }

  const TRIGGER := "__trigger_gbl_ctors"
  const CTOR_LIST := "__CTOR_LIST__"
  const DTOR_LIST := "__DTOR_LIST__"

  predicate IsIntrinsic(x: string) {
    x == "vprintf" || x == "malloc" || x == "free"
  }

  /** Names defined by no file: intrinsics and, once written, the lists. */
  predicate Base(lists: bool, x: string) {
    IsIntrinsic(x) || (lists && (x == CTOR_LIST || x == DTOR_LIST))
  }

  // Scanning

  function ScanMarker(st: State, f: nat, m: Marker): State {
    var s := Get(st, m.name);
    Put(st, m.name, if m.isDef && s.def == Undefined then s.(def := InFile(f)) else s)
  }

  function ScanMarkers(st: State, f: nat, ms: seq<Marker>): State {
    if ms == [] then st
    else ScanMarker(ScanMarkers(st, f, ms[..|ms| - 1]), f, ms[|ms| - 1])
  }

  function Enqueue(st: State, x: string): State {
    Put(st, x, Get(st, x).(referenced := true)).(unresolved := [x] + st.unresolved)
  }

  function DefineIntrinsics(): State {
    State(map["vprintf" := IntrinsicSym(), "malloc" := IntrinsicSym(), "free" := IntrinsicSym()], [], [])
  }

  /** Scanning the first `n` files. */
  function Scan(env: Env, n: nat): State
    requires n <= |env.files| && |env.keys| <= |env.files|
  {
    if n == 0 then DefineIntrinsics()
    else
      var st := ScanMarkers(Scan(env, n - 1), n - 1, env.files[n - 1]);
      if n - 1 < |env.keys| then Register(st, env.keys[n - 1], n - 1) else st
  }

  function IntrinsicSym(): Sym {
    Sym(Intrinsic, Intrinsic, true, false)
  }

  /** Registering input file `f` under its special name. */
  function Register(st: State, key: string, f: nat): State {
    Enqueue(Put(st, key, Get(st, key).(def := InFile(f))), key)
  }

  // Linking one file

  function Without(q: seq<string>, x: string): (r: seq<string>)
  {
    if q == [] then []
    else if q[0] == x then q[1..]
    else [q[0]] + Without(q[1..], x)
  }

  function Dequeue(st: State, x: string): State {
    st.(unresolved := Without(st.unresolved, x))
  }

  /** A first DEF includes its symbol. */
  function Include(st: State, x: string): State {
    var s := Get(st, x);
    var st1 := Put(st, x, s.(included := true));
    var st2 := if s.referenced then Dequeue(st1, x) else st1;
    if StartsAt(x, 0, "_GLOBAL__") then st2.(specials := st2.specials + [x]) else st2
  }

  /** Looking a symbol up creates its entry. */
  function Touch(st: State, x: string): State {
    Put(st, x, Get(st, x))
  }

  /** None is the error "multiple definitions". */
  function LinkMarker(st: State, f: nat, m: Marker): Option<State> {
    var x, s := m.name, Get(st, m.name);
    var st0 := Touch(st, x);
    if !m.isDef then
      Some(if s.included || s.referenced then st0 else Enqueue(st0, x))
    else if s.included && !m.weak && s.strongDef != Undefined then None
    else
      var st1 := if s.included then st0 else Include(st0, x);
      Some(if s.strongDef == Undefined && !m.weak then Put(st1, x, Get(st1, x).(strongDef := InFile(f))) else st1)
  }

  function LinkMarkers(st: State, f: nat, ms: seq<Marker>): Option<State> {
    if ms == [] then Some(st)
    else
      match LinkMarkers(st, f, ms[..|ms| - 1])
      case None => None
      case Some(st') => LinkMarker(st', f, ms[|ms| - 1])
  }

  function LinkFiles(env: Env, st: State, fs: seq<nat>): Option<State>
    requires forall i :: 0 <= i < |fs| ==> fs[i] < |env.files|
  {
    if fs == [] then Some(st)
    else
      match LinkFiles(env, st, fs[..|fs| - 1])
      case None => None
      case Some(st') => LinkMarkers(st', fs[|fs| - 1], env.files[fs[|fs| - 1]])
  }

  // One round

  /** Special symbols are included and dequeued by the round itself. */
  function TakeSpecial(st: State, x: string): State {
    if Star(x) then Dequeue(Put(st, x, Get(st, x).(included := true)), x) else st
  }

  /** The pass over the unresolved symbols `es` that collects the files to add.
      None is the error "unresolved symbol". */
  function CollectFrom(env: Env, st: State, es: seq<string>, toAdd: seq<nat>): Option<(State, seq<nat>)>
    decreases |es|
  {
    if es == [] then Some((st, toAdd))
    else
      var x := es[0];
      var st1 := TakeSpecial(st, x);
      match Get(st, x).def
      case Undefined => if x in env.ignore then CollectFrom(env, Dequeue(st1, x), es[1..], toAdd) else None
      case Intrinsic => None  // an intrinsic is included and never unresolved
      case InFile(f) => CollectFrom(env, st1, es[1..], if f in toAdd then toAdd else [f] + toAdd)
  }

  function Collect(env: Env, st: State): Option<(State, seq<nat>)> {
    CollectFrom(env, st, st.unresolved, [])
  }

  // Where symbols are defined

  predicate Defines(ms: seq<Marker>, x: string) {
    exists k :: 0 <= k < |ms| && ms[k].isDef && ms[k].name == x
  }

  predicate Declares(ms: seq<Marker>, x: string) {
    exists k :: 0 <= k < |ms| && !ms[k].isDef && ms[k].name == x
  }

  /** The first of the first `n` files with a DEF of `x`. */
  function FirstDef(env: Env, n: nat, x: string): (d: Definition)
    requires n <= |env.files|
    ensures d.InFile? ==> d.file < n && Defines(env.files[d.file], x) && forall g :: 0 <= g < d.file ==>
      !Defines(env.files[g], x)
    ensures d.Undefined? ==> forall g :: 0 <= g < n ==> !Defines(env.files[g], x)
    ensures !d.Intrinsic?
  {
    if n == 0 then Undefined
    else
      var d := FirstDef(env, n - 1, x);
      if d == Undefined && Defines(env.files[n - 1], x) then InFile(n - 1) else d
  }

  /** The input file registered under `x` among the first `n` files. */
  function KeyFile(env: Env, n: nat, x: string): (d: Definition)
    ensures d.InFile? ==> d.file < n && d.file < |env.keys| && env.keys[d.file] == x
    ensures d.Undefined? ==> forall i :: 0 <= i < n && i < |env.keys| ==> env.keys[i] != x
    ensures !d.Intrinsic?
  {
    if n == 0 then Undefined
    else if n - 1 < |env.keys| && env.keys[n - 1] == x then InFile(n - 1)
    else KeyFile(env, n - 1, x)
  }

  /** The definition of `x` once `n` files are scanned. */
  function Def(env: Env, lists: bool, n: nat, x: string): Definition
    requires n <= |env.files|
  {
    if Base(lists, x) then Intrinsic
    else if Star(x) then KeyFile(env, n, x)
    else FirstDef(env, n, x)
  }

  // What scanning leaves in the table

  function ScannedSym(env: Env, n: nat, x: string): Sym
    requires n <= |env.files|
  {
    if IsIntrinsic(x) then IntrinsicSym()
    else
      var d := Def(env, false, n, x);
      Sym(d, Undefined, false, Star(x) && d != Undefined)
  }

  /** The keys of the first `n` files, last first. */
  function Registered(env: Env, n: nat): seq<string> {
    if n == 0 then []
    else if n - 1 < |env.keys| then [env.keys[n - 1]] + Registered(env, n - 1)
    else Registered(env, n - 1)
  }

  lemma {:induction false} ScanMarkersSym(st: State, f: nat, ms: seq<Marker>, x: string)
    ensures var st' := ScanMarkers(st, f, ms);
            st'.unresolved == st.unresolved && st'.specials == st.specials
    ensures Get(ScanMarkers(st, f, ms), x) ==
      if Get(st, x).def == Undefined && Defines(ms, x) then Get(st, x).(def := InFile(f)) else Get(st, x)
  {
    if ms != [] {
      var n := |ms| - 1;
      ScanMarkersSym(st, f, ms[..n], x);
      DefinesAppend(ms[..n], ms[n], x);
      assert ms == ms[..n] + [ms[n]];
    }
  }

  lemma DefinesAppend(ms: seq<Marker>, m: Marker, x: string)
    ensures Defines(ms + [m], x) <==> Defines(ms, x) || (m.isDef && m.name == x)
    ensures Declares(ms + [m], x) <==> Declares(ms, x) || (!m.isDef && m.name == x)
  {
    var ms' := ms + [m];
    if k :| 0 <= k < |ms| && ms[k].isDef && ms[k].name == x { assert ms'[k] == ms[k]; }
    if k :| 0 <= k < |ms| && !ms[k].isDef && ms[k].name == x { assert ms'[k] == ms[k]; }
    assert ms'[|ms|] == m;
  }

  lemma StarNotBase(lists: bool, x: string)
    ensures Star(x) ==> !Base(lists, x)
  {
  }

  lemma ScanNothing(env: Env, x: string)
    requires ValidEnv(env)
    ensures Get(DefineIntrinsics(), x) == ScannedSym(env, 0, x)
    ensures DefineIntrinsics().unresolved == [] == DefineIntrinsics().specials
  {
  }

  /** Scanning one more file. */
  lemma ScanFile(env: Env, n: nat, x: string, st: State)
    requires ValidEnv(env) && n < |env.files| && Get(st, x) == ScannedSym(env, n, x)
    ensures var st' := ScanMarkers(st, n, env.files[n]);
            Get(if n < |env.keys| then Register(st', env.keys[n], n) else st', x) == ScannedSym(env, n + 1, x)
  {
    hide IsIntrinsic, Star, Defines, ScanMarkers, DefineIntrinsics;
    ScanMarkersSym(st, n, env.files[n], x);
    StarNotBase(false, x);
    if Star(x) {
      NoStarDefined(env, n, x);
    }
  }

  /** The table after scanning names the first file that defines each symbol. */
  lemma {:induction false} ScanCorrect(env: Env, n: nat, x: string)
    requires ValidEnv(env) && n <= |env.files|
    ensures Get(Scan(env, n), x) == ScannedSym(env, n, x)
    ensures Scan(env, n).unresolved == Registered(env, n) && Scan(env, n).specials == []
  {
    hide ScannedSym, DefineIntrinsics, ScanMarkers;
    if n == 0 {
      ScanNothing(env, x);
    } else {
      ScanCorrect(env, n - 1, x);
      ScanFile(env, n - 1, x, Scan(env, n - 1));
      ScanMarkersSym(Scan(env, n - 1), n - 1, env.files[n - 1], x);
    }
  }

  lemma NoStarDefined(env: Env, f: nat, x: string)
    requires ValidEnv(env) && f < |env.files| && Star(x)
    ensures !Defines(env.files[f], x)
  {
  }
}
