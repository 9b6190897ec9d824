/** The linker as a program: input files and library members are scanned, and the
    runs write the output. */
module LinkProgram {
  import opened Common
  import opened Markers
  import opened LinkSpec
  import opened LinkInvariant
  import opened LinkRun
  import opened GlobalCtors
  import opened Link
  import opened SymbolTable
  import opened Linker
  import opened LinkMain
  import opened Framing

  // What is linked, from the command line

  /** A file named on the command line; archives are read later, with the
      libraries. */
  datatype InputFile = Object(name: string, data: string) | Archive

  function KeyOf(n: nat, name: string): string {
    "*inputfile " + Decimal(n) + " " + name
  }

  function InputKeys(inputs: seq<InputFile>): seq<string> {
    if inputs == [] then []
    else
      var n := |inputs| - 1;
      InputKeys(inputs[..n]) + if inputs[n].Object? then [KeyOf(n, inputs[n].name)] else []
  }

  function Objects(inputs: seq<InputFile>): (datas: seq<string>)
    ensures |datas| == |InputKeys(inputs)|
  {
    if inputs == [] then []
    else
      var n := |inputs| - 1;
      Objects(inputs[..n]) + if inputs[n].Object? then [inputs[n].data] else []
  }

  /** The markers a file shows the linker, which reads it up to its first NUL. */
  function MarkersOrNone(data: string): seq<Marker> {
    match MarkersOf(CString(data))
    case None => []
    case Some(ms) => ms
  }

  /** The files of the link, and the markers in them. */
  function EnvOf(inputs: seq<InputFile>, members: seq<string>, ignore: set<string>): Env {
    var datas := Objects(inputs) + members;
    Env(seq(|datas|, i requires 0 <= i < |datas| => MarkersOrNone(datas[i])), InputKeys(inputs), ignore)
  }

  /** No marker names a special symbol. */
  predicate PlainMarkers(datas: seq<string>) {
    forall i, k :: 0 <= i < |datas| && 0 <= k < |MarkersOrNone(datas[i])| ==> !Star(MarkersOrNone(datas[i])[k].name)
  }

  /** The number in a key. */
  function NumberIn(key: string): nat {
    if |key| < 11 then 0 else ScanDigits(key[11..], 0).0
  }

  lemma KeyNumber(n: nat, name: string)
    ensures Star(KeyOf(n, name)) && NumberIn(KeyOf(n, name)) == n
  {
    DecimalRoundTrip(n, " " + name);
    assert KeyOf(n, name)[11..] == Decimal(n) + (" " + name);
    assert KeyOf(n, name)[0] == "*inputfile "[0];
  }

  /** Keys differ, since their numbers do. */
  lemma {:induction false} KeysDistinct(inputs: seq<InputFile>)
    ensures forall k :: k in InputKeys(inputs) ==> Star(k) && NumberIn(k) < |inputs|
    ensures Distinct(InputKeys(inputs))
  {
    hide NumberIn, KeyOf, Star;
    if inputs != [] {
      var n := |inputs| - 1;
      KeysDistinct(inputs[..n]);
      if inputs[n].Object? {
        KeyNumber(n, inputs[n].name);
      }
    }
  }

  lemma EnvIsValid(inputs: seq<InputFile>, members: seq<string>, ignore: set<string>)
    requires PlainMarkers(Objects(inputs) + members)
    ensures ValidEnv(EnvOf(inputs, members, ignore))
  {
    KeysDistinct(inputs);
    var ks := InputKeys(inputs);
    assert forall i :: 0 <= i < |ks| ==> ks[i] in ks;
  }

  // Scanning

  /** How scanning a file ends: `CutLine` is the error "truncated marker line", and
      with a NUL in the file an assertion fails. */
  datatype FileScan = Whole | CutLine | HasNul

  function ScanOf(data: string): FileScan {
    if MarkersOf(CString(data)) == None then CutLine
    else if |CString(data)| < |data| then HasNul
    else Whole
  }

  /** How scanning files one after the other ends. */
  function ScanAll(datas: seq<string>): FileScan {
    if datas == [] then Whole
    else
      var n := |datas| - 1;
      if ScanAll(datas[..n]) != Whole then ScanAll(datas[..n]) else ScanOf(datas[n])
  }

  lemma {:induction false} ScanStops(datas: seq<string>, n: nat)
    requires n <= |datas| && ScanAll(datas[..n]) != Whole
    ensures ScanAll(datas) == ScanAll(datas[..n])
  {
    if n < |datas| {
      var k := |datas| - 1;
      assert datas[..k][..n] == datas[..n];
      ScanStops(datas[..k], n);
    } else {
      assert datas[..n] == datas;
    }
  }

  lemma ScanNext(datas: seq<string>, n: nat)
    requires n < |datas| && ScanAll(datas[..n]) == Whole
    ensures ScanAll(datas[..n + 1]) == ScanOf(datas[n])
    ensures ScanOf(datas[n]) != Whole ==> ScanAll(datas) == ScanOf(datas[n])
  {
    hide ScanOf;
    assert datas[..n + 1][..n] == datas[..n];
    if ScanOf(datas[n]) != Whole { ScanStops(datas, n + 1); }
  }

  /** Scanning succeeds just when no file has a truncated marker line or a NUL. */
  lemma {:induction false} AllScan(datas: seq<string>)
    ensures ScanAll(datas) == Whole <==> forall f :: 0 <= f < |datas| ==> MarkersOf(datas[f]).Some? && NulFree(datas[f])
  {
    hide MarkersOf, NulFree, CString;
    if datas != [] {
      var n := |datas| - 1;
      AllScan(datas[..n]);
      OneScan(datas[n]);
      assert (forall f :: 0 <= f < |datas| ==> MarkersOf(datas[f]).Some? && NulFree(datas[f])) <==>
        (forall f :: 0 <= f < n ==> MarkersOf(datas[..n][f]).Some? && NulFree(datas[..n][f]))
          && MarkersOf(datas[n]).Some? && NulFree(datas[n]);
    }
  }

  lemma OneScan(data: string)
    ensures ScanOf(data) == Whole <==> MarkersOf(data).Some? && NulFree(data)
    ensures ScanOf(data) == Whole ==> CString(data) == data
  {
    hide MarkersOf, CString, NulFree;
    if NulFree(data) { WholeString(data); }
    if |CString(data)| == |data| { assert CString(data) == data; }
  }

  /** The files hold the first of `datas`, all without error. */
  ghost predicate FilesRead(files: seq<FileEntry>, datas: seq<string>)
    reads files
  {
    && |files| <= |datas| && Places(files) && Idle(files) && DataRead(files, datas)
  }

  ghost predicate DataRead(files: seq<FileEntry>, datas: seq<string>)
    requires |files| <= |datas|
  {
    forall f {:trigger files[f]} :: 0 <= f < |files| ==> files[f].data == datas[f] && ScanOf(datas[f]) == Whole
  }

  lemma OneMoreRead(files: seq<FileEntry>, fhe: FileEntry, datas: seq<string>)
    requires FilesRead(files, datas) && |files| < |datas| && ScanOf(datas[|files|]) == Whole
    requires fhe.place == InFile(|files|) && !fhe.queued && fhe.data == datas[|files|]
    ensures FilesRead(files + [fhe], datas)
  {
    var all := files + [fhe];
    assert Places(all) by {
      forall f {:trigger all[f]} | 0 <= f < |all| ensures all[f].place == InFile(f) {
        if f < |files| { assert files[f].place == InFile(f); }
      }
    }
    assert Idle(all) by {
      forall f {:trigger all[f].queued} | 0 <= f < |all| ensures !all[f].queued {
        if f < |files| { assert !files[f].queued; }
      }
    }
    assert DataRead(all, datas) by {
      forall f {:trigger all[f]} | 0 <= f < |all| ensures all[f].data == datas[f] && ScanOf(datas[f]) == Whole {
        if f < |files| { assert files[f].data == datas[f]; }
      }
    }
  }

  /** The first `n` of the files `datas` are scanned. */
  ghost predicate ScannedSoFar(t: Table, env: Env, datas: seq<string>, n: nat)
    reads t, t.slots, t.files
  {
    && t.Valid() && ValidEnv(env)
    && n == |t.files| && |datas| == |env.files| && FilesRead(t.files, datas)
    && (forall f {:trigger env.files[f]} :: 0 <= f < |datas| ==> env.files[f] == MarkersOrNone(datas[f]))
    && t.St() == Scan(env, n)
  }

  lemma ScanHasIntrinsics(env: Env, n: nat)
    requires ValidEnv(env) && n <= |env.files|
    ensures OnlyIntrinsics(Scan(env, n))
  {
    hide Def, Scan;
    forall x ensures Get(Scan(env, n), x) == ScannedSym(env, n, x) {
      ScanCorrect(env, n, x);
    }
  }

  /** The linker asserts that a key it registers has no definition yet. */
  lemma KeyIsNew(env: Env, n: nat)
    requires ValidEnv(env) && n < |env.keys|
    ensures var st := ScanMarkers(Scan(env, n), n, env.files[n]);
            Get(st, env.keys[n]) == FRESH && env.keys[n] !in st.unresolved
  {
    hide Scan, ScanMarkers, FirstDef, Defines, Base;
    var x := env.keys[n];
    ScanCorrect(env, n, x);
    ScanMarkersSym(Scan(env, n), n, env.files[n], x);
    RegisteredIs(env, n, x);
    NoStarDefined(env, n, x);
    StarNotBase(false, x);
  }

  /** Reads one file. */
  method ScanData(t: Table, data: string, ghost env: Env, ghost datas: seq<string>, ghost n: nat)
    returns (r: FileScan, fhe: FileEntry)
    requires ScannedSoFar(t, env, datas, n) && n < |datas| && datas[n] == data
    modifies t, t.slots
    ensures r == ScanOf(data)
    ensures Grown(t) && fresh(fhe) && !fhe.queued && fhe.place == InFile(n) && fhe.data == data
      && t.files == old(t.files) + [fhe]
    ensures r == Whole ==> t.Valid() && t.St() == ScanMarkers(Scan(env, n), n, env.files[n])
  {
    hide Table.Valid, Table.St, ValidEnv, Scan, OnlyIntrinsics, MarkersOf, ScanMarkers, CString;
    ScanHasIntrinsics(env, n);
    fhe := new FileEntry(InFile(n), data);
    AddScanned(t, fhe);
    var buf := CString(data);
    var ok := ScanRefsDefs(t, fhe, buf, n);
    r := if !ok then CutLine else if |buf| < |data| then HasNul else Whole;
  }

  ghost method AddScanned(t: Table, fhe: FileEntry)
    requires t.Valid() && fhe.place == InFile(|t.files|)
    modifies t
    ensures t.Valid() && t.files == old(t.files) + [fhe] && t.St() == old(t.St()) && t.slots == old(t.slots)
  {
    hide Table.Valid;
    t.AddFile(fhe);
  }

  /** Registers an input file under its key. */
  method RegisterInput(t: Table, fhe: FileEntry, key: string, ghost env: Env, ghost n: nat)
    requires t.Valid() && ValidEnv(env) && n < |env.keys| && env.keys[n] == key
    requires n < |t.files| && t.files[n] == fhe && fhe.place == InFile(n)
    requires t.St() == ScanMarkers(Scan(env, n), n, env.files[n])
    modifies t, t.slots
    ensures Grown(t) && t.files == old(t.files)
    ensures t.Valid() && t.St() == Scan(env, n + 1)
  {
    hide Table.Valid, Table.St, ScanMarkers, Scan;
    KeyIsNew(env, n);
    ghost var st := t.St();
    var e := t.Lookup(key);
    t.Reads(e);
    assert e.def == null;
    t.SetDef(e, fhe);
    t.Reads(e);
    t.EnqueueAsUnresolved(e);
    ScanOneMore(env, n);
    Registers(st, key, n);
  }

  lemma ScanOneMore(env: Env, n: nat)
    requires n < |env.files| && |env.keys| <= |env.files|
    ensures Scan(env, n + 1) ==
      var st := ScanMarkers(Scan(env, n), n, env.files[n]);
      if n < |env.keys| then Register(st, env.keys[n], n) else st
  {
  }

  lemma Registers(st: State, key: string, n: nat)
    ensures var st1 := Put(st, key, Get(st, key));
            Put(st1, key, Get(st1, key).(def := InFile(n))) == Put(st, key, Get(st, key).(def := InFile(n)))
  {
  }

  lemma {:induction false} InputsPrefix(inputs: seq<InputFile>, i: nat)
    requires i < |inputs|
    ensures Objects(inputs[..i + 1]) <= Objects(inputs) && InputKeys(inputs[..i + 1]) <= InputKeys(inputs)
    ensures Objects(inputs[..i + 1]) == Objects(inputs[..i]) + if inputs[i].Object? then [inputs[i].data] else []
    ensures InputKeys(inputs[..i + 1]) == InputKeys(inputs[..i]) + if inputs[i].Object? then [KeyOf(i, inputs[i].name)]
      else []
  {
    assert inputs[..i + 1][..i] == inputs[..i];
    var n := |inputs| - 1;
    if i < n {
      InputsPrefix(inputs[..n], i);
      assert inputs[..n][..i + 1] == inputs[..i + 1];
    } else {
      assert inputs[..i + 1] == inputs;
    }
  }

  twostate predicate FilesGrown(t: Table)
    reads t
  {
    && old(t.files) <= t.files
    && forall i :: |old(t.files)| <= i < |t.files| ==> fresh(t.files[i])
  }

  /** Scans the input files and registers them. */
  method ScanInputs(t: Table, inputs: seq<InputFile>, ghost env: Env, ghost datas: seq<string>) returns (r: FileScan)
    requires ScannedSoFar(t, env, datas, 0) && Objects(inputs) <= datas && env.keys == InputKeys(inputs)
    modifies t, t.slots
    ensures Grown(t) && FilesGrown(t)
    ensures r == Whole ==>
      ScannedSoFar(t, env, datas, |Objects(inputs)|) && ScanAll(datas[..|Objects(inputs)|]) == Whole
    ensures r != Whole ==> r == ScanAll(datas)
  {
    hide ScannedSoFar, ScanAll, ScanOf, KeyOf;
    var i := 0;
    assert ScanAll(datas[..0]) == Whole by { NoneScanned(datas); }
    while i < |inputs|
      invariant 0 <= i <= |inputs| && Grown(t) && FilesGrown(t)
      invariant Objects(inputs[..i]) <= datas
      invariant ScannedSoFar(t, env, datas, |Objects(inputs[..i])|) && ScanAll(datas[..|Objects(inputs[..i])|]) == Whole
    {
      InputsPrefix(inputs, i);
      if inputs[i].Object? {
        ScanNext(datas, |Objects(inputs[..i])|);
        r := ScanInput(t, i, inputs[i], env, datas, |Objects(inputs[..i])|);
        if r != Whole {
          return;
        }
      }
      i := i + 1;
    }
    assert inputs[..i] == inputs;
    r := Whole;
  }

  lemma NoneScanned(datas: seq<string>)
    ensures ScanAll(datas[..0]) == Whole
  {
  }

  method ScanInput(t: Table, i: nat, input: InputFile, ghost env: Env, ghost datas: seq<string>, ghost n: nat)
    returns (r: FileScan)
    requires ScannedSoFar(t, env, datas, n) && input.Object?
    requires n < |datas| && datas[n] == input.data && n < |env.keys| && env.keys[n] == KeyOf(i, input.name)
    modifies t, t.slots
    ensures Grown(t) && FilesGrown(t)
    ensures r == ScanOf(datas[n])
    ensures r == Whole ==> ScannedSoFar(t, env, datas, n + 1)
  {
    hide Table.Valid, Table.St, ValidEnv, ScanOf, KeyOf, ScanMarkers, Scan, FilesRead;
    var fhe;
    r, fhe := ScanData(t, input.data, env, datas, n);
    if r == Whole {
      OneMoreRead(old(t.files), fhe, datas);
      RegisterInput(t, fhe, KeyOf(i, input.name), env, n);
    }
  }

  /** Scans the members of the libraries. */
  method ScanMembers(t: Table, members: seq<string>, ghost env: Env, ghost datas: seq<string>) returns (r: FileScan)
    requires ScannedSoFar(t, env, datas, |env.keys|) && |datas| == |env.keys| + |members|
    requires ScanAll(datas[..|env.keys|]) == Whole
    requires forall k :: 0 <= k < |members| ==> datas[|env.keys| + k] == members[k]
    modifies t, t.slots
    ensures Grown(t) && FilesGrown(t)
    ensures r == Whole ==> ScannedSoFar(t, env, datas, |datas|)
    ensures r == ScanAll(datas)
  {
    hide ScannedSoFar, ScanAll, ScanOf;
    var i := 0;
    while i < |members|
      invariant 0 <= i <= |members| && Grown(t) && FilesGrown(t)
      invariant ScannedSoFar(t, env, datas, |env.keys| + i) && ScanAll(datas[..|env.keys| + i]) == Whole
    {
      ScanNext(datas, |env.keys| + i);
      r := ScanMember(t, members[i], env, datas, |env.keys| + i);
      if r != Whole {
        return;
      }
      i := i + 1;
    }
    assert datas[..|env.keys| + i] == datas;
    r := Whole;
  }

  method ScanMember(t: Table, data: string, ghost env: Env, ghost datas: seq<string>, ghost n: nat)
    returns (r: FileScan)
    requires ScannedSoFar(t, env, datas, n) && |env.keys| <= n < |datas| && datas[n] == data
    modifies t, t.slots
    ensures Grown(t) && FilesGrown(t)
    ensures r == ScanOf(datas[n])
    ensures r == Whole ==> ScannedSoFar(t, env, datas, n + 1)
  {
    hide Table.Valid, Table.St, ValidEnv, ScanOf, ScanMarkers, Scan, FilesRead;
    var fhe;
    r, fhe := ScanData(t, data, env, datas, n);
    if r == Whole {
      OneMoreRead(old(t.files), fhe, datas);
    }
    ScanOneMore(env, n);
  }

  // Global constructors

  /** After the first run: writes the lists and asks for the trigger, or finds that
      nothing is left to do. */
  method GlobalCtorSupport(t: Table, intrinsic: FileEntry, output: string)
    returns (r: Special, e: SymbolEntry?, output': string)
    requires t.Valid() && intrinsic.place == Intrinsic && t.St().unresolved == []
    modifies t, t.slots
    ensures Grown(t) && t.files == old(t.files) && t.Valid()
    ensures var st := old(t.St());
            var available := TRIGGER in st.syms;
            if available && Get(st, TRIGGER).included then r == Aborted
            else
              match HandleSpecials(st, if available then st.specials else [])
              case Nothing => r == NoneFound && output' == output
              case BadSpecials => r == Invalid
              case ListIncluded => r == Aborted
              case Wrote(st1, part) =>
                if Get(st, TRIGGER).referenced then r == Aborted
                else
                  && r == ListsWritten && t.St() == SecondStart(st1) && output' == output + Part(part)
                  && e != null && e in t.slots && e.key == TRIGGER
  {
    hide Table.Valid, Table.St, HandleSpecials, Enqueue, Part;
    output' := output;
    t.SpecialsOf();
    WroteFacts(t.St().(specials := []), []);
    WroteFacts(t.St(), []);
    TriggerStays(t.St(), t.St().specials);
    e := t.Find(TRIGGER);
    if e != null {
      t.Reads(e);
      if e.included {
        return Aborted, e, output';
      }
    } else {
      t.ClearSpecials();
    }
    r, output' := HandleSpecialPurposeFunctions(t, intrinsic, output);
    t.ClearSpecials();
    if r == ListsWritten {
      t.Reads(e);
      if e.referenced {
        return Aborted, e, output';
      }
      t.EnqueueAsUnresolved(e);
    }
  }

  /** Writing the lists does not touch the trigger. */
  lemma TriggerStays(st: State, names: seq<string>)
    ensures HandleSpecials(st, names).Wrote? ==>
      && Get(HandleSpecials(st, names).st, TRIGGER) == Get(st, TRIGGER)
      && HandleSpecials(st, names).st.unresolved == st.unresolved
    ensures Get(st.(specials := []), TRIGGER) == Get(st, TRIGGER)
  {
    hide Expected, Cdtors, ValidPriorities, JoinLines, PartLines;
    assert |TRIGGER| == 19 && |CTOR_LIST| == 13 && |DTOR_LIST| == 13;
  }

  // The program

  /** How the program ends; on anything but success the output is removed. */
  datatype Exit = Success | ScanFailed | LinkFailed(error: LinkError) | Abort

  function LinkInputs(inputs: seq<InputFile>, members: seq<string>, ignore: set<string>): Outcome
    requires PlainMarkers(Objects(inputs) + members)
  {
    EnvIsValid(inputs, members, ignore);
    Link.Link(EnvOf(inputs, members, ignore))
  }

  function Select(datas: seq<string>, fs: seq<nat>): (parts: seq<string>)
    ensures |parts| == |fs|
  {
    seq(|fs|, i requires 0 <= i < |fs| => if fs[i] < |datas| then datas[fs[i]] else "")
  }

  /** The parts of the output: the files of the first run, the lists, the files of
      the second run. */
  function OutputParts(datas: seq<string>, o: Outcome): seq<string>
    requires o.Linked? && o.firstRun <= |o.rounds|
  {
    Select(datas, Flat(o.rounds[..o.firstRun]))
    + (if o.part.Some? then [o.part.value] else [])
    + Select(datas, Flat(o.rounds[o.firstRun..]))
  }

  /** What the program promises for a link with outcome `o`. */
  ghost predicate Delivers(datas: seq<string>, o: Outcome, exit: Exit, output: string) {
    match o
    case Linked(_, rounds, firstRun, _) => exit == Success && firstRun <= |rounds|
      && output == Framed(OutputParts(datas, o))
    case Failed(error) => exit == LinkFailed(error)
    case AssertionFailed => exit == Abort
  }

  ghost predicate HoldsData(files: seq<FileEntry>, datas: seq<string>) {
    |files| == |datas| && forall f {:trigger files[f]} :: 0 <= f < |files| ==> files[f].data == datas[f]
  }

  /** Ends a link whose first run succeeded. */
  method FinishLink(t: Table, intrinsic: FileEntry, ignore: set<string>, output: string, ghost env: Env,
      ghost datas: seq<string>, ghost rounds: seq<seq<nat>>)
    returns (exit: Exit, output': string)
    requires t.Valid() && ResolveInv(env, false, t.St(), rounds) && t.St().unresolved == []
    requires Loaded(t.files, env) && HoldsData(t.files, datas) && Idle(t.files) && intrinsic.place == Intrinsic
      && ignore == env.ignore
    requires output == Framed(Select(datas, Flat(rounds)))
    modifies t, t.slots, t.files
    ensures Delivers(datas, AfterFirst(env, old(t.St()), rounds), exit, output')
  {
    hide Table.Valid, Table.St, ResolveInv, Places, MarkersOf, Resolve, HoldsData, Framed, Select, Flat, HandleSpecials;
    ghost var st := t.St();
    ghost var n := |rounds|;
    NoSecondRun(datas, st, rounds);
    WroteFacts(st, st.specials);
    var r, e;
    r, e, output' := GlobalCtorSupport(t, intrinsic, output);
    match r {
      case NoneFound => return Success, output';
      case Invalid => return LinkFailed(BadSpecialFunction), output';
      case Aborted => return Abort, output';
      case ListsWritten =>
    }
    SecondRunInv(env, st, rounds);
    ghost var part := HandleSpecials(st, st.specials).part;
    ghost var rounds';
    var failure;
    failure, output', rounds' := ResolveRun(t, ignore, output', env, true, rounds);
    if failure.Some? {
      return LinkFailed(failure.value), output';
    }
    t.Reads(e);
    t.SpecialsOf();
    if !e.included {
      return Abort, output';
    }
    if t.specials != [] {
      return LinkFailed(LateSpecialFunction), output';
    }
    assert rounds'[..n] == rounds;
    TwoRuns(datas, t.files, t.St(), rounds', n, part);
    exit := Success;
  }

  lemma NoSecondRun(datas: seq<string>, st: State, rounds: seq<seq<nat>>)
    ensures OutputParts(datas, Linked(st, rounds, |rounds|, None)) == Select(datas, Flat(rounds))
  {
    assert rounds[..|rounds|] == rounds && rounds[|rounds|..] == [];
    NothingSelected(datas);
    hide Select, Flat;
  }

  lemma NothingSelected(datas: seq<string>)
    ensures Flat([]) == [] && Select(datas, []) == []
  {
  }

  lemma WroteFacts(st: State, names: seq<string>)
    ensures HandleSpecials(st, []) == Nothing
    ensures HandleSpecials(st, names).Wrote? ==>
      && !Get(st, CTOR_LIST).included && !Get(st, DTOR_LIST).included
      && HandleSpecials(st, names).st == DefineList(DefineList(st, CTOR_LIST), DTOR_LIST)
  {
    hide Expected, Cdtors, ValidPriorities, JoinLines, PartLines;
  }

  lemma TwoRuns(datas: seq<string>, files: seq<FileEntry>, st: State, rounds: seq<seq<nat>>, n: nat, part: string)
    requires HoldsData(files, datas) && n <= |rounds| && forall i :: 0 <= i < |Flat(rounds[n..])| ==>
      Flat(rounds[n..])[i] < |files|
    ensures Framed(Select(datas, Flat(rounds[..n]))) + Part(part) + Framed(Contents(files, Flat(rounds[n..])))
         == Framed(OutputParts(datas, Linked(st, rounds, n, Some(part))))
  {
    hide Framed, Part, Flat;
    var a, b := Select(datas, Flat(rounds[..n])), Select(datas, Flat(rounds[n..]));
    assert Contents(files, Flat(rounds[n..])) == b;
    FramedAppend(a, [part]);
    FramedAppend(a + [part], b);
    FramedOne(part);
  }

  /** Links what was scanned. */
  method LinkScanned(t: Table, intrinsic: FileEntry, ignore: set<string>, ghost env: Env, ghost datas: seq<string>)
    returns (exit: Exit, output: string)
    requires t.Valid() && ValidEnv(env) && t.St() == Scan(env, |env.files|)
    requires Loaded(t.files, env) && HoldsData(t.files, datas) && Idle(t.files) && intrinsic.place == Intrinsic
      && ignore == env.ignore
    modifies t, t.slots, t.files
    ensures Delivers(datas, Link.Link(env), exit, output)
  {
    hide Table.Valid, Table.St, MarkersOf, Scan, Resolve, ResolveInv, AfterFirst, Framed, Select, Contents, Flat,
      Places, HoldsData;
    ScannedInv(env);
    ghost var rounds;
    var failure;
    failure, output, rounds := ResolveRun(t, ignore, "", env, false, []);
    if failure.Some? {
      return LinkFailed(failure.value), output;
    }
    FirstOutput(datas, t.files, rounds);
    exit, output := FinishLink(t, intrinsic, ignore, output, env, datas, rounds);
  }

  lemma FirstOutput(datas: seq<string>, files: seq<FileEntry>, rounds: seq<seq<nat>>)
    requires HoldsData(files, datas) && forall i :: 0 <= i < |Flat(rounds[0..])| ==> Flat(rounds[0..])[i] < |files|
    ensures "" + Framed(Contents(files, Flat(rounds[0..]))) == Framed(Select(datas, Flat(rounds)))
  {
    hide Framed, Flat;
    assert rounds[0..] == rounds && Contents(files, Flat(rounds)) == Select(datas, Flat(rounds));
  }

  /** The program, given the input files and the library members in the order in
      which it scans them. */
  method Run(inputs: seq<InputFile>, members: seq<string>, ignore: set<string>) returns (exit: Exit, output: string)
    requires PlainMarkers(Objects(inputs) + members)
    ensures var datas := Objects(inputs) + members;
            match ScanAll(datas)
            case Whole => Delivers(datas, LinkInputs(inputs, members, ignore), exit, output)
            case CutLine => exit == ScanFailed
            case HasNul => exit == Abort
  {
    hide Table.Valid, Table.St, ScanAll, Scan, ScannedSoFar, InputKeys, Objects, DefineIntrinsics;
    ghost var datas, env := Objects(inputs) + members, EnvOf(inputs, members, ignore);
    EnvIsValid(inputs, members, ignore);
    output := "";
    var intrinsic := new FileEntry(Intrinsic, "");
    var t := new Table();
    var ok := DefineIntrinsicEntries(t, intrinsic);
    ScanStarts(t, env, datas);
    var r := ScanInputs(t, inputs, env, datas);
    if r == Whole {
      r := ScanMembers(t, members, env, datas);
    }
    match r {
      case CutLine => return ScanFailed, output;
      case HasNul => return Abort, output;
      case Whole =>
    }
    AllLoaded(t, env, datas);
    exit, output := LinkScanned(t, intrinsic, ignore, env, datas);
  }

  lemma ScanStarts(t: Table, env: Env, datas: seq<string>)
    requires t.Valid() && t.St() == DefineIntrinsics() && t.files == [] && ValidEnv(env) && |datas| == |env.files|
    requires forall f {:trigger env.files[f]} :: 0 <= f < |datas| ==> env.files[f] == MarkersOrNone(datas[f])
    ensures ScannedSoFar(t, env, datas, 0)
  {
  }

  lemma AllLoaded(t: Table, env: Env, datas: seq<string>)
    requires ScannedSoFar(t, env, datas, |datas|)
    ensures Loaded(t.files, env) && HoldsData(t.files, datas)
    ensures t.Valid() && Idle(t.files) && t.St() == Scan(env, |env.files|)
  {
    hide Table.Valid, Table.St, Scan, MarkersOf, CString, ScanOf;
    forall f {:trigger t.files[f]} | 0 <= f < |datas|
      ensures t.files[f].data == datas[f] && MarkersOf(t.files[f].data) == Some(env.files[f])
    {
      OneScan(datas[f]);
      assert env.files[f] == MarkersOrNone(datas[f]);
    }
  }
}
