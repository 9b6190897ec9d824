/** The rounds of the linker in memory, and the whole program. */
module LinkMain {
  import opened Common
  import opened Markers
  import opened LinkSpec
  import opened LinkInvariant
  import opened LinkRun
  import opened GlobalCtors
  import opened Link
  import opened SymbolTable
  import opened Linker
  import opened Framing

  /** `files` are the scanned files of `env`. */
  ghost predicate Loaded(files: seq<FileEntry>, env: Env) {
    && |files| == |env.files|
    && Places(files)
    && forall f {:trigger files[f]} :: 0 <= f < |files| ==> MarkersOf(files[f].data) == Some(env.files[f])
  }

  /** The contents of the files `fs`. */
  ghost function Contents(files: seq<FileEntry>, fs: seq<nat>): seq<string>
    requires forall i :: 0 <= i < |fs| ==> fs[i] < |files|
  {
    seq(|fs|, i requires 0 <= i < |fs| => files[fs[i]].data)
  }

  /** Takes the file at the front out of the list; its `next` stays. */
  method Unqueue(fhe: FileEntry, ghost files: seq<FileEntry>, ghost add: seq<nat>)
    requires Listed(files, fhe, add) && Distinct(add) && Places(files)
    modifies fhe`queued
    ensures add != [] && fhe == files[add[0]] && Listed(files, fhe.next, add[1..])
  {
    fhe.queued := false;
    assert forall f :: f in add[1..] <==> f in add && f != add[0];
  }

  lemma ListedHead(files: seq<FileEntry>, fhe: FileEntry?, add: seq<nat>)
    requires Listed(files, fhe, add) && Places(files)
    ensures fhe == null <==> add == []
    ensures fhe == null ==> Idle(files)
    ensures fhe != null ==> add[0] < |files| && files[add[0]] == fhe && fhe.place == InFile(add[0])
  {
  }

  lemma {:induction false} LinkedFilesPrefix(env: Env, st: State, fs: seq<nat>, k: nat)
    requires Scanned(env, fs) && k <= |fs| && LinkFiles(env, st, fs[..k]) == None
    ensures LinkFiles(env, st, fs) == None
  {
    if k < |fs| {
      assert fs[..|fs| - 1][..k] == fs[..k];
      LinkedFilesPrefix(env, st, fs[..|fs| - 1], k);
    } else {
      assert fs[..k] == fs;
    }
  }

  lemma OneMoreFile(env: Env, st: State, fs: seq<nat>, k: nat)
    requires Scanned(env, fs) && k < |fs|
    ensures LinkFiles(env, st, fs[..k + 1]) ==
      if LinkFiles(env, st, fs[..k]) == None then None
      else LinkMarkers(LinkFiles(env, st, fs[..k]).value, fs[k], env.files[fs[k]])
  {
    assert fs[..k + 1][..k] == fs[..k];
  }

  lemma WriteOne(files: seq<FileEntry>, fs: seq<nat>, k: nat)
    requires forall i :: 0 <= i < |fs| ==> fs[i] < |files|
    requires k < |fs|
    ensures Framed(Contents(files, fs[..k + 1])) == Framed(Contents(files, fs[..k])) + Part(files[fs[k]].data)
  {
    var c := Contents(files, fs[..k + 1]);
    assert c[..k] == Contents(files, fs[..k]) && c[k] == files[fs[k]].data;
  }

  lemma NoneLinked(env: Env, st: State, files: seq<FileEntry>, output: string, fs: seq<nat>)
    ensures LinkFiles(env, st, fs[..0]) == Some(st)
    ensures output == output + Framed(Contents(files, fs[..0]))
  {
  }

  /** Links the next file of a list; false is the error "multiple definitions". */
  method LinkNext(t: Table, fhe: FileEntry, ghost add: seq<nat>, ghost k: nat, ghost st: State, ghost env: Env,
      ghost lists: bool, ghost done: seq<nat>)
    returns (ok: bool)
    requires t.Valid() && ValidEnv(env) && Loaded(t.files, env) && Distinct(add) && k < |add|
    requires Scanned(env, done) && Scanned(env, add) && LinkInv(env, lists, Events(env, done), st)
    requires Listed(t.files, fhe, add[k..]) && LinkFiles(env, st, add[..k]) == Some(t.St())
    modifies t, t.slots, fhe`queued
    ensures Grown(t) && t.files == old(t.files)
    ensures ok <==> LinkFiles(env, st, add[..k + 1]).Some?
    ensures ok ==> t.Valid() && LinkFiles(env, st, add[..k + 1]) == Some(t.St())
    ensures ok ==> Listed(t.files, fhe.next, add[k + 1..]) && t.files[add[k]] == fhe
  {
    hide Table.Valid, Table.St, LinkInv, MarkersOf, LinkMarkers, LinkFiles, Events, ValidEnv, Listed, Places;
    ListedHead(t.files, fhe, add[k..]);
    ghost var f := add[k];
    assert Distinct(add[k..]);
    Unqueue(fhe, t.files, add[k..]);
    assert add[k..][1..] == add[k + 1..];
    OneMoreFile(env, st, add, k);
    FilesKeepInv(env, lists, done, st, add[..k]);
    ok := LinkRefsDefs(t, fhe, f, env, lists, done + add[..k]);
  }

  /** Links the files of a list and writes them out; false is the error "multiple
      definitions". */
  method LinkListed(t: Table, toAdd: FileEntry?, output: string,
      ghost add: seq<nat>, ghost env: Env, ghost lists: bool, ghost done: seq<nat>)
    returns (ok: bool, output': string)
    requires t.Valid() && ValidEnv(env) && Loaded(t.files, env) && Listed(t.files, toAdd, add) && Distinct(add)
    requires Scanned(env, done) && Scanned(env, add) && LinkInv(env, lists, Events(env, done), t.St())
    modifies t, t.slots, t.files
    ensures Grown(t) && t.files == old(t.files)
    ensures ok <==> LinkFiles(env, old(t.St()), add).Some?
    ensures ok ==> t.Valid() && Some(t.St()) == LinkFiles(env, old(t.St()), add) && Idle(t.files)
    ensures ok ==> output' == output + Framed(Contents(t.files, add))
  {
    hide Table.Valid, Table.St, LinkInv, LinkFiles, Events, ValidEnv, Listed, Framed, Contents, Distinct, Loaded, Part,
      Idle;
    ghost var st, k: nat := t.St(), 0;
    var fhe := toAdd;
    output', ok := output, true;
    assert add[0..] == add;
    NoneLinked(env, st, t.files, output, add);
    PlacesOf(t.files, env);
    while fhe != null
      invariant Grown(t) && t.files == old(t.files)
      invariant k <= |add| && t.Valid() && Listed(t.files, fhe, add[k..])
      invariant LinkFiles(env, st, add[..k]) == Some(t.St())
      invariant output' == output + Framed(Contents(t.files, add[..k]))
      decreases |add| - k
    {
      ListedHead(t.files, fhe, add[k..]);
      WriteOne(t.files, add, k);
      AppendAssociates(output, Framed(Contents(t.files, add[..k])), Part(fhe.data));
      ok := LinkNext(t, fhe, add, k, st, env, lists, done);
      if !ok {
        LinkedFilesPrefix(env, st, add, k + 1);
        return;
      }
      output' := output' + Part(fhe.data);
      k, fhe := k + 1, fhe.next;
    }
    ListedHead(t.files, fhe, add[k..]);
    assert add[..k] == add;
  }

  lemma PlacesOf(files: seq<FileEntry>, env: Env)
    requires Loaded(files, env)
    ensures Places(files) && |files| == |env.files|
  {
  }

  lemma UnresolvedHead(t: Table)
    requires t.Valid()
    ensures t.unresolved == null <==> t.St().unresolved == []
  {
  }

  /** One round; `add` are the files it linked. */
  method Round(t: Table, ignore: set<string>, output: string, ghost env: Env, ghost lists: bool,
      ghost rounds: seq<seq<nat>>)
    returns (failure: Option<LinkError>, output': string, ghost add: seq<nat>)
    requires t.Valid() && ResolveInv(env, lists, t.St(), rounds) && Loaded(t.files, env) && Idle(t.files)
      && ignore == env.ignore
    modifies t, t.slots, t.files
    ensures Grown(t) && t.files == old(t.files)
    ensures match Collect(env, old(t.St()))
            case None => failure == Some(Unresolved)
            case Some((st1, toAdd)) =>
              toAdd == add && Scanned(env, toAdd) &&
              match LinkFiles(env, st1, toAdd)
              case None => failure == Some(MultiplyDefined)
              case Some(st2) =>
                && failure == None && t.Valid() && t.St() == st2 && Idle(t.files)
                && output' == output + Framed(Contents(t.files, add))
  {
    hide Table.Valid, Table.St, LinkInv, MarkersOf, LinkFiles, Collect, Events, ValidEnv, Listed, AllJustified, Framed,
      Contents, Flat;
    ghost var es := Events(env, Flat(rounds));
    output' := output;
    if Collect(env, t.St()).Some? {
      CollectFindsNew(env, lists, t.St(), rounds);
    }
    var ok, toAdd;
    ok, toAdd, add := CollectFiles(t, ignore, env, lists, es);
    if !ok {
      return Some(Unresolved), output', add;
    }
    LaterNoDup(Flat(rounds), add);
    ok, output' := LinkListed(t, toAdd, output, add, env, lists, Flat(rounds));
    failure := if ok then None else Some(MultiplyDefined);
  }

  lemma LaterNoDup(a: seq<nat>, b: seq<nat>)
    requires Distinct(a + b)
    ensures Distinct(b)
  {
    forall i, j | 0 <= i < j < |b| ensures b[i] != b[j] {
      assert (a + b)[|a| + i] == b[i] && (a + b)[|a| + j] == b[j];
    }
  }

  lemma ResolveUnfold(env: Env, lists: bool, st: State, rounds: seq<seq<nat>>)
    requires ResolveInv(env, lists, st, rounds)
    ensures st.unresolved == [] ==> Resolve(env, lists, st, rounds) == Done(st, rounds)
    ensures st.unresolved != [] ==>
      match Collect(env, st)
      case None => Resolve(env, lists, st, rounds) == UnresolvedSymbol
      case Some((st1, toAdd)) =>
        && Scanned(env, toAdd)
        && match LinkFiles(env, st1, toAdd)
           case None => Resolve(env, lists, st, rounds) == MultipleDefinitions
           case Some(st2) =>
             && ResolveInv(env, lists, st2, rounds + [toAdd])
             && Resolve(env, lists, st, rounds) == Resolve(env, lists, st2, rounds + [toAdd])
             && (|| Unwritten(env, Flat(rounds + [toAdd])) < Unwritten(env, Flat(rounds))
                 || (Unwritten(env, Flat(rounds + [toAdd])) == Unwritten(env, Flat(rounds)) && st2.unresolved == []))
  {
    hide ResolveInv, Collect, LinkFiles, Unwritten;
    if Collect(env, st).Some? {
      RoundKeepsInv(env, lists, st, rounds);
      if st.unresolved != [] {
        RoundProgress(env, lists, st, rounds);
      }
    }
  }

  /** A resolve run: rounds until no symbol is unresolved. */
  method ResolveRun(t: Table, ignore: set<string>, output: string, ghost env: Env, ghost lists: bool,
      ghost rounds: seq<seq<nat>>)
    returns (failure: Option<LinkError>, output': string, ghost rounds': seq<seq<nat>>)
    requires t.Valid() && ResolveInv(env, lists, t.St(), rounds) && Loaded(t.files, env) && Idle(t.files)
      && ignore == env.ignore
    modifies t, t.slots, t.files
    ensures Grown(t) && t.files == old(t.files)
    ensures match Resolve(env, lists, old(t.St()), rounds)
            case UnresolvedSymbol => failure == Some(Unresolved)
            case MultipleDefinitions => failure == Some(MultiplyDefined)
            case Done(st, rs) =>
              && failure == None && t.Valid() && t.St() == st && Idle(t.files) && rounds' == rs
              && Scanned(env, Flat(rs[|rounds|..]))
              && output' == output + Framed(Contents(t.files, Flat(rs[|rounds|..])))
  {
    hide Table.Valid, Table.St, ResolveInv, Resolve, MarkersOf, LinkFiles, Collect, Unwritten, Framed, Contents, Flat;
    ghost var st := t.St();
    output', rounds' := output, rounds;
    NothingWritten(t.files, output);
    assert rounds[|rounds|..] == [];
    UnresolvedHead(t);
    while t.unresolved != null
      invariant Grown(t) && t.files == old(t.files)
      invariant t.Valid() && ResolveInv(env, lists, t.St(), rounds') && Idle(t.files)
      invariant t.unresolved == null <==> t.St().unresolved == []
      invariant Resolve(env, lists, t.St(), rounds') == Resolve(env, lists, st, rounds)
      invariant |rounds| <= |rounds'| && Scanned(env, Flat(rounds'[|rounds|..]))
      invariant output' == output + Framed(Contents(t.files, Flat(rounds'[|rounds|..])))
      decreases Unwritten(env, Flat(rounds')), |t.St().unresolved|
    {
      ResolveUnfold(env, lists, t.St(), rounds');
      ghost var add;
      failure, output', add := Round(t, ignore, output', env, lists, rounds');
      if failure.Some? {
        return;
      }
      WriteRound(env, t.files, rounds', |rounds|, add);
      rounds' := rounds' + [add];
      UnresolvedHead(t);
    }
    ResolveUnfold(env, lists, t.St(), rounds');
    failure := None;
  }

  lemma NothingWritten(files: seq<FileEntry>, output: string)
    ensures Flat([]) == [] && output + Framed(Contents(files, [])) == output
  {
  }

  lemma ContentsAppend(files: seq<FileEntry>, a: seq<nat>, b: seq<nat>)
    requires (forall i :: 0 <= i < |a| ==> a[i] < |files|) && (forall i :: 0 <= i < |b| ==> b[i] < |files|)
    ensures (forall i :: 0 <= i < |a + b| ==> (a + b)[i] < |files|)
    ensures Contents(files, a + b) == Contents(files, a) + Contents(files, b)
  {
  }

  lemma FlatMore(rounds: seq<seq<nat>>, n: nat, add: seq<nat>)
    requires n <= |rounds|
    ensures Flat((rounds + [add])[n..]) == Flat(rounds[n..]) + add
  {
    var rs := (rounds + [add])[n..];
    assert rs == rounds[n..] + [add] && rs[..|rs| - 1] == rounds[n..];
  }

  lemma WriteRound(env: Env, files: seq<FileEntry>, rounds: seq<seq<nat>>, n: nat, add: seq<nat>)
    requires |files| == |env.files| && n <= |rounds| && Scanned(env, Flat(rounds[n..])) && Scanned(env, add)
    ensures Scanned(env, Flat((rounds + [add])[n..]))
    ensures Framed(Contents(files, Flat((rounds + [add])[n..]))) ==
      Framed(Contents(files, Flat(rounds[n..]))) + Framed(Contents(files, add))
  {
    hide Framed, Contents, Flat;
    FlatMore(rounds, n, add);
    ContentsAppend(files, Flat(rounds[n..]), add);
    FramedAppend(Contents(files, Flat(rounds[n..])), Contents(files, add));
  }

  // Symbols that no file defines

  /** Makes `x` a symbol defined by no file; false is the failed assertion that it
      is not included yet. */
  method DefineEntry(t: Table, intrinsic: FileEntry, x: string) returns (ok: bool)
    requires t.Valid() && intrinsic.place == Intrinsic
    modifies t, t.slots
    ensures Grown(t) && t.files == old(t.files) && t.Valid()
    ensures ok <==> !Get(old(t.St()), x).included
    ensures ok ==> t.St() == DefineList(old(t.St()), x)
  {
    hide Table.Valid, Table.St;
    ghost var st := t.St();
    var e := t.Lookup(x);
    t.Reads(e);
    ok := !e.included;
    if ok {
      t.SetDef(e, intrinsic);
      t.SetStrongDef(e, intrinsic);
      t.SetIncluded(e);
      DefinedTwice(st, x);
    }
  }

  lemma DefinedTwice(st: State, x: string)
    ensures var st1 := Put(st, x, Get(st, x));
            var st2 := Put(st1, x, Get(st1, x).(def := Intrinsic));
            var st3 := Put(st2, x, Get(st2, x).(strongDef := Intrinsic));
            Put(st3, x, Get(st3, x).(included := true)) == DefineList(st, x)
  {
  }

  method DefineIntrinsicEntries(t: Table, intrinsic: FileEntry) returns (ok: bool)
    requires t.Valid() && intrinsic.place == Intrinsic && t.St() == State(map[], [], [])
    modifies t, t.slots
    ensures Grown(t) && t.files == old(t.files)
    ensures ok && t.Valid() && t.St() == DefineIntrinsics()
  {
    hide Table.Valid, Table.St;
    ok := DefineEntry(t, intrinsic, "vprintf");
    ok := DefineEntry(t, intrinsic, "malloc");
    ok := DefineEntry(t, intrinsic, "free");
  }

  datatype Special = NoneFound | ListsWritten | Invalid | Aborted

  /** Writes the lists of global constructors and destructors, if there are any. */
  method HandleSpecialPurposeFunctions(t: Table, intrinsic: FileEntry, output: string)
    returns (r: Special, output': string)
    requires t.Valid() && intrinsic.place == Intrinsic
    modifies t, t.slots
    ensures Grown(t) && t.files == old(t.files) && t.Valid()
    ensures match HandleSpecials(old(t.St()), old(t.St()).specials)
            case Nothing => r == NoneFound && t.St() == old(t.St()) && output' == output
            case BadSpecials => r == Invalid
            case ListIncluded => r == Aborted
            case Wrote(st, part) => r == ListsWritten && t.St() == st && output' == output + Part(part)
  {
    hide Table.Valid, Table.St, DefineList, Expected, Cdtors, ValidPriorities, JoinLines, PartLines, ListLines, Part;
    output' := output;
    t.SpecialsOf();
    OtherList(t.St());
    var names := t.specials;
    if names == [] {
      return NoneFound, output';
    }
    var ok, ctors, dtors := CollectCdtors(names);
    if !ok {
      return Invalid, output';
    }
    output' := output' + JoinLines(PREAMBLE);
    r, output' := WriteAndDefine(t, intrinsic, "// Constructors.", CTOR_LIST, ctors, output');
    if r != ListsWritten {
      return;
    }
    r, output' := WriteAndDefine(t, intrinsic, "// Destructors.", DTOR_LIST, dtors, output');
    if r != ListsWritten {
      return;
    }
    output' := output' + JoinLines(DUMMY) + [NUL];
    PartWritten(output, names);
  }

  /** Writes a list and makes it a symbol. */
  method WriteAndDefine(t: Table, intrinsic: FileEntry, title: string, list: string, cs: seq<Cdtor>, output: string)
    returns (r: Special, output': string)
    requires t.Valid() && intrinsic.place == Intrinsic
    modifies t, t.slots
    ensures Grown(t) && t.files == old(t.files) && t.Valid()
    ensures !ValidPriorities(cs) ==> r == Invalid
    ensures ValidPriorities(cs) && Get(old(t.St()), list).included ==> r == Aborted
    ensures ValidPriorities(cs) && !Get(old(t.St()), list).included ==>
      && r == ListsWritten && t.St() == DefineList(old(t.St()), list)
      && output' == output + JoinLines(ListLines(title, list, cs))
  {
    hide Table.Valid, Table.St, DefineList, ValidPriorities, JoinLines, ListLines;
    var ok;
    ok, output' := WriteList(title, list, cs, output);
    if !ok {
      return Invalid, output';
    }
    ok := DefineEntry(t, intrinsic, list);
    r := if ok then ListsWritten else Aborted;
  }

  lemma OtherList(st: State)
    ensures Get(DefineList(st, CTOR_LIST), DTOR_LIST) == Get(st, DTOR_LIST)
  {
    assert CTOR_LIST[2] != DTOR_LIST[2];
  }

  lemma PartWritten(output: string, names: seq<string>)
    ensures output + JoinLines(PREAMBLE)
      + JoinLines(ListLines("// Constructors.", "__CTOR_LIST__", Cdtors(names, CTOR_PREFIX)))
      + JoinLines(ListLines("// Destructors.", "__DTOR_LIST__", Cdtors(names, DTOR_PREFIX)))
      + JoinLines(DUMMY) + [NUL] == output + Part(JoinLines(PartLines(names)))
  {
    hide JoinLines, ListLines, Cdtors;
    var c := ListLines("// Constructors.", "__CTOR_LIST__", Cdtors(names, CTOR_PREFIX));
    var d := ListLines("// Destructors.", "__DTOR_LIST__", Cdtors(names, DTOR_PREFIX));
    NextLines(output, PREAMBLE, c);
    NextLines(output, PREAMBLE + c, d);
    NextLines(output, PREAMBLE + c + d, DUMMY);
  }
}
