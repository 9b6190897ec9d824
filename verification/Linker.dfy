/** The linker in memory: what its loops do to the symbol table is what the value
    model says. */
module Linker {
  import opened Common
  import opened Markers
  import opened LinkSpec
  import opened LinkInvariant
  import opened LinkRun
  import opened SymbolTable
  import opened Framing

  /** The table has only grown: entries keep their slots. */
  twostate predicate Grown(t: Table)
    reads t
  {
    && old(t.slots) <= t.slots
    && forall i :: |old(t.slots)| <= i < |t.slots| ==> fresh(t.slots[i])
  }

  /** Before any linking only intrinsics are included. */
  ghost predicate OnlyIntrinsics(st: State) {
    forall x :: Get(st, x).included ==> Get(st, x) == IntrinsicSym()
  }

  /** A marker met while scanning: only first DEFs matter. */
  method ScanOne(t: Table, fhe: FileEntry, ghost f: nat, m: Marker)
    requires t.Valid() && f < |t.files| && t.files[f] == fhe && fhe.place == InFile(f)
    requires OnlyIntrinsics(t.St())
    modifies t, t.slots
    ensures t.Valid() && t.St() == ScanMarker(old(t.St()), f, m)
    ensures Grown(t) && t.files == old(t.files) && t.queue == old(t.queue)
  {
    hide Table.Valid, Table.St;
    var e := t.Lookup(m.name);
    t.Reads(e);
    assert e.included ==> PlaceOf(e.def) == Intrinsic && PlaceOf(e.strongDef) == Intrinsic;
    if m.isDef {
      if e.def == null {
        t.SetDef(e, fhe);
      }
    }
  }

  /** Every DEF linked so far is a DEF of a scanned file. */
  ghost predicate Sourced(env: Env, es: seq<Event>) {
    forall x :: Defined(es, x) ==> FirstDef(env, |env.files|, x) != Undefined
  }

  /** What the linker's assertions about the entry of `x` rely on: a referenced
      symbol that a marker defines is in the list, and an included one is defined. */
  lemma EntryFacts(env: Env, lists: bool, es: seq<Event>, st: State, x: string, isDef: bool)
    requires LinkInv(env, lists, es, st) && Sourced(env, es) && !Star(x)
    requires isDef ==> FirstDef(env, |env.files|, x) != Undefined
    ensures var s := Get(st, x);
            && (x in st.unresolved ==> s.referenced && !s.included)
            && (s.included || isDef ==> s.def != Undefined)
            && (isDef && s.referenced && !s.included ==> x in st.unresolved)
  {
    hide Defined, Declared, Strong, FirstDef, Star, IsIntrinsic;
    assert SymInv(env, lists, es, st.unresolved, x, Get(st, x));
  }

  /** A marker met while linking. */
  method LinkOne(t: Table, fhe: FileEntry, ghost f: nat, m: Marker, ghost env: Env, ghost lists: bool,
      ghost es: seq<Event>)
    returns (ok: bool)
    requires t.Valid() && f < |t.files| && t.files[f] == fhe && fhe.place == InFile(f)
    requires LinkInv(env, lists, es, t.St()) && Sourced(env, es) && !Star(m.name)
    requires m.isDef ==> FirstDef(env, |env.files|, m.name) != Undefined
    modifies t, t.slots
    ensures ok <==> LinkMarker(old(t.St()), f, m).Some?
    ensures ok ==> t.Valid() && Some(t.St()) == LinkMarker(old(t.St()), f, m)
    ensures Grown(t) && t.files == old(t.files)
  {
    hide Table.Valid, Table.St, LinkInv, Sourced, FirstDef, Star, StartsAt;
    ghost var st := t.St();
    EntryFacts(env, lists, es, st, m.name, m.isDef);
    var e := t.Lookup(m.name);
    t.Reads(e);
    if !m.isDef {
      if e.included {
      } else if e.referenced {
      } else {
        t.EnqueueAsUnresolved(e);
      }
    } else {
      if e.included {
        if m.weak || e.strongDef == null {
        } else {
          return false;
        }
      } else {
        IncludeEntry(t, e);
      }
      t.Reads(e);
      if e.strongDef == null && !m.weak {
        t.SetStrongDef(e, fhe);
      }
    }
    t.Reads(e);
    assert e.included ==> e.def != null;
    ok := true;
  }

  /** A first DEF: the symbol is included and no longer looked for. */
  method IncludeEntry(t: Table, e: SymbolEntry)
    requires t.Valid() && e in t.slots && (e.referenced ==> e in t.queue)
    modifies t, t.slots
    ensures t.Valid() && t.St() == Include(old(t.St()), e.key)
    ensures t.slots == old(t.slots) && t.files == old(t.files)
  {
    hide Table.Valid, Table.St, StartsAt;
    t.Reads(e);
    t.SetIncluded(e);
    if e.referenced {
      ghost var i :| 0 <= i < |t.queue| && t.queue[i] == e;
      t.DequeueUnresolved(e, i);
    }
    if StartsAt(e.key, 0, "_GLOBAL__") {
      t.PushSpecial(e.key);
    }
  }

  lemma ScanMore(st: State, f: nat, ms: seq<Marker>, m: Marker)
    ensures ScanMarkers(st, f, ms + [m]) == ScanMarker(ScanMarkers(st, f, ms), f, m)
  {
    assert (ms + [m])[..|ms|] == ms;
  }

  lemma ScanKeepsIntrinsics(st: State, f: nat, m: Marker)
    requires OnlyIntrinsics(st)
    ensures OnlyIntrinsics(ScanMarker(st, f, m))
  {
    assert Get(st, m.name).included ==> Get(st, m.name) == IntrinsicSym();
    forall x | Get(ScanMarker(st, f, m), x).included ensures Get(ScanMarker(st, f, m), x) == IntrinsicSym() {
      assert Get(st, x).included ==> Get(st, x) == IntrinsicSym();
    }
  }

  lemma BeforeMore(ms: seq<Marker>, m: Marker, r: Option<seq<Marker>>)
    ensures Before(ms, Before([m], r)) == Before(ms + [m], r)
  {
    if r.Some? { assert ms + ([m] + r.value) == ms + [m] + r.value; }
  }

  lemma BeforeEnds(ms: seq<Marker>, r: Option<seq<Marker>>)
    ensures Before([], r) == r && Before(ms, Some([])) == Some(ms)
  {
    if r.Some? { assert [] + r.value == r.value; }
    assert ms + [] == ms;
  }

  /** Scanning the C string `buf` of a file; false is the error "truncated marker
      line". */
  method ScanRefsDefs(t: Table, fhe: FileEntry, buf: string, ghost f: nat) returns (ok: bool)
    requires t.Valid() && f < |t.files| && t.files[f] == fhe && fhe.place == InFile(f)
    requires OnlyIntrinsics(t.St())
    modifies t, t.slots
    ensures ok <==> MarkersOf(buf).Some?
    ensures t.Valid() && OnlyIntrinsics(t.St())
    ensures ok ==> t.St() == ScanMarkers(old(t.St()), f, MarkersOf(buf).value)
    ensures Grown(t) && t.files == old(t.files) && t.queue == old(t.queue)
  {
    hide Table.Valid, Table.St, OnlyIntrinsics, MarkersOf, ScanMarkers, ScanMarker;
    ghost var st: State, acc: seq<Marker> := t.St(), [];
    var ptx := 0;
    assert buf[0..] == buf;
    BeforeEnds([], MarkersOf(buf));
    ScanNone(st, f);
    while true
      invariant ptx <= |buf| && t.Valid() && OnlyIntrinsics(t.St())
      invariant MarkersOf(buf) == Before(acc, MarkersOf(buf[ptx..]))
      invariant t.St() == ScanMarkers(st, f, acc)
      invariant Grown(t) && t.files == old(t.files) && t.queue == old(t.queue)
      decreases |buf| - ptx
    {
      var r := NextMarker(buf, ptx);
      match r {
        case End =>
          BeforeEnds(acc, None);
          return true;
        case Truncated => return false;
        case Found(m, next) =>
          BeforeMore(acc, m, MarkersOf(buf[next..]));
          ScanMore(st, f, acc, m);
          ScanKeepsIntrinsics(t.St(), f, m);
          ScanOne(t, fhe, f, m);
          acc, ptx := acc + [m], next;
      }
    }
  }

  lemma ScanNone(st: State, f: nat)
    ensures ScanMarkers(st, f, []) == st
  {
  }

  lemma {:induction false} LinkedPrefix(st: State, f: nat, ms: seq<Marker>, k: nat)
    requires k <= |ms| && LinkMarkers(st, f, ms[..k]) == None
    ensures LinkMarkers(st, f, ms) == None
  {
    if k < |ms| {
      assert ms[..|ms| - 1][..k] == ms[..k];
      LinkedPrefix(st, f, ms[..|ms| - 1], k);
    } else {
      assert ms[..k] == ms;
    }
  }

  /** DEFs of the files `done` and of the first markers of file `f` are DEFs of
      scanned files. */
  lemma SourcedSoFar(env: Env, done: seq<nat>, f: nat, k: nat)
    requires Scanned(env, done) && f < |env.files| && k <= |env.files[f]|
    ensures Sourced(env, Events(env, done) + FileEvents(f, env.files[f][..k]))
  {
    hide FirstDef, Defined;
    var es, ms := Events(env, done), env.files[f][..k];
    forall x | Defined(es + FileEvents(f, ms), x) ensures FirstDef(env, |env.files|, x) != Undefined {
      EventsMention(env, done, x);
      FileMentions(es, f, ms, x);
      if Defines(ms, x) {
        var j :| 0 <= j < |ms| && ms[j].isDef && ms[j].name == x;
        assert env.files[f][j] == ms[j] && Defines(env.files[f], x);
      }
    }
  }

  /** What linking needs of the next marker. */
  lemma NextMarkerFacts(env: Env, lists: bool, done: seq<nat>, st: State, st': State, f: nat, k: nat)
    requires ValidEnv(env) && Scanned(env, done) && f < |env.files| && k < |env.files[f]|
    requires LinkInv(env, lists, Events(env, done), st) && LinkMarkers(st, f, env.files[f][..k]) == Some(st')
    ensures var es, m := Events(env, done) + FileEvents(f, env.files[f][..k]), env.files[f][k];
            && !Star(m.name) && (m.isDef ==> FirstDef(env, |env.files|, m.name) != Undefined)
            && LinkInv(env, lists, es, st') && Sourced(env, es)
  {
    hide FirstDef, LinkInv, Sourced, LinkMarkers, FileEvents, Events;
    var ms := env.files[f][..k];
    assert PlainNames(ms);
    FileKeepsInv(env, lists, Events(env, done), st, f, ms);
    SourcedSoFar(env, done, f, k);
    assert env.files[f][k].isDef ==> Defines(env.files[f], env.files[f][k].name);
  }

  /** Linking a file; false is the error "multiple definitions". */
  method LinkRefsDefs(t: Table, fhe: FileEntry, ghost f: nat, ghost env: Env, ghost lists: bool, ghost done: seq<nat>)
    returns (ok: bool)
    requires t.Valid() && f < |t.files| && t.files[f] == fhe && fhe.place == InFile(f)
    requires ValidEnv(env) && Scanned(env, done) && f < |env.files| && MarkersOf(fhe.data) == Some(env.files[f])
    requires LinkInv(env, lists, Events(env, done), t.St())
    modifies t, t.slots
    ensures ok <==> LinkMarkers(old(t.St()), f, env.files[f]).Some?
    ensures ok ==> t.Valid() && Some(t.St()) == LinkMarkers(old(t.St()), f, env.files[f])
    ensures Grown(t) && t.files == old(t.files)
  {
    hide Table.Valid, Table.St, LinkInv, MarkersOf, LinkMarker, Sourced, Events, FileEvents, ValidEnv;
    ghost var st, ms, k: nat := t.St(), env.files[f], 0;
    var ptx := 0;
    assert fhe.data[0..] == fhe.data && ms[0..] == ms && ms[..0] == [];
    while true
      invariant ptx <= |fhe.data| && t.Valid()
      invariant k <= |ms| && MarkersOf(fhe.data[ptx..]) == Some(ms[k..])
      invariant LinkMarkers(st, f, ms[..k]) == Some(t.St())
      invariant Grown(t) && t.files == old(t.files)
      decreases |fhe.data| - ptx
    {
      var r := NextMarker(fhe.data, ptx);
      if r == End {
        assert ms[..k] == ms;
        return true;
      }
      assert r.Found? && ms[k..] == [r.marker] + MarkersOf(fhe.data[r.next..]).value;
      assert ms[k] == r.marker && ms[k + 1..] == ms[k..][1..];
      NextMarkerFacts(env, lists, done, st, t.St(), f, k);
      assert ms[..k + 1][..|ms[..k + 1]| - 1] == ms[..k];
      ok := LinkOne(t, fhe, f, r.marker, env, lists, Events(env, done) + FileEvents(f, ms[..k]));
      if !ok {
        LinkedPrefix(st, f, ms, k + 1);
        return;
      }
      k, ptx := k + 1, r.next;
    }
  }

  /** The list of files to add, from `head`, is that of the numbers `add`; exactly
      its members are marked. */
  ghost predicate Listed(files: seq<FileEntry>, head: FileEntry?, add: seq<nat>)
    reads files
  {
    && (forall i {:trigger add[i]} :: 0 <= i < |add| ==> add[i] < |files|)
    && head == (if add == [] then null else files[add[0]])
    && (forall i {:trigger files[add[i]].next} :: 0 <= i < |add| ==> files[add[i]].next == if i == |add| - 1 then null
      else files[add[i + 1]])
    && (forall f {:trigger files[f].queued} :: 0 <= f < |files| ==> (files[f].queued <==> f in add))
  }

  /** Puts a file that is not there yet at the front of the list. */
  method AddFile(head: FileEntry?, fhe: FileEntry, ghost files: seq<FileEntry>, ghost add: seq<nat>, ghost g: nat)
    returns (head': FileEntry?)
    requires Listed(files, head, add) && g < |files| && files[g] == fhe
    requires forall i, j :: 0 <= i < j < |files| ==> files[i] != files[j]
    modifies fhe
    ensures Listed(files, head', if g in add then add else [g] + add)
  {
    head' := head;
    if !fhe.queued {
      fhe.queued := true;
      fhe.next := head;
      head' := fhe;
    }
  }

  /** What the pass relies on at the entry it visits. */
  lemma VisitFacts(env: Env, lists: bool, es: seq<Event>, q0: seq<string>, st: State, rest: seq<string>,
      toAdd: seq<nat>)
    requires ValidEnv(env) && Collecting(env, lists, es, q0, st, rest, toAdd) && rest != []
    ensures var s := Get(st, rest[0]);
            && !s.included && s.referenced && s.def != Intrinsic
            && (s.def == Undefined ==> !Star(rest[0]))
            && (s.def.InFile? ==> s.def.file < |env.files|)
  {
    assert rest[0] in st.unresolved;
    EntryDef(env, lists, es, st, rest[0]);
    assert SymInv(env, lists, es, st.unresolved, rest[0], Get(st, rest[0]));
  }

  /** Chooses the list entry visited next; `kept` stays, `rest` is to be visited. */
  ghost predicate At(t: Table, e: SymbolEntry?, kept: seq<SymbolEntry>, rest: seq<SymbolEntry>)
    reads t
  {
    t.queue == kept + rest && e == (if rest == [] then null else rest[0])
  }

  /** The link of the visited entry leads to the next one. */
  lemma NextAt(t: Table, e: SymbolEntry, kept: seq<SymbolEntry>, rest: seq<SymbolEntry>)
    requires t.Valid() && At(t, e, kept, rest)
    ensures rest != [] && e in t.slots && e in t.queue && t.queue[|kept|] == e
    ensures e.next == (if rest[1..] == [] then null else rest[1..][0])
    ensures Keys(rest) == [e.key] + Keys(rest[1..])
    ensures t.queue[..|kept|] + t.queue[|kept| + 1..] == kept + rest[1..]
    ensures kept + rest == (kept + [e]) + rest[1..]
  {
    assert t.queue[|kept|] == rest[0];
    assert rest[1..] != [] ==> t.queue[|kept| + 1] == rest[1];
  }

  /** Visits entry `e`: special symbols are included and dequeued, ignored ones
      without definition dequeued. */
  method Visit(t: Table, e: SymbolEntry, ignore: set<string>, ghost kept: seq<SymbolEntry>,
      ghost rest: seq<SymbolEntry>)
    returns (ok: bool, ghost kept': seq<SymbolEntry>)
    requires t.Valid() && At(t, e, kept, rest)
    requires !e.included && e.referenced && (Star(e.key) ==> e.def != null)
    modifies t, t.slots
    ensures t.Valid() && t.slots == old(t.slots) && t.files == old(t.files)
    ensures t.queue == kept' + rest[1..] && e.next == old(e.next) && e.def == old(e.def)
    ensures ok <==> e.def != null || e.key in ignore
    ensures ok ==> t.St() == if e.def == null then Dequeue(TakeSpecial(old(t.St()), e.key), e.key)
      else TakeSpecial(old(t.St()), e.key)
  {
    hide Table.Valid, Table.St;
    NextAt(t, e, kept, rest);
    kept' := kept + [e];
    if e.key != "" && e.key[0] == '*' {
      t.SetIncluded(e);
      t.DequeueUnresolved(e, |kept|);
      kept' := kept;
    }
    ok := true;
    if e.def == null {
      if e.key in ignore {
        t.DequeueUnresolved(e, |kept|);
        kept' := kept;
      } else {
        ok := false;
      }
    }
  }

  /** Scanned files are different objects, none of them in a list. */
  ghost predicate Idle(files: seq<FileEntry>)
    reads files
  {
    forall f {:trigger files[f].queued} :: 0 <= f < |files| ==> !files[f].queued
  }

  ghost predicate Places(files: seq<FileEntry>) {
    forall f {:trigger files[f]} :: 0 <= f < |files| ==> files[f].place == InFile(f)
  }

  /** Visits entry `e` and puts its file, if it has one, into the list. */
  method VisitAndAdd(t: Table, e: SymbolEntry, ignore: set<string>, toAdd: FileEntry?,
      ghost kept: seq<SymbolEntry>, ghost rest: seq<SymbolEntry>, ghost add: seq<nat>)
    returns (ok: bool, toAdd': FileEntry?, ghost kept': seq<SymbolEntry>, ghost add': seq<nat>)
    requires t.Valid() && At(t, e, kept, rest) && Listed(t.files, toAdd, add) && Places(t.files)
    requires !e.included && e.referenced && (Star(e.key) ==> e.def != null)
    requires e.def != null ==> e.def.place.InFile? && e.def.place.file < |t.files| && t.files[e.def.place.file] == e.def
    modifies t, t.slots, t.files
    ensures t.slots == old(t.slots) && t.files == old(t.files)
    ensures t.queue == kept' + rest[1..] && e.next == old(e.next) && e.def == old(e.def)
    ensures ok <==> e.def != null || e.key in ignore
    ensures ok ==> t.Valid() && Listed(t.files, toAdd', add')
    ensures ok ==> t.St() == if e.def == null then Dequeue(TakeSpecial(old(t.St()), e.key), e.key)
      else TakeSpecial(old(t.St()), e.key)
    ensures add' == if e.def == null then add else var g := e.def.place.file; if g in add then add else [g] + add
  {
    hide Table.Valid, Table.St, Listed, TakeSpecial, Star;
    toAdd', add' := toAdd, add;
    ok, kept' := Visit(t, e, ignore, kept, rest);
    if e.def != null {
      ghost var g := e.def.place.file;
      assert forall i, j :: 0 <= i < j < |t.files| ==> t.files[i] != t.files[j];
      toAdd' := AddFile(toAdd, e.def, t.files, add, g);
      add' := if g in add then add else [g] + add;
    }
  }

  /** The pass over the unresolved symbols; false is the error "unresolved
      symbol". Dequeuing the visited entry leaves its `next` in place. */
  method CollectFiles(t: Table, ignore: set<string>, ghost env: Env, ghost lists: bool, ghost es: seq<Event>)
    returns (ok: bool, toAdd: FileEntry?, ghost add: seq<nat>)
    requires t.Valid() && ValidEnv(env) && LinkInv(env, lists, es, t.St()) && ignore == env.ignore
    requires |t.files| == |env.files| && Places(t.files) && Idle(t.files)
    modifies t, t.slots, t.files
    ensures ok <==> Collect(env, old(t.St())).Some?
    ensures ok ==> t.Valid() && Collect(env, old(t.St())) == Some((t.St(), add)) && Listed(t.files, toAdd, add)
    ensures t.slots == old(t.slots) && t.files == old(t.files)
  {
    hide Table.Valid, Table.St, LinkInv, ValidEnv, TakeSpecial, Collecting, Star, Distinct, CollectFrom, Listed;
    ghost var q0, kept, rest := Keys(t.queue), [], t.queue;
    toAdd, add := null, [];
    var e := t.unresolved;
    ok := true;
    CollectStart(env, lists, es, t.St());
    CollectEntry(t, env);
    while e != null
      invariant t.Valid() && At(t, e, kept, rest) && t.slots == old(t.slots) && t.files == old(t.files)
      invariant Collecting(env, lists, es, q0, t.St(), Keys(rest), add) && (forall x :: x in Keys(rest) ==> x in q0)
      invariant CollectFrom(env, t.St(), Keys(rest), add) == Collect(env, old(t.St()))
      invariant Listed(t.files, toAdd, add)
      decreases |rest|
    {
      ghost var st, x := t.St(), e.key;
      NextAt(t, e, kept, rest);
      t.Reads(e);
      VisitFacts(env, lists, es, q0, st, Keys(rest), add);
      VisitStep(env, lists, es, q0, st, Keys(rest), add);
      CollectStep(env, st, Keys(rest), add);
      ok, toAdd, kept, add := VisitAndAdd(t, e, ignore, toAdd, kept, rest, add);
      if !ok {
        return;
      }
      rest := rest[1..];
      e := e.next;
    }
    CollectEnd(env, t.St(), add);
  }

  lemma CollectEntry(t: Table, env: Env)
    requires t.Valid() && Idle(t.files)
    ensures At(t, t.unresolved, [], t.queue) && Keys(t.queue) == t.St().unresolved
    ensures CollectFrom(env, t.St(), Keys(t.queue), []) == Collect(env, t.St())
    ensures Listed(t.files, null, [])
  {
    assert [] + t.queue == t.queue;
  }

  lemma CollectStep(env: Env, st: State, es: seq<string>, toAdd: seq<nat>)
    requires es != []
    ensures CollectFrom(env, st, es, toAdd) ==
      var x := es[0];
      var st1 := TakeSpecial(st, x);
      match Get(st, x).def
      case Undefined => if x in env.ignore then CollectFrom(env, Dequeue(st1, x), es[1..], toAdd) else None
      case Intrinsic => None
      case InFile(f) => CollectFrom(env, st1, es[1..], if f in toAdd then toAdd else [f] + toAdd)
  {
  }

  lemma CollectEnd(env: Env, st: State, toAdd: seq<nat>)
    ensures CollectFrom(env, st, [], toAdd) == Some((st, toAdd))
  {
  }
}
