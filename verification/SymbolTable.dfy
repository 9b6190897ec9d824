/** The linker's symbol table in memory, with the list of unresolved symbols
    threaded through its entries. */
module SymbolTable {
  import opened LinkSpec

  /** A scanned file; `place` is how the value model names it. */
  class FileEntry {
    ghost const place: Definition
    const data: string
    var queued: bool
    var next: FileEntry?

    constructor (ghost place: Definition, data: string)
      ensures this.place == place && this.data == data && !queued && next == null
    {
      this.place := place;
      this.data := data;
      queued, next := false, null;
    }
  }

  /** What the previous link of an entry points at: nothing, the list's head, or
      the `next` field of an entry. */
  datatype Back = NoBack | Head | NextOf(entry: SymbolEntry)

  /** A symbol; `slot` is its place among all symbols, in order of creation. */
  class SymbolEntry {
    const key: string
    ghost const slot: nat
    var pprev: Back
    var next: SymbolEntry?
    var def: FileEntry?
    var strongDef: FileEntry?
    var included: bool
    var referenced: bool

    constructor (key: string, ghost slot: nat)
      ensures this.key == key && this.slot == slot && pprev == NoBack && next == null
      ensures def == null && strongDef == null && !included && !referenced
    {
      this.key := key;
      this.slot := slot;
      pprev, next := NoBack, null;
      def, strongDef := null, null;
      included, referenced := false, false;
    }
  }

  ghost function PlaceOf(f: FileEntry?): Definition {
    if f == null then Undefined else f.place
  }

  /** `q` is chained both ways from the head `first`. */
  ghost predicate Chained(first: SymbolEntry?, q: seq<SymbolEntry>)
    reads q`next, q`pprev
  {
    && first == (if q == [] then null else q[0])
    && (forall i {:trigger q[i].next} :: 0 <= i < |q| ==> q[i].next == if i == |q| - 1 then null else q[i + 1])
    && (forall i {:trigger q[i].pprev} :: 0 <= i < |q| ==> q[i].pprev == if i == 0 then Head else NextOf(q[i - 1]))
  }

  /** The entries of `q` are all different and have slots. */
  ghost predicate Slotted(slots: seq<SymbolEntry>, q: seq<SymbolEntry>) {
    && (forall i {:trigger slots[i]} :: 0 <= i < |slots| ==> slots[i].slot == i)
    && (forall i {:trigger q[i]} :: 0 <= i < |q| ==> q[i].slot < |slots| && slots[q[i].slot] == q[i])
    && (forall i, j :: 0 <= i < j < |q| ==> q[i] != q[j])
  }

  /** Each entry holds the symbol at its place. */
  ghost predicate Holds(slots: seq<SymbolEntry>, vals: seq<Sym>)
    reads slots`def, slots`strongDef, slots`included, slots`referenced
  {
    && |slots| == |vals|
    && (forall i {:trigger slots[i].def} :: 0 <= i < |slots| ==> PlaceOf(slots[i].def) == vals[i].def)
    && (forall i {:trigger slots[i].strongDef} :: 0 <= i < |slots| ==> PlaceOf(slots[i].strongDef) == vals[i].strongDef)
    && (forall i {:trigger slots[i].included} :: 0 <= i < |slots| ==> slots[i].included == vals[i].included)
    && (forall i {:trigger slots[i].referenced} :: 0 <= i < |slots| ==> slots[i].referenced == vals[i].referenced)
  }

  /** The hash table: names to slots. */
  ghost predicate Indexed(index: map<string, nat>, slots: seq<SymbolEntry>) {
    && (forall k {:trigger index[k]} :: k in index ==> index[k] < |slots| && slots[index[k]].key == k)
    && (forall i {:trigger slots[i]} :: 0 <= i < |slots| ==> slots[i].key in index && index[slots[i].key] == i)
  }

  ghost function Keys(q: seq<SymbolEntry>): (ks: seq<string>)
    ensures |ks| == |q| && forall i {:trigger ks[i]} :: 0 <= i < |q| ==> ks[i] == q[i].key
  {
    seq(|q|, i requires 0 <= i < |q| => q[i].key)
  }

  /** The value a table stands for. */
  ghost function StateOf(index: map<string, nat>, vals: seq<Sym>, queue: seq<SymbolEntry>,
      specials: seq<string>): State {
    State(map k | k in index && index[k] < |vals| :: vals[index[k]], Keys(queue), specials)
  }

  lemma StateGet(index: map<string, nat>, slots: seq<SymbolEntry>, vals: seq<Sym>, queue: seq<SymbolEntry>,
      specials: seq<string>, e: SymbolEntry)
    requires Indexed(index, slots) && |slots| == |vals| && e.slot < |slots| && slots[e.slot] == e
    ensures e.key in StateOf(index, vals, queue, specials).syms
    ensures Get(StateOf(index, vals, queue, specials), e.key) == vals[e.slot]
  {
  }

  lemma StatePut(index: map<string, nat>, slots: seq<SymbolEntry>, vals: seq<Sym>, queue: seq<SymbolEntry>,
      specials: seq<string>, e: SymbolEntry, s: Sym)
    requires Indexed(index, slots) && |slots| == |vals| && e.slot < |slots| && slots[e.slot] == e
    ensures StateOf(index, vals[e.slot := s], queue, specials) == Put(StateOf(index, vals, queue, specials), e.key, s)
  {
    var a, b := StateOf(index, vals[e.slot := s], queue, specials).syms,
      Put(StateOf(index, vals, queue, specials), e.key, s).syms;
    assert a.Keys == b.Keys;
    forall k | k in a ensures a[k] == b[k] {
      if k != e.key { assert index[k] != e.slot; }
    }
  }

  lemma StateCreate(index: map<string, nat>, slots: seq<SymbolEntry>, vals: seq<Sym>, queue: seq<SymbolEntry>,
      specials: seq<string>, e: SymbolEntry)
    requires Indexed(index, slots) && |slots| == |vals| && e.slot == |slots| && e.key !in index
    ensures Indexed(index[e.key := e.slot], slots + [e])
    ensures Get(StateOf(index, vals, queue, specials), e.key) == FRESH
    ensures StateOf(index[e.key := e.slot], vals + [FRESH], queue, specials) ==
      Put(StateOf(index, vals, queue, specials), e.key, FRESH)
  {
    var a, b := StateOf(index[e.key := e.slot], vals + [FRESH], queue, specials).syms,
      Put(StateOf(index, vals, queue, specials), e.key, FRESH).syms;
    assert a.Keys == b.Keys;
  }

  /** Removing entry `i` of the list removes its name. */
  lemma {:induction false} KeysWithout(index: map<string, nat>, slots: seq<SymbolEntry>, q: seq<SymbolEntry>, i: nat)
    requires Indexed(index, slots) && Slotted(slots, q) && i < |q|
    ensures Keys(q[..i] + q[i + 1..]) == Without(Keys(q), q[i].key)
  {
    var ks := Keys(q);
    assert ks[0] == q[0].key;
    if i == 0 {
      assert q[..i] + q[i + 1..] == q[1..];
    } else {
      assert q[0].key != q[i].key by {
        assert index[q[0].key] == q[0].slot && index[q[i].key] == q[i].slot;
      }
      assert Slotted(slots, q[1..]);
      KeysWithout(index, slots, q[1..], i - 1);
      assert ks[1..] == Keys(q[1..]);
      assert q[1..][..i - 1] + q[1..][i..] == (q[..i] + q[i + 1..])[1..];
    }
  }

  lemma SlottedRemove(slots: seq<SymbolEntry>, q: seq<SymbolEntry>, i: nat)
    requires Slotted(slots, q) && i < |q|
    ensures Slotted(slots, q[..i] + q[i + 1..])
    ensures forall j, k :: 0 <= j < k < |q| ==> q[j] != q[k]
    ensures forall j :: 0 <= j < |q| ==> q[j] in slots
  {
  }

  /** `f` is no file, the intrinsic one, or a scanned file. */
  ghost predicate KnownFile(files: seq<FileEntry>, f: FileEntry?) {
    f == null || f.place == Intrinsic || (f.place.InFile? && f.place.file < |files| && files[f.place.file] == f)
  }

  ghost predicate Placed(slots: seq<SymbolEntry>, files: seq<FileEntry>)
    reads slots`def, slots`strongDef
  {
    && (forall i {:trigger files[i]} :: 0 <= i < |files| ==> files[i].place == InFile(i))
    && (forall i {:trigger slots[i].def} :: 0 <= i < |slots| ==> KnownFile(files, slots[i].def))
    && (forall i {:trigger slots[i].strongDef} :: 0 <= i < |slots| ==> KnownFile(files, slots[i].strongDef))
  }

  class Table {
    var slots: seq<SymbolEntry>
    var index: map<string, nat>
    var unresolved: SymbolEntry?
    var specials: seq<string>
    ghost var vals: seq<Sym>
    ghost var queue: seq<SymbolEntry>
    /** The scanned files, in the order scanned. */
    ghost var files: seq<FileEntry>

    /** The links form one acyclic list of the entries of `queue`. */
    ghost predicate Valid()
      reads this, slots
    {
      && Slotted(slots, queue)
      && Placed(slots, files)
      && Holds(slots, vals)
      && Chained(unresolved, queue)
      && Indexed(index, slots)
    }

    ghost function St(): State
      reads this
    {
      StateOf(index, vals, queue, specials)
    }

    /** What the fields of an entry say of its symbol. */
    lemma Reads(e: SymbolEntry)
      requires Valid() && e in slots
      ensures var s := Get(St(), e.key);
              && PlaceOf(e.def) == s.def && PlaceOf(e.strongDef) == s.strongDef
              && e.included == s.included && e.referenced == s.referenced
              && (e.def == null <==> s.def == Undefined) && (e.strongDef == null <==> s.strongDef == Undefined)
      ensures KnownFile(files, e.def)
      ensures e.key in St().syms
      ensures e in queue <==> e.key in St().unresolved
    {
      hide Chained;
      StateGet(index, slots, vals, queue, specials, e);
      if i :| 0 <= i < |queue| && queue[i].key == e.key {
        assert index[e.key] == e.slot && index[queue[i].key] == queue[i].slot;
      }
      if i :| 0 <= i < |queue| && queue[i] == e {
        assert Keys(queue)[i] == e.key;
      }
    }

    constructor ()
      ensures Valid() && St() == State(map[], [], []) && slots == [] && files == []
    {
      slots, vals := [], [];
      index := map[];
      unresolved := null;
      specials := [];
      queue := [];
      files := [];
    }

    /** A file is about to be scanned. */
    ghost method AddFile(f: FileEntry)
      requires Valid() && f.place == InFile(|files|)
      modifies `files
      ensures Valid() && files == old(files) + [f]
    {
      hide Indexed, Chained, Holds;
      files := files + [f];
    }

    /** Finds the entry for `x`, creating it if there is none. */
    method Lookup(x: string) returns (e: SymbolEntry)
      requires Valid()
      modifies `slots, `index, `vals
      ensures Valid() && e in slots && e.key == x
      ensures St() == Put(old(St()), x, Get(old(St()), x))
      ensures old(slots) <= slots && (forall i :: |old(slots)| <= i < |slots| ==> fresh(slots[i]))
      ensures queue == old(queue)
    {
      hide StateOf, Chained, Placed;
      if x in index {
        e := slots[index[x]];
        StateGet(index, slots, vals, queue, specials, e);
        assert St().syms == St().syms[x := Get(St(), x)];
      } else {
        e := Create(x);
      }
    }

    method Create(x: string) returns (e: SymbolEntry)
      requires Valid() && x !in index
      modifies `slots, `index, `vals
      ensures Valid() && e.key == x && fresh(e) && slots == old(slots) + [e]
      ensures St() == Put(old(St()), x, Get(old(St()), x))
      ensures queue == old(queue)
    {
      hide Indexed, Chained, StateOf, Slotted, Placed, Holds;
      e := new SymbolEntry(x, |slots|);
      OneMoreSlot(slots, queue, files, vals, e);
      StateCreate(index, slots, vals, queue, specials, e);
      index := index[x := |slots|];
      slots := slots + [e];
      vals := vals + [FRESH];
    }

    /** A fresh entry at the end. */
    static lemma OneMoreSlot(slots: seq<SymbolEntry>, queue: seq<SymbolEntry>, files: seq<FileEntry>, vals: seq<Sym>,
        e: SymbolEntry)
      requires Slotted(slots, queue) && Placed(slots, files) && Holds(slots, vals) && e.slot == |slots|
      requires e.def == null && e.strongDef == null && !e.included && !e.referenced
      ensures Slotted(slots + [e], queue) && Placed(slots + [e], files) && Holds(slots + [e], vals + [FRESH])
      ensures |slots| == |vals|
    {
      hide KnownFile;
      assert KnownFile(files, null) by { NoFileKnown(files); }
    }

    static lemma NoFileKnown(files: seq<FileEntry>)
      ensures KnownFile(files, null)
    {
    }

    method SetIncluded(e: SymbolEntry)
      requires Valid() && e in slots
      modifies e`included, `vals
      ensures Valid() && St() == Put(old(St()), e.key, Get(old(St()), e.key).(included := true))
    {
      hide Indexed, Chained, StateOf, Placed;
      StateGet(index, slots, vals, queue, specials, e);
      StatePut(index, slots, vals, queue, specials, e, vals[e.slot].(included := true));
      e.included := true;
      vals := vals[e.slot := vals[e.slot].(included := true)];
    }

    method SetDef(e: SymbolEntry, f: FileEntry)
      requires Valid() && e in slots && KnownFile(files, f)
      modifies e`def, `vals
      ensures Valid() && St() == Put(old(St()), e.key, Get(old(St()), e.key).(def := f.place))
    {
      hide Indexed, Chained, StateOf;
      StateGet(index, slots, vals, queue, specials, e);
      StatePut(index, slots, vals, queue, specials, e, vals[e.slot].(def := f.place));
      e.def := f;
      vals := vals[e.slot := vals[e.slot].(def := f.place)];
    }

    method SetStrongDef(e: SymbolEntry, f: FileEntry)
      requires Valid() && e in slots && KnownFile(files, f)
      modifies e`strongDef, `vals
      ensures Valid() && St() == Put(old(St()), e.key, Get(old(St()), e.key).(strongDef := f.place))
    {
      hide Indexed, Chained, StateOf;
      StateGet(index, slots, vals, queue, specials, e);
      StatePut(index, slots, vals, queue, specials, e, vals[e.slot].(strongDef := f.place));
      e.strongDef := f;
      vals := vals[e.slot := vals[e.slot].(strongDef := f.place)];
    }

    method PushSpecial(x: string)
      requires Valid()
      modifies `specials
      ensures Valid() && St() == old(St()).(specials := old(St().specials) + [x])
    {
      specials := specials + [x];
    }

    lemma SpecialsOf()
      ensures St().specials == specials
    {
    }

    method ClearSpecials()
      requires Valid()
      modifies `specials
      ensures Valid() && St() == old(St()).(specials := [])
    {
      specials := [];
    }

    /** Looks for the entry of `x` without creating it. */
    method Find(x: string) returns (e: SymbolEntry?)
      requires Valid()
      ensures e == null <==> x !in St().syms
      ensures e != null ==> e in slots && e.key == x
    {
      if x in index {
        e := slots[index[x]];
      } else {
        e := null;
      }
    }

    /** Puts `e` at the front of the list. */
    method EnqueueAsUnresolved(e: SymbolEntry)
      requires Valid() && e in slots && !e.included && !e.referenced && e !in queue
      modifies `unresolved, `queue, `vals, slots`pprev, slots`next, e`referenced
      ensures Valid() && St() == Enqueue(old(St()), e.key)
      ensures queue == [e] + old(queue)
    {
      hide Indexed, StateOf, Placed, Slotted, Chained;
      SlotOf(e);
      StateGet(index, slots, vals, queue, specials, e);
      StatePut(index, slots, vals, queue, specials, e, vals[e.slot].(referenced := true));
      PushState(index, vals[e.slot := vals[e.slot].(referenced := true)], queue, specials, e);
      Push(e);
      vals := vals[e.slot := vals[e.slot].(referenced := true)];
    }

    lemma SlotOf(e: SymbolEntry)
      requires Valid() && e in slots
      ensures e.slot < |slots| == |vals| && slots[e.slot] == e
      ensures forall i :: 0 <= i < |slots| ==> (slots[i] == e <==> i == e.slot)
    {
      hide Indexed, Placed, Chained;
    }

    method Push(e: SymbolEntry)
      requires Slotted(slots, queue) && Chained(unresolved, queue) && e in slots && e !in queue
      modifies `unresolved, `queue, slots`pprev, slots`next, e`referenced
      ensures Slotted(slots, queue) && Chained(unresolved, queue) && queue == [e] + old(queue) && e.referenced
    {
      e.pprev := Head;
      e.next := unresolved;
      if e.next != null {
        e.next.pprev := NextOf(e);
      }
      unresolved := e;
      e.referenced := true;
      queue := [e] + queue;
    }

    /** Takes entry `i` out of the list; its own `next` stays. */
    method DequeueUnresolved(e: SymbolEntry, ghost i: nat)
      requires Valid() && i < |queue| && queue[i] == e && e.referenced
      modifies `unresolved, `queue, slots`pprev, slots`next
      ensures Valid() && St() == Dequeue(old(St()), e.key)
      ensures queue == old(queue)[..i] + old(queue)[i + 1..]
      ensures e.next == old(e.next) && e.pprev == NoBack
    {
      hide Indexed, StateOf, Placed;
      KeysWithout(index, slots, queue, i);
      PopState(index, vals, queue, specials, i);
      Unlink(e, i);
    }

    method Unlink(e: SymbolEntry, ghost i: nat)
      requires Slotted(slots, queue) && Chained(unresolved, queue) && i < |queue| && queue[i] == e
      modifies `unresolved, `queue, slots`pprev, slots`next
      ensures Slotted(slots, queue) && Chained(unresolved, queue)
      ensures queue == old(queue)[..i] + old(queue)[i + 1..]
      ensures e.next == old(e.next) && e.pprev == NoBack
    {
      hide Slotted;
      SlottedRemove(slots, queue, i);
      if e.next != null {
        e.next.pprev := e.pprev;
      }
      match e.pprev {
        case Head => unresolved := e.next;
        case NextOf(p) => p.next := e.next;
      }
      e.pprev := NoBack;
      queue := queue[..i] + queue[i + 1..];
    }
  }

  lemma PushState(index: map<string, nat>, vals: seq<Sym>, queue: seq<SymbolEntry>, specials: seq<string>,
      e: SymbolEntry)
    ensures var st := StateOf(index, vals, queue, specials);
            StateOf(index, vals, [e] + queue, specials) == st.(unresolved := [e.key] + st.unresolved)
  {
    assert Keys([e] + queue) == [e.key] + Keys(queue);
  }

  lemma PopState(index: map<string, nat>, vals: seq<Sym>, queue: seq<SymbolEntry>, specials: seq<string>, i: nat)
    requires i < |queue| && Keys(queue[..i] + queue[i + 1..]) == Without(Keys(queue), queue[i].key)
    ensures StateOf(index, vals, queue[..i] + queue[i + 1..], specials)
         == Dequeue(StateOf(index, vals, queue, specials), queue[i].key)
  {
  }
}
