/** What nvptx-as prints for a file, told from its tokens: for each token the list it
    goes to and how it is written there, and which variable depends on which. */
module FileLayout {
  import opened Common
  import opened Tokenizer
  import opened ParserSpec
  import opened FileShape

  /** Where a token is printed, and how: behind slashes, after a space, before a line
      end, before a space of its own. */
  datatype Place = Nowhere | In(dest: Dest, slashes: bool, space: bool, end: bool, gap: bool)

  /** What a stretch of tokens is: a line, a line for the offloading tools, comments, a
      brace, a label, a predicate, an instruction, a value, or a header, with the ';' or
      '=' that closes it or without. */
  datatype Sort = Line | MapLine | Remark | Brace | Tag | Guard | Instruction | Value | Head(closed: bool)

  /** Whether a token that is not the first of its stretch keeps or gets a space. */
  predicate Spaced(t: seq<Token>, sort: Sort, lo: nat, i: nat)
    requires lo < i < |t|
  {
    match sort
    case Instruction => t[i].space && !(lo < i - 1 && Is(t, i - 1, ','))
    case Guard => false
    case Value => t[i].space && !(lo == i - 1 && Is(t, lo, '{'))
    case Head(_) =>
      Is(t, i, '(') || (!Is(t, i - 1, '(') && (t[i].space || (Is(t, i - 1, ')') && !Is(t, i, ';'))))
    case _ => t[i].space
  }

  /** These end the line they stand on. */
  predicate Closes(sort: Sort) {
    sort == Tag || sort == Instruction || sort == Head(true)
  }

  function PlaceAt(t: seq<Token>, dest: Dest, sort: Sort, lo: nat, hi: nat, i: nat): Place
    requires lo <= i < hi <= |t|
  {
    var last := i == hi - 1;
    In(dest, sort == Remark || sort == MapLine, i > lo && Spaced(t, sort, lo, i),
      t[i].end || (last && Closes(sort)), last && sort == Guard)
  }

  /** The places of the tokens from `lo` up to `hi`. */
  function Stretch(t: seq<Token>, dest: Dest, sort: Sort, lo: nat, hi: nat): (ps: seq<Place>)
    requires lo <= hi <= |t|
    ensures |ps| == hi - lo && forall k :: 0 <= k < |ps| ==> ps[k] == PlaceAt(t, dest, sort, lo, hi, lo + k)
  {
    seq(hi - lo, k requires 0 <= k < hi - lo => PlaceAt(t, dest, sort, lo, hi, lo + k))
  }

  function Nowheres(n: nat): (ps: seq<Place>)
    ensures |ps| == n && forall k :: 0 <= k < n ==> ps[k] == Nowhere
  {
    seq(n, k => Nowhere)
  }

  /** All these tokens are printed in the list `dest`. */
  predicate AllIn(ps: seq<Place>, dest: Dest) {
    forall k :: 0 <= k < |ps| ==> ps[k].In? && ps[k].dest == dest
  }

  predicate NoVariable(ps: seq<Place>) {
    forall k :: 0 <= k < |ps| ==> ps[k].In? && !ps[k].dest.Var?
  }

  // Function bodies

  function StepSort(t: seq<Token>, p: nat): Sort
    requires p < |t|
  {
    if IsBodyLine(t[p]) then Line
    else if IsComment(t, p) then Remark
    else if IsBrace(t, p) then Brace
    else if t[p].kind == Label then Tag
    else if Is(t, p, '@') then Guard
    else Instruction
  }

  /** A '.file' line goes to the declarations, all else stays in the function. */
  function StepDest(t: seq<Token>, p: nat): Dest
    requires p < |t|
  {
    if IsBodyLine(t[p]) && Word(t[p], "file") then Decls else Fns
  }

  function StepPlaces(t: seq<Token>, p: nat): (ps: seq<Place>)
    requires Terminated(t) && p < |t| && NextStep(t, p).Some?
    ensures |ps| == NextStep(t, p).value - p && NoVariable(ps)
  {
    StepIn(t, p);
    var q := StepStop(t, p).value;
    Stretch(t, StepDest(t, p), StepSort(t, p), p, q) + Stretch(t, Fns, Remark, q, NextStep(t, p).value)
  }

  function BodyPlaces(t: seq<Token>, p: nat, depth: nat): (ps: seq<Place>)
    requires Terminated(t) && BodyStop(t, p, depth).Some?
    ensures |ps| == BodyStop(t, p, depth).value - p && NoVariable(ps)
    decreases |t| - p
  {
    if Deeper(t, p, depth) == 0 then StepPlaces(t, p)
    else StepPlaces(t, p) + BodyPlaces(t, NextStep(t, p).value, Deeper(t, p, depth))
  }

  // Initialisers

  /** A value up to its separator, and a comment that trails it. */
  function TailPlaces(t: seq<Token>, start: nat, q: nat, name: string): (ps: seq<Place>)
    requires start <= q < |t| && Trailed(t, q + 1) <= |t|
    ensures |ps| == Trailed(t, q + 1) - start && AllIn(ps, Var(name))
  {
    Stretch(t, Var(name), Value, start, q + 1) + Stretch(t, Var(name), Remark, q + 1, Trailed(t, q + 1))
  }

  /** A value, after the comments before it. */
  function ValuePlaces(t: seq<Token>, p: nat, name: string): (ps: seq<Place>)
    requires Terminated(t) && ValueStop(t, p).Some?
    ensures |ps| == Trailed(t, ValueStop(t, p).value + 1) - p && AllIn(ps, Var(name))
  {
    ValueIn(t, p);
    var start := CommentStop(t, p);
    Stretch(t, Var(name), Remark, p, start) + TailPlaces(t, start, ValueStop(t, p).value, name)
  }

  function InitPlaces(t: seq<Token>, p: nat, name: string): (ps: seq<Place>)
    requires Terminated(t) && InitStop(t, p).Some?
    ensures |ps| == InitStop(t, p).value - p && AllIn(ps, Var(name))
    decreases |t| - p
  {
    ValueIn(t, p);
    var q := ValueStop(t, p).value;
    if Is(t, q, ';') then ValuePlaces(t, p, name)
    else ValuePlaces(t, p, name) + InitPlaces(t, Trailed(t, q + 1), name)
  }

  /** A variable depends on the last name of a value. */
  function ValueNotes(t: seq<Token>, start: nat, q: nat, name: string): seq<Event> {
    var dep := LastName(t, start, q);
    if dep.Some? then [Depend(name, t[dep.value].text)] else []
  }

  function InitNotes(t: seq<Token>, p: nat, name: string): seq<Event>
    requires InitStop(t, p).Some?
    decreases |t| - p
  {
    var q := ValueStop(t, p).value;
    ValueNotes(t, CommentStop(t, p), q, name) + if Is(t, q, ';') then [] else InitNotes(t, Trailed(t, q + 1), name)
  }

  // Items

  /** A header, after the comments before it. */
  function HeadPlaces(t: seq<Token>, dest: Dest, closed: bool, p: nat, q: nat, hi: nat): (ps: seq<Place>)
    requires p <= q <= hi <= |t|
    ensures |ps| == hi - p && AllIn(ps, dest)
  {
    Stretch(t, dest, Remark, p, q) + Stretch(t, dest, Head(closed), q, hi)
  }

  /** The name of a variable is the last in its header. */
  function NameOf(t: seq<Token>, q: nat, e: nat): string
    requires LastName(t, q, e).Some?
  {
    t[LastName(t, q, e).value].text
  }

  /** What a header that ends at `e` begins: a function, a variable, or a declaration. */
  function AfterHeaderPlaces(t: seq<Token>, p: nat, q: nat, e: nat): (ps: seq<Place>)
    requires Terminated(t) && p <= q <= e < |t| && AfterHeaderAt(t, q, e).To?
    ensures p + |ps| == AfterHeaderAt(t, q, e).end
  {
    if t[e].kind == Eof then Stretch(t, Fns, Remark, p, q) + Nowheres(e - q)
    else if Is(t, e, '{') || IsComment(t, e) then HeadPlaces(t, Fns, false, p, q, e) + BodyPlaces(t, e, 0)
    else if !IsVariable(t, q, e) then HeadPlaces(t, Decls, true, p, q, e + 1)
    else if Is(t, e, '=') then
      HeadPlaces(t, Var(NameOf(t, q, e)), true, p, q, e + 1) + InitPlaces(t, e + 1, NameOf(t, q, e))
    else HeadPlaces(t, Var(NameOf(t, q, e)), true, p, q, e + 1)
  }

  /** The places of an item's tokens. */
  function ItemPlaces(t: seq<Token>, p: nat): (ps: seq<Place>)
    requires Terminated(t) && p < |t| && t[p].kind != Eof && ItemAt(t, p).To?
    ensures p + |ps| == ItemAt(t, p).end
  {
    ItemMoves(t, p);
    var q, end := PlainStop(t, p), ItemAt(t, p).end;
    if IsLine(t, q) then
      Stretch(t, Decls, Remark, p, q) + Stretch(t, Decls, if IsMap(t[q]) then MapLine else Line, q, end)
    else if IsHeader(t, q) then AfterHeaderPlaces(t, p, q, HeaderStop(t, q))
    else Stretch(t, Fns, Remark, p, q) + Nowheres(end - q)
  }

  /** The item defines a variable. */
  predicate DefinesVariable(t: seq<Token>, p: nat)
    requires Terminated(t) && p < |t|
  {
    var q := PlainStop(t, p);
    IsHeader(t, q) && var e := HeaderStop(t, q); (Is(t, e, '=') || Is(t, e, ';')) && IsVariable(t, q, e)
  }

  /** Such a variable has a name, and an initialiser that ends. */
  lemma VariableHere(t: seq<Token>, p: nat)
    requires Terminated(t) && p < |t| && ItemAt(t, p).To? && DefinesVariable(t, p)
    ensures var q := PlainStop(t, p);
            var e := HeaderStop(t, q);
            q < |t| && LastName(t, q, e).Some? && (Is(t, e, '=') ==> InitStop(t, e + 1).Some?)
  {
    hide IsVariable, LastName, InitStop, BodyStop, IsLine;
  }

  /** A variable is looked up by its name, and then what it depends on. */
  function VariableNotes(t: seq<Token>, q: nat, e: nat): seq<Event> {
    if LastName(t, q, e).None? then []
    else
      var name := NameOf(t, q, e);
      [Touch(name)] + if Is(t, e, '=') && InitStop(t, e + 1).Some? then InitNotes(t, e + 1, name) else []
  }

  function ItemNotes(t: seq<Token>, p: nat): seq<Event>
    requires Terminated(t) && p < |t|
  {
    var q := PlainStop(t, p);
    if DefinesVariable(t, p) then VariableNotes(t, q, HeaderStop(t, q)) else []
  }

  // Whole files

  /** The places of all tokens from `p` on, but the terminator. */
  function FilePlaces(t: seq<Token>, p: nat): (ps: seq<Place>)
    requires Terminated(t) && p < |t| && FileReach(t, p).To?
    ensures p + |ps| == |t| - 1
    decreases |t| - p
  {
    if t[p].kind == Eof then []
    else
      ItemMoves(t, p);
      ItemPlaces(t, p) + FilePlaces(t, ItemAt(t, p).end)
  }

  /** Which variables are defined, and what each depends on, in order. */
  function FileNotes(t: seq<Token>, p: nat): (ns: seq<Event>)
    requires Terminated(t) && p < |t| && FileReach(t, p).To?
    decreases |t| - p
  {
    if t[p].kind == Eof then []
    else
      ItemMoves(t, p);
      ItemNotes(t, p) + FileNotes(t, ItemAt(t, p).end)
  }

  /** The tokens lost have no place. */
  lemma {:induction false} LostNowhere(t: seq<Token>, p: nat, i: nat)
    requires Terminated(t) && p < |t| && FileReach(t, p).To? && p <= i < |t| - 1
    ensures Lost(t, p, i) <==> FilePlaces(t, p)[i - p] == Nowhere
    decreases |t| - p
  {
    hide ItemAt, ItemPlaces, Strange, PlainStop;
    LastIsEof(t, i);
    if t[p].kind != Eof {
      ItemMoves(t, p);
      var e := ItemAt(t, p).end;
      ItemLost(t, p);
      if i >= e {
        LostNowhere(t, e, i);
      } else {
        LostLater(t, e, i);
      }
    }
  }

  lemma {:induction false} LostLater(t: seq<Token>, p: nat, i: nat)
    requires Terminated(t) && i < p < |t|
    ensures !Lost(t, p, i)
    decreases |t| - p
  {
    hide ItemAt, Strange;
    if t[p].kind != Eof && ItemAt(t, p).To? {
      ItemMoves(t, p);
      LostLater(t, ItemAt(t, p).end, i);
    }
  }

  /** Just the strange tokens of an item have no place. */
  lemma ItemLost(t: seq<Token>, p: nat)
    requires Terminated(t) && p < |t| && t[p].kind != Eof && ItemAt(t, p).To?
    ensures forall k :: 0 <= k < |ItemPlaces(t, p)| ==>
      (ItemPlaces(t, p)[k] == Nowhere <==> Strange(t, p) && PlainStop(t, p) <= p + k)
  {
    hide BodyPlaces, InitPlaces, Word, IsVariable, AfterHeaderAt, AfterHeaderPlaces, LineStop, Spaced, Closes;
    ItemMoves(t, p);
    var q := PlainStop(t, p);
    if IsHeader(t, q) { HeaderLost(t, p, q, HeaderStop(t, q)); }
  }

  lemma HeaderLost(t: seq<Token>, p: nat, q: nat, e: nat)
    requires Terminated(t) && p <= q <= e < |t| && AfterHeaderAt(t, q, e).To?
    ensures var ps := AfterHeaderPlaces(t, p, q, e);
            forall k :: 0 <= k < |ps| ==> (ps[k] == Nowhere <==> t[e].kind == Eof && q <= p + k)
  {
    hide BodyPlaces, InitPlaces, IsVariable, HeadPlaces, Spaced, Closes;
  }

  /** Comments stand only between statements: just the comments stand behind slashes. */
  predicate PlainItems(t: seq<Token>)
    requires Terminated(t)
  {
    FileReach(t, 0).To? ==>
      forall i :: 0 <= i < |t| - 1 ==>
        FilePlaces(t, 0)[i].In? ==> (FilePlaces(t, 0)[i].slashes <==> t[i].kind == Comment)
  }
}
