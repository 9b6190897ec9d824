/** The extra part nvptx-ld writes for global constructors and destructors. */
module GlobalCtors {
  import opened Common

  /** Decimal digits, as printed by `%d` and `%zu`. */
  function Decimal(n: nat): string {
    if n < 10 then [Digit(n)] else Decimal(n / 10) + [Digit(n % 10)]
  }

  function Digit(d: nat): char
    requires d < 10
  {
    ('0' as int + d) as char
  }

  predicate IsSpace(c: char) {
    c == ' ' || ('\t' <= c <= '\r')
  }

  /** The digits `s` starts with: their value on top of `acc`, and their number. */
  function ScanDigits(s: string, acc: nat): (nat, nat) {
    if s == "" || !IsDigit(s[0]) then (acc, 0)
    else
      var (v, n) := ScanDigits(s[1..], 10 * acc + (s[0] as int - '0' as int));
      (v, n + 1)
  }

  function CountSpaces(s: string): nat {
    if s == "" || !IsSpace(s[0]) then 0 else 1 + CountSpaces(s[1..])
  }

  /** C's `strtol (s, &end, 10)` away from overflow: the value and `end - s`. */
  function Strtol(s: string): (int, nat) {
    var a := CountSpaces(s);
    if a > |s| then (0, 0)
    else
      var t := s[a..];
      var signed := t != "" && (t[0] == '-' || t[0] == '+');
      var (v, n) := ScanDigits(if signed then t[1..] else t, 0);
      if n == 0 then (0, 0)
      else (if signed && t[0] == '-' then 0 - v else v, a + n + (if signed then 1 else 0))
  }

  /** `sequence` counts the constructors, or destructors, in order of appearance. */
  datatype Cdtor = Cdtor(name: string, sequence: nat, priority: int)

  /** The priority in `_GLOBAL__I_00500_0_c1`, or -1. */
  function Priority(name: string): int {
    if |name| < 11 then -1
    else
      var (v, end) := Strtol(name[11..]);
      if end == 5 then v else -1
  }

  function Cdtors(names: seq<string>, prefix: string): (cs: seq<Cdtor>)
  {
    if names == [] then []
    else
      var n := |names| - 1;
      var cs := Cdtors(names[..n], prefix);
      if prefix <= names[n] then cs + [Cdtor(names[n], |cs|, Priority(names[n]))] else cs
  }

  /** Whether `a` is to come before `b` in a list. */
  predicate Precedes(a: Cdtor, b: Cdtor) {
    !(a.priority < b.priority) && !(a.priority == b.priority && a.sequence < b.sequence)
  }

  function Insert(c: Cdtor, cs: seq<Cdtor>): seq<Cdtor> {
    if cs == [] || Precedes(c, cs[0]) then [c] + cs else [cs[0]] + Insert(c, cs[1..])
  }

  function SortCdtors(cs: seq<Cdtor>): seq<Cdtor> {
    if cs == [] then [] else Insert(cs[0], SortCdtors(cs[1..]))
  }

  function ExternLine(c: Cdtor): string {
    ".extern .func " + c.name + ";"
  }

  function ExternLines(cs: seq<Cdtor>): seq<string> {
    if cs == [] then [] else ExternLines(cs[..|cs| - 1]) + [ExternLine(cs[|cs| - 1])]
  }

  function EntryLine(c: Cdtor): seq<string> {
    ["  // priority: " + SignedDecimal(c.priority) + ", sequence: " + Decimal(c.sequence),
     "  " + c.name + ","]
  }

  function EntryLines(cs: seq<Cdtor>): seq<string> {
    if cs == [] then [] else EntryLines(cs[..|cs| - 1]) + EntryLine(cs[|cs| - 1])
  }

  function SignedDecimal(i: int): string {
    if i < 0 then "-" + Decimal(0 - i) else Decimal(i)
  }

  function ListTitle(title: string): seq<string> {
    ["", title, ""]
  }

  function ListHead(list: string, n: nat): seq<string> {
    ["", ".visible .global .u64 " + list + "[] = {", "  " + Decimal(n) + ","]
  }

  const LIST_END := ["  0", "};"]

  /** The lines for one list. */
  function ListLines(title: string, list: string, cs: seq<Cdtor>): seq<string> {
    ListTitle(title) + ExternLines(cs) + (ListHead(list, |cs|) + EntryLines(SortCdtors(cs)) + LIST_END)
  }

  const PREAMBLE := [".version 3.1", ".target sm_30", ".address_size 64"]

  /** The text of a comment, in pieces. */
  function DummyComment(i: nat): string {
    match i
    case 0 => "/* For example with old Nvidia Tesla "
    case 1 => "K20c, Driver Version: 361.93.02, the"
    case 2 => "   function pointers stored in the "
    case 3 => "'__CTOR_LIST__', '__DTOR_LIST__' arrays"
    case 4 => "   evidently evaluate to NULL in JIT "
    case 5 => "compilation.  Defining a dummy function"
    case 6 => "   next to the arrays apparently "
    case _ => "does work around this issue...  */"
  }

  const DUMMY := [
    "",
    DummyComment(0) + DummyComment(1),
    DummyComment(2) + DummyComment(3),
    DummyComment(4) + DummyComment(5),
    DummyComment(6) + DummyComment(7),
    "",
    ".func dummy",
    "{",
    "  ret;",
    "}"]

  const CTOR_PREFIX := "_GLOBAL__I_"
  const DTOR_PREFIX := "_GLOBAL__D_"

  predicate Expected(names: seq<string>) {
    forall i :: 0 <= i < |names| ==> CTOR_PREFIX <= names[i] || DTOR_PREFIX <= names[i]
  }

  predicate ValidPriorities(cs: seq<Cdtor>) {
    forall i :: 0 <= i < |cs| ==> cs[i].priority >= 0
  }

  /** The lines of the part, when every name and priority is as expected. */
  function PartLines(names: seq<string>): seq<string> {
    PREAMBLE
    + ListLines("// Constructors.", "__CTOR_LIST__", Cdtors(names, CTOR_PREFIX))
    + ListLines("// Destructors.", "__DTOR_LIST__", Cdtors(names, DTOR_PREFIX))
    + DUMMY
  }

  function Ended(l: string): string {
    l + "\n"
  }

  /** Each line with a line feed after it. */
  function JoinLines(ls: seq<string>): string {
    if ls == [] then "" else JoinLines(ls[..|ls| - 1]) + Ended(ls[|ls| - 1])
  }

  lemma {:induction false} JoinAppend(a: seq<string>, b: seq<string>)
    ensures JoinLines(a + b) == JoinLines(a) + JoinLines(b)
  {
    hide JoinLines, Ended;
    AppendInit(a, b);
    JoinStep(b);
    if b != [] {
      JoinStep(a + b);
      JoinAppend(a, b[..|b| - 1]);
      AppendAssociates(JoinLines(a), JoinLines(b[..|b| - 1]), Ended(b[|b| - 1]));
    }
  }

  lemma {:induction false} JoinStep(ls: seq<string>)
    ensures JoinLines(ls) == if ls == [] then "" else JoinLines(ls[..|ls| - 1]) + Ended(ls[|ls| - 1])
  {
  }

  /** Reading back a printed number. */
  lemma {:induction false} DecimalRoundTrip(n: nat, s: string)
    ensures ScanDigits(Decimal(n) + s, 0).0 == ScanDigits(s, n).0
    ensures ScanDigits(Decimal(n) + s, 0).1 == |Decimal(n)| + ScanDigits(s, n).1
  {
    var t := [Digit(n % 10)] + s;
    assert t[1..] == s;
    if n < 10 {
      assert Decimal(n) + s == t;
    } else {
      DecimalRoundTrip(n / 10, t);
      assert Decimal(n) + s == Decimal(n / 10) + t;
    }
  }

  // The order in a list

  /** Highest priority first, and among equals the latest first. */
  predicate NotAfter(a: Cdtor, b: Cdtor) {
    a.priority > b.priority || (a.priority == b.priority && a.sequence >= b.sequence)
  }

  predicate InOrder(cs: seq<Cdtor>) {
    forall i, j :: 0 <= i < j < |cs| ==> NotAfter(cs[i], cs[j])
  }

  lemma {:induction false} InsertElements(c: Cdtor, cs: seq<Cdtor>)
    ensures multiset(Insert(c, cs)) == multiset(cs) + multiset{c}
    ensures forall x :: x in Insert(c, cs) ==> x == c || x in cs
  {
    if cs != [] {
      assert cs == [cs[0]] + cs[1..];
      InsertElements(c, cs[1..]);
    }
  }

  lemma {:induction false} InsertInOrder(c: Cdtor, cs: seq<Cdtor>)
    requires InOrder(cs)
    ensures InOrder(Insert(c, cs))
  {
    if cs != [] {
      var r := Insert(c, cs[1..]);
      InsertInOrder(c, cs[1..]);
      InsertElements(c, cs[1..]);
      if Precedes(c, cs[0]) {
        HeadFirst(c, cs);
      } else {
        forall j | 0 <= j < |r| ensures NotAfter(cs[0], r[j]) {
          assert r[j] in r;
        }
        HeadFirst(cs[0], r);
      }
    }
  }

  lemma HeadFirst(c: Cdtor, cs: seq<Cdtor>)
    requires InOrder(cs) && (cs != [] ==> NotAfter(c, cs[0]))
    ensures InOrder([c] + cs)
  {
  }

  /** A list holds the functions found, in order. */
  lemma {:induction false} SortCdtorsInOrder(cs: seq<Cdtor>)
    ensures InOrder(SortCdtors(cs)) && multiset(SortCdtors(cs)) == multiset(cs)
  {
    if cs != [] {
      SortCdtorsInOrder(cs[1..]);
      InsertInOrder(cs[0], SortCdtors(cs[1..]));
      InsertElements(cs[0], SortCdtors(cs[1..]));
      assert cs == [cs[0]] + cs[1..];
    }
  }

  predicate InSequence(cs: seq<Cdtor>) {
    forall i :: 0 <= i < |cs| ==> cs[i].sequence == i
  }

  /** The functions are numbered in order of appearance. */
  lemma {:induction false} Numbered(names: seq<string>, prefix: string)
    ensures InSequence(Cdtors(names, prefix))
  {
    if names != [] { Numbered(names[..|names| - 1], prefix); }
  }

  /** No two of the functions have the same number. */
  predicate NumbersDiffer(cs: seq<Cdtor>) {
    forall a, b :: a in cs && b in cs && a.sequence == b.sequence ==> a == b
  }

  /** Then only one order of them is possible. */
  lemma {:induction false} OrderUnique(s: seq<Cdtor>, t: seq<Cdtor>)
    requires InOrder(s) && InOrder(t) && multiset(s) == multiset(t) && NumbersDiffer(s)
    ensures s == t
  {
    hide InOrder, NumbersDiffer;
    assert |multiset(s)| == |s| && |multiset(t)| == |t|;
    if s != [] {
      SameHead(s, t);
      TailOf(s);
      TailOf(t);
      OrderUnique(s[1..], t[1..]);
      assert s == [s[0]] + s[1..] && t == [t[0]] + t[1..];
    }
  }

  lemma TailOf(s: seq<Cdtor>)
    requires InOrder(s) && s != []
    ensures InOrder(s[1..]) && multiset(s[1..]) == multiset(s) - multiset{s[0]}
    ensures NumbersDiffer(s) ==> NumbersDiffer(s[1..])
  {
    assert s == [s[0]] + s[1..];
  }

  lemma SameHead(s: seq<Cdtor>, t: seq<Cdtor>)
    requires InOrder(s) && InOrder(t) && multiset(s) == multiset(t) && NumbersDiffer(s) && s != [] && t != []
    ensures s[0] == t[0]
  {
    assert s[0] in multiset(t) && t[0] in multiset(s);
    var i :| 0 <= i < |t| && t[i] == s[0];
    var j :| 0 <= j < |s| && s[j] == t[0];
    if i > 0 && j > 0 {
      assert NotAfter(s[0], s[j]) && NotAfter(t[0], t[i]);
      assert s[0] in s && s[j] in s;
    }
  }

  /** Any way to sort the functions of a file by the comparison gives this list: a
      permutation of them in which none precedes an earlier one. */
  lemma SortingIsUnique(names: seq<string>, prefix: string, s: seq<Cdtor>)
    requires multiset(s) == multiset(Cdtors(names, prefix))
    requires forall i, j :: 0 <= i < j < |s| ==> !Precedes(s[j], s[i])
    ensures s == SortCdtors(Cdtors(names, prefix))
  {
    hide SortCdtors, Cdtors;
    var cs := Cdtors(names, prefix);
    Numbered(names, prefix);
    SortCdtorsInOrder(cs);
    forall a, b | a in s && b in s && a.sequence == b.sequence ensures a == b {
      assert a in multiset(cs) && b in multiset(cs);
    }
    forall i, j | 0 <= i < j < |s| ensures NotAfter(s[i], s[j]) {
      assert !Precedes(s[j], s[i]);
    }
    OrderUnique(s, SortCdtors(cs));
  }

  // The functions, collected and written out

  /** Sorts the names into constructors and destructors; false is the error
      "unexpected special-purpose function name". */
  method CollectCdtors(names: seq<string>) returns (ok: bool, ctors: seq<Cdtor>, dtors: seq<Cdtor>)
    ensures ok <==> Expected(names)
    ensures ok ==> ctors == Cdtors(names, CTOR_PREFIX) && dtors == Cdtors(names, DTOR_PREFIX)
  {
    hide Priority;
    ctors, dtors := [], [];
    var i := 0;
    while i < |names|
      invariant 0 <= i <= |names| && Expected(names[..i])
      invariant ctors == Cdtors(names[..i], CTOR_PREFIX) && dtors == Cdtors(names[..i], DTOR_PREFIX)
    {
      var name := names[i];
      assert names[..i + 1][..i] == names[..i] && names[..i + 1][i] == name;
      assert !(CTOR_PREFIX <= name && DTOR_PREFIX <= name) by {
        assert CTOR_PREFIX <= name ==> name[9] == 'I';
      }
      if CTOR_PREFIX <= name {
        ctors := ctors + [Cdtor(name, |ctors|, Priority(name))];
      } else if DTOR_PREFIX <= name {
        dtors := dtors + [Cdtor(name, |dtors|, Priority(name))];
      } else {
        return false, [], [];
      }
      i := i + 1;
    }
    assert names[..i] == names;
    ok := true;
  }

  /** Writes one list; false is the error "unable to extract priority". */
  method WriteList(title: string, list: string, cs: seq<Cdtor>, output: string) returns (ok: bool, output': string)
    ensures ok <==> ValidPriorities(cs)
    ensures ok ==> output' == output + JoinLines(ListLines(title, list, cs))
  {
    hide JoinLines, ExternLines, EntryLines, SortCdtors, ListHead, ListTitle;
    output' := output + JoinLines(ListTitle(title));
    var i := 0;
    ExternNext(cs, 0);
    assert ListTitle(title) + [] == ListTitle(title);
    while i < |cs|
      invariant 0 <= i <= |cs| && ValidPriorities(cs[..i])
      invariant output' == output + JoinLines(ListTitle(title) + ExternLines(cs[..i]))
    {
      if cs[i].priority < 0 {
        return false, output';
      }
      output' := output' + JoinLines([ExternLine(cs[i])]);
      NextLines(output, ListTitle(title) + ExternLines(cs[..i]), [ExternLine(cs[i])]);
      ExternNext(cs, i);
      AppendAssociates(ListTitle(title), ExternLines(cs[..i]), [ExternLine(cs[i])]);
      i := i + 1;
    }
    assert cs[..i] == cs;
    var before := ListTitle(title) + ExternLines(cs);
    var sorted := SortCdtors(cs);
    var head := ListHead(list, |cs|);
    output' := WriteEntries(sorted, output' + JoinLines(head));
    output' := output' + JoinLines(LIST_END);
    NextLines(output, before, head);
    NextLines(output, before + head, EntryLines(sorted));
    NextLines(output, before + head + EntryLines(sorted), LIST_END);
    AppendAssociates(before + head, EntryLines(sorted), LIST_END);
    AppendAssociates(before, head, EntryLines(sorted) + LIST_END);
    AppendAssociates(head, EntryLines(sorted), LIST_END);
    ok := true;
  }

  lemma {:induction false} ExternNext(cs: seq<Cdtor>, i: nat)
    requires i <= |cs|
    ensures ExternLines(cs[..0]) == []
    ensures i < |cs| ==> ExternLines(cs[..i + 1]) == ExternLines(cs[..i]) + [ExternLine(cs[i])]
  {
    hide ExternLine;
    if i < |cs| { assert cs[..i + 1][..i] == cs[..i]; }
  }

  method WriteEntries(cs: seq<Cdtor>, output: string) returns (output': string)
    ensures output' == output + JoinLines(EntryLines(cs))
  {
    hide JoinLines;
    output' := output;
    var i := 0;
    NextLines(output, [], []);
    while i < |cs|
      invariant 0 <= i <= |cs|
      invariant output' == output + JoinLines(EntryLines(cs[..i]))
    {
      output' := output' + JoinLines(EntryLine(cs[i]));
      NextLines(output, EntryLines(cs[..i]), EntryLine(cs[i]));
      assert cs[..i + 1][..i] == cs[..i];
      i := i + 1;
    }
    assert cs[..i] == cs;
  }

  lemma NextLines(output: string, a: seq<string>, b: seq<string>)
    ensures output + JoinLines(a) + JoinLines(b) == output + JoinLines(a + b)
    ensures output + JoinLines([]) == output
  {
    JoinAppend(a, b);
  }
}
