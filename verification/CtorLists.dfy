/** The text between the two runs of nvptx-ld, line by line: what it says of the names of
    the special-purpose functions. */
module CtorLists {
  import opened Common
  import opened GlobalCtors

  predicate Ascending(s: seq<nat>) {
    forall a, b :: 0 <= a < b < |s| ==> s[a] < s[b]
  }

  /** These are the positions of the names that begin with `prefix`. */
  ghost predicate Positions(names: seq<string>, prefix: string, ps: seq<nat>) {
    forall i: nat :: i in ps <==> i < |names| && prefix <= names[i]
  }

  /** Highest priority first, and among equals the latest first. */
  predicate Descending(names: seq<string>, order: seq<nat>)
    requires forall k :: 0 <= k < |order| ==> order[k] < |names|
  {
    forall a, b :: 0 <= a < b < |order| ==>
      var p, q := Priority(names[order[a]]), Priority(names[order[b]]);
      p > q || (p == q && order[a] > order[b])
  }

  /** Every function is declared, in order of appearance `found`. */
  predicate Declarations(lines: seq<string>, names: seq<string>, found: seq<nat>) {
    && |lines| == |found|
    && forall k :: 0 <= k < |found| && found[k] < |names| ==> lines[k] == ".extern .func " + names[found[k]] + ";"
  }

  /** Two lines for every function, in the order `order` of the list; its sequence number
      is its place among those found. */
  predicate Entries(lines: seq<string>, names: seq<string>, found: seq<nat>, order: seq<nat>) {
    |lines| == 2 * |order| && forall k :: 0 <= k < |order| ==> EntryHolds(lines, names, found, order, k)
  }

  predicate EntryHolds(lines: seq<string>, names: seq<string>, found: seq<nat>, order: seq<nat>, k: nat)
    requires k < |order| && |lines| == 2 * |order|
  {
    && (order[k] < |names| ==> lines[2 * k + 1] == "  " + names[order[k]] + ",")
    && forall n :: 0 <= n < |found| && found[n] == order[k] && order[k] < |names| ==>
      lines[2 * k] == "  // priority: " + SignedDecimal(Priority(names[order[k]])) + ", sequence: " + Decimal(n)
  }

  /** The lines of the list `list` of the functions whose names begin with `prefix`. */
  ghost predicate ListOf(lines: seq<string>, title: string, list: string, names: seq<string>, prefix: string) {
    exists found, order, declarations, entries ::
      && Positions(names, prefix, found) && Ascending(found)
      && Positions(names, prefix, order) && |order| == |found|
      && (forall k :: 0 <= k < |order| ==> order[k] < |names|) && Descending(names, order)
      && Declarations(declarations, names, found) && Entries(entries, names, found, order)
      && lines ==
        ["", title, ""] + declarations
        + (["", ".visible .global .u64 " + list + "[] = {", "  " + Decimal(|order|) + ","] + entries + ["  0", "};"])
  }

  // The functions found

  function Found(names: seq<string>, prefix: string): (ps: seq<nat>)
    ensures forall k :: 0 <= k < |ps| ==> ps[k] < |names| && prefix <= names[ps[k]]
  {
    if names == [] then []
    else
      var n := |names| - 1;
      Found(names[..n], prefix) + if prefix <= names[n] then [n] else []
  }

  lemma {:induction false} FoundAt(names: seq<string>, prefix: string, i: nat)
    ensures i in Found(names, prefix) <==> i < |names| && prefix <= names[i]
  {
    if names != [] {
      var n := |names| - 1;
      FoundAt(names[..n], prefix, i);
      assert i < n ==> names[..n][i] == names[i];
    }
  }

  lemma {:induction false} FoundAscends(names: seq<string>, prefix: string)
    ensures Ascending(Found(names, prefix))
  {
    if names != [] { FoundAscends(names[..|names| - 1], prefix); }
  }

  lemma FoundIs(names: seq<string>, prefix: string)
    ensures Positions(names, prefix, Found(names, prefix)) && Ascending(Found(names, prefix))
  {
    hide Found, Ascending;
    FoundAscends(names, prefix);
    forall i: nat ensures i in Found(names, prefix) <==> i < |names| && prefix <= names[i] {
      FoundAt(names, prefix, i);
    }
  }

  lemma {:induction false} CdtorsAre(names: seq<string>, prefix: string)
    ensures var cs, ps := Cdtors(names, prefix), Found(names, prefix);
            |cs| == |ps| &&
            forall k :: 0 <= k < |cs| ==> cs[k] == Cdtor(names[ps[k]], k, Priority(names[ps[k]]))
  {
    hide Priority;
    if names != [] {
      var n := |names| - 1;
      CdtorsAre(names[..n], prefix);
      var ps := Found(names[..n], prefix);
      forall k | 0 <= k < |ps| ensures names[..n][ps[k]] == names[ps[k]] { }
    }
  }

  // The functions sorted

  lemma {:induction false} CountsOne(s: seq<Cdtor>, c: Cdtor)
    requires Distinct(s)
    ensures multiset(s)[c] <= 1
  {
    if s != [] {
      var n := |s| - 1;
      CountsOne(s[..n], c);
      assert s == s[..n] + [s[n]];
      assert s[n] !in s[..n];
    }
  }

  lemma StaysDistinct(s: seq<Cdtor>, t: seq<Cdtor>)
    requires Distinct(s) && multiset(s) == multiset(t)
    ensures Distinct(t)
  {
    forall i, j | 0 <= i < j < |t| ensures t[i] != t[j] {
      CountsOne(s, t[i]);
      assert t == t[..j] + [t[j]] + t[j + 1..];
      assert t[..j][i] == t[i];
      assert multiset(t) == multiset(t[..j]) + multiset{t[j]} + multiset(t[j + 1..]);
    }
  }

  lemma SortedAre(cs: seq<Cdtor>)
    requires InSequence(cs)
    ensures var s := SortCdtors(cs);
            && |s| == |cs| && InOrder(s) && Distinct(s)
            && (forall k :: 0 <= k < |s| ==> s[k].sequence < |cs| && s[k] == cs[s[k].sequence])
            && (forall n :: 0 <= n < |cs| ==> cs[n] in s)
  {
    SortCdtorsInOrder(cs);
    hide SortCdtors, InOrder;
    var s := SortCdtors(cs);
    assert |multiset(s)| == |s| && |multiset(cs)| == |cs|;
    forall k | 0 <= k < |s| ensures s[k].sequence < |cs| && s[k] == cs[s[k].sequence] {
      assert s[k] in multiset(cs);
      var n :| 0 <= n < |cs| && cs[n] == s[k];
    }
    forall n | 0 <= n < |cs| ensures cs[n] in s {
      assert cs[n] in multiset(s);
    }
    StaysDistinct(cs, s);
  }

  /** The positions of sorted functions. */
  function OrderOf(s: seq<Cdtor>, found: seq<nat>): (order: seq<nat>)
    requires forall k :: 0 <= k < |s| ==> s[k].sequence < |found|
    ensures |order| == |s| && forall k :: 0 <= k < |s| ==> order[k] == found[s[k].sequence]
  {
    seq(|s|, k requires 0 <= k < |s| => found[s[k].sequence])
  }

  lemma OrderHolds(cs: seq<Cdtor>, s: seq<Cdtor>, found: seq<nat>, i: nat)
    requires |s| == |cs| == |found| && InSequence(cs) && forall n :: 0 <= n < |cs| ==> cs[n] in s
    requires forall k :: 0 <= k < |s| ==> s[k].sequence < |cs| && s[k] == cs[s[k].sequence]
    ensures i in OrderOf(s, found) <==> i in found
  {
    var order := OrderOf(s, found);
    if i in found {
      var n :| 0 <= n < |found| && found[n] == i;
      assert cs[n] in s;
      var k :| 0 <= k < |s| && s[k] == cs[n];
      assert order[k] == i;
    }
  }

  /** In the order of a list each function comes once, highest priority first. */
  lemma OrderDescends(names: seq<string>, s: seq<Cdtor>, found: seq<nat>)
    requires Ascending(found) && InOrder(s) && Distinct(s)
    requires forall k :: 0 <= k < |found| ==> found[k] < |names|
    requires forall k :: 0 <= k < |s| ==>
      s[k].sequence < |found| &&
      s[k] == Cdtor(names[found[s[k].sequence]], s[k].sequence, Priority(names[found[s[k].sequence]]))
    ensures Descending(names, OrderOf(s, found))
  {
    hide Priority;
    var order := OrderOf(s, found);
    forall a, b | 0 <= a < b < |order|
      ensures var p, q := Priority(names[order[a]]), Priority(names[order[b]]);
              p > q || (p == q && order[a] > order[b]) {
      assert NotAfter(s[a], s[b]) && s[a] != s[b];
    }
  }

  lemma OrderIs(names: seq<string>, prefix: string)
    ensures var cs, found := Cdtors(names, prefix), Found(names, prefix);
            var s := SortCdtors(cs);
            && |s| == |cs| == |found| && (forall k :: 0 <= k < |s| ==> s[k].sequence < |found|)
            && (forall k :: 0 <= k < |s| ==> s[k] == cs[s[k].sequence])
            && Positions(names, prefix, OrderOf(s, found)) && Descending(names, OrderOf(s, found))
  {
    hide Priority, SortCdtors, Cdtors, Found, InOrder, Descending, Distinct, OrderOf;
    var cs, found := Cdtors(names, prefix), Found(names, prefix);
    CdtorsAre(names, prefix);
    FoundIs(names, prefix);
    SortedAre(cs);
    var s := SortCdtors(cs);
    forall i: nat ensures i in OrderOf(s, found) <==> i in found { OrderHolds(cs, s, found, i); }
    OrderDescends(names, s, found);
  }

  // Priorities

  predicate AllSpaces(s: string) {
    forall k :: 0 <= k < |s| ==> s[k] in {' ', '\t', '\n', '\U{0B}', '\U{0C}', '\r'}
  }

  predicate AllDigits(s: string) {
    forall k :: 0 <= k < |s| ==> '0' <= s[k] <= '9'
  }

  predicate IsSign(s: string) {
    s == "" || s == "+" || s == "-"
  }

  /** The number that decimal digits stand for. */
  function Value(digits: string): nat
    requires AllDigits(digits)
  {
    if digits == "" then 0
    else 10 * Value(digits[..|digits| - 1]) + (digits[|digits| - 1] as int - '0' as int)
  }

  /** The five characters after the prefix are blanks, a sign or none, and digits, and no
      digit follows. */
  predicate Reads(name: string, blanks: string, sign: string, digits: string) {
    && |name| >= 16 && name[11..16] == blanks + sign + digits && (|name| > 16 ==> !('0' <= name[16] <= '9'))
    && AllSpaces(blanks) && IsSign(sign) && digits != "" && AllDigits(digits)
  }

  lemma {:induction false} SpacesRun(s: string)
    ensures var a := CountSpaces(s);
            a <= |s| && AllSpaces(s[..a]) && (a < |s| ==> !IsSpace(s[a]))
  {
    if s != "" && IsSpace(s[0]) {
      SpacesRun(s[1..]);
      assert forall k :: 0 < k < CountSpaces(s) ==> s[..CountSpaces(s)][k] == s[1..][..CountSpaces(s) - 1][k - 1];
    }
  }

  lemma {:induction false} SpacesCounted(blanks: string, rest: string)
    requires AllSpaces(blanks) && (rest != "" ==> !IsSpace(rest[0]))
    ensures CountSpaces(blanks + rest) == |blanks|
  {
    if blanks == "" {
      assert blanks + rest == rest;
    } else {
      assert (blanks + rest)[1..] == blanks[1..] + rest && blanks[0] in blanks;
      SpacesCounted(blanks[1..], rest);
    }
  }

  lemma {:induction false} DigitsRun(s: string, acc: nat)
    ensures var n := ScanDigits(s, acc).1;
            n <= |s| && AllDigits(s[..n]) && (n < |s| ==> !IsDigit(s[n]))
  {
    if s != "" && IsDigit(s[0]) {
      DigitsRun(s[1..], 10 * acc + (s[0] as int - '0' as int));
      var n := ScanDigits(s, acc).1;
      assert forall k :: 0 < k < n ==> s[..n][k] == s[1..][..n - 1][k - 1];
    }
  }

  /** Reading goes on from the first `k` digits. */
  lemma {:induction false} DigitsScanned(digits: string, k: nat, rest: string)
    requires AllDigits(digits) && k <= |digits| && (rest != "" ==> !IsDigit(rest[0]))
    ensures ScanDigits(digits[k..] + rest, Value(digits[..k])) == (Value(digits), |digits| - k)
    decreases |digits| - k
  {
    var s := digits[k..] + rest;
    if k == |digits| {
      assert s == rest && digits[..k] == digits;
    } else {
      assert s[1..] == digits[k + 1..] + rest && digits[..k + 1][..k] == digits[..k];
      DigitsScanned(digits, k + 1, rest);
    }
  }

  lemma StrtolIs(blanks: string, sign: string, u: string)
    requires CountSpaces(blanks + (sign + u)) == |blanks| && IsSign(sign)
    requires sign == "" && u != "" ==> u[0] != '+' && u[0] != '-'
    ensures Strtol(blanks + (sign + u)) ==
      var (v, n) := ScanDigits(u, 0);
      if n == 0 then (0, 0) else (if sign == "-" then 0 - v else v, |blanks| + |sign| + n)
  {
    hide ScanDigits, CountSpaces, Strtol, IsSign;
    var t := sign + u;
    var s := blanks + t;
    assert s[|blanks|..] == t;
    if sign == "" {
      assert t == u;
    } else {
      SignIs(sign);
      assert t[0] == sign[0] && t[1..] == u;
    }
    StrtolSplit(s, t);
  }

  lemma SignIs(sign: string)
    requires IsSign(sign) && sign != ""
    ensures |sign| == 1 && (sign[0] == '+' || sign[0] == '-') && (sign == "-" <==> sign[0] == '-')
  {
  }

  lemma OneSign(c: char)
    requires c == '+' || c == '-'
    ensures IsSign([c])
  {
  }

  lemma NoSign()
    ensures IsSign("")
  {
  }

  lemma StrtolSplit(s: string, t: string)
    requires CountSpaces(s) <= |s| && t == s[CountSpaces(s)..]
    ensures var b := if t != "" && (t[0] == '-' || t[0] == '+') then 1 else 0;
            var (v, n) := ScanDigits(t[b..], 0);
            Strtol(s) ==
              if n == 0 then (0, 0) else (if b == 1 && t[0] == '-' then 0 - v else v, CountSpaces(s) + n + b)
  {
    hide ScanDigits, CountSpaces;
    assert t[0..] == t;
  }

  /** The priority of such a name is the number read. */
  lemma PriorityIs(name: string, blanks: string, sign: string, digits: string)
    requires Reads(name, blanks, sign, digits)
    ensures Priority(name) == if sign == "-" then 0 - Value(digits) else Value(digits)
  {
    hide ScanDigits, CountSpaces, Value, Strtol;
    var rest := name[16..];
    var u := digits + rest;
    assert name[11..] == name[11..16] + rest == blanks + (sign + u);
    assert u[0] == digits[0];
    SpacesCounted(blanks, sign + u);
    DigitsScanned(digits, 0, rest);
    assert digits[0..] == digits && digits[..0] == "";
    NoValue();
    StrtolIs(blanks, sign, u);
    assert |name[11..16]| == 5;
  }

  lemma NoValue()
    ensures Value("") == 0
  {
  }

  /** Only such names have a priority, which is no less than 0. */
  lemma PriorityTells(name: string)
    ensures Priority(name) >= 0 <==>
      exists blanks, sign, digits :: Reads(name, blanks, sign, digits) && (sign == "-" ==> Value(digits) == 0)
  {
    hide Value;
    if blanks, sign, digits :| Reads(name, blanks, sign, digits) && (sign == "-" ==> Value(digits) == 0) {
      PriorityIs(name, blanks, sign, digits);
    }
    if Priority(name) >= 0 {
      var blanks, sign, digits := ReadFrom(name);
      PriorityIs(name, blanks, sign, digits);
    }
  }

  lemma ReadFrom(name: string) returns (blanks: string, sign: string, digits: string)
    requires Priority(name) >= 0
    ensures Reads(name, blanks, sign, digits)
  {
    hide ScanDigits, CountSpaces, Strtol, IsSign, AllSpaces;
    var s := name[11..];
    var u;
    blanks, sign, u := SplitNumber(s);
    StrtolIs(blanks, sign, u);
    var n := ScanDigits(u, 0).1;
    DigitsRun(u, 0);
    ReadNothing(s);
    digits := u[..n];
    assert s == blanks + sign + digits + u[n..];
    assert name[11..16] == s[..5] == blanks + sign + digits;
    assert |name| > 16 ==> name[16] == s[5] == u[n];
  }

  lemma ReadNothing(s: string)
    requires Strtol(s).1 == 5
    ensures |s| >= 5
  {
    SpacesRun(s);
    var t := s[CountSpaces(s)..];
    DigitsRun(t, 0);
    if t != "" { DigitsRun(t[1..], 0); }
  }

  /** A text as `strtol` takes it apart. */
  lemma SplitNumber(s: string) returns (blanks: string, sign: string, u: string)
    ensures s == blanks + (sign + u) && CountSpaces(s) == |blanks| && AllSpaces(blanks) && IsSign(sign)
    ensures sign == "" && u != "" ==> u[0] != '+' && u[0] != '-'
  {
    hide CountSpaces, AllSpaces, IsSign;
    SpacesRun(s);
    NoSign();
    var t := s[CountSpaces(s)..];
    blanks := s[..CountSpaces(s)];
    if t != "" && (t[0] == '-' || t[0] == '+') {
      sign, u := [t[0]], t[1..];
      OneSign(t[0]);
    } else {
      sign, u := "", t;
      assert t == "" + t;
    }
  }

  /** Whether the functions of a list all have a priority. */
  lemma ValidIs(names: seq<string>, prefix: string)
    ensures ValidPriorities(Cdtors(names, prefix)) <==>
      forall i :: 0 <= i < |names| && prefix <= names[i] ==> Priority(names[i]) >= 0
  {
    hide Priority, Cdtors, Found;
    CdtorsAre(names, prefix);
    FoundIs(names, prefix);
    var cs, ps := Cdtors(names, prefix), Found(names, prefix);
    if ValidPriorities(cs) {
      forall i: nat | i < |names| && prefix <= names[i] ensures Priority(names[i]) >= 0 {
        assert i in ps;
        var k :| 0 <= k < |ps| && ps[k] == i;
        assert cs[k].priority >= 0;
      }
    } else {
      var k :| 0 <= k < |cs| && cs[k].priority < 0;
      assert ps[k] in ps;
    }
  }

  // The lines

  lemma {:induction false} ExternsAre(cs: seq<Cdtor>)
    ensures |ExternLines(cs)| == |cs|
    ensures forall k :: 0 <= k < |cs| ==> ExternLines(cs)[k] == ".extern .func " + cs[k].name + ";"
  {
    if cs != [] { ExternsAre(cs[..|cs| - 1]); }
  }

  lemma {:induction false} EntriesAre(cs: seq<Cdtor>)
    ensures |EntryLines(cs)| == 2 * |cs|
    ensures forall k :: 0 <= k < |cs| ==>
      && EntryLines(cs)[2 * k + 1] == "  " + cs[k].name + ","
      && EntryLines(cs)[2 * k] ==
        "  // priority: " + SignedDecimal(cs[k].priority) + ", sequence: " + Decimal(cs[k].sequence)
  {
    hide SignedDecimal, Decimal;
    if cs != [] { EntriesAre(cs[..|cs| - 1]); }
  }

  /** What is written of one list is that list. */
  lemma ListLinesAre(title: string, list: string, names: seq<string>, prefix: string)
    ensures ListOf(ListLines(title, list, Cdtors(names, prefix)), title, list, names, prefix)
  {
    hide Priority, SortCdtors, Cdtors, Found, ExternLines, EntryLines, Decimal, SignedDecimal, Positions, Descending;
    var cs, found := Cdtors(names, prefix), Found(names, prefix);
    CdtorsAre(names, prefix);
    FoundIs(names, prefix);
    OrderIs(names, prefix);
    var s := SortCdtors(cs);
    var order := OrderOf(s, found);
    ExternsAre(cs);
    EntriesAre(s);
    EntriesOf(names, cs, s, found, order);
    var declarations, entries := ExternLines(cs), EntryLines(s);
    hide Entries, Ascending;
    assert Declarations(declarations, names, found);
    assert ListLines(title, list, cs) ==
      ["", title, ""] + declarations
      + (["", ".visible .global .u64 " + list + "[] = {", "  " + Decimal(|order|) + ","] + entries + ["  0", "};"]);
  }

  lemma EntriesOf(names: seq<string>, cs: seq<Cdtor>, s: seq<Cdtor>, found: seq<nat>, order: seq<nat>)
    requires |cs| == |found| == |s| == |order| && Ascending(found)
    requires forall k :: 0 <= k < |s| ==>
      s[k].sequence < |found| && s[k] == cs[s[k].sequence] && order[k] == found[s[k].sequence]
    requires forall k :: 0 <= k < |cs| ==>
      found[k] < |names| && cs[k] == Cdtor(names[found[k]], k, Priority(names[found[k]]))
    ensures Entries(EntryLines(s), names, found, order)
  {
    hide Priority, EntryLines, Decimal, SignedDecimal, EntryHolds;
    EntriesAre(s);
    var lines := EntryLines(s);
    forall k | 0 <= k < |s| ensures EntryHolds(lines, names, found, order, k) {
      EntryIs(lines, names, found, order, s[k], k);
    }
  }

  lemma EntryIs(lines: seq<string>, names: seq<string>, found: seq<nat>, order: seq<nat>, c: Cdtor, k: nat)
    requires k < |order| && |lines| == 2 * |order| && Ascending(found)
    requires c.sequence < |found| && order[k] == found[c.sequence] < |names|
    requires c == Cdtor(names[order[k]], c.sequence, Priority(names[order[k]]))
    requires lines[2 * k + 1] == "  " + c.name + ","
    requires lines[2 * k] == "  // priority: " + SignedDecimal(c.priority) + ", sequence: " + Decimal(c.sequence)
    ensures EntryHolds(lines, names, found, order, k)
  {
    hide Priority, Decimal, SignedDecimal;
    forall n | 0 <= n < |found| && found[n] == order[k] ensures n == c.sequence {
      SamePlace(found, n, c.sequence);
    }
  }

  lemma SamePlace(found: seq<nat>, n: nat, m: nat)
    requires Ascending(found) && n < |found| && m < |found| && found[n] == found[m]
    ensures n == m
  {
  }

  /** The lines of a whole part: both lists, each complete, declared and in order. */
  ghost predicate BothLists(lines: seq<string>, names: seq<string>) {
    exists ctors, dtors ::
      && ListOf(ctors, "// Constructors.", "__CTOR_LIST__", names, "_GLOBAL__I_")
      && ListOf(dtors, "// Destructors.", "__DTOR_LIST__", names, "_GLOBAL__D_")
      && lines == [".version 3.1", ".target sm_30", ".address_size 64"] + ctors + dtors + DUMMY
  }

  lemma PartHolds(names: seq<string>)
    ensures BothLists(PartLines(names), names)
  {
    hide ListLines, ListOf, Cdtors;
    ListLinesAre("// Constructors.", "__CTOR_LIST__", names, CTOR_PREFIX);
    ListLinesAre("// Destructors.", "__DTOR_LIST__", names, DTOR_PREFIX);
  }
}
