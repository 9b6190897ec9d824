/** nvptx-nm: the types of the symbols that marker lines name. */
module Nm {
  import opened Common
  import opened Markers
  import opened Framing

  const BEGIN := "// BEGIN "

  /** A marker line nvptx-nm reads, GLOBAL or not. */
  datatype Mark = Mark(global: bool, marker: Marker)

  /** Symbols and their types; a local table for each part. */
  type Types = map<string, char>

  /** What reading PTX code leads to: types, the errors "truncated marker line" and
      "non-GLOBAL ... is weak", or a failed assertion. */
  datatype Outcome = Listed(global: Types, local: Types) | Malformed | Aborted

  /** The type a marker gives its symbol. */
  function TypeOf(m: Mark): char {
    if !m.marker.isDef then (if m.marker.weak then 'w' else 'U')
    else if m.marker.isFunction then (if !m.global then 't' else if m.marker.weak then 'W' else 'T')
    else (if !m.global then 'd' else if m.marker.weak then 'V' else 'D')
  }

  predicate Undefined(t: char) {
    t == 'U' || t == 'w'
  }

  /** A type met when another was there before; None is the failed assertion that
      both are the same. */
  function Merged(was: char, met: char): Option<char> {
    if Undefined(was) then Some(met)
    else if Undefined(met) then Some(was)
    else if (met == 'V' && was == 'D') || (met == 'W' && was == 'T') then Some(was)
    else if (met == 'D' && was == 'V') || (met == 'T' && was == 'W') then Some(met)
    else if was == met then Some(was)
    else None
  }

  function AddType(ts: Types, x: string, met: char): Option<Types> {
    if x !in ts then Some(ts[x := met])
    else
      match Merged(ts[x], met)
      case None => None
      case Some(t) => Some(ts[x := t])
  }

  /** One marker; a weak one must be GLOBAL. */
  function AddMark(g: Types, l: Types, m: Mark): Outcome {
    if m.marker.weak && !m.global then Malformed
    else
      match AddType(if m.global then g else l, m.marker.name, TypeOf(m))
      case None => Aborted
      case Some(ts) => if m.global then Listed(ts, l) else Listed(g, ts)
  }

  /** The mark on line `l`, when line `next` follows; None if there is none. */
  function MarkOn(l: string, next: string): Option<Mark> {
    if !StartsAt(l, 0, BEGIN) then None
    else
      var global := StartsAt(l, 0, BEGIN_GLOBAL);
      match MarkerBody(l[if global then 16 else 9..])
      case Unknown => None
      case Known(d, f, name) => Some(Mark(global, Marker(d, f, StartsAt(next, 0, WEAK), name)))
  }

  /** All lines but the first, one after the other. */
  function ReadLines(ls: seq<string>, g: Types, l: Types): Outcome {
    if |ls| <= 1 then Listed(g, l)
    else if |ls| == 2 && StartsAt(ls[1], 0, BEGIN) then Malformed
    else if |ls| == 2 then Listed(g, l)
    else
      match MarkOn(ls[1], ls[2])
      case None => ReadLines(ls[1..], g, l)
      case Some(m) =>
        match AddMark(g, l, m)
        case Listed(g', l') => ReadLines(ls[1..], g', l')
        case bad => bad
  }

  function ReadText(s: string, g: Types, l: Types): Outcome {
    ReadLines(Lines(s), g, l)
  }

  /** What reading `s` after one more mark leads to. */
  function ReadAfter(o: Outcome, s: string): Outcome {
    match o
    case Listed(g, l) => ReadText(s, g, l)
    case bad => bad
  }

  // The scanner

  lemma FirstLineUnread(a: seq<string>, b: seq<string>, g: Types, l: Types)
    requires a != [] && b != [] && a[1..] == b[1..]
    ensures ReadLines(a, g, l) == ReadLines(b, g, l)
  {
    assert |a| == |b| && forall k :: 1 <= k < |a| ==> a[k] == a[1..][k - 1] == b[k];
  }

  lemma PassInLine(s: string, i: nat, j: nat, g: Types, l: Types)
    requires i <= j <= |s| && NoLf(s[i..j])
    ensures ReadText(s[i..], g, l) == ReadText(s[j..], g, l)
  {
    SkipInLine(s, i, j);
    FirstLineUnread(Lines(s[i..]), Lines(s[j..]), g, l);
  }

  /** A line feed that starts no marker is passed over. */
  lemma PassLf(s: string, i: nat, g: Types, l: Types)
    requires i < |s| && s[i] == '\n' && !StartsAt(s, i, "\n" + BEGIN)
    ensures ReadText(s[i..], g, l) == ReadText(s[i + 1..], g, l)
  {
    NextLine(s, i, BEGIN);
    hide StartsAt, MarkerBody, Lines;
    var ls := Lines(s[i + 1..]);
    assert Lines(s[i..])[1..] == ls;
  }

  /** The prefix that marks the line after the line feed at `i`. */
  function PrefixUsed(s: string, i: nat): string {
    if StartsAt(s, i, "\n" + BEGIN_GLOBAL) then BEGIN_GLOBAL else BEGIN
  }

  /** What the marker line after the line feed at `i` contributes. */
  lemma AtMark(s: string, i: nat, lf: nat, g: Types, l: Types)
    requires StartsAt(s, i, "\n" + PrefixUsed(s, i)) && LineEnd(s, i + 1 + |PrefixUsed(s, i)|, lf)
    ensures lf == |s| ==> ReadText(s[i..], g, l) == Malformed
    ensures lf < |s| ==>
      ReadText(s[i..], g, l) ==
        match MarkerBody(s[i + 1 + |PrefixUsed(s, i)|..lf])
        case Unknown => ReadText(s[lf..], g, l)
        case Known(d, f, name) =>
          ReadAfter(AddMark(g, l,
            Mark(PrefixUsed(s, i) == BEGIN_GLOBAL, Marker(d, f, StartsAt(s, lf, "\n" + WEAK), name))), s[lf..])
  {
    hide StartsAt, Lines, MarkerBody, MarkOn, NoLf, AddMark, ReadLines;
    var p, ls := PrefixUsed(s, i), Lines(s[i..]);
    AnyPrefix(s, i);
    PrefixedLine(s, i, lf, p);
    NextLine(s, i, BEGIN_GLOBAL);
    LineBegins(s[i + 1..lf]);
    assert ls[1] == s[i + 1..lf];
    LineRead(ls, g, l);
    if lf < |s| {
      NextLine(s, lf, WEAK);
      assert ls == ["", s[i + 1..lf]] + Lines(s[lf + 1..]);
      MarkIs(ls[1], ls[2], p);
      assert ls[1..][1..] == Lines(s[lf..])[1..];
      forall g', l' ensures ReadLines(ls[1..], g', l') == ReadText(s[lf..], g', l') {
        FirstLineUnread(ls[1..], Lines(s[lf..]), g', l');
      }
    }
  }

  /** How the second line is read. */
  lemma LineRead(ls: seq<string>, g: Types, l: Types)
    requires |ls| >= 2
    ensures |ls| == 2 && StartsAt(ls[1], 0, BEGIN) ==> ReadLines(ls, g, l) == Malformed
    ensures |ls| > 2 ==>
      ReadLines(ls, g, l) ==
        match MarkOn(ls[1], ls[2])
        case None => ReadLines(ls[1..], g, l)
        case Some(m) =>
          (match AddMark(g, l, m)
           case Listed(g', l') => ReadLines(ls[1..], g', l')
           case bad => bad)
  {
    hide StartsAt, MarkOn, AddMark;
  }

  lemma MarkIs(line: string, next: string, p: string)
    requires StartsAt(line, 0, p) && StartsAt(line, 0, BEGIN)
    requires p == if StartsAt(line, 0, BEGIN_GLOBAL) then BEGIN_GLOBAL else BEGIN
    ensures MarkOn(line, next) ==
      match MarkerBody(line[|p|..])
      case Unknown => None
      case Known(d, f, name) => Some(Mark(p == BEGIN_GLOBAL, Marker(d, f, StartsAt(next, 0, WEAK), name)))
  {
    hide StartsAt, MarkerBody;
  }

  lemma AnyPrefix(s: string, i: nat)
    requires StartsAt(s, i, "\n" + PrefixUsed(s, i))
    ensures i < |s| && s[i] == '\n' && NoLf(PrefixUsed(s, i)) && NoLf(BEGIN_GLOBAL) && NoLf(WEAK)
  {
  }

  lemma LineBegins(line: string)
    ensures StartsAt(line, 0, BEGIN_GLOBAL) ==> StartsAt(line, 0, BEGIN)
  {
    assert BEGIN_GLOBAL[..9] == BEGIN;
    assert |line| >= 16 ==> line[..16][..9] == line[..9];
  }

  /** A table of symbols. */
  class TypeTable {
    var types: Types

    constructor ()
      ensures types == map[]
    {
      types := map[];
    }

    /** Enters a type; false is a failed assertion. */
    method Enter(x: string, met: char) returns (ok: bool)
      modifies this
      ensures match AddType(old(types), x, met)
              case None => !ok
              case Some(ts) => ok && types == ts
    {
      if x !in types {
        types := types[x := met];
      } else {
        var was := types[x];
        if was == 'U' || was == 'w' {
          types := types[x := met];
        } else if met == 'U' || met == 'w' {
        } else if (met == 'V' && was == 'D') || (met == 'W' && was == 'T') {
        } else if (met == 'D' && was == 'V') || (met == 'T' && was == 'W') {
          types := types[x := met];
        } else {
          return was == met;
        }
        assert types == old(types)[x := types[x]];
      }
      ok := true;
    }
  }

  datatype MarkStep = CutOff | Passed(next: nat) | Met(mark: Mark, next: nat)

  /** Reads the marker line after the line feed at `begin`. */
  method ReadMark(s: string, begin: nat) returns (r: MarkStep)
    requires begin <= |s| && StartsAt(s, begin, "\n" + PrefixUsed(s, begin))
    ensures match r
            case CutOff => forall g, l :: ReadText(s[begin..], g, l) == Malformed
            case Passed(next) => begin < next <= |s|
              && forall g, l :: ReadText(s[begin..], g, l) == ReadText(s[next..], g, l)
            case Met(m, next) =>
              begin < next <= |s| && forall g, l :: ReadText(s[begin..], g, l) == ReadAfter(AddMark(g, l, m), s[next..])
  {
    hide Lines, ReadLines, ReadText, MarkerBody, AddMark, NoLf;
    var global := StartsAt(s, begin, "\n" + BEGIN_GLOBAL);
    var known, isDef, isFunction, nameBegin, lf := ReadBody(s, begin + (if global then 17 else 10));
    forall g, l {
      AtMark(s, begin, lf, g, l);
    }
    if lf == |s| {
      return CutOff;
    }
    var ptx := lf;
    if !known {
      return Passed(ptx);
    }
    var weak := StartsAt(s, ptx, "\n" + WEAK);
    if weak {
      forall g, l ensures ReadText(s[lf..], g, l) == ReadText(s[lf + 7..], g, l) {
        PastWeakText(s, lf, g, l);
      }
      ptx := ptx + 7;
    }
    return Met(Mark(global, Marker(isDef, isFunction, weak, s[nameBegin..lf])), ptx);
  }

  /** Reading on after `.weak ` skips nothing that matters. */
  lemma PastWeakText(s: string, lf: nat, g: Types, l: Types)
    requires StartsAt(s, lf, "\n" + WEAK)
    ensures ReadText(s[lf..], g, l) == ReadText(s[lf + 7..], g, l)
  {
    PrefixAt(s, lf, "\n" + WEAK, 0);
    PrefixAt(s, lf, "\n" + WEAK, 1);
    PrefixAt(s, lf, "\n" + BEGIN, 1);
    var w := s[lf..lf + 7];
    PassLf(s, lf, g, l);
    assert s[lf + 1..lf + 7] == w[1..] == WEAK;
    PassInLine(s, lf + 1, lf + 7, g, l);
  }

  datatype Status = Read | BadMarker | AssertionFails

  /** Reads the markers of one part into the tables. */
  method ProcessRefsDefs(global: TypeTable, local: TypeTable, text: string) returns (r: Status)
    requires global != local
    modifies global, local
    ensures match ReadText(text, old(global.types), old(local.types))
            case Listed(g, l) => r == Read && global.types == g && local.types == l
            case Malformed => r == BadMarker
            case Aborted => r == AssertionFails
  {
    hide Lines, ReadLines, ReadText, AddType, TypeOf;
    var ptx := 0;
    assert text[0..] == text;
    while ptx < |text|
      invariant ptx <= |text|
      invariant ReadText(text[ptx..], global.types, local.types) == ReadText(text, old(global.types), old(local.types))
    {
      if StartsAt(text, ptx, "\n" + BEGIN_GLOBAL) || StartsAt(text, ptx, "\n" + BEGIN) {
        var step := ReadMark(text, ptx);
        if step == CutOff {
          return BadMarker;
        } else if step.Met? {
          var m := step.mark;
          if m.marker.weak && !m.global {
            return BadMarker;
          }
          var table := if m.global then global else local;
          var ok := table.Enter(m.marker.name, TypeOf(m));
          if !ok {
            return AssertionFails;
          }
        }
        ptx := step.next;
        continue;
      }
      if text[ptx] == '\n' {
        PassLf(text, ptx, global.types, local.types);
      } else {
        PassInLine(text, ptx, ptx + 1, global.types, local.types);
      }
      ptx := ptx + 1;
    }
    NothingRead(text[ptx..], global.types, local.types);
    r := Read;
  }

  lemma NothingRead(s: string, g: Types, l: Types)
    requires s == ""
    ensures ReadText(s, g, l) == Listed(g, l)
  {
  }

  // Whole files: NUL-separated parts share the table of global symbols

  datatype FileOutcome = Symbols(global: Types, locals: seq<Types>) | BadPart(status: Status)

  function ReadParts(ps: seq<string>): FileOutcome {
    if ps == [] then Symbols(map[], [])
    else
      var n := |ps| - 1;
      match ReadParts(ps[..n])
      case Symbols(g, ls) =>
        (match ReadText(ps[n], g, map[])
         case Listed(g', l) => Symbols(g', ls + [l])
         case Malformed => BadPart(BadMarker)
         case Aborted => BadPart(AssertionFails))
      case bad => bad
  }

  lemma {:induction false} BadStays(a: seq<string>, b: seq<string>)
    requires ReadParts(a).BadPart?
    ensures ReadParts(a + b) == ReadParts(a)
  {
    if b == [] {
      assert a + b == a;
    } else {
      BadStays(a, b[..|b| - 1]);
      assert (a + b)[..|a + b| - 1] == a + b[..|b| - 1];
    }
  }

  lemma ReadOneMore(done: seq<string>, text: string)
    ensures ReadParts(done + [text]) ==
      match ReadParts(done)
      case Symbols(g, ls) =>
        (match ReadText(text, g, map[])
         case Listed(g', l) => Symbols(g', ls + [l])
         case Malformed => BadPart(BadMarker)
         case Aborted => BadPart(AssertionFails))
      case bad => bad
  {
    assert (done + [text])[..|done|] == done;
  }

  /** The tables hold these types. */
  ghost predicate HoldTypes(locals: seq<TypeTable>, ls: seq<Types>)
    reads locals
  {
    |locals| == |ls| && forall i :: 0 <= i < |ls| ==> locals[i].types == ls[i]
  }

  lemma HoldOneMore(locals: seq<TypeTable>, ls: seq<Types>, local: TypeTable)
    requires HoldTypes(locals, ls)
    ensures HoldTypes(locals + [local], ls + [local.types])
  {
  }

  lemma NextPart(buf: string, off: nat, done: seq<string>)
    requires off <= |buf| && Parts(buf) == done + PartsAt(buf, off)
    ensures var text := CString(buf[off..]);
            off + |text| <= |buf| && Parts(buf) == (done + [text]) + PartsAt(buf, off + |text| + 1)
  {
    hide Parts, CString, PartsAt;
    PartsStep(buf, off);
    var text := CString(buf[off..]);
    AppendAssociates(done, [text], PartsAt(buf, off + |text| + 1));
  }

  /** Reads a file, whose contents are `buf` before the NUL that ends it. */
  method ReadFile(buf: string) returns (r: Status, global: TypeTable, locals: seq<TypeTable>)
    ensures match ReadParts(Parts(buf))
            case Symbols(g, ls) => r == Read && global.types == g && HoldTypes(locals, ls)
            case BadPart(status) => r == status
  {
    hide ReadText, CString, Parts, PartsAt, ReadParts, HoldTypes;
    global := new TypeTable();
    locals := [];
    var off := 0;
    r := Read;
    ghost var done: seq<string>, ls: seq<Types> := [], [];
    NoneRead(buf);
    while off != |buf| + 1
      invariant off <= |buf| + 1 && fresh(global)
        && (forall i :: 0 <= i < |locals| ==> fresh(locals[i]) && locals[i] != global)
      invariant Parts(buf) == done + PartsAt(buf, off)
      invariant ReadParts(done) == Symbols(global.types, ls) && HoldTypes(locals, ls) && r == Read
    {
      var text := CString(buf[off..]);
      NextPart(buf, off, done);
      ReadOneMore(done, text);
      var local := new TypeTable();
      r := ProcessRefsDefs(global, local, text);
      if r != Read {
        BadStays(done + [text], PartsAt(buf, off + |text| + 1));
        return;
      }
      HoldOneMore(locals, ls, local);
      locals, done, ls := locals + [local], done + [text], ls + [local.types];
      off := off + |text| + 1;
    }
    AllParts(buf, done);
  }

  lemma AllParts(buf: string, done: seq<string>)
    ensures done + PartsAt(buf, |buf| + 1) == done
  {
  }

  lemma NoneRead(buf: string)
    ensures ReadParts([]) == Symbols(map[], []) && Parts(buf) == [] + PartsAt(buf, 0) && HoldTypes([], [])
  {
    assert buf[0..] == buf;
  }
}
