/** The linker marker lines that GCC/nvptx puts into PTX files, as lines, and
    the pointer-stepping scanner of nvptx-ld that finds them. */
module Markers {
  import opened Common

  datatype Marker = Marker(isDef: bool, isFunction: bool, weak: bool, name: string)

  /** The lines of a text; the last one has no line feed after it. */
  function Lines(s: string): (ls: seq<string>)
    ensures ls != []
  {
    if s == [] then [""]
    else if s[0] == '\n' then [""] + Lines(s[1..])
    else
      var ls := Lines(s[1..]);
      [[s[0]] + ls[0]] + ls[1..]
  }

  /** Whether `p` occurs in `s` at `i`: C's `strncmp (s + i, p, strlen (p)) == 0`. */
  predicate StartsAt(s: string, i: nat, p: string) {
    i + |p| <= |s| && s[i..i + |p|] == p
  }

  const BEGIN_GLOBAL := "// BEGIN GLOBAL "
  const WEAK := ".weak "

  /** The text of a marker line after its BEGIN prefix. */
  datatype Body = Unknown | Known(isDef: bool, isFunction: bool, name: string)

  /** The kind of a marker, from the text after its BEGIN prefix. */
  function MarkerBody(s: string): Body {
    if StartsAt(s, 0, "VAR DEF: ") then Known(true, false, s[9..])
    else if StartsAt(s, 0, "FUNCTION DEF: ") then Known(true, true, s[14..])
    else if StartsAt(s, 0, "VAR DECL: ") then Known(false, false, s[10..])
    else if StartsAt(s, 0, "FUNCTION DECL: ") then Known(false, true, s[15..])
    else Unknown
  }

  /** The markers on all lines but the first, in order. None when the last line
      begins as a marker: it is truncated. */
  function LineMarkers(ls: seq<string>): Option<seq<Marker>> {
    if |ls| <= 1 then Some([])
    else if StartsAt(ls[1], 0, BEGIN_GLOBAL) then
      if |ls| == 2 then None
      else
        match LineMarkers(ls[1..])
        case None => None
        case Some(ms) =>
          match MarkerBody(ls[1][16..])
          case Unknown => Some(ms)
          case Known(d, f, name) => Some([Marker(d, f, StartsAt(ls[2], 0, WEAK), name)] + ms)
    else LineMarkers(ls[1..])
  }

  function MarkersOf(s: string): Option<seq<Marker>> {
    LineMarkers(Lines(s))
  }

  /** `ms` put before the markers of a later part, if that has any at all. */
  function Before<M>(ms: seq<M>, r: Option<seq<M>>): Option<seq<M>> {
    match r
    case None => None
    case Some(ms') => Some(ms + ms')
  }

  predicate NoLf(s: string) {
    forall k :: 0 <= k < |s| ==> s[k] != '\n'
  }

  /** The first line, and what is on it. */
  lemma {:induction false} FirstLine(s: string)
    ensures Lines(s)[0] <= s && NoLf(Lines(s)[0])
    ensures |Lines(s)| == 1 <==> NoLf(s)
    ensures |Lines(s)| == 1 ==> Lines(s)[0] == s
    ensures |Lines(s)| > 1 ==> var n := |Lines(s)[0]|;
              n < |s| && s[n] == '\n' && Lines(s[n + 1..]) == Lines(s)[1..]
  {
    if s != [] && s[0] != '\n' {
      FirstLine(s[1..]);
      assert s == [s[0]] + s[1..];
      var n := |Lines(s[1..])[0]|;
      if |Lines(s)| > 1 {
        assert s[1..][n + 1..] == s[n + 2..];
      }
    } else if s != [] {
      assert s[0] == '\n';
    }
  }

  lemma PrefixAt(s: string, i: nat, p: string, k: nat)
    requires k < |p|
    ensures StartsAt(s, i, p) ==> i + k < |s| && s[i + k] == p[k]
  {
    assert StartsAt(s, i, p) ==> s[i..i + |p|][k] == s[i + k];
  }

  /** A prefix without line feeds lies on the first line or not in the text. */
  lemma PrefixOnFirstLine(s: string, p: string)
    requires NoLf(p)
    ensures StartsAt(s, 0, p) <==> StartsAt(Lines(s)[0], 0, p)
  {
    FirstLine(s);
    var l := Lines(s)[0];
    if |l| < |p| {
      PrefixAt(s, 0, p, |l|);
    }
    assert |p| <= |l| ==> l[..|p|] == s[..|p|];
  }

  /** Text before the next line feed does not matter. */
  lemma {:induction false} SkipInLine(s: string, i: nat, j: nat)
    requires i <= j <= |s| && NoLf(s[i..j])
    ensures MarkersOf(s[i..]) == MarkersOf(s[j..])
    ensures Lines(s[i..])[1..] == Lines(s[j..])[1..]
    decreases j - i
  {
    if i < j {
      assert s[i..j][0] == s[i] && s[i..][1..] == s[i + 1..];
      assert s[i + 1..j] == s[i..j][1..];
      SkipInLine(s, i + 1, j);
      FirstLineIgnored(Lines(s[i..]), Lines(s[i + 1..]));
    }
  }

  lemma FirstLineIgnored(a: seq<string>, b: seq<string>)
    requires a != [] && b != [] && a[1..] == b[1..]
    ensures LineMarkers(a) == LineMarkers(b)
  {
    assert |a| == |b| && forall k :: 1 <= k < |a| ==> a[k] == a[1..][k - 1] == b[k];
  }

  /** A line feed that starts no marker is passed over. */
  lemma SkipLf(s: string, i: nat)
    requires i < |s| && s[i] == '\n' && !StartsAt(s, i, "\n" + BEGIN_GLOBAL)
    ensures MarkersOf(s[i..]) == MarkersOf(s[i + 1..])
  {
    assert s[i..][1..] == s[i + 1..];
    ShiftPrefix(s, i, BEGIN_GLOBAL);
    PrefixOnFirstLine(s[i + 1..], BEGIN_GLOBAL);
    assert Lines(s[i..])[1..] == Lines(s[i + 1..]);
  }

  lemma ShiftPrefix(s: string, i: nat, p: string)
    requires i < |s|
    ensures StartsAt(s, i, "\n" + p) <==> s[i] == '\n' && StartsAt(s[i + 1..], 0, p)
  {
    var q := "\n" + p;
    assert q[0] == '\n' && q[1..] == p;
    if i + 1 + |p| <= |s| {
      var t := s[i..i + 1 + |p|];
      assert t == [s[i]] + s[i + 1..][..|p|];
      assert t[0] == s[i] && t[1..] == s[i + 1..][..|p|];
      assert q == [q[0]] + q[1..];
    }
  }

  /** `lf` is where the line going on at `j` ends. */
  predicate LineEnd(s: string, j: nat, lf: nat) {
    j <= lf <= |s| && NoLf(s[j..lf]) && (lf < |s| ==> s[lf] == '\n')
  }

  lemma {:induction false} LineEndLines(s: string, j: nat, lf: nat)
    requires LineEnd(s, j, lf)
    ensures Lines(s[j..]) == if lf == |s| then [s[j..lf]] else [s[j..lf]] + Lines(s[lf + 1..])
    decreases lf - j
  {
    hide Lines;
    LinesStep(s, j);
    if j < lf {
      LineEndLines(s, j + 1, lf);
      LineStarts(s, j, lf);
      var rest := if lf == |s| then [] else Lines(s[lf + 1..]);
      assert Lines(s[j + 1..]) == [s[j + 1..lf]] + rest;
      assert Lines(s[j + 1..])[1..] == rest;
    } else {
      assert s[j..lf] == "";
    }
  }

  lemma {:induction false} LinesStep(s: string, j: nat)
    requires j <= |s|
    ensures j == |s| ==> Lines(s[j..]) == [""]
    ensures j < |s| && s[j] == '\n' ==> Lines(s[j..]) == [""] + Lines(s[j + 1..])
    ensures j < |s| && s[j] != '\n' ==> Lines(s[j..]) == [[s[j]] + Lines(s[j + 1..])[0]] + Lines(s[j + 1..])[1..]
  {
    if j < |s| { assert s[j..][0] == s[j] && s[j..][1..] == s[j + 1..]; }
  }

  lemma LineStarts(s: string, j: nat, lf: nat)
    requires LineEnd(s, j, lf) && j < lf
    ensures s[j] != '\n' && s[j..lf] == [s[j]] + s[j + 1..lf] && LineEnd(s, j + 1, lf)
  {
    assert s[j..lf][0] == s[j] && s[j..lf][1..] == s[j + 1..lf];
  }

  lemma PrefixedText(s: string, j: nat, lf: nat, p: string)
    requires StartsAt(s, j, p) && j + |p| <= lf <= |s|
    ensures s[j..lf] == p + s[j + |p|..lf]
    ensures StartsAt(s[j..lf], 0, p) && s[j..lf][|p|..] == s[j + |p|..lf]
  {
    assert s[j..lf][..|p|] == s[j..j + |p|];
  }

  /** A line that begins with `p`, in a text: it follows the line feed at `i`. */
  lemma PrefixedLine(s: string, i: nat, lf: nat, p: string)
    requires StartsAt(s, i, "\n" + p) && NoLf(p) && LineEnd(s, i + 1 + |p|, lf)
    ensures s[i] == '\n' && i + 1 <= lf
    ensures StartsAt(s[i + 1..lf], 0, p) && s[i + 1..lf][|p|..] == s[i + 1 + |p|..lf]
    ensures Lines(s[i..]) == if lf == |s| then ["", s[i + 1..lf]] else ["", s[i + 1..lf]] + Lines(s[lf + 1..])
  {
    ShiftPrefix(s, i, p);
    assert StartsAt(s, i + 1, p);
    PrefixedText(s, i + 1, lf, p);
    LfThenLine(s, i, lf, p);
  }

  lemma LfThenLine(s: string, i: nat, lf: nat, p: string)
    requires i + 1 + |p| <= lf <= |s| && s[i] == '\n' && NoLf(p) && LineEnd(s, i + 1 + |p|, lf)
    requires s[i + 1..lf] == p + s[i + 1 + |p|..lf]
    ensures Lines(s[i..]) == if lf == |s| then ["", s[i + 1..lf]] else ["", s[i + 1..lf]] + Lines(s[lf + 1..])
  {
    hide Lines;
    PrefixedLineEnds(s, i + 1, lf, p);
    LineEndLines(s, i + 1, lf);
    LinesStep(s, i);
  }

  lemma PrefixedLineEnds(s: string, j: nat, lf: nat, p: string)
    requires j + |p| <= lf <= |s| && NoLf(p) && LineEnd(s, j + |p|, lf) && s[j..lf] == p + s[j + |p|..lf]
    ensures LineEnd(s, j, lf)
  {
  }

  /** Whether the line after the line feed at `lf` begins with `p`. */
  lemma NextLine(s: string, lf: nat, p: string)
    requires lf < |s| && s[lf] == '\n' && NoLf(p)
    ensures StartsAt(s, lf, "\n" + p) <==> StartsAt(Lines(s[lf + 1..])[0], 0, p)
    ensures Lines(s[lf..]) == [""] + Lines(s[lf + 1..])
  {
    ShiftPrefix(s, lf, p);
    PrefixOnFirstLine(s[lf + 1..], p);
    assert s[lf..][1..] == s[lf + 1..];
  }

  /** What a marker line at `i` contributes; its text `s[i + 17..lf]` follows the
      BEGIN prefix. */
  lemma AtMarker(s: string, i: nat, lf: nat)
    requires StartsAt(s, i, "\n" + BEGIN_GLOBAL) && LineEnd(s, i + 17, lf)
    ensures lf == |s| ==> MarkersOf(s[i..]) == None
    ensures lf < |s| ==>
      MarkersOf(s[i..]) ==
        match MarkerBody(s[i + 17..lf])
        case Unknown => MarkersOf(s[lf..])
        case Known(d, f, name) => Before([Marker(d, f, StartsAt(s, lf, "\n" + WEAK), name)], MarkersOf(s[lf..]))
  {
    hide StartsAt, Lines, MarkerBody, NoLf;
    PlainPrefixes();
    PrefixedLine(s, i, lf, BEGIN_GLOBAL);
    if lf < |s| {
      NextLine(s, lf, WEAK);
      FirstLineIgnored(Lines(s[i..])[1..], Lines(s[lf..]));
    }
  }

  lemma PlainPrefixes()
    ensures NoLf(BEGIN_GLOBAL) && NoLf(WEAK)
  {
  }

  /** Reading on after `.weak ` skips nothing that matters. */
  lemma PastWeak(s: string, lf: nat)
    requires StartsAt(s, lf, "\n" + WEAK)
    ensures MarkersOf(s[lf..]) == MarkersOf(s[lf + 7..])
  {
    PrefixAt(s, lf, "\n" + WEAK, 0);
    PrefixAt(s, lf, "\n" + WEAK, 1);
    PrefixAt(s, lf, "\n" + BEGIN_GLOBAL, 1);
    var w := s[lf..lf + 7];
    SkipLf(s, lf);
    assert s[lf + 1..lf + 7] == w[1..] == WEAK;
    SkipInLine(s, lf + 1, lf + 7);
  }

  datatype Step = End | Truncated | Skipped(next: nat) | Found(marker: Marker, next: nat)

  /** What a step from `i` says about the markers from `i` on. */
  ghost predicate StepFrom(s: string, i: nat, r: Step)
    requires i <= |s|
  {
    match r
    case End => MarkersOf(s[i..]) == Some([])
    case Truncated => MarkersOf(s[i..]) == None
    case Skipped(next) => i < next <= |s| && MarkersOf(s[i..]) == MarkersOf(s[next..])
    case Found(m, next) => i < next <= |s| && MarkersOf(s[i..]) == Before([m], MarkersOf(s[next..]))
  }

  /** The position of the next line feed, or the end of the text. */
  method FindLf(s: string, j: nat) returns (lf: nat)
    requires j <= |s|
    ensures LineEnd(s, j, lf)
  {
    lf := j;
    while lf < |s| && s[lf] != '\n'
      invariant j <= lf <= |s| && NoLf(s[j..lf])
    {
      assert s[j..lf + 1] == s[j..lf] + [s[lf]];
      lf := lf + 1;
    }
  }

  /** Reads what follows the prefix of a marker line, up to its end at `lf`: the kind,
      if it is known, and the name. */
  method ReadBody(s: string, j: nat) returns (known: bool, isDef: bool, isFunction: bool, nameBegin: nat, lf: nat)
    requires j <= |s|
    ensures j <= nameBegin <= lf && LineEnd(s, j, lf)
    ensures MarkerBody(s[j..lf]) == if known then Known(isDef, isFunction, s[nameBegin..lf]) else Unknown
  {
    hide MarkerBody;
    known, isDef, isFunction, nameBegin := true, false, false, j;
    if StartsAt(s, j, "VAR DEF: ") {
      isDef := true;
      nameBegin := j + 9;
    } else if StartsAt(s, j, "FUNCTION DEF: ") {
      isDef, isFunction := true, true;
      nameBegin := j + 14;
    } else if StartsAt(s, j, "VAR DECL: ") {
      nameBegin := j + 10;
    } else if StartsAt(s, j, "FUNCTION DECL: ") {
      isFunction := true;
      nameBegin := j + 15;
    } else {
      known := false;
    }
    lf := FindLf(s, nameBegin);
    BodyAt(s, j, lf, nameBegin, known, isDef, isFunction);
  }

  /** Reads the marker line at `begin`. */
  method ReadMarker(s: string, begin: nat) returns (r: Step)
    requires begin <= |s| && StartsAt(s, begin, "\n" + BEGIN_GLOBAL)
    ensures StepFrom(s, begin, r) && r != End
  {
    hide Lines, LineMarkers, MarkersOf, MarkerBody;
    var known, isDef, isFunction, nameBegin, lf := ReadBody(s, begin + 17);
    AtMarker(s, begin, lf);
    if lf == |s| {
      return Truncated;
    }
    var ptx := lf;
    if !known {
      return Skipped(ptx);
    }
    var weak := StartsAt(s, ptx, "\n" + WEAK);
    if weak {
      PastWeak(s, lf);
      ptx := ptx + 7;
    }
    return Found(Marker(isDef, isFunction, weak, s[nameBegin..lf]), ptx);
  }

  /** Steps to the next known marker from `start` on. */
  method NextMarker(s: string, start: nat) returns (r: Step)
    requires start <= |s|
    ensures StepFrom(s, start, r) && !r.Skipped?
  {
    hide Lines, LineMarkers, MarkersOf, Before;
    var ptx := start;
    while ptx < |s|
      invariant start <= ptx <= |s| && MarkersOf(s[start..]) == MarkersOf(s[ptx..])
    {
      if StartsAt(s, ptx, "\n" + BEGIN_GLOBAL) {
        r := ReadMarker(s, ptx);
        if !r.Skipped? {
          return;
        }
        ptx := r.next;
        continue;
      }
      if s[ptx] == '\n' {
        SkipLf(s, ptx);
      } else {
        SkipInLine(s, ptx, ptx + 1);
      }
      ptx := ptx + 1;
    }
    NoMoreMarkers(s[ptx..]);
    return End;
  }

  lemma NoMoreMarkers(s: string)
    requires s == ""
    ensures MarkersOf(s) == Some([])
  {
  }

  /** The kind prefix at `j` is the one of the marker line `s[j..lf]`. */
  lemma BodyAt(s: string, j: nat, lf: nat, nameBegin: nat, known: bool, isDef: bool, isFunction: bool)
    requires j <= nameBegin && LineEnd(s, nameBegin, lf)
    requires
      if StartsAt(s, j, "VAR DEF: ") then known && isDef && !isFunction && nameBegin == j + 9
      else if StartsAt(s, j, "FUNCTION DEF: ") then known && isDef && isFunction && nameBegin == j + 14
      else if StartsAt(s, j, "VAR DECL: ") then known && !isDef && !isFunction && nameBegin == j + 10
      else if StartsAt(s, j, "FUNCTION DECL: ") then known && !isDef && isFunction && nameBegin == j + 15
      else !known && nameBegin == j
    ensures LineEnd(s, j, lf)
    ensures MarkerBody(s[j..lf]) == if known then Known(isDef, isFunction, s[nameBegin..lf]) else Unknown
  {
    assert s[j..lf] == s[j..nameBegin] + s[nameBegin..lf];
    assert NoLf(s[j..nameBegin]);
    hide StartsAt, NoLf;
    PrefixInLine(s, j, lf, "VAR DEF: ");
    PrefixInLine(s, j, lf, "FUNCTION DEF: ");
    PrefixInLine(s, j, lf, "VAR DECL: ");
    PrefixInLine(s, j, lf, "FUNCTION DECL: ");
    assert s[j..lf][nameBegin - j..] == s[nameBegin..lf];
  }

  lemma PrefixInLine(s: string, j: nat, lf: nat, p: string)
    requires LineEnd(s, j, lf) && NoLf(p)
    ensures StartsAt(s, j, p) <==> StartsAt(s[j..lf], 0, p)
  {
    if lf < j + |p| {
      PrefixAt(s, j, p, lf - j);
    } else {
      assert s[j..lf][..|p|] == s[j..j + |p|];
    }
  }
}
