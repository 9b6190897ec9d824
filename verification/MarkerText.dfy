/** Files with linker markers as GCC writes them: what nvptx-ld and nvptx-nm read of
    them. */
module MarkerText {
  import opened Common
  import opened Markers
  import opened GlobalCtors
  import opened CtorPart
  import opened Nm
  import opened NmTypes

  /** A marker line and the lines under it. */
  datatype Block = Block(mark: Mark, code: seq<string>)

  function KindText(m: Marker): string {
    if m.isFunction then if m.isDef then "FUNCTION DEF: " else "FUNCTION DECL: "
    else if m.isDef then "VAR DEF: " else "VAR DECL: "
  }

  function MarkLine(m: Mark): string {
    (if m.global then "// BEGIN GLOBAL " else "// BEGIN ") + (KindText(m.marker) + m.marker.name)
  }

  /** Any line but a marker. */
  ghost predicate IsCode(l: string) {
    NoLf(l) && forall m :: l != MarkLine(m)
  }

  /** The line after a weak marker begins with `.weak `, that after any other does not. */
  ghost predicate IsBlock(b: Block) {
    && NoLf(b.mark.marker.name) && b.code != [] && (forall i :: 0 <= i < |b.code| ==> IsCode(b.code[i]))
    && (b.mark.marker.weak <==> ".weak " <= b.code[0])
  }

  function BlockLines(bs: seq<Block>): seq<string> {
    if bs == [] then [] else [MarkLine(bs[0].mark)] + bs[0].code + BlockLines(bs[1..])
  }

  function MarksIn(bs: seq<Block>): (ms: seq<Mark>)
    ensures |ms| == |bs| && forall k :: 0 <= k < |bs| ==> ms[k] == bs[k].mark
  {
    seq(|bs|, k requires 0 <= k < |bs| => bs[k].mark)
  }

  lemma BeginsAt(l: string, p: string)
    ensures StartsAt(l, 0, p) <==> p <= l
  {
    assert |p| <= |l| ==> l[0..|p|] == l[..|p|];
  }

  // One line

  lemma KindRead(m: Marker)
    ensures MarkerBody(KindText(m) + m.name) == Known(m.isDef, m.isFunction, m.name)
  {
    var k, s := KindText(m), KindText(m) + m.name;
    assert s[..|k|] == k && s[|k|..] == m.name;
    BeginsAt(s, "VAR DEF: ");
    BeginsAt(s, "FUNCTION DEF: ");
    BeginsAt(s, "VAR DECL: ");
    BeginsAt(s, "FUNCTION DECL: ");
    assert s[0] == k[0] && (m.isFunction ==> s[11] == k[11]) && (!m.isFunction ==> s[6] == k[6]);
  }

  /** A body that is known is that of a marker. */
  lemma KnownKind(s: string)
    ensures MarkerBody(s).Known? ==>
      var Known(d, f, name) := MarkerBody(s);
      s == KindText(Marker(d, f, false, name)) + name
  {
    BeginsAt(s, "VAR DEF: ");
    BeginsAt(s, "FUNCTION DEF: ");
    BeginsAt(s, "VAR DECL: ");
    BeginsAt(s, "FUNCTION DECL: ");
  }

  /** The text of a marker line says what marker it is. */
  lemma MarkRead(m: Mark, next: string)
    requires m.marker.weak <==> ".weak " <= next
    ensures MarkOn(MarkLine(m), next) == Some(m)
  {
    hide MarkerBody, KindText;
    var l, body := MarkLine(m), KindText(m.marker) + m.marker.name;
    BeginsAt(next, WEAK);
    BeginsAt(l, BEGIN);
    BeginsAt(l, BEGIN_GLOBAL);
    KindRead(m.marker);
    assert |BEGIN| == 9 && |BEGIN_GLOBAL| == 16 && BEGIN_GLOBAL[..9] == BEGIN;
    if m.global {
      assert l[16..] == body && l[..9] == BEGIN_GLOBAL[..9];
    } else {
      assert l[9..] == body;
      KindLetter(m.marker);
      assert l[9] == body[0] && BEGIN_GLOBAL[9] == 'G';
      assert !(BEGIN_GLOBAL <= l);
    }
  }

  lemma KindLetter(m: Marker)
    ensures KindText(m) != "" && KindText(m)[0] != 'G'
  {
  }

  /** What is read as a marker is written as one. */
  lemma ReadIsWritten(l: string, next: string)
    ensures MarkOn(l, next).Some? ==> exists m :: l == MarkLine(m)
  {
    hide MarkerBody, KindText;
    BeginsAt(l, BEGIN);
    BeginsAt(l, BEGIN_GLOBAL);
    assert |BEGIN| == 9 && |BEGIN_GLOBAL| == 16;
    if MarkOn(l, next).Some? {
      var global := BEGIN_GLOBAL <= l;
      var body := l[if global then 16 else 9..];
      KnownKind(body);
      var Known(d, f, name) := MarkerBody(body);
      assert l == MarkLine(Mark(global, Marker(d, f, false, name)));
    }
  }

  lemma CodeUnread(l: string, next: string)
    requires IsCode(l)
    ensures MarkOn(l, next) == None
  {
    hide MarkOn, MarkLine;
    ReadIsWritten(l, next);
  }

  // Whole files

  /** Lines of code after the first line are passed over. */
  lemma {:induction false} PassCode(x: string, code: seq<string>, rest: seq<string>)
    requires rest != [] && forall i :: 0 <= i < |code| ==> IsCode(code[i])
    ensures Marks([x] + code + rest) == Marks([x] + rest)
    decreases |code|
  {
    hide Marks, IsCode;
    if code == [] {
      assert [x] + code + rest == [x] + rest;
    } else {
      var ls := [x] + code + rest;
      assert ls[1..] == [code[0]] + code[1..] + rest;
      PassLine(ls);
      PassCode(code[0], code[1..], rest);
      FirstUnread([code[0]] + rest, [x] + rest);
    }
  }

  lemma PassLine(ls: seq<string>)
    requires |ls| > 2 && IsCode(ls[1])
    ensures Marks(ls) == Marks(ls[1..])
  {
    hide MarkOn, IsCode;
    CodeUnread(ls[1], ls[2]);
  }

  lemma FirstUnread(a: seq<string>, b: seq<string>)
    requires a != [] && b != [] && a[1..] == b[1..]
    ensures Marks(a) == Marks(b)
  {
    hide MarkOn;
    assert |a| == |b| && forall k :: 1 <= k < |a| ==> a[k] == a[1..][k - 1] == b[k];
  }

  lemma {:induction false} BlocksRead(x: string, bs: seq<Block>)
    requires forall k :: 0 <= k < |bs| ==> IsBlock(bs[k])
    ensures Marks([x] + BlockLines(bs) + [""]) == MarksIn(bs)
    decreases |bs|
  {
    hide Marks, MarkLine, IsCode, NoLf;
    if bs == [] {
      assert [x] + BlockLines(bs) + [""] == [x, ""];
      NoMark(x);
    } else {
      var b, m := bs[0], MarkLine(bs[0].mark);
      SplitBlock(x, m, b.code, BlockLines(bs[1..]));
      PassCode(m, b.code, BlockLines(bs[1..]) + [""]);
      AppendAssociates([m], BlockLines(bs[1..]), [""]);
      BlocksRead(m, bs[1..]);
      BlockRead([x] + BlockLines(bs) + [""], b);
      assert [b.mark] + MarksIn(bs[1..]) == MarksIn(bs);
    }
  }

  lemma SplitBlock(x: string, m: string, code: seq<string>, more: seq<string>)
    requires code != []
    ensures var ls := [x] + ([m] + code + more) + [""];
            |ls| > 2 && ls[1] == m && ls[2] == code[0] && ls[1..] == [m] + code + (more + [""])
  {
  }

  lemma NoMark(x: string)
    ensures Marks([x, ""]) == []
  {
  }

  lemma BlockRead(ls: seq<string>, b: Block)
    requires IsBlock(b) && |ls| > 2 && ls[1] == MarkLine(b.mark) && ls[2] == b.code[0]
    ensures Marks(ls) == [b.mark] + Marks(ls[1..])
  {
    hide MarkLine, MarkOn, IsCode;
    MarkRead(b.mark, ls[2]);
  }

  lemma {:induction false} BlocksNoLf(bs: seq<Block>)
    requires forall k :: 0 <= k < |bs| ==> IsBlock(bs[k])
    ensures forall i :: 0 <= i < |BlockLines(bs)| ==> NoLf(BlockLines(bs)[i])
  {
    hide NoLf, IsBlock, MarkLine;
    if bs != [] {
      BlocksNoLf(bs[1..]);
      BlockNoLf(bs[0]);
    }
  }

  lemma BlockNoLf(b: Block)
    requires IsBlock(b)
    ensures NoLf(MarkLine(b.mark)) && forall i :: 0 <= i < |b.code| ==> NoLf(b.code[i])
  {
    hide KindText, NoLf;
    KindNoLf(b.mark.marker);
    PartsNoLf(KindText(b.mark.marker), b.mark.marker.name);
    PartsNoLf(if b.mark.global then "// BEGIN GLOBAL " else "// BEGIN ", KindText(b.mark.marker) + b.mark.marker.name);
    assert forall i :: 0 <= i < |b.code| ==> IsCode(b.code[i]);
  }

  lemma KindNoLf(m: Marker)
    ensures NoLf(KindText(m)) && NoLf("// BEGIN GLOBAL ") && NoLf("// BEGIN ")
  {
  }

  lemma PartsNoLf(a: string, b: string)
    requires NoLf(a) && NoLf(b)
    ensures NoLf(a + b)
  {
  }

  /** Every marker GCC writes is read back by nvptx-nm, with its kind, its name and whether
      it is global or weak, in order; and by nvptx-ld if it is global. Nothing else is a
      marker. Of the first line nothing is read. */
  lemma MarkersRoundTrip(head: seq<string>, bs: seq<Block>)
    requires head != [] && (forall i :: 0 <= i < |head| ==> IsCode(head[i]))
    requires forall k :: 0 <= k < |bs| ==> IsBlock(bs[k])
    ensures var text := JoinLines(head + BlockLines(bs));
            && Marks(Lines(text)) == MarksIn(bs) && MarkersOf(text) == Some(Only(true, MarksIn(bs)))
  {
    hide Marks, BlockLines, JoinLines, Lines, MarksIn, IsBlock, MarkLine, LineMarkers, Only;
    var ls := head + BlockLines(bs);
    BlocksNoLf(bs);
    LinesOfJoined(ls);
    assert ls + [""] == [head[0]] + head[1..] + (BlockLines(bs) + [""]);
    PassCode(head[0], head[1..], BlockLines(bs) + [""]);
    assert [head[0]] + (BlockLines(bs) + [""]) == [head[0]] + BlockLines(bs) + [""];
    BlocksRead(head[0], bs);
    NotTruncated(ls);
    SameGlobals(ls + [""]);
  }

  lemma NotTruncated(ls: seq<string>)
    ensures !NmTypes.Truncated(ls + [""])
  {
    BeginsAt("", BEGIN);
  }
}
