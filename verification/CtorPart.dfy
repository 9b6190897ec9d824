/** The part nvptx-ld writes for global constructors and destructors: neither tool
    finds a marker in it. */
module CtorPart {
  import opened Common
  import opened Markers
  import opened GlobalCtors
  import opened Framing
  import opened NmTypes
  import Nm

  // Names are clean: they come from single lines of files without NUL

  predicate Clean(x: string) {
    NoLf(x) && NulFree(x)
  }

  lemma {:induction false} LinesClean(s: string)
    requires NulFree(s)
    ensures forall i :: 0 <= i < |Lines(s)| ==> Clean(Lines(s)[i])
  {
    if s != [] {
      LinesClean(s[1..]);
    }
  }

  lemma {:induction false} NamesClean(ls: seq<string>)
    requires (forall i :: 0 <= i < |ls| ==> Clean(ls[i])) && LineMarkers(ls).Some?
    ensures forall m :: m in LineMarkers(ls).value ==> Clean(m.name)
  {
    if |ls| > 1 {
      NamesClean(ls[1..]);
      if StartsAt(ls[1], 0, BEGIN_GLOBAL) {
        BodyClean(ls[1][16..]);
      }
    }
  }

  lemma BodyClean(s: string)
    requires Clean(s)
    ensures MarkerBody(s).Known? ==> Clean(MarkerBody(s).name)
  {
  }

  // The lists of constructors and destructors hold no markers

  /** A line without NUL that begins no marker. */
  predicate PlainLine(l: string) {
    Clean(l) && !StartsAt(l, 0, Nm.BEGIN)
  }

  predicate PlainLines(ls: seq<string>) {
    forall i :: 0 <= i < |ls| ==> PlainLine(ls[i])
  }

  lemma {:induction false} DecimalClean(n: nat)
    ensures Clean(Decimal(n))
  {
    if n >= 10 { DecimalClean(n / 10); }
  }

  lemma {:induction false} ExternLinesPlain(cs: seq<Cdtor>)
    requires forall i :: 0 <= i < |cs| ==> Clean(cs[i].name)
    ensures PlainLines(ExternLines(cs))
  {
    if cs != [] {
      ExternLinesPlain(cs[..|cs| - 1]);
      var l := ExternLine(cs[|cs| - 1]);
      assert l[0] == '.';
      Begins(l);
    }
  }

  lemma Begins(l: string)
    ensures StartsAt(l, 0, Nm.BEGIN) ==> l[0] == '/' && |l| > 3 && l[3] == 'B'
  {
    assert StartsAt(l, 0, Nm.BEGIN) ==> l[..9][0] == l[0] && l[..9][3] == l[3];
  }

  lemma {:induction false} EntryLinesPlain(cs: seq<Cdtor>)
    requires forall i :: 0 <= i < |cs| ==> Clean(cs[i].name)
    ensures PlainLines(EntryLines(cs))
  {
    if cs != [] {
      EntryLinesPlain(cs[..|cs| - 1]);
      EntryLinePlain(cs[|cs| - 1]);
    }
  }

  lemma EntryLinePlain(c: Cdtor)
    requires Clean(c.name)
    ensures PlainLines(EntryLine(c))
  {
    hide Decimal, SignedDecimal;
    SignedClean(c.priority);
    DecimalClean(c.sequence);
    var ls := EntryLine(c);
    assert ls[0][0] == ' ' && ls[1][0] == ' ';
    Begins(ls[0]);
    Begins(ls[1]);
  }

  lemma SignedClean(i: int)
    ensures Clean(SignedDecimal(i))
  {
    hide Decimal;
    DecimalClean(if i < 0 then 0 - i else i);
  }

  lemma ListLinesPlain(title: string, list: string, cs: seq<Cdtor>)
    requires PlainLine(title) && Clean(list) && forall i :: 0 <= i < |cs| ==> Clean(cs[i].name)
    ensures PlainLines(ListLines(title, list, cs))
  {
    hide Decimal, ExternLines, EntryLines;
    ExternLinesPlain(cs);
    SortCdtorsInOrder(cs);
    var sorted := SortCdtors(cs);
    forall i | 0 <= i < |sorted| ensures Clean(sorted[i].name) {
      assert sorted[i] in multiset(sorted);
    }
    EntryLinesPlain(sorted);
    DecimalClean(|cs|);
    ListHeadPlain(list, |cs|);
    PrintablePlain("");
    PrintablePlain("  0");
    PrintablePlain("};");
    hide PlainLine, ListHead, SortCdtors;
  }

  lemma ListHeadPlain(list: string, n: nat)
    requires Clean(list)
    ensures PlainLines(ListHead(list, n))
  {
    hide Decimal;
    DecimalClean(n);
    var head := ListHead(list, n);
    assert head[1][0] == '.' && head[2][0] == ' ';
    Begins(head[1]);
    Begins(head[2]);
  }

  lemma {:induction false} CdtorNames(names: seq<string>, prefix: string)
    requires forall i :: 0 <= i < |names| ==> Clean(names[i])
    ensures forall i :: 0 <= i < |Cdtors(names, prefix)| ==> Clean(Cdtors(names, prefix)[i].name)
  {
    hide Priority, Clean;
    if names != [] { CdtorNames(names[..|names| - 1], prefix); }
  }

  lemma PartLinesPlain(names: seq<string>)
    requires forall i :: 0 <= i < |names| ==> Clean(names[i])
    ensures PlainLines(PartLines(names))
  {
    hide ListLines, PlainLine, Clean, Cdtors, DummyComment, PlainLines;
    CdtorNames(names, CTOR_PREFIX);
    CdtorNames(names, DTOR_PREFIX);
    Names();
    FixedLinesPlain();
    ListLinesPlain("// Constructors.", "__CTOR_LIST__", Cdtors(names, CTOR_PREFIX));
    ListLinesPlain("// Destructors.", "__DTOR_LIST__", Cdtors(names, DTOR_PREFIX));
    DummyPlain();
    FourPlain(PREAMBLE, ListLines("// Constructors.", "__CTOR_LIST__", Cdtors(names, CTOR_PREFIX)),
      ListLines("// Destructors.", "__DTOR_LIST__", Cdtors(names, DTOR_PREFIX)), DUMMY);
  }

  lemma Names()
    ensures Clean("__CTOR_LIST__") && Clean("__DTOR_LIST__")
  {
  }

  lemma FourPlain(a: seq<string>, b: seq<string>, c: seq<string>, d: seq<string>)
    requires PlainLines(a) && PlainLines(b) && PlainLines(c) && PlainLines(d)
    ensures PlainLines(a + b + c + d)
  {
    hide PlainLine;
  }

  predicate Printable(l: string) {
    forall k :: 0 <= k < |l| ==> l[k] >= ' '
  }

  lemma PrintablePlain(l: string)
    requires Printable(l) && (|l| > 3 ==> l[3] != 'B')
    ensures PlainLine(l)
  {
    Begins(l);
  }

  lemma Printable2(a: string, b: string)
    requires Printable(a) && Printable(b) && |a| > 3 && a[3] != 'B'
    ensures PlainLine(a + b)
  {
    PrintablePlain(a + b);
  }

  lemma DummyComment0Printable()
    ensures Printable(DummyComment(0)) && |DummyComment(0)| > 3 && DummyComment(0)[3] != 'B'
  {
  }

  lemma DummyComment1Printable()
    ensures Printable(DummyComment(1))
  {
  }

  lemma DummyComment2Printable()
    ensures Printable(DummyComment(2)) && |DummyComment(2)| > 3 && DummyComment(2)[3] != 'B'
  {
  }

  lemma DummyComment3Printable()
    ensures Printable(DummyComment(3))
  {
  }

  lemma DummyComment4Printable()
    ensures Printable(DummyComment(4)) && |DummyComment(4)| > 3 && DummyComment(4)[3] != 'B'
  {
  }

  lemma DummyComment5Printable()
    ensures Printable(DummyComment(5))
  {
  }

  lemma DummyComment6Printable()
    ensures Printable(DummyComment(6)) && |DummyComment(6)| > 3 && DummyComment(6)[3] != 'B'
  {
  }

  lemma DummyComment7Printable()
    ensures Printable(DummyComment(7))
  {
  }

  lemma DummyCommentPlain()
    ensures PlainLine(DummyComment(0) + DummyComment(1)) && PlainLine(DummyComment(2) + DummyComment(3))
    ensures PlainLine(DummyComment(4) + DummyComment(5)) && PlainLine(DummyComment(6) + DummyComment(7))
  {
    hide DummyComment, Printable, PlainLine;
    DummyComment0Printable();
    DummyComment1Printable();
    DummyComment2Printable();
    DummyComment3Printable();
    DummyComment4Printable();
    DummyComment5Printable();
    DummyComment6Printable();
    DummyComment7Printable();
    Printable2(DummyComment(0), DummyComment(1));
    Printable2(DummyComment(2), DummyComment(3));
    Printable2(DummyComment(4), DummyComment(5));
    Printable2(DummyComment(6), DummyComment(7));
  }

  lemma DummyPlain()
    ensures PlainLines(DUMMY)
  {
    hide PlainLine, DummyComment;
    DummyCommentPlain();
    PrintablePlain("");
    PrintablePlain(".func dummy");
    PrintablePlain("{");
    PrintablePlain("  ret;");
    PrintablePlain("}");
  }

  lemma FixedLinesPlain()
    ensures PlainLines(PREAMBLE)
    ensures PlainLine("// Constructors.") && PlainLine("// Destructors.")
  {
    hide PlainLine;
    PrintablePlain(".version 3.1");
    PrintablePlain(".target sm_30");
    PrintablePlain(".address_size 64");
    PrintablePlain("// Constructors.");
    PrintablePlain("// Destructors.");
  }

  /** The lines of joined lines. */
  lemma {:induction false} LinesOfJoined(ls: seq<string>)
    requires forall i :: 0 <= i < |ls| ==> NoLf(ls[i])
    ensures Lines(JoinLines(ls)) == ls + [""]
  {
    if ls != [] {
      LinesOfJoined(ls[1..]);
      hide JoinLines, Lines;
      var l, rest := ls[0], JoinLines(ls[1..]);
      JoinAppend([l], ls[1..]);
      assert [l] + ls[1..] == ls;
      var s := JoinLines(ls);
      assert s == l + ("\n" + rest) by { JoinedFirst(l, rest); }
      assert s[0..] == s && s[0..|l|] == l && s[|l| + 1..] == rest;
      LineEndLines(s, 0, |l|);
    }
  }

  lemma JoinedFirst(l: string, rest: string)
    ensures JoinLines([l]) + rest == l + ("\n" + rest)
  {
    assert [l][..0] == [];
  }

  lemma {:induction false} JoinClean(ls: seq<string>)
    requires forall i :: 0 <= i < |ls| ==> Clean(ls[i])
    ensures NulFree(JoinLines(ls))
  {
    if ls != [] { JoinClean(ls[..|ls| - 1]); }
  }

  lemma {:induction false} NoMarksOn(ls: seq<string>)
    requires PlainLines(ls)
    ensures Marks(ls) == []
  {
    hide MarkerBody, Clean;
    if |ls| > 2 {
      assert PlainLine(ls[1]);
      NoMarksOn(ls[1..]);
    }
  }

  /** So neither tool sees a marker in that part. */
  lemma PartHasNoMarks(names: seq<string>)
    requires forall i :: 0 <= i < |names| ==> Clean(names[i])
    ensures var s := JoinLines(PartLines(names));
            NulFree(s) && PartFine(s) && Marks(Lines(s)) == []
  {
    hide PartLines, JoinLines, Clean, Lines, Nm.AddType;
    PartLinesPlain(names);
    var ls := PartLines(names);
    assert forall i :: 0 <= i < |ls| ==> PlainLine(ls[i]);
    JoinClean(ls);
    EmptyLinePlain();
    LinesOfJoined(ls);
    NoMarksOn(ls + [""]);
    FoldNothing(map[], map[]);
  }

  lemma EmptyLinePlain()
    ensures PlainLine("") && forall l :: PlainLine(l) ==> NoLf(l) && Clean(l)
  {
  }
}
