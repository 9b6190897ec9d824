/** The linker's output format: parts, each followed by a NUL. */
module Framing {
  import opened Common

  const NUL: char := '\0'

  function Part(p: string): string {
    p + [NUL]
  }

  function Framed(parts: seq<string>): string {
    if parts == [] then "" else Framed(parts[..|parts| - 1]) + Part(parts[|parts| - 1])
  }

  lemma {:induction false} FramedAppend(a: seq<string>, b: seq<string>)
    ensures Framed(a + b) == Framed(a) + Framed(b)
  {
    hide Framed, Part;
    AppendInit(a, b);
    FramedStep(b);
    if b != [] {
      FramedStep(a + b);
      FramedAppend(a, b[..|b| - 1]);
      AppendAssociates(Framed(a), Framed(b[..|b| - 1]), Part(b[|b| - 1]));
    }
  }

  lemma {:induction false} FramedStep(ps: seq<string>)
    ensures Framed(ps) == if ps == [] then "" else Framed(ps[..|ps| - 1]) + Part(ps[|ps| - 1])
  {
  }

  lemma FramedOne(p: string)
    ensures Framed([p]) == Part(p)
  {
  }

  predicate NulFree(p: string) {
    forall k :: 0 <= k < |p| ==> p[k] != NUL
  }

  // Reading the parts back

  /** The C string at the start of `s`. */
  function CString(s: string): (p: string)
    ensures NulFree(p) && p <= s && (|p| < |s| ==> s[|p|] == NUL)
  {
    if s == "" || s[0] == NUL then "" else [s[0]] + CString(s[1..])
  }

  lemma {:induction false} WholeString(s: string)
    requires NulFree(s)
    ensures CString(s) == s
  {
    if s != "" {
      WholeString(s[1..]);
      assert s == [s[0]] + s[1..];
    }
  }

  /** All parts, as nvptx-nm visits them: the last has no NUL of its own. */
  function Parts(s: string): seq<string>
    decreases |s|
  {
    var p := CString(s);
    if |p| == |s| then [p] else [p] + Parts(s[|p| + 1..])
  }

  /** The parts from `off` on: none are left past the end. */
  function PartsAt(s: string, off: nat): seq<string>
    requires off <= |s| + 1
  {
    if off <= |s| then Parts(s[off..]) else []
  }

  lemma PartsStep(s: string, off: nat)
    requires off <= |s|
    ensures var p := CString(s[off..]);
            off + |p| <= |s| && PartsAt(s, off) == [p] + PartsAt(s, off + |p| + 1)
  {
    var p := CString(s[off..]);
    if off + |p| < |s| {
      assert s[off..][|p| + 1..] == s[off + |p| + 1..];
    }
  }

  function SkipNuls(s: string): (r: string)
    ensures |r| <= |s| && (s != "" && s[0] == NUL ==> |r| < |s|)
  {
    if s != "" && s[0] == NUL then SkipNuls(s[1..]) else s
  }

  /** The parts nvptx-run hands on: it skips all NULs after a part. */
  function Handed(s: string): seq<string>
    decreases |s|
  {
    if s == "" then []
    else
      var p := CString(s);
      [p] + Handed(SkipNuls(s[|p|..]))
  }

  function NonEmpty(ps: seq<string>): seq<string> {
    if ps == [] then []
    else if ps[0] == "" then NonEmpty(ps[1..])
    else [ps[0]] + NonEmpty(ps[1..])
  }

  lemma {:induction false} CStringIs(p: string, s: string)
    requires NulFree(p) && (s != "" ==> s[0] == NUL)
    ensures CString(p + s) == p
  {
    if p == "" {
      assert p + s == s;
    } else {
      assert (p + s)[1..] == p[1..] + s;
      CStringIs(p[1..], s);
    }
  }

  predicate AllNulFree(ps: seq<string>) {
    forall i :: 0 <= i < |ps| ==> NulFree(ps[i])
  }

  lemma StringFirst(p: string, rest: string, s: string)
    requires NulFree(p) && s == p + [NUL] + rest
    ensures |p| < |s| && s[|p|] == NUL && CString(s) == p
    ensures s[|p| + 1..] == rest && SkipNuls(s[|p|..]) == SkipNuls(rest)
  {
    hide NulFree, CString;
    var t := [NUL] + rest;
    CStringIs(p, t);
    assert s == p + t && s[|p|..] == t && t[1..] == rest;
  }

  lemma FramedFirst(ps: seq<string>)
    requires AllNulFree(ps) && ps != []
    ensures var s, p := Framed(ps), ps[0];
            && |p| < |s| && s[|p|] == NUL && CString(s) == p
            && s[|p| + 1..] == Framed(ps[1..]) && SkipNuls(s[|p|..]) == SkipNuls(Framed(ps[1..]))
  {
    hide NulFree, CString, SkipNuls;
    FramedAppend([ps[0]], ps[1..]);
    FramedOne(ps[0]);
    assert [ps[0]] + ps[1..] == ps;
    hide Framed;
    StringFirst(ps[0], Framed(ps[1..]), Framed(ps));
  }

  /** What the linker frames is read back as its parts and an empty one. */
  lemma {:induction false} PartsOfFramed(ps: seq<string>)
    requires AllNulFree(ps)
    ensures Parts(Framed(ps)) == ps + [""]
  {
    hide Framed, Parts, CString, SkipNuls, NulFree;
    NothingFramed();
    if ps == [] {
      NoPartsLeft();
    } else {
      FramedFirst(ps);
      PartsOfFramed(ps[1..]);
      PartsFirst(Framed(ps));
      assert ps == [ps[0]] + ps[1..];
      AppendAssociates([ps[0]], ps[1..], [""]);
    }
  }

  lemma NoPartsLeft()
    ensures Parts("") == [""]
  {
  }

  lemma {:induction false} PartsFirst(s: string)
    ensures var p := CString(s); |p| < |s| ==> Parts(s) == [p] + Parts(s[|p| + 1..])
  {
    hide CString;
  }

  lemma {:induction false} HandedAfterNuls(ps: seq<string>)
    requires AllNulFree(ps)
    ensures Handed(SkipNuls(Framed(ps))) == NonEmpty(ps)
  {
    hide Framed;
    if ps == [] {
      assert Framed([]) == "" by { NothingFramed(); }
    } else {
      FramedFirst(ps);
      HandedAfterNuls(ps[1..]);
      assert NulFree(ps[0]);
    }
  }

  lemma NothingFramed()
    ensures Framed([]) == ""
  {
  }

  /** The runner hands on the first part and all other parts that are not empty. */
  lemma HandedOfFramed(ps: seq<string>)
    requires AllNulFree(ps)
    ensures Handed(Framed(ps)) == if ps == [] then [] else [ps[0]] + NonEmpty(ps[1..])
  {
    if ps != [] {
      FramedFirst(ps);
      HandedAfterNuls(ps[1..]);
    }
  }

  lemma {:induction false} NonEmptyIsAll(ps: seq<string>)
    ensures |NonEmpty(ps)| <= |ps|
    ensures NonEmpty(ps) == ps <==> forall i :: 0 <= i < |ps| ==> ps[i] != ""
  {
    if ps != [] {
      NonEmptyIsAll(ps[1..]);
      assert ps == [ps[0]] + ps[1..];
      assert (forall i :: 0 <= i < |ps| ==> ps[i] != "") <==>
        ps[0] != "" && forall i :: 0 <= i < |ps[1..]| ==> ps[1..][i] != "";
    }
  }

  /** So it hands on exactly the parts just when all but the first are not empty. */
  lemma HandedExactly(ps: seq<string>)
    requires AllNulFree(ps)
    ensures Handed(Framed(ps)) == ps <==> forall i :: 1 <= i < |ps| ==> ps[i] != ""
  {
    HandedOfFramed(ps);
    if ps != [] {
      NonEmptyIsAll(ps[1..]);
      assert ps == [ps[0]] + ps[1..];
      assert (forall i :: 1 <= i < |ps| ==> ps[i] != "") <==> forall i :: 0 <= i < |ps[1..]| ==> ps[1..][i] != "" by {
        assert forall i :: 0 <= i < |ps[1..]| ==> ps[1..][i] == ps[i + 1];
      }
      assert Handed(Framed(ps)) == ps <==> NonEmpty(ps[1..]) == ps[1..];
    }
  }

  /** The position of the next byte that is not a NUL. */
  method SkipNulBytes(program: string, start: nat) returns (off: nat)
    requires start <= |program|
    ensures start <= off <= |program| && SkipNuls(program[start..]) == program[off..]
    ensures start < |program| && program[start] == NUL ==> start < off
  {
    off := start;
    while off < |program| && program[off] == NUL
      invariant start <= off <= |program|
      invariant SkipNuls(program[start..]) == SkipNuls(program[off..])
    {
      assert program[off..][1..] == program[off + 1..];
      off := off + 1;
    }
  }

  /** The loop of nvptx-run that hands PTX code to the CUDA driver. */
  method HandOn(program: string) returns (handed: seq<string>)
    ensures handed == Handed(program)
  {
    hide Handed, SkipNuls, CString;
    handed := [];
    var off := 0;
    assert program[0..] == program;
    while off < |program|
      invariant off <= |program| && Handed(program) == handed + Handed(program[off..])
      decreases |program| - off
    {
      var l := |CString(program[off..])|;
      HandedStep(program, off);
      AppendAssociates(handed, [program[off..off + l]], Handed(SkipNuls(program[off + l..])));
      handed := handed + [program[off..off + l]];
      off := SkipNulBytes(program, off + l);
    }
    assert program[off..] == "" && handed + [] == handed;
    NothingHanded();
  }

  lemma NothingHanded()
    ensures Handed("") == []
  {
  }

  /** What is handed on from `off` on: the string there, and what follows its NULs. */
  lemma {:induction false} HandedStep(program: string, off: nat)
    requires off < |program|
    ensures var l := |CString(program[off..])|;
            && off + l <= |program| && (l == 0 ==> program[off] == NUL)
            && Handed(program[off..]) == [program[off..off + l]] + Handed(SkipNuls(program[off + l..]))
  {
    hide SkipNuls;
    var s := program[off..];
    var l := |CString(s)|;
    assert program[off..off + l] == CString(s) && s[l..] == program[off + l..];
  }
}
