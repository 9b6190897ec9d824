/** What is printed for a list of nvptx-as, token by token. */
module LayoutText {
  import opened Common
  import opened Tokenizer
  import opened Statements
  import opened ParserSpec
  import opened ParserFacts
  import opened Conservation
  import opened FileLayout
  import opened ShapeSame
  import opened ShapeSteps
  import opened ShapeFacts

  /** A token as printed in its place. */
  function PlaceText(tok: Token, place: Place): string
    requires place.In?
  {
    (if place.slashes then "//" else "") + (if place.space then " " else "") + Printed(tok)
    + (if place.end then "\n" else "") + (if place.gap then " " else "")
  }

  /** The tokens of one list, in the order of the file. */
  function ListText(t: seq<Token>, ps: seq<Place>, dest: Dest): string
    requires |ps| <= |t|
  {
    if ps == [] then ""
    else
      var n := |ps| - 1;
      ListText(t, ps[..n], dest) + if ps[n].In? && ps[n].dest == dest then PlaceText(t[n], ps[n]) else ""
  }

  lemma {:induction false} ListTextSame(t: seq<Token>, t': seq<Token>, ps: seq<Place>, dest: Dest)
    requires Same(t, t') && |ps| <= |t|
    ensures |t| == |t'| && ListText(t, ps, dest) == ListText(t', ps, dest)
  {
    hide PlaceText, Same;
    if ps != [] {
      var n := |ps| - 1;
      ListTextSame(t, t', ps[..n], dest);
      if ps[n].In? { PlaceTextSame(t, t', n, ps[n]); }
    } else {
      LengthSame(t, t');
    }
  }

  lemma PlaceTextSame(t: seq<Token>, t': seq<Token>, i: nat, place: Place)
    requires Same(t, t') && i < |t| && place.In?
    ensures |t| == |t'| && PlaceText(t[i], place) == PlaceText(t'[i], place)
  {
    hide Doubled;
  }

  lemma ListTextMore(t: seq<Token>, ps: seq<Place>, place: Place, dest: Dest)
    requires |ps| < |t|
    ensures ListText(t, ps + [place], dest) ==
      ListText(t, ps, dest) + if place.In? && place.dest == dest then PlaceText(t[|ps|], place) else ""
  {
    hide PlaceText;
    assert (ps + [place])[..|ps|] == ps;
  }

  /** Tokens without a place, or in another list, add nothing. */
  lemma {:induction false} OthersAdd(t: seq<Token>, ps: seq<Place>, more: seq<Place>, dest: Dest)
    requires |ps| + |more| <= |t| && forall k :: 0 <= k < |more| ==> more[k] == Nowhere || more[k].dest != dest
    ensures ListText(t, ps + more, dest) == ListText(t, ps, dest)
  {
    hide ListText;
    if more == [] {
      assert ps + more == ps;
    } else {
      var n := |more| - 1;
      OthersAdd(t, ps, more[..n], dest);
      ListTextMore(t, ps + more[..n], more[n], dest);
      assert ps + more == ps + more[..n] + [more[n]];
    }
  }

  /** The first `k` tokens of a statement. */
  function StmtPart(t: seq<Token>, s: Stmt, k: nat): string
    requires s.lo <= s.hi <= |t| && k <= s.hi - s.lo
  {
    StmtTokens(s.vis, t[s.lo..s.lo + k]) + if s.vis.form == PRED && k == s.hi - s.lo then " " else ""
  }

  lemma PartNext(t: seq<Token>, dest: Dest, s: Stmt, k: nat)
    requires s.lo <= s.hi <= |t| && k < s.hi - s.lo
    ensures var place := PutPlaces(t, dest, s)[k];
            && place.In? && place.dest == dest
            && StmtPart(t, s, k + 1) == StmtPart(t, s, k) + PlaceText(t[s.lo + k], place)
  {
    hide StmtTokens, TokenText, PutPlaces, PlaceText;
    var tok, before := t[s.lo + k], t[s.lo..s.lo + k];
    PlaceIs(t, dest, s, k);
    OneToken(s.vis, before, tok);
    assert t[s.lo..s.lo + k + 1] == before + [tok];
    TextsAssociate(StmtTokens(s.vis, before), if s.vis.form == COMMENT then "//" else "", TokenText(tok),
      if s.vis.form == PRED && k + 1 == s.hi - s.lo then " " else "");
  }

  lemma TextsAssociate(a: string, b: string, c: string, d: string)
    ensures a + b + c + d == (a + "") + (b + c + d)
  {
  }

  /** What the first `k` tokens of a statement add. */
  lemma {:induction false} StmtAdds(t: seq<Token>, ps: seq<Place>, dest: Dest, s: Stmt, k: nat)
    requires |ps| == s.lo && s.lo < s.hi <= |t| && k <= s.hi - s.lo
    ensures ListText(t, ps + PutPlaces(t, dest, s)[..k], dest) == ListText(t, ps, dest) + StmtPart(t, s, k)
    decreases k
  {
    hide ListText, PutPlaces, StmtPart, PlaceText;
    var qs := PutPlaces(t, dest, s);
    if k == 0 {
      assert ps + qs[..0] == ps;
      NoPart(t, s);
      assert ListText(t, ps, dest) + "" == ListText(t, ps, dest);
    } else {
      StmtAdds(t, ps, dest, s, k - 1);
      assert ps + qs[..k] == ps + qs[..k - 1] + [qs[k - 1]];
      ListTextMore(t, ps + qs[..k - 1], qs[k - 1], dest);
      PartNext(t, dest, s, k - 1);
      AppendAssociates(ListText(t, ps, dest), StmtPart(t, s, k - 1), PlaceText(t[s.lo + k - 1], qs[k - 1]));
    }
  }

  lemma NoPart(t: seq<Token>, s: Stmt)
    requires s.lo < s.hi <= |t|
    ensures StmtPart(t, s, 0) == ""
  {
    assert t[s.lo..s.lo + 0] == [];
  }

  lemma OneToken(vis: Vis, toks: seq<Token>, tok: Token)
    ensures StmtTokens(vis, toks + [tok]) ==
      StmtTokens(vis, toks) + (if vis.form == COMMENT then "//" else "") + TokenText(tok)
  {
    assert (toks + [tok])[..|toks|] == toks;
  }

  lemma PlaceIs(t: seq<Token>, dest: Dest, s: Stmt, k: nat)
    requires s.lo <= s.hi <= |t| && k < s.hi - s.lo
    ensures var place := PutPlaces(t, dest, s)[k];
            && place.In? && place.dest == dest
            && PlaceText(t[s.lo + k], place) ==
              (if s.vis.form == COMMENT then "//" else "") + TokenText(t[s.lo + k])
              + (if s.vis.form == PRED && k + 1 == s.hi - s.lo then " " else "")
  {
    hide Printed;
    var tok := t[s.lo + k];
    TextsTogether(if s.vis.form == COMMENT then "//" else "", if tok.space then " " else "", Printed(tok),
      if tok.end then "\n" else "", if s.vis.form == PRED && k + 1 == s.hi - s.lo then " " else "");
  }

  lemma TextsTogether(a: string, b: string, c: string, d: string, e: string)
    ensures a + b + c + d + e == a + (b + c + d) + e
  {
  }

  /** What is printed for the statements of a list is its tokens, in their places. */
  lemma {:induction false} ListPrinted(t: seq<Token>, log: seq<Event>, hi: nat, dest: Dest)
    requires Tiles(log, 0, hi) && hi <= |t|
    ensures |LogPlaces(t, log)| == hi && InTokens(t, PutsTo(log, dest))
    ensures StmtsText(t, PutsTo(log, dest)) == ListText(t, LogPlaces(t, log), dest)
  {
    hide ListText, PutPlaces, StmtText;
    if log != [] {
      var n := |log| - 1;
      var rest, e := log[..n], log[n];
      match e {
        case Put(d, s) =>
          ListPrinted(t, rest, s.lo, dest);
          PutPrinted(t, LogPlaces(t, rest), d, s, dest);
          StmtsMore(t, PutsTo(rest, dest), s);
        case Drop(lo, _) =>
          ListPrinted(t, rest, lo, dest);
          OthersAdd(t, LogPlaces(t, rest), Nowheres(hi - lo), dest);
        case _ =>
          ListPrinted(t, rest, hi, dest);
          assert LogPlaces(t, rest) + [] == LogPlaces(t, rest);
      }
      assert PutsTo(rest, dest) + [] == PutsTo(rest, dest);
    } else {
      NothingPrinted(t, dest);
    }
  }

  lemma NothingPrinted(t: seq<Token>, dest: Dest)
    ensures ListText(t, [], dest) == ""
  {
  }

  lemma PutPrinted(t: seq<Token>, ps: seq<Place>, d: Dest, s: Stmt, dest: Dest)
    requires |ps| == s.lo && s.lo < s.hi <= |t|
    ensures ListText(t, ps + PutPlaces(t, d, s), dest) ==
      ListText(t, ps, dest) + if d == dest then StmtText(t, s) else ""
  {
    hide ListText, PutPlaces, StmtTokens;
    var qs := PutPlaces(t, d, s);
    PutInto(t, d, s);
    if d == dest {
      StmtAdds(t, ps, d, s, s.hi - s.lo);
      assert qs[..s.hi - s.lo] == qs && t[s.lo..s.lo + (s.hi - s.lo)] == t[s.lo..s.hi];
    } else {
      OthersAdd(t, ps, qs, dest);
      assert ListText(t, ps, dest) + "" == ListText(t, ps, dest);
    }
  }

  lemma PutInto(t: seq<Token>, dest: Dest, s: Stmt)
    requires s.lo <= s.hi <= |t|
    ensures AllIn(PutPlaces(t, dest, s), dest)
  {
  }

  lemma StmtsMore(t: seq<Token>, ss: seq<Stmt>, s: Stmt)
    requires InTokens(t, ss) && s.lo <= s.hi <= |t|
    ensures InTokens(t, ss + [s]) && StmtsText(t, ss + [s]) == StmtsText(t, ss) + StmtText(t, s)
  {
    hide StmtText;
    assert (ss + [s])[..|ss|] == ss;
  }
}
