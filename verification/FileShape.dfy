/** The shape of a file for nvptx-as, told from the tokens it reads: where each item
    ends, which tokens belong to none, and how each token is printed, in which list. */
module FileShape {
  import opened Common
  import opened Tokenizer
  import opened ParserSpec

  // Tokens

  /** The token is `s` after its first character, whatever that is. */
  predicate Word(tok: Token, s: string) {
    tok.text != "" && tok.text[1..] == s
  }

  /** A comment for the offloading tools. */
  predicate IsMap(tok: Token) {
    tok.kind == Comment && (":VAR_MAP " <= tok.text || ":FUNC_MAP " <= tok.text || ":IND_FUNC_MAP " <= tok.text)
  }

  predicate IsFileLine(tok: Token) {
    tok.kind == Dotted
      && (Word(tok, "version") || Word(tok, "target") || Word(tok, "address_size") || Word(tok, "file"))
  }

  predicate IsBodyLine(tok: Token) {
    tok.kind == Dotted && (Word(tok, "file") || Word(tok, "loc"))
  }

  predicate StopsHeader(tok: Token) {
    tok.kind in {Eof, Comment, Char('='), Char('{'), Char(';')}
  }

  predicate IsName(t: seq<Token>, i: nat) {
    i < |t| && (t[i].kind == Symbol || t[i].kind == Ident)
  }

  predicate NoComments(t: seq<Token>, p: nat, q: nat) {
    forall i :: p <= i < q ==> !IsComment(t, i)
  }

  // Where things stop

  /** After the first token from `p` on that ends its line. */
  function LineStop(t: seq<Token>, p: nat): (q: Option<nat>)
    ensures q.Some? ==> p < q.value <= |t| && t[q.value - 1].end && forall i :: p <= i < q.value - 1 ==> !t[i].end
    ensures q.None? ==> forall i :: p <= i < |t| ==> !t[i].end
    decreases |t| - p
  {
    if p >= |t| then None else if t[p].end then Some(p + 1) else LineStop(t, p + 1)
  }

  /** The first token from `p` on that is no comment. */
  function CommentStop(t: seq<Token>, p: nat): (q: nat)
    ensures p <= q && (forall i :: p <= i < q ==> IsComment(t, i)) && !IsComment(t, q)
    decreases |t| - p
  {
    if IsComment(t, p) then CommentStop(t, p + 1) else p
  }

  /** The first token from `p` on that is no comment, or one for the offloading tools. */
  function PlainStop(t: seq<Token>, p: nat): (q: nat)
    ensures p <= q && (forall i :: p <= i < q ==> IsComment(t, i) && !IsMap(t[i]))
    ensures IsComment(t, q) ==> IsMap(t[q])
    decreases |t| - p
  {
    if IsComment(t, p) && !IsMap(t[p]) then PlainStop(t, p + 1) else p
  }

  /** The first ';' from `p` on. */
  function SemiAt(t: seq<Token>, p: nat): (q: Option<nat>)
    ensures q.Some? ==> p <= q.value < |t| && Is(t, q.value, ';') && forall i :: p <= i < q.value ==> !Is(t, i, ';')
    ensures q.None? ==> forall i :: p <= i ==> !Is(t, i, ';')
    decreases |t| - p
  {
    if p >= |t| then None else if Is(t, p, ';') then Some(p) else SemiAt(t, p + 1)
  }

  predicate IsSeparator(t: seq<Token>, i: nat) {
    Is(t, i, ',') || Is(t, i, ';')
  }

  /** The first ',' or ';' from `p` on. */
  function SeparatorAt(t: seq<Token>, p: nat): (q: Option<nat>)
    ensures q.Some? ==> p <= q.value < |t| && IsSeparator(t, q.value)
    ensures q.Some? ==> forall i :: p <= i < q.value ==> !IsSeparator(t, i)
    ensures q.None? ==> forall i :: p <= i ==> !IsSeparator(t, i)
    decreases |t| - p
  {
    if p >= |t| then None else if IsSeparator(t, p) then Some(p) else SeparatorAt(t, p + 1)
  }

  /** The end of a header. */
  function HeaderStop(t: seq<Token>, p: nat): (q: nat)
    requires Terminated(t) && p < |t|
    ensures p <= q < |t| && StopsHeader(t[q]) && forall i :: p <= i < q ==> !StopsHeader(t[i])
    decreases |t| - p
  {
    if StopsHeader(t[p]) then p else HeaderStop(t, p + 1)
  }

  /** The end of a line that makes no sense. */
  function StrangeStop(t: seq<Token>, p: nat): (q: nat)
    requires Terminated(t) && p < |t|
    ensures p <= q < |t| && (t[p].kind != Eof ==> p < q)
    ensures forall i :: p <= i < q - 1 ==> !t[i].end
    ensures t[q].kind != Eof ==> q > p && t[q - 1].end
    decreases |t| - p
  {
    if t[p].kind == Eof then p else if t[p].end then p + 1 else StrangeStop(t, p + 1)
  }

  /** The last name from `p` up to `q`. */
  function LastName(t: seq<Token>, p: nat, q: nat): (i: Option<nat>)
    ensures i.Some? ==> p <= i.value < q && IsName(t, i.value) && forall j :: i.value < j < q ==> !IsName(t, j)
    ensures i.None? ==> forall j :: p <= j < q ==> !IsName(t, j)
  {
    if q <= p then None else if IsName(t, q - 1) then Some(q - 1) else LastName(t, p, q - 1)
  }

  /** The token before `p` takes a comment that follows on its line. */
  function Trailed(t: seq<Token>, p: nat): nat {
    if 0 < p <= |t| && !t[p - 1].end && IsComment(t, p) then p + 1 else p
  }

  // Function bodies

  predicate IsBrace(t: seq<Token>, p: nat) {
    Is(t, p, '{') || Is(t, p, '}')
  }

  /** The end of a predicate. */
  function GuardStop(t: seq<Token>, p: nat): nat {
    if Is(t, p + 1, '!') then p + 3 else p + 2
  }

  /** Where the step of a function's body at `p` ends: a line, comments, a brace, a
      label, a predicate, or an instruction. */
  function StepStop(t: seq<Token>, p: nat): (q: Option<nat>)
    requires p < |t|
    ensures q.Some? ==> p < q.value
  {
    if IsBodyLine(t[p]) then LineStop(t, p)
    else if IsComment(t, p) then Some(CommentStop(t, p))
    else if IsBrace(t, p) || t[p].kind == Label then Some(p + 1)
    else if Is(t, p, '@') then if GuardStop(t, p) < |t| then Some(GuardStop(t, p)) else None
    else
      match SemiAt(t, p + 1)
      case None => None
      case Some(q) => Some(q + 1)
  }

  /** Where the next step begins: braces and predicates take a comment that trails
      them. */
  function NextStep(t: seq<Token>, p: nat): (q: Option<nat>)
    requires p < |t|
    ensures q.Some? ==> p < q.value
  {
    match StepStop(t, p)
    case None => None
    case Some(q) => Some(if IsBrace(t, p) || Is(t, p, '@') then Trailed(t, q) else q)
  }

  /** How deep the braces are after the step at `p`. */
  function Deeper(t: seq<Token>, p: nat, depth: nat): nat {
    if Is(t, p, '{') then depth + 1 else if Is(t, p, '}') && depth > 0 then depth - 1 else depth
  }

  /** Where a body ends: its braces balance there. */
  function BodyStop(t: seq<Token>, p: nat, depth: nat): (q: Option<nat>)
    ensures q.Some? ==> p < q.value
    decreases |t| - p
  {
    if p >= |t| then None
    else
      match NextStep(t, p)
      case None => None
      case Some(q) => if Deeper(t, p, depth) == 0 then Some(q) else BodyStop(t, q, Deeper(t, p, depth))
  }

  // Initialisers

  /** Where a value ends that may begin with comments. */
  function ValueStop(t: seq<Token>, p: nat): (q: Option<nat>)
    ensures q.Some? ==> p <= q.value < |t|
  {
    SeparatorAt(t, CommentStop(t, p))
  }

  /** The end of an initialiser, with a comment that trails it. */
  function InitStop(t: seq<Token>, p: nat): (q: Option<nat>)
    ensures q.Some? ==> p < q.value
    decreases |t| - p
  {
    match ValueStop(t, p)
    case None => None
    case Some(q) => if Is(t, q, ';') then Some(Trailed(t, q + 1)) else InitStop(t, Trailed(t, q + 1))
  }

  // Headers

  predicate Says(t: seq<Token>, p: nat, q: nat, s: string) {
    exists i :: p <= i < q && i < |t| && Word(t[i], s)
  }

  /** The header says that it defines a variable. */
  predicate IsVariable(t: seq<Token>, p: nat, q: nat) {
    && (Says(t, p, q, "global") || Says(t, p, q, "const"))
    && !Says(t, p, q, "func") && !Says(t, p, q, "entry") && !Says(t, p, q, "extern")
  }

  // Items

  /** `Unnamed`: a variable has no name. `Endless`: what begins there does not end in
      the file. */
  datatype Reach = To(end: nat) | Unnamed | Endless

  function Reached(q: Option<nat>): Reach {
    match q
    case None => Endless
    case Some(e) => To(e)
  }

  predicate IsLine(t: seq<Token>, q: nat) {
    q < |t| && (IsMap(t[q]) || IsFileLine(t[q]))
  }

  /** The item begins, after its comments, with a header. */
  predicate IsHeader(t: seq<Token>, q: nat) {
    q < |t| && !IsLine(t, q) && t[q].kind == Dotted
  }

  /** A header from `q` to `e`, and what belongs to it. */
  function AfterHeaderAt(t: seq<Token>, q: nat, e: nat): Reach
    requires e < |t|
  {
    if t[e].kind == Eof then To(e)
    else if Is(t, e, '{') || IsComment(t, e) then Reached(BodyStop(t, e, 0))
    else if !IsVariable(t, q, e) then To(e + 1)
    else if LastName(t, q, e).None? then Unnamed
    else if Is(t, e, '=') then Reached(InitStop(t, e + 1))
    else To(e + 1)
  }

  /** Where the item at `p` ends; it begins with comments. */
  function ItemAt(t: seq<Token>, p: nat): Reach
    requires Terminated(t) && p < |t|
  {
    var q := PlainStop(t, p);
    if IsLine(t, q) then Reached(LineStop(t, q))
    else if IsHeader(t, q) then AfterHeaderAt(t, q, HeaderStop(t, q))
    else PlainIn(t, p); To(StrangeStop(t, q))
  }

  /** What the item at `p` begins with, after its comments, makes no sense, or is a
      header that the end of the file cuts off. */
  predicate Strange(t: seq<Token>, p: nat)
    requires Terminated(t) && p < |t|
  {
    var q := PlainStop(t, p);
    if IsHeader(t, q) then t[HeaderStop(t, q)].kind == Eof
    else q < |t| && !IsLine(t, q) && t[q].kind != Eof
  }

  // Nothing is read past the last token

  lemma LastIsEof(t: seq<Token>, q: nat)
    requires Terminated(t) && q < |t| && (t[q].kind != Eof || t[q].end)
    ensures q < |t| - 1
  {
  }

  lemma CommentIn(t: seq<Token>, p: nat)
    requires Terminated(t) && p < |t|
    ensures CommentStop(t, p) < |t|
  {
    var q := CommentStop(t, p);
    if q > p {
      assert IsComment(t, q - 1);
      LastIsEof(t, q - 1);
    }
  }

  lemma PlainIn(t: seq<Token>, p: nat)
    requires Terminated(t) && p < |t|
    ensures PlainStop(t, p) < |t|
  {
    var q := PlainStop(t, p);
    if q > p {
      assert IsComment(t, q - 1);
      LastIsEof(t, q - 1);
    }
  }

  lemma LineIn(t: seq<Token>, p: nat)
    requires Terminated(t) && LineStop(t, p).Some?
    ensures LineStop(t, p).value < |t|
  {
    LastIsEof(t, LineStop(t, p).value - 1);
  }

  lemma TrailedIn(t: seq<Token>, p: nat)
    ensures p <= Trailed(t, p) <= p + 1 && (Terminated(t) && p < |t| ==> Trailed(t, p) < |t|)
  {
  }

  lemma StepIn(t: seq<Token>, p: nat)
    requires Terminated(t) && p < |t| && StepStop(t, p).Some?
    ensures p < StepStop(t, p).value <= NextStep(t, p).value < |t|
  {
    hide IsBodyLine, Trailed, LineStop;
    TrailedIn(t, StepStop(t, p).value);
    if IsBodyLine(t[p]) {
      LineIn(t, p);
    } else if IsComment(t, p) {
      CommentIn(t, p);
    }
  }

  lemma {:induction false} BodyIn(t: seq<Token>, p: nat, depth: nat)
    requires Terminated(t) && BodyStop(t, p, depth).Some?
    ensures p < BodyStop(t, p, depth).value < |t|
    decreases |t| - p
  {
    hide StepStop, Deeper;
    StepIn(t, p);
    if Deeper(t, p, depth) != 0 {
      BodyIn(t, NextStep(t, p).value, Deeper(t, p, depth));
    }
  }

  lemma ValueIn(t: seq<Token>, p: nat)
    requires Terminated(t) && ValueStop(t, p).Some?
    ensures p <= CommentStop(t, p) <= ValueStop(t, p).value < |t| - 1
    ensures ValueStop(t, p).value < Trailed(t, ValueStop(t, p).value + 1) < |t|
  {
    LastIsEof(t, ValueStop(t, p).value);
    TrailedIn(t, ValueStop(t, p).value + 1);
  }

  lemma {:induction false} InitIn(t: seq<Token>, p: nat)
    requires Terminated(t) && InitStop(t, p).Some?
    ensures p < InitStop(t, p).value < |t|
    decreases |t| - p
  {
    hide ValueStop, Trailed;
    ValueIn(t, p);
    var q := ValueStop(t, p).value;
    if !Is(t, q, ';') { InitIn(t, Trailed(t, q + 1)); }
  }

  /** Every item takes a token. */
  lemma ItemMoves(t: seq<Token>, p: nat)
    requires Terminated(t) && p < |t| && t[p].kind != Eof && ItemAt(t, p).To?
    ensures p <= PlainStop(t, p) <= ItemAt(t, p).end < |t| && p < ItemAt(t, p).end
  {
    hide Word, IsMap, IsFileLine, IsVariable, BodyStop, InitStop;
    var q := PlainStop(t, p);
    PlainIn(t, p);
    if IsLine(t, q) {
      LineIn(t, q);
    } else if IsHeader(t, q) {
      var e := HeaderStop(t, q);
      if t[e].kind != Eof { LastIsEof(t, e); }
      if BodyStop(t, e, 0).Some? { BodyIn(t, e, 0); }
      if InitStop(t, e + 1).Some? { InitIn(t, e + 1); }
    }
  }

  // Whole files

  /** How far the items from `p` on reach: to the terminator, if nothing is wrong. */
  function FileReach(t: seq<Token>, p: nat): Reach
    requires Terminated(t) && p < |t|
    decreases |t| - p
  {
    if t[p].kind == Eof then To(p)
    else
      match ItemAt(t, p)
      case To(e) => ItemMoves(t, p); FileReach(t, e)
      case failed => failed
  }

  /** Token `i` belongs to none of the items from `p` on. */
  predicate Lost(t: seq<Token>, p: nat, i: nat)
    requires Terminated(t) && p < |t|
    decreases |t| - p
  {
    t[p].kind != Eof && ItemAt(t, p).To? &&
    (ItemMoves(t, p); (Strange(t, p) && PlainStop(t, p) <= i < ItemAt(t, p).end) || Lost(t, ItemAt(t, p).end, i))
  }

  predicate NothingStrange(t: seq<Token>, p: nat)
    requires Terminated(t) && p < |t|
    decreases |t| - p
  {
    t[p].kind != Eof && ItemAt(t, p).To? ==>
      (ItemMoves(t, p); !Strange(t, p) && NothingStrange(t, ItemAt(t, p).end))
  }

  // Well-formed files

  /** What is written of a header: a function has its body directly after it, whose
      braces balance; an initialiser belongs to a variable and ends in ';'; a variable
      has a name. */
  predicate HeaderWellFormed(t: seq<Token>, q: nat, e: nat) {
    || (Is(t, e, '{') && BodyStop(t, e, 0).Some?)
    || (Is(t, e, ';') && (IsVariable(t, q, e) ==> LastName(t, q, e).Some?))
    || (Is(t, e, '=') && IsVariable(t, q, e) && LastName(t, q, e).Some? && InitStop(t, e + 1).Some?)
  }

  /** After its comments the item at `p` begins with a directive that ends its line, or
      with a header, or there is nothing left. */
  predicate ItemWellFormed(t: seq<Token>, p: nat)
    requires Terminated(t) && p < |t|
  {
    var q := PlainStop(t, p);
    || (IsLine(t, q) && LineStop(t, q).Some?)
    || (IsHeader(t, q) && HeaderWellFormed(t, q, HeaderStop(t, q)))
    || (q < |t| && t[q].kind == Eof)
  }

  predicate WellFormed(t: seq<Token>, p: nat)
    requires Terminated(t) && p < |t|
    decreases |t| - p
  {
    t[p].kind == Eof
    || (ItemWellFormed(t, p) && ItemAt(t, p).To? && (ItemMoves(t, p); WellFormed(t, ItemAt(t, p).end)))
  }

  /** A well-formed file is read to its end, and no token is lost. */
  lemma {:induction false} WellFormedReaches(t: seq<Token>, p: nat)
    requires Terminated(t) && p < |t| && WellFormed(t, p)
    ensures FileReach(t, p) == To(|t| - 1) && NothingStrange(t, p)
    decreases |t| - p
  {
    hide ItemAt, ItemWellFormed, Strange;
    if t[p].kind != Eof {
      ItemMoves(t, p);
      ItemNotStrange(t, p);
      WellFormedReaches(t, ItemAt(t, p).end);
    }
  }

  lemma ItemNotStrange(t: seq<Token>, p: nat)
    requires Terminated(t) && p < |t| && ItemWellFormed(t, p)
    ensures ItemAt(t, p).To? && !Strange(t, p)
  {
    hide Word, IsVariable, BodyStop, InitStop;
  }

  lemma {:induction false} NeverLost(t: seq<Token>, p: nat, i: nat)
    requires Terminated(t) && p < |t| && NothingStrange(t, p)
    ensures !Lost(t, p, i)
    decreases |t| - p
  {
    hide ItemAt, Strange;
    if t[p].kind != Eof && ItemAt(t, p).To? {
      ItemMoves(t, p);
      NeverLost(t, ItemAt(t, p).end, i);
    }
  }

  lemma {:induction false} SomeLost(t: seq<Token>, p: nat) returns (i: nat)
    requires Terminated(t) && p < |t| && !NothingStrange(t, p)
    ensures i < |t| - 1 && Lost(t, p, i)
    decreases |t| - p
  {
    hide ItemAt, Strange;
    ItemMoves(t, p);
    if Strange(t, p) {
      StrangeTakes(t, p);
      i := PlainStop(t, p);
    } else {
      i := SomeLost(t, ItemAt(t, p).end);
    }
  }

  /** Nothing is lost just when nothing is strange. */
  lemma LostIsStrange(t: seq<Token>)
    requires Terminated(t)
    ensures NothingStrange(t, 0) <==> forall i :: 0 <= i < |t| - 1 ==> !Lost(t, 0, i)
  {
    hide Lost, NothingStrange;
    if NothingStrange(t, 0) {
      forall i | 0 <= i < |t| - 1 ensures !Lost(t, 0, i) { NeverLost(t, 0, i); }
    } else {
      var i := SomeLost(t, 0);
    }
  }

  lemma StrangeTakes(t: seq<Token>, p: nat)
    requires Terminated(t) && p < |t| && t[p].kind != Eof && Strange(t, p) && ItemAt(t, p).To?
    ensures PlainStop(t, p) < ItemAt(t, p).end
  {
    hide Word, IsMap, IsFileLine;
    PlainIn(t, p);
  }
}
