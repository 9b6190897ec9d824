/** What the parser of nvptx-as makes of a token buffer: the statements, where each
    goes, and the flags it leaves on the tokens. */
module ParserSpec {
  import opened Common
  import opened Tokenizer
  import opened Statements

  /** The list a statement goes to: that of a variable belongs to its symbol. */
  datatype Dest = Decls | Fns | Var(name: string)

  /** What parsing does, in order: statements made, tokens dropped, symbols looked
      up, dependencies found. */
  datatype Event = Put(dest: Dest, stmt: Stmt) | Drop(lo: nat, hi: nat) | Touch(name: string)
    | Depend(name: string, dep: string)

  /** `pos` is the token parsed next. `Overrun`: the parser would read past the
      tokens; `NoIdentifier` is the error "expected identifier". */
  datatype Parse = At(t: seq<Token>, log: seq<Event>, pos: nat) | Overrun | NoIdentifier

  /** The buffer ends with its only terminator. */
  predicate Terminated(t: seq<Token>) {
    && t != [] && t[|t| - 1].kind == Eof && !t[|t| - 1].end
    && forall i :: 0 <= i < |t| - 1 ==> t[i].kind != Eof
  }

  predicate Is(t: seq<Token>, p: nat, c: char) {
    p < |t| && t[p].kind == Char(c)
  }

  predicate IsComment(t: seq<Token>, p: nat) {
    p < |t| && t[p].kind == Comment
  }

  predicate Comments(t: seq<Token>, p: nat, q: nat) {
    forall i :: p <= i < q ==> IsComment(t, i)
  }

  /** The first character does not matter, nor the kind of token. */
  predicate IsKeyword(tok: Token, s: string) {
    |tok.text| > 0 && tok.text[1..] == s
  }

  function ClearSpace(t: seq<Token>, i: nat): (t': seq<Token>)
    ensures |t'| == |t|
  {
    if i < |t| then t[i := t[i].(space := false)] else t
  }

  function SetSpace(t: seq<Token>, i: nat): (t': seq<Token>)
    ensures |t'| == |t|
  {
    if i < |t| then t[i := t[i].(space := true)] else t
  }

  function SetEnd(t: seq<Token>, i: nat): (t': seq<Token>)
    ensures |t'| == |t|
  {
    if i < |t| then t[i := t[i].(end := true)] else t
  }

  /** A statement of the tokens up to `hi`. */
  function NewStmt(r: Parse, dest: Dest, vis: Vis, lo: nat, hi: nat): (r': Parse)
    requires r.At?
    ensures r'.At? && |r'.t| == |r.t| && r'.pos == hi
  {
    At(ClearSpace(r.t, lo), r.log + [Put(dest, Stmt(vis, lo, hi))], hi)
  }

  /** The same, with a comment that follows on its line. */
  function Finish(r: Parse, dest: Dest, vis: Vis, lo: nat, hi: nat): (r': Parse)
    requires r.At? && 0 < hi <= |r.t|
    ensures r' != NoIdentifier
    ensures r'.At? ==> |r'.t| == |r.t| && hi <= r'.pos
  {
    if r.t[hi - 1].end then NewStmt(r, dest, vis, lo, hi)
    else if hi == |r.t| then Overrun
    else if r.t[hi].kind == Comment then
      NewStmt(NewStmt(r, dest, vis.(noEol := true), lo, hi), dest, Plain(COMMENT), hi, hi + 1)
    else NewStmt(r, dest, vis, lo, hi)
  }

  /** The first token after the line. */
  function LineEnd(t: seq<Token>, p: nat): (q: Option<nat>)
    ensures q.Some? ==> p < q.value <= |t| && t[q.value - 1].end && forall i :: p <= i < q.value - 1 ==> !t[i].end
    decreases |t| - p
  {
    if p >= |t| then None else if t[p].end then Some(p + 1) else LineEnd(t, p + 1)
  }

  function ParseLine(r: Parse, dest: Dest, vis: Vis): (r': Parse)
    requires r.At?
    ensures r' != NoIdentifier
    ensures r'.At? ==> |r'.t| == |r.t| && r.pos < r'.pos
  {
    match LineEnd(r.t, r.pos)
    case None => Overrun
    case Some(q) => NewStmt(r, dest, vis, r.pos, q)
  }

  /** The first token from `p` on that is no comment. */
  function CommentEnd(t: seq<Token>, p: nat): (q: nat)
    ensures p <= q && Comments(t, p, q)
    decreases |t| - p
  {
    if IsComment(t, p) then CommentEnd(t, p + 1) else p
  }

  // Function bodies

  /** The next ';', with no space left after commas. */
  function SemiScan(t: seq<Token>, p: nat): (r: Option<(seq<Token>, nat)>)
    ensures r.Some? ==> |r.value.0| == |t| && p <= r.value.1 < |t|
    decreases |t| - p
  {
    if p >= |t| then None
    else if t[p].kind == Char(';') then Some((t, p))
    else SemiScan(if t[p].kind == Char(',') then ClearSpace(t, p + 1) else t, p + 1)
  }

  /** After a '@': the predicate, negated or not. */
  function ParsePred(r: Parse): (r': Parse)
    requires r.At? && r.pos + 1 < |r.t|
    ensures r' != NoIdentifier
    ensures r'.At? ==> |r'.t| == |r.t| && r.pos < r'.pos
  {
    var p, q := r.pos, r.pos + 1;
    if Is(r.t, q, '!') then
      if q + 1 >= |r.t| then Overrun
      else Finish(r.(t := ClearSpace(ClearSpace(r.t, q), q + 1)), Fns, Plain(PRED), p, q + 2)
    else Finish(r.(t := ClearSpace(r.t, q)), Fns, Plain(PRED), p, q + 1)
  }

  /** An instruction, up to its ';'. */
  function ParsePlainInsn(r: Parse): (r': Parse)
    requires r.At?
    ensures r' != NoIdentifier
    ensures r'.At? ==> |r'.t| == |r.t| && r.pos < r'.pos
  {
    match SemiScan(r.t, r.pos + 1)
    case None => Overrun
    case Some((t, q)) => Finish(r.(t := SetEnd(t, q)), Fns, Plain(INSN), r.pos, q + 1)
  }

  /** One step in a function's body. */
  function Insn(r: Parse): (r': Parse)
    requires r.At? && r.pos < |r.t|
    ensures r' != NoIdentifier
    ensures r'.At? ==> |r'.t| == |r.t| && r.pos < r'.pos
  {
    var t, p := r.t, r.pos;
    if t[p].kind == Dotted && IsKeyword(t[p], "file") then ParseLine(r, Decls, Plain(DOT))
    else if t[p].kind == Dotted && IsKeyword(t[p], "loc") then ParseLine(r, Fns, Plain(DOT))
    else if t[p].kind == Comment then NewStmt(r, Fns, Plain(COMMENT), p, CommentEnd(t, p + 1))
    else if t[p].kind == Char('{') || t[p].kind == Char('}') then Finish(r, Fns, Plain(INSN), p, p + 1)
    else if t[p].kind == Label then Finish(r.(t := SetEnd(t, p)), Fns, Plain(LABEL), p, p + 1)
    else if t[p].kind == Char('@') then if p + 1 < |t| then ParsePred(r) else Overrun
    else ParsePlainInsn(r)
  }

  /** How deep the braces are after the step at `p`. */
  function DepthAfter(t: seq<Token>, p: nat, depth: nat): nat
    requires p < |t|
  {
    if t[p].kind == Char('{') then depth + 1
    else if t[p].kind == Char('}') && depth > 0 then depth - 1
    else depth
  }

  /** A function's body, up to the brace that closes it. */
  function Insns(r: Parse, depth: nat): (r': Parse)
    requires r.At?
    ensures r' != NoIdentifier
    ensures r'.At? ==> |r'.t| == |r.t| && r.pos < r'.pos
    decreases if r.At? then |r.t| - r.pos else 0
  {
    if r.pos >= |r.t| then Overrun
    else
      var r1, d := Insn(r), DepthAfter(r.t, r.pos, depth);
      if !r1.At? || d == 0 then r1 else Insns(r1, d)
  }

  // Initialisers

  /** The next ',' or ';', and the last symbol before it. */
  function InitScan(t: seq<Token>, p: nat, def: Option<nat>): (r: Option<(nat, Option<nat>)>)
    requires def.Some? ==> def.value < |t|
    ensures r.Some? ==> p <= r.value.0 < |t| && (r.value.1.Some? ==> r.value.1.value < |t|)
    decreases |t| - p
  {
    if p >= |t| then None
    else if Is(t, p, ',') || Is(t, p, ';') then Some((p, def))
    else InitScan(t, p + 1, if t[p].kind == Symbol || t[p].kind == Ident then Some(p) else def)
  }

  /** Comments before a value, and no space after the brace it begins with. */
  function InitStart(r: Parse, name: string): (r': Parse)
    requires r.At? && r.pos <= |r.t|
    ensures r'.At? && |r'.t| == |r.t| && r.pos <= r'.pos
  {
    var p, start := r.pos, CommentEnd(r.t, r.pos);
    var r1 := if p < start then NewStmt(r, Var(name), Plain(COMMENT), p, start) else r;
    if Is(r1.t, start, '{') then r1.(t := ClearSpace(r1.t, start + 1)) else r1
  }

  /** A value, up to its ',' or ';'. */
  function InitValue(r: Parse, name: string): (r': Parse)
    requires r.At?
    ensures r' != NoIdentifier
    ensures r'.At? ==> |r'.t| == |r.t| && r.pos < r'.pos
  {
    match InitScan(r.t, r.pos, None)
    case None => Overrun
    case Some((q, def)) =>
      var r1 := if def.Some? then r.(log := r.log + [Depend(name, r.t[def.value].text)]) else r;
      Finish(r1.(t := ClearSpace(r1.t, q + 1)), Var(name), Plain(INSN), r.pos, q + 1)
  }

  /** One value of an initialiser. */
  function InitPart(r: Parse, name: string): (r': Parse)
    requires r.At? && r.pos <= |r.t|
    ensures r' != NoIdentifier
    ensures r'.At? ==> |r'.t| == |r.t| && r.pos < r'.pos
  {
    InitValue(InitStart(r, name), name)
  }

  /** Whether the value at `p` is the last one. */
  predicate LastInit(t: seq<Token>, p: nat) {
    var start := CommentEnd(t, p);
    InitScan(t, start, None).Some? && Is(t, InitScan(t, start, None).value.0, ';')
  }

  function ParseInit(r: Parse, name: string): (r': Parse)
    requires r.At?
    ensures r' != NoIdentifier
    ensures r'.At? ==> |r'.t| == |r.t| && r.pos < r'.pos
    decreases if r.At? then |r.t| - r.pos else 0
  {
    if r.pos >= |r.t| then Overrun
    else
      var r1 := InitPart(r, name);
      if !r1.At? || LastInit(r.t, r.pos) then r1 else ParseInit(r1, name)
  }

  // Whole files

  predicate MapDirective(tok: Token) {
    tok.kind == Comment && (":VAR_MAP " <= tok.text || ":FUNC_MAP " <= tok.text || ":IND_FUNC_MAP " <= tok.text)
  }

  /** The first token from `p` on that is no comment, or one for the offloading
      tools. */
  function PlainCommentEnd(t: seq<Token>, p: nat): (q: nat)
    ensures p <= q && Comments(t, p, q)
    decreases |t| - p
  {
    if IsComment(t, p) && !MapDirective(t[p]) then PlainCommentEnd(t, p + 1) else p
  }

  /** The comment before a statement goes to the same list. */
  function PutComment(r: Parse, dest: Dest, p: nat, q: nat): (r': Parse)
    requires r.At? && p <= q
    ensures r'.At? && |r'.t| == |r.t| && r'.pos == q
  {
    if p < q then NewStmt(r, dest, Plain(COMMENT).(prefixComment := true), p, q) else r.(pos := q)
  }

  /** What a header says: the form of the statement, whether the symbol is global or
      weak, whether it is only declared, and which token names it. */
  datatype Header = Header(isVar: bool, isFunc: bool, global: bool, weak: bool, isDecl: bool, def: Option<nat>)

  const NO_HEADER := Header(false, false, false, false, false, None)

  function HeaderToken(t: seq<Token>, p: nat, h: Header): (h': Header)
    requires p < |t|
    ensures h'.def == (if t[p].kind == Symbol || t[p].kind == Ident then Some(p) else h.def)
  {
    var tok := t[p];
    var h1 :=
      if IsKeyword(tok, "global") || IsKeyword(tok, "const") then h.(isVar := true)
      else if IsKeyword(tok, "func") || IsKeyword(tok, "entry") then h.(isFunc := true)
      else if IsKeyword(tok, "visible") then h.(global := true)
      else if IsKeyword(tok, "extern") then h.(isDecl := true)
      else if IsKeyword(tok, "weak") then h.(weak := true)
      else h;
    if tok.kind == Symbol || tok.kind == Ident then h1.(def := Some(p)) else h1
  }

  /** Spaces around the parameters. */
  function HeaderSpace(t: seq<Token>, p: nat): (t': seq<Token>)
    requires p < |t|
    ensures |t'| == |t|
  {
    if t[p].kind == Char('(') then SetSpace(ClearSpace(t, p + 1), p)
    else if t[p].kind == Char(')') && !Is(t, p + 1, ';') then SetSpace(t, p + 1)
    else t
  }

  predicate HeaderEnds(tok: Token) {
    tok.kind == Eof || tok.kind == Char('=') || tok.kind == Comment || tok.kind == Char('{') || tok.kind == Char(';')
  }

  function HeaderScan(t: seq<Token>, p: nat, h: Header): (r: Option<(seq<Token>, nat, Header)>)
    requires h.def.Some? ==> h.def.value < |t|
    ensures r.Some? ==> |r.value.0| == |t| && p <= r.value.1 < |t| && HeaderEnds(r.value.0[r.value.1])
    ensures r.Some? && r.value.2.def.Some? ==> r.value.2.def.value < |t|
    decreases |t| - p
  {
    if p >= |t| then None
    else if HeaderEnds(t[p]) then Some((t, p, h))
    else HeaderScan(HeaderSpace(t, p), p + 1, HeaderToken(t, p, h))
  }

  /** The flags of a header's statement. */
  function HeaderVis(h: Header, comment: bool): Vis {
    Vis((if h.isVar then VAR else 0) + (if h.isFunc then FUNC else 0), h.global, h.weak, false, comment)
  }

  /** A header that the end of the file cuts off is dropped. */
  function CutHeader(r: Parse, p: nat, q: nat, e: nat): (r': Parse)
    requires r.At? && p <= q <= e
    ensures r'.At? && |r'.t| == |r.t| && r'.pos == e
  {
    var r1 := PutComment(r, Fns, p, q);
    r1.(log := r1.log + (if q < e then [Drop(q, e)] else []), pos := e)
  }

  function ParseFn(r: Parse, p: nat, q: nat, e: nat, vis: Vis): (r': Parse)
    requires r.At? && p <= q <= e
    ensures r' != NoIdentifier
    ensures r'.At? ==> |r'.t| == |r.t| && e < r'.pos
  {
    Insns(NewStmt(PutComment(r, Fns, p, q), Fns, vis, q, e), 0)
  }

  /** A variable's header, up to its ';' or '='. */
  function StartVar(r: Parse, p: nat, q: nat, e: nat, vis: Vis, name: string): (r': Parse)
    requires r.At? && p <= q <= e < |r.t|
    ensures r'.At? && |r'.t| == |r.t| && r'.pos == e + 1
  {
    var r1 := r.(t := SetEnd(r.t, e), log := r.log + [Touch(name)]);
    NewStmt(PutComment(r1, Var(name), p, q), Var(name), vis, q, e + 1)
  }

  function ParseVar(r: Parse, p: nat, q: nat, e: nat, vis: Vis, name: string): (r': Parse)
    requires r.At? && p <= q <= e < |r.t|
    ensures r' != NoIdentifier
    ensures r'.At? ==> |r'.t| == |r.t| && e < r'.pos
  {
    var r1 := StartVar(r, p, q, e, vis, name);
    if Is(r.t, e, '=') then ParseInit(r1, name) else r1
  }

  function ParseDecl(r: Parse, p: nat, q: nat, e: nat, vis: Vis): (r': Parse)
    requires r.At? && p <= q <= e < |r.t|
    ensures r'.At? && |r'.t| == |r.t| && r'.pos == e + 1
  {
    NewStmt(PutComment(r.(t := SetEnd(r.t, e)), Decls, p, q), Decls, vis, q, e + 1)
  }

  /** What a header that ends at `e` is: cut off, a function, a variable, or a
      declaration. */
  function AfterHeader(r: Parse, p: nat, q: nat, e: nat, h: Header): (r': Parse)
    requires r.At? && p <= q <= e < |r.t| && (h.def.Some? ==> h.def.value < |r.t|)
    ensures r'.At? ==> |r'.t| == |r.t| && e <= r'.pos
  {
    var vis := HeaderVis(h, p < q);
    if r.t[e].kind == Eof then CutHeader(r, p, q, e)
    else if r.t[e].kind == Char('{') || r.t[e].kind == Comment then ParseFn(r, p, q, e, vis)
    else if vis.form == VAR && !h.isDecl then
      if h.def == None then NoIdentifier else ParseVar(r, p, q, e, vis, r.t[h.def.value].text)
    else ParseDecl(r, p, q, e, vis)
  }

  /** A variable, function, or declaration that starts at `q`, after a comment that
      starts at `p`. */
  function ParseHeader(r: Parse, p: nat, q: nat): (r': Parse)
    requires r.At? && p <= q < |r.t|
    ensures r'.At? ==> |r'.t| == |r.t| && q <= r'.pos
  {
    match HeaderScan(r.t, q, NO_HEADER)
    case None => Overrun
    case Some((t, e, h)) => AfterHeader(r.(t := t), p, q, e, h)
  }

  predicate LineDirective(tok: Token) {
    IsKeyword(tok, "version") || IsKeyword(tok, "target") || IsKeyword(tok, "address_size") || IsKeyword(tok, "file")
  }

  /** The rest of a line that makes no sense. */
  function StrangeEnd(t: seq<Token>, p: nat): (q: nat)
    ensures p <= q
    decreases |t| - p
  {
    if p >= |t| || t[p].kind == Eof then p else if t[p].end then p + 1 else StrangeEnd(t, p + 1)
  }

  /** One call of the file parser. */
  function ParseFile(r: Parse): (r': Parse)
    requires r.At? && r.pos < |r.t|
    ensures r'.At? ==> |r'.t| == |r.t| && r.pos <= r'.pos
  {
    var t, p := r.t, r.pos;
    var q := PlainCommentEnd(t, p);
    if q >= |t| then Overrun
    else if MapDirective(t[q]) then ParseLine(PutComment(r, Decls, p, q), Decls, Plain(COMMENT))
    else if t[q].kind == Dotted then
      if LineDirective(t[q]) then ParseLine(PutComment(r, Decls, p, q), Decls, Plain(DOT))
      else ParseHeader(r, p, q)
    else
      var r1, e := PutComment(r, Fns, p, q), StrangeEnd(t, q);
      r1.(log := r1.log + (if q < e then [Drop(q, e)] else []), pos := e)
  }
}
