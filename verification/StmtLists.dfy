/** Lists of statements in memory, as nvptx-as links them: put together from the back,
    turned around in place, and written from the front. */
module StmtLists {
  import opened Common
  import opened Tokenizer
  import opened Statements
  import opened ParserSpec

  /** A statement in a list; a node never moves to the list of another owner. */
  class StmtNode {
    const stmt: Stmt
    ghost const owner: Dest
    var next: StmtNode?

    constructor (stmt: Stmt, ghost owner: Dest, next: StmtNode?)
      ensures this.stmt == stmt && this.owner == owner && this.next == next
    {
      this.stmt, this.owner, this.next := stmt, owner, next;
    }
  }

  /** The nodes, and no others, are linked in this order from `head`. */
  ghost predicate Chain(head: StmtNode?, nodes: seq<StmtNode>)
    reads nodes`next
  {
    && Distinct(nodes) && head == (if nodes == [] then null else nodes[0])
    && forall i {:trigger nodes[i].next} :: 0 <= i < |nodes| ==>
      nodes[i].next == if i == |nodes| - 1 then null else nodes[i + 1]
  }

  ghost function Contents(nodes: seq<StmtNode>): (stmts: seq<Stmt>)
    ensures |stmts| == |nodes| && forall i :: 0 <= i < |nodes| ==> stmts[i] == nodes[i].stmt
  {
    seq(|nodes|, i requires 0 <= i < |nodes| => nodes[i].stmt)
  }

  function Reverse<T>(s: seq<T>): (r: seq<T>)
    ensures |r| == |s| && forall i :: 0 <= i < |s| ==> r[i] == s[|s| - 1 - i]
  {
    if s == [] then [] else Reverse(s[1..]) + [s[0]]
  }

  /** The list of an owner: it holds the statements, last first. */
  ghost predicate Held(head: StmtNode?, nodes: seq<StmtNode>, owner: Dest, stmts: seq<Stmt>)
    reads nodes`next
  {
    Chain(head, nodes) && Contents(nodes) == Reverse(stmts) && forall n :: n in nodes ==> n.owner == owner
  }

  lemma NoneHeld(owner: Dest)
    ensures Held(null, [], owner, [])
  {
  }

  lemma ReverseMore<T>(s: seq<T>, x: T)
    ensures Reverse(s + [x]) == [x] + Reverse(s)
  {
  }

  lemma ReverseTwice<T>(s: seq<T>)
    ensures Reverse(Reverse(s)) == s
  {
  }

  /** Puts a statement at the front of a list. */
  method AppendStmt(head: StmtNode?, stmt: Stmt, ghost nodes: seq<StmtNode>, ghost owner: Dest, ghost stmts: seq<Stmt>)
    returns (node: StmtNode)
    requires Held(head, nodes, owner, stmts)
    ensures fresh(node) && Held(node, [node] + nodes, owner, stmts + [stmt])
  {
    node := new StmtNode(stmt, owner, head);
    ReverseMore(stmts, stmt);
    assert Contents([node] + nodes) == [stmt] + Contents(nodes);
  }

  /** Turns a list around by relinking its nodes. */
  method RevStmts(head: StmtNode?, ghost nodes: seq<StmtNode>) returns (prev: StmtNode?)
    requires Chain(head, nodes)
    modifies nodes`next
    ensures Chain(prev, Reverse(nodes))
  {
    prev := null;
    var stmt := head;
    ghost var k := 0;
    while stmt != null
      invariant k <= |nodes| && stmt == (if k < |nodes| then nodes[k] else null)
      invariant prev == if k == 0 then null else nodes[k - 1]
      invariant forall i {:trigger nodes[i].next} :: k <= i < |nodes| ==>
        nodes[i].next == if i == |nodes| - 1 then null else nodes[i + 1]
      invariant forall i {:trigger nodes[i].next} :: 0 <= i < k ==> nodes[i].next == if i == 0 then null
        else nodes[i - 1]
      decreases |nodes| - k
    {
      var next := stmt.next;
      stmt.next := prev;
      prev := stmt;
      stmt := next;
      k := k + 1;
    }
  }

  /** Writes the statements of a list. */
  method WriteStmts(out: string, toks: seq<Token>, head: StmtNode?, ghost nodes: seq<StmtNode>) returns (out': string)
    requires Chain(head, nodes) && InTokens(toks, Contents(nodes)) && QuotedStrings(toks)
    ensures out' == out + StmtsText(toks, Contents(nodes))
  {
    hide StmtText;
    ghost var ss := Contents(nodes);
    out' := out;
    var stmt := head;
    ghost var k := 0;
    while stmt != null
      invariant k <= |nodes| && stmt == (if k < |nodes| then nodes[k] else null)
      invariant out' == out + StmtsText(toks, ss[..k])
      decreases |nodes| - k
    {
      assert ss[..k + 1][..k] == ss[..k] && stmt.stmt == ss[k];
      AppendAssociates(out, StmtsText(toks, ss[..k]), StmtText(toks, ss[k]));
      out' := WriteStmt(out', toks, stmt.stmt);
      assert nodes[k].next == if k == |nodes| - 1 then null else nodes[k + 1];
      stmt, k := stmt.next, k + 1;
    }
    assert ss[..k] == ss;
  }
}
