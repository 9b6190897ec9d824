/** The doubly linked lists of include/doubly-linked-list.h, with the node and
    wrapper types its macros are instantiated at. */
module DoublyLinkedList {
  import opened Common

  const SIZE_LIMIT := 0x1_0000_0000

  class Node<T> {
    const value: T
    var prev: Node?<T>
    var next: Node?<T>

    constructor (value: T)
      ensures this.value == value && prev == null && next == null
    {
      this.value := value;
      prev, next := null, null;
    }
  }

  ghost function At<T>(s: seq<Node<T>>, i: int): Node?<T> {
    if 0 <= i < |s| then s[i] else null
  }

  ghost predicate NextChain<T>(s: seq<Node<T>>)
    reads s`next
  {
    forall i {:trigger s[i].next} :: 0 <= i < |s| ==> s[i].next == if i == |s| - 1 then null else s[i + 1]
  }

  ghost predicate PrevChain<T>(s: seq<Node<T>>)
    reads s`prev
  {
    forall i {:trigger s[i].prev} :: 0 <= i < |s| ==> s[i].prev == if i == 0 then null else s[i - 1]
  }

  /** The nodes of `s`, and no others, are chained in this order both ways, with
      null at the ends. */
  ghost predicate Linked<T>(s: seq<Node<T>>)
    reads s
  {
    Distinct(s) && NextChain(s) && PrevChain(s)
  }

  lemma DistinctRemove<T>(s: seq<Node<T>>, k: nat)
    requires Distinct(s) && k < |s|
    ensures Distinct(s[..k] + s[k + 1..]) && s[k] !in s[..k] + s[k + 1..]
  {
  }

  lemma DistinctInsert<T>(s: seq<Node<T>>, n: Node<T>, k: nat)
    requires Distinct(s) && n !in s && k <= |s|
    ensures Distinct(s[..k] + [n] + s[k..])
  {
  }

  lemma DistinctSwap<T>(s: seq<Node<T>>, i: nat, j: nat)
    requires Distinct(s) && i < |s| && j < |s|
    ensures Distinct(s[i := s[j]][j := s[i]])
  {
  }

  lemma LinkedIs<T>(s: seq<Node<T>>)
    ensures Linked(s) <==> Distinct(s) && NextChain(s) && PrevChain(s)
  {
  }

  lemma LinksAt<T>(s: seq<Node<T>>, k: nat)
    requires Linked(s) && k < |s|
    ensures s[k].prev == At(s, k - 1) && s[k].next == At(s, k + 1)
  {
  }

  lemma OneLinked<T>(n: Node<T>)
    requires n.prev == null && n.next == null
    ensures Linked([n])
  {
  }

  lemma NothingLinked<T>()
    ensures Linked<T>([])
  {
  }

  /** The size counts modulo the word. */
  lemma SizeSteps(n: nat)
    ensures (n % SIZE_LIMIT + 1) % SIZE_LIMIT == (n + 1) % SIZE_LIMIT
    ensures n > 0 ==> (n % SIZE_LIMIT - 1) % SIZE_LIMIT == (n - 1) % SIZE_LIMIT
  {
  }

  /** The ends of a list with a node inserted at `k`. */
  lemma InsertedEnds<T>(s: seq<Node<T>>, n: Node<T>, k: nat)
    requires k <= |s|
    ensures var r := s[..k] + [n] + s[k..];
            |r| == |s| + 1 && (0 < k < |s| ==> At(r, 0) == At(s, 0) && At(r, |r| - 1) == At(s, |s| - 1))
    ensures s[..0] + [n] + s[0..] == [n] + s && s[..|s|] + [n] + s[|s|..] == s + [n]
  {
  }

  /** The ends of a list without its node at `k`. */
  lemma EndsWithout<T>(s: seq<Node<T>>, k: nat)
    requires 0 < k < |s|
    ensures var r := s[..k] + s[k + 1..];
            |r| == |s| - 1 && At(r, 0) == At(s, 0) && At(r, |r| - 1) == if k == |s| - 1 then s[k - 1]
              else At(s, |s| - 1)
    ensures k == |s| - 1 ==> s[..k] + s[k + 1..] == s[..k]
  {
  }

  /** The wrapper; `nodes` is the list it stands for. */
  class List<T> {
    var first: Node?<T>
    var last: Node?<T>
    var size: nat
    ghost var nodes: seq<Node<T>>

    ghost predicate Valid()
      reads this, nodes
    {
      && Linked(nodes)
      && first == At(nodes, 0)
      && last == At(nodes, |nodes| - 1)
      && size == |nodes| % SIZE_LIMIT
    }

    constructor ()
      ensures Valid() && nodes == []
    {
      first, last, size := null, null, 0;
      nodes := [];
    }

    method Append(n: Node<T>)
      requires Valid() && n !in nodes && n.prev == null && n.next == null
      modifies this, n, nodes
      ensures Valid() && nodes == old(nodes) + [n]
    {
      hide Linked;
      if last == null {
        first := n;
        OneLinked(n);
        assert nodes + [n] == [n];
      } else {
        LinkLast(n);
      }
      last := n;
      size := (size + 1) % SIZE_LIMIT;
      nodes := nodes + [n];
    }

    /** The relinking of `Append`. */
    method LinkLast(n: Node<T>)
      requires Linked(nodes) && nodes != [] && last == nodes[|nodes| - 1] && n !in nodes && n.next == null
      modifies n`prev, nodes`next
      ensures Linked(nodes + [n])
    {
      DistinctInsert(nodes, n, |nodes|);
      assert nodes[..|nodes|] + [n] + nodes[|nodes|..] == nodes + [n];
      n.prev := last;
      last.next := n;
    }

    method Prepend(n: Node<T>)
      requires Valid() && n !in nodes && n.prev == null && n.next == null
      modifies this, n, nodes
      ensures Valid() && nodes == [n] + old(nodes)
    {
      hide Linked;
      if first == null {
        last := n;
        OneLinked(n);
        assert [n] + nodes == [n];
      } else {
        LinkFirst(n);
      }
      first := n;
      size := (size + 1) % SIZE_LIMIT;
      nodes := [n] + nodes;
    }

    /** The relinking of `Prepend`. */
    method LinkFirst(n: Node<T>)
      requires Linked(nodes) && nodes != [] && first == nodes[0] && n !in nodes && n.prev == null
      modifies n`next, nodes`prev
      ensures Linked([n] + nodes)
    {
      DistinctInsert(nodes, n, 0);
      assert nodes[..0] + [n] + nodes[0..] == [n] + nodes;
      n.next := first;
      first.prev := n;
    }

    /** Inserts before the node at position `k`; `where == null` is the position
        after the last node. Only at an end the new node's links have to be null. */
    method InsertBefore(n: Node<T>, where: Node?<T>, ghost k: nat)
      requires Valid() && n !in nodes && k <= |nodes| && where == At(nodes, k)
      requires k == 0 || k == |nodes| ==> n.prev == null && n.next == null
      modifies this, n, nodes
      ensures Valid() && nodes == old(nodes)[..k] + [n] + old(nodes)[k..]
    {
      hide Linked;
      FirstPosition(k);
      InsertedEnds(nodes, n, k);
      SizeSteps(|nodes|);
      if where == first {
        Prepend(n);
      } else if where == null {
        Append(n);
      } else {
        InsertBetween(n, where, k);
        size := (size + 1) % SIZE_LIMIT;
        nodes := nodes[..k] + [n] + nodes[k..];
      }
    }

    /** Only position 0 holds the first node. */
    lemma FirstPosition(k: nat)
      requires Valid() && k <= |nodes|
      ensures At(nodes, k) == first <==> k == 0
    {
      hide NextChain, PrevChain;
    }

    /** The relinking of an insertion that is not at an end. */
    method InsertBetween(n: Node<T>, where: Node<T>, ghost k: nat)
      requires Valid() && n !in nodes && 0 < k < |nodes| && where == nodes[k]
      modifies n, nodes
      ensures Linked(nodes[..k] + [n] + nodes[k..])
    {
      DistinctInsert(nodes, n, k);
      where.prev.next := n;
      n.prev := where.prev;
      where.prev := n;
      n.next := where;
    }

    method PopFront() returns (front: Node?<T>)
      requires Valid()
      modifies this, nodes
      ensures Valid() && front == At(old(nodes), 0)
      ensures nodes == if front == null then [] else old(nodes)[1..]
      ensures front != null ==> front.prev == null && front.next == null
    {
      hide Linked;
      front := first;
      if front != null {
        FirstLinks();
        SizeSteps(|nodes|);
        first := front.next;
        if last == front {
          last := null;
          NothingLinked<T>();
        } else {
          UnlinkFirst(front);
        }
        front.next := null;
        size := (size - 1) % SIZE_LIMIT;
        nodes := nodes[1..];
      }
    }

    /** The links of the first and the last node. */
    lemma FirstLinks()
      requires Valid() && nodes != []
      ensures nodes[0].prev == null && nodes[0].next == At(nodes, 1)
      ensures nodes[|nodes| - 1].next == null && nodes[|nodes| - 1].prev == At(nodes, |nodes| - 2)
      ensures first == last <==> |nodes| == 1
      ensures nodes[0] !in nodes[1..] && nodes[|nodes| - 1] !in nodes[..|nodes| - 1]
    {
    }

    /** The relinking of `PopFront`. */
    method UnlinkFirst(front: Node<T>)
      requires Linked(nodes) && |nodes| > 1 && front == nodes[0]
      modifies nodes
      ensures Linked(nodes[1..]) && front.prev == null && front.next == null
    {
      front.next.prev := null;
      front.next := null;
    }

    method PopBack() returns (back: Node?<T>)
      requires Valid()
      modifies this, nodes
      ensures Valid() && back == At(old(nodes), |old(nodes)| - 1)
      ensures nodes == if back == null then [] else old(nodes)[..|old(nodes)| - 1]
      ensures back != null ==> back.prev == null && back.next == null
    {
      hide Linked;
      back := last;
      if back != null {
        FirstLinks();
        SizeSteps(|nodes|);
        if |nodes| > 1 { EndsWithout(nodes, |nodes| - 1); }
        last := back.prev;
        if first == back {
          first := null;
          NothingLinked<T>();
        } else {
          UnlinkLast(back);
        }
        back.prev := null;
        size := (size - 1) % SIZE_LIMIT;
        nodes := nodes[..|nodes| - 1];
      }
    }

    /** The relinking of `PopBack`. */
    method UnlinkLast(back: Node<T>)
      requires Linked(nodes) && |nodes| > 1 && back == nodes[|nodes| - 1]
      modifies nodes
      ensures Linked(nodes[..|nodes| - 1]) && back.prev == null && back.next == null
    {
      back.prev.next := null;
      back.prev := null;
    }

    /** Removes the node at position `k` and returns the one before it. */
    method Remove(n: Node<T>, ghost k: nat) returns (previous: Node?<T>)
      requires Valid() && k < |nodes| && n == nodes[k]
      modifies this, nodes
      ensures Valid() && nodes == old(nodes)[..k] + old(nodes)[k + 1..]
      ensures previous == At(old(nodes), k - 1)
      ensures n.prev == null && n.next == null
    {
      hide Linked;
      LinksAt(nodes, k);
      previous := null;
      if n.prev != null {
        EndsWithout(nodes, k);
        SizeSteps(|nodes|);
        previous := Unlink(n, k);
        size := (size - 1) % SIZE_LIMIT;
        nodes := nodes[..k] + nodes[k + 1..];
      } else {
        assert nodes[..0] + nodes[1..] == nodes[1..];
        var _ := PopFront();
      }
    }

    /** The relinking of a removal that is not at the front. */
    method Unlink(n: Node<T>, ghost k: nat) returns (previous: Node<T>)
      requires Valid() && 0 < k < |nodes| && n == nodes[k]
      modifies `last, nodes
      ensures Linked(nodes[..k] + nodes[k + 1..])
      ensures last == if k == |nodes| - 1 then nodes[k - 1] else old(last)
      ensures previous == nodes[k - 1] && n.prev == null && n.next == null
    {
      DistinctRemove(nodes, k);
      n.prev.next := n.next;
      if n.next == null {
        last := n.prev;
      } else {
        n.next.prev := n.prev;
      }
      previous := n.prev;
      n.next := null;
      n.prev := null;
    }

    /** Exchanges the nodes at positions `i` and `j`, in either order, adjacent,
        at the ends or the same. */
    method Swap(n1: Node<T>, n2: Node<T>, ghost i: nat, ghost j: nat)
      requires Valid() && i < |nodes| && j < |nodes| && n1 == nodes[i] && n2 == nodes[j]
      modifies this, nodes
      ensures Valid() && nodes == old(nodes)[i := n2][j := n1]
    {
      hide Linked;
      ghost var t := nodes[i := n2][j := n1];
      SwapLinks(n1, n2, i, j, t);
      nodes := t;
    }

    /** The relinking of an exchange. */
    method SwapLinks(n1: Node<T>, n2: Node<T>, ghost i: nat, ghost j: nat, ghost t: seq<Node<T>>)
      requires Linked(nodes) && i < |nodes| && j < |nodes| && n1 == nodes[i] && n2 == nodes[j]
      requires first == At(nodes, 0) && last == At(nodes, |nodes| - 1) && t == nodes[i := n2][j := n1]
      modifies `first, `last, nodes
      ensures Linked(t) && first == t[0] && last == t[|t| - 1]
    {
      hide Linked, Distinct, NextChain, PrevChain, AimedNext, AimedPrev;
      LinkedIs(nodes);
      LinksAt(nodes, i);
      LinksAt(nodes, j);
      var prev1, next1, prev2, next2 := n1.prev, n1.next, n2.prev, n2.next;
      AimPredecessors(prev1, prev2, n1, n2, i, j, t);
      AimSuccessors(next1, next2, n1, n2, i, j, t);
      ExchangeLinks(n1, n2, nodes, t, i, j);
    }

    /** What comes before one swapped node comes before the other. */
    method AimPredecessors(prev1: Node?<T>, prev2: Node?<T>, n1: Node<T>, n2: Node<T>, ghost i: nat, ghost j: nat,
        ghost t: seq<Node<T>>)
      requires Distinct(nodes) && NextChain(nodes) && first == At(nodes, 0)
      requires i < |nodes| && j < |nodes| && n1 == nodes[i] && n2 == nodes[j]
      requires prev1 == At(nodes, i - 1) && prev2 == At(nodes, j - 1) && t == nodes[i := n2][j := n1]
      modifies `first, nodes`next
      ensures AimedNext(nodes, t) && first == t[0]
    {
      if prev1 != null { prev1.next := n2; } else { first := n2; }
      if prev2 != null { prev2.next := n1; } else { first := n1; }
    }

    /** What comes after one swapped node comes after the other. */
    method AimSuccessors(next1: Node?<T>, next2: Node?<T>, n1: Node<T>, n2: Node<T>, ghost i: nat, ghost j: nat,
        ghost t: seq<Node<T>>)
      requires Distinct(nodes) && PrevChain(nodes) && last == At(nodes, |nodes| - 1)
      requires i < |nodes| && j < |nodes| && n1 == nodes[i] && n2 == nodes[j]
      requires next1 == At(nodes, i + 1) && next2 == At(nodes, j + 1) && t == nodes[i := n2][j := n1]
      modifies `last, nodes`prev
      ensures AimedPrev(nodes, t) && last == t[|t| - 1]
    {
      if next1 != null { next1.prev := n2; } else { last := n2; }
      if next2 != null { next2.prev := n1; } else { last := n1; }
    }
  }

  /** The `next` links of each position of `s` name what follows the same
      position of `t`. */
  ghost predicate AimedNext<T>(s: seq<Node<T>>, t: seq<Node<T>>)
    reads s`next
  {
    && |s| == |t|
    && (forall m {:trigger s[m].next} :: 0 <= m < |s| ==> s[m].next == if m == |s| - 1 then null else t[m + 1])
  }

  ghost predicate AimedPrev<T>(s: seq<Node<T>>, t: seq<Node<T>>)
    reads s`prev
  {
    && |s| == |t|
    && (forall m {:trigger s[m].prev} :: 0 <= m < |s| ==> s[m].prev == if m == 0 then null else t[m - 1])
  }

  /** Exchanges the outgoing links of two nodes, once their neighbours are
      relinked. */
  method ExchangeLinks<T>(n1: Node<T>, n2: Node<T>, ghost s: seq<Node<T>>, ghost t: seq<Node<T>>, ghost i: nat,
      ghost j: nat)
    requires Distinct(s) && i < |s| && j < |s| && n1 == s[i] && n2 == s[j] && t == s[i := n2][j := n1]
    requires AimedNext(s, t) && AimedPrev(s, t)
    modifies n1, n2
    ensures Linked(t)
  {
    DistinctSwap(s, i, j);
    var temp := n1.next;
    n1.next := n2.next;
    n2.next := temp;
    temp := n1.prev;
    n1.prev := n2.prev;
    n2.prev := temp;
  }

  /** Exchanges the contents of two wrappers. */
  method SwapLists<T>(left: List<T>, right: List<T>)
    requires left.Valid() && right.Valid()
    modifies left, right
    ensures left.Valid() && left.nodes == old(right.nodes)
    ensures right.Valid() && right.nodes == old(left.nodes)
  {
    hide Linked;
    var temp := left.first;
    left.first := right.first;
    right.first := temp;
    temp := left.last;
    left.last := right.last;
    right.last := temp;
    var size := left.size;
    left.size := right.size;
    right.size := size;
    ghost var nodes := left.nodes;
    left.nodes := right.nodes;
    right.nodes := nodes;
  }
}
