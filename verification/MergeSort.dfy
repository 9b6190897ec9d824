/** The in-place merge sort of include/doubly-linked-list.h. */
module MergeSort {
  import opened Common
  import opened DoublyLinkedList

  type Compare<!T> = (T, T) -> int

  predicate Le<T>(cmp: Compare<T>, a: T, b: T) {
    cmp(a, b) <= 0
  }

  /** A comparison function that orders its arguments, ties allowed. */
  ghost predicate TotalPreorder<T(!new)>(cmp: Compare<T>) {
    && (forall a, b :: Le(cmp, a, b) || Le(cmp, b, a))
    && (forall a, b, c :: Le(cmp, a, b) && Le(cmp, b, c) ==> Le(cmp, a, c))
  }

  /** What merging and sorting do to the represented sequence. */
  ghost function Merged<T>(l: seq<Node<T>>, r: seq<Node<T>>, cmp: Compare<T>): seq<Node<T>> {
    if l == [] then r
    else if r == [] then l
    else if Le(cmp, l[0].value, r[0].value) then [l[0]] + Merged(l[1..], r, cmp)
    else [r[0]] + Merged(l, r[1..], cmp)
  }

  ghost function Sorted<T>(s: seq<Node<T>>, cmp: Compare<T>): seq<Node<T>>
    decreases |s|
  {
    if |s| <= 1 then s
    else
      var m := (|s| - 1) / 2 + 1;
      Merged(Sorted(s[..m], cmp), Sorted(s[m..], cmp), cmp)
  }

  /** The middle of a list: the hare runs twice as fast as the turtle. */
  method ComputeTurtle<T>(node: Node?<T>, ghost s: seq<Node<T>>) returns (turtle: Node?<T>)
    requires NextChain(s) && node == At(s, 0)
    ensures turtle == if s == [] then null else s[(|s| - 1) / 2]
  {
    if node == null {
      return node;
    }
    turtle := node;
    var hare := node.next;
    ghost var k := 0;
    while hare != null && hare.next != null
      invariant 2 * k < |s| && turtle == s[k] && hare == At(s, 2 * k + 1)
      decreases |s| - k
    {
      turtle := turtle.next;
      hare := hare.next.next;
      k := k + 1;
    }
  }

  /** The output so far: every link is set but the last node's `next`. */
  ghost predicate OpenChain<T>(o: seq<Node<T>>)
    reads o
  {
    && PrevChain(o)
    && forall i {:trigger o[i].next} :: 0 <= i < |o| - 1 ==> o[i].next == o[i + 1]
  }

  ghost predicate Apart<T>(s: seq<Node<T>>, t: seq<Node<T>>) {
    forall x :: x in s ==> x !in t
  }

  /** The output and the two inputs share no node, and all come from `pool`. */
  ghost predicate Separate<T>(o: seq<Node<T>>, l: seq<Node<T>>, r: seq<Node<T>>, pool: set<Node<T>>) {
    && Distinct(o) && Distinct(l) && Distinct(r)
    && Apart(o, l) && Apart(o, r) && Apart(l, r)
    && (forall x :: x in o ==> x in pool) && (forall x :: x in l ==> x in pool) && (forall x :: x in r ==> x in pool)
  }

  lemma MoveHead<T>(o: seq<Node<T>>, l: seq<Node<T>>, r: seq<Node<T>>, pool: set<Node<T>>)
    requires Separate(o, l, r, pool) && l != []
    ensures Separate(o + [l[0]], l[1..], r, pool)
  {
    assert l[0] in l && forall x :: x in l[1..] ==> x in l;
  }

  lemma SeparateSwap<T>(o: seq<Node<T>>, l: seq<Node<T>>, r: seq<Node<T>>, pool: set<Node<T>>)
    requires Separate(o, l, r, pool)
    ensures Separate(o, r, l, pool)
  {
  }

  /** The state of a merge: `o` is output, `l` and `r` remain. */
  ghost predicate Merging<T>(o: seq<Node<T>>, l: seq<Node<T>>, r: seq<Node<T>>, pool: set<Node<T>>)
    reads pool
  {
    Separate(o, l, r, pool) && OpenChain(o) && NextChain(l) && NextChain(r)
  }

  ghost predicate Untouched<T>(s: seq<Node<T>>, n: Node<T>, m: Node?<T>) {
    forall i {:trigger s[i]} :: 0 <= i < |s| ==> s[i] != n && s[i] != m
  }

  /** Appends `n`, the head of `l`, to the output and returns the node that
      followed it. */
  method OutAppend<T>(lOut: Node?<T>, lLast: Node?<T>, n: Node<T>,
                      ghost o: seq<Node<T>>, ghost l: seq<Node<T>>, ghost r: seq<Node<T>>, ghost pool: set<Node<T>>)
    returns (lOut': Node<T>, lLast': Node<T>, following: Node?<T>)
    requires Merging(o, l, r, pool) && l != [] && n == l[0]
    requires lOut == At(o, 0) && lLast == At(o, |o| - 1)
    modifies pool
    ensures Merging(o + [n], l[1..], r, pool)
    ensures lOut' == (o + [n])[0] && lLast' == n && following == At(l[1..], 0)
    ensures l[1..] == [] ==> NextChain(o + [n])
  {
    MoveHead(o, l, r, pool);
    assert n in l && n in o + [n] && (lLast != null ==> lLast in o + [n] && lLast != n);
    assert Untouched(l[1..], n, lLast) && Untouched(r, n, lLast) && Untouched(o, n, null);
    if lLast == null {
      lLast' := n;
      lOut' := n;
      n.prev := null;
    } else {
      lOut' := lOut;
      lLast.next := n;
      n.prev := lLast;
      lLast' := n;
    }
    return lOut', lLast', n.next;
  }

  lemma MergedStep<T>(o: seq<Node<T>>, l: seq<Node<T>>, r: seq<Node<T>>, cmp: Compare<T>)
    requires l != [] && r != []
    ensures Le(cmp, l[0].value, r[0].value) ==> o + Merged(l, r, cmp) == o + [l[0]] + Merged(l[1..], r, cmp)
    ensures !Le(cmp, l[0].value, r[0].value) ==> o + Merged(l, r, cmp) == o + [r[0]] + Merged(l, r[1..], cmp)
  {
  }

  /** The last loop of a merge: what remains of one input follows the output. */
  method AppendRemaining<T>(first: Node?<T>, last: Node?<T>, remaining: Node?<T>,
                            ghost o: seq<Node<T>>, ghost rest: seq<Node<T>>, ghost pool: set<Node<T>>)
    returns (lOut: Node?<T>)
    requires Merging(o, rest, [], pool) && (rest == [] ==> NextChain(o))
    requires first == At(o, 0) && last == At(o, |o| - 1) && remaining == At(rest, 0)
    modifies pool
    ensures Linked(o + rest) && lOut == At(o + rest, 0)
  {
    hide Linked, Distinct, NextChain, PrevChain, OpenChain, Separate, Apart, Merging;
    lOut := first;
    var lLast, lRemaining := last, remaining;
    ghost var out, left := o, rest;
    while lRemaining != null
      invariant Merging(out, left, [], pool) && (left == [] ==> NextChain(out))
      invariant lOut == At(out, 0) && lLast == At(out, |out| - 1) && lRemaining == At(left, 0)
      invariant out + left == o + rest
      decreases |left|
    {
      lOut, lLast, lRemaining := OutAppend(lOut, lLast, lRemaining, out, left, [], pool);
      assert out + left == out + [left[0]] + left[1..];
      out, left := out + [left[0]], left[1..];
    }
    MergingEnd(out, pool);
    assert out == o + rest;
  }

  /** Merges two sorted lists by relinking. */
  method Merge<T>(lLeft: Node?<T>, lRight: Node?<T>, cmp: Compare<T>, ghost left: seq<Node<T>>,
      ghost right: seq<Node<T>>)
    returns (lOut: Node?<T>, ghost o: seq<Node<T>>)
    requires Linked(left) && Linked(right) && Apart(left, right)
    requires lLeft == At(left, 0) && lRight == At(right, 0)
    modifies left, right
    ensures o == Merged(left, right, cmp)
    ensures Linked(o) && lOut == At(o, 0)
  {
    if lLeft == null {
      return lRight, right;
    } else if lRight == null {
      return lLeft, left;
    }
    lOut := null;
    var lLast: Node?<T> := null;
    var lL, lR := lLeft, lRight;
    ghost var l, r, pool := left, right, (set x | x in left) + (set x | x in right);
    o := [];
    assert Merging(o, l, r, pool);
    hide Linked, Distinct, NextChain, PrevChain, OpenChain, Separate, Apart, Merging, Merged, Le;
    while lL != null && lR != null
      invariant Merging(o, l, r, pool) && (l != [] || r != [])
      invariant lOut == At(o, 0) && lLast == At(o, |o| - 1) && lL == At(l, 0) && lR == At(r, 0)
      invariant o + Merged(l, r, cmp) == Merged(left, right, cmp)
      decreases |l| + |r|
    {
      MergedStep(o, l, r, cmp);
      if Le(cmp, lL.value, lR.value) {
        lOut, lLast, lL := OutAppend(lOut, lLast, lL, o, l, r, pool);
        o, l := o + [l[0]], l[1..];
      } else {
        MergingSwap(o, l, r, pool);
        lOut, lLast, lR := OutAppend(lOut, lLast, lR, o, r, l, pool);
        o, r := o + [r[0]], r[1..];
        MergingSwap(o, r, l, pool);
      }
    }
    MergedEnd(l, r, cmp);
    if l == [] {
      MergingSwap(o, l, r, pool);
    }
    var lRemaining := if lL != null then lL else lR;
    lOut := AppendRemaining(lOut, lLast, lRemaining, o, if lL != null then l else r, pool);
    o := o + if lL != null then l else r;
  }

  lemma MergingSwap<T>(o: seq<Node<T>>, l: seq<Node<T>>, r: seq<Node<T>>, pool: set<Node<T>>)
    requires Merging(o, l, r, pool)
    ensures Merging(o, r, l, pool)
  {
    SeparateSwap(o, l, r, pool);
  }

  lemma MergingEnd<T>(o: seq<Node<T>>, pool: set<Node<T>>)
    requires Merging(o, [], [], pool) && NextChain(o)
    ensures Linked(o)
  {
  }

  lemma MergedEnd<T>(l: seq<Node<T>>, r: seq<Node<T>>, cmp: Compare<T>)
    ensures l == [] ==> Merged(l, r, cmp) == r
    ensures r == [] ==> Merged(l, r, cmp) == l
  {
  }

  /** Sorts the list starting at `node`; `s` is the list it stands for. */
  method MergeSort_<T>(node: Node?<T>, cmp: Compare<T>, ghost s: seq<Node<T>>)
    returns (first: Node?<T>, ghost t: seq<Node<T>>)
    requires Linked(s) && node == At(s, 0)
    modifies s
    ensures t == Sorted(s, cmp)
    ensures Linked(t) && first == At(t, 0)
    decreases |s|, 1
  {
    hide Sorted, Merged;
    SortedShort(s, cmp);
    if node == null {
      return null, s;
    } else if node.next == null {
      return node, s;
    }
    ghost var m := (|s| - 1) / 2 + 1;
    SortedHalves(s, cmp);
    var leftBegin := node;
    var rightBegin := BreakList(node, s, m);
    Halves(s, m);
    ghost var sl, sr;
    leftBegin, sl, rightBegin, sr := SortParts(leftBegin, rightBegin, cmp, s[..m], s[m..]);
    first, t := Merge(leftBegin, rightBegin, cmp, sl, sr);
  }

  /** Sorts two lists that share no node, in turn. */
  method SortParts<T>(left: Node<T>, right: Node<T>, cmp: Compare<T>, ghost l: seq<Node<T>>, ghost r: seq<Node<T>>)
    returns (left': Node?<T>, ghost sl: seq<Node<T>>, right': Node?<T>, ghost sr: seq<Node<T>>)
    requires Linked(l) && Linked(r) && Apart(l, r)
    requires l != [] && r != [] && left == l[0] && right == r[0]
    modifies l, r
    ensures sl == Sorted(l, cmp) && Linked(sl) && left' == At(sl, 0)
    ensures sr == Sorted(r, cmp) && Linked(sr) && right' == At(sr, 0)
    ensures (forall i :: 0 <= i < |sl| ==> sl[i] in l) && (forall i :: 0 <= i < |sr| ==> sr[i] in r)
    ensures Apart(sl, sr)
    decreases |l| + |r|, 0
  {
    hide Linked, Sorted, Merged;
    assert forall i :: 0 <= i < |r| ==> r[i] !in l;
    left', sl := MergeSort_(left, cmp, l);
    assert Linked(r);
    SortedMembers(l, cmp);
    assert forall i :: 0 <= i < |sl| ==> sl[i] in l && sl[i] !in r;
    right', sr := MergeSort_(right, cmp, r);
    assert Linked(sl);
    SortedMembers(r, cmp);
    assert forall i :: 0 <= i < |sr| ==> sr[i] in r;
  }

  /** Breaks a list after its middle node and returns the right part. */
  method BreakList<T>(node: Node<T>, ghost s: seq<Node<T>>, ghost m: nat) returns (rightBegin: Node<T>)
    requires Linked(s) && |s| > 1 && node == s[0] && m == (|s| - 1) / 2 + 1
    modifies s
    ensures Linked(s[..m]) && Linked(s[m..]) && rightBegin == s[m]
  {
    Halves(s, m);
    var leftEnd := ComputeTurtle(node, s);
    rightBegin := leftEnd.next;
    leftEnd.next := null;
    rightBegin.prev := null;
  }

  lemma Halves<T>(s: seq<Node<T>>, m: nat)
    requires Distinct(s) && m <= |s|
    ensures Distinct(s[..m]) && Distinct(s[m..]) && Apart(s[..m], s[m..])
    ensures forall x :: x in s[..m] || x in s[m..] <==> x in s
  {
    assert s == s[..m] + s[m..];
  }

  lemma SortedMembers<T>(s: seq<Node<T>>, cmp: Compare<T>)
    ensures forall x :: x in Sorted(s, cmp) <==> x in s
  {
    SortedContents(s, cmp);
    forall x ensures x in Sorted(s, cmp) <==> x in s {
      assert x in multiset(Sorted(s, cmp)) <==> x in multiset(s);
    }
  }

  lemma SortedShort<T>(s: seq<Node<T>>, cmp: Compare<T>)
    ensures |s| <= 1 ==> Sorted(s, cmp) == s
  {
  }

  lemma SortedHalves<T>(s: seq<Node<T>>, cmp: Compare<T>)
    requires |s| > 1
    ensures var m := (|s| - 1) / 2 + 1;
            Sorted(s, cmp) == Merged(Sorted(s[..m], cmp), Sorted(s[m..], cmp), cmp)
  {
  }

  /** Sorts a wrapped list and sets the wrapper's ends. */
  method MergeSort<T>(wrapper: List<T>, cmp: Compare<T>)
    requires wrapper.Valid()
    modifies wrapper, wrapper.nodes
    ensures wrapper.Valid() && wrapper.nodes == Sorted(old(wrapper.nodes), cmp)
  {
    ghost var s := wrapper.nodes;
    ghost var t;
    wrapper.first, t := MergeSort_(wrapper.first, cmp, s);
    wrapper.nodes := t;
    SortedContents(s, cmp);
    if wrapper.first == null || wrapper.first.next == null {
      wrapper.last := wrapper.first;
    } else {
      FindLast(wrapper);
    }
  }

  /** Walks to the last node. */
  method FindLast<T>(wrapper: List<T>)
    requires NextChain(wrapper.nodes) && wrapper.nodes != [] && wrapper.first == wrapper.nodes[0]
    modifies wrapper`last
    ensures wrapper.last == wrapper.nodes[|wrapper.nodes| - 1]
  {
    var node := wrapper.first;
    ghost var k := 0;
    while node != null
      invariant k <= |wrapper.nodes| && node == At(wrapper.nodes, k)
      invariant k > 0 ==> wrapper.last == wrapper.nodes[k - 1]
      decreases |wrapper.nodes| - k
    {
      wrapper.last := node;
      node := node.next;
      k := k + 1;
    }
  }

  lemma {:induction false} MergedContents<T>(l: seq<Node<T>>, r: seq<Node<T>>, cmp: Compare<T>)
    ensures multiset(Merged(l, r, cmp)) == multiset(l) + multiset(r)
    ensures |Merged(l, r, cmp)| == |l| + |r|
    decreases |l| + |r|
  {
    hide Le;
    if l != [] && r != [] {
      assert l == [l[0]] + l[1..] && r == [r[0]] + r[1..];
      if Le(cmp, l[0].value, r[0].value) {
        MergedContents(l[1..], r, cmp);
      } else {
        MergedContents(l, r[1..], cmp);
      }
    }
  }

  /** Sorting keeps the nodes. */
  lemma {:induction false} SortedContents<T>(s: seq<Node<T>>, cmp: Compare<T>)
    ensures multiset(Sorted(s, cmp)) == multiset(s) && |Sorted(s, cmp)| == |s|
    decreases |s|
  {
    hide Sorted, Merged;
    SortedShort(s, cmp);
    if |s| > 1 {
      var m := (|s| - 1) / 2 + 1;
      SortedHalves(s, cmp);
      SortedContents(s[..m], cmp);
      SortedContents(s[m..], cmp);
      MergedContents(Sorted(s[..m], cmp), Sorted(s[m..], cmp), cmp);
      SplitContents(s, m);
    }
  }

  lemma SplitContents<T>(s: seq<Node<T>>, m: nat)
    requires m <= |s|
    ensures multiset(s[..m]) + multiset(s[m..]) == multiset(s)
  {
    assert s == s[..m] + s[m..];
  }

  ghost predicate Ascending<T>(s: seq<Node<T>>, cmp: Compare<T>) {
    forall i, j :: 0 <= i < j < |s| ==> Le(cmp, s[i].value, s[j].value)
  }

  /** `a` is below every node of `s`. */
  ghost predicate Bound<T>(a: Node<T>, s: seq<Node<T>>, cmp: Compare<T>) {
    forall x :: x in s ==> Le(cmp, a.value, x.value)
  }

  lemma {:induction false} MergedBound<T>(a: Node<T>, l: seq<Node<T>>, r: seq<Node<T>>, cmp: Compare<T>)
    requires Bound(a, l, cmp) && Bound(a, r, cmp)
    ensures Bound(a, Merged(l, r, cmp), cmp)
  {
    MergedContents(l, r, cmp);
    forall x | x in Merged(l, r, cmp) ensures Le(cmp, a.value, x.value) {
      assert x in multiset(Merged(l, r, cmp));
      assert x in l || x in r;
    }
  }

  lemma {:induction false} MergedAscending<T(!new)>(l: seq<Node<T>>, r: seq<Node<T>>, cmp: Compare<T>)
    requires TotalPreorder(cmp) && Ascending(l, cmp) && Ascending(r, cmp)
    ensures Ascending(Merged(l, r, cmp), cmp)
    decreases |l| + |r|
  {
    if l != [] && r != [] {
      if Le(cmp, l[0].value, r[0].value) {
        MergedAscending(l[1..], r, cmp);
        MergedBound(l[0], l[1..], r, cmp);
        ConsAscending(l[0], Merged(l[1..], r, cmp), cmp);
      } else {
        MergedAscending(l, r[1..], cmp);
        MergedBound(r[0], l, r[1..], cmp);
        ConsAscending(r[0], Merged(l, r[1..], cmp), cmp);
      }
    }
  }

  lemma ConsAscending<T>(a: Node<T>, s: seq<Node<T>>, cmp: Compare<T>)
    requires Bound(a, s, cmp) && Ascending(s, cmp)
    ensures Ascending([a] + s, cmp)
  {
  }

  /** The nodes of `s` tied with `x`, in order. */
  ghost function Ties<T>(x: T, s: seq<Node<T>>, cmp: Compare<T>): seq<Node<T>> {
    if s == [] then []
    else (if Tied(x, s[0].value, cmp) then [s[0]] else []) + Ties(x, s[1..], cmp)
  }

  predicate Tied<T>(a: T, b: T, cmp: Compare<T>) {
    Le(cmp, a, b) && Le(cmp, b, a)
  }

  lemma {:induction false} TiesAppend<T>(x: T, s: seq<Node<T>>, t: seq<Node<T>>, cmp: Compare<T>)
    ensures Ties(x, s + t, cmp) == Ties(x, s, cmp) + Ties(x, t, cmp)
  {
    hide Ties, Tied;
    AppendTail(s, t);
    TiesHead(x, s, cmp);
    if s == [] {
      AppendTail(Ties(x, s, cmp), Ties(x, t, cmp));
    } else {
      TiesAppend(x, s[1..], t, cmp);
      TiesHead(x, s + t, cmp);
      AppendAssociates(if Tied(x, s[0].value, cmp) then [s[0]] else [], Ties(x, s[1..], cmp), Ties(x, t, cmp));
    }
  }

  lemma TiesHead<T>(x: T, s: seq<Node<T>>, cmp: Compare<T>)
    ensures Ties(x, s, cmp) ==
      if s == [] then [] else (if Tied(x, s[0].value, cmp) then [s[0]] else []) + Ties(x, s[1..], cmp)
  {
  }

  /** A sorted list whose head is above `x` has no node tied with `x`. */
  lemma {:induction false} NoTies<T(!new)>(x: T, s: seq<Node<T>>, cmp: Compare<T>)
    requires TotalPreorder(cmp) && Ascending(s, cmp) && (s != [] ==> !Le(cmp, s[0].value, x))
    ensures Ties(x, s, cmp) == []
  {
    if |s| > 1 {
      assert Le(cmp, s[0].value, s[1].value);
      NoTies(x, s[1..], cmp);
    }
  }

  lemma {:induction false} MergedTies<T(!new)>(x: T, l: seq<Node<T>>, r: seq<Node<T>>, cmp: Compare<T>)
    requires TotalPreorder(cmp) && Ascending(l, cmp) && Ascending(r, cmp)
    ensures Ties(x, Merged(l, r, cmp), cmp) == Ties(x, l, cmp) + Ties(x, r, cmp)
    decreases |l| + |r|
  {
    if l != [] && r != [] {
      if Le(cmp, l[0].value, r[0].value) {
        MergedTies(x, l[1..], r, cmp);
        assert Merged(l, r, cmp)[1..] == Merged(l[1..], r, cmp);
      } else {
        MergedTies(x, l, r[1..], cmp);
        assert Merged(l, r, cmp)[1..] == Merged(l, r[1..], cmp);
        if Tied(x, r[0].value, cmp) {
          NoTies(x, l, cmp);
        }
      }
    }
  }

  lemma {:induction false} SortedAscending<T(!new)>(s: seq<Node<T>>, cmp: Compare<T>)
    requires TotalPreorder(cmp)
    ensures Ascending(Sorted(s, cmp), cmp)
    decreases |s|
  {
    if |s| > 1 {
      var m := (|s| - 1) / 2 + 1;
      SortedAscending(s[..m], cmp);
      SortedAscending(s[m..], cmp);
      MergedAscending(Sorted(s[..m], cmp), Sorted(s[m..], cmp), cmp);
    }
  }

  lemma {:induction false} SortedTies<T(!new)>(x: T, s: seq<Node<T>>, cmp: Compare<T>)
    requires TotalPreorder(cmp)
    ensures Ties(x, Sorted(s, cmp), cmp) == Ties(x, s, cmp)
    decreases |s|
  {
    hide Ties, TotalPreorder, Merged;
    if |s| > 1 {
      var m := (|s| - 1) / 2 + 1;
      SortedAscending(s[..m], cmp);
      SortedAscending(s[m..], cmp);
      SortedTies(x, s[..m], cmp);
      SortedTies(x, s[m..], cmp);
      MergedTies(x, Sorted(s[..m], cmp), Sorted(s[m..], cmp), cmp);
      TiesAppend(x, s[..m], s[m..], cmp);
      assert s == s[..m] + s[m..];
    }
  }

  /** For every list and every comparison that is a total preorder, the sorted
      list ascends, is a permutation of the same nodes and keeps tied nodes in
      their order. */
  lemma SortCorrect<T(!new)>(s: seq<Node<T>>, cmp: Compare<T>)
    requires TotalPreorder(cmp)
    ensures Ascending(Sorted(s, cmp), cmp)
    ensures multiset(Sorted(s, cmp)) == multiset(s)
    ensures forall x :: Ties(x, Sorted(s, cmp), cmp) == Ties(x, s, cmp)
  {
    SortedContents(s, cmp);
    SortedAscending(s, cmp);
    forall x ensures Ties(x, Sorted(s, cmp), cmp) == Ties(x, s, cmp) {
      SortedTies(x, s, cmp);
    }
  }
}
