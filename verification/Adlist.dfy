/** The doubly linked list of adlist.c: nodes on the heap that refine a sequence. */
module Adlist {
  import opened Common

  class Node<V> {
    var prev: Node?<V>
    var next: Node?<V>
    const value: V

    constructor (value: V)
      ensures this.value == value && prev == null && next == null
    {
      this.value, prev, next := value, null, null;
    }
  }

  ghost function At<V>(ns: seq<Node<V>>, i: int): Node?<V> { if 0 <= i < |ns| then ns[i] else null }

  /** No node occurs twice. */
  ghost predicate Distinct<V>(ns: seq<Node<V>>) { forall i, j :: 0 <= i < j < |ns| ==> ns[i] != ns[j] }

  /** The i-th node points to its neighbours. */
  ghost predicate LinkAt<V>(ns: seq<Node<V>>, i: int)
    reads ns
  {
    0 <= i < |ns| ==> ns[i].prev == At(ns, i - 1) && ns[i].next == At(ns, i + 1)
  }

  ghost predicate Linked<V>(ns: seq<Node<V>>)
    reads ns
  {
    Distinct(ns) && forall i :: 0 <= i < |ns| ==> LinkAt(ns, i)
  }

  /** The end of listInsertNode: the neighbours of the new node are pointed at it. */
  method SpliceIn<V>(node: Node<V>, ghost ns: seq<Node<V>>, ghost j: nat)
    requires Linked(ns) && j <= |ns| && node !in ns && node.prev == At(ns, j - 1) && node.next == At(ns, j)
    modifies ns
    ensures Linked(ns[..j] + [node] + ns[j..])
  {
    if node.prev != null { node.prev.next := node; }
    if node.next != null { node.next.prev := node; }
    ghost var now := ns[..j] + [node] + ns[j..];
    forall i | 0 <= i < |now| ensures LinkAt(now, i) {
      if i < j {
        assert now[i] == ns[i];
        assert old(LinkAt(ns, i));
      } else if i > j {
        assert now[i] == ns[i - 1];
        assert old(LinkAt(ns, i - 1));
      }
    }
    DistinctInsert(ns, node, j);
  }

  lemma DistinctInsert<V>(ns: seq<Node<V>>, node: Node<V>, j: nat)
    requires Distinct(ns) && node !in ns && j <= |ns|
    ensures Distinct(ns[..j] + [node] + ns[j..])
  {}

  lemma DistinctConcat<V>(a: seq<Node<V>>, b: seq<Node<V>>)
    requires Distinct(a) && Distinct(b) && forall n :: n in a ==> n !in b
    ensures Distinct(a + b)
  {
    forall i, j | 0 <= i < j < |a + b| ensures (a + b)[i] != (a + b)[j] {
      if i < |a| <= j { assert a[i] in a && b[j - |a|] in b; }
    }
  }

  /** The neighbours of a node are pointed at each other; the node itself stays as it is. */
  method CutOut<V>(node: Node<V>, ghost ns: seq<Node<V>>, ghost k: nat)
    requires Linked(ns) && k < |ns| && ns[k] == node
    modifies ns
    ensures Linked(ns[..k] + ns[k + 1..]) && node.prev == old(node.prev) && node.next == old(node.next)
  {
    assert LinkAt(ns, k);
    if node.prev != null { node.prev.next := node.next; }
    if node.next != null { node.next.prev := node.prev; }
    ghost var now := ns[..k] + ns[k + 1..];
    forall i | 0 <= i < k ensures LinkAt(now, i) {
      assert now[i] == ns[i];
      assert old(LinkAt(ns, i));
    }
    forall i | k <= i < |now| ensures LinkAt(now, i) {
      assert now[i] == ns[i + 1];
      assert old(LinkAt(ns, i + 1));
    }
    DistinctDelete(ns, k);
  }

  lemma DistinctDelete<V>(ns: seq<Node<V>>, k: nat)
    requires Distinct(ns) && k < |ns|
    ensures Distinct(ns[..k] + ns[k + 1..])
  {}

  /** The last node of one list and the first of another are pointed at each other. */
  method LinkEnds<V>(last: Node?<V>, first: Node<V>, ghost a: seq<Node<V>>, ghost b: seq<Node<V>>)
    requires Linked(a) && Linked(b) && b != [] && last == At(a, |a| - 1) && first == b[0]
    requires forall n :: n in a ==> n !in b
    modifies a, b
    ensures Linked(a + b)
  {
    assert b[0] in b && (a != [] ==> a[|a| - 1] in a);
    first.prev := last;
    if last != null { last.next := first; }
    DistinctConcat(a, b);
    ghost var now := a + b;
    forall i | 0 <= i < |a| ensures LinkAt(now, i) {
      assert now[i] == a[i] && a[i] in a;
      assert old(LinkAt(a, i));
    }
    forall i | |a| <= i < |now| ensures LinkAt(now, i) {
      assert now[i] == b[i - |a|] && b[i - |a|] in b;
      assert old(LinkAt(b, i - |a|));
    }
  }

  lemma NoneLinked<V>()
    ensures Linked<V>([])
  {}

  ghost predicate Within<V>(ns: seq<Node<V>>, frame: set<Node<V>>) { forall i :: 0 <= i < |ns| ==> ns[i] in frame }

  lemma AllWithin<V>(ns: seq<Node<V>>)
    ensures Within(ns, set n | n in ns)
  {}

  lemma StillWithin<V>(ns: seq<Node<V>>, k: nat, frame: set<Node<V>>)
    requires Within(ns, frame) && k < |ns|
    ensures Within(ns[..k] + ns[k + 1..], frame)
  {}

  class List<V> {
    var head: Node?<V>
    var tail: Node?<V>
    var len: nat
    ghost var nodes: seq<Node<V>>

    ghost predicate Valid()
      reads this, nodes
    {
      len == |nodes| && head == At(nodes, 0) && tail == At(nodes, |nodes| - 1) && Linked(nodes)
    }

    /** listCreate. */
    constructor ()
      ensures Valid() && nodes == []
    {
      head, tail, len, nodes := null, null, 0, [];
    }

    /** listAddNodeHead. */
    method AddNodeHead(value: V)
      requires Valid()
      modifies this, nodes
      ensures Valid() && |nodes| > 0 && nodes == [nodes[0]] + old(nodes) && fresh(nodes[0]) && nodes[0].value == value
    {
      var node := new Node(value);
      if len == 0 {
        head, tail := node, node;
      } else {
        node.next := head;
        head.prev := node;
        head := node;
      }
      len := len + 1;
      ghost var was := nodes;
      nodes := [node] + was;
      forall i | 0 <= i < |nodes| ensures LinkAt(nodes, i) {
        if i > 0 {
          assert nodes[i] == was[i - 1];
          assert old(LinkAt(was, i - 1));
        }
      }
    }

    /** listAddNodeTail. */
    method AddNodeTail(value: V)
      requires Valid()
      modifies this, nodes
      ensures Valid() && |nodes| > 0 && fresh(nodes[|nodes| - 1]) && nodes[|nodes| - 1].value == value
      ensures nodes == old(nodes) + [nodes[|nodes| - 1]]
    {
      var node := new Node(value);
      if len == 0 {
        head, tail := node, node;
      } else {
        node.prev := tail;
        tail.next := node;
        tail := node;
      }
      len := len + 1;
      ghost var was := nodes;
      nodes := was + [node];
      forall i | 0 <= i < |nodes| ensures LinkAt(nodes, i) {
        if i < |was| {
          assert nodes[i] == was[i];
          assert old(LinkAt(was, i));
        }
      }
    }

    /** listInsertNode, at the k-th node. */
    method InsertNode(old_node: Node<V>, value: V, after: bool, ghost k: nat)
      requires Valid() && k < |nodes| && nodes[k] == old_node
      modifies this, nodes
      ensures Valid()
      ensures var j := if after then k + 1 else k;
              && |nodes| > j && fresh(nodes[j]) && nodes[j].value == value
              && nodes == old(nodes)[..j] + [nodes[j]] + old(nodes)[j..]
    {
      assert LinkAt(nodes, k);
      var node := new Node(value);
      if after {
        node.prev := old_node;
        node.next := old_node.next;
        if tail == old_node { tail := node; }
      } else {
        node.next := old_node;
        node.prev := old_node.prev;
        if head == old_node { head := node; }
      }
      ghost var j, was := if after then k + 1 else k, nodes;
      hide Linked, LinkAt;
      len := len + 1;
      nodes := was[..j] + [node] + was[j..];
      SpliceIn(node, was, j);
    }

    /** listDelNode, of the k-th node. Nodes outside of `frame`, which holds the list, are not touched. */
    method DelNode(node: Node<V>, ghost k: nat, ghost frame: set<Node<V>>)
      requires Valid() && k < |nodes| && nodes[k] == node && Within(nodes, frame)
      modifies this, frame
      ensures Valid() && nodes == old(nodes)[..k] + old(nodes)[k + 1..]
      ensures node.prev == old(node.prev) && node.next == old(node.next)
    {
      assert LinkAt(nodes, k);
      ghost var was := nodes;
      hide Linked;
      if node.prev == null { head := node.next; }
      if node.next == null { tail := node.prev; }
      len := len - 1;
      nodes := was[..k] + was[k + 1..];
      CutOut(node, was, k);
    }

    /** listRotateTailToHead. */
    method RotateTailToHead()
      requires Valid()
      modifies this, nodes
      ensures Valid()
      ensures var n := |old(nodes)|;
              nodes == if n <= 1 then old(nodes) else [old(nodes)[n - 1]] + old(nodes)[..n - 1]
    {
      if len <= 1 { return; }
      assert LinkAt(nodes, |nodes| - 1) && LinkAt(nodes, 0);
      var last := tail;
      tail := last.prev;
      tail.next := null;
      head.prev := last;
      last.prev := null;
      last.next := head;
      head := last;
      ghost var was := nodes;
      nodes := [was[|was| - 1]] + was[..|was| - 1];
      forall i | 0 <= i < |nodes| ensures LinkAt(nodes, i) {
        if i > 0 {
          assert nodes[i] == was[i - 1];
          assert old(LinkAt(was, i - 1));
        }
      }
    }

    /** listRotateHeadToTail. */
    method RotateHeadToTail()
      requires Valid()
      modifies this, nodes
      ensures Valid()
      ensures nodes == if |old(nodes)| <= 1 then old(nodes) else old(nodes)[1..] + [old(nodes)[0]]
    {
      if len <= 1 { return; }
      assert LinkAt(nodes, |nodes| - 1) && LinkAt(nodes, 0);
      var first := head;
      head := first.next;
      head.prev := null;
      tail.next := first;
      first.next := null;
      first.prev := tail;
      tail := first;
      ghost var was := nodes;
      nodes := was[1..] + [was[0]];
      forall i | 0 <= i < |nodes| ensures LinkAt(nodes, i) {
        if i < |was| - 1 {
          assert nodes[i] == was[i + 1];
          assert old(LinkAt(was, i + 1));
        }
      }
    }

    /** listJoin: the other list, which has no node in common with this one, ends up empty. */
    method Join(o: List<V>)
      requires Valid() && o.Valid() && o != this && forall n :: n in nodes ==> n !in o.nodes
      modifies this, o, nodes, o.nodes
      ensures Valid() && o.Valid() && nodes == old(nodes) + old(o.nodes) && o.nodes == []
    {
      if o.len == 0 {
        assert nodes + [] == nodes;
        return;
      }
      ghost var was, more := nodes, o.nodes;
      hide Linked;
      LinkEnds(tail, o.head, was, more);
      if tail == null { head := o.head; }
      tail := o.tail;
      len := len + o.len;
      nodes := was + more;
      o.head, o.tail, o.len, o.nodes := null, null, 0, [];
      NoneLinked<V>();
    }

    /** listEmpty: the walk over the nodes never runs into a null pointer. */
    method Empty()
      requires Valid()
      modifies this
      ensures Valid() && nodes == []
    {
      var current, n := head, len;
      while n > 0
        invariant 0 <= n <= len && current == At(nodes, |nodes| - n) && Valid()
      {
        assert LinkAt(nodes, |nodes| - n);
        current := current.next;
        n := n - 1;
      }
      head, tail, len, nodes := null, null, 0, [];
    }

    /** listSearchKey: the first node whose value matches. */
    method SearchKey(matches: V -> bool) returns (node: Node?<V>)
      requires Valid()
      ensures node == null ==> forall i :: 0 <= i < |nodes| ==> !matches(nodes[i].value)
      ensures node != null ==> exists k :: 0 <= k < |nodes| && node == nodes[k] && matches(node.value)
                                           && forall i :: 0 <= i < k ==> !matches(nodes[i].value)
    {
      var next := head;
      ghost var k: nat := 0;
      while next != null
        invariant k <= |nodes| && next == At(nodes, k)
        invariant forall i :: 0 <= i < k ==> !matches(nodes[i].value)
        decreases |nodes| - k
      {
        node := next;
        assert LinkAt(nodes, k);
        next := node.next;
        if matches(node.value) { return node; }
        k := k + 1;
      }
      return null;
    }

    /** listIndex: negative positions count from the tail. */
    method Index(index: int) returns (n: Node?<V>)
      requires Valid()
      ensures n == At(nodes, if index < 0 then |nodes| + index else index)
    {
      if index < 0 {
        var i := 0 - index - 1;
        n := tail;
        ghost var k := |nodes| - 1;
        while i != 0 && n != null
          invariant 0 <= i && n == At(nodes, k) && -1 <= k < |nodes| && k - i == |nodes| + index
          decreases i
        {
          assert LinkAt(nodes, k);
          n := n.prev;
          i, k := i - 1, k - 1;
        }
      } else {
        var i := index;
        n := head;
        ghost var k := 0;
        while i != 0 && n != null
          invariant 0 <= i && n == At(nodes, k) && 0 <= k <= |nodes| && k + i == index
          decreases i
        {
          assert LinkAt(nodes, k);
          n := n.next;
          i, k := i - 1, k + 1;
        }
      }
    }

    /** listDup with a method that copies values and may fail. The original list is not touched. */
    method Dup(dup: V -> Option<V>) returns (copy: List?<V>)
      requires Valid()
      ensures copy == null ==> exists i :: 0 <= i < |nodes| && dup(nodes[i].value).None?
      ensures copy != null ==>
                && copy.Valid() && fresh(copy) && fresh(copy.nodes) && |copy.nodes| == |nodes|
                && forall i :: 0 <= i < |nodes| ==> dup(nodes[i].value) == Some(copy.nodes[i].value)
    {
      var c := new List<V>();
      var next := head;
      ghost var k: nat := 0;
      while next != null
        invariant k <= |nodes| && next == At(nodes, k) && |c.nodes| == k && c.Valid() && fresh(c) && fresh(c.nodes)
        invariant forall i :: 0 <= i < k ==> dup(nodes[i].value) == Some(c.nodes[i].value)
        decreases |nodes| - k
      {
        var node := next;
        assert LinkAt(nodes, k);
        next := node.next;
        var value := dup(node.value);
        if value.None? { return null; }
        c.AddNodeTail(value.value);
        k := k + 1;
      }
      return c;
    }

    /** A walk with listRewind and listNext that deletes the current node whenever `doomed` says so. */
    method Sweep(doomed: V -> bool) returns (visited: seq<Node<V>>)
      requires Valid()
      modifies this, nodes
      ensures Valid() && visited == old(nodes) && nodes == Kept(old(nodes), doomed)
    {
      hide Linked, Kept, Within, Swept, At;
      var iter := new Iter(head, true);
      visited := [];
      ghost var was, i: nat := nodes, 0;
      ghost var frame := set n | n in was;
      assert Within(was, frame) by { AllWithin(was); }
      SweepStart(was, doomed);
      while iter.next != null
        invariant Valid() && i <= |was| && iter.forward && iter.next == At(was, i) && visited == was[..i]
        invariant Swept(was, nodes, i, doomed) && Within(nodes, frame)
        decreases |was| - i
      {
        ghost var k := |Kept(was[..i], doomed)|;
        SweepStep(was, nodes, i, doomed);
        var node := iter.Next(nodes, k);
        visited := visited + [node];
        StillWithin(nodes, k, frame);
        if doomed(node.value) { DelNode(node, k, frame); }
        i := i + 1;
      }
      SweepEnd(was, nodes, i, doomed);
    }

    /** The same from the tail. */
    method SweepBack(doomed: V -> bool) returns (visited: seq<Node<V>>)
      requires Valid()
      modifies this, nodes
      ensures Valid() && visited == Reversed(old(nodes)) && nodes == Kept(old(nodes), doomed)
    {
      hide Linked, Kept, Reversed, Within, SweptBack, At;
      var iter := new Iter(tail, false);
      visited := [];
      ghost var was, i: nat := nodes, |nodes|;
      ghost var frame := set n | n in was;
      assert Within(was, frame) by { AllWithin(was); }
      SweepBackStart(was, doomed);
      while iter.next != null
        invariant Valid() && i <= |was| && !iter.forward && iter.next == At(was, i - 1) && visited == Reversed(was[i..])
        invariant SweptBack(was, nodes, i, doomed) && Within(nodes, frame)
        decreases i
      {
        SweepBackStep(was, nodes, i, doomed);
        var node := iter.Next(nodes, i - 1);
        visited := visited + [node];
        StillWithin(nodes, i - 1, frame);
        if doomed(node.value) { DelNode(node, i - 1, frame); }
        i := i - 1;
      }
      SweepBackEnd(was, nodes, i, doomed);
    }
  }

  /** listIter. */
  class Iter<V> {
    var next: Node?<V>
    const forward: bool

    constructor (next: Node?<V>, forward: bool)
      ensures this.next == next && this.forward == forward
    {
      this.next, this.forward := next, forward;
    }

    /** listNext: the iterator moves on before the caller may delete the node. */
    method Next(ghost ns: seq<Node<V>>, ghost k: nat) returns (current: Node<V>)
      requires Linked(ns) && k < |ns| && next == ns[k]
      modifies this
      ensures current == ns[k] && next == At(ns, if forward then k + 1 else k - 1)
    {
      assert LinkAt(ns, k);
      current := next;
      if forward { next := current.next; } else { next := current.prev; }
    }
  }

  /** The nodes that are not doomed. */
  ghost function Kept<V>(ns: seq<Node<V>>, doomed: V -> bool): seq<Node<V>> {
    if ns == [] then [] else (if doomed(ns[0].value) then [] else [ns[0]]) + Kept(ns[1..], doomed)
  }

  lemma {:induction false} KeptNext<V>(ns: seq<Node<V>>, n: Node<V>, doomed: V -> bool)
    ensures Kept(ns + [n], doomed) == Kept(ns, doomed) + (if doomed(n.value) then [] else [n])
  {
    if ns == [] {
      assert [] + [n] == [n] && [n][1..] == [];
    } else {
      assert (ns + [n])[0] == ns[0] && (ns + [n])[1..] == ns[1..] + [n];
      KeptNext(ns[1..], n, doomed);
    }
  }

  ghost function Reversed<T>(s: seq<T>): seq<T> { if s == [] then [] else Reversed(s[1..]) + [s[0]] }

  /** The first `i` of the nodes have been seen, and those of them that are not doomed are still there. */
  ghost predicate Swept<V>(was: seq<Node<V>>, nodes: seq<Node<V>>, i: nat, doomed: V -> bool)
    requires i <= |was|
  {
    nodes == Kept(was[..i], doomed) + was[i..]
  }

  lemma SweepStart<V>(was: seq<Node<V>>, doomed: V -> bool)
    ensures Swept(was, was, 0, doomed) && was[..0] == []
  {
    assert was[0..] == was;
  }

  lemma SweepStep<V>(was: seq<Node<V>>, nodes: seq<Node<V>>, i: nat, doomed: V -> bool)
    requires i <= |was| && At(was, i) != null && Swept(was, nodes, i, doomed)
    ensures i < |was| && At(was, i) == was[i]
    ensures var k := |Kept(was[..i], doomed)|;
            && k < |nodes| && nodes[k] == was[i] && At(nodes, k + 1) == At(was, i + 1)
            && Swept(was, if doomed(was[i].value) then nodes[..k] + nodes[k + 1..] else nodes, i + 1, doomed)
            && was[..i + 1] == was[..i] + [was[i]]
  {
    var kept := Kept(was[..i], doomed);
    assert was[..i + 1] == was[..i] + [was[i]] && was[i..] == [was[i]] + was[i + 1..];
    KeptNext(was[..i], was[i], doomed);
    hide Kept;
    assert kept + ([was[i]] + was[i + 1..]) == kept + [was[i]] + was[i + 1..];
    assert nodes[..|kept|] == kept && nodes[|kept| + 1..] == was[i + 1..];
    assert kept + [] == kept;
  }

  lemma SweepEnd<V>(was: seq<Node<V>>, nodes: seq<Node<V>>, i: nat, doomed: V -> bool)
    requires i <= |was| && At(was, i) == null && Swept(was, nodes, i, doomed)
    ensures i == |was| && nodes == Kept(was, doomed) && was[..i] == was
  {
    assert was[..|was|] == was && Kept(was, doomed) + [] == Kept(was, doomed);
  }

  ghost predicate SweptBack<V>(was: seq<Node<V>>, nodes: seq<Node<V>>, i: nat, doomed: V -> bool)
    requires i <= |was|
  {
    nodes == was[..i] + Kept(was[i..], doomed)
  }

  lemma SweepBackStart<V>(was: seq<Node<V>>, doomed: V -> bool)
    ensures SweptBack(was, was, |was|, doomed) && Reversed(was[|was|..]) == []
  {
    assert was[..|was|] == was && was[|was|..] == [] && was + [] == was;
  }

  lemma SweepBackStep<V>(was: seq<Node<V>>, nodes: seq<Node<V>>, i: nat, doomed: V -> bool)
    requires i <= |was| && At(was, i - 1) != null && SweptBack(was, nodes, i, doomed)
    ensures i > 0 && At(was, i - 1) == was[i - 1]
    ensures && i - 1 < |nodes| && nodes[i - 1] == was[i - 1] && At(nodes, i - 2) == At(was, i - 2)
            && SweptBack(was, if doomed(was[i - 1].value) then nodes[..i - 1] + nodes[i..] else nodes, i - 1, doomed)
            && Reversed(was[i - 1..]) == Reversed(was[i..]) + [was[i - 1]]
  {
    KeptBack(was, i, doomed);
    hide Kept, Reversed;
    Around(was[..i], was[i - 1], Kept(was[i..], doomed));
    assert was[..i][..i - 1] == was[..i - 1];
  }

  lemma KeptBack<V>(was: seq<Node<V>>, i: nat, doomed: V -> bool)
    requires 0 < i <= |was|
    ensures var kept := Kept(was[i..], doomed);
            Kept(was[i - 1..], doomed) == if doomed(was[i - 1].value) then kept else [was[i - 1]] + kept
    ensures Reversed(was[i - 1..]) == Reversed(was[i..]) + [was[i - 1]]
  {
    assert was[i - 1..][0] == was[i - 1] && was[i - 1..][1..] == was[i..];
    assert [] + Kept(was[i..], doomed) == Kept(was[i..], doomed);
  }

  lemma Around<V>(front: seq<Node<V>>, last: Node<V>, kept: seq<Node<V>>)
    requires front != [] && front[|front| - 1] == last
    ensures var ns, i := front + kept, |front|;
            && ns[..i - 1] + ns[i..] == front[..i - 1] + kept && ns == front[..i - 1] + ([last] + kept)
            && ns[i - 1] == last && At(ns, i - 2) == At(front, i - 2)
  {}

  lemma SweepBackEnd<V>(was: seq<Node<V>>, nodes: seq<Node<V>>, i: nat, doomed: V -> bool)
    requires i <= |was| && At(was, i - 1) == null && SweptBack(was, nodes, i, doomed)
    ensures i == 0 && nodes == Kept(was, doomed) && was[i..] == was
  {
    assert was[0..] == was && was[..0] == [] && [] + Kept(was, doomed) == Kept(was, doomed);
  }
}
