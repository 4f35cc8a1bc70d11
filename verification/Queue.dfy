/** The FIFO queue: a singly linked list with both ends, refining a sequence. */
module Queue {

  /** What removeFromQueue leaves: the elements that do not compare equal. */
  function Without(s: seq<int>, x: int, compare: (int, int) -> int): seq<int> {
    if s == [] then []
    else (if compare(x, s[0]) == 0 then [] else [s[0]]) + Without(s[1..], x, compare)
  }

  /** An element survives exactly as often as it occurred, unless it compares equal. */
  lemma {:induction false} WithoutKeepsOthers(s: seq<int>, x: int, compare: (int, int) -> int, y: int)
    ensures multiset(Without(s, x, compare))[y] == if compare(x, y) == 0 then 0 else multiset(s)[y]
  {
    if s != [] {
      assert s == [s[0]] + s[1..];
      WithoutKeepsOthers(s[1..], x, compare, y);
    }
  }

  /** What survives keeps its order: it is what is left of a prefix, then what is left of the rest. */
  lemma {:induction false} WithoutAppend(s: seq<int>, t: seq<int>, x: int, compare: (int, int) -> int)
    ensures Without(s + t, x, compare) == Without(s, x, compare) + Without(t, x, compare)
  {
    if s == [] {
      assert s + t == t;
    } else {
      assert (s + t)[1..] == s[1..] + t;
      WithoutAppend(s[1..], t, x, compare);
    }
  }

  class Node {
    const data: int  // set once, when the node is created
    var tail: Node?

    constructor (data: int)
      ensures this.data == data && tail == null
    {
      this.data, this.tail := data, null;
    }
  }

  // ----- linked segments

  ghost function Data(ns: seq<Node>): (s: seq<int>)
    ensures |s| == |ns|
  {
    if ns == [] then [] else [ns[0].data] + Data(ns[1..])
  }

  /** The segment ns is linked in order, entered at node n and left for node end. */
  ghost predicate Chain(n: Node?, ns: seq<Node>, end: Node?)
    reads ns
  {
    if ns == [] then n == end else n == ns[0] && Chain(ns[0].tail, ns[1..], end)
  }

  ghost function First(ns: seq<Node>, otherwise: Node?): Node? {
    if ns == [] then otherwise else ns[0]
  }

  ghost function Last(ns: seq<Node>): Node? {
    if ns == [] then null else ns[|ns| - 1]
  }

  ghost predicate Distinct(ns: seq<Node>) {
    ns != [] ==> ns[0] !in ns[1..] && Distinct(ns[1..])
  }

  lemma {:induction false} ChainAppend(n: Node?, a: seq<Node>, b: seq<Node>, end: Node?)
    ensures Chain(n, a + b, end) <==> Chain(n, a, First(b, end)) && Chain(First(b, end), b, end)
    decreases |a|
  {
    if a == [] {
      assert a + b == b;
    } else {
      assert (a + b)[1..] == a[1..] + b;
      ChainAppend(a[0].tail, a[1..], b, end);
    }
  }

  ghost predicate Disjoint(a: seq<Node>, b: seq<Node>) {
    forall n :: n in a ==> n !in b
  }

  lemma {:induction false} DistinctAppend(a: seq<Node>, b: seq<Node>)
    ensures Distinct(a + b) <==> Distinct(a) && Distinct(b) && Disjoint(a, b)
  {
    if a == [] {
      assert a + b == b;
    } else {
      assert (a + b)[1..] == a[1..] + b;
      DistinctAppend(a[1..], b);
      assert forall n :: n in a <==> n == a[0] || n in a[1..];
    }
  }

  lemma {:induction false} DataAppend(a: seq<Node>, b: seq<Node>)
    ensures Data(a + b) == Data(a) + Data(b)
  {
    if a == [] {
      assert a + b == b;
    } else {
      assert (a + b)[1..] == a[1..] + b;
      DataAppend(a[1..], b);
    }
  }

  class Queue {
    var first: Node?
    var last: Node?
    var count: nat
    ghost var nodes: seq<Node>

    /** The nodes are linked in order from first to last. */
    ghost predicate Valid()
      reads this, nodes
    {
      count == |nodes| && Chain(first, nodes, null) && last == Last(nodes) && Distinct(nodes)
    }

    ghost function Contents(): seq<int>
      reads this
    {
      Data(nodes)
    }

    constructor NewQueue()
      ensures Valid() && Contents() == [] && nodes == []
    {
      first, last, count, nodes := null, null, 0, [];
    }

    predicate IsQueueEmpty()
      reads this
    {
      count == 0
    }

    /** Append an element; without memory for a node the queue stays as it is. */
    method Enqueue(x: int, memory: bool) returns (ok: bool)
      requires Valid()
      modifies this, nodes
      ensures Valid() && ok == memory
      ensures Contents() == if memory then old(Contents()) + [x] else old(Contents())
      ensures forall n :: n in nodes ==> n in old(nodes) || fresh(n)
    {
      if !memory {
        return false;
      }
      var newNode := new Node(x);
      if IsQueueEmpty() {
        first, last := newNode, newNode;
      } else {
        LinkAtEnd(newNode);
      }
      DataAppend(nodes, [newNode]);
      assert [newNode][1..] == [] && Distinct([newNode]) && Disjoint(nodes, [newNode]);
      DistinctAppend(nodes, [newNode]);
      count := count + 1;
      nodes := nodes + [newNode];
      return true;
    }

    method LinkAtEnd(newNode: Node)
      requires Valid() && nodes != [] && newNode !in nodes && newNode.tail == null
      modifies `last, nodes
      ensures last == newNode && Chain(first, nodes + [newNode], null) && newNode.tail == null
    {
      ghost var front, back := nodes[..|nodes| - 1], [nodes[|nodes| - 1]];
      assert nodes == front + back && last == nodes[|nodes| - 1];
      ChainAppend(first, front, back, null);
      DistinctAppend(front, back);
      assert last !in front && Chain(first, front, last);
      last.tail := newNode;
      assert Chain(first, front, last) && Chain(last, back, newNode);
      last := newNode;
      ChainAppend(first, front, back, newNode);
      ChainAppend(first, nodes, [newNode], null);
    }

    /** The oldest element, or 0 (NULL) when there is none. */
    method PollQueue() returns (x: int)
      requires Valid()
      modifies this
      ensures Valid()
      ensures old(Contents()) == [] ==> x == 0 && Contents() == []
      ensures old(Contents()) != [] ==> x == old(Contents())[0] && Contents() == old(Contents())[1..]
      ensures forall n :: n in nodes ==> n in old(nodes)
    {
      if IsQueueEmpty() {
        return 0;
      }
      x := first.data;
      var nextNode := first.tail;
      first := nextNode;
      count := count - 1;
      if count == 0 {
        last := null;
      }
      nodes := nodes[1..];
    }

    /** Unlink the node between the kept ones and the rest. */
    method RemoveNode(nodeToRemove: Node, previousNode: Node?, nextNode: Node?, ghost kept: seq<Node>,
                      ghost rest: seq<Node>)
      requires Valid() && nodes == kept + [nodeToRemove] + rest
      requires previousNode == Last(kept) && nextNode == First(rest, null)
      modifies this, kept
      ensures Valid() && nodes == kept + rest
    {
      ChainAppend(first, kept + [nodeToRemove], rest, null);
      ChainAppend(first, kept, [nodeToRemove], First(rest, null));
      DistinctAppend(kept + [nodeToRemove], rest);
      DistinctAppend(kept, [nodeToRemove]);
      assert Disjoint(kept, rest) by { assert forall n :: n in kept ==> n in kept + [nodeToRemove]; }
      DistinctAppend(kept, rest);
      assert nodeToRemove in kept + [nodeToRemove];
      assert rest != [] ==> Last(nodes) in rest && Last(kept + rest) == Last(nodes);
      if previousNode == null {
        first := nextNode;
      } else {
        ghost var front, back := kept[..|kept| - 1], [previousNode];
        assert kept == front + back;
        ChainAppend(first, front, back, nodeToRemove);
        DistinctAppend(front, back);
        assert previousNode !in front && previousNode !in rest && Chain(first, front, previousNode);
        previousNode.tail := nextNode;
        assert Chain(first, front, previousNode) && Chain(previousNode, back, nextNode) && Chain(nextNode, rest, null);
        ChainAppend(first, front, back, nextNode);
      }
      if nodeToRemove == last {
        last := previousNode;
      }
      count := count - 1;
      ChainAppend(first, kept, rest, null);
      nodes := kept + rest;
    }

    /** Look at the first of the remaining nodes of a walk: unlink it if it compares equal, and find the next one. */
    method Visit(x: int, compare: (int, int) -> int, currentNode: Node, previousNode: Node?,
                 ghost kept: seq<Node>, ghost seen: seq<Node>, ghost rest: seq<Node>)
        returns (removed: bool, nextNode: Node?)
      requires Valid() && nodes == kept + rest && rest != [] && currentNode == rest[0] && previousNode == Last(kept)
      requires Data(kept) == Without(Data(seen), x, compare)
      modifies this, kept
      ensures Valid() && removed == (compare(x, currentNode.data) == 0)
      ensures nextNode == First(rest[1..], null)
      ensures var kept' := if removed then kept else kept + [currentNode];
        nodes == kept' + rest[1..] && Data(kept') == Without(Data(seen + [currentNode]), x, compare)
    {
      NextOne(kept, rest);
      ChainAppend(first, kept + [currentNode], rest[1..], null);
      ChainAppend(first, kept, [currentNode], First(rest[1..], null));
      SeenOne(kept, seen, currentNode, x, compare);
      nextNode := currentNode.tail;
      removed := compare(x, currentNode.data) == 0;
      if removed {
        RemoveNode(currentNode, previousNode, nextNode, kept, rest[1..]);
      }
    }

    /** Remove every element that compares equal, keeping the order of the others. */
    method RemoveFromQueue(x: int, compare: (int, int) -> int) returns (removedCount: nat)
      requires Valid()
      modifies this, nodes
      ensures Valid() && Contents() == Without(old(Contents()), x, compare)
      ensures removedCount == |old(Contents())| - |Contents()|
      ensures forall n :: n in nodes ==> n in old(nodes)
    {
      var previousNode: Node? := null;
      var currentNode := first;
      removedCount := 0;
      ghost var all := nodes;
      ghost var seen: seq<Node>, kept: seq<Node>, rest: seq<Node> := [], [], nodes;
      while currentNode != null
        invariant Valid() && nodes == kept + rest && seen + rest == all
        invariant currentNode == First(rest, null) && previousNode == Last(kept)
        invariant Data(kept) == Without(Data(seen), x, compare) && removedCount == |seen| - |kept|
        invariant forall i :: 0 <= i < |kept| ==> kept[i] in old(nodes)
        decreases |rest|
      {
        var node: Node := currentNode;
        NextOne(seen, rest);
        assert node == rest[0] && node in all;
        var removed, nextNode := Visit(x, compare, node, previousNode, kept, seen, rest);
        seen, rest, currentNode := seen + [node], rest[1..], nextNode;
        if removed {
          removedCount := removedCount + 1;
        } else {
          previousNode := node;
          kept := kept + [node];
        }
      }
      assert nodes == kept && seen == all;
      ClearEnds();
    }

    /** An empty queue points nowhere. */
    method ClearEnds()
      requires Valid()
      modifies `first, `last
      ensures Valid()
    {
      if IsQueueEmpty() {
        first, last := null, null;
      }
    }
  }

  lemma NextOne(a: seq<Node>, rest: seq<Node>)
    requires rest != []
    ensures a + rest == a + [rest[0]] + rest[1..]
  {
  }

  lemma SeenOne(kept: seq<Node>, seen: seq<Node>, node: Node, x: int, compare: (int, int) -> int)
    requires Data(kept) == Without(Data(seen), x, compare)
    ensures Without(Data(seen + [node]), x, compare) == Data(if compare(x, node.data) == 0 then kept else kept + [node])
  {
    DataAppend(seen, [node]);
    DataAppend(kept, [node]);
    assert Data([node]) == [node.data];
    WithoutAppend(Data(seen), [node.data], x, compare);
    assert [node.data][1..] == [];
  }
}
