/** The buddy allocator in place: a static array of nodes, split and merged by index, refining BuddyTree. */
module BuddyHeap {
  import opened Powers
  import opened BuddyTree
  import opened BuddyTheorems
  import opened BuddyRuns

  datatype BuddyNode = BuddyNode(isFree: bool, order: nat, offset: nat, leftChild: int, rightChild: int, parent: int)

  // ----- how the array represents a tree and the recycled slots

  /** The subtree t is stored in ns.  The flag of a split node carries no information. */
  ghost predicate Shape(ns: seq<BuddyNode>, t: Tree, order: nat, off: nat, parent: int) {
    && 0 <= t.slot < |ns|
    && ns[t.slot].order == order && ns[t.slot].offset == off && ns[t.slot].parent == parent
    && match t
       case Leaf(s, free) => ns[s].leftChild == -1 && ns[s].rightChild == -1 && ns[s].isFree == free
       case Split(s, l, r) =>
         && order > 0 && ns[s].leftChild == l.slot && ns[s].rightChild == r.slot
         && Shape(ns, l, order - 1, off, s) && Shape(ns, r, order - 1, off + Half(order), s)
  }

  /** Recycled slots are chained through leftChild, are marked free and have no parent. */
  ghost predicate Chain(ns: seq<BuddyNode>, head: int, free: seq<int>)
    decreases |free|
  {
    if free == [] then head == -1
    else
      && head == free[0] && 0 <= head < |ns| && ns[head].isFree && ns[head].parent == -1
      && Chain(ns, ns[head].leftChild, free[1..])
  }

  lemma {:induction false} ShapeFrame(ns: seq<BuddyNode>, ns': seq<BuddyNode>, t: Tree, order: nat, off: nat,
                                      parent: int)
    requires Shape(ns, t, order, off, parent) && |ns'| == |ns|
    requires forall i :: i in SlotSet(t) && 0 <= i < |ns| ==> ns'[i] == ns[i]
    ensures Shape(ns', t, order, off, parent)
  {
    assert t.slot in SlotSet(t);
    match t
    case Leaf(_, _) =>
    case Split(s, l, r) =>
      ShapeFrame(ns, ns', l, order - 1, off, s);
      ShapeFrame(ns, ns', r, order - 1, off + Half(order), s);
  }

  lemma {:induction false} ChainFrame(ns: seq<BuddyNode>, ns': seq<BuddyNode>, head: int, free: seq<int>)
    requires Chain(ns, head, free) && |ns'| == |ns|
    requires forall i :: i in free && 0 <= i < |ns| ==> ns'[i] == ns[i]
    ensures Chain(ns', head, free)
    decreases |free|
  {
    if free != [] {
      assert free[0] in free;
      assert forall i :: i in free[1..] ==> i in free;
      ChainFrame(ns, ns', ns[head].leftChild, free[1..]);
    }
  }

  /** Slots that belong neither to the subtree nor to the pool keep their node. */
  ghost predicate Untouched(ns: seq<BuddyNode>, ns': seq<BuddyNode>, t: Tree, p: Pool) {
    && |ns'| == |ns|
    && forall i :: 0 <= i < |ns| && i < p.used && i !in SlotSet(t) && i !in p.recycled ==> ns'[i] == ns[i]
  }

  /** The work done in one subtree leaves a disjoint one as it was. */
  lemma SiblingUntouched(ns: seq<BuddyNode>, ns': seq<BuddyNode>, t: Tree, p: Pool, u: Tree, order: nat, off: nat,
                         parent: int)
    requires Untouched(ns, ns', t, p) && Apart(u, p) && SlotSet(t) !! SlotSet(u)
    requires Shape(ns, u, order, off, parent)
    ensures Shape(ns', u, order, off, parent)
  {
    ShapeFrame(ns, ns', u, order, off, parent);
  }

  // ----- a node seen from the root: the way up that tryMerge takes

  /** The ancestors of a node, nearest first, each with its other subtree. */
  datatype Path = Top | InLeft(slot: int, right: Tree, up: Path) | InRight(slot: int, left: Tree, up: Path)

  function Plug(path: Path, t: Tree): Tree {
    match path
    case Top => t
    case InLeft(s, r, up) => Plug(up, Split(s, t, r))
    case InRight(s, l, up) => Plug(up, Split(s, l, t))
  }

  function ParentSlot(path: Path): int {
    if path.Top? then -1 else path.slot
  }

  function PathSlots(path: Path): set<int> {
    match path
    case Top => {}
    case InLeft(s, r, up) => {s} + SlotSet(r) + PathSlots(up)
    case InRight(s, l, up) => {s} + SlotSet(l) + PathSlots(up)
  }

  /** Merge on the way up, as far as it goes. */
  function Rebuild(path: Path, f: Freed): Freed {
    match path
    case Top => f
    case InLeft(s, r, up) => Rebuild(up, Merge(s, f.tree, r, f.pool))
    case InRight(s, l, up) => Rebuild(up, Merge(s, l, f.tree, f.pool))
  }

  /** The ancestors and their other subtrees are stored in ns around the node in slot hole. */
  ghost predicate PathShape(ns: seq<BuddyNode>, path: Path, hole: int, order: nat, off: nat, max: nat) {
    match path
    case Top => order == max && off == 0
    case InLeft(s, r, up) =>
      && 0 <= s < |ns| && ns[s].leftChild == hole && ns[s].rightChild == r.slot
      && ns[s].order == order + 1 && ns[s].offset == off && ns[s].parent == ParentSlot(up)
      && order >= MIN_ORDER && Fits(r, order)
      && Shape(ns, r, order, off + Pow2(order), s) && PathShape(ns, up, s, order + 1, off, max)
    case InRight(s, l, up) =>
      && off >= Pow2(order)
      && 0 <= s < |ns| && ns[s].leftChild == l.slot && ns[s].rightChild == hole
      && ns[s].order == order + 1 && ns[s].offset == off - Pow2(order) && ns[s].parent == ParentSlot(up)
      && order >= MIN_ORDER && Fits(l, order)
      && Shape(ns, l, order, off - Pow2(order), s) && PathShape(ns, up, s, order + 1, off - Pow2(order), max)
  }

  lemma {:induction false} PathFrame(ns: seq<BuddyNode>, ns': seq<BuddyNode>, path: Path, hole: int, order: nat,
                                     off: nat, max: nat)
    requires PathShape(ns, path, hole, order, off, max) && |ns'| == |ns|
    requires forall i :: i in PathSlots(path) && 0 <= i < |ns| ==> ns'[i] == ns[i]
    ensures PathShape(ns', path, hole, order, off, max)
  {
    match path
    case Top =>
    case InLeft(s, r, up) =>
      ShapeFrame(ns, ns', r, order, off + Pow2(order), s);
      PathFrame(ns, ns', up, s, order + 1, off, max);
    case InRight(s, l, up) =>
      ShapeFrame(ns, ns', l, order, off - Pow2(order), s);
      PathFrame(ns, ns', up, s, order + 1, off - Pow2(order), max);
  }

  /** Plugging the node back in gives a stored tree. */
  lemma {:induction false} PlugShape(ns: seq<BuddyNode>, path: Path, t: Tree, order: nat, off: nat, max: nat)
    requires PathShape(ns, path, t.slot, order, off, max) && Shape(ns, t, order, off, ParentSlot(path))
        && Fits(t, order)
    ensures Shape(ns, Plug(path, t), max, 0, -1) && Fits(Plug(path, t), max)
  {
    match path
    case Top =>
    case InLeft(s, r, up) => PlugShape(ns, up, Split(s, t, r), order + 1, off, max);
    case InRight(s, l, up) => PlugShape(ns, up, Split(s, l, t), order + 1, off - Pow2(order), max);
  }

  lemma {:induction false} PlugSlots(path: Path, t: Tree)
    ensures SlotSet(Plug(path, t)) == PathSlots(path) + SlotSet(t)
    ensures Distinct(Plug(path, t)) ==> PathSlots(path) !! SlotSet(t) && Distinct(t)
  {
    match path
    case Top =>
    case InLeft(s, r, up) => PlugSlots(up, Split(s, t, r));
    case InRight(s, l, up) => PlugSlots(up, Split(s, l, t));
  }

  /** Above a node that is not a free leaf nothing merges. */
  lemma {:induction false} NoMergeAbove(path: Path, t: Tree, p: Pool)
    requires !FreeLeaf(t)
    ensures Rebuild(path, Freed(t, p)) == Freed(Plug(path, t), p)
  {
    match path
    case Top =>
    case InLeft(s, r, up) => NoMergeAbove(up, Split(s, t, r), p);
    case InRight(s, l, up) => NoMergeAbove(up, Split(s, l, t), p);
  }

  /** The way down to an allocated leaf: freeing it from the root is freeing the leaf and merging on the way back. */
  lemma {:induction false} WayDown(ns: seq<BuddyNode>, t: Tree, p: Pool, order: nat, off: nat, target: nat, up: Path,
                                   max: nat)
      returns (path: Path, leafOrder: nat)
    requires Fits(t, order) && off <= target < off + Pow2(order)
    requires Shape(ns, t, order, off, ParentSlot(up)) && PathShape(ns, up, t.slot, order, off, max)
    requires FindLive(t, order, off, target) != -1
    ensures var slot := FindLive(t, order, off, target);
      && Plug(path, Leaf(slot, false)) == Plug(up, t) && leafOrder >= MIN_ORDER
      && Shape(ns, Leaf(slot, false), leafOrder, target, ParentSlot(path))
      && PathShape(ns, path, slot, leafOrder, target, max)
      && Rebuild(path, Freed(Leaf(slot, true), p)) == Rebuild(up, Free(t, p, order, off, target))
  {
    match t
    case Leaf(s, free) => return up, order;
    case Split(s, l, r) =>
      if target < off + Half(order) {
        path, leafOrder := WayDown(ns, l, p, order - 1, off, target, InLeft(s, r, up), max);
      } else {
        path, leafOrder := WayDown(ns, r, p, order - 1, off + Half(order), target, InRight(s, l, up), max);
      }
  }

  /** Dropping slots below the hole keeps the slots apart. */
  lemma {:induction false} PlugShrink(path: Path, t: Tree, t': Tree)
    requires Distinct(Plug(path, t)) && Distinct(t') && SlotSet(t') <= SlotSet(t)
    ensures Distinct(Plug(path, t')) && SlotSet(Plug(path, t')) <= SlotSet(Plug(path, t))
  {
    PlugSlots(path, t);
    PlugSlots(path, t');
    match path
    case Top =>
    case InLeft(s, r, up) =>
      PlugSlots(up, Split(s, t, r));
      PlugShrink(up, Split(s, t, r), Split(s, t', r));
    case InRight(s, l, up) =>
      PlugSlots(up, Split(s, l, t));
      PlugShrink(up, Split(s, l, t), Split(s, l, t'));
  }

  /** Joining two free halves below a path: their slots move to the pool. */
  lemma JoinApart(up: Path, s: int, l: int, r: int, p: Pool)
    requires Apart(Plug(up, Split(s, Leaf(l, true), Leaf(r, true))), p)
    ensures s != l && s != r && l != r && s !in p.recycled && l !in p.recycled && r !in p.recycled
    ensures 0 <= s < p.used && 0 <= l < p.used && 0 <= r < p.used
    ensures {s, l, r} !! PathSlots(up)
    ensures Apart(Plug(up, Leaf(s, true)), p.(recycled := [r, l] + p.recycled))
  {
    var t := Split(s, Leaf(l, true), Leaf(r, true));
    assert SlotSet(t) == {s, l, r};
    PlugSlots(up, t);
    PlugSlots(up, Leaf(s, true));
    PlugShrink(up, t, Leaf(s, true));
  }

  class Buddy {
    const minAddress: nat
    const totalSize: nat
    const maxOrder: nat
    const rootIndex: int
    const nodes: array<BuddyNode>
    var nodeCount: int
    var firstFreeNode: int
    ghost var tree: Tree
    ghost var pool: Pool

    ghost predicate PoolOk()
      reads this, nodes
    {
      && nodes.Length == MAX_NODES && nodeCount == pool.used && pool.used <= MAX_NODES
      && Chain(nodes[..], firstFreeNode, pool.recycled)
    }

    /** The subtree t is stored in the array, next to a well-formed pool. */
    ghost predicate Holds(t: Tree, order: nat, off: nat, parent: int)
      reads this, nodes
    {
      && PoolOk() && Fits(t, order) && Apart(t, pool) && Shape(nodes[..], t, order, off, parent)
    }

    ghost predicate Valid()
      reads this, nodes
    {
      && maxOrder >= MIN_ORDER && minAddress > 0
      && rootIndex == 0 && Good(Heap(tree, pool), maxOrder)
      && Holds(tree, maxOrder, 0, -1)
    }

    method CreateNode(order: nat, offset: nat, parentIdx: int, ghost t: Tree) returns (idx: int)
      requires PoolOk() && Apart(t, pool)
      modifies `nodeCount, `firstFreeNode, `pool, nodes
      ensures PoolOk() && idx == Take(old(pool)).slot && pool == Take(old(pool)).pool
      ensures idx >= 0 ==> idx < MAX_NODES && nodes[idx] == BuddyNode(true, order, offset, -1, -1, parentIdx)
      ensures forall i :: 0 <= i < nodes.Length && i != idx ==> nodes[i] == old(nodes[i])
    {
      TakeMoves(t, pool);
      ghost var before := nodes[..];
      if firstFreeNode != -1 {
        assert pool.recycled != [];
        idx := firstFreeNode;
        firstFreeNode := nodes[idx].leftChild;
      } else {
        assert pool.recycled == [];
        if nodeCount >= MAX_NODES {
          return -1;
        }
        idx := nodeCount;
        nodeCount := nodeCount + 1;
      }
      pool := Take(pool).pool;
      nodes[idx] := BuddyNode(true, order, offset, -1, -1, parentIdx);
      ChainFrame(before, nodes[..], firstFreeNode, pool.recycled);
    }

    /** Put a slot on top of the recycled ones. */
    method RecycleNode(idx: int)
      requires PoolOk() && 0 <= idx < MAX_NODES && nodes[idx].isFree && idx !in pool.recycled
      modifies `firstFreeNode, `pool, nodes
      ensures PoolOk() && pool == old(pool).(recycled := [idx] + old(pool).recycled)
      ensures forall i :: 0 <= i < nodes.Length && i != idx ==> nodes[i] == old(nodes[i])
    {
      nodes[idx] := nodes[idx].(parent := -1, leftChild := firstFreeNode);
      ChainFrame(old(nodes[..]), nodes[..], firstFreeNode, pool.recycled);
      firstFreeNode := idx;
      pool := pool.(recycled := [idx] + pool.recycled);
      assert pool.recycled[1..] == old(pool).recycled;
    }

    /** Two fresh nodes for the halves of a block, or a negative index when the pool cannot give both. */
    method CreateHalves(nodeIdx: int, childOrder: nat, offset: nat, ghost t: Tree) returns (leftIdx: int, rightIdx: int)
      requires PoolOk() && Apart(t, pool)
      modifies `nodeCount, `firstFreeNode, `pool, nodes
      ensures var k := TakePair(old(pool));
        && PoolOk() && pool == k.pool
        && (k.Refused? ==> leftIdx < 0 || rightIdx < 0)
        && (k.Pair? ==>
              && leftIdx == k.left && rightIdx == k.right
              && 0 <= leftIdx < MAX_NODES && 0 <= rightIdx < MAX_NODES
              && nodes[leftIdx] == BuddyNode(true, childOrder, offset, -1, -1, nodeIdx)
              && nodes[rightIdx] == BuddyNode(true, childOrder, offset + Pow2(childOrder), -1, -1, nodeIdx))
      ensures Untouched(old(nodes[..]), nodes[..], t, old(pool))
      ensures forall i :: i in SlotSet(t) && 0 <= i < nodes.Length ==> nodes[i] == old(nodes[i])
    {
      TakePairMoves(t, pool);
      TakeMoves(t, pool);
      TakeMoves(t, Take(pool).pool);
      leftIdx := CreateNode(childOrder, offset, nodeIdx, t);
      rightIdx := -1;
      if leftIdx >= 0 {
        rightIdx := CreateNode(childOrder, offset + Pow2(childOrder), nodeIdx, t);
        if rightIdx < 0 {
          RecycleNode(leftIdx);
        }
      }
    }

    /** Give a leaf two free halves if it may be split and the pool has two slots; a split node is left as it is. */
    method SplitNode(nodeIdx: int, ghost t: Tree, ghost order: nat, ghost off: nat, ghost parent: int) returns (r: int)
      requires t.slot == nodeIdx && Holds(t, order, off, parent)
      modifies `nodeCount, `firstFreeNode, `pool, nodes
      ensures var k := TakePair(old(pool));
        if t.Split? then r == 0 && pool == old(pool) && Holds(t, order, off, parent)
        else if order <= MIN_ORDER then r == -1 && pool == old(pool) && Holds(t, order, off, parent)
        else if k.Refused? then r == -1 && pool == k.pool && Holds(t, order, off, parent)
        else r == 0 && pool == k.pool && Holds(Split(nodeIdx, Leaf(k.left, true), Leaf(k.right, true)), order, off,
                                               parent)
      ensures Untouched(old(nodes[..]), nodes[..], t, old(pool))
    {
      ChildSlots(t, pool);
      assert nodeIdx in SlotSet(t);
      if nodeIdx < 0 || nodeIdx >= nodeCount {
        return -1;
      }
      if nodes[nodeIdx].order <= MIN_ORDER {
        return -1;
      }
      if nodes[nodeIdx].leftChild != -1 {
        return 0;
      }
      TakePairMoves(t, pool);
      var leftIdx, rightIdx := CreateHalves(nodeIdx, nodes[nodeIdx].order - 1, nodes[nodeIdx].offset, t);
      if leftIdx < 0 || rightIdx < 0 {
        ShapeFrame(old(nodes[..]), nodes[..], t, order, off, parent);
        return -1;
      }
      HalvesApart(t, old(pool));
      ghost var before := nodes[..];
      nodes[nodeIdx] := nodes[nodeIdx].(leftChild := leftIdx, rightChild := rightIdx);
      ChainFrame(before, nodes[..], firstFreeNode, pool.recycled);
      return 0;
    }

    method UpdateNodeStatus(nodeIdx: int)
      requires nodes.Length == MAX_NODES && nodeCount <= MAX_NODES
      requires 0 <= nodeIdx < nodeCount && nodes[nodeIdx].leftChild != -1 ==>
        0 <= nodes[nodeIdx].leftChild < MAX_NODES && 0 <= nodes[nodeIdx].rightChild < MAX_NODES
      modifies nodes
      ensures forall i :: 0 <= i < nodes.Length && i != nodeIdx ==> nodes[i] == old(nodes[i])
      ensures 0 <= nodeIdx < nodes.Length ==>
        var was := old(nodes[nodeIdx]);
        var both := nodeIdx < nodeCount && was.leftChild != -1;
        nodes[nodeIdx] == was.(isFree := if both then old(nodes[was.leftChild].isFree && nodes[was.rightChild].isFree)
                               else was.isFree)
    {
      if nodeIdx < 0 || nodeIdx >= nodeCount {
        return;
      }
      if nodes[nodeIdx].leftChild == -1 {
        return;
      }
      var leftIdx := nodes[nodeIdx].leftChild;
      var rightIdx := nodes[nodeIdx].rightChild;
      nodes[nodeIdx] := nodes[nodeIdx].(isFree := nodes[leftIdx].isFree && nodes[rightIdx].isFree);
    }

    /** Occupy the node if it is a free leaf of just the required order. */
    method TryAllocateExactSize(nodeIdx: int, requiredOrder: nat, ghost t: Tree, ghost order: nat, ghost off: nat,
                                ghost parent: int) returns (r: int)
      requires t.slot == nodeIdx && Holds(t, order, off, parent)
      modifies nodes
      ensures if t.Leaf? && t.free && order == requiredOrder
        then r == nodeIdx && Holds(Leaf(nodeIdx, false), order, off, parent)
        else r == -1 && nodes[..] == old(nodes[..])
      ensures Untouched(old(nodes[..]), nodes[..], t, pool)
    {
      assert t.slot in SlotSet(t);
      var node := nodes[nodeIdx];
      if node.order == requiredOrder && node.leftChild == -1 {
        assert t.Leaf? by { ChildSlots(t, pool); }
        if !node.isFree {
          return -1;
        }
        ghost var before := nodes[..];
        nodes[nodeIdx] := node.(isFree := false);
        ChainFrame(before, nodes[..], firstFreeNode, pool.recycled);
        return nodeIdx;
      }
      return -1;
    }

    /** The left half first, then the right one; the status of the node is recomputed after a success. */
    method SearchHalves(nodeIdx: int, requiredOrder: nat, ghost t: Tree, ghost order: nat, ghost off: nat,
                        ghost parent: int) returns (r: int)
      requires t.Split? && t.slot == nodeIdx && Holds(t, order, off, parent) && requiredOrder >= MIN_ORDER
      modifies `nodeCount, `firstFreeNode, `pool, nodes
      ensures var a := AllocHalves(nodeIdx, t.left, t.right, old(pool), order, off, requiredOrder);
        Holds(a.tree, order, off, parent) && pool == a.pool && r == (if a.Hit? then a.slot else -1)
      ensures Untouched(old(nodes[..]), nodes[..], t, old(pool))
      decreases order, 0, 1
    {
      ghost var ns0, p0 := nodes[..], pool;
      ghost var a := Alloc(t.left, p0, order - 1, off, requiredOrder);
      r := SearchLeft(nodeIdx, requiredOrder, t, order, off, parent);
      ghost var half := Split(nodeIdx, a.tree, t.right);
      if r != -1 {
        RefreshStatus(nodeIdx, half, order, off, parent);
        return;
      }
      ghost var ns1, p1 := nodes[..], pool;
      ghost var b := Alloc(t.right, p1, order - 1, off + Half(order), requiredOrder);
      r := SearchRight(nodeIdx, requiredOrder, half, order, off, parent);
      UntouchedInTurn(ns0, ns1, nodes[..], t, a.tree, p0, p1);
      if r != -1 {
        RefreshStatus(nodeIdx, Split(nodeIdx, a.tree, b.tree), order, off, parent);
      }
    }

    method SearchLeft(nodeIdx: int, requiredOrder: nat, ghost t: Tree, ghost order: nat, ghost off: nat,
                      ghost parent: int) returns (r: int)
      requires t.Split? && t.slot == nodeIdx && Holds(t, order, off, parent) && requiredOrder >= MIN_ORDER
      modifies `nodeCount, `firstFreeNode, `pool, nodes
      ensures var a := Alloc(t.left, old(pool), order - 1, off, requiredOrder);
        && Holds(Split(nodeIdx, a.tree, t.right), order, off, parent) && pool == a.pool
        && r == (if a.Hit? then a.slot else -1) && (a.Hit? ==> a.slot >= 0)
        && SlotsMove(t.left, old(pool), a.tree, a.pool) && nodeIdx < old(pool).used
      ensures Untouched(old(nodes[..]), nodes[..], t, old(pool))
          && Untouched(old(nodes[..]), nodes[..], t.left, old(pool))
      decreases order, 0, 0
    {
      ApartHalves(nodeIdx, t.left, t.right, pool);
      ChildSlots(t, pool);
      AllocKeepsSlotsApart(t.left, pool, order - 1, off, requiredOrder);
      AllocFits(t.left, pool, order - 1, off, requiredOrder);
      HitSlot(t.left, pool, order - 1, off, requiredOrder);
      ghost var a := Alloc(t.left, pool, order - 1, off, requiredOrder);
      r := FindAndAllocate(nodes[nodeIdx].leftChild, requiredOrder, t.left, order - 1, off, nodeIdx);
      HalfDone(old(nodes[..]), nodes[..], t, a.tree, order, off, parent, old(pool), pool);
    }

    method SearchRight(nodeIdx: int, requiredOrder: nat, ghost t: Tree, ghost order: nat, ghost off: nat,
                       ghost parent: int) returns (r: int)
      requires t.Split? && t.slot == nodeIdx && Holds(t, order, off, parent) && requiredOrder >= MIN_ORDER
      modifies `nodeCount, `firstFreeNode, `pool, nodes
      ensures var b := Alloc(t.right, old(pool), order - 1, off + Half(order), requiredOrder);
        && Holds(Split(nodeIdx, t.left, b.tree), order, off, parent) && pool == b.pool
        && r == (if b.Hit? then b.slot else -1) && (b.Hit? ==> b.slot >= 0)
      ensures Untouched(old(nodes[..]), nodes[..], t.right, old(pool))
      decreases order, 0, 0
    {
      ApartHalves(nodeIdx, t.left, t.right, pool);
      ChildSlots(t, pool);
      AllocKeepsSlotsApart(t.right, pool, order - 1, off + Half(order), requiredOrder);
      AllocFits(t.right, pool, order - 1, off + Half(order), requiredOrder);
      HitSlot(t.right, pool, order - 1, off + Half(order), requiredOrder);
      ghost var b := Alloc(t.right, pool, order - 1, off + Half(order), requiredOrder);
      r := FindAndAllocate(nodes[nodeIdx].rightChild, requiredOrder, t.right, order - 1, off + Half(order), nodeIdx);
      OtherHalfDone(old(nodes[..]), nodes[..], t, b.tree, order, off, parent, old(pool), pool);
    }

    method RefreshStatus(nodeIdx: int, ghost t: Tree, ghost order: nat, ghost off: nat, ghost parent: int)
      requires t.Split? && t.slot == nodeIdx && Holds(t, order, off, parent)
      modifies nodes
      ensures Holds(t, order, off, parent)
      ensures forall i :: 0 <= i < nodes.Length && i != nodeIdx ==> nodes[i] == old(nodes[i])
    {
      ChildSlots(t, pool);
      ApartHalves(nodeIdx, t.left, t.right, pool);
      assert nodeIdx in SlotSet(t);
      UpdateNodeStatus(nodeIdx);
      ChainFrame(old(nodes[..]), nodes[..], firstFreeNode, pool.recycled);
      ShapeFrame(old(nodes[..]), nodes[..], t.left, order - 1, off, nodeIdx);
      ShapeFrame(old(nodes[..]), nodes[..], t.right, order - 1, off + Half(order), nodeIdx);
    }

    /** The node is a leaf larger than required: split it and search the halves. */
    method TrySplitAndAllocate(nodeIdx: int, requiredOrder: nat, ghost t: Tree, ghost order: nat, ghost off: nat,
                               ghost parent: int) returns (r: int)
      requires t.Leaf? && t.slot == nodeIdx && Holds(t, order, off, parent) && requiredOrder >= MIN_ORDER
      requires order > requiredOrder || !t.free
      modifies `nodeCount, `firstFreeNode, `pool, nodes
      ensures var a := Alloc(t, old(pool), order, off, requiredOrder);
        Holds(a.tree, order, off, parent) && pool == a.pool && r == (if a.Hit? then a.slot else -1)
      ensures Untouched(old(nodes[..]), nodes[..], t, old(pool))
      decreases order, 1
    {
      if !nodes[nodeIdx].isFree {
        return -1;
      }
      ghost var ns0, p0 := nodes[..], pool;
      TakePairMoves(t, p0);
      var split := SplitNode(nodeIdx, t, order, off, parent);
      if split < 0 {
        return -1;
      }
      ghost var k := TakePair(p0);
      ghost var halves := Split(nodeIdx, Leaf(k.left, true), Leaf(k.right, true));
      ghost var ns1 := nodes[..];
      r := SearchHalves(nodeIdx, requiredOrder, halves, order, off, parent);
      UntouchedSplit(ns0, ns1, nodes[..], t, p0);
    }

    /** First fit in the subtree of the node. */
    method FindAndAllocate(nodeIdx: int, requiredOrder: nat, ghost t: Tree, ghost order: nat, ghost off: nat,
                           ghost parent: int) returns (r: int)
      requires t.slot == nodeIdx && Holds(t, order, off, parent) && requiredOrder >= MIN_ORDER
      modifies `nodeCount, `firstFreeNode, `pool, nodes
      ensures var a := Alloc(t, old(pool), order, off, requiredOrder);
        Holds(a.tree, order, off, parent) && pool == a.pool && r == (if a.Hit? then a.slot else -1)
      ensures Untouched(old(nodes[..]), nodes[..], t, old(pool))
      decreases order, 2
    {
      ChildSlots(t, pool);
      if nodeIdx < 0 || nodeIdx >= nodeCount {
        return -1;
      }
      if nodes[nodeIdx].order < requiredOrder {
        return -1;
      }
      r := TryAllocateExactSize(nodeIdx, requiredOrder, t, order, off, parent);
      if r != -1 {
        return;
      }
      if nodes[nodeIdx].leftChild == -1 {
        r := TrySplitAndAllocate(nodeIdx, requiredOrder, t, order, off, parent);
      } else {
        r := SearchHalves(nodeIdx, requiredOrder, t, order, off, parent);
      }
    }

    /** The node t is stored below its ancestors, next to a well-formed pool. */
    ghost predicate Below(path: Path, t: Tree, order: nat, off: nat)
      reads this, nodes
    {
      && PoolOk() && Fits(t, order) && Apart(Plug(path, t), pool)
      && Shape(nodes[..], t, order, off, ParentSlot(path)) && PathShape(nodes[..], path, t.slot, order, off, maxOrder)
    }

    /** Turn the parent of two free leaves into a free leaf; their slots are recycled. */
    method JoinHalves(parentIdx: int, leftIdx: int, rightIdx: int, ghost up: Path, ghost order: nat, ghost off: nat)
      requires Below(up, Split(parentIdx, Leaf(leftIdx, true), Leaf(rightIdx, true)), order, off)
      modifies `firstFreeNode, `pool, nodes
      ensures pool == old(pool).(recycled := [rightIdx, leftIdx] + old(pool).recycled)
      ensures Below(up, Leaf(parentIdx, true), order, off)
    {
      JoinApart(up, parentIdx, leftIdx, rightIdx, pool);
      ghost var ns0 := nodes[..];
      assert Shape(ns0, Leaf(leftIdx, true), order - 1, off, parentIdx);
      assert Shape(ns0, Leaf(rightIdx, true), order - 1, off + Half(order), parentIdx);
      nodes[parentIdx] := nodes[parentIdx].(isFree := true);
      ChainFrame(ns0, nodes[..], firstFreeNode, pool.recycled);
      RecycleNode(leftIdx);
      RecycleNode(rightIdx);
      ghost var ns1 := nodes[..];
      nodes[parentIdx] := nodes[parentIdx].(leftChild := -1, rightChild := -1);
      ChainFrame(ns1, nodes[..], firstFreeNode, pool.recycled);
      PathFrame(ns0, nodes[..], up, parentIdx, order, off, maxOrder);
      assert pool.recycled == [rightIdx, leftIdx] + old(pool).recycled;
    }

    /** Merge two buddies if both are free leaves, and go on with their parent. */
    method MergeBuddies(parentIdx: int, leftIdx: int, rightIdx: int, ghost l: Tree, ghost r: Tree, ghost up: Path,
                        ghost order: nat, ghost off: nat)
      requires l.slot == leftIdx && r.slot == rightIdx && Below(up, Split(parentIdx, l, r), order, off)
      modifies `firstFreeNode, `pool, nodes
      ensures var f := Rebuild(up, Merge(parentIdx, l, r, old(pool)));
        && pool == f.pool && PoolOk() && Fits(f.tree, maxOrder) && Shape(nodes[..], f.tree, maxOrder, 0, -1)
      decreases up, 1
    {
      PlugSlots(up, Split(parentIdx, l, r));
      assert Apart(Split(parentIdx, l, r), pool);
      ApartHalves(parentIdx, l, r, pool);
      ChildSlots(Split(parentIdx, l, r), pool);
      ChildSlots(l, pool);
      ChildSlots(r, pool);
      assert Shape(nodes[..], l, order - 1, off, parentIdx)
          && Shape(nodes[..], r, order - 1, off + Half(order), parentIdx);
      if nodes[leftIdx].isFree && nodes[rightIdx].isFree && nodes[leftIdx].leftChild == -1
          && nodes[rightIdx].leftChild == -1 {
        assert l == Leaf(leftIdx, true) && r == Leaf(rightIdx, true);
        JoinHalves(parentIdx, leftIdx, rightIdx, up, order, off);
        TryMerge(parentIdx, up, order, off);
      } else {
        NoMergeAbove(up, Split(parentIdx, l, r), pool);
        PlugShape(nodes[..], up, Split(parentIdx, l, r), order, off, maxOrder);
      }
    }

    /** The node has just become a free leaf: merge upwards as far as possible. */
    method TryMerge(nodeIdx: int, ghost path: Path, ghost order: nat, ghost off: nat)
      requires Below(path, Leaf(nodeIdx, true), order, off)
      modifies `firstFreeNode, `pool, nodes
      ensures var f := Rebuild(path, Freed(Leaf(nodeIdx, true), old(pool)));
        && pool == f.pool && PoolOk() && Fits(f.tree, maxOrder) && Shape(nodes[..], f.tree, maxOrder, 0, -1)
      decreases path, 0
    {
      PlugSlots(path, Leaf(nodeIdx, true));
      assert nodeIdx in SlotSet(Plug(path, Leaf(nodeIdx, true)));
      if nodeIdx < 0 || nodeIdx >= nodeCount {
        return;
      }
      var parentIdx := nodes[nodeIdx].parent;
      if parentIdx < 0 {
        assert path.Top? by { ParentInRange(nodes[..], path, nodeIdx, order, off, maxOrder); }
        return;
      }
      assert !path.Top?;
      ghost var up := path.up;
      ghost var l := if path.InLeft? then Leaf(nodeIdx, true) else path.left;
      ghost var r := if path.InLeft? then path.right else Leaf(nodeIdx, true);
      ghost var base := if path.InLeft? then off else off - Pow2(order);
      assert Plug(path, Leaf(nodeIdx, true)) == Plug(up, Split(parentIdx, l, r));
      PlugSlots(up, Split(parentIdx, l, r));
      assert Apart(Split(parentIdx, l, r), pool);
      ChildSlots(Split(parentIdx, l, r), pool);
      if nodes[parentIdx].leftChild >= 0 && nodes[parentIdx].rightChild >= 0 {
        MergeBuddies(parentIdx, nodes[parentIdx].leftChild, nodes[parentIdx].rightChild, l, r, up, order + 1, base);
      }
    }

    // ----- the interface

    static method Log2Int(n: nat) returns (r: nat)
      ensures n >= 1 ==> Pow2(r) <= n < Pow2(r + 1)
      ensures n == 0 ==> r == 0
    {
      r := 0;
      var m := n;
      while m > 1
        invariant n >= 1 ==> m >= 1 && Pow2(r) * m <= n < Pow2(r) * (m + 1)
        invariant n == 0 ==> m == 0 && r == 0
      {
        HalvingStep(Pow2(r), m, n);
        m := m / 2;
        r := r + 1;
      }
    }

    /** The largest order whose block fits in the region, but at least MIN_ORDER. */
    static method LargestOrder(size: nat) returns (max: nat)
      ensures max >= MIN_ORDER
      ensures size >= Pow2(MIN_ORDER) ==> Pow2(max) <= size < Pow2(max + 1)
      ensures size < Pow2(MIN_ORDER) ==> max == MIN_ORDER
    {
      var capacity := Log2Int(size);
      max := MIN_ORDER;
      while Pow2(max + 1) <= size && max < capacity
        invariant max >= MIN_ORDER
        invariant size >= Pow2(MIN_ORDER) ==> Pow2(max) <= size
        invariant size < Pow2(MIN_ORDER) ==> max == MIN_ORDER
        decreases capacity - max
      {
        assert size < Pow2(MIN_ORDER) ==> false by { Pow2Monotone(MIN_ORDER, max + 1); }
        max := max + 1;
      }
      if size >= Pow2(MIN_ORDER) && Pow2(max + 1) <= size {
        Pow2Monotone(capacity + 1, max + 1);
      }
    }

    constructor MemInit(startInclusive: nat, size: nat)
      requires startInclusive > 0
      ensures Valid() && fresh(nodes)
      ensures Heap(tree, pool) == InitialHeap()
      ensures minAddress == startInclusive && totalSize == size
      ensures size >= Pow2(MIN_ORDER) ==> Pow2(maxOrder) <= size < Pow2(maxOrder + 1)
      ensures size < Pow2(MIN_ORDER) ==> maxOrder == MIN_ORDER
    {
      minAddress := startInclusive;
      totalSize := size;
      var max := LargestOrder(size);
      maxOrder := max;
      rootIndex := 0;
      var ns := new BuddyNode[MAX_NODES](_ => BuddyNode(false, 0, 0, 0, 0, 0));
      ns[0] := BuddyNode(true, max, 0, -1, -1, -1);
      nodes := ns;
      nodeCount := 1;
      firstFreeNode := -1;
      tree := Leaf(0, true);
      pool := Pool([], 1);
    }

    method GetOrder(size: nat) returns (order: nat)
      requires maxOrder >= MIN_ORDER
      ensures order == OrderFor(size, maxOrder)
    {
      order := MIN_ORDER;
      while Pow2(order) < size && order < maxOrder
        invariant MIN_ORDER <= order <= maxOrder
        invariant OrderFrom(order, size, maxOrder) == OrderFor(size, maxOrder)
      {
        order := order + 1;
      }
    }

    /** The address of the block that serves the request, or 0. */
    method MemAlloc(bytes: nat) returns (address: nat)
      requires Valid()
      modifies this, nodes
      ensures Valid()
      ensures var a := Request(old(Heap(tree, pool)), maxOrder, bytes);
        && Heap(tree, pool) == Heap(a.tree, a.pool)
        && address == (if a.Hit? then minAddress + a.offset else 0)
      ensures var t, req := old(tree), OrderFor(bytes, maxOrder);
        var v := Vacant(t, maxOrder, 0);
        && (address != 0 <==> bytes > 0 && (Room(t, old(pool), maxOrder, req) || Exact(v, req)))
        && (address != 0 ==>
              && address >= minAddress
              && var b := Block(address - minAddress, req);
                 b !in Live(t, maxOrder, 0) && Live(tree, maxOrder, 0) == Live(t, maxOrder, 0) + {b})
        && (address == 0 ==> Live(tree, maxOrder, 0) == Live(t, maxOrder, 0))
      ensures bytes == 0 ==> Heap(tree, pool) == old(Heap(tree, pool))
    {
      if bytes == 0 {
        return 0;
      }
      RequestSucceedsExactly(Heap(tree, pool), maxOrder, bytes);
      StepKeepsGood(Heap(tree, pool), maxOrder, totalSize, AllocOp(bytes));
      var requiredOrder := GetOrder(bytes);
      HitSlot(tree, pool, maxOrder, 0, requiredOrder);
      AllocAddsBlock(tree, pool, maxOrder, 0, requiredOrder);
      ghost var a := Alloc(tree, pool, maxOrder, 0, requiredOrder);
      var nodeIdx := FindAndAllocate(rootIndex, requiredOrder, tree, maxOrder, 0, -1);
      tree := a.tree;
      if nodeIdx < 0 {
        return 0;
      }
      LiveSlotOffset(nodes[..], tree, maxOrder, 0, -1, a.offset);
      return minAddress + nodes[nodeIdx].offset;
    }

    /** The slot of the allocated block at the address, or -1. */
    method FindNodeByAddress(address: nat) returns (r: int)
      requires Valid()
      ensures r == if minAddress <= address < minAddress + totalSize
                   then FindLive(tree, maxOrder, 0, address - minAddress) else -1
    {
      if address < minAddress || address >= minAddress + totalSize {
        return -1;
      }
      var offset := address - minAddress;
      for i := 0 to nodeCount
        invariant forall j :: 0 <= j < i ==> !LiveLeafAt(nodes[j], offset)
      {
        if nodes[i].offset == offset && !nodes[i].isFree && nodes[i].leftChild == -1 {
          if i in pool.recycled {
            ChainIsFree(nodes[..], firstFreeNode, pool.recycled, i);
            assert false;
          }
          ScanHit(nodes[..], tree, maxOrder, 0, -1, i, offset);
          return i;
        }
      }
      LiveSlotOffset(nodes[..], tree, maxOrder, 0, -1, offset);
      return -1;
    }

    method MemFree(chunkStart: nat)
      requires Valid()
      modifies this, nodes
      ensures Valid()
      ensures Heap(tree, pool) == Release(old(Heap(tree, pool)), maxOrder, totalSize,
                                          if chunkStart == 0 then -1 else chunkStart - minAddress)
      ensures FreesBlock(old(Heap(tree, pool)), Heap(tree, pool), maxOrder, totalSize, chunkStart - minAddress)
    {
      ReleaseFreesBlock(Heap(tree, pool), maxOrder, totalSize, chunkStart - minAddress);
      if chunkStart == 0 {
        return;
      }
      var nodeIdx := FindNodeByAddress(chunkStart);
      if nodeIdx < 0 {
        return;
      }
      FreeFound(nodeIdx, chunkStart - minAddress);
    }

    /** Free the allocated leaf in the slot and merge upwards. */
    method FreeFound(nodeIdx: int, ghost at: nat)
      requires Valid() && nodeIdx == FindLive(tree, maxOrder, 0, at) && nodeIdx >= 0
      modifies this, nodes
      ensures Valid()
      ensures var f := Free(old(tree), old(pool), maxOrder, 0, at);
        tree == f.tree && pool == f.pool
    {
      StepKeepsGood(Heap(tree, pool), maxOrder, at + 1, FreeOp(at));
      LiveSlotOffset(nodes[..], tree, maxOrder, 0, -1, at);
      ghost var path, leafOrder := WayDown(nodes[..], tree, pool, maxOrder, 0, at, Top, maxOrder);
      FreeLeafInPlace(nodeIdx, path, leafOrder, at);
      ghost var f := Free(tree, pool, maxOrder, 0, at);
      TryMerge(nodeIdx, path, leafOrder, at);
      tree := f.tree;
    }

    /** Mark the allocated leaf free and refresh the status of its parent. */
    method FreeLeafInPlace(nodeIdx: int, ghost path: Path, ghost order: nat, ghost off: nat)
      requires Below(path, Leaf(nodeIdx, false), order, off)
      modifies nodes
      ensures Below(path, Leaf(nodeIdx, true), order, off)
    {
      PlugSlots(path, Leaf(nodeIdx, false));
      PlugSlots(path, Leaf(nodeIdx, true));
      PlugShrink(path, Leaf(nodeIdx, false), Leaf(nodeIdx, true));
      ghost var ns0 := nodes[..];
      nodes[nodeIdx] := nodes[nodeIdx].(isFree := true);
      ChainFrame(ns0, nodes[..], firstFreeNode, pool.recycled);
      PathFrame(ns0, nodes[..], path, nodeIdx, order, off, maxOrder);
      var parentIdx := nodes[nodeIdx].parent;
      if parentIdx >= 0 {
        RefreshParent(path, nodeIdx, order, off);
      }
    }

    method RefreshParent(ghost path: Path, nodeIdx: int, ghost order: nat, ghost off: nat)
      requires !path.Top? && Below(path, Leaf(nodeIdx, true), order, off)
      modifies nodes
      ensures Below(path, Leaf(nodeIdx, true), order, off)
    {
      ghost var ns0 := nodes[..];
      ParentSlots(path, Leaf(nodeIdx, true), pool);
      UpdateNodeStatus(nodes[nodeIdx].parent);
      ChainFrame(ns0, nodes[..], firstFreeNode, pool.recycled);
      StatusFrame(ns0, nodes[..], path, nodeIdx, order, off, maxOrder);
    }

    /** Count the leaves below a node and add up their sizes, allocated ones and free ones. */
    method CountLeafNodes(nodeIdx: int, allocatedCount: nat, allocatedMemory: nat, freeCount: nat, freeMemory: nat,
                          ghost t: Tree, ghost order: nat, ghost off: nat, ghost parent: int)
        returns (ac: nat, am: nat, fc: nat, fm: nat)
      requires t.slot == nodeIdx && Holds(t, order, off, parent) && (parent == -1 ==> nodeIdx == rootIndex)
      ensures var ls := Leaves(t, order, off);
        && ac == allocatedCount + Count(ls, false) && am == allocatedMemory + Bytes(ls, false)
        && fc == freeCount + Count(ls, true) && fm == freeMemory + Bytes(ls, true)
      decreases order
    {
      ac, am, fc, fm := allocatedCount, allocatedMemory, freeCount, freeMemory;
      ChildSlots(t, pool);
      if nodeIdx < 0 || nodeIdx >= nodeCount {
        return;
      }
      if nodes[nodeIdx].parent == -1 && nodeIdx != rootIndex {
        return;
      }
      if nodes[nodeIdx].leftChild == -1 {
        var blockSize := Pow2(nodes[nodeIdx].order);
        assert Leaves(t, order, off)[1..] == [];
        if nodes[nodeIdx].isFree {
          fc, fm := fc + 1, fm + blockSize;
        } else {
          ac, am := ac + 1, am + blockSize;
        }
        return;
      }
      ApartHalves(nodeIdx, t.left, t.right, pool);
      BytesAppend(Leaves(t.left, order - 1, off), Leaves(t.right, order - 1, off + Half(order)), false);
      BytesAppend(Leaves(t.left, order - 1, off), Leaves(t.right, order - 1, off + Half(order)), true);
      ac, am, fc, fm := CountLeafNodes(nodes[nodeIdx].leftChild, ac, am, fc, fm, t.left, order - 1, off, nodeIdx);
      ac, am, fc, fm := CountLeafNodes(nodes[nodeIdx].rightChild, ac, am, fc, fm, t.right, order - 1,
                                       off + Half(order), nodeIdx);
    }

    method MemStatus() returns (total: nat, occupied: nat, free: nat, fragments: nat)
      requires Valid()
      ensures total == totalSize
      ensures var ls := Leaves(tree, maxOrder, 0);
        occupied == Bytes(ls, false) && free == Bytes(ls, true) && fragments == Count(ls, true)
      ensures occupied + free == Pow2(maxOrder)
    {
      total := totalSize;
      var allocatedBlocks;
      allocatedBlocks, occupied, fragments, free := CountLeafNodes(rootIndex, 0, 0, 0, 0, tree, maxOrder, 0, -1);
      BytesConserved(tree, maxOrder, 0);
    }
  }

  lemma HalvingStep(p: nat, m: nat, n: nat)
    requires m > 1 && p * m <= n < p * (m + 1)
    ensures 2 * p * (m / 2) <= n < 2 * p * (m / 2 + 1)
  {
    var h := m / 2;
    assert 2 * h <= m <= 2 * h + 1;
    assert p * (2 * h) <= p * m by { MulMonotone(p, 2 * h, m); }
    assert p * (m + 1) <= p * (2 * h + 2) by { MulMonotone(p, m + 1, 2 * h + 2); }
  }

  lemma MulMonotone(p: nat, a: nat, b: nat)
    requires a <= b
    ensures p * a <= p * b
  {
  }

  predicate LiveLeafAt(n: BuddyNode, offset: nat) {
    n.offset == offset && !n.isFree && n.leftChild == -1
  }

  lemma {:induction false} ChainIsFree(ns: seq<BuddyNode>, head: int, free: seq<int>, i: int)
    requires Chain(ns, head, free) && i in free
    ensures 0 <= i < |ns| && ns[i].isFree
    decreases |free|
  {
    if i != head {
      ChainIsFree(ns, ns[head].leftChild, free[1..], i);
    }
  }

  /** A node that looks allocated and starts at the offset is the one FindLive finds. */
  lemma {:induction false} ScanHit(ns: seq<BuddyNode>, t: Tree, order: nat, off: nat, parent: int, i: int, target: nat)
    requires Fits(t, order) && Shape(ns, t, order, off, parent) && i in SlotSet(t)
    requires forall x :: x in SlotSet(t) ==> 0 <= x < |ns|
    requires LiveLeafAt(ns[i], target)
    ensures FindLive(t, order, off, target) == i && off <= target < off + Pow2(order)
  {
    match t
    case Leaf(_, _) =>
    case Split(s, l, r) =>
      assert l.slot in SlotSet(l);
      assert i != s;
      if i in SlotSet(l) {
        ScanHit(ns, l, order - 1, off, s, i, target);
      } else {
        ScanHit(ns, r, order - 1, off + Half(order), s, i, target);
      }
  }

  /** The slot FindLive finds holds an allocated leaf at the offset. */
  lemma {:induction false} LiveSlotOffset(ns: seq<BuddyNode>, t: Tree, order: nat, off: nat, parent: int, target: nat)
    requires Fits(t, order) && Shape(ns, t, order, off, parent)
    ensures var s := FindLive(t, order, off, target);
      s != -1 ==> s in SlotSet(t) && 0 <= s < |ns| && LiveLeafAt(ns[s], target) && off <= target < off + Pow2(order)
  {
    match t
    case Leaf(_, _) =>
    case Split(s, l, r) =>
      LiveSlotOffset(ns, l, order - 1, off, s, target);
      LiveSlotOffset(ns, r, order - 1, off + Half(order), s, target);
  }

  lemma ParentSlots(path: Path, t: Tree, p: Pool)
    requires !path.Top? && Apart(Plug(path, t), p)
    ensures path.slot != t.slot && path.slot !in p.recycled && path.slot in PathSlots(path)
    ensures path.slot !in PathSlots(path.up)
    ensures path.slot !in SlotSet(if path.InLeft? then path.right else path.left)
    ensures 0 <= t.slot < p.used && 0 <= (if path.InLeft? then path.right else path.left).slot < p.used
  {
    var joined := if path.InLeft? then Split(path.slot, t, path.right) else Split(path.slot, path.left, t);
    PlugSlots(path.up, joined);
    assert Apart(joined, p);
    ChildSlots(joined, p);
  }

  /** Changing the flag of a split node does not matter. */
  lemma StatusFrame(ns: seq<BuddyNode>, ns': seq<BuddyNode>, path: Path, hole: int, order: nat, off: nat, max: nat)
    requires !path.Top? && PathShape(ns, path, hole, order, off, max) && |ns'| == |ns|
    requires path.slot !in PathSlots(path.up)
    requires path.slot !in SlotSet(if path.InLeft? then path.right else path.left)
    requires forall i :: 0 <= i < |ns| && i != path.slot ==> ns'[i] == ns[i]
    requires 0 <= path.slot < |ns| ==> ns'[path.slot] == ns[path.slot].(isFree := ns'[path.slot].isFree)
    ensures PathShape(ns', path, hole, order, off, max)
  {
    match path
    case InLeft(s, r, up) =>
      ShapeFrame(ns, ns', r, order, off + Pow2(order), s);
      PathFrame(ns, ns', up, s, order + 1, off, max);
    case InRight(s, l, up) =>
      ShapeFrame(ns, ns', l, order, off - Pow2(order), s);
      PathFrame(ns, ns', up, s, order + 1, off - Pow2(order), max);
  }

  lemma ParentInRange(ns: seq<BuddyNode>, path: Path, hole: int, order: nat, off: nat, max: nat)
    requires PathShape(ns, path, hole, order, off, max) && ParentSlot(path) < 0
    ensures path.Top?
  {
  }

  /** The slot of a hit is a slot of the tree. */
  lemma HitSlot(t: Tree, p: Pool, order: nat, off: nat, req: nat)
    requires Fits(t, order) && req >= MIN_ORDER && Apart(t, p)
    ensures var a := Alloc(t, p, order, off, req);
      a.Hit? ==> a.slot >= 0
  {
    AllocAddsBlock(t, p, order, off, req);
    AllocKeepsSlotsApart(t, p, order, off, req);
    var a := Alloc(t, p, order, off, req);
    if a.Hit? {
      FindLiveExact(a.tree, order, off, a.offset);
      assert Block(a.offset, req) in Live(a.tree, order, off);
    }
  }

  /** After work in the left half, the node with its new left half is stored. */
  lemma HalfDone(ns: seq<BuddyNode>, ns': seq<BuddyNode>, t: Tree, l': Tree, order: nat, off: nat, parent: int,
                 p: Pool, p': Pool)
    requires t.Split? && Fits(t, order) && Shape(ns, t, order, off, parent) && Apart(t, p)
    requires Untouched(ns, ns', t.left, p)
    requires l'.slot == t.left.slot && Shape(ns', l', order - 1, off, t.slot)
    requires Apart(l', p') && SlotsMove(t.left, p, l', p')
    ensures Shape(ns', Split(t.slot, l', t.right), order, off, parent) && Apart(Split(t.slot, l', t.right), p')
        && Apart(t.right, p')
    ensures Untouched(ns, ns', t, p)
  {
    ApartHalves(t.slot, t.left, t.right, p);
    ChildSlots(t, p);
    assert t.slot in SlotSet(t);
    SiblingStaysApart(t.slot, t.left, t.right, p, l', p');
    SiblingUntouched(ns, ns', t.left, p, t.right, order - 1, off + Half(order), t.slot);
  }

  lemma OtherHalfDone(ns: seq<BuddyNode>, ns': seq<BuddyNode>, t: Tree, r': Tree, order: nat, off: nat, parent: int,
                      p: Pool, p': Pool)
    requires t.Split? && Shape(ns, t, order, off, parent) && Apart(t, p)
    requires Untouched(ns, ns', t.right, p)
    requires r'.slot == t.right.slot && Shape(ns', r', order - 1, off + Half(order), t.slot)
    requires Apart(r', p') && SlotsMove(t.right, p, r', p')
    ensures Shape(ns', Split(t.slot, t.left, r'), order, off, parent) && Apart(Split(t.slot, t.left, r'), p')
  {
    ApartHalves(t.slot, t.left, t.right, p);
    ChildSlots(t, p);
    assert t.slot in SlotSet(t);
    OtherSiblingStaysApart(t.slot, t.left, t.right, p, r', p');
    SiblingUntouched(ns, ns', t.right, p, t.left, order - 1, off, t.slot);
  }

  lemma UntouchedInTurn(ns: seq<BuddyNode>, ns': seq<BuddyNode>, ns'': seq<BuddyNode>, t: Tree, l': Tree, p: Pool,
                        p': Pool)
    requires t.Split? && Untouched(ns, ns', t.left, p) && Untouched(ns', ns'', t.right, p')
    requires SlotsMove(t.left, p, l', p')
    ensures Untouched(ns, ns'', t, p)
  {
  }

  lemma UntouchedSplit(ns: seq<BuddyNode>, ns': seq<BuddyNode>, ns'': seq<BuddyNode>, t: Tree, p: Pool)
    requires t.Leaf? && Apart(t, p) && TakePair(p).Pair?
    requires Untouched(ns, ns', t, p)
    requires var k := TakePair(p); Untouched(ns', ns'', Split(t.slot, Leaf(k.left, true), Leaf(k.right, true)), k.pool)
    ensures Untouched(ns, ns'', t, p)
  {
    TakePairMoves(t, p);
    var k := TakePair(p);
    assert SlotSet(Split(t.slot, Leaf(k.left, true), Leaf(k.right, true))) == {t.slot, k.left, k.right};
  }

  lemma HalvesApart(t: Tree, p: Pool)
    requires Apart(t, p) && t.Leaf? && TakePair(p).Pair?
    ensures var k := TakePair(p);
      Apart(Split(t.slot, Leaf(k.left, true), Leaf(k.right, true)), k.pool)
  {
    TakePairMoves(t, p);
    var k := TakePair(p);
    assert t.slot in SlotSet(t);
    assert SlotSet(Split(t.slot, Leaf(k.left, true), Leaf(k.right, true))) == {t.slot, k.left, k.right};
  }

  /** The children of a split node sit in proper slots. */
  lemma ChildSlots(t: Tree, p: Pool)
    requires Apart(t, p)
    ensures 0 <= t.slot < p.used
    ensures t.Split? ==> 0 <= t.left.slot < p.used && 0 <= t.right.slot < p.used
    ensures t.Split? ==> t.left.slot != t.slot && t.right.slot != t.slot && t.left.slot != t.right.slot
  {
    assert t.slot in SlotSet(t);
    if t.Split? {
      assert t.left.slot in SlotSet(t.left);
      assert t.right.slot in SlotSet(t.right);
    }
  }
}
