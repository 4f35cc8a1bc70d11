/**
 * The buddy allocator on values: the lazily split tree, the pool of node slots,
 * and what allocating and freeing do to them.  BuddyHeap refines these functions
 * in place on the node array; the theorems about them are in BuddyTheorems.
 */
module BuddyTree {
  import opened Powers
  import opened Sequences

  const MIN_ORDER: nat := 4
  const MAX_NODES: nat := 8192

  /** A node of the tree: its slot in the node array and, for a leaf, its flag. */
  datatype Tree =
    | Leaf(slot: int, free: bool)
    | Split(slot: int, left: Tree, right: Tree)

  /** The slots outside the tree: those waiting to be reused (next one first), and how many were ever taken. */
  datatype Pool = Pool(recycled: seq<int>, used: nat)

  datatype Block = Block(offset: nat, order: nat)

  /** A tree whose root has the given order: blocks of order MIN_ORDER are never split. */
  predicate Fits(t: Tree, order: nat) {
    match t
    case Leaf(_, _) => order >= MIN_ORDER
    case Split(_, l, r) => order > MIN_ORDER && Fits(l, order - 1) && Fits(r, order - 1)
  }

  // ----- what a tree says about memory

  function Half(order: nat): nat
    requires order > 0
  {
    Pow2(order - 1)
  }

  /** The allocated blocks. */
  function Live(t: Tree, order: nat, off: nat): set<Block>
    requires Fits(t, order)
  {
    match t
    case Leaf(_, free) => if free then {} else {Block(off, order)}
    case Split(_, l, r) => Live(l, order - 1, off) + Live(r, order - 1, off + Half(order))
  }

  /** The free leaves. */
  function Vacant(t: Tree, order: nat, off: nat): set<Block>
    requires Fits(t, order)
  {
    match t
    case Leaf(_, free) => if free then {Block(off, order)} else {}
    case Split(_, l, r) => Vacant(l, order - 1, off) + Vacant(r, order - 1, off + Half(order))
  }

  /** All leaves by increasing address, each with its flag. */
  function Leaves(t: Tree, order: nat, off: nat): seq<(Block, bool)>
    requires Fits(t, order)
  {
    match t
    case Leaf(_, free) => [(Block(off, order), free)]
    case Split(_, l, r) => Leaves(l, order - 1, off) + Leaves(r, order - 1, off + Half(order))
  }

  predicate HasLive(t: Tree) {
    match t
    case Leaf(_, free) => !free
    case Split(_, l, r) => HasLive(l) || HasLive(r)
  }

  // ----- the slot pool

  function SlotSet(t: Tree): set<int> {
    match t
    case Leaf(s, _) => {s}
    case Split(s, l, r) => {s} + SlotSet(l) + SlotSet(r)
  }

  /** How many more slots the pool can hand out. */
  function Available(p: Pool): int {
    |p.recycled| + MAX_NODES - p.used
  }

  datatype Taken = Taken(slot: int, pool: Pool)

  /** The slot createNode returns: a recycled one if there is one, else the next unused one, else -1. */
  function Take(p: Pool): Taken {
    if |p.recycled| > 0 then Taken(p.recycled[0], p.(recycled := p.recycled[1..]))
    else if p.used >= MAX_NODES then Taken(-1, p)
    else Taken(p.used, p.(used := p.used + 1))
  }

  datatype Pair = Pair(left: int, right: int, pool: Pool) | Refused(pool: Pool)

  /** Two slots for the halves of a block; a single one left over goes back to the recycled slots. */
  function TakePair(p: Pool): Pair {
    var l := Take(p);
    if l.slot < 0 then Refused(l.pool)
    else
      var r := Take(l.pool);
      if r.slot < 0 then Refused(r.pool.(recycled := [l.slot] + r.pool.recycled))
      else Pair(l.slot, r.slot, r.pool)
  }

  // ----- allocating

  datatype Outcome =
    | Hit(tree: Tree, pool: Pool, slot: int, offset: nat)
    | Miss(tree: Tree, pool: Pool)

  /** First fit from the left: occupy a free leaf of the required order, splitting a larger one on the way down. */
  function Alloc(t: Tree, p: Pool, order: nat, off: nat, req: nat): Outcome
    requires Fits(t, order) && req >= MIN_ORDER
    decreases order, 1
  {
    if order < req then Miss(t, p)
    else match t
      case Leaf(s, free) =>
        if !free then Miss(t, p)
        else if order == req then Hit(Leaf(s, false), p, s, off)
        else (
          match TakePair(p)
          case Refused(p') => Miss(t, p')
          case Pair(l, r, p') => AllocHalves(s, Leaf(l, true), Leaf(r, true), p', order, off, req))
      case Split(s, l, r) => AllocHalves(s, l, r, p, order, off, req)
  }

  /** The left half first, then the right one. */
  function AllocHalves(s: int, l: Tree, r: Tree, p: Pool, order: nat, off: nat, req: nat): Outcome
    requires order > MIN_ORDER && Fits(l, order - 1) && Fits(r, order - 1) && req >= MIN_ORDER
    decreases order, 0
  {
    match Alloc(l, p, order - 1, off, req)
    case Hit(l', p', slot, at) => Hit(Split(s, l', r), p', slot, at)
    case Miss(l', p') =>
      match Alloc(r, p', order - 1, off + Half(order), req)
      case Hit(r', p'', slot, at) => Hit(Split(s, l', r'), p'', slot, at)
      case Miss(r', p'') => Miss(Split(s, l', r'), p'')
  }

  // ----- freeing

  /** The slot of the allocated leaf that starts at the given offset, or -1. */
  function FindLive(t: Tree, order: nat, off: nat, target: nat): int
    requires Fits(t, order)
  {
    match t
    case Leaf(s, free) => if !free && off == target then s else -1
    case Split(_, l, r) =>
      if target < off + Half(order) then FindLive(l, order - 1, off, target)
      else FindLive(r, order - 1, off + Half(order), target)
  }

  datatype Freed = Freed(tree: Tree, pool: Pool)

  predicate FreeLeaf(t: Tree) {
    t.Leaf? && t.free
  }

  /** Join two buddies if both are free leaves; their slots are recycled, the right one on top. */
  function Merge(s: int, l: Tree, r: Tree, p: Pool): Freed {
    if FreeLeaf(l) && FreeLeaf(r) then Freed(Leaf(s, true), p.(recycled := [r.slot, l.slot] + p.recycled))
    else Freed(Split(s, l, r), p)
  }

  /** Free the leaf at the given offset and merge buddies on the way back to the root. */
  function Free(t: Tree, p: Pool, order: nat, off: nat, target: nat): Freed
    requires Fits(t, order)
  {
    match t
    case Leaf(s, free) => Freed(Leaf(s, true), p)
    case Split(s, l, r) =>
      if target < off + Half(order) then
        var f := Free(l, p, order - 1, off, target);
        Merge(s, f.tree, r, f.pool)
      else
        var f := Free(r, p, order - 1, off + Half(order), target);
        Merge(s, l, f.tree, f.pool)
  }

  lemma {:induction false} AllocFits(t: Tree, p: Pool, order: nat, off: nat, req: nat)
    requires Fits(t, order) && req >= MIN_ORDER
    ensures Fits(Alloc(t, p, order, off, req).tree, order)
    ensures Alloc(t, p, order, off, req).tree.slot == t.slot
    decreases order, 1
  {
    if order >= req {
      match t
      case Leaf(s, free) =>
        if free && order > req && TakePair(p).Pair? {
          var pair := TakePair(p);
          AllocHalvesFits(s, Leaf(pair.left, true), Leaf(pair.right, true), pair.pool, order, off, req);
        }
      case Split(s, l, r) => AllocHalvesFits(s, l, r, p, order, off, req);
    }
  }

  lemma {:induction false} AllocHalvesFits(s: int, l: Tree, r: Tree, p: Pool, order: nat, off: nat, req: nat)
    requires order > MIN_ORDER && Fits(l, order - 1) && Fits(r, order - 1) && req >= MIN_ORDER
    ensures Fits(AllocHalves(s, l, r, p, order, off, req).tree, order)
    ensures AllocHalves(s, l, r, p, order, off, req).tree.slot == s
    decreases order, 0
  {
    AllocFits(l, p, order - 1, off, req);
    AllocFits(r, Alloc(l, p, order - 1, off, req).pool, order - 1, off + Half(order), req);
  }

  lemma {:induction false} FreeFits(t: Tree, p: Pool, order: nat, off: nat, target: nat)
    requires Fits(t, order)
    ensures Fits(Free(t, p, order, off, target).tree, order)
    ensures Free(t, p, order, off, target).tree.slot == t.slot
  {
    match t
    case Leaf(_, _) =>
    case Split(_, l, r) =>
      FreeFits(l, p, order - 1, off, target);
      FreeFits(r, p, order - 1, off + Half(order), target);
  }

  // ----- where slots are

  predicate Distinct(t: Tree) {
    match t
    case Leaf(_, _) => true
    case Split(s, l, r) =>
      && s !in SlotSet(l) && s !in SlotSet(r) && SlotSet(l) !! SlotSet(r)
      && Distinct(l) && Distinct(r)
  }

  /** Tree nodes and recycled slots are different slots, all of them taken at some time. */
  ghost predicate Apart(t: Tree, p: Pool) {
    && Distinct(t) && NoRepeats(p.recycled)
    && (forall x :: x in SlotSet(t) ==> x !in p.recycled && 0 <= x < p.used)
    && (forall x :: x in p.recycled ==> 0 <= x < p.used)
    && p.used <= MAX_NODES
  }

  /** Slots only move between tree and pool: nothing is lost, and what appears was never taken before. */
  ghost predicate SlotsMove(t: Tree, p: Pool, t': Tree, p': Pool) {
    && p.used <= p'.used
    && (forall x :: x in SlotSet(t') || x in p'.recycled <==>
        x in SlotSet(t) || x in p.recycled || p.used <= x < p'.used)
  }

  lemma TakeMoves(t: Tree, p: Pool)
    requires Apart(t, p)
    ensures var k := Take(p);
      && (k.slot >= 0 <==> Available(p) >= 1)
      && (k.slot < 0 ==> k.pool == p)
      && (k.slot >= 0 ==>
            && k.slot !in SlotSet(t) && k.slot !in k.pool.recycled && k.slot < k.pool.used
            && p.used <= k.pool.used && Apart(t, k.pool)
            && Available(k.pool) == Available(p) - 1
            && (forall x :: x == k.slot || x in k.pool.recycled <==> x in p.recycled || p.used <= x < k.pool.used))
  {
    if |p.recycled| > 0 {
      assert p.recycled == [p.recycled[0]] + p.recycled[1..];
      assert p.recycled[0] in p.recycled;
      assert forall x :: x in p.recycled <==> x == p.recycled[0] || x in p.recycled[1..];
    }
  }

  lemma TakePairMoves(t: Tree, p: Pool)
    requires Apart(t, p)
    ensures var k := TakePair(p);
      && (k.Pair? <==> Available(p) >= 2)
      && Available(k.pool) == Available(p) - (if k.Pair? then 2 else 0)
      && Apart(t, k.pool) && p.used <= k.pool.used
      && (k.Refused? ==> SlotsMove(t, p, t, k.pool))
      && (k.Pair? ==>
            && k.left !in SlotSet(t) && k.right !in SlotSet(t) && k.left != k.right
            && k.left !in k.pool.recycled && k.right !in k.pool.recycled
            && 0 <= k.left < k.pool.used && 0 <= k.right < k.pool.used
            && (forall x :: x == k.left || x == k.right || x in k.pool.recycled <==>
                x in p.recycled || p.used <= x < k.pool.used))
  {
    TakeMoves(t, p);
    TakeMoves(t, Take(p).pool);
  }
}
