/** What the buddy allocator keeps, for every tree, every pool of slots and every run. */
module BuddyTheorems {
  import opened Powers
  import opened BuddyTree

  // ----- slots: the tree, the recycled slots and the unused ones partition the node array

  lemma {:induction false} AllocKeepsSlotsApart(t: Tree, p: Pool, order: nat, off: nat, req: nat)
    requires Fits(t, order) && req >= MIN_ORDER && Apart(t, p)
    ensures var a := Alloc(t, p, order, off, req);
      Apart(a.tree, a.pool) && SlotsMove(t, p, a.tree, a.pool) && SlotSet(t) <= SlotSet(a.tree)
    decreases order, 1
  {
    if order >= req {
      match t
      case Leaf(s, free) =>
        if free && order > req {
          TakePairMoves(t, p);
          var k := TakePair(p);
          if k.Pair? {
            AllocHalvesKeepsSlotsApart(s, Leaf(k.left, true), Leaf(k.right, true), k.pool, order, off, req);
          }
        } else {
          assert SlotSet(Leaf(s, false)) == SlotSet(t);
        }
      case Split(s, l, r) => AllocHalvesKeepsSlotsApart(s, l, r, p, order, off, req);
    }
  }

  lemma {:induction false} AllocHalvesKeepsSlotsApart(s: int, l: Tree, r: Tree, p: Pool, order: nat, off: nat, req: nat)
    requires order > MIN_ORDER && Fits(l, order - 1) && Fits(r, order - 1) && req >= MIN_ORDER
    requires Apart(Split(s, l, r), p)
    ensures var a := AllocHalves(s, l, r, p, order, off, req);
      Apart(a.tree, a.pool) && SlotsMove(Split(s, l, r), p, a.tree, a.pool)
          && SlotSet(Split(s, l, r)) <= SlotSet(a.tree)
    decreases order, 0
  {
    ApartHalves(s, l, r, p);
    AllocKeepsSlotsApart(l, p, order - 1, off, req);
    var a := Alloc(l, p, order - 1, off, req);
    SiblingStaysApart(s, l, r, p, a.tree, a.pool);
    if a.Miss? {
      AllocKeepsSlotsApart(r, a.pool, order - 1, off + Half(order), req);
      var b := Alloc(r, a.pool, order - 1, off + Half(order), req);
      OtherSiblingStaysApart(s, a.tree, r, a.pool, b.tree, b.pool);
      SlotsMoveInHalves(s, l, r, p, a.tree, r, a.pool);
      SlotsMoveInHalves(s, a.tree, r, a.pool, a.tree, b.tree, b.pool);
    } else {
      SlotsMoveInHalves(s, l, r, p, a.tree, r, a.pool);
    }
  }

  lemma ApartHalves(s: int, l: Tree, r: Tree, p: Pool)
    requires Apart(Split(s, l, r), p)
    ensures Apart(l, p) && Apart(r, p)
  {
    assert SlotSet(Split(s, l, r)) == {s} + SlotSet(l) + SlotSet(r);
  }

  /** What happens in the left half and the pool does not reach the right half or their parent. */
  lemma SiblingStaysApart(s: int, l: Tree, r: Tree, p: Pool, l': Tree, p': Pool)
    requires Apart(Split(s, l, r), p) && Apart(l', p')
    requires SlotsMove(l, p, l', p')
    ensures Apart(Split(s, l', r), p') && Apart(r, p')
  {
    var t, t' := Split(s, l, r), Split(s, l', r);
    assert SlotSet(t) == {s} + SlotSet(l) + SlotSet(r);
    assert SlotSet(t') == {s} + SlotSet(l') + SlotSet(r);
    forall x | x == s || x in SlotSet(r)
      ensures x !in SlotSet(l') && x !in p'.recycled && 0 <= x < p'.used
    {
      assert x in SlotSet(t);
      assert x !in SlotSet(l) && x !in p.recycled && x < p.used;
    }
  }

  lemma OtherSiblingStaysApart(s: int, l: Tree, r: Tree, p: Pool, r': Tree, p': Pool)
    requires Apart(Split(s, l, r), p) && Apart(r', p')
    requires SlotsMove(r, p, r', p')
    ensures Apart(Split(s, l, r'), p') && Apart(l, p')
  {
    var t, t' := Split(s, l, r), Split(s, l, r');
    assert SlotSet(t) == {s} + SlotSet(l) + SlotSet(r);
    assert SlotSet(t') == {s} + SlotSet(l) + SlotSet(r');
    forall x | x == s || x in SlotSet(l)
      ensures x !in SlotSet(r') && x !in p'.recycled && 0 <= x < p'.used
    {
      assert x in SlotSet(t);
      assert x !in SlotSet(r) && x !in p.recycled && x < p.used;
    }
  }

  lemma SlotsMoveInHalves(s: int, l: Tree, r: Tree, p: Pool, l': Tree, r': Tree, p': Pool)
    requires (SlotsMove(l, p, l', p') && r' == r) || (SlotsMove(r, p, r', p') && l' == l)
    ensures SlotsMove(Split(s, l, r), p, Split(s, l', r'), p')
  {
    assert SlotSet(Split(s, l, r)) == {s} + SlotSet(l) + SlotSet(r);
    assert SlotSet(Split(s, l', r')) == {s} + SlotSet(l') + SlotSet(r');
  }

  lemma {:induction false} FreeKeepsSlotsApart(t: Tree, p: Pool, order: nat, off: nat, target: nat)
    requires Fits(t, order) && Apart(t, p)
    ensures var f := Free(t, p, order, off, target);
      Apart(f.tree, f.pool) && SlotsMove(t, p, f.tree, f.pool) && f.pool.used == p.used
  {
    match t
    case Leaf(s, _) => assert SlotSet(Leaf(s, true)) == SlotSet(t);
    case Split(s, l, r) =>
      ApartHalves(s, l, r, p);
      if target < off + Half(order) {
        var f := Free(l, p, order - 1, off, target);
        FreeKeepsSlotsApart(l, p, order - 1, off, target);
        SiblingStaysApart(s, l, r, p, f.tree, f.pool);
        SlotsMoveInHalves(s, l, r, p, f.tree, r, f.pool);
        MergeKeepsSlotsApart(s, f.tree, r, f.pool);
      } else {
        var f := Free(r, p, order - 1, off + Half(order), target);
        FreeKeepsSlotsApart(r, p, order - 1, off + Half(order), target);
        OtherSiblingStaysApart(s, l, r, p, f.tree, f.pool);
        SlotsMoveInHalves(s, l, r, p, l, f.tree, f.pool);
        MergeKeepsSlotsApart(s, l, f.tree, f.pool);
      }
  }

  lemma MergeKeepsSlotsApart(s: int, l: Tree, r: Tree, p: Pool)
    requires Apart(Split(s, l, r), p)
    ensures var m := Merge(s, l, r, p);
      Apart(m.tree, m.pool) && SlotsMove(Split(s, l, r), p, m.tree, m.pool) && m.pool.used == p.used
  {
    if FreeLeaf(l) && FreeLeaf(r) {
      assert SlotSet(Split(s, l, r)) == {s, l.slot, r.slot};
    }
  }

  // ----- memory: the leaves tile the range, aligned to their own size

  ghost predicate Tiles(ls: seq<(Block, bool)>, lo: nat, hi: nat) {
    if ls == [] then lo == hi
    else ls[0].0.offset == lo && Tiles(ls[1..], lo + Pow2(ls[0].0.order), hi)
  }

  lemma {:induction false} TilesAppend(a: seq<(Block, bool)>, b: seq<(Block, bool)>, lo: nat, mid: nat, hi: nat)
    requires Tiles(a, lo, mid) && Tiles(b, mid, hi)
    ensures Tiles(a + b, lo, hi)
  {
    if a == [] {
      assert a + b == b;
    } else {
      assert (a + b)[1..] == a[1..] + b;
      TilesAppend(a[1..], b, lo + Pow2(a[0].0.order), mid, hi);
    }
  }

  lemma {:induction false} LeavesTile(t: Tree, order: nat, off: nat)
    requires Fits(t, order)
    ensures Tiles(Leaves(t, order, off), off, off + Pow2(order))
  {
    match t
    case Leaf(_, free) =>
      assert Tiles([], off + Pow2(order), off + Pow2(order));
    case Split(_, l, r) =>
      LeavesTile(l, order - 1, off);
      LeavesTile(r, order - 1, off + Half(order));
      TilesAppend(Leaves(l, order - 1, off), Leaves(r, order - 1, off + Half(order)), off, off + Half(order),
                  off + Pow2(order));
  }

  /** The leaf list and the sets of allocated and free blocks say the same. */
  lemma {:induction false} LeavesAreBlocks(t: Tree, order: nat, off: nat)
    requires Fits(t, order)
    ensures forall b :: b in Live(t, order, off) <==> (b, false) in Leaves(t, order, off)
    ensures forall b :: b in Vacant(t, order, off) <==> (b, true) in Leaves(t, order, off)
  {
    match t
    case Leaf(_, free) =>
    case Split(_, l, r) =>
      LeavesAreBlocks(l, order - 1, off);
      LeavesAreBlocks(r, order - 1, off + Half(order));
  }

  /** Every block lies inside the range, has at least the minimal size and is aligned to its own size. */
  lemma {:induction false} BlocksWithin(t: Tree, order: nat, off: nat, k: nat)
    requires Fits(t, order) && off == k * Pow2(order)
    ensures forall b :: b in Live(t, order, off) + Vacant(t, order, off) ==>
      && MIN_ORDER <= b.order <= order
      && off <= b.offset && b.offset + Pow2(b.order) <= off + Pow2(order)
      && b.offset % Pow2(b.order) == 0
  {
    match t
    case Leaf(_, _) => MultipleModulo(k, Pow2(order));
    case Split(_, l, r) =>
      var h := Half(order);
      assert off == (2 * k) * h && off + h == (2 * k + 1) * h;
      BlocksWithin(l, order - 1, off, 2 * k);
      BlocksWithin(r, order - 1, off + h, 2 * k + 1);
  }

  lemma {:induction false} BlocksInside(t: Tree, order: nat, off: nat)
    requires Fits(t, order)
    ensures forall b :: b in Live(t, order, off) || b in Vacant(t, order, off) ==>
      b.order <= order && off <= b.offset && b.offset + Pow2(b.order) <= off + Pow2(order)
  {
    match t
    case Leaf(_, _) =>
    case Split(_, l, r) =>
      BlocksInside(l, order - 1, off);
      BlocksInside(r, order - 1, off + Half(order));
  }

  predicate DisjointBlocks(b: Block, c: Block) {
    b.offset + Pow2(b.order) <= c.offset || c.offset + Pow2(c.order) <= b.offset
  }

  lemma {:induction false} BlocksAreDisjoint(t: Tree, order: nat, off: nat)
    requires Fits(t, order)
    ensures forall b, c :: b in Live(t, order, off) && c in Live(t, order, off) && b != c ==> DisjointBlocks(b, c)
    ensures forall b, c :: b in Live(t, order, off) && c in Vacant(t, order, off) ==> DisjointBlocks(b, c)
  {
    match t
    case Leaf(_, _) =>
    case Split(_, l, r) =>
      BlocksInside(l, order - 1, off);
      BlocksInside(r, order - 1, off + Half(order));
      BlocksAreDisjoint(l, order - 1, off);
      BlocksAreDisjoint(r, order - 1, off + Half(order));
  }

  /** Total size and number of the leaves with the given flag. */
  function Bytes(ls: seq<(Block, bool)>, free: bool): nat {
    if ls == [] then 0 else (if ls[0].1 == free then Pow2(ls[0].0.order) else 0) + Bytes(ls[1..], free)
  }

  function Count(ls: seq<(Block, bool)>, free: bool): nat {
    if ls == [] then 0 else (if ls[0].1 == free then 1 else 0) + Count(ls[1..], free)
  }

  lemma {:induction false} BytesAppend(a: seq<(Block, bool)>, b: seq<(Block, bool)>, free: bool)
    ensures Bytes(a + b, free) == Bytes(a, free) + Bytes(b, free)
    ensures Count(a + b, free) == Count(a, free) + Count(b, free)
  {
    if a == [] {
      assert a + b == b;
    } else {
      assert (a + b)[1..] == a[1..] + b;
      BytesAppend(a[1..], b, free);
    }
  }

  /** Occupied and free bytes together are the whole range. */
  lemma {:induction false} BytesConserved(t: Tree, order: nat, off: nat)
    requires Fits(t, order)
    ensures Bytes(Leaves(t, order, off), false) + Bytes(Leaves(t, order, off), true) == Pow2(order)
  {
    match t
    case Leaf(_, free) =>
      var ls := Leaves(t, order, off);
      assert ls[1..] == [];
    case Split(_, l, r) =>
      BytesConserved(l, order - 1, off);
      BytesConserved(r, order - 1, off + Half(order));
      BytesAppend(Leaves(l, order - 1, off), Leaves(r, order - 1, off + Half(order)), false);
      BytesAppend(Leaves(l, order - 1, off), Leaves(r, order - 1, off + Half(order)), true);
  }

  // ----- what allocating and freeing do to the set of allocated blocks

  /** Between t and t' exactly one block became allocated: the one of order req at the given offset, held by
      the slot. */
  ghost predicate Adds(t: Tree, t': Tree, order: nat, off: nat, req: nat, slot: int, at: nat) {
    && Fits(t, order) && Fits(t', order)
    && Live(t', order, off) == Live(t, order, off) + {Block(at, req)}
    && Block(at, req) !in Live(t, order, off)
    && FindLive(t', order, off, at) == slot
    && off <= at && at + Pow2(req) <= off + Pow2(order)
  }

  ghost predicate Served(t: Tree, a: Outcome, order: nat, off: nat, req: nat) {
    match a
    case Hit(t', _, slot, at) => Adds(t, t', order, off, req, slot, at)
    case Miss(t', _) => Fits(t, order) && Fits(t', order) && Live(t', order, off) == Live(t, order, off)
  }

  /** A hit adds exactly the returned block; a miss changes no allocated block. */
  lemma {:induction false} AllocAddsBlock(t: Tree, p: Pool, order: nat, off: nat, req: nat)
    requires Fits(t, order) && req >= MIN_ORDER
    ensures Served(t, Alloc(t, p, order, off, req), order, off, req)
    decreases order, 1
  {
    if order >= req {
      match t
      case Leaf(s, free) =>
        if free && order > req && TakePair(p).Pair? {
          var k := TakePair(p);
          var halves := Split(s, Leaf(k.left, true), Leaf(k.right, true));
          AllocHalvesAddsBlock(s, halves.left, halves.right, k.pool, order, off, req);
          assert Live(halves, order, off) == Live(t, order, off);
        }
      case Split(s, l, r) => AllocHalvesAddsBlock(s, l, r, p, order, off, req);
    }
  }

  lemma {:induction false} AllocHalvesAddsBlock(s: int, l: Tree, r: Tree, p: Pool, order: nat, off: nat, req: nat)
    requires order > MIN_ORDER && Fits(l, order - 1) && Fits(r, order - 1) && req >= MIN_ORDER
    ensures Served(Split(s, l, r), AllocHalves(s, l, r, p, order, off, req), order, off, req)
    decreases order, 0
  {
    var a := Alloc(l, p, order - 1, off, req);
    AllocAddsBlock(l, p, order - 1, off, req);
    if a.Hit? {
      AddsOnTheLeft(s, l, r, a.tree, order, off, req, a.slot, a.offset);
    } else {
      var b := Alloc(r, a.pool, order - 1, off + Half(order), req);
      AllocAddsBlock(r, a.pool, order - 1, off + Half(order), req);
      if b.Hit? {
        AddsOnTheRight(s, l, r, a.tree, b.tree, order, off, req, b.slot, b.offset);
      }
    }
  }

  lemma AddsOnTheLeft(s: int, l: Tree, r: Tree, l': Tree, order: nat, off: nat, req: nat, slot: int, at: nat)
    requires order > MIN_ORDER && Fits(r, order - 1) && Adds(l, l', order - 1, off, req, slot, at)
    ensures Adds(Split(s, l, r), Split(s, l', r), order, off, req, slot, at)
  {
    BlocksInside(r, order - 1, off + Half(order));
    assert Block(at, req) !in Live(r, order - 1, off + Half(order));
  }

  lemma AddsOnTheRight(s: int, l: Tree, r: Tree, l': Tree, r': Tree, order: nat, off: nat, req: nat, slot: int, at: nat)
    requires order > MIN_ORDER && Fits(l, order - 1) && Fits(l', order - 1)
    requires Live(l', order - 1, off) == Live(l, order - 1, off)
    requires Adds(r, r', order - 1, off + Half(order), req, slot, at)
    ensures Adds(Split(s, l, r), Split(s, l', r'), order, off, req, slot, at)
  {
    BlocksInside(l, order - 1, off);
    assert Block(at, req) !in Live(l, order - 1, off);
  }

  /** FindLive finds a slot exactly when some allocated block starts at the offset. */
  lemma {:induction false} FindLiveExact(t: Tree, order: nat, off: nat, target: nat)
    requires Fits(t, order) && forall x :: x in SlotSet(t) ==> x >= 0
    ensures FindLive(t, order, off, target) >= 0 <==> exists b :: b in Live(t, order, off) && b.offset == target
    ensures FindLive(t, order, off, target) >= -1
  {
    match t
    case Leaf(s, free) =>
      assert s in SlotSet(t);
      if !free && off == target {
        assert Block(off, order) in Live(t, order, off);
      }
    case Split(s, l, r) =>
      assert SlotSet(t) == {s} + SlotSet(l) + SlotSet(r);
      FindLiveExact(l, order - 1, off, target);
      FindLiveExact(r, order - 1, off + Half(order), target);
      BlocksInside(l, order - 1, off);
      BlocksInside(r, order - 1, off + Half(order));
      assert forall b :: b in Live(t, order, off) <==>
          b in Live(l, order - 1, off) || b in Live(r, order - 1, off + Half(order));
  }

  /** Freeing removes exactly the block that starts at the offset. */
  lemma {:induction false} FreeRemovesBlock(t: Tree, p: Pool, order: nat, off: nat, target: nat)
    requires Fits(t, order) && FindLive(t, order, off, target) >= 0
    ensures var f := Free(t, p, order, off, target);
      && Fits(f.tree, order)
      && (forall b :: b in Live(f.tree, order, off) <==> b in Live(t, order, off) && b.offset != target)
  {
    FreeFits(t, p, order, off, target);
    match t
    case Leaf(_, _) =>
    case Split(s, l, r) =>
      BlocksInside(l, order - 1, off);
      BlocksInside(r, order - 1, off + Half(order));
      if target < off + Half(order) {
        FreeRemovesBlock(l, p, order - 1, off, target);
      } else {
        FreeRemovesBlock(r, p, order - 1, off + Half(order), target);
      }
  }

  // ----- completeness of first fit

  lemma {:induction false} NoCandidateNoChange(t: Tree, p: Pool, order: nat, off: nat, req: nat)
    requires Fits(t, order) && req >= MIN_ORDER
    requires forall b :: b in Vacant(t, order, off) ==> b.order < req
    ensures Alloc(t, p, order, off, req) == Miss(t, p)
  {
    match t
    case Leaf(_, free) =>
      if free {
        assert Block(off, order) in Vacant(t, order, off);
      }
    case Split(s, l, r) =>
      if order >= req {
        NoCandidateNoChange(l, p, order - 1, off, req);
        NoCandidateNoChange(r, p, order - 1, off + Half(order), req);
      }
  }

  ghost predicate Candidate(v: set<Block>, req: nat) {
    exists b :: b in v && b.order >= req
  }

  /** The offset is that of the lowest free leaf that is large enough. */
  ghost predicate Lowest(v: set<Block>, req: nat, at: nat) {
    && (exists b :: b in v && b.order >= req && b.offset == at)
    && (forall b :: b in v && b.order >= req ==> at <= b.offset)
  }

  /** The order of the lowest free leaf that is large enough, or -1. */
  function FitOrder(t: Tree, order: nat, req: nat): (o: int)
    requires Fits(t, order)
  {
    match t
    case Leaf(_, free) => if free && order >= req then order else -1
    case Split(_, l, r) =>
      var o := FitOrder(l, order - 1, req);
      if o >= 0 then o else FitOrder(r, order - 1, req)
  }

  lemma {:induction false} FitOrderIsLowest(t: Tree, order: nat, off: nat, req: nat) returns (at: nat)
    requires Fits(t, order)
    ensures var o, v := FitOrder(t, order, req), Vacant(t, order, off);
      && (o >= 0 <==> Candidate(v, req))
      && (o >= 0 ==> req <= o <= order && Block(at, o) in v && Lowest(v, req, at))
  {
    match t
    case Leaf(_, free) =>
      at := off;
      assert free ==> Block(off, order) in Vacant(t, order, off);
    case Split(_, l, r) =>
      at := FitOrderIsLowest(l, order - 1, off, req);
      if FitOrder(l, order - 1, req) >= 0 {
        LowestOnTheLeft(l, r, order, off, req, at);
      } else {
        at := FitOrderIsLowest(r, order - 1, off + Half(order), req);
        if FitOrder(r, order - 1, req) >= 0 {
          LowestOnTheRight(l, r, order, off, req, at);
        }
      }
  }

  lemma LowestOnTheLeft(l: Tree, r: Tree, order: nat, off: nat, req: nat, at: nat)
    requires order > MIN_ORDER && Fits(l, order - 1) && Fits(r, order - 1)
    requires Lowest(Vacant(l, order - 1, off), req, at)
    ensures Lowest(Vacant(l, order - 1, off) + Vacant(r, order - 1, off + Half(order)), req, at)
  {
    BlocksInside(l, order - 1, off);
    BlocksInside(r, order - 1, off + Half(order));
  }

  lemma LowestOnTheRight(l: Tree, r: Tree, order: nat, off: nat, req: nat, at: nat)
    requires order > MIN_ORDER && Fits(l, order - 1) && Fits(r, order - 1)
    requires !Candidate(Vacant(l, order - 1, off), req)
    requires Lowest(Vacant(r, order - 1, off + Half(order)), req, at)
    ensures Lowest(Vacant(l, order - 1, off) + Vacant(r, order - 1, off + Half(order)), req, at)
  {
  }

  /** The offset is that of the lowest free leaf of exactly the required order. */
  ghost predicate LowestExact(v: set<Block>, req: nat, at: nat) {
    Block(at, req) in v && forall b :: b in v && b.order == req ==> at <= b.offset
  }

  ghost predicate Exact(v: set<Block>, req: nat) {
    exists b :: b in v && b.order == req
  }

  /** What becomes of a request when the lowest large enough leaf has the order o, or -1: with two slots for every
      split that leaf is served; otherwise only a leaf of the exact order can be, and no pair of slots is left. */
  ghost predicate ServedExactly(v: set<Block>, p: Pool, req: nat, o: int, a: Outcome) {
    && Available(a.pool) <= Available(p)
    && (o < 0 ==> a.Miss?)
    && (o >= 0 && Available(p) >= 2 * (o - req) ==> a.Hit? && Lowest(v, req, a.offset))
    && (o >= 0 && Available(p) < 2 * (o - req) ==>
         && Available(a.pool) < 2
         && (a.Hit? <==> Exact(v, req))
         && (a.Hit? ==> LowestExact(v, req, a.offset)))
  }

  /** Exactly which requests succeed, and where, for every tree and every pool. */
  lemma {:induction false} AllocServesExactly(t: Tree, p: Pool, order: nat, off: nat, req: nat)
    requires Fits(t, order) && req >= MIN_ORDER && Apart(t, p)
    ensures ServedExactly(Vacant(t, order, off), p, req, FitOrder(t, order, req), Alloc(t, p, order, off, req))
    decreases order, 1
  {
    if order < req {
      var at := FitOrderIsLowest(t, order, off, req);
    } else {
      match t
      case Leaf(s, free) =>
        if free && order > req {
          TakePairMoves(t, p);
          var k := TakePair(p);
          if k.Pair? {
            var h := Split(s, Leaf(k.left, true), Leaf(k.right, true));
            AllocHalvesServesExactly(s, h.left, h.right, k.pool, order, off, req);
            var mid := off + Half(order);
            assert Vacant(h.left, order - 1, off) == {Block(off, order - 1)};
            assert Vacant(h.right, order - 1, mid) == {Block(mid, order - 1)};
            assert Vacant(h, order, off) == {Block(off, order - 1), Block(mid, order - 1)};
            assert FitOrder(h, order, req) == order - 1;
          }
        }
      case Split(s, l, r) => AllocHalvesServesExactly(s, l, r, p, order, off, req);
    }
  }

  lemma {:induction false} AllocHalvesServesExactly(s: int, l: Tree, r: Tree, p: Pool, order: nat, off: nat, req: nat)
    requires order > MIN_ORDER && Fits(l, order - 1) && Fits(r, order - 1) && req >= MIN_ORDER
    requires Apart(Split(s, l, r), p)
    ensures ServedExactly(Vacant(Split(s, l, r), order, off), p, req, FitOrder(Split(s, l, r), order, req),
                          AllocHalves(s, l, r, p, order, off, req))
    decreases order, 0
  {
    var mid := off + Half(order);
    ApartHalves(s, l, r, p);
    AllocServesExactly(l, p, order - 1, off, req);
    var a := Alloc(l, p, order - 1, off, req);
    if a.Hit? {
      ServedOnTheLeft(l, r, p, order, off, req, a);
    } else {
      RightStaysApart(s, l, r, p, order, off, req);
      AllocServesExactly(r, a.pool, order - 1, mid, req);
      var b := Alloc(r, a.pool, order - 1, mid, req);
      if FitOrder(l, order - 1, req) < 0 {
        FitOrderMiss(l, p, order - 1, off, req);
        ServedOnlyOnTheRight(l, r, p, order, off, req, b);
      } else {
        ServedAfterTheLeft(l, r, p, order, off, req, a, b);
      }
    }
  }

  lemma RightStaysApart(s: int, l: Tree, r: Tree, p: Pool, order: nat, off: nat, req: nat)
    requires order > MIN_ORDER && Fits(l, order - 1) && req >= MIN_ORDER && Apart(Split(s, l, r), p)
    ensures Apart(r, Alloc(l, p, order - 1, off, req).pool)
  {
    var a := Alloc(l, p, order - 1, off, req);
    ApartHalves(s, l, r, p);
    AllocKeepsSlotsApart(l, p, order - 1, off, req);
    SiblingStaysApart(s, l, r, p, a.tree, a.pool);
  }

  lemma FitOrderMiss(t: Tree, p: Pool, order: nat, off: nat, req: nat)
    requires Fits(t, order) && req >= MIN_ORDER && FitOrder(t, order, req) < 0
    ensures Alloc(t, p, order, off, req) == Miss(t, p)
  {
    var at := FitOrderIsLowest(t, order, off, req);
    NoCandidateNoChange(t, p, order, off, req);
  }

  lemma ServedOnTheLeft(l: Tree, r: Tree, p: Pool, order: nat, off: nat, req: nat, a: Outcome)
    requires order > MIN_ORDER && Fits(l, order - 1) && Fits(r, order - 1)
    requires a.Hit? && ServedExactly(Vacant(l, order - 1, off), p, req, FitOrder(l, order - 1, req), a)
    ensures ServedExactly(Vacant(l, order - 1, off) + Vacant(r, order - 1, off + Half(order)), p, req,
                          FitOrder(l, order - 1, req), a)
  {
    BlocksInside(l, order - 1, off);
    BlocksInside(r, order - 1, off + Half(order));
  }

  /** The left half has no candidate and left the pool alone. */
  lemma ServedOnlyOnTheRight(l: Tree, r: Tree, p: Pool, order: nat, off: nat, req: nat, b: Outcome)
    requires order > MIN_ORDER && Fits(l, order - 1) && Fits(r, order - 1) && FitOrder(l, order - 1, req) < 0
    requires ServedExactly(Vacant(r, order - 1, off + Half(order)), p, req, FitOrder(r, order - 1, req), b)
    ensures ServedExactly(Vacant(l, order - 1, off) + Vacant(r, order - 1, off + Half(order)), p, req,
                          FitOrder(r, order - 1, req), b)
  {
    var vl, vr := Vacant(l, order - 1, off), Vacant(r, order - 1, off + Half(order));
    var x := FitOrderIsLowest(l, order - 1, off, req);
    assert forall c :: c in vl ==> c.order < req;
    assert Exact(vl + vr, req) <==> Exact(vr, req);
  }

  /** The left half was tried in vain, and left slots for no split: only an exact leaf of the right half can do. */
  lemma ServedAfterTheLeft(l: Tree, r: Tree, p: Pool, order: nat, off: nat, req: nat, a: Outcome, b: Outcome)
    requires order > MIN_ORDER && Fits(l, order - 1) && Fits(r, order - 1) && FitOrder(l, order - 1, req) >= 0
    requires a.Miss? && ServedExactly(Vacant(l, order - 1, off), p, req, FitOrder(l, order - 1, req), a)
    requires Available(a.pool) >= 0
    requires ServedExactly(Vacant(r, order - 1, off + Half(order)), a.pool, req, FitOrder(r, order - 1, req), b)
    ensures ServedExactly(Vacant(l, order - 1, off) + Vacant(r, order - 1, off + Half(order)), p, req,
                          FitOrder(l, order - 1, req), b)
  {
    var vl, vr := Vacant(l, order - 1, off), Vacant(r, order - 1, off + Half(order));
    var y := FitOrderIsLowest(r, order - 1, off + Half(order), req);
    assert Exact(vl + vr, req) <==> Exact(vr, req);
  }

  /** There are two slots for every split from the lowest large enough leaf down to the request. */
  predicate Room(t: Tree, p: Pool, order: nat, req: nat)
    requires Fits(t, order)
  {
    var o := FitOrder(t, order, req);
    o >= 0 && Available(p) >= 2 * (o - req)
  }

  /** A request succeeds exactly when there is room, or without it when there is a free leaf of the exact order; in the
      first case it gets the lowest large enough leaf, in the second the lowest exact one. */
  lemma AllocIsFirstFit(t: Tree, p: Pool, order: nat, off: nat, req: nat)
    requires Fits(t, order) && req >= MIN_ORDER && Apart(t, p)
    ensures var a, v, room := Alloc(t, p, order, off, req), Vacant(t, order, off), Room(t, p, order, req);
      && (a.Hit? <==> room || Exact(v, req))
      && (room ==> Lowest(v, req, a.offset))
      && (a.Hit? && !room ==> LowestExact(v, req, a.offset))
  {
    AllocServesExactly(t, p, order, off, req);
    var at := FitOrderIsLowest(t, order, off, req);
  }

  /** A free leaf of exactly the required order is enough, however few slots are left and wherever they are. */
  lemma {:induction false} ExactFitIsServed(t: Tree, p: Pool, order: nat, off: nat, req: nat, c: Block)
    requires Fits(t, order) && req >= MIN_ORDER
    requires c in Vacant(t, order, off) && c.order == req
    ensures Alloc(t, p, order, off, req).Hit?
  {
    BlocksInside(t, order, off);
    match t
    case Leaf(_, _) =>
    case Split(s, l, r) =>
      if c in Vacant(l, order - 1, off) {
        ExactFitIsServed(l, p, order - 1, off, req, c);
      } else {
        ExactFitIsServed(r, Alloc(l, p, order - 1, off, req).pool, order - 1, off + Half(order), req, c);
      }
  }

  // ----- history independence

  /** Every split node has an allocated block below it. */
  predicate Tight(t: Tree) {
    match t
    case Leaf(_, _) => true
    case Split(_, l, r) => HasLive(t) && Tight(l) && Tight(r)
  }

  /** A tree without its slot numbers. */
  datatype Skeleton = FreeBlock | LiveBlock | Cut(left: Skeleton, right: Skeleton)

  function SkeletonOf(t: Tree): Skeleton {
    match t
    case Leaf(_, free) => if free then FreeBlock else LiveBlock
    case Split(_, l, r) => Cut(SkeletonOf(l), SkeletonOf(r))
  }

  /** The coarsest tree over a range that has the given allocated blocks. */
  function Coarsest(live: set<Block>, order: nat, off: nat): Skeleton {
    if live == {} then FreeBlock
    else if Block(off, order) in live || order == 0 then LiveBlock
    else
      var mid := off + Half(order);
      Cut(Coarsest((set b | b in live && b.offset < mid), order - 1, off),
          Coarsest((set b | b in live && b.offset >= mid), order - 1, mid))
  }

  lemma {:induction false} HasLiveMeansLive(t: Tree, order: nat, off: nat)
    requires Fits(t, order)
    ensures HasLive(t) <==> Live(t, order, off) != {}
  {
    match t
    case Leaf(_, free) =>
      if !free {
        assert Block(off, order) in Live(t, order, off);
      }
    case Split(_, l, r) =>
      HasLiveMeansLive(l, order - 1, off);
      HasLiveMeansLive(r, order - 1, off + Half(order));
      assert forall b :: b in Live(t, order, off) <==>
          b in Live(l, order - 1, off) || b in Live(r, order - 1, off + Half(order));
  }

  /** A tight tree is a function of its allocated blocks, and no other tree is the coarsest one. */
  lemma {:induction false} TightIsCoarsest(t: Tree, order: nat, off: nat)
    requires Fits(t, order)
    ensures Tight(t) <==> SkeletonOf(t) == Coarsest(Live(t, order, off), order, off)
  {
    match t
    case Leaf(_, _) =>
    case Split(_, l, r) =>
      var mid := off + Half(order);
      var live := Live(t, order, off);
      HasLiveMeansLive(t, order, off);
      BlocksInside(l, order - 1, off);
      BlocksInside(r, order - 1, mid);
      assert Block(off, order) !in live;
      TightIsCoarsest(l, order - 1, off);
      TightIsCoarsest(r, order - 1, mid);
      assert (set b | b in live && b.offset < mid) == Live(l, order - 1, off);
      assert (set b | b in live && b.offset >= mid) == Live(r, order - 1, mid);
  }

  /** Either no free leaf is large enough, or not even one split is possible, or every split down to the request is. */
  predicate AllOrNothing(t: Tree, p: Pool, order: nat, req: nat)
    requires Fits(t, order)
  {
    FitOrder(t, order, req) < 0 || Available(p) < 2 || Room(t, p, order, req)
  }

  /** A request keeps a tree tight exactly then.  A failing one then leaves the tree as it was; otherwise a split that
      succeeded above a refused one is not undone. */
  lemma {:induction false} AllocKeepsTight(t: Tree, p: Pool, order: nat, off: nat, req: nat)
    requires Fits(t, order) && req >= MIN_ORDER && Apart(t, p) && Tight(t)
    ensures var a := Alloc(t, p, order, off, req);
      && (Tight(a.tree) <==> AllOrNothing(t, p, order, req))
      && (AllOrNothing(t, p, order, req) && a.Miss? ==> a.tree == t)
    decreases order, 1
  {
    if order >= req {
      match t
      case Leaf(s, free) =>
        if free && order > req {
          TakePairMoves(t, p);
          var k := TakePair(p);
          if k.Pair? {
            var l, r := Leaf(k.left, true), Leaf(k.right, true);
            var h := Split(s, l, r);
            AllocServesExactly(t, p, order, off, req);
            AllocKeepsHalvesTight(s, l, r, k.pool, order, off, req);
            AllocLive(t, p, order, off, req);
            assert FitOrder(h, order, req) == order - 1 && !HasLive(h);
            assert !Exact(Vacant(t, order, off), req);
          }
        }
      case Split(s, l, r) => AllocKeepsHalvesTight(s, l, r, p, order, off, req);
    } else {
      var at := FitOrderIsLowest(t, order, off, req);
    }
  }

  /** The same for two halves, one of which may be the only thing below the parent. */
  lemma {:induction false} AllocKeepsHalvesTight(s: int, l: Tree, r: Tree, p: Pool, order: nat, off: nat, req: nat)
    requires order > MIN_ORDER && Fits(l, order - 1) && Fits(r, order - 1) && req >= MIN_ORDER
    requires Apart(Split(s, l, r), p) && Tight(l) && Tight(r)
    ensures var t, a := Split(s, l, r), AllocHalves(s, l, r, p, order, off, req);
      && (HasLive(t) ==> (Tight(a.tree) <==> AllOrNothing(t, p, order, req)))
      && (a.Hit? ==> (Tight(a.tree) <==> AllOrNothing(t, p, order, req)))
      && (AllOrNothing(t, p, order, req) && a.Miss? ==> a.tree == t)
    decreases order, 0
  {
    var mid := off + Half(order);
    ApartHalves(s, l, r, p);
    AllocServesExactly(l, p, order - 1, off, req);
    AllocKeepsTight(l, p, order - 1, off, req);
    AllocLive(l, p, order - 1, off, req);
    var a := Alloc(l, p, order - 1, off, req);
    if a.Miss? {
      RightStaysApart(s, l, r, p, order, off, req);
      AllocServesExactly(r, a.pool, order - 1, mid, req);
      AllocKeepsTight(r, a.pool, order - 1, mid, req);
      AllocLive(r, a.pool, order - 1, mid, req);
      if FitOrder(l, order - 1, req) < 0 {
        FitOrderMiss(l, p, order - 1, off, req);
      }
    }
  }

  lemma AllocLive(t: Tree, p: Pool, order: nat, off: nat, req: nat)
    requires Fits(t, order) && req >= MIN_ORDER
    ensures var a := Alloc(t, p, order, off, req);
      HasLive(a.tree) <==> a.Hit? || HasLive(t)
  {
    AllocAddsBlock(t, p, order, off, req);
    AllocFits(t, p, order, off, req);
    HasLiveMeansLive(t, order, off);
    HasLiveMeansLive(Alloc(t, p, order, off, req).tree, order, off);
  }

  /** Freeing a block keeps a tight tree tight, and never repairs another one: a split node without an allocated
      block is not on the way up from the block, and keeps its ancestors from being merged. */
  lemma {:induction false} FreeKeepsTight(t: Tree, p: Pool, order: nat, off: nat, target: nat)
    requires Fits(t, order) && FindLive(t, order, off, target) >= 0
    ensures Tight(Free(t, p, order, off, target).tree) <==> Tight(t)
  {
    FoundMeansLive(t, order, off, target);
    match t
    case Leaf(_, _) =>
    case Split(s, l, r) =>
      if target < off + Half(order) {
        FreeKeepsTight(l, p, order - 1, off, target);
        var f := Free(l, p, order - 1, off, target);
        MergeTight(s, f.tree, r, f.pool);
      } else {
        FreeKeepsTight(r, p, order - 1, off + Half(order), target);
        var f := Free(r, p, order - 1, off + Half(order), target);
        MergeTight(s, l, f.tree, f.pool);
      }
  }

  lemma MergeTight(s: int, l: Tree, r: Tree, p: Pool)
    ensures Tight(Merge(s, l, r, p).tree) <==> Tight(l) && Tight(r)
  {
    assert Tight(l) ==> FreeLeaf(l) || HasLive(l);
    assert Tight(r) ==> FreeLeaf(r) || HasLive(r);
  }

  lemma {:induction false} FoundMeansLive(t: Tree, order: nat, off: nat, target: nat)
    requires Fits(t, order) && FindLive(t, order, off, target) >= 0
    ensures HasLive(t)
  {
    match t
    case Leaf(_, _) =>
    case Split(_, l, r) =>
      if target < off + Half(order) {
        FoundMeansLive(l, order - 1, off, target);
      } else {
        FoundMeansLive(r, order - 1, off + Half(order), target);
      }
  }

  /** After a hit the lookup finds the new block, and no other allocated block starts there. */
  lemma HitIsFound(t: Tree, p: Pool, order: nat, req: nat) returns (a: Outcome)
    requires Fits(t, order) && req >= MIN_ORDER && Apart(t, p) && Alloc(t, p, order, 0, req).Hit?
    ensures a == Alloc(t, p, order, 0, req) && a.Hit? && Fits(a.tree, order)
    ensures FindLive(a.tree, order, 0, a.offset) >= 0
    ensures forall b :: b in Live(t, order, 0) <==> b in Live(a.tree, order, 0) && b.offset != a.offset
  {
    a := Alloc(t, p, order, 0, req);
    AllocAddsBlock(t, p, order, 0, req);
    AllocKeepsSlotsApart(t, p, order, 0, req);
    FindLiveExact(a.tree, order, 0, a.offset);
    BlocksAreDisjoint(a.tree, order, 0);
    assert Block(a.offset, req) in Live(a.tree, order, 0);
  }

  /** Freeing the block just allocated restores a tight tree, up to slot numbers, exactly when the request left no
      split behind. */
  lemma AllocThenFreeIsIdentity(t: Tree, p: Pool, order: nat, req: nat)
    requires Fits(t, order) && req >= MIN_ORDER && Apart(t, p) && Tight(t)
    requires Alloc(t, p, order, 0, req).Hit?
    ensures var a := Alloc(t, p, order, 0, req);
      && Fits(a.tree, order)
      && (AllOrNothing(t, p, order, req) <==>
           SkeletonOf(Free(a.tree, a.pool, order, 0, a.offset).tree) == SkeletonOf(t))
  {
    var a := HitIsFound(t, p, order, req);
    var f := Free(a.tree, a.pool, order, 0, a.offset);
    AllocKeepsTight(t, p, order, 0, req);
    FreeRemovesBlock(a.tree, a.pool, order, 0, a.offset);
    assert Live(f.tree, order, 0) == Live(t, order, 0);
    FreeKeepsTight(a.tree, a.pool, order, 0, a.offset);
    TightIsCoarsest(t, order, 0);
    TightIsCoarsest(f.tree, order, 0);
  }
}
