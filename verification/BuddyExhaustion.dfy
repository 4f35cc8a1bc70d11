/**
 * A run that uses up the node array: equal requests fill the heap from the left until three slots are left, and a
 * small request then strands a split.  It shows that the condition of the theorems about whole runs is needed.
 */
module BuddyExhaustion {
  import opened Powers
  import opened BuddyTree
  import opened BuddyTheorems
  import opened BuddyRuns

  /** The first n blocks of order r are allocated and what lies behind them is split no more than necessary. */
  predicate LeftFilled(t: Tree, order: nat, r: nat, n: nat)
    requires r <= order
  {
    if n == 0 then FreeLeaf(t)
    else if order == r then t.Leaf? && !t.free && n == 1
    else
      && t.Split?
      && LeftFilled(t.left, order - 1, r, OnTheLeft(order, r, n))
      && LeftFilled(t.right, order - 1, r, n - OnTheLeft(order, r, n))
  }

  /** How many of the first n blocks of order r lie in the left half. */
  function OnTheLeft(order: nat, r: nat, n: nat): (k: nat)
    requires r < order
    ensures k <= n && k <= Pow2(order - 1 - r)
  {
    if n < Pow2(order - 1 - r) then n else Pow2(order - 1 - r)
  }

  /** The nodes of such a tree over d levels. */
  function FilledNodes(d: nat, n: nat): nat {
    if n == 0 || d == 0 then 1
    else
      var k := OnTheLeft(d, 0, n);
      1 + FilledNodes(d - 1, k) + FilledNodes(d - 1, n - k)
  }

  lemma {:induction false} FilledCountsNodes(t: Tree, order: nat, r: nat, n: nat)
    requires r <= order && LeftFilled(t, order, r, n)
    ensures Nodes(t) == FilledNodes(order - r, n)
    decreases order
  {
    if n > 0 && order > r {
      var k := OnTheLeft(order, r, n);
      FilledCountsNodes(t.left, order - 1, r, k);
      FilledCountsNodes(t.right, order - 1, r, n - k);
    }
  }

  lemma {:induction false} FilledNodesBound(d: nat, n: nat)
    requires n <= Pow2(d)
    ensures FilledNodes(d, n) <= 2 * Pow2(d) - 1
    ensures n == Pow2(d) ==> FilledNodes(d, n) == 2 * Pow2(d) - 1
    ensures d >= 1 && n == Pow2(d) - 2 ==> FilledNodes(d, n) == 2 * Pow2(d) - 3
  {
    if n > 0 && d > 0 {
      var k := OnTheLeft(d, 0, n);
      FilledNodesBound(d - 1, k);
      FilledNodesBound(d - 1, n - k);
    }
  }

  /** The only free leaves are of order r or more; without any the heap is full. */
  lemma {:induction false} FilledVacant(t: Tree, order: nat, off: nat, r: nat, n: nat, req: nat)
    requires r <= order && Fits(t, order) && LeftFilled(t, order, r, n) && n <= Pow2(order - r)
    ensures forall b :: b in Vacant(t, order, off) ==> b.order >= r
    ensures n == Pow2(order - r) ==> FitOrder(t, order, req) == -1
    ensures order > r && n == Pow2(order - r) - 2 && req <= r + 1 ==> FitOrder(t, order, req) == r + 1
    decreases order
  {
    if n > 0 && order > r {
      var k := OnTheLeft(order, r, n);
      FilledVacant(t.left, order - 1, off, r, k, req);
      FilledVacant(t.right, order - 1, off + Half(order), r, n - k, req);
    }
  }

  /** The nodes that the next block adds. */
  function NextNodes(d: nat, n: nat): int {
    FilledNodes(d, n + 1) - FilledNodes(d, n)
  }

  lemma NextNodesBelow(d: nat, n: nat)
    requires d > 0 && 0 < n < Pow2(d)
    ensures n < Pow2(d - 1) ==> NextNodes(d, n) == NextNodes(d - 1, n)
    ensures n >= Pow2(d - 1) ==> NextNodes(d, n) == NextNodes(d - 1, n - Pow2(d - 1))
  {
    var h := Pow2(d - 1);
    if n >= h {
      assert n + 1 - h == n - h + 1;
    }
  }

  /** The first request of order r splits a free leaf down to the leftmost block. */
  lemma {:induction false} AllocFillsFirst(s: int, p: Pool, order: nat, off: nat, r: nat)
    requires MIN_ORDER <= r <= order && Apart(Leaf(s, true), p)
    requires Available(p) >= FilledNodes(order - r, 1) - 1
    ensures var a := Alloc(Leaf(s, true), p, order, off, r);
      a.Hit? && LeftFilled(a.tree, order, r, 1)
    decreases order
  {
    if order > r {
      TakePairMoves(Leaf(s, true), p);
      assert FilledNodes(order - r, 1) == 2 + FilledNodes(order - 1 - r, 1);
      var k := TakePair(p);
      ApartHalves(s, Leaf(k.left, true), Leaf(k.right, true), k.pool);
      AllocFillsFirst(k.left, k.pool, order - 1, off, r);
    }
  }

  /** A request of order r takes the next block, as long as there are slots for the nodes this needs. */
  lemma {:induction false} AllocFills(t: Tree, p: Pool, order: nat, off: nat, r: nat, n: nat) returns (a: Outcome)
    requires MIN_ORDER <= r <= order && Fits(t, order) && Apart(t, p) && LeftFilled(t, order, r, n)
    requires n < Pow2(order - r) && Available(p) >= NextNodes(order - r, n)
    ensures a == Alloc(t, p, order, off, r) && a.Hit? && LeftFilled(a.tree, order, r, n + 1)
    decreases order, 1
  {
    if n == 0 {
      AllocFillsFirst(t.slot, p, order, off, r);
      a := Alloc(t, p, order, off, r);
    } else if n < Pow2(order - 1 - r) {
      a := AllocFillsLeft(t, p, order, off, r, n);
    } else {
      a := AllocFillsRight(t, p, order, off, r, n);
    }
  }

  lemma {:induction false} AllocFillsLeft(t: Tree, p: Pool, order: nat, off: nat, r: nat, n: nat) returns (a: Outcome)
    requires MIN_ORDER <= r < order && Fits(t, order) && Apart(t, p) && LeftFilled(t, order, r, n)
    requires 0 < n < Pow2(order - 1 - r) && Available(p) >= NextNodes(order - r, n)
    ensures a == Alloc(t, p, order, off, r) && a.Hit? && LeftFilled(a.tree, order, r, n + 1)
    decreases order, 0
  {
    NextNodesBelow(order - r, n);
    ApartHalves(t.slot, t.left, t.right, p);
    var b := AllocFills(t.left, p, order - 1, off, r, n);
    a := Hit(Split(t.slot, b.tree, t.right), b.pool, b.slot, b.offset);
    assert OnTheLeft(order, r, n + 1) == n + 1;
  }

  lemma {:induction false} AllocFillsRight(t: Tree, p: Pool, order: nat, off: nat, r: nat, n: nat) returns (a: Outcome)
    requires MIN_ORDER <= r < order && Fits(t, order) && Apart(t, p) && LeftFilled(t, order, r, n)
    requires Pow2(order - 1 - r) <= n < Pow2(order - r) && Available(p) >= NextNodes(order - r, n)
    ensures a == Alloc(t, p, order, off, r) && a.Hit? && LeftFilled(a.tree, order, r, n + 1)
    decreases order, 0
  {
    var h := Pow2(order - 1 - r);
    NextNodesBelow(order - r, n);
    ApartHalves(t.slot, t.left, t.right, p);
    FilledVacant(t.left, order - 1, off, r, h, r);
    FitOrderMiss(t.left, p, order - 1, off, r);
    var b := AllocFills(t.right, p, order - 1, off + Half(order), r, n - h);
    a := Hit(Split(t.slot, t.left, b.tree), b.pool, b.slot, b.offset);
    assert OnTheLeft(order, r, n + 1) == h && n + 1 - h == n - h + 1;
  }

  lemma OrderForPower(o: nat, max: nat)
    requires MIN_ORDER <= o <= max
    ensures OrderFor(Pow2(o), max) == o
  {
    OrderCovers(Pow2(o), max);
    Pow2Monotone(o, max);
    if OrderFor(Pow2(o), max) < o {
      Pow2Monotone(OrderFor(Pow2(o), max) + 1, o);
    }
  }

  /** So many equal requests one after the other. */
  function Requests(n: nat, bytes: nat): seq<Op> {
    seq(n, _ => AllocOp(bytes))
  }

  lemma {:induction false} FilledIsTight(t: Tree, order: nat, r: nat, n: nat)
    requires r <= order && LeftFilled(t, order, r, n)
    ensures Tight(t) && (n > 0 ==> HasLive(t))
    decreases order
  {
    if n > 0 && order > r {
      var k := OnTheLeft(order, r, n);
      FilledIsTight(t.left, order - 1, r, k);
      FilledIsTight(t.right, order - 1, r, n - k);
    }
  }

  lemma NextBlockIsServed(h: Heap, max: nat, r: nat, k: nat)
    requires MIN_ORDER <= r <= max && 2 * Pow2(max - r) <= MAX_NODES
    requires Good(h, max) && LeftFilled(h.tree, max, r, k) && k < Pow2(max - r)
    ensures LeftFilled(Alloc(h.tree, h.pool, max, 0, r).tree, max, r, k + 1)
  {
    FilledCountsNodes(h.tree, max, r, k);
    FilledNodesBound(max - r, k + 1);
    var a := AllocFills(h.tree, h.pool, max, 0, r, k);
  }

  lemma FillStep(h: Heap, max: nat, total: nat, r: nat, k: nat) returns (h': Heap)
    requires MIN_ORDER <= r <= max && 2 * Pow2(max - r) <= MAX_NODES
    requires Good(h, max) && LeftFilled(h.tree, max, r, k) && k < Pow2(max - r)
    ensures h' == Step(h, max, total, AllocOp(Pow2(r)))
    ensures Good(h', max) && LeftFilled(h'.tree, max, r, k + 1)
    ensures AllOrNothing(h.tree, h.pool, max, OrderFor(Pow2(r), max))
  {
    h' := Step(h, max, total, AllocOp(Pow2(r)));
    OrderForPower(r, max);
    NextBlockIsServed(h, max, r, k);
    StepKeepsGood(h, max, total, AllocOp(Pow2(r)));
    FilledIsTight(h.tree, max, r, k);
    FilledIsTight(h'.tree, max, r, k + 1);
    StepStaysTightExactly(h, max, total, AllocOp(Pow2(r)));
  }

  /** Equal requests fill the heap from k to m blocks one after the other, if a full tree of such blocks fits the
      array. */
  lemma {:induction false} RequestsFill(h: Heap, max: nat, total: nat, r: nat, k: nat, m: nat)
    requires MIN_ORDER <= r <= max && 2 * Pow2(max - r) <= MAX_NODES
    requires Good(h, max) && LeftFilled(h.tree, max, r, k) && k <= m <= Pow2(max - r)
    ensures var ops := Requests(m - k, Pow2(r));
      var h' := Run(h, max, total, ops);
      Good(h', max) && LeftFilled(h'.tree, max, r, m) && AllOrNothingRun(h, max, total, ops)
    decreases m - k
  {
    if k < m {
      var ops := Requests(m - k, Pow2(r));
      assert ops[0] == AllocOp(Pow2(r)) && ops[1..] == Requests(m - (k + 1), Pow2(r));
      var h' := FillStep(h, max, total, r, k);
      RequestsFill(h', max, total, r, k + 1, m);
      assert Run(h, max, total, ops) == Run(h', max, total, ops[1..]);
    }
  }

  /** When two blocks are missing, three slots are left. */
  lemma AlmostFull(max: nat, total: nat, r: nat) returns (h: Heap)
    requires MIN_ORDER <= r < max && 2 * Pow2(max - r) == MAX_NODES
    ensures var ops := Requests(Pow2(max - r) - 2, Pow2(r));
      h == Run(InitialHeap(), max, total, ops) && AllOrNothingRun(InitialHeap(), max, total, ops)
    ensures Good(h, max) && LeftFilled(h.tree, max, r, Pow2(max - r) - 2) && Available(h.pool) == 3
  {
    var n := Pow2(max - r) - 2;
    h := Run(InitialHeap(), max, total, Requests(n, Pow2(r)));
    InitialHeapIsGood(max);
    RequestsFill(InitialHeap(), max, total, r, 0, n);
    FilledCountsNodes(h.tree, max, r, n);
    FilledNodesBound(max - r, n);
  }

  /** A smaller request then fails although there is a free leaf of twice r's size, and strands a split: the heap is not
      tight any more. */
  lemma SplitIsStranded(h: Heap, max: nat, r: nat, req: nat)
    requires MIN_ORDER <= req && req + 1 < r < max && Good(h, max)
    requires LeftFilled(h.tree, max, r, Pow2(max - r) - 2) && Available(h.pool) == 3
    ensures exists b :: b in Vacant(h.tree, max, 0) && b.order == r + 1
    ensures var a := Request(h, max, Pow2(req));
      && a.Miss? && Fits(a.tree, max) && Live(a.tree, max, 0) == Live(h.tree, max, 0)
      && Tight(h.tree) && !Tight(a.tree)
  {
    FilledIsTight(h.tree, max, r, Pow2(max - r) - 2);
    FilledVacant(h.tree, max, 0, r, Pow2(max - r) - 2, req);
    var at := FitOrderIsLowest(h.tree, max, 0, req);
    assert Block(at, r + 1) in Vacant(h.tree, max, 0);
    OrderForPower(req, max);
    RequestSucceedsExactly(h, max, Pow2(req));
  }

  lemma PowerOfTwelve()
    ensures Pow2(12) == 4096
  {
  }

  /** After 4094 requests of a 4096th of the heap a request four times smaller fails although a free leaf eight times
      its size is there, and it leaves another tree with the same allocated blocks. */
  lemma StrandedSplitIsReached(max: nat, total: nat)
    requires max >= MIN_ORDER + 14
    ensures var fill, small := Requests(4094, Pow2(max - 12)), [AllocOp(Pow2(max - 14))];
      var h, h' := Run(InitialHeap(), max, total, fill), Run(InitialHeap(), max, total, fill + small);
      && AllOrNothingRun(InitialHeap(), max, total, fill) && Available(h.pool) == 3
      && (exists b :: b in Vacant(h.tree, max, 0) && b.order == max - 11)
      && OrderFor(Pow2(max - 14), max) == max - 14
      && Request(h, max, Pow2(max - 14)).Miss?
      && Live(h'.tree, max, 0) == Live(h.tree, max, 0)
      && SkeletonOf(h'.tree) != SkeletonOf(h.tree) && !Tight(h'.tree)
  {
    var fill, small := Requests(4094, Pow2(max - 12)), [AllocOp(Pow2(max - 14))];
    PowerOfTwelve();
    var h := AlmostFull(max, total, max - 12);
    OrderForPower(max - 14, max);
    SplitIsStranded(h, max, max - 12, max - 14);
    assert exists b :: b in Vacant(h.tree, max, 0) && b.order == max - 11;
    RunAppend(InitialHeap(), max, total, fill, small);
    LastRequest(h, max, total, Pow2(max - 14));
  }

  /** One request more: if it fails without keeping the tree tight, only the tree tells the difference. */
  lemma LastRequest(h: Heap, max: nat, total: nat, bytes: nat)
    requires max >= MIN_ORDER && Good(h, max) && bytes > 0
    requires var a := Request(h, max, bytes);
      && a.Miss? && Fits(a.tree, max) && Live(a.tree, max, 0) == Live(h.tree, max, 0)
      && Tight(h.tree) && !Tight(a.tree)
    ensures var h' := Run(h, max, total, [AllocOp(bytes)]);
      && Live(h'.tree, max, 0) == Live(h.tree, max, 0)
      && SkeletonOf(h'.tree) != SkeletonOf(h.tree) && !Tight(h'.tree)
  {
    var h', small := Step(h, max, total, AllocOp(bytes)), [AllocOp(bytes)];
    assert Run(h', max, total, small[1..]) == h';
    TightIsCoarsest(h.tree, max, 0);
    TightIsCoarsest(h'.tree, max, 0);
  }

  /** Releases never repair this: even when every block has been freed the heap is not one free block again. */
  lemma StrandedSplitStays(max: nat, total: nat, frees: seq<Op>)
    requires max >= MIN_ORDER + 14 && forall op :: op in frees ==> op.FreeOp?
    ensures var ops := Requests(4094, Pow2(max - 12)) + [AllocOp(Pow2(max - 14))];
      Run(InitialHeap(), max, total, ops + frees).tree != Leaf(0, true)
  {
    var ops := Requests(4094, Pow2(max - 12)) + [AllocOp(Pow2(max - 14))];
    var h' := Run(InitialHeap(), max, total, ops);
    StrandedSplitIsReached(max, total);
    InitialHeapIsGood(max);
    RunIsGood(InitialHeap(), max, total, ops);
    ReleasesKeepTight(h', max, total, frees);
    RunAppend(InitialHeap(), max, total, ops, frees);
  }

  lemma {:induction false} ReleasesKeepTight(h: Heap, max: nat, total: nat, frees: seq<Op>)
    requires max >= MIN_ORDER && Good(h, max) && forall op :: op in frees ==> op.FreeOp?
    ensures Tight(Run(h, max, total, frees).tree) <==> Tight(h.tree)
    decreases |frees|
  {
    if frees != [] {
      assert frees[0] in frees;
      var at := frees[0].at;
      if 0 <= at < total && FindLive(h.tree, max, 0, at) >= 0 {
        FreeKeepsTight(h.tree, h.pool, max, 0, at);
      }
      StepKeepsGood(h, max, total, frees[0]);
      ReleasesKeepTight(Step(h, max, total, frees[0]), max, total, frees[1..]);
    }
  }

  lemma {:induction false} RunAppend(h: Heap, max: nat, total: nat, ops: seq<Op>, ops': seq<Op>)
    requires max >= MIN_ORDER && Fits(h.tree, max)
    ensures Run(h, max, total, ops + ops') == Run(Run(h, max, total, ops), max, total, ops')
    decreases |ops|
  {
    if ops == [] {
      assert ops + ops' == ops';
    } else {
      assert (ops + ops')[1..] == ops[1..] + ops';
      RunAppend(Step(h, max, total, ops[0]), max, total, ops[1..], ops');
    }
  }
}
