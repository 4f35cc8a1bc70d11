/** Whole runs of the buddy allocator: any sequence of requests and releases from an initialised heap. */
module BuddyRuns {
  import opened Powers
  import opened BuddyTree
  import opened BuddyTheorems

  /** The first order from the given one that covers the bytes, but never beyond the root's order. */
  function OrderFrom(order: nat, bytes: nat, max: nat): (r: nat)
    requires order <= max
    decreases max - order
    ensures order <= r <= max
  {
    if Pow2(order) < bytes && order < max then OrderFrom(order + 1, bytes, max) else order
  }

  function OrderFor(bytes: nat, max: nat): (r: nat)
    requires max >= MIN_ORDER
    ensures MIN_ORDER <= r <= max
  {
    OrderFrom(MIN_ORDER, bytes, max)
  }

  /** The block covers the request exactly when the request is no larger than the root; then no smaller order covers
      it. */
  lemma OrderCovers(bytes: nat, max: nat)
    requires max >= MIN_ORDER
    ensures bytes <= Pow2(OrderFor(bytes, max)) <==> bytes <= Pow2(max)
    ensures forall o: nat :: MIN_ORDER <= o < OrderFor(bytes, max) ==> Pow2(o) < bytes
  {
    OrderFromCovers(MIN_ORDER, bytes, max);
  }

  lemma {:induction false} OrderFromCovers(order: nat, bytes: nat, max: nat)
    requires order <= max
    ensures bytes <= Pow2(OrderFrom(order, bytes, max)) <==> bytes <= Pow2(max)
    ensures forall o: nat :: order <= o < OrderFrom(order, bytes, max) ==> Pow2(o) < bytes
    decreases max - order
  {
    Pow2Monotone(order, max);
    if Pow2(order) < bytes && order < max {
      OrderFromCovers(order + 1, bytes, max);
    }
  }

  datatype Heap = Heap(tree: Tree, pool: Pool)

  /** A request of some bytes, or the release of the address that lies this far from the start of the heap. */
  datatype Op = AllocOp(bytes: nat) | FreeOp(at: int)

  function InitialHeap(): Heap {
    Heap(Leaf(0, true), Pool([], 1))
  }

  function Request(h: Heap, max: nat, bytes: nat): Outcome
    requires max >= MIN_ORDER && Fits(h.tree, max)
  {
    if bytes == 0 then Miss(h.tree, h.pool)
    else Alloc(h.tree, h.pool, max, 0, OrderFor(bytes, max))
  }

  /** Only the start of an allocated block inside the managed region is released; anything else is ignored. */
  function Release(h: Heap, max: nat, total: nat, at: int): Heap
    requires Fits(h.tree, max)
  {
    if 0 <= at < total && FindLive(h.tree, max, 0, at) >= 0 then
      var f := Free(h.tree, h.pool, max, 0, at);
      Heap(f.tree, f.pool)
    else h
  }

  function Step(h: Heap, max: nat, total: nat, op: Op): (h': Heap)
    requires max >= MIN_ORDER && Fits(h.tree, max)
    ensures Fits(h'.tree, max)
  {
    match op
    case AllocOp(bytes) =>
      AllocFits(h.tree, h.pool, max, 0, OrderFor(bytes, max));
      var a := Request(h, max, bytes);
      Heap(a.tree, a.pool)
    case FreeOp(at) =>
      if 0 <= at then FreeFits(h.tree, h.pool, max, 0, at); Release(h, max, total, at)
      else Release(h, max, total, at)
  }

  function Run(h: Heap, max: nat, total: nat, ops: seq<Op>): (h': Heap)
    requires max >= MIN_ORDER && Fits(h.tree, max)
    ensures Fits(h'.tree, max)
    decreases |ops|
  {
    if ops == [] then h else Run(Step(h, max, total, ops[0]), max, total, ops[1..])
  }

  /** A request larger than the whole heap is not refused: a fresh heap answers it with the root block, which does not
      cover it. */
  lemma OversizedRequestIsServedShort(max: nat, bytes: nat)
    requires max >= MIN_ORDER && bytes > Pow2(max)
    ensures Request(InitialHeap(), max, bytes) == Hit(Leaf(0, false), Pool([], 1), 0, 0)
    ensures Live(Leaf(0, false), max, 0) == {Block(0, max)}
  {
    OversizedOrder(MIN_ORDER, bytes, max);
  }

  lemma {:induction false} OversizedOrder(order: nat, bytes: nat, max: nat)
    requires order <= max && bytes > Pow2(max)
    ensures OrderFrom(order, bytes, max) == max
    decreases max - order
  {
    Pow2Monotone(order, max);
    if order < max {
      OversizedOrder(order + 1, bytes, max);
    }
  }

  // ----- safety in every run, pool exhaustion included

  function Nodes(t: Tree): nat {
    match t
    case Leaf(_, _) => 1
    case Split(_, l, r) => 1 + Nodes(l) + Nodes(r)
  }

  /** The slots taken so far are exactly the tree nodes and the recycled ones, with none in both. */
  ghost predicate Good(h: Heap, max: nat) {
    && Fits(h.tree, max) && h.tree.slot == 0
    && Apart(h.tree, h.pool)
    && (forall x :: x in SlotSet(h.tree) || x in h.pool.recycled <==> 0 <= x < h.pool.used)
    && Nodes(h.tree) + Available(h.pool) == MAX_NODES
  }

  lemma {:induction false} AllocCountsNodes(t: Tree, p: Pool, order: nat, off: nat, req: nat)
    requires Fits(t, order) && req >= MIN_ORDER && Apart(t, p)
    ensures var a := Alloc(t, p, order, off, req);
      Nodes(a.tree) + Available(a.pool) == Nodes(t) + Available(p)
    decreases order, 1
  {
    if order >= req {
      match t
      case Leaf(s, free) =>
        if free && order > req {
          TakePairMoves(t, p);
          var k := TakePair(p);
          if k.Pair? {
            AllocHalvesCountsNodes(s, Leaf(k.left, true), Leaf(k.right, true), k.pool, order, off, req);
          }
        }
      case Split(s, l, r) => AllocHalvesCountsNodes(s, l, r, p, order, off, req);
    }
  }

  lemma {:induction false} AllocHalvesCountsNodes(s: int, l: Tree, r: Tree, p: Pool, order: nat, off: nat, req: nat)
    requires order > MIN_ORDER && Fits(l, order - 1) && Fits(r, order - 1) && req >= MIN_ORDER
    requires Apart(Split(s, l, r), p)
    ensures var a := AllocHalves(s, l, r, p, order, off, req);
      Nodes(a.tree) + Available(a.pool) == Nodes(Split(s, l, r)) + Available(p)
    decreases order, 0
  {
    ApartHalves(s, l, r, p);
    AllocCountsNodes(l, p, order - 1, off, req);
    var a := Alloc(l, p, order - 1, off, req);
    if a.Miss? {
      AllocKeepsSlotsApart(l, p, order - 1, off, req);
      SiblingStaysApart(s, l, r, p, a.tree, a.pool);
      AllocCountsNodes(r, a.pool, order - 1, off + Half(order), req);
    }
  }

  lemma {:induction false} FreeCountsNodes(t: Tree, p: Pool, order: nat, off: nat, target: nat)
    requires Fits(t, order)
    ensures var f := Free(t, p, order, off, target);
      Nodes(f.tree) + Available(f.pool) == Nodes(t) + Available(p)
  {
    match t
    case Leaf(_, _) =>
    case Split(_, l, r) =>
      FreeCountsNodes(l, p, order - 1, off, target);
      FreeCountsNodes(r, p, order - 1, off + Half(order), target);
  }

  lemma StepKeepsGood(h: Heap, max: nat, total: nat, op: Op)
    requires max >= MIN_ORDER && Good(h, max)
    ensures Good(Step(h, max, total, op), max)
  {
    match op
    case AllocOp(bytes) =>
      var req := OrderFor(bytes, max);
      AllocFits(h.tree, h.pool, max, 0, req);
      AllocKeepsSlotsApart(h.tree, h.pool, max, 0, req);
      AllocCountsNodes(h.tree, h.pool, max, 0, req);
    case FreeOp(at) =>
      if at >= 0 {
        FreeFits(h.tree, h.pool, max, 0, at);
        FreeKeepsSlotsApart(h.tree, h.pool, max, 0, at);
        FreeCountsNodes(h.tree, h.pool, max, 0, at);
      }
  }

  lemma {:induction false} RunIsGood(h: Heap, max: nat, total: nat, ops: seq<Op>)
    requires max >= MIN_ORDER && Good(h, max)
    ensures Good(Run(h, max, total, ops), max)
    decreases |ops|
  {
    if ops != [] {
      StepKeepsGood(h, max, total, ops[0]);
      RunIsGood(Step(h, max, total, ops[0]), max, total, ops[1..]);
    }
  }

  /** After any run: slots partition, leaves tile the range aligned and disjoint, and bytes are conserved. */
  lemma EveryRunIsSafe(max: nat, total: nat, ops: seq<Op>)
    requires max >= MIN_ORDER
    ensures var h := Run(InitialHeap(), max, total, ops);
      && Good(h, max)
      && Tiles(Leaves(h.tree, max, 0), 0, Pow2(max))
      && (forall b :: b in Live(h.tree, max, 0) ==>
          b.offset % Pow2(b.order) == 0 && b.offset + Pow2(b.order) <= Pow2(max))
      && (forall b, c :: b in Live(h.tree, max, 0) && c in Live(h.tree, max, 0) && b != c ==> DisjointBlocks(b, c))
      && Bytes(Leaves(h.tree, max, 0), false) + Bytes(Leaves(h.tree, max, 0), true) == Pow2(max)
  {
    InitialHeapIsGood(max);
    RunIsGood(InitialHeap(), max, total, ops);
    var h := Run(InitialHeap(), max, total, ops);
    LeavesTile(h.tree, max, 0);
    BlocksWithin(h.tree, max, 0, 0);
    BlocksAreDisjoint(h.tree, max, 0);
    BytesConserved(h.tree, max, 0);
  }

  lemma InitialHeapIsGood(max: nat)
    requires max >= MIN_ORDER
    ensures Good(InitialHeap(), max) && Tight(InitialHeap().tree)
  {
  }

  // ----- what requests and releases do to the allocated blocks

  /** Between h and h' the allocated block that starts at the offset, if there is one inside the managed region, was
      freed; otherwise nothing happened at all. */
  ghost predicate FreesBlock(h: Heap, h': Heap, max: nat, total: nat, at: int) {
    && Fits(h.tree, max) && Fits(h'.tree, max)
    && (forall b :: b in Live(h.tree, max, 0) && b.offset == at < total ==>
          Live(h'.tree, max, 0) == Live(h.tree, max, 0) - {b})
    && ((forall b :: b in Live(h.tree, max, 0) ==> b.offset != at || at >= total) ==> h' == h)
  }

  /** For every heap a run reaches and every address. */
  lemma ReleaseFreesBlock(h: Heap, max: nat, total: nat, at: int)
    requires max >= MIN_ORDER && Good(h, max)
    ensures FreesBlock(h, Release(h, max, total, at), max, total, at)
  {
    var h' := Release(h, max, total, at);
    if 0 <= at < total {
      FindLiveExact(h.tree, max, 0, at);
      if FindLive(h.tree, max, 0, at) >= 0 {
        FreeRemovesBlock(h.tree, h.pool, max, 0, at);
        BlocksAreDisjoint(h.tree, max, 0);
        forall b | b in Live(h.tree, max, 0) && b.offset == at
          ensures Live(h'.tree, max, 0) == Live(h.tree, max, 0) - {b}
        {
          assert forall c :: c in Live(h.tree, max, 0) && c.offset == at ==> c == b;
        }
      }
    }
  }

  /** The blocks granted and not yet freed, as the answers to the requests of a run say. */
  ghost function Held(h: Heap, max: nat, total: nat, ops: seq<Op>, held: set<Block>): set<Block>
    requires max >= MIN_ORDER && Fits(h.tree, max)
    decreases |ops|
  {
    if ops == [] then held
    else
      var held' :=
        match ops[0]
        case AllocOp(bytes) =>
          var a := Request(h, max, bytes);
          if a.Hit? then held + {Block(a.offset, OrderFor(bytes, max))} else held
        case FreeOp(at) => if at < total then set b | b in held && b.offset != at else held;
      Held(Step(h, max, total, ops[0]), max, total, ops[1..], held')
  }

  /** After every run the allocated blocks are exactly these. */
  lemma {:induction false} LiveIsHeld(h: Heap, max: nat, total: nat, ops: seq<Op>)
    requires max >= MIN_ORDER && Good(h, max)
    ensures Live(Run(h, max, total, ops).tree, max, 0) == Held(h, max, total, ops, Live(h.tree, max, 0))
    decreases |ops|
  {
    if ops != [] {
      var h' := Step(h, max, total, ops[0]);
      match ops[0] {
        case AllocOp(bytes) =>
          if bytes > 0 {
            AllocAddsBlock(h.tree, h.pool, max, 0, OrderFor(bytes, max));
          }
        case FreeOp(at) =>
          ReleaseFreesBlock(h, max, total, at);
          var live := Live(h.tree, max, 0);
          BlocksAreDisjoint(h.tree, max, 0);
          assert Live(h'.tree, max, 0) == if at < total then set b | b in live && b.offset != at else live;
      }
      StepKeepsGood(h, max, total, ops[0]);
      LiveIsHeld(h', max, total, ops[1..]);
    }
  }

  /** A request and the release of its answer, as steps of a run, restore a tight tree exactly when the request met the
      condition. */
  lemma RequestThenReleaseIsIdentity(h: Heap, max: nat, total: nat, bytes: nat)
    requires max >= MIN_ORDER && Good(h, max) && Tight(h.tree)
    requires Request(h, max, bytes).Hit? && Request(h, max, bytes).offset < total
    ensures var h' := Run(h, max, total, [AllocOp(bytes), FreeOp(Request(h, max, bytes).offset)]);
      AllOrNothing(h.tree, h.pool, max, OrderFor(bytes, max)) <==> SkeletonOf(h'.tree) == SkeletonOf(h.tree)
  {
    var a := HitIsFound(h.tree, h.pool, max, OrderFor(bytes, max));
    var ops := [AllocOp(bytes), FreeOp(a.offset)];
    var h1 := Step(h, max, total, ops[0]);
    var h2 := Step(h1, max, total, ops[1]);
    assert ops[1..] == [FreeOp(a.offset)] && ops[1..][1..] == [];
    assert Run(h1, max, total, ops[1..]) == Run(h2, max, total, []);
    AllocThenFreeIsIdentity(h.tree, h.pool, max, OrderFor(bytes, max));
  }

  // ----- when a request fails

  /** A request succeeds exactly when there is room for its splits or a free leaf of its order; which leaf it gets; and
      when it leaves a tight tree tight. */
  lemma RequestSucceedsExactly(h: Heap, max: nat, bytes: nat)
    requires max >= MIN_ORDER && Good(h, max) && bytes >= 1
    ensures var a := Request(h, max, bytes);
      var req := OrderFor(bytes, max);
      var v, room := Vacant(h.tree, max, 0), Room(h.tree, h.pool, max, req);
      && (a.Hit? <==> room || Exact(v, req))
      && (room ==> Lowest(v, req, a.offset))
      && (a.Hit? && !room ==> LowestExact(v, req, a.offset))
      && Served(h.tree, a, max, 0, req)
      && (Tight(h.tree) ==> (Tight(a.tree) <==> AllOrNothing(h.tree, h.pool, max, req)))
  {
    var req := OrderFor(bytes, max);
    AllocIsFirstFit(h.tree, h.pool, max, 0, req);
    AllocAddsBlock(h.tree, h.pool, max, 0, req);
    if Tight(h.tree) {
      AllocKeepsTight(h.tree, h.pool, max, 0, req);
    }
  }

  /** With two slots for every order between the request and the root it fails exactly when no free leaf is large
      enough, and then changes nothing. */
  lemma RequestIsComplete(h: Heap, max: nat, bytes: nat)
    requires max >= MIN_ORDER && Good(h, max) && bytes >= 1
    requires Available(h.pool) >= 2 * (max - OrderFor(bytes, max))
    ensures var a := Request(h, max, bytes);
      var req := OrderFor(bytes, max);
      var v := Vacant(h.tree, max, 0);
      && (a.Hit? <==> Candidate(v, req))
      && (a.Hit? ==> Lowest(v, req, a.offset) && Served(h.tree, a, max, 0, req))
      && (a.Miss? ==> a == Miss(h.tree, h.pool))
  {
    var req := OrderFor(bytes, max);
    RequestSucceedsExactly(h, max, bytes);
    var at := FitOrderIsLowest(h.tree, max, 0, req);
    if FitOrder(h.tree, max, req) < 0 {
      NoCandidateNoChange(h.tree, h.pool, max, 0, req);
    }
  }

  // ----- history independence

  /** Every request of the run finds no large enough leaf, or slots for no split, or slots for all of them. */
  ghost predicate AllOrNothingRun(h: Heap, max: nat, total: nat, ops: seq<Op>)
    requires max >= MIN_ORDER && Fits(h.tree, max)
    decreases |ops|
  {
    ops != [] ==>
      && (ops[0].AllocOp? && ops[0].bytes > 0 ==> AllOrNothing(h.tree, h.pool, max, OrderFor(ops[0].bytes, max)))
      && AllOrNothingRun(Step(h, max, total, ops[0]), max, total, ops[1..])
  }

  ghost predicate TightThroughout(h: Heap, max: nat, total: nat, ops: seq<Op>)
    requires max >= MIN_ORDER && Fits(h.tree, max)
    decreases |ops|
  {
    Tight(h.tree) && (ops != [] ==> TightThroughout(Step(h, max, total, ops[0]), max, total, ops[1..]))
  }

  /** A tight heap stays tight throughout a run exactly when the run is of this kind. */
  lemma {:induction false} RunStaysTightExactly(h: Heap, max: nat, total: nat, ops: seq<Op>)
    requires max >= MIN_ORDER && Good(h, max) && Tight(h.tree)
    ensures AllOrNothingRun(h, max, total, ops) <==> TightThroughout(h, max, total, ops)
    ensures AllOrNothingRun(h, max, total, ops) ==> Tight(Run(h, max, total, ops).tree)
    decreases |ops|
  {
    if ops != [] {
      var h' := Step(h, max, total, ops[0]);
      StepKeepsGood(h, max, total, ops[0]);
      StepStaysTightExactly(h, max, total, ops[0]);
      if Tight(h'.tree) {
        RunStaysTightExactly(h', max, total, ops[1..]);
      }
    }
  }

  lemma StepStaysTightExactly(h: Heap, max: nat, total: nat, op: Op)
    requires max >= MIN_ORDER && Good(h, max) && Tight(h.tree)
    ensures Tight(Step(h, max, total, op).tree) <==>
        (op.AllocOp? && op.bytes > 0 ==> AllOrNothing(h.tree, h.pool, max, OrderFor(op.bytes, max)))
  {
    match op
    case AllocOp(bytes) =>
      if bytes > 0 {
        RequestSucceedsExactly(h, max, bytes);
      }
    case FreeOp(at) =>
      if 0 <= at < total && FindLive(h.tree, max, 0, at) >= 0 {
        FreeKeepsTight(h.tree, h.pool, max, 0, at);
      }
  }

  /** Every request of the run finds enough slots for the worst case. */
  ghost predicate Roomy(h: Heap, max: nat, total: nat, ops: seq<Op>)
    requires max >= MIN_ORDER && Fits(h.tree, max)
    decreases |ops|
  {
    ops != [] ==>
      && (ops[0].AllocOp? ==> Available(h.pool) >= 2 * (max - OrderFor(ops[0].bytes, max)))
      && Roomy(Step(h, max, total, ops[0]), max, total, ops[1..])
  }

  lemma {:induction false} RoomyRunIsAllOrNothing(h: Heap, max: nat, total: nat, ops: seq<Op>)
    requires max >= MIN_ORDER && Good(h, max) && Roomy(h, max, total, ops)
    ensures AllOrNothingRun(h, max, total, ops)
    decreases |ops|
  {
    if ops != [] {
      if ops[0].AllocOp? {
        var at := FitOrderIsLowest(h.tree, max, 0, OrderFor(ops[0].bytes, max));
      }
      StepKeepsGood(h, max, total, ops[0]);
      RoomyRunIsAllOrNothing(Step(h, max, total, ops[0]), max, total, ops[1..]);
    }
  }

  /** Two runs that leave the same blocks allocated leave the same tree, whatever they did before. */
  lemma HistoryIndependence(max: nat, total: nat, ops: seq<Op>, ops': seq<Op>)
    requires max >= MIN_ORDER
    requires AllOrNothingRun(InitialHeap(), max, total, ops) && AllOrNothingRun(InitialHeap(), max, total, ops')
    requires Live(Run(InitialHeap(), max, total, ops).tree, max, 0)
        == Live(Run(InitialHeap(), max, total, ops').tree, max, 0)
    ensures SkeletonOf(Run(InitialHeap(), max, total, ops).tree)
        == SkeletonOf(Run(InitialHeap(), max, total, ops').tree)
  {
    InitialHeapIsGood(max);
    RunStaysTightExactly(InitialHeap(), max, total, ops);
    RunStaysTightExactly(InitialHeap(), max, total, ops');
    TightIsCoarsest(Run(InitialHeap(), max, total, ops).tree, max, 0);
    TightIsCoarsest(Run(InitialHeap(), max, total, ops').tree, max, 0);
  }

  /** When everything has been freed, one free root leaf is left and every other slot can be used again. */
  lemma AllFreedIsOneBlock(max: nat, total: nat, ops: seq<Op>)
    requires max >= MIN_ORDER && AllOrNothingRun(InitialHeap(), max, total, ops)
    requires Live(Run(InitialHeap(), max, total, ops).tree, max, 0) == {}
    ensures var h := Run(InitialHeap(), max, total, ops);
      h.tree == Leaf(0, true) && Available(h.pool) == MAX_NODES - 1
  {
    InitialHeapIsGood(max);
    RunIsGood(InitialHeap(), max, total, ops);
    RunStaysTightExactly(InitialHeap(), max, total, ops);
    var h := Run(InitialHeap(), max, total, ops);
    HasLiveMeansLive(h.tree, max, 0);
  }

  // ----- how many blocks fit before the pool can run out

  lemma {:induction false} TightNodeBound(t: Tree, order: nat, off: nat)
    requires Fits(t, order) && Tight(t)
    ensures Nodes(t) <= NodeBound(order - MIN_ORDER, |Live(t, order, off)|)
  {
    match t
    case Leaf(_, _) =>
    case Split(_, l, r) =>
      TightNodeBound(l, order - 1, off);
      TightNodeBound(r, order - 1, off + Half(order));
      LiveSplits(l, r, order, off);
      var ll, lr := |Live(l, order - 1, off)|, |Live(r, order - 1, off + Half(order))|;
      NodeBoundArithmetic(order - 1 - MIN_ORDER, ll, lr, Nodes(l), Nodes(r));
      assert |Live(t, order, off)| == ll + lr;
  }

  lemma LiveSplits(l: Tree, r: Tree, order: nat, off: nat)
    requires order > MIN_ORDER && Fits(l, order - 1) && Fits(r, order - 1) && Tight(l) && Tight(r)
        && (HasLive(l) || HasLive(r))
    ensures var ll, lr := Live(l, order - 1, off), Live(r, order - 1, off + Half(order));
      && |ll + lr| == |ll| + |lr| && |ll| + |lr| > 0
      && (|ll| == 0 ==> Nodes(l) == 1) && (|lr| == 0 ==> Nodes(r) == 1)
  {
    HalvesAreDisjoint(l, r, order, off);
    HasLiveMeansLive(l, order - 1, off);
    HasLiveMeansLive(r, order - 1, off + Half(order));
  }

  lemma HalvesAreDisjoint(l: Tree, r: Tree, order: nat, off: nat)
    requires order > MIN_ORDER && Fits(l, order - 1) && Fits(r, order - 1)
    ensures Live(l, order - 1, off) !! Live(r, order - 1, off + Half(order))
  {
    BlocksInside(l, order - 1, off);
    BlocksInside(r, order - 1, off + Half(order));
  }

  /** Nodes of a tight tree over d orders with n allocated blocks, at most. */
  function NodeBound(d: nat, n: nat): nat {
    1 + 2 * d * n
  }

  lemma NodeBoundArithmetic(d: nat, ll: nat, lr: nat, nl: nat, nr: nat)
    requires ll + lr > 0
    requires ll == 0 ==> nl == 1
    requires lr == 0 ==> nr == 1
    requires nl <= NodeBound(d, ll) && nr <= NodeBound(d, lr)
    ensures 1 + nl + nr <= NodeBound(d + 1, ll + lr)
  {
    assert NodeBound(d + 1, ll + lr) == 1 + 2 * d * ll + 2 * d * lr + 2 * ll + 2 * lr;
  }

  /** As long as few enough blocks are allocated, a tight heap has room for the next request. */
  lemma FewBlocksMeansRoom(h: Heap, max: nat, bytes: nat)
    requires max >= MIN_ORDER && Good(h, max) && Tight(h.tree)
    requires 2 * (max - MIN_ORDER) * (|Live(h.tree, max, 0)| + 1) < MAX_NODES
    ensures Available(h.pool) >= 2 * (max - OrderFor(bytes, max))
  {
    TightNodeBound(h.tree, max, 0);
    var d, n := max - MIN_ORDER, |Live(h.tree, max, 0)|;
    assert 2 * d * (n + 1) == 2 * d * n + 2 * d;
  }
}
