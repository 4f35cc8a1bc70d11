/** Whole runs of the default heap. */
module FreeListRuns {
  import opened FreeList
  import opened FreeListHeap

  datatype Op = AllocOp(size: nat) | FreeOp(ptr: nat)

  /** What callers owe: 64-bit sizes, and only payload addresses of existing blocks are freed. */
  predicate Legal(bs: seq<Block>, op: Op) {
    match op
    case AllocOp(size) => size < WORD
    case FreeOp(ptr) => ptr == NULL || IndexAt(bs, ptr - HEADER_SIZE) < |bs|
  }

  function Step(bs: seq<Block>, op: Op): seq<Block>
    requires Legal(bs, op)
  {
    match op
    case AllocOp(size) => if size == 0 then bs else Allocate(bs, AlignUp(size))
    case FreeOp(ptr) => if ptr == NULL then bs else Release(bs, IndexAt(bs, ptr - HEADER_SIZE))
  }

  ghost predicate LegalRun(bs: seq<Block>, ops: seq<Op>)
    decreases |ops|
  {
    ops != [] ==> Legal(bs, ops[0]) && LegalRun(Step(bs, ops[0]), ops[1..])
  }

  ghost function Run(bs: seq<Block>, ops: seq<Op>): seq<Block>
    requires LegalRun(bs, ops)
    decreases |ops|
  {
    if ops == [] then bs else Run(Step(bs, ops[0]), ops[1..])
  }

  /** In every run the blocks tile the heap, and no two neighbours are free. */
  lemma {:induction false} EveryRunIsGood(bs: seq<Block>, lo: nat, hi: nat, ops: seq<Op>)
    requires Good(bs, lo, hi) && LegalRun(bs, ops)
    ensures Good(Run(bs, ops), lo, hi)
    decreases |ops|
  {
    if ops != [] {
      match ops[0] {
        case AllocOp(size) => AllocateKeepsGood(bs, lo, hi, AlignUp(size));
        case FreeOp(ptr) =>
          if ptr != NULL {
            ReleaseKeepsGood(bs, lo, hi, IndexAt(bs, ptr - HEADER_SIZE));
          }
      }
      EveryRunIsGood(Step(bs, ops[0]), lo, hi, ops[1..]);
    }
  }

  /** One request granted or one block freed, as the answer and the address say. */
  function HeldAfter(bs: seq<Block>, op: Op, held: set<(nat, nat)>): set<(nat, nat)>
    requires Legal(bs, op)
  {
    match op
    case AllocOp(size) =>
      var i, bs' := FirstFit(bs, AlignUp(size)), Step(bs, op);
      if size > 0 && i < |bs| && i < |bs'| then held + {(bs[i].addr, bs'[i].size)} else held
    case FreeOp(ptr) => if ptr == NULL then held else set p | p in held && p.0 + HEADER_SIZE != ptr
  }

  lemma StepLive(bs: seq<Block>, lo: nat, hi: nat, op: Op)
    requires Good(bs, lo, hi) && Legal(bs, op)
    ensures Good(Step(bs, op), lo, hi) && Live(Step(bs, op)) == HeldAfter(bs, op, Live(bs))
  {
    match op
    case AllocOp(size) =>
      AllocateKeepsGood(bs, lo, hi, AlignUp(size));
      AllocateAddsBlock(bs, lo, hi, AlignUp(size));
    case FreeOp(ptr) =>
      if ptr != NULL {
        var i := IndexAt(bs, ptr - HEADER_SIZE);
        ReleaseKeepsGood(bs, lo, hi, i);
        FreedIsForgotten(bs, lo, hi, i);
      }
  }

  /** The blocks granted and not yet freed, by header address and payload size. */
  ghost function Held(bs: seq<Block>, ops: seq<Op>, held: set<(nat, nat)>): set<(nat, nat)>
    requires LegalRun(bs, ops)
    decreases |ops|
  {
    if ops == [] then held else Held(Step(bs, ops[0]), ops[1..], HeldAfter(bs, ops[0], held))
  }

  /** After every run the allocated blocks are exactly these. */
  lemma {:induction false} LiveIsHeld(bs: seq<Block>, lo: nat, hi: nat, ops: seq<Op>)
    requires Good(bs, lo, hi) && LegalRun(bs, ops)
    ensures Live(Run(bs, ops)) == Held(bs, ops, Live(bs))
    decreases |ops|
  {
    if ops != [] {
      StepLive(bs, lo, hi, ops[0]);
      LiveIsHeld(Step(bs, ops[0]), lo, hi, ops[1..]);
    }
  }

  lemma FreedIsForgotten(bs: seq<Block>, lo: nat, hi: nat, i: nat)
    requires Good(bs, lo, hi) && i < |bs|
    ensures Live(Release(bs, i)) == set p | p in Live(bs) && p.0 != bs[i].addr
  {
    ReleaseRemovesBlock(bs, lo, hi, i);
    forall p | p in Live(bs) && p.0 == bs[i].addr
      ensures p == (bs[i].addr, bs[i].size)
    {
      var b :| b in bs && !b.free && p == (b.addr, b.size);
      AddressIdentifies(bs, lo, b, bs[i]);
    }
  }

  /** Once everything a run allocated has been freed, in whatever order, the heap is as mem_init left it. */
  lemma EverythingFreedIsInitialHeap(lo: nat, hi: nat, ops: seq<Op>)
    requires lo + HEADER_SIZE <= hi && LegalRun(InitialBlocks(lo, hi), ops)
    requires Live(Run(InitialBlocks(lo, hi), ops)) == {}
    ensures Run(InitialBlocks(lo, hi), ops) == InitialBlocks(lo, hi)
  {
    SingleBlock(InitialBlocks(lo, hi)[0], lo);
    EveryRunIsGood(InitialBlocks(lo, hi), lo, hi, ops);
    NothingLiveIsOneBlock(Run(InitialBlocks(lo, hi), ops), lo, hi);
  }

  function InitialBlocks(lo: nat, hi: nat): seq<Block>
    requires lo + HEADER_SIZE <= hi
  {
    [Block(lo, hi - lo - HEADER_SIZE, true)]
  }

  /** The header addresses of the allocated blocks. */
  function LiveAddrs(bs: seq<Block>): set<nat> {
    set p | p in Live(bs) :: p.0
  }

  /** The sequence lists the members of the set, each exactly once. */
  ghost predicate ListsOnce(order: seq<nat>, addrs: set<nat>) {
    && (forall a :: a in order <==> a in addrs)
    && (forall i, j :: 0 <= i < j < |order| ==> order[i] != order[j])
  }

  lemma RunCons(bs: seq<Block>, op: Op, rest: seq<Op>)
    requires Legal(bs, op) && LegalRun(Step(bs, op), rest)
    ensures LegalRun(bs, [op] + rest) && Run(bs, [op] + rest) == Run(Step(bs, op), rest)
  {
    assert ([op] + rest)[1..] == rest;
  }

  /** Freeing all allocated blocks, each once and in any order, is always legal and leaves one block. */
  lemma {:induction false} FreeingInAnyOrder(bs: seq<Block>, lo: nat, hi: nat, order: seq<nat>)
    requires Good(bs, lo, hi)
    requires ListsOnce(order, LiveAddrs(bs))
    ensures LegalRun(bs, Frees(order)) && Run(bs, Frees(order)) == [Block(lo, hi - lo - HEADER_SIZE, true)]
    decreases |order|
  {
    if order == [] {
      NothingListed(bs, lo, hi, order);
    } else {
      FreeFirst(bs, lo, hi, order);
      FreeingInAnyOrder(Step(bs, FreeOp(order[0] + HEADER_SIZE)), lo, hi, order[1..]);
      RunCons(bs, FreeOp(order[0] + HEADER_SIZE), Frees(order[1..]));
      FreesCons(order);
    }
  }

  lemma NothingListed(bs: seq<Block>, lo: nat, hi: nat, order: seq<nat>)
    requires Good(bs, lo, hi) && order == [] && ListsOnce(order, LiveAddrs(bs))
    ensures bs == [Block(lo, hi - lo - HEADER_SIZE, true)] && Frees(order) == []
  {
    assert LiveAddrs(bs) == {};
    NoLiveAddrs(bs);
    NothingLiveIsOneBlock(bs, lo, hi);
  }

  lemma FreesCons(order: seq<nat>)
    requires order != []
    ensures Frees(order) == [FreeOp(order[0] + HEADER_SIZE)] + Frees(order[1..])
  {
  }

  lemma FreeFirst(bs: seq<Block>, lo: nat, hi: nat, order: seq<nat>)
    requires Good(bs, lo, hi) && order != []
    requires ListsOnce(order, LiveAddrs(bs))
    ensures var op := FreeOp(order[0] + HEADER_SIZE);
      Legal(bs, op) && Good(Step(bs, op), lo, hi) && ListsOnce(order[1..], LiveAddrs(Step(bs, op)))
  {
    assert order[0] in order;
    LiveAddrIsBlock(bs, order[0]);
    var i := IndexAt(bs, order[0]);
    FreeOneAddr(bs, lo, hi, i);
    ReleaseKeepsGood(bs, lo, hi, i);
    assert forall x :: x in order <==> x == order[0] || x in order[1..];
  }

  function Frees(order: seq<nat>): seq<Op> {
    seq(|order|, i requires 0 <= i < |order| => FreeOp(order[i] + HEADER_SIZE))
  }

  lemma NoLiveAddrs(bs: seq<Block>)
    ensures Live(bs) != {} ==> LiveAddrs(bs) != {}
  {
    if p :| p in Live(bs) {
      assert p.0 in LiveAddrs(bs);
    }
  }

  lemma LiveAddrIsBlock(bs: seq<Block>, a: nat)
    requires a in LiveAddrs(bs)
    ensures IndexAt(bs, a) < |bs|
  {
    var p :| p in Live(bs) && p.0 == a;
    var b :| b in bs && b.addr == a;
  }

  lemma FreeOneAddr(bs: seq<Block>, lo: nat, hi: nat, i: nat)
    requires Good(bs, lo, hi) && i < |bs|
    ensures LiveAddrs(Release(bs, i)) == LiveAddrs(bs) - {bs[i].addr}
  {
    ReleaseRemovesBlock(bs, lo, hi, i);
    forall p | p in Live(bs) && p.0 == bs[i].addr
      ensures p == (bs[i].addr, bs[i].size)
    {
      var b :| b in bs && !b.free && p == (b.addr, b.size);
      AddressIdentifies(bs, lo, b, bs[i]);
    }
    forall a | a in LiveAddrs(bs) && a != bs[i].addr
      ensures a in LiveAddrs(Release(bs, i))
    {
      var p :| p in Live(bs) && p.0 == a;
      assert p in Live(Release(bs, i));
    }
  }

  lemma {:induction false} AddressIdentifies(bs: seq<Block>, lo: nat, b: Block, c: Block)
    requires Tiles(bs, lo) && b in bs && c in bs && b.addr == c.addr
    ensures b == c
  {
    AddressesInside(bs[1..], End(bs[0]));
    if b != bs[0] && c != bs[0] {
      AddressIdentifies(bs[1..], End(bs[0]), b, c);
    }
  }

  // ----- alignment

  /** All headers lie a multiple of the alignment behind the address. */
  predicate InStep(bs: seq<Block>, lo: nat) {
    forall b :: b in bs ==> b.addr % ALIGNMENT == lo % ALIGNMENT
  }

  lemma AllocateKeepsInStep(bs: seq<Block>, lo: nat, size: nat)
    requires InStep(bs, lo) && size % ALIGNMENT == 0
    ensures InStep(Allocate(bs, size), lo)
  {
    var i := FirstFit(bs, size);
    if i < |bs| {
      assert bs[i] in bs;
      forall b | b in Allocate(bs, size)
        ensures b.addr % ALIGNMENT == lo % ALIGNMENT
      {
        assert b in bs[..i] || b in Carve(bs[i], size) || b in bs[i + 1..];
      }
    }
  }

  lemma ReleaseKeepsInStep(bs: seq<Block>, lo: nat, i: nat)
    requires InStep(bs, lo) && i < |bs|
    ensures InStep(Release(bs, i), lo)
  {
    var j, k := MergeFrom(bs, i), MergeTo(bs, i);
    assert bs[j] in bs && bs[j..k][0] == bs[j];
    assert forall b :: b in Release(bs, i) ==> b in bs[..j] || b == Fuse(bs[j..k]) || b in bs[k..];
  }

  lemma {:induction false} RunKeepsInStep(bs: seq<Block>, lo: nat, ops: seq<Op>)
    requires InStep(bs, lo) && LegalRun(bs, ops)
    ensures InStep(Run(bs, ops), lo)
    decreases |ops|
  {
    if ops != [] {
      match ops[0] {
        case AllocOp(size) => AllocateKeepsInStep(bs, lo, AlignUp(size));
        case FreeOp(ptr) =>
          if ptr != NULL {
            ReleaseKeepsInStep(bs, lo, IndexAt(bs, ptr - HEADER_SIZE));
          }
      }
      RunKeepsInStep(Step(bs, ops[0]), lo, ops[1..]);
    }
  }

  /** In every run every payload is aligned, whatever sizes were asked for, exactly when the heap itself is. */
  lemma PayloadsAreAligned(lo: nat, hi: nat, ops: seq<Op>)
    requires lo + HEADER_SIZE <= hi && LegalRun(InitialBlocks(lo, hi), ops)
    ensures forall b :: b in Run(InitialBlocks(lo, hi), ops) ==>
      ((b.addr + HEADER_SIZE) % ALIGNMENT == 0 <==> lo % ALIGNMENT == 0)
  {
    RunKeepsInStep(InitialBlocks(lo, hi), lo, ops);
  }

  // ----- what a request gets

  /** The payload covers the request exactly when rounding the request up did not wrap around. */
  lemma PayloadCoversRequest(bs: seq<Block>, lo: nat, hi: nat, size: nat)
    requires Good(bs, lo, hi) && hi <= WORD && 0 < size < WORD
    requires FirstFit(bs, AlignUp(size)) < |bs|
    ensures var i := FirstFit(bs, AlignUp(size));
      && i < |Allocate(bs, AlignUp(size))|
      && (Allocate(bs, AlignUp(size))[i].size >= size <==> size <= WORD - ALIGNMENT)
  {
    var a := AlignUp(size);
    var i := FirstFit(bs, a);
    AllocateAddsBlock(bs, lo, hi, a);
    AllocateKeepsGood(bs, lo, hi, a);
    AddressesInside(Allocate(bs, a), lo);
    assert Allocate(bs, a)[i] in Allocate(bs, a);
  }

  /** A request within ALIGNMENT of the top of the address space is answered with an empty payload. */
  lemma WrappedRequestGetsNothing(lo: nat, hi: nat, size: nat)
    requires lo + 2 * HEADER_SIZE + ALIGNMENT <= hi && WORD - ALIGNMENT < size < WORD
    ensures Allocate(InitialBlocks(lo, hi), AlignUp(size))[0] == Block(lo, 0, false)
  {
    var bs := InitialBlocks(lo, hi);
    assert FirstFit(bs, 0) == 0;
    assert Allocate(bs, 0) == bs[..0] + Carve(bs[0], 0) + bs[1..];
  }
}
