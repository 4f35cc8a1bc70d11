/** The default heap in place: headers in memory linked in both directions, refining FreeList. */
module FreeListHeap {
  import opened FreeList

  const NULL: nat := 0

  /** A block header as it lies in memory; prev and next are addresses of headers. */
  datatype Header = Header(size: nat, free: bool, prev: nat, next: nat)

  type Memory = map<nat, Header>

  function FirstAddr(bs: seq<Block>, otherwise: nat): nat {
    if bs == [] then otherwise else bs[0].addr
  }

  function LastAddr(bs: seq<Block>, otherwise: nat): nat {
    if bs == [] then otherwise else bs[|bs| - 1].addr
  }

  /** The headers of the blocks are in memory and linked to each other, to prev on the left and to next on the right. */
  ghost predicate Linked(mem: Memory, bs: seq<Block>, prev: nat, next: nat) {
    bs != [] ==>
      && bs[0].addr in mem
      && mem[bs[0].addr] == Header(bs[0].size, bs[0].free, prev, FirstAddr(bs[1..], next))
      && Linked(mem, bs[1..], bs[0].addr, next)
  }

  lemma {:induction false} LinkedAppend(mem: Memory, a: seq<Block>, b: seq<Block>, prev: nat, next: nat)
    ensures Linked(mem, a + b, prev, next) <==>
        Linked(mem, a, prev, FirstAddr(b, next)) && Linked(mem, b, LastAddr(a, prev), next)
  {
    if a == [] {
      assert a + b == b;
    } else {
      assert (a + b)[1..] == a[1..] + b;
      LinkedAppend(mem, a[1..], b, a[0].addr, next);
      if a[1..] == [] {
        assert a[1..] + b == b;
      }
    }
  }

  lemma {:induction false} LinkedFrame(mem: Memory, mem': Memory, bs: seq<Block>, prev: nat, next: nat)
    requires Linked(mem, bs, prev, next)
    requires forall b :: b in bs && b.addr in mem ==> b.addr in mem' && mem'[b.addr] == mem[b.addr]
    ensures Linked(mem', bs, prev, next)
  {
    if bs != [] {
      assert bs[0] in bs;
      LinkedFrame(mem, mem', bs[1..], bs[0].addr, next);
    }
  }

  lemma {:induction false} LinkedAt(mem: Memory, bs: seq<Block>, prev: nat, next: nat, i: nat)
    requires Linked(mem, bs, prev, next) && i < |bs|
    ensures bs[i].addr in mem
    ensures mem[bs[i].addr] == Header(bs[i].size, bs[i].free, LastAddr(bs[..i], prev), FirstAddr(bs[i + 1..], next))
  {
    if i > 0 {
      LinkedAt(mem, bs[1..], bs[0].addr, next, i - 1);
      assert bs[1..][i - 1 + 1..] == bs[i + 1..];
      assert LastAddr(bs[1..][..i - 1], bs[0].addr) == LastAddr(bs[..i], prev);
    }
  }

  /** Replacing the piece m by m' : new headers for m', and the outer neighbours point to it. */
  lemma Relink(mem: Memory, mem': Memory, a: seq<Block>, m: seq<Block>, m': seq<Block>, c: seq<Block>, lo: nat)
    requires Tiles(a + m + c, lo) && Linked(mem, a + m + c, NULL, NULL)
    requires m != [] && m' != [] && m'[0].addr == m[0].addr
    requires Linked(mem', m', LastAddr(a, NULL), FirstAddr(c, NULL))
    requires c != [] && c[0].addr in mem ==>
        c[0].addr in mem' && mem'[c[0].addr] == mem[c[0].addr].(prev := LastAddr(m', NULL))
    requires forall x :: x in mem && (x < m[0].addr || x > FirstAddr(c, x)) ==> x in mem' && mem'[x] == mem[x]
    ensures Linked(mem', a + m' + c, NULL, NULL)
  {
    Pieces(a, m, c, lo);
    LinkedAppend(mem, a + m, c, NULL, NULL);
    LinkedAppend(mem, a, m, NULL, FirstAddr(c, NULL));
    AddressesInside(a, lo);
    LinkedFrame(mem, mem', a, NULL, m[0].addr);
    if c != [] {
      AddressesInside(c[1..], End(c[0]));
      LinkedFrame(mem, mem', c[1..], c[0].addr, NULL);
      assert Linked(mem', c, LastAddr(m', NULL), NULL);
    }
    LinkedAppend(mem', a, m', NULL, FirstAddr(c, NULL));
    LinkedAppend(mem', a + m', c, NULL, NULL);
  }

  class Heap {
    var memory: Memory
    var baseBlock: nat
    var totalBytes: nat
    ghost var blocks: seq<Block>

    /** Before mem_init there is no base block; afterwards the headers represent the list of blocks. */
    ghost predicate Valid()
      reads this
    {
      if baseBlock == NULL then blocks == []
      else
        && Good(blocks, baseBlock, baseBlock + totalBytes)
        && baseBlock + totalBytes <= WORD && totalBytes + ALIGNMENT < WORD
        && Linked(memory, blocks, NULL, NULL)
    }

    constructor ()
      ensures Valid() && baseBlock == NULL
    {
      memory, baseBlock, totalBytes, blocks := map[], NULL, 0, [];
    }

    method MemInit(start: nat, size: nat)
      requires start > 0 && size >= HEADER_SIZE && start + size <= WORD && size + ALIGNMENT < WORD
      modifies this
      ensures Valid() && baseBlock == start && totalBytes == size
      ensures blocks == [Block(start, size - HEADER_SIZE, true)]
    {
      baseBlock := start;
      memory := memory[start := Header(size - HEADER_SIZE, true, NULL, NULL)];
      totalBytes := size;
      blocks := [Block(start, size - HEADER_SIZE, true)];
      SingleBlock(blocks[0], start);
      assert blocks[1..] == [];
    }

    /** The payload address of the lowest block that fits, or NULL when none does. */
    method MemAlloc(size: nat) returns (ptr: nat)
      requires Valid() && size < WORD
      modifies this
      ensures Valid() && baseBlock == old(baseBlock) && totalBytes == old(totalBytes)
      ensures var i := FirstFit(old(blocks), AlignUp(size));
        if size == 0 || i == |old(blocks)| then ptr == NULL && blocks == old(blocks)
        else ptr == old(blocks)[i].addr + HEADER_SIZE && blocks == Allocate(old(blocks), AlignUp(size))
      ensures ptr != NULL ==> Occupies(old(blocks), blocks, FirstFit(old(blocks), AlignUp(size)), AlignUp(size))
      ensures ptr == NULL <==> size == 0 || forall b :: b in old(blocks) ==> !b.free || b.size < AlignUp(size)
    {
      if size == 0 || baseBlock == NULL {
        return NULL;
      }
      var aligned := AlignUp(size);
      var b := baseBlock;
      ghost var i := 0;
      while b != NULL
        invariant i <= |blocks| && b == FirstAddr(blocks[i..], NULL)
        invariant blocks == old(blocks) && memory == old(memory) && baseBlock == old(baseBlock)
            && totalBytes == old(totalBytes)
        invariant forall k :: 0 <= k < i ==> !FreeList.Fits(blocks[k], aligned)
        decreases |blocks| - i
      {
        LinkedAt(memory, blocks, NULL, NULL, i);
        if !memory[b].free || memory[b].size < aligned {
          b := memory[b].next;
          i := i + 1;
        } else {
          AllocateKeepsGood(blocks, baseBlock, baseBlock + totalBytes, aligned);
          SplitTestDoesNotWrap(blocks, baseBlock, totalBytes, i, aligned);
          assert FirstFit(blocks, aligned) == i && blocks[i] in blocks;
          AllocateOccupies(blocks, aligned);
          OccupyBlock(b, aligned, i);
          return b + HEADER_SIZE;
        }
      }
      AtEnd(blocks, baseBlock, i);
      return NULL;
    }

    /** Occupy the block, splitting it when the rest can hold a header and a minimal payload. */
    method OccupyBlock(b: nat, size: nat, ghost i: nat)
      requires Valid() && baseBlock != NULL && i < |blocks| && blocks[i].addr == b && FreeList.Fits(blocks[i], size)
      modifies `memory, `blocks
      ensures blocks == old(blocks)[..i] + Carve(old(blocks)[i], size) + old(blocks)[i + 1..]
      ensures Linked(memory, blocks, NULL, NULL)
    {
      LinkedAt(memory, blocks, NULL, NULL, i);
      if memory[b].size >= size + HEADER_SIZE + ALIGNMENT {
        SplitOff(b, size, i);
      }
      SetFlag(b, false, i);
    }

    /** Cut a free block behind the first size bytes of its payload. */
    method SplitOff(b: nat, size: nat, ghost i: nat)
      requires Linked(memory, blocks, NULL, NULL) && baseBlock != NULL && Tiles(blocks, baseBlock)
      requires i < |blocks| && blocks[i].addr == b && blocks[i].size >= size + HEADER_SIZE + ALIGNMENT
      modifies `memory, `blocks
      ensures Linked(memory, blocks, NULL, NULL) && Tiles(blocks, baseBlock)
      ensures blocks == old(blocks)[..i] + Cut(old(blocks)[i], size) + old(blocks)[i + 1..]
    {
      LinkedAt(memory, blocks, NULL, NULL, i);
      Neighbours(blocks, baseBlock, i);
      if i + 1 < |blocks| {
        LinkedAt(memory, blocks, NULL, NULL, i + 1);
      }
      ghost var a, c := blocks[..i], blocks[i + 1..];
      ghost var m := Cut(blocks[i], size);
      assert blocks == a + [blocks[i]] + c;
      CutTiles(a, blocks[i], c, size, baseBlock);
      var split := b + HEADER_SIZE + size;
      memory := memory[split := Header(memory[b].size - size - HEADER_SIZE, true, b, memory[b].next)];
      if memory[b].next != NULL {
        memory := memory[memory[b].next := memory[memory[b].next].(prev := split)];
      }
      memory := memory[b := memory[b].(next := split, size := size)];
      Resplit(old(memory), memory, blocks, size, i, baseBlock);
      blocks := a + m + c;
    }

    /** Free the block at the payload address and merge it with its free neighbours. */
    method MemFree(ptr: nat)
      requires Valid()
      requires ptr == NULL || exists i :: 0 <= i < |blocks| && blocks[i].addr + HEADER_SIZE == ptr
      modifies this
      ensures Valid() && baseBlock == old(baseBlock) && totalBytes == old(totalBytes)
      ensures ptr == NULL ==> blocks == old(blocks)
      ensures ptr != NULL ==>
        var i := IndexAt(old(blocks), ptr - HEADER_SIZE);
        && i < |old(blocks)| && blocks == Release(old(blocks), i)
        && Live(blocks) == Live(old(blocks)) - {(old(blocks)[i].addr, old(blocks)[i].size)}
    {
      if ptr == NULL {
        return;
      }
      var b := ptr - HEADER_SIZE;
      ghost var i := IndexAt(blocks, b);
      ReleaseRemovesBlock(blocks, baseBlock, baseBlock + totalBytes, i);
      ReleaseKeepsGood(blocks, baseBlock, baseBlock + totalBytes, i);
      FreeBlock(b, i);
    }

    /** Mark the block free and merge it with its free neighbours, the next one first. */
    method FreeBlock(b: nat, ghost i: nat)
      requires Linked(memory, blocks, NULL, NULL) && baseBlock != NULL && Tiles(blocks, baseBlock)
      requires i < |blocks| && blocks[i].addr == b
      modifies `memory, `blocks
      ensures Linked(memory, blocks, NULL, NULL) && blocks == Release(old(blocks), i)
    {
      ReleaseInSteps(blocks, i);
      SetFlag(b, true, i);
      MergeRight(b, i);
      MergeLeft(b, i);
    }

    /** Merge a block just marked free with the next one if that is free. */
    method MergeRight(b: nat, ghost i: nat)
      requires Linked(memory, blocks, NULL, NULL) && baseBlock != NULL && Tiles(blocks, baseBlock)
      requires i < |blocks| && blocks[i].addr == b && blocks[i].free
      modifies `memory, `blocks
      ensures Linked(memory, blocks, NULL, NULL) && Tiles(blocks, baseBlock)
      ensures blocks == if i + 1 < |old(blocks)| && old(blocks)[i + 1].free then Absorb(old(blocks), i) else old(blocks)
    {
      LinkedAt(memory, blocks, NULL, NULL, i);
      Neighbours(blocks, baseBlock, i);
      if i + 1 < |blocks| {
        LinkedAt(memory, blocks, NULL, NULL, i + 1);
        assert blocks[i + 1] in blocks;
      }
      if memory[b].next != NULL {
        if memory[memory[b].next].free {
          AbsorbNext(b, i);
        }
      }
    }

    /** Merge a free block with the previous one if that is free. */
    method MergeLeft(b: nat, ghost i: nat)
      requires Linked(memory, blocks, NULL, NULL) && baseBlock != NULL && Tiles(blocks, baseBlock)
      requires i < |blocks| && blocks[i].addr == b
      modifies `memory, `blocks
      ensures Linked(memory, blocks, NULL, NULL) && Tiles(blocks, baseBlock)
      ensures blocks == if i > 0 && old(blocks)[i - 1].free then Absorb(old(blocks), i - 1) else old(blocks)
    {
      LinkedAt(memory, blocks, NULL, NULL, i);
      Neighbours(blocks, baseBlock, i);
      if i > 0 {
        LinkedAt(memory, blocks, NULL, NULL, i - 1);
        assert blocks[i - 1] in blocks;
      }
      if memory[b].prev != NULL {
        if memory[memory[b].prev].free {
          AbsorbNext(memory[b].prev, i - 1);
        }
      }
    }

    method SetFlag(b: nat, flag: bool, ghost i: nat)
      requires Linked(memory, blocks, NULL, NULL) && baseBlock != NULL && Tiles(blocks, baseBlock)
      requires i < |blocks| && blocks[i].addr == b
      modifies `memory, `blocks
      ensures Linked(memory, blocks, NULL, NULL) && Tiles(blocks, baseBlock)
      ensures blocks == old(blocks)[i := old(blocks)[i].(free := flag)]
    {
      LinkedAt(memory, blocks, NULL, NULL, i);
      Neighbours(blocks, baseBlock, i);
      if i + 1 < |blocks| {
        LinkedAt(memory, blocks, NULL, NULL, i + 1);
      }
      ghost var a, c := blocks[..i], blocks[i + 1..];
      ghost var m := [blocks[i].(free := flag)];
      assert blocks == a + [blocks[i]] + c;
      memory := memory[b := memory[b].(free := flag)];
      assert m[1..] == [];
      Relink(old(memory), memory, a, [blocks[i]], m, c, baseBlock);
      OneReplaced(blocks, i, m[0]);
      FlagKeepsTiles(blocks, baseBlock, i, flag);
      blocks := blocks[i := m[0]];
    }

    /** A free block takes over its next block, header included. */
    method AbsorbNext(b: nat, ghost i: nat)
      requires Linked(memory, blocks, NULL, NULL) && baseBlock != NULL && Tiles(blocks, baseBlock)
      requires i + 1 < |blocks| && blocks[i].addr == b && blocks[i].free
      modifies `memory, `blocks
      ensures Linked(memory, blocks, NULL, NULL) && Tiles(blocks, baseBlock)
      ensures blocks == Absorb(old(blocks), i)
    {
      LinkedAt(memory, blocks, NULL, NULL, i);
      LinkedAt(memory, blocks, NULL, NULL, i + 1);
      if i + 2 < |blocks| {
        LinkedAt(memory, blocks, NULL, NULL, i + 2);
      }
      Neighbours(blocks, baseBlock, i);
      Neighbours(blocks, baseBlock, i + 1);
      ghost var a, m, c := blocks[..i], blocks[i..i + 2], blocks[i + 2..];
      assert blocks == a + m + c;
      TwoBlocks(m);
      AbsorbTiles(blocks, baseBlock, i);
      var next := memory[b].next;
      memory := memory[b := memory[b].(size := memory[b].size + HEADER_SIZE + memory[next].size,
                                       next := memory[next].next)];
      if memory[b].next != NULL {
        memory := memory[memory[b].next := memory[memory[b].next].(prev := b)];
      }
      ghost var m' := [Fuse(m)];
      assert m'[1..] == [];
      Relink(old(memory), memory, a, m, m', c, baseBlock);
      blocks := a + m' + c;
    }

    /** Total, occupied (headers included) and free bytes, and the number of free blocks. */
    method MemStatus() returns (total: nat, occupied: nat, free: nat, fragments: nat)
      requires Valid()
      ensures total == totalBytes && free == FreeBytes(blocks) && fragments == FreeCount(blocks)
      ensures occupied + free == total
    {
      total, free, fragments := totalBytes, 0, 0;
      var b := baseBlock;
      ghost var i := 0;
      FreeBytesBound(blocks);
      while b != NULL
        invariant i <= |blocks| && b == FirstAddr(blocks[i..], NULL)
        invariant free + FreeBytes(blocks[i..]) == FreeBytes(blocks)
        invariant fragments + FreeCount(blocks[i..]) == FreeCount(blocks)
        decreases |blocks| - i
      {
        LinkedAt(memory, blocks, NULL, NULL, i);
        assert blocks[i..][1..] == blocks[i + 1..];
        if memory[b].free {
          free := free + memory[b].size;
          fragments := fragments + 1;
        }
        b := memory[b].next;
        i := i + 1;
      }
      if blocks != [] {
        AtEnd(blocks, baseBlock, i);
      }
      occupied := totalBytes - free;
    }
  }

  function FreeBytes(bs: seq<Block>): nat {
    if bs == [] then 0 else (if bs[0].free then bs[0].size else 0) + FreeBytes(bs[1..])
  }

  function FreeCount(bs: seq<Block>): nat {
    if bs == [] then 0 else (if bs[0].free then 1 else 0) + FreeCount(bs[1..])
  }

  lemma FreeBytesBound(bs: seq<Block>)
    ensures FreeBytes(bs) <= Extent(bs)
  {
  }

  /** The index of the block whose header is at the address, or the number of blocks. */
  function IndexAt(bs: seq<Block>, addr: int): (i: nat)
    ensures i <= |bs|
    ensures i < |bs| ==> bs[i].addr == addr
    ensures i == |bs| ==> forall b :: b in bs ==> b.addr != addr
  {
    if bs == [] || bs[0].addr == addr then 0 else 1 + IndexAt(bs[1..], addr)
  }

  function Absorb(bs: seq<Block>, i: nat): seq<Block>
    requires i + 1 < |bs|
  {
    bs[..i] + [Fuse(bs[i..i + 2])] + bs[i + 2..]
  }

  lemma OneReplaced(bs: seq<Block>, i: nat, b: Block)
    requires i < |bs|
    ensures bs[i := b] == bs[..i] + [b] + bs[i + 1..]
  {
  }

  lemma FlagKeepsTiles(bs: seq<Block>, lo: nat, i: nat, flag: bool)
    requires Tiles(bs, lo) && i < |bs|
    ensures Tiles(bs[i := bs[i].(free := flag)], lo)
  {
    var a, m, c := bs[..i], [bs[i].(free := flag)], bs[i + 1..];
    assert bs == a + [bs[i]] + c;
    OneReplaced(bs, i, m[0]);
    SingleBlock(m[0], bs[i].addr);
    SingleBlock(bs[i], bs[i].addr);
    ReplacePiece(a, bs[i], m, c, lo);
  }

  lemma AbsorbTiles(bs: seq<Block>, lo: nat, i: nat)
    requires Tiles(bs, lo) && i + 1 < |bs|
    ensures Tiles(Absorb(bs, i), lo)
  {
    var a, m, c := bs[..i], bs[i..i + 2], bs[i + 2..];
    assert bs == a + m + c;
    FusedPieces(a, m, c, lo);
  }

  /** The headers written by a split link the two parts of block i between its neighbours. */
  lemma Resplit(mem: Memory, mem': Memory, bs: seq<Block>, size: nat, i: nat, lo: nat)
    requires Tiles(bs, lo) && lo > 0 && Linked(mem, bs, NULL, NULL)
    requires i < |bs| && bs[i].size >= size + HEADER_SIZE + ALIGNMENT
    requires var m, prev, next := Cut(bs[i], size), LastAddr(bs[..i], NULL), FirstAddr(bs[i + 1..], NULL);
      && m[0].addr in mem' && mem'[m[0].addr] == Header(m[0].size, m[0].free, prev, m[1].addr)
      && m[1].addr in mem' && mem'[m[1].addr] == Header(m[1].size, m[1].free, m[0].addr, next)
      && (next != NULL && next in mem ==> next in mem' && mem'[next] == mem[next].(prev := m[1].addr))
      && (forall x :: x in mem && x != m[0].addr && x != m[1].addr && (x != next || next == NULL) ==>
            x in mem' && mem'[x] == mem[x])
    ensures Linked(mem', bs[..i] + Cut(bs[i], size) + bs[i + 1..], NULL, NULL)
  {
    var a, m, c := bs[..i], Cut(bs[i], size), bs[i + 1..];
    assert bs == a + [bs[i]] + c;
    Neighbours(bs, lo, i);
    assert c != [] ==> m[1].addr < c[0].addr;
    TwoLinked(mem', m, LastAddr(a, NULL), FirstAddr(c, NULL));
    Relink(mem, mem', a, [bs[i]], m, c, lo);
  }

  /** The two parts of a block cut behind size bytes of payload. */
  function Cut(b: Block, size: nat): seq<Block>
    requires b.size >= size + HEADER_SIZE
  {
    [Block(b.addr, size, b.free), Block(b.addr + HEADER_SIZE + size, b.size - size - HEADER_SIZE, true)]
  }

  lemma CutTiles(a: seq<Block>, b: Block, c: seq<Block>, size: nat, lo: nat)
    requires b.size >= size + HEADER_SIZE && Tiles(a + [b] + c, lo)
    ensures Tiles(a + Cut(b, size) + c, lo)
  {
    var m := Cut(b, size);
    TwoBlocks(m);
    SingleBlock(b, b.addr);
    SingleBlock(m[1], End(m[0]));
    assert m[1..] == [m[1]];
    ReplacePiece(a, b, m, c, lo);
  }

  lemma TwoLinked(mem: Memory, m: seq<Block>, prev: nat, next: nat)
    requires |m| == 2 && m[0].addr in mem && m[1].addr in mem
    requires mem[m[0].addr] == Header(m[0].size, m[0].free, prev, m[1].addr)
    requires mem[m[1].addr] == Header(m[1].size, m[1].free, m[0].addr, next)
    ensures Linked(mem, m, prev, next)
  {
    assert m[1..] == [m[1]] && m[1..][1..] == [];
  }

  lemma TwoBlocks(m: seq<Block>)
    requires |m| == 2
    ensures Extent(m) == m[0].size + m[1].size + 2 * HEADER_SIZE
  {
    var rest := m[1..];
    assert rest == [m[1]];
    SingleBlock(m[1], 0);
    assert Extent(m) == HEADER_SIZE + m[0].size + Extent(rest);
  }

  /** The sum in the test whether to split stays below 2^64. */
  lemma SplitTestDoesNotWrap(bs: seq<Block>, lo: nat, total: nat, i: nat, size: nat)
    requires Good(bs, lo, lo + total) && total + ALIGNMENT < WORD && i < |bs| && FreeList.Fits(bs[i], size)
    ensures size + HEADER_SIZE + ALIGNMENT < WORD
  {
    AddressesInside(bs, lo);
    assert bs[i] in bs;
  }

  /** The list after a block was marked free and merged with its right neighbour. */
  function FreedToTheRight(bs: seq<Block>, i: nat): seq<Block>
    requires i < |bs|
  {
    var freed := bs[i := bs[i].(free := true)];
    if i + 1 < |bs| && bs[i + 1].free then Absorb(freed, i) else freed
  }

  lemma RightIsFused(bs: seq<Block>, i: nat)
    requires i < |bs|
    ensures var right, t := FreedToTheRight(bs, i), MergeTo(bs, i);
      && i < |right| && right[..i] == bs[..i] && right[i] == Fuse(bs[i..t]) && right[i + 1..] == bs[t..]
  {
    var freed, t := bs[i := bs[i].(free := true)], MergeTo(bs, i);
    if t == i + 2 {
      TwoBlocks(freed[i..i + 2]);
      TwoBlocks(bs[i..t]);
    } else {
      SingleBlock(bs[i], bs[i].addr);
      assert bs[i..t] == [bs[i]];
    }
  }

  /** Merging with the right neighbour and then with the left one is what Release describes at once. */
  lemma ReleaseInSteps(bs: seq<Block>, i: nat)
    requires i < |bs|
    ensures var right := FreedToTheRight(bs, i);
      && i < |right|
      && Release(bs, i) == if i > 0 && bs[i - 1].free then Absorb(right, i - 1) else right
  {
    var right, t := FreedToTheRight(bs, i), MergeTo(bs, i);
    RightIsFused(bs, i);
    assert right == bs[..i] + [Fuse(bs[i..t])] + bs[t..];
    if MergeFrom(bs, i) < i {
      LeftIsFused(bs, right, i);
    }
  }

  lemma LeftIsFused(bs: seq<Block>, right: seq<Block>, i: nat)
    requires 0 < i < |bs| && right == bs[..i] + [Fuse(bs[i..MergeTo(bs, i)])] + bs[MergeTo(bs, i)..]
    ensures Absorb(right, i - 1) == bs[..i - 1] + [Fuse(bs[i - 1..MergeTo(bs, i)])] + bs[MergeTo(bs, i)..]
  {
    var m, two := bs[i - 1..MergeTo(bs, i)], right[i - 1..i + 1];
    assert m[1..] == bs[i..MergeTo(bs, i)] && m[0] == bs[i - 1];
    assert two[0] == bs[i - 1] && two[1] == Fuse(bs[i..MergeTo(bs, i)]);
    TwoBlocks(two);
    assert Fuse(two) == Fuse(m);
    assert right[..i - 1] == bs[..i - 1] && right[i + 1..] == bs[MergeTo(bs, i)..];
  }

  /** The walk reaches NULL only behind the last block. */
  lemma AtEnd(bs: seq<Block>, lo: nat, i: nat)
    requires Tiles(bs, lo) && lo > 0 && i <= |bs|
    ensures FirstAddr(bs[i..], NULL) == NULL ==> i == |bs|
  {
    AddressesInside(bs, lo);
    if i < |bs| {
      assert bs[i] in bs && bs[i..][0] == bs[i];
    }
  }

  /** The neighbours of a block by address: none is at NULL, and they are where the links say. */
  lemma Neighbours(bs: seq<Block>, lo: nat, i: nat)
    requires Tiles(bs, lo) && lo > 0 && i < |bs|
    ensures forall b :: b in bs ==> b.addr > 0
    ensures FirstAddr(bs[i + 1..], NULL) == (if i + 1 < |bs| then bs[i + 1].addr else NULL)
    ensures LastAddr(bs[..i], NULL) == (if i > 0 then bs[i - 1].addr else NULL)
    ensures i + 1 < |bs| ==> bs[i + 1].addr == End(bs[i])
    ensures i > 0 ==> End(bs[i - 1]) == bs[i].addr
  {
    AddressesInside(bs, lo);
    Adjacent(bs, lo, i);
    if i > 0 {
      Adjacent(bs, lo, i - 1);
    }
  }

  lemma {:induction false} Adjacent(bs: seq<Block>, lo: nat, i: nat)
    requires Tiles(bs, lo) && i < |bs|
    ensures i + 1 < |bs| ==> bs[i + 1].addr == End(bs[i])
  {
    if i > 0 {
      Adjacent(bs[1..], End(bs[0]), i - 1);
    } else if |bs| > 1 {
      assert bs[1..][0] == bs[1];
    }
  }
}
