/**
 * The default heap on values: physically adjacent blocks, each with a header in front,
 * allocated first fit with splitting and merged with both neighbours when freed.
 */
module FreeList {

  const ALIGNMENT: nat := 8
  const HEADER_SIZE: nat := 32
  const WORD: nat := 0x1_0000_0000_0000_0000  // one more than the largest 64-bit value

  /** A block: the address of its header, the size of its payload, and whether it is free. */
  datatype Block = Block(addr: nat, size: nat, free: bool)

  function End(b: Block): nat {
    b.addr + HEADER_SIZE + b.size
  }

  /** The bytes the blocks take, headers included. */
  function Extent(bs: seq<Block>): nat {
    if bs == [] then 0 else HEADER_SIZE + bs[0].size + Extent(bs[1..])
  }

  /** The blocks follow each other from lo without a gap. */
  ghost predicate Tiles(bs: seq<Block>, lo: nat) {
    bs != [] ==> bs[0].addr == lo && Tiles(bs[1..], End(bs[0]))
  }

  ghost predicate NoTwoFree(bs: seq<Block>) {
    forall k :: 0 < k < |bs| ==> !(bs[k - 1].free && bs[k].free)
  }

  /** The whole heap: a gapless list of blocks over [lo, hi) in which no two neighbours are free. */
  ghost predicate Good(bs: seq<Block>, lo: nat, hi: nat) {
    bs != [] && Tiles(bs, lo) && lo + Extent(bs) == hi && NoTwoFree(bs)
  }

  /** Round up to the alignment in 64-bit arithmetic: the sum wraps near the top. */
  function AlignUp(n: nat): (r: nat)
    requires n < WORD
    ensures r % ALIGNMENT == 0 && r < WORD
    ensures n <= r <==> n <= WORD - ALIGNMENT
    ensures n <= WORD - ALIGNMENT ==> r < n + ALIGNMENT
    ensures n > WORD - ALIGNMENT ==> r == 0
  {
    var m := (n + (ALIGNMENT - 1)) % WORD;
    m - m % ALIGNMENT
  }

  predicate Fits(b: Block, size: nat) {
    b.free && b.size >= size
  }

  /** The index of the first block that fits, or the number of blocks. */
  function FirstFit(bs: seq<Block>, size: nat): (i: nat)
    ensures i <= |bs|
    ensures i < |bs| ==> Fits(bs[i], size)
    ensures forall k :: 0 <= k < i ==> !Fits(bs[k], size)
  {
    if bs == [] || Fits(bs[0], size) then 0 else 1 + FirstFit(bs[1..], size)
  }

  /** Occupy a block, cutting off the rest when another header and a minimal payload fit in it. */
  function Carve(b: Block, size: nat): seq<Block> {
    if b.size >= size + HEADER_SIZE + ALIGNMENT then
      [Block(b.addr, size, false), Block(b.addr + HEADER_SIZE + size, b.size - size - HEADER_SIZE, true)]
    else
      [b.(free := false)]
  }

  function Allocate(bs: seq<Block>, size: nat): seq<Block> {
    var i := FirstFit(bs, size);
    if i == |bs| then bs else bs[..i] + Carve(bs[i], size) + bs[i + 1..]
  }

  /** One free block over the given ones. */
  function Fuse(m: seq<Block>): Block
    requires m != []
  {
    Block(m[0].addr, Extent(m) - HEADER_SIZE, true)
  }

  /** Block i and its free neighbours become one free block. */
  function Release(bs: seq<Block>, i: nat): seq<Block>
    requires i < |bs|
  {
    bs[..MergeFrom(bs, i)] + [Fuse(bs[MergeFrom(bs, i)..MergeTo(bs, i)])] + bs[MergeTo(bs, i)..]
  }

  function MergeFrom(bs: seq<Block>, i: nat): (j: nat)
    requires i < |bs|
    ensures j <= i
  {
    if i > 0 && bs[i - 1].free then i - 1 else i
  }

  function MergeTo(bs: seq<Block>, i: nat): (j: nat)
    requires i < |bs|
    ensures i < j <= |bs|
  {
    if i + 1 < |bs| && bs[i + 1].free then i + 2 else i + 1
  }

  /** Allocated blocks by header address and payload size. */
  function Live(bs: seq<Block>): set<(nat, nat)> {
    set b | b in bs && !b.free :: (b.addr, b.size)
  }

  // ----- lists of blocks in pieces

  lemma {:induction false} Append(a: seq<Block>, b: seq<Block>, lo: nat)
    ensures Extent(a + b) == Extent(a) + Extent(b)
    ensures Tiles(a + b, lo) <==> Tiles(a, lo) && Tiles(b, lo + Extent(a))
    ensures Live(a + b) == Live(a) + Live(b)
  {
    if a == [] {
      assert a + b == b;
    } else {
      assert (a + b)[1..] == a[1..] + b;
      if a[0].addr == lo {
        Append(a[1..], b, End(a[0]));
      } else {
        Append(a[1..], b, lo);
      }
      LiveAppend(a, b);
    }
  }

  lemma LiveAppend(a: seq<Block>, b: seq<Block>)
    ensures Live(a + b) == Live(a) + Live(b)
  {
    assert forall x :: x in a + b <==> x in a || x in b;
  }

  /** A heap falls into pieces exactly where its parts do. */
  lemma Pieces(a: seq<Block>, m: seq<Block>, c: seq<Block>, lo: nat)
    ensures Extent(a + m + c) == Extent(a) + Extent(m) + Extent(c)
    ensures Tiles(a + m + c, lo) <==> Tiles(a, lo) && Tiles(m, lo + Extent(a)) && Tiles(c, lo + Extent(a) + Extent(m))
    ensures Live(a + m + c) == Live(a) + Live(m) + Live(c)
  {
    Append(a + m, c, lo);
    Append(a, m, lo);
  }

  /** What lies between two addresses. */
  lemma {:induction false} AddressesInside(bs: seq<Block>, lo: nat)
    requires Tiles(bs, lo)
    ensures forall b :: b in bs ==> lo <= b.addr && End(b) <= lo + Extent(bs)
  {
    if bs != [] {
      AddressesInside(bs[1..], End(bs[0]));
      assert forall b :: b in bs ==> b == bs[0] || b in bs[1..];
    }
  }

  lemma SingleBlock(b: Block, lo: nat)
    ensures Extent([b]) == HEADER_SIZE + b.size
    ensures Tiles([b], lo) <==> b.addr == lo
    ensures Live([b]) == if b.free then {} else {(b.addr, b.size)}
  {
    assert [b][1..] == [];
  }

  lemma CarveShape(b: Block, size: nat)
    requires Fits(b, size)
    ensures Extent(Carve(b, size)) == Extent([b]) && Tiles(Carve(b, size), b.addr)
    ensures Live(Carve(b, size)) == {(b.addr, Carve(b, size)[0].size)}
    ensures NoTwoFree(Carve(b, size))
  {
    var c := Carve(b, size);
    SingleBlock(b, b.addr);
    assert c == [c[0]] + c[1..];
    SingleBlock(c[0], b.addr);
    if |c| == 2 {
      assert c[1..] == [c[1]];
      SingleBlock(c[1], End(c[0]));
      assert Live(c) == Live([c[0]]) + Live([c[1]]) by { LiveAppend([c[0]], [c[1]]); }
    }
  }

  // ----- what every operation keeps

  lemma AllocateKeepsGood(bs: seq<Block>, lo: nat, hi: nat, size: nat)
    requires Good(bs, lo, hi)
    ensures Good(Allocate(bs, size), lo, hi)
  {
    AllocateKeepsTiles(bs, lo, size);
    if FirstFit(bs, size) < |bs| {
      CarveKeepsNoTwoFree(bs, FirstFit(bs, size), size);
    }
  }

  lemma AllocateKeepsTiles(bs: seq<Block>, lo: nat, size: nat)
    requires bs != [] && Tiles(bs, lo)
    ensures Allocate(bs, size) != [] && Tiles(Allocate(bs, size), lo) && Extent(Allocate(bs, size)) == Extent(bs)
  {
    var i := FirstFit(bs, size);
    if i < |bs| {
      CarveShape(bs[i], size);
      assert bs == bs[..i] + [bs[i]] + bs[i + 1..];
      ReplacePiece(bs[..i], bs[i], Carve(bs[i], size), bs[i + 1..], lo);
    }
  }

  lemma ReplacePiece(a: seq<Block>, b: Block, m: seq<Block>, c: seq<Block>, lo: nat)
    requires Tiles(a + [b] + c, lo) && Extent(m) == Extent([b]) && Tiles(m, b.addr)
    ensures Tiles(a + m + c, lo) && Extent(a + m + c) == Extent(a + [b] + c)
  {
    Pieces(a, [b], c, lo);
    SingleBlock(b, lo + Extent(a));
    Pieces(a, m, c, lo);
  }

  lemma CarveKeepsNoTwoFree(bs: seq<Block>, i: nat, size: nat)
    requires NoTwoFree(bs) && i < |bs| && Fits(bs[i], size)
    ensures NoTwoFree(bs[..i] + Carve(bs[i], size) + bs[i + 1..])
  {
    if i + 1 < |bs| {
      assert !bs[i + 1].free;
    }
  }

  lemma ReleaseKeepsGood(bs: seq<Block>, lo: nat, hi: nat, i: nat)
    requires Good(bs, lo, hi) && i < |bs|
    ensures Good(Release(bs, i), lo, hi)
  {
    ReleasePieces(bs, lo, i);
    ReleaseKeepsNoTwoFree(bs, i);
  }

  /** The blocks merged by a release, and those before and after them. */
  lemma ReleasePieces(bs: seq<Block>, lo: nat, i: nat)
    requires Tiles(bs, lo) && i < |bs|
    ensures var a, m, c := bs[..MergeFrom(bs, i)], bs[MergeFrom(bs, i)..MergeTo(bs, i)], bs[MergeTo(bs, i)..];
      && Tiles(a, lo) && Tiles(m, lo + Extent(a)) && Tiles(c, lo + Extent(a) + Extent(m))
      && Live(bs) == Live(a) + Live(m) + Live(c) && Live(Release(bs, i)) == Live(a) + Live(c)
    ensures Tiles(Release(bs, i), lo) && Extent(Release(bs, i)) == Extent(bs)
  {
    var f, t := MergeFrom(bs, i), MergeTo(bs, i);
    assert bs == bs[..f] + bs[f..t] + bs[t..];
    FusedPieces(bs[..f], bs[f..t], bs[t..], lo);
  }

  /** One free block in place of a piece: the rest tiles as before. */
  lemma FusedPieces(a: seq<Block>, m: seq<Block>, c: seq<Block>, lo: nat)
    requires m != [] && Tiles(a + m + c, lo)
    ensures Tiles(a, lo) && Tiles(m, lo + Extent(a)) && Tiles(c, lo + Extent(a) + Extent(m))
    ensures Live(a + m + c) == Live(a) + Live(m) + Live(c) && Live(a + [Fuse(m)] + c) == Live(a) + Live(c)
    ensures Tiles(a + [Fuse(m)] + c, lo) && Extent(a + [Fuse(m)] + c) == Extent(a + m + c)
  {
    Pieces(a, m, c, lo);
    SingleBlock(Fuse(m), lo + Extent(a));
    Pieces(a, [Fuse(m)], c, lo);
  }

  lemma ReleaseKeepsNoTwoFree(bs: seq<Block>, i: nat)
    requires NoTwoFree(bs) && i < |bs|
    ensures NoTwoFree(Release(bs, i))
  {
    var f, t := MergeFrom(bs, i), MergeTo(bs, i);
    if f > 0 {
      assert !bs[f - 1].free;
    }
    if t < |bs| {
      assert !bs[t].free;
    }
  }

  /** Freeing the block just allocated restores the list of blocks exactly. */
  lemma AllocateThenReleaseIsIdentity(bs: seq<Block>, lo: nat, hi: nat, size: nat)
    requires Good(bs, lo, hi) && FirstFit(bs, size) < |bs|
    ensures FirstFit(bs, size) < |Allocate(bs, size)| && Release(Allocate(bs, size), FirstFit(bs, size)) == bs
  {
    var i := FirstFit(bs, size);
    var a, b, c := bs[..i], bs[i], bs[i + 1..];
    assert bs == a + [b] + c;
    Pieces(a, [b], c, lo);
    SingleBlock(b, lo + Extent(a));
    CarveShape(b, size);
    ReleaseCarved(bs, i, size);
  }

  lemma ReleaseCarved(bs: seq<Block>, i: nat, size: nat)
    requires NoTwoFree(bs) && i < |bs| && Fits(bs[i], size) && Extent(Carve(bs[i], size)) == HEADER_SIZE + bs[i].size
    ensures Release(bs[..i] + Carve(bs[i], size) + bs[i + 1..], i) == bs
  {
    var m := Carve(bs[i], size);
    var bs' := bs[..i] + m + bs[i + 1..];
    if i + 1 < |bs| {
      assert !bs[i + 1].free;
    }
    if i > 0 {
      assert !bs[i - 1].free;
      assert bs'[i - 1] == bs[i - 1];
    }
    assert MergeFrom(bs', i) == i && MergeTo(bs', i) == i + |m|;
    assert bs'[..i] == bs[..i] && bs'[i..i + |m|] == m && bs'[i + |m|..] == bs[i + 1..];
    assert Fuse(m) == bs[i];
    assert bs == bs[..i] + [bs[i]] + bs[i + 1..];
  }

  /** Block i was occupied for a request of the size: it is at least that large, and less than a header and a minimal
      payload larger; what does not fit that stays as a free block behind it, and all other blocks are as before. */
  ghost predicate Occupies(bs: seq<Block>, bs': seq<Block>, i: nat, size: nat) {
    && i < |bs| && i < |bs'| && bs[i].free && !bs'[i].free && bs'[i].addr == bs[i].addr
    && size <= bs'[i].size < size + HEADER_SIZE + ALIGNMENT
    && bs'[..i] == bs[..i]
    && (if bs[i].size >= size + HEADER_SIZE + ALIGNMENT then
          && |bs'| == |bs| + 1 && bs'[i].size == size
          && bs'[i + 1] == Block(End(bs'[i]), bs[i].size - size - HEADER_SIZE, true)
          && bs'[i + 2..] == bs[i + 1..]
        else
          && |bs'| == |bs| && bs'[i].size == bs[i].size && bs'[i + 1..] == bs[i + 1..])
  }

  lemma AllocateOccupies(bs: seq<Block>, size: nat)
    requires FirstFit(bs, size) < |bs|
    ensures Occupies(bs, Allocate(bs, size), FirstFit(bs, size), size)
  {
  }

  /** An allocation adds exactly the block it returns, which was not allocated before and is no larger than it must be;
      a refusal changes nothing. */
  lemma AllocateAddsBlock(bs: seq<Block>, lo: nat, hi: nat, size: nat)
    requires Good(bs, lo, hi)
    ensures var i, bs' := FirstFit(bs, size), Allocate(bs, size);
      if i == |bs| then bs' == bs
      else
        && Occupies(bs, bs', i, size)
        && Live(bs') == Live(bs) + {(bs'[i].addr, bs'[i].size)}
        && (bs'[i].addr, bs'[i].size) !in Live(bs)
  {
    if FirstFit(bs, size) < |bs| {
      AllocateOccupies(bs, size);
      CarvedIsNew(bs, lo, FirstFit(bs, size), size);
    }
  }

  lemma CarvedIsNew(bs: seq<Block>, lo: nat, i: nat, size: nat)
    requires Tiles(bs, lo) && i < |bs| && Fits(bs[i], size)
    ensures var x := (bs[i].addr, Carve(bs[i], size)[0].size);
      x !in Live(bs) && Live(bs[..i] + Carve(bs[i], size) + bs[i + 1..]) == Live(bs) + {x}
  {
    var a, b, c := bs[..i], bs[i], bs[i + 1..];
    assert bs == a + [b] + c;
    Pieces(a, [b], c, lo);
    SingleBlock(b, lo + Extent(a));
    CarveShape(b, size);
    Pieces(a, Carve(b, size), c, lo);
    OutsidePieces(a, [b], c, lo, (b.addr, Carve(b, size)[0].size));
  }

  /** No allocated block of the outer pieces begins inside the middle one. */
  lemma OutsidePieces(a: seq<Block>, m: seq<Block>, c: seq<Block>, lo: nat, x: (nat, nat))
    requires Tiles(a, lo) && Tiles(c, lo + Extent(a) + Extent(m))
    requires lo + Extent(a) <= x.0 < lo + Extent(a) + Extent(m)
    ensures x !in Live(a) && x !in Live(c)
  {
    AddressesInside(a, lo);
    AddressesInside(c, lo + Extent(a) + Extent(m));
  }

  /** Freeing removes exactly the freed block from the allocated ones. */
  lemma ReleaseRemovesBlock(bs: seq<Block>, lo: nat, hi: nat, i: nat)
    requires Good(bs, lo, hi) && i < |bs|
    ensures Live(Release(bs, i)) == Live(bs) - {(bs[i].addr, bs[i].size)}
  {
    var f, t := MergeFrom(bs, i), MergeTo(bs, i);
    var a, m, c := bs[..f], bs[f..t], bs[t..];
    ReleasePieces(bs, lo, i);
    MergedWereFree(bs, i);
    AddressesInside(m, lo + Extent(a));
    assert bs[i] == m[i - f] && bs[i] in m;
    OutsidePieces(a, m, c, lo, (bs[i].addr, bs[i].size));
  }

  lemma MergedWereFree(bs: seq<Block>, i: nat)
    requires i < |bs|
    ensures Live(bs[MergeFrom(bs, i)..MergeTo(bs, i)]) == if bs[i].free then {} else {(bs[i].addr, bs[i].size)}
  {
    var f, t := MergeFrom(bs, i), MergeTo(bs, i);
    var m := bs[f..t];
    assert forall b :: b in m ==> b.free || b == bs[i];
    assert m[i - f] == bs[i];
  }

  /** With nothing allocated there is a single free block over the whole heap. */
  lemma NothingLiveIsOneBlock(bs: seq<Block>, lo: nat, hi: nat)
    requires Good(bs, lo, hi) && Live(bs) == {}
    ensures bs == [Block(lo, hi - lo - HEADER_SIZE, true)]
  {
    forall k | 0 <= k < |bs|
      ensures bs[k].free
    {
      if !bs[k].free {
        LiveMember(bs, bs[k]);
        assert false;
      }
    }
    if |bs| > 1 {
      FirstTwo(bs);
      assert false;
    }
    assert bs == [bs[0]];
    SingleBlock(bs[0], lo);
  }

  lemma FirstTwo(bs: seq<Block>)
    requires NoTwoFree(bs) && |bs| > 1
    ensures !bs[0].free || !bs[1].free
  {
    assert !(bs[1 - 1].free && bs[1].free);
  }

  lemma LiveMember(bs: seq<Block>, b: Block)
    requires b in bs && !b.free
    ensures (b.addr, b.size) in Live(bs)
  {
  }
}
