/** Naturally aligned blocks of pages, and the bookkeeping law of a binary buddy allocator.

    A block `Block(order, page)` covers the pages `page .. page + 2^order`.  A heap is described by
    the number of managed pages, the set of free blocks and the map of live blocks
    (first page -> order).  The heap is well formed when free and live blocks tile the managed pages
    and no block and its buddy are both free.  Everything else (canonical coalescing, completeness of
    allocation) is derived from that. */
module Blocks {

  const PAGE_SIZE: nat := 4096
  const BUDDY_MAX_ORDER: nat := 21
  const BUDDY_TOTAL_PAGES: nat := 1048576

  datatype Block = Block(order: nat, page: nat)

  function Pow2(n: nat): (r: nat)
    ensures r >= 1
  {
    if n == 0 then 1 else 2 * Pow2(n - 1)
  }

  /** `page` is a multiple of 2^order. */
  predicate Aligned(page: nat, order: nat)
    decreases order
  {
    order == 0 || (page % 2 == 0 && Aligned(page / 2, order - 1))
  }

  /** Bitwise exclusive or of unbounded naturals. */
  function Xor(a: nat, b: nat): nat
    decreases a + b
  {
    if a == 0 then b
    else if b == 0 then a
    else (a % 2 + b % 2) % 2 + 2 * Xor(a / 2, b / 2)
  }

  /** The other half of the enclosing block of twice the size. */
  function BuddyOf(page: nat, order: nat): (r: int)
  {
    if Aligned(page, order + 1) then page + Pow2(order) else page - Pow2(order)
  }

  function BuddyBlock(b: Block): Block
    requires Aligned(b.page, b.order)
  {
    BuddyIsNat(b.page, b.order);
    Block(b.order, BuddyOf(b.page, b.order))
  }

  function Parent(b: Block): Block
    requires Aligned(b.page, b.order)
  {
    BuddyIsNat(b.page, b.order);
    Block(b.order + 1, if Aligned(b.page, b.order + 1) then b.page else BuddyOf(b.page, b.order))
  }

  predicate Disjoint(a: Block, b: Block) {
    a.page + Pow2(a.order) <= b.page || b.page + Pow2(b.order) <= a.page
  }

  predicate Contains(outer: Block, inner: Block) {
    outer.page <= inner.page && inner.page + Pow2(inner.order) <= outer.page + Pow2(outer.order)
  }

  predicate Covers(b: Block, q: nat) {
    b.page <= q < b.page + Pow2(b.order)
  }

  predicate ProperBlock(pages: nat, b: Block) {
    && b.order < BUDDY_MAX_ORDER
    && Aligned(b.page, b.order)
    && b.page + Pow2(b.order) <= pages
  }

  // ---------------------------------------------------------------------------------------------
  // Arithmetic of aligned blocks.  Every proof halves the addresses and lowers the order by one.

  lemma {:induction false} Pow2Top()
    ensures Pow2(BUDDY_MAX_ORDER - 1) == BUDDY_TOTAL_PAGES
  {
    assert Pow2(5) == 32;
    assert Pow2(10) == 1024;
    assert Pow2(15) == 32768;
    assert Pow2(20) == 1048576;
  }

  lemma {:induction false} Pow2Monotone(a: nat, b: nat)
    requires a <= b
    ensures Pow2(a) <= Pow2(b)
  {
    if a < b {
      Pow2Monotone(a, b - 1);
    }
  }

  lemma {:induction false} AlignedWeaken(page: nat, order: nat)
    requires Aligned(page, order + 1)
    ensures Aligned(page, order)
  {
    if order > 0 {
      AlignedWeaken(page / 2, order - 1);
    }
  }

  /** Stepping by 2^order keeps the alignment and flips the alignment one level up. */
  lemma {:induction false} AlignedStep(page: nat, order: nat)
    requires Aligned(page, order)
    ensures Aligned(page + Pow2(order), order)
    ensures Aligned(page + Pow2(order), order + 1) <==> !Aligned(page, order + 1)
  {
    if order == 0 {
      assert Aligned(page, 1) <==> page % 2 == 0;
      assert Aligned(page + 1, 1) <==> (page + 1) % 2 == 0;
    } else {
      AlignedStep(page / 2, order - 1);
      assert (page + Pow2(order)) / 2 == page / 2 + Pow2(order - 1);
    }
  }

  lemma {:induction false} BuddyIsNat(page: nat, order: nat)
    requires Aligned(page, order)
    ensures BuddyOf(page, order) >= 0
    ensures Aligned(BuddyOf(page, order), order)
    ensures Aligned(BuddyOf(page, order), order + 1) <==> !Aligned(page, order + 1)
  {
    AlignedStep(page, order);
    if !Aligned(page, order + 1) {
      if order == 0 {
        assert page % 2 == 1;
        assert Aligned(page - 1, 1);
      } else {
        BuddyIsNat(page / 2, order - 1);
        assert (page - Pow2(order)) / 2 == page / 2 - Pow2(order - 1);
      }
    }
  }

  /** The source finds the buddy by flipping one address bit; on an aligned address that is the
      other half of the enclosing block. */
  lemma {:induction false} XorIsBuddy(page: nat, order: nat)
    requires Aligned(page, order)
    ensures Xor(page, Pow2(order)) == BuddyOf(page, order)
    decreases order
  {
    if order == 0 {
      if page != 0 {
        assert Xor(page / 2, 0) == page / 2;
      }
    } else {
      XorIsBuddy(page / 2, order - 1);
      if page == 0 {
        ZeroAligned(order + 1);
      } else {
        BuddyIsNat(page / 2, order - 1);
      }
    }
  }

  lemma {:induction false} ZeroAligned(order: nat)
    ensures Aligned(0, order)
  {
    if order > 0 {
      ZeroAligned(order - 1);
    }
  }

  lemma XorDouble(a: nat, b: nat)
    ensures Xor(2 * a, 2 * b) == 2 * Xor(a, b)
  {
  }

  lemma XorTimes16(a: nat, b: nat)
    ensures Xor(16 * a, 16 * b) == 16 * Xor(a, b)
  {
    XorDouble(a, b);
    XorDouble(2 * a, 2 * b);
    XorDouble(4 * a, 4 * b);
    XorDouble(8 * a, 8 * b);
  }

  /** The same on byte offsets, as the source computes it. */
  lemma XorBytes(page: nat, order: nat)
    requires Aligned(page, order)
    ensures Xor(page * PAGE_SIZE, Pow2(order) * PAGE_SIZE) == BuddyOf(page, order) * PAGE_SIZE
  {
    XorIsBuddy(page, order);
    XorTimes16(page, Pow2(order));
    XorTimes16(16 * page, 16 * Pow2(order));
    XorTimes16(256 * page, 256 * Pow2(order));
  }

  /** Two aligned blocks are nested or disjoint. */
  lemma {:induction false} Nested(inner: Block, outer: Block)
    requires Aligned(inner.page, inner.order) && Aligned(outer.page, outer.order)
    requires inner.order <= outer.order
    requires !Disjoint(inner, outer)
    ensures Contains(outer, inner)
    decreases inner.order
  {
    if inner.order > 0 {
      Nested(Block(inner.order - 1, inner.page / 2), Block(outer.order - 1, outer.page / 2));
    }
  }

  /** The two halves of a block are buddies, and every block is a half of its parent. */
  lemma Halves(b: Block)
    requires Aligned(b.page, b.order + 1)
    ensures Aligned(b.page, b.order) && Aligned(b.page + Pow2(b.order), b.order)
    ensures BuddyBlock(b) == Block(b.order, b.page + Pow2(b.order))
    ensures BuddyBlock(Block(b.order, b.page + Pow2(b.order))) == b
    ensures Parent(b) == Parent(Block(b.order, b.page + Pow2(b.order))) == Block(b.order + 1, b.page)
  {
    AlignedWeaken(b.page, b.order);
    AlignedStep(b.page, b.order);
  }

  // ---------------------------------------------------------------------------------------------
  // The heap.

  ghost function BlocksOf(m: map<nat, nat>): (r: set<Block>)
    ensures forall b :: b in r <==> b.page in m && m[b.page] == b.order
  {
    set p | p in m :: Block(m[p], p)
  }

  ghost predicate PairwiseDisjoint(tiles: set<Block>) {
    forall a, b :: a in tiles && b in tiles && a != b ==> Disjoint(a, b)
  }

  ghost predicate Covered(tiles: set<Block>, q: nat) {
    exists b :: b in tiles && Covers(b, q)
  }

  /** The blocks cover exactly the pages below `pages`, each once. */
  ghost predicate Tiling(pages: nat, tiles: set<Block>) {
    && (forall b :: b in tiles ==> ProperBlock(pages, b))
    && PairwiseDisjoint(tiles)
    && (forall q: nat :: q < pages ==> Covered(tiles, q))
  }

  ghost predicate NoFreeBuddies(free: set<Block>) {
    forall b :: b in free && Aligned(b.page, b.order) ==> BuddyBlock(b) !in free
  }

  ghost predicate WellFormed(pages: nat, free: set<Block>, live: map<nat, nat>) {
    && free !! BlocksOf(live)
    && Tiling(pages, free + BlocksOf(live))
    && NoFreeBuddies(free)
  }

  /** A proper block that no live block touches. */
  ghost predicate WhollyFree(pages: nat, live: map<nat, nat>, b: Block) {
    && ProperBlock(pages, b)
    && forall p :: p in live ==> Disjoint(Block(live[p], p), b)
  }

  /** The first pages of the wholly free blocks of an order. */
  ghost function FreeBlocks(pages: nat, live: map<nat, nat>, order: nat): (r: set<nat>)
    ensures forall p: nat :: p in r <==> WhollyFree(pages, live, Block(order, p))
  {
    set p: nat | p < pages && WhollyFree(pages, live, Block(order, p))
  }

  /** The blocks of an order inside a block. */
  ghost function Inside(order: nat, b: Block): (r: set<nat>)
    ensures forall p: nat :: p in r <==> b.page <= p < b.page + Pow2(b.order) && Aligned(p, order)
  {
    set p: nat | b.page <= p < b.page + Pow2(b.order) && Aligned(p, order)
  }

  lemma {:induction false} InsideCount(order: nat, b: Block)
    requires order <= b.order && Aligned(b.page, b.order)
    ensures |Inside(order, b)| == Pow2(b.order - order)
    decreases b.order
  {
    if order == b.order {
      forall p: nat | p in Inside(order, b) ensures p == b.page {
        Nested(Block(order, p), b);
      }
      assert Inside(order, b) == {b.page};
    } else {
      var left, right := Block(b.order - 1, b.page), Block(b.order - 1, b.page + Pow2(b.order - 1));
      Halves(left);
      InsideCount(order, left);
      InsideCount(order, right);
      assert Inside(order, b) == Inside(order, left) + Inside(order, right);
    }
  }

  lemma InsideIsFree(pages: nat, live: map<nat, nat>, order: nat, b: Block, p: nat)
    requires WhollyFree(pages, live, b) && order <= b.order && p in Inside(order, b)
    ensures p in FreeBlocks(pages, live, order)
  {
    Nested(Block(order, p), b);
  }

  /** Taking a wholly free block takes as many blocks of each smaller order as fit in it, whichever block it is. */
  lemma TakeCounts(pages: nat, live: map<nat, nat>, order: nat, b: Block)
    requires WhollyFree(pages, live, b) && order <= b.order
    ensures |FreeBlocks(pages, live[b.page := b.order], order)| + Pow2(b.order - order) == |FreeBlocks(pages, live, order)|
  {
    var was, now := FreeBlocks(pages, live, order), FreeBlocks(pages, live[b.page := b.order], order);
    assert b.page !in live by {
      assert b.page in live ==> Disjoint(Block(live[b.page], b.page), b);
    }
    forall p: nat ensures p in now <==> p in was && p !in Inside(order, b) {
      OutsideIsDisjoint(order, b, p);
      FreeBeside(pages, live, b, Block(order, p));
    }
    forall p: nat | p in Inside(order, b) ensures p in was {
      InsideIsFree(pages, live, order, b, p);
    }
    InsideCount(order, b);
    assert now == was - Inside(order, b);
  }

  /** Taking a wholly free block costs at most one block of a larger order. */
  lemma TakeAtMostOne(pages: nat, live: map<nat, nat>, order: nat, b: Block)
    requires WhollyFree(pages, live, b) && b.order <= order
    ensures |FreeBlocks(pages, live[b.page := b.order], order)| + 1 >= |FreeBlocks(pages, live, order)|
  {
    var was, now := FreeBlocks(pages, live, order), FreeBlocks(pages, live[b.page := b.order], order);
    assert b.page !in live by {
      assert b.page in live ==> Disjoint(Block(live[b.page], b.page), b);
    }
    forall p, q | p in was - now && q in was - now ensures p == q {
      FreeBeside(pages, live, b, Block(order, p));
      FreeBeside(pages, live, b, Block(order, q));
      OnlyOneMeets(order, b, p, q);
    }
    AtMostOne(was - now);
    assert was == (was - now) + (was * now);
    assert now == (was * now) + (now - was);
  }

  lemma OnlyOneMeets(order: nat, b: Block, p: nat, q: nat)
    requires Aligned(b.page, b.order) && b.order <= order && Aligned(p, order) && Aligned(q, order)
    requires !Disjoint(b, Block(order, p)) && !Disjoint(b, Block(order, q))
    ensures p == q
  {
    Nested(b, Block(order, p));
    Nested(b, Block(order, q));
    Nested(Block(order, p), Block(order, q));
  }

  lemma AtMostOne(s: set<nat>)
    requires forall p, q :: p in s && q in s ==> p == q
    ensures |s| <= 1
  {
    if s != {} {
      var p :| p in s;
      assert s == {p};
    }
  }

  lemma FreeBeside(pages: nat, live: map<nat, nat>, b: Block, c: Block)
    requires b.page !in live
    ensures WhollyFree(pages, live[b.page := b.order], c) <==> WhollyFree(pages, live, c) && Disjoint(b, c)
  {
    hide Disjoint, ProperBlock;
    var live' := live[b.page := b.order];
    assert Block(live'[b.page], b.page) == b;
    if WhollyFree(pages, live', c) {
      forall p | p in live ensures Disjoint(Block(live[p], p), c) {
        assert p in live';
      }
    }
  }

  lemma OutsideIsDisjoint(order: nat, b: Block, p: nat)
    requires Aligned(b.page, b.order) && order <= b.order
    ensures Aligned(p, order) ==> (p in Inside(order, b) <==> !Disjoint(b, Block(order, p)))
  {
    if Aligned(p, order) && !Disjoint(b, Block(order, p)) {
      Nested(Block(order, p), b);
    }
  }

  /** A wholly free block whose enclosing block is not wholly free. */
  ghost predicate MaximalFree(pages: nat, live: map<nat, nat>, b: Block) {
    WhollyFree(pages, live, b) && !WhollyFree(pages, live, Parent(b))
  }

  /** Every wholly free block lies inside one block of the free set: coalescing is complete. */
  lemma {:induction false} WhollyFreeIsListed(pages: nat, free: set<Block>, live: map<nat, nat>, b: Block) returns (f: Block)
    requires WellFormed(pages, free, live)
    requires WhollyFree(pages, live, b)
    ensures f in free && Contains(f, b)
    decreases b.order
  {
    if b.order == 0 {
      f := FreePageIsListed(pages, free, live, b);
    } else {
      var l := Block(b.order - 1, b.page);
      var r := Block(b.order - 1, b.page + Pow2(b.order - 1));
      Halves(l);
      var fl := WhollyFreeIsListed(pages, free, live, l);
      var fr := WhollyFreeIsListed(pages, free, live, r);
      f := JoinListed(pages, free, live, b, fl, fr);
    }
  }

  lemma FreePageIsListed(pages: nat, free: set<Block>, live: map<nat, nat>, b: Block) returns (f: Block)
    requires WellFormed(pages, free, live)
    requires WhollyFree(pages, live, b) && b.order == 0
    ensures f in free && Contains(f, b)
  {
    var tiles := free + BlocksOf(live);
    assert Covered(tiles, b.page);
    f :| f in tiles && Covers(f, b.page);
  }

  /** Two halves that lie in free blocks lie in the same free block, since buddies are never both free. */
  lemma JoinListed(pages: nat, free: set<Block>, live: map<nat, nat>, b: Block, fl: Block, fr: Block) returns (f: Block)
    requires WellFormed(pages, free, live)
    requires WhollyFree(pages, live, b) && b.order > 0
    requires fl in free && Contains(fl, Block(b.order - 1, b.page))
    requires fr in free && Contains(fr, Block(b.order - 1, b.page + Pow2(b.order - 1)))
    ensures f in free && Contains(f, b)
  {
    var l := Block(b.order - 1, b.page);
    var r := Block(b.order - 1, b.page + Pow2(b.order - 1));
    f := if fl.order >= b.order then fl else fr;
    assert fl in free + BlocksOf(live) && fr in free + BlocksOf(live);
    if f.order >= b.order {
      Nested(b, f);
    } else {
      SameSize(l, fl);
      SameSize(r, fr);
      Halves(l);
      assert false;
    }
  }

  lemma SameSize(inner: Block, outer: Block)
    requires Contains(outer, inner)
    requires outer.order <= inner.order
    ensures inner == outer
  {
    Pow2Monotone(outer.order, inner.order);
    if outer.order < inner.order {
      Pow2Monotone(outer.order, inner.order - 1);
      assert false;
    }
  }

  // ---------------------------------------------------------------------------------------------
  // What well-formedness means.

  /** The free set is exactly the set of maximal wholly free blocks. */
  lemma Canonical(pages: nat, free: set<Block>, live: map<nat, nat>, b: Block)
    requires WellFormed(pages, free, live)
    ensures b in free <==> MaximalFree(pages, live, b)
  {
    if b in free {
      ListedIsMaximal(pages, free, live, b);
    } else if MaximalFree(pages, live, b) {
      var f := WhollyFreeIsListed(pages, free, live, b);
      ListedIsMaximal(pages, free, live, f);
      if f.order <= b.order {
        SameSize(b, f);
      } else {
        ParentInside(b, f);
      }
      assert false;
    }
  }

  lemma ListedIsMaximal(pages: nat, free: set<Block>, live: map<nat, nat>, b: Block)
    requires WellFormed(pages, free, live) && b in free
    ensures MaximalFree(pages, live, b)
  {
    assert b in free + BlocksOf(live);
    forall p | p in live ensures Disjoint(Block(live[p], p), b) {
      assert Block(live[p], p) in BlocksOf(live);
    }
    if WhollyFree(pages, live, Parent(b)) {
      var f := WhollyFreeIsListed(pages, free, live, Parent(b));
      assert f in free + BlocksOf(live);
      BuddyIsNat(b.page, b.order);
      if f.order <= b.order {
        SameSize(Parent(b), f);
      }
      assert false;
    }
  }

  lemma ParentInside(b: Block, f: Block)
    requires Aligned(b.page, b.order) && Aligned(f.page, f.order)
    requires b.order < f.order && Contains(f, b)
    ensures Contains(f, Parent(b)) && Aligned(Parent(b).page, b.order + 1)
  {
    BuddyIsNat(b.page, b.order);
    Nested(Parent(b), f);
  }

  /** The free blocks are determined by the live blocks and the heap size alone. */
  lemma FreeSetIsDetermined(pages: nat, free: set<Block>, free': set<Block>, live: map<nat, nat>)
    requires WellFormed(pages, free, live) && WellFormed(pages, free', live)
    ensures free == free'
  {
    forall b ensures b in free <==> b in free' {
      Canonical(pages, free, live, b);
      Canonical(pages, free', live, b);
    }
  }

  // ---------------------------------------------------------------------------------------------
  // The four moves of the allocator.

  /** Taking a block off a free list. */
  lemma TakeStep(pages: nat, free: set<Block>, live: map<nat, nat>, b: Block)
    requires WellFormed(pages, free, live) && b in free
    ensures b.page !in live
    ensures WellFormed(pages, free - {b}, live[b.page := b.order])
  {
    var tiles := free + BlocksOf(live);
    var live' := live[b.page := b.order];
    assert BlocksOf(live') == BlocksOf(live) + {b};
    assert free - {b} + BlocksOf(live') == tiles;
  }

  /** Putting a live block whose buddy is not free on a free list. */
  lemma PutStep(pages: nat, free: set<Block>, live: map<nat, nat>, b: Block)
    requires WellFormed(pages, free, live)
    requires b.page in live && live[b.page] == b.order
    requires Aligned(b.page, b.order) && BuddyBlock(b) !in free
    ensures WellFormed(pages, free + {b}, live - {b.page})
  {
    var tiles := free + BlocksOf(live);
    var live' := live - {b.page};
    assert b in BlocksOf(live);
    assert BlocksOf(live') == BlocksOf(live) - {b};
    assert free + {b} + BlocksOf(live') == tiles;
    forall f | f in free + {b} && Aligned(f.page, f.order) ensures BuddyBlock(f) !in free + {b} {
      BuddyInvolution(f);
    }
  }

  lemma BuddyInvolution(b: Block)
    requires Aligned(b.page, b.order)
    ensures BuddyBlock(b) != b
    ensures Aligned(BuddyBlock(b).page, b.order)
    ensures BuddyBlock(BuddyBlock(b)) == b
  {
    BuddyIsNat(b.page, b.order);
  }

  /** Exchanging some blocks for others that cover the same pages keeps a tiling a tiling. */
  lemma Retile(pages: nat, tiles: set<Block>, gone: set<Block>, fresh': set<Block>)
    requires Tiling(pages, tiles) && gone <= tiles
    requires forall b :: b in fresh' ==> ProperBlock(pages, b)
    requires PairwiseDisjoint(fresh')
    requires forall q: nat :: Covered(gone, q) <==> Covered(fresh', q)
    ensures Tiling(pages, tiles - gone + fresh')
  {
    var tiles' := tiles - gone + fresh';
    forall a, c | a in tiles - gone && c in fresh' ensures Disjoint(a, c) {
      var q := if a.page < c.page then c.page else a.page;
      assert Covers(c, q) ==> Covered(gone, q);
    }
    forall q: nat | q < pages ensures Covered(tiles', q) {
      assert Covered(tiles, q);
      var t :| t in tiles && Covers(t, q);
      if t in gone {
        assert Covered(fresh', q);
        var t' :| t' in fresh' && Covers(t', q);
        assert t' in tiles';
      } else {
        assert t in tiles';
      }
    }
  }

  /** A tiling of the first pages, extended by the next block. */
  lemma Extend(pages: nat, tiles: set<Block>, b: Block)
    requires Tiling(pages, tiles) && b.page == pages
    requires b.order < BUDDY_MAX_ORDER && Aligned(b.page, b.order)
    ensures Tiling(pages + Pow2(b.order), tiles + {b})
  {
    var tiles' := tiles + {b};
    forall q: nat | q < pages + Pow2(b.order) ensures Covered(tiles', q) {
      if q < pages {
        assert Covered(tiles, q);
        var t :| t in tiles && Covers(t, q);
        assert t in tiles';
      } else {
        assert b in tiles' && Covers(b, q);
      }
    }
  }

  lemma HalvesCover(b: Block)
    requires b.order > 0
    ensures var l := Block(b.order - 1, b.page); var r := Block(b.order - 1, b.page + Pow2(b.order - 1));
            forall q: nat :: Covered({b}, q) <==> Covered({l, r}, q)
  {
    var l := Block(b.order - 1, b.page);
    var r := Block(b.order - 1, b.page + Pow2(b.order - 1));
    forall q: nat ensures Covered({b}, q) <==> Covered({l, r}, q) {
      assert Covered({b}, q) <==> Covers(b, q);
      assert Covers(b, q) <==> Covers(l, q) || Covers(r, q);
      assert l in {l, r} && r in {l, r};
    }
  }

  lemma RightHalfIsNew(pages: nat, tiles: set<Block>, b: Block)
    requires Tiling(pages, tiles) && b in tiles && b.order > 0
    ensures b.page + Pow2(b.order - 1) < pages
    ensures Block(b.order - 1, b.page) !in tiles
    ensures forall t :: t in tiles ==> t.page != b.page + Pow2(b.order - 1)
  {
    var r := b.page + Pow2(b.order - 1);
    forall t | t in tiles ensures t.page != r {
      assert t == b || Disjoint(t, b);
    }
    assert !Disjoint(b, Block(b.order - 1, b.page));
  }

  /** Splitting the block in hand and putting its right half on a free list. */
  lemma SplitStep(pages: nat, free: set<Block>, live: map<nat, nat>, page: nat)
    requires WellFormed(pages, free, live)
    requires page in live && live[page] > 0
    ensures var r := Block(live[page] - 1, page + Pow2(live[page] - 1));
            r !in free && r.page !in live && WellFormed(pages, free + {r}, live[page := live[page] - 1])
  {
    hide Aligned, Covered, NoFreeBuddies;
    var b := Block(live[page], page);
    var l := Block(live[page] - 1, page);
    var r := Block(live[page] - 1, page + Pow2(live[page] - 1));
    var tiles := free + BlocksOf(live);
    var live' := live[page := live[page] - 1];
    assert b in BlocksOf(live);
    RightHalfIsNew(pages, tiles, b);
    SplitTiles(pages, tiles, b);
    assert BlocksOf(live') == BlocksOf(live) - {b} + {l};
    assert free + {r} + BlocksOf(live') == tiles - {b} + {l, r};
    SplitApart(pages, free, live, page);
  }

  lemma SplitTiles(pages: nat, tiles: set<Block>, b: Block)
    requires Tiling(pages, tiles) && b in tiles && b.order > 0
    ensures Tiling(pages, tiles - {b} + {Block(b.order - 1, b.page), Block(b.order - 1, b.page + Pow2(b.order - 1))})
  {
    var l, r := Block(b.order - 1, b.page), Block(b.order - 1, b.page + Pow2(b.order - 1));
    Halves(l);
    HalvesCover(b);
    Retile(pages, tiles, {b}, {l, r});
  }

  lemma NoBuddiesMore(free: set<Block>, r: Block, l: Block)
    requires NoFreeBuddies(free) && l !in free && l != r && Aligned(r.page, r.order) && BuddyBlock(r) == l
    ensures NoFreeBuddies(free + {r})
  {
    hide Aligned, BuddyBlock;
    forall f | f in free + {r} && Aligned(f.page, f.order) ensures BuddyBlock(f) !in free + {r} {
      BuddyInvolution(f);
    }
  }

  /** The buddy of the right half is in hand, so it is not free. */
  lemma SplitApart(pages: nat, free: set<Block>, live: map<nat, nat>, page: nat)
    requires WellFormed(pages, free, live) && page in live && live[page] > 0
    ensures NoFreeBuddies(free + {Block(live[page] - 1, page + Pow2(live[page] - 1))})
  {
    var l, r := Block(live[page] - 1, page), Block(live[page] - 1, page + Pow2(live[page] - 1));
    var tiles := free + BlocksOf(live);
    assert Block(live[page], page) in tiles;
    Halves(l);
    RightHalfIsNew(pages, tiles, Block(live[page], page));
    NoBuddiesMore(free, r, l);
  }

  /** Below the top order, a block and its buddy are the two halves of their parent; two buddies of
      the top order do not both fit. */
  lemma BuddiesFormParent(pages: nat, b: Block)
    requires pages <= BUDDY_TOTAL_PAGES
    requires ProperBlock(pages, b) && ProperBlock(pages, BuddyBlock(b))
    ensures ProperBlock(pages, Parent(b))
    ensures Disjoint(b, BuddyBlock(b))
    ensures forall q: nat :: Covered({b, BuddyBlock(b)}, q) <==> Covered({Parent(b)}, q)
  {
    var u, m := BuddyBlock(b), Parent(b);
    BuddyIsNat(b.page, b.order);
    Pow2Top();
    HalvesCover(m);
    assert {b, u} == {Block(m.order - 1, m.page), Block(m.order - 1, m.page + Pow2(m.order - 1))};
  }

  /** Absorbing a free buddy into the block in hand. */
  lemma MergeStep(pages: nat, free: set<Block>, live: map<nat, nat>, b: Block)
    requires WellFormed(pages, free, live) && pages <= BUDDY_TOTAL_PAGES
    requires b.page in live && live[b.page] == b.order
    requires Aligned(b.page, b.order) && BuddyBlock(b) in free
    ensures b.order + 1 < BUDDY_MAX_ORDER
    ensures var m := Parent(b);
            && (m.page == b.page || m.page !in live)
            && WellFormed(pages, free - {BuddyBlock(b)}, (live - {b.page})[m.page := m.order])
  {
    hide Aligned, Pow2, Covered;
    var u, m := BuddyBlock(b), Parent(b);
    var tiles := free + BlocksOf(live);
    assert u in tiles && b in tiles;
    BuddiesFormParent(pages, b);
    ParentIsNew(pages, tiles, b);
    assert forall p :: p in live ==> Block(live[p], p) in tiles;
    Retile(pages, tiles, {b, u}, {m});
    MergedTiles(free, live, b, u, m);
  }

  /** The tiles after two of them have become one. */
  lemma MergedTiles(free: set<Block>, live: map<nat, nat>, b: Block, u: Block, m: Block)
    requires b.page in live && live[b.page] == b.order && u in free && free !! BlocksOf(live)
    requires m !in free && (m.page == b.page || m.page !in live) && m != b
    ensures var live' := (live - {b.page})[m.page := m.order];
            free - {u} + BlocksOf(live') == free + BlocksOf(live) - {b, u} + {m} && (free - {u}) !! BlocksOf(live')
  {
    var live' := (live - {b.page})[m.page := m.order];
    forall t ensures t in BlocksOf(live') <==> t == m || (t in BlocksOf(live) && t != b) {
    }
  }

  lemma ParentIsNew(pages: nat, tiles: set<Block>, b: Block)
    requires Tiling(pages, tiles) && b in tiles && BuddyBlock(b) in tiles
    ensures Parent(b) !in tiles
    ensures forall t :: t in tiles && t.page == Parent(b).page ==> t == b || t == BuddyBlock(b)
  {
    BuddyIsNat(b.page, b.order);
  }

  // ---------------------------------------------------------------------------------------------
  // While all live blocks lie in one block, listed blocks smaller than that one lie in it too.

  lemma ParentFits(pages: nat, g: Block, k: nat)
    requires ProperBlock(pages, g) && g.order < k && Aligned(pages, k)
    ensures Parent(g).page + Pow2(g.order + 1) <= pages
  {
    var p := Parent(g);
    ParentHolds(g);
    if p.page + Pow2(p.order) > pages {
      assert !Disjoint(p, Block(k, pages));
      Nested(p, Block(k, pages));
    }
  }

  lemma ParentHolds(g: Block)
    requires Aligned(g.page, g.order)
    ensures Aligned(Parent(g).page, g.order + 1) && Contains(Parent(g), g)
  {
    BuddyIsNat(g.page, g.order);
    AlignedStep(g.page, g.order);
  }

  lemma SmallIsInside(pages: nat, free: set<Block>, live: map<nat, nat>, c: Block, g: Block)
    requires WellFormed(pages, free, live) && g in free && g.order < c.order < BUDDY_MAX_ORDER
    requires Aligned(c.page, c.order) && Aligned(pages, c.order)
    requires forall p :: p in live ==> Contains(c, Block(live[p], p))
    ensures Contains(c, g)
  {
    Canonical(pages, free, live, g);
    var p := Parent(g);
    ParentHolds(g);
    ParentFits(pages, g, c.order);
    if Disjoint(p, c) {
      assert WhollyFree(pages, live, p);
    } else {
      Nested(p, c);
    }
  }

  /** With nothing live, all of a power of two is one listed block. */
  lemma UntouchedIsOne(pages: nat, free: set<Block>, order: nat, g: Block)
    requires WellFormed(pages, free, map[]) && order < BUDDY_MAX_ORDER && pages == Pow2(order) && g in free
    ensures g == Block(order, 0)
  {
    ZeroAligned(order);
    var all := Block(order, 0);
    var f := WhollyFreeIsListed(pages, free, map[], all);
    assert f in free + BlocksOf(map[]) && g in free + BlocksOf(map[]);
    assert ProperBlock(pages, f) && ProperBlock(pages, g);
    if f.order < order {
      Pow2Monotone(f.order + 1, order);
    } else if f.order > order {
      Pow2Monotone(order + 1, f.order);
    }
  }
}
