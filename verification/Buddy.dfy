/** The buddy allocator of video memory.

    Offsets are relative to the base of video memory.  The memory itself is an array of 8-byte words,
    shared by everyone who holds an offset: the allocator keeps the `prev` and `next` links of a free
    block in the first two words of that block, and clients may overwrite every word of a live block.
    The ghost fields record the contents of the free lists and the live blocks. */
module Buddy {
  import opened Blocks

  /** The null link, and the offset returned by a failed allocation. */
  const NULL: int := -1
  const FAILED: int := -1
  const PAGE_WORDS: nat := 512

  /** The link to the k-th member of a list; beyond the ends there is none. */
  ghost function At(l: seq<nat>, k: int): int {
    if 0 <= k < |l| then l[k] else NULL
  }

  ghost predicate NoDup(l: seq<nat>) {
    forall i, j :: 0 <= i < j < |l| ==> l[i] != l[j]
  }

  /** The two link words of the k-th node of `l` name its neighbours. */
  ghost predicate Node(mem: seq<int>, l: seq<nat>, k: nat)
    requires k < |l|
  {
    && l[k] * PAGE_WORDS + 1 < |mem|
    && mem[l[k] * PAGE_WORDS] == At(l, k - 1)
    && mem[l[k] * PAGE_WORDS + 1] == At(l, k + 1)
  }

  /** `l` is stored in `mem` as a doubly linked, null-terminated list starting at `head`. */
  ghost predicate Linked(mem: seq<int>, head: int, l: seq<nat>) {
    && head == At(l, 0)
    && forall k :: 0 <= k < |l| ==> Node(mem, l, k)
  }

  /** The free lists hold every free block once: `heads` maps the first page of each free block to its order. */
  ghost predicate Indexed(lists: seq<seq<nat>>, heads: map<nat, nat>) {
    && |lists| == BUDDY_MAX_ORDER
    && (forall o :: 0 <= o < |lists| ==> NoDup(lists[o]))
    && (forall o, k :: 0 <= o < |lists| && 0 <= k < |lists[o]| ==> lists[o][k] in heads && heads[lists[o][k]] == o)
    && forall p :: p in heads ==> heads[p] < |lists| && p in lists[heads[p]]
  }

  ghost predicate LivePage(live: map<nat, nat>, q: nat) {
    exists p :: p in live && Covers(Block(live[p], p), q)
  }

  /** The heap as the free lists and the live blocks describe it. */
  ghost predicate Heap(pages: nat, heads: map<nat, nat>, live: map<nat, nat>) {
    WellFormed(pages, BlocksOf(heads), live)
  }

  lemma HeadIsNotLive(pages: nat, heads: map<nat, nat>, live: map<nat, nat>)
    requires Heap(pages, heads, live)
    ensures forall q :: q in heads ==> q < pages && !LivePage(live, q)
  {
    var tiles := BlocksOf(heads) + BlocksOf(live);
    forall q | q in heads ensures q < pages && !LivePage(live, q) {
      assert Block(heads[q], q) in tiles;
      assert forall p :: p in live ==> Block(live[p], p) in tiles;
    }
  }

  lemma HeapTake(pages: nat, heads: map<nat, nat>, live: map<nat, nat>, page: nat)
    requires Heap(pages, heads, live) && page in heads
    ensures page < pages && page !in live
    ensures Heap(pages, heads - {page}, live[page := heads[page]])
  {
    var b := Block(heads[page], page);
    TakeStep(pages, BlocksOf(heads), live, b);
    assert BlocksOf(heads - {page}) == BlocksOf(heads) - {b};
    assert b in BlocksOf(heads) + BlocksOf(live);
  }

  lemma HeapSplit(pages: nat, heads: map<nat, nat>, live: map<nat, nat>, left: nat)
    requires Heap(pages, heads, live) && left in live && live[left] > 0
    ensures var right := left + Pow2(live[left] - 1);
            && right !in heads && right < pages
            && Heap(pages, heads[right := live[left] - 1], live[left := live[left] - 1])
  {
    hide Covered, Aligned, NoFreeBuddies;
    var right := left + Pow2(live[left] - 1);
    var tiles := BlocksOf(heads) + BlocksOf(live);
    SplitStep(pages, BlocksOf(heads), live, left);
    RightHalfIsNew(pages, tiles, Block(live[left], left));
    assert forall p :: p in heads ==> Block(heads[p], p) in tiles;
    assert BlocksOf(heads[right := live[left] - 1]) == BlocksOf(heads) + {Block(live[left] - 1, right)};
  }

  lemma LiveIsProper(pages: nat, heads: map<nat, nat>, live: map<nat, nat>, page: nat)
    requires Heap(pages, heads, live) && page in live
    ensures ProperBlock(pages, Block(live[page], page))
    ensures page !in heads
  {
    var tiles := BlocksOf(heads) + BlocksOf(live);
    var b := Block(live[page], page);
    assert b in tiles && b !in BlocksOf(heads);
    assert forall p :: p in heads ==> Block(heads[p], p) in tiles;
  }

  lemma HeapPut(pages: nat, heads: map<nat, nat>, live: map<nat, nat>, page: nat)
    requires Heap(pages, heads, live) && page in live && page !in heads
    requires Aligned(page, live[page])
    requires BuddyBlock(Block(live[page], page)) !in BlocksOf(heads)
    ensures Heap(pages, heads[page := live[page]], live - {page})
  {
    hide WellFormed;
    var b := Block(live[page], page);
    PutStep(pages, BlocksOf(heads), live, b);
    assert BlocksOf(heads[page := live[page]]) == BlocksOf(heads) + {b};
  }

  lemma HeapMerge(pages: nat, heads: map<nat, nat>, live: map<nat, nat>, page: nat)
    requires Heap(pages, heads, live) && page in live && pages <= BUDDY_TOTAL_PAGES
    requires Aligned(page, live[page])
    requires BuddyBlock(Block(live[page], page)) in BlocksOf(heads)
    ensures var b := Block(live[page], page);
            var m := Parent(b);
            && m.order < BUDDY_MAX_ORDER
            && (m.page == page || m.page !in live)
            && Heap(pages, heads - {BuddyBlock(b).page}, (live - {page})[m.page := m.order])
  {
    var b := Block(live[page], page);
    MergeStep(pages, BlocksOf(heads), live, b);
    assert BlocksOf(heads - {BuddyBlock(b).page}) == BlocksOf(heads) - {BuddyBlock(b)};
  }

  /** The first `done` pages are tiled by free blocks of pairwise different orders, none below `order`. */
  ghost predicate Greedy(done: nat, order: nat, heads: map<nat, nat>) {
    && Tiling(done, BlocksOf(heads))
    && (forall p :: p in heads ==> order <= heads[p])
    && forall p, q :: p in heads && q in heads && heads[p] == heads[q] ==> p == q
  }

  lemma NoBlocks(mem: seq<int>, freeList: seq<int>, lists: seq<seq<nat>>)
    requires |freeList| == BUDDY_MAX_ORDER && forall o :: 0 <= o < BUDDY_MAX_ORDER ==> freeList[o] == NULL
    requires |lists| == BUDDY_MAX_ORDER && forall o :: 0 <= o < BUDDY_MAX_ORDER ==> lists[o] == []
    ensures ListsIn(mem, freeList, lists, map[])
    ensures Greedy(0, BUDDY_MAX_ORDER, map[])
  {
    assert BlocksOf(map[]) == {};
  }

  lemma GreedyStep(done: nat, order: nat, heads: map<nat, nat>)
    requires Greedy(done, order + 1, heads)
    requires order < BUDDY_MAX_ORDER && Aligned(done, order)
    ensures done !in heads
    ensures Greedy(done + Pow2(order), order, heads[done := order])
  {
    var tiles, b := BlocksOf(heads), Block(order, done);
    assert forall p :: p in heads ==> Block(heads[p], p) in tiles;
    Extend(done, tiles, b);
    assert BlocksOf(heads[done := order]) == tiles + {b};
  }

  lemma GreedySkip(done: nat, order: nat, heads: map<nat, nat>)
    requires Greedy(done, order + 1, heads)
    ensures Greedy(done, order, heads)
  {
  }

  lemma GreedyIsHeap(pages: nat, heads: map<nat, nat>)
    requires Greedy(pages, 0, heads)
    ensures Heap(pages, heads, map[])
  {
    var free := BlocksOf(heads);
    assert free + BlocksOf(map[]) == free;
    forall b | b in free && Aligned(b.page, b.order) ensures BuddyBlock(b) !in free {
      BuddyInvolution(b);
    }
  }

  /** Words of live blocks, and the page_order bytes of their pages, are left alone. */
  ghost predicate Undisturbed(was: seq<int>, mem: seq<int>, live: map<nat, nat>) {
    && |mem| == |was|
    && forall w :: 0 <= w < |mem| && LivePage(live, w / PAGE_WORDS) ==> mem[w] == was[w]
  }

  ghost predicate PagesUndisturbed(was: seq<int>, pageOrder: seq<int>, live: map<nat, nat>) {
    && |pageOrder| == |was|
    && forall q :: 0 <= q < |pageOrder| && LivePage(live, q) ==> pageOrder[q] == was[q]
  }

  /** The page_order byte of the first page of a live block is the block's order, or the marker of the
      slab cache that owns this single page. */
  ghost predicate OwnersOk(pageOrder: seq<int>, live: map<nat, nat>, marks: map<nat, int>) {
    && (forall p :: p in marks ==> p in live && live[p] == 0)
    && forall p :: p in live ==> p < |pageOrder| && pageOrder[p] == if p in marks then marks[p] else live[p]
  }

  /** The least order from `o` on whose blocks hold `size` bytes; BUDDY_MAX_ORDER when there is none. */
  function OrderFrom(size: nat, o: nat): (r: nat)
    requires o <= BUDDY_MAX_ORDER
    ensures o <= r <= BUDDY_MAX_ORDER
    ensures r < BUDDY_MAX_ORDER ==> Pow2(r) * PAGE_SIZE >= size
    ensures forall j :: o <= j < r ==> Pow2(j) * PAGE_SIZE < size
    decreases BUDDY_MAX_ORDER - o
  {
    if o == BUDDY_MAX_ORDER || Pow2(o) * PAGE_SIZE >= size then o else OrderFrom(size, o + 1)
  }

  /** Some naturally aligned block that would hold `size` bytes is untouched by live blocks. */
  ghost predicate CanHold(pages: nat, live: map<nat, nat>, size: nat) {
    exists b :: WhollyFree(pages, live, b) && Pow2(b.order) * PAGE_SIZE >= size
  }

  /** The page starts a smallest listed block of sufficient order. */
  ghost predicate BestFit(heads: map<nat, nat>, order: nat, page: nat) {
    && page in heads
    && forall p :: p in heads && heads[p] >= order ==> order <= heads[page] <= heads[p]
  }

  lemma NothingHolds(pages: nat, heads: map<nat, nat>, live: map<nat, nat>, size: nat)
    requires Heap(pages, heads, live)
    requires forall p :: p in heads ==> heads[p] < OrderFrom(size, 0)
    ensures !CanHold(pages, live, size)
  {
    forall b | WhollyFree(pages, live, b) ensures Pow2(b.order) * PAGE_SIZE < size {
      var f := WhollyFreeIsListed(pages, BlocksOf(heads), live, b);
      if b.order > f.order {
        Pow2Monotone(f.order, b.order - 1);
      }
      assert f.page in heads;
    }
  }

  lemma HeadHolds(pages: nat, heads: map<nat, nat>, live: map<nat, nat>, size: nat, page: nat)
    requires Heap(pages, heads, live)
    requires page in heads && heads[page] >= OrderFrom(size, 0)
    ensures CanHold(pages, live, size)
  {
    var b := Block(heads[page], page);
    Canonical(pages, BlocksOf(heads), live, b);
    Pow2Monotone(OrderFrom(size, 0), b.order);
    assert OrderFrom(size, 0) < BUDDY_MAX_ORDER;
  }

  /** A request can be met exactly when some block of its order is wholly free. */
  lemma HoldsIffCounted(pages: nat, live: map<nat, nat>, size: nat)
    requires OrderFrom(size, 0) < BUDDY_MAX_ORDER
    ensures CanHold(pages, live, size) <==> |FreeBlocks(pages, live, OrderFrom(size, 0))| > 0
  {
    hide WhollyFree;
    var order := OrderFrom(size, 0);
    if CanHold(pages, live, size) {
      var b :| WhollyFree(pages, live, b) && Pow2(b.order) * PAGE_SIZE >= size;
      FreeIsProper(pages, live, b);
      InsideCount(order, b);
      var p :| p in Inside(order, b);
      InsideIsFree(pages, live, order, b, p);
      assert p in FreeBlocks(pages, live, order);
    }
    if |FreeBlocks(pages, live, order)| > 0 {
      var p :| p in FreeBlocks(pages, live, order);
      assert WhollyFree(pages, live, Block(order, p));
    }
  }

  lemma FreeIsProper(pages: nat, live: map<nat, nat>, b: Block)
    requires WhollyFree(pages, live, b)
    ensures ProperBlock(pages, b)
  {
  }

  /** A live block was wholly free before it became live. */
  lemma NewWasFree(pages: nat, heads: map<nat, nat>, live: map<nat, nat>, page: nat, order: nat)
    requires page !in live && Heap(pages, heads, live[page := order])
    ensures WhollyFree(pages, live, Block(order, page))
  {
    hide Disjoint;
    var live' := live[page := order];
    var tiles := BlocksOf(heads) + BlocksOf(live');
    assert Block(order, page) in tiles;
    forall p | p in live ensures Disjoint(Block(live[p], p), Block(order, page)) {
      assert Block(live'[p], p) in tiles;
    }
  }

  // ---------------------------------------------------------------------------------------------
  // Single pages taken from an untouched 4 GiB stay together.

  const CLUSTER := Block(3, 0)

  /** Only single pages among the first eight are live. */
  ghost predicate Clustered(live: map<nat, nat>) {
    forall p :: p in live ==> live[p] == 0 && p < 8
  }

  lemma ClusterHasRoom(live: map<nat, nat>) returns (q: nat)
    requires Clustered(live) && |live| < 8
    ensures q < 8 && q !in live
  {
    var eight: set<nat> := {0, 1, 2, 3, 4, 5, 6, 7};
    assert |eight| == 8;
    NotCovered(eight, live.Keys);
    q :| q in eight && q !in live.Keys;
  }

  lemma NotCovered(a: set<nat>, b: set<nat>)
    requires |b| < |a|
    ensures exists x :: x in a && x !in b
  {
    assert b == a * b + (b - a);
    assert a == a * b + (a - b);
    assert |a - b| > 0;
    var x :| x in a - b;
  }

  /** A best fit for a single page lies among the first eight pages too. */
  lemma FitIsClose(heads: map<nat, nat>, live: map<nat, nat>, page: nat)
    requires Heap(BUDDY_TOTAL_PAGES, heads, live) && Clustered(live) && |live| < 8 && BestFit(heads, 0, page)
    ensures page < 8
  {
    hide WhollyFree, WellFormed;
    var g := Block(heads[page], page);
    assert g in BlocksOf(heads);
    Pow2Top();
    if live == map[] {
      UntouchedIsOne(BUDDY_TOTAL_PAGES, BlocksOf(heads), BUDDY_MAX_ORDER - 1, g);
    } else {
      var q := ClusterHasRoom(live);
      SmallListed(heads, live, q);
      ZeroAligned(3);
      assert Pow2(3) == 8 && Pow2(0) == 1;
      assert Aligned(BUDDY_TOTAL_PAGES, 3);
      SmallIsInside(BUDDY_TOTAL_PAGES, BlocksOf(heads), live, CLUSTER, g);
    }
  }

  /** A page that is not live lies in a listed block too small to hold the cluster. */
  lemma SmallListed(heads: map<nat, nat>, live: map<nat, nat>, q: nat)
    requires Heap(BUDDY_TOTAL_PAGES, heads, live) && Clustered(live) && live != map[] && q < 8 && q !in live
    ensures exists p :: p in heads && heads[p] < 3
  {
    hide WellFormed;
    assert Pow2(0) == 1 && Pow2(3) == 8;
    var b := Block(0, q);
    assert WhollyFree(BUDDY_TOTAL_PAGES, live, b);
    var f := WhollyFreeIsListed(BUDDY_TOTAL_PAGES, BlocksOf(heads), live, b);
    Canonical(BUDDY_TOTAL_PAGES, BlocksOf(heads), live, f);
    var p :| p in live;
    assert Disjoint(Block(live[p], p), f);
    if f.order >= 3 {
      ZeroAligned(3);
      Nested(CLUSTER, f);
    }
    assert f.page in heads && heads[f.page] == f.order;
  }

  lemma Narrower(live: map<nat, nat>, left: nat, o: nat, o': nat)
    requires o' <= o
    ensures var wide, narrow := live[left := o], live[left := o'];
            forall q :: LivePage(narrow, q) ==> LivePage(wide, q)
  {
    Pow2Monotone(o', o);
    var wide, narrow := live[left := o], live[left := o'];
    forall q | LivePage(narrow, q) ensures LivePage(wide, q) {
      var p :| p in narrow && Covers(Block(narrow[p], p), q);
      assert p in wide && Covers(Block(wide[p], p), q);
    }
  }

  lemma Grown(live: map<nat, nat>, left: nat, o: nat)
    requires left !in live
    ensures forall q :: LivePage(live, q) ==> LivePage(live[left := o], q)
  {
    var live' := live[left := o];
    forall q | LivePage(live, q) ensures LivePage(live', q) {
      var p :| p in live && Covers(Block(live[p], p), q);
      assert p in live' && live'[p] == live[p];
    }
  }

  lemma Shrunk(live: map<nat, nat>, page: nat)
    ensures var rest := live - {page}; forall q :: LivePage(rest, q) ==> LivePage(live, q)
  {
    var rest := live - {page};
    forall q | LivePage(rest, q) ensures LivePage(live, q) {
      var p :| p in rest && Covers(Block(rest[p], p), q);
      assert p in live && Covers(Block(live[p], p), q);
    }
  }

  lemma NotLiveYet(pages: nat, heads: map<nat, nat>, live: map<nat, nat>, left: nat)
    requires Heap(pages, heads, live) && left in live
    ensures left < pages && !LivePage(live - {left}, left)
  {
    var tiles := BlocksOf(heads) + BlocksOf(live);
    var b := Block(live[left], left);
    assert b in tiles;
    var rest := live - {left};
    forall p | p in rest ensures !Covers(Block(rest[p], p), left) {
      assert Block(live[p], p) in tiles;
    }
  }

  // ---------------------------------------------------------------------------------------------
  // One list in memory.  `Same` says that a page's two link words did not change.

  ghost predicate Same(was: seq<int>, mem: seq<int>, page: nat)
    requires |mem| == |was|
  {
    page * PAGE_WORDS + 1 < |mem| ==>
      && mem[page * PAGE_WORDS] == was[page * PAGE_WORDS]
      && mem[page * PAGE_WORDS + 1] == was[page * PAGE_WORDS + 1]
  }

  lemma LinkedFrame(was: seq<int>, mem: seq<int>, head: int, l: seq<nat>)
    requires |mem| == |was| && Linked(was, head, l)
    requires forall k :: 0 <= k < |l| ==> Same(was, mem, l[k])
    ensures Linked(mem, head, l)
  {
    forall k | 0 <= k < |l| ensures Node(mem, l, k) {
      assert Node(was, l, k) && Same(was, mem, l[k]);
    }
  }

  lemma LinkedPush(was: seq<int>, mem: seq<int>, head: int, l: seq<nat>, page: nat)
    requires |mem| == |was| && Linked(was, head, l)
    requires page * PAGE_WORDS + 1 < |mem|
    requires mem[page * PAGE_WORDS] == NULL && mem[page * PAGE_WORDS + 1] == head
    requires l != [] ==> Node(was, l, 0)
    requires l != [] ==>
               && mem[l[0] * PAGE_WORDS] == page
               && mem[l[0] * PAGE_WORDS + 1] == was[l[0] * PAGE_WORDS + 1]
    requires forall k :: 1 <= k < |l| ==> Same(was, mem, l[k])
    ensures Linked(mem, page, [page] + l)
  {
    var l' := [page] + l;
    forall k | 0 <= k < |l'| ensures Node(mem, l', k) {
      if k > 0 {
        assert l'[k] == l[k - 1];
        assert Node(was, l, k - 1);
        assert k == 1 || Same(was, mem, l[k - 1]);
      }
    }
  }

  /** Removing the k-th node by joining its neighbours. */
  lemma LinkedUnlink(was: seq<int>, mem: seq<int>, head: int, head': int, l: seq<nat>, k: nat)
    requires |mem| == |was| && Linked(was, head, l) && k < |l|
    requires head' == if k == 0 then At(l, 1) else head
    requires k > 0 ==> Node(was, l, k - 1)
    requires k > 0 ==>
               && mem[l[k - 1] * PAGE_WORDS] == was[l[k - 1] * PAGE_WORDS]
               && mem[l[k - 1] * PAGE_WORDS + 1] == At(l, k + 1)
    requires k + 1 < |l| ==> Node(was, l, k + 1)
    requires k + 1 < |l| ==>
               && mem[l[k + 1] * PAGE_WORDS] == At(l, k - 1)
               && mem[l[k + 1] * PAGE_WORDS + 1] == was[l[k + 1] * PAGE_WORDS + 1]
    requires forall j :: 0 <= j < |l| && (j < k - 1 || k + 1 < j) ==> Same(was, mem, l[j])
    ensures Linked(mem, head', l[..k] + l[k + 1..])
  {
    var l' := l[..k] + l[k + 1..];
    forall j | 0 <= j < |l'| ensures Node(mem, l', j) {
      var i := if j < k then j else j + 1;
      assert l'[j] == l[i];
      assert Node(was, l, i);
      assert i == k - 1 || i == k + 1 || Same(was, mem, l[i]);
    }
  }

  lemma IndexedPush(lists: seq<seq<nat>>, heads: map<nat, nat>, order: nat, page: nat)
    requires Indexed(lists, heads) && order < BUDDY_MAX_ORDER && page !in heads
    ensures Indexed(lists[order := [page] + lists[order]], heads[page := order])
  {
    var lists' := lists[order := [page] + lists[order]];
    var heads' := heads[page := order];
    forall p | p in heads' ensures p in lists'[heads'[p]] {
      if p == page {
        assert lists'[order][0] == p;
      } else if heads[p] == order {
        var k :| 0 <= k < |lists[order]| && lists[order][k] == p;
        assert lists'[order][k + 1] == p;
      }
    }
  }

  lemma IndexedUnlink(lists: seq<seq<nat>>, heads: map<nat, nat>, order: nat, k: nat)
    requires Indexed(lists, heads) && order < BUDDY_MAX_ORDER && k < |lists[order]|
    ensures Indexed(lists[order := lists[order][..k] + lists[order][k + 1..]], heads - {lists[order][k]})
  {
    var l := lists[order];
    var l' := l[..k] + l[k + 1..];
    var lists' := lists[order := l'];
    var heads' := heads - {l[k]};
    forall p | p in heads' ensures p in lists'[heads'[p]] {
      if heads[p] == order {
        var j :| 0 <= j < |l| && l[j] == p;
        assert l'[if j < k then j else j - 1] == p;
      }
    }
    assert forall j :: 0 <= j < |l'| ==> l'[j] == l[if j < k then j else j + 1];
  }

  // ---------------------------------------------------------------------------------------------
  // All free lists in memory, and the two ways the source edits them.

  ghost predicate ListsIn(mem: seq<int>, freeList: seq<int>, lists: seq<seq<nat>>, heads: map<nat, nat>) {
    && |freeList| == BUDDY_MAX_ORDER
    && Indexed(lists, heads)
    && forall o :: 0 <= o < BUDDY_MAX_ORDER ==> Linked(mem, freeList[o], lists[o])
  }

  ghost predicate OnlyHeadsChanged(was: seq<int>, mem: seq<int>, heads: map<nat, nat>) {
    && |mem| == |was|
    && forall w :: 0 <= w < |mem| && w / PAGE_WORDS !in heads ==> mem[w] == was[w]
  }

  lemma ListCount(mem: seq<int>, freeList: seq<int>, lists: seq<seq<nat>>, heads: map<nat, nat>)
    requires ListsIn(mem, freeList, lists, heads)
    ensures |lists| == BUDDY_MAX_ORDER
  {
  }

  /** The words written when `page` is put in front of the list starting at `head`. */
  ghost function PushWords(mem: seq<int>, head: int, page: nat): (r: seq<int>)
    requires page * PAGE_WORDS + 1 < |mem|
    requires head == NULL || 0 <= head * PAGE_WORDS < |mem|
  {
    var mem' := mem[page * PAGE_WORDS := NULL][page * PAGE_WORDS + 1 := head];
    if head == NULL then mem' else mem'[head * PAGE_WORDS := page]
  }

  lemma HeadIsFirst(mem: seq<int>, freeList: seq<int>, lists: seq<seq<nat>>, heads: map<nat, nat>, order: nat)
    requires ListsIn(mem, freeList, lists, heads) && order < BUDDY_MAX_ORDER
    ensures order < |lists| && freeList[order] == At(lists[order], 0)
    ensures lists[order] == [] || Node(mem, lists[order], 0)
    ensures var h := freeList[order];
            h == NULL || (h >= 0 && h in heads && heads[h] == order && h * PAGE_WORDS + 1 < |mem|)
  {
    assert Linked(mem, freeList[order], lists[order]);
  }

  lemma SmallestListed(mem: seq<int>, freeList: seq<int>, lists: seq<seq<nat>>, heads: map<nat, nat>, order: nat, i: nat)
    requires ListsIn(mem, freeList, lists, heads) && order <= i < |lists| && lists[i] != []
    requires forall p :: p in heads ==> heads[p] < order || i <= heads[p]
    ensures BestFit(heads, order, lists[i][0])
  {
  }

  lemma ListsPush(mem: seq<int>, freeList: seq<int>, lists: seq<seq<nat>>, heads: map<nat, nat>, order: nat, page: nat)
    requires ListsIn(mem, freeList, lists, heads)
    requires order < BUDDY_MAX_ORDER && page !in heads && page * PAGE_WORDS + 1 < |mem|
    requires freeList[order] == NULL || 0 <= freeList[order] * PAGE_WORDS < |mem|
    ensures var mem' := PushWords(mem, freeList[order], page);
            var heads' := heads[page := order];
            && ListsIn(mem', freeList[order := page], lists[order := [page] + lists[order]], heads')
            && OnlyHeadsChanged(mem, mem', heads')
  {
    var head := freeList[order];
    var mem' := PushWords(mem, head, page);
    HeadIsFirst(mem, freeList, lists, heads, order);
    IndexedPush(lists, heads, order, page);
    forall q | q in heads && q != head ensures Same(mem, mem', q) {}
    assert Linked(mem, head, lists[order]);
    LinkedPush(mem, mem', head, lists[order], page);
    forall o | 0 <= o < BUDDY_MAX_ORDER && o != order ensures Linked(mem', freeList[o], lists[o]) {
      LinkedFrame(mem, mem', freeList[o], lists[o]);
    }
  }

  ghost predicate Addressable(mem: seq<int>, link: int) {
    link == NULL || 0 <= link * PAGE_WORDS < |mem| - 1
  }

  /** The words written when the block between `prev` and `next` is taken out of its list. */
  ghost function UnlinkWords(mem: seq<int>, prev: int, next: int): (r: seq<int>)
    requires Addressable(mem, prev) && Addressable(mem, next)
    ensures |r| == |mem|
    ensures forall q: nat :: q != prev && q != next ==> Same(mem, r, q)
    ensures forall w :: 0 <= w < |mem| && w / PAGE_WORDS != prev && w / PAGE_WORDS != next ==> r[w] == mem[w]
  {
    var mem' := if prev == NULL then mem else mem[prev * PAGE_WORDS + 1 := next];
    if next == NULL then mem' else mem'[next * PAGE_WORDS := prev]
  }

  /** The links of a listed block lead to listed blocks of the same list. */
  lemma Neighbours(mem: seq<int>, freeList: seq<int>, lists: seq<seq<nat>>, heads: map<nat, nat>, order: nat, k: nat)
    requires ListsIn(mem, freeList, lists, heads) && order < BUDDY_MAX_ORDER && k < |lists[order]|
    ensures var l := lists[order];
            && Node(mem, l, k)
            && (k > 0 ==> Node(mem, l, k - 1) && l[k - 1] != l[k])
            && (k + 1 < |l| ==> Node(mem, l, k + 1) && l[k + 1] != l[k])
            && (k > 0 && k + 1 < |l| ==> l[k - 1] != l[k + 1])
            && Addressable(mem, At(l, k - 1)) && Addressable(mem, At(l, k + 1))
  {
    assert Linked(mem, freeList[order], lists[order]);
  }

  lemma ListsUnlink(mem: seq<int>, freeList: seq<int>, lists: seq<seq<nat>>, heads: map<nat, nat>, order: nat, k: nat)
    requires ListsIn(mem, freeList, lists, heads)
    requires order < BUDDY_MAX_ORDER && k < |lists[order]|
    requires Addressable(mem, At(lists[order], k - 1)) && Addressable(mem, At(lists[order], k + 1))
    ensures var l := lists[order];
            ListsIn(UnlinkWords(mem, At(l, k - 1), At(l, k + 1)),
                    if k == 0 then freeList[order := At(l, 1)] else freeList,
                    lists[order := l[..k] + l[k + 1..]],
                    heads - {l[k]})
  {
    var l := lists[order];
    var mem' := UnlinkWords(mem, At(l, k - 1), At(l, k + 1));
    IndexedUnlink(lists, heads, order, k);
    ListUnlink(mem, freeList[order], l, k);
    forall o | 0 <= o < BUDDY_MAX_ORDER && o != order ensures Linked(mem', freeList[o], lists[o]) {
      assert Linked(mem, freeList[o], lists[o]);
      OtherList(lists, heads, order, k, o);
      LinkedFrame(mem, mem', freeList[o], lists[o]);
    }
  }

  lemma OtherList(lists: seq<seq<nat>>, heads: map<nat, nat>, order: nat, k: nat, o: nat)
    requires Indexed(lists, heads) && order < BUDDY_MAX_ORDER && k < |lists[order]|
    requires o < BUDDY_MAX_ORDER && o != order
    ensures forall j :: 0 <= j < |lists[o]| ==>
              lists[o][j] != At(lists[order], k - 1) && lists[o][j] != At(lists[order], k + 1)
  {
  }

  lemma UnlinkTouchesHeads(mem: seq<int>, freeList: seq<int>, lists: seq<seq<nat>>, heads: map<nat, nat>, order: nat, k: nat)
    requires ListsIn(mem, freeList, lists, heads) && order < BUDDY_MAX_ORDER && k < |lists[order]|
    requires Addressable(mem, At(lists[order], k - 1)) && Addressable(mem, At(lists[order], k + 1))
    ensures var l := lists[order];
            OnlyHeadsChanged(mem, UnlinkWords(mem, At(l, k - 1), At(l, k + 1)), heads - {l[k]})
  {
    var l := lists[order];
    assert At(l, k - 1) == NULL || At(l, k - 1) in heads - {l[k]};
    assert At(l, k + 1) == NULL || At(l, k + 1) in heads - {l[k]};
  }

  lemma ListUnlink(mem: seq<int>, head: int, l: seq<nat>, k: nat)
    requires Linked(mem, head, l) && NoDup(l) && k < |l|
    requires Addressable(mem, At(l, k - 1)) && Addressable(mem, At(l, k + 1))
    ensures Linked(UnlinkWords(mem, At(l, k - 1), At(l, k + 1)), if k == 0 then At(l, 1) else head, l[..k] + l[k + 1..])
  {
    var mem' := UnlinkWords(mem, At(l, k - 1), At(l, k + 1));
    LinkedUnlink(mem, mem', head, if k == 0 then At(l, 1) else head, l, k);
  }

  lemma ListsFrame(was: seq<int>, mem: seq<int>, freeList: seq<int>, lists: seq<seq<nat>>, heads: map<nat, nat>)
    requires ListsIn(was, freeList, lists, heads) && |mem| == |was|
    requires forall w :: 0 <= w < |mem| && w / PAGE_WORDS in heads ==> mem[w] == was[w]
    ensures ListsIn(mem, freeList, lists, heads)
  {
    forall q | q in heads ensures Same(was, mem, q) {}
    forall o | 0 <= o < BUDDY_MAX_ORDER ensures Linked(mem, freeList[o], lists[o]) {
      LinkedFrame(was, mem, freeList[o], lists[o]);
    }
  }

  class BuddyAllocator {
    const mem: array<int>
    const freeList: array<int>
    const pageOrder: array<int>
    ghost const pages: nat
    ghost var lists: seq<seq<nat>>
    ghost var heads: map<nat, nat>
    ghost var live: map<nat, nat>
    ghost var marks: map<nat, int>

    ghost predicate Shape() {
      && mem != freeList && mem != pageOrder && freeList != pageOrder
      && freeList.Length == BUDDY_MAX_ORDER && pageOrder.Length == BUDDY_TOTAL_PAGES
      && pages <= BUDDY_TOTAL_PAGES && pages * PAGE_WORDS <= mem.Length
    }

    ghost predicate ListsOk()
      reads this, mem, freeList
    {
      && Shape()
      && ListsIn(mem[..], freeList[..], lists, heads)
      && forall q :: q in heads ==> q < pages
    }

    ghost predicate Valid()
      reads this, mem, freeList, pageOrder
    {
      && ListsOk()
      && Heap(pages, heads, live)
      && OwnersOk(pageOrder[..], live, marks)
    }

    /** buddy_init: cut the managed pages greedily into blocks of falling order. */
    constructor Init(vram: array<int>, size: nat)
      requires size <= BUDDY_TOTAL_PAGES * PAGE_SIZE
      requires size / PAGE_SIZE * PAGE_WORDS <= vram.Length
      modifies vram
      ensures Valid()
      ensures mem == vram && fresh(freeList) && fresh(pageOrder)
      ensures pages == size / PAGE_SIZE
      ensures live == map[] && marks == map[]
    {
      mem := vram;
      freeList := new int[BUDDY_MAX_ORDER](_ => NULL);
      pageOrder := new int[BUDDY_TOTAL_PAGES](_ => 0);
      pages := size / PAGE_SIZE;
      lists := seq(BUDDY_MAX_ORDER, _ => []);
      heads, live, marks := map[], map[], map[];
      new;
      NoBlocks(mem[..], freeList[..], lists);
      Fill(size);
      GreedyIsHeap(pages, heads);
    }

    method Fill(size: nat)
      requires ListsOk() && heads == map[] && Greedy(0, BUDDY_MAX_ORDER, heads)
      requires pages == size / PAGE_SIZE && size <= BUDDY_TOTAL_PAGES * PAGE_SIZE
      modifies mem, freeList, `lists, `heads
      ensures ListsOk() && Greedy(pages, 0, heads)
    {
      hide ListsIn, Greedy;
      var remaining, offset := size, 0;
      ghost var done: nat := 0;
      ZeroAligned(BUDDY_MAX_ORDER);
      Pow2Top();
      for order := BUDDY_MAX_ORDER downto 0
        invariant ListsOk()
        invariant offset == done * PAGE_SIZE && 0 <= remaining == size - offset < Pow2(order) * PAGE_SIZE
        invariant Aligned(done, order)
        invariant Greedy(done, order, heads)
      {
        var blockSize := Pow2(order) * PAGE_SIZE;
        AlignedWeaken(done, order);
        if remaining >= blockSize {
          GreedyStep(done, order, heads);
          AlignedStep(done, order);
          PushFront(order, offset / PAGE_SIZE);
          offset := offset + blockSize;
          remaining := remaining - blockSize;
          done := done + Pow2(order);
        } else {
          GreedySkip(done, order, heads);
        }
      }
      assert Pow2(0) == 1;
      assert done == pages;
    }

    /** buddy_alloc: split the first large enough listed block down to the needed order.  Fails exactly
        when no wholly free block could hold the request. */
    method Alloc(size: nat) returns (r: int)
      requires Valid()
      modifies mem, freeList, pageOrder, `lists, `heads, `live
      ensures Valid()
      ensures r == FAILED <==> !CanHold(pages, old(live), size)
      ensures r == FAILED ==> live == old(live) && heads == old(heads) && mem[..] == old(mem[..])
      ensures r != FAILED ==>
                && r >= 0 && r % PAGE_SIZE == 0 && r / PAGE_SIZE !in old(live)
                && OrderFrom(size, 0) < BUDDY_MAX_ORDER
                && live == old(live)[r / PAGE_SIZE := OrderFrom(size, 0)]
      ensures r != FAILED ==> r >= 0 && BestFit(old(heads), OrderFrom(size, 0), r / PAGE_SIZE)
      ensures Undisturbed(old(mem[..]), mem[..], old(live))
      ensures PagesUndisturbed(old(pageOrder[..]), pageOrder[..], old(live))
    {
      hide Heap, ListsIn, LivePage, Blocks.WhollyFree, OrderFrom, BestFit;
      var order := NeededOrder(size);
      var i := FirstList(order);
      if i == BUDDY_MAX_ORDER {
        NothingHolds(pages, heads, live, size);
        return FAILED;
      }
      HeadIsFirst(mem[..], freeList[..], lists, heads, i);
      var left := freeList[i];
      assert left == lists[i][0];
      assert BestFit(heads, order, left) by {
        SmallestListed(mem[..], freeList[..], lists, heads, order, i);
      }
      HeadHolds(pages, heads, live, size, left);
      Cut(left, i, order);
      r := left * PAGE_SIZE;
    }

    /** Cut a block of the wanted order from the left of a listed one and make it live. */
    method Cut(left: nat, from: nat, order: nat)
      requires Valid() && order <= from < BUDDY_MAX_ORDER && lists[from] != [] && lists[from][0] == left
      modifies mem, freeList, pageOrder, `lists, `heads, `live
      ensures Valid() && left !in old(live) && live == old(live)[left := order]
      ensures Undisturbed(old(mem[..]), mem[..], old(live))
      ensures PagesUndisturbed(old(pageOrder[..]), pageOrder[..], old(live))
    {
      hide Heap, ListsIn, LivePage;
      TakeFirst(from, left);
      Carve(left, from, order);
      Narrower(old(live), left, from, order);
      Grown(old(live), left, order);
      NotLiveYet(pages, heads, live, left);
      assert live - {left} == old(live);
      pageOrder[left] := order;
    }

    static method NeededOrder(size: nat) returns (order: nat)
      ensures order == OrderFrom(size, 0)
    {
      order := 0;
      while order < BUDDY_MAX_ORDER && Pow2(order) * PAGE_SIZE < size
        invariant 0 <= order <= BUDDY_MAX_ORDER
        invariant OrderFrom(size, order) == OrderFrom(size, 0)
      {
        order := order + 1;
      }
    }

    method FirstList(order: nat) returns (i: nat)
      requires ListsOk() && order <= BUDDY_MAX_ORDER
      ensures order <= i <= BUDDY_MAX_ORDER
      ensures i < BUDDY_MAX_ORDER ==> lists[i] != []
      ensures i == BUDDY_MAX_ORDER ==> forall p :: p in heads ==> heads[p] < order
      ensures forall p :: p in heads ==> heads[p] < order || i <= heads[p]
    {
      i := order;
      while i < BUDDY_MAX_ORDER && freeList[i] == NULL
        invariant order <= i <= BUDDY_MAX_ORDER
        invariant forall j :: order <= j < i ==> lists[j] == []
      {
        assert Linked(mem[..], freeList[i], lists[i]);
        i := i + 1;
      }
      if i < BUDDY_MAX_ORDER {
        assert Linked(mem[..], freeList[i], lists[i]);
      }
    }

    /** Take the first block of a free list in hand. */
    method TakeFirst(order: nat, page: nat)
      requires ListsOk() && order < BUDDY_MAX_ORDER
      requires Heap(pages, heads, live)
      requires lists[order] != [] && lists[order][0] == page
      modifies mem, freeList, `lists, `heads, `live
      ensures ListsOk()
      ensures page !in old(live) && page < pages && live == old(live)[page := order]
      ensures Heap(pages, heads, live)
      ensures Undisturbed(old(mem[..]), mem[..], live)
    {
      HeapTake(pages, heads, live, page);
      Unlink(order, page, 0);
      live := live[page := order];
      HeadIsNotLive(pages, heads, live);
    }

    /** Split the block in hand until it has the wanted order; the right halves become free. */
    method Carve(left: nat, from: nat, order: nat)
      requires ListsOk() && order <= from < BUDDY_MAX_ORDER
      requires Heap(pages, heads, live)
      requires left in live && live[left] == from
      modifies mem, freeList, `lists, `heads, `live
      ensures ListsOk()
      ensures live == old(live)[left := order]
      ensures Heap(pages, heads, live)
      ensures Undisturbed(old(mem[..]), mem[..], live)
    {
      hide Heap, ListsOk, LivePage;
      var i := from;
      while i > order
        invariant order <= i <= from
        invariant ListsOk() && Heap(pages, heads, live)
        invariant live == old(live)[left := i]
        invariant Undisturbed(old(mem[..]), mem[..], live)
      {
        Narrower(old(live), left, i, i - 1);
        SplitOnce(left, i);
        i := i - 1;
      }
    }

    method SplitOnce(left: nat, i: nat)
      requires ListsOk() && 0 < i < BUDDY_MAX_ORDER
      requires Heap(pages, heads, live)
      requires left in live && live[left] == i
      modifies mem, freeList, `lists, `heads, `live
      ensures ListsOk()
      ensures live == old(live)[left := i - 1]
      ensures Heap(pages, heads, live)
      ensures Undisturbed(old(mem[..]), mem[..], live)
    {
      hide Heap, ListsIn, Shape;
      var right := left + Pow2(i - 1);
      HeapSplit(pages, heads, live, left);
      PushFront(i - 1, right);
      live := live[left := i - 1];
      HeadIsNotLive(pages, heads, live);
    }

    /** Search a free list for a block. */
    method Find(order: nat, page: nat) returns (temp: int, ghost k: nat)
      requires ListsOk() && order < BUDDY_MAX_ORDER
      ensures order < |lists|
      ensures temp == NULL ==> Block(order, page) !in BlocksOf(heads)
      ensures temp != NULL ==> temp == page && k < |lists[order]| && lists[order][k] == page
      ensures temp != NULL ==> Block(order, page) in BlocksOf(heads)
    {
      HeadIsFirst(mem[..], freeList[..], lists, heads, order);
      ghost var l := lists[order];
      temp, k := freeList[order], 0;
      while temp != NULL
        invariant 0 <= k <= |l| && temp == At(l, k)
        invariant page !in l[..k]
        decreases |l| - k
      {
        Neighbours(mem[..], freeList[..], lists, heads, order, k);
        if temp == page {
          return;
        }
        temp, k := mem[temp * PAGE_WORDS + 1], k + 1;
      }
    }

    /** buddy_free: merge the block with its buddy as long as the buddy is free, then list it. */
    method Free(offset: nat)
      requires Valid()
      requires offset % PAGE_SIZE == 0
      requires offset / PAGE_SIZE in live && offset / PAGE_SIZE !in marks
      modifies mem, freeList, pageOrder, `lists, `heads, `live
      ensures Valid()
      ensures live == old(live) - {offset / PAGE_SIZE}
      ensures Undisturbed(old(mem[..]), mem[..], live)
      ensures PagesUndisturbed(old(pageOrder[..]), pageOrder[..], live)
      decreases BUDDY_MAX_ORDER - live[offset / PAGE_SIZE]
    {
      hide Heap, ListsIn, LivePage;
      var page := offset / PAGE_SIZE;
      var order := pageOrder[page];
      ghost var b := Block(order, page);
      LiveIsProper(pages, heads, live, page);
      XorBytes(page, order);
      BuddyIsNat(page, order);
      var buddyOffset := Xor(offset, Pow2(order) * PAGE_SIZE);
      var temp, k := Find(order, buddyOffset / PAGE_SIZE);
      assert BuddyBlock(b) == Block(order, buddyOffset / PAGE_SIZE);
      if temp == NULL {
        HeapPut(pages, heads, live, page);
        PushFront(order, page);
        live := live - {page};
        HeadIsNotLive(pages, heads, live);
      } else {
        var merged := if offset < buddyOffset then offset else buddyOffset;
        Absorb(page, order, temp, k);
        assert merged / PAGE_SIZE == if page < temp then page else temp;
        Shrunk(live, merged / PAGE_SIZE);
        Free(merged);
      }
    }

    /** Take the free buddy off its list and become the block of twice the size. */
    method Absorb(page: nat, order: nat, buddy: nat, ghost k: nat)
      requires Valid()
      requires page in live && page !in marks && live[page] == order && order < BUDDY_MAX_ORDER
      requires order < |lists| && k < |lists[order]| && lists[order][k] == buddy
      requires Aligned(page, order) && BuddyBlock(Block(order, page)) == Block(order, buddy)
      requires Block(order, buddy) in BlocksOf(heads)
      modifies mem, freeList, pageOrder, `lists, `heads, `live
      ensures Valid()
      ensures order + 1 < BUDDY_MAX_ORDER
      ensures var m := if page < buddy then page else buddy;
              && live == (old(live) - {page})[m := order + 1]
              && live - {m} == old(live) - {page}
              && m !in marks
      ensures Undisturbed(old(mem[..]), mem[..], live)
      ensures PagesUndisturbed(old(pageOrder[..]), pageOrder[..], old(live) - {page})
    {
      hide Heap, ListsIn, LivePage;
      HeapMerge(pages, heads, live, page);
      Unlink(order, buddy, k);
      var m := if page < buddy then page else buddy;
      BuddyIsNat(page, order);
      assert Parent(Block(order, page)) == Block(order + 1, m);
      live := (live - {page})[m := order + 1];
      LiveIsProper(pages, heads, live, m);
      HeadIsNotLive(pages, heads, live);
      NotLiveYet(pages, heads, live, m);
      assert live - {m} == old(live) - {page};
      pageOrder[m] := order + 1;
    }

    /** page_order[page] = marker, as a slab cache does with a page it owns. */
    method Mark(page: nat, marker: int)
      requires Valid() && page in live && live[page] == 0
      modifies pageOrder, `marks
      ensures Valid() && marks == old(marks)[page := marker]
      ensures pageOrder[..] == old(pageOrder[..])[page := marker]
    {
      LiveIsProper(pages, heads, live, page);
      pageOrder[page] := marker;
      marks := marks[page := marker];
    }

    /** page_order[page] = 0, as a slab cache does before it gives a page back. */
    method Unmark(page: nat)
      requires Valid() && page in marks
      modifies pageOrder, `marks
      ensures Valid() && marks == old(marks) - {page}
      ensures pageOrder[..] == old(pageOrder[..])[page := 0]
    {
      LiveIsProper(pages, heads, live, page);
      pageOrder[page] := 0;
      marks := marks - {page};
    }

    /** A store by the owner of a live block. */
    method Store(w: nat, value: int)
      requires Valid() && w < mem.Length && LivePage(live, w / PAGE_WORDS)
      modifies mem
      ensures Valid() && mem[..] == old(mem[..])[w := value]
    {
      HeadIsNotLive(pages, heads, live);
      ListsFrame(mem[..], mem[..][w := value], freeList[..], lists, heads);
      mem[w] := value;
    }

    /** Put a block in front of its free list. */
    method PushFront(order: nat, page: nat)
      requires ListsOk() && order < BUDDY_MAX_ORDER
      requires page < pages && page !in heads
      modifies mem, freeList, `lists, `heads
      ensures ListsOk()
      ensures heads == old(heads)[page := order]
      ensures OnlyHeadsChanged(old(mem[..]), mem[..], heads)
    {
      HeadIsFirst(mem[..], freeList[..], lists, heads, order);
      ListsPush(mem[..], freeList[..], lists, heads, order, page);
      var head := freeList[order];
      mem[page * PAGE_WORDS] := NULL;
      mem[page * PAGE_WORDS + 1] := head;
      if head != NULL {
        mem[head * PAGE_WORDS] := page;
      }
      freeList[order] := page;
      heads := heads[page := order];
      lists := lists[order := [page] + lists[order]];
      assert mem[..] == PushWords(old(mem[..]), head, page);
      assert freeList[..] == old(freeList[..])[order := page];
    }

    /** Take a block out of its free list. */
    method Unlink(order: nat, page: nat, ghost k: nat)
      requires ListsOk() && order < BUDDY_MAX_ORDER
      requires k < |lists[order]| && lists[order][k] == page
      modifies mem, freeList, `lists, `heads
      ensures ListsOk()
      ensures heads == old(heads) - {page}
      ensures OnlyHeadsChanged(old(mem[..]), mem[..], heads)
    {
      hide ListsIn, OnlyHeadsChanged;
      ListCount(mem[..], freeList[..], lists, heads);
      ghost var l := lists[order];
      Neighbours(mem[..], freeList[..], lists, heads, order, k);
      ListsUnlink(mem[..], freeList[..], lists, heads, order, k);
      UnlinkTouchesHeads(mem[..], freeList[..], lists, heads, order, k);
      Rewire(order, page);
      lists := lists[order := l[..k] + l[k + 1..]];
      heads := heads - {page};
    }

    /** Join the neighbours of a node. */
    method Rewire(order: nat, page: nat)
      requires mem != freeList && order < freeList.Length && page * PAGE_WORDS + 1 < mem.Length
      requires Addressable(mem[..], mem[page * PAGE_WORDS]) && Addressable(mem[..], mem[page * PAGE_WORDS + 1])
      modifies mem, freeList
      ensures mem[..] == UnlinkWords(old(mem[..]), old(mem[page * PAGE_WORDS]), old(mem[page * PAGE_WORDS + 1]))
      ensures freeList[..] == if old(mem[page * PAGE_WORDS]) == NULL
                              then old(freeList[..])[order := old(mem[page * PAGE_WORDS + 1])] else old(freeList[..])
    {
      var prev := mem[page * PAGE_WORDS];
      var next := mem[page * PAGE_WORDS + 1];
      if prev != NULL {
        mem[prev * PAGE_WORDS + 1] := next;
      } else {
        freeList[order] := next;
      }
      if next != NULL {
        mem[next * PAGE_WORDS] := prev;
      }
    }
  }

  lemma ArraysApart(b: BuddyAllocator)
    requires b.Valid()
    ensures b.Shape()
  {
  }

  /** A live page is undisturbed while nothing changes. */
  lemma Untouched(b: BuddyAllocator)
    ensures Undisturbed(b.mem[..], b.mem[..], b.live)
    ensures PagesUndisturbed(b.pageOrder[..], b.pageOrder[..], b.live)
  {
  }

  // ---------------------------------------------------------------------------------------------
  // Whole runs.

  /** A client asks for memory, or gives back what its n-th request got. */
  datatype Request = Get(size: nat) | GiveBack(n: nat)

  /** Blocks that were live before the run are live and as they were. */
  ghost predicate Outlasts(live0: map<nat, nat>, mem0: seq<int>, live: map<nat, nat>, mem: seq<int>) {
    && (forall p :: p in live0 ==> p in live && live[p] == live0[p])
    && Undisturbed(mem0, mem, live0)
  }

  lemma OutlastsStep(live0: map<nat, nat>, mem0: seq<int>, live1: map<nat, nat>, mem1: seq<int>,
                     live2: map<nat, nat>, mem2: seq<int>, both: map<nat, nat>)
    requires Outlasts(live0, mem0, live1, mem1) && Undisturbed(mem1, mem2, both)
    requires forall p :: p in live0 ==> p in both && both[p] == live0[p] && p in live2 && live2[p] == live0[p]
    ensures Outlasts(live0, mem0, live2, mem2)
  {
    assert forall q: nat :: LivePage(live0, q) ==> LivePage(both, q);
  }

  /** How many of the requests ask for memory: there is one result for each of them. */
  function Gets(trace: seq<Request>): (n: nat)
    ensures n <= |trace|
  {
    if trace == [] then 0 else Gets(trace[..|trace| - 1]) + if trace[|trace| - 1].Get? then 1 else 0
  }

  /** The live blocks after a run with these results: a request that got something added a block of the least sufficient
      order, and giving back removes the block unless it was live before the run or has been given back already. */
  ghost function LiveAfter(live0: map<nat, nat>, trace: seq<Request>, results: seq<int>): map<nat, nat>
    requires Gets(trace) <= |results|
  {
    if trace == [] then live0 else
      var past := trace[..|trace| - 1];
      var before := LiveAfter(live0, past, results);
      match trace[|trace| - 1]
      case Get(size) =>
        var r := results[Gets(past)];
        if r >= 0 then before[r / PAGE_SIZE := OrderFrom(size, 0)] else before
      case GiveBack(n) =>
        if n < Gets(past) && Owns(live0, before, results[n]) then before - {results[n] / PAGE_SIZE} else before
  }

  /** The result is a block that the client got and holds. */
  ghost predicate Owns(live0: map<nat, nat>, live: map<nat, nat>, r: int) {
    r >= 0 && r / PAGE_SIZE in live && r / PAGE_SIZE !in live0
  }

  /** The right answer to a request in a state: a failure exactly when no wholly free block would do, and otherwise the
      first byte of a page that is not in use. */
  ghost predicate Answers(pages: nat, live: map<nat, nat>, size: nat, r: int) {
    && (r == FAILED <==> !CanHold(pages, live, size))
    && (r != FAILED ==> r >= 0 && r % PAGE_SIZE == 0 && r / PAGE_SIZE !in live)
  }

  /** Every result answers its request in the state that the requests before it led to. */
  ghost predicate AllAnswered(pages: nat, live0: map<nat, nat>, trace: seq<Request>, results: seq<int>)
    requires Gets(trace) <= |results|
  {
    if trace == [] then true else
      var past := trace[..|trace| - 1];
      && AllAnswered(pages, live0, past, results)
      && var last := trace[|trace| - 1];
         (last.Get? ==> Answers(pages, LiveAfter(live0, past, results), last.size, results[Gets(past)]))
  }

  /** Later results say nothing about earlier requests. */
  lemma {:induction false} LaterResults(pages: nat, live0: map<nat, nat>, trace: seq<Request>, results: seq<int>, r: int)
    requires Gets(trace) <= |results|
    ensures LiveAfter(live0, trace, results + [r]) == LiveAfter(live0, trace, results)
    ensures AllAnswered(pages, live0, trace, results) ==> AllAnswered(pages, live0, trace, results + [r])
    decreases |trace|
  {
    if trace != [] {
      LaterResults(pages, live0, trace[..|trace| - 1], results, r);
    }
  }

  /** What the client may give back was aligned when it was handed out. */
  lemma {:induction false} ResultsAligned(pages: nat, live0: map<nat, nat>, trace: seq<Request>, results: seq<int>, n: nat)
    requires Gets(trace) <= |results| && AllAnswered(pages, live0, trace, results) && n < Gets(trace)
    ensures results[n] == FAILED || (results[n] >= 0 && results[n] % PAGE_SIZE == 0)
    decreases |trace|
  {
    hide CanHold, LiveAfter;
    if n < Gets(trace[..|trace| - 1]) {
      ResultsAligned(pages, live0, trace[..|trace| - 1], results, n);
    }
  }

  lemma RunStart(pages: nat, live0: map<nat, nat>)
    ensures LiveAfter(live0, [], []) == live0 && AllAnswered(pages, live0, [], [])
  {
  }

  lemma GetStep(pages: nat, live0: map<nat, nat>, trace: seq<Request>, results: seq<int>, r: int,
                before: map<nat, nat>, after: map<nat, nat>)
    requires trace != [] && trace[|trace| - 1].Get?
    requires var past, size := trace[..|trace| - 1], trace[|trace| - 1].size;
             && |results| == Gets(past) && AllAnswered(pages, live0, past, results)
             && before == LiveAfter(live0, past, results) && Answers(pages, before, size, r)
             && after == if r == FAILED then before else before[r / PAGE_SIZE := OrderFrom(size, 0)]
    ensures Gets(trace) == |results| + 1
    ensures AllAnswered(pages, live0, trace, results + [r])
    ensures after == LiveAfter(live0, trace, results + [r])
  {
    hide Answers, OrderFrom;
    LaterResults(pages, live0, trace[..|trace| - 1], results, r);
  }

  lemma GiveBackStep(pages: nat, live0: map<nat, nat>, trace: seq<Request>, results: seq<int>)
    requires trace != [] && trace[|trace| - 1].GiveBack?
    requires |results| == Gets(trace[..|trace| - 1]) && AllAnswered(pages, live0, trace[..|trace| - 1], results)
    ensures Gets(trace) == |results| && AllAnswered(pages, live0, trace, results)
    ensures var before, n := LiveAfter(live0, trace[..|trace| - 1], results), trace[|trace| - 1].n;
            LiveAfter(live0, trace, results) ==
            if n < |results| && Owns(live0, before, results[n]) then before - {results[n] / PAGE_SIZE} else before
  {
  }

  lemma HeapOf(b: BuddyAllocator)
    requires b.Valid()
    ensures Heap(b.pages, b.heads, b.live) && forall p :: p in b.marks ==> p in b.live
  {
  }

  /** Any interleaving of requests keeps every invariant and every block of other clients, answers each request rightly and
      leaves exactly the blocks live that the trace and the results say; and a run that gives back all it took restores the
      free-block sets, whatever was split and merged in between. */
  method Serve(b: BuddyAllocator, trace: seq<Request>) returns (results: seq<int>)
    requires b.Valid()
    modifies b, b.mem, b.freeList, b.pageOrder
    ensures b.Valid() && |results| == Gets(trace)
    ensures AllAnswered(b.pages, old(b.live), trace, results)
    ensures b.live == LiveAfter(old(b.live), trace, results)
    ensures Outlasts(old(b.live), old(b.mem[..]), b.live, b.mem[..])
    ensures b.live == old(b.live) ==> Blocks.BlocksOf(b.heads) == old(Blocks.BlocksOf(b.heads))
  {
    hide BuddyAllocator.Valid, Heap, LivePage, OrderFrom, CanHold, LiveAfter, AllAnswered, Undisturbed;
    results := [];
    var held: set<nat> := {};
    Untouched(b);
    HeapOf(b);
    ghost var live0, mem0, heads0 := b.live, b.mem[..], b.heads;
    RunStart(b.pages, live0);
    assert trace[..0] == [];
    for i := 0 to |trace|
      invariant b.Valid() && b.marks == old(b.marks) && (forall p :: p in b.marks ==> p in live0)
      invariant |results| == Gets(trace[..i]) && AllAnswered(b.pages, live0, trace[..i], results)
      invariant b.live == LiveAfter(live0, trace[..i], results)
      invariant forall p :: p in held <==> p in b.live && p !in live0
      invariant Outlasts(live0, mem0, b.live, b.mem[..])
    {
      assert trace[..i + 1][..i] == trace[..i];
      ghost var live1, mem1 := b.live, b.mem[..];
      match trace[i] {
        case Get(size) =>
          var r := b.Alloc(size);
          OutlastsStep(live0, mem0, live1, mem1, b.live, b.mem[..], live1);
          GetStep(b.pages, live0, trace[..i + 1], results, r, live1, b.live);
          results := results + [r];
          if r != FAILED {
            held := held + {r / PAGE_SIZE};
          }
        case GiveBack(n) =>
          GiveBackStep(b.pages, live0, trace[..i + 1], results);
          if n < |results| && results[n] >= 0 && results[n] / PAGE_SIZE in held {
            ResultsAligned(b.pages, live0, trace[..i], results, n);
            held := held - {results[n] / PAGE_SIZE};
            b.Free(results[n]);
            OutlastsStep(live0, mem0, live1, mem1, b.live, b.mem[..], b.live);
          }
      }
    }
    assert trace[..|trace|] == trace;
    HeapOf(b);
    if b.live == live0 {
      HeapIsDetermined(b.pages, heads0, b.heads, live0);
    }
  }

  lemma HeapIsDetermined(pages: nat, heads: map<nat, nat>, heads': map<nat, nat>, live: map<nat, nat>)
    requires Heap(pages, heads, live) && Heap(pages, heads', live)
    ensures Blocks.BlocksOf(heads) == Blocks.BlocksOf(heads')
  {
    FreeSetIsDetermined(pages, Blocks.BlocksOf(heads), Blocks.BlocksOf(heads'), live);
  }
}
