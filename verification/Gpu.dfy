/** The allocation interface of the runtime: small requests go to a slab cache, large ones to the buddy
    allocator, and the page_order byte tells which one an offset came from. */
module Gpu {
  import opened Blocks
  import opened Buddy
  import opened Slab
  import opened Bytes

  const NUM_CACHES: nat := 6
  const PAGE_ORDER_SLAB_32: int := 0xF0

  function CacheSize(i: nat): (r: nat)
    requires i < NUM_CACHES
    ensures SlotSize(r)
  {
    if i == 0 then 32 else if i == 1 then 64 else if i == 2 then 128 else if i == 3 then 256 else if i == 4 then 512 else 2048
  }

  /** get_slab: the cache named by a page_order byte; NUM_CACHES when it names none. */
  function GetSlab(marker: int): (i: nat)
    ensures i <= NUM_CACHES
    ensures i < NUM_CACHES <==> PAGE_ORDER_SLAB_32 <= marker < PAGE_ORDER_SLAB_32 + NUM_CACHES
    ensures i < NUM_CACHES ==> marker == PAGE_ORDER_SLAB_32 + i
  {
    match marker
    case 0xF0 => 0
    case 0xF1 => 1
    case 0xF2 => 2
    case 0xF3 => 3
    case 0xF4 => 4
    case 0xF5 => 5
    case _ => NUM_CACHES
  }

  /** route_slab: the smallest cache whose slots hold the request; NUM_CACHES when none does. */
  function RouteSlab(size: nat): (i: nat)
    ensures i <= NUM_CACHES
    ensures i < NUM_CACHES ==> size <= CacheSize(i) && forall j :: 0 <= j < i ==> CacheSize(j) < size
    ensures i == NUM_CACHES <==> size > 2048
  {
    if size <= 32 then 0
    else if size <= 64 then 1
    else if size <= 128 then 2
    else if size <= 256 then 3
    else if size <= 512 then 4
    else if size <= 2048 then 5
    else NUM_CACHES
  }

  // ---------------------------------------------------------------------------------------------
  // The ledger of allocations: offset -> capacity in bytes.

  /** `s` lies on a slot boundary of a page that carries the marker of the i-th cache. */
  ghost predicate InCache(i: nat, s: nat, marks: map<nat, int>)
    requires i < NUM_CACHES
  {
    && OnSlot(CacheSize(i), s)
    && s / PAGE_SIZE in marks && marks[s / PAGE_SIZE] == PAGE_ORDER_SLAB_32 + i
  }

  ghost predicate Placed(used: seq<set<nat>>, marks: map<nat, int>) {
    && |used| == NUM_CACHES
    && forall i, s :: 0 <= i < NUM_CACHES && s in used[i] ==> InCache(i, s, marks)
  }

  lemma InCachePage(i: nat, s: nat, marks: map<nat, int>)
    requires i < NUM_CACHES && InCache(i, s, marks)
    ensures s + CacheSize(i) <= (s / PAGE_SIZE + 1) * PAGE_SIZE
    ensures s / PAGE_SIZE in marks && GetSlab(marks[s / PAGE_SIZE]) == i
  {
    SlotInPage(CacheSize(i), s);
  }

  lemma InCacheApart(i: nat, s: nat, t: nat, marks: map<nat, int>)
    requires i < NUM_CACHES && InCache(i, s, marks) && InCache(i, t, marks) && s < t
    ensures s + CacheSize(i) <= t
  {
    SlotsApart(CacheSize(i), s, t);
  }

  ghost predicate IsBlock(live: map<nat, nat>, marks: map<nat, int>, o: nat) {
    o % PAGE_SIZE == 0 && o / PAGE_SIZE in live && o / PAGE_SIZE !in marks
  }

  /** The allocations are the used slots of the caches and the live blocks that no cache owns. */
  ghost predicate Ledger(allocs: map<nat, nat>, used: seq<set<nat>>, live: map<nat, nat>, marks: map<nat, int>) {
    && Placed(used, marks)
    && (forall i, s :: 0 <= i < NUM_CACHES && s in used[i] ==> s in allocs && allocs[s] == CacheSize(i))
    && (forall o: nat :: IsBlock(live, marks, o) ==> o in allocs && allocs[o] == Pow2(live[o / PAGE_SIZE]) * PAGE_SIZE)
    && forall o :: o in allocs && !IsBlock(live, marks, o) ==> exists i :: 0 <= i < NUM_CACHES && o in used[i]
  }

  /** The live block that an allocation lies in. */
  ghost predicate Within(live: map<nat, nat>, o: nat, length: nat, p: nat) {
    && p in live
    && p * PAGE_SIZE <= o && o + length <= (p + Pow2(live[p])) * PAGE_SIZE
  }

  lemma AllocationIsWithin(allocs: map<nat, nat>, used: seq<set<nat>>, live: map<nat, nat>, marks: map<nat, int>,
                           pageOrder: seq<int>, o: nat) returns (p: nat)
    requires Ledger(allocs, used, live, marks) && OwnersOk(pageOrder, live, marks) && o in allocs
    ensures Within(live, o, allocs[o], p)
    ensures p in marks <==> !IsBlock(live, marks, o)
    ensures p == o / PAGE_SIZE
  {
    hide InCache, CacheSize;
    p := o / PAGE_SIZE;
    if !IsBlock(live, marks, o) {
      var i :| 0 <= i < NUM_CACHES && o in used[i];
      InCachePage(i, o, marks);
      assert Pow2(live[p]) == 1;
    }
  }

  ghost predicate Apart(o: nat, length: nat, o': nat, length': nat) {
    o + length <= o' || o' + length' <= o
  }

  /** Allocations are pairwise disjoint and inside the managed memory. */
  lemma AllocationsApart(pages: nat, heads: map<nat, nat>, live: map<nat, nat>, marks: map<nat, int>, pageOrder: seq<int>,
                         allocs: map<nat, nat>, used: seq<set<nat>>, o: nat, o': nat)
    requires Heap(pages, heads, live) && OwnersOk(pageOrder, live, marks)
    requires Ledger(allocs, used, live, marks)
    requires o in allocs && o' in allocs && o != o'
    ensures Apart(o, allocs[o], o', allocs[o'])
    ensures o + allocs[o] <= pages * PAGE_SIZE
  {
    hide InCache, CacheSize, Heap;
    var p := AllocationIsWithin(allocs, used, live, marks, pageOrder, o);
    var p' := AllocationIsWithin(allocs, used, live, marks, pageOrder, o');
    LiveIsProper(pages, heads, live, p);
    if p != p' {
      LiveApart(pages, heads, live, p, p');
    } else {
      var i :| 0 <= i < NUM_CACHES && o in used[i];
      var i' :| 0 <= i' < NUM_CACHES && o' in used[i'];
      InCachePage(i, o, marks);
      InCachePage(i', o', marks);
      if o < o' {
        InCacheApart(i, o, o', marks);
      } else {
        InCacheApart(i, o', o, marks);
      }
    }
  }

  lemma LiveApart(pages: nat, heads: map<nat, nat>, live: map<nat, nat>, p: nat, p': nat)
    requires Heap(pages, heads, live) && p in live && p' in live && p != p'
    ensures Disjoint(Block(live[p], p), Block(live[p'], p'))
  {
    var tiles := BlocksOf(heads) + BlocksOf(live);
    assert Block(live[p], p) in tiles && Block(live[p'], p') in tiles;
  }

  // ---------------------------------------------------------------------------------------------
  // Words of allocations.

  ghost predicate InRange(o: nat, length: nat, w: int) {
    o <= w * WORD < o + length
  }

  /** No word of an allocation changed. */
  ghost predicate Kept(was: seq<int>, mem: seq<int>, allocs: map<nat, nat>) {
    && |mem| == |was|
    && forall o, w :: o in allocs && 0 <= w < |mem| && InRange(o, allocs[o], w) ==> mem[w] == was[w]
  }

  lemma WordIsLive(allocs: map<nat, nat>, used: seq<set<nat>>, live: map<nat, nat>, marks: map<nat, int>,
                   pageOrder: seq<int>, o: nat, w: nat)
    requires Ledger(allocs, used, live, marks) && OwnersOk(pageOrder, live, marks)
    requires o in allocs && InRange(o, allocs[o], w)
    ensures LivePage(live, w / PAGE_WORDS)
    ensures !IsBlock(live, marks, o) ==> w / PAGE_WORDS == o / PAGE_SIZE
  {
    var p := AllocationIsWithin(allocs, used, live, marks, pageOrder, o);
    assert Covers(Block(live[p], p), w / PAGE_WORDS);
    assert p in marks ==> Pow2(live[p]) == 1;
  }

  lemma UndisturbedKeeps(allocs: map<nat, nat>, used: seq<set<nat>>, live: map<nat, nat>, marks: map<nat, int>,
                         pageOrder: seq<int>, was: seq<int>, mem: seq<int>)
    requires Ledger(allocs, used, live, marks) && OwnersOk(pageOrder, live, marks)
    requires Undisturbed(was, mem, live)
    ensures Kept(was, mem, allocs)
  {
    forall o, w | o in allocs && 0 <= w < |mem| && InRange(o, allocs[o], w) ensures mem[w] == was[w] {
      WordIsLive(allocs, used, live, marks, pageOrder, o, w);
    }
  }

  /** The word of a free slot, or of the slot being freed, is no word of another allocation. */
  lemma LinkIsForeign(allocs: map<nat, nat>, used: seq<set<nat>>, live: map<nat, nat>, marks: map<nat, int>,
                      pageOrder: seq<int>, pages: nat, heads: map<nat, nat>, i: nat, f: nat, o: nat, w: nat)
    requires Heap(pages, heads, live)
    requires Ledger(allocs, used, live, marks) && OwnersOk(pageOrder, live, marks)
    requires i < NUM_CACHES && InCache(i, f, marks)
    requires o in allocs && o != f && InRange(o, allocs[o], w)
    ensures w * WORD != f
  {
    hide InCache, CacheSize, Heap;
    InCachePage(i, f, marks);
    if w * WORD == f {
      assert w / PAGE_WORDS == f / PAGE_SIZE;
      WordIsLive(allocs, used, live, marks, pageOrder, o, w);
      var p := AllocationIsWithin(allocs, used, live, marks, pageOrder, o);
      if IsBlock(live, marks, o) {
        LiveApart(pages, heads, live, p, f / PAGE_SIZE);
        assert false;
      } else {
        var j :| 0 <= j < NUM_CACHES && o in used[j];
        InCachePage(j, o, marks);
        InCacheApart(i, o, f, marks);
        assert false;
      }
    }
  }

  // ---------------------------------------------------------------------------------------------
  // Moves of the ledger.

  lemma LedgerTakeSlot(allocs: map<nat, nat>, used: seq<set<nat>>, live: map<nat, nat>, marks: map<nat, int>,
                       live': map<nat, nat>, marks': map<nat, int>, i: nat, s: nat)
    requires Ledger(allocs, used, live, marks) && i < NUM_CACHES && s !in used[i]
    requires forall p :: p in marks ==> p in live
    requires InCache(i, s, marks')
    requires (live' == live && marks' == marks) ||
             (s / PAGE_SIZE !in live && live' == live[s / PAGE_SIZE := 0] &&
              marks' == marks[s / PAGE_SIZE := PAGE_ORDER_SLAB_32 + i])
    ensures s !in allocs
    ensures Ledger(allocs[s := CacheSize(i)], used[i := used[i] + {s}], live', marks')
  {
    var allocs', used' := allocs[s := CacheSize(i)], used[i := used[i] + {s}];
    assert InCache(i, s, marks');
    assert s !in allocs by {
      assert forall j :: 0 <= j < NUM_CACHES && s in used[j] ==> InCache(j, s, marks);
    }
    forall j, t | 0 <= j < NUM_CACHES && t in used'[j] ensures InCache(j, t, marks') {
      assert t in used[j] ==> InCache(j, t, marks);
    }
    forall o: nat ensures IsBlock(live', marks', o) <==> IsBlock(live, marks, o) {}
    forall o | o in allocs' && !IsBlock(live', marks', o) ensures exists j :: 0 <= j < NUM_CACHES && o in used'[j] {
      if o == s {
        assert o in used'[i];
      } else {
        var j :| 0 <= j < NUM_CACHES && o in used[j];
        assert o in used'[j];
      }
    }
  }

  lemma PlacedDrop(used: seq<set<nat>>, marks: map<nat, int>, marks': map<nat, int>, i: nat, s: nat)
    requires Placed(used, marks) && i < NUM_CACHES && s in used[i]
    requires marks' == marks ||
             ((forall t :: t in used[i] && t != s ==> t / PAGE_SIZE != s / PAGE_SIZE) && marks' == marks - {s / PAGE_SIZE})
    ensures s / PAGE_SIZE in marks
    ensures Placed(used[i := used[i] - {s}], marks')
    ensures forall j :: 0 <= j < NUM_CACHES && j != i ==> s !in used[j]
  {
    hide OnSlot, CacheSize;
    var used' := used[i := used[i] - {s}];
    assert InCache(i, s, marks);
    forall j, t | 0 <= j < NUM_CACHES && t in used'[j] ensures InCache(j, t, marks') {
      assert InCache(j, t, marks);
    }
    assert forall j :: 0 <= j < NUM_CACHES ==> forall t :: t in used[j] ==> InCache(j, t, marks);
  }

  lemma LedgerDropSlot(allocs: map<nat, nat>, used: seq<set<nat>>, live: map<nat, nat>, marks: map<nat, int>,
                       live': map<nat, nat>, marks': map<nat, int>, i: nat, s: nat)
    requires Ledger(allocs, used, live, marks) && i < NUM_CACHES && s in used[i]
    requires forall p :: p in marks ==> p in live
    requires (live' == live && marks' == marks) ||
             ((forall t :: t in used[i] && t != s ==> t / PAGE_SIZE != s / PAGE_SIZE) &&
              live' == live - {s / PAGE_SIZE} && marks' == marks - {s / PAGE_SIZE})
    ensures Ledger(allocs - {s}, used[i := used[i] - {s}], live', marks')
  {
    hide Placed, CacheSize;
    PlacedLength(used, marks);
    PlacedDrop(used, marks, marks', i, s);
    var allocs', used' := allocs - {s}, used[i := used[i] - {s}];
    forall o: nat ensures IsBlock(live', marks', o) <==> IsBlock(live, marks, o) {
      var p := o / PAGE_SIZE;
      assert p in live' && p !in marks' <==> p in live && p !in marks;
    }
    forall o | o in allocs' && !IsBlock(live', marks', o) ensures exists j :: 0 <= j < NUM_CACHES && o in used'[j] {
      var j :| 0 <= j < NUM_CACHES && o in used[j];
      assert o in used'[j];
    }
  }

  lemma PlacedLength(used: seq<set<nat>>, marks: map<nat, int>)
    requires Placed(used, marks)
    ensures |used| == NUM_CACHES
  {
  }

  lemma LedgerTakeBlock(allocs: map<nat, nat>, used: seq<set<nat>>, live: map<nat, nat>, marks: map<nat, int>,
                        p: nat, order: nat)
    requires Ledger(allocs, used, live, marks) && p !in live
    requires forall p :: p in marks ==> p in live
    ensures p * PAGE_SIZE !in allocs
    ensures Ledger(allocs[p * PAGE_SIZE := Pow2(order) * PAGE_SIZE], used, live[p := order], marks)
  {
    var o, live' := p * PAGE_SIZE, live[p := order];
    assert o !in allocs;
    forall q: nat ensures IsBlock(live', marks, q) <==> q == o || IsBlock(live, marks, q) {}
  }

  lemma LedgerDropBlock(allocs: map<nat, nat>, used: seq<set<nat>>, live: map<nat, nat>, marks: map<nat, int>, o: nat)
    requires Ledger(allocs, used, live, marks) && IsBlock(live, marks, o)
    ensures Ledger(allocs - {o}, used, live - {o / PAGE_SIZE}, marks)
  {
    forall q: nat ensures IsBlock(live - {o / PAGE_SIZE}, marks, q) <==> q != o && IsBlock(live, marks, q) {}
    forall j, t | 0 <= j < NUM_CACHES && t in used[j] ensures t != o {
      assert InCache(j, t, marks);
    }
  }

  // ---------------------------------------------------------------------------------------------
  // A cache while another cache, or a client of the buddy allocator, is at work.

  lemma SameMarker(marks: map<nat, int>, marks': map<nat, int>, marker: int, marker': int, page: nat)
    requires marker != marker'
    requires marks' == marks || (page !in marks && marks' == marks[page := marker']) ||
             (page in marks && marks[page] == marker' && marks' == marks - {page})
    ensures forall p :: p in marks && marks[p] == marker <==> p in marks' && marks'[p] == marker
  {
  }

  lemma CacheUndisturbed(size: nat, marker: int, head: int, pages: seq<PageMeta>, slots: seq<nat>, used: set<nat>,
                         mem: seq<int>, marks: map<nat, int>, mem': seq<int>, marks': map<nat, int>,
                         live: map<nat, nat>, pageOrder: seq<int>)
    requires CacheInv(size, marker, head, pages, slots, used, mem, marks)
    requires OwnersOk(pageOrder, live, marks) && Undisturbed(mem, mem', live)
    requires forall p :: p in marks && marks[p] == marker <==> p in marks' && marks'[p] == marker
    ensures CacheInv(size, marker, head, pages, slots, used, mem', marks')
  {
    hide CacheInv;
    forall s | s in slots && s / WORD < |mem| ensures mem'[s / WORD] == mem[s / WORD] {
      UsedFacts(size, marker, head, pages, slots, used, mem, marks, s);
      assert Covers(Block(live[s / PAGE_SIZE], s / PAGE_SIZE), s / WORD / PAGE_WORDS);
    }
    CacheFrame(size, marker, head, pages, slots, used, mem, marks, mem', marks');
  }

  lemma CacheBesideLinks(size: nat, marker: int, head: int, pages: seq<PageMeta>, slots: seq<nat>, used: set<nat>,
                         mem: seq<int>, marks: map<nat, int>, mem': seq<int>, marks': map<nat, int>,
                         live: map<nat, nat>, pageOrder: seq<int>, i: nat, links: seq<nat>, offset: nat)
    requires CacheInv(size, marker, head, pages, slots, used, mem, marks)
    requires OwnersOk(pageOrder, live, marks') && OnlyLinksChanged(mem, mem', live, links, offset)
    requires forall p :: p in marks && marks[p] == marker <==> p in marks' && marks'[p] == marker
    requires i < NUM_CACHES && marker != PAGE_ORDER_SLAB_32 + i
    requires forall f :: f in links || f == offset ==> InCache(i, f, marks)
    ensures CacheInv(size, marker, head, pages, slots, used, mem', marks')
  {
    hide CacheInv, OnSlot;
    forall s | s in slots && s / WORD < |mem| ensures mem'[s / WORD] == mem[s / WORD] {
      UsedFacts(size, marker, head, pages, slots, used, mem, marks, s);
      SlotOnWord(size, s);
      assert s in links || s == offset ==> InCache(i, s, marks);
      assert Covers(Block(live[s / PAGE_SIZE], s / PAGE_SIZE), s / WORD / PAGE_WORDS);
    }
    CacheFrame(size, marker, head, pages, slots, used, mem, marks, mem', marks');
  }

  lemma UsedInCache(c: SlabCache, i: nat, s: nat)
    requires c.Valid() && i < NUM_CACHES
    requires c.objectSize == CacheSize(i) && c.marker == PAGE_ORDER_SLAB_32 + i
    requires s in c.used || s in c.slots
    ensures InCache(i, s, c.buddy.marks)
  {
    UsedFacts(c.objectSize, c.marker, c.freeList, c.pages, c.slots, c.used, c.buddy.mem[..], c.buddy.marks, s);
  }

  /** The byte that gpuFree reads is the marker of the cache that handed the offset out, or an order. */
  lemma MarkerNamesOwner(allocs: map<nat, nat>, used: seq<set<nat>>, live: map<nat, nat>, marks: map<nat, int>,
                         pageOrder: seq<int>, pages: nat, heads: map<nat, nat>, o: nat)
    requires Heap(pages, heads, live)
    requires Ledger(allocs, used, live, marks) && OwnersOk(pageOrder, live, marks) && o in allocs
    ensures o / PAGE_SIZE < |pageOrder|
    ensures var i := GetSlab(pageOrder[o / PAGE_SIZE]);
            if i < NUM_CACHES
            then o in used[i] && !IsBlock(live, marks, o) && o / PAGE_SIZE in marks && GetSlab(marks[o / PAGE_SIZE]) == i
            else IsBlock(live, marks, o)
  {
    hide InCache, CacheSize, Heap;
    if IsBlock(live, marks, o) {
      LiveIsProper(pages, heads, live, o / PAGE_SIZE);
    } else {
      var i :| 0 <= i < NUM_CACHES && o in used[i];
      InCachePage(i, o, marks);
    }
  }

  lemma FreeSlotIsNotAllocated(allocs: map<nat, nat>, used: seq<set<nat>>, live: map<nat, nat>, marks: map<nat, int>,
                               i: nat, f: nat)
    requires Ledger(allocs, used, live, marks) && i < NUM_CACHES
    requires InCache(i, f, marks) && f !in used[i]
    ensures f !in allocs
  {
    hide OnSlot, CacheSize;
    assert forall j :: 0 <= j < NUM_CACHES && f in used[j] ==> InCache(j, f, marks);
  }

  lemma LinksBelongTo(c: SlabCache, i: nat, offset: nat)
    requires c.Valid() && i < NUM_CACHES && offset in c.used
    requires c.objectSize == CacheSize(i) && c.marker == PAGE_ORDER_SLAB_32 + i
    ensures forall f :: f in c.slots || f == offset ==> InCache(i, f, c.buddy.marks)
    ensures forall f :: f in c.slots ==> f !in c.used
  {
    forall f | f in c.slots || f == offset ensures InCache(i, f, c.buddy.marks) {
      UsedInCache(c, i, f);
    }
  }

  lemma SlotFreeKeeps(allocs: map<nat, nat>, allocs': map<nat, nat>, used: seq<set<nat>>, live: map<nat, nat>,
                      marks: map<nat, int>, pageOrder: seq<int>, pages: nat, heads: map<nat, nat>,
                      used': seq<set<nat>>, live': map<nat, nat>, marks': map<nat, int>, pageOrder': seq<int>,
                      i: nat, links: seq<nat>, offset: nat, was: seq<int>, mem: seq<int>)
    requires Heap(pages, heads, live)
    requires Ledger(allocs, used, live, marks) && OwnersOk(pageOrder, live, marks)
    requires Ledger(allocs', used', live', marks') && OwnersOk(pageOrder', live', marks')
    requires allocs' == allocs - {offset} && i < NUM_CACHES
    requires forall f :: f in links || f == offset ==> InCache(i, f, marks)
    requires forall f :: f in links ==> f !in used[i]
    requires OnlyLinksChanged(was, mem, live', links, offset)
    ensures Kept(was, mem, allocs')
  {
    hide InCache, CacheSize, Heap, Ledger, OwnersOk, LivePage;
    forall o, w | o in allocs' && 0 <= w < |mem| && InRange(o, allocs'[o], w) ensures mem[w] == was[w] {
      WordIsLive(allocs', used', live', marks', pageOrder', o, w);
      var f := w * WORD;
      if f in links || f == offset {
        if f in links {
          FreeSlotIsNotAllocated(allocs, used, live, marks, i, f);
        }
        LinkIsForeign(allocs, used, live, marks, pageOrder, pages, heads, i, f, o, w);
      }
    }
  }

  lemma CacheBesideStore(size: nat, marker: int, head: int, pages: seq<PageMeta>, slots: seq<nat>, used: set<nat>,
                         mem: seq<int>, marks: map<nat, int>, allocs: map<nat, nat>, allUsed: seq<set<nat>>,
                         live: map<nat, nat>, pageOrder: seq<int>, npages: nat, heads: map<nat, nat>,
                         i: nat, o: nat, w: nat, value: int)
    requires CacheInv(size, marker, head, pages, slots, used, mem, marks)
    requires Heap(npages, heads, live) && Ledger(allocs, allUsed, live, marks) && OwnersOk(pageOrder, live, marks)
    requires i < NUM_CACHES && size == CacheSize(i) && marker == PAGE_ORDER_SLAB_32 + i && allUsed[i] == used
    requires o in allocs && InRange(o, allocs[o], w) && w < |mem|
    ensures CacheInv(size, marker, head, pages, slots, used, mem[w := value], marks)
  {
    hide CacheInv, Heap, Ledger, OnSlot, CacheSize;
    forall f | f in slots ensures f / WORD != w {
      UsedFacts(size, marker, head, pages, slots, used, mem, marks, f);
      SlotsNotUsed(size, marker, head, pages, slots, used, mem, marks);
      SlotOnWord(size, f);
      FreeSlotIsNotAllocated(allocs, allUsed, live, marks, i, f);
      LinkIsForeign(allocs, allUsed, live, marks, pageOrder, npages, heads, i, f, o, w);
    }
    CacheFrame(size, marker, head, pages, slots, used, mem, marks, mem[w := value], marks);
  }

  lemma SlotsNotUsed(size: nat, marker: int, head: int, pages: seq<PageMeta>, slots: seq<nat>, used: set<nat>,
                     mem: seq<int>, marks: map<nat, int>)
    requires CacheInv(size, marker, head, pages, slots, used, mem, marks)
    ensures forall s :: s in slots ==> s !in used
  {
  }

  lemma EmptyLedger(used: seq<set<nat>>, live: map<nat, nat>, marks: map<nat, int>)
    requires |used| == NUM_CACHES && forall i :: 0 <= i < NUM_CACHES ==> used[i] == {}
    requires live.Keys == marks.Keys
    ensures Ledger(map[], used, live, marks)
  {
  }

  /** When only single pages are live, another page can be had exactly when some page is left. */
  lemma PageLeft(pages: nat, heads: map<nat, nat>, live: map<nat, nat>, marks: map<nat, int>, pageOrder: seq<int>)
    requires Heap(pages, heads, live) && OwnersOk(pageOrder, live, marks) && live.Keys == marks.Keys
    ensures |live| <= pages
    ensures CanHold(pages, live, PAGE_SIZE) <==> |live| < pages
  {
    hide Heap, Below, WhollyFree;
    var all := Below(pages);
    forall p | p in live ensures p in all {
      LiveIsProper(pages, heads, live, p);
    }
    SubsetCard(live.Keys, all);
    if CanHold(pages, live, PAGE_SIZE) {
      var b :| WhollyFree(pages, live, b) && Pow2(b.order) * PAGE_SIZE >= PAGE_SIZE;
      FreeBlockHead(pages, live, b);
      SubsetCard(live.Keys + {b.page}, all);
    }
    if |live| < pages {
      var q :| q in all - live.Keys;
      SinglePageIsFree(pages, live, q);
    }
  }

  lemma SinglePageIsFree(pages: nat, live: map<nat, nat>, q: nat)
    requires q < pages && q !in live && forall p :: p in live ==> live[p] == 0
    ensures WhollyFree(pages, live, Block(0, q))
  {
  }

  lemma FreeBlockHead(pages: nat, live: map<nat, nat>, b: Block)
    requires WhollyFree(pages, live, b)
    ensures b.page < pages && b.page !in live
  {
  }

  ghost function Below(n: nat): (r: set<nat>)
    ensures |r| == n && forall q: nat :: q in r <==> q < n
  {
    if n == 0 then {} else Below(n - 1) + {n - 1}
  }

  // ---------------------------------------------------------------------------------------------
  // What gpuMalloc and gpuFree do, said without free lists, page descriptors or slot lists.

  /** Who owns what: the live blocks, the pages that belong to caches, and the slots in use in each cache. */
  datatype Ownership = Ownership(live: map<nat, nat>, marks: map<nat, int>, used: seq<set<nat>>)

  /** Some page of the cache has a slot that is not in use. */
  ghost predicate Vacant(s: Ownership, i: nat)
    requires |s.used| == NUM_CACHES && i < NUM_CACHES
  {
    exists o: nat :: InCache(i, o, s.marks) && o !in s.used[i]
  }

  /** A slot of a page that the cache has, or the first page it can get, or failure. */
  ghost predicate SlotTaken(pages: nat, s: Ownership, s': Ownership, i: nat, hostOk: bool, r: int)
    requires |s.used| == NUM_CACHES && i < NUM_CACHES
  {
    if Vacant(s, i) then
      r >= 0 && InCache(i, r, s.marks) && r !in s.used[i] && s' == s.(used := s.used[i := s.used[i] + {r}])
    else if hostOk && CanHold(pages, s.live, PAGE_SIZE) then
      && r >= 0 && OnSlot(CacheSize(i), r) && WhollyFree(pages, s.live, Block(0, r / PAGE_SIZE)) && r / PAGE_SIZE !in s.live
      && s' == Ownership(s.live[r / PAGE_SIZE := 0], s.marks[r / PAGE_SIZE := PAGE_ORDER_SLAB_32 + i],
                         s.used[i := s.used[i] + {r}])
    else
      r == FAILED && s' == s
  }

  /** A block of the least sufficient order when a wholly free one exists, and failure otherwise. */
  ghost predicate BlockTaken(pages: nat, s: Ownership, s': Ownership, size: nat, r: int) {
    if CanHold(pages, s.live, size) then
      && r >= 0 && r % PAGE_SIZE == 0 && r / PAGE_SIZE !in s.live
      && WhollyFree(pages, s.live, Block(OrderFrom(size, 0), r / PAGE_SIZE))
      && s' == s.(live := s.live[r / PAGE_SIZE := OrderFrom(size, 0)])
    else
      r == FAILED && s' == s
  }

  ghost predicate Taken(pages: nat, s: Ownership, s': Ownership, size: nat, hostOk: bool, r: int) {
    && |s.used| == NUM_CACHES
    && if RouteSlab(size) < NUM_CACHES then SlotTaken(pages, s, s', RouteSlab(size), hostOk, r)
       else BlockTaken(pages, s, s', size, r)
  }

  /** A block leaves; a slot leaves, and with it its page when no slot there is in use and the cache has another page. */
  ghost predicate Released(s: Ownership, s': Ownership, o: nat) {
    var page := o / PAGE_SIZE;
    if IsBlock(s.live, s.marks, o) then s' == s.(live := s.live - {page})
    else
      && |s.used| == NUM_CACHES && page in s.marks && GetSlab(s.marks[page]) < NUM_CACHES
      && SlotReleased(s, s', GetSlab(s.marks[page]), o)
  }

  ghost predicate SlotReleased(s: Ownership, s': Ownership, i: nat, o: nat)
    requires |s.used| == NUM_CACHES && i < NUM_CACHES
  {
    var page, used := o / PAGE_SIZE, s.used[i := s.used[i] - {o}];
    s' == if HasAnother(s.marks, i, page) && forall t :: t in used[i] ==> t / PAGE_SIZE != page
          then Ownership(s.live - {page}, s.marks - {page}, used)
          else s.(used := used)
  }

  ghost predicate HasAnother(marks: map<nat, int>, i: nat, page: nat) {
    exists p :: p in marks && p != page && marks[p] == PAGE_ORDER_SLAB_32 + i
  }

  /** The free list of a cache is empty exactly when no slot of its pages is vacant. */
  lemma ListIffVacant(i: nat, head: int, pages: seq<PageMeta>, slots: seq<nat>, used: set<nat>, mem: seq<int>,
                      s: Ownership)
    requires i < NUM_CACHES && |s.used| == NUM_CACHES && s.used[i] == used
    requires CacheInv(CacheSize(i), PAGE_ORDER_SLAB_32 + i, head, pages, slots, used, mem, s.marks)
    ensures slots != [] <==> Vacant(s, i)
  {
    hide CacheSize, OnSlot;
    if slots != [] {
      assert slots[0] in slots;
      assert InCache(i, slots[0], s.marks);
    }
  }

  /** A cache has a second page exactly when a second page carries its marker. */
  lemma AnotherPage(i: nat, head: int, pages: seq<PageMeta>, slots: seq<nat>, used: set<nat>, mem: seq<int>,
                    marks: map<nat, int>, page: nat)
    requires i < NUM_CACHES
    requires CacheInv(CacheSize(i), PAGE_ORDER_SLAB_32 + i, head, pages, slots, used, mem, marks)
    requires page in PageSet(pages)
    ensures |pages| > 1 <==> HasAnother(marks, i, page)
  {
    hide CacheSize, OnSlot;
    if |pages| > 1 {
      var p := if pages[0].page == page then pages[1].page else pages[0].page;
      assert p in PageSet(pages) && p != page;
    }
  }

  /** The caches set up so far, and nothing else, own the live pages. */
  ghost predicate Setup(b: BuddyAllocator, caches: seq<SlabCache>)
    reads b, b.mem, b.freeList, b.pageOrder, caches
  {
    && |caches| <= NUM_CACHES
    && b.Valid() && b.live.Keys == b.marks.Keys && |b.live| == |caches|
    && (forall p :: p in b.marks ==> PAGE_ORDER_SLAB_32 <= b.marks[p] < PAGE_ORDER_SLAB_32 + |caches|)
    && (forall j, k :: 0 <= j < k < |caches| ==> caches[j] != caches[k])
    && (b.pages == BUDDY_TOTAL_PAGES ==> Clustered(b.live))
    && forall j :: 0 <= j < |caches| ==> caches[j].buddy == b && Ready(b, caches[j], j)
  }

  ghost predicate Ready(b: BuddyAllocator, c: SlabCache, j: nat)
    requires j < NUM_CACHES && c.buddy == b
    reads c, b, b.mem, b.freeList, b.pageOrder
  {
    && c.objectSize == CacheSize(j) && c.marker == PAGE_ORDER_SLAB_32 + j
    && c.used == {} && c.Valid()
  }

  lemma SetupNext(b: BuddyAllocator, caches: seq<SlabCache>, c: SlabCache)
    requires |caches| < NUM_CACHES && c !in caches
    requires b.Valid() && b.live.Keys == b.marks.Keys && |b.live| == |caches| + 1
    requires forall p :: p in b.marks ==> PAGE_ORDER_SLAB_32 <= b.marks[p] < PAGE_ORDER_SLAB_32 + |caches| + 1
    requires forall j, k :: 0 <= j < k < |caches| ==> caches[j] != caches[k]
    requires forall j :: 0 <= j < |caches| ==> caches[j].buddy == b && Ready(b, caches[j], j)
    requires c.buddy == b && Ready(b, c, |caches|)
    requires b.pages == BUDDY_TOTAL_PAGES ==> Clustered(b.live)
    ensures Setup(b, caches + [c])
  {
    hide Ready, BuddyAllocator.Valid, Clustered;
  }

  lemma SlotFreed(s: Ownership, s': Ownership, i: nat, o: nat, several: bool, used: set<nat>)
    requires |s.used| == NUM_CACHES && i < NUM_CACHES && used == s.used[i] - {o}
    requires several <==> HasAnother(s.marks, i, o / PAGE_SIZE)
    requires s'.used == s.used[i := used]
    requires if several && forall t :: t in used ==> t / PAGE_SIZE != o / PAGE_SIZE
             then s'.live == s.live - {o / PAGE_SIZE} && s'.marks == s.marks - {o / PAGE_SIZE}
             else s'.live == s.live && s'.marks == s.marks
    ensures SlotReleased(s, s', i, o)
  {
    hide HasAnother;
    assert s.used[i := used][i] == used;
  }

  lemma PageOfUsed(c: SlabCache, i: nat, o: nat)
    requires c.Valid() && i < NUM_CACHES && o in c.used
    requires c.objectSize == CacheSize(i) && c.marker == PAGE_ORDER_SLAB_32 + i
    ensures |c.pages| > 1 <==> HasAnother(c.buddy.marks, i, o / PAGE_SIZE)
  {
    hide HasAnother, CacheSize, OnSlot;
    AnotherPage(i, c.freeList, c.pages, c.slots, c.used, c.buddy.mem[..], c.buddy.marks, o / PAGE_SIZE);
  }

  class GpuContext {
    const buddy: BuddyAllocator
    const slabs: seq<SlabCache>
    ghost var allocs: map<nat, nat>

    constructor (buddy: BuddyAllocator, slabs: seq<SlabCache>)
      ensures this.buddy == buddy && this.slabs == slabs && allocs == map[]
    {
      this.buddy, this.slabs, allocs := buddy, slabs, map[];
    }

    ghost predicate Wired() {
      && |slabs| == NUM_CACHES
      && (forall i, j :: 0 <= i < j < NUM_CACHES ==> slabs[i] != slabs[j])
      && forall i :: 0 <= i < NUM_CACHES ==>
           slabs[i].buddy == buddy && slabs[i].objectSize == CacheSize(i) && slabs[i].marker == PAGE_ORDER_SLAB_32 + i
    }

    ghost predicate CachesValid()
      reads buddy, buddy.mem, buddy.freeList, buddy.pageOrder, slabs
    {
      && Wired()
      && buddy.Valid()
      && (forall i :: 0 <= i < NUM_CACHES ==> slabs[i].Valid())
      && forall p :: p in buddy.marks ==> GetSlab(buddy.marks[p]) < NUM_CACHES
    }

    ghost function Used(): seq<set<nat>>
      requires Wired()
      reads slabs
    {
      seq(NUM_CACHES, i requires 0 <= i < |slabs| reads slabs => slabs[i].used)
    }

    ghost function Owned(): Ownership
      requires Wired()
      reads buddy, slabs
    {
      Ownership(buddy.live, buddy.marks, Used())
    }

    ghost predicate Valid()
      reads this, buddy, buddy.mem, buddy.freeList, buddy.pageOrder, slabs
    {
      && CachesValid()
      && Ledger(allocs, Used(), buddy.live, buddy.marks)
    }

    /** gpuMalloc for a request that a cache can serve. */
    method MallocSlot(i: nat, mallocOk: bool) returns (r: int)
      requires Valid() && i < NUM_CACHES
      modifies `allocs, slabs, buddy, buddy.mem, buddy.freeList, buddy.pageOrder
      ensures Valid()
      ensures SlotTaken(buddy.pages, old(Owned()), Owned(), i, mallocOk, r)
      ensures r == FAILED ==> allocs == old(allocs)
      ensures r != FAILED ==> r >= 0 && r !in old(allocs) && allocs == old(allocs)[r := CacheSize(i)]
      ensures Kept(old(buddy.mem[..]), buddy.mem[..], old(allocs))
    {
      hide CacheInv, BuddyAllocator.ListsOk, Heap, WhollyFree, LivePage, Ledger, CacheSize, OnSlot, Vacant;
      ListIffVacant(i, slabs[i].freeList, slabs[i].pages, slabs[i].slots, slabs[i].used, buddy.mem[..], Owned());
      r := slabs[i].Alloc(mallocOk);
      UndisturbedKeeps(allocs, old(Used()), old(buddy.live), old(buddy.marks), old(buddy.pageOrder[..]),
                       old(buddy.mem[..]), buddy.mem[..]);
      forall j | 0 <= j < NUM_CACHES && j != i ensures slabs[j].Valid() {
        var c := slabs[j];
        SameMarker(old(buddy.marks), buddy.marks, c.marker, slabs[i].marker, if r == FAILED then 0 else r / PAGE_SIZE);
        CacheUndisturbed(c.objectSize, c.marker, c.freeList, c.pages, c.slots, c.used, old(buddy.mem[..]), old(buddy.marks),
                         buddy.mem[..], buddy.marks, old(buddy.live), old(buddy.pageOrder[..]));
      }
      if r != FAILED {
        UsedInCache(slabs[i], i, r);
        if old(slabs[i].slots) == [] {
          NewWasFree(buddy.pages, buddy.heads, old(buddy.live), r / PAGE_SIZE, 0);
        }
        assert Used() == old(Used())[i := old(Used())[i] + {r}];
        LedgerTakeSlot(allocs, old(Used()), old(buddy.live), old(buddy.marks), buddy.live, buddy.marks, i, r);
        allocs := allocs[r := CacheSize(i)];
      } else {
        assert Used() == old(Used());
      }
    }

    /** gpuMalloc for a request that goes to the buddy allocator. */
    method MallocBlock(size: nat) returns (r: int)
      requires Valid()
      modifies `allocs, slabs, buddy, buddy.mem, buddy.freeList, buddy.pageOrder
      ensures Valid()
      ensures BlockTaken(buddy.pages, old(Owned()), Owned(), size, r)
      ensures r == FAILED ==> allocs == old(allocs)
      ensures r != FAILED ==>
                && r >= 0 && r !in old(allocs) && OrderFrom(size, 0) < BUDDY_MAX_ORDER
                && allocs == old(allocs)[r := Pow2(OrderFrom(size, 0)) * PAGE_SIZE]
      ensures Kept(old(buddy.mem[..]), buddy.mem[..], old(allocs))
    {
      hide CacheInv, BuddyAllocator.ListsOk, Heap, WhollyFree, LivePage, Ledger, CacheSize, OrderFrom;
      r := buddy.Alloc(size);
      UndisturbedKeeps(allocs, old(Used()), old(buddy.live), old(buddy.marks), old(buddy.pageOrder[..]),
                       old(buddy.mem[..]), buddy.mem[..]);
      forall j | 0 <= j < NUM_CACHES ensures slabs[j].Valid() {
        var c := slabs[j];
        CacheUndisturbed(c.objectSize, c.marker, c.freeList, c.pages, c.slots, c.used, old(buddy.mem[..]), old(buddy.marks),
                         buddy.mem[..], buddy.marks, old(buddy.live), old(buddy.pageOrder[..]));
      }
      assert Used() == old(Used());
      if r != FAILED {
        NewWasFree(buddy.pages, buddy.heads, old(buddy.live), r / PAGE_SIZE, OrderFrom(size, 0));
        LedgerTakeBlock(allocs, Used(), old(buddy.live), buddy.marks, r / PAGE_SIZE, OrderFrom(size, 0));
        allocs := allocs[r := Pow2(OrderFrom(size, 0)) * PAGE_SIZE];
      }
    }

    /** gpuMalloc. */
    method Malloc(size: nat, mallocOk: bool) returns (r: int)
      requires Valid()
      modifies `allocs, slabs, buddy, buddy.mem, buddy.freeList, buddy.pageOrder
      ensures Valid()
      ensures r == FAILED ==> allocs == old(allocs)
      ensures r != FAILED ==>
                && r >= 0 && r !in old(allocs) && r in allocs && allocs == old(allocs)[r := allocs[r]]
                && size <= allocs[r]
      ensures Taken(buddy.pages, old(Owned()), Owned(), size, mallocOk, r)
      ensures Kept(old(buddy.mem[..]), buddy.mem[..], old(allocs))
    {
      var i := RouteSlab(size);
      if i < NUM_CACHES {
        r := MallocSlot(i, mallocOk);
      } else {
        r := MallocBlock(size);
      }
    }

    /** slab_free reached through gpuFree. */
    method FreeSlot(i: nat, offset: nat)
      requires Valid() && i < NUM_CACHES && offset in slabs[i].used
      modifies `allocs, slabs, buddy, buddy.mem, buddy.freeList, buddy.pageOrder
      ensures Valid()
      ensures allocs == old(allocs) - {offset}
      ensures SlotReleased(old(Owned()), Owned(), i, offset)
      ensures Kept(old(buddy.mem[..]), buddy.mem[..], allocs)
    {
      hide CacheInv, BuddyAllocator.ListsOk, Heap, LivePage, Ledger, CacheSize, OnSlot, OnlyLinksChanged, HasAnother, SlotReleased;
      ghost var links := slabs[i].slots;
      LinksBelongTo(slabs[i], i, offset);
      PageOfUsed(slabs[i], i, offset);
      slabs[i].Free(offset);
      forall j | 0 <= j < NUM_CACHES && j != i ensures slabs[j].Valid() {
        var c := slabs[j];
        SameMarker(old(buddy.marks), buddy.marks, c.marker, slabs[i].marker, offset / PAGE_SIZE);
        CacheBesideLinks(c.objectSize, c.marker, c.freeList, c.pages, c.slots, c.used, old(buddy.mem[..]), old(buddy.marks),
                         buddy.mem[..], buddy.marks, buddy.live, buddy.pageOrder[..], i, links, offset);
      }
      assert old(Used())[i] == old(slabs[i].used);
      assert Used() == old(Used())[i := old(Used())[i] - {offset}];
      assert forall t :: t in old(Used())[i] && t != offset ==> t in slabs[i].used;
      SlotFreed(old(Owned()), Owned(), i, offset, |old(slabs[i].pages)| > 1, slabs[i].used);
      LedgerDropSlot(allocs, old(Used()), old(buddy.live), old(buddy.marks), buddy.live, buddy.marks, i, offset);
      allocs := allocs - {offset};
      SlotFreeKeeps(old(allocs), allocs, old(Used()), old(buddy.live), old(buddy.marks), old(buddy.pageOrder[..]),
                    buddy.pages, old(buddy.heads), Used(), buddy.live, buddy.marks, buddy.pageOrder[..],
                    i, links, offset, old(buddy.mem[..]), buddy.mem[..]);
    }

    /** gpuFree: the page_order byte of the page names the allocator. */
    method Free(offset: nat)
      requires Valid() && offset in allocs
      modifies `allocs, slabs, buddy, buddy.mem, buddy.freeList, buddy.pageOrder
      ensures Valid()
      ensures allocs == old(allocs) - {offset}
      ensures Released(old(Owned()), Owned(), offset)
      ensures Kept(old(buddy.mem[..]), buddy.mem[..], allocs)
    {
      MarkerNamesOwner(allocs, Used(), buddy.live, buddy.marks, buddy.pageOrder[..], buddy.pages, buddy.heads, offset);
      var pageIdx := offset / PAGE_SIZE;
      var marker := buddy.pageOrder[pageIdx];
      var i := GetSlab(marker);
      if i < NUM_CACHES {
        FreeSlot(i, offset);
      } else {
        FreeBlock(offset);
      }
    }

    /** buddy_free reached through gpuFree. */
    method FreeBlock(offset: nat)
      requires Valid() && IsBlock(buddy.live, buddy.marks, offset)
      modifies `allocs, slabs, buddy, buddy.mem, buddy.freeList, buddy.pageOrder
      ensures Valid()
      ensures allocs == old(allocs) - {offset}
      ensures buddy.live == old(buddy.live) - {offset / PAGE_SIZE}
      ensures buddy.marks == old(buddy.marks) && Used() == old(Used())
      ensures Kept(old(buddy.mem[..]), buddy.mem[..], allocs)
    {
      hide CacheInv, BuddyAllocator.ListsOk, Heap, LivePage, Ledger, CacheSize;
      buddy.Free(offset);
      forall j | 0 <= j < NUM_CACHES ensures slabs[j].Valid() {
        var c := slabs[j];
        CacheUndisturbed(c.objectSize, c.marker, c.freeList, c.pages, c.slots, c.used, old(buddy.mem[..]), buddy.marks,
                         buddy.mem[..], buddy.marks, buddy.live, buddy.pageOrder[..]);
      }
      assert Used() == old(Used());
      LedgerDropBlock(allocs, Used(), old(buddy.live), buddy.marks, offset);
      allocs := allocs - {offset};
      UndisturbedKeeps(allocs, Used(), buddy.live, buddy.marks, buddy.pageOrder[..], old(buddy.mem[..]), buddy.mem[..]);
    }

    /** A store by the owner of an allocation leaves every structure of the allocators intact. */
    method Store(ghost o: nat, w: nat, value: int)
      requires Valid() && o in allocs && InRange(o, allocs[o], w) && w < buddy.mem.Length
      modifies buddy.mem
      ensures Valid()
      ensures buddy.mem[..] == old(buddy.mem[..])[w := value]
    {
      hide CacheInv, BuddyAllocator.ListsOk, Heap, LivePage, Ledger, CacheSize, InCache;
      WordIsLive(allocs, Used(), buddy.live, buddy.marks, buddy.pageOrder[..], o, w);
      buddy.Store(w, value);
      forall j | 0 <= j < NUM_CACHES ensures slabs[j].Valid() {
        var c := slabs[j];
        CacheBesideStore(c.objectSize, c.marker, c.freeList, c.pages, c.slots, c.used, old(buddy.mem[..]), buddy.marks,
                         allocs, Used(), buddy.live, buddy.pageOrder[..], buddy.pages, buddy.heads, j, o, w, value);
      }
    }

    /** gpuMemcpy from the host into an allocation. */
    method CopyIn(ghost o: nat, dst: nat, src: seq<byte>)
      requires Valid() && o in allocs && o <= dst && dst + |src| <= o + allocs[o]
      modifies buddy.mem
      ensures Valid()
      ensures StoredAt(buddy.mem[..], dst, src)
      ensures OnlyBytesChanged(old(buddy.mem[..]), buddy.mem[..], dst, |src|)
    {
      hide Valid, SetByte, StoredAt, OnlyBytesChanged;
      AllocationInMemory(this, o);
      AllocationAligned(this, o);
      NothingCopied(buddy.mem[..], dst);
      var i := 0;
      while i < |src|
        invariant 0 <= i <= |src|
        invariant Valid()
        invariant StoredAt(buddy.mem[..], dst, src[..i])
        invariant OnlyBytesChanged(old(buddy.mem[..]), buddy.mem[..], dst, i)
      {
        var w := (dst + i) / WORD;
        CopiedOne(old(buddy.mem[..]), buddy.mem[..], dst, src[..i], src[i]);
        assert src[..i + 1] == src[..i] + [src[i]];
        Store(o, w, SetByte(buddy.mem[w], (dst + i) % WORD, src[i]));
        i := i + 1;
      }
      assert src[..i] == src;
    }

    /** gpuMemcpy to the host. */
    method CopyOut(src: nat, size: nat) returns (bytes: seq<byte>)
      requires src + size <= buddy.mem.Length * WORD
      ensures |bytes| == size && StoredAt(buddy.mem[..], src, bytes)
    {
      bytes := [];
      while |bytes| < size
        invariant |bytes| <= size && StoredAt(buddy.mem[..], src, bytes)
      {
        bytes := bytes + [ByteAt(buddy.mem[..], src + |bytes|)];
      }
    }

    /** gpuInit: the buddy allocator, then one page for each cache; any failure gives up the context. */
    static method Init(vram: array<int>, size: nat, mallocOk: seq<bool>) returns (ctx: GpuContext?)
      requires |mallocOk| == NUM_CACHES
      requires size <= BUDDY_TOTAL_PAGES * PAGE_SIZE && size / PAGE_SIZE * PAGE_WORDS <= vram.Length
      modifies vram
      ensures ctx != null <==> (forall i :: 0 <= i < NUM_CACHES ==> mallocOk[i]) && size / PAGE_SIZE >= NUM_CACHES
      ensures ctx != null ==> ctx.Valid() && ctx.allocs == map[] && ctx.buddy.pages == size / PAGE_SIZE
      ensures ctx != null && ctx.buddy.pages == BUDDY_TOTAL_PAGES ==> Clustered(ctx.buddy.live)
      ensures ctx != null ==>
                && fresh(ctx) && fresh(ctx.buddy) && fresh(set c | c in ctx.slabs)
                && ctx.buddy.mem == vram && fresh(ctx.buddy.freeList) && fresh(ctx.buddy.pageOrder)
    {
      hide Setup;
      var b := new BuddyAllocator.Init(vram, size);
      var caches: seq<SlabCache> := [];
      SetupStart(b);
      for i := 0 to NUM_CACHES
        invariant |caches| == i && fresh(b) && fresh(b.freeList) && fresh(b.pageOrder) && fresh(set c | c in caches)
        invariant b.mem == vram && b.pages == size / PAGE_SIZE
        invariant Setup(b, caches)
        invariant forall j :: 0 <= j < i ==> mallocOk[j]
        invariant i <= b.pages
      {
        var c := AddCache(b, caches, mallocOk[i]);
        if c == null {
          return null;
        }
        caches := caches + [c];
      }
      ctx := new GpuContext(b, caches);
      SetupDone(ctx);
    }

    /** slab_cache_init for the next cache. */
    static method AddCache(b: BuddyAllocator, caches: seq<SlabCache>, mallocOk: bool) returns (c: SlabCache?)
      requires Setup(b, caches) && |caches| < NUM_CACHES
      modifies b, b.mem, b.freeList, b.pageOrder
      ensures c != null <==> mallocOk && |caches| < b.pages
      ensures c != null ==> fresh(c) && Setup(b, caches + [c])
    {
      hide CacheInv, BuddyAllocator.ListsOk, Heap, WhollyFree, LivePage, CacheSize, SlotSize, OwnersOk, BestFit;
      PageLeft(b.pages, b.heads, b.live, b.marks, b.pageOrder[..]);
      var e := new SlabCache(CacheSize(|caches|), b, PAGE_ORDER_SLAB_32 + |caches|);
      var ok := e.Grow(mallocOk);
      if !ok {
        return null;
      }
      forall j | 0 <= j < |caches| ensures Ready(b, caches[j], j) {
        var d := caches[j];
        SameMarker(old(b.marks), b.marks, d.marker, e.marker, e.pages[0].page);
        CacheUndisturbed(d.objectSize, d.marker, d.freeList, d.pages, d.slots, d.used, old(b.mem[..]), old(b.marks),
                         b.mem[..], b.marks, old(b.live), old(b.pageOrder[..]));
      }
      assert b.live.Keys == old(b.live.Keys) + {e.pages[0].page};
      if b.pages == BUDDY_TOTAL_PAGES {
        FitIsClose(old(b.heads), old(b.live), e.pages[0].page);
      }
      SetupNext(b, caches, e);
      c := e;
    }
  }

  lemma SetupStart(b: BuddyAllocator)
    requires b.Valid() && b.live == map[] && b.marks == map[]
    ensures Setup(b, [])
  {
  }

  lemma SetupDone(ctx: GpuContext)
    requires Setup(ctx.buddy, ctx.slabs) && |ctx.slabs| == NUM_CACHES && ctx.allocs == map[]
    ensures ctx.Valid() && (ctx.buddy.pages == BUDDY_TOTAL_PAGES ==> Clustered(ctx.buddy.live))
  {
    EmptyLedger(ctx.Used(), ctx.buddy.live, ctx.buddy.marks);
  }

  /** The caches and the live blocks determine the allocations. */
  lemma LedgerIsDetermined(allocs: map<nat, nat>, allocs': map<nat, nat>, used: seq<set<nat>>, live: map<nat, nat>,
                           marks: map<nat, int>)
    requires Ledger(allocs, used, live, marks) && Ledger(allocs', used, live, marks)
    ensures allocs == allocs'
  {
    hide Ledger;
    forall o ensures o in allocs ==> o in allocs' && allocs[o] == allocs'[o] {
      if o in allocs {
        LedgerHas(allocs, allocs', used, live, marks, o);
      }
    }
    forall o ensures o in allocs' ==> o in allocs {
      if o in allocs' {
        LedgerHas(allocs', allocs, used, live, marks, o);
      }
    }
  }

  lemma LedgerHas(allocs: map<nat, nat>, allocs': map<nat, nat>, used: seq<set<nat>>, live: map<nat, nat>,
                  marks: map<nat, int>, o: nat)
    requires Ledger(allocs, used, live, marks) && Ledger(allocs', used, live, marks) && o in allocs
    ensures o in allocs' && allocs'[o] == allocs[o]
  {
    hide Placed, CacheSize;
    if !IsBlock(live, marks, o) {
      PlacedLength(used, marks);
      var i :| 0 <= i < NUM_CACHES && o in used[i];
    }
  }

  // ---------------------------------------------------------------------------------------------
  // The allocations determine everything but where an idle cache keeps its one page.

  ghost predicate Marked(s: Ownership, i: nat, p: nat) {
    p in s.marks && s.marks[p] == PAGE_ORDER_SLAB_32 + i
  }

  ghost predicate InUseOn(s: Ownership, i: nat, p: nat)
    requires |s.used| == NUM_CACHES && i < NUM_CACHES
  {
    exists o :: o in s.used[i] && o / PAGE_SIZE == p
  }

  /** A cache has a page, and of several pages each has a slot in use. */
  ghost predicate CacheSettled(s: Ownership, i: nat)
    requires |s.used| == NUM_CACHES && i < NUM_CACHES
  {
    && (exists p: nat :: Marked(s, i, p))
    && (forall p: nat, q: nat :: Marked(s, i, p) && Marked(s, i, q) && p != q ==> InUseOn(s, i, p))
    && forall o :: o in s.used[i] ==> Marked(s, i, o / PAGE_SIZE)
  }

  ghost predicate Settled(s: Ownership) {
    && |s.used| == NUM_CACHES
    && (forall i :: 0 <= i < NUM_CACHES ==> CacheSettled(s, i))
    && forall p :: p in s.marks ==> GetSlab(s.marks[p]) < NUM_CACHES && p in s.live && s.live[p] == 0
  }

  /** The same slots are in use and the same blocks are live outside the caches; a cache in use has the same pages, and one
      that is not has one page here and one there. */
  ghost predicate SameHoldings(s: Ownership, s': Ownership) {
    && |s.used| == NUM_CACHES && s'.used == s.used
    && (forall p :: p in s.live && p !in s.marks <==> p in s'.live && p !in s'.marks)
    && (forall p :: p in s.live && p !in s.marks ==> s'.live[p] == s.live[p])
    && forall i :: 0 <= i < NUM_CACHES ==> SamePages(s, s', i)
  }

  ghost predicate SamePages(s: Ownership, s': Ownership, i: nat)
    requires |s.used| == NUM_CACHES && i < NUM_CACHES
  {
    if s.used[i] != {} then forall p: nat :: Marked(s, i, p) <==> Marked(s', i, p) else OnePage(s, i) && OnePage(s', i)
  }

  ghost predicate OnePage(s: Ownership, i: nat) {
    (exists p: nat :: Marked(s, i, p)) && forall p: nat, q: nat :: Marked(s, i, p) && Marked(s, i, q) ==> p == q
  }

  lemma ContextIsSettled(ctx: GpuContext)
    requires ctx.Valid()
    ensures Settled(ctx.Owned())
  {
    hide CacheInv, Ledger, Heap, BuddyAllocator.ListsOk, CacheSize, PageSet;
    var s := ctx.Owned();
    forall i | 0 <= i < NUM_CACHES ensures CacheSettled(s, i) {
      CacheIsSettled(ctx.slabs[i], s, i);
    }
  }

  lemma CacheIsSettled(c: SlabCache, s: Ownership, i: nat)
    requires c.Valid() && i < NUM_CACHES && c.objectSize == CacheSize(i) && c.marker == PAGE_ORDER_SLAB_32 + i
    requires |s.used| == NUM_CACHES && s.used[i] == c.used && s.marks == c.buddy.marks
    ensures CacheSettled(s, i)
  {
    hide CacheInv, Heap, BuddyAllocator.Valid, CacheSize;
    CacheOwnsPages(c.objectSize, c.marker, c.freeList, c.pages, c.slots, c.used, c.buddy.mem[..], c.buddy.marks);
    assert c.pages[0].page in PageSet(c.pages);
    assert Marked(s, i, c.pages[0].page);
    forall p: nat, q: nat | Marked(s, i, p) && Marked(s, i, q) && p != q ensures InUseOn(s, i, p) {
      var k :| 0 <= k < |c.pages| && c.pages[k].page == p;
      var j :| 0 <= j < |c.pages| && c.pages[j].page == q;
      FullIff(c.objectSize, c.marker, c.freeList, c.pages, c.slots, c.used, c.buddy.mem[..], c.buddy.marks, k);
    }
    forall o | o in s.used[i] ensures Marked(s, i, o / PAGE_SIZE) {
      UsedInCache(c, i, o);
    }
  }

  lemma CacheOwnsPages(size: nat, marker: int, head: int, pages: seq<PageMeta>, slots: seq<nat>, used: set<nat>,
                       mem: seq<int>, marks: map<nat, int>)
    requires CacheInv(size, marker, head, pages, slots, used, mem, marks)
    ensures forall p :: p in PageSet(pages) <==> p in marks && marks[p] == marker
  {
  }

  lemma {:induction false} Pow2Injective(a: nat, b: nat)
    requires Pow2(a) == Pow2(b)
    ensures a == b
  {
    if a > 0 && b > 0 {
      Pow2Injective(a - 1, b - 1);
    }
  }

  /** The cache, if any, in which an allocation of this size is a slot. */
  lemma SizeNamesCache(i: nat, j: nat, order: nat)
    requires i < NUM_CACHES && j < NUM_CACHES
    ensures CacheSize(i) == CacheSize(j) ==> i == j
    ensures CacheSize(i) < Pow2(order) * PAGE_SIZE
  {
  }

  lemma SlotsAgree(allocs: map<nat, nat>, s: Ownership, s': Ownership, i: nat, o: nat)
    requires Ledger(allocs, s.used, s.live, s.marks) && Ledger(allocs, s'.used, s'.live, s'.marks)
    requires |s.used| == |s'.used| == NUM_CACHES && i < NUM_CACHES && o in s.used[i]
    ensures o in s'.used[i]
  {
    hide CacheSize, Placed, Pow2;
    assert o in allocs && allocs[o] == CacheSize(i);
    if IsBlock(s'.live, s'.marks, o) {
      SizeNamesCache(i, i, s'.live[o / PAGE_SIZE]);
    } else {
      var j :| 0 <= j < NUM_CACHES && o in s'.used[j];
      assert allocs[o] == CacheSize(j);
      SizeNamesCache(i, j, 0);
    }
  }

  lemma BlocksAgree(allocs: map<nat, nat>, s: Ownership, s': Ownership, p: nat)
    requires Ledger(allocs, s.used, s.live, s.marks) && Ledger(allocs, s'.used, s'.live, s'.marks)
    requires |s'.used| == NUM_CACHES && p in s.live && p !in s.marks
    ensures p in s'.live && p !in s'.marks && s'.live[p] == s.live[p]
  {
    hide CacheSize, Placed, Pow2;
    var o := p * PAGE_SIZE;
    assert IsBlock(s.live, s.marks, o);
    if IsBlock(s'.live, s'.marks, o) {
      SamePower(s.live[p], s'.live[p]);
    } else {
      var j :| 0 <= j < NUM_CACHES && o in s'.used[j];
      SizeNamesCache(j, j, s.live[p]);
    }
  }

  lemma SamePower(a: nat, b: nat)
    requires Pow2(a) * PAGE_SIZE == Pow2(b) * PAGE_SIZE
    ensures a == b
  {
    Pow2Injective(a, b);
  }

  /** Two states with the same allocations. */
  lemma AllocationsFixHoldings(allocs: map<nat, nat>, s: Ownership, s': Ownership)
    requires Ledger(allocs, s.used, s.live, s.marks) && Ledger(allocs, s'.used, s'.live, s'.marks)
    requires Settled(s) && Settled(s')
    ensures SameHoldings(s, s')
  {
    hide Ledger;
    forall i | 0 <= i < NUM_CACHES ensures s.used[i] == s'.used[i] {
      forall o ensures o in s.used[i] <==> o in s'.used[i] {
        if o in s.used[i] {
          SlotsAgree(allocs, s, s', i, o);
        } else if o in s'.used[i] {
          SlotsAgree(allocs, s', s, i, o);
        }
      }
    }
    forall p | p in s.live && p !in s.marks ensures p in s'.live && p !in s'.marks && s'.live[p] == s.live[p] {
      BlocksAgree(allocs, s, s', p);
    }
    forall p | p in s'.live && p !in s'.marks ensures p in s.live && p !in s.marks {
      BlocksAgree(allocs, s', s, p);
    }
    forall i | 0 <= i < NUM_CACHES ensures SamePages(s, s', i) {
      PagesAgree(s, s', i);
    }
  }

  lemma PagesAgree(s: Ownership, s': Ownership, i: nat)
    requires Settled(s) && Settled(s') && i < NUM_CACHES && s.used[i] == s'.used[i]
    ensures SamePages(s, s', i)
  {
    if s.used[i] != {} {
      forall p: nat ensures Marked(s, i, p) <==> Marked(s', i, p) {
        MarkedIffUsed(s, i, p);
        MarkedIffUsed(s', i, p);
      }
    } else {
      assert CacheSettled(s, i) && CacheSettled(s', i);
      assert forall p: nat :: !InUseOn(s, i, p) && !InUseOn(s', i, p);
    }
  }

  lemma MarkedIffUsed(s: Ownership, i: nat, p: nat)
    requires Settled(s) && i < NUM_CACHES && s.used[i] != {}
    ensures Marked(s, i, p) <==> InUseOn(s, i, p)
  {
    assert CacheSettled(s, i);
    var o :| o in s.used[i];
    assert Marked(s, i, o / PAGE_SIZE) && InUseOn(s, i, o / PAGE_SIZE);
  }

  /** If the idle caches kept their pages too, nothing has changed: then the free-block sets are the same. */
  lemma SameHoldingsSameLive(s: Ownership, s': Ownership)
    requires SameHoldings(s, s') && s'.marks == s.marks && Settled(s) && Settled(s')
    ensures s' == s
  {
    forall p ensures p in s.live <==> p in s'.live {
    }
    assert s.live == s'.live;
  }

  /** The same between two moments of a context. */
  lemma HoldingsRestored(ctx: GpuContext, s: Ownership)
    requires ctx.Valid() && Settled(s) && Ledger(ctx.allocs, s.used, s.live, s.marks)
    ensures SameHoldings(s, ctx.Owned())
  {
    hide SameHoldings, Settled, Ledger, GpuContext.CachesValid;
    ContextIsWired(ctx);
    ContextIsSettled(ctx);
    AllocationsFixHoldings(ctx.allocs, s, ctx.Owned());
  }

  /** Without allocations nothing is left but one wholly free page in each cache. */
  lemma NothingLeaks(ctx: GpuContext)
    requires ctx.Valid() && ctx.allocs == map[]
    ensures forall i :: 0 <= i < NUM_CACHES ==> |ctx.slabs[i].pages| == 1 && ctx.slabs[i].used == {}
    ensures forall p :: p in ctx.buddy.live ==>
              p in ctx.buddy.marks && p in PageSet(ctx.slabs[GetSlab(ctx.buddy.marks[p])].pages)
  {
    hide Ledger, CacheInv, BuddyAllocator.ListsOk, Heap, PageSet;
    EmptyLedgerMeans(ctx.Used(), ctx.buddy.live, ctx.buddy.marks);
    forall i | 0 <= i < NUM_CACHES ensures |ctx.slabs[i].pages| == 1 && ctx.slabs[i].used == {} {
      assert ctx.Used()[i] == ctx.slabs[i].used;
      var c := ctx.slabs[i];
      FullIff(c.objectSize, c.marker, c.freeList, c.pages, c.slots, c.used, c.buddy.mem[..], c.buddy.marks, 0);
    }
    forall p | p in ctx.buddy.live
      ensures p in ctx.buddy.marks && p in PageSet(ctx.slabs[GetSlab(ctx.buddy.marks[p])].pages)
    {
      var c := ctx.slabs[GetSlab(ctx.buddy.marks[p])];
      MarkedIsOwned(c.objectSize, c.marker, c.freeList, c.pages, c.slots, c.used, c.buddy.mem[..], c.buddy.marks, p);
    }
  }

  lemma EmptyLedgerMeans(used: seq<set<nat>>, live: map<nat, nat>, marks: map<nat, int>)
    requires Ledger(map[], used, live, marks)
    ensures |used| == NUM_CACHES && forall i :: 0 <= i < NUM_CACHES ==> used[i] == {}
    ensures forall p :: p in live ==> p in marks
  {
    var none: map<nat, nat> := map[];
    forall p | p in live ensures p in marks {
      assert !IsBlock(live, marks, p * PAGE_SIZE);
    }
    forall i | 0 <= i < NUM_CACHES ensures used[i] == {} {
      assert forall s :: s in used[i] ==> s in none;
    }
  }

  lemma MarkedIsOwned(size: nat, marker: int, head: int, pages: seq<PageMeta>, slots: seq<nat>, used: set<nat>,
                      mem: seq<int>, marks: map<nat, int>, p: nat)
    requires CacheInv(size, marker, head, pages, slots, used, mem, marks)
    requires p in marks && marks[p] == marker
    ensures p in PageSet(pages)
  {
  }

  /** Any two allocations of a context are disjoint and inside the managed memory. */
  lemma ContextAllocationsApart(ctx: GpuContext, o: nat, o': nat)
    requires ctx.Valid() && o in ctx.allocs && o' in ctx.allocs && o != o'
    ensures Apart(o, ctx.allocs[o], o', ctx.allocs[o'])
  {
    AllocationsApart(ctx.buddy.pages, ctx.buddy.heads, ctx.buddy.live, ctx.buddy.marks, ctx.buddy.pageOrder[..],
                     ctx.allocs, ctx.Used(), o, o');
  }

  lemma AllocationInMemory(ctx: GpuContext, o: nat)
    requires ctx.Valid() && o in ctx.allocs
    ensures o + ctx.allocs[o] <= ctx.buddy.pages * PAGE_SIZE <= ctx.buddy.mem.Length * WORD
  {
    var p := AllocationIsWithin(ctx.allocs, ctx.Used(), ctx.buddy.live, ctx.buddy.marks, ctx.buddy.pageOrder[..], o);
    LiveIsProper(ctx.buddy.pages, ctx.buddy.heads, ctx.buddy.live, p);
  }

  /** Allocations start and end on words. */
  lemma LedgerAligned(allocs: map<nat, nat>, used: seq<set<nat>>, live: map<nat, nat>, marks: map<nat, int>, o: nat)
    requires Ledger(allocs, used, live, marks) && o in allocs
    ensures o % WORD == 0 && allocs[o] % WORD == 0 && allocs[o] > 0
  {
    hide OnSlot, Pow2;
    if IsBlock(live, marks, o) {
      PageAligned(o, live[o / PAGE_SIZE]);
    } else {
      var i :| 0 <= i < NUM_CACHES && o in used[i];
      assert InCache(i, o, marks);
      SlotOnWord(CacheSize(i), o);
    }
  }

  lemma PageAligned(o: nat, order: nat)
    requires o % PAGE_SIZE == 0
    ensures o % WORD == 0 && Pow2(order) * PAGE_SIZE % WORD == 0 && Pow2(order) * PAGE_SIZE > 0
  {
    var q := o / PAGE_SIZE;
    assert o == WORD * (512 * q);
    assert Pow2(order) * PAGE_SIZE == WORD * (512 * Pow2(order));
  }

  lemma AllocationAligned(ctx: GpuContext, o: nat)
    requires ctx.Valid() && o in ctx.allocs
    ensures o % WORD == 0 && ctx.allocs[o] % WORD == 0 && ctx.allocs[o] > 0
  {
    hide Ledger;
    LedgerAligned(ctx.allocs, ctx.Used(), ctx.buddy.live, ctx.buddy.marks, o);
  }

  /** Copying into one allocation keeps all others. */
  lemma KeptBeside(ctx: GpuContext, o: nat, others: map<nat, nat>, mem0: seq<int>, was: seq<int>, mem: seq<int>,
                   from: int, length: nat)
    requires ctx.Valid() && o in ctx.allocs && o !in others
    requires forall p :: p in others ==> p in ctx.allocs && ctx.allocs[p] == others[p]
    requires o <= from && from + length <= o + ctx.allocs[o]
    requires Kept(mem0, was, others) && OnlyBytesChanged(was, mem, from, length)
    ensures Kept(mem0, mem, others)
  {
    hide GpuContext.Valid, Byte, StoredAt;
    AllocationAligned(ctx, o);
    forall p, w | p in others && 0 <= w < |mem| && InRange(p, others[p], w) ensures mem[w] == mem0[w] {
      ContextAllocationsApart(ctx, p, o);
      AllocationAligned(ctx, p);
    }
  }

  // ---------------------------------------------------------------------------------------------
  // Whole runs.

  /** A client allocates, or frees what its n-th request got. */
  datatype Call = GpuMalloc(size: nat, hostOk: bool) | GpuFree(n: nat)

  /** Allocations from before the run are still there, with their contents. */
  ghost predicate Survives(allocs0: map<nat, nat>, mem0: seq<int>, allocs: map<nat, nat>, mem: seq<int>) {
    && (forall o :: o in allocs0 ==> o in allocs && allocs[o] == allocs0[o])
    && Kept(mem0, mem, allocs0)
  }

  lemma SurvivesStep(allocs0: map<nat, nat>, mem0: seq<int>, allocs1: map<nat, nat>, mem1: seq<int>,
                     allocs2: map<nat, nat>, mem2: seq<int>, both: map<nat, nat>)
    requires Survives(allocs0, mem0, allocs1, mem1) && Kept(mem1, mem2, both)
    requires forall o :: o in allocs0 ==> o in both && both[o] == allocs0[o] && o in allocs2 && allocs2[o] == allocs0[o]
    ensures Survives(allocs0, mem0, allocs2, mem2)
  {
    hide InRange;
  }

  /** How many of the calls allocate: there is one result for each of them. */
  function Mallocs(trace: seq<Call>): (n: nat)
    ensures n <= |trace|
  {
    if trace == [] then 0 else Mallocs(trace[..|trace| - 1]) + if trace[|trace| - 1].GpuMalloc? then 1 else 0
  }

  /** What the client holds after the calls, with the sizes it asked for. */
  ghost function HeldAfter(trace: seq<Call>, results: seq<int>): map<nat, nat>
    requires Mallocs(trace) <= |results|
    decreases |trace|, 0
  {
    if trace == [] then map[] else
      var past := trace[..|trace| - 1];
      var before := HeldAfter(past, results);
      match trace[|trace| - 1]
      case GpuMalloc(size, _) =>
        var r := results[Mallocs(past)];
        if r >= 0 then before[r := size] else before
      case GpuFree(n) =>
        if Frees(past, results, n) then before - {results[n]} else before
  }

  /** The client holds what its n-th request got. */
  ghost predicate Frees(past: seq<Call>, results: seq<int>, n: nat)
    requires Mallocs(past) <= |results|
    decreases |past|, 1
  {
    n < Mallocs(past) && results[n] >= 0 && results[n] in HeldAfter(past, results)
  }

  /** The states are those of a run in which every call did what it should and got the result it should. */
  ghost predicate Ran(pages: nat, trace: seq<Call>, results: seq<int>, states: seq<Ownership>)
    requires Mallocs(trace) <= |results|
  {
    && |states| == |trace| + 1
    && if trace == [] then true else
         var past := trace[..|trace| - 1];
         && Ran(pages, past, results, states[..|trace|])
         && var s, s' := states[|trace| - 1], states[|trace|];
            match trace[|trace| - 1]
            case GpuMalloc(size, hostOk) => Taken(pages, s, s', size, hostOk, results[Mallocs(past)])
            case GpuFree(n) => if Frees(past, results, n) then Released(s, s', results[n]) else s' == s
  }

  /** Later results say nothing about earlier calls. */
  lemma {:induction false} LaterHeld(pages: nat, trace: seq<Call>, results: seq<int>, states: seq<Ownership>, r: int)
    requires Mallocs(trace) <= |results|
    ensures HeldAfter(trace, results + [r]) == HeldAfter(trace, results)
    ensures Ran(pages, trace, results, states) ==> Ran(pages, trace, results + [r], states)
    decreases |trace|
  {
    hide Taken, Released;
    if trace != [] {
      LaterHeld(pages, trace[..|trace| - 1], results, if states == [] then [] else states[..|states| - 1], r);
    }
  }

  lemma MallocStep(pages: nat, trace: seq<Call>, results: seq<int>, states: seq<Ownership>, s': Ownership, r: int)
    requires trace != [] && trace[|trace| - 1].GpuMalloc? && |results| == Mallocs(trace[..|trace| - 1])
    requires Ran(pages, trace[..|trace| - 1], results, states)
    requires Taken(pages, states[|states| - 1], s', trace[|trace| - 1].size, trace[|trace| - 1].hostOk, r)
    ensures Mallocs(trace) == |results| + 1
    ensures Ran(pages, trace, results + [r], states + [s'])
    ensures var before := HeldAfter(trace[..|trace| - 1], results);
            HeldAfter(trace, results + [r]) == if r >= 0 then before[r := trace[|trace| - 1].size] else before
  {
    hide Taken, Released;
    LaterHeld(pages, trace[..|trace| - 1], results, states, r);
    assert (states + [s'])[..|trace|] == states;
  }

  lemma FreeStep(pages: nat, trace: seq<Call>, results: seq<int>, states: seq<Ownership>, s': Ownership)
    requires trace != [] && trace[|trace| - 1].GpuFree? && |results| == Mallocs(trace[..|trace| - 1])
    requires Ran(pages, trace[..|trace| - 1], results, states)
    requires var n := trace[|trace| - 1].n;
             if Frees(trace[..|trace| - 1], results, n) then Released(states[|states| - 1], s', results[n])
             else s' == states[|states| - 1]
    ensures Mallocs(trace) == |results|
    ensures Ran(pages, trace, results, states + [s'])
    ensures var before, n := HeldAfter(trace[..|trace| - 1], results), trace[|trace| - 1].n;
            HeldAfter(trace, results) == if Frees(trace[..|trace| - 1], results, n) then before - {results[n]} else before
  {
    hide Taken, Released;
    assert (states + [s'])[..|trace|] == states;
  }

  /** Any interleaving of gpuMalloc and gpuFree keeps every invariant and the contents of all other allocations; it does, call
      by call, what ownership of slots, pages and blocks prescribes.  At the end exactly what the client still holds has been
      added, each piece at least as long as asked for. */
  method ServeAll(ctx: GpuContext, trace: seq<Call>)
    returns (results: seq<int>, held: map<nat, nat>, ghost states: seq<Ownership>)
    requires ctx.Valid()
    modifies ctx, ctx.slabs, ctx.buddy, ctx.buddy.mem, ctx.buddy.freeList, ctx.buddy.pageOrder
    ensures ctx.Valid() && |results| == Mallocs(trace)
    ensures Ran(ctx.buddy.pages, trace, results, states)
    ensures states[0] == old(ctx.Owned()) && states[|trace|] == ctx.Owned()
    ensures held == HeldAfter(trace, results)
    ensures Survives(old(ctx.allocs), old(ctx.buddy.mem[..]), ctx.allocs, ctx.buddy.mem[..])
    ensures Holds(old(ctx.allocs), ctx.allocs, held)
  {
    hide GpuContext.Valid, Taken, Released, Ran, HeldAfter, Survives, Holds, Kept;
    ContextIsWired(ctx);
    results, held, states := [], map[], [ctx.Owned()];
    ghost var allocs0, mem0 := ctx.allocs, ctx.buddy.mem[..];
    RunStarts(ctx.buddy.pages, ctx.Owned(), ctx.allocs, ctx.buddy.mem[..]);
    assert trace[..0] == [];
    for i := 0 to |trace|
      invariant ctx.Valid() && |results| == Mallocs(trace[..i])
      invariant Ran(ctx.buddy.pages, trace[..i], results, states) && |states| == i + 1
      invariant states[0] == old(ctx.Owned()) && states[i] == ctx.Owned()
      invariant held == HeldAfter(trace[..i], results)
      invariant Survives(allocs0, mem0, ctx.allocs, ctx.buddy.mem[..]) && Holds(allocs0, ctx.allocs, held)
    {
      assert trace[..i + 1][..i] == trace[..i];
      ghost var allocs1, mem1 := ctx.allocs, ctx.buddy.mem[..];
      match trace[i] {
        case GpuMalloc(size, hostOk) =>
          var r := ctx.Malloc(size, hostOk);
          HoldsMore(allocs0, mem0, allocs1, mem1, ctx.allocs, ctx.buddy.mem[..], held, size, r);
          MallocStep(ctx.buddy.pages, trace[..i + 1], results, states, ctx.Owned(), r);
          results := results + [r];
          if r != FAILED {
            held := held[r := size];
          }
        case GpuFree(n) =>
          if n < |results| && results[n] >= 0 && results[n] in held {
            HeldIsThere(allocs0, allocs1, held, results[n]);
            ctx.Free(results[n]);
            HoldsLess(allocs0, mem0, allocs1, mem1, ctx.allocs, ctx.buddy.mem[..], held, results[n]);
            held := held - {results[n]};
          }
          FreeStep(ctx.buddy.pages, trace[..i + 1], results, states, ctx.Owned());
      }
      states := states + [ctx.Owned()];
    }
    assert trace[..|trace|] == trace;
  }

  lemma ContextIsWired(ctx: GpuContext)
    requires ctx.Valid()
    ensures ctx.Wired()
  {
  }

  lemma RunStarts(pages: nat, s: Ownership, allocs: map<nat, nat>, mem: seq<int>)
    ensures Ran(pages, [], [], [s]) && HeldAfter([], []) == map[]
    ensures Survives(allocs, mem, allocs, mem) && Holds(allocs, allocs, map[])
  {
  }

  lemma HoldsMore(allocs0: map<nat, nat>, mem0: seq<int>, allocs1: map<nat, nat>, mem1: seq<int>,
                  allocs2: map<nat, nat>, mem2: seq<int>, held: map<nat, nat>, size: nat, r: int)
    requires Survives(allocs0, mem0, allocs1, mem1) && Kept(mem1, mem2, allocs1) && Holds(allocs0, allocs1, held)
    requires r == FAILED ==> allocs2 == allocs1
    requires r != FAILED ==>
               r >= 0 && r !in allocs1 && r in allocs2 && allocs2 == allocs1[r := allocs2[r]] && size <= allocs2[r]
    ensures Survives(allocs0, mem0, allocs2, mem2)
    ensures Holds(allocs0, allocs2, if r == FAILED then held else held[r := size])
  {
    hide Kept;
    assert forall o :: o in allocs0 ==> o in allocs1 && allocs1[o] == allocs0[o];
    SurvivesStep(allocs0, mem0, allocs1, mem1, allocs2, mem2, allocs1);
  }

  lemma HoldsLess(allocs0: map<nat, nat>, mem0: seq<int>, allocs1: map<nat, nat>, mem1: seq<int>,
                  allocs2: map<nat, nat>, mem2: seq<int>, held: map<nat, nat>, o: nat)
    requires Survives(allocs0, mem0, allocs1, mem1) && Holds(allocs0, allocs1, held) && o in held
    requires allocs2 == allocs1 - {o} && Kept(mem1, mem2, allocs2)
    ensures Survives(allocs0, mem0, allocs2, mem2) && Holds(allocs0, allocs2, held - {o})
  {
    hide Kept;
    assert forall p :: p in allocs0 ==> p in allocs1 && p != o;
    SurvivesStep(allocs0, mem0, allocs1, mem1, allocs2, mem2, allocs2);
  }

  lemma HeldIsThere(allocs0: map<nat, nat>, allocs: map<nat, nat>, held: map<nat, nat>, o: nat)
    requires Holds(allocs0, allocs, held) && o in held
    ensures o in allocs
  {
  }

  /** What is allocated now is what was allocated before and what the client holds, at the sizes it asked for or more. */
  ghost predicate Holds(allocs0: map<nat, nat>, allocs: map<nat, nat>, held: map<nat, nat>) {
    && (forall o :: o in allocs <==> o in allocs0 || o in held)
    && forall o :: o in held ==> o !in allocs0 && o in allocs && held[o] <= allocs[o]
  }
}
