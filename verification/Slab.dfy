/** Slab caches: single pages of the buddy allocator cut into slots of one size.

    Slots are named by their byte offset.  A free slot keeps the link to the next free slot in its
    first word, so the list of free slots lives in the same memory as the clients' data. */
module Slab {
  import opened Blocks
  import opened Buddy

  const WORD: nat := 8

  predicate SlotSize(size: nat) {
    size == 32 || size == 64 || size == 128 || size == 256 || size == 512 || size == 2048
  }

  /** The number of slots of a page. */
  function SlotCount(size: nat): (r: nat)
    requires SlotSize(size)
    ensures r == PAGE_SIZE / size && r * size == PAGE_SIZE && r >= 2
  {
    if size == 32 then 128
    else if size == 64 then 64
    else if size == 128 then 32
    else if size == 256 then 16
    else if size == 512 then 8
    else 2
  }

  datatype PageMeta = PageMeta(page: nat, freeCount: int, totalSlots: nat)

  // ---------------------------------------------------------------------------------------------
  // Slots of a page.

  /** `s` is on a slot boundary. */
  predicate OnSlot(size: nat, s: nat)
    requires SlotSize(size)
  {
    s % size == 0
  }

  lemma MultipleStep(d: nat, x: nat)
    requires d > 0 && x % d == 0
    ensures (x + d) % d == 0
  {
    var k := x / d + 1 - (x + d) / d;
    assert d * k == (x + d) % d;
    assert k >= 1 ==> d * k >= d;
    assert k <= -1 ==> d * k + d <= 0;
  }

  lemma {:induction false} ProductIsMultiple(d: nat, k: nat)
    requires d > 0
    ensures (d * k) % d == 0
    decreases k
  {
    if k > 0 {
      ProductIsMultiple(d, k - 1);
      MultipleStep(d, d * (k - 1));
      assert d * k == d * (k - 1) + d;
    }
  }

  lemma MultiplesApart(d: nat, a: nat, b: nat)
    requires d > 0 && a % d == 0 && b % d == 0 && a < b
    ensures a + d <= b
  {
    var k := b / d - a / d;
    assert d * k == b - a;
    assert k <= 0 ==> d * k <= 0;
    assert k >= 1 ==> d * k >= d;
  }

  ghost predicate SlotOf(size: nat, page: nat, s: nat)
    requires SlotSize(size)
  {
    OnSlot(size, s) && s / PAGE_SIZE == page
  }

  ghost function PageSlots(size: nat, page: nat): (r: set<nat>)
    requires SlotSize(size)
    ensures forall s :: s in r <==> SlotOf(size, page, s)
  {
    set s | page * PAGE_SIZE <= s < page * PAGE_SIZE + PAGE_SIZE && OnSlot(size, s)
  }

  /** n consecutive slots. */
  ghost function Slots(size: nat, base: nat, n: nat): set<nat>
    decreases n
  {
    if n == 0 then {} else {base} + Slots(size, base + size, n - 1)
  }

  lemma {:induction false} SlotsMembers(size: nat, base: nat, n: nat, end: nat)
    requires SlotSize(size) && OnSlot(size, base) && end == base + n * size
    ensures |Slots(size, base, n)| == n
    ensures forall s :: s in Slots(size, base, n) <==> base <= s < end && OnSlot(size, s)
    decreases n
  {
    hide OnSlot, SlotSize;
    if n > 0 {
      NextSlot(size, base);
      assert end == (base + size) + (n - 1) * size;
      SlotsMembers(size, base + size, n - 1, end);
      var rest := Slots(size, base + size, n - 1);
      assert (n - 1) * size >= 0;
      assert base !in rest;
      assert Slots(size, base, n) == {base} + rest;
      forall s ensures s in {base} + rest <==> base <= s < end && OnSlot(size, s) {
        assert s in rest <==> base + size <= s < end && OnSlot(size, s);
      }
    }
  }

  lemma NextSlot(size: nat, base: nat)
    requires SlotSize(size) && OnSlot(size, base)
    ensures size > 0 && OnSlot(size, base + size)
    ensures forall t :: base < t < base + size ==> !OnSlot(size, t)
  {
    MultipleStep(size, base);
    forall t | base < t < base + size ensures !OnSlot(size, t) {
      if OnSlot(size, t) {
        MultiplesApart(size, base, t);
      }
    }
  }

  lemma PageSlotsCount(size: nat, page: nat)
    requires SlotSize(size)
    ensures OnSlot(size, page * PAGE_SIZE)
    ensures |PageSlots(size, page)| == SlotCount(size)
  {
    var n := SlotCount(size);
    PageOnSlot(size, page);
    hide OnSlot, SlotSize;
    SlotsMembers(size, page * PAGE_SIZE, n, page * PAGE_SIZE + PAGE_SIZE);
    assert PageSlots(size, page) == Slots(size, page * PAGE_SIZE, n);
  }

  lemma SlotsApart(size: nat, s: nat, t: nat)
    requires SlotSize(size) && OnSlot(size, s) && OnSlot(size, t) && s < t
    ensures s + size <= t
  {
    MultiplesApart(size, s, t);
  }

  lemma PageOnSlot(size: nat, page: nat)
    requires SlotSize(size)
    ensures OnSlot(size, page * PAGE_SIZE)
  {
    ProductIsMultiple(size, SlotCount(size) * page);
    assert size * (SlotCount(size) * page) == page * (SlotCount(size) * size);
  }

  lemma SlotOnWord(size: nat, s: nat)
    requires SlotSize(size) && OnSlot(size, s)
    ensures s % WORD == 0
  {
    var q, m := s / size, size / WORD;
    assert s == size * q && size == WORD * m;
    assert s == WORD * (m * q);
  }

  lemma SlotInPage(size: nat, s: nat)
    requires SlotSize(size) && OnSlot(size, s)
    ensures s + size <= (s / PAGE_SIZE + 1) * PAGE_SIZE
  {
    hide OnSlot;
    var q := s / PAGE_SIZE;
    PageOnSlot(size, q + 1);
    SlotsApart(size, s, (q + 1) * PAGE_SIZE);
  }

  /** The address computed for the i-th slot of a page. */
  lemma SlotAddress(size: nat, page: nat, i: nat)
    requires SlotSize(size) && i < SlotCount(size)
    ensures var s := page * PAGE_SIZE + i * size;
            && OnSlot(size, s) && s / PAGE_SIZE == page
            && s + size == page * PAGE_SIZE + (i + 1) * size
  {
    var n := SlotCount(size);
    ProductIsMultiple(size, n * page + i);
    assert size * (n * page + i) == page * (n * size) + i * size;
    assert (i + 1) * size == i * size + size;
    assert (n - (i + 1)) * size >= 0;
    assert (n - (i + 1)) * size == n * size - (i + 1) * size;
  }

  // ---------------------------------------------------------------------------------------------
  // The list of free slots.

  ghost predicate SlotNode(mem: seq<int>, l: seq<nat>, k: nat)
    requires k < |l|
  {
    l[k] / WORD < |mem| && mem[l[k] / WORD] == At(l, k + 1)
  }

  /** `l` is stored in `mem` as a null-terminated list starting at `head`. */
  ghost predicate Chained(mem: seq<int>, head: int, l: seq<nat>) {
    && head == At(l, 0)
    && forall k :: 0 <= k < |l| ==> SlotNode(mem, l, k)
  }

  ghost predicate Spread(l: seq<nat>) {
    && NoDup(l)
    && forall k :: 0 <= k < |l| ==> l[k] % WORD == 0
  }

  lemma ChainFrame(was: seq<int>, mem: seq<int>, head: int, l: seq<nat>)
    requires Chained(was, head, l) && |mem| == |was|
    requires forall k :: 0 <= k < |l| && l[k] / WORD < |was| ==> mem[l[k] / WORD] == was[l[k] / WORD]
    ensures Chained(mem, head, l)
  {
    forall k | 0 <= k < |l| ensures SlotNode(mem, l, k) {
      assert SlotNode(was, l, k);
    }
  }

  lemma ChainPush(mem: seq<int>, head: int, l: seq<nat>, s: nat)
    requires Chained(mem, head, l) && Spread(l)
    requires s !in l && s % WORD == 0 && s / WORD < |mem|
    ensures Chained(mem[s / WORD := head], s, [s] + l)
    ensures Spread([s] + l)
  {
    var l', mem' := [s] + l, mem[s / WORD := head];
    forall k | 0 <= k < |l'| ensures SlotNode(mem', l', k) {
      if k > 0 {
        assert SlotNode(mem, l, k - 1);
        assert l'[k] == l[k - 1] && l[k - 1] % WORD == 0;
      }
    }
  }

  /** Unlinking the k-th slot: its predecessor, or the head, takes over its link. */
  lemma ChainUnlink(mem: seq<int>, head: int, l: seq<nat>, k: nat)
    requires Chained(mem, head, l) && Spread(l) && k < |l|
    requires k > 0 ==> l[k - 1] / WORD < |mem|
    ensures var l' := l[..k] + l[k + 1..];
            && Spread(l')
            && if k == 0 then Chained(mem, At(l, 1), l')
               else Chained(mem[l[k - 1] / WORD := At(l, k + 1)], head, l')
  {
    var l' := l[..k] + l[k + 1..];
    var mem' := if k == 0 then mem else mem[l[k - 1] / WORD := At(l, k + 1)];
    assert forall j :: 0 <= j < |l'| ==> l'[j] == l[if j < k then j else j + 1];
    forall j | 0 <= j < |l'| ensures SlotNode(mem', l', j) {
      var i := if j < k then j else j + 1;
      assert SlotNode(mem, l, i);
      assert l[i] % WORD == 0;
      if k > 0 && i != k - 1 {
        assert l[k - 1] % WORD == 0;
      }
    }
  }

  lemma EmptyChain(mem: seq<int>)
    ensures Chained(mem, NULL, []) && Spread([])
  {
  }

  lemma ChainPop(mem: seq<int>, head: int, l: seq<nat>)
    requires Chained(mem, head, l) && Spread(l) && l != []
    ensures Chained(mem, At(l, 1), l[1..]) && Spread(l[1..])
    ensures NoDup(l) && l[0] !in l[1..]
  {
    ChainUnlink(mem, head, l, 0);
    assert l[..0] + l[1..] == l[1..];
  }

  // ---------------------------------------------------------------------------------------------
  // The invariant of a cache.

  ghost function PageSet(pages: seq<PageMeta>): set<nat> {
    set k | 0 <= k < |pages| :: pages[k].page
  }

  ghost predicate DistinctPages(pages: seq<PageMeta>) {
    forall i, j :: 0 <= i < j < |pages| ==> pages[i].page != pages[j].page
  }

  /** The free slots of one page. */
  ghost function FreeIn(slots: seq<nat>, page: nat): (r: set<nat>)
    ensures forall s :: s in r <==> s in slots && s / PAGE_SIZE == page
  {
    set s | s in slots && s / PAGE_SIZE == page
  }

  ghost predicate MetaOk(size: nat, slots: seq<nat>, m: PageMeta)
    requires SlotSize(size)
  {
    && m.freeCount == |FreeIn(slots, m.page)|
    && m.totalSlots == SlotCount(size)
  }

  /** Every slot of every owned page is either on the free list or in use, never both. */
  ghost predicate Partition(size: nat, pages: seq<PageMeta>, slots: seq<nat>, used: set<nat>)
    requires SlotSize(size)
  {
    && (forall s :: s in slots ==> s !in used)
    && forall s: nat :: s in slots || s in used <==> OnSlot(size, s) && s / PAGE_SIZE in PageSet(pages)
  }

  /** The pages of the cache are exactly the single live pages that carry its marker. */
  ghost predicate OwnsPages(marker: int, pages: seq<PageMeta>, marks: map<nat, int>) {
    && DistinctPages(pages)
    && forall p :: p in PageSet(pages) <==> p in marks && marks[p] == marker
  }

  ghost predicate CacheInv(size: nat, marker: int, head: int, pages: seq<PageMeta>, slots: seq<nat>, used: set<nat>,
                           mem: seq<int>, marks: map<nat, int>)
  {
    && SlotSize(size)
    && Chained(mem, head, slots) && Spread(slots)
    && Partition(size, pages, slots, used)
    && OwnsPages(marker, pages, marks)
    && forall k :: 0 <= k < |pages| ==> MetaOk(size, slots, pages[k])
  }

  /** The invariant of a cache depends on the memory only through its free slots. */
  lemma CacheFrame(size: nat, marker: int, head: int, pages: seq<PageMeta>, slots: seq<nat>, used: set<nat>,
                   mem: seq<int>, marks: map<nat, int>, mem': seq<int>, marks': map<nat, int>)
    requires CacheInv(size, marker, head, pages, slots, used, mem, marks) && |mem'| == |mem|
    requires forall s :: s in slots && s / WORD < |mem| ==> mem'[s / WORD] == mem[s / WORD]
    requires forall p :: p in marks && marks[p] == marker <==> p in marks' && marks'[p] == marker
    ensures CacheInv(size, marker, head, pages, slots, used, mem', marks')
  {
    ChainFrame(mem, mem', head, slots);
  }

  ghost predicate OnlyPageChanged(was: seq<int>, mem: seq<int>, page: nat) {
    && |mem| == |was|
    && forall w :: 0 <= w < |mem| && w / PAGE_WORDS != page ==> mem[w] == was[w]
  }

  /** A page without used slots is kept only when it is the only page. */
  ghost predicate Trimmed(pages: seq<PageMeta>) {
    |pages| > 1 ==> forall k :: 0 <= k < |pages| ==> pages[k].freeCount < pages[k].totalSlots
  }

  /** The free count of a page reaches the slot count exactly when no slot of the page is in use. */
  lemma FullIffUnused(size: nat, pages: seq<PageMeta>, slots: seq<nat>, used: set<nat>, k: nat)
    requires SlotSize(size) && Partition(size, pages, slots, used)
    requires k < |pages| && MetaOk(size, slots, pages[k])
    ensures 0 <= pages[k].freeCount <= pages[k].totalSlots
    ensures pages[k].freeCount == pages[k].totalSlots <==> forall s :: s in used ==> s / PAGE_SIZE != pages[k].page
  {
    var p := pages[k].page;
    var all, free := PageSlots(size, p), FreeIn(slots, p);
    PageSlotsCount(size, p);
    assert free <= all;
    SubsetCard(free, all);
    assert forall s :: s in all - free <==> s in used && s / PAGE_SIZE == p;
    assert |all - free| == 0 <==> all - free == {};
  }

  lemma {:induction false} SubsetCard(a: set<nat>, b: set<nat>)
    requires a <= b
    ensures |a| <= |b| && |b - a| == |b| - |a|
  {
    assert b == a + (b - a);
  }

  // ---------------------------------------------------------------------------------------------
  // The moves of a cache.

  /** The pages with the free count of the k-th changed. */
  ghost function Recount(pages: seq<PageMeta>, k: nat, n: int): (r: seq<PageMeta>)
    requires k < |pages|
    ensures |r| == |pages| && PageSet(r) == PageSet(pages)
  {
    var r := pages[k := pages[k].(freeCount := n)];
    assert forall i :: 0 <= i < |r| ==> r[i].page == pages[i].page;
    SamePages(pages, r);
    SamePages(r, pages);
    r
  }

  lemma SamePages(a: seq<PageMeta>, b: seq<PageMeta>)
    requires |a| == |b| && forall i :: 0 <= i < |a| ==> a[i].page == b[i].page
    ensures PageSet(a) <= PageSet(b)
  {
    forall p | p in PageSet(a) ensures p in PageSet(b) {
      var k :| 0 <= k < |a| && a[k].page == p;
      assert b[k].page == p;
    }
  }

  lemma FreeInPop(slots: seq<nat>, page: nat)
    requires slots != [] && NoDup(slots)
    ensures FreeIn(slots[1..], page) == FreeIn(slots, page) - {slots[0]}
    ensures slots[0] / PAGE_SIZE != page ==> FreeIn(slots[1..], page) == FreeIn(slots, page)
    ensures slots[0] / PAGE_SIZE == page ==> slots[0] in FreeIn(slots, page)
  {
    assert forall t :: t in slots <==> t == slots[0] || t in slots[1..];
  }

  lemma FreeInPush(slots: seq<nat>, s: nat, page: nat)
    requires s !in slots
    ensures s / PAGE_SIZE == page ==> FreeIn([s] + slots, page) == FreeIn(slots, page) + {s}
    ensures s / PAGE_SIZE != page ==> FreeIn([s] + slots, page) == FreeIn(slots, page)
    ensures s !in FreeIn(slots, page)
  {
    assert forall t :: t in [s] + slots <==> t == s || t in slots;
  }

  lemma PartitionPop(size: nat, pages: seq<PageMeta>, pages': seq<PageMeta>, slots: seq<nat>, used: set<nat>)
    requires SlotSize(size) && Partition(size, pages, slots, used) && PageSet(pages') == PageSet(pages)
    requires slots != [] && slots[0] !in slots[1..]
    ensures Partition(size, pages', slots[1..], used + {slots[0]})
  {
    hide OnSlot, PageSet;
    assert forall t :: t in slots <==> t == slots[0] || t in slots[1..];
  }

  lemma PartitionPush(size: nat, pages: seq<PageMeta>, pages': seq<PageMeta>, slots: seq<nat>, used: set<nat>, s: nat)
    requires SlotSize(size) && Partition(size, pages, slots, used) && PageSet(pages') == PageSet(pages)
    requires s in used
    ensures s !in slots && OnSlot(size, s)
    ensures Partition(size, pages', [s] + slots, used - {s})
  {
    hide OnSlot, PageSet;
    assert forall t :: t in [s] + slots <==> t == s || t in slots;
  }

  /** Handing out the first free slot. */
  lemma PopStep(size: nat, marker: int, head: int, pages: seq<PageMeta>, slots: seq<nat>, used: set<nat>,
                mem: seq<int>, marks: map<nat, int>, k: nat)
    requires CacheInv(size, marker, head, pages, slots, used, mem, marks)
    requires slots != [] && k < |pages| && pages[k].page == slots[0] / PAGE_SIZE
    ensures CacheInv(size, marker, At(slots, 1), Recount(pages, k, pages[k].freeCount - 1), slots[1..], used + {slots[0]},
                     mem, marks)
  {
    hide SlotSize, PageSet, Chained, Spread, NoDup, At, Partition, FreeIn;
    var rest := slots[1..];
    var pages' := Recount(pages, k, pages[k].freeCount - 1);
    ChainPop(mem, head, slots);
    PartitionPop(size, pages, pages', slots, used);
    forall i | 0 <= i < |pages'| ensures MetaOk(size, rest, pages'[i]) {
      assert MetaOk(size, slots, pages[i]);
      FreeInPop(slots, pages[i].page);
    }
  }

  /** Taking a slot back. */
  lemma PushStep(size: nat, marker: int, head: int, pages: seq<PageMeta>, slots: seq<nat>, used: set<nat>,
                 mem: seq<int>, marks: map<nat, int>, s: nat, k: nat)
    requires CacheInv(size, marker, head, pages, slots, used, mem, marks)
    requires s in used && s / WORD < |mem| && k < |pages| && pages[k].page == s / PAGE_SIZE
    ensures CacheInv(size, marker, s, Recount(pages, k, pages[k].freeCount + 1), [s] + slots, used - {s},
                     mem[s / WORD := head], marks)
  {
    hide SlotSize, OnSlot, PageSet, Chained, Spread, NoDup, Partition, FreeIn;
    var slots' := [s] + slots;
    var pages' := Recount(pages, k, pages[k].freeCount + 1);
    PartitionPush(size, pages, pages', slots, used, s);
    SlotOnWord(size, s);
    ChainPush(mem, head, slots, s);
    forall i | 0 <= i < |pages'| ensures MetaOk(size, slots', pages'[i]) {
      assert MetaOk(size, slots, pages[i]);
      FreeInPush(slots, s, pages[i].page);
    }
  }

  /** The list without the slots of one page. */
  ghost function Without(slots: seq<nat>, page: nat): (r: seq<nat>)
    ensures forall s :: s in r <==> s in slots && s / PAGE_SIZE != page
  {
    if slots == [] then []
    else
      var rest := Without(slots[..|slots| - 1], page);
      var s := slots[|slots| - 1];
      assert forall t :: t in slots <==> t == s || t in slots[..|slots| - 1];
      if s / PAGE_SIZE == page then rest else rest + [s]
  }

  lemma WithoutNext(slots: seq<nat>, i: nat, page: nat)
    requires i < |slots|
    ensures Without(slots[..i + 1], page) ==
            if slots[i] / PAGE_SIZE == page then Without(slots[..i], page) else Without(slots[..i], page) + [slots[i]]
  {
    assert slots[..i + 1][..i] == slots[..i];
  }

  /** The first `i` slots have been looked at: those of the page are gone, `kept` are left. */
  ghost predicate Sweep(all: seq<nat>, i: nat, kept: seq<nat>, slots: seq<nat>, page: nat, prev: int, curr: int) {
    && i <= |all| && curr == At(all, i)
    && kept == Without(all[..i], page) && prev == At(kept, |kept| - 1)
    && slots == kept + all[i..] && forall s :: s in slots ==> s in all
  }

  lemma SweepStart(mem: seq<int>, head: int, all: seq<nat>, page: nat)
    requires Chained(mem, head, all)
    ensures Sweep(all, 0, [], all, page, NULL, head) && LinksOnly(mem, mem, all)
  {
    assert [] + all[0..] == all && all[..0] == [];
  }

  lemma SweepAt(all: seq<nat>, i: nat, kept: seq<nat>, slots: seq<nat>, page: nat, prev: int, curr: int)
    requires Sweep(all, i, kept, slots, page, prev, curr) && curr != NULL
    ensures i < |all| && |kept| < |slots| && slots[|kept|] == all[i] == curr
    ensures prev == At(slots, |kept| - 1) && At(slots, |kept| + 1) == At(all, i + 1)
    ensures forall s :: s in slots ==> s in all
  {
    hide Without;
  }

  lemma SweepKeep(all: seq<nat>, i: nat, kept: seq<nat>, slots: seq<nat>, page: nat, prev: int, curr: int)
    requires Sweep(all, i, kept, slots, page, prev, curr) && i < |all| && curr == all[i] && curr / PAGE_SIZE != page
    ensures Sweep(all, i + 1, kept + [all[i]], slots, page, curr, At(all, i + 1))
  {
    hide Without;
    WithoutNext(all, i, page);
    assert slots == kept + [all[i]] + all[i + 1..];
  }

  lemma SweepDrop(all: seq<nat>, i: nat, kept: seq<nat>, slots: seq<nat>, page: nat, prev: int, curr: int)
    requires Sweep(all, i, kept, slots, page, prev, curr) && i < |all| && curr == all[i] && curr / PAGE_SIZE == page
    requires |kept| < |slots|
    ensures Sweep(all, i + 1, kept, slots[..|kept|] + slots[|kept| + 1..], page, prev, At(all, i + 1))
  {
    hide Without;
    WithoutNext(all, i, page);
    assert slots[..|kept|] + slots[|kept| + 1..] == kept + all[i + 1..];
  }

  lemma SweepDone(all: seq<nat>, i: nat, kept: seq<nat>, slots: seq<nat>, page: nat, prev: int)
    requires Sweep(all, i, kept, slots, page, prev, NULL)
    ensures slots == Without(all, page)
  {
    hide Without;
    assert all[..i] == all && all[i..] == [];
  }

  lemma LinksOnlyMore(mem0: seq<int>, mem1: seq<int>, mem2: seq<int>, slots: seq<nat>, all: seq<nat>)
    requires LinksOnly(mem0, mem1, all) && LinksOnly(mem1, mem2, slots) && forall s :: s in slots ==> s in all
    ensures LinksOnly(mem0, mem2, all)
  {
  }

  lemma PageSetDrop(pages: seq<PageMeta>, k: nat)
    requires DistinctPages(pages) && k < |pages|
    ensures var pages' := pages[..k] + pages[k + 1..];
            && DistinctPages(pages')
            && PageSet(pages') == PageSet(pages) - {pages[k].page}
  {
    var p, pages' := pages[k].page, pages[..k] + pages[k + 1..];
    assert forall i :: 0 <= i < |pages'| ==> pages'[i] == pages[if i < k then i else i + 1];
    forall q | q in PageSet(pages) && q != p ensures q in PageSet(pages') {
      var i :| 0 <= i < |pages| && pages[i].page == q;
      assert pages'[if i < k then i else i - 1].page == q;
    }
    forall q | q in PageSet(pages') ensures q in PageSet(pages) && q != p {
      var i :| 0 <= i < |pages'| && pages'[i].page == q;
      assert pages[if i < k then i else i + 1].page == q;
    }
  }

  /** Giving up a page none of whose slots is in use. */
  lemma ShrinkStep(size: nat, marker: int, head: int, pages: seq<PageMeta>, slots: seq<nat>, used: set<nat>,
                   mem: seq<int>, marks: map<nat, int>, k: nat,
                   head': int, mem': seq<int>)
    requires CacheInv(size, marker, head, pages, slots, used, mem, marks)
    requires k < |pages| && pages[k].freeCount == pages[k].totalSlots
    requires Chained(mem', head', Without(slots, pages[k].page)) && Spread(Without(slots, pages[k].page))
    ensures CacheInv(size, marker, head', pages[..k] + pages[k + 1..], Without(slots, pages[k].page), used,
                     mem', marks - {pages[k].page})
  {
    hide Chained, Spread, OnSlot, Without, SlotSize, PageSet;
    var p := pages[k].page;
    var slots', pages' := Without(slots, p), pages[..k] + pages[k + 1..];
    assert MetaOk(size, slots, pages[k]);
    FullIffUnused(size, pages, slots, used, k);
    PageSetDrop(pages, k);
    assert forall i :: 0 <= i < |pages'| ==> pages'[i] == pages[if i < k then i else i + 1];
    forall i | 0 <= i < |pages'| ensures MetaOk(size, slots', pages'[i]) {
      var j := if i < k then i else i + 1;
      assert MetaOk(size, slots, pages[j]);
      assert pages[j].page != p;
      assert FreeIn(slots', pages[j].page) == FreeIn(slots, pages[j].page);
    }
  }

  /** Adding a page all of whose slots are on the list; the list was empty. */
  lemma GrowStep(size: nat, marker: int, head: int, pages: seq<PageMeta>, used: set<nat>,
                 mem: seq<int>, marks: map<nat, int>, page: nat,
                 slots': seq<nat>, head': int, mem': seq<int>)
    requires CacheInv(size, marker, head, pages, [], used, mem, marks)
    requires page !in marks
    requires forall s :: s in slots' <==> SlotOf(size, page, s)
    requires Chained(mem', head', slots') && Spread(slots')
    ensures CacheInv(size, marker, head', [PageMeta(page, SlotCount(size), SlotCount(size))] + pages, slots', used,
                     mem', marks[page := marker])
  {
    var pages' := [PageMeta(page, SlotCount(size), SlotCount(size))] + pages;
    assert PageSet(pages') == PageSet(pages) + {page} by {
      assert pages'[0].page == page;
      forall q | q in PageSet(pages) ensures q in PageSet(pages') {
        var i :| 0 <= i < |pages| && pages[i].page == q;
        assert pages'[i + 1].page == q;
      }
      forall q | q in PageSet(pages') ensures q == page || q in PageSet(pages) {
        var i :| 0 <= i < |pages'| && pages'[i].page == q;
        assert i == 0 || pages[i - 1].page == q;
      }
    }
    forall i | 0 <= i < |pages'| ensures MetaOk(size, slots', pages'[i]) {
      if i == 0 {
        PageSlotsCount(size, page);
        assert FreeIn(slots', page) == PageSlots(size, page);
      } else {
        assert MetaOk(size, [], pages[i - 1]);
        assert FreeIn(slots', pages[i - 1].page) == {} == FreeIn([], pages[i - 1].page);
      }
    }
    assert page !in PageSet(pages);
  }

  /** What the invariant says about the first free slot and about the page descriptors. */
  lemma CacheFacts(size: nat, marker: int, head: int, pages: seq<PageMeta>, slots: seq<nat>, used: set<nat>,
                   mem: seq<int>, marks: map<nat, int>)
    requires CacheInv(size, marker, head, pages, slots, used, mem, marks)
    ensures SlotSize(size) && DistinctPages(pages)
    ensures head == At(slots, 0)
    ensures slots != [] ==>
              && slots[0] / WORD < |mem| && mem[slots[0] / WORD] == At(slots, 1)
              && slots[0] !in used && slots[0] / PAGE_SIZE in PageSet(pages)
    ensures forall k :: 0 <= k < |pages| ==> pages[k].totalSlots >= 2 && (slots == [] ==> pages[k].freeCount == 0)
  {
    if slots != [] {
      assert SlotNode(mem, slots, 0);
      assert slots[0] in slots;
    }
    forall k | 0 <= k < |pages| ensures pages[k].totalSlots >= 2 && (slots == [] ==> pages[k].freeCount == 0) {
      assert MetaOk(size, slots, pages[k]);
      assert slots == [] ==> FreeIn(slots, pages[k].page) == {};
    }
  }

  lemma FirstSlotExists(size: nat, page: nat, slots: seq<nat>)
    requires SlotSize(size)
    requires forall s :: s in slots <==> SlotOf(size, page, s)
    ensures slots != []
    ensures forall s :: s in slots ==> s / PAGE_SIZE == page
  {
    PageOnSlot(size, page);
    assert SlotOf(size, page, page * PAGE_SIZE);
  }

  /** Apart from blocks that are no longer live, only link words of free slots differ. */
  ghost predicate OnlyLinksChanged(was: seq<int>, mem: seq<int>, live: map<nat, nat>, slots: seq<nat>, offset: nat) {
    && |mem| == |was|
    && forall w :: 0 <= w < |mem| && LivePage(live, w / PAGE_WORDS) && w * WORD !in slots && w * WORD != offset ==>
         mem[w] == was[w]
  }

  lemma UsedFacts(size: nat, marker: int, head: int, pages: seq<PageMeta>, slots: seq<nat>, used: set<nat>,
                  mem: seq<int>, marks: map<nat, int>, s: nat)
    requires CacheInv(size, marker, head, pages, slots, used, mem, marks)
    requires s in used || s in slots
    ensures SlotSize(size) && OnSlot(size, s)
    ensures s / PAGE_SIZE in PageSet(pages) && s / PAGE_SIZE in marks && marks[s / PAGE_SIZE] == marker
  {
  }

  lemma FullIff(size: nat, marker: int, head: int, pages: seq<PageMeta>, slots: seq<nat>, used: set<nat>,
                mem: seq<int>, marks: map<nat, int>, k: nat)
    requires CacheInv(size, marker, head, pages, slots, used, mem, marks) && k < |pages|
    ensures pages[k].freeCount <= pages[k].totalSlots
    ensures pages[k].freeCount == pages[k].totalSlots <==> forall s :: s in used ==> s / PAGE_SIZE != pages[k].page
  {
    assert MetaOk(size, slots, pages[k]);
    FullIffUnused(size, pages, slots, used, k);
  }

  ghost predicate LinksOnly(was: seq<int>, mem: seq<int>, slots: seq<nat>) {
    && |mem| == |was|
    && forall w :: 0 <= w < |mem| && w * WORD !in slots ==> mem[w] == was[w]
  }

  ghost predicate LinksOrDead(was: seq<int>, mem: seq<int>, live: map<nat, nat>, slots: seq<nat>) {
    && |mem| == |was|
    && forall w :: 0 <= w < |mem| && LivePage(live, w / PAGE_WORDS) && w * WORD !in slots ==> mem[w] == was[w]
  }

  lemma ChainAt(mem: seq<int>, head: int, l: seq<nat>, k: nat)
    requires Chained(mem, head, l) && Spread(l) && k < |l|
    ensures l[k] / WORD < |mem| && mem[l[k] / WORD] == At(l, k + 1)
    ensures l[k] % WORD == 0
  {
    assert SlotNode(mem, l, k);
  }

  lemma ShrinkFacts(size: nat, marker: int, head: int, pages: seq<PageMeta>, slots: seq<nat>, used: set<nat>,
                    mem: seq<int>, marks: map<nat, int>, k: nat)
    requires CacheInv(size, marker, head, pages, slots, used, mem, marks) && k < |pages|
    ensures Chained(mem, head, slots) && Spread(slots)
    ensures pages[k].page in marks
    ensures forall s :: s in slots ==> s / PAGE_SIZE in marks
  {
    assert pages[k].page in PageSet(pages);
  }

  lemma LiveWord(b: BuddyAllocator, page: nat, s: nat)
    requires b.Valid() && page in b.live && b.live[page] == 0 && s / PAGE_SIZE == page
    ensures s / WORD < b.mem.Length && (s / WORD) / PAGE_WORDS == page
    ensures LivePage(b.live, page)
  {
    LiveIsProper(b.pages, b.heads, b.live, page);
    assert Covers(Block(b.live[page], page), page);
  }

  class SlabCache {
    const objectSize: nat
    const marker: int
    const buddy: BuddyAllocator
    var freeList: int
    var pages: seq<PageMeta>
    ghost var slots: seq<nat>
    ghost var used: set<nat>

    ghost predicate Inv()
      reads this, buddy, buddy.mem, buddy.freeList, buddy.pageOrder
    {
      && buddy.Valid()
      && CacheInv(objectSize, marker, freeList, pages, slots, used, buddy.mem[..], buddy.marks)
    }

    ghost predicate Valid()
      reads this, buddy, buddy.mem, buddy.freeList, buddy.pageOrder
    {
      Inv() && pages != [] && Trimmed(pages)
    }

    /** The first half of slab_cache_init: an empty cache. */
    constructor (objectSize: nat, buddy: BuddyAllocator, marker: int)
      requires buddy.Valid() && SlotSize(objectSize)
      requires forall p :: p in buddy.marks ==> buddy.marks[p] != marker
      ensures this.objectSize == objectSize && this.buddy == buddy && this.marker == marker
      ensures Inv() && pages == [] && slots == [] && used == {}
    {
      this.objectSize, this.buddy, this.marker := objectSize, buddy, marker;
      freeList, pages := NULL, [];
      slots, used := [], {};
    }

    /** Find the descriptor of the page that holds a slot of this cache. */
    method FindPage(offset: nat) returns (k: nat)
      requires offset / PAGE_SIZE in PageSet(pages)
      ensures k < |pages| && pages[k].page == offset / PAGE_SIZE
    {
      k := 0;
      while k < |pages| && pages[k].page != offset / PAGE_SIZE
        invariant 0 <= k <= |pages|
        invariant forall i :: 0 <= i < k ==> pages[i].page != offset / PAGE_SIZE
      {
        k := k + 1;
      }
    }

    /** slab_alloc: hand out the first free slot, after growing when there is none. */
    method Alloc(mallocOk: bool) returns (r: int)
      requires Valid()
      modifies this`freeList, this`pages, this`slots, this`used
      modifies buddy.mem, buddy.freeList, buddy.pageOrder, buddy`lists, buddy`heads, buddy`live, buddy`marks
      ensures Valid()
      ensures r == FAILED <==> old(slots) == [] && !(mallocOk && CanHold(buddy.pages, old(buddy.live), PAGE_SIZE))
      ensures r == FAILED ==> used == old(used) && buddy.live == old(buddy.live) && buddy.marks == old(buddy.marks)
      ensures r != FAILED ==> r >= 0 && r !in old(used) && used == old(used) + {r}
      ensures old(slots) != [] ==> buddy.live == old(buddy.live) && buddy.marks == old(buddy.marks)
      ensures old(slots) == [] && r != FAILED ==>
                && r / PAGE_SIZE !in old(buddy.live)
                && buddy.live == old(buddy.live)[r / PAGE_SIZE := 0]
                && buddy.marks == old(buddy.marks)[r / PAGE_SIZE := marker]
      ensures Undisturbed(old(buddy.mem[..]), buddy.mem[..], old(buddy.live))
      ensures PagesUndisturbed(old(buddy.pageOrder[..]), buddy.pageOrder[..], old(buddy.live))
    {
      hide CacheInv, LivePage, WhollyFree, BuddyAllocator.Valid, SlotSize, SlotCount;
      CacheFacts(objectSize, marker, freeList, pages, slots, used, buddy.mem[..], buddy.marks);
      Untouched(buddy);
      if freeList == NULL {
        var ok := Grow(mallocOk);
        if !ok {
          return FAILED;
        }
        CacheFacts(objectSize, marker, freeList, pages, slots, used, buddy.mem[..], buddy.marks);
        FirstSlotExists(objectSize, pages[0].page, slots);
        assert slots[0] in slots;
        assert forall k :: 1 <= k < |pages| ==> pages[k] == old(pages)[k - 1];
      }
      r := Pop();
    }

    /** Take the first free slot off the list and count it out of its page. */
    method Pop() returns (offset: nat)
      requires Inv() && slots != []
      modifies this`freeList, this`pages, this`slots, this`used
      ensures Inv()
      ensures offset == old(slots[0]) && offset !in old(used) && used == old(used) + {offset}
      ensures |pages| == |old(pages)|
      ensures forall k :: 0 <= k < |pages| ==>
                && pages[k].totalSlots == old(pages)[k].totalSlots
                && pages[k].freeCount == old(pages)[k].freeCount -
                                         if old(pages)[k].page == offset / PAGE_SIZE then 1 else 0
    {
      hide CacheInv, BuddyAllocator.Valid, PageSet, SlotSize;
      CacheFacts(objectSize, marker, freeList, pages, slots, used, buddy.mem[..], buddy.marks);
      offset := freeList;
      freeList := buddy.mem[offset / WORD];
      var k := FindPage(offset);
      PopStep(objectSize, marker, offset, pages, slots, used, buddy.mem[..], buddy.marks, k);
      pages := pages[k := pages[k].(freeCount := pages[k].freeCount - 1)];
      slots, used := slots[1..], used + {offset};
    }

    /** slab_free: put the slot back; give its page back when it is unused and not the only page. */
    method Free(offset: nat)
      requires Valid() && offset in used
      modifies this`freeList, this`pages, this`slots, this`used
      modifies buddy.mem, buddy.freeList, buddy.pageOrder, buddy`lists, buddy`heads, buddy`live, buddy`marks
      ensures Valid()
      ensures used == old(used) - {offset}
      ensures var page := offset / PAGE_SIZE;
              if |old(pages)| > 1 && forall s :: s in used ==> s / PAGE_SIZE != page
              then buddy.live == old(buddy.live) - {page} && buddy.marks == old(buddy.marks) - {page}
              else buddy.live == old(buddy.live) && buddy.marks == old(buddy.marks)
      ensures OnlyLinksChanged(old(buddy.mem[..]), buddy.mem[..], buddy.live, old(slots), offset)
      ensures PagesUndisturbed(old(buddy.pageOrder[..]), buddy.pageOrder[..], buddy.live)
    {
      hide CacheInv, LivePage, BuddyAllocator.Valid, SlotSize, OnSlot;
      UsedFacts(objectSize, marker, freeList, pages, slots, used, buddy.mem[..], buddy.marks, offset);
      SlotOnWord(objectSize, offset);
      ArraysApart(buddy);
      var k := Push(offset);
      Settle(k);
    }

    /** Shrink when the k-th page is unused and not alone. */
    method Settle(k: nat)
      requires Inv() && k < |pages|
      requires |pages| > 1 ==> forall i :: 0 <= i < |pages| && i != k ==> pages[i].freeCount < pages[i].totalSlots
      modifies this`freeList, this`pages, this`slots
      modifies buddy.mem, buddy.freeList, buddy.pageOrder, buddy`lists, buddy`heads, buddy`live, buddy`marks
      ensures Valid()
      ensures var page := old(pages)[k].page;
              if |old(pages)| > 1 && forall s :: s in used ==> s / PAGE_SIZE != page
              then buddy.live == old(buddy.live) - {page} && buddy.marks == old(buddy.marks) - {page}
              else buddy.live == old(buddy.live) && buddy.marks == old(buddy.marks)
      ensures LinksOrDead(old(buddy.mem[..]), buddy.mem[..], buddy.live, old(slots))
      ensures PagesUndisturbed(old(buddy.pageOrder[..]), buddy.pageOrder[..], buddy.live)
    {
      hide CacheInv, LivePage, BuddyAllocator.Valid;
      var hasOther := HasOther(k);
      FullIff(objectSize, marker, freeList, pages, slots, used, buddy.mem[..], buddy.marks, k);
      if pages[k].freeCount == pages[k].totalSlots && hasOther {
        Shrink(k);
      }
    }

    /** Put a slot in front of the list and count it into its page. */
    method Push(offset: nat) returns (k: nat)
      requires Inv() && offset in used
      modifies this`freeList, this`pages, this`slots, this`used, buddy.mem
      ensures Inv()
      ensures slots == [offset] + old(slots) && used == old(used) - {offset}
      ensures k < |old(pages)| && old(pages)[k].page == offset / PAGE_SIZE
      ensures pages == old(pages)[k := old(pages)[k].(freeCount := old(pages)[k].freeCount + 1)]
      ensures offset / WORD < buddy.mem.Length
      ensures buddy.mem[..] == old(buddy.mem[..])[offset / WORD := old(freeList)]
    {
      hide CacheInv, SlotSize, OnSlot, Heap, BuddyAllocator.ListsOk;
      UsedFacts(objectSize, marker, freeList, pages, slots, used, buddy.mem[..], buddy.marks, offset);
      LiveWord(buddy, offset / PAGE_SIZE, offset);
      buddy.Store(offset / WORD, freeList);
      freeList := offset;
      k := FindPage(offset);
      PushStep(objectSize, marker, old(freeList), pages, slots, used, old(buddy.mem[..]), buddy.marks, offset, k);
      pages := pages[k := pages[k].(freeCount := pages[k].freeCount + 1)];
      slots, used := [offset] + slots, used - {offset};
    }

    /** Is there a page other than the k-th? */
    method HasOther(k: nat) returns (b: bool)
      requires k < |pages|
      ensures b <==> |pages| > 1
    {
      b := false;
      var i := 0;
      while i < |pages|
        invariant 0 <= i <= |pages|
        invariant b <==> i > 1 || (i == 1 && k != 0)
      {
        if i != k {
          b := true;
          break;
        }
        i := i + 1;
      }
    }

    /** Give an unused page back to the buddy allocator. */
    method Shrink(k: nat)
      requires Inv() && k < |pages| && pages[k].freeCount == pages[k].totalSlots
      modifies this`freeList, this`pages, this`slots
      modifies buddy.mem, buddy.freeList, buddy.pageOrder, buddy`lists, buddy`heads, buddy`live, buddy`marks
      ensures Inv()
      ensures pages == old(pages)[..k] + old(pages)[k + 1..]
      ensures buddy.live == old(buddy.live) - {old(pages)[k].page}
      ensures buddy.marks == old(buddy.marks) - {old(pages)[k].page}
      ensures LinksOrDead(old(buddy.mem[..]), buddy.mem[..], buddy.live, old(slots))
      ensures PagesUndisturbed(old(buddy.pageOrder[..]), buddy.pageOrder[..], buddy.live)
    {
      hide CacheInv, LivePage, Heap, BuddyAllocator.ListsOk;
      var page := pages[k].page;
      ShrinkFacts(objectSize, marker, freeList, pages, slots, used, buddy.mem[..], buddy.marks, k);
      ArraysApart(buddy);
      Purge(page);
      ShrinkStep(objectSize, marker, old(freeList), pages, old(slots), used, old(buddy.mem[..]), buddy.marks, k,
                 freeList, buddy.mem[..]);
      pages := pages[..k] + pages[k + 1..];
      buddy.Unmark(page);
      GiveBack(page);
    }

    /** Return an unmarked page; the words of the remaining slots stay. */
    method GiveBack(page: nat)
      requires Inv() && page in buddy.live && page !in buddy.marks
      modifies buddy.mem, buddy.freeList, buddy.pageOrder, buddy`lists, buddy`heads, buddy`live
      ensures Inv()
      ensures buddy.live == old(buddy.live) - {page} && !LivePage(buddy.live, page)
      ensures Undisturbed(old(buddy.mem[..]), buddy.mem[..], buddy.live)
      ensures PagesUndisturbed(old(buddy.pageOrder[..]), buddy.pageOrder[..], buddy.live)
    {
      hide CacheInv;
      NotLiveYet(buddy.pages, buddy.heads, buddy.live, page);
      buddy.Free(page * PAGE_SIZE);
      forall s | s in slots && s / WORD < buddy.mem.Length ensures buddy.mem[s / WORD] == old(buddy.mem[s / WORD]) {
        UsedFacts(objectSize, marker, freeList, pages, slots, used, old(buddy.mem[..]), buddy.marks, s);
        LiveWord(buddy, s / PAGE_SIZE, s);
      }
      CacheFrame(objectSize, marker, freeList, pages, slots, used, old(buddy.mem[..]), buddy.marks,
                 buddy.mem[..], buddy.marks);
    }

    /** Unlink the slots of one page from the list. */
    method Purge(page: nat)
      requires buddy.Valid()
      requires Chained(buddy.mem[..], freeList, slots) && Spread(slots)
      requires forall s :: s in slots ==> s / PAGE_SIZE in buddy.marks
      modifies this`freeList, this`slots, buddy.mem
      ensures buddy.Valid()
      ensures slots == Without(old(slots), page)
      ensures Chained(buddy.mem[..], freeList, slots) && Spread(slots)
      ensures LinksOnly(old(buddy.mem[..]), buddy.mem[..], old(slots))
    {
      hide Chained, Spread, BuddyAllocator.Valid, Without, Sweep, LinksOnly;
      ghost var all := slots;
      ghost var i: nat, kept: seq<nat> := 0, [];
      var prev, curr := NULL, freeList;
      SweepStart(buddy.mem[..], freeList, all, page);
      while curr != NULL
        invariant Sweep(all, i, kept, slots, page, prev, curr)
        invariant buddy.Valid() && Chained(buddy.mem[..], freeList, slots) && Spread(slots)
        invariant LinksOnly(old(buddy.mem[..]), buddy.mem[..], all)
        decreases |all| - i
      {
        SweepAt(all, i, kept, slots, page, prev, curr);
        ChainAt(buddy.mem[..], freeList, slots, |kept|);
        var next := buddy.mem[curr / WORD];
        if page * PAGE_SIZE <= curr < page * PAGE_SIZE + PAGE_SIZE {
          ghost var was, mem1 := slots, buddy.mem[..];
          UnlinkSlot(prev, next, |kept|);
          SweepDrop(all, i, kept, was, page, prev, curr);
          LinksOnlyMore(old(buddy.mem[..]), mem1, buddy.mem[..], was, all);
        } else {
          SweepKeep(all, i, kept, slots, page, prev, curr);
          prev, kept := curr, kept + [all[i]];
        }
        curr, i := next, i + 1;
      }
      SweepDone(all, i, kept, slots, page, prev);
    }

    /** fprev->next = fnext, or free_list = fnext at the front. */
    method UnlinkSlot(prev: int, next: int, ghost j: nat)
      requires buddy.Valid()
      requires Chained(buddy.mem[..], freeList, slots) && Spread(slots)
      requires forall s :: s in slots ==> s / PAGE_SIZE in buddy.marks
      requires j < |slots| && prev == At(slots, j - 1) && next == At(slots, j + 1)
      modifies this`freeList, this`slots, buddy.mem
      ensures buddy.Valid()
      ensures slots == old(slots)[..j] + old(slots)[j + 1..]
      ensures forall s :: s in slots ==> s in old(slots)
      ensures Chained(buddy.mem[..], freeList, slots) && Spread(slots)
      ensures LinksOnly(old(buddy.mem[..]), buddy.mem[..], old(slots))
    {
      hide Chained, Spread, Heap, BuddyAllocator.ListsOk;
      if prev != NULL {
        ChainAt(buddy.mem[..], freeList, slots, j - 1);
        ChainUnlink(buddy.mem[..], freeList, slots, j);
        LiveWord(buddy, prev / PAGE_SIZE, prev);
        buddy.Store(prev / WORD, next);
      } else {
        ChainUnlink(buddy.mem[..], freeList, slots, j);
        freeList := next;
      }
      slots := slots[..j] + slots[j + 1..];
    }

    /** slab_grow: get a page and put all its slots on the list. */
    method Grow(mallocOk: bool) returns (ok: bool)
      requires Inv() && slots == []
      modifies this`freeList, this`pages, this`slots
      modifies buddy.mem, buddy.freeList, buddy.pageOrder, buddy`lists, buddy`heads, buddy`live, buddy`marks
      ensures Inv()
      ensures ok <==> mallocOk && CanHold(buddy.pages, old(buddy.live), PAGE_SIZE)
      ensures !ok ==> buddy.live == old(buddy.live) && buddy.marks == old(buddy.marks)
      ensures !ok ==> pages == old(pages) && slots == old(slots)
      ensures SlotSize(objectSize)
      ensures ok ==>
                && |pages| == |old(pages)| + 1
                && pages == [PageMeta(pages[0].page, SlotCount(objectSize), SlotCount(objectSize))] + old(pages)
                && pages[0].page !in old(buddy.live)
                && buddy.live == old(buddy.live)[pages[0].page := 0]
                && buddy.marks == old(buddy.marks)[pages[0].page := marker]
                && (forall s :: s in slots <==> SlotOf(objectSize, pages[0].page, s))
      ensures ok ==> |pages| > 0 && BestFit(old(buddy.heads), 0, pages[0].page)
      ensures Undisturbed(old(buddy.mem[..]), buddy.mem[..], old(buddy.live))
      ensures PagesUndisturbed(old(buddy.pageOrder[..]), buddy.pageOrder[..], old(buddy.live))
    {
      hide CacheInv, LivePage, WhollyFree, Heap, BuddyAllocator.ListsOk, SlotSize, BestFit;
      CacheFacts(objectSize, marker, freeList, pages, slots, used, buddy.mem[..], buddy.marks);
      var page := NewPage(mallocOk);
      ok := page != FAILED;
      if ok {
        Adopt(page);
      }
    }

    /** Get a page from the buddy allocator, and give it back when its descriptor cannot be allocated. */
    method NewPage(mallocOk: bool) returns (page: int)
      requires Inv() && slots == []
      modifies buddy.mem, buddy.freeList, buddy.pageOrder, buddy`lists, buddy`heads, buddy`live
      ensures Inv()
      ensures page != FAILED <==> mallocOk && CanHold(buddy.pages, old(buddy.live), PAGE_SIZE)
      ensures page == FAILED ==> buddy.live == old(buddy.live)
      ensures page != FAILED ==>
                && page >= 0 && page !in old(buddy.live) && !LivePage(old(buddy.live), page)
                && buddy.live == old(buddy.live)[page := 0] && BestFit(old(buddy.heads), 0, page)
      ensures Undisturbed(old(buddy.mem[..]), buddy.mem[..], old(buddy.live))
      ensures PagesUndisturbed(old(buddy.pageOrder[..]), buddy.pageOrder[..], old(buddy.live))
    {
      hide CacheInv, LivePage, WhollyFree, Heap, BuddyAllocator.ListsOk, BestFit;
      var offset := buddy.Alloc(PAGE_SIZE);
      page := FAILED;
      if offset != FAILED {
        page := offset / PAGE_SIZE;
        NotLiveYet(buddy.pages, buddy.heads, buddy.live, page);
        assert buddy.live - {page} == old(buddy.live);
        if !mallocOk {
          buddy.Free(offset);
          page := FAILED;
        }
      }
      CacheFrame(objectSize, marker, freeList, pages, slots, used, old(buddy.mem[..]), buddy.marks,
                 buddy.mem[..], buddy.marks);
    }

    /** Take a page in hand into the cache. */
    method Adopt(page: nat)
      requires Inv() && slots == []
      requires page in buddy.live && buddy.live[page] == 0 && page !in buddy.marks
      modifies this`freeList, this`pages, this`slots, buddy.mem, buddy.pageOrder, buddy`marks
      ensures Inv() && SlotSize(objectSize)
      ensures pages == [PageMeta(page, SlotCount(objectSize), SlotCount(objectSize))] + old(pages)
      ensures buddy.marks == old(buddy.marks)[page := marker]
      ensures forall s :: s in slots <==> SlotOf(objectSize, page, s)
      ensures OnlyPageChanged(old(buddy.mem[..]), buddy.mem[..], page)
      ensures buddy.pageOrder[..] == old(buddy.pageOrder[..])[page := marker]
    {
      hide CacheInv, Heap, BuddyAllocator.ListsOk, SlotSize;
      CacheFacts(objectSize, marker, freeList, pages, slots, used, buddy.mem[..], buddy.marks);
      ArraysApart(buddy);
      buddy.Mark(page, marker);
      pages := [PageMeta(page, SlotCount(objectSize), SlotCount(objectSize))] + pages;
      FillPage(page);
      GrowStep(objectSize, marker, old(freeList), old(pages), used, old(buddy.mem[..]), old(buddy.marks), page,
               slots, freeList, buddy.mem[..]);
    }

    /** Put all slots of a new page on the list. */
    method FillPage(page: nat)
      requires buddy.Valid() && SlotSize(objectSize)
      requires page in buddy.live && buddy.live[page] == 0
      requires slots == [] && freeList == NULL
      modifies this`freeList, this`slots, buddy.mem
      ensures buddy.Valid()
      ensures Chained(buddy.mem[..], freeList, slots) && Spread(slots)
      ensures forall s :: s in slots <==> SlotOf(objectSize, page, s)
      ensures OnlyPageChanged(old(buddy.mem[..]), buddy.mem[..], page)
    {
      hide Chained, Spread, OnSlot, BuddyAllocator.Valid, SlotSize, SlotCount;
      var cnt := SlotCount(objectSize);
      var base := page * PAGE_SIZE;
      EmptyChain(buddy.mem[..]);
      var i := 0;
      ghost var next := base;
      while i < cnt
        invariant 0 <= i <= cnt
        invariant buddy.Valid()
        invariant Chained(buddy.mem[..], freeList, slots) && Spread(slots)
        invariant next == base + i * objectSize
        invariant forall s :: s in slots <==> base <= s < next && OnSlot(objectSize, s)
        invariant OnlyPageChanged(old(buddy.mem[..]), buddy.mem[..], page)
      {
        var s := base + i * objectSize;
        SlotAddress(objectSize, page, i);
        NextSlot(objectSize, s);
        SlotOnWord(objectSize, s);
        LiveWord(buddy, page, s);
        ChainPush(buddy.mem[..], freeList, slots, s);
        buddy.Store(s / WORD, freeList);
        freeList := s;
        slots := [s] + slots;
        i, next := i + 1, s + objectSize;
      }
    }
  }
}
