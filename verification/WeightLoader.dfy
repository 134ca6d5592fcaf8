/** Loading the model weights: eight regions of device memory, the addresses of all tensors inside them,
    and the undoing of everything when a step fails. */
module WeightLoader {
  import opened Blocks
  import opened Buddy
  import opened Slab
  import opened Bytes
  import opened Gpu

  const WL_NUM_LAYERS: nat := 24
  const LAYERS_PER_REGION: nat := 4
  const NUM_REGIONS: nat := 8
  const WL_LAYER_BYTES: nat := 59649536
  const WL_EMBEDDING_BYTES: nat := 151936 * 896 * 4
  const WL_LM_HEAD_BYTES: nat := 896 * 151936 * 4
  const WL_FINAL_NORM_BYTES: nat := 896 * 4
  const WL_TENSOR_COUNT: nat := 12

  /** The bytes of each region. */
  function PlanBytes(r: nat): nat
    requires r < NUM_REGIONS
  {
    if r == 0 then WL_EMBEDDING_BYTES
    else if r == 1 then WL_LM_HEAD_BYTES
    else if r == 2 then WL_FINAL_NORM_BYTES + LAYERS_PER_REGION * WL_LAYER_BYTES
    else LAYERS_PER_REGION * WL_LAYER_BYTES
  }

  // ---------------------------------------------------------------------------------------------
  // The weight files, in loading order: embedding, lm_head, final_norm and the layers.

  const NUM_FILES: nat := 27

  function FileBytes(f: nat): (r: nat)
    requires f < NUM_FILES
    ensures r % WORD == 0 && r > 0
  {
    if f == 0 then WL_EMBEDDING_BYTES
    else if f == 1 then WL_LM_HEAD_BYTES
    else if f == 2 then WL_FINAL_NORM_BYTES
    else WL_LAYER_BYTES
  }

  /** The region a file goes to, and its place there. */
  function FileRegion(f: nat): (r: nat)
    requires f < NUM_FILES
    ensures r < NUM_REGIONS
  {
    if f < 3 then f else 2 + (f - 3) / LAYERS_PER_REGION
  }

  function FileOffset(f: nat): (r: nat)
    requires f < NUM_FILES
    ensures r % WORD == 0
  {
    if f < 3 then 0
    else (f - 3) % LAYERS_PER_REGION * WL_LAYER_BYTES + if f < 3 + LAYERS_PER_REGION then WL_FINAL_NORM_BYTES else 0
  }

  /** Files of the same region follow one another inside the region. */
  lemma FilesApartInRegion(f: nat, g: nat)
    requires f < g < NUM_FILES && FileRegion(f) == FileRegion(g)
    ensures FileOffset(f) + FileBytes(f) <= FileOffset(g)
  {
  }

  lemma FileFitsRegion(f: nat)
    requires f < NUM_FILES
    ensures FileOffset(f) + FileBytes(f) <= PlanBytes(FileRegion(f))
  {
  }

  /** The files of a region follow one another without a gap and fill it. */
  lemma PlanIsExact(f: nat)
    requires f < NUM_FILES
    ensures f == 0 || FileRegion(f - 1) != FileRegion(f) ==> FileOffset(f) == 0
    ensures f + 1 < NUM_FILES && FileRegion(f + 1) == FileRegion(f) ==> FileOffset(f) + FileBytes(f) == FileOffset(f + 1)
    ensures f + 1 == NUM_FILES || FileRegion(f + 1) != FileRegion(f) ==> FileOffset(f) + FileBytes(f) == PlanBytes(FileRegion(f))
    ensures f + 1 < NUM_FILES ==> FileRegion(f) <= FileRegion(f + 1) <= FileRegion(f) + 1
  {
  }

  // ---------------------------------------------------------------------------------------------
  // The tensors of one layer: byte offset and number of floats.

  function TensorOffset(t: nat): nat
    requires t < WL_TENSOR_COUNT
  {
    [0, 3584, 3214848, 3218432, 3677184, 3677696, 4136448, 4136960, 7348224, 7351808, 24784384, 42216960][t]
  }

  function TensorFloats(t: nat): nat
    requires t < WL_TENSOR_COUNT
  {
    [896, 896 * 896, 896, 896 * 128, 128, 896 * 128, 128, 896 * 896, 896, 896 * 4864, 896 * 4864, 4864 * 896][t]
  }

  /** The tensors of a layer follow one another without a gap and fill the layer. */
  lemma {:induction false} TensorsFollow(t: nat, u: nat)
    requires t < u <= WL_TENSOR_COUNT
    ensures TensorOffset(t) + TensorFloats(t) * 4 <= if u < WL_TENSOR_COUNT then TensorOffset(u) else WL_LAYER_BYTES
    ensures u == t + 1 ==>
              TensorOffset(t) + TensorFloats(t) * 4 == if u < WL_TENSOR_COUNT then TensorOffset(u) else WL_LAYER_BYTES
    decreases u
  {
    if u > t + 1 {
      TensorsFollow(t, u - 1);
    }
  }

  // ---------------------------------------------------------------------------------------------
  // Regions held so far.

  /** `live` is `live0` plus the blocks of the regions from `f` on; `blocks` lists their first pages and orders. */
  ghost predicate Holding(live: map<nat, nat>, live0: map<nat, nat>, blocks: seq<Block>, f: nat) {
    && f <= |blocks|
    && (forall j :: f <= j < |blocks| ==> blocks[j].page !in live0 && blocks[j].page in live && live[blocks[j].page] == blocks[j].order)
    && (forall i, j :: 0 <= i < j < |blocks| ==> blocks[i].page != blocks[j].page)
    && (forall p :: p in live0 ==> p in live && live[p] == live0[p])
    && forall p :: p in live && p !in live0 ==> HasPage(blocks, f, p)
  }

  ghost predicate HasPage(blocks: seq<Block>, f: nat, p: nat) {
    exists j :: f <= j < |blocks| && blocks[j].page == p
  }

  lemma HoldingNone(live: map<nat, nat>, live0: map<nat, nat>, blocks: seq<Block>)
    requires Holding(live, live0, blocks, |blocks|)
    ensures live == live0
  {
  }

  lemma HoldOne(live: map<nat, nat>, live0: map<nat, nat>, blocks: seq<Block>, b: Block)
    requires Holding(live, live0, blocks, 0) && b.page !in live
    ensures Holding(live[b.page := b.order], live0, blocks + [b], 0)
  {
    var live', blocks' := live[b.page := b.order], blocks + [b];
    forall p | p in live' && p !in live0 ensures HasPage(blocks', 0, p) {
      if p == b.page {
        assert blocks'[|blocks|].page == p;
      } else {
        assert HasPage(blocks, 0, p);
        var j :| 0 <= j < |blocks| && blocks[j].page == p;
        assert blocks'[j].page == p;
      }
    }
  }

  lemma DropOne(live: map<nat, nat>, live0: map<nat, nat>, blocks: seq<Block>, f: nat)
    requires Holding(live, live0, blocks, f) && f < |blocks|
    ensures Holding(live - {blocks[f].page}, live0, blocks, f + 1)
  {
    var live' := live - {blocks[f].page};
    forall p | p in live' && p !in live0 ensures HasPage(blocks, f + 1, p) {
      assert HasPage(blocks, f, p);
    }
  }

  /** The regions are allocated blocks that hold their plan, and the cells of regionBase name them. */
  ghost predicate Bases(bases: seq<int>, blocks: seq<Block>) {
    && |bases| == NUM_REGIONS && |blocks| <= NUM_REGIONS
    && (forall j :: 0 <= j < |blocks| ==> bases[j] == blocks[j].page * PAGE_SIZE && Pow2(blocks[j].order) * PAGE_SIZE >= PlanBytes(j))
    && forall j :: |blocks| <= j < NUM_REGIONS ==> bases[j] == FAILED
  }

  ghost predicate Includes(allocs: map<nat, nat>, allocs0: map<nat, nat>) {
    forall o :: o in allocs0 ==> o in allocs && allocs[o] == allocs0[o]
  }

  lemma KeptStep(mem0: seq<int>, mem1: seq<int>, mem2: seq<int>, allocs: map<nat, nat>, allocs0: map<nat, nat>)
    requires Kept(mem0, mem1, allocs0) && Kept(mem1, mem2, allocs) && Includes(allocs, allocs0)
    ensures Kept(mem0, mem2, allocs0)
  {
  }

  // ---------------------------------------------------------------------------------------------
  // How much must be free.

  /** The embedding and the head need blocks of order 18, the other six regions blocks of order 16. */
  const LARGE: nat := 18
  const SMALL: nat := 16

  lemma Pow2Values()
    ensures Pow2(0) == 1 && Pow2(1) == 2 && Pow2(2) == 4 && Pow2(3) == 8 && Pow2(15) == 32768 && Pow2(17) == 131072
    ensures Pow2(SMALL) == 65536 && Pow2(LARGE) == 262144
  {
    assert Pow2(5) == 32;
    assert Pow2(10) == 1024;
    assert Pow2(15) == 32768;
  }

  lemma PlanOrder(r: nat)
    requires r < NUM_REGIONS
    ensures OrderFrom(PlanBytes(r), 0) == if r < 2 then LARGE else SMALL
  {
    hide Pow2, OrderFrom;
    Pow2Values();
    var order, enough := OrderFrom(PlanBytes(r), 0), if r < 2 then LARGE else SMALL;
    if order < enough {
      Pow2Monotone(order, enough - 1);
    }
  }

  /** Two wholly free blocks of order 18, and fourteen of order 16 counting those inside larger ones. */
  ghost predicate Roomy(pages: nat, live: map<nat, nat>) {
    |FreeBlocks(pages, live, LARGE)| >= 2 && |FreeBlocks(pages, live, SMALL)| >= 14
  }

  /** What is left once the first `r` regions have been taken, wherever they were taken. */
  ghost predicate Drawn(pages: nat, live0: map<nat, nat>, live: map<nat, nat>, r: nat) {
    && |FreeBlocks(pages, live, SMALL)| + (if r <= 2 then 4 * r else 6 + r) == |FreeBlocks(pages, live0, SMALL)|
    && (r <= 2 ==> |FreeBlocks(pages, live, LARGE)| + r == |FreeBlocks(pages, live0, LARGE)|)
    && (r >= 2 ==> |FreeBlocks(pages, live0, LARGE)| >= 2)
  }

  lemma DrawOne(pages: nat, live0: map<nat, nat>, live: map<nat, nat>, heads: map<nat, nat>, r: nat, page: nat)
    requires r < NUM_REGIONS && Drawn(pages, live0, live, r) && page !in live
    requires Heap(pages, heads, live[page := OrderFrom(PlanBytes(r), 0)])
    ensures Drawn(pages, live0, live[page := OrderFrom(PlanBytes(r), 0)], r + 1)
  {
    hide WhollyFree, Heap, Pow2, OrderFrom, PlanBytes, FreeBlocks;
    PlanOrder(r);
    Pow2Values();
    var b := Block(OrderFrom(PlanBytes(r), 0), page);
    NewWasFree(pages, heads, live, page, b.order);
    TakeCounts(pages, live, SMALL, b);
    if r < 2 {
      TakeCounts(pages, live, LARGE, b);
    }
  }

  /** An untouched 4 GiB with a few single pages taken at its start has room for all regions, and a block of order 16 more. */
  lemma FreshIsRoomy(live: map<nat, nat>)
    requires Clustered(live)
    ensures Roomy(BUDDY_TOTAL_PAGES, live) && |FreeBlocks(BUDDY_TOTAL_PAGES, live, SMALL)| >= 15
  {
    hide FreeBlocks, Inside, WhollyFree, Pow2;
    Pow2Values();
    Pow2Top();
    var a := UpperPart(live, 19, SMALL);
    var b := UpperPart(live, 18, SMALL);
    var c := UpperPart(live, 17, SMALL);
    var d := UpperPart(live, 16, SMALL);
    var all := FreeBlocks(BUDDY_TOTAL_PAGES, live, SMALL);
    assert a !! b && a !! c && a !! d && b !! c && b !! d && c !! d;
    assert |a + b + c + d| == |a| + |b| + |c| + |d|;
    SubsetCard(a + b + c + d, all);
    var e := UpperPart(live, 19, LARGE);
    SubsetCard(e, FreeBlocks(BUDDY_TOTAL_PAGES, live, LARGE));
  }

  /** The upper half of the block of order k + 1 at the start is wholly free. */
  lemma UpperPart(live: map<nat, nat>, k: nat, order: nat) returns (r: set<nat>)
    requires Clustered(live) && 3 <= order <= k < BUDDY_MAX_ORDER - 1
    ensures r <= FreeBlocks(BUDDY_TOTAL_PAGES, live, order) && |r| == Pow2(k - order)
    ensures forall p :: p in r ==> Pow2(k) <= p < Pow2(k + 1)
  {
    hide FreeBlocks, Inside;
    var b := Block(k, Pow2(k));
    ZeroAligned(k);
    AlignedStep(0, k);
    Pow2Top();
    Pow2Monotone(k + 1, BUDDY_MAX_ORDER - 1);
    Pow2Monotone(3, k);
    assert Pow2(3) == 8 && Pow2(0) == 1;
    assert WhollyFree(BUDDY_TOTAL_PAGES, live, b);
    r := Inside(order, b);
    forall p | p in r ensures p in FreeBlocks(BUDDY_TOTAL_PAGES, live, order) {
      InsideIsFree(BUDDY_TOTAL_PAGES, live, order, b, p);
    }
    InsideCount(order, b);
  }

  lemma Drained(pages: nat, live0: map<nat, nat>, live: map<nat, nat>, r: nat)
    requires r < NUM_REGIONS && Drawn(pages, live0, live, r) && !CanHold(pages, live, PlanBytes(r))
    ensures !Roomy(pages, live0)
  {
    hide CanHold, OrderFrom, PlanBytes, FreeBlocks;
    PlanOrder(r);
    HoldsIffCounted(pages, live, PlanBytes(r));
  }

  class Loader {
    const ctx: GpuContext
    var regionBase: seq<int>
    var embeddingAddr: int
    var lmHeadAddr: int
    var finalNormAddr: int
    var layerBase: seq<int>
    ghost var blocks: seq<Block>

    constructor (ctx: GpuContext)
      ensures this.ctx == ctx && Bases(regionBase, blocks) && blocks == []
    {
      this.ctx := ctx;
      regionBase := seq(NUM_REGIONS, _ => FAILED);
      embeddingAddr, lmHeadAddr, finalNormAddr := 0, 0, 0;
      layerBase := seq(WL_NUM_LAYERS, _ => 0);
      blocks := [];
    }

    /** What the loader holds, from region `f` on, on top of an earlier state of the context. */
    ghost predicate Holds(f: nat, live0: map<nat, nat>, allocs0: map<nat, nat>, marks0: map<nat, int>, used0: seq<set<nat>>)
      reads this, ctx, ctx.buddy, ctx.buddy.mem, ctx.buddy.freeList, ctx.buddy.pageOrder, ctx.slabs
    {
      && ctx.Valid()
      && Bases(regionBase, blocks)
      && Holding(ctx.buddy.live, live0, blocks, f)
      && ctx.buddy.marks == marks0 && ctx.Used() == used0
      && (forall p :: p in marks0 ==> p in live0)
      && Ledger(allocs0, used0, live0, marks0)
      && Includes(ctx.allocs, allocs0)
    }

    /** Step 4: one allocation per region, until one fails. */
    method AllocRegions() returns (ok: bool)
      requires ctx.Valid() && Bases(regionBase, blocks) && blocks == []
      modifies this, ctx, ctx.slabs, ctx.buddy, ctx.buddy.mem, ctx.buddy.freeList, ctx.buddy.pageOrder
      ensures Holds(0, old(ctx.buddy.live), old(ctx.allocs), old(ctx.buddy.marks), old(ctx.Used()))
      ensures ok <==> |blocks| == NUM_REGIONS
      ensures ok <==> Roomy(ctx.buddy.pages, old(ctx.buddy.live))
      ensures Drawn(ctx.buddy.pages, old(ctx.buddy.live), ctx.buddy.live, |blocks|)
      ensures Kept(old(ctx.buddy.mem[..]), ctx.buddy.mem[..], old(ctx.allocs))
    {
      hide GpuContext.Valid, FreeBlocks, Kept, Holds, Bases, PlanBytes;
      ContextIsWired(ctx);
      Start();
      var r := 0;
      while r < NUM_REGIONS
        invariant 0 <= r <= NUM_REGIONS && |blocks| == r
        invariant Drawn(ctx.buddy.pages, old(ctx.buddy.live), ctx.buddy.live, r)
        invariant Holds(0, old(ctx.buddy.live), old(ctx.allocs), old(ctx.buddy.marks), old(ctx.Used()))
        invariant Kept(old(ctx.buddy.mem[..]), ctx.buddy.mem[..], old(ctx.allocs))
      {
        ok := AllocRegion(r, old(ctx.buddy.live), old(ctx.allocs), old(ctx.buddy.marks), old(ctx.Used()), old(ctx.buddy.mem[..]));
        if !ok {
          return;
        }
        r := r + 1;
      }
      ok := true;
    }

    method AllocRegion(r: nat, ghost live0: map<nat, nat>, ghost allocs0: map<nat, nat>, ghost marks0: map<nat, int>,
                       ghost used0: seq<set<nat>>, ghost mem0: seq<int>) returns (ok: bool)
      requires Holds(0, live0, allocs0, marks0, used0) && |blocks| == r < NUM_REGIONS
      requires Drawn(ctx.buddy.pages, live0, ctx.buddy.live, r)
      requires Kept(mem0, ctx.buddy.mem[..], allocs0)
      modifies this, ctx, ctx.slabs, ctx.buddy, ctx.buddy.mem, ctx.buddy.freeList, ctx.buddy.pageOrder
      ensures Holds(0, live0, allocs0, marks0, used0)
      ensures |blocks| == if ok then r + 1 else r
      ensures Drawn(ctx.buddy.pages, live0, ctx.buddy.live, |blocks|) && (!ok ==> !Roomy(ctx.buddy.pages, live0))
      ensures Kept(mem0, ctx.buddy.mem[..], allocs0)
    {
      hide GpuContext.CachesValid, Ledger, OrderFrom, Holding, Kept, Drawn, CanHold, Roomy, Pow2;
      var base := ctx.Malloc(PlanBytes(r), true);
      KeptStep(mem0, old(ctx.buddy.mem[..]), ctx.buddy.mem[..], old(ctx.allocs), allocs0);
      ok := base != FAILED;
      if ok {
        ghost var b := Block(OrderFrom(PlanBytes(r), 0), base / PAGE_SIZE);
        ContextFacts(ctx);
        DrawOne(ctx.buddy.pages, live0, old(ctx.buddy.live), ctx.buddy.heads, r, b.page);
        HoldOne(old(ctx.buddy.live), live0, blocks, b);
        regionBase := regionBase[r := base];
        blocks := blocks + [b];
      } else {
        Drained(ctx.buddy.pages, live0, ctx.buddy.live, r);
      }
    }

    lemma Start()
      requires ctx.Valid() && Bases(regionBase, blocks) && blocks == []
      ensures Holds(0, ctx.buddy.live, ctx.allocs, ctx.buddy.marks, ctx.Used())
      ensures Drawn(ctx.buddy.pages, ctx.buddy.live, ctx.buddy.live, 0)
      ensures Kept(ctx.buddy.mem[..], ctx.buddy.mem[..], ctx.allocs)
    {
      hide FreeBlocks;
    }

    /** Step 5: the address of every tensor file, computed with a running cursor. */
    method ComputeAddresses()
      requires Bases(regionBase, blocks) && |blocks| == NUM_REGIONS
      modifies `embeddingAddr, `lmHeadAddr, `finalNormAddr, `layerBase
      ensures |layerBase| == WL_NUM_LAYERS
      ensures forall f :: 0 <= f < NUM_FILES ==> FileAddr(f) == regionBase[FileRegion(f)] + FileOffset(f)
    {
      embeddingAddr := regionBase[0];
      lmHeadAddr := regionBase[1];
      var cursor := regionBase[2];
      finalNormAddr := cursor;
      cursor := cursor + WL_FINAL_NORM_BYTES;
      layerBase := seq(WL_NUM_LAYERS, _ => 0);
      for i := 0 to LAYERS_PER_REGION
        invariant |layerBase| == WL_NUM_LAYERS && GlobalsSet()
        invariant cursor == regionBase[2] + WL_FINAL_NORM_BYTES + i * WL_LAYER_BYTES
        invariant forall l :: 0 <= l < i ==> layerBase[l] == regionBase[FileRegion(l + 3)] + FileOffset(l + 3)
      {
        layerBase := layerBase[i := cursor];
        cursor := cursor + WL_LAYER_BYTES;
      }
      for r := 3 to NUM_REGIONS
        invariant |layerBase| == WL_NUM_LAYERS && GlobalsSet()
        invariant forall l :: 0 <= l < (r - 2) * LAYERS_PER_REGION ==>
                    layerBase[l] == regionBase[FileRegion(l + 3)] + FileOffset(l + 3)
      {
        cursor := regionBase[r];
        var layerStart := (r - 2) * LAYERS_PER_REGION;
        for i := 0 to LAYERS_PER_REGION
          invariant |layerBase| == WL_NUM_LAYERS && GlobalsSet()
          invariant cursor == regionBase[r] + i * WL_LAYER_BYTES
          invariant forall l :: 0 <= l < layerStart + i ==>
                      layerBase[l] == regionBase[FileRegion(l + 3)] + FileOffset(l + 3)
        {
          layerBase := layerBase[layerStart + i := cursor];
          cursor := cursor + WL_LAYER_BYTES;
        }
      }
      forall f | 0 <= f < NUM_FILES ensures FileAddr(f) == regionBase[FileRegion(f)] + FileOffset(f) {
        if f >= 3 {
          var l := f - 3;
          assert layerBase[l] == regionBase[FileRegion(l + 3)] + FileOffset(l + 3);
        }
      }
    }

    /** Every file is stored at its address inside the regions held. */
    ghost predicate Loaded(files: seq<seq<byte>>, live0: map<nat, nat>, allocs0: map<nat, nat>, marks0: map<nat, int>,
                           used0: seq<set<nat>>)
      reads this, ctx, ctx.buddy, ctx.buddy.mem, ctx.buddy.freeList, ctx.buddy.pageOrder, ctx.slabs
    {
      && Holds(0, live0, allocs0, marks0, used0) && |blocks| == NUM_REGIONS
      && |layerBase| == WL_NUM_LAYERS && |files| == NUM_FILES
      && forall f :: 0 <= f < NUM_FILES ==>
           && |files[f]| == FileBytes(f)
           && FileAddr(f) == regionBase[FileRegion(f)] + FileOffset(f)
           && StoredAt(ctx.buddy.mem[..], FileAddr(f), files[f])
    }

    ghost function TensorAddr(layer: nat, t: nat): int
      requires layer < WL_NUM_LAYERS && t < WL_TENSOR_COUNT && |layerBase| == WL_NUM_LAYERS
      reads this
    {
      FileAddr(layer + 3) + TensorOffset(t)
    }

    ghost predicate GlobalsSet()
      reads this
    {
      |regionBase| == NUM_REGIONS && embeddingAddr == regionBase[0] && lmHeadAddr == regionBase[1] && finalNormAddr == regionBase[2]
    }

    function FileAddr(f: nat): int
      requires f < NUM_FILES && |layerBase| == WL_NUM_LAYERS
      reads this
    {
      if f == 0 then embeddingAddr else if f == 1 then lmHeadAddr else if f == 2 then finalNormAddr else layerBase[f - 3]
    }

    /** The failure path: free every region that was allocated. */
    method ReleaseRegions(ghost live0: map<nat, nat>, ghost allocs0: map<nat, nat>, ghost marks0: map<nat, int>,
                          ghost used0: seq<set<nat>>, ghost mem0: seq<int>)
      requires Holds(0, live0, allocs0, marks0, used0) && Kept(mem0, ctx.buddy.mem[..], allocs0)
      modifies ctx, ctx.slabs, ctx.buddy, ctx.buddy.mem, ctx.buddy.freeList, ctx.buddy.pageOrder
      ensures ctx.Valid() && ctx.buddy.live == live0 && ctx.allocs == allocs0
      ensures Kept(mem0, ctx.buddy.mem[..], allocs0)
    {
      hide GpuContext.CachesValid, Ledger, Kept, Holding;
      for r := 0 to NUM_REGIONS
        invariant Holds(if r < |blocks| then r else |blocks|, live0, allocs0, marks0, used0)
        invariant Kept(mem0, ctx.buddy.mem[..], allocs0)
      {
        if regionBase[r] != FAILED {
          ReleaseRegion(r, live0, allocs0, marks0, used0, mem0);
        }
      }
      HoldingNone(ctx.buddy.live, live0, blocks);
      LedgerIsDetermined(ctx.allocs, allocs0, used0, live0, marks0);
    }

    method ReleaseRegion(r: nat, ghost live0: map<nat, nat>, ghost allocs0: map<nat, nat>, ghost marks0: map<nat, int>,
                         ghost used0: seq<set<nat>>, ghost mem0: seq<int>)
      requires r < |blocks| && Holds(r, live0, allocs0, marks0, used0) && Kept(mem0, ctx.buddy.mem[..], allocs0)
      modifies ctx, ctx.slabs, ctx.buddy, ctx.buddy.mem, ctx.buddy.freeList, ctx.buddy.pageOrder
      ensures Holds(r + 1, live0, allocs0, marks0, used0)
      ensures Kept(mem0, ctx.buddy.mem[..], allocs0)
    {
      hide GpuContext.CachesValid, Kept, Ledger, Holding, PlanBytes, IsBlock;
      HeldIsAllocated(ctx.buddy.live, live0, blocks, r, r, ctx.allocs, allocs0, used0, marks0);
      DropOne(ctx.buddy.live, live0, blocks, r);
      ctx.Free(regionBase[r]);
      KeptStep(mem0, old(ctx.buddy.mem[..]), ctx.buddy.mem[..], ctx.allocs, allocs0);
    }

    /** Step 6: copy every file to its address; stop at the first that cannot be read. */
    method LoadFiles(files: seq<seq<byte>>, readOk: seq<bool>, ghost live0: map<nat, nat>, ghost allocs0: map<nat, nat>,
                     ghost marks0: map<nat, int>, ghost used0: seq<set<nat>>, ghost mem0: seq<int>) returns (ok: bool)
      requires Holds(0, live0, allocs0, marks0, used0) && |blocks| == NUM_REGIONS
      requires Kept(mem0, ctx.buddy.mem[..], allocs0)
      requires |files| == |readOk| == NUM_FILES && forall f :: 0 <= f < NUM_FILES ==> |files[f]| == FileBytes(f)
      requires |layerBase| == WL_NUM_LAYERS
      requires forall f :: 0 <= f < NUM_FILES ==> FileAddr(f) == regionBase[FileRegion(f)] + FileOffset(f)
      modifies ctx.buddy.mem
      ensures Holds(0, live0, allocs0, marks0, used0)
      ensures Kept(mem0, ctx.buddy.mem[..], allocs0)
      ensures ok <==> forall f :: 0 <= f < NUM_FILES ==> readOk[f]
      ensures ok ==> forall f :: 0 <= f < NUM_FILES ==> StoredAt(ctx.buddy.mem[..], FileAddr(f), files[f])
    {
      hide Holds, Kept, StoredAt;
      for f := 0 to NUM_FILES
        invariant Holds(0, live0, allocs0, marks0, used0)
        invariant Kept(mem0, ctx.buddy.mem[..], allocs0)
        invariant forall g :: 0 <= g < f ==> readOk[g]
        invariant forall g :: 0 <= g < f ==> StoredAt(ctx.buddy.mem[..], FileAddr(g), files[g])
      {
        if !readOk[f] {
          return false;
        }
        LoadFile(f, files, live0, allocs0, marks0, used0, mem0);
      }
      ok := true;
    }

    method LoadFile(f: nat, files: seq<seq<byte>>, ghost live0: map<nat, nat>, ghost allocs0: map<nat, nat>,
                    ghost marks0: map<nat, int>, ghost used0: seq<set<nat>>, ghost mem0: seq<int>)
      requires Holds(0, live0, allocs0, marks0, used0) && |blocks| == NUM_REGIONS && f < NUM_FILES
      requires Kept(mem0, ctx.buddy.mem[..], allocs0)
      requires |files| == NUM_FILES && forall g :: 0 <= g < NUM_FILES ==> |files[g]| == FileBytes(g)
      requires |layerBase| == WL_NUM_LAYERS
      requires forall g :: 0 <= g < NUM_FILES ==> FileAddr(g) == regionBase[FileRegion(g)] + FileOffset(g)
      requires forall g :: 0 <= g < f ==> StoredAt(ctx.buddy.mem[..], FileAddr(g), files[g])
      modifies ctx.buddy.mem
      ensures Holds(0, live0, allocs0, marks0, used0)
      ensures Kept(mem0, ctx.buddy.mem[..], allocs0)
      ensures forall g :: 0 <= g <= f ==> StoredAt(ctx.buddy.mem[..], FileAddr(g), files[g])
    {
      hide Ledger, Holding, GpuContext.Valid, FileOffset, FileRegion, FileBytes, Kept, StoredAt, OnlyBytesChanged;
      var r := FileRegion(f);
      RegionIsAllocation(this, live0, allocs0, marks0, used0, f);
      ctx.CopyIn(regionBase[r], FileAddr(f), files[f]);
      forall g | 0 <= g < f ensures StoredAt(ctx.buddy.mem[..], FileAddr(g), files[g]) {
        FilesApart(this, live0, allocs0, marks0, used0, g, f);
        StoredBeside(old(ctx.buddy.mem[..]), ctx.buddy.mem[..], FileAddr(g), files[g], FileAddr(f), |files[f]|);
      }
      KeptBeside(ctx, regionBase[r], allocs0, mem0, old(ctx.buddy.mem[..]), ctx.buddy.mem[..], FileAddr(f), |files[f]|);
    }
  }

  /** All files have the right size and can be read, and there is room for the regions. */
  ghost predicate Loadable(pages: nat, live: map<nat, nat>, files: seq<seq<byte>>, readOk: seq<bool>)
    requires |files| == |readOk| == NUM_FILES
  {
    (forall f :: 0 <= f < NUM_FILES ==> |files[f]| == FileBytes(f) && readOk[f]) && Roomy(pages, live)
  }

  /** weight_loader_load: on any failure the allocators are as before; on success every file is in place. */
  method Load(ctx: GpuContext, files: seq<seq<byte>>, readOk: seq<bool>) returns (wl: Loader?)
    requires ctx.Valid() && |files| == |readOk| == NUM_FILES
    modifies ctx, ctx.slabs, ctx.buddy, ctx.buddy.mem, ctx.buddy.freeList, ctx.buddy.pageOrder
    ensures ctx.Valid()
    ensures wl != null <==> Loadable(ctx.buddy.pages, old(ctx.buddy.live), files, readOk)
    ensures wl != null ==> Drawn(ctx.buddy.pages, old(ctx.buddy.live), ctx.buddy.live, NUM_REGIONS)
    ensures wl == null ==>
              && ctx.allocs == old(ctx.allocs) && ctx.buddy.live == old(ctx.buddy.live)
              && BlocksOf(ctx.buddy.heads) == old(BlocksOf(ctx.buddy.heads))
    ensures wl != null ==>
              && fresh(wl) && wl.ctx == ctx
              && wl.Loaded(files, old(ctx.buddy.live), old(ctx.allocs), old(ctx.buddy.marks), old(ctx.Used()))
    ensures Kept(old(ctx.buddy.mem[..]), ctx.buddy.mem[..], old(ctx.allocs))
  {
    hide GpuContext.CachesValid, Ledger, Kept, Holding, FileBytes, StoredAt, FileRegion, FileOffset, Heap, Roomy, Drawn;
    KeptSelf(ctx.buddy.mem[..], ctx.allocs);
    ContextFacts(ctx);
    for f := 0 to NUM_FILES
      invariant forall g :: 0 <= g < f ==> |files[g]| == FileBytes(g)
    {
      if |files[f]| != FileBytes(f) {
        return null;
      }
    }
    var l := new Loader(ctx);
    var ok := l.AllocRegions();
    if ok {
      l.ComputeAddresses();
      ok := l.LoadFiles(files, readOk, old(ctx.buddy.live), old(ctx.allocs), old(ctx.buddy.marks), old(ctx.Used()),
                        old(ctx.buddy.mem[..]));
    }
    if ok {
      return l;
    }
    l.ReleaseRegions(old(ctx.buddy.live), old(ctx.allocs), old(ctx.buddy.marks), old(ctx.Used()), old(ctx.buddy.mem[..]));
    ContextFacts(ctx);
    HeapIsDetermined(ctx.buddy.pages, ctx.buddy.heads, old(ctx.buddy.heads), ctx.buddy.live);
    return null;
  }

  lemma ContextFacts(ctx: GpuContext)
    requires ctx.Valid()
    ensures ctx.Wired() && Heap(ctx.buddy.pages, ctx.buddy.heads, ctx.buddy.live)
  {
  }

  lemma KeptSelf(mem: seq<int>, allocs: map<nat, nat>)
    ensures Kept(mem, mem, allocs)
  {
  }

  /** weight_loader_layer: where the values of a tensor are, in a region of their own layer group and below 4 GiB. */
  method LayerTensor(wl: Loader, layer: nat, t: nat, ghost files: seq<seq<byte>>, ghost live0: map<nat, nat>,
                     ghost allocs0: map<nat, nat>, ghost marks0: map<nat, int>, ghost used0: seq<set<nat>>)
    returns (addr: int)
    requires wl.Loaded(files, live0, allocs0, marks0, used0)
    requires layer < WL_NUM_LAYERS && t < WL_TENSOR_COUNT
    ensures TensorOffset(t) + TensorFloats(t) * 4 <= |files[layer + 3]|
    ensures StoredAt(wl.ctx.buddy.mem[..], addr, files[layer + 3][TensorOffset(t)..TensorOffset(t) + TensorFloats(t) * 4])
    ensures var base := wl.regionBase[2 + layer / LAYERS_PER_REGION];
            && base >= 0 && base in wl.ctx.allocs && base <= addr
            && addr + TensorFloats(t) * 4 <= base + wl.ctx.allocs[base] <= 0x1_0000_0000
  {
    hide Ledger, Holding, GpuContext.Valid, FileOffset, TensorOffset, TensorFloats, StoredAt;
    RegionIsAllocation(wl, live0, allocs0, marks0, used0, layer + 3);
    TensorInLayer(t);
    StoredSlice(wl.ctx.buddy.mem[..], wl.FileAddr(layer + 3), files[layer + 3], TensorOffset(t),
                TensorOffset(t) + TensorFloats(t) * 4);
    addr := wl.layerBase[layer] + TensorOffset(t);
  }

  /** After loading, different tensors occupy disjoint bytes, and narrowing an address to 32 bits loses nothing. */
  lemma TensorsApart(wl: Loader, files: seq<seq<byte>>, live0: map<nat, nat>, allocs0: map<nat, nat>,
                     marks0: map<nat, int>, used0: seq<set<nat>>, l: nat, t: nat, l': nat, t': nat)
    requires wl.Loaded(files, live0, allocs0, marks0, used0)
    requires l < WL_NUM_LAYERS && t < WL_TENSOR_COUNT && l' < WL_NUM_LAYERS && t' < WL_TENSOR_COUNT
    requires l != l' || t != t'
    ensures var a, a' := wl.TensorAddr(l, t), wl.TensorAddr(l', t');
            && (a + TensorFloats(t) * 4 <= a' || a' + TensorFloats(t') * 4 <= a)
            && 0 <= a && a + TensorFloats(t) * 4 <= 0x1_0000_0000 && a % 0x1_0000_0000 == a
  {
    hide Ledger, Holding, GpuContext.Valid, FileOffset, FileRegion, TensorOffset, TensorFloats, StoredAt;
    var f, f' := l + 3, l' + 3;
    RegionIsAllocation(wl, live0, allocs0, marks0, used0, f);
    TensorInLayer(t);
    TensorInLayer(t');
    if l < l' {
      FilesApart(wl, live0, allocs0, marks0, used0, f, f');
    } else if l' < l {
      FilesApart(wl, live0, allocs0, marks0, used0, f', f);
    } else if t < t' {
      TensorsFollow(t, t');
    } else {
      TensorsFollow(t', t);
    }
  }

  lemma TensorInLayer(t: nat)
    requires t < WL_TENSOR_COUNT
    ensures TensorOffset(t) + TensorFloats(t) * 4 <= WL_LAYER_BYTES && TensorFloats(t) > 0
  {
    TensorsFollow(t, WL_TENSOR_COUNT);
  }

  lemma RegionIsAllocation(wl: Loader, live0: map<nat, nat>, allocs0: map<nat, nat>, marks0: map<nat, int>,
                           used0: seq<set<nat>>, f: nat)
    requires wl.Holds(0, live0, allocs0, marks0, used0) && |wl.blocks| == NUM_REGIONS && f < NUM_FILES
    ensures var base := wl.regionBase[FileRegion(f)];
            && base >= 0 && base % PAGE_SIZE == 0 && base in wl.ctx.allocs && base !in allocs0
            && FileOffset(f) % WORD == 0 && FileOffset(f) + FileBytes(f) <= wl.ctx.allocs[base]
            && base + wl.ctx.allocs[base] <= wl.ctx.buddy.mem.Length * WORD
            && base + wl.ctx.allocs[base] <= 0x1_0000_0000
  {
    var r := FileRegion(f);
    HeldIsAllocated(wl.ctx.buddy.live, live0, wl.blocks, 0, r, wl.ctx.allocs, allocs0, used0, marks0);
    FileFitsRegion(f);
    AllocationInMemory(wl.ctx, wl.regionBase[r]);
  }

  /** No two files overlap in device memory. */
  lemma FilesApart(wl: Loader, live0: map<nat, nat>, allocs0: map<nat, nat>, marks0: map<nat, int>,
                   used0: seq<set<nat>>, f: nat, g: nat)
    requires wl.Holds(0, live0, allocs0, marks0, used0) && |wl.blocks| == NUM_REGIONS && f < g < NUM_FILES
    ensures var a, b := wl.regionBase[FileRegion(f)] + FileOffset(f), wl.regionBase[FileRegion(g)] + FileOffset(g);
            a + FileBytes(f) <= b || b + FileBytes(g) <= a
  {
    hide Ledger, Holding, GpuContext.Valid, FileOffset, FileRegion, FileBytes;
    RegionIsAllocation(wl, live0, allocs0, marks0, used0, f);
    RegionIsAllocation(wl, live0, allocs0, marks0, used0, g);
    if FileRegion(f) == FileRegion(g) {
      FilesApartInRegion(f, g);
    } else {
      RegionsDiffer(wl, live0, allocs0, marks0, used0, FileRegion(f), FileRegion(g));
      ContextAllocationsApart(wl.ctx, wl.regionBase[FileRegion(f)], wl.regionBase[FileRegion(g)]);
    }
  }

  lemma RegionsDiffer(wl: Loader, live0: map<nat, nat>, allocs0: map<nat, nat>, marks0: map<nat, int>,
                      used0: seq<set<nat>>, r: nat, s: nat)
    requires wl.Holds(0, live0, allocs0, marks0, used0) && |wl.blocks| == NUM_REGIONS
    requires r < NUM_REGIONS && s < NUM_REGIONS && r != s
    ensures wl.regionBase[r] != wl.regionBase[s]
  {
    hide Ledger, GpuContext.Valid;
    assert r < s ==> wl.blocks[r].page != wl.blocks[s].page;
    assert s < r ==> wl.blocks[s].page != wl.blocks[r].page;
  }

  /** A held region is an allocation with room for its plan, and was none before. */
  lemma HeldIsAllocated(live: map<nat, nat>, live0: map<nat, nat>, blocks: seq<Block>, f: nat, j: nat,
                        allocs: map<nat, nat>, allocs0: map<nat, nat>, used: seq<set<nat>>, marks: map<nat, int>)
    requires Holding(live, live0, blocks, f) && f <= j < |blocks|
    requires Ledger(allocs, used, live, marks) && Ledger(allocs0, used, live0, marks)
    requires forall p :: p in marks ==> p in live0
    ensures var base := blocks[j].page * PAGE_SIZE;
            && base in allocs && base !in allocs0 && IsBlock(live, marks, base)
            && allocs[base] == Pow2(blocks[j].order) * PAGE_SIZE
  {
    hide CacheSize, OnSlot;
    var base := blocks[j].page * PAGE_SIZE;
    assert IsBlock(live, marks, base) && !IsBlock(live0, marks, base);
    assert forall i :: 0 <= i < NUM_CACHES && base in used[i] ==> InCache(i, base, marks);
  }
}