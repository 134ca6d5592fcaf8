/** Why the decoder's buffers do not overlap: each lies in an allocation of its own, or at its own place in a
    weight region, and the allocator keeps allocations apart. */
module Placement {
  import Blocks
  import Bytes
  import G = Gpu
  import W = WeightLoader
  import D = Device

  /** The eight weight regions are allocations with room for what was planned. */
  ghost predicate RegionsHeld(allocs: map<nat, nat>, bases: seq<int>) {
    && |bases| == W.NUM_REGIONS
    && (forall r, s :: 0 <= r < s < W.NUM_REGIONS ==> bases[r] != bases[s])
    && forall r :: 0 <= r < W.NUM_REGIONS ==> W.PlanBytes(r) <= Room(allocs, bases[r])
  }

  /** The capacity of an allocation; zero if there is none at the offset. */
  function Room(allocs: map<nat, nat>, o: int): nat {
    if o >= 0 && o in allocs then var n: nat := o; allocs[n] else 0
  }

  lemma LoadedHolds(wl: W.Loader, files: seq<seq<Bytes.byte>>, live0: map<nat, nat>, allocs0: map<nat, nat>, marks0: map<nat, int>,
                    used0: seq<set<nat>>)
    requires wl.Loaded(files, live0, allocs0, marks0, used0)
    ensures RegionsHeld(wl.ctx.allocs, wl.regionBase)
  {
    hide G.Ledger, G.GpuContext.CachesValid, Bytes.StoredAt;
    forall r | 0 <= r < W.NUM_REGIONS ensures W.PlanBytes(r) <= Room(wl.ctx.allocs, wl.regionBase[r]) {
      W.HeldIsAllocated(wl.ctx.buddy.live, live0, wl.blocks, 0, r, wl.ctx.allocs, allocs0, used0, marks0);
    }
    forall r, s | 0 <= r < s < W.NUM_REGIONS ensures wl.regionBase[r] != wl.regionBase[s] {
      W.RegionsDiffer(wl, live0, allocs0, marks0, used0, r, s);
    }
  }

  lemma RegionsNonempty(allocs: map<nat, nat>, bases: seq<int>, r: nat)
    requires RegionsHeld(allocs, bases) && r < W.NUM_REGIONS
    ensures bases[r] >= 0 && bases[r] in allocs
  {
    assert W.PlanBytes(r) <= Room(allocs, bases[r]);
  }

  /** Regions stay held as long as nothing is freed. */
  lemma RegionsSurvive(allocs0: map<nat, nat>, allocs: map<nat, nat>, bases: seq<int>)
    requires RegionsHeld(allocs0, bases) && W.Includes(allocs, allocs0)
    ensures RegionsHeld(allocs, bases)
    ensures forall o :: o in bases ==> o >= 0 && o in allocs0
  {
    hide W.PlanBytes;
    forall r | 0 <= r < W.NUM_REGIONS
      ensures bases[r] >= 0 && bases[r] in allocs0 && W.PlanBytes(r) <= Room(allocs, bases[r])
    {
      RegionsNonempty(allocs0, bases, r);
      assert W.PlanBytes(r) <= Room(allocs0, bases[r]);
    }
  }

  // ---------------------------------------------------------------------------------------------
  // Places of buffers.

  predicate FromFile(b: D.Buf) {
    b.Weight? || b.EmbeddingTable? || b.LmHead? || b.FinalNorm?
  }

  /** The buffer is allocated for the decoder itself. */
  predicate Own(b: D.Buf) {
    !FromFile(b) && !b.Rest?
  }

  predicate Known(b: D.Buf) {
    !b.Rest? && (b.Weight? ==> b.layer < W.WL_NUM_LAYERS && b.tensor < W.WL_TENSOR_COUNT)
  }

  /** The weight file a buffer comes from, and its offset and length in bytes there. */
  function FileOf(b: D.Buf): (f: nat)
    requires FromFile(b) && Known(b)
    ensures f < W.NUM_FILES
  {
    if b.EmbeddingTable? then 0 else if b.LmHead? then 1 else if b.FinalNorm? then 2 else b.layer + 3
  }

  function InFile(b: D.Buf): nat
    requires FromFile(b) && Known(b)
  {
    if b.Weight? then W.TensorOffset(b.tensor) else 0
  }

  function PieceBytes(b: D.Buf): nat
    requires FromFile(b) && Known(b)
  {
    if b.Weight? then W.TensorFloats(b.tensor) * 4 else W.FileBytes(FileOf(b))
  }

  /** The allocation a buffer lies in. */
  function Home(b: D.Buf, at: D.Buf -> D.Region, bases: seq<int>): int
    requires Known(b) && |bases| == W.NUM_REGIONS
  {
    if FromFile(b) then bases[W.FileRegion(FileOf(b))] else at(b).off
  }

  /** Weights lie where the loader put them; every other buffer has an allocation of its own. */
  ghost predicate Placed(allocs: map<nat, nat>, bases: seq<int>, at: D.Buf -> D.Region) {
    && RegionsHeld(allocs, bases)
    && (forall b: D.Buf :: Known(b) && FromFile(b) ==>
          at(b).off == bases[W.FileRegion(FileOf(b))] + W.FileOffset(FileOf(b)) + InFile(b) && at(b).len * D.CELL == PieceBytes(b))
    && (forall b: D.Buf :: Known(b) && !FromFile(b) ==>
          at(b).off in allocs && at(b).len * D.CELL <= allocs[at(b).off] && at(b).off !in bases)
    && forall a: D.Buf, b: D.Buf :: Known(a) && Known(b) && !FromFile(a) && !FromFile(b) && a != b ==> at(a).off != at(b).off
  }

  lemma PieceInFile(b: D.Buf)
    requires FromFile(b) && Known(b)
    ensures InFile(b) + PieceBytes(b) <= W.FileBytes(FileOf(b))
  {
    hide W.TensorOffset, W.TensorFloats;
    if b.Weight? {
      W.TensorInLayer(b.tensor);
    }
  }

  lemma PiecesApart(a: D.Buf, b: D.Buf)
    requires FromFile(a) && Known(a) && FromFile(b) && Known(b) && a != b && FileOf(a) == FileOf(b)
    ensures InFile(a) + PieceBytes(a) <= InFile(b) || InFile(b) + PieceBytes(b) <= InFile(a)
  {
    hide W.TensorOffset, W.TensorFloats;
    if a.tensor < b.tensor {
      W.TensorsFollow(a.tensor, b.tensor);
    } else {
      W.TensorsFollow(b.tensor, a.tensor);
    }
  }

  /** A buffer lies inside its home. */
  lemma AtHome(allocs: map<nat, nat>, bases: seq<int>, at: D.Buf -> D.Region, b: D.Buf)
    requires Placed(allocs, bases, at) && Known(b)
    ensures var h := Home(b, at, bases);
      h >= 0 && h in allocs && h <= at(b).off && at(b).off + at(b).len * D.CELL <= h + Room(allocs, h)
  {
    hide W.FileOffset, W.FileRegion, W.PlanBytes, W.FileBytes;
    if FromFile(b) {
      PieceInFile(b);
      W.FileFitsRegion(FileOf(b));
    }
  }

  lemma SameHome(allocs: map<nat, nat>, bases: seq<int>, at: D.Buf -> D.Region, a: D.Buf, b: D.Buf)
    requires Placed(allocs, bases, at) && Known(a) && Known(b) && a != b && Home(a, at, bases) == Home(b, at, bases)
    ensures D.Apart(at(a), at(b))
  {
    hide W.FileOffset, W.FileRegion, W.PlanBytes, W.FileBytes, W.TensorOffset, W.TensorFloats, InFile, PieceBytes;
    assert FromFile(a) && FromFile(b);
    var f, g := FileOf(a), FileOf(b);
    assert W.FileRegion(f) == W.FileRegion(g);
    PieceInFile(a);
    PieceInFile(b);
    if f == g {
      PiecesApart(a, b);
    } else if f < g {
      W.FilesApartInRegion(f, g);
    } else {
      W.FilesApartInRegion(g, f);
    }
  }

  /** No two buffers of the decoder overlap, and none reaches beyond VRAM. */
  lemma BuffersApart(ctx: G.GpuContext, bases: seq<int>, at: D.Buf -> D.Region, a: D.Buf, b: D.Buf)
    requires ctx.Valid() && Placed(ctx.allocs, bases, at) && Known(a) && Known(b) && a != b
    ensures D.Apart(at(a), at(b))
    ensures at(a).off + at(a).len * D.CELL <= ctx.buddy.pages * Blocks.PAGE_SIZE
  {
    hide G.GpuContext.Valid, Placed;
    PlacedBases(ctx.allocs, bases, at);
    AtHome(ctx.allocs, bases, at, a);
    AtHome(ctx.allocs, bases, at, b);
    var h, k := Home(a, at, bases), Home(b, at, bases);
    G.AllocationInMemory(ctx, h);
    if h == k {
      SameHome(ctx.allocs, bases, at, a, b);
    } else {
      G.ContextAllocationsApart(ctx, h, k);
    }
  }

  lemma PlacedBases(allocs: map<nat, nat>, bases: seq<int>, at: D.Buf -> D.Region)
    requires Placed(allocs, bases, at)
    ensures |bases| == W.NUM_REGIONS
  {
  }

  lemma PieceAligned(b: D.Buf)
    requires FromFile(b) && Known(b)
    ensures (W.FileOffset(FileOf(b)) + InFile(b)) % D.CELL == 0 && PieceBytes(b) > 0
  {
  }

  lemma BufferPlaced(ctx: G.GpuContext, bases: seq<int>, at: D.Buf -> D.Region, b: D.Buf)
    requires ctx.Valid() && Placed(ctx.allocs, bases, at) && Known(b)
    ensures at(b).off % D.CELL == 0 && at(b).off < D.ADDRESS_SPACE
    ensures at(b).off + at(b).len * D.CELL <= ctx.buddy.pages * Blocks.PAGE_SIZE <= D.ADDRESS_SPACE
  {
    hide G.GpuContext.Valid, W.FileOffset, W.FileRegion, InFile, PieceBytes;
    AtHome(ctx.allocs, bases, at, b);
    var h := Home(b, at, bases);
    G.AllocationInMemory(ctx, h);
    G.AllocationAligned(ctx, h);
    ManagedSize(ctx);
    if FromFile(b) {
      PieceAligned(b);
    }
  }

  lemma ManagedSize(ctx: G.GpuContext)
    requires ctx.Valid()
    ensures ctx.buddy.pages <= Blocks.BUDDY_TOTAL_PAGES
  {
  }

  /** What the decoder relies on holds whenever its buffers were allocated: the cells of VRAM, the weights as
      loaded and every other buffer in an allocation of its own. */
  lemma DecoderIsWired(ctx: G.GpuContext, bases: seq<int>, dev: D.Memory)
    requires ctx.Valid() && Placed(ctx.allocs, bases, dev.layout)
    requires dev.mem.Length * D.CELL == ctx.buddy.pages * Blocks.PAGE_SIZE
    requires dev.cfg.dims.numLayers <= W.WL_NUM_LAYERS && dev.cfg.dims.numKvHeads > 0 && dev.cfg.dims.headDim > 0
    requires forall b :: dev.InUse(b) ==> dev.Sized(b)
    ensures dev.Wired()
  {
    hide G.GpuContext.Valid, Placed, D.Apart;
    ManagedSize(ctx);
    forall b | dev.InUse(b)
      ensures dev.layout(b).off % D.CELL == 0 && dev.layout(b).off < D.ADDRESS_SPACE
      ensures dev.layout(b).off / D.CELL + dev.layout(b).len <= dev.mem.Length
    {
      BufferPlaced(ctx, bases, dev.layout, b);
    }
    forall a, b | dev.InUse(a) && dev.InUse(b) && a != b ensures D.Apart(dev.layout(a), dev.layout(b)) {
      BuffersApart(ctx, bases, dev.layout, a, b);
    }
  }
}
