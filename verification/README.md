# A verified model of the GPGPU runtime and of its build tools

The repository holds a user-space runtime for a GPGPU device (a VRAM allocator, a weight loader, a
KV cache and a token decoder) and the kernel build scripts that its driver needs. This project models
the parts with the most state and the most branching and proves what they are for.

- **VRAM.** `Blocks` is the arithmetic of buddy blocks. `Buddy` is the binary buddy allocator with its
  free lists threaded through the free pages of a word memory; `Slab` carves pages into slots and gives
  empty pages back; `Gpu` routes requests by size and frees by page marker. In every reachable state free
  and live blocks tile VRAM, the lists are correctly linked, and the free blocks are exactly the maximal
  free ones. So an allocation fails only if nothing fits, and the free sets depend on nothing but what is
  live. `Gpu` states what every call does by who owns which slots, pages and blocks, and whole runs are runs
  of that machine. `WeightLoader` builds on this: it says beforehand how many free blocks a load needs, a
  failed load leaves no trace, a successful one puts every tensor in its own place below 4 GiB.
- **Decoding.** `KvCache` is the layout of the cache, `Kernels` what each kernel computes cell by cell over an
  unknown float arithmetic, `Device` the memory of the device, where kernels find their numbers in argument
  buffers, `Transformer` the 22 in-place operations of a layer, the append/commit protocol and the inference loop. `Workspace` allocates the cache and the workspace and undoes
  all of it on failure; with `Placement` it shows that what comes out is what decoding relies on: no two
  buffers overlap, and the weights in them are the bytes of the files. With 4 GiB and the default
  configuration this cannot fail for lack of room, and decoding never disturbs the allocators. Decoding with the cache yields the tokens of a reference
  that keeps none and recomputes all keys and values for the whole prefix; and that reference is grouped-query
  attention with rotated queries and keys, in the terms of matrices, heads and dot products.
- **unifdef.** `CondExpr` is the expression grammar and the three-valued evaluator, `Unifdef` the
  transition table over nested conditionals, `UnifdefFile` the two put together. Output and input leave
  the same text for every compiler that agrees with the command line, and a condition is decided exactly when
  those compilers leave no choice.
- **kallsyms.** `Kallsyms` compresses symbol names in place by pair replacement; every symbol can be
  expanded again, at every step, and each token is the pair that occurs most often.
- **sorttable.** `Sorttable` sorts tables of self-relative 32-bit offsets without changing what they say.
- **asn1_compiler.** `Asn1` emits byte code in two passes; every jump lands on the code of its element,
  every jump back on what is repeated, and the code is the walk over the grammar, properly bracketed.

What the source updates in place is a class or an array here, and each such method is proved against a
function of the old state. Where the source asserts something of its callers, the model requires it.
Kernels, launch failures, host allocation failures and file contents are parameters.

Three results are negative, and each comes with its exact condition. The evaluator of unifdef reads numbers
into an `int` and knows no unsigned type. `ProgramExactly` shows that files over given numerals and names keep
their meaning if and only if reading keeps the numbers in order and no negative number can meet an unsigned
one (or nothing is ever decided); that is so when all fit and the two do not mix (`FittingIsReadable`).
`ValueMisread`, `NumeralMisread` and `UnsignedMisread` are inputs where it fails. And a decoding step that
fails after the first append leaves the cache unusable: `Step` says after exactly which failures `pending`
stays non-zero, `StepsInVain` that every later step then fails, `OneFaultJams` that one failing launch is
enough. And `ActionFollowsMatch` says when the match of an ASN.1 element is followed by the action it announces:
for every element but a type reference that has a tag of its own.

The comment beside `BUDDY_MAX_ORDER` (lib/include/buddy.h:5) speaks of orders 0 to 19; the constant is 21
and the model follows it.

## Model

| member | source | states |
|---|---|---|
| `Blocks.XorIsBuddy` | lib/src/buddy.c:102-104 | flipping the order bit of an aligned page number gives the other half of the enclosing block |
| `Blocks.XorBytes` | lib/src/buddy.c:102-104 | the same for byte offsets, which the source flips |
| `Blocks.Nested` | lib/src/buddy.c:15-137 | of two aligned blocks that meet, the smaller lies inside the larger |
| `Blocks.WhollyFreeIsListed` | lib/src/buddy.c:50-71 | with no two free buddies, every wholly free aligned block lies inside one listed block |
| `Blocks.Canonical` | lib/src/buddy.c:15-137 | a block is on a free list if and only if it is a maximal wholly free aligned block |
| `Blocks.FreeSetIsDetermined` | lib/src/buddy.c:15-137 | two heaps with the same live blocks and size have the same free blocks |
| `Blocks.SplitStep` | lib/src/buddy.c:80-91 | splitting the block in hand keeps the tiling and makes no free buddies |
| `Blocks.MergeStep` | lib/src/buddy.c:123-134 | absorbing a free buddy keeps the tiling and never reaches order 21 |
| `Blocks.PutStep` | lib/src/buddy.c:112-121 | listing a block whose buddy is not free keeps the heap well formed |
| `Blocks.TakeCounts` | lib/src/buddy.c:50-98 | whichever wholly free block is taken, the number of wholly free blocks of each smaller order drops by as many as fit in it |
| `Blocks.TakeAtMostOne` | lib/src/buddy.c:50-98 | taking a wholly free block costs at most one wholly free block of any larger order |
| `Blocks.SmallIsInside` | lib/src/buddy.c:61-91 | while all live blocks lie in one block, every listed block smaller than it lies in it too |
| `Buddy.GreedyIsHeap` | lib/src/buddy.c:23-39 | the greedy cut of any number of pages is a well-formed heap, so it has no two free buddies either |
| `Buddy.BuddyAllocator.Init` | lib/src/buddy.c:15-42 | the allocator starts valid, with nothing live, on any size up to 4 GiB |
| `Buddy.OrderFrom` | lib/src/buddy.c:53-59 | the least order whose blocks hold the request, or none |
| `Buddy.NothingHolds` | lib/src/buddy.c:61-71 | if no list of the needed order or above has a block, no wholly free block anywhere holds the request |
| `Buddy.HoldsIffCounted` | lib/src/buddy.c:50-71 | a request can be met if and only if some aligned block of its order is wholly free |
| `Buddy.FitIsClose` | lib/src/buddy.c:61-91 | single pages taken from an untouched 4 GiB stay among the first eight pages |
| `Buddy.ListsPush` | lib/src/buddy.c:113-121 | linking a page in front keeps every list acyclic, back-linked and indexed by order |
| `Buddy.ListsUnlink` | lib/src/buddy.c:125-130 | taking a page out of the middle of its list does too |
| `Buddy.UnlinkTouchesHeads` | lib/src/buddy.c:125-130 | it writes only to pages that are still on free lists |
| `Buddy.BuddyAllocator.Alloc` | lib/src/buddy.c:50-98 | fails if and only if no wholly free aligned block holds the request; otherwise adds one live block of the least sufficient order, cut from a smallest listed block that suffices, and disturbs no live page |
| `Buddy.BuddyAllocator.Carve` | lib/src/buddy.c:80-91 | the split loop leaves the left part in hand and lists the right halves |
| `Buddy.BuddyAllocator.Find` | lib/src/buddy.c:103-110 | the walk of a list finds the buddy if and only if it is on the list |
| `Buddy.BuddyAllocator.Free` | lib/src/buddy.c:100-137 | recursive coalescing ends, removes just this block from the live ones, restores all invariants and disturbs no live page |
| `Buddy.Serve` | lib/src/buddy.c:15-137 | any interleaving of requests: one result per request, each a failure exactly when nothing wholly free holds it in the state reached by then; the live blocks are those the trace and the results determine; other clients' blocks stay; giving back all that was taken restores the free-block sets |
| `Slab.PageSlotsCount` | lib/src/slab_cache.c:6-35 | a page has as many slots of a size as its bytes divided by the size |
| `Slab.FullIffUnused` | lib/src/slab_cache.c:99-108 | the free count of a page equals its slot count if and only if no slot of it is in use |
| `Slab.PopStep` | lib/src/slab_cache.c:64-77 | handing out the first free slot keeps the cache invariant |
| `Slab.PushStep` | lib/src/slab_cache.c:80-97 | taking a slot back keeps it |
| `Slab.ShrinkStep` | lib/src/slab_cache.c:108-140 | dropping a wholly free page with exactly its slots keeps it |
| `Slab.GrowStep` | lib/src/slab_cache.c:6-35 | adding a page with all its slots keeps it |
| `Slab.SlabCache.Grow` | lib/src/slab_cache.c:6-35 | succeeds if and only if host memory and a page are to be had; the page carries the marker of the cache |
| `Slab.SlabCache.Alloc` | lib/src/slab_cache.c:56-78 | fails if and only if no slot is free and no page can be added; otherwise a slot that was not in use, counted in its page |
| `Slab.SlabCache.FindPage` | lib/src/slab_cache.c:67-74 | the page of a slot of the cache is always found |
| `Slab.SlabCache.Free` | lib/src/slab_cache.c:80-142 | removes the slot from those in use; a wholly free page stays only if it is the only one; no marker survives on a page given back |
| `Slab.SlabCache.Purge` | lib/src/slab_cache.c:109-126 | unlinking while walking removes exactly the slots of one page and keeps the order of the others |
| `Gpu.GetSlab` | lib/libgpgpu.c:10-29 | the six marker bytes name the six caches and no other byte names one |
| `Gpu.RouteSlab` | lib/libgpgpu.c:31-58 | the smallest cache whose slots hold the request; none above 2048 bytes |
| `Gpu.AllocationsApart` | lib/libgpgpu.c:132-165 | any two allocations are disjoint and inside VRAM |
| `Gpu.MarkerNamesOwner` | lib/libgpgpu.c:156-165 | the marker read on free names the allocator that handed the offset out |
| `Gpu.LedgerIsDetermined` | lib/libgpgpu.c:132-165 | the caches and the live blocks determine the allocations |
| `Gpu.AllocationsFixHoldings` | lib/src/slab_cache.c:80-142 | two valid states with the same allocations have the same slots in use, the same blocks outside caches and the same pages in every cache in use; a cache with nothing in use has one page, which may be another |
| `Gpu.SameHoldingsSameLive` | lib/src/slab_cache.c:99-140 | if the idle caches have the same pages too, all live blocks are the same, and with them the free-block sets |
| `Gpu.GpuContext.Init` | lib/libgpgpu.c:61-122 | succeeds if and only if host memory suffices and there are six pages; starts valid with nothing allocated; of 4 GiB it has taken pages among the first eight only |
| `Gpu.GpuContext.Malloc` | lib/libgpgpu.c:132-154 | a new offset with at least the size asked for; which slot, page or block is taken, and failure exactly when neither a vacant slot, nor a page for the cache, nor a block can be had, are said by who owns what (`Taken`), without free lists; no word of another allocation changes |
| `Gpu.GpuContext.Free` | lib/libgpgpu.c:156-165 | removes just this allocation; a page of a cache goes with its last used slot exactly when the cache has another page (`Released`); the words of all others stay |
| `Gpu.ListIffVacant` | lib/src/slab_cache.c:56-63 | the free list of a cache is empty if and only if every slot of every page with its marker is in use |
| `Gpu.AnotherPage` | lib/src/slab_cache.c:99-108 | a cache has a second page if and only if a second page carries its marker |
| `Gpu.GpuContext.CopyIn` | lib/libgpgpu.c:168-171 | copying any bytes into an allocation changes just those bytes and no structure of the allocators |
| `Gpu.GpuContext.CopyOut` | lib/libgpgpu.c:172-173 | returns the bytes stored there |
| `Gpu.KeptBeside` | lib/libgpgpu.c:168-179 | a copy into one allocation changes no word of any other, also at its first and last, partly written words |
| `Bytes.SetThenGet` | lib/libgpgpu.c:168-179 | writing one byte of a word changes that byte and no other |
| `Gpu.NothingLeaks` | lib/src/slab_cache.c:99-140 | with nothing allocated each cache holds one page, wholly free, and no other block is live |
| `Gpu.ContextAllocationsApart` | lib/libgpgpu.c:132-165 | allocations of a valid context are disjoint |
| `Gpu.ServeAll` | lib/libgpgpu.c:132-165 | any interleaving of calls is a run of the ownership machine: every call changes the owners and gets the result that `Taken` and `Released` prescribe; what is held is what the trace and the results determine, and exactly that was added, each piece at least as long as asked for; earlier allocations keep their contents |
| `Bytes.HalvesOfWord` | lib/libgpgpu.c:168-179 | the two 32-bit cells of a word of VRAM are its low and its high half |
| `WeightLoader.PlanIsExact` | lib/src/weight_loader.c:157-172 | the files of a region follow each other from its start without a gap and fill the planned size |
| `WeightLoader.TensorsFollow` | lib/include/weight_layout.h:33-77 | the tensors of a layer follow each other without overlap and fill the layer |
| `WeightLoader.Loader.AllocRegions` | lib/src/weight_loader.c:211-229 | all eight regions are allocated if and only if at the start two blocks of order 18 and, counting those inside them, fourteen of order 16 are wholly free, wherever the allocator takes them; on failure it is known which were obtained |
| `WeightLoader.PlanOrder` | lib/src/weight_loader.c:157-172 | the eight planned sizes need blocks of order 18, 18 and six times 16 |
| `WeightLoader.FreshIsRoomy` | lib/src/weight_loader.c:4-6 | 4 GiB of which only single pages among the first eight are taken has room for the eight regions and a block of order 16 more |
| `WeightLoader.Loader.ComputeAddresses` | lib/src/weight_loader.c:231-254 | every file has its place in its region |
| `WeightLoader.Loader.ReleaseRegions` | lib/src/weight_loader.c:290-297 | the roll-back frees exactly the regions allocated |
| `WeightLoader.Load` | lib/src/weight_loader.c:150-299 | succeeds if and only if all files have their size and can be read and that many blocks are wholly free; failing at any allocation or file leaves allocations, live blocks and free-block sets as before; success puts each file where its address says and keeps all earlier allocations |
| `WeightLoader.FilesApart` | lib/src/weight_loader.c:231-254 | the files lie in disjoint ranges of VRAM |
| `WeightLoader.TensorsApart` | lib/src/weight_loader.c:312-317 | different tensors are disjoint and every address fits in 32 bits |
| `WeightLoader.LayerTensor` | lib/src/weight_loader.c:312-317 | the address at which exactly the bytes of this tensor of the layer's file are stored, inside the region of its group of layers and below 4 GiB |
| `Placement.LoadedHolds` | lib/src/weight_loader.c:216-254 | after loading, the regions are different allocations, each with room for its plan |
| `Placement.RegionsSurvive` | lib/libgpgpu.c:132-165 | they stay so while nothing is freed |
| `Placement.BuffersApart` | lib/src/transformer.c:371-622 | no two buffers of the decoder overlap and none reaches beyond VRAM, given their places |
| `Placement.DecoderIsWired` | lib/src/transformer.c:371-622 | all that the decoder requires of its buffers follows from their places and lengths; `Workspace.LayoutIsPlaced` gives the places |
| `Workspace.CreateCache` | lib/src/kv_cache.c:7-37 | succeeds if and only if both allocations do, each failing only when it must; then two new pieces; otherwise allocations, slots, blocks and pages in use are as before |
| `Workspace.Init` | lib/src/transformer.c:371-622 | succeeds if and only if there is one row, max_seq is 128 and that of the cache, every kernel is found, none of the 35 allocations fails and the table exists; then each is a piece of its own, long enough, and the table is stored; otherwise allocations, slots, blocks and pages in use are as before and no earlier allocation has changed |
| `Workspace.ReleaseAll` | lib/src/transformer.c:624-669 | freeing all valid offsets restores the allocations |
| `Workspace.LayoutIsPlaced` | lib/src/transformer.c:440-553 | allocations of the planned sizes, made after the weight regions, give every buffer of the decoder its own place |
| `Workspace.LoadedObtained` | lib/src/weight_loader.c:211-229 | loading adds the eight regions to the allocations and nothing else |
| `Workspace.Boot` | lib/test/infer_tokens.c:185-219 | loading, creating the cache and initialising, in this order: exactly when all succeed; then buffers, weights and table are in place; after any failure allocations, slots, blocks and pages in use are as before |
| `Workspace.EasyRun` | lib/libgpgpu.c:132-154 | a run of requests of at most 2 MiB succeeds while there is a free block of that size for each, whatever the placement |
| `Workspace.Startup` | lib/test/infer_tokens.c:24-219 | with 4 GiB and the default configuration nothing fails for lack of room: if files, kernels, table and host memory are in order, everything succeeds |
| `Workspace.DecoderStarts` | lib/test/infer_tokens.c:185-219 | a decoder over the memory so prepared satisfies its invariant for the model that the weight files hold |
| `Workspace.WriteBack` | lib/src/transformer.c:685-736 | at any point of decoding, VRAM with the decoder's cells in it satisfies all invariants of the allocators: decoding writes nowhere but in its own allocations |
| `Workspace.DefaultFits` | lib/include/weight_layout.h:24-77 | the default dimensions fit together, with 7 query heads to a key head, every tensor has exactly the cells that the operations on it read, and the fixed lane counts of the kernels are those dimensions |
| `Workspace.Infer` | lib/test/infer_tokens.c:221-262 | from the prepared memory to the tokens: they are those of greedy decoding with the reference, for the model in the weight files, which fits the default configuration, and VRAM is in order afterwards |
| `KvCache.RowInBuffer` | lib/src/kv_cache.c:21-22 | every row of every layer, head and position lies inside the buffer, for all dimensions |
| `KvCache.RowsApart` | lib/src/kv_cache.c:48-59 | rows that differ in layer, head or position do not overlap |
| `KvCache.RowReplaced` | lib/src/kv_cache.c:55-66 | writing one row changes that row and no other |
| `Kernels.GemmIsDot` | kernels/gemm.S:10-55 | a row times a matrix: each cell is the dot product with a column of the row-major matrix |
| `Kernels.CellByCell` | kernels/broadcast_add.S:35-54 | biases and residuals are added, and products taken, cell by cell |
| `Kernels.RopeRotates` | kernels/rope.S:45-90 | each pair of cells half a head apart is turned by the angle of the position |
| `Kernels.RopeStops` | kernels/rope.S:62-90 | cells beyond the given number of heads stay |
| `Kernels.EmbeddingIsRow` | kernels/embedding_lookup.S:30-66 | the result is the token's row of the table |
| `Kernels.GroupsAreEqual` | lib/src/transformer.c:879-909 | every query head has a key head if and only if the number of key heads divides that of query heads, and then the groups multiply out |
| `Kernels.GroupOf` | kernels/pv_decode.S:20-21 | the key head of a query head is the one in proportion |
| `Kernels.GroupIsRange` | kernels/qkt_decode.S:19 | each key head serves equally many query heads, which follow one another |
| `Kernels.QktIsScaledDot` | kernels/qkt_decode.S:19-62 | a score is the scaled dot product of the query's head with a key row of its group |
| `Kernels.PvIsWeighted` | kernels/pv_decode.S:20-71 | an output cell is the sum of that cell of its group's values, weighted with the head's scores |
| `Device.NormIsScaled` | kernels/rmsnorm.S:44-66 | every cell is divided by the root of the mean square plus eps and multiplied with its weight |
| `Device.Memory.Narrow` | lib/src/transformer.c:60-147 | storing an offset of a buffer in a 32-bit argument field loses nothing |
| `Device.Memory.Launch` | lib/src/transformer.c:685-695 | writing the arguments changes no data buffer, and the arguments are what the kernel will read |
| `Device.Memory.OpRmsnorm` | lib/src/transformer.c:754-767 | what the kernel computes with the numbers found in its argument buffer is the norm of the row by the model's dimensions; nothing else changes; a failed launch changes nothing |
| `Device.Memory.OpGemm` | lib/src/transformer.c:769-783 | likewise the product of a row and a matrix |
| `Device.Memory.OpBroadcastAdd` | lib/src/transformer.c:785-796 | likewise the sum |
| `Device.Memory.OpSilu` | lib/src/transformer.c:798-809 | likewise the activation, also in place |
| `Device.Memory.OpVmul` | lib/src/transformer.c:811-823 | likewise the product cell by cell, also in place |
| `Device.Memory.OpRope` | lib/src/transformer.c:825-837 | rotates a buffer in place by the position passed |
| `Device.Memory.OpEmbedding` | lib/src/transformer.c:839-851 | the row of the token that is in the token buffer |
| `Device.Memory.OpArgmax` | lib/src/transformer.c:853-863 | the token buffer gets the argmax of the logits |
| `Device.Memory.OpQktDecode` | lib/src/transformer.c:865-885 | with the numbers found in the argument buffer, the scores of all query heads against rows 0 to the position of the layer's keys; `QktIsScaledDot` says what a score is |
| `Device.Memory.OpSoftmaxDecode` | lib/src/transformer.c:887-897 | each line of scores up to the position is normalised, the rest stays |
| `Device.Memory.OpPvDecode` | lib/src/transformer.c:899-914 | likewise the values of the layer weighted by the scores; `PvIsWeighted` says what a cell is |
| `Transformer.QueryIsTurned` | lib/src/transformer.c:951-1003 | the reference query is affine in the normalised row, each query head turned by the angles of the position |
| `Transformer.KeyIsTurned` | lib/src/transformer.c:972-1010 | so is the key, each key head |
| `Transformer.ValueIsAffine` | lib/src/transformer.c:985-996 | the value is affine and not turned |
| `Transformer.AttentionIsGrouped` | lib/src/transformer.c:1017-1043 | reference attention is grouped-query attention: the softmax of scaled dot products with the group's keys weights the group's values |
| `Transformer.ResidualIsAffine` | lib/src/transformer.c:1045-1058 | the output projection is added to the layer's input |
| `Transformer.FeedforwardIsTextbook` | lib/src/transformer.c:1060-1154 | gate, activation, up and down projection with the tensors of those names, added to the first residual |
| `Transformer.EndsAreTextbook` | lib/src/transformer.c:1215-1276 | the first row is the token's embedding, a logit the dot product of the normalised last row with a column of the output matrix |
| `Transformer.CachedRows` | lib/src/kv_cache.c:39-81 | the cached rows of a layer are the keys and values recomputed from the prefix |
| `Transformer.Decoder.AppendLayer` | lib/src/kv_cache.c:39-70 | the error codes for a full cache and a layer out of order; otherwise exactly the rows of one position change and `pending` advances |
| `Transformer.Decoder.CommitToken` | lib/src/kv_cache.c:72-81 | commits exactly after all layers; the capacity assertion cannot fire |
| `Transformer.Decoder.AppendFromDevice` | lib/src/transformer.c:697-736 | after an append the cache holds the current token's rows of one more layer; on failure the committed rows stay |
| `Transformer.Decoder.Query` | lib/src/transformer.c:951-970 | steps 1 to 3 leave the normalised input and the query projection |
| `Transformer.Decoder.KeyValue` | lib/src/transformer.c:972-996 | steps 4 to 7 leave the key and value projections |
| `Transformer.Decoder.Ropes` | lib/src/transformer.c:998-1010 | steps 8 and 9 rotate query and key by the position |
| `Transformer.Decoder.Project` | lib/src/transformer.c:951-1010 | steps 1 to 9 leave query, key and value of the layer input, which itself stays |
| `Transformer.Decoder.ScoreKeys` | lib/src/transformer.c:1017-1035 | steps 11 and 12 leave the normalised scores |
| `Transformer.Decoder.Attend` | lib/src/transformer.c:1017-1043 | steps 11 to 13 leave the attention output |
| `Transformer.Decoder.Residual` | lib/src/transformer.c:1045-1058 | steps 14 and 15, reusing the query buffer |
| `Transformer.Decoder.Gate` | lib/src/transformer.c:1060-1075 | steps 16 and 17 |
| `Transformer.Decoder.Up` | lib/src/transformer.c:1077-1091 | steps 18 and 19 |
| `Transformer.Decoder.Down` | lib/src/transformer.c:1093-1145 | steps 20 and 21, in place over the feed-forward buffers |
| `Transformer.Decoder.AddBack` | lib/src/transformer.c:1147-1154 | step 22 |
| `Transformer.Decoder.FeedForward` | lib/src/transformer.c:1060-1154 | steps 16 to 22 give the second residual |
| `Transformer.Decoder.Finish` | lib/src/transformer.c:1017-1154 | steps 11 to 22 compute the single-assignment layer function, for any contents of the reused buffers |
| `Transformer.Decoder.DecoderLayer` | lib/src/transformer.c:934-1154 | the residual goes from the reference input of layer l to that of layer l + 1, and the caches gain that layer's row |
| `Transformer.Decoder.Step` | lib/src/transformer.c:1215-1276 | a token is returned if and only if the cache accepts one and none of the 4 + 22 L calls of this step fails; it is the reference's next token and is committed; a failed step leaves the committed tokens, ends at its own first failing call, and leaves `pending` non-zero if and only if it was so before or the first append was reached |
| `Transformer.Decoder.StepsInVain` | lib/src/transformer.c:1215-1276 | once `pending` is left non-zero, or the cache is full, every later step of any sequence fails, whatever the environment does |
| `Transformer.Decoder.OneFaultJams` | lib/src/transformer.c:1017-1025 | a single failing launch right after the first append is enough for that |
| `Transformer.Decoder.Generate` | lib/test/infer_tokens.c:164-266 | for every prompt and limit, what is generated is greedy decoding with the cache-free reference, up to the first end token or the limit; it fails only for inadmissible arguments, for the first failing call of its own, or for a negative next token |
| `Transformer.AdmissibleExactly` | lib/test/infer_tokens.c:161-183 | the checks admit a prompt of known tokens exactly when the cache accepts every step of a run to the limit |
| `Transformer.GreedyIsUnique` | lib/test/infer_tokens.c:232-261 | there is only one such sequence |
| `CondExpr.PrintThenParse` | kernel-headers/scripts/unifdef.c:804-945 | printing an expression with the fewest parentheses and parsing it gives it back |
| `CondExpr.GroupedAsInC` | kernel-headers/scripts/unifdef.c:804-823 | three operands are grouped as the C standard says, for every pair of operators |
| `CondExpr.DefinedInParens` | kernel-headers/scripts/unifdef.c:860-883 | defined takes its operand in parentheses too |
| `CondExpr.ClosesExactly` | kernel-headers/scripts/unifdef.c:1083-1103 | the closing parenthesis is where, for the first time, as many are closed as opened |
| `CondExpr.Sound` | kernel-headers/scripts/unifdef.c:746-777 | yes and no are right for every value of the unknown symbols, in strict and in lazy logic, with C's two integer types, if the numbers of the vocabulary are readable |
| `CondExpr.ReadableExactly` | kernel-headers/scripts/unifdef.c:853-899 | all expressions over given numerals and names are decided rightly, for every agreeing compiler, if and only if truncation keeps those numbers and 0 and 1 in order and no negative one can meet an unsigned one |
| `CondExpr.MixedClash` | kernel-headers/scripts/unifdef.c:746-767 | a negative number and any unsigned one compare differently as read and after conversion, unless one of them is misread already |
| `CondExpr.FittingIsReadable` | kernel-headers/scripts/unifdef.c:853-899 | that is so for all numbers that fit in an int, without unsigned numerals or without negative values |
| `CondExpr.ReadableIffFits` | kernel-headers/scripts/unifdef.c:853-899 | and, where a number can also be met as it is read, only for those (or negative multiples of 2^64) |
| `CondExpr.UnfitYetReadable` | kernel-headers/scripts/unifdef.c:853-859 | but not in general: 2^32 + 5 alone is harmless |
| `CondExpr.StrictIsExact` | kernel-headers/scripts/unifdef.c:746-777 | strict logic leaves a condition open if and only if an unknown symbol occurs in it |
| `CondExpr.LazyDecidesMore` | kernel-headers/scripts/unifdef.c:768-777 | lazy logic decides whatever strict logic decides, the same way |
| `CondExpr.LazyJunctions` | kernel-headers/scripts/unifdef.c:768-777 | lazy logic decides a disjunction by one true operand or two false ones, a conjunction the other way round |
| `CondExpr.LazyDecidesExactly` | kernel-headers/scripts/unifdef.c:768-777 | a condition in which no unknown name decides two operands and none is compared is decided, and how, exactly when all compilers that agree with the command line find it so |
| `CondExpr.TwiceIsLeftOpen` | kernel-headers/scripts/unifdef.c:768-777 | a name that occurs twice is taken for two: a disjunction of X and its negation is left open although every compiler finds it true |
| `CondExpr.Evaluator.FindClose` | kernel-headers/scripts/unifdef.c:1083-1103 | macro arguments are skipped up to the matching parenthesis, or not at all |
| `CondExpr.Evaluator.EvalUnary` | kernel-headers/scripts/unifdef.c:824-907 | the verdict, value and end position of the expression the grammar finds, whatever the value slot held |
| `CondExpr.Evaluator.EvalTable` | kernel-headers/scripts/unifdef.c:912-944 | likewise for a level of binary operators, although the right operand's slot starts uninitialised |
| `CondExpr.Evaluator.IfEval` | kernel-headers/scripts/unifdef.c:951-962 | errors and, unless asked for, constant expressions are left open |
| `Unifdef.SeenAlike` | kernel-headers/scripts/unifdef.c:95-108 | in every reachable state printed lines are seen alike in input and output, dropped lines are not seen in the input |
| `Unifdef.DirectiveStep` | kernel-headers/scripts/unifdef.c:418-502 | each of the 200 directive transitions keeps the relation between the groups open in the input and in the output |
| `Unifdef.StepsSimulate` | kernel-headers/scripts/unifdef.c:583-597 | so does any run |
| `Unifdef.MeaningPreserved` | kernel-headers/scripts/unifdef.c:418-596 | on success input and output are well nested and leave the same text, for every consistent truth assignment, with dodgy and ignored lines included |
| `Unifdef.SucceedsExactly` | kernel-headers/scripts/unifdef.c:418-547 | without dodgy lines it succeeds if and only if the input is well nested and at most 63 deep |
| `Unifdef.NeverAborts` | kernel-headers/scripts/unifdef.c:507-547 | the three internal checks, in ignoreoff, nest and unnest, never fire |
| `Unifdef.Idempotent` | kernel-headers/scripts/unifdef.c:418-596 | nothing decided is left in the output and a second run changes nothing |
| `Unifdef.SettledLeavesText` | kernel-headers/scripts/unifdef.c:418-596 | if every condition is decided, no directive is left |
| `Unifdef.DodgyExactly` | kernel-headers/scripts/unifdef.c:458-502 | for all 100 pairs of state and kind: a directive that does not stand on one line is handled like one that does if that keeps it in kept text or drops it in dropped text; as undecided if the user allows it; otherwise refused, with the two exceptions for #elif after a false branch |
| `Unifdef.Processor.Line` | kernel-headers/scripts/unifdef.c:418-547 | one table-driven step on the array of states is one step of the machine |
| `Unifdef.Processor.Process` | kernel-headers/scripts/unifdef.c:583-597 | the loop computes the run of the machine, with the end of file checked |
| `UnifdefFile.Parser.ParseLine` | kernel-headers/scripts/unifdef.c:670-711 | the kind of a directive, which `IfdefDecidedExactly`, `StrictLineExactly` and `LazyLineExactly` tie to what compilers decide |
| `UnifdefFile.Parser.Run` | kernel-headers/scripts/unifdef.c:583-711 | classifies every line and runs the machine over them |
| `UnifdefFile.OnlyDecides` | kernel-headers/scripts/unifdef.c:670-711 | classifying lines decides conditions and changes nothing else that a compiler sees |
| `UnifdefFile.IfdefDecidedExactly` | kernel-headers/scripts/unifdef.c:674-690 | an #ifdef or #ifndef line is decided, and how, exactly when every compiler that agrees with the command line takes it so; it counts as ignored exactly if its symbol does |
| `UnifdefFile.StrictLineExactly` | kernel-headers/scripts/unifdef.c:691-711 | with strict logic an #if or #elif line is decided exactly when it is one sensible expression without unknown symbols and not a constant to be left alone, and then as every agreeing compiler takes it |
| `UnifdefFile.LazyLineExactly` | kernel-headers/scripts/unifdef.c:691-711 | with lazy logic such a line, if its unknown names are independent, is decided, and how, exactly when every agreeing compiler takes it so |
| `UnifdefFile.DecidedLeavesText` | kernel-headers/scripts/unifdef.c:418-711 | if every condition is decided, the output is the text that every agreeing compiler keeps and holds no directive |
| `UnifdefFile.ProgramSucceedsExactly` | kernel-headers/scripts/unifdef.c:418-711 | without dodgy lines a file is processed to the end if and only if a compiler finds its groups well nested and at most 63 deep |
| `UnifdefFile.LineIsConsistent` | kernel-headers/scripts/unifdef.c:670-711 | a decided line is decided as any agreeing compiler decides it, for a readable vocabulary |
| `UnifdefFile.ProgramPreservesMeaning` | kernel-headers/scripts/unifdef.c:418-962 | for every compiler that agrees with the command line, line by line, input and output leave the same text, for a readable vocabulary |
| `UnifdefFile.ProgramExactly` | kernel-headers/scripts/unifdef.c:418-962 | all files over a vocabulary keep their meaning, for all agreeing compilers, if and only if truncation keeps its numbers in order and no negative one can meet an unsigned one, or no symbol is given, logic is strict and constants are left alone |
| `UnifdefFile.TrapLine` | kernel-headers/scripts/unifdef.c:951-962 | two numbers that compare differently when read make an #if line that is classified as false although it holds, also under default options |
| `UnifdefFile.TrapFile` | kernel-headers/scripts/unifdef.c:418-962 | and a file whose text is lost |
| `UnifdefFile.ValueMisread` | kernel-headers/scripts/unifdef.c:884-899 | with -DA=4294967296 the line #if A is decided as false, under any options |
| `UnifdefFile.NumeralMisread` | kernel-headers/scripts/unifdef.c:853-859 | with -UA the line #if A OR 4294967296 (with the C operator) is decided as false, under any options |
| `UnifdefFile.UnsignedMisread` | kernel-headers/scripts/unifdef.c:746-767 | with -DA=-1 the line #if A < 1U is decided as true, under any options, although both numbers fit and are in order |
| `Kallsyms.FindToken` | kernel-headers/scripts/kallsyms.c:580-590 | the first occurrence of the pair, or none |
| `Kallsyms.ReplacedFirst` | kernel-headers/scripts/kallsyms.c:614-629 | replacing the first occurrence and then the rest is left-to-right replacement without overlap |
| `Kallsyms.ReplaceInPlace` | kernel-headers/scripts/kallsyms.c:612-631 | the loop, whose `size` counts one byte too many per replacement, computes just that and stays in the buffer |
| `Kallsyms.EntryExpands` | kernel-headers/scripts/kallsyms.c:312-335 | a token stands for what its two codes stand for |
| `Kallsyms.RanksDrop` | kernel-headers/scripts/kallsyms.c:312-335 | the codes of a token are characters or tokens of strictly higher number, so expansion ends |
| `Kallsyms.ReplacedExpands` | kernel-headers/scripts/kallsyms.c:598-633 | replacing a pair by a new token leaves what a symbol stands for |
| `Kallsyms.CountOccurs` | kernel-headers/scripts/kallsyms.c:554-569 | the count of a pair in a symbol is the number of places where its two codes stand next to each other |
| `Kallsyms.Compressor.Tally` | kernel-headers/scripts/kallsyms.c:554-569 | learning and forgetting change each count by that number |
| `Kallsyms.Compressor.FindBest` | kernel-headers/scripts/kallsyms.c:636-650 | the first pair with the highest count |
| `Kallsyms.Compressor.CompressOne` | kernel-headers/scripts/kallsyms.c:603-632 | one symbol is replaced and the counts stay those of all symbols |
| `Kallsyms.Compressor.CompressAll` | kernel-headers/scripts/kallsyms.c:598-633 | every symbol is replaced and the counts stay exact |
| `Kallsyms.BestIsFirst` | kernel-headers/scripts/kallsyms.c:636-650 | a first most frequent pair is the one that greedy optimisation takes |
| `Kallsyms.OptimizedIsComplete` | kernel-headers/scripts/kallsyms.c:653-679 | greedy optimisation stops only when every code is in use or every symbol has fewer than two codes |
| `Kallsyms.OptimizedTakesMost` | kernel-headers/scripts/kallsyms.c:653-679 | each new token is the pair that occurs most often at that moment, of several the one that is first by second and then by first code |
| `Kallsyms.Compressor.EnterCharacters` | kernel-headers/scripts/kallsyms.c:682-693 | the table holds exactly the characters that occur |
| `Kallsyms.Compressor.Optimize` | kernel-headers/scripts/kallsyms.c:653-679 | before every code, and at the end, each symbol expands to its original; table and symbols are those of greedy optimisation |
| `Kallsyms.Compressor.Compress` | kernel-headers/scripts/kallsyms.c:682-702 | the round trip: whatever the symbols, each compressed one expands to the one read; either all codes are in use or no symbol has two codes left |
| `Kallsyms.Compressor.ExpandSymbol` | kernel-headers/scripts/kallsyms.c:312-335 | the recursive expander ends and computes the expansion |
| `Sorttable.AdjustedBack` | kernel-headers/scripts/sorttable.c:215-266 | normalising and denormalising undo each other modulo 2^32, in either order |
| `Sorttable.SortRelativeTable` | kernel-headers/scripts/sorttable.c:215-238 | the multiset of absolute entries is preserved and the instruction targets, as signed 32-bit numbers, ascend, for every length and all wrap-around values |
| `Sorttable.SortRelativeTableWithData` | kernel-headers/scripts/sorttable.c:240-266 | likewise, with the data word of each entry untouched |
| `Sorttable.TargetAt` | kernel-headers/scripts/sorttable.c:215-266 | what an absolute entry is, for both layouts: two sums of a word and its place modulo 2^32, and the data words |
| `Sorttable.TargetCount` | kernel-headers/scripts/sorttable.c:215-266 | there is one such entry for each whole entry of the table |
| `Asn1.Renderer.RenderElement` | kernel-headers/scripts/asn1_compiler.c:1439-1611 | emits exactly the code of the element and queues what it refers to for the first time |
| `Asn1.Renderer.Refer` | kernel-headers/scripts/asn1_compiler.c:1531-1546 | a jump is emitted and an element is queued at most once per pass |
| `Asn1.LinkOfFirst` | kernel-headers/scripts/asn1_compiler.c:1398-1401 | the link of the last waiting element is empty although nothing clears the links of the first pass |
| `Asn1.Renderer.RenderList` | kernel-headers/scripts/asn1_compiler.c:1392-1434 | the list is worked off completely; with final entries the code written is the final code |
| `Asn1.LabelsAreRight` | kernel-headers/scripts/asn1_compiler.c:1356-1434 | the program is the root's code and the body of each queued element, once each, and each entry is where that body stands |
| `Asn1.JumpsLand` | kernel-headers/scripts/asn1_compiler.c:1531-1583 | the target of every jump to an element is the index at which the code of that element stands |
| `Asn1.JumpsBackLand` | kernel-headers/scripts/asn1_compiler.c:1411-1583 | every jump back, inline or out of line, stands after the end of a repeated element and leads to where what it repeats starts, which stands from there up to that end |
| `Asn1.ProgramIsBracketed` | kernel-headers/scripts/asn1_compiler.c:1439-1611 | read operation by operation with its operands, the root's code ends whatever it opens and completes, and the body at each entry ends its element and whatever it opens, and returns |
| `Asn1.CodeIsWalk` | kernel-headers/scripts/asn1_compiler.c:1439-1611 | the code of an element meets elements, enters jumps and calls actions in the order of the walk over the grammar, wherever it stands |
| `Asn1.BodyIsWalk` | kernel-headers/scripts/asn1_compiler.c:1392-1434 | an out-of-line body is the walk over all children and then the action |
| `Asn1.HeadBits` | kernel-headers/scripts/asn1_compiler.c:1457-1519 | the match that an element starts with has the flag bits of the byte code header for skip, action, jump, any and condition, names the right tag, and exists unless a condition comes without leave to skip |
| `Asn1.ActionFollowsMatch` | kernel-headers/scripts/asn1_compiler.c:1487-1528 | a match that announces an action is followed by tag and action if and only if it is not the tag of a type reference |
| `Asn1.RecursionThroughChoice` | kernel-headers/scripts/asn1_compiler.c:1487-1525 | a type that recurs through an alternative of a choice is admitted: the alternative's tag takes it out of line |
| `Asn1.Renderer.Pass` | kernel-headers/scripts/asn1_compiler.c:1356-1383 | either pass computes the same list and entries; the second writes the program |
| `Asn1.Renderer.Render` | kernel-headers/scripts/asn1_compiler.c:1356-1383 | both passes together write the program with every jump resolved |

## Left out

- gpgpu_drv.c: PCI, MMIO, mmap and wait queues; it offers no guarantee between callers.
- Float arithmetic and rounding, the reductions over a row (sum of squares, softmax, argmax) and the contents of the sine and cosine table are unknown functions.
- Kernels: rmsnorm is written for 896 cells, rope for heads of 64, vmul and embedding for multiples of 32; the model takes these from the configuration, and `Workspace.DefaultFits` shows that the default one agrees. What a kernel would find beyond the end of a buffer, with weights that do not fit the configuration, is not modelled.
- Machine addresses: VRAM is an array of 8-byte words (4-byte cells for the decoder), links are page or slot numbers instead of pointers, and the base address is zero.
- The page list of a slab cache is a sequence, not a linked list; the free list of slots is linked in memory.
- gpuMemcpy and device I/O errors other than a failed launch; gpuDestroy.
- `Workspace.Init`: the contents of the kernel binaries and the clearing of the two residual buffers, which are overwritten before they are read, are not copied; the structures of cache and workspace themselves are always obtained from the host.
- `Workspace.WriteBack`: the decoder's cells are an array of their own, of unbounded integers; VRAM gets their low 32 bits.
- `Device.Config`: dimensions are unbounded integers and shared by decoder and cache; the source multiplies some of them in 32 bits and compares only max_seq of the two (lib/src/transformer.c:390).
- `Transformer.Decoder.Step`: requires the position to be the number of committed tokens, as the source asserts (lib/src/transformer.c:700); on a full cache it models the error code of the append, which is what happens when assertions are compiled out.
- `Transformer.Decoder.Generate`: token ids are the words exchanged with the device; a negative one counts as failure, as in the source.
- `WeightLoader.Load`: opening and reading a file are one flag per file; host allocation of the loader itself does not fail.
- unifdef at character level (comments, literals, line joining, buffer sizes), the options -b, -B, -c, -n, -s and -S, and the effect of ignored symbols on comment parsing; what follows a dodgy directive on its later lines is plain text here.
- `CondExpr.Sound`: needs readable numbers, which `CondExpr.ReadableExactly` shows to be the exact condition; numerals are C99 integer constants (no binary ones, which strtol stops at), and one without a type in C is taken as GCC does; a macro given on the command line is worth its value with or without arguments.
- `CondExpr.LazyDecidesExactly`: for conditions in which an unknown name occurs on both sides of an operator, or in a comparison, lazy logic may leave open what all compilers decide alike (`CondExpr.TwiceIsLeftOpen`); a condition that names a symbol with a text value is always left open.
- kallsyms reading, filtering, sorting and output; counts are unbounded integers.
- `Sorttable.SortRelativeTableWithData`: requires whole entries, which the source relies on; `qsort` is some sort of which only order and content are used.
- ELF handling in sorttable and the other scripts.
- asn1_compiler: tokenising, parsing, the text of the generated C, SET types (refused by the source), and grammars in which inlining does not end.
