/** Bringing the decoder up: the weights are loaded, the two cache buffers and the workspace are allocated, and whatever
    fails undoes what was done before it.  What comes out is all that decoding relies on. */
module Workspace {
  import opened Wrappers
  import opened Blocks
  import opened Buddy
  import opened Slab
  import opened Bytes
  import opened Gpu
  import opened KvCache
  import opened WeightLoader
  import D = Device
  import K = Kernels
  import P = Placement
  import T = Transformer

  /** Allocations made one after the other: the calls, what each returned and the states between them. */
  datatype Log = Log(calls: seq<Call>, results: seq<int>, states: seq<Ownership>)

  /** The log is a run that starts in a state: every result is the right one at its moment. */
  ghost predicate LogRan(pages: nat, start: Ownership, log: Log) {
    && (forall c :: c in log.calls ==> c.GpuMalloc?)
    && Mallocs(log.calls) == |log.calls| == |log.results|
    && Ran(pages, log.calls, log.results, log.states)
    && log.states[0] == start
  }

  /** It leads to another state. */
  ghost predicate LogOk(pages: nat, start: Ownership, now: Ownership, log: Log) {
    LogRan(pages, start, log) && log.states[|log.calls|] == now
  }

  /** All calls were made and none failed. */
  ghost predicate Complete(log: Log, calls: seq<Call>) {
    log.calls == calls && FAILED !in log.results
  }

  /** The calls were made in order, all of them unless one failed. */
  ghost predicate Attempted(log: Log, calls: seq<Call>) {
    log.calls <= calls && (log.calls == calls || FAILED in log.results)
  }

  ghost predicate Piece(allocs0: map<nat, nat>, allocs: map<nat, nat>, o: int, size: nat) {
    o >= 0 && o in allocs && o !in allocs0 && size <= allocs[o]
  }

  /** What was allocated since `allocs0` is one piece for each request that succeeded, long enough and its own. */
  ghost predicate Obtained(allocs0: map<nat, nat>, allocs: map<nat, nat>, offs: seq<int>, sizes: seq<nat>) {
    && |offs| == |sizes|
    && Includes(allocs, allocs0)
    && (forall j :: 0 <= j < |offs| ==> offs[j] == FAILED || Piece(allocs0, allocs, offs[j], sizes[j]))
    && (forall i, j :: 0 <= i < j < |offs| && offs[i] != FAILED ==> offs[i] != offs[j])
    && forall o :: o in allocs && o !in allocs0 ==> o in offs
  }

  ghost function Sizes(calls: seq<Call>): (r: seq<nat>)
    requires forall c :: c in calls ==> c.GpuMalloc?
    ensures |r| == |calls| && forall i :: 0 <= i < |r| ==> r[i] == calls[i].size
  {
    seq<nat>(|calls|, i requires 0 <= i < |calls| => calls[i].size)
  }

  lemma ObtainOne(allocs0: map<nat, nat>, allocs: map<nat, nat>, allocs': map<nat, nat>, offs: seq<int>, sizes: seq<nat>,
                  size: nat, r: int)
    requires Obtained(allocs0, allocs, offs, sizes)
    requires r == FAILED ==> allocs' == allocs
    requires r != FAILED ==> r >= 0 && r !in allocs && r in allocs' && allocs' == allocs[r := allocs'[r]] && size <= allocs'[r]
    ensures Obtained(allocs0, allocs', offs + [r], sizes + [size])
  {
    var offs' := offs + [r];
    forall o | o in allocs' && o !in allocs0 ensures o in offs' {
      if o in allocs {
        assert o in offs;
      } else {
        assert offs'[|offs|] == o;
      }
    }
  }

  lemma ReleaseOne(allocs0: map<nat, nat>, allocs: map<nat, nat>, offs: seq<int>, sizes: seq<nat>)
    requires Obtained(allocs0, allocs, offs, sizes) && offs != []
    ensures Obtained(allocs0, if offs[0] == FAILED then allocs else allocs - {offs[0]}, offs[1..], sizes[1..])
  {
    var allocs' := if offs[0] == FAILED then allocs else allocs - {offs[0]};
    forall o | o in allocs' && o !in allocs0 ensures o in offs[1..] {
      var j :| 0 <= j < |offs| && offs[j] == o;
      assert offs[1..][j - 1] == o;
    }
    forall j | 0 <= j < |offs[1..]| && offs[1..][j] != FAILED
      ensures Piece(allocs0, allocs', offs[1..][j], sizes[1..][j])
    {
      assert Piece(allocs0, allocs, offs[j + 1], sizes[j + 1]);
    }
  }

  lemma ReleasedAll(allocs0: map<nat, nat>, allocs: map<nat, nat>, sizes: seq<nat>)
    requires Obtained(allocs0, allocs, [], sizes)
    ensures allocs == allocs0
  {
    var none: seq<int> := [];
    assert forall o :: o in allocs && o !in allocs0 ==> o in none;
  }

  /** One call of gpuMalloc after those in the log. */
  method Request(ctx: GpuContext, call: Call, ghost allocs0: map<nat, nat>, ghost mem0: seq<int>, ghost start: Ownership,
                 ghost log: Log) returns (r: int, ghost log': Log)
    requires ctx.Valid() && call.GpuMalloc? && LogOk(ctx.buddy.pages, start, ctx.Owned(), log)
    requires Obtained(allocs0, ctx.allocs, log.results, Sizes(log.calls)) && Kept(mem0, ctx.buddy.mem[..], allocs0)
    modifies ctx, ctx.slabs, ctx.buddy, ctx.buddy.mem, ctx.buddy.freeList, ctx.buddy.pageOrder
    ensures ctx.Valid() && LogOk(ctx.buddy.pages, start, ctx.Owned(), log')
    ensures log'.calls == log.calls + [call] && log'.results == log.results + [r]
    ensures Obtained(allocs0, ctx.allocs, log'.results, Sizes(log'.calls)) && Kept(mem0, ctx.buddy.mem[..], allocs0)
  {
    hide GpuContext.Valid, Kept, Taken, Ran, Obtained;
    ContextIsWired(ctx);
    r := ctx.Malloc(call.size, call.hostOk);
    log' := Log(log.calls + [call], log.results + [r], log.states + [ctx.Owned()]);
    assert log'.calls[..|log.calls|] == log.calls;
    RanSize(ctx.buddy.pages, log.calls, log.results, log.states);
    MallocStep(ctx.buddy.pages, log'.calls, log.results, log.states, ctx.Owned(), r);
    ObtainOne(allocs0, old(ctx.allocs), ctx.allocs, log.results, Sizes(log.calls), call.size, r);
    assert Sizes(log'.calls) == Sizes(log.calls) + [call.size];
    ObtainedIncludes(allocs0, old(ctx.allocs), log.results, Sizes(log.calls));
    KeptStep(mem0, old(ctx.buddy.mem[..]), ctx.buddy.mem[..], old(ctx.allocs), allocs0);
  }

  lemma RanSize(pages: nat, calls: seq<Call>, results: seq<int>, states: seq<Ownership>)
    requires Mallocs(calls) <= |results| && Ran(pages, calls, results, states)
    ensures |states| == |calls| + 1
  {
  }

  lemma ObtainedIncludes(allocs0: map<nat, nat>, allocs: map<nat, nat>, offs: seq<int>, sizes: seq<nat>)
    requires Obtained(allocs0, allocs, offs, sizes)
    ensures Includes(allocs, allocs0) && |offs| == |sizes|
  {
  }

  /** Calls of gpuMalloc one after the other, whether or not one fails. */
  method RequestAll(ctx: GpuContext, calls: seq<Call>, ghost allocs0: map<nat, nat>, ghost mem0: seq<int>,
                    ghost start: Ownership, ghost log: Log) returns (offs: seq<int>, ghost log': Log)
    requires ctx.Valid() && (forall c :: c in calls ==> c.GpuMalloc?) && LogOk(ctx.buddy.pages, start, ctx.Owned(), log)
    requires Obtained(allocs0, ctx.allocs, log.results, Sizes(log.calls)) && Kept(mem0, ctx.buddy.mem[..], allocs0)
    modifies ctx, ctx.slabs, ctx.buddy, ctx.buddy.mem, ctx.buddy.freeList, ctx.buddy.pageOrder
    ensures ctx.Valid() && LogOk(ctx.buddy.pages, start, ctx.Owned(), log')
    ensures |offs| == |calls| && log'.calls == log.calls + calls && log'.results == log.results + offs
    ensures Obtained(allocs0, ctx.allocs, log'.results, Sizes(log'.calls)) && Kept(mem0, ctx.buddy.mem[..], allocs0)
  {
    hide GpuContext.Valid, Kept, LogOk, Obtained;
    ContextIsWired(ctx);
    LogCalls(ctx.buddy.pages, start, ctx.Owned(), log);
    offs, log' := [], log;
    for i := 0 to |calls|
      invariant ctx.Valid() && LogOk(ctx.buddy.pages, start, ctx.Owned(), log')
      invariant |offs| == i && log'.calls == log.calls + calls[..i] && log'.results == log.results + offs
      invariant forall c :: c in log'.calls ==> c.GpuMalloc?
      invariant Obtained(allocs0, ctx.allocs, log'.results, Sizes(log'.calls)) && Kept(mem0, ctx.buddy.mem[..], allocs0)
    {
      var r;
      r, log' := Request(ctx, calls[i], allocs0, mem0, start, log');
      LogCalls(ctx.buddy.pages, start, ctx.Owned(), log');
      offs := offs + [r];
    }
  }

  lemma LogCalls(pages: nat, start: Ownership, now: Ownership, log: Log)
    requires LogOk(pages, start, now, log)
    ensures forall c :: c in log.calls ==> c.GpuMalloc?
  {
    hide Ran;
  }

  /** The destroy functions: free every offset that is not the invalid one. */
  method ReleaseAll(ctx: GpuContext, offs: seq<int>, ghost sizes: seq<nat>, ghost allocs0: map<nat, nat>, ghost mem0: seq<int>)
    requires ctx.Valid() && Obtained(allocs0, ctx.allocs, offs, sizes) && Kept(mem0, ctx.buddy.mem[..], allocs0)
    modifies ctx, ctx.slabs, ctx.buddy, ctx.buddy.mem, ctx.buddy.freeList, ctx.buddy.pageOrder
    ensures ctx.Valid() && ctx.allocs == allocs0 && Kept(mem0, ctx.buddy.mem[..], allocs0)
  {
    hide GpuContext.Valid, Kept, Released, Obtained;
    ObtainedIncludes(allocs0, ctx.allocs, offs, sizes);
    for i := 0 to |offs|
      invariant ctx.Valid() && |sizes| == |offs| && Obtained(allocs0, ctx.allocs, offs[i..], sizes[i..])
      invariant Kept(mem0, ctx.buddy.mem[..], allocs0)
    {
      assert offs[i..][1..] == offs[i + 1..] && sizes[i..][1..] == sizes[i + 1..] && offs[i..][0] == offs[i];
      ReleaseOne(allocs0, ctx.allocs, offs[i..], sizes[i..]);
      if offs[i] != FAILED {
        FirstIsHeld(allocs0, ctx.allocs, offs[i..], sizes[i..]);
        ghost var mem1 := ctx.buddy.mem[..];
        ctx.Free(offs[i]);
        ObtainedIncludes(allocs0, ctx.allocs, offs[i + 1..], sizes[i + 1..]);
        KeptStep(mem0, mem1, ctx.buddy.mem[..], ctx.allocs, allocs0);
      }
    }
    ReleasedAll(allocs0, ctx.allocs, sizes[|offs|..]);
  }

  lemma FirstIsHeld(allocs0: map<nat, nat>, allocs: map<nat, nat>, offs: seq<int>, sizes: seq<nat>)
    requires Obtained(allocs0, allocs, offs, sizes) && offs != [] && offs[0] != FAILED
    ensures offs[0] >= 0 && offs[0] in allocs
  {
  }

  // ---------------------------------------------------------------------------------------------
  // The plan: two cache buffers, thirteen scratch buffers, eleven kernels and eleven argument buffers.

  /** A kernel binary as found on disk; it is missing when it cannot be read or is empty. */
  datatype KernelFile = Missing | Binary(size: nat, hostOk: bool)

  const NUM_SCRATCH: nat := 13
  const NUM_KERNELS: nat := 11
  const MAX_SEQ: nat := 128

  function CacheCalls(d: Dims, host: seq<bool>): (r: seq<Call>)
    requires |host| == 2
    ensures forall c :: c in r ==> c.GpuMalloc?
  {
    [GpuMalloc(Total(d) * D.CELL, host[0]), GpuMalloc(Total(d) * D.CELL, host[1])]
  }

  function ScratchCalls(cfg: D.Config, host: seq<bool>): (r: seq<Call>)
    requires |host| == NUM_SCRATCH
    ensures |r| == NUM_SCRATCH && forall c :: c in r ==> c.GpuMalloc?
  {
    var row, kv, ffn := cfg.hidden * D.CELL, cfg.KvDim() * D.CELL, cfg.intermediate * D.CELL;
    [GpuMalloc(row, host[0]), GpuMalloc(row, host[1]), GpuMalloc(row, host[2]), GpuMalloc(row, host[3]),
     GpuMalloc(kv, host[4]), GpuMalloc(kv, host[5]), GpuMalloc(cfg.numQHeads * cfg.dims.maxSeq * D.CELL, host[6]),
     GpuMalloc(ffn, host[7]), GpuMalloc(ffn, host[8]), GpuMalloc(cfg.vocab * D.CELL, host[9]),
     GpuMalloc(cfg.dims.maxSeq * cfg.dims.headDim * D.CELL, host[10]), GpuMalloc(4, host[11]), GpuMalloc(1024, host[12])]
  }

  /** A missing kernel is not asked for, but the others are. */
  function KernelCalls(kernels: seq<KernelFile>): (r: seq<Call>)
    ensures forall c :: c in r ==> c.GpuMalloc?
    ensures |r| <= |kernels| && (|r| == |kernels| <==> Missing !in kernels)
  {
    if kernels == [] then [] else
      match kernels[0]
      case Missing => KernelCalls(kernels[1..])
      case Binary(size, hostOk) => [GpuMalloc(size, hostOk)] + KernelCalls(kernels[1..])
  }

  function ArgsCalls(host: seq<bool>): (r: seq<Call>)
    requires |host| == NUM_KERNELS
    ensures |r| == NUM_KERNELS && forall i :: 0 <= i < |r| ==> r[i] == GpuMalloc(32, host[i])
  {
    seq(NUM_KERNELS, i requires 0 <= i < NUM_KERNELS => GpuMalloc(32, host[i]))
  }

  /** Which host allocations succeed. */
  datatype Host = Host(cache: seq<bool>, scratch: seq<bool>, args: seq<bool>) {
    predicate Ok() {
      |cache| == 2 && |scratch| == NUM_SCRATCH && |args| == NUM_KERNELS
    }
  }

  function InitCalls(cfg: D.Config, host: Host, kernels: seq<KernelFile>): (r: seq<Call>)
    requires host.Ok()
    ensures forall c :: c in r ==> c.GpuMalloc?
  {
    ScratchCalls(cfg, host.scratch) + KernelCalls(kernels) + ArgsCalls(host.args)
  }

  lemma LogStart(ctx: GpuContext)
    requires ctx.Valid()
    ensures LogOk(ctx.buddy.pages, ctx.Owned(), ctx.Owned(), Log([], [], [ctx.Owned()]))
    ensures Obtained(ctx.allocs, ctx.allocs, [], []) && Kept(ctx.buddy.mem[..], ctx.buddy.mem[..], ctx.allocs)
  {
    hide GpuContext.CachesValid, Ledger;
  }

  /** What is needed to compare a later state with this one. */
  lemma Before(ctx: GpuContext)
    requires ctx.Valid()
    ensures ctx.Wired() && Settled(ctx.Owned())
    ensures Ledger(ctx.allocs, ctx.Used(), ctx.buddy.live, ctx.buddy.marks) && SameHoldings(ctx.Owned(), ctx.Owned())
  {
    hide Settled, Ledger, SameHoldings, GpuContext.CachesValid;
    ContextIsWired(ctx);
    ContextIsSettled(ctx);
    HoldingsRestored(ctx, ctx.Owned());
  }

  lemma LogSize(pages: nat, start: Ownership, log: Log)
    requires LogRan(pages, start, log)
    ensures |log.states| == |log.calls| + 1
  {
  }

  lemma NoneObtained(allocs0: map<nat, nat>, allocs: map<nat, nat>, offs: seq<int>, sizes: seq<nat>)
    requires Obtained(allocs0, allocs, offs, sizes) && forall o :: o in offs ==> o == FAILED
    ensures allocs == allocs0
  {
  }

  /** kv_cache_create. */
  method CreateCache(ctx: GpuContext, d: Dims, host: seq<bool>) returns (ok: bool, k: int, v: int, ghost log: Log)
    requires ctx.Valid() && |host| == 2
    modifies ctx, ctx.slabs, ctx.buddy, ctx.buddy.mem, ctx.buddy.freeList, ctx.buddy.pageOrder
    ensures ctx.Valid() && Kept(old(ctx.buddy.mem[..]), ctx.buddy.mem[..], old(ctx.allocs))
    ensures LogRan(ctx.buddy.pages, old(ctx.Owned()), log) && Attempted(log, CacheCalls(d, host))
    ensures ok <==> Complete(log, CacheCalls(d, host))
    ensures ok ==>
              && log.results == [k, v] && |log.states| == 3 && log.states[2] == ctx.Owned()
              && Obtained(old(ctx.allocs), ctx.allocs, [k, v], Sizes(CacheCalls(d, host)))
    ensures !ok ==> ctx.allocs == old(ctx.allocs) && SameHoldings(old(ctx.Owned()), ctx.Owned())
  {
    hide GpuContext.Valid, Kept, LogRan, Obtained, SameHoldings, Settled, Ledger;
    var calls := CacheCalls(d, host);
    Before(ctx);
    LogStart(ctx);
    ContextIsWired(ctx);
    log := Log([], [], [ctx.Owned()]);
    k, log := Request(ctx, calls[0], old(ctx.allocs), old(ctx.buddy.mem[..]), old(ctx.Owned()), log);
    v, ok := FAILED, false;
    if k == FAILED {
      NoneObtained(old(ctx.allocs), ctx.allocs, log.results, Sizes(log.calls));
      HoldingsRestored(ctx, old(ctx.Owned()));
      return;
    }
    v, log := Request(ctx, calls[1], old(ctx.allocs), old(ctx.buddy.mem[..]), old(ctx.Owned()), log);
    assert log.results == [k, v] && log.calls == calls;
    LogSize(ctx.buddy.pages, old(ctx.Owned()), log);
    ok := v != FAILED;
    if !ok {
      ReleaseAll(ctx, [k, v], Sizes(calls), old(ctx.allocs), old(ctx.buddy.mem[..]));
      HoldingsRestored(ctx, old(ctx.Owned()));
    }
  }

  /** transformer_init: three groups of allocations, each checked as a whole; then the table goes to its buffer.  Any
      failure frees all that was obtained. */
  method Init(ctx: GpuContext, cfg: D.Config, rows: nat, cacheSeq: nat, host: Host, kernels: seq<KernelFile>,
              table: Option<seq<byte>>) returns (ws: Option<seq<int>>, ghost log: Log)
    requires ctx.Valid() && host.Ok() && |kernels| == NUM_KERNELS
    requires table.Some? ==> |table.value| == cfg.dims.maxSeq * cfg.dims.headDim * D.CELL
    modifies ctx, ctx.slabs, ctx.buddy, ctx.buddy.mem, ctx.buddy.freeList, ctx.buddy.pageOrder
    ensures ctx.Valid() && Kept(old(ctx.buddy.mem[..]), ctx.buddy.mem[..], old(ctx.allocs))
    ensures LogRan(ctx.buddy.pages, old(ctx.Owned()), log) && log.calls <= InitCalls(cfg, host, kernels)
    ensures rows == 1 && cfg.dims.maxSeq == cacheSeq == MAX_SEQ && Missing !in kernels ==>
              Attempted(log, InitCalls(cfg, host, kernels))
    ensures ws.Some? <==>
              && rows == 1 && cfg.dims.maxSeq == cacheSeq == MAX_SEQ && Missing !in kernels && table.Some?
              && Complete(log, InitCalls(cfg, host, kernels))
    ensures ws.Some? ==>
              && ws.value == log.results && log.states[|log.calls|] == ctx.Owned()
              && Obtained(old(ctx.allocs), ctx.allocs, ws.value, Sizes(log.calls))
              && |ws.value| > SINCOS && StoredAt(ctx.buddy.mem[..], ws.value[SINCOS], table.value)
    ensures ws.None? ==> ctx.allocs == old(ctx.allocs) && SameHoldings(old(ctx.Owned()), ctx.Owned())
  {
    hide GpuContext.Valid, Kept, LogRan, Obtained, StoredAt, SameHoldings, Settled, Ledger;
    Before(ctx);
    LogStart(ctx);
    ContextIsWired(ctx);
    ws, log := None, Log([], [], [ctx.Owned()]);
    if !Accepted(cfg, rows, cacheSeq) {
      return;
    }
    var ok, offs := false, [];
    ok, offs, log := Groups(ctx, cfg, host, kernels);
    if !ok || table.None? {
      ReleaseAll(ctx, offs, Sizes(log.calls), old(ctx.allocs), old(ctx.buddy.mem[..]));
      HoldingsRestored(ctx, old(ctx.Owned()));
      return;
    }
    ghost var mem1 := ctx.buddy.mem[..];
    TableFits(old(ctx.allocs), ctx.allocs, offs, cfg, host, kernels);
    ctx.CopyIn(offs[SINCOS], offs[SINCOS], table.value);
    ObtainedIncludes(old(ctx.allocs), ctx.allocs, offs, Sizes(log.calls));
    KeptBeside(ctx, offs[SINCOS], old(ctx.allocs), old(ctx.buddy.mem[..]), mem1, ctx.buddy.mem[..], offs[SINCOS], |table.value|);
    ws := Some(offs);
  }

  const SINCOS: nat := 10

  /** The checks on the configuration. */
  predicate Accepted(cfg: D.Config, rows: nat, cacheSeq: nat) {
    rows == 1 && cfg.dims.maxSeq == MAX_SEQ && cfg.dims.maxSeq == cacheSeq
  }

  method Groups(ctx: GpuContext, cfg: D.Config, host: Host, kernels: seq<KernelFile>)
    returns (ok: bool, offs: seq<int>, ghost log: Log)
    requires ctx.Valid() && host.Ok() && |kernels| == NUM_KERNELS
    modifies ctx, ctx.slabs, ctx.buddy, ctx.buddy.mem, ctx.buddy.freeList, ctx.buddy.pageOrder
    ensures ctx.Valid() && Kept(old(ctx.buddy.mem[..]), ctx.buddy.mem[..], old(ctx.allocs))
    ensures LogOk(ctx.buddy.pages, old(ctx.Owned()), ctx.Owned(), log) && log.calls <= InitCalls(cfg, host, kernels)
    ensures Missing !in kernels ==> Attempted(log, InitCalls(cfg, host, kernels))
    ensures ok <==> Missing !in kernels && Complete(log, InitCalls(cfg, host, kernels))
    ensures offs == log.results && Obtained(old(ctx.allocs), ctx.allocs, offs, Sizes(log.calls))
  {
    hide GpuContext.Valid, Kept, LogRan, Obtained, ScratchCalls, KernelCalls, ArgsCalls;
    LogStart(ctx);
    ContextIsWired(ctx);
    ghost var allocs0, mem0, start := ctx.allocs, ctx.buddy.mem[..], ctx.Owned();
    log := Log([], [], [ctx.Owned()]);
    ok, offs, log := Group(ctx, ScratchCalls(cfg, host.scratch), [], true, allocs0, mem0, start, log);
    if ok {
      ok, offs, log := Group(ctx, KernelCalls(kernels), offs, Missing !in kernels, allocs0, mem0, start, log);
    }
    if ok {
      ok, offs, log := Group(ctx, ArgsCalls(host.args), offs, true, allocs0, mem0, start, log);
    }
  }

  /** One group of allocations after others that succeeded. */
  method Group(ctx: GpuContext, calls: seq<Call>, offs: seq<int>, found: bool, ghost allocs0: map<nat, nat>,
               ghost mem0: seq<int>, ghost start: Ownership, ghost log: Log)
    returns (ok: bool, offs': seq<int>, ghost log': Log)
    requires ctx.Valid() && (forall c :: c in calls ==> c.GpuMalloc?) && LogOk(ctx.buddy.pages, start, ctx.Owned(), log)
    requires offs == log.results && FAILED !in offs
    requires Obtained(allocs0, ctx.allocs, offs, Sizes(log.calls)) && Kept(mem0, ctx.buddy.mem[..], allocs0)
    modifies ctx, ctx.slabs, ctx.buddy, ctx.buddy.mem, ctx.buddy.freeList, ctx.buddy.pageOrder
    ensures ctx.Valid() && LogOk(ctx.buddy.pages, start, ctx.Owned(), log')
    ensures log'.calls == log.calls + calls && offs' == log'.results
    ensures ok <==> found && FAILED !in offs'
    ensures Obtained(allocs0, ctx.allocs, offs', Sizes(log'.calls)) && Kept(mem0, ctx.buddy.mem[..], allocs0)
  {
    hide GpuContext.Valid, Kept, LogRan, Obtained;
    var more;
    more, log' := RequestAll(ctx, calls, allocs0, mem0, start, log);
    offs' := offs + more;
    ok := found && FAILED !in more;
  }

  lemma TableFits(allocs0: map<nat, nat>, allocs: map<nat, nat>, offs: seq<int>, cfg: D.Config, host: Host,
                  kernels: seq<KernelFile>)
    requires host.Ok() && Obtained(allocs0, allocs, offs, Sizes(InitCalls(cfg, host, kernels))) && FAILED !in offs
    ensures |offs| > SINCOS && Piece(allocs0, allocs, offs[SINCOS], cfg.dims.maxSeq * cfg.dims.headDim * D.CELL)
  {
    var calls := InitCalls(cfg, host, kernels);
    assert calls[SINCOS] == ScratchCalls(cfg, host.scratch)[SINCOS];
    assert offs[SINCOS] in offs;
    assert Piece(allocs0, allocs, offs[SINCOS], Sizes(calls)[SINCOS]);
  }

  // ---------------------------------------------------------------------------------------------
  // Where the buffers of the decoder are.

  const NUM_OFFSETS: nat := 37

  function OpIndex(op: D.Op): (i: nat)
    ensures i < NUM_KERNELS
  {
    match op
    case Rmsnorm => 0 case Gemm => 1 case BroadcastAdd => 2 case Silu => 3 case Vmul => 4 case Rope => 5
    case Embedding => 6 case Argmax => 7 case QktDecode => 8 case SoftmaxDecode => 9 case PvDecode => 10
  }

  /** Which of the allocations holds a buffer: caches, scratch, kernels, arguments. */
  function Index(b: D.Buf): (i: nat)
    requires P.Own(b)
    ensures i < NUM_OFFSETS
  {
    match b
    case KCache => 0 case VCache => 1
    case ResidA => 2 case ResidB => 3 case ScratchX => 4 case ScratchQ => 5 case ScratchK => 6 case ScratchV => 7
    case Scores => 8 case FfnA => 9 case FfnB => 10 case Logits => 11 case Sincos => 12 case TokenId => 13
    case ArgmaxDebug => 14
    case Args(op) => 26 + OpIndex(op)
  }

  /** The length of a buffer in cells. */
  function CellCount(cfg: D.Config, b: D.Buf): nat
    requires P.Own(b)
  {
    match b
    case KCache | VCache => Total(cfg.dims)
    case ResidA | ResidB | ScratchX | ScratchQ => cfg.hidden
    case ScratchK | ScratchV => cfg.KvDim()
    case Scores => cfg.numQHeads * cfg.dims.maxSeq
    case FfnA | FfnB => cfg.intermediate
    case Logits => cfg.vocab
    case Sincos => cfg.dims.maxSeq * cfg.dims.headDim
    case TokenId => 1
    case ArgmaxDebug => 256
    case Args(_) => D.ARGS_CELLS
  }

  function LayoutOf(cfg: D.Config, bases: seq<nat>, offs: seq<nat>): D.Buf -> D.Region
    requires |bases| == NUM_REGIONS && |offs| == NUM_OFFSETS
  {
    (b: D.Buf) =>
      if P.Own(b) then D.Region(offs[Index(b)], CellCount(cfg, b))
      else if P.Known(b) then
        D.Region(bases[FileRegion(P.FileOf(b))] + FileOffset(P.FileOf(b)) + P.InFile(b), P.PieceBytes(b) / D.CELL)
      else D.Region(0, 0)
  }

  lemma RequestedFor(cfg: D.Config, host: Host, kernels: seq<KernelFile>, b: D.Buf)
    requires host.Ok() && |kernels| == NUM_KERNELS && Missing !in kernels && P.Own(b)
    ensures var calls := CacheCalls(cfg.dims, host.cache) + InitCalls(cfg, host, kernels);
            |calls| == NUM_OFFSETS && calls[Index(b)].size == CellCount(cfg, b) * D.CELL
  {
    hide KernelCalls, Total;
    var i := Index(b);
    var init := InitCalls(cfg, host, kernels);
    if 2 <= i < 15 {
      assert init[i - 2] == ScratchCalls(cfg, host.scratch)[i - 2];
    } else if i >= 26 {
      assert init[i - 2] == ArgsCalls(host.args)[i - 26];
    }
  }

  lemma ObtainedThen(allocs0: map<nat, nat>, allocs1: map<nat, nat>, allocs2: map<nat, nat>, offs: seq<int>, sizes: seq<nat>,
                     offs': seq<int>, sizes': seq<nat>)
    requires Obtained(allocs0, allocs1, offs, sizes) && Obtained(allocs1, allocs2, offs', sizes')
    ensures Obtained(allocs0, allocs2, offs + offs', sizes + sizes')
  {
    var all, sz := offs + offs', sizes + sizes';
    forall j | 0 <= j < |all| && all[j] != FAILED ensures Piece(allocs0, allocs2, all[j], sz[j]) {
      if j < |offs| {
        assert Piece(allocs0, allocs1, offs[j], sizes[j]);
      } else {
        assert Piece(allocs1, allocs2, offs'[j - |offs|], sizes'[j - |offs|]);
      }
    }
    forall i, j | 0 <= i < j < |all| && all[i] != FAILED ensures all[i] != all[j] {
      if i < |offs| {
        assert Piece(allocs0, allocs1, offs[i], sizes[i]);
        if j >= |offs| && offs'[j - |offs|] != FAILED {
          assert Piece(allocs1, allocs2, offs'[j - |offs|], sizes'[j - |offs|]);
        }
      }
    }
    forall o | o in allocs2 && o !in allocs0 ensures o in all {
      if o in allocs1 {
        var j :| 0 <= j < |offs| && offs[j] == o;
        assert all[j] == o;
      } else {
        var j :| 0 <= j < |offs'| && offs'[j] == o;
        assert all[|offs| + j] == o;
      }
    }
  }

  lemma IndexApart(a: D.Buf, b: D.Buf)
    requires P.Own(a) && P.Own(b) && a != b
    ensures Index(a) != Index(b)
  {
  }

  lemma LayoutAt(cfg: D.Config, bases: seq<nat>, offs: seq<nat>, b: D.Buf)
    requires |bases| == NUM_REGIONS && |offs| == NUM_OFFSETS
    ensures P.Own(b) ==> LayoutOf(cfg, bases, offs)(b) == D.Region(offs[Index(b)], CellCount(cfg, b))
    ensures P.FromFile(b) && P.Known(b) ==>
              var r := LayoutOf(cfg, bases, offs)(b);
              && r.off == bases[FileRegion(P.FileOf(b))] + FileOffset(P.FileOf(b)) + P.InFile(b)
              && r.len * D.CELL == P.PieceBytes(b)
  {
    hide CellCount, Index, FileRegion, FileOffset, P.InFile, P.PieceBytes, P.FileOf;
    if P.FromFile(b) && P.Known(b) {
      WholeCells(b);
    }
  }

  lemma OwnPlace(allocs1: map<nat, nat>, allocs: map<nat, nat>, offs: seq<nat>, cfg: D.Config, host: Host,
                 kernels: seq<KernelFile>, b: D.Buf)
    requires host.Ok() && |kernels| == NUM_KERNELS && Missing !in kernels && P.Own(b) && |offs| == NUM_OFFSETS
    requires Obtained(allocs1, allocs, offs, Sizes(CacheCalls(cfg.dims, host.cache) + InitCalls(cfg, host, kernels)))
    ensures Piece(allocs1, allocs, offs[Index(b)], CellCount(cfg, b) * D.CELL)
    ensures forall a: D.Buf :: P.Own(a) && a != b ==> offs[Index(a)] != offs[Index(b)]
  {
    hide CellCount, Index, InitCalls, CacheCalls;
    RequestedFor(cfg, host, kernels, b);
    forall a: D.Buf | P.Own(a) && a != b ensures offs[Index(a)] != offs[Index(b)] {
      IndexApart(a, b);
      assert Index(a) < Index(b) ==> offs[Index(a)] != offs[Index(b)];
      assert Index(b) < Index(a) ==> offs[Index(b)] != offs[Index(a)];
    }
  }

  /** Allocations for the planned sizes, made after the regions, give every buffer its place. */
  lemma LayoutIsPlaced(allocs1: map<nat, nat>, allocs: map<nat, nat>, bases: seq<nat>, offs: seq<nat>, cfg: D.Config,
                       host: Host, kernels: seq<KernelFile>)
    requires host.Ok() && |kernels| == NUM_KERNELS && Missing !in kernels
    requires P.RegionsHeld(allocs1, bases) && |bases| == NUM_REGIONS && |offs| == NUM_OFFSETS
    requires Obtained(allocs1, allocs, offs, Sizes(CacheCalls(cfg.dims, host.cache) + InitCalls(cfg, host, kernels)))
    ensures P.Placed(allocs, bases, LayoutOf(cfg, bases, offs))
  {
    hide CellCount, Index, FileRegion, FileOffset, P.InFile, P.PieceBytes, P.FileOf, P.RegionsHeld, InitCalls, CacheCalls,
      LayoutOf, Obtained;
    var at := LayoutOf(cfg, bases, offs);
    ObtainedIncludes(allocs1, allocs, offs, Sizes(CacheCalls(cfg.dims, host.cache) + InitCalls(cfg, host, kernels)));
    P.RegionsSurvive(allocs1, allocs, bases);
    forall b: D.Buf | P.Known(b)
      ensures P.FromFile(b) ==>
                && at(b).off == bases[FileRegion(P.FileOf(b))] + FileOffset(P.FileOf(b)) + P.InFile(b)
                && at(b).len * D.CELL == P.PieceBytes(b)
      ensures P.Own(b) ==>
                at(b).off in allocs && at(b).len * D.CELL <= allocs[at(b).off] && at(b).off !in bases
    {
      LayoutAt(cfg, bases, offs, b);
      if P.Own(b) {
        OwnPlace(allocs1, allocs, offs, cfg, host, kernels, b);
      }
    }
    forall a: D.Buf, b: D.Buf | P.Own(a) && P.Own(b) && a != b ensures at(a).off != at(b).off {
      LayoutAt(cfg, bases, offs, a);
      LayoutAt(cfg, bases, offs, b);
      OwnPlace(allocs1, allocs, offs, cfg, host, kernels, b);
    }
  }

  lemma WholeCells(b: D.Buf)
    requires P.Known(b) && P.FromFile(b)
    ensures P.PieceBytes(b) % D.CELL == 0
  {
  }

  // ---------------------------------------------------------------------------------------------
  // What decoding starts from.

  ghost predicate FilesStored(mem: seq<int>, bases: seq<nat>, files: seq<seq<byte>>) {
    && |bases| == NUM_REGIONS && |files| == NUM_FILES
    && forall f :: 0 <= f < NUM_FILES ==>
         |files[f]| == FileBytes(f) && StoredAt(mem, bases[FileRegion(f)] + FileOffset(f), files[f])
  }

  /** Every buffer has its place; the weights and the table of sines and cosines are there. */
  ghost predicate Brought(ctx: GpuContext, cfg: D.Config, bases: seq<nat>, offs: seq<nat>, files: seq<seq<byte>>,
                          table: seq<byte>)
    reads ctx, ctx.buddy, ctx.buddy.mem, ctx.buddy.freeList, ctx.buddy.pageOrder, ctx.slabs
  {
    && ctx.Valid() && |bases| == NUM_REGIONS && |offs| == NUM_OFFSETS && |files| == NUM_FILES
    && FilesStored(ctx.buddy.mem[..], bases, files)
    && P.Placed(ctx.allocs, bases, LayoutOf(cfg, bases, offs))
    && |table| == cfg.dims.maxSeq * cfg.dims.headDim * D.CELL
    && StoredAt(ctx.buddy.mem[..], offs[Index(D.Sincos)], table)
  }

  function TensorBytes(files: seq<seq<byte>>, l: nat, t: nat): seq<byte> {
    if l + 3 < |files| && t < WL_TENSOR_COUNT && TensorOffset(t) + TensorFloats(t) * 4 <= |files[l + 3]|
    then files[l + 3][TensorOffset(t)..TensorOffset(t) + TensorFloats(t) * 4] else []
  }

  /** The model that the weight files describe. */
  function ModelOf(k: K.Arith, cfg: D.Config, files: seq<seq<byte>>, table: seq<byte>, rest: seq<int>): T.Model
    requires |files| == NUM_FILES
  {
    T.Model(k, cfg, CellsOf(table), CellsOf(files[0]), CellsOf(files[2]), CellsOf(files[1]),
            (l: nat, t: nat) => CellsOf(TensorBytes(files, l, t)), rest)
  }

  /** The decoder's cells are the bytes of VRAM. */
  ghost predicate SameMemory(ctx: GpuContext, dev: D.Memory)
    reads ctx.buddy, ctx.buddy.mem, dev.mem
  {
    && dev.mem.Length == ctx.buddy.pages * 1024 && dev.mem.Length <= 2 * ctx.buddy.mem.Length
    && forall c :: 0 <= c < dev.mem.Length ==> dev.mem[c] == CellAt(ctx.buddy.mem[..], c)
  }

  /** The part of a file that a buffer holds. */
  function BytesFor(files: seq<seq<byte>>, b: D.Buf): seq<byte>
    requires |files| == NUM_FILES && P.FromFile(b) && P.Known(b)
  {
    if b.Weight? then TensorBytes(files, b.layer, b.tensor) else files[P.FileOf(b)]
  }

  lemma BufferIsStored(mem: seq<int>, cfg: D.Config, bases: seq<nat>, offs: seq<nat>, files: seq<seq<byte>>, b: D.Buf)
    requires FilesStored(mem, bases, files) && |offs| == NUM_OFFSETS && P.FromFile(b) && P.Known(b)
    ensures StoredAt(mem, LayoutOf(cfg, bases, offs)(b).off, BytesFor(files, b))
    ensures |BytesFor(files, b)| == LayoutOf(cfg, bases, offs)(b).len * D.CELL
  {
    hide StoredAt, FileRegion, FileOffset, TensorOffset, TensorFloats, FileBytes, LayoutOf;
    LayoutAt(cfg, bases, offs, b);
    if b.Weight? {
      TensorInLayer(b.tensor);
      FileIsLayer(b.layer);
      StoredSlice(mem, bases[FileRegion(P.FileOf(b))] + FileOffset(P.FileOf(b)), files[P.FileOf(b)],
                  TensorOffset(b.tensor), TensorOffset(b.tensor) + TensorFloats(b.tensor) * 4);
    }
  }

  lemma FileIsLayer(l: nat)
    requires l < WL_NUM_LAYERS
    ensures FileBytes(l + 3) == WL_LAYER_BYTES
  {
  }

  lemma CellsAgree(ctx: GpuContext, dev: D.Memory, b: D.Buf, bytes: seq<byte>)
    requires dev.Wired() && dev.InUse(b) && SameMemory(ctx, dev)
    requires StoredAt(ctx.buddy.mem[..], dev.layout(b).off, bytes) && |bytes| == dev.layout(b).len * D.CELL
    ensures dev.Get(b) == CellsOf(bytes)
  {
    hide StoredAt, CellAt, CellsOf, D.Memory.Sized, D.Apart;
    forall i | 0 <= i < dev.layout(b).len ensures dev.Get(b)[i] == CellsOf(bytes)[i] {
      StoredCells(ctx.buddy.mem[..], dev.layout(b).off, bytes, i);
    }
  }

  lemma WiredUp(ctx: GpuContext, cfg: D.Config, bases: seq<nat>, offs: seq<nat>, dev: D.Memory)
    requires ctx.Valid() && |bases| == NUM_REGIONS && |offs| == NUM_OFFSETS && SameMemory(ctx, dev)
    requires P.Placed(ctx.allocs, bases, LayoutOf(cfg, bases, offs))
    requires dev.cfg == cfg && dev.layout == LayoutOf(cfg, bases, offs)
    requires cfg.dims.numLayers <= WL_NUM_LAYERS && cfg.dims.numKvHeads > 0 && cfg.dims.headDim > 0
    ensures dev.Wired()
  {
    hide GpuContext.Valid, P.Placed, LayoutOf, D.Memory.Wired, Index, Total, CellAt;
    forall b | dev.InUse(b) ensures dev.Sized(b) {
      LayoutAt(cfg, bases, offs, b);
    }
    P.DecoderIsWired(ctx, bases, dev);
  }

  /** A decoder over memory that was brought up in this way starts with its invariant, for the model of the weight files. */
  lemma DecoderStarts(ctx: GpuContext, cfg: D.Config, bases: seq<nat>, offs: seq<nat>, files: seq<seq<byte>>,
                      table: seq<byte>, dec: T.Decoder)
    requires Brought(ctx, cfg, bases, offs, files, table) && SameMemory(ctx, dec.dev)
    requires dec.dev.cfg == cfg && dec.dev.layout == LayoutOf(cfg, bases, offs)
    requires cfg.dims.numLayers <= WL_NUM_LAYERS && cfg.dims.numKvHeads > 0 && cfg.dims.headDim > 0
    requires dec.m == ModelOf(dec.dev.kernels, cfg, files, table, dec.dev.Blanked(dec.dev.mem[..]))
    requires dec.filled == 0 && dec.pending == 0
    ensures dec.Inv([]) && RestKept(ctx, dec.dev, dec.m.rest)
  {
    hide GpuContext.Valid, P.Placed, StoredAt, CellsOf, Index, BytesFor, LayoutOf, SameMemory, D.Memory.Wired, D.Memory.Image,
      FilesStored, TensorBytes, T.ModelIn;
    WiredUp(ctx, cfg, bases, offs, dec.dev);
    ModelIsThere(ctx, cfg, bases, offs, files, table, dec.dev);
    EmptyCache(dec);
    RestStarts(ctx, dec.dev);
  }

  /** Outside the buffers, VRAM holds what it held when decoding started. */
  ghost predicate RestKept(ctx: GpuContext, dev: D.Memory, rest: seq<int>)
    reads ctx.buddy, ctx.buddy.mem
  {
    && dev.mem.Length == ctx.buddy.pages * 1024 && dev.mem.Length <= 2 * ctx.buddy.mem.Length && |rest| == dev.mem.Length
    && forall c :: 0 <= c < dev.mem.Length && !dev.InBuffer(c) ==> rest[c] == CellAt(ctx.buddy.mem[..], c)
  }

  lemma RestStarts(ctx: GpuContext, dev: D.Memory)
    requires SameMemory(ctx, dev)
    ensures RestKept(ctx, dev, dev.Blanked(dev.mem[..]))
  {
    hide CellAt, D.Memory.InBuffer;
  }

  lemma ModelIsThere(ctx: GpuContext, cfg: D.Config, bases: seq<nat>, offs: seq<nat>, files: seq<seq<byte>>,
                     table: seq<byte>, dev: D.Memory)
    requires Brought(ctx, cfg, bases, offs, files, table) && SameMemory(ctx, dev) && dev.Wired()
    requires dev.cfg == cfg && dev.layout == LayoutOf(cfg, bases, offs) && cfg.dims.numLayers <= WL_NUM_LAYERS
    ensures T.ModelIn(ModelOf(dev.kernels, cfg, files, table, dev.Blanked(dev.mem[..])), dev.Image())
  {
    hide GpuContext.Valid, P.Placed, StoredAt, CellsOf, CellCount, Index, TensorBytes, LayoutOf, SameMemory, D.Memory.Wired,
      FilesStored, P.FileOf, BytesFor, D.Memory.Image, ModelOf, T.ModelIn;
    forall b | P.FromFile(b) && dev.InUse(b) ensures dev.Image()[b] == CellsOf(BytesFor(files, b)) {
      BufferIsStored(ctx.buddy.mem[..], cfg, bases, offs, files, b);
      CellsAgree(ctx, dev, b, BytesFor(files, b));
      dev.ImageAt(b);
    }
    LayoutAt(cfg, bases, offs, D.Sincos);
    SincosCells(cfg);
    CellsAgree(ctx, dev, D.Sincos, table);
    dev.ImageAt(D.Sincos);
    ModelParts(cfg, files, table, dev);
  }

  lemma ModelParts(cfg: D.Config, files: seq<seq<byte>>, table: seq<byte>, dev: D.Memory)
    requires dev.Wired() && dev.cfg == cfg && |files| == NUM_FILES && cfg.dims.numLayers <= WL_NUM_LAYERS
    requires forall b :: P.FromFile(b) && dev.InUse(b) ==> dev.Image()[b] == CellsOf(BytesFor(files, b))
    requires dev.Image()[D.Sincos] == CellsOf(table)
    ensures T.ModelIn(ModelOf(dev.kernels, cfg, files, table, dev.Blanked(dev.mem[..])), dev.Image())
  {
    hide CellsOf, TensorBytes, D.Memory.Wired, D.Memory.Image;
    var m, img := ModelOf(dev.kernels, cfg, files, table, dev.Blanked(dev.mem[..])), dev.Image();
    dev.RestAt();
    assert dev.InUse(D.EmbeddingTable) && dev.InUse(D.FinalNorm) && dev.InUse(D.LmHead);
    forall l: nat, t: nat | l < cfg.dims.numLayers && t < D.TENSORS ensures img[D.Weight(l, t)] == m.weight(l, t) {
      assert dev.InUse(D.Weight(l, t));
    }
  }

  lemma SincosCells(cfg: D.Config)
    ensures CellCount(cfg, D.Sincos) == cfg.dims.maxSeq * cfg.dims.headDim
  {
  }

  lemma EmptyCache(dec: T.Decoder)
    requires dec.Holds() && dec.filled == 0 && dec.pending == 0
    ensures dec.Inv([])
  {
    hide D.Memory.Wired, D.Memory.Image, T.ModelIn, T.RowOk, Total;
    dec.dev.SizesOf();
    dec.dev.ImageAt(D.KCache);
    dec.dev.ImageAt(D.VCache);
  }

  // ---------------------------------------------------------------------------------------------
  // One memory: what decoding leaves in VRAM is in order for the allocators.

  /** A cell of VRAM has 32 bits. */
  function Low(v: int): int {
    v % CELL_LIMIT
  }

  /** VRAM holds the decoder's cells up to `to`. */
  ghost predicate Mirrors(words: seq<int>, cells: seq<int>, to: nat) {
    to <= |cells| <= 2 * |words| && forall c :: 0 <= c < to ==> CellAt(words, c) == Low(cells[c])
  }

  /** VRAM is as it was from a cell on. */
  ghost predicate SameFrom(was: seq<int>, words: seq<int>, from: nat) {
    |words| == |was| && forall c: nat :: from <= c < 2 * |words| ==> CellAt(words, c) == CellAt(was, c)
  }

  /** A cell in which VRAM and the decoder's memory differ lies in a buffer, and so in an allocation. */
  lemma DifferenceIsInBuffer(words: seq<int>, dev: D.Memory, cells: seq<int>, rest: seq<int>, c: nat)
    requires |cells| == |rest| == dev.mem.Length <= 2 * |words| && c < |cells|
    requires rest == dev.Blanked(cells) && (!dev.InBuffer(c) ==> rest[c] == CellAt(words, c))
    requires CellAt(words, c) != Low(cells[c])
    ensures dev.InBuffer(c)
  {
    hide CellAt, D.Memory.InBuffer;
    CellInRange(words, c);
  }

  lemma HomeOfCell(ctx: GpuContext, bases: seq<int>, dev: D.Memory, c: nat) returns (o: nat)
    requires ctx.Valid() && P.Placed(ctx.allocs, bases, dev.layout) && dev.Wired() && dev.InBuffer(c)
    requires dev.cfg.dims.numLayers <= WL_NUM_LAYERS
    ensures o in ctx.allocs && o <= 4 * c && 4 * c + 4 <= o + ctx.allocs[o]
  {
    hide GpuContext.Valid, P.Placed, D.Memory.Wired, P.Home;
    var b :| dev.InUse(b) && dev.CellOfBuffer(b, c);
    P.PlacedBases(ctx.allocs, bases, dev.layout);
    P.AtHome(ctx.allocs, bases, dev.layout, b);
    dev.Facts(b);
    o := P.Home(b, dev.layout, bases);
  }

  /** Bring one cell of VRAM up to date. */
  method WriteCell(ctx: GpuContext, dev: D.Memory, ghost bases: seq<int>, ghost rest: seq<int>, ghost was: seq<int>, c: nat)
    requires ctx.Valid() && P.Placed(ctx.allocs, bases, dev.layout) && dev.Wired() && dev.mem != ctx.buddy.mem
    requires dev.cfg.dims.numLayers <= WL_NUM_LAYERS && c < dev.mem.Length
    requires Mirrors(ctx.buddy.mem[..], dev.mem[..], c) && SameFrom(was, ctx.buddy.mem[..], c)
    requires |rest| == dev.mem.Length && rest == dev.Blanked(dev.mem[..])
    requires !dev.InBuffer(c) ==> rest[c] == CellAt(was, c)
    modifies ctx.buddy.mem
    ensures ctx.Valid()
    ensures Mirrors(ctx.buddy.mem[..], dev.mem[..], c + 1) && SameFrom(was, ctx.buddy.mem[..], c + 1)
  {
    hide GpuContext.Valid, P.Placed, D.Memory.Wired, CellAt, D.Memory.Blanked, D.Memory.InBuffer, StoredAt, OnlyBytesChanged,
      CellBytes;
    ghost var before := ctx.buddy.mem[..];
    var v := Low(dev.mem[c]);
    if CellAt(ctx.buddy.mem[..], c) != v {
      DifferenceIsInBuffer(before, dev, dev.mem[..], rest, c);
      ghost var o := HomeOfCell(ctx, bases, dev, c);
      ctx.CopyIn(o, 4 * c, CellBytes(v));
      CopiedLength(before, ctx.buddy.mem[..], 4 * c);
      forall d: nat | d < 2 * |before| ensures CellAt(ctx.buddy.mem[..], d) == if d == c then v else CellAt(before, d) {
        CellCopied(before, ctx.buddy.mem[..], c, v, d);
      }
    }
  }

  lemma CopiedLength(was: seq<int>, mem: seq<int>, from: int)
    requires OnlyBytesChanged(was, mem, from, 4)
    ensures |mem| == |was|
  {
  }

  /** With the decoder's cells in VRAM, whatever has been decoded, the allocators are in order and nothing has been allocated
      or freed. */
  method WriteBack(ctx: GpuContext, dec: T.Decoder, ghost bases: seq<int>)
    requires ctx.Valid() && dec.Holds() && P.Placed(ctx.allocs, bases, dec.dev.layout) && dec.dev.mem != ctx.buddy.mem
    requires RestKept(ctx, dec.dev, dec.m.rest) && dec.dev.cfg.dims.numLayers <= WL_NUM_LAYERS
    modifies ctx.buddy.mem
    ensures ctx.Valid() && dec.Holds()
    ensures Mirrors(ctx.buddy.mem[..], dec.dev.mem[..], dec.dev.mem.Length)
  {
    hide GpuContext.Valid, P.Placed, D.Memory.Wired, D.Memory.Image, D.Memory.Blanked, D.Memory.InBuffer, CellAt;
    dec.dev.RestAt();
    var c := 0;
    while c < dec.dev.mem.Length
      invariant 0 <= c <= dec.dev.mem.Length && ctx.Valid()
      invariant Mirrors(ctx.buddy.mem[..], dec.dev.mem[..], c) && SameFrom(old(ctx.buddy.mem[..]), ctx.buddy.mem[..], c)
    {
      WriteCell(ctx, dec.dev, bases, dec.m.rest, old(ctx.buddy.mem[..]), c);
      c := c + 1;
    }
  }

  /** A decoder over the cells of VRAM. */
  method Attach(ctx: GpuContext, pages: nat, cfg: D.Config, bases: seq<nat>, offs: seq<nat>, ghost files: seq<seq<byte>>,
                ghost table: seq<byte>, kernels: K.Arith, fault: nat -> bool) returns (dec: T.Decoder)
    requires Brought(ctx, cfg, bases, offs, files, table) && pages == ctx.buddy.pages
    requires cfg.dims.numLayers <= WL_NUM_LAYERS && cfg.dims.numKvHeads > 0 && cfg.dims.headDim > 0
    ensures fresh(dec) && fresh(dec.dev) && fresh(dec.dev.mem)
    ensures dec.dev.cfg == cfg && dec.dev.layout == LayoutOf(cfg, bases, offs)
    ensures dec.m == ModelOf(kernels, cfg, files, table, dec.m.rest)
    ensures dec.Inv([]) && dec.pending == 0 && RestKept(ctx, dec.dev, dec.m.rest)
  {
    hide GpuContext.Valid, P.Placed, StoredAt, CellsOf, LayoutOf, FilesStored, TensorBytes, T.ModelIn, CellAt, ModelOf,
      D.Memory.Blanked, T.Decoder.Inv, RestKept;
    VramSize(ctx);
    var words := ctx.buddy.mem[..];
    var cells := new int[pages * 1024](c requires 0 <= c < 2 * |words| => CellAt(words, c));
    var dev := new D.Memory(cells, LayoutOf(cfg, bases, offs), cfg, kernels, fault);
    ghost var m := ModelOf(kernels, cfg, files, table, dev.Blanked(dev.mem[..]));
    dec := new T.Decoder(dev, m);
    ModelHas(kernels, cfg, files, table, dev.Blanked(dev.mem[..]));
    DecoderStarts(ctx, cfg, bases, offs, files, table, dec);
  }

  lemma VramSize(ctx: GpuContext)
    requires ctx.Valid()
    ensures ctx.buddy.pages * 1024 <= 2 * ctx.buddy.mem.Length
  {
  }

  /** The inference program after it has been brought up: the tokens are those of greedy decoding with the reference, for the
      model in the weight files, and VRAM as decoding leaves it is in order for the allocators. */
  method Infer(ctx: GpuContext, pages: nat, cfg: D.Config, bases: seq<nat>, offs: seq<nat>, ghost files: seq<seq<byte>>,
               ghost table: seq<byte>, kernels: K.Arith, fault: nat -> bool, prompt: seq<int>, maxNew: int, eos: int)
    returns (ok: bool, generated: seq<int>, ghost m: T.Model)
    requires Brought(ctx, cfg, bases, offs, files, table) && pages == ctx.buddy.pages
    requires cfg.dims.numLayers <= WL_NUM_LAYERS && cfg.dims.numKvHeads > 0 && cfg.dims.headDim > 0
    modifies ctx.buddy.mem
    ensures ctx.Valid()
    ensures m == ModelOf(kernels, cfg, files, table, m.rest)
    ensures prompt != [] ==> T.Greedy(m, prompt, generated)
    ensures ok ==> T.Stopped(generated, maxNew, eos) && T.Admissible(cfg, prompt, maxNew)
    ensures cfg == DefaultConfig(cfg.invHidden, cfg.eps, cfg.scale) ==> T.HeadsFit(cfg) && T.WeightsFit(m)
  {
    hide GpuContext.Valid, P.Placed, LayoutOf, FilesStored, T.ModelIn, ModelOf, T.Greedy, T.Stopped, T.Admissible, RestKept,
      T.Decoder.Inv, T.Decoder.Holds, StoredAt;
    var dec := Attach(ctx, pages, cfg, bases, offs, files, table, kernels, fault);
    m := dec.m;
    ModelHas(kernels, cfg, files, table, m.rest);
    ok, generated := dec.Generate(prompt, maxNew, eos);
    if cfg == DefaultConfig(cfg.invHidden, cfg.eps, cfg.scale) {
      FilesHaveSizes(ctx, cfg, bases, offs, files, table);
      DefaultFits(kernels, cfg, files, table, m.rest);
    }
    WriteBack(ctx, dec, bases);
  }

  lemma FilesHaveSizes(ctx: GpuContext, cfg: D.Config, bases: seq<nat>, offs: seq<nat>, files: seq<seq<byte>>, table: seq<byte>)
    requires Brought(ctx, cfg, bases, offs, files, table)
    ensures |files| == NUM_FILES && forall f :: 0 <= f < NUM_FILES ==> |files[f]| == FileBytes(f)
    ensures |table| == cfg.dims.maxSeq * cfg.dims.headDim * D.CELL
  {
    hide GpuContext.Valid, P.Placed, StoredAt, LayoutOf;
  }

  lemma ModelHas(kernels: K.Arith, cfg: D.Config, files: seq<seq<byte>>, table: seq<byte>, rest: seq<int>)
    requires |files| == NUM_FILES
    ensures var m := ModelOf(kernels, cfg, files, table, rest); m.cfg == cfg && m.rest == rest
  {
  }

  // ---------------------------------------------------------------------------------------------
  // All of it, in the order of the inference program.

  ghost function PlanSizes(): (r: seq<nat>)
    ensures |r| == NUM_REGIONS && forall i :: 0 <= i < NUM_REGIONS ==> r[i] == PlanBytes(i)
  {
    seq<nat>(NUM_REGIONS, i requires 0 <= i < NUM_REGIONS => PlanBytes(i))
  }

  /** Loading adds the regions and nothing else. */
  lemma LoadedObtained(wl: Loader, files: seq<seq<byte>>, live0: map<nat, nat>, allocs0: map<nat, nat>,
                       marks0: map<nat, int>, used0: seq<set<nat>>)
    requires wl.Loaded(files, live0, allocs0, marks0, used0)
    ensures Obtained(allocs0, wl.ctx.allocs, wl.regionBase, PlanSizes())
    ensures forall r :: 0 <= r < NUM_REGIONS ==> wl.regionBase[r] >= 0 && wl.regionBase[r] % WORD == 0
  {
    hide GpuContext.CachesValid, StoredAt, PlanBytes, Ledger, Holding, FileOffset, FileRegion;
    forall r | 0 <= r < NUM_REGIONS
      ensures wl.regionBase[r] >= 0 && wl.regionBase[r] % WORD == 0
      ensures Piece(allocs0, wl.ctx.allocs, wl.regionBase[r], PlanBytes(r))
    {
      HeldIsAllocated(wl.ctx.buddy.live, live0, wl.blocks, 0, r, wl.ctx.allocs, allocs0, used0, marks0);
      PageAligned(wl.regionBase[r], 0);
    }
    forall r, s | 0 <= r < s < NUM_REGIONS ensures wl.regionBase[r] != wl.regionBase[s] {
      RegionsDiffer(wl, live0, allocs0, marks0, used0, r, s);
    }
    forall o | o in wl.ctx.allocs && o !in allocs0 ensures o in wl.regionBase {
      OnlyRegions(wl.ctx.buddy.live, live0, wl.blocks, wl.ctx.allocs, allocs0, used0, marks0, o);
      var r :| 0 <= r < |wl.blocks| && wl.blocks[r].page * PAGE_SIZE == o;
      assert wl.regionBase[r] == o;
    }
  }

  lemma OnlyRegions(live: map<nat, nat>, live0: map<nat, nat>, blocks: seq<Block>, allocs: map<nat, nat>,
                    allocs0: map<nat, nat>, used: seq<set<nat>>, marks: map<nat, int>, o: nat)
    requires Holding(live, live0, blocks, 0) && Ledger(allocs, used, live, marks) && Ledger(allocs0, used, live0, marks)
    requires o in allocs && o !in allocs0
    ensures exists r :: 0 <= r < |blocks| && blocks[r].page * PAGE_SIZE == o
  {
    hide CacheSize, Gpu.Placed;
    if IsBlock(live, marks, o) {
      assert !IsBlock(live0, marks, o);
      assert HasPage(blocks, 0, o / PAGE_SIZE);
    } else {
      LedgerLength(allocs, used, live, marks);
      var i :| 0 <= i < NUM_CACHES && o in used[i];
      assert false;
    }
  }

  lemma LedgerLength(allocs: map<nat, nat>, used: seq<set<nat>>, live: map<nat, nat>, marks: map<nat, int>)
    requires Ledger(allocs, used, live, marks)
    ensures |used| == NUM_CACHES
  {
  }

  lemma FilesStay(was: seq<int>, mem: seq<int>, allocs: map<nat, nat>, bases: seq<nat>, files: seq<seq<byte>>)
    requires FilesStored(was, bases, files) && P.RegionsHeld(allocs, bases) && Kept(was, mem, allocs)
    requires forall r :: 0 <= r < NUM_REGIONS ==> bases[r] % WORD == 0
    ensures FilesStored(mem, bases, files)
  {
    hide StoredAt, FileOffset, FileRegion, FileBytes, PlanBytes;
    forall f | 0 <= f < NUM_FILES ensures StoredAt(mem, bases[FileRegion(f)] + FileOffset(f), files[f]) {
      var r := FileRegion(f);
      FileFitsRegion(f);
      P.RegionsNonempty(allocs, bases, r);
      assert PlanBytes(r) <= P.Room(allocs, bases[r]);
      assert forall w :: 0 <= w < |mem| && bases[r] <= w * WORD < bases[r] + allocs[bases[r]] ==>
                           InRange(bases[r], allocs[bases[r]], w);
      StoredWords(was, mem, bases[r] + FileOffset(f), files[f], bases[r], bases[r] + allocs[bases[r]]);
    }
  }

  /** The state has the eight regions on top of another one. */
  ghost predicate WithRegions(s: Ownership, s0: Ownership) {
    && s.marks == s0.marks && s.used == s0.used
    && exists blocks: seq<Block> :: |blocks| == NUM_REGIONS && Holding(s.live, s0.live, blocks, 0)
  }

  lemma LoadedParts(wl: Loader, files: seq<seq<byte>>, live0: map<nat, nat>, allocs0: map<nat, nat>,
                    marks0: map<nat, int>, used0: seq<set<nat>>)
    requires wl.Loaded(files, live0, allocs0, marks0, used0)
    ensures Obtained(allocs0, wl.ctx.allocs, wl.regionBase, PlanSizes())
    ensures |wl.regionBase| == NUM_REGIONS && forall r :: 0 <= r < NUM_REGIONS ==> wl.regionBase[r] >= 0 && wl.regionBase[r] % WORD == 0
    ensures P.RegionsHeld(wl.ctx.allocs, wl.regionBase)
    ensures FilesStored(wl.ctx.buddy.mem[..], wl.regionBase, files)
    ensures wl.ctx.Wired() && WithRegions(wl.ctx.Owned(), Ownership(live0, marks0, used0))
  {
    hide GpuContext.CachesValid, StoredAt, PlanBytes, Ledger, Holding, FileOffset, FileRegion, Obtained, P.RegionsHeld;
    ContextIsWired(wl.ctx);
    LoadedObtained(wl, files, live0, allocs0, marks0, used0);
    P.LoadedHolds(wl, files, live0, allocs0, marks0, used0);
  }

  lemma BroughtUp(ctx: GpuContext, cfg: D.Config, allocs1: map<nat, nat>, allocs2: map<nat, nat>, mem1: seq<int>,
                  bases: seq<int>, cache: seq<int>, ws: seq<int>, host: Host, kernels: seq<KernelFile>,
                  files: seq<seq<byte>>, table: seq<byte>)
    requires ctx.Valid() && host.Ok() && |kernels| == NUM_KERNELS && Missing !in kernels
    requires |bases| == NUM_REGIONS && (forall r :: 0 <= r < NUM_REGIONS ==> bases[r] >= 0 && bases[r] % WORD == 0)
    requires P.RegionsHeld(allocs1, bases) && FilesStored(mem1, bases, files) && Kept(mem1, ctx.buddy.mem[..], allocs1)
    requires Obtained(allocs1, allocs2, cache, Sizes(CacheCalls(cfg.dims, host.cache))) && FAILED !in cache
    requires Obtained(allocs2, ctx.allocs, ws, Sizes(InitCalls(cfg, host, kernels))) && FAILED !in ws
    requires |ws| > SINCOS && StoredAt(ctx.buddy.mem[..], ws[SINCOS], table)
    requires |table| == cfg.dims.maxSeq * cfg.dims.headDim * D.CELL
    ensures Nats(bases) && Nats(cache + ws)
    ensures Brought(ctx, cfg, bases, cache + ws, files, table)
  {
    hide GpuContext.Valid, P.Placed, P.RegionsHeld, FilesStored, Kept, StoredAt, Obtained, InitCalls, CacheCalls, LayoutOf;
    var offs := cache + ws;
    var calls := CacheCalls(cfg.dims, host.cache) + InitCalls(cfg, host, kernels);
    ObtainedThen(allocs1, allocs2, ctx.allocs, cache, Sizes(CacheCalls(cfg.dims, host.cache)), ws,
                 Sizes(InitCalls(cfg, host, kernels)));
    assert Sizes(calls) == Sizes(CacheCalls(cfg.dims, host.cache)) + Sizes(InitCalls(cfg, host, kernels));
    RequestedFor(cfg, host, kernels, D.KCache);
    ObtainedIncludes(allocs1, ctx.allocs, offs, Sizes(calls));
    ObtainedIncludes(allocs1, allocs2, cache, Sizes(CacheCalls(cfg.dims, host.cache)));
    AllPieces(allocs1, ctx.allocs, offs, Sizes(calls));
    LayoutIsPlaced(allocs1, ctx.allocs, bases, offs, cfg, host, kernels);
    FilesStay(mem1, ctx.buddy.mem[..], allocs1, bases, files);
    TwoCaches(cfg.dims, host.cache);
    assert offs[Index(D.Sincos)] == ws[SINCOS];
    FilesCount(mem1, bases, files);
  }

  lemma AllPieces(allocs0: map<nat, nat>, allocs: map<nat, nat>, offs: seq<int>, sizes: seq<nat>)
    requires Obtained(allocs0, allocs, offs, sizes) && FAILED !in offs
    ensures Nats(offs)
  {
    forall j | 0 <= j < |offs| ensures offs[j] >= 0 {
      assert offs[j] in offs;
      assert Piece(allocs0, allocs, offs[j], sizes[j]);
    }
  }

  lemma TwoCaches(d: Dims, host: seq<bool>)
    requires |host| == 2
    ensures |CacheCalls(d, host)| == 2
  {
  }

  lemma FilesCount(mem: seq<int>, bases: seq<nat>, files: seq<seq<byte>>)
    requires FilesStored(mem, bases, files)
    ensures |files| == NUM_FILES
  {
  }

  predicate Nats(s: seq<int>) {
    forall i :: 0 <= i < |s| ==> s[i] >= 0
  }

  /** Success takes all of: loadable weights, allocations of the cache none of which failed, a workspace that is admitted,
      allocations of the workspace none of which failed, and the table.  The allocations are runs one after the other, from
      the state after loading, and stop early only at a failure. */
  ghost predicate Booted(pages: nat, start: Ownership, loadable: bool, loaded: Ownership, cacheLog: Log, initLog: Log,
                         cacheCalls: seq<Call>, initCalls: seq<Call>, admitted: bool, table: bool, ok: bool)
  {
    && (ok <==> loadable && Complete(cacheLog, cacheCalls) && admitted && table && Complete(initLog, initCalls))
    && (loadable ==>
          && WithRegions(loaded, start) && Drawn(pages, start.live, loaded.live, NUM_REGIONS)
          && LogRan(pages, loaded, cacheLog) && Attempted(cacheLog, cacheCalls))
    && (loadable && Complete(cacheLog, cacheCalls) ==>
          && |cacheLog.states| > |cacheCalls| && LogRan(pages, cacheLog.states[|cacheCalls|], initLog)
          && (admitted ==> Attempted(initLog, initCalls)))
  }

  /** Load the weights, create the cache, initialise the workspace; give everything back if one of them fails. */
  method Boot(ctx: GpuContext, files: seq<seq<byte>>, readOk: seq<bool>, cfg: D.Config, rows: nat, host: Host,
              kernels: seq<KernelFile>, table: Option<seq<byte>>)
    returns (ok: bool, bases: seq<int>, offs: seq<int>, ghost loaded: Ownership, ghost cacheLog: Log, ghost initLog: Log)
    requires ctx.Valid() && |files| == |readOk| == NUM_FILES && host.Ok() && |kernels| == NUM_KERNELS
    requires table.Some? ==> |table.value| == cfg.dims.maxSeq * cfg.dims.headDim * D.CELL
    modifies ctx, ctx.slabs, ctx.buddy, ctx.buddy.mem, ctx.buddy.freeList, ctx.buddy.pageOrder
    ensures ctx.Valid() && Kept(old(ctx.buddy.mem[..]), ctx.buddy.mem[..], old(ctx.allocs))
    ensures Booted(ctx.buddy.pages, old(ctx.Owned()), Loadable(ctx.buddy.pages, old(ctx.buddy.live), files, readOk), loaded,
                   cacheLog, initLog, CacheCalls(cfg.dims, host.cache), InitCalls(cfg, host, kernels),
                   rows == 1 && cfg.dims.maxSeq == MAX_SEQ && Missing !in kernels, table.Some?, ok)
    ensures ok ==> Nats(bases) && Nats(offs) && Brought(ctx, cfg, bases, offs, files, table.value)
    ensures !ok ==> ctx.allocs == old(ctx.allocs) && SameHoldings(old(ctx.Owned()), ctx.Owned())
  {
    hide GpuContext.Valid, Kept, LogRan, Obtained, SameHoldings, Settled, Ledger, Drawn, Loader.Loaded, InitCalls, CacheCalls, WithRegions, Brought, FileBytes, Roomy,
      StoredAt, Loadable;
    TwoCaches(cfg.dims, host.cache);
    Before(ctx);
    ghost var allocs0, mem0 := ctx.allocs, ctx.buddy.mem[..];
    ok, bases, offs := false, [], [];
    loaded := ctx.Owned();
    cacheLog, initLog := Log([], [], []), Log([], [], []);
    var wl := Load(ctx, files, readOk);
    if wl == null {
      HoldingsRestored(ctx, old(ctx.Owned()));
      return;
    }
    LoadedParts(wl, files, old(ctx.buddy.live), allocs0, old(ctx.buddy.marks), old(ctx.Used()));
    bases, loaded := wl.regionBase, ctx.Owned();
    ghost var allocs1, mem1 := ctx.allocs, ctx.buddy.mem[..];
    var created, k, v;
    created, k, v, cacheLog := CreateCache(ctx, cfg.dims, host.cache);
    ObtainedIncludes(allocs0, allocs1, bases, PlanSizes());
    KeptStep(mem0, mem1, ctx.buddy.mem[..], allocs1, allocs0);
    if !created {
      ReleaseAll(ctx, bases, PlanSizes(), allocs0, mem0);
      HoldingsRestored(ctx, old(ctx.Owned()));
      return;
    }
    ghost var allocs2, mem2 := ctx.allocs, ctx.buddy.mem[..];
    ObtainedIncludes(allocs1, allocs2, [k, v], Sizes(CacheCalls(cfg.dims, host.cache)));
    var ws;
    ws, initLog := Init(ctx, cfg, rows, cfg.dims.maxSeq, host, kernels, table);
    KeptStep(mem1, mem2, ctx.buddy.mem[..], allocs2, allocs1);
    KeptStep(mem0, mem1, ctx.buddy.mem[..], allocs1, allocs0);
    match ws {
      case None =>
        ReleaseAll(ctx, [k, v], Sizes(CacheCalls(cfg.dims, host.cache)), allocs1, mem1);
        KeptStep(mem0, mem1, ctx.buddy.mem[..], allocs1, allocs0);
        ReleaseAll(ctx, bases, PlanSizes(), allocs0, mem0);
        HoldingsRestored(ctx, old(ctx.Owned()));
      case Some(o) =>
        ok, offs := true, [k, v] + o;
        BroughtUp(ctx, cfg, allocs1, allocs2, mem1, bases, [k, v], o, host, kernels, files, table.value);
    }
  }

  // ---------------------------------------------------------------------------------------------
  // From an empty device nothing fails for lack of room.

  const EASY_ORDER: nat := 9

  /** At most 2 MiB, and nothing fails on the host. */
  predicate Easy(c: Call) {
    c.GpuMalloc? && c.hostOk && c.size <= 512 * PAGE_SIZE
  }

  lemma EasyStep(pages: nat, s: Ownership, s': Ownership, c: Call, r: int)
    requires Easy(c) && Taken(pages, s, s', c.size, c.hostOk, r) && |FreeBlocks(pages, s.live, EASY_ORDER)| > 0
    ensures r != FAILED
    ensures |FreeBlocks(pages, s'.live, EASY_ORDER)| + 1 >= |FreeBlocks(pages, s.live, EASY_ORDER)|
  {
    hide FreeBlocks, WhollyFree, OrderFrom, Pow2, OnSlot, CacheSize, InCache;
    EasyPower();
    assert CanHold(pages, s.live, c.size) && CanHold(pages, s.live, PAGE_SIZE) by {
      var p :| p in FreeBlocks(pages, s.live, EASY_ORDER);
      assert WhollyFree(pages, s.live, Block(EASY_ORDER, p));
    }
    if RouteSlab(c.size) == NUM_CACHES {
      TakeAtMostOne(pages, s.live, EASY_ORDER, Block(OrderFrom(c.size, 0), r / PAGE_SIZE));
    } else if !Vacant(s, RouteSlab(c.size)) {
      TakeAtMostOne(pages, s.live, EASY_ORDER, Block(0, r / PAGE_SIZE));
    }
  }

  lemma EasyPower()
    ensures Pow2(EASY_ORDER) == 512
  {
    assert Pow2(5) == 32;
  }

  /** A run of easy requests succeeds while there is a free block of 2 MiB for each. */
  lemma {:induction false} EasyRun(pages: nat, calls: seq<Call>, results: seq<int>, states: seq<Ownership>)
    requires Mallocs(calls) == |calls| <= |results| && Ran(pages, calls, results, states)
    requires forall c :: c in calls ==> Easy(c)
    requires |FreeBlocks(pages, states[0].live, EASY_ORDER)| >= |calls|
    ensures FAILED !in results[..|calls|]
    ensures |FreeBlocks(pages, states[|calls|].live, EASY_ORDER)| + |calls| >= |FreeBlocks(pages, states[0].live, EASY_ORDER)|
    decreases |calls|
  {
    hide FreeBlocks, Taken;
    if calls != [] {
      var n := |calls| - 1;
      var past := calls[..n];
      EasyRun(pages, past, results, states[..|calls|]);
      assert calls[n] in calls;
      EasyStep(pages, states[n], states[n + 1], calls[n], results[n]);
      assert results[..n + 1] == results[..n] + [results[n]];
    }
  }

  lemma EasyLog(pages: nat, start: Ownership, log: Log, calls: seq<Call>)
    requires LogRan(pages, start, log) && Attempted(log, calls) && (forall c :: c in calls ==> Easy(c))
    requires |FreeBlocks(pages, start.live, EASY_ORDER)| >= |calls|
    ensures Complete(log, calls) && |log.states| > |calls|
    ensures |FreeBlocks(pages, log.states[|calls|].live, EASY_ORDER)| + |calls| >= |FreeBlocks(pages, start.live, EASY_ORDER)|
  {
    hide FreeBlocks, Ran;
    LogSize(pages, start, log);
    EasyRun(pages, log.calls, log.results, log.states);
    assert log.results[..|log.calls|] == log.results;
  }

  /** What remains of an untouched 4 GiB after loading is enough for a hundred such requests. */
  lemma RoomAfterLoading(live0: map<nat, nat>, live: map<nat, nat>)
    requires Clustered(live0) && Drawn(BUDDY_TOTAL_PAGES, live0, live, NUM_REGIONS)
    ensures |FreeBlocks(BUDDY_TOTAL_PAGES, live, EASY_ORDER)| >= 128
  {
    hide FreeBlocks, Inside, WhollyFree;
    FreshIsRoomy(live0);
    var p :| p in FreeBlocks(BUDDY_TOTAL_PAGES, live, SMALL);
    var b := Block(SMALL, p);
    FreeIsProper(BUDDY_TOTAL_PAGES, live, b);
    InsideCount(EASY_ORDER, b);
    assert Pow2(7) == 128;
    forall q | q in Inside(EASY_ORDER, b) ensures q in FreeBlocks(BUDDY_TOTAL_PAGES, live, EASY_ORDER) {
      InsideIsFree(BUDDY_TOTAL_PAGES, live, EASY_ORDER, b, q);
    }
    SubsetCard(Inside(EASY_ORDER, b), FreeBlocks(BUDDY_TOTAL_PAGES, live, EASY_ORDER));
  }

  lemma BootSucceeds(start: Ownership, loaded: Ownership, cacheLog: Log, initLog: Log, cacheCalls: seq<Call>,
                     initCalls: seq<Call>, ok: bool)
    requires Clustered(start.live)
    requires Booted(BUDDY_TOTAL_PAGES, start, true, loaded, cacheLog, initLog, cacheCalls, initCalls, true, true, ok)
    requires (forall c :: c in cacheCalls ==> Easy(c)) && (forall c :: c in initCalls ==> Easy(c))
    requires |cacheCalls| + |initCalls| <= 128
    ensures ok
  {
    hide Clustered, FreeBlocks, LogRan, WithRegions, Drawn, Easy, Complete, Attempted;
    RoomAfterLoading(start.live, loaded.live);
    EasyLog(BUDDY_TOTAL_PAGES, loaded, cacheLog, cacheCalls);
    EasyLog(BUDDY_TOTAL_PAGES, cacheLog.states[|cacheCalls|], initLog, initCalls);
  }

  /** transformer_default_config. */
  function DefaultConfig(invHidden: nat, eps: nat, scale: nat): D.Config {
    D.Config(896, 4864, 14, 151936, Dims(24, 2, MAX_SEQ, 64), invHidden, eps, scale)
  }

  /** The default dimensions fit together, fit the weight files tensor by tensor, and are the ones for which the kernels are
      written: rmsnorm handles 28 cells in each of 32 lanes, rope one pair in each, and vmul and embedding whole warps. */
  lemma DefaultFits(k: K.Arith, cfg: D.Config, files: seq<seq<byte>>, table: seq<byte>, rest: seq<int>)
    requires cfg == DefaultConfig(cfg.invHidden, cfg.eps, cfg.scale) && |files| == NUM_FILES
    requires forall f :: 0 <= f < NUM_FILES ==> |files[f]| == FileBytes(f)
    requires |table| == cfg.dims.maxSeq * cfg.dims.headDim * D.CELL
    ensures T.HeadsFit(cfg) && T.WeightsFit(ModelOf(k, cfg, files, table, rest)) && cfg.dims.numLayers == WL_NUM_LAYERS
    ensures cfg.hidden == 28 * 32 && cfg.dims.headDim == 2 * 32 && cfg.intermediate % 32 == 0 && cfg.hidden % 32 == 0
    ensures cfg.QueriesPerKv() == 7
  {
    hide CellsOf, TensorOffset;
    var m := ModelOf(k, cfg, files, table, rest);
    forall l: nat, t: nat | l < cfg.dims.numLayers && t < WL_TENSOR_COUNT ensures |m.weight(l, t)| == TensorFloats(t) {
      TensorInLayer(t);
      FileIsLayer(l);
    }
  }

  /** No host allocation fails, and every kernel is there and has at most 2 MiB. */
  ghost predicate HostInOrder(host: Host, kernels: seq<KernelFile>) {
    && host.Ok() && |kernels| == NUM_KERNELS
    && (forall b :: b in host.cache || b in host.scratch || b in host.args ==> b)
    && forall k :: k in kernels ==> k.Binary? && k.hostOk && k.size <= 512 * PAGE_SIZE
  }

  /** And the weight files have their sizes and can be read, and the table is there. */
  ghost predicate InOrder(files: seq<seq<byte>>, readOk: seq<bool>, host: Host, kernels: seq<KernelFile>,
                          table: Option<seq<byte>>)
    requires |files| == |readOk| == NUM_FILES
  {
    && HostInOrder(host, kernels) && table.Some?
    && forall f :: 0 <= f < NUM_FILES ==> |files[f]| == FileBytes(f) && readOk[f]
  }

  lemma {:induction false} KernelsEasy(kernels: seq<KernelFile>)
    requires forall k :: k in kernels ==> k.Binary? && k.hostOk && k.size <= 512 * PAGE_SIZE
    ensures forall c :: c in KernelCalls(kernels) ==> Easy(c)
  {
    if kernels != [] {
      assert kernels[0] in kernels;
      KernelsEasy(kernels[1..]);
    }
  }

  lemma DefaultIsEasy(cfg: D.Config, host: Host, kernels: seq<KernelFile>)
    requires HostInOrder(host, kernels) && cfg == DefaultConfig(cfg.invHidden, cfg.eps, cfg.scale)
    ensures forall c :: c in CacheCalls(cfg.dims, host.cache) ==> Easy(c)
    ensures forall c :: c in InitCalls(cfg, host, kernels) ==> Easy(c)
    ensures |CacheCalls(cfg.dims, host.cache)| + |InitCalls(cfg, host, kernels)| <= 128 && Missing !in kernels
  {
    KernelsEasy(kernels);
    forall c | c in CacheCalls(cfg.dims, host.cache) ensures Easy(c) {
      assert host.cache[0] in host.cache && host.cache[1] in host.cache;
    }
    forall c | c in ScratchCalls(cfg, host.scratch) ensures Easy(c) {
      assert forall i :: 0 <= i < NUM_SCRATCH ==> host.scratch[i] in host.scratch;
    }
    forall c | c in ArgsCalls(host.args) ensures Easy(c) {
      assert forall i :: 0 <= i < NUM_KERNELS ==> host.args[i] in host.args;
    }
  }

  /** The start of the inference program, with 4 GiB and the default configuration: if the weight files have their sizes and
      can be read, the kernels and the table are there and the host has memory, everything succeeds. */
  method Startup(vram: array<int>, slabHost: seq<bool>, files: seq<seq<byte>>, readOk: seq<bool>, cfg: D.Config, host: Host,
                 kernels: seq<KernelFile>, table: Option<seq<byte>>)
    returns (ctx: GpuContext?, ok: bool, bases: seq<int>, offs: seq<int>)
    requires |slabHost| == NUM_CACHES && BUDDY_TOTAL_PAGES * PAGE_WORDS <= vram.Length
    requires |files| == |readOk| == NUM_FILES && host.Ok() && |kernels| == NUM_KERNELS
    requires cfg == DefaultConfig(cfg.invHidden, cfg.eps, cfg.scale)
    requires table.Some? ==> |table.value| == cfg.dims.maxSeq * cfg.dims.headDim * D.CELL
    modifies vram
    ensures (forall i :: 0 <= i < NUM_CACHES ==> slabHost[i]) && InOrder(files, readOk, host, kernels, table) ==> ok
    ensures ok ==> ctx != null && table.Some? && Nats(bases) && Nats(offs) && Brought(ctx, cfg, bases, offs, files, table.value)
  {
    hide GpuContext.Valid, Brought, Booted, InOrder, Clustered, CacheCalls, InitCalls;
    ok, bases, offs := false, [], [];
    ctx := GpuContext.Init(vram, BUDDY_TOTAL_PAGES * PAGE_SIZE, slabHost);
    if ctx == null {
      return;
    }
    ContextIsWired(ctx);
    ghost var start, loaded, cacheLog, initLog := ctx.Owned(), ctx.Owned(), Log([], [], []), Log([], [], []);
    ok, bases, offs, loaded, cacheLog, initLog := Boot(ctx, files, readOk, cfg, 1, host, kernels, table);
    StartupOk(start, loaded, cacheLog, initLog, files, readOk, cfg, host, kernels, table, ok);
  }

  lemma StartupOk(start: Ownership, loaded: Ownership, cacheLog: Log, initLog: Log, files: seq<seq<byte>>,
                  readOk: seq<bool>, cfg: D.Config, host: Host, kernels: seq<KernelFile>, table: Option<seq<byte>>, ok: bool)
    requires |files| == |readOk| == NUM_FILES && host.Ok() && Clustered(start.live)
    requires cfg == DefaultConfig(cfg.invHidden, cfg.eps, cfg.scale)
    requires Booted(BUDDY_TOTAL_PAGES, start, Loadable(BUDDY_TOTAL_PAGES, start.live, files, readOk), loaded, cacheLog, initLog,
                    CacheCalls(cfg.dims, host.cache), InitCalls(cfg, host, kernels),
                    cfg.dims.maxSeq == MAX_SEQ && Missing !in kernels, table.Some?, ok)
    ensures ok ==> table.Some?
    ensures InOrder(files, readOk, host, kernels, table) ==> ok
  {
    hide Clustered, Roomy, FileBytes, HostInOrder, CacheCalls, InitCalls, LogRan, WithRegions, Drawn, Complete, Attempted;
    FreshIsRoomy(start.live);
    if InOrder(files, readOk, host, kernels, table) {
      DefaultIsEasy(cfg, host, kernels);
      BootSucceeds(start, loaded, cacheLog, initLog, CacheCalls(cfg.dims, host.cache), InitCalls(cfg, host, kernels), ok);
    }
  }
}
