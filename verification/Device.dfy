/** Device memory as the decoder sees it: named buffers that do not overlap, and kernel launches that
    receive their arguments, narrowed to 32 bits, through an argument buffer in the same memory.

    Launches fail when the environment says so. */
module Device {
  import opened Kernels
  import opened KvCache

  datatype Op = Rmsnorm | Gemm | BroadcastAdd | Silu | Vmul | Rope | Embedding | Argmax | QktDecode | SoftmaxDecode | PvDecode

  /** The buffers of the decoder; `Rest` stands for all memory that belongs to none of them. */
  datatype Buf =
    | ResidA | ResidB | ScratchX | ScratchQ | ScratchK | ScratchV | Scores | FfnA | FfnB
    | Logits | Sincos | TokenId | ArgmaxDebug
    | Args(op: Op)
    | Weight(layer: nat, tensor: nat) | EmbeddingTable | FinalNorm | LmHead
    | KCache | VCache
    | Rest

  /** The dimensions of the model; `invHidden`, `eps` and `scale` are the bit patterns of floats. */
  datatype Config = Config(hidden: nat, intermediate: nat, numQHeads: nat, vocab: nat, dims: Dims,
                           invHidden: nat, eps: nat, scale: nat) {
    function KvDim(): nat {
      dims.numKvHeads * dims.headDim
    }

    function QueriesPerKv(): nat {
      if dims.numKvHeads == 0 then 0 else numQHeads / dims.numKvHeads
    }
  }

  const TENSORS: nat := 12
  const ARGS_CELLS: nat := 8
  const OK: int := 0
  const ERR_LAUNCH: int := -4
  const CELL: nat := 4
  const ADDRESS_SPACE: nat := 0x1_0000_0000

  // ---------------------------------------------------------------------------------------------
  // Calls into the environment are counted; it decides which of them fail.

  /** No call from number `a` up to `b` fails. */
  ghost predicate Clean(fault: nat -> bool, a: nat, b: nat) {
    forall n: nat :: a <= n < b ==> !fault(n)
  }

  /** The call before `t1` fails, and none from `t0` on before it. */
  ghost predicate FirstFault(fault: nat -> bool, t0: nat, t1: nat) {
    t0 < t1 && fault(t1 - 1) && Clean(fault, t0, t1 - 1)
  }

  /** From call `t0` on, either `k` calls were made and none failed, or the last one made is the first to fail. */
  ghost predicate Ran(fault: nat -> bool, t0: nat, t1: nat, k: nat, rc: int) {
    if rc == OK then t1 == t0 + k && Clean(fault, t0, t1) else t1 <= t0 + k && FirstFault(fault, t0, t1)
  }

  lemma RanThen(fault: nat -> bool, t0: nat, t1: nat, t2: nat, k: nat, j: nat, rc: int)
    requires Ran(fault, t0, t1, k, OK) && Ran(fault, t1, t2, j, rc)
    ensures Ran(fault, t0, t2, k + j, rc)
  {
  }

  /** A run that failed would have failed in a longer one. */
  lemma RanShort(fault: nat -> bool, t0: nat, t1: nat, k: nat, j: nat, rc: int)
    requires Ran(fault, t0, t1, k, rc) && rc != OK && k <= j
    ensures Ran(fault, t0, t1, j, rc)
  {
  }

  /** Conversion of a 64-bit offset to the 32-bit field of an argument structure. */
  function U32(x: nat): nat {
    x % ADDRESS_SPACE
  }

  /** A byte offset and a number of cells. */
  datatype Region = Region(off: nat, len: nat)

  ghost predicate Apart(a: Region, b: Region) {
    a.off + a.len * CELL <= b.off || b.off + b.len * CELL <= a.off
  }

  lemma ReplacedInside(was: seq<int>, mem: seq<int>, base: nat, data: seq<int>, from: nat, len: nat, start: nat)
    requires base + |data| <= |was| && mem == Replace(was, base, data)
    requires from + len <= |was| && base == from + start && start + |data| <= len
    ensures mem[from..from + len] == Replace(was[from..from + len], start, data)
  {
    var r := Replace(was[from..from + len], start, data);
    forall i | 0 <= i < len ensures mem[from + i] == r[i] {
      if start <= i < start + |data| {
        assert mem[from + i] == Slice(mem, base, |data|)[i - start];
        assert r[i] == Slice(r, start, |data|)[i - start];
      }
    }
  }

  lemma ReplacedOutside(was: seq<int>, mem: seq<int>, base: nat, data: seq<int>, from: nat, len: nat)
    requires base + |data| <= |was| && mem == Replace(was, base, data)
    requires from + len <= |was| && (from + len <= base || base + |data| <= from)
    ensures mem[from..from + len] == was[from..from + len]
  {
  }

  /** The output cells of a kernel that reads two buffers. */
  function Vec(n: nat, f: (seq<int>, seq<int>, nat) -> int, x: seq<int>, y: seq<int>): (r: seq<int>)
    ensures |r| == n
  {
    seq(n, i requires 0 <= i => f(x, y, i))
  }

  function NormVec(k: Arith, c: Config, x: seq<int>, w: seq<int>): (r: seq<int>)
    ensures |r| == c.hidden
  {
    seq(c.hidden, i requires 0 <= i => NormCell(k, x, w, c.invHidden, c.eps, i))
  }

  /** Every cell is divided by the root of the mean square, to which eps is added, and multiplied with its weight. */
  lemma NormIsScaled(k: Arith, c: Config, x: seq<int>, w: seq<int>, i: nat)
    requires |x| == |w| == c.hidden && i < c.hidden
    ensures NormVec(k, c, x, w)[i] ==
            k.mul(k.mul(x[i], k.div(ONE, k.sqrt(k.add(k.mul(k.squares(x), c.invHidden), c.eps)))), w[i])
  {
  }

  /** The first `n` cells. */
  function First(s: seq<int>, n: int): seq<int> {
    if 0 <= n <= |s| then s[..n] else s
  }

  lemma WholeReplaced(was: seq<int>, data: seq<int>)
    requires |data| == |was|
    ensures Replace(was, 0, data) == data
  {
  }

  // ---------------------------------------------------------------------------------------------
  // Attention over the rows 0 .. pos of one layer of the caches.

  /** Row [h][p] of a layer. */
  function RowsOf(d: Dims, cache: seq<int>, layer: nat, pos: nat): (r: seq<seq<seq<int>>>)
    requires |cache| == Total(d) && layer < d.numLayers && pos < d.maxSeq
  {
    seq(d.numKvHeads, h requires 0 <= h < d.numKvHeads =>
      seq(pos + 1, p requires 0 <= p <= pos => Row(d, cache, layer, h, p)))
  }

  /** The same rows, read from memory by the address of the layer. */
  function RowsAt(d: Dims, mem: seq<int>, base: nat, pos: nat): (r: seq<seq<seq<int>>>)
    requires base + LayerSize(d) <= |mem| && pos < d.maxSeq
  {
    seq(d.numKvHeads, h requires 0 <= h < d.numKvHeads =>
      seq(pos + 1, p requires 0 <= p <= pos =>
        (RowInLayer(d, h, p); Slice(mem, base + RowOff(d, h, p), d.headDim))))
  }

  lemma RowInLayer(d: Dims, h: nat, p: nat)
    requires h < d.numKvHeads && p < d.maxSeq
    ensures RowOff(d, h, p) + d.headDim <= LayerSize(d)
  {
    NextMultiple(h, d.numKvHeads, d.maxSeq * d.headDim);
    NextMultiple(p, d.maxSeq, d.headDim);
  }

  lemma LayerInCache(d: Dims, layer: nat)
    requires layer < d.numLayers
    ensures LayerOff(d, layer) + LayerSize(d) <= Total(d)
  {
    var n := d.numKvHeads * (d.maxSeq * d.headDim);
    NextMultiple(layer, d.numLayers, n);
    assert LayerOff(d, layer) == layer * n;
    assert Total(d) == d.numLayers * n;
  }

  lemma NonEmptyLayer(d: Dims)
    requires d.numKvHeads > 0 && d.maxSeq > 0 && d.headDim > 0
    ensures LayerSize(d) > 0
  {
    assert d.maxSeq * d.headDim > 0;
  }

  lemma RowsAtAddress(d: Dims, mem: seq<int>, start: nat, layer: nat, pos: nat)
    requires start + Total(d) <= |mem| && layer < d.numLayers && pos < d.maxSeq
    ensures start + LayerOff(d, layer) + LayerSize(d) <= |mem|
    ensures RowsAt(d, mem, start + LayerOff(d, layer), pos) == RowsOf(d, mem[start..start + Total(d)], layer, pos)
  {
    hide Total, LayerOff, RowOff, LayerSize;
    LayerInCache(d, layer);
    var a := RowsAt(d, mem, start + LayerOff(d, layer), pos);
    var b := RowsOf(d, mem[start..start + Total(d)], layer, pos);
    forall h | 0 <= h < d.numKvHeads ensures a[h] == b[h] {
      forall p | 0 <= p <= pos ensures a[h][p] == b[h][p] {
        RowInLayer(d, h, p);
        SliceShift(mem, start, Total(d), RowStart(d, layer, h, p), d.headDim);
      }
    }
  }

  lemma SliceShift(mem: seq<int>, start: nat, total: nat, k: nat, n: nat)
    requires start + total <= |mem| && k + n <= total
    ensures Slice(mem, start + k, n) == Slice(mem[start..start + total], k, n)
  {
    var cache := mem[start..start + total];
    var x, y := mem[start + k..start + k + n], cache[k..k + n];
    forall i | 0 <= i < n ensures x[i] == y[i] {
      assert cache[k + i] == mem[start + (k + i)];
    }
    assert x == y;
  }

  /** The part 0 .. pos of each line of the score buffer, whose lines are maxSeq cells apart. */
  function ScoreRows(heads: nat, maxSeq: nat, pos: nat, scores: seq<int>): (r: seq<seq<int>>)
    requires |scores| == heads * maxSeq && pos < maxSeq
    ensures |r| == heads && forall h :: 0 <= h < heads ==> |r[h]| == pos + 1
  {
    seq(heads, h requires 0 <= h < heads => (NextMultiple(h, heads, maxSeq); Slice(scores, h * maxSeq, pos + 1)))
  }

  /** The score buffer after a kernel stored `rows` in the part 0 .. pos of its lines. */
  function StoreRows(heads: nat, maxSeq: nat, pos: nat, was: seq<int>, rows: seq<seq<int>>): (r: seq<int>)
    requires |was| == heads * maxSeq && pos < maxSeq
    requires |rows| == heads && forall h :: 0 <= h < heads ==> |rows[h]| == pos + 1
    ensures |r| == |was|
  {
    seq(|was|, i requires 0 <= i < |was| =>
      (LineOf(i, heads, maxSeq); if i % maxSeq <= pos then rows[i / maxSeq][i % maxSeq] else was[i]))
  }

  lemma LineOf(i: nat, heads: nat, maxSeq: nat)
    requires i < heads * maxSeq
    ensures maxSeq > 0 && i / maxSeq < heads
  {
    var q := i / maxSeq;
    assert q * maxSeq <= i;
    if heads < q {
      NextMultiple(heads, q, maxSeq);
    }
  }

  lemma LineCell(h: nat, t: nat, maxSeq: nat)
    requires t < maxSeq
    ensures (h * maxSeq + t) / maxSeq == h && (h * maxSeq + t) % maxSeq == t
  {
    var i := h * maxSeq + t;
    DigitsUnique(maxSeq, i / maxSeq, i % maxSeq, h, t);
  }

  /** What a kernel stored in the lines is what the next kernel finds there, whatever was in the buffer before. */
  lemma StoredRows(heads: nat, maxSeq: nat, pos: nat, was: seq<int>, rows: seq<seq<int>>)
    requires |was| == heads * maxSeq && pos < maxSeq
    requires |rows| == heads && forall h :: 0 <= h < heads ==> |rows[h]| == pos + 1
    ensures ScoreRows(heads, maxSeq, pos, StoreRows(heads, maxSeq, pos, was, rows)) == rows
  {
    var s := StoreRows(heads, maxSeq, pos, was, rows);
    var r := ScoreRows(heads, maxSeq, pos, s);
    forall h | 0 <= h < heads ensures r[h] == rows[h] {
      NextMultiple(h, heads, maxSeq);
      forall t | 0 <= t <= pos ensures r[h][t] == rows[h][t] {
        LineCell(h, t, maxSeq);
      }
    }
  }

  class Memory {
    const mem: array<int>
    const layout: Buf -> Region
    const cfg: Config
    const kernels: Arith
    const fault: nat -> bool
    var ticks: nat

    constructor (mem: array<int>, layout: Buf -> Region, cfg: Config, kernels: Arith, fault: nat -> bool)
      ensures this.mem == mem && this.layout == layout && this.cfg == cfg && this.kernels == kernels && this.fault == fault
    {
      this.mem, this.layout, this.cfg, this.kernels, this.fault, ticks := mem, layout, cfg, kernels, fault, 0;
    }

    predicate InUse(b: Buf) {
      !b.Rest? && (b.Weight? ==> b.layer < cfg.dims.numLayers && b.tensor < TENSORS)
    }

    /** The length that the decoder relies on. */
    ghost predicate Sized(b: Buf) {
      match b
      case ResidA | ResidB | ScratchX | ScratchQ => layout(b).len == cfg.hidden
      case ScratchK | ScratchV => layout(b).len == cfg.KvDim()
      case Scores => layout(b).len == cfg.numQHeads * cfg.dims.maxSeq
      case FfnA | FfnB => layout(b).len == cfg.intermediate
      case Logits => layout(b).len == cfg.vocab
      case TokenId => layout(b).len == 1
      case Args(_) => layout(b).len == ARGS_CELLS
      case KCache | VCache => layout(b).len == Total(cfg.dims)
      case _ => true
    }

    /** All buffers are in memory, aligned, of the right length and pairwise disjoint. */
    ghost predicate Wired() {
      && mem.Length * CELL <= ADDRESS_SPACE
      && cfg.dims.numKvHeads > 0 && cfg.dims.headDim > 0
      && (forall b :: InUse(b) ==>
            && Sized(b)
            && layout(b).off % CELL == 0 && layout(b).off < ADDRESS_SPACE
            && layout(b).off / CELL + layout(b).len <= mem.Length)
      && forall a, b :: InUse(a) && InUse(b) && a != b ==> Apart(layout(a), layout(b))
    }

    function Get(b: Buf): (r: seq<int>)
      requires Wired() && InUse(b)
      ensures |r| == layout(b).len
      reads mem
    {
      mem[layout(b).off / CELL..layout(b).off / CELL + layout(b).len]
    }

    ghost predicate InBuffer(c: int) {
      exists b :: InUse(b) && CellOfBuffer(b, c)
    }

    ghost predicate CellOfBuffer(b: Buf, c: int) {
      layout(b).off / CELL <= c < layout(b).off / CELL + layout(b).len
    }

    /** A snapshot of the memory with the cells of all buffers blanked out. */
    ghost function Blanked(s: seq<int>): (r: seq<int>) {
      seq(|s|, c requires 0 <= c < |s| => if InBuffer(c) then 0 else s[c])
    }

    predicate Shown(b: Buf) {
      b.Rest? || (InUse(b) && !b.Args?)
    }

    /** The contents of all buffers except the argument buffers, and of the memory outside. */
    ghost function Image(): (r: imap<Buf, seq<int>>)
      requires Wired()
      ensures forall b :: b in r <==> Shown(b)
      reads mem
    {
      imap b | Shown(b) :: if b.Rest? then Blanked(mem[..]) else Get(b)
    }

    lemma RestAt()
      requires Wired()
      ensures Image()[Rest] == Blanked(mem[..])
    {
      hide Blanked;
    }

    lemma ImageAt(b: Buf)
      requires Wired() && InUse(b) && !b.Args?
      ensures b in Image() && Image()[b] == Get(b)
    {
    }

    /** The cells from a byte offset on. */
    function Peek(off: nat, len: nat): (r: seq<int>)
      requires off / CELL + len <= mem.Length
      ensures |r| == len
      reads mem
    {
      mem[off / CELL..off / CELL + len]
    }

    method WriteCells(base: nat, data: seq<int>)
      requires base + |data| <= mem.Length
      modifies mem
      ensures mem[..] == Replace(old(mem[..]), base, data)
    {
      var i := 0;
      while i < |data|
        invariant 0 <= i <= |data|
        invariant mem[base..base + i] == data[..i]
        invariant forall k :: 0 <= k < mem.Length && !(base <= k < base + i) ==> mem[k] == old(mem[k])
      {
        mem[base + i] := data[i];
        i := i + 1;
      }
      assert mem[..] == mem[..base] + mem[base..base + |data|] + mem[base + |data|..];
    }

    /** Write cells at a byte offset that lies in buffer `b`, `start` cells from its beginning. */
    method Poke(off: nat, data: seq<int>, ghost b: Buf, ghost start: nat)
      requires Wired() && InUse(b) && start + |data| <= layout(b).len && off == layout(b).off + start * CELL
      modifies mem
      ensures Get(b) == Replace(old(Get(b)), start, data)
      ensures Image() == if b.Args? then old(Image()) else old(Image())[b := Get(b)]
    {
      hide Wired, Replace, Image, ImageOf, Shown;
      Facts(b);
      CellOf(off, layout(b).off, start);
      Snapshot(b);
      WriteCells(off / CELL, data);
      Snapshot(b);
      Poked(old(mem[..]), mem[..], data, b, start);
      PokedImage(old(mem[..]), mem[..], data, b, start);
    }

    /** The image of a snapshot. */
    ghost function ImageOf(s: seq<int>): imap<Buf, seq<int>>
      requires Wired() && |s| == mem.Length
    {
      imap b | Shown(b) :: if b.Rest? then Blanked(s) else Cells(s, b)
    }

    lemma Snapshot(b: Buf)
      requires Wired() && InUse(b)
      ensures Image() == ImageOf(mem[..]) && Get(b) == Cells(mem[..], b)
    {
      hide Wired, Blanked;
    }

    lemma PokedImage(was: seq<int>, now: seq<int>, data: seq<int>, b: Buf, start: nat)
      requires Wired() && InUse(b) && start + |data| <= layout(b).len && |was| == |now| == mem.Length
      requires layout(b).off / CELL + layout(b).len <= mem.Length && now == Replace(was, layout(b).off / CELL + start, data)
      ensures ImageOf(now) == if b.Args? then ImageOf(was) else ImageOf(was)[b := Cells(now, b)]
    {
      hide Wired, Replace, Blanked, Cells;
      Poked(was, now, data, b, start);
      RestStays(was, now, data, b, start);
    }

    /** A buffer in a snapshot of the memory. */
    ghost function Cells(s: seq<int>, b: Buf): (r: seq<int>)
      requires Wired() && InUse(b) && |s| == mem.Length
    {
      s[layout(b).off / CELL..layout(b).off / CELL + layout(b).len]
    }

    lemma Poked(was: seq<int>, now: seq<int>, data: seq<int>, b: Buf, start: nat)
      requires Wired() && InUse(b) && start + |data| <= layout(b).len && |was| == |now| == mem.Length
      requires layout(b).off / CELL + layout(b).len <= mem.Length && now == Replace(was, layout(b).off / CELL + start, data)
      ensures Cells(now, b) == Replace(Cells(was, b), start, data)
      ensures forall c :: InUse(c) && c != b ==> Cells(now, c) == Cells(was, c)
    {
      hide Wired, Replace;
      ReplacedInside(was, now, layout(b).off / CELL + start, data, layout(b).off / CELL, layout(b).len, start);
      forall c | InUse(c) && c != b ensures Cells(now, c) == Cells(was, c) {
        Elsewhere(was, now, data, b, start, c);
      }
    }

    /** Writing inside a buffer leaves the memory outside all buffers alone. */
    lemma RestStays(was: seq<int>, now: seq<int>, data: seq<int>, b: Buf, start: nat)
      requires InUse(b) && start + |data| <= layout(b).len && |was| == |now|
      requires layout(b).off / CELL + layout(b).len <= |was| && now == Replace(was, layout(b).off / CELL + start, data)
      ensures Blanked(now) == Blanked(was)
    {
      forall c | 0 <= c < |was| && !InBuffer(c) ensures now[c] == was[c] {
        assert !CellOfBuffer(b, c);
      }
    }

    /** Writing inside one buffer leaves every other one alone. */
    lemma Elsewhere(was: seq<int>, now: seq<int>, data: seq<int>, b: Buf, start: nat, c: Buf)
      requires Wired() && InUse(b) && InUse(c) && b != c && start + |data| <= layout(b).len
      requires |was| == |now| == mem.Length && layout(b).off / CELL + layout(b).len <= mem.Length
      requires now == Replace(was, layout(b).off / CELL + start, data)
      ensures layout(c).off / CELL + layout(c).len <= mem.Length
      ensures now[layout(c).off / CELL..layout(c).off / CELL + layout(c).len] ==
              was[layout(c).off / CELL..layout(c).off / CELL + layout(c).len]
    {
      hide Wired;
      Facts(c);
      BufsApart(b, c);
      ReplacedOutside(was, now, layout(b).off / CELL + start, data, layout(c).off / CELL, layout(c).len);
    }

    lemma CellOf(off: nat, first: nat, start: nat)
      requires first % CELL == 0 && off == first + start * CELL
      ensures off / CELL == first / CELL + start
    {
    }

    lemma Facts(b: Buf)
      requires Wired() && InUse(b)
      ensures layout(b).off % CELL == 0 && layout(b).off < ADDRESS_SPACE
      ensures layout(b).off / CELL + layout(b).len <= mem.Length
    {
    }

    lemma BufsApart(a: Buf, b: Buf)
      requires Wired() && InUse(a) && InUse(b) && a != b
      ensures Apart(layout(a), layout(b))
      ensures layout(a).off % CELL == 0 && layout(b).off % CELL == 0
    {
    }

    /** gpuMemcpy from the host into a whole buffer. */
    method Put(b: Buf, data: seq<int>)
      requires Wired() && InUse(b) && |data| == layout(b).len
      modifies mem
      ensures Get(b) == data
      ensures Image() == if b.Args? then old(Image()) else old(Image())[b := data]
    {
      hide Wired;
      Poke(layout(b).off, data, b, 0);
      WholeReplaced(old(Get(b)), data);
    }

    /** launch_op: store the arguments, then launch. */
    method Launch(op: Op, args: seq<int>) returns (rc: int)
      requires Wired() && |args| <= ARGS_CELLS
      modifies mem, `ticks
      ensures Ran(fault, old(ticks), ticks, 1, rc) && (rc == OK || rc == ERR_LAUNCH)
      ensures Image() == old(Image())
      ensures layout(Args(op)).len == ARGS_CELLS && Get(Args(op))[..|args|] == args
    {
      hide Image;
      assert Sized(Args(op));
      Poke(layout(Args(op)).off, args, Args(op), 0);
      assert Get(Args(op))[..|args|] == Slice(Get(Args(op)), 0, |args|);
      rc := if fault(ticks) then ERR_LAUNCH else OK;
      ticks := ticks + 1;
    }

    /** Narrowing the offset of a buffer to 32 bits loses nothing. */
    lemma Narrow(b: Buf)
      requires Wired() && InUse(b)
      ensures U32(layout(b).off) == layout(b).off
    {
    }

    /** A kernel that reads two buffers and fills a third, all named by offsets. */
    method Run(f: (seq<int>, seq<int>, nat) -> int, xOff: nat, x: Buf, yOff: nat, y: Buf, outOff: nat, out: Buf, count: int)
      requires Wired() && InUse(x) && InUse(y) && InUse(out) && !x.Args? && !y.Args? && !out.Args?
      requires xOff == layout(x).off && yOff == layout(y).off && outOff == layout(out).off && count == layout(out).len
      modifies mem
      ensures Image() == old(Image())[out := Vec(layout(out).len, f, old(Image())[x], old(Image())[y])]
    {
      hide Wired, Image;
      Facts(x);
      Facts(y);
      ImageAt(x);
      ImageAt(y);
      var xs, ys := Peek(xOff, layout(x).len), Peek(yOff, layout(y).len);
      var data := Vec(count, f, xs, ys);
      Poke(outOff, data, out, 0);
      WholeReplaced(old(Get(out)), data);
    }

    // -------------------------------------------------------------------------------------------
    // The operators.  Each names the buffers it reads and the one it overwrites.

    method OpRmsnorm(x: Buf, out: Buf, w: Buf) returns (rc: int)
      requires Wired() && InUse(x) && InUse(out) && InUse(w) && !x.Args? && !out.Args? && !w.Args?
      requires layout(out).len == cfg.hidden
      modifies mem, `ticks
      ensures Ran(fault, old(ticks), ticks, 1, rc) && (rc == OK || rc == ERR_LAUNCH)
      ensures Image() == if rc == OK
                         then old(Image())[out := NormVec(kernels, cfg, old(Image())[x], old(Image())[w])]
                         else old(Image())
    {
      hide Wired, Image;
      Narrow(x);
      Narrow(out);
      Narrow(w);
      rc := Launch(Rmsnorm, [U32(layout(x).off), U32(layout(out).off), U32(layout(w).off), cfg.hidden, cfg.invHidden, cfg.eps]);
      if rc == OK {
        var a := Get(Args(Rmsnorm))[..6];
        Run((xs, ws, i: nat) => NormCell(kernels, xs, ws, a[4], a[5], i), a[0], x, a[2], w, a[1], out, a[3]);
        assert Image()[out] == NormVec(kernels, cfg, old(Image())[x], old(Image())[w]);
      }
    }

    method OpGemm(a: Buf, b: Buf, c: Buf, k: nat, n: nat) returns (rc: int)
      requires Wired() && InUse(a) && InUse(b) && InUse(c) && !a.Args? && !b.Args? && !c.Args? && layout(c).len == n
      modifies mem, `ticks
      ensures Ran(fault, old(ticks), ticks, 1, rc) && (rc == OK || rc == ERR_LAUNCH)
      ensures Image() == if rc == OK
                         then old(Image())[c := GemmVec(kernels, k, n, old(Image())[a], old(Image())[b])]
                         else old(Image())
    {
      hide Wired, Image;
      Narrow(a);
      Narrow(b);
      Narrow(c);
      rc := Launch(Gemm, [U32(layout(a).off), U32(layout(b).off), U32(layout(c).off), 1, k, n]);
      if rc == OK {
        var args := Get(Args(Gemm))[..6];
        Run((xs, ws, i: nat) => GemmCell(kernels, xs, ws, args[4], args[5], i), args[0], a, args[1], b, args[2], c, args[3] * args[5]);
        assert Image()[c] == GemmVec(kernels, k, n, old(Image())[a], old(Image())[b]);
      }
    }

    method OpBroadcastAdd(x: Buf, b: Buf, y: Buf, n: nat) returns (rc: int)
      requires Wired() && InUse(x) && InUse(b) && InUse(y) && !x.Args? && !b.Args? && !y.Args? && layout(y).len == n
      modifies mem, `ticks
      ensures Ran(fault, old(ticks), ticks, 1, rc) && (rc == OK || rc == ERR_LAUNCH)
      ensures Image() == if rc == OK
                         then old(Image())[y := AddVec(kernels, n, old(Image())[x], old(Image())[b])]
                         else old(Image())
    {
      hide Wired, Image;
      Narrow(x);
      Narrow(b);
      Narrow(y);
      rc := Launch(BroadcastAdd, [U32(layout(x).off), U32(layout(y).off), U32(layout(b).off), 1, n]);
      if rc == OK {
        var args := Get(Args(BroadcastAdd))[..5];
        Run((xs, bs, i: nat) => AddCell(kernels, xs, bs, args[4], i), args[0], x, args[2], b, args[1], y, args[3] * args[4]);
        assert Image()[y] == AddVec(kernels, n, old(Image())[x], old(Image())[b]);
      }
    }

    method OpVmul(a: Buf, b: Buf, c: Buf, num: nat) returns (rc: int)
      requires Wired() && InUse(a) && InUse(b) && InUse(c) && !a.Args? && !b.Args? && !c.Args? && layout(c).len == num
      modifies mem, `ticks
      ensures Ran(fault, old(ticks), ticks, 1, rc) && (rc == OK || rc == ERR_LAUNCH)
      ensures Image() == if rc == OK
                         then old(Image())[c := MulVec(kernels, num, old(Image())[a], old(Image())[b])]
                         else old(Image())
    {
      hide Wired, Image;
      Narrow(a);
      Narrow(b);
      Narrow(c);
      rc := Launch(Vmul, [U32(layout(a).off), U32(layout(b).off), U32(layout(c).off), num]);
      if rc == OK {
        var args := Get(Args(Vmul))[..4];
        Run((xs, ys, i: nat) => kernels.mul(Read(xs, i), Read(ys, i)), args[0], a, args[1], b, args[2], c, args[3]);
        assert Image()[c] == MulVec(kernels, num, old(Image())[a], old(Image())[b]);
      }
    }

    method OpSilu(x: Buf, out: Buf, n: nat) returns (rc: int)
      requires Wired() && InUse(x) && InUse(out) && !x.Args? && !out.Args? && layout(out).len == n
      modifies mem, `ticks
      ensures Ran(fault, old(ticks), ticks, 1, rc) && (rc == OK || rc == ERR_LAUNCH)
      ensures Image() == if rc == OK then old(Image())[out := SiluVec(kernels, n, old(Image())[x])] else old(Image())
    {
      hide Wired, Image;
      ImageAt(x);
      Narrow(x);
      Narrow(out);
      rc := Launch(Silu, [U32(layout(x).off), U32(layout(out).off), n]);
      if rc == OK {
        var args := Get(Args(Silu))[..3];
        Run((xs, _, i: nat) => SiluCell(kernels, xs, i), args[0], x, args[0], x, args[1], out, args[2]);
        assert Image()[out] == SiluVec(kernels, n, old(Image())[x]);
      }
    }

    method OpRope(x: Buf, heads: nat, pos: nat) returns (rc: int)
      requires Wired() && InUse(x) && !x.Args?
      modifies mem, `ticks
      ensures Ran(fault, old(ticks), ticks, 1, rc) && (rc == OK || rc == ERR_LAUNCH)
      ensures Image() == if rc == OK
                         then old(Image())[x := RopeVec(kernels, old(Image())[x], old(Image())[Sincos], heads, cfg.dims.headDim, pos)]
                         else old(Image())
    {
      hide Wired, Image;
      ImageAt(x);
      Narrow(x);
      Narrow(Sincos);
      rc := Launch(Rope, [U32(layout(x).off), U32(layout(Sincos).off), heads, cfg.dims.headDim, pos]);
      if rc == OK {
        var args := Get(Args(Rope))[..5];
        Run((xs, table, i: nat) => RopeCell(kernels, xs, table, args[2], args[3], args[4], i), args[0], x, args[1], Sincos, args[0], x,
            layout(x).len);
        assert Image()[x] == RopeVec(kernels, old(Image())[x], old(Image())[Sincos], heads, cfg.dims.headDim, pos);
      }
    }

    method OpEmbedding(out: Buf) returns (rc: int)
      requires Wired() && InUse(out) && !out.Args? && layout(TokenId).len == 1 && layout(out).len == cfg.hidden
      modifies mem, `ticks
      ensures Ran(fault, old(ticks), ticks, 1, rc) && (rc == OK || rc == ERR_LAUNCH)
      ensures |old(Image())[TokenId]| == 1
      ensures Image() == if rc == OK
                         then old(Image())[out := EmbeddingVec(cfg.hidden, old(Image())[EmbeddingTable], old(Image())[TokenId][0])]
                         else old(Image())
    {
      hide Wired, Image, EmbeddingCell;
      ImageAt(TokenId);
      assert Read(Image()[TokenId], 0) == Image()[TokenId][0];
      Narrow(EmbeddingTable);
      Narrow(TokenId);
      Narrow(out);
      rc := Launch(Embedding, [U32(layout(EmbeddingTable).off), U32(layout(TokenId).off), U32(layout(out).off), cfg.hidden, cfg.hidden / 32]);
      if rc == OK {
        var args := Get(Args(Embedding))[..5];
        Run((table, ids, i: nat) => EmbeddingCell(table, Read(ids, 0), args[3], i), args[0], EmbeddingTable, args[1], TokenId, args[2],
            out, args[3]);
        assert Image()[out] == EmbeddingVec(cfg.hidden, old(Image())[EmbeddingTable], old(Image())[TokenId][0]);
      }
    }

    method OpArgmax() returns (rc: int)
      requires Wired() && layout(TokenId).len == 1
      modifies mem, `ticks
      ensures Ran(fault, old(ticks), ticks, 1, rc) && (rc == OK || rc == ERR_LAUNCH)
      ensures rc != OK ==> Image() == old(Image())
      ensures rc == OK ==> Image() == old(Image())[ArgmaxDebug := Image()[ArgmaxDebug]][TokenId := [kernels.argmax(old(Image())[Logits])]]
    {
      hide Wired, Image;
      ImageAt(TokenId);
      Narrow(Logits);
      Narrow(TokenId);
      Narrow(ArgmaxDebug);
      rc := Launch(Argmax, [U32(layout(Logits).off), cfg.vocab, U32(layout(TokenId).off), U32(layout(ArgmaxDebug).off)]);
      if rc == OK {
        var args := Get(Args(Argmax))[..4];
        ImageAt(Logits);
        SizesOf();
        Run((logits, _, i: nat) => kernels.argmaxDebug(First(logits, args[1]), i), args[0], Logits, args[0], Logits, args[3],
            ArgmaxDebug, layout(ArgmaxDebug).len);
        Run((logits, _, _) => kernels.argmax(First(logits, args[1])), args[0], Logits, args[0], Logits, args[2], TokenId, 1);
        assert First(old(Image())[Logits], cfg.vocab) == old(Image())[Logits];
        assert Image()[TokenId] == [kernels.argmax(old(Image())[Logits])];
      }
    }

    /** The argument that names one layer of a cache, narrowed to 32 bits, and the rows found there. */
    lemma NarrowLayer(cache: Buf, layer: nat, pos: nat)
      requires Wired() && (cache == KCache || cache == VCache) && layer < cfg.dims.numLayers && pos < cfg.dims.maxSeq
      ensures var off := layout(cache).off + LayerOff(cfg.dims, layer) * CELL;
              && U32(off) == off
              && layout(cache).len == Total(cfg.dims)
              && off / CELL + LayerSize(cfg.dims) <= mem.Length
              && RowsAt(cfg.dims, mem[..], off / CELL, pos) == RowsOf(cfg.dims, Get(cache), layer, pos)
    {
      assert Sized(cache);
      Facts(cache);
      var start := layout(cache).off / CELL;
      RowsAtAddress(cfg.dims, mem[..], start, layer, pos);
      assert mem[..][start..start + Total(cfg.dims)] == Get(cache);
      NonEmptyLayer(cfg.dims);
    }

    /** The scores of the current position, as the attention kernels see them. */
    ghost function ScoresIn(image: imap<Buf, seq<int>>, pos: nat): seq<seq<int>>
      requires Scores in image && |image[Scores]| == cfg.numQHeads * cfg.dims.maxSeq && pos < cfg.dims.maxSeq
    {
      ScoreRows(cfg.numQHeads, cfg.dims.maxSeq, pos, image[Scores])
    }

    ghost predicate Shaped(image: imap<Buf, seq<int>>) {
      && Scores in image && KCache in image && VCache in image
      && |image[Scores]| == cfg.numQHeads * cfg.dims.maxSeq
      && |image[KCache]| == |image[VCache]| == Total(cfg.dims)
    }

    lemma ImageIsShaped()
      requires Wired()
      ensures Shaped(Image())
    {
      hide Wired, Image;
      SizesOf();
      ImageAt(Scores);
      ImageAt(KCache);
      ImageAt(VCache);
    }

    /** Only the scores changed; they are those of the query against rows 0 to `pos` of the layer's keys. */
    ghost predicate QktDone(was: imap<Buf, seq<int>>, now: imap<Buf, seq<int>>, layer: nat, pos: nat) {
      && Shaped(was) && Shaped(now) && ScratchQ in was && layer < cfg.dims.numLayers && pos < cfg.dims.maxSeq
      && now == was[Scores := now[Scores]]
      && ScoresIn(now, pos) ==
         Qkt(kernels, was[ScratchQ], RowsOf(cfg.dims, was[KCache], layer, pos), cfg.dims.headDim, cfg.QueriesPerKv(), cfg.scale,
             cfg.numQHeads, pos)
    }

    method OpQktDecode(layer: nat, pos: nat) returns (rc: int)
      requires Wired() && layer < cfg.dims.numLayers && pos < cfg.dims.maxSeq
      modifies mem, `ticks
      ensures Ran(fault, old(ticks), ticks, 1, rc) && (rc == OK || rc == ERR_LAUNCH)
      ensures Shaped(Image()) && Shaped(old(Image()))
      ensures rc != OK ==> Image() == old(Image())
      ensures rc == OK ==> QktDone(old(Image()), Image(), layer, pos)
    {
      hide Wired, Image, Total, LayerOff, LayerSize, RowsAt, RowsOf, Qkt, ScoreRows;
      ImageIsShaped();
      Narrow(ScratchQ);
      Narrow(Scores);
      NarrowLayer(KCache, layer, pos);
      rc := Launch(QktDecode, [U32(layout(ScratchQ).off), U32(layout(KCache).off + LayerOff(cfg.dims, layer) * CELL),
                               U32(layout(Scores).off), pos, cfg.dims.maxSeq, cfg.dims.headDim, cfg.QueriesPerKv(), cfg.scale]);
      if rc == OK {
        var args := Get(Args(QktDecode))[..8];
        QktKernel(args[0], args[1], args[2], args[3], args[4], args[5], args[6], args[7], layer);
      }
    }

    method QktKernel(qOff: nat, kOff: nat, sOff: nat, pos: nat, maxSeq: nat, headDim: nat, qPerKv: int, scale: int, ghost layer: nat)
      requires Wired() && layer < cfg.dims.numLayers && pos < cfg.dims.maxSeq
      requires qOff == layout(ScratchQ).off && sOff == layout(Scores).off
      requires kOff == layout(KCache).off + LayerOff(cfg.dims, layer) * CELL
      requires maxSeq == cfg.dims.maxSeq && headDim == cfg.dims.headDim && qPerKv == cfg.QueriesPerKv() && scale == cfg.scale
      modifies mem
      ensures Shaped(Image()) && Shaped(old(Image()))
      ensures QktDone(old(Image()), Image(), layer, pos)
    {
      hide Wired, Image, Total, LayerOff, LayerSize, RowsAt, RowsOf, Qkt, ScoreRows;
      ImageIsShaped();
      NarrowLayer(KCache, layer, pos);
      Facts(ScratchQ);
      ImageAt(ScratchQ);
      ImageAt(KCache);
      var q := Peek(qOff, layout(ScratchQ).len);
      var rows := RowsAt(cfg.dims.(maxSeq := maxSeq, headDim := headDim), mem[..], kOff / CELL, pos);
      WriteScores(sOff, maxSeq, pos, Qkt(kernels, q, rows, headDim, qPerKv, scale, cfg.numQHeads, pos));
    }

    /** Store lines of scores. */
    method WriteScores(off: nat, maxSeq: nat, pos: nat, rows: seq<seq<int>>)
      requires Wired() && off == layout(Scores).off && maxSeq == cfg.dims.maxSeq && pos < maxSeq
      requires |rows| == cfg.numQHeads && forall h :: 0 <= h < |rows| ==> |rows[h]| == pos + 1
      modifies mem
      ensures Shaped(Image())
      ensures Image() == old(Image())[Scores := Image()[Scores]]
      ensures ScoresIn(Image(), pos) == rows
    {
      hide Wired, Image, ScoreRows, StoreRows;
      SizesOf();
      Facts(Scores);
      var data := StoreRows(cfg.numQHeads, maxSeq, pos, Peek(off, layout(Scores).len), rows);
      StoredRows(cfg.numQHeads, maxSeq, pos, Peek(off, layout(Scores).len), rows);
      Poke(off, data, Scores, 0);
      WholeReplaced(old(Get(Scores)), data);
      ImageIsShaped();
    }

    method OpSoftmaxDecode(pos: nat) returns (rc: int)
      requires Wired() && pos < cfg.dims.maxSeq
      modifies mem, `ticks
      ensures Ran(fault, old(ticks), ticks, 1, rc) && (rc == OK || rc == ERR_LAUNCH)
      ensures Shaped(Image()) && Shaped(old(Image()))
      ensures Image() == if rc == OK then old(Image())[Scores := Image()[Scores]] else old(Image())
      ensures rc == OK ==> ScoresIn(Image(), pos) == Softmax(kernels, ScoresIn(old(Image()), pos))
    {
      hide Wired, Image, Softmax, ScoreRows;
      ImageIsShaped();
      Narrow(Scores);
      rc := Launch(SoftmaxDecode, [U32(layout(Scores).off), pos, cfg.dims.maxSeq]);
      if rc == OK {
        var args := Get(Args(SoftmaxDecode))[..3];
        Facts(Scores);
        ImageAt(Scores);
        var scores := ScoreRows(cfg.numQHeads, args[2], args[1], Peek(args[0], layout(Scores).len));
        WriteScores(args[0], args[2], args[1], Softmax(kernels, scores));
      }
    }

    method OpPvDecode(layer: nat, out: Buf, pos: nat) returns (rc: int)
      requires Wired() && layer < cfg.dims.numLayers && pos < cfg.dims.maxSeq && InUse(out) && !out.Args?
      modifies mem, `ticks
      ensures Ran(fault, old(ticks), ticks, 1, rc) && (rc == OK || rc == ERR_LAUNCH)
      ensures Shaped(old(Image()))
      ensures Image() == if rc == OK
                         then old(Image())[out := Pv(kernels, layout(out).len, ScoresIn(old(Image()), pos),
                                                     RowsOf(cfg.dims, old(Image())[VCache], layer, pos), cfg.dims.headDim,
                                                     cfg.QueriesPerKv())]
                         else old(Image())
    {
      hide Wired, Image, Total, LayerOff, LayerSize, RowsAt, RowsOf, Pv, ScoreRows;
      ImageIsShaped();
      Narrow(Scores);
      Narrow(out);
      NarrowLayer(VCache, layer, pos);
      rc := Launch(PvDecode, [U32(layout(Scores).off), U32(layout(VCache).off + LayerOff(cfg.dims, layer) * CELL),
                              U32(layout(out).off), pos, cfg.dims.maxSeq, cfg.dims.headDim, cfg.QueriesPerKv()]);
      if rc == OK {
        var args := Get(Args(PvDecode))[..7];
        PvKernel(args[0], args[1], args[2], args[3], args[4], args[5], args[6], layer, out);
      }
    }

    method PvKernel(pOff: nat, vOff: nat, outOff: nat, pos: nat, maxSeq: nat, headDim: nat, qPerKv: int, ghost layer: nat, out: Buf)
      requires Wired() && layer < cfg.dims.numLayers && pos < cfg.dims.maxSeq && InUse(out) && !out.Args?
      requires pOff == layout(Scores).off && outOff == layout(out).off
      requires vOff == layout(VCache).off + LayerOff(cfg.dims, layer) * CELL
      requires maxSeq == cfg.dims.maxSeq && headDim == cfg.dims.headDim && qPerKv == cfg.QueriesPerKv()
      modifies mem
      ensures Shaped(old(Image()))
      ensures Image() == old(Image())[out := Pv(kernels, layout(out).len, ScoresIn(old(Image()), pos),
                                                RowsOf(cfg.dims, old(Image())[VCache], layer, pos), cfg.dims.headDim,
                                                cfg.QueriesPerKv())]
    {
      hide Wired, Image, Total, LayerOff, LayerSize, RowsAt, RowsOf, Pv, ScoreRows;
      ImageIsShaped();
      NarrowLayer(VCache, layer, pos);
      Facts(Scores);
      ImageAt(Scores);
      ImageAt(VCache);
      var scores := ScoreRows(cfg.numQHeads, maxSeq, pos, Peek(pOff, layout(Scores).len));
      var rows := RowsAt(cfg.dims.(maxSeq := maxSeq, headDim := headDim), mem[..], vOff / CELL, pos);
      var data := Pv(kernels, layout(out).len, scores, rows, headDim, qPerKv);
      Poke(outOff, data, out, 0);
      WholeReplaced(old(Get(out)), data);
    }

    lemma SizesOf()
      requires Wired()
      ensures layout(Scores).len == cfg.numQHeads * cfg.dims.maxSeq
      ensures layout(KCache).len == layout(VCache).len == Total(cfg.dims)
      ensures layout(TokenId).len == 1 && layout(Logits).len == cfg.vocab
    {
      assert Sized(Scores) && Sized(KCache) && Sized(VCache) && Sized(TokenId) && Sized(Logits);
    }
  }
}
