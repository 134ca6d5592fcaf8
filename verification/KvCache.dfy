/** The key/value cache: one row of `headDim` cells for every layer, head and token position, laid out
    as a 4-dimensional array in one buffer, and the append/commit protocol over it.

    Cells are 32-bit words of device memory; all positions are counted in cells. */
module KvCache {

  datatype Dims = Dims(numLayers: nat, numKvHeads: nat, maxSeq: nat, headDim: nat)

  /** The cells of a whole cache buffer. */
  function Total(d: Dims): nat {
    d.numLayers * d.numKvHeads * d.maxSeq * d.headDim
  }

  /** kv_cache_K_off / kv_cache_V_off: where a layer starts, relative to the buffer. */
  function LayerOff(d: Dims, layer: nat): nat {
    layer * d.numKvHeads * d.maxSeq * d.headDim
  }

  /** Where the row of a head and position starts, relative to its layer: head_stride and row_offset. */
  function RowOff(d: Dims, head: nat, pos: nat): nat {
    head * (d.maxSeq * d.headDim) + pos * d.headDim
  }

  function LayerSize(d: Dims): nat {
    d.numKvHeads * (d.maxSeq * d.headDim)
  }

  /** Where the row of a layer, head and position starts, as kv_cache_append_layer computes it. */
  function RowStart(d: Dims, layer: nat, head: nat, pos: nat): nat {
    LayerOff(d, layer) + RowOff(d, head, pos)
  }

  /** The number of the row in layer-major order. */
  ghost function RowNumber(d: Dims, layer: nat, head: nat, pos: nat): nat {
    (layer * d.numKvHeads + head) * d.maxSeq + pos
  }

  ghost predicate IsRow(d: Dims, layer: nat, head: nat, pos: nat) {
    layer < d.numLayers && head < d.numKvHeads && pos < d.maxSeq
  }

  lemma RowStartIsNumber(d: Dims, layer: nat, head: nat, pos: nat)
    ensures RowStart(d, layer, head, pos) == RowNumber(d, layer, head, pos) * d.headDim
  {
    var s, n := d.maxSeq, d.headDim;
    assert RowStart(d, layer, head, pos) == LayerOff(d, layer) + head * (s * n) + pos * n;
    var a := layer * d.numKvHeads;
    assert LayerOff(d, layer) == a * s * n;
    assert (a + head) * s == a * s + head * s;
    assert ((a + head) * s + pos) * n == (a * s) * n + (head * s) * n + pos * n;
    assert head * (s * n) == (head * s) * n;
  }

  lemma {:induction false} NextMultiple(a: nat, b: nat, n: nat)
    requires a < b
    ensures a * n + n <= b * n
    decreases b
  {
    assert b * n == (b - 1) * n + n;
    if a < b - 1 {
      NextMultiple(a, b - 1, n);
    }
  }

  /** Mixed-radix digits are determined by the number. */
  lemma DigitsUnique(base: nat, hi: nat, lo: nat, hi': nat, lo': nat)
    requires lo < base && lo' < base && hi * base + lo == hi' * base + lo'
    ensures hi == hi' && lo == lo'
  {
    if hi < hi' {
      NextMultiple(hi, hi', base);
    } else if hi' < hi {
      NextMultiple(hi', hi, base);
    }
  }

  lemma SameRow(base: nat, hi: nat, lo: nat, hi': nat, lo': nat, n: nat)
    requires lo < base && lo' < base && n == hi * base + lo && n == hi' * base + lo'
    ensures hi == hi' && lo == lo'
  {
    DigitsUnique(base, hi, lo, hi', lo');
  }

  lemma RowNumberInjective(d: Dims, l: nat, h: nat, p: nat, l': nat, h': nat, p': nat)
    requires IsRow(d, l, h, p) && IsRow(d, l', h', p')
    requires RowNumber(d, l, h, p) == RowNumber(d, l', h', p')
    ensures l == l' && h == h' && p == p'
  {
    var a, a' := l * d.numKvHeads + h, l' * d.numKvHeads + h';
    SameRow(d.maxSeq, a, p, a', p', RowNumber(d, l, h, p));
    SameRow(d.numKvHeads, l, h, l', h', a);
  }

  lemma RowNumberBound(d: Dims, l: nat, h: nat, p: nat)
    requires IsRow(d, l, h, p)
    ensures RowNumber(d, l, h, p) < d.numLayers * d.numKvHeads * d.maxSeq
  {
    NextMultiple(l, d.numLayers, d.numKvHeads);
    NextMultiple(l * d.numKvHeads + h, d.numLayers * d.numKvHeads, d.maxSeq);
  }

  /** Every row lies inside the buffer. */
  lemma RowInBuffer(d: Dims, l: nat, h: nat, p: nat)
    requires IsRow(d, l, h, p)
    ensures RowStart(d, l, h, p) + d.headDim <= Total(d)
  {
    RowStartIsNumber(d, l, h, p);
    RowNumberBound(d, l, h, p);
    NextMultiple(RowNumber(d, l, h, p), d.numLayers * d.numKvHeads * d.maxSeq, d.headDim);
  }

  /** Different rows are disjoint. */
  lemma RowsApart(d: Dims, l: nat, h: nat, p: nat, l': nat, h': nat, p': nat)
    requires IsRow(d, l, h, p) && IsRow(d, l', h', p')
    requires l != l' || h != h' || p != p'
    ensures var s, s' := RowStart(d, l, h, p), RowStart(d, l', h', p');
            s + d.headDim <= s' || s' + d.headDim <= s
  {
    hide RowStart, RowNumber;
    RowStartIsNumber(d, l, h, p);
    RowStartIsNumber(d, l', h', p');
    var n, n' := RowNumber(d, l, h, p), RowNumber(d, l', h', p');
    if n == n' {
      RowNumberInjective(d, l, h, p, l', h', p');
    } else if n < n' {
      NextMultiple(n, n', d.headDim);
    } else {
      NextMultiple(n', n, d.headDim);
    }
  }

  // ---------------------------------------------------------------------------------------------
  // Reading and replacing rows of a buffer.

  function Slice(s: seq<int>, start: nat, length: nat): (r: seq<int>)
    requires start + length <= |s|
    ensures |r| == length
  {
    s[start..start + length]
  }

  function Replace(s: seq<int>, start: nat, data: seq<int>): (r: seq<int>)
    requires start + |data| <= |s|
    ensures |r| == |s|
    ensures Slice(r, start, |data|) == data
    ensures forall i :: 0 <= i < |s| && !(start <= i < start + |data|) ==> r[i] == s[i]
  {
    s[..start] + data + s[start + |data|..]
  }

  function Row(d: Dims, cache: seq<int>, l: nat, h: nat, p: nat): (r: seq<int>)
    requires |cache| == Total(d) && IsRow(d, l, h, p)
    ensures |r| == d.headDim
  {
    RowInBuffer(d, l, h, p);
    Slice(cache, RowStart(d, l, h, p), d.headDim)
  }

  /** Writing one row changes that row and no other. */
  lemma RowReplaced(d: Dims, cache: seq<int>, l: nat, h: nat, p: nat, data: seq<int>)
    requires |cache| == Total(d) && IsRow(d, l, h, p) && |data| == d.headDim
    requires RowStart(d, l, h, p) + d.headDim <= |cache|
    ensures var cache' := Replace(cache, RowStart(d, l, h, p), data);
            && Row(d, cache', l, h, p) == data
            && forall l', h', p' :: IsRow(d, l', h', p') && (l' != l || h' != h || p' != p) ==>
                 Row(d, cache', l', h', p') == Row(d, cache, l', h', p')
  {
    var s := RowStart(d, l, h, p);
    var cache' := Replace(cache, s, data);
    forall l', h', p' | IsRow(d, l', h', p') && (l' != l || h' != h || p' != p)
      ensures Row(d, cache', l', h', p') == Row(d, cache, l', h', p')
    {
      RowsApart(d, l, h, p, l', h', p');
      RowInBuffer(d, l', h', p');
      var s' := RowStart(d, l', h', p');
      assert cache'[s'..s' + d.headDim] == cache[s'..s' + d.headDim];
    }
  }
}
