/** Token-by-token decoding with a key/value cache, against a reference that keeps no cache.

    The reference recomputes keys and values of every layer for the whole prefix.  The decoder runs the
    22 operations of each layer in place over nine scratch buffers and appends one row per head to the
    caches. */
module Transformer {
  import opened Kernels
  import opened KvCache
  import opened Device

  const ERR_ALLOC: int := -2
  const ERR_CACHE: int := -5

  /** What the device holds before decoding starts; `rest` is the memory outside all buffers. */
  datatype Model = Model(
    k: Arith, cfg: Config, sincos: seq<int>, embedding: seq<int>, finalNorm: seq<int>, lmHead: seq<int>,
    weight: (nat, nat) -> seq<int>, rest: seq<int>)

  // ---------------------------------------------------------------------------------------------
  // One layer as a pure function: every intermediate value has its own name.

  function InputNorm(m: Model, l: nat, x: seq<int>): seq<int> {
    NormVec(m.k, m.cfg, x, m.weight(l, 0))
  }

  /** A projection of a normalised row, with bias. */
  function Projection(m: Model, n: nat, x: seq<int>, w: seq<int>, bias: seq<int>): (r: seq<int>)
    ensures |r| == n
  {
    AddVec(m.k, n, GemmVec(m.k, m.cfg.hidden, n, x, w), bias)
  }

  function QOf(m: Model, l: nat, x: seq<int>, pos: nat): seq<int> {
    RopeVec(m.k, Projection(m, m.cfg.hidden, InputNorm(m, l, x), m.weight(l, 1), m.weight(l, 2)), m.sincos,
            m.cfg.numQHeads, m.cfg.dims.headDim, pos)
  }

  function KOf(m: Model, l: nat, x: seq<int>, pos: nat): (r: seq<int>)
    ensures |r| == m.cfg.KvDim()
  {
    RopeVec(m.k, Projection(m, m.cfg.KvDim(), InputNorm(m, l, x), m.weight(l, 3), m.weight(l, 4)), m.sincos,
            m.cfg.dims.numKvHeads, m.cfg.dims.headDim, pos)
  }

  function VOf(m: Model, l: nat, x: seq<int>): (r: seq<int>)
    ensures |r| == m.cfg.KvDim()
  {
    Projection(m, m.cfg.KvDim(), InputNorm(m, l, x), m.weight(l, 5), m.weight(l, 6))
  }

  function Scored(m: Model, q: seq<int>, pos: nat, ks: seq<seq<seq<int>>>): seq<seq<int>> {
    Softmax(m.k, Qkt(m.k, q, ks, m.cfg.dims.headDim, m.cfg.QueriesPerKv(), m.cfg.scale, m.cfg.numQHeads, pos))
  }

  function Attention(m: Model, q: seq<int>, pos: nat, ks: seq<seq<seq<int>>>, vs: seq<seq<seq<int>>>): seq<int> {
    Pv(m.k, m.cfg.hidden, Scored(m, q, pos, ks), vs, m.cfg.dims.headDim, m.cfg.QueriesPerKv())
  }

  function Residual1(m: Model, l: nat, x: seq<int>, attn: seq<int>): seq<int> {
    AddVec(m.k, m.cfg.hidden, x, GemmVec(m.k, m.cfg.hidden, m.cfg.hidden, attn, m.weight(l, 7)))
  }

  function Feedforward(m: Model, l: nat, r: seq<int>): seq<int> {
    var d, i := m.cfg.hidden, m.cfg.intermediate;
    var n := NormVec(m.k, m.cfg, r, m.weight(l, 8));
    var gate := SiluVec(m.k, i, GemmVec(m.k, d, i, n, m.weight(l, 9)));
    var up := GemmVec(m.k, d, i, n, m.weight(l, 10));
    AddVec(m.k, d, r, GemmVec(m.k, i, d, MulVec(m.k, i, gate, up), m.weight(l, 11)))
  }

  /** The output of a layer for the token at `pos`, given its input and the keys and values of tokens 0 .. pos. */
  function LayerOut(m: Model, l: nat, x: seq<int>, pos: nat, ks: seq<seq<seq<int>>>, vs: seq<seq<seq<int>>>): seq<int> {
    Feedforward(m, l, Residual1(m, l, x, Attention(m, QOf(m, l, x, pos), pos, ks, vs)))
  }

  // ---------------------------------------------------------------------------------------------
  // The reference without a cache.

  /** The part of a key or value vector that belongs to a head. */
  function Head(m: Model, v: seq<int>, h: nat): (r: seq<int>)
    requires |v| == m.cfg.KvDim() && h < m.cfg.dims.numKvHeads
    ensures |r| == m.cfg.dims.headDim
  {
    NextMultiple(h, m.cfg.dims.numKvHeads, m.cfg.dims.headDim);
    Slice(v, h * m.cfg.dims.headDim, m.cfg.dims.headDim)
  }

  /** The input of layer `l` for the last token of `toks`. */
  function Hidden(m: Model, toks: seq<int>, l: nat): seq<int>
    requires toks != []
    decreases l, 0
  {
    if l == 0 then EmbeddingVec(m.cfg.hidden, m.embedding, toks[|toks| - 1])
    else LayerOut(m, l - 1, Hidden(m, toks, l - 1), |toks| - 1, Keys(m, toks, l - 1), Values(m, toks, l - 1))
  }

  /** Keys [h][p] of layer `l` for the whole prefix, recomputed from the tokens. */
  function Keys(m: Model, toks: seq<int>, l: nat): (r: seq<seq<seq<int>>>)
    decreases l, 1
  {
    seq(m.cfg.dims.numKvHeads, h requires 0 <= h < m.cfg.dims.numKvHeads =>
      seq(|toks|, p requires 0 <= p < |toks| => Head(m, KOf(m, l, Hidden(m, toks[..p + 1], l), p), h)))
  }

  function Values(m: Model, toks: seq<int>, l: nat): (r: seq<seq<seq<int>>>)
    decreases l, 1
  {
    seq(m.cfg.dims.numKvHeads, h requires 0 <= h < m.cfg.dims.numKvHeads =>
      seq(|toks|, p requires 0 <= p < |toks| => Head(m, VOf(m, l, Hidden(m, toks[..p + 1], l)), h)))
  }

  function LogitsOf(m: Model, x: seq<int>): seq<int> {
    GemmVec(m.k, m.cfg.hidden, m.cfg.vocab, NormVec(m.k, m.cfg, x, m.finalNorm), m.lmHead)
  }

  /** The next token after `toks`. */
  function NextToken(m: Model, toks: seq<int>): int
    requires toks != []
  {
    m.k.argmax(LogitsOf(m, Hidden(m, toks, m.cfg.dims.numLayers)))
  }

  // ---------------------------------------------------------------------------------------------
  // The reference in the terms of the textbook, for dimensions that fit together.

  /** Query heads fill the hidden row and share the key and value heads evenly. */
  ghost predicate HeadsFit(c: Config) {
    c.dims.numKvHeads > 0 && c.numQHeads % c.dims.numKvHeads == 0 && c.hidden == c.numQHeads * c.dims.headDim
  }

  /** Every tensor has the cells that the operations on it read. */
  ghost predicate WeightsFit(m: Model) {
    var d, kv, i := m.cfg.hidden, m.cfg.KvDim(), m.cfg.intermediate;
    && |m.embedding| == m.cfg.vocab * d && |m.finalNorm| == d && |m.lmHead| == d * m.cfg.vocab
    && |m.sincos| == m.cfg.dims.maxSeq * m.cfg.dims.headDim
    && forall l: nat :: l < m.cfg.dims.numLayers ==>
         && |m.weight(l, 0)| == d
         && |m.weight(l, 1)| == d * d && |m.weight(l, 2)| == d
         && |m.weight(l, 3)| == d * kv && |m.weight(l, 4)| == kv
         && |m.weight(l, 5)| == d * kv && |m.weight(l, 6)| == kv
         && |m.weight(l, 7)| == d * d && |m.weight(l, 8)| == d
         && |m.weight(l, 9)| == d * i && |m.weight(l, 10)| == d * i && |m.weight(l, 11)| == i * d
  }

  lemma ProjectionIsAffine(m: Model, n: nat, x: seq<int>, w: seq<int>, bias: seq<int>, j: nat)
    requires |x| == m.cfg.hidden && |w| == m.cfg.hidden * n && |bias| == n && j < n
    ensures Projection(m, n, x, w, bias)[j] == Affine(m, n, x, w, bias, j)
  {
    hide GemmVec, AddVec, Dot, Column;
    GemmIsDot(m.k, m.cfg.hidden, n, x, w, j);
    CellByCell(m.k, n, GemmVec(m.k, m.cfg.hidden, n, x, w), bias, j);
  }

  /** A cell of an affine map: a column of weights and a bias. */
  function Affine(m: Model, n: nat, x: seq<int>, w: seq<int>, bias: seq<int>, j: nat): int
    requires |x| == m.cfg.hidden && |w| == m.cfg.hidden * n && |bias| == n && j < n
  {
    m.k.add(Dot(m.k, x, Column(w, m.cfg.hidden, n, j)), bias[j])
  }

  /** A pair of cells, half a head apart, is `lo` and `hi` turned by the angle of a position. */
  ghost predicate Turned(m: Model, pos: nat, lane: nat, lo: int, hi: int, lo': int, hi': int)
    requires lane < m.cfg.dims.headDim / 2 && pos * m.cfg.dims.headDim + m.cfg.dims.headDim <= |m.sincos|
  {
    var at := pos * m.cfg.dims.headDim + 2 * lane;
    var cos, sin := m.sincos[at], m.sincos[at + 1];
    lo' == m.k.sub(m.k.mul(lo, cos), m.k.mul(hi, sin)) && hi' == m.k.madd(lo, sin, m.k.mul(hi, cos))
  }

  lemma RopedProjection(m: Model, n: nat, x: seq<int>, w: seq<int>, bias: seq<int>, heads: nat, pos: nat, h: nat, lane: nat)
    requires |x| == m.cfg.hidden && |w| == m.cfg.hidden * n && |bias| == n && n == heads * m.cfg.dims.headDim && h < heads
    requires m.cfg.dims.headDim % 2 == 0 && lane < m.cfg.dims.headDim / 2
    requires pos * m.cfg.dims.headDim + m.cfg.dims.headDim <= |m.sincos|
    ensures var lo, hi := h * m.cfg.dims.headDim + lane, h * m.cfg.dims.headDim + lane + m.cfg.dims.headDim / 2;
      var r := RopeVec(m.k, Projection(m, n, x, w, bias), m.sincos, heads, m.cfg.dims.headDim, pos);
      && hi < n == |r|
      && Turned(m, pos, lane, Affine(m, n, x, w, bias, lo), Affine(m, n, x, w, bias, hi), r[lo], r[hi])
  {
    hide RopeVec, Projection, Dot, Column;
    NextMultiple(h, heads, m.cfg.dims.headDim);
    var p := Projection(m, n, x, w, bias);
    RopeRotates(m.k, p, m.sincos, heads, m.cfg.dims.headDim, pos, h, lane);
    ProjectionIsAffine(m, n, x, w, bias, h * m.cfg.dims.headDim + lane);
    ProjectionIsAffine(m, n, x, w, bias, h * m.cfg.dims.headDim + lane + m.cfg.dims.headDim / 2);
  }

  lemma AngleThere(m: Model, pos: nat)
    requires WeightsFit(m) && pos < m.cfg.dims.maxSeq
    ensures pos * m.cfg.dims.headDim + m.cfg.dims.headDim <= |m.sincos|
  {
    NextMultiple(pos, m.cfg.dims.maxSeq, m.cfg.dims.headDim);
  }

  /** The query is affine in the normalised row, each head turned by the angles of the position. */
  lemma QueryIsTurned(m: Model, l: nat, x: seq<int>, pos: nat, h: nat, lane: nat)
    requires WeightsFit(m) && HeadsFit(m.cfg) && l < m.cfg.dims.numLayers && pos < m.cfg.dims.maxSeq
    requires m.cfg.dims.headDim % 2 == 0 && lane < m.cfg.dims.headDim / 2 && h < m.cfg.numQHeads
    ensures var c, n, q := m.cfg, InputNorm(m, l, x), QOf(m, l, x, pos);
      var lo, hi := h * c.dims.headDim + lane, h * c.dims.headDim + lane + c.dims.headDim / 2;
      && hi < c.hidden == |q| && pos * c.dims.headDim + c.dims.headDim <= |m.sincos|
      && Turned(m, pos, lane, Affine(m, c.hidden, n, m.weight(l, 1), m.weight(l, 2), lo),
                Affine(m, c.hidden, n, m.weight(l, 1), m.weight(l, 2), hi), q[lo], q[hi])
  {
    hide RopeVec, Projection, Affine, Turned, NormVec, Config.KvDim;
    AngleThere(m, pos);
    RopedProjection(m, m.cfg.hidden, InputNorm(m, l, x), m.weight(l, 1), m.weight(l, 2), m.cfg.numQHeads, pos, h, lane);
  }

  /** So is the key; the value is affine and not turned. */
  lemma KeyIsTurned(m: Model, l: nat, x: seq<int>, pos: nat, h: nat, lane: nat)
    requires WeightsFit(m) && l < m.cfg.dims.numLayers && pos < m.cfg.dims.maxSeq
    requires m.cfg.dims.headDim % 2 == 0 && lane < m.cfg.dims.headDim / 2 && h < m.cfg.dims.numKvHeads
    ensures var c, n, k := m.cfg, InputNorm(m, l, x), KOf(m, l, x, pos);
      var lo, hi := h * c.dims.headDim + lane, h * c.dims.headDim + lane + c.dims.headDim / 2;
      && hi < c.KvDim() && pos * c.dims.headDim + c.dims.headDim <= |m.sincos|
      && Turned(m, pos, lane, Affine(m, c.KvDim(), n, m.weight(l, 3), m.weight(l, 4), lo),
                Affine(m, c.KvDim(), n, m.weight(l, 3), m.weight(l, 4), hi), k[lo], k[hi])
  {
    hide RopeVec, Projection, Affine, Turned, NormVec;
    AngleThere(m, pos);
    RopedProjection(m, m.cfg.KvDim(), InputNorm(m, l, x), m.weight(l, 3), m.weight(l, 4), m.cfg.dims.numKvHeads, pos, h, lane);
  }

  lemma ValueIsAffine(m: Model, l: nat, x: seq<int>, j: nat)
    requires WeightsFit(m) && l < m.cfg.dims.numLayers && j < m.cfg.KvDim()
    ensures VOf(m, l, x)[j] == Affine(m, m.cfg.KvDim(), InputNorm(m, l, x), m.weight(l, 5), m.weight(l, 6), j)
  {
    hide Projection, Dot, Column, NormVec, Config.KvDim;
    ProjectionIsAffine(m, m.cfg.KvDim(), InputNorm(m, l, x), m.weight(l, 5), m.weight(l, 6), j);
  }

  /** The scores of a query head before softmax: scaled dot products with the rows of its group's key head. */
  function ScoreRow(m: Model, q: seq<int>, pos: nat, ks: seq<seq<seq<int>>>, h: nat): (r: seq<int>)
    requires HeadsFit(m.cfg) && |q| == m.cfg.hidden && Rows(ks, m.cfg.dims.numKvHeads, pos, m.cfg.dims.headDim) && h < m.cfg.numQHeads
    ensures |r| == pos + 1
  {
    seq(pos + 1, t requires 0 <= t <= pos =>
      (GroupOfHead(m.cfg, h);
       m.k.mul(Dot(m.k, ks[h * m.cfg.dims.numKvHeads / m.cfg.numQHeads][t], Slice(q, h * m.cfg.dims.headDim, m.cfg.dims.headDim)),
               m.cfg.scale)))
  }

  lemma GroupOfHead(c: Config, h: nat)
    requires HeadsFit(c) && h < c.numQHeads
    ensures 0 <= h * c.dims.numKvHeads / c.numQHeads < c.dims.numKvHeads && h * c.dims.headDim + c.dims.headDim <= c.hidden
    ensures c.QueriesPerKv() * c.dims.numKvHeads == c.numQHeads && h / c.QueriesPerKv() == h * c.dims.numKvHeads / c.numQHeads
  {
    GroupsAreEqual(c.numQHeads, c.dims.numKvHeads);
    GroupOf(h, c.numQHeads / c.dims.numKvHeads, c.dims.numKvHeads);
    NextMultiple(h, c.numQHeads, c.dims.headDim);
  }

  /** Grouped-query attention: a cell of a query head's output is the sum of that cell of the values of its group's head,
      weighted with the softmax of the head's scores. */
  lemma AttentionIsGrouped(m: Model, q: seq<int>, pos: nat, ks: seq<seq<seq<int>>>, vs: seq<seq<seq<int>>>, h: nat, j: nat)
    requires HeadsFit(m.cfg) && |q| == m.cfg.hidden && h < m.cfg.numQHeads && j < m.cfg.dims.headDim
    requires Rows(ks, m.cfg.dims.numKvHeads, pos, m.cfg.dims.headDim) && Rows(vs, m.cfg.dims.numKvHeads, pos, m.cfg.dims.headDim)
    ensures var c, g := m.cfg, h * m.cfg.dims.numKvHeads / m.cfg.numQHeads;
      && 0 <= g < c.dims.numKvHeads && h * c.dims.headDim + j < c.hidden
      && Attention(m, q, pos, ks, vs)[h * c.dims.headDim + j] ==
         Weighted(m.k, seq(pos + 1, t requires 0 <= t => m.k.softmax(ScoreRow(m, q, pos, ks, h), t)),
                  Across(vs, c.dims.numKvHeads, pos, c.dims.headDim, g, j))
  {
    hide Weighted, Dot, Across, Pv, Qkt, Rows, HeadsFit;
    var c := m.cfg;
    FitParts(c);
    GroupOfHead(c, h);
    var scores := Qkt(m.k, q, ks, c.dims.headDim, c.numQHeads / c.dims.numKvHeads, c.scale, c.numQHeads, pos);
    assert scores[h] == ScoreRow(m, q, pos, ks, h) by {
      ScoresAreDots(m, q, pos, ks, h);
    }
    var p := Softmax(m.k, scores);
    assert p[h] == seq(pos + 1, t requires 0 <= t => m.k.softmax(ScoreRow(m, q, pos, ks, h), t));
    PvIsWeighted(m.k, p, vs, c.dims.headDim, c.numQHeads, c.dims.numKvHeads, pos, h, j);
  }

  lemma FitParts(c: Config)
    requires HeadsFit(c)
    ensures c.dims.numKvHeads > 0 && c.numQHeads % c.dims.numKvHeads == 0 && c.hidden == c.numQHeads * c.dims.headDim
    ensures c.QueriesPerKv() == c.numQHeads / c.dims.numKvHeads
  {
  }

  lemma ScoresAreDots(m: Model, q: seq<int>, pos: nat, ks: seq<seq<seq<int>>>, h: nat)
    requires HeadsFit(m.cfg) && |q| == m.cfg.hidden && h < m.cfg.numQHeads && Rows(ks, m.cfg.dims.numKvHeads, pos, m.cfg.dims.headDim)
    ensures var c := m.cfg;
      Qkt(m.k, q, ks, c.dims.headDim, c.numQHeads / c.dims.numKvHeads, c.scale, c.numQHeads, pos)[h] == ScoreRow(m, q, pos, ks, h)
  {
    hide Dot, Qkt;
    var c := m.cfg;
    var scores := Qkt(m.k, q, ks, c.dims.headDim, c.numQHeads / c.dims.numKvHeads, c.scale, c.numQHeads, pos);
    forall t | 0 <= t <= pos ensures scores[h][t] == ScoreRow(m, q, pos, ks, h)[t] {
      QktIsScaledDot(m.k, q, ks, c.dims.headDim, c.scale, c.numQHeads, c.dims.numKvHeads, pos, h, t);
    }
  }

  /** The recomputed keys and values are rows 0 up to the last token, for every head. */
  lemma KeysAreRows(m: Model, toks: seq<int>, l: nat)
    requires toks != []
    ensures Rows(Keys(m, toks, l), m.cfg.dims.numKvHeads, |toks| - 1, m.cfg.dims.headDim)
    ensures Rows(Values(m, toks, l), m.cfg.dims.numKvHeads, |toks| - 1, m.cfg.dims.headDim)
  {
    hide KOf, VOf, Hidden;
  }

  /** The output projection is added to the layer's input. */
  lemma ResidualIsAffine(m: Model, l: nat, x: seq<int>, attn: seq<int>, j: nat)
    requires WeightsFit(m) && l < m.cfg.dims.numLayers && |x| == |attn| == m.cfg.hidden && j < m.cfg.hidden
    ensures Residual1(m, l, x, attn)[j] ==
            m.k.add(x[j], Dot(m.k, attn, Column(m.weight(l, 7), m.cfg.hidden, m.cfg.hidden, j)))
  {
    hide GemmVec, AddVec, Dot, Column;
    var d := m.cfg.hidden;
    GemmIsDot(m.k, d, d, attn, m.weight(l, 7), j);
    CellByCell(m.k, d, x, GemmVec(m.k, d, d, attn, m.weight(l, 7)), j);
  }

  /** The activations between the two halves of the feed-forward block: gate and up projection of the normalised row. */
  function Activations(m: Model, l: nat, n: seq<int>): (r: seq<int>)
    requires |n| == m.cfg.hidden && |m.weight(l, 9)| == |m.weight(l, 10)| == m.cfg.hidden * m.cfg.intermediate
    ensures |r| == m.cfg.intermediate
  {
    var d, i, k := m.cfg.hidden, m.cfg.intermediate, m.k;
    seq(i, j requires 0 <= j < i =>
      var g := Dot(k, n, Column(m.weight(l, 9), d, i, j));
      k.mul(k.mul(g, k.div(ONE, k.add(ONE, k.exp(k.neg(g))))), Dot(k, n, Column(m.weight(l, 10), d, i, j))))
  }

  lemma ActivationsAre(m: Model, l: nat, n: seq<int>)
    requires |n| == m.cfg.hidden && |m.weight(l, 9)| == |m.weight(l, 10)| == m.cfg.hidden * m.cfg.intermediate
    ensures var d, i := m.cfg.hidden, m.cfg.intermediate;
      MulVec(m.k, i, SiluVec(m.k, i, GemmVec(m.k, d, i, n, m.weight(l, 9))), GemmVec(m.k, d, i, n, m.weight(l, 10))) ==
      Activations(m, l, n)
  {
    hide GemmVec, Dot, Column;
    var d, i := m.cfg.hidden, m.cfg.intermediate;
    var gate, up := GemmVec(m.k, d, i, n, m.weight(l, 9)), GemmVec(m.k, d, i, n, m.weight(l, 10));
    forall j | 0 <= j < i ensures MulVec(m.k, i, SiluVec(m.k, i, gate), up)[j] == Activations(m, l, n)[j] {
      GemmIsDot(m.k, d, i, n, m.weight(l, 9), j);
      GemmIsDot(m.k, d, i, n, m.weight(l, 10), j);
      assert SiluVec(m.k, i, gate)[j] == SiluCell(m.k, gate, j) && Read(gate, j) == gate[j] && Read(up, j) == up[j];
      assert Read(SiluVec(m.k, i, gate), j) == SiluVec(m.k, i, gate)[j];
    }
  }

  /** The feed-forward block, added to its input. */
  lemma FeedforwardIsTextbook(m: Model, l: nat, r: seq<int>, j: nat)
    requires WeightsFit(m) && l < m.cfg.dims.numLayers && |r| == m.cfg.hidden && j < m.cfg.hidden
    ensures Feedforward(m, l, r)[j] ==
            m.k.add(r[j], Dot(m.k, Activations(m, l, NormVec(m.k, m.cfg, r, m.weight(l, 8))),
                              Column(m.weight(l, 11), m.cfg.intermediate, m.cfg.hidden, j)))
  {
    hide GemmVec, AddVec, MulVec, SiluVec, Dot, Column, NormVec, Activations;
    var d, i, n := m.cfg.hidden, m.cfg.intermediate, NormVec(m.k, m.cfg, r, m.weight(l, 8));
    ActivationsAre(m, l, n);
    GemmIsDot(m.k, i, d, Activations(m, l, n), m.weight(l, 11), j);
    CellByCell(m.k, d, r, GemmVec(m.k, i, d, Activations(m, l, n), m.weight(l, 11)), j);
  }

  /** A logit is the dot product of the normalised last row with a column of the output matrix; the first row is the
      token's row of the embedding table. */
  lemma EndsAreTextbook(m: Model, toks: seq<int>, x: seq<int>, j: nat)
    requires WeightsFit(m) && toks != [] && 0 <= toks[|toks| - 1] < m.cfg.vocab && j < m.cfg.vocab
    ensures LogitsOf(m, x)[j] == Dot(m.k, NormVec(m.k, m.cfg, x, m.finalNorm), Column(m.lmHead, m.cfg.hidden, m.cfg.vocab, j))
    ensures var t, d := toks[|toks| - 1], m.cfg.hidden; t * d + d <= |m.embedding| && Hidden(m, toks, 0) == Slice(m.embedding, t * d, d)
  {
    hide GemmVec, Dot, Column, NormVec, EmbeddingVec;
    GemmIsDot(m.k, m.cfg.hidden, m.cfg.vocab, NormVec(m.k, m.cfg, x, m.finalNorm), m.lmHead, j);
    EmbeddingIsRow(m.embedding, m.cfg.vocab, m.cfg.hidden, toks[|toks| - 1]);
  }

  // ---------------------------------------------------------------------------------------------
  // What the caches hold.

  ghost predicate RowOk(m: Model, kc: seq<int>, vc: seq<int>, toks: seq<int>, l: nat, h: nat, p: nat)
    requires |kc| == |vc| == Total(m.cfg.dims) && IsRow(m.cfg.dims, l, h, p) && p < |toks|
  {
    && Row(m.cfg.dims, kc, l, h, p) == Head(m, KOf(m, l, Hidden(m, toks[..p + 1], l), p), h)
    && Row(m.cfg.dims, vc, l, h, p) == Head(m, VOf(m, l, Hidden(m, toks[..p + 1], l)), h)
  }

  /** The caches hold the rows of the first `full` tokens in all layers, and of the token after them in
      the first `part` layers. */
  ghost predicate Caches(m: Model, kc: seq<int>, vc: seq<int>, toks: seq<int>, full: nat, part: nat)
    requires |kc| == |vc| == Total(m.cfg.dims)
  {
    && full <= |toks| && (part > 0 ==> full < |toks|)
    && forall l: nat, h: nat, p: nat :: IsRow(m.cfg.dims, l, h, p) && (p < full || (p == full && l < part)) ==>
         RowOk(m, kc, vc, toks, l, h, p)
  }

  /** With the current row appended, reading the cache of a layer gives the recomputed keys and values. */
  lemma CachedRows(m: Model, kc: seq<int>, vc: seq<int>, toks: seq<int>, l: nat)
    requires |kc| == |vc| == Total(m.cfg.dims) && toks != [] && |toks| <= m.cfg.dims.maxSeq && l < m.cfg.dims.numLayers
    requires Caches(m, kc, vc, toks, |toks| - 1, l + 1)
    ensures RowsOf(m.cfg.dims, kc, l, |toks| - 1) == Keys(m, toks, l)
    ensures RowsOf(m.cfg.dims, vc, l, |toks| - 1) == Values(m, toks, l)
  {
    hide KOf, VOf, Hidden, Row, Head, Total;
    var pos := |toks| - 1;
    var ks, vs := RowsOf(m.cfg.dims, kc, l, pos), RowsOf(m.cfg.dims, vc, l, pos);
    forall h | 0 <= h < m.cfg.dims.numKvHeads ensures ks[h] == Keys(m, toks, l)[h] && vs[h] == Values(m, toks, l)[h] {
      forall p | 0 <= p <= pos ensures ks[h][p] == Keys(m, toks, l)[h][p] && vs[h][p] == Values(m, toks, l)[h][p] {
        assert RowOk(m, kc, vc, toks, l, h, p);
      }
    }
  }

  // ---------------------------------------------------------------------------------------------
  // Appending and committing.

  /** One row of both caches changed. */
  ghost predicate Appended(d: Dims, kc: seq<int>, vc: seq<int>, kc': seq<int>, vc': seq<int>, layer: nat, pos: nat,
                           heads: nat, ks: seq<seq<int>>, vs: seq<seq<int>>)
  {
    && |kc| == |vc| == |kc'| == |vc'| == Total(d)
    && heads <= |ks| == |vs| == d.numKvHeads && layer < d.numLayers && pos < d.maxSeq
    && forall l: nat, h: nat, p: nat :: IsRow(d, l, h, p) ==>
         if l == layer && p == pos && h < heads
         then Row(d, kc', l, h, p) == ks[h] && Row(d, vc', l, h, p) == vs[h]
         else Row(d, kc', l, h, p) == Row(d, kc, l, h, p) && Row(d, vc', l, h, p) == Row(d, vc, l, h, p)
  }

  lemma AppendHead(d: Dims, kc: seq<int>, vc: seq<int>, kc1: seq<int>, vc1: seq<int>, layer: nat, pos: nat, h: nat,
                   ks: seq<seq<int>>, vs: seq<seq<int>>)
    requires Appended(d, kc, vc, kc1, vc1, layer, pos, h, ks, vs) && h < d.numKvHeads
    requires |ks[h]| == |vs[h]| == d.headDim
    requires RowStart(d, layer, h, pos) + d.headDim <= Total(d)
    ensures Appended(d, kc, vc, Replace(kc1, RowStart(d, layer, h, pos), ks[h]),
                     Replace(vc1, RowStart(d, layer, h, pos), vs[h]), layer, pos, h + 1, ks, vs)
  {
    hide Row, RowStart, Total, Replace;
    RowReplaced(d, kc1, layer, h, pos, ks[h]);
    RowReplaced(d, vc1, layer, h, pos, vs[h]);
  }

  // ---------------------------------------------------------------------------------------------
  // Images of device memory.

  /** The buffers that the decoder never writes, and the caches, are all there. */
  ghost predicate Complete(m: Model, img: imap<Buf, seq<int>>) {
    forall b :: b in img <==> !b.Args? && (b.Weight? ==> b.layer < m.cfg.dims.numLayers && b.tensor < TENSORS)
  }

  ghost predicate ModelIn(m: Model, img: imap<Buf, seq<int>>) {
    && Complete(m, img)
    && img[Sincos] == m.sincos && img[EmbeddingTable] == m.embedding
    && img[FinalNorm] == m.finalNorm && img[LmHead] == m.lmHead && img[Rest] == m.rest
    && forall l: nat, t: nat :: l < m.cfg.dims.numLayers && t < TENSORS ==> img[Weight(l, t)] == m.weight(l, t)
  }

  /** Scratch space of the decoder; the rest is the model and the caches. */
  predicate Volatile(b: Buf) {
    && !b.Weight? && !b.Sincos? && !b.EmbeddingTable? && !b.FinalNorm? && !b.LmHead? && !b.KCache? && !b.VCache?
    && !b.Rest?
  }

  /** Nothing but scratch space differs. */
  ghost predicate Lasting(img: imap<Buf, seq<int>>, img': imap<Buf, seq<int>>) {
    && (forall b :: b in img <==> b in img')
    && forall b :: b in img && !Volatile(b) ==> img'[b] == img[b]
  }

  ghost predicate CachesIn(m: Model, img: imap<Buf, seq<int>>, toks: seq<int>, full: nat, part: nat) {
    && KCache in img && VCache in img && |img[KCache]| == |img[VCache]| == Total(m.cfg.dims)
    && Caches(m, img[KCache], img[VCache], toks, full, part)
  }

  ghost predicate AppendedIn(m: Model, img: imap<Buf, seq<int>>, img': imap<Buf, seq<int>>, layer: nat, pos: nat,
                             heads: nat, kNew: seq<int>, vNew: seq<int>)
  {
    && |kNew| == |vNew| == m.cfg.KvDim()
    && KCache in img && VCache in img && KCache in img' && VCache in img'
    && img' == img[KCache := img'[KCache]][VCache := img'[VCache]]
    && Appended(m.cfg.dims, img[KCache], img[VCache], img'[KCache], img'[VCache], layer, pos, heads,
                HeadsOf(m, kNew), HeadsOf(m, vNew))
  }

  /** Nothing changed but a row of a cache, which holds one head's share of a projection now. */
  ghost predicate HeadIn(m: Model, img: imap<Buf, seq<int>>, img': imap<Buf, seq<int>>, cache: Buf, row: nat, v: seq<int>,
                         kh: nat)
  {
    && |v| == m.cfg.KvDim() && kh < m.cfg.dims.numKvHeads && cache in img
    && row + |HeadsOf(m, v)[kh]| <= |img[cache]|
    && img' == img[cache := Replace(img[cache], row, HeadsOf(m, v)[kh])]
  }

  ghost predicate Projected(m: Model, l: nat, x: seq<int>, pos: nat, img: imap<Buf, seq<int>>) {
    && ResidA in img && ScratchQ in img && ScratchK in img && ScratchV in img
    && img[ResidA] == x
    && img[ScratchQ] == QOf(m, l, x, pos) && img[ScratchK] == KOf(m, l, x, pos) && img[ScratchV] == VOf(m, l, x)
  }

  ghost function At(img: imap<Buf, seq<int>>, b: Buf): seq<int> {
    if b in img then img[b] else []
  }

  /** The rows 0 .. pos of a layer of a cache. */
  ghost function CacheRows(m: Model, img: imap<Buf, seq<int>>, cache: Buf, l: nat, pos: nat): seq<seq<seq<int>>>
    requires l < m.cfg.dims.numLayers && pos < m.cfg.dims.maxSeq
  {
    if |At(img, cache)| == Total(m.cfg.dims) then RowsOf(m.cfg.dims, At(img, cache), l, pos) else []
  }

  ghost predicate AttendDone(m: Model, l: nat, pos: nat, i0: imap<Buf, seq<int>>, img: imap<Buf, seq<int>>)
    requires l < m.cfg.dims.numLayers && pos < m.cfg.dims.maxSeq
  {
    && At(img, ResidA) == At(i0, ResidA)
    && At(img, ScratchX) == Attention(m, At(i0, ScratchQ), pos, CacheRows(m, i0, KCache, l, pos), CacheRows(m, i0, VCache, l, pos))
  }


  // Two operations at a time: what they leave where, and what they leave alone.

  ghost predicate QueryDone(m: Model, l: nat, i0: imap<Buf, seq<int>>, img: imap<Buf, seq<int>>) {
    && At(img, ResidA) == At(i0, ResidA) && At(img, ScratchX) == InputNorm(m, l, At(i0, ResidA))
    && At(img, ScratchQ) == Projection(m, m.cfg.hidden, At(img, ScratchX), m.weight(l, 1), m.weight(l, 2))
  }

  ghost predicate KeyValueDone(m: Model, l: nat, i0: imap<Buf, seq<int>>, img: imap<Buf, seq<int>>) {
    && At(img, ResidA) == At(i0, ResidA) && At(img, ScratchQ) == At(i0, ScratchQ)
    && At(img, ScratchK) == Projection(m, m.cfg.KvDim(), At(i0, ScratchX), m.weight(l, 3), m.weight(l, 4))
    && At(img, ScratchV) == Projection(m, m.cfg.KvDim(), At(i0, ScratchX), m.weight(l, 5), m.weight(l, 6))
  }

  ghost predicate RopesDone(m: Model, pos: nat, i0: imap<Buf, seq<int>>, img: imap<Buf, seq<int>>) {
    && At(img, ResidA) == At(i0, ResidA) && At(img, ScratchV) == At(i0, ScratchV)
    && At(img, ScratchQ) == RopeVec(m.k, At(i0, ScratchQ), m.sincos, m.cfg.numQHeads, m.cfg.dims.headDim, pos)
    && At(img, ScratchK) == RopeVec(m.k, At(i0, ScratchK), m.sincos, m.cfg.dims.numKvHeads, m.cfg.dims.headDim, pos)
  }

  ghost predicate ResidualDone(m: Model, l: nat, i0: imap<Buf, seq<int>>, img: imap<Buf, seq<int>>) {
    At(img, ResidB) == Residual1(m, l, At(i0, ResidA), At(i0, ScratchX))
  }

  ghost predicate GateDone(m: Model, l: nat, i0: imap<Buf, seq<int>>, img: imap<Buf, seq<int>>) {
    && At(img, ResidB) == At(i0, ResidB) && At(img, ScratchX) == NormVec(m.k, m.cfg, At(i0, ResidB), m.weight(l, 8))
    && At(img, FfnA) == GemmVec(m.k, m.cfg.hidden, m.cfg.intermediate, At(img, ScratchX), m.weight(l, 9))
  }

  ghost predicate UpDone(m: Model, l: nat, i0: imap<Buf, seq<int>>, img: imap<Buf, seq<int>>) {
    && At(img, ResidB) == At(i0, ResidB) && At(img, FfnA) == SiluVec(m.k, m.cfg.intermediate, At(i0, FfnA))
    && At(img, FfnB) == GemmVec(m.k, m.cfg.hidden, m.cfg.intermediate, At(i0, ScratchX), m.weight(l, 10))
  }

  ghost predicate DownDone(m: Model, l: nat, i0: imap<Buf, seq<int>>, img: imap<Buf, seq<int>>) {
    && At(img, ResidB) == At(i0, ResidB)
    && At(img, ScratchX) == GemmVec(m.k, m.cfg.intermediate, m.cfg.hidden, MulVec(m.k, m.cfg.intermediate, At(i0, FfnA), At(i0, FfnB)), m.weight(l, 11))
  }

  class Decoder {
    const dev: Memory
    ghost const m: Model
    var filled: nat
    var pending: nat

    constructor (dev: Memory, ghost m: Model)
      ensures this.dev == dev && this.m == m && filled == 0 && pending == 0
    {
      this.dev, this.m, filled, pending := dev, m, 0, 0;
    }

    /** The device holds the constants of the model. */
    ghost predicate Holds()
      reads dev.mem
    {
      dev.Wired() && m.cfg == dev.cfg && m.k == dev.kernels && ModelIn(m, dev.Image())
    }

    ghost predicate Counters()
      reads this
    {
      pending <= m.cfg.dims.numLayers && filled <= m.cfg.dims.maxSeq && (pending > 0 ==> filled < m.cfg.dims.maxSeq)
    }

    /** The cache holds what the committed tokens `toks` put there. */
    ghost predicate Inv(toks: seq<int>)
      reads this, dev.mem
    {
      Holds() && Counters() && filled == |toks| && CachesIn(m, dev.Image(), toks, filled, 0)
    }

    /** kv_cache_append_layer. */
    method AppendLayer(layer: nat, kNew: seq<int>, vNew: seq<int>) returns (rc: int)
      requires dev.Wired() && m.cfg == dev.cfg && Counters()
      requires |kNew| == |vNew| == m.cfg.KvDim()
      modifies dev.mem, `pending
      ensures Counters()
      ensures rc == if filled >= m.cfg.dims.maxSeq then -1
                    else if layer >= m.cfg.dims.numLayers || layer != old(pending) then -2 else OK
      ensures pending == if rc == OK then old(pending) + 1 else old(pending)
      ensures rc != OK ==> dev.Image() == old(dev.Image())
      ensures rc == OK ==> AppendedIn(m, old(dev.Image()), dev.Image(), layer, filled, m.cfg.dims.numKvHeads, kNew, vNew)
    {
      hide Memory.Wired, Memory.Image, Memory.Shown, AppendedIn;
      if filled >= dev.cfg.dims.maxSeq {
        return -1;
      }
      if layer >= dev.cfg.dims.numLayers || layer != pending {
        return -2;
      }
      dev.ImageIsShaped();
      AppendNone(m, dev, layer, filled, kNew, vNew);
      var kh := 0;
      while kh < dev.cfg.dims.numKvHeads
        invariant 0 <= kh <= dev.cfg.dims.numKvHeads && pending == old(pending)
        invariant AppendedIn(m, old(dev.Image()), dev.Image(), layer, filled, kh, kNew, vNew)
      {
        WriteRow(layer, kh, kNew, vNew, old(dev.Image()));
        kh := kh + 1;
      }
      pending := pending + 1;
      rc := OK;
    }

    method WriteRow(layer: nat, kh: nat, kNew: seq<int>, vNew: seq<int>, ghost img: imap<Buf, seq<int>>)
      requires dev.Wired() && m.cfg == dev.cfg && |kNew| == |vNew| == m.cfg.KvDim()
      requires kh < m.cfg.dims.numKvHeads && layer < m.cfg.dims.numLayers && filled < m.cfg.dims.maxSeq
      requires AppendedIn(m, img, dev.Image(), layer, filled, kh, kNew, vNew)
      modifies dev.mem
      ensures AppendedIn(m, img, dev.Image(), layer, filled, kh + 1, kNew, vNew)
    {
      hide Memory.Wired, Memory.Image, Memory.Shown, AppendedIn, Total, RowStart, HeadsOf, Config.KvDim, Replace;
      var d := dev.cfg.dims;
      RowInBuffer(d, layer, kh, filled);
      ghost var i0 := dev.Image();
      var row := RowStart(d, layer, kh, filled);
      WriteHead(KCache, row, kh, kNew);
      ghost var i1 := dev.Image();
      WriteHead(VCache, row, kh, vNew);
      RowWritten(m, img, i0, i1, dev.Image(), layer, filled, kh, kNew, vNew);
    }

    /** One head's share of a projection, copied to a row of a cache. */
    method WriteHead(cache: Buf, row: nat, kh: nat, v: seq<int>)
      requires dev.Wired() && m.cfg == dev.cfg && (cache == KCache || cache == VCache)
      requires |v| == m.cfg.KvDim() && kh < m.cfg.dims.numKvHeads && row + m.cfg.dims.headDim <= Total(m.cfg.dims)
      modifies dev.mem
      ensures HeadIn(m, old(dev.Image()), dev.Image(), cache, row, v, kh)
    {
      hide Memory.Wired, Memory.Image, Memory.Shown, Total, HeadsOf, Config.KvDim, Replace;
      dev.SizesOf();
      HeadCells(m, v, kh);
      dev.ImageAt(cache);
      var src := kh * dev.cfg.dims.headDim;
      dev.Poke(dev.layout(cache).off + row * CELL, v[src..src + dev.cfg.dims.headDim], cache, row);
    }

    /** kv_cache_commit_token; its assertion cannot fail. */
    method CommitToken() returns (rc: int)
      requires Counters() && m.cfg == dev.cfg
      modifies `filled, `pending
      ensures Counters()
      ensures rc == if old(pending) == 0 then -1 else if old(pending) != m.cfg.dims.numLayers then -2 else OK
      ensures rc == OK ==> filled == old(filled) + 1 && pending == 0
      ensures rc != OK ==> filled == old(filled) && pending == old(pending)
    {
      if pending == 0 {
        return -1;
      }
      if pending != dev.cfg.dims.numLayers {
        return -2;
      }
      assert filled < dev.cfg.dims.maxSeq;
      pending := 0;
      filled := filled + 1;
      rc := OK;
    }

    /** After at most `k` calls from `t0` on: the model is in place and only scratch space differs from `i0`. */
    ghost predicate Went(i0: imap<Buf, seq<int>>, t0: nat, k: nat, rc: int)
      reads dev`ticks, dev.mem
    {
      Holds() && Lasting(i0, dev.Image()) && Ran(dev.fault, t0, dev.ticks, k, rc) && (rc == OK || rc == ERR_LAUNCH)
    }

    lemma WentThen(i0: imap<Buf, seq<int>>, t0: nat, i1: imap<Buf, seq<int>>, t1: nat, k: nat, j: nat, rc: int)
      requires Lasting(i0, i1) && Ran(dev.fault, t0, t1, k, OK) && Went(i1, t1, j, rc)
      ensures Went(i0, t0, k + j, rc)
    {
      hide Memory.Wired, Memory.Image, Memory.Shown, Lasting, Ran, ModelIn;
      LastingTrans(i0, i1, dev.Image());
      RanThen(dev.fault, t0, t1, dev.ticks, k, j, rc);
    }

    lemma WentShort(i0: imap<Buf, seq<int>>, t0: nat, k: nat, j: nat, rc: int)
      requires Went(i0, t0, k, rc) && rc != OK && k <= j
      ensures Went(i0, t0, j, rc)
    {
      RanShort(dev.fault, t0, dev.ticks, k, j, rc);
    }

    lemma WentParts(i0: imap<Buf, seq<int>>, t0: nat, k: nat, rc: int)
      requires Went(i0, t0, k, rc)
      ensures Holds() && Lasting(i0, dev.Image()) && Ran(dev.fault, t0, dev.ticks, k, rc)
    {
      hide Memory.Wired, Memory.Image, Memory.Shown, Lasting, ModelIn, Ran;
    }

    /** A projection with bias: gemm into `out`, then add the bias in place. */
    method Linear(x: Buf, w: Buf, bias: Buf, out: Buf, n: nat) returns (rc: int)
      requires Holds() && dev.InUse(x) && dev.InUse(w) && dev.InUse(bias) && dev.InUse(out)
      requires !x.Args? && !w.Args? && !bias.Args? && !out.Args? && bias != out && Volatile(out)
      requires dev.layout(out).len == n
      modifies dev.mem, dev`ticks
      ensures Went(old(dev.Image()), old(dev.ticks), 2, rc)
      ensures dev.Image() == old(dev.Image())[out := dev.Image()[out]]
      ensures rc == OK ==> dev.Image()[out] == Projection(m, n, old(dev.Image())[x], old(dev.Image())[w], old(dev.Image())[bias])
    {
      hide Memory.Wired, Memory.Image, Memory.Shown, GemmVec, AddVec, Projection, Lasting, ModelIn, Ran;
      ghost var img, t0 := dev.Image(), dev.ticks;
      dev.ImageAt(x);
      dev.ImageAt(w);
      dev.ImageAt(bias);
      dev.ImageAt(out);
      rc := dev.OpGemm(x, w, out, dev.cfg.hidden, n);
      ghost var i1, t1 := dev.Image(), dev.ticks;
      if rc == OK {
        rc := dev.OpBroadcastAdd(out, bias, out, n);
        RanThen(dev.fault, t0, t1, dev.ticks, 1, 1, rc);
        LinearValues(m, n, img, i1, dev.Image(), x, w, bias, out);
      } else {
        RanShort(dev.fault, t0, t1, 1, 2, rc);
      }
      TwoWrites(m, img, i1, dev.Image(), out, out);
    }

    /** Steps 1 to 3: normalise, and the query. */
    method Query(l: nat) returns (rc: int)
      requires Holds() && l < m.cfg.dims.numLayers
      modifies dev.mem, dev`ticks
      ensures Went(old(dev.Image()), old(dev.ticks), 3, rc)
      ensures rc == OK ==> QueryDone(m, l, old(dev.Image()), dev.Image())
    {
      hide Memory.Wired, Memory.Image, Memory.Shown, NormVec, Projection, Lasting, ModelIn, Ran, QueryDone;
      Lengths(dev);
      ghost var i0, t0 := dev.Image(), dev.ticks;
      LastingSelf(i0);
      WeightsAt(m, i0, l);
      rc := dev.OpRmsnorm(ResidA, ScratchX, Weight(l, 0));
      ghost var i1, t1 := dev.Image(), dev.ticks;
      LastingStep(i0, i0, ScratchX, At(i1, ScratchX));
      if rc != OK {
        RanShort(dev.fault, t0, t1, 1, 3, rc);
        return;
      }
      ModelLasts(m, i0, i1);
      WeightsAt(m, i1, l);
      rc := Linear(ScratchX, Weight(l, 1), Weight(l, 2), ScratchQ, dev.cfg.hidden);
      WentThen(i0, t0, i1, t1, 1, 2, rc);
      if rc == OK {
        QueryValues(m, l, i0, i1, dev.Image());
      }
    }

    /** Steps 4 to 7: key and value. */
    method KeyValue(l: nat) returns (rc: int)
      requires Holds() && l < m.cfg.dims.numLayers
      modifies dev.mem, dev`ticks
      ensures Went(old(dev.Image()), old(dev.ticks), 4, rc)
      ensures rc == OK ==> KeyValueDone(m, l, old(dev.Image()), dev.Image())
    {
      hide Memory.Wired, Memory.Image, Memory.Shown, Projection, Lasting, ModelIn, Ran, Config.KvDim, KeyValueDone, At, Went;
      Lengths(dev);
      ghost var i0, t0 := dev.Image(), dev.ticks;
      WeightsAt(m, i0, l);
      rc := Linear(ScratchX, Weight(l, 3), Weight(l, 4), ScratchK, dev.cfg.KvDim());
      if rc != OK {
        WentShort(i0, t0, 2, 4, rc);
        return;
      }
      ghost var i1, t1 := dev.Image(), dev.ticks;
      WentParts(i0, t0, 2, rc);
      WeightsAt(m, i1, l);
      rc := Linear(ScratchX, Weight(l, 5), Weight(l, 6), ScratchV, dev.cfg.KvDim());
      WentThen(i0, t0, i1, t1, 2, 2, rc);
      if rc == OK {
        KeyValueValues(m, l, i0, i1, dev.Image());
      }
    }

    /** Steps 8 and 9: rotate query and key. */
    method Ropes(l: nat, pos: nat) returns (rc: int)
      requires Holds() && l < m.cfg.dims.numLayers
      modifies dev.mem, dev`ticks
      ensures Went(old(dev.Image()), old(dev.ticks), 2, rc)
      ensures rc == OK ==> RopesDone(m, pos, old(dev.Image()), dev.Image())
    {
      hide Memory.Wired, Memory.Image, Memory.Shown, RopeVec, Lasting, ModelIn, Ran, RopesDone, At;
      ghost var i0, t0 := dev.Image(), dev.ticks;
      WeightsAt(m, i0, l);
      rc := dev.OpRope(ScratchQ, dev.cfg.numQHeads, pos);
      ghost var i1, t1 := dev.Image(), dev.ticks;
      if rc == OK {
        rc := dev.OpRope(ScratchK, dev.cfg.dims.numKvHeads, pos);
        RanThen(dev.fault, t0, t1, dev.ticks, 1, 1, rc);
        if rc == OK {
          RopesValues(m, l, pos, i0, i1, dev.Image());
        }
      } else {
        RanShort(dev.fault, t0, t1, 1, 2, rc);
      }
      TwoWrites(m, i0, i1, dev.Image(), ScratchQ, ScratchK);
    }

    /** Steps 1 to 9: the query, key and value of the current token. */
    method Project(l: nat, pos: nat) returns (rc: int)
      requires Holds() && l < m.cfg.dims.numLayers
      modifies dev.mem, dev`ticks
      ensures Went(old(dev.Image()), old(dev.ticks), 9, rc)
      ensures rc == OK ==> Projected(m, l, At(old(dev.Image()), ResidA), pos, dev.Image())
    {
      hide Memory.Wired, Memory.Image, Memory.Shown, Lasting, ModelIn, Ran, At, QueryDone, KeyValueDone, RopesDone, Projected;
      ghost var i0, t0 := dev.Image(), dev.ticks;
      rc := Query(l);
      if rc != OK {
        WentShort(i0, t0, 3, 9, rc);
        return;
      }
      ghost var i1, t1 := dev.Image(), dev.ticks;
      rc := KeyValue(l);
      WentThen(i0, t0, i1, t1, 3, 4, rc);
      if rc != OK {
        WentShort(i0, t0, 7, 9, rc);
        return;
      }
      ghost var i2, t2 := dev.Image(), dev.ticks;
      rc := Ropes(l, pos);
      WentThen(i0, t0, i2, t2, 7, 2, rc);
      if rc == OK {
        ProjectValues(m, l, pos, i0, i1, i2, dev.Image());
      }
    }

    /** Steps 11 and 12: the normalised scores of the current query against rows 0 .. pos of the keys. */
    method ScoreKeys(l: nat, pos: nat) returns (rc: int)
      requires Holds() && l < m.cfg.dims.numLayers && pos < m.cfg.dims.maxSeq
      modifies dev.mem, dev`ticks
      ensures Went(old(dev.Image()), old(dev.ticks), 2, rc)
      ensures dev.Shaped(old(dev.Image())) && dev.Shaped(dev.Image())
      ensures rc == OK ==> dev.Image() == old(dev.Image())[Scores := dev.Image()[Scores]]
      ensures rc == OK ==> dev.ScoresIn(dev.Image(), pos) == Scored(m, At(old(dev.Image()), ScratchQ), pos, RowsOf(m.cfg.dims, old(dev.Image())[KCache], l, pos))
    {
      hide Memory.Wired, Memory.Image, Memory.Shown, ModelIn, Lasting, RowsOf, Qkt, Softmax, Memory.ScoresIn, Total, Ran;
      ghost var i0, t0 := dev.Image(), dev.ticks;
      rc := dev.OpQktDecode(l, pos);
      ghost var i1, t1 := dev.Image(), dev.ticks;
      if rc == OK {
        rc := dev.OpSoftmaxDecode(pos);
        RanThen(dev.fault, t0, t1, dev.ticks, 1, 1, rc);
      } else {
        RanShort(dev.fault, t0, t1, 1, 2, rc);
      }
      TwoWrites(m, i0, i1, dev.Image(), Scores, Scores);
    }

    /** Steps 11 to 13: attention over the rows 0 .. pos of the cache. */
    method Attend(l: nat, pos: nat) returns (rc: int)
      requires Holds() && l < m.cfg.dims.numLayers && pos < m.cfg.dims.maxSeq
      modifies dev.mem, dev`ticks
      ensures Went(old(dev.Image()), old(dev.ticks), 3, rc)
      ensures rc == OK ==> AttendDone(m, l, pos, old(dev.Image()), dev.Image())
    {
      hide Memory.Wired, Memory.Image, Memory.Shown, ModelIn, Lasting, RowsOf, Scored, Pv, Memory.ScoresIn, Total, AttendDone, Ran;
      Lengths(dev);
      ghost var i0, t0 := dev.Image(), dev.ticks;
      WeightsAt(m, i0, l);
      rc := ScoreKeys(l, pos);
      ghost var i1, t1 := dev.Image(), dev.ticks;
      if rc != OK {
        RanShort(dev.fault, t0, t1, 2, 3, rc);
        return;
      }
      rc := dev.OpPvDecode(l, ScratchX, pos);
      RanThen(dev.fault, t0, t1, dev.ticks, 2, 1, rc);
      TwoWrites(m, i0, i1, dev.Image(), Scores, ScratchX);
      if rc == OK {
        AttendValues(m, l, pos, i0, i1, dev.Image(), dev.ScoresIn(i1, pos));
      }
    }

    /** Steps 14 and 15: output projection and first residual. */
    method Residual(l: nat) returns (rc: int)
      requires Holds() && l < m.cfg.dims.numLayers
      modifies dev.mem, dev`ticks
      ensures Went(old(dev.Image()), old(dev.ticks), 2, rc)
      ensures rc == OK ==> ResidualDone(m, l, old(dev.Image()), dev.Image())
    {
      hide Memory.Wired, Memory.Image, Memory.Shown, GemmVec, AddVec, ModelIn, Lasting, Ran, ResidualDone;
      Lengths(dev);
      ghost var i0, t0 := dev.Image(), dev.ticks;
      WeightsAt(m, i0, l);
      rc := dev.OpGemm(ScratchX, Weight(l, 7), ScratchQ, dev.cfg.hidden, dev.cfg.hidden);
      ghost var i1, t1 := dev.Image(), dev.ticks;
      if rc == OK {
        rc := dev.OpBroadcastAdd(ResidA, ScratchQ, ResidB, dev.cfg.hidden);
        RanThen(dev.fault, t0, t1, dev.ticks, 1, 1, rc);
        if rc == OK {
          ResidualValues(m, l, i0, i1, dev.Image());
        }
      } else {
        RanShort(dev.fault, t0, t1, 1, 2, rc);
      }
      TwoWrites(m, i0, i1, dev.Image(), ScratchQ, ResidB);
    }

    /** Steps 16 and 17: the second norm and the gate. */
    method Gate(l: nat) returns (rc: int)
      requires Holds() && l < m.cfg.dims.numLayers
      modifies dev.mem, dev`ticks
      ensures Went(old(dev.Image()), old(dev.ticks), 2, rc)
      ensures rc == OK ==> GateDone(m, l, old(dev.Image()), dev.Image())
    {
      hide Memory.Wired, Memory.Image, Memory.Shown, GemmVec, NormVec, ModelIn, Lasting, Ran, At, GateDone;
      Lengths(dev);
      ghost var i0, t0 := dev.Image(), dev.ticks;
      WeightsAt(m, i0, l);
      rc := dev.OpRmsnorm(ResidB, ScratchX, Weight(l, 8));
      ghost var i1, t1 := dev.Image(), dev.ticks;
      if rc == OK {
        rc := dev.OpGemm(ScratchX, Weight(l, 9), FfnA, dev.cfg.hidden, dev.cfg.intermediate);
        RanThen(dev.fault, t0, t1, dev.ticks, 1, 1, rc);
      } else {
        RanShort(dev.fault, t0, t1, 1, 2, rc);
      }
      TwoWrites(m, i0, i1, dev.Image(), ScratchX, FfnA);
      if rc == OK {
        GateValues(m, l, i0, i1, dev.Image());
      }
    }

    /** Steps 18 and 19: the second input of the product, and the activation in place. */
    method Up(l: nat) returns (rc: int)
      requires Holds() && l < m.cfg.dims.numLayers
      modifies dev.mem, dev`ticks
      ensures Went(old(dev.Image()), old(dev.ticks), 2, rc)
      ensures rc == OK ==> UpDone(m, l, old(dev.Image()), dev.Image())
    {
      hide Memory.Wired, Memory.Image, Memory.Shown, GemmVec, SiluVec, ModelIn, Lasting, Ran, At, UpDone;
      Lengths(dev);
      ghost var i0, t0 := dev.Image(), dev.ticks;
      WeightsAt(m, i0, l);
      rc := dev.OpGemm(ScratchX, Weight(l, 10), FfnB, dev.cfg.hidden, dev.cfg.intermediate);
      ghost var i1, t1 := dev.Image(), dev.ticks;
      if rc == OK {
        rc := dev.OpSilu(FfnA, FfnA, dev.cfg.intermediate);
        RanThen(dev.fault, t0, t1, dev.ticks, 1, 1, rc);
      } else {
        RanShort(dev.fault, t0, t1, 1, 2, rc);
      }
      TwoWrites(m, i0, i1, dev.Image(), FfnB, FfnA);
      if rc == OK {
        UpValues(m, l, i0, i1, dev.Image());
      }
    }

    /** Steps 20 and 21: the product in place, and the down projection. */
    method Down(l: nat) returns (rc: int)
      requires Holds() && l < m.cfg.dims.numLayers
      modifies dev.mem, dev`ticks
      ensures Went(old(dev.Image()), old(dev.ticks), 2, rc)
      ensures rc == OK ==> DownDone(m, l, old(dev.Image()), dev.Image())
    {
      hide Memory.Wired, Memory.Image, Memory.Shown, GemmVec, MulVec, ModelIn, Lasting, Ran, At, DownDone;
      Lengths(dev);
      ghost var i0, t0 := dev.Image(), dev.ticks;
      WeightsAt(m, i0, l);
      rc := dev.OpVmul(FfnA, FfnB, FfnA, dev.cfg.intermediate);
      ghost var i1, t1 := dev.Image(), dev.ticks;
      if rc == OK {
        rc := dev.OpGemm(FfnA, Weight(l, 11), ScratchX, dev.cfg.intermediate, dev.cfg.hidden);
        RanThen(dev.fault, t0, t1, dev.ticks, 1, 1, rc);
      } else {
        RanShort(dev.fault, t0, t1, 1, 2, rc);
      }
      TwoWrites(m, i0, i1, dev.Image(), FfnA, ScratchX);
      if rc == OK {
        DownValues(m, l, i0, i1, dev.Image());
      }
    }

    /** Step 22: the second residual. */
    method AddBack(l: nat) returns (rc: int)
      requires Holds() && l < m.cfg.dims.numLayers
      modifies dev.mem, dev`ticks
      ensures Went(old(dev.Image()), old(dev.ticks), 1, rc)
      ensures rc == OK ==> At(dev.Image(), ResidA) == AddVec(m.k, m.cfg.hidden, At(old(dev.Image()), ResidB), At(old(dev.Image()), ScratchX))
    {
      hide Memory.Wired, Memory.Image, Memory.Shown, AddVec, ModelIn, Lasting, Ran;
      Lengths(dev);
      ghost var i0 := dev.Image();
      LastingSelf(i0);
      WeightsAt(m, i0, l);
      rc := dev.OpBroadcastAdd(ResidB, ScratchX, ResidA, dev.cfg.hidden);
      LastingStep(i0, i0, ResidA, At(dev.Image(), ResidA));
      ModelLasts(m, i0, dev.Image());
    }

    /** Steps 16 to 22: the feed-forward network. */
    method FeedForward(l: nat) returns (rc: int)
      requires Holds() && l < m.cfg.dims.numLayers
      modifies dev.mem, dev`ticks
      ensures Went(old(dev.Image()), old(dev.ticks), 7, rc)
      ensures rc == OK ==> At(dev.Image(), ResidA) == Feedforward(m, l, At(old(dev.Image()), ResidB))
    {
      hide Memory.Wired, Memory.Image, Memory.Shown, NormVec, GemmVec, SiluVec, MulVec, AddVec, ModelIn, Lasting, Ran, At;
      ghost var i0, t0 := dev.Image(), dev.ticks;
      rc := Gate(l);
      if rc != OK {
        WentShort(i0, t0, 2, 7, rc);
        return;
      }
      ghost var i1, t1 := dev.Image(), dev.ticks;
      rc := Up(l);
      WentThen(i0, t0, i1, t1, 2, 2, rc);
      if rc != OK {
        WentShort(i0, t0, 4, 7, rc);
        return;
      }
      ghost var i2, t2 := dev.Image(), dev.ticks;
      rc := Down(l);
      WentThen(i0, t0, i2, t2, 4, 2, rc);
      if rc != OK {
        WentShort(i0, t0, 6, 7, rc);
        return;
      }
      ghost var i3, t3 := dev.Image(), dev.ticks;
      rc := AddBack(l);
      WentThen(i0, t0, i3, t3, 6, 1, rc);
    }

    /** Steps 11 to 22, once the rows of the current token are in the cache. */
    method Finish(l: nat, pos: nat, ghost x: seq<int>) returns (rc: int)
      requires Holds() && l < m.cfg.dims.numLayers && pos < m.cfg.dims.maxSeq
      requires At(dev.Image(), ResidA) == x && At(dev.Image(), ScratchQ) == QOf(m, l, x, pos)
      modifies dev.mem, dev`ticks
      ensures Went(old(dev.Image()), old(dev.ticks), 12, rc)
      ensures rc == OK ==>
                At(dev.Image(), ResidA) == LayerOut(m, l, x, pos, CacheRows(m, old(dev.Image()), KCache, l, pos),
                                                    CacheRows(m, old(dev.Image()), VCache, l, pos))
    {
      hide Memory.Wired, Memory.Image, Memory.Shown, ModelIn, Lasting, CacheRows, Attention, QOf, At, Ran, Residual1, Feedforward;
      ghost var i0, t0 := dev.Image(), dev.ticks;
      rc := Attend(l, pos);
      if rc != OK {
        WentShort(i0, t0, 3, 12, rc);
        return;
      }
      ghost var i1, t1 := dev.Image(), dev.ticks;
      rc := Residual(l);
      WentThen(i0, t0, i1, t1, 3, 2, rc);
      if rc != OK {
        WentShort(i0, t0, 5, 12, rc);
        return;
      }
      ghost var i2, t2 := dev.Image(), dev.ticks;
      rc := FeedForward(l);
      WentThen(i0, t0, i2, t2, 5, 7, rc);
    }

    /** The token at the end of `toks` is being processed; the caches of the committed tokens are intact, and
        `part` layers of the current one are in. */
    ghost predicate During(toks: seq<int>, part: nat)
      reads this, dev.mem
    {
      && Holds() && Counters() && |toks| == filled + 1
      && CachesIn(m, dev.Image(), toks, filled, part)
    }

    ghost predicate AtLayer(toks: seq<int>, l: nat)
      requires dev.Wired()
      reads dev.mem
    {
      toks != [] && At(dev.Image(), ResidA) == Hidden(m, toks, l)
    }

    /** The input of layer `l` and its query vector are on the device. */
    ghost predicate QueryReady(toks: seq<int>, l: nat)
      requires dev.Wired()
      reads this, dev.mem
    {
      && toks != [] && At(dev.Image(), ResidA) == Hidden(m, toks, l)
      && At(dev.Image(), ScratchQ) == QOf(m, l, Hidden(m, toks, l), filled)
    }

    /** kv_append_from_device: read the key and value vectors back and append them.  One call of the host's allocator
        may fail. */
    method AppendFromDevice(l: nat, pos: nat, ghost toks: seq<int>, ghost part: nat) returns (rc: int)
      requires During(toks, part) && (pending == l ==> part == l) && l < m.cfg.dims.numLayers && pos == filled
      requires Projected(m, l, Hidden(m, toks, l), pos, dev.Image())
      modifies dev.mem, dev`ticks, `pending
      ensures dev.ticks == old(dev.ticks) + 1
      ensures rc == if dev.fault(old(dev.ticks)) then ERR_ALLOC else if Refuses(old(pending), l) then ERR_CACHE else OK
      ensures During(toks, if rc == OK then l + 1 else part)
      ensures rc == OK ==> pending == l + 1 && QueryReady(toks, l)
      ensures rc != OK ==> pending == old(pending)
    {
      hide Memory.Wired, Memory.Image, Memory.Shown, Hidden, QOf, KOf, VOf, CachesIn, ModelIn, AppendedIn;
      var failed := dev.fault(dev.ticks);
      dev.ticks := dev.ticks + 1;
      if failed {
        return ERR_ALLOC;
      }
      dev.ImageAt(ScratchK);
      dev.ImageAt(ScratchV);
      var kHost := dev.Get(ScratchK);
      var vHost := dev.Get(ScratchV);
      ghost var i0 := dev.Image();
      rc := AppendLayer(l, kHost, vHost);
      if rc != OK {
        return ERR_CACHE;
      }
      AppendedImage(m, i0, dev.Image(), toks, l);
    }

    /** The cache takes no row of layer `l` now. */
    ghost predicate Refuses(pending: nat, l: nat)
      reads `filled
    {
      pending != l || filled == m.cfg.dims.maxSeq
    }

    /** transformer_decoder_layer: 22 calls, the tenth of which is the append. */
    method DecoderLayer(l: nat, pos: nat, ghost toks: seq<int>, ghost part: nat) returns (rc: int)
      requires During(toks, part) && (pending == l ==> part == l) && l < m.cfg.dims.numLayers && pos == filled
      requires AtLayer(toks, l)
      modifies dev.mem, dev`ticks, `pending
      ensures During(toks, if rc == OK then l + 1 else 0)
      ensures rc == OK ==> AtLayer(toks, l + 1)
      ensures LayerRan(dev.fault, old(dev.ticks), dev.ticks, l, Refuses(old(pending), l), old(pending), pending, rc)
    {
      hide Memory.Wired, Memory.Image, Memory.Shown, CachesIn, ModelIn, Projected, At, Hidden, QOf, Clean;
      ghost var t0, p0 := dev.ticks, pending;
      rc := ProjectIn(l, pos, toks, part);
      ghost var t1 := dev.ticks;
      if rc != OK {
        FewerDuring(this, toks, part);
        return;
      }
      rc := AppendFromDevice(l, pos, toks, part);
      ghost var t2 := dev.ticks;
      OneMore(dev.fault, t0, t1);
      if rc != OK {
        FewerDuring(this, toks, part);
        return;
      }
      rc := FinishIn(l, pos, toks);
      CleanThen(dev.fault, t0, t2, dev.ticks);
      CleanThen(dev.fault, t0, t2, dev.ticks - 1);
      if rc != OK {
        FewerDuring(this, toks, l + 1);
      }
    }

    method FinishIn(l: nat, pos: nat, ghost toks: seq<int>) returns (rc: int)
      requires During(toks, l + 1) && l < m.cfg.dims.numLayers && pos == filled < m.cfg.dims.maxSeq && QueryReady(toks, l)
      modifies dev.mem, dev`ticks
      ensures Ran(dev.fault, old(dev.ticks), dev.ticks, 12, rc) && rc != ERR_CACHE
      ensures During(toks, l + 1)
      ensures rc == OK ==> AtLayer(toks, l + 1)
    {
      hide Memory.Wired, Memory.Image, Memory.Shown, CachesIn, ModelIn, Lasting, LayerOut, QOf, Keys, Values, CacheRows, At, Ran;
      ghost var i0 := dev.Image();
      CachedRowsIn(m, i0, toks, l);
      rc := Finish(l, pos, Hidden(m, toks, l));
      CachesLast(m, i0, dev.Image(), toks, filled, l + 1);
    }

    method ProjectIn(l: nat, pos: nat, ghost toks: seq<int>, ghost part: nat) returns (rc: int)
      requires During(toks, part) && AtLayer(toks, l) && l < m.cfg.dims.numLayers
      modifies dev.mem, dev`ticks
      ensures Ran(dev.fault, old(dev.ticks), dev.ticks, 9, rc) && rc != ERR_CACHE
      ensures During(toks, part)
      ensures rc == OK ==> Projected(m, l, Hidden(m, toks, l), pos, dev.Image())
    {
      hide Memory.Wired, Memory.Image, Memory.Shown, CachesIn, ModelIn, Lasting, Hidden, Projected, At, Ran;
      ghost var i0 := dev.Image();
      rc := Project(l, pos);
      CachesLast(m, i0, dev.Image(), toks, filled, part);
    }

    /** transformer_step: decode one token.  It makes 4 + 22 * numLayers calls, and succeeds if and only if none of them
        fails and the cache can take the token.  A token is returned only if it is the reference's; a failed step
        leaves the committed tokens as they were, but not the number of layers appended. */
    method Step(token: int, curPos: nat, ghost toks: seq<int>) returns (r: StepResult)
      requires Inv(toks) && curPos == filled
      modifies dev.mem, dev`ticks, `pending, `filled
      ensures r.Token? ==> r.id == NextToken(m, toks + [token]) && Inv(toks + [token])
      ensures r.Error? ==> Inv(toks)
      ensures r.Token? <==> Accepts(m.cfg.dims, |toks|, old(pending)) && Clean(dev.fault, old(dev.ticks), old(dev.ticks) + StepCalls(m.cfg.dims))
      ensures StepRan(dev.fault, old(dev.ticks), dev.ticks, m.cfg.dims, |toks|, old(pending), pending, r)
      ensures r.Error? ==> (pending != 0 <==> Jams(dev.fault, old(dev.ticks), m.cfg.dims, |toks|, old(pending)))
    {
      hide Memory.Wired, Memory.Image, Memory.Shown, CachesIn, ModelIn, At, Hidden, Clean, NextToken;
      ghost var t0, p0, dims := dev.ticks, pending, m.cfg.dims;
      ghost var toks' := toks + [token];
      var rc := Embed(token, toks);
      EmbedThen(dev.fault, t0, dev.ticks, dims, |toks|, p0, rc);
      if rc != OK {
        JamsExactly(dev.fault, t0, dev.ticks, dims, |toks|, p0, pending, Error(rc));
        return Error(rc);
      }
      var layer := 0;
      while layer < dev.cfg.dims.numLayers
        invariant 0 <= layer <= dev.cfg.dims.numLayers && filled == old(filled)
        invariant During(toks', layer) && AtLayer(toks', layer)
        invariant dev.ticks == t0 + 1 + 22 * layer && Clean(dev.fault, t0, dev.ticks)
        invariant pending == if layer == 0 then p0 else layer
        invariant layer > 0 ==> Accepts(dims, |toks|, p0)
      {
        ghost var t1, p1 := dev.ticks, pending;
        rc := DecoderLayer(layer, curPos, toks', layer);
        LayerThen(dev.fault, t0, t1, dev.ticks, dims, |toks|, p0, p1, pending, layer, rc);
        if rc != OK {
          Abandon(this, toks, token, 0);
          JamsExactly(dev.fault, t0, dev.ticks, dims, |toks|, p0, pending, Error(rc));
          return Error(rc);
        }
        layer := layer + 1;
      }
      r := Sample(toks, token, t0, p0);
      JamsExactly(dev.fault, t0, dev.ticks, dims, |toks|, p0, pending, r);
    }

    /** Steps on a cache that takes no token, because an earlier one failed half-way or because it is full: all of them
        fail, whatever the tokens and whatever the environment does, and nothing changes that. */
    method StepsInVain(tokens: seq<int>, ghost toks: seq<int>) returns (results: seq<StepResult>)
      requires Inv(toks) && !Accepts(m.cfg.dims, |toks|, pending)
      modifies dev.mem, dev`ticks, `pending, `filled
      ensures Inv(toks) && pending == old(pending)
      ensures |results| == |tokens| && forall i :: 0 <= i < |results| ==> results[i].Error?
    {
      hide Memory.Wired, Memory.Image, Memory.Shown, CachesIn, ModelIn, At, Hidden, Clean, NextToken;
      results := [];
      for i := 0 to |tokens|
        invariant Inv(toks) && pending == old(pending) && !Accepts(m.cfg.dims, |toks|, pending)
        invariant |results| == i && forall k :: 0 <= k < i ==> results[k].Error?
      {
        var r := Step(tokens[i], filled, toks);
        results := results + [r];
      }
    }

    /** One failing call is enough: the first launch after the first append.  The step fails, and so does every later
        one, although no other call ever fails. */
    method OneFaultJams(token: int, tokens: seq<int>, ghost toks: seq<int>) returns (first: StepResult, results: seq<StepResult>)
      requires Inv(toks) && Accepts(m.cfg.dims, |toks|, pending)
      requires forall n: nat :: dev.fault(n) <==> n == dev.ticks + 11
      modifies dev.mem, dev`ticks, `pending, `filled
      ensures first.Error? && pending == 1 && Inv(toks)
      ensures |results| == |tokens| && forall i :: 0 <= i < |results| ==> results[i].Error?
    {
      hide Memory.Wired, Memory.Image, Memory.Shown, CachesIn, ModelIn, At, Hidden, NextToken;
      ghost var t0 := dev.ticks;
      assert dev.fault(t0 + 11);
      first := Step(token, filled, toks);
      results := StepsInVain(tokens, toks);
    }

    /** One step of a run that has made `i` of them, with room for another. */
    method Advance(token: int, curPos: nat, ghost toks: seq<int>, ghost t0: nat, ghost i: nat) returns (ok: bool, next: int)
      requires Inv(toks) && pending == 0 && curPos == filled && |toks| < m.cfg.dims.maxSeq
      requires Clean(dev.fault, t0, dev.ticks) && dev.ticks == t0 + i * StepCalls(m.cfg.dims)
      modifies dev.mem, dev`ticks, `pending, `filled
      ensures ok ==> Inv(toks + [token]) && pending == 0 && 0 <= next == NextToken(m, toks + [token]) && m.cfg.dims.numLayers > 0
      ensures ok ==> Clean(dev.fault, t0, dev.ticks) && dev.ticks == t0 + (i + 1) * StepCalls(m.cfg.dims)
      ensures !ok ==>
                Holds() && (m.cfg.dims.numLayers == 0 || FirstFault(dev.fault, t0, dev.ticks) || NextToken(m, toks + [token]) < 0)
    {
      hide Memory.Wired, Memory.Image, Memory.Shown, CachesIn, ModelIn, At, NextToken, Clean, StepCalls;
      ghost var t1 := dev.ticks;
      var r := Step(token, curPos, toks);
      CallsThen(dev.fault, t0, t1, dev.ticks, i, StepCalls(m.cfg.dims));
      if r.Error? || r.id < 0 {
        return false, -1;
      }
      return true, r.id;
    }

    /** The token-level inference loop: prefill the prompt, then decode until the end token or the limit.  What it
        generates is what greedy decoding with the reference generates; it fails only for a cause of its own. */
    method Generate(prompt: seq<int>, maxNew: int, eos: int) returns (ok: bool, generated: seq<int>)
      requires Inv([]) && pending == 0
      modifies dev.mem, dev`ticks, `pending, `filled
      ensures Holds()
      ensures prompt != [] ==> Greedy(m, prompt, generated)
      ensures ok ==> Stopped(generated, maxNew, eos) && Admissible(m.cfg, prompt, maxNew) && m.cfg.dims.numLayers > 0
      ensures ok ==> NoneNegative(m, prompt, generated) && Clean(dev.fault, old(dev.ticks), dev.ticks)
      ensures ok ==> dev.ticks == old(dev.ticks) + (|prompt| + |generated| - 1) * StepCalls(m.cfg.dims)
      ensures !ok ==>
                || !Admissible(m.cfg, prompt, maxNew) || m.cfg.dims.numLayers == 0
                || FirstFault(dev.fault, old(dev.ticks), dev.ticks) || NegativeNext(m, prompt, generated)
    {
      hide Memory.Wired, Memory.Image, Memory.Shown, CachesIn, ModelIn, At, NextToken, Clean, FirstFault, StepCalls;
      ok, generated := false, [];
      if !Admissible(dev.cfg, prompt, maxNew) {
        return;
      }
      ghost var t0, calls := dev.ticks, StepCalls(m.cfg.dims);
      NothingYet(dev.fault, t0);
      var next := -1;
      var i, went := 0, true;
      while i < |prompt|
        invariant 0 <= i <= |prompt| && Inv(prompt[..i]) && pending == 0
        invariant i > 0 ==> next == NextToken(m, prompt[..i]) && m.cfg.dims.numLayers > 0
        invariant forall k :: 1 <= k <= i ==> NextToken(m, prompt[..k]) >= 0
        invariant Clean(dev.fault, t0, dev.ticks) && dev.ticks == t0 + i * calls
      {
        went, next := Advance(prompt[i], i, prompt[..i], t0, i);
        assert prompt[..i] + [prompt[i]] == prompt[..i + 1];
        if !went {
          return;
        }
        i := i + 1;
      }
      assert prompt[..i] == prompt && prompt + [] == prompt;
      generated := [next];
      assert generated[..0] == [];
      while |generated| < maxNew
        invariant 0 < |generated| <= maxNew && next == generated[|generated| - 1] && pending == 0
        invariant Inv(prompt + generated[..|generated| - 1]) && Greedy(m, prompt, generated) && NoneNegative(m, prompt, generated)
        invariant forall i :: 0 <= i < |generated| - 1 ==> eos < 0 || generated[i] != eos
        invariant Clean(dev.fault, t0, dev.ticks) && dev.ticks == t0 + (|prompt| + |generated| - 1) * calls
        decreases maxNew - |generated|
      {
        if eos >= 0 && next == eos {
          break;
        }
        ghost var toks := prompt + generated[..|generated| - 1];
        assert toks + [next] == prompt + generated;
        var id;
        went, id := Advance(next, |prompt| + |generated| - 1, toks, t0, |prompt| + |generated| - 1);
        if !went {
          return;
        }
        GreedyStep(m, prompt, generated, id);
        assert (generated + [id])[..|generated|] == generated;
        next, generated := id, generated + [id];
      }
      ok := true;
    }

    /** The start of a step: the token goes to the device and is embedded. */
    method Embed(token: int, ghost toks: seq<int>) returns (rc: int)
      requires Inv(toks)
      modifies dev.mem, dev`ticks
      ensures Ran(dev.fault, old(dev.ticks), dev.ticks, 1, rc)
      ensures Inv(toks)
      ensures rc == OK ==> During(toks + [token], 0) && AtLayer(toks + [token], 0)
    {
      hide Memory.Wired, Memory.Image, Memory.Shown, CachesIn, ModelIn, Lasting, Ran;
      Lengths(dev);
      ghost var i0 := dev.Image();
      LastingSelf(i0);
      GlobalsAt(m, i0);
      dev.Put(TokenId, [token]);
      ghost var i1 := dev.Image();
      LastingStep(i0, i0, TokenId, [token]);
      rc := dev.OpEmbedding(ResidA);
      if rc == OK {
        LastingStep(i0, i1, ResidA, dev.Image()[ResidA]);
      }
      ModelLasts(m, i0, dev.Image());
      CachesLast(m, i0, dev.Image(), toks, filled, 0);
      CachesExtend(m, dev.Image(), toks, token);
    }

    /** The end of a step: final norm, logits, argmax, commit, read back. */
    method Sample(ghost toks: seq<int>, token: int, ghost t0: nat, ghost p0: nat) returns (r: StepResult)
      requires During(toks + [token], m.cfg.dims.numLayers) && AtLayer(toks + [token], m.cfg.dims.numLayers)
      requires pending == if m.cfg.dims.numLayers == 0 then p0 else m.cfg.dims.numLayers
      requires dev.ticks == t0 + 1 + 22 * m.cfg.dims.numLayers && Clean(dev.fault, t0, dev.ticks)
      requires m.cfg.dims.numLayers > 0 ==> Accepts(m.cfg.dims, |toks|, p0)
      modifies dev.mem, dev`ticks, `pending, `filled
      ensures r.Token? ==> r.id == NextToken(m, toks + [token]) && Inv(toks + [token])
      ensures r.Error? ==> Inv(toks)
      ensures r.Token? <==> Accepts(m.cfg.dims, |toks|, p0) && Clean(dev.fault, t0, t0 + StepCalls(m.cfg.dims))
      ensures StepRan(dev.fault, t0, dev.ticks, m.cfg.dims, |toks|, p0, pending, r)
    {
      hide Memory.Wired, Memory.Image, Memory.Shown, CachesIn, ModelIn, Hidden, Clean, NextToken;
      ghost var t1, dims := dev.ticks, m.cfg.dims;
      var rc := Pick(toks + [token]);
      SampleThen(dev.fault, t0, t1, dev.ticks, dims, |toks|, p0, pending, rc);
      if rc != OK {
        Abandon(this, toks, token, m.cfg.dims.numLayers);
        return Error(rc);
      }
      dev.ImageAt(TokenId);
      var next := dev.Get(TokenId);
      rc := CommitToken();
      if rc != OK {
        Abandon(this, toks, token, m.cfg.dims.numLayers);
        return Error(ERR_CACHE);
      }
      CachesCommit(m, dev.Image(), toks + [token], |toks|);
      r := Token(next[0]);
    }

    /** Final norm and output projection. */
    method ToLogits() returns (rc: int)
      requires Holds()
      modifies dev.mem, dev`ticks
      ensures Went(old(dev.Image()), old(dev.ticks), 2, rc)
      ensures rc == OK ==> At(dev.Image(), Logits) == LogitsOf(m, At(old(dev.Image()), ResidA))
    {
      hide Memory.Wired, Memory.Image, Memory.Shown, ModelIn, Lasting, NormVec, GemmVec, Ran;
      Lengths(dev);
      ghost var i0, t0 := dev.Image(), dev.ticks;
      GlobalsAt(m, i0);
      rc := dev.OpRmsnorm(ResidA, ScratchX, FinalNorm);
      ghost var i1, t1 := dev.Image(), dev.ticks;
      if rc == OK {
        rc := dev.OpGemm(ScratchX, LmHead, Logits, dev.cfg.hidden, dev.cfg.vocab);
        RanThen(dev.fault, t0, t1, dev.ticks, 1, 1, rc);
      } else {
        RanShort(dev.fault, t0, t1, 1, 2, rc);
      }
      TwoWrites(m, i0, i1, dev.Image(), ScratchX, Logits);
    }

    method Choose() returns (rc: int)
      requires Holds()
      modifies dev.mem, dev`ticks
      ensures Went(old(dev.Image()), old(dev.ticks), 1, rc)
      ensures rc == OK ==> At(dev.Image(), TokenId) == [m.k.argmax(At(old(dev.Image()), Logits))]
    {
      hide Memory.Wired, Memory.Image, Memory.Shown, ModelIn, Lasting, Ran;
      Lengths(dev);
      ghost var i0 := dev.Image();
      LastingSelf(i0);
      GlobalsAt(m, i0);
      rc := dev.OpArgmax();
      ghost var i2 := dev.Image();
      if rc == OK {
        LastingStep(i0, i0, ArgmaxDebug, i2[ArgmaxDebug]);
        LastingStep(i0, i0[ArgmaxDebug := i2[ArgmaxDebug]], TokenId, i2[TokenId]);
      }
      ModelLasts(m, i0, i2);
    }

    /** Final norm, output projection and argmax. */
    method Pick(ghost toks: seq<int>) returns (rc: int)
      requires During(toks, m.cfg.dims.numLayers) && AtLayer(toks, m.cfg.dims.numLayers)
      modifies dev.mem, dev`ticks
      ensures Ran(dev.fault, old(dev.ticks), dev.ticks, 3, rc)
      ensures During(toks, m.cfg.dims.numLayers)
      ensures rc == OK ==> At(dev.Image(), TokenId) == [NextToken(m, toks)]
    {
      hide Memory.Wired, Memory.Image, Memory.Shown, CachesIn, ModelIn, Lasting, Hidden, At, Ran, LogitsOf;
      ghost var i0, t0 := dev.Image(), dev.ticks;
      rc := ToLogits();
      ghost var i1, t1 := dev.Image(), dev.ticks;
      if rc == OK {
        rc := Choose();
        WentThen(i0, t0, i1, t1, 2, 1, rc);
      } else {
        WentShort(i0, t0, 2, 3, rc);
      }
      CachesLast(m, i0, dev.Image(), toks, filled, m.cfg.dims.numLayers);
    }
  }

  // ---------------------------------------------------------------------------------------------
  // When a step fails, and what that does to the cache.

  /** The calls of one step: embedding, 22 in each layer, final norm, logits and argmax. */
  function StepCalls(d: Dims): nat {
    4 + 22 * d.numLayers
  }

  /** The cache can take another token. */
  predicate Accepts(d: Dims, count: nat, pending: nat) {
    d.numLayers > 0 && pending == 0 && count < d.maxSeq
  }

  /** The layers appended when the n-th call of a step fails: the append is the tenth call of a layer. */
  function LayersIn(n: nat): nat {
    (n + 10) / 22
  }

  ghost predicate LayerRan(fault: nat -> bool, t0: nat, t1: nat, l: nat, refused: bool, p0: nat, p1: nat, rc: int) {
    if rc == OK then !refused && t1 == t0 + 22 && Clean(fault, t0, t1) && p1 == l + 1
    else if rc == ERR_CACHE then refused && t1 == t0 + 10 && Clean(fault, t0, t1) && p1 == p0
    else FirstFault(fault, t0, t1) && t1 <= t0 + 22 && (if t1 > t0 + 10 then !refused && p1 == l + 1 else p1 == p0)
  }

  /** How a step ends: with all calls made; at the first call that fails, with the layers appended by then; or at the
      first append or the commit, because the cache cannot take the token. */
  ghost predicate StepRan(fault: nat -> bool, t0: nat, t1: nat, d: Dims, count: nat, p0: nat, p1: nat, r: StepResult) {
    if r.Token? then t1 == t0 + StepCalls(d) && p1 == 0
    else
      || (FirstFault(fault, t0, t1) && t1 <= t0 + StepCalls(d) && p1 == if Accepts(d, count, p0) then LayersIn(t1 - t0) else p0)
      || (!Accepts(d, count, p0) && Clean(fault, t0, t1) && p1 == p0 && t1 == t0 + if d.numLayers == 0 then 4 else 11)
  }

  /** After a failed step rows of an unfinished token are left in the cache: the first append was reached. */
  ghost predicate Jams(fault: nat -> bool, t0: nat, d: Dims, count: nat, pending: nat) {
    pending != 0 || (Accepts(d, count, pending) && Clean(fault, t0, t0 + 11))
  }

  lemma JamsExactly(fault: nat -> bool, t0: nat, t1: nat, d: Dims, count: nat, p0: nat, p1: nat, r: StepResult)
    requires StepRan(fault, t0, t1, d, count, p0, p1, r)
    ensures r.Error? ==> (p1 != 0 <==> Jams(fault, t0, d, count, p0))
  {
  }

  /** A call that fails ends the step. */
  lemma FaultEnds(fault: nat -> bool, t0: nat, t1: nat, t2: nat, d: Dims, count: nat, p0: nat, p1: nat, code: int)
    requires t0 <= t1 && Clean(fault, t0, t1) && FirstFault(fault, t1, t2) && t2 <= t0 + StepCalls(d)
    requires p1 == if Accepts(d, count, p0) then LayersIn(t2 - t0) else p0
    ensures StepRan(fault, t0, t2, d, count, p0, p1, Error(code)) && !Clean(fault, t0, t0 + StepCalls(d))
  {
  }

  lemma EmbedThen(fault: nat -> bool, t0: nat, t1: nat, d: Dims, count: nat, p0: nat, rc: int)
    requires Ran(fault, t0, t1, 1, rc)
    ensures rc == OK ==> t1 == t0 + 1 && Clean(fault, t0, t1)
    ensures rc != OK ==> StepRan(fault, t0, t1, d, count, p0, p0, Error(rc)) && !Clean(fault, t0, t0 + StepCalls(d))
  {
    if rc != OK {
      FaultEnds(fault, t0, t0, t1, d, count, p0, p0, rc);
    }
  }

  /** A layer within a step. */
  lemma LayerThen(fault: nat -> bool, t0: nat, t1: nat, t2: nat, d: Dims, count: nat, p0: nat, pl: nat, p1: nat, l: nat, rc: int)
    requires l < d.numLayers && t1 == t0 + 1 + 22 * l && Clean(fault, t0, t1) && count <= d.maxSeq
    requires pl == (if l == 0 then p0 else l) && (l > 0 ==> Accepts(d, count, p0))
    requires LayerRan(fault, t1, t2, l, pl != l || count == d.maxSeq, pl, p1, rc)
    ensures rc == OK ==> t2 == t0 + 1 + 22 * (l + 1) && Clean(fault, t0, t2) && Accepts(d, count, p0) && p1 == l + 1
    ensures rc != OK ==> StepRan(fault, t0, t2, d, count, p0, p1, Error(rc))
    ensures rc != OK ==> !(Accepts(d, count, p0) && Clean(fault, t0, t0 + StepCalls(d)))
  {
    hide Clean;
    CleanThen(fault, t0, t1, t2);
    if rc != OK && rc != ERR_CACHE {
      FaultEnds(fault, t0, t1, t2, d, count, p0, p1, rc);
    }
  }

  /** The calls after the last layer. */
  lemma SampleThen(fault: nat -> bool, t0: nat, t1: nat, t2: nat, d: Dims, count: nat, p0: nat, p1: nat, rc: int)
    requires t1 == t0 + 1 + 22 * d.numLayers && Clean(fault, t0, t1) && Ran(fault, t1, t2, 3, rc)
    requires p1 == (if d.numLayers == 0 then p0 else d.numLayers) && (d.numLayers > 0 ==> Accepts(d, count, p0))
    ensures rc == OK ==> t2 == t0 + StepCalls(d) && Clean(fault, t0, t2)
    ensures rc != OK ==> StepRan(fault, t0, t2, d, count, p0, p1, Error(rc)) && !Clean(fault, t0, t0 + StepCalls(d))
  {
    hide Clean;
    CleanThen(fault, t0, t1, t2);
    if rc != OK {
      FaultEnds(fault, t0, t1, t2, d, count, p0, p1, rc);
    }
  }

  lemma CleanThen(fault: nat -> bool, t0: nat, t1: nat, t2: int)
    requires t0 <= t1 <= t2 + 1
    ensures t1 <= t2 && Clean(fault, t0, t1) && Clean(fault, t1, t2) ==> Clean(fault, t0, t2)
  {
  }

  lemma OneMore(fault: nat -> bool, t0: nat, t1: nat)
    requires t0 <= t1
    ensures Clean(fault, t0, t1) && !fault(t1) ==> Clean(fault, t0, t1 + 1)
  {
  }

  /** What the inference program checks before it starts. */
  predicate Admissible(cfg: Config, prompt: seq<int>, maxNew: int) {
    && maxNew > 0 && prompt != []
    && |prompt| + maxNew - 1 <= cfg.dims.maxSeq
    && forall i :: 0 <= i < |prompt| ==> 0 <= prompt[i] < cfg.vocab
  }

  /** The checks admit a prompt of known tokens exactly when the cache accepts every step that a run to the limit makes. */
  lemma AdmissibleExactly(cfg: Config, prompt: seq<int>, maxNew: int)
    requires cfg.dims.numLayers > 0
    ensures Admissible(cfg, prompt, maxNew) <==>
              && 0 < maxNew && 0 < |prompt| && (forall t :: t in prompt ==> 0 <= t < cfg.vocab)
              && forall p: nat :: p < |prompt| + maxNew - 1 ==> Accepts(cfg.dims, p, 0)
  {
    if 0 < maxNew && 0 < |prompt| {
      var last: nat := |prompt| + maxNew - 2;
      assert Accepts(cfg.dims, last, 0) <==> last < cfg.dims.maxSeq;
      assert forall i :: 0 <= i < |prompt| ==> prompt[i] in prompt;
    }
  }

  /** Each generated token is the reference's next token after everything before it. */
  ghost predicate Greedy(m: Model, prompt: seq<int>, generated: seq<int>) {
    prompt != [] && forall i :: 0 <= i < |generated| ==> generated[i] == NextToken(m, prompt + generated[..i])
  }

  /** Generation stopped at the limit or at the first end token, not before and not after. */
  predicate Stopped(generated: seq<int>, maxNew: int, eos: int) {
    && 0 < |generated| <= maxNew
    && (forall i :: 0 <= i < |generated| - 1 ==> eos < 0 || generated[i] != eos)
    && (|generated| < maxNew ==> eos >= 0 && generated[|generated| - 1] == eos)
  }

  /** No token of the run is negative. */
  ghost predicate NoneNegative(m: Model, prompt: seq<int>, generated: seq<int>) {
    && (forall k :: 1 <= k <= |prompt| ==> NextToken(m, prompt[..k]) >= 0)
    && forall i :: 0 <= i < |generated| ==> generated[i] >= 0
  }

  /** The reference itself has a negative token where the run stopped: in the prompt, or after what was generated. */
  ghost predicate NegativeNext(m: Model, prompt: seq<int>, generated: seq<int>)
    requires prompt != []
  {
    if generated == [] then exists k :: 1 <= k <= |prompt| && NextToken(m, prompt[..k]) < 0
    else NextToken(m, prompt + generated) < 0
  }

  lemma NothingYet(fault: nat -> bool, t: nat)
    ensures Clean(fault, t, t)
  {
  }

  /** One more step in a run of steps. */
  lemma CallsThen(fault: nat -> bool, t0: nat, t1: nat, t2: nat, i: nat, calls: nat)
    requires t1 == t0 + i * calls && Clean(fault, t0, t1)
    ensures t2 == t1 + calls && Clean(fault, t1, t2) ==> Clean(fault, t0, t2) && t2 == t0 + (i + 1) * calls
    ensures FirstFault(fault, t1, t2) ==> FirstFault(fault, t0, t2)
  {
    assert (i + 1) * calls == i * calls + calls;
    assert i * calls >= 0;
  }

  lemma GreedyStep(m: Model, prompt: seq<int>, generated: seq<int>, next: int)
    requires Greedy(m, prompt, generated) && next == NextToken(m, prompt + generated)
    ensures Greedy(m, prompt, generated + [next])
  {
    hide NextToken;
    var g := generated + [next];
    forall i | 0 <= i < |g| ensures g[i] == NextToken(m, prompt + g[..i]) {
      assert g[..i] == generated[..i];
    }
    assert generated[..|generated|] == generated;
  }

  /** Greedy decoding is deterministic: with the same limit and end token there is one possible outcome. */
  lemma {:induction false} GreedyIsUnique(m: Model, prompt: seq<int>, a: seq<int>, b: seq<int>, maxNew: int, eos: int)
    requires Greedy(m, prompt, a) && Greedy(m, prompt, b) && Stopped(a, maxNew, eos) && Stopped(b, maxNew, eos)
    ensures a == b
  {
    hide NextToken;
    var n := if |a| < |b| then |a| else |b|;
    GreedyPrefix(m, prompt, a, b, n);
    assert a[..n][n - 1] == b[..n][n - 1];
  }

  lemma {:induction false} GreedyPrefix(m: Model, prompt: seq<int>, a: seq<int>, b: seq<int>, n: nat)
    requires Greedy(m, prompt, a) && Greedy(m, prompt, b) && n <= |a| && n <= |b|
    ensures a[..n] == b[..n]
  {
    hide NextToken;
    if n > 0 {
      GreedyPrefix(m, prompt, a, b, n - 1);
      assert a[n - 1] == b[n - 1];
      assert a[..n] == a[..n - 1] + [a[n - 1]] && b[..n] == b[..n - 1] + [b[n - 1]];
    }
  }

  lemma GlobalsAt(m: Model, img: imap<Buf, seq<int>>)
    requires ModelIn(m, img)
    ensures TokenId in img && ResidA in img && ScratchX in img && Logits in img && ArgmaxDebug in img
    ensures EmbeddingTable in img && img[EmbeddingTable] == m.embedding
    ensures FinalNorm in img && img[FinalNorm] == m.finalNorm && LmHead in img && img[LmHead] == m.lmHead
  {
  }

  /** A new token at the end does not change what the committed tokens require. */
  lemma CachesExtend(m: Model, img: imap<Buf, seq<int>>, toks: seq<int>, token: int)
    ensures CachesIn(m, img, toks, |toks|, 0) <==> CachesIn(m, img, toks + [token], |toks|, 0)
  {
    hide Row, Hidden, KOf, VOf, Head, Total;
    if CachesIn(m, img, toks, |toks|, 0) {
      forall l: nat, h: nat, p: nat | IsRow(m.cfg.dims, l, h, p) && p < |toks|
        ensures RowOk(m, img[KCache], img[VCache], toks + [token], l, h, p)
      {
        assert RowOk(m, img[KCache], img[VCache], toks, l, h, p) && (toks + [token])[..p + 1] == toks[..p + 1];
      }
    }
    if CachesIn(m, img, toks + [token], |toks|, 0) {
      forall l: nat, h: nat, p: nat | IsRow(m.cfg.dims, l, h, p) && p < |toks|
        ensures RowOk(m, img[KCache], img[VCache], toks, l, h, p)
      {
        assert RowOk(m, img[KCache], img[VCache], toks + [token], l, h, p) && (toks + [token])[..p + 1] == toks[..p + 1];
      }
    }
  }

  /** Committing turns the rows of the current token into rows of a committed one. */
  lemma CachesCommit(m: Model, img: imap<Buf, seq<int>>, toks: seq<int>, full: nat)
    requires CachesIn(m, img, toks, full, m.cfg.dims.numLayers) && full < |toks|
    ensures CachesIn(m, img, toks, full + 1, 0)
  {
    hide Row, Hidden, KOf, VOf, Head, Total, RowOk;
  }

  /** Whatever was appended for an unfinished token, the committed ones are intact. */
  lemma Abandon(d: Decoder, toks: seq<int>, token: int, part: nat)
    requires d.During(toks + [token], part)
    ensures d.Inv(toks)
  {
    FewerDuring(d, toks + [token], part);
    CachesExtend(d.m, d.dev.Image(), toks, token);
  }

  datatype StepResult = Token(id: int) | Error(code: int)

  lemma FewerDuring(d: Decoder, toks: seq<int>, part: nat)
    requires d.During(toks, part)
    ensures d.During(toks, 0)
  {
    FewerLayers(d.m, d.dev.Image(), toks, d.filled, part);
  }

  lemma CachesLast(m: Model, i0: imap<Buf, seq<int>>, img: imap<Buf, seq<int>>, toks: seq<int>, full: nat, part: nat)
    requires ModelIn(m, i0) && Lasting(i0, img) && CachesIn(m, i0, toks, full, part)
    ensures CachesIn(m, img, toks, full, part)
  {
    hide Caches, Total;
  }

  lemma AppendedImage(m: Model, i0: imap<Buf, seq<int>>, img: imap<Buf, seq<int>>, toks: seq<int>, l: nat)
    requires toks != [] && ModelIn(m, i0) && CachesIn(m, i0, toks, |toks| - 1, l)
    requires Projected(m, l, Hidden(m, toks, l), |toks| - 1, i0)
    requires AppendedIn(m, i0, img, l, |toks| - 1, m.cfg.dims.numKvHeads, i0[ScratchK], i0[ScratchV])
    ensures ModelIn(m, img) && CachesIn(m, img, toks, |toks| - 1, l + 1)
    ensures At(img, ResidA) == At(i0, ResidA) && At(img, ScratchQ) == At(i0, ScratchQ)
  {
    hide Caches, Appended, Total, Hidden, KOf, VOf, HeadsOf, ModelIn;
    ModelAppended(m, i0, img);
    AppendedFacts(m, i0, img, l, |toks| - 1);
    AppendCaches(m, i0[KCache], i0[VCache], img[KCache], img[VCache], toks, l);
  }

  lemma AppendedFacts(m: Model, i0: imap<Buf, seq<int>>, img: imap<Buf, seq<int>>, l: nat, pos: nat)
    requires ScratchK in i0 && ScratchV in i0
    requires AppendedIn(m, i0, img, l, pos, m.cfg.dims.numKvHeads, i0[ScratchK], i0[ScratchV])
    ensures |img[KCache]| == |img[VCache]| == Total(m.cfg.dims)
  {
  }

  lemma ModelAppended(m: Model, i0: imap<Buf, seq<int>>, img: imap<Buf, seq<int>>)
    requires ModelIn(m, i0) && KCache in img && VCache in img
    requires img == i0[KCache := img[KCache]][VCache := img[VCache]]
    ensures ModelIn(m, img)
  {
  }

  lemma FewerLayers(m: Model, img: imap<Buf, seq<int>>, toks: seq<int>, full: nat, part: nat)
    requires CachesIn(m, img, toks, full, part)
    ensures CachesIn(m, img, toks, full, 0)
  {
  }

  lemma CachedRowsIn(m: Model, img: imap<Buf, seq<int>>, toks: seq<int>, l: nat)
    requires toks != [] && |toks| <= m.cfg.dims.maxSeq && l < m.cfg.dims.numLayers
    requires CachesIn(m, img, toks, |toks| - 1, l + 1)
    ensures CacheRows(m, img, KCache, l, |toks| - 1) == Keys(m, toks, l)
    ensures CacheRows(m, img, VCache, l, |toks| - 1) == Values(m, toks, l)
  {
    hide Caches, RowsOf, Keys, Values, Total;
    CachedRows(m, img[KCache], img[VCache], toks, l);
  }

  /** Both caches, after one more head has been written. */
  lemma RowWritten(m: Model, img: imap<Buf, seq<int>>, i0: imap<Buf, seq<int>>, i1: imap<Buf, seq<int>>, i2: imap<Buf, seq<int>>,
                   layer: nat, pos: nat, kh: nat, kNew: seq<int>, vNew: seq<int>)
    requires AppendedIn(m, img, i0, layer, pos, kh, kNew, vNew) && kh < m.cfg.dims.numKvHeads
    requires RowStart(m.cfg.dims, layer, kh, pos) + m.cfg.dims.headDim <= Total(m.cfg.dims)
    requires HeadIn(m, i0, i1, KCache, RowStart(m.cfg.dims, layer, kh, pos), kNew, kh)
    requires HeadIn(m, i1, i2, VCache, RowStart(m.cfg.dims, layer, kh, pos), vNew, kh)
    ensures AppendedIn(m, img, i2, layer, pos, kh + 1, kNew, vNew)
  {
    hide Total, RowStart, Head, Config.KvDim, Replace, Row;
    HeadCells(m, kNew, kh);
    HeadCells(m, vNew, kh);
    AppendHead(m.cfg.dims, img[KCache], img[VCache], i0[KCache], i0[VCache], layer, pos, kh, HeadsOf(m, kNew), HeadsOf(m, vNew));
  }

  lemma LinearValues(m: Model, n: nat, i0: imap<Buf, seq<int>>, i1: imap<Buf, seq<int>>, i2: imap<Buf, seq<int>>,
                     x: Buf, w: Buf, bias: Buf, out: Buf)
    requires x in i0 && w in i0 && bias in i0 && out in i0 && bias != out
    requires i1 == i0[out := GemmVec(m.k, m.cfg.hidden, n, i0[x], i0[w])]
    ensures i2 == i1 ==> i2 == i0[out := i2[out]]
    ensures i2 == i1[out := AddVec(m.k, n, i1[out], i1[bias])] ==>
              i2 == i0[out := i2[out]] && i2[out] == Projection(m, n, i0[x], i0[w], i0[bias])
  {
    hide GemmVec, AddVec;
  }

  lemma QueryValues(m: Model, l: nat, i0: imap<Buf, seq<int>>, i1: imap<Buf, seq<int>>, i2: imap<Buf, seq<int>>)
    requires l < m.cfg.dims.numLayers && ModelIn(m, i0)
    requires i1 == i0[ScratchX := NormVec(m.k, m.cfg, i0[ResidA], i0[Weight(l, 0)])]
    requires ScratchQ in i2 && i2 == i1[ScratchQ := i2[ScratchQ]]
    requires i2[ScratchQ] == Projection(m, m.cfg.hidden, i1[ScratchX], i1[Weight(l, 1)], i1[Weight(l, 2)])
    ensures QueryDone(m, l, i0, i2)
  {
    hide NormVec, Projection, ModelIn;
    WeightsAt(m, i0, l);
  }

  lemma KeyValueValues(m: Model, l: nat, i0: imap<Buf, seq<int>>, i1: imap<Buf, seq<int>>, i2: imap<Buf, seq<int>>)
    requires l < m.cfg.dims.numLayers && ModelIn(m, i0)
    requires ScratchK in i1 && i1 == i0[ScratchK := i1[ScratchK]] && ScratchV in i2 && i2 == i1[ScratchV := i2[ScratchV]]
    requires i1[ScratchK] == Projection(m, m.cfg.KvDim(), i0[ScratchX], i0[Weight(l, 3)], i0[Weight(l, 4)])
    requires i2[ScratchV] == Projection(m, m.cfg.KvDim(), i1[ScratchX], i1[Weight(l, 5)], i1[Weight(l, 6)])
    ensures KeyValueDone(m, l, i0, i2)
  {
    hide Projection, ModelIn, Config.KvDim;
    WeightsAt(m, i0, l);
  }

  lemma RopesValues(m: Model, l: nat, pos: nat, i0: imap<Buf, seq<int>>, i1: imap<Buf, seq<int>>, i2: imap<Buf, seq<int>>)
    requires l < m.cfg.dims.numLayers && ModelIn(m, i0)
    requires i1 == i0[ScratchQ := RopeVec(m.k, i0[ScratchQ], i0[Sincos], m.cfg.numQHeads, m.cfg.dims.headDim, pos)]
    requires i2 == i1[ScratchK := RopeVec(m.k, i1[ScratchK], i1[Sincos], m.cfg.dims.numKvHeads, m.cfg.dims.headDim, pos)]
    ensures RopesDone(m, pos, i0, i2)
  {
    hide RopeVec, ModelIn;
    WeightsAt(m, i0, l);
  }

  lemma ResidualValues(m: Model, l: nat, i0: imap<Buf, seq<int>>, i1: imap<Buf, seq<int>>, i2: imap<Buf, seq<int>>)
    requires l < m.cfg.dims.numLayers && ModelIn(m, i0)
    requires i1 == i0[ScratchQ := GemmVec(m.k, m.cfg.hidden, m.cfg.hidden, i0[ScratchX], i0[Weight(l, 7)])]
    requires i2 == i1[ResidB := AddVec(m.k, m.cfg.hidden, i1[ResidA], i1[ScratchQ])]
    ensures ResidualDone(m, l, i0, i2)
  {
    hide AddVec, GemmVec, ModelIn;
    WeightsAt(m, i0, l);
  }

  lemma GateValues(m: Model, l: nat, i0: imap<Buf, seq<int>>, i1: imap<Buf, seq<int>>, i2: imap<Buf, seq<int>>)
    requires l < m.cfg.dims.numLayers && ModelIn(m, i0)
    requires i1 == i0[ScratchX := NormVec(m.k, m.cfg, i0[ResidB], i0[Weight(l, 8)])]
    requires i2 == i1[FfnA := GemmVec(m.k, m.cfg.hidden, m.cfg.intermediate, i1[ScratchX], i1[Weight(l, 9)])]
    ensures GateDone(m, l, i0, i2)
  {
    hide NormVec, GemmVec, ModelIn;
    WeightsAt(m, i0, l);
  }

  lemma UpValues(m: Model, l: nat, i0: imap<Buf, seq<int>>, i1: imap<Buf, seq<int>>, i2: imap<Buf, seq<int>>)
    requires l < m.cfg.dims.numLayers && ModelIn(m, i0)
    requires i1 == i0[FfnB := GemmVec(m.k, m.cfg.hidden, m.cfg.intermediate, i0[ScratchX], i0[Weight(l, 10)])]
    requires i2 == i1[FfnA := SiluVec(m.k, m.cfg.intermediate, i1[FfnA])]
    ensures UpDone(m, l, i0, i2)
  {
    hide SiluVec, GemmVec, ModelIn;
    WeightsAt(m, i0, l);
  }

  lemma DownValues(m: Model, l: nat, i0: imap<Buf, seq<int>>, i1: imap<Buf, seq<int>>, i2: imap<Buf, seq<int>>)
    requires l < m.cfg.dims.numLayers && ModelIn(m, i0)
    requires i1 == i0[FfnA := MulVec(m.k, m.cfg.intermediate, i0[FfnA], i0[FfnB])]
    requires i2 == i1[ScratchX := GemmVec(m.k, m.cfg.intermediate, m.cfg.hidden, i1[FfnA], i1[Weight(l, 11)])]
    ensures DownDone(m, l, i0, i2)
  {
    hide MulVec, GemmVec, ModelIn;
    WeightsAt(m, i0, l);
  }

  lemma AttendValues(m: Model, l: nat, pos: nat, i0: imap<Buf, seq<int>>, i1: imap<Buf, seq<int>>, i2: imap<Buf, seq<int>>,
                     s1: seq<seq<int>>)
    requires l < m.cfg.dims.numLayers && pos < m.cfg.dims.maxSeq
    requires ResidA in i0 && ScratchQ in i0 && ScratchX in i0 && Scores in i0 && KCache in i0 && VCache in i0
    requires |i0[KCache]| == |i0[VCache]| == Total(m.cfg.dims)
    requires Scores in i1 && i1 == i0[Scores := i1[Scores]]
    requires s1 == Scored(m, At(i0, ScratchQ), pos, RowsOf(m.cfg.dims, i0[KCache], l, pos))
    requires i2 == i1[ScratchX := Pv(m.k, m.cfg.hidden, s1, RowsOf(m.cfg.dims, i1[VCache], l, pos), m.cfg.dims.headDim,
                                     m.cfg.QueriesPerKv())]
    ensures AttendDone(m, l, pos, i0, i2)
  {
    hide RowsOf, Scored, Pv, Total;
  }

  /** Up to two writes to scratch space. */
  lemma TwoWrites(m: Model, i0: imap<Buf, seq<int>>, i1: imap<Buf, seq<int>>, i2: imap<Buf, seq<int>>, b: Buf, c: Buf)
    requires ModelIn(m, i0) && Volatile(b) && Volatile(c)
    requires i1 == i0 || (b in i0 && b in i1 && i1 == i0[b := i1[b]])
    requires i2 == i1 || (c in i1 && c in i2 && i2 == i1[c := i2[c]])
    ensures Lasting(i0, i2) && ModelIn(m, i2)
  {
    hide ModelIn, Lasting;
    LastingSelf(i0);
    if i1 != i0 {
      LastingStep(i0, i0, b, i1[b]);
    }
    if i2 != i1 {
      LastingStep(i0, i1, c, i2[c]);
    }
    ModelLasts(m, i0, i2);
  }

  lemma LastingTrans(i0: imap<Buf, seq<int>>, i1: imap<Buf, seq<int>>, i2: imap<Buf, seq<int>>)
    requires Lasting(i0, i1) && Lasting(i1, i2)
    ensures Lasting(i0, i2)
  {
  }

  /** Appending the rows of the current token in one more layer. */
  lemma AppendCaches(m: Model, kc: seq<int>, vc: seq<int>, kc': seq<int>, vc': seq<int>, toks: seq<int>, l: nat)
    requires |kc| == |vc| == Total(m.cfg.dims) && toks != []
    requires Caches(m, kc, vc, toks, |toks| - 1, l)
    requires Appended(m.cfg.dims, kc, vc, kc', vc', l, |toks| - 1, m.cfg.dims.numKvHeads,
                      HeadsOf(m, KOf(m, l, Hidden(m, toks, l), |toks| - 1)), HeadsOf(m, VOf(m, l, Hidden(m, toks, l))))
    ensures Caches(m, kc', vc', toks, |toks| - 1, l + 1)
  {
    hide Row, Total, KOf, VOf, Hidden, Head;
    var pos := |toks| - 1;
    assert toks[..pos + 1] == toks;
    forall l': nat, h: nat, p: nat | IsRow(m.cfg.dims, l', h, p) && (p < pos || (p == pos && l' < l + 1))
      ensures RowOk(m, kc', vc', toks, l', h, p)
    {
      assert (p < pos || l' < l) ==> RowOk(m, kc, vc, toks, l', h, p);
    }
  }

  lemma ProjectValues(m: Model, l: nat, pos: nat, i0: imap<Buf, seq<int>>, i1: imap<Buf, seq<int>>, i2: imap<Buf, seq<int>>,
                      i3: imap<Buf, seq<int>>)
    requires l < m.cfg.dims.numLayers && ModelIn(m, i3)
    requires QueryDone(m, l, i0, i1) && KeyValueDone(m, l, i1, i2) && RopesDone(m, pos, i2, i3)
    ensures Projected(m, l, At(i0, ResidA), pos, i3)
  {
    hide InputNorm, Projection, RopeVec, Config.KvDim, ModelIn;
    WeightsAt(m, i3, l);
  }

  lemma LastingSelf(img: imap<Buf, seq<int>>)
    ensures Lasting(img, img)
  {
  }

  lemma LastingStep(i0: imap<Buf, seq<int>>, img: imap<Buf, seq<int>>, b: Buf, v: seq<int>)
    requires Lasting(i0, img) && b in img && Volatile(b)
    ensures Lasting(i0, img[b := v])
  {
  }

  lemma ModelLasts(m: Model, i0: imap<Buf, seq<int>>, img: imap<Buf, seq<int>>)
    requires ModelIn(m, i0) && Lasting(i0, img)
    ensures ModelIn(m, img)
    ensures img[KCache] == i0[KCache] && img[VCache] == i0[VCache]
  {
  }

  lemma WeightsAt(m: Model, img: imap<Buf, seq<int>>, l: nat)
    requires ModelIn(m, img) && l < m.cfg.dims.numLayers
    ensures forall t: nat :: t < TENSORS ==> Weight(l, t) in img && img[Weight(l, t)] == m.weight(l, t)
    ensures Sincos in img && img[Sincos] == m.sincos
    ensures ResidA in img && ScratchX in img && ScratchQ in img && ScratchK in img && ScratchV in img
    ensures ResidB in img && FfnA in img && FfnB in img && Scores in img && KCache in img && VCache in img
  {
  }

  lemma SizeOf(dev: Memory, b: Buf)
    requires dev.Wired() && dev.InUse(b)
    ensures dev.Sized(b)
  {
  }

  lemma Lengths(dev: Memory)
    requires dev.Wired()
    ensures dev.layout(ResidA).len == dev.layout(ResidB).len == dev.layout(ScratchX).len == dev.layout(ScratchQ).len == dev.cfg.hidden
    ensures dev.layout(ScratchK).len == dev.layout(ScratchV).len == dev.cfg.KvDim()
    ensures dev.layout(FfnA).len == dev.layout(FfnB).len == dev.cfg.intermediate
    ensures dev.layout(Logits).len == dev.cfg.vocab && dev.layout(TokenId).len == 1
  {
    hide Memory.Wired;
    SizeOf(dev, ResidA);
    SizeOf(dev, ResidB);
    SizeOf(dev, ScratchX);
    SizeOf(dev, ScratchQ);
    SizeOf(dev, ScratchK);
    SizeOf(dev, ScratchV);
    SizeOf(dev, FfnA);
    SizeOf(dev, FfnB);
    SizeOf(dev, Logits);
    SizeOf(dev, TokenId);
  }

  function HeadsOf(m: Model, v: seq<int>): (r: seq<seq<int>>)
    requires |v| == m.cfg.KvDim()
    ensures |r| == m.cfg.dims.numKvHeads
    ensures forall h :: 0 <= h < |r| ==> r[h] == Head(m, v, h)
  {
    seq(m.cfg.dims.numKvHeads, h requires 0 <= h < m.cfg.dims.numKvHeads => Head(m, v, h))
  }

  lemma HeadCells(m: Model, v: seq<int>, h: nat)
    requires |v| == m.cfg.KvDim() && h < m.cfg.dims.numKvHeads
    ensures h * m.cfg.dims.headDim + m.cfg.dims.headDim <= |v|
    ensures HeadsOf(m, v)[h] == v[h * m.cfg.dims.headDim..h * m.cfg.dims.headDim + m.cfg.dims.headDim]
    ensures |HeadsOf(m, v)[h]| == m.cfg.dims.headDim
  {
    NextMultiple(h, m.cfg.dims.numKvHeads, m.cfg.dims.headDim);
  }

  lemma AppendNone(m: Model, dev: Memory, layer: nat, pos: nat, kNew: seq<int>, vNew: seq<int>)
    requires dev.Wired() && m.cfg == dev.cfg && dev.Shaped(dev.Image())
    requires |kNew| == |vNew| == m.cfg.KvDim() && layer < m.cfg.dims.numLayers && pos < m.cfg.dims.maxSeq
    ensures AppendedIn(m, dev.Image(), dev.Image(), layer, pos, 0, kNew, vNew)
  {
    hide Memory.Wired, Memory.Image, Memory.Shown, Row, Total;
  }
}
