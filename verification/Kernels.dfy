/** What the kernels of the decoder compute, cell by cell, with the addressing of the assembly code.

    Arithmetic on floats, kept as bit patterns, is left open; so are the reductions over a row, whose order of
    summation depends on the lanes of a warp. */
module Kernels {
  import opened KvCache

  /** `squares` sums the squares of a row; `softmax` is one cell of the row of scores it is given; `argmax` is an index
      into the row. */
  datatype Arith = Arith(
    add: (int, int) -> int, sub: (int, int) -> int, mul: (int, int) -> int, div: (int, int) -> int,
    madd: (int, int, int) -> int, sqrt: int -> int, exp: int -> int, neg: int -> int,
    squares: seq<int> -> int, softmax: (seq<int>, nat) -> int, argmax: seq<int> -> int, argmaxDebug: (seq<int>, nat) -> int)

  /** The bit pattern of 1.0. */
  const ONE: int := 0x3f80_0000

  /** A cell of a buffer; nothing is said about what lies beyond it. */
  function Read(s: seq<int>, i: int): int {
    if 0 <= i < |s| then s[i] else 0
  }

  // ---------------------------------------------------------------------------------------------
  // One output cell of each kernel, from the numbers in its argument buffer.

  /** rmsnorm: the cell is divided by the root mean square of the row and multiplied with its weight. */
  function NormCell(k: Arith, x: seq<int>, w: seq<int>, inv: int, eps: int, i: nat): int {
    var rrms := k.div(ONE, k.sqrt(k.add(k.mul(k.squares(x), inv), eps)));
    k.mul(k.mul(Read(x, i), rrms), Read(w, i))
  }

  /** gemm, after `t` steps of the loop over the inner dimension. */
  function GemmSum(k: Arith, a: seq<int>, b: seq<int>, row: nat, col: nat, depth: nat, n: nat, t: nat): int {
    if t == 0 then 0
    else
      k.madd(Read(a, row * depth + (t - 1)), Read(b, (t - 1) * n + col), GemmSum(k, a, b, row, col, depth, n, t - 1))
  }

  function GemmCell(k: Arith, a: seq<int>, b: seq<int>, depth: int, n: int, i: nat): int {
    if depth < 0 || n <= 0 then 0 else GemmSum(k, a, b, i / n, i % n, depth, n, depth)
  }

  function AddCell(k: Arith, x: seq<int>, b: seq<int>, n: int, i: nat): int {
    if n <= 0 then 0 else k.add(Read(x, i), Read(b, i % n))
  }

  function SiluCell(k: Arith, x: seq<int>, i: nat): int {
    var v := Read(x, i);
    k.mul(v, k.div(ONE, k.add(ONE, k.exp(k.neg(v)))))
  }

  /** rope turns the pair of cells that are half a head apart; the loop over heads runs at least once. */
  function RopeCell(k: Arith, x: seq<int>, sincos: seq<int>, heads: int, headDim: int, pos: int, i: nat): int {
    if headDim < 2 then Read(x, i)
    else
      var half := headDim / 2;
      var h, d := i / headDim, i % headDim;
      var lane := if d < half then d else d - half;
      var lo, hi := Read(x, h * headDim + lane), Read(x, h * headDim + lane + half);
      var cos, sin := Read(sincos, pos * headDim + 2 * lane), Read(sincos, pos * headDim + 2 * lane + 1);
      if (h != 0 && h >= heads) || lane >= half then Read(x, i)
      else if d < half then k.sub(k.mul(lo, cos), k.mul(hi, sin))
      else k.madd(lo, sin, k.mul(hi, cos))
  }

  function EmbeddingCell(table: seq<int>, token: int, n: int, i: nat): int {
    Read(table, token * n + i)
  }

  /** A cell of row [kh][t] of a cache. */
  function RowCell(rows: seq<seq<seq<int>>>, kh: int, t: nat, d: nat): int {
    if 0 <= kh < |rows| && t < |rows[kh]| then Read(rows[kh][t], d) else 0
  }

  /** The key and value head of a query head; division by zero gives -1. */
  function KvHead(h: nat, qPerKv: int): int {
    if qPerKv <= 0 then -1 else h / qPerKv
  }

  function QktSum(k: Arith, q: seq<int>, rows: seq<seq<seq<int>>>, headDim: nat, kh: int, h: nat, t: nat, d: nat): int {
    if d == 0 then 0
    else
      k.madd(RowCell(rows, kh, t, d - 1), Read(q, h * headDim + (d - 1)), QktSum(k, q, rows, headDim, kh, h, t, d - 1))
  }

  function QktCell(k: Arith, q: seq<int>, rows: seq<seq<seq<int>>>, headDim: int, qPerKv: int, scale: int, h: nat, t: nat): int {
    if headDim < 0 then 0 else k.mul(QktSum(k, q, rows, headDim, KvHead(h, qPerKv), h, t, headDim), scale)
  }

  function PvSum(k: Arith, scores: seq<int>, rows: seq<seq<seq<int>>>, kh: int, d: nat, t: nat): int {
    if t == 0 then 0
    else k.add(PvSum(k, scores, rows, kh, d, t - 1), k.mul(Read(scores, t - 1), RowCell(rows, kh, t - 1, d)))
  }

  function PvCell(k: Arith, scores: seq<seq<int>>, rows: seq<seq<seq<int>>>, headDim: int, qPerKv: int, i: nat): int {
    if headDim <= 0 || i / headDim >= |scores| then 0
    else PvSum(k, scores[i / headDim], rows, KvHead(i / headDim, qPerKv), i % headDim, |scores[i / headDim]|)
  }

  // ---------------------------------------------------------------------------------------------
  // The kernels on vectors.

  /** One row times a matrix of `depth` rows and `n` columns. */
  function GemmVec(k: Arith, depth: nat, n: nat, x: seq<int>, w: seq<int>): (r: seq<int>)
    ensures |r| == n
  {
    seq(n, i requires 0 <= i => GemmCell(k, x, w, depth, n, i))
  }

  function AddVec(k: Arith, n: nat, x: seq<int>, b: seq<int>): (r: seq<int>)
    ensures |r| == n
  {
    seq(n, i requires 0 <= i => AddCell(k, x, b, n, i))
  }

  function MulVec(k: Arith, n: nat, x: seq<int>, y: seq<int>): (r: seq<int>)
    ensures |r| == n
  {
    seq(n, i requires 0 <= i => k.mul(Read(x, i), Read(y, i)))
  }

  function RopeVec(k: Arith, x: seq<int>, sincos: seq<int>, heads: nat, headDim: nat, pos: nat): (r: seq<int>)
    ensures |r| == |x|
  {
    seq(|x|, i requires 0 <= i => RopeCell(k, x, sincos, heads, headDim, pos, i))
  }

  function SiluVec(k: Arith, n: nat, x: seq<int>): (r: seq<int>)
    ensures |r| == n
  {
    seq(n, i requires 0 <= i => SiluCell(k, x, i))
  }

  function EmbeddingVec(n: nat, table: seq<int>, token: int): (r: seq<int>)
    ensures |r| == n
  {
    seq(n, i requires 0 <= i => EmbeddingCell(table, token, n, i))
  }

  /** The scores of all query heads against the rows 0 .. pos. */
  function Qkt(k: Arith, q: seq<int>, rows: seq<seq<seq<int>>>, headDim: int, qPerKv: int, scale: int, heads: nat, pos: nat)
    : (r: seq<seq<int>>)
    ensures |r| == heads && forall h :: 0 <= h < heads ==> |r[h]| == pos + 1
  {
    seq(heads, h requires 0 <= h => seq(pos + 1, t requires 0 <= t => QktCell(k, q, rows, headDim, qPerKv, scale, h, t)))
  }

  function Softmax(k: Arith, scores: seq<seq<int>>): (r: seq<seq<int>>)
    ensures |r| == |scores| && forall h :: 0 <= h < |r| ==> |r[h]| == |scores[h]|
  {
    seq(|scores|, h requires 0 <= h < |scores| => seq(|scores[h]|, t requires 0 <= t => k.softmax(scores[h], t)))
  }

  function Pv(k: Arith, n: nat, scores: seq<seq<int>>, rows: seq<seq<seq<int>>>, headDim: int, qPerKv: int): (r: seq<int>)
    ensures |r| == n
  {
    seq(n, i requires 0 <= i => PvCell(k, scores, rows, headDim, qPerKv, i))
  }

  // ---------------------------------------------------------------------------------------------
  // What they mean.

  /** The dot product, accumulated from the left. */
  function Dot(k: Arith, x: seq<int>, y: seq<int>): int
    requires |x| == |y|
  {
    if x == [] then 0
    else
      var n := |x| - 1;
      k.madd(x[n], y[n], Dot(k, x[..n], y[..n]))
  }

  /** The weighted sum of `v`, accumulated from the left. */
  function Weighted(k: Arith, p: seq<int>, v: seq<int>): int
    requires |p| == |v|
  {
    if p == [] then 0
    else
      var n := |p| - 1;
      k.add(Weighted(k, p[..n], v[..n]), k.mul(p[n], v[n]))
  }

  /** Column `j` of a matrix of `depth` rows and `n` columns that lies row by row in `w`. */
  function Column(w: seq<int>, depth: nat, n: nat, j: nat): (r: seq<int>)
    requires |w| == depth * n && j < n
    ensures |r| == depth
  {
    seq(depth, t requires 0 <= t < depth => (NextMultiple(t, depth, n); w[t * n + j]))
  }

  lemma {:induction false} GemmSumIsDot(k: Arith, x: seq<int>, w: seq<int>, j: nat, depth: nat, n: nat, t: nat)
    requires |x| == depth && |w| == depth * n && j < n && t <= depth
    ensures GemmSum(k, x, w, 0, j, depth, n, t) == Dot(k, x[..t], Column(w, depth, n, j)[..t])
    decreases t
  {
    if t > 0 {
      GemmSumIsDot(k, x, w, j, depth, n, t - 1);
      NextMultiple(t - 1, depth, n);
      var c := Column(w, depth, n, j);
      assert x[..t][..t - 1] == x[..t - 1] && c[..t][..t - 1] == c[..t - 1];
      assert 0 * depth + (t - 1) == t - 1;
    }
  }

  lemma FirstRow(j: nat, n: nat)
    requires j < n
    ensures j / n == 0 && j % n == j
  {
  }

  /** A row times a matrix: each cell is the dot product with a column. */
  lemma GemmIsDot(k: Arith, depth: nat, n: nat, x: seq<int>, w: seq<int>, j: nat)
    requires |x| == depth && |w| == depth * n && j < n
    ensures GemmVec(k, depth, n, x, w)[j] == Dot(k, x, Column(w, depth, n, j))
  {
    hide GemmSum, Dot, Column;
    FirstRow(j, n);
    GemmSumIsDot(k, x, w, j, depth, n, depth);
    assert x[..depth] == x && Column(w, depth, n, j)[..depth] == Column(w, depth, n, j);
  }

  /** A bias is added cell by cell, and so are residuals; products are taken cell by cell. */
  lemma CellByCell(k: Arith, n: nat, x: seq<int>, y: seq<int>, i: nat)
    requires |x| == |y| == n && i < n
    ensures AddVec(k, n, x, y)[i] == k.add(x[i], y[i]) && MulVec(k, n, x, y)[i] == k.mul(x[i], y[i])
  {
    FirstRow(i, n);
  }

  /** Cell `j` of head `h`. */
  lemma HeadCell(h: nat, j: nat, headDim: nat)
    requires j < headDim
    ensures (h * headDim + j) / headDim == h && (h * headDim + j) % headDim == j
  {
    var i := h * headDim + j;
    DigitsUnique(headDim, i / headDim, i % headDim, h, j);
  }

  /** The two halves of a head are turned by the angles of the position; nothing beyond the heads changes. */
  lemma RopeRotates(k: Arith, x: seq<int>, sincos: seq<int>, heads: nat, headDim: nat, pos: nat, h: nat, lane: nat)
    requires h < heads && headDim % 2 == 0 && lane < headDim / 2 && h * headDim + headDim <= |x| && pos * headDim + headDim <= |sincos|
    ensures var r := RopeVec(k, x, sincos, heads, headDim, pos);
      var lo, hi := x[h * headDim + lane], x[h * headDim + lane + headDim / 2];
      var cos, sin := sincos[pos * headDim + 2 * lane], sincos[pos * headDim + 2 * lane + 1];
      && r[h * headDim + lane] == k.sub(k.mul(lo, cos), k.mul(hi, sin))
      && r[h * headDim + lane + headDim / 2] == k.madd(lo, sin, k.mul(hi, cos))
  {
    HeadCell(h, lane, headDim);
    HeadCell(h, lane + headDim / 2, headDim);
  }

  lemma RopeStops(k: Arith, x: seq<int>, sincos: seq<int>, heads: nat, headDim: nat, pos: nat, i: nat)
    requires 0 < heads && 0 < headDim && heads * headDim <= i < |x|
    ensures RopeVec(k, x, sincos, heads, headDim, pos)[i] == x[i]
  {
    BeyondHeads(i, heads, headDim);
  }

  lemma BeyondHeads(i: nat, heads: nat, headDim: nat)
    requires 0 < headDim && heads * headDim <= i
    ensures heads <= i / headDim
  {
    var h := i / headDim;
    assert i < h * headDim + headDim;
    if h < heads {
      NextMultiple(h, heads, headDim);
    }
  }

  /** The row of the table that belongs to the token. */
  lemma EmbeddingIsRow(table: seq<int>, vocab: nat, n: nat, token: int)
    requires 0 <= token < vocab && |table| == vocab * n
    ensures token * n + n <= |table| && EmbeddingVec(n, table, token) == Slice(table, token * n, n)
  {
    NextMultiple(token, vocab, n);
  }

  /** Query heads share key and value heads in equal groups, and no query head is without one, if and only if the number
      of key and value heads divides the number of query heads. */
  lemma GroupsAreEqual(qHeads: nat, kvHeads: nat)
    requires kvHeads > 0
    ensures qHeads % kvHeads == 0 <==> forall h: nat :: h < qHeads ==> 0 <= KvHead(h, qHeads / kvHeads) < kvHeads
    ensures qHeads % kvHeads == 0 ==> qHeads / kvHeads * kvHeads == qHeads
  {
    var q := qHeads / kvHeads;
    assert qHeads == q * kvHeads + qHeads % kvHeads;
    if qHeads % kvHeads == 0 {
      forall h: nat | h < qHeads ensures 0 <= KvHead(h, q) < kvHeads {
        GroupOf(h, q, kvHeads);
      }
    } else {
      var h := q * kvHeads;
      assert h < qHeads;
      if q > 0 {
        HeadCell(kvHeads, 0, q);
      }
      assert !(0 <= KvHead(h, q) < kvHeads);
    }
  }

  /** In groups of `q`, head `h` belongs to the head that has as many groups before it. */
  lemma GroupOf(h: nat, q: nat, kvHeads: nat)
    requires h < q * kvHeads
    ensures 0 <= KvHead(h, q) < kvHeads && KvHead(h, q) * q <= h < KvHead(h, q) * q + q
    ensures KvHead(h, q) == h * kvHeads / (q * kvHeads)
  {
    assert q > 0;
    var g := h / q;
    assert h == g * q + h % q;
    if g >= kvHeads {
      Multiples(kvHeads, g, q);
      assert false;
    }
    Proportion(h, q, kvHeads, g);
  }

  /** So each key and value head serves `q` query heads, which follow one another. */
  lemma GroupIsRange(g: nat, h: nat, q: nat)
    requires q > 0
    ensures KvHead(h, q) == g <==> g * q <= h < g * q + q
  {
    assert h == h / q * q + h % q;
    if g * q <= h < g * q + q {
      Quotient(h, q, g);
    }
  }

  lemma Multiples(a: nat, b: nat, n: nat)
    requires a <= b
    ensures a * n <= b * n
  {
  }

  lemma Proportion(h: nat, q: nat, n: nat, g: nat)
    requires q > 0 && n > 0 && g * q <= h < g * q + q
    ensures h * n / (q * n) == g
  {
    assert g * (q * n) == (g * q) * n;
    assert (g * q) * n <= h * n < (g * q + q) * n by {
      Multiples(g * q, h, n);
      NextMultiple(h, g * q + q, n);
    }
    assert (g * q + q) * n == g * (q * n) + q * n;
    Quotient(h * n, q * n, g);
  }

  lemma Quotient(a: nat, b: nat, g: nat)
    requires b > 0 && g * b <= a < g * b + b
    ensures a / b == g
  {
    DigitsUnique(b, a / b, a % b, g, a - g * b);
  }

  /** The rows 0 .. pos of every key and value head. */
  predicate Rows(rows: seq<seq<seq<int>>>, kvHeads: nat, pos: nat, headDim: nat) {
    && |rows| == kvHeads
    && (forall g :: 0 <= g < kvHeads ==> |rows[g]| == pos + 1)
    && forall g, t :: 0 <= g < kvHeads && 0 <= t <= pos ==> |rows[g][t]| == headDim
  }

  lemma {:induction false} QktSumIsDot(k: Arith, q: seq<int>, rows: seq<seq<seq<int>>>, kvHeads: nat, pos: nat, headDim: nat,
                                       g: nat, h: nat, t: nat, d: nat)
    requires Rows(rows, kvHeads, pos, headDim) && g < kvHeads && t <= pos && h * headDim + headDim <= |q| && d <= headDim
    ensures QktSum(k, q, rows, headDim, g, h, t, d) == Dot(k, rows[g][t][..d], Slice(q, h * headDim, headDim)[..d])
    decreases d
  {
    if d > 0 {
      QktSumIsDot(k, q, rows, kvHeads, pos, headDim, g, h, t, d - 1);
      var row, x := rows[g][t], Slice(q, h * headDim, headDim);
      assert row[..d][..d - 1] == row[..d - 1] && x[..d][..d - 1] == x[..d - 1];
      assert Read(q, h * headDim + (d - 1)) == x[d - 1];
    }
  }

  /** A score is the scaled dot product of the query's head with a row of the key head that its group shares. */
  lemma QktIsScaledDot(k: Arith, q: seq<int>, rows: seq<seq<seq<int>>>, headDim: nat, scale: int, qHeads: nat, kvHeads: nat,
                       pos: nat, h: nat, t: nat)
    requires kvHeads > 0 && qHeads % kvHeads == 0 && |q| == qHeads * headDim && Rows(rows, kvHeads, pos, headDim)
    requires h < qHeads && t <= pos
    ensures var g := h * kvHeads / qHeads;
      && 0 <= g < kvHeads && h * headDim + headDim <= |q|
      && Qkt(k, q, rows, headDim, qHeads / kvHeads, scale, qHeads, pos)[h][t] ==
         k.mul(Dot(k, rows[g][t], Slice(q, h * headDim, headDim)), scale)
  {
    GroupsAreEqual(qHeads, kvHeads);
    GroupOf(h, qHeads / kvHeads, kvHeads);
    NextMultiple(h, qHeads, headDim);
    var g := h * kvHeads / qHeads;
    QktSumIsDot(k, q, rows, kvHeads, pos, headDim, g, h, t, headDim);
    var row, x := rows[g][t], Slice(q, h * headDim, headDim);
    assert row[..headDim] == row && x[..headDim] == x;
  }

  /** The cells that the values of a head have in one place, token by token. */
  function Across(rows: seq<seq<seq<int>>>, kvHeads: nat, pos: nat, headDim: nat, g: nat, j: nat): (r: seq<int>)
    requires Rows(rows, kvHeads, pos, headDim) && g < kvHeads && j < headDim
    ensures |r| == pos + 1
  {
    seq(pos + 1, t requires 0 <= t <= pos => rows[g][t][j])
  }

  lemma {:induction false} PvSumIsWeighted(k: Arith, p: seq<int>, rows: seq<seq<seq<int>>>, kvHeads: nat, pos: nat,
                                           headDim: nat, g: nat, j: nat, t: nat)
    requires Rows(rows, kvHeads, pos, headDim) && g < kvHeads && j < headDim && |p| == pos + 1 && t <= pos + 1
    ensures PvSum(k, p, rows, g, j, t) == Weighted(k, p[..t], Across(rows, kvHeads, pos, headDim, g, j)[..t])
    decreases t
  {
    if t > 0 {
      PvSumIsWeighted(k, p, rows, kvHeads, pos, headDim, g, j, t - 1);
      var v := Across(rows, kvHeads, pos, headDim, g, j);
      assert p[..t][..t - 1] == p[..t - 1] && v[..t][..t - 1] == v[..t - 1];
      assert |rows[g]| == pos + 1 && |rows[g][t - 1]| == headDim;
    }
  }

  /** An output cell of a head is the sum of that cell of the values of its group, weighted with the head's scores. */
  lemma PvIsWeighted(k: Arith, scores: seq<seq<int>>, rows: seq<seq<seq<int>>>, headDim: nat, qHeads: nat, kvHeads: nat,
                     pos: nat, h: nat, j: nat)
    requires kvHeads > 0 && qHeads % kvHeads == 0 && |scores| == qHeads && Rows(rows, kvHeads, pos, headDim)
    requires h < qHeads && j < headDim && |scores[h]| == pos + 1
    ensures var g := h * kvHeads / qHeads;
      && 0 <= g < kvHeads && h * headDim + headDim <= qHeads * headDim
      && Pv(k, qHeads * headDim, scores, rows, headDim, qHeads / kvHeads)[h * headDim + j] ==
         Weighted(k, scores[h], Across(rows, kvHeads, pos, headDim, g, j))
  {
    GroupsAreEqual(qHeads, kvHeads);
    GroupOf(h, qHeads / kvHeads, kvHeads);
    NextMultiple(h, qHeads, headDim);
    HeadCell(h, j, headDim);
    var g := h * kvHeads / qHeads;
    PvSumIsWeighted(k, scores[h], rows, kvHeads, pos, headDim, g, j, pos + 1);
    var v := Across(rows, kvHeads, pos, headDim, g, j);
    assert scores[h][..pos + 1] == scores[h] && v[..pos + 1] == v;
  }
}
