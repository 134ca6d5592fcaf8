/** Compressing kernel symbol names: greedy pair replacement in place, and the recursive expander.

    Symbols are buffers of bytes with a length; the bytes from the length on are NUL. */
module Kallsyms {
  const CODES: nat := 256
  const PAIRS: nat := 0x10000

  function Pair(a: int, b: int): int {
    a + b * CODES
  }

  lemma PairsDiffer(a: int, b: int, t: int)
    requires 0 <= a < CODES && 0 <= t < PAIRS
    ensures Pair(a, b) == t <==> a == t % CODES && b == t / CODES
  {
  }

  // ---------------------------------------------------------------------------------------------
  // Replacement, left to right and without overlap.

  function Replaced(s: seq<int>, a: int, b: int, c: int): (r: seq<int>)
    ensures |r| <= |s|
  {
    if |s| < 2 then s
    else if s[0] == a && s[1] == b then [c] + Replaced(s[2..], a, b, c)
    else [s[0]] + Replaced(s[1..], a, b, c)
  }

  predicate PairAt(s: seq<int>, i: int, a: int, b: int) {
    0 <= i < |s| - 1 && s[i] == a && s[i + 1] == b
  }

  ghost predicate NoPair(s: seq<int>, a: int, b: int) {
    forall i :: !PairAt(s, i, a, b)
  }

  lemma {:induction false} ReplacedNone(s: seq<int>, a: int, b: int, c: int)
    requires NoPair(s, a, b)
    ensures Replaced(s, a, b, c) == s
  {
    if |s| >= 2 {
      assert !PairAt(s, 0, a, b);
      forall i ensures !PairAt(s[1..], i, a, b) {
        assert !PairAt(s, i + 1, a, b);
      }
      ReplacedNone(s[1..], a, b, c);
    }
  }

  /** The first occurrence is replaced and the rest is treated alone. */
  lemma {:induction false} ReplacedFirst(s: seq<int>, j: nat, a: int, b: int, c: int)
    requires PairAt(s, j, a, b) && forall i :: 0 <= i < j ==> !PairAt(s, i, a, b)
    ensures Replaced(s, a, b, c) == s[..j] + [c] + Replaced(s[j + 2..], a, b, c)
  {
    if j == 0 {
      assert s[..0] + [c] == [c];
    } else {
      var rest := s[1..];
      assert !PairAt(s, 0, a, b);
      forall i | 0 <= i < j - 1 ensures !PairAt(rest, i, a, b) {
        assert !PairAt(s, i + 1, a, b);
      }
      ReplacedFirst(rest, j - 1, a, b, c);
      var tail := Replaced(s[j + 2..], a, b, c);
      assert rest[j + 1..] == s[j + 2..];
      assert [s[0]] + rest[..j - 1] == s[..j];
      assert [s[0]] + (rest[..j - 1] + [c] + tail) == ([s[0]] + rest[..j - 1]) + [c] + tail;
    }
  }

  /** find_token: the first occurrence of a pair among `size` bytes, or -1. */
  method FindToken(buf: array<int>, from: nat, size: nat, a: int, b: int) returns (p: int)
    requires from + size <= buf.Length
    ensures p == -1 || from <= p < from + size - 1
    ensures p >= 0 ==> buf[p] == a && buf[p + 1] == b
    ensures forall i :: from <= i < from + size - 1 && (p == -1 || i < p) ==> !(buf[i] == a && buf[i + 1] == b)
  {
    var i := 0;
    while i < size - 1
      invariant 0 <= i && (i > 0 ==> i <= size - 1)
      invariant forall k :: from <= k < from + i ==> !(buf[k] == a && buf[k + 1] == b)
    {
      if buf[from + i] == a && buf[from + i + 1] == b {
        return from + i;
      }
      i := i + 1;
    }
    p := -1;
  }

  /** memmove by one byte to the left. */
  method Shift(buf: array<int>, to: nat, size: nat)
    requires to + 1 + size <= buf.Length
    modifies buf
    ensures forall k :: 0 <= k < buf.Length ==> buf[k] == if to <= k < to + size then old(buf[k + 1]) else old(buf[k])
  {
    var i := 0;
    while i < size
      invariant 0 <= i <= size
      invariant forall k :: 0 <= k < buf.Length ==> buf[k] == if to <= k < to + i then old(buf[k + 1]) else old(buf[k])
    {
      buf[to + i] := buf[to + i + 1];
      i := i + 1;
    }
  }

  /** What is done so far and what is left give the whole result. */
  ghost predicate Partly(s: seq<int>, done: nat, len: nat, a: int, b: int, c: int, whole: seq<int>) {
    done <= len < |s| && s[..done] + Replaced(s[done..len], a, b, c) == whole
  }

  ghost predicate ZeroFrom(s: seq<int>, len: nat) {
    len < |s| && forall k :: len <= k < |s| ==> s[k] == 0
  }

  /** `p` is the first occurrence of the pair from `from` on. */
  ghost predicate FirstFrom(s: seq<int>, from: nat, len: nat, p: nat, a: int, b: int) {
    && from <= p && p + 1 < len <= |s| && s[p] == a && s[p + 1] == b
    && forall i :: from <= i < p ==> !(s[i] == a && s[i + 1] == b)
  }

  /** Overwriting the first byte of a pair and closing the gap. */
  ghost predicate Closed(was: seq<int>, now: seq<int>, p: nat, last: nat, c: int) {
    && p < last < |was| == |now| && now[p] == c
    && (forall k :: 0 <= k < p || last <= k < |now| ==> now[k] == was[k])
    && (forall k :: p < k < last ==> now[k] == was[k + 1])
  }

  lemma OneReplaced(was: seq<int>, now: seq<int>, p1: nat, p: nat, len: nat, last: nat, a: int, b: int, c: int, whole: seq<int>)
    requires Partly(was, p1, len, a, b, c, whole) && ZeroFrom(was, len) && FirstFrom(was, p1, len, p, a, b)
    requires Closed(was, now, p, last, c) && len <= last
    ensures Partly(now, p + 1, len - 1, a, b, c, whole) && ZeroFrom(now, len - 1)
  {
    hide Replaced;
    var rest := was[p1..len];
    forall i | 0 <= i < p - p1 ensures !PairAt(rest, i, a, b) {
      assert rest[i] == was[p1 + i] && rest[i + 1] == was[p1 + i + 1];
    }
    ReplacedFirst(rest, p - p1, a, b, c);
    assert now[p + 1..len - 1] == rest[p - p1 + 2..];
    assert now[..p] == was[..p] == was[..p1] + rest[..p - p1];
    assert now[..p + 1] == now[..p] + [c];
  }

  /** Nothing left to replace: the rest stays. */
  lemma NoneLeft(s: seq<int>, p1: nat, len: nat, a: int, b: int, c: int, whole: seq<int>)
    requires Partly(s, p1, len, a, b, c, whole)
    requires Next(s, p1, len, -1, a, b)
    ensures s[..len] == whole
  {
    hide Replaced;
    var rest := s[p1..len];
    forall i ensures !PairAt(rest, i, a, b) {
      assert 0 <= i < |rest| - 1 ==> rest[i] == s[p1 + i] && rest[i + 1] == s[p1 + i + 1];
    }
    ReplacedNone(rest, a, b, c);
    assert s[..p1] + rest == s[..len];
  }

  /** The new code takes the place of a pair, and the bytes after it move up. */
  method CloseGap(buf: array<int>, p: nat, size: nat, c: int)
    requires p + 1 + size < buf.Length
    modifies buf
    ensures Closed(old(buf[..]), buf[..], p, p + 1 + size, c)
  {
    buf[p] := c;
    Shift(buf, p + 1, size);
  }

  /** `p` is the next occurrence of the pair, or -1 if there is none left. */
  ghost predicate Next(s: seq<int>, from: nat, len: nat, p: int, a: int, b: int) {
    if p >= 0 then FirstFrom(s, from, len, p, a, b)
    else len <= |s| && forall i :: from <= i < len - 1 ==> !(s[i] == a && s[i + 1] == b)
  }

  /** The search of the rest of a symbol, in which `size` may count NULs after it. */
  method FindNext(buf: array<int>, from: nat, size: nat, a: int, b: int, ghost len: nat) returns (p: int)
    requires ZeroFrom(buf[..], len) && a != 0 && b != 0 && from <= len <= from + size <= buf.Length
    ensures p >= -1 && Next(buf[..], from, len, p, a, b)
  {
    p := -1;
    if size >= 2 {
      p := FindToken(buf, from, size, a, b);
    }
  }

  /** The do-while loop of compress_symbols on one symbol.  `size` counts one byte too many for each replacement
      made; the NULs after the symbol make up for it. */
  method ReplaceInPlace(buf: array<int>, len0: nat, first: nat, a: int, b: int, c: int) returns (len: nat)
    requires ZeroFrom(buf[..], len0) && a != 0 && b != 0 && FirstFrom(buf[..], 0, len0, first, a, b)
    modifies buf
    ensures len < len0 && ZeroFrom(buf[..], len)
    ensures buf[..len] == Replaced(old(buf[..len0]), a, b, c)
  {
    hide Replaced, Partly, Closed, ZeroFrom;
    ghost var whole := Replaced(buf[..len0], a, b, c);
    len := len0;
    var p1, p2, size := 0, first, len0;
    InBuffer(buf[..], len0);
    PartlyAtStart(buf[..], len0, a, b, c);
    while p2 >= 0
      invariant 0 <= p1 <= len <= len0 && p1 + size == len0 && ZeroFrom(buf[..], len)
      invariant Partly(buf[..], p1, len, a, b, c, whole) && Next(buf[..], p1, len, p2, a, b)
      invariant p2 < 0 ==> len < len0
      decreases len, p2
    {
      ghost var was := buf[..];
      size := size - (p2 + 1 - p1);
      CloseGap(buf, p2, size, c);
      OneReplaced(was, buf[..], p1, p2, len, len0, a, b, c, whole);
      p1 := p2 + 1;
      len := len - 1;
      p2 := FindNext(buf, p1, size, a, b, len);
    }
    NoneLeft(buf[..], p1, len, a, b, c, whole);
  }

  lemma InBuffer(s: seq<int>, len: nat)
    requires ZeroFrom(s, len)
    ensures len < |s|
  {
  }

  lemma PartlyAtStart(s: seq<int>, len: nat, a: int, b: int, c: int)
    requires len < |s|
    ensures Partly(s, 0, len, a, b, c, Replaced(s[..len], a, b, c))
  {
    assert s[0..len] == s[..len];
  }

  // ---------------------------------------------------------------------------------------------
  // The token table and what a code stands for.

  predicate Real(best: seq<seq<int>>, c: int) {
    0 <= c < |best| && best[c] == [c]
  }

  /** A code that a token may refer to: a character, or a token with a higher code. */
  predicate Usable(best: seq<seq<int>>, c: int, below: int) {
    Real(best, c) || (0 <= c < |best| && below < c && |best[c]| == 2)
  }

  predicate EntryOk(best: seq<seq<int>>, c: int)
    requires 0 <= c < |best|
  {
    best[c] == [] || Real(best, c) || (|best[c]| == 2 && Usable(best, best[c][0], c) && Usable(best, best[c][1], c))
  }

  ghost predicate TableOk(best: seq<seq<int>>) {
    |best| == CODES && forall c :: 0 <= c < CODES ==> EntryOk(best, c)
  }

  /** The characters that a code stands for; the recursion ends because tokens refer to higher codes. */
  function ExpandCode(best: seq<seq<int>>, c: int): (r: seq<int>)
    requires TableOk(best) && 0 <= c < CODES
    decreases CODES - c
  {
    if Real(best, c) then [c]
    else if best[c] == [] then []
    else
      assert EntryOk(best, c);
      var x, y := best[c][0], best[c][1];
      (if Real(best, x) then [x] else ExpandCode(best, x)) + (if Real(best, y) then [y] else ExpandCode(best, y))
  }

  ghost predicate Codes(s: seq<int>) {
    forall i :: 0 <= i < |s| ==> 0 <= s[i] < CODES
  }

  function Expand(best: seq<seq<int>>, s: seq<int>): (r: seq<int>)
    requires TableOk(best) && Codes(s)
  {
    if s == [] then [] else ExpandCode(best, s[0]) + Expand(best, s[1..])
  }

  lemma {:induction false} ExpandAppend(best: seq<seq<int>>, s: seq<int>, t: seq<int>)
    requires TableOk(best) && Codes(s) && Codes(t)
    ensures Expand(best, s + t) == Expand(best, s) + Expand(best, t)
  {
    if s == [] {
      assert s + t == t;
    } else {
      assert (s + t)[1..] == s[1..] + t;
      ExpandAppend(best, s[1..], t);
    }
  }

  lemma EntryExpands(best: seq<seq<int>>, c: int)
    requires TableOk(best) && 0 <= c < CODES && !Real(best, c)
    ensures Codes(best[c]) && ExpandCode(best, c) == Expand(best, best[c])
  {
    assert EntryOk(best, c);
    if best[c] != [] {
      var x, y := best[c][0], best[c][1];
      assert best[c] == [x] + [y];
      assert Expand(best, [x]) == ExpandCode(best, x) && Expand(best, [y]) == ExpandCode(best, y);
      ExpandAppend(best, [x], [y]);
    }
  }

  /** A new entry in a free slot changes nothing else. */
  lemma {:induction false} ExpandElsewhere(best: seq<seq<int>>, i: int, e: seq<int>, c: int)
    requires TableOk(best) && 0 <= i < CODES && best[i] == [] && TableOk(best[i := e])
    requires 0 <= c < CODES && c != i
    ensures ExpandCode(best[i := e], c) == ExpandCode(best, c)
    decreases CODES - c
  {
    assert EntryOk(best, c);
    if !Real(best, c) && best[c] != [] {
      var x, y := best[c][0], best[c][1];
      if !Real(best, x) {
        ExpandElsewhere(best, i, e, x);
      }
      if !Real(best, y) {
        ExpandElsewhere(best, i, e, y);
      }
    }
  }

  lemma TokenFits(best: seq<seq<int>>, i: int, a: int, b: int)
    requires TableOk(best) && 0 <= i < CODES && best[i] == [] && Usable(best, a, i) && Usable(best, b, i)
    ensures TableOk(best[i := [a, b]])
  {
    var best' := best[i := [a, b]];
    forall c | 0 <= c < CODES ensures EntryOk(best', c) {
      assert EntryOk(best, c);
    }
  }

  /** Replacing a pair by the new token leaves what a symbol stands for. */
  lemma {:induction false} ReplacedExpands(best: seq<seq<int>>, i: int, a: int, b: int, s: seq<int>)
    requires TableOk(best) && 0 <= i < CODES && best[i] == [] && Usable(best, a, i) && Usable(best, b, i)
    requires Codes(s) && i !in s && TableOk(best[i := [a, b]])
    ensures Codes(Replaced(s, a, b, i))
    ensures Expand(best[i := [a, b]], Replaced(s, a, b, i)) == Expand(best, s)
  {
    hide ExpandCode, EntryOk;
    var best' := best[i := [a, b]];
    if s != [] {
      ExpandElsewhere(best, i, [a, b], s[0]);
    }
    if |s| == 1 {
      assert s[1..] == [];
    } else if |s| >= 2 {
      if s[0] == a && s[1] == b {
        TokenExpands(best, i, a, b);
        ReplacedExpands(best, i, a, b, s[2..]);
        assert s[1..][1..] == s[2..];
        assert Expand(best, s) == ExpandCode(best, a) + (ExpandCode(best, b) + Expand(best, s[2..]));
      } else {
        ReplacedExpands(best, i, a, b, s[1..]);
      }
    }
  }

  lemma TokenExpands(best: seq<seq<int>>, i: int, a: int, b: int)
    requires TableOk(best) && 0 <= i < CODES && best[i] == [] && Usable(best, a, i) && Usable(best, b, i)
    requires TableOk(best[i := [a, b]])
    ensures ExpandCode(best[i := [a, b]], i) == ExpandCode(best, a) + ExpandCode(best, b)
  {
    ExpandElsewhere(best, i, [a, b], a);
    ExpandElsewhere(best, i, [a, b], b);
  }

  // ---------------------------------------------------------------------------------------------
  // Counting adjacent pairs.

  /** How often the pair `t` occurs among the first `n` adjacent pairs. */
  function CountTo(s: seq<int>, n: nat, t: int): nat
    requires n == 0 || n < |s|
  {
    if n == 0 then 0 else CountTo(s, n - 1, t) + if Pair(s[n - 1], s[n]) == t then 1 else 0
  }

  function Count(s: seq<int>, t: int): nat {
    if s == [] then 0 else CountTo(s, |s| - 1, t)
  }

  function Total(all: seq<seq<int>>, t: int): nat {
    if all == [] then 0 else Count(all[0], t) + Total(all[1..], t)
  }

  lemma {:induction false} TotalUpdate(all: seq<seq<int>>, k: nat, s: seq<int>, t: int)
    requires k < |all|
    ensures Total(all[k := s], t) == Total(all, t) - Count(all[k], t) + Count(s, t)
  {
    if k == 0 {
      assert all[0 := s][1..] == all[1..];
    } else {
      assert all[k := s][1..] == all[1..][k - 1 := s];
      TotalUpdate(all[1..], k - 1, s, t);
    }
  }

  lemma {:induction false} CountFinds(s: seq<int>, n: nat, t: int) returns (i: nat)
    requires (n == 0 || n < |s|) && CountTo(s, n, t) > 0
    ensures i + 1 < |s| && Pair(s[i], s[i + 1]) == t
  {
    if Pair(s[n - 1], s[n]) == t {
      i := n - 1;
    } else {
      i := CountFinds(s, n - 1, t);
    }
  }

  /** Where a pair of codes stands in a symbol. */
  ghost function Occurrences(s: seq<int>, a: int, b: int): (r: set<int>)
    ensures forall i :: i in r <==> PairAt(s, i, a, b)
  {
    set i | 0 <= i < |s| && PairAt(s, i, a, b)
  }

  ghost function OccurrencesTo(s: seq<int>, n: nat, a: int, b: int): set<int> {
    set i | 0 <= i < n && PairAt(s, i, a, b)
  }

  lemma {:induction false} CountToOccurs(s: seq<int>, n: nat, t: int)
    requires Codes(s) && 0 <= t < PAIRS && (n == 0 || n < |s|)
    ensures CountTo(s, n, t) == |OccurrencesTo(s, n, t % CODES, t / CODES)|
  {
    var a, b := t % CODES, t / CODES;
    if n > 0 {
      CountToOccurs(s, n - 1, t);
      PairsDiffer(s[n - 1], s[n], t);
      var was, now := OccurrencesTo(s, n - 1, a, b), OccurrencesTo(s, n, a, b);
      assert now == if PairAt(s, n - 1, a, b) then was + {n - 1} else was;
    }
  }

  /** The count of a pair is the number of places where it stands. */
  lemma CountOccurs(s: seq<int>, t: int)
    requires Codes(s) && 0 <= t < PAIRS
    ensures Count(s, t) == |Occurrences(s, t % CODES, t / CODES)|
  {
    var n: nat := if s == [] then 0 else |s| - 1;
    CountToOccurs(s, n, t);
    assert Occurrences(s, t % CODES, t / CODES) == OccurrencesTo(s, n, t % CODES, t / CODES);
  }

  /** How often a pair of codes stands in all symbols together. */
  ghost function Often(all: seq<seq<int>>, a: int, b: int): nat {
    if all == [] then 0 else |Occurrences(all[0], a, b)| + Often(all[1..], a, b)
  }

  lemma {:induction false} TotalIsOften(all: seq<seq<int>>, t: int)
    requires (forall k :: 0 <= k < |all| ==> Codes(all[k])) && 0 <= t < PAIRS
    ensures Total(all, t) == Often(all, t % CODES, t / CODES)
  {
    if all != [] {
      CountOccurs(all[0], t);
      TotalIsOften(all[1..], t);
    }
  }

  /** A symbol of two or more codes has a pair. */
  lemma {:induction false} OftenFinds(all: seq<seq<int>>, k: nat)
    requires k < |all| && |all[k]| >= 2
    ensures Often(all, all[k][0], all[k][1]) > 0
  {
    if k == 0 {
      assert 0 in Occurrences(all[0], all[0][0], all[0][1]);
    } else {
      OftenFinds(all[1..], k - 1);
    }
  }

  lemma {:induction false} TotalFinds(all: seq<seq<int>>, t: int) returns (k: nat, i: nat)
    requires Total(all, t) > 0
    ensures k < |all| && i + 1 < |all[k]| && Pair(all[k][i], all[k][i + 1]) == t
  {
    if Count(all[0], t) > 0 {
      k := 0;
      i := CountFinds(all[0], |all[0]| - 1, t);
    } else {
      k, i := TotalFinds(all[1..], t);
      k := k + 1;
    }
  }

  // ---------------------------------------------------------------------------------------------
  // The compressor.

  /** The counts are those of the symbols as they are. */
  ghost predicate Counted(profit: seq<int>, all: seq<seq<int>>) {
    |profit| == PAIRS && forall t :: 0 <= t < PAIRS ==> profit[t] == Total(all, t)
  }

  /** Every code in a symbol can be used by tokens from `below` down, and none is NUL while NUL is free. */
  ghost predicate InUse(best: seq<seq<int>>, s: seq<int>, below: int) {
    forall i :: 0 <= i < |s| ==> Usable(best, s[i], below) && (below >= 0 ==> s[i] != 0)
  }

  /** The state of optimisation before code `i` is considered: each symbol stands for its original. */
  ghost predicate Faithful(best: seq<seq<int>>, all: seq<seq<int>>, orig: seq<seq<int>>, i: int) {
    && TableOk(best) && |all| == |orig|
    && (forall c :: 0 <= c < CODES && c <= i ==> best[c] == [] || Real(best, c))
    && (i >= 0 ==> best[0] == [])
    && forall k :: 0 <= k < |all| ==> SymbolFaithful(best, all[k], orig[k], i)
  }

  ghost predicate SymbolFaithful(best: seq<seq<int>>, s: seq<int>, orig: seq<int>, i: int)
    requires TableOk(best)
  {
    Codes(s) && InUse(best, s, i) && Expand(best, s) == orig
  }

  lemma FaithfulNext(best: seq<seq<int>>, all: seq<seq<int>>, orig: seq<seq<int>>, i: int)
    requires Faithful(best, all, orig, i) && 0 <= i < CODES && best[i] != []
    ensures Faithful(best, all, orig, i - 1)
  {
    forall k | 0 <= k < |all| ensures SymbolFaithful(best, all[k], orig[k], i - 1) {
      assert SymbolFaithful(best, all[k], orig[k], i);
    }
  }

  /** A symbol after its pairs have been replaced by the new token `i`. */
  lemma {:induction false} ReplacedInUse(best: seq<seq<int>>, best': seq<seq<int>>, s: seq<int>, a: int, b: int, i: int)
    requires |best| == |best'| == CODES && 0 <= i < CODES && best[i] == [] && best' == best[i := [a, b]]
    requires InUse(best, s, i)
    ensures InUse(best', Replaced(s, a, b, i), i - 1)
  {
    if |s| < 2 {
    } else if s[0] == a && s[1] == b {
      ReplacedInUse(best, best', s[2..], a, b, i);
    } else {
      ReplacedInUse(best, best', s[1..], a, b, i);
    }
  }

  lemma FaithfulToken(best: seq<seq<int>>, all: seq<seq<int>>, all': seq<seq<int>>, orig: seq<seq<int>>, i: int, a: int, b: int)
    requires Faithful(best, all, orig, i) && 0 <= i < CODES && best[i] == [] && Usable(best, a, i) && Usable(best, b, i)
    requires all' == ReplacedAll(all, a, b, i)
    ensures Faithful(best[i := [a, b]], all', orig, i - 1)
  {
    hide ExpandCode, EntryOk, Expand, Replaced, InUse;
    var best' := best[i := [a, b]];
    TokenFits(best, i, a, b);
    forall k | 0 <= k < |all| ensures SymbolFaithful(best', all'[k], orig[k], i - 1) {
      assert SymbolFaithful(best, all[k], orig[k], i);
      NotInUse(best, all[k], i);
      ReplacedExpands(best, i, a, b, all[k]);
      ReplacedInUse(best, best', all[k], a, b, i);
    }
  }

  lemma NotInUse(best: seq<seq<int>>, s: seq<int>, i: int)
    requires InUse(best, s, i) && 0 <= i < |best| && best[i] == []
    ensures i !in s
  {
  }

  /** A pair that is counted occurs, so both its codes can be used. */
  lemma CountedIsUsable(best: seq<seq<int>>, all: seq<seq<int>>, orig: seq<seq<int>>, profit: seq<int>, i: int, t: int)
    requires Faithful(best, all, orig, i) && Counted(profit, all) && 0 <= i && 0 <= t < PAIRS && profit[t] > 0
    ensures Usable(best, t % CODES, i) && Usable(best, t / CODES, i) && t % CODES != 0 && t / CODES != 0
  {
    hide Expand, EntryOk;
    var k, j := TotalFinds(all, t);
    assert SymbolFaithful(best, all[k], orig[k], i);
    PairsDiffer(all[k][j], all[k][j + 1], t);
  }

  /** How deep a code can be: characters are flat, and a token refers to lower ranks only. */
  function Rank(best: seq<seq<int>>, c: int): nat {
    if !(0 <= c < |best|) || Real(best, c) then 0 else |best| - c
  }

  lemma RanksDrop(best: seq<seq<int>>, c: int)
    requires TableOk(best) && 0 <= c < CODES && !Real(best, c)
    ensures Rank(best, c) > 0 && forall i :: 0 <= i < |best[c]| ==> Rank(best, best[c][i]) < Rank(best, c)
  {
    assert EntryOk(best, c);
  }

  lemma OneCode(best: seq<seq<int>>, c: int)
    requires TableOk(best) && 0 <= c < CODES
    ensures Expand(best, [c]) == ExpandCode(best, c) && (best[c] == [c] ==> ExpandCode(best, c) == [c])
  {
    assert [c][1..] == [];
    assert Expand(best, [c]) == ExpandCode(best, c) + Expand(best, []);
  }

  lemma TotalNone(all: seq<seq<int>>)
    ensures forall t :: Total(all[..0], t) == 0
  {
  }

  lemma TotalMore(all: seq<seq<int>>, i: nat)
    requires i < |all|
    ensures forall t :: Total(all[..i + 1], t) == Total(all[..i], t) + Count(all[i], t)
  {
    forall t ensures Total(all[..i + 1], t) == Total(all[..i], t) + Count(all[i], t) {
      assert all[..i + 1] == all[..i] + [all[i]];
      TotalAppend(all[..i], all[i], t);
    }
  }

  lemma {:induction false} TotalAppend(all: seq<seq<int>>, s: seq<int>, t: int)
    ensures Total(all + [s], t) == Total(all, t) + Count(s, t)
  {
    if all == [] {
      assert [s][1..] == [];
    } else {
      assert (all + [s])[1..] == all[1..] + [s];
      TotalAppend(all[1..], s, t);
    }
  }

  /** One buffer per symbol, as read_symbol fills it: the symbol and a NUL. */
  method Buffers(symbols: seq<seq<int>>) returns (bufs: seq<array<int>>)
    ensures |bufs| == |symbols| && forall i :: 0 <= i < |bufs| ==> fresh(bufs[i]) && bufs[i][..] == symbols[i] + [0]
    ensures forall i, j :: 0 <= i < j < |bufs| ==> bufs[i] != bufs[j]
  {
    bufs := [];
    var i := 0;
    while i < |symbols|
      invariant 0 <= i <= |symbols| && |bufs| == i
      invariant forall k :: 0 <= k < i ==> fresh(bufs[k]) && bufs[k][..] == symbols[k] + [0]
      invariant forall k, n :: 0 <= k < n < i ==> bufs[k] != bufs[n]
    {
      var s := symbols[i] + [0];
      var buf := new int[|s|](k requires 0 <= k < |s| => s[k]);
      assert buf[..] == s;
      bufs := bufs + [buf];
      i := i + 1;
    }
  }

  // ---------------------------------------------------------------------------------------------
  // What optimisation computes, on values.

  /** The first pair among the first `n` with the highest count. */
  ghost function Best(all: seq<seq<int>>, n: nat): (r: nat)
    requires n > 0
    ensures r < n
  {
    if n == 1 then 0
    else
      var b := Best(all, n - 1);
      if Total(all, n - 1) > Total(all, b) then n - 1 else b
  }

  lemma {:induction false} BestIsFirst(all: seq<seq<int>>, n: nat, t: nat)
    requires t < n && (forall u :: 0 <= u < n ==> Total(all, u) <= Total(all, t))
    requires forall u :: 0 <= u < t ==> Total(all, u) < Total(all, t)
    ensures Best(all, n) == t
  {
    if n > 1 {
      var b := Best(all, n - 1);
      if t < n - 1 {
        BestIsFirst(all, n - 1, t);
      } else {
        assert Total(all, b) < Total(all, t);
      }
    }
  }

  ghost function ReplacedAll(all: seq<seq<int>>, a: int, b: int, c: int): (r: seq<seq<int>>)
    ensures |r| == |all|
  {
    seq(|all|, k requires 0 <= k < |all| => Replaced(all[k], a, b, c))
  }

  datatype Outcome = Outcome(best: seq<seq<int>>, all: seq<seq<int>>)

  /** From code `i` down, every free code becomes a token for the most frequent pair, until no pair is left. */
  ghost function Optimized(best: seq<seq<int>>, all: seq<seq<int>>, i: int): Outcome
    requires |best| == CODES && i < CODES
    decreases i + 1
  {
    if i < 0 then Outcome(best, all)
    else if best[i] != [] then Optimized(best, all, i - 1)
    else
      var t := Best(all, PAIRS);
      if Total(all, t) == 0 then Outcome(best, all)
      else Optimized(best[i := [t % CODES, t / CODES]], ReplacedAll(all, t % CODES, t / CODES, i), i - 1)
  }

  lemma {:induction false} BestIsMost(all: seq<seq<int>>, n: nat)
    requires n > 0
    ensures forall u :: 0 <= u < n ==> Total(all, u) <= Total(all, Best(all, n))
  {
    hide Total;
    if n > 1 {
      BestIsMost(all, n - 1);
    }
  }

  ghost predicate AllCodes(all: seq<seq<int>>) {
    forall k :: 0 <= k < |all| ==> Codes(all[k])
  }

  lemma ReplacedAllCodes(all: seq<seq<int>>, a: int, b: int, c: int)
    requires AllCodes(all) && 0 <= c < CODES
    ensures AllCodes(ReplacedAll(all, a, b, c))
  {
    hide Replaced;
    forall k | 0 <= k < |all| ensures Codes(ReplacedAll(all, a, b, c)[k]) {
      ReplacedCodes(all[k], a, b, c);
    }
  }

  /** The pair occurs, none occurs more often, and of those that occur as often it is the first by second code and then by
      first code. */
  ghost predicate MostOften(all: seq<seq<int>>, a: int, b: int) {
    && 0 <= a < CODES && 0 <= b < CODES && Often(all, a, b) > 0
    && forall x, y :: 0 <= x < CODES && 0 <= y < CODES ==>
         Often(all, x, y) <= Often(all, a, b) && (Often(all, x, y) == Often(all, a, b) ==> b < y || (b == y && a <= x))
  }

  lemma {:induction false} BestIsEarliest(all: seq<seq<int>>, n: nat)
    requires n > 0
    ensures forall u :: 0 <= u < Best(all, n) ==> Total(all, u) < Total(all, Best(all, n))
  {
    hide Total;
    if n > 1 {
      BestIsEarliest(all, n - 1);
      BestIsMost(all, n - 1);
    }
  }

  lemma BestIsMostOften(all: seq<seq<int>>)
    requires AllCodes(all) && Total(all, Best(all, PAIRS)) > 0
    ensures MostOften(all, Best(all, PAIRS) % CODES, Best(all, PAIRS) / CODES)
  {
    hide Total, Best, Often;
    var t := Best(all, PAIRS);
    BestIsMost(all, PAIRS);
    BestIsEarliest(all, PAIRS);
    TotalIsOften(all, t);
    forall x, y | 0 <= x < CODES && 0 <= y < CODES
      ensures Often(all, x, y) <= Often(all, t % CODES, t / CODES)
      ensures Often(all, x, y) == Often(all, t % CODES, t / CODES) ==> t / CODES < y || (t / CODES == y && t % CODES <= x)
    {
      var u := x + y * CODES;
      assert u % CODES == x && u / CODES == y;
      TotalIsOften(all, u);
    }
  }

  lemma NothingOften(all: seq<seq<int>>, k: nat)
    requires AllCodes(all) && k < |all| && Total(all, Best(all, PAIRS)) == 0
    ensures |all[k]| < 2
  {
    hide Total, Best, Often;
    if |all[k]| >= 2 {
      var x, y := all[k][0], all[k][1];
      OftenFinds(all, k);
      var u := x + y * CODES;
      assert u % CODES == x && u / CODES == y;
      TotalIsOften(all, u);
      BestIsMost(all, PAIRS);
    }
  }

  /** A free code becomes a token for the pair that stands most often in the symbols; if there is none, all is done. */
  lemma OptimizedTakesMost(best: seq<seq<int>>, all: seq<seq<int>>, i: int)
    requires |best| == CODES && 0 <= i < CODES && best[i] == [] && AllCodes(all)
    ensures (forall k :: 0 <= k < |all| ==> |all[k]| < 2) ==> Optimized(best, all, i) == Outcome(best, all)
    ensures !(forall k :: 0 <= k < |all| ==> |all[k]| < 2) ==>
              exists a, b :: MostOften(all, a, b) &&
                Optimized(best, all, i) == Optimized(best[i := [a, b]], ReplacedAll(all, a, b, i), i - 1)
  {
    hide Total, Best, ReplacedAll, MostOften;
    var t := Best(all, PAIRS);
    if Total(all, t) > 0 {
      BestIsMostOften(all);
      SomeLong(all, t % CODES, t / CODES);
    } else {
      forall k | 0 <= k < |all| ensures |all[k]| < 2 {
        NothingOften(all, k);
      }
    }
  }

  lemma {:induction false} SomeLong(all: seq<seq<int>>, a: int, b: int)
    requires MostOften(all, a, b)
    ensures exists k :: 0 <= k < |all| && |all[k]| >= 2
  {
    LongFrom(all, a, b);
  }

  lemma {:induction false} LongFrom(all: seq<seq<int>>, a: int, b: int)
    requires Often(all, a, b) > 0
    ensures exists k :: 0 <= k < |all| && |all[k]| >= 2
  {
    if |Occurrences(all[0], a, b)| > 0 {
      var i :| i in Occurrences(all[0], a, b);
      assert |all[0]| >= 2;
    } else {
      LongFrom(all[1..], a, b);
      var k :| 0 <= k < |all[1..]| && |all[1..][k]| >= 2;
      assert all[k + 1] == all[1..][k];
    }
  }

  /** Optimisation stops only when every code is in use or every symbol is down to one code. */
  lemma {:induction false} OptimizedIsComplete(best: seq<seq<int>>, all: seq<seq<int>>, i: int)
    requires |best| == CODES && i < CODES && (forall c :: 0 <= c < CODES && i < c ==> best[c] != []) && AllCodes(all)
    ensures var o := Optimized(best, all, i);
      |o.best| == CODES && ((forall c :: 0 <= c < CODES ==> o.best[c] != []) || forall k :: 0 <= k < |o.all| ==> |o.all[k]| < 2)
    decreases i + 1
  {
    hide Total, ReplacedAll, Best;
    if i >= 0 {
      if best[i] != [] {
        OptimizedIsComplete(best, all, i - 1);
      } else {
        var t := Best(all, PAIRS);
        if Total(all, t) != 0 {
          ReplacedAllCodes(all, t % CODES, t / CODES, i);
          OptimizedIsComplete(best[i := [t % CODES, t / CODES]], ReplacedAll(all, t % CODES, t / CODES, i), i - 1);
        } else {
          forall k | 0 <= k < |all| ensures |all[k]| < 2 {
            NothingOften(all, k);
          }
        }
      }
    }
  }

  ghost predicate Occurs(all: seq<seq<int>>, c: int) {
    exists k, n :: 0 <= k < |all| && 0 <= n < |all[k]| && all[k][n] == c
  }

  /** The table that holds just the characters in use. */
  ghost function Characters(all: seq<seq<int>>): (r: seq<seq<int>>)
    ensures |r| == CODES
  {
    seq(CODES, c requires 0 <= c < CODES => if Occurs(all, c) then [c] else [])
  }

  class Compressor {
    const bufs: seq<array<int>>
    const profit: array<int>
    var lens: seq<nat>
    var best: seq<seq<int>>

    constructor (symbols: seq<seq<int>>)
      ensures Shape() && All() == symbols && best == seq(CODES, _ => []) && forall t :: 0 <= t < PAIRS ==> profit[t] == 0
      ensures fresh(profit) && forall i :: 0 <= i < |bufs| ==> fresh(bufs[i])
    {
      var bs := Buffers(symbols);
      bufs := bs;
      profit := new int[PAIRS](_ => 0);
      lens := seq(|symbols|, i requires 0 <= i < |symbols| => |symbols[i]|);
      best := seq(CODES, _ => []);
      new;
      forall i | 0 <= i < |symbols| ensures ZeroFrom(bufs[i][..], lens[i]) && bufs[i][..lens[i]] == symbols[i] {
        assert bufs[i][..lens[i]] == (symbols[i] + [0])[..lens[i]];
      }
    }

    ghost predicate Shape()
      reads this, bufs, profit
    {
      && |lens| == |bufs| && profit.Length == PAIRS && profit !in bufs
      && (forall i, j :: 0 <= i < j < |bufs| ==> bufs[i] != bufs[j])
      && forall i :: 0 <= i < |bufs| ==> ZeroFrom(bufs[i][..], lens[i])
    }

    /** The symbols as they are. */
    ghost function All(): (r: seq<seq<int>>)
      requires Shape()
      reads this, bufs, profit
      ensures |r| == |bufs|
    {
      seq(|bufs|, i requires 0 <= i < |bufs| && Shape() reads this, bufs, profit => bufs[i][..lens[i]])
    }

    ghost predicate Coded()
      requires Shape()
      reads this, bufs, profit
    {
      forall i :: 0 <= i < |bufs| ==> Codes(bufs[i][..lens[i]])
    }

    /** learn_symbol (`d` is 1) and forget_symbol (`d` is -1). */
    method Tally(buf: array<int>, len: nat, d: int)
      requires len <= buf.Length && buf != profit && profit.Length == PAIRS && Codes(buf[..len])
      modifies profit
      ensures forall t :: 0 <= t < PAIRS ==> profit[t] == old(profit[t]) + d * Count(buf[..len], t)
    {
      var i := 0;
      ghost var s := buf[..len];
      while i < len - 1
        invariant 0 <= i && (i > 0 ==> i <= len - 1) && buf[..len] == s
        invariant forall t :: 0 <= t < PAIRS ==> profit[t] == old(profit[t]) + d * CountTo(s, i, t)
      {
        assert 0 <= s[i] < CODES && 0 <= s[i + 1] < CODES;
        var t := buf[i] + buf[i + 1] * CODES;
        profit[t] := profit[t] + d;
        i := i + 1;
      }
    }

    /** build_initial_token_table. */
    method CountAll()
      requires Shape() && Coded() && forall t :: 0 <= t < PAIRS ==> profit[t] == 0
      modifies profit
      ensures Shape() && Coded() && All() == old(All()) && Counted(profit[..], All())
    {
      hide Total, Count;
      var i := 0;
      ghost var all := All();
      TotalNone(all);
      while i < |bufs|
        invariant 0 <= i <= |bufs| && Shape() && Coded() && All() == all
        invariant forall t :: 0 <= t < PAIRS ==> profit[t] == Total(all[..i], t)
      {
        Tally(bufs[i], lens[i], 1);
        TotalMore(all, i);
        i := i + 1;
      }
      assert all[..i] == all;
    }

    /** insert_real_symbols_in_table. */
    method EnterCharacters()
      requires Shape() && Entered(best) && forall k :: 0 <= k < |bufs| ==> Text(All()[k])
      modifies `best
      requires forall c :: 0 <= c < CODES ==> best[c] == []
      ensures Shape() && All() == old(All()) && Entered(best)
      ensures forall k :: 0 <= k < |bufs| ==> AllReal(best, All()[k])
      ensures best == Characters(All())
    {
      ghost var all := All();
      var i := 0;
      while i < |bufs|
        invariant 0 <= i <= |bufs| && Shape() && All() == all && Entered(best)
        invariant forall k :: 0 <= k < i ==> AllReal(best, all[k])
        invariant forall c :: 0 <= c < CODES && best[c] != [] ==> Occurs(all, c)
      {
        var j := 0;
        while j < lens[i]
          invariant 0 <= j <= lens[i] && Shape() && All() == all && Entered(best)
          invariant forall k :: 0 <= k < i ==> AllReal(best, all[k])
          invariant forall c :: 0 <= c < CODES && best[c] != [] ==> Occurs(all, c)
          invariant forall n :: 0 <= n < j ==> Real(best, all[i][n])
        {
          var c := bufs[i][j];
          assert c == all[i][j];
          assert Occurs(all, c);
          best := best[c := [c]];
          assert All() == all;
          j := j + 1;
        }
        i := i + 1;
      }
      CharactersAreReal(best, all);
    }

    /** optimize_token_table on a fresh table: whatever the symbols, each one can be expanded again. */
    method Compress()
      requires Shape() && (forall t :: 0 <= t < PAIRS ==> profit[t] == 0) && best == seq(CODES, _ => [])
      requires forall k :: 0 <= k < |bufs| ==> Text(All()[k])
      modifies profit, bufs, this
      ensures Shape() && TableOk(best) && Counted(profit[..], All())
      ensures forall k :: 0 <= k < |bufs| ==> Codes(All()[k]) && Expand(best, All()[k]) == old(All())[k]
      ensures Outcome(best, All()) == Optimized(Characters(old(All())), old(All()), CODES - 1)
      ensures (forall c :: 0 <= c < CODES ==> best[c] != []) || forall k :: 0 <= k < |bufs| ==> |All()[k]| < 2
    {
      hide Total, Replaced, Optimized, Characters;
      ghost var orig := All();
      assert forall k :: 0 <= k < |bufs| ==> bufs[k][..lens[k]] == orig[k];
      CountAll();
      EnterCharacters();
      FaithfulAtStart(best, orig);
      OptimizedIsComplete(best, orig, CODES - 1);
      Optimize(orig);
      assert forall k :: 0 <= k < |bufs| ==> SymbolFaithful(best, All()[k], orig[k], -1);
    }

    /** expand_symbol: recursive, because table entries may be compressed themselves. */
    method ExpandSymbol(data: seq<int>, ghost rank: nat) returns (result: seq<int>)
      requires TableOk(best) && Codes(data) && forall i :: 0 <= i < |data| ==> Rank(best, data[i]) <= rank
      ensures result == Expand(best, data)
      decreases rank
    {
      hide ExpandCode, EntryOk;
      result := [];
      var i := 0;
      assert data[..0] == [];
      while i < |data|
        invariant 0 <= i <= |data| && result == Expand(best, data[..i])
      {
        var c := data[i];
        ghost var s := data[..i];
        assert data[..i + 1] == s + [c];
        ExpandAppend(best, s, [c]);
        OneCode(best, c);
        if best[c] == [c] {
          result := result + [c];
        } else {
          EntryExpands(best, c);
          RanksDrop(best, c);
          var part := ExpandSymbol(best[c], Rank(best, c) - 1);
          result := result + part;
        }
        i := i + 1;
      }
      assert data[..i] == data;
    }

    /** find_best_token: the first pair with the highest count. */
    method FindBest() returns (best: nat)
      requires profit.Length == PAIRS && forall t :: 0 <= t < PAIRS ==> profit[t] >= 0
      ensures best < PAIRS && forall t :: 0 <= t < PAIRS ==> profit[t] <= profit[best]
      ensures forall t :: 0 <= t < best ==> profit[t] < profit[best]
    {
      var i, bestprofit := 0, -10000;
      best := 0;
      while i < PAIRS
        invariant 0 <= i <= PAIRS && best < PAIRS && (i > 0 ==> best < i && bestprofit == profit[best])
        invariant i == 0 ==> bestprofit == -10000
        invariant forall t :: 0 <= t < i ==> profit[t] <= bestprofit
        invariant forall t :: 0 <= t < best ==> profit[t] < bestprofit
      {
        if profit[i] > bestprofit {
          best := i;
          bestprofit := profit[i];
        }
        i := i + 1;
      }
    }

    /** compress_symbols for one symbol. */
    method CompressOne(i: nat, a: int, b: int, idx: int)
      requires Shape() && Coded() && i < |bufs| && Counted(profit[..], All())
      requires a != 0 && b != 0 && 0 <= idx < CODES
      modifies profit, bufs[i], `lens
      ensures Shape() && Coded() && Counted(profit[..], All())
      ensures All() == old(All())[i := Replaced(old(All())[i], a, b, idx)]
    {
      hide Total, Replaced;
      var buf, len := bufs[i], lens[i];
      ghost var all, s := All(), All()[i];
      var p := FindToken(buf, 0, len, a, b);
      if p < 0 {
        PartlyAtStart(buf[..], len, a, b, idx);
        NoneLeft(buf[..], 0, len, a, b, idx, Replaced(s, a, b, idx));
        assert all == all[i := s];
        return;
      }
      Tally(buf, len, -1);
      var newLen := ReplaceInPlace(buf, len, p, a, b, idx);
      lens := lens[i := newLen];
      ReplacedCodes(s, a, b, idx);
      Tally(buf, newLen, 1);
      forall t | 0 <= t < PAIRS ensures profit[t] == Total(all[i := buf[..newLen]], t) {
        TotalUpdate(all, i, buf[..newLen], t);
      }
      assert All() == all[i := buf[..newLen]];
    }

    /** compress_symbols: replace the pair everywhere. */
    method CompressAll(a: int, b: int, idx: int)
      requires Shape() && Coded() && Counted(profit[..], All()) && a != 0 && b != 0 && 0 <= idx < CODES
      modifies profit, bufs, `lens
      ensures Shape() && Coded() && Counted(profit[..], All())
      ensures All() == ReplacedAll(old(All()), a, b, idx)
    {
      hide Total, Replaced;
      var i := 0;
      while i < |bufs|
        invariant 0 <= i <= |bufs| && Shape() && Coded() && Counted(profit[..], All())
        invariant forall k :: 0 <= k < i ==> All()[k] == Replaced(old(All())[k], a, b, idx)
        invariant forall k :: i <= k < |bufs| ==> All()[k] == old(All())[k]
      {
        CompressOne(i, a, b, idx);
        i := i + 1;
      }
    }

    /** optimize_result: at every code, and at the end, each symbol stands for its original. */
    method Optimize(ghost orig: seq<seq<int>>)
      requires Shape() && Coded() && Counted(profit[..], All()) && Faithful(best, All(), orig, CODES - 1) && |best| == CODES
      modifies profit, bufs, this
      ensures Shape() && Coded() && Counted(profit[..], All()) && Faithful(best, All(), orig, -1)
      ensures Outcome(best, All()) == Optimized(old(best), old(All()), CODES - 1)
    {
      hide Total, Replaced, Faithful, ReplacedAll;
      FaithfulTable(best, All(), orig, CODES - 1);
      var i := CODES - 1;
      while i >= 0
        invariant -1 <= i < CODES && Shape() && Coded() && Counted(profit[..], All()) && Faithful(best, All(), orig, i)
        invariant |best| == CODES && Optimized(best, All(), i) == Optimized(old(best), old(All()), CODES - 1)
      {
        if best[i] == [] {
          var t := FindBest();
          BestIsFirst(All(), PAIRS, t);
          if profit[t] == 0 {
            FaithfulEarlier(best, All(), orig, i);
            return;
          }
          ghost var best0, all0 := best, All();
          var a, b := t % CODES, t / CODES;
          CountedIsUsable(best, All(), orig, profit[..], i, t);
          best := best[i := [a, b]];
          assert All() == all0;
          CompressAll(a, b, i);
          FaithfulTable(best0, all0, orig, i);
          FaithfulToken(best0, all0, All(), orig, i, a, b);
        } else {
          FaithfulNext(best, All(), orig, i);
        }
        i := i - 1;
      }
    }
  }

  /** The table after some characters have been entered. */
  ghost predicate Entered(best: seq<seq<int>>) {
    |best| == CODES && best[0] == [] && forall c :: 0 <= c < CODES ==> best[c] == [] || best[c] == [c]
  }

  ghost predicate Text(s: seq<int>) {
    forall i :: 0 <= i < |s| ==> 0 < s[i] < CODES
  }

  ghost predicate AllReal(best: seq<seq<int>>, s: seq<int>) {
    forall i :: 0 <= i < |s| ==> Real(best, s[i])
  }

  lemma {:induction false} RealExpands(best: seq<seq<int>>, s: seq<int>)
    requires TableOk(best) && Codes(s) && AllReal(best, s)
    ensures Expand(best, s) == s
  {
    if s != [] {
      assert Real(best, s[0]);
      RealExpands(best, s[1..]);
    }
  }

  lemma CharactersAreReal(best: seq<seq<int>>, all: seq<seq<int>>)
    requires Entered(best) && (forall k :: 0 <= k < |all| ==> AllReal(best, all[k]))
    requires forall c :: 0 <= c < CODES && best[c] != [] ==> Occurs(all, c)
    ensures best == Characters(all)
  {
    forall c | 0 <= c < CODES ensures best[c] == Characters(all)[c] {
      if Occurs(all, c) {
        var k, n :| 0 <= k < |all| && 0 <= n < |all[k]| && all[k][n] == c;
        assert AllReal(best, all[k]) && Real(best, all[k][n]);
      }
    }
  }

  lemma FaithfulAtStart(best: seq<seq<int>>, all: seq<seq<int>>)
    requires Entered(best) && forall k :: 0 <= k < |all| ==> Text(all[k]) && AllReal(best, all[k])
    ensures Faithful(best, all, all, CODES - 1)
  {
    forall k | 0 <= k < |all| ensures SymbolFaithful(best, all[k], all[k], CODES - 1) {
      RealExpands(best, all[k]);
    }
  }

  lemma FaithfulTable(best: seq<seq<int>>, all: seq<seq<int>>, orig: seq<seq<int>>, i: int)
    requires Faithful(best, all, orig, i)
    ensures |best| == CODES
  {
  }

  lemma FaithfulEarlier(best: seq<seq<int>>, all: seq<seq<int>>, orig: seq<seq<int>>, i: int)
    requires Faithful(best, all, orig, i) && i >= -1
    ensures Faithful(best, all, orig, -1)
  {
    forall k | 0 <= k < |all| ensures SymbolFaithful(best, all[k], orig[k], -1) {
      assert SymbolFaithful(best, all[k], orig[k], i);
    }
  }

  lemma {:induction false} ReplacedCodes(s: seq<int>, a: int, b: int, c: int)
    requires Codes(s) && 0 <= c < CODES
    ensures Codes(Replaced(s, a, b, c))
  {
    if |s| < 2 {
    } else if s[0] == a && s[1] == b {
      ReplacedCodes(s[2..], a, b, c);
    } else {
      ReplacedCodes(s[1..], a, b, c);
    }
  }
}
