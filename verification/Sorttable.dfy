/** Sorting tables whose entries hold 32-bit offsets from their own position.

    The image is an array of 32-bit words.  The word at index k lies 4 * k bytes into the section; in the
    first two words of each entry it means the address 4 * k bytes further on, modulo 2^32. */
module Sorttable {
  const MODULUS: nat := 0x1_0000_0000
  const WORD: nat := 4

  function Wrap(v: int): (r: nat)
    ensures r < MODULUS
  {
    v % MODULUS
  }

  ghost predicate Words(s: seq<int>) {
    forall k :: 0 <= k < |s| ==> 0 <= s[k] < MODULUS
  }

  /** Is the word at `k` relative, in entries of `width` words? */
  predicate Relative(width: nat, k: nat)
    requires width > 0
  {
    k % width < 2
  }

  /** The word at `k` moved by `sign` times its distance from the start of the section. */
  function Moved(v: int, width: nat, k: nat, sign: int): int
    requires width > 0
  {
    if Relative(width, k) then Wrap(v + sign * (WORD * k)) else v
  }

  function Adjusted(s: seq<int>, width: nat, sign: int): (r: seq<int>)
    requires width > 0
    ensures |r| == |s|
  {
    seq(|s|, k requires 0 <= k < |s| => Moved(s[k], width, k, sign))
  }

  /** Adding and subtracting the same distance modulo 2^32 gives back the word. */
  lemma MovedBack(v: int, width: nat, k: nat, sign: int)
    requires width > 0 && 0 <= v < MODULUS && (sign == 1 || sign == -1)
    ensures Moved(Moved(v, width, k, sign), width, k, -sign) == v
  {
    if Relative(width, k) {
      var d := sign * (WORD * k);
      WrapTwice(v, d);
      assert -sign * (WORD * k) == -d;
    }
  }

  lemma WrapTwice(v: int, d: int)
    requires 0 <= v < MODULUS
    ensures Wrap(Wrap(v + d) - d) == v
  {
    var q := (v + d) / MODULUS;
    assert Wrap(v + d) - d == v - q * MODULUS;
    var m := Wrap(v - q * MODULUS);
    var p := (v - q * MODULUS) / MODULUS;
    assert v - m == (p + q) * MODULUS;
  }

  lemma AdjustedBack(s: seq<int>, width: nat, sign: int)
    requires width > 0 && Words(s) && (sign == 1 || sign == -1)
    ensures Words(Adjusted(s, width, sign)) && Adjusted(Adjusted(s, width, sign), width, -sign) == s
  {
    hide Moved;
    var r := Adjusted(Adjusted(s, width, sign), width, -sign);
    forall k | 0 <= k < |s| ensures r[k] == s[k] && 0 <= Adjusted(s, width, sign)[k] < MODULUS {
      MovedBack(s[k], width, k, sign);
      MovedIsWord(s[k], width, k, sign);
    }
  }

  lemma MovedIsWord(v: int, width: nat, k: nat, sign: int)
    requires width > 0 && 0 <= v < MODULUS
    ensures 0 <= Moved(v, width, k, sign) < MODULUS
  {
  }

  // ---------------------------------------------------------------------------------------------
  // Entries.

  function Entries(s: seq<int>, width: nat): (r: seq<seq<int>>)
    requires width > 0
  {
    if |s| < width then [] else [s[..width]] + Entries(s[width..], width)
  }

  /** Words after the last whole entry. */
  function Tail(s: seq<int>, width: nat): (r: seq<int>)
    requires width > 0
    ensures |r| <= |s|
  {
    if |s| < width then s else Tail(s[width..], width)
  }

  function Flatten(es: seq<seq<int>>): seq<int> {
    if es == [] then [] else es[0] + Flatten(es[1..])
  }

  ghost predicate Wide(es: seq<seq<int>>, width: nat) {
    forall j :: 0 <= j < |es| ==> |es[j]| == width && Words(es[j])
  }

  lemma {:induction false} EntriesLength(s: seq<int>, width: nat)
    requires width > 0
    ensures |Entries(s, width)| * width + |Tail(s, width)| == |s| && |Tail(s, width)| < width
  {
    if |s| >= width {
      EntriesLength(s[width..], width);
      assert |Entries(s, width)| * width == width + |Entries(s[width..], width)| * width;
    }
  }

  lemma {:induction false} EntriesWide(s: seq<int>, width: nat)
    requires width > 0 && Words(s)
    ensures Wide(Entries(s, width), width) && Words(Tail(s, width))
  {
    if |s| >= width {
      EntriesWide(s[width..], width);
    }
  }

  lemma {:induction false} FlattenEntries(es: seq<seq<int>>, tail: seq<int>, width: nat)
    requires width > 0 && Wide(es, width) && |tail| < width
    ensures Entries(Flatten(es) + tail, width) == es && Tail(Flatten(es) + tail, width) == tail
    ensures Words(tail) ==> Words(Flatten(es) + tail)
  {
    var s := Flatten(es) + tail;
    if es != [] {
      FlattenEntries(es[1..], tail, width);
      assert s == es[0] + (Flatten(es[1..]) + tail);
      assert s[..width] == es[0] && s[width..] == Flatten(es[1..]) + tail;
    }
  }

  lemma {:induction false} FlattenLength(es: seq<seq<int>>, width: nat)
    requires Wide(es, width)
    ensures |Flatten(es)| == |es| * width
  {
    if es != [] {
      FlattenLength(es[1..], width);
      assert |es| * width == width + (|es| - 1) * width;
    }
  }

  // ---------------------------------------------------------------------------------------------
  // Order.

  function Signed(v: int): int {
    if v < MODULUS / 2 then v else v - MODULUS
  }

  /** compare_relative_table. */
  function Key(e: seq<int>): int {
    if e == [] then 0 else Signed(e[0])
  }

  ghost predicate Ascending(es: seq<seq<int>>) {
    forall i, j :: 0 <= i < j < |es| ==> Key(es[i]) <= Key(es[j])
  }

  function Insert(es: seq<seq<int>>, e: seq<int>): (r: seq<seq<int>>) {
    if es == [] || Key(e) < Key(es[0]) then [e] + es else [es[0]] + Insert(es[1..], e)
  }

  lemma {:induction false} InsertKeeps(es: seq<seq<int>>, e: seq<int>)
    requires Ascending(es)
    ensures Ascending(Insert(es, e)) && multiset(Insert(es, e)) == multiset(es) + multiset{e}
    ensures |Insert(es, e)| == |es| + 1
  {
    hide Key;
    if es != [] && Key(e) >= Key(es[0]) {
      var rest := es[1..];
      InsertKeeps(rest, e);
      var r := Insert(rest, e);
      assert es == [es[0]] + rest;
      forall j | 0 <= j < |r| ensures Key(es[0]) <= Key(r[j]) {
        assert r[j] in multiset(r);
        assert r[j] == e || r[j] in rest;
      }
      AscendingCons(es[0], r);
    } else if es != [] {
      AscendingCons(e, es);
    }
  }

  lemma AscendingCons(e: seq<int>, es: seq<seq<int>>)
    requires Ascending(es) && forall j :: 0 <= j < |es| ==> Key(e) <= Key(es[j])
    ensures Ascending([e] + es)
  {
    hide Key;
  }

  /** Some sort: the caller may rely on order and content only. */
  method Sort(es: seq<seq<int>>) returns (r: seq<seq<int>>)
    ensures Ascending(r) && multiset(r) == multiset(es) && |r| == |es|
  {
    r := [];
    var i := 0;
    while i < |es|
      invariant 0 <= i <= |es| && Ascending(r) && multiset(r) == multiset(es[..i]) && |r| == i
    {
      InsertKeeps(r, es[i]);
      assert es[..i + 1] == es[..i] + [es[i]];
      r := Insert(r, es[i]);
      i := i + 1;
    }
    assert es[..i] == es;
  }

  /** qsort on the image. */
  method SortImage(a: array<int>, width: nat)
    requires width > 0 && Words(a[..])
    modifies a
    ensures Words(a[..]) && Ascending(Entries(a[..], width))
    ensures multiset(Entries(a[..], width)) == multiset(Entries(old(a[..]), width))
    ensures Tail(a[..], width) == Tail(old(a[..]), width)
  {
    hide Entries, Tail, Flatten, Wide, Words, Ascending;
    var es, tail := Entries(a[..], width), Tail(a[..], width);
    EntriesLength(a[..], width);
    EntriesWide(a[..], width);
    var sorted := Sort(es);
    SameWidth(es, sorted, width);
    FlattenLength(sorted, width);
    FlattenEntries(sorted, tail, width);
    Store(a, Flatten(sorted) + tail);
  }

  method Store(a: array<int>, s: seq<int>)
    requires |s| == a.Length
    modifies a
    ensures a[..] == s
  {
    var k := 0;
    while k < a.Length
      invariant 0 <= k <= a.Length && a[..k] == s[..k]
    {
      a[k] := s[k];
      k := k + 1;
    }
  }

  lemma SameWidth(es: seq<seq<int>>, r: seq<seq<int>>, width: nat)
    requires Wide(es, width) && multiset(r) == multiset(es)
    ensures Wide(r, width)
  {
    forall j | 0 <= j < |r| ensures |r[j]| == width && Words(r[j]) {
      assert r[j] in multiset(r);
      assert r[j] in es;
    }
  }

  // ---------------------------------------------------------------------------------------------
  // The two tables.

  /** What the table says: its entries with absolute targets. */
  ghost function Targets(s: seq<int>, width: nat): seq<seq<int>>
    requires width > 0
  {
    Entries(Adjusted(s, width, 1), width)
  }

  /** The table says the same and its first targets ascend as 32-bit signed numbers; words after the last whole entry mean
      what they meant. */
  ghost predicate SortedTable(was: seq<int>, now: seq<int>, width: nat)
    requires width > 0
  {
    && |now| == |was|
    && multiset(Targets(now, width)) == multiset(Targets(was, width))
    && (forall i, j, x, y :: 0 <= i < j < |Targets(now, width)| && Is(Targets(now, width)[i], x) && Is(Targets(now, width)[j], y) ==>
          x <= y)
    && Tail(Adjusted(now, width, 1), width) == Tail(Adjusted(was, width, 1), width)
  }

  /** The first word of the entry is the signed 32-bit number `x`. */
  ghost predicate Is(e: seq<int>, x: int) {
    e != [] && -0x8000_0000 <= x < 0x8000_0000 && (x - e[0]) % 0x1_0000_0000 == 0
  }

  lemma KeyIsNumber(e: seq<int>, x: int)
    requires Words(e) && Is(e, x)
    ensures Key(e) == x
  {
    assert 0 <= e[0] < MODULUS;
    var q := (x - e[0]) / MODULUS;
    assert x == e[0] + q * MODULUS;
  }

  lemma NumbersAscend(es: seq<seq<int>>, width: nat)
    requires Wide(es, width) && Ascending(es)
    ensures forall i, j, x, y :: 0 <= i < j < |es| && Is(es[i], x) && Is(es[j], y) ==> x <= y
  {
    hide Key, Is;
    forall i, j, x, y | 0 <= i < j < |es| && Is(es[i], x) && Is(es[j], y) ensures x <= y {
      KeyIsNumber(es[i], x);
      KeyIsNumber(es[j], y);
    }
  }

  /** One pass over a table of two relative words per entry. */
  method MoveAll(a: array<int>, sign: int)
    modifies a
    ensures a[..] == Adjusted(old(a[..]), 2, sign)
  {
    var i := 0;
    while i < a.Length
      invariant 0 <= i <= a.Length
      invariant forall k :: 0 <= k < i ==> a[k] == Moved(old(a[k]), 2, k, sign)
      invariant forall k :: i <= k < a.Length ==> a[k] == old(a[k])
    {
      a[i] := Wrap(a[i] + sign * (WORD * i));
      i := i + 1;
    }
  }

  /** One pass over a table with a data word in each entry. */
  method MoveTargets(a: array<int>, sign: int)
    requires a.Length % 3 == 0
    modifies a
    ensures a[..] == Adjusted(old(a[..]), 3, sign)
  {
    var i := 0;
    while i < a.Length
      invariant 0 <= i <= a.Length && i % 3 == 0
      invariant forall k :: 0 <= k < i ==> a[k] == Moved(old(a[k]), 3, k, sign)
      invariant forall k :: i <= k < a.Length ==> a[k] == old(a[k])
    {
      a[i] := Wrap(a[i] + sign * (WORD * i));
      a[i + 1] := Wrap(a[i + 1] + sign * (WORD * (i + 1)));
      i := i + 3;
    }
  }

  /** sort_relative_table. */
  method SortRelativeTable(a: array<int>)
    requires Words(a[..])
    modifies a
    ensures Words(a[..]) && SortedTable(old(a[..]), a[..], 2)
  {
    hide Entries, Tail, Adjusted, Words, Ascending, Is;
    AdjustedBack(a[..], 2, 1);
    MoveAll(a, 1);
    SortImage(a, 2);
    EntriesWide(a[..], 2);
    NumbersAscend(Entries(a[..], 2), 2);
    AdjustedBack(a[..], 2, -1);
    MoveAll(a, -1);
  }

  /** sort_relative_table_with_data. */
  method SortRelativeTableWithData(a: array<int>)
    requires Words(a[..]) && a.Length % 3 == 0
    modifies a
    ensures Words(a[..]) && SortedTable(old(a[..]), a[..], 3)
  {
    hide Entries, Tail, Adjusted, Words, Ascending, Is;
    AdjustedBack(a[..], 3, 1);
    MoveTargets(a, 1);
    SortImage(a, 3);
    EntriesWide(a[..], 3);
    NumbersAscend(Entries(a[..], 3), 3);
    AdjustedBack(a[..], 3, -1);
    MoveTargets(a, -1);
  }

  /** The entry at `j` of a table with data: two absolute targets and the data, untouched. */
  lemma {:induction false} EntryAt(s: seq<int>, width: nat, j: nat)
    requires width > 0 && (j + 1) * width <= |s|
    ensures j < |Entries(s, width)| && 0 <= j * width && Entries(s, width)[j] == s[j * width..(j + 1) * width]
  {
    assert (j + 1) * width == j * width + width;
    if j > 0 {
      assert j * width == (j - 1) * width + width;
      EntryAt(s[width..], width, j - 1);
      assert s[width..][(j - 1) * width..j * width] == s[j * width..(j + 1) * width];
    }
  }

  /** In absolute terms an entry is the two addresses meant, and the data as stored. */
  lemma TargetAt(s: seq<int>, width: nat, j: nat, c: nat)
    requires width > 0 && c < width && (j + 1) * width <= |s|
    ensures j < |Targets(s, width)| && |Targets(s, width)[j]| == width && 0 <= j * width + c < |s|
    ensures var k := j * width + c;
      Targets(s, width)[j][c] == if c < 2 then (s[k] + 4 * k) % 0x1_0000_0000 else s[k]
  {
    EntryAt(Adjusted(s, width, 1), width, j);
    assert (j + 1) * width == j * width + width;
    Remainder(j, width, c);
  }

  lemma Remainder(j: nat, width: nat, c: nat)
    requires c < width
    ensures (j * width + c) % width == c
  {
    var x := j * width + c;
    var q, r := x / width, x % width;
    assert x == q * width + r;
    assert (q - j) * width == c - r;
    if q != j {
      AtLeastOne(q - j, width);
    }
  }

  lemma AtLeastOne(d: int, width: nat)
    requires d != 0
    ensures d * width >= width || d * width + width <= 0
  {
    if d > 0 {
      assert (d - 1) * width >= 0;
    } else {
      assert (-d - 1) * width >= 0;
    }
  }

  /** The number of entries is that of whole entries in the section. */
  lemma TargetCount(s: seq<int>, width: nat)
    requires width > 0
    ensures |Targets(s, width)| * width <= |s| < (|Targets(s, width)| + 1) * width
  {
    EntriesLength(Adjusted(s, width, 1), width);
  }
}
