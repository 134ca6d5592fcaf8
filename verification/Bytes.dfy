/** The bytes of a memory of 8-byte words, lowest byte first. */
module Bytes {
  import opened Slab

  type byte = x: int | 0 <= x < 256

  function Byte(w: int, k: nat): (b: byte)
    decreases k
  {
    if k == 0 then w % 256 else Byte(w / 256, k - 1)
  }

  function SetByte(w: int, k: nat, v: byte): int
    decreases k
  {
    if k == 0 then w - w % 256 + v else SetByte(w / 256, k - 1, v) * 256 + w % 256
  }

  lemma {:induction false} SetThenGet(w: int, k: nat, v: byte, j: nat)
    ensures Byte(SetByte(w, k, v), j) == if j == k then v else Byte(w, j)
    decreases k
  {
    if k > 0 && j > 0 {
      SetThenGet(w / 256, k - 1, v, j - 1);
    }
  }

  function ByteAt(mem: seq<int>, a: nat): byte
    requires a / WORD < |mem|
  {
    Byte(mem[a / WORD], a % WORD)
  }

  /** The bytes from `addr` on are `bytes`. */
  ghost predicate StoredAt(mem: seq<int>, addr: int, bytes: seq<byte>) {
    && 0 <= addr && addr + |bytes| <= |mem| * WORD
    && forall i :: 0 <= i < |bytes| ==> ByteAt(mem, addr + i) == bytes[i]
  }

  /** No byte outside a range changed, and no word that does not meet it. */
  ghost predicate OnlyBytesChanged(was: seq<int>, mem: seq<int>, from: int, length: nat) {
    && |mem| == |was|
    && (forall w :: 0 <= w < |mem| && (w * WORD + WORD <= from || from + length <= w * WORD) ==> mem[w] == was[w])
    && forall a: nat :: a < |mem| * WORD && !(from <= a < from + length) ==> ByteAt(mem, a) == ByteAt(was, a)
  }

  lemma NothingCopied(mem: seq<int>, dst: nat)
    requires dst <= |mem| * WORD
    ensures OnlyBytesChanged(mem, mem, dst, 0) && StoredAt(mem, dst, [])
  {
  }

  /** Writing one byte after those already copied. */
  lemma CopiedOne(was: seq<int>, mid: seq<int>, dst: nat, bytes: seq<byte>, v: byte)
    requires OnlyBytesChanged(was, mid, dst, |bytes|) && StoredAt(mid, dst, bytes)
    requires dst + |bytes| < |mid| * WORD
    ensures var a := dst + |bytes|;
            var mem := mid[a / WORD := SetByte(mid[a / WORD], a % WORD, v)];
            OnlyBytesChanged(was, mem, dst, |bytes| + 1) && StoredAt(mem, dst, bytes + [v])
  {
    hide Byte, SetByte;
    var a := dst + |bytes|;
    var mem := mid[a / WORD := SetByte(mid[a / WORD], a % WORD, v)];
    forall b: nat | b < |mem| * WORD ensures ByteAt(mem, b) == if b == a then v else ByteAt(mid, b) {
      SetThenGet(mid[a / WORD], a % WORD, v, b % WORD);
    }
  }

  /** A copy beside some bytes leaves them. */
  lemma StoredBeside(was: seq<int>, mem: seq<int>, addr: int, bytes: seq<byte>, from: int, length: nat)
    requires StoredAt(was, addr, bytes) && OnlyBytesChanged(was, mem, from, length)
    requires addr + |bytes| <= from || from + length <= addr
    ensures StoredAt(mem, addr, bytes)
  {
    hide Byte;
  }

  /** Part of what is stored is stored. */
  lemma StoredSlice(mem: seq<int>, addr: int, bytes: seq<byte>, from: nat, to: nat)
    requires StoredAt(mem, addr, bytes) && from <= to <= |bytes|
    ensures StoredAt(mem, addr + from, bytes[from..to])
  {
    hide Byte;
    forall i | 0 <= i < to - from ensures ByteAt(mem, addr + from + i) == bytes[from..to][i] {
      assert ByteAt(mem, addr + (from + i)) == bytes[from + i];
    }
  }

  /** What is stored stays while the words of the allocation around it do. */
  lemma StoredWords(was: seq<int>, mem: seq<int>, addr: int, bytes: seq<byte>, from: nat, to: nat)
    requires StoredAt(was, addr, bytes) && |mem| == |was| && from % WORD == 0
    requires from <= addr && addr + |bytes| <= to
    requires forall w :: 0 <= w < |mem| && from <= w * WORD < to ==> mem[w] == was[w]
    ensures StoredAt(mem, addr, bytes)
  {
    hide Byte;
    forall i | 0 <= i < |bytes| ensures ByteAt(mem, addr + i) == bytes[i] {
      var w := (addr + i) / WORD;
      assert from <= w * WORD < to;
    }
  }

  // ---------------------------------------------------------------------------------------------
  // The same memory as 32-bit cells.

  function Cell(a: byte, b: byte, c: byte, d: byte): int {
    a + 256 * (b + 256 * (c + 256 * d))
  }

  function CellAt(mem: seq<int>, c: nat): int
    requires c < 2 * |mem|
  {
    Cell(ByteAt(mem, 4 * c), ByteAt(mem, 4 * c + 1), ByteAt(mem, 4 * c + 2), ByteAt(mem, 4 * c + 3))
  }

  function CellsOf(bytes: seq<byte>): (r: seq<int>)
    ensures |r| == |bytes| / 4
  {
    seq(|bytes| / 4, i requires 0 <= i < |bytes| / 4 => Cell(bytes[4 * i], bytes[4 * i + 1], bytes[4 * i + 2], bytes[4 * i + 3]))
  }

  lemma StoredCells(mem: seq<int>, addr: nat, bytes: seq<byte>, i: nat)
    requires StoredAt(mem, addr, bytes) && addr % 4 == 0 && i < |bytes| / 4
    ensures addr / 4 + i < 2 * |mem| && CellAt(mem, addr / 4 + i) == CellsOf(bytes)[i]
  {
    hide Byte, ByteAt, Cell;
    assert 4 * (addr / 4 + i) == addr + 4 * i;
    assert bytes[4 * i] == ByteAt(mem, addr + 4 * i);
    assert bytes[4 * i + 1] == ByteAt(mem, addr + (4 * i + 1));
    assert bytes[4 * i + 2] == ByteAt(mem, addr + (4 * i + 2));
    assert bytes[4 * i + 3] == ByteAt(mem, addr + (4 * i + 3));
  }

  const CELL_LIMIT: int := 0x1_0000_0000

  /** The bytes of a cell. */
  function CellBytes(v: int): (r: seq<byte>)
    ensures |r| == 4
  {
    [v % 256, v / 256 % 256, v / 256 / 256 % 256, v / 256 / 256 / 256 % 256]
  }

  /** The two cells of a word are its low and its high half. */
  lemma HalvesOfWord(mem: seq<int>, w: nat)
    requires w < |mem|
    ensures CellAt(mem, 2 * w) == mem[w] % 0x1_0000_0000 && CellAt(mem, 2 * w + 1) == mem[w] / 0x1_0000_0000 % 0x1_0000_0000
  {
    hide Byte, Cell, ByteAt;
    var v := mem[w];
    forall k: nat | k < 8 ensures ByteAt(mem, 8 * w + k) == Byte(v, k) {
      ByteOfWord(mem, w, k);
    }
    FourBytes(v);
    FourBytes(v / 0x1_0000_0000);
    HighBytes(v);
    assert 4 * (2 * w) == 8 * w + 0 && 4 * (2 * w + 1) == 8 * w + 4;
  }

  lemma ByteOfWord(mem: seq<int>, w: nat, k: nat)
    requires w < |mem| && k < 8
    ensures ByteAt(mem, 8 * w + k) == Byte(mem[w], k)
  {
  }

  lemma FourBytes(v: int)
    ensures Cell(Byte(v, 0), Byte(v, 1), Byte(v, 2), Byte(v, 3)) == v % 0x1_0000_0000
  {
    var a := v / 256;
    var b := a / 256;
    var c := b / 256;
    assert Byte(v, 1) == Byte(a, 0) && Byte(v, 2) == Byte(a, 1) == Byte(b, 0);
    assert Byte(v, 3) == Byte(a, 2) == Byte(b, 1) == Byte(c, 0);
    assert v == v % 256 + 256 * (a % 256 + 256 * (b % 256 + 256 * (c % 256))) + 0x1_0000_0000 * (c / 256);
  }

  lemma HighBytes(v: int)
    ensures forall k: nat :: k < 4 ==> Byte(v, k + 4) == Byte(v / 0x1_0000_0000, k)
  {
    var a := v / 256;
    var b := a / 256;
    var c := b / 256;
    assert c / 256 == v / 0x1_0000_0000;
    forall k: nat | k < 4 ensures Byte(v, k + 4) == Byte(c / 256, k) {
      assert Byte(v, k + 4) == Byte(a, k + 3) && Byte(a, k + 3) == Byte(b, k + 2);
      assert Byte(b, k + 2) == Byte(c, k + 1) && Byte(c, k + 1) == Byte(c / 256, k);
    }
  }

  lemma CellOfBytes(v: int)
    requires 0 <= v < CELL_LIMIT
    ensures var b := CellBytes(v); Cell(b[0], b[1], b[2], b[3]) == v
  {
    var x := v / 256;
    var y := x / 256;
    var z := y / 256;
    assert v == v % 256 + 256 * x && x == x % 256 + 256 * y && y == y % 256 + 256 * z;
    assert 0 <= z < 256;
  }

  lemma CellInRange(mem: seq<int>, c: nat)
    requires c < 2 * |mem|
    ensures 0 <= CellAt(mem, c) < CELL_LIMIT
  {
    hide ByteAt;
  }

  /** Copying the bytes of one cell sets that cell and no other. */
  lemma CellCopied(was: seq<int>, mem: seq<int>, c: nat, v: int, d: nat)
    requires 0 <= v < CELL_LIMIT && c < 2 * |mem| && d < 2 * |mem|
    requires OnlyBytesChanged(was, mem, 4 * c, 4) && StoredAt(mem, 4 * c, CellBytes(v))
    ensures CellAt(mem, d) == if d == c then v else CellAt(was, d)
  {
    hide ByteAt, Cell;
    if d == c {
      CellOfBytes(v);
      assert ByteAt(mem, 4 * c + 0) == CellBytes(v)[0] && ByteAt(mem, 4 * c + 1) == CellBytes(v)[1];
      assert ByteAt(mem, 4 * c + 2) == CellBytes(v)[2] && ByteAt(mem, 4 * c + 3) == CellBytes(v)[3];
    }
  }
}
