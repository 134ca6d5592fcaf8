/** The expressions of #if and #elif lines, and the three-valued evaluator that decides them as far as
    the symbols given on the command line allow.

    Lines arrive as tokens; comments and white space are gone. */
module CondExpr {
  import opened Wrappers

  datatype BinOp = Or | And | Eq | Ne | Le | Ge | Lt | Gt

  /** `Word` is an identifier, `Num` a numeral with its exact value and whether it has a suffix with u, `Junk` any other
      character. */
  datatype Token = Bang | Open | Close | Num(value: nat, unsigned: bool) | Word(name: string) | Oper(op: BinOp) | Junk

  /** What the command line says about a symbol: -U, -D with a numeric value, -D with another value. */
  datatype Known = Undef | Value(value: int) | Text

  type Symbols = map<string, Known>

  datatype Expr =
    | Numeral(v: nat, unsigned: bool)
    | Defined(arg: Option<string>)
    | Name(name: string, args: seq<Token>)
    | Not(e: Expr)
    | Bin(op: BinOp, l: Expr, r: Expr)

  const DEFINED: string := "defined"

  // ---------------------------------------------------------------------------------------------
  // Meaning in C.

  /** A value of type intmax_t or uintmax_t; there are no other types on #if lines. */
  datatype CInt = CInt(value: int, unsigned: bool)

  const INTMAX_LIMIT: int := 0x8000_0000_0000_0000
  const UINTMAX_LIMIT: int := 0x1_0000_0000_0000_0000

  /** What an integer as written is worth: a suffix with u, or a magnitude beyond intmax_t, makes it unsigned.  Where C
      assigns no type at all, this is what GCC does. */
  function Typed(v: int, unsigned: bool): (r: CInt)
    ensures if r.unsigned then 0 <= r.value < UINTMAX_LIMIT else -INTMAX_LIMIT < r.value < INTMAX_LIMIT
  {
    if unsigned || v >= INTMAX_LIMIT || v <= -INTMAX_LIMIT then CInt(v % UINTMAX_LIMIT, true) else CInt(v, false)
  }

  /** What the compiler will know: which names are macros, and what each name or macro call is worth. */
  datatype Env = Env(defined: Option<string> -> bool, worth: (string, seq<Token>) -> CInt)

  function Truth(b: bool): int {
    if b then 1 else 0
  }

  /** Operands of a comparison are converted to uintmax_t if one of them has that type. */
  function Compares(op: BinOp, a: CInt, b: CInt): bool {
    var convert := a.unsigned || b.unsigned;
    var x := if convert then a.value % UINTMAX_LIMIT else a.value;
    var y := if convert then b.value % UINTMAX_LIMIT else b.value;
    match op
    case Or => a.value != 0 || b.value != 0
    case And => a.value != 0 && b.value != 0
    case Eq => x == y
    case Ne => x != y
    case Le => x <= y
    case Ge => y <= x
    case Lt => x < y
    case Gt => y < x
  }

  function Meaning(e: Expr, env: Env): CInt {
    match e
    case Numeral(v, u) => Typed(v, u)
    case Defined(arg) => CInt(Truth(env.defined(arg)), false)
    case Name(n, args) => env.worth(n, args)
    case Not(x) => CInt(Truth(Meaning(x, env).value == 0), false)
    case Bin(op, l, r) => CInt(Truth(Compares(op, Meaning(l, env), Meaning(r, env))), false)
  }

  /** The compiler sees the symbols as the command line gives them. */
  ghost predicate Agrees(env: Env, syms: Symbols) {
    forall n: string :: n in syms ==>
      && env.defined(Some(n)) == !syms[n].Undef?
      && forall args: seq<Token> :: WorthAgrees(env, syms[n], n, args)
  }

  ghost predicate WorthAgrees(env: Env, k: Known, n: string, args: seq<Token>) {
    (k.Undef? ==> env.worth(n, args) == CInt(0, false)) && (k.Value? ==> env.worth(n, args) == Typed(k.value, false))
  }

  // ---------------------------------------------------------------------------------------------
  // Grammar.

  function Level(op: BinOp): (r: nat)
    ensures r < 4
  {
    match op
    case Or => 0
    case And => 1
    case Eq | Ne => 2
    case _ => 3
  }

  /** The position after the parenthesis that closes the one at `i`, `depth` others being open. */
  function AfterClose(ts: seq<Token>, i: nat, depth: nat): (r: Option<nat>)
    requires i < |ts| && (depth == 0 ==> ts[i] == Open)
    ensures r.Some? ==> i < r.value <= |ts|
    decreases |ts| - i
  {
    var d := if ts[i] == Open then depth + 1 else if ts[i] == Close then depth - 1 else depth;
    if d == 0 then Some(i + 1) else if i + 1 == |ts| then None else AfterClose(ts, i + 1, d)
  }

  /** Macro arguments are skipped if they are closed. */
  function SkipArgs(ts: seq<Token>, i: nat): (r: nat)
    requires i <= |ts|
    ensures i <= r <= |ts|
  {
    if i == |ts| || ts[i] != Open then i
    else
      var r := AfterClose(ts, i, 0);
      if r.Some? then r.value else i
  }

  /** An expression and the position after it. */
  datatype Parsed = Parsed(e: Expr, end: nat)

  predicate TokenAt(ts: seq<Token>, i: nat, t: Token) {
    i < |ts| && ts[i] == t
  }

  /** The operand of `defined`: one run of letters and digits, which may be missing. */
  function ParseDefined(ts: seq<Token>, i: nat): (r: Option<Parsed>)
    requires i <= |ts|
    ensures r.Some? ==> i <= r.value.end <= |ts|
  {
    var paren := TokenAt(ts, i, Open);
    var j := if paren then i + 1 else i;
    var e := Defined(if j < |ts| && ts[j].Word? then Some(ts[j].name) else None);
    var k := if j < |ts| && (ts[j].Word? || ts[j].Num?) then j + 1 else j;
    if !paren then Some(Parsed(e, k))
    else if TokenAt(ts, k, Close) then Some(Parsed(e, k + 1))
    else None
  }

  function ParseName(syms: Symbols, n: string, ts: seq<Token>, i: nat): (r: Parsed)
    requires i <= |ts|
    ensures i <= r.end <= |ts|
  {
    if n in syms && !syms[n].Value? then Parsed(Name(n, []), i)
    else Parsed(Name(n, ts[i..SkipArgs(ts, i)]), SkipArgs(ts, i))
  }

  function ParseUnary(syms: Symbols, ts: seq<Token>, i: nat): (r: Option<Parsed>)
    requires i <= |ts|
    ensures r.Some? ==> i < r.value.end <= |ts|
    decreases |ts| - i, 0
  {
    if i == |ts| then None
    else match ts[i]
      case Bang =>
        var r := ParseUnary(syms, ts, i + 1);
        if r.None? then None else Some(Parsed(Not(r.value.e), r.value.end))
      case Open =>
        var r := ParseLevel(syms, 0, ts, i + 1);
        if r.None? || !TokenAt(ts, r.value.end, Close) then None
        else Some(Parsed(r.value.e, r.value.end + 1))
      case Num(v, u) => Some(Parsed(Numeral(v, u), i + 1))
      case Word(n) => if n == DEFINED then ParseDefined(ts, i + 1) else Some(ParseName(syms, n, ts, i + 1))
      case _ => None
  }

  function ParseLevel(syms: Symbols, level: nat, ts: seq<Token>, i: nat): (r: Option<Parsed>)
    requires level <= 4 && i <= |ts|
    ensures r.Some? ==> i < r.value.end <= |ts|
    decreases |ts| - i, 6 - level
  {
    if level == 4 then ParseUnary(syms, ts, i)
    else
      var first := ParseLevel(syms, level + 1, ts, i);
      if first.None? then None else ParseLoop(syms, level, first.value.e, ts, first.value.end)
  }

  predicate OperAt(ts: seq<Token>, i: nat, level: nat) {
    i < |ts| && ts[i].Oper? && Level(ts[i].op) == level
  }

  /** Operators of one level group to the left. */
  function ParseLoop(syms: Symbols, level: nat, lhs: Expr, ts: seq<Token>, i: nat): (r: Option<Parsed>)
    requires level < 4 && i <= |ts|
    ensures r.Some? ==> i <= r.value.end <= |ts|
    decreases |ts| - i, 6
  {
    if OperAt(ts, i, level) then
      var rhs := ParseLevel(syms, level + 1, ts, i + 1);
      if rhs.None? then None else ParseLoop(syms, level, Bin(ts[i].op, lhs, rhs.value.e), ts, rhs.value.end)
    else Some(Parsed(lhs, i))
  }

  // ---------------------------------------------------------------------------------------------
  // Printing with the fewest parentheses; the parser undoes it.

  function LevelOf(e: Expr): nat {
    if e.Bin? then Level(e.op) else 4
  }

  function Print(e: Expr, level: nat): (r: seq<Token>)
    requires level <= 4
    decreases e, if LevelOf(e) < level then 1 else 0
  {
    if LevelOf(e) < level then [Open] + Print(e, 0) + [Close]
    else match e
      case Numeral(v, u) => [Num(v, u)]
      case Defined(arg) => if arg.Some? then [Word(DEFINED), Word(arg.value)] else [Word(DEFINED)]
      case Name(n, args) => [Word(n)] + args
      case Not(x) => [Bang] + Print(x, 4)
      case Bin(op, l, r) => Print(l, Level(op)) + [Oper(op)] + Print(r, Level(op) + 1)
  }

  /** Arguments, if any, are one balanced group. */
  ghost predicate Group(args: seq<Token>) {
    args == [] || (args[0] == Open && AfterClose(args, 0, 0) == Some(|args|))
  }

  ghost predicate Printable(e: Expr, syms: Symbols) {
    match e
    case Numeral(_, _) => true
    case Defined(arg) => arg.Some?
    case Name(n, args) => n != DEFINED && Group(args) && (n in syms && !syms[n].Value? ==> args == [])
    case Not(x) => Printable(x, syms)
    case Bin(op, l, r) => Printable(l, syms) && Printable(r, syms)
  }

  /** What follows does not continue an expression of this level. */
  predicate Stops(level: nat, ts: seq<Token>, i: nat) {
    i >= |ts| || (ts[i] != Open && !(ts[i].Oper? && Level(ts[i].op) >= level))
  }

  /** `p` stands in `ts` at position `i`. */
  ghost predicate Stands(ts: seq<Token>, i: nat, p: seq<Token>) {
    i + |p| <= |ts| && ts[i..i + |p|] == p
  }

  lemma StandsSplit(ts: seq<Token>, i: nat, p: seq<Token>, q: seq<Token>)
    requires Stands(ts, i, p + q)
    ensures Stands(ts, i, p) && Stands(ts, i + |p|, q)
  {
    var w := ts[i..i + |p + q|];
    assert ts[i..i + |p|] == w[..|p|] && ts[i + |p|..i + |p| + |q|] == w[|p|..];
  }

  lemma StandsOne(ts: seq<Token>, i: nat, t: Token)
    requires Stands(ts, i, [t])
    ensures i < |ts| && ts[i] == t
  {
    assert ts[i] == ts[i..i + 1][0];
  }

  lemma {:induction false} GroupStands(args: seq<Token>, k: nat, depth: nat, ts: seq<Token>, i: nat)
    requires k < |args| && (depth == 0 ==> args[k] == Open) && AfterClose(args, k, depth) == Some(|args|)
    requires Stands(ts, i, args)
    ensures ts[i + k] == args[k] && AfterClose(ts, i + k, depth) == Some(i + |args|)
    decreases |args| - k
  {
    assert ts[i + k] == ts[i..i + |args|][k];
    var d := if args[k] == Open then depth + 1 else if args[k] == Close then depth - 1 else depth;
    if d != 0 {
      GroupStands(args, k + 1, d, ts, i);
    }
  }

  lemma ArgsStand(args: seq<Token>, ts: seq<Token>, i: nat)
    requires Group(args) && Stands(ts, i, args) && Stops(4, ts, i + |args|)
    ensures SkipArgs(ts, i) == i + |args|
  {
    if args != [] {
      GroupStands(args, 0, 0, ts, i);
    }
  }

  /** An expression read at one level is read the same at every looser level. */
  lemma {:induction false} Descend(syms: Symbols, level: nat, tight: nat, ts: seq<Token>, i: nat)
    requires i <= |ts| && level <= tight <= 4 && ParseLevel(syms, tight, ts, i).Some?
    requires Stops(level, ts, ParseLevel(syms, tight, ts, i).value.end)
    ensures ParseLevel(syms, level, ts, i) == ParseLevel(syms, tight, ts, i)
    decreases tight - level
  {
    hide ParseUnary;
    if level < tight {
      Descend(syms, level + 1, tight, ts, i);
    }
  }

  /** An expression printed for some level is read back, whatever stands after it. */
  lemma {:induction false} PrintThenParse(syms: Symbols, e: Expr, level: nat, ts: seq<Token>, i: nat)
    requires level <= 4 && Printable(e, syms) && Stands(ts, i, Print(e, level)) && Stops(level, ts, i + |Print(e, level)|)
    ensures ParseLevel(syms, level, ts, i) == Some(Parsed(e, i + |Print(e, level)|))
    decreases e, if LevelOf(e) < level then 1 else 0, if LevelOf(e) < level then 1 else LevelOf(e) - level + 1
  {
    hide ParseUnary, ParseLoop, Print, Printable;
    if LevelOf(e) < level {
      ParensThenParse(syms, e, level, ts, i);
      Descend(syms, level, 4, ts, i);
    } else if e.Bin? {
      if level < Level(e.op) {
        SameAtNext(e, level);
        PrintThenParse(syms, e, level + 1, ts, i);
        Descend(syms, level, level + 1, ts, i);
      } else {
        PrintThenLoop(syms, e, ts, i);
        LoopStops(syms, level, e, ts, i + |Print(e, level)|);
      }
    } else {
      SameForUnary(e, level);
      UnaryThenParse(syms, e, ts, i);
      Descend(syms, level, 4, ts, i);
    }
  }

  lemma LoopStops(syms: Symbols, level: nat, lhs: Expr, ts: seq<Token>, i: nat)
    requires level < 4 && i <= |ts| && Stops(level, ts, i)
    ensures ParseLoop(syms, level, lhs, ts, i) == Some(Parsed(lhs, i))
  {
    hide ParseLevel;
  }

  lemma LoopGoesOn(syms: Symbols, level: nat, lhs: Expr, ts: seq<Token>, i: nat, rhs: Parsed)
    requires level < 4 && i < |ts| && OperAt(ts, i, level) && ParseLevel(syms, level + 1, ts, i + 1) == Some(rhs)
    ensures ParseLoop(syms, level, lhs, ts, i) == ParseLoop(syms, level, Bin(ts[i].op, lhs, rhs.e), ts, rhs.end)
  {
    hide ParseLevel;
  }

  lemma {:induction false} ParensThenParse(syms: Symbols, e: Expr, level: nat, ts: seq<Token>, i: nat)
    requires LevelOf(e) < level <= 4 && Printable(e, syms) && Stands(ts, i, Print(e, level))
    ensures ParseUnary(syms, ts, i) == Some(Parsed(e, i + |Print(e, level)|))
    decreases e, 1, 0
  {
    var p := Print(e, 0);
    StandsSplit(ts, i, [Open] + p, [Close]);
    StandsSplit(ts, i, [Open], p);
    StandsOne(ts, i, Open);
    StandsOne(ts, i + 1 + |p|, Close);
    PrintThenParse(syms, e, 0, ts, i + 1);
  }

  lemma {:induction false} UnaryThenParse(syms: Symbols, e: Expr, ts: seq<Token>, i: nat)
    requires !e.Bin? && Printable(e, syms) && Stands(ts, i, Print(e, 4)) && Stops(4, ts, i + |Print(e, 4)|)
    ensures ParseUnary(syms, ts, i) == Some(Parsed(e, i + |Print(e, 4)|))
    decreases e, 0, 0
  {
    hide ParseLoop;
    match e
    case Numeral(v, u) =>
      StandsOne(ts, i, Num(v, u));
    case Defined(arg) =>
      DefinedThenParse(syms, e, ts, i);
    case Name(n, args) =>
      NameThenParse(syms, e, ts, i);
    case Not(x) =>
      StandsSplit(ts, i, [Bang], Print(x, 4));
      StandsOne(ts, i, Bang);
      PrintThenParse(syms, x, 4, ts, i + 1);
  }

  lemma DefinedThenParse(syms: Symbols, e: Expr, ts: seq<Token>, i: nat)
    requires e.Defined? && Printable(e, syms) && Stands(ts, i, Print(e, 4))
    ensures ParseUnary(syms, ts, i) == Some(Parsed(e, i + |Print(e, 4)|))
  {
    hide ParseLevel;
    var n := e.arg.value;
    assert Print(e, 4) == [Word(DEFINED)] + [Word(n)];
    StandsSplit(ts, i, [Word(DEFINED)], [Word(n)]);
    StandsOne(ts, i, Word(DEFINED));
    StandsOne(ts, i + 1, Word(n));
  }

  lemma NameThenParse(syms: Symbols, e: Expr, ts: seq<Token>, i: nat)
    requires e.Name? && Printable(e, syms) && Stands(ts, i, Print(e, 4)) && Stops(4, ts, i + |Print(e, 4)|)
    ensures ParseUnary(syms, ts, i) == Some(Parsed(e, i + |Print(e, 4)|))
  {
    hide ParseLevel, SkipArgs;
    StandsSplit(ts, i, [Word(e.name)], e.args);
    StandsOne(ts, i, Word(e.name));
    ArgsStand(e.args, ts, i + 1);
  }

  /** The loop of a level goes on as if the printed left operand had just been read. */
  lemma {:induction false} PrintThenLoop(syms: Symbols, e: Expr, ts: seq<Token>, i: nat)
    requires e.Bin? && Printable(e, syms) && Stands(ts, i, Print(e, Level(e.op)))
    requires Stops(Level(e.op) + 1, ts, i + |Print(e, Level(e.op))|)
    ensures ParseLevel(syms, Level(e.op), ts, i) == ParseLoop(syms, Level(e.op), e, ts, i + |Print(e, Level(e.op))|)
    decreases e, 0, 0
  {
    hide ParseUnary, ParseLoop, Stands;
    var k := Level(e.op);
    var p, q := Print(e.l, k), Print(e.r, k + 1);
    StandsSplit(ts, i, p + [Oper(e.op)], q);
    StandsSplit(ts, i, p, [Oper(e.op)]);
    StandsOne(ts, i + |p|, Oper(e.op));
    if LevelOf(e.l) == k {
      PrintThenLoop(syms, e.l, ts, i);
    } else {
      SameAtNext(e.l, k);
      PrintThenParse(syms, e.l, k + 1, ts, i);
    }
    PrintThenParse(syms, e.r, k + 1, ts, i + |p| + 1);
    LoopGoesOn(syms, k, e.l, ts, i + |p|, Parsed(e.r, i + |p| + 1 + |q|));
  }

  /** The second operator binds tighter than the first in C: section 6.5 of the C standard. */
  predicate Tighter(first: BinOp, second: BinOp) {
    match first
    case Or => !second.Or?
    case And => !second.Or? && !second.And?
    case Eq | Ne => second.Le? || second.Ge? || second.Lt? || second.Gt?
    case _ => false
  }

  /** Three operands are grouped as in C, the first two together unless the second operator binds tighter. */
  lemma GroupedAsInC(syms: Symbols, x: nat, y: nat, z: nat, first: BinOp, second: BinOp)
    ensures var a, b, c := Numeral(x, false), Numeral(y, false), Numeral(z, false);
      ParseLevel(syms, 0, [Num(x, false), Oper(first), Num(y, false), Oper(second), Num(z, false)], 0) ==
      Some(Parsed(if Tighter(first, second) then Bin(first, a, Bin(second, b, c)) else Bin(second, Bin(first, a, b), c), 5))
  {
    hide ParseLevel;
    var a, b, c := Numeral(x, false), Numeral(y, false), Numeral(z, false);
    var ts := [Num(x, false), Oper(first), Num(y, false), Oper(second), Num(z, false)];
    var e := if Tighter(first, second) then Bin(first, a, Bin(second, b, c)) else Bin(second, Bin(first, a, b), c);
    PrintedFlat(a, b, c, first, second);
    assert Print(e, 0) == ts && Stands(ts, 0, ts);
    assert Printable(Bin(first, a, b), syms) && Printable(Bin(second, b, c), syms);
    PrintThenParse(syms, e, 0, ts, 0);
  }

  lemma PrintedFlat(a: Expr, b: Expr, c: Expr, first: BinOp, second: BinOp)
    requires a.Numeral? && b.Numeral? && c.Numeral?
    ensures var e := if Tighter(first, second) then Bin(first, a, Bin(second, b, c)) else Bin(second, Bin(first, a, b), c);
      Print(e, 0) == [Num(a.v, a.unsigned), Oper(first), Num(b.v, b.unsigned), Oper(second), Num(c.v, c.unsigned)]
  {
    assert forall l: nat :: l <= 4 ==> Print(a, l) == [Num(a.v, a.unsigned)];
    assert forall l: nat :: l <= 4 ==> Print(b, l) == [Num(b.v, b.unsigned)];
    assert forall l: nat :: l <= 4 ==> Print(c, l) == [Num(c.v, c.unsigned)];
    if Tighter(first, second) {
      var r := Bin(second, b, c);
      assert Print(r, Level(first) + 1) == Print(b, Level(second)) + [Oper(second)] + Print(c, Level(second) + 1);
      assert Print(Bin(first, a, r), 0) == Print(a, Level(first)) + [Oper(first)] + Print(r, Level(first) + 1);
    } else {
      var l := Bin(first, a, b);
      assert Print(l, Level(second)) == Print(a, Level(first)) + [Oper(first)] + Print(b, Level(first) + 1);
      assert Print(Bin(second, l, c), 0) == Print(l, Level(second)) + [Oper(second)] + Print(c, Level(second) + 1);
    }
  }

  /** `defined` takes its operand in parentheses too. */
  lemma DefinedInParens(syms: Symbols, n: string, ts: seq<Token>, i: nat)
    requires Stands(ts, i, [Word(DEFINED), Open, Word(n), Close])
    ensures ParseUnary(syms, ts, i) == Some(Parsed(Defined(Some(n)), i + 4))
  {
    var p := [Word(DEFINED), Open, Word(n), Close];
    assert forall k :: 0 <= k < 4 ==> ts[i + k] == ts[i..i + 4][k] == p[k];
    assert ts[i] == p[0] && ts[i + 1] == p[1] && ts[i + 2] == p[2] && ts[i + 3] == p[3];
  }

  /** How many more parentheses are opened than closed from `i` up to `j`. */
  function Excess(ts: seq<Token>, i: nat, j: nat): int
    requires i <= j <= |ts|
    decreases j
  {
    if i == j then 0
    else Excess(ts, i, j - 1) + (if ts[j - 1] == Open then 1 else if ts[j - 1] == Close then -1 else 0)
  }

  /** Up to every place before `j`, a parenthesis of the first `depth` or of those after `i` is still open. */
  ghost predicate OpenUntil(ts: seq<Token>, i: nat, j: nat, depth: int)
    requires j <= |ts|
  {
    forall k :: i < k < j ==> depth + Excess(ts, i, k) > 0
  }

  lemma {:induction false} ExcessFrom(ts: seq<Token>, i: nat, j: nat)
    requires i < j <= |ts|
    ensures Excess(ts, i, j) == Excess(ts, i, i + 1) + Excess(ts, i + 1, j)
    decreases j
  {
    if j > i + 1 {
      ExcessFrom(ts, i, j - 1);
    }
  }

  /** The parenthesis that closes the first one is where, for the first time, as many are closed as opened. */
  lemma {:induction false} ClosesExactly(ts: seq<Token>, i: nat, depth: nat)
    requires i < |ts| && (depth == 0 ==> ts[i] == Open)
    ensures match AfterClose(ts, i, depth)
      case Some(j) => depth + Excess(ts, i, j) == 0 && OpenUntil(ts, i, j, depth)
      case None => OpenUntil(ts, i, |ts|, depth) && depth + Excess(ts, i, |ts|) > 0
    decreases |ts| - i
  {
    var d := depth + Excess(ts, i, i + 1);
    if d != 0 && i + 1 < |ts| {
      ClosesExactly(ts, i + 1, d);
      var r := AfterClose(ts, i + 1, d);
      var end := if r.Some? then r.value else |ts|;
      ExcessFrom(ts, i, end);
      forall k | i < k < end ensures depth + Excess(ts, i, k) > 0 {
        ExcessFrom(ts, i, k);
      }
    }
  }

  lemma SameAtNext(e: Expr, level: nat)
    requires level < 4 && LevelOf(e) != level
    ensures Print(e, level) == Print(e, level + 1)
  {
  }

  lemma SameForUnary(e: Expr, level: nat)
    requires level <= 4 && !e.Bin?
    ensures Print(e, level) == Print(e, 4)
  {
  }

  // ---------------------------------------------------------------------------------------------
  // The evaluator.

  /** Verdicts on a condition: it depends on an unknown symbol, it holds, it does not, it makes no sense. */
  datatype Verdict = Unsure | Yes | No | Error

  const INT_LIMIT: int := 0x8000_0000
  const LONG_LIMIT: int := 0x8000_0000_0000_0000

  /** strtol clamps to a long; the assignment to an int keeps the low 32 bits. */
  function Truncate(v: int): (r: int)
    ensures -INT_LIMIT <= r < INT_LIMIT
    ensures -INT_LIMIT <= v < INT_LIMIT ==> r == v
  {
    var l := if v >= LONG_LIMIT then LONG_LIMIT - 1 else if v < -LONG_LIMIT then -LONG_LIMIT else v;
    (l + INT_LIMIT) % (2 * INT_LIMIT) - INT_LIMIT
  }

  function Verdict01(v: int): Verdict {
    if v != 0 then Yes else No
  }

  datatype Result = Result(lt: Verdict, val: int)

  function Decided(v: int): Result {
    Result(Verdict01(v), v)
  }

  const UNSURE := Result(Unsure, 0)

  /** The operators on int. */
  function Compare(op: BinOp, a: int, b: int): bool {
    match op
    case Or => a != 0 || b != 0
    case And => a != 0 && b != 0
    case Eq => a == b
    case Ne => a != b
    case Le => a <= b
    case Ge => a >= b
    case Lt => a < b
    case Gt => a > b
  }

  /** op_or, op_and and the comparisons. */
  function Apply(strict: bool, op: BinOp, a: Result, b: Result): Result {
    if op == Or && !strict && (a.lt == Yes || b.lt == Yes) then Decided(1)
    else if op == And && !strict && (a.lt == No || b.lt == No) then Decided(0)
    else if a.lt == Unsure || b.lt == Unsure then UNSURE
    else Decided(Truth(Compare(op, a.val, b.val)))
  }

  function Eval(syms: Symbols, strict: bool, e: Expr): Result {
    match e
    case Numeral(v, _) => Decided(Truncate(v))
    case Defined(arg) =>
      if arg.Some? && arg.value in syms then Decided(Truth(!syms[arg.value].Undef?)) else UNSURE
    case Name(n, _) =>
      if n !in syms then UNSURE
      else (match syms[n]
            case Undef => Decided(0)
            case Value(v) => Decided(Truncate(v))
            case Text => Result(Error, 0))
    case Not(x) =>
      var r := Eval(syms, strict, x);
      if r.lt == Yes || r.lt == No then Decided(Truth(r.val == 0)) else r
    case Bin(op, l, r) =>
      var a, b := Eval(syms, strict, l), Eval(syms, strict, r);
      if a.lt == Error || b.lt == Error then Result(Error, 0) else Apply(strict, op, a, b)
  }

  // ---------------------------------------------------------------------------------------------
  // Which numbers the evaluator may meet.

  /** An integer as written, with or without a suffix. */
  datatype Written = Written(value: int, unsigned: bool) {
    /** What the compiler takes it for, and what the evaluator reads. */
    function Worth(): CInt {
      Typed(value, unsigned)
    }

    function Read(): int {
      Truncate(value)
    }
  }

  /** Numerals, and names used for their value. */
  datatype Vocabulary = Vocabulary(nums: iset<Written>, names: iset<string>)

  ghost predicate Over(e: Expr, voc: Vocabulary) {
    match e
    case Numeral(v, u) => Written(v, u) in voc.nums
    case Defined(_) => true
    case Name(n, _) => n in voc.names
    case Not(x) => Over(x, voc)
    case Bin(_, l, r) => Over(l, voc) && Over(r, voc)
  }

  /** The command line gives the value to a name of the vocabulary. */
  ghost predicate Named(syms: Symbols, voc: Vocabulary, v: int) {
    exists n :: n in voc.names && n in syms && syms[n] == Value(v)
  }

  predicate Bool(n: Written) {
    n == Written(0, false) || n == Written(1, false)
  }

  /** The numbers that an expression over the vocabulary may meet: truth values, numerals and values of names. */
  ghost predicate Reaches(syms: Symbols, voc: Vocabulary, n: Written) {
    Bool(n) || (n.value >= 0 && n in voc.nums) || (!n.unsigned && Named(syms, voc, n.value))
  }

  /** Reading numbers into an int keeps them, and truth values, in their order. */
  ghost predicate Ordered(syms: Symbols, voc: Vocabulary) {
    forall m, n :: Reaches(syms, voc, m) && Reaches(syms, voc, n) ==>
      && (m.Worth().value < n.Worth().value ==> m.Read() < n.Read())
      && (m.Worth().value == n.Worth().value ==> m.Read() == n.Read())
  }

  /** A negative number may be compared with an unsigned one. */
  ghost predicate Mixed(syms: Symbols, voc: Vocabulary) {
    exists m, n :: Reaches(syms, voc, m) && Reaches(syms, voc, n) && m.Worth().value < 0 && n.Worth().unsigned
  }

  ghost predicate Readable(syms: Symbols, voc: Vocabulary) {
    Ordered(syms, voc) && !Mixed(syms, voc)
  }

  /** The numbers compare differently as read and as the compiler takes them. */
  predicate Clash(m: Written, n: Written) {
    (m.Read() < n.Read()) != Compares(Lt, m.Worth(), n.Worth())
  }

  lemma BoolIsItself(n: Written)
    requires Bool(n)
    ensures n.Read() == n.value && n.Worth() == CInt(n.value, false)
  {
  }

  lemma ComparedAlike(syms: Symbols, voc: Vocabulary, op: BinOp, m: Written, n: Written)
    requires Readable(syms, voc) && Reaches(syms, voc, m) && Reaches(syms, voc, n)
    ensures Compare(op, m.Read(), n.Read()) == Compares(op, m.Worth(), n.Worth())
    ensures m.Read() == 0 <==> m.Worth().value == 0
  {
    hide Written.Read, Written.Worth, Reaches, Compares;
    var zero := Written(0, false);
    ZeroReached(syms, voc);
    BoolIsItself(zero);
    assert Alike(m, n) && Alike(n, m) && Alike(m, zero) && Alike(zero, m) && Alike(n, zero) && Alike(zero, n);
    WorthInRange(m);
    WorthInRange(n);
    assert m.Worth().unsigned || n.Worth().unsigned ==> m.Worth().value >= 0 && n.Worth().value >= 0;
    NotConverted(op, m.Worth(), n.Worth());
  }

  predicate Alike(m: Written, n: Written) {
    && (m.Worth().value < n.Worth().value ==> m.Read() < n.Read())
    && (m.Worth().value == n.Worth().value ==> m.Read() == n.Read())
  }

  lemma ZeroReached(syms: Symbols, voc: Vocabulary)
    ensures Reaches(syms, voc, Written(0, false))
  {
  }

  lemma WorthInRange(n: Written)
    ensures var c := n.Worth(); -INTMAX_LIMIT < c.value < UINTMAX_LIMIT && (c.unsigned ==> c.value >= 0)
    ensures var c := n.Worth(); !c.unsigned ==> c.value < INTMAX_LIMIT
  {
  }

  lemma NotConverted(op: BinOp, a: CInt, b: CInt)
    requires a.value < UINTMAX_LIMIT && b.value < UINTMAX_LIMIT
    requires a.unsigned || b.unsigned ==> a.value >= 0 && b.value >= 0
    ensures Compares(op, a, b) == Compare(op, a.value, b.value)
  {
  }

  /** The verdict is not wrong. */
  ghost predicate Right(syms: Symbols, strict: bool, e: Expr, env: Env) {
    && (Eval(syms, strict, e).lt == Yes ==> Meaning(e, env).value != 0)
    && (Eval(syms, strict, e).lt == No ==> Meaning(e, env).value == 0)
  }

  /** A reachable number is read as `val` and taken for `c`. */
  ghost predicate Stems(syms: Symbols, voc: Vocabulary, val: int, c: CInt) {
    exists n :: Reaches(syms, voc, n) && n.Read() == val && n.Worth() == c
  }

  lemma StemsFromTruth(syms: Symbols, voc: Vocabulary, b: bool)
    ensures Stems(syms, voc, Truth(b), CInt(Truth(b), false))
  {
    BoolIsItself(Written(Truth(b), false));
    assert Reaches(syms, voc, Written(Truth(b), false));
  }

  lemma StemsFrom(syms: Symbols, voc: Vocabulary, n: Written)
    requires Readable(syms, voc) && Reaches(syms, voc, n)
    ensures Stems(syms, voc, n.Read(), n.Worth()) && (n.Read() == 0 <==> n.Worth().value == 0)
  {
    hide Written.Read, Written.Worth, Readable;
    ComparedAlike(syms, voc, Eq, n, n);
  }

  lemma StemsAlike(syms: Symbols, voc: Vocabulary, op: BinOp, a: int, c: CInt, b: int, d: CInt)
    requires Readable(syms, voc) && Stems(syms, voc, a, c) && Stems(syms, voc, b, d)
    ensures Compare(op, a, b) == Compares(op, c, d) && (a == 0 <==> c.value == 0)
  {
    hide Written.Read, Written.Worth, Readable, Reaches;
    var m :| Reaches(syms, voc, m) && m.Read() == a && m.Worth() == c;
    var n :| Reaches(syms, voc, n) && n.Read() == b && n.Worth() == d;
    ComparedAlike(syms, voc, op, m, n);
  }

  /** A verdict of yes or no is right for every compiler that agrees with the command line, in both logics. */
  lemma {:induction false} Sound(syms: Symbols, voc: Vocabulary, strict: bool, e: Expr, env: Env)
    requires Agrees(env, syms) && Over(e, voc) && Readable(syms, voc)
    ensures Right(syms, strict, e, env)
    ensures Eval(syms, strict, e).lt in {Yes, No} ==> Stems(syms, voc, Eval(syms, strict, e).val, Meaning(e, env))
  {
    hide Readable, Truncate, Typed, Stems, Compares, Compare;
    match e
    case Numeral(v, u) =>
      StemsFrom(syms, voc, Written(v, u));
    case Defined(arg) =>
      StemsFromTruth(syms, voc, env.defined(arg));
    case Name(n, args) =>
      if n in syms {
        assert WorthAgrees(env, syms[n], n, args);
        StemsFromTruth(syms, voc, false);
        if syms[n].Value? {
          assert Named(syms, voc, syms[n].value);
          StemsFrom(syms, voc, Written(syms[n].value, false));
        }
      }
    case Not(x) =>
      Sound(syms, voc, strict, x, env);
      StemsFromTruth(syms, voc, Meaning(x, env).value == 0);
    case Bin(op, l, r) =>
      Sound(syms, voc, strict, l, env);
      Sound(syms, voc, strict, r, env);
      BinSound(syms, voc, strict, op, Eval(syms, strict, l), Meaning(l, env), Eval(syms, strict, r), Meaning(r, env));
  }

  lemma BinSound(syms: Symbols, voc: Vocabulary, strict: bool, op: BinOp, a: Result, c: CInt, b: Result, d: CInt)
    requires Readable(syms, voc)
    requires a.lt == Yes ==> c.value != 0
    requires a.lt == No ==> c.value == 0
    requires b.lt == Yes ==> d.value != 0
    requires b.lt == No ==> d.value == 0
    requires a.lt in {Yes, No} ==> Stems(syms, voc, a.val, c)
    requires b.lt in {Yes, No} ==> Stems(syms, voc, b.val, d)
    ensures var r, m := Apply(strict, op, a, b), CInt(Truth(Compares(op, c, d)), false);
      a.lt != Error && b.lt != Error && r.lt in {Yes, No} ==> r == Decided(m.value) && Stems(syms, voc, r.val, m)
  {
    hide Readable, Stems;
    StemsFromTruth(syms, voc, Compares(op, c, d));
    if a.lt in {Yes, No} && b.lt in {Yes, No} {
      StemsAlike(syms, voc, op, a.val, c, b.val, d);
    }
  }

  // ---------------------------------------------------------------------------------------------
  // Nothing less will do: numbers that are not readable make a condition that is decided wrongly.

  /** Not being readable shows in one pair. */
  lemma ClashExists(syms: Symbols, voc: Vocabulary) returns (m: Written, n: Written)
    requires !Readable(syms, voc)
    ensures Reaches(syms, voc, m) && Reaches(syms, voc, n) && Clash(m, n)
  {
    hide Reaches, Clash;
    if Mixed(syms, voc) {
      var a, u :| Reaches(syms, voc, a) && Reaches(syms, voc, u) && a.Worth().value < 0 && u.Worth().unsigned;
      var zero := Written(0, false);
      ZeroReached(syms, voc);
      SuffixedIsNumeral(syms, voc, u);
      MixedClash(a, u);
      if Clash(a, zero) {
        return a, zero;
      } else if Clash(zero, u) {
        return zero, u;
      } else if Clash(u, zero) {
        return u, zero;
      }
      return a, u;
    }
    m, n :| Reaches(syms, voc, m) && Reaches(syms, voc, n) && !Alike(m, n);
    UnlikeClash(m, n);
    if !Clash(m, n) {
      m, n := n, m;
    }
  }

  lemma SuffixedIsNumeral(syms: Symbols, voc: Vocabulary, u: Written)
    requires Reaches(syms, voc, u)
    ensures u.unsigned ==> u.value >= 0
  {
  }

  lemma UnlikeClash(m: Written, n: Written)
    requires !Alike(m, n)
    requires !(m.Worth().value < 0 && n.Worth().unsigned) && !(n.Worth().value < 0 && m.Worth().unsigned)
    ensures Clash(m, n) || Clash(n, m)
  {
    hide Written.Read, Written.Worth, Compares;
    WorthInRange(m);
    WorthInRange(n);
    NotConverted(Lt, m.Worth(), n.Worth());
    NotConverted(Lt, n.Worth(), m.Worth());
  }

  /** A negative number is below an unsigned one as they are read, but above it once it is converted, unless one of the two
      is misread already. */
  lemma MixedClash(a: Written, u: Written)
    requires a.Worth().value < 0 && u.Worth().unsigned && (u.unsigned ==> u.value >= 0)
    ensures var zero := Written(0, false); Clash(a, zero) || Clash(zero, u) || Clash(u, zero) || Clash(a, u)
  {
    hide Written.Read, Written.Worth;
    var zero := Written(0, false);
    BoolIsItself(zero);
    WorthInRange(a);
    WorthInRange(u);
    LargeIsMisread(u);
  }

  lemma LargeIsMisread(u: Written)
    requires u.unsigned ==> u.value >= 0
    ensures u.Worth().value >= INTMAX_LIMIT ==> u.Read() <= 0
  {
  }

  /** An expression for a number: a numeral, a name, or a truth value made of `x`. */
  ghost function For(syms: Symbols, voc: Vocabulary, n: Written, x: Expr): Expr
    requires Reaches(syms, voc, n)
  {
    if n.value >= 0 && n in voc.nums then Numeral(n.value, n.unsigned)
    else if Named(syms, voc, n.value) && !n.unsigned then
      var name :| name in voc.names && name in syms && syms[name] == Value(n.value);
      Name(name, [])
    else if n.value == 1 then Bin(Eq, x, x)
    else Not(Bin(Eq, x, x))
  }

  lemma ForIsRead(syms: Symbols, voc: Vocabulary, strict: bool, n: Written, x: Expr, w: int)
    requires Reaches(syms, voc, n) && Eval(syms, strict, x) == Decided(w) && Over(x, voc)
    ensures Eval(syms, strict, For(syms, voc, n, x)) == Decided(n.Read()) && Over(For(syms, voc, n, x), voc)
    ensures Printable(x, syms) && DEFINED !in voc.names ==> Printable(For(syms, voc, n, x), syms)
  {
    var same := Bin(Eq, x, x);
    assert Eval(syms, strict, same) == Decided(1);
    assert Over(same, voc);
  }

  lemma ForMeans(syms: Symbols, voc: Vocabulary, n: Written, x: Expr, env: Env)
    requires Reaches(syms, voc, n) && Agrees(env, syms)
    ensures Meaning(For(syms, voc, n, x), env) == n.Worth()
  {
    var e := For(syms, voc, n, x);
    if e.Name? {
      assert WorthAgrees(env, syms[e.name], e.name, e.args);
    }
  }

  /** A condition that holds and is decided as false. */
  ghost function Misread(syms: Symbols, voc: Vocabulary, m: Written, n: Written): Expr
    requires Reaches(syms, voc, m) && Reaches(syms, voc, n)
  {
    var x := For(syms, voc, if Bool(m) then n else m, Numeral(0, false));
    var less := Bin(Lt, For(syms, voc, m, x), For(syms, voc, n, x));
    if Compares(Lt, m.Worth(), n.Worth()) then less else Not(less)
  }

  lemma MisreadIsNo(syms: Symbols, voc: Vocabulary, strict: bool, m: Written, n: Written)
    requires Reaches(syms, voc, m) && Reaches(syms, voc, n) && Clash(m, n)
    ensures var e := Misread(syms, voc, m, n);
      Eval(syms, strict, e) == Decided(0) && Over(e, voc) && (DEFINED !in voc.names ==> Printable(e, syms))
  {
    hide For, Reaches, Clash, Bool, Eval, Over, Printable, Written.Read, Written.Worth, Compares;
    BoolsDoNotClash(m, n);
    var c := if Bool(m) then n else m;
    var x := For(syms, voc, c, Numeral(0, false));
    Direct(syms, voc, strict, c);
    ForIsRead(syms, voc, strict, m, x, c.Read());
    ForIsRead(syms, voc, strict, n, x, c.Read());
    LessIsNo(syms, voc, strict, m, n, For(syms, voc, m, x), For(syms, voc, n, x));
  }

  lemma LessIsNo(syms: Symbols, voc: Vocabulary, strict: bool, m: Written, n: Written, l: Expr, r: Expr)
    requires Clash(m, n) && Over(l, voc) && Over(r, voc)
    requires Eval(syms, strict, l) == Decided(m.Read()) && Eval(syms, strict, r) == Decided(n.Read())
    ensures var less := Bin(Lt, l, r);
      var e := if Compares(Lt, m.Worth(), n.Worth()) then less else Not(less);
      && Eval(syms, strict, e) == Decided(0) && Over(e, voc)
      && (Printable(l, syms) && Printable(r, syms) ==> Printable(e, syms))
  {
    hide Written.Read, Written.Worth, Compares;
    var less := Bin(Lt, l, r);
    assert Eval(syms, strict, less) == Decided(Truth(m.Read() < n.Read()));
    assert Over(less, voc);
  }

  lemma BoolsDoNotClash(m: Written, n: Written)
    requires Clash(m, n)
    ensures !Bool(m) || !Bool(n)
  {
  }

  lemma MisreadIsTrue(syms: Symbols, voc: Vocabulary, m: Written, n: Written, env: Env)
    requires Reaches(syms, voc, m) && Reaches(syms, voc, n) && Agrees(env, syms)
    ensures Meaning(Misread(syms, voc, m, n), env) == CInt(1, false)
  {
    hide For, Agrees, Reaches, Written.Worth, Compares;
    var x := For(syms, voc, if Bool(m) then n else m, Numeral(0, false));
    ForMeans(syms, voc, m, x, env);
    ForMeans(syms, voc, n, x, env);
  }

  lemma Direct(syms: Symbols, voc: Vocabulary, strict: bool, c: Written)
    requires Reaches(syms, voc, c) && !Bool(c)
    ensures var x := For(syms, voc, c, Numeral(0, false));
      Eval(syms, strict, x) == Decided(c.Read()) && Over(x, voc) && (DEFINED !in voc.names ==> Printable(x, syms))
  {
  }

  /** A compiler that knows just what the command line says. */
  function EnvOf(syms: Symbols): Env {
    Env((arg: Option<string>) => arg.Some? && arg.value in syms && !syms[arg.value].Undef?,
        (n: string, args: seq<Token>) => Typed(if n in syms && syms[n].Value? then syms[n].value else 0, false))
  }

  lemma EnvOfAgrees(syms: Symbols)
    ensures Agrees(EnvOf(syms), syms)
  {
  }

  /** Every expression over a vocabulary is decided rightly, for every agreeing compiler, if and only if reading its numbers
      into an int keeps their order and no negative number can meet an unsigned one. */
  lemma ReadableExactly(syms: Symbols, voc: Vocabulary, strict: bool)
    ensures Readable(syms, voc) <==>
            forall e: Expr, env: Env :: Over(e, voc) && Agrees(env, syms) ==> Right(syms, strict, e, env)
  {
    hide Readable, Agrees, Over, Eval, Meaning, Reaches, Clash;
    if Readable(syms, voc) {
      forall e: Expr, env: Env | Over(e, voc) && Agrees(env, syms) ensures Right(syms, strict, e, env) {
        Sound(syms, voc, strict, e, env);
      }
    } else {
      var m, n := ClashExists(syms, voc);
      MisreadIsNo(syms, voc, strict, m, n);
      EnvOfAgrees(syms);
      MisreadIsTrue(syms, voc, m, n, EnvOf(syms));
      assert !Right(syms, strict, Misread(syms, voc, m, n), EnvOf(syms));
    }
  }

  predicate Fits(v: int) {
    -INT_LIMIT <= v < INT_LIMIT
  }

  /** All numerals that fit in an int, and all names but those given a value that does not; either without unsigned numerals
      or without negative values. */
  ghost function Fitting(syms: Symbols, unsigned: bool): Vocabulary {
    Vocabulary(iset n: Written | Fits(n.value) && (n.unsigned ==> unsigned),
               iset n: string | n in syms && syms[n].Value? ==> Fits(syms[n].value) && (unsigned ==> syms[n].value >= 0))
  }

  lemma FittingIsReadable(syms: Symbols, unsigned: bool)
    ensures Readable(syms, Fitting(syms, unsigned))
  {
    hide Truncate, Typed;
    forall n | Reaches(syms, Fitting(syms, unsigned), n)
      ensures n.Read() == n.value == n.Worth().value && (n.Worth().unsigned ==> unsigned) && (unsigned ==> n.value >= 0)
    {
      FitsAsItIs(n);
    }
  }

  lemma FitsAsItIs(n: Written)
    requires Fits(n.value) && (n.unsigned ==> n.value >= 0)
    ensures n.Read() == n.value && n.Worth() == CInt(n.value, n.unsigned)
  {
  }

  /** The number fits, or is a negative multiple of 2^64, which compiler and evaluator both take for 0. */
  predicate Plain(v: int) {
    Fits(v) || (v < 0 && v % UINTMAX_LIMIT == 0)
  }

  /** Where each number can also be met as it is read, only numbers that fit will do. */
  lemma ReadableIffFits(syms: Symbols, voc: Vocabulary)
    requires forall n :: Reaches(syms, voc, n) ==> Reaches(syms, voc, Written(n.Read(), false))
    ensures Readable(syms, voc) <==> !Mixed(syms, voc) && forall n :: Reaches(syms, voc, n) ==> Plain(n.value)
  {
    hide Reaches, Written.Read, Written.Worth, Mixed, Plain;
    forall n | Reaches(syms, voc, n) ensures Plain(n.value) <==> n.Read() == n.Worth().value {
      SuffixedIsNumeral(syms, voc, n);
      PlainIsRead(n);
    }
    if Readable(syms, voc) {
      forall n | Reaches(syms, voc, n) ensures Plain(n.value) {
        ReadFits(n);
        var m := Written(n.Read(), false);
        assert Alike(m, n) && Alike(n, m);
      }
    }
  }

  lemma PlainIsRead(n: Written)
    requires n.unsigned ==> n.value >= 0
    ensures Plain(n.value) <==> n.Read() == n.Worth().value
  {
  }

  lemma ReadFits(n: Written)
    ensures var m := Written(n.Read(), false); m.Read() == n.Read() && m.Worth() == CInt(n.Read(), false)
  {
  }

  lemma BigIsFive(n: Written)
    requires n == Written(0x1_0000_0005, false)
    ensures n.Read() == 5 && n.Worth() == CInt(n.value, false)
  {
  }

  /** But a number that does not fit may do no harm: alone, 2^32 + 5 compares with 0 and 1 as its remainder 5 does. */
  lemma UnfitYetReadable()
    ensures !Fits(0x1_0000_0005) && Readable(map[], Vocabulary(iset{Written(0x1_0000_0005, false)}, iset{}))
  {
    hide Written.Read, Written.Worth;
    var none: Symbols := map[];
    var voc := Vocabulary(iset{Written(0x1_0000_0005, false)}, iset{});
    var big := Written(0x1_0000_0005, false);
    BigIsFive(big);
    forall n | Reaches(none, voc, n) ensures Bool(n) || n == big {
    }
    forall n | Reaches(none, voc, n) ensures !n.Worth().unsigned && n.Worth().value == n.value {
      if Bool(n) {
        BoolIsItself(n);
      }
    }
    forall n | Reaches(none, voc, n) ensures n.Read() == if n == big then 5 else n.value {
      if Bool(n) {
        BoolIsItself(n);
      }
    }
  }

  predicate Unknown(syms: Symbols, e: Expr) {
    match e
    case Numeral(_, _) => false
    case Defined(arg) => !(arg.Some? && arg.value in syms)
    case Name(n, _) => n !in syms
    case Not(x) => Unknown(syms, x)
    case Bin(_, l, r) => Unknown(syms, l) || Unknown(syms, r)
  }

  predicate Senseless(syms: Symbols, e: Expr) {
    match e
    case Numeral(_, _) => false
    case Defined(arg) => false
    case Name(n, _) => n in syms && syms[n].Text?
    case Not(x) => Senseless(syms, x)
    case Bin(_, l, r) => Senseless(syms, l) || Senseless(syms, r)
  }

  /** Strict logic leaves a condition open exactly when an unknown symbol occurs in it. */
  lemma {:induction false} StrictIsExact(syms: Symbols, e: Expr)
    ensures Eval(syms, true, e).lt == Error <==> Senseless(syms, e)
    ensures !Senseless(syms, e) ==> (Eval(syms, true, e).lt == Unsure <==> Unknown(syms, e))
  {
    match e
    case Numeral(_, _) =>
    case Defined(arg) =>
    case Name(n, args) =>
    case Not(x) =>
      StrictIsExact(syms, x);
    case Bin(op, l, r) =>
      StrictIsExact(syms, l);
      StrictIsExact(syms, r);
  }

  /** Lazy logic decides everything strict logic decides, the same way. */
  lemma {:induction false} LazyDecidesMore(syms: Symbols, e: Expr)
    ensures Eval(syms, false, e).lt == Error <==> Eval(syms, true, e).lt == Error
    ensures Eval(syms, true, e).lt in {Yes, No} ==> Eval(syms, false, e) == Eval(syms, true, e)
  {
    match e
    case Numeral(_, _) =>
    case Defined(arg) =>
    case Name(n, args) =>
    case Not(x) =>
      LazyDecidesMore(syms, x);
    case Bin(op, l, r) =>
      LazyDecidesMore(syms, l);
      LazyDecidesMore(syms, r);
  }

  /** Lazy logic takes what one operand settles, whatever an unknown symbol in the other one may be: an `||` is decided
      true by one true operand and false by two false ones, an `&&` the other way round. */
  lemma LazyJunctions(syms: Symbols, l: Expr, r: Expr)
    requires !Senseless(syms, l) && !Senseless(syms, r)
    ensures var a, b := Eval(syms, false, l).lt, Eval(syms, false, r).lt;
      && (Eval(syms, false, Bin(Or, l, r)).lt == Yes <==> a == Yes || b == Yes)
      && (Eval(syms, false, Bin(Or, l, r)).lt == No <==> a == No && b == No)
      && (Eval(syms, false, Bin(And, l, r)).lt == Yes <==> a == Yes && b == Yes)
      && (Eval(syms, false, Bin(And, l, r)).lt == No <==> a == No || b == No)
  {
    SenseIsReported(syms, false, l);
    SenseIsReported(syms, false, r);
  }

  lemma SenseIsReported(syms: Symbols, strict: bool, e: Expr)
    ensures Eval(syms, strict, e).lt == Error <==> Senseless(syms, e)
    ensures Eval(syms, strict, e).lt in {Yes, No} ==> Eval(syms, strict, e) == Decided(Eval(syms, strict, e).val)
  {
    StrictIsExact(syms, e);
    LazyDecidesMore(syms, e);
    VerdictOfValue(syms, strict, e);
  }

  lemma {:induction false} VerdictOfValue(syms: Symbols, strict: bool, e: Expr)
    ensures Eval(syms, strict, e).lt in {Yes, No} ==> Eval(syms, strict, e) == Decided(Eval(syms, strict, e).val)
  {
    match e
    case Not(x) => VerdictOfValue(syms, strict, x);
    case _ =>
  }

  /** The names on which an expression depends and about which the command line says nothing; an operand of `defined`
      may be missing. */
  function Asks(syms: Symbols, e: Expr): set<Option<string>> {
    match e
    case Numeral(_, _) => {}
    case Defined(arg) => if arg.Some? && arg.value in syms then {} else {arg}
    case Name(n, _) => if n in syms then {} else {Some(n)}
    case Not(x) => Asks(syms, x)
    case Bin(_, l, r) => Asks(syms, l) + Asks(syms, r)
  }

  /** No unknown name decides two operands of one operator, and none is compared with a number. */
  predicate Independent(syms: Symbols, e: Expr) {
    match e
    case Not(x) => Independent(syms, x)
    case Bin(op, l, r) =>
      if op == Or || op == And then Independent(syms, l) && Independent(syms, r) && Asks(syms, l) !! Asks(syms, r)
      else Asks(syms, l) == {} && Asks(syms, r) == {}
    case _ => true
  }

  /** A compiler that agrees with the command line and knows, of all other names, just the ones in `s`. */
  function EnvWith(syms: Symbols, s: set<Option<string>>): Env {
    Env((arg: Option<string>) => if arg.Some? && arg.value in syms then !syms[arg.value].Undef? else arg in s,
        (n: string, args: seq<Token>) =>
          if n in syms then Typed(if syms[n].Value? then syms[n].value else 0, false) else CInt(Truth(Some(n) in s), false))
  }

  lemma EnvWithAgrees(syms: Symbols, s: set<Option<string>>)
    ensures Agrees(EnvWith(syms, s), syms)
  {
  }

  lemma {:induction false} MeaningDepends(syms: Symbols, e: Expr, s: set<Option<string>>, u: set<Option<string>>)
    requires s * Asks(syms, e) == u * Asks(syms, e)
    ensures Meaning(e, EnvWith(syms, s)) == Meaning(e, EnvWith(syms, u))
  {
    hide Compares, Typed;
    match e
    case Numeral(_, _) =>
    case Defined(arg) =>
      assert arg in Asks(syms, e) ==> (arg in s <==> arg in s * Asks(syms, e)) && (arg in u <==> arg in u * Asks(syms, e));
    case Name(n, args) =>
      assert Some(n) in Asks(syms, e) ==>
        (Some(n) in s <==> Some(n) in s * Asks(syms, e)) && (Some(n) in u <==> Some(n) in u * Asks(syms, e));
    case Not(x) =>
      MeaningDepends(syms, x, s, u);
    case Bin(op, l, r) =>
      SameWithin(s, u, Asks(syms, l), Asks(syms, e));
      SameWithin(s, u, Asks(syms, r), Asks(syms, e));
      MeaningDepends(syms, l, s, u);
      MeaningDepends(syms, r, s, u);
  }

  lemma SameWithin<T>(s: set<T>, u: set<T>, part: set<T>, whole: set<T>)
    requires part <= whole && s * whole == u * whole
    ensures s * part == u * part
  {
    forall x | x in part ensures x in s <==> x in u {
      assert x in s * whole <==> x in u * whole;
    }
  }

  predicate Holds(e: Expr, env: Env) {
    Meaning(e, env).value != 0
  }

  /** Unless lazy logic says otherwise, some compiler finds the condition as wanted: it knows the names in `s`. */
  lemma {:induction false} Settle(syms: Symbols, voc: Vocabulary, e: Expr, t: bool) returns (s: set<Option<string>>)
    requires Over(e, voc) && Readable(syms, voc) && !Senseless(syms, e) && Independent(syms, e)
    requires Eval(syms, false, e).lt != if t then No else Yes
    ensures s <= Asks(syms, e) && Holds(e, EnvWith(syms, s)) == t
    decreases e, 1
  {
    hide Readable, Typed, Compares, Truncate;
    SenseIsReported(syms, false, e);
    if Eval(syms, false, e).lt != Unsure {
      s := {};
      EnvWithAgrees(syms, s);
      Sound(syms, voc, false, e, EnvWith(syms, s));
    } else {
      match e
      case Numeral(_, _) =>
        assert false;
      case Defined(arg) =>
        s := if t then {arg} else {};
      case Name(n, _) =>
        s := if t then {Some(n)} else {};
      case Not(x) =>
        s := Settle(syms, voc, x, !t);
      case Bin(op, l, r) =>
        s := SettleBin(syms, voc, op, l, r, t);
    }
  }

  lemma {:induction false} SettleBin(syms: Symbols, voc: Vocabulary, op: BinOp, l: Expr, r: Expr, t: bool)
    returns (s: set<Option<string>>)
    requires var e := Bin(op, l, r);
      Over(e, voc) && Readable(syms, voc) && !Senseless(syms, e) && Independent(syms, e) && Eval(syms, false, e).lt == Unsure
    ensures s <= Asks(syms, Bin(op, l, r)) && Holds(Bin(op, l, r), EnvWith(syms, s)) == t
    decreases Bin(op, l, r), 0
  {
    hide Readable, Typed, Truncate, Asks;
    AsksNothing(syms, l);
    AsksNothing(syms, r);
    assert op == Or || op == And;
    LazyJunctions(syms, l, r);
    SenseIsReported(syms, false, l);
    SenseIsReported(syms, false, r);
    assert Asks(syms, Bin(op, l, r)) == Asks(syms, l) + Asks(syms, r) by {
      AsksBoth(syms, op, l, r);
    }
    if t == (op == Or) {
      if Eval(syms, false, l).lt != (if t then No else Yes) {
        s := Settle(syms, voc, l, t);
      } else {
        s := Settle(syms, voc, r, t);
      }
    } else {
      var a := Settle(syms, voc, l, t);
      var b := Settle(syms, voc, r, t);
      s := a + b;
      assert s * Asks(syms, l) == a * Asks(syms, l) && s * Asks(syms, r) == b * Asks(syms, r);
      MeaningDepends(syms, l, s, a);
      MeaningDepends(syms, r, s, b);
    }
  }

  lemma AsksBoth(syms: Symbols, op: BinOp, l: Expr, r: Expr)
    ensures Asks(syms, Bin(op, l, r)) == Asks(syms, l) + Asks(syms, r)
  {
  }

  /** An expression that asks nothing is decided, if it makes sense. */
  lemma {:induction false} AsksNothing(syms: Symbols, e: Expr)
    ensures Asks(syms, e) == {} <==> !Unknown(syms, e)
    ensures Asks(syms, e) == {} && !Senseless(syms, e) ==> Eval(syms, false, e).lt in {Yes, No}
  {
    AsksUnknown(syms, e);
    StrictIsExact(syms, e);
    LazyDecidesMore(syms, e);
  }

  lemma {:induction false} AsksUnknown(syms: Symbols, e: Expr)
    ensures Asks(syms, e) == {} <==> !Unknown(syms, e)
  {
    match e
    case Numeral(_, _) =>
    case Defined(arg) =>
      assert Unknown(syms, e) ==> arg in Asks(syms, e);
    case Name(n, _) =>
      assert Unknown(syms, e) ==> Some(n) in Asks(syms, e);
    case Not(x) =>
      AsksUnknown(syms, x);
    case Bin(op, l, r) =>
      AsksUnknown(syms, l);
      AsksUnknown(syms, r);
  }

  /** Lazy logic decides such a condition exactly when all compilers that agree with the command line decide it alike. */
  lemma LazyDecidesExactly(syms: Symbols, voc: Vocabulary, e: Expr)
    requires Over(e, voc) && Readable(syms, voc) && !Senseless(syms, e) && Independent(syms, e)
    ensures Eval(syms, false, e).lt == Yes <==> forall env: Env :: Agrees(env, syms) ==> Holds(e, env)
    ensures Eval(syms, false, e).lt == No <==> forall env: Env :: Agrees(env, syms) ==> !Holds(e, env)
  {
    hide Readable, Over, Eval, Meaning, Agrees, Independent;
    forall env: Env | Agrees(env, syms)
      ensures Eval(syms, false, e).lt == Yes ==> Holds(e, env)
      ensures Eval(syms, false, e).lt == No ==> !Holds(e, env)
    {
      Sound(syms, voc, false, e, env);
    }
    if Eval(syms, false, e).lt != Yes {
      var s := Settle(syms, voc, e, false);
      EnvWithAgrees(syms, s);
    }
    if Eval(syms, false, e).lt != No {
      var s := Settle(syms, voc, e, true);
      EnvWithAgrees(syms, s);
    }
  }

  /** A name that occurs twice is taken for two: `X || !X` is left open, although every compiler finds it true. */
  lemma TwiceIsLeftOpen(env: Env)
    ensures var x := Defined(Some("X")); var e := Bin(Or, x, Not(x));
      Eval(map[], false, e).lt == Unsure && Holds(e, env) && !Independent(map[], e)
  {
    var x := Defined(Some("X"));
    assert Some("X") in Asks(map[], x) * Asks(map[], Not(x));
  }

  /** No symbol is consulted. */
  predicate Constant(e: Expr) {
    match e
    case Numeral(_, _) => true
    case Defined(_) => false
    case Name(_, _) => false
    case Not(x) => Constant(x)
    case Bin(_, l, r) => Constant(l) && Constant(r)
  }

  /** What a call of the evaluator reports about the expression that the grammar finds there. */
  ghost predicate Reports(syms: Symbols, strict: bool, p: Option<Parsed>, lt: Verdict, val: int, end: nat) {
    if p.None? then lt == Error
    else
      var r := Eval(syms, strict, p.value.e);
      && lt == r.lt
      && (lt == Yes || lt == No ==> val == r.val)
      && (lt != Error ==> end == p.value.end)
  }

  /** An operand that makes no sense spoils the whole expression. */
  lemma {:induction false} ErrorSticks(syms: Symbols, strict: bool, level: nat, lhs: Expr, ts: seq<Token>, i: nat)
    requires level < 4 && i <= |ts| && Eval(syms, strict, lhs).lt == Error
    requires ParseLoop(syms, level, lhs, ts, i).Some?
    ensures Eval(syms, strict, ParseLoop(syms, level, lhs, ts, i).value.e).lt == Error
    decreases |ts| - i
  {
    hide ParseLevel;
    if OperAt(ts, i, level) {
      var rhs := ParseLevel(syms, level + 1, ts, i + 1).value;
      ErrorSticks(syms, strict, level, Bin(ts[i].op, lhs, rhs.e), ts, rhs.end);
    }
  }

  /** The verdict on a whole #if line. */
  function IfVerdict(syms: Symbols, strict: bool, killConsts: bool, ts: seq<Token>): Verdict {
    var p := ParseLevel(syms, 0, ts, 0);
    if p.None? then Unsure
    else
      var lt := Eval(syms, strict, p.value.e).lt;
      if lt == Error || (Constant(p.value.e) && !killConsts) then Unsure else lt
  }

  class Evaluator {
    const syms: Symbols
    const strict: bool
    const killConsts: bool
    var constexpr: bool

    constructor (syms: Symbols, strict: bool, killConsts: bool)
      ensures this.syms == syms && this.strict == strict && this.killConsts == killConsts
    {
      this.syms, this.strict, this.killConsts, constexpr := syms, strict, killConsts, true;
    }

    /** skipargs. */
    method FindClose(ts: seq<Token>, i: nat) returns (r: nat)
      requires i <= |ts|
      ensures r == SkipArgs(ts, i)
    {
      if i == |ts| || ts[i] != Open {
        return i;
      }
      var depth, j := 1, i + 1;
      while depth != 0 && j < |ts|
        invariant i < j <= |ts| && 0 <= depth
        invariant depth == 0 ==> AfterClose(ts, i, 0) == Some(j)
        invariant depth > 0 ==> AfterClose(ts, i, 0) == if j == |ts| then None else AfterClose(ts, j, depth)
        decreases |ts| - j
      {
        if ts[j] == Open {
          depth := depth + 1;
        }
        if ts[j] == Close {
          depth := depth - 1;
        }
        j := j + 1;
      }
      r := if depth == 0 then j else i;
    }

    /** Is the constexpr flag what reading `p` leaves? */
    ghost predicate Flagged(was: bool, lt: Verdict, p: Option<Parsed>)
      reads this
    {
      lt != Error && p.Some? ==> constexpr == (was && Constant(p.value.e))
    }

    /** eval_unary.  `slot` is what the value slot holds on entry; it is left alone on an unsure verdict. */
    method EvalUnary(ts: seq<Token>, i: nat, slot: int) returns (lt: Verdict, val: int, end: nat)
      requires i <= |ts|
      modifies this
      ensures Reports(syms, strict, ParseUnary(syms, ts, i), lt, val, end)
      ensures Flagged(old(constexpr), lt, ParseUnary(syms, ts, i))
      decreases |ts| - i, 0
    {
      lt, val, end := Error, slot, i;
      if i == |ts| {
        return;
      }
      match ts[i] {
        case Bang =>
          lt, val, end := EvalUnary(ts, i + 1, slot);
          if lt == Yes || lt == No {
            val := Truth(val == 0);
            lt := Verdict01(val);
          }
        case Open =>
          lt, val, end := EvalTable(0, ts, i + 1, slot);
          if lt != Error {
            if end < |ts| && ts[end] == Close {
              end := end + 1;
            } else {
              lt := Error;
            }
          }
        case Num(v, _) =>
          val := Truncate(v);
          lt, end := Verdict01(val), i + 1;
        case Word(n) =>
          if n == DEFINED {
            lt, val, end := EvalDefined(ts, i + 1, slot);
          } else {
            lt, val, end := EvalName(n, ts, i + 1, slot);
          }
        case _ =>
      }
    }

    method EvalDefined(ts: seq<Token>, i: nat, slot: int) returns (lt: Verdict, val: int, end: nat)
      requires i <= |ts|
      modifies this
      ensures Reports(syms, strict, ParseDefined(ts, i), lt, val, end)
      ensures Flagged(old(constexpr), lt, ParseDefined(ts, i))
    {
      lt, val, end := Unsure, slot, i;
      var paren := i < |ts| && ts[i] == Open;
      if paren {
        end := end + 1;
      }
      if end < |ts| && ts[end].Word? && ts[end].name in syms {
        val := Truth(!syms[ts[end].name].Undef?);
        lt := Verdict01(val);
      }
      if end < |ts| && (ts[end].Word? || ts[end].Num?) {
        end := end + 1;
      }
      if paren {
        if end < |ts| && ts[end] == Close {
          end := end + 1;
        } else {
          return Error, val, end;
        }
      }
      constexpr := false;
    }

    method EvalName(n: string, ts: seq<Token>, i: nat, slot: int) returns (lt: Verdict, val: int, end: nat)
      requires i <= |ts|
      modifies this
      ensures Reports(syms, strict, Some(ParseName(syms, n, ts, i)), lt, val, end)
      ensures Flagged(old(constexpr), lt, Some(ParseName(syms, n, ts, i)))
    {
      lt, val, end := Unsure, slot, i;
      if n !in syms {
        end := FindClose(ts, i);
      } else {
        match syms[n] {
          case Undef =>
            lt, val := No, 0;
          case Value(v) =>
            val := Truncate(v);
            lt := Verdict01(val);
            end := FindClose(ts, i);
          case Text =>
            return Error, val, i;
        }
      }
      constexpr := false;
    }

    /** eval_table.  The second operand's slot starts with whatever is there. */
    method EvalTable(level: nat, ts: seq<Token>, i: nat, slot: int) returns (lt: Verdict, val: int, end: nat)
      requires level <= 3 && i <= |ts|
      modifies this
      ensures Reports(syms, strict, ParseLevel(syms, level, ts, i), lt, val, end)
      ensures Flagged(old(constexpr), lt, ParseLevel(syms, level, ts, i))
      decreases |ts| - i, 6 - level
    {
      hide ParseUnary;
      lt, val, end := EvalInner(level, ts, i, slot);
      if lt == Error {
        SpoiltFromStart(syms, strict, level, ts, i);
        return;
      }
      ghost var first := ParseLevel(syms, level + 1, ts, i).value;
      ghost var lhs := first.e;
      while end < |ts| && ts[end].Oper? && Level(ts[end].op) == level
        invariant first.end <= end <= |ts| && lt != Error
        invariant ParseLevel(syms, level, ts, i) == ParseLoop(syms, level, lhs, ts, end)
        invariant lt == Eval(syms, strict, lhs).lt && (lt == Yes || lt == No ==> val == Eval(syms, strict, lhs).val)
        invariant constexpr == (old(constexpr) && Constant(lhs))
        decreases |ts| - end
      {
        var op := ts[end].op;
        var rval: int := *;
        var rt, rest;
        rt, rval, rest := EvalInner(level, ts, end + 1, rval);
        if rt == Error {
          SpoiltOnTheRight(syms, strict, level, lhs, ts, end);
          lt := Error;
          return;
        }
        ghost var rhs := ParseLevel(syms, level + 1, ts, end + 1).value;
        lt, val := ApplyTo(op, lt, val, rt, rval, Eval(syms, strict, lhs), Eval(syms, strict, rhs.e));
        LoopGoesOn(syms, level, lhs, ts, end, rhs);
        lhs, end := Bin(op, lhs, rhs.e), rest;
      }
    }

    /** The inner function of a level. */
    method EvalInner(level: nat, ts: seq<Token>, i: nat, slot: int) returns (lt: Verdict, val: int, end: nat)
      requires level <= 3 && i <= |ts|
      modifies this
      ensures Reports(syms, strict, ParseLevel(syms, level + 1, ts, i), lt, val, end)
      ensures Flagged(old(constexpr), lt, ParseLevel(syms, level + 1, ts, i))
      decreases |ts| - i, 6 - level, 0
    {
      if level == 3 {
        lt, val, end := EvalUnary(ts, i, slot);
      } else {
        lt, val, end := EvalTable(level + 1, ts, i, slot);
      }
    }

    /** op_or, op_and, op_strict: the slot is written only when a verdict is reached. */
    method ApplyTo(op: BinOp, at: Verdict, a: int, bt: Verdict, b: int, ghost x: Result, ghost y: Result)
      returns (lt: Verdict, val: int)
      requires at == x.lt && bt == y.lt && at != Error && bt != Error
      requires (at == Yes || at == No ==> a == x.val) && (bt == Yes || bt == No ==> b == y.val)
      ensures lt == Apply(strict, op, x, y).lt && (lt == Yes || lt == No ==> val == Apply(strict, op, x, y).val)
    {
      if op == Or && !strict && (at == Yes || bt == Yes) {
        return Yes, 1;
      }
      if op == And && !strict && (at == No || bt == No) {
        return No, 0;
      }
      if at == Unsure || bt == Unsure {
        return Unsure, a;
      }
      val := Truth(Compare(op, a, b));
      lt := Verdict01(val);
    }

    /** ifeval. */
    method IfEval(ts: seq<Token>) returns (lt: Verdict, end: nat)
      modifies this
      ensures lt == IfVerdict(syms, strict, killConsts, ts)
      ensures lt == Yes || lt == No ==> ParseLevel(syms, 0, ts, 0).Some? && end == ParseLevel(syms, 0, ts, 0).value.end
      ensures end <= |ts|
    {
      hide ParseLevel;
      constexpr := !killConsts;
      var val;
      lt, val, end := EvalTable(0, ts, 0, 0);
      if lt == Error {
        return Unsure, 0;
      }
      if constexpr {
        lt := Unsure;
      }
    }
  }

  lemma SpoiltFromStart(syms: Symbols, strict: bool, level: nat, ts: seq<Token>, i: nat)
    requires level <= 3 && i <= |ts|
    requires ParseLevel(syms, level + 1, ts, i).None? || Eval(syms, strict, ParseLevel(syms, level + 1, ts, i).value.e).lt == Error
    ensures ParseLevel(syms, level, ts, i).None? || Eval(syms, strict, ParseLevel(syms, level, ts, i).value.e).lt == Error
  {
    hide ParseUnary, Eval;
    var p := ParseLevel(syms, level + 1, ts, i);
    if p.Some? && ParseLevel(syms, level, ts, i).Some? {
      ErrorSticks(syms, strict, level, p.value.e, ts, p.value.end);
    }
  }

  lemma SpoiltOnTheRight(syms: Symbols, strict: bool, level: nat, lhs: Expr, ts: seq<Token>, i: nat)
    requires level <= 3 && OperAt(ts, i, level)
    requires ParseLevel(syms, level + 1, ts, i + 1).None? || Eval(syms, strict, ParseLevel(syms, level + 1, ts, i + 1).value.e).lt == Error
    ensures ParseLoop(syms, level, lhs, ts, i).None? || Eval(syms, strict, ParseLoop(syms, level, lhs, ts, i).value.e).lt == Error
  {
    hide ParseLevel;
    var p := ParseLevel(syms, level + 1, ts, i + 1);
    if p.Some? && ParseLoop(syms, level, lhs, ts, i).Some? {
      ErrorSticks(syms, strict, level, Bin(ts[i].op, lhs, p.value.e), ts, p.value.end);
    }
  }
}
