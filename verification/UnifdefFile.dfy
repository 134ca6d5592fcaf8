/** From the text of directives to what a compiler sees: classifying lines with the evaluator, and the whole
    program against every compiler that agrees with the command line. */
module UnifdefFile {
  import opened Wrappers
  import C = CondExpr
  import U = Unifdef

  /** A line of the input; `#ifdef` and `#ifndef` lines keep what follows the keyword as tokens. */
  datatype Source =
    | IfLine(ts: seq<C.Token>, dodgy: bool)
    | ElifLine(ts: seq<C.Token>, dodgy: bool)
    | IfdefLine(negated: bool, ts: seq<C.Token>, dodgy: bool)
    | ElseLine(ts: seq<C.Token>, dodgy: bool)
    | EndifLine(ts: seq<C.Token>, dodgy: bool)
    | TextLine(text: string)

  /** The command line: symbols, the ones marked as ignored, and the options that matter here. */
  datatype Options = Options(syms: C.Symbols, ignored: set<string>, strict: bool, killConsts: bool)

  /** The verdict of an `#if` or `#elif` line; whatever follows the expression makes it unsure. */
  function Decide(o: Options, ts: seq<C.Token>): C.Verdict {
    var p := C.ParseLevel(o.syms, 0, ts, 0);
    if p.None? || p.value.end < |ts| then C.Unsure else C.IfVerdict(o.syms, o.strict, o.killConsts, ts)
  }

  /** The kind of an `#ifdef` line: decided only if the symbol is known and nothing follows it. */
  function IfdefKind(o: Options, negated: bool, ts: seq<C.Token>): U.Kind {
    if |ts| == 1 && ts[0].Word? && ts[0].name in o.syms then
      var holds := o.syms[ts[0].name].Undef? == negated;
      if ts[0].name in o.ignored then (if holds then U.TrueI else U.FalseI) else (if holds then U.True else U.False)
    else U.If
  }

  function KindOf(o: Options, line: Source): U.Kind
    requires !line.TextLine?
  {
    match line
    case IfLine(ts, _) =>
      (match Decide(o, ts) case Yes => U.True case No => U.False case _ => U.If)
    case ElifLine(ts, _) =>
      (match Decide(o, ts) case Yes => U.ElTrue case No => U.ElFalse case _ => U.Elif)
    case IfdefLine(neg, ts, _) => IfdefKind(o, neg, ts)
    case ElseLine(_, _) => U.Else
    case EndifLine(_, _) => U.Endif
  }

  /** Conditions are numbered by line. */
  function Classified(o: Options, line: Source, n: nat): U.Line {
    if line.TextLine? then U.Plain(line.text) else U.Directive(KindOf(o, line), line.dodgy, n)
  }

  function ClassifiedAll(o: Options, file: seq<Source>): (r: seq<U.Line>)
    ensures |r| == |file|
  {
    seq(|file|, i requires 0 <= i < |file| => Classified(o, file[i], i))
  }

  class Parser {
    const o: Options
    const eval: C.Evaluator

    constructor (o: Options)
      ensures this.o == o && eval.syms == o.syms && eval.strict == o.strict && eval.killConsts == o.killConsts && fresh(eval)
    {
      this.o := o;
      eval := new C.Evaluator(o.syms, o.strict, o.killConsts);
    }

    ghost predicate Set() {
      eval.syms == o.syms && eval.strict == o.strict && eval.killConsts == o.killConsts
    }

    /** The decision part of parseline. */
    method ParseLine(line: Source, n: nat) returns (r: U.Line)
      requires Set()
      modifies eval
      ensures r == Classified(o, line, n)
    {
      var kind;
      match line {
        case TextLine(t) =>
          return U.Plain(t);
        case IfLine(ts, _) =>
          var lt, end := eval.IfEval(ts);
          kind := if lt == C.Yes then U.True else if lt == C.No then U.False else U.If;
          if end < |ts| && (kind == U.True || kind == U.False) {
            kind := U.If;
          }
        case ElifLine(ts, _) =>
          var lt, end := eval.IfEval(ts);
          kind := if lt == C.Yes then U.ElTrue else if lt == C.No then U.ElFalse else U.Elif;
          if end < |ts| && (kind == U.ElTrue || kind == U.ElFalse) {
            kind := U.Elif;
          }
        case IfdefLine(negated, ts, _) =>
          kind := U.If;
          var known := ts != [] && ts[0].Word? && ts[0].name in o.syms;
          if known {
            kind := if negated then U.False else U.True;
            if o.syms[ts[0].name].Undef? {
              kind := if kind == U.True then U.False else U.True;
            }
            if ts[0].name in o.ignored {
              kind := if kind == U.True then U.TrueI else U.FalseI;
            }
            if 1 < |ts| {
              kind := U.If;
            }
          }
        case ElseLine(_, _) =>
          kind := U.Else;
        case EndifLine(_, _) =>
          kind := U.Endif;
      }
      r := U.Directive(kind, line.dodgy, n);
    }

    /** The whole program. */
    method Run(file: seq<Source>, ioccc: bool) returns (out: seq<U.Line>, status: U.Status)
      requires Set()
      modifies eval
      ensures var m := U.Unifdef(ClassifiedAll(o, file), ioccc); out == m.out && status == m.status
    {
      var lines := [];
      var i := 0;
      while i < |file|
        invariant 0 <= i <= |file| && lines == ClassifiedAll(o, file)[..i]
      {
        var line := ParseLine(file[i], i);
        lines := lines + [line];
        i := i + 1;
      }
      assert lines == ClassifiedAll(o, file);
      var p := new U.Processor(ioccc);
      p.Process(lines);
      out, status := p.out, p.status;
    }
  }

  // ---------------------------------------------------------------------------------------------
  // Every compiler that agrees with the command line.

  /** The expression on a line is over the vocabulary. */
  ghost predicate LineOver(o: Options, voc: C.Vocabulary, line: Source) {
    line.IfLine? || line.ElifLine? ==>
      var p := C.ParseLevel(o.syms, 0, line.ts, 0);
      p.Some? ==> C.Over(p.value.e, voc)
  }

  /** No expression is ever decided: no symbol is given, strict logic waits for all of them, and constants are left. */
  predicate Mute(o: Options) {
    o.syms == map[] && o.strict && !o.killConsts
  }

  /** What a compiler makes of the condition on a line; a condition outside the grammar may be worth anything. */
  ghost predicate Judges(o: Options, line: Source, env: C.Env, t: bool) {
    match line
    case IfLine(ts, _) => JudgesExpr(o, ts, env, t)
    case ElifLine(ts, _) => JudgesExpr(o, ts, env, t)
    case IfdefLine(negated, ts, _) =>
      |ts| == 1 && ts[0].Word? ==> t == (env.defined(Some(ts[0].name)) != negated)
    case _ => true
  }

  ghost predicate JudgesExpr(o: Options, ts: seq<C.Token>, env: C.Env, t: bool) {
    var p := C.ParseLevel(o.syms, 0, ts, 0);
    p.Some? && p.value.end == |ts| ==> t == (C.Meaning(p.value.e, env).value != 0)
  }

  /** Macros may come and go between lines, as long as the symbols of the command line stay as given there. */
  ghost predicate Compiles(o: Options, file: seq<Source>, envs: seq<C.Env>, truth: nat -> bool) {
    && |envs| == |file|
    && forall i :: 0 <= i < |file| ==> C.Agrees(envs[i], o.syms) && Judges(o, file[i], envs[i], truth(i))
  }

  lemma {:induction false} WithoutSymbols(e: C.Expr)
    ensures !C.Constant(e) ==> C.Unknown(map[], e)
    ensures !C.Senseless(map[], e)
  {
    match e
    case Numeral(_, _) =>
    case Defined(_) =>
    case Name(_, _) =>
    case Not(x) =>
      WithoutSymbols(x);
    case Bin(_, l, r) =>
      WithoutSymbols(l);
      WithoutSymbols(r);
  }

  lemma MuteIsUnsure(o: Options, ts: seq<C.Token>)
    requires Mute(o)
    ensures Decide(o, ts) == C.Unsure
  {
    hide C.ParseLevel, C.Eval;
    var p := C.ParseLevel(o.syms, 0, ts, 0);
    if p.Some? {
      WithoutSymbols(p.value.e);
      C.StrictIsExact(o.syms, p.value.e);
    }
  }

  lemma LineIsConsistent(o: Options, voc: C.Vocabulary, line: Source, n: nat, env: C.Env, truth: nat -> bool)
    requires C.Agrees(env, o.syms) && Judges(o, line, env, truth(n))
    requires LineOver(o, voc, line) && (C.Readable(o.syms, voc) || Mute(o))
    ensures U.LineConsistent(Classified(o, line, n), truth)
  {
    hide C.ParseLevel, C.Eval, C.Meaning, C.Over, C.Readable, Mute;
    if line.IfLine? || line.ElifLine? {
      var p := C.ParseLevel(o.syms, 0, line.ts, 0);
      if Mute(o) {
        MuteIsUnsure(o, line.ts);
      } else if p.Some? {
        C.Sound(o.syms, voc, o.strict, p.value.e, env);
      }
    }
  }

  ghost predicate FileOver(o: Options, voc: C.Vocabulary, file: seq<Source>) {
    forall i :: 0 <= i < |file| ==> LineOver(o, voc, file[i])
  }

  /** The directive that a line is to a compiler. */
  function Role(line: Source): U.Kind
    requires !line.TextLine?
  {
    match line
    case IfLine(_, _) => U.If
    case IfdefLine(_, _, _) => U.If
    case ElifLine(_, _) => U.Elif
    case ElseLine(_, _) => U.Else
    case EndifLine(_, _) => U.Endif
  }

  /** The file as a compiler reads it, with nothing decided. */
  function AsWritten(file: seq<Source>): (r: seq<U.Line>)
    ensures |r| == |file|
  {
    seq(|file|, i requires 0 <= i < |file| =>
      if file[i].TextLine? then U.Plain(file[i].text) else U.Directive(Role(file[i]), file[i].dodgy, i))
  }

  /** What compiling the file leaves. */
  function Compiled(file: seq<Source>, truth: nat -> bool): U.Reader {
    U.Read(U.START, AsWritten(file), truth)
  }

  /** Classifying a line decides its condition and nothing else. */
  lemma OnlyDecides(o: Options, file: seq<Source>)
    ensures U.Forgotten(ClassifiedAll(o, file)) == AsWritten(file)
  {
    hide Decide, IfdefKind;
    forall i | 0 <= i < |file| ensures U.Forgotten(ClassifiedAll(o, file))[i] == AsWritten(file)[i] {
      if file[i].IfdefLine? {
        IfdefOpens(o, file[i].negated, file[i].ts);
      }
    }
  }

  lemma IfdefOpens(o: Options, negated: bool, ts: seq<C.Token>)
    ensures U.Opens(IfdefKind(o, negated, ts))
  {
  }

  /** If unifdef succeeds, compiling the output leaves the text that compiling the input leaves. */
  ghost predicate Preserved(o: Options, file: seq<Source>, ioccc: bool, truth: nat -> bool) {
    var m := U.Unifdef(ClassifiedAll(o, file), ioccc);
    m.status.Done? ==> U.Complete(Compiled(file, truth)) && U.Read(U.START, m.out, truth) == Compiled(file, truth)
  }

  /** For every compiler that agrees with the command line, compiling the output leaves the text that compiling the
      input leaves. */
  lemma ProgramPreservesMeaning(o: Options, voc: C.Vocabulary, file: seq<Source>, ioccc: bool, envs: seq<C.Env>,
                                truth: nat -> bool)
    requires Compiles(o, file, envs, truth) && FileOver(o, voc, file)
    requires C.Readable(o.syms, voc) || Mute(o)
    ensures Preserved(o, file, ioccc, truth)
  {
    hide LineOver, Judges, C.Agrees, C.Readable, ClassifiedAll, AsWritten, U.Read, U.Steps;
    var lines := ClassifiedAll(o, file);
    FileIsConsistent(o, voc, file, envs, truth);
    OnlyDecides(o, file);
    U.ReadForgets(U.START, lines, truth);
    if U.Unifdef(lines, ioccc).status.Done? {
      U.MeaningPreserved(lines, ioccc, truth);
    }
  }

  lemma FileIsConsistent(o: Options, voc: C.Vocabulary, file: seq<Source>, envs: seq<C.Env>, truth: nat -> bool)
    requires Compiles(o, file, envs, truth) && FileOver(o, voc, file)
    requires C.Readable(o.syms, voc) || Mute(o)
    ensures U.Consistent(ClassifiedAll(o, file), truth)
  {
    hide LineOver, Judges, C.Agrees, C.Readable, Classified;
    var lines := ClassifiedAll(o, file);
    forall i | 0 <= i < |lines| ensures U.LineConsistent(lines[i], truth) {
      LineIsConsistent(o, voc, file[i], i, envs[i], truth);
    }
  }

  /** Each directive stands on one line. */
  ghost predicate OnOneLine(file: seq<Source>) {
    forall i :: 0 <= i < |file| && !file[i].TextLine? ==> !file[i].dodgy
  }

  /** Such a file is processed to the end if and only if a compiler finds its groups well nested and not too deep. */
  lemma ProgramSucceedsExactly(o: Options, voc: C.Vocabulary, file: seq<Source>, ioccc: bool, envs: seq<C.Env>,
                               truth: nat -> bool)
    requires Compiles(o, file, envs, truth) && FileOver(o, voc, file) && OnOneLine(file)
    requires C.Readable(o.syms, voc) || Mute(o)
    ensures U.Unifdef(ClassifiedAll(o, file), ioccc).status.Done? <==>
            U.Complete(Compiled(file, truth)) && U.Fits(U.START, AsWritten(file), truth)
  {
    hide LineOver, Judges, C.Agrees, C.Readable, Decide, IfdefKind, AsWritten, U.Read, U.Steps, U.Fits;
    var lines := ClassifiedAll(o, file);
    FileIsConsistent(o, voc, file, envs, truth);
    OnlyDecides(o, file);
    U.ReadForgets(U.START, lines, truth);
    U.SucceedsExactly(lines, ioccc, truth);
  }

  // ---------------------------------------------------------------------------------------------
  // Nothing that could be decided is left.

  /** What a kind says about the condition of its line. */
  function Decision(k: U.Kind): Option<bool> {
    match k
    case TrueI | True | ElTrue => Some(true)
    case FalseI | False | ElFalse => Some(false)
    case _ => None
  }

  /** No compiler that agrees with the command line takes the condition for anything else. */
  ghost predicate Forced(o: Options, line: Source, t: bool) {
    forall env: C.Env :: C.Agrees(env, o.syms) ==> !Judges(o, line, env, !t)
  }

  /** An `#ifdef` or `#ifndef` line is decided exactly when every compiler that agrees with the command line takes it
      alike, and then that way; its group counts as ignored exactly if its symbol does. */
  lemma IfdefDecidedExactly(o: Options, line: Source, t: bool)
    requires line.IfdefLine?
    ensures Decision(KindOf(o, line)) == Some(t) <==> Forced(o, line, t)
    ensures var k := KindOf(o, line);
      k.TrueI? || k.FalseI? <==> Decision(k).Some? && line.ts[0].Word? && line.ts[0].name in o.ignored
  {
    C.EnvOfAgrees(o.syms);
    KnowingAgrees(o.syms);
    if Decision(KindOf(o, line)) == Some(t) {
      forall env: C.Env | C.Agrees(env, o.syms) ensures !Judges(o, line, env, !t) {
      }
    } else {
      assert Judges(o, line, C.EnvOf(o.syms), !t) || Judges(o, line, Knowing(o.syms), !t);
    }
  }

  /** The expression on the line, if all of the line is one. */
  function ExprOf(o: Options, line: Source): Option<C.Expr>
    requires line.IfLine? || line.ElifLine?
  {
    var p := C.ParseLevel(o.syms, 0, line.ts, 0);
    if p.Some? && p.value.end == |line.ts| then Some(p.value.e) else None
  }

  /** With strict logic, an `#if` or `#elif` line is decided exactly when it is one expression that makes sense, is not
      a constant to be left alone, and depends on no unknown symbol; and then as every agreeing compiler takes it. */
  lemma StrictLineExactly(o: Options, voc: C.Vocabulary, line: Source, t: bool)
    requires (line.IfLine? || line.ElifLine?) && o.strict && LineOver(o, voc, line) && C.Readable(o.syms, voc)
    ensures Decision(KindOf(o, line)).Some? <==>
            var e := ExprOf(o, line);
            e.Some? && !C.Senseless(o.syms, e.value) && !C.Unknown(o.syms, e.value) && (C.Constant(e.value) ==> o.killConsts)
    ensures Decision(KindOf(o, line)) == Some(t) ==> Forced(o, line, t)
  {
    hide C.ParseLevel, C.Eval, C.Meaning, C.Over, C.Readable, C.Agrees;
    var e := ExprOf(o, line);
    if e.Some? {
      C.StrictIsExact(o.syms, e.value);
      SoundForAll(o, voc, e.value);
    }
  }

  lemma SoundForAll(o: Options, voc: C.Vocabulary, e: C.Expr)
    requires C.Over(e, voc) && C.Readable(o.syms, voc)
    ensures forall env: C.Env :: C.Agrees(env, o.syms) ==> C.Right(o.syms, o.strict, e, env)
  {
    forall env: C.Env | C.Agrees(env, o.syms) ensures C.Right(o.syms, o.strict, e, env) {
      C.Sound(o.syms, voc, o.strict, e, env);
    }
  }

  /** With lazy logic, an `#if` or `#elif` line whose unknown names are independent is decided exactly when every
      agreeing compiler takes it alike, and then that way. */
  lemma LazyLineExactly(o: Options, voc: C.Vocabulary, line: Source, t: bool)
    requires (line.IfLine? || line.ElifLine?) && !o.strict && LineOver(o, voc, line) && C.Readable(o.syms, voc)
    requires var e := ExprOf(o, line);
      e.Some? ==> !C.Senseless(o.syms, e.value) && C.Independent(o.syms, e.value) && (C.Constant(e.value) ==> o.killConsts)
    ensures Decision(KindOf(o, line)) == Some(t) <==> Forced(o, line, t)
  {
    hide C.ParseLevel, C.Eval, C.Meaning, C.Over, C.Readable, C.Agrees, C.Senseless, C.Independent, C.Constant;
    var e := ExprOf(o, line);
    C.EnvOfAgrees(o.syms);
    if e.Some? {
      C.LazyDecidesExactly(o.syms, voc, e.value);
      C.SenseIsReported(o.syms, false, e.value);
      assert Forced(o, line, true) <==> forall env: C.Env :: C.Agrees(env, o.syms) ==> C.Holds(e.value, env);
      assert Forced(o, line, false) <==> forall env: C.Env :: C.Agrees(env, o.syms) ==> !C.Holds(e.value, env);
    } else {
      assert Judges(o, line, C.EnvOf(o.syms), !t);
    }
  }

  /** If every condition is decided, what is left is the text that every agreeing compiler keeps, and nothing else. */
  lemma DecidedLeavesText(o: Options, voc: C.Vocabulary, file: seq<Source>, ioccc: bool, envs: seq<C.Env>, truth: nat -> bool)
    requires Compiles(o, file, envs, truth) && FileOver(o, voc, file) && OnOneLine(file)
    requires C.Readable(o.syms, voc) || Mute(o)
    requires forall i :: 0 <= i < |file| && Conditional(file[i]) ==> Decision(KindOf(o, file[i])).Some?
    ensures var m := U.Unifdef(ClassifiedAll(o, file), ioccc);
      m.status.Done? ==> U.AllText(m.out) && Compiled(file, truth) == U.Within(U.Bottom, Texts(m.out))
  {
    hide LineOver, Judges, C.Agrees, C.Readable, AsWritten, Decide, IfdefKind, U.Read, U.Steps;
    var lines := ClassifiedAll(o, file);
    U.SettledLeavesText(lines, ioccc);
    ProgramPreservesMeaning(o, voc, file, ioccc, envs, truth);
    TextIsKept(U.Unifdef(lines, ioccc).out, [], truth);
  }

  predicate Conditional(line: Source) {
    line.IfLine? || line.ElifLine? || line.IfdefLine?
  }

  function Texts(lines: seq<U.Line>): (r: seq<string>)
    requires U.AllText(lines)
    ensures |r| == |lines|
  {
    seq(|lines|, i requires 0 <= i < |lines| => lines[i].text)
  }

  lemma {:induction false} TextIsKept(lines: seq<U.Line>, kept: seq<string>, truth: nat -> bool)
    requires U.AllText(lines)
    ensures U.Read(U.Within(U.Bottom, kept), lines, truth) == U.Within(U.Bottom, kept + Texts(lines))
    decreases |lines|
  {
    if lines == [] {
      assert kept + Texts(lines) == kept;
    } else {
      TextIsKept(lines[1..], kept + [lines[0].text], truth);
      assert kept + Texts(lines) == kept + [lines[0].text] + Texts(lines[1..]);
    }
  }

  // ---------------------------------------------------------------------------------------------
  // Nothing less will do.

  lemma DecidedAsPrinted(o: Options, e: C.Expr)
    requires C.Printable(e, o.syms) && !C.Constant(e) && C.Eval(o.syms, o.strict, e).lt != C.Error
    ensures Decide(o, C.Print(e, 0)) == C.Eval(o.syms, o.strict, e).lt
  {
    hide C.ParseLevel, C.Eval, C.Print, C.Printable;
    var ts := C.Print(e, 0);
    assert C.Stands(ts, 0, ts);
    C.PrintThenParse(o.syms, e, 0, ts, 0);
  }

  /** With -DA=4294967296 the line `#if A` is taken for false. */
  lemma ValueMisread(ignored: set<string>, strict: bool, killConsts: bool, env: C.Env)
    ensures var o := Options(map["A" := C.Value(0x1_0000_0000)], ignored, strict, killConsts);
      && Decide(o, [C.Word("A")]) == C.No
      && (C.Agrees(env, o.syms) ==> C.Meaning(C.Name("A", []), env).value != 0)
  {
    hide C.ParseLevel;
    var o := Options(map["A" := C.Value(0x1_0000_0000)], ignored, strict, killConsts);
    var a := C.Name("A", []);
    assert C.Truncate(0x1_0000_0000) == 0;
    assert C.Print(a, 0) == [C.Word("A")];
    DecidedAsPrinted(o, a);
    assert C.Agrees(env, o.syms) ==> C.WorthAgrees(env, o.syms["A"], "A", []);
  }

  /** With -UA the line `#if A || 4294967296` is taken for false. */
  lemma NumeralMisread(ignored: set<string>, strict: bool, killConsts: bool, env: C.Env)
    ensures var o := Options(map["A" := C.Undef], ignored, strict, killConsts);
      && Decide(o, [C.Word("A"), C.Oper(C.Or), C.Num(0x1_0000_0000, false)]) == C.No
      && C.Meaning(C.Bin(C.Or, C.Name("A", []), C.Numeral(0x1_0000_0000, false)), env).value != 0
  {
    hide C.ParseLevel;
    var o := Options(map["A" := C.Undef], ignored, strict, killConsts);
    var a, n := C.Name("A", []), C.Numeral(0x1_0000_0000, false);
    var e := C.Bin(C.Or, a, n);
    assert C.Truncate(0x1_0000_0000) == 0;
    assert C.Eval(o.syms, strict, a) == C.Decided(0) && C.Eval(o.syms, strict, n) == C.Decided(0);
    assert C.Print(a, 0) == [C.Word("A")];
    assert C.Print(n, 1) == [C.Num(0x1_0000_0000, false)];
    assert C.Print(e, 0) == C.Print(a, 0) + [C.Oper(C.Or)] + C.Print(n, 1);
    assert C.Print(e, 0) == [C.Word("A"), C.Oper(C.Or), C.Num(0x1_0000_0000, false)];
    assert C.Printable(a, o.syms) && C.Printable(n, o.syms);
    DecidedAsPrinted(o, e);
  }

  /** With -DA=-1 the line `#if A < 1U` is taken for true, although all numbers fit in an int and are in order. */
  lemma UnsignedMisread(ignored: set<string>, strict: bool, killConsts: bool, env: C.Env)
    ensures var o := Options(map["A" := C.Value(-1)], ignored, strict, killConsts);
      && Decide(o, [C.Word("A"), C.Oper(C.Lt), C.Num(1, true)]) == C.Yes
      && (C.Agrees(env, o.syms) ==>
            C.Meaning(C.Bin(C.Lt, C.Name("A", []), C.Numeral(1, true)), env).value == 0)
      && C.Ordered(o.syms, C.Vocabulary(iset{C.Written(1, true)}, iset{"A"}))
  {
    hide C.ParseLevel;
    var o := Options(map["A" := C.Value(-1)], ignored, strict, killConsts);
    var a, n := C.Name("A", []), C.Numeral(1, true);
    var e := C.Bin(C.Lt, a, n);
    assert C.Eval(o.syms, strict, a) == C.Decided(-1) && C.Eval(o.syms, strict, n) == C.Decided(1);
    assert C.Print(a, 3) == [C.Word("A")];
    assert C.Print(n, 4) == [C.Num(1, true)];
    assert C.Print(e, 0) == C.Print(a, 3) + [C.Oper(C.Lt)] + C.Print(n, 4);
    assert C.Print(e, 0) == [C.Word("A"), C.Oper(C.Lt), C.Num(1, true)];
    assert C.Printable(a, o.syms) && C.Printable(n, o.syms);
    DecidedAsPrinted(o, e);
    assert C.Agrees(env, o.syms) ==> C.WorthAgrees(env, o.syms["A"], "A", []);
    SmallInOrder(o.syms);
  }

  lemma SmallInOrder(syms: C.Symbols)
    requires syms == map["A" := C.Value(-1)]
    ensures C.Ordered(syms, C.Vocabulary(iset{C.Written(1, true)}, iset{"A"}))
  {
    hide C.Truncate, C.Typed;
    var voc := C.Vocabulary(iset{C.Written(1, true)}, iset{"A"});
    forall n | C.Reaches(syms, voc, n) ensures n.Read() == n.value == n.Worth().value {
      C.FitsAsItIs(n);
    }
  }

  /** A known symbol, as a condition that holds. */
  function Holding(syms: C.Symbols, n: string): C.Expr
    requires n in syms
  {
    if syms[n].Undef? then C.Not(C.Defined(Some(n))) else C.Defined(Some(n))
  }

  /** A condition that is decided wrongly as false: the two numbers that compare differently when read, with a symbol beside them so
      that it does not count as constant. */
  ghost function Trap(o: Options, voc: C.Vocabulary, a: C.Written, b: C.Written): C.Expr
    requires C.Reaches(o.syms, voc, a) && C.Reaches(o.syms, voc, b)
  {
    var e := C.Misread(o.syms, voc, a, b);
    if o.syms != map[] then
      var n :| n in o.syms;
      C.Bin(C.And, e, Holding(o.syms, n))
    else if !o.strict then C.Bin(C.And, e, C.Defined(Some("X")))
    else e
  }

  /** A compiler that agrees with the command line and knows every other name. */
  function Knowing(syms: C.Symbols): C.Env {
    C.Env((arg: Option<string>) => arg.Some? && (arg.value in syms ==> !syms[arg.value].Undef?), C.EnvOf(syms).worth)
  }

  lemma KnowingAgrees(syms: C.Symbols)
    ensures C.Agrees(Knowing(syms), syms)
  {
  }

  lemma HoldingHolds(syms: C.Symbols, voc: C.Vocabulary, strict: bool, n: string)
    requires n in syms
    ensures var k := Holding(syms, n);
      && C.Eval(syms, strict, k).lt == C.Yes && C.Meaning(k, Knowing(syms)).value == 1
      && C.Over(k, voc) && C.Printable(k, syms) && !C.Constant(k)
  {
    var d := C.Defined(Some(n));
    assert C.Eval(syms, strict, d) == C.Decided(C.Truth(!syms[n].Undef?));
    assert C.Meaning(d, Knowing(syms)).value == C.Truth(!syms[n].Undef?);
    assert C.Over(d, voc) && C.Printable(d, syms) && !C.Constant(d);
  }

  /** A condition that is wrongly false stays so beside one that holds, or that lazy logic need not know. */
  lemma FalseBeside(syms: C.Symbols, voc: C.Vocabulary, strict: bool, e: C.Expr, k: C.Expr, env: C.Env)
    requires C.Eval(syms, strict, e) == C.Decided(0) && C.Meaning(e, env).value == 1 && C.Meaning(k, env).value != 0
    requires C.Eval(syms, strict, k).lt == C.Yes || (!strict && C.Eval(syms, strict, k).lt == C.Unsure)
    requires C.Over(e, voc) && C.Over(k, voc) && C.Printable(e, syms) && C.Printable(k, syms) && !C.Constant(k)
    ensures var t := C.Bin(C.And, e, k);
      && C.Eval(syms, strict, t).lt == C.No && C.Meaning(t, env).value == 1
      && C.Over(t, voc) && C.Printable(t, syms) && !C.Constant(t)
  {
  }

  lemma TrapIsWrong(o: Options, voc: C.Vocabulary, a: C.Written, b: C.Written)
    requires C.Reaches(o.syms, voc, a) && C.Reaches(o.syms, voc, b) && C.Clash(a, b)
    requires !Mute(o) && C.DEFINED !in voc.names
    ensures var e := Trap(o, voc, a, b);
      && C.Eval(o.syms, o.strict, e).lt == C.No && C.Over(e, voc) && C.Printable(e, o.syms)
      && (C.Constant(e) ==> o.killConsts) && C.Meaning(e, Knowing(o.syms)).value == 1
  {
    hide C.Misread, C.Reaches, C.Clash;
    C.MisreadIsNo(o.syms, voc, o.strict, a, b);
    KnowingAgrees(o.syms);
    C.MisreadIsTrue(o.syms, voc, a, b, Knowing(o.syms));
    var e, t := C.Misread(o.syms, voc, a, b), Trap(o, voc, a, b);
    if o.syms != map[] {
      var n :| n in o.syms && t == C.Bin(C.And, e, Holding(o.syms, n));
      HoldingHolds(o.syms, voc, o.strict, n);
      FalseBeside(o.syms, voc, o.strict, e, Holding(o.syms, n), Knowing(o.syms));
    } else if !o.strict {
      var k := C.Defined(Some("X"));
      FalseBeside(o.syms, voc, o.strict, e, k, Knowing(o.syms));
    }
  }

  /** The line with that condition is classified as false although the condition holds. */
  lemma TrapLine(o: Options, voc: C.Vocabulary, a: C.Written, b: C.Written)
    requires C.Reaches(o.syms, voc, a) && C.Reaches(o.syms, voc, b) && C.Clash(a, b)
    requires !Mute(o) && C.DEFINED !in voc.names
    ensures var line := IfLine(C.Print(Trap(o, voc, a, b), 0), false);
      && KindOf(o, line) == U.False && LineOver(o, voc, line)
      && (forall t :: Judges(o, line, Knowing(o.syms), t) <==> t)
  {
    hide C.ParseLevel, C.Eval, C.Print, C.Printable, C.Reaches, C.Clash, Trap, C.Over, Mute, C.Meaning, Knowing;
    TrapIsWrong(o, voc, a, b);
    var e := Trap(o, voc, a, b);
    var ts := C.Print(e, 0);
    assert C.Stands(ts, 0, ts);
    C.PrintThenParse(o.syms, e, 0, ts, 0);
  }

  /** Every file over a vocabulary keeps its meaning, for every agreeing compiler, if and only if its numbers are readable (in
      order when read into an int, and no negative one beside an unsigned one) or nothing is ever decided. */
  lemma ProgramExactly(o: Options, voc: C.Vocabulary, ioccc: bool)
    requires C.DEFINED !in voc.names
    ensures C.Readable(o.syms, voc) || Mute(o) <==>
            forall file: seq<Source>, envs: seq<C.Env>, truth: nat -> bool ::
              Compiles(o, file, envs, truth) && FileOver(o, voc, file) ==> Preserved(o, file, ioccc, truth)
  {
    hide C.Reaches, C.Clash, C.Readable, Mute, Compiles, FileOver, Preserved;
    if C.Readable(o.syms, voc) || Mute(o) {
      forall file: seq<Source>, envs: seq<C.Env>, truth: nat -> bool |
        Compiles(o, file, envs, truth) && FileOver(o, voc, file)
        ensures Preserved(o, file, ioccc, truth)
      {
        ProgramPreservesMeaning(o, voc, file, ioccc, envs, truth);
      }
    } else {
      var a, b := C.ClashExists(o.syms, voc);
      TrapFile(o, voc, a, b, ioccc);
    }
  }

  ghost function TrapFileOf(o: Options, voc: C.Vocabulary, a: C.Written, b: C.Written): seq<Source>
    requires C.Reaches(o.syms, voc, a) && C.Reaches(o.syms, voc, b)
  {
    [IfLine(C.Print(Trap(o, voc, a, b), 0), false), TextLine("text"), EndifLine([], false)]
  }

  /** Between that line and its end, text that the compiler would keep is lost. */
  lemma TrapFile(o: Options, voc: C.Vocabulary, a: C.Written, b: C.Written, ioccc: bool)
    requires C.Reaches(o.syms, voc, a) && C.Reaches(o.syms, voc, b) && C.Clash(a, b)
    requires !Mute(o) && C.DEFINED !in voc.names
    ensures var file, truth := TrapFileOf(o, voc, a, b), (n: nat) => true;
      && Compiles(o, file, seq(3, _ => Knowing(o.syms)), truth) && FileOver(o, voc, file)
      && !Preserved(o, file, ioccc, truth)
  {
    hide C.Reaches, C.Clash, Trap, C.Print, Mute, Decide, LineOver, Judges, C.Agrees;
    TrapLine(o, voc, a, b);
    KnowingAgrees(o.syms);
    var file, truth := TrapFileOf(o, voc, a, b), (n: nat) => true;
    assert Judges(o, file[0], Knowing(o.syms), truth(0));
    OtherLines(o, voc, Knowing(o.syms));
    OnlyDecides(o, file);
    U.ReadForgets(U.START, ClassifiedAll(o, file), truth);
    TextIsLost(ClassifiedAll(o, file), ioccc, truth);
  }

  lemma OtherLines(o: Options, voc: C.Vocabulary, env: C.Env)
    ensures LineOver(o, voc, TextLine("text")) && LineOver(o, voc, EndifLine([], false))
    ensures Judges(o, TextLine("text"), env, true) && Judges(o, EndifLine([], false), env, true)
  {
  }

  /** One group, wrongly taken for false. */
  lemma TextIsLost(lines: seq<U.Line>, ioccc: bool, truth: nat -> bool)
    requires lines == [U.Directive(U.False, false, 0), U.Plain("text"), U.Directive(U.Endif, false, 2)] && truth(0)
    ensures U.Unifdef(lines, ioccc) == U.Machine(U.Bottom, [], U.Done)
    ensures U.Read(U.START, lines, truth) != U.Read(U.START, [], truth)
  {
    var l1, l2 := lines[1..], lines[2..];
    assert l1[1..] == l2 && l2[1..] == [];
    var m1 := U.Step(U.INITIAL, lines[0], ioccc);
    assert m1 == U.Machine(U.Push(U.FalsePrefix, U.Bottom), [], U.Running);
    assert U.Step(m1, l1[0], ioccc) == m1;
    assert U.Step(m1, l2[0], ioccc) == U.INITIAL;
    assert U.Steps(m1, l1, ioccc) == U.Steps(m1, l2, ioccc) == U.Steps(U.INITIAL, [], ioccc);
    var r1 := U.ReadLine(U.START, lines[0], truth);
    var r2 := U.ReadLine(r1, l1[0], truth);
    assert r1.Within? && U.Active(r1.stack) && r1.kept == [];
    assert r2 == U.Within(r1.stack, ["text"]);
    assert U.Read(r1, l1, truth) == U.Read(r2, l2, truth) == U.ReadLine(r2, l2[0], truth);
  }
}
