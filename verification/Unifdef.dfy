/** Removing decided conditionals from C source: the table-driven state machine, against C conditional inclusion.

    A line is already classified; its condition is known by number, so that a truth assignment may treat
    two lines with the same text differently. */
module Unifdef {
  import opened Wrappers

  datatype Stack<T> = Bottom | Push(top: T, below: Stack<T>)

  function Size<T>(s: Stack<T>): nat {
    if s.Bottom? then 0 else 1 + Size(s.below)
  }

  /** Kinds of directive.  `TrueI` and `FalseI` are decided by an ignored symbol; `If` and `Elif` are undecided. */
  datatype Kind = TrueI | FalseI | If | True | False | Elif | ElTrue | ElFalse | Else | Endif

  /** A `dodgy` directive does not stand on one line. */
  datatype Line = Directive(kind: Kind, dodgy: bool, cond: nat) | Plain(text: string)

  predicate Opens(k: Kind) {
    k.TrueI? || k.FalseI? || k.If? || k.True? || k.False?
  }

  // ---------------------------------------------------------------------------------------------
  // C conditional inclusion.

  /** An open group: is the text around it included, has a branch been taken, is the current branch included,
      has #else been seen? */
  datatype Frame = Frame(outer: bool, taken: bool, active: bool, sawElse: bool)

  datatype Reader = Malformed | Within(stack: Stack<Frame>, kept: seq<string>)

  predicate Active(s: Stack<Frame>) {
    s.Bottom? || s.top.active
  }

  function FrameStep(f: Frame, k: Kind, t: bool): (r: Option<Frame>)
    requires !Opens(k) && k != Endif
  {
    if f.sawElse then None
    else if k == Else then Some(Frame(f.outer, true, f.outer && !f.taken, true))
    else Some(Frame(f.outer, f.taken || t, f.outer && !f.taken && t, false))
  }

  function StackStep(s: Stack<Frame>, k: Kind, t: bool): (r: Option<Stack<Frame>>) {
    if Opens(k) then Some(Push(Frame(Active(s), t, Active(s) && t, false), s))
    else if s.Bottom? then None
    else if k == Endif then Some(s.below)
    else
      var f := FrameStep(s.top, k, t);
      if f.None? then None else Some(Push(f.value, s.below))
  }

  function ReadLine(r: Reader, line: Line, truth: nat -> bool): Reader {
    if r.Malformed? then Malformed
    else match line
      case Plain(text) => if Active(r.stack) then Within(r.stack, r.kept + [text]) else r
      case Directive(k, _, c) =>
        var s := StackStep(r.stack, k, truth(c));
        if s.None? then Malformed else Within(s.value, r.kept)
  }

  function Read(r: Reader, lines: seq<Line>, truth: nat -> bool): Reader
    decreases |lines|
  {
    if lines == [] then r else Read(ReadLine(r, lines[0], truth), lines[1..], truth)
  }

  const START := Within(Bottom, [])

  /** The conditions that are decided have the truth value they were given. */
  ghost predicate Consistent(lines: seq<Line>, truth: nat -> bool) {
    forall i :: 0 <= i < |lines| ==> LineConsistent(lines[i], truth)
  }

  ghost predicate LineConsistent(line: Line, truth: nat -> bool) {
    line.Directive? ==> Fitting(line.kind, truth(line.cond))
  }

  predicate Fitting(k: Kind, t: bool) {
    (k.TrueI? || k.True? || k.ElTrue? ==> t) && (k.FalseI? || k.False? || k.ElFalse? ==> !t)
  }

  // ---------------------------------------------------------------------------------------------
  // The transition table.

  datatype Ifstate =
    | Outside | FalsePrefix | TruePrefix | PassMiddle | FalseMiddle | TrueMiddle | PassElse | FalseElse | TrueElse | FalseTrailer

  datatype Why = BadElif | BadElse | BadEndif | BadEof | Obfuscated | TooDeep | Abort

  datatype Action =
    | Eelif | Eelse | Eendif | Eioccc
    | Strue | Sfalse | Selse
    | Pelif | Pelse | Pendif
    | Dfalse | Delif | Delse | Dendif
    | Fdrop | Fpass | Ftrue | Ffalse
    | Oiffy | Oif | Oelif
    | Idrop | Itrue | Ifalse
    | Mpass | Mtrue | Melif | Melse

  /** The states in which plain lines are printed. */
  predicate Printing(s: Ifstate) {
    !s.FalsePrefix? && !s.FalseMiddle? && !s.FalseElse? && !s.FalseTrailer?
  }

  /** The columns of the directives that open a group. */
  function OpenColumn(s: Ifstate, k: Kind, dodgy: bool): Action
    requires Opens(k)
  {
    if !Printing(s) then (if k.TrueI? || k.FalseI? then Idrop else Fdrop)
    else if dodgy then (if k.If? then Fpass else if k.TrueI? || k.FalseI? then Oiffy else Oif)
    else match k
      case TrueI => Itrue
      case FalseI => Ifalse
      case If => Fpass
      case True => Ftrue
      case False => Ffalse
  }

  /** The other columns, for directives that stand on one line. */
  function Column(s: Ifstate, k: Kind): Action
    requires !Opens(k)
  {
    match s
    case Outside => (match k case Else => Eelse case Endif => Eendif case _ => Eelif)
    case FalsePrefix =>
      (match k case Elif => Mpass case ElTrue => Strue case ElFalse => Sfalse case Else => Selse case _ => Dendif)
    case TruePrefix => (match k case Else => Delse case Endif => Dendif case _ => Dfalse)
    case PassMiddle =>
      (match k case Elif => Pelif case ElTrue => Mtrue case ElFalse => Delif case Else => Pelse case _ => Pendif)
    case FalseMiddle =>
      (match k case Elif => Pelif case ElTrue => Mtrue case ElFalse => Delif case Else => Pelse case _ => Pendif)
    case TrueMiddle => (match k case Else => Melse case Endif => Pendif case _ => Melif)
    case PassElse => (match k case Else => Eelse case Endif => Pendif case _ => Eelif)
    case FalseElse => (match k case Else => Eelse case Endif => Dendif case _ => Eelif)
    case TrueElse => (match k case Else => Eelse case Endif => Dendif case _ => Eelif)
    case FalseTrailer => (match k case Else => Delse case Endif => Dendif case _ => Dfalse)
  }

  function DodgyColumn(s: Ifstate, k: Kind): Action
    requires !Opens(k)
  {
    match s
    case Outside => (match k case Else => Eelse case Endif => Eendif case _ => Eelif)
    case FalsePrefix => (match k case Elif => Mpass case _ => Eioccc)
    case TruePrefix => Eioccc
    case PassMiddle => (match k case Elif => Pelif case Else => Pelse case Endif => Pendif case _ => Oelif)
    case FalseMiddle => Eioccc
    case TrueMiddle => (match k case Endif => Pendif case _ => Eioccc)
    case PassElse => (match k case Else => Eelse case Endif => Pendif case _ => Eelif)
    case FalseElse => (match k case Else => Eelse case Endif => Eioccc case _ => Eelif)
    case TrueElse => (match k case Else => Eelse case Endif => Eioccc case _ => Eelif)
    case FalseTrailer => (match k case Else => Delse case Endif => Eioccc case _ => Dfalse)
  }

  function Trans(s: Ifstate, k: Kind, dodgy: bool): Action {
    if Opens(k) then OpenColumn(s, k, dodgy) else if dodgy then DodgyColumn(s, k) else Column(s, k)
  }

  // ---------------------------------------------------------------------------------------------
  // What a transition does.

  /** What becomes of the line. */
  datatype Emit = Drop | Keep | AsIf | AsElse | AsEndif

  datatype Next = Goto(s: Ifstate) | Leave

  datatype Effect = Fails(why: Why) | Does(nest: bool, emit: Emit, next: Next)

  function EffectOf(a: Action, ioccc: bool): Effect {
    match a
    case Eelif => Fails(BadElif)
    case Eelse => Fails(BadElse)
    case Eendif => Fails(BadEndif)
    case Eioccc => Fails(Obfuscated)
    case Strue => Does(false, Drop, Goto(TruePrefix))
    case Sfalse => Does(false, Drop, Goto(FalsePrefix))
    case Selse => Does(false, Drop, Goto(TrueElse))
    case Pelif => Does(false, Keep, Goto(PassMiddle))
    case Pelse => Does(false, Keep, Goto(PassElse))
    case Pendif => Does(false, Keep, Leave)
    case Dfalse => Does(false, Drop, Goto(FalseTrailer))
    case Delif => Does(false, Drop, Goto(FalseMiddle))
    case Delse => Does(false, Drop, Goto(FalseElse))
    case Dendif => Does(false, Drop, Leave)
    case Fdrop | Idrop => Does(true, Drop, Goto(FalseTrailer))
    case Fpass => Does(true, Keep, Goto(PassMiddle))
    case Ftrue | Itrue => Does(true, Drop, Goto(TruePrefix))
    case Ffalse | Ifalse => Does(true, Drop, Goto(FalsePrefix))
    case Oiffy | Oif => if ioccc then Does(true, Keep, Goto(PassMiddle)) else Fails(Obfuscated)
    case Oelif => if ioccc then Does(false, Keep, Goto(PassMiddle)) else Fails(Obfuscated)
    case Mpass => Does(false, AsIf, Goto(PassMiddle))
    case Mtrue => Does(false, AsElse, Goto(TrueMiddle))
    case Melif => Does(false, AsEndif, Goto(FalseTrailer))
    case Melse => Does(false, AsEndif, Goto(FalseElse))
  }

  /** The line that is written, if any. */
  function Emitted(e: Emit, line: Line): (r: seq<Line>)
    requires line.Directive?
    ensures |r| <= 1
  {
    match e
    case Drop => []
    case Keep => [line]
    case AsIf => [line.(kind := If)]
    case AsElse => [Directive(Else, false, line.cond)]
    case AsEndif => [Directive(Endif, false, line.cond)]
  }

  const MAXDEPTH: nat := 64

  datatype Status = Running | Done | Failed(why: Why)

  datatype Machine = Machine(states: Stack<Ifstate>, out: seq<Line>, status: Status)

  function Top(s: Stack<Ifstate>): Ifstate {
    if s.Bottom? then Outside else s.top
  }

  function Move(s: Stack<Ifstate>, nest: bool, next: Next): (r: Option<Stack<Ifstate>>) {
    if nest then (if next.Goto? then Some(Push(next.s, s)) else Some(s))
    else if s.Bottom? then None
    else if next.Goto? then Some(Push(next.s, s.below)) else Some(s.below)
  }

  function Perform(m: Machine, e: Effect, line: Line): Machine
    requires line.Directive?
  {
    if e.Fails? then m.(status := Failed(e.why))
    else if e.nest && Size(m.states) > MAXDEPTH - 1 then m.(status := Failed(Abort))
    else if e.nest && Size(m.states) == MAXDEPTH - 1 then m.(status := Failed(TooDeep))
    else
      var s := Move(m.states, e.nest, e.next);
      if s.None? then m.(status := Failed(Abort)) else Machine(s.value, m.out + Emitted(e.emit, line), Running)
  }

  function Step(m: Machine, line: Line, ioccc: bool): Machine {
    if !m.status.Running? then m
    else match line
      case Plain(_) => if Printing(Top(m.states)) then m.(out := m.out + [line]) else m
      case Directive(k, dodgy, _) => Perform(m, EffectOf(Trans(Top(m.states), k, dodgy), ioccc), line)
  }

  function Steps(m: Machine, lines: seq<Line>, ioccc: bool): Machine
    decreases |lines|
  {
    if lines == [] then m else Steps(Step(m, lines[0], ioccc), lines[1..], ioccc)
  }

  /** The end of the file is in order only outside all groups. */
  function AtEof(m: Machine): Machine {
    if !m.status.Running? then m
    else m.(status := if m.states.Bottom? then Done else Failed(BadEof))
  }

  const INITIAL := Machine(Bottom, [], Running)

  function Unifdef(lines: seq<Line>, ioccc: bool): Machine {
    AtEof(Steps(INITIAL, lines, ioccc))
  }

  // ---------------------------------------------------------------------------------------------
  // The simulation: at every line, the states relate what a compiler would have seen in the input to what it would
  // have seen in the output.

  /** Is the group open in the output? */
  predicate Written(q: Ifstate) {
    q.PassMiddle? || q.FalseMiddle? || q.TrueMiddle? || q.PassElse?
  }

  predicate Hidden(q: Ifstate, f: Frame) {
    match q
    case FalsePrefix => !f.taken && !f.active && !f.sawElse
    case TruePrefix => f.taken && f.active == f.outer && !f.sawElse
    case TrueElse => f.active == f.outer && f.sawElse
    case FalseElse => !f.active && f.sawElse
    case FalseTrailer => !f.active && (f.taken || !f.outer) && !f.sawElse
    case _ => false
  }

  predicate Paired(q: Ifstate, f: Frame, g: Frame) {
    f.outer == g.outer && (match q
      case PassMiddle => f == g && !f.sawElse
      case FalseMiddle => !f.active && f.taken == g.taken && !f.sawElse && !g.sawElse
      case TrueMiddle => f.taken && f.active == g.active && !f.sawElse && g.sawElse
      case PassElse => f.active == g.active && f.sawElse && g.sawElse
      case _ => false)
  }

  /** Under a dropped group there are only dropped groups. */
  predicate Below(q: Ifstate, parent: Ifstate) {
    Printing(parent) || q == FalseTrailer || q == FalseElse
  }

  ghost predicate Linked(qs: Stack<Ifstate>, ins: Stack<Frame>, outs: Stack<Frame>) {
    match qs
    case Bottom => ins.Bottom? && outs.Bottom?
    case Push(q, below) =>
      && ins.Push? && ins.top.outer == Active(ins.below) && Below(q, Top(below))
      && if Written(q)
         then outs.Push? && Linked(below, ins.below, outs.below) && Paired(q, ins.top, outs.top)
         else Linked(below, ins.below, outs) && Hidden(q, ins.top)
  }

  /** Printed lines are seen alike; dropped lines are not seen. */
  lemma {:induction false} SeenAlike(qs: Stack<Ifstate>, ins: Stack<Frame>, outs: Stack<Frame>)
    requires Linked(qs, ins, outs)
    ensures if Printing(Top(qs)) then Active(ins) == Active(outs) else !Active(ins)
  {
    if qs.Push? && !Written(qs.top) {
      SeenAlike(qs.below, ins.below, outs);
    }
  }

  /** The directive that the output has in place of one of kind `k`. */
  function Rewritten(k: Kind, e: Emit): Kind
    requires e != Drop
  {
    match e
    case Keep => k
    case AsIf => If
    case AsElse => Else
    case AsEndif => Endif
  }

  /** The readers of both files can go on and stay related. */
  ghost predicate Goes(e: Effect, qs: Stack<Ifstate>, ins: Stack<Frame>, outs: Stack<Frame>, k: Kind, t: bool)
    requires e.Does?
  {
    var qs' := Move(qs, e.nest, e.next);
    var ins' := StackStep(ins, k, t);
    var outs' := if e.emit == Drop then Some(outs) else StackStep(outs, Rewritten(k, e.emit), t);
    qs'.Some? && ins'.Some? && outs'.Some? && Linked(qs'.value, ins'.value, outs'.value)
  }

  lemma OpeningStep(qs: Stack<Ifstate>, ins: Stack<Frame>, outs: Stack<Frame>, k: Kind, dodgy: bool, ioccc: bool, t: bool)
    requires Linked(qs, ins, outs) && Opens(k) && Fitting(k, t)
    ensures var e := EffectOf(Trans(Top(qs), k, dodgy), ioccc); e.Does? ==> Goes(e, qs, ins, outs, k, t)
  {
    hide EffectOf, Trans, Hidden, Paired;
    SeenAlike(qs, ins, outs);
    OpeningEffect(Top(qs), k, dodgy, ioccc);
    OpeningFrame(Active(ins), t);
  }

  lemma OpeningEffect(q: Ifstate, k: Kind, dodgy: bool, ioccc: bool)
    requires Opens(k)
    ensures var e := EffectOf(Trans(q, k, dodgy), ioccc);
      e.Does? ==> (
        && e.nest && e.next.Goto?
        && if !Printing(q) then e.emit == Drop && e.next.s == FalseTrailer
           else
             || (e.emit == Keep && e.next.s == PassMiddle)
             || (e.emit == Drop && e.next.s == TruePrefix && (k.True? || k.TrueI?))
             || (e.emit == Drop && e.next.s == FalsePrefix && (k.False? || k.FalseI?)))
  {
  }

  lemma OpeningFrame(outer: bool, t: bool)
    ensures var f := Frame(outer, t, outer && t, false);
      && Paired(PassMiddle, f, f)
      && (t ==> Hidden(TruePrefix, f)) && (!t ==> Hidden(FalsePrefix, f)) && (!outer ==> Hidden(FalseTrailer, f))
  {
  }

  /** A group that is not in the output: its frame stays hidden, or a new group starts in the output. */
  predicate HiddenGoes(e: Effect, parent: Ifstate, f: Frame, k: Kind, t: bool)
    requires e.Does? && !Opens(k)
  {
    && !e.nest
    && if k == Endif then e.next == Leave && e.emit == Drop
       else
         var f' := FrameStep(f, k, t);
         && f'.Some? && e.next.Goto? && Below(e.next.s, parent)
         && if e.emit == Drop then !Written(e.next.s) && Hidden(e.next.s, f'.value)
            else e.emit == AsIf && e.next.s == PassMiddle && f'.value == Frame(f.outer, t, f.outer && t, false)
  }

  lemma HiddenFrame(q: Ifstate, parent: Ifstate, f: Frame, k: Kind, dodgy: bool, ioccc: bool, t: bool)
    requires !Written(q) && Below(q, parent) && Hidden(q, f) && !Opens(k) && Fitting(k, t)
    ensures var e := EffectOf(Trans(q, k, dodgy), ioccc);
      e.Does? ==> HiddenGoes(e, parent, f, k, t) && (e.emit == AsIf ==> Printing(parent))
  {
    hide EffectOf, Trans;
    HiddenEffect(q, k, dodgy, ioccc);
  }

  lemma HiddenEffect(q: Ifstate, k: Kind, dodgy: bool, ioccc: bool)
    requires !Written(q) && !q.Outside? && !Opens(k)
    ensures var e := EffectOf(Trans(q, k, dodgy), ioccc);
      e.Does? ==> (
        && !e.nest
        && if k == Endif then e.emit == Drop && e.next == Leave
           else
             && !q.TrueElse? && !q.FalseElse?
             && if !q.FalsePrefix? then e.emit == Drop && e.next == Goto(if k == Else then FalseElse else FalseTrailer)
                else if k == Elif then e.emit == AsIf && e.next == Goto(PassMiddle)
                else e.emit == Drop && e.next == Goto(if k == Else then TrueElse else if k == ElTrue then TruePrefix else FalsePrefix))
  {
  }

  /** A group that is in the output: both frames move alike, or the output's group ends early. */
  predicate PairedGoes(e: Effect, parent: Ifstate, f: Frame, g: Frame, k: Kind, t: bool)
    requires e.Does? && !Opens(k)
  {
    && !e.nest
    && if k == Endif then e.next == Leave && e.emit == Keep
       else
         var f' := FrameStep(f, k, t);
         && f'.Some? && e.next.Goto? && Below(e.next.s, parent)
         && match e.emit
            case Drop => Written(e.next.s) && Paired(e.next.s, f'.value, g)
            case AsEndif => !Written(e.next.s) && Hidden(e.next.s, f'.value)
            case AsIf => false
            case _ =>
              var g' := FrameStep(g, if e.emit == Keep then k else Else, t);
              g'.Some? && Written(e.next.s) && Paired(e.next.s, f'.value, g'.value)
  }

  lemma PairedFrame(q: Ifstate, parent: Ifstate, f: Frame, g: Frame, k: Kind, dodgy: bool, ioccc: bool, t: bool)
    requires Written(q) && Below(q, parent) && Paired(q, f, g) && !Opens(k) && Fitting(k, t)
    ensures var e := EffectOf(Trans(q, k, dodgy), ioccc); e.Does? ==> PairedGoes(e, parent, f, g, k, t)
  {
    hide EffectOf, Trans;
    PairedEffect(q, k, dodgy, ioccc);
  }

  lemma PairedEffect(q: Ifstate, k: Kind, dodgy: bool, ioccc: bool)
    requires Written(q) && !Opens(k)
    ensures var e := EffectOf(Trans(q, k, dodgy), ioccc);
      e.Does? ==> (
        && !e.nest
        && if k == Endif then e.emit == Keep && e.next == Leave
           else if q.TrueMiddle? then e.emit == AsEndif && e.next == Goto(if k == Else then FalseElse else FalseTrailer)
           else
             && !q.PassElse?
             && (|| (e.emit == Keep && e.next == Goto(if k == Else then PassElse else PassMiddle))
                 || (e.emit == AsElse && e.next == Goto(TrueMiddle) && k == ElTrue)
                 || (e.emit == Drop && e.next == Goto(FalseMiddle) && k == ElFalse)))
  {
  }

  lemma HiddenStep(qs: Stack<Ifstate>, ins: Stack<Frame>, outs: Stack<Frame>, k: Kind, e: Effect, t: bool)
    requires Linked(qs, ins, outs) && qs.Push? && !Written(qs.top) && !Opens(k)
    requires e.Does? && HiddenGoes(e, Top(qs.below), ins.top, k, t) && (e.emit == AsIf ==> Printing(Top(qs.below)))
    ensures Goes(e, qs, ins, outs, k, t)
  {
    hide Hidden;
    SeenAlike(qs.below, ins.below, outs);
  }

  lemma PairedStep(qs: Stack<Ifstate>, ins: Stack<Frame>, outs: Stack<Frame>, k: Kind, e: Effect, t: bool)
    requires Linked(qs, ins, outs) && qs.Push? && Written(qs.top) && !Opens(k)
    requires e.Does? && PairedGoes(e, Top(qs.below), ins.top, outs.top, k, t)
    ensures Goes(e, qs, ins, outs, k, t)
  {
    hide Hidden, Paired;
  }

  /** One directive: the relation is kept, and neither file becomes malformed. */
  lemma DirectiveStep(qs: Stack<Ifstate>, ins: Stack<Frame>, outs: Stack<Frame>, k: Kind, dodgy: bool, ioccc: bool, t: bool)
    requires Linked(qs, ins, outs) && Fitting(k, t)
    ensures var e := EffectOf(Trans(Top(qs), k, dodgy), ioccc); e.Does? ==> Goes(e, qs, ins, outs, k, t)
  {
    hide Goes, EffectOf, Trans;
    var e := EffectOf(Trans(Top(qs), k, dodgy), ioccc);
    if Opens(k) {
      OpeningStep(qs, ins, outs, k, dodgy, ioccc, t);
    } else if qs.Push? {
      if Written(qs.top) {
        PairedFrame(qs.top, Top(qs.below), ins.top, outs.top, k, dodgy, ioccc, t);
        if e.Does? {
          PairedStep(qs, ins, outs, k, e, t);
        }
      } else {
        HiddenFrame(qs.top, Top(qs.below), ins.top, k, dodgy, ioccc, t);
        if e.Does? {
          HiddenStep(qs, ins, outs, k, e, t);
        }
      }
    } else {
      OutsideFails(k, dodgy, ioccc);
    }
  }

  lemma OutsideFails(k: Kind, dodgy: bool, ioccc: bool)
    requires !Opens(k)
    ensures EffectOf(Trans(Outside, k, dodgy), ioccc).Fails?
  {
  }

  // ---------------------------------------------------------------------------------------------
  // Whole files.

  lemma {:induction false} ReadAppend(r: Reader, a: seq<Line>, b: seq<Line>, truth: nat -> bool)
    ensures Read(r, a + b, truth) == Read(Read(r, a, truth), b, truth)
    ensures Fits(r, a + b, truth) <==> Fits(r, a, truth) && Fits(Read(r, a, truth), b, truth)
    decreases |a|
  {
    if a == [] {
      assert a + b == b;
    } else {
      assert (a + b)[1..] == a[1..] + b;
      ReadAppend(ReadLine(r, a[0], truth), a[1..], b, truth);
    }
  }

  /** Groups are never nested deeper than the table allows. */
  ghost predicate Fits(r: Reader, lines: seq<Line>, truth: nat -> bool)
    decreases |lines|
  {
    lines == [] ||
    var r' := ReadLine(r, lines[0], truth);
    (r'.Within? ==> Size(r'.stack) < MAXDEPTH) && Fits(r', lines[1..], truth)
  }

  lemma {:induction false} LinkedSizes(qs: Stack<Ifstate>, ins: Stack<Frame>, outs: Stack<Frame>)
    requires Linked(qs, ins, outs)
    ensures Size(outs) <= Size(qs) == Size(ins)
  {
    if qs.Push? {
      LinkedSizes(qs.below, ins.below, if Written(qs.top) then outs.below else outs);
    }
  }

  /** The machine has read what `r` has read, and what it wrote so far reads alike. */
  ghost predicate Simulates(m: Machine, r: Reader, truth: nat -> bool) {
    var o := Read(START, m.out, truth);
    && m.status.Running? && Size(m.states) < MAXDEPTH && r.Within? && o.Within?
    && o.kept == r.kept && Linked(m.states, r.stack, o.stack) && Fits(START, m.out, truth)
  }

  lemma OneMore(out: seq<Line>, line: Line, truth: nat -> bool)
    ensures Read(START, out + [line], truth) == ReadLine(Read(START, out, truth), line, truth)
    ensures var r := ReadLine(Read(START, out, truth), line, truth);
      Fits(START, out, truth) && (r.Within? ==> Size(r.stack) < MAXDEPTH) ==> Fits(START, out + [line], truth)
  {
    ReadAppend(START, out, [line], truth);
    var r := Read(START, out, truth);
    assert [line][1..] == [];
    assert Read(r, [line], truth) == ReadLine(r, line, truth);
  }

  lemma StepSimulates(m: Machine, line: Line, ioccc: bool, truth: nat -> bool, r: Reader)
    requires Simulates(m, r, truth) && LineConsistent(line, truth)
    ensures Step(m, line, ioccc).status.Failed? || Simulates(Step(m, line, ioccc), ReadLine(r, line, truth), truth)
  {
    hide Linked, Fits, Read, EffectOf, Trans, StackStep;
    var o := Read(START, m.out, truth);
    match line
    case Plain(text) =>
      SeenAlike(m.states, r.stack, o.stack);
      LinkedSizes(m.states, r.stack, o.stack);
      OneMore(m.out, line, truth);
    case Directive(k, dodgy, c) =>
      var e := EffectOf(Trans(Top(m.states), k, dodgy), ioccc);
      DirectiveStep(m.states, r.stack, o.stack, k, dodgy, ioccc, truth(c));
      if e.Does? {
        MoveSimulates(m, line, e, truth, r);
      }
  }

  lemma MoveSimulates(m: Machine, line: Line, e: Effect, truth: nat -> bool, r: Reader)
    requires Simulates(m, r, truth) && line.Directive? && e.Does?
    requires Goes(e, m.states, r.stack, Read(START, m.out, truth).stack, line.kind, truth(line.cond))
    ensures var m' := Perform(m, e, line);
      m'.status == Failed(TooDeep) || Simulates(m', ReadLine(r, line, truth), truth)
  {
    hide Linked, Fits, Read, StackStep;
    var qs := Move(m.states, e.nest, e.next).value;
    var ins := StackStep(r.stack, line.kind, truth(line.cond)).value;
    var o := Read(START, m.out, truth);
    if e.emit == Drop {
      LinkedSizes(qs, ins, o.stack);
      assert m.out + Emitted(e.emit, line) == m.out;
    } else {
      var x := Emitted(e.emit, line)[0];
      LinkedSizes(qs, ins, StackStep(o.stack, x.kind, truth(x.cond)).value);
      OneMore(m.out, x, truth);
      assert Emitted(e.emit, line) == [x];
    }
  }

  lemma {:induction false} StepsSimulate(m: Machine, lines: seq<Line>, ioccc: bool, truth: nat -> bool, r: Reader)
    requires Simulates(m, r, truth) && Consistent(lines, truth)
    ensures Steps(m, lines, ioccc).status.Failed? || Simulates(Steps(m, lines, ioccc), Read(r, lines, truth), truth)
    decreases |lines|
  {
    hide Simulates, Step;
    if lines != [] {
      StepSimulates(m, lines[0], ioccc, truth, r);
      var m' := Step(m, lines[0], ioccc);
      if m'.status.Failed? {
        FailedStays(m', lines[1..], ioccc);
      } else {
        StepsSimulate(m', lines[1..], ioccc, truth, ReadLine(r, lines[0], truth));
      }
    }
  }

  lemma {:induction false} FailedStays(m: Machine, lines: seq<Line>, ioccc: bool)
    requires m.status.Failed?
    ensures Steps(m, lines, ioccc) == m
    decreases |lines|
  {
    if lines != [] {
      FailedStays(m, lines[1..], ioccc);
    }
  }

  /** A file read to its end, with all groups closed. */
  predicate Complete(r: Reader) {
    r.Within? && r.stack.Bottom?
  }

  lemma InitialSimulates(truth: nat -> bool)
    ensures Simulates(INITIAL, START, truth)
  {
  }

  /** When unifdef succeeds, its input and its output are well nested and leave the same text, for every truth
      assignment that agrees with the conditions decided. */
  lemma MeaningPreserved(lines: seq<Line>, ioccc: bool, truth: nat -> bool)
    requires Consistent(lines, truth) && Unifdef(lines, ioccc).status.Done?
    ensures Complete(Read(START, lines, truth))
    ensures Read(START, Unifdef(lines, ioccc).out, truth) == Read(START, lines, truth)
    ensures Fits(START, Unifdef(lines, ioccc).out, truth)
  {
    InitialSimulates(truth);
    StepsSimulate(INITIAL, lines, ioccc, truth, START);
  }

  /** The internal consistency checks never fire: nest is not entered beyond the array, and nothing leaves or looks below the
      outermost level. */
  lemma {:induction false} NeverAborts(m: Machine, lines: seq<Line>, ioccc: bool)
    requires m.status != Failed(Abort) && Size(m.states) < MAXDEPTH
    ensures Size(Steps(m, lines, ioccc).states) < MAXDEPTH
    ensures AtEof(Steps(m, lines, ioccc)).status != Failed(Abort)
    decreases |lines|
  {
    hide EffectOf, Trans;
    if lines != [] {
      if lines[0].Directive? {
        NoAbort(Top(m.states), lines[0].kind, lines[0].dodgy, ioccc);
      }
      NeverAborts(Step(m, lines[0], ioccc), lines[1..], ioccc);
    }
  }

  lemma NoAbort(q: Ifstate, k: Kind, dodgy: bool, ioccc: bool)
    ensures var e := EffectOf(Trans(q, k, dodgy), ioccc);
      e != Fails(Abort) && (q.Outside? && e.Does? ==> e.nest && e.next.Goto?)
  {
  }

  // ---------------------------------------------------------------------------------------------
  // Files without dodgy lines: exactly the well-nested ones succeed, and nothing decided is left.

  ghost predicate OneLine(lines: seq<Line>) {
    forall i :: 0 <= i < |lines| && lines[i].Directive? ==> !lines[i].dodgy
  }

  lemma FailsRightly(qs: Stack<Ifstate>, ins: Stack<Frame>, outs: Stack<Frame>, k: Kind, ioccc: bool, t: bool)
    requires Linked(qs, ins, outs) && EffectOf(Trans(Top(qs), k, false), ioccc).Fails?
    ensures StackStep(ins, k, t).None?
  {
    hide EffectOf, Trans;
    FailsWhen(Top(qs), k, ioccc);
  }

  /** Without dodgy lines errors are for what closes no group, and for what follows #else. */
  lemma FailsWhen(q: Ifstate, k: Kind, ioccc: bool)
    requires EffectOf(Trans(q, k, false), ioccc).Fails?
    ensures !Opens(k) && (q.Outside? || (k != Endif && (q.PassElse? || q.TrueElse? || q.FalseElse?)))
  {
  }

  lemma NestsOnlyOpening(q: Ifstate, k: Kind, dodgy: bool, ioccc: bool)
    ensures var e := EffectOf(Trans(q, k, dodgy), ioccc); e.Does? ==> (e.nest <==> Opens(k)) && (e.nest ==> e.next.Goto?)
  {
  }

  lemma StepExact(m: Machine, line: Line, ioccc: bool, truth: nat -> bool, r: Reader)
    requires Simulates(m, r, truth) && (line.Directive? ==> !line.dodgy)
    requires Step(m, line, ioccc).status.Failed?
    ensures var r' := ReadLine(r, line, truth); r'.Malformed? || Size(r'.stack) >= MAXDEPTH
  {
    hide Linked, Fits, Read, EffectOf, Trans;
    var o := Read(START, m.out, truth);
    var k := line.kind;
    var e := EffectOf(Trans(Top(m.states), k, false), ioccc);
    NestsOnlyOpening(Top(m.states), k, false, ioccc);
    LinkedSizes(m.states, r.stack, o.stack);
    if e.Fails? {
      FailsRightly(m.states, r.stack, o.stack, k, ioccc, truth(line.cond));
    } else if !e.nest {
      assert m.states.Bottom?;
      assert r.stack.Bottom?;
    }
  }

  lemma {:induction false} MalformedStays(lines: seq<Line>, truth: nat -> bool)
    ensures Read(Malformed, lines, truth) == Malformed
    decreases |lines|
  {
    if lines != [] {
      MalformedStays(lines[1..], truth);
    }
  }

  lemma {:induction false} ExactFrom(m: Machine, lines: seq<Line>, ioccc: bool, truth: nat -> bool, r: Reader)
    requires Simulates(m, r, truth) && Consistent(lines, truth) && OneLine(lines)
    ensures AtEof(Steps(m, lines, ioccc)).status.Done? <==> Complete(Read(r, lines, truth)) && Fits(r, lines, truth)
    decreases |lines|
  {
    hide Step, ReadLine, Linked;
    if lines == [] {
      assert m.states.Bottom? <==> r.stack.Bottom? by {
        LinkedSizes(m.states, r.stack, Read(START, m.out, truth).stack);
      }
    } else {
      var m', r' := Step(m, lines[0], ioccc), ReadLine(r, lines[0], truth);
      StepSimulates(m, lines[0], ioccc, truth, r);
      if m'.status.Failed? {
        FailedStays(m', lines[1..], ioccc);
        StepExact(m, lines[0], ioccc, truth, r);
        MalformedStays(lines[1..], truth);
      } else {
        LinkedSizes(m'.states, r'.stack, Read(START, m'.out, truth).stack);
        ExactFrom(m', lines[1..], ioccc, truth, r');
      }
    }
  }

  /** Without dodgy lines, unifdef fails exactly on files that are not well nested or nest too deep. */
  lemma SucceedsExactly(lines: seq<Line>, ioccc: bool, truth: nat -> bool)
    requires Consistent(lines, truth) && OneLine(lines)
    ensures Unifdef(lines, ioccc).status.Done? <==> Complete(Read(START, lines, truth)) && Fits(START, lines, truth)
  {
    InitialSimulates(truth);
    ExactFrom(INITIAL, lines, ioccc, truth, START);
  }

  predicate Undecided(line: Line) {
    line.Directive? ==> !line.dodgy && (line.kind.If? || line.kind.Elif? || line.kind.Else? || line.kind.Endif?)
  }

  ghost predicate AllUndecided(lines: seq<Line>) {
    forall i :: 0 <= i < |lines| ==> Undecided(lines[i])
  }

  lemma EmitsUndecided(q: Ifstate, line: Line, ioccc: bool)
    requires line.Directive? && !line.dodgy
    ensures var e := EffectOf(Trans(q, line.kind, false), ioccc); e.Does? ==> AllUndecided(Emitted(e.emit, line))
  {
  }

  lemma {:induction false} LeavesUndecided(m: Machine, lines: seq<Line>, ioccc: bool)
    requires AllUndecided(m.out) && OneLine(lines)
    ensures AllUndecided(Steps(m, lines, ioccc).out)
    decreases |lines|
  {
    hide EffectOf, Trans, Emitted, Move;
    if lines != [] {
      if lines[0].Directive? {
        EmitsUndecided(Top(m.states), lines[0], ioccc);
      }
      LeavesUndecided(Step(m, lines[0], ioccc), lines[1..], ioccc);
    }
  }

  ghost predicate Passing(qs: Stack<Ifstate>) {
    qs.Bottom? || ((qs.top.PassMiddle? || qs.top.PassElse?) && Passing(qs.below))
  }

  /** In a file with nothing decided, every line is kept as it is. */
  lemma {:induction false} KeepsUndecided(m: Machine, lines: seq<Line>, ioccc: bool)
    requires Passing(m.states) && AllUndecided(lines)
    ensures var m' := Steps(m, lines, ioccc); m.status.Running? ==> m'.status.Failed? || m'.out == m.out + lines
    decreases |lines|
  {
    if lines == [] {
      assert m.out + lines == m.out;
    } else {
      var m' := Step(m, lines[0], ioccc);
      if m'.status.Failed? {
        FailedStays(m', lines[1..], ioccc);
      } else {
        assert m.out + lines == (m.out + [lines[0]]) + lines[1..];
        KeepsUndecided(m', lines[1..], ioccc);
      }
    }
  }

  /** Nothing decided is left in the output, and a second run changes nothing. */
  lemma Idempotent(lines: seq<Line>, ioccc: bool, truth: nat -> bool)
    requires Consistent(lines, truth) && OneLine(lines) && Unifdef(lines, ioccc).status.Done?
    ensures var once := Unifdef(lines, ioccc).out;
      AllUndecided(once) && Unifdef(once, ioccc).status.Done? && Unifdef(once, ioccc).out == once
  {
    var once := Unifdef(lines, ioccc).out;
    LeavesUndecided(INITIAL, lines, ioccc);
    MeaningPreserved(lines, ioccc, truth);
    SucceedsExactly(once, ioccc, truth);
    KeepsUndecided(INITIAL, once, ioccc);
  }

  predicate Settled(k: Kind) {
    !k.If? && !k.Elif?
  }

  /** Only groups that are not in the output are open. */
  ghost predicate Unwritten(qs: Stack<Ifstate>) {
    qs.Bottom? || (!Written(qs.top) && Unwritten(qs.below))
  }

  lemma SettledEffect(q: Ifstate, k: Kind, ioccc: bool)
    requires Settled(k) && !Written(q)
    ensures var e := EffectOf(Trans(q, k, false), ioccc); e.Does? ==> e.emit == Drop && (e.next.Goto? ==> !Written(e.next.s))
  {
  }

  ghost predicate AllText(lines: seq<Line>) {
    forall i :: 0 <= i < |lines| ==> lines[i].Plain?
  }

  /** Every condition is decided. */
  ghost predicate AllSettled(lines: seq<Line>) {
    forall i :: 0 <= i < |lines| && lines[i].Directive? ==> Settled(lines[i].kind)
  }

  lemma {:induction false} SettledStep(m: Machine, line: Line, ioccc: bool)
    requires Unwritten(m.states) && AllText(m.out) && (line.Directive? ==> !line.dodgy && Settled(line.kind))
    ensures var m' := Step(m, line, ioccc); Unwritten(m'.states) && AllText(m'.out)
  {
    hide EffectOf, Trans;
    if line.Directive? {
      SettledEffect(Top(m.states), line.kind, ioccc);
      assert m.out + [] == m.out;
    }
  }

  lemma {:induction false} SettledSteps(m: Machine, lines: seq<Line>, ioccc: bool)
    requires Unwritten(m.states) && AllText(m.out) && AllSettled(lines) && OneLine(lines)
    ensures AllText(Steps(m, lines, ioccc).out)
    decreases |lines|
  {
    hide Step;
    if lines != [] {
      SettledStep(m, lines[0], ioccc);
      SettledSteps(Step(m, lines[0], ioccc), lines[1..], ioccc);
    }
  }

  /** If every condition is decided, no directive is left. */
  lemma SettledLeavesText(lines: seq<Line>, ioccc: bool)
    requires AllSettled(lines) && OneLine(lines)
    ensures AllText(Unifdef(lines, ioccc).out)
  {
    SettledSteps(INITIAL, lines, ioccc);
  }

  /** The kind with its decision forgotten. */
  function Forget(k: Kind): Kind {
    if k.ElTrue? || k.ElFalse? then Elif else if Opens(k) then If else k
  }

  /** A directive that does not stand on one line may be handled like one that does: an error stays an error, in text
      that is kept the directive is kept as it is, in text that is dropped it is dropped and so is what follows. */
  predicate Harmless(q: Ifstate, e: Effect) {
    match e
    case Fails(_) => true
    case Does(_, emit, next) =>
      if Printing(q) then emit == Keep else emit == Drop && next.Goto? && !Printing(next.s)
  }

  /** What becomes of a directive that does not stand on one line. */
  function DodgyRule(q: Ifstate, k: Kind, ioccc: bool): Effect {
    var e, forgotten := EffectOf(Trans(q, k, false), ioccc), EffectOf(Trans(q, Forget(k), false), ioccc);
    if q.FalsePrefix? && k.Elif? then e
    else if (q.FalsePrefix? || q.FalseMiddle?) && k.ElFalse? then Fails(Obfuscated)
    else if Harmless(q, e) then e
    else if ioccc && Forget(k) != k && Harmless(q, forgotten) then forgotten
    else Fails(Obfuscated)
  }

  /** It is handled like one that does if that is harmless, save for an #elif after a false branch: an undecided one is
      turned into #if nevertheless, one decided false is refused.  A decided one in text that is kept counts as
      undecided if the user allows it.  All others are refused. */
  lemma DodgyExactly(q: Ifstate, k: Kind, ioccc: bool)
    ensures EffectOf(Trans(q, k, true), ioccc) == DodgyRule(q, k, ioccc)
  {
    hide *;
    if Opens(k) {
      DodgyOpening(q, k, ioccc);
    } else if Printing(q) {
      DodgyInKept(q, k, ioccc);
    } else {
      DodgyInDropped(q, k, ioccc);
    }
  }

  lemma DodgyOpening(q: Ifstate, k: Kind, ioccc: bool)
    requires Opens(k)
    ensures EffectOf(Trans(q, k, true), ioccc) == DodgyRule(q, k, ioccc)
  {
    hide Column, DodgyColumn;
  }

  lemma DodgyInKept(q: Ifstate, k: Kind, ioccc: bool)
    requires !Opens(k) && Printing(q)
    ensures EffectOf(Trans(q, k, true), ioccc) == DodgyRule(q, k, ioccc)
  {
    hide OpenColumn;
  }

  lemma DodgyInDropped(q: Ifstate, k: Kind, ioccc: bool)
    requires !Opens(k) && !Printing(q)
    ensures EffectOf(Trans(q, k, true), ioccc) == DodgyRule(q, k, ioccc)
  {
    hide OpenColumn;
  }

  function Forgotten(lines: seq<Line>): (r: seq<Line>)
    ensures |r| == |lines|
  {
    seq(|lines|, i requires 0 <= i < |lines| => if lines[i].Directive? then lines[i].(kind := Forget(lines[i].kind)) else lines[i])
  }

  /** A compiler does not see what unifdef has decided. */
  lemma {:induction false} ReadForgets(r: Reader, lines: seq<Line>, truth: nat -> bool)
    ensures Read(r, Forgotten(lines), truth) == Read(r, lines, truth)
    ensures Fits(r, Forgotten(lines), truth) <==> Fits(r, lines, truth)
    decreases |lines|
  {
    if lines == [] {
      assert Forgotten(lines) == [];
    } else {
      assert Forgotten(lines)[1..] == Forgotten(lines[1..]);
      assert ReadLine(r, Forgotten(lines)[0], truth) == ReadLine(r, lines[0], truth);
      ReadForgets(ReadLine(r, lines[0], truth), lines[1..], truth);
    }
  }

  // ---------------------------------------------------------------------------------------------
  // The program: an array of states indexed by depth.

  function StackOf(qs: seq<Ifstate>): Stack<Ifstate> {
    if qs == [] then Bottom else Push(qs[|qs| - 1], StackOf(qs[..|qs| - 1]))
  }

  lemma {:induction false} StackOfSize(qs: seq<Ifstate>)
    ensures Size(StackOf(qs)) == |qs|
  {
    if qs != [] {
      StackOfSize(qs[..|qs| - 1]);
    }
  }

  class Processor {
    const ifstate: array<Ifstate>
    const ioccc: bool
    var depth: nat
    var out: seq<Line>
    var status: Status

    ghost predicate Valid()
      reads this, ifstate
    {
      ifstate.Length == MAXDEPTH && depth < MAXDEPTH && ifstate[0] == Outside
    }

    /** The machine that the fields stand for. */
    ghost function Value(): (r: Machine)
      requires Valid()
      reads this, ifstate
      ensures depth == 0 ==> Top(r.states) == Outside
    {
      Machine(StackOf(ifstate[1..depth + 1]), out, status)
    }

    constructor (ioccc: bool)
      ensures Valid() && Value() == INITIAL && this.ioccc == ioccc && fresh(ifstate)
    {
      this.ioccc, depth, out, status := ioccc, 0, [], Running;
      ifstate := new Ifstate[MAXDEPTH](_ => Outside);
    }

    lemma TopIsThere()
      requires Valid()
      ensures Top(Value().states) == ifstate[depth]
      ensures Size(Value().states) == depth
      ensures depth > 0 ==> Value().states == Push(ifstate[depth], StackOf(ifstate[1..depth]))
    {
      StackOfSize(ifstate[1..depth + 1]);
      assert depth > 0 ==> ifstate[1..depth + 1][..depth - 1] == ifstate[1..depth];
    }

    method Error(why: Why)
      requires Valid()
      modifies `status
      ensures Valid() && Value() == old(Value()).(status := Failed(why))
    {
      status := Failed(why);
    }

    /** nest: one level deeper; the state of the new level is set next.  Its check cannot fire. */
    method Nest() returns (ok: bool)
      requires Valid()
      modifies `depth, `status
      ensures Valid() && ok == (old(depth) < MAXDEPTH - 1)
      ensures ok ==> depth == old(depth) + 1 && status == old(status)
      ensures !ok ==> Value() == old(Value()).(status := Failed(TooDeep))
    {
      assert depth <= MAXDEPTH - 1;
      if depth == MAXDEPTH - 1 {
        Error(TooDeep);
        return false;
      }
      depth := depth + 1;
      ok := true;
    }

    method SetState(s: Ifstate)
      requires Valid() && depth > 0
      modifies ifstate
      ensures Valid() && Value() == old(Machine(Push(s, StackOf(ifstate[1..depth])), out, status))
    {
      ifstate[depth] := s;
      assert ifstate[1..depth + 1][..depth - 1] == ifstate[1..depth] == old(ifstate[1..depth]);
    }

    /** unnest; its check is the precondition, met at every call. */
    method Unnest()
      requires Valid() && depth > 0
      modifies `depth
      ensures Valid() && Value() == old(Machine(StackOf(ifstate[1..depth]), out, status))
    {
      depth := depth - 1;
    }

    method Print(line: Line)
      requires Valid()
      modifies `out
      ensures Valid() && out == old(out) + [line]
    {
      out := out + [line];
    }

    /** The functions that set the state of the current level after dropping or printing the line. */
    method Within(a: Action, line: Line)
      requires Valid() && line.Directive? && status == Running && depth > 0
      requires EffectOf(a, ioccc).Does? && !EffectOf(a, ioccc).nest
      modifies this, ifstate
      ensures Valid()
      ensures var e := EffectOf(a, ioccc); var below := StackOf(old(ifstate[1..depth]));
        Value() == Machine(if e.next.Goto? then Push(e.next.s, below) else below, old(out) + Emitted(e.emit, line), Running)
    {
      hide StackOf;
      match a {
        case Strue => SetState(TruePrefix);
        case Sfalse => SetState(FalsePrefix);
        case Selse => SetState(TrueElse);
        case Pelif | Oelif => Print(line); SetState(PassMiddle);
        case Pelse => Print(line); SetState(PassElse);
        case Pendif => Print(line); Unnest();
        case Dfalse => SetState(FalseTrailer);
        case Delif => SetState(FalseMiddle);
        case Delse => SetState(FalseElse);
        case Dendif => Unnest();
        case Mpass => Print(line.(kind := If)); SetState(PassMiddle);
        case Mtrue => Print(Directive(Else, false, line.cond)); SetState(TrueMiddle);
        case Melif => Print(Directive(Endif, false, line.cond)); SetState(FalseTrailer);
        case Melse => Print(Directive(Endif, false, line.cond)); SetState(FalseElse);
      }
    }

    /** The functions that open a group. */
    method Open(a: Action, line: Line)
      requires Valid() && line.Directive? && status == Running
      requires EffectOf(a, ioccc).Does? && EffectOf(a, ioccc).nest
      modifies this, ifstate
      ensures Valid() && Value() == Perform(old(Value()), EffectOf(a, ioccc), line)
    {
      hide StackOf, Size, Trans;
      TopIsThere();
      var ok := Nest();
      if !ok {
        return;
      }
      match a {
        case Fdrop | Idrop => SetState(FalseTrailer);
        case Fpass | Oif | Oiffy => Print(line); SetState(PassMiddle);
        case Ftrue | Itrue => SetState(TruePrefix);
        case Ffalse | Ifalse => SetState(FalsePrefix);
      }
    }

    /** One turn of the loop in process. */
    method Line(line: Line)
      requires Valid() && status == Running
      modifies this, ifstate
      ensures Valid() && Value() == Step(old(Value()), line, ioccc)
    {
      TopIsThere();
      var q := ifstate[depth];
      match line {
        case Plain(_) =>
          if Printing(q) {
            Print(line);
          }
        case Directive(k, dodgy, _) =>
          var a := Trans(q, k, dodgy);
          NoAbort(q, k, dodgy, ioccc);
          var e := EffectOf(a, ioccc);
          if e.Fails? {
            Error(e.why);
          } else if e.nest {
            Open(a, line);
          } else {
            Within(a, line);
          }
      }
    }

    /** process. */
    method Process(lines: seq<Line>)
      requires Valid() && Value() == INITIAL
      modifies this, ifstate
      ensures Valid() && Value() == Unifdef(lines, ioccc)
    {
      var i := 0;
      assert lines[0..] == lines;
      while i < |lines| && status == Running
        invariant 0 <= i <= |lines| && Valid()
        invariant Steps(Value(), lines[i..], ioccc) == Steps(INITIAL, lines, ioccc)
        invariant status == Running || status.Failed?
      {
        assert lines[i..][1..] == lines[i + 1..];
        Line(lines[i]);
        i := i + 1;
      }
      if status == Running {
        TopIsThere();
        if depth == 0 {
          status := Done;
        } else {
          Error(BadEof);
        }
      } else {
        FailedStays(Value(), lines[i..], ioccc);
      }
    }
  }
}
