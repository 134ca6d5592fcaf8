/** Emitting the byte code of an ASN.1 decoder in two passes.

    Shared and skippable constructed elements are emitted out of line, once each, in the order in which
    they are first referred to.  The first pass finds where each one starts; the second writes the code.
    The links of the work list are left over from the first pass when the second begins. */
module Asn1 {
  datatype Compound = Any | TagOverride | Sequence | SequenceOf | SetOf | Choice | TypeRef | Primitive

  /** A grammar element.  `shared`: the type it defines is referred to more than once.  `bare`: a type reference
      without a tag of its own. */
  datatype Element = Element(
    compound: Compound, skippable: bool, conditional: bool, shared: bool, action: bool, tagSpecified: bool, bare: bool,
    children: seq<nat>, target: nat)

  /** An element as it is reached: `tagged` if a skippable element has passed its tag on. */
  datatype Visit = Visit(e: nat, tagged: bool)

  /** A grammar with its root first; `depth` holds the visits that rendering makes and bounds how deep each one
      goes on inlining. */
  datatype Grammar = Grammar(elements: seq<Element>, depth: map<Visit, nat>)

  const NONE: int := -1

  predicate Constructed(c: Compound) {
    c.Sequence? || c.SequenceOf? || c.SetOf?
  }

  predicate Skippable(g: Grammar, e: nat, tag: int)
    requires e < |g.elements| && tag < |g.elements|
  {
    g.elements[e].skippable || (tag >= 0 && g.elements[tag].skippable)
  }

  predicate Outofline(g: Grammar, e: nat, tag: int)
    requires e < |g.elements| && tag < |g.elements|
  {
    g.elements[e].shared || Skippable(g, e, tag)
  }

  function VisitOf(g: Grammar, e: nat, tag: int): Visit
    requires tag < |g.elements|
  {
    Visit(e, tag >= 0 && g.elements[tag].skippable)
  }

  /** The visit is made, and goes less deep than `bound`. */
  ghost predicate Deeper(g: Grammar, e: nat, tag: int, bound: nat) {
    && e < |g.elements| && tag < |g.elements|
    && VisitOf(g, e, tag) in g.depth && g.depth[VisitOf(g, e, tag)] < bound
  }

  ghost predicate Visited(g: Grammar, e: nat, tag: int) {
    Deeper(g, e, tag, Top(g.depth))
  }

  /** The same for a list of elements, each tagged by itself in a choice. */
  ghost predicate AllDeeper(g: Grammar, es: seq<nat>, choice: bool, bound: nat) {
    forall i :: 0 <= i < |es| ==> Deeper(g, es[i], if choice then es[i] else NONE, bound)
  }

  /** An element that may be emitted out of line: its children are visited too. */
  ghost predicate Bodied(g: Grammar, e: nat) {
    && e < |g.elements| && Constructed(g.elements[e].compound)
    && AllDeeper(g, g.elements[e].children, false, Top(g.depth))
  }

  /** What is inlined goes strictly less deep; what is emitted out of line starts afresh. */
  ghost predicate VisitOk(g: Grammar, e: nat, tag: int)
    requires Visited(g, e, tag)
  {
    var x, d := g.elements[e], g.depth[VisitOf(g, e, tag)];
    match x.compound
    case TagOverride => x.children != [] && Deeper(g, x.children[0], e, d)
    case TypeRef => Deeper(g, x.target, if x.bare then tag else NONE, d)
    case Choice => AllDeeper(g, x.children, true, d)
    case Sequence => if Outofline(g, e, tag) then Bodied(g, e) else AllDeeper(g, x.children, false, d)
    case SequenceOf => x.children != [] && if Outofline(g, e, tag) then Bodied(g, e) else Deeper(g, x.children[0], NONE, d)
    case SetOf => x.children != [] && if Outofline(g, e, tag) then Bodied(g, e) else Deeper(g, x.children[0], NONE, d)
    case _ => true
  }

  /** Rendering from the root inlines elements into each other only finitely deep. */
  ghost predicate GrammarOk(g: Grammar) {
    && Visited(g, 0, NONE)
    && forall e: nat, tag: int :: Visited(g, e, tag) ==> VisitOk(g, e, tag)
  }

  ghost function Top(depth: map<Visit, nat>): (r: nat)
    ensures forall v :: v in depth ==> depth[v] < r
  {
    if depth == map[] then 0
    else
      var v :| v in depth;
      var r := Top(depth - {v});
      assert forall u :: u in depth ==> u == v || (u in depth - {v} && (depth - {v})[u] == depth[u]);
      if depth[v] < r then r else depth[v] + 1
  }

  /** SEQUENCE { CHOICE { the type itself, NULL } }, to which nothing refers twice. */
  function Recursive(): Grammar {
    Grammar([Element(Sequence, false, false, false, false, false, false, [1], 0),
             Element(Choice, false, false, false, false, false, false, [2, 3], 0),
             Element(TypeRef, true, false, false, false, false, true, [], 0),
             Element(Primitive, true, true, false, false, false, false, [], 0)],
            map[Visit(0, true) := 0, Visit(3, true) := 0, Visit(2, true) := 1, Visit(1, false) := 2, Visit(0, false) := 3])
  }

  /** A type that recurs through an alternative of a choice is emitted out of line there, because the skippable
      alternative passes its tag on; so inlining ends. */
  lemma RecursionThroughChoice()
    ensures GrammarOk(Recursive()) && !Outofline(Recursive(), 0, NONE) && Outofline(Recursive(), 0, 2)
  {
    hide VisitOk;
    forall e: nat, tag: int | Visited(Recursive(), e, tag) ensures VisitOk(Recursive(), e, tag) {
      RecursiveVisit(e, tag);
    }
  }

  lemma RecursiveVisit(e: nat, tag: int)
    requires Visited(Recursive(), e, tag)
    ensures VisitOk(Recursive(), e, tag)
  {
    hide Top;
    var g := Recursive();
    assert Deeper(g, 0, 2, 1);
    if e == 0 {
      assert Deeper(g, 1, NONE, 3);
    } else if e == 1 {
      assert Deeper(g, 2, 2, 2) && Deeper(g, 3, 3, 2);
    }
  }

  // ---------------------------------------------------------------------------------------------
  // The code with names instead of jump targets.

  datatype Opcode =
    | MatchAny(cond: bool, act: bool, skip: bool)
    | Match(cond: bool, jump: bool, skip: bool)
    | MatchAct(cond: bool, act: bool, skip: bool)
    | Tag(of: nat, e: nat)
    | EndSeq(act: bool) | EndSeqOf(act: bool) | EndSetOf(act: bool)
    | CallAction(e: nat) | Act(maybe: bool) | CondFail | Return | Complete

  /** `Ref` is a jump to the code of an element, `Loop` a jump to a known index. */
  datatype Op = Plain(op: Opcode) | Ref(e: nat) | Loop(target: nat)

  function ActionOf(g: Grammar, e: nat): seq<Op>
    requires e < |g.elements|
  {
    if g.elements[e].action then [Plain(CallAction(e))] else []
  }

  /** The operation and the tag at the head of an element, if it has them. */
  function HeadOf(g: Grammar, e: nat, tag: int): seq<Op>
    requires e < |g.elements| && tag < |g.elements|
  {
    var x := g.elements[e];
    var cond := x.conditional || (tag >= 0 && g.elements[tag].conditional);
    var skip := Skippable(g, e, tag);
    var t := if tag < 0 || !g.elements[tag].tagSpecified then e else tag;
    if x.compound.Any? then [Plain(MatchAny(cond, x.action, skip))]
    else if x.compound.Choice? || (x.compound.TypeRef? && x.bare) then []
    else if Constructed(x.compound) then [Plain(Match(cond, Outofline(g, e, tag), skip)), Plain(Tag(t, e))]
    else [Plain(MatchAct(cond, x.action, skip)), Plain(Tag(t, e))]
  }

  function EndOf(g: Grammar, e: nat): Op
    requires e < |g.elements|
  {
    var x := g.elements[e];
    Plain(if x.compound.Sequence? then EndSeq(x.action) else if x.compound.SequenceOf? then EndSeqOf(x.action) else EndSetOf(x.action))
  }

  /** What comes after the inner part of an element, which starts at `m`. */
  function FootOf(g: Grammar, e: nat, tag: int, m: nat): seq<Op>
    requires e < |g.elements| && tag < |g.elements|
  {
    var x := g.elements[e];
    match x.compound
    case TypeRef => (if x.action then [Plain(Act(Skippable(g, e, tag)))] else []) + ActionOf(g, e)
    case Choice =>
      (if Skippable(g, e, tag) then [] else [Plain(CondFail)]) + (if x.action then [Plain(Act(false))] else []) + ActionOf(g, e)
    case Sequence => if Outofline(g, e, tag) then [] else [EndOf(g, e)] + ActionOf(g, e)
    case SequenceOf => if Outofline(g, e, tag) then [] else [EndOf(g, e), Loop(m)] + ActionOf(g, e)
    case SetOf => if Outofline(g, e, tag) then [] else [EndOf(g, e), Loop(m)] + ActionOf(g, e)
    case _ => ActionOf(g, e)
  }

  /** The code of an element that starts at index `n`. */
  ghost function Code(g: Grammar, e: nat, tag: int, n: nat): (r: seq<Op>)
    requires GrammarOk(g) && Visited(g, e, tag)
    decreases g.depth[VisitOf(g, e, tag)], 2, 0
  {
    assert VisitOk(g, e, tag);
    if g.elements[e].compound.TagOverride? then Code(g, g.elements[e].children[0], e, n)
    else
      var m := n + |HeadOf(g, e, tag)|;
      HeadOf(g, e, tag) + Inner(g, e, tag, m) + FootOf(g, e, tag, m)
  }

  /** The elements inlined into an element, or the jump to its code. */
  ghost function Inner(g: Grammar, e: nat, tag: int, m: nat): (r: seq<Op>)
    requires GrammarOk(g) && Visited(g, e, tag)
    decreases g.depth[VisitOf(g, e, tag)], 1, 0
  {
    assert VisitOk(g, e, tag);
    var x, d := g.elements[e], g.depth[VisitOf(g, e, tag)];
    match x.compound
    case TypeRef => Code(g, x.target, if x.bare then tag else NONE, m)
    case Choice => CodeAll(g, x.children, true, m, d)
    case Sequence => if Outofline(g, e, tag) then [Ref(e)] else CodeAll(g, x.children, false, m, d)
    case SequenceOf => if Outofline(g, e, tag) then [Ref(e)] else Code(g, x.children[0], NONE, m)
    case SetOf => if Outofline(g, e, tag) then [Ref(e)] else Code(g, x.children[0], NONE, m)
    case _ => []
  }

  /** The code of a list of elements, each tagged by itself in a choice. */
  ghost function CodeAll(g: Grammar, es: seq<nat>, choice: bool, n: nat, bound: nat): (r: seq<Op>)
    requires GrammarOk(g) && bound <= Top(g.depth) && AllDeeper(g, es, choice, bound)
    decreases bound, 0, |es|
  {
    if es == [] then []
    else
      assert Deeper(g, es[0], if choice then es[0] else NONE, bound);
      var first := Code(g, es[0], if choice then es[0] else NONE, n);
      first + CodeAll(g, es[1..], choice, n + |first|, bound)
  }

  /** The end of the out-of-line code of an element, which starts at `n`. */
  function BodyFoot(g: Grammar, e: nat, n: nat): seq<Op>
    requires e < |g.elements|
  {
    var x := g.elements[e];
    (if x.compound.Sequence? then [EndOf(g, e)]
     else if x.compound.SequenceOf? || x.compound.SetOf? then [EndOf(g, e), Loop(n)] else [])
    + ActionOf(g, e) + [Plain(Return)]
  }

  /** The out-of-line code of an element. */
  ghost function Body(g: Grammar, e: nat, n: nat): (r: seq<Op>)
    requires GrammarOk(g) && Bodied(g, e)
  {
    CodeAll(g, g.elements[e].children, false, n, Top(g.depth)) + BodyFoot(g, e, n)
  }

  // ---------------------------------------------------------------------------------------------
  // The work list.

  /** `order` holds the elements referred to so far, the first `done` of which have been taken off the list;
      `links` the successor of each element that was not the last of the list when another came; `entry` where
      the code of an element starts. */
  datatype Work = Work(n: nat, order: seq<nat>, done: nat, links: map<nat, nat>, entry: map<nat, nat>)

  const START := Work(0, [], 0, map[], map[])

  function Last(s: seq<nat>): nat
    requires s != []
  {
    s[|s| - 1]
  }

  function FeedOne(w: Work, op: Op): Work
    requires w.done <= |w.order|
  {
    if op.Ref? && op.e !in w.order then
      w.(n := w.n + 1, order := w.order + [op.e],
         links := if w.done < |w.order| then w.links[Last(w.order) := op.e] else w.links)
    else w.(n := w.n + 1)
  }

  function Feed(w: Work, ops: seq<Op>): (r: Work)
    requires w.done <= |w.order|
    ensures r.done == w.done && w.order <= r.order && r.n == w.n + |ops| && r.entry == w.entry
    decreases |ops|
  {
    if ops == [] then w else Feed(FeedOne(w, ops[0]), ops[1..])
  }

  lemma {:induction false} FeedAppend(w: Work, a: seq<Op>, b: seq<Op>)
    requires w.done <= |w.order|
    ensures Feed(w, a + b) == Feed(Feed(w, a), b)
    decreases |a|
  {
    if a == [] {
      assert a + b == b;
    } else {
      assert (a + b)[1..] == a[1..] + b;
      FeedAppend(FeedOne(w, a[0]), a[1..], b);
    }
  }

  ghost predicate Unique(s: seq<nat>) {
    forall i, j :: 0 <= i < j < |s| ==> s[i] != s[j]
  }

  ghost predicate Within(s: seq<nat>, g: Grammar) {
    forall i :: 0 <= i < |s| ==> Bodied(g, s[i])
  }

  /** No element is on the list twice; the links lead through the elements that wait. */
  ghost predicate WorkOk(w: Work, g: Grammar) {
    && w.done <= |w.order| && Unique(w.order) && Within(w.order, g)
    && (forall i :: w.done <= i < |w.order| - 1 ==> w.order[i] in w.links && w.links[w.order[i]] == w.order[i + 1])
    && (w.done < |w.order| ==> Last(w.order) !in w.links)
    && (forall e :: e in w.links ==> e in w.order)
    && (forall e :: e in w.entry ==> e in w.order[..w.done])
    && (forall i :: 0 <= i < w.done ==> w.order[i] in w.entry)
  }

  ghost predicate RefsWithin(ops: seq<Op>, g: Grammar) {
    forall i :: 0 <= i < |ops| && ops[i].Ref? ==> Bodied(g, ops[i].e)
  }

  lemma {:induction false} CodeRefs(g: Grammar, e: nat, tag: int, n: nat)
    requires GrammarOk(g) && Visited(g, e, tag)
    ensures RefsWithin(Code(g, e, tag, n), g)
    decreases g.depth[VisitOf(g, e, tag)], 2, 0
  {
    hide Inner, FootOf, HeadOf, Bodied;
    assert VisitOk(g, e, tag);
    if g.elements[e].compound.TagOverride? {
      CodeRefs(g, g.elements[e].children[0], e, n);
    } else {
      var m := n + |HeadOf(g, e, tag)|;
      FrameRefs(g, e, tag, m);
      InnerRefs(g, e, tag, m);
    }
  }

  lemma FrameRefs(g: Grammar, e: nat, tag: int, m: nat)
    requires e < |g.elements| && tag < |g.elements|
    ensures RefsWithin(HeadOf(g, e, tag), g) && RefsWithin(FootOf(g, e, tag, m), g)
  {
    hide Bodied;
  }

  lemma {:induction false} InnerRefs(g: Grammar, e: nat, tag: int, m: nat)
    requires GrammarOk(g) && Visited(g, e, tag)
    ensures RefsWithin(Inner(g, e, tag, m), g)
    decreases g.depth[VisitOf(g, e, tag)], 1, 0
  {
    hide Code, CodeAll, RefsWithin, AllDeeper, Bodied;
    assert VisitOk(g, e, tag);
    NoRef(g);
    var x, d := g.elements[e], g.depth[VisitOf(g, e, tag)];
    if Constructed(x.compound) && Outofline(g, e, tag) {
      OneRef(e, g);
    } else {
      match x.compound {
        case TypeRef => CodeRefs(g, x.target, if x.bare then tag else NONE, m);
        case Choice => CodeAllRefs(g, x.children, true, m, d);
        case Sequence => CodeAllRefs(g, x.children, false, m, d);
        case SequenceOf => CodeRefs(g, x.children[0], NONE, m);
        case SetOf => CodeRefs(g, x.children[0], NONE, m);
        case _ =>
      }
    }
  }

  lemma OneRef(e: nat, g: Grammar)
    requires Bodied(g, e)
    ensures RefsWithin([Ref(e)], g)
  {
  }

  lemma NoRef(g: Grammar)
    ensures RefsWithin([], g)
  {
  }

  lemma {:induction false} CodeAllRefs(g: Grammar, es: seq<nat>, choice: bool, n: nat, bound: nat)
    requires GrammarOk(g) && bound <= Top(g.depth) && AllDeeper(g, es, choice, bound)
    ensures RefsWithin(CodeAll(g, es, choice, n, bound), g)
    decreases bound, 0, |es|
  {
    hide Code, Bodied;
    if es != [] {
      var tag := if choice then es[0] else NONE;
      assert Deeper(g, es[0], tag, bound);
      CodeRefs(g, es[0], tag, n);
      CodeAllRefs(g, es[1..], choice, n + |Code(g, es[0], tag, n)|, bound);
    }
  }

  lemma BodyRefs(g: Grammar, e: nat, n: nat)
    requires GrammarOk(g) && Bodied(g, e)
    ensures RefsWithin(Body(g, e, n), g)
  {
    hide CodeAll;
    CodeAllRefs(g, g.elements[e].children, false, n, Top(g.depth));
    NoRefsInFoot(g, e, n);
  }

  /** What has been settled stays: elements taken off the list keep their links, or their lack of one. */
  ghost predicate Settled(w: Work, w': Work) {
    && w.order <= w'.order && w.done <= |w.order| && w.done <= w'.done
    && (forall e :: e in w.order[..w.done] && e in w'.links ==> e in w.links)
    && (forall e :: e in w.links ==> e in w'.links && w'.links[e] == w.links[e])
    && (forall e :: e in w.entry ==> e in w'.entry && w'.entry[e] == w.entry[e])
  }

  lemma SettledTrans(a: Work, b: Work, c: Work)
    requires Settled(a, b) && Settled(b, c) && b.done <= |b.order|
    ensures Settled(a, c)
  {
    assert forall e :: e in a.order[..a.done] ==> e in b.order[..b.done];
  }

  lemma FeedOneOk(w: Work, op: Op, g: Grammar)
    requires WorkOk(w, g) && (op.Ref? ==> Bodied(g, op.e))
    ensures WorkOk(FeedOne(w, op), g) && Settled(w, FeedOne(w, op))
    ensures op.Ref? ==> op.e in FeedOne(w, op).order
  {
    if op.Ref? && op.e !in w.order {
      NewOk(w, op, g);
      NewSettled(w, op, g);
    }
  }

  lemma NewOk(w: Work, op: Op, g: Grammar)
    requires WorkOk(w, g) && op.Ref? && Bodied(g, op.e) && op.e !in w.order
    ensures WorkOk(FeedOne(w, op), g)
  {
    hide Bodied;
    var w' := FeedOne(w, op);
    assert w'.order[..w.done] == w.order[..w.done];
    assert Unique(w'.order) && Within(w'.order, g);
    NewLinks(w, op, g);
  }

  lemma NewLinks(w: Work, op: Op, g: Grammar)
    requires WorkOk(w, g) && op.Ref? && op.e !in w.order
    ensures var w' := FeedOne(w, op);
      forall i :: w.done <= i < |w'.order| - 1 ==> w'.order[i] in w'.links && w'.links[w'.order[i]] == w'.order[i + 1]
  {
    hide Within;
    var w' := FeedOne(w, op);
    var last := |w.order| - 1;
    forall i | w.done <= i < |w'.order| - 1 ensures w'.order[i] in w'.links && w'.links[w'.order[i]] == w'.order[i + 1] {
      if i < last {
        assert w.order[i] in w.links && w.links[w.order[i]] == w.order[i + 1];
        assert w.order[i] != w.order[last];
      }
    }
  }

  lemma NewSettled(w: Work, op: Op, g: Grammar)
    requires WorkOk(w, g) && op.Ref? && op.e !in w.order
    ensures Settled(w, FeedOne(w, op))
  {
    assert w.done < |w.order| ==> Last(w.order) !in w.order[..w.done];
  }

  lemma {:induction false} FeedOk(w: Work, ops: seq<Op>, g: Grammar)
    requires WorkOk(w, g) && RefsWithin(ops, g)
    ensures WorkOk(Feed(w, ops), g) && Settled(w, Feed(w, ops))
    ensures forall i :: 0 <= i < |ops| && ops[i].Ref? ==> ops[i].e in Feed(w, ops).order
    decreases |ops|
  {
    if ops == [] {
      SettledSelf(w, g);
    } else {
      FeedOkStep(w, ops, g);
    }
  }

  lemma {:induction false} FeedOkStep(w: Work, ops: seq<Op>, g: Grammar)
    requires WorkOk(w, g) && RefsWithin(ops, g) && ops != [] && w.done <= |w.order|
    ensures WorkOk(Feed(w, ops), g) && Settled(w, Feed(w, ops))
    ensures forall i :: 0 <= i < |ops| && ops[i].Ref? ==> ops[i].e in Feed(w, ops).order
    decreases |ops|, 0
  {
    hide WorkOk, Settled, FeedOne;
    var w' := FeedOne(w, ops[0]);
    FeedOneOk(w, ops[0], g);
    FeedDone(w, ops[0], g);
    FeedOk(w', ops[1..], g);
    SettledTrans(w, w', Feed(w', ops[1..]));
  }

  lemma SettledSelf(w: Work, g: Grammar)
    requires WorkOk(w, g)
    ensures Settled(w, w)
  {
  }

  lemma FeedDone(w: Work, op: Op, g: Grammar)
    requires WorkOk(w, g) && WorkOk(FeedOne(w, op), g)
    ensures w.done <= |w.order| && FeedOne(w, op).done <= |FeedOne(w, op).order|
  {
  }

  /** A list without repetitions is no longer than the number of elements. */
  lemma {:induction false} UniqueBound(s: seq<nat>, size: nat)
    requires Unique(s) && forall i :: 0 <= i < |s| ==> s[i] < size
    ensures |s| <= size
    decreases size
  {
    if s == [] {
    } else if size > 0 && size - 1 in s {
      var i :| 0 <= i < |s| && s[i] == size - 1;
      UniqueBound(s[..i] + s[i + 1..], size - 1);
    } else {
      UniqueBound(s, size - 1);
    }
  }

  /** Taking the first waiting element off the list, its code starting here. */
  function Take(w: Work): Work
    requires w.done < |w.order|
  {
    w.(done := w.done + 1, entry := w.entry[w.order[w.done] := w.n])
  }

  lemma TakeOk(w: Work, g: Grammar)
    requires WorkOk(w, g) && w.done < |w.order|
    ensures WorkOk(Take(w), g) && Settled(w, Take(w))
  {
    TakenOk(w, g);
    TakenSettled(w, g);
  }

  lemma TakenOk(w: Work, g: Grammar)
    requires WorkOk(w, g) && w.done < |w.order|
    ensures WorkOk(Take(w), g)
  {
    hide Unique, Within;
    var w' := Take(w);
    assert w.order[..w.done + 1] == w.order[..w.done] + [w.order[w.done]];
    forall i | w'.done <= i < |w'.order| - 1 ensures w'.order[i] in w'.links && w'.links[w'.order[i]] == w'.order[i + 1] {
      assert w.order[i] in w.links;
    }
  }

  lemma TakenSettled(w: Work, g: Grammar)
    requires WorkOk(w, g) && w.done < |w.order|
    ensures Settled(w, Take(w))
  {
    hide Within;
    var e := w.order[w.done];
    assert e !in w.order[..w.done];
    assert e !in w.entry;
  }

  /** render_out_of_line_list, without the code. */
  ghost function Run(g: Grammar, w: Work): (r: Work)
    requires GrammarOk(g) && WorkOk(w, g)
    decreases |g.elements| - w.done
  {
    if w.done == |w.order| then w
    else
      var e := w.order[w.done];
      StepOk(g, w);
      Run(g, Feed(Take(w), Body(g, e, w.n)))
  }

  lemma StepOk(g: Grammar, w: Work)
    requires GrammarOk(g) && WorkOk(w, g) && w.done < |w.order|
    ensures w.done < |g.elements| && Bodied(g, w.order[w.done])
    ensures var w' := Feed(Take(w), Body(g, w.order[w.done], w.n));
      WorkOk(w', g) && Settled(w, w') && Settled(Take(w), w')
  {
    hide Body, Feed, Take;
    var e := w.order[w.done];
    UniqueBound(w.order, |g.elements|);
    TakeOk(w, g);
    BodyRefs(g, e, w.n);
    FeedOk(Take(w), Body(g, e, w.n), g);
    SettledTrans(w, Take(w), Feed(Take(w), Body(g, e, w.n)));
  }

  lemma {:induction false} RunOk(g: Grammar, w: Work)
    requires GrammarOk(g) && WorkOk(w, g)
    ensures WorkOk(Run(g, w), g) && Settled(w, Run(g, w)) && Run(g, w).done == |Run(g, w).order|
    decreases |g.elements| - w.done
  {
    hide Settled, Body, Feed;
    if w.done == |w.order| {
      SettledSelf(w, g);
    } else {
      StepOk(g, w);
      var w' := Feed(Take(w), Body(g, w.order[w.done], w.n));
      RunOk(g, w');
      SettledTrans(w, w', Run(g, w'));
    }
  }

  // ---------------------------------------------------------------------------------------------
  // The whole program and where its parts lie.

  ghost function Opening(g: Grammar): seq<Op>
    requires GrammarOk(g)
  {
    Code(g, 0, NONE, 0) + [Plain(Complete)]
  }

  /** The work after the root has been emitted. */
  ghost function Opened(g: Grammar): (r: Work)
    requires GrammarOk(g)
    ensures WorkOk(r, g)
  {
    OpeningRefs(g);
    FeedOk(START, Opening(g), g);
    Feed(START, Opening(g))
  }

  lemma OpeningRefs(g: Grammar)
    requires GrammarOk(g)
    ensures RefsWithin(Opening(g), g)
  {
    hide Code;
    CodeRefs(g, 0, NONE, 0);
  }

  ghost function Bodies(g: Grammar, w: Work): (r: seq<Op>)
    requires GrammarOk(g) && WorkOk(w, g)
    decreases |g.elements| - w.done
  {
    if w.done == |w.order| then []
    else
      var e := w.order[w.done];
      StepOk(g, w);
      Body(g, e, w.n) + Bodies(g, Feed(Take(w), Body(g, e, w.n)))
  }

  ghost function Program(g: Grammar): seq<Op>
    requires GrammarOk(g)
  {
    Opening(g) + Bodies(g, Opened(g))
  }

  ghost function Final(g: Grammar): (r: Work)
    requires GrammarOk(g)
    ensures WorkOk(r, g) && r.done == |r.order|
  {
    RunOk(g, Opened(g));
    Run(g, Opened(g))
  }

  /** The bodies of a list of elements one after the other, from index `n` on. */
  ghost function Layout(g: Grammar, order: seq<nat>, k: nat, n: nat): seq<Op>
    requires GrammarOk(g) && Within(order, g) && k <= |order|
    decreases |order| - k
  {
    if k == |order| then []
    else
      var b := Body(g, order[k], n);
      b + Layout(g, order, k + 1, n + |b|)
  }

  ghost predicate StandsAt(ops: seq<Op>, at: int, part: seq<Op>) {
    0 <= at && at + |part| <= |ops| && ops[at..at + |part|] == part
  }

  /** The list is worked off in order. */
  lemma {:induction false} BodiesAreLaidOut(g: Grammar, w: Work)
    requires GrammarOk(g) && WorkOk(w, g)
    ensures var f := Run(g, w);
      Within(f.order, g) && w.done <= |f.order| && Bodies(g, w) == Layout(g, f.order, w.done, w.n)
    decreases |g.elements| - w.done
  {
    hide Body, Feed, Settled, WorkOk;
    RunOk(g, w);
    RunShape(g, w);
    if w.done < |w.order| {
      EntryTakes(g, w);
      BodiesAreLaidOut(g, Feed(Take(w), Body(g, w.order[w.done], w.n)));
    }
  }

  lemma RunShape(g: Grammar, w: Work)
    requires GrammarOk(g) && WorkOk(w, g)
    ensures w.done <= |w.order| && w.order <= Run(g, w).order && Within(Run(g, w).order, g)
    ensures w.done == |w.order| ==> Run(g, w) == w
  {
    RunOk(g, w);
  }

  lemma RunPrefix(g: Grammar, w: Work)
    requires GrammarOk(g) && WorkOk(w, g)
    ensures w.order <= Run(g, w).order
  {
    RunOk(g, w);
  }

  lemma StandsAfter(b: seq<Op>, rest: seq<Op>, at: int, part: seq<Op>)
    requires StandsAt(rest, at, part)
    ensures StandsAt(b + rest, |b| + at, part)
  {
    assert (b + rest)[|b| + at..|b| + at + |part|] == rest[at..at + |part|];
  }

  lemma StandsFirst(b: seq<Op>, rest: seq<Op>)
    ensures StandsAt(b + rest, 0, b)
  {
    assert (b + rest)[0..|b|] == b;
  }

  /** The entry of an element on the list is where its body lies. */
  ghost predicate EntryOk(g: Grammar, ops: seq<Op>, n: nat, f: Work, k: nat)
    requires GrammarOk(g) && k < |f.order|
  {
    var e := f.order[k];
    e in f.entry && Bodied(g, e) && StandsAt(ops, f.entry[e] - n, Body(g, e, f.entry[e]))
  }

  lemma {:induction false} EntryStands(g: Grammar, w: Work, k: nat)
    requires GrammarOk(g) && WorkOk(w, g) && w.done <= k < |Run(g, w).order|
    ensures EntryOk(g, Bodies(g, w), w.n, Run(g, w), k)
    decreases |g.elements| - w.done
  {
    hide Body, Feed, StandsAt, Settled;
    if w.done < |w.order| {
      EntryTakes(g, w);
      var e := w.order[w.done];
      var b := Body(g, e, w.n);
      var w' := Feed(Take(w), b);
      if k == w.done {
        StandsFirst(b, Bodies(g, w'));
      } else {
        EntryStands(g, w', k);
        var f := Run(g, w);
        StandsAfter(b, Bodies(g, w'), f.entry[f.order[k]] - w'.n, Body(g, f.order[k], f.entry[f.order[k]]));
      }
    }
  }

  lemma EntryTakes(g: Grammar, w: Work)
    requires GrammarOk(g) && WorkOk(w, g) && w.done < |w.order|
    ensures w.done < |g.elements| && Bodied(g, w.order[w.done])
    ensures var e := w.order[w.done]; var w' := Feed(Take(w), Body(g, e, w.n)); var f := Run(g, w);
      && WorkOk(w', g) && f == Run(g, w')
      && w.done < |f.order| && f.order[w.done] == e && e in f.entry && f.entry[e] == w.n
  {
    hide Body, Feed;
    StepOk(g, w);
    RunOk(g, Feed(Take(w), Body(g, w.order[w.done], w.n)));
  }

  lemma {:induction false} BodiesRefs(g: Grammar, w: Work)
    requires GrammarOk(g) && WorkOk(w, g)
    ensures forall i :: 0 <= i < |Bodies(g, w)| && Bodies(g, w)[i].Ref? ==> Bodies(g, w)[i].e in Run(g, w).order
    decreases |g.elements| - w.done
  {
    hide Body, Feed, Bodied, Settled, RefsWithin;
    if w.done < |w.order| {
      var b := Body(g, w.order[w.done], w.n);
      StepOk(g, w);
      TakeOk(w, g);
      BodyRefs(g, w.order[w.done], w.n);
      FeedOk(Take(w), b, g);
      BodiesRefs(g, Feed(Take(w), b));
      RunPrefix(g, Feed(Take(w), b));
    }
  }

  /** Every jump to an element leads to the place where its code, the only copy of it, starts. */
  lemma LabelsAreRight(g: Grammar)
    requires GrammarOk(g)
    ensures var p := Program(g); var f := Final(g);
      && Unique(f.order)
      && p == Opening(g) + Layout(g, f.order, 0, |Opening(g)|)
      && (forall i :: 0 <= i < |p| && p[i].Ref? ==> p[i].e in f.order)
      && (forall k :: 0 <= k < |f.order| ==> EntryOk(g, p, 0, f, k))
  {
    hide Body, Code, Feed, StandsAt, Bodied;
    var p, f, w := Program(g), Final(g), Opened(g);
    OpenedShape(g);
    BodiesAreLaidOut(g, w);
    forall i | 0 <= i < |p| && p[i].Ref? ensures p[i].e in f.order {
      BodiesRefs(g, w);
      RunPrefix(g, w);
      assert i >= |Opening(g)| ==> p[i] == Bodies(g, w)[i - |Opening(g)|];
      assert i < |Opening(g)| ==> p[i] == Opening(g)[i];
    }
    forall k | 0 <= k < |f.order| ensures EntryOk(g, p, 0, f, k) {
      EntryStands(g, w, k);
      var at := f.entry[f.order[k]];
      StandsAfter(Opening(g), Bodies(g, w), at - w.n, Body(g, f.order[k], at));
    }
  }

  lemma OpenedShape(g: Grammar)
    requires GrammarOk(g)
    ensures Opened(g).n == |Opening(g)| && Opened(g).done == 0
    ensures forall i :: 0 <= i < |Opening(g)| && Opening(g)[i].Ref? ==> Opening(g)[i].e in Opened(g).order
  {
    hide Code;
    OpeningRefs(g);
    FeedOk(START, Opening(g), g);
  }

  // ---------------------------------------------------------------------------------------------
  // The renderer.

  /** What is written: an instruction byte or a jump target. */
  datatype Byte = Instr(op: Opcode) | Target(index: int)

  function Resolve(op: Op, entries: seq<int>): Byte {
    match op
    case Plain(o) => Instr(o)
    case Ref(e) => Target(if e < |entries| then entries[e] else 0)
    case Loop(t) => Target(t)
  }

  function ResolveAll(ops: seq<Op>, entries: seq<int>): (r: seq<Byte>)
    ensures |r| == |ops|
  {
    seq(|ops|, i requires 0 <= i < |ops| => Resolve(ops[i], entries))
  }

  /** From one point to another, exactly `ops` were emitted. */
  ghost predicate Emits(w0: Work, out0: seq<Byte>, w1: Work, out1: seq<Byte>, ops: seq<Op>, writing: bool, entries: seq<int>) {
    && w0.done <= |w0.order| && w1 == Feed(w0, ops)
    && out1 == if writing then out0 + ResolveAll(ops, entries) else out0
  }

  lemma EmitsNothing(w: Work, out: seq<Byte>, writing: bool, entries: seq<int>)
    requires w.done <= |w.order|
    ensures Emits(w, out, w, out, [], writing, entries)
  {
    assert out + ResolveAll([], entries) == out;
  }

  lemma EmitsThen(w0: Work, out0: seq<Byte>, w1: Work, out1: seq<Byte>, w2: Work, out2: seq<Byte>, a: seq<Op>, b: seq<Op>,
                  writing: bool, entries: seq<int>)
    requires Emits(w0, out0, w1, out1, a, writing, entries) && Emits(w1, out1, w2, out2, b, writing, entries)
    ensures Emits(w0, out0, w2, out2, a + b, writing, entries)
  {
    FeedAppend(w0, a, b);
    assert ResolveAll(a + b, entries) == ResolveAll(a, entries) + ResolveAll(b, entries);
    assert out0 + (ResolveAll(a, entries) + ResolveAll(b, entries)) == (out0 + ResolveAll(a, entries)) + ResolveAll(b, entries);
  }

  lemma EmitsOne(w: Work, out: seq<Byte>, op: Op, writing: bool, entries: seq<int>)
    requires w.done <= |w.order|
    ensures Emits(w, out, FeedOne(w, op), if writing then out + [Resolve(op, entries)] else out, [op], writing, entries)
  {
    assert [op][1..] == [];
    assert ResolveAll([op], entries) == [Resolve(op, entries)];
  }

  /** The flags and links in memory; a link that this pass has not set is still what it was before. */
  ghost predicate Matches(rendered: seq<bool>, next: seq<int>, stale: seq<int>, w: Work, g: Grammar) {
    && |rendered| == |next| == |stale| == |g.elements|
    && (forall e: nat :: e < |g.elements| ==> (rendered[e] <==> e in w.order))
    && (forall e: nat :: e < |g.elements| ==> next[e] == if e in w.links then w.links[e] else stale[e])
  }

  lemma QueuedMatches(rendered: seq<bool>, next: seq<int>, stale: seq<int>, w: Work, g: Grammar, e: nat)
    requires Matches(rendered, next, stale, w, g) && WorkOk(w, g) && e < |g.elements| && e !in w.order
    ensures Matches(rendered[e := true], if w.done < |w.order| then next[Last(w.order) := e] else next, stale, FeedOne(w, Ref(e)), g)
  {
  }

  lemma MatchesLengths(rendered: seq<bool>, next: seq<int>, stale: seq<int>, w: Work, g: Grammar)
    requires Matches(rendered, next, stale, w, g)
    ensures |rendered| == |next| == |stale| == |g.elements|
  {
  }

  /** An operation that queues nothing only moves the index. */
  lemma OnlyCounts(rendered: seq<bool>, next: seq<int>, stale: seq<int>, w: Work, g: Grammar, op: Op)
    requires Matches(rendered, next, stale, w, g) && WorkOk(w, g) && (op.Ref? ==> Bodied(g, op.e) && rendered[op.e])
    ensures var w' := FeedOne(w, op); Matches(rendered, next, stale, w', g) && WorkOk(w', g) && w' == w.(n := w.n + 1)
  {
  }

  class Renderer {
    const g: Grammar
    const rendered: array<bool>
    const next: array<int>
    const entry: array<int>
    var head: int
    var tail: int
    var n: nat
    var writing: bool
    var out: seq<Byte>
    ghost var w: Work
    ghost var stale: seq<int>

    /** The fields stand for the work `w`. */
    ghost predicate Conc()
      reads this, rendered, next
    {
      && GrammarOk(g) && rendered.Length == next.Length == entry.Length == |stale| == |g.elements| && next != entry
      && WorkOk(w, g) && n == w.n
      && Matches(rendered[..], next[..], stale, w, g)
      && (if w.done < |w.order| then head == w.order[w.done] && tail == Last(w.order) else head == NONE && tail == NONE)
    }

    /** render_opcode. */
    method Emit(op: Op)
      requires Conc() && !op.Ref?
      modifies `n, `out, `w
      ensures Conc() && Emits(old(w), old(out), w, out, [op], writing, entry[..])
    {
      hide WorkOk, Matches, Emits;
      WorkDone(w, g);
      EmitsOne(w, out, op, writing, entry[..]);
      OnlyCounts(rendered[..], next[..], stale, w, g, op);
      if writing {
        out := out + [Resolve(op, entry[..])];
      }
      n := n + 1;
      w := FeedOne(w, op);
    }

    method EmitAll(ops: seq<Op>)
      requires Conc() && forall i :: 0 <= i < |ops| ==> !ops[i].Ref?
      modifies `n, `out, `w
      ensures Conc() && Emits(old(w), old(out), w, out, ops, writing, entry[..])
    {
      hide WorkOk, Emits;
      var i := 0;
      WorkDone(w, g);
      EmitsNothing(w, out, writing, entry[..]);
      while i < |ops|
        invariant 0 <= i <= |ops| && Conc() && Emits(old(w), old(out), w, out, ops[..i], writing, entry[..])
      {
        ghost var w1, out1 := w, out;
        Emit(ops[i]);
        EmitsThen(old(w), old(out), w1, out1, w, out, ops[..i], [ops[i]], writing, entry[..]);
        assert ops[..i] + [ops[i]] == ops[..i + 1];
        i := i + 1;
      }
      assert ops[..i] == ops;
    }

    /** A jump to the code of an element; the element goes on the list unless it has been there. */
    method Refer(e: nat)
      requires Conc() && Bodied(g, e)
      modifies `head, `tail, `n, `out, `w, rendered, next
      ensures Conc() && Emits(old(w), old(out), w, out, [Ref(e)], writing, entry[..])
    {
      hide WorkOk, Matches, Emits;
      WorkDone(w, g);
      EmitsOne(w, out, Ref(e), writing, entry[..]);
      if writing {
        out := out + [Target(entry[e])];
      }
      MatchesLengths(rendered[..], next[..], stale, w, g);
      if rendered[e] {
        OnlyCounts(rendered[..], next[..], stale, w, g, Ref(e));
        n := n + 1;
        w := FeedOne(w, Ref(e));
      } else {
        Queue(e);
      }
    }

    method Queue(e: nat)
      requires Conc() && Bodied(g, e) && !rendered[e]
      modifies `head, `tail, `n, `w, rendered, next
      ensures Conc() && w == FeedOne(old(w), Ref(e))
    {
      hide Matches, WorkOk, Unique, Within, Bodied, GrammarOk;
      BodiedIsElement(g, e);
      NotQueued(rendered[..], next[..], stale, w, g, e);
      QueuedMatches(rendered[..], next[..], stale, w, g, e);
      FeedOneOk(w, Ref(e), g);
      ghost var flags, links := rendered[..], next[..];
      n := n + 1;
      rendered[e] := true;
      assert rendered[..] == flags[e := true];
      if tail == NONE {
        head := e;
        assert next[..] == links;
      } else {
        next[tail] := e;
        assert next[..] == links[Last(w.order) := e];
      }
      tail := e;
      w := FeedOne(w, Ref(e));
    }

    /** render_element. */
    method RenderElement(e: nat, tag: int)
      requires Conc() && Visited(g, e, tag)
      modifies `head, `tail, `n, `out, `w, rendered, next
      ensures Conc() && Emits(old(w), old(out), w, out, Code(g, e, tag, old(n)), writing, entry[..])
      decreases g.depth[VisitOf(g, e, tag)], 2, 0
    {
      hide WorkOk, Emits, Inner, HeadOf, FootOf;
      assert VisitOk(g, e, tag);
      if g.elements[e].compound.TagOverride? {
        RenderElement(g.elements[e].children[0], e);
        return;
      }
      var m := n + |HeadOf(g, e, tag)|;
      NoRefs(g, e, tag, m);
      EmitAll(HeadOf(g, e, tag));
      EmittedCount(old(w), old(out), w, out, HeadOf(g, e, tag), writing, entry[..]);
      ghost var w1, out1 := w, out;
      RenderInner(e, tag);
      ghost var w2, out2 := w, out;
      EmitAll(FootOf(g, e, tag, m));
      EmitsThen(old(w), old(out), w1, out1, w2, out2, HeadOf(g, e, tag), Inner(g, e, tag, m), writing, entry[..]);
      EmitsThen(old(w), old(out), w2, out2, w, out, HeadOf(g, e, tag) + Inner(g, e, tag, m), FootOf(g, e, tag, m), writing, entry[..]);
    }

    /** The switch over compound types. */
    method RenderInner(e: nat, tag: int)
      requires Conc() && Visited(g, e, tag)
      modifies `head, `tail, `n, `out, `w, rendered, next
      ensures Conc() && Emits(old(w), old(out), w, out, Inner(g, e, tag, old(n)), writing, entry[..])
      decreases g.depth[VisitOf(g, e, tag)], 1, 0
    {
      hide WorkOk, Emits, Code, CodeAll;
      assert VisitOk(g, e, tag);
      var x := g.elements[e];
      if Constructed(x.compound) && Outofline(g, e, tag) {
        Refer(e);
      } else {
        match x.compound {
          case TypeRef => RenderElement(x.target, if x.bare then tag else NONE);
          case Choice => RenderAll(x.children, true, g.depth[VisitOf(g, e, tag)]);
          case Sequence => RenderAll(x.children, false, g.depth[VisitOf(g, e, tag)]);
          case SequenceOf => RenderElement(x.children[0], NONE);
          case SetOf => RenderElement(x.children[0], NONE);
          case _ =>
            WorkDone(w, g);
            EmitsNothing(w, out, writing, entry[..]);
        }
      }
    }

    /** The children of an element, one after the other. */
    method RenderAll(es: seq<nat>, choice: bool, ghost bound: nat)
      requires Conc() && bound <= Top(g.depth) && AllDeeper(g, es, choice, bound)
      modifies `head, `tail, `n, `out, `w, rendered, next
      ensures Conc() && Emits(old(w), old(out), w, out, CodeAll(g, es, choice, old(n), bound), writing, entry[..])
      decreases bound, 0, |es|
    {
      hide WorkOk, Emits, Code;
      WorkDone(w, g);
      EmitsNothing(w, out, writing, entry[..]);
      if es != [] {
        var tag := if choice then es[0] else NONE;
        ghost var first := Code(g, es[0], tag, n);
        RenderElement(es[0], tag);
        EmittedCount(old(w), old(out), w, out, first, writing, entry[..]);
        ghost var w1, out1 := w, out;
        RenderAll(es[1..], choice, bound);
        EmitsThen(old(w), old(out), w1, out1, w, out, first, CodeAll(g, es[1..], choice, w1.n, bound), writing, entry[..]);
      }
    }

    method RenderBody(e: nat)
      requires Conc() && Bodied(g, e)
      modifies `head, `tail, `n, `out, `w, rendered, next
      ensures Conc() && Emits(old(w), old(out), w, out, Body(g, e, old(n)), writing, entry[..])
    {
      hide WorkOk, Emits, CodeAll, BodyFoot;
      var start := n;
      ghost var bound := Top(g.depth);
      RenderAll(g.elements[e].children, false, bound);
      ghost var w1, out1 := w, out;
      NoRefsInFoot(g, e, start);
      EmitAll(BodyFoot(g, e, start));
      EmitsThen(old(w), old(out), w1, out1, w, out, CodeAll(g, g.elements[e].children, false, start, bound),
                BodyFoot(g, e, start), writing, entry[..]);
    }

    /** Take the first element off the list.  The link of the last one is trusted to be empty, although nothing in
        this pass has cleared it. */
    method TakeFirst(ghost f: Work) returns (e: nat)
      requires Conc() && head != NONE && f == Run(g, w) && LinksFit(stale, f)
      modifies `head, `tail, `w, entry
      ensures Conc() && w == Take(old(w)) && e == old(w).order[old(w).done] && Bodied(g, e)
      ensures entry[..] == old(entry[..])[e := n]
    {
      hide WorkOk, Matches, LinksFit, Run;
      WorkDone(w, g);
      FirstIsTaken(g, rendered[..], next[..], stale, w);
      e := head;
      head := next[e];
      if head == NONE {
        tail := NONE;
      }
      entry[e] := n;
      w := Take(w);
    }

    /** One turn of the loop in render_out_of_line_list. */
    method ListStep(ghost f: Work)
      requires Conc() && head != NONE && f == Run(g, w) && LinksFit(stale, f) && EntriesFit(entry[..], w)
      requires writing ==> EntriesFit(entry[..], f)
      modifies `head, `tail, `n, `out, `w, rendered, next, entry
      ensures Conc() && Advanced(g, old(w), w, f) && EntriesFit(entry[..], w) && (writing ==> EntriesFit(entry[..], f))
      ensures writing ==> out == old(out) + ResolveAll(NextBody(g, old(w)), EntriesOf(f, |g.elements|))
    {
      hide Body, Feed, ResolveAll, WorkOk, Matches, LinksFit, Run, Bodies;
      ghost var w0, entries := w, entry[..];
      WorkDone(w, g);
      EntryTakes(g, w);
      AdvancedOk(g, w);
      var e := TakeFirst(f);
      EntriesAfterTake(entries, w0, f);
      RenderBody(e);
      if writing {
        BodyResolved(g, w0, f, entry[..]);
      }
    }

    /** render_out_of_line_list. */
    method RenderList()
      requires Conc() && LinksFit(stale, Run(g, w)) && EntriesFit(entry[..], w)
      requires writing ==> EntriesFit(entry[..], Run(g, w))
      modifies `head, `tail, `n, `out, `w, rendered, next, entry
      ensures Conc() && w == Run(g, old(w)) && EntriesFit(entry[..], w) && w.done == |w.order|
      ensures writing ==> out == old(out) + ResolveAll(Bodies(g, old(w)), EntriesOf(w, |g.elements|))
    {
      hide Body, Feed, WorkOk;
      ghost var f := Run(g, w);
      ghost var finals := EntriesOf(f, |g.elements|);
      WorkDone(w, g);
      while head != NONE
        invariant Conc() && w.done <= |w.order| && Run(g, w) == f && EntriesFit(entry[..], w)
        invariant writing ==> EntriesFit(entry[..], f)
        invariant writing ==> out + ResolveAll(Bodies(g, w), finals) == old(out) + ResolveAll(Bodies(g, old(w)), finals)
        decreases |g.elements| - w.done
      {
        ghost var w0, out0 := w, out;
        ListStep(f);
        ResolveMore(NextBody(g, w0), Bodies(g, w), finals, out0);
      }
      assert writing ==> out + ResolveAll([], finals) == out;
    }

    /** Between the passes: nothing is rendered and nothing waits. */
    ghost predicate Idle()
      reads this, rendered, next
    {
      && GrammarOk(g) && rendered.Length == next.Length == entry.Length == |g.elements| && next != entry
      && head == NONE && tail == NONE && (forall e :: 0 <= e < rendered.Length ==> !rendered[e])
      && LinksFit(next[..], Final(g))
    }

    /** One pass over the grammar. */
    method Pass(write: bool)
      requires Idle() && (write ==> EntriesFit(entry[..], Final(g)))
      modifies this, rendered, next, entry
      ensures Conc() && w == Final(g) && LinksFit(next[..], Final(g)) && EntriesFit(entry[..], Final(g))
      ensures write ==> out == ResolveAll(Program(g), EntriesOf(Final(g), |g.elements|))
    {
      hide WorkOk, Code, Feed, LinksFit, ResolveAll, Bodies, Run;
      writing, n, out := write, 0, [];
      w, stale := START, next[..];
      StartMatches(rendered[..], next[..], g);
      RenderElement(0, NONE);
      ghost var w1, out1 := w, out;
      Emit(Plain(Complete));
      EmitsThen(START, [], w1, out1, w, out, Code(g, 0, NONE, 0), [Plain(Complete)], writing, entry[..]);
      NoEntriesYet(g);
      if writing {
        OpeningResolved(g, entry[..]);
      }
      RenderList();
      LinksStillFit(rendered[..], next[..], stale, w, g);
      if writing {
        ResolveMore(Opening(g), Bodies(g, Opened(g)), EntriesOf(w, |g.elements|), []);
      }
    }

    method ClearFlags()
      modifies rendered
      ensures forall e :: 0 <= e < rendered.Length ==> !rendered[e]
    {
      var e := 0;
      while e < rendered.Length
        invariant 0 <= e <= rendered.Length && forall i :: 0 <= i < e ==> !rendered[i]
      {
        rendered[e] := false;
        e := e + 1;
      }
    }

    constructor (g: Grammar)
      requires GrammarOk(g)
      ensures this.g == g && Idle() && fresh(rendered) && fresh(next) && fresh(entry)
    {
      this.g := g;
      rendered := new bool[|g.elements|](_ => false);
      next := new int[|g.elements|](_ => NONE);
      entry := new int[|g.elements|](_ => 0);
      head, tail, n, writing, out := NONE, NONE, 0, false, [];
    }

    /** render: the code written is the program with every jump resolved to where its element starts. */
    method Render()
      requires Idle()
      modifies this, rendered, next, entry
      ensures out == ResolveAll(Program(g), EntriesOf(Final(g), |g.elements|))
      ensures EntriesFit(entry[..], Final(g))
    {
      hide WorkOk, Final, Program, Matches, LinksFit, EntriesFit, ResolveAll;
      Pass(false);
      ClearFlags();
      assert Idle() by {
        FinalIsDone(g);
      }
      Pass(true);
    }
  }

  /** In the finished code, the target of every jump to an element is the index at which the code of that element
      stands. */
  lemma JumpsLand(g: Grammar, i: nat)
    requires GrammarOk(g) && i < |Program(g)| && Program(g)[i].Ref?
    ensures var p := Program(g); var entries := EntriesOf(Final(g), |g.elements|); var e := p[i].e;
      && Bodied(g, e) && entries[e] >= 0
      && ResolveAll(p, entries)[i] == Target(entries[e])
      && StandsAt(p, entries[e], Body(g, e, entries[e]))
      && e in Final(g).order
  {
    hide Body, Code, Feed, Run, Bodies, Layout;
    LabelsAreRight(g);
    var f, e := Final(g), Program(g)[i].e;
    var k :| 0 <= k < |f.order| && f.order[k] == e;
    assert EntryOk(g, Program(g), 0, f, k);
  }

  // ---------------------------------------------------------------------------------------------
  // What the code is, read back one operation at a time.

  /** What an operation still has to be followed by: its tag, the jump to the code of `e`, the jump back to the start
      of the repeated `e`, or the action of the
      element `of`, of any element if it is `NONE`. */
  datatype Due = Nothing | TagDue(follow: Follow) | JumpDue(e: nat) | BackDue(e: nat) | CallDue(of: int)

  datatype Follow = Opens | Jumps | Acts | Rests

  /** `open` holds the elements matched and not yet ended, innermost last. */
  datatype Reader = Reader(open: seq<nat>, due: Due) | Stuck

  function CallNext(open: seq<nat>, act: bool, e: int): Reader {
    Reader(open, if act then CallDue(e) else Nothing)
  }

  /** An element of kind `c` is ended: the innermost open one, whose action is announced if it has one. */
  function Ended(g: Grammar, open: seq<nat>, c: Compound, act: bool): Reader {
    if open == [] || Last(open) >= |g.elements| then Stuck
    else
      var e := Last(open);
      if g.elements[e].compound != c || g.elements[e].action != act then Stuck
      else if c.Sequence? then CallNext(open[..|open| - 1], act, e)
      else Reader(open[..|open| - 1], BackDue(e))
  }

  /** A tag names the element that is matched.  After a match with an action only a reference, whose action waits for
      what it refers to, does without the operand. */
  function Tagged(g: Grammar, open: seq<nat>, follow: Follow, e: nat): Reader {
    if e >= |g.elements| then Stuck
    else
      match follow
      case Opens => Reader(open + [e], Nothing)
      case Jumps => Reader(open, JumpDue(e))
      case Acts => CallNext(open, !g.elements[e].compound.TypeRef?, e)
      case Rests => Reader(open, Nothing)
  }

  /** The operation at which no operand is due. */
  function ReadOpcode(g: Grammar, open: seq<nat>, o: Opcode): Reader {
    match o
    case Match(_, jump, _) => Reader(open, TagDue(if jump then Jumps else Opens))
    case MatchAct(_, act, _) => Reader(open, TagDue(if act then Acts else Rests))
    case MatchAny(_, act, _) => CallNext(open, act, NONE)
    case Act(_) => CallNext(open, true, NONE)
    case CondFail => Reader(open, Nothing)
    case EndSeq(act) => Ended(g, open, Sequence, act)
    case EndSeqOf(act) => Ended(g, open, SequenceOf, act)
    case EndSetOf(act) => Ended(g, open, SetOf, act)
    case _ => Stuck
  }

  function ReadOne(g: Grammar, s: Reader, op: Op): Reader {
    if s.Stuck? then Stuck
    else
      match s.due
      case Nothing => if op.Plain? then ReadOpcode(g, s.open, op.op) else Stuck
      case TagDue(follow) => if op.Plain? && op.op.Tag? then Tagged(g, s.open, follow, op.op.e) else Stuck
      case JumpDue(e) => if op == Ref(e) then Reader(s.open, Nothing) else Stuck
      case BackDue(e) => if op.Loop? && e < |g.elements| then CallNext(s.open, g.elements[e].action, e) else Stuck
      case CallDue(e) =>
        if op.Plain? && op.op.CallAction? && (e == NONE || op.op.e == e) then Reader(s.open, Nothing) else Stuck
  }

  function Read(g: Grammar, s: Reader, ops: seq<Op>): Reader
    decreases |ops|
  {
    if ops == [] then s else Read(g, ReadOne(g, s, ops[0]), ops[1..])
  }

  lemma {:induction false} ReadAppend(g: Grammar, s: Reader, a: seq<Op>, b: seq<Op>)
    ensures Read(g, s, a + b) == Read(g, Read(g, s, a), b)
    decreases |a|
  {
    hide ReadOne;
    if a == [] {
      assert a + b == b;
    } else {
      assert (a + b)[1..] == a[1..] + b;
      ReadAppend(g, ReadOne(g, s, a[0]), a[1..], b);
    }
  }

  lemma ReadTwo(g: Grammar, s: Reader, a: Op, b: Op)
    ensures Read(g, s, [a]) == ReadOne(g, s, a)
    ensures Read(g, s, [a, b]) == ReadOne(g, ReadOne(g, s, a), b)
  {
    hide ReadOne;
    assert [a][1..] == [] && [a, b][1..] == [b] && [b][1..] == [];
    assert Read(g, ReadOne(g, s, a), [b]) == ReadOne(g, ReadOne(g, s, a), b);
  }

  /** The code of an element is whole operations, each with its operands, and ends whatever it opens. */
  lemma {:induction false} CodeReads(g: Grammar, e: nat, tag: int, n: nat, open: seq<nat>)
    requires GrammarOk(g) && Visited(g, e, tag)
    ensures Read(g, Reader(open, Nothing), Code(g, e, tag, n)) == Reader(open, Nothing)
    decreases g.depth[VisitOf(g, e, tag)], 2, 0
  {
    hide Inner, FootOf, HeadOf, Read, Bodied, AllDeeper;
    assert VisitOk(g, e, tag);
    if g.elements[e].compound.TagOverride? {
      CodeReads(g, g.elements[e].children[0], e, n, open);
    } else {
      var m := n + |HeadOf(g, e, tag)|;
      var s := Reader(open, Nothing);
      ReadAppend(g, s, HeadOf(g, e, tag) + Inner(g, e, tag, m), FootOf(g, e, tag, m));
      ReadAppend(g, s, HeadOf(g, e, tag), Inner(g, e, tag, m));
      HeadReads(g, e, tag, open);
      InnerReads(g, e, tag, m, open);
      FootReads(g, e, tag, m, open);
    }
  }

  /** How far the head of an element brings the reader. */
  ghost function AfterHead(g: Grammar, e: nat, tag: int, open: seq<nat>): Reader
    requires e < |g.elements| && tag < |g.elements|
  {
    var x := g.elements[e];
    if Constructed(x.compound) then
      if Outofline(g, e, tag) then Reader(open, JumpDue(e)) else Reader(open + [e], Nothing)
    else if x.compound.Any? then CallNext(open, x.action, NONE)
    else CallNext(open, x.action && !x.compound.Choice? && !x.compound.TypeRef?, e)
  }

  ghost function AfterInner(g: Grammar, e: nat, tag: int, open: seq<nat>): Reader
    requires e < |g.elements| && tag < |g.elements|
  {
    if Constructed(g.elements[e].compound) && Outofline(g, e, tag) then Reader(open, Nothing) else AfterHead(g, e, tag, open)
  }

  lemma HeadReads(g: Grammar, e: nat, tag: int, open: seq<nat>)
    requires e < |g.elements| && tag < |g.elements| && !g.elements[e].compound.TagOverride?
    ensures Read(g, Reader(open, Nothing), HeadOf(g, e, tag)) == AfterHead(g, e, tag, open)
  {
    var h := HeadOf(g, e, tag);
    if |h| == 1 {
      ReadTwo(g, Reader(open, Nothing), h[0], h[0]);
    } else if |h| == 2 {
      ReadTwo(g, Reader(open, Nothing), h[0], h[1]);
      assert h == [h[0], h[1]];
    }
  }

  lemma {:induction false} InnerReads(g: Grammar, e: nat, tag: int, m: nat, open: seq<nat>)
    requires GrammarOk(g) && Visited(g, e, tag) && !g.elements[e].compound.TagOverride?
    ensures Read(g, AfterHead(g, e, tag, open), Inner(g, e, tag, m)) == AfterInner(g, e, tag, open)
    decreases g.depth[VisitOf(g, e, tag)], 1, 0
  {
    hide Code, CodeAll, Bodied, AllDeeper;
    assert VisitOk(g, e, tag);
    var x, d := g.elements[e], g.depth[VisitOf(g, e, tag)];
    if Constructed(x.compound) && Outofline(g, e, tag) {
      ReadTwo(g, AfterHead(g, e, tag, open), Ref(e), Ref(e));
    } else {
      match x.compound {
        case TypeRef => CodeReads(g, x.target, if x.bare then tag else NONE, m, open);
        case Choice => CodeAllReads(g, x.children, true, m, d, open);
        case Sequence => CodeAllReads(g, x.children, false, m, d, open + [e]);
        case SequenceOf => CodeReads(g, x.children[0], NONE, m, open + [e]);
        case SetOf => CodeReads(g, x.children[0], NONE, m, open + [e]);
        case _ =>
      }
    }
  }

  lemma {:induction false} CodeAllReads(g: Grammar, es: seq<nat>, choice: bool, n: nat, bound: nat, open: seq<nat>)
    requires GrammarOk(g) && bound <= Top(g.depth) && AllDeeper(g, es, choice, bound)
    ensures Read(g, Reader(open, Nothing), CodeAll(g, es, choice, n, bound)) == Reader(open, Nothing)
    decreases bound, 0, |es|
  {
    hide Code, Bodied;
    if es != [] {
      var tag := if choice then es[0] else NONE;
      assert Deeper(g, es[0], tag, bound);
      var first := Code(g, es[0], tag, n);
      CodeReads(g, es[0], tag, n, open);
      CodeAllReads(g, es[1..], choice, n + |first|, bound, open);
      ReadAppend(g, Reader(open, Nothing), first, CodeAll(g, es[1..], choice, n + |first|, bound));
    }
  }

  /** The end of a constructed element takes it off the open ones, wherever its repetition starts. */
  lemma EndReads(g: Grammar, e: nat, open: seq<nat>, t: nat)
    requires e < |g.elements| && Constructed(g.elements[e].compound)
    ensures var end := if g.elements[e].compound.Sequence? then [EndOf(g, e)] else [EndOf(g, e), Loop(t)];
      Read(g, Reader(open + [e], Nothing), end + ActionOf(g, e)) == Reader(open, Nothing)
  {
    var s := Reader(open + [e], Nothing);
    var end := if g.elements[e].compound.Sequence? then [EndOf(g, e)] else [EndOf(g, e), Loop(t)];
    assert (open + [e])[..|open|] == open;
    ReadTwo(g, s, EndOf(g, e), Loop(t));
    assert Read(g, s, end) == CallNext(open, g.elements[e].action, e);
    ReadAppend(g, s, end, ActionOf(g, e));
    ReadTwo(g, CallNext(open, g.elements[e].action, e), Plain(CallAction(e)), Plain(CallAction(e)));
  }

  lemma FootReads(g: Grammar, e: nat, tag: int, m: nat, open: seq<nat>)
    requires e < |g.elements| && tag < |g.elements| && !g.elements[e].compound.TagOverride?
    ensures Read(g, AfterInner(g, e, tag, open), FootOf(g, e, tag, m)) == Reader(open, Nothing)
  {
    hide Read;
    var x, s, call := g.elements[e], Reader(open, Nothing), Plain(CallAction(e));
    ReadNothing(g, s);
    if Constructed(x.compound) {
      if !Outofline(g, e, tag) {
        EndReads(g, e, open, m);
      }
    } else if x.compound.TypeRef? {
      ReadTwo(g, s, Plain(Act(Skippable(g, e, tag))), call);
      assert x.action ==> FootOf(g, e, tag, m) == [Plain(Act(Skippable(g, e, tag))), call];
      assert !x.action ==> FootOf(g, e, tag, m) == [];
    } else if x.compound.Choice? {
      ChoiceReads(g, e, tag, m, open);
    } else {
      ReadTwo(g, AfterInner(g, e, tag, open), call, call);
    }
  }

  lemma ReadNothing(g: Grammar, s: Reader)
    ensures Read(g, s, []) == s
  {
  }

  lemma ChoiceReads(g: Grammar, e: nat, tag: int, m: nat, open: seq<nat>)
    requires e < |g.elements| && tag < |g.elements| && g.elements[e].compound.Choice?
    ensures Read(g, Reader(open, Nothing), FootOf(g, e, tag, m)) == Reader(open, Nothing)
  {
    hide Read;
    var s := Reader(open, Nothing);
    var fail := if Skippable(g, e, tag) then [] else [Plain(CondFail)];
    var act := if g.elements[e].action then [Plain(Act(false)), Plain(CallAction(e))] else [];
    ReadNothing(g, s);
    ReadTwo(g, s, Plain(CondFail), Plain(CondFail));
    ReadTwo(g, s, Plain(Act(false)), Plain(CallAction(e)));
    ReadAppend(g, s, fail, act);
    assert FootOf(g, e, tag, m) == fail + act;
  }

  /** The out-of-line code of an element ends that element, ends whatever it opens itself, and returns. */
  lemma BodyReads(g: Grammar, e: nat, n: nat, open: seq<nat>)
    requires GrammarOk(g) && Bodied(g, e)
    ensures var b := Body(g, e, n);
      b != [] && b[|b| - 1] == Plain(Return) && Read(g, Reader(open + [e], Nothing), b[..|b| - 1]) == Reader(open, Nothing)
  {
    hide CodeAll, Read, EndOf, ActionOf;
    var b, s := Body(g, e, n), Reader(open + [e], Nothing);
    var inner := CodeAll(g, g.elements[e].children, false, n, Top(g.depth));
    var end := if g.elements[e].compound.Sequence? then [EndOf(g, e)] else [EndOf(g, e), Loop(n)];
    assert b[..|b| - 1] == inner + (end + ActionOf(g, e));
    CodeAllReads(g, g.elements[e].children, false, n, Top(g.depth), open + [e]);
    ReadAppend(g, s, inner, end + ActionOf(g, e));
    EndReads(g, e, open, n);
  }

  // ---------------------------------------------------------------------------------------------
  // Jumps back.

  /** The operation that ends a repeated element. */
  ghost predicate EndsRepetition(g: Grammar, e: nat, op: Op) {
    && e < |g.elements|
    && (|| (g.elements[e].compound.SequenceOf? && op == Plain(EndSeqOf(g.elements[e].action)))
        || (g.elements[e].compound.SetOf? && op == Plain(EndSetOf(g.elements[e].action))))
  }

  /** `part` is what the repeated element `e` repeats, rendered at `t`. */
  ghost predicate RepeatedPart(g: Grammar, e: nat, t: nat, part: seq<Op>)
    requires GrammarOk(g) && e < |g.elements|
  {
    var cs := g.elements[e].children;
    || (cs != [] && Visited(g, cs[0], NONE) && part == Code(g, cs[0], NONE, t))
    || (Bodied(g, e) && part == CodeAll(g, cs, false, t, Top(g.depth)))
  }

  /** The jump back at index `i` of code that starts at `n` stands after the end of the repeated element `e`, and leads
      to where what `e` repeats starts, which stands from there up to that end. */
  ghost predicate Repeats(g: Grammar, ops: seq<Op>, n: nat, i: nat, e: nat)
    requires GrammarOk(g) && i < |ops| && ops[i].Loop?
  {
    && 0 < i && n <= ops[i].target < n + i
    && EndsRepetition(g, e, ops[i - 1]) && RepeatedPart(g, e, ops[i].target, ops[ops[i].target - n..i - 1])
  }

  ghost predicate LoopFits(g: Grammar, ops: seq<Op>, n: nat, i: nat)
    requires GrammarOk(g) && i < |ops| && ops[i].Loop?
  {
    exists e: nat :: Repeats(g, ops, n, i, e)
  }

  ghost predicate LoopsFit(g: Grammar, ops: seq<Op>, n: nat)
    requires GrammarOk(g)
  {
    forall i: nat :: i < |ops| && ops[i].Loop? ==> LoopFits(g, ops, n, i)
  }

  lemma LoopFitsBefore(g: Grammar, a: seq<Op>, b: seq<Op>, n: nat, i: nat)
    requires GrammarOk(g) && i < |a| && a[i].Loop? && LoopFits(g, a, n, i)
    ensures LoopFits(g, a + b, n, i)
  {
    hide RepeatedPart, EndsRepetition;
    var t := a[i].target;
    var e: nat :| Repeats(g, a, n, i, e);
    assert (a + b)[t - n..i - 1] == a[t - n..i - 1];
    assert Repeats(g, a + b, n, i, e);
  }

  lemma LoopFitsAfter(g: Grammar, a: seq<Op>, b: seq<Op>, n: nat, i: nat)
    requires GrammarOk(g) && i < |b| && b[i].Loop? && LoopFits(g, b, n + |a|, i)
    ensures LoopFits(g, a + b, n, |a| + i)
  {
    hide RepeatedPart, EndsRepetition;
    var t := b[i].target;
    var e: nat :| Repeats(g, b, n + |a|, i, e);
    assert (a + b)[t - n..|a| + i - 1] == b[t - n - |a|..i - 1];
    assert Repeats(g, a + b, n, |a| + i, e);
  }

  lemma LoopsAppend(g: Grammar, a: seq<Op>, b: seq<Op>, n: nat)
    requires GrammarOk(g) && LoopsFit(g, a, n) && LoopsFit(g, b, n + |a|)
    ensures LoopsFit(g, a + b, n)
  {
    hide LoopFits, GrammarOk;
    forall i: nat | i < |a + b| && (a + b)[i].Loop? ensures LoopFits(g, a + b, n, i) {
      if i < |a| {
        LoopFitsBefore(g, a, b, n, i);
      } else {
        LoopFitsAfter(g, a, b, n, i - |a|);
      }
    }
  }

  ghost predicate NoLoops(ops: seq<Op>) {
    forall i :: 0 <= i < |ops| ==> !ops[i].Loop?
  }

  lemma NoLoopsFit(g: Grammar, ops: seq<Op>, n: nat)
    requires GrammarOk(g) && NoLoops(ops)
    ensures LoopsFit(g, ops, n)
  {
  }

  /** A part, the end of the element that repeats it, and the jump back. */
  lemma RepetitionFits(g: Grammar, e: nat, t: nat, part: seq<Op>, tail: seq<Op>)
    requires GrammarOk(g) && e < |g.elements| && (g.elements[e].compound.SequenceOf? || g.elements[e].compound.SetOf?)
    requires RepeatedPart(g, e, t, part) && LoopsFit(g, part, t) && NoLoops(tail)
    ensures LoopsFit(g, part + ([EndOf(g, e), Loop(t)] + tail), t)
  {
    hide RepeatedPart, GrammarOk, NoLoops, LoopFits, EndOf;
    var end := [EndOf(g, e), Loop(t)] + tail;
    forall i: nat | i < |part + end| && (part + end)[i].Loop? ensures LoopFits(g, part + end, t, i) {
      if i < |part| {
        LoopFitsBefore(g, part, end, t, i);
      } else {
        OnlyLoop(g, e, t, tail, i - |part|);
        LoopBackFits(g, e, t, part, tail);
      }
    }
  }

  lemma OnlyLoop(g: Grammar, e: nat, t: nat, tail: seq<Op>, i: nat)
    requires e < |g.elements| && NoLoops(tail)
    ensures var end := [EndOf(g, e), Loop(t)] + tail; i < |end| && end[i].Loop? ==> i == 1
  {
  }

  lemma LoopBackFits(g: Grammar, e: nat, t: nat, part: seq<Op>, tail: seq<Op>)
    requires GrammarOk(g) && e < |g.elements| && (g.elements[e].compound.SequenceOf? || g.elements[e].compound.SetOf?)
    requires RepeatedPart(g, e, t, part)
    ensures var ops := part + ([EndOf(g, e), Loop(t)] + tail); ops[|part| + 1] == Loop(t) && LoopFits(g, ops, t, |part| + 1)
  {
    hide RepeatedPart, GrammarOk;
    var ops := part + ([EndOf(g, e), Loop(t)] + tail);
    assert ops[|part|] == EndOf(g, e) && ops[|part| + 1] == Loop(t);
    assert ops[0..|part|] == part;
    assert Repeats(g, ops, t, |part| + 1, e);
  }

  lemma {:induction false} CodeLoops(g: Grammar, e: nat, tag: int, n: nat)
    requires GrammarOk(g) && Visited(g, e, tag)
    ensures LoopsFit(g, Code(g, e, tag, n), n)
    decreases g.depth[VisitOf(g, e, tag)], 3, 0
  {
    hide Inner, FootOf, HeadOf, Bodied, AllDeeper, LoopsFit;
    assert VisitOk(g, e, tag);
    if g.elements[e].compound.TagOverride? {
      CodeLoops(g, g.elements[e].children[0], e, n);
    } else {
      var h := HeadOf(g, e, tag);
      var m := n + |h|;
      var inner, foot := Inner(g, e, tag, m), FootOf(g, e, tag, m);
      InnerLoops(g, e, tag, m);
      HeadHasNoLoops(g, e, tag);
      NoLoopsFit(g, h, n);
      LoopsAppend(g, h, inner + foot, n);
      assert h + inner + foot == h + (inner + foot);
    }
  }

  lemma HeadHasNoLoops(g: Grammar, e: nat, tag: int)
    requires e < |g.elements| && tag < |g.elements|
    ensures NoLoops(HeadOf(g, e, tag)) && NoLoops(ActionOf(g, e)) && NoLoops([Ref(e)]) && NoLoops([])
  {
  }

  ghost predicate Repeated(g: Grammar, e: nat, tag: int)
    requires e < |g.elements| && tag < |g.elements|
  {
    (g.elements[e].compound.SequenceOf? || g.elements[e].compound.SetOf?) && !Outofline(g, e, tag)
  }

  lemma FootHasNoLoops(g: Grammar, e: nat, tag: int, m: nat)
    requires e < |g.elements| && tag < |g.elements| && !Repeated(g, e, tag)
    ensures NoLoops(FootOf(g, e, tag, m))
  {
  }

  lemma {:induction false} InnerLoops(g: Grammar, e: nat, tag: int, m: nat)
    requires GrammarOk(g) && Visited(g, e, tag) && !g.elements[e].compound.TagOverride?
    ensures LoopsFit(g, Inner(g, e, tag, m) + FootOf(g, e, tag, m), m)
    decreases g.depth[VisitOf(g, e, tag)], 2, 0
  {
    hide Code, CodeAll, Bodied, AllDeeper, LoopsFit, NoLoops, EndOf, ActionOf;
    assert VisitOk(g, e, tag);
    var x, d := g.elements[e], g.depth[VisitOf(g, e, tag)];
    HeadHasNoLoops(g, e, tag);
    if Repeated(g, e, tag) {
      CodeLoops(g, x.children[0], NONE, m);
      assert RepeatedPart(g, e, m, Code(g, x.children[0], NONE, m));
      RepetitionFits(g, e, m, Code(g, x.children[0], NONE, m), ActionOf(g, e));
    } else {
      PlainInnerLoops(g, e, tag, m);
      FootHasNoLoops(g, e, tag, m);
      NoLoopsFit(g, FootOf(g, e, tag, m), m + |Inner(g, e, tag, m)|);
      LoopsAppend(g, Inner(g, e, tag, m), FootOf(g, e, tag, m), m);
    }
  }

  lemma {:induction false} PlainInnerLoops(g: Grammar, e: nat, tag: int, m: nat)
    requires GrammarOk(g) && Visited(g, e, tag) && !g.elements[e].compound.TagOverride? && !Repeated(g, e, tag)
    ensures LoopsFit(g, Inner(g, e, tag, m), m)
    decreases g.depth[VisitOf(g, e, tag)], 1, 0
  {
    hide Code, CodeAll, Bodied, AllDeeper, LoopsFit, NoLoops;
    assert VisitOk(g, e, tag);
    var x, d := g.elements[e], g.depth[VisitOf(g, e, tag)];
    HeadHasNoLoops(g, e, tag);
    if Constructed(x.compound) && Outofline(g, e, tag) {
      NoLoopsFit(g, [Ref(e)], m);
    } else {
      match x.compound {
        case TypeRef => CodeLoops(g, x.target, if x.bare then tag else NONE, m);
        case Choice => CodeAllLoops(g, x.children, true, m, d);
        case Sequence => CodeAllLoops(g, x.children, false, m, d);
        case _ => NoLoopsFit(g, [], m);
      }
    }
  }

  lemma {:induction false} CodeAllLoops(g: Grammar, es: seq<nat>, choice: bool, n: nat, bound: nat)
    requires GrammarOk(g) && bound <= Top(g.depth) && AllDeeper(g, es, choice, bound)
    ensures LoopsFit(g, CodeAll(g, es, choice, n, bound), n)
    decreases bound, 0, |es|
  {
    hide Code, Bodied, LoopFits;
    if es != [] {
      var tag := if choice then es[0] else NONE;
      assert Deeper(g, es[0], tag, bound);
      var first := Code(g, es[0], tag, n);
      CodeLoops(g, es[0], tag, n);
      CodeAllLoops(g, es[1..], choice, n + |first|, bound);
      LoopsAppend(g, first, CodeAll(g, es[1..], choice, n + |first|, bound), n);
    }
  }

  lemma BodyLoops(g: Grammar, e: nat, n: nat)
    requires GrammarOk(g) && Bodied(g, e)
    ensures LoopsFit(g, Body(g, e, n), n)
  {
    hide CodeAll, LoopsFit, EndOf, ActionOf;
    var part := CodeAll(g, g.elements[e].children, false, n, Top(g.depth));
    CodeAllLoops(g, g.elements[e].children, false, n, Top(g.depth));
    HeadHasNoLoops(g, e, NONE);
    if g.elements[e].compound.Sequence? {
      SequenceFootHasNoLoops(g, e, n);
      NoLoopsFit(g, BodyFoot(g, e, n), n + |part|);
      LoopsAppend(g, part, BodyFoot(g, e, n), n);
    } else {
      assert RepeatedPart(g, e, n, part);
      RepetitionFits(g, e, n, part, ActionOf(g, e) + [Plain(Return)]);
      assert BodyFoot(g, e, n) == [EndOf(g, e), Loop(n)] + (ActionOf(g, e) + [Plain(Return)]);
    }
  }

  lemma SequenceFootHasNoLoops(g: Grammar, e: nat, n: nat)
    requires e < |g.elements| && g.elements[e].compound.Sequence?
    ensures NoLoops(BodyFoot(g, e, n))
  {
  }

  lemma {:induction false} LayoutLoops(g: Grammar, order: seq<nat>, k: nat, n: nat)
    requires GrammarOk(g) && Within(order, g) && k <= |order|
    ensures LoopsFit(g, Layout(g, order, k, n), n)
    decreases |order| - k
  {
    hide Body, LoopFits, Bodied;
    if k < |order| {
      var b := Body(g, order[k], n);
      BodyLoops(g, order[k], n);
      LayoutLoops(g, order, k + 1, n + |b|);
      LoopsAppend(g, b, Layout(g, order, k + 1, n + |b|), n);
    }
  }

  /** Every jump back, inline or out of line, stands after the end of a repeated element and leads to where what is
      repeated starts, which stands from there up to that end. */
  lemma JumpsBackLand(g: Grammar, i: nat)
    requires GrammarOk(g) && i < |Program(g)| && Program(g)[i].Loop?
    ensures LoopFits(g, Program(g), 0, i)
    ensures ResolveAll(Program(g), EntriesOf(Final(g), |g.elements|))[i] == Target(Program(g)[i].target)
  {
    hide Body, Code, Feed, Run, Bodies, Layout, Final, LoopFits, EntryOk;
    ProgramLoops(g);
  }

  lemma ProgramLoops(g: Grammar)
    requires GrammarOk(g)
    ensures LoopsFit(g, Program(g), 0)
  {
    hide Body, Code, Feed, Run, Bodies, Layout, LoopsFit, EntryOk;
    LabelsAreRight(g);
    var f := Final(g);
    CodeLoops(g, 0, NONE, 0);
    NoLoopsFit(g, [Plain(Complete)], |Code(g, 0, NONE, 0)|);
    LoopsAppend(g, Code(g, 0, NONE, 0), [Plain(Complete)], 0);
    LayoutLoops(g, f.order, 0, |Opening(g)|);
    LoopsAppend(g, Opening(g), Layout(g, f.order, 0, |Opening(g)|), 0);
  }

  /** The program read back: the code of the root ends whatever it opens and completes; the body that stands at the
      entry of each element ends that element, ends whatever it opens itself, and returns. */
  lemma ProgramIsBracketed(g: Grammar)
    requires GrammarOk(g)
    ensures var p := Program(g); var size := |Opening(g)|; var f := Final(g);
      && 0 < size <= |p| && p[size - 1] == Plain(Complete)
      && Read(g, Reader([], Nothing), p[..size - 1]) == Reader([], Nothing)
      && forall k :: 0 <= k < |f.order| ==> BodyIsBracketed(g, p, f, f.order[k])
  {
    hide Body, Code, Feed, Run, Bodies, Layout, StandsAt, Bodied, Read, BodyIsBracketed, EntryOk;
    var p, f := Program(g), Final(g);
    LabelsAreRight(g);
    CodeReads(g, 0, NONE, 0, []);
    assert p[..|Opening(g)| - 1] == Code(g, 0, NONE, 0);
    forall k | 0 <= k < |f.order| ensures BodyIsBracketed(g, p, f, f.order[k]) {
      BodyStandsBracketed(g, p, f, k);
    }
  }

  ghost predicate BodyIsBracketed(g: Grammar, p: seq<Op>, f: Work, e: nat) {
    e in f.entry && exists end: nat :: ReturnsAt(g, p, e, f.entry[e], end)
  }

  /** From `at` on the element `e` is ended, and the code returns at `end`. */
  ghost predicate ReturnsAt(g: Grammar, p: seq<Op>, e: nat, at: nat, end: nat) {
    && at <= end < |p| && p[end] == Plain(Return)
    && Read(g, Reader([e], Nothing), p[at..end]) == Reader([], Nothing)
  }

  lemma BodyStandsBracketed(g: Grammar, p: seq<Op>, f: Work, k: nat)
    requires GrammarOk(g) && k < |f.order| && EntryOk(g, p, 0, f, k)
    ensures BodyIsBracketed(g, p, f, f.order[k])
  {
    hide Body, Read, Bodied;
    var e := f.order[k];
    var at := f.entry[e];
    var b := Body(g, e, at);
    BodyReads(g, e, at, []);
    assert [] + [e] == [e];
    var size := |b| - 1;
    assert p[at..at + |b|][size] == p[at + size];
    assert p[at..at + size] == p[at..at + |b|][..size];
    assert ReturnsAt(g, p, e, at, at + size);
  }

  // ---------------------------------------------------------------------------------------------
  // What the decoder meets.

  /** An element is matched, entered through a jump, or has its action called. */
  datatype Event = Meets(e: nat) | Enters(e: nat) | Calls(e: nat)

  /** The events of a piece of code, in order. */
  function Events(ops: seq<Op>): seq<Event> {
    if ops == [] then []
    else
      (match ops[0]
       case Ref(e) => [Enters(e)]
       case Plain(Tag(_, e)) => [Meets(e)]
       case Plain(CallAction(e)) => [Calls(e)]
       case _ => []) + Events(ops[1..])
  }

  /** The walk over the grammar that the code of an element stands for: an element is met before what it is made of,
      and its action is called after all of it.  A choice and a bare reference are not met themselves. */
  ghost function Walk(g: Grammar, e: nat, tag: int): seq<Event>
    requires GrammarOk(g) && Visited(g, e, tag)
    decreases g.depth[VisitOf(g, e, tag)], 1, 0
  {
    assert VisitOk(g, e, tag);
    var x, d := g.elements[e], g.depth[VisitOf(g, e, tag)];
    var acts := if x.action then [Calls(e)] else [];
    match x.compound
    case TagOverride => Walk(g, x.children[0], e)
    case Any => acts
    case Primitive => [Meets(e)] + acts
    case TypeRef =>
      if x.bare then Walk(g, x.target, tag) + acts else [Meets(e)] + Walk(g, x.target, NONE) + acts
    case Choice => WalkAll(g, x.children, true, d) + acts
    case Sequence =>
      if x.shared || Skippable(g, e, tag) then [Meets(e), Enters(e)] else [Meets(e)] + WalkAll(g, x.children, false, d) + acts
    case _ =>
      if x.shared || Skippable(g, e, tag) then [Meets(e), Enters(e)] else [Meets(e)] + Walk(g, x.children[0], NONE) + acts
  }

  /** All elements of a list in order; the alternatives of a choice are tagged by themselves. */
  ghost function WalkAll(g: Grammar, es: seq<nat>, choice: bool, bound: nat): seq<Event>
    requires GrammarOk(g) && bound <= Top(g.depth) && AllDeeper(g, es, choice, bound)
    decreases bound, 0, |es|
  {
    if es == [] then []
    else
      assert Deeper(g, es[0], if choice then es[0] else NONE, bound);
      Walk(g, es[0], if choice then es[0] else NONE) + WalkAll(g, es[1..], choice, bound)
  }

  lemma {:induction false} EventsAppend(a: seq<Op>, b: seq<Op>)
    ensures Events(a + b) == Events(a) + Events(b)
  {
    if a == [] {
      assert a + b == b;
    } else {
      assert (a + b)[1..] == a[1..] + b;
      EventsAppend(a[1..], b);
    }
  }

  lemma HeadEvents(g: Grammar, e: nat, tag: int)
    requires e < |g.elements| && tag < |g.elements|
    ensures var x := g.elements[e];
      Events(HeadOf(g, e, tag)) == if x.compound.Any? || x.compound.Choice? || (x.compound.TypeRef? && x.bare) then [] else [Meets(e)]
  {
    var h := HeadOf(g, e, tag);
    if |h| == 2 {
      assert h == [h[0]] + [h[1]];
      EventsAppend([h[0]], [h[1]]);
    }
  }

  lemma FootEvents(g: Grammar, e: nat, tag: int, m: nat)
    requires e < |g.elements| && tag < |g.elements|
    ensures var x := g.elements[e];
      Events(FootOf(g, e, tag, m)) == if x.action && !(Constructed(x.compound) && Outofline(g, e, tag)) then [Calls(e)] else []
  {
    var f := FootOf(g, e, tag, m);
    ActionEvents(g, e);
    if Constructed(g.elements[e].compound) && !Outofline(g, e, tag) {
      EndEvents(g, e, m);
    } else if |f| == 3 {
      assert f[1..] == [f[1], f[2]] && f[1..][1..] == [f[2]];
    } else if |f| == 2 {
      assert f[1..] == [f[1]];
    }
  }

  lemma ActionEvents(g: Grammar, e: nat)
    requires e < |g.elements|
    ensures Events(ActionOf(g, e)) == if g.elements[e].action then [Calls(e)] else []
  {
  }

  lemma EndEvents(g: Grammar, e: nat, t: nat)
    requires e < |g.elements|
    ensures var acts := if g.elements[e].action then [Calls(e)] else [];
      Events([EndOf(g, e)] + ActionOf(g, e)) == acts && Events([EndOf(g, e), Loop(t)] + ActionOf(g, e)) == acts
  {
    ActionEvents(g, e);
    assert Events([EndOf(g, e)]) == [];
    assert [EndOf(g, e), Loop(t)] == [EndOf(g, e)] + [Loop(t)] && Events([Loop(t)]) == [];
    EventsAppend([EndOf(g, e)], [Loop(t)]);
    EventsAppend([EndOf(g, e)], ActionOf(g, e));
    EventsAppend([EndOf(g, e), Loop(t)], ActionOf(g, e));
  }

  /** The code of an element is its walk, wherever it stands. */
  lemma {:induction false} CodeIsWalk(g: Grammar, e: nat, tag: int, n: nat)
    requires GrammarOk(g) && Visited(g, e, tag)
    ensures Events(Code(g, e, tag, n)) == Walk(g, e, tag)
    decreases g.depth[VisitOf(g, e, tag)], 2, 0
  {
    hide Inner, FootOf, HeadOf, Events, Bodied, AllDeeper, WalkAll;
    assert VisitOk(g, e, tag);
    if g.elements[e].compound.TagOverride? {
      CodeIsWalk(g, g.elements[e].children[0], e, n);
    } else {
      var h := HeadOf(g, e, tag);
      var m := n + |h|;
      EventsAppend(h + Inner(g, e, tag, m), FootOf(g, e, tag, m));
      EventsAppend(h, Inner(g, e, tag, m));
      HeadEvents(g, e, tag);
      FootEvents(g, e, tag, m);
      InnerIsWalk(g, e, tag, m);
    }
  }

  lemma {:induction false} InnerIsWalk(g: Grammar, e: nat, tag: int, m: nat)
    requires GrammarOk(g) && Visited(g, e, tag) && !g.elements[e].compound.TagOverride?
    ensures Events(HeadOf(g, e, tag)) + Events(Inner(g, e, tag, m)) + Events(FootOf(g, e, tag, m)) == Walk(g, e, tag)
    decreases g.depth[VisitOf(g, e, tag)], 1, 0
  {
    hide Code, CodeAll, HeadOf, FootOf, Events, Bodied, AllDeeper, WalkAll;
    assert VisitOk(g, e, tag);
    var x, d := g.elements[e], g.depth[VisitOf(g, e, tag)];
    HeadEvents(g, e, tag);
    FootEvents(g, e, tag, m);
    OneEvent(e);
    if Constructed(x.compound) && Outofline(g, e, tag) {
      assert [Meets(e)] + [Enters(e)] + [] == [Meets(e), Enters(e)];
    } else {
      match x.compound {
        case TypeRef => CodeIsWalk(g, x.target, if x.bare then tag else NONE, m);
        case Choice => CodeAllIsWalk(g, x.children, true, m, d);
        case Sequence => CodeAllIsWalk(g, x.children, false, m, d);
        case SequenceOf => CodeIsWalk(g, x.children[0], NONE, m);
        case SetOf => CodeIsWalk(g, x.children[0], NONE, m);
        case _ =>
      }
    }
  }

  lemma OneEvent(e: nat)
    ensures Events([Ref(e)]) == [Enters(e)] && Events([]) == []
  {
  }

  lemma {:induction false} CodeAllIsWalk(g: Grammar, es: seq<nat>, choice: bool, n: nat, bound: nat)
    requires GrammarOk(g) && bound <= Top(g.depth) && AllDeeper(g, es, choice, bound)
    ensures Events(CodeAll(g, es, choice, n, bound)) == WalkAll(g, es, choice, bound)
    decreases bound, 0, |es|
  {
    hide Code, Bodied, Walk;
    if es != [] {
      var tag := if choice then es[0] else NONE;
      assert Deeper(g, es[0], tag, bound);
      var first := Code(g, es[0], tag, n);
      CodeIsWalk(g, es[0], tag, n);
      CodeAllIsWalk(g, es[1..], choice, n + |first|, bound);
      EventsAppend(first, CodeAll(g, es[1..], choice, n + |first|, bound));
    }
  }

  /** The out-of-line code of an element is the walk over all its children, and then its action. */
  lemma BodyIsWalk(g: Grammar, e: nat, n: nat)
    requires GrammarOk(g) && Bodied(g, e)
    ensures Events(Body(g, e, n)) ==
      WalkAll(g, g.elements[e].children, false, Top(g.depth)) + if g.elements[e].action then [Calls(e)] else []
  {
    hide CodeAll, WalkAll, EndOf, ActionOf, Events;
    var inner := CodeAll(g, g.elements[e].children, false, n, Top(g.depth));
    var end := (if g.elements[e].compound.Sequence? then [EndOf(g, e)] else [EndOf(g, e), Loop(n)]) + ActionOf(g, e);
    CodeAllIsWalk(g, g.elements[e].children, false, n, Top(g.depth));
    EndEvents(g, e, n);
    ReturnEvents();
    EventsAppend(inner, end + [Plain(Return)]);
    EventsAppend(end, [Plain(Return)]);
    assert Body(g, e, n) == inner + (end + [Plain(Return)]);
  }

  lemma ReturnEvents()
    ensures Events([Plain(Return)]) == [] && Events([Plain(Complete)]) == []
  {
  }

  // ---------------------------------------------------------------------------------------------
  // Operation numbers.

  function Bit(b: bool): int {
    if b then 1 else 0
  }

  /** The number of an operation; operands have none. */
  function Number(o: Opcode): int {
    match o
    case MatchAny(cond, act, skip) => 0x08 + 0x10 * Bit(cond) + 0x02 * Bit(act) + Bit(skip)
    case Match(cond, jump, skip) => 0x10 * Bit(cond) + 0x04 * Bit(jump) + Bit(skip)
    case MatchAct(cond, act, skip) => 0x10 * Bit(cond) + 0x02 * Bit(act) + Bit(skip)
    case CondFail => 0x1c
    case Complete => 0x1d
    case Act(maybe) => 0x1e + Bit(maybe)
    case EndSeq(act) => 0x20 + 0x04 * Bit(act)
    case EndSeqOf(act) => 0x22 + 0x04 * Bit(act)
    case EndSetOf(act) => 0x23 + 0x04 * Bit(act)
    case Return => 0x28
    case _ => NONE
  }

  /** The numbers that the byte code gives a meaning to. */
  predicate Declared(k: int) {
    k in {0x00, 0x01, 0x02, 0x03, 0x04, 0x05, 0x08, 0x09, 0x0a, 0x0b, 0x11, 0x13, 0x15, 0x18, 0x19, 0x1a, 0x1b} || 0x1c <= k <= 0x28
  }

  /** The flags of a match in its number. */
  ghost predicate HasBits(k: int, skip: bool, act: bool, jump: bool, any: bool, cond: bool) {
    && 0 <= k < 0x20
    && (k % 2 == 1 <==> skip) && (k / 0x02 % 2 == 1 <==> act) && (k / 0x04 % 2 == 1 <==> jump)
    && (k / 0x08 % 2 == 1 <==> any) && (k / 0x10 % 2 == 1 <==> cond)
  }

  /** The bits of the match at the head of an element.  The match exists unless a condition comes without leave to
      skip, which the byte code has only for ANY. */
  lemma HeadBits(g: Grammar, e: nat, tag: int)
    requires e < |g.elements| && tag < |g.elements|
    ensures var x := g.elements[e]; var h := HeadOf(g, e, tag);
      var skip := x.skippable || (tag >= 0 && g.elements[tag].skippable);
      var cond := x.conditional || (tag >= 0 && g.elements[tag].conditional);
      && (h == [] <==> x.compound.Choice? || (x.compound.TypeRef? && x.bare))
      && (h == [] || (h[0].Plain? && HasBits(Number(h[0].op), skip, x.action && !Constructed(x.compound),
                                             Constructed(x.compound) && (x.shared || skip), x.compound.Any?, cond)))
      && (h == [] || (Declared(Number(h[0].op)) <==> x.compound.Any? || (cond ==> skip)))
      && (h != [] && !x.compound.Any? ==>
            |h| == 2 && h[1] == Plain(Tag(if tag >= 0 && g.elements[tag].tagSpecified then tag else e, e)))
  {
    hide Number, Declared;
    var x, h := g.elements[e], HeadOf(g, e, tag);
    if h != [] {
      var skip := Skippable(g, e, tag);
      var cond := x.conditional || (tag >= 0 && g.elements[tag].conditional);
      AnyBits(cond, x.action, skip);
      MatchBits(cond, Outofline(g, e, tag), skip);
      MatchActBits(cond, x.action, skip);
    }
  }

  lemma AnyBits(cond: bool, act: bool, skip: bool)
    ensures var k := Number(MatchAny(cond, act, skip)); HasBits(k, skip, act, false, true, cond) && Declared(k)
  {
  }

  lemma MatchBits(cond: bool, jump: bool, skip: bool)
    ensures var k := Number(Match(cond, jump, skip));
      HasBits(k, skip, false, jump, false, cond) && (Declared(k) <==> (cond ==> skip))
  {
  }

  lemma MatchActBits(cond: bool, act: bool, skip: bool)
    ensures var k := Number(MatchAct(cond, act, skip));
      HasBits(k, skip, act, false, false, cond) && (Declared(k) <==> (cond ==> skip))
  {
  }

  /** A match with an action is followed by its tag and that action unless it is the tag of a reference: the action of
      a reference comes after what it refers to, and the operand of the match is missing. */
  lemma ActionFollowsMatch(g: Grammar, e: nat, tag: int, n: nat)
    requires GrammarOk(g) && Visited(g, e, tag) && g.elements[e].action
    requires g.elements[e].compound.Primitive? || (g.elements[e].compound.TypeRef? && !g.elements[e].bare)
    ensures var c := Code(g, e, tag, n);
      && 2 < |c| && c[0].Plain? && c[0].op.MatchAct? && c[0].op.act && c[1].Plain? && c[1].op.Tag?
      && (c[2] == Plain(CallAction(e)) <==> g.elements[e].compound.Primitive?)
  {
    hide Inner, Read, AllDeeper, Bodied;
    var x, h := g.elements[e], HeadOf(g, e, tag);
    var m := n + |h|;
    var rest := Inner(g, e, tag, m) + FootOf(g, e, tag, m);
    assert Code(g, e, tag, n) == h + rest;
    if x.compound.Primitive? {
      assert Inner(g, e, tag, m) == [] by {
        NothingInside(g, e, tag, m);
      }
    } else {
      InnerReads(g, e, tag, m, []);
      FootReads(g, e, tag, m, []);
      ReadAppend(g, Reader([], Nothing), Inner(g, e, tag, m), FootOf(g, e, tag, m));
      FirstReads(g, Reader([], Nothing), rest);
    }
  }

  lemma NothingInside(g: Grammar, e: nat, tag: int, m: nat)
    requires GrammarOk(g) && Visited(g, e, tag) && g.elements[e].compound.Primitive?
    ensures Inner(g, e, tag, m) == []
  {
  }

  lemma {:induction false} ReadStuck(g: Grammar, ops: seq<Op>)
    ensures Read(g, Stuck, ops) == Stuck
    decreases |ops|
  {
    if ops != [] {
      ReadStuck(g, ops[1..]);
    }
  }

  lemma FirstReads(g: Grammar, s: Reader, ops: seq<Op>)
    requires ops != [] && Read(g, s, ops) != Stuck
    ensures ReadOne(g, s, ops[0]) != Stuck
  {
    hide ReadOne;
    ReadStuck(g, ops[1..]);
  }

  lemma FinalIsDone(g: Grammar)
    requires GrammarOk(g)
    ensures Final(g).done == |Final(g).order|
  {
  }

  lemma StartMatches(rendered: seq<bool>, next: seq<int>, g: Grammar)
    requires |rendered| == |next| == |g.elements| && forall e :: 0 <= e < |g.elements| ==> !rendered[e]
    ensures Matches(rendered, next, next, START, g) && WorkOk(START, g)
  {
  }

  lemma LinksStillFit(rendered: seq<bool>, next: seq<int>, stale: seq<int>, f: Work, g: Grammar)
    requires Matches(rendered, next, stale, f, g) && LinksFit(stale, f)
    ensures LinksFit(next, f)
  {
  }

  lemma NoEntriesYet(g: Grammar)
    requires GrammarOk(g)
    ensures forall entries: seq<int> :: EntriesFit(entries, Opened(g))
  {
    hide Code;
  }

  /** Every element that the root refers to has its final entry. */
  lemma OpeningResolved(g: Grammar, entries: seq<int>)
    requires GrammarOk(g) && EntriesFit(entries, Final(g)) && |entries| == |g.elements|
    ensures ResolveAll(Opening(g), entries) == ResolveAll(Opening(g), EntriesOf(Final(g), |g.elements|))
  {
    hide Code, Feed, ResolveAll, WorkOk, Run;
    var b, f := Opening(g), Final(g);
    OpenedShape(g);
    RunPrefix(g, Opened(g));
    AllEntered(f, g);
    forall i | 0 <= i < |b| && b[i].Ref? ensures b[i].e < |entries| && entries[b[i].e] == EntriesOf(f, |g.elements|)[b[i].e] {
      assert b[i].e in f.order;
    }
    ResolveSame(b, entries, EntriesOf(f, |g.elements|));
  }

  ghost function NextBody(g: Grammar, w: Work): seq<Op>
    requires GrammarOk(g) && w.done < |w.order| && Bodied(g, w.order[w.done])
  {
    Body(g, w.order[w.done], w.n)
  }

  /** One element has been worked off; the outcome is still the same. */
  ghost predicate Advanced(g: Grammar, w: Work, w': Work, f: Work)
    requires GrammarOk(g) && WorkOk(w, g)
  {
    && w.done < |w.order| && Bodied(g, w.order[w.done]) && w.done < |g.elements| && w'.done == w.done + 1
    && WorkOk(w', g) && Run(g, w') == f && w'.done <= |w'.order|
    && Bodies(g, w) == NextBody(g, w) + Bodies(g, w')
  }

  lemma AdvancedOk(g: Grammar, w: Work)
    requires GrammarOk(g) && WorkOk(w, g) && w.done < |w.order|
    ensures Bodied(g, w.order[w.done]) && Advanced(g, w, Feed(Take(w), NextBody(g, w)), Run(g, w))
  {
    hide Body, Feed;
    StepOk(g, w);
  }

  lemma ResolveMore(a: seq<Op>, b: seq<Op>, entries: seq<int>, out: seq<Byte>)
    ensures out + ResolveAll(a + b, entries) == (out + ResolveAll(a, entries)) + ResolveAll(b, entries)
  {
    assert ResolveAll(a + b, entries) == ResolveAll(a, entries) + ResolveAll(b, entries);
  }

  lemma ResolveSame(ops: seq<Op>, a: seq<int>, b: seq<int>)
    requires |a| == |b| && forall i :: 0 <= i < |ops| && ops[i].Ref? ==> ops[i].e < |a| && a[ops[i].e] == b[ops[i].e]
    ensures ResolveAll(ops, a) == ResolveAll(ops, b)
  {
  }

  lemma AllEntered(f: Work, g: Grammar)
    requires WorkOk(f, g) && f.done == |f.order|
    ensures forall e :: e in f.order ==> e in f.entry && e < |g.elements|
  {
  }

  lemma BodyKnown(g: Grammar, w: Work)
    requires GrammarOk(g) && WorkOk(w, g) && w.done < |w.order| && Bodied(g, w.order[w.done])
    ensures var b := NextBody(g, w); forall i :: 0 <= i < |b| && b[i].Ref? ==> b[i].e in Run(g, w).order
  {
    hide Body, Feed, WorkOk;
    var b := NextBody(g, w);
    EntryTakes(g, w);
    TakeOk(w, g);
    BodyRefs(g, w.order[w.done], w.n);
    FeedOk(Take(w), b, g);
    RunPrefix(g, Feed(Take(w), b));
  }

  /** Every element a body refers to has its final entry, so the body is written as in the finished program. */
  lemma BodyResolved(g: Grammar, w: Work, f: Work, entries: seq<int>)
    requires GrammarOk(g) && WorkOk(w, g) && w.done < |w.order| && Bodied(g, w.order[w.done])
    requires f == Run(g, w) && EntriesFit(entries, f) && |entries| == |g.elements|
    ensures ResolveAll(NextBody(g, w), entries) == ResolveAll(NextBody(g, w), EntriesOf(f, |g.elements|))
  {
    hide Body, Feed, ResolveAll, WorkOk, Run;
    var b := NextBody(g, w);
    BodyKnown(g, w);
    RunOk(g, w);
    AllEntered(f, g);
    forall i | 0 <= i < |b| && b[i].Ref? ensures b[i].e < |entries| && entries[b[i].e] == EntriesOf(f, |g.elements|)[b[i].e] {
      assert b[i].e in f.order;
    }
    ResolveSame(b, entries, EntriesOf(f, |g.elements|));
  }

  lemma BodiedIsElement(g: Grammar, e: nat)
    requires Bodied(g, e)
    ensures e < |g.elements|
  {
  }

  lemma NotQueued(rendered: seq<bool>, next: seq<int>, stale: seq<int>, w: Work, g: Grammar, e: nat)
    requires Matches(rendered, next, stale, w, g) && WorkOk(w, g) && e < |g.elements| && !rendered[e]
    ensures e !in w.order && w.done <= |w.order| && (w.done < |w.order| ==> Last(w.order) < |g.elements|)
  {
  }

  lemma WorkDone(w: Work, g: Grammar)
    requires WorkOk(w, g)
    ensures w.done <= |w.order|
  {
  }

  lemma EmittedCount(w0: Work, out0: seq<Byte>, w1: Work, out1: seq<Byte>, ops: seq<Op>, writing: bool, entries: seq<int>)
    requires Emits(w0, out0, w1, out1, ops, writing, entries)
    ensures w1.n == w0.n + |ops|
  {
  }

  lemma NoRefs(g: Grammar, e: nat, tag: int, m: nat)
    requires e < |g.elements| && tag < |g.elements|
    ensures forall i :: 0 <= i < |HeadOf(g, e, tag)| ==> !HeadOf(g, e, tag)[i].Ref?
    ensures forall i :: 0 <= i < |FootOf(g, e, tag, m)| ==> !FootOf(g, e, tag, m)[i].Ref?
  {
  }

  lemma NoRefsInFoot(g: Grammar, e: nat, n: nat)
    requires e < |g.elements|
    ensures forall i :: 0 <= i < |BodyFoot(g, e, n)| ==> !BodyFoot(g, e, n)[i].Ref?
  {
  }

  /** Links left over from before are none, or those that this pass will set. */
  ghost predicate LinksFit(stale: seq<int>, f: Work) {
    forall e: nat :: e < |stale| ==> stale[e] == NONE || (e in f.links && f.links[e] == stale[e])
  }

  /** The entries in memory are those of the work. */
  ghost predicate EntriesFit(entries: seq<int>, w: Work) {
    forall e :: e in w.entry ==> e < |entries| && entries[e] == w.entry[e]
  }

  ghost function EntriesOf(f: Work, size: nat): (r: seq<int>)
    ensures |r| == size
  {
    seq(size, e requires 0 <= e < size => if e in f.entry then f.entry[e] else 0)
  }

  /** The link of the first waiting element leads to the second, or is empty if there is none. */
  lemma LinkOfFirst(g: Grammar, w: Work, stale: seq<int>)
    requires GrammarOk(g) && WorkOk(w, g) && w.done < |w.order| && |stale| == |g.elements|
    requires LinksFit(stale, Run(g, w))
    ensures var e := w.order[w.done];
      && e < |stale|
      && if w.done + 1 < |w.order| then e in w.links && w.links[e] == w.order[w.done + 1]
         else e !in w.links && stale[e] == NONE
  {
    hide Body, Feed, Bodied, Within;
    StepOk(g, w);
    BodiedIsElement(g, w.order[w.done]);
    RunOk(g, Feed(Take(w), Body(g, w.order[w.done], w.n)));
    assert Take(w).order[..w.done + 1][w.done] == w.order[w.done];
  }

  lemma FirstIsTaken(g: Grammar, rendered: seq<bool>, next: seq<int>, stale: seq<int>, w: Work)
    requires GrammarOk(g) && WorkOk(w, g) && w.done < |w.order| && Matches(rendered, next, stale, w, g)
    requires LinksFit(stale, Run(g, w))
    ensures var e := w.order[w.done];
      && Bodied(g, e) && e < |next| && next[e] == (if w.done + 1 < |w.order| then w.order[w.done + 1] else NONE)
      && WorkOk(Take(w), g) && Matches(rendered, next, stale, Take(w), g)
  {
    hide Run, LinksFit, Bodied, Unique;
    LinkOfFirst(g, w, stale);
    TakeOk(w, g);
  }

  lemma EntriesAfterTake(entries: seq<int>, w: Work, f: Work)
    requires w.done < |w.order| && EntriesFit(entries, w) && w.order[w.done] < |entries|
    requires w.order[w.done] in f.entry && f.entry[w.order[w.done]] == w.n
    ensures EntriesFit(entries[w.order[w.done] := w.n], Take(w))
    ensures EntriesFit(entries, f) ==> EntriesFit(entries[w.order[w.done] := w.n], f)
  {
  }
}
