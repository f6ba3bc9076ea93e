/** The code generated for any expression keeps the stack balanced: walked
    by the checker of module StackCheck from any state in which the labels
    it numbers are fresh, it succeeds, ends at the depth it started at, and
    defines every one of its labels that it uses. */
module ExprWalk {
  import opened Wrappers
  import opened Ast
  import opened Asm
  import opened StackCheck
  import opened CodegenExpr

  function After(w: Walker, code: seq<Instr>): Walker
    requires Walk(w, code).Some?
  {
    Walk(w, code).value
  }

  function Pushed(w: Walker): Walker {
    w.(depth := Lower(w.depth, 4))
  }

  /** Code that leaves the depth where it was, learns only about the labels
      `[c, g.next)`, and records no jump when walked as dead code. */
  ghost predicate ExprWalks(w: Walker, g: Gen, c: nat) {
    && Walk(w, g.code).Some?
    && After(w, g.code).depth == w.depth
    && Grows(w, After(w, g.code), c, g.next, {})
    && (w.depth.Dead? ==> After(w, g.code).at == w.at)
  }

  /** Code whose walk from `w` ends at depth `Live(d)` or in dead code (in
      dead code, with nothing recorded, whenever it started there), and
      learns only about the labels `[lo, hi)` and those in `extra`. */
  ghost predicate Within(w: Walker, code: seq<Instr>, lo: nat, hi: nat, d: int, extra: set<CtlLabel>) {
    && Walk(w, code).Some?
    && (After(w, code).depth == Live(d) || After(w, code).depth.Dead?)
    && (w.depth.Dead? ==> After(w, code).depth.Dead? && After(w, code).at == w.at)
    && Grows(w, After(w, code), lo, hi, extra)
  }

  predicate PlainSeq(code: seq<Instr>) {
    forall k :: 0 <= k < |code| ==> Plain(code[k])
  }

  predicate PlainTail(t: Tail) {
    PlainSeq(t.pre) && PlainSeq(t.post)
  }

  lemma PlainWalks(w: Walker, code: seq<Instr>, c: nat)
    requires PlainSeq(code)
    ensures ExprWalks(w, Gen(code, c), c)
  {
    WalkPlain(w, code);
  }

  lemma SeqWalks(w: Walker, a: Gen, b: Gen, c: nat)
    requires ExprWalks(w, a, c) && ExprWalks(After(w, a.code), b, a.next)
    ensures ExprWalks(w, Gen(a.code + b.code, b.next), c)
  {
    WalkAppend(w, a.code, b.code);
    GrowsTrans(w, After(w, a.code), After(After(w, a.code), b.code), c, a.next, b.next, {});
  }

  /** A template tail pops exactly one word and touches nothing else. */
  lemma TailWalk(w: Walker, t: Tail)
    requires PlainTail(t)
    ensures Walk(w, TailCode(t)) == Some(w.(depth := Lower(w.depth, -4)))
  {
    var w1 := w.(depth := Lower(w.depth, -4));
    WalkPlain(w, t.pre);
    WalkOne(w, Pop(t.dst));
    Chain(w, t.pre, w, [Pop(t.dst)], w1);
    WalkPlain(w1, t.post);
    Chain(w, t.pre + [Pop(t.dst)], w1, t.post, w1);
  }

  /** A further operand of a binary level: its push and the tail's pop
      cancel out. */
  lemma OperandWalks(w: Walker, x: Gen, t: Tail, c: nat)
    requires ExprWalks(Pushed(w), x, c) && PlainTail(t)
    ensures ExprWalks(w, Gen(Operand(x.code, t), x.next), c)
  {
    var w1 := Pushed(w);
    var w2 := After(w1, x.code);
    var w3 := w2.(depth := w.depth);
    WalkOne(w, Push(Eax));
    Chain(w, [Push(Eax)], w1, x.code, w2);
    TailWalk(w2, t);
    Chain(w, [Push(Eax)] + x.code, w2, TailCode(t), w3);
  }

  /** The templates of the comparison and arithmetic levels are plain. */
  lemma EqTailPlain(op: EqOp)
    ensures PlainTail(EqTail(op))
  {
  }

  lemma RelTailPlain(op: RelOp)
    ensures PlainTail(RelTail(op))
  {
  }

  lemma ShiftTailPlain(op: ShiftOp)
    ensures PlainTail(ShiftTail(op))
  {
  }

  lemma AddTailPlain(op: AddOp)
    ensures PlainTail(AddTail(op))
  {
  }

  lemma MulTailPlain(op: MulOp)
    ensures PlainTail(MulTail(op))
  {
  }

  /** The state after `cmpl $0, %eax; je _e<id>`. */
  function Open(w: Walker, id: nat): Walker {
    var l := CtlLabel(Else, id);
    w.(used := w.used + {l}, at := if w.depth.Live? then w.at[l := w.depth.bytes] else w.at)
  }

  /** The state after `jmp _end<id>; _e<id>:`, from the end of the first
      branch. */
  function Mid(w: Walker, id: nat): Walker {
    var el := CtlLabel(Else, id);
    var en := CtlLabel(End, id);
    var at1 := if w.depth.Live? then w.at[en := w.depth.bytes] else w.at;
    Walker(if el in at1 then Live(at1[el]) else Dead, at1, w.defined + {el}, w.used + {en})
  }

  lemma OpenWalk(w: Walker, id: nat)
    requires FreshIn(w, id, id + 1)
    ensures Walk(w, [CmpZero, Je(CtlLabel(Else, id))]) == Some(Open(w, id))
  {
    Walk2(w, CmpZero, Je(CtlLabel(Else, id)));
  }

  lemma MidWalk(w: Walker, id: nat)
    requires CtlLabel(End, id) !in w.at && CtlLabel(End, id) !in w.defined && CtlLabel(Else, id) !in w.defined
    ensures Walk(w, [Jmp(CtlLabel(End, id), Indented), Label(CtlLabel(Else, id))]) == Some(Mid(w, id))
  {
    Walk2(w, Jmp(CtlLabel(End, id), Indented), Label(CtlLabel(Else, id)));
  }

  /** The state at the end of the first branch, and at the end of the
      second. */
  function ThenEnd(w: Walker, id: nat, a: seq<Instr>): Walker
    requires Walk(Open(w, id), a).Some?
  {
    After(Open(w, id), a)
  }

  function ElseEnd(w: Walker, id: nat, a: seq<Instr>, b: seq<Instr>): Walker
    requires Walk(Open(w, id), a).Some? && Walk(Mid(ThenEnd(w, id, a), id), b).Some?
  {
    After(Mid(ThenEnd(w, id, a), id), b)
  }

  /** The checker's view of each piece of a branch. */
  lemma BranchPieces(w: Walker, id: nat, a: seq<Instr>, b: seq<Instr>)
    requires Walk(Open(w, id), a).Some? && Walk(Mid(ThenEnd(w, id, a), id), b).Some?
    requires FreshIn(w, id, id + 1)
    requires CtlLabel(End, id) !in ThenEnd(w, id, a).at && CtlLabel(End, id) !in ThenEnd(w, id, a).defined
    requires CtlLabel(Else, id) !in ThenEnd(w, id, a).defined
    ensures Walk(w, Branch(id, a, b)) == Step(ElseEnd(w, id, a, b), Label(CtlLabel(End, id)))
  {
    var el := CtlLabel(Else, id);
    var en := CtlLabel(End, id);
    var w1 := Open(w, id);
    var wa := ThenEnd(w, id, a);
    var w2 := Mid(wa, id);
    var wb := ElseEnd(w, id, a, b);
    var p1 := [CmpZero, Je(el)];
    var p2 := p1 + a;
    var p3 := p2 + [Jmp(en, Indented), Label(el)];
    var p4 := p3 + b;
    OpenWalk(w, id);
    Chain(w, p1, w1, a, wa);
    MidWalk(wa, id);
    Chain(w, p2, wa, [Jmp(en, Indented), Label(el)], w2);
    Chain(w, p3, w2, b, wb);
    WalkOne(wb, Label(en));
    WalkAppend(w, p4, [Label(en)]);
    assert Branch(id, a, b) == p4 + [Label(en)];
  }

  /** The two-way branch of `if` and `?:`: if each branch ends at depth
      `Live(d)` or in dead code, so does the whole, which defines its two
      labels once; if both branches keep the depth, the whole keeps it. */
  lemma BranchWalk(w: Walker, id: nat, a: Gen, b: Gen, d: int, extra: set<CtlLabel>)
    requires FreshIn(w, id, id + 1) && (forall l :: l in extra ==> l.id < id)
    requires w.depth == Live(d) || w.depth.Dead?
    requires Within(Open(w, id), a.code, id + 1, a.next, d, extra)
    requires Within(Mid(ThenEnd(w, id, a.code), id), b.code, a.next, b.next, d, extra)
    ensures Within(w, Branch(id, a.code, b.code), id, b.next, d, extra)
    ensures ThenEnd(w, id, a.code).depth == w.depth && ElseEnd(w, id, a.code, b.code).depth == w.depth
            ==> After(w, Branch(id, a.code, b.code)).depth == w.depth
  {
    var el := CtlLabel(Else, id);
    var en := CtlLabel(End, id);
    var w1 := Open(w, id);
    var wa := ThenEnd(w, id, a.code);
    var w2 := Mid(wa, id);
    assert el in w2.at <==> w.depth.Live?;
    assert w2.depth == w.depth;
    var wb := ElseEnd(w, id, a.code, b.code);
    assert en in wb.at <==> wa.depth.Live?;
    assert en in wb.at ==> wb.at[en] == d;
    BranchPieces(w, id, a.code, b.code);
    var w3 := Step(wb, Label(en)).value;
    assert Learns(w, w1, id, id + 1, extra);
    assert Learns(wa, w2, id, id + 1, extra);
    assert Learns(wb, w3, id, id + 1, extra);
    assert Complete(w3, id, id + 1);
    GrowsFive(w, w1, wa, w2, wb, w3, id, a.next, b.next, extra);
  }

  /** The growth of a branch, from that of its five pieces: the test, the
      first branch, the jump over the second, the second branch and the
      closing label. */
  lemma GrowsFive(w: Walker, w1: Walker, wa: Walker, w2: Walker, wb: Walker, w3: Walker,
                  id: nat, an: nat, bn: nat, extra: set<CtlLabel>)
    requires Learns(w, w1, id, id + 1, extra) && Grows(w1, wa, id + 1, an, extra)
    requires Learns(wa, w2, id, id + 1, extra) && Grows(w2, wb, an, bn, extra)
    requires Learns(wb, w3, id, id + 1, extra) && Complete(w3, id, id + 1)
    requires forall l :: l in extra ==> l.id < id
    ensures Grows(w, w3, id, bn, extra)
  {
    LearnsWiden(w, w1, id, id + 1, extra, id, bn, extra);
    LearnsWiden(w1, wa, id + 1, an, extra, id, bn, extra);
    LearnsWiden(wa, w2, id, id + 1, extra, id, bn, extra);
    LearnsWiden(w2, wb, an, bn, extra, id, bn, extra);
    LearnsWiden(wb, w3, id, id + 1, extra, id, bn, extra);
    LearnsTrans(w, w1, wa, id, bn, extra);
    LearnsTrans(w, wa, w2, id, bn, extra);
    LearnsTrans(w, w2, wb, id, bn, extra);
    LearnsTrans(w, wb, w3, id, bn, extra);
  }

  /** Expression code read as a piece of a statement: it ends where it
      began, so at `Live(d)` or in dead code. */
  lemma ExprWithin(w: Walker, g: Gen, c: nat, d: int, extra: set<CtlLabel>)
    requires ExprWalks(w, g, c) && (w.depth == Live(d) || w.depth.Dead?)
    ensures Within(w, g.code, c, g.next, d, extra)
  {
  }

  lemma CommaWalks(e: Comma, locals: Locals, reg: Registry, c: nat, w: Walker)
    requires GenComma(e, locals, reg, c).Ok? && FreshIn(w, c, GenComma(e, locals, reg, c).value.next)
    ensures ExprWalks(w, GenComma(e, locals, reg, c).value, c)
    decreases e, 1
  {
    if e.CommaList? {
      CommaFromWalks(e, 0, locals, reg, c, w);
    }
  }

  lemma CommaFromWalks(e: Comma, i: nat, locals: Locals, reg: Registry, c: nat, w: Walker)
    requires e.CommaList? && i <= |e.items|
    requires GenCommaFrom(e, i, locals, reg, c).Ok? && FreshIn(w, c, GenCommaFrom(e, i, locals, reg, c).value.next)
    ensures ExprWalks(w, GenCommaFrom(e, i, locals, reg, c).value, c)
    decreases e, 0, |e.items| - i
  {
    if i < |e.items| {
      var x := GenAssignment(e.items[i], locals, reg, c).value;
      var rest := GenCommaFrom(e, i + 1, locals, reg, x.next).value;
      assert FreshIn(w, c, x.next);
      AssignmentWalks(e.items[i], locals, reg, c, w);
      FreshRest(w, After(w, x.code), c, x.next, rest.next, {});
      CommaFromWalks(e, i + 1, locals, reg, x.next, After(w, x.code));
      SeqWalks(w, x, rest, c);
      assert GenCommaFrom(e, i, locals, reg, c) == Ok(Gen(x.code + rest.code, rest.next));
    }
  }

  lemma AssignmentWalks(e: Assignment, locals: Locals, reg: Registry, c: nat, w: Walker)
    requires GenAssignment(e, locals, reg, c).Ok? && FreshIn(w, c, GenAssignment(e, locals, reg, c).value.next)
    ensures ExprWalks(w, GenAssignment(e, locals, reg, c).value, c)
    decreases e, 1
  {
    match e
    case AssignCond(cond) =>
      ConditionalWalks(cond, locals, reg, c, w);
    case Assign(x, op, value) =>
      var v := GenAssignment(value, locals, reg, c).value;
      AssignmentWalks(value, locals, reg, c, w);
      StoreWalks(w, v, op, locals[x], c);
      assert GenAssignment(e, locals, reg, c) == Ok(Gen(v.code + AssignOpCode(op, locals[x]) + [Movl(R(Eax), Slot(locals[x]))], v.next));
  }

  /** The store of an assignment is plain. */
  lemma StorePlain(op: AssignOp, off: int)
    ensures PlainSeq(AssignOpCode(op, off) + [Movl(R(Eax), Slot(off))])
  {
  }

  /** An assignment's value followed by its store. */
  lemma StoreWalks(w: Walker, v: Gen, op: AssignOp, off: int, c: nat)
    requires ExprWalks(w, v, c)
    ensures ExprWalks(w, Gen(v.code + AssignOpCode(op, off) + [Movl(R(Eax), Slot(off))], v.next), c)
  {
    var store := AssignOpCode(op, off) + [Movl(R(Eax), Slot(off))];
    StorePlain(op, off);
    PlainWalks(After(w, v.code), store, v.next);
    SeqWalks(w, v, Gen(store, v.next), c);
    assert v.code + AssignOpCode(op, off) + [Movl(R(Eax), Slot(off))] == v.code + store;
  }

  lemma ConditionalWalks(e: Conditional, locals: Locals, reg: Registry, c: nat, w: Walker)
    requires GenConditional(e, locals, reg, c).Ok? && FreshIn(w, c, GenConditional(e, locals, reg, c).value.next)
    ensures ExprWalks(w, GenConditional(e, locals, reg, c).value, c)
    decreases e, 1
  {
    match e
    case CondOr(or) =>
      LogicOrWalks(or, locals, reg, c, w);
    case Ternary(test, ifTrue, ifFalse) =>
      var t := GenLogicOr(test, locals, reg, c).value;
      var a := GenComma(ifTrue, locals, reg, t.next + 1).value;
      var b := GenConditional(ifFalse, locals, reg, a.next).value;
      LogicOrWalks(test, locals, reg, c, w);
      FreshRest(w, After(w, t.code), c, t.next, b.next, {});
      TernaryWalks(e, locals, reg, t.next, After(w, t.code));
      SeqWalks(w, t, Gen(Branch(t.next, a.code, b.code), b.next), c);
      assert GenConditional(e, locals, reg, c) == Ok(Gen(t.code + Branch(t.next, a.code, b.code), b.next));
  }

  /** The branch part of a ternary, with construct id `id`. */
  lemma TernaryWalks(e: Conditional, locals: Locals, reg: Registry, id: nat, w: Walker)
    requires e.Ternary?
    requires GenComma(e.ifTrue, locals, reg, id + 1).Ok?
    requires GenConditional(e.ifFalse, locals, reg, GenComma(e.ifTrue, locals, reg, id + 1).value.next).Ok?
    requires FreshIn(w, id, GenConditional(e.ifFalse, locals, reg, GenComma(e.ifTrue, locals, reg, id + 1).value.next).value.next)
    ensures var a := GenComma(e.ifTrue, locals, reg, id + 1).value;
            var b := GenConditional(e.ifFalse, locals, reg, a.next).value;
            ExprWalks(w, Gen(Branch(id, a.code, b.code), b.next), id)
    decreases e, 0
  {
    var a := GenComma(e.ifTrue, locals, reg, id + 1).value;
    var b := GenConditional(e.ifFalse, locals, reg, a.next).value;
    OpenFresh(w, id, b.next);
    CommaWalks(e.ifTrue, locals, reg, id + 1, Open(w, id));
    MidFresh(w, id, a, b.next);
    ConditionalWalks(e.ifFalse, locals, reg, a.next, Mid(ThenEnd(w, id, a.code), id));
    BranchKeeps(w, id, a, b);
  }

  /** The state after `je _e<id>` keeps the depth and the later range fresh. */
  lemma OpenFresh(w: Walker, id: nat, hi: nat)
    requires FreshIn(w, id, hi) && id < hi
    ensures FreshIn(w, id, id + 1) && FreshIn(Open(w, id), id + 1, hi) && Open(w, id).depth == w.depth
  {
  }

  /** The state between the branches, after a first branch that keeps the
      depth. */
  lemma MidFresh(w: Walker, id: nat, a: Gen, hi: nat)
    requires FreshIn(w, id, hi) && id < a.next <= hi && ExprWalks(Open(w, id), a, id + 1)
    ensures FreshIn(Mid(ThenEnd(w, id, a.code), id), a.next, hi) && Mid(ThenEnd(w, id, a.code), id).depth == w.depth
  {
    OpenFresh(w, id, hi);
    FreshRest(Open(w, id), ThenEnd(w, id, a.code), id + 1, a.next, hi, {});
  }

  /** A branch whose two arms keep the depth keeps it too. */
  lemma BranchKeeps(w: Walker, id: nat, a: Gen, b: Gen)
    requires FreshIn(w, id, id + 1) && ExprWalks(Open(w, id), a, id + 1)
    requires Mid(ThenEnd(w, id, a.code), id).depth == w.depth
    requires ExprWalks(Mid(ThenEnd(w, id, a.code), id), b, a.next)
    ensures ExprWalks(w, Gen(Branch(id, a.code, b.code), b.next), id)
  {
    var d := if w.depth.Live? then w.depth.bytes else 0;
    ExprWithin(Open(w, id), a, id + 1, d, {});
    ExprWithin(Mid(ThenEnd(w, id, a.code), id), b, a.next, d, {});
    BranchWalk(w, id, a, b, d, {});
  }
  lemma LogicOrWalks(e: LogicOr, locals: Locals, reg: Registry, c: nat, w: Walker)
    requires GenLogicOr(e, locals, reg, c).Ok? && FreshIn(w, c, GenLogicOr(e, locals, reg, c).value.next)
    ensures ExprWalks(w, GenLogicOr(e, locals, reg, c).value, c)
    decreases e, 1
  {
    var first := GenLogicAnd(e.first, locals, reg, c).value;
    var rest := GenLogicOrRest(e, 0, locals, reg, first.next).value;
    LogicAndWalks(e.first, locals, reg, c, w);
    FreshRest(w, After(w, first.code), c, first.next, rest.next, {});
    LogicOrRestWalks(e, 0, locals, reg, first.next, After(w, first.code));
    SeqWalks(w, first, rest, c);
    assert GenLogicOr(e, locals, reg, c) == Ok(Gen(first.code + rest.code, rest.next));
  }

  lemma LogicOrRestWalks(e: LogicOr, i: nat, locals: Locals, reg: Registry, c: nat, w: Walker)
    requires i <= |e.rest| && GenLogicOrRest(e, i, locals, reg, c).Ok?
    requires FreshIn(w, c, GenLogicOrRest(e, i, locals, reg, c).value.next)
    ensures ExprWalks(w, GenLogicOrRest(e, i, locals, reg, c).value, c)
    decreases e, 0, |e.rest| - i
  {
    if i < |e.rest| {
      var x := GenLogicAnd(e.rest[i], locals, reg, c).value;
      var rest := GenLogicOrRest(e, i + 1, locals, reg, x.next).value;
      LogicAndWalks(e.rest[i], locals, reg, c, Pushed(w));
      var op := Gen(Operand(x.code, OrTail), x.next);
      OperandWalks(w, x, OrTail, c);
      FreshRest(w, After(w, op.code), c, x.next, rest.next, {});
      LogicOrRestWalks(e, i + 1, locals, reg, x.next, After(w, op.code));
      SeqWalks(w, op, rest, c);
      assert GenLogicOrRest(e, i, locals, reg, c) == Ok(Gen(op.code + rest.code, rest.next));
    }
  }

  lemma LogicAndWalks(e: LogicAnd, locals: Locals, reg: Registry, c: nat, w: Walker)
    requires GenLogicAnd(e, locals, reg, c).Ok? && FreshIn(w, c, GenLogicAnd(e, locals, reg, c).value.next)
    ensures ExprWalks(w, GenLogicAnd(e, locals, reg, c).value, c)
    decreases e, 1
  {
    var first := GenBitOr(e.first, locals, reg, c).value;
    var rest := GenLogicAndRest(e, 0, locals, reg, first.next).value;
    BitOrWalks(e.first, locals, reg, c, w);
    FreshRest(w, After(w, first.code), c, first.next, rest.next, {});
    LogicAndRestWalks(e, 0, locals, reg, first.next, After(w, first.code));
    SeqWalks(w, first, rest, c);
    assert GenLogicAnd(e, locals, reg, c) == Ok(Gen(first.code + rest.code, rest.next));
  }

  lemma LogicAndRestWalks(e: LogicAnd, i: nat, locals: Locals, reg: Registry, c: nat, w: Walker)
    requires i <= |e.rest| && GenLogicAndRest(e, i, locals, reg, c).Ok?
    requires FreshIn(w, c, GenLogicAndRest(e, i, locals, reg, c).value.next)
    ensures ExprWalks(w, GenLogicAndRest(e, i, locals, reg, c).value, c)
    decreases e, 0, |e.rest| - i
  {
    if i < |e.rest| {
      var x := GenBitOr(e.rest[i], locals, reg, c).value;
      var rest := GenLogicAndRest(e, i + 1, locals, reg, x.next).value;
      BitOrWalks(e.rest[i], locals, reg, c, Pushed(w));
      var op := Gen(Operand(x.code, AndTail), x.next);
      OperandWalks(w, x, AndTail, c);
      FreshRest(w, After(w, op.code), c, x.next, rest.next, {});
      LogicAndRestWalks(e, i + 1, locals, reg, x.next, After(w, op.code));
      SeqWalks(w, op, rest, c);
      assert GenLogicAndRest(e, i, locals, reg, c) == Ok(Gen(op.code + rest.code, rest.next));
    }
  }

  lemma BitOrWalks(e: BitOr, locals: Locals, reg: Registry, c: nat, w: Walker)
    requires GenBitOr(e, locals, reg, c).Ok? && FreshIn(w, c, GenBitOr(e, locals, reg, c).value.next)
    ensures ExprWalks(w, GenBitOr(e, locals, reg, c).value, c)
    decreases e, 1
  {
    var first := GenBitXor(e.first, locals, reg, c).value;
    var rest := GenBitOrRest(e, 0, locals, reg, first.next).value;
    BitXorWalks(e.first, locals, reg, c, w);
    FreshRest(w, After(w, first.code), c, first.next, rest.next, {});
    BitOrRestWalks(e, 0, locals, reg, first.next, After(w, first.code));
    SeqWalks(w, first, rest, c);
    assert GenBitOr(e, locals, reg, c) == Ok(Gen(first.code + rest.code, rest.next));
  }

  lemma BitOrRestWalks(e: BitOr, i: nat, locals: Locals, reg: Registry, c: nat, w: Walker)
    requires i <= |e.rest| && GenBitOrRest(e, i, locals, reg, c).Ok?
    requires FreshIn(w, c, GenBitOrRest(e, i, locals, reg, c).value.next)
    ensures ExprWalks(w, GenBitOrRest(e, i, locals, reg, c).value, c)
    decreases e, 0, |e.rest| - i
  {
    if i < |e.rest| {
      var x := GenBitXor(e.rest[i], locals, reg, c).value;
      var rest := GenBitOrRest(e, i + 1, locals, reg, x.next).value;
      BitXorWalks(e.rest[i], locals, reg, c, Pushed(w));
      var op := Gen(Operand(x.code, BitOrTail), x.next);
      OperandWalks(w, x, BitOrTail, c);
      FreshRest(w, After(w, op.code), c, x.next, rest.next, {});
      BitOrRestWalks(e, i + 1, locals, reg, x.next, After(w, op.code));
      SeqWalks(w, op, rest, c);
      assert GenBitOrRest(e, i, locals, reg, c) == Ok(Gen(op.code + rest.code, rest.next));
    }
  }

  lemma BitXorWalks(e: BitXor, locals: Locals, reg: Registry, c: nat, w: Walker)
    requires GenBitXor(e, locals, reg, c).Ok? && FreshIn(w, c, GenBitXor(e, locals, reg, c).value.next)
    ensures ExprWalks(w, GenBitXor(e, locals, reg, c).value, c)
    decreases e, 1
  {
    var first := GenBitAnd(e.first, locals, reg, c).value;
    var rest := GenBitXorRest(e, 0, locals, reg, first.next).value;
    BitAndWalks(e.first, locals, reg, c, w);
    FreshRest(w, After(w, first.code), c, first.next, rest.next, {});
    BitXorRestWalks(e, 0, locals, reg, first.next, After(w, first.code));
    SeqWalks(w, first, rest, c);
    assert GenBitXor(e, locals, reg, c) == Ok(Gen(first.code + rest.code, rest.next));
  }

  lemma BitXorRestWalks(e: BitXor, i: nat, locals: Locals, reg: Registry, c: nat, w: Walker)
    requires i <= |e.rest| && GenBitXorRest(e, i, locals, reg, c).Ok?
    requires FreshIn(w, c, GenBitXorRest(e, i, locals, reg, c).value.next)
    ensures ExprWalks(w, GenBitXorRest(e, i, locals, reg, c).value, c)
    decreases e, 0, |e.rest| - i
  {
    if i < |e.rest| {
      var x := GenBitAnd(e.rest[i], locals, reg, c).value;
      var rest := GenBitXorRest(e, i + 1, locals, reg, x.next).value;
      BitAndWalks(e.rest[i], locals, reg, c, Pushed(w));
      var op := Gen(Operand(x.code, XorTail), x.next);
      OperandWalks(w, x, XorTail, c);
      FreshRest(w, After(w, op.code), c, x.next, rest.next, {});
      BitXorRestWalks(e, i + 1, locals, reg, x.next, After(w, op.code));
      SeqWalks(w, op, rest, c);
      assert GenBitXorRest(e, i, locals, reg, c) == Ok(Gen(op.code + rest.code, rest.next));
    }
  }

  lemma BitAndWalks(e: BitAnd, locals: Locals, reg: Registry, c: nat, w: Walker)
    requires GenBitAnd(e, locals, reg, c).Ok? && FreshIn(w, c, GenBitAnd(e, locals, reg, c).value.next)
    ensures ExprWalks(w, GenBitAnd(e, locals, reg, c).value, c)
    decreases e, 1
  {
    var first := GenEquality(e.first, locals, reg, c).value;
    var rest := GenBitAndRest(e, 0, locals, reg, first.next).value;
    EqualityWalks(e.first, locals, reg, c, w);
    FreshRest(w, After(w, first.code), c, first.next, rest.next, {});
    BitAndRestWalks(e, 0, locals, reg, first.next, After(w, first.code));
    SeqWalks(w, first, rest, c);
    assert GenBitAnd(e, locals, reg, c) == Ok(Gen(first.code + rest.code, rest.next));
  }

  lemma BitAndRestWalks(e: BitAnd, i: nat, locals: Locals, reg: Registry, c: nat, w: Walker)
    requires i <= |e.rest| && GenBitAndRest(e, i, locals, reg, c).Ok?
    requires FreshIn(w, c, GenBitAndRest(e, i, locals, reg, c).value.next)
    ensures ExprWalks(w, GenBitAndRest(e, i, locals, reg, c).value, c)
    decreases e, 0, |e.rest| - i
  {
    if i < |e.rest| {
      var x := GenEquality(e.rest[i], locals, reg, c).value;
      var rest := GenBitAndRest(e, i + 1, locals, reg, x.next).value;
      EqualityWalks(e.rest[i], locals, reg, c, Pushed(w));
      var op := Gen(Operand(x.code, BitAndTail), x.next);
      OperandWalks(w, x, BitAndTail, c);
      FreshRest(w, After(w, op.code), c, x.next, rest.next, {});
      BitAndRestWalks(e, i + 1, locals, reg, x.next, After(w, op.code));
      SeqWalks(w, op, rest, c);
      assert GenBitAndRest(e, i, locals, reg, c) == Ok(Gen(op.code + rest.code, rest.next));
    }
  }

  lemma EqualityWalks(e: Equality, locals: Locals, reg: Registry, c: nat, w: Walker)
    requires GenEquality(e, locals, reg, c).Ok? && FreshIn(w, c, GenEquality(e, locals, reg, c).value.next)
    ensures ExprWalks(w, GenEquality(e, locals, reg, c).value, c)
    decreases e, 1
  {
    var first := GenRelational(e.first, locals, reg, c).value;
    var rest := GenEqualityRest(e, 0, locals, reg, first.next).value;
    RelationalWalks(e.first, locals, reg, c, w);
    FreshRest(w, After(w, first.code), c, first.next, rest.next, {});
    EqualityRestWalks(e, 0, locals, reg, first.next, After(w, first.code));
    SeqWalks(w, first, rest, c);
    assert GenEquality(e, locals, reg, c) == Ok(Gen(first.code + rest.code, rest.next));
  }

  lemma EqualityRestWalks(e: Equality, i: nat, locals: Locals, reg: Registry, c: nat, w: Walker)
    requires i <= |e.rest| && GenEqualityRest(e, i, locals, reg, c).Ok?
    requires FreshIn(w, c, GenEqualityRest(e, i, locals, reg, c).value.next)
    ensures ExprWalks(w, GenEqualityRest(e, i, locals, reg, c).value, c)
    decreases e, 0, |e.rest| - i
  {
    if i < |e.rest| {
      var x := GenRelational(e.rest[i].1, locals, reg, c).value;
      var rest := GenEqualityRest(e, i + 1, locals, reg, x.next).value;
      RelationalWalks(e.rest[i].1, locals, reg, c, Pushed(w));
      var op := Gen(Operand(x.code, EqTail(e.rest[i].0)), x.next);
      EqTailPlain(e.rest[i].0);
      OperandWalks(w, x, EqTail(e.rest[i].0), c);
      FreshRest(w, After(w, op.code), c, x.next, rest.next, {});
      EqualityRestWalks(e, i + 1, locals, reg, x.next, After(w, op.code));
      SeqWalks(w, op, rest, c);
      assert GenEqualityRest(e, i, locals, reg, c) == Ok(Gen(op.code + rest.code, rest.next));
    }
  }

  lemma RelationalWalks(e: Relational, locals: Locals, reg: Registry, c: nat, w: Walker)
    requires GenRelational(e, locals, reg, c).Ok? && FreshIn(w, c, GenRelational(e, locals, reg, c).value.next)
    ensures ExprWalks(w, GenRelational(e, locals, reg, c).value, c)
    decreases e, 1
  {
    var first := GenShift(e.first, locals, reg, c).value;
    var rest := GenRelationalRest(e, 0, locals, reg, first.next).value;
    ShiftWalks(e.first, locals, reg, c, w);
    FreshRest(w, After(w, first.code), c, first.next, rest.next, {});
    RelationalRestWalks(e, 0, locals, reg, first.next, After(w, first.code));
    SeqWalks(w, first, rest, c);
    assert GenRelational(e, locals, reg, c) == Ok(Gen(first.code + rest.code, rest.next));
  }

  lemma RelationalRestWalks(e: Relational, i: nat, locals: Locals, reg: Registry, c: nat, w: Walker)
    requires i <= |e.rest| && GenRelationalRest(e, i, locals, reg, c).Ok?
    requires FreshIn(w, c, GenRelationalRest(e, i, locals, reg, c).value.next)
    ensures ExprWalks(w, GenRelationalRest(e, i, locals, reg, c).value, c)
    decreases e, 0, |e.rest| - i
  {
    if i < |e.rest| {
      var x := GenShift(e.rest[i].1, locals, reg, c).value;
      var rest := GenRelationalRest(e, i + 1, locals, reg, x.next).value;
      ShiftWalks(e.rest[i].1, locals, reg, c, Pushed(w));
      var op := Gen(Operand(x.code, RelTail(e.rest[i].0)), x.next);
      RelTailPlain(e.rest[i].0);
      OperandWalks(w, x, RelTail(e.rest[i].0), c);
      FreshRest(w, After(w, op.code), c, x.next, rest.next, {});
      RelationalRestWalks(e, i + 1, locals, reg, x.next, After(w, op.code));
      SeqWalks(w, op, rest, c);
      assert GenRelationalRest(e, i, locals, reg, c) == Ok(Gen(op.code + rest.code, rest.next));
    }
  }

  lemma ShiftWalks(e: Shift, locals: Locals, reg: Registry, c: nat, w: Walker)
    requires GenShift(e, locals, reg, c).Ok? && FreshIn(w, c, GenShift(e, locals, reg, c).value.next)
    ensures ExprWalks(w, GenShift(e, locals, reg, c).value, c)
    decreases e, 1
  {
    var first := GenAdditive(e.first, locals, reg, c).value;
    var rest := GenShiftRest(e, 0, locals, reg, first.next).value;
    AdditiveWalks(e.first, locals, reg, c, w);
    FreshRest(w, After(w, first.code), c, first.next, rest.next, {});
    ShiftRestWalks(e, 0, locals, reg, first.next, After(w, first.code));
    SeqWalks(w, first, rest, c);
    assert GenShift(e, locals, reg, c) == Ok(Gen(first.code + rest.code, rest.next));
  }

  lemma ShiftRestWalks(e: Shift, i: nat, locals: Locals, reg: Registry, c: nat, w: Walker)
    requires i <= |e.rest| && GenShiftRest(e, i, locals, reg, c).Ok?
    requires FreshIn(w, c, GenShiftRest(e, i, locals, reg, c).value.next)
    ensures ExprWalks(w, GenShiftRest(e, i, locals, reg, c).value, c)
    decreases e, 0, |e.rest| - i
  {
    if i < |e.rest| {
      var x := GenAdditive(e.rest[i].1, locals, reg, c).value;
      var rest := GenShiftRest(e, i + 1, locals, reg, x.next).value;
      AdditiveWalks(e.rest[i].1, locals, reg, c, Pushed(w));
      var op := Gen(Operand(x.code, ShiftTail(e.rest[i].0)), x.next);
      ShiftTailPlain(e.rest[i].0);
      OperandWalks(w, x, ShiftTail(e.rest[i].0), c);
      FreshRest(w, After(w, op.code), c, x.next, rest.next, {});
      ShiftRestWalks(e, i + 1, locals, reg, x.next, After(w, op.code));
      SeqWalks(w, op, rest, c);
      assert GenShiftRest(e, i, locals, reg, c) == Ok(Gen(op.code + rest.code, rest.next));
    }
  }

  lemma AdditiveWalks(e: Additive, locals: Locals, reg: Registry, c: nat, w: Walker)
    requires GenAdditive(e, locals, reg, c).Ok? && FreshIn(w, c, GenAdditive(e, locals, reg, c).value.next)
    ensures ExprWalks(w, GenAdditive(e, locals, reg, c).value, c)
    decreases e, 1
  {
    var first := GenMult(e.first, locals, reg, c).value;
    var rest := GenAdditiveRest(e, 0, locals, reg, first.next).value;
    MultWalks(e.first, locals, reg, c, w);
    FreshRest(w, After(w, first.code), c, first.next, rest.next, {});
    AdditiveRestWalks(e, 0, locals, reg, first.next, After(w, first.code));
    SeqWalks(w, first, rest, c);
    assert GenAdditive(e, locals, reg, c) == Ok(Gen(first.code + rest.code, rest.next));
  }

  lemma AdditiveRestWalks(e: Additive, i: nat, locals: Locals, reg: Registry, c: nat, w: Walker)
    requires i <= |e.rest| && GenAdditiveRest(e, i, locals, reg, c).Ok?
    requires FreshIn(w, c, GenAdditiveRest(e, i, locals, reg, c).value.next)
    ensures ExprWalks(w, GenAdditiveRest(e, i, locals, reg, c).value, c)
    decreases e, 0, |e.rest| - i
  {
    if i < |e.rest| {
      var x := GenMult(e.rest[i].1, locals, reg, c).value;
      var rest := GenAdditiveRest(e, i + 1, locals, reg, x.next).value;
      MultWalks(e.rest[i].1, locals, reg, c, Pushed(w));
      var op := Gen(Operand(x.code, AddTail(e.rest[i].0)), x.next);
      AddTailPlain(e.rest[i].0);
      OperandWalks(w, x, AddTail(e.rest[i].0), c);
      FreshRest(w, After(w, op.code), c, x.next, rest.next, {});
      AdditiveRestWalks(e, i + 1, locals, reg, x.next, After(w, op.code));
      SeqWalks(w, op, rest, c);
      assert GenAdditiveRest(e, i, locals, reg, c) == Ok(Gen(op.code + rest.code, rest.next));
    }
  }

  lemma MultWalks(e: Mult, locals: Locals, reg: Registry, c: nat, w: Walker)
    requires GenMult(e, locals, reg, c).Ok? && FreshIn(w, c, GenMult(e, locals, reg, c).value.next)
    ensures ExprWalks(w, GenMult(e, locals, reg, c).value, c)
    decreases e, 1
  {
    var first := GenUnary(e.first, locals, reg, c).value;
    var rest := GenMultRest(e, 0, locals, reg, first.next).value;
    UnaryWalks(e.first, locals, reg, c, w);
    FreshRest(w, After(w, first.code), c, first.next, rest.next, {});
    MultRestWalks(e, 0, locals, reg, first.next, After(w, first.code));
    SeqWalks(w, first, rest, c);
    assert GenMult(e, locals, reg, c) == Ok(Gen(first.code + rest.code, rest.next));
  }

  lemma MultRestWalks(e: Mult, i: nat, locals: Locals, reg: Registry, c: nat, w: Walker)
    requires i <= |e.rest| && GenMultRest(e, i, locals, reg, c).Ok?
    requires FreshIn(w, c, GenMultRest(e, i, locals, reg, c).value.next)
    ensures ExprWalks(w, GenMultRest(e, i, locals, reg, c).value, c)
    decreases e, 0, |e.rest| - i
  {
    if i < |e.rest| {
      var x := GenUnary(e.rest[i].1, locals, reg, c).value;
      var rest := GenMultRest(e, i + 1, locals, reg, x.next).value;
      UnaryWalks(e.rest[i].1, locals, reg, c, Pushed(w));
      var op := Gen(Operand(x.code, MulTail(e.rest[i].0)), x.next);
      MulTailPlain(e.rest[i].0);
      OperandWalks(w, x, MulTail(e.rest[i].0), c);
      FreshRest(w, After(w, op.code), c, x.next, rest.next, {});
      MultRestWalks(e, i + 1, locals, reg, x.next, After(w, op.code));
      SeqWalks(w, op, rest, c);
      assert GenMultRest(e, i, locals, reg, c) == Ok(Gen(op.code + rest.code, rest.next));
    }
  }

  lemma UnaryWalks(e: Unary, locals: Locals, reg: Registry, c: nat, w: Walker)
    requires GenUnary(e, locals, reg, c).Ok? && FreshIn(w, c, GenUnary(e, locals, reg, c).value.next)
    ensures ExprWalks(w, GenUnary(e, locals, reg, c).value, c)
    decreases e, 1
  {
    match e
    case UPostfix(p) =>
      PostfixWalks(p, locals, reg, c, w);
    case UPrefix(op, x) =>
      PlainWalks(w, GenUnary(e, locals, reg, c).value.code, c);
    case UOp(op, operand) =>
      var v := GenUnary(operand, locals, reg, c).value;
      UnaryWalks(operand, locals, reg, c, w);
      PlainWalks(After(w, v.code), UnaryOpCode(op), v.next);
      SeqWalks(w, v, Gen(UnaryOpCode(op), v.next), c);
  }

  /** Calls: the caller removes exactly the arguments it pushed. */
  lemma CallSequenceWalks(w: Walker, f: Ident, pushed: Gen, n: nat, c: nat)
    requires Walk(w, pushed.code).Some?
    requires After(w, pushed.code).depth == Lower(w.depth, 4 * n)
    requires Grows(w, After(w, pushed.code), c, pushed.next, {})
    requires w.depth.Dead? ==> After(w, pushed.code).at == w.at
    ensures ExprWalks(w, Gen(CallSequence(f, pushed.code, n), pushed.next), c)
  {
    var w1 := After(w, pushed.code);
    WalkOne(w1, Call(f));
    Chain(w, pushed.code, w1, [Call(f)], w1);
    if n > 0 {
      var w2 := w1.(depth := w.depth);
      WalkOne(w1, AddEsp(4 * n));
      Chain(w, pushed.code + [Call(f)], w1, [AddEsp(4 * n)], w2);
    } else {
      assert CallSequence(f, pushed.code, n) == pushed.code + [Call(f)];
    }
  }

  lemma PostfixWalks(e: Postfix, locals: Locals, reg: Registry, c: nat, w: Walker)
    requires GenPostfix(e, locals, reg, c).Ok? && FreshIn(w, c, GenPostfix(e, locals, reg, c).value.next)
    ensures ExprWalks(w, GenPostfix(e, locals, reg, c).value, c)
    decreases e, 1
  {
    match e
    case ConstInt(_) =>
      PlainWalks(w, GenPostfix(e, locals, reg, c).value.code, c);
    case Variable(_) =>
      PlainWalks(w, GenPostfix(e, locals, reg, c).value.code, c);
    case PostIncDec(_, _) =>
      PlainWalks(w, GenPostfix(e, locals, reg, c).value.code, c);
    case Bracket(inner) =>
      CommaWalks(inner, locals, reg, c, w);
    case ConstFloat =>
      CallSequenceWalks(w, "", Gen([], c), 0, c);
    case FunCall(f, args) =>
      var pushed := GenCallArgs(e, |args|, locals, reg, c).value;
      CallArgsWalk(e, |args|, locals, reg, c, w);
      CallSequenceWalks(w, f, pushed, |args|, c);
  }

  /** Pushing `k` arguments moves the stack down by exactly `4 * k` bytes. */
  lemma CallArgsWalk(e: Postfix, k: nat, locals: Locals, reg: Registry, c: nat, w: Walker)
    requires e.FunCall? && k <= |e.args|
    requires GenCallArgs(e, k, locals, reg, c).Ok? && FreshIn(w, c, GenCallArgs(e, k, locals, reg, c).value.next)
    ensures var g := GenCallArgs(e, k, locals, reg, c).value;
      && Walk(w, g.code).Some?
      && After(w, g.code).depth == Lower(w.depth, 4 * k)
      && Grows(w, After(w, g.code), c, g.next, {})
      && (w.depth.Dead? ==> After(w, g.code).at == w.at)
    decreases e, 0, k
  {
    if k > 0 {
      var a := GenAssignment(e.args[k - 1], locals, reg, c).value;
      var rest := GenCallArgs(e, k - 1, locals, reg, a.next).value;
      AssignmentWalks(e.args[k - 1], locals, reg, c, w);
      var w1 := After(w, a.code);
      var w2 := Pushed(w1);
      WalkOne(w1, Push(Eax));
      Chain(w, a.code, w1, [Push(Eax)], w2);
      FreshRest(w, w1, c, a.next, rest.next, {});
      CallArgsWalk(e, k - 1, locals, reg, a.next, w2);
      Chain(w, a.code + [Push(Eax)], w2, rest.code, After(w2, rest.code));
      GrowsTrans(w, w2, After(w2, rest.code), c, a.next, rest.next, {});
      assert GenCallArgs(e, k, locals, reg, c) == Ok(Gen(a.code + [Push(Eax)] + rest.code, rest.next));
    }
  }
}
