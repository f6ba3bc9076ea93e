/** The code generated for statements, function bodies and whole programs
    passes the checker of module StackCheck: every path reaches each label
    and each `ret` with the stack where it must be, `break` and `continue`
    release exactly what their loop body allocated, every label is defined
    once, and every jump names a label the program defines. */
module StmtWalk {
  import opened Wrappers
  import opened Ast
  import opened Asm
  import opened StackCheck
  import opened CodegenExpr
  import opened Codegen
  import opened ExprWalk

  /** The labels a `break` or `continue` inside `loop` may jump to. */
  function LoopLabels(loop: LoopCtx): set<CtlLabel> {
    if loop.InLoop? then {CtlLabel(End, loop.id), CtlLabel(Cont, loop.id)} else {}
  }

  /** Label `l` is still to be defined, and every live jump to it so far
      came from depth `d`. */
  ghost predicate Pending(w: Walker, l: CtlLabel, d: int) {
    l !in w.defined && (l in w.at ==> w.at[l] == d)
  }

  /** The exits of the innermost loop are pending at the depth of the slot
      index the loop was entered with. */
  ghost predicate LoopOk(w: Walker, loop: LoopCtx) {
    loop.InLoop? ==>
      && Pending(w, CtlLabel(End, loop.id), -loop.index - 4)
      && Pending(w, CtlLabel(Cont, loop.id), -loop.index - 4)
  }

  /** The innermost loop was numbered before `c` and entered at a slot
      index at or above `index`. */
  predicate LoopFits(loop: LoopCtx, index: int, c: nat) {
    loop.InLoop? ==> loop.id < c && index <= loop.index
  }

  /** Statement code run at slot index `index`: it ends at the depth of
      that index or in dead code, learns only about its own labels and the
      exits of the innermost loop, and leaves those exits pending. */
  ghost predicate StmtWalks(w: Walker, code: seq<Instr>, lo: nat, hi: nat, index: int, loop: LoopCtx) {
    Within(w, code, lo, hi, -index - 4, LoopLabels(loop)) && LoopOk(After(w, code), loop)
  }

  /** The state after defining a label nothing has named yet. */
  function Enter(w: Walker, l: CtlLabel): Walker {
    w.(at := if w.depth.Live? then w.at[l := w.depth.bytes] else w.at, defined := w.defined + {l})
  }

  /** The state after `cmpl $0, %eax; je l` for a label nothing has named
      yet. */
  function Guard(w: Walker, l: CtlLabel): Walker {
    w.(at := if w.depth.Live? then w.at[l := w.depth.bytes] else w.at, used := w.used + {l})
  }

  lemma LoopOkKept(w: Walker, w1: Walker, loop: LoopCtx, lo: nat, hi: nat)
    requires LoopOk(w, loop) && Learns(w, w1, lo, hi, {})
    requires loop.InLoop? ==> loop.id < lo
    ensures LoopOk(w1, loop)
  {
  }

  lemma WithinWiden(w: Walker, code: seq<Instr>, lo: nat, hi: nat, d: int, extra: set<CtlLabel>, extra1: set<CtlLabel>)
    requires Within(w, code, lo, hi, d, extra) && extra <= extra1
    ensures Within(w, code, lo, hi, d, extra1)
  {
  }

  /** Two pieces in a row, the second numbered after the first. */
  lemma WithinSeq(w: Walker, a: seq<Instr>, b: seq<Instr>, lo: nat, mid: nat, hi: nat, d1: int, d2: int, extra: set<CtlLabel>)
    requires Within(w, a, lo, mid, d1, extra) && Within(After(w, a), b, mid, hi, d2, extra)
    requires forall l :: l in extra ==> l.id < lo
    ensures Within(w, a + b, lo, hi, d2, extra) && After(w, a + b) == After(After(w, a), b)
  {
    WalkAppend(w, a, b);
    GrowsTrans(w, After(w, a), After(After(w, a), b), lo, mid, hi, extra);
  }

  /** Two pieces of statement code in a row. */
  lemma StmtSeq(w: Walker, a: seq<Instr>, b: seq<Instr>, lo: nat, mid: nat, hi: nat, i1: int, i2: int, loop: LoopCtx)
    requires StmtWalks(w, a, lo, mid, i1, loop) && StmtWalks(After(w, a), b, mid, hi, i2, loop)
    requires loop.InLoop? ==> loop.id < lo
    ensures StmtWalks(w, a + b, lo, hi, i2, loop)
  {
    WithinSeq(w, a, b, lo, mid, hi, -i1 - 4, -i2 - 4, LoopLabels(loop));
  }

  /** Two pieces in a row, the first numbered inside the second's range. */
  lemma WithinCover(w: Walker, a: seq<Instr>, b: seq<Instr>, lo1: nat, hi1: nat, lo: nat, hi: nat, d1: int, d2: int, extra: set<CtlLabel>)
    requires Within(w, a, lo1, hi1, d1, extra) && Within(After(w, a), b, lo, hi, d2, extra)
    requires lo <= lo1 && hi1 <= hi
    ensures Within(w, a + b, lo, hi, d2, extra) && After(w, a + b) == After(After(w, a), b)
  {
    WalkAppend(w, a, b);
    GrowsCover(w, After(w, a), After(After(w, a), b), lo1, hi1, lo, hi, extra);
  }

  /** An instruction that only moves the stack pointer by `n` bytes. */
  lemma MoveWalk(w: Walker, code: seq<Instr>, i: Instr, n: int, lo: nat, hi: nat, d: int, extra: set<CtlLabel>)
    requires Within(w, code, lo, hi, d, extra)
    requires i == AddEsp(-n) || i == SubEsp(n) || i == Push(Eax)
    requires i == Push(Eax) ==> n == 4
    ensures Within(w, code + [i], lo, hi, d + n, extra)
    ensures After(w, code + [i]) == After(w, code).(depth := Lower(After(w, code).depth, n))
  {
    var w1 := After(w, code);
    WalkOne(w1, i);
    Chain(w, code, w1, [i], w1.(depth := Lower(w1.depth, n)));
  }

  /** Code followed by a piece that only ends the path. */
  lemma EndsDead(w: Walker, a: seq<Instr>, b: seq<Instr>, lo: nat, hi: nat, d: int, extra: set<CtlLabel>)
    requires Within(w, a, lo, hi, d, extra)
    requires Walk(After(w, a), b) == Some(After(w, a).(depth := Dead))
    ensures Within(w, a + b, lo, hi, d, extra) && After(w, a + b) == After(w, a).(depth := Dead)
  {
    WalkAppend(w, a, b);
  }

  /** `movl %esp, %ebp` ... `ret`: the epilogue ends every path. */
  lemma EpilogueWalk(w: Walker)
    ensures Walk(w, Epilogue) == Some(w.(depth := Dead))
  {
    var w1 := w.(depth := if w.depth.Live? then Live(0) else Dead);
    var w2 := w.(depth := if w.depth.Live? then Live(-4) else Dead);
    WalkOne(w, RestoreEsp);
    WalkOne(w1, Pop(Ebp));
    WalkOne(w2, Ret);
    Chain(w, [RestoreEsp], w1, [Pop(Ebp)], w2);
    Chain(w, [RestoreEsp, Pop(Ebp)], w2, [Ret], w.(depth := Dead));
    assert [RestoreEsp] + [Pop(Ebp)] == [RestoreEsp, Pop(Ebp)];
    assert [RestoreEsp, Pop(Ebp)] + [Ret] == Epilogue;
  }

  lemma FallThroughWalk(w: Walker)
    ensures Walk(w, FallThrough) == Some(w.(depth := Dead))
  {
    WalkOne(w, Movl(Imm(0), R(Eax)));
    EpilogueWalk(w);
    Chain(w, [Movl(Imm(0), R(Eax))], w, Epilogue, w.(depth := Dead));
  }

  /** Every statement passes the checker. */
  lemma StatementWalks(s: Statement, locals: Locals, index: int, loop: LoopCtx, reg: Registry, c: nat, w: Walker)
    requires GenStatement(s, locals, index, loop, reg, c).Ok?
    requires FreshIn(w, c, GenStatement(s, locals, index, loop, reg, c).value.next)
    requires w.depth == Live(-index - 4) || w.depth.Dead?
    requires LoopFits(loop, index, c) && LoopOk(w, loop)
    ensures var g := GenStatement(s, locals, index, loop, reg, c).value;
            StmtWalks(w, g.code, c, g.next, index, loop)
    decreases s, 2
  {
    match s
    case ExprStmt(e) =>
      var g := GenComma(e, locals, reg, c).value;
      CommaWalks(e, locals, reg, c, w);
      ExprWithin(w, g, c, -index - 4, LoopLabels(loop));
      LoopOkKept(w, After(w, g.code), loop, c, g.next);
    case Return(e) =>
      ReturnWalks(s, locals, index, loop, reg, c, w);
    case If(_, _, _) =>
      IfWalks(s, locals, index, loop, reg, c, w);
    case Compound(_) =>
      CompoundWalks(s, locals, index, loop, reg, c, w);
    case ForExpr(_, _, _, _) =>
      ForExprWalks(s, locals, index, loop, reg, c, w);
    case ForDecl(_, _, _, _) =>
      ForDeclWalks(s, locals, index, loop, reg, c, w);
    case While(_, _) =>
      WhileWalks(s, locals, index, loop, reg, c, w);
    case DoWhile(_, _) =>
      DoWalks(s, locals, index, loop, reg, c, w);
    case Break =>
      ExitWalks(loop, index, End, c, w);
    case Continue =>
      ExitWalks(loop, index, Cont, c, w);
  }

  lemma ReturnWalks(s: Statement, locals: Locals, index: int, loop: LoopCtx, reg: Registry, c: nat, w: Walker)
    requires s.Return? && GenStatement(s, locals, index, loop, reg, c).Ok?
    requires FreshIn(w, c, GenStatement(s, locals, index, loop, reg, c).value.next)
    requires w.depth == Live(-index - 4) || w.depth.Dead?
    requires LoopFits(loop, index, c) && LoopOk(w, loop)
    ensures var g := GenStatement(s, locals, index, loop, reg, c).value;
            StmtWalks(w, g.code, c, g.next, index, loop)
  {
    var g := GenComma(s.expr, locals, reg, c).value;
    CommaWalks(s.expr, locals, reg, c, w);
    ExprWithin(w, g, c, -index - 4, LoopLabels(loop));
    var w1 := After(w, g.code);
    LoopOkKept(w, w1, loop, c, g.next);
    EpilogueWalk(w1);
    EndsDead(w, g.code, Epilogue, c, g.next, -index - 4, LoopLabels(loop));
    assert GenStatement(s, locals, index, loop, reg, c) == Ok(Gen(g.code + Epilogue, g.next));
  }

  /** `break` and `continue`: the jump leaves from the depth the loop was
      entered at. */
  lemma ExitWalks(loop: LoopCtx, index: int, kind: LabelKind, c: nat, w: Walker)
    requires loop.InLoop? && (kind == End || kind == Cont)
    requires w.depth == Live(-index - 4) || w.depth.Dead?
    requires LoopFits(loop, index, c) && LoopOk(w, loop)
    ensures StmtWalks(w, LoopExit(loop, index, kind), c, c, index, loop)
  {
    var l := CtlLabel(kind, loop.id);
    var j := Jmp(l, Indented);
    if loop.index - index > 0 {
      var w1 := w.(depth := Lower(w.depth, -(loop.index - index)));
      WalkOne(w, AddEsp(loop.index - index));
      WalkOne(w1, j);
      Chain(w, [AddEsp(loop.index - index)], w1, [j], Step(w1, j).value);
    } else {
      WalkOne(w, j);
    }
  }

  /** The state after `je _e<id>` at the head of an `if`. */
  lemma OpenFacts(w1: Walker, id: nat, hi: nat, loop: LoopCtx)
    requires FreshIn(w1, id, hi) && id < hi && LoopOk(w1, loop)
    requires loop.InLoop? ==> loop.id < id
    ensures FreshIn(w1, id, id + 1)
    ensures FreshIn(Open(w1, id), id + 1, hi) && Open(w1, id).depth == w1.depth && LoopOk(Open(w1, id), loop)
  {
  }

  /** The state after `jmp _end<id>; _e<id>:`, between the branches. */
  lemma MidFacts(w1: Walker, id: nat, a: Gen, hi: nat, index: int, loop: LoopCtx)
    requires FreshIn(w1, id, hi) && a.next <= hi && (w1.depth == Live(-index - 4) || w1.depth.Dead?)
    requires loop.InLoop? ==> loop.id < id
    requires StmtWalks(Open(w1, id), a.code, id + 1, a.next, index, loop)
    ensures var wm := Mid(ThenEnd(w1, id, a.code), id);
            && FreshIn(wm, a.next, hi) && (wm.depth == Live(-index - 4) || wm.depth.Dead?)
            && LoopOk(wm, loop)
  {
    var wa := ThenEnd(w1, id, a.code);
    FreshRest(Open(w1, id), wa, id + 1, a.next, hi, LoopLabels(loop));
  }

  /** Both branches of an `if`, after its test. */
  lemma IfBranch(w1: Walker, id: nat, a: Gen, b: Gen, index: int, loop: LoopCtx)
    requires FreshIn(w1, id, id + 1) && (w1.depth == Live(-index - 4) || w1.depth.Dead?)
    requires loop.InLoop? ==> loop.id < id
    requires StmtWalks(Open(w1, id), a.code, id + 1, a.next, index, loop)
    requires StmtWalks(Mid(ThenEnd(w1, id, a.code), id), b.code, a.next, b.next, index, loop)
    ensures StmtWalks(w1, Branch(id, a.code, b.code), id, b.next, index, loop)
  {
    BranchWalk(w1, id, a, b, -index - 4, LoopLabels(loop));
    BranchPieces(w1, id, a.code, b.code);
  }

  lemma IfWalks(s: Statement, locals: Locals, index: int, loop: LoopCtx, reg: Registry, c: nat, w: Walker)
    requires s.If? && GenStatement(s, locals, index, loop, reg, c).Ok?
    requires FreshIn(w, c, GenStatement(s, locals, index, loop, reg, c).value.next)
    requires w.depth == Live(-index - 4) || w.depth.Dead?
    requires LoopFits(loop, index, c) && LoopOk(w, loop)
    ensures var g := GenStatement(s, locals, index, loop, reg, c).value;
            StmtWalks(w, g.code, c, g.next, index, loop)
    decreases s, 1
  {
    var g := GenComma(s.cond, locals, reg, c).value;
    var id := g.next;
    var a := GenStatement(s.thenS, locals, index, loop, reg, id + 1).value;
    var b := GenStatement(s.elseS, locals, index, loop, reg, a.next).value;
    CommaWalks(s.cond, locals, reg, c, w);
    ExprWithin(w, g, c, -index - 4, LoopLabels(loop));
    var w1 := After(w, g.code);
    FreshRest(w, w1, c, id, b.next, {});
    LoopOkKept(w, w1, loop, c, id);
    OpenFacts(w1, id, b.next, loop);
    StatementWalks(s.thenS, locals, index, loop, reg, id + 1, Open(w1, id));
    MidFacts(w1, id, a, b.next, index, loop);
    StatementWalks(s.elseS, locals, index, loop, reg, a.next, Mid(ThenEnd(w1, id, a.code), id));
    IfBranch(w1, id, a, b, index, loop);
    StmtSeq(w, g.code, Branch(id, a.code, b.code), c, id, b.next, index, index, loop);
    assert GenStatement(s, locals, index, loop, reg, c) == Ok(Gen(g.code + Branch(id, a.code, b.code), b.next));
  }

  lemma CompoundWalks(s: Statement, locals: Locals, index: int, loop: LoopCtx, reg: Registry, c: nat, w: Walker)
    requires s.Compound? && GenStatement(s, locals, index, loop, reg, c).Ok?
    requires FreshIn(w, c, GenStatement(s, locals, index, loop, reg, c).value.next)
    requires w.depth == Live(-index - 4) || w.depth.Dead?
    requires LoopFits(loop, index, c) && LoopOk(w, loop)
    ensures var g := GenStatement(s, locals, index, loop, reg, c).value;
            StmtWalks(w, g.code, c, g.next, index, loop)
    decreases s, 1
  {
    var fr := Frame(locals, {}, index);
    var x := GenCompoundFrom(s, 0, fr, loop, reg, c).value;
    CompoundFromWalks(s, 0, fr, loop, reg, c, w);
    var n := |x.frame.scope|;
    if n > 0 {
      MoveWalk(w, x.code, AddEsp(4 * n), -4 * n, c, x.next, -x.frame.index - 4, LoopLabels(loop));
    } else {
      assert x.code + [] == x.code;
    }
    assert GenStatement(s, locals, index, loop, reg, c) == Ok(Gen(x.code + (if n > 0 then [AddEsp(4 * n)] else []), x.next));
  }

  /** The items of a compound statement, from the `i`-th on, end at the
      depth of the slot index they leave behind. */
  lemma CompoundFromWalks(s: Statement, i: nat, fr: Frame, loop: LoopCtx, reg: Registry, c: nat, w: Walker)
    requires s.Compound? && i <= |s.items| && GenCompoundFrom(s, i, fr, loop, reg, c).Ok?
    requires FreshIn(w, c, GenCompoundFrom(s, i, fr, loop, reg, c).value.next)
    requires w.depth == Live(-fr.index - 4) || w.depth.Dead?
    requires LoopFits(loop, fr.index, c) && LoopOk(w, loop)
    ensures var x := GenCompoundFrom(s, i, fr, loop, reg, c).value;
            StmtWalks(w, x.code, c, x.next, x.frame.index, loop)
    decreases s, 0, |s.items| - i
  {
    if i < |s.items| {
      var x := GenBlockItem(s.items[i], fr, loop, reg, c).value;
      var rest := GenCompoundFrom(s, i + 1, x.frame, loop, reg, x.next).value;
      BlockItemWalks(s.items[i], fr, loop, reg, c, w);
      var w1 := After(w, x.code);
      ItemNext(w, x.code, c, x.next, rest.next, fr, x.frame, loop);
      CompoundFromWalks(s, i + 1, x.frame, loop, reg, x.next, w1);
      StmtSeq(w, x.code, rest.code, c, x.next, rest.next, x.frame.index, rest.frame.index, loop);
      assert GenCompoundFrom(s, i, fr, loop, reg, c).value == Emitted(rest.frame, x.code + rest.code, rest.next);
    }
  }

  /** What the next block item may assume after this one. */
  lemma ItemNext(w: Walker, code: seq<Instr>, c: nat, mid: nat, hi: nat, fr: Frame, fr1: Frame, loop: LoopCtx)
    requires StmtWalks(w, code, c, mid, fr1.index, loop) && FreshIn(w, c, hi) && mid <= hi
    requires LoopFits(loop, fr.index, c) && Allocated(fr, fr1)
    ensures FreshIn(After(w, code), mid, hi) && LoopFits(loop, fr1.index, mid) && LoopOk(After(w, code), loop)
    ensures After(w, code).depth == Live(-fr1.index - 4) || After(w, code).depth.Dead?
  {
    FreshRest(w, After(w, code), c, mid, hi, LoopLabels(loop));
  }

  lemma BlockItemWalks(item: BlockItem, fr: Frame, loop: LoopCtx, reg: Registry, c: nat, w: Walker)
    requires GenBlockItem(item, fr, loop, reg, c).Ok?
    requires FreshIn(w, c, GenBlockItem(item, fr, loop, reg, c).value.next)
    requires w.depth == Live(-fr.index - 4) || w.depth.Dead?
    requires LoopFits(loop, fr.index, c) && LoopOk(w, loop)
    ensures var x := GenBlockItem(item, fr, loop, reg, c).value;
            StmtWalks(w, x.code, c, x.next, x.frame.index, loop)
    decreases item
  {
    match item
    case StmtItem(s) =>
      StatementWalks(s, fr.locals, fr.index, loop, reg, c, w);
    case DeclItem(dl) =>
      var x := GenDeclsFrom(dl, 0, fr, reg, c).value;
      DeclsFromWalks(dl, 0, fr, reg, c, w);
      WithinWiden(w, x.code, c, x.next, -x.frame.index - 4, {}, LoopLabels(loop));
      LoopOkKept(w, After(w, x.code), loop, c, x.next);
  }

  /** Each declaration pushes exactly the slot it binds. */
  lemma DeclsFromWalks(dl: DeclarationList, i: nat, fr: Frame, reg: Registry, c: nat, w: Walker)
    requires i <= |dl.decls| && GenDeclsFrom(dl, i, fr, reg, c).Ok?
    requires FreshIn(w, c, GenDeclsFrom(dl, i, fr, reg, c).value.next)
    requires w.depth == Live(-fr.index - 4) || w.depth.Dead?
    ensures var x := GenDeclsFrom(dl, i, fr, reg, c).value;
            Within(w, x.code, c, x.next, -x.frame.index - 4, {})
    decreases |dl.decls| - i
  {
    if i < |dl.decls| {
      var x := GenDeclaration(dl.decls[i], fr, reg, c).value;
      var rest := GenDeclsFrom(dl, i + 1, x.frame, reg, x.next).value;
      DeclarationWalks(dl.decls[i], fr, reg, c, w);
      var w1 := After(w, x.code);
      FreshRest(w, w1, c, x.next, rest.next, {});
      DeclsFromWalks(dl, i + 1, x.frame, reg, x.next, w1);
      WithinSeq(w, x.code, rest.code, c, x.next, rest.next, -x.frame.index - 4, -rest.frame.index - 4, {});
      assert GenDeclsFrom(dl, i, fr, reg, c).value == Emitted(rest.frame, x.code + rest.code, rest.next);
    }
  }

  lemma DeclarationWalks(d: Declaration, fr: Frame, reg: Registry, c: nat, w: Walker)
    requires GenDeclaration(d, fr, reg, c).Ok?
    requires FreshIn(w, c, GenDeclaration(d, fr, reg, c).value.next)
    requires w.depth == Live(-fr.index - 4) || w.depth.Dead?
    ensures var x := GenDeclaration(d, fr, reg, c).value;
            Within(w, x.code, c, x.next, -x.frame.index - 4, {})
  {
    var fr1 := Bind(fr, d.id);
    match d.init
    case None =>
      assert Within(w, [], c, c, -fr.index - 4, {});
      MoveWalk(w, [], SubEsp(4), 4, c, c, -fr.index - 4, {});
    case Some(a) =>
      var g := GenAssignment(a, fr1.locals, reg, c).value;
      AssignmentWalks(a, fr1.locals, reg, c, w);
      ExprWithin(w, g, c, -fr.index - 4, {});
      MoveWalk(w, g.code, Push(Eax), 4, c, g.next, -fr.index - 4, {});
  }

  /** Of the labels numbered `id`, jumps name only those in `ls`. */
  ghost predicate UsesOnly(w: Walker, id: nat, ls: set<CtlLabel>) {
    forall l :: l in w.used && l.id == id ==> l in ls
  }

  /** Inside a loop whose first label `head` was defined at the entry
      state `w0`, at depth `d`: if the loop was entered live, `head` fixes
      depth `d`; if it was entered in dead code, everything since is dead
      and nothing was recorded. */
  ghost predicate InsideLoop(w0: Walker, w: Walker, head: CtlLabel, d: int) {
    && head in w.defined
    && (w.depth == Live(d) || w.depth.Dead?)
    && (w0.depth.Live? ==> head in w.at && w.at[head] == d)
    && (w0.depth.Dead? ==> w.depth.Dead? && w.at == w0.at)
  }

  /** Defining a label nothing has named yet, ahead of a range still fresh. */
  lemma EnterFacts(w: Walker, l: CtlLabel, lo: nat, hi: nat)
    requires FreshIn(w, l.id, l.id + 1) && FreshIn(w, lo, hi) && l.id < lo
    ensures Walk(w, [Label(l)]) == Some(Enter(w, l))
    ensures FreshIn(Enter(w, l), lo, hi) && Enter(w, l).depth == w.depth
    ensures Learns(w, Enter(w, l), l.id, l.id + 1, {})
  {
    WalkOne(w, Label(l));
  }

  /** `_cond<id>:`, the test, and the conditional jump out of the loop. */
  lemma LoopFront(w: Walker, w2: Walker, id: nat, t: Gen, lo: nat, hi: nat, d: int)
    requires id < lo <= t.next <= hi && FreshIn(w, id, id + 1) && FreshIn(w, lo, hi)
    requires w.depth == Live(d) || w.depth.Dead?
    requires ExprWalks(Enter(w, CtlLabel(Cond, id)), t, lo) && w2 == After(Enter(w, CtlLabel(Cond, id)), t.code)
    ensures Walk(w, [Label(CtlLabel(Cond, id))] + t.code + [CmpZero, Je(CtlLabel(End, id))]) == Some(Guard(w2, CtlLabel(End, id)))
    ensures Learns(w2, Guard(w2, CtlLabel(End, id)), id, id + 1, {})
    ensures InsideLoop(w, Guard(w2, CtlLabel(End, id)), CtlLabel(Cond, id), d)
    ensures Pending(Guard(w2, CtlLabel(End, id)), CtlLabel(End, id), d)
    ensures Pending(Guard(w2, CtlLabel(End, id)), CtlLabel(Cont, id), d)
    ensures FreshIn(Guard(w2, CtlLabel(End, id)), t.next, hi)
    ensures UsesOnly(Guard(w2, CtlLabel(End, id)), id, {CtlLabel(End, id)})
  {
    var lc := CtlLabel(Cond, id);
    var le := CtlLabel(End, id);
    var w1 := Enter(w, lc);
    EnterFacts(w, lc, lo, hi);
    Chain(w, [Label(lc)], w1, t.code, w2);
    FreshRest(w1, w2, lo, t.next, hi, {});
    Walk2(w2, CmpZero, Je(le));
    Chain(w, [Label(lc)] + t.code, w2, [CmpZero, Je(le)], Guard(w2, le));
  }

  /** The loop body keeps the facts about the loop's own labels. */
  lemma BodyKeeps(w0: Walker, w3: Walker, code: seq<Instr>, id: nat, tn: nat, bn: nat, hi: nat, d: int)
    requires id < tn && bn <= hi && InsideLoop(w0, w3, CtlLabel(Cond, id), d)
    requires Within(w3, code, tn, bn, d, {CtlLabel(End, id), CtlLabel(Cont, id)})
    requires FreshIn(w3, tn, hi) && UsesOnly(w3, id, {CtlLabel(End, id)})
    ensures InsideLoop(w0, After(w3, code), CtlLabel(Cond, id), d) && FreshIn(After(w3, code), bn, hi)
    ensures UsesOnly(After(w3, code), id, {CtlLabel(End, id), CtlLabel(Cont, id)})
  {
    FreshRest(w3, After(w3, code), tn, bn, hi, {CtlLabel(End, id), CtlLabel(Cont, id)});
  }

  /** `_cont<id>:` after the body. */
  lemma ContFacts(w0: Walker, w4: Walker, id: nat, bn: nat, hi: nat, d: int)
    requires FreshIn(w0, id, id + 1) && id < bn && InsideLoop(w0, w4, CtlLabel(Cond, id), d)
    requires Pending(w4, CtlLabel(End, id), d) && Pending(w4, CtlLabel(Cont, id), d) && FreshIn(w4, bn, hi)
    ensures Step(w4, Label(CtlLabel(Cont, id))).Some?
    ensures Walk(w4, [Label(CtlLabel(Cont, id))]) == Step(w4, Label(CtlLabel(Cont, id)))
    ensures var w5 := Step(w4, Label(CtlLabel(Cont, id))).value;
            && InsideLoop(w0, w5, CtlLabel(Cond, id), d) && Pending(w5, CtlLabel(End, id), d)
            && CtlLabel(Cont, id) in w5.defined && w5.used == w4.used
            && FreshIn(w5, bn, hi) && Learns(w4, w5, id, id + 1, {})
  {
    WalkOne(w4, Label(CtlLabel(Cont, id)));
  }

  /** The step of a `for` loop keeps the facts about the loop's labels. */
  lemma PostKeeps(w0: Walker, w5: Walker, p: Gen, id: nat, bn: nat, d: int)
    requires id < bn && InsideLoop(w0, w5, CtlLabel(Cond, id), d) && ExprWalks(w5, p, bn)
    requires Pending(w5, CtlLabel(End, id), d) && CtlLabel(Cont, id) in w5.defined
    requires UsesOnly(w5, id, {CtlLabel(End, id), CtlLabel(Cont, id)})
    ensures InsideLoop(w0, After(w5, p.code), CtlLabel(Cond, id), d) && Pending(After(w5, p.code), CtlLabel(End, id), d)
    ensures CtlLabel(Cont, id) in After(w5, p.code).defined
    ensures UsesOnly(After(w5, p.code), id, {CtlLabel(End, id), CtlLabel(Cont, id)})
  {
  }

  /** The back edge and `_end<id>:`. */
  lemma BackFacts(w0: Walker, w6: Walker, id: nat, back: Layout, d: int)
    requires FreshIn(w0, id, id + 1) && InsideLoop(w0, w6, CtlLabel(Cond, id), d)
    requires Pending(w6, CtlLabel(End, id), d) && CtlLabel(Cont, id) in w6.defined
    requires UsesOnly(w6, id, {CtlLabel(End, id), CtlLabel(Cont, id)})
    ensures var r := Walk(w6, [Jmp(CtlLabel(Cond, id), back), Label(CtlLabel(End, id))]);
            && r.Some? && (r.value.depth == Live(d) || r.value.depth.Dead?)
            && (w0.depth.Dead? ==> r.value.depth.Dead? && r.value.at == w0.at)
            && Learns(w6, r.value, id, id + 1, {}) && Complete(r.value, id, id + 1)
  {
    Walk2(w6, Jmp(CtlLabel(Cond, id), back), Label(CtlLabel(End, id)));
  }

  /** What a loop numbered `id` has done to the checker so far, from its
      entry state `w0` up to the point numbered `hi`: it learned only about
      its own labels, and every label numbered above `id` that a jump names
      is defined. */
  ghost predicate LoopSoFar(w0: Walker, w: Walker, id: nat, hi: nat) {
    Learns(w0, w, id, hi, {}) && Complete(w, id + 1, hi)
  }

  lemma SoFarStart(w: Walker, id: nat, lo: nat)
    requires id < lo && Complete(w, id + 1, lo)
    ensures LoopSoFar(w, w, id, lo)
  {
  }

  /** A step that only touches the loop's own labels. */
  lemma SoFarLabel(w0: Walker, w: Walker, w1: Walker, id: nat, hi: nat)
    requires LoopSoFar(w0, w, id, hi) && Learns(w, w1, id, id + 1, {}) && id < hi
    ensures LoopSoFar(w0, w1, id, hi)
  {
    LearnsWiden(w, w1, id, id + 1, {}, id, hi, {});
    LearnsTrans(w0, w, w1, id, hi, {});
  }

  /** A self-contained piece numbered next, which may also name the loop's
      own labels. */
  lemma SoFarPiece(w0: Walker, w: Walker, w1: Walker, id: nat, hi: nat, hi1: nat, extra: set<CtlLabel>)
    requires id < hi && LoopSoFar(w0, w, id, hi) && Grows(w, w1, hi, hi1, extra)
    requires forall l :: l in extra ==> l.id == id
    ensures LoopSoFar(w0, w1, id, hi1)
  {
    LearnsWiden(w, w1, hi, hi1, extra, id, hi1, {});
    LearnsWiden(w0, w, id, hi, {}, id, hi1, {});
    LearnsTrans(w0, w, w1, id, hi1, {});
  }

  lemma SoFarDone(w0: Walker, w: Walker, id: nat, hi: nat)
    requires LoopSoFar(w0, w, id, hi) && Complete(w, id, id + 1)
    ensures Grows(w0, w, id, hi, {})
  {
  }

  /** `_cond<id>:`, the test numbered from `c`, and the conditional jump. */
  lemma LoopHead(id: nat, cond: Comma, locals: Locals, reg: Registry, c: nat, hi: nat, w: Walker, d: int)
    requires GenComma(cond, locals, reg, c).Ok? && id < c && GenComma(cond, locals, reg, c).value.next <= hi
    requires FreshIn(w, id, id + 1) && FreshIn(w, c, hi) && Complete(w, id + 1, c)
    requires w.depth == Live(d) || w.depth.Dead?
    ensures Walk(Enter(w, CtlLabel(Cond, id)), GenComma(cond, locals, reg, c).value.code).Some?
    ensures var t := GenComma(cond, locals, reg, c).value;
            var w3 := Guard(After(Enter(w, CtlLabel(Cond, id)), t.code), CtlLabel(End, id));
            && Walk(w, [Label(CtlLabel(Cond, id))] + t.code + [CmpZero, Je(CtlLabel(End, id))]) == Some(w3)
            && InsideLoop(w, w3, CtlLabel(Cond, id), d)
            && Pending(w3, CtlLabel(End, id), d) && Pending(w3, CtlLabel(Cont, id), d)
            && FreshIn(w3, t.next, hi) && UsesOnly(w3, id, {CtlLabel(End, id)})
            && LoopSoFar(w, w3, id, t.next)
  {
    var lc := CtlLabel(Cond, id);
    var t := GenComma(cond, locals, reg, c).value;
    var w1 := Enter(w, lc);
    EnterFacts(w, lc, c, hi);
    CommaWalks(cond, locals, reg, c, w1);
    var w2 := After(w1, t.code);
    LoopFront(w, w2, id, t, c, hi, d);
    SoFarStart(w, id, c);
    SoFarLabel(w, w, w1, id, c);
    SoFarPiece(w, w1, w2, id, c, t.next, {});
    SoFarLabel(w, w2, Guard(w2, CtlLabel(End, id)), id, t.next);
  }

  /** `_cont<id>:`, the step numbered from `bn`, the back edge and
      `_end<id>:`. */
  lemma LoopTail(id: nat, post: Comma, back: Layout, locals: Locals, reg: Registry, bn: nat, hi: nat, w: Walker, w4: Walker, d: int)
    requires GenComma(post, locals, reg, bn).Ok? && id < bn && GenComma(post, locals, reg, bn).value.next <= hi
    requires FreshIn(w, id, id + 1) && FreshIn(w4, bn, hi) && InsideLoop(w, w4, CtlLabel(Cond, id), d)
    requires Pending(w4, CtlLabel(End, id), d) && Pending(w4, CtlLabel(Cont, id), d)
    requires UsesOnly(w4, id, {CtlLabel(End, id), CtlLabel(Cont, id)}) && LoopSoFar(w, w4, id, bn)
    ensures var p := GenComma(post, locals, reg, bn).value;
            var r := Walk(w4, [Label(CtlLabel(Cont, id))] + p.code + [Jmp(CtlLabel(Cond, id), back), Label(CtlLabel(End, id))]);
            && r.Some? && (r.value.depth == Live(d) || r.value.depth.Dead?)
            && (w.depth.Dead? ==> r.value.depth.Dead? && r.value.at == w.at)
            && Grows(w, r.value, id, p.next, {})
  {
    var lc := CtlLabel(Cond, id);
    var le := CtlLabel(End, id);
    var lk := CtlLabel(Cont, id);
    var p := GenComma(post, locals, reg, bn).value;
    ContFacts(w, w4, id, bn, hi, d);
    var w5 := Step(w4, Label(lk)).value;
    CommaWalks(post, locals, reg, bn, w5);
    var w6 := After(w5, p.code);
    PostKeeps(w, w5, p, id, bn, d);
    BackFacts(w, w6, id, back, d);
    var w7 := Walk(w6, [Jmp(lc, back), Label(le)]).value;
    Chain(w4, [Label(lk)], w5, p.code, w6);
    Chain(w4, [Label(lk)] + p.code, w6, [Jmp(lc, back), Label(le)], w7);
    SoFarLabel(w, w4, w5, id, bn);
    SoFarPiece(w, w5, w6, id, bn, p.next, {});
    SoFarLabel(w, w6, w7, id, p.next);
    SoFarDone(w, w7, id, p.next);
  }

  /** The three parts of a loop's code in a row. */
  lemma LoopChain(w: Walker, id: nat, t: seq<Instr>, b: seq<Instr>, p: seq<Instr>, back: Layout, w3: Walker, w4: Walker, w7: Walker)
    requires Walk(w, [Label(CtlLabel(Cond, id))] + t + [CmpZero, Je(CtlLabel(End, id))]) == Some(w3)
    requires Walk(w3, b) == Some(w4)
    requires Walk(w4, [Label(CtlLabel(Cont, id))] + p + [Jmp(CtlLabel(Cond, id), back), Label(CtlLabel(End, id))]) == Some(w7)
    ensures Walk(w, LoopCode(id, t, b, p, back)) == Some(w7)
  {
    var q1 := [Label(CtlLabel(Cond, id))] + t + [CmpZero, Je(CtlLabel(End, id))];
    var q3 := [Label(CtlLabel(Cont, id))] + p + [Jmp(CtlLabel(Cond, id), back), Label(CtlLabel(End, id))];
    Chain(w, q1, w3, b, w4);
    Chain(w, q1 + b, w4, q3, w7);
    assert q1 + b + q3 == LoopCode(id, t, b, p, back);
  }

  /** A `while` or `for` loop, after any header, numbered `id` and entered
      at slot index `index`, ends at the depth of that index or in dead
      code. */
  lemma LoopWalks(id: nat, cond: Comma, body: Statement, post: Comma, back: Layout, locals: Locals, index: int, reg: Registry, c: nat, w: Walker)
    requires GenLoop(id, cond, body, post, back, locals, index, reg, c).Ok?
    requires id < c && FreshIn(w, id, id + 1) && Complete(w, id + 1, c)
    requires FreshIn(w, c, GenLoop(id, cond, body, post, back, locals, index, reg, c).value.next)
    requires w.depth == Live(-index - 4) || w.depth.Dead?
    ensures var g := GenLoop(id, cond, body, post, back, locals, index, reg, c).value;
            Within(w, g.code, id, g.next, -index - 4, {})
    decreases body, 3
  {
    var d := -index - 4;
    var t := GenComma(cond, locals, reg, c).value;
    var b := GenStatement(body, locals, index, InLoop(id, index), reg, t.next).value;
    var p := GenComma(post, locals, reg, b.next).value;
    LoopHead(id, cond, locals, reg, c, p.next, w, d);
    var w3 := Guard(After(Enter(w, CtlLabel(Cond, id)), t.code), CtlLabel(End, id));
    StatementWalks(body, locals, index, InLoop(id, index), reg, t.next, w3);
    var w4 := After(w3, b.code);
    BodyKeeps(w, w3, b.code, id, t.next, b.next, p.next, d);
    SoFarPiece(w, w3, w4, id, t.next, b.next, {CtlLabel(End, id), CtlLabel(Cont, id)});
    LoopTail(id, post, back, locals, reg, b.next, p.next, w, w4, d);
    var w7 := Walk(w4, [Label(CtlLabel(Cont, id))] + p.code + [Jmp(CtlLabel(Cond, id), back), Label(CtlLabel(End, id))]).value;
    LoopChain(w, id, t.code, b.code, p.code, back, w3, w4, w7);
    assert GenLoop(id, cond, body, post, back, locals, index, reg, c) == Ok(Gen(LoopCode(id, t.code, b.code, p.code, back), p.next));
  }

  lemma WhileWalks(s: Statement, locals: Locals, index: int, loop: LoopCtx, reg: Registry, c: nat, w: Walker)
    requires s.While? && GenStatement(s, locals, index, loop, reg, c).Ok?
    requires FreshIn(w, c, GenStatement(s, locals, index, loop, reg, c).value.next)
    requires w.depth == Live(-index - 4) || w.depth.Dead?
    requires LoopFits(loop, index, c) && LoopOk(w, loop)
    ensures var g := GenStatement(s, locals, index, loop, reg, c).value;
            StmtWalks(w, g.code, c, g.next, index, loop)
    decreases s, 1
  {
    var g := GenLoop(c, s.cond, s.body, NullComma, Indented, locals, index, reg, c + 1).value;
    LoopWalks(c, s.cond, s.body, NullComma, Indented, locals, index, reg, c + 1, w);
    WithinWiden(w, g.code, c, g.next, -index - 4, {}, LoopLabels(loop));
    LoopOkKept(w, After(w, g.code), loop, c, g.next);
  }

  /** A header numbered from `c + 1` leaves the loop's number `c` fresh. */
  lemma HeaderFresh(w: Walker, w1: Walker, c: nat, hn: nat, hi: nat)
    requires c < hn <= hi && FreshIn(w, c, hi) && Grows(w, w1, c + 1, hn, {})
    ensures FreshIn(w1, c, c + 1) && FreshIn(w1, hn, hi)
  {
    FreshRest(w, w1, c + 1, hn, hi, {});
  }

  /** A `for` header and the loop after it, numbered from `c + 1` and from
      `c`: together they are statement code numbered from `c`. */
  lemma HeaderLoop(w: Walker, h: seq<Instr>, l: seq<Instr>, c: nat, hn: nat, ln: nat, index: int, loop: LoopCtx)
    requires c < hn <= ln && Within(w, h, c + 1, hn, -index - 4, {}) && Within(After(w, h), l, c, ln, -index - 4, {})
    requires LoopOk(w, loop) && (loop.InLoop? ==> loop.id < c)
    ensures StmtWalks(w, h + l, c, ln, index, loop)
  {
    WithinCover(w, h, l, c + 1, hn, c, ln, -index - 4, -index - 4, {});
    WithinWiden(w, h + l, c, ln, -index - 4, {}, LoopLabels(loop));
    LoopOkKept(w, After(w, h + l), loop, c, ln);
  }

  /** The same, with the `addl` that releases the `n` slots the header
      declared. */
  lemma HeaderLoopRelease(w: Walker, h: seq<Instr>, l: seq<Instr>, c: nat, hn: nat, ln: nat, n: nat, inner: int, index: int, loop: LoopCtx)
    requires c < hn <= ln && inner == index - 4 * n
    requires Within(w, h, c + 1, hn, -inner - 4, {}) && Within(After(w, h), l, c, ln, -inner - 4, {})
    requires LoopOk(w, loop) && (loop.InLoop? ==> loop.id < c)
    ensures StmtWalks(w, h + l + [AddEsp(4 * n)], c, ln, index, loop)
  {
    WithinCover(w, h, l, c + 1, hn, c, ln, -inner - 4, -inner - 4, {});
    MoveWalk(w, h + l, AddEsp(4 * n), -4 * n, c, ln, -inner - 4, {});
    WithinWiden(w, h + l + [AddEsp(4 * n)], c, ln, -index - 4, {}, LoopLabels(loop));
    LoopOkKept(w, After(w, h + l + [AddEsp(4 * n)]), loop, c, ln);
  }

  lemma ForExprWalks(s: Statement, locals: Locals, index: int, loop: LoopCtx, reg: Registry, c: nat, w: Walker)
    requires s.ForExpr? && GenStatement(s, locals, index, loop, reg, c).Ok?
    requires FreshIn(w, c, GenStatement(s, locals, index, loop, reg, c).value.next)
    requires w.depth == Live(-index - 4) || w.depth.Dead?
    requires LoopFits(loop, index, c) && LoopOk(w, loop)
    ensures var g := GenStatement(s, locals, index, loop, reg, c).value;
            StmtWalks(w, g.code, c, g.next, index, loop)
    decreases s, 1
  {
    var h := GenComma(s.init, locals, reg, c + 1).value;
    var l := GenLoop(c, s.cond, s.body, s.post, Narrow, locals, index, reg, h.next).value;
    CommaWalks(s.init, locals, reg, c + 1, w);
    ExprWithin(w, h, c + 1, -index - 4, {});
    HeaderFresh(w, After(w, h.code), c, h.next, l.next);
    LoopWalks(c, s.cond, s.body, s.post, Narrow, locals, index, reg, h.next, After(w, h.code));
    HeaderLoop(w, h.code, l.code, c, h.next, l.next, index, loop);
    assert GenStatement(s, locals, index, loop, reg, c) == Ok(Gen(h.code + l.code, l.next));
  }

  lemma ForDeclWalks(s: Statement, locals: Locals, index: int, loop: LoopCtx, reg: Registry, c: nat, w: Walker)
    requires s.ForDecl? && GenStatement(s, locals, index, loop, reg, c).Ok?
    requires FreshIn(w, c, GenStatement(s, locals, index, loop, reg, c).value.next)
    requires w.depth == Live(-index - 4) || w.depth.Dead?
    requires LoopFits(loop, index, c) && LoopOk(w, loop)
    ensures var g := GenStatement(s, locals, index, loop, reg, c).value;
            StmtWalks(w, g.code, c, g.next, index, loop)
    decreases s, 1
  {
    var h := GenDeclsFrom(s.header, 0, Frame(locals, {}, index), reg, c + 1).value;
    var fr := h.frame;
    var l := GenLoop(c, s.cond, s.body, s.post, Narrow, fr.locals, fr.index, reg, h.next).value;
    DeclsFromWalks(s.header, 0, Frame(locals, {}, index), reg, c + 1, w);
    HeaderFresh(w, After(w, h.code), c, h.next, l.next);
    LoopWalks(c, s.cond, s.body, s.post, Narrow, fr.locals, fr.index, reg, h.next, After(w, h.code));
    HeaderLoopRelease(w, h.code, l.code, c, h.next, l.next, |fr.scope|, fr.index, index, loop);
    assert GenStatement(s, locals, index, loop, reg, c) == Ok(Gen(h.code + l.code + [AddEsp(4 * |fr.scope|)], l.next));
  }

  /** `_s<id>:` at the head of a `do` loop, ahead of its test and body. */
  lemma DoEnter(w: Walker, id: nat, tn: nat, bn: nat, index: int)
    requires id < tn <= bn && FreshIn(w, id, bn) && (w.depth == Live(-index - 4) || w.depth.Dead?)
    ensures Walk(w, [Label(CtlLabel(Start, id))]) == Some(Enter(w, CtlLabel(Start, id)))
    ensures var w1 := Enter(w, CtlLabel(Start, id));
            && FreshIn(w, id, id + 1) && FreshIn(w1, id + 1, tn) && FreshIn(w1, tn, bn)
            && LoopOk(w1, InLoop(id, index)) && InsideLoop(w, w1, CtlLabel(Start, id), -index - 4)
            && UsesOnly(w1, id, {}) && Learns(w, w1, id, id + 1, {})
  {
    WalkOne(w, Label(CtlLabel(Start, id)));
  }

  /** The body of a `do` loop keeps the facts about the loop's labels, and
      leaves the test's range fresh. */
  lemma DoBodyKeeps(w0: Walker, w1: Walker, code: seq<Instr>, id: nat, tn: nat, bn: nat, d: int)
    requires id < tn && InsideLoop(w0, w1, CtlLabel(Start, id), d) && UsesOnly(w1, id, {})
    requires FreshIn(w1, id + 1, tn)
    requires Within(w1, code, tn, bn, d, {CtlLabel(End, id), CtlLabel(Cont, id)})
    ensures InsideLoop(w0, After(w1, code), CtlLabel(Start, id), d) && FreshIn(After(w1, code), id + 1, tn)
    ensures UsesOnly(After(w1, code), id, {CtlLabel(End, id), CtlLabel(Cont, id)})
  {
  }

  /** The test of a `do` loop keeps the facts about the loop's labels. */
  lemma DoCondKeeps(w0: Walker, w2: Walker, t: Gen, id: nat, d: int)
    requires InsideLoop(w0, w2, CtlLabel(Start, id), d) && ExprWalks(w2, t, id + 1)
    requires Pending(w2, CtlLabel(End, id), d) && Pending(w2, CtlLabel(Cont, id), d)
    requires UsesOnly(w2, id, {CtlLabel(End, id), CtlLabel(Cont, id)})
    ensures InsideLoop(w0, After(w2, t.code), CtlLabel(Start, id), d)
    ensures Pending(After(w2, t.code), CtlLabel(End, id), d) && Pending(After(w2, t.code), CtlLabel(Cont, id), d)
    ensures UsesOnly(After(w2, t.code), id, {CtlLabel(End, id), CtlLabel(Cont, id)})
  {
  }

  /** The instructions after the test of a `do` loop. */
  function DoTail(id: nat): seq<Instr> {
    [CmpZero, Je(CtlLabel(End, id)), Label(CtlLabel(Cont, id)), Jmp(CtlLabel(Start, id), Indented), Label(CtlLabel(End, id))]
  }

  /** The conditional jump out, `_cont<id>:`, the back edge and `_end<id>:`. */
  lemma DoTailFacts(w0: Walker, w3: Walker, id: nat, d: int)
    requires FreshIn(w0, id, id + 1) && InsideLoop(w0, w3, CtlLabel(Start, id), d)
    requires Pending(w3, CtlLabel(End, id), d) && Pending(w3, CtlLabel(Cont, id), d)
    requires UsesOnly(w3, id, {CtlLabel(End, id), CtlLabel(Cont, id)})
    ensures var r := Walk(w3, DoTail(id));
            && r.Some? && (r.value.depth == Live(d) || r.value.depth.Dead?)
            && (w0.depth.Dead? ==> r.value.depth.Dead? && r.value.at == w0.at)
            && Learns(w3, r.value, id, id + 1, {}) && Complete(r.value, id, id + 1)
  {
    var ls := CtlLabel(Start, id);
    var le := CtlLabel(End, id);
    var lk := CtlLabel(Cont, id);
    Walk2(w3, CmpZero, Je(le));
    var u := Walk(w3, [CmpZero, Je(le)]).value;
    WalkOne(u, Label(lk));
    var v := Step(u, Label(lk)).value;
    Walk2(v, Jmp(ls, Indented), Label(le));
    Chain(w3, [CmpZero, Je(le)], u, [Label(lk)], v);
    Chain(w3, [CmpZero, Je(le)] + [Label(lk)], v, [Jmp(ls, Indented), Label(le)], Walk(v, [Jmp(ls, Indented), Label(le)]).value);
    assert [CmpZero, Je(le)] + [Label(lk)] + [Jmp(ls, Indented), Label(le)] == DoTail(id);
  }

  /** The three pieces of a `do` loop's code in a row. */
  lemma DoChain(w: Walker, id: nat, b: seq<Instr>, t: seq<Instr>, w1: Walker, w2: Walker, w3: Walker, w4: Walker)
    requires Walk(w, [Label(CtlLabel(Start, id))]) == Some(w1)
    requires Walk(w1, b) == Some(w2) && Walk(w2, t) == Some(w3) && Walk(w3, DoTail(id)) == Some(w4)
    ensures Walk(w, DoCode(id, b, t)) == Some(w4)
  {
    Chain(w, [Label(CtlLabel(Start, id))], w1, b, w2);
    Chain(w, [Label(CtlLabel(Start, id))] + b, w2, t, w3);
    Chain(w, [Label(CtlLabel(Start, id))] + b + t, w3, DoTail(id), w4);
  }

  /** The growth of a `do` loop from that of its pieces. */
  lemma DoGrows(w: Walker, w1: Walker, w2: Walker, w3: Walker, w4: Walker, id: nat, tn: nat, bn: nat)
    requires Learns(w, w1, id, id + 1, {})
    requires Grows(w1, w2, tn, bn, {CtlLabel(End, id), CtlLabel(Cont, id)})
    requires Grows(w2, w3, id + 1, tn, {})
    requires Learns(w3, w4, id, id + 1, {}) && Complete(w4, id, id + 1)
    ensures Grows(w, w4, id, bn, {})
  {
    LearnsWiden(w, w1, id, id + 1, {}, id, bn, {});
    LearnsWiden(w1, w2, tn, bn, {CtlLabel(End, id), CtlLabel(Cont, id)}, id, bn, {});
    LearnsWiden(w2, w3, id + 1, tn, {}, id, bn, {});
    LearnsWiden(w3, w4, id, id + 1, {}, id, bn, {});
    LearnsTrans(w, w1, w2, id, bn, {});
    LearnsTrans(w, w2, w3, id, bn, {});
    LearnsTrans(w, w3, w4, id, bn, {});
  }

  lemma DoWalks(s: Statement, locals: Locals, index: int, loop: LoopCtx, reg: Registry, c: nat, w: Walker)
    requires s.DoWhile? && GenStatement(s, locals, index, loop, reg, c).Ok?
    requires FreshIn(w, c, GenStatement(s, locals, index, loop, reg, c).value.next)
    requires w.depth == Live(-index - 4) || w.depth.Dead?
    requires LoopFits(loop, index, c) && LoopOk(w, loop)
    ensures var g := GenStatement(s, locals, index, loop, reg, c).value;
            StmtWalks(w, g.code, c, g.next, index, loop)
    decreases s, 1
  {
    var d := -index - 4;
    var t := GenComma(s.cond, locals, reg, c + 1).value;
    var b := GenStatement(s.body, locals, index, InLoop(c, index), reg, t.next).value;
    var w1 := Enter(w, CtlLabel(Start, c));
    assert GenStatement(s, locals, index, loop, reg, c).value.next == b.next;
    assert FreshIn(w, c, b.next);
    DoEnter(w, c, t.next, b.next, index);
    assert LoopFits(InLoop(c, index), index, t.next);
    StatementWalks(s.body, locals, index, InLoop(c, index), reg, t.next, w1);
    assert Within(w1, b.code, t.next, b.next, d, {CtlLabel(End, c), CtlLabel(Cont, c)});
    var w2 := After(w1, b.code);
    DoBodyKeeps(w, w1, b.code, c, t.next, b.next, d);
    CommaWalks(s.cond, locals, reg, c + 1, w2);
    var w3 := After(w2, t.code);
    assert ExprWalks(w2, t, c + 1);
    assert Pending(w2, CtlLabel(End, c), d);
    DoCondKeeps(w, w2, t, c, d);
    DoTailFacts(w, w3, c, d);
    var w4 := Walk(w3, DoTail(c)).value;
    DoChain(w, c, b.code, t.code, w1, w2, w3, w4);
    DoGrows(w, w1, w2, w3, w4, c, t.next, b.next);
    assert Within(w, DoCode(c, b.code, t.code), c, b.next, d, {});
    WithinWiden(w, DoCode(c, b.code, t.code), c, b.next, d, {}, LoopLabels(loop));
    LoopOkKept(w, After(w, DoCode(c, b.code, t.code)), loop, c, b.next);
    assert GenStatement(s, locals, index, loop, reg, c) == Ok(Gen(DoCode(c, b.code, t.code), b.next));
  }

  /** A function's code, from dead code between functions: the prologue
      sets up the frame, the body runs at slot index -4, and every path
      ends in a return. */
  lemma FunctionWalks(f: Function, reg: Registry, c: nat, w: Walker)
    requires GenFunction(f, reg, c).Ok? && w.depth.Dead?
    requires FreshIn(w, c, GenFunction(f, reg, c).value.next)
    ensures var r := GenFunction(f, reg, c).value;
            && Walk(w, r.code).Some?
            && After(w, r.code).depth.Dead?
            && Grows(w, After(w, r.code), c, r.next, {})
  {
    if f.defined {
      var reg1 := reg[f.id := f];
      var s := Compound(f.items);
      var fr := EntryFrame(f);
      var x := GenCompoundFrom(s, 0, fr, NoLoop, reg1, c).value;
      var w1 := w.(depth := Live(0));
      var w0 := w.(depth := Live(-4));
      Walk2(w, Globl(f.id), FunLabel(f.id));
      Walk2(w0, Push(Ebp), SetFrame);
      Chain(w, [Globl(f.id), FunLabel(f.id)], w0, [Push(Ebp), SetFrame], w1);
      assert [Globl(f.id), FunLabel(f.id)] + [Push(Ebp), SetFrame] == Prologue(f.id);
      CompoundFromWalks(s, 0, fr, NoLoop, reg1, c, w1);
      var w2 := After(w1, x.code);
      Chain(w, Prologue(f.id), w1, x.code, w2);
      FallThroughWalk(w2);
      Chain(w, Prologue(f.id) + x.code, w2, FallThrough, w2.(depth := Dead));
    }
  }

  lemma FunctionsFromWalks(p: Program, i: nat, reg: Registry, c: nat, w: Walker)
    requires i <= |p.functions| && GenFunctionsFrom(p, i, reg, c).Ok? && w.depth.Dead?
    requires FreshIn(w, c, GenFunctionsFrom(p, i, reg, c).value.next)
    ensures var r := GenFunctionsFrom(p, i, reg, c).value;
            && Walk(w, r.code).Some?
            && After(w, r.code).depth.Dead?
            && Grows(w, After(w, r.code), c, r.next, {})
    decreases |p.functions| - i
  {
    if i < |p.functions| {
      var x := GenFunction(p.functions[i], reg, c).value;
      var rest := GenFunctionsFrom(p, i + 1, x.reg, x.next).value;
      FunctionWalks(p.functions[i], reg, c, w);
      var w1 := After(w, x.code);
      FreshRest(w, w1, c, x.next, rest.next, {});
      FunctionsFromWalks(p, i + 1, x.reg, x.next, w1);
      WalkAppend(w, x.code, rest.code);
      GrowsTrans(w, w1, After(w1, rest.code), c, x.next, rest.next, {});
    }
  }

  /** The code of every program the generator accepts passes the checker
      from its initial state and ends outside any function; every label it
      jumps to is defined in it, and no label is defined twice. */
  lemma ProgramWalks(p: Program)
    requires GenProgram(p).Ok?
    ensures var code := GenProgram(p).value.code;
            && Walk(Initial, code).Some?
            && After(Initial, code).depth.Dead?
            && After(Initial, code).used <= After(Initial, code).defined
            && Distinct(Defines(code))
  {
    var r := GenProgram(p).value;
    FunctionsFromWalks(p, 0, map[], 0, Initial);
    WalkDefinesOnce(Initial, r.code);
  }
}
