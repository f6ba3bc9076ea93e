/** Code generation for statements, declarations, functions and programs
    (codegen.hpp:115-415).

    The per-function state of the source is a `Frame`: the symbol table
    (`local_addresses`), the names declared in the innermost scope
    (`current_scope`) and the next free slot (`stack_index`).  Statements
    receive the symbol table and slot by value, so a statement has no frame
    to return; only declarations, the items of one compound statement and
    the items of a function body thread the frame from one to the next. */
module Codegen {
  import opened Wrappers
  import opened Ast
  import opened Asm
  import opened CodegenExpr

  /** `inner_loop_count == -1`, or the innermost loop's id and the slot
      index at its entry (`inner_loop_stack_index`). */
  datatype LoopCtx = NoLoop | InLoop(id: nat, index: int)

  datatype Frame = Frame(locals: Locals, scope: set<Ident>, index: int)

  /** Code for a run of block items, with the frame after them. */
  datatype Emitted = Emitted(frame: Frame, code: seq<Instr>, next: nat)

  type ItemsOut = Result<Emitted, CodegenError>

  /** `fr1` has allocated one four-byte slot below `fr` for each name it
      added to the scope. */
  predicate Allocated(fr: Frame, fr1: Frame) {
    |fr.scope| <= |fr1.scope| && fr1.index == fr.index - 4 * (|fr1.scope| - |fr.scope|)
  }

  /** `fr1` is `fr` after some declarations in the same scope: each new name
      got its own slot between the two slot indexes, four bytes each, and
      every other binding is untouched. */
  ghost predicate Extends(fr: Frame, fr1: Frame) {
    && fr.scope <= fr1.scope
    && fr1.index == fr.index - 4 * (|fr1.scope| - |fr.scope|) <= fr.index
    && fr.locals.Keys <= fr1.locals.Keys
    && (forall x :: x in fr1.scope && x !in fr.scope ==> x in fr1.locals && fr1.index < fr1.locals[x] <= fr.index)
    && (forall x :: x in fr.locals && (x in fr.scope || x !in fr1.scope) ==> fr1.locals[x] == fr.locals[x])
    && (forall x, y :: x in fr1.scope && x !in fr.scope && y in fr1.scope && y !in fr.scope && x != y
          ==> fr1.locals[x] != fr1.locals[y])
  }

  /** The epilogue of `return` (codegen.hpp:406-414). */
  const Epilogue: seq<Instr> := [RestoreEsp, Pop(Ebp), Ret]

  function Prologue(f: Ident): seq<Instr> {
    [Globl(f), FunLabel(f), Push(Ebp), SetFrame]
  }

  /** The fall-through return of 0 that ends every function body. */
  const FallThrough: seq<Instr> := [Movl(Imm(0), R(Eax))] + Epilogue

  /** `break` and `continue`: release what was allocated since the loop was
      entered, if anything, then jump to the loop's `_end` or `_cont`. */
  function LoopExit(loop: LoopCtx, index: int, kind: LabelKind): seq<Instr>
    requires loop.InLoop?
  {
    (if loop.index - index > 0 then [AddEsp(loop.index - index)] else [])
    + [Jmp(CtlLabel(kind, loop.id), Indented)]
  }

  /** A `while` or `for` loop after its header: the test at `_cond`, the
      body, the `_cont` label, the post-expression (empty for `while`), the
      back edge and `_end`.  The back edge of a `for` loop is written with
      four spaces after `jmp` (`back == Narrow`). */
  function LoopCode(id: nat, cond: seq<Instr>, body: seq<Instr>, post: seq<Instr>, back: Layout): seq<Instr> {
    [Label(CtlLabel(Cond, id))] + cond + [CmpZero, Je(CtlLabel(End, id))] + body
    + [Label(CtlLabel(Cont, id))] + post + [Jmp(CtlLabel(Cond, id), back), Label(CtlLabel(End, id))]
  }

  /** A `do` loop: the condition follows the body, and `_cont` follows the
      condition. */
  function DoCode(id: nat, body: seq<Instr>, cond: seq<Instr>): seq<Instr> {
    [Label(CtlLabel(Start, id))] + body + cond
    + [CmpZero, Je(CtlLabel(End, id)), Label(CtlLabel(Cont, id)), Jmp(CtlLabel(Start, id), Indented), Label(CtlLabel(End, id))]
  }

  /** A statement, with the symbol table and slot index of its context
      (codegen.hpp:235-415).  Each if, for, while and do takes the counter's
      value as its id and advances it once: an `if` after its condition,
      a loop before anything else. */
  function GenStatement(s: Statement, locals: Locals, index: int, loop: LoopCtx, reg: Registry, c: nat): (r: Out)
    ensures r.Ok? ==> c <= r.value.next
    decreases s, 1
  {
    match s
    case ExprStmt(e) => GenComma(e, locals, reg, c)
    case Return(e) =>
      var g :- GenComma(e, locals, reg, c);
      Ok(Gen(g.code + Epilogue, g.next))
    case If(cond, thenS, elseS) =>
      var g :- GenComma(cond, locals, reg, c);
      var id := g.next;
      var a :- GenStatement(thenS, locals, index, loop, reg, id + 1);
      var b :- GenStatement(elseS, locals, index, loop, reg, a.next);
      Ok(Gen(g.code + Branch(id, a.code, b.code), b.next))
    case Compound(items) =>
      var x :- GenCompoundFrom(s, 0, Frame(locals, {}, index), loop, reg, c);
      var n := |x.frame.scope|;
      Ok(Gen(x.code + (if n > 0 then [AddEsp(4 * n)] else []), x.next))
    case ForExpr(init, cond, post, body) =>
      var h :- GenComma(init, locals, reg, c + 1);
      var l :- GenLoop(c, cond, body, post, Narrow, locals, index, reg, h.next);
      Ok(Gen(h.code + l.code, l.next))
    case ForDecl(header, cond, post, body) =>
      var h :- GenDeclList(header, Frame(locals, {}, index), reg, c + 1);
      var fr := h.frame;
      var l :- GenLoop(c, cond, body, post, Narrow, fr.locals, fr.index, reg, h.next);
      Ok(Gen(h.code + l.code + [AddEsp(4 * |fr.scope|)], l.next))
    case While(cond, body) =>
      GenLoop(c, cond, body, NullComma, Indented, locals, index, reg, c + 1)
    case DoWhile(body, cond) =>
      var t :- GenComma(cond, locals, reg, c + 1);
      var b :- GenStatement(body, locals, index, InLoop(c, index), reg, t.next);
      Ok(Gen(DoCode(c, b.code, t.code), b.next))
    case Break =>
      if loop.NoLoop? then Err(BreakOutsideLoop) else Ok(Gen(LoopExit(loop, index, End), c))
    case Continue =>
      if loop.NoLoop? then Err(ContinueOutsideLoop) else Ok(Gen(LoopExit(loop, index, Cont), c))
  }

  /** The loop of a `for` statement with id `id` after its header, or a
      `while` loop, which has no step (codegen.hpp:283-325); its body may
      release the stack down to slot index `index` on `break` and
      `continue`. */
  function GenLoop(id: nat, cond: Comma, body: Statement, post: Comma, back: Layout, locals: Locals, index: int, reg: Registry, c: nat): (r: Out)
    ensures r.Ok? ==> c <= r.value.next
    decreases body, 2
  {
    var t :- GenComma(cond, locals, reg, c);
    var b :- GenStatement(body, locals, index, InLoop(id, index), reg, t.next);
    var p :- GenComma(post, locals, reg, b.next);
    Ok(Gen(LoopCode(id, t.code, b.code, p.code, back), p.next))
  }

  /** The items of a compound statement from the `i`-th on, threading the
      frame (codegen.hpp:397-399); also used for a function body. */
  function GenCompoundFrom(s: Statement, i: nat, fr: Frame, loop: LoopCtx, reg: Registry, c: nat): (r: ItemsOut)
    requires s.Compound? && i <= |s.items|
    ensures r.Ok? ==> c <= r.value.next && Allocated(fr, r.value.frame)
    decreases s, 0, |s.items| - i
  {
    if i == |s.items| then Ok(Emitted(fr, [], c))
    else
      var x :- GenBlockItem(s.items[i], fr, loop, reg, c);
      var rest :- GenCompoundFrom(s, i + 1, x.frame, loop, reg, x.next);
      Ok(Emitted(rest.frame, x.code + rest.code, rest.next))
  }

  /** A block item (codegen.hpp:182-193): a statement leaves the frame as it
      was, a declaration list extends it. */
  function GenBlockItem(item: BlockItem, fr: Frame, loop: LoopCtx, reg: Registry, c: nat): (r: ItemsOut)
    ensures r.Ok? ==> c <= r.value.next && Allocated(fr, r.value.frame)
    ensures r.Ok? && item.StmtItem? ==> r.value.frame == fr
    decreases item
  {
    match item
    case StmtItem(s) =>
      var g :- GenStatement(s, fr.locals, fr.index, loop, reg, c);
      Ok(Emitted(fr, g.code, g.next))
    case DeclItem(dl) => GenDeclList(dl, fr, reg, c)
  }

  /** A declaration list (codegen.hpp:195-209). */
  function GenDeclList(dl: DeclarationList, fr: Frame, reg: Registry, c: nat): (r: ItemsOut)
    ensures r.Ok? ==> c <= r.value.next && Allocated(fr, r.value.frame)
    ensures r.Ok? ==> |r.value.frame.scope| == |fr.scope| + |dl.decls|
  {
    GenDeclsFrom(dl, 0, fr, reg, c)
  }

  function GenDeclsFrom(dl: DeclarationList, i: nat, fr: Frame, reg: Registry, c: nat): (r: ItemsOut)
    requires i <= |dl.decls|
    ensures r.Ok? ==> c <= r.value.next && Allocated(fr, r.value.frame)
    ensures r.Ok? ==> |r.value.frame.scope| == |fr.scope| + |dl.decls| - i
    decreases |dl.decls| - i
  {
    if i == |dl.decls| then Ok(Emitted(fr, [], c))
    else
      var x :- GenDeclaration(dl.decls[i], fr, reg, c);
      var rest :- GenDeclsFrom(dl, i + 1, x.frame, reg, x.next);
      Ok(Emitted(rest.frame, x.code + rest.code, rest.next))
  }

  /** A declaration (codegen.hpp:211-233): a name already in the current
      scope is rejected; otherwise the name is bound to the current slot and
      the slot index drops by four before the initialiser is generated, so
      the initialiser already sees the new binding. */
  function GenDeclaration(d: Declaration, fr: Frame, reg: Registry, c: nat): (r: ItemsOut)
    ensures r.Ok? ==> c <= r.value.next && r.value.frame == Bind(fr, d.id)
    ensures d.id in fr.scope ==> r == Err(AlreadyDeclared(d.id))
  {
    if d.id in fr.scope then Err(AlreadyDeclared(d.id))
    else
      var fr1 := Bind(fr, d.id);
      match d.init
      case None => Ok(Emitted(fr1, [SubEsp(4)], c))
      case Some(a) =>
        var g :- GenAssignment(a, fr1.locals, reg, c);
        Ok(Emitted(fr1, g.code + [Push(Eax)], g.next))
  }

  /** The frame after binding `x` to the next free slot. */
  function Bind(fr: Frame, x: Ident): Frame {
    Frame(fr.locals[x := fr.index], fr.scope + {x}, fr.index - 4)
  }

  /** A declaration of a name not yet in scope extends the frame by one slot. */
  lemma BindExtends(fr: Frame, x: Ident)
    requires x !in fr.scope
    ensures Extends(fr, Bind(fr, x))
  {
    assert |fr.scope + {x}| == |fr.scope| + 1;
  }

  lemma ExtendsTrans(fr1: Frame, fr2: Frame, fr3: Frame)
    requires Extends(fr1, fr2) && Extends(fr2, fr3)
    ensures Extends(fr1, fr3)
  {
    assert |fr3.scope| - |fr1.scope| == (|fr3.scope| - |fr2.scope|) + (|fr2.scope| - |fr1.scope|);
    forall x | x in fr3.scope && x !in fr1.scope
      ensures x in fr3.locals && fr3.index < fr3.locals[x] <= fr1.index
    {
      if x in fr2.scope {
        assert fr3.locals[x] == fr2.locals[x];
      }
    }
    forall x, y | x in fr3.scope && x !in fr1.scope && y in fr3.scope && y !in fr1.scope && x != y
      ensures fr3.locals[x] != fr3.locals[y]
    {
      if x in fr2.scope && y !in fr2.scope {
        assert fr3.locals[x] == fr2.locals[x] > fr2.index >= fr3.locals[y];
      } else if x !in fr2.scope && y in fr2.scope {
        assert fr3.locals[y] == fr2.locals[y] > fr2.index >= fr3.locals[x];
      }
    }
  }

  /** The frame after the items of a compound statement, a block item or a
      declaration list extends the frame before them. */
  lemma {:induction false} CompoundExtends(s: Statement, i: nat, fr: Frame, loop: LoopCtx, reg: Registry, c: nat)
    requires s.Compound? && i <= |s.items| && GenCompoundFrom(s, i, fr, loop, reg, c).Ok?
    ensures Extends(fr, GenCompoundFrom(s, i, fr, loop, reg, c).value.frame)
    decreases |s.items| - i
  {
    if i < |s.items| {
      var x := GenBlockItem(s.items[i], fr, loop, reg, c).value;
      BlockItemExtends(s.items[i], fr, loop, reg, c);
      CompoundExtends(s, i + 1, x.frame, loop, reg, x.next);
      ExtendsTrans(fr, x.frame, GenCompoundFrom(s, i + 1, x.frame, loop, reg, x.next).value.frame);
    }
  }

  lemma BlockItemExtends(item: BlockItem, fr: Frame, loop: LoopCtx, reg: Registry, c: nat)
    requires GenBlockItem(item, fr, loop, reg, c).Ok?
    ensures Extends(fr, GenBlockItem(item, fr, loop, reg, c).value.frame)
  {
    if item.DeclItem? {
      DeclsExtends(item.declList, 0, fr, reg, c);
    }
  }

  lemma {:induction false} DeclsExtends(dl: DeclarationList, i: nat, fr: Frame, reg: Registry, c: nat)
    requires i <= |dl.decls| && GenDeclsFrom(dl, i, fr, reg, c).Ok?
    ensures Extends(fr, GenDeclsFrom(dl, i, fr, reg, c).value.frame)
    decreases |dl.decls| - i
  {
    if i < |dl.decls| {
      var x := GenDeclaration(dl.decls[i], fr, reg, c).value;
      BindExtends(fr, dl.decls[i].id);
      DeclsExtends(dl, i + 1, x.frame, reg, x.next);
      ExtendsTrans(fr, x.frame, GenDeclsFrom(dl, i + 1, x.frame, reg, x.next).value.frame);
    }
  }

  /** Parameter `i` is at offset `8 + 4 * i` (codegen.hpp:153-162); a later
      parameter of the same name replaces an earlier one. */
  function ParamLocals(ps: seq<Param>): Locals
    decreases |ps|
  {
    if ps == [] then map[]
    else ParamLocals(ps[..|ps| - 1])[ps[|ps| - 1].name := 8 + 4 * (|ps| - 1)]
  }

  function ParamNames(ps: seq<Param>): set<Ident> {
    set p | p in ps :: p.name
  }

  /** The frame a function body starts with: its parameters bound and in
      scope, and the first local slot at -4 (codegen.hpp:126-162). */
  function EntryFrame(f: Function): Frame {
    Frame(ParamLocals(f.params), ParamNames(f.params), -4)
  }

  /** The checks against an earlier declaration of the same name
      (codegen.hpp:132-146). */
  function Redeclaration(f: Function, reg: Registry): Option<CodegenError> {
    if f.id !in reg then None
    else
      var g := reg[f.id];
      if g.defined && f.defined then Some(MultipleDefinitions(f.id))
      else if |f.params| != |g.params| then Some(ConflictingTypes(f.id))
      else if exists i :: 0 <= i < |f.params| && f.params[i].ty != g.params[i].ty then Some(ConflictingTypes(f.id))
      else None
  }

  /** The registry and code after some functions, and the label counter. */
  datatype Compiled = Compiled(reg: Registry, code: seq<Instr>, next: nat)

  /** A function (codegen.hpp:125-180): it is registered, replacing any
      earlier declaration, before its body is generated, so the body can
      call it; a prototype emits nothing. */
  function GenFunction(f: Function, reg: Registry, c: nat): (r: Result<Compiled, CodegenError>)
    ensures r.Ok? ==> c <= r.value.next && r.value.reg == reg[f.id := f]
  {
    var err := Redeclaration(f, reg);
    if err.Some? then Err(err.value)
    else
      var reg1 := reg[f.id := f];
      if !f.defined then Ok(Compiled(reg1, [], c))
      else
        var body :- GenCompoundFrom(Compound(f.items), 0, EntryFrame(f), NoLoop, reg1, c);
        Ok(Compiled(reg1, Prologue(f.id) + body.code + FallThrough, body.next))
  }

  /** The functions of a program from the `i`-th on (codegen.hpp:115-123). */
  function GenFunctionsFrom(p: Program, i: nat, reg: Registry, c: nat): (r: Result<Compiled, CodegenError>)
    requires i <= |p.functions|
    ensures r.Ok? ==> c <= r.value.next
    decreases |p.functions| - i
  {
    if i == |p.functions| then Ok(Compiled(reg, [], c))
    else
      var x :- GenFunction(p.functions[i], reg, c);
      var rest :- GenFunctionsFrom(p, i + 1, x.reg, x.next);
      Ok(Compiled(rest.reg, x.code + rest.code, rest.next))
  }

  /** A whole program, from an empty registry and the counter at 0
      (codegen.hpp:8-9). */
  function GenProgram(p: Program): Result<Compiled, CodegenError> {
    GenFunctionsFrom(p, 0, map[], 0)
  }
}
