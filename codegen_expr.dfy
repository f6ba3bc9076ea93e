/** Code generation for expressions (codegen.hpp:11-58 and 417-864).

    Every expression leaves its value in `%eax`.  The generators are pure
    except for the label counter, which only the ternary operator advances:
    each function takes the counter `c` and returns the code together with
    the counter's new value, or the error the source throws. */
module CodegenExpr {
  import opened Wrappers
  import opened Ast
  import opened Asm

  /** The errors the generator throws; `Message` gives their exact text. */
  datatype CodegenError =
    | MultipleDefinitions(fn: Ident)
    | ConflictingTypes(fn: Ident)
    | AlreadyDeclared(name: Ident)
    | BreakOutsideLoop
    | ContinueOutsideLoop
    | UsedBeforeDeclaration(name: Ident)
    | NotModifiable
    | NotDeclared(name: Ident)
    | TooManyArguments(fn: Ident)
    | TooFewArguments(fn: Ident)

  function Message(err: CodegenError): string {
    match err
    case MultipleDefinitions(f) => "multiple definitions for function: " + f + "\n"
    case ConflictingTypes(f) => "conflicting types for function: " + f + "\n"
    case AlreadyDeclared(x) => "variable '" + x + "' already declared in this scope\n"
    case BreakOutsideLoop => "encountered 'break' outside of a loop\n"
    case ContinueOutsideLoop => "encountered 'continue' outside of a loop\n"
    case UsedBeforeDeclaration(x) => "variable '" + x + "' used before declaration\n"
    case NotModifiable => "prefix operator takes a modifiable rvalue\n"
    case NotDeclared(x) => "identifier '" + x + "' not declared in this scope\n"
    case TooManyArguments(f) => "too many arguments to function: " + f + "\n"
    case TooFewArguments(f) => "too few arguments to function: " + f + "\n"
  }

  /** The symbol table: variable name to its offset from `%ebp`. */
  type Locals = map<Ident, int>

  /** The function registry: the latest declaration seen for each name. */
  type Registry = map<Ident, Function>

  /** Generated code and the label counter after it. */
  datatype Gen = Gen(code: seq<Instr>, next: nat)

  type Out = Result<Gen, CodegenError>

  /** The tail of a binary operator's template, after the second operand has
      been computed into `%eax`: some register moves, the pop of the first
      operand into `dst`, and the combining instructions. */
  datatype Tail = Tail(pre: seq<Instr>, dst: Reg, post: seq<Instr>)

  function TailCode(t: Tail): seq<Instr> {
    t.pre + [Pop(t.dst)] + t.post
  }

  /** One further operand of a binary level: push the accumulator, compute
      the operand, then combine the two. */
  function Operand(code: seq<Instr>, t: Tail): seq<Instr> {
    [Push(Eax)] + code + TailCode(t)
  }

  function Reg2(op: string, a: Reg, b: Reg): Instr {
    Op(op, [R(a), R(b)], Indented)
  }

  /** `movl $0, %eax` keeps the flags of the preceding comparison. */
  const ZeroEax: Instr := Movl(Imm(0), R(Eax))

  const OrTail: Tail := Tail([], Ecx, [Reg2("orl", Ecx, Eax), ZeroEax, Op("setne", [R(Al)], Indented)])

  const AndTail: Tail :=
    Tail([], Ecx, [Op("cmpl", [Imm(0), R(Ecx)], Indented), Op("setne", [R(Cl)], Indented),
                   CmpZero, ZeroEax, Op("setne", [R(Al)], Indented), Reg2("andb", Cl, Al)])

  const BitOrTail: Tail := Tail([], Ecx, [Reg2("orl", Ecx, Eax)])

  const XorTail: Tail := Tail([], Ecx, [Reg2("xorl", Ecx, Eax)])

  /** The source's `&` template combines into `%ecx`, not `%eax`. */
  const BitAndTail: Tail := Tail([], Ecx, [Reg2("and", Eax, Ecx)])

  /** The `set<cc>` instruction of each comparison operator (codegen.hpp:19-26). */
  function SetEq(op: EqOp): string {
    match op
    case Eq => "sete"
    case Ne => "setne"
  }

  function SetRel(op: RelOp): string {
    match op
    case Lt => "setl"
    case Gt => "setg"
    case Le => "setle"
    case Ge => "setge"
  }

  function CompareTail(setcc: string): Tail {
    Tail([], Ecx, [Reg2("cmpl", Eax, Ecx), ZeroEax, Op(setcc, [R(Al)], Indented)])
  }

  function EqTail(op: EqOp): Tail { CompareTail(SetEq(op)) }

  function RelTail(op: RelOp): Tail { CompareTail(SetRel(op)) }

  /** Operators whose first operand must end in `%eax` move the second to
      `%ecx` before popping the first. */
  function ShiftTail(op: ShiftOp): Tail {
    Tail([Reg2("movl", Eax, Ecx)], Eax, [Reg2(if op == Shl then "shl" else "shr", Cl, Eax)])
  }

  function AddTail(op: AddOp): Tail {
    match op
    case Plus => Tail([], Ecx, [Reg2("addl", Ecx, Eax)])
    case Minus => Tail([Reg2("movl", Eax, Ecx)], Eax, [Reg2("subl", Ecx, Eax)])
  }

  function MulTail(op: MulOp): Tail {
    match op
    case Times => Tail([], Ecx, [Reg2("imul", Ecx, Eax)])
    case Divide => Tail([Reg2("movl", Eax, Ecx)], Eax, [Movl(Imm(0), R(Edx)), Op("idivl", [R(Ecx)], Indented)])
    case Modulo => Tail([Reg2("movl", Eax, Ecx)], Eax, [Movl(Imm(0), R(Edx)), Op("idivl", [R(Ecx)], Indented), Reg2("movl", Edx, Eax)])
  }

  /** The unary operator table (codegen.hpp:11-17). */
  function UnaryOpCode(op: UnOp): seq<Instr> {
    match op
    case Negate => [Op("neg", [R(Eax)], Indented)]
    case Complement => [Op("not", [R(Eax)], Indented)]
    case LogicalNot => [CmpZero, ZeroEax, Op("sete", [R(Al)], Indented)]
  }

  /** The compound-assignment table (codegen.hpp:28-58), for the variable at
      `off(%ebp)`; the new value is in `%eax` afterwards. */
  function AssignOpCode(op: AssignOp, off: int): seq<Instr> {
    var v := Slot(off);
    match op
    case Set => []
    case AddSet => [Movl(v, R(Ecx)), Reg2("addl", Ecx, Eax)]
    case SubSet => [Reg2("movl", Eax, Ecx), Movl(v, R(Eax)), Reg2("subl", Ecx, Eax)]
    case MulSet => [Movl(v, R(Ecx)), Reg2("imul", Ecx, Eax)]
    case DivSet => [Reg2("movl", Eax, Ecx), Movl(Imm(0), R(Edx)), Movl(v, R(Eax)), Op("divl", [R(Ecx)], Indented)]
    case ModSet => [Reg2("movl", Eax, Ecx), Movl(Imm(0), R(Edx)), Movl(v, R(Eax)), Op("divl", [R(Ecx)], Indented), Reg2("movl", Edx, Eax)]
    case ShlSet => [Reg2("movl", Eax, Ecx), Movl(v, R(Eax)), Reg2("shl", Cl, Eax)]
    case ShrSet => [Reg2("movl", Eax, Ecx), Movl(v, R(Eax)), Reg2("shr", Cl, Eax)]
    case AndSet => [Movl(v, R(Ecx)), Reg2("andl", Ecx, Eax)]
    case XorSet => [Movl(v, R(Ecx)), Reg2("xorl", Ecx, Eax)]
    case OrSet => [Movl(v, R(Ecx)), Reg2("orl", Ecx, Eax)]
  }

  function IncDecMnemonic(op: IncDec): string {
    if op == Increment then "incl" else "decl"
  }

  /** The two-way branch shared by `if` and `?:` with construct id `id`:
      test `%eax`, run `a` when it is non-zero and `b` otherwise. */
  function Branch(id: nat, a: seq<Instr>, b: seq<Instr>): seq<Instr> {
    [CmpZero, Je(CtlLabel(Else, id))] + a + [Jmp(CtlLabel(End, id), Indented), Label(CtlLabel(Else, id))]
    + b + [Label(CtlLabel(End, id))]
  }

  /** The comma expression: nothing for an omitted expression, otherwise
      each assignment in turn (codegen.hpp:417-427). */
  function GenComma(e: Comma, locals: Locals, reg: Registry, c: nat): (r: Out)
    ensures r.Ok? ==> c <= r.value.next
    decreases e, 1
  {
    if e.NullComma? then Ok(Gen([], c)) else GenCommaFrom(e, 0, locals, reg, c)
  }

  function GenCommaFrom(e: Comma, i: nat, locals: Locals, reg: Registry, c: nat): (r: Out)
    requires e.CommaList? && i <= |e.items|
    ensures r.Ok? ==> c <= r.value.next
    decreases e, 0, |e.items| - i
  {
    if i == |e.items| then Ok(Gen([], c))
    else
      var x :- GenAssignment(e.items[i], locals, reg, c);
      var tail :- GenCommaFrom(e, i + 1, locals, reg, x.next);
      Ok(Gen(x.code + tail.code, tail.next))
  }

  /** An assignment checks its target before generating the right-hand side
      (codegen.hpp:429-452). */
  function GenAssignment(e: Assignment, locals: Locals, reg: Registry, c: nat): (r: Out)
    ensures r.Ok? ==> c <= r.value.next
    decreases e, 1
  {
    match e
    case AssignCond(cond) => GenConditional(cond, locals, reg, c)
    case Assign(x, op, value) =>
      if x !in locals then Err(UsedBeforeDeclaration(x))
      else
        var v :- GenAssignment(value, locals, reg, c);
        Ok(Gen(v.code + AssignOpCode(op, locals[x]) + [Movl(R(Eax), Slot(locals[x]))], v.next))
  }

  /** The ternary takes its id after its condition has been generated
      (codegen.hpp:454-480). */
  function GenConditional(e: Conditional, locals: Locals, reg: Registry, c: nat): (r: Out)
    ensures r.Ok? ==> c <= r.value.next
    decreases e, 1
  {
    match e
    case CondOr(or) => GenLogicOr(or, locals, reg, c)
    case Ternary(test, ifTrue, ifFalse) =>
      var t :- GenLogicOr(test, locals, reg, c);
      var id := t.next;
      var a :- GenComma(ifTrue, locals, reg, id + 1);
      var b :- GenConditional(ifFalse, locals, reg, a.next);
      Ok(Gen(t.code + Branch(id, a.code, b.code), b.next))
  }

  /** `||`: the operands are or-ed and the result normalised to 0 or 1 (codegen.hpp:482-505): the first operand, then for every further operand the
      accumulator is pushed, the operand computed and the pair combined. */
  function GenLogicOr(e: LogicOr, locals: Locals, reg: Registry, c: nat): (r: Out)
    ensures r.Ok? ==> c <= r.value.next
    decreases e, 1
  {
    var first :- GenLogicAnd(e.first, locals, reg, c);
    var rest :- GenLogicOrRest(e, 0, locals, reg, first.next);
    Ok(Gen(first.code + rest.code, rest.next))
  }

  function GenLogicOrRest(e: LogicOr, i: nat, locals: Locals, reg: Registry, c: nat): (r: Out)
    requires i <= |e.rest|
    ensures r.Ok? ==> c <= r.value.next
    decreases e, 0, |e.rest| - i
  {
    if i == |e.rest| then Ok(Gen([], c))
    else
      var x :- GenLogicAnd(e.rest[i], locals, reg, c);
      var tail :- GenLogicOrRest(e, i + 1, locals, reg, x.next);
      Ok(Gen(Operand(x.code, OrTail) + tail.code, tail.next))
  }

  /** `&&`: both operands normalised to 0 or 1 and and-ed (codegen.hpp:507-533): the first operand, then for every further operand the
      accumulator is pushed, the operand computed and the pair combined. */
  function GenLogicAnd(e: LogicAnd, locals: Locals, reg: Registry, c: nat): (r: Out)
    ensures r.Ok? ==> c <= r.value.next
    decreases e, 1
  {
    var first :- GenBitOr(e.first, locals, reg, c);
    var rest :- GenLogicAndRest(e, 0, locals, reg, first.next);
    Ok(Gen(first.code + rest.code, rest.next))
  }

  function GenLogicAndRest(e: LogicAnd, i: nat, locals: Locals, reg: Registry, c: nat): (r: Out)
    requires i <= |e.rest|
    ensures r.Ok? ==> c <= r.value.next
    decreases e, 0, |e.rest| - i
  {
    if i == |e.rest| then Ok(Gen([], c))
    else
      var x :- GenBitOr(e.rest[i], locals, reg, c);
      var tail :- GenLogicAndRest(e, i + 1, locals, reg, x.next);
      Ok(Gen(Operand(x.code, AndTail) + tail.code, tail.next))
  }

  /** `|` (codegen.hpp:535-556): the first operand, then for every further operand the
      accumulator is pushed, the operand computed and the pair combined. */
  function GenBitOr(e: BitOr, locals: Locals, reg: Registry, c: nat): (r: Out)
    ensures r.Ok? ==> c <= r.value.next
    decreases e, 1
  {
    var first :- GenBitXor(e.first, locals, reg, c);
    var rest :- GenBitOrRest(e, 0, locals, reg, first.next);
    Ok(Gen(first.code + rest.code, rest.next))
  }

  function GenBitOrRest(e: BitOr, i: nat, locals: Locals, reg: Registry, c: nat): (r: Out)
    requires i <= |e.rest|
    ensures r.Ok? ==> c <= r.value.next
    decreases e, 0, |e.rest| - i
  {
    if i == |e.rest| then Ok(Gen([], c))
    else
      var x :- GenBitXor(e.rest[i], locals, reg, c);
      var tail :- GenBitOrRest(e, i + 1, locals, reg, x.next);
      Ok(Gen(Operand(x.code, BitOrTail) + tail.code, tail.next))
  }

  /** `^` (codegen.hpp:558-579): the first operand, then for every further operand the
      accumulator is pushed, the operand computed and the pair combined. */
  function GenBitXor(e: BitXor, locals: Locals, reg: Registry, c: nat): (r: Out)
    ensures r.Ok? ==> c <= r.value.next
    decreases e, 1
  {
    var first :- GenBitAnd(e.first, locals, reg, c);
    var rest :- GenBitXorRest(e, 0, locals, reg, first.next);
    Ok(Gen(first.code + rest.code, rest.next))
  }

  function GenBitXorRest(e: BitXor, i: nat, locals: Locals, reg: Registry, c: nat): (r: Out)
    requires i <= |e.rest|
    ensures r.Ok? ==> c <= r.value.next
    decreases e, 0, |e.rest| - i
  {
    if i == |e.rest| then Ok(Gen([], c))
    else
      var x :- GenBitAnd(e.rest[i], locals, reg, c);
      var tail :- GenBitXorRest(e, i + 1, locals, reg, x.next);
      Ok(Gen(Operand(x.code, XorTail) + tail.code, tail.next))
  }

  /** `&` (codegen.hpp:581-602): the first operand, then for every further operand the
      accumulator is pushed, the operand computed and the pair combined. */
  function GenBitAnd(e: BitAnd, locals: Locals, reg: Registry, c: nat): (r: Out)
    ensures r.Ok? ==> c <= r.value.next
    decreases e, 1
  {
    var first :- GenEquality(e.first, locals, reg, c);
    var rest :- GenBitAndRest(e, 0, locals, reg, first.next);
    Ok(Gen(first.code + rest.code, rest.next))
  }

  function GenBitAndRest(e: BitAnd, i: nat, locals: Locals, reg: Registry, c: nat): (r: Out)
    requires i <= |e.rest|
    ensures r.Ok? ==> c <= r.value.next
    decreases e, 0, |e.rest| - i
  {
    if i == |e.rest| then Ok(Gen([], c))
    else
      var x :- GenEquality(e.rest[i], locals, reg, c);
      var tail :- GenBitAndRest(e, i + 1, locals, reg, x.next);
      Ok(Gen(Operand(x.code, BitAndTail) + tail.code, tail.next))
  }

  /** `==`, `!=` (codegen.hpp:604-627): the first operand, then for every further operand the
      accumulator is pushed, the operand computed and the pair combined. */
  function GenEquality(e: Equality, locals: Locals, reg: Registry, c: nat): (r: Out)
    ensures r.Ok? ==> c <= r.value.next
    decreases e, 1
  {
    var first :- GenRelational(e.first, locals, reg, c);
    var rest :- GenEqualityRest(e, 0, locals, reg, first.next);
    Ok(Gen(first.code + rest.code, rest.next))
  }

  function GenEqualityRest(e: Equality, i: nat, locals: Locals, reg: Registry, c: nat): (r: Out)
    requires i <= |e.rest|
    ensures r.Ok? ==> c <= r.value.next
    decreases e, 0, |e.rest| - i
  {
    if i == |e.rest| then Ok(Gen([], c))
    else
      var x :- GenRelational(e.rest[i].1, locals, reg, c);
      var tail :- GenEqualityRest(e, i + 1, locals, reg, x.next);
      Ok(Gen(Operand(x.code, EqTail(e.rest[i].0)) + tail.code, tail.next))
  }

  /** `<`, `>`, `<=`, `>=` (codegen.hpp:629-652): the first operand, then for every further operand the
      accumulator is pushed, the operand computed and the pair combined. */
  function GenRelational(e: Relational, locals: Locals, reg: Registry, c: nat): (r: Out)
    ensures r.Ok? ==> c <= r.value.next
    decreases e, 1
  {
    var first :- GenShift(e.first, locals, reg, c);
    var rest :- GenRelationalRest(e, 0, locals, reg, first.next);
    Ok(Gen(first.code + rest.code, rest.next))
  }

  function GenRelationalRest(e: Relational, i: nat, locals: Locals, reg: Registry, c: nat): (r: Out)
    requires i <= |e.rest|
    ensures r.Ok? ==> c <= r.value.next
    decreases e, 0, |e.rest| - i
  {
    if i == |e.rest| then Ok(Gen([], c))
    else
      var x :- GenShift(e.rest[i].1, locals, reg, c);
      var tail :- GenRelationalRest(e, i + 1, locals, reg, x.next);
      Ok(Gen(Operand(x.code, RelTail(e.rest[i].0)) + tail.code, tail.next))
  }

  /** `<<`, `>>` (codegen.hpp:654-688): the first operand, then for every further operand the
      accumulator is pushed, the operand computed and the pair combined. */
  function GenShift(e: Shift, locals: Locals, reg: Registry, c: nat): (r: Out)
    ensures r.Ok? ==> c <= r.value.next
    decreases e, 1
  {
    var first :- GenAdditive(e.first, locals, reg, c);
    var rest :- GenShiftRest(e, 0, locals, reg, first.next);
    Ok(Gen(first.code + rest.code, rest.next))
  }

  function GenShiftRest(e: Shift, i: nat, locals: Locals, reg: Registry, c: nat): (r: Out)
    requires i <= |e.rest|
    ensures r.Ok? ==> c <= r.value.next
    decreases e, 0, |e.rest| - i
  {
    if i == |e.rest| then Ok(Gen([], c))
    else
      var x :- GenAdditive(e.rest[i].1, locals, reg, c);
      var tail :- GenShiftRest(e, i + 1, locals, reg, x.next);
      Ok(Gen(Operand(x.code, ShiftTail(e.rest[i].0)) + tail.code, tail.next))
  }

  /** `+`, `-` (codegen.hpp:690-724): the first operand, then for every further operand the
      accumulator is pushed, the operand computed and the pair combined. */
  function GenAdditive(e: Additive, locals: Locals, reg: Registry, c: nat): (r: Out)
    ensures r.Ok? ==> c <= r.value.next
    decreases e, 1
  {
    var first :- GenMult(e.first, locals, reg, c);
    var rest :- GenAdditiveRest(e, 0, locals, reg, first.next);
    Ok(Gen(first.code + rest.code, rest.next))
  }

  function GenAdditiveRest(e: Additive, i: nat, locals: Locals, reg: Registry, c: nat): (r: Out)
    requires i <= |e.rest|
    ensures r.Ok? ==> c <= r.value.next
    decreases e, 0, |e.rest| - i
  {
    if i == |e.rest| then Ok(Gen([], c))
    else
      var x :- GenMult(e.rest[i].1, locals, reg, c);
      var tail :- GenAdditiveRest(e, i + 1, locals, reg, x.next);
      Ok(Gen(Operand(x.code, AddTail(e.rest[i].0)) + tail.code, tail.next))
  }

  /** `*`, `/`, `%` (codegen.hpp:726-768): the first operand, then for every further operand the
      accumulator is pushed, the operand computed and the pair combined. */
  function GenMult(e: Mult, locals: Locals, reg: Registry, c: nat): (r: Out)
    ensures r.Ok? ==> c <= r.value.next
    decreases e, 1
  {
    var first :- GenUnary(e.first, locals, reg, c);
    var rest :- GenMultRest(e, 0, locals, reg, first.next);
    Ok(Gen(first.code + rest.code, rest.next))
  }

  function GenMultRest(e: Mult, i: nat, locals: Locals, reg: Registry, c: nat): (r: Out)
    requires i <= |e.rest|
    ensures r.Ok? ==> c <= r.value.next
    decreases e, 0, |e.rest| - i
  {
    if i == |e.rest| then Ok(Gen([], c))
    else
      var x :- GenUnary(e.rest[i].1, locals, reg, c);
      var tail :- GenMultRest(e, i + 1, locals, reg, x.next);
      Ok(Gen(Operand(x.code, MulTail(e.rest[i].0)) + tail.code, tail.next))
  }

  /** Unary expressions (codegen.hpp:770-797).  Prefix `++`/`--` update the
      variable in memory and reload it; the reload line has no indent. */
  function GenUnary(e: Unary, locals: Locals, reg: Registry, c: nat): (r: Out)
    ensures r.Ok? ==> c <= r.value.next
    decreases e, 1
  {
    match e
    case UPostfix(p) => GenPostfix(p, locals, reg, c)
    case UPrefix(op, x) =>
      if x !in locals then Err(NotModifiable)
      else Ok(Gen([Op(IncDecMnemonic(op), [Slot(locals[x])], Indented), Op("movl", [Slot(locals[x]), R(Eax)], Flush)], c))
    case UOp(op, operand) =>
      var v :- GenUnary(operand, locals, reg, c);
      Ok(Gen(v.code + UnaryOpCode(op), v.next))
  }

  /** The offset postfix `++`/`--` use: the source reads the table without a
      membership check, and a missing name reads as offset 0. */
  function PostfixSlot(locals: Locals, x: Ident): int {
    if x in locals then locals[x] else 0
  }

  /** Postfix expressions and primaries (codegen.hpp:799-864).  A floating
      constant has no case of its own and falls into the call branch with
      an empty callee name and no arguments. */
  function GenPostfix(e: Postfix, locals: Locals, reg: Registry, c: nat): (r: Out)
    ensures r.Ok? ==> c <= r.value.next
    decreases e, 1
  {
    match e
    case ConstInt(v) => Ok(Gen([Movl(Imm(v), R(Eax))], c))
    case Variable(x) =>
      if x !in locals then Err(NotDeclared(x)) else Ok(Gen([Movl(Slot(locals[x]), R(Eax))], c))
    case PostIncDec(op, x) =>
      var off := PostfixSlot(locals, x);
      Ok(Gen([Movl(Slot(off), R(Eax)), Op(IncDecMnemonic(op), [Slot(off)], Indented)], c))
    case Bracket(inner) => GenComma(inner, locals, reg, c)
    case ConstFloat => Ok(Gen(CallSequence("", [], 0), c))
    case FunCall(f, args) =>
      if f in reg && |args| > |reg[f].params| then Err(TooManyArguments(f))
      else if f in reg && |args| < |reg[f].params| then Err(TooFewArguments(f))
      else
        var pushed :- GenCallArgs(e, |args|, locals, reg, c);
        Ok(Gen(CallSequence(f, pushed.code, |args|), pushed.next))
  }

  /** The arguments pushed, the call, and the caller's cleanup of `n`
      arguments, which is omitted when there are none. */
  function CallSequence(f: Ident, pushed: seq<Instr>, n: nat): seq<Instr> {
    pushed + [Call(f)] + (if n > 0 then [AddEsp(4 * n)] else [])
  }

  /** The first `k` arguments of a call, generated from the rightmost one
      down, each followed by `pushl %eax`. */
  function GenCallArgs(e: Postfix, k: nat, locals: Locals, reg: Registry, c: nat): (r: Out)
    requires e.FunCall? && k <= |e.args|
    ensures r.Ok? ==> c <= r.value.next
    decreases e, 0, k
  {
    if k == 0 then Ok(Gen([], c))
    else
      var a :- GenAssignment(e.args[k - 1], locals, reg, c);
      var rest :- GenCallArgs(e, k - 1, locals, reg, a.next);
      Ok(Gen(a.code + [Push(Eax)] + rest.code, rest.next))
  }
}
