/** The abstract syntax tree walked by the code generator and the type checker.

    The C++ tree uses one class per precedence level with string tags
    (`exp_type`, `statement_type`, `item_type`); here every level is a closed
    datatype.  A binary level keeps its first operand and the list of
    (operator, operand) pairs that follow it, so that it always has one
    operator fewer than operands; the levels whose operator is fixed
    (`||`, `&&`, `|`, `^`, `&`) keep only the operands. */
module Ast {
  import opened Wrappers

  type Ident = string
  type TypeName = string

  /** The eleven assignment operators `= += -= *= /= %= <<= >>= &= ^= |=`. */
  datatype AssignOp = Set | AddSet | SubSet | MulSet | DivSet | ModSet | ShlSet | ShrSet | AndSet | XorSet | OrSet

  datatype EqOp = Eq | Ne
  datatype RelOp = Lt | Gt | Le | Ge
  datatype ShiftOp = Shl | Shr
  datatype AddOp = Plus | Minus
  datatype MulOp = Times | Divide | Modulo
  /** Prefix operators other than `++`/`--`: `-`, `~`, `!`. */
  datatype UnOp = Negate | Complement | LogicalNot
  datatype IncDec = Increment | Decrement

  /** `exp_type == "null"` (an omitted expression) or a comma-separated list. */
  datatype Comma = NullComma | CommaList(items: seq<Assignment>)

  datatype Assignment =
    | AssignCond(cond: Conditional)
    | Assign(target: Ident, op: AssignOp, value: Assignment)

  datatype Conditional =
    | CondOr(or: LogicOr)
    | Ternary(test: LogicOr, ifTrue: Comma, ifFalse: Conditional)

  datatype LogicOr = LogicOr(first: LogicAnd, rest: seq<LogicAnd>)
  datatype LogicAnd = LogicAnd(first: BitOr, rest: seq<BitOr>)
  datatype BitOr = BitOr(first: BitXor, rest: seq<BitXor>)
  datatype BitXor = BitXor(first: BitAnd, rest: seq<BitAnd>)
  datatype BitAnd = BitAnd(first: Equality, rest: seq<Equality>)
  datatype Equality = Equality(first: Relational, rest: seq<(EqOp, Relational)>)
  datatype Relational = Relational(first: Shift, rest: seq<(RelOp, Shift)>)
  datatype Shift = Shift(first: Additive, rest: seq<(ShiftOp, Additive)>)
  datatype Additive = Additive(first: Mult, rest: seq<(AddOp, Mult)>)
  datatype Mult = Mult(first: Unary, rest: seq<(MulOp, Unary)>)

  datatype Unary =
    | UPostfix(postfix: Postfix)
    | UPrefix(incDec: IncDec, id: Ident)          // ++x, --x
    | UOp(op: UnOp, operand: Unary)               // -e, ~e, !e

  datatype Postfix =
    | ConstInt(value: int)
    | ConstFloat
    | Variable(id: Ident)
    | PostIncDec(incDec: IncDec, id: Ident)       // x++, x--
    | Bracket(inner: Comma)                       // ( e )
    | FunCall(callee: Ident, args: seq<Assignment>)

  datatype Declaration = Declaration(id: Ident, init: Option<Assignment>)
  /** `int a = 1, b;` : one type shared by one or more declarations. */
  datatype DeclarationList = DeclarationList(varType: TypeName, decls: seq<Declaration>)

  datatype BlockItem = DeclItem(declList: DeclarationList) | StmtItem(stmt: Statement)

  datatype Statement =
    | ExprStmt(expr: Comma)
    | Return(expr: Comma)
    | If(cond: Comma, thenS: Statement, elseS: Statement)   // a missing else is ExprStmt(NullComma)
    | Compound(items: seq<BlockItem>)
    | ForExpr(init: Comma, cond: Comma, post: Comma, body: Statement)
    | ForDecl(header: DeclarationList, cond: Comma, post: Comma, body: Statement)
    | While(cond: Comma, body: Statement)
    | DoWhile(body: Statement, cond: Comma)
    | Break
    | Continue

  /** A parameter: its type and its (possibly empty, in a prototype) name. */
  datatype Param = Param(ty: TypeName, name: Ident)

  datatype Function = Function(returnType: TypeName, id: Ident, params: seq<Param>, defined: bool, items: seq<BlockItem>)

  datatype Program = Program(functions: seq<Function>)
}
