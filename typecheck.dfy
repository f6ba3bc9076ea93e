/** The type checker (typechecker.hpp): a validator over the same tree as the
    code generator.  Every expression gets a type name; a few operators
    demand `int` operands; names must be declared and called functions
    must come earlier in the program.  The rank of each type name (the
    `types` table the source consults) is not part of the model and is a
    parameter: a total function, as a `std::map` lookup of a missing key
    yields 0. */
module Typecheck {
  import opened Wrappers
  import opened Ast

  /** `local_types`: the declared type of each visible variable. */
  type Scope = map<Ident, TypeName>

  /** The rank table, and `ast_functions`: the functions registered so far. */
  datatype Env = Env(rank: TypeName -> int, functions: map<Ident, Function>)

  datatype TypeError =
    | InvalidOperand(op: string, got: TypeName)
    | BadComplement
    | Undefined(name: Ident)
    | UnknownFunction(fn: Ident)

  function Message(err: TypeError): string {
    match err
    case InvalidOperand(op, t) => "invalid operand for binary " + op + ": got '" + t + "' \n"
    case BadComplement => "wrong type argument to bit-complement\n"
    case Undefined(x) => "indentifier '" + x + "' not defined in this scope\n"
    case UnknownFunction(f) => "function '" + f + "' not defined\n"
  }

  type TypeOut = Result<TypeName, TypeError>
  type Checked = Result<(), TypeError>

  const Int: TypeName := "int"
  const Float: TypeName := "float"
  const Void: TypeName := "void"
  /** The type an expression node has when the checker never sets it. */
  const Unset: TypeName := ""

  function EqName(op: EqOp): string {
    match op
    case Eq => "=="
    case Ne => "!="
  }

  function RelName(op: RelOp): string {
    match op
    case Lt => "<"
    case Gt => ">"
    case Le => "<="
    case Ge => ">="
  }

  function ShiftName(op: ShiftOp): string {
    match op
    case Shl => "<<"
    case Shr => ">>"
  }

  /** `typecheck_get_compatible_type` (typechecker.hpp:16-22): the type of
      lower rank, the second on a tie, either when they are equal. */
  function Compatible(rank: TypeName -> int, t1: TypeName, t2: TypeName): (r: TypeName)
    ensures r == t1 || r == t2
    ensures rank(r) <= rank(t1) && rank(r) <= rank(t2)
  {
    if t1 == t2 then t1 else if rank(t1) < rank(t2) then t1 else t2
  }

  /** The type a name has in the scope, or the empty type name that
      `local_types[x]` yields for a name not declared. */
  function Lookup(scope: Scope, x: Ident): TypeName {
    if x in scope then scope[x] else Unset
  }

  /** The comma expression (typechecker.hpp:94-106): `void` when omitted,
      otherwise the type of the last assignment. */
  function TypeComma(e: Comma, scope: Scope, env: Env): (r: TypeOut)
    decreases e, 1
  {
    if e.NullComma? then Ok(Void) else TypeCommaFrom(e, 0, Unset, scope, env)
  }

  /** The assignments from the `i`-th on, with `last` the type of the one
      before. */
  function TypeCommaFrom(e: Comma, i: nat, last: TypeName, scope: Scope, env: Env): (r: TypeOut)
    requires e.CommaList? && i <= |e.items|
    decreases e, 0, |e.items| - i
  {
    if i == |e.items| then Ok(last)
    else
      var t :- TypeAssignment(e.items[i], scope, env);
      TypeCommaFrom(e, i + 1, t, scope, env)
  }

  /** An assignment has the compatible type of its value and its target; an
      undeclared target is not an error here (typechecker.hpp:107-116). */
  function TypeAssignment(e: Assignment, scope: Scope, env: Env): (r: TypeOut)
    decreases e, 1
  {
    match e
    case AssignCond(c) => TypeConditional(c, scope, env)
    case Assign(x, op, value) =>
      var t :- TypeAssignment(value, scope, env);
      Ok(Compatible(env.rank, t, Lookup(scope, x)))
  }

  /** The ternary checks its test and has the compatible type of its two
      branches (typechecker.hpp:117-129). */
  function TypeConditional(e: Conditional, scope: Scope, env: Env): (r: TypeOut)
    decreases e, 1
  {
    match e
    case CondOr(or) => TypeLogicOr(or, scope, env)
    case Ternary(test, ifTrue, ifFalse) =>
      var c :- TypeLogicOr(test, scope, env);
      var t1 :- TypeComma(ifTrue, scope, env);
      var t2 :- TypeConditional(ifFalse, scope, env);
      Ok(Compatible(env.rank, t1, t2))
  }

  /** `||` (typechecker.hpp:130-142): a single operand gives its type; with
      several, every operand is checked but the result type is never set. */
  function TypeLogicOr(e: LogicOr, scope: Scope, env: Env): (r: TypeOut)
    decreases e, 1
  {
    if |e.rest| == 0 then TypeLogicAnd(e.first, scope, env)
    else
      var t :- TypeLogicAnd(e.first, scope, env);
      var u :- TypeLogicOrRest(e, 0, scope, env);
      Ok(Unset)
  }

  function TypeLogicOrRest(e: LogicOr, i: nat, scope: Scope, env: Env): (r: Checked)
    requires i <= |e.rest|
    decreases e, 0, |e.rest| - i
  {
    if i == |e.rest| then Ok(())
    else
      var t :- TypeLogicAnd(e.rest[i], scope, env);
      TypeLogicOrRest(e, i + 1, scope, env)
  }

  /** `&&` (typechecker.hpp:143-155): a single operand gives its type; with
      several, every operand is checked but the result type is never set. */
  function TypeLogicAnd(e: LogicAnd, scope: Scope, env: Env): (r: TypeOut)
    decreases e, 1
  {
    if |e.rest| == 0 then TypeBitOr(e.first, scope, env)
    else
      var t :- TypeBitOr(e.first, scope, env);
      var u :- TypeLogicAndRest(e, 0, scope, env);
      Ok(Unset)
  }

  function TypeLogicAndRest(e: LogicAnd, i: nat, scope: Scope, env: Env): (r: Checked)
    requires i <= |e.rest|
    decreases e, 0, |e.rest| - i
  {
    if i == |e.rest| then Ok(())
    else
      var t :- TypeBitOr(e.rest[i], scope, env);
      TypeLogicAndRest(e, i + 1, scope, env)
  }

  /** typechecker.hpp:156-172: with several operands each must be `int`, checked left to right. */
  function TypeBitOr(e: BitOr, scope: Scope, env: Env): (r: TypeOut)
    decreases e, 1
  {
    if |e.rest| == 0 then TypeBitXor(e.first, scope, env)
    else
      var t :- TypeBitXor(e.first, scope, env);
      if t != Int then Err(InvalidOperand("|", t))
      else
        var u :- TypeBitOrRest(e, 0, scope, env);
        Ok(Int)
  }

  function TypeBitOrRest(e: BitOr, i: nat, scope: Scope, env: Env): (r: Checked)
    requires i <= |e.rest|
    decreases e, 0, |e.rest| - i
  {
    if i == |e.rest| then Ok(())
    else
      var t :- TypeBitXor(e.rest[i], scope, env);
      if t != Int then Err(InvalidOperand("|", t)) else TypeBitOrRest(e, i + 1, scope, env)
  }

  /** typechecker.hpp:173-189: with several operands each must be `int`, checked left to right. */
  function TypeBitXor(e: BitXor, scope: Scope, env: Env): (r: TypeOut)
    decreases e, 1
  {
    if |e.rest| == 0 then TypeBitAnd(e.first, scope, env)
    else
      var t :- TypeBitAnd(e.first, scope, env);
      if t != Int then Err(InvalidOperand("^", t))
      else
        var u :- TypeBitXorRest(e, 0, scope, env);
        Ok(Int)
  }

  function TypeBitXorRest(e: BitXor, i: nat, scope: Scope, env: Env): (r: Checked)
    requires i <= |e.rest|
    decreases e, 0, |e.rest| - i
  {
    if i == |e.rest| then Ok(())
    else
      var t :- TypeBitAnd(e.rest[i], scope, env);
      if t != Int then Err(InvalidOperand("^", t)) else TypeBitXorRest(e, i + 1, scope, env)
  }

  /** typechecker.hpp:190-206: with several operands each must be `int`, checked left to right. */
  function TypeBitAnd(e: BitAnd, scope: Scope, env: Env): (r: TypeOut)
    decreases e, 1
  {
    if |e.rest| == 0 then TypeEquality(e.first, scope, env)
    else
      var t :- TypeEquality(e.first, scope, env);
      if t != Int then Err(InvalidOperand("|", t))
      else
        var u :- TypeBitAndRest(e, 0, scope, env);
        Ok(Int)
  }

  function TypeBitAndRest(e: BitAnd, i: nat, scope: Scope, env: Env): (r: Checked)
    requires i <= |e.rest|
    decreases e, 0, |e.rest| - i
  {
    if i == |e.rest| then Ok(())
    else
      var t :- TypeEquality(e.rest[i], scope, env);
      if t != Int then Err(InvalidOperand("|", t)) else TypeBitAndRest(e, i + 1, scope, env)
  }

  /** typechecker.hpp:207-231: with several operands each must be `int`; the error names the
      operator before the operand, and the first operator for the first operand. */
  function TypeEquality(e: Equality, scope: Scope, env: Env): (r: TypeOut)
    decreases e, 1
  {
    if |e.rest| == 0 then TypeRelational(e.first, scope, env)
    else
      var t :- TypeRelational(e.first, scope, env);
      if t != Int then Err(InvalidOperand(EqName(e.rest[0].0), t))
      else
        var u :- TypeEqualityRest(e, 0, scope, env);
        Ok(Int)
  }

  function TypeEqualityRest(e: Equality, i: nat, scope: Scope, env: Env): (r: Checked)
    requires i <= |e.rest|
    decreases e, 0, |e.rest| - i
  {
    if i == |e.rest| then Ok(())
    else
      var t :- TypeRelational(e.rest[i].1, scope, env);
      if t != Int then Err(InvalidOperand(EqName(e.rest[i].0), t)) else TypeEqualityRest(e, i + 1, scope, env)
  }

  /** typechecker.hpp:232-256: with several operands each must be `int`; the error names the
      operator before the operand, and the first operator for the first operand. */
  function TypeRelational(e: Relational, scope: Scope, env: Env): (r: TypeOut)
    decreases e, 1
  {
    if |e.rest| == 0 then TypeShift(e.first, scope, env)
    else
      var t :- TypeShift(e.first, scope, env);
      if t != Int then Err(InvalidOperand(RelName(e.rest[0].0), t))
      else
        var u :- TypeRelationalRest(e, 0, scope, env);
        Ok(Int)
  }

  function TypeRelationalRest(e: Relational, i: nat, scope: Scope, env: Env): (r: Checked)
    requires i <= |e.rest|
    decreases e, 0, |e.rest| - i
  {
    if i == |e.rest| then Ok(())
    else
      var t :- TypeShift(e.rest[i].1, scope, env);
      if t != Int then Err(InvalidOperand(RelName(e.rest[i].0), t)) else TypeRelationalRest(e, i + 1, scope, env)
  }

  /** typechecker.hpp:257-281: with several operands each must be `int`; the error names the
      operator before the operand, and the first operator for the first operand. */
  function TypeShift(e: Shift, scope: Scope, env: Env): (r: TypeOut)
    decreases e, 1
  {
    if |e.rest| == 0 then TypeAdditive(e.first, scope, env)
    else
      var t :- TypeAdditive(e.first, scope, env);
      if t != Int then Err(InvalidOperand(ShiftName(e.rest[0].0), t))
      else
        var u :- TypeShiftRest(e, 0, scope, env);
        Ok(Int)
  }

  function TypeShiftRest(e: Shift, i: nat, scope: Scope, env: Env): (r: Checked)
    requires i <= |e.rest|
    decreases e, 0, |e.rest| - i
  {
    if i == |e.rest| then Ok(())
    else
      var t :- TypeAdditive(e.rest[i].1, scope, env);
      if t != Int then Err(InvalidOperand(ShiftName(e.rest[i].0), t)) else TypeShiftRest(e, i + 1, scope, env)
  }

  /** typechecker.hpp:282-301: the compatible type of the operands, folded left to right. */
  function TypeAdditive(e: Additive, scope: Scope, env: Env): (r: TypeOut)
    decreases e, 1
  {
    if |e.rest| == 0 then TypeMult(e.first, scope, env)
    else
      var t :- TypeMult(e.first, scope, env);
      TypeAdditiveRest(e, 0, t, scope, env)
  }

  /** The fold from the `i`-th further operand on, with `acc` the type so far. */
  function TypeAdditiveRest(e: Additive, i: nat, acc: TypeName, scope: Scope, env: Env): (r: TypeOut)
    requires i <= |e.rest|
    decreases e, 0, |e.rest| - i
  {
    if i == |e.rest| then Ok(acc)
    else
      var t :- TypeMult(e.rest[i].1, scope, env);
      TypeAdditiveRest(e, i + 1, if t != acc then Compatible(env.rank, t, acc) else acc, scope, env)
  }

  /** typechecker.hpp:302-321: the compatible type of the operands, folded left to right. */
  function TypeMult(e: Mult, scope: Scope, env: Env): (r: TypeOut)
    decreases e, 1
  {
    if |e.rest| == 0 then TypeUnary(e.first, scope, env)
    else
      var t :- TypeUnary(e.first, scope, env);
      TypeMultRest(e, 0, t, scope, env)
  }

  /** The fold from the `i`-th further operand on, with `acc` the type so far. */
  function TypeMultRest(e: Mult, i: nat, acc: TypeName, scope: Scope, env: Env): (r: TypeOut)
    requires i <= |e.rest|
    decreases e, 0, |e.rest| - i
  {
    if i == |e.rest| then Ok(acc)
    else
      var t :- TypeUnary(e.rest[i].1, scope, env);
      TypeMultRest(e, i + 1, if t != acc then Compatible(env.rank, t, acc) else acc, scope, env)
  }

  /** Unary expressions (typechecker.hpp:322-337): a prefix `++`/`--` has
      the variable's type without a declaration check; `~` demands `int`. */
  function TypeUnary(e: Unary, scope: Scope, env: Env): (r: TypeOut)
    decreases e, 1
  {
    match e
    case UPostfix(p) => TypePostfix(p, scope, env)
    case UPrefix(op, x) => Ok(Lookup(scope, x))
    case UOp(op, operand) =>
      var t :- TypeUnary(operand, scope, env);
      if op == Complement && t != Int then Err(BadComplement) else Ok(t)
  }

  /** A variable read: an undeclared name is an error. */
  function TypeVariable(scope: Scope, x: Ident): (r: TypeOut) {
    if x !in scope then Err(Undefined(x)) else Ok(scope[x])
  }

  /** Postfix expressions and primaries (typechecker.hpp:338-366).  The
      operand of a postfix `++`/`--` is checked as a variable read.  A call
      needs its callee registered already, has the callee's return type,
      and checks its arguments after the callee. */
  function TypePostfix(e: Postfix, scope: Scope, env: Env): (r: TypeOut)
    decreases e, 1
  {
    match e
    case ConstInt(_) => Ok(Int)
    case ConstFloat => Ok(Float)
    case Variable(x) => TypeVariable(scope, x)
    case PostIncDec(_, x) => TypeVariable(scope, x)
    case Bracket(inner) => TypeComma(inner, scope, env)
    case FunCall(f, args) =>
      if f !in env.functions then Err(UnknownFunction(f))
      else
        var u :- TypeArgs(e, 0, scope, env);
        Ok(env.functions[f].returnType)
  }

  function TypeArgs(e: Postfix, i: nat, scope: Scope, env: Env): (r: Checked)
    requires e.FunCall? && i <= |e.args|
    decreases e, 0, |e.args| - i
  {
    if i == |e.args| then Ok(())
    else
      var t :- TypeAssignment(e.args[i], scope, env);
      TypeArgs(e, i + 1, scope, env)
  }

  /** The names of the declarations of a list from the `i`-th on. */
  function DeclNames(dl: DeclarationList, i: nat): set<Ident>
    requires i <= |dl.decls|
    decreases |dl.decls| - i
  {
    if i == |dl.decls| then {} else {dl.decls[i].id} + DeclNames(dl, i + 1)
  }

  /** A declaration list (typechecker.hpp:46-57): each name gets the list's
      type before its initialiser is checked, so the initialiser sees it. */
  function CheckDeclsFrom(dl: DeclarationList, i: nat, scope: Scope, env: Env): (r: Result<Scope, TypeError>)
    requires i <= |dl.decls|
    ensures r.Ok? ==> r.value.Keys == scope.Keys + DeclNames(dl, i)
    ensures r.Ok? ==> forall x :: x in r.value ==> r.value[x] == (if x in DeclNames(dl, i) then dl.varType else scope[x])
    decreases |dl.decls| - i
  {
    if i == |dl.decls| then Ok(scope)
    else
      var d := dl.decls[i];
      var scope1 := scope[d.id := dl.varType];
      var t :- if d.init.Some? then TypeAssignment(d.init.value, scope1, env) else Ok(Unset);
      CheckDeclsFrom(dl, i + 1, scope1, env)
  }

  /** A block item (typechecker.hpp:38-44): a declaration list extends the
      scope; a statement gets a copy and leaves the scope as it was. */
  function CheckBlockItem(item: BlockItem, scope: Scope, env: Env): (r: Result<Scope, TypeError>)
    ensures r.Ok? && item.StmtItem? ==> r.value == scope
    decreases item
  {
    match item
    case DeclItem(dl) => CheckDeclsFrom(dl, 0, scope, env)
    case StmtItem(s) =>
      var u :- CheckStatement(s, scope, env);
      Ok(scope)
  }

  /** The items of a compound statement (or a function body) from the
      `i`-th on, threading the scope. */
  function CheckItemsFrom(s: Statement, i: nat, scope: Scope, env: Env): (r: Result<Scope, TypeError>)
    requires s.Compound? && i <= |s.items|
    decreases s, 0, |s.items| - i
  {
    if i == |s.items| then Ok(scope)
    else
      var scope1 :- CheckBlockItem(s.items[i], scope, env);
      CheckItemsFrom(s, i + 1, scope1, env)
  }

  /** A statement (typechecker.hpp:59-89), checked with its own copy of the
      scope.  The parts are checked in the source's order; for a `do` loop
      that is the condition before the body. */
  function CheckStatement(s: Statement, scope: Scope, env: Env): (r: Checked)
    decreases s, 1
  {
    match s
    case Return(e) =>
      var t :- TypeComma(e, scope, env);
      Ok(())
    case If(cond, thenS, elseS) =>
      var t :- TypeComma(cond, scope, env);
      var u :- CheckStatement(thenS, scope, env);
      CheckStatement(elseS, scope, env)
    case ForDecl(header, cond, post, body) =>
      var scope1 :- CheckDeclsFrom(header, 0, scope, env);
      var t2 :- TypeComma(cond, scope1, env);
      var t3 :- TypeComma(post, scope1, env);
      CheckStatement(body, scope1, env)
    case ForExpr(init, cond, post, body) =>
      var t1 :- TypeComma(init, scope, env);
      var t2 :- TypeComma(cond, scope, env);
      var t3 :- TypeComma(post, scope, env);
      CheckStatement(body, scope, env)
    case While(cond, body) =>
      var t :- TypeComma(cond, scope, env);
      CheckStatement(body, scope, env)
    case DoWhile(body, cond) =>
      var t :- TypeComma(cond, scope, env);
      CheckStatement(body, scope, env)
    case Compound(items) =>
      var scope1 :- CheckItemsFrom(s, 0, scope, env);
      Ok(())
    case ExprStmt(e) =>
      var t :- TypeComma(e, scope, env);
      Ok(())
    case Break => Ok(())
    case Continue => Ok(())
  }

  /** A function body, from an empty scope: the parameters are not entered
      (typechecker.hpp:31-36). */
  function CheckFunction(f: Function, env: Env): Checked {
    var scope :- CheckItemsFrom(Compound(f.items), 0, map[], env);
    Ok(())
  }

  /** The functions of a program from the `i`-th on; each is registered
      before its own body is checked (typechecker.hpp:24-29). */
  function CheckFunctionsFrom(p: Program, i: nat, env: Env): (r: Checked)
    requires i <= |p.functions|
    decreases |p.functions| - i
  {
    if i == |p.functions| then Ok(())
    else
      var f := p.functions[i];
      var env1 := env.(functions := env.functions[f.id := f]);
      var u :- CheckFunction(f, env1);
      CheckFunctionsFrom(p, i + 1, env1)
  }

  /** `ast_functions` after registering `fs` in order on top of `reg`: the
      latest function of each name wins. */
  function RegisterAll(fs: seq<Function>, reg: map<Ident, Function>): (r: map<Ident, Function>)
    ensures r.Keys == reg.Keys + set f | f in fs :: f.id
    decreases |fs|
  {
    if fs == [] then reg
    else RegisterAll(fs[..|fs| - 1], reg)[fs[|fs| - 1].id := fs[|fs| - 1]]
  }

  /** The checker's global state, `ast_functions`, with the rank table it
      consults. */
  class Checker {
    const rank: TypeName -> int
    var functions: map<Ident, Function>

    constructor (rank: TypeName -> int)
      ensures this.rank == rank && functions == map[]
    {
      this.rank := rank;
      functions := map[];
    }

    /** The declaration loop: bind each name, then check its initialiser
        (typechecker.hpp:46-57). */
    method CheckDeclarations(dl: DeclarationList, scope0: Scope) returns (r: Result<Scope, TypeError>)
      ensures r == CheckDeclsFrom(dl, 0, scope0, Env(rank, functions))
    {
      var scope := scope0;
      var i := 0;
      while i < |dl.decls|
        invariant 0 <= i <= |dl.decls|
        invariant CheckDeclsFrom(dl, i, scope, Env(rank, functions)) == CheckDeclsFrom(dl, 0, scope0, Env(rank, functions))
      {
        var d := dl.decls[i];
        scope := scope[d.id := dl.varType];
        if d.init.Some? {
          var t := TypeAssignment(d.init.value, scope, Env(rank, functions));
          if t.Err? {
            return Err(t.error);
          }
        }
        i := i + 1;
      }
      return Ok(scope);
    }

    /** The item loop of a function body (typechecker.hpp:31-36). */
    method CheckBody(f: Function) returns (r: Checked)
      ensures r == CheckFunction(f, Env(rank, functions))
    {
      var s := Compound(f.items);
      var scope: Scope := map[];
      var i := 0;
      while i < |f.items|
        invariant 0 <= i <= |f.items|
        invariant CheckItemsFrom(s, i, scope, Env(rank, functions)).Ok?
                  == CheckItemsFrom(s, 0, map[], Env(rank, functions)).Ok?
        invariant CheckItemsFrom(s, i, scope, Env(rank, functions)).Err? ==>
                  CheckItemsFrom(s, i, scope, Env(rank, functions)) == CheckItemsFrom(s, 0, map[], Env(rank, functions))
      {
        var next: Result<Scope, TypeError>;
        if f.items[i].DeclItem? {
          next := CheckDeclarations(f.items[i].declList, scope);
        } else {
          next := CheckBlockItem(f.items[i], scope, Env(rank, functions));
        }
        if next.Err? {
          return Err(next.error);
        }
        scope := next.value;
        i := i + 1;
      }
      return Ok(());
    }

    /** The program loop: register each function, then check it
        (typechecker.hpp:24-29). */
    method CheckProgram(p: Program) returns (r: Checked)
      modifies this
      ensures r == CheckFunctionsFrom(p, 0, Env(rank, old(functions)))
      ensures r.Ok? ==> functions == RegisterAll(p.functions, old(functions))
    {
      var i := 0;
      while i < |p.functions|
        invariant 0 <= i <= |p.functions|
        invariant CheckFunctionsFrom(p, i, Env(rank, functions)) == CheckFunctionsFrom(p, 0, Env(rank, old(functions)))
        invariant functions == RegisterAll(p.functions[..i], old(functions))
      {
        assert p.functions[..i + 1][..i] == p.functions[..i];
        functions := functions[p.functions[i].id := p.functions[i]];
        var u := CheckBody(p.functions[i]);
        if u.Err? {
          return u;
        }
        i := i + 1;
      }
      assert p.functions[..i] == p.functions;
      return Ok(());
    }
  }
}
