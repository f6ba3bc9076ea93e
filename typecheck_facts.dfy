/** Properties of the type checker: the compatible-type rule, the operand
    rules of each binary level, the leaf rules, and how declarations,
    blocks and the program order decide which names are visible. */
module TypecheckFacts {
  import opened Wrappers
  import opened Ast
  import opened Typecheck

  /** The compatible type of two distinct types does not depend on their
      order unless they tie in rank, when the second one wins
      (typechecker.hpp:16-22). */
  lemma CompatibleRules(rank: TypeName -> int, t1: TypeName, t2: TypeName)
    ensures Compatible(rank, t1, t1) == t1
    ensures rank(t1) != rank(t2) ==> Compatible(rank, t1, t2) == Compatible(rank, t2, t1)
    ensures t1 != t2 && rank(t1) == rank(t2) ==> Compatible(rank, t1, t2) == t2
  {
  }

  /** An operand of the top level that is a single unary expression. */
  function Lift(u: Unary): LogicOr {
    LogicOr(LogicAnd(BitOr(BitXor(BitAnd(Equality(Relational(Shift(Additive(Mult(u, []), []), []), []), []), []), []), []), []), [])
  }

  /** The expression `x` and the call `f()` as assignments and as comma
      expressions. */
  function VarAssignment(x: Ident): Assignment {
    AssignCond(CondOr(Lift(UPostfix(Variable(x)))))
  }

  function VarComma(x: Ident): Comma {
    CommaList([VarAssignment(x)])
  }

  function CallComma(f: Ident): Comma {
    CommaList([AssignCond(CondOr(Lift(UPostfix(FunCall(f, [])))))])
  }

  lemma LiftType(u: Unary, scope: Scope, env: Env)
    ensures TypeLogicOr(Lift(u), scope, env) == TypeUnary(u, scope, env)
  {
    var m := Mult(u, []);
    assert TypeMult(m, scope, env) == TypeUnary(u, scope, env);
    var a := Additive(m, []);
    assert TypeAdditive(a, scope, env) == TypeMult(m, scope, env);
    var sh := Shift(a, []);
    assert TypeShift(sh, scope, env) == TypeAdditive(a, scope, env);
    var rel := Relational(sh, []);
    assert TypeRelational(rel, scope, env) == TypeShift(sh, scope, env);
    var eq := Equality(rel, []);
    assert TypeEquality(eq, scope, env) == TypeRelational(rel, scope, env);
    var band := BitAnd(eq, []);
    assert TypeBitAnd(band, scope, env) == TypeEquality(eq, scope, env);
    var xor := BitXor(band, []);
    assert TypeBitXor(xor, scope, env) == TypeBitAnd(band, scope, env);
    var bor := BitOr(xor, []);
    assert TypeBitOr(bor, scope, env) == TypeBitXor(xor, scope, env);
    var and := LogicAnd(bor, []);
    assert TypeLogicAnd(and, scope, env) == TypeBitOr(bor, scope, env);
    assert Lift(u) == LogicOr(and, []);
  }

  /** An assignment is accepted exactly when its value is, whatever its
      target: an undeclared target is not rejected but looked up as the
      empty type name.  The type is the value's or the target's, whichever
      ranks lowest (typechecker.hpp:111-113). */
  lemma AssignmentType(x: Ident, op: AssignOp, v: Assignment, scope: Scope, env: Env)
    ensures var r := TypeAssignment(Assign(x, op, v), scope, env);
            var value := TypeAssignment(v, scope, env);
            && (r.Ok? <==> value.Ok?)
            && (value.Err? ==> r == Err(value.error))
            && (r.Ok? ==> var target := if x in scope then scope[x] else Unset;
                  && (r.value == value.value || r.value == target)
                  && env.rank(r.value) <= env.rank(value.value)
                  && env.rank(r.value) <= env.rank(target))
  {
  }

  /** A ternary checks its test, then its true branch, then its false
      branch, reporting the first error; its type is one of the two branch
      types, whichever ranks lowest, and the test's type plays no part
      (typechecker.hpp:121-126). */
  lemma TernaryType(test: LogicOr, t: Comma, f: Conditional, scope: Scope, env: Env)
    ensures var r := TypeConditional(Ternary(test, t, f), scope, env);
            var c := TypeLogicOr(test, scope, env);
            var t1 := TypeComma(t, scope, env);
            var t2 := TypeConditional(f, scope, env);
            && (r.Ok? <==> c.Ok? && t1.Ok? && t2.Ok?)
            && (c.Err? ==> r == Err(c.error))
            && (c.Ok? && t1.Err? ==> r == Err(t1.error))
            && (c.Ok? && t1.Ok? && t2.Err? ==> r == Err(t2.error))
            && (r.Ok? ==> && (r.value == t1.value || r.value == t2.value)
                          && env.rank(r.value) <= env.rank(t1.value)
                          && env.rank(r.value) <= env.rank(t2.value))
  {
  }

  /** A comma expression has the type of its last assignment. */
  lemma {:induction false} CommaLast(e: Comma, i: nat, last: TypeName, scope: Scope, env: Env)
    requires e.CommaList? && i <= |e.items| && TypeCommaFrom(e, i, last, scope, env).Ok?
    ensures i < |e.items| ==> TypeCommaFrom(e, i, last, scope, env) == TypeAssignment(e.items[|e.items| - 1], scope, env)
    ensures i == |e.items| ==> TypeCommaFrom(e, i, last, scope, env) == Ok(last)
    decreases |e.items| - i
  {
    if i < |e.items| {
      var t := TypeAssignment(e.items[i], scope, env).value;
      CommaLast(e, i + 1, t, scope, env);
    }
  }

  /** Reading `x` and calling `f()` as whole expressions. */
  lemma VarCommaType(x: Ident, scope: Scope, env: Env)
    ensures TypeComma(VarComma(x), scope, env) == TypeVariable(scope, x)
  {
    LiftType(UPostfix(Variable(x)), scope, env);
    assert TypeAssignment(VarAssignment(x), scope, env) == TypeVariable(scope, x);
    OneAssignment(VarAssignment(x), scope, env);
  }

  lemma OneAssignment(a: Assignment, scope: Scope, env: Env)
    ensures TypeComma(CommaList([a]), scope, env) == TypeAssignment(a, scope, env)
  {
    var e := CommaList([a]);
    if TypeAssignment(a, scope, env).Ok? {
      assert TypeCommaFrom(e, 1, TypeAssignment(a, scope, env).value, scope, env) == TypeAssignment(a, scope, env);
    }
  }

  lemma CallCommaType(f: Ident, scope: Scope, env: Env)
    ensures TypeComma(CallComma(f), scope, env)
            == if f in env.functions then Ok(env.functions[f].returnType) else Err(UnknownFunction(f))
  {
    var call := FunCall(f, []);
    LiftType(UPostfix(call), scope, env);
    if f in env.functions {
      assert TypeArgs(call, 0, scope, env) == Ok(());
    }
    assert TypeAssignment(AssignCond(CondOr(Lift(UPostfix(call)))), scope, env) == TypePostfix(call, scope, env);
    OneAssignment(AssignCond(CondOr(Lift(UPostfix(call)))), scope, env);
  }

  /** The leaf rules (typechecker.hpp:94-105, 322-366): constants have type
      `int` and `float`, an omitted expression `void`, an undeclared
      variable and an unregistered callee are errors, a call has its
      callee's return type, and `~` demands `int`. */
  lemma LeafTypes(scope: Scope, env: Env, x: Ident, f: Ident, v: int, u: Unary)
    ensures TypePostfix(ConstInt(v), scope, env) == Ok(Int)
    ensures TypePostfix(ConstFloat, scope, env) == Ok(Float)
    ensures TypeComma(NullComma, scope, env) == Ok(Void)
    ensures x !in scope ==> TypePostfix(Variable(x), scope, env) == Err(Undefined(x))
    ensures x in scope ==> TypePostfix(Variable(x), scope, env) == Ok(scope[x])
    ensures f !in env.functions ==> TypePostfix(FunCall(f, []), scope, env) == Err(UnknownFunction(f))
    ensures f in env.functions ==> TypePostfix(FunCall(f, []), scope, env) == Ok(env.functions[f].returnType)
    ensures TypeUnary(u, scope, env).Ok? && TypeUnary(u, scope, env).value != Int
            ==> TypeUnary(UOp(Complement, u), scope, env) == Err(BadComplement)
  {
  }

  /** A declared name is visible in its own initialiser: `T x = x;` is
      accepted and gives `x` the type `T` (typechecker.hpp:46-57). */
  lemma SelfInitialised(x: Ident, ty: TypeName, scope: Scope, env: Env)
    ensures CheckDeclsFrom(DeclarationList(ty, [Declaration(x, Some(VarAssignment(x)))]), 0, scope, env) == Ok(scope[x := ty])
  {
    var dl := DeclarationList(ty, [Declaration(x, Some(VarAssignment(x)))]);
    VarAssignmentType(x, scope[x := ty], env);
    assert CheckDeclsFrom(dl, 1, scope[x := ty], env) == Ok(scope[x := ty]);
  }

  lemma VarAssignmentType(x: Ident, scope: Scope, env: Env)
    ensures TypeAssignment(VarAssignment(x), scope, env) == TypeVariable(scope, x)
  {
    LiftType(UPostfix(Variable(x)), scope, env);
  }

  /** A declaration inside a block is gone once the block ends: reading the
      name in the next item is an error (typechecker.hpp:59, 79-82). */
  lemma BlockScopeEnds(x: Ident, ty: TypeName, scope: Scope, env: Env)
    requires x !in scope
    ensures var block := Compound([DeclItem(DeclarationList(ty, [Declaration(x, None)]))]);
            CheckItemsFrom(Compound([StmtItem(block), StmtItem(ExprStmt(VarComma(x)))]), 0, scope, env) == Err(Undefined(x))
  {
    var block := Compound([DeclItem(DeclarationList(ty, [Declaration(x, None)]))]);
    var s := Compound([StmtItem(block), StmtItem(ExprStmt(VarComma(x)))]);
    var dl := DeclarationList(ty, [Declaration(x, None)]);
    assert CheckDeclsFrom(dl, 1, scope[x := ty], env) == Ok(scope[x := ty]);
    assert CheckDeclsFrom(dl, 0, scope, env) == Ok(scope[x := ty]);
    assert CheckItemsFrom(block, 1, scope[x := ty], env) == Ok(scope[x := ty]);
    assert CheckItemsFrom(block, 0, scope, env) == Ok(scope[x := ty]);
    assert CheckStatement(block, scope, env) == Ok(());
    assert CheckBlockItem(StmtItem(block), scope, env) == Ok(scope);
    VarCommaType(x, scope, env);
    assert CheckStatement(ExprStmt(VarComma(x)), scope, env) == Err(Undefined(x));
    assert CheckItemsFrom(s, 1, scope, env) == Err(Undefined(x));
  }

  /** The parameters are not in the body's scope: a body that returns a
      name fails unless it declared that name, whatever the parameters
      (typechecker.hpp:31-36). */
  lemma ParamsNotInScope(f: Function, x: Ident, env: Env)
    requires f.items == [StmtItem(Return(VarComma(x)))]
    ensures CheckFunction(f, env) == Err(Undefined(x))
  {
    VarCommaType(x, map[], env);
    assert CheckStatement(Return(VarComma(x)), map[], env) == Err(Undefined(x));
    assert CheckItemsFrom(Compound(f.items), 0, map[], env) == Err(Undefined(x));
  }

  /** Functions are registered in program order, each before its own body:
      a function may call itself but not one defined after it
      (typechecker.hpp:24-29, 355-357). */
  lemma CallOrder(f: Function, g: Function, rank: TypeName -> int)
    requires f.items == [StmtItem(Return(CallComma(g.id)))] && f.id != g.id
    ensures CheckFunctionsFrom(Program([f, g]), 0, Env(rank, map[])) == Err(UnknownFunction(g.id))
    ensures CheckFunctionsFrom(Program([f.(id := g.id)]), 0, Env(rank, map[])) == Ok(())
  {
    var env1 := Env(rank, map[f.id := f]);
    CallCommaType(g.id, map[], env1);
    assert CheckStatement(Return(CallComma(g.id)), map[], env1) == Err(UnknownFunction(g.id));
    assert CheckItemsFrom(Compound(f.items), 0, map[], env1) == Err(UnknownFunction(g.id));
    var h := f.(id := g.id);
    var env2 := Env(rank, map[g.id := h]);
    CallCommaType(g.id, map[], env2);
    assert CheckStatement(Return(CallComma(g.id)), map[], env2) == Ok(());
    assert CheckItemsFrom(Compound(h.items), 1, map[], env2) == Ok(map[]);
    assert CheckItemsFrom(Compound(h.items), 0, map[], env2) == Ok(map[]);
  }

  /** The `k`-th function checks against the registry of itself and the
      functions before it, on top of `base`. */
  predicate ChecksInOrder(p: Program, k: nat, rank: TypeName -> int, base: map<Ident, Function>)
    requires k < |p.functions|
  {
    CheckFunction(p.functions[k], Env(rank, RegisterAll(p.functions[..k + 1], base))).Ok?
  }

  /** Registering one more function of a list. */
  lemma RegisterNext(fs: seq<Function>, i: nat, base: map<Ident, Function>)
    requires i < |fs|
    ensures RegisterAll(fs[..i + 1], base) == RegisterAll(fs[..i], base)[fs[i].id := fs[i]]
  {
    assert fs[..i + 1][..i] == fs[..i];
  }

  /** The general rule behind `CallOrder`: a program passes exactly when
      every function passes with `ast_functions` holding the functions up
      to and including itself, registered in program order on top of the
      starting registry `base`.  With `LeafTypes`, a call therefore passes
      only if its callee is the function itself, an earlier one, or in
      `base` (typechecker.hpp:24-29, 354-358). */
  lemma {:induction false} CheckedAgainstPrefix(p: Program, i: nat, env: Env, base: map<Ident, Function>)
    requires i <= |p.functions| && env.functions == RegisterAll(p.functions[..i], base)
    ensures CheckFunctionsFrom(p, i, env).Ok? <==>
              forall k :: i <= k < |p.functions| ==> ChecksInOrder(p, k, env.rank, base)
    decreases |p.functions| - i
  {
    if i < |p.functions| {
      var f := p.functions[i];
      RegisterNext(p.functions, i, base);
      var env1 := env.(functions := env.functions[f.id := f]);
      CheckedAgainstPrefix(p, i + 1, env1, base);
      assert ChecksInOrder(p, i, env.rank, base) == CheckFunction(f, env1).Ok?;
    }
  }

  /** A whole program from an empty registry. */
  lemma ProgramCallOrder(p: Program, rank: TypeName -> int)
    ensures CheckFunctionsFrom(p, 0, Env(rank, map[])).Ok? <==>
              forall k :: 0 <= k < |p.functions| ==> ChecksInOrder(p, k, rank, map[])
  {
    assert p.functions[..0] == [];
    CheckedAgainstPrefix(p, 0, Env(rank, map[]), map[]);
  }

  lemma {:induction false} LogicOrRestChecks(e: LogicOr, i: nat, scope: Scope, env: Env)
    requires i <= |e.rest|
    ensures TypeLogicOrRest(e, i, scope, env).Ok? <==> forall j :: i <= j < |e.rest| ==> TypeLogicAnd(e.rest[j], scope, env).Ok?
    decreases |e.rest| - i
  {
    if i < |e.rest| {
      LogicOrRestChecks(e, i + 1, scope, env);
    }
  }

  /** A LogicOr of several operands succeeds exactly when every operand does,
      and then has the unset type. */
  lemma LogicOrOperands(e: LogicOr, scope: Scope, env: Env)
    requires |e.rest| > 0
    ensures TypeLogicOr(e, scope, env).Ok?
            <==> TypeLogicAnd(e.first, scope, env).Ok? && forall j :: 0 <= j < |e.rest| ==> TypeLogicAnd(e.rest[j], scope, env).Ok?
    ensures TypeLogicOr(e, scope, env).Ok? ==> TypeLogicOr(e, scope, env).value == Unset
  {
    LogicOrRestChecks(e, 0, scope, env);
  }

  lemma {:induction false} LogicAndRestChecks(e: LogicAnd, i: nat, scope: Scope, env: Env)
    requires i <= |e.rest|
    ensures TypeLogicAndRest(e, i, scope, env).Ok? <==> forall j :: i <= j < |e.rest| ==> TypeBitOr(e.rest[j], scope, env).Ok?
    decreases |e.rest| - i
  {
    if i < |e.rest| {
      LogicAndRestChecks(e, i + 1, scope, env);
    }
  }

  /** A LogicAnd of several operands succeeds exactly when every operand does,
      and then has the unset type. */
  lemma LogicAndOperands(e: LogicAnd, scope: Scope, env: Env)
    requires |e.rest| > 0
    ensures TypeLogicAnd(e, scope, env).Ok?
            <==> TypeBitOr(e.first, scope, env).Ok? && forall j :: 0 <= j < |e.rest| ==> TypeBitOr(e.rest[j], scope, env).Ok?
    ensures TypeLogicAnd(e, scope, env).Ok? ==> TypeLogicAnd(e, scope, env).value == Unset
  {
    LogicAndRestChecks(e, 0, scope, env);
  }

  lemma {:induction false} BitOrRestInts(e: BitOr, i: nat, scope: Scope, env: Env)
    requires i <= |e.rest|
    ensures TypeBitOrRest(e, i, scope, env).Ok? <==> forall j :: i <= j < |e.rest| ==> TypeBitXor(e.rest[j], scope, env) == Ok(Int)
    decreases |e.rest| - i
  {
    if i < |e.rest| {
      BitOrRestInts(e, i + 1, scope, env);
    }
  }

  /** A BitOr of several operands has type `int` exactly when every operand
      does, and fails otherwise. */
  lemma BitOrInts(e: BitOr, scope: Scope, env: Env)
    requires |e.rest| > 0
    ensures TypeBitOr(e, scope, env).Ok? ==> TypeBitOr(e, scope, env).value == Int
    ensures TypeBitOr(e, scope, env).Ok?
            <==> TypeBitXor(e.first, scope, env) == Ok(Int) && forall j :: 0 <= j < |e.rest| ==> TypeBitXor(e.rest[j], scope, env) == Ok(Int)
  {
    BitOrRestInts(e, 0, scope, env);
  }

  lemma {:induction false} BitXorRestInts(e: BitXor, i: nat, scope: Scope, env: Env)
    requires i <= |e.rest|
    ensures TypeBitXorRest(e, i, scope, env).Ok? <==> forall j :: i <= j < |e.rest| ==> TypeBitAnd(e.rest[j], scope, env) == Ok(Int)
    decreases |e.rest| - i
  {
    if i < |e.rest| {
      BitXorRestInts(e, i + 1, scope, env);
    }
  }

  /** A BitXor of several operands has type `int` exactly when every operand
      does, and fails otherwise. */
  lemma BitXorInts(e: BitXor, scope: Scope, env: Env)
    requires |e.rest| > 0
    ensures TypeBitXor(e, scope, env).Ok? ==> TypeBitXor(e, scope, env).value == Int
    ensures TypeBitXor(e, scope, env).Ok?
            <==> TypeBitAnd(e.first, scope, env) == Ok(Int) && forall j :: 0 <= j < |e.rest| ==> TypeBitAnd(e.rest[j], scope, env) == Ok(Int)
  {
    BitXorRestInts(e, 0, scope, env);
  }

  lemma {:induction false} BitAndRestInts(e: BitAnd, i: nat, scope: Scope, env: Env)
    requires i <= |e.rest|
    ensures TypeBitAndRest(e, i, scope, env).Ok? <==> forall j :: i <= j < |e.rest| ==> TypeEquality(e.rest[j], scope, env) == Ok(Int)
    decreases |e.rest| - i
  {
    if i < |e.rest| {
      BitAndRestInts(e, i + 1, scope, env);
    }
  }

  /** A BitAnd of several operands has type `int` exactly when every operand
      does, and fails otherwise. */
  lemma BitAndInts(e: BitAnd, scope: Scope, env: Env)
    requires |e.rest| > 0
    ensures TypeBitAnd(e, scope, env).Ok? ==> TypeBitAnd(e, scope, env).value == Int
    ensures TypeBitAnd(e, scope, env).Ok?
            <==> TypeEquality(e.first, scope, env) == Ok(Int) && forall j :: 0 <= j < |e.rest| ==> TypeEquality(e.rest[j], scope, env) == Ok(Int)
  {
    BitAndRestInts(e, 0, scope, env);
  }

  lemma {:induction false} EqualityRestInts(e: Equality, i: nat, scope: Scope, env: Env)
    requires i <= |e.rest|
    ensures TypeEqualityRest(e, i, scope, env).Ok? <==> forall j :: i <= j < |e.rest| ==> TypeRelational(e.rest[j].1, scope, env) == Ok(Int)
    decreases |e.rest| - i
  {
    if i < |e.rest| {
      EqualityRestInts(e, i + 1, scope, env);
    }
  }

  /** A Equality of several operands has type `int` exactly when every operand
      does, and fails otherwise. */
  lemma EqualityInts(e: Equality, scope: Scope, env: Env)
    requires |e.rest| > 0
    ensures TypeEquality(e, scope, env).Ok? ==> TypeEquality(e, scope, env).value == Int
    ensures TypeEquality(e, scope, env).Ok?
            <==> TypeRelational(e.first, scope, env) == Ok(Int) && forall j :: 0 <= j < |e.rest| ==> TypeRelational(e.rest[j].1, scope, env) == Ok(Int)
  {
    EqualityRestInts(e, 0, scope, env);
  }

  lemma {:induction false} RelationalRestInts(e: Relational, i: nat, scope: Scope, env: Env)
    requires i <= |e.rest|
    ensures TypeRelationalRest(e, i, scope, env).Ok? <==> forall j :: i <= j < |e.rest| ==> TypeShift(e.rest[j].1, scope, env) == Ok(Int)
    decreases |e.rest| - i
  {
    if i < |e.rest| {
      RelationalRestInts(e, i + 1, scope, env);
    }
  }

  /** A Relational of several operands has type `int` exactly when every operand
      does, and fails otherwise. */
  lemma RelationalInts(e: Relational, scope: Scope, env: Env)
    requires |e.rest| > 0
    ensures TypeRelational(e, scope, env).Ok? ==> TypeRelational(e, scope, env).value == Int
    ensures TypeRelational(e, scope, env).Ok?
            <==> TypeShift(e.first, scope, env) == Ok(Int) && forall j :: 0 <= j < |e.rest| ==> TypeShift(e.rest[j].1, scope, env) == Ok(Int)
  {
    RelationalRestInts(e, 0, scope, env);
  }

  lemma {:induction false} ShiftRestInts(e: Shift, i: nat, scope: Scope, env: Env)
    requires i <= |e.rest|
    ensures TypeShiftRest(e, i, scope, env).Ok? <==> forall j :: i <= j < |e.rest| ==> TypeAdditive(e.rest[j].1, scope, env) == Ok(Int)
    decreases |e.rest| - i
  {
    if i < |e.rest| {
      ShiftRestInts(e, i + 1, scope, env);
    }
  }

  /** A Shift of several operands has type `int` exactly when every operand
      does, and fails otherwise. */
  lemma ShiftInts(e: Shift, scope: Scope, env: Env)
    requires |e.rest| > 0
    ensures TypeShift(e, scope, env).Ok? ==> TypeShift(e, scope, env).value == Int
    ensures TypeShift(e, scope, env).Ok?
            <==> TypeAdditive(e.first, scope, env) == Ok(Int) && forall j :: 0 <= j < |e.rest| ==> TypeAdditive(e.rest[j].1, scope, env) == Ok(Int)
  {
    ShiftRestInts(e, 0, scope, env);
  }

  /** The fold keeps the lowest-ranked type: its result is the starting
      type or the type of one of the operands, and ranks no higher than any
      of them. */
  lemma {:induction false} AdditiveLowest(e: Additive, i: nat, acc: TypeName, scope: Scope, env: Env)
    requires i <= |e.rest| && TypeAdditiveRest(e, i, acc, scope, env).Ok?
    ensures var r := TypeAdditiveRest(e, i, acc, scope, env).value;
            && (r == acc || exists j :: i <= j < |e.rest| && TypeMult(e.rest[j].1, scope, env) == Ok(r))
            && env.rank(r) <= env.rank(acc)
            && forall j :: i <= j < |e.rest| ==> TypeMult(e.rest[j].1, scope, env).Ok? && env.rank(r) <= env.rank(TypeMult(e.rest[j].1, scope, env).value)
    decreases |e.rest| - i
  {
    if i < |e.rest| {
      var t := TypeMult(e.rest[i].1, scope, env).value;
      var acc1 := if t != acc then Compatible(env.rank, t, acc) else acc;
      AdditiveLowest(e, i + 1, acc1, scope, env);
    }
  }

  /** The fold keeps the lowest-ranked type: its result is the starting
      type or the type of one of the operands, and ranks no higher than any
      of them. */
  lemma {:induction false} MultLowest(e: Mult, i: nat, acc: TypeName, scope: Scope, env: Env)
    requires i <= |e.rest| && TypeMultRest(e, i, acc, scope, env).Ok?
    ensures var r := TypeMultRest(e, i, acc, scope, env).value;
            && (r == acc || exists j :: i <= j < |e.rest| && TypeUnary(e.rest[j].1, scope, env) == Ok(r))
            && env.rank(r) <= env.rank(acc)
            && forall j :: i <= j < |e.rest| ==> TypeUnary(e.rest[j].1, scope, env).Ok? && env.rank(r) <= env.rank(TypeUnary(e.rest[j].1, scope, env).value)
    decreases |e.rest| - i
  {
    if i < |e.rest| {
      var t := TypeUnary(e.rest[i].1, scope, env).value;
      var acc1 := if t != acc then Compatible(env.rank, t, acc) else acc;
      MultLowest(e, i + 1, acc1, scope, env);
    }
  }
}
