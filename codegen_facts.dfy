/** Properties of the code generator that are stated directly on its
    functions: where parameters live, which declarations, names and calls are
    rejected, what `break`, `continue` and calls emit, and how the function
    registry keeps the declarations of one name consistent. */
module CodegenFacts {
  import opened Wrappers
  import opened Ast
  import opened Asm
  import opened CodegenExpr
  import opened Codegen

  /** Exactly the parameter names are bound (codegen.hpp:153-162). */
  lemma {:induction false} ParamKeys(ps: seq<Param>)
    ensures ParamLocals(ps).Keys == ParamNames(ps)
    decreases |ps|
  {
    if ps != [] {
      ParamKeys(ps[..|ps| - 1]);
      ParamNamesLast(ps);
    }
  }

  /** Parameter `i` is bound to offset `8 + 4 * i` unless a later parameter
      has the same name (codegen.hpp:153-162). */
  lemma {:induction false} ParamSlot(ps: seq<Param>, i: nat)
    requires i < |ps| && forall j :: i < j < |ps| ==> ps[j].name != ps[i].name
    ensures ps[i].name in ParamLocals(ps) && ParamLocals(ps)[ps[i].name] == 8 + 4 * i
    decreases |ps|
  {
    var n := |ps| - 1;
    if i < n {
      LaterNames(ps, i);
      ParamSlot(ps[..n], i);
    }
  }

  /** The names of a parameter list are those of its front and its last one. */
  lemma ParamNamesLast(ps: seq<Param>)
    requires ps != []
    ensures ParamNames(ps) == ParamNames(ps[..|ps| - 1]) + {ps[|ps| - 1].name}
  {
    var front := ps[..|ps| - 1];
    forall x | x in ParamNames(ps) ensures x in ParamNames(front) + {ps[|ps| - 1].name} {
      var k :| 0 <= k < |ps| && ps[k].name == x;
      if k < |ps| - 1 {
        assert front[k] == ps[k];
      }
    }
    forall x | x in ParamNames(front) ensures x in ParamNames(ps) {
      var k :| 0 <= k < |front| && front[k].name == x;
      assert ps[k] == front[k];
    }
  }

  /** A parameter whose name no later parameter repeats is also last of
      its name in the front of the list. */
  lemma LaterNames(ps: seq<Param>, i: nat)
    requires i < |ps| - 1 && forall j :: i < j < |ps| ==> ps[j].name != ps[i].name
    ensures var front := ps[..|ps| - 1];
            front[i] == ps[i] && ps[|ps| - 1].name != ps[i].name
            && forall j :: i < j < |front| ==> front[j].name != front[i].name
  {
  }

  /** The parameters share the body's outermost scope, so a body that opens
      by declaring a parameter's name is rejected (codegen.hpp:159, 216-218). */
  lemma ParamRedeclared(f: Function, reg: Registry, c: nat)
    requires f.defined && Redeclaration(f, reg).None?
    requires |f.items| > 0 && f.items[0].DeclItem? && |f.items[0].declList.decls| > 0
    requires f.items[0].declList.decls[0].id in ParamNames(f.params)
    ensures GenFunction(f, reg, c) == Err(AlreadyDeclared(f.items[0].declList.decls[0].id))
  {
    var reg1 := reg[f.id := f];
    var dl := f.items[0].declList;
    assert GenDeclaration(dl.decls[0], EntryFrame(f), reg1, c) == Err(AlreadyDeclared(dl.decls[0].id));
    assert GenDeclsFrom(dl, 0, EntryFrame(f), reg1, c) == Err(AlreadyDeclared(dl.decls[0].id));
    assert GenCompoundFrom(Compound(f.items), 0, EntryFrame(f), NoLoop, reg1, c) == Err(AlreadyDeclared(dl.decls[0].id));
  }

  /** The declarations of a list from the `i`-th on, once accepted, name
      nothing that was in scope before them (codegen.hpp:216-218). */
  lemma {:induction false} DeclsFresh(dl: DeclarationList, i: nat, fr: Frame, reg: Registry, c: nat)
    requires i <= |dl.decls| && GenDeclsFrom(dl, i, fr, reg, c).Ok?
    ensures forall j :: i <= j < |dl.decls| ==> dl.decls[j].id !in fr.scope
    decreases |dl.decls| - i
  {
    if i < |dl.decls| {
      var x := GenDeclaration(dl.decls[i], fr, reg, c).value;
      DeclsFresh(dl, i + 1, x.frame, reg, x.next);
    }
  }

  /** The same for the items of a compound statement from the `i`-th on:
      the scope only grows from item to item, so no accepted declaration
      of these items names anything in scope before them. */
  lemma {:induction false} ItemsFresh(s: Statement, i: nat, fr: Frame, loop: LoopCtx, reg: Registry, c: nat)
    requires s.Compound? && i <= |s.items| && GenCompoundFrom(s, i, fr, loop, reg, c).Ok?
    ensures forall k, j :: i <= k < |s.items| && s.items[k].DeclItem? && 0 <= j < |s.items[k].declList.decls|
              ==> s.items[k].declList.decls[j].id !in fr.scope
    decreases |s.items| - i
  {
    if i < |s.items| {
      var x := GenBlockItem(s.items[i], fr, loop, reg, c).value;
      if s.items[i].DeclItem? {
        DeclsFresh(s.items[i].declList, 0, fr, reg, c);
      }
      BlockItemExtends(s.items[i], fr, loop, reg, c);
      ItemsFresh(s, i + 1, x.frame, loop, reg, x.next);
    }
  }

  /** No top-level declaration of an accepted function body, at any item
      and any position of its list, reuses a parameter name: the
      parameters stay in the body's outermost scope (codegen.hpp:153-218). */
  lemma ParamsNeverRedeclared(f: Function, reg: Registry, c: nat)
    requires f.defined && GenFunction(f, reg, c).Ok?
    ensures forall k, j :: 0 <= k < |f.items| && f.items[k].DeclItem? && 0 <= j < |f.items[k].declList.decls|
              ==> f.items[k].declList.decls[j].id !in ParamNames(f.params)
  {
    ItemsFresh(Compound(f.items), 0, EntryFrame(f), NoLoop, reg[f.id := f], c);
  }

  /** A prototype only updates the registry; a definition is its prologue,
      its body and a fall-through `return 0` (codegen.hpp:147-151, 163-179). */
  lemma FunctionShape(f: Function, reg: Registry, c: nat)
    requires GenFunction(f, reg, c).Ok?
    ensures var r := GenFunction(f, reg, c).value;
            && (!f.defined ==> r.code == [] && r.next == c)
            && (f.defined ==> |r.code| >= 8 && r.code[..4] == Prologue(f.id) && r.code[|r.code| - 4..] == FallThrough)
  {
    if f.defined {
      var body := GenCompoundFrom(Compound(f.items), 0, EntryFrame(f), NoLoop, reg[f.id := f], c).value;
      var code := Prologue(f.id) + body.code + FallThrough;
      assert code[..4] == Prologue(f.id);
      assert code[|code| - 4..] == FallThrough;
    }
  }

  /** `break` and `continue` are errors outside a loop; inside one they
      release exactly what was allocated since the loop was entered, when
      that is anything, and jump to the loop's `_end` or `_cont`
      (codegen.hpp:362-392). */
  lemma LoopExitCode(s: Statement, locals: Locals, index: int, loop: LoopCtx, reg: Registry, c: nat)
    requires s.Break? || s.Continue?
    ensures loop.NoLoop? ==> GenStatement(s, locals, index, loop, reg, c)
                             == Err(if s.Break? then BreakOutsideLoop else ContinueOutsideLoop)
    ensures loop.InLoop? ==>
              var r := GenStatement(s, locals, index, loop, reg, c);
              && r.Ok? && r.value.next == c
              && r.value.code[|r.value.code| - 1] == Jmp(CtlLabel(if s.Break? then End else Cont, loop.id), Indented)
              && (|r.value.code| == 2 <==> loop.index > index)
              && (|r.value.code| == 2 ==> r.value.code[0] == AddEsp(loop.index - index))
              && (|r.value.code| == 1 || |r.value.code| == 2)
  {
  }

  /** A variable read, an assignment target or a prefix `++`/`--` that is
      not declared is rejected (codegen.hpp:433-435, 775-780, 811-813); a
      postfix `++`/`--` is not checked and uses offset 0 (codegen.hpp:816-824). */
  lemma UndeclaredNames(x: Ident, op: AssignOp, value: Assignment, incDec: IncDec, locals: Locals, reg: Registry, c: nat)
    requires x !in locals
    ensures GenAssignment(Assign(x, op, value), locals, reg, c) == Err(UsedBeforeDeclaration(x))
    ensures GenPostfix(Variable(x), locals, reg, c) == Err(NotDeclared(x))
    ensures GenUnary(UPrefix(incDec, x), locals, reg, c) == Err(NotModifiable)
    ensures GenPostfix(PostIncDec(incDec, x), locals, reg, c)
            == Ok(Gen([Movl(Slot(0), R(Eax)), Op(IncDecMnemonic(incDec), [Slot(0)], Indented)], c))
  {
  }

  /** Calls: a registered callee must get exactly its number of parameters,
      an unregistered one any number; the code ends with the call and, when
      there are arguments, the caller's cleanup of four bytes per argument
      (codegen.hpp:828-863). */
  lemma CallArity(e: Postfix, locals: Locals, reg: Registry, c: nat)
    requires e.FunCall?
    ensures e.callee in reg && |e.args| > |reg[e.callee].params| ==> GenPostfix(e, locals, reg, c) == Err(TooManyArguments(e.callee))
    ensures e.callee in reg && |e.args| < |reg[e.callee].params| ==> GenPostfix(e, locals, reg, c) == Err(TooFewArguments(e.callee))
    ensures e.callee !in reg || |e.args| == |reg[e.callee].params| ==>
              (GenPostfix(e, locals, reg, c).Ok? <==> GenCallArgs(e, |e.args|, locals, reg, c).Ok?)
    ensures GenPostfix(e, locals, reg, c).Ok? ==>
              var code := GenPostfix(e, locals, reg, c).value.code;
              && (|e.args| == 0 ==> code[|code| - 1] == Call(e.callee))
              && (|e.args| > 0 ==> |code| >= 2 && code[|code| - 2] == Call(e.callee) && code[|code| - 1] == AddEsp(4 * |e.args|))
  {
    if GenPostfix(e, locals, reg, c).Ok? {
      var pushed := GenCallArgs(e, |e.args|, locals, reg, c).value;
      var code := CallSequence(e.callee, pushed.code, |e.args|);
      assert GenPostfix(e, locals, reg, c).value.code == code;
      if |e.args| > 0 {
        assert code == pushed.code + [Call(e.callee), AddEsp(4 * |e.args|)];
      } else {
        assert code == pushed.code + [Call(e.callee)];
      }
    }
  }

  /** `s` back to front. */
  function Reverse<T>(s: seq<T>): (r: seq<T>)
    ensures |r| == |s| && forall i :: 0 <= i < |s| ==> r[i] == s[|s| - 1 - i]
  {
    if s == [] then [] else [s[|s| - 1]] + Reverse(s[..|s| - 1])
  }

  /** Arguments taken in the order given, each generated and pushed. */
  function PushEach(args: seq<Assignment>, locals: Locals, reg: Registry, c: nat): Out
    decreases |args|
  {
    if args == [] then Ok(Gen([], c))
    else
      var a :- GenAssignment(args[0], locals, reg, c);
      var rest :- PushEach(args[1..], locals, reg, a.next);
      Ok(Gen(a.code + [Push(Eax)] + rest.code, rest.next))
  }

  /** The first `k` arguments are generated and pushed from the last one to
      the first, as the loop over `rbegin` does (codegen.hpp:843-852). */
  lemma {:induction false} ArgumentsRightToLeft(e: Postfix, k: nat, locals: Locals, reg: Registry, c: nat)
    requires e.FunCall? && k <= |e.args|
    ensures GenCallArgs(e, k, locals, reg, c) == PushEach(Reverse(e.args[..k]), locals, reg, c)
    decreases k
  {
    if k > 0 {
      var rev := Reverse(e.args[..k]);
      assert e.args[..k][..k - 1] == e.args[..k - 1];
      assert rev[0] == e.args[k - 1] && rev[1..] == Reverse(e.args[..k - 1]);
      var a := GenAssignment(e.args[k - 1], locals, reg, c);
      if a.Ok? {
        ArgumentsRightToLeft(e, k - 1, locals, reg, a.value.next);
      }
    }
  }

  /** A whole call: every argument from the last to the first, then the
      call, then the cleanup. */
  lemma CallCode(e: Postfix, locals: Locals, reg: Registry, c: nat)
    requires e.FunCall? && GenPostfix(e, locals, reg, c).Ok?
    ensures var pushed := PushEach(Reverse(e.args), locals, reg, c);
            && pushed.Ok?
            && GenPostfix(e, locals, reg, c).value.code == CallSequence(e.callee, pushed.value.code, |e.args|)
  {
    ArgumentsRightToLeft(e, |e.args|, locals, reg, c);
    assert e.args[..|e.args|] == e.args;
  }

  /** Two declarations agree on the number and the types of their
      parameters. */
  predicate SameSignature(f: Function, g: Function) {
    |f.params| == |g.params| && forall i :: 0 <= i < |f.params| ==> f.params[i].ty == g.params[i].ty
  }

  /** Every function seen so far is registered under its name with its own
      signature. */
  predicate Consistent(fs: seq<Function>, reg: Registry) {
    forall j :: 0 <= j < |fs| ==> fs[j].id in reg && SameSignature(fs[j], reg[fs[j].id])
  }

  /** A redeclaration accepted against the registry has the registered
      signature. */
  lemma AcceptedSignature(f: Function, reg: Registry)
    requires f.id in reg && Redeclaration(f, reg).None?
    ensures SameSignature(f, reg[f.id])
  {
  }

  /** Whatever the registry held before, the functions compiled from the
      `i`-th on are all registered at the end with their own signature. */
  lemma {:induction false} FunctionsConsistent(p: Program, i: nat, reg: Registry, c: nat)
    requires i <= |p.functions| && GenFunctionsFrom(p, i, reg, c).Ok?
    ensures Consistent(p.functions[i..], GenFunctionsFrom(p, i, reg, c).value.reg)
    decreases |p.functions| - i
  {
    if i < |p.functions| {
      var f := p.functions[i];
      var x := GenFunction(f, reg, c).value;
      FunctionsConsistent(p, i + 1, x.reg, x.next);
      var fin := GenFunctionsFrom(p, i + 1, x.reg, x.next).value.reg;
      assert GenFunctionsFrom(p, i, reg, c).value.reg == fin;
      KeptSignature(p, i + 1, x.reg, x.next, f);
      forall j | 0 <= j < |p.functions[i..]|
        ensures p.functions[i..][j].id in fin && SameSignature(p.functions[i..][j], fin[p.functions[i..][j].id])
      {
        if j > 0 {
          assert p.functions[i..][j] == p.functions[i + 1..][j - 1];
        }
      }
    }
  }

  /** A function registered with signature `f` keeps a registered entry of
      the same signature while the later functions compile. */
  lemma {:induction false} KeptSignature(p: Program, i: nat, reg: Registry, c: nat, f: Function)
    requires i <= |p.functions| && GenFunctionsFrom(p, i, reg, c).Ok?
    requires f.id in reg && SameSignature(f, reg[f.id])
    ensures var fin := GenFunctionsFrom(p, i, reg, c).value.reg;
            f.id in fin && SameSignature(f, fin[f.id])
    decreases |p.functions| - i
  {
    if i < |p.functions| {
      var g := p.functions[i];
      var x := GenFunction(g, reg, c).value;
      if g.id == f.id {
        AcceptedSignature(g, reg);
      }
      KeptSignature(p, i + 1, x.reg, x.next, f);
    }
  }

  /** All declarations of one name in a compiled program agree on their
      signature (codegen.hpp:132-146). */
  lemma ProgramSignatures(p: Program)
    requires GenProgram(p).Ok?
    ensures forall j, k :: 0 <= j < |p.functions| && 0 <= k < |p.functions| && p.functions[j].id == p.functions[k].id
              ==> SameSignature(p.functions[j], p.functions[k])
  {
    var fin := GenProgram(p).value.reg;
    FunctionsConsistent(p, 0, map[], 0);
    assert p.functions[0..] == p.functions;
    forall j, k | 0 <= j < |p.functions| && 0 <= k < |p.functions| && p.functions[j].id == p.functions[k].id
      ensures SameSignature(p.functions[j], p.functions[k])
    {
      assert SameSignature(p.functions[j], fin[p.functions[j].id]);
      assert SameSignature(p.functions[k], fin[p.functions[k].id]);
    }
  }

  /** As written, the registry keeps only the newest declaration, so a
      prototype after a definition clears the "defined" mark and a second
      definition of the same function is accepted: the program
      `int f() {} int f(); int f() {}` compiles, with `_f:` emitted twice
      (codegen.hpp:133-147). */
  lemma RedefinitionAccepted()
    ensures var def := Function("int", "f", [], true, []);
            var p := Program([def, def.(defined := false), def]);
            && GenProgram(p).Ok?
            && |GenProgram(p).value.code| == 16
            && GenProgram(p).value.code[1] == FunLabel("f") == GenProgram(p).value.code[9]
  {
    var def := Function("int", "f", [], true, []);
    var p := Program([def, def.(defined := false), def]);
    var one := Prologue("f") + [] + FallThrough;
    assert GenCompoundFrom(Compound([]), 0, EntryFrame(def), NoLoop, map["f" := def], 0) == Ok(Emitted(EntryFrame(def), [], 0));
    assert GenFunction(def, map[], 0) == Ok(Compiled(map["f" := def], one, 0));
    assert Redeclaration(def.(defined := false), map["f" := def]) == None;
    assert map["f" := def]["f" := def.(defined := false)] == map["f" := def.(defined := false)];
    assert GenFunction(def.(defined := false), map["f" := def], 0) == Ok(Compiled(map["f" := def.(defined := false)], [], 0));
    assert Redeclaration(def, map["f" := def.(defined := false)]) == None;
    assert map["f" := def.(defined := false)]["f" := def] == map["f" := def];
    assert GenFunction(def, map["f" := def.(defined := false)], 0) == Ok(Compiled(map["f" := def], one, 0));
    assert GenFunctionsFrom(p, 3, map["f" := def], 0) == Ok(Compiled(map["f" := def], [], 0));
    assert GenFunctionsFrom(p, 2, map["f" := def.(defined := false)], 0) == Ok(Compiled(map["f" := def], one + [], 0));
    assert GenFunctionsFrom(p, 1, map["f" := def], 0) == Ok(Compiled(map["f" := def], [] + (one + []), 0));
    assert GenProgram(p).value.code == one + ([] + (one + []));
  }

  /** The generator with the evidently intended check: the names already
      defined are remembered apart from the registry, and a second
      definition of one of them is rejected whatever was declared in
      between. */
  function GenFunctionsChecked(p: Program, i: nat, reg: Registry, defs: set<Ident>, c: nat): (r: Result<Compiled, CodegenError>)
    requires i <= |p.functions|
    ensures r.Ok? ==> GenFunctionsFrom(p, i, reg, c) == r
    decreases |p.functions| - i
  {
    if i == |p.functions| then Ok(Compiled(reg, [], c))
    else
      var f := p.functions[i];
      if f.defined && f.id in defs then Err(MultipleDefinitions(f.id))
      else
        var x :- GenFunction(f, reg, c);
        var rest :- GenFunctionsChecked(p, i + 1, x.reg, if f.defined then defs + {f.id} else defs, x.next);
        Ok(Compiled(rest.reg, x.code + rest.code, rest.next))
  }

  function GenProgramChecked(p: Program): Result<Compiled, CodegenError> {
    GenFunctionsChecked(p, 0, map[], {}, 0)
  }

  /** With the corrected check, no function of the remaining ones is
      defined twice, nor defined when its name is in `defs`. */
  lemma {:induction false} CheckedDefinesOnce(p: Program, i: nat, reg: Registry, defs: set<Ident>, c: nat)
    requires i <= |p.functions| && GenFunctionsChecked(p, i, reg, defs, c).Ok?
    ensures forall k :: i <= k < |p.functions| && p.functions[k].defined ==> p.functions[k].id !in defs
    ensures forall j, k :: i <= j < k < |p.functions| && p.functions[j].defined && p.functions[k].defined
              ==> p.functions[j].id != p.functions[k].id
    decreases |p.functions| - i
  {
    if i < |p.functions| {
      var f := p.functions[i];
      var x := GenFunction(f, reg, c).value;
      var defs1 := if f.defined then defs + {f.id} else defs;
      CheckedDefinesOnce(p, i + 1, x.reg, defs1, x.next);
    }
  }

  /** The corrected generator accepts no program that defines a function
      twice, and produces exactly the code of the generator as written
      whenever it accepts, so every property proved of `GenProgram` holds
      of it as well. */
  lemma CheckedProgram(p: Program)
    requires GenProgramChecked(p).Ok?
    ensures GenProgram(p) == GenProgramChecked(p)
    ensures forall j, k :: 0 <= j < k < |p.functions| && p.functions[j].defined && p.functions[k].defined
              ==> p.functions[j].id != p.functions[k].id
  {
    CheckedDefinesOnce(p, 0, map[], {}, 0);
  }

  /** Conversely, the corrected check rejects nothing else: where the
      generator as written succeeds and no name is defined twice, the
      corrected generator gives the same result. */
  lemma {:induction false} DefinedOnceAccepted(p: Program, i: nat, reg: Registry, defs: set<Ident>, c: nat)
    requires i <= |p.functions| && GenFunctionsFrom(p, i, reg, c).Ok?
    requires forall k :: i <= k < |p.functions| && p.functions[k].defined ==> p.functions[k].id !in defs
    requires forall j, k :: i <= j < k < |p.functions| && p.functions[j].defined && p.functions[k].defined
               ==> p.functions[j].id != p.functions[k].id
    ensures GenFunctionsChecked(p, i, reg, defs, c) == GenFunctionsFrom(p, i, reg, c)
    decreases |p.functions| - i
  {
    if i < |p.functions| {
      var f := p.functions[i];
      var x := GenFunction(f, reg, c).value;
      var defs1 := if f.defined then defs + {f.id} else defs;
      DefinedOnceAccepted(p, i + 1, x.reg, defs1, x.next);
    }
  }

  lemma ProgramDefinedOnce(p: Program)
    requires GenProgram(p).Ok?
    requires forall j, k :: 0 <= j < k < |p.functions| && p.functions[j].defined && p.functions[k].defined
               ==> p.functions[j].id != p.functions[k].id
    ensures GenProgramChecked(p) == GenProgram(p)
  {
    DefinedOnceAccepted(p, 0, map[], {}, 0);
  }

  /** The program of `RedefinitionAccepted` is rejected by the corrected
      generator. */
  lemma RedefinitionRejected()
    ensures var def := Function("int", "f", [], true, []);
            GenProgramChecked(Program([def, def.(defined := false), def])) == Err(MultipleDefinitions("f"))
  {
    var def := Function("int", "f", [], true, []);
    var p := Program([def, def.(defined := false), def]);
    var one := Prologue("f") + [] + FallThrough;
    assert GenCompoundFrom(Compound([]), 0, EntryFrame(def), NoLoop, map["f" := def], 0) == Ok(Emitted(EntryFrame(def), [], 0));
    assert GenFunction(def, map[], 0) == Ok(Compiled(map["f" := def], one, 0));
    assert Redeclaration(def.(defined := false), map["f" := def]) == None;
    assert map["f" := def]["f" := def.(defined := false)] == map["f" := def.(defined := false)];
    assert GenFunction(def.(defined := false), map["f" := def], 0) == Ok(Compiled(map["f" := def.(defined := false)], [], 0));
    assert GenFunctionsChecked(p, 2, map["f" := def.(defined := false)], {"f"}, 0) == Err(MultipleDefinitions("f"));
    assert GenFunctionsChecked(p, 1, map["f" := def], {"f"}, 0) == Err(MultipleDefinitions("f"));
    var none: set<Ident> := {};
    assert none + {"f"} == {"f"};
    assert map[]["f" := def] == map["f" := def];
    assert GenFunctionsChecked(p, 0, map[], {}, 0) == Err(MultipleDefinitions("f"));
  }
}
