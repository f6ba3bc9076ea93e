/** The generator's global state (codegen.hpp:8-9) and the loops that drive
    it: the program loop (codegen.hpp:115-123), the function entry with its
    redeclaration check and parameter binding, and the loop over the items
    of a function body (codegen.hpp:125-180).  Each method is proved to
    compute what the corresponding function of `Codegen` specifies. */
module Generator {
  import opened Wrappers
  import opened Ast
  import opened Asm
  import opened CodegenExpr
  import opened Codegen
  import opened CodegenFacts
  import opened StackCheck
  import opened ExprWalk
  import opened StmtWalk

  /** `r` with `out` placed before its code. */
  function PrefixItems(out: seq<Instr>, r: ItemsOut): ItemsOut {
    if r.Err? then r else Ok(Emitted(r.value.frame, out + r.value.code, r.value.next))
  }

  function PrefixCompiled(out: seq<Instr>, r: Result<Compiled, CodegenError>): Result<Compiled, CodegenError> {
    if r.Err? then r else Ok(Compiled(r.value.reg, out + r.value.code, r.value.next))
  }

  class Generator {
    /** `global_counter`: the next construct id. */
    var counter: nat
    /** `global_functions`: the latest declaration of each function. */
    var functions: Registry

    constructor ()
      ensures counter == 0 && functions == map[]
    {
      counter := 0;
      functions := map[];
    }

    /** The checks of a declaration against the registered one, in the
        source's order: two definitions, then the parameter count, then the
        parameter types position by position (codegen.hpp:132-146). */
    method CheckRedeclaration(f: Function) returns (err: Option<CodegenError>)
      ensures err == Redeclaration(f, functions)
    {
      if f.id !in functions {
        return None;
      }
      var g := functions[f.id];
      if g.defined && f.defined {
        return Some(MultipleDefinitions(f.id));
      }
      if |f.params| != |g.params| {
        return Some(ConflictingTypes(f.id));
      }
      var i := 0;
      while i < |g.params|
        invariant 0 <= i <= |g.params|
        invariant forall k :: 0 <= k < i ==> f.params[k].ty == g.params[k].ty
      {
        if f.params[i].ty != g.params[i].ty {
          return Some(ConflictingTypes(f.id));
        }
        i := i + 1;
      }
      return None;
    }

    /** The items of a function body, threading the frame and the counter
        from one item to the next (codegen.hpp:171-173). */
    method CompileItems(items: seq<BlockItem>, fr0: Frame) returns (r: ItemsOut)
      modifies this
      ensures functions == old(functions)
      ensures r == GenCompoundFrom(Compound(items), 0, fr0, NoLoop, functions, old(counter))
      ensures r.Ok? ==> counter == r.value.next
    {
      var s := Compound(items);
      var out: seq<Instr> := [];
      var fr := fr0;
      var i := 0;
      PrefixNothing(GenCompoundFrom(s, 0, fr0, NoLoop, functions, counter));
      while i < |items|
        invariant 0 <= i <= |items|
        invariant functions == old(functions)
        invariant PrefixItems(out, GenCompoundFrom(s, i, fr, NoLoop, functions, counter))
                  == GenCompoundFrom(s, 0, fr0, NoLoop, functions, old(counter))
      {
        var x := GenBlockItem(items[i], fr, NoLoop, functions, counter);
        if x.Err? {
          return Err(x.error);
        }
        ItemsStep(s, i, fr, functions, counter, out);
        out := out + x.value.code;
        fr := x.value.frame;
        counter := x.value.next;
        i := i + 1;
      }
      assert out + [] == out;
      return Ok(Emitted(fr, out, counter));
    }

    /** One function: the redeclaration check, the registration of the new
        declaration, and for a definition the parameter binding, the
        prologue, the body and the fall-through epilogue
        (codegen.hpp:125-180). */
    method CompileFunction(f: Function) returns (r: Result<seq<Instr>, CodegenError>)
      modifies this
      ensures var spec := GenFunction(f, old(functions), old(counter));
              && (r.Ok? <==> spec.Ok?)
              && (spec.Ok? ==> r.value == spec.value.code && functions == spec.value.reg && counter == spec.value.next)
              && (spec.Err? ==> r.error == spec.error)
    {
      var err := CheckRedeclaration(f);
      if err.Some? {
        return Err(err.value);
      }
      functions := functions[f.id := f];
      if !f.defined {
        return Ok([]);
      }
      var fr := BindParams(f.params);
      var body := CompileItems(f.items, fr);
      if body.Err? {
        return Err(body.error);
      }
      return Ok(Prologue(f.id) + body.value.code + FallThrough);
    }

    /** The functions of a program in order, appending their code
        (codegen.hpp:115-123). */
    method Compile(p: Program) returns (r: Result<seq<Instr>, CodegenError>)
      modifies this
      ensures var spec := GenFunctionsFrom(p, 0, old(functions), old(counter));
              && (r.Ok? <==> spec.Ok?)
              && (spec.Ok? ==> r.value == spec.value.code && functions == spec.value.reg && counter == spec.value.next)
              && (spec.Err? ==> r.error == spec.error)
    {
      var out: seq<Instr> := [];
      var i := 0;
      PrefixNothingCompiled(GenFunctionsFrom(p, 0, functions, counter));
      while i < |p.functions|
        invariant 0 <= i <= |p.functions|
        invariant PrefixCompiled(out, GenFunctionsFrom(p, i, functions, counter))
                  == GenFunctionsFrom(p, 0, old(functions), old(counter))
      {
        ghost var reg0, c0 := functions, counter;
        var code := CompileFunction(p.functions[i]);
        if code.Err? {
          return Err(code.error);
        }
        FunctionsStep(p, i, reg0, c0, out);
        out := out + code.value;
        i := i + 1;
      }
      assert out + [] == out;
      return Ok(out);
    }
  }

  lemma PrefixNothing(r: ItemsOut)
    ensures PrefixItems([], r) == r
  {
    if r.Ok? {
      assert [] + r.value.code == r.value.code;
    }
  }

  lemma PrefixNothingCompiled(r: Result<Compiled, CodegenError>)
    ensures PrefixCompiled([], r) == r
  {
    if r.Ok? {
      assert [] + r.value.code == r.value.code;
    }
  }

  /** One step of the item loop: an item that compiles moves its code from
      the items still to do to the code already emitted. */
  lemma ItemsStep(s: Statement, i: nat, fr: Frame, reg: Registry, c: nat, out: seq<Instr>)
    requires s.Compound? && i < |s.items| && GenBlockItem(s.items[i], fr, NoLoop, reg, c).Ok?
    ensures var x := GenBlockItem(s.items[i], fr, NoLoop, reg, c).value;
            PrefixItems(out, GenCompoundFrom(s, i, fr, NoLoop, reg, c))
            == PrefixItems(out + x.code, GenCompoundFrom(s, i + 1, x.frame, NoLoop, reg, x.next))
  {
    var x := GenBlockItem(s.items[i], fr, NoLoop, reg, c).value;
    var rest := GenCompoundFrom(s, i + 1, x.frame, NoLoop, reg, x.next);
    if rest.Ok? {
      assert out + (x.code + rest.value.code) == out + x.code + rest.value.code;
    }
  }

  /** One step of the program loop. */
  lemma FunctionsStep(p: Program, i: nat, reg: Registry, c: nat, out: seq<Instr>)
    requires i < |p.functions| && GenFunction(p.functions[i], reg, c).Ok?
    ensures var x := GenFunction(p.functions[i], reg, c).value;
            PrefixCompiled(out, GenFunctionsFrom(p, i, reg, c))
            == PrefixCompiled(out + x.code, GenFunctionsFrom(p, i + 1, x.reg, x.next))
  {
    var x := GenFunction(p.functions[i], reg, c).value;
    var rest := GenFunctionsFrom(p, i + 1, x.reg, x.next);
    if rest.Ok? {
      assert out + (x.code + rest.value.code) == out + x.code + rest.value.code;
    }
  }

  /** The parameter loop: parameter `i` gets offset `8 + 4 * i` and joins
      the outermost scope (codegen.hpp:153-162). */
  method BindParams(ps: seq<Param>) returns (fr: Frame)
    ensures fr == Frame(ParamLocals(ps), ParamNames(ps), -4)
  {
    var locals: Locals := map[];
    var scope: set<Ident> := {};
    var i := 0;
    while i < |ps|
      invariant 0 <= i <= |ps|
      invariant locals == ParamLocals(ps[..i]) && scope == ParamNames(ps[..i])
    {
      assert ps[..i + 1][..i] == ps[..i];
      ParamNamesLast(ps[..i + 1]);
      locals := locals[ps[i].name := 8 + 4 * i];
      scope := scope + {ps[i].name};
      i := i + 1;
    }
    assert ps[..i] == ps;
    return Frame(locals, scope, -4);
  }

  /** A whole compilation, starting from the empty registry and the counter
      at 0: it computes `GenProgram`, so its code passes the stack and label
      checker, ends in dead code, defines every label it jumps to and defines
      no label twice. */
  method CompileProgram(p: Program) returns (r: Result<seq<Instr>, CodegenError>)
    ensures r.Ok? <==> GenProgram(p).Ok?
    ensures r.Ok? ==> r.value == GenProgram(p).value.code
    ensures r.Err? ==> r.error == GenProgram(p).error
    ensures r.Ok? ==> && Walk(Initial, r.value).Some?
                      && After(Initial, r.value).depth.Dead?
                      && After(Initial, r.value).used <= After(Initial, r.value).defined
                      && Distinct(Defines(r.value))
  {
    var g := new Generator();
    r := g.Compile(p);
    if r.Ok? {
      ProgramWalks(p);
    }
  }
}
