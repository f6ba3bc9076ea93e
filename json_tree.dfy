/** The `jsonify` members of both parsers (parser.hpp:56-66, 90-102,
    147-164, 180-192 and parser_struct.hpp:56-65, 86-97, 138-154, 168-178),
    with a JSON value modelled as a small tree.  The two files differ only
    in whether a unary node records its operator, which is the parameter
    `withOperator`. */
module JsonTree {
  import opened Wrappers
  import opened Text
  import opened Conversion
  import opened Grammar

  /** A JSON value; objects are maps from keys to values, as in the
      library's default object type. */
  datatype Json = Null | Number(n: int) | Str(s: string) | Object(fields: map<string, Json>)

  /** `Expression::jsonify` / `jsonify(Expression)`: the node type, and the
      operator and operand for a unary node or the value for a constant. */
  function ExprJson(e: Expr, withOperator: bool): (j: Json)
    ensures j.Object? && "type" in j.fields
  {
    match e
    case Const(v) => Object(map["type" := Str("const"), "value" := Number(v)])
    case Unary(op, x) =>
      if withOperator then
        Object(map["type" := Str("unary_op"), "operation" := Str(op), "expression" := ExprJson(x, withOperator)])
      else
        Object(map["type" := Str("unary_op"), "expression" := ExprJson(x, withOperator)])
  }

  function StmtJson(s: Stmt, withOperator: bool): Json {
    Object(map["type" := Str("return"), "expression" := ExprJson(s.expr, withOperator)])
  }

  /** The key of the `i`-th entry of a list: `statement0`, `function3`. */
  function Key(prefix: string, i: nat): string {
    prefix + NatToString(i)
  }

  /** The entries of `js` under the keys `prefix0`, `prefix1`, … */
  function Numbered(prefix: string, js: seq<Json>): map<string, Json> {
    if js == [] then map[]
    else Numbered(prefix, js[..|js| - 1])[Key(prefix, |js| - 1) := js[|js| - 1]]
  }

  function StmtJsons(ss: seq<Stmt>, withOperator: bool): (js: seq<Json>)
    ensures |js| == |ss| && forall i :: 0 <= i < |ss| ==> js[i] == StmtJson(ss[i], withOperator)
  {
    if ss == [] then [] else [StmtJson(ss[0], withOperator)] + StmtJsons(ss[1..], withOperator)
  }

  /** `Function::jsonify`: with no statements the `statements` entry stays
      the null value it was declared as. */
  function FuncJson(f: Func, withOperator: bool): Json {
    Object(map[
      "identifier" := Str(f.id),
      "return_type" := Str(f.returnType),
      "statements" := if f.statements == [] then Null
                      else Object(Numbered("statement", StmtJsons(f.statements, withOperator)))])
  }

  function FuncJsons(fs: seq<Func>, withOperator: bool): (js: seq<Json>)
    ensures |js| == |fs| && forall i :: 0 <= i < |fs| ==> js[i] == FuncJson(fs[i], withOperator)
  {
    if fs == [] then [] else [FuncJson(fs[0], withOperator)] + FuncJsons(fs[1..], withOperator)
  }

  /** `Program::jsonify`: an object of functions, still null when there
      are none. */
  function ProgJson(p: Prog, withOperator: bool): Json {
    if p.functions == [] then Null else Object(Numbered("function", FuncJsons(p.functions, withOperator)))
  }

  lemma KeyInjective(prefix: string, i: nat, k: nat)
    requires Key(prefix, i) == Key(prefix, k)
    ensures i == k
  {
    assert NatToString(i) == Key(prefix, i)[|prefix|..];
    assert NatToString(k) == Key(prefix, k)[|prefix|..];
    NatToStringInjective(i, k);
  }

  /** The entries are keyed `prefix0` … `prefix(n-1)` and nothing else. */
  lemma {:induction false} NumberedKeys(prefix: string, js: seq<Json>, i: nat)
    ensures Key(prefix, i) in Numbered(prefix, js) <==> i < |js|
    ensures i < |js| ==> Numbered(prefix, js)[Key(prefix, i)] == js[i]
    ensures forall k :: k in Numbered(prefix, js) ==> exists n: nat :: n < |js| && k == Key(prefix, n)
  {
    if js != [] {
      var init := js[..|js| - 1];
      NumberedKeys(prefix, init, i);
      if Key(prefix, i) == Key(prefix, |js| - 1) {
        KeyInjective(prefix, i, |js| - 1);
      }
      assert forall k :: 0 <= k < |init| ==> init[k] == js[k];
    }
  }

  // Reading the tree back, for the flavour that records operators.

  function ExprFromJson(j: Json): Option<Expr> {
    if !j.Object? || "type" !in j.fields then None
    else if j.fields["type"] == Str("const") && "value" in j.fields && j.fields["value"].Number? then
      Some(Const(j.fields["value"].n))
    else if j.fields["type"] == Str("unary_op") && "operation" in j.fields && j.fields["operation"].Str?
            && "expression" in j.fields then
      match ExprFromJson(j.fields["expression"])
      case None => None
      case Some(x) => Some(Unary(j.fields["operation"].s, x))
    else None
  }

  function StmtFromJson(j: Json): Option<Stmt> {
    if !j.Object? || "type" !in j.fields || "expression" !in j.fields || j.fields["type"] != Str("return") then None
    else
      match ExprFromJson(j.fields["expression"])
      case None => None
      case Some(e) => Some(Return(e))
  }

  /** A function object with exactly one statement, the only kind the
      parsers build. */
  function FuncFromJson(j: Json): Option<Func> {
    if !j.Object? || "identifier" !in j.fields || "return_type" !in j.fields || "statements" !in j.fields then None
    else if !j.fields["identifier"].Str? || !j.fields["return_type"].Str? then None
    else
      var stmts := j.fields["statements"];
      if !stmts.Object? || stmts.fields.Keys != {Key("statement", 0)} then None
      else
        match StmtFromJson(stmts.fields[Key("statement", 0)])
        case None => None
        case Some(s) => Some(Func(j.fields["return_type"].s, j.fields["identifier"].s, [s]))
  }

  /** A program object with exactly one function. */
  function ProgFromJson(j: Json): Option<Prog> {
    if !j.Object? || j.fields.Keys != {Key("function", 0)} then None
    else
      match FuncFromJson(j.fields[Key("function", 0)])
      case None => None
      case Some(f) => Some(Prog([f]))
  }

  /** The expression tree with the operators recorded comes back whole. */
  lemma {:induction false} ExprJsonRoundTrip(e: Expr)
    ensures ExprFromJson(ExprJson(e, true)) == Some(e)
  {
    match e
    case Const(v) =>
    case Unary(op, x) =>
      ExprJsonRoundTrip(x);
  }

  lemma NumberedOne(prefix: string, j: Json)
    ensures Numbered(prefix, [j]) == map[Key(prefix, 0) := j]
  {
    assert [j][..0] == [];
  }

  /** A function with one statement comes back whole from its JSON
      object. */
  lemma FuncJsonRoundTrip(f: Func)
    requires |f.statements| == 1
    ensures FuncFromJson(FuncJson(f, true)) == Some(f)
  {
    var s := f.statements[0];
    assert StmtJsons(f.statements, true) == [StmtJson(s, true)];
    NumberedOne("statement", StmtJson(s, true));
    ExprJsonRoundTrip(s.expr);
    assert f.statements == [s];
  }

  /** What the parsers build, one function with one statement, comes back
      whole from the JSON of the class parser. */
  lemma ProgJsonRoundTrip(p: Prog)
    requires |p.functions| == 1 && |p.functions[0].statements| == 1
    ensures ProgFromJson(ProgJson(p, true)) == Some(p)
  {
    var f := p.functions[0];
    assert FuncJsons(p.functions, true) == [FuncJson(f, true)];
    NumberedOne("function", FuncJson(f, true));
    FuncJsonRoundTrip(f);
    assert p.functions == [f];
  }

  /** Operators without a recorded name: two expressions have the same
      JSON exactly when they agree once their operators are blanked out. */
  function Erase(e: Expr): Expr {
    match e
    case Const(v) => Const(v)
    case Unary(_, x) => Unary("", Erase(x))
  }

  lemma {:induction false} ExprJsonForgets(e1: Expr, e2: Expr)
    ensures ExprJson(e1, false) == ExprJson(e2, false) <==> Erase(e1) == Erase(e2)
  {
    match e1
    case Const(v) =>
      if e2.Unary? {
        assert "value" in ExprJson(e1, false).fields;
        assert "value" !in ExprJson(e2, false).fields;
      } else if ExprJson(e1, false) == ExprJson(e2, false) {
        assert ExprJson(e1, false).fields["value"] == ExprJson(e2, false).fields["value"];
      }
    case Unary(_, x1) =>
      match e2
      case Const(_) =>
        assert "value" !in ExprJson(e1, false).fields;
        assert "value" in ExprJson(e2, false).fields;
      case Unary(_, x2) =>
        ExprJsonForgets(x1, x2);
        if ExprJson(e1, false) == ExprJson(e2, false) {
          assert ExprJson(e1, false).fields["expression"] == ExprJson(x1, false);
          assert ExprJson(e2, false).fields["expression"] == ExprJson(x2, false);
        }
  }

  /** With operators recorded, different expressions give different JSON. */
  lemma ExprJsonKeeps(e1: Expr, e2: Expr)
    requires ExprJson(e1, true) == ExprJson(e2, true)
    ensures e1 == e2
  {
    ExprJsonRoundTrip(e1);
    ExprJsonRoundTrip(e2);
  }

  /** `return -1;` and `return !1;` are told apart by the class parser's
      JSON and not by the free-function parser's. */
  lemma NegationAndNot()
    ensures ExprJson(Unary("-", Const(1)), true) != ExprJson(Unary("!", Const(1)), true)
    ensures ExprJson(Unary("-", Const(1)), false) == ExprJson(Unary("!", Const(1)), false)
  {
    ExprJsonRoundTrip(Unary("-", Const(1)));
    ExprJsonRoundTrip(Unary("!", Const(1)));
    ExprJsonForgets(Unary("-", Const(1)), Unary("!", Const(1)));
  }
}
