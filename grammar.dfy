/** The grammar both parsers accept, `int IDENT ( ) { return UNOP* INT ; }`
    (parser.hpp:11-193, parser_struct.hpp:35-166), as functions from a
    token list to the parsed node and the tokens left over.  The node
    types are the fields the two parsers fill in; each `throw` is an
    `Err`, and reading the front of an empty list, undefined in the
    source, is the error `EndOfInput`. */
module Grammar {
  import opened Wrappers
  import opened Text
  import opened Conversion

  datatype Expr = Const(value: int) | Unary(op: string, operand: Expr)

  /** `statement_type` is always `return`. */
  datatype Stmt = Return(expr: Expr)

  datatype Func = Func(returnType: string, id: string, statements: seq<Stmt>)

  datatype Prog = Prog(functions: seq<Func>)

  datatype ParseError =
    | EndOfInput
    | InvalidOperator(token: string)
    | InvalidLiteral(token: string)
    | InvalidStatement(token: string)
    | ExpectedSemicolon
    | InvalidReturnType(token: string)
    | InvalidIdentifier(token: string)
    | ExpectedOpenParen
    | ExpectedCloseParen
    | ExpectedOpenBrace
    | ExpectedCloseBrace
    | TrailingTokens

  /** The text of the `runtime_error` each error is thrown with. */
  function Message(e: ParseError): string {
    match e
    case EndOfInput => "unexpected end of input\n"
    case InvalidOperator(t) => "invalid operator: " + t + "\n"
    case InvalidLiteral(t) => "invalid integer literal: " + t + "\n"
    case InvalidStatement(t) => "invalid statement: " + t + "\n"
    case ExpectedSemicolon => "expected ';'\n"
    case InvalidReturnType(t) => "invalid return type: " + t + "\n"
    case InvalidIdentifier(t) => "invalid function identifier: " + t + "\n"
    case ExpectedOpenParen => "expected '(' after function identifier\n"
    case ExpectedCloseParen => "expected ')'\n"
    case ExpectedOpenBrace => "expected '{'\n"
    case ExpectedCloseBrace => "expected '}'\n"
    case TrailingTokens => "unexpected tokens after function definition\n"
  }

  /** The token fully matches `[!~-]`. */
  predicate IsUnaryOp(t: string) {
    t == "!" || t == "~" || t == "-"
  }

  predicate IsWordChar(c: char) {
    'A' <= c <= 'Z' || 'a' <= c <= 'z' || '0' <= c <= '9' || c == '_'
  }

  /** The token fully matches `[A-Za-z_]\w*`. */
  predicate IsIdent(t: string) {
    |t| >= 1 && IsWordChar(t[0]) && !IsDigit(t[0])
    && forall k :: 1 <= k < |t| ==> IsWordChar(t[k])
  }

  /** `rest` is what is left of `ts` after some tokens were popped from its
      front. */
  predicate IsSuffix(rest: seq<string>, ts: seq<string>) {
    |rest| <= |ts| && ts[|ts| - |rest|..] == rest
  }

  lemma SuffixRefl(ts: seq<string>)
    ensures IsSuffix(ts, ts)
  {
    assert ts[0..] == ts;
  }

  lemma SuffixTrans(a: seq<string>, b: seq<string>, c: seq<string>)
    requires IsSuffix(a, b) && IsSuffix(b, c)
    ensures IsSuffix(a, c)
  {
    assert c[|c| - |a|..] == c[|c| - |b|..][|b| - |a|..];
  }

  lemma SuffixTail(ts: seq<string>)
    requires ts != []
    ensures IsSuffix(ts[1..], ts)
  {
  }

  /** The `std::list<std::string>` the parsers pop tokens from. */
  class TokenList {
    var tokens: seq<string>

    constructor (ts: seq<string>)
      ensures tokens == ts
    {
      tokens := ts;
    }
  }

  /** A parsing method did what `spec` says: on success it returned the
      node and left the rest of the list; on failure it reported the same
      error, having only popped tokens from the front. */
  predicate Follows<T(==)>(r: Result<T, ParseError>, spec: Result<(T, seq<string>), ParseError>,
                       before: seq<string>, after: seq<string>)
  {
    && (r.Ok? <==> spec.Ok?)
    && (spec.Ok? ==> r.value == spec.value.0 && after == spec.value.1)
    && (spec.Err? ==> r.error == spec.error && IsSuffix(after, before))
  }

  /** The number of operators above the literal. */
  function Ops(e: Expr): nat {
    match e
    case Const(_) => 0
    case Unary(_, x) => 1 + Ops(x)
  }

  /** The literal's value. */
  function Leaf(e: Expr): int {
    match e
    case Const(v) => v
    case Unary(_, x) => Leaf(x)
  }

  /** The front token must be `tok`; it is popped. */
  function Expect(ts: seq<string>, tok: string, err: ParseError): (r: Result<seq<string>, ParseError>)
    ensures r.Ok? <==> ts != [] && ts[0] == tok
    ensures r.Ok? ==> r.value == ts[1..]
    ensures r.Err? ==> r.error == (if ts == [] then EndOfInput else err)
  {
    if ts == [] then Err(EndOfInput) else if ts[0] != tok then Err(err) else Ok(ts[1..])
  }

  /** `UnaryOp(tokens)` (parser.hpp:16-23). */
  function UnaryOpOf(ts: seq<string>): (r: Result<(string, seq<string>), ParseError>)
    ensures r.Ok? <==> ts != [] && IsUnaryOp(ts[0])
    ensures r.Ok? ==> r.value == (ts[0], ts[1..])
  {
    if ts == [] then Err(EndOfInput)
    else if IsUnaryOp(ts[0]) then Ok((ts[0], ts[1..]))
    else Err(InvalidOperator(ts[0]))
  }

  /** `Expression(tokens)` (parser.hpp:40-54) and `parse_expression`
      (parser_struct.hpp:35-54): `k` operators and a literal take exactly
      `k + 1` tokens off the front. */
  function ExprOf(ts: seq<string>, base: Base): (r: Result<(Expr, seq<string>), ParseError>)
    ensures r.Ok? ==> IsSuffix(r.value.1, ts) && |ts| - |r.value.1| == Ops(r.value.0) + 1
    decreases |ts|
  {
    if ts == [] then Err(EndOfInput)
    else if !IsUnaryOp(ts[0]) then
      match Stoi(ts[0], base)
      case None => Err(InvalidLiteral(ts[0]))
      case Some(v) => Ok((Const(v), ts[1..]))
    else
      var x :- ExprOf(ts[1..], base);
      Ok((Unary(ts[0], x.0), x.1))
  }

  /** `Statement(tokens)` (parser.hpp:75-88) and `parse_statement`
      (parser_struct.hpp:67-84). */
  function StatementOf(ts: seq<string>, base: Base): (r: Result<(Stmt, seq<string>), ParseError>)
    ensures r.Ok? ==> IsSuffix(r.value.1, ts) && |ts| - |r.value.1| == Ops(r.value.0.expr) + 3
  {
    if ts == [] then Err(EndOfInput)
    else if ts[0] != "return" then Err(InvalidStatement(ts[0]))
    else
      var x :- ExprOf(ts[1..], base);
      var rest :- Expect(x.1, ";", ExpectedSemicolon);
      Ok((Return(x.0), rest))
  }

  /** `Function(tokens)` (parser.hpp:111-145) and `parse_function`
      (parser_struct.hpp:99-136): the checks in the order the source makes
      them, each with its own error. */
  function FunctionOf(ts: seq<string>, base: Base): (r: Result<(Func, seq<string>), ParseError>)
    ensures r.Ok? ==> IsSuffix(r.value.1, ts) && |r.value.0.statements| == 1
    ensures r.Ok? ==> |ts| - |r.value.1| == Ops(r.value.0.statements[0].expr) + 9
  {
    if ts == [] then Err(EndOfInput)
    else if ts[0] != "int" then Err(InvalidReturnType(ts[0]))
    else if |ts| == 1 then Err(EndOfInput)
    else if !IsIdent(ts[1]) then Err(InvalidIdentifier(ts[1]))
    else
      var t1 :- Expect(ts[2..], "(", ExpectedOpenParen);
      var t2 :- Expect(t1, ")", ExpectedCloseParen);
      var t3 :- Expect(t2, "{", ExpectedOpenBrace);
      var s :- StatementOf(t3, base);
      var t4 :- Expect(s.1, "}", ExpectedCloseBrace);
      Ok((Func(ts[0], ts[1], [s.0]), t4))
  }

  /** `Program(tokens)` (parser.hpp:172-178) and `parse_program`
      (parser_struct.hpp:156-166): one function and nothing after it. */
  function ProgramOf(ts: seq<string>, base: Base): (r: Result<Prog, ParseError>)
    ensures r.Ok? ==> |r.value.functions| == 1
  {
    var f :- FunctionOf(ts, base);
    if f.1 != [] then Err(TrailingTokens) else Ok(Prog([f.0]))
  }

  // The accepted token lists, spelled out.

  /** The tokens of `e`, with `lit` as the literal's spelling. */
  function ExprSpell(e: Expr, lit: string): seq<string> {
    match e
    case Const(_) => [lit]
    case Unary(op, x) => [op] + ExprSpell(x, lit)
  }

  function StatementSpell(s: Stmt, lit: string): seq<string> {
    ["return"] + ExprSpell(s.expr, lit) + [";"]
  }

  function FunctionSpell(f: Func, lit: string): seq<string>
    requires |f.statements| == 1
  {
    ["int", f.id, "(", ")", "{"] + StatementSpell(f.statements[0], lit) + ["}"]
  }

  function ProgramSpell(p: Prog, lit: string): seq<string>
    requires |p.functions| == 1 && |p.functions[0].statements| == 1
  {
    FunctionSpell(p.functions[0], lit)
  }

  /** Every operator is one of `! ~ -`. */
  predicate OpsValid(e: Expr) {
    match e
    case Const(_) => true
    case Unary(op, x) => IsUnaryOp(op) && OpsValid(x)
  }

  /** The functions the parser can build. */
  predicate FuncShape(f: Func) {
    f.returnType == "int" && IsIdent(f.id) && |f.statements| == 1 && OpsValid(f.statements[0].expr)
  }

  predicate ProgShape(p: Prog) {
    |p.functions| == 1 && FuncShape(p.functions[0])
  }

  function ProgLeaf(p: Prog): int
    requires ProgShape(p)
  {
    Leaf(p.functions[0].statements[0].expr)
  }

  lemma NoOpConverts(op: string, base: Base)
    requires IsUnaryOp(op)
    ensures Stoi(op, base) == None
  {
    assert Span(op, 8) == 0 && Span(op, 10) == 0;
  }

  /** An expression is read back from its tokens whatever follows them. */
  lemma {:induction false} ExprParses(e: Expr, lit: string, rest: seq<string>, base: Base)
    requires OpsValid(e) && Stoi(lit, base) == Some(Leaf(e))
    ensures ExprOf(ExprSpell(e, lit) + rest, base) == Ok((e, rest))
  {
    var ts := ExprSpell(e, lit) + rest;
    match e
    case Const(v) =>
      assert ts[0] == lit && ts[1..] == rest;
      if IsUnaryOp(lit) {
        NoOpConverts(lit, base);
      }
    case Unary(op, x) =>
      assert ts[0] == op && ts[1..] == ExprSpell(x, lit) + rest;
      ExprParses(x, lit, rest, base);
  }

  /** What `ExprOf` accepts is an expression's tokens, with a literal that
      converts to its value. */
  lemma {:induction false} ExprParsed(ts: seq<string>, base: Base)
    requires ExprOf(ts, base).Ok?
    ensures var (e, rest) := ExprOf(ts, base).value;
            && OpsValid(e) && Ops(e) < |ts| && Stoi(ts[Ops(e)], base) == Some(Leaf(e))
            && ts == ExprSpell(e, ts[Ops(e)]) + rest
    decreases |ts|
  {
    var (e, rest) := ExprOf(ts, base).value;
    if IsUnaryOp(ts[0]) {
      ExprParsed(ts[1..], base);
      var (x, r) := ExprOf(ts[1..], base).value;
      assert e == Unary(ts[0], x) && rest == r;
      assert Ops(e) == Ops(x) + 1 && Leaf(e) == Leaf(x);
      assert ts[1..][Ops(x)] == ts[Ops(e)];
      var lit := ts[Ops(e)];
      assert ExprSpell(e, lit) == [ts[0]] + ExprSpell(x, lit);
      calc {
        ts;
        [ts[0]] + ts[1..];
        [ts[0]] + (ExprSpell(x, lit) + r);
        { Text.Assoc([ts[0]], ExprSpell(x, lit), r); }
        ExprSpell(e, lit) + rest;
      }
    } else {
      assert e == Const(Leaf(e)) && rest == ts[1..] && Ops(e) == 0;
      assert ts == [ts[0]] + ts[1..];
    }
  }

  lemma StatementParses(s: Stmt, lit: string, rest: seq<string>, base: Base)
    requires OpsValid(s.expr) && Stoi(lit, base) == Some(Leaf(s.expr))
    ensures StatementOf(StatementSpell(s, lit) + rest, base) == Ok((s, rest))
  {
    var ts := StatementSpell(s, lit) + rest;
    var es := ExprSpell(s.expr, lit);
    assert ts[0] == "return" && ts[1..] == es + ([";"] + rest);
    ExprParses(s.expr, lit, [";"] + rest, base);
  }

  lemma StatementParsed(ts: seq<string>, base: Base)
    requires StatementOf(ts, base).Ok?
    ensures var (s, rest) := StatementOf(ts, base).value;
            && OpsValid(s.expr) && Ops(s.expr) + 1 < |ts| && Stoi(ts[Ops(s.expr) + 1], base) == Some(Leaf(s.expr))
            && ts == StatementSpell(s, ts[Ops(s.expr) + 1]) + rest
  {
    var (s, rest) := StatementOf(ts, base).value;
    ExprParsed(ts[1..], base);
    var (e, r) := ExprOf(ts[1..], base).value;
    assert s.expr == e;
    var lit := ts[Ops(e) + 1];
    assert ts[1..][Ops(e)] == lit;
    var es := ExprSpell(e, lit);
    Rebuild(r, [";"], rest);
    Rebuild(ts, ["return"], es + ([";"] + rest));
    Assoc(es, [";"], rest);
    Assoc(["return"], es + [";"], rest);
    Assoc(["return"], es, [";"]);
  }

  lemma FunctionParses(f: Func, lit: string, rest: seq<string>, base: Base)
    requires FuncShape(f) && Stoi(lit, base) == Some(Leaf(f.statements[0].expr))
    ensures FunctionOf(FunctionSpell(f, lit) + rest, base) == Ok((f, rest))
  {
    var ts := FunctionSpell(f, lit) + rest;
    var ss := StatementSpell(f.statements[0], lit);
    assert ts[0] == "int" && ts[1] == f.id;
    assert ts[2..] == ["(", ")", "{"] + (ss + (["}"] + rest));
    StatementParses(f.statements[0], lit, ["}"] + rest, base);
    assert f == Func("int", f.id, [f.statements[0]]);
  }

  /** What a successful `FunctionOf` has checked, token by token. */
  lemma FunctionOfOk(ts: seq<string>, base: Base)
    requires FunctionOf(ts, base).Ok?
    ensures |ts| >= 5 && ts[..5] == ["int", ts[1], "(", ")", "{"] && IsIdent(ts[1])
    ensures StatementOf(ts[5..], base).Ok?
    ensures var (s, r) := StatementOf(ts[5..], base).value;
            && r != [] && r[0] == "}"
            && FunctionOf(ts, base).value == (Func("int", ts[1], [s]), r[1..])
  {
    assert ts[2..][1..][1..][1..] == ts[5..];
  }

  lemma FunctionParsed(ts: seq<string>, base: Base)
    requires FunctionOf(ts, base).Ok?
    ensures var (f, rest) := FunctionOf(ts, base).value;
            var k := Ops(f.statements[0].expr) + 6;
            && FuncShape(f) && k < |ts| && Stoi(ts[k], base) == Some(Leaf(f.statements[0].expr))
            && ts == FunctionSpell(f, ts[k]) + rest
  {
    var (f, rest) := FunctionOf(ts, base).value;
    var t3 := ts[5..];
    FunctionOfOk(ts, base);
    StatementParsed(t3, base);
    var (s, r) := StatementOf(t3, base).value;
    assert f == Func("int", ts[1], [s]);
    var lit := ts[Ops(s.expr) + 6];
    assert t3[Ops(s.expr) + 1] == lit;
    var ss := StatementSpell(s, lit);
    var head := ["int", f.id, "(", ")", "{"];
    Rebuild(r, ["}"], rest);
    Rebuild(ts, head, ss + (["}"] + rest));
    Assoc(ss, ["}"], rest);
    Assoc(head, ss + ["}"], rest);
    Assoc(head, ss, ["}"]);
  }

  /** The accepted token lists, exactly: a program parses iff its tokens
      are `int`, an identifier, `( ) {`, `return`, operators, a literal that
      converts to the program's value, `; }`, and nothing else. */
  lemma ProgramAccepts(ts: seq<string>, p: Prog, base: Base)
    ensures ProgramOf(ts, base) == Ok(p)
            <==> ProgShape(p) && exists lit :: Stoi(lit, base) == Some(ProgLeaf(p)) && ts == ProgramSpell(p, lit)
  {
    if ProgramOf(ts, base) == Ok(p) {
      FunctionParsed(ts, base);
      var (f, rest) := FunctionOf(ts, base).value;
      var k := Ops(f.statements[0].expr) + 6;
      assert ts == FunctionSpell(f, ts[k]) + [];
    }
    if ProgShape(p) && exists lit :: Stoi(lit, base) == Some(ProgLeaf(p)) && ts == ProgramSpell(p, lit) {
      var lit :| Stoi(lit, base) == Some(ProgLeaf(p)) && ts == ProgramSpell(p, lit);
      FunctionParses(p.functions[0], lit, [], base);
      assert ts + [] == ts;
      assert p == Prog([p.functions[0]]);
    }
  }

  /** The canonical tokens of a program, its literal printed in decimal. */
  function Unparse(p: Prog): seq<string>
    requires ProgShape(p) && ProgLeaf(p) >= 0
  {
    ProgramSpell(p, NatToString(ProgLeaf(p)))
  }

  /** Both parsers read a program back from its canonical tokens. */
  lemma ProgramRoundTrip(p: Prog, base: Base)
    requires ProgShape(p) && 0 <= ProgLeaf(p) <= IntMax
    ensures ProgramOf(Unparse(p), base) == Ok(p)
  {
    var lit := NatToString(ProgLeaf(p));
    if base == Ten {
      DecimalRoundTrip(ProgLeaf(p), []);
      assert lit + [] == lit;
    } else {
      DetectRoundTrip(ProgLeaf(p));
    }
    ProgramAccepts(Unparse(p), p, base);
  }

  /** Anything after the closing brace is rejected. */
  lemma TrailingRejected(p: Prog, lit: string, extra: seq<string>, base: Base)
    requires ProgShape(p) && Stoi(lit, base) == Some(ProgLeaf(p)) && extra != []
    ensures ProgramOf(ProgramSpell(p, lit) + extra, base) == Err(TrailingTokens)
  {
    FunctionParses(p.functions[0], lit, extra, base);
  }

  /** A literal that does not convert is reported with its spelling. */
  lemma {:induction false} BadLiteral(e: Expr, lit: string, rest: seq<string>, base: Base)
    requires OpsValid(e) && !IsUnaryOp(lit) && Stoi(lit, base) == None
    ensures ExprOf(ExprSpell(e, lit) + rest, base) == Err(InvalidLiteral(lit))
  {
    var ts := ExprSpell(e, lit) + rest;
    match e
    case Const(v) =>
      assert ts[0] == lit;
    case Unary(op, x) =>
      assert ts[0] == op && ts[1..] == ExprSpell(x, lit) + rest;
      BadLiteral(x, lit, rest, base);
  }

  /** `int main ( ) { return 017 ; }` returns fifteen under base detection
      and seventeen in base 10. */
  lemma OctalLiteral()
    ensures ProgramOf(["int", "main", "(", ")", "{", "return", "017", ";", "}"], Detect)
            == Ok(Prog([Func("int", "main", [Return(Const(15))])]))
    ensures ProgramOf(["int", "main", "(", ")", "{", "return", "017", ";", "}"], Ten)
            == Ok(Prog([Func("int", "main", [Return(Const(17))])]))
  {
    OctalDiffers();
    var ts := ["int", "main", "(", ")", "{", "return", "017", ";", "}"];
    var p15 := Prog([Func("int", "main", [Return(Const(15))])]);
    var p17 := Prog([Func("int", "main", [Return(Const(17))])]);
    assert IsIdent("main");
    assert ts == ProgramSpell(p15, "017") && ts == ProgramSpell(p17, "017");
    ProgramAccepts(ts, p15, Detect);
    ProgramAccepts(ts, p17, Ten);
  }
}
