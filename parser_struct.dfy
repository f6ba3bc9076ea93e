/** The free-function parser (parser_struct.hpp): the same grammar and
    errors as the class-based parser, with the literal converted by
    `std::stoi` in base 10.  The child of a unary node, which the source
    writes through a pointer it never initialised (parser_struct.hpp:50, 76),
    is an owned value here. */
module ParserStruct {
  import opened Wrappers
  import opened Conversion
  import opened Grammar

  /** `parse_expression` (parser_struct.hpp:35-54): a literal converted in
      base 10, or an operator token kept as it is followed by an
      expression. */
  method ParseExpression(tl: TokenList) returns (r: Result<Expr, ParseError>)
    modifies tl
    ensures Follows(r, ExprOf(old(tl.tokens), Ten), old(tl.tokens), tl.tokens)
    decreases |tl.tokens|
  {
    var start := tl.tokens;
    SuffixRefl(start);
    if tl.tokens == [] {
      return Err(EndOfInput);
    }
    if !IsUnaryOp(tl.tokens[0]) {
      var v := Stoi(tl.tokens[0], Ten);
      if v.None? {
        return Err(InvalidLiteral(tl.tokens[0]));
      }
      tl.tokens := tl.tokens[1..];
      return Ok(Const(v.value));
    }
    var op := tl.tokens[0];
    tl.tokens := tl.tokens[1..];
    var x := ParseExpression(tl);
    if x.Err? {
      SuffixTail(start);
      SuffixTrans(tl.tokens, start[1..], start);
      return Err(x.error);
    }
    return Ok(Unary(op, x.value));
  }

  /** `parse_statement` (parser_struct.hpp:67-84). */
  method ParseStatement(tl: TokenList) returns (r: Result<Stmt, ParseError>)
    modifies tl
    ensures Follows(r, StatementOf(old(tl.tokens), Ten), old(tl.tokens), tl.tokens)
  {
    var start := tl.tokens;
    SuffixRefl(start);
    if tl.tokens == [] {
      return Err(EndOfInput);
    }
    if tl.tokens[0] != "return" {
      return Err(InvalidStatement(tl.tokens[0]));
    }
    tl.tokens := tl.tokens[1..];
    SuffixTail(start);
    var e := ParseExpression(tl);
    SuffixTrans(tl.tokens, start[1..], start);
    if e.Err? {
      return Err(e.error);
    }
    if tl.tokens == [] {
      return Err(EndOfInput);
    }
    if tl.tokens[0] != ";" {
      return Err(ExpectedSemicolon);
    }
    tl.tokens := tl.tokens[1..];
    return Ok(Return(e.value));
  }

  /** `parse_function` (parser_struct.hpp:99-136). */
  method ParseFunction(tl: TokenList) returns (r: Result<Func, ParseError>)
    modifies tl
    ensures Follows(r, FunctionOf(old(tl.tokens), Ten), old(tl.tokens), tl.tokens)
  {
    var start := tl.tokens;
    SuffixRefl(start);
    if tl.tokens == [] {
      return Err(EndOfInput);
    }
    if tl.tokens[0] != "int" {
      return Err(InvalidReturnType(tl.tokens[0]));
    }
    var returnType := tl.tokens[0];
    tl.tokens := tl.tokens[1..];
    if tl.tokens == [] {
      return Err(EndOfInput);
    }
    if !IsIdent(tl.tokens[0]) {
      return Err(InvalidIdentifier(tl.tokens[0]));
    }
    var id := tl.tokens[0];
    tl.tokens := tl.tokens[1..];
    assert tl.tokens == start[2..];
    if tl.tokens == [] {
      return Err(EndOfInput);
    }
    if tl.tokens[0] != "(" {
      return Err(ExpectedOpenParen);
    }
    tl.tokens := tl.tokens[1..];
    if tl.tokens == [] {
      return Err(EndOfInput);
    }
    if tl.tokens[0] != ")" {
      return Err(ExpectedCloseParen);
    }
    tl.tokens := tl.tokens[1..];
    if tl.tokens == [] {
      return Err(EndOfInput);
    }
    if tl.tokens[0] != "{" {
      return Err(ExpectedOpenBrace);
    }
    tl.tokens := tl.tokens[1..];
    assert tl.tokens == start[5..];
    var mid := tl.tokens;
    var s := ParseStatement(tl);
    SuffixTrans(tl.tokens, mid, start);
    if s.Err? {
      return Err(s.error);
    }
    if tl.tokens == [] {
      return Err(EndOfInput);
    }
    if tl.tokens[0] != "}" {
      return Err(ExpectedCloseBrace);
    }
    tl.tokens := tl.tokens[1..];
    return Ok(Func(returnType, id, [s.value]));
  }

  /** `parse_program` (parser_struct.hpp:156-166): one function, then the
      list must be empty. */
  method ParseProgram(tl: TokenList) returns (r: Result<Prog, ParseError>)
    modifies tl
    ensures r == ProgramOf(old(tl.tokens), Ten)
    ensures r.Ok? ==> tl.tokens == []
    ensures IsSuffix(tl.tokens, old(tl.tokens))
  {
    var f := ParseFunction(tl);
    if f.Err? {
      return Err(f.error);
    }
    if |tl.tokens| > 0 {
      return Err(TrailingTokens);
    }
    return Ok(Prog([f.value]));
  }
}
