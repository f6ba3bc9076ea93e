/** The class-based parser (parser.hpp): each node class has a constructor
    that pops its tokens from the front of the shared token list and throws
    on the first token it does not accept.  The constructors are methods on
    the list, proved to do what the grammar functions of `Grammar` say with
    `std::stoi`'s base detection. */
module Parser {
  import opened Wrappers
  import opened Conversion
  import opened Grammar

  /** `UnaryOp(tokens)` (parser.hpp:16-23). */
  method UnaryOp(tl: TokenList) returns (r: Result<string, ParseError>)
    modifies tl
    ensures Follows(r, UnaryOpOf(old(tl.tokens)), old(tl.tokens), tl.tokens)
  {
    SuffixRefl(tl.tokens);
    if tl.tokens == [] {
      return Err(EndOfInput);
    }
    if IsUnaryOp(tl.tokens[0]) {
      r := Ok(tl.tokens[0]);
      tl.tokens := tl.tokens[1..];
    } else {
      r := Err(InvalidOperator(tl.tokens[0]));
    }
  }

  /** `Expression(tokens)` (parser.hpp:40-54): a literal converted with
      base detection, or an operator followed by an expression. */
  method Expression(tl: TokenList) returns (r: Result<Expr, ParseError>)
    modifies tl
    ensures Follows(r, ExprOf(old(tl.tokens), Detect), old(tl.tokens), tl.tokens)
    decreases |tl.tokens|
  {
    var start := tl.tokens;
    SuffixRefl(start);
    if tl.tokens == [] {
      return Err(EndOfInput);
    }
    if !IsUnaryOp(tl.tokens[0]) {
      var v := Stoi(tl.tokens[0], Detect);
      if v.None? {
        return Err(InvalidLiteral(tl.tokens[0]));
      }
      tl.tokens := tl.tokens[1..];
      return Ok(Const(v.value));
    }
    var op := UnaryOp(tl);
    var x := Expression(tl);
    if x.Err? {
      SuffixTail(start);
      SuffixTrans(tl.tokens, start[1..], start);
      return Err(x.error);
    }
    return Ok(Unary(op.value, x.value));
  }

  /** `Statement(tokens)` (parser.hpp:75-88). */
  method Statement(tl: TokenList) returns (r: Result<Stmt, ParseError>)
    modifies tl
    ensures Follows(r, StatementOf(old(tl.tokens), Detect), old(tl.tokens), tl.tokens)
  {
    var start := tl.tokens;
    SuffixRefl(start);
    if tl.tokens == [] {
      return Err(EndOfInput);
    }
    if tl.tokens[0] != "return" {
      return Err(InvalidStatement(tl.tokens[0]));
    }
    tl.tokens := tl.tokens[1..];
    SuffixTail(start);
    var e := Expression(tl);
    SuffixTrans(tl.tokens, start[1..], start);
    if e.Err? {
      return Err(e.error);
    }
    if tl.tokens == [] {
      return Err(EndOfInput);
    }
    if tl.tokens[0] != ";" {
      return Err(ExpectedSemicolon);
    }
    tl.tokens := tl.tokens[1..];
    return Ok(Return(e.value));
  }

  /** `Function(tokens)` (parser.hpp:111-145). */
  method Function(tl: TokenList) returns (r: Result<Func, ParseError>)
    modifies tl
    ensures Follows(r, FunctionOf(old(tl.tokens), Detect), old(tl.tokens), tl.tokens)
  {
    var start := tl.tokens;
    SuffixRefl(start);
    if tl.tokens == [] {
      return Err(EndOfInput);
    }
    if tl.tokens[0] != "int" {
      return Err(InvalidReturnType(tl.tokens[0]));
    }
    var returnType := tl.tokens[0];
    tl.tokens := tl.tokens[1..];
    if tl.tokens == [] {
      return Err(EndOfInput);
    }
    if !IsIdent(tl.tokens[0]) {
      return Err(InvalidIdentifier(tl.tokens[0]));
    }
    var id := tl.tokens[0];
    tl.tokens := tl.tokens[1..];
    assert tl.tokens == start[2..];
    if tl.tokens == [] {
      return Err(EndOfInput);
    }
    if tl.tokens[0] != "(" {
      return Err(ExpectedOpenParen);
    }
    tl.tokens := tl.tokens[1..];
    if tl.tokens == [] {
      return Err(EndOfInput);
    }
    if tl.tokens[0] != ")" {
      return Err(ExpectedCloseParen);
    }
    tl.tokens := tl.tokens[1..];
    if tl.tokens == [] {
      return Err(EndOfInput);
    }
    if tl.tokens[0] != "{" {
      return Err(ExpectedOpenBrace);
    }
    tl.tokens := tl.tokens[1..];
    assert tl.tokens == start[5..];
    var mid := tl.tokens;
    var s := Statement(tl);
    SuffixTrans(tl.tokens, mid, start);
    if s.Err? {
      return Err(s.error);
    }
    if tl.tokens == [] {
      return Err(EndOfInput);
    }
    if tl.tokens[0] != "}" {
      return Err(ExpectedCloseBrace);
    }
    tl.tokens := tl.tokens[1..];
    return Ok(Func(returnType, id, [s.value]));
  }

  /** `Program(tokens)` (parser.hpp:172-178): one function, then the list
      must be empty. */
  method Program(tl: TokenList) returns (r: Result<Prog, ParseError>)
    modifies tl
    ensures r == ProgramOf(old(tl.tokens), Detect)
    ensures r.Ok? ==> tl.tokens == []
    ensures IsSuffix(tl.tokens, old(tl.tokens))
  {
    var f := Function(tl);
    if f.Err? {
      return Err(f.error);
    }
    if |tl.tokens| > 0 {
      return Err(TrailingTokens);
    }
    return Ok(Prog([f.value]));
  }
}
