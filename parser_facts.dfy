/** Behaviour of the parser (src/parser/mod.rs) at its edges: the assignment
    lookahead, the primary cases and their errors, the tolerant `expect`, the
    two-token guard of the `*`/`/` loop, and the newline after each statement. */
module ParserFacts {
  import opened Wrappers
  import opened Tokens
  import opened Exprs
  import opened Tokenizer
  import opened Parser

  /** An assignment is chosen exactly when the token after the next one is
      `=`: then the next token must be an identifier, and the right-hand side
      is a full expression starting after the `=`; otherwise the statement is
      a term. */
  lemma AssignmentLookahead(toks: seq<Token>, p: nat)
    requires p <= |toks|
    ensures p + 1 < |toks| && toks[p + 1].kind == Equal && toks[p].kind != Ident ==>
      ParseExprAt(toks, p) == Err(ExpectedIdentifier(toks[p]))
    ensures p + 1 < |toks| && toks[p + 1].kind == Equal && toks[p].kind == Ident ==>
      match ParseExprAt(toks, p + 2)
      case Ok(value) => ParseExprAt(toks, p) == Ok(Parsed(Assignment(Var(toks[p]), value.expr), value.next))
      case Err(e) => ParseExprAt(toks, p) == Err(e)
    ensures !(p + 1 < |toks| && toks[p + 1].kind == Equal) ==>
      ParseExprAt(toks, p) == ParseTermAt(toks, p)
  {
  }

  /** What `parse_primary` accepts: running out of tokens or meeting a token
      that cannot start a primary is fatal; a number literal is the value
      `parse_number` reads from it; an identifier is a variable unless `(`
      follows it directly, in which case it is a call with one full
      expression as argument and a closing `)`; parentheses around a full
      expression add no node of their own. */
  lemma PrimaryCases(toks: seq<Token>, p: nat)
    requires p <= |toks|
    ensures p == |toks| ==> ParsePrimaryAt(toks, p) == Err(UnexpectedEnd)
    ensures p < |toks| && toks[p].kind !in {NumberLiteral, Ident, LeftParen} ==>
      ParsePrimaryAt(toks, p) == Err(UnexpectedPrimary(toks[p].kind))
    ensures p < |toks| && toks[p].kind == Ident && !(p + 1 < |toks| && toks[p + 1].kind == LeftParen) ==>
      ParsePrimaryAt(toks, p) == Ok(Parsed(Variable(Var(toks[p])), p + 1))
    ensures p < |toks| && toks[p].kind == NumberLiteral ==>
      ParsePrimaryAt(toks, p)
        == match ParseNumber(toks[p].lexeme)
           case Err(e) => Err(e)
           case Ok(v) => Ok(Parsed(Number(v, toks[p]), p + 1))
    ensures p + 1 < |toks| && toks[p].kind == Ident && toks[p + 1].kind == LeftParen ==>
      ParsePrimaryAt(toks, p)
        == match ParseExprAt(toks, p + 2)
           case Err(e) => Err(e)
           case Ok(arg) =>
             match ExpectAt(RightParen, toks, arg.next)
             case Err(e) => Err(e)
             case Ok(n) => Ok(Parsed(FunCall(Var(toks[p]), arg.expr), n))
    ensures p < |toks| && toks[p].kind == LeftParen ==>
      ParsePrimaryAt(toks, p)
        == match ParseExprAt(toks, p + 1)
           case Err(e) => Err(e)
           case Ok(inner) =>
             match ExpectAt(RightParen, toks, inner.next)
             case Err(e) => Err(e)
             case Ok(n) => Ok(Parsed(inner.expr, n))
  {
  }

  /** A NumberLiteral whose digits spell a value above `i32::MAX` is fatal. */
  lemma OversizedLiteral(toks: seq<Token>, p: nat)
    requires p < |toks| && toks[p].kind == NumberLiteral
    requires |toks[p].lexeme| > 0 && AllDigits(toks[p].lexeme)
    requires DecimalValue(toks[p].lexeme) > MaxI32
    ensures ParsePrimaryAt(toks, p) == Err(InvalidNumber(toks[p].lexeme))
  {
    ParseNumberDigits(toks[p].lexeme);
  }

  /** A statement followed by anything but a newline fails the whole parse
      with that token, whatever comes after it. */
  lemma StatementNeedsNewline(toks: seq<Token>, p: nat)
    requires p < |toks| && ParseExprAt(toks, p).Ok?
    requires ParseExprAt(toks, p).value.next < |toks|
    requires toks[ParseExprAt(toks, p).value.next].kind != Newline
    ensures ParseProgramFrom(toks, p)
         == Err(UnexpectedToken(Newline, toks[ParseExprAt(toks, p).value.next]))
  {
  }

  function Id(name: string): Token {
    Token(Ident, name)
  }

  /** A statement that ends exactly at the end of the input is the whole
      program: no newline is needed after the last statement. */
  lemma OneStatement(toks: seq<Token>, e: Expr)
    requires |toks| > 0 && ParseExprAt(toks, 0) == Ok(Parsed(e, |toks|))
    ensures ParseProgram(toks) == Ok([e])
  {
    assert ExpectAt(Newline, toks, |toks|) == Ok(|toks|);
    assert ParseProgramFrom(toks, |toks|) == Ok([]);
    assert [e] + [] == [e];
  }

  /** `a = b = c` nests to the right: the value of the first assignment is the
      second assignment. */
  lemma ChainedAssignment()
    ensures ParseProgram([Id("a"), Token(Equal, "="), Id("b"), Token(Equal, "="), Id("c")])
         == Ok([Assignment(Var(Id("a")), Assignment(Var(Id("b")), NameExpr(Id("c"))))])
  {
    var toks := [Id("a"), Token(Equal, "="), Id("b"), Token(Equal, "="), Id("c")];
    assert ParseExprAt(toks, 4) == Ok(Parsed(NameExpr(Id("c")), 5));
    assert ParseExprAt(toks, 2) == Ok(Parsed(Assignment(Var(Id("b")), NameExpr(Id("c"))), 5));
    assert ParseExprAt(toks, 0) == Ok(Parsed(Assignment(Var(Id("a")), Assignment(Var(Id("b")), NameExpr(Id("c")))), 5));
    OneStatement(toks, Assignment(Var(Id("a")), Assignment(Var(Id("b")), NameExpr(Id("c")))));
  }

  /** Assignments are accepted inside parentheses and call arguments, because
      both re-enter the full expression grammar: `(a = b)` is the assignment. */
  lemma AssignmentInParentheses()
    ensures ParseProgram([Token(LeftParen, "("), Id("a"), Token(Equal, "="), Id("b"), Token(RightParen, ")")])
         == Ok([Assignment(Var(Id("a")), NameExpr(Id("b")))])
  {
    var toks := [Token(LeftParen, "("), Id("a"), Token(Equal, "="), Id("b"), Token(RightParen, ")")];
    assert ParseExprAt(toks, 3) == Ok(Parsed(NameExpr(Id("b")), 4));
    assert ParseExprAt(toks, 1) == Ok(Parsed(Assignment(Var(Id("a")), NameExpr(Id("b"))), 4));
    assert ParsePrimaryAt(toks, 0) == Ok(Parsed(Assignment(Var(Id("a")), NameExpr(Id("b"))), 5));
    assert ParseExprAt(toks, 0) == Ok(Parsed(Assignment(Var(Id("a")), NameExpr(Id("b"))), 5));
    OneStatement(toks, Assignment(Var(Id("a")), NameExpr(Id("b"))));
  }

  /** `expect` accepts the end of the input, so a call whose `)` is missing at
      the end of the input parses as if it were closed. */
  lemma MissingParenAtEnd()
    ensures ParseProgram([Id("print"), Token(LeftParen, "("), Id("x")])
         == Ok([FunCall(Var(Id("print")), NameExpr(Id("x")))])
  {
    var toks := [Id("print"), Token(LeftParen, "("), Id("x")];
    assert ParseExprAt(toks, 2) == Ok(Parsed(NameExpr(Id("x")), 3));
    assert ParseExprAt(toks, 0) == Ok(Parsed(FunCall(Var(Id("print")), NameExpr(Id("x"))), 3));
    OneStatement(toks, FunCall(Var(Id("print")), NameExpr(Id("x"))));
  }

  /** The `*`/`/` loop needs two tokens left and the `+`/`-` loop only one, so
      a trailing `*` is left for the newline check while a trailing `+` runs
      out of tokens looking for its right operand. */
  lemma TrailingOperator()
    ensures ParseProgram([Id("a"), Token(Star, "*")]) == Err(UnexpectedToken(Newline, Token(Star, "*")))
    ensures ParseProgram([Id("a"), Token(Plus, "+")]) == Err(UnexpectedEnd)
  {
    var star := [Id("a"), Token(Star, "*")];
    assert ParseExprAt(star, 0) == Ok(Parsed(NameExpr(Id("a")), 1));
    var plus := [Id("a"), Token(Plus, "+")];
    assert ParseFactorAt(plus, 0) == Ok(Parsed(NameExpr(Id("a")), 1));
  }

  /** An empty statement cannot be parsed: a newline in primary position, as
      in a blank line, is fatal. */
  lemma BlankLine()
    ensures ParseProgram([Token(Newline, "\n")]) == Err(UnexpectedPrimary(Newline))
  {
  }
}
