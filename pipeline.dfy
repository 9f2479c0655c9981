/** The three stages together: text to tokens (src/tokenizer/mod.rs), tokens
    to trees (src/parser/mod.rs), trees to output (src/interpreter/mod.rs). */
module Pipeline {
  import opened Wrappers
  import opened Tokens
  import opened Exprs
  import opened Tokenizer
  import opened Parser
  import opened Interpreter
  import opened ParserFacts

  /** The operator check of `evaluate` is unreachable from source text: every
      BinaryOp the parser builds carries a `+ - * /` token, so a program that
      scans and parses never aborts with an invalid operation. */
  lemma NoInvalidOperation(src: string, st: State)
    requires ScanFrom(src, 0).Ok? && ParseProgram(ScanFrom(src, 0).value).Ok?
    ensures var es := ParseProgram(ScanFrom(src, 0).value).value;
      forall k :: Run(es, st) != Failed(InvalidOperation(k), Run(es, st).st)
  {
    RunWellFormedOperators(ParseProgram(ScanFrom(src, 0).value).value, st);
  }

  function QuotientTokens(): seq<Token> {
    [Token(Ident, "print"), Token(LeftParen, "("), Token(NumberLiteral, "7"),
     Token(Slash, "/"), Token(NumberLiteral, "2"), Token(RightParen, ")")]
  }

  function QuotientTree(): Expr {
    var toks := QuotientTokens();
    FunCall(Var(toks[0]), BinaryOp(Number(7, toks[2]), toks[3], Number(2, toks[4])))
  }

  /** The scanner splits `print(7 / 2)` into six tokens: the spaces vanish and
      each digit run stops before a space or `)`. */
  lemma ScanQuotient(src: string)
    requires src == "print(7 / 2)"
    ensures ScanFrom(src, 0) == Ok(QuotientTokens())
  {
    var toks := QuotientTokens();
    ScanQuotientArgument(src);
    forall k | 0 < k < 5
      ensures IsValidIdentifierChar(src[k])
    {
      assert src[k] == "print"[k];
    }
    ScanCallee(src, 5);
    assert src[0..5] == "print";
    assert toks[..2] == [Token(Ident, src[0..5]), Token(LeftParen, "(")];
    assert ScanFrom(src, 0) == Ok(toks[..2] + toks[2..]);
    assert toks == toks[..2] + toks[2..];
  }

  /** An identifier directly followed by `(` scans as those two tokens. */
  lemma ScanCallee(src: string, j: nat)
    requires 0 < j < |src| && IsIdentStart(src[0]) && src[j] == '('
    requires forall k :: 0 < k < j ==> IsValidIdentifierChar(src[k])
    ensures ScanFrom(src, 0)
         == Prepend([Token(Ident, src[0..j]), Token(LeftParen, "(")], ScanFrom(src, j + 1))
  {
    var name, paren := Token(Ident, src[0..j]), Token(LeftParen, "(");
    ScanIdent(src, 0, j);
    ScanOneChar(src, j);
    assert ScanFrom(src, j) == Prepend([paren], ScanFrom(src, j + 1));
    assert [name] + [paren] == [name, paren];
    PrependTwice([name], [paren], ScanFrom(src, j + 1));
  }

  lemma ScanQuotientArgument(src: string)
    requires src == "print(7 / 2)"
    ensures ScanFrom(src, 6) == Ok(QuotientTokens()[2..])
  {
    var toks := QuotientTokens();
    assert ScanFrom(src, 12) == Ok(toks[6..]);
    ScanOneChar(src, 11);
    ScanSuffix(src, 11, 12, toks, 5);
    assert src[10..11] == "2";
    ScanNumber(src, 10, 11);
    ScanSuffix(src, 10, 11, toks, 4);
    ScanOneChar(src, 9);
    ScanOneChar(src, 8);
    ScanSuffix(src, 8, 9, toks, 3);
    ScanOneChar(src, 7);
    assert src[6..7] == "7";
    ScanNumber(src, 6, 7);
    ScanSuffix(src, 6, 7, toks, 2);
  }

  /** One scanner step extends a scanned suffix by one token. */
  lemma ScanSuffix(src: string, i: nat, j: nat, toks: seq<Token>, k: nat)
    requires i <= j <= |src| && k < |toks|
    requires ScanFrom(src, j) == Ok(toks[k + 1..])
    requires ScanFrom(src, i) == Prepend([toks[k]], ScanFrom(src, j))
    ensures ScanFrom(src, i) == Ok(toks[k..])
  {
    assert toks[k..] == [toks[k]] + toks[k + 1..];
  }

  /** The parser builds one call around one division. */
  lemma ParseQuotient()
    ensures ParseProgram(QuotientTokens()) == Ok([QuotientTree()])
  {
    var toks := QuotientTokens();
    ParseNumberShow(7);
    ParseNumberShow(2);
    assert Show(7) == "7" && Show(2) == "2";
    var division := BinaryOp(Number(7, toks[2]), toks[3], Number(2, toks[4]));
    assert ParsePrimaryAt(toks, 2) == Ok(Parsed(Number(7, toks[2]), 3));
    assert ParsePrimaryAt(toks, 4) == Ok(Parsed(Number(2, toks[4]), 5));
    assert ParseFactorAt(toks, 2) == Ok(Parsed(division, 5));
    assert ParseExprAt(toks, 2) == Ok(Parsed(division, 5));
    assert ParseExprAt(toks, 0) == Ok(Parsed(QuotientTree(), 6));
    OneStatement(toks, QuotientTree());
  }

  /** Evaluating it prints 3: the quotient truncated toward zero. */
  lemma RunQuotient()
    ensures Run([QuotientTree()], State(map[], [])) == Completed(State(map[], [3]))
  {
    var st := State(map[], []);
    assert TruncDiv(7, 2) == 3;
    assert Eval(QuotientTree(), st) == Done(3, State(map[], [3]));
    assert [QuotientTree()][1..] == [];
  }

  /** `print(7 / 2)`, from text to output, prints 3. */
  lemma PrintQuotient(src: string)
    requires src == "print(7 / 2)"
    ensures ScanFrom(src, 0).Ok? && ParseProgram(ScanFrom(src, 0).value).Ok?
    ensures Run(ParseProgram(ScanFrom(src, 0).value).value, State(map[], []))
         == Completed(State(map[], [3]))
  {
    ScanQuotient(src);
    ParseQuotient();
    RunQuotient();
  }

  // ---------------------------------------------------------------------
  // `x = n` then `print(x)` prints n
  // ---------------------------------------------------------------------

  /** The tokens of a newline followed by `print(x)`. */
  function PrintLineTokens(): seq<Token> {
    [Token(Newline, "\n"), Token(Ident, "print"), Token(LeftParen, "("), Token(Ident, "x"),
     Token(RightParen, ")")]
  }

  /** The tokens of `x = <digits>` followed by the `print(x)` line. */
  function AssignPrintTokens(digits: string): seq<Token> {
    [Token(Ident, "x"), Token(Equal, "=")] + [Token(NumberLiteral, digits)] + PrintLineTokens()
  }

  /** The tokens of `x = -<digits>` followed by the `print(x)` line. */
  function NegatedPrintTokens(digits: string): seq<Token> {
    [Token(Ident, "x"), Token(Equal, "="), Token(Minus, "-")] + [Token(NumberLiteral, digits)]
      + PrintLineTokens()
  }

  /** The two statements `x = n` and `print(x)`, as the parser builds them. */
  function AssignPrintTrees(n: Int32, digits: string): seq<Expr> {
    [Assignment(Var(Token(Ident, "x")), Number(n, Token(NumberLiteral, digits))),
     FunCall(Var(Token(Ident, "print")), NameExpr(Token(Ident, "x")))]
  }

  /** A newline followed by `print(x)` at the end of the text scans as five
      tokens. */
  lemma ScanPrintLine(src: string, i: nat)
    requires i <= |src| && src[i..] == "\nprint(x)"
    ensures ScanFrom(src, i) == Ok(PrintLineTokens())
  {
    var line, toks := "\nprint(x)", PrintLineTokens();
    forall k | 0 <= k < 9
      ensures src[i + k] == line[k]
    {
      assert src[i..][k] == src[i + k];
    }
    assert ScanFrom(src, i + 9) == Ok(toks[5..]);
    ScanOneChar(src, i + 8);
    ScanSuffix(src, i + 8, i + 9, toks, 4);
    ScanIdent(src, i + 7, i + 8);
    assert src[i + 7..i + 8] == "x";
    ScanSuffix(src, i + 7, i + 8, toks, 3);
    ScanOneChar(src, i + 6);
    ScanSuffix(src, i + 6, i + 7, toks, 2);
    ScanIdent(src, i + 1, i + 6);
    assert src[i + 1..i + 6] == "print";
    ScanSuffix(src, i + 1, i + 6, toks, 1);
    ScanOneChar(src, i);
    ScanSuffix(src, i, i + 1, toks, 0);
  }

  /** A digit run, then the `print(x)` line, scans as one NumberLiteral and
      that line's tokens. */
  lemma ScanLiteralLine(src: string, i: nat, digits: string)
    requires |digits| > 0 && AllDigits(digits)
    requires i + |digits| <= |src| && src[i..i + |digits|] == digits
    requires src[i + |digits|..] == "\nprint(x)"
    ensures ScanFrom(src, i) == Ok([Token(NumberLiteral, digits)] + PrintLineTokens())
  {
    var j := i + |digits|;
    forall k | i <= k < j
      ensures IsDigit(src[k])
    {
      assert src[k] == digits[k - i];
    }
    assert src[j] == src[j..][0];
    ScanNumber(src, i, j);
    ScanPrintLine(src, j);
  }

  /** `x = <n>`, a newline and `print(x)` scan as eight tokens. */
  lemma ScanAssignPrint(src: string, digits: string)
    requires |digits| > 0 && AllDigits(digits)
    requires src == "x = " + digits + "\nprint(x)"
    ensures ScanFrom(src, 0) == Ok(AssignPrintTokens(digits))
  {
    var toks := AssignPrintTokens(digits);
    assert src[4..4 + |digits|] == digits;
    assert src[4 + |digits|..] == "\nprint(x)";
    ScanLiteralLine(src, 4, digits);
    assert toks[2..] == [Token(NumberLiteral, digits)] + PrintLineTokens();
    ScanOneChar(src, 3);
    ScanOneChar(src, 2);
    ScanSuffix(src, 2, 3, toks, 1);
    ScanOneChar(src, 1);
    ScanIdent(src, 0, 1);
    assert src[0..1] == "x";
    ScanSuffix(src, 0, 1, toks, 0);
    assert toks[0..] == toks;
  }

  /** `x = -<n>`, a newline and `print(x)` scan as nine tokens: the sign is a
      token of its own. */
  lemma ScanNegatedPrint(src: string, digits: string)
    requires |digits| > 0 && AllDigits(digits)
    requires src == "x = -" + digits + "\nprint(x)"
    ensures ScanFrom(src, 0) == Ok(NegatedPrintTokens(digits))
  {
    var toks := NegatedPrintTokens(digits);
    assert src[5..5 + |digits|] == digits;
    assert src[5 + |digits|..] == "\nprint(x)";
    ScanLiteralLine(src, 5, digits);
    assert toks[3..] == [Token(NumberLiteral, digits)] + PrintLineTokens();
    ScanOneChar(src, 4);
    ScanSuffix(src, 4, 5, toks, 2);
    ScanOneChar(src, 3);
    ScanOneChar(src, 2);
    ScanSuffix(src, 2, 3, toks, 1);
    ScanOneChar(src, 1);
    ScanIdent(src, 0, 1);
    assert src[0..1] == "x";
    ScanSuffix(src, 0, 1, toks, 0);
    assert toks[0..] == toks;
  }

  /** The first line parses as the assignment of the literal to `x`. */
  lemma ParseAssignLine(n: nat, toks: seq<Token>)
    requires n <= MaxI32 && toks == AssignPrintTokens(Show(n))
    ensures ParseExprAt(toks, 0) == Ok(Parsed(AssignPrintTrees(n, Show(n))[0], 3))
  {
    var literal := Number(n, toks[2]);
    ParseNumberShow(n);
    assert ParsePrimaryAt(toks, 2) == Ok(Parsed(literal, 3));
    FactorIsTail(toks, 2, literal, 3);
    TermIsTail(toks, 2, literal, 3);
    AssignmentLookahead(toks, 2);
    AssignmentLookahead(toks, 0);
  }

  /** The second line parses as the call of `print` on `x`, up to the end. */
  lemma ParsePrintLine(toks: seq<Token>, digits: string)
    requires toks == AssignPrintTokens(digits)
    ensures ParseExprAt(toks, 4) == Ok(Parsed(FunCall(Var(toks[4]), NameExpr(toks[6])), 8))
  {
    var x, call := NameExpr(toks[6]), FunCall(Var(toks[4]), NameExpr(toks[6]));
    PrimaryName(toks, 6);
    FactorIsTail(toks, 6, x, 7);
    TermIsTail(toks, 6, x, 7);
    AssignmentLookahead(toks, 6);
    assert ParsePrimaryAt(toks, 4) == Ok(Parsed(call, 8));
    FactorIsTail(toks, 4, call, 8);
    TermIsTail(toks, 4, call, 8);
    AssignmentLookahead(toks, 4);
  }

  /** The eight tokens parse as the assignment of the literal to `x` and the
      call of `print` on `x`. */
  lemma ParseAssignPrint(n: nat)
    requires n <= MaxI32
    ensures ParseProgram(AssignPrintTokens(Show(n))) == Ok(AssignPrintTrees(n, Show(n)))
  {
    var toks := AssignPrintTokens(Show(n));
    var es := AssignPrintTrees(n, Show(n));
    ParseAssignLine(n, toks);
    ParsePrintLine(toks, Show(n));
    assert es[1] == FunCall(Var(toks[4]), NameExpr(toks[6]));
    ProgramStep(toks, 4);
    assert ExpectAt(Newline, toks, 8) == Ok(8);
    assert ParseProgramFrom(toks, 8) == Ok([]);
    assert [es[1]] + [] == [es[1]];
    assert ParseProgramFrom(toks, 4) == Ok([es[1]]);
    ProgramStep(toks, 0);
    assert [es[0]] + [es[1]] == es;
  }

  /** Running the two statements binds `x` to n and prints n. */
  lemma RunAssignPrint(n: Int32, digits: string)
    ensures Run(AssignPrintTrees(n, digits), State(map[], []))
         == Completed(State(map["x" := n], [n]))
  {
    var es := AssignPrintTrees(n, digits);
    var st1 := State(map["x" := n], []);
    assert Eval(es[0], State(map[], [])) == Done(n, st1);
    assert Eval(es[1], st1) == Done(n, State(map["x" := n], [n]));
    assert es[1..][0] == es[1] && es[1..][1..] == [];
    assert Run(es[1..][1..], State(map["x" := n], [n])) == Completed(State(map["x" := n], [n]));
    assert Run(es[1..], st1) == Completed(State(map["x" := n], [n]));
  }

  /** For every literal an `i32` can hold, the text `x = n`, a newline and
      `print(x)`, scanned, parsed and run, prints n and leaves `x` bound to n. */
  lemma PrintAssigned(n: nat, src: string)
    requires n <= MaxI32
    requires src == "x = " + Show(n) + "\nprint(x)"
    ensures ScanFrom(src, 0).Ok? && ParseProgram(ScanFrom(src, 0).value).Ok?
    ensures Run(ParseProgram(ScanFrom(src, 0).value).value, State(map[], []))
         == Completed(State(map["x" := n], [n]))
  {
    ScanAssignPrint(src, Show(n));
    ParseAssignPrint(n);
    RunAssignPrint(n, Show(n));
  }

  /** There is no unary minus: `x = -n` scans, but the `-` cannot start a
      primary, so the program does not parse, whatever n is. */
  lemma NegativeLiteral(n: nat, src: string)
    requires src == "x = -" + Show(n) + "\nprint(x)"
    ensures ScanFrom(src, 0).Ok?
    ensures ParseProgram(ScanFrom(src, 0).value) == Err(UnexpectedPrimary(Minus))
  {
    ScanNegatedPrint(src, Show(n));
    var toks := NegatedPrintTokens(Show(n));
    assert ParsePrimaryAt(toks, 2) == Err(UnexpectedPrimary(Minus));
    AssignmentLookahead(toks, 2);
    AssignmentLookahead(toks, 0);
    ProgramStep(toks, 0);
  }
}
