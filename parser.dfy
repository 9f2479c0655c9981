/** The recursive-descent parser (src/parser/mod.rs).

    The source reverses the token vector and consumes it with `pop`; here the
    same left-to-right consumption is a cursor `pos` over the unchanged token
    sequence, so "the next token" is `tokens[pos]` and "tokens left" is
    `|tokens| - pos`.

    The functions `ParseExprAt` .. `ParsePrimaryAt` are the specification: the
    tree a production builds from position `p` and the position after it, or
    the error the source panics with.  Class `Parser` holds the consuming
    methods, one per Rust function, each proved to agree with its function. */
module Parser {
  import opened Wrappers
  import opened Tokens
  import opened Exprs
  import opened Tokenizer

  datatype ParseError =
    | UnexpectedToken(expected: TokenType, found: Token)  // `expect`
    | ExpectedIdentifier(found: Token)                    // `parse_var`
    | UnexpectedEnd                                       // `pop().unwrap()` in `parse_primary`
    | UnexpectedPrimary(kind: TokenType)                  // last arm of `parse_primary`
    | InvalidNumber(lexeme: string)                       // `parse::<i32>().unwrap()`

  /** A tree and the position just after the tokens it was built from. */
  datatype Parsed = Parsed(expr: Expr, next: nat)

  type PResult = Result<Parsed, ParseError>

  // ---------------------------------------------------------------------
  // Numbers: `parse_number`, that is Rust's `str::parse::<i32>`
  // ---------------------------------------------------------------------

  /** The value of a string of decimal digits. */
  function DecimalValue(s: string): nat
    requires AllDigits(s)
  {
    if s == [] then 0 else 10 * DecimalValue(s[..|s| - 1]) + (s[|s| - 1] as int - '0' as int)
  }

  /** The decimal digits of `n`, without leading zeros. */
  function Show(n: nat): (s: string)
    ensures |s| > 0 && AllDigits(s)
  {
    if n < 10 then [('0' as int + n) as char] else Show(n / 10) + [('0' as int + n % 10) as char]
  }

  /** `str::parse::<i32>`: an optional `+` or `-`, then at least one decimal
      digit and nothing else, with a value that fits in an `i32`. */
  function ParseI32(s: string): (r: Result<Int32, ()>)
    ensures r.Ok? ==> (|s| > 0 && AllDigits(s)) || (|s| > 1 && (s[0] == '-' || s[0] == '+') && AllDigits(s[1..]))
    ensures |s| > 0 && AllDigits(s) ==>
      (r.Ok? <==> DecimalValue(s) <= MaxI32) && (r.Ok? ==> r.value == DecimalValue(s))
    ensures |s| > 1 && s[0] == '-' && AllDigits(s[1..]) ==>
      (r.Ok? <==> DecimalValue(s[1..]) <= -MinI32) && (r.Ok? ==> r.value + DecimalValue(s[1..]) == 0)
    ensures |s| > 1 && s[0] == '+' && AllDigits(s[1..]) ==>
      (r.Ok? <==> DecimalValue(s[1..]) <= MaxI32) && (r.Ok? ==> r.value == DecimalValue(s[1..]))
  {
    var negative := |s| > 0 && s[0] == '-';
    var digits := if |s| > 0 && (s[0] == '-' || s[0] == '+') then s[1..] else s;
    if |digits| == 0 || !AllDigits(digits) then Err(())
    else
      var magnitude: int := DecimalValue(digits);
      var v := if negative then -magnitude else magnitude;
      if MinI32 <= v <= MaxI32 then Ok(v) else Err(())
  }

  /** `parse_number`: the value `str::parse::<i32>` reads, or an error naming
      the lexeme. */
  function ParseNumber(lexeme: string): (r: Result<Int32, ParseError>)
    ensures r.Ok? <==> ParseI32(lexeme).Ok?
    ensures r.Ok? ==> r.value == ParseI32(lexeme).value
    ensures r.Err? ==> r.error == InvalidNumber(lexeme)
  {
    match ParseI32(lexeme)
    case Ok(v) => Ok(v)
    case Err(_) => Err(InvalidNumber(lexeme))
  }

  lemma {:induction false} DecimalValueShow(n: nat)
    ensures DecimalValue(Show(n)) == n
  {
    if n >= 10 {
      DecimalValueShow(n / 10);
      var s := Show(n);
      assert s[..|s| - 1] == Show(n / 10);
    }
  }

  /** A run of decimal digits, leading zeros included, is read as its value
      when that fits in an `i32` and is rejected, naming the lexeme,
      otherwise. */
  lemma ParseNumberDigits(lexeme: string)
    requires |lexeme| > 0 && AllDigits(lexeme)
    ensures ParseNumber(lexeme)
         == if DecimalValue(lexeme) <= MaxI32 then Ok(DecimalValue(lexeme)) else Err(InvalidNumber(lexeme))
  {
    assert IsDigit(lexeme[0]);
  }

  /** Every number an `i32` can hold, written in decimal, is read back as
      itself. */
  lemma ParseNumberShow(n: nat)
    requires n <= MaxI32
    ensures ParseNumber(Show(n)) == Ok(n)
  {
    DecimalValueShow(n);
    ParseNumberDigits(Show(n));
  }

  /** Leading zeros are allowed: `007` is read as 7. */
  lemma LeadingZeros(lexeme: string)
    requires lexeme == "007"
    ensures ParseNumber(lexeme) == Ok(7)
  {
    assert AllDigits(lexeme);
    assert lexeme[..2] == "00" && lexeme[..2][..1] == "0" && lexeme[..2][..1][..0] == [];
    assert DecimalValue("0") == 0;
    assert DecimalValue("00") == 0;
    assert DecimalValue(lexeme) == 7;
    ParseNumberDigits(lexeme);
  }

  // ---------------------------------------------------------------------
  // The grammar, as functions over (tokens, position)
  // ---------------------------------------------------------------------

  /** `expect`: at the end of the input it accepts silently and consumes
      nothing; otherwise it consumes one token, which must be of the expected
      kind. */
  function ExpectAt(expected: TokenType, toks: seq<Token>, p: nat): (r: Result<nat, ParseError>)
    requires p <= |toks|
    ensures r.Ok? <==> p == |toks| || toks[p].kind == expected
    ensures r.Ok? ==> r.value == (if p == |toks| then p else p + 1)
    ensures r.Err? ==> r.error == UnexpectedToken(expected, toks[p])
  {
    if p == |toks| then Ok(p)
    else if toks[p].kind == expected then Ok(p + 1)
    else Err(UnexpectedToken(expected, toks[p]))
  }

  /** `parse_var`: the token must be an identifier. */
  function ParseVarAt(toks: seq<Token>, p: nat): (r: Result<Variable, ParseError>)
    requires p < |toks|
    ensures r.Ok? <==> toks[p].kind == Ident
    ensures r.Ok? ==> r.value.name == toks[p]
  {
    if toks[p].kind == Ident then Ok(Var(toks[p])) else Err(ExpectedIdentifier(toks[p]))
  }

  /** `parse_expr` */
  function ParseExprAt(toks: seq<Token>, p: nat): (r: PResult)
    requires p <= |toks|
    ensures r.Ok? ==> p < r.value.next <= |toks| && WellFormed(r.value.expr)
    decreases |toks| - p, 4
  {
    ParseAssignmentAt(toks, p)
  }

  /** `parse_assignment`: an assignment exactly when the token after the next
      one is `=`; the right-hand side is a full expression. */
  function ParseAssignmentAt(toks: seq<Token>, p: nat): (r: PResult)
    requires p <= |toks|
    ensures r.Ok? ==> p < r.value.next <= |toks| && WellFormed(r.value.expr)
    decreases |toks| - p, 3
  {
    if |toks| - p > 1 && toks[p + 1].kind == Equal then
      var target :- ParseVarAt(toks, p);
      var value :- ParseExprAt(toks, p + 2);
      Ok(Parsed(Assignment(target, value.expr), value.next))
    else
      ParseTermAt(toks, p)
  }

  /** `parse_term` */
  function ParseTermAt(toks: seq<Token>, p: nat): (r: PResult)
    requires p <= |toks|
    ensures r.Ok? ==> p < r.value.next <= |toks| && WellFormed(r.value.expr)
    decreases |toks| - p, 2
  {
    var lhs :- ParseFactorAt(toks, p);
    TermTail(toks, lhs.expr, lhs.next)
  }

  /** The loop of `parse_term`: while the next token is `+` or `-`, consume it
      and a factor, and make the tree built so far the left operand. */
  function TermTail(toks: seq<Token>, lhs: Expr, p: nat): (r: PResult)
    requires p <= |toks|
    ensures r.Ok? ==> p <= r.value.next <= |toks|
    ensures r.Ok? ==> r.value.expr == lhs || r.value.expr.BinaryOp?
    ensures r.Ok? && WellFormed(lhs) ==> WellFormed(r.value.expr)
    decreases |toks| - p, 0
  {
    if p < |toks| && (toks[p].kind == Plus || toks[p].kind == Minus) then
      var rhs :- ParseFactorAt(toks, p + 1);
      TermTail(toks, BinaryOp(lhs, toks[p], rhs.expr), rhs.next)
    else
      Ok(Parsed(lhs, p))
  }

  /** `parse_factor` */
  function ParseFactorAt(toks: seq<Token>, p: nat): (r: PResult)
    requires p <= |toks|
    ensures r.Ok? ==> p < r.value.next <= |toks| && WellFormed(r.value.expr)
    decreases |toks| - p, 1
  {
    var lhs :- ParsePrimaryAt(toks, p);
    FactorTail(toks, lhs.expr, lhs.next)
  }

  /** The loop of `parse_factor`: like `TermTail` for `*` and `/`, but it only
      runs while at least two tokens are left. */
  function FactorTail(toks: seq<Token>, lhs: Expr, p: nat): (r: PResult)
    requires p <= |toks|
    ensures r.Ok? ==> p <= r.value.next <= |toks|
    ensures r.Ok? ==> r.value.expr == lhs || r.value.expr.BinaryOp?
    ensures r.Ok? && WellFormed(lhs) ==> WellFormed(r.value.expr)
    decreases |toks| - p, 0
  {
    if |toks| - p > 1 && (toks[p].kind == Star || toks[p].kind == Slash) then
      var rhs :- ParsePrimaryAt(toks, p + 1);
      FactorTail(toks, BinaryOp(lhs, toks[p], rhs.expr), rhs.next)
    else
      Ok(Parsed(lhs, p))
  }

  /** `parse_primary`: a number, a variable, a one-argument call when an
      identifier is directly followed by `(`, or a parenthesised expression,
      which adds no node of its own. */
  function ParsePrimaryAt(toks: seq<Token>, p: nat): (r: PResult)
    requires p <= |toks|
    ensures r.Ok? ==> p < r.value.next <= |toks| && WellFormed(r.value.expr)
    decreases |toks| - p, 0
  {
    if p == |toks| then Err(UnexpectedEnd)
    else
      var token := toks[p];
      match token.kind
      case NumberLiteral =>
        var value :- ParseNumber(token.lexeme);
        Ok(Parsed(Number(value, token), p + 1))
      case Ident =>
        if p + 1 < |toks| && toks[p + 1].kind == LeftParen then
          var arg :- ParseExprAt(toks, p + 2);
          var next :- ExpectAt(RightParen, toks, arg.next);
          Ok(Parsed(FunCall(Var(token), arg.expr), next))
        else
          Ok(Parsed(Variable(Var(token)), p + 1))
      case LeftParen =>
        var inner :- ParseExprAt(toks, p + 1);
        var next :- ExpectAt(RightParen, toks, inner.next);
        Ok(Parsed(inner.expr, next))
      case _ =>
        Err(UnexpectedPrimary(token.kind))
  }

  /** The loop of `parse`: statements until the tokens run out, each followed
      by a newline or by the end of the input. */
  function ParseProgramFrom(toks: seq<Token>, p: nat): (r: Result<seq<Expr>, ParseError>)
    requires p <= |toks|
    ensures r.Ok? ==> |r.value| <= |toks| - p
    ensures r.Ok? ==> forall e :: e in r.value ==> WellFormed(e)
    decreases |toks| - p
  {
    if p == |toks| then Ok([])
    else
      var stmt :- ParseExprAt(toks, p);
      var next :- ExpectAt(Newline, toks, stmt.next);
      var rest :- ParseProgramFrom(toks, next);
      Ok([stmt.expr] + rest)
  }

  /** `parse` */
  function ParseProgram(toks: seq<Token>): (r: Result<seq<Expr>, ParseError>)
    ensures toks == [] ==> r == Ok([])
    ensures r.Ok? ==> |r.value| <= |toks| && forall e :: e in r.value ==> WellFormed(e)
  {
    ParseProgramFrom(toks, 0)
  }

  // ---------------------------------------------------------------------
  // The consuming parser
  // ---------------------------------------------------------------------

  /** A method's outcome `r`, with the cursor left at `pos`, is what `spec`
      says: the same tree and the same position, or the same error. */
  predicate Agrees(r: Result<Expr, ParseError>, pos: nat, spec: PResult) {
    match spec
    case Ok(parsed) => r == Ok(parsed.expr) && pos == parsed.next
    case Err(e) => r == Err(e)
  }

  /** The token vector the Rust functions share by `&mut`, with its cursor. */
  class Parser {
    const tokens: seq<Token>
    var pos: nat

    predicate Valid()
      reads this
    {
      pos <= |tokens|
    }

    constructor (tokens: seq<Token>)
      ensures Valid() && this.tokens == tokens && pos == 0
    {
      this.tokens := tokens;
      pos := 0;
    }

    /** `expect` */
    method Expect(expected: TokenType) returns (r: Result<(), ParseError>)
      requires Valid()
      modifies this
      ensures Valid()
      ensures match ExpectAt(expected, tokens, old(pos))
              case Ok(next) => r.Ok? && pos == next
              case Err(e) => r == Err(e)
    {
      if pos == |tokens| {
        return Ok(());
      }
      var token := tokens[pos];
      pos := pos + 1;
      if token.kind != expected {
        return Err(UnexpectedToken(expected, token));
      }
      return Ok(());
    }

    /** `parse_var` */
    method ParseVar() returns (r: Result<Variable, ParseError>)
      requires Valid() && pos < |tokens|
      modifies this
      ensures Valid() && pos == old(pos) + 1
      ensures r == ParseVarAt(tokens, old(pos))
    {
      var token := tokens[pos];
      pos := pos + 1;
      if token.kind == Ident {
        r := Ok(Var(token));
      } else {
        r := Err(ExpectedIdentifier(token));
      }
    }

    /** `parse_expr` */
    method ParseExpr() returns (r: Result<Expr, ParseError>)
      requires Valid()
      modifies this
      ensures Valid() && Agrees(r, pos, ParseExprAt(tokens, old(pos)))
      decreases |tokens| - pos, 4
    {
      r := ParseAssignment();
    }

    /** `parse_assignment` */
    method ParseAssignment() returns (r: Result<Expr, ParseError>)
      requires Valid()
      modifies this
      ensures Valid() && Agrees(r, pos, ParseAssignmentAt(tokens, old(pos)))
      decreases |tokens| - pos, 3
    {
      if |tokens| - pos > 1 && tokens[pos + 1].kind == Equal {
        var target :- ParseVar();
        var equal := Expect(Equal);
        assert equal.Ok?;  // the lookahead saw `=` there
        var value :- ParseExpr();
        return Ok(Assignment(target, value));
      } else {
        r := ParseTerm();
      }
    }

    /** `parse_term` */
    method ParseTerm() returns (r: Result<Expr, ParseError>)
      requires Valid()
      modifies this
      ensures Valid() && Agrees(r, pos, ParseTermAt(tokens, old(pos)))
      decreases |tokens| - pos, 2
    {
      ghost var start := pos;
      var res :- ParseFactor();
      while pos < |tokens|
        invariant Valid() && start < pos
        invariant TermTail(tokens, res, pos) == ParseTermAt(tokens, start)
        decreases |tokens| - pos
      {
        var nextToken := tokens[pos];
        if nextToken.kind == Plus || nextToken.kind == Minus {
          pos := pos + 1;
          var rhs :- ParseFactor();
          res := BinaryOp(res, nextToken, rhs);
        } else {
          break;
        }
      }
      return Ok(res);
    }

    /** `parse_factor` */
    method ParseFactor() returns (r: Result<Expr, ParseError>)
      requires Valid()
      modifies this
      ensures Valid() && Agrees(r, pos, ParseFactorAt(tokens, old(pos)))
      decreases |tokens| - pos, 1
    {
      ghost var start := pos;
      var res :- ParsePrimary();
      while |tokens| - pos > 1
        invariant Valid() && start < pos
        invariant FactorTail(tokens, res, pos) == ParseFactorAt(tokens, start)
        decreases |tokens| - pos
      {
        var nextToken := tokens[pos];
        if nextToken.kind == Star || nextToken.kind == Slash {
          pos := pos + 1;
          var rhs :- ParsePrimary();
          res := BinaryOp(res, nextToken, rhs);
        } else {
          break;
        }
      }
      return Ok(res);
    }

    /** `parse_primary` */
    method ParsePrimary() returns (r: Result<Expr, ParseError>)
      requires Valid()
      modifies this
      ensures Valid() && Agrees(r, pos, ParsePrimaryAt(tokens, old(pos)))
      decreases |tokens| - pos, 0
    {
      if pos == |tokens| {
        return Err(UnexpectedEnd);
      }
      var token := tokens[pos];
      pos := pos + 1;
      match token.kind
      case NumberLiteral =>
        var value :- ParseNumber(token.lexeme);
        return Ok(Number(value, token));
      case Ident =>
        if pos < |tokens| && tokens[pos].kind == LeftParen {
          pos := pos + 1;
          var arg :- ParseExpr();
          var closed :- Expect(RightParen);
          return Ok(FunCall(Var(token), arg));
        }
        return Ok(Variable(Var(token)));
      case LeftParen =>
        var inner :- ParseExpr();
        var closed :- Expect(RightParen);
        return Ok(inner);
      case _ =>
        return Err(UnexpectedPrimary(token.kind));
    }
  }

  function PrependExprs(es: seq<Expr>, r: Result<seq<Expr>, ParseError>): Result<seq<Expr>, ParseError> {
    if r.Ok? then Ok(es + r.value) else r
  }

  lemma PrependExprsTwice(a: seq<Expr>, b: seq<Expr>, r: Result<seq<Expr>, ParseError>)
    ensures PrependExprs(a, PrependExprs(b, r)) == PrependExprs(a + b, r)
  {
    if r.Ok? {
      assert a + (b + r.value) == (a + b) + r.value;
    }
  }

  lemma PrependNothing(r: Result<seq<Expr>, ParseError>)
    ensures PrependExprs([], r) == r
  {
    if r.Ok? {
      assert [] + r.value == r.value;
    }
  }

  /** One round of the statement loop: a statement, then a newline or the
      end of the input, then the rest of the program; a failure in either
      step is the failure of the whole parse. */
  lemma ProgramStep(toks: seq<Token>, p: nat)
    requires p < |toks|
    ensures ParseExprAt(toks, p).Err? ==> ParseProgramFrom(toks, p) == Err(ParseExprAt(toks, p).error)
    ensures ParseExprAt(toks, p).Ok? ==>
      var next := ExpectAt(Newline, toks, ParseExprAt(toks, p).value.next);
      && (next.Err? ==> ParseProgramFrom(toks, p) == Err(next.error))
      && (next.Ok? ==> ParseProgramFrom(toks, p)
                       == PrependExprs([ParseExprAt(toks, p).value.expr], ParseProgramFrom(toks, next.value)))
  {
  }

  /** `parse` */
  method Parse(tokens: seq<Token>) returns (r: Result<seq<Expr>, ParseError>)
    ensures r == ParseProgram(tokens)
  {
    var parser := new Parser(tokens);
    var res: seq<Expr> := [];
    PrependNothing(ParseProgram(tokens));
    while parser.pos < |parser.tokens|
      invariant parser.Valid() && parser.tokens == tokens
      invariant ParseProgram(tokens) == PrependExprs(res, ParseProgramFrom(tokens, parser.pos))
      decreases |tokens| - parser.pos
    {
      ProgramStep(tokens, parser.pos);
      var expr :- parser.ParseExpr();
      var newline :- parser.Expect(Newline);
      PrependExprsTwice(res, [expr], ParseProgramFrom(tokens, parser.pos));
      res := res + [expr];
    }
    assert res + [] == res;
    return Ok(res);
  }

  // ---------------------------------------------------------------------
  // No token is lost, invented or reordered
  // ---------------------------------------------------------------------

  /** Kinds the grammar consumes without keeping them in the tree. */
  predicate IsStructural(k: TokenType) {
    k == Equal || k == LeftParen || k == RightParen || k == Newline
  }

  /** The tokens of `toks` that a tree keeps, in order. */
  function Content(toks: seq<Token>): seq<Token> {
    if toks == [] then []
    else (if IsStructural(toks[0].kind) then [] else [toks[0]]) + Content(toks[1..])
  }

  lemma {:induction false} ContentAppend(a: seq<Token>, b: seq<Token>)
    ensures Content(a + b) == Content(a) + Content(b)
  {
    if a == [] {
      assert a + b == b;
    } else {
      assert (a + b)[1..] == a[1..] + b;
      ContentAppend(a[1..], b);
    }
  }

  lemma ContentSplit(toks: seq<Token>, i: nat, j: nat, k: nat)
    requires i <= j <= k <= |toks|
    ensures Content(toks[i..k]) == Content(toks[i..j]) + Content(toks[j..k])
  {
    assert toks[i..k] == toks[i..j] + toks[j..k];
    ContentAppend(toks[i..j], toks[j..k]);
  }

  lemma ContentOne(toks: seq<Token>, i: nat)
    requires i < |toks|
    ensures Content(toks[i..i + 1]) == if IsStructural(toks[i].kind) then [] else [toks[i]]
  {
    assert toks[i..i + 1][1..] == [];
  }

  /** The tree built by a production holds exactly the non-structural tokens
      it consumed, in their order. */
  lemma {:induction false} ExprYield(toks: seq<Token>, p: nat)
    requires p <= |toks| && ParseExprAt(toks, p).Ok?
    ensures Yield(ParseExprAt(toks, p).value.expr) == Content(toks[p..ParseExprAt(toks, p).value.next])
    decreases |toks| - p, 5
  {
    AssignmentYield(toks, p);
  }

  lemma {:induction false} AssignmentYield(toks: seq<Token>, p: nat)
    requires p <= |toks| && ParseAssignmentAt(toks, p).Ok?
    ensures Yield(ParseAssignmentAt(toks, p).value.expr)
         == Content(toks[p..ParseAssignmentAt(toks, p).value.next])
    decreases |toks| - p, 4
  {
    if |toks| - p > 1 && toks[p + 1].kind == Equal {
      var value := ParseExprAt(toks, p + 2).value;
      ExprYield(toks, p + 2);
      ContentOne(toks, p);
      ContentOne(toks, p + 1);
      ContentSplit(toks, p, p + 1, p + 2);
      ContentSplit(toks, p, p + 2, value.next);
    } else {
      TermYield(toks, p);
    }
  }

  lemma {:induction false} TermYield(toks: seq<Token>, p: nat)
    requires p <= |toks| && ParseTermAt(toks, p).Ok?
    ensures Yield(ParseTermAt(toks, p).value.expr) == Content(toks[p..ParseTermAt(toks, p).value.next])
    decreases |toks| - p, 3
  {
    var lhs := ParseFactorAt(toks, p).value;
    FactorYield(toks, p);
    TermTailYield(toks, lhs.expr, lhs.next);
    ContentSplit(toks, p, lhs.next, ParseTermAt(toks, p).value.next);
  }

  /** One round of a `+`/`-` or `*`/`/` loop keeps the yield invariant: the
      operator and the right operand's tokens join the left operand's. */
  lemma TailYield(toks: seq<Token>, p: nat, mid: nat, end: nat, lhs: Expr, rhs: Expr, res: Expr)
    requires p < mid <= end <= |toks| && !IsStructural(toks[p].kind)
    requires Yield(rhs) == Content(toks[p + 1..mid])
    requires Yield(res) == Yield(BinaryOp(lhs, toks[p], rhs)) + Content(toks[mid..end])
    ensures Yield(res) == Yield(lhs) + Content(toks[p..end])
  {
    ContentOne(toks, p);
    ContentSplit(toks, p, p + 1, mid);
    ContentSplit(toks, p, mid, end);
    ConcatAssoc(Yield(lhs), [toks[p]], Yield(rhs), Content(toks[mid..end]));
  }

  lemma ConcatAssoc(a: seq<Token>, b: seq<Token>, c: seq<Token>, d: seq<Token>)
    ensures a + ((b + c) + d) == a + b + c + d
  {
  }

  lemma {:induction false} TermTailYield(toks: seq<Token>, lhs: Expr, p: nat)
    requires p <= |toks| && TermTail(toks, lhs, p).Ok?
    ensures Yield(TermTail(toks, lhs, p).value.expr)
         == Yield(lhs) + Content(toks[p..TermTail(toks, lhs, p).value.next])
    decreases |toks| - p, 0
  {
    if p < |toks| && (toks[p].kind == Plus || toks[p].kind == Minus) {
      var rhs := ParseFactorAt(toks, p + 1).value;
      var b := BinaryOp(lhs, toks[p], rhs.expr);
      var r := TermTail(toks, b, rhs.next).value;
      TermTailStep(toks, lhs, p, rhs.expr, rhs.next);
      FactorYield(toks, p + 1);
      TermTailYield(toks, b, rhs.next);
      TailYield(toks, p, rhs.next, r.next, lhs, rhs.expr, r.expr);
    } else {
      assert toks[p..p] == [];
    }
  }

  lemma {:induction false} FactorYield(toks: seq<Token>, p: nat)
    requires p <= |toks| && ParseFactorAt(toks, p).Ok?
    ensures Yield(ParseFactorAt(toks, p).value.expr) == Content(toks[p..ParseFactorAt(toks, p).value.next])
    decreases |toks| - p, 2
  {
    var lhs := ParsePrimaryAt(toks, p).value;
    PrimaryYield(toks, p);
    FactorTailYield(toks, lhs.expr, lhs.next);
    ContentSplit(toks, p, lhs.next, ParseFactorAt(toks, p).value.next);
  }

  lemma {:induction false} FactorTailYield(toks: seq<Token>, lhs: Expr, p: nat)
    requires p <= |toks| && FactorTail(toks, lhs, p).Ok?
    ensures Yield(FactorTail(toks, lhs, p).value.expr)
         == Yield(lhs) + Content(toks[p..FactorTail(toks, lhs, p).value.next])
    decreases |toks| - p, 0
  {
    if |toks| - p > 1 && (toks[p].kind == Star || toks[p].kind == Slash) {
      var rhs := ParsePrimaryAt(toks, p + 1).value;
      var b := BinaryOp(lhs, toks[p], rhs.expr);
      var r := FactorTail(toks, b, rhs.next).value;
      FactorTailStep(toks, lhs, p, rhs.expr, rhs.next);
      PrimaryYield(toks, p + 1);
      FactorTailYield(toks, b, rhs.next);
      TailYield(toks, p, rhs.next, r.next, lhs, rhs.expr, r.expr);
    } else {
      assert toks[p..p] == [];
    }
  }

  /** The tokens from `p` to `end` are an opening part `p..start`, a middle
      `start..mid`, and at most one structural closing token. */
  lemma EnclosedContent(toks: seq<Token>, p: nat, start: nat, mid: nat, end: nat)
    requires p <= start <= mid <= end <= |toks| && end <= mid + 1
    requires end == mid + 1 ==> IsStructural(toks[mid].kind)
    ensures Content(toks[p..end]) == Content(toks[p..start]) + Content(toks[start..mid])
  {
    ContentSplit(toks, p, start, mid);
    ContentSplit(toks, p, mid, end);
    if mid < end {
      ContentOne(toks, mid);
    } else {
      assert toks[mid..end] == [];
    }
  }

  lemma {:induction false} PrimaryYield(toks: seq<Token>, p: nat)
    requires p <= |toks| && ParsePrimaryAt(toks, p).Ok?
    ensures Yield(ParsePrimaryAt(toks, p).value.expr) == Content(toks[p..ParsePrimaryAt(toks, p).value.next])
    decreases |toks| - p, 1
  {
    ContentOne(toks, p);
    if toks[p].kind == Ident && p + 1 < |toks| && toks[p + 1].kind == LeftParen {
      CallYield(toks, p);
    } else if toks[p].kind == LeftParen {
      GroupYield(toks, p);
    }
  }

  lemma {:induction false} CallYield(toks: seq<Token>, p: nat)
    requires p + 1 < |toks| && toks[p].kind == Ident && toks[p + 1].kind == LeftParen
    requires ParsePrimaryAt(toks, p).Ok?
    ensures Yield(ParsePrimaryAt(toks, p).value.expr) == Content(toks[p..ParsePrimaryAt(toks, p).value.next])
    decreases |toks| - p, 0
  {
    var r := ParsePrimaryAt(toks, p).value;
    var arg := ParseExprAt(toks, p + 2).value;
    assert r.expr == FunCall(Var(toks[p]), arg.expr);
    ExprYield(toks, p + 2);
    ContentOne(toks, p);
    ContentOne(toks, p + 1);
    ContentSplit(toks, p, p + 1, p + 2);
    EnclosedContent(toks, p, p + 2, arg.next, r.next);
  }

  lemma {:induction false} GroupYield(toks: seq<Token>, p: nat)
    requires p < |toks| && toks[p].kind == LeftParen
    requires ParsePrimaryAt(toks, p).Ok?
    ensures Yield(ParsePrimaryAt(toks, p).value.expr) == Content(toks[p..ParsePrimaryAt(toks, p).value.next])
    decreases |toks| - p, 0
  {
    var r := ParsePrimaryAt(toks, p).value;
    var inner := ParseExprAt(toks, p + 1).value;
    assert r.expr == inner.expr;
    ExprYield(toks, p + 1);
    ContentOne(toks, p);
    EnclosedContent(toks, p, p + 1, inner.next, r.next);
  }

  /** A program parses only by consuming every token, and its statements hold
      exactly the input's non-structural tokens, in order: nothing but `=`,
      parentheses and newlines is dropped, and nothing is added or moved. */
  lemma {:induction false} ProgramYield(toks: seq<Token>, p: nat)
    requires p <= |toks| && ParseProgramFrom(toks, p).Ok?
    ensures YieldAll(ParseProgramFrom(toks, p).value) == Content(toks[p..])
    decreases |toks| - p
  {
    if p == |toks| {
      assert toks[p..] == [];
    } else {
      var stmt := ParseExprAt(toks, p).value;
      var next := ExpectAt(Newline, toks, stmt.next).value;
      var rest := ParseProgramFrom(toks, next).value;
      var es := ParseProgramFrom(toks, p).value;
      assert es == [stmt.expr] + rest;
      ProgramYield(toks, next);
      ExprYield(toks, p);
      assert YieldAll(es) == Yield(stmt.expr) + YieldAll(rest) by {
        assert es[1..] == rest;
      }
      StatementContent(toks, p, stmt.next, next);
    }
  }

  lemma StatementContent(toks: seq<Token>, p: nat, mid: nat, next: nat)
    requires p <= mid <= next <= |toks| && next <= mid + 1
    requires next == mid + 1 ==> IsStructural(toks[mid].kind)
    ensures Content(toks[p..]) == Content(toks[p..mid]) + Content(toks[next..])
  {
    assert toks[p..] == toks[p..|toks|];
    assert toks[next..] == toks[next..|toks|];
    assert toks[p..p] == [];
    EnclosedContent(toks, p, p, mid, next);
    ContentSplit(toks, p, next, |toks|);
  }


  // ---------------------------------------------------------------------
  // Precedence and associativity
  // ---------------------------------------------------------------------

  /** The operands of a flat expression are identifiers not followed by `(`,
      so each one is a variable; the shape of the tree does not depend on
      which primaries stand between the operators. */
  function NameExpr(t: Token): Expr {
    Variable(Var(t))
  }

  /** `a0 op1 a1 op2 a2 ...` with every `a` an identifier and every `op` a `*` or `/`. */
  datatype Product = Product(first: Token, rest: seq<Factor>)
  datatype Factor = Factor(op: Token, arg: Token)

  /** `m0 op1 m1 op2 m2 ...` with every `m` a product and every `op` a `+` or `-`. */
  datatype Sum = Sum(first: Product, rest: seq<Term>)
  datatype Term = Term(op: Token, arg: Product)

  predicate ValidFactor(f: Factor) {
    (f.op.kind == Star || f.op.kind == Slash) && f.arg.kind == Ident
  }

  predicate ValidFactors(rest: seq<Factor>) {
    rest == [] || (ValidFactor(rest[0]) && ValidFactors(rest[1..]))
  }

  predicate ValidProduct(m: Product) {
    m.first.kind == Ident && ValidFactors(m.rest)
  }

  predicate ValidTerm(t: Term) {
    (t.op.kind == Plus || t.op.kind == Minus) && ValidProduct(t.arg)
  }

  predicate ValidTerms(rest: seq<Term>) {
    rest == [] || (ValidTerm(rest[0]) && ValidTerms(rest[1..]))
  }

  predicate ValidSum(s: Sum) {
    ValidProduct(s.first) && ValidTerms(s.rest)
  }

  function PairTokens(rest: seq<Factor>): (ts: seq<Token>)
    ensures |ts| == 2 * |rest|
  {
    if rest == [] then [] else [rest[0].op, rest[0].arg] + PairTokens(rest[1..])
  }

  function ProductTokens(m: Product): seq<Token> {
    [m.first] + PairTokens(m.rest)
  }

  function SumRestTokens(rest: seq<Term>): seq<Token> {
    if rest == [] then [] else [rest[0].op] + ProductTokens(rest[0].arg) + SumRestTokens(rest[1..])
  }

  function SumTokens(s: Sum): seq<Token> {
    ProductTokens(s.first) + SumRestTokens(s.rest)
  }

  /** Left-nested tree of a product: `((a0 op1 a1) op2 a2) ...` */
  function FoldProduct(acc: Expr, rest: seq<Factor>): Expr
    decreases |rest|
  {
    if rest == [] then acc
    else FoldProduct(BinaryOp(acc, rest[0].op, NameExpr(rest[0].arg)), rest[1..])
  }

  function ProductExpr(m: Product): Expr {
    FoldProduct(NameExpr(m.first), m.rest)
  }

  /** Left-nested tree of a sum whose operands are the products' trees. */
  function FoldSum(acc: Expr, rest: seq<Term>): Expr
    decreases |rest|
  {
    if rest == [] then acc
    else FoldSum(BinaryOp(acc, rest[0].op, ProductExpr(rest[0].arg)), rest[1..])
  }

  function SumExpr(s: Sum): Expr {
    FoldSum(ProductExpr(s.first), s.rest)
  }

  /** `ts` stands in `toks` from position `q` on. */
  predicate At(toks: seq<Token>, q: nat, ts: seq<Token>) {
    q + |ts| <= |toks| && forall k :: 0 <= k < |ts| ==> toks[q + k] == ts[k]
  }

  lemma {:induction false} AtAppend(toks: seq<Token>, q: nat, a: seq<Token>, b: seq<Token>)
    requires At(toks, q, a + b)
    ensures At(toks, q, a) && At(toks, q + |a|, b)
  {
    forall k | 0 <= k < |a|
      ensures toks[q + k] == a[k]
    {
      assert (a + b)[k] == a[k];
    }
    forall k | 0 <= k < |b|
      ensures toks[q + |a| + k] == b[k]
    {
      assert (a + b)[|a| + k] == b[k];
    }
  }

  lemma {:induction false} AtFirst(toks: seq<Token>, q: nat, ts: seq<Token>)
    requires At(toks, q, ts) && ts != []
    ensures toks[q] == ts[0]
  {
    assert toks[q + 0] == ts[0];
  }

  /** A token that ends a flat expression: end of input, newline or `)`. */
  predicate EndsExpr(toks: seq<Token>, e: nat) {
    e <= |toks| && (e == |toks| || toks[e].kind == Newline || toks[e].kind == RightParen)
  }

  /** A token that ends a product: neither `*`, `/` nor a `(` that would make
      the last identifier a call. */
  predicate EndsProduct(toks: seq<Token>, e: nat) {
    e <= |toks| &&
    (e == |toks| || (toks[e].kind != Star && toks[e].kind != Slash && toks[e].kind != LeftParen))
  }

  /** An identifier not followed by `(` is a variable. */
  lemma PrimaryName(toks: seq<Token>, p: nat)
    requires p < |toks| && toks[p].kind == Ident
    requires p + 1 == |toks| || toks[p + 1].kind != LeftParen
    ensures ParsePrimaryAt(toks, p) == Ok(Parsed(NameExpr(toks[p]), p + 1))
  {
  }

  /** One round of `FactorTail` once the primary after the operator is known. */
  lemma FactorTailStep(toks: seq<Token>, acc: Expr, q: nat, rhs: Expr, e: nat)
    requires q + 1 < e <= |toks| && (toks[q].kind == Star || toks[q].kind == Slash)
    requires ParsePrimaryAt(toks, q + 1) == Ok(Parsed(rhs, e))
    ensures FactorTail(toks, acc, q) == FactorTail(toks, BinaryOp(acc, toks[q], rhs), e)
  {
  }

  /** A run of factors does not start with `(`. */
  lemma {:induction false} PairsNext(toks: seq<Token>, q: nat, rest: seq<Factor>)
    requires ValidFactors(rest) && At(toks, q, PairTokens(rest))
    requires EndsProduct(toks, q + 2 * |rest|)
    ensures q == |toks| || toks[q].kind != LeftParen
  {
    if rest != [] {
      AtFirst(toks, q, PairTokens(rest));
    }
  }

  lemma {:induction false} FactorTailChain(toks: seq<Token>, acc: Expr, q: nat, rest: seq<Factor>)
    requires ValidFactors(rest) && At(toks, q, PairTokens(rest))
    requires EndsProduct(toks, q + 2 * |rest|)
    ensures FactorTail(toks, acc, q) == Ok(Parsed(FoldProduct(acc, rest), q + 2 * |rest|))
    decreases |rest|
  {
    if rest != [] {
      var f := rest[0];
      PairAt(toks, q, rest);
      PrimaryName(toks, q + 1);
      FactorTailStep(toks, acc, q, NameExpr(f.arg), q + 2);
      FactorTailChain(toks, BinaryOp(acc, f.op, NameExpr(f.arg)), q + 2, rest[1..]);
    }
  }

  /** The first pair of a run of factors, and the run after it. */
  lemma {:induction false} PairAt(toks: seq<Token>, q: nat, rest: seq<Factor>)
    requires rest != [] && ValidFactors(rest) && At(toks, q, PairTokens(rest))
    requires EndsProduct(toks, q + 2 * |rest|)
    ensures q + 2 <= |toks| && toks[q] == rest[0].op && toks[q + 1] == rest[0].arg
    ensures ValidFactors(rest[1..]) && At(toks, q + 2, PairTokens(rest[1..]))
    ensures EndsProduct(toks, q + 2 + 2 * |rest[1..]|)
    ensures q + 2 == |toks| || toks[q + 2].kind != LeftParen
  {
    var f := rest[0];
    AtAppend(toks, q, [f.op, f.arg], PairTokens(rest[1..]));
    AtFirst(toks, q, [f.op, f.arg]);
    assert toks[q + 1] == [f.op, f.arg][1];
    PairsNext(toks, q + 2, rest[1..]);
  }

  /** A factor is its primary and the primary's tail. */
  lemma FactorIsTail(toks: seq<Token>, q: nat, lhs: Expr, e: nat)
    requires q < e <= |toks| && ParsePrimaryAt(toks, q) == Ok(Parsed(lhs, e))
    ensures ParseFactorAt(toks, q) == FactorTail(toks, lhs, e)
  {
  }

  lemma {:induction false} ProductChain(toks: seq<Token>, q: nat, m: Product)
    requires ValidProduct(m) && At(toks, q, ProductTokens(m))
    requires EndsProduct(toks, q + |ProductTokens(m)|)
    ensures ParseFactorAt(toks, q) == Ok(Parsed(ProductExpr(m), q + |ProductTokens(m)|))
  {
    FirstAt(toks, q, m);
    PrimaryName(toks, q);
    FactorIsTail(toks, q, NameExpr(m.first), q + 1);
    FactorTailChain(toks, NameExpr(m.first), q + 1, m.rest);
  }

  /** The first identifier of a product, and the run of factors after it. */
  lemma {:induction false} FirstAt(toks: seq<Token>, q: nat, m: Product)
    requires ValidProduct(m) && At(toks, q, ProductTokens(m))
    requires EndsProduct(toks, q + |ProductTokens(m)|)
    ensures q < |toks| && toks[q] == m.first
    ensures At(toks, q + 1, PairTokens(m.rest)) && EndsProduct(toks, q + 1 + 2 * |m.rest|)
    ensures q + 1 == |toks| || toks[q + 1].kind != LeftParen
  {
    AtAppend(toks, q, [m.first], PairTokens(m.rest));
    AtFirst(toks, q, [m.first]);
    PairsNext(toks, q + 1, m.rest);
  }

  lemma {:induction false} SumRestAt(toks: seq<Token>, q: nat, rest: seq<Term>)
    requires rest != [] && At(toks, q, SumRestTokens(rest))
    ensures toks[q] == rest[0].op
    ensures At(toks, q + 1, ProductTokens(rest[0].arg))
    ensures At(toks, q + 1 + |ProductTokens(rest[0].arg)|, SumRestTokens(rest[1..]))
    ensures |SumRestTokens(rest)| == 1 + |ProductTokens(rest[0].arg)| + |SumRestTokens(rest[1..])|
  {
    var head := [rest[0].op] + ProductTokens(rest[0].arg);
    assert SumRestTokens(rest) == head + SumRestTokens(rest[1..]);
    AtAppend(toks, q, head, SumRestTokens(rest[1..]));
    AtAppend(toks, q, [rest[0].op], ProductTokens(rest[0].arg));
    AtFirst(toks, q, [rest[0].op]);
  }

  /** What follows a product inside a sum cannot extend it. */
  lemma {:induction false} AfterProduct(toks: seq<Token>, e: nat, rest: seq<Term>)
    requires ValidTerms(rest)
    requires At(toks, e, SumRestTokens(rest)) && EndsExpr(toks, e + |SumRestTokens(rest)|)
    ensures e == |toks| || toks[e].kind == Plus || toks[e].kind == Minus ||
            toks[e].kind == Newline || toks[e].kind == RightParen
  {
    if rest != [] {
      SumRestAt(toks, e, rest);
    }
  }

  lemma {:induction false} TermTailChain(toks: seq<Token>, acc: Expr, q: nat, rest: seq<Term>)
    requires ValidTerms(rest)
    requires At(toks, q, SumRestTokens(rest))
    requires EndsExpr(toks, q + |SumRestTokens(rest)|)
    ensures TermTail(toks, acc, q) == Ok(Parsed(FoldSum(acc, rest), q + |SumRestTokens(rest)|))
    decreases |rest|
  {
    if rest != [] {
      var m := rest[0].arg;
      var e: nat := q + 1 + |ProductTokens(m)|;
      var acc' := BinaryOp(acc, rest[0].op, ProductExpr(m));
      SumRestAt(toks, q, rest);
      AfterProduct(toks, e, rest[1..]);
      TermTailProduct(toks, acc, q, rest[0].op, m, e);
      TermTailChain(toks, acc', e, rest[1..]);
    } else {
      assert TermTail(toks, acc, q) == Ok(Parsed(acc, q));
    }
  }

  /** One round of `TermTail` over a product of identifiers. */
  lemma {:induction false} TermTailProduct(toks: seq<Token>, acc: Expr, q: nat, op: Token, m: Product, e: nat)
    requires q < |toks| && toks[q] == op && (op.kind == Plus || op.kind == Minus)
    requires ValidProduct(m) && At(toks, q + 1, ProductTokens(m)) && e == q + 1 + |ProductTokens(m)|
    requires EndsProduct(toks, e)
    ensures TermTail(toks, acc, q) == TermTail(toks, BinaryOp(acc, op, ProductExpr(m)), e)
  {
    ProductChain(toks, q + 1, m);
    TermTailStep(toks, acc, q, ProductExpr(m), e);
  }

  /** One round of `TermTail` once the factor after the operator is known. */
  lemma TermTailStep(toks: seq<Token>, acc: Expr, q: nat, rhs: Expr, e: nat)
    requires q < |toks| && (toks[q].kind == Plus || toks[q].kind == Minus)
    requires q + 1 < e <= |toks| && ParseFactorAt(toks, q + 1) == Ok(Parsed(rhs, e))
    ensures TermTail(toks, acc, q) == TermTail(toks, BinaryOp(acc, toks[q], rhs), e)
  {
  }

  /** Precedence and associativity, for every flat expression: a sum of
      products of identifiers, ended by the end of input, a newline or `)`,
      parses to the tree in which `*` and `/` bind tighter than `+` and `-`
      and every chain nests to the left. */
  lemma {:induction false} FlatExpression(toks: seq<Token>, q: nat, s: Sum)
    requires ValidSum(s) && At(toks, q, SumTokens(s))
    requires EndsExpr(toks, q + |SumTokens(s)|)
    ensures ParseExprAt(toks, q) == Ok(Parsed(SumExpr(s), q + |SumTokens(s)|))
  {
    FlatSecond(toks, q, s);
    FlatTerm(toks, q, s);
    assert ParseAssignmentAt(toks, q) == ParseTermAt(toks, q);
  }

  /** A flat expression is a term. */
  lemma {:induction false} FlatTerm(toks: seq<Token>, q: nat, s: Sum)
    requires ValidSum(s) && At(toks, q, SumTokens(s))
    requires EndsExpr(toks, q + |SumTokens(s)|)
    ensures ParseTermAt(toks, q) == Ok(Parsed(SumExpr(s), q + |SumTokens(s)|))
  {
    FlatHead(toks, q, s);
    FlatTail(toks, q, s);
    FlatRest(toks, q, s);
  }

  /** The first product of a flat expression is its first factor. */
  lemma {:induction false} FlatHead(toks: seq<Token>, q: nat, s: Sum)
    requires ValidSum(s) && At(toks, q, SumTokens(s))
    requires EndsExpr(toks, q + |SumTokens(s)|)
    ensures ParseFactorAt(toks, q) == Ok(Parsed(ProductExpr(s.first), q + |ProductTokens(s.first)|))
  {
    FlatSplit(toks, q, s);
    AfterProduct(toks, q + |ProductTokens(s.first)|, s.rest);
    ProductChain(toks, q, s.first);
  }

  /** The `+`/`-` loop, started after the first product of a flat
      expression with that product's tree, yields the whole sum's tree. */
  lemma {:induction false} FlatTail(toks: seq<Token>, q: nat, s: Sum)
    requires ValidSum(s) && At(toks, q, SumTokens(s))
    requires EndsExpr(toks, q + |SumTokens(s)|)
    ensures q + |ProductTokens(s.first)| <= |toks|
    ensures TermTail(toks, ProductExpr(s.first), q + |ProductTokens(s.first)|)
         == Ok(Parsed(SumExpr(s), q + |SumTokens(s)|))
  {
    FlatSplit(toks, q, s);
    TermTailChain(toks, ProductExpr(s.first), q + |ProductTokens(s.first)|, s.rest);
  }

  /** The term is the first product followed by the `+`/`-` loop. */
  lemma FlatRest(toks: seq<Token>, q: nat, s: Sum)
    requires q + |ProductTokens(s.first)| <= |toks|
    requires ParseFactorAt(toks, q) == Ok(Parsed(ProductExpr(s.first), q + |ProductTokens(s.first)|))
    requires TermTail(toks, ProductExpr(s.first), q + |ProductTokens(s.first)|)
          == Ok(Parsed(SumExpr(s), q + |SumTokens(s)|))
    ensures ParseTermAt(toks, q) == Ok(Parsed(SumExpr(s), q + |SumTokens(s)|))
  {
    TermIsTail(toks, q, ProductExpr(s.first), q + |ProductTokens(s.first)|);
  }

  /** The second token of a flat expression is never `=`. */
  lemma {:induction false} FlatSecond(toks: seq<Token>, q: nat, s: Sum)
    requires ValidSum(s) && At(toks, q, SumTokens(s))
    requires EndsExpr(toks, q + |SumTokens(s)|)
    ensures q + 1 == |toks| || toks[q + 1].kind != Equal
  {
    FlatSplit(toks, q, s);
    AfterProduct(toks, q + |ProductTokens(s.first)|, s.rest);
    NoEqualAfterFirst(toks, q, s.first);
  }

  /** A flat expression is its first product followed by the rest of the sum. */
  lemma FlatSplit(toks: seq<Token>, q: nat, s: Sum)
    requires At(toks, q, SumTokens(s))
    ensures At(toks, q, ProductTokens(s.first))
    ensures At(toks, q + |ProductTokens(s.first)|, SumRestTokens(s.rest))
    ensures |SumTokens(s)| == |ProductTokens(s.first)| + |SumRestTokens(s.rest)|
  {
    AtAppend(toks, q, ProductTokens(s.first), SumRestTokens(s.rest));
  }

  /** The second token of a product followed by a sum operator or an end is never `=`. */
  lemma {:induction false} NoEqualAfterFirst(toks: seq<Token>, q: nat, m: Product)
    requires ValidProduct(m) && At(toks, q, ProductTokens(m))
    requires var e := q + |ProductTokens(m)|;
      e == |toks| || toks[e].kind == Plus || toks[e].kind == Minus ||
      toks[e].kind == Newline || toks[e].kind == RightParen
    ensures q + 1 == |toks| || toks[q + 1].kind != Equal
  {
    AtAppend(toks, q, [m.first], PairTokens(m.rest));
    if m.rest != [] {
      AtAppend(toks, q + 1, [m.rest[0].op, m.rest[0].arg], PairTokens(m.rest[1..]));
      AtFirst(toks, q + 1, [m.rest[0].op, m.rest[0].arg]);
    }
  }

  /** A term is its first factor and the factor's tail. */
  lemma TermIsTail(toks: seq<Token>, q: nat, lhs: Expr, e: nat)
    requires q <= |toks| && ParseFactorAt(toks, q) == Ok(Parsed(lhs, e))
    ensures ParseTermAt(toks, q) == TermTail(toks, lhs, e)
  {
  }

  /** `a + b * c` groups as `a + (b * c)`. */
  lemma PrecedenceExample()
    ensures var a, b, c := Token(Ident, "a"), Token(Ident, "b"), Token(Ident, "c");
      var plus, star := Token(Plus, "+"), Token(Star, "*");
      ParseExprAt([a, plus, b, star, c], 0)
        == Ok(Parsed(BinaryOp(NameExpr(a), plus, BinaryOp(NameExpr(b), star, NameExpr(c))), 5))
  {
    var a, b, c := Token(Ident, "a"), Token(Ident, "b"), Token(Ident, "c");
    var plus, star := Token(Plus, "+"), Token(Star, "*");
    var bc := Product(b, [Factor(star, c)]);
    assert [Factor(star, c)][1..] == [];
    assert FoldProduct(NameExpr(b), [Factor(star, c)]) == FoldProduct(BinaryOp(NameExpr(b), star, NameExpr(c)), []);
    assert ProductExpr(bc) == BinaryOp(NameExpr(b), star, NameExpr(c));
    assert [Term(plus, bc)][1..] == [];
    var s := Sum(Product(a, []), [Term(plus, bc)]);
    assert ValidFactors([Factor(star, c)]);
    assert ValidTerms([Term(plus, bc)]);
    assert ProductTokens(bc) == [b, star, c];
    assert SumRestTokens([Term(plus, bc)]) == [plus, b, star, c];
    assert SumTokens(s) == [a, plus, b, star, c];
    assert SumExpr(s) == FoldSum(BinaryOp(NameExpr(a), plus, ProductExpr(bc)), []);
    FlatExpression([a, plus, b, star, c], 0, s);
  }

  /** `a - b - c` groups as `(a - b) - c`. */
  lemma AssociativityExample()
    ensures var a, b, c := Token(Ident, "a"), Token(Ident, "b"), Token(Ident, "c");
      var minus := Token(Minus, "-");
      ParseExprAt([a, minus, b, minus, c], 0)
        == Ok(Parsed(BinaryOp(BinaryOp(NameExpr(a), minus, NameExpr(b)), minus, NameExpr(c)), 5))
  {
    var a, b, c := Token(Ident, "a"), Token(Ident, "b"), Token(Ident, "c");
    var minus := Token(Minus, "-");
    var terms := [Term(minus, Product(b, [])), Term(minus, Product(c, []))];
    assert terms[1..][1..] == [];
    assert ValidTerms(terms[1..]);
    var s := Sum(Product(a, []), terms);
    assert ProductTokens(Product(b, [])) == [b];
    assert ProductTokens(Product(c, [])) == [c];
    assert SumRestTokens(terms[1..]) == [minus, c];
    assert SumRestTokens(terms) == [minus, b, minus, c];
    assert SumTokens(s) == [a, minus, b, minus, c];
    var ab := BinaryOp(NameExpr(a), minus, NameExpr(b));
    assert SumExpr(s) == FoldSum(ab, terms[1..]);
    assert FoldSum(ab, terms[1..]) == FoldSum(BinaryOp(ab, minus, NameExpr(c)), []);
    FlatExpression([a, minus, b, minus, c], 0, s);
  }
}
