# simple-language-interpreter, modelled in Dafny

The program is a three-stage interpreter for a tiny line-oriented language.
Each statement is either `name = expression` or a bare expression. An
expression is integer arithmetic over `+ - * /` with parentheses, variables
and the one-argument call `print(x)`.

- The **scanner** (`tokenize`) turns text into tokens.
- The **recursive-descent parser** (`parse`) turns tokens into one syntax
  tree per statement.
- The **tree-walking evaluator** (`interpret` and `evaluate`) runs the
  trees against one shared name-to-`i32` environment. `print` writes the
  values it is given.

Every `panic!` and failing `unwrap` of the program is an explicit error
value here. The run stops at the first one, as the program does.

| file | module | models |
|---|---|---|
| `wrappers.dfy` | `Wrappers` | the `Result` type that stands for the program's aborts |
| `tokens.dfy` | `Tokens` | `TokenType` and `Token` (src/tokenizer/token.rs) |
| `exprs.dfy` | `Exprs` | the five-variant `Expr`, `Variable` and `i32` (src/parser/expr.rs) |
| `tokenizer.dfy` | `Tokenizer` | `tokenize` and `is_valid_identifier_char` (src/tokenizer/mod.rs) |
| `parser.dfy` | `Parser` | `parse`, `expect`, `parse_expr` … `parse_primary`, `parse_number` (src/parser/mod.rs) |
| `parser_facts.dfy` | `ParserFacts` | the parser's lookahead, error cases and quirks |
| `interpreter.dfy` | `Interpreter` | `Env`, `interpret`, `evaluate` (src/interpreter/mod.rs) |
| `pipeline.dfy` | `Pipeline` | facts and one example that run text through all three stages |

Each imperative stage is modelled twice:

- **Scanner.** `Tokenizer.ScanFrom(s, i)` says what the scanner produces
  from cursor `i` on. `Tokenizer.Tokenize` is the cursor loop itself, with
  its two inner loops (`ReadNumber`, `ReadIdent`). It is proved equal to
  `ScanFrom(src, 0)`.
- **Parser.** The functions `Parser.ParseExprAt` … `Parser.ParsePrimaryAt`
  give the tree built from position `p` and the position after it, or the
  error. The class `Parser.Parser` holds the token sequence and a cursor
  `pos`. Its methods mirror the Rust functions one for one, including the
  `while` loops of `parse_term` and `parse_factor`. Each method is proved to
  agree with its function.
- **Evaluator.** `Interpreter.Eval(e, st)` and `Interpreter.Run` are the
  semantics. `st` is a `State`: the environment plus every value printed so
  far. The class `Interpreter.Evaluator` keeps the environment and the
  output as fields that its methods update in place. Its `Evaluate` and
  `Interpret` methods are proved equal to `Eval` and `Run`.

The source reverses the token vector and consumes it with `pop`. The model
reads the same tokens in the same order through a forward cursor. Lookahead
"the last element" is `tokens[pos]`, and "the one before it" is
`tokens[pos + 1]`.

Two consequences of the code that a reader might not expect:

- **Assignment inside an expression.** An assignment is accepted not only
  at the outermost level of a statement but anywhere a parenthesised
  expression or a call argument starts, because `parse_primary` re-enters
  `parse_expr` (src/parser/mod.rs:125, 138). So `(a = b)` is an assignment
  (`ParserFacts.AssignmentInParentheses`).
- **No negative literals.** There is no unary minus, so `x = -5` fails to
  parse: `-` cannot start a primary (`ParserFacts.PrimaryCases`,
  `Pipeline.NegativeLiteral`). Only the literals 0 to `i32::MAX` can be
  written; negative values arise only from arithmetic. For every literal
  that can be written, `x = n` followed by `print(x)` prints n
  (`Pipeline.PrintAssigned`).

## Model

| member | source | states |
|---|---|---|
| Tokenizer.SingleCharKind | src/tokenizer/mod.rs:12-39 | each of the eight one-character tokens has its own kind, and the kind's character (`KindChar`) gives the character back |
| Tokenizer.DigitRunEnd | src/tokenizer/mod.rs:45-59 | the end of the longest run of digits from a position: all before it are digits, the one at it is not |
| Tokenizer.IsValidIdentifierChar | src/tokenizer/mod.rs:101-104 | every ASCII letter, digit and `_` may continue an identifier, and no operator, bracket, newline, space or tab can |
| Tokenizer.IdentRunEnd | src/tokenizer/mod.rs:78-86 | the end of the longest run of `is_valid_identifier_char` characters from a position, which stops before the first other character |
| Tokenizer.ScanFrom | src/tokenizer/mod.rs:5-99 | what the scan loop produces from a cursor position; on success it yields at most one token per remaining character |
| Tokenizer.ScanOneChar | src/tokenizer/mod.rs:12-39 | `= / + - * ( )` and newline each yield exactly one token of their kind whose lexeme is that character; a space yields nothing and is skipped |
| Tokenizer.ScanNumber | src/tokenizer/mod.rs:40-65 | a digit run ended by the end of input, a space, `)` or newline is one NumberLiteral with exactly those digits; the terminator is not consumed and is scanned next |
| Tokenizer.ScanNumberRejects | src/tokenizer/mod.rs:48-56 | a digit run followed by any other non-digit aborts the whole scan with that character, whatever follows |
| Tokenizer.ScanIdent | src/tokenizer/mod.rs:72-93 | any character no earlier arm claims starts an identifier that extends over the longest following run of letters, digits and `_` and stops without consuming the next character |
| Tokenizer.ReadNumber | src/tokenizer/mod.rs:40-65 | the digit-run inner loop: on success it returns the end of the run and the lexeme `src[start..end]`, and the scan from `start` is that NumberLiteral followed by the scan from the end; otherwise the scan from `start` fails with the same error |
| Tokenizer.ReadIdent | src/tokenizer/mod.rs:72-93 | the identifier inner loop: the lexeme is `src[start..next]` and the scan from `start` is that Ident followed by the scan from `next` |
| Tokenizer.Tokenize | src/tokenizer/mod.rs:5-99 | the scanner on ASCII text returns exactly `ScanFrom(src, 0)`: the same tokens, or the same lexical error |
| Tokenizer.ScanLexemes | src/tokenizer/mod.rs:9-96 | on success, the lexemes of all tokens concatenated in order are the input with its spaces removed |
| Tokenizer.ScanToken | src/tokenizer/mod.rs:11-93 | away from a space, a successful scan starts with one token whose lexeme is the space-free text up to where scanning resumes |
| Tokenizer.LexemesStep | src/tokenizer/mod.rs:9-96 | one token whose lexeme is a space-free stretch of the input extends the lexeme/input correspondence over that stretch |
| Tokenizer.ScanWellFormed | src/tokenizer/mod.rs:12-93 | every token produced is well formed: punctuation and newline tokens carry their one character; a NumberLiteral is a non-empty run of digits; an Ident starts with a character that is not a digit, space, newline or punctuation and continues with identifier characters |
| Tokenizer.RejectedDigitRuns | src/tokenizer/mod.rs:48-56 | `12a3`, `1+2` and `2*(3` are rejected at `a`, `+` and `*` |
| Parser.ParseNumberDigits | src/parser/mod.rs:146-148 | every non-empty digit string, leading zeros included, is read as its decimal value when that is at most `i32::MAX` and is rejected with `InvalidNumber` naming the lexeme otherwise |
| Parser.ParseNumberShow | src/parser/mod.rs:146-148 | every value up to `i32::MAX` written in decimal is read back as itself |
| Parser.LeadingZeros | src/parser/mod.rs:146-148 | `007` is read as 7 |
| Parser.ParseI32 | src/parser/mod.rs:147 | `str::parse::<i32>` succeeds only on at least one digit, optionally after one leading sign, so a lone `+` or `-` fails; on digits alone, after `+` or after `-` it succeeds exactly when the (negated) value fits in an `i32`, and gives that value |
| Parser.ParseNumber | src/parser/mod.rs:146-148 | `parse_number` succeeds exactly when `str::parse::<i32>` does, with its value, and its only error is `InvalidNumber` naming the lexeme |
| Parser.ParseProgram | src/parser/mod.rs:7-21 | no tokens give no statements; a successful parse gives at most one statement per token, each well formed |
| Parser.DecimalValueShow | src/parser/mod.rs:146-148 | the decimal digits of a number are read back as that number |
| Parser.ExpectAt | src/parser/mod.rs:23-32 | `expect` accepts exactly when the input is exhausted or the next token has the expected kind; it consumes nothing at the end and one token otherwise, and fails naming the token it found |
| Parser.ParseVarAt | src/parser/mod.rs:53-60 | `parse_var` succeeds exactly on an identifier, which becomes the variable's name |
| Parser.ParseExprAt | src/parser/mod.rs:34-36 | on success, an expression consumes at least one token, stays within the input and yields a well-formed tree |
| Parser.ParseAssignmentAt | src/parser/mod.rs:38-51 | on success, an assignment or term consumes at least one token and yields a well-formed tree |
| Parser.ParseTermAt | src/parser/mod.rs:62-82 | on success, a term consumes at least one token and yields a well-formed tree |
| Parser.TermTail | src/parser/mod.rs:65-80 | the `+`/`-` loop never moves backwards; its result is the tree it was given or a new BinaryOp on top, and well-formedness is kept |
| Parser.ParseFactorAt | src/parser/mod.rs:84-105 | on success, a factor consumes at least one token and yields a well-formed tree |
| Parser.FactorTail | src/parser/mod.rs:87-102 | the `*`/`/` loop never moves backwards; its result is the tree it was given or a new BinaryOp on top, and well-formedness is kept |
| Parser.ParsePrimaryAt | src/parser/mod.rs:107-144 | on success, a primary consumes at least one token and yields a well-formed tree |
| Parser.ParseProgramFrom | src/parser/mod.rs:7-21 | on success there are at most as many statements as tokens left, and every statement is a well-formed tree |
| Parser.Parser.constructor | src/parser/mod.rs:7-8 | a parser starts at the first token of the unchanged token sequence |
| Parser.Parser.Expect | src/parser/mod.rs:23-32 | the consuming `expect` moves the cursor and fails exactly as `ExpectAt` says |
| Parser.Parser.ParseVar | src/parser/mod.rs:53-60 | the consuming `parse_var` always pops one token and returns what `ParseVarAt` says |
| Parser.Parser.ParseExpr | src/parser/mod.rs:34-36 | the consuming `parse_expr` returns the tree and leaves the cursor where `ParseExprAt` says, or fails with its error |
| Parser.Parser.ParseAssignment | src/parser/mod.rs:38-51 | the consuming `parse_assignment` agrees with `ParseAssignmentAt`; the `expect(Equal)` after the target cannot fail |
| Parser.Parser.ParseTerm | src/parser/mod.rs:62-82 | the consuming `parse_term` with its `while` loop agrees with `ParseTermAt` |
| Parser.Parser.ParseFactor | src/parser/mod.rs:84-105 | the consuming `parse_factor` with its `while` loop, which needs two tokens left, agrees with `ParseFactorAt` |
| Parser.Parser.ParsePrimary | src/parser/mod.rs:107-144 | the consuming `parse_primary` agrees with `ParsePrimaryAt` |
| Parser.Parse | src/parser/mod.rs:7-21 | `parse`, with its statement loop, returns exactly `ParseProgram(tokens)`: the same statements, or the same error |
| Parser.ProgramStep | src/parser/mod.rs:12-18 | one round of the statement loop: a failing statement or a missing newline fails the program with that error, and otherwise the statement is followed by the statements after the newline |
| Parser.ContentAppend | src/parser/mod.rs:7-148 | the tokens a tree keeps from two stretches of input are those of the first followed by those of the second |
| Parser.ExprYield | src/parser/mod.rs:34-36 | the tree of an expression holds exactly the consumed tokens other than `=`, parentheses and newlines, in their order |
| Parser.AssignmentYield | src/parser/mod.rs:38-51 | an assignment keeps its target and the right-hand side's tokens and drops only the `=` |
| Parser.TermYield | src/parser/mod.rs:62-82 | the tree of a term holds exactly its non-structural tokens, in order |
| Parser.TermTailYield | src/parser/mod.rs:65-80 | the `+`/`-` loop adds exactly the operators and operands it consumed, in order, after the tree it started from |
| Parser.FactorYield | src/parser/mod.rs:84-105 | the tree of a factor holds exactly its non-structural tokens, in order |
| Parser.FactorTailYield | src/parser/mod.rs:87-102 | the `*`/`/` loop adds exactly the operators and operands it consumed, in order, after the tree it started from |
| Parser.PrimaryYield | src/parser/mod.rs:107-144 | the tree of a primary holds exactly its non-structural tokens, in order |
| Parser.CallYield | src/parser/mod.rs:117-136 | a call keeps its name and its argument's tokens and drops only the parentheses |
| Parser.GroupYield | src/parser/mod.rs:137-141 | a parenthesised expression keeps exactly the inner expression's tokens |
| Parser.ProgramYield | src/parser/mod.rs:7-21 | a successful parse consumes every token, and its statements hold exactly the input's tokens other than `=`, parentheses and newlines, in order: nothing is added, lost or moved |
| Parser.FlatExpression | src/parser/mod.rs:62-105 | every flat expression (a sum of products of variables ended by the end of input, a newline or `)`) parses to the tree in which `*` and `/` bind tighter than `+` and `-` and every chain nests to the left |
| Parser.ProductChain | src/parser/mod.rs:84-105 | a product of variables parses as the left-nested chain of its `*`/`/` operations |
| Parser.FactorTailChain | src/parser/mod.rs:87-102 | the `*`/`/` loop folds a run of operator–variable pairs to the left onto the tree it started from |
| Parser.TermTailChain | src/parser/mod.rs:65-80 | the `+`/`-` loop folds a run of operator–product pairs to the left onto the tree it started from |
| Parser.TermTailProduct | src/parser/mod.rs:68-76 | one round of the `+`/`-` loop over a whole product adds one BinaryOp whose right operand is that product's tree |
| Parser.TermTailStep | src/parser/mod.rs:68-76 | one round of the `+`/`-` loop makes the tree so far the left operand of the consumed operator |
| Parser.FactorTailStep | src/parser/mod.rs:90-98 | one round of the `*`/`/` loop makes the tree so far the left operand of the consumed operator |
| Parser.PrimaryName | src/parser/mod.rs:117-135 | an identifier not directly followed by `(` is a variable and consumes one token |
| Parser.FactorIsTail | src/parser/mod.rs:84-86 | a factor is its first primary followed by the `*`/`/` loop |
| Parser.TermIsTail | src/parser/mod.rs:62-64 | a term is its first factor followed by the `+`/`-` loop started where that factor ends |
| Parser.FlatTerm | src/parser/mod.rs:62-105 | a flat expression parses as a term to the tree with `*` and `/` below `+` and `-`, every chain nested to the left |
| Parser.FlatHead | src/parser/mod.rs:84-105 | the first factor of a flat expression is its whole first product, ending where the first `+` or `-` or the end stands |
| Parser.FlatTail | src/parser/mod.rs:65-80 | the `+`/`-` loop started after the first product folds the remaining products to the left onto it, ending at the end of the expression |
| Parser.FlatRest | src/parser/mod.rs:62-82 | the first factor and the loop after it make the term |
| Parser.FlatSecond | src/parser/mod.rs:39 | the second token of a flat expression is never `=`, so the assignment lookahead never fires |
| Parser.FirstAt | src/parser/mod.rs:117-120 | the first identifier of a product is not followed by `(` and the run of `*`/`/` pairs starts right after it |
| Parser.PairAt | src/parser/mod.rs:87-102 | a run of `*`/`/` pairs starts with an operator and an identifier not followed by `(`, and the rest of the run follows them |
| Parser.NoEqualAfterFirst | src/parser/mod.rs:39 | a flat expression never triggers the assignment lookahead |
| Parser.AfterProduct | src/parser/mod.rs:65-79 | inside a flat expression, what follows a product is `+`, `-`, a newline, `)` or the end |
| Parser.PairsNext | src/parser/mod.rs:117-120 | the token after a variable inside a product is never `(`, so no operand becomes a call |
| Parser.PrecedenceExample | src/parser/mod.rs:62-105 | `a + b * c` parses as `a + (b * c)` |
| Parser.AssociativityExample | src/parser/mod.rs:62-82 | `a - b - c` parses as `(a - b) - c` |
| ParserFacts.AssignmentLookahead | src/parser/mod.rs:38-60 | when the token after next is `=`, a non-identifier target is fatal and otherwise the result is an assignment whose value is a full expression read after the `=`; in every other case the statement is a term |
| ParserFacts.PrimaryCases | src/parser/mod.rs:107-144 | end of input or a token other than a number, identifier or `(` in primary position is fatal; a number literal is the `Number` node of the value `parse_number` reads, or its error; an identifier is a variable unless `(` follows it, and then the result is exactly: the argument's error, the missing `)` error, or the call node of one full expression ending after the `)`; `(` gives the inner expression's error, the missing `)` error, or the inner expression itself with no node of its own |
| ParserFacts.OversizedLiteral | src/parser/mod.rs:111-116 | a NumberLiteral whose value is above `i32::MAX` is fatal |
| ParserFacts.StatementNeedsNewline | src/parser/mod.rs:12-32 | a statement followed by any token but a newline fails the whole parse with that token |
| ParserFacts.OneStatement | src/parser/mod.rs:12-25 | a statement that ends at the end of the input is the whole program; no final newline is needed |
| ParserFacts.ChainedAssignment | src/parser/mod.rs:38-51 | `a = b = c` nests to the right |
| ParserFacts.AssignmentInParentheses | src/parser/mod.rs:137-141 | `(a = b)` parses to the assignment itself |
| ParserFacts.MissingParenAtEnd | src/parser/mod.rs:123-127 | `print(x` with the `)` missing at the end of the input parses as the call |
| ParserFacts.TrailingOperator | src/parser/mod.rs:62-105 | a trailing `*` is left for the newline check and fails there, while a trailing `+` runs out of tokens for its right operand |
| ParserFacts.BlankLine | src/parser/mod.rs:107-142 | a newline where a statement should start (a blank line) is fatal |
| Interpreter.TruncDivRemainder | src/interpreter/mod.rs:31 | `i32` division truncates toward zero: the remainder is smaller than the divisor in magnitude and never has the opposite sign to the dividend |
| Interpreter.TruncDivExamples | src/interpreter/mod.rs:31 | `7/2 = 3`, `-7/2 = -3`, `7/-2 = -3`, `-7/-2 = 3`, where Euclidean division would give `-4` for `-7/2` |
| Interpreter.Checked | src/interpreter/mod.rs:27-33 | an exact result is kept exactly when an `i32` holds it, and is an overflow error otherwise |
| Interpreter.Apply | src/interpreter/mod.rs:27-33 | a non-arithmetic operator kind is exactly the invalid-operation error; division by zero is an error; otherwise the operation succeeds exactly when the exact sum, difference, product or truncated quotient fits in an `i32`, gives that value, and fails only with the overflow error |
| Interpreter.TruncDiv | src/interpreter/mod.rs:31 | Rust's `/`: the magnitude is the quotient of the magnitudes, the sign is negative exactly when the operands' signs differ (or zero), and it agrees with Dafny's `/` on non-negative operands |
| Interpreter.Eval | src/interpreter/mod.rs:14-61 | evaluation never removes printed values or bound names, whether it succeeds or aborts |
| Interpreter.Run | src/interpreter/mod.rs:7-11 | running statements never removes printed values or bound names |
| Interpreter.NumberValue | src/interpreter/mod.rs:16-18 | a number is its stored value and changes nothing |
| Interpreter.EvalOrder | src/interpreter/mod.rs:19-36 | the left operand is evaluated completely first; the right starts from the state it leaves; an abort on the left skips the right; the operator is applied last |
| Interpreter.EvalFrame | src/interpreter/mod.rs:37-42 | a binding survives every expression that does not assign its name |
| Interpreter.PureEval | src/interpreter/mod.rs:16-49 | an expression without assignments or calls changes neither the environment nor the output, whether it succeeds or aborts |
| Interpreter.AssignThenRead | src/interpreter/mod.rs:37-49 | an assignment returns its value, binds the target to it over any earlier binding, keeps every other binding and the output, and a later read of the target sees the value |
| Interpreter.UnboundVariable | src/interpreter/mod.rs:43-49 | reading a name that was never bound aborts; there is no default value |
| Interpreter.PrintAppends | src/interpreter/mod.rs:50-55 | `print` evaluates its argument, appends exactly that value to the output and returns it |
| Interpreter.UndefinedCall | src/interpreter/mod.rs:50-58 | a call to any name but `print` aborts before its argument is evaluated |
| Interpreter.WellFormedOperators | src/interpreter/mod.rs:27-33 | no tree of the parser's shape reaches the invalid-operation abort |
| Interpreter.RunWellFormedOperators | src/interpreter/mod.rs:7-11 | no program of such trees reaches the invalid-operation abort |
| Interpreter.RunAppend | src/interpreter/mod.rs:7-11 | running two programs one after the other is running the second from the state the first leaves; an abort in the first skips the second |
| Interpreter.PrintTwice | src/interpreter/mod.rs:50-55 | `print(print(3))` writes 3 twice |
| Interpreter.AssignmentSeenOnTheRight | src/interpreter/mod.rs:24-25 | in `(x = 1) + x` the right operand sees the left one's assignment, giving 2 |
| Interpreter.PrintsInOrder | src/interpreter/mod.rs:24-25 | `print(1) - print(2)` writes 1 before 2 and gives -1 |
| Interpreter.SharedEnvironment | src/interpreter/mod.rs:7-11 | `x = 5` then `print(x)` writes 5: later statements see earlier assignments |
| Interpreter.Evaluator.constructor | src/interpreter/mod.rs:7 | an evaluator starts from the given environment with nothing printed |
| Interpreter.Evaluator.Evaluate | src/interpreter/mod.rs:14-61 | `evaluate`, updating the environment and the output in place, returns what `Eval` returns and leaves the state `Eval` leaves |
| Interpreter.Evaluator.Interpret | src/interpreter/mod.rs:7-11 | `interpret`, looping over the statements, ends in the state `Run` gives, and fails exactly when `Run` does |
| Pipeline.NoInvalidOperation | src/interpreter/mod.rs:27-33 | a program that scans and parses never stops at the invalid-operation abort |
| Pipeline.ScanCallee | src/tokenizer/mod.rs:32-93 | an identifier directly followed by `(` scans as those two tokens |
| Pipeline.ScanQuotientArgument | src/tokenizer/mod.rs:36-71 | `7 / 2)` scans as NumberLiteral `7`, `/`, NumberLiteral `2`, `)` |
| Pipeline.ScanQuotient | src/tokenizer/mod.rs:5-99 | `print(7 / 2)` scans as six tokens |
| Pipeline.ParseQuotient | src/parser/mod.rs:107-144 | those six tokens parse as one call of `print` around one division |
| Pipeline.RunQuotient | src/interpreter/mod.rs:50-55 | evaluating that call prints 3 |
| Pipeline.ScanPrintLine | src/tokenizer/mod.rs:5-99 | a newline followed by `print(x)` at the end of the text scans as Newline, Ident `print`, `(`, Ident `x`, `)` |
| Pipeline.ScanLiteralLine | src/tokenizer/mod.rs:40-65 | a digit run followed by that line scans as one NumberLiteral with exactly those digits, then that line's tokens |
| Pipeline.ScanAssignPrint | src/tokenizer/mod.rs:5-99 | `x = <digits>`, a newline and `print(x)` scan as eight tokens: the spaces vanish |
| Pipeline.ScanNegatedPrint | src/tokenizer/mod.rs:5-99 | `x = -<digits>`, a newline and `print(x)` scan as nine tokens, the `-` being a token of its own |
| Pipeline.ParseAssignLine | src/parser/mod.rs:38-50 | the first line parses as the assignment of the literal's value to `x`, ending before the newline |
| Pipeline.ParsePrintLine | src/parser/mod.rs:117-136 | the second line parses as the call of `print` on the variable `x`, ending at the end of the tokens |
| Pipeline.ParseAssignPrint | src/parser/mod.rs:7-21 | for every literal up to `i32::MAX`, the eight tokens parse as exactly those two statements |
| Pipeline.RunAssignPrint | src/interpreter/mod.rs:7-55 | running those two statements from an empty environment binds `x` to the value and prints it once |
| Pipeline.NegativeLiteral | src/parser/mod.rs:107-144 | `x = -n` scans, but the program fails to parse for every n, because `-` cannot start a primary |
| Pipeline.PrintQuotient | src/interpreter/mod.rs:7-11 | the text `print(7 / 2)`, scanned, parsed and run, prints 3 |
| Pipeline.PrintAssigned | src/interpreter/mod.rs:7-11 | for every `0 <= n <= i32::MAX`, the text `x = n`, a newline and `print(x)`, scanned, parsed and run, prints exactly n and leaves `x` bound to n |

## Left out

- Input is ASCII only (`Tokenize` requires `IsAscii`). The loop compares a character index with the byte length of the text, which goes wrong on multi-byte characters. `is_alphanumeric` is ASCII letters and digits.
- Standard output is the `out` sequence of the state. The decimal formatting by `println!` and the newline after each value are not modelled.
- The `panic!` message text and `Debug` formatting are left out. Only the kind of error is kept.
- Apply: `+ - *` results outside the `i32` range are an `Overflow` error, matching a debug build's panic. The wrapping of a release build is not modelled. `i32::MIN / -1` is also `Overflow`, as in Rust.
- The environment is a Dafny `map`. `HashMap` hashing and iteration order are not modelled and are not observable here.
- src/main.rs, a driver with a fixed source string that pretty-prints the trees, is not part of this model.
- The parser's cursor replaces the reversed `Vec` and its `pop`. The in-place reversal is not modelled; it does not change which tokens are read or in what order.
- The scanner reads each character with `chars().nth(pos)` (src/tokenizer/mod.rs:9), which is quadratic; the model indexes the string directly, which reads the same characters.
- FlatExpression: precedence and associativity are proved for every flat expression whose operands are variables. Numbers, calls and parenthesised operands differ only in the primary, which `ParserFacts.PrimaryCases` and the yield lemmas cover.
- ParseI32: the argument of `parse_number` is a lexeme the scanner made, so it never has a sign; `ParseI32` still follows `str::parse::<i32>` and accepts one leading `+` or `-` before at least one digit.
