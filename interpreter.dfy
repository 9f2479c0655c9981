/** The tree-walking evaluator (src/interpreter/mod.rs).

    `Eval(e, st)` is the specification: the value of `e` and the state it
    leaves behind, where a state is the environment (the `Env` map from names
    to `i32` values) together with the values printed so far.  Every `panic!`
    of the source becomes an `Abort` carrying the error kind and the state at
    the moment of the abort: the values printed before it have already been
    written.  The class `Evaluator` is the evaluator itself: `evaluate`
    updating its environment and output in place, and `interpret` running a
    program statement by statement; both are proved equal to the
    specification. */
module Interpreter {
  import opened Wrappers
  import opened Tokens
  import opened Exprs

  /** `Env`: variable names to `i32` values. */
  type Env = map<string, Int32>

  /** The error kinds behind the source's aborts: an unbound variable, a call
      to a function other than `print`, an operator token that is not
      `+ - * /`, a division by zero, and an `i32` result out of range. */
  datatype RuntimeError =
    | UndefinedVariable(name: string)
    | UndefinedFunction(callee: string)
    | InvalidOperation(kind: TokenType)
    | DivisionByZero
    | Overflow

  /** The environment and, in order, every value printed so far. */
  datatype State = State(env: Env, out: seq<Int32>)

  /** An evaluation either yields a value or aborts; both leave a state. */
  datatype Outcome = Done(value: Int32, st: State) | Abort(error: RuntimeError, st: State)

  /** A run of statements either completes or aborts; both leave a state. */
  datatype Halt = Completed(st: State) | Failed(error: RuntimeError, st: State)

  function Abs(x: int): nat {
    if x < 0 then -x else x
  }

  /** Rust's `i32` division: the quotient is truncated toward zero (Dafny's
      own `/` is Euclidean). */
  function TruncDiv(a: int, b: int): (q: int)
    requires b != 0
    ensures Abs(q) == Abs(a) / Abs(b)
    ensures q == 0 || (q < 0 <==> (a < 0) != (b < 0))
    ensures a >= 0 && b > 0 ==> q == a / b
  {
    var m := Abs(a) / Abs(b);
    QuotientNonNegative(Abs(a), Abs(b));
    if (a < 0) == (b < 0) then m else -m
  }

  lemma QuotientNonNegative(x: nat, y: nat)
    requires y > 0
    ensures x / y >= 0
  {
  }

  /** `TruncDiv` is division with a remainder that is smaller than the divisor
      and never of the opposite sign to the dividend; those two facts fix the
      quotient, so this is the whole meaning of truncating division. */
  lemma TruncDivRemainder(a: int, b: int)
    requires b != 0
    ensures var r := a - TruncDiv(a, b) * b;
      Abs(r) < Abs(b) && (r == 0 || (r < 0 <==> a < 0))
  {
    var q := Abs(a) / Abs(b);
    NatDivMod(Abs(a), Abs(b));
    var t := TruncDiv(a, b);
    if (a < 0) == (b < 0) {
      assert t == q;
    } else {
      assert t == -q;
    }
    SignedProduct(q, b, (a < 0) == (b < 0));
  }

  /** Euclidean division on naturals: what is left after taking `x / y` times
      `y` is `x % y`, less than `y`. */
  lemma NatDivMod(x: nat, y: nat)
    requires y > 0
    ensures x - x / y * y == x % y && 0 <= x % y < y
  {
  }

  /** Multiplying `b` by `q`, or by `-q` when `same` is false, gives `q * Abs(b)` or its negation. */
  lemma SignedProduct(q: nat, b: int, same: bool)
    requires b != 0
    ensures (if same then q as int else -(q as int)) * b == (if same == (b < 0) then -(q * Abs(b)) else q * Abs(b))
  {
    if b < 0 {
      assert q * b == -(q * Abs(b));
    }
  }

  /** Truncation and Euclidean division part ways on negative operands. */
  lemma TruncDivExamples()
    ensures TruncDiv(7, 2) == 3 && TruncDiv(-7, 2) == -3
    ensures TruncDiv(7, -2) == -3 && TruncDiv(-7, -2) == 3
    ensures -7 / 2 == -4
  {
  }

  /** An exact result that an `i32` cannot hold is an error. */
  function Checked(v: int): (r: Result<Int32, RuntimeError>)
    ensures r.Ok? <==> MinI32 <= v <= MaxI32
    ensures r.Ok? ==> r.value == v
    ensures r.Err? ==> r.error == Overflow
  {
    if MinI32 <= v <= MaxI32 then Ok(v) else Err(Overflow)
  }

  /** The `match operation.t_type` of a BinaryOp. */
  function Apply(op: TokenType, x: Int32, y: Int32): (r: Result<Int32, RuntimeError>)
    ensures !IsOperatorKind(op) <==> r == Err(InvalidOperation(op))
    ensures op == Slash && y == 0 ==> r == Err(DivisionByZero)
    ensures r.Ok? && op == Plus ==> r.value == x + y
    ensures r.Ok? && op == Minus ==> r.value == x - y
    ensures r.Ok? && op == Star ==> r.value == x * y
    ensures r.Ok? && op == Slash ==> y != 0 && r.value == TruncDiv(x, y)
    ensures op == Plus ==> (r.Ok? <==> MinI32 <= x + y <= MaxI32)
    ensures op == Minus ==> (r.Ok? <==> MinI32 <= x - y <= MaxI32)
    ensures op == Star ==> (r.Ok? <==> MinI32 <= x * y <= MaxI32)
    ensures op == Slash && y != 0 ==> (r.Ok? <==> MinI32 <= TruncDiv(x, y) <= MaxI32)
    ensures IsOperatorKind(op) && r.Err? && !(op == Slash && y == 0) ==> r.error == Overflow
  {
    match op
    case Plus => Checked(x + y)
    case Minus => Checked(x - y)
    case Star => Checked(x * y)
    case Slash => if y == 0 then Err(DivisionByZero) else Checked(TruncDiv(x, y))
    case _ => Err(InvalidOperation(op))
  }

  /** `evaluate`: operands left to right, an assignment's value before the
      binding, a call's argument before the printing.  The printed values
      only grow, and so does the set of bound names. */
  function Eval(e: Expr, st: State): (r: Outcome)
    ensures st.out <= r.st.out
    ensures st.env.Keys <= r.st.env.Keys
    decreases e
  {
    match e
    case Number(n, _) => Done(n, st)
    case BinaryOp(lhs, op, rhs) =>
      (match Eval(lhs, st)
       case Abort(err, st1) => Abort(err, st1)
       case Done(x, st1) =>
         match Eval(rhs, st1)
         case Abort(err, st2) => Abort(err, st2)
         case Done(y, st2) =>
           match Apply(op.kind, x, y)
           case Ok(v) => Done(v, st2)
           case Err(err) => Abort(err, st2))
    case Assignment(target, value) =>
      (match Eval(value, st)
       case Abort(err, st1) => Abort(err, st1)
       case Done(v, st1) => Done(v, State(st1.env[target.name.lexeme := v], st1.out)))
    case Variable(v) =>
      if v.name.lexeme in st.env then Done(st.env[v.name.lexeme], st)
      else Abort(UndefinedVariable(v.name.lexeme), st)
    case FunCall(name, arg) =>
      if name.name.lexeme == "print" then
        match Eval(arg, st)
        case Abort(err, st1) => Abort(err, st1)
        case Done(v, st1) => Done(v, State(st1.env, st1.out + [v]))
      else
        Abort(UndefinedFunction(name.name.lexeme), st)
  }

  /** `interpret`: the statements in order, each seeing the state the previous
      one left; the first abort ends the run. */
  function Run(es: seq<Expr>, st: State): (r: Halt)
    ensures st.out <= r.st.out
    ensures st.env.Keys <= r.st.env.Keys
    decreases |es|
  {
    if es == [] then Completed(st)
    else
      match Eval(es[0], st)
      case Abort(err, st1) => Failed(err, st1)
      case Done(_, st1) => Run(es[1..], st1)
  }

  // ---------------------------------------------------------------------
  // Properties of the evaluator
  // ---------------------------------------------------------------------

  /** The names an expression assigns to. */
  function Assigned(e: Expr): set<string> {
    match e
    case Number(_, _) => {}
    case Variable(_) => {}
    case BinaryOp(lhs, _, rhs) => Assigned(lhs) + Assigned(rhs)
    case Assignment(target, value) => {target.name.lexeme} + Assigned(value)
    case FunCall(_, arg) => Assigned(arg)
  }

  /** An expression with neither an assignment nor a call. */
  predicate Pure(e: Expr) {
    match e
    case Number(_, _) => true
    case Variable(_) => true
    case BinaryOp(lhs, _, rhs) => Pure(lhs) && Pure(rhs)
    case Assignment(_, _) => false
    case FunCall(_, _) => false
  }

  /** A binding survives every expression that does not assign its name. */
  lemma {:induction false} EvalFrame(e: Expr, st: State, x: string)
    requires x in st.env && x !in Assigned(e)
    ensures x in Eval(e, st).st.env && Eval(e, st).st.env[x] == st.env[x]
  {
    match e
    case Number(_, _) =>
    case Variable(_) =>
    case BinaryOp(lhs, _, rhs) =>
      EvalFrame(lhs, st, x);
      if Eval(lhs, st).Done? {
        EvalFrame(rhs, Eval(lhs, st).st, x);
      }
    case Assignment(_, value) =>
      EvalFrame(value, st, x);
    case FunCall(name, arg) =>
      if name.name.lexeme == "print" {
        EvalFrame(arg, st, x);
      }
  }

  /** Without assignments or calls, evaluation changes neither the
      environment nor the output, whether it succeeds or aborts. */
  lemma {:induction false} PureEval(e: Expr, st: State)
    requires Pure(e)
    ensures Eval(e, st).st == st
  {
    match e
    case Number(_, _) =>
    case Variable(_) =>
    case BinaryOp(lhs, _, rhs) =>
      PureEval(lhs, st);
      PureEval(rhs, st);
  }

  /** An assignment binds its target to the value it returns, overwriting any
      earlier binding, and leaves every other binding as the right-hand side
      left it; a later read of the target sees the value. */
  lemma AssignThenRead(target: Token, value: Expr, st: State, other: string)
    requires Eval(Assignment(Var(target), value), st).Done?
    ensures var r := Eval(Assignment(Var(target), value), st);
      var st1 := Eval(value, st).st;
      && r.value == Eval(value, st).value
      && r.st.env[target.lexeme] == r.value
      && r.st.out == st1.out
      && (other != target.lexeme ==>
            (other in r.st.env <==> other in st1.env) &&
            (other in st1.env ==> r.st.env[other] == st1.env[other]))
      && Eval(Variable(Var(target)), r.st) == Done(r.value, r.st)
  {
  }

  /** A variable that was never bound aborts evaluation; there is no default. */
  lemma UnboundVariable(name: Token, st: State)
    requires name.lexeme !in st.env
    ensures Eval(Variable(Var(name)), st) == Abort(UndefinedVariable(name.lexeme), st)
  {
  }

  /** `print` evaluates its argument, then appends exactly that value to the
      output, then returns it. */
  lemma PrintAppends(name: Token, arg: Expr, st: State)
    requires name.lexeme == "print" && Eval(arg, st).Done?
    ensures var r := Eval(FunCall(Var(name), arg), st);
      r.Done? && r.value == Eval(arg, st).value &&
      r.st.out == Eval(arg, st).st.out + [r.value] && r.st.env == Eval(arg, st).st.env
  {
  }

  /** Calling any function but `print` aborts before the argument is
      evaluated: nothing the argument would assign or print happens. */
  lemma UndefinedCall(name: Token, arg: Expr, st: State)
    requires name.lexeme != "print"
    ensures Eval(FunCall(Var(name), arg), st) == Abort(UndefinedFunction(name.lexeme), st)
  {
  }

  /** A number is its stored value and changes nothing. */
  lemma NumberValue(n: Int32, token: Token, st: State)
    ensures Eval(Number(n, token), st) == Done(n, st)
  {
  }

  /** A binary operation evaluates its left operand completely, including
      its assignments and prints, before its right operand starts from the
      state the left one left; an abort on the left means the right operand
      is never evaluated.  The operator is applied to the two values last. */
  lemma EvalOrder(lhs: Expr, op: Token, rhs: Expr, st: State)
    ensures Eval(lhs, st).Abort? ==> Eval(BinaryOp(lhs, op, rhs), st) == Eval(lhs, st)
    ensures Eval(lhs, st).Done? ==>
      var left := Eval(lhs, st);
      var right := Eval(rhs, left.st);
      Eval(BinaryOp(lhs, op, rhs), st)
        == if right.Abort? then right else Seal(Apply(op.kind, left.value, right.value), right.st)
  {
  }

  /** No tree the parser builds reaches the invalid-operator abort. */
  lemma {:induction false} WellFormedOperators(e: Expr, st: State)
    requires WellFormed(e)
    ensures forall k :: Eval(e, st) != Abort(InvalidOperation(k), Eval(e, st).st)
  {
    match e
    case Number(_, _) =>
    case Variable(_) =>
    case BinaryOp(lhs, op, rhs) =>
      WellFormedOperators(lhs, st);
      if Eval(lhs, st).Done? {
        WellFormedOperators(rhs, Eval(lhs, st).st);
      }
    case Assignment(_, value) =>
      WellFormedOperators(value, st);
    case FunCall(name, arg) =>
      if name.name.lexeme == "print" {
        WellFormedOperators(arg, st);
      }
  }

  /** No program of parser-built trees stops at the invalid-operator abort. */
  lemma {:induction false} RunWellFormedOperators(es: seq<Expr>, st: State)
    requires forall e :: e in es ==> WellFormed(e)
    ensures forall k :: Run(es, st) != Failed(InvalidOperation(k), Run(es, st).st)
    decreases |es|
  {
    if es != [] {
      WellFormedOperators(es[0], st);
      if Eval(es[0], st).Done? {
        RunWellFormedOperators(es[1..], Eval(es[0], st).st);
      }
    }
  }

  /** Running `a + b` is running `a`, then `b` from where `a` left off. */
  lemma {:induction false} RunAppend(a: seq<Expr>, b: seq<Expr>, st: State)
    ensures Run(a + b, st) ==
      match Run(a, st)
      case Completed(st1) => Run(b, st1)
      case Failed(err, st1) => Failed(err, st1)
    decreases |a|
  {
    if a == [] {
      assert a + b == b;
    } else {
      assert (a + b)[1..] == a[1..] + b;
      if Eval(a[0], st).Done? {
        RunAppend(a[1..], b, Eval(a[0], st).st);
      }
    }
  }

  // ---------------------------------------------------------------------
  // Observable examples
  // ---------------------------------------------------------------------

  /** A one-digit literal, with the token the scanner makes for it. */
  function Num(n: int): Expr
    requires 0 <= n <= 9
  {
    Number(n, Token(NumberLiteral, [('0' as int + n) as char]))
  }

  function Print(arg: Expr): Expr {
    FunCall(Var(Token(Ident, "print")), arg)
  }

  /** `print(print(3))` writes 3 twice. */
  lemma PrintTwice(st: State)
    ensures Eval(Print(Print(Num(3))), st) == Done(3, State(st.env, st.out + [3, 3]))
  {
    var st1 := State(st.env, st.out + [3]);
    assert Eval(Print(Num(3)), st) == Done(3, st1);
    assert Eval(Print(Print(Num(3))), st) == Done(3, State(st.env, st.out + [3] + [3]));
    assert st.out + [3] + [3] == st.out + [3, 3];
  }

  /** Operands are evaluated left to right: in `(x = 1) + x` the right
      operand sees the assignment made by the left one. */
  lemma AssignmentSeenOnTheRight(st: State)
    ensures var x := Token(Ident, "x");
      Eval(BinaryOp(Assignment(Var(x), Num(1)), Token(Plus, "+"), Variable(Var(x))), st)
        == Done(2, State(st.env["x" := 1], st.out))
  {
    var x := Token(Ident, "x");
    var st1 := State(st.env["x" := 1], st.out);
    assert Eval(Assignment(Var(x), Num(1)), st) == Done(1, st1);
    assert Eval(Variable(Var(x)), st1) == Done(1, st1);
  }

  /** `print(1) - print(2)` writes 1 before 2. */
  lemma PrintsInOrder(st: State)
    ensures Eval(BinaryOp(Print(Num(1)), Token(Minus, "-"), Print(Num(2))), st)
        == Done(-1, State(st.env, st.out + [1, 2]))
  {
    var st1 := State(st.env, st.out + [1]);
    assert Eval(Print(Num(1)), st) == Done(1, st1);
    assert Eval(Print(Num(2)), st1) == Done(2, State(st.env, st.out + [1] + [2]));
    assert st.out + [1] + [2] == st.out + [1, 2];
  }

  /** Statements share one environment: `x = 5` then `print(x)` writes 5. */
  lemma SharedEnvironment(st: State)
    ensures var x := Token(Ident, "x");
      Run([Assignment(Var(x), Num(5)), Print(Variable(Var(x)))], st)
        == Completed(State(st.env["x" := 5], st.out + [5]))
  {
    var x := Token(Ident, "x");
    var es := [Assignment(Var(x), Num(5)), Print(Variable(Var(x)))];
    var st1 := State(st.env["x" := 5], st.out);
    var st2 := State(st.env["x" := 5], st.out + [5]);
    assert Eval(es[0], st) == Done(5, st1);
    assert Eval(Variable(Var(x)), st1) == Done(5, st1);
    assert Eval(es[1], st1) == Done(5, st2);
    assert es[1..][1..] == [];
    assert Run(es[1..], st1) == Run(es[1..][1..], st2);
  }

  // ---------------------------------------------------------------------
  // The evaluator with its environment and output updated in place
  // ---------------------------------------------------------------------

  function Seal(r: Result<Int32, RuntimeError>, st: State): Outcome {
    if r.Ok? then Done(r.value, st) else Abort(r.error, st)
  }

  function SealRun(r: Result<(), RuntimeError>, st: State): Halt {
    if r.Ok? then Completed(st) else Failed(r.error, st)
  }

  class Evaluator {
    /** The `&mut Env` threaded through every call. */
    var env: Env
    /** What `println!` has written, in order. */
    var out: seq<Int32>

    function Current(): State
      reads this
    {
      State(env, out)
    }

    constructor(env: Env)
      ensures this.env == env && out == []
    {
      this.env := env;
      out := [];
    }

    /** `evaluate` */
    method Evaluate(e: Expr) returns (r: Result<Int32, RuntimeError>)
      modifies this
      ensures Eval(e, old(Current())) == Seal(r, Current())
      decreases e
    {
      match e
      case Number(n, _) =>
        return Ok(n);
      case BinaryOp(lhs, operation, rhs) =>
        var lhsValue :- Evaluate(lhs);
        var rhsValue :- Evaluate(rhs);
        r := Apply(operation.kind, lhsValue, rhsValue);
      case Assignment(target, value) =>
        var v :- Evaluate(value);
        env := env[target.name.lexeme := v];
        return Ok(v);
      case Variable(v) =>
        if v.name.lexeme in env {
          return Ok(env[v.name.lexeme]);
        } else {
          return Err(UndefinedVariable(v.name.lexeme));
        }
      case FunCall(name, arg) =>
        if name.name.lexeme == "print" {
          var v :- Evaluate(arg);
          out := out + [v];
          return Ok(v);
        } else {
          return Err(UndefinedFunction(name.name.lexeme));
        }
    }

    /** `interpret` */
    method Interpret(exprs: seq<Expr>) returns (r: Result<(), RuntimeError>)
      modifies this
      ensures Run(exprs, old(Current())) == SealRun(r, Current())
    {
      for i := 0 to |exprs|
        invariant Run(exprs, old(Current())) == Run(exprs[i..], Current())
      {
        var v := Evaluate(exprs[i]);
        if v.Err? {
          return Err(v.error);
        }
      }
      return Ok(());
    }
  }
}
