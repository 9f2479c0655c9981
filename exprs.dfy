/** The syntax tree (src/parser/expr.rs).

    Each Rust struct becomes the fields of one constructor of `Expr`, except
    `Variable`, which also stands on its own because an assignment target and a
    call name are always a `Variable` and never an arbitrary expression.
    Children are owned values, so every tree is finite and nothing is shared. */
module Exprs {
  import opened Tokens

  const MinI32: int := -0x8000_0000
  const MaxI32: int := 0x7fff_ffff

  /** Rust's `i32`. */
  type Int32 = x: int | MinI32 <= x <= MaxI32

  datatype Variable = Var(name: Token)

  datatype Expr =
    | Assignment(target: Variable, value: Expr)
    | Variable(variable: Variable)
    | Number(n: Int32, token: Token)
    | BinaryOp(lhs: Expr, operation: Token, rhs: Expr)
    | FunCall(name: Variable, arg: Expr)

  predicate IsOperatorKind(k: TokenType) {
    k == Plus || k == Minus || k == Star || k == Slash
  }

  /** The shape of every tree the parser builds: each operator token is one
      of `+ - * /`, each variable, assignment target and call name is an
      identifier token, and each number keeps the NumberLiteral it came from. */
  predicate WellFormed(e: Expr) {
    match e
    case Assignment(target, value) => target.name.kind == Ident && WellFormed(value)
    case Variable(v) => v.name.kind == Ident
    case Number(_, token) => token.kind == NumberLiteral
    case BinaryOp(lhs, op, rhs) => IsOperatorKind(op.kind) && WellFormed(lhs) && WellFormed(rhs)
    case FunCall(name, arg) => name.name.kind == Ident && WellFormed(arg)
  }

  /** The tokens a tree holds, read left to right. */
  function Yield(e: Expr): seq<Token> {
    match e
    case Assignment(target, value) => [target.name] + Yield(value)
    case Variable(v) => [v.name]
    case Number(_, token) => [token]
    case BinaryOp(lhs, op, rhs) => Yield(lhs) + [op] + Yield(rhs)
    case FunCall(name, arg) => [name.name] + Yield(arg)
  }

  /** The tokens of a whole program, statement after statement. */
  function YieldAll(es: seq<Expr>): seq<Token> {
    if es == [] then [] else Yield(es[0]) + YieldAll(es[1..])
  }
}
