/** Token kinds and tokens (src/tokenizer/token.rs).
    `TokenType` is a closed set of ten kinds; like the Rust enum (which derives
    `PartialEq`, `Clone` and `Copy`) it is a plain value compared structurally. */
module Tokens {

  datatype TokenType =
    | NumberLiteral
    | Ident
    | Equal
    | Plus
    | Minus
    | Star
    | Slash
    | LeftParen
    | RightParen
    | Newline

  /** A token is exactly a kind paired with the source text it was read from. */
  datatype Token = Token(kind: TokenType, lexeme: string)
}
