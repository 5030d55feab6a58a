/** Tokens, their kinds and their source locations. */
module Tokens {
  import opened Values

  /**
   * Token kinds: the enumeration of the token-type file together with the
   * kinds the scanner refers to that the enumeration lacks (LeftSquare,
   * RightSquare, BangEqual, Star, Semicolon, Func, Base, This).
   */
  datatype TokenKind =
    | Bang | UnderScore | Dollar | Caret | Ampersand
    | Equal | EqualEqual | LeftParen | RightParen
    | LeftBrace | RightBrace | Comma | Dot
    | Plus | Minus | Slash | Percent
    | Greater | Less | GreaterEqual | LessEqual | LogicalOr | LogicalAnd
    | Identifier | Number | String
    | Class | Var | Print | Else | If | Return | While | For
    | True | False | NilKeyword
    | Eof
    | LeftSquare | RightSquare | BangEqual | Star | Semicolon | Func | Base | This

  /**
   * A token location. The constructor's parameters are (line, column), in
   * that order.
   */
  datatype Location = Location(line: int, column: int)

  /** A token; `literal` is the boxed literal object, `Nil` when absent. */
  datatype Token = Token(kind: TokenKind, lexeme: string, literal: Value, location: Location)
}
