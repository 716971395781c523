/** The token vocabulary shared by the scanner and the parser (includes/token.h). */
module Tokens {

  /** The closed set of token kinds, in the order of the source enumeration. */
  datatype TokenKind =
    | Begin | End
    | Int | Float
    | If | Then | EndIf | Else | EndElse | While | Do | EndWhile
    | Print | Scan
    | Function | Procedure | Return
    | LParen | RParen | Comma | Semicolon
    | Plus | Minus | Asterisk | Slash
    | Assign | Eq | Lt | Lte | Gt | Gte | Neq
    | Identifier
    | IntegerLiteral | FloatLiteral
    | Eof
    | Unknown

  /** A token: its kind, the exact source text it was scanned from, and its 1-based line. */
  datatype Token = Token(kind: TokenKind, lexeme: string, line: int)

  /** A token stream as the scanner delivers it: non-empty, ending in the end
      marker, with no end marker anywhere before the last position. */
  ghost predicate WellTerminated(toks: seq<Token>) {
    && |toks| > 0
    && toks[|toks| - 1].kind == Eof
    && forall i :: 0 <= i < |toks| - 1 ==> toks[i].kind != Eof
  }
}
