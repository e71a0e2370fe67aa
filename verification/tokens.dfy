/** Tokens produced by the scanner (src/com/sabino/lox/types/Token.kt). */
module Tokens {

  /** Every token kind the scanner can emit. */
  datatype TokenType =
    // Single-character tokens.
    | LEFT_PAREN | RIGHT_PAREN | LEFT_BRACE | RIGHT_BRACE
    | COMMA | DOT | MINUS | PLUS | SEMICOLON | SLASH | STAR
    // One or two character tokens.
    | BANG | BANG_EQUAL | EQUAL | EQUAL_EQUAL
    | GREATER | GREATER_EQUAL | LESS | LESS_EQUAL
    // Literals.
    | IDENTIFIER | STRING | NUMBER
    // Keywords.
    | AND | CLASS | ELSE | FALSE | FUN | FOR | IF | NIL | OR
    | PRINT | RETURN | SUPER | THIS | TRUE | VAR | WHILE
    | EOF

  /** A literal value as it appears in source text: `nil`, a boolean, a number or a
      string. `NilLit` also stands for the absent literal of a token that has none
      (`Optional.empty()` in the source). Numbers are exact reals. */
  datatype LiteralValue = NilLit | BoolLit(b: bool) | NumLit(n: real) | StrLit(s: string)

  datatype Token = Token(kind: TokenType, lexeme: string, literal: LiteralValue, line: nat)
}
