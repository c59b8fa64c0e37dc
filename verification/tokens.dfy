/** Lexical tokens and the diagnostics every front-end stage reports. */
module Tokens {

  /** The token kinds of the language, named as the interpreter names them. */
  datatype TokenType =
    // Single-character tokens.
    | LEFT_PAREN | RIGHT_PAREN | LEFT_BRACE | RIGHT_BRACE
    | COMMA | DOT | MINUS | PLUS | SEMICOLON | SLASH | STAR
    // One- or two-character tokens.
    | BANG | BANG_EQUAL | EQUAL | EQUAL_EQUAL
    | GREATER | GREATER_EQUAL | LESS | LESS_EQUAL
    // Literals.
    | IDENTIFIER | STRING | NUMBER
    // Keywords.
    | AND | CLASS | ELSE | FALSE | FUN | FOR | IF | NIL | OR
    | PRINT | RETURN | SUPER | THIS | TRUE | VAR | WHILE
    | EOF

  /** An exact decimal number: `digits` scaled down by `10^scale`. */
  datatype Decimal = Decimal(digits: nat, scale: nat)

  /** The literal payload a token carries. A number is kept as the exact
      decimal it spells; its rounding to a double is not modelled. */
  datatype Literal = NoLiteral | NumberLiteral(number: Decimal) | StringLiteral(text: string)

  /** An immutable token: kind, source text, literal value and line. */
  datatype Token = Token(kind: TokenType, lexeme: string, literal: Literal, line: nat)

  /** A reported diagnostic. Scan errors carry only a line; parse and
      resolution errors carry the offending token. Rendering them as console
      text is left to the caller. */
  datatype Diag =
    | LineError(line: nat, message: string)
    | TokenError(token: Token, message: string)
}
