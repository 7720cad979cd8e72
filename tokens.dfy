/**
  The token vocabulary. The lexer's enum and the parser's uses belong to two
  variants of the language; TokenKind is their union, and the constructor names
  are the Java enum constants themselves.
*/
module Tokens {

  datatype TokenKind =
    // the kinds declared by the lexer's enum
    | INTEGER | INTEGER_CONST | PLUS | MINUS | MUL | DIV | LPAREN | RPAREN
    | ID | ASSIGN | SEMI | VAR | LOOP | DO | END | EOF
    // the kinds only the parser refers to
    | PROGRAM | BEGIN | FOR | TO | COMMA | COLON | DOT
    | REAL | REAL_CONST | FLOAT_DIV | INTEGER_DIV

  /** An immutable (kind, lexeme) pair. */
  datatype Token = Token(kind: TokenKind, lexeme: string)

  /** The token get_next_token hands out at end of input. */
  const EofToken: Token := Token(EOF, "")
}
