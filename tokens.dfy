/** The token model shared by the scanner and the parser (src/Lexer.hpp). */
module Tokens {
  import opened Wrappers

  /** Every kind the enum declares, in declaration order. The scanner never
      produces BREAK, CONTINUE, INT, BOOL, VOID, TRUE or FALSE. */
  datatype TokenKind =
    | DEF | IF | ELSE | WHILE | RETURN
    | BREAK | CONTINUE | INT | BOOL | VOID | TRUE | FALSE
    | OPEN_PAREN | CLOSE_PAREN | OPEN_CURLY | CLOSE_CURLY | OPEN_BRACKET | CLOSE_BRACKET
    | EQUAL | EQUAL_EQUAL | LESS_THAN | GREATER_THAN | LESS_THAN_EQUAL | GREATER_THAN_EQUAL
    | PLUS | MINUS | TIMES | DIVIDE | COMMA | SEMICOLON
    | NUMBER | IDENTIFIER

  /** A token always has a kind and a position (0 when the scanner gives
      none); the length and the text are optional and absent by default. */
  datatype Token = Token(kind: TokenKind, position: nat, length: Option<nat>, value: Option<string>)

  /** The two kinds whose tokens carry their source text. */
  predicate CarriesText(k: TokenKind) {
    k == IDENTIFIER || k == NUMBER
  }

  /** The kinds declared in the enum for later versions of the language. */
  predicate Unused(k: TokenKind) {
    k in {BREAK, CONTINUE, INT, BOOL, VOID, TRUE, FALSE}
  }

  /** Every identifier and number token has its text: the parser
      dereferences the optional text of exactly these tokens. */
  predicate Payloads(ts: seq<Token>) {
    forall i :: 0 <= i < |ts| && CarriesText(ts[i].kind) ==> ts[i].value.Some?
  }
}
