/** The token vocabulary shared by the tokenizer and the parser.

    `src/types.hpp` declares only eight tags, but the tokenizer emits many
    more; this enumeration is the union of every tag the tokenizer emits,
    so that the scanner and the parser agree on one type. */
module Tokens {
  import opened Wrappers

  datatype TokenType =
    // declared in src/types.hpp
    | Bye | IntLit | Semi | OpenParen | CloseParen | Ident | Hope | Eq
    // further keywords recognised by the tokenizer
    | TellMe | Dillusion | Maybe | OrMaybe | MoveOn | Wait
    // further operators and punctuation
    | EqEq | Neq | Lt | Lte | Gt | Gte | Plus | Mul | Sub | Div
    | OpenCurly | CloseCurly | DoubleQuotes
    // the content of a quoted string
    | StringLit

  /** A token: a tag and an optional text payload (present for identifiers,
      integer literals and string contents). */
  datatype Token = Token(kind: TokenType, value: Option<string>)

  /** Tags whose tokens carry text. */
  predicate HasPayload(k: TokenType) {
    k == Ident || k == IntLit || k == StringLit
  }

  /** Tags the scanner produces from a keyword of the fixed table. */
  predicate IsKeyword(k: TokenType) {
    k in {Bye, Hope, TellMe, Dillusion, Maybe, OrMaybe, MoveOn, Wait}
  }
}
