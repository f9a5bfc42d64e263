/** The token record of app/Token.py. */
module Tokens {

  import opened Wrappers

  /** The `token_type` a token is built with. Identifiers, numbers and strings
      carry the enum member itself; punctuators and the end marker carry the
      member's `.name`. */
  datatype Kind = Identifier | Number | String | Named(name: string)

  /** A token: its kind, its lexeme and its literal, either of which may be
      `None` in the source. */
  datatype Token = Token(kind: Kind, lexeme: Option<string>, literal: Option<string>)

  /** The literal the source writes for tokens without a value: the string "null". */
  const Null: string := "null"

  /** The token emitted once the input is exhausted. */
  const Eof: Token := Token(Named("EOF"), Some(""), Some(Null))
}
