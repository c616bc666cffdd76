/**
 * Tokens of the bytecode front end (scanner/token.rs): a kind, the lexeme
 * (a slice of the source, or the message of an error token) and a line.
 */
module BcTokens {

  datatype Ty =
    // single character
    | LeftParen | RightParen | LeftBrace | RightBrace | Comma | Dot
    | Minus | Plus | Semicolon | Slash | Star
    // one or two characters
    | Bang | BangEqual | Equal | EqualEqual
    | Greater | GreaterEqual | Less | LessEqual
    // literals
    | Identifier | String | Number
    // keywords
    | And | Class | Else | False | Fun | For | If | Nil | Or
    | Print | Return | Super | This | True | Var | While
    | Error | Eof

  datatype Token = Token(ty: Ty, lexeme: seq<char>, line: nat)

  /** The sixteen reserved words. */
  const Keywords: map<seq<char>, Ty> := map[
    "and" := And, "class" := Class, "else" := Else, "false" := False,
    "for" := For, "fun" := Fun, "if" := If, "nil" := Nil, "or" := Or,
    "print" := Print, "return" := Return, "super" := Super, "this" := This,
    "true" := True, "var" := Var, "while" := While
  ]
}
