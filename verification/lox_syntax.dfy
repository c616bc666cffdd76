/**
 * The data of the tree-walk interpreter: token kinds (token_type.rs),
 * tokens (token.rs), literals (literal.rs), runtime objects (object.rs)
 * and the syntax tree (expr.rs, stmt.rs). The expression and statement
 * types are the union of the variants the tree-walk files use; each
 * operation states which of them it accepts.
 */
module LoxSyntax {
  import opened Wrappers
  import opened Float

  datatype TokenTy =
    // single character
    | LeftParen | RightParen | LeftBrace | RightBrace | Comma | Dot
    | Minus | Plus | Semicolon | Slash | Star
    // one or two characters
    | Bang | BangEqual | Equal | EqualEqual
    | Greater | GreaterEqual | Less | LessEqual
    // literals
    | Identifier | String | Number
    // keywords
    | And | Class | Else | False | Fun | For | If | Nil | Or
    | Print | Return | Super | This | True | Var | While
    | Eof

  datatype Literal = Number(n: F64) | Str(s: seq<char>) | Boolean(b: bool) | Nil

  datatype Token = Token(ty: TokenTy, lexeme: seq<char>, literal: Option<Literal>, line: nat)

  /** The runtime value of the tree-walk interpreter: a literal. */
  datatype Object = Lit(lit: Literal)

  datatype Expr =
    | Binary(left: Expr, operator: Token, right: Expr)
    | Call(callee: Expr, paren: Token, arguments: seq<Expr>)
    | Grouping(inner: Expr)
    | Literal(lit: Literal)
    | Logical(left: Expr, operator: Token, right: Expr)
    | Unary(operator: Token, right: Expr)
    | Variable(name: Token)
    | Assign(name: Token, value: Expr)

  datatype StmtFunction = StmtFunction(name: Token, params: seq<Token>, body: seq<Stmt>)

  datatype Stmt =
    | Expression(expr: Expr)
    | Print(expr: Expr)
    | Var(name: Token, initializer: Option<Expr>)
    | If(condition: Expr, thenBranch: Stmt, elseBranch: Option<Stmt>)
    | While(condition: Expr, body: Stmt)
    | Function(decl: StmtFunction)
    | Return(keyword: Token, value: Expr)
    | Block(statements: seq<Stmt>)

  /** The sixteen reserved words of the tree-walk scanner. */
  const Keywords: map<seq<char>, TokenTy> := map[
    "and" := And, "class" := Class, "else" := Else, "false" := False,
    "for" := For, "fun" := Fun, "if" := TokenTy.If, "nil" := TokenTy.Nil, "or" := Or,
    "print" := TokenTy.Print, "return" := TokenTy.Return, "super" := Super, "this" := This,
    "true" := True, "var" := TokenTy.Var, "while" := TokenTy.While
  ]

  /** `Display for Literal`: numbers through f64's Display, strings verbatim. */
  function LiteralText(ops: FloatOps, lit: Literal): seq<char>
  {
    match lit
    case Number(n) => ops.display(n)
    case Str(s) => s
    case Boolean(b) => if b then "true" else "false"
    case Nil => "nil"
  }
}
