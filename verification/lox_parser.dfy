/**
 * The tree-walk parser (rlox/src/parser.rs): recursive descent over the
 * token vector, one method per grammar level, each binary level a loop
 * that folds operands into a left-nested tree. Errors of a declaration
 * come back as `Err`; `parse` records them, resynchronises and goes on.
 *
 * The shape every parsed expression has is stated by `Shaped`: levels
 * bind tighter from assignment down to primary, binary operators nest to
 * the left, unary operators to the right.
 */
module LoxParser {
  import opened Wrappers
  import opened LoxSyntax

  /** `ParseError::Custom`: the token at fault and a message. */
  datatype ParseError = Custom(token: Token, message: seq<char>)

  /** The messages `parse` reports, word for word. */
  const InvalidAssignmentTarget: seq<char> := "Invalid assignment target."
  const ExpectExpression: seq<char> := "Expect expression."
  const ExpectRightParen: seq<char> := "Expect ')' after expression."
  const ExpectVariableName: seq<char> := "Expect variable name."
  const ExpectVarSemicolon: seq<char> := "Expect ';' after variable declaration."
  const ExpectRightBrace: seq<char> := "Expect '}' after block."
  const ExpectPrintSemicolon: seq<char> := "Expect ';' after value."
  const ExpectExpressionSemicolon: seq<char> := "Expect ';' after expression"

  // ----- The shape of parsed expressions ------------------------------

  const AssignmentLevel: nat := 0
  const EqualityLevel: nat := 1
  const ComparisonLevel: nat := 2
  const TermLevel: nat := 3
  const FactorLevel: nat := 4
  const UnaryLevel: nat := 5
  const PrimaryLevel: nat := 6

  /** The grammar level of a binary operator, `None` for tokens that are not one. */
  function BinaryLevel(ty: TokenTy): Option<nat> {
    match ty
    case BangEqual | EqualEqual => Some(EqualityLevel)
    case Greater | GreaterEqual | Less | LessEqual => Some(ComparisonLevel)
    case Minus | Plus => Some(TermLevel)
    case Slash | Star => Some(FactorLevel)
    case _ => None
  }

  /** The grammar level an expression's outermost node belongs to. */
  function Level(e: Expr): nat {
    match e
    case Assign(_, _) => AssignmentLevel
    case Binary(_, op, _) => if BinaryLevel(op.ty).Some? then BinaryLevel(op.ty).value else AssignmentLevel
    case Unary(_, _) => UnaryLevel
    case _ => PrimaryLevel
  }

  /**
   * The trees the parser builds: a binary node's left operand is at its
   * own level or tighter and its right operand strictly tighter (left
   * associativity); a unary operand is unary or primary; only a variable
   * name is assigned to; calls and logical operators are never built.
   */
  predicate Shaped(e: Expr) {
    match e
    case Binary(l, op, r) =>
      BinaryLevel(op.ty).Some? && Level(l) >= Level(e) && Level(r) > Level(e) && Shaped(l) && Shaped(r)
    case Unary(op, r) => op.ty in {Bang, Minus} && Level(r) >= UnaryLevel && Shaped(r)
    case Grouping(inner) => Shaped(inner)
    case Literal(_) => true
    case Variable(name) => name.ty == Identifier
    case Assign(name, value) => name.ty == Identifier && Shaped(value)
    case Call(_, _, _) => false
    case Logical(_, _, _) => false
  }

  /** The statements the parser builds: expression, print, var and block statements of shaped expressions. */
  predicate StmtShaped(s: Stmt) {
    match s
    case Expression(e) => Shaped(e)
    case Print(e) => Shaped(e)
    case Var(name, init) => name.ty == Identifier && (init.Some? ==> Shaped(init.value))
    case Block(ss) => forall i :: 0 <= i < |ss| ==> StmtShaped(ss[i])
    case _ => false
  }

  /**
   * Left associativity: in a shaped `l op r`, the right operand is never
   * an operator of the same level, so `a - b - c` can only be
   * `(a - b) - c`; and every operator below a binary node on its right
   * binds tighter.
   */
  lemma LeftAssociative(e: Expr)
    requires Shaped(e) && e.Binary?
    ensures !(e.right.Binary? && BinaryLevel(e.right.operator.ty) == BinaryLevel(e.operator.ty))
    ensures e.right.Binary? ==> BinaryLevel(e.right.operator.ty).value > BinaryLevel(e.operator.ty).value
    ensures e.left.Binary? ==> BinaryLevel(e.left.operator.ty).value >= BinaryLevel(e.operator.ty).value
    ensures !e.left.Assign? && !e.right.Assign?
  {
  }

  /** One binary node over shaped operands at the right levels is shaped, at its operator's level. */
  lemma ShapedBinary(l: Expr, op: Token, r: Expr, level: nat)
    requires BinaryLevel(op.ty) == Some(level) && Shaped(l) && Shaped(r)
    requires Level(l) >= level && Level(r) > level
    ensures Shaped(Binary(l, op, r)) && Level(Binary(l, op, r)) == level
  {
  }

  /** The level of the operators each binary loop matches. */
  lemma OperatorLevel(ty: TokenTy)
    ensures ty in {BangEqual, EqualEqual} ==> BinaryLevel(ty) == Some(EqualityLevel)
    ensures ty in {Greater, GreaterEqual, Less, LessEqual} ==> BinaryLevel(ty) == Some(ComparisonLevel)
    ensures ty in {Minus, Plus} ==> BinaryLevel(ty) == Some(TermLevel)
    ensures ty in {Slash, Star} ==> BinaryLevel(ty) == Some(FactorLevel)
  {
  }

  /** Without the grouping, `x - (y - z)` is not a tree the parser builds. */
  lemma RightNestedMinusRejected(x: Expr, y: Expr, z: Expr, minus: Token)
    requires minus.ty == Minus
    ensures !Shaped(Binary(x, minus, Binary(y, minus, z)))
  {
    assert BinaryLevel(minus.ty) == Some(TermLevel);
  }

  /**
   * Precedence: a shaped product never has an unparenthesised sum as an
   * operand, and a shaped sum or comparison never appears as an operand
   * of a unary operator.
   */
  lemma TighterBindsDeeper(e: Expr)
    requires Shaped(e)
    ensures e.Binary? && BinaryLevel(e.operator.ty) == Some(FactorLevel) ==>
      !(e.left.Binary? && e.left.operator.ty in {Minus, Plus}) &&
      !(e.right.Binary? && e.right.operator.ty in {Minus, Plus})
    ensures e.Unary? ==> !e.right.Binary? && !e.right.Assign?
  {
  }

  /** The tokens `synchonize` stops in front of. */
  predicate StartsStatement(ty: TokenTy) {
    ty in {Class, Fun, TokenTy.Var, For, TokenTy.If, TokenTy.While, TokenTy.Print, TokenTy.Return}
  }

  /** Where `synchonize` may stop: at `Eof`, after `;`, or before a statement keyword. */
  predicate StopsAt(tokens: seq<Token>, p: nat)
    requires 1 <= p < |tokens|
  {
    tokens[p].ty == Eof || tokens[p - 1].ty == Semicolon || StartsStatement(tokens[p].ty)
  }

  // ----- What a tree was parsed from ----------------------------------

  /**
   * A token as a syntax tree remembers it: a literal by its value, the
   * tokens a tree keeps (names and operators) as themselves, and the
   * punctuation it drops (parentheses, `=`, `;`, braces, keywords) by kind.
   */
  datatype Sym = SLit(lit: Literal) | SKept(token: Token) | SPunct(ty: TokenTy)

  function SymOf(t: Token): Sym {
    match t.ty
    case False => SLit(Boolean(false))
    case True => SLit(Boolean(true))
    case Nil => SLit(Literal.Nil)
    case Number | String => if t.literal.Some? then SLit(t.literal.value) else SPunct(t.ty)
    case Identifier | Bang | Minus | Plus | Slash | Star | BangEqual | EqualEqual
      | Greater | GreaterEqual | Less | LessEqual => SKept(t)
    case _ => SPunct(t.ty)
  }

  function Syms(ts: seq<Token>): seq<Sym> {
    seq(|ts|, i requires 0 <= i < |ts| => SymOf(ts[i]))
  }

  /** The tokens an expression tree was parsed from, as far as the tree records them. */
  function Yield(e: Expr): seq<Sym> {
    match e
    case Binary(l, op, r) => Yield(l) + [SKept(op)] + Yield(r)
    case Unary(op, r) => [SKept(op)] + Yield(r)
    case Grouping(inner) => [SPunct(LeftParen)] + Yield(inner) + [SPunct(RightParen)]
    case Literal(lit) => [SLit(lit)]
    case Variable(name) => [SKept(name)]
    case Assign(name, value) => [SKept(name), SPunct(Equal)] + Yield(value)
    // never built by this parser
    case Call(_, _, _) => []
    case Logical(_, _, _) => []
  }

  /** The tokens a statement was parsed from. */
  function StmtYield(s: Stmt): seq<Sym>
    decreases s
  {
    match s
    case Expression(e) => Yield(e) + [SPunct(Semicolon)]
    case Print(e) => [SPunct(TokenTy.Print)] + Yield(e) + [SPunct(Semicolon)]
    case Var(name, init) =>
      [SPunct(TokenTy.Var), SKept(name)] + InitYield(init) + [SPunct(Semicolon)]
    case Block(ss) => [SPunct(LeftBrace)] + StmtsYield(ss) + [SPunct(RightBrace)]
    // never built by this parser
    case _ => []
  }

  /** The tokens of a `var` statement's optional `= initializer`. */
  function InitYield(init: Option<Expr>): seq<Sym> {
    if init.Some? then [SPunct(Equal)] + Yield(init.value) else []
  }

  function StmtsYield(ss: seq<Stmt>): seq<Sym>
    decreases ss
  {
    if ss == [] then [] else StmtYield(ss[0]) + StmtsYield(ss[1..])
  }

  /** Punctuation and keywords are remembered by kind. */
  lemma PunctSym(t: Token)
    requires t.ty in {Semicolon, Equal, LeftParen, RightParen, TokenTy.Print, TokenTy.Var, LeftBrace, RightBrace}
    ensures SymOf(t) == SPunct(t.ty)
  {
  }

  /** A nonempty range starts with its first token's symbol. */
  lemma SymsCons(ts: seq<Token>, a: nat, c: nat)
    requires a < c <= |ts|
    ensures Syms(ts[a..c]) == [SymOf(ts[a])] + Syms(ts[a + 1..c])
  {
    assert ts[a..c] == [ts[a]] + ts[a + 1..c];
  }

  /** A range one longer ends with its last token's symbol. */
  lemma SymsSnoc(ts: seq<Token>, a: nat, c: nat)
    requires a <= c < |ts|
    ensures Syms(ts[a..c + 1]) == Syms(ts[a..c]) + [SymOf(ts[c])]
  {
    assert ts[a..c + 1] == ts[a..c] + [ts[c]];
  }

  lemma SymsSplit(ts: seq<Token>, a: nat, m: nat, c: nat)
    requires a <= m < c <= |ts|
    ensures Syms(ts[a..c]) == Syms(ts[a..m]) + [SymOf(ts[m])] + Syms(ts[m + 1..c])
  {
    assert ts[a..c] == ts[a..m] + [ts[m]] + ts[m + 1..c];
  }

  lemma SymsJoin(ts: seq<Token>, a: nat, m: nat, c: nat)
    requires a <= m <= c <= |ts|
    ensures Syms(ts[a..c]) == Syms(ts[a..m]) + Syms(ts[m..c])
  {
    assert ts[a..c] == ts[a..m] + ts[m..c];
  }

  /** A statement that starts with a keyword or brace is tied to its tokens with that first one. */
  lemma PunctStep(ts: seq<Token>, a: nat, c: nat)
    requires a < c <= |ts| && ts[a].ty in {TokenTy.Print, TokenTy.Var, LeftBrace}
    ensures Syms(ts[a..c]) == [SPunct(ts[a].ty)] + Syms(ts[a + 1..c])
  {
    PunctSym(ts[a]);
    SymsCons(ts, a, c);
  }

  /** A `var` statement is tied to its name, its initializer's tokens and the `;`. */
  lemma VarStep(ts: seq<Token>, a: nat, end: nat, name: Token, init: Option<Expr>)
    requires a < end < |ts| && ts[a] == name && name.ty == Identifier && ts[end].ty == Semicolon
    requires InitYield(init) == Syms(ts[a + 1..end])
    ensures StmtYield(Stmt.Var(name, init)) == [SPunct(TokenTy.Var)] + Syms(ts[a..end + 1])
  {
    SymsCons(ts, a, end);
    SymsSnoc(ts, a, end);
    PunctSym(ts[end]);
    Regroup(SPunct(TokenTy.Var), SKept(name), InitYield(init), SPunct(Semicolon));
  }

  /** The tokens of an optional `= initializer`. */
  lemma InitStep(ts: seq<Token>, a: nat, c: nat, init: Option<Expr>)
    requires a <= c <= |ts|
    requires init.None? ==> c == a
    requires init.Some? ==> a < c && ts[a].ty == Equal && Yield(init.value) == Syms(ts[a + 1..c])
    ensures InitYield(init) == Syms(ts[a..c])
  {
    if init.Some? {
      PunctSym(ts[a]);
      SymsCons(ts, a, c);
    }
  }

  lemma Regroup(p: Sym, q: Sym, mid: seq<Sym>, z: Sym)
    ensures [p, q] + mid + [z] == [p] + (([q] + mid) + [z])
  {
  }

  /** One step of a binary loop keeps the tree tied to the tokens it stepped over. */
  lemma BinaryStep(ts: seq<Token>, a: nat, m: nat, c: nat, l: Expr, op: Token, r: Expr)
    requires a <= m < c <= |ts| && ts[m] == op && BinaryLevel(op.ty).Some?
    requires Yield(l) == Syms(ts[a..m]) && Yield(r) == Syms(ts[m + 1..c])
    ensures Yield(Binary(l, op, r)) == Syms(ts[a..c])
  {
    SymsSplit(ts, a, m, c);
  }

  /** A literal or a variable is tied to its one token. */
  lemma LiteralStep(ts: seq<Token>, a: nat)
    requires a < |ts| && ts[a].ty in {False, True, TokenTy.Nil, TokenTy.Number, TokenTy.String, Identifier}
    requires ts[a].ty in {TokenTy.Number, TokenTy.String} ==> ts[a].literal.Some?
    ensures Yield(LiteralOrVariable(ts[a])) == Syms(ts[a..a + 1])
  {
    assert ts[a..a + 1] == [ts[a]];
  }

  /** A parenthesised expression is tied to its tokens with the parentheses. */
  lemma GroupingStep(ts: seq<Token>, a: nat, m: nat, e: Expr)
    requires a < m < |ts| && ts[a].ty == LeftParen && ts[m].ty == RightParen
    requires Yield(e) == Syms(ts[a + 1..m])
    ensures Yield(Grouping(e)) == Syms(ts[a..m + 1])
  {
    PunctSym(ts[a]);
    PunctSym(ts[m]);
    SymsCons(ts, a, m);
    SymsSnoc(ts, a, m);
  }

  /** An assignment is tied to its target's name, the `=` and its value's tokens. */
  lemma AssignStep(ts: seq<Token>, a: nat, m: nat, c: nat, name: Token, value: Expr)
    requires a <= m < c <= |ts| && ts[m].ty == Equal
    requires [SKept(name)] == Syms(ts[a..m]) && Yield(value) == Syms(ts[m + 1..c])
    ensures Yield(Assign(name, value)) == Syms(ts[a..c])
  {
    SymsSplit(ts, a, m, c);
    PunctSym(ts[m]);
  }

  /** A prefix operator is tied to itself and its operand's tokens. */
  lemma UnaryStep(ts: seq<Token>, a: nat, c: nat, r: Expr)
    requires a < c <= |ts| && ts[a].ty in {Bang, Minus}
    requires Yield(r) == Syms(ts[a + 1..c])
    ensures Yield(Expr.Unary(ts[a], r)) == Syms(ts[a..c])
  {
    SymsCons(ts, a, c);
  }

  /** A statement ending in `;` is tied to its expression's tokens and the `;`. */
  lemma SemicolonStep(ts: seq<Token>, a: nat, end: nat, e: Expr)
    requires a <= end < |ts| && ts[end].ty == Semicolon
    requires Yield(e) == Syms(ts[a..end])
    ensures StmtYield(Stmt.Expression(e)) == Syms(ts[a..end + 1])
    ensures StmtYield(Stmt.Print(e)) == [SPunct(TokenTy.Print)] + Syms(ts[a..end + 1])
  {
    SymsSnoc(ts, a, end);
    PunctSym(ts[end]);
  }

  /** A block's statements and its `}`. */
  lemma CloseBraceStep(ts: seq<Token>, a: nat, end: nat, ss: seq<Stmt>)
    requires a <= end < |ts| && ts[end].ty == RightBrace
    requires StmtsYield(ss) == Syms(ts[a..end])
    ensures StmtsYield(ss) + [SPunct(RightBrace)] == Syms(ts[a..end + 1])
  {
    SymsSnoc(ts, a, end);
    PunctSym(ts[end]);
  }

  /** A block statement is tied to its `{`, its statements and its `}`. */
  lemma BlockStep(ts: seq<Token>, a: nat, c: nat, ss: seq<Stmt>)
    requires a < c <= |ts| && ts[a].ty == LeftBrace
    requires StmtsYield(ss) + [SPunct(RightBrace)] == Syms(ts[a + 1..c])
    ensures StmtYield(Stmt.Block(ss)) == Syms(ts[a..c])
  {
    PunctSym(ts[a]);
    SymsCons(ts, a, c);
    var x, y, z := [SPunct(LeftBrace)], StmtsYield(ss), [SPunct(RightBrace)];
    assert x + y + z == x + (y + z);
  }

  /** One more declaration of a block or program. */
  lemma DeclarationStep(ts: seq<Token>, a: nat, m: nat, c: nat, ss: seq<Stmt>, s: Stmt)
    requires a <= m <= c <= |ts|
    requires StmtsYield(ss) == Syms(ts[a..m]) && StmtYield(s) == Syms(ts[m..c])
    ensures StmtsYield(ss + [s]) == Syms(ts[a..c])
  {
    StmtsYieldAppend(ss, s);
    SymsJoin(ts, a, m, c);
  }

  lemma {:induction false} StmtsYieldAppend(ss: seq<Stmt>, s: Stmt)
    ensures StmtsYield(ss + [s]) == StmtsYield(ss) + StmtYield(s)
    decreases ss
  {
    if ss == [] {
      assert [s][1..] == [];
    } else {
      assert (ss + [s])[1..] == ss[1..] + [s];
      StmtsYieldAppend(ss[1..], s);
    }
  }

  /**
   * Every shaped tree comes from at least one token, never from a `;`,
   * and from exactly one only when it is a literal or a variable.
   */
  lemma {:induction false} ShapedYield(e: Expr)
    requires Shaped(e)
    ensures |Yield(e)| >= 1 && SPunct(Semicolon) !in Yield(e)
    ensures |Yield(e)| == 1 ==> e.Literal? || e.Variable?
    ensures |Yield(e)| == 1 ==> Yield(e)[0].SLit? || (Yield(e)[0].SKept? && Yield(e)[0].token.ty == Identifier)
  {
    match e
    case Binary(l, _, r) => ShapedYield(l); ShapedYield(r);
    case Unary(_, r) => ShapedYield(r);
    case Grouping(inner) => ShapedYield(inner);
    case Assign(_, value) => ShapedYield(value);
    case Literal(_) =>
    case Variable(_) =>
  }

  /** The first symbols of the nodes that start with an operator or punctuation. */
  lemma Leading(e: Expr)
    ensures e.Unary? ==> Yield(e)[0] == SKept(e.operator) && Yield(e.right) == Yield(e)[1..]
    ensures e.Grouping? ==> Yield(e)[0] == SPunct(LeftParen)
    ensures e.Assign? ==> |Yield(e)| >= 2 && Yield(e)[1] == SPunct(Equal)
  {
  }

  /** Where the operands of a binary node sit among its symbols. */
  lemma BinaryParts(l: Expr, op: Token, r: Expr)
    ensures var ys := Yield(Binary(l, op, r));
      Yield(l) == ys[..|Yield(l)|] && ys[|Yield(l)|] == SKept(op) && Yield(r) == ys[|Yield(l)| + 1..]
  {
  }

  /** A shaped tree from one identifier is that variable. */
  lemma NameYield(e: Expr, x: Token)
    requires Shaped(e) && x.ty == Identifier && Yield(e) == [SKept(x)]
    ensures e == Variable(x)
  {
    ShapedYield(e);
  }

  /** A shaped tree from `x op y`, for identifiers and a binary operator, is that one node. */
  lemma BinaryYield(e: Expr, x: Token, op: Token, y: Token)
    requires Shaped(e) && x.ty == Identifier && y.ty == Identifier && BinaryLevel(op.ty).Some?
    requires Yield(e) == [SKept(x), SKept(op), SKept(y)]
    ensures e == Binary(Variable(x), op, Variable(y))
  {
    ShapedYield(e);
    Leading(e);
    match e
    case Binary(l, o, r) =>
      ShapedYield(l); ShapedYield(r);
      BinaryParts(l, o, r);
      NameYield(l, x);
      NameYield(r, y);
    case Unary(_, _) =>
    case Assign(_, _) =>
    case Grouping(_) =>
  }

  /** A shaped tree from `- x`, for an identifier, is that one node. */
  lemma NegationYield(e: Expr, minus: Token, x: Token)
    requires Shaped(e) && minus.ty == Minus && x.ty == Identifier
    requires Yield(e) == [SKept(minus), SKept(x)]
    ensures e == Unary(minus, Variable(x))
  {
    ShapedYield(e);
    Leading(e);
    match e
    case Binary(l, _, r) =>
      ShapedYield(l); ShapedYield(r);
    case Unary(_, r) =>
      NameYield(r, x);
    case Assign(_, value) =>
      ShapedYield(value);
    case Grouping(inner) =>
      ShapedYield(inner);
  }

  /**
   * Left associativity, from the tokens: the only shaped tree that
   * `x - y - z` yields is `(x - y) - z`.
   */
  lemma MinusAssociatesLeft(e: Expr, x: Token, m1: Token, y: Token, m2: Token, z: Token)
    requires Shaped(e) && x.ty == Identifier && y.ty == Identifier && z.ty == Identifier
    requires m1.ty == Minus && m2.ty == Minus
    requires Yield(e) == [SKept(x), SKept(m1), SKept(y), SKept(m2), SKept(z)]
    ensures e == Binary(Binary(Variable(x), m1, Variable(y)), m2, Variable(z))
  {
    ShapedYield(e);
    Leading(e);
    match e
    case Binary(l, op, r) =>
      ShapedYield(l); ShapedYield(r);
      BinaryParts(l, op, r);
      var k := |Yield(l)|;
      if k == 1 {
        assert op == m1;
        assert Yield(r) == [SKept(y), SKept(m2), SKept(z)];
        BinaryYield(r, y, m2, z);
        assert false;
      } else {
        assert k == 3 && op == m2;
        assert Yield(l) == [SKept(x), SKept(m1), SKept(y)];
        BinaryYield(l, x, m1, y);
        assert Yield(r) == [SKept(z)];
        NameYield(r, z);
      }
    case Unary(_, _) =>
    case Assign(_, _) =>
    case Grouping(_) =>
  }

  /** Prefix operators nest to the right: the only shaped tree from `! - x` is `!(-x)`. */
  lemma UnaryNestsRight(e: Expr, bang: Token, minus: Token, x: Token)
    requires Shaped(e) && bang.ty == Bang && minus.ty == Minus && x.ty == Identifier
    requires Yield(e) == [SKept(bang), SKept(minus), SKept(x)]
    ensures e == Unary(bang, Unary(minus, Variable(x)))
  {
    ShapedYield(e);
    Leading(e);
    match e
    case Binary(l, op, r) =>
      BinaryParts(l, op, r);
      ShapedYield(r);
      ShapedYield(l);
    case Unary(_, r) =>
      assert Yield(r) == [SKept(minus), SKept(x)];
      NegationYield(r, minus, x);
    case Assign(_, _) =>
    case Grouping(_) =>
  }

  /** Unary binds tighter than a product: the only shaped tree from `- x * y` is `(-x) * y`. */
  lemma NegationBindsTighter(e: Expr, minus: Token, x: Token, star: Token, y: Token)
    requires Shaped(e) && minus.ty == Minus && star.ty == Star && x.ty == Identifier && y.ty == Identifier
    requires Yield(e) == [SKept(minus), SKept(x), SKept(star), SKept(y)]
    ensures e == Binary(Unary(minus, Variable(x)), star, Variable(y))
  {
    ShapedYield(e);
    Leading(e);
    match e
    case Binary(l, op, r) =>
      ShapedYield(l); ShapedYield(r);
      BinaryParts(l, op, r);
      var k := |Yield(l)|;
      assert k == 2 && op == star;
      assert Yield(l) == [SKept(minus), SKept(x)];
      NegationYield(l, minus, x);
      assert Yield(r) == [SKept(y)];
      NameYield(r, y);
    case Unary(_, r) =>
      assert Yield(r) == [SKept(x), SKept(star), SKept(y)];
      BinaryYield(r, x, star, y);
    case Assign(_, _) =>
    case Grouping(_) =>
  }

  /** A shaped statement comes from some tokens, and only an expression statement starts with a kept one. */
  lemma LeadingStmt(s: Stmt)
    requires StmtShaped(s)
    ensures |StmtYield(s)| > 0
    ensures !s.Expression? ==> StmtYield(s)[0].SPunct?
  {
  }

  /** Two ways of ending at the first `c` agree on what comes before it. */
  lemma FirstOccurrence(y: seq<Sym>, rest: seq<Sym>, ys: seq<Sym>, c: Sym)
    requires c !in y && c !in ys && y + [c] + rest == ys + [c]
    ensures y == ys && rest == []
  {
    var whole := y + [c] + rest;
    assert whole[|y|] == c;
    assert |y| == |ys|;
    assert y == whole[..|y|] == ys;
  }

  /**
   * Shaped statements whose tokens are one expression's followed by a
   * single `;` are that one expression statement.
   */
  lemma OneExpressionStatement(ss: seq<Stmt>, ys: seq<Sym>)
    requires forall i :: 0 <= i < |ss| ==> StmtShaped(ss[i])
    requires |ys| > 0 && ys[0].SKept? && SPunct(Semicolon) !in ys
    requires StmtsYield(ss) == ys + [SPunct(Semicolon)]
    ensures |ss| == 1 && ss[0].Expression? && Yield(ss[0].expr) == ys
  {
    assert ss != [];
    var s0, rest := ss[0], ss[1..];
    assert StmtShaped(s0);
    LeadingStmt(s0);
    var first, others := StmtYield(s0), StmtsYield(rest);
    assert StmtsYield(ss) == first + others;
    assert (first + others)[0] == first[0];
    assert (ys + [SPunct(Semicolon)])[0] == ys[0];
    assert first[0] == ys[0];
    var e := s0.expr;
    ShapedYield(e);
    assert first == Yield(e) + [SPunct(Semicolon)];
    FirstOccurrence(Yield(e), others, ys, SPunct(Semicolon));
    if rest != [] {
      assert StmtShaped(rest[0]);
      LeadingStmt(rest[0]);
    }
  }

  // ----- The parser ---------------------------------------------------

  class Parser {
    const tokens: seq<Token>
    var current: nat
    var errors: seq<ParseError>

    /**
     * Tokens as `scan_tokens` returns them: the last one is `Eof`, and
     * number and string tokens carry their literal.
     */
    ghost predicate WellFormed()
    {
      |tokens| > 0 && tokens[|tokens| - 1].ty == Eof &&
      forall i :: 0 <= i < |tokens| ==> (tokens[i].ty in {TokenTy.Number, TokenTy.String} ==> tokens[i].literal.Some?)
    }

    ghost predicate Valid()
      reads this
    {
      WellFormed() && current < |tokens|
    }

    constructor (tokens: seq<Token>)
      requires |tokens| > 0 && tokens[|tokens| - 1].ty == Eof
      requires forall i :: 0 <= i < |tokens| ==> (tokens[i].ty in {TokenTy.Number, TokenTy.String} ==> tokens[i].literal.Some?)
      ensures Valid() && this.tokens == tokens && current == 0 && errors == []
    {
      this.tokens := tokens;
      current := 0;
      errors := [];
    }

    function Peek(): Token
      requires Valid()
      reads this
    {
      tokens[current]
    }

    predicate IsAtEnd()
      requires Valid()
      reads this
    {
      Peek().ty == Eof
    }

    /** `check`: the next token has kind `ty`; never true at `Eof`. */
    predicate Check(ty: TokenTy)
      requires Valid()
      reads this
    {
      !IsAtEnd() && Peek().ty == ty
    }

    function Previous(): Token
      requires Valid() && current >= 1
      reads this
    {
      tokens[current - 1]
    }

    /** `advance`: step over the next token unless it is `Eof`, and return the previous one. */
    method Advance() returns (t: Token)
      requires Valid() && (!IsAtEnd() || current >= 1)
      modifies this
      ensures Valid() && errors == old(errors)
      ensures current == if old(IsAtEnd()) then old(current) else old(current) + 1
      ensures current >= 1 && t == Previous()
    {
      if !IsAtEnd() {
        current := current + 1;
      }
      t := Previous();
    }

    /** `matches`: advance exactly when the next token has one of the kinds `tys`. */
    method Matches(tys: set<TokenTy>) returns (matched: bool)
      requires Valid()
      modifies this
      ensures Valid() && errors == old(errors)
      ensures matched <==> old(!IsAtEnd() && Peek().ty in tys)
      ensures current == if matched then old(current) + 1 else old(current)
      ensures matched ==> Previous().ty in tys
    {
      if !IsAtEnd() && Peek().ty in tys {
        var _ := Advance();
        matched := true;
      } else {
        matched := false;
      }
    }

    /**
     * `consume`: on the expected kind, advance and return that token;
     * otherwise fail with the message at the next token, moving nothing.
     */
    method Consume(ty: TokenTy, message: seq<char>) returns (r: Result<Token, ParseError>)
      requires Valid()
      modifies this
      ensures Valid() && errors == old(errors)
      ensures r.Ok? <==> old(Check(ty))
      ensures r.Ok? ==> current == old(current) + 1 && r.value == old(Peek()) && r.value.ty == ty
      ensures r.Err? ==> current == old(current) && r.error == Custom(Peek(), message)
    {
      if Check(ty) {
        var t := Advance();
        r := Ok(t);
      } else {
        r := Err(Custom(Peek(), message));
      }
    }

    // ----- Expressions ----------------------------------------------
    //
    // Each method promises, when it records no error, that the tree it
    // returns was parsed from exactly the tokens it stepped over.

    method Expression() returns (r: Result<Expr, ParseError>)
      requires Valid()
      modifies this
      ensures Valid() && old(current) <= current && old(errors) <= errors
      ensures r.Ok? ==> old(current) < current && Shaped(r.value)
      ensures r.Ok? && errors == old(errors) ==> Yield(r.value) == Syms(tokens[old(current)..current])
      decreases |tokens| - current, 7
    {
      r := Assignment();
    }

    /**
     * `assignment`: an equality expression, then, after `=`, a right-nested
     * assignment. A target that is not a variable records "Invalid
     * assignment target." and the left expression is returned.
     */
    method Assignment() returns (r: Result<Expr, ParseError>)
      requires Valid()
      modifies this
      ensures Valid() && old(current) <= current && old(errors) <= errors
      ensures r.Ok? ==> old(current) < current && Shaped(r.value)
      ensures r.Ok? && errors == old(errors) ==> Yield(r.value) == Syms(tokens[old(current)..current])
      decreases |tokens| - current, 6
    {
      r := Equality();
      if r.Err? {
        return;
      }
      ghost var mid, before := current, errors;
      var eq := Matches({Equal});
      if eq {
        var equals := Previous();
        var value := Assignment();
        if value.Err? {
          return value;
        }
        var e := AssignTarget(r.value, equals, value.value);
        if errors == old(errors) {
          assert before == old(errors) && r.value.Variable?;
          AssignStep(tokens, old(current), mid, current, r.value.name, value.value);
        }
        r := Ok(e);
      }
    }

    /** The end of `assignment`: a variable target becomes `Assign`; any other is an error. */
    method AssignTarget(target: Expr, equals: Token, value: Expr) returns (e: Expr)
      modifies this
      ensures current == old(current)
      ensures target.Variable? ==> e == Assign(target.name, value) && errors == old(errors)
      ensures !target.Variable? ==> e == target && errors == old(errors) + [Custom(equals, InvalidAssignmentTarget)]
    {
      if target.Variable? {
        return Assign(target.name, value);
      }
      errors := errors + [Custom(equals, InvalidAssignmentTarget)];
      e := target;
    }

    /** `equality`: comparisons joined left to right by `!=` and `==`. */
    method Equality() returns (r: Result<Expr, ParseError>)
      requires Valid()
      modifies this
      ensures Valid() && old(current) <= current && old(errors) <= errors
      ensures r.Ok? ==> old(current) < current && Shaped(r.value) && Level(r.value) >= EqualityLevel
      ensures r.Ok? && errors == old(errors) ==> Yield(r.value) == Syms(tokens[old(current)..current])
      decreases |tokens| - current, 5
    {
      r := Comparison();
      if r.Err? {
        return;
      }
      var expr := r.value;
      ghost var mid := current;
      var more := Matches({BangEqual, EqualEqual});
      while more
        invariant Valid() && old(current) < mid <= current && old(errors) <= errors
        invariant current == if more then mid + 1 else mid
        invariant more ==> tokens[mid].ty in {BangEqual, EqualEqual}
        invariant Shaped(expr) && Level(expr) >= EqualityLevel
        invariant errors == old(errors) ==> Yield(expr) == Syms(tokens[old(current)..mid])
        decreases |tokens| - current + (if more then 1 else 0)
      {
        var operator := Previous();
        OperatorLevel(operator.ty);
        ghost var before := errors;
        var right := Comparison();
        if right.Err? {
          return right;
        }
        if errors == old(errors) {
          assert before == old(errors);
          BinaryStep(tokens, old(current), mid, current, expr, operator, right.value);
        }
        ShapedBinary(expr, operator, right.value, EqualityLevel);
        expr := Binary(expr, operator, right.value);
        mid := current;
        more := Matches({BangEqual, EqualEqual});
      }
      r := Ok(expr);
    }

    /** `comparison`: terms joined left to right by `>`, `>=`, `<` and `<=`. */
    method Comparison() returns (r: Result<Expr, ParseError>)
      requires Valid()
      modifies this
      ensures Valid() && old(current) <= current && old(errors) <= errors
      ensures r.Ok? ==> old(current) < current && Shaped(r.value) && Level(r.value) >= ComparisonLevel
      ensures r.Ok? && errors == old(errors) ==> Yield(r.value) == Syms(tokens[old(current)..current])
      decreases |tokens| - current, 4
    {
      r := Term();
      if r.Err? {
        return;
      }
      var expr := r.value;
      ghost var mid := current;
      var more := Matches({Greater, GreaterEqual, Less, LessEqual});
      while more
        invariant Valid() && old(current) < mid <= current && old(errors) <= errors
        invariant current == if more then mid + 1 else mid
        invariant more ==> tokens[mid].ty in {Greater, GreaterEqual, Less, LessEqual}
        invariant Shaped(expr) && Level(expr) >= ComparisonLevel
        invariant errors == old(errors) ==> Yield(expr) == Syms(tokens[old(current)..mid])
        decreases |tokens| - current + (if more then 1 else 0)
      {
        var operator := Previous();
        OperatorLevel(operator.ty);
        ghost var before := errors;
        var right := Term();
        if right.Err? {
          return right;
        }
        if errors == old(errors) {
          assert before == old(errors);
          BinaryStep(tokens, old(current), mid, current, expr, operator, right.value);
        }
        ShapedBinary(expr, operator, right.value, ComparisonLevel);
        expr := Binary(expr, operator, right.value);
        mid := current;
        more := Matches({Greater, GreaterEqual, Less, LessEqual});
      }
      r := Ok(expr);
    }

    /** `term`: factors joined left to right by `-` and `+`. */
    method Term() returns (r: Result<Expr, ParseError>)
      requires Valid()
      modifies this
      ensures Valid() && old(current) <= current && old(errors) <= errors
      ensures r.Ok? ==> old(current) < current && Shaped(r.value) && Level(r.value) >= TermLevel
      ensures r.Ok? && errors == old(errors) ==> Yield(r.value) == Syms(tokens[old(current)..current])
      decreases |tokens| - current, 3
    {
      r := Factor();
      if r.Err? {
        return;
      }
      var expr := r.value;
      ghost var mid := current;
      var more := Matches({Minus, Plus});
      while more
        invariant Valid() && old(current) < mid <= current && old(errors) <= errors
        invariant current == if more then mid + 1 else mid
        invariant more ==> tokens[mid].ty in {Minus, Plus}
        invariant Shaped(expr) && Level(expr) >= TermLevel
        invariant errors == old(errors) ==> Yield(expr) == Syms(tokens[old(current)..mid])
        decreases |tokens| - current + (if more then 1 else 0)
      {
        var operator := Previous();
        OperatorLevel(operator.ty);
        ghost var before := errors;
        var right := Factor();
        if right.Err? {
          return right;
        }
        if errors == old(errors) {
          assert before == old(errors);
          BinaryStep(tokens, old(current), mid, current, expr, operator, right.value);
        }
        ShapedBinary(expr, operator, right.value, TermLevel);
        expr := Binary(expr, operator, right.value);
        mid := current;
        more := Matches({Minus, Plus});
      }
      r := Ok(expr);
    }

    /** `factor`: unary expressions joined left to right by `/` and `*`. */
    method Factor() returns (r: Result<Expr, ParseError>)
      requires Valid()
      modifies this
      ensures Valid() && old(current) <= current && old(errors) <= errors
      ensures r.Ok? ==> old(current) < current && Shaped(r.value) && Level(r.value) >= FactorLevel
      ensures r.Ok? && errors == old(errors) ==> Yield(r.value) == Syms(tokens[old(current)..current])
      decreases |tokens| - current, 2
    {
      r := Unary();
      if r.Err? {
        return;
      }
      var expr := r.value;
      ghost var mid := current;
      var more := Matches({Slash, Star});
      while more
        invariant Valid() && old(current) < mid <= current && old(errors) <= errors
        invariant current == if more then mid + 1 else mid
        invariant more ==> tokens[mid].ty in {Slash, Star}
        invariant Shaped(expr) && Level(expr) >= FactorLevel
        invariant errors == old(errors) ==> Yield(expr) == Syms(tokens[old(current)..mid])
        decreases |tokens| - current + (if more then 1 else 0)
      {
        var operator := Previous();
        OperatorLevel(operator.ty);
        ghost var before := errors;
        var right := Unary();
        if right.Err? {
          return right;
        }
        if errors == old(errors) {
          assert before == old(errors);
          BinaryStep(tokens, old(current), mid, current, expr, operator, right.value);
        }
        ShapedBinary(expr, operator, right.value, FactorLevel);
        expr := Binary(expr, operator, right.value);
        mid := current;
        more := Matches({Slash, Star});
      }
      r := Ok(expr);
    }

    /** `unary`: `!` or `-` applied to a unary expression, or a primary one. */
    method Unary() returns (r: Result<Expr, ParseError>)
      requires Valid()
      modifies this
      ensures Valid() && old(current) <= current && old(errors) <= errors
      ensures r.Ok? ==> old(current) < current && Shaped(r.value) && Level(r.value) >= UnaryLevel
      ensures r.Ok? && errors == old(errors) ==> Yield(r.value) == Syms(tokens[old(current)..current])
      decreases |tokens| - current, 1
    {
      var prefixed := Matches({Bang, Minus});
      if prefixed {
        var operator := Previous();
        var right := Unary();
        if right.Err? {
          return right;
        }
        if errors == old(errors) {
          UnaryStep(tokens, old(current), current, right.value);
        }
        r := Ok(Expr.Unary(operator, right.value));
      } else {
        r := Primary();
      }
    }

    /**
     * `primary`: a literal, a variable, or a parenthesised expression;
     * anything else fails with ExpectExpression at the next token.
     */
    method Primary() returns (r: Result<Expr, ParseError>)
      requires Valid()
      modifies this
      ensures Valid() && old(current) <= current && old(errors) <= errors
      ensures r.Ok? ==> old(current) < current && Shaped(r.value) && Level(r.value) == PrimaryLevel
      ensures r.Ok? && errors == old(errors) ==> Yield(r.value) == Syms(tokens[old(current)..current])
      ensures old(Peek().ty) in {False, True, TokenTy.Nil, TokenTy.Number, TokenTy.String, Identifier} ==>
        r == Ok(LiteralOrVariable(old(Peek()))) && current == old(current) + 1
      ensures r.Err? && old(Peek().ty) != LeftParen ==>
        current == old(current) && r.error == Custom(old(Peek()), ExpectExpression)
      decreases |tokens| - current, 0
    {
      var t := Peek();
      var matched := Matches({False, True, TokenTy.Nil, TokenTy.Number, TokenTy.String, Identifier});
      if matched {
        LiteralStep(tokens, old(current));
        r := Ok(LiteralOrVariable(t));
        return;
      }
      matched := Matches({LeftParen});
      if matched {
        r := Expression();
        if r.Err? {
          return;
        }
        ghost var mid := current;
        var close := Consume(RightParen, ExpectRightParen);
        if close.Err? {
          return Err(close.error);
        }
        if errors == old(errors) {
          GroupingStep(tokens, old(current), mid, r.value);
        }
        r := Ok(Grouping(r.value));
      } else {
        r := Err(Custom(t, ExpectExpression));
      }
    }

    // ----- Statements -----------------------------------------------

    /** `declaration`: a `var` declaration or a statement. */
    method Declaration() returns (r: Result<Stmt, ParseError>)
      requires Valid()
      modifies this
      ensures Valid() && old(current) <= current && old(errors) <= errors
      ensures r.Ok? ==> old(current) < current && StmtShaped(r.value)
      ensures r.Ok? && errors == old(errors) ==> StmtYield(r.value) == Syms(tokens[old(current)..current])
      decreases |tokens| - current, 11
    {
      var isVar := Matches({TokenTy.Var});
      if isVar {
        r := VarDeclaration();
        if r.Ok? && errors == old(errors) {
          PunctStep(tokens, old(current), current);
        }
      } else {
        r := Statement();
      }
    }

    /** `var_declaration`, after `var`: a name, an optional initializer, and `;`. */
    method VarDeclaration() returns (r: Result<Stmt, ParseError>)
      requires Valid()
      modifies this
      ensures Valid() && old(current) <= current && old(errors) <= errors
      ensures r.Ok? ==> old(current) < current && r.value.Var? && r.value.name.ty == Identifier
      ensures r.Ok? && r.value.initializer.Some? ==> Shaped(r.value.initializer.value)
      ensures r.Ok? && errors == old(errors) ==>
        StmtYield(r.value) == [SPunct(TokenTy.Var)] + Syms(tokens[old(current)..current])
      decreases |tokens| - current, 9
    {
      var name := Consume(Identifier, ExpectVariableName);
      if name.Err? {
        return Err(name.error);
      }
      var initializer := Initializer();
      if initializer.Err? {
        return Err(initializer.error);
      }
      ghost var end := current;
      var semi := Consume(Semicolon, ExpectVarSemicolon);
      if semi.Err? {
        return Err(semi.error);
      }
      if errors == old(errors) {
        VarStep(tokens, old(current), end, name.value, initializer.value);
      }
      r := Ok(Stmt.Var(name.value, initializer.value));
    }

    /** The initializer of `var_declaration`: after `=`, an expression; otherwise none. */
    method Initializer() returns (r: Result<Option<Expr>, ParseError>)
      requires Valid()
      modifies this
      ensures Valid() && old(current) <= current && old(errors) <= errors
      ensures r.Ok? && r.value.Some? ==> Shaped(r.value.value)
      ensures r.Ok? && r.value.None? ==> current == old(current) && !old(Check(Equal))
      ensures r.Ok? && errors == old(errors) ==> InitYield(r.value) == Syms(tokens[old(current)..current])
      decreases |tokens| - current, 8
    {
      var hasInit := Matches({Equal});
      if !hasInit {
        return Ok(None);
      }
      var e := Expression();
      if e.Err? {
        return Err(e.error);
      }
      if errors == old(errors) {
        InitStep(tokens, old(current), current, Some(e.value));
      }
      r := Ok(Some(e.value));
    }

    /** `statement`: a print statement, a block, or an expression statement. */
    method Statement() returns (r: Result<Stmt, ParseError>)
      requires Valid()
      modifies this
      ensures Valid() && old(current) <= current && old(errors) <= errors
      ensures r.Ok? ==> old(current) < current && StmtShaped(r.value)
      ensures r.Ok? && errors == old(errors) ==> StmtYield(r.value) == Syms(tokens[old(current)..current])
      decreases |tokens| - current, 10
    {
      var isPrint := Matches({TokenTy.Print});
      if isPrint {
        r := PrintStatement();
        if r.Ok? && errors == old(errors) {
          PunctStep(tokens, old(current), current);
        }
        return;
      }
      var isBlock := Matches({LeftBrace});
      if isBlock {
        var b := Block();
        if b.Err? {
          return Err(b.error);
        }
        if errors == old(errors) {
          BlockStep(tokens, old(current), current, b.value);
        }
        r := Ok(Stmt.Block(b.value));
      } else {
        r := ExpressionStatement();
      }
    }

    /** `block`, after `{`: declarations up to the closing `}`. */
    method Block() returns (r: Result<seq<Stmt>, ParseError>)
      requires Valid()
      modifies this
      ensures Valid() && old(current) <= current && old(errors) <= errors
      ensures r.Ok? ==> old(current) < current && forall i :: 0 <= i < |r.value| ==> StmtShaped(r.value[i])
      ensures r.Ok? && errors == old(errors) ==>
        StmtsYield(r.value) + [SPunct(RightBrace)] == Syms(tokens[old(current)..current])
      decreases |tokens| - current, 12
    {
      var statements: seq<Stmt> := [];
      while !Check(RightBrace) && !IsAtEnd()
        invariant Valid() && old(current) <= current && old(errors) <= errors
        invariant forall i :: 0 <= i < |statements| ==> StmtShaped(statements[i])
        invariant errors == old(errors) ==> StmtsYield(statements) == Syms(tokens[old(current)..current])
        decreases |tokens| - current
      {
        ghost var mid, before := current, errors;
        var d := Declaration();
        if d.Err? {
          return Err(d.error);
        }
        if errors == old(errors) {
          assert before == old(errors);
          DeclarationStep(tokens, old(current), mid, current, statements, d.value);
        }
        statements := statements + [d.value];
      }
      ghost var end := current;
      var close := Consume(RightBrace, ExpectRightBrace);
      if close.Err? {
        return Err(close.error);
      }
      if errors == old(errors) {
        CloseBraceStep(tokens, old(current), end, statements);
      }
      r := Ok(statements);
    }

    /** `print_statement`, after `print`: an expression and `;`. */
    method PrintStatement() returns (r: Result<Stmt, ParseError>)
      requires Valid()
      modifies this
      ensures Valid() && old(current) <= current && old(errors) <= errors
      ensures r.Ok? ==> old(current) < current && StmtShaped(r.value) && r.value.Print?
      ensures r.Ok? && errors == old(errors) ==>
        StmtYield(r.value) == [SPunct(TokenTy.Print)] + Syms(tokens[old(current)..current])
      decreases |tokens| - current, 9
    {
      var value := Expression();
      if value.Err? {
        return Err(value.error);
      }
      ghost var end := current;
      var semi := Consume(Semicolon, ExpectPrintSemicolon);
      if semi.Err? {
        return Err(semi.error);
      }
      if errors == old(errors) {
        SemicolonStep(tokens, old(current), end, value.value);
      }
      r := Ok(Stmt.Print(value.value));
    }

    /** `expression_statement`: an expression and `;`. */
    method ExpressionStatement() returns (r: Result<Stmt, ParseError>)
      requires Valid()
      modifies this
      ensures Valid() && old(current) <= current && old(errors) <= errors
      ensures r.Ok? ==> old(current) < current && StmtShaped(r.value) && r.value.Expression?
      ensures r.Ok? && errors == old(errors) ==> StmtYield(r.value) == Syms(tokens[old(current)..current])
      decreases |tokens| - current, 9
    {
      var expr := Expression();
      if expr.Err? {
        return Err(expr.error);
      }
      ghost var end := current;
      var semi := Consume(Semicolon, ExpectExpressionSemicolon);
      if semi.Err? {
        return Err(semi.error);
      }
      if errors == old(errors) {
        SemicolonStep(tokens, old(current), end, expr.value);
      }
      r := Ok(Stmt.Expression(expr.value));
    }

    /**
     * `synchonize`: step over one token, then on to the first position
     * after a `;`, before a statement keyword, or at `Eof`.
     */
    method Synchronize()
      requires Valid() && (!IsAtEnd() || current >= 1)
      modifies this
      ensures Valid() && errors == old(errors)
      ensures old(IsAtEnd()) ==> current == old(current)
      ensures !old(IsAtEnd()) ==> old(current) < current && StopsAt(tokens, current)
      ensures forall p :: old(current) < p < current ==> !StopsAt(tokens, p)
    {
      var _ := Advance();
      while !IsAtEnd()
        invariant Valid() && old(current) <= current && errors == old(errors)
        invariant !IsAtEnd() ==> old(current) < current
        invariant old(IsAtEnd()) ==> current == old(current)
        invariant forall p :: old(current) < p < current ==> !StopsAt(tokens, p)
        decreases |tokens| - current
      {
        if Previous().ty == Semicolon {
          return;
        }
        if StartsStatement(Peek().ty) {
          return;
        }
        assert !StopsAt(tokens, current);
        var _ := Advance();
      }
    }

    /**
     * `parse`: declarations until `Eof`. A failed declaration's error is
     * recorded and parsing resumes after resynchronising; the statements
     * come back only when no error was recorded, assignment-target errors
     * included.
     */
    method Parse() returns (r: Result<seq<Stmt>, seq<ParseError>>)
      requires Valid() && errors == []
      modifies this
      ensures Valid() && IsAtEnd() && old(current) <= current
      ensures r.Ok? <==> errors == []
      ensures r.Ok? ==> forall i :: 0 <= i < |r.value| ==> StmtShaped(r.value[i])
      ensures r.Ok? ==> StmtsYield(r.value) == Syms(tokens[old(current)..current])
      ensures r.Err? ==> r.error == errors
    {
      var statements: seq<Stmt> := [];
      while !IsAtEnd()
        invariant Valid() && old(current) <= current
        invariant forall i :: 0 <= i < |statements| ==> StmtShaped(statements[i])
        invariant errors == [] ==> StmtsYield(statements) == Syms(tokens[old(current)..current])
        decreases |tokens| - current
      {
        ghost var mid, before := current, errors;
        var d := Declaration();
        if d.Ok? {
          if errors == [] {
            assert before == [];
            DeclarationStep(tokens, old(current), mid, current, statements, d.value);
          }
          statements := statements + [d.value];
        } else {
          errors := errors + [d.error];
          Synchronize();
        }
      }
      if errors == [] {
        r := Ok(statements);
      } else {
        r := Err(errors);
      }
    }
  }

  /** The literal or variable a just-matched primary token stands for. */
  function LiteralOrVariable(t: Token): (e: Expr)
    requires t.ty in {False, True, TokenTy.Nil, TokenTy.Number, TokenTy.String, Identifier}
    requires t.ty in {TokenTy.Number, TokenTy.String} ==> t.literal.Some?
    ensures Shaped(e) && Level(e) == PrimaryLevel
    ensures t.ty == Identifier <==> e.Variable?
    ensures Yield(e) == [SymOf(t)]
  {
    if t.ty == False then Literal(Boolean(false))
    else if t.ty == True then Literal(Boolean(true))
    else if t.ty == TokenTy.Nil then Literal(Literal.Nil)
    else if t.ty == Identifier then Variable(t)
    else Literal(t.literal.value)
  }

  // ----- What `parse` makes of three small programs --------------------

  /** `x - y - z;` parses, when it parses, to the one statement `(x - y) - z;`. */
  method ParseSubtraction(x: Token, m1: Token, y: Token, m2: Token, z: Token, semi: Token, eof: Token)
    returns (r: Result<seq<Stmt>, seq<ParseError>>)
    requires x.ty == Identifier && y.ty == Identifier && z.ty == Identifier
    requires m1.ty == Minus && m2.ty == Minus && semi.ty == Semicolon && eof.ty == Eof
    ensures r.Ok? ==> r.value == [Stmt.Expression(Binary(Binary(Variable(x), m1, Variable(y)), m2, Variable(z)))]
  {
    var tokens := [x, m1, y, m2, z, semi, eof];
    var p := new Parser(tokens);
    r := p.Parse();
    if r.Ok? {
      var ys := [SKept(x), SKept(m1), SKept(y), SKept(m2), SKept(z)];
      assert p.current == 6;
      assert Syms(tokens[0..6]) == ys + [SPunct(Semicolon)];
      OneExpressionStatement(r.value, ys);
      MinusAssociatesLeft(r.value[0].expr, x, m1, y, m2, z);
    }
  }

  /** `! - x;` parses, when it parses, to the one statement `!(-x);`. */
  method ParsePrefixOperators(bang: Token, minus: Token, x: Token, semi: Token, eof: Token)
    returns (r: Result<seq<Stmt>, seq<ParseError>>)
    requires bang.ty == Bang && minus.ty == Minus && x.ty == Identifier && semi.ty == Semicolon && eof.ty == Eof
    ensures r.Ok? ==> r.value == [Stmt.Expression(Expr.Unary(bang, Expr.Unary(minus, Variable(x))))]
  {
    var tokens := [bang, minus, x, semi, eof];
    var p := new Parser(tokens);
    r := p.Parse();
    if r.Ok? {
      var ys := [SKept(bang), SKept(minus), SKept(x)];
      assert p.current == 4;
      assert Syms(tokens[0..4]) == ys + [SPunct(Semicolon)];
      OneExpressionStatement(r.value, ys);
      UnaryNestsRight(r.value[0].expr, bang, minus, x);
    }
  }

  /** `- x * y;` parses, when it parses, to the one statement `(-x) * y;`. */
  method ParseNegatedProduct(minus: Token, x: Token, star: Token, y: Token, semi: Token, eof: Token)
    returns (r: Result<seq<Stmt>, seq<ParseError>>)
    requires minus.ty == Minus && x.ty == Identifier && star.ty == Star && y.ty == Identifier
    requires semi.ty == Semicolon && eof.ty == Eof
    ensures r.Ok? ==> r.value == [Stmt.Expression(Binary(Expr.Unary(minus, Variable(x)), star, Variable(y)))]
  {
    var tokens := [minus, x, star, y, semi, eof];
    var p := new Parser(tokens);
    r := p.Parse();
    if r.Ok? {
      var ys := [SKept(minus), SKept(x), SKept(star), SKept(y)];
      assert p.current == 5;
      assert Syms(tokens[0..5]) == ys + [SPunct(Semicolon)];
      OneExpressionStatement(r.value, ys);
      NegationBindsTighter(r.value[0].expr, minus, x, star, y);
    }
  }
}
