/**
 * The Pratt parser's precedence levels and rule table (compiler/mod.rs):
 * for each token kind, the parse function used when it starts an
 * expression, the one used when it follows a left operand, and how tightly
 * it binds as an infix operator.
 */
module Precedences {
  import opened Wrappers
  import opened BcTokens
  import Op = Opcodes

  datatype Precedence =
    None | Assignment | Or | And | Equality | Comparison | Term | Factor | Unary | Call | Primary

  /** The discriminant, which the derived ordering compares. */
  function Level(p: Precedence): (n: nat)
    ensures n <= 10
  {
    match p
    case None => 0
    case Assignment => 1
    case Or => 2
    case And => 3
    case Equality => 4
    case Comparison => 5
    case Term => 6
    case Factor => 7
    case Unary => 8
    case Call => 9
    case Primary => 10
  }

  predicate AtMost(a: Precedence, b: Precedence) {
    Level(a) <= Level(b)
  }

  /** Levels tell precedences apart. */
  lemma LevelInjective(a: Precedence, b: Precedence)
    requires Level(a) == Level(b)
    ensures a == b
  {
  }

  /** `Precedence::successor`: the next tighter level; Primary is its own successor. */
  function Successor(p: Precedence): (q: Precedence)
    ensures p != Primary ==> Level(q) == Level(p) + 1
    ensures p == Primary ==> q == Primary
  {
    match p
    case None => Assignment
    case Assignment => Precedence.Or
    case Or => Precedence.And
    case And => Equality
    case Equality => Comparison
    case Comparison => Term
    case Term => Factor
    case Factor => Unary
    case Unary => Call
    case Call => Primary
    case Primary => Primary
  }

  /** `can_assign`: an assignment target may only be parsed at the loosest levels. */
  function CanAssign(p: Precedence): (r: bool)
    ensures r <==> p == Precedence.None || p == Assignment
  {
    AtMost(p, Assignment)
  }

  /** The parse functions the rule table refers to. */
  datatype ParseFn = Grouping | UnaryOp | BinaryOp | Variable | StringLit | NumberLit | Literal | AndOp | OrOp

  datatype ParseRule = ParseRule(prefix: Option<ParseFn>, infix: Option<ParseFn>, precedence: Precedence)

  /** `get_rule`. */
  function GetRule(ty: Ty): ParseRule
  {
    match ty
    case LeftParen => ParseRule(Some(Grouping), Option.None, Precedence.None)
    case Minus => ParseRule(Some(UnaryOp), Some(BinaryOp), Term)
    case Plus => ParseRule(Option.None, Some(BinaryOp), Term)
    case Slash => ParseRule(Option.None, Some(BinaryOp), Factor)
    case Star => ParseRule(Option.None, Some(BinaryOp), Factor)
    case Bang => ParseRule(Some(UnaryOp), Option.None, Precedence.None)
    case BangEqual => ParseRule(Option.None, Some(BinaryOp), Equality)
    case EqualEqual => ParseRule(Option.None, Some(BinaryOp), Equality)
    case Greater => ParseRule(Option.None, Some(BinaryOp), Comparison)
    case GreaterEqual => ParseRule(Option.None, Some(BinaryOp), Comparison)
    case Less => ParseRule(Option.None, Some(BinaryOp), Comparison)
    case LessEqual => ParseRule(Option.None, Some(BinaryOp), Comparison)
    case Identifier => ParseRule(Some(Variable), Option.None, Precedence.None)
    case String => ParseRule(Some(StringLit), Option.None, Precedence.None)
    case Number => ParseRule(Some(NumberLit), Option.None, Precedence.None)
    case And => ParseRule(Option.None, Some(AndOp), Precedence.And)
    case False => ParseRule(Some(Literal), Option.None, Precedence.None)
    case Nil => ParseRule(Some(Literal), Option.None, Precedence.None)
    case Or => ParseRule(Option.None, Some(OrOp), Precedence.Or)
    case True => ParseRule(Some(Literal), Option.None, Precedence.None)
    case _ => ParseRule(Option.None, Option.None, Precedence.None)
  }

  /** The token kinds `binary` knows how to compile. */
  predicate IsBinaryOperator(ty: Ty) {
    ty in {BangEqual, EqualEqual, Ty.Greater, GreaterEqual, Ty.Less, LessEqual, Plus, Minus, Star, Slash}
  }

  /**
   * Rule-table safety: every token that binds as an infix operator has an
   * infix function, so `infix.unwrap()` cannot fail; the table hands each
   * parse function only the token kinds its `match` handles; Eof has no rule.
   */
  lemma RuleTableSafe(ty: Ty)
    ensures GetRule(ty).precedence != Precedence.None ==> GetRule(ty).infix.Some?
    ensures GetRule(ty).infix == Some(BinaryOp) <==> IsBinaryOperator(ty)
    ensures GetRule(ty).prefix == Some(UnaryOp) <==> ty in {Minus, Bang}
    ensures GetRule(ty).prefix == Some(Literal) <==> ty in {Ty.Nil, Ty.True, Ty.False}
    ensures GetRule(ty).prefix == Some(StringLit) <==> ty == String
    ensures GetRule(ty).prefix == Some(NumberLit) <==> ty == Number
    ensures GetRule(ty).prefix == Some(Variable) <==> ty == Identifier
    ensures GetRule(ty).prefix == Some(Grouping) <==> ty == LeftParen
    ensures GetRule(ty).infix == Some(AndOp) <==> ty == Ty.And
    ensures GetRule(ty).infix == Some(OrOp) <==> ty == Ty.Or
    ensures GetRule(Eof) == ParseRule(Option.None, Option.None, Precedence.None)
  {
    InfixRulesSafe(ty);
    PrefixRulesSafe(ty);
  }

  lemma InfixRulesSafe(ty: Ty)
    ensures GetRule(ty).precedence != Precedence.None ==> GetRule(ty).infix.Some?
    ensures GetRule(ty).infix == Some(BinaryOp) <==> IsBinaryOperator(ty)
    ensures GetRule(ty).infix == Some(AndOp) <==> ty == Ty.And
    ensures GetRule(ty).infix == Some(OrOp) <==> ty == Ty.Or
  {
  }

  lemma PrefixRulesSafe(ty: Ty)
    ensures GetRule(ty).prefix == Some(UnaryOp) <==> ty in {Minus, Bang}
    ensures GetRule(ty).prefix == Some(Literal) <==> ty in {Ty.Nil, Ty.True, Ty.False}
    ensures GetRule(ty).prefix == Some(StringLit) <==> ty == String
    ensures GetRule(ty).prefix == Some(NumberLit) <==> ty == Number
    ensures GetRule(ty).prefix == Some(Variable) <==> ty == Identifier
    ensures GetRule(ty).prefix == Some(Grouping) <==> ty == LeftParen
  {
  }

  /**
   * Binding tightness of the infix operators: `or` < `and` < equality <
   * comparison < `+ -` < `* /`.
   */
  lemma InfixLevels()
    ensures Level(GetRule(Ty.Or).precedence) < Level(GetRule(Ty.And).precedence)
    ensures Level(GetRule(Ty.And).precedence) < Level(GetRule(EqualEqual).precedence)
    ensures Level(GetRule(EqualEqual).precedence) < Level(GetRule(Ty.Less).precedence)
    ensures Level(GetRule(Ty.Less).precedence) < Level(GetRule(Plus).precedence)
    ensures Level(GetRule(Plus).precedence) < Level(GetRule(Star).precedence)
  {
  }

  /**
   * The opcodes `binary` emits for an operator: `!=`, `>=` and `<=` are
   * compiled as the opposite comparison followed by Not.
   */
  function BinaryOpcodes(ty: Ty): (ops: seq<Op.Opcode>)
    requires IsBinaryOperator(ty)
    ensures 1 <= |ops| <= 2
  {
    match ty
    case BangEqual => [Op.Equal, Op.Not]
    case EqualEqual => [Op.Equal]
    case Greater => [Op.Greater]
    case GreaterEqual => [Op.Less, Op.Not]
    case Less => [Op.Less]
    case LessEqual => [Op.Greater, Op.Not]
    case Plus => [Op.Add]
    case Minus => [Op.Subtract]
    case Star => [Op.Multiply]
    case Slash => [Op.Divide]
  }

  /**
   * The negated comparisons compile to the comparison they negate followed
   * by Not; every other operator compiles to a single opcode.
   */
  lemma NegatedComparisons(ty: Ty)
    requires IsBinaryOperator(ty)
    ensures ty == BangEqual ==> BinaryOpcodes(ty) == BinaryOpcodes(EqualEqual) + [Op.Not]
    ensures ty == GreaterEqual ==> BinaryOpcodes(ty) == BinaryOpcodes(Ty.Less) + [Op.Not]
    ensures ty == LessEqual ==> BinaryOpcodes(ty) == BinaryOpcodes(Ty.Greater) + [Op.Not]
    ensures ty !in {BangEqual, GreaterEqual, LessEqual} <==> |BinaryOpcodes(ty)| == 1
    ensures Op.Not !in BinaryOpcodes(ty)[..1]
  {
  }
}
