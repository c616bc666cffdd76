/**
 * The expression printer of the second tree-walk crate
 * (rlox-treewalk/src/ast_printer.rs): the same `(name child child)` text,
 * plus variables, which print as their name.
 */
module TreewalkAstPrinter {
  import opened Float
  import opened LoxSyntax
  import Rlox = AstPrinter

  /** The variants this `ast_to_string` handles; the rest reach `unimplemented!()`. */
  predicate Printable(e: Expr) {
    match e
    case Binary(l, _, r) => Printable(l) && Printable(r)
    case Grouping(x) => Printable(x)
    case Literal(_) => true
    case Unary(_, r) => Printable(r)
    case Variable(_) => true
    case _ => false
  }

  function Show(ops: FloatOps, e: Expr): seq<char>
    requires Printable(e)
  {
    match e
    case Binary(l, op, r) => "(" + op.lexeme + " " + Show(ops, l) + " " + Show(ops, r) + ")"
    case Grouping(x) => "(group " + Show(ops, x) + ")"
    case Literal(lit) => LiteralText(ops, lit)
    case Unary(op, r) => "(" + op.lexeme + " " + Show(ops, r) + ")"
    case Variable(name) => name.lexeme
  }

  function Spaced(ops: FloatOps, es: seq<Expr>): seq<char>
    requires forall i :: 0 <= i < |es| ==> Printable(es[i])
  {
    if es == [] then [] else Spaced(ops, es[..|es| - 1]) + " " + Show(ops, es[|es| - 1])
  }

  /** `ast_to_string` */
  method AstToString(ops: FloatOps, e: Expr) returns (s: seq<char>)
    requires Printable(e)
    ensures s == Show(ops, e)
    decreases Rlox.Size(e), 1
  {
    match e
    case Binary(l, op, r) =>
      Rlox.SizeAllOfTwo(l, r);
      s := Parenthesize(ops, op.lexeme, [l, r]);
      SpacedOfTwo(ops, l, r);
    case Grouping(x) =>
      Rlox.SizeAllOfTwo(x, x);
      s := Parenthesize(ops, "group", [x]);
      SpacedOfTwo(ops, x, x);
    case Literal(lit) =>
      s := LiteralText(ops, lit);
    case Unary(op, r) =>
      Rlox.SizeAllOfTwo(r, r);
      s := Parenthesize(ops, op.lexeme, [r]);
      SpacedOfTwo(ops, r, r);
    case Variable(name) =>
      s := name.lexeme;
  }

  lemma SpacedOfTwo(ops: FloatOps, a: Expr, b: Expr)
    requires Printable(a) && Printable(b)
    ensures Spaced(ops, [a]) == " " + Show(ops, a)
    ensures Spaced(ops, [a, b]) == " " + Show(ops, a) + " " + Show(ops, b)
  {
    assert [a][..0] == [];
    assert [a, b][..1] == [a];
  }

  /** `parenthesize` */
  method Parenthesize(ops: FloatOps, name: seq<char>, exprs: seq<Expr>) returns (s: seq<char>)
    requires forall i :: 0 <= i < |exprs| ==> Printable(exprs[i])
    ensures s == "(" + name + Spaced(ops, exprs) + ")"
    decreases Rlox.SizeAll(exprs), 2
  {
    s := "(" + name;
    var i := 0;
    while i < |exprs|
      invariant 0 <= i <= |exprs|
      invariant s == "(" + name + Spaced(ops, exprs[..i])
    {
      Rlox.SizeAllPrefix(exprs, i);
      var child := AstToString(ops, exprs[i]);
      assert exprs[..i + 1][..i] == exprs[..i];
      s := s + " " + child;
      i := i + 1;
    }
    assert exprs[..i] == exprs;
    s := s + ")";
  }

  /** Operators, literal texts and variable names contain no parens. */
  predicate LeavesParenFree(ops: FloatOps, e: Expr)
    requires Printable(e)
  {
    match e
    case Binary(l, op, r) => Rlox.ParenFree(op.lexeme) && LeavesParenFree(ops, l) && LeavesParenFree(ops, r)
    case Grouping(x) => LeavesParenFree(ops, x)
    case Literal(lit) => Rlox.ParenFree(LiteralText(ops, lit))
    case Unary(op, r) => Rlox.ParenFree(op.lexeme) && LeavesParenFree(ops, r)
    case Variable(name) => Rlox.ParenFree(name.lexeme)
  }

  /** The printed text is balanced. */
  lemma {:induction false} ShowBalanced(ops: FloatOps, e: Expr)
    requires Printable(e) && LeavesParenFree(ops, e)
    ensures Rlox.Balanced(Show(ops, e))
  {
    match e
    case Binary(l, op, r) =>
      ShowBalanced(ops, l);
      ShowBalanced(ops, r);
      Rlox.BalancedBinaryNode(op.lexeme, Show(ops, l), Show(ops, r));
    case Grouping(x) =>
      ShowBalanced(ops, x);
      Rlox.BalancedUnaryNode("group", Show(ops, x));
      assert Show(ops, e) == "(" + "group" + " " + Show(ops, x) + ")";
    case Literal(lit) =>
      Rlox.BalancedParenFree(LiteralText(ops, lit));
    case Unary(op, r) =>
      ShowBalanced(ops, r);
      Rlox.BalancedUnaryNode(op.lexeme, Show(ops, r));
    case Variable(name) =>
      Rlox.BalancedParenFree(name.lexeme);
  }

  /** On the trees both printers handle, they print the same text. */
  lemma {:induction false} AgreesWithRlox(ops: FloatOps, e: Expr)
    requires Rlox.Printable(e)
    ensures Printable(e) && Show(ops, e) == Rlox.Show(ops, e)
  {
    match e
    case Binary(l, _, r) =>
      AgreesWithRlox(ops, l);
      AgreesWithRlox(ops, r);
    case Grouping(x) =>
      AgreesWithRlox(ops, x);
    case Literal(_) =>
    case Unary(_, r) =>
      AgreesWithRlox(ops, r);
  }
}
