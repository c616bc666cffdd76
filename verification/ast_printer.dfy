/**
 * The tree-walk interpreter's expression printer (rlox/src/ast_printer.rs):
 * Lisp-like text, `(name child child)`. `Show` is the printed text as a
 * function of the tree; the `ast_to_string`/`parenthesize` pair, which
 * appends to a string in a loop, is proved to produce it.
 */
module AstPrinter {
  import opened Float
  import opened LoxSyntax

  /** The variants `ast_to_string` matches on. */
  predicate Printable(e: Expr) {
    match e
    case Binary(l, _, r) => Printable(l) && Printable(r)
    case Grouping(x) => Printable(x)
    case Literal(_) => true
    case Unary(_, r) => Printable(r)
    case _ => false
  }

  /** The number of nodes in a tree; the printer's recursion descends it. */
  function Size(e: Expr): nat {
    match e
    case Binary(l, _, r) => 1 + Size(l) + Size(r)
    case Grouping(x) => 1 + Size(x)
    case Unary(_, r) => 1 + Size(r)
    case Assign(_, v) => 1 + Size(v)
    case Logical(l, _, r) => 1 + Size(l) + Size(r)
    case Call(c, _, args) => 1 + Size(c) + SizeAll(args)
    case _ => 1
  }

  function SizeAll(es: seq<Expr>): nat {
    if es == [] then 0 else Size(es[0]) + SizeAll(es[1..])
  }

  function Show(ops: FloatOps, e: Expr): seq<char>
    requires Printable(e)
  {
    match e
    case Binary(l, op, r) => "(" + op.lexeme + " " + Show(ops, l) + " " + Show(ops, r) + ")"
    case Grouping(x) => "(group " + Show(ops, x) + ")"
    case Literal(lit) => LiteralText(ops, lit)
    case Unary(op, r) => "(" + op.lexeme + " " + Show(ops, r) + ")"
  }

  /** Each tree printed after a space, in order. */
  function Spaced(ops: FloatOps, es: seq<Expr>): seq<char>
    requires forall i :: 0 <= i < |es| ==> Printable(es[i])
  {
    if es == [] then [] else Spaced(ops, es[..|es| - 1]) + " " + Show(ops, es[|es| - 1])
  }

  /** `ast_to_string` */
  method AstToString(ops: FloatOps, e: Expr) returns (s: seq<char>)
    requires Printable(e)
    ensures s == Show(ops, e)
    decreases Size(e), 1
  {
    match e
    case Binary(l, op, r) =>
      SizeAllOfTwo(l, r);
      s := Parenthesize(ops, op.lexeme, [l, r]);
      SpacedOfTwo(ops, l, r);
    case Grouping(x) =>
      SizeAllOfTwo(x, x);
      s := Parenthesize(ops, "group", [x]);
      SpacedOfTwo(ops, x, x);
    case Literal(lit) =>
      s := LiteralText(ops, lit);
    case Unary(op, r) =>
      SizeAllOfTwo(r, r);
      s := Parenthesize(ops, op.lexeme, [r]);
      SpacedOfTwo(ops, r, r);
  }

  lemma SizeAllOfTwo(a: Expr, b: Expr)
    ensures SizeAll([a]) == Size(a) && SizeAll([a, b]) == Size(a) + Size(b)
  {
    assert [a][1..] == [];
    assert SizeAll([b]) == Size(b) + SizeAll([]) by {
      assert [b][1..] == [];
    }
    assert [a, b][1..] == [b];
  }

  lemma SpacedOfTwo(ops: FloatOps, a: Expr, b: Expr)
    requires Printable(a) && Printable(b)
    ensures Spaced(ops, [a]) == " " + Show(ops, a)
    ensures Spaced(ops, [a, b]) == " " + Show(ops, a) + " " + Show(ops, b)
  {
    assert [a][..0] == [];
    assert [a, b][..1] == [a];
  }

  /** `parenthesize`: an open paren, the name, each tree after a space, a close paren. */
  method Parenthesize(ops: FloatOps, name: seq<char>, exprs: seq<Expr>) returns (s: seq<char>)
    requires forall i :: 0 <= i < |exprs| ==> Printable(exprs[i])
    ensures s == "(" + name + Spaced(ops, exprs) + ")"
    decreases SizeAll(exprs), 2
  {
    s := "(" + name;
    var i := 0;
    while i < |exprs|
      invariant 0 <= i <= |exprs|
      invariant s == "(" + name + Spaced(ops, exprs[..i])
    {
      SizeAllPrefix(exprs, i);
      var child := AstToString(ops, exprs[i]);
      assert exprs[..i + 1][..i] == exprs[..i];
      s := s + " " + child;
      i := i + 1;
    }
    assert exprs[..i] == exprs;
    s := s + ")";
  }

  /** Any one tree of a list is no larger than the whole list. */
  lemma {:induction false} SizeAllPrefix(es: seq<Expr>, i: nat)
    requires i < |es|
    ensures Size(es[i]) <= SizeAll(es)
  {
    if i > 0 {
      SizeAllPrefix(es[1..], i - 1);
    }
  }

  /** The number of open parens minus the number of close parens. */
  function Excess(s: seq<char>): int {
    if s == [] then 0
    else Excess(s[..|s| - 1]) + (if s[|s| - 1] == '(' then 1 else if s[|s| - 1] == ')' then -1 else 0)
  }

  /** Every close paren matches an earlier open paren, and none is left open. */
  predicate Balanced(s: seq<char>) {
    Excess(s) == 0 && forall k :: 0 <= k <= |s| ==> Excess(s[..k]) >= 0
  }

  predicate ParenFree(s: seq<char>) {
    '(' !in s && ')' !in s
  }

  /** Operators and literal texts contain no parens. */
  predicate LeavesParenFree(ops: FloatOps, e: Expr)
    requires Printable(e)
  {
    match e
    case Binary(l, op, r) => ParenFree(op.lexeme) && LeavesParenFree(ops, l) && LeavesParenFree(ops, r)
    case Grouping(x) => LeavesParenFree(ops, x)
    case Literal(lit) => ParenFree(LiteralText(ops, lit))
    case Unary(op, r) => ParenFree(op.lexeme) && LeavesParenFree(ops, r)
  }

  lemma {:induction false} ExcessAppend(a: seq<char>, b: seq<char>)
    ensures Excess(a + b) == Excess(a) + Excess(b)
    decreases |b|
  {
    if b != [] {
      assert (a + b)[..|a + b| - 1] == a + b[..|b| - 1];
      ExcessAppend(a, b[..|b| - 1]);
    } else {
      assert a + b == a;
    }
  }

  lemma {:induction false} ExcessParenFree(s: seq<char>)
    requires ParenFree(s)
    ensures forall k :: 0 <= k <= |s| ==> Excess(s[..k]) == 0
    decreases |s|
  {
    if s != [] {
      var t := s[..|s| - 1];
      assert ParenFree(t) by {
        assert forall c :: c in t ==> c in s;
      }
      ExcessParenFree(t);
      forall k | 0 <= k <= |s| ensures Excess(s[..k]) == 0 {
        if k < |s| {
          assert s[..k] == t[..k];
        } else {
          assert s[..k][..|s| - 1] == t;
          assert s[|s| - 1] in s;
          assert t[..|t|] == t;
        }
      }
    }
  }

  /** Balanced texts and paren-free texts concatenate to balanced texts. */
  lemma BalancedAppend(a: seq<char>, b: seq<char>)
    requires Balanced(a) && Balanced(b)
    ensures Balanced(a + b)
  {
    ExcessAppend(a, b);
    forall k | 0 <= k <= |a + b| ensures Excess((a + b)[..k]) >= 0 {
      if k <= |a| {
        assert (a + b)[..k] == a[..k];
      } else {
        assert (a + b)[..k] == a + b[..k - |a|];
        ExcessAppend(a, b[..k - |a|]);
      }
    }
  }

  lemma BalancedParenFree(s: seq<char>)
    requires ParenFree(s)
    ensures Balanced(s)
  {
    ExcessParenFree(s);
    assert s[..|s|] == s;
  }

  /** Wrapping a balanced text in one pair of parens keeps it balanced. */
  lemma BalancedWrap(s: seq<char>)
    requires Balanced(s)
    ensures Balanced("(" + s + ")")
  {
    var w := "(" + s + ")";
    ExcessAppend("(", s);
    ExcessAppend("(" + s, ")");
    assert Excess("(") == 1 by {
      assert "("[..0] == [];
    }
    assert Excess(")") == -1 by {
      assert ")"[..0] == [];
    }
    forall k | 0 <= k <= |w| ensures Excess(w[..k]) >= 0 {
      if k == 0 {
        assert w[..k] == [];
      } else if k <= |s| + 1 {
        assert w[..k] == "(" + s[..k - 1];
        ExcessAppend("(", s[..k - 1]);
      } else {
        assert w[..k] == w;
      }
    }
  }

  /** A node with one child: `(name child)`. */
  lemma BalancedUnaryNode(name: seq<char>, x: seq<char>)
    requires ParenFree(name) && Balanced(x)
    ensures Balanced("(" + name + " " + x + ")")
  {
    BalancedParenFree(name + " ");
    BalancedAppend(name + " ", x);
    BalancedWrap(name + " " + x);
    assert "(" + name + " " + x + ")" == "(" + (name + " " + x) + ")";
  }

  /** A node with two children: `(name left right)`. */
  lemma BalancedBinaryNode(name: seq<char>, x: seq<char>, y: seq<char>)
    requires ParenFree(name) && Balanced(x) && Balanced(y)
    ensures Balanced("(" + name + " " + x + " " + y + ")")
  {
    var front := name + " ";
    BalancedParenFree(front);
    BalancedAppend(front, x);
    BalancedParenFree(" ");
    BalancedAppend(front + x, " ");
    var inner := front + x + " " + y;
    BalancedAppend(front + x + " ", y);
    BalancedWrap(inner);
    assert "(" + name + " " + x + " " + y + ")" == "(" + inner + ")";
  }

  /**
   * The printed text is balanced: each `parenthesize` adds one open and one
   * close paren around balanced children.
   */
  lemma {:induction false} ShowBalanced(ops: FloatOps, e: Expr)
    requires Printable(e) && LeavesParenFree(ops, e)
    ensures Balanced(Show(ops, e))
  {
    match e
    case Binary(l, op, r) =>
      ShowBalanced(ops, l);
      ShowBalanced(ops, r);
      BalancedBinaryNode(op.lexeme, Show(ops, l), Show(ops, r));
    case Grouping(x) =>
      ShowBalanced(ops, x);
      BalancedUnaryNode("group", Show(ops, x));
      assert Show(ops, e) == "(" + "group" + " " + Show(ops, x) + ")";
    case Literal(lit) =>
      BalancedParenFree(LiteralText(ops, lit));
    case Unary(op, r) =>
      ShowBalanced(ops, r);
      BalancedUnaryNode(op.lexeme, Show(ops, r));
  }

  /** Literals print through Display: nil, true/false, strings without quotes. */
  lemma ShowLiterals(ops: FloatOps, s: seq<char>)
    ensures Show(ops, Literal(Literal.Nil)) == "nil"
    ensures Show(ops, Literal(Boolean(true))) == "true" && Show(ops, Literal(Boolean(false))) == "false"
    ensures Show(ops, Literal(Str(s))) == s
  {
  }
}
