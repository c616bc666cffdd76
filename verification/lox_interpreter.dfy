/**
 * The tree-walk interpreter (rlox/src/interpreter.rs). `Eval` and `Exec`
 * give the meaning of an expression and a statement on a chain of scopes
 * (innermost first) and a list of printed lines; the `Interpreter` class
 * evaluates in place on shared `Environment` objects and is proved to do
 * exactly what they say.
 *
 * The interpreter handles the expression variants Binary, Grouping,
 * Literal, Unary, Variable and Assign, and the statement variants
 * Expression, Print, Var and Block; `Evaluable` and `Executable` name
 * those, together with the operator kinds its matches do not reach
 * `unreachable!()` on.
 */
module LoxInterpreter {
  import opened Wrappers
  import opened Float
  import opened LoxSyntax
  import opened ScopeChain
  import opened LoxEnvironment

  /** Bindings, innermost scope first. */
  type Scopes = seq<map<seq<char>, Object>>

  /** Operators whose operands must both be numbers. */
  const NumericOperators: set<TokenTy> := {Minus, Star, Slash, Greater, GreaterEqual, Less, LessEqual}

  const BinaryOperators: set<TokenTy> := NumericOperators + {Plus, EqualEqual, BangEqual}

  predicate Evaluable(e: Expr) {
    match e
    case Binary(l, op, r) => op.ty in BinaryOperators && Evaluable(l) && Evaluable(r)
    case Grouping(x) => Evaluable(x)
    case Literal(_) => true
    case Unary(op, r) => op.ty in {Minus, Bang} && Evaluable(r)
    case Variable(_) => true
    case Assign(_, v) => Evaluable(v)
    case Call(_, _, _) => false
    case Logical(_, _, _) => false
  }

  predicate Executable(s: Stmt) {
    match s
    case Expression(e) => Evaluable(e)
    case Print(e) => Evaluable(e)
    case Var(_, init) => init.Some? ==> Evaluable(init.value)
    case Block(ss) => forall i :: 0 <= i < |ss| ==> Executable(ss[i])
    case If(_, _, _) => false
    case While(_, _) => false
    case Function(_) => false
    case Return(_, _) => false
  }

  /** `is_truthy`: only nil and false are false. */
  function IsTruthy(o: Object): (b: bool)
    ensures !b <==> o == Lit(Literal.Nil) || o == Lit(Boolean(false))
  {
    match o.lit
    case Nil => false
    case Boolean(b) => b
    case _ => true
  }

  /** `is_equal`: the derived equality, with numbers compared as f64. */
  function IsEqual(ops: FloatOps, a: Object, b: Object): (eq: bool)
    ensures eq ==> (a.lit.Number? <==> b.lit.Number?) && (a.lit.Str? <==> b.lit.Str?)
    ensures eq ==> (a.lit.Boolean? <==> b.lit.Boolean?) && (a.lit.Nil? <==> b.lit.Nil?)
    ensures !a.lit.Number? ==> (eq <==> a == b)
  {
    match (a.lit, b.lit)
    case (Number(x), Number(y)) => ops.eq(x, y)
    case (Str(x), Str(y)) => x == y
    case (Boolean(x), Boolean(y)) => x == y
    case (Nil, Nil) => true
    case _ => false
  }

  /** `check_number_operand` */
  function CheckNumberOperand(op: Token, o: Object): (r: Result<F64, RuntimeError>)
    ensures r.Ok? <==> o.lit.Number?
    ensures r.Ok? ==> r.value == o.lit.n
    ensures r.Err? ==> r.error == Custom(op, "Operand must be a number.")
  {
    if o.lit.Number? then Ok(o.lit.n) else Err(Custom(op, "Operand must be a number."))
  }

  /** `check_number_operands` */
  function CheckNumberOperands(op: Token, l: Object, r: Object): (res: Result<(F64, F64), RuntimeError>)
    ensures res.Ok? <==> l.lit.Number? && r.lit.Number?
    ensures res.Ok? ==> res.value == (l.lit.n, r.lit.n)
    ensures res.Err? ==> res.error == Custom(op, "Operands must be numbers.")
  {
    if l.lit.Number? && r.lit.Number? then Ok((l.lit.n, r.lit.n))
    else Err(Custom(op, "Operands must be numbers."))
  }

  /** Arithmetic and comparison on two numbers. */
  function NumericValue(ops: FloatOps, ty: TokenTy, a: F64, b: F64): Literal
    requires ty in NumericOperators
  {
    match ty
    case Minus => Literal.Number(ops.sub(a, b))
    case Star => Literal.Number(ops.mul(a, b))
    case Slash => Literal.Number(ops.div(a, b))
    case Greater => Boolean(ops.gt(a, b))
    case GreaterEqual => Boolean(ops.ge(a, b))
    case Less => Boolean(ops.lt(a, b))
    case LessEqual => Boolean(ops.le(a, b))
  }

  /** A binary operator applied to two evaluated operands. */
  function BinaryValue(ops: FloatOps, op: Token, l: Object, r: Object): (res: Result<Object, RuntimeError>)
    requires op.ty in BinaryOperators
    ensures op.ty in NumericOperators ==>
      (res.Ok? <==> l.lit.Number? && r.lit.Number?) &&
      (res.Err? ==> res.error == Custom(op, "Operands must be numbers."))
    ensures op.ty == Plus ==>
      (res.Ok? <==> (l.lit.Number? && r.lit.Number?) || (l.lit.Str? && r.lit.Str?)) &&
      (res.Err? ==> res.error == Custom(op, "Operands must be two numbers or two strings."))
    ensures op.ty == Plus && l.lit.Str? && r.lit.Str? ==> res == Ok(Lit(Str(l.lit.s + r.lit.s)))
    ensures op.ty in {EqualEqual, BangEqual} ==> res.Ok? && res.value.lit.Boolean?
    ensures op.ty in {Greater, GreaterEqual, Less, LessEqual} && res.Ok? ==> res.value.lit.Boolean?
    ensures op.ty in {Plus, Minus, Star, Slash} && res.Ok? ==> res.value.lit.Number? || res.value.lit.Str?
    ensures l.lit.Number? && r.lit.Number? ==>
      var a, b := l.lit.n, r.lit.n;
      (op.ty == Plus ==> res == Ok(Lit(Literal.Number(ops.add(a, b))))) &&
      (op.ty == Minus ==> res == Ok(Lit(Literal.Number(ops.sub(a, b))))) &&
      (op.ty == Star ==> res == Ok(Lit(Literal.Number(ops.mul(a, b))))) &&
      (op.ty == Slash ==> res == Ok(Lit(Literal.Number(ops.div(a, b))))) &&
      (op.ty == Greater ==> res == Ok(Lit(Boolean(ops.gt(a, b))))) &&
      (op.ty == GreaterEqual ==> res == Ok(Lit(Boolean(ops.ge(a, b))))) &&
      (op.ty == Less ==> res == Ok(Lit(Boolean(ops.lt(a, b))))) &&
      (op.ty == LessEqual ==> res == Ok(Lit(Boolean(ops.le(a, b)))))
    ensures op.ty == EqualEqual ==> res == Ok(Lit(Boolean(IsEqual(ops, l, r))))
    ensures op.ty == BangEqual ==> res == Ok(Lit(Boolean(!IsEqual(ops, l, r))))
  {
    if op.ty == Plus then
      match CheckNumberOperands(op, l, r)
      case Ok((a, b)) => Ok(Lit(Literal.Number(ops.add(a, b))))
      case Err(_) =>
        if l.lit.Str? && r.lit.Str? then Ok(Lit(Str(l.lit.s + r.lit.s)))
        else Err(Custom(op, "Operands must be two numbers or two strings."))
    else if op.ty == EqualEqual then Ok(Lit(Boolean(IsEqual(ops, l, r))))
    else if op.ty == BangEqual then Ok(Lit(Boolean(!IsEqual(ops, l, r))))
    else
      match CheckNumberOperands(op, l, r)
      case Ok((a, b)) => Ok(Lit(NumericValue(ops, op.ty, a, b)))
      case Err(e) => Err(e)
  }

  /** A unary operator applied to an evaluated operand. */
  function UnaryValue(ops: FloatOps, op: Token, o: Object): (res: Result<Object, RuntimeError>)
    requires op.ty in {Minus, Bang}
    ensures op.ty == Minus ==> (res.Ok? <==> o.lit.Number?)
    ensures op.ty == Minus && res.Err? ==> res.error == Custom(op, "Operand must be a number.")
    ensures op.ty == Minus && o.lit.Number? ==> res == Ok(Lit(Literal.Number(ops.neg(o.lit.n))))
    ensures op.ty == Bang ==> res == Ok(Lit(Boolean(o == Lit(Literal.Nil) || o == Lit(Boolean(false)))))
  {
    if op.ty == Minus then
      match CheckNumberOperand(op, o)
      case Ok(n) => Ok(Lit(Literal.Number(ops.neg(n))))
      case Err(e) => Err(e)
    else Ok(Lit(Boolean(!IsTruthy(o))))
  }

  datatype Evaluated = Evaluated(result: Result<Object, RuntimeError>, scopes: Scopes)

  datatype Executed = Executed(result: Result<(), RuntimeError>, scopes: Scopes, output: seq<seq<char>>)

  /**
   * `evaluate`: operands left to right, stopping at the first error.
   * Evaluation never adds or removes a binding anywhere.
   */
  function Eval(ops: FloatOps, ms: Scopes, e: Expr): (r: Evaluated)
    requires Evaluable(e)
    ensures |r.scopes| == |ms|
    ensures forall i :: 0 <= i < |ms| ==> r.scopes[i].Keys == ms[i].Keys
    decreases e
  {
    match e
    case Binary(l, op, rt) =>
      var left := Eval(ops, ms, l);
      if left.result.Err? then left
      else
        var right := Eval(ops, left.scopes, rt);
        if right.result.Err? then right
        else Evaluated(BinaryValue(ops, op, left.result.value, right.result.value), right.scopes)
    case Grouping(x) => Eval(ops, ms, x)
    case Literal(lit) => Evaluated(Ok(Lit(lit)), ms)
    case Unary(op, rt) =>
      var right := Eval(ops, ms, rt);
      if right.result.Err? then right
      else Evaluated(UnaryValue(ops, op, right.result.value), right.scopes)
    case Variable(name) => Evaluated(LookupResult(ms, name), ms)
    case Assign(name, v) =>
      var value := Eval(ops, ms, v);
      if value.result.Err? then value
      else if Find(value.scopes, name.lexeme).None? then Evaluated(Err(Undefined(name)), value.scopes)
      else
        UpdateKeepsNames(value.scopes, name.lexeme, value.result.value);
        Evaluated(value.result, Update(value.scopes, name.lexeme, value.result.value))
  }

  /** `define` on the innermost scope: binds the name unless it is bound there. */
  function DefineInnermost(ms: Scopes, name: seq<char>, v: Object): (r: Scopes)
    requires |ms| > 0
    ensures |r| == |ms| && r[1..] == ms[1..]
    ensures name in r[0] && r[0].Keys == ms[0].Keys + {name}
    ensures name in ms[0] ==> r == ms
    ensures name !in ms[0] ==> r[0][name] == v
  {
    if name in ms[0] then ms else ms[0 := ms[0][name := v]]
  }

  /** The text `println!("{value}")` writes for an object. */
  function Display(ops: FloatOps, o: Object): seq<char> {
    LiteralText(ops, o.lit)
  }

  /**
   * `execute`. A statement may add bindings to the innermost scope only
   * (a `var`), never touches the names of the enclosing ones, and only
   * appends to the output.
   */
  function Exec(ops: FloatOps, ms: Scopes, out: seq<seq<char>>, s: Stmt): (r: Executed)
    requires Executable(s) && |ms| > 0
    ensures |r.scopes| == |ms|
    ensures ms[0].Keys <= r.scopes[0].Keys
    ensures forall i :: 1 <= i < |ms| ==> r.scopes[i].Keys == ms[i].Keys
    ensures !s.Var? ==> r.scopes[0].Keys == ms[0].Keys
    ensures out <= r.output
    decreases s
  {
    match s
    case Expression(e) =>
      var v := Eval(ops, ms, e);
      Executed(if v.result.Err? then Err(v.result.error) else Ok(()), v.scopes, out)
    case Print(e) =>
      var v := Eval(ops, ms, e);
      if v.result.Err? then Executed(Err(v.result.error), v.scopes, out)
      else Executed(Ok(()), v.scopes, out + [Display(ops, v.result.value)])
    case Var(name, init) =>
      var v := if init.None? then Evaluated(Ok(Lit(Literal.Nil)), ms) else Eval(ops, ms, init.value);
      if v.result.Err? then Executed(Err(v.result.error), v.scopes, out)
      else Executed(Ok(()), DefineInnermost(v.scopes, name.lexeme, v.result.value), out)
    case Block(ss) =>
      var inner := ExecSeq(ops, [map[]] + ms, out, ss);
      Executed(inner.result, inner.scopes[1..], inner.output)
  }

  /**
   * Statements in order on the same scopes, stopping at the first error:
   * the loop of `interpret` and of `execute_block`.
   */
  function ExecSeq(ops: FloatOps, ms: Scopes, out: seq<seq<char>>, ss: seq<Stmt>): (r: Executed)
    requires |ms| > 0 && forall i :: 0 <= i < |ss| ==> Executable(ss[i])
    ensures |r.scopes| == |ms|
    ensures ms[0].Keys <= r.scopes[0].Keys
    ensures forall i :: 1 <= i < |ms| ==> r.scopes[i].Keys == ms[i].Keys
    ensures out <= r.output
    decreases ss
  {
    if ss == [] then Executed(Ok(()), ms, out)
    else
      var first := Exec(ops, ms, out, ss[0]);
      if first.result.Err? then first
      else ExecSeq(ops, first.scopes, first.output, ss[1..])
  }

  /** Running two lists of statements one after the other is running their concatenation. */
  lemma {:induction false} ExecSeqAppend(ops: FloatOps, ms: Scopes, out: seq<seq<char>>, ss: seq<Stmt>, ts: seq<Stmt>)
    requires |ms| > 0
    requires forall i :: 0 <= i < |ss| ==> Executable(ss[i])
    requires forall i :: 0 <= i < |ts| ==> Executable(ts[i])
    ensures var first := ExecSeq(ops, ms, out, ss);
      ExecSeq(ops, ms, out, ss + ts) ==
        if first.result.Err? then first else ExecSeq(ops, first.scopes, first.output, ts)
    decreases ss
  {
    if ss != [] {
      assert (ss + ts)[0] == ss[0];
      assert (ss + ts)[1..] == ss[1..] + ts;
      var first := Exec(ops, ms, out, ss[0]);
      if first.result.Ok? {
        ExecSeqAppend(ops, first.scopes, first.output, ss[1..], ts);
      }
    } else {
      assert ss + ts == ts;
    }
  }

  /**
   * An assignment evaluates to the assigned value, fails on a name bound
   * nowhere, and when it succeeds is seen by the next read of the name.
   */
  lemma AssignThenRead(ops: FloatOps, ms: Scopes, name: Token, v: Expr)
    requires Evaluable(v)
    ensures var a, value := Eval(ops, ms, Assign(name, v)), Eval(ops, ms, v);
      value.result.Ok? && Find(value.scopes, name.lexeme).None? ==> a.result == Err(Undefined(name))
    ensures var a, value := Eval(ops, ms, Assign(name, v)), Eval(ops, ms, v);
      a.result.Ok? ==> a.result == value.result
    ensures var a := Eval(ops, ms, Assign(name, v));
      a.result.Ok? ==> Eval(ops, a.scopes, Variable(name)).result == a.result
  {
    var value := Eval(ops, ms, v);
    if value.result.Ok? && Find(value.scopes, name.lexeme).Some? {
      var after := Update(value.scopes, name.lexeme, value.result.value);
      assert Eval(ops, ms, Assign(name, v)) == Evaluated(value.result, after);
      LookupAfterUpdate(value.scopes, name.lexeme, value.result.value);
      assert Eval(ops, after, Variable(name)).result == LookupResult(after, name);
    }
  }

  /** A binary operator whose left operand fails never evaluates its right one. */
  lemma LeftOperandFirst(ops: FloatOps, ms: Scopes, l: Expr, op: Token, r: Expr)
    requires Evaluable(Binary(l, op, r)) && Eval(ops, ms, l).result.Err?
    ensures Eval(ops, ms, Binary(l, op, r)) == Eval(ops, ms, l)
  {
  }

  /** `!=` is the negation of `==`. */
  lemma NotEqualNegatesEqual(ops: FloatOps, eq: Token, ne: Token, l: Object, r: Object)
    requires eq.ty == EqualEqual && ne.ty == BangEqual
    ensures BinaryValue(ops, ne, l, r).value.lit.b == !BinaryValue(ops, eq, l, r).value.lit.b
  {
  }

  /**
   * `var` defines the name in the innermost scope, and only if it is not
   * already bound there: a second `var` of the same name in the same scope
   * keeps the first value (`or_insert`).
   */
  lemma VarKeepsExistingBinding(ops: FloatOps, ms: Scopes, out: seq<seq<char>>, name: Token, init: Option<Expr>)
    requires |ms| > 0 && Executable(Stmt.Var(name, init))
    ensures var x := Exec(ops, ms, out, Stmt.Var(name, init));
      x.result.Ok? ==> name.lexeme in x.scopes[0] && Lookup(x.scopes, name.lexeme).Some?
    ensures var x := Exec(ops, ms, out, Stmt.Var(name, init));
      x.result.Ok? && init.None? && name.lexeme in ms[0] ==> x.scopes == ms
    ensures var x := Exec(ops, ms, out, Stmt.Var(name, init));
      x.result.Ok? && init.None? && name.lexeme !in ms[0] ==> x.scopes[0][name.lexeme] == Lit(Literal.Nil)
  {
    var x := Exec(ops, ms, out, Stmt.Var(name, init));
    if x.result.Ok? {
      assert name.lexeme in x.scopes[0];
      assert Find(x.scopes, name.lexeme) == Some(0);
    }
  }

  /** A block's own bindings are gone when it ends: the scopes keep their names. */
  lemma BlockKeepsNames(ops: FloatOps, ms: Scopes, out: seq<seq<char>>, ss: seq<Stmt>)
    requires |ms| > 0 && Executable(Block(ss))
    ensures var x := Exec(ops, ms, out, Block(ss));
      forall i :: 0 <= i < |ms| ==> x.scopes[i].Keys == ms[i].Keys
  {
  }

  class Interpreter {
    var environment: Environment
    const ops: FloatOps
    /** The lines `print` has written, in order. */
    var output: seq<seq<char>>

    /** `Interpreter::default`: a fresh, empty global environment. */
    constructor (ops: FloatOps)
      ensures environment.Valid() && environment.Maps() == [map[]] && fresh(environment)
      ensures this.ops == ops && output == []
    {
      environment := new Environment.Global();
      this.ops := ops;
      output := [];
    }

    /** `interpret`: the statements in order, stopping at the first error. */
    method Interpret(statements: seq<Stmt>) returns (r: Result<(), RuntimeError>)
      requires environment.Valid() && forall i :: 0 <= i < |statements| ==> Executable(statements[i])
      modifies this, set e | e in environment.chain
      ensures environment == old(environment)
      ensures var x := ExecSeq(ops, old(environment.Maps()), old(output), statements);
        r == x.result && environment.Maps() == x.scopes && output == x.output
    {
      var i := 0;
      while i < |statements|
        invariant 0 <= i <= |statements|
        invariant environment == old(environment)
        invariant ExecSeq(ops, old(environment.Maps()), old(output), statements)
               == ExecSeq(ops, environment.Maps(), output, statements[i..])
      {
        assert statements[i..][1..] == statements[i + 1..];
        r := Execute(statements[i]);
        if r.Err? {
          return;
        }
        i := i + 1;
      }
      r := Ok(());
    }

    /** `execute` */
    method Execute(stmt: Stmt) returns (r: Result<(), RuntimeError>)
      requires environment.Valid() && Executable(stmt)
      modifies this, set e | e in environment.chain
      ensures environment == old(environment)
      ensures var x := Exec(ops, old(environment.Maps()), old(output), stmt);
        r == x.result && environment.Maps() == x.scopes && output == x.output
      decreases stmt, 1
    {
      match stmt
      case Expression(e) =>
        var v := Evaluate(e);
        r := if v.Err? then Err(v.error) else Ok(());
      case Print(e) =>
        var v := Evaluate(e);
        if v.Err? {
          r := Err(v.error);
        } else {
          output := output + [Display(ops, v.value)];
          r := Ok(());
        }
      case Var(name, init) =>
        r := ExecuteVar(name, init);
      case Block(ss) =>
        var env := new Environment(environment);
        r := ExecuteBlock(ss, env);
        env.MapsUnfold();
    }

    /** The `var` statement: evaluate the initializer (nil by default), then `define`. */
    method ExecuteVar(name: Token, init: Option<Expr>) returns (r: Result<(), RuntimeError>)
      requires environment.Valid() && Executable(Stmt.Var(name, init))
      modifies set e | e in environment.chain
      ensures var x := Exec(ops, old(environment.Maps()), output, Stmt.Var(name, init));
        r == x.result && environment.Maps() == x.scopes
    {
      var v: Result<Object, RuntimeError> := Ok(Lit(Literal.Nil));
      if init.Some? {
        v := Evaluate(init.value);
      }
      if v.Err? {
        r := Err(v.error);
      } else {
        environment.Define(name.lexeme, v.value);
        r := Ok(());
      }
    }

    /**
     * `execute_block`: runs the statements in `env`, then puts the previous
     * environment back, on success and on error alike.
     */
    method ExecuteBlock(statements: seq<Stmt>, env: Environment) returns (r: Result<(), RuntimeError>)
      requires env.Valid() && forall i :: 0 <= i < |statements| ==> Executable(statements[i])
      modifies this, set e | e in env.chain
      ensures environment == old(environment)
      ensures var x := ExecSeq(ops, old(env.Maps()), old(output), statements);
        r == x.result && env.Maps() == x.scopes && output == x.output
      decreases statements, 2
    {
      var previous := environment;
      environment := env;
      var i := 0;
      while i < |statements|
        invariant 0 <= i <= |statements|
        invariant environment == env
        invariant ExecSeq(ops, old(env.Maps()), old(output), statements)
               == ExecSeq(ops, env.Maps(), output, statements[i..])
      {
        assert statements[i..][1..] == statements[i + 1..];
        r := Execute(statements[i]);
        if r.Err? {
          environment := previous;
          return;
        }
        i := i + 1;
      }
      environment := previous;
      r := Ok(());
    }

    /** `evaluate` */
    method Evaluate(expr: Expr) returns (r: Result<Object, RuntimeError>)
      requires environment.Valid() && Evaluable(expr)
      modifies set e | e in environment.chain
      ensures var v := Eval(ops, old(environment.Maps()), expr);
        r == v.result && environment.Maps() == v.scopes
      decreases expr
    {
      match expr
      case Binary(l, op, rt) =>
        r := EvaluateBinary(l, op, rt);
      case Grouping(x) =>
        r := Evaluate(x);
      case Literal(lit) =>
        r := Ok(Lit(lit));
      case Unary(op, rt) =>
        var right := Evaluate(rt);
        r := if right.Err? then right else UnaryValue(ops, op, right.value);
      case Variable(name) =>
        r := environment.Get(name);
      case Assign(name, v) =>
        r := EvaluateAssign(name, v);
    }

    method EvaluateBinary(l: Expr, op: Token, rt: Expr) returns (r: Result<Object, RuntimeError>)
      requires environment.Valid() && Evaluable(Binary(l, op, rt))
      modifies set e | e in environment.chain
      ensures var v := Eval(ops, old(environment.Maps()), Binary(l, op, rt));
        r == v.result && environment.Maps() == v.scopes
      decreases Binary(l, op, rt), 0
    {
      var left := Evaluate(l);
      if left.Err? {
        return left;
      }
      var right := Evaluate(rt);
      if right.Err? {
        return right;
      }
      r := BinaryValue(ops, op, left.value, right.value);
    }

    method EvaluateAssign(name: Token, v: Expr) returns (r: Result<Object, RuntimeError>)
      requires environment.Valid() && Evaluable(Assign(name, v))
      modifies set e | e in environment.chain
      ensures var x := Eval(ops, old(environment.Maps()), Assign(name, v));
        r == x.result && environment.Maps() == x.scopes
      decreases Assign(name, v), 0
    {
      var value := Evaluate(v);
      if value.Err? {
        return value;
      }
      var stored := environment.Assign(name, value.value);
      r := if stored.Err? then Err(stored.error) else value;
    }
  }
}
