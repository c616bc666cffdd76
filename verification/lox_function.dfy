/**
 * A user function of the tree-walk interpreter (rlox/src/lox_function.rs):
 * a declaration and the environment it closed over. A call binds the
 * parameters in a fresh environment enclosed by the closure, runs the body
 * there, and turns a `return` unwinding into the call's value.
 */
module LoxFunctions {
  import opened Wrappers
  import opened LoxSyntax
  import opened ScopeChain
  import opened LoxEnvironment
  import opened LoxInterpreter

  /**
   * The bindings made by the first `n` (parameter, argument) pairs, each
   * through `define`: a repeated parameter name keeps its first argument.
   */
  function Bind(params: seq<Token>, args: seq<Object>, n: nat): map<seq<char>, Object>
    requires n <= |params| && n <= |args|
  {
    if n == 0 then map[]
    else
      var m := Bind(params, args, n - 1);
      if params[n - 1].lexeme in m then m else m[params[n - 1].lexeme := args[n - 1]]
  }

  /** Exactly the first `n` parameter names are bound. */
  lemma {:induction false} BindNames(params: seq<Token>, args: seq<Object>, n: nat)
    requires n <= |params| && n <= |args|
    ensures forall j :: 0 <= j < n ==> params[j].lexeme in Bind(params, args, n)
    ensures forall k :: k in Bind(params, args, n) ==> exists j :: 0 <= j < n && params[j].lexeme == k
  {
    if n > 0 {
      BindNames(params, args, n - 1);
      var m := Bind(params, args, n - 1);
      assert Bind(params, args, n).Keys == m.Keys + {params[n - 1].lexeme};
    }
  }

  /** Each parameter name is bound to the argument at its first occurrence. */
  lemma {:induction false} BindFirstOccurrence(params: seq<Token>, args: seq<Object>, n: nat, j: nat)
    requires n <= |params| && n <= |args| && j < n
    requires forall k :: 0 <= k < j ==> params[k].lexeme != params[j].lexeme
    ensures params[j].lexeme in Bind(params, args, n) && Bind(params, args, n)[params[j].lexeme] == args[j]
  {
    var m := Bind(params, args, n - 1);
    if j == n - 1 {
      BindNames(params, args, n - 1);
      assert params[j].lexeme !in m;
    } else {
      BindFirstOccurrence(params, args, n - 1, j);
      BindNames(params, args, n - 1);
      assert params[j].lexeme in m;
    }
  }

  /** What a call returns once its body has run. */
  function CallResult(body: Result<(), RuntimeError>): (r: Result<Object, RuntimeError>)
  {
    match body
    case Err(Return(v)) => Ok(v)
    case Err(e) => Err(e)
    case Ok(_) => Ok(Lit(Literal.Nil))
  }

  /** `Err(Return(v))` becomes the value `v`, finishing the body gives nil, other errors pass through. */
  lemma CallResultCases(body: Result<(), RuntimeError>)
    ensures body.Ok? ==> CallResult(body) == Ok(Lit(Literal.Nil))
    ensures body.Err? && body.error.Return? ==> CallResult(body) == Ok(body.error.value)
    ensures body.Err? && body.error.Custom? ==> CallResult(body) == Err(body.error)
    ensures CallResult(body).Err? ==> !body.error.Return?
  {
  }

  function Min(a: nat, b: nat): nat {
    if a < b then a else b
  }

  /** The loop of `call` that defines each parameter in the new environment. */
  method DefineParameters(environment: Environment, params: seq<Token>, args: seq<Object>)
    requires environment.Valid() && environment.values == map[]
    modifies environment
    ensures environment.values == Bind(params, args, Min(|params|, |args|))
    ensures environment.Maps() == [environment.values] + old(environment.Maps())[1..]
  {
    var n := Min(|params|, |args|);
    var i := 0;
    while i < n
      invariant 0 <= i <= n
      invariant environment.values == Bind(params, args, i)
      invariant environment.Maps() == [environment.values] + old(environment.Maps())[1..]
    {
      environment.Define(params[i].lexeme, args[i]);
      i := i + 1;
    }
  }

  class LoxFunction {
    const declaration: StmtFunction
    const closure: Environment

    constructor (declaration: StmtFunction, closure: Environment)
      ensures this.declaration == declaration && this.closure == closure
    {
      this.declaration := declaration;
      this.closure := closure;
    }

    /** `arity`: the number of declared parameters. */
    function Arity(): nat {
      |declaration.params|
    }

    /**
     * `call`: the parameters are bound pairwise with the arguments (the
     * shorter list decides how many), the body runs in that environment, and
     * the closure's own bindings are never added to or removed from.
     */
    method Call(intpr: Interpreter, args: seq<Object>) returns (r: Result<Object, RuntimeError>)
      requires closure.Valid()
      requires forall i :: 0 <= i < |declaration.body| ==> Executable(declaration.body[i])
      modifies intpr, set e | e in closure.chain
      ensures intpr.environment == old(intpr.environment)
      ensures var n := Min(Arity(), |args|);
        var x := ExecSeq(intpr.ops, [Bind(declaration.params, args, n)] + old(closure.Maps()), old(intpr.output), declaration.body);
        r == CallResult(x.result) && closure.Maps() == x.scopes[1..] && intpr.output == x.output
      ensures forall i :: 0 <= i < |closure.chain| ==> closure.Maps()[i].Keys == old(closure.Maps())[i].Keys
    {
      var environment := new Environment(closure);
      DefineParameters(environment, declaration.params, args);
      var result := intpr.ExecuteBlock(declaration.body, environment);
      environment.MapsUnfold();
      r := CallResult(result);
    }
  }
}
