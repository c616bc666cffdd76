/**
 * The static resolver of the tree-walk interpreter (rlox/src/resolver.rs).
 * It walks the tree with a stack of block scopes (innermost last), each
 * mapping a name to whether its declaration is finished, reports misuse,
 * and records for each variable read or assignment how many scopes out its
 * binding is. Globals live in no scope and are left unresolved.
 */
module LoxResolver {
  import opened Wrappers
  import opened LoxSyntax
  import opened ScopeChain
  import LoxEnvironment

  datatype ResolveError = Custom(token: Token, message: seq<char>) | Multiple(errors: seq<ResolveError>)

  datatype FunctionType = None | Function

  /** A block scope: each name, and whether its declaration is finished. */
  type Scope = map<seq<char>, bool>

  const AlreadyDeclared := "Already a variable with this name in this scope."
  const OwnInitializer := "Can't read local variable in its own initializer."
  const TopLevelReturn := "Can't return from top-level code."

  /**
   * How many scopes out from the innermost the nearest one binding `name`
   * is (the stack read from its top).
   */
  function Distance(scopes: seq<Scope>, name: seq<char>): Option<nat> {
    Find(Reverse(scopes), name)
  }

  /** The distance names the nearest scope holding the name; none nearer holds it. */
  lemma DistanceIsNearest(scopes: seq<Scope>, name: seq<char>)
    ensures Distance(scopes, name).Some? ==>
      var d := Distance(scopes, name).value;
      d < |scopes| && name in scopes[|scopes| - 1 - d] &&
      forall j :: |scopes| - 1 - d < j < |scopes| ==> name !in scopes[j]
    ensures Distance(scopes, name).None? <==> forall j :: 0 <= j < |scopes| ==> name !in scopes[j]
  {
    var r := Reverse(scopes);
    if Distance(scopes, name).Some? {
      var d := Distance(scopes, name).value;
      forall j | |scopes| - 1 - d < j < |scopes| ensures name !in scopes[j] {
        assert scopes[j] == r[|scopes| - 1 - j];
      }
    }
    if forall j :: 0 <= j < |r| ==> name !in r[j] {
      forall j | 0 <= j < |scopes| ensures name !in scopes[j] {
        assert scopes[j] == r[|scopes| - 1 - j];
      }
    }
  }

  /**
   * When the interpreter's environments, innermost first, hold the same
   * names as the resolver's scopes, with the globals outermost, reading at
   * the resolved distance finds the binding that `get` finds.
   */
  lemma ResolvedDistanceMatchesGet(scopes: seq<Scope>, env: LoxEnvironment.Environment, name: Token)
    requires env.Valid() && |env.Maps()| == |scopes| + 1
    requires forall i :: 0 <= i < |scopes| ==> env.Maps()[i].Keys == scopes[|scopes| - 1 - i].Keys
    requires Distance(scopes, name.lexeme).Some?
    ensures var d := Distance(scopes, name.lexeme).value;
      d < |env.chain| && name.lexeme in env.chain[d].values && env.GetAt(d, name) == env.Get(name)
  {
    var ms := env.Maps();
    var r := Reverse(scopes);
    FindSameNames(r, ms[..|scopes|], name.lexeme);
    FindInPrefix(ms, |scopes|, name.lexeme);
    LoxEnvironment.GetAtNearest(env, name);
  }

  /** Only the innermost scope may change, and it only gains names. */
  predicate ScopesGrow(before: seq<Scope>, after: seq<Scope>) {
    && |after| == |before|
    && (|before| > 0 ==>
          && after[..|after| - 1] == before[..|before| - 1]
          && before[|before| - 1].Keys <= after[|after| - 1].Keys)
  }

  /** The innermost scope after declaring and defining each parameter in order. */
  function ParamScope(params: seq<Token>): Scope {
    if params == [] then map[]
    else ParamScope(params[..|params| - 1])[params[|params| - 1].lexeme := true]
  }

  /** One error for each parameter whose name an earlier parameter already took. */
  function ParamErrors(params: seq<Token>): seq<ResolveError> {
    if params == [] then []
    else
      var earlier := params[..|params| - 1];
      var p := params[|params| - 1];
      ParamErrors(earlier) + (if p.lexeme in ParamScope(earlier) then [Custom(p, AlreadyDeclared)] else [])
  }

  /** The parameter scope binds exactly the parameter names, all finished. */
  lemma {:induction false} ParamScopeNames(params: seq<Token>)
    ensures forall i :: 0 <= i < |params| ==> params[i].lexeme in ParamScope(params)
    ensures forall k :: k in ParamScope(params) ==> ParamScope(params)[k]
    ensures forall k :: k in ParamScope(params) ==> exists i :: 0 <= i < |params| && params[i].lexeme == k
  {
    if params != [] {
      var earlier := params[..|params| - 1];
      ParamScopeNames(earlier);
      forall k | k in ParamScope(params) ensures exists i :: 0 <= i < |params| && params[i].lexeme == k {
        if k != params[|params| - 1].lexeme {
          assert k in ParamScope(earlier);
          var i :| 0 <= i < |earlier| && earlier[i].lexeme == k;
          assert params[i] == earlier[i];
        }
      }
    }
  }

  /** Distinct parameter names give no error; a repeated one gives at least one. */
  lemma {:induction false} ParamErrorsIffRepeated(params: seq<Token>)
    ensures ParamErrors(params) == [] <==>
      forall i, j :: 0 <= i < j < |params| ==> params[i].lexeme != params[j].lexeme
  {
    if params != [] {
      var earlier := params[..|params| - 1];
      var last := params[|params| - 1];
      ParamErrorsIffRepeated(earlier);
      ParamScopeNames(earlier);
      if last.lexeme in ParamScope(earlier) {
        var i :| 0 <= i < |earlier| && earlier[i].lexeme == last.lexeme;
        assert params[i].lexeme == params[|params| - 1].lexeme;
      } else if ParamErrors(earlier) == [] {
        forall i, j | 0 <= i < j < |params| ensures params[i].lexeme != params[j].lexeme {
          if j < |params| - 1 {
            assert params[i] == earlier[i] && params[j] == earlier[j];
          } else {
            assert params[i] == earlier[i];
          }
        }
      } else {
        var i, j :| 0 <= i < j < |earlier| && earlier[i].lexeme == earlier[j].lexeme;
        assert params[i] == earlier[i] && params[j] == earlier[j];
      }
    }
  }

  class Resolver {
    var scopes: seq<Scope>
    var errors: seq<ResolveError>
    var functionTy: FunctionType
    /** The `(expression, distance)` pairs passed to `Interpreter::resolve`, in order. */
    var resolutions: seq<(Expr, nat)>

    /** `Resolver::new`: no scope, no error, outside any function. */
    constructor ()
      ensures scopes == [] && errors == [] && functionTy == FunctionType.None && resolutions == []
    {
      scopes := [];
      errors := [];
      functionTy := FunctionType.None;
      resolutions := [];
    }

    /** `resolve`: all statements, then success exactly when nothing was reported. */
    method Resolve(statements: seq<Stmt>) returns (r: Result<(), ResolveError>)
      modifies this
      ensures r.Ok? <==> errors == []
      ensures r.Err? ==> r.error == Multiple(errors)
      ensures old(errors) <= errors && ScopesGrow(old(scopes), scopes) && functionTy == old(functionTy)
    {
      ResolveBlock(statements);
      r := if errors == [] then Ok(()) else Err(Multiple(errors));
    }

    /** `resolve_block`: each statement in order. */
    method ResolveBlock(statements: seq<Stmt>)
      modifies this
      ensures ScopesGrow(old(scopes), scopes) && functionTy == old(functionTy)
      ensures old(errors) <= errors && old(resolutions) <= resolutions
      decreases statements
    {
      var i := 0;
      while i < |statements|
        invariant 0 <= i <= |statements|
        invariant ScopesGrow(old(scopes), scopes) && functionTy == old(functionTy)
        invariant old(errors) <= errors && old(resolutions) <= resolutions
      {
        ResolveStatement(statements[i]);
        i := i + 1;
      }
    }

    method BeginScope()
      modifies this
      ensures scopes == old(scopes) + [map[]]
      ensures errors == old(errors) && functionTy == old(functionTy) && resolutions == old(resolutions)
    {
      scopes := scopes + [map[]];
    }

    /** `end_scope`: `Vec::pop`, which does nothing on an empty stack. */
    method EndScope()
      modifies this
      ensures scopes == if old(scopes) == [] then [] else old(scopes)[..|old(scopes)| - 1]
      ensures errors == old(errors) && functionTy == old(functionTy) && resolutions == old(resolutions)
    {
      if scopes != [] {
        scopes := scopes[..|scopes| - 1];
      }
    }

    /** `resolve_statement` */
    method ResolveStatement(stmt: Stmt)
      modifies this
      ensures ScopesGrow(old(scopes), scopes) && functionTy == old(functionTy)
      ensures old(errors) <= errors && old(resolutions) <= resolutions
      ensures stmt.Block? ==> scopes == old(scopes)
      ensures stmt.Return? && old(functionTy) == FunctionType.None ==>
        |errors| > |old(errors)| && errors[|old(errors)|] == Custom(stmt.keyword, TopLevelReturn)
      ensures stmt.Var? && |scopes| > 0 ==>
        stmt.name.lexeme in scopes[|scopes| - 1] && scopes[|scopes| - 1][stmt.name.lexeme]
      decreases stmt
    {
      match stmt
      case Block(ss) =>
        BeginScope();
        ResolveBlock(ss);
        EndScope();
      case Var(name, init) =>
        ResolveVar(name, init);
      case Function(decl) =>
        Declare(decl.name);
        Define(decl.name);
        ResolveFunction(decl, FunctionType.Function);
      case Expression(e) =>
        ResolveExpression(e);
      case If(cond, thenBranch, elseBranch) =>
        ResolveExpression(cond);
        ResolveStatement(thenBranch);
        if elseBranch.Some? {
          ResolveStatement(elseBranch.value);
        }
      case Print(e) =>
        ResolveExpression(e);
      case Return(keyword, value) =>
        if functionTy == FunctionType.None {
          errors := errors + [Custom(keyword, TopLevelReturn)];
        }
        ResolveExpression(value);
      case While(cond, body) =>
        ResolveExpression(cond);
        ResolveStatement(body);
    }

    /**
     * The `var` statement: declared (unfinished) before the initializer is
     * resolved, defined (finished) after, so a local initializer that reads
     * its own variable is reported.
     */
    method ResolveVar(name: Token, init: Option<Expr>)
      modifies this
      ensures ScopesGrow(old(scopes), scopes) && functionTy == old(functionTy)
      ensures old(errors) <= errors && old(resolutions) <= resolutions
      ensures |scopes| > 0 ==> name.lexeme in scopes[|scopes| - 1] && scopes[|scopes| - 1][name.lexeme]
      ensures |old(scopes)| > 0 && init.Some? && init.value.Variable? && init.value.name.lexeme == name.lexeme ==>
        Custom(init.value.name, OwnInitializer) in errors
      decreases Stmt.Var(name, init)
    {
      Declare(name);
      if init.Some? {
        ResolveExpression(init.value);
      }
      Define(name);
    }

    /**
     * `resolve_function`: a scope holding the parameters, inside the given
     * function type; both are put back afterwards. The body is not resolved.
     */
    method ResolveFunction(decl: StmtFunction, ty: FunctionType)
      modifies this
      ensures scopes == old(scopes) && functionTy == old(functionTy) && resolutions == old(resolutions)
      ensures errors == old(errors) + ParamErrors(decl.params)
    {
      var enclosing := functionTy;
      functionTy := ty;
      BeginScope();
      var params := decl.params;
      var i := 0;
      while i < |params|
        invariant 0 <= i <= |params|
        invariant scopes == old(scopes) + [ParamScope(params[..i])]
        invariant errors == old(errors) + ParamErrors(params[..i])
        invariant resolutions == old(resolutions)
      {
        assert params[..i + 1][..i] == params[..i];
        ghost var before := ParamScope(params[..i]);
        Declare(params[i]);
        Define(params[i]);
        assert before[params[i].lexeme := false][params[i].lexeme := true] == before[params[i].lexeme := true];
        i := i + 1;
      }
      assert params[..i] == params;
      EndScope();
      functionTy := enclosing;
    }

    /** `declare`: marks the name unfinished in the innermost scope; a name already there is reported. */
    method Declare(name: Token)
      modifies this
      ensures old(scopes) == [] ==> scopes == [] && errors == old(errors)
      ensures old(scopes) != [] ==>
        var last := old(scopes)[|old(scopes)| - 1];
        && scopes == old(scopes)[|old(scopes)| - 1 := last[name.lexeme := false]]
        && errors == old(errors) + (if name.lexeme in last then [Custom(name, AlreadyDeclared)] else [])
      ensures functionTy == old(functionTy) && resolutions == old(resolutions)
    {
      if scopes != [] {
        var last := scopes[|scopes| - 1];
        scopes := scopes[|scopes| - 1 := last[name.lexeme := false]];
        if name.lexeme in last {
          errors := errors + [Custom(name, AlreadyDeclared)];
        }
      }
    }

    /** `define`: marks a declared name finished in the innermost scope. */
    method Define(name: Token)
      requires scopes != [] ==> name.lexeme in scopes[|scopes| - 1]
      modifies this
      ensures scopes == if old(scopes) == [] then [] else
        old(scopes)[|old(scopes)| - 1 := old(scopes)[|old(scopes)| - 1][name.lexeme := true]]
      ensures errors == old(errors) && functionTy == old(functionTy) && resolutions == old(resolutions)
    {
      if scopes != [] {
        var last := scopes[|scopes| - 1];
        scopes := scopes[|scopes| - 1 := last[name.lexeme := true]];
      }
    }

    /** `resolve_expression`: scopes are only read. */
    method ResolveExpression(expr: Expr)
      modifies this
      ensures scopes == old(scopes) && functionTy == old(functionTy)
      ensures old(errors) <= errors && old(resolutions) <= resolutions
      ensures expr.Variable? ==>
        var own := scopes != [] && expr.name.lexeme in scopes[|scopes| - 1] && !scopes[|scopes| - 1][expr.name.lexeme];
        errors == old(errors) + (if own then [Custom(expr.name, OwnInitializer)] else [])
      ensures expr.Variable? ==>
        resolutions == old(resolutions) + (match Distance(scopes, expr.name.lexeme) case None => [] case Some(d) => [(expr, d)])
      ensures expr.Assign? && Distance(scopes, expr.name.lexeme).Some? ==>
        resolutions != [] && resolutions[|resolutions| - 1] == (expr, Distance(scopes, expr.name.lexeme).value)
      decreases expr
    {
      match expr
      case Variable(name) =>
        if scopes != [] {
          var last := scopes[|scopes| - 1];
          if name.lexeme in last && !last[name.lexeme] {
            errors := errors + [Custom(name, OwnInitializer)];
          }
        }
        ResolveLocal(expr, name);
      case Assign(name, value) =>
        ResolveExpression(value);
        ResolveLocal(expr, name);
      case Binary(left, _, right) =>
        ResolveExpression(left);
        ResolveExpression(right);
      case Call(callee, _, arguments) =>
        ResolveExpression(callee);
        var i := 0;
        while i < |arguments|
          invariant 0 <= i <= |arguments|
          invariant scopes == old(scopes) && functionTy == old(functionTy)
          invariant old(errors) <= errors && old(resolutions) <= resolutions
        {
          ResolveExpression(arguments[i]);
          i := i + 1;
        }
      case Grouping(inner) =>
        ResolveExpression(inner);
      case Literal(_) =>
      case Logical(left, _, right) =>
        ResolveExpression(left);
        ResolveExpression(right);
      case Unary(_, right) =>
        ResolveExpression(right);
    }

    /** `resolve_local`: records the distance to the nearest scope binding the name, if any. */
    method ResolveLocal(expr: Expr, name: Token)
      modifies this
      ensures resolutions == old(resolutions) +
        (match Distance(scopes, name.lexeme) case None => [] case Some(d) => [(expr, d)])
      ensures scopes == old(scopes) && errors == old(errors) && functionTy == old(functionTy)
    {
      var stack := scopes;
      ghost var innermostFirst := Reverse(stack);
      var i := 0;
      while i < |stack|
        invariant 0 <= i <= |stack|
        invariant forall j :: 0 <= j < i ==> name.lexeme !in innermostFirst[j]
      {
        if name.lexeme in stack[|stack| - 1 - i] {
          assert Find(innermostFirst, name.lexeme) == Some(i) by {
            assert name.lexeme in innermostFirst[i];
          }
          resolutions := resolutions + [(expr, i)];
          return;
        }
        i := i + 1;
      }
    }
  }
}
