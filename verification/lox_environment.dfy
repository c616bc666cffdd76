/**
 * The tree-walk interpreter's runtime error and its environments
 * (rlox/src/environment.rs and rlox-treewalk/src/environment.rs, whose
 * define/get/assign are the same; get_at/assign_at exist only in the
 * second). An environment is a shared, mutable object: a map from names to
 * values and an optional enclosing environment. The chain of environments
 * it reaches is fixed when it is created, so `chain` is a ghost constant,
 * and `Maps()` reads the chain's maps innermost first, the shape
 * `ScopeChain` speaks about.
 */
module LoxEnvironment {
  import opened Wrappers
  import opened LoxSyntax
  import opened ScopeChain

  /**
   * `RuntimeError`: a message at a token, or a `return` unwinding to the
   * function call that catches it (lox_function.rs).
   */
  datatype RuntimeError = Custom(token: Token, message: seq<char>) | Return(value: Object)

  function Undefined(name: Token): RuntimeError {
    Custom(name, "Undefined variable '" + name.lexeme + "'.")
  }

  /** What `get` answers for a chain of maps: the nearest binding, or the error. */
  function LookupResult(ms: seq<map<seq<char>, Object>>, name: Token): (r: Result<Object, RuntimeError>)
  {
    match Lookup(ms, name.lexeme)
    case Some(v) => Ok(v)
    case None => Err(Undefined(name))
  }

  /** The maps of a chain of environments, in the same order. */
  ghost function MapsOf(es: seq<Environment>): (r: seq<map<seq<char>, Object>>)
    reads set e | e in es
    ensures |r| == |es|
    ensures forall i :: 0 <= i < |es| ==> r[i] == es[i].values
  {
    if es == [] then [] else [es[0].values] + MapsOf(es[1..])
  }

  class Environment {
    var values: map<seq<char>, Object>
    const enclosing: Option<Environment>
    /** This environment, its enclosing one, and so on outwards. */
    ghost const chain: seq<Environment>

    ghost predicate Valid()
      decreases |chain|
    {
      && |chain| > 0 && chain[0] == this
      && (enclosing.None? ==> |chain| == 1)
      && (enclosing.Some? ==>
            && chain[1..] == enclosing.value.chain
            && this !in enclosing.value.chain
            && enclosing.value.Valid())
    }

    ghost function Maps(): (r: seq<map<seq<char>, Object>>)
      reads set e | e in chain
    {
      MapsOf(chain)
    }

    /** The maps of the chain: this environment's, then its enclosing one's. */
    lemma MapsUnfold()
      requires Valid() && enclosing.Some?
      ensures Maps() == [values] + enclosing.value.Maps()
    {
    }

    /** No environment occurs twice in a valid chain. */
    lemma {:induction false} Distinct()
      requires Valid()
      ensures forall i, j :: 0 <= i < j < |chain| ==> chain[i] != chain[j]
      decreases |chain|
    {
      if enclosing.Some? {
        enclosing.value.Distinct();
        forall i, j | 0 <= i < j < |chain| ensures chain[i] != chain[j] {
          if i == 0 {
            assert chain[j] == enclosing.value.chain[j - 1];
          } else {
            assert chain[i] == enclosing.value.chain[i - 1];
            assert chain[j] == enclosing.value.chain[j - 1];
          }
        }
      }
    }

    /** The global environment (`Default`): empty and enclosed by nothing. */
    constructor Global()
      ensures Valid() && values == map[] && enclosing.None?
      ensures Maps() == [map[]] && fresh(this)
    {
      values := map[];
      enclosing := None;
      chain := [this];
    }

    /** `Environment::new`: an empty environment enclosed by `outer`. */
    constructor (outer: Environment)
      requires outer.Valid()
      ensures Valid() && values == map[] && enclosing == Some(outer)
      ensures chain == [this] + outer.chain
      ensures Maps() == [map[]] + outer.Maps()
    {
      values := map[];
      enclosing := Some(outer);
      chain := [this] + outer.chain;
    }

    /** `define`: binds `name` here unless it is already bound here (`or_insert`). */
    method Define(name: seq<char>, value: Object)
      requires Valid()
      modifies this
      ensures values == if name in old(values) then old(values) else old(values)[name := value]
      ensures Maps() == old(Maps())[0 := values]
    {
      if name !in values {
        values := values[name := value];
      }
      assert enclosing.Some? ==> Maps()[1..] == enclosing.value.Maps();
    }

    /** `get`: the nearest binding of the name along the chain. */
    function Get(name: Token): (r: Result<Object, RuntimeError>)
      requires Valid()
      reads set e | e in chain
      ensures r == LookupResult(Maps(), name)
      decreases |chain|
    {
      if name.lexeme in values then Ok(values[name.lexeme])
      else if enclosing.Some? then enclosing.value.Get(name)
      else Err(Undefined(name))
    }

    /** `assign`: overwrites the nearest binding; never creates one. */
    method Assign(name: Token, value: Object) returns (r: Result<(), RuntimeError>)
      requires Valid()
      modifies set e | e in chain
      ensures r.Ok? <==> Find(old(Maps()), name.lexeme).Some?
      ensures r.Err? ==> r.error == Undefined(name)
      ensures Maps() == Update(old(Maps()), name.lexeme, value)
      decreases |chain|
    {
      if name.lexeme in values {
        values := values[name.lexeme := value];
        r := Ok(());
        assert enclosing.Some? ==> Maps()[1..] == enclosing.value.Maps();
      } else if enclosing.Some? {
        r := enclosing.value.Assign(name, value);
        assert Maps() == [values] + enclosing.value.Maps();
      } else {
        r := Err(Undefined(name));
      }
    }

    /** `get_at`: the binding `distance` environments out, which must exist. */
    function GetAt(distance: nat, name: Token): (r: Result<Object, RuntimeError>)
      requires Valid() && distance < |chain| && name.lexeme in chain[distance].values
      reads set e | e in chain
      ensures r.Ok? && r.value == Maps()[distance][name.lexeme]
      decreases |chain|
    {
      if distance == 0 then Ok(values[name.lexeme])
      else enclosing.value.GetAt(distance - 1, name)
    }

    /** `assign_at`: binds the name `distance` environments out, inserting if need be. */
    method AssignAt(distance: nat, name: Token, value: Object) returns (r: Result<(), RuntimeError>)
      requires Valid() && distance < |chain|
      modifies set e | e in chain
      ensures r.Ok?
      ensures Maps() == old(Maps())[distance := old(Maps())[distance][name.lexeme := value]]
      decreases |chain|
    {
      if distance == 0 {
        values := values[name.lexeme := value];
        r := Ok(());
        assert enclosing.Some? ==> Maps()[1..] == enclosing.value.Maps();
      } else {
        ghost var outer := enclosing.value.Maps();
        MapsUnfold();
        r := enclosing.value.AssignAt(distance - 1, name, value);
        MapsUnfold();
        UpdateBelowHead(values, outer, distance, outer[distance - 1][name.lexeme := value]);
      }
    }
  }

  lemma UpdateBelowHead<T>(head: T, tail: seq<T>, d: nat, x: T)
    requires 0 < d <= |tail|
    ensures ([head] + tail)[d := x] == [head] + tail[d - 1 := x]
  {
  }

  /**
   * The resolver's distance is the nearest binding: reading at that distance
   * is the same as `get`.
   */
  lemma GetAtNearest(env: Environment, name: Token)
    requires env.Valid() && Find(env.Maps(), name.lexeme).Some?
    ensures env.GetAt(Find(env.Maps(), name.lexeme).value, name) == env.Get(name)
  {
  }

  /** Assigning at the nearest binding's distance is the same as `assign`. */
  lemma AssignAtNearest(ms: seq<map<seq<char>, Object>>, name: Token, value: Object)
    requires Find(ms, name.lexeme).Some?
    ensures var d := Find(ms, name.lexeme).value;
      ms[d := ms[d][name.lexeme := value]] == Update(ms, name.lexeme, value)
  {
  }

  /**
   * Environments are shared: two environments created inside the same
   * enclosing one see the same outer bindings, so a change made through one
   * is seen through the other.
   */
  lemma SharedEnclosing(a: Environment, b: Environment)
    requires a.Valid() && b.Valid() && a.enclosing.Some? && a.enclosing == b.enclosing
    ensures a.Maps()[1..] == b.Maps()[1..]
    ensures forall name: Token :: name.lexeme !in a.values && name.lexeme !in b.values ==> a.Get(name) == b.Get(name)
  {
  }
}
