/**
 * A variable environment (Runtime/VowelEnvironment.cs): a dictionary of
 * bindings and the environment it was created inside. Neither operation
 * consults the enclosing environment.
 */
module Environments {
  import opened Wrappers
  import opened Values

  datatype Environment = Environment(enclosing: Option<Environment>, variables: map<string, Value>)

  /** A new environment inside `closure`, with no bindings. */
  function NewEnvironment(closure: Option<Environment>): (r: Environment)
    ensures r.enclosing == closure && |r.variables| == 0
  {
    Environment(closure, map[])
  }

  /**
   * Binds `name` to `v` unless the environment already binds it: the first
   * binding of a name wins.
   */
  function Define(env: Environment, name: string, v: Value): (r: Environment)
    ensures r.enclosing == env.enclosing
    ensures r.variables.Keys == env.variables.Keys + {name}
    ensures name in env.variables ==> r == env
    ensures name !in env.variables ==> r.variables[name] == v
    ensures forall k :: k in env.variables ==> r.variables[k] == env.variables[k]
  {
    if name in env.variables then env
    else env.(variables := env.variables[name := v])
  }

  /** The value bound to `name`, or null when it is unbound. */
  function Get(env: Environment, name: string): (r: Value)
    ensures name in env.variables ==> r == env.variables[name]
    ensures name !in env.variables ==> r == Nil
  {
    if name in env.variables then env.variables[name] else Nil
  }

  /**
   * `Get` after `Define`: the defined name reads back its first binding,
   * and every other name reads as before.
   */
  lemma {:induction false} GetAfterDefine(env: Environment, name: string, v: Value, other: string)
    ensures Get(Define(env, name, v), name) == (if name in env.variables then Get(env, name) else v)
    ensures other != name ==> Get(Define(env, name, v), other) == Get(env, other)
  {
  }

  /** Defining a name twice is defining it once. */
  lemma {:induction false} DefineTwiceKeepsFirst(env: Environment, name: string, v: Value, w: Value)
    ensures Define(Define(env, name, v), name, w) == Define(env, name, v)
  {
  }

  /** Defines of different names commute. */
  lemma {:induction false} DefinesCommute(env: Environment, a: string, v: Value, b: string, w: Value)
    requires a != b
    ensures Define(Define(env, a, v), b, w) == Define(Define(env, b, w), a, v)
  {
  }

  /**
   * Null from `Get` does not tell an unbound name from one bound to null;
   * and a binding in the enclosing environment is not seen.
   */
  lemma {:induction false} GetCannotSeeOutward(outer: Environment, name: string, v: Value)
    ensures Get(Define(NewEnvironment(None), name, Nil), name) == Get(NewEnvironment(None), name) == Nil
    ensures Get(NewEnvironment(Some(Define(outer, name, v))), name) == Nil
  {
  }
}
