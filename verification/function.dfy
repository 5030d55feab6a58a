/**
 * User functions (Runtime/Function.cs). A call makes a new environment
 * inside the interpreter's current one, binds the arguments to the
 * parameters in order, and runs the body block there. Running the block
 * belongs to the interpreter's statement side, so it is a parameter here:
 * it either completes, returns a value (the `Return` exception), or raises
 * a fault.
 */
module Functions {
  import opened Wrappers
  import opened Values
  import opened Tokens
  import opened Errors
  import opened Ast
  import opened Environments

  datatype Function = Function(declaration: FunctionDeclaration)

  /** How running a function's block ended. */
  datatype BlockOutcome = Completed | Returned(value: Value) | Raised(fault: Fault)

  /** A function takes as many arguments as it declares parameters. */
  function Arity(f: Function): (r: nat)
    ensures r == |f.declaration.parameters|
  {
    |f.declaration.parameters|
  }

  /** The parameter names from position `i` up to (not including) `n`. */
  function Names(parameters: seq<Token>, i: nat, n: nat): (r: set<string>)
    requires i <= n <= |parameters|
    ensures forall j :: i <= j < n ==> parameters[j].lexeme in r
    ensures forall x :: x in r ==> exists j :: i <= j < n && parameters[j].lexeme == x
    decreases n - i
  {
    if i == n then {} else {parameters[i].lexeme} + Names(parameters, i + 1, n)
  }

  /**
   * Binds `arguments[j]` to `parameters[j]` for `i <= j < |arguments|`, in
   * order. An argument with no parameter at its position indexes past the
   * end of the parameter list; a parameter name already bound keeps its
   * first value.
   */
  function BindFrom(parameters: seq<Token>, arguments: seq<Value>, env: Environment, i: nat): (r: Result<Environment, Fault>)
    requires i <= |arguments|
    ensures r.Success? <==> i == |arguments| || |arguments| <= |parameters|
    ensures r.Failure? ==> r.error == SystemFault(IndexOutOfRange)
    ensures r.Success? ==> r.value.enclosing == env.enclosing
    ensures r.Success? ==> forall k :: k in env.variables ==> k in r.value.variables && r.value.variables[k] == env.variables[k]
    ensures r.Success? && |arguments| <= |parameters| ==>
              r.value.variables.Keys == env.variables.Keys + Names(parameters, i, |arguments|)
    ensures r.Success? ==>
              forall j :: i <= j < |arguments| && parameters[j].lexeme !in env.variables
                          && (forall m :: i <= m < j ==> parameters[m].lexeme != parameters[j].lexeme)
                          ==> r.value.variables[parameters[j].lexeme] == arguments[j]
    decreases |arguments| - i
  {
    if i == |arguments| then Success(env)
    else if i >= |parameters| then Failure(SystemFault(IndexOutOfRange))
    else BindFrom(parameters, arguments, Define(env, parameters[i].lexeme, arguments[i]), i + 1)
  }

  /** The environment a call runs its block in: new, inside `caller`, holding the arguments. */
  function CallEnvironment(f: Function, caller: Environment, arguments: seq<Value>): (r: Result<Environment, Fault>)
    ensures r.Success? <==> |arguments| <= Arity(f)
    ensures r.Failure? ==> r.error == SystemFault(IndexOutOfRange)
    ensures r.Success? ==> r.value.enclosing == Some(caller)
    ensures r.Success? ==> r.value.variables.Keys == Names(f.declaration.parameters, 0, |arguments|)
  {
    BindFrom(f.declaration.parameters, arguments, NewEnvironment(Some(caller)), 0)
  }

  /**
   * Calls `f` from an interpreter whose environment is `caller`. The arity
   * is not checked here: too many arguments fail while binding, too few
   * leave the last parameters unbound. A completed block gives null; a
   * `return` gives its value; a raised fault propagates.
   */
  function Call(f: Function, caller: Environment, arguments: seq<Value>,
                execute: (Stmt, Environment) -> BlockOutcome): (r: Result<Value, Fault>)
    ensures |arguments| > Arity(f) ==> r == Failure(SystemFault(IndexOutOfRange))
    ensures |arguments| <= Arity(f) ==>
              var outcome := execute(f.declaration.block, CallEnvironment(f, caller, arguments).value);
              && (outcome.Completed? ==> r == Success(Nil))
              && (outcome.Returned? ==> r == Success(outcome.value))
              && (outcome.Raised? ==> r == Failure(outcome.fault))
  {
    match CallEnvironment(f, caller, arguments)
    case Failure(e) => Failure(e)
    case Success(env) =>
      match execute(f.declaration.block, env)
      case Completed => Success(Nil)
      case Returned(v) => Success(v)
      case Raised(e) => Failure(e)
  }

  predicate DistinctParameters(parameters: seq<Token>) {
    forall a, b :: 0 <= a < b < |parameters| ==> parameters[a].lexeme != parameters[b].lexeme
  }

  /**
   * With distinct parameter names and no more arguments than parameters,
   * each of the first `|arguments|` parameters reads its argument in the
   * call's environment, and each later one reads null because it is unbound.
   */
  lemma {:induction false} ArgumentsBoundInOrder(f: Function, caller: Environment, arguments: seq<Value>, j: nat)
    requires DistinctParameters(f.declaration.parameters)
    requires |arguments| <= Arity(f) && j < Arity(f)
    ensures var env := CallEnvironment(f, caller, arguments).value;
            && (j < |arguments| ==> Get(env, f.declaration.parameters[j].lexeme) == arguments[j])
            && (j >= |arguments| ==> f.declaration.parameters[j].lexeme !in env.variables)
  {
  }

  /** A repeated parameter name keeps the first argument given for it. */
  lemma {:induction false} RepeatedParameterKeepsFirst(name: Token, block: Stmt, caller: Environment, a: Value, b: Value)
    ensures var f := Function(FunctionDeclaration(name, [name, name], block));
            Get(CallEnvironment(f, caller, [a, b]).value, name.lexeme) == a
  {
    var f := Function(FunctionDeclaration(name, [name, name], block));
    var env := CallEnvironment(f, caller, [a, b]).value;
    assert 0 < 2 && f.declaration.parameters[0].lexeme !in NewEnvironment(Some(caller)).variables;
  }

  /** Calling with one argument more than the arity fails, whatever the block would do. */
  lemma {:induction false} TooManyArgumentsFail(f: Function, caller: Environment, arguments: seq<Value>, extra: Value,
                             execute: (Stmt, Environment) -> BlockOutcome)
    requires |arguments| == Arity(f)
    ensures Call(f, caller, arguments + [extra], execute) == Failure(SystemFault(IndexOutOfRange))
    ensures CallEnvironment(f, caller, arguments).Success?
  {
  }
}
