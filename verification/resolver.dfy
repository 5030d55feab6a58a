/**
 * The scope-resolution pass (Passes/Resolver.cs).
 *
 * The C# resolver keeps a `Stack<Dictionary<string, bool>>`; here it is a
 * sequence of maps whose index 0 is the top of the stack, the order in which
 * .NET enumerates a `Stack` (so `ElementAt(i)` is `scopes[i]`). The
 * interpreter's `ResolveLocalVariable`, which is not part of this model, is
 * represented by the distance table `distances`, one entry per node id, and
 * the warning channel by the log `warnings`.
 */
module Resolver {
  import opened Wrappers
  import opened Tokens
  import opened Errors
  import opened Ast

  /** One scope: a name is present once declared and `true` once defined. */
  type Scope = map<string, bool>

  /**
   * Which search `ResolveLocalVariableToInterpreter` makes: the loop as
   * written, or the innermost-first search its comments describe (see the
   * Findings in the README).
   */
  datatype Reading = AsWritten | Intended

  /**
   * The resolver's state: the scope stack, the recorded distances, the
   * warnings issued, and the reading of the distance search it uses.
   */
  datatype State = State(scopes: seq<Scope>, distances: map<NodeId, int>, warnings: seq<string>, reading: Reading)

  /** How `Resolve(List<Stmt>)` ends: normally, with a VowelError it reported, or with a fault it let escape. */
  datatype Completion = Finished | Reported(error: Fault) | Escaped(error: Fault)

  /** The state after `Resolve(List<Stmt>)`, and how it ended. */
  datatype Run = Run(state: State, completion: Completion)

  const TernaryWarning: string :=
    "'?:' does not have else part defined. If the condition evaluates to 'false', the result will be implicitly nil"

  // ---------------------------------------------------------------------
  // Scope helpers
  // ---------------------------------------------------------------------

  /** Pushes an empty scope. */
  function BeginScope(st: State): (r: State)
    ensures |r.scopes| == |st.scopes| + 1
    ensures r.scopes[0] == map[] && r.scopes[1..] == st.scopes
    ensures r.distances == st.distances && r.warnings == st.warnings
  {
    st.(scopes := [map[]] + st.scopes)
  }

  /**
   * `next` differs from `st` only in the top scope, which now holds `name`
   * with readiness `ready` and otherwise what it held before.
   */
  ghost predicate TopUpdated(st: State, next: State, name: string, ready: bool)
    requires |st.scopes| > 0
  {
    && |next.scopes| == |st.scopes|
    && next.scopes[1..] == st.scopes[1..]
    && next.scopes[0].Keys == st.scopes[0].Keys + {name}
    && next.scopes[0][name] == ready
    && (forall k :: k in st.scopes[0] && k != name ==> next.scopes[0][k] == st.scopes[0][k])
    && next.distances == st.distances && next.warnings == st.warnings
  }

  /**
   * Marks a name present but not ready in the innermost scope. With no scope
   * it does nothing; a name already in the innermost scope makes
   * `Dictionary.Add` throw.
   */
  function Declare(st: State, name: Token): (r: Result<State, Fault>)
    ensures |st.scopes| == 0 ==> r == Success(st)
    ensures |st.scopes| > 0 ==> (r.Failure? <==> name.lexeme in st.scopes[0])
    ensures r.Failure? ==> r.error == SystemFault(DuplicateKey)
    ensures |st.scopes| > 0 && r.Success? ==> TopUpdated(st, r.value, name.lexeme, false)
  {
    if |st.scopes| == 0 then Success(st)
    else if name.lexeme in st.scopes[0] then Failure(SystemFault(DuplicateKey))
    else Success(st.(scopes := [st.scopes[0][name.lexeme := false]] + st.scopes[1..]))
  }

  /**
   * Marks a name ready in the innermost scope. With no scope it does
   * nothing; a name the innermost scope lacks raises "Undefined variable".
   */
  function Define(st: State, name: Token): (r: Result<State, Fault>)
    ensures |st.scopes| == 0 ==> r == Success(st)
    ensures |st.scopes| > 0 ==> (r.Failure? <==> name.lexeme !in st.scopes[0])
    ensures r.Failure? ==> r.error == VowelError(name, "Undefined variable")
    ensures |st.scopes| > 0 && r.Success? ==> TopUpdated(st, r.value, name.lexeme, true)
  {
    if |st.scopes| == 0 then Success(st)
    else if name.lexeme !in st.scopes[0] then Failure(VowelError(name, "Undefined variable"))
    else Success(st.(scopes := [st.scopes[0][name.lexeme := true]] + st.scopes[1..]))
  }

  /** The loop of `ResolveLocalVariableToInterpreter` from position `i` down to 0. */
  function LookupFrom(scopes: seq<Scope>, name: string, i: int): (d: int)
    requires -1 <= i < |scopes|
    ensures d == -1 || 0 <= d < i
    ensures d >= 0 ==> name in scopes[d + 1]
    ensures forall k :: d + 1 < k <= i ==> name !in scopes[k]
    decreases i + 1
  {
    if i < 0 then -1
    else if name in scopes[i] then i - 1
    else LookupFrom(scopes, name, i - 1)
  }

  /**
   * The distance `ResolveLocalVariableToInterpreter` records: it scans the
   * positions from `count - 1` down to 0 (from the bottom of the stack up to
   * its top) and records one less than the first position holding the name;
   * -1 when no scope holds it.
   */
  function Lookup(scopes: seq<Scope>, name: string): (d: int)
    ensures -1 <= d < |scopes| - 1 || (d == -1 && |scopes| == 0)
    ensures d >= 0 ==> name in scopes[d + 1]
    ensures forall k :: d + 1 < k < |scopes| ==> name !in scopes[k]
    ensures d == -1 ==> forall k :: 1 <= k < |scopes| ==> name !in scopes[k]
  {
    LookupFrom(scopes, name, |scopes| - 1)
  }

  /**
   * The search the comment in `ResolveLocalVariableToInterpreter` asks for:
   * from the top of the stack (the innermost scope) outward, from position
   * `i` on. The position of the innermost scope holding the name, if any.
   */
  function InnermostFrom(scopes: seq<Scope>, name: string, i: nat): (r: Option<nat>)
    requires i <= |scopes|
    ensures r.Some? ==> i <= r.value < |scopes| && name in scopes[r.value]
    ensures r.Some? ==> forall k :: i <= k < r.value ==> name !in scopes[k]
    ensures r.None? ==> forall k :: i <= k < |scopes| ==> name !in scopes[k]
    decreases |scopes| - i
  {
    if i == |scopes| then None
    else if name in scopes[i] then Some(i)
    else InnermostFrom(scopes, name, i + 1)
  }

  /** The innermost scope holding `name`: the binding a use of the name should see. */
  function Innermost(scopes: seq<Scope>, name: string): (r: Option<nat>)
    ensures r.Some? ==> r.value < |scopes| && name in scopes[r.value]
    ensures r.Some? ==> forall k :: 0 <= k < r.value ==> name !in scopes[k]
    ensures r.None? ==> forall k :: 0 <= k < |scopes| ==> name !in scopes[k]
  {
    InnermostFrom(scopes, name, 0)
  }

  /**
   * The distance recorded for a use of `name`. As written, `Lookup`. As
   * intended, the number of scopes between the innermost one and the
   * innermost scope holding the name, or -1 (a global) when none holds it.
   */
  function Distance(scopes: seq<Scope>, name: string, reading: Reading): (d: int)
    ensures reading == AsWritten ==> d == Lookup(scopes, name)
    ensures reading == Intended ==> (d >= 0 <==> exists k :: 0 <= k < |scopes| && name in scopes[k])
    ensures reading == Intended && d >= 0 ==>
              d < |scopes| && name in scopes[d] && forall k :: 0 <= k < d ==> name !in scopes[k]
    ensures d >= -1
  {
    if reading == AsWritten then Lookup(scopes, name)
    else
      match Innermost(scopes, name)
      case Some(k) => k
      case None => -1
  }

  /** Records the distance of the node `id`, looked up by `name`. */
  function Record(st: State, id: NodeId, name: Token): (r: State)
    ensures r.scopes == st.scopes && r.warnings == st.warnings && r.reading == st.reading
    ensures r.distances.Keys == st.distances.Keys + {id}
    ensures r.distances[id] == Distance(st.scopes, name.lexeme, st.reading)
    ensures forall k :: k in st.distances && k != id ==> r.distances[k] == st.distances[k]
  {
    st.(distances := st.distances[id := Distance(st.scopes, name.lexeme, st.reading)])
  }

  // ---------------------------------------------------------------------
  // Expressions
  // ---------------------------------------------------------------------

  /**
   * `next` follows `st` after resolving expressions whose nodes are `ids`: the
   * scopes are untouched, only distances of those nodes are (re)recorded, and
   * warnings are only appended.
   */
  ghost predicate ExprEffect(st: State, next: State, ids: set<NodeId>) {
    && next.scopes == st.scopes
    && st.distances.Keys <= next.distances.Keys
    && (forall k :: k in next.distances && k !in ids ==> k in st.distances && next.distances[k] == st.distances[k])
    && |st.warnings| <= |next.warnings| && next.warnings[..|st.warnings|] == st.warnings
  }

  lemma {:induction false} ExprEffectChain(a: State, b: State, c: State, ids1: set<NodeId>, ids2: set<NodeId>, ids: set<NodeId>)
    requires ExprEffect(a, b, ids1) && ExprEffect(b, c, ids2) && ids1 + ids2 <= ids
    ensures ExprEffect(a, c, ids)
  {
    assert c.warnings[..|a.warnings|] == c.warnings[..|b.warnings|][..|a.warnings|];
  }

  lemma {:induction false} ExprEffectWiden(a: State, b: State, ids1: set<NodeId>, ids: set<NodeId>)
    requires ExprEffect(a, b, ids1) && ids1 <= ids
    ensures ExprEffect(a, b, ids)
  {
  }

  /**
   * Resolving an expression: every visitor resolves the children in order.
   * A variable records its distance only when there is a scope; an
   * assignment records it whatever the stack holds. A ternary without an
   * else-branch adds a warning. The callee of a call is a name token, not an
   * expression, so resolving it records nothing.
   */
  function ResolveExpr(e: Expr, st: State): (r: State)
    ensures ExprEffect(st, r, Ids(e))
    decreases e
  {
    match e
    case Binary(id, l, _, rt) =>
      var s1 := ResolveExpr(l, st);
      var s2 := ResolveExpr(rt, s1);
      ExprEffectChain(st, s1, s2, Ids(l), Ids(rt), Ids(e));
      s2
    case Logical(id, l, _, rt) =>
      var s1 := ResolveExpr(l, st);
      var s2 := ResolveExpr(rt, s1);
      ExprEffectChain(st, s1, s2, Ids(l), Ids(rt), Ids(e));
      s2
    case Unary(_, _, x) =>
      var s1 := ResolveExpr(x, st);
      ExprEffectWiden(st, s1, Ids(x), Ids(e));
      s1
    case Group(_, x) =>
      var s1 := ResolveExpr(x, st);
      ExprEffectWiden(st, s1, Ids(x), Ids(e));
      s1
    case Literal(_, _) => st
    case Variable(id, name) =>
      if |st.scopes| == 0 then st else Record(st, id, name)
    case Assign(id, name, target) =>
      var s1 := ResolveExpr(target, st);
      var s2 := Record(s1, id, name);
      ExprEffectChain(st, s1, s2, Ids(target), {id}, Ids(e));
      s2
    case Ternary(_, c, t, el) =>
      var s1 := ResolveExpr(c, st);
      var s2 := ResolveExpr(t, s1);
      ExprEffectChain(st, s1, s2, Ids(c), Ids(t), Ids(e));
      if el.Some? then
        var s3 := ResolveExpr(el.value, s2);
        ExprEffectChain(st, s2, s3, Ids(c) + Ids(t), Ids(el.value), Ids(e));
        s3
      else
        var s3 := s2.(warnings := s2.warnings + [TernaryWarning]);
        assert s3.warnings[..|s2.warnings|] == s2.warnings;
        ExprEffectChain(st, s2, s3, Ids(c) + Ids(t), {}, Ids(e));
        s3
    case Call(_, _, args) =>
      var s1 := ResolveExprs(args, st);
      ExprEffectWiden(st, s1, IdsAll(args), Ids(e));
      s1
  }

  /** The `foreach` over a call's arguments. */
  function ResolveExprs(es: seq<Expr>, st: State): (r: State)
    ensures ExprEffect(st, r, IdsAll(es))
    decreases es
  {
    if |es| == 0 then st
    else
      var s1 := ResolveExpr(es[0], st);
      var s2 := ResolveExprs(es[1..], s1);
      ExprEffectChain(st, s1, s2, Ids(es[0]), IdsAll(es[1..]), IdsAll(es));
      s2
  }

  // ---------------------------------------------------------------------
  // Statements
  // ---------------------------------------------------------------------

  /**
   * The number of scopes resolving a statement pushes: one per block and one
   * per function declaration, none of them ever popped.
   */
  function ScopesOpened(s: Stmt): nat
    decreases s
  {
    match s
    case Block(ss) => 1 + ScopesOpenedAll(ss)
    case FunctionStmt(d) => 1 + (if d.block.Block? then ScopesOpenedAll(d.block.statements) else 0)
    case IfStmt(_, t, el) => ScopesOpened(t) + (if el.Some? then ScopesOpened(el.value) else 0)
    case WhileStmt(_, b) => ScopesOpened(b)
    case _ => 0
  }

  function ScopesOpenedAll(ss: seq<Stmt>): nat
    decreases ss
  {
    if |ss| == 0 then 0 else ScopesOpened(ss[0]) + ScopesOpenedAll(ss[1..])
  }

  /**
   * `next` has `pushed` more scopes than `st`, the scopes below the old top
   * are untouched, the old top only gained names, and distances and
   * warnings only grew.
   */
  ghost predicate StmtEffect(st: State, next: State, pushed: nat) {
    && |next.scopes| == |st.scopes| + pushed
    && next.scopes[pushed..] == (if |st.scopes| == 0 then [] else [next.scopes[pushed]] + st.scopes[1..])
    && (|st.scopes| > 0 ==> st.scopes[0].Keys <= next.scopes[pushed].Keys)
    && st.distances.Keys <= next.distances.Keys
    && |st.warnings| <= |next.warnings| && next.warnings[..|st.warnings|] == st.warnings
  }

  lemma {:induction false} StmtEffectRefl(st: State)
    ensures StmtEffect(st, st, 0)
  {
    if |st.scopes| > 0 {
      assert st.scopes == [st.scopes[0]] + st.scopes[1..];
    }
  }

  /** `StmtEffectChain` with the total named. */
  lemma {:induction false} StmtEffectChainTo(a: State, b: State, c: State, n1: nat, n2: nat, total: nat)
    requires StmtEffect(a, b, n1) && StmtEffect(b, c, n2) && total == n1 + n2
    ensures StmtEffect(a, c, total)
  {
    StmtEffectChain(a, b, c, n1, n2);
  }

  lemma {:induction false} StmtEffectChain(a: State, b: State, c: State, n1: nat, n2: nat)
    requires StmtEffect(a, b, n1) && StmtEffect(b, c, n2)
    ensures StmtEffect(a, c, n1 + n2)
  {
    PrefixChain(a.warnings, b.warnings, c.warnings);
    ScopesChain(a.scopes, b.scopes, c.scopes, n1, n2);
  }

  lemma {:induction false} PrefixChain(a: seq<string>, b: seq<string>, c: seq<string>)
    requires |a| <= |b| && b[..|a|] == a && |b| <= |c| && c[..|b|] == b
    ensures |a| <= |c| && c[..|a|] == a
  {
    assert c[..|a|] == c[..|b|][..|a|];
  }

  /** The scope part of `StmtEffect`, chained. */
  lemma {:induction false} ScopesChain(a: seq<Scope>, b: seq<Scope>, c: seq<Scope>, n1: nat, n2: nat)
    requires |b| == |a| + n1 && b[n1..] == (if |a| == 0 then [] else [b[n1]] + a[1..])
    requires |a| > 0 ==> a[0].Keys <= b[n1].Keys
    requires |c| == |b| + n2 && c[n2..] == (if |b| == 0 then [] else [c[n2]] + b[1..])
    requires |b| > 0 ==> b[0].Keys <= c[n2].Keys
    ensures |c| == |a| + n1 + n2 && c[n1 + n2..] == (if |a| == 0 then [] else [c[n1 + n2]] + a[1..])
    ensures |a| > 0 ==> a[0].Keys <= c[n1 + n2].Keys
  {
    assert c[n2..][n1..] == c[n1 + n2..];
    if |a| > 0 {
      if n1 > 0 {
        assert b[n1..] == [b[n1]] + a[1..];
        assert b[1..] == b[1..n1] + b[n1..];
        assert c[n2..] == [c[n2]] + b[1..];
        assert c[n1 + n2] == c[n2..][n1];
        assert c[n1 + n2..] == c[n2..][n1..];
      } else {
        assert b == [b[0]] + a[1..];
        assert c[n2..] == [c[n2]] + b[1..];
      }
    }
  }

  lemma {:induction false} ExprIsStmtEffect(st: State, next: State, ids: set<NodeId>)
    requires ExprEffect(st, next, ids)
    ensures StmtEffect(st, next, 0)
  {
    StmtEffectRefl(st);
  }

  lemma {:induction false} TopUpdatedIsStmtEffect(st: State, next: State, name: string, ready: bool)
    requires |st.scopes| > 0 && TopUpdated(st, next, name, ready)
    ensures StmtEffect(st, next, 0)
  {
    assert next.scopes == [next.scopes[0]] + next.scopes[1..];
  }

  lemma {:induction false} DeclareIsStmtEffect(st: State, name: Token)
    requires Declare(st, name).Success?
    ensures StmtEffect(st, Declare(st, name).value, 0)
  {
    if |st.scopes| == 0 { StmtEffectRefl(st); }
    else { TopUpdatedIsStmtEffect(st, Declare(st, name).value, name.lexeme, false); }
  }

  lemma {:induction false} DefineIsStmtEffect(st: State, name: Token)
    requires Define(st, name).Success?
    ensures StmtEffect(st, Define(st, name).value, 0)
  {
    if |st.scopes| == 0 { StmtEffectRefl(st); }
    else { TopUpdatedIsStmtEffect(st, Define(st, name).value, name.lexeme, true); }
  }

  lemma {:induction false} BeginScopeIsStmtEffect(st: State)
    ensures StmtEffect(st, BeginScope(st), 1)
  {
    var r := BeginScope(st);
    if |st.scopes| > 0 {
      assert r.scopes[1..] == [st.scopes[0]] + st.scopes[1..];
    }
  }

  /**
   * `Declare` then `Define` of one name. `Define` cannot fail here, since
   * `Declare` has just put the name in the innermost scope.
   */
  function DeclareDefine(st: State, name: Token): (r: Result<State, Fault>)
    ensures |st.scopes| == 0 ==> r == Success(st)
    ensures |st.scopes| > 0 ==> (r.Failure? <==> name.lexeme in st.scopes[0])
    ensures r.Failure? ==> r.error == SystemFault(DuplicateKey)
    ensures |st.scopes| > 0 && r.Success? ==> TopUpdated(st, r.value, name.lexeme, true)
    ensures r.Success? ==> StmtEffect(st, r.value, 0)
  {
    match Declare(st, name)
    case Failure(f) => Failure(f)
    case Success(s1) =>
      match Define(s1, name)
      case Failure(f) => Failure(f)
      case Success(s2) =>
        DeclareIsStmtEffect(st, name);
        DefineIsStmtEffect(s1, name);
        StmtEffectChain(st, s1, s2, 0, 0);
        Success(s2)
  }

  /**
   * Declares and defines each parameter in turn, in the innermost scope:
   * every parameter ends up ready there, and so does every name that was
   * ready before. A repeated parameter name makes `Dictionary.Add` throw.
   */
  function DeclareParameters(ps: seq<Token>, st: State): (r: Result<State, Fault>)
    ensures r.Success? ==> StmtEffect(st, r.value, 0)
    ensures r.Success? && |st.scopes| > 0 ==>
              forall j :: 0 <= j < |ps| ==> ps[j].lexeme in r.value.scopes[0] && r.value.scopes[0][ps[j].lexeme]
    ensures r.Success? && |st.scopes| > 0 ==>
              forall n :: n in st.scopes[0] && st.scopes[0][n] ==> n in r.value.scopes[0] && r.value.scopes[0][n]
    ensures r.Failure? ==> r.error == SystemFault(DuplicateKey)
    decreases |ps|
  {
    if |ps| == 0 then StmtEffectRefl(st); Success(st)
    else
      match DeclareDefine(st, ps[0])
      case Failure(f) => Failure(f)
      case Success(s1) =>
        match DeclareParameters(ps[1..], s1)
        case Failure(f) => Failure(f)
        case Success(s2) =>
          StmtEffectChain(st, s1, s2, 0, 0);
          ParametersReady(ps, st, s1, s2);
          Success(s2)
  }

  /** The first parameter is ready after its own binding, and the rest keep it ready. */
  lemma {:induction false} ParametersReady(ps: seq<Token>, st: State, s1: State, s2: State)
    requires |ps| > 0 && |s2.scopes| == |s1.scopes| == |st.scopes|
    requires |st.scopes| > 0 ==> TopUpdated(st, s1, ps[0].lexeme, true)
    requires |s1.scopes| > 0 ==>
               forall j :: 0 <= j < |ps[1..]| ==> ps[1..][j].lexeme in s2.scopes[0] && s2.scopes[0][ps[1..][j].lexeme]
    requires |s1.scopes| > 0 ==>
               forall n :: n in s1.scopes[0] && s1.scopes[0][n] ==> n in s2.scopes[0] && s2.scopes[0][n]
    ensures |st.scopes| > 0 ==>
              forall j :: 0 <= j < |ps| ==> ps[j].lexeme in s2.scopes[0] && s2.scopes[0][ps[j].lexeme]
    ensures |st.scopes| > 0 ==>
              forall n :: n in st.scopes[0] && st.scopes[0][n] ==> n in s2.scopes[0] && s2.scopes[0][n]
  {
    if |st.scopes| > 0 {
      forall j | 0 <= j < |ps|
        ensures ps[j].lexeme in s2.scopes[0] && s2.scopes[0][ps[j].lexeme]
      {
        if j > 0 { assert ps[j] == ps[1..][j - 1]; }
      }
    }
  }

  /**
   * What a function declaration does before its body: its name is declared
   * and defined in the enclosing scope, then a new scope is opened in which
   * every parameter is declared and defined.
   */
  function FunctionHeader(d: FunctionDeclaration, st: State): (r: Result<State, Fault>)
    ensures r.Success? ==> StmtEffect(st, r.value, 1)
    ensures r.Success? && |st.scopes| > 0 ==>
              d.token.lexeme in r.value.scopes[1] && r.value.scopes[1][d.token.lexeme]
    ensures r.Success? ==>
              forall j :: 0 <= j < |d.parameters| ==>
                d.parameters[j].lexeme in r.value.scopes[0] && r.value.scopes[0][d.parameters[j].lexeme]
    ensures r.Failure? ==> r.error == SystemFault(DuplicateKey)
  {
    match DeclareDefine(st, d.token)
    case Failure(f) => Failure(f)
    case Success(s1) =>
      var s2 := BeginScope(s1);
      match DeclareParameters(d.parameters, s2)
      case Failure(f) => Failure(f)
      case Success(s3) =>
        BeginScopeIsStmtEffect(s1);
        StmtEffectChain(st, s1, s2, 0, 1);
        StmtEffectChain(st, s2, s3, 1, 0);
        assert |st.scopes| > 0 ==> s3.scopes[1] == s3.scopes[1..][0] == s2.scopes[1..][0] == s1.scopes[0];
        Success(s3)
  }

  /** The faults resolving statements can raise: neither is a VowelError. */
  predicate StmtFault(f: Fault) {
    f == SystemFault(DuplicateKey) || f == SystemFault(NullReference)
  }

  /**
   * Resolving a statement. A block pushes a scope and resolves its
   * statements inside it; a function declaration resolves the statements of
   * its body directly after its header. Nothing ever pops a scope.
   */
  function ResolveStmt(s: Stmt, st: State): (r: Result<State, Fault>)
    ensures r.Success? ==> StmtEffect(st, r.value, ScopesOpened(s))
    ensures r.Failure? ==> StmtFault(r.error)
    decreases s, 1
  {
    match s
    case Block(_) => ResolveBlock(s, st)
    case ExpressionStmt(e) =>
      var s1 := ResolveExpr(e, st);
      ExprIsStmtEffect(st, s1, Ids(e));
      Success(s1)
    case PrintStmt(e) =>
      var s1 := ResolveExpr(e, st);
      ExprIsStmtEffect(st, s1, Ids(e));
      Success(s1)
    case VarStmt(_, _) => ResolveVar(s, st)
    case IfStmt(_, _, _) => ResolveIf(s, st)
    case WhileStmt(c, b) =>
      var s1 := ResolveExpr(c, st);
      ExprIsStmtEffect(st, s1, Ids(c));
      (match ResolveStmt(b, s1)
       case Failure(f) => Failure(f)
       case Success(s2) =>
         StmtEffectChain(st, s1, s2, 0, ScopesOpened(b));
         Success(s2))
    case FunctionStmt(_) => ResolveFunction(s, st)
  }

  /** A block: one new scope, then its statements. */
  function ResolveBlock(s: Stmt, st: State): (r: Result<State, Fault>)
    requires s.Block?
    ensures r.Success? ==> StmtEffect(st, r.value, ScopesOpened(s))
    ensures r.Failure? ==> StmtFault(r.error)
    decreases s, 0
  {
    var s1 := BeginScope(st);
    match ResolveStmts(s.statements, s1)
    case Failure(f) => Failure(f)
    case Success(s2) =>
      BeginScopeIsStmtEffect(st);
      StmtEffectChain(st, s1, s2, 1, ScopesOpenedAll(s.statements));
      Success(s2)
  }

  /**
   * A var statement: declare, resolve the initializer if there is one, then
   * define. The initializer cannot remove the declared name, so `Define`
   * does not fail here.
   */
  function ResolveVar(s: Stmt, st: State): (r: Result<State, Fault>)
    requires s.VarStmt?
    ensures r.Success? ==> StmtEffect(st, r.value, 0)
    ensures r.Success? && |st.scopes| > 0 ==>
              s.identifier.lexeme in r.value.scopes[0] && r.value.scopes[0][s.identifier.lexeme]
    ensures r.Failure? ==> r.error == SystemFault(DuplicateKey)
    decreases s, 0
  {
    match Declare(st, s.identifier)
    case Failure(f) => Failure(f)
    case Success(s1) =>
      var s2 := if s.initializer.Some? then ResolveExpr(s.initializer.value, s1) else s1;
      InitializerEffect(s1, s.initializer);
      match Define(s2, s.identifier)
      case Failure(f) => Failure(f)
      case Success(s3) =>
        DeclareIsStmtEffect(st, s.identifier);
        DefineIsStmtEffect(s2, s.identifier);
        StmtEffectChain(st, s1, s2, 0, 0);
        StmtEffectChain(st, s2, s3, 0, 0);
        Success(s3)
  }

  /** The initializer of a var statement, if any, leaves the scopes alone. */
  lemma {:induction false} InitializerEffect(st: State, init: Option<Expr>)
    ensures StmtEffect(st, if init.Some? then ResolveExpr(init.value, st) else st, 0)
    ensures (if init.Some? then ResolveExpr(init.value, st) else st).scopes == st.scopes
  {
    if init.Some? {
      ExprIsStmtEffect(st, ResolveExpr(init.value, st), Ids(init.value));
    } else {
      StmtEffectRefl(st);
    }
  }

  /** An if statement: the condition, the then-branch, then the else-branch if there is one. */
  function ResolveIf(s: Stmt, st: State): (r: Result<State, Fault>)
    requires s.IfStmt?
    ensures r.Success? ==> StmtEffect(st, r.value, ScopesOpened(s))
    ensures r.Failure? ==> StmtFault(r.error)
    decreases s, 0
  {
    var s1 := ResolveExpr(s.condition, st);
    ExprIsStmtEffect(st, s1, Ids(s.condition));
    match ResolveStmt(s.thenBranch, s1)
    case Failure(f) => Failure(f)
    case Success(s2) =>
      StmtEffectChain(st, s1, s2, 0, ScopesOpened(s.thenBranch));
      if s.elseBranch.None? then Success(s2)
      else
        match ResolveStmt(s.elseBranch.value, s2)
        case Failure(f) => Failure(f)
        case Success(s3) =>
          StmtEffectChain(st, s2, s3, ScopesOpened(s.thenBranch), ScopesOpened(s.elseBranch.value));
          Success(s3)
  }

  /**
   * A function declaration: its header, then the statements of its body,
   * which the source casts to a block; a body that is not a block is a null
   * dereference.
   */
  function ResolveFunction(s: Stmt, st: State): (r: Result<State, Fault>)
    requires s.FunctionStmt?
    ensures r.Success? ==> StmtEffect(st, r.value, ScopesOpened(s))
    ensures r.Failure? ==> StmtFault(r.error)
    decreases s, 0
  {
    match FunctionHeader(s.decl, st)
    case Failure(f) => Failure(f)
    case Success(s1) =>
      match s.decl.block
      case Block(body) =>
        FunctionBodyScopes(s, body);
        (match ResolveStmts(body, s1)
         case Failure(f) => Failure(f)
         case Success(s2) =>
           StmtEffectChainTo(st, s1, s2, 1, ScopesOpenedAll(body), ScopesOpened(s));
           Success(s2))
      case _ => Failure(SystemFault(NullReference))
  }

  lemma {:induction false} FunctionBodyScopes(s: Stmt, body: seq<Stmt>)
    requires s.FunctionStmt? && s.decl.block == Block(body)
    ensures ScopesOpened(s) == 1 + ScopesOpenedAll(body)
  {
  }

  /** The statements of a list, in order, stopping at the first fault. */
  function ResolveStmts(ss: seq<Stmt>, st: State): (r: Result<State, Fault>)
    ensures r.Success? ==> StmtEffect(st, r.value, ScopesOpenedAll(ss))
    ensures r.Failure? ==> StmtFault(r.error)
    decreases ss
  {
    if |ss| == 0 then StmtEffectRefl(st); Success(st)
    else
      match ResolveStmt(ss[0], st)
      case Failure(f) => Failure(f)
      case Success(s1) =>
        match ResolveStmts(ss[1..], s1)
        case Failure(f) => Failure(f)
        case Success(s2) =>
          StmtEffectChain(st, s1, s2, ScopesOpened(ss[0]), ScopesOpenedAll(ss[1..]));
          Success(s2)
  }

  /** `CleanUp`: the scope stack is emptied. */
  function CleanUp(st: State): (r: State)
    ensures r.scopes == [] && r.distances == st.distances && r.warnings == st.warnings
  {
    st.(scopes := [])
  }

  /**
   * `Resolve(List<Stmt>)`: the statements in order; a VowelError is reported
   * and ends the pass, any other fault escapes; in every case `CleanUp` runs.
   * The distances recorded by the statements before a faulting one are kept.
   */
  function ResolveProgram(ss: seq<Stmt>, st: State): (r: Run)
    ensures r.state.scopes == []
    ensures r.completion.Reported? ==> r.completion.error.VowelError?
    ensures r.completion.Escaped? ==> !r.completion.error.VowelError?
    ensures r.completion.Finished? <==> ResolveStmts(ss, st).Success?
    decreases |ss|
  {
    if |ss| == 0 then Run(CleanUp(st), Finished)
    else
      match ResolveStmt(ss[0], st)
      case Failure(f) => Run(CleanUp(st), if f.VowelError? then Reported(f) else Escaped(f))
      case Success(s1) => ResolveProgram(ss[1..], s1)
  }
}
