/** Properties of the scope-resolution pass (Passes/Resolver.cs). */
module ResolverProperties {
  import opened Wrappers
  import opened Values
  import opened Tokens
  import opened Errors
  import opened Ast
  import opened Resolver

  function Name(lexeme: string): Token {
    Token(Identifier, lexeme, Str(lexeme), Location(0, 0))
  }

  const Empty: State := State([], map[], [], AsWritten)

  /**
   * A name held only by the top scope is recorded as -1, exactly like a
   * name no scope holds: the loop reaches position 0 last and records 0 - 1.
   */
  lemma {:induction false} TopOnlyLooksGlobal(scopes: seq<Scope>, name: string)
    requires |scopes| > 0 && name in scopes[0]
    requires forall k :: 1 <= k < |scopes| ==> name !in scopes[k]
    ensures Lookup(scopes, name) == -1
  {
  }

  /**
   * When several scopes hold a name, the one nearest the bottom of the stack
   * wins: the loop starts at position `count - 1`.
   */
  lemma {:induction false} OutermostBindingWins(scopes: seq<Scope>, name: string, k: nat)
    requires 1 <= k < |scopes| && name in scopes[k]
    requires forall j :: k < j < |scopes| ==> name !in scopes[j]
    ensures Lookup(scopes, name) == k - 1
  {
  }

  /**
   * With `x` declared in the innermost scope and two scopes further out, the
   * outer binding is found (position 2) and recorded as 1, where the
   * innermost-first search records 0.
   */
  lemma {:induction false} ShadowedNameResolvesOutward(id: NodeId)
    ensures var st := State([map["x" := true], map[], map["x" := true]], map[], [], AsWritten);
            && ResolveExpr(Variable(id, Name("x")), st).distances == map[id := 1]
            && ResolveExpr(Variable(id, Name("x")), st.(reading := Intended)).distances == map[id := 0]
  {
  }

  /**
   * A local declared only in the innermost of two scopes is recorded as -1,
   * the global marker; the innermost-first search records 0.
   */
  lemma {:induction false} InnermostLocalLooksGlobal(id: NodeId)
    ensures var st := State([map["y" := true], map[]], map[], [], AsWritten);
            && ResolveExpr(Variable(id, Name("y")), st).distances == map[id := -1]
            && ResolveExpr(Variable(id, Name("y")), st.(reading := Intended)).distances == map[id := 0]
  {
  }

  /**
   * Where only one scope holds a name, and it is not the innermost, the loop
   * as written finds the same scope as the innermost-first search, but
   * records one less than its distance.
   */
  lemma {:induction false} UnshadowedLookupIsOneShort(scopes: seq<Scope>, name: string, k: nat)
    requires 1 <= k < |scopes| && name in scopes[k]
    requires forall j :: 0 <= j < |scopes| && j != k ==> name !in scopes[j]
    ensures Distance(scopes, name, Intended) == k
    ensures Distance(scopes, name, AsWritten) == k - 1
  {
  }

  /** A variable with an empty scope stack records nothing; an assignment records -1. */
  lemma {:induction false} GlobalVariableRecordsNothing(id: NodeId, name: Token, value: Expr)
    requires id !in Ids(value)
    ensures ResolveExpr(Variable(id, name), Empty) == Empty
    ensures var r := ResolveExpr(Assign(id, name, value), Empty);
            id in r.distances && r.distances[id] == -1
  {
  }

  /** A variable inside some scope always gets a distance recorded under its own node id. */
  lemma {:induction false} LocalVariableRecorded(id: NodeId, name: Token, st: State)
    requires |st.scopes| > 0
    ensures var r := ResolveExpr(Variable(id, name), st);
            r.scopes == st.scopes && id in r.distances && r.distances[id] == Distance(st.scopes, name.lexeme, st.reading)
  {
  }

  /** A ternary without an else-branch appends exactly the advisory to the warnings. */
  lemma {:induction false} TernaryWithoutElseWarns(id: NodeId, c: Expr, t: Expr, st: State)
    ensures var s2 := ResolveExpr(t, ResolveExpr(c, st));
            ResolveExpr(Ternary(id, c, t, None), st) == s2.(warnings := s2.warnings + [TernaryWarning])
  {
    var e := Ternary(id, c, t, None);
    var s2 := ResolveExpr(t, ResolveExpr(c, st));
    // the case of `ResolveExpr` that applies, spelled out
    assert ResolveExpr(e, st) ==
      match e
      case Ternary(_, _, _, el) => if el.Some? then st else s2.(warnings := s2.warnings + [TernaryWarning])
      case _ => st;
  }

  /**
   * A var statement's initializer is resolved between `Declare` and
   * `Define`: it sees the name present but not ready in the innermost scope.
   */
  lemma {:induction false} InitializerSeesUnreadyName(name: Token, init: Expr, st: State)
    requires |st.scopes| > 0 && name.lexeme !in st.scopes[0]
    ensures var s1 := st.(scopes := [st.scopes[0][name.lexeme := false]] + st.scopes[1..]);
            && Declare(st, name) == Success(s1)
            && ResolveStmt(VarStmt(name, Some(init)), st) == Define(ResolveExpr(init, s1), name)
  {
    var s1 := st.(scopes := [st.scopes[0][name.lexeme := false]] + st.scopes[1..]);
    assert Declare(st, name) == Success(s1);
    var s2 := ResolveExpr(init, s1);
    assert s2.scopes == s1.scopes;
    assert Define(s2, name).Success?;
    VarDispatch(VarStmt(name, Some(init)), st);
  }

  lemma {:induction false} VarDispatch(s: Stmt, st: State)
    requires s.VarStmt?
    ensures ResolveStmt(s, st) == ResolveVar(s, st)
  {
  }

  /** After a var statement the name is present and ready in the innermost scope. */
  lemma {:induction false} VarLeavesNameReady(name: Token, init: Option<Expr>, st: State)
    requires |st.scopes| > 0
    ensures var r := ResolveStmt(VarStmt(name, init), st);
            && (r.Failure? <==> name.lexeme in st.scopes[0])
            && (r.Success? ==> name.lexeme in r.value.scopes[0] && r.value.scopes[0][name.lexeme])
  {
    if name.lexeme !in st.scopes[0] {
      var s1 := Declare(st, name).value;
      InitializerEffect(s1, init);
    }
  }

  /** Declaring the same name twice in one block fails, and that fault escapes `Resolve` after `CleanUp`. */
  lemma {:induction false} RedeclarationEscapes(x: Token)
    ensures ResolveProgram([Block([VarStmt(x, None), VarStmt(x, None)])], Empty)
            == Run(Empty, Escaped(SystemFault(DuplicateKey)))
  {
    var s1 := BeginScope(Empty);
    var s2 := Define(Declare(s1, x).value, x).value;
    assert ResolveStmt(VarStmt(x, None), s1) == Success(s2);
    assert ResolveStmt(VarStmt(x, None), s2) == Failure(SystemFault(DuplicateKey));
    assert [VarStmt(x, None), VarStmt(x, None)][1..] == [VarStmt(x, None)];
    assert ResolveStmts([VarStmt(x, None)], s2) == Failure(SystemFault(DuplicateKey));
    assert ResolveStmts([VarStmt(x, None), VarStmt(x, None)], s1) == Failure(SystemFault(DuplicateKey));
    assert ResolveStmt(Block([VarStmt(x, None), VarStmt(x, None)]), Empty) == Failure(SystemFault(DuplicateKey));
  }

  /**
   * A block of statements that open no scope of their own leaves the stack
   * one deeper: the block's scope is pushed and never popped.
   */
  lemma {:induction false} BlockDeepensByOne(ss: seq<Stmt>, st: State)
    requires forall i :: 0 <= i < |ss| ==> ScopesOpened(ss[i]) == 0
    requires ResolveStmt(Block(ss), st).Success?
    ensures |ResolveStmt(Block(ss), st).value.scopes| == |st.scopes| + 1
  {
    NoneOpened(ss);
  }

  lemma {:induction false} NoneOpened(ss: seq<Stmt>)
    requires forall i :: 0 <= i < |ss| ==> ScopesOpened(ss[i]) == 0
    ensures ScopesOpenedAll(ss) == 0
    decreases |ss|
  {
    if |ss| > 0 {
      assert forall i :: 0 <= i < |ss[1..]| ==> ss[1..][i] == ss[i + 1];
      NoneOpened(ss[1..]);
    }
  }

  /**
   * A function declaration whose body is a block opens one scope for the
   * parameters and resolves the body's statements in it, not a second scope
   * for the block.
   */
  lemma {:induction false} FunctionBodyShareParameterScope(t: Token, ps: seq<Token>, body: seq<Stmt>, st: State)
    requires forall i :: 0 <= i < |body| ==> ScopesOpened(body[i]) == 0
    requires ResolveStmt(FunctionStmt(FunctionDeclaration(t, ps, Block(body))), st).Success?
    ensures |ResolveStmt(FunctionStmt(FunctionDeclaration(t, ps, Block(body))), st).value.scopes| == |st.scopes| + 1
  {
    NoneOpened(body);
  }

  /** A function's name is ready in the enclosing scope and its parameters in the new one. */
  lemma {:induction false} FunctionHeaderBindings(d: FunctionDeclaration, st: State)
    requires |st.scopes| > 0 && FunctionHeader(d, st).Success?
    ensures var r := FunctionHeader(d, st).value;
            && |r.scopes| == |st.scopes| + 1
            && r.scopes[1][d.token.lexeme]
            && forall j :: 0 <= j < |d.parameters| ==> r.scopes[0][d.parameters[j].lexeme]
  {
  }

  /** A repeated parameter name makes the function declaration fail. */
  lemma {:induction false} RepeatedParameterFails(f: Token, p: Token)
    ensures FunctionHeader(FunctionDeclaration(f, [p, p], Block([])), Empty) == Failure(SystemFault(DuplicateKey))
  {
    assert DeclareDefine(Empty, f) == Success(Empty);
    var s2 := BeginScope(Empty);
    var s3 := DeclareDefine(s2, p).value;
    assert DeclareDefine(s3, p) == Failure(SystemFault(DuplicateKey));
    assert [p, p][1..] == [p];
    assert DeclareParameters([p], s3) == Failure(SystemFault(DuplicateKey));
    assert DeclareParameters([p, p], s2) == Failure(SystemFault(DuplicateKey));
  }

  /**
   * The "Undefined variable" error of `Define` is never raised: every
   * `Define` follows a `Declare` of the same name. So `Resolve` never
   * reports; its only faults escape.
   */
  lemma {:induction false} ResolveNeverReports(ss: seq<Stmt>, st: State)
    ensures !ResolveProgram(ss, st).completion.Reported?
    decreases |ss|
  {
    if |ss| > 0 {
      match ResolveStmt(ss[0], st)
      case Failure(f) =>
      case Success(s1) => ResolveNeverReports(ss[1..], s1);
    }
  }
}
