/**
 * The syntax tree (Nodes/Expr.cs), with the statement variants the resolver
 * reads (Passes/Resolver.cs).
 *
 * In C# a node's identity is its object reference, and the resolver's
 * distance table is keyed by it. Here every expression node carries an
 * explicit `id`.
 */
module Ast {
  import opened Wrappers
  import opened Values
  import opened Tokens

  type NodeId = nat

  datatype Expr =
    | Binary(id: NodeId, left: Expr, op: Token, right: Expr)
    | Unary(id: NodeId, op: Token, operand: Expr)
    | Group(id: NodeId, inner: Expr)
    | Literal(id: NodeId, value: Value)
    | Variable(id: NodeId, name: Token)
    | Assign(id: NodeId, name: Token, target: Expr)
    | Logical(id: NodeId, left: Expr, op: Token, right: Expr)
    | Ternary(id: NodeId, condition: Expr, thenBranch: Expr, elseBranch: Option<Expr>)
    | Call(id: NodeId, callee: Token, arguments: seq<Expr>)

  /**
   * Statements, as far as the resolver reads them. A function declaration's
   * `block` is typed as a statement and cast to a block when resolved.
   */
  datatype Stmt =
    | Block(statements: seq<Stmt>)
    | ExpressionStmt(expression: Expr)
    | PrintStmt(printable: Expr)
    | VarStmt(identifier: Token, initializer: Option<Expr>)
    | IfStmt(condition: Expr, thenBranch: Stmt, elseBranch: Option<Stmt>)
    | WhileStmt(condition: Expr, body: Stmt)
    | FunctionStmt(decl: FunctionDeclaration)

  datatype FunctionDeclaration = FunctionDeclaration(token: Token, parameters: seq<Token>, block: Stmt)

  /** The nine expression variants, one per visitor method. */
  datatype ExprKind =
    | BinaryKind | UnaryKind | GroupKind | LiteralKind | VariableKind
    | AssignKind | LogicalKind | TernaryKind | CallKind

  function KindOf(e: Expr): ExprKind {
    match e
    case Binary(_, _, _, _) => BinaryKind
    case Unary(_, _, _) => UnaryKind
    case Group(_, _) => GroupKind
    case Literal(_, _) => LiteralKind
    case Variable(_, _) => VariableKind
    case Assign(_, _, _) => AssignKind
    case Logical(_, _, _, _) => LogicalKind
    case Ternary(_, _, _, _) => TernaryKind
    case Call(_, _, _) => CallKind
  }

  /** An expression visitor: one method per variant. */
  datatype ExprVisitor<T> = ExprVisitor(
    visitUnary: Expr -> T,
    visitBinary: Expr -> T,
    visitGroup: Expr -> T,
    visitLiteral: Expr -> T,
    visitVariable: Expr -> T,
    visitAssign: Expr -> T,
    visitLogical: Expr -> T,
    visitTernary: Expr -> T,
    visitCall: Expr -> T)
  {
    /** The method this visitor has for expressions of kind `k`. */
    function MethodFor(k: ExprKind): Expr -> T {
      match k
      case BinaryKind => visitBinary
      case UnaryKind => visitUnary
      case GroupKind => visitGroup
      case LiteralKind => visitLiteral
      case VariableKind => visitVariable
      case AssignKind => visitAssign
      case LogicalKind => visitLogical
      case TernaryKind => visitTernary
      case CallKind => visitCall
    }
  }

  /** Double dispatch: the visitor method for the node's own variant, applied to the node. */
  function Accept<T>(e: Expr, v: ExprVisitor<T>): (r: T)
    ensures e.Binary? ==> r == v.visitBinary(e)
    ensures e.Unary? ==> r == v.visitUnary(e)
    ensures e.Group? ==> r == v.visitGroup(e)
    ensures e.Literal? ==> r == v.visitLiteral(e)
    ensures e.Variable? ==> r == v.visitVariable(e)
    ensures e.Assign? ==> r == v.visitAssign(e)
    ensures e.Logical? ==> r == v.visitLogical(e)
    ensures e.Ternary? ==> r == v.visitTernary(e)
    ensures e.Call? ==> r == v.visitCall(e)
  {
    match e
    case Binary(_, _, _, _) => v.visitBinary(e)
    case Unary(_, _, _) => v.visitUnary(e)
    case Group(_, _) => v.visitGroup(e)
    case Literal(_, _) => v.visitLiteral(e)
    case Variable(_, _) => v.visitVariable(e)
    case Assign(_, _, _) => v.visitAssign(e)
    case Logical(_, _, _, _) => v.visitLogical(e)
    case Ternary(_, _, _, _) => v.visitTernary(e)
    case Call(_, _, _) => v.visitCall(e)
  }

  /**
   * `Accept` consults no method but the one for the node's variant: two
   * visitors that agree on it give the same result, whatever their other
   * methods do.
   */
  lemma {:induction false} AcceptUsesOnlyOwnMethod<T>(e: Expr, v: ExprVisitor<T>, w: ExprVisitor<T>)
    requires v.MethodFor(KindOf(e)) == w.MethodFor(KindOf(e))
    ensures Accept(e, v) == Accept(e, w)
  {
  }

  // ---------------------------------------------------------------------
  // Node numbering
  // ---------------------------------------------------------------------

  /** The number of nodes in an expression. */
  function Size(e: Expr): nat
  {
    match e
    case Binary(_, l, _, r) => Size(l) + Size(r) + 1
    case Unary(_, _, x) => Size(x) + 1
    case Group(_, x) => Size(x) + 1
    case Literal(_, _) => 1
    case Variable(_, _) => 1
    case Assign(_, _, x) => Size(x) + 1
    case Logical(_, l, _, r) => Size(l) + Size(r) + 1
    case Ternary(_, c, t, el) => Size(c) + Size(t) + (if el.Some? then Size(el.value) else 0) + 1
    case Call(_, _, args) => SizeAll(args) + 1
  }

  function SizeAll(es: seq<Expr>): nat
    decreases es
  {
    if |es| == 0 then 0 else Size(es[0]) + SizeAll(es[1..])
  }

  /** The ids of every node of an expression. */
  function Ids(e: Expr): set<NodeId> {
    match e
    case Binary(id, l, _, r) => Ids(l) + Ids(r) + {id}
    case Unary(id, _, x) => Ids(x) + {id}
    case Group(id, x) => Ids(x) + {id}
    case Literal(id, _) => {id}
    case Variable(id, _) => {id}
    case Assign(id, _, x) => Ids(x) + {id}
    case Logical(id, l, _, r) => Ids(l) + Ids(r) + {id}
    case Ternary(id, c, t, el) => Ids(c) + Ids(t) + (if el.Some? then Ids(el.value) else {}) + {id}
    case Call(id, _, args) => IdsAll(args) + {id}
  }

  function IdsAll(es: seq<Expr>): set<NodeId>
    decreases es
  {
    if |es| == 0 then {} else Ids(es[0]) + IdsAll(es[1..])
  }

  /**
   * The ids of the four parsed variants are numbered in post-order from
   * `first`: children first, left to right, then the node itself.
   */
  ghost predicate PostOrderFrom(e: Expr, first: nat) {
    match e
    case Binary(id, l, _, r) =>
      PostOrderFrom(l, first) && PostOrderFrom(r, first + Size(l)) && id == first + Size(l) + Size(r)
    case Unary(id, _, x) => PostOrderFrom(x, first) && id == first + Size(x)
    case Group(id, x) => PostOrderFrom(x, first) && id == first + Size(x)
    case Literal(id, _) => id == first
    case _ => false
  }

  /** Post-order numbering gives every node its own id, all in [first, first + Size). */
  lemma {:induction false} PostOrderIdsAreDistinct(e: Expr, first: nat)
    requires PostOrderFrom(e, first)
    ensures Ids(e) == Interval(first, first + Size(e))
    decreases e, 1
  {
    if e.Binary? {
      BinaryIdsAreDistinct(e, first);
    } else if e.Unary? {
      PostOrderIdsAreDistinct(e.operand, first);
      WrapperIds(e, e.operand, first);
    } else if e.Group? {
      PostOrderIdsAreDistinct(e.inner, first);
      WrapperIds(e, e.inner, first);
    } else {
      IntervalExtend(first, e.id);
    }
  }

  /** The binary case of `PostOrderIdsAreDistinct`: the right operand's ids follow the left's. */
  lemma {:induction false} BinaryIdsAreDistinct(e: Expr, first: nat)
    requires e.Binary? && PostOrderFrom(e, first)
    ensures Ids(e) == Interval(first, first + Size(e))
    decreases e, 0
  {
    PostOrderIdsAreDistinct(e.left, first);
    var mid := first + Size(e.left);
    PostOrderIdsAreDistinct(e.right, mid);
    BinaryIds(e, e.left, e.right, first, mid, mid + Size(e.right));
  }

  /** Hence an expression numbered in post-order has as many distinct ids as nodes. */
  lemma {:induction false} PostOrderIdsCount(e: Expr, first: nat)
    requires PostOrderFrom(e, first)
    ensures |Ids(e)| == Size(e)
  {
    PostOrderIdsAreDistinct(e, first);
    IntervalSize(first, first + Size(e));
  }

  lemma {:induction false} BinaryIds(e: Expr, l: Expr, r: Expr, first: nat, mid: nat, last: nat)
    requires e.Binary? && l == e.left && r == e.right && e.id == last
    requires mid == first + Size(l) && last == mid + Size(r)
    requires Ids(l) == Interval(first, mid) && Ids(r) == Interval(mid, last)
    ensures Ids(e) == Interval(first, last + 1)
  {
    IntervalSplit(first, mid, last);
    IntervalExtend(first, last);
  }

  /** A node with a single child: a unary operation or a grouping. */
  lemma {:induction false} WrapperIds(e: Expr, child: Expr, first: nat)
    requires (e.Unary? && child == e.operand) || (e.Group? && child == e.inner)
    requires PostOrderFrom(e, first)
    requires Ids(child) == Interval(first, first + Size(child))
    ensures Ids(e) == Interval(first, first + Size(e))
  {
    IntervalExtend(first, e.id);
  }

  lemma {:induction false} IntervalSplit(a: nat, b: nat, c: nat)
    requires a <= b <= c
    ensures Interval(a, b) + Interval(b, c) == Interval(a, c)
  {
    assert forall i :: i in Interval(a, b) + Interval(b, c) <==> i in Interval(a, c);
  }

  lemma {:induction false} IntervalExtend(a: nat, b: nat)
    requires a <= b
    ensures Interval(a, b) + {b} == Interval(a, b + 1)
  {
  }

  /** The numbers from `a` up to but excluding `b`. */
  function Interval(a: nat, b: nat): (r: set<nat>)
    ensures forall i :: i in r <==> a <= i < b
    decreases b
  {
    if b <= a then {} else Interval(a, b - 1) + {b - 1}
  }

  lemma {:induction false} IntervalSize(a: nat, b: nat)
    requires a <= b
    ensures |Interval(a, b)| == b - a
    decreases b
  {
    if a < b {
      IntervalSize(a, b - 1);
    }
  }
}
