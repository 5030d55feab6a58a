/**
 * The recursive-descent expression parser (vParser/Parser.cs).
 *
 * The C# parser keeps a mutable cursor; here every parsing function takes the
 * token list and a position and returns the position after what it consumed.
 * A node-id counter is threaded alongside, so every node is numbered in
 * post-order (children before parents, left before right).
 */
module Parser {
  import opened Wrappers
  import opened Values
  import opened Tokens
  import opened Errors
  import opened Ast

  /** What a parsing function returns: the tree, the cursor after it, the next free id. */
  datatype Parsed = Parsed(expr: Expr, pos: nat, nextId: NodeId)

  /** What `Consume` returns: the consumed token and the cursor after it. */
  datatype Consumed = Consumed(token: Token, pos: nat)

  /**
   * What `Parse` returns: the expressions completed before the end or before
   * a reported VowelError, or the fault that escaped `Parse` altogether.
   */
  datatype ParseOutcome =
    | Completed(expressions: seq<Expr>, reported: Option<Fault>)
    | Escaped(fault: Fault)

  /** The scanner's contract with the parser: the list ends with an EOF token. */
  predicate EofTerminated(ts: seq<Token>) {
    |ts| > 0 && ts[|ts| - 1].kind == Eof
  }

  // ---------------------------------------------------------------------
  // Cursor helpers
  // ---------------------------------------------------------------------

  predicate IsAtEnd(ts: seq<Token>, pos: nat)
    requires pos < |ts|
  {
    ts[pos].kind == Eof
  }

  function Peek(ts: seq<Token>, pos: nat): Token
    requires pos < |ts|
  {
    ts[pos]
  }

  /** `Check` never succeeds on the EOF token, whatever kind is asked for. */
  function Check(ts: seq<Token>, pos: nat, kind: TokenKind): (r: bool)
    requires pos < |ts|
    ensures IsAtEnd(ts, pos) ==> !r
    ensures r <==> ts[pos].kind == kind && kind != Eof
  {
    if IsAtEnd(ts, pos) then false else Peek(ts, pos).kind == kind
  }

  /**
   * `Match` tries `Check` with each kind in turn and stops at the first that
   * succeeds, so it succeeds exactly when the current token is not EOF and
   * its kind is in the list. On success the caller advances by exactly one
   * token; on failure it stays put.
   */
  predicate Match(ts: seq<Token>, pos: nat, kinds: seq<TokenKind>)
    requires pos < |ts|
  {
    !IsAtEnd(ts, pos) && ts[pos].kind in kinds
  }

  /** `Match` succeeds exactly when `Check` succeeds for one of the kinds. */
  lemma {:induction false} MatchTriesEachKind(ts: seq<Token>, pos: nat, kinds: seq<TokenKind>)
    requires pos < |ts|
    ensures Match(ts, pos, kinds) <==> exists i :: 0 <= i < |kinds| && Check(ts, pos, kinds[i])
  {
    if Match(ts, pos, kinds) {
      var i :| 0 <= i < |kinds| && kinds[i] == ts[pos].kind;
      assert Check(ts, pos, kinds[i]);
    }
  }

  /** The token just consumed. */
  function TrackBack(ts: seq<Token>, pos: nat): (r: Token)
    requires 1 <= pos <= |ts|
    ensures r == ts[pos - 1]
  {
    ts[pos - 1]
  }

  /**
   * `Consume` compares the current token's kind directly (not through
   * `Check`): on a match it returns the token and moves past it, otherwise it
   * raises a VowelError carrying the current token and the message.
   */
  function Consume(ts: seq<Token>, pos: nat, kind: TokenKind, message: string): (r: Result<Consumed, Fault>)
    requires pos < |ts|
    ensures r.Success? <==> ts[pos].kind == kind
    ensures r.Success? ==> r.value == Consumed(ts[pos], pos + 1)
    ensures r.Failure? ==> r.error == VowelError(ts[pos], message)
  {
    var current := Peek(ts, pos);
    if current.kind == kind then Success(Consumed(current, pos + 1))
    else Failure(VowelError(current, message))
  }

  // ---------------------------------------------------------------------
  // The precedence ladder
  // ---------------------------------------------------------------------

  /**
   * The binary levels: 4 equality, 3 comparison, 2 term, 1 factor (where `^`
   * sits with `*`, `/` and `%`); 0 for every other kind.
   */
  function OperatorLevel(k: TokenKind): nat {
    if k == EqualEqual || k == BangEqual then 4
    else if k == Greater || k == GreaterEqual || k == Less || k == LessEqual then 3
    else if k == Plus || k == Minus then 2
    else if k == Star || k == Slash || k == Percent || k == Caret then 1
    else 0
  }

  /** The operator list each level's loop matches against, in the source's order. */
  function Operators(level: nat): seq<TokenKind>
    requires 1 <= level <= 4
  {
    if level == 4 then [EqualEqual, BangEqual]
    else if level == 3 then [Greater, GreaterEqual, Less, LessEqual]
    else if level == 2 then [Plus, Minus]
    else [Star, Slash, Percent, Caret]
  }

  /** A level's loop matches exactly the operators of that level. */
  lemma {:induction false} OperatorsOfLevel(level: nat, k: TokenKind)
    requires 1 <= level <= 4
    ensures k in Operators(level) <==> OperatorLevel(k) == level
  {
    if level == 4 {
      EqualityOperators(k);
    } else if level == 3 {
      ComparisonOperators(k);
    } else if level == 2 {
      TermOperators(k);
    } else {
      FactorOperators(k);
    }
  }

  lemma {:induction false} EqualityOperators(k: TokenKind)
    ensures k in Operators(4) <==> OperatorLevel(k) == 4
  {
  }

  lemma {:induction false} ComparisonOperators(k: TokenKind)
    ensures k in Operators(3) <==> OperatorLevel(k) == 3
  {
  }

  lemma {:induction false} TermOperators(k: TokenKind)
    ensures k in Operators(2) <==> OperatorLevel(k) == 2
  {
  }

  lemma {:induction false} FactorOperators(k: TokenKind)
    ensures k in Operators(1) <==> OperatorLevel(k) == 1
  {
  }

  const UnaryOperators: seq<TokenKind> := [Bang, Minus]

  /** The binary level of a tree's root; 0 for anything but a binary node. */
  function Level(e: Expr): nat {
    if e.Binary? then OperatorLevel(e.op.kind) else 0
  }

  /**
   * The trees the parser builds. A binary node's operator has a level, its
   * left operand is at that level or below (so a level folds left) and its
   * right operand strictly below (so looser operators never sit under tighter
   * ones); a unary node wraps a non-binary operand.
   */
  ghost predicate Shaped(e: Expr) {
    match e
    case Binary(_, l, op, r) =>
      1 <= OperatorLevel(op.kind) && Level(l) <= OperatorLevel(op.kind)
      && Level(r) < OperatorLevel(op.kind) && Shaped(l) && Shaped(r)
    case Unary(_, op, x) => op.kind in UnaryOperators && Level(x) == 0 && Shaped(x)
    case Group(_, x) => Shaped(x)
    case Literal(_, _) => true
    case _ => false
  }

  /** The parse consumed at least one token and stopped before the end of the list. */
  predicate Spans(ts: seq<Token>, pos: nat, p: Parsed) {
    pos < p.pos < |ts|
  }

  /** The tree is shaped, no looser than `level`, and numbered in post-order from `first`. */
  ghost predicate Built(first: NodeId, p: Parsed, level: nat) {
    && Shaped(p.expr) && Level(p.expr) <= level
    && PostOrderFrom(p.expr, first) && p.nextId == first + Size(p.expr)
  }

  /** The only faults parsing raises. */
  predicate ParseFault(f: Fault) {
    f.VowelError? || (f.RuntimeError? && f.message == "Unexpected token")
  }

  // ---------------------------------------------------------------------
  // Parsing functions
  // ---------------------------------------------------------------------

  /** expression -> equality */
  function Expression(ts: seq<Token>, pos: nat, first: NodeId): (r: Result<Parsed, Fault>)
    requires EofTerminated(ts) && pos < |ts|
    ensures r.Success? ==> Spans(ts, pos, r.value)
    ensures r.Failure? ==> ParseFault(r.error)
    decreases |ts| - pos, 6, 0
  {
    BinaryLevel(ts, pos, first, 4)
  }

  /**
   * One binary level (equality, comparison, term or factor): an operand one
   * level down, then the left fold over this level's operators.
   */
  function BinaryLevel(ts: seq<Token>, pos: nat, first: NodeId, level: nat): (r: Result<Parsed, Fault>)
    requires EofTerminated(ts) && pos < |ts| && 1 <= level <= 4
    ensures r.Success? ==> Spans(ts, pos, r.value)
    ensures r.Failure? ==> ParseFault(r.error)
    decreases |ts| - pos, level + 1, 2
  {
    match Operand(ts, pos, first, level)
    case Failure(f) => Failure(f)
    case Success(left) => Fold(ts, left, level, pos, first)
  }

  /** The operand of a level: the next level down, or `Unary` below factor. */
  function Operand(ts: seq<Token>, pos: nat, first: NodeId, level: nat): (r: Result<Parsed, Fault>)
    requires EofTerminated(ts) && pos < |ts| && 1 <= level <= 4
    ensures r.Success? ==> Spans(ts, pos, r.value)
    ensures r.Failure? ==> ParseFault(r.error)
    decreases |ts| - pos, level + 1, 1
  {
    if level == 1 then Unary(ts, pos, first) else BinaryLevel(ts, pos, first, level - 1)
  }

  /**
   * The `while (Match(ops))` loop of a level: while the next token is one of
   * the level's operators, parse another operand and make the tree so far
   * its left child. `start` and `first` are where the whole level began.
   */
  function Fold(ts: seq<Token>, left: Parsed, level: nat, start: nat, first: NodeId): (r: Result<Parsed, Fault>)
    requires EofTerminated(ts) && 1 <= level <= 4 && left.pos < |ts|
    ensures r.Success? ==> left.pos <= r.value.pos < |ts|
    ensures r.Failure? ==> ParseFault(r.error)
    decreases |ts| - left.pos, level + 1, 0
  {
    if Match(ts, left.pos, Operators(level)) then
      var op := TrackBack(ts, left.pos + 1);
      match Operand(ts, left.pos + 1, left.nextId, level)
      case Failure(f) => Failure(f)
      case Success(right) =>
        Fold(ts, Parsed(Binary(right.nextId, left.expr, op, right.expr), right.pos, right.nextId + 1), level, start, first)
    else
      Success(left)
  }

  /** unary -> ("!" | "-") unary | primary */
  function Unary(ts: seq<Token>, pos: nat, first: NodeId): (r: Result<Parsed, Fault>)
    requires EofTerminated(ts) && pos < |ts|
    ensures r.Success? ==> Spans(ts, pos, r.value)
    ensures r.Failure? ==> ParseFault(r.error)
    decreases |ts| - pos, 1, 0
  {
    if Match(ts, pos, UnaryOperators) then
      var op := TrackBack(ts, pos + 1);
      match Unary(ts, pos + 1, first)
      case Failure(f) => Failure(f)
      case Success(operand) =>
        Success(Parsed(Ast.Unary(operand.nextId, op, operand.expr), operand.pos, operand.nextId + 1))
    else
      Primary(ts, pos, first)
  }

  /**
   * primary -> NUMBER | STRING | "false" | "true" | "nil" | IDENTIFIER | "(" expression ")".
   * The literal is read off the current token before anything is matched.
   */
  function Primary(ts: seq<Token>, pos: nat, first: NodeId): (r: Result<Parsed, Fault>)
    requires EofTerminated(ts) && pos < |ts|
    ensures r.Success? ==> Spans(ts, pos, r.value)
    ensures r.Failure? ==> ParseFault(r.error)
    decreases |ts| - pos, 0, 0
  {
    var literal := Peek(ts, pos).literal;
    if Match(ts, pos, [Number, String]) then Success(Parsed(Literal(first, literal), pos + 1, first + 1))
    else if Match(ts, pos, [False]) then Success(Parsed(Literal(first, Str("false")), pos + 1, first + 1))
    else if Match(ts, pos, [True]) then Success(Parsed(Literal(first, Str("true")), pos + 1, first + 1))
    else if Match(ts, pos, [NilKeyword]) then Success(Parsed(Literal(first, Str("nil")), pos + 1, first + 1))
    else if Match(ts, pos, [Identifier]) then Success(Parsed(Literal(first, literal), pos + 1, first + 1))
    else if Match(ts, pos, [LeftParen]) then Grouping(ts, pos + 1, first, pos)
    else Failure(RuntimeError("Unexpected token"))
  }

  /**
   * The inside of a grouping: an expression, then a RIGHT_BRACE token.
   * `open` is the position of the opening token `Primary` consumed.
   */
  function Grouping(ts: seq<Token>, pos: nat, first: NodeId, open: nat): (r: Result<Parsed, Fault>)
    requires EofTerminated(ts) && open + 1 == pos < |ts| && ts[open].kind != Eof
    ensures r.Success? ==> Spans(ts, open, r.value)
    ensures r.Failure? ==> ParseFault(r.error)
    decreases |ts| - pos, 7, 0
  {
    match Expression(ts, pos, first)
    case Failure(f) => Failure(f)
    case Success(inner) =>
      match Consume(ts, inner.pos, RightBrace, "Expected ')' after group expression")
      case Failure(f) => Failure(f)
      case Success(close) => Success(Parsed(Group(inner.nextId, inner.expr), close.pos, inner.nextId + 1))
  }

  // ---------------------------------------------------------------------
  // The trees the parsing functions build
  // ---------------------------------------------------------------------

  /** An expression parse is a shaped tree of any level, numbered in post-order from `first`. */
  lemma {:induction false} ExpressionBuilt(ts: seq<Token>, pos: nat, first: NodeId)
    requires EofTerminated(ts) && pos < |ts|
    ensures Expression(ts, pos, first).Success? ==> Built(first, Expression(ts, pos, first).value, 4)
    decreases |ts| - pos, 6, 0
  {
    BinaryLevelBuilt(ts, pos, first, 4);
  }

  /** A binary level builds a tree no looser than that level. */
  lemma {:induction false} BinaryLevelBuilt(ts: seq<Token>, pos: nat, first: NodeId, level: nat)
    requires EofTerminated(ts) && pos < |ts| && 1 <= level <= 4
    ensures BinaryLevel(ts, pos, first, level).Success? ==> Built(first, BinaryLevel(ts, pos, first, level).value, level)
    decreases |ts| - pos, level + 1, 2
  {
    OperandBuilt(ts, pos, first, level);
    match Operand(ts, pos, first, level)
    case Failure(_) =>
    case Success(left) => FoldBuilt(ts, left, level, pos, first);
  }

  /** A level's operand is strictly tighter than the level. */
  lemma {:induction false} OperandBuilt(ts: seq<Token>, pos: nat, first: NodeId, level: nat)
    requires EofTerminated(ts) && pos < |ts| && 1 <= level <= 4
    ensures Operand(ts, pos, first, level).Success? ==> Built(first, Operand(ts, pos, first, level).value, level - 1)
    decreases |ts| - pos, level + 1, 1
  {
    if level == 1 {
      UnaryBuilt(ts, pos, first);
      OperandIsUnary(ts, pos, first, level);
    } else {
      OperandBelowBuilt(ts, pos, first, level, level - 1);
    }
  }

  lemma {:induction false} OperandBelowBuilt(ts: seq<Token>, pos: nat, first: NodeId, level: nat, below: nat)
    requires EofTerminated(ts) && pos < |ts| && 1 < level <= 4 && below == level - 1
    ensures Operand(ts, pos, first, level).Success? ==> Built(first, Operand(ts, pos, first, level).value, below)
    decreases |ts| - pos, level + 1, 0
  {
    BinaryLevelBuilt(ts, pos, first, below);
  }

  lemma {:induction false} OperandIsUnary(ts: seq<Token>, pos: nat, first: NodeId, level: nat)
    requires EofTerminated(ts) && pos < |ts| && level == 1
    requires Unary(ts, pos, first).Success? ==> Built(first, Unary(ts, pos, first).value, 0)
    ensures Operand(ts, pos, first, level).Success? ==> Built(first, Operand(ts, pos, first, level).value, level - 1)
  {
  }

  /**
   * The fold keeps the tree so far good: an operator of the level over the
   * tree so far (at the level or tighter) and a strictly tighter operand.
   */
  lemma {:induction false} FoldBuilt(ts: seq<Token>, left: Parsed, level: nat, start: nat, first: NodeId)
    requires EofTerminated(ts) && 1 <= level <= 4 && left.pos < |ts|
    requires Built(first, left, level)
    ensures Fold(ts, left, level, start, first).Success? ==> Built(first, Fold(ts, left, level, start, first).value, level)
    decreases |ts| - left.pos, level + 1, 1
  {
    if Match(ts, left.pos, Operators(level)) {
      FoldBuiltStep(ts, left, level, start, first, left.pos + 1, TrackBack(ts, left.pos + 1));
    }
  }

  /** `FoldBuilt` when the next token is one of the level's operators. */
  lemma {:induction false} FoldBuiltStep(ts: seq<Token>, left: Parsed, level: nat, start: nat, first: NodeId,
                                         rpos: nat, op: Token)
    requires EofTerminated(ts) && 1 <= level <= 4 && left.pos < |ts|
    requires Built(first, left, level) && Match(ts, left.pos, Operators(level))
    requires rpos == left.pos + 1 && op == ts[left.pos]
    ensures Fold(ts, left, level, start, first).Success? ==> Built(first, Fold(ts, left, level, start, first).value, level)
    decreases |ts| - left.pos, level + 1, 0
  {
    OperatorsOfLevel(level, op.kind);
    OperandBuilt(ts, rpos, left.nextId, level);
    match Operand(ts, rpos, left.nextId, level)
    case Failure(_) =>
      FoldOperandFails(ts, left, level, start, first, rpos);
    case Success(right) =>
      var next := Parsed(Binary(right.nextId, left.expr, op, right.expr), right.pos, right.nextId + 1);
      BuiltFold(first, left, right, op, level);
      FoldUnfolds(ts, left, level, start, first, rpos, op, right, next);
      FoldBuilt(ts, next, level, start, first);
  }

  /** A level's loop that fails to parse the operand after an operator fails. */
  lemma {:induction false} FoldOperandFails(ts: seq<Token>, left: Parsed, level: nat, start: nat, first: NodeId, rpos: nat)
    requires EofTerminated(ts) && 1 <= level <= 4 && left.pos < |ts|
    requires Match(ts, left.pos, Operators(level)) && rpos == left.pos + 1
    requires Operand(ts, rpos, left.nextId, level).Failure?
    ensures Fold(ts, left, level, start, first).Failure?
  {
  }

  /** One turn of a level's loop: the operator and operand join the tree so far. */
  lemma {:induction false} FoldUnfolds(ts: seq<Token>, left: Parsed, level: nat, start: nat, first: NodeId, rpos: nat, op: Token,
                    right: Parsed, next: Parsed)
    requires EofTerminated(ts) && 1 <= level <= 4 && left.pos < |ts|
    requires Match(ts, left.pos, Operators(level)) && rpos == left.pos + 1 && op == ts[left.pos]
    requires Operand(ts, rpos, left.nextId, level) == Success(right)
    requires next == Parsed(Binary(right.nextId, left.expr, op, right.expr), right.pos, right.nextId + 1)
    ensures Fold(ts, left, level, start, first) == Fold(ts, next, level, start, first)
  {
  }

  lemma {:induction false} BuiltFold(first: NodeId, left: Parsed, right: Parsed, op: Token, level: nat)
    requires 1 <= level <= 4 && OperatorLevel(op.kind) == level
    requires Built(first, left, level) && Built(left.nextId, right, level - 1)
    ensures Built(first, Parsed(Binary(right.nextId, left.expr, op, right.expr), right.pos, right.nextId + 1), level)
  {
  }

  /** A unary parse is a chain of prefix operators over a primary: never a binary node. */
  lemma {:induction false} UnaryBuilt(ts: seq<Token>, pos: nat, first: NodeId)
    requires EofTerminated(ts) && pos < |ts|
    ensures Unary(ts, pos, first).Success? ==> Built(first, Unary(ts, pos, first).value, 0)
    decreases |ts| - pos, 1, 0
  {
    if Match(ts, pos, UnaryOperators) {
      UnaryBuilt(ts, pos + 1, first);
    } else {
      PrimaryBuilt(ts, pos, first);
    }
  }

  /** A primary is a literal or a grouping. */
  lemma {:induction false} PrimaryBuilt(ts: seq<Token>, pos: nat, first: NodeId)
    requires EofTerminated(ts) && pos < |ts|
    ensures Primary(ts, pos, first).Success? ==> Built(first, Primary(ts, pos, first).value, 0)
    decreases |ts| - pos, 0, 0
  {
    if !Match(ts, pos, [Number, String]) && !Match(ts, pos, [False]) && !Match(ts, pos, [True])
       && !Match(ts, pos, [NilKeyword]) && !Match(ts, pos, [Identifier]) && Match(ts, pos, [LeftParen]) {
      GroupingBuilt(ts, pos + 1, first, pos);
    }
  }

  /** A grouping wraps any expression. */
  lemma {:induction false} GroupingBuilt(ts: seq<Token>, pos: nat, first: NodeId, open: nat)
    requires EofTerminated(ts) && open + 1 == pos < |ts| && ts[open].kind != Eof
    ensures Grouping(ts, pos, first, open).Success? ==> Built(first, Grouping(ts, pos, first, open).value, 0)
    decreases |ts| - pos, 7, 0
  {
    ExpressionBuilt(ts, pos, first);
  }

  // ---------------------------------------------------------------------
  // The top-level loop
  // ---------------------------------------------------------------------

  /**
   * The expressions of a run, numbered one after another from `first`: the
   * ids of the whole run are the consecutive numbers from `first`.
   */
  ghost predicate NumberedRun(es: seq<Expr>, first: NodeId)
    decreases |es|
  {
    |es| == 0 || (PostOrderFrom(es[0], first) && NumberedRun(es[1..], first + Size(es[0])))
  }

  /** `Parse` from a position, with the expressions completed so far in `done`. */
  function ParseFrom(ts: seq<Token>, pos: nat, first: NodeId, done: seq<Expr>): (r: ParseOutcome)
    requires EofTerminated(ts) && pos < |ts|
    ensures r.Completed? ==> |done| <= |r.expressions| && r.expressions[..|done|] == done
    ensures r.Completed? ==> forall i :: |done| <= i < |r.expressions| ==> Shaped(r.expressions[i])
    ensures r.Completed? ==> NumberedRun(r.expressions[|done|..], first)
    ensures r.Completed? && r.reported.Some? ==> r.reported.value.VowelError?
    ensures r.Completed? && r.reported.None? ==> IsAtEnd(ts, pos) || |r.expressions| > |done|
    ensures r.Escaped? ==> r.fault == RuntimeError("Unexpected token")
    decreases |ts| - pos
  {
    if IsAtEnd(ts, pos) then Completed(done, None)
    else
      match Expression(ts, pos, first)
      case Success(p) =>
        ExpressionBuilt(ts, pos, first);
        var r := ParseFrom(ts, p.pos, p.nextId, done + [p.expr]);
        RunGrows(r, done, p.expr, first);
        r
      case Failure(f) => if f.VowelError? then Completed(done, Some(f)) else Escaped(f)
  }

  /** A run that continues where an expression numbered from `first` ends is a run from `first`. */
  lemma {:induction false} RunGrows(r: ParseOutcome, done: seq<Expr>, e: Expr, first: NodeId)
    requires PostOrderFrom(e, first)
    requires r.Completed? ==> |done + [e]| <= |r.expressions| && r.expressions[..|done + [e]|] == done + [e]
    requires r.Completed? ==> NumberedRun(r.expressions[|done + [e]|..], first + Size(e))
    ensures r.Completed? ==> NumberedRun(r.expressions[|done|..], first)
  {
    if r.Completed? {
      var es := r.expressions;
      assert es[|done|] == (done + [e])[|done|] == e;
      assert es[|done|..][1..] == es[|done| + 1..];
    }
  }

  /**
   * `Parse`: expressions until the EOF token. A VowelError is reported and
   * ends the loop with the expressions completed so far; the RuntimeError of
   * an unexpected token escapes.
   */
  function Parse(ts: seq<Token>): (r: ParseOutcome)
    requires EofTerminated(ts)
    ensures r.Completed? ==> (forall i :: 0 <= i < |r.expressions| ==> Shaped(r.expressions[i]))
    ensures r.Completed? ==> NumberedRun(r.expressions, 0)
    ensures r.Completed? && r.reported.Some? ==> r.reported.value.VowelError?
    ensures r.Escaped? ==> r.fault == RuntimeError("Unexpected token")
  {
    ParseFrom(ts, 0, 0, [])
  }
}
