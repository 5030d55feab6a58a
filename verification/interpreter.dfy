/**
 * Expression evaluation (Runtime/Interpreter.cs) and the helpers it shares
 * with Runtime/InterpreterTools.cs: `Power`, `CheckForDouble`, `IsEqual`,
 * `IsTruthy` and `Compare`, which read the same in both files.
 *
 * Doubles are modelled as reals: rounding, infinities and NaN are not part
 * of this model. C#'s formatting of doubles and of reference objects is the
 * host's `Printer`. The recursion depth C#'s call stack allows before
 * `Power` overflows it is the host's `stackDepth`.
 *
 * Two places read as evidently unintended. Every member they reach takes a
 * `Reading`: `AsWritten` is the code, `Intended` is the evident intent.
 *   - unary minus returns its operand unchanged;
 *   - `x ^ 0` returns the boxed `int` 1, not the double 1.
 */
module Interpreter {
  import opened Wrappers
  import opened Values
  import opened Tokens
  import opened Errors
  import opened Ast

  datatype Reading = AsWritten | Intended

  /** What the host supplies: how values print, and how deep the call stack may grow. */
  datatype Host = Host(printer: Printer, stackDepth: nat)

  // ---------------------------------------------------------------------
  // Power
  // ---------------------------------------------------------------------

  /** `value` to the natural power `n`: the reference for `Power`. */
  function Pow(value: real, n: nat): real {
    if n == 0 then 1.0 else value * Pow(value, n - 1)
  }

  /**
   * `Power(value, power)` with room for `depth` more nested calls: it stops
   * when `power` reaches 0 and otherwise multiplies by the power one less.
   * Running out of room is C#'s stack overflow.
   */
  function PowerFrom(value: real, power: real, depth: nat): (r: Result<real, Fault>)
    ensures r.Failure? ==> r.error == SystemFault(StackOverflow)
    decreases depth
  {
    if power == 0.0 then Success(1.0)
    else if depth == 0 then Failure(SystemFault(StackOverflow))
    else
      match PowerFrom(value, power - 1.0, depth - 1)
      case Failure(f) => Failure(f)
      case Success(x) => Success(value * x)
  }

  /** An exponent `Power` can count down to 0: a whole number that is not negative. */
  predicate Whole(power: real) {
    power >= 0.0 && power == power.Floor as real
  }

  /** A whole exponent within the stack depth gives `Pow`. */
  lemma {:induction false} PowerOfWhole(value: real, n: nat, depth: nat)
    requires n <= depth
    ensures PowerFrom(value, n as real, depth).Success?
    ensures PowerFrom(value, n as real, depth).value == Pow(value, n)
  {
    if n > 0 {
      assert (n - 1) as real == n as real - 1.0;
      PowerOfWhole(value, n - 1, depth - 1);
    }
  }

  /** A whole exponent beyond the stack depth overflows the stack. */
  lemma {:induction false} PowerBeyondDepth(value: real, n: nat, depth: nat)
    requires n > depth
    ensures PowerFrom(value, n as real, depth).Failure?
    decreases depth
  {
    if depth > 0 {
      PowerBeyondDepth(value, n - 1, depth - 1);
      assert (n - 1) as real == n as real - 1.0;
    }
  }

  /**
   * An exponent that is negative or has a fraction never reaches 0 by
   * subtracting 1, so the recursion overflows the stack however deep it
   * may grow.
   */
  lemma {:induction false} PowerOfFractionOverflows(value: real, power: real, depth: nat)
    requires !Whole(power)
    ensures PowerFrom(value, power, depth).Failure?
    decreases depth
  {
    assert power != 0.0;
    if depth > 0 {
      WholeStep(power);
      PowerOfFractionOverflows(value, power - 1.0, depth - 1);
    }
  }

  lemma {:induction false} WholeStep(power: real)
    ensures Whole(power - 1.0) ==> Whole(power)
  {
    assert (power - 1.0).Floor == power.Floor - 1;
  }

  /** `Power` succeeds exactly for a whole exponent within the stack depth, and then gives `Pow`. */
  lemma {:induction false} PowerSucceedsExactly(value: real, power: real, depth: nat)
    ensures PowerFrom(value, power, depth).Success? <==> Whole(power) && power.Floor <= depth
    ensures Whole(power) && power.Floor <= depth ==> PowerFrom(value, power, depth).value == Pow(value, power.Floor)
  {
    if !Whole(power) {
      PowerOfFractionOverflows(value, power, depth);
    } else {
      var n: nat := power.Floor;
      assert power == n as real;
      if n <= depth { PowerOfWhole(value, n, depth); } else { PowerBeyondDepth(value, n, depth); }
    }
  }

  // ---------------------------------------------------------------------
  // Tools
  // ---------------------------------------------------------------------

  /** The message of `CheckForDouble` for an operand of operator `op` on `side` that printed as `found`. */
  function NotDouble(op: Token, side: string, found: string): string {
    op.lexeme + " requires " + side + " value to be type 'double' but found " + found
  }

  /**
   * `CheckForDouble`: the fault it throws when an operand is not a double,
   * the left operand first; `None` when both are.
   */
  function CheckForDouble(left: Value, right: Value, op: Token, p: Printer): (r: Option<Fault>)
    ensures r.None? <==> left.Num? && right.Num?
    ensures !left.Num? ==> r == Some(RuntimeError(NotDouble(op, "left", Show(left, p))))
    ensures left.Num? && !right.Num? ==> r == Some(RuntimeError(NotDouble(op, "right", Show(right, p))))
  {
    if !left.Num? then Some(RuntimeError(NotDouble(op, "left", Show(left, p))))
    else if !right.Num? then Some(RuntimeError(NotDouble(op, "right", Show(right, p))))
    else None
  }

  /**
   * `Object.Equals` of a boxed value: a double, string, bool or int equals
   * only a value of its own type holding the same contents; a reference
   * object only itself.
   */
  function EqualsMethod(left: Value, right: Value): bool
    requires !left.Nil?
  {
    match left
    case Num(a) => right.Num? && right.n == a
    case Str(s) => right.Str? && right.s == s
    case Bool(b) => right.Bool? && right.b == b
    case Int(i) => right.Int? && right.i == i
    case Ref(a) => right.Ref? && right.addr == a
  }

  /**
   * `IsEqual`: null equals only null; otherwise the left value's `Equals`.
   * That is exactly equality of the modelled values, so a boxed int never
   * equals a double.
   */
  function IsEqual(left: Value, right: Value): (r: bool)
    ensures r <==> left == right
  {
    if right.Nil? && left.Nil? then true
    else if left.Nil? then false
    else EqualsMethod(left, right)
  }

  /** `IsTruthy`: null and `false` are falsy; every other value is truthy. */
  function IsTruthy(v: Value): (r: bool)
    ensures r <==> v != Nil && v != Bool(false)
  {
    if v.Nil? then false
    else if v.Bool? then v.b
    else true
  }

  /** The four comparison operators. */
  predicate IsComparison(k: TokenKind) {
    k == Greater || k == GreaterEqual || k == Less || k == LessEqual
  }

  /** The operators `CheckForDouble` guards: they demand two doubles. */
  predicate IsArithmetic(k: TokenKind) {
    k == Minus || k == Star || k == Slash || k == Percent || k == Caret
  }

  /** The relation an operator kind names, on two numbers; `false` for any other kind. */
  predicate Holds(k: TokenKind, a: real, b: real) {
    match k
    case Greater => a > b
    case GreaterEqual => a >= b
    case Less => a < b
    case LessEqual => a <= b
    case _ => false
  }

  /**
   * `Compare`, case by case as written: null on either side is `false`;
   * for each operator, a pair of doubles compares as numbers, a string
   * compares by its length against a double or against another string's
   * length, and any other pair is `false`.
   */
  function Compare(left: Value, right: Value, k: TokenKind): bool {
    if left.Nil? || right.Nil? then false
    else
      match k
      case Greater =>
        if left.Num? && right.Num? then left.n > right.n
        else if left.Str? && right.Num? then |left.s| as real > right.n
        else if left.Num? && right.Str? then left.n > |right.s| as real
        else if left.Str? && right.Str? then |left.s| > |right.s|
        else false
      case GreaterEqual =>
        if left.Num? && right.Num? then left.n >= right.n
        else if left.Str? && right.Num? then |left.s| as real >= right.n
        else if left.Num? && right.Str? then left.n >= |right.s| as real
        else if left.Str? && right.Str? then |left.s| >= |right.s|
        else false
      case Less =>
        if left.Num? && right.Num? then left.n < right.n
        else if left.Str? && right.Num? then (|left.s| as real) < right.n
        else if left.Num? && right.Str? then left.n < |right.s| as real
        else if left.Str? && right.Str? then |left.s| < |right.s|
        else false
      case LessEqual =>
        if left.Num? && right.Num? then left.n <= right.n
        else if left.Str? && right.Num? then |left.s| as real <= right.n
        else if left.Num? && right.Str? then left.n <= |right.s| as real
        else if left.Str? && right.Str? then |left.s| <= |right.s|
        else false
      case _ => false
  }

  /** The number a value is compared by: a double itself, a string its length; nothing else has one. */
  function Measure(v: Value): Option<real> {
    match v
    case Num(n) => Some(n)
    case Str(s) => Some(|s| as real)
    case _ => None
  }

  /**
   * `Compare` compares measures: it holds exactly when both values have a
   * measure and the operator's relation holds between them.
   */
  lemma {:induction false} CompareByMeasure(left: Value, right: Value, k: TokenKind)
    ensures Compare(left, right, k) <==>
              Measure(left).Some? && Measure(right).Some? && Holds(k, Measure(left).value, Measure(right).value)
  {
  }

  /**
   * On two measurable values the operators pair up as complements:
   * `>` is "not `<=`" and `<` is "not `>=`". On any other pair all four are
   * false, so neither complement holds.
   */
  lemma {:induction false} ComparisonComplements(left: Value, right: Value)
    ensures Measure(left).Some? && Measure(right).Some? ==>
              && Compare(left, right, Greater) == !Compare(left, right, LessEqual)
              && Compare(left, right, Less) == !Compare(left, right, GreaterEqual)
    ensures Measure(left).None? || Measure(right).None? ==>
              forall k :: IsComparison(k) ==> !Compare(left, right, k)
  {
    CompareByMeasure(left, right, Greater);
    CompareByMeasure(left, right, GreaterEqual);
    CompareByMeasure(left, right, Less);
    CompareByMeasure(left, right, LessEqual);
  }

  /** The example of the source's comment: `"class string" > 4` holds, since the string is 12 long. */
  lemma {:induction false} StringLongerThanNumber()
    ensures Compare(Str("class string"), Num(4.0), Greater)
  {
  }

  // ---------------------------------------------------------------------
  // Operators
  // ---------------------------------------------------------------------

  /** The quotient rounded toward zero. */
  function Truncate(x: real): int {
    if x >= 0.0 then x.Floor else -((-x).Floor)
  }

  /** C#'s `%` on doubles: the remainder of the quotient truncated toward zero. */
  function Remainder(a: real, b: real): real
    requires b != 0.0
  {
    a - b * Truncate(a / b) as real
  }

  lemma {:induction false} TruncateBounds(x: real)
    ensures x >= 0.0 ==> 0.0 <= x - Truncate(x) as real < 1.0
    ensures x < 0.0 ==> -1.0 < x - Truncate(x) as real <= 0.0
  {
  }

  /** Divided by `b`, the remainder is the fraction the truncation drops from `a / b`. */
  lemma {:induction false} RemainderOverDivisor(a: real, b: real)
    requires b != 0.0
    ensures Remainder(a, b) / b == a / b - Truncate(a / b) as real
  {
  }

  /** A number whose quotient by `b` lies strictly between -1 and 1 is smaller than `b` in size. */
  lemma {:induction false} BelowDivisor(r: real, b: real)
    requires b != 0.0 && -1.0 < r / b < 1.0
    ensures b > 0.0 ==> -b < r < b
    ensures b < 0.0 ==> b < r < -b
  {
    assert r == (r / b) * b;
  }

  /** Two numbers whose quotients by `b` agree in sign agree in sign. */
  lemma {:induction false} SignThroughDivisor(r: real, a: real, b: real)
    requires b != 0.0 && (a / b >= 0.0 ==> r / b >= 0.0) && (a / b <= 0.0 ==> r / b <= 0.0)
    ensures a >= 0.0 ==> r >= 0.0
    ensures a <= 0.0 ==> r <= 0.0
  {
    assert r == (r / b) * b;
    assert a == (a / b) * b;
  }

  /** Taking the remainder removes a whole multiple of `b` from `a`. */
  lemma {:induction false} RemainderMultiple(a: real, b: real)
    requires b != 0.0
    ensures (a - Remainder(a, b)) / b == Truncate(a / b) as real
  {
    assert a - Remainder(a, b) == b * Truncate(a / b) as real;
  }

  /** The remainder is smaller than the divisor in size. */
  lemma {:induction false} RemainderSmall(a: real, b: real)
    requires b != 0.0
    ensures b > 0.0 ==> -b < Remainder(a, b) < b
    ensures b < 0.0 ==> b < Remainder(a, b) < -b
  {
    RemainderOverDivisor(a, b);
    TruncateBounds(a / b);
    BelowDivisor(Remainder(a, b), b);
  }

  /** The remainder is never of the opposite sign to the dividend. */
  lemma {:induction false} RemainderSign(a: real, b: real)
    requires b != 0.0
    ensures a >= 0.0 ==> Remainder(a, b) >= 0.0
    ensures a <= 0.0 ==> Remainder(a, b) <= 0.0
  {
    RemainderOverDivisor(a, b);
    TruncateBounds(a / b);
    SignThroughDivisor(Remainder(a, b), a, b);
  }

  /**
   * The remainder is `a` less a whole multiple of `b`, is smaller than `b`
   * in size, and is never of the opposite sign to `a`.
   */
  lemma {:induction false} RemainderSpec(a: real, b: real)
    requires b != 0.0
    ensures var m := (a - Remainder(a, b)) / b; m == m.Floor as real
    ensures b > 0.0 ==> -b < Remainder(a, b) < b
    ensures b < 0.0 ==> b < Remainder(a, b) < -b
    ensures a >= 0.0 ==> Remainder(a, b) >= 0.0
    ensures a <= 0.0 ==> Remainder(a, b) <= 0.0
  {
    RemainderMultiple(a, b);
    RemainderSmall(a, b);
    RemainderSign(a, b);
  }

  /** The value `x ^ 0` gives: the boxed `int` 1 as written, the double 1 as intended. */
  function ZeroPower(reading: Reading): (r: Value)
    ensures reading == Intended <==> r == Num(1.0)
    ensures reading == AsWritten ==> r == Int(1)
  {
    match reading
    case AsWritten => Int(1)
    case Intended => Num(1.0)
  }

  /** A double operator on two doubles that both passed `CheckForDouble`. */
  function Arithmetic(k: TokenKind, a: real, b: real, h: Host, reading: Reading): (r: Result<Value, Fault>)
    requires IsArithmetic(k)
    ensures r.Failure? ==> r.error == RuntimeError("Zero division") || r.error == SystemFault(StackOverflow)
    ensures r.Success? && k != Caret ==> r.value.Num?
    ensures k == Minus ==> r == Success(Num(a - b))
    ensures k == Star ==> r == Success(Num(a * b))
    ensures k == Slash ==> (r.Failure? <==> b == 0.0)
    ensures k == Slash && b != 0.0 ==> r == Success(Num(a / b))
    ensures k == Percent ==> (r.Failure? <==> b == 0.0)
    ensures k == Percent && b != 0.0 ==> r == Success(Num(Remainder(a, b)))
    ensures k == Caret && b == 0.0 ==> r == Success(ZeroPower(reading))
    ensures k == Caret && b != 0.0 ==> (r.Success? <==> PowerFrom(a, b, h.stackDepth).Success?)
    ensures k == Caret && b != 0.0 && r.Success? ==> r.value == Num(PowerFrom(a, b, h.stackDepth).value)
  {
    match k
    case Minus => Success(Num(a - b))
    case Star => Success(Num(a * b))
    case Slash => if b == 0.0 then Failure(RuntimeError("Zero division")) else Success(Num(a / b))
    case Percent => if b == 0.0 then Failure(RuntimeError("Zero division")) else Success(Num(Remainder(a, b)))
    case Caret =>
      if b == 0.0 then Success(ZeroPower(reading))
      else
        match PowerFrom(a, b, h.stackDepth)
        case Failure(f) => Failure(f)
        case Success(x) => Success(Num(x))
  }

  /**
   * `VisitBinaryExpr` once both operands are evaluated. `+` adds two
   * doubles and otherwise joins the operands' texts; the other arithmetic
   * operators demand doubles; `==` and `!=` compare with `IsEqual`; the
   * comparison operators use `Compare`; any other operator is an error.
   */
  function BinaryOp(op: Token, left: Value, right: Value, h: Host, reading: Reading): (r: Result<Value, Fault>)
    ensures op.kind == Plus ==> r.Success?
    ensures op.kind == Plus && left.Num? && right.Num? ==> r.value == Num(left.n + right.n)
    ensures op.kind == Plus && !(left.Num? && right.Num?) ==> r.value == Str(Show(left, h.printer) + Show(right, h.printer))
    ensures IsArithmetic(op.kind) && !(left.Num? && right.Num?) ==>
              r == Failure(CheckForDouble(left, right, op, h.printer).value)
    ensures (op.kind == Slash || op.kind == Percent) ==>
              (r == Failure(RuntimeError("Zero division")) <==> left.Num? && right == Num(0.0))
    ensures op.kind == EqualEqual ==> r == Success(Bool(left == right))
    ensures op.kind == BangEqual ==> r == Success(Bool(left != right))
    ensures IsComparison(op.kind) ==> r == Success(Bool(Compare(left, right, op.kind)))
    ensures IsArithmetic(op.kind) && left.Num? && right.Num? ==> r == Arithmetic(op.kind, left.n, right.n, h, reading)
    ensures r.Failure? ==> r.error.RuntimeError? || r.error == SystemFault(StackOverflow)
    ensures !(op.kind == Plus || IsArithmetic(op.kind) || op.kind == EqualEqual || op.kind == BangEqual || IsComparison(op.kind)) ==>
              r == Failure(RuntimeError("Could not perform operation"))
  {
    if op.kind == Plus then
      if left.Num? && right.Num? then Success(Num(left.n + right.n))
      else Success(Str(Show(left, h.printer) + Show(right, h.printer)))
    else if IsArithmetic(op.kind) then Checked(op, left, right, h, reading)
    else if op.kind == EqualEqual then Success(Bool(IsEqual(left, right)))
    else if op.kind == BangEqual then Success(Bool(!IsEqual(left, right)))
    else if IsComparison(op.kind) then Success(Bool(Compare(left, right, op.kind)))
    else Failure(RuntimeError("Could not perform operation"))
  }

  /** `CheckForDouble`, then the operator on the two doubles. */
  function Checked(op: Token, left: Value, right: Value, h: Host, reading: Reading): (r: Result<Value, Fault>)
    requires IsArithmetic(op.kind)
    ensures !(left.Num? && right.Num?) ==> r == Failure(CheckForDouble(left, right, op, h.printer).value)
    ensures left.Num? && right.Num? ==> r == Arithmetic(op.kind, left.n, right.n, h, reading)
  {
    match CheckForDouble(left, right, op, h.printer)
    case Some(f) => Failure(f)
    case None => Arithmetic(op.kind, left.n, right.n, h, reading)
  }

  /**
   * `VisitUnaryExpr` once the operand is evaluated. Minus demands a double;
   * as written it then returns the operand itself. Every other operator,
   * `!` included, is unknown.
   */
  function UnaryOp(op: Token, operand: Value, reading: Reading): (r: Result<Value, Fault>)
    ensures op.kind != Minus ==> r == Failure(RuntimeError("Unknown operator"))
    ensures op.kind == Minus ==> (r.Success? <==> operand.Num?)
    ensures op.kind == Minus && !operand.Num? ==> r == Failure(RuntimeError("unary operand must be double"))
    ensures op.kind == Minus && operand.Num? && reading == AsWritten ==> r == Success(operand)
    ensures op.kind == Minus && operand.Num? && reading == Intended ==> r == Success(Num(-operand.n))
  {
    match op.kind
    case Minus =>
      if !operand.Num? then Failure(RuntimeError("unary operand must be double"))
      else if reading == AsWritten then Success(operand)
      else Success(Num(-operand.n))
    case _ => Failure(RuntimeError("Unknown operator"))
  }

  // ---------------------------------------------------------------------
  // Evaluation
  // ---------------------------------------------------------------------

  /** The expressions this interpreter has visitor methods for: binary, unary, group and literal. */
  predicate Evaluable(e: Expr)
    decreases e
  {
    match e
    case Binary(_, l, _, r) => Evaluable(l) && Evaluable(r)
    case Unary(_, _, x) => Evaluable(x)
    case Group(_, x) => Evaluable(x)
    case Literal(_, _) => true
    case _ => false
  }

  /**
   * `Evaluate`: a literal is its value; a group is its inner expression; a
   * unary expression evaluates its operand; a binary expression evaluates
   * the left operand, then the right, then applies the operator. A fault
   * ends evaluation at once.
   */
  function Eval(e: Expr, h: Host, reading: Reading): (r: Result<Value, Fault>)
    requires Evaluable(e)
    ensures r.Failure? ==> r.error.RuntimeError? || r.error == SystemFault(StackOverflow)
    decreases e
  {
    match e
    case Literal(_, v) => Success(v)
    case Group(_, x) => Eval(x, h, reading)
    case Unary(_, op, x) =>
      var v :- Eval(x, h, reading);
      UnaryOp(op, v, reading)
    case Binary(_, l, op, rt) =>
      var a :- Eval(l, h, reading);
      var b :- Eval(rt, h, reading);
      BinaryOp(op, a, b, h, reading)
  }

  /** `Interpret`: evaluates and discards the value; the fault that escapes, if any. */
  function Interpret(e: Expr, h: Host, reading: Reading): (r: Option<Fault>)
    requires Evaluable(e)
    ensures r.None? <==> Eval(e, h, reading).Success?
    ensures r.Some? ==> !r.value.VowelError?
  {
    match Eval(e, h, reading)
    case Failure(f) => Some(f)
    case Success(_) => None
  }

  /** A literal evaluates to the value it stores, of whatever kind, and never fails. */
  lemma {:induction false} LiteralIsItsValue(id: NodeId, v: Value, h: Host, reading: Reading)
    ensures Eval(Literal(id, v), h, reading) == Success(v)
    ensures Interpret(Literal(id, v), h, reading) == None
  {
  }

  /** Parentheses do not change a value. */
  lemma {:induction false} GroupIsTransparent(id: NodeId, x: Expr, h: Host, reading: Reading)
    requires Evaluable(x)
    ensures Eval(Group(id, x), h, reading) == Eval(x, h, reading)
  {
  }

  /**
   * Operands are evaluated left to right: a fault in the left operand is
   * the fault of the whole, whatever the right operand would do; a fault in
   * the right operand is the fault of the whole once the left succeeds.
   */
  lemma {:induction false} LeftOperandFirst(id: NodeId, l: Expr, op: Token, rt: Expr, h: Host, reading: Reading)
    requires Evaluable(l) && Evaluable(rt)
    ensures Eval(l, h, reading).Failure? ==> Eval(Binary(id, l, op, rt), h, reading) == Eval(l, h, reading)
    ensures Eval(l, h, reading).Success? && Eval(rt, h, reading).Failure? ==>
              Eval(Binary(id, l, op, rt), h, reading) == Eval(rt, h, reading)
  {
  }

  /**
   * The value of an expression depends on its structure and not on node
   * ids: renumbering a tree leaves its value alone.
   */
  lemma {:induction false} EvalIgnoresIds(e: Expr, f: Expr, h: Host, reading: Reading)
    requires Evaluable(e) && SameShape(e, f)
    ensures Evaluable(f) && Eval(e, h, reading) == Eval(f, h, reading)
    decreases e
  {
    match e
    case Literal(_, _) =>
    case Group(_, x) => EvalIgnoresIds(x, f.inner, h, reading);
    case Unary(_, _, x) => EvalIgnoresIds(x, f.operand, h, reading);
    case Binary(_, l, _, rt) =>
      EvalIgnoresIds(l, f.left, h, reading);
      EvalIgnoresIds(rt, f.right, h, reading);
  }

  /** A unary expression whose operand has a value applies its operator to that value. */
  lemma {:induction false} EvalUnary(id: NodeId, op: Token, x: Expr, v: Value, h: Host, reading: Reading)
    requires Evaluable(x) && Eval(x, h, reading) == Success(v)
    ensures Eval(Unary(id, op, x), h, reading) == UnaryOp(op, v, reading)
  {
  }

  /** A binary expression whose operands have values applies its operator to them, left then right. */
  lemma {:induction false} EvalBinary(id: NodeId, l: Expr, op: Token, rt: Expr, a: Value, b: Value, h: Host, reading: Reading)
    requires Evaluable(l) && Evaluable(rt)
    requires Eval(l, h, reading) == Success(a) && Eval(rt, h, reading) == Success(b)
    ensures Eval(Binary(id, l, op, rt), h, reading) == BinaryOp(op, a, b, h, reading)
  {
  }

  /** Two evaluable trees equal up to node ids. */
  predicate SameShape(e: Expr, f: Expr)
    decreases e
  {
    match e
    case Literal(_, v) => f.Literal? && f.value == v
    case Group(_, x) => f.Group? && SameShape(x, f.inner)
    case Unary(_, op, x) => f.Unary? && f.op == op && SameShape(x, f.operand)
    case Binary(_, l, op, rt) => f.Binary? && f.op == op && SameShape(l, f.left) && SameShape(rt, f.right)
    case _ => false
  }

  // ---------------------------------------------------------------------
  // The two readings
  // ---------------------------------------------------------------------

  function Op(k: TokenKind, lexeme: string): Token {
    Token(k, lexeme, Nil, Location(0, 0))
  }

  /** As written, `-3` evaluates to 3: unary minus does not negate. */
  lemma {:induction false} MinusDoesNotNegate(h: Host)
    ensures Eval(Unary(1, Op(Minus, "-"), Literal(0, Num(3.0))), h, AsWritten) == Success(Num(3.0))
  {
  }

  /**
   * As intended, minus negates any double an expression yields, so
   * `x + -x` is 0 for every expression `x` whose value is a double.
   */
  lemma {:induction false} IntendedMinusNegates(x: Expr, n: real, h: Host)
    requires Evaluable(x) && Eval(x, h, Intended) == Success(Num(n))
    ensures Eval(Unary(0, Op(Minus, "-"), x), h, Intended) == Success(Num(-n))
    ensures Eval(Binary(0, x, Op(Plus, "+"), Unary(0, Op(Minus, "-"), x)), h, Intended) == Success(Num(0.0))
  {
    var minus, plus := Op(Minus, "-"), Op(Plus, "+");
    EvalUnary(0, minus, x, Num(n), h, Intended);
    EvalBinary(0, x, plus, Unary(0, minus, x), Num(n), Num(-n), h, Intended);
  }

  /** `x ^ y` over two number literals. */
  function PowerExpr(x: real, y: real): (r: Expr)
    ensures Evaluable(r) && r.Binary? && r.op.kind == Caret
  {
    Binary(2, Literal(0, Num(x)), Op(Caret, "^"), Literal(1, Num(y)))
  }

  /** `e == 1` over an evaluable `e`. */
  function EqualsOne(e: Expr): (r: Expr)
    requires Evaluable(e)
    ensures Evaluable(r) && r.Binary? && r.left == e && r.op.kind == EqualEqual
  {
    Binary(4, e, Op(EqualEqual, "=="), Literal(3, Num(1.0)))
  }

  /** `e - 1` over an evaluable `e`. */
  function MinusOne(e: Expr): (r: Expr)
    requires Evaluable(e)
    ensures Evaluable(r) && r.Binary? && r.left == e && r.op.kind == Minus
  {
    Binary(4, e, Op(Minus, "-"), Literal(3, Num(1.0)))
  }

  /** `x ^ y` evaluates to the operator applied to the two numbers. */
  lemma {:induction false} EvalPower(x: real, y: real, h: Host, reading: Reading)
    ensures Eval(PowerExpr(x, y), h, reading) == Arithmetic(Caret, x, y, h, reading)
  {
    var e := PowerExpr(x, y);
    EvalBinary(e.id, e.left, e.op, e.right, Num(x), Num(y), h, reading);
  }

  /**
   * As written, `2 ^ 0` is the boxed int 1, so `2 ^ 0 == 1` is false: a
   * boxed int never equals a double.
   */
  lemma {:induction false} ZeroPowerIsNotOne(h: Host)
    ensures Eval(PowerExpr(2.0, 0.0), h, AsWritten) == Success(Int(1))
    ensures Eval(EqualsOne(PowerExpr(2.0, 0.0)), h, AsWritten) == Success(Bool(false))
  {
    var e := EqualsOne(PowerExpr(2.0, 0.0));
    EvalPower(2.0, 0.0, h, AsWritten);
    EvalBinary(e.id, e.left, e.op, e.right, Int(1), Num(1.0), h, AsWritten);
  }

  /** As written, `2 ^ 0 - 1` is a type error: the boxed int, printed as `1`, is not a double. */
  lemma {:induction false} ZeroPowerIsNotADouble(h: Host)
    ensures Eval(MinusOne(PowerExpr(2.0, 0.0)), h, AsWritten)
            == Failure(RuntimeError(NotDouble(Op(Minus, "-"), "left", "1")))
  {
    var e := MinusOne(PowerExpr(2.0, 0.0));
    ZeroPowerIsNotOne(h);
    EvalBinary(e.id, e.left, e.op, e.right, Int(1), Num(1.0), h, AsWritten);
    MinusOnBoxedOne(e.op, h);
  }

  lemma {:induction false} MinusOnBoxedOne(minus: Token, h: Host)
    requires minus == Op(Minus, "-")
    ensures BinaryOp(minus, Int(1), Num(1.0), h, AsWritten) == Failure(RuntimeError(NotDouble(minus, "left", "1")))
  {
    assert Show(Int(1), h.printer) == "1";
    assert CheckForDouble(Int(1), Num(1.0), minus, h.printer) == Some(RuntimeError(NotDouble(minus, "left", "1")));
  }

  /**
   * As intended, `x ^ n` is the double `Pow(x, n)` for every whole `n`
   * within the stack depth, 0 included, so `x ^ 0 == 1` holds.
   */
  lemma {:induction false} IntendedPowerIsPow(x: real, n: nat, h: Host)
    requires n <= h.stackDepth
    ensures Eval(PowerExpr(x, n as real), h, Intended) == Success(Num(Pow(x, n)))
    ensures Eval(EqualsOne(PowerExpr(x, 0.0)), h, Intended) == Success(Bool(true))
  {
    EvalPower(x, n as real, h, Intended);
    if n > 0 { PowerOfWhole(x, n, h.stackDepth); }
    var e := EqualsOne(PowerExpr(x, 0.0));
    EvalPower(x, 0.0, h, Intended);
    EvalBinary(e.id, e.left, e.op, e.right, Num(1.0), Num(1.0), h, Intended);
  }
}
