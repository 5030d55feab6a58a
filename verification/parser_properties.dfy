/**
 * The parser inverts spelling: a shaped, post-order numbered tree, written
 * out as tokens, parses back to exactly that tree. Since `Shaped` asks every
 * level to fold left and every looser operator to sit above every tighter
 * one, this is the associativity and precedence of vParser/Parser.cs.
 */
module ParserProperties {
  import opened Wrappers
  import opened Values
  import opened Tokens
  import opened Errors
  import opened Ast
  import opened Parser

  const Nowhere := Location(0, 0)

  /** The token a literal is spelled with. */
  function LiteralToken(v: Value): Token {
    Token(Number, "", v, Nowhere)
  }

  const OpenToken := Token(LeftParen, "(", Nil, Nowhere)
  const CloseToken := Token(RightBrace, "}", Nil, Nowhere)

  /** The tokens of a parsed tree, in source order. */
  function Spell(e: Expr): seq<Token> {
    match e
    case Binary(_, l, op, r) => Spell(l) + [op] + Spell(r)
    case Unary(_, op, x) => [op] + Spell(x)
    case Group(_, x) => [OpenToken] + Spell(x) + [CloseToken]
    case Literal(_, v) => [LiteralToken(v)]
    case _ => []
  }

  /** `toks` sits in `ts` from `pos` on. */
  ghost predicate At(ts: seq<Token>, pos: nat, toks: seq<Token>)
    decreases |toks|
  {
    pos + |toks| <= |ts| && (|toks| == 0 || (ts[pos] == toks[0] && At(ts, pos + 1, toks[1..])))
  }

  /** The token at `q` ends an operand of `level`: it is no operator of that level or tighter. */
  ghost predicate StopsAt(ts: seq<Token>, q: nat, level: nat) {
    q < |ts| && !(1 <= OperatorLevel(ts[q].kind) <= level)
  }

  lemma {:induction false} SpellNonEmpty(e: Expr)
    requires Shaped(e)
    ensures |Spell(e)| >= 1
  {
    match e
    case Binary(_, l, _, _) => SpellNonEmpty(l);
    case Unary(_, _, _) =>
    case Group(_, _) =>
    case Literal(_, _) =>
  }

  lemma {:induction false} AtSplit(ts: seq<Token>, pos: nat, a: seq<Token>, b: seq<Token>)
    requires At(ts, pos, a + b)
    ensures At(ts, pos, a) && At(ts, pos + |a|, b)
    decreases |a|
  {
    if |a| == 0 {
      assert a + b == b;
    } else {
      assert (a + b)[0] == a[0];
      assert (a + b)[1..] == a[1..] + b;
      AtSplit(ts, pos + 1, a[1..], b);
    }
  }

  lemma {:induction false} AtElement(ts: seq<Token>, pos: nat, s: seq<Token>, k: nat)
    requires At(ts, pos, s) && k < |s|
    ensures ts[pos + k] == s[k]
    decreases k
  {
    if k > 0 {
      AtElement(ts, pos + 1, s[1..], k - 1);
    }
  }

  /** A list that starts with `toks` has `toks` at position 0. */
  lemma {:induction false} AtStart(toks: seq<Token>, rest: seq<Token>, pos: nat)
    requires pos <= |toks|
    ensures At(toks + rest, pos, toks[pos..])
    decreases |toks| - pos
  {
    if pos < |toks| {
      AtStart(toks, rest, pos + 1);
      assert toks[pos..][1..] == toks[pos + 1..];
    }
  }

  /** Whether `e` is a binary node of exactly `level`. */
  predicate AtLevel(e: Expr, level: nat) {
    e.Binary? && OperatorLevel(e.op.kind) == level
  }

  /** The bottom of the left spine of `level` nodes: the operand a level's fold starts from. */
  function Bottom(e: Expr, level: nat): Expr {
    if AtLevel(e, level) then Bottom(e.left, level) else e
  }

  /**
   * `e` is a shaped tree spelled in `ts` from `pos` up to (not including)
   * `end`, numbered in post order from `first` up to (not including) `next`.
   */
  ghost predicate Spelled(ts: seq<Token>, e: Expr, pos: nat, end: nat, first: NodeId, next: NodeId) {
    Shaped(e) && PostOrderFrom(e, first) && next == first + Size(e)
    && At(ts, pos, Spell(e)) && end == pos + |Spell(e)|
  }

  // ---------------------------------------------------------------------
  // One step of each parsing function
  // ---------------------------------------------------------------------

  lemma {:induction false} BinaryLevelStep(ts: seq<Token>, pos: nat, first: NodeId, level: nat, left: Parsed)
    requires EofTerminated(ts) && pos < |ts| && 1 <= level <= 4
    requires Operand(ts, pos, first, level) == Success(left)
    ensures BinaryLevel(ts, pos, first, level) == Fold(ts, left, level, pos, first)
  {
  }

  lemma {:induction false} FoldStops(ts: seq<Token>, left: Parsed, level: nat, start: nat, first: NodeId)
    requires EofTerminated(ts) && 1 <= level <= 4 && left.pos < |ts|
    requires !Match(ts, left.pos, Operators(level))
    ensures Fold(ts, left, level, start, first) == Success(left)
  {
  }

  lemma {:induction false} FoldStep(ts: seq<Token>, l: Expr, q: nat, rpos: nat, lnext: NodeId, level: nat, start: nat, first: NodeId,
                 op: Token, r: Expr, end: nat, id: NodeId, e: Expr, next: NodeId)
    requires EofTerminated(ts) && 1 <= level <= 4 && q < |ts| && ts[q] == op && rpos == q + 1
    requires Match(ts, q, Operators(level))
    requires Operand(ts, rpos, lnext, level) == Success(Parsed(r, end, id))
    requires e == Binary(id, l, op, r) && next == id + 1
    ensures Fold(ts, Parsed(l, q, lnext), level, start, first) == Fold(ts, Parsed(e, end, next), level, start, first)
  {
  }

  lemma {:induction false} UnaryStep(ts: seq<Token>, pos: nat, xpos: nat, first: NodeId, x: Expr, end: nat, id: NodeId)
    requires EofTerminated(ts) && xpos == pos + 1 && xpos < |ts|
    requires Match(ts, pos, UnaryOperators)
    requires Parser.Unary(ts, xpos, first) == Success(Parsed(x, end, id))
    ensures Parser.Unary(ts, pos, first) == Success(Parsed(Ast.Unary(id, ts[pos], x), end, id + 1))
  {
  }

  lemma {:induction false} UnaryIsPrimary(ts: seq<Token>, pos: nat, first: NodeId)
    requires EofTerminated(ts) && pos < |ts|
    requires !Match(ts, pos, UnaryOperators)
    ensures Parser.Unary(ts, pos, first) == Primary(ts, pos, first)
  {
  }

  lemma {:induction false} PrimaryNumber(ts: seq<Token>, pos: nat, end: nat, first: NodeId, next: NodeId)
    requires EofTerminated(ts) && pos < |ts| && ts[pos].kind == Number && end == pos + 1 && next == first + 1
    ensures Primary(ts, pos, first) == Success(Parsed(Literal(first, ts[pos].literal), end, next))
  {
  }

  lemma {:induction false} PrimaryParen(ts: seq<Token>, pos: nat, xpos: nat, first: NodeId)
    requires EofTerminated(ts) && xpos == pos + 1 && xpos < |ts| && ts[pos].kind == LeftParen
    ensures Primary(ts, pos, first) == Grouping(ts, xpos, first, pos)
  {
    assert !Match(ts, pos, [Number, String]) && !Match(ts, pos, [False]) && !Match(ts, pos, [True]);
    assert !Match(ts, pos, [NilKeyword]) && !Match(ts, pos, [Identifier]) && Match(ts, pos, [LeftParen]);
  }

  lemma {:induction false} GroupingStep(ts: seq<Token>, pos: nat, first: NodeId, open: nat, x: Expr, xend: nat, id: NodeId, end: nat)
    requires EofTerminated(ts) && open + 1 == pos < |ts| && ts[open].kind != Eof
    requires BinaryLevel(ts, pos, first, 4) == Success(Parsed(x, xend, id))
    requires ts[xend].kind == RightBrace && end == xend + 1
    ensures Grouping(ts, pos, first, open) == Success(Parsed(Group(id, x), end, id + 1))
  {
  }

  // ---------------------------------------------------------------------
  // Where the pieces of a spelled tree sit
  // ---------------------------------------------------------------------

  /** The pieces of a spelled binary node of a level: left operand, operator, right operand. */
  lemma {:induction false} BinarySplit(ts: seq<Token>, e: Expr, pos: nat, end: nat, first: NodeId, next: NodeId, level: nat,
                    l: Expr, op: Token, r: Expr, q: nat, rpos: nat, lnext: NodeId)
    requires Spelled(ts, e, pos, end, first, next) && AtLevel(e, level)
    requires l == e.left && op == e.op && r == e.right
    requires q == pos + |Spell(l)| && rpos == q + 1 && lnext == first + Size(l)
    ensures Spelled(ts, l, pos, q, first, lnext) && Level(l) <= level
    ensures q < |ts| && ts[q] == op && OperatorLevel(op.kind) == level
    ensures Spelled(ts, r, rpos, end, lnext, e.id) && Level(r) < level
    ensures e == Binary(e.id, l, op, r) && next == e.id + 1
    ensures Size(e) == Size(l) + Size(r) + 1
  {
    BinaryTree(e, first, next, level, l, op, r, lnext);
    BinaryTokens(ts, e, pos, end, l, op, r, q, rpos);
  }

  /** The subtrees of a shaped, numbered binary node of a level. */
  lemma {:induction false} BinaryTree(e: Expr, first: NodeId, next: NodeId, level: nat, l: Expr, op: Token, r: Expr, lnext: NodeId)
    requires Shaped(e) && PostOrderFrom(e, first) && next == first + Size(e) && AtLevel(e, level)
    requires l == e.left && op == e.op && r == e.right && lnext == first + Size(l)
    ensures Shaped(l) && PostOrderFrom(l, first) && Level(l) <= level
    ensures Shaped(r) && PostOrderFrom(r, lnext) && Level(r) < level && e.id == lnext + Size(r)
    ensures OperatorLevel(op.kind) == level && e == Binary(e.id, l, op, r) && next == e.id + 1
    ensures Size(e) == Size(l) + Size(r) + 1
  {
    NumberingLeft(e, first, l);
    NumberingRight(e, first, l, r, lnext);
    NumberingId(e, first, l, r, lnext);
    BinaryShape(e, level, l, op, r);
  }

  /** The left operand of a binary node numbered from `first` is numbered from `first`. */
  lemma {:induction false} NumberingLeft(e: Expr, first: NodeId, l: Expr)
    requires e.Binary? && PostOrderFrom(e, first) && l == e.left
    ensures PostOrderFrom(l, first)
  {
  }

  /** The right operand of a binary node numbered from `first` is numbered after the left one. */
  lemma {:induction false} NumberingRight(e: Expr, first: NodeId, l: Expr, r: Expr, lnext: NodeId)
    requires e.Binary? && PostOrderFrom(e, first)
    requires l == e.left && r == e.right && lnext == first + Size(l)
    ensures PostOrderFrom(r, lnext)
  {
  }

  /** A binary node numbered from `first` takes the id after both operands'. */
  lemma {:induction false} NumberingId(e: Expr, first: NodeId, l: Expr, r: Expr, lnext: NodeId)
    requires e.Binary? && PostOrderFrom(e, first)
    requires l == e.left && r == e.right && lnext == first + Size(l)
    ensures e.id == lnext + Size(r)
  {
  }

  /** The operands of a shaped binary node of a level are shaped, the right one below the level. */
  lemma {:induction false} BinaryShape(e: Expr, level: nat, l: Expr, op: Token, r: Expr)
    requires Shaped(e) && AtLevel(e, level)
    requires l == e.left && op == e.op && r == e.right
    ensures Shaped(l) && Level(l) <= level && Shaped(r) && Level(r) < level && OperatorLevel(op.kind) == level
  {
  }

  /** Where the operands and operator of a spelled binary node sit. */
  lemma {:induction false} BinaryTokens(ts: seq<Token>, e: Expr, pos: nat, end: nat, l: Expr, op: Token, r: Expr, q: nat, rpos: nat)
    requires e.Binary? && At(ts, pos, Spell(e)) && end == pos + |Spell(e)|
    requires l == e.left && op == e.op && r == e.right
    requires q == pos + |Spell(l)| && rpos == q + 1
    ensures At(ts, pos, Spell(l))
    ensures q < |ts| && ts[q] == op
    ensures At(ts, rpos, Spell(r)) && end == rpos + |Spell(r)|
  {
    assert Spell(e) == (Spell(l) + [op]) + Spell(r);
    AtSplit(ts, pos, Spell(l) + [op], Spell(r));
    AtSplit(ts, pos, Spell(l), [op]);
    AtElement(ts, q, [op], 0);
  }

  /** The pieces of a spelled unary node: the operator, then its operand. */
  lemma {:induction false} UnarySplit(ts: seq<Token>, e: Expr, pos: nat, end: nat, first: NodeId, next: NodeId,
                   x: Expr, xpos: nat, xnext: NodeId)
    requires Spelled(ts, e, pos, end, first, next) && e.Unary?
    requires x == e.operand && xpos == pos + 1 && xnext + 1 == next
    ensures Spelled(ts, x, xpos, end, first, xnext) && Level(x) == 0
    ensures pos < |ts| && ts[pos] == e.op && Match(ts, pos, UnaryOperators)
    ensures e == Ast.Unary(xnext, ts[pos], x) && Size(x) < Size(e)
  {
    AtElement(ts, pos, Spell(e), 0);
    assert Spell(e) == [e.op] + Spell(x);
    AtSplit(ts, pos, [e.op], Spell(x));
  }

  /** The pieces of a spelled grouping: the opening token, the inner tree, the closing token. */
  lemma {:induction false} GroupSplit(ts: seq<Token>, e: Expr, pos: nat, end: nat, first: NodeId, next: NodeId,
                   x: Expr, xpos: nat, xend: nat, xnext: NodeId)
    requires Spelled(ts, e, pos, end, first, next) && e.Group? && end < |ts|
    requires x == e.inner && xpos == pos + 1 && xend + 1 == end && xnext + 1 == next
    ensures Spelled(ts, x, xpos, xend, first, xnext) && StopsAt(ts, xend, 4)
    ensures ts[pos].kind == LeftParen && ts[xend].kind == RightBrace
    ensures e == Group(xnext, x) && Size(x) < Size(e)
  {
    GroupTree(e, first, next, x, xnext);
    GroupTokens(ts, e, pos, end, x, xpos, xend);
  }

  /** The inside of a shaped, numbered grouping. */
  lemma {:induction false} GroupTree(e: Expr, first: NodeId, next: NodeId, x: Expr, xnext: NodeId)
    requires Shaped(e) && PostOrderFrom(e, first) && next == first + Size(e) && e.Group?
    requires x == e.inner && xnext + 1 == next
    ensures Shaped(x) && PostOrderFrom(x, first) && xnext == first + Size(x)
    ensures e == Group(xnext, x) && Size(x) < Size(e)
  {
  }

  /** Where the brackets and the inside of a spelled grouping sit. */
  lemma {:induction false} GroupTokens(ts: seq<Token>, e: Expr, pos: nat, end: nat, x: Expr, xpos: nat, xend: nat)
    requires e.Group? && At(ts, pos, Spell(e)) && end == pos + |Spell(e)| && end < |ts|
    requires x == e.inner && xpos == pos + 1 && xend + 1 == end
    ensures At(ts, xpos, Spell(x)) && xend == xpos + |Spell(x)|
    ensures ts[pos].kind == LeftParen && ts[xend].kind == RightBrace && StopsAt(ts, xend, 4)
  {
    var inside := Spell(x);
    assert Spell(e) == ([OpenToken] + inside) + [CloseToken];
    AtSplit(ts, pos, [OpenToken] + inside, [CloseToken]);
    AtSplit(ts, pos, [OpenToken], inside);
    AtElement(ts, pos, [OpenToken], 0);
    AtElement(ts, xend, [CloseToken], 0);
    CloseStops(ts, xend);
  }

  lemma {:induction false} CloseStops(ts: seq<Token>, q: nat)
    requires q < |ts| && ts[q] == CloseToken
    ensures ts[q].kind == RightBrace && StopsAt(ts, q, 4)
  {
  }

  /** At a node of the level the spine continues down the left operand. */
  lemma {:induction false} BottomOfNode(e: Expr, level: nat, l: Expr)
    requires AtLevel(e, level) && l == e.left
    ensures Bottom(e, level) == Bottom(l, level)
  {
  }

  /** Anywhere else the spine ends. */
  lemma {:induction false} BottomOfLeaf(e: Expr, level: nat)
    ensures !AtLevel(e, level) ==> Bottom(e, level) == e
  {
  }

  /** The bottom of a spine is spelled no longer than the whole tree. */
  lemma {:induction false} BottomShorter(e: Expr, level: nat)
    ensures |Spell(Bottom(e, level))| <= |Spell(e)|
  {
    if AtLevel(e, level) {
      BottomShorter(e.left, level);
      assert Spell(e) == Spell(e.left) + [e.op] + Spell(e.right);
    }
  }

  /** An operator of a level, at a position of the list, is matched by that level's loop. */
  lemma {:induction false} OperatorMatches(ts: seq<Token>, q: nat, op: Token, level: nat)
    requires 1 <= level <= 4 && q < |ts| && ts[q] == op && OperatorLevel(op.kind) == level
    ensures Match(ts, q, Operators(level))
  {
    OperatorsOfLevel(level, op.kind);
  }

  /** A token that ends an operand of a level is not matched by that level's loop. */
  lemma {:induction false} OperatorStops(ts: seq<Token>, q: nat, level: nat)
    requires 1 <= level <= 4 && StopsAt(ts, q, level)
    ensures !Match(ts, q, Operators(level))
  {
    OperatorsOfLevel(level, ts[q].kind);
  }

  // ---------------------------------------------------------------------
  // Parsing what was spelled
  // ---------------------------------------------------------------------

  /** A level parses a spelled tree of that level or tighter, up to the first token that ends it. */
  lemma {:induction false} ParsesLevel(ts: seq<Token>, e: Expr, pos: nat, end: nat, first: NodeId, next: NodeId, level: nat)
    requires EofTerminated(ts) && 1 <= level <= 4
    requires Spelled(ts, e, pos, end, first, next) && Level(e) <= level && StopsAt(ts, end, level)
    ensures BinaryLevel(ts, pos, first, level) == Success(Parsed(e, end, next))
    decreases Size(e), 2 * level + 1, 3
  {
    var b := Bottom(e, level);
    var bend := pos + |Spell(b)|;
    var bnext := first + Size(b);
    SpineOperand(ts, e, pos, end, first, next, level, b, bend, bnext);
    SpineFold(ts, e, pos, end, first, next, level, b, bend, bnext);
    BinaryLevelStep(ts, pos, first, level, Parsed(b, bend, bnext));
    OperatorStops(ts, end, level);
    FoldStops(ts, Parsed(e, end, next), level, pos, first);
  }

  /** A level's operand, parsed at the start of a spelled tree, is the bottom `b` of the tree's left spine. */
  lemma {:induction false} SpineOperand(ts: seq<Token>, e: Expr, pos: nat, end: nat, first: NodeId, next: NodeId, level: nat,
                                        b: Expr, bend: nat, bnext: NodeId)
    requires EofTerminated(ts) && 1 <= level <= 4
    requires Spelled(ts, e, pos, end, first, next) && Level(e) <= level && StopsAt(ts, end, level - 1)
    requires b == Bottom(e, level) && bend == pos + |Spell(b)| && bnext == first + Size(b)
    ensures bend <= end
    ensures Operand(ts, pos, first, level) == Success(Parsed(b, bend, bnext))
    decreases Size(e), 2 * level + 1, 1
  {
    if AtLevel(e, level) {
      SpineOperandNode(ts, e, pos, end, first, next, level, b, bend, bnext);
    } else {
      SpineOperandLeaf(ts, e, pos, end, first, next, level, b, bend, bnext);
    }
  }

  /** `SpineOperand` at a node of the level: the spine continues down the left operand. */
  lemma {:induction false} SpineOperandNode(ts: seq<Token>, e: Expr, pos: nat, end: nat, first: NodeId, next: NodeId, level: nat,
                                            b: Expr, bend: nat, bnext: NodeId)
    requires EofTerminated(ts) && 1 <= level <= 4
    requires Spelled(ts, e, pos, end, first, next) && AtLevel(e, level) && StopsAt(ts, end, level - 1)
    requires b == Bottom(e, level) && bend == pos + |Spell(b)| && bnext == first + Size(b)
    ensures bend <= end
    ensures Operand(ts, pos, first, level) == Success(Parsed(b, bend, bnext))
    decreases Size(e), 2 * level + 1, 0
  {
    var l, op, r := e.left, e.op, e.right;
    var q := pos + |Spell(l)|;
    var lnext := first + Size(l);
    BinarySplit(ts, e, pos, end, first, next, level, l, op, r, q, q + 1, lnext);
    BottomOfNode(e, level, l);
    SpineOperand(ts, l, pos, q, first, lnext, level, b, bend, bnext);
  }

  /** `SpineOperand` anywhere else: the whole tree is the operand. */
  lemma {:induction false} SpineOperandLeaf(ts: seq<Token>, e: Expr, pos: nat, end: nat, first: NodeId, next: NodeId, level: nat,
                                            b: Expr, bend: nat, bnext: NodeId)
    requires EofTerminated(ts) && 1 <= level <= 4
    requires Spelled(ts, e, pos, end, first, next) && Level(e) <= level && !AtLevel(e, level) && StopsAt(ts, end, level - 1)
    requires b == Bottom(e, level) && bend == pos + |Spell(b)| && bnext == first + Size(b)
    ensures bend <= end
    ensures Operand(ts, pos, first, level) == Success(Parsed(b, bend, bnext))
    decreases Size(e), 2 * level + 1, 0
  {
    LeafIsBottom(e, level, pos, end, first, next, b, bend, bnext);
    ParsesOperand(ts, e, pos, end, first, next, level);
  }

  /** Below the level, a tree is its own spine's bottom, spelled over the same tokens and ids. */
  lemma {:induction false} LeafIsBottom(e: Expr, level: nat, pos: nat, end: nat, first: NodeId, next: NodeId, b: Expr, bend: nat, bnext: NodeId)
    requires !AtLevel(e, level) && end == pos + |Spell(e)| && next == first + Size(e)
    requires b == Bottom(e, level) && bend == pos + |Spell(b)| && bnext == first + Size(b)
    ensures b == e && bend == end && bnext == next
  {
  }

  /**
   * From the bottom `b` of the left spine the fold climbs, one operator and
   * right operand at a time, to the whole spelled tree.
   */
  lemma {:induction false} SpineFold(ts: seq<Token>, e: Expr, pos: nat, end: nat, first: NodeId, next: NodeId, level: nat,
                                     b: Expr, bend: nat, bnext: NodeId)
    requires EofTerminated(ts) && 1 <= level <= 4
    requires Spelled(ts, e, pos, end, first, next) && Level(e) <= level && StopsAt(ts, end, level - 1)
    requires b == Bottom(e, level) && bend == pos + |Spell(b)| && bnext == first + Size(b) && bend <= end
    ensures Fold(ts, Parsed(b, bend, bnext), level, pos, first) == Fold(ts, Parsed(e, end, next), level, pos, first)
    decreases Size(e), 2 * level + 1, 2
  {
    if AtLevel(e, level) {
      SpineFoldAt(ts, e, pos, end, first, next, level, b, bend, bnext);
    } else {
      LeafIsBottom(e, level, pos, end, first, next, b, bend, bnext);
    }
  }

  /** `SpineFold` at a node of the level, split into its pieces. */
  lemma {:induction false} SpineFoldAt(ts: seq<Token>, e: Expr, pos: nat, end: nat, first: NodeId, next: NodeId, level: nat,
                                       b: Expr, bend: nat, bnext: NodeId)
    requires EofTerminated(ts) && 1 <= level <= 4
    requires Spelled(ts, e, pos, end, first, next) && AtLevel(e, level) && StopsAt(ts, end, level - 1)
    requires b == Bottom(e, level) && bend == pos + |Spell(b)| && bnext == first + Size(b) && bend <= end
    ensures Fold(ts, Parsed(b, bend, bnext), level, pos, first) == Fold(ts, Parsed(e, end, next), level, pos, first)
    decreases Size(e), 2 * level + 1, 1
  {
    var id, l, op, r := e.id, e.left, e.op, e.right;
    var q := pos + |Spell(l)|;
    var rpos := q + 1;
    var lnext := first + Size(l);
    BinarySplit(ts, e, pos, end, first, next, level, l, op, r, q, rpos, lnext);
    BottomOfNode(e, level, l);
    BottomShorter(l, level);
    SpineFoldNode(ts, l, op, r, pos, q, rpos, end, first, lnext, id, level, b, bend, bnext, e, next);
  }

  /** `SpineFold` at a node of the level: climb from the bottom to the left operand, then one step. */
  lemma {:induction false} SpineFoldNode(ts: seq<Token>, l: Expr, op: Token, r: Expr, pos: nat, q: nat, rpos: nat, end: nat,
                                         first: NodeId, lnext: NodeId, id: NodeId, level: nat, b: Expr, bend: nat, bnext: NodeId,
                                         e: Expr, next: NodeId)
    requires EofTerminated(ts) && 1 <= level <= 4
    requires Spelled(ts, l, pos, q, first, lnext) && Level(l) <= level
    requires q < |ts| && ts[q] == op && OperatorLevel(op.kind) == level && rpos == q + 1
    requires Spelled(ts, r, rpos, end, lnext, id) && Level(r) < level && StopsAt(ts, end, level - 1)
    requires b == Bottom(l, level) && bend == pos + |Spell(b)| && bnext == first + Size(b) && bend <= q
    requires e == Binary(id, l, op, r) && next == id + 1
    ensures Fold(ts, Parsed(b, bend, bnext), level, pos, first) == Fold(ts, Parsed(e, end, next), level, pos, first)
    decreases Size(l) + Size(r) + 1, 2 * level + 1, 0
  {
    SpineFold(ts, l, pos, q, first, lnext, level, b, bend, bnext);
    ClimbStep(ts, q, rpos, end, lnext, id, l, op, r, level, pos, first, e, next);
  }

  /**
   * One step up the spine: from a left operand that ends at `q`, the fold
   * takes the operator at `q` and the right operand spelled from `rpos` to `end`.
   */
  lemma {:induction false} ClimbStep(ts: seq<Token>, q: nat, rpos: nat, end: nat, lnext: NodeId, id: NodeId,
                                     l: Expr, op: Token, r: Expr, level: nat, start: nat, first: NodeId, e: Expr, next: NodeId)
    requires EofTerminated(ts) && 1 <= level <= 4 && OperatorLevel(op.kind) == level
    requires q < |ts| && ts[q] == op && rpos == q + 1
    requires Spelled(ts, r, rpos, end, lnext, id) && Level(r) < level && StopsAt(ts, end, level - 1)
    requires e == Binary(id, l, op, r) && next == id + 1
    ensures Fold(ts, Parsed(l, q, lnext), level, start, first) == Fold(ts, Parsed(e, end, next), level, start, first)
    decreases Size(r), 2 * level + 1, 0
  {
    ParsesOperand(ts, r, rpos, end, lnext, id, level);
    OperatorMatches(ts, q, op, level);
    FoldStep(ts, l, q, rpos, lnext, level, start, first, op, r, end, id, e, next);
  }

  /** An operand of a level: the spelled tree is strictly tighter than the level. */
  lemma {:induction false} ParsesOperand(ts: seq<Token>, e: Expr, pos: nat, end: nat, first: NodeId, next: NodeId, level: nat)
    requires EofTerminated(ts) && 1 <= level <= 4
    requires Spelled(ts, e, pos, end, first, next) && Level(e) < level && StopsAt(ts, end, level - 1)
    ensures Operand(ts, pos, first, level) == Success(Parsed(e, end, next))
    decreases Size(e), 2 * level, 1
  {
    if level == 1 {
      ParsesUnary(ts, e, pos, end, first, next);
      OperandUnary(ts, pos, first, level);
    } else {
      ParsesOperandBelow(ts, e, pos, end, first, next, level, level - 1);
    }
  }

  /** Above factor, an operand is a whole parse of the next level down. */
  lemma {:induction false} ParsesOperandBelow(ts: seq<Token>, e: Expr, pos: nat, end: nat, first: NodeId, next: NodeId,
                                              level: nat, below: nat)
    requires EofTerminated(ts) && 1 < level <= 4 && below == level - 1
    requires Spelled(ts, e, pos, end, first, next) && Level(e) <= below && StopsAt(ts, end, below)
    ensures Operand(ts, pos, first, level) == Success(Parsed(e, end, next))
    decreases Size(e), 2 * level, 0
  {
    ParsesLevel(ts, e, pos, end, first, next, below);
    OperandBelow(ts, pos, first, level, below);
  }

  /** At factor level an operand is a unary. */
  lemma {:induction false} OperandUnary(ts: seq<Token>, pos: nat, first: NodeId, level: nat)
    requires EofTerminated(ts) && pos < |ts| && level == 1
    ensures Operand(ts, pos, first, level) == Parser.Unary(ts, pos, first)
  {
  }

  /** Above factor an operand is the next level down. */
  lemma {:induction false} OperandBelow(ts: seq<Token>, pos: nat, first: NodeId, level: nat, below: nat)
    requires EofTerminated(ts) && pos < |ts| && 1 < level <= 4 && below == level - 1
    ensures Operand(ts, pos, first, level) == BinaryLevel(ts, pos, first, below)
  {
  }

  /** Unary parses a spelled non-binary tree. */
  lemma {:induction false} ParsesUnary(ts: seq<Token>, e: Expr, pos: nat, end: nat, first: NodeId, next: NodeId)
    requires EofTerminated(ts)
    requires Spelled(ts, e, pos, end, first, next) && Level(e) == 0 && end < |ts|
    ensures Parser.Unary(ts, pos, first) == Success(Parsed(e, end, next))
    decreases Size(e), 1, 0
  {
    if e.Unary? {
      var x := e.operand;
      UnarySplit(ts, e, pos, end, first, next, x, pos + 1, next - 1);
      ParsesUnary(ts, x, pos + 1, end, first, next - 1);
      UnaryStep(ts, pos, pos + 1, first, x, end, next - 1);
    } else {
      PrimaryStart(ts, e, pos, end, first, next);
      UnaryIsPrimary(ts, pos, first);
      ParsesPrimary(ts, e, pos, end, first, next);
    }
  }

  /** A spelled literal or grouping starts with a token no unary operator matches. */
  lemma {:induction false} PrimaryStart(ts: seq<Token>, e: Expr, pos: nat, end: nat, first: NodeId, next: NodeId)
    requires Spelled(ts, e, pos, end, first, next) && (e.Literal? || e.Group?) && end < |ts|
    ensures pos < |ts| && !Match(ts, pos, UnaryOperators)
  {
    AtElement(ts, pos, Spell(e), 0);
  }

  /** Primary parses a spelled literal or grouping. */
  lemma {:induction false} ParsesPrimary(ts: seq<Token>, e: Expr, pos: nat, end: nat, first: NodeId, next: NodeId)
    requires EofTerminated(ts)
    requires Spelled(ts, e, pos, end, first, next) && (e.Literal? || e.Group?) && end < |ts|
    ensures Primary(ts, pos, first) == Success(Parsed(e, end, next))
    decreases Size(e), 0, 1
  {
    if e.Literal? {
      ParsesLiteral(ts, e, pos, end, first, next);
    } else {
      ParsesGroup(ts, e, pos, end, first, next);
    }
  }

  /** Primary parses a spelled literal. */
  lemma {:induction false} ParsesLiteral(ts: seq<Token>, e: Expr, pos: nat, end: nat, first: NodeId, next: NodeId)
    requires EofTerminated(ts)
    requires Spelled(ts, e, pos, end, first, next) && e.Literal? && end < |ts|
    ensures Primary(ts, pos, first) == Success(Parsed(e, end, next))
  {
    AtElement(ts, pos, Spell(e), 0);
    PrimaryNumber(ts, pos, end, first, next);
  }

  /** Primary parses a spelled grouping: the opening token, the inner tree, the closing token. */
  lemma {:induction false} ParsesGroup(ts: seq<Token>, e: Expr, pos: nat, end: nat, first: NodeId, next: NodeId)
    requires EofTerminated(ts)
    requires Spelled(ts, e, pos, end, first, next) && e.Group? && end < |ts|
    ensures Primary(ts, pos, first) == Success(Parsed(e, end, next))
    decreases Size(e), 0, 0
  {
    var x, xpos, xend, xnext := e.inner, pos + 1, end - 1, next - 1;
    GroupSplit(ts, e, pos, end, first, next, x, xpos, xend, xnext);
    ParsesLevel(ts, x, xpos, xend, first, xnext, 4);
    GroupParse(ts, pos, xpos, first, x, xend, xnext, end);
  }

  /** `Primary` on an opening token, once the inner tree is known to parse up to a closing token. */
  lemma {:induction false} GroupParse(ts: seq<Token>, pos: nat, xpos: nat, first: NodeId, x: Expr, xend: nat, id: NodeId, end: nat)
    requires EofTerminated(ts) && xpos == pos + 1 && xpos < |ts| && ts[pos].kind == LeftParen
    requires BinaryLevel(ts, xpos, first, 4) == Success(Parsed(x, xend, id))
    requires ts[xend].kind == RightBrace && end == xend + 1
    ensures Primary(ts, pos, first) == Success(Parsed(Group(id, x), end, id + 1))
  {
    PrimaryParen(ts, pos, xpos, first);
    GroupingStep(ts, xpos, first, pos, x, xend, id, end);
  }

  // ---------------------------------------------------------------------
  // Consequences
  // ---------------------------------------------------------------------

  /** The first spelled token of a shaped tree is never EOF. */
  lemma {:induction false} FirstSpelled(e: Expr)
    requires Shaped(e)
    ensures |Spell(e)| >= 1 && Spell(e)[0].kind != Eof
  {
    if e.Binary? {
      FirstSpelled(e.left);
      FirstOfBinary(e, e.left);
    } else {
      FirstOfLeaf(e);
    }
  }

  lemma {:induction false} FirstOfBinary(e: Expr, l: Expr)
    requires e.Binary? && l == e.left && |Spell(l)| >= 1
    ensures |Spell(e)| >= 1 && Spell(e)[0] == Spell(l)[0]
  {
    assert Spell(e) == Spell(l) + ([e.op] + Spell(e.right));
  }

  lemma {:induction false} FirstOfLeaf(e: Expr)
    requires Shaped(e) && !e.Binary?
    ensures |Spell(e)| >= 1 && Spell(e)[0].kind != Eof
  {
  }

  /** Every shaped tree numbered from 0 is what `Parse` returns for its spelling. */
  lemma {:induction false} ParseInvertsSpell(e: Expr, eof: Token)
    requires Shaped(e) && PostOrderFrom(e, 0) && eof.kind == Eof
    ensures EofTerminated(Spell(e) + [eof])
    ensures Parse(Spell(e) + [eof]) == Completed([e], None)
  {
    var ts := Spell(e) + [eof];
    var n := |Spell(e)|;
    var size := Size(e);
    WholeSpelled(e, eof, ts, n, size);
    ParsesLevel(ts, e, 0, n, 0, size, 4);
    ParsesOne(ts, e, n, size);
  }

  /** A tree's spelling followed by EOF spells the tree from the start, with EOF after it. */
  lemma {:induction false} WholeSpelled(e: Expr, eof: Token, ts: seq<Token>, n: nat, size: nat)
    requires Shaped(e) && PostOrderFrom(e, 0) && eof.kind == Eof
    requires ts == Spell(e) + [eof] && n == |Spell(e)| && size == Size(e)
    ensures EofTerminated(ts) && Spelled(ts, e, 0, n, 0, size) && StopsAt(ts, n, 4)
    ensures ts[n].kind == Eof && ts[0].kind != Eof
  {
    FirstSpelled(e);
    EofAfter(Spell(e), eof, ts);
  }

  /** A non-empty spelling followed by EOF: the list is EOF-terminated and the spelling stops at the EOF. */
  lemma {:induction false} EofAfter(s: seq<Token>, eof: Token, ts: seq<Token>)
    requires ts == s + [eof] && |s| >= 1 && s[0].kind != Eof && eof.kind == Eof
    ensures EofTerminated(ts) && At(ts, 0, s) && StopsAt(ts, |s|, 4)
    ensures ts[|s|].kind == Eof && ts[0].kind != Eof
  {
    WholeAt(s, [eof]);
    assert ts[|s|] == eof;
    assert ts[0] == s[0];
  }

  /** A token list starts with its own prefix. */
  lemma {:induction false} WholeAt(toks: seq<Token>, rest: seq<Token>)
    ensures At(toks + rest, 0, toks)
  {
    AtStart(toks, rest, 0);
    assert toks[0..] == toks;
  }

  /** An expression that ends at EOF makes the whole parse. */
  lemma {:induction false} ParsesOne(ts: seq<Token>, e: Expr, n: nat, size: nat)
    requires EofTerminated(ts) && n < |ts| && ts[n].kind == Eof && ts[0].kind != Eof
    requires Expression(ts, 0, 0) == Success(Parsed(e, n, size))
    ensures Parse(ts) == Completed([e], None)
  {
    assert ParseFrom(ts, n, size, [e]) == Completed([e], None);
    assert [] + [e] == [e];
  }

  /** `a - b - c` parses as `(a - b) - c`. */
  lemma {:induction false} MinusFoldsLeft(a: Value, b: Value, c: Value, minus1: Token, minus2: Token, eof: Token)
    requires minus1.kind == Minus && minus2.kind == Minus && eof.kind == Eof
    ensures
      var ts := [LiteralToken(a), minus1, LiteralToken(b), minus2, LiteralToken(c), eof];
      EofTerminated(ts)
      && Parse(ts) == Completed([Binary(4, Binary(2, Literal(0, a), minus1, Literal(1, b)), minus2, Literal(3, c))], None)
  {
    var inner := Binary(2, Literal(0, a), minus1, Literal(1, b));
    var e := Binary(4, inner, minus2, Literal(3, c));
    var ts := [LiteralToken(a), minus1, LiteralToken(b), minus2, LiteralToken(c), eof];
    assert Spell(inner) == [LiteralToken(a), minus1, LiteralToken(b)];
    assert Spell(e) == Spell(inner) + [minus2] + [LiteralToken(c)];
    assert Spell(e) + [eof] == ts;
    ParseInvertsSpell(e, eof);
  }

  /** `a + b * c` parses as `a + (b * c)`, and `a == b < c` as `a == (b < c)`. */
  lemma {:induction false} TighterOperatorsSitBelow(a: Value, b: Value, c: Value, loose: Token, tight: Token, eof: Token)
    requires (loose.kind == Plus && tight.kind == Star) || (loose.kind == EqualEqual && tight.kind == Less)
    requires eof.kind == Eof
    ensures
      var ts := [LiteralToken(a), loose, LiteralToken(b), tight, LiteralToken(c), eof];
      EofTerminated(ts)
      && Parse(ts) == Completed([Binary(4, Literal(0, a), loose, Binary(3, Literal(1, b), tight, Literal(2, c)))], None)
  {
    var inner := Binary(3, Literal(1, b), tight, Literal(2, c));
    var e := Binary(4, Literal(0, a), loose, inner);
    var ts := [LiteralToken(a), loose, LiteralToken(b), tight, LiteralToken(c), eof];
    assert Spell(inner) == [LiteralToken(b), tight, LiteralToken(c)];
    assert Spell(e) == [LiteralToken(a)] + [loose] + Spell(inner);
    assert Spell(e) + [eof] == ts;
    ParseInvertsSpell(e, eof);
  }
}
