/**
 The syntax tree built by the parser: `Calc` nodes become `Bin`, `Unary` nodes
 `Neg`, `Value` nodes `Lit` (keeping the digit string handed to `std::stod`),
 and a null child pointer `Null`.
 */
module Ast {
  import opened Lexer

  datatype Expr =
    | Bin(op: Token, l: Expr, r: Expr)
    | Neg(op: Token, e: Expr)
    | Lit(digits: string)
    | Null

  /** Operators of each precedence level of the grammar, loosest first. */
  predicate IsLogicOp(t: Token) {
    t == LogicalAnd || t == LogicalOr
  }

  predicate IsCompareOp(t: Token) {
    t == EqualTo || t == NotEqualTo || t == Greater || t == Less || t == GreaterEqual || t == LessEqual
  }

  predicate IsAddOp(t: Token) {
    t == Plus || t == Minus
  }

  predicate IsMulOp(t: Token) {
    t == Mult || t == Div
  }

  /** Operators some loop of the grammar consumes; `^` is taken only by the exponent rule. */
  predicate IsLoopOp(t: Token) {
    IsLogicOp(t) || IsCompareOp(t) || IsAddOp(t) || IsMulOp(t)
  }

  /** Every operator a `Calc` node can carry. */
  predicate IsBinaryOp(t: Token) {
    IsLoopOp(t) || t == Exp
  }

  /** The four loops of the grammar, loosest first. */
  datatype Level = LogicLevel | CompareLevel | AddLevel | MulLevel

  /** The operators the loop of `lv` consumes. */
  predicate OpOf(lv: Level, t: Token) {
    match lv
    case LogicLevel => IsLogicOp(t)
    case CompareLevel => IsCompareOp(t)
    case AddLevel => IsAddOp(t)
    case MulLevel => IsMulOp(t)
  }

  /** The tree has no null child: `compute` dereferences every child pointer. */
  predicate NullFree(e: Expr) {
    match e
    case Bin(_, l, r) => NullFree(l) && NullFree(r)
    case Neg(_, x) => NullFree(x)
    case Lit(_) => true
    case Null => false
  }

  /** Every literal is a non-empty run of ASCII digits, so `std::stod` accepts it. */
  predicate LiteralsOk(e: Expr) {
    match e
    case Bin(_, l, r) => LiteralsOk(l) && LiteralsOk(r)
    case Neg(_, x) => LiteralsOk(x)
    case Lit(d) => d != [] && AllDigits(d)
    case Null => true
  }

  /** `t` is `base` wrapped zero or more times as the LEFT operand of binary nodes with operators of `lv`. */
  predicate LeftSpine(t: Expr, base: Expr, lv: Level) {
    t == base || (t.Bin? && OpOf(lv, t.op) && LeftSpine(t.l, base, lv))
  }

  /** Wrapping `base` once more as a left operand keeps it on the spine. */
  lemma {:induction false} LeftSpineWrap(t: Expr, base: Expr, op: Token, right: Expr, lv: Level)
    requires OpOf(lv, op) && LeftSpine(t, Bin(op, base, right), lv)
    ensures LeftSpine(t, base, lv)
  {
    if t != Bin(op, base, right) {
      LeftSpineWrap(t.l, base, op, right, lv);
    }
  }
}
