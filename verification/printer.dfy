/**
 An infix printer for syntax trees that puts parentheses only where this
 grammar needs them. It is the inverse the parser is checked against: the
 RoundTrip module proves that parsing `Render(e)` gives back `e`, which pins
 down the precedence levels, the left folding of the loops and the peculiar
 exponent rule of `mult_div` (`a^b*c` is `a^(b*c)`, while `(a^b)*c` needs its
 parentheses).
 */
module Printer {
  import opened Lexer
  import opened Ast

  /**
   Trees the grammar can produce from well-formed text: no null child, every
   literal a non-empty digit run, prefix nodes only for minus, binary nodes
   only for binary operators.
   */
  predicate WellFormed(e: Expr) {
    match e
    case Bin(op, l, r) => IsBinaryOp(op) && WellFormed(l) && WellFormed(r)
    case Neg(op, x) => op == Minus && WellFormed(x)
    case Lit(d) => d != [] && AllDigits(d)
    case Null => false
  }

  /** The positions an operand can occupy, named after the grammar function that parses it. */
  datatype Slot =
    | LogicSlot    // a whole expression, or the left operand of && / ||
    | CompareSlot  // left operand of a comparison, right operand of && / ||
    | AddSlot      // left operand of + / -, right operand of a comparison
    | MulSlot      // a whole mult_div: right operand of + / - and of ^
    | ChainSlot    // left operand of * / /
    | UnarySlot    // operand of prefix -, right operand of * / /, left operand of ^

  /** Whether `e` may stand without parentheses in `slot`. */
  predicate Fits(e: Expr, slot: Slot) {
    e.Lit? || e.Neg? ||
    (e.Bin? &&
     match slot
     case UnarySlot => false
     case ChainSlot => IsMulOp(e.op)
     case MulSlot => IsMulOp(e.op) || e.op == Exp
     case AddSlot => IsMulOp(e.op) || e.op == Exp || IsAddOp(e.op)
     case CompareSlot => IsMulOp(e.op) || e.op == Exp || IsAddOp(e.op) || IsCompareOp(e.op)
     case LogicSlot => true)
  }

  /** First characters of any rendered operand: a digit, a minus sign or an opening parenthesis. */
  predicate StartsOperand(c: char) {
    IsDigit(c) || c == '-' || c == '('
  }

  /** Slot of the left operand of a binary operator, as the grammar function of its level parses it. */
  function LeftSlot(op: Token): Slot {
    if op == Exp then UnarySlot
    else if IsMulOp(op) then ChainSlot
    else if IsAddOp(op) then AddSlot
    else if IsCompareOp(op) then CompareSlot
    else LogicSlot
  }

  /** Slot of the right operand of a binary operator. */
  function RightSlot(op: Token): Slot {
    if op == Exp then MulSlot
    else if IsMulOp(op) then UnarySlot
    else if IsAddOp(op) then MulSlot
    else if IsCompareOp(op) then AddSlot
    else CompareSlot
  }

  function Render(e: Expr): (r: string)
    requires WellFormed(e)
    ensures r != [] && StartsOperand(r[0])
    decreases e, 0
  {
    match e
    case Lit(d) => d
    case Neg(_, x) => "-" + At(x, UnarySlot)
    case Bin(op, l, r) => At(l, LeftSlot(op)) + Spelling(op) + At(r, RightSlot(op))
  }

  /** `e` rendered for `slot`: parenthesised exactly when it does not fit there. */
  function At(e: Expr, slot: Slot): (r: string)
    requires WellFormed(e)
    ensures r != [] && StartsOperand(r[0])
    decreases e, 1
  {
    if Fits(e, slot) then Render(e) else "(" + Render(e) + ")"
  }

  /** The length of `Render(e)`, computed without building the text. */
  function RenderWidth(e: Expr): nat
    requires WellFormed(e)
    decreases e, 0
  {
    match e
    case Lit(d) => |d|
    case Neg(_, x) => 1 + AtWidth(x, UnarySlot)
    case Bin(op, l, r) => AtWidth(l, LeftSlot(op)) + |Spelling(op)| + AtWidth(r, RightSlot(op))
  }

  /** The length of `At(e, slot)`. */
  function AtWidth(e: Expr, slot: Slot): nat
    requires WellFormed(e)
    decreases e, 1
  {
    if Fits(e, slot) then RenderWidth(e) else RenderWidth(e) + 2
  }

  lemma {:induction false} WidthIsLength(e: Expr, slot: Slot)
    requires WellFormed(e)
    ensures |Render(e)| == RenderWidth(e)
    ensures |At(e, slot)| == AtWidth(e, slot)
  {
    match e
    case Lit(_) =>
    case Neg(_, x) => WidthIsLength(x, UnarySlot);
    case Bin(op, l, r) =>
      WidthIsLength(l, LeftSlot(op));
      WidthIsLength(r, RightSlot(op));
  }
}
