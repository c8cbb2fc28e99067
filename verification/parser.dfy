/**
 The recursive-descent parser. The source keeps the input, the cursor, the
 current token and the digit buffer in globals; here they form a `State`
 value that every grammar function takes and returns with its tree.

 Grammar, loosest level first (each level takes its operands from the next):
   ExprP      fetch a token, then AndOr
   AndOr      Lge { (&& | ||) Lge }
   Lge        PlusMinus { (== | != | > | < | >= | <=) PlusMinus }
   PlusMinus  MultDiv { (+ | -) MultDiv }
   MultDiv    Unary { (* | /) Unary }  |  Unary ^ MultDiv
   Unary      - Unary  |  Primary
   Primary    NUMBER  |  ( ExprP <any token>  |  <nothing: null>
 The `{ ... }` loops are the source's do-while loops, written as the *Tail
 functions; each iteration makes the tree built so far the left operand.
 */
module Parser {
  import opened Lexer
  import opened Ast

  /** The source's globals `expr`, `index`, `cur_token` and `number`. */
  datatype State = State(input: string, pos: nat, cur: Token, number: string) {
    predicate Valid() {
      pos <= |input|
    }
  }

  /** A grammar function's result: the tree it built and the state it leaves. */
  datatype Parsed = Parsed(tree: Expr, st: State)

  /**
   Termination measure: characters not yet read, plus one while the current
   token is not END. Fetching a token after a non-END token strictly lowers it.
   */
  function Measure(st: State): nat
    requires st.Valid()
  {
    |st.input| - st.pos + (if st.cur == End then 0 else 1)
  }

  /** `t` is a state reachable from `st`: same input, cursor not moved back, measure not raised. */
  predicate Follows(st: State, t: State)
    requires st.Valid()
  {
    t.Valid() && t.input == st.input && st.pos <= t.pos && Measure(t) <= Measure(st)
  }

  /** The state right after `get_token` ran at index `p` with digit buffer `number`. */
  function Fetch(s: string, p: nat, number: string): State
    requires p <= |s|
  {
    var l := GetToken(s, p, number);
    State(s, l.next, l.tok, l.number)
  }

  /** `advance(cur_token, get_token)`. */
  function Advance(st: State): (r: State)
    requires st.Valid()
    ensures Follows(st, r)
    ensures st.cur != End ==> Measure(r) < Measure(st)
    ensures r.cur == End ==> r.pos == |r.input|
    ensures AllDigits(st.number) ==> Primed(r)
  {
    Fetch(st.input, st.pos, st.number)
  }

  /** The digit buffer holds only digits, and is non-empty when the current token is NUMBER. */
  predicate Primed(st: State) {
    AllDigits(st.number) && (st.cur == Number ==> st.number != [])
  }

  /** Whether the loop of `lv` or the loop of some tighter level consumes `t`. */
  predicate LoopTakes(lv: Level, t: Token) {
    match lv
    case LogicLevel => IsLoopOp(t)
    case CompareLevel => IsCompareOp(t) || IsAddOp(t) || IsMulOp(t)
    case AddLevel => IsAddOp(t) || IsMulOp(t)
    case MulLevel => IsMulOp(t)
  }

  /** Tokens that can start an operand: a number, an opening parenthesis, a prefix minus. */
  predicate Opens(t: Token) {
    t == Number || t == LParen || t == Minus
  }

  /** The level function of `lv`, met on `t`, builds a null tree and consumes nothing. */
  predicate PassesOver(lv: Level, t: Token) {
    !LoopTakes(lv, t) && t != Exp && !Opens(t)
  }

  /** The only tokens on which the level function of `lv` can yield a null tree. */
  predicate NullAt(lv: Level, t: Token) {
    !LoopTakes(lv, t) && t != Exp && t != Number && t != Minus
  }

  /** `expr_p`: fetch the first token of a (sub)expression, then parse the loosest level. */
  function ExprP(st: State): (r: Parsed)
    requires st.Valid()
    ensures Follows(st, r.st)
    ensures !LoopTakes(LogicLevel, r.st.cur)
    ensures AllDigits(st.number) ==> AllDigits(r.st.number) && LiteralsOk(r.tree)
    decreases Measure(st), if st.cur == End then 9 else 0
  {
    var s1 := Advance(st);
    AndOr(s1)
  }

  /** `and_or`: a left-folded chain of `&&` / `||` over `less_greater_equal` operands. */
  function AndOr(st: State): (r: Parsed)
    requires st.Valid()
    ensures Follows(st, r.st)
    ensures !LoopTakes(LogicLevel, r.st.cur)
    ensures PassesOver(LogicLevel, st.cur) ==> r == Parsed(Null, st)
    ensures r.tree == Null ==> NullAt(LogicLevel, st.cur)
    ensures AllDigits(st.number) ==> AllDigits(r.st.number)
    ensures Primed(st) ==> LiteralsOk(r.tree)
    decreases Measure(st), 8
  {
    var a := Lge(st);
    AndOrTail(a.tree, a.st)
  }

  function AndOrTail(left: Expr, st: State): (r: Parsed)
    requires st.Valid()
    ensures Follows(st, r.st)
    ensures !IsLogicOp(r.st.cur)
    ensures !LoopTakes(CompareLevel, st.cur) ==> !LoopTakes(LogicLevel, r.st.cur)
    ensures LeftSpine(r.tree, left, LogicLevel)
    ensures IsLogicOp(st.cur) ==> r.tree.Bin? && IsLogicOp(r.tree.op)
    ensures !IsLogicOp(st.cur) ==> r == Parsed(left, st)
    ensures AllDigits(st.number) ==> AllDigits(r.st.number)
    ensures AllDigits(st.number) && LiteralsOk(left) ==> LiteralsOk(r.tree)
    decreases Measure(st), 7
  {
    if IsLogicOp(st.cur) then
      var s1 := Advance(st);
      var b := Lge(s1);
      var res := AndOrTail(Bin(st.cur, left, b.tree), b.st);
      LeftSpineWrap(res.tree, left, st.cur, b.tree, LogicLevel);
      res
    else
      Parsed(left, st)
  }

  /** `less_greater_equal`: a left-folded chain of the six comparisons over `plus_minus` operands. */
  function Lge(st: State): (r: Parsed)
    requires st.Valid()
    ensures Follows(st, r.st)
    ensures !LoopTakes(CompareLevel, r.st.cur)
    ensures PassesOver(CompareLevel, st.cur) ==> r == Parsed(Null, st)
    ensures r.tree == Null ==> NullAt(CompareLevel, st.cur)
    ensures AllDigits(st.number) ==> AllDigits(r.st.number)
    ensures Primed(st) ==> LiteralsOk(r.tree)
    decreases Measure(st), 7
  {
    var a := PlusMinus(st);
    LgeTail(a.tree, a.st)
  }

  function LgeTail(left: Expr, st: State): (r: Parsed)
    requires st.Valid()
    ensures Follows(st, r.st)
    ensures !IsCompareOp(r.st.cur)
    ensures !LoopTakes(AddLevel, st.cur) ==> !LoopTakes(CompareLevel, r.st.cur)
    ensures LeftSpine(r.tree, left, CompareLevel)
    ensures IsCompareOp(st.cur) ==> r.tree.Bin? && IsCompareOp(r.tree.op)
    ensures !IsCompareOp(st.cur) ==> r == Parsed(left, st)
    ensures AllDigits(st.number) ==> AllDigits(r.st.number)
    ensures AllDigits(st.number) && LiteralsOk(left) ==> LiteralsOk(r.tree)
    decreases Measure(st), 6
  {
    if IsCompareOp(st.cur) then
      var s1 := Advance(st);
      var b := PlusMinus(s1);
      var res := LgeTail(Bin(st.cur, left, b.tree), b.st);
      LeftSpineWrap(res.tree, left, st.cur, b.tree, CompareLevel);
      res
    else
      Parsed(left, st)
  }

  /** `plus_minus`: a left-folded chain of `+` / `-` over `mult_div` operands. */
  function PlusMinus(st: State): (r: Parsed)
    requires st.Valid()
    ensures Follows(st, r.st)
    ensures !LoopTakes(AddLevel, r.st.cur)
    ensures PassesOver(AddLevel, st.cur) ==> r == Parsed(Null, st)
    ensures r.tree == Null ==> NullAt(AddLevel, st.cur)
    ensures AllDigits(st.number) ==> AllDigits(r.st.number)
    ensures Primed(st) ==> LiteralsOk(r.tree)
    decreases Measure(st), 6
  {
    var a := MultDiv(st);
    PlusMinusTail(a.tree, a.st)
  }

  function PlusMinusTail(left: Expr, st: State): (r: Parsed)
    requires st.Valid()
    ensures Follows(st, r.st)
    ensures !IsAddOp(r.st.cur)
    ensures !IsMulOp(st.cur) ==> !LoopTakes(AddLevel, r.st.cur)
    ensures LeftSpine(r.tree, left, AddLevel)
    ensures IsAddOp(st.cur) ==> r.tree.Bin? && IsAddOp(r.tree.op)
    ensures !IsAddOp(st.cur) ==> r == Parsed(left, st)
    ensures AllDigits(st.number) ==> AllDigits(r.st.number)
    ensures AllDigits(st.number) && LiteralsOk(left) ==> LiteralsOk(r.tree)
    decreases Measure(st), 5
  {
    if IsAddOp(st.cur) then
      var s1 := Advance(st);
      var b := MultDiv(s1);
      var res := PlusMinusTail(Bin(st.cur, left, b.tree), b.st);
      LeftSpineWrap(res.tree, left, st.cur, b.tree, AddLevel);
      res
    else
      Parsed(left, st)
  }

  /**
   `mult_div`: after the first `unary` operand, either a left-folded chain of
   `*` / `/` over `unary` operands, or one `^` whose right operand is a whole
   `mult_div`. A `^` met after a `*` / `/` chain is left unconsumed.
   */
  function MultDiv(st: State): (r: Parsed)
    requires st.Valid()
    ensures Follows(st, r.st)
    ensures !IsMulOp(r.st.cur)
    ensures r.st.cur == Exp ==> r.tree.Bin? && (IsMulOp(r.tree.op) || r.tree.op == Exp)
    ensures PassesOver(MulLevel, st.cur) ==> r == Parsed(Null, st)
    ensures r.tree == Null ==> NullAt(MulLevel, st.cur)
    ensures AllDigits(st.number) ==> AllDigits(r.st.number)
    ensures Primed(st) ==> LiteralsOk(r.tree)
    decreases Measure(st), 5
  {
    var a := Unary(st);
    if IsMulOp(a.st.cur) then
      MultDivTail(a.tree, a.st)
    else if a.st.cur == Exp then
      var s1 := Advance(a.st);
      var b := MultDiv(s1);
      Parsed(Bin(Exp, a.tree, b.tree), b.st)
    else
      a
  }

  function MultDivTail(left: Expr, st: State): (r: Parsed)
    requires st.Valid()
    ensures Follows(st, r.st)
    ensures !IsMulOp(r.st.cur)
    ensures LeftSpine(r.tree, left, MulLevel)
    ensures IsMulOp(st.cur) ==> r.tree.Bin? && IsMulOp(r.tree.op)
    ensures !IsMulOp(st.cur) ==> r == Parsed(left, st)
    ensures AllDigits(st.number) ==> AllDigits(r.st.number)
    ensures AllDigits(st.number) && LiteralsOk(left) ==> LiteralsOk(r.tree)
    decreases Measure(st), 4
  {
    if IsMulOp(st.cur) then
      var s1 := Advance(st);
      var b := Unary(s1);
      var res := MultDivTail(Bin(st.cur, left, b.tree), b.st);
      LeftSpineWrap(res.tree, left, st.cur, b.tree, MulLevel);
      res
    else
      Parsed(left, st)
  }

  /** `unary`: any number of prefix minus signs, then a `primary`. */
  function Unary(st: State): (r: Parsed)
    requires st.Valid()
    ensures Follows(st, r.st)
    ensures !Opens(st.cur) ==> r == Parsed(Null, st)
    ensures r.tree == Null ==> st.cur != Number && st.cur != Minus
    ensures AllDigits(st.number) ==> AllDigits(r.st.number)
    ensures Primed(st) ==> LiteralsOk(r.tree)
    decreases Measure(st), 4
  {
    if st.cur == Minus then
      var s1 := Advance(st);
      var v := Unary(s1);
      Parsed(Neg(Minus, v.tree), v.st)
    else
      Primary(st)
  }

  /**
   `primary`: a NUMBER becomes a literal built from the digit buffer AFTER the
   next token has been fetched, and the buffer is then cleared; `(` parses a
   whole expression and then consumes one token whatever it is; any other
   token yields a null tree and consumes nothing.
   */
  function Primary(st: State): (r: Parsed)
    requires st.Valid()
    ensures Follows(st, r.st)
    ensures st.cur != Number && st.cur != LParen ==> r == Parsed(Null, st)
    ensures st.cur == Number ==> r.tree.Lit? && r.st.number == []
    ensures r.tree == Null ==> st.cur != Number
    ensures AllDigits(st.number) ==> AllDigits(r.st.number)
    ensures Primed(st) ==> LiteralsOk(r.tree)
    decreases Measure(st), 3
  {
    if st.cur == Number then
      var s1 := Advance(st);
      Parsed(Lit(s1.number), s1.(number := []))
    else if st.cur == LParen then
      var inner := ExprP(st);
      Parsed(inner.tree, Advance(inner.st))
    else
      Parsed(Null, st)
  }

  /**
   The parse half of `Compute`: the cursor restarts at 0 and the digit buffer
   is whatever the previous call left in it (`carried`). The current token
   before the first fetch is never read; it is taken as the zero-initialised
   global. Whatever follows the stop token is ignored.
   */
  function Parse(input: string, carried: string): (r: Parsed)
    ensures r.st.Valid() && r.st.input == input
    ensures !LoopTakes(LogicLevel, r.st.cur)
    ensures AllDigits(carried) ==> LiteralsOk(r.tree) && AllDigits(r.st.number)
  {
    ExprP(State(input, 0, Exp, carried))
  }
}
