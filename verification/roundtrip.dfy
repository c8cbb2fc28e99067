/**
 Parsing inverts printing. For every well-formed tree `e`, the grammar
 functions, started on the first token of `At(e, slot)`, rebuild exactly `e`
 and stop on the token that follows the text, provided that token is one the
 corresponding level does not take.

 The proof has two halves. The lexical half (`Lay`) shows which tokens
 `get_token` returns at each position of a rendering, recorded by the
 predicate `Laid`. The grammar half (one lemma per level, calling each other
 as the grammar functions do) works from those token facts alone. Both
 halves hide the recursive definitions they do not unfold and take them
 apart one level at a time through small step lemmas, which keeps every
 proof obligation small.
 */
module RoundTrip {
  import opened Lexer
  import opened Ast
  import opened Parser
  import opened Printer

  /** `text` occurs in `s` at index `k`. */
  predicate Placed(s: string, k: nat, text: string) {
    k + |text| <= |s| && s[k..k + |text|] == text
  }

  lemma PlacedSplit(s: string, k: nat, a: string, b: string, c: string)
    requires Placed(s, k, a + b + c)
    ensures Placed(s, k, a) && Placed(s, k + |a|, b) && Placed(s, k + |a| + |b|, c)
  {
    var t := a + b + c;
    assert s[k..k + |t|] == t;
    assert s[k..k + |a|] == t[..|a|] == a;
    assert t[|a|..|a| + |b|] == b;
    forall m | 0 <= m < |b|
      ensures s[k + |a|..k + |a| + |b|][m] == b[m]
    {
      assert s[k + |a| + m] == s[k..k + |t|][|a| + m];
    }
    assert s[k + |a| + |b|..k + |t|] == t[|a| + |b|..] == c;
  }

  /** The character following `text` placed at `k`, if any, is not a digit. */
  predicate Delimited(s: string, k: nat, text: string)
    requires Placed(s, k, text)
  {
    k + |text| == |s| || !IsDigit(s[k + |text|])
  }

  /** Text followed by something that starts with a non-digit is delimited. */
  lemma DelimitedBy(s: string, k: nat, a: string, t: string)
    requires Placed(s, k, a) && Placed(s, k + |a|, t) && t != [] && !IsDigit(t[0])
    ensures Delimited(s, k, a)
  {
    assert s[k + |a|] == s[k + |a|..k + |a| + |t|][0];
  }

  /** Two texts that end at the same index are delimited alike. */
  lemma DelimitedSameEnd(s: string, k: nat, a: string, k2: nat, b: string)
    requires Placed(s, k, a) && Placed(s, k2, b) && k + |a| == k2 + |b| && Delimited(s, k, a)
    ensures Delimited(s, k2, b)
  {
  }

  /** Fetching at `x` with an empty buffer yields the token `t` and moves to `y`. */
  predicate TokenAt(s: string, x: nat, t: Token, y: nat) {
    x <= |s| && Fetch(s, x, []) == State(s, y, t, [])
  }

  /** Binary operators are spelled with one or two characters, the first of which is no digit. */
  lemma OperatorSpelling(op: Token)
    requires IsBinaryOp(op)
    ensures 1 <= |Spelling(op)| <= 2 && !IsDigit(Spelling(op)[0])
  {
  }

  /** An operator spelled at `p` and followed by an operand lexes as that operator. */
  lemma FetchOperator(s: string, p: nat, op: Token, operand: string)
    requires Spelling(op) != [] && Placed(s, p, Spelling(op))
    requires Placed(s, p + |Spelling(op)|, operand) && operand != [] && StartsOperand(operand[0])
    ensures TokenAt(s, p, op, p + |Spelling(op)|)
  {
    var q := p + |Spelling(op)|;
    assert s[q] == s[q..q + |operand|][0] == operand[0];
    if |Spelling(op)| == 1 {
      assert Peek(s, p + 1) == s[q];
    }
    LexSpelling(op, s, p, []);
  }

  /**
   The tokens of `At(e, slot)` laid out from index `k`: where each literal,
   prefix minus, operator and parenthesis of the rendering is fetched and
   where it ends, as `get_token` sees them with an empty buffer.
   */
  predicate Laid(s: string, k: nat, e: Expr, slot: Slot)
    requires WellFormed(e)
    decreases e, 1
  {
    if Fits(e, slot) then LaidBare(s, k, e)
    else
      var w := RenderWidth(e);
      TokenAt(s, k, LParen, k + 1) && LaidBare(s, k + 1, e) && TokenAt(s, k + 1 + w, RParen, k + 2 + w)
  }

  /** The tokens of `Render(e)` laid out from index `k`. */
  predicate LaidBare(s: string, k: nat, e: Expr)
    requires WellFormed(e)
    decreases e, 0
  {
    match e
    case Lit(d) => k <= |s| && Fetch(s, k, []) == State(s, k + |d|, Number, d)
    case Neg(_, x) => TokenAt(s, k, Minus, k + 1) && Laid(s, k + 1, x, UnarySlot)
    case Bin(op, l, r) =>
      var m := k + AtWidth(l, LeftSlot(op));
      Laid(s, k, l, LeftSlot(op)) && TokenAt(s, m, op, m + |Spelling(op)|)
      && Laid(s, m + |Spelling(op)|, r, RightSlot(op))
  }

  /*
   One-level unfoldings of `WellFormed`, of the printer and of the layout.
   */

  lemma WellFormedStep(e: Expr)
    requires WellFormed(e)
    ensures e.Lit? ==> e.digits != [] && AllDigits(e.digits)
    ensures e.Neg? ==> e.op == Minus && WellFormed(e.e)
    ensures e.Bin? ==> IsBinaryOp(e.op) && WellFormed(e.l) && WellFormed(e.r)
    ensures !e.Null?
  {
  }

  lemma AtStep(e: Expr, slot: Slot)
    requires WellFormed(e)
    ensures At(e, slot) == if Fits(e, slot) then Render(e) else "(" + Render(e) + ")"
  {
    hide Render, WellFormed;
  }

  lemma LaidStep(s: string, k: nat, e: Expr, slot: Slot)
    requires WellFormed(e)
    ensures AtWidth(e, slot) == if Fits(e, slot) then RenderWidth(e) else RenderWidth(e) + 2
    ensures Laid(s, k, e, slot) ==
              if Fits(e, slot) then LaidBare(s, k, e)
              else TokenAt(s, k, LParen, k + 1) && LaidBare(s, k + 1, e)
                   && TokenAt(s, k + 1 + RenderWidth(e), RParen, k + 2 + RenderWidth(e))
  {
    hide Render, RenderWidth, LaidBare, WellFormed, Fetch, GetToken;
  }

  /** Two slots that `e` fits alike lay it out alike. */
  lemma SameLayout(s: string, k: nat, e: Expr, a: Slot, b: Slot)
    requires WellFormed(e) && Fits(e, a) == Fits(e, b)
    ensures Laid(s, k, e, a) == Laid(s, k, e, b) && AtWidth(e, a) == AtWidth(e, b)
  {
    hide Render, RenderWidth, LaidBare, WellFormed, Fetch, GetToken;
  }

  lemma LaidLit(s: string, k: nat, e: Expr)
    requires WellFormed(e) && e.Lit?
    ensures Render(e) == e.digits && RenderWidth(e) == |e.digits|
    ensures LaidBare(s, k, e) == (k <= |s| && Fetch(s, k, []) == State(s, k + |e.digits|, Number, e.digits))
  {
    hide WellFormed, Fetch, GetToken;
  }

  lemma RenderNeg(e: Expr)
    requires WellFormed(e) && e.Neg?
    ensures Render(e) == "-" + At(e.e, UnarySlot)
  {
    hide At;
  }

  lemma RenderBin(e: Expr)
    requires WellFormed(e) && e.Bin?
    ensures Render(e) == At(e.l, LeftSlot(e.op)) + Spelling(e.op) + At(e.r, RightSlot(e.op))
  {
    hide At, Spelling;
  }

  lemma LaidNeg(s: string, k: nat, e: Expr)
    requires WellFormed(e) && e.Neg?
    ensures RenderWidth(e) == 1 + AtWidth(e.e, UnarySlot)
    ensures LaidBare(s, k, e) == (TokenAt(s, k, Minus, k + 1) && Laid(s, k + 1, e.e, UnarySlot))
  {
    hide At, AtWidth, Laid, Fetch, GetToken;
  }

  lemma LaidBin(s: string, k: nat, e: Expr)
    requires WellFormed(e) && e.Bin?
    ensures RenderWidth(e) == AtWidth(e.l, LeftSlot(e.op)) + |Spelling(e.op)| + AtWidth(e.r, RightSlot(e.op))
    ensures var m := k + AtWidth(e.l, LeftSlot(e.op));
            LaidBare(s, k, e) ==
              (Laid(s, k, e.l, LeftSlot(e.op)) && TokenAt(s, m, e.op, m + |Spelling(e.op)|)
               && Laid(s, m + |Spelling(e.op)|, e.r, RightSlot(e.op)))
  {
    hide At, AtWidth, Laid, Spelling, Fetch, GetToken;
  }

  /** A binary node standing bare in `slot`: its operands and operator laid out one after another. */
  lemma BinLaid(s: string, k: nat, e: Expr, slot: Slot)
    requires WellFormed(e) && e.Bin? && Fits(e, slot) && Laid(s, k, e, slot)
    ensures IsBinaryOp(e.op) && WellFormed(e.l) && WellFormed(e.r) && 1 <= |Spelling(e.op)|
    ensures var m := k + AtWidth(e.l, LeftSlot(e.op));
            var p := m + |Spelling(e.op)|;
            Laid(s, k, e.l, LeftSlot(e.op)) && TokenAt(s, m, e.op, p) && Laid(s, p, e.r, RightSlot(e.op))
            && AtWidth(e, slot) == p - k + AtWidth(e.r, RightSlot(e.op))
  {
    hide Render, At, RenderWidth, AtWidth, Laid, LaidBare, WellFormed, Spelling, Fetch, GetToken;
    WellFormedStep(e);
    OperatorSpelling(e.op);
    LaidStep(s, k, e, slot);
    LaidBin(s, k, e);
  }

  /** Both operands of `&&` and `||` sit in the slots of `and_or`'s loop. */
  lemma LogicSlots(op: Token)
    requires IsLogicOp(op)
    ensures LeftSlot(op) == LogicSlot && RightSlot(op) == CompareSlot
  {
  }

  /** The lexical half: a delimited rendering placed in `s` is laid out as `Laid` says. */
  lemma {:induction false} Lay(s: string, k: nat, e: Expr, slot: Slot)
    requires WellFormed(e) && Placed(s, k, At(e, slot)) && Delimited(s, k, At(e, slot))
    ensures Laid(s, k, e, slot)
    decreases e, 3
  {
    hide Render, At, RenderWidth, AtWidth, Laid, LaidBare, WellFormed, Fetch, GetToken;
    AtStep(e, slot);
    LaidStep(s, k, e, slot);
    if Fits(e, slot) {
      LayBare(s, k, e);
    } else {
      LayParen(s, k, e);
    }
  }

  lemma {:induction false} LayParen(s: string, k: nat, e: Expr)
    requires WellFormed(e) && Placed(s, k, "(" + Render(e) + ")")
    ensures TokenAt(s, k, LParen, k + 1) && LaidBare(s, k + 1, e)
    ensures TokenAt(s, k + 1 + RenderWidth(e), RParen, k + 2 + RenderWidth(e))
    decreases e, 2
  {
    hide Render, At, RenderWidth, AtWidth, Laid, LaidBare, WellFormed, Fetch, GetToken;
    var body := Render(e);
    PlacedSplit(s, k, "(", body, ")");
    FetchOperator(s, k, LParen, body);
    DelimitedBy(s, k + 1, body, ")");
    LayBare(s, k + 1, e);
    WidthIsLength(e, UnarySlot);
    FetchClose(s, k + 1 + |body|);
  }

  /** A closing parenthesis lexes as RPAREN whatever follows it. */
  lemma FetchClose(s: string, q: nat)
    requires Placed(s, q, ")")
    ensures TokenAt(s, q, RParen, q + 1)
  {
    LexSpelling(RParen, s, q, []);
  }

  lemma {:induction false} LayBare(s: string, k: nat, e: Expr)
    requires WellFormed(e) && Placed(s, k, Render(e)) && Delimited(s, k, Render(e))
    ensures LaidBare(s, k, e)
    decreases e, 1
  {
    hide Render, At, RenderWidth, AtWidth, Laid, LaidBare, WellFormed, Fetch, GetToken;
    WellFormedStep(e);
    if e.Lit? {
      LayLit(s, k, e);
    } else if e.Neg? {
      LayNeg(s, k, e);
    } else {
      LayBin(s, k, e);
    }
  }

  lemma LayLit(s: string, k: nat, e: Expr)
    requires WellFormed(e) && e.Lit? && Placed(s, k, Render(e)) && Delimited(s, k, Render(e))
    ensures LaidBare(s, k, e)
  {
    hide Render, LaidBare, WellFormed, GetToken;
    WellFormedStep(e);
    LaidLit(s, k, e);
    LexNumber(s, k, e.digits, []);
    assert [] + e.digits == e.digits;
  }

  lemma {:induction false} LayNeg(s: string, k: nat, e: Expr)
    requires WellFormed(e) && e.Neg? && Placed(s, k, Render(e)) && Delimited(s, k, Render(e))
    ensures LaidBare(s, k, e)
    decreases e, 0
  {
    hide Render, At, RenderWidth, AtWidth, Laid, LaidBare, WellFormed, Fetch, GetToken;
    WellFormedStep(e);
    LaidNeg(s, k, e);
    RenderNeg(e);
    var b := At(e.e, UnarySlot);
    assert Render(e) == "-" + b + [];
    PlacedSplit(s, k, "-", b, []);
    FetchOperator(s, k, Minus, b);
    DelimitedSameEnd(s, k, Render(e), k + 1, b);
    Lay(s, k + 1, e.e, UnarySlot);
  }

  lemma {:induction false} LayBin(s: string, k: nat, e: Expr)
    requires WellFormed(e) && e.Bin? && Placed(s, k, Render(e)) && Delimited(s, k, Render(e))
    ensures LaidBare(s, k, e)
    decreases e, 0
  {
    hide Render, At, RenderWidth, AtWidth, Laid, LaidBare, WellFormed, Spelling, Fetch, GetToken, Placed, Delimited;
    WellFormedStep(e);
    OperatorSpelling(e.op);
    LaidBin(s, k, e);
    RenderBin(e);
    var a := At(e.l, LeftSlot(e.op));
    var sp := Spelling(e.op);
    var b := At(e.r, RightSlot(e.op));
    var p := k + |a|;
    PlacedSplit(s, k, a, sp, b);
    FetchOperator(s, p, e.op, b);
    DelimitedBy(s, k, a, sp);
    DelimitedSameEnd(s, k, Render(e), p + |sp|, b);
    Lay(s, k, e.l, LeftSlot(e.op));
    Lay(s, p + |sp|, e.r, RightSlot(e.op));
    WidthIsLength(e.l, LeftSlot(e.op));
  }

  /*
   What each grammar function does when started on the token at `k`: it
   builds `e` and leaves the token at `j` current (for a loop level: it ends
   in that level's loop with `e` as the tree so far).
   */

  predicate ParsesUnary(s: string, k: nat, e: Expr, j: nat)
    requires k <= |s| && j <= |s|
  {
    Unary(Fetch(s, k, [])) == Parsed(e, Fetch(s, j, []))
  }

  predicate ParsesChain(s: string, k: nat, e: Expr, j: nat)
    requires k <= |s| && j <= |s|
  {
    MultDiv(Fetch(s, k, [])) == MultDivTail(e, Fetch(s, j, []))
  }

  predicate ParsesMul(s: string, k: nat, e: Expr, j: nat)
    requires k <= |s| && j <= |s|
  {
    MultDiv(Fetch(s, k, [])) == Parsed(e, Fetch(s, j, []))
  }

  predicate ParsesAdd(s: string, k: nat, e: Expr, j: nat)
    requires k <= |s| && j <= |s|
  {
    PlusMinus(Fetch(s, k, [])) == PlusMinusTail(e, Fetch(s, j, []))
  }

  predicate ParsesCompare(s: string, k: nat, e: Expr, j: nat)
    requires k <= |s| && j <= |s|
  {
    Lge(Fetch(s, k, [])) == LgeTail(e, Fetch(s, j, []))
  }

  predicate ParsesLogic(s: string, k: nat, e: Expr, j: nat)
    requires k <= |s| && j <= |s|
  {
    AndOr(Fetch(s, k, [])) == AndOrTail(e, Fetch(s, j, []))
  }

  /*
   Glue for the grammar half: each lemma below performs one step of one
   grammar function.
   */

  lemma LitStep(s: string, k: nat, j: nat, d: string)
    requires k <= |s| && j <= |s| && Fetch(s, k, []) == State(s, j, Number, d)
    requires Fetch(s, j, []).cur != Number
    ensures ParsesUnary(s, k, Lit(d), j)
  {
    hide GetToken, ExprP, AndOr, AndOrTail, Lge, LgeTail, PlusMinus, PlusMinusTail, MultDiv, MultDivTail;
    LexBufferIndependent(s, j, d, []);
    var st := Fetch(s, k, []);
    var next := Fetch(s, j, d);
    assert Advance(st) == next;
    assert next.(number := []) == Fetch(s, j, []);
    assert Primary(st) == Parsed(Lit(d), Fetch(s, j, []));
  }

  lemma NegStep(s: string, k: nat, j: nat, x: Expr)
    requires TokenAt(s, k, Minus, k + 1) && j <= |s| && ParsesUnary(s, k + 1, x, j)
    ensures ParsesUnary(s, k, Neg(Minus, x), j)
  {
    hide Fetch, GetToken, Primary, ExprP, AndOr, AndOrTail, Lge, LgeTail, PlusMinus, PlusMinusTail, MultDiv,
         MultDivTail;
  }

  lemma ParenStep(s: string, k: nat, m: nat, e: Expr)
    requires k < |s| && TokenAt(s, k, LParen, k + 1) && TokenAt(s, m, RParen, m + 1) && ParsesLogic(s, k + 1, e, m)
    ensures ParsesUnary(s, k, e, m + 1)
  {
    hide Fetch, GetToken, ExprP, AndOr, AndOrTail, Lge, LgeTail, PlusMinus, PlusMinusTail, MultDiv,
         MultDivTail, ParsesLogic;
    InnerStep(s, k, m, e, RParen, m + 1);
    assert Primary(Fetch(s, k, [])) == Parsed(e, Fetch(s, m + 1, []));
  }

  /**
   The `expr_p` call of `primary` on an opening parenthesis, ended by any token
   `and_or` does not take.
   */
  lemma InnerStep(s: string, k: nat, m: nat, e: Expr, t: Token, q: nat)
    requires k < |s| && TokenAt(s, k, LParen, k + 1) && TokenAt(s, m, t, q) && !IsLogicOp(t) && ParsesLogic(s, k + 1, e, m)
    ensures ExprP(Fetch(s, k, [])) == Parsed(e, State(s, q, t, []))
  {
    hide Fetch, GetToken, Unary, Primary, AndOr, AndOrTail, Lge, LgeTail, PlusMinus, PlusMinusTail, MultDiv,
         MultDivTail;
    var open := State(s, k + 1, LParen, []);
    assert Fetch(s, k, []) == open;
    assert ExprP(open) == AndOr(Fetch(s, k + 1, []));
  }

  lemma MulChainStep(s: string, k: nat, m: nat, p: nat, j: nat, e: Expr)
    requires k <= |s| && m <= |s| && p <= |s| && j <= |s| && e.Bin? && IsMulOp(e.op)
    requires ParsesChain(s, k, e.l, m) && TokenAt(s, m, e.op, p) && ParsesUnary(s, p, e.r, j)
    ensures ParsesChain(s, k, e, j)
  {
    hide Fetch, GetToken, Unary, Primary, ExprP, AndOr, AndOrTail, Lge, LgeTail, PlusMinus, PlusMinusTail,
         MultDiv;
  }

  lemma MulFirstStep(s: string, k: nat, j: nat, e: Expr)
    requires k <= |s| && j <= |s| && ParsesUnary(s, k, e, j) && Fetch(s, j, []).cur != Exp
    ensures ParsesChain(s, k, e, j)
  {
    hide Fetch, GetToken, Unary, Primary, ExprP, AndOr, AndOrTail, Lge, LgeTail, PlusMinus, PlusMinusTail,
         MultDivTail;
  }

  lemma MulExpStep(s: string, k: nat, m: nat, p: nat, j: nat, e: Expr)
    requires k <= |s| && m <= |s| && p <= |s| && j <= |s| && e.Bin? && e.op == Exp
    requires ParsesUnary(s, k, e.l, m) && TokenAt(s, m, Exp, p) && ParsesMul(s, p, e.r, j)
    ensures ParsesMul(s, k, e, j)
  {
    hide Fetch, GetToken, Unary, Primary, ExprP, AndOr, AndOrTail, Lge, LgeTail, PlusMinus, PlusMinusTail,
         MultDivTail;
  }

  lemma ChainStop(s: string, k: nat, j: nat, e: Expr)
    requires k <= |s| && j <= |s| && ParsesChain(s, k, e, j) && !IsMulOp(Fetch(s, j, []).cur)
    ensures ParsesMul(s, k, e, j)
  {
    hide Fetch, GetToken, Unary, Primary, ExprP, AndOr, AndOrTail, Lge, LgeTail, PlusMinus, PlusMinusTail,
         MultDiv, MultDivTail;
  }

  lemma AddChainStep(s: string, k: nat, m: nat, p: nat, j: nat, e: Expr)
    requires k <= |s| && m <= |s| && p <= |s| && j <= |s| && e.Bin? && IsAddOp(e.op)
    requires ParsesAdd(s, k, e.l, m) && TokenAt(s, m, e.op, p) && ParsesMul(s, p, e.r, j)
    ensures ParsesAdd(s, k, e, j)
  {
    hide Fetch, GetToken, Unary, Primary, ExprP, AndOr, AndOrTail, Lge, LgeTail, PlusMinus, MultDiv,
         MultDivTail;
  }

  lemma AddFirstStep(s: string, k: nat, j: nat, e: Expr)
    requires k <= |s| && j <= |s| && ParsesMul(s, k, e, j)
    ensures ParsesAdd(s, k, e, j)
  {
    hide Fetch, GetToken, Unary, Primary, ExprP, AndOr, AndOrTail, Lge, LgeTail, PlusMinusTail, MultDiv,
         MultDivTail;
  }

  lemma CompareChainStep(s: string, k: nat, m: nat, p: nat, j: nat, e: Expr)
    requires k <= |s| && m <= |s| && p <= |s| && j <= |s| && e.Bin? && IsCompareOp(e.op)
    requires ParsesCompare(s, k, e.l, m) && TokenAt(s, m, e.op, p) && ParsesAdd(s, p, e.r, j)
    requires !IsAddOp(Fetch(s, j, []).cur)
    ensures ParsesCompare(s, k, e, j)
  {
    hide Fetch, GetToken, Unary, Primary, ExprP, AndOr, AndOrTail, Lge, PlusMinus, PlusMinusTail, MultDiv,
         MultDivTail;
  }

  lemma CompareFirstStep(s: string, k: nat, j: nat, e: Expr)
    requires k <= |s| && j <= |s| && ParsesAdd(s, k, e, j) && !IsAddOp(Fetch(s, j, []).cur)
    ensures ParsesCompare(s, k, e, j)
  {
    hide Fetch, GetToken, Unary, Primary, ExprP, AndOr, AndOrTail, LgeTail, PlusMinus, PlusMinusTail,
         MultDiv, MultDivTail;
  }

  lemma LogicChainStep(s: string, k: nat, m: nat, p: nat, j: nat, e: Expr)
    requires k <= |s| && m <= |s| && p <= |s| && j <= |s| && e.Bin? && IsLogicOp(e.op)
    requires ParsesLogic(s, k, e.l, m) && TokenAt(s, m, e.op, p) && ParsesCompare(s, p, e.r, j)
    requires !IsCompareOp(Fetch(s, j, []).cur)
    ensures ParsesLogic(s, k, e, j)
  {
    hide Fetch, GetToken, Unary, Primary, ExprP, AndOr, Lge, LgeTail, PlusMinus, PlusMinusTail, MultDiv,
         MultDivTail;
  }

  lemma LogicFirstStep(s: string, k: nat, j: nat, e: Expr)
    requires k <= |s| && j <= |s| && ParsesCompare(s, k, e, j) && !IsCompareOp(Fetch(s, j, []).cur)
    ensures ParsesLogic(s, k, e, j)
  {
    hide Fetch, GetToken, Unary, Primary, ExprP, AndOrTail, Lge, LgeTail, PlusMinus, PlusMinusTail, MultDiv,
         MultDivTail;
  }

  /** `Compute`'s parse of the whole input, once `and_or` has stopped on a token it does not take. */
  lemma ParseStep(s: string, j: nat, e: Expr)
    requires j <= |s| && ParsesLogic(s, 0, e, j) && !IsLogicOp(Fetch(s, j, []).cur)
    ensures Parse(s, []) == Parsed(e, Fetch(s, j, []))
  {
    hide Fetch, GetToken, Unary, Primary, AndOr, AndOrTail, Lge, LgeTail, PlusMinus, PlusMinusTail, MultDiv,
         MultDivTail;
    assert Advance(State(s, 0, Exp, [])) == Fetch(s, 0, []);
  }

  /*
   The grammar half, one lemma per level: from the layout of `At(e, slot)`
   between `k` and `j`, the level function started on the token at `k`
   rebuilds `e` and stops on the token at `j`.
   */

  lemma {:induction false} UnaryRT(s: string, k: nat, j: nat, e: Expr)
    requires WellFormed(e) && Laid(s, k, e, UnarySlot) && j == k + AtWidth(e, UnarySlot) && j <= |s|
    requires Fetch(s, j, []).cur != Number
    ensures ParsesUnary(s, k, e, j)
    decreases AtWidth(e, UnarySlot), 0
  {
    hide Render, At, RenderWidth, AtWidth, Laid, LaidBare, WellFormed, Spelling, Fetch, GetToken,
         ParsesUnary, ParsesChain, ParsesMul, ParsesAdd, ParsesCompare, ParsesLogic;
    WellFormedStep(e);
    LaidStep(s, k, e, UnarySlot);
    if e.Lit? {
      LaidLit(s, k, e);
      LitStep(s, k, j, e.digits);
    } else if e.Neg? {
      LaidNeg(s, k, e);
      UnaryRT(s, k + 1, j, e.e);
      NegStep(s, k, j, e.e);
    } else {
      var m := k + 1 + RenderWidth(e);
      LaidStep(s, k + 1, e, LogicSlot);
      LogicRT(s, k + 1, m, e);
      ParenStep(s, k, m, e);
    }
  }

  lemma {:induction false} ChainRT(s: string, k: nat, j: nat, e: Expr)
    requires WellFormed(e) && Laid(s, k, e, ChainSlot) && j == k + AtWidth(e, ChainSlot) && j <= |s|
    requires Fetch(s, j, []).cur != Number && Fetch(s, j, []).cur != Exp
    ensures ParsesChain(s, k, e, j)
    decreases AtWidth(e, ChainSlot), 1
  {
    hide Render, At, RenderWidth, AtWidth, Laid, LaidBare, WellFormed, Spelling, Fetch, GetToken,
         ParsesUnary, ParsesChain, ParsesMul, ParsesAdd, ParsesCompare, ParsesLogic;
    if e.Bin? && IsMulOp(e.op) {
      BinLaid(s, k, e, ChainSlot);
      var m := k + AtWidth(e.l, ChainSlot);
      var p := m + |Spelling(e.op)|;
      ChainRT(s, k, m, e.l);
      UnaryRT(s, p, j, e.r);
      MulChainStep(s, k, m, p, j, e);
    } else {
      SameLayout(s, k, e, ChainSlot, UnarySlot);
      UnaryRT(s, k, j, e);
      MulFirstStep(s, k, j, e);
    }
  }

  lemma {:induction false} MulRT(s: string, k: nat, j: nat, e: Expr)
    requires WellFormed(e) && Laid(s, k, e, MulSlot) && j == k + AtWidth(e, MulSlot) && j <= |s|
    requires !IsMulOp(Fetch(s, j, []).cur) && Fetch(s, j, []).cur != Number && Fetch(s, j, []).cur != Exp
    ensures ParsesMul(s, k, e, j)
    decreases AtWidth(e, MulSlot), 2
  {
    hide Render, At, RenderWidth, AtWidth, Laid, LaidBare, WellFormed, Spelling, Fetch, GetToken,
         ParsesUnary, ParsesChain, ParsesMul, ParsesAdd, ParsesCompare, ParsesLogic;
    if e.Bin? && e.op == Exp {
      BinLaid(s, k, e, MulSlot);
      var m := k + AtWidth(e.l, UnarySlot);
      var p := m + |Spelling(e.op)|;
      UnaryRT(s, k, m, e.l);
      MulRT(s, p, j, e.r);
      MulExpStep(s, k, m, p, j, e);
    } else {
      SameLayout(s, k, e, MulSlot, ChainSlot);
      ChainRT(s, k, j, e);
      ChainStop(s, k, j, e);
    }
  }

  lemma {:induction false} AddRT(s: string, k: nat, j: nat, e: Expr)
    requires WellFormed(e) && Laid(s, k, e, AddSlot) && j == k + AtWidth(e, AddSlot) && j <= |s|
    requires !IsMulOp(Fetch(s, j, []).cur) && Fetch(s, j, []).cur != Number && Fetch(s, j, []).cur != Exp
    ensures ParsesAdd(s, k, e, j)
    decreases AtWidth(e, AddSlot), 3
  {
    hide Render, At, RenderWidth, AtWidth, Laid, LaidBare, WellFormed, Spelling, Fetch, GetToken,
         ParsesUnary, ParsesChain, ParsesMul, ParsesAdd, ParsesCompare, ParsesLogic;
    if e.Bin? && IsAddOp(e.op) {
      BinLaid(s, k, e, AddSlot);
      var m := k + AtWidth(e.l, AddSlot);
      var p := m + |Spelling(e.op)|;
      AddRT(s, k, m, e.l);
      MulRT(s, p, j, e.r);
      AddChainStep(s, k, m, p, j, e);
    } else {
      SameLayout(s, k, e, AddSlot, MulSlot);
      MulRT(s, k, j, e);
      AddFirstStep(s, k, j, e);
    }
  }

  lemma {:induction false} CompareRT(s: string, k: nat, j: nat, e: Expr)
    requires WellFormed(e) && Laid(s, k, e, CompareSlot) && j == k + AtWidth(e, CompareSlot) && j <= |s|
    requires !LoopTakes(AddLevel, Fetch(s, j, []).cur) && Fetch(s, j, []).cur != Number && Fetch(s, j, []).cur != Exp
    ensures ParsesCompare(s, k, e, j)
    decreases AtWidth(e, CompareSlot), 4
  {
    hide Render, At, RenderWidth, AtWidth, Laid, LaidBare, WellFormed, Spelling, Fetch, GetToken,
         ParsesUnary, ParsesChain, ParsesMul, ParsesAdd, ParsesCompare, ParsesLogic;
    if e.Bin? && IsCompareOp(e.op) {
      BinLaid(s, k, e, CompareSlot);
      var m := k + AtWidth(e.l, CompareSlot);
      var p := m + |Spelling(e.op)|;
      CompareRT(s, k, m, e.l);
      AddRT(s, p, j, e.r);
      CompareChainStep(s, k, m, p, j, e);
    } else {
      SameLayout(s, k, e, CompareSlot, AddSlot);
      AddRT(s, k, j, e);
      CompareFirstStep(s, k, j, e);
    }
  }

  lemma {:induction false} LogicRT(s: string, k: nat, j: nat, e: Expr)
    requires WellFormed(e) && Laid(s, k, e, LogicSlot) && j == k + AtWidth(e, LogicSlot) && j <= |s|
    requires !LoopTakes(CompareLevel, Fetch(s, j, []).cur) && Fetch(s, j, []).cur != Number && Fetch(s, j, []).cur != Exp
    ensures ParsesLogic(s, k, e, j)
    decreases AtWidth(e, LogicSlot), 5
  {
    hide Render, At, RenderWidth, AtWidth, Laid, LaidBare, WellFormed, Spelling, Fetch, GetToken,
         ParsesUnary, ParsesChain, ParsesMul, ParsesAdd, ParsesCompare, ParsesLogic;
    if e.Bin? && IsLogicOp(e.op) {
      BinLaid(s, k, e, LogicSlot);
      LogicSlots(e.op);
      var m := k + AtWidth(e.l, LogicSlot);
      var p := m + |Spelling(e.op)|;
      LogicRT(s, k, m, e.l);
      CompareRT(s, p, j, e.r);
      LogicChainStep(s, k, m, p, j, e);
    } else {
      WellFormedStep(e);
      SameLayout(s, k, e, LogicSlot, CompareSlot);
      CompareRT(s, k, j, e);
      LogicFirstStep(s, k, j, e);
    }
  }

  /** Characters that end a parse when they follow a complete expression: no level takes them. */
  predicate StopsParse(c: char) {
    c == '(' || c == ')' || (!IsWhitespace(c) && !IsDigit(c) && !IsSwitchChar(c))
  }

  /** The token right after the rendering: END, a parenthesis or UNDEFINED, none of which any level takes. */
  lemma FollowingToken(r: string, rest: string)
    requires rest == [] || StopsParse(rest[0])
    ensures var t := Fetch(r + rest, |r|, []).cur;
            t == End || t == LParen || t == RParen || t == Undefined
    ensures rest == [] ==> Fetch(r + rest, |r|, []) == State(r, |r|, End, [])
  {
    var s := r + rest;
    if rest == [] {
      assert s == r;
    } else if rest[0] == '(' || rest[0] == ')' {
      var t := if rest[0] == '(' then LParen else RParen;
      assert s[|r|..|r| + 1] == Spelling(t);
      LexSpelling(t, s, |r|, []);
    } else {
      assert s[|r|] == rest[0];
      assert SkipWhitespace(s, |r|) == |r|;
      LexUndefined(s, |r|, []);
    }
  }

  /**
   The parser inverts the printer: parsing the rendering of any well-formed
   tree gives back that tree, whatever follows it as long as it starts with a
   character no level takes; on the bare rendering all input is consumed and
   the parse ends on END with an empty digit buffer.
   */
  lemma ParseRender(e: Expr, rest: string)
    requires WellFormed(e)
    requires rest == [] || StopsParse(rest[0])
    ensures Parse(Render(e) + rest, []).tree == e
    ensures rest == [] ==> Parse(Render(e), []) == Parsed(e, State(Render(e), |Render(e)|, End, []))
  {
    hide Render, At, RenderWidth, AtWidth, Laid, LaidBare, WellFormed, Fetch, GetToken, Parse;
    var r := Render(e);
    var s := r + rest;
    WellFormedStep(e);
    AtStep(e, LogicSlot);
    assert s[0..|r|] == r;
    FollowingToken(r, rest);
    if rest != [] {
      assert s[|r|] == rest[0];
    }
    Lay(s, 0, e, LogicSlot);
    WidthIsLength(e, LogicSlot);
    LogicRT(s, 0, |r|, e);
    ParseStep(s, |r|, e);
  }
}
