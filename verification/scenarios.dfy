/**
 Whole-input behaviour of `Compute` on small inputs, chosen to pin down the
 grammar's folding and the places where the code does something other than
 what a reader of the grammar might expect.

 Each quirk is stated twice: once for every input whose token stream has the
 given shape (a lemma over the lexer's results, so it holds for any digits
 and any spacing), and once for one concrete string, whose tokens are worked
 out by a separate lemma.
 */
module Scenarios {
  import opened Lexer
  import opened Ast
  import opened Parser
  import opened Printer
  import opened RoundTrip
  import opened Evaluator

  /*
   Shared steps: a literal operand climbing to the loosest level, and the
   parenthesis of `primary` closed by whatever token follows.
   */

  /** A literal that no `*`, `/`, `^` or further digits follow is a whole `plus_minus` operand. */
  lemma LitOperand(s: string, k: nat, j: nat, d: string)
    requires k <= |s| && j <= |s| && Fetch(s, k, []) == State(s, j, Number, d)
    requires var t := Fetch(s, j, []).cur; t != Number && t != Exp && !IsMulOp(t)
    ensures ParsesAdd(s, k, Lit(d), j)
  {
    hide Fetch, GetToken, Unary, Primary, ExprP, AndOr, AndOrTail, Lge, LgeTail, PlusMinus, PlusMinusTail,
         MultDiv, MultDivTail, ParsesUnary, ParsesChain, ParsesMul, ParsesAdd, ParsesCompare, ParsesLogic;
    LitStep(s, k, j, d);
    MulFirstStep(s, k, j, Lit(d));
    ChainStop(s, k, j, Lit(d));
    AddFirstStep(s, k, j, Lit(d));
  }

  /** A finished `plus_minus` chain followed by a token no looser level takes is the whole parse. */
  lemma WholeParse(s: string, j: nat, e: Expr)
    requires j <= |s| && ParsesAdd(s, 0, e, j) && !LoopTakes(LogicLevel, Fetch(s, j, []).cur)
    ensures Parse(s, []) == Parsed(e, Fetch(s, j, []))
  {
    hide Fetch, GetToken, Unary, Primary, ExprP, AndOr, AndOrTail, Lge, LgeTail, PlusMinus, PlusMinusTail,
         MultDiv, MultDivTail, ParsesUnary, ParsesChain, ParsesMul, ParsesAdd, ParsesCompare, ParsesLogic, Parse;
    CompareFirstStep(s, 0, j, e);
    LogicFirstStep(s, 0, j, e);
    ParseStep(s, j, e);
  }

  /**
   `primary` on `(`: the inner expression, then one more token fetched
   without looking at it, whatever the token `t` that ended the inner
   expression.
   */
  lemma OpenStep(s: string, k: nat, m: nat, e: Expr, t: Token, q: nat)
    requires k < |s| && q <= |s| && TokenAt(s, k, LParen, k + 1) && TokenAt(s, m, t, q) && !IsLogicOp(t)
    requires ParsesLogic(s, k + 1, e, m)
    ensures ParsesUnary(s, k, e, q)
  {
    hide Fetch, GetToken, Parse, ExprP, AndOr, AndOrTail, Lge, LgeTail, PlusMinus, PlusMinusTail, MultDiv,
         MultDivTail, ParsesChain, ParsesMul, ParsesAdd, ParsesCompare, ParsesLogic;
    InnerStep(s, k, m, e, t, q);
    assert Primary(State(s, k + 1, LParen, [])) == Parsed(e, Fetch(s, q, []));
  }

  /*
   `^` after a `*` / `/` chain: `mult_div` tries the exponent only right
   after its first operand, so in `2*3^4` the `^` ends the parse.
   */

  lemma ExpAfterChainParse(s: string, a: string, b: string, i: nat, j: nat, k: nat, l: nat)
    requires i <= |s| && j <= |s| && k <= |s| && l <= |s|
    requires Fetch(s, 0, []) == State(s, i, Number, a)
    requires Fetch(s, i, []) == State(s, j, Mult, [])
    requires Fetch(s, j, []) == State(s, k, Number, b)
    requires Fetch(s, k, []) == State(s, l, Exp, [])
    ensures Parse(s, []) == Parsed(Bin(Mult, Lit(a), Lit(b)), State(s, l, Exp, []))
  {
    hide Fetch, GetToken, Parse, ExprP, AndOr, AndOrTail, Lge, LgeTail, PlusMinus, PlusMinusTail, MultDiv,
         MultDivTail, Unary, Primary, ParsesUnary, ParsesChain, ParsesMul, ParsesAdd, ParsesCompare, ParsesLogic;
    var e := Bin(Mult, Lit(a), Lit(b));
    LitStep(s, 0, i, a);
    MulFirstStep(s, 0, i, Lit(a));
    LitStep(s, j, k, b);
    MulChainStep(s, 0, i, j, k, e);
    ChainStop(s, 0, k, e);
    AddFirstStep(s, 0, k, e);
    WholeParse(s, k, e);
  }

  lemma ExpAfterChainTokens(s: string)
    requires s == "2*3^4"
    ensures Fetch(s, 0, []) == State(s, 1, Number, "2")
    ensures Fetch(s, 1, []) == State(s, 2, Mult, [])
    ensures Fetch(s, 2, []) == State(s, 3, Number, "3")
    ensures Fetch(s, 3, []) == State(s, 4, Exp, [])
  {
    LexNumber(s, 0, "2", []);
    LexSpelling(Mult, s, 1, []);
    LexNumber(s, 2, "3", []);
    LexSpelling(Exp, s, 3, []);
  }

  lemma ExpAfterChain()
    ensures Parse("2*3^4", []) == Parsed(Bin(Mult, Lit("2"), Lit("3")), State("2*3^4", 4, Exp, []))
  {
    hide Fetch, GetToken, Parse;
    ExpAfterChainTokens("2*3^4");
    ExpAfterChainParse("2*3^4", "2", "3", 1, 2, 3, 4);
  }

  /*
   A lone `=` falls through to the `>` case of the lexer's switch, so `1=2`
   is a GREATER comparison.
   */

  lemma CompareParse(s: string, a: string, b: string, op: Token, i: nat, j: nat, k: nat)
    requires IsCompareOp(op) && i <= |s| && j <= |s| && k <= |s|
    requires Fetch(s, 0, []) == State(s, i, Number, a)
    requires Fetch(s, i, []) == State(s, j, op, [])
    requires Fetch(s, j, []) == State(s, k, Number, b)
    requires Fetch(s, k, []).cur == End
    ensures Parse(s, []) == Parsed(Bin(op, Lit(a), Lit(b)), Fetch(s, k, []))
  {
    hide Fetch, GetToken, Parse, ExprP, AndOr, AndOrTail, Lge, LgeTail, PlusMinus, PlusMinusTail, MultDiv,
         MultDivTail, Unary, Primary, ParsesUnary, ParsesChain, ParsesMul, ParsesAdd, ParsesCompare, ParsesLogic;
    var e := Bin(op, Lit(a), Lit(b));
    LitOperand(s, 0, i, a);
    CompareFirstStep(s, 0, i, Lit(a));
    LitOperand(s, j, k, b);
    CompareChainStep(s, 0, i, j, k, e);
    LogicFirstStep(s, 0, k, e);
    ParseStep(s, k, e);
  }

  lemma LoneEqualsTokens(s: string)
    requires s == "1=2"
    ensures Fetch(s, 0, []) == State(s, 1, Number, "1")
    ensures Fetch(s, 1, []) == State(s, 2, Greater, [])
    ensures Fetch(s, 2, []) == State(s, 3, Number, "2")
    ensures Fetch(s, 3, []) == State(s, 3, End, [])
  {
    LexNumber(s, 0, "1", []);
    LexFallthrough(s, 1, []);
    LexNumber(s, 2, "2", []);
  }

  lemma LoneEqualsIsGreater()
    ensures Parse("1=2", []) == Parsed(Bin(Greater, Lit("1"), Lit("2")), State("1=2", 3, End, []))
  {
    hide Fetch, GetToken, Parse;
    LoneEqualsTokens("1=2");
    CompareParse("1=2", "1", "2", Greater, 1, 2, 3);
  }

  /*
   `&` followed by `|` falls through to the `|` case of the lexer's switch,
   which sees the `|` as its second character: `1&|0` is a LOGICAL_OR.
   */

  lemma LogicParse(s: string, a: string, b: string, op: Token, i: nat, j: nat, k: nat)
    requires IsLogicOp(op) && i <= |s| && j <= |s| && k <= |s|
    requires Fetch(s, 0, []) == State(s, i, Number, a)
    requires Fetch(s, i, []) == State(s, j, op, [])
    requires Fetch(s, j, []) == State(s, k, Number, b)
    requires Fetch(s, k, []).cur == End
    ensures Parse(s, []) == Parsed(Bin(op, Lit(a), Lit(b)), Fetch(s, k, []))
  {
    hide Fetch, GetToken, Parse, ExprP, AndOr, AndOrTail, Lge, LgeTail, PlusMinus, PlusMinusTail, MultDiv,
         MultDivTail, Unary, Primary, ParsesUnary, ParsesChain, ParsesMul, ParsesAdd, ParsesCompare, ParsesLogic;
    var e := Bin(op, Lit(a), Lit(b));
    LitOperand(s, 0, i, a);
    CompareFirstStep(s, 0, i, Lit(a));
    LogicFirstStep(s, 0, i, Lit(a));
    LitOperand(s, j, k, b);
    CompareFirstStep(s, j, k, Lit(b));
    LogicChainStep(s, 0, i, j, k, e);
    ParseStep(s, k, e);
  }

  lemma AmpPipeTokens(s: string)
    requires s == "1&|0"
    ensures Fetch(s, 0, []) == State(s, 1, Number, "1")
    ensures Fetch(s, 1, []) == State(s, 3, LogicalOr, [])
    ensures Fetch(s, 3, []) == State(s, 4, Number, "0")
    ensures Fetch(s, 4, []) == State(s, 4, End, [])
  {
    LexNumber(s, 0, "1", []);
    AmpPipeSecond(s);
    AmpPipeThird(s);
  }

  lemma AmpPipeThird(s: string)
    requires s == "1&|0"
    ensures Fetch(s, 3, []) == State(s, 4, Number, "0")
  {
    assert s[3..4] == "0";
    LexNumber(s, 3, "0", []);
  }

  lemma AmpPipeSecond(s: string)
    requires s == "1&|0"
    ensures Fetch(s, 1, []) == State(s, 3, LogicalOr, [])
  {
    assert s[1] == '&' && Peek(s, 2) == '|';
    LexFallthrough(s, 1, []);
  }

  lemma AmpPipeIsOr()
    ensures Parse("1&|0", []) == Parsed(Bin(LogicalOr, Lit("1"), Lit("0")), State("1&|0", 4, End, []))
  {
    hide Fetch, GetToken, Parse;
    AmpPipeTokens("1&|0");
    LogicParse("1&|0", "1", "0", LogicalOr, 1, 3, 4);
  }

  /*
   The token after a parenthesised expression is consumed unchecked: `(1+2`
   parses exactly like `(1+2)`.
   */

  /** The inner `1+2` of both inputs: a `+` of two literals running from index 1 to `m`. */
  lemma SumInside(s: string, a: string, b: string, i: nat, j: nat, m: nat)
    requires 1 <= |s| && i <= |s| && j <= |s| && m <= |s|
    requires Fetch(s, 1, []) == State(s, i, Number, a)
    requires Fetch(s, i, []) == State(s, j, Plus, [])
    requires Fetch(s, j, []) == State(s, m, Number, b)
    requires var t := Fetch(s, m, []).cur; t == End || t == RParen
    ensures ParsesLogic(s, 1, Bin(Plus, Lit(a), Lit(b)), m)
  {
    hide Fetch, GetToken, Parse, ExprP, AndOr, AndOrTail, Lge, LgeTail, PlusMinus, PlusMinusTail, MultDiv,
         MultDivTail, Unary, Primary, ParsesUnary, ParsesChain, ParsesMul, ParsesAdd, ParsesCompare, ParsesLogic;
    var e := Bin(Plus, Lit(a), Lit(b));
    LitOperand(s, 1, i, a);
    LitStep(s, j, m, b);
    MulFirstStep(s, j, m, Lit(b));
    ChainStop(s, j, m, Lit(b));
    AddChainStep(s, 1, i, j, m, e);
    CompareFirstStep(s, 1, m, e);
    LogicFirstStep(s, 1, m, e);
  }

  lemma UnclosedTokens(s: string)
    requires s == "(1+2"
    ensures Fetch(s, 0, []) == State(s, 1, LParen, [])
    ensures Fetch(s, 1, []) == State(s, 2, Number, "1")
    ensures Fetch(s, 2, []) == State(s, 3, Plus, [])
    ensures Fetch(s, 3, []) == State(s, 4, Number, "2")
    ensures Fetch(s, 4, []) == State(s, 4, End, [])
  {
    LexSpelling(LParen, s, 0, []);
    LexNumber(s, 1, "1", []);
    LexSpelling(Plus, s, 2, []);
    LexNumber(s, 3, "2", []);
  }

  lemma ClosedTokens(s: string)
    requires s == "(1+2)"
    ensures Fetch(s, 0, []) == State(s, 1, LParen, [])
    ensures Fetch(s, 1, []) == State(s, 2, Number, "1")
    ensures Fetch(s, 2, []) == State(s, 3, Plus, [])
    ensures Fetch(s, 3, []) == State(s, 4, Number, "2")
    ensures Fetch(s, 4, []) == State(s, 5, RParen, [])
    ensures Fetch(s, 5, []) == State(s, 5, End, [])
  {
    LexSpelling(LParen, s, 0, []);
    LexNumber(s, 1, "1", []);
    LexSpelling(Plus, s, 2, []);
    LexNumber(s, 3, "2", []);
    LexSpelling(RParen, s, 4, []);
  }

  /** Whatever token ends the inner expression, `(` plus that expression is a whole `unary` operand. */
  lemma UnclosedParse(s: string, a: string, b: string, i: nat, j: nat, m: nat)
    requires 1 <= |s| && i <= |s| && j <= |s| && m <= |s|
    requires Fetch(s, 0, []) == State(s, 1, LParen, [])
    requires Fetch(s, 1, []) == State(s, i, Number, a)
    requires Fetch(s, i, []) == State(s, j, Plus, [])
    requires Fetch(s, j, []) == State(s, m, Number, b)
    requires Fetch(s, m, []) == State(s, m, End, [])
    ensures Parse(s, []) == Parsed(Bin(Plus, Lit(a), Lit(b)), State(s, m, End, []))
  {
    hide Fetch, GetToken, Parse, ExprP, AndOr, AndOrTail, Lge, LgeTail, PlusMinus, PlusMinusTail, MultDiv,
         MultDivTail, Unary, Primary, ParsesUnary, ParsesChain, ParsesMul, ParsesAdd, ParsesCompare, ParsesLogic;
    var e := Bin(Plus, Lit(a), Lit(b));
    SumInside(s, a, b, i, j, m);
    OpenStep(s, 0, m, e, End, m);
    MulFirstStep(s, 0, m, e);
    ChainStop(s, 0, m, e);
    AddFirstStep(s, 0, m, e);
    WholeParse(s, m, e);
  }

  lemma ClosedParse(s: string, a: string, b: string, i: nat, j: nat, m: nat)
    requires 1 <= |s| && i <= |s| && j <= |s| && m < |s|
    requires Fetch(s, 0, []) == State(s, 1, LParen, [])
    requires Fetch(s, 1, []) == State(s, i, Number, a)
    requires Fetch(s, i, []) == State(s, j, Plus, [])
    requires Fetch(s, j, []) == State(s, m, Number, b)
    requires Fetch(s, m, []) == State(s, m + 1, RParen, [])
    requires Fetch(s, m + 1, []) == State(s, m + 1, End, [])
    ensures Parse(s, []) == Parsed(Bin(Plus, Lit(a), Lit(b)), State(s, m + 1, End, []))
  {
    hide Fetch, GetToken, Parse, ExprP, AndOr, AndOrTail, Lge, LgeTail, PlusMinus, PlusMinusTail, MultDiv,
         MultDivTail, Unary, Primary, ParsesUnary, ParsesChain, ParsesMul, ParsesAdd, ParsesCompare, ParsesLogic;
    var e := Bin(Plus, Lit(a), Lit(b));
    SumInside(s, a, b, i, j, m);
    OpenStep(s, 0, m, e, RParen, m + 1);
    MulFirstStep(s, 0, m + 1, e);
    ChainStop(s, 0, m + 1, e);
    AddFirstStep(s, 0, m + 1, e);
    WholeParse(s, m + 1, e);
  }

  lemma UncheckedClose()
    ensures Parse("(1+2", []).tree == Bin(Plus, Lit("1"), Lit("2"))
    ensures Parse("(1+2)", []).tree == Bin(Plus, Lit("1"), Lit("2"))
  {
    hide Fetch, GetToken, Parse;
    UnclosedTokens("(1+2");
    UnclosedParse("(1+2", "1", "2", 2, 3, 4);
    ClosedTokens("(1+2)");
    ClosedParse("(1+2)", "1", "2", 2, 3, 4);
  }

  /*
   Digit runs separated by whitespace: `primary` fetches the next token
   before it converts the buffer, so the second run's digits are appended
   first and `12 34` is the single literal 1234, with the second NUMBER left
   current and its digits already spent.
   */

  lemma JoinedRunsParse(s: string, a: string, b: string, i: nat, j: nat)
    requires i <= |s| && j <= |s|
    requires Fetch(s, 0, []) == State(s, i, Number, a)
    requires Fetch(s, i, a) == State(s, j, Number, a + b)
    ensures Parse(s, []) == Parsed(Lit(a + b), State(s, j, Number, []))
  {
    hide Fetch, GetToken, AndOrTail, LgeTail, PlusMinusTail, MultDivTail;
    var st := State(s, i, Number, a);
    var r := Parsed(Lit(a + b), State(s, j, Number, []));
    assert Advance(st) == State(s, j, Number, a + b);
    assert Unary(st) == r;
    assert MultDiv(st) == r;
    assert PlusMinus(st) == r;
    assert Lge(st) == r;
    assert AndOr(st) == r;
    assert Advance(State(s, 0, Exp, [])) == st;
  }

  lemma JoinedRunsTokens(s: string)
    requires s == "12 34"
    ensures Fetch(s, 0, []) == State(s, 2, Number, "12")
    ensures Fetch(s, 2, "12") == State(s, 5, Number, "1234")
  {
    LexNumber(s, 0, "12", []);
    LexSkipsWhitespace(s, 2, 3, "12");
    LexNumber(s, 3, "34", "12");
  }

  lemma DigitRunsJoin()
    ensures Parse("12 34", []) == Parsed(Lit("1234"), State("12 34", 5, Number, []))
  {
    hide Fetch, GetToken, Parse;
    JoinedRunsTokens("12 34");
    JoinedRunsParse("12 34", "12", "34", 2, 5);
  }

  /*
   A dangling `&&`: its right operand is a null tree, yet `compute` never
   reaches it when the left operand is 0.
   */

  lemma DanglingAndParse(s: string, a: string, i: nat, j: nat)
    requires i <= |s| && j <= |s|
    requires Fetch(s, 0, []) == State(s, i, Number, a)
    requires Fetch(s, i, []) == State(s, j, LogicalAnd, [])
    requires Fetch(s, j, []) == State(s, j, End, [])
    ensures Parse(s, []) == Parsed(Bin(LogicalAnd, Lit(a), Null), State(s, j, End, []))
  {
    hide Fetch, GetToken, Parse, ExprP, AndOr, AndOrTail, Lge, LgeTail, PlusMinus, PlusMinusTail, MultDiv,
         MultDivTail, Unary, Primary, ParsesUnary, ParsesChain, ParsesMul, ParsesAdd, ParsesLogic;
    var e := Bin(LogicalAnd, Lit(a), Null);
    LitOperand(s, 0, i, a);
    CompareFirstStep(s, 0, i, Lit(a));
    LogicFirstStep(s, 0, i, Lit(a));
    NullOperand(s, j);
    LogicChainStep(s, 0, i, j, j, e);
    ParseStep(s, j, e);
  }

  /** On END, `less_greater_equal` yields a null tree and consumes nothing. */
  lemma NullOperand(s: string, j: nat)
    requires j <= |s| && Fetch(s, j, []) == State(s, j, End, [])
    ensures ParsesCompare(s, j, Null, j)
  {
    hide Fetch, GetToken, PlusMinus, PlusMinusTail, MultDiv, MultDivTail, Unary, Primary;
  }

  lemma DanglingAndTokens(s: string)
    requires s == "0&&"
    ensures Fetch(s, 0, []) == State(s, 1, Number, "0")
    ensures Fetch(s, 1, []) == State(s, 3, LogicalAnd, [])
    ensures Fetch(s, 3, []) == State(s, 3, End, [])
  {
    LexNumber(s, 0, "0", []);
    LexSpelling(LogicalAnd, s, 1, []);
  }

  lemma DanglingAnd<V>(a: Arith<V>)
    requires !Truthy(a, a.literal("0"))
    ensures Parse("0&&", []).tree == Bin(LogicalAnd, Lit("0"), Null)
    ensures Compute(a, "0&&", []) == Run(Computed(a.zero), [])
  {
    hide Fetch, GetToken, Parse;
    DanglingAndTokens("0&&");
    DanglingAndParse("0&&", "0", 1, 3);
  }

  /*
   Precedence and folding, read off the printer: each tree below is the
   parse of its rendering.
   */

  /** `-` folds to the left: `10-3-2` is `(10-3)-2`. */
  lemma LeftFold()
    ensures Parse("10-3-2", []).tree == Bin(Minus, Bin(Minus, Lit("10"), Lit("3")), Lit("2"))
  {
    var e := Bin(Minus, Bin(Minus, Lit("10"), Lit("3")), Lit("2"));
    assert Render(e) == "10-3-2";
    ParseRender(e, []);
  }

  /** The right operand of `^` is a whole `mult_div`: `2^3^4` is `2^(3^4)`. */
  lemma ExpNestsRight()
    ensures Parse("2^3^4", []).tree == Bin(Exp, Lit("2"), Bin(Exp, Lit("3"), Lit("4")))
  {
    var e := Bin(Exp, Lit("2"), Bin(Exp, Lit("3"), Lit("4")));
    assert Render(e) == "2^3^4";
    ParseRender(e, []);
  }

  /** ... and `2^3*4` is `2^(3*4)`: the product becomes the exponent. */
  lemma ExpTakesProduct()
    ensures Parse("2^3*4", []).tree == Bin(Exp, Lit("2"), Bin(Mult, Lit("3"), Lit("4")))
  {
    var e := Bin(Exp, Lit("2"), Bin(Mult, Lit("3"), Lit("4")));
    assert Render(e) == "2^3*4";
    ParseRender(e, []);
  }

  /** Prefix minus nests: `--5` is `-(-5)`. */
  lemma MinusNests()
    ensures Parse("--5", []).tree == Neg(Minus, Neg(Minus, Lit("5")))
  {
    var e := Neg(Minus, Neg(Minus, Lit("5")));
    assert Render(e) == "--5";
    ParseRender(e, []);
  }

  /** Multiplication binds tighter than addition, and addition tighter than a comparison. */
  lemma Ladder()
    ensures Parse("1+2*3<4", []).tree == Bin(Less, Bin(Plus, Lit("1"), Bin(Mult, Lit("2"), Lit("3"))), Lit("4"))
  {
    var e := Bin(Less, Bin(Plus, Lit("1"), Bin(Mult, Lit("2"), Lit("3"))), Lit("4"));
    LadderText();
    hide Render, At, Parse, Fetch, GetToken;
    ParseRender(e, []);
  }

  lemma LadderText()
    ensures Render(Bin(Less, Bin(Plus, Lit("1"), Bin(Mult, Lit("2"), Lit("3"))), Lit("4"))) == "1+2*3<4"
  {
    hide Parse, Fetch, GetToken;
    var m := Bin(Mult, Lit("2"), Lit("3"));
    var p := Bin(Plus, Lit("1"), m);
    assert At(m, RightSlot(Plus)) == Render(m) == "2*3";
    assert At(p, LeftSlot(Less)) == Render(p) == "1+2*3";
  }

  /** Whatever follows a stop token is never read: `1+2)*3` parses as `1+2`. */
  lemma TrailingIgnored()
    ensures Parse("1+2)*3", []).tree == Bin(Plus, Lit("1"), Lit("2"))
  {
    var e := Bin(Plus, Lit("1"), Lit("2"));
    assert Render(e) == "1+2";
    assert StopsParse(')');
    ParseRender(e, ")*3");
    assert Render(e) + ")*3" == "1+2)*3";
  }
}
