/**
 The tree walk of `Base::compute` and its overrides, and `Compute`, which parses
 a string and evaluates the tree it gets. The numbers are doubles in the
 source; here they are a type parameter `V` with the few operations the
 evaluator applies to them collected in an `Arith<V>` record, so nothing below
 depends on floating-point behaviour.

 A null child pointer is dereferenced by `compute`; the model reports that as
 the outcome `NullDereference` instead of a crash. The C++ `&&` and `||`
 short-circuit, so a null right operand is only reached when the left operand
 does not decide the result: `0 &&` parses to a tree with a null child and
 still evaluates to 0.
 */
module Evaluator {
  import opened Lexer
  import opened Ast
  import opened Parser
  import opened Printer
  import opened RoundTrip

  /** The double operations `compute` uses. */
  datatype Arith<!V> = Arith(
    literal: string -> V,   // std::stod on a digit string
    powInt: (V, V) -> V,    // std::pow truncated by the (int) cast, read back as a double
    mul: (V, V) -> V,
    div: (V, V) -> V,
    add: (V, V) -> V,
    sub: (V, V) -> V,
    eq: (V, V) -> bool,     // ==
    lt: (V, V) -> bool,     // <
    le: (V, V) -> bool,     // <=
    zero: V,
    one: V,
    minusOne: V)

  /** What evaluating a tree gives: a number, or the dereference of a null child. */
  datatype Outcome<V> = Computed(v: V) | NullDereference

  /** The conversion of a double to `bool` that `&&` and `||` apply: anything unequal to 0. */
  predicate Truthy<V>(a: Arith<V>, x: V) {
    !a.eq(x, a.zero)
  }

  /** The conversion of a `bool` result back to the double `compute` returns. */
  function FromBool<V>(a: Arith<V>, b: bool): (r: V)
    ensures r == a.one || r == a.zero
    ensures a.one != a.zero ==> (r == a.one <==> b)
  {
    if b then a.one else a.zero
  }

  /**
   Converting the 0 or 1 a node computes back to `bool` gives the truth value
   it stands for, when 0 equals itself and 1 does not equal 0.
   */
  lemma TruthyFromBool<V>(a: Arith<V>, b: bool)
    requires a.eq(a.zero, a.zero) && !a.eq(a.one, a.zero)
    ensures Truthy(a, FromBool(a, b)) == b
  {
  }

  /** One arm of the `switch` in `Calc::compute`, for every operator but `&&` and `||`. */
  function Apply<V>(a: Arith<V>, op: Token, x: V, y: V): (r: V)
    requires IsBinaryOp(op) && !IsLogicOp(op)
    ensures IsCompareOp(op) ==> r == a.one || r == a.zero
    ensures IsCompareOp(op) && a.one != a.zero ==>
              (r == a.one <==>
                 match op
                 case EqualTo => a.eq(x, y)
                 case NotEqualTo => !a.eq(x, y)
                 case Greater => a.lt(y, x)
                 case Less => a.lt(x, y)
                 case GreaterEqual => a.le(y, x)
                 case _ => a.le(x, y))
  {
    match op
    case Exp => a.powInt(x, y)
    case Mult => a.mul(x, y)
    case Div => a.div(x, y)
    case Plus => a.add(x, y)
    case Minus => a.sub(x, y)
    case EqualTo => FromBool(a, a.eq(x, y))
    case NotEqualTo => FromBool(a, !a.eq(x, y))
    case Greater => FromBool(a, a.lt(y, x))
    case Less => FromBool(a, a.lt(x, y))
    case GreaterEqual => FromBool(a, a.le(y, x))
    case LessEqual => FromBool(a, a.le(x, y))
  }

  /**
   `compute` on the tree `e`. A `Calc` node whose operator has no arm in the
   switch, and a `Unary` node whose operator is not MINUS, give 0 without
   looking at their children.
   */
  function Eval<V>(a: Arith<V>, e: Expr): (r: Outcome<V>)
    ensures NullFree(e) ==> r.Computed?
    ensures e.Bin? && (IsCompareOp(e.op) || IsLogicOp(e.op)) && r.Computed? ==> r.v == a.one || r.v == a.zero
    decreases e
  {
    match e
    case Null => NullDereference
    case Lit(d) => Computed(a.literal(d))
    case Neg(op, x) =>
      if op != Minus then Computed(a.zero)
      else
        var o := Eval(a, x);
        if o.NullDereference? then NullDereference else Computed(a.mul(o.v, a.minusOne))
    case Bin(op, l, r) =>
      if !IsBinaryOp(op) then Computed(a.zero)
      else
        var x := Eval(a, l);
        if x.NullDereference? then NullDereference
        else if op == LogicalAnd && !Truthy(a, x.v) then Computed(a.zero)
        else if op == LogicalOr && Truthy(a, x.v) then Computed(a.one)
        else
          var y := Eval(a, r);
          if y.NullDereference? then NullDereference
          else if IsLogicOp(op) then Computed(FromBool(a, Truthy(a, y.v)))
          else Computed(Apply(a, op, x.v, y.v))
  }

  /**
   A null dereference needs a null in the tree (the first ensures of `Eval`),
   but not the other way round: `&&` with a false left operand, and `||` with a true
   one, never evaluate their right operand, null or not.
   */
  lemma ShortCircuit<V>(a: Arith<V>, op: Token, l: Expr, r: Expr)
    requires IsLogicOp(op) && Eval(a, l).Computed?
    requires (op == LogicalAnd) != Truthy(a, Eval(a, l).v)
    ensures Eval(a, Bin(op, l, r)) == Eval(a, Bin(op, l, Null))
    ensures Eval(a, Bin(op, l, r)) == Computed(if op == LogicalAnd then a.zero else a.one)
  {
  }

  /**
   A comparison node computes 1 exactly when its comparison holds of the two
   operand values, as the `bool` the C++ comparison yields converts to 1.0
   for `true` and 0.0 for `false`.
   */
  lemma ComparisonMeaning<V>(a: Arith<V>, op: Token, l: Expr, r: Expr)
    requires a.one != a.zero && IsCompareOp(op) && NullFree(l) && NullFree(r)
    ensures Eval(a, Bin(op, l, r)).Computed?
    ensures var x, y := Eval(a, l).v, Eval(a, r).v;
            Eval(a, Bin(op, l, r)) == Computed(a.one) <==>
              match op
              case EqualTo => a.eq(x, y)
              case NotEqualTo => !a.eq(x, y)
              case Greater => a.lt(y, x)
              case Less => a.lt(x, y)
              case GreaterEqual => a.le(y, x)
              case _ => a.le(x, y)
  {
  }

  /**
   A `&&` node computes 1 exactly when both operands are nonzero, and a `||`
   node exactly when at least one is; the short circuit does not change that.
   */
  lemma LogicMeaning<V>(a: Arith<V>, op: Token, l: Expr, r: Expr)
    requires a.one != a.zero && IsLogicOp(op) && NullFree(l) && NullFree(r)
    ensures Eval(a, Bin(op, l, r)).Computed?
    ensures var x, y := Eval(a, l).v, Eval(a, r).v;
            Eval(a, Bin(op, l, r)) == Computed(a.one) <==>
              if op == LogicalAnd then Truthy(a, x) && Truthy(a, y) else Truthy(a, x) || Truthy(a, y)
  {
    var x, y := Eval(a, l), Eval(a, r);
    assert x.Computed? && y.Computed?;
    LogicStep(a, op, l, r);
  }

  /** One evaluation step of a logical node whose operands both compute. */
  lemma LogicStep<V>(a: Arith<V>, op: Token, l: Expr, r: Expr)
    requires IsLogicOp(op) && Eval(a, l).Computed? && Eval(a, r).Computed?
    ensures var x, y := Eval(a, l).v, Eval(a, r).v;
            Eval(a, Bin(op, l, r)) ==
              Computed(if op == LogicalAnd then FromBool(a, Truthy(a, x) && Truthy(a, y))
                       else FromBool(a, Truthy(a, x) || Truthy(a, y)))
  {
    hide Apply, NullFree;
  }

  /**
   A prefix node negates its operand by multiplying with -1 when its operator
   is MINUS, and computes 0 for any other operator, even over a null operand.
   */
  lemma UnaryMeaning<V>(a: Arith<V>, op: Token, x: Expr)
    ensures op != Minus ==> Eval(a, Neg(op, x)) == Computed(a.zero)
    ensures NullFree(x) ==> Eval(a, Neg(Minus, x)) == Computed(a.mul(Eval(a, x).v, a.minusOne))
  {
  }

  /** `a > b` is `b < a` and `a >= b` is `b <= a`, so mirrored comparisons agree, errors included. */
  lemma ComparisonMirror<V>(a: Arith<V>, l: Expr, r: Expr)
    ensures Eval(a, Bin(Greater, l, r)) == Eval(a, Bin(Less, r, l))
    ensures Eval(a, Bin(GreaterEqual, l, r)) == Eval(a, Bin(LessEqual, r, l))
  {
  }

  /** `!=` gives 1 exactly where `==` gives 0, and fails exactly where `==` fails. */
  lemma NotEqualComplement<V>(a: Arith<V>, l: Expr, r: Expr)
    requires a.one != a.zero
    ensures Eval(a, Bin(NotEqualTo, l, r)).Computed? == Eval(a, Bin(EqualTo, l, r)).Computed?
    ensures Eval(a, Bin(NotEqualTo, l, r)).Computed? ==>
              (Eval(a, Bin(NotEqualTo, l, r)).v == a.one <==> Eval(a, Bin(EqualTo, l, r)).v == a.zero)
  {
  }

  /** On null-free operands the short circuit is unobservable: `&&` and `||` commute. */
  lemma LogicCommutes<V>(a: Arith<V>, op: Token, l: Expr, r: Expr)
    requires IsLogicOp(op) && NullFree(l) && NullFree(r)
    ensures Eval(a, Bin(op, l, r)) == Eval(a, Bin(op, r, l))
  {
  }

  /** A prefix minus multiplies by -1, so two of them give the operand back wherever multiplying by -1 twice is the identity. */
  lemma DoubleNegation<V>(a: Arith<V>, x: Expr)
    requires NullFree(x)
    requires forall v :: a.mul(a.mul(v, a.minusOne), a.minusOne) == v
    ensures Eval(a, Neg(Minus, Neg(Minus, x))) == Eval(a, x)
  {
  }

  /** The result of `Compute` and the digit buffer it leaves for the next call. */
  datatype Run<V> = Run(result: Outcome<V>, number: string)

  /**
   `Compute`: parse from index 0 with the buffer the previous call left, then
   call `compute` on the root, which may be null.
   */
  function Compute<V>(a: Arith<V>, input: string, carried: string): (r: Run<V>)
    ensures AllDigits(carried) ==> AllDigits(r.number)
    ensures r.result.NullDereference? ==> !NullFree(Parse(input, carried).tree)
  {
    var p := Parse(input, carried);
    Run(Eval(a, p.tree), p.st.number)
  }

  /** Input holding nothing but whitespace, the empty string included, gives a null root. */
  lemma {:induction false} ComputeBlank<V>(a: Arith<V>, input: string, carried: string)
    requires forall m :: 0 <= m < |input| ==> IsWhitespace(input[m])
    ensures Parse(input, carried).tree == Null
    ensures Compute(a, input, carried) == Run(NullDereference, carried)
  {
    LexSkipsWhitespace(input, 0, |input|, carried);
    assert Advance(State(input, 0, Exp, carried)) == State(input, |input|, End, carried);
  }

  /** The printed form of a well-formed tree computes to that tree's value and leaves the buffer empty. */
  lemma ComputeRender<V>(a: Arith<V>, e: Expr)
    requires WellFormed(e)
    ensures Eval(a, e).Computed?
    ensures Compute(a, Render(e), []) == Run(Eval(a, e), [])
  {
    WellFormedNullFree(e);
    ParseRender(e, []);
  }

  lemma {:induction false} WellFormedNullFree(e: Expr)
    requires WellFormed(e)
    ensures NullFree(e)
  {
    match e
    case Lit(_) =>
    case Neg(_, x) => WellFormedNullFree(x);
    case Bin(_, l, r) =>
      WellFormedNullFree(l);
      WellFormedNullFree(r);
  }
}
