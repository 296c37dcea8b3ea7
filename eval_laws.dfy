/**
 * What the evaluator of Sources/eval/Evaluator.swift computes on the expression trees of
 * parser_laws.dfy: on the four arithmetic operators, unary minus and parentheses it is
 * integer arithmetic with `/` rounding toward zero, as long as no step leaves Swift's `Int`
 * and no divisor is zero; comparisons are parsed but not evaluated.
 */
module EvalLaws {
  import opened Wrappers
  import opened Tokens
  import opened Ast
  import opened Objects
  import opened Numerals
  import opened Evaluation
  import opened ParserLaws

  /** Numbers combined by unary minus, parentheses and `+ - * /`. */
  predicate Arith(s: Src) {
    match s
    case Num(_) => true
    case Neg(x) => Arith(x)
    case Group(x) => Arith(x)
    case Bin(op, l, r) => op in {Add, Sub, Mul, Div} && Arith(l) && Arith(r)
    case _ => false
  }

  /**
   * The value of an arithmetic tree in unbounded integers, dividing with Swift's rounding
   * toward zero; `None` when some divisor is zero.
   */
  function Value(s: Src): Option<int>
    requires Arith(s)
  {
    match s
    case Num(n) => Some(n)
    case Neg(x) => (match Value(x) case None => None case Some(a) => Some(-a))
    case Group(x) => Value(x)
    case Bin(op, l, r) =>
      match (Value(l), Value(r))
      case (Some(a), Some(b)) => Apply(op, a, b)
      case _ => None
  }

  /** One arithmetic operator on unbounded integers; `None` for a zero divisor. */
  function Apply(op: BinOp, a: int, b: int): Option<int>
    requires op in {Add, Sub, Mul, Div}
  {
    if op == Add then Some(a + b)
    else if op == Sub then Some(a - b)
    else if op == Mul then Some(a * b)
    else if b == 0 then None
    else Some(Quot(a, b))
  }

  /** Every sub-tree has a value, and that value is an `Int`. */
  predicate Fits(s: Src)
    requires Arith(s)
  {
    && Value(s).Some? && InInt(Value(s).value)
    && match s
       case Neg(x) => Fits(x)
       case Group(x) => Fits(x)
       case Bin(_, l, r) => Fits(l) && Fits(r)
       case _ => true
  }

  /**
   * The evaluator agrees with the reference arithmetic: an arithmetic tree none of whose
   * steps overflows or divides by zero evaluates without trapping to its value.
   */
  lemma {:induction false} EvalArith(s: Src)
    requires Arith(s) && Fits(s)
    ensures Defined(ToAst(s)) && Eval(ToAst(s)) == Some(Integer(Value(s).value))
    decreases s
  {
    match s
    case Num(_) =>
    case Neg(x) =>
      EvalArith(x);
    case Group(x) =>
      EvalArith(x);
    case Bin(op, l, r) =>
      EvalArith(l);
      EvalArith(r);
      BinCase(op, l, r);
  }

  /** The step of `EvalArith` at an operator node, given the facts for both operands. */
  lemma BinCase(op: BinOp, l: Src, r: Src)
    requires Arith(Bin(op, l, r)) && Fits(Bin(op, l, r))
    requires Defined(ToAst(l)) && Eval(ToAst(l)) == Some(Integer(Value(l).value))
    requires Defined(ToAst(r)) && Eval(ToAst(r)) == Some(Integer(Value(r).value))
    ensures Defined(ToAst(Bin(op, l, r))) && Eval(ToAst(Bin(op, l, r))) == Some(Integer(Value(Bin(op, l, r)).value))
  {
    var a, b := Value(l).value, Value(r).value;
    ApplyAgrees(op, a, b);
    InfixStep(op, l, r, a, b);
  }

  /** Where it has an `Int` result, `evalIntInfix` computes `Apply`. */
  lemma ApplyAgrees(op: BinOp, a: int, b: int)
    requires op in {Add, Sub, Mul, Div} && Apply(op, a, b).Some? && InInt(Apply(op, a, b).value)
    ensures InfixDefined(OpToken(op).literal, Some(Integer(a)), Some(Integer(b)))
    ensures EvalInfix(OpToken(op).literal, Some(Integer(a)), Some(Integer(b))) == Integer(Apply(op, a, b).value)
  {
    EvalInfixOnIntegers(OpToken(op).literal, a, b);
  }

  /** One infix node whose operands evaluate to the integers `a` and `b`. */
  lemma InfixStep(op: BinOp, l: Src, r: Src, a: int, b: int)
    requires Defined(ToAst(l)) && Eval(ToAst(l)) == Some(Integer(a))
    requires Defined(ToAst(r)) && Eval(ToAst(r)) == Some(Integer(b))
    requires InfixDefined(OpToken(op).literal, Some(Integer(a)), Some(Integer(b)))
    ensures Defined(ToAst(Bin(op, l, r)))
    ensures Eval(ToAst(Bin(op, l, r))) == Some(EvalInfix(OpToken(op).literal, Some(Integer(a)), Some(Integer(b))))
  {
  }

  /**
   * A comparison of two arithmetic trees is not evaluated: it is the unknown-operator
   * error naming the operator between two integers.
   */
  lemma ComparisonIsUnknownOperator(op: BinOp, l: Src, r: Src)
    requires op in {Less, Greater, Equal, NotEqual}
    requires Arith(l) && Fits(l) && Arith(r) && Fits(r)
    ensures Defined(ToAst(Bin(op, l, r)))
    ensures Eval(ToAst(Bin(op, l, r))) == Some(Error("unknown operator: INTEGER " + OpToken(op).literal + " INTEGER"))
  {
    EvalArith(l);
    EvalArith(r);
    EvalInfixOnIntegers(OpToken(op).literal, Value(l).value, Value(r).value);
  }

  /** `!` of an arithmetic tree is `false`: every integer is truthy. */
  lemma BangOfArithIsFalse(x: Src)
    requires Arith(x) && Fits(x)
    ensures Defined(ToAst(Not(x))) && Eval(ToAst(Not(x))) == Some(FalseObj)
  {
    EvalArith(x);
  }
}
