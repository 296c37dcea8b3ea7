/**
 * The tree-walking evaluator of Sources/eval/Evaluator.swift. Expressions evaluate by
 * structural recursion to an optional object: `nil` for the node kinds the evaluator
 * does not handle, an `Error` object for a type mismatch, and errors are handed back up
 * unchanged. A program is evaluated statement by statement and stops at the first return
 * value or error.
 *
 * Swift's `Int` arithmetic traps on overflow and on division by zero. The model computes
 * with unbounded integers and asks, through `Defined`, that the evaluation it describes is
 * one in which no such trap happens.
 */
module Evaluation {
  import opened Wrappers
  import opened Ast
  import opened Objects
  import opened Numerals

  const TrueObj: Object := Boolean(true)
  const FalseObj: Object := Boolean(false)
  const NullObj: Object := Null

  /** `isError(obj:)`: a present object whose tag is the error tag. */
  predicate IsError(o: Option<Object>) {
    o.Some? && ObjectType(o.value) == ErrorTag
  }

  /** The tag test recognises exactly the error objects. */
  lemma IsErrorMeansError(o: Option<Object>)
    ensures IsError(o) <==> o.Some? && o.value.Error?
  {
    if o.Some? {
      ErrorTagOnlyForErrors(o.value);
    }
  }

  /** `nativeBoolToObj(input:)`: one of the two shared boolean objects. */
  function NativeBoolToObj(b: bool): (r: Object)
    ensures r == TrueObj || r == FalseObj
    ensures r.Boolean? && r.boolValue == b
  {
    if b then TrueObj else FalseObj
  }

  /** `obj?.objectType() ?? ""`, as error messages print an operand. */
  function TypeText(o: Option<Object>): string {
    if o.Some? then ObjectType(o.value) else ""
  }

  /** Whether `nil` or an object counts as true for `!`: everything except `false` and null. */
  predicate Truthy(o: Option<Object>) {
    !(o.Some? && (o.value == FalseObj || o.value.Null?))
  }

  /** `evalBang(right:)`. */
  function EvalBang(right: Option<Object>): Object {
    if right.Some? && right.value.Boolean? then
      (if right.value.boolValue then FalseObj else TrueObj)
    else if right.Some? && right.value.Null? then TrueObj
    else FalseObj
  }

  /** `!` is the negation of truthiness, so it always yields one of the two booleans. */
  lemma EvalBangNegatesTruthiness(right: Option<Object>)
    ensures EvalBang(right) == NativeBoolToObj(!Truthy(right))
  {
  }

  /** `!!x` is the truthiness of `x`, and gives a boolean back unchanged. */
  lemma DoubleBang(right: Option<Object>)
    ensures EvalBang(Some(EvalBang(right))) == NativeBoolToObj(Truthy(right))
    ensures right.Some? && right.value.Boolean? ==> EvalBang(Some(EvalBang(right))) == right.value
  {
    EvalBangNegatesTruthiness(right);
    EvalBangNegatesTruthiness(Some(EvalBang(right)));
  }

  /** Negating `Int.min` traps in Swift. */
  predicate MinusDefined(right: Option<Object>) {
    right.Some? && right.value.Integer? ==> InInt(-right.value.intValue)
  }

  /** `evalMinusPrefix(right:)`. */
  function EvalMinusPrefix(right: Option<Object>): (r: Object)
    requires MinusDefined(right)
  {
    if right.Some? && right.value.Integer? then Integer(-right.value.intValue)
    else Error("unknown operator: -" + TypeText(right))
  }

  /** Unary minus negates integers, undoes itself, and rejects every other operand. */
  lemma EvalMinusPrefixCases(right: Option<Object>)
    requires MinusDefined(right)
    ensures right.Some? && right.value.Integer? ==>
              && EvalMinusPrefix(right).Integer?
              && EvalMinusPrefix(right).intValue + right.value.intValue == 0
              && (InInt(right.value.intValue) ==> EvalMinusPrefix(Some(EvalMinusPrefix(right))) == right.value)
    ensures !(right.Some? && right.value.Integer?) ==>
              EvalMinusPrefix(right) == Error("unknown operator: -" + TypeText(right))
  {
  }

  predicate PrefixDefined(op: string, right: Option<Object>) {
    op == "-" ==> MinusDefined(right)
  }

  /** `evalPrefix(op:right:)`. */
  function EvalPrefix(op: string, right: Option<Object>): Object
    requires PrefixDefined(op, right)
  {
    if op == "!" then EvalBang(right)
    else if op == "-" then EvalMinusPrefix(right)
    else Error("unknown operator: " + op + TypeText(right))
  }

  function Abs(a: int): nat {
    if a < 0 then -a else a
  }

  /** Swift's `/` on `Int`: the quotient rounded toward zero (Dafny's `/` rounds down). */
  function Quot(a: int, b: int): int
    requires b != 0
  {
    var q := Abs(a) / Abs(b);
    if (a < 0) == (b < 0) then q else -q
  }

  /**
   * `Quot` rounds toward zero: it agrees with Dafny's division on non-negative operands and
   * changes sign with either operand, so `-7 / 2` is `-3` where Dafny's `/` gives `-4`.
   */
  lemma QuotTruncatesTowardZero(a: int, b: int)
    requires b != 0
    ensures a >= 0 && b > 0 ==> Quot(a, b) == a / b
    ensures Quot(-a, b) == -Quot(a, b) && Quot(a, -b) == -Quot(a, b)
    ensures Quot(-7, 2) == -3 && -7 / 2 == -4
  {
    var q := Abs(a) / Abs(b);
    assert Abs(-a) == Abs(a) && Abs(-b) == Abs(b);
    if a == 0 {
      assert q == 0;
    }
  }

  /** Swift traps when `+ - * /` on two `Int`s overflows or divides by zero. */
  predicate IntInfixTraps(op: string, a: int, b: int) {
    || (op == "+" && !InInt(a + b))
    || (op == "-" && !InInt(a - b))
    || (op == "*" && !InInt(a * b))
    || (op == "/" && (b == 0 || !InInt(Quot(a, b))))
  }

  predicate InfixDefined(op: string, left: Option<Object>, right: Option<Object>) {
    left.Some? && left.value.Integer? && right.Some? && right.value.Integer? ==>
      !IntInfixTraps(op, left.value.intValue, right.value.intValue)
  }

  function UnknownInfix(op: string, left: Option<Object>, right: Option<Object>): Object {
    Error("unknown operator: " + TypeText(left) + " " + op + " " + TypeText(right))
  }

  /** `evalIntInfix(op:left:right:)`. */
  function EvalIntInfix(op: string, left: Option<Object>, right: Option<Object>): Object
    requires InfixDefined(op, left, right)
  {
    if left.Some? && left.value.Integer? && right.Some? && right.value.Integer? then
      var a, b := left.value.intValue, right.value.intValue;
      if op == "+" then Integer(a + b)
      else if op == "-" then Integer(a - b)
      else if op == "*" then Integer(a * b)
      else if op == "/" then Integer(Quot(a, b))
      else UnknownInfix(op, left, right)
    else UnknownInfix(op, left, right)
  }

  /** `evalInfix(op:left:right:)`. */
  function EvalInfix(op: string, left: Option<Object>, right: Option<Object>): Object
    requires InfixDefined(op, left, right)
  {
    if left.Some? && left.value.Integer? && right.Some? && right.value.Integer? then
      EvalIntInfix(op, left, right)
    else UnknownInfix(op, left, right)
  }

  /**
   * On two integers the four arithmetic operators compute sum, difference, product and
   * truncated quotient; any other operator, comparisons included, is an unknown-operator
   * error naming both types.
   */
  lemma EvalInfixOnIntegers(op: string, a: int, b: int)
    requires InfixDefined(op, Some(Integer(a)), Some(Integer(b)))
    ensures var r := EvalInfix(op, Some(Integer(a)), Some(Integer(b)));
            && (op == "+" ==> r == Integer(a + b))
            && (op == "-" ==> r == Integer(a - b))
            && (op == "*" ==> r == Integer(a * b))
            && (op == "/" ==> r == Integer(Quot(a, b)))
            && (op !in {"+", "-", "*", "/"} ==> r == Error("unknown operator: INTEGER " + op + " INTEGER"))
  {
  }

  /** An operand that is not an integer makes any infix operator an unknown-operator error. */
  lemma EvalInfixMismatch(op: string, left: Option<Object>, right: Option<Object>)
    requires !(left.Some? && left.value.Integer? && right.Some? && right.value.Integer?)
    ensures EvalInfix(op, left, right) == Error("unknown operator: " + TypeText(left) + " " + op + " " + TypeText(right))
  {
  }

  // ---------------------------------------------------------------------------------------
  // `eval(node:env:)` on expressions and statements

  /**
   * Evaluating `e` stays within what Swift can compute: every integer literal is an `Int`
   * and no arithmetic step that is actually performed traps. An operand that is never
   * evaluated (the right one, once the left one is an error) is not constrained.
   */
  predicate Defined(e: Expression)
    decreases e, 0
  {
    match e
    case IntegerLiteral(_, v) => InInt(v)
    case PrefixExpression(_, op, right) =>
      DefinedOption(right) && (var r := EvalOption(right); !IsError(r) ==> PrefixDefined(op, r))
    case InfixExpression(_, left, op, right) =>
      DefinedOption(left)
      && (var l := EvalOption(left);
          !IsError(l) ==> DefinedOption(right) && (var r := EvalOption(right); !IsError(r) ==> InfixDefined(op, l, r)))
    case _ => true
  }

  predicate DefinedOption(e: Option<Expression>)
    decreases e, 0
  {
    e.Some? ==> Defined(e.value)
  }

  /** `eval(node:env:)` on an expression node. */
  function Eval(e: Expression): Option<Object>
    requires Defined(e)
    decreases e, 1
  {
    match e
    case IntegerLiteral(_, v) => Some(Integer(v))
    case BooleanExpression(_, b) => Some(NativeBoolToObj(b))
    case PrefixExpression(_, op, right) =>
      var r := EvalOption(right);
      if IsError(r) then r else Some(EvalPrefix(op, r))
    case InfixExpression(_, left, op, right) =>
      var l := EvalOption(left);
      if IsError(l) then l
      else
        var r := EvalOption(right);
        if IsError(r) then r else Some(EvalInfix(op, l, r))
    case _ => None
  }

  /** `eval(node:env:)` on an optional child: no node evaluates to `nil`. */
  function EvalOption(e: Option<Expression>): Option<Object>
    requires DefinedOption(e)
    decreases e, 1
  {
    match e
    case None => None
    case Some(x) => Eval(x)
  }

  predicate StatementDefined(s: Statement) {
    s.ExpressionStatement? ==> DefinedOption(s.expression)
  }

  /** `eval(node:env:)` on a statement: only expression statements are handled. */
  function EvalStatement(s: Statement): Option<Object>
    requires StatementDefined(s)
  {
    match s
    case ExpressionStatement(_, expression) => EvalOption(expression)
    case _ => None
  }

  /** With no trap, every integer the evaluator produces is an `Int`. */
  lemma {:induction false} EvalStaysInInt(e: Expression)
    requires Defined(e)
    ensures Eval(e).Some? && Eval(e).value.Integer? ==> InInt(Eval(e).value.intValue)
    decreases e
  {
    match e
    case PrefixExpression(_, op, right) =>
      if right.Some? {
        EvalStaysInInt(right.value);
      }
    case InfixExpression(_, left, op, right) =>
      if left.Some? {
        EvalStaysInInt(left.value);
      }
      if !IsError(EvalOption(left)) && right.Some? {
        EvalStaysInInt(right.value);
      }
    case _ =>
  }

  /** Literals evaluate to themselves: an `Integer` of the same value, a shared boolean object. */
  lemma EvalLiterals(t: Tokens.Token, v: int, b: bool)
    requires InInt(v)
    ensures Eval(IntegerLiteral(t, v)) == Some(Integer(v))
    ensures Eval(BooleanExpression(t, b)) == Some(if b then TrueObj else FalseObj)
  {
  }

  /**
   * An operand that evaluates to an error is the result. A left error makes the right
   * operand irrelevant: it is never evaluated, so it may be anything, trapping or not.
   */
  lemma ErrorsPropagate(t: Tokens.Token, left: Option<Expression>, op: string, right: Option<Expression>,
                        other: Option<Expression>)
    requires DefinedOption(left) && IsError(EvalOption(left))
    ensures Defined(InfixExpression(t, left, op, right)) && Defined(InfixExpression(t, left, op, other))
    ensures Eval(InfixExpression(t, left, op, right)) == EvalOption(left)
    ensures Eval(InfixExpression(t, left, op, other)) == EvalOption(left)
    ensures Defined(PrefixExpression(t, op, left)) && Eval(PrefixExpression(t, op, left)) == EvalOption(left)
  {
  }

  /** A right operand that evaluates to an error is the result when the left one is not an error. */
  lemma RightErrorPropagates(t: Tokens.Token, left: Option<Expression>, op: string, right: Option<Expression>)
    requires DefinedOption(left) && !IsError(EvalOption(left))
    requires DefinedOption(right) && IsError(EvalOption(right))
    ensures Defined(InfixExpression(t, left, op, right))
    ensures Eval(InfixExpression(t, left, op, right)) == EvalOption(right)
  {
  }

  /** Identifiers, `if`, function literals and calls, and `let`/`return` statements evaluate to `nil`. */
  lemma UnhandledNodesAreNil(e: Expression, s: Statement)
    requires e.IdentifierExpression? || e.IfExpression? || e.FunctionLiteral? || e.CallExpression?
    requires !s.ExpressionStatement?
    ensures Defined(e) && Eval(e) == None
    ensures StatementDefined(s) && EvalStatement(s) == None
  {
  }

  // ---------------------------------------------------------------------------------------
  // `evalProgram(program:env:)`

  /** A result that ends the program: a return value or an error. */
  predicate Stops(r: Option<Object>) {
    r.Some? && (r.value.ReturnValue? || r.value.Error?)
  }

  /** What the program hands back for a stopping result: the value a return wraps, or the error. */
  function StopValue(r: Option<Object>): Option<Object>
    requires Stops(r)
  {
    if r.value.ReturnValue? then Some(r.value.value) else r
  }

  /** Every statement the program actually evaluates is free of traps. */
  predicate RunDefined(ss: seq<Statement>) {
    ss == [] || (StatementDefined(ss[0]) && (!Stops(EvalStatement(ss[0])) ==> RunDefined(ss[1..])))
  }

  /** What `evalProgram` returns for the statements `ss` when the last result so far is `result`. */
  function ProgramValue(ss: seq<Statement>, result: Option<Object>): Option<Object>
    requires RunDefined(ss)
  {
    if ss == [] then result
    else
      var r := EvalStatement(ss[0]);
      if Stops(r) then StopValue(r) else ProgramValue(ss[1..], r)
  }

  /** `evalProgram(program:env:)`: the `for` loop over the statements with its two early exits. */
  method EvalProgram(program: Program) returns (result: Option<Object>)
    requires RunDefined(program.statements)
    ensures result == ProgramValue(program.statements, None)
  {
    var ss := program.statements;
    result := None;
    for k := 0 to |ss|
      invariant RunDefined(ss[k..])
      invariant ProgramValue(ss[k..], result) == ProgramValue(ss, None)
    {
      assert ss[k..][1..] == ss[k + 1..];
      result := EvalStatement(ss[k]);
      if result.Some? && result.value.ReturnValue? {
        return Some(result.value.value);
      } else if result.Some? && result.value.Error? {
        return result;
      }
    }
  }

  /** When no statement stops the program, its value is the last statement's result (nil if none). */
  lemma {:induction false} ProgramValueIsLastResult(ss: seq<Statement>, result: Option<Object>)
    requires forall k :: 0 <= k < |ss| ==> StatementDefined(ss[k]) && !Stops(EvalStatement(ss[k]))
    ensures RunDefined(ss)
    ensures ProgramValue(ss, result) == if ss == [] then result else EvalStatement(ss[|ss| - 1])
    decreases |ss|
  {
    if ss != [] {
      assert forall k :: 0 <= k < |ss[1..]| ==> ss[1..][k] == ss[k + 1];
      ProgramValueIsLastResult(ss[1..], EvalStatement(ss[0]));
    }
  }

  /** The first statement whose result is a return value or an error decides the program's value. */
  lemma {:induction false} ProgramValueAtFirstStop(ss: seq<Statement>, result: Option<Object>, k: nat)
    requires k < |ss|
    requires forall j :: 0 <= j < k ==> StatementDefined(ss[j]) && !Stops(EvalStatement(ss[j]))
    requires StatementDefined(ss[k]) && Stops(EvalStatement(ss[k]))
    ensures RunDefined(ss)
    ensures ProgramValue(ss, result) == StopValue(EvalStatement(ss[k]))
    decreases k
  {
    if k > 0 {
      assert forall j :: 0 <= j < |ss[1..]| ==> ss[1..][j] == ss[j + 1];
      ProgramValueAtFirstStop(ss[1..], EvalStatement(ss[0]), k - 1);
    }
  }

  /** The empty program evaluates to `nil`. */
  lemma EmptyProgramIsNil()
    ensures RunDefined([]) && ProgramValue([], None) == None
  {
  }
}
