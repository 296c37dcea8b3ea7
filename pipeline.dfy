/**
 * The whole interpreter on a text, as Tests/eval-tests.swift and Tests/parser-tests.swift
 * drive it: lex, parse the program, then evaluate it in a fresh environment.
 */
module Pipeline {
  import opened Wrappers
  import opened Tokens
  import opened LexerSpec
  import opened Ast
  import opened Objects
  import opened Numerals
  import opened Evaluation
  import opened ParserSpec
  import opened ParserLaws
  import opened ProgramLaws
  import opened EvalLaws
  import opened TextLaws

  /** The program `parseProgram()` builds from `text`, and the messages it records. */
  function Parse(text: string, e: ReadCharAtEnd): (Program, seq<string>) {
    var r := ParseProgram(PState(Lex(text, e), 0, []));
    (r.0, r.1.errors)
  }

  /**
   * What `checkEval(input:)` hands back for `text`: the value of the parsed program in a
   * fresh environment, or `None` when evaluating it would trap.
   */
  function Interpret(text: string, e: ReadCharAtEnd): Option<Option<Object>> {
    var program := Parse(text, e).0;
    if RunDefined(program.statements) then Some(ProgramValue(program.statements, None)) else None
  }

  /** Parsing `text` records no message and evaluating the program gives the integer `v`. */
  predicate EvaluatesTo(text: string, e: ReadCharAtEnd, v: int) {
    Parse(text, e).1 == [] && Interpret(text, e) == Some(Some(Integer(v)))
  }

  /**
   * Any layout of an expression's tokens parses as one expression statement holding that
   * expression, with no message; under the as-written end-of-input behaviour the text must
   * not end with a word or numeral.
   */
  lemma ExpressionText(s: Src, gaps: seq<string>, e: ReadCharAtEnd)
    requires Lexical(s) && WellFormed(s) && Separated(Last(s), "", e)
    requires |gaps| == |TokensOf(s)| && forall i :: 0 <= i < |gaps| ==> AllWhitespace(gaps[i])
    ensures Parse(Layout(TokensOf(s), gaps, "", 0), e) == (Program([ExpressionStatement(First(s), Some(ToAst(s)))]), [])
  {
    LexExpression(s, gaps, "", e);
    ExpressionParses(s);
  }

  /** The tokens of a well-formed expression parse as one expression statement holding it. */
  lemma ExpressionParses(s: Src)
    requires WellFormed(s)
    ensures var toks := TokensOf(s);
            ParseProgram(PState(toks, 0, [])) == (Program([ExpressionStatement(First(s), Some(ToAst(s)))]), PState(toks, |toks|, []))
  {
    SingleExpression(s);
    ParsesBack([ExprSrc(s, false)]);
  }

  /** A program of one expression statement without `;` is written with the expression's tokens. */
  lemma SingleExpression(s: Src)
    requires WellFormed(s)
    ensures var ps := [ExprSrc(s, false)];
            && ProgramOk(ps) && ProgramTokens(ps) == TokensOf(s)
            && ToStatements(ps) == [ExpressionStatement(First(s), Some(ToAst(s)))]
  {
    var ps := [ExprSrc(s, false)];
    assert ps[1..] == [];
    assert Header(ps[0]) == [] && Trailer(ps[0]) == [];
    assert StmtTokens(ps[0]) == TokensOf(s) by {
      assert [] + TokensOf(s) + [] == TokensOf(s);
    }
    assert ProgramTokens(ps) == StmtTokens(ps[0]) + [];
    assert ToStatements(ps) == [ToStatement(ps[0])] + [];
  }

  /**
   * Any layout of an arithmetic expression whose steps all fit in `Int` evaluates to the
   * expression's value.
   */
  lemma ArithmeticText(s: Src, gaps: seq<string>, e: ReadCharAtEnd)
    requires Arith(s) && Fits(s) && WellFormed(s) && Separated(Last(s), "", e)
    requires |gaps| == |TokensOf(s)| && forall i :: 0 <= i < |gaps| ==> AllWhitespace(gaps[i])
    ensures EvaluatesTo(Layout(TokensOf(s), gaps, "", 0), e, Value(s).value)
  {
    ArithLexical(s);
    LexExpression(s, gaps, "", e);
    TokensEvaluate(Layout(TokensOf(s), gaps, "", 0), s, e);
  }

  /** A text that lexes to the tokens of an arithmetic tree evaluates to the tree's value. */
  lemma TokensEvaluate(text: string, s: Src, e: ReadCharAtEnd)
    requires Lex(text, e) == TokensOf(s) && Arith(s) && Fits(s) && WellFormed(s)
    ensures EvaluatesTo(text, e, Value(s).value)
  {
    var st := ExpressionStatement(First(s), Some(ToAst(s)));
    ExpressionParses(s);
    assert Parse(text, e) == (Program([st]), []);
    EvalArith(s);
    OneStatementValue(text, e, st);
  }

  /** A program of one statement that neither traps nor stops has that statement's result. */
  lemma OneStatementValue(text: string, e: ReadCharAtEnd, st: Statement)
    requires Parse(text, e).0 == Program([st]) && StatementDefined(st) && !Stops(EvalStatement(st))
    ensures Interpret(text, e) == Some(EvalStatement(st))
  {
    ProgramValueIsLastResult([st], None);
  }

  lemma {:induction false} ArithLexical(s: Src)
    requires Arith(s)
    ensures Lexical(s)
  {
    match s
    case Num(_) =>
    case Neg(x) => ArithLexical(x);
    case Group(x) => ArithLexical(x);
    case Bin(_, l, r) => ArithLexical(l); ArithLexical(r);
  }

  /** Every gap is white space. */
  predicate Blank(gaps: seq<string>) {
    forall i :: 0 <= i < |gaps| ==> AllWhitespace(gaps[i])
  }
}
