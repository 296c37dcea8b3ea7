/**
 * The syntax tree of Sources/ast/AST.swift and its `string()` / `tokenLiteral()` renderings.
 * A child that the parser builds from an optional sub-result is an `Option`; an absent
 * child renders as the empty string.
 */
module Ast {
  import opened Wrappers
  import Tokens

  datatype Identifier = Identifier(token: Tokens.Token, value: string)

  datatype Expression =
    | IdentifierExpression(name: Identifier)
    | IntegerLiteral(token: Tokens.Token, intValue: int)
    | PrefixExpression(token: Tokens.Token, operator: string, right: Option<Expression>)
    | InfixExpression(token: Tokens.Token, left: Option<Expression>, operator: string, right: Option<Expression>)
    | BooleanExpression(token: Tokens.Token, boolValue: bool)
    | IfExpression(token: Tokens.Token, condition: Option<Expression>, consequence: BlockStatement,
                   alternative: Option<BlockStatement>)
    | FunctionLiteral(token: Tokens.Token, params: Option<seq<Identifier>>, body: BlockStatement)
    | CallExpression(token: Tokens.Token, callee: Expression, arguments: seq<Expression>)

  datatype Statement =
    | LetStatement(token: Tokens.Token, name: Identifier, value: Option<Expression>)
    | ReturnStatement(token: Tokens.Token, value: Option<Expression>)
    | ExpressionStatement(token: Tokens.Token, expression: Option<Expression>)

  datatype BlockStatement = BlockStatement(token: Tokens.Token, statements: seq<Statement>)

  datatype Program = Program(statements: seq<Statement>)

  /** `tokenLiteral()` of an expression node: the literal of the token it was built from. */
  function ExpressionTokenLiteral(e: Expression): string {
    if e.IdentifierExpression? then e.name.token.literal else e.token.literal
  }

  function StatementTokenLiteral(s: Statement): string {
    s.token.literal
  }

  /** `Program.tokenLiteral()`: the first statement's literal, or "" for an empty program. */
  function ProgramTokenLiteral(p: Program): string {
    if p.statements == [] then "" else StatementTokenLiteral(p.statements[0])
  }

  function ExpressionString(e: Expression): string
    decreases e, 1
  {
    match e
    case IdentifierExpression(name) => name.value
    case IntegerLiteral(token, _) => token.literal
    case BooleanExpression(token, _) => token.literal
    case PrefixExpression(_, op, right) => "(" + op + OptionString(right) + ")"
    case InfixExpression(_, left, op, right) => "(" + OptionString(left) + " " + op + " " + OptionString(right) + ")"
    case IfExpression(_, condition, consequence, alternative) =>
      "if " + OptionString(condition) + " " + BlockString(consequence)
      + (if alternative.Some? then " else " + BlockString(alternative.value) else "")
    case FunctionLiteral(token, params, body) =>
      token.literal + "(" + JoinIdentifiers(if params.Some? then params.value else []) + ")" + BlockString(body)
    case CallExpression(_, callee, arguments) =>
      ExpressionString(callee) + "(" + JoinExpressions(arguments) + ")"
  }

  /** An optional child as `string()` sees it: absent children contribute nothing. */
  function OptionString(e: Option<Expression>): string
    decreases e, 0
  {
    match e
    case None => ""
    case Some(x) => ExpressionString(x)
  }

  /** `map { $0.string() }.joined(separator: ", ")` over call arguments. */
  function JoinExpressions(es: seq<Expression>): string
    decreases es
  {
    if es == [] then ""
    else if |es| == 1 then ExpressionString(es[0])
    else ExpressionString(es[0]) + ", " + JoinExpressions(es[1..])
  }

  /** `map { $0.string() }.joined(separator: ", ")` over parameters. */
  function JoinIdentifiers(ids: seq<Identifier>): string {
    if ids == [] then ""
    else if |ids| == 1 then ids[0].value
    else ids[0].value + ", " + JoinIdentifiers(ids[1..])
  }

  /**
   * `string()` of a statement. A return statement with a value is rendered in the source by
   * Swift's reflection of the value; here it uses the value's `string()` instead.
   */
  function StatementString(s: Statement): string
    decreases s
  {
    match s
    case LetStatement(token, name, value) => token.literal + " " + name.value + " = " + OptionString(value) + ";"
    case ReturnStatement(token, value) =>
      if value.Some? then token.literal + " " + ExpressionString(value.value) + ";" else token.literal + ";"
    case ExpressionStatement(_, expression) => OptionString(expression)
  }

  /** The statements' strings concatenated with no separator. */
  function StatementsString(ss: seq<Statement>): string
    decreases ss
  {
    if ss == [] then "" else StatementString(ss[0]) + StatementsString(ss[1..])
  }

  function BlockString(b: BlockStatement): string
    decreases b
  {
    StatementsString(b.statements)
  }

  function ProgramString(p: Program): string {
    StatementsString(p.statements)
  }

  /** A program's string is its statements' strings joined with no separator, so it splits at any point. */
  lemma {:induction false} StatementsStringAppend(a: seq<Statement>, b: seq<Statement>)
    ensures StatementsString(a + b) == StatementsString(a) + StatementsString(b)
    decreases |a|
  {
    if a == [] {
      assert a + b == b;
    } else {
      StatementsStringAppend(a[1..], b);
      assert (a + b)[0] == a[0] && (a + b)[1..] == a[1..] + b;
    }
  }

  /** Joining with `", "` puts exactly one separator between the previous names and a new last one. */
  lemma {:induction false} JoinIdentifiersSnoc(ids: seq<Identifier>, x: Identifier)
    ensures JoinIdentifiers(ids + [x]) == if ids == [] then x.value else JoinIdentifiers(ids) + ", " + x.value
    decreases |ids|
  {
    if |ids| > 1 {
      JoinIdentifiersSnoc(ids[1..], x);
      assert (ids + [x])[1..] == ids[1..] + [x];
    } else if |ids| == 1 {
      assert (ids + [x])[1..] == [x];
    }
  }

  /** The same for the arguments of a call. */
  lemma {:induction false} JoinExpressionsSnoc(es: seq<Expression>, x: Expression)
    ensures JoinExpressions(es + [x]) == if es == [] then ExpressionString(x) else JoinExpressions(es) + ", " + ExpressionString(x)
    decreases |es|
  {
    if |es| > 1 {
      JoinExpressionsSnoc(es[1..], x);
      assert (es + [x])[1..] == es[1..] + [x];
    } else if |es| == 1 {
      assert (es + [x])[1..] == [x];
    }
  }

  /**
   * The renderings without structure of their own: literals show their token, an identifier
   * its name, a statement without expression nothing, and a block the concatenation of its
   * statements' strings, so it splits wherever its statement list does.
   */
  lemma LeafStrings(t: Tokens.Token, v: int, b: bool, x: Identifier, ss: seq<Statement>, more: seq<Statement>)
    ensures ExpressionString(IntegerLiteral(t, v)) == t.literal && ExpressionString(BooleanExpression(t, b)) == t.literal
    ensures ExpressionString(IdentifierExpression(x)) == x.value
    ensures ExpressionTokenLiteral(IdentifierExpression(x)) == x.token.literal
    ensures StatementString(ExpressionStatement(t, None)) == ""
    ensures BlockString(BlockStatement(t, ss + more)) == BlockString(BlockStatement(t, ss)) + BlockString(BlockStatement(t, more))
    ensures ProgramTokenLiteral(Program([])) == "" && ProgramString(Program([])) == ""
  {
    StatementsStringAppend(ss, more);
  }

  /** The program of Tests/ast-tests.swift: `let myVar = anotherVar;`, both names as identifier tokens. */
  function MyVarProgram(): Program {
    Program([LetStatement(Tokens.Token(Tokens.LetToken, "let"),
                          Identifier(Tokens.Token(Tokens.TokenType.Identifier, "myVar"), "myVar"),
                          Some(IdentifierExpression(Identifier(Tokens.Token(Tokens.TokenType.Identifier, "anotherVar"), "anotherVar"))))])
  }

  /** The expectation of `testAST`: the let statement renders with its keyword, name, `=` and value. */
  lemma MyVarProgramString()
    ensures ProgramString(MyVarProgram()) == "let myVar = anotherVar;"
    ensures ProgramTokenLiteral(MyVarProgram()) == "let"
  {
    var p := MyVarProgram();
    assert p.statements[1..] == [];
  }
}
