/**
 * What `string()` of Sources/ast/AST.swift prints for the trees the parser of
 * Sources/parser/Parser.swift builds: every prefix and infix node in its own parentheses,
 * so the printed text shows how the parser grouped the input.
 */
module StringLaws {
  import opened Wrappers
  import opened Tokens
  import opened LexerSpec
  import opened Ast
  import opened Numerals
  import opened ParserLaws
  import opened TextLaws
  import opened Pipeline

  /** How an operator is written. */
  function Spelling(op: BinOp): string {
    match op
    case Add => "+"
    case Sub => "-"
    case Mul => "*"
    case Div => "/"
    case Less => "<"
    case Greater => ">"
    case Equal => "=="
    case NotEqual => "!="
  }

  /**
   * The tree written with every operator application in its own parentheses and with the
   * parentheses of the source dropped: `-a * b` is `((-a) * b)`.
   */
  function Bracketed(s: Src): string {
    match s
    case Num(n) => NatToString(n)
    case Name(x) => x
    case Bool(b) => if b then "true" else "false"
    case Neg(x) => "(-" + Bracketed(x) + ")"
    case Not(x) => "(!" + Bracketed(x) + ")"
    case Bin(op, l, r) => "(" + Bracketed(l) + " " + Spelling(op) + " " + Bracketed(r) + ")"
    case Group(x) => Bracketed(x)
  }

  lemma SpellingIsLiteral(op: BinOp)
    ensures OpToken(op).literal == Spelling(op)
  {
  }

  /** `string()` of the syntax tree of `s` is the fully bracketed form of `s`. */
  lemma {:induction false} AstStringIsBracketed(s: Src)
    ensures ExpressionString(ToAst(s)) == Bracketed(s)
  {
    match s
    case Num(_) =>
    case Name(_) =>
    case Bool(_) =>
    case Neg(x) => AstStringIsBracketed(x);
    case Not(x) => AstStringIsBracketed(x);
    case Bin(op, l, r) =>
      AstStringIsBracketed(l);
      AstStringIsBracketed(r);
      SpellingIsLiteral(op);
    case Group(x) => AstStringIsBracketed(x);
  }

  /**
   * Any layout of an expression parses without a message into a program whose `string()`
   * is the expression fully bracketed.
   */
  lemma PrintedText(s: Src, gaps: seq<string>, e: ReadCharAtEnd)
    requires Lexical(s) && WellFormed(s) && Separated(Last(s), "", e)
    requires |gaps| == |TokensOf(s)| && forall i :: 0 <= i < |gaps| ==> AllWhitespace(gaps[i])
    ensures var r := Parse(Layout(TokensOf(s), gaps, "", 0), e);
            r.1 == [] && ProgramString(r.0) == Bracketed(s)
  {
    var text := Layout(TokensOf(s), gaps, "", 0);
    ExpressionText(s, gaps, e);
    var r := Parse(text, e);
    OneStatementString(r.0, First(s), ToAst(s));
    AstStringIsBracketed(s);
  }

  lemma OneStatementString(p: Program, t: Token, x: Expression)
    requires p == Program([ExpressionStatement(t, Some(x))])
    ensures ProgramString(p) == ExpressionString(x)
  {
    var st := p.statements[0];
    assert p.statements[1..] == [] && StatementsString([]) == "";
    assert StatementString(st) == OptionString(Some(x)) == ExpressionString(x);
    assert StatementsString(p.statements) == StatementString(st) + StatementsString([]);
  }

  /** `-a * b`: the prefix operator binds tighter than `*`. */
  function NegProduct(): Src {
    Bin(Mul, Neg(Name("a")), Name("b"))
  }

  lemma NegProductTokens()
    ensures TokensOf(NegProduct()) == [Token(Minus, "-"), Token(TokenType.Identifier, "a"), Token(Asterisk, "*"), Token(TokenType.Identifier, "b")]
  {
  }

  lemma NegProductWellFormed()
    ensures WellFormed(NegProduct())
  {
  }

  lemma NegProductShape()
    ensures Lexical(NegProduct()) && Separated(Last(NegProduct()), "", Advances)
  {
    assert IsWord("a") && IsWord("b");
  }

  lemma NegProductBracketed()
    ensures Bracketed(NegProduct()) == "((-a) * b)"
  {
    assert Bracketed(Neg(Name("a"))) == "(-a)";
  }

  lemma NegProductLayout(ts: seq<Token>, gaps: seq<string>)
    requires ts == [Token(Minus, "-"), Token(TokenType.Identifier, "a"), Token(Asterisk, "*"), Token(TokenType.Identifier, "b")]
    requires gaps == ["", "", " ", " "]
    ensures Layout(ts, gaps, "", 0) == "-a * b"
  {
    assert Layout(ts, gaps, "", 3) == " b";
    assert Layout(ts, gaps, "", 2) == " * b";
    assert Layout(ts, gaps, "", 1) == "a * b";
  }

  /** The text `-a * b` parses as `((-a) * b)`, with no message. */
  lemma NegProductText(text: string)
    requires text == "-a * b"
    ensures Parse(text, Advances).1 == [] && ProgramString(Parse(text, Advances).0) == "((-a) * b)"
  {
    var gaps := ["", "", " ", " "];
    NegProductTokens();
    NegProductShape();
    NegProductWellFormed();
    NegProductBracketed();
    NegProductLayout(TokensOf(NegProduct()), gaps);
    PrintedText(NegProduct(), gaps, Advances);
  }
}
