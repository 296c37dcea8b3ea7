/**
 * The expectations of `testEvalIntExpr` in Tests/eval-tests.swift: each input text, lexed
 * with the corrected end-of-input behaviour, parses without a message and evaluates to the
 * listed integer. Each case is checked bottom-up over its tree: `Good` for its value and
 * `Shows` for the stretch of the text each sub-tree spells.
 */
module EvalTests {
  import opened Wrappers
  import opened Tokens
  import opened LexerSpec
  import opened Numerals
  import opened ParserLaws
  import opened EvalLaws
  import opened TextLaws
  import opened Pipeline

  /** `s` is a well-formed arithmetic tree with value `v`, every step of which fits in `Int`. */
  predicate Good(s: Src, v: int) {
    Arith(s) && Fits(s) && WellFormed(s) && Value(s) == Some(v)
  }

  /** `text[i..j]` is the tokens `ts`, each preceded by some gap of white space. */
  ghost predicate Shows(ts: seq<Token>, text: string, i: nat, j: nat) {
    && i <= j <= |text|
    && exists gaps: seq<string> :: LaidOut(ts, gaps, text[i..j])
  }

  predicate LaidOut(ts: seq<Token>, gaps: seq<string>, t: string) {
    |gaps| == |ts| && Blank(gaps) && Layout(ts, gaps, "", 0) == t
  }

  /** A good tree whose tokens the whole of `text` shows is what `text` evaluates to. */
  lemma ShownEvaluates(text: string, s: Src, v: int)
    requires Good(s, v) && Shows(TokensOf(s), text, 0, |text|)
    ensures EvaluatesTo(text, Advances, v)
  {
    var gaps :| LaidOut(TokensOf(s), gaps, text[0..|text|]);
    assert text[0..|text|] == text;
    ArithmeticText(s, gaps, Advances);
  }

  lemma GoodNum(n: nat)
    requires n <= IntMax
    ensures Good(Num(n), n)
  {
  }

  lemma GoodNeg(x: Src, v: int)
    requires Good(x, v) && !x.Bin? && InInt(-v)
    ensures Good(Neg(x), -v)
  {
  }

  lemma GoodGroup(x: Src, v: int)
    requires Good(x, v)
    ensures Good(Group(x), v)
  {
  }

  lemma GoodBin(op: BinOp, l: Src, r: Src, a: int, b: int, v: int)
    requires Good(l, a) && Good(r, b) && op in {Add, Sub, Mul, Div}
    requires Level(l) >= Level(Bin(op, l, r)) && Level(r) > Level(Bin(op, l, r))
    requires Apply(op, a, b) == Some(v) && InInt(v)
    ensures Good(Bin(op, l, r), v)
  {
  }

  /** A gap of white space followed by the spelling of `t`. */
  lemma ShowsToken(t: Token, text: string, i: nat, m: nat, j: nat)
    requires i <= m <= j <= |text| && AllWhitespace(text[i..m]) && text[m..j] == t.literal
    ensures Shows([t], text, i, j)
  {
    var gaps := [text[i..m]];
    assert Layout([t], gaps, "", 1) == "";
    assert text[i..j] == text[i..m] + text[m..j];
    assert LaidOut([t], gaps, text[i..j]);
  }

  /** Adjacent stretches of text show the concatenation of their tokens. */
  lemma ShowsConcat(a: seq<Token>, b: seq<Token>, text: string, i: nat, k: nat, j: nat)
    requires Shows(a, text, i, k) && Shows(b, text, k, j)
    ensures Shows(a + b, text, i, j)
  {
    var ga :| LaidOut(a, ga, text[i..k]);
    var gb :| LaidOut(b, gb, text[k..j]);
    LayoutConcat(a, ga, b, gb, "", 0);
    assert text[i..j] == text[i..k] + text[k..j];
    assert LaidOut(a + b, ga + gb, text[i..j]);
  }

  /** An operator with white space before it, between the stretches showing its operands. */
  lemma ShowsInfix(a: seq<Token>, o: Token, b: seq<Token>, text: string, i: nat, k: nat, m: nat, k2: nat, j: nat)
    requires Shows(a, text, i, k) && k <= m <= k2 <= j <= |text| && AllWhitespace(text[k..m]) && text[m..k2] == o.literal
    requires Shows(b, text, k2, j)
    ensures Shows(a + [o] + b, text, i, j)
  {
    ShowsToken(o, text, k, m, k2);
    ShowsConcat(a, [o], text, i, k, k2);
    ShowsConcat(a + [o], b, text, i, k2, j);
  }

  /** A prefix token with white space before it, followed by the stretch showing its operand. */
  lemma ShowsPrefix(o: Token, b: seq<Token>, text: string, i: nat, m: nat, k: nat, j: nat)
    requires i <= m <= k <= j <= |text| && AllWhitespace(text[i..m]) && text[m..k] == o.literal
    requires Shows(b, text, k, j)
    ensures Shows([o] + b, text, i, j)
  {
    ShowsToken(o, text, i, m, k);
    ShowsConcat([o], b, text, i, k, j);
  }

  /** Parentheses, each with white space before it, around the stretch showing the inner tokens. */
  lemma ShowsParens(b: seq<Token>, text: string, i: nat, m: nat, k: nat, k2: nat, m2: nat, j: nat)
    requires i <= m <= k <= k2 <= m2 <= j <= |text| && AllWhitespace(text[i..m]) && text[m..k] == "("
    requires Shows(b, text, k, k2) && AllWhitespace(text[k2..m2]) && text[m2..j] == ")"
    ensures Shows([Token(LParen, "(")] + b + [Token(RParen, ")")], text, i, j)
  {
    ShowsPrefix(Token(LParen, "("), b, text, i, m, k, k2);
    ShowsToken(Token(RParen, ")"), text, k2, m2, j);
    ShowsConcat([Token(LParen, "(")] + b, [Token(RParen, ")")], text, i, k2, j);
  }

  // ---------------------------------------------------------------------------------------
  // The test cases, in the order of Tests/eval-tests.swift:31-47

  /** `5` evaluates to 5. */
  lemma EvalFive(text: string)
    requires text == "5"
    ensures EvaluatesTo(text, Advances, 5)
  {
    var s := Num(5);
    FiveTree(s);
    FiveSplit(text);
    FiveText(text);
    ShownEvaluates(text, s, 5);
  }

  lemma FiveTree(s: Src)
    requires s == Num(5)
    ensures Good(s, 5) && TokensOf(s) == [Token(Int, "5")]
  {
    GoodNum(5);
  }

  /** `5`, cut into its gaps and token spellings. */
  predicate FivePieces(text: string) {
    && |text| == 1 && text[0..0] == "" && text[0..1] == "5"
  }

  lemma FiveSplit(text: string)
    requires text == "5"
    ensures FivePieces(text)
  {
  }

  lemma FiveText(text: string)
    requires FivePieces(text)
    ensures Shows([Token(Int, "5")], text, 0, |text|)
  {
    ShowsToken(Token(Int, "5"), text, 0, 0, 1);
  }

  /** `10` evaluates to 10. */
  lemma EvalTen(text: string)
    requires text == "10"
    ensures EvaluatesTo(text, Advances, 10)
  {
    var s := Num(10);
    TenTree(s);
    TenSplit(text);
    TenText(text);
    ShownEvaluates(text, s, 10);
  }

  lemma TenTree(s: Src)
    requires s == Num(10)
    ensures Good(s, 10) && TokensOf(s) == [Token(Int, "10")]
  {
    GoodNum(10);
    assert NatToString(10) == "10" by {
      assert NatToString(1) == "1";
    }
  }

  /** `10`, cut into its gaps and token spellings. */
  predicate TenPieces(text: string) {
    && |text| == 2 && text[0..0] == "" && text[0..2] == "10"
  }

  lemma TenSplit(text: string)
    requires text == "10"
    ensures TenPieces(text)
  {
  }

  lemma TenText(text: string)
    requires TenPieces(text)
    ensures Shows([Token(Int, "10")], text, 0, |text|)
  {
    ShowsToken(Token(Int, "10"), text, 0, 0, 2);
  }

  /** `-5` evaluates to -5. */
  lemma EvalMinusFive(text: string)
    requires text == "-5"
    ensures EvaluatesTo(text, Advances, -5)
  {
    var s := Neg(Num(5));
    MinusFiveTree(s);
    MinusFiveSplit(text);
    MinusFiveText(text);
    ShownEvaluates(text, s, -5);
  }

  lemma MinusFiveTree(s: Src)
    requires s == Neg(Num(5))
    ensures Good(s, -5) && TokensOf(s) == [Token(Minus, "-")] + [Token(Int, "5")]
  {
    GoodNum(5);
    GoodNeg(Num(5), 5);
  }

  /** `-5`, cut into its gaps and token spellings. */
  predicate MinusFivePieces(text: string) {
    && |text| == 2 && text[0..0] == "" && text[0..1] == "-" && text[1..1] == "" && text[1..2] == "5"
  }

  lemma MinusFiveSplit(text: string)
    requires text == "-5"
    ensures MinusFivePieces(text)
  {
  }

  lemma MinusFiveText(text: string)
    requires MinusFivePieces(text)
    ensures Shows([Token(Minus, "-")] + [Token(Int, "5")], text, 0, |text|)
  {
    ShowsToken(Token(Int, "5"), text, 1, 1, 2);
    ShowsPrefix(Token(Minus, "-"), [Token(Int, "5")], text, 0, 0, 1, 2);
  }

  /** `-10` evaluates to -10. */
  lemma EvalMinusTen(text: string)
    requires text == "-10"
    ensures EvaluatesTo(text, Advances, -10)
  {
    var s := Neg(Num(10));
    MinusTenTree(s);
    MinusTenSplit(text);
    MinusTenText(text);
    ShownEvaluates(text, s, -10);
  }

  lemma MinusTenTree(s: Src)
    requires s == Neg(Num(10))
    ensures Good(s, -10) && TokensOf(s) == [Token(Minus, "-")] + [Token(Int, "10")]
  {
    GoodNum(10);
    GoodNeg(Num(10), 10);
    assert NatToString(10) == "10" by {
      assert NatToString(1) == "1";
    }
  }

  /** `-10`, cut into its gaps and token spellings. */
  predicate MinusTenPieces(text: string) {
    && |text| == 3 && text[0..0] == "" && text[0..1] == "-" && text[1..1] == "" && text[1..3] == "10"
  }

  lemma MinusTenSplit(text: string)
    requires text == "-10"
    ensures MinusTenPieces(text)
  {
  }

  lemma MinusTenText(text: string)
    requires MinusTenPieces(text)
    ensures Shows([Token(Minus, "-")] + [Token(Int, "10")], text, 0, |text|)
  {
    ShowsToken(Token(Int, "10"), text, 1, 1, 3);
    ShowsPrefix(Token(Minus, "-"), [Token(Int, "10")], text, 0, 0, 1, 3);
  }

  /** `5 + 5 + 5 + 5 - 10` evaluates to 10. */
  lemma EvalSumChain(text: string)
    requires text == "5 + 5 + 5 + 5 - 10"
    ensures EvaluatesTo(text, Advances, 10)
  {
    var s := Bin(Sub, Bin(Add, Bin(Add, Bin(Add, Num(5), Num(5)), Num(5)), Num(5)), Num(10));
    SumChainTree(s);
    SumChainSplit(text);
    SumChainText(text);
    ShownEvaluates(text, s, 10);
  }

  lemma SumChainTree(s: Src)
    requires s == Bin(Sub, Bin(Add, Bin(Add, Bin(Add, Num(5), Num(5)), Num(5)), Num(5)), Num(10))
    ensures Good(s, 10) && TokensOf(s) == ((([Token(Int, "5")] + [Token(Plus, "+")] + [Token(Int, "5")]) + [Token(Plus, "+")] + [Token(Int, "5")]) + [Token(Plus, "+")] + [Token(Int, "5")]) + [Token(Minus, "-")] + [Token(Int, "10")]
  {
    GoodNum(5);
    GoodNum(5);
    GoodBin(Add, Num(5), Num(5), 5, 5, 10);
    GoodNum(5);
    GoodBin(Add, Bin(Add, Num(5), Num(5)), Num(5), 10, 5, 15);
    GoodNum(5);
    GoodBin(Add, Bin(Add, Bin(Add, Num(5), Num(5)), Num(5)), Num(5), 15, 5, 20);
    GoodNum(10);
    GoodBin(Sub, Bin(Add, Bin(Add, Bin(Add, Num(5), Num(5)), Num(5)), Num(5)), Num(10), 20, 10, 10);
    assert NatToString(10) == "10" by {
      assert NatToString(1) == "1";
    }
  }

  /** `5 + 5 + 5 + 5 - 10`, cut into its gaps and token spellings. */
  predicate SumChainPieces(text: string) {
    && |text| == 18 && text[0..0] == "" && text[0..1] == "5" && text[1..2] == " " && text[2..3] == "+"
    && text[3..4] == " " && text[4..5] == "5" && text[5..6] == " " && text[6..7] == "+"
    && text[7..8] == " " && text[8..9] == "5" && text[9..10] == " " && text[10..11] == "+"
    && text[11..12] == " " && text[12..13] == "5" && text[13..14] == " " && text[14..15] == "-"
    && text[15..16] == " " && text[16..18] == "10"
  }

  lemma SumChainSplit(text: string)
    requires text == "5 + 5 + 5 + 5 - 10"
    ensures SumChainPieces(text)
  {
    assert text[..0] == "";
    assert text[..1] == "5";
    assert text[..2] == "5 ";
    assert text[..3] == "5 +";
    assert text[..4] == "5 + ";
    assert text[..5] == "5 + 5";
    assert text[..6] == "5 + 5 ";
    assert text[..7] == "5 + 5 +";
    assert text[..8] == "5 + 5 + ";
    assert text[..9] == "5 + 5 + 5";
    assert text[..10] == "5 + 5 + 5 ";
    assert text[..11] == "5 + 5 + 5 +";
    assert text[..12] == "5 + 5 + 5 + ";
    assert text[..13] == "5 + 5 + 5 + 5";
    assert text[..14] == "5 + 5 + 5 + 5 ";
    assert text[..15] == "5 + 5 + 5 + 5 -";
    assert text[..16] == "5 + 5 + 5 + 5 - ";
  }

  lemma SumChainText(text: string)
    requires SumChainPieces(text)
    ensures Shows(((([Token(Int, "5")] + [Token(Plus, "+")] + [Token(Int, "5")]) + [Token(Plus, "+")] + [Token(Int, "5")]) + [Token(Plus, "+")] + [Token(Int, "5")]) + [Token(Minus, "-")] + [Token(Int, "10")], text, 0, |text|)
  {
    ShowsToken(Token(Int, "5"), text, 0, 0, 1);
    ShowsToken(Token(Int, "5"), text, 3, 4, 5);
    ShowsInfix([Token(Int, "5")], Token(Plus, "+"), [Token(Int, "5")], text, 0, 1, 2, 3, 5);
    ShowsToken(Token(Int, "5"), text, 7, 8, 9);
    ShowsInfix(([Token(Int, "5")] + [Token(Plus, "+")] + [Token(Int, "5")]), Token(Plus, "+"), [Token(Int, "5")], text, 0, 5, 6, 7, 9);
    ShowsToken(Token(Int, "5"), text, 11, 12, 13);
    ShowsInfix((([Token(Int, "5")] + [Token(Plus, "+")] + [Token(Int, "5")]) + [Token(Plus, "+")] + [Token(Int, "5")]), Token(Plus, "+"), [Token(Int, "5")], text, 0, 9, 10, 11, 13);
    ShowsToken(Token(Int, "10"), text, 15, 16, 18);
    ShowsInfix(((([Token(Int, "5")] + [Token(Plus, "+")] + [Token(Int, "5")]) + [Token(Plus, "+")] + [Token(Int, "5")]) + [Token(Plus, "+")] + [Token(Int, "5")]), Token(Minus, "-"), [Token(Int, "10")], text, 0, 13, 14, 15, 18);
  }

  /** `2 * 2 * 2*2*2` evaluates to 32. */
  lemma EvalProductChain(text: string)
    requires text == "2 * 2 * 2*2*2"
    ensures EvaluatesTo(text, Advances, 32)
  {
    var s := Bin(Mul, Bin(Mul, Bin(Mul, Bin(Mul, Num(2), Num(2)), Num(2)), Num(2)), Num(2));
    ProductChainTree(s);
    ProductChainSplit(text);
    ProductChainText(text);
    ShownEvaluates(text, s, 32);
  }

  lemma ProductChainTree(s: Src)
    requires s == Bin(Mul, Bin(Mul, Bin(Mul, Bin(Mul, Num(2), Num(2)), Num(2)), Num(2)), Num(2))
    ensures Good(s, 32) && TokensOf(s) == ((([Token(Int, "2")] + [Token(Asterisk, "*")] + [Token(Int, "2")]) + [Token(Asterisk, "*")] + [Token(Int, "2")]) + [Token(Asterisk, "*")] + [Token(Int, "2")]) + [Token(Asterisk, "*")] + [Token(Int, "2")]
  {
    GoodNum(2);
    GoodNum(2);
    GoodBin(Mul, Num(2), Num(2), 2, 2, 4);
    GoodNum(2);
    GoodBin(Mul, Bin(Mul, Num(2), Num(2)), Num(2), 4, 2, 8);
    GoodNum(2);
    GoodBin(Mul, Bin(Mul, Bin(Mul, Num(2), Num(2)), Num(2)), Num(2), 8, 2, 16);
    GoodNum(2);
    GoodBin(Mul, Bin(Mul, Bin(Mul, Bin(Mul, Num(2), Num(2)), Num(2)), Num(2)), Num(2), 16, 2, 32);
  }

  /** `2 * 2 * 2*2*2`, cut into its gaps and token spellings. */
  predicate ProductChainPieces(text: string) {
    && |text| == 13 && text[0..0] == "" && text[0..1] == "2" && text[1..2] == " " && text[2..3] == "*"
    && text[3..4] == " " && text[4..5] == "2" && text[5..6] == " " && text[6..7] == "*"
    && text[7..8] == " " && text[8..9] == "2" && text[9..9] == "" && text[9..10] == "*"
    && text[10..10] == "" && text[10..11] == "2" && text[11..11] == "" && text[11..12] == "*"
    && text[12..12] == "" && text[12..13] == "2"
  }

  lemma ProductChainSplit(text: string)
    requires text == "2 * 2 * 2*2*2"
    ensures ProductChainPieces(text)
  {
    assert text[..0] == "";
    assert text[..1] == "2";
    assert text[..2] == "2 ";
    assert text[..3] == "2 *";
    assert text[..4] == "2 * ";
    assert text[..5] == "2 * 2";
    assert text[..6] == "2 * 2 ";
    assert text[..7] == "2 * 2 *";
    assert text[..8] == "2 * 2 * ";
    assert text[..9] == "2 * 2 * 2";
    assert text[..10] == "2 * 2 * 2*";
    assert text[..11] == "2 * 2 * 2*2";
    assert text[..12] == "2 * 2 * 2*2*";
  }

  lemma ProductChainText(text: string)
    requires ProductChainPieces(text)
    ensures Shows(((([Token(Int, "2")] + [Token(Asterisk, "*")] + [Token(Int, "2")]) + [Token(Asterisk, "*")] + [Token(Int, "2")]) + [Token(Asterisk, "*")] + [Token(Int, "2")]) + [Token(Asterisk, "*")] + [Token(Int, "2")], text, 0, |text|)
  {
    ShowsToken(Token(Int, "2"), text, 0, 0, 1);
    ShowsToken(Token(Int, "2"), text, 3, 4, 5);
    ShowsInfix([Token(Int, "2")], Token(Asterisk, "*"), [Token(Int, "2")], text, 0, 1, 2, 3, 5);
    ShowsToken(Token(Int, "2"), text, 7, 8, 9);
    ShowsInfix(([Token(Int, "2")] + [Token(Asterisk, "*")] + [Token(Int, "2")]), Token(Asterisk, "*"), [Token(Int, "2")], text, 0, 5, 6, 7, 9);
    ShowsToken(Token(Int, "2"), text, 10, 10, 11);
    ShowsInfix((([Token(Int, "2")] + [Token(Asterisk, "*")] + [Token(Int, "2")]) + [Token(Asterisk, "*")] + [Token(Int, "2")]), Token(Asterisk, "*"), [Token(Int, "2")], text, 0, 9, 9, 10, 11);
    ShowsToken(Token(Int, "2"), text, 12, 12, 13);
    ShowsInfix(((([Token(Int, "2")] + [Token(Asterisk, "*")] + [Token(Int, "2")]) + [Token(Asterisk, "*")] + [Token(Int, "2")]) + [Token(Asterisk, "*")] + [Token(Int, "2")]), Token(Asterisk, "*"), [Token(Int, "2")], text, 0, 11, 11, 12, 13);
  }

  /** `-50 +100 -50` evaluates to 0. */
  lemma EvalNegativeSum(text: string)
    requires text == "-50 +100 -50"
    ensures EvaluatesTo(text, Advances, 0)
  {
    var s := Bin(Sub, Bin(Add, Neg(Num(50)), Num(100)), Num(50));
    NegativeSumTree(s);
    NegativeSumSplit(text);
    NegativeSumText(text);
    ShownEvaluates(text, s, 0);
  }

  lemma NegativeSumTree(s: Src)
    requires s == Bin(Sub, Bin(Add, Neg(Num(50)), Num(100)), Num(50))
    ensures Good(s, 0) && TokensOf(s) == (([Token(Minus, "-")] + [Token(Int, "50")]) + [Token(Plus, "+")] + [Token(Int, "100")]) + [Token(Minus, "-")] + [Token(Int, "50")]
  {
    GoodNum(50);
    GoodNeg(Num(50), 50);
    GoodNum(100);
    GoodBin(Add, Neg(Num(50)), Num(100), -50, 100, 50);
    GoodNum(50);
    GoodBin(Sub, Bin(Add, Neg(Num(50)), Num(100)), Num(50), 50, 50, 0);
    assert NatToString(50) == "50" by {
      assert NatToString(5) == "5";
    }
    assert NatToString(100) == "100" by {
      assert NatToString(10) == "10";
    }
  }

  /** `-50 +100 -50`, cut into its gaps and token spellings. */
  predicate NegativeSumPieces(text: string) {
    && |text| == 12 && text[0..0] == "" && text[0..1] == "-" && text[1..1] == "" && text[1..3] == "50"
    && text[3..4] == " " && text[4..5] == "+" && text[5..5] == "" && text[5..8] == "100"
    && text[8..9] == " " && text[9..10] == "-" && text[10..10] == "" && text[10..12] == "50"
  }

  lemma NegativeSumSplit(text: string)
    requires text == "-50 +100 -50"
    ensures NegativeSumPieces(text)
  {
  }

  lemma NegativeSumText(text: string)
    requires NegativeSumPieces(text)
    ensures Shows((([Token(Minus, "-")] + [Token(Int, "50")]) + [Token(Plus, "+")] + [Token(Int, "100")]) + [Token(Minus, "-")] + [Token(Int, "50")], text, 0, |text|)
  {
    ShowsToken(Token(Int, "50"), text, 1, 1, 3);
    ShowsPrefix(Token(Minus, "-"), [Token(Int, "50")], text, 0, 0, 1, 3);
    ShowsToken(Token(Int, "100"), text, 5, 5, 8);
    ShowsInfix(([Token(Minus, "-")] + [Token(Int, "50")]), Token(Plus, "+"), [Token(Int, "100")], text, 0, 3, 4, 5, 8);
    ShowsToken(Token(Int, "50"), text, 10, 10, 12);
    ShowsInfix((([Token(Minus, "-")] + [Token(Int, "50")]) + [Token(Plus, "+")] + [Token(Int, "100")]), Token(Minus, "-"), [Token(Int, "50")], text, 0, 8, 9, 10, 12);
  }

  /** `5* 2 + 10` evaluates to 20. */
  lemma EvalProductFirst(text: string)
    requires text == "5* 2 + 10"
    ensures EvaluatesTo(text, Advances, 20)
  {
    var s := Bin(Add, Bin(Mul, Num(5), Num(2)), Num(10));
    ProductFirstTree(s);
    ProductFirstSplit(text);
    ProductFirstText(text);
    ShownEvaluates(text, s, 20);
  }

  lemma ProductFirstTree(s: Src)
    requires s == Bin(Add, Bin(Mul, Num(5), Num(2)), Num(10))
    ensures Good(s, 20) && TokensOf(s) == ([Token(Int, "5")] + [Token(Asterisk, "*")] + [Token(Int, "2")]) + [Token(Plus, "+")] + [Token(Int, "10")]
  {
    GoodNum(5);
    GoodNum(2);
    GoodBin(Mul, Num(5), Num(2), 5, 2, 10);
    GoodNum(10);
    GoodBin(Add, Bin(Mul, Num(5), Num(2)), Num(10), 10, 10, 20);
    assert NatToString(10) == "10" by {
      assert NatToString(1) == "1";
    }
  }

  /** `5* 2 + 10`, cut into its gaps and token spellings. */
  predicate ProductFirstPieces(text: string) {
    && |text| == 9 && text[0..0] == "" && text[0..1] == "5" && text[1..1] == "" && text[1..2] == "*"
    && text[2..3] == " " && text[3..4] == "2" && text[4..5] == " " && text[5..6] == "+"
    && text[6..7] == " " && text[7..9] == "10"
  }

  lemma ProductFirstSplit(text: string)
    requires text == "5* 2 + 10"
    ensures ProductFirstPieces(text)
  {
  }

  lemma ProductFirstText(text: string)
    requires ProductFirstPieces(text)
    ensures Shows(([Token(Int, "5")] + [Token(Asterisk, "*")] + [Token(Int, "2")]) + [Token(Plus, "+")] + [Token(Int, "10")], text, 0, |text|)
  {
    ShowsToken(Token(Int, "5"), text, 0, 0, 1);
    ShowsToken(Token(Int, "2"), text, 2, 3, 4);
    ShowsInfix([Token(Int, "5")], Token(Asterisk, "*"), [Token(Int, "2")], text, 0, 1, 1, 2, 4);
    ShowsToken(Token(Int, "10"), text, 6, 7, 9);
    ShowsInfix(([Token(Int, "5")] + [Token(Asterisk, "*")] + [Token(Int, "2")]), Token(Plus, "+"), [Token(Int, "10")], text, 0, 4, 5, 6, 9);
  }

  /** `5 + 2 * 10` evaluates to 25. */
  lemma EvalProductSecond(text: string)
    requires text == "5 + 2 * 10"
    ensures EvaluatesTo(text, Advances, 25)
  {
    var s := Bin(Add, Num(5), Bin(Mul, Num(2), Num(10)));
    ProductSecondTree(s);
    ProductSecondSplit(text);
    ProductSecondText(text);
    ShownEvaluates(text, s, 25);
  }

  lemma ProductSecondTree(s: Src)
    requires s == Bin(Add, Num(5), Bin(Mul, Num(2), Num(10)))
    ensures Good(s, 25) && TokensOf(s) == [Token(Int, "5")] + [Token(Plus, "+")] + ([Token(Int, "2")] + [Token(Asterisk, "*")] + [Token(Int, "10")])
  {
    GoodNum(5);
    GoodNum(2);
    GoodNum(10);
    GoodBin(Mul, Num(2), Num(10), 2, 10, 20);
    GoodBin(Add, Num(5), Bin(Mul, Num(2), Num(10)), 5, 20, 25);
    assert NatToString(10) == "10" by {
      assert NatToString(1) == "1";
    }
  }

  /** `5 + 2 * 10`, cut into its gaps and token spellings. */
  predicate ProductSecondPieces(text: string) {
    && |text| == 10 && text[0..0] == "" && text[0..1] == "5" && text[1..2] == " " && text[2..3] == "+"
    && text[3..4] == " " && text[4..5] == "2" && text[5..6] == " " && text[6..7] == "*"
    && text[7..8] == " " && text[8..10] == "10"
  }

  lemma ProductSecondSplit(text: string)
    requires text == "5 + 2 * 10"
    ensures ProductSecondPieces(text)
  {
  }

  lemma ProductSecondText(text: string)
    requires ProductSecondPieces(text)
    ensures Shows([Token(Int, "5")] + [Token(Plus, "+")] + ([Token(Int, "2")] + [Token(Asterisk, "*")] + [Token(Int, "10")]), text, 0, |text|)
  {
    ShowsToken(Token(Int, "5"), text, 0, 0, 1);
    ShowsToken(Token(Int, "2"), text, 3, 4, 5);
    ShowsToken(Token(Int, "10"), text, 7, 8, 10);
    ShowsInfix([Token(Int, "2")], Token(Asterisk, "*"), [Token(Int, "10")], text, 3, 5, 6, 7, 10);
    ShowsInfix([Token(Int, "5")], Token(Plus, "+"), ([Token(Int, "2")] + [Token(Asterisk, "*")] + [Token(Int, "10")]), text, 0, 1, 2, 3, 10);
  }

  /** `20 + 2 * -10` evaluates to 0. */
  lemma EvalNegatedFactor(text: string)
    requires text == "20 + 2 * -10"
    ensures EvaluatesTo(text, Advances, 0)
  {
    var s := Bin(Add, Num(20), Bin(Mul, Num(2), Neg(Num(10))));
    NegatedFactorTree(s);
    NegatedFactorSplit(text);
    NegatedFactorText(text);
    ShownEvaluates(text, s, 0);
  }

  lemma NegatedFactorTree(s: Src)
    requires s == Bin(Add, Num(20), Bin(Mul, Num(2), Neg(Num(10))))
    ensures Good(s, 0) && TokensOf(s) == [Token(Int, "20")] + [Token(Plus, "+")] + ([Token(Int, "2")] + [Token(Asterisk, "*")] + ([Token(Minus, "-")] + [Token(Int, "10")]))
  {
    GoodNum(20);
    GoodNum(2);
    GoodNum(10);
    GoodNeg(Num(10), 10);
    GoodBin(Mul, Num(2), Neg(Num(10)), 2, -10, -20);
    GoodBin(Add, Num(20), Bin(Mul, Num(2), Neg(Num(10))), 20, -20, 0);
    assert NatToString(10) == "10" by {
      assert NatToString(1) == "1";
    }
    assert NatToString(20) == "20" by {
      assert NatToString(2) == "2";
    }
  }

  /** `20 + 2 * -10`, cut into its gaps and token spellings. */
  predicate NegatedFactorPieces(text: string) {
    && |text| == 12 && text[0..0] == "" && text[0..2] == "20" && text[2..3] == " " && text[3..4] == "+"
    && text[4..5] == " " && text[5..6] == "2" && text[6..7] == " " && text[7..8] == "*"
    && text[8..9] == " " && text[9..10] == "-" && text[10..10] == "" && text[10..12] == "10"
  }

  lemma NegatedFactorSplit(text: string)
    requires text == "20 + 2 * -10"
    ensures NegatedFactorPieces(text)
  {
  }

  lemma NegatedFactorText(text: string)
    requires NegatedFactorPieces(text)
    ensures Shows([Token(Int, "20")] + [Token(Plus, "+")] + ([Token(Int, "2")] + [Token(Asterisk, "*")] + ([Token(Minus, "-")] + [Token(Int, "10")])), text, 0, |text|)
  {
    ShowsToken(Token(Int, "20"), text, 0, 0, 2);
    ShowsToken(Token(Int, "2"), text, 4, 5, 6);
    ShowsToken(Token(Int, "10"), text, 10, 10, 12);
    ShowsPrefix(Token(Minus, "-"), [Token(Int, "10")], text, 8, 9, 10, 12);
    ShowsInfix([Token(Int, "2")], Token(Asterisk, "*"), ([Token(Minus, "-")] + [Token(Int, "10")]), text, 4, 6, 7, 8, 12);
    ShowsInfix([Token(Int, "20")], Token(Plus, "+"), ([Token(Int, "2")] + [Token(Asterisk, "*")] + ([Token(Minus, "-")] + [Token(Int, "10")])), text, 0, 2, 3, 4, 12);
  }

  /** `50 / 2 * 2 + 10` evaluates to 60. */
  lemma EvalQuotientChain(text: string)
    requires text == "50 / 2 * 2 + 10"
    ensures EvaluatesTo(text, Advances, 60)
  {
    var s := Bin(Add, Bin(Mul, Bin(Div, Num(50), Num(2)), Num(2)), Num(10));
    QuotientChainTree(s);
    QuotientChainSplit(text);
    QuotientChainText(text);
    ShownEvaluates(text, s, 60);
  }

  lemma QuotientChainTree(s: Src)
    requires s == Bin(Add, Bin(Mul, Bin(Div, Num(50), Num(2)), Num(2)), Num(10))
    ensures Good(s, 60) && TokensOf(s) == (([Token(Int, "50")] + [Token(Slash, "/")] + [Token(Int, "2")]) + [Token(Asterisk, "*")] + [Token(Int, "2")]) + [Token(Plus, "+")] + [Token(Int, "10")]
  {
    GoodNum(50);
    GoodNum(2);
    GoodBin(Div, Num(50), Num(2), 50, 2, 25);
    GoodNum(2);
    GoodBin(Mul, Bin(Div, Num(50), Num(2)), Num(2), 25, 2, 50);
    GoodNum(10);
    GoodBin(Add, Bin(Mul, Bin(Div, Num(50), Num(2)), Num(2)), Num(10), 50, 10, 60);
    assert NatToString(10) == "10" by {
      assert NatToString(1) == "1";
    }
    assert NatToString(50) == "50" by {
      assert NatToString(5) == "5";
    }
  }

  /** `50 / 2 * 2 + 10`, cut into its gaps and token spellings. */
  predicate QuotientChainPieces(text: string) {
    && |text| == 15 && text[0..0] == "" && text[0..2] == "50" && text[2..3] == " " && text[3..4] == "/"
    && text[4..5] == " " && text[5..6] == "2" && text[6..7] == " " && text[7..8] == "*"
    && text[8..9] == " " && text[9..10] == "2" && text[10..11] == " " && text[11..12] == "+"
    && text[12..13] == " " && text[13..15] == "10"
  }

  lemma QuotientChainSplit(text: string)
    requires text == "50 / 2 * 2 + 10"
    ensures QuotientChainPieces(text)
  {
    assert text[..0] == "";
    assert text[..2] == "50";
    assert text[..3] == "50 ";
    assert text[..4] == "50 /";
    assert text[..5] == "50 / ";
    assert text[..6] == "50 / 2";
    assert text[..7] == "50 / 2 ";
    assert text[..8] == "50 / 2 *";
    assert text[..9] == "50 / 2 * ";
    assert text[..10] == "50 / 2 * 2";
    assert text[..11] == "50 / 2 * 2 ";
    assert text[..12] == "50 / 2 * 2 +";
    assert text[..13] == "50 / 2 * 2 + ";
  }

  lemma QuotientChainText(text: string)
    requires QuotientChainPieces(text)
    ensures Shows((([Token(Int, "50")] + [Token(Slash, "/")] + [Token(Int, "2")]) + [Token(Asterisk, "*")] + [Token(Int, "2")]) + [Token(Plus, "+")] + [Token(Int, "10")], text, 0, |text|)
  {
    ShowsToken(Token(Int, "50"), text, 0, 0, 2);
    ShowsToken(Token(Int, "2"), text, 4, 5, 6);
    ShowsInfix([Token(Int, "50")], Token(Slash, "/"), [Token(Int, "2")], text, 0, 2, 3, 4, 6);
    ShowsToken(Token(Int, "2"), text, 8, 9, 10);
    ShowsInfix(([Token(Int, "50")] + [Token(Slash, "/")] + [Token(Int, "2")]), Token(Asterisk, "*"), [Token(Int, "2")], text, 0, 6, 7, 8, 10);
    ShowsToken(Token(Int, "10"), text, 12, 13, 15);
    ShowsInfix((([Token(Int, "50")] + [Token(Slash, "/")] + [Token(Int, "2")]) + [Token(Asterisk, "*")] + [Token(Int, "2")]), Token(Plus, "+"), [Token(Int, "10")], text, 0, 10, 11, 12, 15);
  }

  /** `2* (5 + 10)` evaluates to 30. */
  lemma EvalGroupedSum(text: string)
    requires text == "2* (5 + 10)"
    ensures EvaluatesTo(text, Advances, 30)
  {
    var s := Bin(Mul, Num(2), Group(Bin(Add, Num(5), Num(10))));
    GroupedSumTree(s);
    GroupedSumSplit(text);
    GroupedSumText(text);
    ShownEvaluates(text, s, 30);
  }

  lemma GroupedSumTree(s: Src)
    requires s == Bin(Mul, Num(2), Group(Bin(Add, Num(5), Num(10))))
    ensures Good(s, 30) && TokensOf(s) == [Token(Int, "2")] + [Token(Asterisk, "*")] + ([Token(LParen, "(")] + ([Token(Int, "5")] + [Token(Plus, "+")] + [Token(Int, "10")]) + [Token(RParen, ")")])
  {
    GoodNum(2);
    GoodNum(5);
    GoodNum(10);
    GoodBin(Add, Num(5), Num(10), 5, 10, 15);
    GoodGroup(Bin(Add, Num(5), Num(10)), 15);
    GoodBin(Mul, Num(2), Group(Bin(Add, Num(5), Num(10))), 2, 15, 30);
    assert NatToString(10) == "10" by {
      assert NatToString(1) == "1";
    }
  }

  /** `2* (5 + 10)`, cut into its gaps and token spellings. */
  predicate GroupedSumPieces(text: string) {
    && |text| == 11 && text[0..0] == "" && text[0..1] == "2" && text[1..1] == "" && text[1..2] == "*"
    && text[2..3] == " " && text[3..4] == "(" && text[4..4] == "" && text[4..5] == "5"
    && text[5..6] == " " && text[6..7] == "+" && text[7..8] == " " && text[8..10] == "10"
    && text[10..10] == "" && text[10..11] == ")"
  }

  lemma GroupedSumSplit(text: string)
    requires text == "2* (5 + 10)"
    ensures GroupedSumPieces(text)
  {
    assert text[..0] == "";
    assert text[..1] == "2";
    assert text[..2] == "2*";
    assert text[..3] == "2* ";
    assert text[..4] == "2* (";
    assert text[..5] == "2* (5";
    assert text[..6] == "2* (5 ";
    assert text[..7] == "2* (5 +";
    assert text[..8] == "2* (5 + ";
    assert text[..10] == "2* (5 + 10";
  }

  lemma GroupedSumText(text: string)
    requires GroupedSumPieces(text)
    ensures Shows([Token(Int, "2")] + [Token(Asterisk, "*")] + ([Token(LParen, "(")] + ([Token(Int, "5")] + [Token(Plus, "+")] + [Token(Int, "10")]) + [Token(RParen, ")")]), text, 0, |text|)
  {
    ShowsToken(Token(Int, "2"), text, 0, 0, 1);
    ShowsToken(Token(Int, "5"), text, 4, 4, 5);
    ShowsToken(Token(Int, "10"), text, 7, 8, 10);
    ShowsInfix([Token(Int, "5")], Token(Plus, "+"), [Token(Int, "10")], text, 4, 5, 6, 7, 10);
    ShowsParens(([Token(Int, "5")] + [Token(Plus, "+")] + [Token(Int, "10")]), text, 2, 3, 4, 10, 10, 11);
    ShowsInfix([Token(Int, "2")], Token(Asterisk, "*"), ([Token(LParen, "(")] + ([Token(Int, "5")] + [Token(Plus, "+")] + [Token(Int, "10")]) + [Token(RParen, ")")]), text, 0, 1, 1, 2, 11);
  }

  /** `3 * 3 * 3 + 10` evaluates to 37. */
  lemma EvalCubePlus(text: string)
    requires text == "3 * 3 * 3 + 10"
    ensures EvaluatesTo(text, Advances, 37)
  {
    var s := Bin(Add, Bin(Mul, Bin(Mul, Num(3), Num(3)), Num(3)), Num(10));
    CubePlusTree(s);
    CubePlusSplit(text);
    CubePlusText(text);
    ShownEvaluates(text, s, 37);
  }

  lemma CubePlusTree(s: Src)
    requires s == Bin(Add, Bin(Mul, Bin(Mul, Num(3), Num(3)), Num(3)), Num(10))
    ensures Good(s, 37) && TokensOf(s) == (([Token(Int, "3")] + [Token(Asterisk, "*")] + [Token(Int, "3")]) + [Token(Asterisk, "*")] + [Token(Int, "3")]) + [Token(Plus, "+")] + [Token(Int, "10")]
  {
    GoodNum(3);
    GoodNum(3);
    GoodBin(Mul, Num(3), Num(3), 3, 3, 9);
    GoodNum(3);
    GoodBin(Mul, Bin(Mul, Num(3), Num(3)), Num(3), 9, 3, 27);
    GoodNum(10);
    GoodBin(Add, Bin(Mul, Bin(Mul, Num(3), Num(3)), Num(3)), Num(10), 27, 10, 37);
    assert NatToString(10) == "10" by {
      assert NatToString(1) == "1";
    }
  }

  /** `3 * 3 * 3 + 10`, cut into its gaps and token spellings. */
  predicate CubePlusPieces(text: string) {
    && |text| == 14 && text[0..0] == "" && text[0..1] == "3" && text[1..2] == " " && text[2..3] == "*"
    && text[3..4] == " " && text[4..5] == "3" && text[5..6] == " " && text[6..7] == "*"
    && text[7..8] == " " && text[8..9] == "3" && text[9..10] == " " && text[10..11] == "+"
    && text[11..12] == " " && text[12..14] == "10"
  }

  lemma CubePlusSplit(text: string)
    requires text == "3 * 3 * 3 + 10"
    ensures CubePlusPieces(text)
  {
    assert text[..0] == "";
    assert text[..1] == "3";
    assert text[..2] == "3 ";
    assert text[..3] == "3 *";
    assert text[..4] == "3 * ";
    assert text[..5] == "3 * 3";
    assert text[..6] == "3 * 3 ";
    assert text[..7] == "3 * 3 *";
    assert text[..8] == "3 * 3 * ";
    assert text[..9] == "3 * 3 * 3";
    assert text[..10] == "3 * 3 * 3 ";
    assert text[..11] == "3 * 3 * 3 +";
    assert text[..12] == "3 * 3 * 3 + ";
  }

  lemma CubePlusText(text: string)
    requires CubePlusPieces(text)
    ensures Shows((([Token(Int, "3")] + [Token(Asterisk, "*")] + [Token(Int, "3")]) + [Token(Asterisk, "*")] + [Token(Int, "3")]) + [Token(Plus, "+")] + [Token(Int, "10")], text, 0, |text|)
  {
    ShowsToken(Token(Int, "3"), text, 0, 0, 1);
    ShowsToken(Token(Int, "3"), text, 3, 4, 5);
    ShowsInfix([Token(Int, "3")], Token(Asterisk, "*"), [Token(Int, "3")], text, 0, 1, 2, 3, 5);
    ShowsToken(Token(Int, "3"), text, 7, 8, 9);
    ShowsInfix(([Token(Int, "3")] + [Token(Asterisk, "*")] + [Token(Int, "3")]), Token(Asterisk, "*"), [Token(Int, "3")], text, 0, 5, 6, 7, 9);
    ShowsToken(Token(Int, "10"), text, 11, 12, 14);
    ShowsInfix((([Token(Int, "3")] + [Token(Asterisk, "*")] + [Token(Int, "3")]) + [Token(Asterisk, "*")] + [Token(Int, "3")]), Token(Plus, "+"), [Token(Int, "10")], text, 0, 9, 10, 11, 14);
  }

  /** `3 * (3 * 3) + 10` evaluates to 37. */
  lemma EvalGroupedCube(text: string)
    requires text == "3 * (3 * 3) + 10"
    ensures EvaluatesTo(text, Advances, 37)
  {
    var s := Bin(Add, Bin(Mul, Num(3), Group(Bin(Mul, Num(3), Num(3)))), Num(10));
    GroupedCubeTree(s);
    GroupedCubeSplit(text);
    GroupedCubeText(text);
    ShownEvaluates(text, s, 37);
  }

  lemma GroupedCubeTree(s: Src)
    requires s == Bin(Add, Bin(Mul, Num(3), Group(Bin(Mul, Num(3), Num(3)))), Num(10))
    ensures Good(s, 37) && TokensOf(s) == ([Token(Int, "3")] + [Token(Asterisk, "*")] + ([Token(LParen, "(")] + ([Token(Int, "3")] + [Token(Asterisk, "*")] + [Token(Int, "3")]) + [Token(RParen, ")")])) + [Token(Plus, "+")] + [Token(Int, "10")]
  {
    GoodNum(3);
    GoodNum(3);
    GoodNum(3);
    GoodBin(Mul, Num(3), Num(3), 3, 3, 9);
    GoodGroup(Bin(Mul, Num(3), Num(3)), 9);
    GoodBin(Mul, Num(3), Group(Bin(Mul, Num(3), Num(3))), 3, 9, 27);
    GoodNum(10);
    GoodBin(Add, Bin(Mul, Num(3), Group(Bin(Mul, Num(3), Num(3)))), Num(10), 27, 10, 37);
    assert NatToString(10) == "10" by {
      assert NatToString(1) == "1";
    }
  }

  /** `3 * (3 * 3) + 10`, cut into its gaps and token spellings. */
  predicate GroupedCubePieces(text: string) {
    && |text| == 16 && text[0..0] == "" && text[0..1] == "3" && text[1..2] == " " && text[2..3] == "*"
    && text[3..4] == " " && text[4..5] == "(" && text[5..5] == "" && text[5..6] == "3"
    && text[6..7] == " " && text[7..8] == "*" && text[8..9] == " " && text[9..10] == "3"
    && text[10..10] == "" && text[10..11] == ")" && text[11..12] == " " && text[12..13] == "+"
    && text[13..14] == " " && text[14..16] == "10"
  }

  lemma GroupedCubeSplit(text: string)
    requires text == "3 * (3 * 3) + 10"
    ensures GroupedCubePieces(text)
  {
    assert text[..0] == "";
    assert text[..1] == "3";
    assert text[..2] == "3 ";
    assert text[..3] == "3 *";
    assert text[..4] == "3 * ";
    assert text[..5] == "3 * (";
    assert text[..6] == "3 * (3";
    assert text[..7] == "3 * (3 ";
    assert text[..8] == "3 * (3 *";
    assert text[..9] == "3 * (3 * ";
    assert text[..10] == "3 * (3 * 3";
    assert text[..11] == "3 * (3 * 3)";
    assert text[..12] == "3 * (3 * 3) ";
    assert text[..13] == "3 * (3 * 3) +";
    assert text[..14] == "3 * (3 * 3) + ";
  }

  lemma GroupedCubeText(text: string)
    requires GroupedCubePieces(text)
    ensures Shows(([Token(Int, "3")] + [Token(Asterisk, "*")] + ([Token(LParen, "(")] + ([Token(Int, "3")] + [Token(Asterisk, "*")] + [Token(Int, "3")]) + [Token(RParen, ")")])) + [Token(Plus, "+")] + [Token(Int, "10")], text, 0, |text|)
  {
    ShowsToken(Token(Int, "3"), text, 0, 0, 1);
    ShowsToken(Token(Int, "3"), text, 5, 5, 6);
    ShowsToken(Token(Int, "3"), text, 8, 9, 10);
    ShowsInfix([Token(Int, "3")], Token(Asterisk, "*"), [Token(Int, "3")], text, 5, 6, 7, 8, 10);
    ShowsParens(([Token(Int, "3")] + [Token(Asterisk, "*")] + [Token(Int, "3")]), text, 3, 4, 5, 10, 10, 11);
    ShowsInfix([Token(Int, "3")], Token(Asterisk, "*"), ([Token(LParen, "(")] + ([Token(Int, "3")] + [Token(Asterisk, "*")] + [Token(Int, "3")]) + [Token(RParen, ")")]), text, 0, 1, 2, 3, 11);
    ShowsToken(Token(Int, "10"), text, 13, 14, 16);
    ShowsInfix(([Token(Int, "3")] + [Token(Asterisk, "*")] + ([Token(LParen, "(")] + ([Token(Int, "3")] + [Token(Asterisk, "*")] + [Token(Int, "3")]) + [Token(RParen, ")")])), Token(Plus, "+"), [Token(Int, "10")], text, 0, 11, 12, 13, 16);
  }

  /** `(5 + 10 * 2 + 15 / 3) * 2 + -10` evaluates to 50. */
  lemma EvalMixed(text: string)
    requires text == "(5 + 10 * 2 + 15 / 3) * 2 + -10"
    ensures EvaluatesTo(text, Advances, 50)
  {
    var s := Bin(Add, Bin(Mul, Group(Bin(Add, Bin(Add, Num(5), Bin(Mul, Num(10), Num(2))), Bin(Div, Num(15), Num(3)))), Num(2)), Neg(Num(10)));
    MixedTree(s);
    MixedSplit(text);
    MixedText(text);
    ShownEvaluates(text, s, 50);
  }

  lemma MixedTree(s: Src)
    requires s == Bin(Add, Bin(Mul, Group(Bin(Add, Bin(Add, Num(5), Bin(Mul, Num(10), Num(2))), Bin(Div, Num(15), Num(3)))), Num(2)), Neg(Num(10)))
    ensures Good(s, 50) && TokensOf(s) == (([Token(LParen, "(")] + (([Token(Int, "5")] + [Token(Plus, "+")] + ([Token(Int, "10")] + [Token(Asterisk, "*")] + [Token(Int, "2")])) + [Token(Plus, "+")] + ([Token(Int, "15")] + [Token(Slash, "/")] + [Token(Int, "3")])) + [Token(RParen, ")")]) + [Token(Asterisk, "*")] + [Token(Int, "2")]) + [Token(Plus, "+")] + ([Token(Minus, "-")] + [Token(Int, "10")])
  {
    MixedOperand1();
    GoodNum(10);
    GoodNeg(Num(10), 10);
    GoodBin(Add, Bin(Mul, Group(Bin(Add, Bin(Add, Num(5), Bin(Mul, Num(10), Num(2))), Bin(Div, Num(15), Num(3)))), Num(2)), Neg(Num(10)), 60, -10, 50);
    assert NatToString(10) == "10" by {
      assert NatToString(1) == "1";
    }
    assert NatToString(15) == "15" by {
      assert NatToString(1) == "1";
    }
  }

  lemma MixedOperand1()
    ensures Good(Bin(Mul, Group(Bin(Add, Bin(Add, Num(5), Bin(Mul, Num(10), Num(2))), Bin(Div, Num(15), Num(3)))), Num(2)), 60)
  {
    MixedOperand2();
    GoodNum(2);
    GoodBin(Mul, Group(Bin(Add, Bin(Add, Num(5), Bin(Mul, Num(10), Num(2))), Bin(Div, Num(15), Num(3)))), Num(2), 30, 2, 60);
  }

  lemma MixedOperand2()
    ensures Good(Group(Bin(Add, Bin(Add, Num(5), Bin(Mul, Num(10), Num(2))), Bin(Div, Num(15), Num(3)))), 30)
  {
    MixedOperand3();
    GoodGroup(Bin(Add, Bin(Add, Num(5), Bin(Mul, Num(10), Num(2))), Bin(Div, Num(15), Num(3))), 30);
  }

  lemma MixedOperand3()
    ensures Good(Bin(Add, Bin(Add, Num(5), Bin(Mul, Num(10), Num(2))), Bin(Div, Num(15), Num(3))), 30)
  {
    GoodNum(5);
    GoodNum(10);
    GoodNum(2);
    GoodBin(Mul, Num(10), Num(2), 10, 2, 20);
    GoodBin(Add, Num(5), Bin(Mul, Num(10), Num(2)), 5, 20, 25);
    GoodNum(15);
    GoodNum(3);
    GoodBin(Div, Num(15), Num(3), 15, 3, 5);
    GoodBin(Add, Bin(Add, Num(5), Bin(Mul, Num(10), Num(2))), Bin(Div, Num(15), Num(3)), 25, 5, 30);
  }

  /** `(5 + 10 * 2 + 15 / 3) * 2 + -10`, cut into its gaps and token spellings. */
  predicate MixedPieces(text: string) {
    && |text| == 31 && text[0..0] == "" && text[0..1] == "(" && text[1..1] == "" && text[1..2] == "5"
    && text[2..3] == " " && text[3..4] == "+" && text[4..5] == " " && text[5..7] == "10"
    && text[7..8] == " " && text[8..9] == "*" && text[9..10] == " " && text[10..11] == "2"
    && text[11..12] == " " && text[12..13] == "+" && text[13..14] == " " && text[14..16] == "15"
    && text[16..17] == " " && text[17..18] == "/" && text[18..19] == " " && text[19..20] == "3"
    && text[20..20] == "" && text[20..21] == ")" && text[21..22] == " " && text[22..23] == "*"
    && text[23..24] == " " && text[24..25] == "2" && text[25..26] == " " && text[26..27] == "+"
    && text[27..28] == " " && text[28..29] == "-" && text[29..29] == "" && text[29..31] == "10"
  }

  lemma MixedSplit(text: string)
    requires text == "(5 + 10 * 2 + 15 / 3) * 2 + -10"
    ensures MixedPieces(text)
  {
    MixedSplitFront(text);
    MixedSplitBack(text);
  }

  lemma MixedSplitFront(text: string)
    requires text == "(5 + 10 * 2 + 15 / 3) * 2 + -10"
    ensures text[0..0] == "" && text[0..1] == "(" && text[1..1] == "" && text[1..2] == "5" &&
      text[2..3] == " " && text[3..4] == "+" && text[4..5] == " " && text[5..7] == "10" &&
      text[7..8] == " " && text[8..9] == "*" && text[9..10] == " " && text[10..11] == "2" &&
      text[11..12] == " " && text[12..13] == "+" && text[13..14] == " " && text[14..16] == "15"
  {
    assert text[..0] == "";
    assert text[..1] == "(";
    assert text[..2] == "(5";
    assert text[..3] == "(5 ";
    assert text[..4] == "(5 +";
    assert text[..5] == "(5 + ";
    assert text[..7] == "(5 + 10";
    assert text[..8] == "(5 + 10 ";
    assert text[..9] == "(5 + 10 *";
    assert text[..10] == "(5 + 10 * ";
    assert text[..11] == "(5 + 10 * 2";
    assert text[..12] == "(5 + 10 * 2 ";
    assert text[..13] == "(5 + 10 * 2 +";
    assert text[..14] == "(5 + 10 * 2 + ";
    assert text[..16] == "(5 + 10 * 2 + 15";
  }

  lemma MixedSplitBack(text: string)
    requires text == "(5 + 10 * 2 + 15 / 3) * 2 + -10"
    ensures text[16..17] == " " && text[17..18] == "/" && text[18..19] == " " && text[19..20] == "3" &&
      text[20..20] == "" && text[20..21] == ")" && text[21..22] == " " && text[22..23] == "*" &&
      text[23..24] == " " && text[24..25] == "2" && text[25..26] == " " && text[26..27] == "+" &&
      text[27..28] == " " && text[28..29] == "-" && text[29..29] == "" && text[29..31] == "10"
  {
    assert text[..17] == "(5 + 10 * 2 + 15 ";
    assert text[..18] == "(5 + 10 * 2 + 15 /";
    assert text[..19] == "(5 + 10 * 2 + 15 / ";
    assert text[..20] == "(5 + 10 * 2 + 15 / 3";
    assert text[..21] == "(5 + 10 * 2 + 15 / 3)";
    assert text[..22] == "(5 + 10 * 2 + 15 / 3) ";
    assert text[..23] == "(5 + 10 * 2 + 15 / 3) *";
    assert text[..24] == "(5 + 10 * 2 + 15 / 3) * ";
    assert text[..25] == "(5 + 10 * 2 + 15 / 3) * 2";
    assert text[..26] == "(5 + 10 * 2 + 15 / 3) * 2 ";
    assert text[..27] == "(5 + 10 * 2 + 15 / 3) * 2 +";
    assert text[..28] == "(5 + 10 * 2 + 15 / 3) * 2 + ";
    assert text[..29] == "(5 + 10 * 2 + 15 / 3) * 2 + -";
    assert text[..31] == "(5 + 10 * 2 + 15 / 3) * 2 + -10";
  }

  lemma MixedText(text: string)
    requires MixedPieces(text)
    ensures Shows((([Token(LParen, "(")] + (([Token(Int, "5")] + [Token(Plus, "+")] + ([Token(Int, "10")] + [Token(Asterisk, "*")] + [Token(Int, "2")])) + [Token(Plus, "+")] + ([Token(Int, "15")] + [Token(Slash, "/")] + [Token(Int, "3")])) + [Token(RParen, ")")]) + [Token(Asterisk, "*")] + [Token(Int, "2")]) + [Token(Plus, "+")] + ([Token(Minus, "-")] + [Token(Int, "10")]), text, 0, |text|)
  {
    ShowsToken(Token(Int, "5"), text, 1, 1, 2);
    ShowsToken(Token(Int, "10"), text, 4, 5, 7);
    ShowsToken(Token(Int, "2"), text, 9, 10, 11);
    ShowsInfix([Token(Int, "10")], Token(Asterisk, "*"), [Token(Int, "2")], text, 4, 7, 8, 9, 11);
    ShowsInfix([Token(Int, "5")], Token(Plus, "+"), ([Token(Int, "10")] + [Token(Asterisk, "*")] + [Token(Int, "2")]), text, 1, 2, 3, 4, 11);
    ShowsToken(Token(Int, "15"), text, 13, 14, 16);
    ShowsToken(Token(Int, "3"), text, 18, 19, 20);
    ShowsInfix([Token(Int, "15")], Token(Slash, "/"), [Token(Int, "3")], text, 13, 16, 17, 18, 20);
    ShowsInfix(([Token(Int, "5")] + [Token(Plus, "+")] + ([Token(Int, "10")] + [Token(Asterisk, "*")] + [Token(Int, "2")])), Token(Plus, "+"), ([Token(Int, "15")] + [Token(Slash, "/")] + [Token(Int, "3")]), text, 1, 11, 12, 13, 20);
    ShowsParens((([Token(Int, "5")] + [Token(Plus, "+")] + ([Token(Int, "10")] + [Token(Asterisk, "*")] + [Token(Int, "2")])) + [Token(Plus, "+")] + ([Token(Int, "15")] + [Token(Slash, "/")] + [Token(Int, "3")])), text, 0, 0, 1, 20, 20, 21);
    ShowsToken(Token(Int, "2"), text, 23, 24, 25);
    ShowsInfix(([Token(LParen, "(")] + (([Token(Int, "5")] + [Token(Plus, "+")] + ([Token(Int, "10")] + [Token(Asterisk, "*")] + [Token(Int, "2")])) + [Token(Plus, "+")] + ([Token(Int, "15")] + [Token(Slash, "/")] + [Token(Int, "3")])) + [Token(RParen, ")")]), Token(Asterisk, "*"), [Token(Int, "2")], text, 0, 21, 22, 23, 25);
    ShowsToken(Token(Int, "10"), text, 29, 29, 31);
    ShowsPrefix(Token(Minus, "-"), [Token(Int, "10")], text, 27, 28, 29, 31);
    ShowsInfix((([Token(LParen, "(")] + (([Token(Int, "5")] + [Token(Plus, "+")] + ([Token(Int, "10")] + [Token(Asterisk, "*")] + [Token(Int, "2")])) + [Token(Plus, "+")] + ([Token(Int, "15")] + [Token(Slash, "/")] + [Token(Int, "3")])) + [Token(RParen, ")")]) + [Token(Asterisk, "*")] + [Token(Int, "2")]), Token(Plus, "+"), ([Token(Minus, "-")] + [Token(Int, "10")]), text, 0, 25, 26, 27, 31);
  }

}
