/**
 * Whole program texts through the lexer and the parser: `let` statements as the parser's
 * own expectations write them, and a numeral at the very end of the input, where the
 * as-written `readChar` drops the last digit.
 */
module ProgramTexts {
  import opened Wrappers
  import opened Tokens
  import opened LexerSpec
  import opened Ast
  import opened Objects
  import opened ParserSpec
  import opened ParserLaws
  import opened ProgramLaws
  import opened TextLaws
  import opened Numerals
  import opened Evaluation
  import opened EvalLaws
  import opened Pipeline

  /** No two neighbouring tokens of `name = v;` run together. */
  lemma LetApart(name: string, v: Src)
    requires IsWord(name) && Lexical(v)
    ensures Apart(Token(TokenType.Identifier, name), AssignTok)
    ensures Apart(AssignTok, First(v)) && Apart(Last(v), SemiTok)
  {
    assert IsLetter(name[0]) && !IsLetter('=');
    assert !IsWord("=") && !IsNumeral("=") by { assert "="[0] == '='; }
    FirstSpelling(v);
    LastSpelling(v);
    var l := Last(v).literal;
    assert l !in {"=", "!"} by {
      if l != ")" {
        assert IsLetter(l[0]) || IsDigit(l[0]);
      }
    }
  }

  /** The fixed tokens of a let statement, and its name, are lexemes. */
  lemma LetLexemes(name: string)
    requires IsWord(name) && LookupIdentifier(name) == TokenType.Identifier
    ensures Lexemes([LetTok]) && Lexemes([Token(TokenType.Identifier, name), AssignTok]) && Lexemes([SemiTok])
  {
    SingleLexeme(Token(TokenType.Identifier, name));
    SingleLexeme(AssignTok);
    LexemesAppend([Token(TokenType.Identifier, name)], [AssignTok]);
    assert [Token(TokenType.Identifier, name)] + [AssignTok] == [Token(TokenType.Identifier, name), AssignTok];
    SingleLexeme(SemiTok);
    SingleLexeme(LetTok);
  }

  /** No two neighbouring tokens of `name = v;` run together. */
  lemma LetNoClash(name: string, v: Src)
    requires IsWord(name) && Lexical(v) && NoClash(TokensOf(v))
    requires TokensOf(v)[0] == First(v) && TokensOf(v)[|TokensOf(v)| - 1] == Last(v)
    ensures NoClash([Token(TokenType.Identifier, name), AssignTok] + TokensOf(v) + [SemiTok])
  {
    var I, X := Token(TokenType.Identifier, name), TokensOf(v);
    var H := [I, AssignTok];
    LetApart(name, v);
    assert NoClash(H);
    NoClashAppend(H, X);
    NoClashAppend(H + X, [SemiTok]);
  }

  /** The tokens of `let name = v;`: all lexemes, and none after `let` runs into the next. */
  lemma LetTokens(name: string, v: Src)
    requires IsWord(name) && LookupIdentifier(name) == TokenType.Identifier && Lexical(v)
    ensures var ts := StmtTokens(LetSrc(name, v, true));
            Lexemes(ts) && NoClash(ts[1..]) && ts[0] == LetTok && ts[|ts| - 1] == SemiTok
  {
    var I, X := Token(TokenType.Identifier, name), TokensOf(v);
    var H := [I, AssignTok];
    ExpressionTokens(v);
    WidthAndFirst(v);
    LetLexemes(name);
    LetNoClash(name, v);
    LexemesAppend(H, X);
    LexemesAppend(H + X, [SemiTok]);
    LexemesAppend([LetTok], H + X + [SemiTok]);
    Regroup(LetTok, I, AssignTok, X, [SemiTok]);
  }

  lemma Regroup<T>(a: T, b: T, c: T, x: seq<T>, y: seq<T>)
    ensures [a, b, c] + x + y == [a] + ([b, c] + x + y)
    ensures ([a, b, c] + x + y)[1..] == [b, c] + x + y
  {
    assert [a, b, c] == [a] + [b, c];
  }

  /** Those tokens are well spaced by any white space with some between `let` and the name. */
  lemma LetSpaced(ts: seq<Token>, gaps: seq<string>)
    requires |ts| > 1 && Lexemes(ts) && NoClash(ts[1..])
    requires |gaps| == |ts| && Blank(gaps) && gaps[1] != []
    ensures Spaced(ts, gaps)
  {
    forall i | 0 < i < |ts|
      ensures gaps[i] != [] || Apart(ts[i - 1], ts[i])
    {
      if i > 1 {
        assert ts[1..][i - 2] == ts[i - 1] && ts[1..][i - 1] == ts[i];
      }
    }
  }

  /** A single let statement parses back into its node. */
  lemma LetParses(p: Stmt)
    requires p.LetSrc? && WellFormed(p.value)
    ensures var ts := StmtTokens(p);
            ParseProgram(PState(ts, 0, [])).0 == Program([ToStatement(p)])
            && ParseProgram(PState(ts, 0, [])).1.errors == []
  {
    var ps, ts := [p], StmtTokens(p);
    assert ps[0] == p && ps[1..] == [];
    assert ProgramTokens(ps) == ts by {
      assert ProgramTokens(ps[1..]) == [];
      assert ts + [] == ts;
    }
    assert ToStatements(ps) == [ToStatement(p)] by {
      assert ToStatements(ps[1..]) == [];
    }
    assert ProgramOk(ps) by {
      assert ProgramOk(ps[1..]);
    }
    ParsesBack(ps);
    var r := ParseProgram(PState(ts, 0, []));
    assert r == (Program([ToStatement(p)]), PState(ts, |ts|, []));
  }

  /**
   * Any layout of `let name = v;` with white space between the tokens, and some between
   * `let` and the name, parses into exactly that one let statement, with no message.
   */
  lemma LetText(name: string, v: Src, gaps: seq<string>, e: ReadCharAtEnd)
    requires IsWord(name) && LookupIdentifier(name) == TokenType.Identifier
    requires Lexical(v) && WellFormed(v)
    requires |gaps| == |StmtTokens(LetSrc(name, v, true))| && Blank(gaps) && gaps[1] != []
    ensures Parse(Layout(StmtTokens(LetSrc(name, v, true)), gaps, "", 0), e)
            == (Program([LetStatement(LetTok, Ast.Identifier(Token(TokenType.Identifier, name), name), Some(ToAst(v)))]), [])
  {
    var p := LetSrc(name, v, true);
    var ts := StmtTokens(p);
    LetTokens(name, v);
    LetSpaced(ts, gaps);
    LexSpaced(ts, gaps, "", e);
    LetParses(p);
  }

  /** `text` is `let name = lit;` with single spaces. */
  predicate LetLine(text: string, name: string, lit: string) {
    var n := |name|;
    && |text| == 8 + n + |lit| && text[..3] == "let" && text[3..4] == " " && text[4..4 + n] == name
    && text[4 + n..5 + n] == " " && text[5 + n..6 + n] == "=" && text[6 + n..7 + n] == " "
    && text[7 + n..7 + n + |lit|] == lit && text[7 + n + |lit|..] == ";"
  }

  /** The text of five tokens laid out with single spaces after the first three. */
  lemma LetLineLayout(text: string, ts: seq<Token>)
    requires |ts| == 5 && ts[0] == LetTok && ts[2] == AssignTok && ts[4] == SemiTok
    requires LetLine(text, ts[1].literal, ts[3].literal)
    ensures Layout(ts, ["", " ", " ", " ", ""], "", 0) == text
  {
    var gaps := ["", " ", " ", " ", ""];
    var n, m := |ts[1].literal|, |ts[3].literal|;
    assert Layout(ts, gaps, "", 5) == text[8 + n + m..];
    LayoutFrom(ts, gaps, 4, text, 7 + n + m, 7 + n + m, 8 + n + m);
    LayoutFrom(ts, gaps, 3, text, 6 + n, 7 + n, 7 + n + m);
    LayoutFrom(ts, gaps, 2, text, 4 + n, 5 + n, 6 + n);
    LayoutFrom(ts, gaps, 1, text, 3, 4, 4 + n);
    LayoutFrom(ts, gaps, 0, text, 0, 0, 3);
    assert text[0..] == text;
  }

  /** The layout from token `k` on is `text[i..]` when `text[i..l]` is gap `k` and then token `k`. */
  lemma LayoutFrom(ts: seq<Token>, gaps: seq<string>, k: nat, text: string, i: nat, j: nat, l: nat)
    requires |gaps| == |ts| && k < |ts| && i <= j <= l <= |text|
    requires text[i..j] == gaps[k] && text[j..l] == ts[k].literal && Layout(ts, gaps, "", k + 1) == text[l..]
    ensures Layout(ts, gaps, "", k) == text[i..]
  {
    assert text[i..] == text[i..j] + text[j..l] + text[l..];
  }

  /** `let name = v;` with single spaces, for a value of one token. */
  lemma SimpleLet(text: string, name: string, v: Src, e: ReadCharAtEnd)
    requires IsWord(name) && LookupIdentifier(name) == TokenType.Identifier
    requires Lexical(v) && WellFormed(v) && |TokensOf(v)| == 1 && LetLine(text, name, TokensOf(v)[0].literal)
    ensures Parse(text, e)
            == (Program([LetStatement(LetTok, Ast.Identifier(Token(TokenType.Identifier, name), name), Some(ToAst(v)))]), [])
  {
    var ts := StmtTokens(LetSrc(name, v, true));
    assert ts == [LetTok, Token(TokenType.Identifier, name), AssignTok, TokensOf(v)[0], SemiTok];
    LetLineLayout(text, ts);
    LetText(name, v, ["", " ", " ", " ", ""], e);
  }

  // The expectations of `testLetStatement` in Tests/parser-tests.swift: one let statement
  // with the given name and no message, whichever way `readChar` treats the end of input.

  lemma LetFive(text: string, e: ReadCharAtEnd)
    requires text == "let x = 5;"
    ensures Parse(text, e) == (Program([LetStatement(Token(LetToken, "let"), Ast.Identifier(Token(TokenType.Identifier, "x"), "x"),
                                                     Some(IntegerLiteral(Token(Int, "5"), 5)))]), [])
  {
    assert IsWord("x");
    LetFiveLine(text);
    SimpleLet(text, "x", Num(5), e);
  }

  lemma LetFiveLine(text: string)
    requires text == "let x = 5;"
    ensures LetLine(text, "x", "5")
  {
    assert text[..1] == "l";
    assert text[..2] == "le";
    assert text[..3] == "let";
    assert text[..4] == "let ";
    assert text[..5] == "let x";
    assert text[..6] == "let x ";
    assert text[..7] == "let x =";
    assert text[..8] == "let x = ";
    assert text[..9] == "let x = 5";
  }

  lemma LetTrue(text: string, e: ReadCharAtEnd)
    requires text == "let y = true;"
    ensures Parse(text, e) == (Program([LetStatement(Token(LetToken, "let"), Ast.Identifier(Token(TokenType.Identifier, "y"), "y"),
                                                     Some(BooleanExpression(Token(TrueToken, "true"), true)))]), [])
  {
    assert IsWord("y");
    LetTrueLine(text);
    SimpleLet(text, "y", Bool(true), e);
  }

  lemma LetTrueLine(text: string)
    requires text == "let y = true;"
    ensures LetLine(text, "y", "true")
  {
    assert text[..1] == "l";
    assert text[..2] == "le";
    assert text[..3] == "let";
    assert text[..4] == "let ";
    assert text[..5] == "let y";
    assert text[..6] == "let y ";
    assert text[..7] == "let y =";
    assert text[..8] == "let y = ";
    assert text[..9] == "let y = t";
    assert text[..10] == "let y = tr";
    assert text[..11] == "let y = tru";
    assert text[..12] == "let y = true";
  }

  lemma LetFoobar(text: string, e: ReadCharAtEnd)
    requires text == "let foobar = y;"
    ensures Parse(text, e) == (Program([LetStatement(Token(LetToken, "let"), Ast.Identifier(Token(TokenType.Identifier, "foobar"), "foobar"),
                                                     Some(IdentifierExpression(Ast.Identifier(Token(TokenType.Identifier, "y"), "y"))))]), [])
  {
    assert IsWord("foobar") && IsWord("y");
    LetFoobarLine(text);
    SimpleLet(text, "foobar", Name("y"), e);
  }

  lemma LetFoobarLine(text: string)
    requires text == "let foobar = y;"
    ensures LetLine(text, "foobar", "y")
  {
    assert text[..1] == "l";
    assert text[..2] == "le";
    assert text[..3] == "let";
    assert text[..4] == "let ";
    assert text[..5] == "let f";
    assert text[..6] == "let fo";
    assert text[..7] == "let foo";
    assert text[..8] == "let foob";
    assert text[..9] == "let fooba";
    assert text[..10] == "let foobar";
    assert text[..11] == "let foobar ";
    assert text[..12] == "let foobar =";
    assert text[..13] == "let foobar = ";
    assert text[..14] == "let foobar = y";
  }

  // ---------------------------------------------------------------------------------------
  // A numeral at the very end of the input

  /**
   * As written, a numeral that ends the input loses its last digit; with `position` moving
   * past the end it is read whole.
   */
  lemma NumeralAtEnd(w: string)
    requires IsNumeral(w)
    ensures Lex(w, Stays) == [Token(Int, w[..|w| - 1])]
    ensures Lex(w, Advances) == [Token(Int, w)]
  {
    assert w + [] == w;
    LexDigits(w, [], Stays);
    LexDigits(w, [], Advances);
  }

  /** The one-token program `5`: as written it is an empty integer literal, which does not parse. */
  lemma FiveAsWritten(text: string)
    requires text == "5"
    ensures Parse(text, Stays) == (Program([ExpressionStatement(Token(Int, ""), None)]), [IntErrorMessage("")])
    ensures Interpret(text, Stays) == Some(None)
  {
    FiveLexes(text);
    EmptyLiteralText(text);
  }

  lemma FiveLexes(text: string)
    requires text == "5"
    ensures Lex(text, Stays) == [Token(Int, "")]
  {
    NumeralAtEnd(text);
    assert text[..0] == "";
  }

  /** A text that lexes to one empty integer literal parses with one message and evaluates to nothing. */
  lemma EmptyLiteralText(text: string)
    requires Lex(text, Stays) == [Token(Int, "")]
    ensures Parse(text, Stays) == (Program([ExpressionStatement(Token(Int, ""), None)]), [IntErrorMessage("")])
    ensures Interpret(text, Stays) == Some(None)
  {
    var st := ExpressionStatement(Token(Int, ""), None);
    EmptyLiteralProgram([Token(Int, "")]);
    assert Parse(text, Stays) == (Program([st]), [IntErrorMessage("")]);
    OneStatementValue(text, Stays, st);
  }


  lemma EmptyLiteralProgram(toks: seq<Token>)
    requires toks == [Token(Int, "")]
    ensures ParseProgram(PState(toks, 0, [])) == (Program([ExpressionStatement(Token(Int, ""), None)]), PState(toks, 1, [IntErrorMessage("")]))
  {
    var st := PState(toks, 0, []);
    var st1 := st.(errors := st.errors + [IntErrorMessage("")]);
    var s := ExpressionStatement(Token(Int, ""), None);
    EmptyLiteralStatement(st);
    assert ProgramLoop(st, []) == ProgramLoop(Advance(st1), [] + [s]);
    assert Cur(Advance(st1)).tokenType == Eof;
    assert [] + [s] == [s] && st.errors + [IntErrorMessage("")] == [IntErrorMessage("")];
  }

  /** An empty integer literal followed by eof is a statement with no expression and one message. */
  lemma EmptyLiteralStatement(st: PState)
    requires Cur(st) == Token(Int, "") && PeekTok(st).tokenType == Eof
    ensures ParseStatement(st) == (Some(ExpressionStatement(Token(Int, ""), None)), st.(errors := st.errors + [IntErrorMessage("")]))
  {
    EmptyLiteralExpression(st);
  }

  lemma EmptyLiteralExpression(st: PState)
    requires Cur(st) == Token(Int, "") && PeekTok(st).tokenType == Eof
    ensures ParseExpression(st, Lowest) == (None, st.(errors := st.errors + [IntErrorMessage("")]))
  {
    EmptyLiteralInt(st);
    InfixLoopStops(st.(errors := st.errors + [IntErrorMessage("")]), Lowest, None);
  }

  /** The empty literal is no integer: `parseIntegerLiteral()` records the message. */
  lemma EmptyLiteralInt(st: PState)
    requires Cur(st) == Token(Int, "")
    ensures ParseIntegerLiteral(st) == (None, st.(errors := st.errors + [IntErrorMessage("")]))
  {
    assert ParseInt("") == None;
  }

  /** The program `10`: as written it is the literal `1`. */
  lemma TenAsWritten(text: string)
    requires text == "10"
    ensures EvaluatesTo(text, Stays, 1)
  {
    TenLexes(text);
    TokensEvaluate(text, Num(1), Stays);
  }

  lemma TenLexes(text: string)
    requires text == "10"
    ensures Lex(text, Stays) == TokensOf(Num(1))
  {
    NumeralAtEnd(text);
    assert text[..1] == "1";
    assert NatToString(1) == "1";
  }
}
