/**
 * Round trips through the lexer of Sources/lexer/Lexer.swift for the token sequences that
 * expressions and programs are written with: any white space between tokens, including
 * none where two tokens cannot run together, lexes back to exactly those tokens.
 */
module TextLaws {
  import opened Tokens
  import opened LexerSpec
  import opened ParserLaws

  /** `b` written straight after `a` neither extends `a` nor is swallowed by it. */
  predicate Apart(a: Token, b: Token) {
    b.literal != [] && Separated(a, b.literal, Advances)
  }

  /**
   * Every token is a lexeme, every gap is white space, and two tokens written with no
   * gap between them are apart.
   */
  predicate Spaced(ts: seq<Token>, gaps: seq<string>)
    requires |gaps| == |ts|
  {
    && (forall i :: 0 <= i < |ts| ==> IsLexeme(ts[i]) && AllWhitespace(gaps[i]))
    && (forall i :: 0 < i < |ts| ==> gaps[i] != [] || Apart(ts[i - 1], ts[i]))
  }

  /**
   * Lexing a well spaced layout gives back its tokens. With the as-written end-of-input
   * behaviour the last token must also not be a word or numeral that the text ends with.
   */
  lemma LexSpaced(ts: seq<Token>, gaps: seq<string>, tail: string, e: ReadCharAtEnd)
    requires |gaps| == |ts| && Spaced(ts, gaps) && AllWhitespace(tail)
    requires ts != [] ==> Separated(ts[|ts| - 1], tail, e)
    ensures Lex(Layout(ts, gaps, tail, 0), e) == ts
  {
    LexSpacedFrom(ts, gaps, tail, e, 0);
    assert ts[0..] == ts;
  }

  lemma {:induction false} LexSpacedFrom(ts: seq<Token>, gaps: seq<string>, tail: string, e: ReadCharAtEnd, k: nat)
    requires |gaps| == |ts| && k <= |ts| && Spaced(ts, gaps) && AllWhitespace(tail)
    requires ts != [] ==> Separated(ts[|ts| - 1], tail, e)
    ensures Lex(Layout(ts, gaps, tail, k), e) == ts[k..]
    decreases |ts| - k
  {
    if k == |ts| {
      ScanAtEnd(tail, e);
    } else {
      LexSpacedFrom(ts, gaps, tail, e, k + 1);
      SpacedStep(ts, gaps, tail, e, k);
      SuffixCons(ts, k);
    }
  }

  /** One token of a well spaced layout: the text from token `k` on lexes as token `k`, then the rest. */
  lemma SpacedStep(ts: seq<Token>, gaps: seq<string>, tail: string, e: ReadCharAtEnd, k: nat)
    requires |gaps| == |ts| && k < |ts| && Spaced(ts, gaps)
    requires Separated(ts[|ts| - 1], tail, e)
    ensures Lex(Layout(ts, gaps, tail, k), e) == [ts[k]] + Lex(Layout(ts, gaps, tail, k + 1), e)
  {
    var t, rest := ts[k], Layout(ts, gaps, tail, k + 1);
    assert Layout(ts, gaps, tail, k) == gaps[k] + (t.literal + rest);
    assert Separated(t, rest, e) by {
      if k + 1 < |ts| {
        var head := gaps[k + 1] + ts[k + 1].literal;
        assert rest == head + Layout(ts, gaps, tail, k + 2);
        GapSeparated(t, gaps[k + 1], ts[k + 1], e);
        assert head != [] by { LexemeNotEmpty(ts[k + 1]); }
        SeparatedByHead(t, head, Layout(ts, gaps, tail, k + 2), e);
      }
    }
    LexWhitespacePrefix(gaps[k], t.literal + rest, e);
    LexLexeme(t, rest, e);
  }

  /** A token followed by white space, or by a token it is apart from, is separated. */
  lemma GapSeparated(a: Token, g: string, b: Token, e: ReadCharAtEnd)
    requires AllWhitespace(g) && (g != [] || Apart(a, b))
    ensures Separated(a, g + b.literal, e)
  {
    if g == [] {
      assert g + b.literal == b.literal;
    } else {
      assert (g + b.literal)[0] == g[0] && IsWhitespace(g[0]);
    }
  }

  /** The layout of two token sequences one after the other is the two layouts joined. */
  lemma {:induction false} LayoutConcat(a: seq<Token>, ga: seq<string>, b: seq<Token>, gb: seq<string>, tail: string, k: nat)
    requires |ga| == |a| && |gb| == |b| && k <= |a|
    ensures Layout(a + b, ga + gb, tail, k) == Layout(a, ga, "", k) + Layout(b, gb, tail, 0)
    decreases |a| - k
  {
    if k == |a| {
      LayoutShift(a, ga, b, gb, tail, 0);
    } else {
      LayoutConcat(a, ga, b, gb, tail, k + 1);
      assert (a + b)[k] == a[k] && (ga + gb)[k] == ga[k];
    }
  }

  lemma {:induction false} LayoutShift(a: seq<Token>, ga: seq<string>, b: seq<Token>, gb: seq<string>, tail: string, j: nat)
    requires |ga| == |a| && |gb| == |b| && j <= |b|
    ensures Layout(a + b, ga + gb, tail, |a| + j) == Layout(b, gb, tail, j)
    decreases |b| - j
  {
    if j < |b| {
      LayoutShift(a, ga, b, gb, tail, j + 1);
      assert (a + b)[|a| + j] == b[j] && (ga + gb)[|a| + j] == gb[j];
    }
  }

  // ---------------------------------------------------------------------------------------
  // Token sequences of expressions

  /** Every token is a lexeme. */
  predicate Lexemes(ts: seq<Token>) {
    forall i :: 0 <= i < |ts| ==> IsLexeme(ts[i])
  }

  /** Every two neighbouring tokens are apart. */
  predicate NoClash(ts: seq<Token>) {
    forall i :: 0 < i < |ts| ==> Apart(ts[i - 1], ts[i])
  }

  lemma LexemesAppend(a: seq<Token>, b: seq<Token>)
    requires Lexemes(a) && Lexemes(b)
    ensures Lexemes(a + b)
  {
    forall i | 0 <= i < |a + b|
      ensures IsLexeme((a + b)[i])
    {
      if i >= |a| {
        assert (a + b)[i] == b[i - |a|];
      }
    }
  }

  lemma SingleLexeme(t: Token)
    requires IsLexeme(t)
    ensures Lexemes([t]) && NoClash([t])
  {
  }

  /** The prefix operators and the parentheses are lexemes. */
  lemma DelimiterLexemes()
    ensures IsLexeme(Token(Minus, "-")) && IsLexeme(Token(Bang, "!"))
    ensures IsLexeme(Token(LParen, "(")) && IsLexeme(Token(RParen, ")"))
  {
  }

  lemma NoClashAppend(a: seq<Token>, b: seq<Token>)
    requires NoClash(a) && NoClash(b)
    requires a != [] && b != [] ==> Apart(a[|a| - 1], b[0])
    ensures NoClash(a + b)
  {
    forall i | 0 < i < |a + b|
      ensures Apart((a + b)[i - 1], (a + b)[i])
    {
      if i > |a| {
        assert (a + b)[i - 1] == b[i - 1 - |a|] && (a + b)[i] == b[i - |a|];
      }
    }
  }

  /** Every name in the tree is an identifier: a word that is not a keyword. */
  predicate Lexical(s: Src) {
    match s
    case Name(x) => IsWord(x) && LookupIdentifier(x) == TokenType.Identifier
    case Neg(x) => Lexical(x)
    case Not(x) => Lexical(x)
    case Bin(_, l, r) => Lexical(l) && Lexical(r)
    case Group(x) => Lexical(x)
    case _ => true
  }

  /** The last token of a tree. */
  function Last(s: Src): Token {
    match s
    case Num(n) => NumToken(n)
    case Name(x) => Token(TokenType.Identifier, x)
    case Bool(b) => BoolToken(b)
    case Neg(x) => Last(x)
    case Not(x) => Last(x)
    case Bin(_, _, r) => Last(r)
    case Group(_) => Token(RParen, ")")
  }

  /** A tree opens with a digit, a letter, `-`, `!` or `(`, and never with `=`. */
  lemma {:induction false} FirstSpelling(s: Src)
    requires Lexical(s)
    ensures var l := First(s).literal; l != [] && l[0] != '=' && !IsWhitespace(l[0])
    ensures First(s).literal[0] in "-!(" || IsWord(First(s).literal) || IsNumeral(First(s).literal)
  {
    match s
    case Bin(_, l, _) => FirstSpelling(l);
    case _ =>
  }

  /** A tree closes with a numeral, a word or `)`. */
  lemma {:induction false} LastSpelling(s: Src)
    requires Lexical(s)
    ensures Last(s).literal == ")" || IsWord(Last(s).literal) || IsNumeral(Last(s).literal)
  {
    match s
    case Neg(x) => LastSpelling(x);
    case Not(x) => LastSpelling(x);
    case Bin(_, _, r) => LastSpelling(r);
    case _ =>
  }

  /** The spellings of the operators and delimiters an expression is written with. */
  predicate Symbol(l: string) {
    l in {"+", "-", "*", "/", "<", ">", "==", "!=", "!", "(", ")"}
  }

  lemma SymbolSpelling(l: string)
    requires Symbol(l)
    ensures l != [] && !IsLetter(l[0]) && !IsDigit(l[0]) && !IsWord(l) && !IsNumeral(l)
  {
  }

  /** Every binary operator is a lexeme and a symbol. */
  lemma OperatorLexeme(op: BinOp)
    ensures IsLexeme(OpToken(op)) && Symbol(OpToken(op).literal)
  {
    match op
    case Add =>
    case Sub =>
    case Mul =>
    case Div =>
    case Less =>
    case Greater =>
    case Equal =>
    case NotEqual =>
  }

  /** A symbol written straight after a numeral, a word or `)`. */
  lemma ApartAfter(a: Token, b: Token)
    requires a.literal == ")" || IsWord(a.literal) || IsNumeral(a.literal)
    requires Symbol(b.literal)
    ensures Apart(a, b)
  {
    SymbolSpelling(b.literal);
    if a.literal != ")" {
      assert a.literal[0] != '=' && a.literal[0] != '!';
    }
  }

  /** A token that does not start with `=` written straight after a symbol. */
  lemma ApartBefore(a: Token, b: Token)
    requires Symbol(a.literal)
    requires b.literal != [] && b.literal[0] != '='
    ensures Apart(a, b)
  {
    SymbolSpelling(a.literal);
  }

  /**
   * The tokens of a tree are lexemes, no two neighbours run together, and the last one is
   * `Last(s)`: so any white space at all between them lexes back to them.
   */
  lemma {:induction false} ExpressionTokens(s: Src)
    requires Lexical(s)
    ensures var ts := TokensOf(s); Lexemes(ts) && NoClash(ts) && ts[|ts| - 1] == Last(s)
  {
    match s
    case Num(_) => LeafTokens(s);
    case Name(_) => LeafTokens(s);
    case Bool(_) => LeafTokens(s);
    case Neg(x) =>
      ExpressionTokens(x);
      PrefixTokens(Token(Minus, "-"), x);
    case Not(x) =>
      ExpressionTokens(x);
      PrefixTokens(Token(Bang, "!"), x);
    case Bin(op, l, r) =>
      ExpressionTokens(l);
      ExpressionTokens(r);
      BinTokens(op, l, r);
    case Group(x) =>
      ExpressionTokens(x);
      GroupTokens(x);
  }

  lemma LeafTokens(s: Src)
    requires (s.Num? || s.Name? || s.Bool?) && Lexical(s)
    ensures var ts := TokensOf(s); Lexemes(ts) && NoClash(ts) && ts[|ts| - 1] == Last(s)
  {
    assert TokensOf(s) == [Last(s)];
    if s.Bool? {
      KeywordTextIsWord(TrueToken);
      KeywordTextIsWord(FalseToken);
    }
    SingleLexeme(Last(s));
  }

  lemma PrefixTokens(t: Token, x: Src)
    requires t == Token(Minus, "-") || t == Token(Bang, "!")
    requires Lexical(x) && Lexemes(TokensOf(x)) && NoClash(TokensOf(x))
    ensures Lexemes([t] + TokensOf(x)) && NoClash([t] + TokensOf(x))
  {
    WidthAndFirst(x);
    FirstSpelling(x);
    ApartBefore(t, First(x));
    DelimiterLexemes();
    SingleLexeme(t);
    LexemesAppend([t], TokensOf(x));
    NoClashAppend([t], TokensOf(x));
  }

  lemma BinTokens(op: BinOp, l: Src, r: Src)
    requires Lexical(l) && Lexemes(TokensOf(l)) && NoClash(TokensOf(l)) && TokensOf(l)[|TokensOf(l)| - 1] == Last(l)
    requires Lexical(r) && Lexemes(TokensOf(r)) && NoClash(TokensOf(r))
    ensures Lexemes(TokensOf(l) + [OpToken(op)] + TokensOf(r))
    ensures NoClash(TokensOf(l) + [OpToken(op)] + TokensOf(r))
  {
    var L, o, R := TokensOf(l), OpToken(op), TokensOf(r);
    WidthAndFirst(r);
    OperatorLexeme(op);
    LastSpelling(l);
    FirstSpelling(r);
    ApartAfter(Last(l), o);
    ApartBefore(o, First(r));
    SingleLexeme(o);
    LexemesAppend(L, [o]);
    LexemesAppend(L + [o], R);
    NoClashAppend(L, [o]);
    NoClashAppend(L + [o], R);
  }

  lemma GroupTokens(x: Src)
    requires Lexical(x) && Lexemes(TokensOf(x)) && NoClash(TokensOf(x)) && TokensOf(x)[|TokensOf(x)| - 1] == Last(x)
    ensures var ts := [Token(LParen, "(")] + TokensOf(x) + [Token(RParen, ")")]; Lexemes(ts) && NoClash(ts)
  {
    var o, X, c := Token(LParen, "("), TokensOf(x), Token(RParen, ")");
    WidthAndFirst(x);
    LastSpelling(x);
    FirstSpelling(x);
    ApartBefore(o, First(x));
    ApartAfter(Last(x), c);
    DelimiterLexemes();
    SingleLexeme(o);
    SingleLexeme(c);
    LexemesAppend([o], X);
    LexemesAppend([o] + X, [c]);
    NoClashAppend([o], X);
    NoClashAppend([o] + X, [c]);
  }

  /**
   * Lexing any layout of an expression's tokens gives back exactly those tokens, whatever
   * white space separates them; under the as-written end-of-input behaviour the text must
   * not end with a word or a numeral.
   */
  lemma LexExpression(s: Src, gaps: seq<string>, tail: string, e: ReadCharAtEnd)
    requires Lexical(s) && |gaps| == |TokensOf(s)|
    requires (forall i :: 0 <= i < |gaps| ==> AllWhitespace(gaps[i])) && AllWhitespace(tail)
    requires Separated(Last(s), tail, e)
    ensures Lex(Layout(TokensOf(s), gaps, tail, 0), e) == TokensOf(s)
  {
    ExpressionTokens(s);
    WidthAndFirst(s);
    LexSpaced(TokensOf(s), gaps, tail, e);
  }
}
