/**
 * Laws of the parser of Sources/parser/Parser.swift, stated on the functions of
 * `ParserSpec`: the precedence table, `expectPeek` and the error cases, and a round-trip
 * theorem for expressions. The theorem says that the tokens of any expression tree written
 * with the table's precedences, left associativity and parentheses where those do not
 * suffice parse back into that tree, and that parsing stops on the tree's last token.
 */
module ParserLaws {
  import opened Wrappers
  import opened Tokens
  import opened LexerSpec
  import opened Ast
  import opened Numerals
  import opened ParserSpec

  // ---------------------------------------------------------------------------------------
  // The precedence table

  /** `lowest < equals < lessGreater < sum < product < prefix < call`, and raw values read back. */
  lemma RanksIncrease(p: Precedence)
    ensures Rank(Lowest) < Rank(Equals) < Rank(LessGreater) < Rank(Sum) < Rank(Product) < Rank(Prefix) < Rank(Call)
    ensures FromRank(Rank(p)) == Some(p)
  {
  }

  /** A kind missing from the table has `lowest`; the listed kinds have their listed precedence. */
  lemma PrecedenceTable(t: TokenType)
    ensures PrecedenceOf(t) != Lowest <==> t in {Eq, NotEq, Lt, Gt, Plus, Minus, Asterisk, Slash, LParen}
    ensures t in {Eq, NotEq} ==> PrecedenceOf(t) == Equals
    ensures t in {Lt, Gt} ==> PrecedenceOf(t) == LessGreater
    ensures t in {Plus, Minus} ==> PrecedenceOf(t) == Sum
    ensures t in {Asterisk, Slash} ==> PrecedenceOf(t) == Product
    ensures t == LParen ==> PrecedenceOf(t) == Call
  {
  }

  // ---------------------------------------------------------------------------------------
  // `expectPeek` and the error cases

  /**
   * On a match `expectPeek` moves the window one token and records nothing; otherwise the
   * window stays and exactly one message is appended.
   */
  lemma ExpectPeekOutcome(st: PState, t: TokenType)
    ensures var (ok, st2) := ExpectPeek(st, t);
            && (ok <==> PeekTok(st).tokenType == t)
            && (ok ==> st2 == Advance(st) && Cur(st2) == PeekTok(st))
            && (!ok ==> st2.toks == st.toks && st2.i == st.i
                        && st2.errors == st.errors + ["expected next token to be " + KindName(t)
                                                      + ", got " + KindName(PeekTok(st).tokenType)])
  {
  }

  /** A token with no prefix function yields no expression, one message and no movement. */
  lemma NoPrefixFunction(st: PState, p: Precedence)
    requires PrefixFn(Cur(st).tokenType).None?
    ensures ParseExpression(st, p)
            == (None, st.(errors := st.errors + ["no prefix parse function for " + KindName(Cur(st).tokenType)]))
  {
  }

  /**
   * An `int` token whose literal is not an `Int` yields no expression and one message; for
   * the digit runs the lexer produces, that happens exactly when the value exceeds `Int.max`,
   * and when the literal is empty.
   */
  lemma IntLiteralOutOfRange(st: PState)
    requires Cur(st).tokenType == Int
    ensures var l := Cur(st).literal;
            ParseInt(l).None? ==>
              ApplyPrefix(st, ParseIntegerLiteralFn) == (None, st.(errors := st.errors + ["could not parse " + l + " as int"]))
    ensures var l := Cur(st).literal;
            IsNumeral(l) ==> (ParseInt(l).None? <==> DigitsValue(l) > IntMax)
    ensures Cur(st).literal == [] ==> ParseInt(Cur(st).literal).None?
  {
    if IsNumeral(Cur(st).literal) {
      ParseIntOfNumeral(Cur(st).literal);
    }
  }

  /** `(` has `call` precedence but no infix function: the loop hands back `left` at once. */
  lemma LParenEndsInfixLoop(st: PState, p: Precedence, left: Option<Expression>)
    requires PeekTok(st).tokenType == LParen
    ensures Rank(p) < Rank(Call) ==> BindsTighter(st, p)
    ensures InfixLoop(st, p, left) == (left, st)
  {
  }

  // ---------------------------------------------------------------------------------------
  // Expression trees and their tokens

  datatype BinOp = Add | Sub | Mul | Div | Less | Greater | Equal | NotEqual

  /** Expressions as one writes them, with explicit parentheses. */
  datatype Src =
    | Num(n: nat)
    | Name(name: string)
    | Bool(b: bool)
    | Neg(operand: Src)
    | Not(operand: Src)
    | Bin(op: BinOp, left: Src, right: Src)
    | Group(inner: Src)

  function OpToken(op: BinOp): (t: Token)
    ensures InfixFn(t.tokenType)
  {
    match op
    case Add => Token(Plus, "+")
    case Sub => Token(Minus, "-")
    case Mul => Token(Asterisk, "*")
    case Div => Token(Slash, "/")
    case Less => Token(Lt, "<")
    case Greater => Token(Gt, ">")
    case Equal => Token(Eq, "==")
    case NotEqual => Token(NotEq, "!=")
  }

  function NumToken(n: nat): Token {
    Token(Int, NatToString(n))
  }

  function BoolToken(b: bool): Token {
    if b then Token(TrueToken, "true") else Token(FalseToken, "false")
  }

  /** The tokens of a tree, in writing order. */
  function TokensOf(s: Src): (ts: seq<Token>)
    ensures |ts| > 0
  {
    match s
    case Num(n) => [NumToken(n)]
    case Name(x) => [Token(TokenType.Identifier, x)]
    case Bool(b) => [BoolToken(b)]
    case Neg(x) => [Token(Minus, "-")] + TokensOf(x)
    case Not(x) => [Token(Bang, "!")] + TokensOf(x)
    case Bin(op, l, r) => TokensOf(l) + [OpToken(op)] + TokensOf(r)
    case Group(x) => [Token(LParen, "(")] + TokensOf(x) + [Token(RParen, ")")]
  }

  /** The number of tokens of a tree. */
  function Width(s: Src): (w: nat)
    ensures w > 0
  {
    match s
    case Num(_) => 1
    case Name(_) => 1
    case Bool(_) => 1
    case Neg(x) => 1 + Width(x)
    case Not(x) => 1 + Width(x)
    case Bin(_, l, r) => Width(l) + 1 + Width(r)
    case Group(x) => Width(x) + 2
  }

  /** The first token of a tree. */
  function First(s: Src): Token {
    match s
    case Num(n) => NumToken(n)
    case Name(x) => Token(TokenType.Identifier, x)
    case Bool(b) => BoolToken(b)
    case Neg(_) => Token(Minus, "-")
    case Not(_) => Token(Bang, "!")
    case Bin(_, l, _) => First(l)
    case Group(_) => Token(LParen, "(")
  }

  lemma {:induction false} WidthAndFirst(s: Src)
    ensures |TokensOf(s)| == Width(s) && TokensOf(s)[0] == First(s)
  {
    match s
    case Num(_) =>
    case Name(_) =>
    case Bool(_) =>
    case Neg(x) => WidthAndFirst(x);
    case Not(x) => WidthAndFirst(x);
    case Bin(_, l, r) => WidthAndFirst(l); WidthAndFirst(r);
    case Group(x) => WidthAndFirst(x);
  }

  /** The syntax tree the parser is meant to build: parentheses leave no node behind. */
  function ToAst(s: Src): Expression {
    match s
    case Num(n) => IntegerLiteral(NumToken(n), n)
    case Name(x) => IdentifierExpression(Ast.Identifier(Token(TokenType.Identifier, x), x))
    case Bool(b) => BooleanExpression(BoolToken(b), b)
    case Neg(x) => PrefixExpression(Token(Minus, "-"), "-", Some(ToAst(x)))
    case Not(x) => PrefixExpression(Token(Bang, "!"), "!", Some(ToAst(x)))
    case Bin(op, l, r) => InfixExpression(OpToken(op), Some(ToAst(l)), OpToken(op).literal, Some(ToAst(r)))
    case Group(x) => ToAst(x)
  }

  /** How tightly the tree's top binds: its operator's precedence, or above every operator. */
  function Level(s: Src): nat {
    if s.Bin? then Rank(PrecedenceOf(OpToken(s.op).tokenType)) else 6
  }

  /**
   * Written without parentheses beyond those in the tree, the tree reads back as itself:
   * a left operand binds at least as tightly as its operator (left associativity), a right
   * operand strictly more tightly, the operand of `-` or `!` is not a bare binary
   * expression, and every number is an `Int`.
   */
  predicate WellFormed(s: Src) {
    match s
    case Num(n) => n <= IntMax
    case Name(_) => true
    case Bool(_) => true
    case Neg(x) => !x.Bin? && WellFormed(x)
    case Not(x) => !x.Bin? && WellFormed(x)
    case Bin(_, l, r) => WellFormed(l) && WellFormed(r) && Level(l) >= Level(s) && Level(r) > Level(s)
    case Group(x) => WellFormed(x)
  }

  /** The operand the parser meets first: the start of the tree's leftmost chain of binary operators. */
  function Leftmost(s: Src): (a: Src)
    ensures !a.Bin?
  {
    if s.Bin? then Leftmost(s.left) else s
  }

  function Size(s: Src): nat {
    match s
    case Num(_) => 1
    case Name(_) => 1
    case Bool(_) => 1
    case Neg(x) => 1 + Size(x)
    case Not(x) => 1 + Size(x)
    case Bin(_, l, r) => 1 + Size(l) + Size(r)
    case Group(x) => 1 + Size(x)
  }

  /** The stream has the tokens of `s` from position `i` on. */
  predicate Spells(toks: seq<Token>, i: nat, s: Src)
    decreases s
  {
    match s
    case Num(n) => TokenAt(toks, i) == NumToken(n)
    case Name(x) => TokenAt(toks, i) == Token(TokenType.Identifier, x)
    case Bool(b) => TokenAt(toks, i) == BoolToken(b)
    case Neg(x) => TokenAt(toks, i) == Token(Minus, "-") && Spells(toks, i + 1, x)
    case Not(x) => TokenAt(toks, i) == Token(Bang, "!") && Spells(toks, i + 1, x)
    case Bin(op, l, r) =>
      && Spells(toks, i, l)
      && TokenAt(toks, i + Width(l)) == OpToken(op)
      && Spells(toks, i + Width(l) + 1, r)
    case Group(x) =>
      && TokenAt(toks, i) == Token(LParen, "(")
      && Spells(toks, i + 1, x)
      && TokenAt(toks, i + 1 + Width(x)) == Token(RParen, ")")
  }

  /** Whether the infix loop at precedence rank `rank` stops before the peek token `t`. */
  predicate StopsBefore(t: Token, rank: nat) {
    !(t.tokenType != Semicolon && rank < Rank(PrecedenceOf(t.tokenType)) && InfixFn(t.tokenType))
  }

  /** The state whose current token is the one at `j`. */
  function At(st: PState, j: nat): PState {
    st.(i := j)
  }

  // ---------------------------------------------------------------------------------------
  // Reading the parts of a spelled tree

  /** The stream holds the tokens `ts` from position `i` on. */
  predicate Holds(toks: seq<Token>, i: nat, ts: seq<Token>)
    decreases |ts|
  {
    ts == [] || (TokenAt(toks, i) == ts[0] && Holds(toks, i + 1, ts[1..]))
  }

  /** A stream holds its own prefix. */
  lemma {:induction false} HoldsSlice(toks: seq<Token>, i: nat, ts: seq<Token>)
    requires i + |ts| <= |toks| && toks[i..i + |ts|] == ts
    ensures Holds(toks, i, ts)
    decreases |ts|
  {
    if ts != [] {
      assert toks[i] == ts[0];
      assert toks[i + 1..i + 1 + |ts[1..]|] == ts[1..];
      HoldsSlice(toks, i + 1, ts[1..]);
    }
  }

  lemma {:induction false} HoldsSplit(toks: seq<Token>, i: nat, a: seq<Token>, b: seq<Token>, k: nat)
    requires Holds(toks, i, a + b) && k == i + |a|
    ensures Holds(toks, i, a) && Holds(toks, k, b)
    decreases |a|
  {
    if a != [] {
      assert (a + b)[1..] == a[1..] + b;
      HoldsSplit(toks, i + 1, a[1..], b, k);
    } else {
      assert a + b == b;
    }
  }

  lemma HoldsOne(toks: seq<Token>, i: nat, t: Token)
    requires Holds(toks, i, [t])
    ensures TokenAt(toks, i) == t
  {
  }

  lemma HoldsPrefixed(toks: seq<Token>, i: nat, t: Token, x: Src)
    requires Holds(toks, i, [t] + TokensOf(x))
    ensures TokenAt(toks, i) == t && Holds(toks, i + 1, TokensOf(x))
  {
    HoldsSplit(toks, i, [t], TokensOf(x), i + 1);
    HoldsOne(toks, i, t);
  }

  lemma HoldsBin(toks: seq<Token>, i: nat, op: BinOp, l: Src, r: Src)
    requires Holds(toks, i, TokensOf(l) + [OpToken(op)] + TokensOf(r))
    ensures Holds(toks, i, TokensOf(l)) && TokenAt(toks, i + Width(l)) == OpToken(op)
    ensures Holds(toks, i + Width(l) + 1, TokensOf(r))
  {
    WidthAndFirst(l);
    HoldsSplit(toks, i, TokensOf(l) + [OpToken(op)], TokensOf(r), i + Width(l) + 1);
    HoldsSplit(toks, i, TokensOf(l), [OpToken(op)], i + Width(l));
    HoldsOne(toks, i + Width(l), OpToken(op));
  }

  lemma HoldsGroup(toks: seq<Token>, i: nat, x: Src)
    requires Holds(toks, i, [Token(LParen, "(")] + TokensOf(x) + [Token(RParen, ")")])
    ensures TokenAt(toks, i) == Token(LParen, "(") && Holds(toks, i + 1, TokensOf(x))
    ensures TokenAt(toks, i + 1 + Width(x)) == Token(RParen, ")")
  {
    WidthAndFirst(x);
    HoldsSplit(toks, i, [Token(LParen, "(")] + TokensOf(x), [Token(RParen, ")")], i + 1 + Width(x));
    HoldsPrefixed(toks, i, Token(LParen, "("), x);
    HoldsOne(toks, i + 1 + Width(x), Token(RParen, ")"));
  }

  /** A stream holding the tokens of `s` at `i` spells `s` there. */
  lemma {:induction false} HoldsSpells(toks: seq<Token>, i: nat, s: Src)
    requires Holds(toks, i, TokensOf(s))
    ensures Spells(toks, i, s)
    decreases s
  {
    match s
    case Num(n) =>
      HoldsOne(toks, i, NumToken(n));
    case Name(x) =>
      HoldsOne(toks, i, Token(TokenType.Identifier, x));
    case Bool(b) =>
      HoldsOne(toks, i, BoolToken(b));
    case Neg(x) =>
      HoldsPrefixed(toks, i, Token(Minus, "-"), x);
      HoldsSpells(toks, i + 1, x);
    case Not(x) =>
      HoldsPrefixed(toks, i, Token(Bang, "!"), x);
      HoldsSpells(toks, i + 1, x);
    case Bin(op, l, r) =>
      HoldsBin(toks, i, op, l, r);
      HoldsSpells(toks, i, l);
      HoldsSpells(toks, i + Width(l) + 1, r);
    case Group(x) =>
      HoldsGroup(toks, i, x);
      HoldsSpells(toks, i + 1, x);
  }

  /** The first token of a spelled tree is the first token of the tree. */
  lemma {:induction false} SpellsFirst(toks: seq<Token>, i: nat, s: Src)
    requires Spells(toks, i, s)
    ensures TokenAt(toks, i) == First(s)
  {
    if s.Bin? {
      SpellsFirst(toks, i, s.left);
    }
  }

  lemma {:induction false} SpellsLeftmost(toks: seq<Token>, i: nat, s: Src)
    requires Spells(toks, i, s)
    ensures Spells(toks, i, Leftmost(s))
    ensures Size(Leftmost(s)) <= Size(s) && Width(Leftmost(s)) <= Width(s)
  {
    if s.Bin? {
      SpellsLeftmost(toks, i, s.left);
    }
  }

  lemma {:induction false} LeftmostWellFormed(s: Src)
    requires WellFormed(s)
    ensures WellFormed(Leftmost(s))
  {
    if s.Bin? {
      LeftmostWellFormed(s.left);
    }
  }

  // ---------------------------------------------------------------------------------------
  // The parts of a spelled tree, at given positions

  /** Where the first operand of a spelled tree lies, and how tightly the tree binds there. */
  lemma LeftParts(toks: seq<Token>, j: nat, s: Src, p: Precedence, last: nat)
    requires WellFormed(s) && Rank(p) < Level(s) && Spells(toks, j, s) && last + 1 == j + Width(s)
    requires StopsBefore(TokenAt(toks, last + 1), Rank(p))
    ensures !Leftmost(s).Bin? && WellFormed(Leftmost(s)) && Spells(toks, j, Leftmost(s))
    ensures Width(Leftmost(s)) <= Width(s) && Size(Leftmost(s)) <= Size(s)
    ensures StopsBefore(TokenAt(toks, last + 1), Level(s))
  {
    SpellsLeftmost(toks, j, s);
    LeftmostWellFormed(s);
  }

  /** The parts of a spelled well-formed binary tree whose left operand ends at `ll`. */
  lemma BinParts(toks: seq<Token>, j: nat, op: BinOp, l: Src, r: Src, ll: nat, last: nat)
    requires WellFormed(Bin(op, l, r)) && Spells(toks, j, Bin(op, l, r))
    requires ll + 1 == j + Width(l) && last + 1 == j + Width(Bin(op, l, r))
    requires StopsBefore(TokenAt(toks, last + 1), Level(Bin(op, l, r)))
    ensures WellFormed(l) && WellFormed(r) && Spells(toks, j, l) && Spells(toks, ll + 2, r)
    ensures TokenAt(toks, ll + 1) == OpToken(op)
    ensures Leftmost(Bin(op, l, r)) == Leftmost(l)
    ensures last + 1 == ll + 2 + Width(r)
  {
  }

  lemma BinLevels(toks: seq<Token>, op: BinOp, l: Src, r: Src, ll: nat, last: nat)
    requires WellFormed(Bin(op, l, r)) && TokenAt(toks, ll + 1) == OpToken(op)
    requires StopsBefore(TokenAt(toks, last + 1), Level(Bin(op, l, r)))
    ensures Rank(PrecedenceOf(OpToken(op).tokenType)) < Level(r)
    ensures Level(Bin(op, l, r)) == Rank(PrecedenceOf(OpToken(op).tokenType)) <= Level(l)
    ensures StopsBefore(TokenAt(toks, ll + 1), Level(l))
    ensures StopsBefore(TokenAt(toks, last + 1), Rank(PrecedenceOf(OpToken(op).tokenType)))
  {
  }

  /** A parenthesised tree spelled from `j` to `last`: its parts, with `k` the inner tree's last token. */
  predicate GroupLayout(toks: seq<Token>, j: nat, a: Src, k: nat, last: nat) {
    && a.Group? && WellFormed(a.inner) && Spells(toks, j + 1, a.inner) && k + 1 == j + 1 + Width(a.inner)
    && TokenAt(toks, j).tokenType == LParen
    && last == k + 1 && TokenAt(toks, last).tokenType == RParen
    && StopsBefore(TokenAt(toks, k + 1), Rank(Lowest))
  }

  lemma GroupParts(toks: seq<Token>, j: nat, a: Src, last: nat)
    requires a.Group? && WellFormed(a) && Spells(toks, j, a) && last + 1 == j + Width(a)
    ensures last > 0 && GroupLayout(toks, j, a, last - 1, last)
  {
  }

  lemma PrefixedParts(toks: seq<Token>, j: nat, a: Src, last: nat)
    requires (a.Neg? || a.Not?) && WellFormed(a) && Spells(toks, j, a) && last + 1 == j + Width(a)
    ensures WellFormed(a.operand) && Rank(Prefix) < Level(a.operand) && Spells(toks, j + 1, a.operand)
    ensures last + 1 == j + 1 + Width(a.operand)
    ensures TokenAt(toks, j).tokenType == Minus || TokenAt(toks, j).tokenType == Bang
    ensures ToAst(a) == PrefixExpression(TokenAt(toks, j), TokenAt(toks, j).literal, Some(ToAst(a.operand)))
    ensures StopsBefore(TokenAt(toks, last + 1), Rank(Prefix))
  {
  }

  // ---------------------------------------------------------------------------------------
  // One step of each parse function

  /** The state whose current token is at `k`, and the step to the next position `k1`. */
  lemma Positions(st: PState, k: nat, k1: nat)
    requires k1 == k + 1
    ensures Cur(At(st, k)) == TokenAt(st.toks, k) && PeekTok(At(st, k)) == TokenAt(st.toks, k1)
    ensures Advance(At(st, k)) == At(st, k1)
  {
  }

  lemma NumberStep(st: PState, v: nat)
    requires Cur(st) == NumToken(v) && v <= IntMax
    ensures PrefixFn(Cur(st).tokenType) == Some(ParseIntegerLiteralFn)
    ensures ApplyPrefix(st, ParseIntegerLiteralFn) == (Some(IntegerLiteral(NumToken(v), v)), st)
  {
    ParseIntOfNumeral(NatToString(v));
    DigitsValueOfNatToString(v);
  }

  lemma PrefixStep(st: PState, e: Expression, st2: PState)
    requires Cur(st).tokenType == Minus || Cur(st).tokenType == Bang
    requires ParseExpression(Advance(st), Prefix) == (Some(e), st2)
    ensures PrefixFn(Cur(st).tokenType) == Some(ParsePrefixExpressionFn)
    ensures ApplyPrefix(st, ParsePrefixExpressionFn) == (Some(PrefixExpression(Cur(st), Cur(st).literal, Some(e))), st2)
  {
  }

  /** One turn of the infix loop: the operator after `st` and the operand parsed after it. */
  lemma LoopStep(st: PState, p: Precedence, left: Option<Expression>, e: Expression, st2: PState)
    requires InfixFn(PeekTok(st).tokenType) && Rank(p) < Rank(PrecedenceOf(PeekTok(st).tokenType))
    requires ParseExpression(Advance(Advance(st)), PrecedenceOf(PeekTok(st).tokenType)) == (Some(e), st2)
    ensures InfixLoop(st, p, left) == InfixLoop(st2, p, Some(InfixExpression(PeekTok(st), left, PeekTok(st).literal, Some(e))))
  {
    RanksIncrease(PrecedenceOf(PeekTok(st).tokenType));
    InfixLoopTurns(st, p, left);
  }

  /** The loop of an expression ends where the peek token stops it. */
  lemma ExpressionEnds(st: PState, p: Precedence, la: Expression, st1: PState, ls: Expression, st2: PState)
    requires PrefixFn(Cur(st).tokenType).Some?
    requires ApplyPrefix(st, PrefixFn(Cur(st).tokenType).value) == (Some(la), st1)
    requires InfixLoop(st1, p, Some(la)) == InfixLoop(st2, p, Some(ls))
    requires StopsBefore(PeekTok(st2), Rank(p))
    ensures ParseExpression(st, p) == (Some(ls), st2)
  {
    InfixLoopStops(st2, p, Some(ls));
  }

  /** No infix operator binds more tightly than a prefix operator. */
  lemma NothingBindsTighterThanPrefix(t: Token)
    ensures StopsBefore(t, Rank(Prefix))
  {
  }

  // ---------------------------------------------------------------------------------------
  // The same steps at positions of one stream

  lemma LeafAt(st: PState, j: nat, a: Src, last: nat)
    requires (a.Num? || a.Name? || a.Bool?) && WellFormed(a) && Spells(st.toks, j, a) && last + 1 == j + Width(a)
    ensures PrefixFn(Cur(At(st, j)).tokenType).Some?
    ensures ApplyPrefix(At(st, j), PrefixFn(Cur(At(st, j)).tokenType).value) == (Some(ToAst(a)), At(st, last))
  {
    Positions(st, j, j + 1);
    if a.Num? {
      NumberStep(At(st, j), a.n);
    }
  }

  lemma PrefixAt(st: PState, j: nat, e: Expression, last: nat)
    requires TokenAt(st.toks, j).tokenType == Minus || TokenAt(st.toks, j).tokenType == Bang
    requires ParseExpression(At(st, j + 1), Prefix) == (Some(e), At(st, last))
    ensures PrefixFn(Cur(At(st, j)).tokenType) == Some(ParsePrefixExpressionFn)
    ensures ApplyPrefix(At(st, j), ParsePrefixExpressionFn)
            == (Some(PrefixExpression(TokenAt(st.toks, j), TokenAt(st.toks, j).literal, Some(e))), At(st, last))
  {
    Positions(st, j, j + 1);
    PrefixStep(At(st, j), e, At(st, last));
  }

  lemma GroupAt(st: PState, j: nat, e: Expression, k: nat, last: nat)
    requires TokenAt(st.toks, j).tokenType == LParen
    requires ParseExpression(At(st, j + 1), Lowest) == (Some(e), At(st, k))
    requires last == k + 1 && TokenAt(st.toks, last).tokenType == RParen
    ensures PrefixFn(Cur(At(st, j)).tokenType) == Some(ParseGroupedExpressionFn)
    ensures ApplyPrefix(At(st, j), ParseGroupedExpressionFn) == (Some(e), At(st, last))
  {
    GroupedAt(st, j, e, k, last);
  }

  /** `parseGroupedExpression()` from an opening parenthesis at `j`, closed at `last`. */
  lemma GroupedAt(st: PState, j: nat, e: Expression, k: nat, last: nat)
    requires TokenAt(st.toks, j).tokenType == LParen
    requires ParseExpression(At(st, j + 1), Lowest) == (Some(e), At(st, k))
    requires last == k + 1 && TokenAt(st.toks, last).tokenType == RParen
    ensures ParseGroupedExpression(At(st, j)) == (Some(e), At(st, last))
  {
    Positions(st, j, j + 1);
    Positions(st, k, last);
  }

  lemma LoopAt(st: PState, ll: nat, p: Precedence, a: Expression, la: nat, op: BinOp, le: Expression, re: Expression, last: nat)
    requires TokenAt(st.toks, ll + 1) == OpToken(op) && Rank(p) < Rank(PrecedenceOf(OpToken(op).tokenType))
    requires InfixLoop(At(st, la), p, Some(a)) == InfixLoop(At(st, ll), p, Some(le))
    requires ParseExpression(At(st, ll + 2), PrecedenceOf(OpToken(op).tokenType)) == (Some(re), At(st, last))
    ensures InfixLoop(At(st, la), p, Some(a))
            == InfixLoop(At(st, last), p, Some(InfixExpression(OpToken(op), Some(le), OpToken(op).literal, Some(re))))
  {
    Positions(st, ll, ll + 1);
    Positions(st, ll + 1, ll + 2);
    LoopStep(At(st, ll), p, Some(le), re, At(st, last));
  }

  lemma EndsAt(st: PState, j: nat, p: Precedence, la: Expression, ka: nat, ls: Expression, last: nat)
    requires PrefixFn(Cur(At(st, j)).tokenType).Some?
    requires ApplyPrefix(At(st, j), PrefixFn(Cur(At(st, j)).tokenType).value) == (Some(la), At(st, ka))
    requires InfixLoop(At(st, ka), p, Some(la)) == InfixLoop(At(st, last), p, Some(ls))
    requires StopsBefore(TokenAt(st.toks, last + 1), Rank(p))
    ensures ParseExpression(At(st, j), p) == (Some(ls), At(st, last))
  {
    Positions(st, last, last + 1);
    ExpressionEnds(At(st, j), p, la, At(st, ka), ls, At(st, last));
  }

  // ---------------------------------------------------------------------------------------
  // The round-trip theorem

  /**
   * Parsing at precedence `p` from the first token of a well-formed tree that binds more
   * tightly than `p`, followed by a token that ends the loop at `p`, yields the tree and
   * leaves the tree's last token, at `last`, current, with no error recorded.
   */
  lemma {:induction false} ParseSpelled(st: PState, j: nat, s: Src, p: Precedence, last: nat)
    requires WellFormed(s) && Rank(p) < Level(s) && Spells(st.toks, j, s) && last + 1 == j + Width(s)
    requires StopsBefore(TokenAt(st.toks, last + 1), Rank(p))
    ensures ParseExpression(At(st, j), p) == (Some(ToAst(s)), At(st, last))
    decreases Size(s), 3
  {
    LeftParts(st.toks, j, s, p, last);
    var a := Leftmost(s);
    var la := j + Width(a) - 1;
    ParseOperand(st, j, a, la);
    SpineLoop(st, j, s, p, la, last);
    EndsAt(st, j, p, ToAst(a), la, ToAst(s), last);
  }

  /** The prefix function of a tree's first operand parses exactly that operand. */
  lemma {:induction false} ParseOperand(st: PState, j: nat, a: Src, last: nat)
    requires !a.Bin? && WellFormed(a) && Spells(st.toks, j, a) && last + 1 == j + Width(a)
    ensures PrefixFn(Cur(At(st, j)).tokenType).Some?
    ensures ApplyPrefix(At(st, j), PrefixFn(Cur(At(st, j)).tokenType).value) == (Some(ToAst(a)), At(st, last))
    decreases Size(a), 2
  {
    match a
    case Neg(_) =>
      ParsePrefixed(st, j, a, last);
    case Not(_) =>
      ParsePrefixed(st, j, a, last);
    case Group(_) =>
      ParseGroup(st, j, a, last);
    case _ =>
      LeafAt(st, j, a, last);
  }

  lemma {:induction false} ParseGroup(st: PState, j: nat, a: Src, last: nat)
    requires a.Group? && WellFormed(a) && Spells(st.toks, j, a) && last + 1 == j + Width(a)
    ensures PrefixFn(Cur(At(st, j)).tokenType) == Some(ParseGroupedExpressionFn)
    ensures ApplyPrefix(At(st, j), ParseGroupedExpressionFn) == (Some(ToAst(a)), At(st, last))
    decreases Size(a), 1
  {
    GroupParts(st.toks, j, a, last);
    ParseGroupInner(st, j, a, last - 1, last);
  }

  lemma {:induction false} ParseGroupInner(st: PState, j: nat, a: Src, k: nat, last: nat)
    requires GroupLayout(st.toks, j, a, k, last)
    ensures PrefixFn(Cur(At(st, j)).tokenType) == Some(ParseGroupedExpressionFn)
    ensures ApplyPrefix(At(st, j), ParseGroupedExpressionFn) == (Some(ToAst(a)), At(st, last))
    decreases Size(a), 0
  {
    ParseSpelled(st, j + 1, a.inner, Lowest, k);
    GroupAt(st, j, ToAst(a.inner), k, last);
  }

  lemma {:induction false} ParsePrefixed(st: PState, j: nat, a: Src, last: nat)
    requires (a.Neg? || a.Not?) && WellFormed(a) && Spells(st.toks, j, a) && last + 1 == j + Width(a)
    ensures PrefixFn(Cur(At(st, j)).tokenType) == Some(ParsePrefixExpressionFn)
    ensures ApplyPrefix(At(st, j), ParsePrefixExpressionFn) == (Some(ToAst(a)), At(st, last))
    decreases Size(a), 0
  {
    PrefixedParts(st.toks, j, a, last);
    ParseSpelled(st, j + 1, a.operand, Prefix, last);
    PrefixAt(st, j, ToAst(a.operand), last);
  }

  /**
   * After the first operand of `s`, ending at `la`, the infix loop at `p` folds in the whole
   * of `s`: it reaches the last token of `s` with `s` as its left operand.
   */
  lemma {:induction false} SpineLoop(st: PState, j: nat, s: Src, p: Precedence, la: nat, last: nat)
    requires WellFormed(s) && Rank(p) < Level(s) && Spells(st.toks, j, s)
    requires la + 1 == j + Width(Leftmost(s)) && last + 1 == j + Width(s)
    requires StopsBefore(TokenAt(st.toks, last + 1), Level(s))
    ensures InfixLoop(At(st, la), p, Some(ToAst(Leftmost(s)))) == InfixLoop(At(st, last), p, Some(ToAst(s)))
    decreases Size(s), 1
  {
    match s
    case Bin(op, l, r) =>
      var ll := j + Width(l) - 1;
      BinParts(st.toks, j, op, l, r, ll, last);
      BinLevels(st.toks, op, l, r, ll, last);
      SpineLoop(st, j, l, p, la, ll);
      SpineRight(st, j, op, l, r, p, la, ll, last);
    case _ =>
  }

  /** The turn of the loop that folds in the operator and right operand of a binary tree. */
  lemma {:induction false} SpineRight(st: PState, j: nat, op: BinOp, l: Src, r: Src, p: Precedence, la: nat, ll: nat, last: nat)
    requires WellFormed(r) && Spells(st.toks, ll + 2, r) && last + 1 == ll + 2 + Width(r)
    requires TokenAt(st.toks, ll + 1) == OpToken(op)
    requires Rank(p) < Rank(PrecedenceOf(OpToken(op).tokenType)) < Level(r)
    requires StopsBefore(TokenAt(st.toks, last + 1), Rank(PrecedenceOf(OpToken(op).tokenType)))
    requires InfixLoop(At(st, la), p, Some(ToAst(Leftmost(l)))) == InfixLoop(At(st, ll), p, Some(ToAst(l)))
    ensures InfixLoop(At(st, la), p, Some(ToAst(Leftmost(l)))) == InfixLoop(At(st, last), p, Some(ToAst(Bin(op, l, r))))
    decreases Size(Bin(op, l, r)), 0
  {
    ParseSpelled(st, ll + 2, r, PrecedenceOf(OpToken(op).tokenType), last);
    LoopAt(st, ll, p, ToAst(Leftmost(l)), la, op, ToAst(l), ToAst(r), last);
  }
}
