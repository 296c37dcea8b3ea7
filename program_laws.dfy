/**
 * Program-level laws of the parser of Sources/parser/Parser.swift: the tokens of a sequence
 * of `let`, `return` and expression statements, each with or without its optional `;`,
 * parse back into exactly those statements, in order, with no error recorded, and the
 * parser stops on the eof after them.
 */
module ProgramLaws {
  import opened Wrappers
  import opened Tokens
  import opened LexerSpec
  import opened Ast
  import opened ParserSpec
  import opened ParserLaws

  /** Statements as one writes them; `semi` says whether the optional `;` follows. */
  datatype Stmt =
    | LetSrc(name: string, value: Src, semi: bool)
    | ReturnSrc(value: Src, semi: bool)
    | ExprSrc(value: Src, semi: bool)

  const LetTok := Token(LetToken, "let")
  const ReturnTok := Token(ReturnToken, "return")
  const AssignTok := Token(Assign, "=")
  const SemiTok := Token(Semicolon, ";")

  /** The tokens in front of the value. */
  function Header(p: Stmt): seq<Token> {
    match p
    case LetSrc(name, _, _) => [LetTok, Token(TokenType.Identifier, name), AssignTok]
    case ReturnSrc(_, _) => [ReturnTok]
    case ExprSrc(_, _) => []
  }

  function Trailer(p: Stmt): seq<Token> {
    if p.semi then [SemiTok] else []
  }

  function StmtTokens(p: Stmt): seq<Token> {
    Header(p) + TokensOf(p.value) + Trailer(p)
  }

  /** The tokens of a program, statement after statement. */
  function ProgramTokens(ps: seq<Stmt>): seq<Token> {
    if ps == [] then [] else StmtTokens(ps[0]) + ProgramTokens(ps[1..])
  }

  /** The statement node the parser is meant to build. */
  function ToStatement(p: Stmt): Statement {
    match p
    case LetSrc(name, v, _) =>
      LetStatement(LetTok, Ast.Identifier(Token(TokenType.Identifier, name), name), Some(ToAst(v)))
    case ReturnSrc(v, _) => ReturnStatement(ReturnTok, Some(ToAst(v)))
    case ExprSrc(v, _) => ExpressionStatement(First(v), Some(ToAst(v)))
  }

  function ToStatements(ps: seq<Stmt>): (ss: seq<Statement>)
    ensures |ss| == |ps|
  {
    if ps == [] then [] else [ToStatement(ps[0])] + ToStatements(ps[1..])
  }

  /** The first token a statement is written with. */
  function Opening(p: Stmt): Token {
    match p
    case LetSrc(_, _, _) => LetTok
    case ReturnSrc(_, _) => ReturnTok
    case ExprSrc(v, _) => First(v)
  }

  /**
   * Every value is a well-formed tree, and a statement written without its `;` is the last
   * one or is followed by a statement whose opening token ends the infix loop (so `5 -3`
   * is one statement, not two).
   */
  predicate ProgramOk(ps: seq<Stmt>) {
    ps == []
    || (&& WellFormed(ps[0].value)
        && (!ps[0].semi && |ps| > 1 ==> StopsBefore(Opening(ps[1]), Rank(Lowest)))
        && ProgramOk(ps[1..]))
  }

  // ---------------------------------------------------------------------------------------
  // Token facts

  /** A tree opens with a literal, a name, `-`, `!` or `(`. */
  lemma FirstKinds(s: Src)
    ensures First(s).tokenType in {Int, TokenType.Identifier, TrueToken, FalseToken, Minus, Bang, LParen}
  {
    if s.Bin? {
      FirstKinds(s.left);
    }
  }

  lemma OpeningKinds(p: Stmt)
    ensures Opening(p).tokenType !in {Eof, Semicolon}
  {
    FirstKinds(p.value);
  }

  lemma StmtTokensNotEmpty(p: Stmt)
    ensures |StmtTokens(p)| == |Header(p)| + Width(p.value) + |Trailer(p)| > 0
  {
    WidthAndFirst(p.value);
  }

  /** A stream holding a non-empty program has the first statement's opening token there. */
  lemma HoldsOpening(toks: seq<Token>, i: nat, ps: seq<Stmt>)
    requires ps != [] && Holds(toks, i, ProgramTokens(ps))
    ensures TokenAt(toks, i) == Opening(ps[0])
  {
    var p := ps[0];
    WidthAndFirst(p.value);
    assert ProgramTokens(ps)[0] == Opening(p) by {
      assert ProgramTokens(ps) == StmtTokens(p) + ProgramTokens(ps[1..]);
      if p.ExprSrc? {
        assert StmtTokens(p)[0] == TokensOf(p.value)[0];
      } else {
        assert StmtTokens(p)[0] == Header(p)[0];
      }
    }
  }

  // ---------------------------------------------------------------------------------------
  // Where the parts of a statement lie

  /** A value spelled from `j` to `last`, followed by a token that ends the loop at `lowest`. */
  predicate ValueAt(toks: seq<Token>, j: nat, v: Src, last: nat) {
    && WellFormed(v) && Spells(toks, j, v) && last + 1 == j + Width(v)
    && StopsBefore(TokenAt(toks, last + 1), Rank(Lowest))
  }

  /** After the value's last token at `k`: the `;` at `last` when written, else `k == last` and no `;` follows. */
  predicate SemiAt(toks: seq<Token>, k: nat, semi: bool, last: nat) {
    if semi then TokenAt(toks, k + 1) == SemiTok && last == k + 1
    else last == k && TokenAt(toks, k + 1).tokenType != Semicolon
  }

  /** A statement spelled from `j` to `last`, and what follows it when it has no `;`. */
  predicate StmtLayout(toks: seq<Token>, j: nat, p: Stmt, last: nat) {
    && WellFormed(p.value) && Holds(toks, j, StmtTokens(p)) && last + 1 == j + |StmtTokens(p)|
    && (!p.semi ==> StopsBefore(TokenAt(toks, last + 1), Rank(Lowest)) && TokenAt(toks, last + 1).tokenType != Semicolon)
  }

  lemma HeaderParts(toks: seq<Token>, j: nat, p: Stmt, k: nat)
    requires Holds(toks, j, StmtTokens(p)) && k + 1 == j + |Header(p)| + Width(p.value)
    ensures Spells(toks, j + |Header(p)|, p.value)
    ensures p.LetSrc? ==> TokenAt(toks, j) == LetTok && TokenAt(toks, j + 1) == Token(TokenType.Identifier, p.name)
                          && TokenAt(toks, j + 2) == AssignTok
    ensures p.ReturnSrc? ==> TokenAt(toks, j) == ReturnTok
    ensures p.semi ==> TokenAt(toks, k + 1) == SemiTok
  {
    var h, v := Header(p), p.value;
    WidthAndFirst(v);
    HoldsSplit(toks, j, h + TokensOf(v), Trailer(p), k + 1);
    HoldsSplit(toks, j, h, TokensOf(v), j + |h|);
    HoldsSpells(toks, j + |h|, v);
    if p.semi {
      HoldsOne(toks, k + 1, SemiTok);
    }
    if p.LetSrc? {
      HoldsSplit(toks, j, [LetTok], [Token(TokenType.Identifier, p.name), AssignTok], j + 1);
      HoldsSplit(toks, j + 1, [Token(TokenType.Identifier, p.name)], [AssignTok], j + 2);
      HoldsOne(toks, j, LetTok);
      HoldsOne(toks, j + 1, Token(TokenType.Identifier, p.name));
      HoldsOne(toks, j + 2, AssignTok);
    } else if p.ReturnSrc? {
      HoldsOne(toks, j, ReturnTok);
    }
  }

  /** The layout of a statement, split into where its value lies and what follows the value. */
  lemma StmtParts(toks: seq<Token>, j: nat, p: Stmt, k: nat, last: nat)
    requires StmtLayout(toks, j, p, last) && k + 1 == j + |Header(p)| + Width(p.value)
    ensures ValueAt(toks, j + |Header(p)|, p.value, k) && SemiAt(toks, k, p.semi, last)
    ensures p.LetSrc? ==> TokenAt(toks, j) == LetTok && TokenAt(toks, j + 1) == Token(TokenType.Identifier, p.name)
                          && TokenAt(toks, j + 2) == AssignTok
    ensures p.ReturnSrc? ==> TokenAt(toks, j) == ReturnTok
    ensures p.ExprSrc? ==> TokenAt(toks, j) == First(p.value)
  {
    StmtTokensNotEmpty(p);
    HeaderParts(toks, j, p, k);
    if p.ExprSrc? {
      SpellsFirst(toks, j, p.value);
    }
  }

  // ---------------------------------------------------------------------------------------
  // One step of each statement parser

  lemma LetStep(st: PState, name: string, e: Expression, st3: PState)
    requires Cur(st) == LetTok && PeekTok(st) == Token(TokenType.Identifier, name)
    requires PeekTok(Advance(st)) == AssignTok
    requires ParseExpression(Advance(Advance(Advance(st))), Lowest) == (Some(e), st3)
    ensures ParseStatement(st)
            == (Some(LetStatement(LetTok, Ast.Identifier(Token(TokenType.Identifier, name), name), Some(e))), SkipSemicolon(st3))
  {
  }

  lemma ReturnStep(st: PState, e: Expression, st1: PState)
    requires Cur(st) == ReturnTok
    requires ParseExpression(Advance(st), Lowest) == (Some(e), st1)
    ensures ParseStatement(st) == (Some(ReturnStatement(ReturnTok, Some(e))), SkipSemicolon(st1))
  {
  }

  lemma ExprStep(st: PState, e: Expression, st1: PState)
    requires Cur(st).tokenType != LetToken && Cur(st).tokenType != ReturnToken
    requires ParseExpression(st, Lowest) == (Some(e), st1)
    ensures ParseStatement(st) == (Some(ExpressionStatement(Cur(st), Some(e))), SkipSemicolon(st1))
  {
  }

  /** The optional `;` after a value whose last token is at `k`. */
  lemma SkipAt(st: PState, k: nat, semi: bool, last: nat)
    requires SemiAt(st.toks, k, semi, last)
    ensures SkipSemicolon(At(st, k)) == At(st, last)
  {
    Positions(st, k, k + 1);
  }

  lemma LetAt(st: PState, j: nat, name: string, v: Src, semi: bool, k: nat, last: nat)
    requires TokenAt(st.toks, j) == LetTok && TokenAt(st.toks, j + 1) == Token(TokenType.Identifier, name)
    requires TokenAt(st.toks, j + 2) == AssignTok
    requires ValueAt(st.toks, j + 3, v, k) && SemiAt(st.toks, k, semi, last)
    ensures ParseStatement(At(st, j)) == (Some(ToStatement(LetSrc(name, v, semi))), At(st, last))
  {
    ParseSpelled(st, j + 3, v, Lowest, k);
    LetPositions(st, j, name, ToAst(v), semi, k, last);
  }

  lemma LetPositions(st: PState, j: nat, name: string, e: Expression, semi: bool, k: nat, last: nat)
    requires TokenAt(st.toks, j) == LetTok && TokenAt(st.toks, j + 1) == Token(TokenType.Identifier, name)
    requires TokenAt(st.toks, j + 2) == AssignTok
    requires ParseExpression(At(st, j + 3), Lowest) == (Some(e), At(st, k)) && SemiAt(st.toks, k, semi, last)
    ensures ParseStatement(At(st, j))
            == (Some(LetStatement(LetTok, Ast.Identifier(Token(TokenType.Identifier, name), name), Some(e))), At(st, last))
  {
    Positions(st, j, j + 1);
    Positions(st, j + 1, j + 2);
    Positions(st, j + 2, j + 3);
    SkipAt(st, k, semi, last);
    LetStep(At(st, j), name, e, At(st, k));
  }

  lemma ReturnAt(st: PState, j: nat, v: Src, semi: bool, k: nat, last: nat)
    requires TokenAt(st.toks, j) == ReturnTok
    requires ValueAt(st.toks, j + 1, v, k) && SemiAt(st.toks, k, semi, last)
    ensures ParseStatement(At(st, j)) == (Some(ToStatement(ReturnSrc(v, semi))), At(st, last))
  {
    ParseSpelled(st, j + 1, v, Lowest, k);
    ReturnPositions(st, j, ToAst(v), semi, k, last);
  }

  lemma ReturnPositions(st: PState, j: nat, e: Expression, semi: bool, k: nat, last: nat)
    requires TokenAt(st.toks, j) == ReturnTok
    requires ParseExpression(At(st, j + 1), Lowest) == (Some(e), At(st, k)) && SemiAt(st.toks, k, semi, last)
    ensures ParseStatement(At(st, j)) == (Some(ReturnStatement(ReturnTok, Some(e))), At(st, last))
  {
    Positions(st, j, j + 1);
    SkipAt(st, k, semi, last);
    ReturnStep(At(st, j), e, At(st, k));
  }

  lemma ExprAt(st: PState, j: nat, v: Src, semi: bool, k: nat, last: nat)
    requires TokenAt(st.toks, j) == First(v) && First(v).tokenType != LetToken && First(v).tokenType != ReturnToken
    requires ValueAt(st.toks, j, v, k) && SemiAt(st.toks, k, semi, last)
    ensures ParseStatement(At(st, j)) == (Some(ToStatement(ExprSrc(v, semi))), At(st, last))
  {
    ParseSpelled(st, j, v, Lowest, k);
    ExprPositions(st, j, ToAst(v), semi, k, last);
  }

  lemma ExprPositions(st: PState, j: nat, e: Expression, semi: bool, k: nat, last: nat)
    requires TokenAt(st.toks, j).tokenType != LetToken && TokenAt(st.toks, j).tokenType != ReturnToken
    requires ParseExpression(At(st, j), Lowest) == (Some(e), At(st, k)) && SemiAt(st.toks, k, semi, last)
    ensures ParseStatement(At(st, j)) == (Some(ExpressionStatement(TokenAt(st.toks, j), Some(e))), At(st, last))
  {
    Positions(st, j, j + 1);
    SkipAt(st, k, semi, last);
    ExprStep(At(st, j), e, At(st, k));
  }

  /** A statement spelled from `j` to `last` parses as its node and leaves `last` current. */
  lemma StatementParses(st: PState, j: nat, p: Stmt, last: nat)
    requires StmtLayout(st.toks, j, p, last)
    ensures ParseStatement(At(st, j)) == (Some(ToStatement(p)), At(st, last))
  {
    StmtTokensNotEmpty(p);
    var k := j + |Header(p)| + Width(p.value) - 1;
    StmtParts(st.toks, j, p, k, last);
    FirstKinds(p.value);
    match p
    case LetSrc(name, v, semi) => LetAt(st, j, name, v, semi, k, last);
    case ReturnSrc(v, semi) => ReturnAt(st, j, v, semi, k, last);
    case ExprSrc(v, semi) => ExprAt(st, j, v, semi, k, last);
  }

  // ---------------------------------------------------------------------------------------
  // The statement loop

  /** One turn of `parseProgram`'s loop: a statement that parses, then the token after it. */
  lemma LoopTurn(st: PState, j: nat, s: Statement, last: nat, acc: seq<Statement>)
    requires TokenAt(st.toks, j).tokenType != Eof
    requires ParseStatement(At(st, j)) == (Some(s), At(st, last))
    ensures ProgramLoop(At(st, j), acc) == ProgramLoop(At(st, last + 1), acc + [s])
  {
    Positions(st, j, j + 1);
    Positions(st, last, last + 1);
  }

  /** One turn of the loop on a statement spelled from `j` to `last`. */
  lemma StatementTurn(st: PState, j: nat, p: Stmt, last: nat, acc: seq<Statement>)
    requires StmtLayout(st.toks, j, p, last) && TokenAt(st.toks, j).tokenType != Eof
    ensures ProgramLoop(At(st, j), acc) == ProgramLoop(At(st, last + 1), acc + [ToStatement(p)])
  {
    StatementParses(st, j, p, last);
    LoopTurn(st, j, ToStatement(p), last, acc);
  }

  lemma AppendCons<T>(a: seq<T>, x: T, b: seq<T>)
    ensures a + [x] + b == a + ([x] + b)
  {
  }

  /** The stream holds the tokens of the well-formed statements `ps` from `j` to its end. */
  predicate ProgramAt(toks: seq<Token>, j: nat, ps: seq<Stmt>) {
    ProgramOk(ps) && Holds(toks, j, ProgramTokens(ps)) && j + |ProgramTokens(ps)| == |toks|
  }

  /** The first statement of a program spelled from `j`, up to `last`, and the rest after it. */
  lemma FirstStatement(toks: seq<Token>, j: nat, ps: seq<Stmt>, last: nat)
    requires ProgramAt(toks, j, ps) && ps != [] && last + 1 == j + |StmtTokens(ps[0])|
    ensures StmtLayout(toks, j, ps[0], last) && ProgramAt(toks, last + 1, ps[1..])
    ensures TokenAt(toks, j).tokenType != Eof
  {
    var p, rest := ps[0], ps[1..];
    assert ProgramTokens(ps) == StmtTokens(p) + ProgramTokens(rest);
    HoldsSplit(toks, j, StmtTokens(p), ProgramTokens(rest), last + 1);
    FollowedBy(toks, j, ps, last);
    OpeningKinds(p);
    HoldsOpening(toks, j, ps);
  }

  /** The token after the first statement ends the loop when that statement has no `;`. */
  lemma FollowedBy(toks: seq<Token>, j: nat, ps: seq<Stmt>, last: nat)
    requires ps != [] && ProgramOk(ps) && Holds(toks, last + 1, ProgramTokens(ps[1..]))
    requires last + 1 + |ProgramTokens(ps[1..])| == |toks|
    ensures !ps[0].semi ==> StopsBefore(TokenAt(toks, last + 1), Rank(Lowest))
    ensures TokenAt(toks, last + 1).tokenType != Semicolon
  {
    var rest := ps[1..];
    NextOpening(toks, last + 1, rest);
    if rest != [] {
      OpeningKinds(rest[0]);
    }
  }

  /** The loop's turn on the first statement of a program spelled from `j`. */
  lemma FirstTurn(st: PState, j: nat, ps: seq<Stmt>, last: nat, acc: seq<Statement>)
    requires ProgramAt(st.toks, j, ps) && ps != [] && last + 1 == j + |StmtTokens(ps[0])|
    ensures ProgramAt(st.toks, last + 1, ps[1..])
    ensures ProgramLoop(At(st, j), acc) == ProgramLoop(At(st, last + 1), acc + [ToStatement(ps[0])])
  {
    FirstStatement(st.toks, j, ps, last);
    StatementTurn(st, j, ps[0], last, acc);
  }

  /** The statement loop over a stream holding the tokens of `ps` from `j` on to its end. */
  lemma {:induction false} ProgramLoopParses(st: PState, j: nat, ps: seq<Stmt>, acc: seq<Statement>)
    requires ProgramAt(st.toks, j, ps)
    ensures ProgramLoop(At(st, j), acc) == (acc + ToStatements(ps), At(st, |st.toks|))
    decreases |ps|
  {
    if ps == [] {
      assert acc + ToStatements(ps) == acc;
    } else {
      var last := FirstEnd(st.toks, j, ps);
      ProgramLoopParses(st, last + 1, ps[1..], acc + [ToStatement(ps[0])]);
      LoopAfterFirst(st, j, ps, last, acc);
    }
  }

  /** Where the first statement of a program spelled from `j` ends, and the rest after it. */
  lemma FirstEnd(toks: seq<Token>, j: nat, ps: seq<Stmt>) returns (last: nat)
    requires ProgramAt(toks, j, ps) && ps != []
    ensures last + 1 == j + |StmtTokens(ps[0])| && ProgramAt(toks, last + 1, ps[1..])
  {
    StmtTokensNotEmpty(ps[0]);
    last := j + |StmtTokens(ps[0])| - 1;
    FirstStatement(toks, j, ps, last);
  }

  /** The loop over a whole program, given the loop over all but its first statement. */
  lemma LoopAfterFirst(st: PState, j: nat, ps: seq<Stmt>, last: nat, acc: seq<Statement>)
    requires ProgramAt(st.toks, j, ps) && ps != [] && last + 1 == j + |StmtTokens(ps[0])|
    requires ProgramLoop(At(st, last + 1), acc + [ToStatement(ps[0])])
             == (acc + [ToStatement(ps[0])] + ToStatements(ps[1..]), At(st, |st.toks|))
    ensures ProgramLoop(At(st, j), acc) == (acc + ToStatements(ps), At(st, |st.toks|))
  {
    FirstTurn(st, j, ps, last, acc);
    AppendCons(acc, ToStatement(ps[0]), ToStatements(ps[1..]));
  }

  /** What follows a statement: the next statement's opening token, or eof at the end. */
  lemma NextOpening(toks: seq<Token>, i: nat, ps: seq<Stmt>)
    requires Holds(toks, i, ProgramTokens(ps)) && i + |ProgramTokens(ps)| == |toks|
    ensures ps == [] ==> TokenAt(toks, i) == EofToken
    ensures ps != [] ==> TokenAt(toks, i) == Opening(ps[0])
  {
    if ps != [] {
      HoldsOpening(toks, i, ps);
    }
  }

  /**
   * Round trip for programs: the tokens of well-formed statements parse into exactly those
   * statements, in order, with no error, and parsing ends on the eof after the last token.
   */
  lemma ParsesBack(ps: seq<Stmt>)
    requires ProgramOk(ps)
    ensures var toks := ProgramTokens(ps);
            ParseProgram(PState(toks, 0, [])) == (Program(ToStatements(ps)), PState(toks, |toks|, []))
  {
    var toks := ProgramTokens(ps);
    var st := PState(toks, 0, []);
    assert toks[0..|toks|] == toks;
    HoldsSlice(toks, 0, toks);
    ProgramLoopParses(st, 0, ps, []);
    assert At(st, 0) == st && At(st, |toks|) == PState(toks, |toks|, []);
    assert [] + ToStatements(ps) == ToStatements(ps);
  }

  // ---------------------------------------------------------------------------------------
  // Recovery after a malformed statement

  /** `parseLetStatement` gives up when the token after `let` is not an identifier. */
  lemma BadLetStep(st: PState)
    requires Cur(st) == LetTok && PeekTok(st).tokenType != TokenType.Identifier
    ensures ParseStatement(st) == (None, PeekError(st, TokenType.Identifier))
  {
  }

  /** A token with no prefix parse function makes an expression statement with no value. */
  lemma NoPrefixStep(st: PState)
    requires PrefixFn(Cur(st).tokenType).None? && Cur(st).tokenType !in {LetToken, ReturnToken}
    requires PeekTok(st).tokenType != Semicolon
    ensures ParseStatement(st)
            == (Some(ExpressionStatement(Cur(st), None)), st.(errors := st.errors + [NoPrefixMessage(Cur(st).tokenType)]))
  {
    var st1 := st.(errors := st.errors + [NoPrefixMessage(Cur(st).tokenType)]);
    NoPrefixValue(st, Lowest);
    ValuelessStep(st, st1);
    assert SkipSemicolon(st1) == st1;
  }

  /** `parseExpression` records the missing prefix function and returns nothing. */
  lemma NoPrefixValue(st: PState, precedence: Precedence)
    requires PrefixFn(Cur(st).tokenType).None?
    ensures ParseExpression(st, precedence) == (None, st.(errors := st.errors + [NoPrefixMessage(Cur(st).tokenType)]))
  {
  }

  lemma ValuelessStep(st: PState, st1: PState)
    requires Cur(st).tokenType != LetToken && Cur(st).tokenType != ReturnToken
    requires ParseExpression(st, Lowest) == (None, st1)
    ensures ParseStatement(st) == (Some(ExpressionStatement(Cur(st), None)), SkipSemicolon(st1))
  {
  }

  /** One turn of the loop on a statement that fails to parse: it is dropped. */
  lemma LoopDrop(st: PState, st1: PState, acc: seq<Statement>)
    requires Cur(st).tokenType != Eof && ParseStatement(st) == (None, st1)
    ensures ProgramLoop(st, acc) == ProgramLoop(Advance(st1), acc)
  {
  }

  /** One turn of the loop on a statement that parses. */
  lemma LoopKeep(st: PState, s: Statement, st1: PState, acc: seq<Statement>)
    requires Cur(st).tokenType != Eof && ParseStatement(st) == (Some(s), st1)
    ensures ProgramLoop(st, acc) == ProgramLoop(Advance(st1), acc + [s])
  {
  }

  /**
   * Recovery after a malformed statement: a `let` whose next token is not an identifier
   * records the peek error, the token after `let` is then parsed as an expression statement
   * with no value (it has no prefix parse function, which records a second error), and the
   * well-formed statements that follow still parse into exactly themselves.
   */
  lemma RecoversAfterBadLet(t: Token, ps: seq<Stmt>)
    requires PrefixFn(t.tokenType).None? && t.tokenType !in {LetToken, ReturnToken, Eof}
    requires ProgramOk(ps)
    ensures var toks := [LetTok, t] + ProgramTokens(ps);
            var errors := [PeekErrorMessage(TokenType.Identifier, t.tokenType), NoPrefixMessage(t.tokenType)];
            ParseProgram(PState(toks, 0, []))
            == (Program([ExpressionStatement(t, None)] + ToStatements(ps)), PState(toks, |toks|, errors))
  {
    var toks := [LetTok, t] + ProgramTokens(ps);
    var e1 := PeekErrorMessage(TokenType.Identifier, t.tokenType);
    var e2 := NoPrefixMessage(t.tokenType);
    RecoveryLoop(t, ps, toks, e1, e2);
  }

  /** The statement loop of `RecoversAfterBadLet`, over a stream and messages given by name. */
  lemma RecoveryLoop(t: Token, ps: seq<Stmt>, toks: seq<Token>, e1: string, e2: string)
    requires PrefixFn(t.tokenType).None? && t.tokenType !in {LetToken, ReturnToken, Eof}
    requires ProgramOk(ps) && toks == [LetTok, t] + ProgramTokens(ps)
    requires e1 == PeekErrorMessage(TokenType.Identifier, t.tokenType) && e2 == NoPrefixMessage(t.tokenType)
    ensures ProgramLoop(PState(toks, 0, []), [])
            == ([ExpressionStatement(t, None)] + ToStatements(ps), PState(toks, |toks|, [e1, e2]))
  {
    var st2 := PState(toks, 2, [e1, e2]);
    RecoveryStream(t, ps, toks);
    RecoveryTurns(t, toks, e1, e2);
    ProgramLoopParses(st2, 2, ps, [ExpressionStatement(t, None)]);
    assert At(st2, 2) == st2 && At(st2, |toks|) == PState(toks, |toks|, [e1, e2]);
  }

  /** The stream of `RecoversAfterBadLet`: `let`, `t`, then the program from position 2. */
  lemma RecoveryStream(t: Token, ps: seq<Stmt>, toks: seq<Token>)
    requires ProgramOk(ps) && toks == [LetTok, t] + ProgramTokens(ps)
    ensures |toks| >= 2 && toks[0] == LetTok && toks[1] == t && TokenAt(toks, 2).tokenType != Semicolon
    ensures ProgramAt(toks, 2, ps)
  {
    var prog := ProgramTokens(ps);
    assert toks[2..2 + |prog|] == prog;
    HoldsSlice(toks, 2, prog);
    NextOpening(toks, 2, ps);
    if ps != [] {
      OpeningKinds(ps[0]);
    }
  }

  /** The loop's first two turns: the `let` is dropped, the token after it kept valueless. */
  lemma RecoveryTurns(t: Token, toks: seq<Token>, e1: string, e2: string)
    requires PrefixFn(t.tokenType).None? && t.tokenType !in {LetToken, ReturnToken, Eof}
    requires |toks| >= 2 && toks[0] == LetTok && toks[1] == t && TokenAt(toks, 2).tokenType != Semicolon
    requires e1 == PeekErrorMessage(TokenType.Identifier, t.tokenType) && e2 == NoPrefixMessage(t.tokenType)
    ensures ProgramLoop(PState(toks, 0, []), [])
            == ProgramLoop(PState(toks, 2, [e1, e2]), [ExpressionStatement(t, None)])
  {
    var st0 := PState(toks, 0, []);
    var st1 := PState(toks, 1, [e1]);
    BadLetStep(st0);
    LoopDrop(st0, PeekError(st0, TokenType.Identifier), []);
    assert Advance(PeekError(st0, TokenType.Identifier)) == st1;
    assert Cur(st1) == t && st1.errors + [e2] == [e1, e2];
    NoPrefixStep(st1);
    var s := ExpressionStatement(t, None);
    LoopKeep(st1, s, PState(toks, 1, [e1, e2]), []);
    assert Advance(PState(toks, 1, [e1, e2])) == PState(toks, 2, [e1, e2]) && [] + [s] == [s];
  }


}
