/**
 * The parser object of Sources/parser/Parser.swift: a lexer, the two-token window
 * `currentToken` / `peekToken`, and an `errors` list that grows in place. Each method is
 * proved to compute exactly what the function of the same name in `ParserSpec` computes
 * from the parser state before the call, where that state is the token stream the lexer
 * will produce (`toks`), the position of `currentToken` in it and the error list.
 */
module Parsing {
  import opened Wrappers
  import opened Tokens
  import opened LexerSpec
  import opened Lexing
  import opened Ast
  import opened ParserSpec
  import opened Numerals

  class Parser {
    const lexer: Lexer
    var currentToken: Token
    var peekToken: Token
    var errors: seq<string>
    /** Every token the lexer produces from the point where the parser was built. */
    ghost const toks: seq<Token>
    /** The input the lexer has left before it produces each token of `toks`, and after the last. */
    ghost const rests: seq<string>
    /** Position of `currentToken` in `toks`. */
    ghost var idx: nat

    /**
     * The window holds tokens `idx` and `idx + 1` of the stream, and the lexer, having
     * produced `idx + 2` tokens, is in the state that follows them.
     */
    ghost predicate Valid()
      reads this, lexer
    {
      && lexer.Valid()
      && Window(rests, toks, idx, currentToken, peekToken, lexer.Rest())
    }

    /** The parser state as `ParserSpec` sees it. */
    ghost function St(): PState
      reads this
    {
      PState(toks, idx, errors)
    }

    /** `init(lexer:)`: fill the window with the lexer's first two tokens. */
    constructor (lexer: Lexer)
      requires lexer.Valid()
      modifies lexer
      ensures Valid() && this.lexer == lexer
      ensures toks == Lex(old(lexer.Rest()), Stays) && idx == 0 && errors == []
    {
      ghost var rest := lexer.Rest();
      var first := lexer.NextToken();
      ghost var rest1 := lexer.Rest();
      var second := lexer.NextToken();
      ghost var ts, rs := OpeningWindow(rest, first, rest1, second, lexer.Rest());
      this.lexer := lexer;
      currentToken := first;
      peekToken := second;
      errors := [];
      toks := ts;
      rests := rs;
      idx := 0;
    }

    /** `nextToken()`: shift the window one token along the stream. */
    method NextToken()
      requires Valid()
      modifies this, lexer
      ensures Valid() && St() == Advance(old(St()))
    {
      ghost var rest := lexer.Rest();
      currentToken := peekToken;
      peekToken := lexer.NextToken();
      StateStep(rests, toks, idx + 2, rest, peekToken, lexer.Rest());
      idx := idx + 1;
    }

    /** `peekError(t)`. */
    method PeekError(t: TokenType)
      requires Valid()
      modifies this
      ensures Valid() && St() == ParserSpec.PeekError(old(St()), t)
    {
      errors := errors + [PeekErrorMessage(t, peekToken.tokenType)];
    }

    /** `noPrefixParseFnError(t)`. */
    method NoPrefixParseFnError(t: TokenType)
      requires Valid()
      modifies this
      ensures Valid() && St() == old(St()).(errors := old(errors) + [NoPrefixMessage(t)])
    {
      errors := errors + [NoPrefixMessage(t)];
    }

    /** `expectPeek(t)`. */
    method ExpectPeek(t: TokenType) returns (ok: bool)
      requires Valid()
      modifies this, lexer
      ensures Valid() && (ok, St()) == ParserSpec.ExpectPeek(old(St()), t)
    {
      if peekToken.tokenType == t {
        NextToken();
        return true;
      } else {
        PeekError(t);
        return false;
      }
    }

    /** `peekPrecedence()`. */
    method PeekPrecedence() returns (p: int)
      requires Valid()
      ensures p == Rank(ParserSpec.PeekPrecedence(St()))
    {
      p := Rank(PrecedenceOf(peekToken.tokenType));
    }

    /** `currentPrecedence()`. */
    method CurrentPrecedence() returns (p: int)
      requires Valid()
      ensures p == Rank(ParserSpec.CurrentPrecedence(St()))
    {
      p := Rank(PrecedenceOf(currentToken.tokenType));
    }

    /** `parseProgram()`: one statement per round until the current token is eof. */
    method ParseProgram() returns (program: Program)
      requires Valid()
      modifies this, lexer
      ensures Valid() && (program, St()) == ParserSpec.ParseProgram(old(St()))
    {
      ghost var st0 := St();
      var statements: seq<Statement> := [];
      while currentToken.tokenType != Eof
        invariant Valid() && St().toks == st0.toks
        invariant ProgramLoop(St(), statements) == ProgramLoop(st0, [])
        decreases Remaining(St())
      {
        var statement := ParseStatement();
        if statement.Some? {
          statements := statements + [statement.value];
        }
        NextToken();
      }
      program := Program(statements);
    }

    /** `parseStatement()`. */
    method ParseStatement() returns (r: Option<Statement>)
      requires Valid()
      modifies this, lexer
      ensures Valid() && (r, St()) == ParserSpec.ParseStatement(old(St()))
      decreases Remaining(St()), 5
    {
      if currentToken.tokenType == LetToken {
        r := ParseLetStatement();
      } else if currentToken.tokenType == ReturnToken {
        r := ParseReturnStatement();
      } else {
        r := ParseExpressionStatement();
      }
    }

    /** The optional `;` after a statement. */
    method SkipSemicolon()
      requires Valid()
      modifies this, lexer
      ensures Valid() && St() == ParserSpec.SkipSemicolon(old(St()))
    {
      if peekToken.tokenType == Semicolon {
        NextToken();
      }
    }

    /** `parseLetStatement()`. */
    method ParseLetStatement() returns (r: Option<Statement>)
      requires Valid()
      modifies this, lexer
      ensures Valid() && (r, St()) == ParserSpec.ParseLetStatement(old(St()))
      decreases Remaining(St()), 4
    {
      var token := currentToken;
      var ok := ExpectPeek(TokenType.Identifier);
      if !ok {
        return None;
      }
      var name := Ast.Identifier(currentToken, currentToken.literal);
      ok := ExpectPeek(Assign);
      if !ok {
        return None;
      }
      NextToken();
      var value := ParseExpression(Lowest);
      SkipSemicolon();
      return Some(LetStatement(token, name, value));
    }

    /** `parseReturnStatement()`. */
    method ParseReturnStatement() returns (r: Option<Statement>)
      requires Valid() && Cur(St()).tokenType == ReturnToken
      modifies this, lexer
      ensures Valid() && (r, St()) == ParserSpec.ParseReturnStatement(old(St()))
      decreases Remaining(St()), 4
    {
      var token := currentToken;
      NextToken();
      var value := ParseExpression(Lowest);
      SkipSemicolon();
      return Some(ReturnStatement(token, value));
    }

    /** `parseExpressionStatment()`. */
    method ParseExpressionStatement() returns (r: Option<Statement>)
      requires Valid()
      modifies this, lexer
      ensures Valid() && (r, St()) == ParserSpec.ParseExpressionStatement(old(St()))
      decreases Remaining(St()), 4
    {
      var token := currentToken;
      var value := ParseExpression(Lowest);
      SkipSemicolon();
      return Some(ExpressionStatement(token, value));
    }

    /** `parseExpression(precedence:)`: the prefix function, then fold in infix operators. */
    method ParseExpression(precedence: Precedence) returns (left: Option<Expression>)
      requires Valid()
      modifies this, lexer
      ensures Valid() && (left, St()) == ParserSpec.ParseExpression(old(St()), precedence)
      decreases Remaining(St()), 3
    {
      var prefix := PrefixFn(currentToken.tokenType);
      if prefix.None? {
        NoPrefixParseFnError(currentToken.tokenType);
        return None;
      }
      left := CallPrefix(prefix.value);
      left := InfixOperators(precedence, left);
    }

    /** The `while` loop of `parseExpression`, which folds infix operators into `left`. */
    method InfixOperators(precedence: Precedence, left0: Option<Expression>) returns (left: Option<Expression>)
      requires Valid()
      modifies this, lexer
      ensures Valid() && (left, St()) == InfixLoop(old(St()), precedence, left0)
      decreases Remaining(St()), 2
    {
      left := left0;
      while true
        invariant Valid() && InfixLoop(St(), precedence, left) == InfixLoop(old(St()), precedence, left0)
        decreases Remaining(St())
      {
        ghost var s, l := St(), left;
        assert PeekTok(s) == peekToken;
        var p := PeekPrecedence();
        if !(peekToken.tokenType != Semicolon && Rank(precedence) < p) {
          InfixLoopStops(s, precedence, l);
          break;
        }
        if !InfixFn(peekToken.tokenType) {
          InfixLoopStops(s, precedence, l);
          return left;
        }
        assert s.i + 1 < |s.toks|;
        InfixLoopTurns(s, precedence, l);
        left := NextInfix(left);
      }
    }

    /** One turn of that loop: move onto the operator and parse the infix expression it starts. */
    method NextInfix(left: Option<Expression>) returns (r: Option<Expression>)
      requires Valid() && InfixFn(PeekTok(St()).tokenType)
      modifies this, lexer
      ensures Valid() && (r, St()) == ParserSpec.ParseInfixExpression(Advance(old(St())), left)
      decreases Remaining(St()), 1
    {
      NextToken();
      r := ParseInfixExpression(left);
    }

    /** `prefix()`: call the prefix function registered for the current token. */
    method CallPrefix(k: PrefixKind) returns (r: Option<Expression>)
      requires Valid() && PrefixFn(Cur(St()).tokenType) == Some(k)
      modifies this, lexer
      ensures Valid() && (r, St()) == ApplyPrefix(old(St()), k)
      decreases Remaining(St()), 2
    {
      match k
      case ParseIdentifierFn => r := Some(IdentifierExpression(Ast.Identifier(currentToken, currentToken.literal)));
      case ParseIntegerLiteralFn => r := ParseIntegerLiteral();
      case ParseBooleanFn => r := Some(BooleanExpression(currentToken, currentToken.tokenType == TrueToken));
      case ParsePrefixExpressionFn => r := ParsePrefixExpression();
      case ParseGroupedExpressionFn => r := ParseGroupedExpression();
      case ParseIfExpressionFn => r := ParseIfExpression();
      case ParseFunctionLiteralFn => r := ParseFunctionLiteral();
    }

    /** `parseIntegerLiteral()`. */
    method ParseIntegerLiteral() returns (r: Option<Expression>)
      requires Valid()
      modifies this
      ensures Valid() && (r, St()) == ParserSpec.ParseIntegerLiteral(old(St()))
    {
      var token := currentToken;
      var value := ParseInt(currentToken.literal);
      if value.None? {
        errors := errors + [IntErrorMessage(currentToken.literal)];
        return None;
      }
      return Some(IntegerLiteral(token, value.value));
    }

    /** `parsePrefixExpression()`. */
    method ParsePrefixExpression() returns (r: Option<Expression>)
      requires Valid() && PrefixFn(Cur(St()).tokenType) == Some(ParsePrefixExpressionFn)
      modifies this, lexer
      ensures Valid() && (r, St()) == ParserSpec.ParsePrefixExpression(old(St()))
      decreases Remaining(St()), 1
    {
      var token := currentToken;
      var op := currentToken.literal;
      NextToken();
      var right := ParseExpression(Prefix);
      return Some(PrefixExpression(token, op, right));
    }

    /** `parseInfixExpression(left:)`. */
    method ParseInfixExpression(left: Option<Expression>) returns (r: Option<Expression>)
      requires Valid() && InfixFn(Cur(St()).tokenType)
      modifies this, lexer
      ensures Valid() && (r, St()) == ParserSpec.ParseInfixExpression(old(St()), left)
      decreases Remaining(St()), 1
    {
      var token := currentToken;
      var op := currentToken.literal;
      var precedence := CurrentPrecedence();
      NextToken();
      var p := FromRank(precedence);
      var right := ParseExpression(if p.Some? then p.value else Lowest);
      return Some(InfixExpression(token, left, op, right));
    }

    /** `parseGroupedExpression()`. */
    method ParseGroupedExpression() returns (r: Option<Expression>)
      requires Valid() && Cur(St()).tokenType == LParen
      modifies this, lexer
      ensures Valid() && (r, St()) == ParserSpec.ParseGroupedExpression(old(St()))
      decreases Remaining(St()), 1
    {
      NextToken();
      var exp := ParseExpression(Lowest);
      var ok := ExpectPeek(RParen);
      if !ok {
        return None;
      }
      return exp;
    }

    /** `parseIfExpression()`, up to the `)` after the condition. */
    method ParseIfExpression() returns (r: Option<Expression>)
      requires Valid() && Cur(St()).tokenType == IfToken
      modifies this, lexer
      ensures Valid() && (r, St()) == ParserSpec.ParseIfExpression(old(St()))
      decreases Remaining(St()), 1
    {
      var token := currentToken;
      var ok := ExpectPeek(LParen);
      if !ok {
        return None;
      }
      NextToken();
      var condition := ParseExpression(Lowest);
      ok := ExpectPeek(RParen);
      if !ok {
        return None;
      }
      r := ParseIfBranches(token, condition);
    }

    /** The rest of `parseIfExpression()`: the braced consequence and the optional `else` branch. */
    method ParseIfBranches(token: Token, condition: Option<Expression>) returns (r: Option<Expression>)
      requires Valid()
      modifies this, lexer
      ensures Valid() && (r, St()) == ParserSpec.ParseIfBranches(old(St()), token, condition)
      decreases Remaining(St()), 3
    {
      var consequence := ParseBracedBlock();
      if consequence.None? {
        return None;
      }
      var ok, alternative := ParseElseBranch();
      if !ok {
        return None;
      }
      return Some(IfExpression(token, condition, consequence.value, alternative));
    }

    /** The `else` part of `parseIfExpression()`: `false` when `else` is not followed by `{`. */
    method ParseElseBranch() returns (ok: bool, alternative: Option<BlockStatement>)
      requires Valid()
      modifies this, lexer
      ensures Valid() && (ok, alternative, St()) == ParserSpec.ParseElseBranch(old(St()))
      decreases Remaining(St()), 2
    {
      if peekToken.tokenType != ElseToken {
        return true, None;
      }
      NextToken();
      alternative := ParseBracedBlock();
      ok := alternative.Some?;
    }

    /** `expectPeek(.lBrace)` and then `parseBlockStatement()`; `None` when the `{` is missing. */
    method ParseBracedBlock() returns (r: Option<BlockStatement>)
      requires Valid()
      modifies this, lexer
      ensures Valid() && (r, St()) == ParserSpec.ParseBracedBlock(old(St()))
      decreases Remaining(St()), 1
    {
      var ok := ExpectPeek(LBrace);
      if !ok {
        return None;
      }
      var block := ParseBlockStatement();
      return Some(block);
    }

    /** `parseBlockStatement()`: statements until `}` or eof. */
    method ParseBlockStatement() returns (block: BlockStatement)
      requires Valid() && Cur(St()).tokenType == LBrace
      modifies this, lexer
      ensures Valid() && (block, St()) == ParserSpec.ParseBlockStatement(old(St()))
      decreases Remaining(St()), 0
    {
      ghost var st0 := St();
      var token := currentToken;
      var statements: seq<Statement> := [];
      NextToken();
      ghost var st1 := St();
      while currentToken.tokenType != RBrace && currentToken.tokenType != Eof
        invariant Valid() && St().toks == st0.toks && St().i > st0.i
        invariant BlockLoop(St(), statements) == BlockLoop(st1, [])
        decreases Remaining(St())
      {
        var statement := ParseStatement();
        if statement.Some? {
          statements := statements + [statement.value];
        }
        NextToken();
      }
      return BlockStatement(token, statements);
    }

    /** `parseFunctionLiteral()`. */
    method ParseFunctionLiteral() returns (r: Option<Expression>)
      requires Valid() && Cur(St()).tokenType == FnToken
      modifies this, lexer
      ensures Valid() && (r, St()) == ParserSpec.ParseFunctionLiteral(old(St()))
      decreases Remaining(St()), 1
    {
      var token := currentToken;
      var ok := ExpectPeek(LParen);
      if !ok {
        return None;
      }
      var params := ParseFunctionParams();
      var body := ParseBracedBlock();
      if body.None? {
        return None;
      }
      return Some(FunctionLiteral(token, params, body.value));
    }

    /** `parseFunctionParams()`: `)` at once, or identifiers separated by commas and then `)`. */
    method ParseFunctionParams() returns (r: Option<seq<Ast.Identifier>>)
      requires Valid()
      modifies this, lexer
      ensures Valid() && (r, St()) == ParserSpec.ParseFunctionParams(old(St()))
    {
      if peekToken.tokenType == RParen {
        NextToken();
        return Some([]);
      }
      NextToken();
      r := MoreParams([Ast.Identifier(currentToken, currentToken.literal)]);
    }

    /** The `while` loop of `parseFunctionParams` and the closing `)`, after the identifiers `ids0`. */
    method MoreParams(ids0: seq<Ast.Identifier>) returns (r: Option<seq<Ast.Identifier>>)
      requires Valid()
      modifies this, lexer
      ensures Valid() && (r, St()) == ParamsLoop(old(St()), ids0)
    {
      var ids := ids0;
      while peekToken.tokenType == Comma
        invariant Valid() && ParamsLoop(St(), ids) == ParamsLoop(old(St()), ids0)
        decreases Remaining(St())
      {
        NextToken();
        NextToken();
        ids := ids + [Ast.Identifier(currentToken, currentToken.literal)];
      }
      var ok := ExpectPeek(RParen);
      if !ok {
        return None;
      }
      return Some(ids);
    }
  }

  /**
   * The stream `toks` runs through the states `rests`; the window holds tokens `k` and
   * `k + 1`, and `rest` is the state after `k + 2` tokens.
   */
  ghost predicate Window(rests: seq<string>, toks: seq<Token>, k: nat, current: Token, peek: Token, rest: string) {
    && Produces(rests, toks, Stays)
    && current == TokenAt(toks, k)
    && peek == TokenAt(toks, k + 1)
    && rest == StateAt(rests, toks, k + 2)
  }

  /**
   * The lexer's state after it has produced `k` tokens: `rests[k]` while `k` is within the
   * stream and the eof after it, and nothing left from then on.
   */
  ghost function StateAt(rests: seq<string>, toks: seq<Token>, k: nat): string
    requires |rests| == |toks| + 2
  {
    if k < |rests| then rests[k] else []
  }

  /** From the state after `k` tokens the lexer produces token `k` and moves to the state after `k + 1`. */
  lemma StateStep(rests: seq<string>, toks: seq<Token>, k: nat, rest: string, t: Token, rest': string)
    requires Produces(rests, toks, Stays)
    requires rest == StateAt(rests, toks, k) && (t, rest') == Scan(rest, Stays)
    ensures t == TokenAt(toks, k) && rest' == StateAt(rests, toks, k + 1)
  {
    if k <= |toks| {
      assert Scan(rests[k], Stays) == (TokenAt(toks, k), rests[k + 1]);
    } else {
      ScanAtEnd([], Stays);
    }
  }

  /** The lexer's first two calls from `rest` fill the window at the start of its stream. */
  lemma OpeningWindow(rest: string, first: Token, rest1: string, second: Token, rest2: string)
    returns (ts: seq<Token>, rs: seq<string>)
    requires Scan(rest, Stays) == (first, rest1) && Scan(rest1, Stays) == (second, rest2)
    ensures ts == Lex(rest, Stays) && Window(rs, ts, 0, first, second, rest2)
  {
    ts, rs := Lex(rest, Stays), States(rest, Stays);
    StatesProduce(rest, Stays);
    StateStep(rs, ts, 0, rest, first, rest1);
    StateStep(rs, ts, 1, rest1, second, rest2);
  }
}
