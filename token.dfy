/** Lexical categories of the language and the keyword table (Sources/token/Token.swift). */
module Tokens {

  /** The closed set of token kinds; the comments give the raw value of each kind in the source. */
  datatype TokenType =
    | Illegal | Eof
    | Identifier | Int
    | Assign     // "="
    | Plus       // "+"
    | Minus      // "-"
    | Bang       // "!"
    | Asterisk   // "*"
    | Slash      // "/"
    | Lt         // "<"
    | Gt         // ">"
    | LtEq       // "<="
    | GtEq       // ">="
    | Eq         // "=="
    | NotEq      // "!="
    | LParen | RParen | LBrace | RBrace
    | Comma | Semicolon
    | FnToken | LetToken | IfToken | ElseToken | ReturnToken | TrueToken | FalseToken

  datatype Token = Token(tokenType: TokenType, literal: string)

  /** The kinds the keyword table maps to. */
  predicate IsKeywordKind(t: TokenType) {
    t in {FnToken, LetToken, IfToken, ElseToken, ReturnToken, TrueToken, FalseToken}
  }

  /** The static keyword table. */
  function Keywords(): (m: map<string, TokenType>)
    ensures forall k :: k in m ==> IsKeywordKind(m[k])
  {
    map[
      "fn" := FnToken,
      "let" := LetToken,
      "if" := IfToken,
      "else" := ElseToken,
      "return" := ReturnToken,
      "true" := TrueToken,
      "false" := FalseToken
    ]
  }

  /** The kind of an identifier-shaped word: its keyword kind when it is exactly a keyword, else Identifier. */
  function LookupIdentifier(id: string): (t: TokenType)
    ensures id in Keywords() ==> t == Keywords()[id]
    ensures id !in Keywords() ==> t == Identifier
    ensures t == Identifier || IsKeywordKind(t)
  {
    if id in Keywords() then Keywords()[id] else Identifier
  }

  /** How Swift renders a kind inside string interpolation: the name of the enum case. */
  function KindName(t: TokenType): string {
    match t
    case Illegal => "illegal"
    case Eof => "eof"
    case Identifier => "identifier"
    case Int => "int"
    case Assign => "assign"
    case Plus => "plus"
    case Minus => "minus"
    case Bang => "bang"
    case Asterisk => "asterisk"
    case Slash => "slash"
    case Lt => "lt"
    case Gt => "gt"
    case LtEq => "ltEq"
    case GtEq => "gtEq"
    case Eq => "eq"
    case NotEq => "notEq"
    case LParen => "lParen"
    case RParen => "rParen"
    case LBrace => "lBrace"
    case RBrace => "rBrace"
    case Comma => "comma"
    case Semicolon => "semicolon"
    case FnToken => "fnToken"
    case LetToken => "letToken"
    case IfToken => "ifToken"
    case ElseToken => "elseToken"
    case ReturnToken => "returnToken"
    case TrueToken => "trueToken"
    case FalseToken => "falseToken"
  }

  /** The keyword spelling of a keyword kind (the inverse of the keyword table). */
  function KeywordText(t: TokenType): string
    requires IsKeywordKind(t)
  {
    match t
    case FnToken => "fn"
    case LetToken => "let"
    case IfToken => "if"
    case ElseToken => "else"
    case ReturnToken => "return"
    case TrueToken => "true"
    case FalseToken => "false"
  }

  /** Each keyword word maps to its own kind, and no two keywords share a kind. */
  lemma KeywordsDistinct()
    ensures LookupIdentifier("fn") == FnToken && LookupIdentifier("let") == LetToken
    ensures LookupIdentifier("if") == IfToken && LookupIdentifier("else") == ElseToken
    ensures LookupIdentifier("return") == ReturnToken
    ensures LookupIdentifier("true") == TrueToken && LookupIdentifier("false") == FalseToken
    ensures forall k :: k in Keywords() ==> KeywordText(Keywords()[k]) == k
    ensures forall a, b :: a in Keywords() && b in Keywords() && Keywords()[a] == Keywords()[b] ==> a == b
  {
    var m := Keywords();
    assert m.Keys == {"fn", "let", "if", "else", "return", "true", "false"};
    forall k | k in m ensures KeywordText(m[k]) == k {
    }
  }

  /** A word is an identifier exactly when it is none of the seven keywords. */
  lemma LookupIdentifierIsIdentifier(id: string)
    ensures LookupIdentifier(id) == Identifier <==>
            id !in {"fn", "let", "if", "else", "return", "true", "false"}
  {
    assert Keywords().Keys == {"fn", "let", "if", "else", "return", "true", "false"};
  }

  /** Keyword matching is exact and case-sensitive. */
  lemma KeywordsCaseSensitive()
    ensures LookupIdentifier("Let") == Identifier
    ensures LookupIdentifier("TRUE") == Identifier
    ensures LookupIdentifier("lets") == Identifier
    ensures LookupIdentifier("") == Identifier
  {
    LookupIdentifierIsIdentifier("Let");
    LookupIdentifierIsIdentifier("TRUE");
    LookupIdentifierIsIdentifier("lets");
    LookupIdentifierIsIdentifier("");
  }
}
