# ssi (Swift Monkey interpreter): a verified Dafny model of its core

`ssi` is a tree-walking interpreter for the Monkey language, written in Swift. Source text goes
through three stages:

- a hand-written **lexer** (`Lexer`) turns the text into `Token`s;
- a Pratt **parser** (`Parser`) builds a `Program` of statements and expressions, and collects
  error messages instead of stopping;
- an **evaluator** (`Evaluator`) reduces the tree to runtime `Object`s, using an `Env` of
  bindings.

In this version the evaluator handles integer and boolean literals, the prefix operators `!` and
`-`, and the integer operators `+ - * /`. Other node kinds evaluate to `nil`, and the
comparisons `< > == !=` are rejected as unknown operators.

The model follows the source file by file.

| Swift | Dafny | form |
|---|---|---|
| `Token.swift` | `token.dfy` (`Tokens`) | token kinds, keyword table, `lookupIdentifier` |
| `Lexer.swift` | `lexer.dfy` (`Lexing.Lexer`) | a class over the input, one method per lexer method |
| | `lexer_spec.dfy` (`LexerSpec`) | what one `nextToken` call does (`Scan`), the whole stream (`Lex`) and the laws of lexing |
| `AST.swift` | `ast.dfy` (`Ast`) | node datatypes, `tokenLiteral()` and `string()` |
| `Parser.swift` | `parser.dfy` (`Parsing.Parser`) | a class with `currentToken`, `peekToken` and `errors`, one method per parser method |
| | `parser_spec.dfy` (`ParserSpec`) | the same parser as functions over a token stream, a position and the error list |
| `Object.swift` | `object.dfy` (`Objects`) | the object variants, their tags and `inspect()` |
| `Env.swift` | `env.dfy` (`Environments.Env`) | a class with a mutable store and an optional outer environment |
| `Evaluator.swift` | `evaluator.dfy` (`Evaluation`) | `eval` as a function; `evalProgram` as a method with a loop |

The remaining files state and prove properties that span the stages:

- `numerals.dfy` covers `Int` range, decimal parsing (`Int(literal)`) and printing;
- `parser_laws.dfy` proves the Pratt parser correct on expression trees: the precedence table,
  the error cases, and the theorem that the tokens of an expression parse back into it;
- `program_laws.dfy` extends that round trip to programs of let, return and expression statements;
- `text_laws.dfy` proves that any whitespace layout of those tokens lexes back to them;
- `string_laws.dfy` covers `string()`, the fully bracketed rendering of an expression;
- `eval_laws.dfy` covers arithmetic evaluation;
- `pipeline.dfy` chains text → tokens → program → value;
- `lexer_tests.dfy` proves the multi-line lexer test, assembling its input line by line from
  tokens and whitespace and applying the layout round trip;
- `program_texts.dfy` and `eval_tests.dfy` carry the concrete inputs of the repository's tests
  through the whole pipeline.

Two deliberate representation choices:

- `Tokens.TokenType` mirrors the Swift enum case for case. `KindName` gives the case name,
  which is what string interpolation of a `TokenType` produces in Swift.
- Swift's `Int` is 64-bit and traps on overflow and on division by zero. The model uses
  unbounded integers. The predicates `InInt`, `Defined` and `RunDefined` spell out the inputs on
  which the Swift code does not trap, and the evaluator is specified only on those.

## Model

| member | source | states |
|---|---|---|
| Tokens.KindName | Sources/token/Token.swift:11-47 | the name of each token kind as string interpolation prints it (`illegal`, `eq`, `lParen`, …), used in the parser's error messages |
| Tokens.Keywords | Sources/token/Token.swift:49-57 | every entry of the keyword table maps to a keyword kind |
| Tokens.LookupIdentifier | Sources/token/Token.swift:59-62 | a keyword gets its table kind and any other word gets `identifier`; the result is always `identifier` or a keyword kind, never `illegal`, `eof`, `int`, an operator or a delimiter |
| Tokens.KeywordsDistinct | Sources/token/Token.swift:49-57 | `fn let if else return true false` each map to their own kind; the keyword spelling inverts the table, so no two keywords share a kind |
| Tokens.LookupIdentifierIsIdentifier | Sources/token/Token.swift:59-62 | the result is `identifier` exactly when the word is not one of the seven keywords (both directions) |
| Tokens.KeywordsCaseSensitive | Sources/token/Token.swift:49-62 | matching is exact and case-sensitive: `Let`, `TRUE`, `lets` and the empty word are identifiers |
| LexerSpec.IsWhitespace | Sources/lexer/Lexer.swift:117 | the four characters `skipWhitespace` skips: space, tab, newline and carriage return |
| LexerSpec.IsLetter | Sources/lexer/Lexer.swift:130-132 | the characters that start and continue an identifier: letters and `_` (ASCII letters only, see Left out) |
| LexerSpec.IsDigit | Sources/lexer/Lexer.swift:142-144 | the characters from `0` to `9` |
| LexerSpec.SingleCharKind | Sources/lexer/Lexer.swift:52-84 | the kind of each one-character operator and delimiter in the token switch, and none for any other character |
| LexerSpec.RunLiteral | Sources/lexer/Lexer.swift:122-140 | the text `input[start..<position]` that `readIdentifier` and `readNumber` return: the run, less its last character when the run ends the input under `Stays`; its laws are `ScanIdentifier` and `ScanNumber` |
| LexerSpec.Lex | Sources/lexer/Lexer.swift:37-102 | the tokens that successive `nextToken` calls return, up to the point after which every call yields `eof` (that final `eof` is not listed; an `eof` produced mid-input by a NUL character is kept); `ScanIsStreamHead` ties it to one call and `LexLayout` proves the round trip |
| LexerSpec.RunLength | Sources/lexer/Lexer.swift:122-140 | the length of the maximal prefix satisfying a character class: every character before it is in the class, and the next one is not (or the input ends) |
| LexerSpec.Scan | Sources/lexer/Lexer.swift:37-102 | one `nextToken` call consumes a suffix of its input, and strictly shortens any non-empty input |
| LexerSpec.ScanToken | Sources/lexer/Lexer.swift:42-101 | after whitespace has been skipped, the token scan always consumes at least one character |
| LexerSpec.TokenAt | Sources/lexer/Lexer.swift:85-86 | every position past the end of the stream reads `eof` |
| LexerSpec.ScanIsStreamHead | Sources/lexer/Lexer.swift:37-102 | the token returned by one call is the head of the token stream, and the rest of the stream is what the following calls return |
| LexerSpec.States | Sources/lexer/Lexer.swift:37-102 | the lexer's unconsumed input before each call: it starts at the whole input and ends empty |
| LexerSpec.StatesStep | Sources/lexer/Lexer.swift:37-102 | the state sequence advances by one `nextToken` call per token |
| LexerSpec.ScanNoWhitespace | Sources/lexer/Lexer.swift:40 | with no leading whitespace, a call goes straight to the token switch |
| LexerSpec.ScanSkipsWhitespace | Sources/lexer/Lexer.swift:116-120 | a leading space, tab, newline or carriage return does not change the token produced or the input left |
| LexerSpec.ScanTwoCharOperators | Sources/lexer/Lexer.swift:43-64 | `==` is one `eq` token with literal `"=="`, and `!=` is one `notEq` token with literal `"!="`; both consume two characters |
| LexerSpec.ScanLoneAssignAndBang | Sources/lexer/Lexer.swift:43-64 | `=` or `!` not followed by `=` gives `assign` or `bang` and consumes one character |
| LexerSpec.ScanSingleChar | Sources/lexer/Lexer.swift:52-84 | each single-character operator or delimiter gives its kind, with that character as literal, and consumes one character |
| LexerSpec.ScanIllegal | Sources/lexer/Lexer.swift:95-100 | any other non-letter, non-digit character gives `illegal` with that character as literal, and consumes one character |
| LexerSpec.ScanNul | Sources/lexer/Lexer.swift:85-86 | a NUL character gives `eof` with literal `"eof"` |
| LexerSpec.ScanAtEnd | Sources/lexer/Lexer.swift:27-30 | at the end of input (possibly after whitespace) the lexer gives `eof` and stays at the end, so every later call gives `eof` again; the stream before `eof` is empty |
| LexerSpec.RunAllOf | Sources/lexer/Lexer.swift:122-140 | a run over input wholly in the class takes all of it |
| LexerSpec.RunOfConcat | Sources/lexer/Lexer.swift:122-140 | the run over a word followed by a character outside the class is exactly the word |
| LexerSpec.ScanIdentifier | Sources/lexer/Lexer.swift:122-132 | a maximal run of letters and underscores is one token whose kind comes from `lookupIdentifier` and whose literal is the run (the last letter is lost when the run ends the input, see Findings) |
| LexerSpec.ScanNumber | Sources/lexer/Lexer.swift:134-144 | a maximal digit run is one `int` token with the run as literal; there is no sign, so `-5` is `minus` then `int` (the last digit is lost when the run ends the input, see Findings) |
| LexerSpec.LexHasNoWhitespace | Sources/lexer/Lexer.swift:116-140 | no literal of any token in the stream contains whitespace |
| LexerSpec.ScanTokenLiteralHasNoWhitespace | Sources/lexer/Lexer.swift:42-101 | the literal of one scanned token contains no whitespace |
| LexerSpec.RunLengthAppend | Sources/lexer/Lexer.swift:122-140 | a run that stops inside the input is unchanged by appending more input |
| LexerSpec.ScanTokenAppend | Sources/lexer/Lexer.swift:42-101 | a token that ends inside the input is unchanged by appending more input |
| LexerSpec.ScanAppend | Sources/lexer/Lexer.swift:37-102 | one call that leaves input unread is unaffected by what follows it |
| LexerSpec.LexWhitespacePrefix | Sources/lexer/Lexer.swift:116-120 | leading whitespace of any length does not change the token stream |
| LexerSpec.LexSkipsWhitespace | Sources/lexer/Lexer.swift:116-120 | one leading whitespace character does not change the token stream |
| LexerSpec.ScanTokenEndsInside | Sources/lexer/Lexer.swift:42-101 | a token scanned from text that ends in whitespace stops before the end of that text |
| LexerSpec.LexAppend | Sources/lexer/Lexer.swift:37-102 | text that ends in whitespace lexes independently of what follows it: the streams concatenate |
| LexerSpec.LexStep | Sources/lexer/Lexer.swift:37-102 | the stream is the first call's token followed by the stream of what it leaves |
| LexerSpec.LexWord | Sources/lexer/Lexer.swift:88-91 | a word heads the stream with its `lookupIdentifier` kind |
| LexerSpec.LexDigits | Sources/lexer/Lexer.swift:92-94 | a digit run heads the stream as an `int` |
| LexerSpec.LexChar | Sources/lexer/Lexer.swift:52-84 | a single-character token heads the stream |
| LexerSpec.LexOperator | Sources/lexer/Lexer.swift:43-64 | `==`, `!=`, and `=` or `!` not followed by `=`, head the stream with their kinds |
| LexerSpec.LexemeNotEmpty | Sources/lexer/Lexer.swift:42-101 | every token the lexer can produce (other than `eof`) has a non-empty literal |
| LexerSpec.KeywordTextIsWord | Sources/token/Token.swift:49-62 | every keyword is spelled with letters and looks itself up |
| LexerSpec.LexLexeme | Sources/lexer/Lexer.swift:37-144 | a token's literal, followed by text that does not extend it, lexes to that token first |
| LexerSpec.SeparatedByHead | Sources/lexer/Lexer.swift:88-144 | whether a token is cut off by what follows depends only on the next character |
| LexerSpec.LexLayout | Sources/lexer/Lexer.swift:37-144 | round trip: tokens written out with whitespace between them (where adjacent tokens would merge) lex back to exactly those tokens |
| LexerSpec.LayoutStep | Sources/lexer/Lexer.swift:37-144 | one step of that round trip: a laid-out token heads the stream of its layout |
| Lexing.Lexer.constructor | Sources/lexer/Lexer.swift:16-25 | the lexer starts on the first character with the whole input unread |
| Lexing.Lexer.ReadChar | Sources/lexer/Lexer.swift:27-35 | drops one character of unread input, or none when at the end |
| Lexing.Lexer.Peek | Sources/lexer/Lexer.swift:108-114 | returns the character after the current one, or NUL at the end |
| Lexing.Lexer.SkipWhitespace | Sources/lexer/Lexer.swift:116-120 | skips exactly the maximal run of whitespace |
| Lexing.Lexer.ReadIdentifier | Sources/lexer/Lexer.swift:122-128 | consumes exactly the maximal letter run and returns it (less its last letter when the run ends the input) |
| Lexing.Lexer.ReadNumber | Sources/lexer/Lexer.swift:134-140 | consumes exactly the maximal digit run and returns it (less its last digit when the run ends the input) |
| Lexing.Lexer.NextToken | Sources/lexer/Lexer.swift:37-102 | the token returned and the input left are those of `Scan`, so the class meets every lexing law above |
| Ast.ExpressionTokenLiteral | Sources/ast/AST.swift:17 | `tokenLiteral()` of an expression node: the literal of the token it was built from |
| Ast.StatementTokenLiteral | Sources/ast/AST.swift:17 | `tokenLiteral()` of a statement: the literal of its first token |
| Ast.ProgramTokenLiteral | Sources/ast/AST.swift:48-50 | the first statement's `tokenLiteral()`, or the empty string for an empty program |
| Ast.ExpressionString | Sources/ast/AST.swift:67-170 | `string()` of each expression node: prefix and infix nodes in parentheses, `if` with its blocks, function literals and calls with comma-separated lists; `StringLaws.AstStringIsBracketed` proves it equal to an independent bracketed rendering |
| Ast.OptionString | Sources/ast/AST.swift:93 | `?.string() ?? ""`: an absent child contributes the empty string |
| Ast.JoinExpressions | Sources/ast/AST.swift:168 | call arguments' strings joined by `", "`; `JoinExpressionsSnoc` states the join |
| Ast.JoinIdentifiers | Sources/ast/AST.swift:157 | parameter names joined by `", "`; `JoinIdentifiersSnoc` states the join |
| Ast.StatementString | Sources/ast/AST.swift:57-95 | `string()` of let, return and expression statements |
| Ast.StatementsString | Sources/ast/AST.swift:53 | the statements' strings concatenated with no separator; `StatementsStringAppend` proves it splits at any point |
| Ast.BlockString | Sources/ast/AST.swift:146-148 | `BlockStatement.string()`: its statements' strings concatenated |
| Ast.ProgramString | Sources/ast/AST.swift:52-54 | `Program.string()`: its statements' strings concatenated |
| Ast.StatementsStringAppend | Sources/ast/AST.swift:52-54 | `string()` of a statement list is the concatenation of the statements' strings, with no separator |
| Ast.JoinIdentifiersSnoc | Sources/ast/AST.swift:156-159 | function parameters are joined with `", "` |
| Ast.JoinExpressionsSnoc | Sources/ast/AST.swift:167-170 | call arguments are joined with `", "` |
| Ast.LeafStrings | Sources/ast/AST.swift:16-19 | integer and boolean nodes print their token literal, an identifier prints its value, an empty expression statement prints `""`, a block concatenates its statements, and the empty program has literal and string `""` |
| Ast.MyVarProgramString | Sources/ast/AST.swift:48-65 | the program `let myVar = anotherVar;` of Tests/ast-tests.swift prints as that text and has literal `let` |
| Objects.ObjectType | Sources/object/Object.swift:17-91 | `objectType()`: the tag of each of the six kinds; `ObjectTypeIdentifiesKind` proves the tags tell the kinds apart |
| Objects.Inspect | Sources/object/Object.swift:26-96 | `inspect()` of each kind; the `Inspect*` lemmas state each form |
| Objects.ObjectTypeIdentifiesKind | Sources/object/Object.swift:18-23 | the six type tags are pairwise distinct: two objects have equal tags exactly when they are the same variant |
| Objects.ErrorTagOnlyForErrors | Sources/object/Object.swift:72-82 | the tag is `"ERROR"` exactly for error objects |
| Objects.InspectInteger | Sources/object/Object.swift:26-36 | tag `"INTEGER"`; `inspect()` is the decimal text, which parses back to the value and starts with `-` exactly for negatives |
| Objects.InspectBoolean | Sources/object/Object.swift:38-48 | tag `"BOOLEAN"`; `inspect()` is `"true"` or `"false"` and tells the two apart |
| Objects.InspectNull | Sources/object/Object.swift:50-58 | tag `"NULL"` and `inspect()` `"null"` |
| Objects.Wrapped | Sources/object/Object.swift:60-70 | any positive number of wrappings is a return value |
| Objects.InspectReturnValue | Sources/object/Object.swift:60-70 | however deeply a value is wrapped in return values, `inspect()` equals the value's |
| Objects.InspectError | Sources/object/Object.swift:72-82 | tag `"ERROR"`; `inspect()` is `"ERROR: "` followed by the message |
| Objects.InspectFunction | Sources/object/Object.swift:84-96 | tag `"FUNCTION"`; `inspect()` is `fn(`, the parameters joined by `", "`, `) {`, a newline, the body's `string()`, and a closing newline and brace |
| Environments.Env.Chain | Sources/object/Env.swift:10-12 | the environments reachable through `outer`, starting with this one |
| Environments.Env.constructor | Sources/object/Env.swift:14-17 | a fresh environment has no bindings: every lookup is nil |
| Environments.Env.WithOuter | Sources/object/Env.swift:19-22 | a fresh inner environment answers every lookup exactly as its outer one does |
| Environments.Env.GetEnv | Sources/object/Env.swift:24-30 | the lookup is non-nil exactly when the name is bound somewhere in the chain, and then gives that binding |
| Environments.Env.SetEnv | Sources/object/Env.swift:32-35 | afterwards the name looks up to the value, which is also returned; every other name and every outer environment are unchanged |
| Environments.LocalShadows | Sources/object/Env.swift:25-26 | a local binding shadows any outer binding of the same name |
| Environments.MissingLocallyAsksOuter | Sources/object/Env.swift:26-28 | a name missing locally gets the outer environment's answer, or nil without one |
| Environments.LookupWalksOutward | Sources/object/Env.swift:24-30 | a lookup succeeds exactly when some environment in the chain binds the name, and returns the binding of the innermost one |
| Environments.UnboundIsAbsent | Sources/object/Env.swift:24-30 | a name bound nowhere in the chain looks up to nil |
| Numerals.DigitsValue | Sources/parser/Parser.swift:210 | the value of a decimal digit string, which `Int(literal)` returns when it fits; `ParseIntOfNumeral` and `DigitsValueOfNatToString` relate it to parsing and printing |
| Numerals.ParseInt | Sources/parser/Parser.swift:210 | `Int(literal)` only ever yields values inside the 64-bit range |
| Numerals.ParseIntOfNumeral | Sources/parser/Parser.swift:210-215 | a digit string parses to its value exactly when that value is at most `Int.max` |
| Numerals.DecimalDigit | Sources/object/Object.swift:33-35 | the digit character for a value below ten |
| Numerals.NatToString | Sources/object/Object.swift:33-35 | decimal text of a natural number: all digits, with no leading zero |
| Numerals.IntToString | Sources/object/Object.swift:33-35 | decimal text of an integer: non-empty, starting with `-` exactly for negatives |
| Numerals.DigitsValueOfNatToString | Sources/object/Object.swift:33-35 | the digits printed for a natural number read back as that number |
| Numerals.ParseIntOfIntToString | Sources/object/Object.swift:33-35 | printing an `Int` and parsing the text gives the value back |
| Numerals.IntToStringInjective | Sources/object/Object.swift:33-35 | different integers print differently |
| Evaluation.IsError | Sources/eval/Evaluator.swift:15-20 | `isError`: an object is present and its tag is `"ERROR"`; `IsErrorMeansError` proves this holds exactly for error objects |
| Evaluation.Truthy | Sources/eval/Evaluator.swift:84-96 | the truthiness `evalBang` negates: everything except the `false` object and the null object (an absent value counts as true); `EvalBangNegatesTruthiness` and `DoubleBang` state it |
| Evaluation.EvalBang | Sources/eval/Evaluator.swift:84-96 | `evalBang`: `false` for `true`, `true` for `false` and for null, `false` for anything else |
| Evaluation.EvalMinusPrefix | Sources/eval/Evaluator.swift:98-105 | `evalMinusPrefix`: the negated integer, or the unknown-operator error naming the operand's tag |
| Evaluation.EvalPrefix | Sources/eval/Evaluator.swift:73-82 | `evalPrefix`: dispatch on `!` and `-`, and the unknown-operator error for any other operator |
| Evaluation.Quot | Sources/eval/Evaluator.swift:124 | Swift's `/` on `Int`, which truncates toward zero; `QuotTruncatesTowardZero` proves it agrees with floor division on non-negative operands and changes sign with either operand |
| Evaluation.EvalIntInfix | Sources/eval/Evaluator.swift:115-131 | `evalIntInfix`: `+ - * /` on two integers, and the unknown-operator error for any other operator or operand |
| Evaluation.EvalInfix | Sources/eval/Evaluator.swift:107-113 | `evalInfix`: two integers go to `evalIntInfix`, anything else is the unknown-operator error naming both tags |
| Evaluation.Eval | Sources/eval/Evaluator.swift:26-55 | `eval` on expressions: literals, prefix and infix nodes with error propagation, nil for the rest; `EvalLaws.EvalArith` proves it against an independent arithmetic |
| Evaluation.EvalStatement | Sources/eval/Evaluator.swift:30-31 | `eval` on a statement: an expression statement evaluates its expression, let and return statements fall to the `default` nil |
| Evaluation.ProgramValue | Sources/eval/Evaluator.swift:57-71 | what `evalProgram` returns: the last statement's result, or the first return value (unwrapped) or error; `EvalProgram` is proved against it |
| Evaluation.IsErrorMeansError | Sources/eval/Evaluator.swift:15-20 | the tag test for errors holds exactly for error objects |
| Evaluation.NativeBoolToObj | Sources/eval/Evaluator.swift:133-138 | yields one of the two shared boolean objects, carrying the given value |
| Evaluation.EvalBangNegatesTruthiness | Sources/eval/Evaluator.swift:84-96 | `!` gives false for true, true for false and null, and false for integers and other values and for nil |
| Evaluation.DoubleBang | Sources/eval/Evaluator.swift:84-96 | `!!x` is the truthiness of `x`, and gives back `x` itself for a boolean |
| Evaluation.EvalMinusPrefixCases | Sources/eval/Evaluator.swift:98-105 | `-` negates an integer and is its own inverse; any other operand gives `unknown operator: -TYPE` |
| Evaluation.QuotTruncatesTowardZero | Sources/eval/Evaluator.swift:124 | integer `/` rounds toward zero as Swift does: it agrees with floor division on non-negative operands, and is odd in each operand (`-7 / 2` is `-3`) |
| Evaluation.EvalInfixOnIntegers | Sources/eval/Evaluator.swift:107-131 | on two integers `+ - * /` give sum, difference, product and truncating quotient, and every other operator (the comparisons included) gives `unknown operator: INTEGER op INTEGER` |
| Evaluation.EvalInfixMismatch | Sources/eval/Evaluator.swift:107-113 | when either operand is not an integer the result is `unknown operator: L op R`, with the operands' tags |
| Evaluation.EvalStaysInInt | Sources/eval/Evaluator.swift:26-55 | on inputs where Swift does not trap, every integer result fits in `Int` |
| Evaluation.EvalLiterals | Sources/eval/Evaluator.swift:32-51 | an integer literal gives an integer of the same value; a boolean literal gives the shared true or false object |
| Evaluation.ErrorsPropagate | Sources/eval/Evaluator.swift:34-44 | an error in the left operand is the result, whatever the right operand is (it is not evaluated); likewise for a prefix operand |
| Evaluation.RightErrorPropagates | Sources/eval/Evaluator.swift:45-48 | when the left operand is fine, an error in the right operand is the result |
| Evaluation.UnhandledNodesAreNil | Sources/eval/Evaluator.swift:52-53 | identifiers, `if`, function literals and calls, and let and return statements evaluate to nil |
| Evaluation.EvalProgram | Sources/eval/Evaluator.swift:57-71 | the loop computes `ProgramValue` of the statements |
| Evaluation.ProgramValueIsLastResult | Sources/eval/Evaluator.swift:57-71 | when no statement returns or fails, a program gives its last statement's result |
| Evaluation.ProgramValueAtFirstStop | Sources/eval/Evaluator.swift:60-67 | a program stops at its first return value (giving the unwrapped value) or error (giving the error), whatever follows |
| Evaluation.EmptyProgramIsNil | Sources/eval/Evaluator.swift:58-70 | the empty program gives nil |
| EvalLaws.EvalArith | Sources/eval/Evaluator.swift:26-55 | an arithmetic tree of integer literals, `-`, `+ - * /` and parentheses, whose every step fits in `Int`, evaluates to its arithmetic value with truncating division |
| EvalLaws.BinCase | Sources/eval/Evaluator.swift:40-49 | one binary step of that induction |
| EvalLaws.ApplyAgrees | Sources/eval/Evaluator.swift:115-124 | the evaluator's integer operators agree with arithmetic |
| EvalLaws.InfixStep | Sources/eval/Evaluator.swift:40-49 | an infix node evaluates its operands and then applies the operator |
| EvalLaws.ComparisonIsUnknownOperator | Sources/eval/Evaluator.swift:125-127 | `<`, `>`, `==` and `!=` between arithmetic operands give `unknown operator: INTEGER op INTEGER` |
| EvalLaws.BangOfArithIsFalse | Sources/eval/Evaluator.swift:84-96 | `!` of any arithmetic expression is false |
| StringLaws.SpellingIsLiteral | Sources/ast/AST.swift:112-120 | each operator prints as its token literal |
| StringLaws.AstStringIsBracketed | Sources/ast/AST.swift:97-126 | `string()` of an expression wraps every prefix node as `(op right)` and every infix node as `(left op right)` |
| StringLaws.PrintedText | Sources/ast/AST.swift:107-120 | the program parsed from the text of an expression prints as the expression fully bracketed |
| StringLaws.OneStatementString | Sources/ast/AST.swift:52-54 | a one-expression program prints as its expression |
| StringLaws.NegProductTokens | Sources/parser/Parser.swift:224-233 | the tokens of `-a * b` |
| StringLaws.NegProductBracketed | Sources/ast/AST.swift:107-120 | the tree of `-a * b` prints as `((-a) * b)` |
| StringLaws.NegProductLayout | Sources/lexer/Lexer.swift:37-102 | those tokens laid out with single spaces spell `-a * b` |
| StringLaws.NegProductText | Sources/parser/Parser.swift:224-233 | `-a * b` parses with no error into a program that prints as `((-a) * b)`: a prefix operator binds tighter than `*` |
| ParserSpec.PrecedenceOf | Sources/parser/Parser.swift:24-34 | the precedence table, `lowest` for kinds not in it; `ParserLaws.PrecedenceTable` states it entry by entry |
| ParserSpec.PeekPrecedence | Sources/parser/Parser.swift:84-89 | the table's precedence of the peek token, or `lowest` |
| ParserSpec.CurrentPrecedence | Sources/parser/Parser.swift:91-96 | the table's precedence of the current token, or `lowest` |
| ParserSpec.PrefixFn | Sources/parser/Parser.swift:41-49 | the registered prefix parse function of each kind, none for the rest; `ParserLaws.NoPrefixFunction` states the missing case |
| ParserSpec.InfixFn | Sources/parser/Parser.swift:51-58 | the eight kinds with the infix parse function registered |
| ParserSpec.Cur | Sources/parser/Parser.swift:16 | `currentToken`: the stream's token at the parser's position |
| ParserSpec.PeekTok | Sources/parser/Parser.swift:17 | `peekToken`: the stream's token after the current one |
| ParserSpec.Advance | Sources/parser/Parser.swift:69-72 | `nextToken()`: the window moves one token on; `Parsing.Parser.NextToken` is proved to match it |
| ParserSpec.PeekError | Sources/parser/Parser.swift:98-102 | `peekError`: appends `expected next token to be <kind>, got <peek kind>` to the errors |
| ParserSpec.FromRank | Sources/parser/Parser.swift:10-12 | exactly the raw values 0 to 6 are precedences, and the mapping inverts `rawValue` |
| ParserSpec.ExpectPeek | Sources/parser/Parser.swift:74-82 | moves forward only, and keeps every earlier message |
| ParserSpec.SkipSemicolon | Sources/parser/Parser.swift:151-153 | moves forward only, and keeps every earlier message |
| ParserSpec.ParseProgram | Sources/parser/Parser.swift:110-121 | never aborts: it runs to the `eof` token, only moves forward, and the error list only grows |
| ParserSpec.ProgramLoop | Sources/parser/Parser.swift:112-118 | statements are only appended, in order, and the loop ends on `eof` |
| ParserSpec.ParseStatement | Sources/parser/Parser.swift:123-132 | moves forward only and keeps earlier messages |
| ParserSpec.ParseLetStatement | Sources/parser/Parser.swift:134-156 | moves forward only and keeps earlier messages |
| ParserSpec.ParseReturnStatement | Sources/parser/Parser.swift:158-170 | moves forward only and keeps earlier messages |
| ParserSpec.ParseExpressionStatement | Sources/parser/Parser.swift:172-182 | always yields a statement, moves forward only and keeps earlier messages |
| ParserSpec.ParseExpression | Sources/parser/Parser.swift:184-201 | moves forward only and keeps earlier messages |
| ParserSpec.ApplyPrefix | Sources/parser/Parser.swift:41-49 | each registered prefix function moves forward only and keeps earlier messages |
| ParserSpec.InfixLoop | Sources/parser/Parser.swift:192-198 | moves forward only and keeps earlier messages |
| ParserSpec.InfixLoopStops | Sources/parser/Parser.swift:192-196 | the loop returns the left operand unchanged, without moving, at `;`, when the next operator does not bind tighter, or when it has no infix function |
| ParserSpec.InfixLoopTurns | Sources/parser/Parser.swift:192-198 | otherwise it advances onto the operator, parses the infix expression and loops on the result |
| ParserSpec.ParseIntegerLiteral | Sources/parser/Parser.swift:207-218 | moves forward only and keeps earlier messages |
| ParserSpec.ParsePrefixExpression | Sources/parser/Parser.swift:224-233 | moves forward only and keeps earlier messages |
| ParserSpec.ParseInfixExpression | Sources/parser/Parser.swift:235-244 | moves forward only and keeps earlier messages |
| ParserSpec.ParseGroupedExpression | Sources/parser/Parser.swift:246-256 | moves forward only and keeps earlier messages |
| ParserSpec.ParseIfExpression | Sources/parser/Parser.swift:258-290 | moves forward only and keeps earlier messages |
| ParserSpec.ParseIfBranches | Sources/parser/Parser.swift:266-289 | moves forward only and keeps earlier messages |
| ParserSpec.ParseElseBranch | Sources/parser/Parser.swift:279-287 | moves forward only and keeps earlier messages |
| ParserSpec.ParseBracedBlock | Sources/parser/Parser.swift:272-276 | moves forward only and keeps earlier messages |
| ParserSpec.ParseBlockStatement | Sources/parser/Parser.swift:292-306 | moves forward only and keeps earlier messages |
| ParserSpec.BlockLoop | Sources/parser/Parser.swift:296-303 | statements are only appended, in order |
| ParserSpec.ParseFunctionLiteral | Sources/parser/Parser.swift:308-324 | moves forward only and keeps earlier messages |
| ParserSpec.ParseFunctionParams | Sources/parser/Parser.swift:326-351 | moves forward only and keeps earlier messages |
| ParserSpec.ParamsLoop | Sources/parser/Parser.swift:338-346 | parameters are only appended, in order |
| ParserLaws.RanksIncrease | Sources/parser/Parser.swift:10-12 | `lowest < equals < lessGreater < sum < product < prefix < call`, and every precedence round-trips through its raw value |
| ParserLaws.PrecedenceTable | Sources/parser/Parser.swift:24-34 | exactly the nine listed kinds rank above `lowest`, each at its table entry; every other kind is `lowest` |
| ParserLaws.ExpectPeekOutcome | Sources/parser/Parser.swift:74-82 | succeeds exactly when the next token has the kind; then it advances one token and records nothing; otherwise both tokens stay and exactly `expected next token to be X, got Y` is appended |
| ParserLaws.NoPrefixFunction | Sources/parser/Parser.swift:185-188 | a token with no prefix function gives no expression, does not move, and appends exactly `no prefix parse function for T` |
| ParserLaws.IntLiteralOutOfRange | Sources/parser/Parser.swift:207-218 | an unparsable `int` literal gives no expression and appends exactly `could not parse L as int`; for a digit run that happens exactly when it exceeds `Int.max`, and always for an empty literal |
| ParserLaws.LParenEndsInfixLoop | Sources/parser/Parser.swift:192-198 | `(` ranks `call`, so the loop wants to continue, but it has no infix function and the loop returns the left operand |
| ParserLaws.NothingBindsTighterThanPrefix | Sources/parser/Parser.swift:228-231 | after a prefix operand no binary operator continues the operand's loop |
| ParserLaws.ParseSpelled | Sources/parser/Parser.swift:184-256 | Pratt correctness: the tokens of a well-formed expression over literals, identifiers, booleans, prefix and binary operators and parentheses parse back into that exact tree, with no message, ending on its last token; equal precedence folds left, higher precedence nests right, a prefix operand binds at `prefix`, and a group parses at `lowest` up to `)` |
| ProgramLaws.ParsesBack | Sources/parser/Parser.swift:110-182 | the tokens of a list of well-formed let, return and expression statements (with or without `;`) parse back into exactly those statements, in order, with no message, ending on `eof` |
| ProgramLaws.BadLetStep | Sources/parser/Parser.swift:134-139 | a `let` whose next token is not an identifier yields no statement, records the peek error for `identifier` and leaves the window on the `let` |
| ProgramLaws.NoPrefixValue | Sources/parser/Parser.swift:184-188 | a current token with no prefix parse function gives no expression and records "no prefix parse function for" that token's kind, without moving |
| ProgramLaws.NoPrefixStep | Sources/parser/Parser.swift:172-182 | such a token, not followed by `;`, makes an expression statement with that token and no value, and records that one message |
| ProgramLaws.RecoversAfterBadLet | Sources/parser/Parser.swift:110-121 | recovery: `let` followed by a token that has no prefix parse function (not `let`, `return` or eof), then any well-formed statements, parses into a value-less expression statement for that token followed by exactly those statements; the errors are the peek error and the no-prefix error, in that order, and parsing ends on eof |
| TextLaws.LexSpaced | Sources/lexer/Lexer.swift:37-144 | any token list written with whitespace wherever two neighbours would otherwise merge lexes back to that list |
| LexerTests.LexerTest | Tests/lexer-tests.swift:12-120 | `testLexer`: on the test input, successive `nextToken` calls give exactly the expected (kind, literal) pairs, the last being `eof`; whatever the lexer does at the very end of the input |
| LexerTests.ProgramLexes | Tests/lexer-tests.swift:13-33 | the whole test input lexes to exactly the tokens of its nineteen lines |
| LexerTests.ProgramWritten | Tests/lexer-tests.swift:13-33 | the test input is its tokens, each preceded by whitespace, with no two tokens that touch merging into one |
| LexerTests.AfterLine1 | Tests/lexer-tests.swift:15-32 | lines 2 to 19 of the input, written after any non-empty written prefix that ends in whitespace, extend its tokens by theirs |
| LexerTests.Line1 | Tests/lexer-tests.swift:14 | the first input line is its five tokens followed by a newline |
| LexerTests.ExpectedByLine | Tests/lexer-tests.swift:35-110 | the expected list is the tokens of the input, line by line, followed by `eof` |
| LexerTests.ProgramEnd | Tests/lexer-tests.swift:32 | the input ends in `;`, a token that needs no character after it to end |
| LexerTests.WrittenLexes | Sources/lexer/Lexer.swift:37-144 | text assembled from tokens and whitespace lexes back to those tokens, provided the last token is not cut short by what follows it |
| LexerTests.AddToken | Sources/lexer/Lexer.swift:37-144 | appending a token after written text keeps it written, when whitespace precedes the token or it cannot merge with the token before |
| LexerTests.AddSpace | Sources/lexer/Lexer.swift:116-120 | appending whitespace after written text keeps it written, with the same tokens |
| TextLaws.LexExpression | Sources/lexer/Lexer.swift:37-144 | any whitespace layout of an expression's tokens lexes back to them |
| Pipeline.ExpressionText | Sources/parser/Parser.swift:110-201 | the text of a well-formed expression parses into one expression statement holding that tree, with no message |
| Pipeline.ExpressionParses | Sources/parser/Parser.swift:110-182 | the tokens of a well-formed expression parse into one expression statement holding that tree |
| Pipeline.SingleExpression | Sources/parser/Parser.swift:172-182 | a lone expression statement without `;` is written with just the expression's tokens |
| Pipeline.ArithmeticText | Sources/eval/Evaluator.swift:26-71 | any whitespace layout of an arithmetic expression whose steps fit in `Int` evaluates to its value |
| Pipeline.TokensEvaluate | Sources/eval/Evaluator.swift:26-71 | any text that lexes to an arithmetic expression's tokens evaluates to its value |
| Pipeline.OneStatementValue | Sources/eval/Evaluator.swift:57-71 | a one-statement program gives that statement's value |
| Pipeline.ArithLexical | Sources/lexer/Lexer.swift:88-144 | every token of an arithmetic expression is one the lexer can produce |
| ProgramTexts.LetText | Sources/parser/Parser.swift:134-156 | any layout of `let name = value;` parses into that one let statement with no message |
| ProgramTexts.SimpleLet | Sources/parser/Parser.swift:134-156 | the single-spaced text `let name = value;` parses into that one let statement with no message |
| ProgramTexts.LetFive | Tests/parser-tests.swift:42 | `let x = 5;` parses into one let statement named `x` with value 5 and no message |
| ProgramTexts.LetTrue | Tests/parser-tests.swift:43 | `let y = true;` parses into one let statement named `y` with value `true` and no message |
| ProgramTexts.LetFoobar | Tests/parser-tests.swift:44 | `let foobar = y;` parses into one let statement named `foobar` with value `y` and no message |
| ProgramTexts.NumeralAtEnd | Sources/lexer/Lexer.swift:27-35 | a number that ends the input loses its last digit as written, and keeps it when `readChar` moves past the end |
| ProgramTexts.FiveAsWritten | Sources/lexer/Lexer.swift:27-35 | as written, `5` parses with the message `could not parse  as int` and evaluates to nil |
| ProgramTexts.TenAsWritten | Sources/lexer/Lexer.swift:27-35 | as written, `10` evaluates to 1 |
| EvalTests.EvalFive | Tests/eval-tests.swift:32 | `5` evaluates to 5 |
| EvalTests.EvalTen | Tests/eval-tests.swift:33 | `10` evaluates to 10 |
| EvalTests.EvalMinusFive | Tests/eval-tests.swift:34 | `-5` evaluates to -5 |
| EvalTests.EvalMinusTen | Tests/eval-tests.swift:35 | `-10` evaluates to -10 |
| EvalTests.EvalSumChain | Tests/eval-tests.swift:36 | `5 + 5 + 5 + 5 - 10` evaluates to 10 |
| EvalTests.EvalProductChain | Tests/eval-tests.swift:37 | `2 * 2 * 2*2*2` evaluates to 32 |
| EvalTests.EvalNegativeSum | Tests/eval-tests.swift:38 | `-50 +100 -50` evaluates to 0 |
| EvalTests.EvalProductFirst | Tests/eval-tests.swift:39 | `5* 2 + 10` evaluates to 20 |
| EvalTests.EvalProductSecond | Tests/eval-tests.swift:40 | `5 + 2 * 10` evaluates to 25: `*` nests to the right of `+` |
| EvalTests.EvalNegatedFactor | Tests/eval-tests.swift:41 | `20 + 2 * -10` evaluates to 0 |
| EvalTests.EvalQuotientChain | Tests/eval-tests.swift:42 | `50 / 2 * 2 + 10` evaluates to 60: equal precedence folds left |
| EvalTests.EvalGroupedSum | Tests/eval-tests.swift:43 | `2* (5 + 10)` evaluates to 30 |
| EvalTests.EvalCubePlus | Tests/eval-tests.swift:44 | `3 * 3 * 3 + 10` evaluates to 37 |
| EvalTests.EvalGroupedCube | Tests/eval-tests.swift:45 | `3 * (3 * 3) + 10` evaluates to 37 |
| EvalTests.EvalMixed | Tests/eval-tests.swift:46 | `(5 + 10 * 2 + 15 / 3) * 2 + -10` evaluates to 50 |
| Parsing.Parser.constructor | Sources/parser/Parser.swift:36-59 | the parser reads the lexer's whole token stream from its first token, with no message |
| Parsing.Parser.NextToken | Sources/parser/Parser.swift:69-72 | the window moves one token along the stream |
| Parsing.Parser.PeekError | Sources/parser/Parser.swift:98-102 | exactly one message naming the expected and the actual kind is appended |
| Parsing.Parser.NoPrefixParseFnError | Sources/parser/Parser.swift:104-108 | exactly one message naming the kind is appended |
| Parsing.Parser.ExpectPeek | Sources/parser/Parser.swift:74-82 | result and new state are those of `ParserSpec.ExpectPeek` |
| Parsing.Parser.PeekPrecedence | Sources/parser/Parser.swift:84-89 | the table rank of the next token, `lowest` when absent |
| Parsing.Parser.CurrentPrecedence | Sources/parser/Parser.swift:91-96 | the table rank of the current token, `lowest` when absent |
| Parsing.Parser.ParseProgram | Sources/parser/Parser.swift:110-121 | result and new state are those of `ParserSpec.ParseProgram`, so the class never aborts and round-trips programs |
| Parsing.Parser.ParseStatement | Sources/parser/Parser.swift:123-132 | result and new state are those of `ParserSpec.ParseStatement` |
| Parsing.Parser.SkipSemicolon | Sources/parser/Parser.swift:151-153 | the new state is that of `ParserSpec.SkipSemicolon` |
| Parsing.Parser.ParseLetStatement | Sources/parser/Parser.swift:134-156 | result and new state are those of `ParserSpec.ParseLetStatement` |
| Parsing.Parser.ParseReturnStatement | Sources/parser/Parser.swift:158-170 | result and new state are those of `ParserSpec.ParseReturnStatement` |
| Parsing.Parser.ParseExpressionStatement | Sources/parser/Parser.swift:172-182 | result and new state are those of `ParserSpec.ParseExpressionStatement` |
| Parsing.Parser.ParseExpression | Sources/parser/Parser.swift:184-201 | result and new state are those of `ParserSpec.ParseExpression`, so the class meets `ParserLaws.ParseSpelled` |
| Parsing.Parser.InfixOperators | Sources/parser/Parser.swift:192-198 | the loop's result and state are those of `ParserSpec.InfixLoop` |
| Parsing.Parser.NextInfix | Sources/parser/Parser.swift:196-197 | one turn of the loop: advance, then the infix function |
| Parsing.Parser.CallPrefix | Sources/parser/Parser.swift:184-190 | calls the prefix function registered for the current kind, as `ParserSpec.ApplyPrefix` |
| Parsing.Parser.ParseIntegerLiteral | Sources/parser/Parser.swift:207-218 | result and new state are those of `ParserSpec.ParseIntegerLiteral` |
| Parsing.Parser.ParsePrefixExpression | Sources/parser/Parser.swift:224-233 | result and new state are those of `ParserSpec.ParsePrefixExpression` |
| Parsing.Parser.ParseInfixExpression | Sources/parser/Parser.swift:235-244 | result and new state are those of `ParserSpec.ParseInfixExpression` |
| Parsing.Parser.ParseGroupedExpression | Sources/parser/Parser.swift:246-256 | result and new state are those of `ParserSpec.ParseGroupedExpression` |
| Parsing.Parser.ParseIfExpression | Sources/parser/Parser.swift:258-290 | result and new state are those of `ParserSpec.ParseIfExpression` |
| Parsing.Parser.ParseIfBranches | Sources/parser/Parser.swift:266-289 | result and new state are those of `ParserSpec.ParseIfBranches` |
| Parsing.Parser.ParseElseBranch | Sources/parser/Parser.swift:279-287 | result and new state are those of `ParserSpec.ParseElseBranch` |
| Parsing.Parser.ParseBracedBlock | Sources/parser/Parser.swift:272-276 | result and new state are those of `ParserSpec.ParseBracedBlock` |
| Parsing.Parser.ParseBlockStatement | Sources/parser/Parser.swift:292-306 | result and new state are those of `ParserSpec.ParseBlockStatement` |
| Parsing.Parser.ParseFunctionLiteral | Sources/parser/Parser.swift:308-324 | result and new state are those of `ParserSpec.ParseFunctionLiteral` |
| Parsing.Parser.ParseFunctionParams | Sources/parser/Parser.swift:326-351 | result and new state are those of `ParserSpec.ParseFunctionParams` |
| Parsing.Parser.MoreParams | Sources/parser/Parser.swift:338-346 | the parameter loop's result and state are those of `ParserSpec.ParamsLoop` |
| Parsing.StateStep | Sources/lexer/Lexer.swift:37-102 | each lexer call the parser makes yields the next token of the stream |
| Parsing.OpeningWindow | Sources/parser/Parser.swift:38-39 | the parser's first two lexer calls give the first two tokens of the stream |

## Left out

- `Sources/repl/REPL.swift` and `Sources/ssi.swift` are not part of this model. They read lines from the terminal and parse command-line arguments.
- The `print` calls beside the error messages (Parser.swift:100, 106 and 212) write to standard output. Only the `errors` list is modelled.
- The parser's tables of prefix and infix closures (Parser.swift:21-22, 41-58) become a function from token kind to the parse function (`PrefixFn`, `InfixFn`). The registered kinds are the same.
- `parseIdentifier`, `parseBoolean`, `currentTokenIs`, `peekTokenIs` and `newToken` are one-line helpers. They are written inline where they are used.
- `Character.isLetter` is true for every Unicode letter. The model's `IsLetter` accepts ASCII letters and `_` only.
- `String.Index` positions become natural-number offsets into the input.
- Lexing.Lexer.constructor: requires non-empty input. The Swift initialiser computes `index(after: startIndex)`, which traps on the empty string.
- Evaluation.EvalProgram: specified only on inputs where Swift does not trap (`RunDefined`). This excludes integer overflow of `+ - * /` and unary `-`, and division by zero.
- Evaluation.EvalStaysInInt: specified only on inputs where Swift does not trap (`Defined`), for the same reason.
- `ReturnStatement.string()` (AST.swift:80-85) interpolates the value itself, so Swift's reflection prints it, not its `string()`. The model uses the value's `string()`, and gives `return;` when there is no value.
- The `env` parameter of `eval` and `evalProgram` is not modelled. No node kind that this evaluator handles reads or writes it; identifiers, let and return statements, `if`, functions and calls evaluate to nil (`Evaluation.UnhandledNodesAreNil`).
- `Function.env` is kept as an opaque reference and never inspected.
- `PrefixExpression.right` and the `left`/`right` of an infix node are declared non-optional (AST.swift:105, 114 and 116), but the parser builds them from the optional results of `parseExpression` and the optional `left` parameter of `parseInfixExpression` (Parser.swift:230-232 and 235-243). The model keeps them as `Option`s, the values the parser actually hands over; a missing child prints as the empty string.
- `IfExpression.condition` and `FunctionLiteral.params` are declared non-optional (AST.swift:130 and 153), but the parser builds them from the optional results of `parseExpression` and `parseFunctionParams` (Parser.swift:266, 289, 315 and 323). The model keeps them as `Option`s, the values the parser actually hands over; an absent condition prints as the empty string and absent parameters as an empty list.
- Evaluation.UnhandledNodesAreNil: does not cover a `BlockStatement` given to `eval`, which Swift answers with nil through `default` (Evaluator.swift:52-53). The model's `Statement` has no block variant: the parser builds blocks only inside `if` and function literals, never as a statement of a program or a block.
- The input text is a sequence of Unicode scalars (Dafny `char`). Swift's `String` is walked one `Character` (grapheme cluster) at a time, so a `"\r\n"` pair is a single `Character`. That `Character` is not one of the four whitespace characters, not a letter and not a digit, so Swift lexes it as one `illegal` token, while the model skips it as two whitespace characters. Likewise a letter or digit followed by a combining mark is one `Character` in Swift (`"5\u{301}"` is a digit run that `Int()` rejects) and two characters in the model. Input read by the REPL's `readLine()` has its line terminator removed already.
- LexerSpec.ScanSkipsWhitespace: holds of Unicode scalars; in Swift a carriage return followed by a line feed is one non-whitespace `Character` and is not skipped.
- Lexing.Lexer.SkipWhitespace: skips a carriage return and a line feed separately; Swift stops on the single `Character` `"\r\n"`.

## Findings

| source | as written | input that shows it | evidently intended | confidence | as-written member | corrected member |
|---|---|---|---|---|---|---|
| Sources/lexer/Lexer.swift:27-35,122-140 | at the end of input `readChar` sets `char` to NUL but leaves `position` on the last character, so `readIdentifier` and `readNumber` return `input[start..<position]` without the final character of a word or number that ends the input | `5` lexes to `int("")`: the parser records `could not parse  as int` and the program evaluates to nil; `10` evaluates to 1 | the word or number keeps its last character, as it does when anything follows it (`5;` gives 5) | not executed | ProgramTexts.FiveAsWritten | EvalTests.EvalFive |
| Sources/lexer/Lexer.swift:27-35,134-140 | the same end-of-input behaviour drops the last digit of a trailing number | `10` evaluates to 1 | `10` evaluates to 10 | not executed | ProgramTexts.TenAsWritten | EvalTests.EvalTen |

The lexer is modelled with both readings, selected by `ReadCharAtEnd`:

- `Stays` is the code as written. `Lexing.Lexer` and `Parsing.Parser` implement it.
- `Advances` moves `position` past the end. The repository's evaluator tests (`EvalTests`) are proved with it, and every general lexer law holds under both.
- `ProgramTexts.NumeralAtEnd` states the difference for every number that ends the input.
