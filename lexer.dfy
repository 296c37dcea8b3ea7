/**
 * The lexer object of Sources/lexer/Lexer.swift: a cursor over the input held in
 * `position`, `readPosition` and `ch`, advanced in place by `ReadChar`. Every method is
 * proved against the value-level description in `LexerSpec`, through a ghost `cursor`
 * that says how much of the input has been consumed.
 */
module Lexing {
  import opened Tokens
  import opened LexerSpec

  class Lexer {
    const input: string
    var position: nat
    var readPosition: nat
    var ch: char
    /** Index of the first unconsumed character; `|input|` once the input is exhausted. */
    ghost var cursor: nat

    /**
     * The two kinds of state the object can be in: on the character at `cursor`, or past
     * the end with `ch == '\0'` and `position` left on the last character.
     */
    ghost predicate Valid()
      reads this
    {
      && |input| > 0
      && cursor <= |input|
      && (cursor < |input| ==> position == cursor && readPosition == cursor + 1 && ch == input[cursor])
      && (cursor == |input| ==> position == |input| - 1 && readPosition == |input| && ch == '\0')
    }

    /** The input not yet consumed. */
    ghost function Rest(): string
      reads this
      requires cursor <= |input|
    {
      input[cursor..]
    }

    /** The source computes `input.index(after: input.startIndex)`, which traps on an empty input. */
    constructor (input: string)
      requires |input| > 0
      ensures Valid() && this.input == input && Rest() == input
    {
      this.input := input;
      position := 0;
      readPosition := 1;
      ch := input[0];
      cursor := 0;
    }

    /** Consume one character; past the end only `ch` changes (to NUL) and `position` stays. */
    method ReadChar()
      requires Valid()
      modifies this
      ensures Valid()
      ensures Rest() == if old(Rest()) == [] then [] else old(Rest())[1..]
    {
      if readPosition >= |input| {
        ch := '\0';
        cursor := |input|;
      } else {
        ch := input[readPosition];
        position := readPosition;
        readPosition := readPosition + 1;
        cursor := cursor + 1;
      }
    }

    /** The character after `ch`, or NUL when there is none. */
    method Peek() returns (c: char)
      requires Valid()
      ensures c == if |Rest()| >= 2 then Rest()[1] else '\0'
    {
      if readPosition >= |input| {
        c := '\0';
      } else {
        c := input[readPosition];
      }
    }

    /** Skip spaces, tabs, newlines and carriage returns. */
    method SkipWhitespace()
      requires Valid()
      modifies this
      ensures Valid()
      ensures Rest() == old(Rest())[RunLength(old(Rest()), IsWhitespace)..]
    {
      ghost var start := cursor;
      while ch == ' ' || ch == '\t' || ch == '\n' || ch == '\r'
        invariant Valid() && start <= cursor
        invariant forall k :: start <= k < cursor ==> IsWhitespace(input[k])
        decreases |input| - cursor
      {
        ReadChar();
      }
      RunOfConcat(input[start..cursor], input[cursor..], IsWhitespace);
      assert input[start..] == input[start..cursor] + input[cursor..];
    }

    /**
     * Consume a maximal run of letters and return the text from the run's start up to
     * `position`; when the run reaches the end of the input, `position` stayed on the last
     * character, so that character is missing from the result.
     */
    method ReadIdentifier() returns (id: string)
      requires Valid()
      modifies this
      ensures Valid()
      ensures var n := RunLength(old(Rest()), IsLetter);
              id == RunLiteral(old(Rest())[..n], n == |old(Rest())|, Stays) && Rest() == old(Rest())[n..]
    {
      ghost var start := cursor;
      var currentPosition := position;
      while IsLetter(ch)
        invariant Valid() && start <= cursor
        invariant forall k :: start <= k < cursor ==> IsLetter(input[k])
        decreases |input| - cursor
      {
        ReadChar();
      }
      RunOfConcat(input[start..cursor], input[cursor..], IsLetter);
      assert input[start..] == input[start..cursor] + input[cursor..];
      id := input[currentPosition..position];
    }

    /** Consume a maximal run of digits; the same end-of-input behaviour as `ReadIdentifier`. */
    method ReadNumber() returns (num: string)
      requires Valid()
      modifies this
      ensures Valid()
      ensures var n := RunLength(old(Rest()), IsDigit);
              num == RunLiteral(old(Rest())[..n], n == |old(Rest())|, Stays) && Rest() == old(Rest())[n..]
    {
      ghost var start := cursor;
      var currentPosition := position;
      while IsDigit(ch)
        invariant Valid() && start <= cursor
        invariant forall k :: start <= k < cursor ==> IsDigit(input[k])
        decreases |input| - cursor
      {
        ReadChar();
      }
      RunOfConcat(input[start..cursor], input[cursor..], IsDigit);
      assert input[start..] == input[start..cursor] + input[cursor..];
      num := input[currentPosition..position];
    }

    /** One token: exactly what `Scan` describes for the input left, with the as-written end behaviour. */
    method NextToken() returns (token: Token)
      requires Valid()
      modifies this
      ensures Valid()
      ensures (token, Rest()) == Scan(old(Rest()), Stays)
    {
      SkipWhitespace();
      ghost var s := Rest();
      var c := ch;
      if c == '=' || c == '!' {
        var next := Peek();
        if next == '=' {
          ReadChar();
          token := Token(if c == '=' then Eq else NotEq, [c, ch]);
        } else {
          token := Token(if c == '=' then Assign else Bang, [c]);
        }
      } else if SingleCharKind(c).Some? {
        token := Token(SingleCharKind(c).value, [c]);
      } else if c == '\0' {
        token := EofToken;
      } else if IsLetter(c) {
        var id := ReadIdentifier();
        token := Token(LookupIdentifier(id), id);
        return;
      } else if IsDigit(c) {
        var num := ReadNumber();
        token := Token(Int, num);
        return;
      } else {
        token := Token(Illegal, [c]);
      }
      ReadChar();
    }
  }
}
