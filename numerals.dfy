/**
 * Decimal text and Swift's 64-bit `Int`: `Int(literal)` as the parser uses it
 * (Sources/parser/Parser.swift) and the `"\(value)"` rendering of `Integer.inspect()`
 * (Sources/object/Object.swift), proved to be inverse to each other on the range of `Int`.
 */
module Numerals {
  import opened Wrappers
  import opened LexerSpec

  const IntMax: int := 0x7fff_ffff_ffff_ffff
  const IntMin: int := -0x8000_0000_0000_0000

  /** The range of Swift's `Int` on a 64-bit platform. */
  predicate InInt(v: int) {
    IntMin <= v <= IntMax
  }

  predicate AllDigits(s: string) {
    forall k :: 0 <= k < |s| ==> IsDigit(s[k])
  }

  /** The value of a string of decimal digits, most significant first. */
  function DigitsValue(s: string): nat
    requires AllDigits(s)
  {
    if s == [] then 0
    else
      assert IsDigit(s[|s| - 1]);
      10 * DigitsValue(s[..|s| - 1]) + (s[|s| - 1] as int - '0' as int)
  }

  /**
   * `Int(literal)`: an optional sign followed by one or more decimal digits, whose value fits
   * in `Int`; anything else is `nil`.
   */
  function ParseInt(l: string): (r: Option<int>)
    ensures r.Some? ==> InInt(r.value)
  {
    var signed := l != [] && (l[0] == '-' || l[0] == '+');
    var negative := signed && l[0] == '-';
    var digits := if signed then l[1..] else l;
    if digits == [] || !AllDigits(digits) then None
    else
      var v: int := if negative then -(DigitsValue(digits) as int) else DigitsValue(digits);
      if InInt(v) then Some(v) else None
  }

  /** The literal of an `int` token is a bare digit run: it parses exactly when its value fits. */
  lemma ParseIntOfNumeral(l: string)
    requires IsNumeral(l)
    ensures ParseInt(l) == if DigitsValue(l) <= IntMax then Some(DigitsValue(l)) else None
  {
    assert IsDigit(l[0]);
  }

  function DecimalDigit(d: nat): (c: char)
    requires d < 10
    ensures IsDigit(c) && c as int - '0' as int == d
  {
    ('0' as int + d) as char
  }

  /** The decimal text of `n`, with no leading zeros. */
  function NatToString(n: nat): (s: string)
    ensures IsNumeral(s)
    ensures |s| > 1 ==> s[0] != '0'
    decreases n
  {
    if n < 10 then [DecimalDigit(n)] else NatToString(n / 10) + [DecimalDigit(n % 10)]
  }

  /** `"\(value)"` for an `Int`: its decimal text, with a leading `-` when it is negative. */
  function IntToString(v: int): (s: string)
    ensures s != [] && (s[0] == '-' <==> v < 0)
  {
    if v < 0 then "-" + NatToString(-v) else NatToString(v)
  }

  lemma {:induction false} DigitsValueOfNatToString(n: nat)
    ensures DigitsValue(NatToString(n)) == n
    decreases n
  {
    var s := NatToString(n);
    if n >= 10 {
      DigitsValueOfNatToString(n / 10);
      assert s[..|s| - 1] == NatToString(n / 10);
    }
  }

  /** Printing an `Int` and reading it back with `Int(_:)` gives the same number. */
  lemma ParseIntOfIntToString(v: int)
    requires InInt(v)
    ensures ParseInt(IntToString(v)) == Some(v)
  {
    var n: nat := if v < 0 then -v else v;
    DigitsValueOfNatToString(n);
    var s := IntToString(v);
    if v < 0 {
      assert s[1..] == NatToString(n);
    } else {
      assert IsDigit(s[0]);
    }
  }

  /** Distinct numbers print differently. */
  lemma IntToStringInjective(a: int, b: int)
    requires IntToString(a) == IntToString(b)
    ensures a == b
  {
    var na: nat := if a < 0 then -a else a;
    var nb: nat := if b < 0 then -b else b;
    DigitsValueOfNatToString(na);
    DigitsValueOfNatToString(nb);
    if a < 0 {
      assert NatToString(na) == IntToString(a)[1..];
    }
    if b < 0 {
      assert NatToString(nb) == IntToString(b)[1..];
    }
  }
}
