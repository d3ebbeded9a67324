/**
 * Server replies and the test of a reply code against a decimal prefix
 * (ServerResponse in session.cpp).
 */
module ReplyCodes {
  import opened ByteArrays

  datatype ServerResponse = ServerResponse(code: int, text: Bytes, multiline: bool)

  /** Division as C++ does it: the quotient is truncated towards zero. */
  function TruncatedDiv(a: int, b: int): int
    requires b > 0
  {
    if a >= 0 then a / b else -((-a) / b)
  }

  /** How many times a positive number can be divided by ten. */
  function DigitCount(n: int): nat
    decreases if n > 0 then n else 0
  {
    if n <= 0 then 0 else 1 + DigitCount(n / 10)
  }

  function PatternLength(other: int): nat {
    if other == 0 then 1 else DigitCount(other)
  }

  function Pow10(n: int): (p: int)
    ensures p > 0
    decreases if n > 0 then n else 0
  {
    if n <= 0 then 1 else 10 * Pow10(n - 1)
  }

  /** Does the pattern `other` match the code? */
  predicate Matches(code: int, other: int) {
    TruncatedDiv(code, Pow10(3 - PatternLength(other))) == other
  }

  /** ServerResponse::isCode, with its two loops. */
  method IsCode(r: ServerResponse, other: int) returns (matched: bool)
    ensures matched == Matches(r.code, other)
  {
    var codeLength := 0;
    if other == 0 {
      codeLength := 1;
    } else {
      var otherCopy := other;
      while otherCopy > 0
        invariant codeLength + DigitCount(otherCopy) == DigitCount(other)
      {
        otherCopy := otherCopy / 10;
        codeLength := codeLength + 1;
      }
    }
    var div := 1;
    var i := 0;
    while i < 3 - codeLength
      invariant 0 <= i && (i <= 3 - codeLength || i == 0)
      invariant div == Pow10(i)
    {
      div := div * 10;
      i := i + 1;
    }
    matched := TruncatedDiv(r.code, div) == other;
  }

  // ---------------------------------------------------------------------
  // What matching means: decimal prefixes
  // ---------------------------------------------------------------------

  function DigitChar(d: int): (c: char)
    requires 0 <= d < 10
    ensures '0' <= c <= '9'
    ensures c as int == d + 48
  {
    (d + 48) as char
  }

  /** A number in decimal, without leading zeros. */
  function Decimal(n: nat): (s: Bytes)
    ensures |s| > 0
  {
    if n < 10 then [DigitChar(n)] else Decimal(n / 10) + [DigitChar(n % 10)]
  }

  /** The three digits of a reply code as the server writes them. */
  function ThreeDigits(code: int): (s: Bytes)
    requires 0 <= code <= 999
    ensures |s| == 3
  {
    [DigitChar(code / 100), DigitChar(code / 10 % 10), DigitChar(code % 10)]
  }

  lemma OneDigit(code: int, other: int)
    requires 0 <= code <= 999 && 0 <= other < 10
    ensures Matches(code, other) <==> Decimal(other) <= ThreeDigits(code)
  {
    assert other > 0 ==> DigitCount(other) == 1 + DigitCount(other / 10) && other / 10 == 0;
    assert Pow10(1) == 10 && Pow10(2) == 100;
    assert PatternLength(other) == 1;
    assert Matches(code, other) <==> code / 100 == other;
    assert Decimal(other) == [DigitChar(other)];
    assert Decimal(other) <= ThreeDigits(code) <==> DigitChar(other) == ThreeDigits(code)[0];
  }

  lemma TwoDigits(code: int, other: int)
    requires 0 <= code <= 999 && 10 <= other < 100
    ensures Matches(code, other) <==> Decimal(other) <= ThreeDigits(code)
  {
    var digits := ThreeDigits(code);
    assert DigitCount(other / 10) == 1 && PatternLength(other) == 2 && Pow10(1) == 10;
    assert Decimal(other / 10) == [DigitChar(other / 10)];
    assert Decimal(other) == [DigitChar(other / 10), DigitChar(other % 10)];
    assert Matches(code, other) <==> code / 10 == other;
    assert Decimal(other) <= digits <==> DigitChar(other / 10) == digits[0] && DigitChar(other % 10) == digits[1];
    assert code / 10 / 10 == code / 100;
  }

  lemma AllThreeDigits(code: int, other: int)
    requires 0 <= code <= 999 && 100 <= other <= 999
    ensures Matches(code, other) <==> Decimal(other) <= ThreeDigits(code)
  {
    var digits, pattern := ThreeDigits(code), ThreeDigits(other);
    assert DigitCount(other / 100) == 1 && DigitCount(other / 10) == 2 && PatternLength(other) == 3;
    assert Matches(code, other) <==> code == other;
    assert Decimal(other / 100) == [DigitChar(other / 100)];
    assert Decimal(other / 10) == [DigitChar(other / 100), DigitChar(other / 10 % 10)];
    assert Decimal(other) == pattern;
    if pattern == digits {
      assert pattern[0] == digits[0] && pattern[1] == digits[1] && pattern[2] == digits[2];
    }
  }

  /**
   * For every code that fits three digits and every pattern of at most three,
   * the loop arithmetic is exactly "the pattern's digits start the code's digits".
   */
  lemma MatchesIsDecimalPrefix(code: int, other: int)
    requires 0 <= code <= 999 && 0 <= other <= 999
    ensures Matches(code, other) <==> Decimal(other) <= ThreeDigits(code)
  {
    if other < 10 {
      OneDigit(code, other);
    } else if other < 100 {
      TwoDigits(code, other);
    } else {
      AllThreeDigits(code, other);
    }
  }

  /**
   * A code below zero (the three bytes "-99" are a number too) matches no
   * positive pattern, and the pattern zero always.
   */
  lemma NegativeCodes(code: int, other: int)
    requires -99 <= code < 0 && 0 <= other <= 999
    ensures Matches(code, other) <==> other == 0
  {
    Quotients(code);
    if other == 0 {
      assert PatternLength(0) == 1;
    } else {
      NotNegative(code, PatternLength(other));
    }
  }

  lemma Quotients(code: int)
    requires -99 <= code < 0
    ensures TruncatedDiv(code, Pow10(2)) == 0
  {
    assert Pow10(1) == 10 && Pow10(2) == 100;
  }

  /** Divided by any power of ten, a code below zero stays below one. */
  lemma NotNegative(code: int, length: nat)
    requires code < 0
    ensures TruncatedDiv(code, Pow10(3 - length)) <= 0
  {
    assert Pow10(0) == 1 && Pow10(1) == 10 && Pow10(2) == 100 && Pow10(3) == 1000;
    if length == 0 {
    } else if length == 1 {
    } else if length == 2 {
    } else {
      assert Pow10(3 - length) == 1;
    }
  }

  /** The code ranges behind every pattern the client tests, for every integer code. */
  lemma CodeRanges(code: int)
    ensures Matches(code, 4) <==> 400 <= code <= 499
    ensures Matches(code, 5) <==> 500 <= code <= 599
    ensures Matches(code, 22) <==> 220 <= code <= 229
    ensures Matches(code, 25) <==> 250 <= code <= 259
    ensures Matches(code, 220) <==> code == 220
    ensures Matches(code, 235) <==> code == 235
    ensures Matches(code, 334) <==> code == 334
    ensures Matches(code, 354) <==> code == 354
    ensures Matches(code, 500) <==> code == 500
    ensures Matches(code, 502) <==> code == 502
  {
    assert Pow10(0) == 1 && Pow10(1) == 10 && Pow10(2) == 100;
    assert PatternLength(4) == 1 && PatternLength(5) == 1;
    assert DigitCount(2) == 1 && PatternLength(22) == 2 && PatternLength(25) == 2;
    assert DigitCount(3) == 1 && DigitCount(5) == 1;
    assert DigitCount(23) == 2 && DigitCount(33) == 2 && DigitCount(35) == 2 && DigitCount(50) == 2;
    assert DigitCount(22) == 2;
    assert PatternLength(220) == 3 && PatternLength(235) == 3 && PatternLength(334) == 3;
    assert PatternLength(354) == 3 && PatternLength(500) == 3 && PatternLength(502) == 3;
  }

  /** handleErrors takes exactly the replies whose code starts with 4 or 5. */
  predicate IsError(r: ServerResponse) {
    Matches(r.code, 4) || Matches(r.code, 5)
  }
}
