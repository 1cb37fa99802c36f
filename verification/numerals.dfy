/** Decimal numerals: the value the assembler reads from the text of an
    integer literal, and the text the generator prints for a stack offset. */
module Numerals {
  import opened Tokenizer

  function DigitValue(c: char): (d: nat)
    requires IsDigit(c)
    ensures d < 10
  {
    (c - '0') as nat
  }

  function DigitChar(d: nat): (c: char)
    requires d < 10
    ensures IsDigit(c) && DigitValue(c) == d
  {
    ('0' as int + d) as char
  }

  /** The value of a decimal numeral, most significant digit first. */
  function NumeralValue(s: string): nat
    requires IsNumeral(s)
    decreases |s|
  {
    var last := DigitValue(s[|s| - 1]);
    if |s| == 1 then last else NumeralValue(s[..|s| - 1]) * 10 + last
  }

  /** The shortest decimal numeral of `n`, as `operator<<` prints a
      `size_t`. */
  function Decimal(n: nat): (s: string)
    ensures IsNumeral(s)
    ensures |s| > 1 ==> s[0] != '0'
    decreases n
  {
    if n < 10 then [DigitChar(n)] else Decimal(n / 10) + [DigitChar(n % 10)]
  }

  /** Reading back a printed number gives the number. */
  lemma {:induction false} DecimalRoundTrip(n: nat)
    ensures NumeralValue(Decimal(n)) == n
    decreases n
  {
    if n >= 10 {
      var s := Decimal(n);
      assert s[..|s| - 1] == Decimal(n / 10);
      DecimalRoundTrip(n / 10);
    }
  }

  /** Printing the value of a numeral without leading zeros gives the
      numeral back. */
  lemma {:induction false} NumeralRoundTrip(s: string)
    requires IsNumeral(s) && (|s| > 1 ==> s[0] != '0')
    ensures Decimal(NumeralValue(s)) == s
    decreases |s|
  {
    if |s| > 1 {
      var p := s[..|s| - 1];
      assert IsNumeral(p) by {
        forall k | 0 <= k < |p| ensures IsDigit(p[k]) {
          assert p[k] == s[k];
        }
      }
      assert |p| > 1 ==> p[0] != '0';
      NumeralRoundTrip(p);
      PositiveWithoutLeadingZero(p);
      var n := NumeralValue(s);
      assert n / 10 == NumeralValue(p) && n % 10 == DigitValue(s[|s| - 1]);
      assert s == p + [s[|s| - 1]];
    }
  }

  /** A numeral that does not start with `0` has a positive value. */
  lemma {:induction false} PositiveWithoutLeadingZero(s: string)
    requires IsNumeral(s) && s[0] != '0'
    ensures NumeralValue(s) > 0
    decreases |s|
  {
    if |s| > 1 {
      var p := s[..|s| - 1];
      assert IsNumeral(p) by {
        forall k | 0 <= k < |p| ensures IsDigit(p[k]) {
          assert p[k] == s[k];
        }
      }
      assert p[0] == s[0];
      PositiveWithoutLeadingZero(p);
    }
  }
}
