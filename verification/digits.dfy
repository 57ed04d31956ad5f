/**
  Zero-padded decimal fields, as written by the `%H`, `%M`, `%d`, `%m`, `%y` and `%Y`
  directives of `strftime`, and the inverse reading of a two-digit field.
 */
module Digits {
  import opened Options

  predicate IsDigit(c: char) {
    '0' <= c <= '9'
  }

  function DigitChar(d: nat): (c: char)
    requires d < 10
    ensures IsDigit(c)
    ensures c as int - '0' as int == d
  {
    ('0' as int + d) as char
  }

  function DigitValue(c: char): (d: nat)
    requires IsDigit(c)
    ensures d < 10
    ensures DigitChar(d) == c
  {
    c as int - '0' as int
  }

  /** A number below 100 written as exactly two decimal digits, with a leading zero if needed. */
  function TwoDigits(n: nat): (s: string)
    requires n < 100
    ensures |s| == 2 && IsDigit(s[0]) && IsDigit(s[1])
    ensures DigitValue(s[0]) * 10 + DigitValue(s[1]) == n
  {
    [DigitChar(n / 10), DigitChar(n % 10)]
  }

  /** A number below 10000 written as exactly four decimal digits. */
  function FourDigits(n: nat): (s: string)
    requires n < 10000
    ensures |s| == 4
    ensures forall i | 0 <= i < 4 :: IsDigit(s[i])
    ensures s[..2] == TwoDigits(n / 100) && s[2..] == TwoDigits(n % 100)
  {
    TwoDigits(n / 100) + TwoDigits(n % 100)
  }

  /** Reads two decimal digits back; `None` when either character is not a digit. */
  function ParseTwoDigits(s: string): (r: Option<nat>)
    requires |s| == 2
    ensures r.Some? <==> IsDigit(s[0]) && IsDigit(s[1])
    ensures r.Some? ==> r.value < 100 && TwoDigits(r.value) == s
  {
    if IsDigit(s[0]) && IsDigit(s[1]) then
      var hi, lo := DigitValue(s[0]), DigitValue(s[1]);
      DecimalPair(hi, lo);
      Some(hi * 10 + lo)
    else
      None
  }

  /** Splitting `10 * hi + lo` by ten gives the two digits back. */
  lemma DecimalPair(hi: nat, lo: nat)
    requires hi < 10 && lo < 10
    ensures (hi * 10 + lo) / 10 == hi && (hi * 10 + lo) % 10 == lo
  {
  }

}
