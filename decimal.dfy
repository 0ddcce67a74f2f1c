/**
 * Exact base-10 rendering and parsing of arbitrary-precision integers, as
 * math/big's Int.String and Int.SetString(s, 10) do them. Reward amounts are
 * rendered with the first and read back with the second.
 */
module Decimal {
  import opened Wrappers

  predicate IsDigit(c: char) {
    '0' <= c <= '9'
  }

  predicate AllDigits(s: string) {
    forall i :: 0 <= i < |s| ==> IsDigit(s[i])
  }

  function DigitValue(c: char): (d: nat)
    requires IsDigit(c)
    ensures d < 10
  {
    (c as int) - ('0' as int)
  }

  function DigitChar(d: nat): (c: char)
    requires d < 10
    ensures IsDigit(c) && DigitValue(c) == d
  {
    (('0' as int) + d) as char
  }

  /** The digits of n, most significant first, with no leading zero. */
  function NatToDecimal(n: nat): (s: string)
    ensures |s| >= 1 && AllDigits(s)
    ensures |s| > 1 ==> s[0] != '0'
    decreases n
  {
    if n < 10 then [DigitChar(n)] else NatToDecimal(n / 10) + [DigitChar(n % 10)]
  }

  /** Int.String: a '-' before the digits of the magnitude when x is negative. */
  function IntToDecimal(x: int): string {
    if x < 0 then "-" + NatToDecimal(-x) else NatToDecimal(x)
  }

  /** The value of a run of decimal digits, most significant first. */
  function DigitsValue(s: string): nat
    requires AllDigits(s)
  {
    if |s| == 0 then 0 else DigitsValue(s[..|s| - 1]) * 10 + DigitValue(s[|s| - 1])
  }

  /**
   * Int.SetString(s, 10): an optional '+' or '-' followed by one or more
   * decimal digits and nothing else (leading zeros allowed, no underscores, no
   * base prefix); None where Go reports ok == false.
   */
  function ParseDecimal(s: string): (r: Option<int>)
    ensures r.Some? <==> (|s| > 0 && (s[0] == '+' || s[0] == '-') && |s| > 1 && AllDigits(s[1..]))
                         || (|s| > 0 && AllDigits(s))
  {
    var signed := |s| > 0 && (s[0] == '+' || s[0] == '-');
    var digits := if signed then s[1..] else s;
    if |digits| == 0 || !AllDigits(digits) then None
    else
      var magnitude: int := DigitsValue(digits);
      Some(if signed && s[0] == '-' then -magnitude else magnitude)
  }

  lemma {:induction false} NatRoundTrip(n: nat)
    ensures DigitsValue(NatToDecimal(n)) == n
    decreases n
  {
    var s := NatToDecimal(n);
    if n < 10 {
      assert s[..|s| - 1] == [];
    } else {
      NatRoundTrip(n / 10);
      assert s[..|s| - 1] == NatToDecimal(n / 10);
    }
  }

  /** Reading back a rendered amount in base 10 gives the amount itself. */
  lemma DecimalRoundTrip(x: int)
    ensures ParseDecimal(IntToDecimal(x)) == Some(x)
  {
    var s := IntToDecimal(x);
    if x < 0 {
      NatRoundTrip(-x);
      assert s[1..] == NatToDecimal(-x);
    } else {
      NatRoundTrip(x);
    }
  }
}
