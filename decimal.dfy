/** How an integral JavaScript number becomes text in a template literal or
    setAttribute (String(n)), and how Number(text) reads such text back. */
module Decimal {

  predicate IsDigit(c: char) {
    '0' <= c <= '9'
  }

  predicate AllDigits(s: string) {
    forall k :: 0 <= k < |s| ==> IsDigit(s[k])
  }

  function DigitChar(d: nat): (c: char)
    requires d < 10
    ensures IsDigit(c)
  {
    "0123456789"[d]
  }

  function DigitValue(c: char): (d: nat)
    requires IsDigit(c)
    ensures d < 10
  {
    (c as int - '0' as int) as nat
  }

  /** The decimal digits of n, most significant first, without leading zeros. */
  function NatDigits(n: nat): (s: string)
    ensures |s| > 0 && AllDigits(s)
    ensures s[0] == '0' <==> n == 0
  {
    if n < 10 then [DigitChar(n)] else NatDigits(n / 10) + [DigitChar(n % 10)]
  }

  /** String(n) for an integral number: a minus sign before the digits of |n|
      when n is negative. */
  function FromInt(n: int): (s: string)
    ensures |s| > 0
    ensures s[0] == '-' <==> n < 0
    ensures s[0] == '0' <==> n == 0
    ensures n < 0 ==> |s| > 1 && s[1] != '0'
  {
    if n < 0 then "-" + NatDigits(-n) else NatDigits(n)
  }

  /** The value of a string of decimal digits. */
  function ParseNat(s: string): nat
    requires AllDigits(s)
  {
    if s == [] then 0 else ParseNat(s[..|s| - 1]) * 10 + DigitValue(s[|s| - 1])
  }

  /** Number(s) on an optionally signed string of decimal digits; any other text
      reads as 0 here (JavaScript would give NaN, which the core never meets). */
  function ToInt(s: string): (n: int)
    ensures AllDigits(s) ==> n >= 0
    ensures |s| > 0 && s[0] == '-' && AllDigits(s[1..]) ==> n <= 0
  {
    if |s| > 0 && s[0] == '-' && AllDigits(s[1..]) then -(ParseNat(s[1..]) as int)
    else if AllDigits(s) then ParseNat(s)
    else 0
  }

  lemma DigitRoundTrip(d: nat)
    requires d < 10
    ensures DigitValue(DigitChar(d)) == d
  {
  }

  lemma {:induction false} ParseNatDigits(n: nat)
    ensures ParseNat(NatDigits(n)) == n
  {
    if n < 10 {
      DigitRoundTrip(n);
    } else {
      var s := NatDigits(n);
      assert s[..|s| - 1] == NatDigits(n / 10);
      ParseNatDigits(n / 10);
      DigitRoundTrip(n % 10);
    }
  }

  /** Number(String(n)) == n: the text written into an attribute reads back as
      the same number. */
  lemma FromIntRoundTrip(n: int)
    ensures ToInt(FromInt(n)) == n
  {
    var digits := NatDigits(if n < 0 then -n else n);
    ParseNatDigits(if n < 0 then -n else n);
    if n < 0 {
      assert ("-" + digits)[1..] == digits;
    } else {
      assert IsDigit(digits[0]);
    }
  }

  /** Distinct numbers are written as distinct texts. */
  lemma FromIntInjective(m: int, n: int)
    requires FromInt(m) == FromInt(n)
    ensures m == n
  {
    FromIntRoundTrip(m);
    FromIntRoundTrip(n);
  }
}
