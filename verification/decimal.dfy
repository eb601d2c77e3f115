/** Decimal text for integers, as JavaScript's number-to-string conversion produces it for
    integral values, together with the parser that reads it back. */
module Decimal {
  import opened Wrappers

  predicate IsDigit(c: char) {
    '0' <= c <= '9'
  }

  function DigitChar(d: nat): (c: char)
    requires d < 10
    ensures IsDigit(c)
  {
    "0123456789"[d]
  }

  function DigitValue(c: char): (d: nat)
    requires IsDigit(c)
    ensures d < 10
  {
    (c as int - '0' as int) as nat
  }

  /** Every digit character names its own value. */
  lemma DigitRoundTrip(d: nat)
    requires d < 10
    ensures DigitValue(DigitChar(d)) == d
  {
  }

  /** Decimal digits of `n` with no leading zero (other than "0" itself). */
  function NatToString(n: nat): (r: string)
    ensures r != []
    ensures forall k :: 0 <= k < |r| ==> IsDigit(r[k])
    ensures |r| > 1 ==> r[0] != '0'
    decreases n
  {
    if n < 10 then [DigitChar(n)] else NatToString(n / 10) + [DigitChar(n % 10)]
  }

  /** An integer as text: a minus sign for negatives, then the digits of its magnitude. */
  function IntToString(i: int): (r: string)
    ensures r != []
    ensures i >= 0 <==> IsDigit(r[0])
  {
    if i < 0 then "-" + NatToString(-i) else NatToString(i)
  }

  /** The value of a non-empty run of decimal digits. */
  function ParseDigits(s: string): nat
    requires s != []
    requires forall k :: 0 <= k < |s| ==> IsDigit(s[k])
    decreases |s|
  {
    if |s| == 1 then DigitValue(s[0])
    else ParseDigits(s[..|s| - 1]) * 10 + DigitValue(s[|s| - 1])
  }

  predicate AllDigits(s: string) {
    s != [] && forall k :: 0 <= k < |s| ==> IsDigit(s[k])
  }

  /** Reads an optionally negative decimal integer; anything else is rejected. */
  function ParseInt(s: string): Option<int> {
    if AllDigits(s) then Some(ParseDigits(s) as int)
    else if |s| > 1 && s[0] == '-' && AllDigits(s[1..]) then Some(0 - ParseDigits(s[1..]) as int)
    else None
  }

  /** Reading back the digits of `n` gives `n`. */
  lemma {:induction false} NatToStringRoundTrip(n: nat)
    ensures ParseDigits(NatToString(n)) == n
    decreases n
  {
    if n >= 10 {
      var r := NatToString(n);
      NatToStringRoundTrip(n / 10);
      assert r[..|r| - 1] == NatToString(n / 10);
      DigitRoundTrip(n % 10);
    } else {
      DigitRoundTrip(n);
    }
  }

  /** Reading back the text of any integer gives that integer. */
  lemma IntToStringRoundTrip(i: int)
    ensures ParseInt(IntToString(i)) == Some(i)
  {
    if i < 0 {
      var digits := NatToString(-i);
      NatToStringRoundTrip(-i);
      ParseNegative("-" + digits, digits, -i);
    } else {
      NatToStringRoundTrip(i);
      ParseDigitsOnly(NatToString(i), i);
    }
  }

  lemma ParseDigitsOnly(s: string, n: nat)
    requires AllDigits(s) && ParseDigits(s) == n
    ensures ParseInt(s) == Some(n)
  {
  }

  lemma ParseNegative(s: string, digits: string, n: nat)
    requires s == "-" + digits
    requires AllDigits(digits) && ParseDigits(digits) == n
    ensures ParseInt(s) == Some(-(n as int))
  {
    assert s[0] == '-';
    assert s[1..] == digits;
  }

  /** Different integers have different texts. */
  lemma IntToStringInjective(i: int, j: int)
    requires IntToString(i) == IntToString(j)
    ensures i == j
  {
    IntToStringRoundTrip(i);
    IntToStringRoundTrip(j);
  }

  /** `s.padStart(2, '0')`: a single character gets a leading zero, longer text is unchanged. */
  function PadStart2(s: string): (r: string)
    ensures |r| == if |s| < 2 then 2 else |s|
    ensures r[|r| - |s|..] == s
    ensures forall k :: 0 <= k < |r| - |s| ==> r[k] == '0'
  {
    if |s| == 0 then "00" else if |s| == 1 then "0" + s else s
  }
}
