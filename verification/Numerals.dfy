/** Decimal numerals. */
module Numerals {

  predicate IsDigit(c: char) {
    '0' <= c <= '9'
  }

  predicate AllDigits(s: string) {
    forall i :: 0 <= i < |s| ==> IsDigit(s[i])
  }

  function DigitOf(d: nat): (c: char)
    requires d < 10
    ensures IsDigit(c) && ValueOf(c) == d
  {
    '0' + d as char
  }

  function ValueOf(c: char): (d: nat)
    requires IsDigit(c)
    ensures d < 10
  {
    (c - '0') as nat
  }

  /** The number a string of digits stands for. */
  function Number(s: string): nat
    requires AllDigits(s)
  {
    if s == "" then 0 else Number(s[..|s| - 1]) * 10 + ValueOf(s[|s| - 1])
  }

  /** A digit more multiplies by ten and adds the digit. */
  lemma NumberMore(s: string, c: char)
    requires AllDigits(s) && '0' <= c <= '9'
    ensures AllDigits(s + [c]) && Number(s + [c]) == 10 * Number(s) + (c as int - 48) && Number("") == 0
  {
    assert (s + [c])[..|s|] == s;
  }

  /** A numeral does not start with a zero unless it is one digit. */
  lemma {:induction false} NoLeadingZero(n: nat)
    ensures Digits(n)[0] == '0' ==> |Digits(n)| == 1
    ensures Digits(n) == "0" <==> n == 0
  {
    if n >= 10 {
      NoLeadingZero(n / 10);
      assert Digits(n) == Digits(n / 10) + [DigitOf(n % 10)];
    }
  }

  /** The decimal numeral of a number. */
  function Digits(n: nat): (s: string)
    ensures s != "" && AllDigits(s) && Number(s) == n
  {
    if n < 10 then
      var s := [DigitOf(n)];
      assert s[..0] == "" && Number("") == 0;
      s
    else
      var high := Digits(n / 10);
      var s := high + [DigitOf(n % 10)];
      assert s[..|s| - 1] == high;
      s
  }
}
