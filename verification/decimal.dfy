/**
  Decimal digit strings: the value Python's `int(s)` gives a run of digits,
  and the text `str(n)` gives an integer (used by f-string rendering).
 */
module Decimal {

  predicate IsDigit(c: char) {
    '0' <= c <= '9'
  }

  predicate AllDigits(s: string) {
    forall i :: 0 <= i < |s| ==> IsDigit(s[i])
  }

  function DigitValue(c: char): (d: nat)
    requires IsDigit(c)
    ensures d < 10
  {
    c as int - '0' as int
  }

  function DigitChar(d: nat): (c: char)
    requires d < 10
    ensures IsDigit(c) && DigitValue(c) == d
  {
    (d + '0' as int) as char
  }

  /** The value of a run of decimal digits, most significant first. */
  function Value(s: string): nat
    requires AllDigits(s)
  {
    if s == [] then 0 else 10 * Value(s[..|s| - 1]) + DigitValue(s[|s| - 1])
  }

  /** `str(n)` for a non-negative integer: no sign, no leading zeros. */
  function NatToString(n: nat): (s: string)
    ensures AllDigits(s) && |s| > 0
    ensures |s| > 1 ==> s[0] != '0'
  {
    if n < 10 then [DigitChar(n)] else NatToString(n / 10) + [DigitChar(n % 10)]
  }

  /** `str(i)` for any integer: the digits of its magnitude, which read back
      as that magnitude, after a `-` when it is negative. */
  function IntToString(i: int): (s: string)
    ensures i >= 0 ==> AllDigits(s) && |s| > 0 && Value(s) == i
    ensures i < 0 ==> |s| > 1 && s[0] == '-' && AllDigits(s[1..]) && Value(s[1..]) == -i
    ensures |s| > 1 && s[0] != '-' ==> s[0] != '0'
    ensures |s| > 2 && s[0] == '-' ==> s[1] != '0'
  {
    if i < 0 then
      ValueOfNatToString(-i);
      var s := "-" + NatToString(-i);
      assert s[1..] == NatToString(-i);
      s
    else
      ValueOfNatToString(i);
      NatToString(i)
  }

  /** `str(int(s))` is no longer than `s`: reading drops leading zeros. */
  lemma {:induction false} NatToStringNoLonger(s: string)
    requires AllDigits(s) && s != []
    ensures |NatToString(Value(s))| <= |s|
  {
    var init := s[..|s| - 1];
    if Value(s) >= 10 {
      assert init != [];
      assert AllDigits(init);
      assert Value(s) / 10 == Value(init);
      NatToStringNoLonger(init);
    }
  }

  /** Reading back what `str` wrote gives the number again. */
  lemma {:induction false} ValueOfNatToString(n: nat)
    ensures Value(NatToString(n)) == n
  {
    if n >= 10 {
      var s := NatToString(n);
      assert s[..|s| - 1] == NatToString(n / 10);
      ValueOfNatToString(n / 10);
    }
  }
}
