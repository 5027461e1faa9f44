/**
 * Decimal text: the digit test `isNum`, the conversion `atoi` performs on a
 * string that passed it, and the `%d` rendering `shist` prints indices with.
 */
module Numeric {

  predicate IsDigit(c: char) { '0' <= c <= '9' }

  /** `isNum`: 0 when every character is an ASCII digit (so also for ""), -1 otherwise. */
  function IsNum(s: string): (r: int)
    ensures r == 0 || r == -1
    ensures r == 0 <==> forall i :: 0 <= i < |s| ==> IsDigit(s[i])
  {
    if s == [] then 0
    else if s[0] > '9' || s[0] < '0' then -1
    else IsNum(s[1..])
  }

  function DigitValue(c: char): nat
    requires IsDigit(c)
  {
    (c as int) - ('0' as int)
  }

  function DigitChar(d: nat): (c: char)
    requires d < 10
    ensures IsDigit(c) && DigitValue(c) == d
  {
    (('0' as int) + d) as char
  }

  /**
   * `atoi` on a string of digits, read most significant digit first. The value
   * is an unbounded natural: the overflow of `atoi` on long inputs is not modelled.
   */
  function DigitsValue(s: string): nat
    requires IsNum(s) == 0
  {
    if s == [] then 0
    else DigitsValue(s[..|s| - 1]) * 10 + DigitValue(s[|s| - 1])
  }

  /** The `%d` rendering of a natural number: no sign, no leading zeros. */
  function Decimal(n: nat): (s: string)
    ensures 1 <= |s|
    ensures IsNum(s) == 0
    ensures |s| > 1 ==> s[0] != '0'
  {
    if n < 10 then [DigitChar(n)] else Decimal(n / 10) + [DigitChar(n % 10)]
  }

  /** Reading back what `%d` printed gives the number that was printed. */
  lemma {:induction false} DecimalRoundTrip(n: nat)
    ensures DigitsValue(Decimal(n)) == n
  {
    if n >= 10 {
      var s := Decimal(n);
      assert s[..|s| - 1] == Decimal(n / 10);
      DecimalRoundTrip(n / 10);
    }
  }

  /** A decimal rendering holds no character other than a digit, such as a space or a bar. */
  lemma DecimalAvoids(n: nat, c: char)
    requires !IsDigit(c)
    ensures c !in Decimal(n)
  {
    var s := Decimal(n);
    assert forall i :: 0 <= i < |s| ==> IsDigit(s[i]);
  }
}
