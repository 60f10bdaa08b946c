/**
 Decimal numerals, as printed by `snprintf` with an integer conversion and as
 read back digit by digit, and exact powers of ten.
 */
module Decimal {

  predicate IsDigit(c: char) {
    '0' <= c <= '9'
  }

  function DigitValue(c: char): nat
    requires IsDigit(c)
  {
    c as nat - '0' as nat
  }

  predicate AllDigits(s: string) {
    forall i | 0 <= i < |s| :: IsDigit(s[i])
  }

  /** The natural number a digit string denotes (0 for the empty string). */
  function Value(s: string): nat
    requires AllDigits(s)
  {
    if s == [] then 0
    else Value(s[..|s| - 1]) * 10 + DigitValue(s[|s| - 1])
  }

  /** The digits of `n` without leading zeros. */
  function OfNat(n: nat): (s: string)
    ensures s != [] && AllDigits(s)
    ensures Value(s) == n
    ensures s[0] == '0' <==> n == 0
    ensures n == 0 ==> s == "0"
  {
    var d := '0' + (n % 10) as char;
    if n < 10 then [d]
    else
      var s := OfNat(n / 10);
      assert (s + [d])[..|s|] == s;
      s + [d]
  }

  /** What the conversion `%li` prints. */
  function OfInt(n: int): (s: string)
    ensures s != [] && (IsDigit(s[0]) || s[0] == '-')
  {
    if n < 0 then "-" + OfNat(-n) else OfNat(n)
  }

  /** A number of `k` digits or fewer prints within `k` characters. */
  lemma {:induction false} OfNatLength(n: nat, k: nat)
    requires 0 < k && n < TenTo(k)
    ensures |OfNat(n)| <= k
  {
    if n >= 10 {
      OfNatLength(n / 10, k - 1);
    }
  }

  function TenTo(k: nat): (p: nat)
    ensures p > 0
  {
    if k == 0 then 1 else 10 * TenTo(k - 1)
  }

  /** Ten to an integer power, exactly. */
  function Pow10(k: int): (p: real)
    ensures p > 0.0
    decreases if k < 0 then -k else k
  {
    if k == 0 then 1.0
    else if k > 0 then 10.0 * Pow10(k - 1)
    else Pow10(k + 1) / 10.0
  }

  lemma Pow10Step(k: int)
    ensures Pow10(k + 1) == 10.0 * Pow10(k)
  {
  }

  lemma Pow10Zero()
    ensures Pow10(0) == 1.0
  {
  }

  lemma {:induction false} Pow10Sum(a: int, b: int)
    ensures Pow10(a + b) == Pow10(a) * Pow10(b)
    decreases if b < 0 then -b else b
  {
    hide Pow10;
    if b == 0 {
      Pow10Zero();
    } else {
      var c := if b > 0 then b - 1 else b + 1;
      Pow10Sum(a, c);
      if b > 0 {
        Pow10Step(a + c);
        Pow10Step(c);
      } else {
        Pow10Step(a + b);
        Pow10Step(b);
      }
      TenfoldBothSides(b > 0, Pow10(a), Pow10(b), Pow10(c), Pow10(a + b), Pow10(a + c));
    }
  }

  lemma TenfoldBothSides(up: bool, p: real, q: real, q': real, pq: real, pq': real)
    requires pq' == p * q'
    requires if up then q == 10.0 * q' && pq == 10.0 * pq' else q' == 10.0 * q && pq' == 10.0 * pq
    ensures pq == p * q
  {
    assert p * (10.0 * q') == 10.0 * (p * q');
    assert p * (10.0 * q) == 10.0 * (p * q);
  }

  lemma ValueSnoc(s: string, c: char)
    requires AllDigits(s) && IsDigit(c)
    ensures AllDigits(s + [c]) && Value(s + [c]) == Value(s) * 10 + DigitValue(c)
  {
    assert (s + [c])[..|s|] == s;
  }
}
