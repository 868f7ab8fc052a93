/**
 * Decimal renderings of natural numbers, as JavaScript produces them for
 * integers (`n + ''`, and a day of the month inside a template string), and
 * the value of a string of digits.
 */
module Decimal {

  predicate IsDigit(c: char) {
    '0' <= c <= '9'
  }

  predicate AllDigits(s: string) {
    forall i :: 0 <= i < |s| ==> IsDigit(s[i])
  }

  function DigitChar(d: nat): (c: char)
    requires d < 10
    ensures IsDigit(c) && (c as int) - ('0' as int) == d
  {
    (('0' as int) + d) as char
  }

  function DigitValue(c: char): (d: nat)
    requires IsDigit(c)
    ensures d < 10
  {
    (c as int) - ('0' as int)
  }

  function Pow10(k: nat): (p: nat)
    ensures p >= 1
  {
    if k == 0 then 1 else 10 * Pow10(k - 1)
  }

  /** The decimal rendering of `n`: digits only, no leading zero. */
  function ToDecimal(n: nat): (s: string)
    ensures |s| > 0 && AllDigits(s)
    ensures s[0] != '0' || n == 0
    ensures n < Pow10(|s|)
    decreases n
  {
    if n < 10 then [DigitChar(n)] else ToDecimal(n / 10) + [DigitChar(n % 10)]
  }

  /** The number a string of digits denotes, leading zeros allowed. */
  function Value(s: string): nat
    requires AllDigits(s)
  {
    if s == [] then 0 else Value(s[..|s| - 1]) * 10 + DigitValue(s[|s| - 1])
  }

  /** Reading back a rendering gives the number rendered. */
  lemma {:induction false} ValueOfToDecimal(n: nat)
    ensures Value(ToDecimal(n)) == n
    decreases n
  {
    var s := ToDecimal(n);
    if n >= 10 {
      ValueOfToDecimal(n / 10);
      assert s[..|s| - 1] == ToDecimal(n / 10);
    }
  }

  /** A positive multiple of `d` is at least `d`. */
  lemma MultipleAtLeast(k: int, d: nat)
    requires k >= 1
    ensures k * d >= d
  {
    assert k * d == (k - 1) * d + d;
  }

  /** The remainder is the unique `r` with `x == a * d + r` and `0 <= r < d`. */
  lemma ModUnique(x: nat, d: nat, a: nat, r: nat)
    requires d > 0 && r < d && x == a * d + r
    ensures x % d == r
  {
    var a', r' := x / d, x % d;
    assert a' * d + r' == x;
    assert (a' - a) * d == a' * d - a * d;
    assert (a' - a) * d == r - r';
    if a' > a {
      MultipleAtLeast(a' - a, d);
    } else if a' < a {
      assert (a - a') * d == r' - r;
      MultipleAtLeast(a - a', d);
    }
  }

  /** Distinct numbers with the same remainder modulo `d` are at least `d` apart. */
  lemma SameRemainderApart(a: nat, b: nat, d: nat)
    requires d > 0 && a < b && a % d == b % d
    ensures b - a >= d
  {
    var qa, qb, r := a / d, b / d, a % d;
    assert a == qa * d + r;
    assert b == qb * d + r;
    assert b - a == qb * d - qa * d;
    assert b - a == (qb - qa) * d;
    if qb <= qa {
      assert false;
    }
    MultipleAtLeast(qb - qa, d);
  }

  /** `(q * 10 + c) % (p * 10)` when `c` is a digit. */
  lemma ShiftMod(q: nat, c: nat, p: nat)
    requires c < 10 && p >= 1
    ensures (q * 10 + c) % (p * 10) == (q % p) * 10 + c
  {
    var a, b := q / p, q % p;
    assert q * 10 + c == a * (p * 10) + (b * 10 + c) by {
      assert q == a * p + b;
    }
    assert b * 10 + c < p * 10 by {
      assert b <= p - 1;
    }
    ModUnique(q * 10 + c, p * 10, a, b * 10 + c);
  }

  /** The last `k` digits of a string denote its value modulo 10^k. */
  lemma {:induction false} ValueOfSuffix(s: string, k: nat)
    requires AllDigits(s) && k <= |s|
    ensures AllDigits(s[|s| - k..]) && Value(s[|s| - k..]) == Value(s) % Pow10(k)
    decreases k
  {
    var t := s[|s| - k..];
    if k == 0 {
      assert t == [];
    } else {
      var p := s[..|s| - 1];
      ValueOfSuffix(p, k - 1);
      assert t[..|t| - 1] == p[|p| - (k - 1)..];
      ShiftMod(Value(p), DigitValue(s[|s| - 1]), Pow10(k - 1));
    }
  }

  /** Digit strings of the same length with the same value are equal. */
  lemma {:induction false} ValueInjective(s: string, t: string)
    requires AllDigits(s) && AllDigits(t) && |s| == |t|
    requires Value(s) == Value(t)
    ensures s == t
    decreases |s|
  {
    if s != [] {
      var n := |s| - 1;
      var p, q := s[..n], t[..n];
      var c, e := DigitValue(s[n]), DigitValue(t[n]);
      ModUnique(Value(s), 10, Value(p), c);
      ModUnique(Value(t), 10, Value(q), e);
      assert Value(p) * 10 == Value(q) * 10;
      ValueInjective(p, q);
      assert s == p + [s[n]] && t == q + [t[n]];
    }
  }

  /** A number at least 10^k has more than `k` digits. */
  lemma LongRendering(n: nat, k: nat)
    requires n >= Pow10(k)
    ensures |ToDecimal(n)| > k
  {
    var s := ToDecimal(n);
    if |s| <= k {
      SmallerPow10(|s|, k);
    }
  }

  lemma {:induction false} SmallerPow10(j: nat, k: nat)
    requires j <= k
    ensures Pow10(j) <= Pow10(k)
    decreases k
  {
    if j < k {
      SmallerPow10(j, k - 1);
    }
  }
}
