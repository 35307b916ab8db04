/** Multiplication, floor division and remainder of natural numbers. */
module Arithmetic {

  /** Block numbers and sizes are unsigned 64-bit words. */
  const WORD := 0x1_0000_0000_0000_0000

  function Min(a: int, b: int): int { if a < b then a else b }

  function Max(a: int, b: int): int { if a < b then b else a }

  lemma {:induction false} MulMonotone(d: nat, a: nat, b: nat)
    ensures a <= b ==> d * a <= d * b
  {
    if d > 0 {
      MulMonotone(d - 1, a, b);
      MulStep(d, a);
      MulStep(d, b);
    }
  }

  lemma MulStep(d: nat, a: nat)
    requires d > 0
    ensures d * a == (d - 1) * a + a
  {
  }

  lemma MulAdd(d: nat, a: nat, b: nat)
    ensures d * (a + b) == d * a + d * b
  {
  }

  /** Quotient and remainder are determined by the division equation. */
  lemma QuotientUnique(n: nat, d: nat, q: nat, r: nat)
    requires d >= 1 && n == d * q + r && r < d
    ensures n / d == q && n % d == r
  {
    var p := n / d;
    assert n == d * p + n % d;
    MulMonotone(d, p + 1, q);
    MulMonotone(d, q + 1, p);
    MulAdd(d, p, 1);
    MulAdd(d, q, 1);
  }

  lemma QuotientOrder(a: nat, b: nat, d: nat)
    requires d >= 1 && a <= b
    ensures a / d <= b / d
  {
    var p, q := a / d, b / d;
    assert a == d * p + a % d && b == d * q + b % d;
    MulMonotone(d, q + 1, p);
    MulAdd(d, q, 1);
  }

  lemma QuotientOfMax(a: nat, b: nat, d: nat)
    requires d >= 1
    ensures Max(a, b) / d == Max(a / d, b / d)
  {
    if a <= b {
      QuotientOrder(a, b, d);
    } else {
      QuotientOrder(b, a, d);
    }
  }

  lemma QuotientShrinks(n: nat, d: nat)
    requires d >= 1
    ensures n / d <= n
    ensures d >= 2 && n >= 1 ==> n / d < n
  {
    var q := n / d;
    assert n == d * q + n % d;
    MulMonotone(q, 1, d);
    MulMonotone(q, 2, d);
    assert d * q == q * d;
  }

  lemma QuotientOfQuotient(n: nat, a: nat, b: nat)
    requires a >= 1 && b >= 1
    ensures a * b >= 1 && n / a / b == n / (a * b)
  {
    var q := n / a;
    var r := q / b;
    assert n == a * q + n % a;
    assert q == b * r + q % b;
    var rest := a * (q % b) + n % a;
    MulAdd(a, b * r, q % b);
    MulAssociates(a, b, r);
    MulMonotone(a, q % b + 1, b);
    MulAdd(a, q % b, 1);
    MulMonotone(a, 1, b);
    QuotientUnique(n, a * b, r, rest);
  }

  lemma MulAssociates(a: nat, b: nat, c: nat)
    ensures a * (b * c) == (a * b) * c
  {
  }

  /** Counting up by one either completes a round of d or stays in it. */
  lemma NextQuotient(n: nat, d: nat)
    requires d >= 1
    ensures if n % d == d - 1 then (n + 1) / d == n / d + 1 && (n + 1) % d == 0
            else (n + 1) / d == n / d && (n + 1) % d == n % d + 1
  {
    var q, r := n / d, n % d;
    assert n == d * q + r;
    MulAdd(d, q, 1);
    if r == d - 1 {
      QuotientUnique(n + 1, d, q + 1, 0);
    } else {
      QuotientUnique(n + 1, d, q, r + 1);
    }
  }

  lemma QuotientOfSum(a: nat, b: nat, d: nat)
    requires d >= 1
    ensures var carry := a % d + b % d >= d;
            && (a + b) / d == a / d + b / d + (if carry then 1 else 0)
            && (a + b) % d == a % d + b % d - (if carry then d else 0)
  {
    var p, q := a / d, b / d;
    assert a == d * p + a % d && b == d * q + b % d;
    MulAdd(d, p, q);
    MulAdd(d, p + q, 1);
    if a % d + b % d >= d {
      QuotientUnique(a + b, d, p + q + 1, a % d + b % d - d);
    } else {
      QuotientUnique(a + b, d, p + q, a % d + b % d);
    }
  }
}
