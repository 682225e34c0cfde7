/** The few facts about products and quotients that the solver needs spelled out. */
module Arithmetic {
  type pos = x: nat | x > 0 witness 1

  lemma MulMonotone(a: nat, b: nat, d: nat)
    requires a <= b
    ensures a * d <= b * d
  {}

  lemma QuotientOrder(a: nat, b: nat, d: nat, p: nat, q: nat)
    requires a <= b && p * d <= a && b < (q + 1) * d
    ensures p <= q
  {
    if p > q {
      MulMonotone(q + 1, p, d);
    }
  }

  lemma QuotientBounds(n: nat, d: nat)
    requires d > 0
    ensures (n / d) * d <= n < (n / d + 1) * d
  {}

  /** `Math.ceil(a / b)` */
  function CeilDiv(a: nat, b: nat): nat
    requires b > 0
  {
    (a + b - 1) / b
  }

  /** The only number of blocks of size `b` that holds `a` items and would not with one block less. */
  lemma CeilDivIs(a: nat, b: nat, n: nat)
    requires b > 0 && a <= n * b && (n > 0 ==> (n - 1) * b < a)
    ensures CeilDiv(a, b) == n
  {
    var q := (a + b - 1) / b;
    QuotientBounds(a + b - 1, b);
    assert (n + 1) * b == n * b + b;
    QuotientOrder(a + b - 1, a + b - 1, b, q, n);
    if n > 0 {
      assert (n - 1) * b == n * b - b;
      QuotientOrder(a + b - 1, a + b - 1, b, n, q);
    }
  }
}
