/** Integer facts behind the `Math.floor` / `Math.ceil` arithmetic of the grid. */
module IntMath {

  /** `Math.ceil(a / b)` on naturals: the least `r` with `a <= r * b`. */
  function CeilDiv(a: nat, b: nat): (r: nat)
    requires b > 0
    ensures a <= r * b
    ensures r == 0 || (r - 1) * b < a
  {
    var q := (a + b - 1) / b;
    assert (a + b - 1) == q * b + (a + b - 1) % b;
    q
  }

  /** Multiplying by a natural keeps the order of the factors. */
  lemma MulMonotone(x: int, y: int, d: nat)
    ensures x <= y ==> x * d <= y * d
  {
  }

  /** A multiple of `d` below `a` has a quotient below `a / d`. */
  lemma BelowQuotient(q: nat, a: nat, d: nat)
    requires d > 0 && q * d <= a
    ensures q <= a / d
  {
    MulMonotone(a / d + 1, q, d);
    assert a < (a / d + 1) * d;
  }

  /** Quotient and remainder are determined by any decomposition with a remainder in range. */
  lemma DivModUnique(x: nat, d: nat, q: nat, r: nat)
    requires d > 0 && r < d && x == q * d + r
    ensures x / d == q && x % d == r
  {
    BelowQuotient(q, x, d);
    MulMonotone(q + 1, x / d, d);
    assert x / d * d <= x;
  }

  /** Floor division by a positive constant is monotone in the dividend. */
  lemma DivMonotone(a: nat, b: nat, d: nat)
    requires d > 0 && a <= b
    ensures a / d <= b / d
  {
    assert a / d * d <= a;
    BelowQuotient(a / d, b, d);
  }
}
