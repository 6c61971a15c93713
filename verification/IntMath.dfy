/** Quotients and remainders of products. */
module IntMath {
  lemma MulLess(a: int, b: int, d: nat)
    requires d > 0 && a * d < b * d
    ensures a < b
  {
    assert (b - a) * d > 0;
  }

  /** q * d + r has quotient q and remainder r. */
  lemma DivMod(q: nat, r: nat, d: nat)
    requires r < d
    ensures (q * d + r) / d == q && (q * d + r) % d == r
  {
    var x := q * d + r;
    var p := x / d;
    assert x == p * d + x % d;
    assert (p + 1) * d == p * d + d && (q + 1) * d == q * d + d;
    MulLess(p, q + 1, d);
    MulLess(q, p + 1, d);
  }

  lemma Distribute(a: int, b: int, d: int)
    ensures (a + b) * d == a * d + b * d && d * (a + b) == d * a + d * b
  {
  }

  lemma MulAtMost(a: int, b: int, d: nat)
    requires a <= b
    ensures a * d <= b * d
  {
    Distribute(b - a, a, d);
  }

  function CeilDiv(n: nat, d: nat): (q: nat)
    requires d > 0
    ensures n <= q * d < n + d
  {
    (n + d - 1) / d
  }

  /** The least multiple that is not below n. */
  function RoundUp(n: nat, multiple: nat): (r: nat)
    requires multiple > 0
    ensures n <= r < n + multiple && r % multiple == 0
  {
    DivMod(CeilDiv(n, multiple), 0, multiple);
    CeilDiv(n, multiple) * multiple
  }
}
