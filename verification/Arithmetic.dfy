/** Division facts that the solver does not find by itself. */
module Arithmetic {

  lemma Product(a: nat, b: nat)
    ensures a * b >= 0
  {
  }

  lemma SmallMultiple(d: int, n: nat)
    requires 0 - n < d * n < n
    ensures d == 0
  {
    var up, down: nat := if d >= 1 then d - 1 else 0, if d <= -1 then -d - 1 else 0;
    Product(up, n);
    Product(down, n);
  }

  /** Quotient and remainder are the only ones that fit. */
  lemma DivisionIsUnique(x: nat, n: nat, q: nat, r: nat)
    requires n > 0 && x == q * n + r && r < n
    ensures x / n == q && x % n == r
  {
    var d := x / n - q;
    assert x / n * n == (q + d) * n == q * n + d * n;
    SmallMultiple(d, n);
  }
}
