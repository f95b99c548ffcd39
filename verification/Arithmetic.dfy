/** Facts about products and quotients that the solver needs spelled out. */
module Arithmetic {
  lemma MulMono(a: int, b: int, p: nat)
    requires a <= b
    ensures a * p <= b * p
  {
    assert (b - a) * p >= 0;
  }

  lemma DivideUnique(x: int, p: nat, q: int, r: nat)
    requires r < p && x == q * p + r
    ensures x / p == q && x % p == r
  {
    var d := x / p;
    assert x == d * p + x % p;
    assert (q + 1) * p == q * p + p && (d + 1) * p == d * p + p;
    if d > q { MulMono(q + 1, d, p); }
    if d < q { MulMono(d + 1, q, p); }
  }

  lemma DivideStep(x: nat, p: nat)
    requires 0 < p <= x
    ensures x / p == 1 + (x - p) / p
  {
    var q, r := (x - p) / p, (x - p) % p;
    assert (q + 1) * p == q * p + p;
    DivideUnique(x, p, q + 1, r);
  }

  lemma NextQuotient(x: nat, p: nat)
    requires p > 0
    ensures if x % p == p - 1 then (x + 1) % p == 0 && (x + 1) / p == x / p + 1
            else (x + 1) % p == x % p + 1 && (x + 1) / p == x / p
  {
    var q, r := x / p, x % p;
    if r == p - 1 {
      assert (q + 1) * p == q * p + p;
      DivideUnique(x + 1, p, q + 1, 0);
    } else {
      DivideUnique(x + 1, p, q, r + 1);
    }
  }
}
