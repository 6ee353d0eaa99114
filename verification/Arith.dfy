/** Quotients and remainders. */
module Arith {
  lemma Times(a: nat, b: nat, d: nat)
    requires a <= b
    ensures a * d <= b * d
  {
    assert b * d == a * d + (b - a) * d;
  }

  lemma DivMod(q: nat, d: nat, r: nat)
    requires r < d
    ensures (q * d + r) / d == q && (q * d + r) % d == r
  {
    var x := q * d + r;
    var y := x / d;
    assert x == y * d + x % d;
    if y < q {
      Times(y + 1, q, d);
    } else if y > q {
      Times(q + 1, y, d);
    }
  }
}
