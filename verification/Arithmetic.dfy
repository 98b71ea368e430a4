/** The few facts about products and quotients that other proofs need. */
module Arithmetic {
  lemma MulMono(a: int, b: int, c: int)
    requires a <= b && c >= 0
    ensures a * c <= b * c
  {
    assert (b - a) * c >= 0;
  }

  lemma MulAdd(a: int, b: int, c: int)
    ensures (a + b) * c == a * c + b * c
  {}

  lemma MulAssoc(a: int, b: int, c: int)
    ensures a * b * c == a * (b * c)
  {}

  /** The quotient is the one number between these bounds. */
  lemma DivBounds(n: nat, d: nat)
    requires d > 0
    ensures n / d >= 0 && n / d * d <= n < n / d * d + d
  {}

  lemma DivUnique(n: nat, d: nat, q: nat)
    requires d > 0 && q * d <= n < q * d + d
    ensures n / d == q
  {
    DivBounds(n, d);
    var r := n / d;
    if r < q {
      MulMono(r + 1, q, d);
      MulAdd(r, 1, d);
    } else if q < r {
      MulMono(q + 1, r, d);
      MulAdd(q, 1, d);
    }
  }
}
