/** Laws of integer division and multiples that the solver does not find on its own. */
module Division {

  lemma DivBounds(x: nat, u: nat)
    requires 0 < u
    ensures x == x / u * u + x % u && 0 <= x % u < u && 0 <= x / u * u
  {
  }

  lemma MulLe(a: nat, b: nat, u: nat)
    requires a <= b
    ensures a * u <= b * u
  {
  }

  lemma DivLe(x: nat, y: nat, u: nat)
    requires x <= y && 0 < u
    ensures x / u <= y / u
  {
    DivBounds(x, u);
    DivBounds(y, u);
    if y / u < x / u { MulLe(y / u + 1, x / u, u); }
  }

  /** A quotient is at least n if and only if the dividend is at least n times the divisor. */
  lemma QuotientAtLeast(x: nat, u: nat, n: nat)
    requires 0 < u
    ensures n <= x / u <==> n * u <= x
  {
    DivBounds(x, u);
    if n <= x / u { MulLe(n, x / u, u); } else { MulLe(x / u + 1, n, u); }
  }

  lemma NextMultiple(q: nat, u: nat)
    ensures (q + 1) * u == q * u + u
  {
  }

  /** Two different multiples of d are at least d apart. */
  lemma MultiplesApart(x: nat, y: nat, d: nat)
    requires 0 < d && x % d == 0 && y % d == 0 && x < y
    ensures x + d <= y
  {
    DivBounds(x, d);
    DivBounds(y, d);
    DivLe(x, y, d);
    MulLe(x / d + 1, y / d, d);
    NextMultiple(x / d, d);
  }

  lemma FewerMultiples(n: nat, m: nat, d: nat)
    requires n * d < m * d
    ensures n < m
  {
    if m <= n { MulLe(m, n, d); }
  }
}
