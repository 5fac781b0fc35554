/** Small facts about real products and quotients, and about integer floors read as reals.
    The accuracy proofs are chains of these: each one keeps a single product in view. */
module RealBounds {
  import opened Machine

  /** One in Q64.64, as a real. */
  const U: real := 18446744073709551616.0

  lemma MulLe(x: real, y: real, d: real)
    requires x <= y && d >= 0.0
    ensures x * d <= y * d
  {
  }

  lemma MulBox(x: real, y: real, a: real, b: real)
    requires 0.0 <= x <= a && 0.0 <= y <= b
    ensures 0.0 <= x * y <= a * b
  {
    MulLe(x, a, y);
    MulLe(y, b, a);
  }

  lemma DivCancel(a: real, d: real)
    requires d != 0.0
    ensures a / d * d == a
  {
  }

  /** To compare two numbers, compare their products with a positive one. */
  lemma Cancel(x: real, y: real, d: real)
    requires d > 0.0 && x * d <= y * d
    ensures x <= y
  {
    assert (x - y) * d <= 0.0;
  }

  /** The same with both products already named. */
  lemma CancelNamed(x: real, y: real, d: real, xd: real, yd: real)
    requires d > 0.0 && xd == x * d && yd == y * d && xd <= yd
    ensures x <= y
  {
    Cancel(x, y, d);
  }

  lemma CancelStrict(x: real, y: real, d: real)
    requires d > 0.0 && x * d < y * d
    ensures x < y
  {
    if x >= y {
      MulLe(y, x, d);
    }
  }

  lemma Distribute(t: real, a: real, b: real)
    ensures t * (a - b) == t * a - t * b
  {
  }

  /** Integer floor division, as reals. */
  lemma FloorReal(a: nat, d: nat) returns (ar: real, dr: real, q: real)
    requires d > 0
    ensures ar == a as real && dr == d as real && q == (a / d) as real && 0.0 <= q
    ensures q * dr <= ar < q * dr + dr
  {
    DivBounds(a, d);
    DivAtLeast(a, d, 0);
    ar, dr, q := a as real, d as real, (a / d) as real;
    assert ((a / d) * d) as real == q * dr;
  }

  /** The floor of a Q64.64 product is its product in units, up to one. */
  lemma ProductInUnits(t: real, s: real, e: real, m: real, ts: real, u: real)
    requires u > 0.0 && s == e * u && ts == t * s && m * u <= ts < m * u + u
    ensures m <= t * e < m + 1.0
  {
    assert (t * e) * u == ts;
    assert (m + 1.0) * u == m * u + u;
    Cancel(m, t * e, u);
    CancelStrict(t * e, m + 1.0, u);
  }
}
