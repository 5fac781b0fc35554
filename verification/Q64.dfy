/** The Q64.64 primitives of programs/amm/src/lmsr.rs: limb multiply, exp(-x) and ln(y).

    Each primitive has a specification function over unbounded naturals, and a method in the
    source's own form (u128 arithmetic, checked steps, loops with early exits) proved equal to it.
    */
module Q64 {
  import opened Machine

  const ONE: int := TWO64
  const LN2: int := 12_786_308_645_202_655_659
  const EXP_MAX_PAIRS: int := 20
  const LN_MAX_TERMS: int := 40

  // ---------------------------------------------------------------- multiply

  /** The real product, floored back to Q64.64. */
  function Mul(a: nat, b: nat): nat {
    a * b / ONE
  }

  method MulQ64(a: u128, b: u128) returns (r: Result<u128>)
    ensures r == if Mul(a, b) < TWO128 then Ok(Mul(a, b)) else Err(MathOverflow)
  {
    var aHi, aLo := a / ONE, a % ONE;
    var bHi, bLo := b / ONE, b % ONE;
    LimbProducts(aHi, aLo, bHi, bLo);
    LimbSum(a, b, aHi, aLo, bHi, bLo);
    var hh: u128 := aHi * bHi;
    var ll: u128 := aLo * bLo;
    var cross1: u128 := aHi * bLo;
    var cross2: u128 := aLo * bHi;
    if hh > (TWO128 - 1) / ONE {
      return Err(MathOverflow);
    }
    var sum := hh * ONE;
    if sum + cross1 >= TWO128 {
      return Err(MathOverflow);
    }
    sum := sum + cross1;
    if sum + cross2 >= TWO128 {
      return Err(MathOverflow);
    }
    sum := sum + cross2;
    if sum + ll / ONE >= TWO128 {
      return Err(MathOverflow);
    }
    return Ok(sum + ll / ONE);
  }

  lemma ProductBelow(x: nat, y: nat, m: nat)
    requires x < m && y < m
    ensures 0 <= x * y < m * m
  {
    MulMono(x, m - 1, y);
    MulMono(y, m - 1, m - 1);
    MulMono(m - 1, m, m - 1);
    MulMono(m - 1, m, m);
  }

  /** Each of the four limb products fits in 128 bits. */
  lemma LimbProducts(aHi: nat, aLo: nat, bHi: nat, bLo: nat)
    requires aHi < ONE && aLo < ONE && bHi < ONE && bLo < ONE
    ensures 0 <= aHi * bHi < TWO128 && 0 <= aLo * bLo < TWO128
    ensures 0 <= aHi * bLo < TWO128 && 0 <= aLo * bHi < TWO128
  {
    ProductBelow(aHi, bHi, ONE);
    ProductBelow(aLo, bLo, ONE);
    ProductBelow(aHi, bLo, ONE);
    ProductBelow(aLo, bHi, ONE);
  }

  /** The 256-bit product is reassembled from its limbs without loss. */
  lemma LimbSum(a: nat, b: nat, aHi: nat, aLo: nat, bHi: nat, bLo: nat)
    requires a == aHi * ONE + aLo && b == bHi * ONE + bLo
    ensures Mul(a, b) == aHi * bHi * ONE + aHi * bLo + aLo * bHi + aLo * bLo / ONE
  {
    var q := aHi * bHi * ONE + aHi * bLo + aLo * bHi;
    assert a * b == q * ONE + aLo * bLo by {
      calc {
        a * b;
        (aHi * ONE + aLo) * b;
        aHi * ONE * b + aLo * b;
        { assert aHi * ONE * b == aHi * b * ONE; }
        aHi * b * ONE + aLo * b;
        { assert aHi * b == aHi * (bHi * ONE) + aHi * bLo; assert aLo * b == aLo * (bHi * ONE) + aLo * bLo; }
        (aHi * (bHi * ONE) + aHi * bLo) * ONE + aLo * (bHi * ONE) + aLo * bLo;
        { assert aHi * (bHi * ONE) == aHi * bHi * ONE; assert aLo * (bHi * ONE) == aLo * bHi * ONE; }
        q * ONE + aLo * bLo;
      }
    }
    DivBounds(aLo * bLo, ONE);
    DivUnique(a * b, ONE, q + aLo * bLo / ONE);
  }

  // --------------------------------------------------------------- exp(-x)

  /** The divisor that takes `t_j` to `t_(j+1)`. */
  function ExpDen(j: nat): (d: nat)
    ensures d >= 2
  {
    (2 * j + 1) * (2 * j + 2)
  }

  /** What the loop still adds when it stands at pair `j` with running term `t`: `left` more
      pairs, with no early exit. */
  function ExpTail(r: nat, rSq: nat, t: nat, j: nat, left: nat): nat
    requires r <= ONE
    decreases left, r
  {
    if left == 0 then 0
    else
      FracBound(r, j);
      Mul(t, ONE - r / (2 * j + 1)) + ExpTail(r, rSq, Mul(t, rSq) / ExpDen(j), j + 1, left - 1)
  }

  /** e^(-r) for a reduced argument: all pairs up to the cap. */
  function ExpSeries(r: nat): nat
    requires r <= ONE
  {
    ExpTail(r, Mul(r, r), ONE, 0, EXP_MAX_PAIRS + 1)
  }

  /** exp(-x): range reduction by ln 2, the series, clamp at one, shift. */
  function ExpNeg(x: nat): nat {
    var k := x / LN2;
    if k >= 64 then 0 else Min(ExpSeries(x % LN2), ONE) / Pow2(k)
  }

  lemma MulAtMost(a: nat, b: nat, c: nat)
    requires b <= ONE && a <= c
    ensures Mul(a, b) <= c
    ensures b < ONE && a > 0 ==> Mul(a, b) < c
  {
    MulMono(b, ONE, a);
    DivAtMost(a * b, ONE, a);
    if b < ONE && a > 0 {
      MulMono(b, ONE - 1, a);
      DivAtMost(a * b, ONE, a - 1);
    }
  }

  lemma FracBound(r: nat, j: nat)
    requires r <= ONE
    ensures 0 <= r / (2 * j + 1) <= r
  {
    MulMono(1, 2 * j + 1, r);
    DivAtMost(r, 2 * j + 1, r);
  }

  /** One turn of the loop on terms up to one: no product overflows and the term shrinks. */
  lemma ExpStep(r: nat, rSq: nat, t: nat, j: nat)
    requires r <= ONE && rSq <= ONE && t <= ONE
    ensures 0 <= r / (2 * j + 1) <= ONE
    ensures 0 <= Mul(t, ONE - r / (2 * j + 1)) <= t
    ensures 0 <= Mul(t, rSq) / ExpDen(j) <= t / ExpDen(j) <= t / 2
  {
    FracBound(r, j);
    MulAtMost(t, ONE - r / (2 * j + 1), t);
    MulAtMost(t, rSq, t);
    DivMono(Mul(t, rSq), t, ExpDen(j));
    DivAtLeast(Mul(t, rSq), ExpDen(j), 0);
    DivBounds(t, 2);
    MulMono(2, ExpDen(j), t / 2 + 1);
    DivAtMost(t, ExpDen(j), t / 2);
  }

  /** Once the running term is zero the rest of the series is zero. */
  lemma {:induction false} ExpTailZero(r: nat, rSq: nat, j: nat, left: nat)
    requires r <= ONE
    ensures ExpTail(r, rSq, 0, j, left) == 0
    decreases left
  {
    if left > 0 {
      FracBound(r, j);
      assert Mul(0, rSq) / ExpDen(j) == 0 by { DivUnique(0, ExpDen(j), 0); }
      ExpTailZero(r, rSq, j + 1, left - 1);
    }
  }

  lemma ExpTailStep(r: nat, rSq: nat, t: nat, j: nat, left: nat, frac: nat, next: nat)
    requires r <= ONE && left > 0 && frac == r / (2 * j + 1) && frac <= ONE
    requires next == Mul(t, rSq) / ExpDen(j)
    ensures ExpTail(r, rSq, t, j, left) == Mul(t, ONE - frac) + ExpTail(r, rSq, next, j + 1, left - 1)
  {
  }

  /** One turn of the source's loop: the pair it adds and the term it leaves. */
  method ExpTurn(red: u128, rSq: u128, t: u128, j: nat, ghost left: nat) returns (pair: u128, t': u128)
    requires red <= ONE && rSq <= ONE && t <= ONE && left > 0
    ensures pair <= ONE && t' <= ONE
    ensures ExpTail(red, rSq, t, j, left) == pair + ExpTail(red, rSq, t', j + 1, left - 1)
  {
    ExpStep(red, rSq, t, j);
    var frac := red / (2 * j + 1);
    pair := MulUnit(t, ONE - frac);
    var next := MulUnit(t, rSq);
    t' := next / ExpDen(j);
    ExpTailStep(red, rSq, t, j, left, frac, t');
  }

  /** The source's loop. Its early exit loses nothing, so it returns the whole series. */
  method ExpLoop(red: u128, ghost pairs: nat) returns (sum: u128)
    requires red < LN2 && pairs == EXP_MAX_PAIRS + 1
    ensures sum == ExpTail(red, Mul(red, red), ONE, 0, pairs)
  {
    MulAtMost(red, red, ONE);
    var rSq := MulUnit(red, red);
    var t: u128 := ONE;
    sum := 0;
    var j := 0;
    ghost var left: nat, rest: nat := pairs, ExpTail(red, rSq, ONE, 0, pairs);
    ghost var total: nat := rest;
    while true
      invariant 0 <= j <= EXP_MAX_PAIRS && left == pairs - j
      invariant t <= ONE && sum <= j * ONE
      invariant rest == ExpTail(red, rSq, t, j, left) && sum + rest == total
      decreases EXP_MAX_PAIRS - j
    {
      var pair;
      pair, t := ExpTurn(red, rSq, t, j, left);
      sum := sum + pair;
      left, rest := left - 1, rest - pair;
      if t == 0 || j >= EXP_MAX_PAIRS {
        ExpTailZero(red, rSq, j + 1, left);
        break;
      }
      j := j + 1;
    }
  }

  lemma ShiftBound(v: nat, k: nat)
    ensures 0 <= v / Pow2(k) <= v
  {
    var p := Pow2(k);
    MulMono(1, p, v + 1);
    DivAtMost(v, p, v);
    DivAtLeast(v, p, 0);
  }

  /** `exp_neg_q64` never errors, and its early exit costs nothing: it is `ExpNeg`. */
  method ExpNegQ64(x: u128) returns (r: Result<u128>)
    ensures r == Ok(ExpNeg(x))
  {
    var k := x / LN2;
    if k >= 64 {
      return Ok(0);
    }
    var red: u128 := x - k * LN2;
    assert red == x % LN2;
    var sum := ExpLoop(red, EXP_MAX_PAIRS + 1);
    ShiftBound(Min(sum, ONE), k);
    return Ok(Min(sum, ONE) / Pow2(k));
  }

  /** `mul_q64(a, b)?` on operands up to one: the error branch is never taken. */
  method MulUnit(a: u128, b: u128) returns (v: u128)
    requires a <= ONE && b <= ONE
    ensures v == Mul(a, b)
  {
    MulAtMost(a, b, a);
    var r := MulQ64(a, b);
    v := r.value;
  }

  // ------------------------------------------------------------------- ln

  /** `y = 2^LnExponent(y) * m`, with the mantissa floored on every halving. */
  function LnExponent(y: nat): nat {
    if y < 2 * ONE then 0 else 1 + LnExponent(y / 2)
  }

  function LnMantissa(y: nat): (m: nat)
    requires y >= ONE
    ensures ONE <= m < 2 * ONE
  {
    if y < 2 * ONE then y else LnMantissa(y / 2)
  }

  /** z = (m - 1)/(m + 1). */
  function AtanhArg(m: nat): (z: nat)
    requires m >= ONE
  {
    (m - ONE) * ONE / (m + ONE)
  }

  /** What the loop still adds after `n` terms, the last of which had power `term`. */
  function LnTail(zSq: nat, term: nat, n: nat, left: nat): nat
    decreases left, zSq
  {
    if left == 0 then 0
    else
      var next := Mul(term, zSq);
      next / (2 * n + 1) + LnTail(zSq, next, n + 1, left - 1)
  }

  /** atanh(z): the leading `z` and all terms up to the cap. */
  function LnSeries(z: nat): nat {
    z + LnTail(Mul(z, z), z, 1, LN_MAX_TERMS)
  }

  function Ln(y: nat): nat
    requires y >= ONE
  {
    LnExponent(y) * LN2 + 2 * LnSeries(AtanhArg(LnMantissa(y)))
  }

  lemma {:induction false} LnTailZero(zSq: nat, n: nat, left: nat)
    ensures LnTail(zSq, 0, n, left) == 0
    decreases left
  {
    if left > 0 {
      DivUnique(0, 2 * n + 1, 0);
      LnTailZero(zSq, n + 1, left - 1);
    }
  }

  /** The mantissa is below two, so the argument of atanh is at most a third. */
  lemma AtanhArgBound(m: nat)
    requires ONE <= m < 2 * ONE
    ensures 0 <= 3 * AtanhArg(m) <= ONE
  {
    DivBounds((m - ONE) * ONE, m + ONE);
    var z := AtanhArg(m);
    DivAtLeast((m - ONE) * ONE, m + ONE, 0);
    if 3 * z > ONE {
      MulMono(ONE + 1, 3 * z, m + ONE);
    }
  }

  /** One turn of the loop: the power shrinks by a factor of nine. */
  lemma LnStep(zSq: nat, term: nat, n: nat)
    requires 9 * zSq <= ONE && term <= ONE
    ensures 0 <= 9 * Mul(term, zSq) <= term
    ensures 0 <= Mul(term, zSq) / (2 * n + 1) <= ONE
  {
    MulMono(9 * zSq, ONE, term);
    DivBounds(term * zSq, ONE);
    MulAtMost(term, zSq, term);
    FracBound(Mul(term, zSq), n);
  }

  lemma SquareOfThird(z: nat)
    requires 3 * z <= ONE
    ensures 0 <= 9 * Mul(z, z) <= ONE
  {
    MulMono(3 * z, ONE, 3 * z);
    MulMono(3 * z, ONE, ONE);
    DivBounds(z * z, ONE);
  }

  /** The source's series loop, early exit and cap included, returns the whole series. */
  method LnLoop(z: u128, ghost terms: nat) returns (acc: u128)
    requires 3 * z <= ONE && terms == LN_MAX_TERMS
    ensures acc == z + LnTail(Mul(z, z), z, 1, terms) <= (terms + 1) * ONE
  {
    SquareOfThird(z);
    var zSq := MulUnit(z, z);
    var term: u128 := z;
    acc := z;
    var n := 1;
    while term > 0 && n <= LN_MAX_TERMS
      invariant 1 <= n <= LN_MAX_TERMS + 1
      invariant term <= ONE && acc <= n * ONE
      invariant acc + LnTail(zSq, term, n, terms + 1 - n) == z + LnTail(zSq, z, 1, terms)
      decreases LN_MAX_TERMS - n
    {
      LnStep(zSq, term, n);
      term := MulUnit(term, zSq);
      acc := acc + term / (2 * n + 1);
      n := n + 1;
    }
    if term == 0 {
      LnTailZero(zSq, n, terms + 1 - n);
    }
  }

  /** `ln_q64` errors exactly below one, and is `Ln` everywhere else. */
  method LnQ64(y: u128) returns (r: Result<u128>)
    ensures r == if y < ONE then Err(LmsrDomain) else Ok(Ln(y))
  {
    if y < ONE {
      return Err(LmsrDomain);
    }
    var m: u128 := y;
    var e := 0;
    while m >= 2 * ONE
      invariant m >= ONE
      invariant LnMantissa(m) == LnMantissa(y)
      invariant e + LnExponent(m) == LnExponent(y)
      invariant e * ONE + m <= y
    {
      m := m / 2;
      e := e + 1;
    }
    AtanhArgBound(m);
    var num: u128 := m - ONE;
    var z: u128 := num * ONE / (m + ONE);
    var acc := LnLoop(z, LN_MAX_TERMS);
    return Ok(e * LN2 + 2 * acc);
  }
}
