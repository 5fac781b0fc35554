/** The shape of the integer exp: it halves over ln 2, never rises once its argument has moved by
    2^10 units, and never falls faster than 1.2 times its own value.
    */
module ExpShape {
  import opened Machine
  import opened Q64
  import opened RealBounds
  import opened ExpAccuracy
  import opened ExpSlope
  import opened ExpRun

  const GAP: int := 1024
  const LN2_SQUARED: int := 8862793787191474848

  // ------------------------------------------------------ the value at ln 2

  lemma FirstTurns(h: nat)
    ensures TermAfter(h, LN2_SQUARED, 5) == 130140149131
    ensures SumAfter(h, LN2, LN2_SQUARED, 5) == 9223371914465575076
  {
    Turn(h, LN2, LN2_SQUARED, 0, 18446744073709551616, 0, 4431396893595737424, 5660435428506895957);
    Turn(h, LN2, LN2_SQUARED, 1, 4431396893595737424, 5660435428506895957, 177423166116318949, 3407526806016408970);
    Turn(h, LN2, LN2_SQUARED, 2, 177423166116318949, 9067962234523304927, 2841449829983171, 152827092644409888);
    Turn(h, LN2, LN2_SQUARED, 3, 2841449829983171, 9220789327167714815, 24378270262728, 2560086553075260);
    Turn(h, LN2, LN2_SQUARED, 4, 24378270262728, 9223349413720790075, 130140149131, 22500744785001);
  }

  lemma LastTurns(h: nat)
    requires TermAfter(h, LN2_SQUARED, 5) == 130140149131
    requires SumAfter(h, LN2, LN2_SQUARED, 5) == 9223371914465575076
    ensures TermAfter(h, LN2_SQUARED, 10) == 0
    ensures SumAfter(h, LN2, LN2_SQUARED, 10) == 9223372036854775797
  {
    Turn(h, LN2, LN2_SQUARED, 5, 130140149131, 9223371914465575076, 473683536, 121939578453);
    Turn(h, LN2, LN2_SQUARED, 6, 473683536, 9223372036405153529, 1250454, 448427196);
    Turn(h, LN2, LN2_SQUARED, 7, 1250454, 9223372036853580725, 2503, 1192670);
    Turn(h, LN2, LN2_SQUARED, 8, 2503, 9223372036854773395, 3, 2400);
    Turn(h, LN2, LN2_SQUARED, 9, 3, 9223372036854775795, 0, 2);
  }

  /** At the top of its range the series is one half, less eleven units. */
  lemma SeriesAtLn2()
    ensures ExpSeries(LN2) == ONE / 2 - 11
  {
    SeriesFrom(0);
  }

  lemma SeriesFrom(h: nat)
    ensures ExpSeries(LN2) == ONE / 2 - 11
  {
    FirstTurns(h);
    LastTurns(h);
    assert Mul(LN2, LN2) == LN2_SQUARED;
    RunEnds(h, LN2, LN2_SQUARED, 10, 11);
  }

  // ------------------------------------------------------------- one octave

  /** Slopes of the exact polynomial between two loop arguments, in units. */
  lemma LoopSlope(r: nat, r': nat, u: real, d: real) returns (t: real, t': real)
    requires r <= r' <= LN2 && u == U && d == (r' - r) as real
    ensures t == Taylor(Q64ToReal(r)) && t' == Taylor(Q64ToReal(r'))
    ensures 0.3 * d <= t - t'
    ensures (t - t') * u <= 1.2 * (d * t) && 0.0 <= t
  {
    var x := ReducedArgument(r);
    var y := ReducedArgument(r');
    t, t' := Taylor(x), Taylor(y);
    LoopDistance(r, r', x, y, u);
    TaylorDropsBy(x, y);
    TaylorDropsAtMost(x, y);
    InUnits(y - x, d, t, t - t', u);
  }

  lemma LoopDistance(r: nat, r': nat, x: real, y: real, u: real)
    requires u > 0.0 && r <= r' && x * u == r as real && y * u == r' as real
    ensures x <= y && u * (y - x) == (r' - r) as real
  {
    Cancel(x, y, u);
    Distribute(u, y, x);
  }

  lemma InUnits(h: real, d: real, t: real, drop: real, u: real)
    requires u > 0.0 && u * h == d && drop <= 1.2 * (h * t)
    ensures drop * u <= 1.2 * (d * t)
  {
    MulLe(drop, 1.2 * (h * t), u);
    assert (1.2 * (h * t)) * u == 1.2 * ((u * h) * t);
  }

  lemma SeriesFalls(r: nat, r': nat)
    requires r + GAP <= r' <= LN2
    ensures ExpSeries(r') <= ExpSeries(r)
  {
    var t, t' := LoopSlope(r, r', U, (r' - r) as real);
    SeriesAccuracy(r);
    SeriesAccuracy(r');
  }

  /** The series stays in its octave: it leaves one at once, and comes down to a half, give or
      take the rounding. */
  lemma SeriesOctave(r: nat)
    requires r <= LN2
    ensures 10 * ExpSeries(r) <= 10 * ONE - 3 * r + 210
    ensures 10 * ExpSeries(r) >= 5 * ONE + 3 * (LN2 - r) - 1160
  {
    SeriesAccuracy(r);
    SeriesAccuracy(LN2);
    SeriesAtLn2();
    var t0, t := LoopSlope(0, r, U, r as real);
    AtZero();
    var t', t1 := LoopSlope(r, LN2, U, (LN2 - r) as real);
  }

  // ------------------------------------------------------------ whole domain

  /** The clamped series: what is shifted down by the octave. */
  function Clamped(r: nat): nat
    requires r <= ONE
  {
    Min(ExpSeries(r), ONE)
  }

  lemma PowDouble(k: nat, n: nat)
    requires k < n
    ensures 2 * Pow2(k) <= Pow2(n)
    decreases n
  {
    if k + 1 < n {
      PowDouble(k, n - 1);
    }
  }

  /** a / p >= b / q when a >= b and p <= q, and when 2a >= b and 2p <= q. */
  lemma QuotientOrder(a: nat, p: nat, b: nat, q: nat)
    requires p > 0 && q >= 2 * p && 2 * a >= b
    ensures a / p >= b / q
  {
    DivBounds(a, p);
    DivBounds(b, q);
    var n := b / q;
    DivAtLeast(b, q, 0);
    assert 2 * (n * p) <= b by {
      MulMono(2 * p, q, n);
      assert 2 * (n * p) == n * (2 * p);
    }
    DivAtLeast(a, p, n);
  }

  /** exp(-x) never rises over a gap of 2^10 units, whatever octaves the gap spans. */
  lemma ExpFalls(x: nat, y: nat)
    requires x + GAP <= y
    ensures ExpNeg(y) <= ExpNeg(x)
  {
    var k, l := x / LN2, y / LN2;
    DivMono(x, y, LN2);
    var r, r' := x % LN2, y % LN2;
    if l < 64 {
      SeriesOctave(r);
      SeriesOctave(r');
      if k == l {
        SeriesFalls(r, r');
        DivMono(Clamped(r'), Clamped(r), Pow2(k));
      } else {
        PowDouble(k, l);
        if l == k + 1 {
          assert y - x == LN2 + r' - r;
        }
        assert 2 * Clamped(r) >= Clamped(r') || l >= k + 2;
        if 2 * Clamped(r) >= Clamped(r') {
          QuotientOrder(Clamped(r), Pow2(k), Clamped(r'), Pow2(l));
        } else {
          PowDouble(k + 1, l);
          QuotientOrder(Clamped(r), Pow2(k), ONE / 2, 2 * Pow2(k));
          QuotientOrder(ONE / 2, 2 * Pow2(k), Clamped(r'), Pow2(l));
        }
      }
    } else {
      ShiftBound(Clamped(r), if k < 64 then k else 0);
    }
  }

  // ------------------------------------------------------- how fast it falls

  lemma ScaleLe(d: real, t: real, m: real, c: real, u: real)
    requires 0.0 <= d <= u && t <= m + c && c >= 0.0
    ensures d * t <= d * m + c * u
  {
    MulLe(t, m + c, d);
    assert (m + c) * d == d * m + c * d;
    MulLe(d, u, c);
  }

  /** Within an octave, on the clamped series `m` and `m'`, in units. */
  lemma FallWithin(u: real, d: real, t: real, t': real, m: real, m': real)
    requires u > 0.0 && 0.0 <= d <= u && (t - t') * u <= 1.2 * (d * t)
    requires m <= t + 21.0 && t' - 84.0 <= m' && t <= m + 84.0
    ensures (m - m') * u <= 1.2 * (d * m) + 206.0 * u
  {
    calc <= {
      (m - m') * u;
      { MulLe(m - m', t - t' + 105.0, u); }
      (t - t' + 105.0) * u;
      (t - t') * u + 105.0 * u;
      1.2 * (d * t) + 105.0 * u;
      { MulLe(t, m + 84.0, d); }
      1.2 * (d * (m + 84.0)) + 105.0 * u;
      1.2 * (d * m) + 100.8 * d + 105.0 * u;
      1.2 * (d * m) + 206.0 * u;
    }
  }

  /** Across the octave boundary at ln 2, `d1` before it and `d2` after; the value after it is
      shifted once more, so `2*m` is compared with `m'`. */
  lemma FallAcross(u: real, d1: real, d2: real, d: real, t: real, half: real, t': real, m: real, mm: real, m': real)
    requires u > 1000.0 && 0.0 <= d1 && 0.0 <= d2 && d1 + d2 == d <= u && mm == 2.0 * m
    requires u / 2.0 - 32.0 <= half <= u / 2.0 + 73.0 && half <= t
    requires (t - half) * u <= 1.2 * (d1 * t) && (u - t') * u <= 1.2 * (d2 * u)
    requires m <= t + 21.0 && t' - 84.0 <= m' && t <= m + 84.0
    ensures (mm - m') * u <= 1.2 * (d * mm) + 551.0 * u
  {
    ScaleLe(d2, u, 2.0 * t, 64.0, u);
    assert d * t == d1 * t + d2 * t;
    ScaleLe(d, t, m, 84.0, u);
    calc <= {
      (mm - m') * u;
      { MulLe(mm - m', 2.0 * (t - half) + (u - t') + 272.0, u); }
      (2.0 * (t - half) + (u - t') + 272.0) * u;
      2.0 * ((t - half) * u) + (u - t') * u + 272.0 * u;
      2.4 * (d1 * t) + 1.2 * (d2 * u) + 272.0 * u;
      2.4 * (d * t) + 76.8 * u + 272.0 * u;
      2.4 * (d * m) + 201.6 * u + 348.8 * u;
      1.2 * (d * mm) + 551.0 * u;
    }
  }

  /** Shifting both sides down by the octave costs at most three more units. */
  lemma FallShifted(u: real, d: real, p: real, m: real, m': real, e: real, e': real, c: real)
    requires u > 0.0 && p >= 1.0 && 0.0 <= d <= u && c >= 0.0
    requires (m - m') * u <= 1.2 * (d * m) + c * u
    requires e * p <= m < e * p + p && e' * p <= m' < e' * p + p
    ensures (e - e') * u <= 1.2 * (d * e) + (c + 3.0) * u
  {
    ScaleLe(d, m, e * p, p, u);
    calc <= {
      ((e - e') * u) * p;
      { assert (e - e') * p <= m - m' + p; MulLe((e - e') * p, m - m' + p, u); }
      (m - m' + p) * u;
      (m - m') * u + p * u;
      1.2 * (d * m) + c * u + p * u;
      1.2 * (d * (e * p)) + 2.2 * (u * p) + c * u;
      { MulLe(1.0, p, c * u); MulLe(0.0, u, c); MulLe(0.0, u, p); }
      1.2 * (d * (e * p)) + 3.0 * (u * p) + (c * u) * p;
      (1.2 * (d * e) + (c + 3.0) * u) * p;
    }
    Cancel((e - e') * u, 1.2 * (d * e) + (c + 3.0) * u, p);
  }

  /** What the fall of exp may exceed its linear bound by, in units. */
  const FALL_NOISE: int := 554

  /** The clamped series against the exact polynomial `t`. */
  lemma ClampedAccuracy(r: nat, t: real) returns (m: real)
    requires r <= LN2 && t == Taylor(Q64ToReal(r))
    ensures m == Clamped(r) as real
    ensures m <= t + 21.0 && t - 84.0 <= m && t <= m + 84.0
  {
    m := Clamped(r) as real;
    SeriesAccuracy(r);
    var x := ReducedArgument(r);
    AtMostOne(x);
  }

  lemma ClampedFall(r: nat, r': nat, u: real, d: real) returns (m: real, m': real)
    requires r <= r' <= LN2 && u == U && d == (r' - r) as real
    ensures 0.0 <= d <= u
    ensures m == Clamped(r) as real && m' == Clamped(r') as real
    ensures (m - m') * u <= 1.2 * (d * m) + 206.0 * u
  {
    var t, t' := LoopSlope(r, r', u, d);
    m := ClampedAccuracy(r, t);
    m' := ClampedAccuracy(r', t');
    FallWithin(u, d, t, t', m, m');
  }

  lemma ClampedFallAcross(r: nat, r': nat, u: real, d: real) returns (m: real, m': real)
    requires r <= LN2 && r' <= r && u == U && d == (LN2 - r + r') as real
    ensures m == (2 * Clamped(r)) as real && m' == Clamped(r') as real
    ensures (m - m') * u <= 1.2 * (d * m) + 551.0 * u
  {
    var d1, d2 := (LN2 - r) as real, r' as real;
    var t, half := LoopSlope(r, LN2, u, d1);
    var t' := SlopeFromOne(r', u, d2);
    HalfAtLn2(half, u);
    var m0 := ClampedAccuracy(r, t);
    m' := ClampedAccuracy(r', t');
    m := 2.0 * m0;
    LoopRange(r, r', u, d1, d2, d);
    FallAcross(u, d1, d2, d, t, half, t', m0, m, m');
  }

  lemma LoopRange(r: nat, r': nat, u: real, d1: real, d2: real, d: real)
    requires r' <= r <= LN2 && u == U
    requires d1 == (LN2 - r) as real && d2 == r' as real && d == (LN2 - r + r') as real
    ensures 0.0 <= d1 && 0.0 <= d2 && d1 + d2 == d <= u
  {
  }

  lemma SlopeFromOne(r: nat, u: real, d: real) returns (t: real)
    requires r <= LN2 && u == U && d == r as real
    ensures t == Taylor(Q64ToReal(r)) && (u - t) * u <= 1.2 * (d * u)
  {
    var one, t' := LoopSlope(0, r, u, d);
    t := t';
    AtZero();
    assert one == u;
  }

  lemma HalfAtLn2(half: real, u: real)
    requires half == Taylor(Q64ToReal(LN2)) && u == U
    ensures u / 2.0 - 32.0 <= half <= u / 2.0 + 73.0
  {
    SeriesAccuracy(LN2);
    SeriesAtLn2();
  }

  /** From the unshifted fall to the shifted one, back in integers. */
  lemma ShiftFall(m: nat, m': nat, k: nat, d: nat, c: nat, u: real, mr: real, mr': real, dr: real, cr: real)
    requires d <= ONE && u == U
    requires mr == m as real && mr' == m' as real && dr == d as real && cr == c as real
    requires (mr - mr') * u <= 1.2 * (dr * mr) + cr * u
    ensures 5 * ONE * (m / Pow2(k) - m' / Pow2(k)) <= 6 * (d * (m / Pow2(k))) + 5 * ONE * (c + 3)
  {
    var p, e, e' := ShiftedPair(m, m', k, mr, mr');
    FallShifted(u, dr, p, mr, mr', e, e', cr);
    BackToIntegers(m / Pow2(k), m' / Pow2(k), d, c + 3, e, e', dr, u);
  }

  lemma ShiftedPair(m: nat, m': nat, k: nat, mr: real, mr': real) returns (p: real, e: real, e': real)
    requires mr == m as real && mr' == m' as real
    ensures p >= 1.0 && e == (m / Pow2(k)) as real && e' == (m' / Pow2(k)) as real
    ensures e * p <= mr < e * p + p && e' * p <= mr' < e' * p + p
  {
    var a, p', q := FloorReal(m, Pow2(k));
    var a', p'', q' := FloorReal(m', Pow2(k));
    p, e, e' := p', q, q';
  }

  lemma BackToIntegers(q: int, q': int, d: int, c: int, e: real, e': real, dr: real, u: real)
    requires e == q as real && e' == q' as real && dr == d as real && u == U
    requires (e - e') * u <= 1.2 * (dr * e) + c as real * u
    ensures 5 * ONE * (q - q') <= 6 * (d * q) + 5 * ONE * c
  {
    assert (d * q) as real == dr * e;
  }

  /** exp(-x) falls by at most 1.2 times its own value per unit of argument, up to rounding. */
  lemma ExpFallsSlowly(x: nat, h: nat)
    requires h < LN2
    ensures 5 * ONE * (ExpNeg(x) - ExpNeg(x + h)) <= 6 * (h * ExpNeg(x)) + 5 * ONE * FALL_NOISE
  {
    var k, l := x / LN2, (x + h) / LN2;
    DivMono(x, x + h, LN2);
    DivAtMost(x + h, LN2, k + 1);
    if l >= 64 {
      TopOctave(x);
      MulMono(0, h, ExpNeg(x));
    } else if l == k {
      FallsInOctave(x, h, x % LN2, (x + h) % LN2, k);
    } else {
      FallsAcross(x, h, x % LN2, (x + h) % LN2, k);
    }
  }

  lemma FallsInOctave(x: nat, h: nat, r: nat, r': nat, k: nat)
    requires r <= LN2 && r' == r + h <= LN2
    requires ExpNeg(x) == Clamped(r) / Pow2(k) && ExpNeg(x + h) == Clamped(r') / Pow2(k)
    ensures 5 * ONE * (ExpNeg(x) - ExpNeg(x + h)) <= 6 * (h * ExpNeg(x)) + 5 * ONE * FALL_NOISE
  {
    OctaveFall(r, r', k, h, h as real);
  }

  lemma OctaveFall(r: nat, r': nat, k: nat, h: nat, d: real)
    requires r <= LN2 && r' == r + h <= LN2 && d == h as real
    ensures 5 * ONE * (Clamped(r) / Pow2(k) - Clamped(r') / Pow2(k))
         <= 6 * (h * (Clamped(r) / Pow2(k))) + 5 * ONE * 209
  {
    var m, m' := ClampedFall(r, r', U, d);
    ShiftFall(Clamped(r), Clamped(r'), k, h, 206, U, m, m', d, 206.0);
  }

  lemma FallsAcross(x: nat, h: nat, r: nat, r': nat, k: nat)
    requires r <= LN2 && h < LN2 && h == LN2 - r + r'
    requires ExpNeg(x) == Clamped(r) / Pow2(k) && ExpNeg(x + h) == Clamped(r') / Pow2(k + 1)
    ensures 5 * ONE * (ExpNeg(x) - ExpNeg(x + h)) <= 6 * (h * ExpNeg(x)) + 5 * ONE * FALL_NOISE
  {
    HalvedQuotient(Clamped(r), Pow2(k));
    AcrossFall(r, r', k + 1, h, h as real);
  }

  lemma AcrossFall(r: nat, r': nat, k: nat, h: nat, d: real)
    requires r <= LN2 && h < LN2 && h == LN2 - r + r' && d == h as real
    ensures 5 * ONE * (2 * Clamped(r) / Pow2(k) - Clamped(r') / Pow2(k))
         <= 6 * (h * (2 * Clamped(r) / Pow2(k))) + 5 * ONE * 554
  {
    var m, m' := ClampedFallAcross(r, r', U, d);
    ShiftFall(2 * Clamped(r), Clamped(r'), k, h, 551, U, m, m', d, 551.0);
  }

  lemma HalvedQuotient(m: nat, p: nat)
    requires p > 0
    ensures 2 * m / (2 * p) == m / p
  {
    DivBounds(m, p);
    var q := m / p;
    assert q * (2 * p) == 2 * (q * p);
    DivUnique(2 * m, 2 * p, q);
  }

  lemma TopOctave(x: nat)
    requires x / LN2 >= 63
    ensures 0 <= ExpNeg(x) <= 2
  {
    if x / LN2 == 63 {
      var k := x / LN2;
      Pow63(k);
      DivAtMost(Clamped(x % LN2), Pow2(k), 2);
      DivAtLeast(Clamped(x % LN2), Pow2(k), 0);
    }
  }

  /** 2^63, by repeated squaring. */
  lemma Pow63(k: nat)
    requires k == 63
    ensures Pow2(k) == ONE / 2
  {
    var a :| a == 3;
    PowTwiceAndOne(a, 8);
    var b :| b == 7;
    PowTwiceAndOne(b, 0x80);
    var c :| c == 15;
    PowTwiceAndOne(c, 0x8000);
    var d :| d == 31;
    PowTwiceAndOne(d, 0x8000_0000);
  }

  lemma PowTwiceAndOne(k: nat, p: nat)
    requires Pow2(k) == p
    ensures Pow2(2 * k + 1) == 2 * p * p
  {
    PowAdd(k, k);
  }

  lemma {:induction false} PowAdd(a: nat, b: nat)
    ensures Pow2(a + b) == Pow2(a) * Pow2(b)
  {
    if a > 0 {
      PowAdd(a - 1, b);
    }
  }
}
