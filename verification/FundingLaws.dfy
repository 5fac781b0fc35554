/** What the leverage arithmetic guarantees. */
module FundingLaws {
  import opened Machine
  import opened Funding

  lemma FloorUnique(num: int, den: int, q: int)
    requires den > 0 && q * den <= num < q * den + den
    ensures DivFloor(num, den) == q
  {
    var p := DivFloor(num, den);
    if p < q { MulMono(p + 1, q, den); }
    if p > q { MulMono(q + 1, p, den); }
  }

  lemma FloorMonotone(a: int, b: int, den: int)
    requires den > 0 && a <= b
    ensures DivFloor(a, den) <= DivFloor(b, den)
  {
    hide DivFloor;
    var p, q := DivFloor(a, den), DivFloor(b, den);
    if p > q { MulMono(q + 1, p, den); }
  }

  // ----------------------------------------------------------------- profit

  lemma PnlMonotone(units: u64, entry: u16, mark: u16, mark': u16)
    requires mark <= mark'
    ensures RawPnl(units, entry, mark) <= RawPnl(units, entry, mark')
  {
    MulMono(mark - entry, mark' - entry, units);
    FloorMonotone(units * (mark - entry), units * (mark' - entry), BPS_DENOM);
  }

  /** At the entry mark nothing is won or lost; at a certain win, exactly the booked bound. */
  lemma PnlAtEnds(units: u64, entry: u16, win: u16)
    requires IsEntryMark(entry) && win == BPS_DENOM
    ensures RawPnl(units, entry, entry) == 0
    ensures RawPnl(units, entry, win) == MaxGain(units, entry).value
  {
    FloorUnique(units * (entry - entry), BPS_DENOM, 0);
    DivBounds(units * (BPS_DENOM - entry), BPS_DENOM);
    FloorUnique(units * (win - entry), BPS_DENOM, MaxGain(units, entry).value);
  }

  /** No mark wins more than the booked bound, and no loss exceeds the notional. */
  lemma PnlRange(collateral: u64, leverage: u16, entry: u16, units: u64, mark: u16)
    requires UnitsFor(collateral, leverage, entry) == Done(units) && mark <= BPS_DENOM
    ensures -(collateral * leverage) <= RawPnl(units, entry, mark) <= MaxGain(units, entry).value
  {
    var win: u16, lose: u16 := BPS_DENOM, 0;
    PnlMonotone(units, entry, mark, win);
    PnlMonotone(units, entry, lose, mark);
    PnlAtEnds(units, entry, win);
    LossAtMostNotional(collateral * leverage, units, entry, lose);
  }

  lemma LossAtMostNotional(notional: int, units: u64, entry: u16, lose: u16)
    requires notional >= 0 && IsEntryMark(entry) && units == notional * BPS_DENOM / entry && lose == 0
    ensures RawPnl(units, entry, lose) >= -notional
  {
    DivBounds(notional * BPS_DENOM, entry);
    var q := RawPnl(units, entry, lose);
    assert units * (lose - entry) == -(units * entry);
    if q < -notional { MulMono(q + 1, -notional, BPS_DENOM); }
  }

  /** A settlement never pays more than collateral and booked gain together, and never below zero;
      without funding and at the entry mark it returns the collateral exactly. */
  lemma PayoutIsBooked(units: u64, entry: u16, mark: u16, collateral: u64, funding: u64)
    requires Pnl(units, entry, mark).Done?
    ensures 0 <= SettlePayout(collateral, Pnl(units, entry, mark).value, funding)
              <= collateral + MaxGain(units, entry).value
    ensures mark == entry && funding == 0 ==> SettlePayout(collateral, Pnl(units, entry, mark).value, funding) == collateral
  {
    hide RawPnl;
    var win: u16 := BPS_DENOM;
    PnlMonotone(units, entry, mark, win);
    PnlAtEnds(units, entry, win);
  }

  /** Which wins and losses fit the 64-bit profit, and so can settle at all. */
  lemma SettlesExactlyWhen(units: u64, entry: u16, win: u16, lose: u16)
    requires IsEntryMark(entry) && win == BPS_DENOM && lose == 0
    ensures Pnl(units, entry, win).Done? <==> MaxGain(units, entry).value < TWO63
    ensures Pnl(units, entry, lose).Done? <==> units * entry <= TWO63 * BPS_DENOM
  {
    PnlAtEnds(units, entry, win);
    var loss := RawPnl(units, entry, lose);
    assert units * (lose - entry) == -(units * entry);
    if loss < -TWO63 && units * entry <= TWO63 * BPS_DENOM { MulMono(loss + 1, -TWO63, BPS_DENOM); }
    if loss >= -TWO63 { MulMono(-TWO63, loss, BPS_DENOM); }
    MulMono(0, entry, units);
    if loss >= TWO63 { MulMono(1, loss, BPS_DENOM); }
  }

  // ---------------------------------------------------------------- funding

  /** Funding only grows with the index: once it has eaten the collateral it stays so. */
  lemma FundingMonotone(notional: u64, snap: u128, now: u128, later: u128)
    requires snap <= now <= later
    requires FundingAccrued(notional, now, snap).Done? && FundingAccrued(notional, later, snap).Done?
    ensures FundingAccrued(notional, now, snap).value <= FundingAccrued(notional, later, snap).value
  {
    MulMono(now - snap, later - snap, notional);
    DivMono(notional * (now - snap), notional * (later - snap), INDEX_SCALE);
  }

  /** Funding over two adjacent spans adds up to the joined span, less one unit at most. */
  lemma FundingAddsUp(notional: u64, a: u128, b: u128, c: u128)
    requires a <= b <= c && FundingAccrued(notional, c, a).Done?
    ensures FundingAccrued(notional, b, a).Done? && FundingAccrued(notional, c, b).Done?
    ensures var parts := FundingAccrued(notional, b, a).value + FundingAccrued(notional, c, b).value;
      parts <= FundingAccrued(notional, c, a).value <= parts + 1
  {
    MulMono(b - a, c - a, notional);
    MulMono(c - b, c - a, notional);
    assert notional * (c - a) == notional * (b - a) + notional * (c - b);
    FloorsOfSum(notional * (b - a), notional * (c - b), INDEX_SCALE);
  }

  lemma FloorsOfSum(x: nat, y: nat, d: nat)
    requires d > 0
    ensures 0 <= x / d && 0 <= y / d && x / d + y / d <= (x + y) / d <= x / d + y / d + 1
  {
    DivBounds(x, d);
    DivBounds(y, d);
    DivAtLeast(x, d, 0);
    DivAtLeast(y, d, 0);
    var f, h := x / d, y / d;
    FloorsAdd(f, h, d);
    DivAtLeast(x + y, d, f + h);
    DivAtMost(x + y, d, f + h + 1);
  }

  lemma FloorsAdd(f: int, h: int, d: int)
    ensures (f + h) * d == f * d + h * d && (f + h + 2) * d == f * d + h * d + 2 * d
  {
  }

  // ------------------------------------------------------------------ index

  /** Time is never free: a nonzero segment always advances the index. */
  lemma TimeIsNeverFree(tfn: u32, p: u16, elapsed: i64, tRem: i64, multiplier: u16)
    requires tfn > 0 && 0 < p < BPS_DENOM && elapsed > 0 && IdxDelta(tfn, p, elapsed, tRem, multiplier).Done?
    ensures IdxDelta(tfn, p, elapsed, tRem, multiplier).value > 0
  {
    MulMono(1, p, tfn);
    MulMono(1, BPS_DENOM - p, tfn * p);
    MulMono(1, elapsed, tfn * p * (BPS_DENOM - p) * INDEX_SCALE);
    CeilBounds(RateNum(tfn, p, elapsed), RateDen(tRem));
    var delta := CeilDiv(RateNum(tfn, p, elapsed), RateDen(tRem));
    if delta <= 0 { MulMono(delta, 0, RateDen(tRem)); }
    if multiplier > BPS_DENOM {
      CeilBounds(delta * multiplier, BPS_DENOM);
      MulMono(1, delta, multiplier);
    }
  }

  /** The valve multiplies funding by one at least and five at most. */
  lemma ValveIsBounded(tfn: u32, p: u16, elapsed: i64, tRem: i64, multiplier: u16, neutral: u16)
    requires BPS_DENOM <= multiplier <= VALVE_MAX_MULTIPLIER_BPS && neutral == BPS_DENOM
    requires IdxDelta(tfn, p, elapsed, tRem, multiplier).Done?
    ensures IdxDelta(tfn, p, elapsed, tRem, neutral).Done?
    ensures IdxDelta(tfn, p, elapsed, tRem, neutral).value
         <= IdxDelta(tfn, p, elapsed, tRem, multiplier).value
         <= 5 * IdxDelta(tfn, p, elapsed, tRem, neutral).value
  {
    hide RateNum, RateDen;
    if elapsed > 0 && multiplier > BPS_DENOM {
      var delta := CeilChecked(RateNum(tfn, p, elapsed), RateDen(tRem)).value;
      MulMono(BPS_DENOM, multiplier, delta);
      MulMono(multiplier, VALVE_MAX_MULTIPLIER_BPS, delta);
      CeilBounds(delta * multiplier, BPS_DENOM);
    }
  }

  /** The index advance of one post with the valve off, whenever it is computed at all. */
  lemma NeutralDelta(tfn: u32, p: u16, elapsed: i64, tRem: i64, neutral: u16)
    requires p <= BPS_DENOM && neutral == BPS_DENOM && IdxDelta(tfn, p, elapsed, tRem, neutral).Done?
    ensures IdxDelta(tfn, p, elapsed, tRem, neutral).value == CeilDiv(RateNum(tfn, p, Max(elapsed, 0)), RateDen(tRem))
  {
    if elapsed <= 0 {
      DivUnique(RateDen(tRem) - 1, RateDen(tRem), 0);
    }
  }

  /** A post of marks, as the index sees it: the segment it closes, the time left to the freeze, the valve. */
  datatype Post = Post(elapsed: i64, tRemaining: i64, valve: u16)

  /** What the posts of a run add to an index whose mark stays at `p`, each under its own valve. */
  function SumOfPosts(tfn: u32, p: u16, posts: seq<Post>): (total: nat)
    requires AllComputed(tfn, p, posts)
  {
    if posts == [] then 0
    else IdxDelta(tfn, p, posts[0].elapsed, posts[0].tRemaining, posts[0].valve).value + SumOfPosts(tfn, p, posts[1..])
  }

  predicate AllComputed(tfn: u32, p: u16, posts: seq<Post>) {
    forall i :: 0 <= i < |posts| ==> IdxDelta(tfn, p, posts[i].elapsed, posts[i].tRemaining, posts[i].valve).Done?
  }

  /** The same with the valve off. */
  function SumOfDeltas(tfn: u32, p: u16, posts: seq<Post>): (total: nat)
    requires p <= BPS_DENOM
  {
    if posts == [] then 0
    else
      CeilAtLeastZero(RateNum(tfn, p, Max(posts[0].elapsed, 0)), RateDen(posts[0].tRemaining));
      CeilDiv(RateNum(tfn, p, Max(posts[0].elapsed, 0)), RateDen(posts[0].tRemaining)) + SumOfDeltas(tfn, p, posts[1..])
  }

  function SumOfTimes(posts: seq<Post>): (total: nat) {
    if posts == [] then 0 else Max(posts[0].elapsed, 0) + SumOfTimes(posts[1..])
  }

  lemma CeilAtLeastZero(num: nat, den: nat)
    requires den > 0
    ensures CeilDiv(num, den) >= 0
  {
    DivAtLeast(num + (den - 1), den, 0);
  }

  /** Splitting an interval into n posts accrues at most what one post at its end accrues, and n - 1 more:
      the time left only shrinks, so earlier posts are priced lower. */
  lemma {:induction false} SplittingIsCheap(tfn: u32, p: u16, posts: seq<Post>, tEnd: i64)
    requires p <= BPS_DENOM && |posts| > 0
    requires forall i :: 0 <= i < |posts| ==> tEnd <= posts[i].tRemaining
    ensures SumOfDeltas(tfn, p, posts)
         <= CeilDiv(RateNum(tfn, p, SumOfTimes(posts)), RateDen(tEnd)) + (|posts| - 1)
    decreases |posts|
  {
    var first, rest := posts[0], posts[1..];
    var e := Max(first.elapsed, 0);
    LaterIsDearer(RateNum(tfn, p, e), first.tRemaining, tEnd);
    if rest == [] {
      assert SumOfTimes(posts) == e + SumOfTimes(rest) == e;
    } else {
      assert forall i :: 0 <= i < |rest| ==> rest[i] == posts[i + 1];
      SplittingIsCheap(tfn, p, rest, tEnd);
      RateAdds(tfn, p, e, SumOfTimes(rest));
      CeilsOfSum(RateNum(tfn, p, e), RateNum(tfn, p, SumOfTimes(rest)), RateDen(tEnd));
    }
  }

  predicate ValvesInBounds(posts: seq<Post>) {
    forall i :: 0 <= i < |posts| ==> BPS_DENOM <= posts[i].valve <= VALVE_MAX_MULTIPLIER_BPS
  }

  predicate ValvesOff(posts: seq<Post>) {
    forall i :: 0 <= i < |posts| ==> posts[i].valve == BPS_DENOM
  }

  /** Whatever the valve does within its bounds, posts advance the index by one to five times the neutral
      amount; with the valve off by exactly that. */
  lemma {:induction false} ValvedSumIsBounded(tfn: u32, p: u16, posts: seq<Post>)
    requires p <= BPS_DENOM && AllComputed(tfn, p, posts) && ValvesInBounds(posts)
    ensures SumOfDeltas(tfn, p, posts) <= SumOfPosts(tfn, p, posts) <= 5 * SumOfDeltas(tfn, p, posts)
    ensures ValvesOff(posts) ==> SumOfPosts(tfn, p, posts) == SumOfDeltas(tfn, p, posts)
    decreases |posts|
  {
    hide IdxDelta, CeilDiv, RateNum, RateDen;
    if posts != [] {
      var first := posts[0];
      ValveIsBounded(tfn, p, first.elapsed, first.tRemaining, first.valve, BPS_DENOM);
      NeutralDelta(tfn, p, first.elapsed, first.tRemaining, BPS_DENOM);
      ValvedSumIsBounded(tfn, p, posts[1..]);
    }
  }

  lemma LaterIsDearer(num: nat, t: i64, tEnd: i64)
    requires tEnd <= t
    ensures CeilDiv(num, RateDen(t)) <= CeilDiv(num, RateDen(tEnd))
  {
    var big, small := RateDen(t), RateDen(tEnd);
    CeilBounds(num, big);
    CeilBounds(num, small);
    CeilAtLeastZero(num, small);
    var c, c' := CeilDiv(num, big), CeilDiv(num, small);
    MulMono(small, big, c');
    if c > c' { MulMono(c' + 1, c, big); }
  }

  lemma RateAdds(tfn: u32, p: u16, e: nat, e': nat)
    requires p <= BPS_DENOM
    ensures RateNum(tfn, p, e + e') == RateNum(tfn, p, e) + RateNum(tfn, p, e')
  {
    var r := tfn * p * (BPS_DENOM - p) * INDEX_SCALE;
    assert r * (e + e') == r * e + r * e';
  }

  lemma CeilsOfSum(x: nat, y: nat, d: nat)
    requires d > 0
    ensures CeilDiv(x, d) + CeilDiv(y, d) <= CeilDiv(x + y, d) + 1
  {
    hide CeilDiv;
    CeilBounds(x, d);
    CeilBounds(y, d);
    CeilBounds(x + y, d);
    CeilsAdd(CeilDiv(x, d), CeilDiv(y, d), CeilDiv(x + y, d), d, x, y);
  }

  lemma CeilsAdd(f: int, g: int, h: int, d: nat, x: int, y: int)
    requires d > 0 && f * d - d < x && g * d - d < y && x + y <= h * d
    ensures f + g <= h + 1
  {
    assert (f + g) * d == f * d + g * d;
    if f + g >= h + 2 { MulMono(h + 2, f + g, d); }
  }

  // -------------------------------------------------------------- LP shares

  /** A deposit never lowers the value of a share (cross-multiplied). */
  lemma DepositKeepsPrice(amount: u64, shares: u64, totalShares: u64, vault: u64)
    requires totalShares > 0 && SharesForDeposit(amount, totalShares, vault) == Done(shares)
    ensures (vault + amount) * totalShares >= vault * (totalShares + shares)
  {
    if vault == 0 {
      MulMono(0, totalShares, amount);
    } else {
      DivBounds(amount * totalShares, vault);
      assert shares * vault <= amount * totalShares;
      assert (vault + amount) * totalShares == vault * totalShares + amount * totalShares;
      assert vault * (totalShares + shares) == vault * totalShares + shares * vault;
    }
  }

  /** A withdrawal never lowers the value of the shares that stay. */
  lemma WithdrawKeepsPrice(shares: u64, value: u64, totalShares: u64, vault: u64)
    requires shares <= totalShares && ValueForShares(shares, totalShares, vault) == Done(value)
    ensures value <= vault
    ensures (vault - value) * totalShares >= vault * (totalShares - shares)
  {
    DivBounds(shares * vault, totalShares);
    MulMono(shares, totalShares, vault);
    DivAtMost(shares * vault, totalShares, vault);
    assert value * totalShares <= shares * vault;
    assert (vault - value) * totalShares == vault * totalShares - value * totalShares;
    assert vault * (totalShares - shares) == vault * totalShares - shares * vault;
  }

  /** A deposit followed at once by a withdrawal of the new shares returns at most the deposit exactly
      when there were shares already, or nothing in the vault to share. */
  lemma RoundTripExactlyWhen(amount: u64, shares: u64, totalShares: u64, vault: u64)
    requires amount > 0 && SharesForDeposit(amount, totalShares, vault) == Done(shares) && shares > 0
    requires totalShares + shares < TWO64 && vault + amount < TWO64
    ensures ValueForShares(shares, totalShares + shares, vault + amount).Done?
    ensures ValueForShares(shares, totalShares + shares, vault + amount).value <= amount <==> (totalShares > 0 || vault == 0)
  {
    var t, v := totalShares + shares, vault + amount;
    MulMono(shares, t, v);
    DivAtMost(shares * v, t, v);
    if totalShares == 0 {
      DivUnique(shares * v, t, v);
    } else {
      DepositKeepsPrice(amount, shares, totalShares, vault);
      BackAtMost(amount, shares, totalShares, vault);
    }
  }

  lemma BackAtMost(amount: nat, shares: nat, total: nat, vault: nat)
    requires shares + total > 0 && (vault + amount) * total >= vault * (total + shares)
    ensures shares * (vault + amount) / (total + shares) <= amount
  {
    assert vault * (total + shares) == vault * total + vault * shares;
    assert (vault + amount) * total == vault * total + amount * total;
    assert shares * (vault + amount) == vault * shares + shares * amount;
    assert amount * (total + shares) == amount * total + shares * amount;
    assert (amount + 1) * (total + shares) == amount * (total + shares) + (total + shares);
    DivAtMost(shares * (vault + amount), total + shares, amount);
  }

  // ----------------------------------------------------------------- leverage

  /** The taper gives the full cap away from the ends, one at the ends, and never more in between. */
  lemma TaperIsMonotone(p: u16, q: u16, maxLeverage: u16)
    requires p <= q <= BPS_DENOM / 2 && maxLeverage >= 1
    ensures 1 <= MaxLeverageForP(p, maxLeverage) <= MaxLeverageForP(q, maxLeverage) <= maxLeverage
    ensures MaxLeverageForP(p, maxLeverage) == MaxLeverageForP(BPS_DENOM - p, maxLeverage)
  {
    MulMono(p, q, maxLeverage - 1);
    if p < TAPER_FULL_EDGE_BPS {
      DivAtLeast((maxLeverage - 1) * p, TAPER_FULL_EDGE_BPS, 0);
      if q < TAPER_FULL_EDGE_BPS {
        DivMono((maxLeverage - 1) * p, (maxLeverage - 1) * q, TAPER_FULL_EDGE_BPS);
      }
    }
  }
}
