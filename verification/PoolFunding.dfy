/** Funding over whole runs of the leverage pool: what the posts of a run add to an outcome's index. */
module PoolFunding {
  import opened Machine
  import opened Funding
  import opened FundingLaws
  import opened FundingAmounts
  import opened Pool
  import opened PoolLaws
  import opened PoolRuns
  import opened PoolGuards

  /** An accepted post of marks that closes a segment. */
  predicate IsAccrual(w: LevWorld, a: LevAction) {
    a.PostMark? && w.pool.markTs > 0 && 0 <= a.now - w.pool.lastFundingTs < TWO63 && Step(w, a).Ok?
  }

  function PostOf(w: LevWorld, a: LevAction): Post
    requires IsAccrual(w, a)
  {
    Post(a.now - w.pool.lastFundingTs, SaturatingSub(w.market.freezeTs, a.now), Multiplier(w.pool, a.now))
  }

  // ------------------------------------------------------------- one post

  /** An index grows by one advance at that rate, mark, time, time left and valve. */
  ghost predicate Advances(rate: u32, mark: u16, elapsed: nat, left: nat, valve: u16, growth: nat) {
    exists neutral: nat :: IsAdvance(rate, mark, elapsed, left, valve, neutral, growth)
  }

  /** What an accepted post does: each index advances over the elapsed time at the mark in force during it, the one
      stored before, under the valve at that moment; then the new marks are stored. The first post only stores. */
  lemma AccruesAtPreviousMarks(w: LevWorld, marks: Marks, now: i64, i: nat, valve: u16)
    requires Books(w) && i < 3 && Step(w, PostMark(marks, now)).Ok?
    requires valve == if now < w.pool.valveUntilTs then w.pool.valveMultiplierBps else 10_000
    ensures var w' := Step(w, PostMark(marks, now)).value; var p, p' := w.pool, w'.pool;
      && w' == w.(pool := p.(cumFundingIndex := p'.cumFundingIndex, markBps := marks, markTs := now, lastFundingTs := now))
      && p.cumFundingIndex[i] <= p'.cumFundingIndex[i]
      && (p.markTs > 0 ==>
            (now >= p.lastFundingTs
             && Advances(w.params.timeFeeNum, p.markBps[i], now - p.lastFundingTs, TimeLeft(w.market.freezeTs, now), valve,
                  p'.cumFundingIndex[i] - p.cumFundingIndex[i])))
      && (p.markTs <= 0 ==> p'.cumFundingIndex == p.cumFundingIndex)
  {
    hide IdxDelta, IsAdvance, WellBooked;
    var p := w.pool;
    if p.markTs > 0 {
      assert Accrued(w, 0, now).Ok? && Accrued(w, 1, now).Ok? && Accrued(w, 2, now).Ok?;
      assert Accrued(w, i, now).Ok?;
      var neutral := AdvanceIs(w.params.timeFeeNum, p.markBps[i], now - p.lastFundingTs,
        SaturatingSub(w.market.freezeTs, now), valve, TimeLeft(w.market.freezeTs, now));
    }
  }

  /** The valve applies as it was set: a post of a later run, with no other valve action before it, is charged
      the multiplier while the window lasts and nothing more after it. */
  lemma ValveAppliesAsSet(w: LevWorld, pause: i64, multiplier: u16, window: i64, t: i64, actions: seq<LevAction>,
                          w1: LevWorld, marks: Marks, now: i64, i: nat, valve: u16)
    requires Books(w) && i < 3 && Step(w, SetRiskValve(pause, multiplier, window, t)).Ok?
    requires forall k :: 0 <= k < |actions| ==> !actions[k].SetRiskValve?
    requires w1 == Run(Step(w, SetRiskValve(pause, multiplier, window, t)).value, actions)
    requires w1.pool.markTs > 0 && Step(w1, PostMark(marks, now)).Ok?
    requires valve == if now < t + window then multiplier else 10_000
    ensures var p, p' := w1.pool, Step(w1, PostMark(marks, now)).value.pool;
      && now >= p.lastFundingTs && p'.cumFundingIndex[i] >= p.cumFundingIndex[i]
      && Advances(w1.params.timeFeeNum, p.markBps[i], now - p.lastFundingTs, TimeLeft(w1.market.freezeTs, now), valve,
           p'.cumFundingIndex[i] - p.cumFundingIndex[i])
  {
    hide Run, Books, Advances, Step, Backing, AllUsdt;
    ValveSetsExactlyWhen(w, pause, multiplier, window, t);
    var armed := Step(w, SetRiskValve(pause, multiplier, window, t)).value;
    assert Apply(w, SetRiskValve(pause, multiplier, window, t)) == armed;
    StepKeepsBooks(w, SetRiskValve(pause, multiplier, window, t));
    RunKeepsBooks(armed, actions);
    ValveStays(armed, actions);
    AccruesAtPreviousMarks(w1, marks, now, i, valve);
  }

  // ------------------------------------------------------------------ all runs

  /** What was in force while a segment ran: the fee rate and the outcome's mark before the post that closes it. */
  datatype Segment = Segment(rate: u32, mark: u16, post: Post)

  function SegmentsOf(w: LevWorld, actions: seq<LevAction>, i: nat): seq<Segment>
    requires i < 3
    decreases |actions|
  {
    if actions == [] then []
    else
      (if IsAccrual(w, actions[0]) then [Segment(w.params.timeFeeNum, w.pool.markBps[i], PostOf(w, actions[0]))] else [])
      + SegmentsOf(Apply(w, actions[0]), actions[1..], i)
  }

  function AdvanceOf(s: Segment): Computed<u128> {
    IdxDelta(s.rate, s.mark, s.post.elapsed, s.post.tRemaining, s.post.valve)
  }

  predicate AllAdvance(segments: seq<Segment>) {
    forall k :: 0 <= k < |segments| ==> AdvanceOf(segments[k]).Done?
  }

  function SumOfAdvances(segments: seq<Segment>): (total: nat)
    requires AllAdvance(segments)
  {
    if segments == [] then 0 else AdvanceOf(segments[0]).value + SumOfAdvances(segments[1..])
  }

  /** Over every run of the pool, whatever is posted, set, traded or changed in it: the index grows by exactly the
      sum of its segments' advances, each priced at the mark, the rate and the valve in force. */
  lemma {:induction false} IndexGrowsByPosts(w: LevWorld, actions: seq<LevAction>, i: nat)
    requires Books(w) && i < 3
    ensures AllAdvance(SegmentsOf(w, actions, i))
    ensures Run(w, actions).pool.cumFundingIndex[i] as int
         == w.pool.cumFundingIndex[i] + SumOfAdvances(SegmentsOf(w, actions, i))
    decreases |actions|
  {
    hide Apply, Books, AdvanceOf, IsAccrual;
    if actions != [] {
      var w1, rest := Apply(w, actions[0]), actions[1..];
      StepKeepsBooks(w, actions[0]);
      StepGrowsBySegment(w, actions[0], i);
      IndexGrowsByPosts(w1, rest, i);
      var segments := SegmentsOf(w1, rest, i);
      if IsAccrual(w, actions[0]) {
        var first := Segment(w.params.timeFeeNum, w.pool.markBps[i], PostOf(w, actions[0]));
        assert SegmentsOf(w, actions, i) == [first] + segments;
        assert ([first] + segments)[1..] == segments;
      } else {
        assert SegmentsOf(w, actions, i) == [] + segments == segments;
      }
    }
  }

  lemma StepGrowsBySegment(w: LevWorld, a: LevAction, i: nat)
    requires Books(w) && i < 3
    ensures !IsAccrual(w, a) ==> Apply(w, a).pool.cumFundingIndex == w.pool.cumFundingIndex
    ensures IsAccrual(w, a) ==>
      var delta := AdvanceOf(Segment(w.params.timeFeeNum, w.pool.markBps[i], PostOf(w, a)));
      delta.Done? && Apply(w, a).pool.cumFundingIndex[i] as int == w.pool.cumFundingIndex[i] + delta.value
  {
    hide IdxDelta, WellBooked, DoOpen, DoClose, DoExpire, DoDeposit, DoRequest, DoWithdraw;
    if a.PostMark? {
      if Step(w, a).Ok? && w.pool.markTs > 0 {
        assert Accrued(w, 0, a.now).Ok? && Accrued(w, 1, a.now).Ok? && Accrued(w, 2, a.now).Ok?;
        assert Accrued(w, i, a.now).Ok?;
      }
    } else {
      OthersKeepIndexes(w, a);
    }
  }

  /** Only posts move indexes, marks and their clock. */
  lemma OthersKeepIndexes(w: LevWorld, a: LevAction)
    requires !a.PostMark?
    ensures var p, p' := w.pool, Apply(w, a).pool;
      p'.cumFundingIndex == p.cumFundingIndex && p'.markBps == p.markBps && p'.markTs == p.markTs
      && p'.lastFundingTs == p.lastFundingTs
  {
    hide OpenGuards, UnitsFor, MaxGain, CoverageOk, ComputeSettlement, SharesForDeposit, ValueForShares;
  }

  /** The marks of the last accepted post. */
  function MarksInForce(w: LevWorld, actions: seq<LevAction>): Marks
    decreases |actions|
  {
    if actions == [] then w.pool.markBps
    else
      var front, last := actions[..|actions| - 1], actions[|actions| - 1];
      if last.PostMark? && Step(Run(w, front), last).Ok? then last.marks else MarksInForce(w, front)
  }

  lemma {:induction false} MarksAreTheLastPosted(w: LevWorld, actions: seq<LevAction>)
    ensures Run(w, actions).pool.markBps == MarksInForce(w, actions)
    decreases |actions|
  {
    hide Apply, Step;
    if actions != [] {
      var front, last := actions[..|actions| - 1], actions[|actions| - 1];
      MarksAreTheLastPosted(w, front);
      LastStep(w, actions);
      PostStoresMarks(Run(w, front), last);
    }
  }

  lemma {:induction false} LastStep(w: LevWorld, actions: seq<LevAction>)
    requires actions != []
    ensures Run(w, actions) == Apply(Run(w, actions[..|actions| - 1]), actions[|actions| - 1])
    decreases |actions|
  {
    if |actions| == 1 {
      assert actions[1..] == [] && actions[..0] == [];
      assert Run(w, actions) == Run(Apply(w, actions[0]), []);
    } else {
      var back := actions[1..];
      LastStep(Apply(w, actions[0]), back);
      assert back[..|back| - 1] == actions[..|actions| - 1][1..];
    }
  }

  lemma PostStoresMarks(w: LevWorld, a: LevAction)
    ensures Apply(w, a).pool.markBps == if a.PostMark? && Step(w, a).Ok? then a.marks else w.pool.markBps
  {
    hide Accrued, DoOpen, DoClose, DoExpire, DoDeposit, DoRequest, DoWithdraw;
    if !a.PostMark? {
      OthersKeepIndexes(w, a);
    }
  }

  // ------------------------------------------------------------ steady marks

  /** The segments a run closes, in order. */
  function PostsOf(w: LevWorld, actions: seq<LevAction>): seq<Post>
    decreases |actions|
  {
    if actions == [] then []
    else (if IsAccrual(w, actions[0]) then [PostOf(w, actions[0])] else []) + PostsOf(Apply(w, actions[0]), actions[1..])
  }

  /** The outcome's mark, the fee rate and the freeze time stay; anything else may happen. */
  predicate Steady(w: LevWorld, i: nat, a: LevAction)
    requires i < 3
  {
    match a
    case PostMark(marks, now) => marks[i] == w.pool.markBps[i]
    case UpdateLeverageParams(params) => params.timeFeeNum == w.params.timeFeeNum
    case MarketMoves(market) => market.freezeTs == w.market.freezeTs
    case _ => true
  }

  predicate AllSteady(w: LevWorld, i: nat, actions: seq<LevAction>)
    requires i < 3
  {
    forall k :: 0 <= k < |actions| ==> Steady(w, i, actions[k])
  }

  /** What the index of outcome `i` depends on. */
  ghost predicate SameRate(w: LevWorld, w': LevWorld, i: nat)
    requires i < 3
  {
    && w'.pool.markBps[i] == w.pool.markBps[i] && w'.params.timeFeeNum == w.params.timeFeeNum
    && w'.market.freezeTs == w.market.freezeTs
  }

  /** No other instruction touches marks, indexes or their clock. */
  lemma OthersKeepIndex(w: LevWorld, a: LevAction, i: nat)
    requires i < 3 && Steady(w, i, a) && !a.PostMark?
    ensures var w' := Apply(w, a);
      SameRate(w, w', i) && w'.pool.cumFundingIndex == w.pool.cumFundingIndex
      && w'.pool.markTs == w.pool.markTs && w'.pool.lastFundingTs == w.pool.lastFundingTs
  {
    hide OpenGuards, UnitsFor, MaxGain, CoverageOk, ComputeSettlement, SharesForDeposit, ValueForShares;
  }

  /** A post adds exactly its segment's advance. */
  lemma PostAdds(w: LevWorld, a: LevAction, i: nat)
    requires i < 3 && Steady(w, i, a) && a.PostMark? && w.pool.markTs > 0 && w.pool.markTs == w.pool.lastFundingTs
    ensures var w' := Apply(w, a);
      && SameRate(w, w', i) && w'.pool.markTs > 0 && w'.pool.markTs == w'.pool.lastFundingTs
      && (!IsAccrual(w, a) ==> w' == w)
    ensures IsAccrual(w, a) ==>
      var w' := Apply(w, a); var post := PostOf(w, a);
      var delta := IdxDelta(w.params.timeFeeNum, w.pool.markBps[i], post.elapsed, post.tRemaining, post.valve);
      && delta.Done? && w'.pool.cumFundingIndex[i] as int == w.pool.cumFundingIndex[i] + delta.value
      && w'.pool.lastFundingTs == a.now
  {
    hide IdxDelta;
    if Step(w, a).Ok? {
      assert Accrued(w, 0, a.now).Ok? && Accrued(w, 1, a.now).Ok? && Accrued(w, 2, a.now).Ok?;
      assert Accrued(w, i, a.now).Ok?;
    }
  }

  /** The same at a steady mark, with the posts' times adding up to the time between the first and the last of
      them, and the valve in its bounds at each. */
  lemma {:induction false} SteadyIndexGrows(w: LevWorld, actions: seq<LevAction>, i: nat)
    requires Books(w) && w.pool.markTs > 0 && i < 3 && AllSteady(w, i, actions)
    ensures var w' := Run(w, actions); var posts := PostsOf(w, actions);
      && AllComputed(w.params.timeFeeNum, w.pool.markBps[i], posts) && ValvesInBounds(posts)
      && w'.pool.cumFundingIndex[i] as int == w.pool.cumFundingIndex[i] + SumOfPosts(w.params.timeFeeNum, w.pool.markBps[i], posts)
      && w'.pool.lastFundingTs as int == w.pool.lastFundingTs + SumOfTimes(posts)
      && forall k :: 0 <= k < |posts| ==> SaturatingSub(w.market.freezeTs, w'.pool.lastFundingTs) <= posts[k].tRemaining
    decreases |actions|
  {
    hide Apply, Books, IdxDelta, IsAccrual, SumOfPosts, SumOfTimes;
    if actions == [] {
      NoPosts(w.params.timeFeeNum, w.pool.markBps[i]);
    } else {
      var w1, rest := Apply(w, actions[0]), actions[1..];
      StepKeepsBooks(w, actions[0]);
      var front := FirstPost(w, actions[0], i);
      forall k | 0 <= k < |rest| ensures Steady(w1, i, rest[k]) {
        assert rest[k] == actions[k + 1] && Steady(w, i, actions[k + 1]);
      }
      SteadyIndexGrows(w1, rest, i);
      PostsJoin(w.params.timeFeeNum, w.pool.markBps[i], front, PostsOf(w1, rest));
    }
  }

  lemma NoPosts(tfn: u32, p: u16)
    ensures SumOfPosts(tfn, p, []) == 0 && SumOfTimes([]) == 0
  {
  }

  lemma PostsJoin(tfn: u32, p: u16, front: seq<Post>, posts: seq<Post>)
    requires |front| <= 1 && AllComputed(tfn, p, front) && AllComputed(tfn, p, posts)
    requires ValvesInBounds(front) && ValvesInBounds(posts)
    ensures AllComputed(tfn, p, front + posts) && ValvesInBounds(front + posts)
    ensures SumOfPosts(tfn, p, front + posts) == SumOfPosts(tfn, p, front) + SumOfPosts(tfn, p, posts)
    ensures SumOfTimes(front + posts) == SumOfTimes(front) + SumOfTimes(posts)
  {
    hide IdxDelta;
    if front == [] {
      assert front + posts == posts;
    } else {
      assert (front + posts)[0] == front[0] && (front + posts)[1..] == posts && front[1..] == [];
    }
  }

  /** The first action's post, if it is one. */
  lemma FirstPost(w: LevWorld, a: LevAction, i: nat) returns (front: seq<Post>)
    requires Books(w) && w.pool.markTs > 0 && i < 3 && Steady(w, i, a)
    ensures front == if IsAccrual(w, a) then [PostOf(w, a)] else []
    ensures var w' := Apply(w, a);
      && SameRate(w, w', i) && w'.pool.markTs > 0
      && AllComputed(w.params.timeFeeNum, w.pool.markBps[i], front) && ValvesInBounds(front)
      && w'.pool.cumFundingIndex[i] as int == w.pool.cumFundingIndex[i] + SumOfPosts(w.params.timeFeeNum, w.pool.markBps[i], front)
      && w'.pool.lastFundingTs as int == w.pool.lastFundingTs + SumOfTimes(front)
      && (front != [] ==> front[0].tRemaining == SaturatingSub(w.market.freezeTs, w'.pool.lastFundingTs))
  {
    hide Step, Apply, IdxDelta, WellBooked;
    front := if IsAccrual(w, a) then [PostOf(w, a)] else [];
    if a.PostMark? {
      PostAdds(w, a, i);
      assert front != [] ==> front[1..] == [];
    } else {
      OthersKeepIndex(w, a, i);
    }
  }

  /** With no valve action and a neutral valve every post is neutral. */
  lemma {:induction false} NoValveNoSurcharge(w: LevWorld, actions: seq<LevAction>)
    requires w.pool.valveMultiplierBps == BPS_DENOM && forall k :: 0 <= k < |actions| ==> !actions[k].SetRiskValve?
    ensures ValvesOff(PostsOf(w, actions))
    decreases |actions|
  {
    hide Step, Apply;
    if actions != [] {
      OnlyValveSetsValve(w, actions[0]);
      NoValveNoSurcharge(Apply(w, actions[0]), actions[1..]);
    }
  }

  lemma OnlyValveSetsValve(w: LevWorld, a: LevAction)
    requires !a.SetRiskValve?
    ensures Apply(w, a).pool.valveMultiplierBps == w.pool.valveMultiplierBps
  {
    hide OpenGuards, UnitsFor, MaxGain, CoverageOk, ComputeSettlement, SharesForDeposit, ValueForShares, Accrued;
  }

  /** Funding over any run, whatever else happens in it: the index grows by the neutral amount at least and by
      five times it at most; and n posts add at most n - 1 to what one post at the end would have added (five
      times that under the valve). */
  lemma FundingOverRuns(w: LevWorld, actions: seq<LevAction>, i: nat)
    requires Books(w) && w.pool.markTs > 0 && i < 3 && AllSteady(w, i, actions)
    ensures var w' := Run(w, actions); var posts := PostsOf(w, actions);
      var growth: int := w'.pool.cumFundingIndex[i] as int - w.pool.cumFundingIndex[i];
      var rate, p := w.params.timeFeeNum, w.pool.markBps[i];
      var neutral := SumOfDeltas(rate, p, posts);
      var once := CeilDiv(RateNum(rate, p, SumOfTimes(posts)), RateDen(SaturatingSub(w.market.freezeTs, w'.pool.lastFundingTs)));
      && w'.pool.lastFundingTs as int == w.pool.lastFundingTs + SumOfTimes(posts)
      && neutral <= growth <= 5 * neutral
      && (posts != [] ==> neutral <= once + (|posts| - 1))
      && (ValvesOff(posts) ==> growth == neutral)
      && (posts != [] && ValvesOff(posts) ==> growth <= once + (|posts| - 1))
  {
    hide Run, Books, PostsOf, IdxDelta, RateNum, RateDen, CeilDiv, SumOfPosts, SumOfDeltas;
    SteadyIndexGrows(w, actions, i);
    assert w.pool.markBps[i] <= BPS_DENOM by { PositionIsBooked(w, 0); }
    var posts := PostsOf(w, actions);
    ValvedSumIsBounded(w.params.timeFeeNum, w.pool.markBps[i], posts);
    if posts != [] {
      SplittingIsCheap(w.params.timeFeeNum, w.pool.markBps[i], posts,
        SaturatingSub(w.market.freezeTs, Run(w, actions).pool.lastFundingTs));
    }
  }

  /** A run that leaves the valve alone, from a neutral valve: the index grows by exactly the neutral amount, and
      by at most n - 1 more than one post. */
  lemma FundingWithoutValve(w: LevWorld, actions: seq<LevAction>, i: nat)
    requires Books(w) && w.pool.markTs > 0 && i < 3 && AllSteady(w, i, actions)
    requires w.pool.valveMultiplierBps == BPS_DENOM && forall k :: 0 <= k < |actions| ==> !actions[k].SetRiskValve?
    ensures var w' := Run(w, actions); var posts := PostsOf(w, actions); var end := w'.pool.lastFundingTs;
      && w'.pool.cumFundingIndex[i] as int
         == w.pool.cumFundingIndex[i] + SumOfDeltas(w.params.timeFeeNum, w.pool.markBps[i], posts)
      && end >= w.pool.lastFundingTs
      && (posts != [] && Accrued(w, i, end).Ok? ==> w'.pool.cumFundingIndex[i] <= Accrued(w, i, end).value + |posts| - 1)
  {
    hide Run, Books, PostsOf, IdxDelta, RateNum, RateDen, CeilDiv, SumOfPosts, SumOfDeltas, AllSteady, Accrued;
    NoValveNoSurcharge(w, actions);
    FundingOverRuns(w, actions, i);
    assert Multiplier(w.pool, Run(w, actions).pool.lastFundingTs) == BPS_DENOM;
    if PostsOf(w, actions) != [] {
      ManyPostsOrOne(w, actions, i);
    }
  }

  /** The same against the program itself: n neutral posts leave the index at most n - 1 above where one post
      at the time of the last of them would have left it. */
  lemma ManyPostsOrOne(w: LevWorld, actions: seq<LevAction>, i: nat)
    requires Books(w) && w.pool.markTs > 0 && i < 3 && AllSteady(w, i, actions)
    requires ValvesOff(PostsOf(w, actions)) && PostsOf(w, actions) != []
    ensures var w' := Run(w, actions); var end := w'.pool.lastFundingTs;
      end >= w.pool.lastFundingTs
      && (Multiplier(w.pool, end) == BPS_DENOM && Accrued(w, i, end).Ok? ==>
            w'.pool.cumFundingIndex[i] <= Accrued(w, i, end).value + |PostsOf(w, actions)| - 1)
  {
    hide Run, Books, PostsOf, IdxDelta, RateNum, RateDen, CeilDiv, SumOfPosts, SumOfDeltas, AllSteady;
    FundingOverRuns(w, actions, i);
    var end := Run(w, actions).pool.lastFundingTs;
    if Multiplier(w.pool, end) == BPS_DENOM && Accrued(w, i, end).Ok? {
      assert w.pool.markBps[i] <= BPS_DENOM by { PositionIsBooked(w, 0); }
      NeutralDelta(w.params.timeFeeNum, w.pool.markBps[i], end - w.pool.lastFundingTs,
        SaturatingSub(w.market.freezeTs, end), BPS_DENOM);
    }
  }
}
