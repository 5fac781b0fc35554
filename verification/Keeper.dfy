/** The keeper's resolve ladder, apps/keeper/src/actions/resolve.ts, against the program's own rule.

    What the score feed believes decides only the order in which hints are tried. The chain, other
    keepers and the network are a script: what each submission meets, and which proofs the fetcher
    returns.
    */
module Keeper {
  import opened Machine
  import opened Resolution
  import Spot

  // ------------------------------------------------------------------- hints

  function OutcomeHintFromScore(homeGoals: int, awayGoals: int): (hint: u8)
    ensures hint <= 2
  {
    if homeGoals > awayGoals then 0 else if homeGoals < awayGoals then 2 else 1
  }

  /** What the score feed believes. */
  predicate Believes(homeGoals: int, awayGoals: int, o: Outcome) {
    && (o == Team1 <==> homeGoals > awayGoals)
    && (o == Draw <==> homeGoals == awayGoals)
    && (o == Team2 <==> homeGoals < awayGoals)
  }

  lemma HintIsTheBelief(homeGoals: int, awayGoals: int, o: Outcome)
    requires o in {Team1, Draw, Team2}
    ensures OutcomeHintFromScore(homeGoals, awayGoals) == HintFor(o) <==> Believes(homeGoals, awayGoals, o)
  {
  }

  /** A correct score gives the hint that a proof of that score resolves with, at the first try. */
  lemma CorrectScoreResolvesAtOnce(cfg: ResolveConfig, fixtureId: i64, proof: ScoreProof)
    requires Admissible(cfg, fixtureId, proof) && cfg.stored.threshold == 0
    ensures Resolve(cfg, fixtureId, OutcomeHintFromScore(proof.statA.value, proof.statB.value.value), proof).Ok?
  {
  }

  function Without(hints: seq<u8>, h: u8): seq<u8> {
    if hints == [] then []
    else (if hints[0] != h then [hints[0]] else []) + Without(hints[1..], h)
  }

  /** The score-derived hint first, then the others. */
  function OrderedHints(preferred: u8): (ladder: seq<u8>) {
    [preferred] + Without([0, 1, 2], preferred)
  }

  lemma LadderIs(preferred: u8)
    requires preferred <= 2
    ensures OrderedHints(preferred)
         == if preferred == 0 then [0, 1, 2] else if preferred == 1 then [1, 0, 2] else [2, 0, 1]
  {
    var three: seq<u8>, two: seq<u8>, one: seq<u8>, none: seq<u8> := [0, 1, 2], [1, 2], [2], [];
    assert one[1..] == none && two[1..] == one && three[1..] == two;
    assert Without(none, preferred) == none;
    assert Without(one, preferred) == if preferred == 2 then none else one;
    assert Without(two, preferred) == if preferred == 1 then one else if preferred == 2 then [1] else two;
  }

  /** The ladder is always a permutation of the three hints, with the preferred one first. */
  lemma LadderIsPermutation(preferred: u8)
    requires preferred <= 2
    ensures |OrderedHints(preferred)| == 3 && OrderedHints(preferred)[0] == preferred
    ensures multiset(OrderedHints(preferred)) == multiset{0, 1, 2}
    ensures forall h :: h in OrderedHints(preferred) <==> 0 <= h <= 2
  {
    hide OrderedHints;
    LadderIs(preferred);
    if preferred == 0 {
      assert OrderedHints(preferred) == [0, 1, 2];
    } else if preferred == 1 {
      assert OrderedHints(preferred) == [1, 0, 2];
    } else {
      assert OrderedHints(preferred) == [2, 0, 1];
    }
  }

  // ------------------------------------------------------------------- chain

  const ROOT_NOT_AVAILABLE: nat := 6007

  predicate IsTerminalTxlineCode(code: nat) {
    code in {PREDICATE_FAILED, 6023, 6004, 6062}
  }

  type MarketState = Spot.MarketState

  /** What one submission meets: a competing resolution just before it, its own fate, and whether the oracle's root
      for the day is still missing. */
  datatype Env = Env(rival: Option<(u8, ScoreProof)>, dropped: Option<bool>, rootMissing: bool)

  const CALM: Env := Env(None, None, false)

  function AsSeen(proof: ScoreProof, env: Env): ScoreProof {
    if env.rootMissing then proof.(failure := Some(ROOT_NOT_AVAILABLE)) else proof
  }

  datatype Reply = Landed | TxlineFailed(code: nat) | AmmFailed(error: Error) | Unsent(retryable: bool)

  /** How the keeper's error discrimination reads the program's answer. */
  function ReplyOf(result: Result<Outcome>): Reply {
    match result
    case Ok(_) => Landed
    case Err(e) => if e.TxlineError? then TxlineFailed(e.code) else AmmFailed(e)
  }

  class Chain {
    const cfg: ResolveConfig
    const fixtureId: i64
    var state: MarketState
    var outcome: Outcome

    constructor (c: ResolveConfig, f: i64, s: MarketState, o: Outcome)
      ensures cfg == c && fixtureId == f && state == s && outcome == o
    {
      cfg, fixtureId, state, outcome := c, f, s, o;
    }

    /** The proof is admissible and means the outcome, and the hint is the outcome's. */
    predicate Proves(hint: u8, proof: ScoreProof, o: Outcome) {
      Admissible(cfg, fixtureId, proof) && IsOutcomeOf(cfg, proof, o) && o in {Team1, Draw, Team2} && hint == HintFor(o)
    }

    /** A resolve transaction executed by the program. */
    method Execute(hint: u8, proof: ScoreProof) returns (r: Reply)
      modifies this
      ensures r == if old(state) == Spot.Locked then ReplyOf(Resolve(cfg, fixtureId, hint, proof)) else AmmFailed(InvalidMarketState)
      ensures r != Landed ==> state == old(state) && outcome == old(outcome)
      ensures r == Landed ==> state == Spot.Resolved && Proves(hint, proof, outcome)
    {
      if state != Spot.Locked {
        return AmmFailed(InvalidMarketState);
      }
      var result := Resolve(cfg, fixtureId, hint, proof);
      if result.Ok? {
        AcceptedMeansProven(cfg, fixtureId, hint, proof);
        ResolvesByTheScore(cfg, fixtureId, hint, proof);
        outcome, state := result.value, Spot.Resolved;
      }
      return ReplyOf(result);
    }

    /** `tryHint`, with what happens around it. */
    method Submit(hint: u8, proof: ScoreProof, env: Env) returns (r: Reply)
      modifies this
      ensures env.dropped.Some? ==> r == Unsent(env.dropped.value)
      ensures env.rival.None? && env.dropped.None? ==>
        r == if old(state) == Spot.Locked then ReplyOf(Resolve(cfg, fixtureId, hint, AsSeen(proof, env)))
             else AmmFailed(InvalidMarketState)
      ensures env.rival.None? && r != Landed ==> state == old(state) && outcome == old(outcome)
      ensures Moved(old(state), old(outcome), state, outcome, cfg, fixtureId, Proofs(env) + [proof])
      ensures r == Landed ==> state == Spot.Resolved && Proves(hint, proof, outcome)
    {
      if env.rival.Some? {
        var _ := Execute(env.rival.value.0, env.rival.value.1);
        assert env.rival.value.1 in Proofs(env) + [proof];
      }
      assert proof in Proofs(env) + [proof];
      if env.dropped.Some? {
        return Unsent(env.dropped.value);
      }
      r := Execute(hint, AsSeen(proof, env));
    }
  }

  function Proofs(env: Env): seq<ScoreProof> {
    if env.rival.Some? then [env.rival.value.1] else []
  }

  /** The market is as it was, or went from Locked to Resolved on an admissible proof of that outcome. */
  ghost predicate Moved(state: MarketState, outcome: Outcome, state': MarketState, outcome': Outcome,
                        cfg: ResolveConfig, fixtureId: i64, proofs: seq<ScoreProof>) {
    || (state' == state && outcome' == outcome)
    || (state == Spot.Locked && state' == Spot.Resolved && exists p ::
          p in proofs && Admissible(cfg, fixtureId, p) && IsOutcomeOf(cfg, p, outcome'))
  }

  // ------------------------------------------------------------------ ladder

  datatype Exit =
    | Signature   // our transaction landed
    | Skipped     // no account, or somebody else had resolved it
    | GaveUp      // out of attempts
    | Threw       // alert and rethrow

  /** Every proof the run can see. */
  function AllProofs(proofs: seq<ScoreProof>, script: seq<Env>): seq<ScoreProof> {
    if script == [] then proofs else AllProofs(proofs, script[1..]) + Proofs(script[0])
  }

  lemma {:induction false} SeenProofs(proofs: seq<ScoreProof>, script: seq<Env>, i: nat, p: ScoreProof)
    requires p in proofs || (i < |script| && p in Proofs(script[i]))
    ensures p in AllProofs(proofs, script)
  {
    if script != [] {
      if p in proofs || i > 0 {
        SeenProofs(proofs, script[1..], if i > 0 then i - 1 else 0, p);
      }
    }
  }

  function EnvAt(script: seq<Env>, i: nat): Env {
    if i < |script| then script[i] else CALM
  }

  /** Nothing stands between the keeper and the program at three submissions. */
  predicate CalmAt(script: seq<Env>, sent: nat) {
    forall i :: sent <= i < sent + 3 ==> EnvAt(script, i) == CALM
  }

  predicate CalmStart(script: seq<Env>) {
    CalmAt(script, 0)
  }

  /** A failure that passes: the network's, or a root not posted yet. */
  predicate Passes(env: Env) {
    env.rival.None? && (env.dropped == Some(true) || (env.dropped.None? && env.rootMissing))
  }

  predicate Gentle(script: seq<Env>) {
    forall i :: 0 <= i < |script| ==> script[i] == CALM || Passes(script[i])
  }

  function Passing(script: seq<Env>, sent: nat): (n: nat)
    ensures n <= sent
  {
    if sent == 0 then 0 else Passing(script, sent - 1) + (if Passes(EnvAt(script, sent - 1)) then 1 else 0)
  }

  lemma {:induction false} PassingGrows(script: seq<Env>, i: nat, j: nat)
    requires i <= j
    ensures Passing(script, i) <= Passing(script, j)
    ensures |script| <= i ==> Passing(script, i) == Passing(script, j)
    decreases j
  {
    if i < j {
      PassingGrows(script, i, j - 1);
    }
  }

  lemma PassingAtMost(script: seq<Env>, sent: nat)
    ensures Passing(script, sent) <= Passing(script, |script|)
  {
    if sent <= |script| { PassingGrows(script, sent, |script|); } else { PassingGrows(script, |script|, sent); }
  }

  /** A proof the program has nothing against but that the oracle rejects for good. */
  predicate IsRefused(cfg: ResolveConfig, fixtureId: i64, p: ScoreProof) {
    && p.failure.Some? && IsTerminalTxlineCode(p.failure.value) && Admissible(cfg, fixtureId, p.(failure := None))
  }

  predicate Undisturbed(script: seq<Env>) {
    forall i :: 0 <= i < |script| ==> script[i].rival.None?
  }

  /** `resolveMarket`. `truth` is the outcome every admissible proof of the match means. */
  method ResolveMarket(chain: Chain, marketExists: bool, homeGoals: int, awayGoals: int, proofs: seq<ScoreProof>,
                       script: seq<Env>, maxAttempts: nat, maxProofRefetches: nat, ghost truth: Outcome, ghost m: nat) returns (exit: Exit)
    requires truth in {Team1, Draw, Team2}
    requires forall p :: p in AllProofs(proofs, script) && Admissible(chain.cfg, chain.fixtureId, p) ==> IsOutcomeOf(chain.cfg, p, truth)
    modifies chain
    // Whatever the score feed believes, the outcome can only be the proven one.
    ensures (chain.state == old(chain.state) && chain.outcome == old(chain.outcome))
      || (old(chain.state) == Spot.Locked && chain.state == Spot.Resolved && chain.outcome == truth)
    ensures exit == Signature ==> chain.state == Spot.Resolved && chain.outcome == truth
    // With an admissible proof and a calm network the first attempt lands, for every belief.
    ensures marketExists && old(chain.state) == Spot.Locked && maxAttempts > 0 && CalmStart(script)
      && |proofs| > 0 && Admissible(chain.cfg, chain.fixtureId, proofs[0])
      && (proofs[0].raisesOnFalse ==> Believes(homeGoals, awayGoals, truth))
      ==> exit == Signature
    // Failures that pass cost an attempt each, refused proofs an attempt and a refetch each; then the m-th proof lands.
    ensures marketExists && old(chain.state) == Spot.Locked && Gentle(script) && m < |proofs|
      && (forall j :: 0 <= j < m ==> IsRefused(chain.cfg, chain.fixtureId, proofs[j]))
      && Admissible(chain.cfg, chain.fixtureId, proofs[m]) && (proofs[m].raisesOnFalse ==> Believes(homeGoals, awayGoals, truth))
      && maxAttempts > Passing(script, |script|) + m && maxProofRefetches >= m
      ==> exit == Signature
    // When every proof is refused the keeper gives up after its budget of refetches.
    ensures marketExists && old(chain.state) == Spot.Locked && Gentle(script) && maxProofRefetches < m <= |proofs|
      && (forall j :: 0 <= j < m ==> IsRefused(chain.cfg, chain.fixtureId, proofs[j]))
      && maxAttempts > Passing(script, |script|) + maxProofRefetches
      ==> exit == Threw
    // It skips what is not there or already resolved.
    ensures !marketExists || old(chain.state) == Spot.Resolved || old(chain.state) == Spot.Closed ==>
      exit == Skipped && chain.state == old(chain.state) && chain.outcome == old(chain.outcome)
    ensures exit == Skipped ==> !marketExists || chain.state == Spot.Resolved || chain.state == Spot.Closed
    // An oracle that raises on a false predicate stops the ladder at a wrong belief, for good.
    ensures Undisturbed(script) && !Believes(homeGoals, awayGoals, truth)
      && (forall p :: p in proofs ==> Admissible(chain.cfg, chain.fixtureId, p) && p.raisesOnFalse)
      ==> exit != Signature && chain.state == old(chain.state) && chain.outcome == old(chain.outcome)
  {
    hide Admissible, AllProofs, OrderedHints, CalmAt, Undisturbed, IsOutcomeOf, Believes, Gentle, Passing, IsRefused;
    if !marketExists {
      return Skipped;
    }
    if chain.state == Spot.Resolved || chain.state == Spot.Closed {
      return Skipped;
    }
    var preferred := OutcomeHintFromScore(homeGoals, awayGoals);
    var ladder := OrderedHints(preferred);
    LadderIsPermutation(preferred);
    HintIsTheBelief(homeGoals, awayGoals, truth);
    ghost var right := HintFor(truth);
    ghost var s0, o0 := chain.state, chain.outcome;
    ghost var calm := s0 == Spot.Locked && CalmStart(script) && |proofs| > 0
      && Admissible(chain.cfg, chain.fixtureId, proofs[0]) && (proofs[0].raisesOnFalse ==> preferred == right);
    ghost var stuck := Undisturbed(script) && preferred != right
      && forall p :: p in proofs ==> Admissible(chain.cfg, chain.fixtureId, p) && p.raisesOnFalse;
    ghost var gentle := s0 == Spot.Locked && Gentle(script) && m <= |proofs|
      && (forall j :: 0 <= j < m ==> IsRefused(chain.cfg, chain.fixtureId, proofs[j]));
    ghost var lands := gentle && m < |proofs| && Admissible(chain.cfg, chain.fixtureId, proofs[m])
      && (proofs[m].raisesOnFalse ==> preferred == right) && maxProofRefetches >= m;
    ghost var fails := gentle && maxProofRefetches < m;
    var proof: Option<ScoreProof> := None;
    var fetched, sent, proofRefetches := 0, 0, 0;
    for attempt := 0 to maxAttempts
      invariant proof.Some? ==> proof.value in proofs
      invariant Quiet(s0, o0, chain.state, chain.outcome, truth)
      invariant calm ==> attempt == 0 && proof.None? && fetched == 0 && sent == 0 && chain.state == s0
      invariant stuck ==> chain.state == s0 && chain.outcome == o0
      invariant lands || fails ==> chain.state == s0 && attempt == Passing(script, sent) + proofRefetches
      invariant lands || fails ==> proofRefetches <= m && proofRefetches <= maxProofRefetches
      invariant lands || fails ==> fetched == proofRefetches + (if proof.Some? then 1 else 0)
      invariant (lands || fails) && proof.Some? ==> proof == Some(proofs[proofRefetches])
    {
      if proof.None? {
        if fetched >= |proofs| {
          return Threw;
        }
        proof := Some(proofs[fetched]);
        fetched := fetched + 1;
      }
      var end, sent' := TryLadder(chain, ladder, proof.value, proofs, script, sent, truth);
      sent := sent';
      if end.Done? {
        return end.exit;
      }
      if end != RetrySame {
        // a terminal rejection, or all three hints rejected
        if proofRefetches >= maxProofRefetches {
          return Threw;
        }
        proofRefetches := proofRefetches + 1;
        proof := None;
      }
    }
    PassingAtMost(script, sent);
    return GaveUp;
  }

  /** How one attempt at the ladder ends: the run is over, or it goes on with the same proof, or with a new one. */
  datatype LadderEnd = Done(exit: Exit) | RetrySame | Terminal | AllRejected

  /** The loop over the hints: one attempt. */
  method TryLadder(chain: Chain, ladder: seq<u8>, proof: ScoreProof, ghost proofs: seq<ScoreProof>, script: seq<Env>,
                   sent0: nat, ghost truth: Outcome) returns (end: LadderEnd, sent: nat)
    requires truth in {Team1, Draw, Team2} && proof in proofs
    requires |ladder| == 3 && forall h :: h in ladder <==> 0 <= h <= 2
    requires forall p :: p in AllProofs(proofs, script) && Admissible(chain.cfg, chain.fixtureId, p) ==> IsOutcomeOf(chain.cfg, p, truth)
    modifies chain
    ensures Quiet(old(chain.state), old(chain.outcome), chain.state, chain.outcome, truth)
    ensures end == Done(Signature) ==> chain.state == Spot.Resolved && chain.outcome == truth
    ensures end == Done(Skipped) ==> chain.state == Spot.Resolved || chain.state == Spot.Closed
    ensures end != Done(GaveUp)
    // A good proof in calm weather lands, whichever hint is its own.
    ensures (CalmAt(script, sent0) && old(chain.state) == Spot.Locked && Admissible(chain.cfg, chain.fixtureId, proof)
             && (proof.raisesOnFalse ==> ladder[0] == HintFor(truth))) ==>
      end == Done(Signature)
    // In gentle weather it lands, or meets a failure that passes.
    ensures (Gentle(script) && old(chain.state) == Spot.Locked && Admissible(chain.cfg, chain.fixtureId, proof)
             && (proof.raisesOnFalse ==> ladder[0] == HintFor(truth))) ==>
      end == Done(Signature) || MetPassing(chain.state, script, sent0, sent, end)
    // A refused proof is met as such, or such a failure is.
    ensures (Gentle(script) && old(chain.state) == Spot.Locked && IsRefused(chain.cfg, chain.fixtureId, proof)) ==>
      (end == Terminal && chain.state == Spot.Locked && Passing(script, sent) == Passing(script, sent0))
      || MetPassing(chain.state, script, sent0, sent, end)
    // A wrong belief against an oracle that raises gets nowhere.
    ensures Undisturbed(script) && Admissible(chain.cfg, chain.fixtureId, proof) && proof.raisesOnFalse && ladder[0] != HintFor(truth) ==>
      chain.state == old(chain.state) && chain.outcome == old(chain.outcome) && end != Done(Signature) && end != AllRejected
  {
    hide Admissible, AllProofs, Undisturbed, IsOutcomeOf, Gentle, Passing, IsRefused, Passes, EnvAt;
    ghost var right, s0, o0 := HintFor(truth), chain.state, chain.outcome;
    ghost var good := s0 == Spot.Locked && Admissible(chain.cfg, chain.fixtureId, proof) && (proof.raisesOnFalse ==> ladder[0] == right);
    ghost var refused := s0 == Spot.Locked && IsRefused(chain.cfg, chain.fixtureId, proof);
    ghost var stuck := Undisturbed(script) && Admissible(chain.cfg, chain.fixtureId, proof) && proof.raisesOnFalse && ladder[0] != right;
    sent := sent0;
    for rung := 0 to 3
      invariant sent == sent0 + rung
      invariant Quiet(s0, o0, chain.state, chain.outcome, truth)
      invariant good && (CalmAt(script, sent0) || Gentle(script)) ==> chain.state == s0 && right !in ladder[..rung]
      invariant good && (CalmAt(script, sent0) || Gentle(script)) && proof.raisesOnFalse ==> rung == 0
      invariant Gentle(script) && (good || refused) ==> chain.state == s0 && Passing(script, sent) == Passing(script, sent0)
      invariant Gentle(script) && refused ==> rung == 0
      invariant stuck ==> rung == 0 && chain.state == s0 && chain.outcome == o0
    {
      var hint := ladder[rung];
      assert hint in ladder;
      QuietEnv(script, sent0, rung);
      GentleEnv(script, sent);
      var d := Try(chain, hint, proof, proofs, script, sent, truth);
      sent := sent + 1;
      if d == Landed {
        return Done(Signature), sent;
      }
      if d == TxlineFailed(ROOT_NOT_AVAILABLE) {
        return RetrySame, sent;
      }
      if d == AmmFailed(InvalidMarketState) {
        if chain.state == Spot.Resolved || chain.state == Spot.Closed {
          return Done(Skipped), sent;
        }
        return Done(Threw), sent;
      }
      if d.TxlineFailed? && IsTerminalTxlineCode(d.code) {
        return Terminal, sent;
      }
      if d == AmmFailed(ProofRejected) {
        continue;
      }
      if d.Unsent? && d.retryable {
        return RetrySame, sent;
      }
      return Done(Threw), sent;
    }
    assert ladder[..3] == ladder;
    return AllRejected, sent;
  }

  /** The attempt ended on a failure that passes, with the market as it was. */
  ghost predicate MetPassing(state: MarketState, script: seq<Env>, sent0: nat, sent: nat, end: LadderEnd) {
    end == RetrySame && state == Spot.Locked && Passing(script, sent) == Passing(script, sent0) + 1
  }

  lemma GentleEnv(script: seq<Env>, i: nat)
    ensures Gentle(script) ==> EnvAt(script, i) == CALM || Passes(EnvAt(script, i))
    ensures Passing(script, i + 1) == Passing(script, i) + (if Passes(EnvAt(script, i)) then 1 else 0)
    ensures !Passes(CALM) && (Gentle(script) ==> EnvAt(script, i).rival.None?)
  {
  }

  lemma QuietEnv(script: seq<Env>, sent0: nat, rung: nat)
    requires rung < 3
    ensures CalmAt(script, sent0) ==> EnvAt(script, sent0 + rung) == CALM
    ensures Undisturbed(script) ==> EnvAt(script, sent0 + rung).rival.None?
  {
  }

  ghost predicate Quiet(s0: MarketState, o0: Outcome, s: MarketState, o: Outcome, truth: Outcome) {
    (s == s0 && o == o0) || (s0 == Spot.Locked && s == Spot.Resolved && o == truth)
  }

  /** One rung, with what it can mean for the outcome. */
  method Try(chain: Chain, hint: u8, proof: ScoreProof, ghost proofs: seq<ScoreProof>, script: seq<Env>, sent: nat, ghost truth: Outcome)
    returns (d: Reply)
    requires truth in {Team1, Draw, Team2} && hint <= 2 && proof in proofs
    requires forall p :: p in AllProofs(proofs, script) && Admissible(chain.cfg, chain.fixtureId, p) ==> IsOutcomeOf(chain.cfg, p, truth)
    modifies chain
    ensures Quiet(old(chain.state), old(chain.outcome), chain.state, chain.outcome, truth)
    ensures d == Landed ==> chain.state == Spot.Resolved && chain.outcome == truth
    ensures EnvAt(script, sent).rival.None? && d != Landed ==> chain.state == old(chain.state) && chain.outcome == old(chain.outcome)
    ensures EnvAt(script, sent) == CALM && old(chain.state) == Spot.Locked && Admissible(chain.cfg, chain.fixtureId, proof) ==>
      d == if hint == HintFor(truth) then Landed
           else if proof.raisesOnFalse then TxlineFailed(PREDICATE_FAILED) else AmmFailed(ProofRejected)
    ensures EnvAt(script, sent) == CALM && old(chain.state) == Spot.Locked && IsRefused(chain.cfg, chain.fixtureId, proof) ==>
      d.TxlineFailed? && IsTerminalTxlineCode(d.code)
    ensures (Passes(EnvAt(script, sent)) && old(chain.state) == Spot.Locked
             && (Admissible(chain.cfg, chain.fixtureId, proof) || IsRefused(chain.cfg, chain.fixtureId, proof))) ==>
      d in {Unsent(true), TxlineFailed(ROOT_NOT_AVAILABLE)}
    ensures Admissible(chain.cfg, chain.fixtureId, proof) && proof.raisesOnFalse && hint != HintFor(truth) && EnvAt(script, sent).rival.None? ==>
      d in {TxlineFailed(PREDICATE_FAILED), TxlineFailed(ROOT_NOT_AVAILABLE), AmmFailed(InvalidMarketState), Unsent(true), Unsent(false)}
  {
    var env := EnvAt(script, sent);
    SeenProofs(proofs, script, 0, proof);
    if env.rival.Some? {
      SeenProofs(proofs, script, sent, env.rival.value.1);
    }
    if Admissible(chain.cfg, chain.fixtureId, proof) {
      ExactlyOneHintProves(chain.cfg, chain.fixtureId, proof, hint);
    }
    d := chain.Submit(hint, proof, env);
  }
}
