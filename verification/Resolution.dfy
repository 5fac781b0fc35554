/** Hint-and-prove resolution: programs/amm/src/instructions/resolve.rs and its predicate.rs.

    The keeper names an outcome; the program derives the comparison for it and asks the oracle once.
    The oracle is a function from the proven numbers and the comparison to its answer.
    */
module Resolution {
  import opened Machine

  const MILLIS_PER_DAY: int := 86_400_000

  datatype Outcome = Unset | Team1 | Draw | Team2 | Void

  datatype Comparison = GreaterThan | LessThan | EqualTo
  datatype StatOp = Add | Subtract

  datatype StoredPredicate = StoredPredicate(threshold: i32, keyA: u32, keyB: u32, op: Option<StatOp>)

  datatype StatTerm = StatTerm(key: u32, value: i32, period: i32)

  /** What the caller passes, with what the oracle makes of it: `failure` is the error the oracle
      raises whatever is asked (a root not posted, a bad Merkle path); `raisesOnFalse` says whether it
      answers a false predicate with its own error instead of `false`. */
  datatype ScoreProof = ScoreProof(
    fixtureId: i64, ts: i64, rootsOwnedByTxline: bool, rootsEpochDay: nat,
    statA: StatTerm, statB: Option<StatTerm>, op: Option<StatOp>, failure: Option<nat>, raisesOnFalse: bool)

  const PREDICATE_FAILED: nat := 6021

  datatype ResolveConfig = ResolveConfig(stored: StoredPredicate, period: i32)

  predicate ConfigIsShaped(p: StoredPredicate) {
    p.keyA != 0 && p.keyB != 0 && p.keyA != p.keyB && p.op == Some(Subtract)
  }

  function DerivePredicate(p: StoredPredicate, hint: u8): (r: Result<Comparison>) {
    if hint > 2 then Err(LmsrInvalidOutcomeIndex)
    else if !ConfigIsShaped(p) then Err(PredicateMismatch)
    else Ok(if hint == 0 then GreaterThan else if hint == 1 then EqualTo else LessThan)
  }

  predicate Holds(diff: int, c: Comparison, threshold: int) {
    match c
    case GreaterThan => diff > threshold
    case LessThan => diff < threshold
    case EqualTo => diff == threshold
  }

  /** `validate_stat`: an error of its own, or the truth of the comparison. */
  function ValidateStat(proof: ScoreProof, c: Comparison, threshold: i32): (r: Result<bool>)
    requires proof.statB.Some?
  {
    if proof.failure.Some? then Err(TxlineError(proof.failure.value))
    else
      var holds := Holds(proof.statA.value - proof.statB.value.value, c, threshold);
      if !holds && proof.raisesOnFalse then Err(TxlineError(PREDICATE_FAILED)) else Ok(holds)
  }

  function OutcomeOfHint(hint: u8): Outcome
    requires hint <= 2
  {
    if hint == 0 then Team1 else if hint == 1 then Draw else Team2
  }

  /** The handler past its state gate: the outcome it writes, or its error. */
  function Resolve(cfg: ResolveConfig, fixtureId: i64, hint: u8, proof: ScoreProof): (r: Result<Outcome>) {
    if proof.fixtureId != fixtureId then Err(FixtureMismatch)
    else if !proof.rootsOwnedByTxline then Err(InvalidMerkleRootsAccount)
    else
      var epochDay := proof.ts / MILLIS_PER_DAY;
      if !(0 <= epochDay < TWO16) then Err(InvalidEpochDay)
      else if proof.rootsEpochDay != epochDay then Err(InvalidMerkleRootsAccount)
      else if proof.statA.key != cfg.stored.keyA then Err(PredicateMismatch)
      else if proof.statB.None? then Err(PredicateMismatch)
      else if proof.statB.value.key != cfg.stored.keyB then Err(PredicateMismatch)
      else if proof.op != cfg.stored.op || proof.op != Some(Subtract) then Err(PredicateMismatch)
      else if proof.statA.period != cfg.period || proof.statB.value.period != cfg.period then
        Err(ResolutionPeriodMismatch)
      else
        var comparison :- DerivePredicate(cfg.stored, hint);
        var isValid :- ValidateStat(proof, comparison, cfg.stored.threshold);
        if !isValid then Err(ProofRejected) else Ok(OutcomeOfHint(hint))
  }

  /** A proof the program and the oracle have nothing against, whatever the hint. */
  predicate Admissible(cfg: ResolveConfig, fixtureId: i64, proof: ScoreProof) {
    && proof.fixtureId == fixtureId && proof.rootsOwnedByTxline
    && 0 <= proof.ts / MILLIS_PER_DAY < TWO16 && proof.rootsEpochDay == proof.ts / MILLIS_PER_DAY
    && proof.statA.key == cfg.stored.keyA && proof.statB.Some? && proof.statB.value.key == cfg.stored.keyB
    && proof.op == Some(Subtract)
    && proof.statA.period == cfg.period && proof.statB.value.period == cfg.period
    && ConfigIsShaped(cfg.stored) && proof.failure.None?
  }

  /** The outcome the proven numbers stand for. */
  function ProvenHint(cfg: ResolveConfig, proof: ScoreProof): (hint: u8)
    requires proof.statB.Some?
    ensures hint <= 2
  {
    var diff := proof.statA.value - proof.statB.value.value;
    if diff > cfg.stored.threshold then 0 else if diff == cfg.stored.threshold then 1 else 2
  }

  /** The outcome the proven goals mean: the first team's less the second's, against the threshold. */
  predicate IsOutcomeOf(cfg: ResolveConfig, proof: ScoreProof, o: Outcome) {
    && proof.statB.Some?
    && var d := proof.statA.value - proof.statB.value.value;
    && (o == Team1 <==> d > cfg.stored.threshold)
    && (o == Draw <==> d == cfg.stored.threshold)
    && (o == Team2 <==> d < cfg.stored.threshold)
  }

  /** Whatever the hint, an accepted resolution writes the outcome the proven goals mean, on an admissible proof. */
  lemma ResolvesByTheScore(cfg: ResolveConfig, fixtureId: i64, hint: u8, proof: ScoreProof)
    requires Resolve(cfg, fixtureId, hint, proof).Ok?
    ensures Admissible(cfg, fixtureId, proof) && IsOutcomeOf(cfg, proof, Resolve(cfg, fixtureId, hint, proof).value)
  {
  }

  /** And for every admissible proof the hint for that outcome, 0, 1 or 2 in the order of the prices, resolves. */
  lemma TheRightHintResolves(cfg: ResolveConfig, fixtureId: i64, proof: ScoreProof, o: Outcome)
    requires Admissible(cfg, fixtureId, proof) && IsOutcomeOf(cfg, proof, o)
    ensures o in {Team1, Draw, Team2}
    ensures Resolve(cfg, fixtureId, HintFor(o), proof) == Ok(o)
  {
  }

  function HintFor(o: Outcome): (hint: u8)
    ensures hint <= 2
  {
    if o == Team1 then 0 else if o == Draw then 1 else 2
  }

  /** For an admissible proof exactly one of the three hints is accepted, and it is the one the
      proven numbers stand for; the others are refused as unproven. */
  lemma ExactlyOneHintProves(cfg: ResolveConfig, fixtureId: i64, proof: ScoreProof, hint: u8)
    requires Admissible(cfg, fixtureId, proof) && hint <= 2
    ensures Resolve(cfg, fixtureId, hint, proof)
         == if hint == ProvenHint(cfg, proof) then Ok(OutcomeOfHint(hint))
            else if proof.raisesOnFalse then Err(TxlineError(PREDICATE_FAILED))
            else Err(ProofRejected)
  {
  }

  /** Nothing but an admissible proof of that very outcome is ever accepted. */
  lemma AcceptedMeansProven(cfg: ResolveConfig, fixtureId: i64, hint: u8, proof: ScoreProof)
    requires Resolve(cfg, fixtureId, hint, proof).Ok?
    ensures hint <= 2 && Admissible(cfg, fixtureId, proof) && hint == ProvenHint(cfg, proof)
    ensures Resolve(cfg, fixtureId, hint, proof).value == OutcomeOfHint(hint)
    ensures OutcomeOfHint(hint) in {Team1, Draw, Team2}
  {
  }

  /** An inadmissible proof fails for every hint, and with the same error for all three: the choice
      of hint decides nothing. */
  lemma InadmissibleFailsAlike(cfg: ResolveConfig, fixtureId: i64, proof: ScoreProof, h: u8, h': u8)
    requires !Admissible(cfg, fixtureId, proof) && h <= 2 && h' <= 2
    ensures Resolve(cfg, fixtureId, h, proof).Err?
    ensures Resolve(cfg, fixtureId, h, proof) == Resolve(cfg, fixtureId, h', proof)
  {
  }
}
