/** Machine integers, error values and the rounding helpers every on-chain module shares. */
module Machine {

  const TWO16: int := 0x1_0000
  const TWO32: int := 0x1_0000_0000
  const TWO63: int := 0x8000_0000_0000_0000
  const TWO64: int := 0x1_0000_0000_0000_0000
  const TWO128: int := 0x1_0000_0000_0000_0000_0000_0000_0000_0000

  /** Rust integer types as subset types: every assignment to one is an overflow obligation. */
  type u8 = x: int | 0 <= x < 0x100
  type u16 = x: int | 0 <= x < TWO16
  type u32 = x: int | 0 <= x < TWO32
  type u64 = x: int | 0 <= x < TWO64
  type u128 = x: int | 0 <= x < TWO128
  type i32 = x: int | -0x8000_0000 <= x < 0x8000_0000
  type i64 = x: int | -TWO63 <= x < TWO63

  const BPS_DENOM: int := 10_000

  /** The error codes of programs/amm/src/error.rs that the modelled instructions return, and the
      failures that come from outside the handlers. */
  datatype Error =
    | MathOverflow
    | DivideByZero
    | NumericConversion
    | ZeroAmount
    | SlippageExceeded
    | SolvencyViolation
    | MonotonicClock
    | InvalidFeeParams
    | InvalidTiming
    | InvalidSeedLiquidity
    | InvalidMarketState
    | KickoffNotReached
    | FreezeNotReached
    | InsufficientPositionBalance
    | ProofRejected
    | AlreadyRedeemed
    | FixtureMismatch
    | InvalidEpochDay
    | InvalidMerkleRootsAccount
    | PredicateMismatch
    | GraceNotElapsed
    | LmsrLiquidityOutOfRange
    | LmsrQuantityTooLarge
    | LmsrInsufficientOutcomeSupply
    | LmsrInvalidOutcomeIndex
    | LmsrDomain
    | ResolutionPeriodMismatch
    | LeverageDisabled
    | LeverageTooHigh
    | LeverageTooLow
    | MarkNotPosted
    | MarkStale
    | MarkOutOfRange
    | RiskValvePaused
    | ValveOutOfBounds
    | LeverageCutoff
    | OpenInterestExceeded
    | CoverageBreached
    | PositionSettled
    | PositionNotExpired
    | WithdrawLocked
    | NothingPending
    | InsufficientShares
    | FundingMath
    | AccountMissing           // an account of the instruction does not exist
    | AccountExists            // `init` of an account that already exists
    | TransferFailed           // the token program refuses the transfer
    | TxlineError(code: nat)   // the oracle program fails the call

  datatype Result<+T> = Ok(value: T) | Err(error: Error) {
    predicate IsFailure() {
      Err?
    }

    function PropagateFailure<U>(): Result<U>
      requires Err?
    {
      Err(error)
    }

    function Extract(): T
      requires Ok?
    {
      value
    }
  }

  datatype Option<+T> = None | Some(value: T)

  function Min(a: int, b: int): int {
    if a <= b then a else b
  }

  function Max(a: int, b: int): int {
    if a <= b then b else a
  }

  /** `x.saturating_sub(y)` on unsigned integers. */
  function SatSub(x: int, y: int): int {
    Max(x - y, 0)
  }

  /** `(num + den - 1) / den`. */
  function CeilDiv(num: nat, den: nat): (c: nat)
    requires den > 0
  {
    (num + (den - 1)) / den
  }

  function Pow2(k: nat): (p: nat)
    ensures p > 0
  {
    if k == 0 then 1 else 2 * Pow2(k - 1)
  }

  /** `a / d` is the one integer `q` with `q*d <= a < (q+1)*d`. */
  lemma DivBounds(a: int, d: int)
    requires d > 0
    ensures (a / d) * d <= a < (a / d) * d + d
  {
    assert a == d * (a / d) + a % d;
  }

  lemma DivUnique(a: int, d: int, q: int)
    requires d > 0
    requires q * d <= a < q * d + d
    ensures a / d == q
  {
    DivBounds(a, d);
    var p := a / d;
    if p < q {
      MulMono(p + 1, q, d);
    } else if p > q {
      MulMono(q + 1, p, d);
    }
  }

  lemma MulMono(x: int, y: int, d: int)
    requires x <= y && d >= 0
    ensures x * d <= y * d
  {
  }

  lemma DivMono(a: int, b: int, d: int)
    requires a <= b && d > 0
    ensures a / d <= b / d
  {
    DivBounds(a, d);
    DivBounds(b, d);
    if a / d > b / d {
      MulMono(b / d + 1, a / d, d);
    }
  }

  /** Anything below the real quotient is below the floor. */
  lemma DivAtLeast(a: int, d: int, q: int)
    requires d > 0 && q * d <= a
    ensures q <= a / d
  {
    DivBounds(a, d);
    if a / d < q {
      MulMono(a / d + 1, q, d);
    }
  }

  lemma DivAtMost(a: int, d: int, q: int)
    requires d > 0 && a < (q + 1) * d
    ensures a / d <= q
  {
    DivBounds(a, d);
    if a / d > q {
      MulMono(q + 1, a / d, d);
    }
  }

  lemma CeilBounds(a: nat, d: nat)
    requires d > 0
    ensures CeilDiv(a, d) * d - d < a <= CeilDiv(a, d) * d
  {
    DivBounds(a + (d - 1), d);
  }

  /** `q` is the exact quotient num / den, rounded down. */
  predicate IsFloor(q: int, num: int, den: int) {
    q * den <= num < (q + 1) * den
  }

  /** The same rounded up. */
  predicate IsCeil(q: int, num: int, den: int) {
    (q - 1) * den < num <= q * den
  }

  lemma FloorIs(num: int, den: int)
    requires den > 0
    ensures IsFloor(num / den, num, den)
  {
    DivBounds(num, den);
    assert (num / den + 1) * den == num / den * den + den;
  }

  lemma CeilIs(num: nat, den: nat)
    requires den > 0
    ensures IsCeil(CeilDiv(num, den), num, den)
  {
    CeilBounds(num, den);
    assert (CeilDiv(num, den) - 1) * den == CeilDiv(num, den) * den - den;
  }
}
