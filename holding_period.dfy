/**
 * The holding-period lock: what `mint_gold_tokens` writes into a token-info record and
 * the eligibility check `transform_to_nft` applies to it.
 */
module HoldingPeriod {
  import opened Primitives
  import opened Records

  /** The record as the issuance writes it: the clock starts at `now`, the period is `period`.
      Whatever lock the record held before is overwritten. */
  function Lock(info: TokenInfo, now: i64, period: u64): TokenInfo
  {
    info.(holdingStart := now, nftTransformationPeriod := Some(period))
  }

  /** The holding is eligible: a period is recorded and at least that much time has passed. */
  predicate Eligible(info: TokenInfo, now: i64)
  {
    info.nftTransformationPeriod.Some? && now - info.holdingStart >= info.nftTransformationPeriod.value
  }

  /** The guard of `transform_to_nft`. The elapsed time is computed first; an absent period
      then fails through `?`, and a period that has not yet elapsed fails with
      `InsufficientHoldingPeriod`. */
  function CheckHoldingPeriod(info: TokenInfo, now: i64): (r: Outcome)
    ensures r == Pass <==> Eligible(info, now)
    ensures info.nftTransformationPeriod.None? ==> r == Fail(MissingValue)
    ensures info.nftTransformationPeriod.Some? && !Eligible(info, now) ==> r == Fail(ProgramError(InsufficientHoldingPeriod))
  {
    var elapsed := now - info.holdingStart;
    match info.nftTransformationPeriod
    case None => Fail(MissingValue)
    case Some(period) => if elapsed >= period then Pass else Fail(ProgramError(InsufficientHoldingPeriod))
  }

  /** After a lock, eligibility depends only on the new lock: the earlier clock is reset. */
  lemma LockedEligibility(info: TokenInfo, start: i64, period: u64, now: i64)
    ensures Eligible(Lock(info, start, period), now) <==> now - start >= period
    ensures CheckHoldingPeriod(Lock(info, start, period), now) ==
      if now - start >= period then Pass else Fail(ProgramError(InsufficientHoldingPeriod))
  {
  }

  /** A zero period is eligible exactly when the clock has not gone backwards. */
  lemma ZeroPeriodEligible(info: TokenInfo, now: i64)
    requires info.nftTransformationPeriod == Some(0)
    ensures Eligible(info, now) <==> now >= info.holdingStart
  {
  }

  /** Once eligible, a holding stays eligible at every later time: nothing in the check
      moves the record into a state where it is refused again. */
  lemma EligibilityPersists(info: TokenInfo, t1: i64, t2: i64)
    requires t1 <= t2 && Eligible(info, t1)
    ensures Eligible(info, t2)
  {
  }

  /** The guard with the `i64` subtraction of the source made explicit: a difference
      outside the `i64` range aborts with `ArithmeticOverflow` before the period is read. */
  function CheckHoldingPeriodI64(info: TokenInfo, now: i64): Outcome
  {
    var elapsed := now - info.holdingStart;
    if elapsed < I64_MIN || I64_MAX < elapsed then Fail(ArithmeticOverflow)
    else match info.nftTransformationPeriod
      case None => Fail(MissingValue)
      case Some(period) => if elapsed >= period then Pass else Fail(ProgramError(InsufficientHoldingPeriod))
  }

  /** For non-negative timestamps the subtraction cannot overflow, so the guard computed on
      unbounded integers gives exactly the outcome of the `i64` guard. */
  lemma CheckedElapsedAgrees(info: TokenInfo, now: i64)
    requires 0 <= info.holdingStart && 0 <= now
    ensures CheckHoldingPeriodI64(info, now) == CheckHoldingPeriod(info, now)
  {
  }
}
