/** The attempt builder the Broadcaster and the Confirmer share
    (common/txmgr/types/tx_attempt_builder.go): it prices and signs attempts.
    Signing and a first estimate are arbitrary; the estimator may refuse any bump,
    and otherwise a bump goes through the fee arithmetic, starting from the fee
    of the attempt it replaces. */
module AttemptBuilder {
  import opened Options
  import opened TxTypes
  import Fee

  datatype BuildOutcome = Built(txHash: int, fee: int, txType: int) | NotBuilt(retryable: bool)

  /** What the estimator has to say on a bump: the current price, if it knows one, a bump
      error of its own, or an error of any other kind. */
  datatype Estimate = Market(price: Option<int>) | Refused(error: Fee.BumpError) | Unavailable

  datatype BumpOutcome =
    | Bumped(attempt: Attempt)
    | BumpRefused(error: Fee.BumpError)
    | BumpNotBuilt(retryable: bool)

  function NewAttempt(txId: int, built: BuildOutcome): Attempt
    requires built.Built?
  {
    Attempt(0, txId, built.txHash, built.fee, built.txType, AttemptInProgress, None, [])
  }

  /** `next` is the replacement of `previous`: unsaved but for its identifier, signed anew, of
      the same type, and at the price that the fee arithmetic accepts on the estimate. */
  ghost predicate IsBump(previous: Attempt, next: Attempt, estimate: Estimate, built: BuildOutcome, cfg: Fee.BumpConfig) {
    && estimate.Market? && Fee.CalculateBumpedFee(estimate.price, previous.fee, cfg) == Fee.Bumped(next.fee)
    && built.Built? && next.txHash == built.txHash && next.txType == previous.txType
    && next.state.AttemptInProgress? && next.broadcastBefore.None? && next.receipts == []
  }

  /** Why there is no replacement: the estimator refuses, or its price does not help. */
  ghost predicate RefusesBump(estimate: Estimate, fee: int, cfg: Fee.BumpConfig, e: Fee.BumpError) {
    match estimate
    case Refused(error) => e == error
    case Unavailable => false
    case Market(price) => Fee.CalculateBumpedFee(price, fee, cfg).Rejected? && Fee.CalculateBumpedFee(price, fee, cfg).error == e
  }

  /** A bumped attempt leaves strictly less room under the fee cap. Without a refusal it
      fails only because the estimator is not reached or the attempt cannot be signed. */
  function NewBumpTxAttempt(previous: Attempt, txId: int, estimate: Estimate, built: BuildOutcome, cfg: Fee.BumpConfig): (r: BumpOutcome)
    ensures r.Bumped? ==> r.attempt.id == 0 && r.attempt.txId == txId && IsBump(previous, r.attempt, estimate, built, cfg)
    ensures r.BumpRefused? ==> RefusesBump(estimate, previous.fee, cfg, r.error)
    ensures r.BumpNotBuilt? ==> if estimate.Unavailable? then r.retryable else built == NotBuilt(r.retryable)
    ensures r.Bumped? && 0 <= cfg.bumpMin ==>
              previous.fee + cfg.bumpMin <= r.attempt.fee <= cfg.Cap()
              && Fee.BumpMeasure(r.attempt.fee, cfg) < Fee.BumpMeasure(previous.fee, cfg)
  {
    match estimate
    case Refused(e) => BumpRefused(e)
    case Unavailable => BumpNotBuilt(true)
    case Market(price) =>
      match Fee.CalculateBumpedFee(price, previous.fee, cfg)
      case Rejected(_, e) => BumpRefused(e)
      case Bumped(fee) =>
        match built
        case NotBuilt(retryable) => BumpNotBuilt(retryable)
        case Built(_, _, _) => Bumped(NewAttempt(txId, built).(fee := fee, txType := previous.txType))
  }
}
