/** Fee bumping: common/fee/models.go and common/fee/utils.go.

    Prices are `big.Int` in the source and `int` here. The percentage is a
    `uint16`, and the sum `100+percentage` is computed in `uint16` before it is
    widened, so it wraps. `big.Int.Div` is Euclidean, as `/` is here. */
module Fee {
  import opened Options

  type uint16 = x: int | 0 <= x < 0x1_0000

  /** The errors that count as bump errors; the last comes from estimators only. */
  datatype BumpError = BumpFeeExceedsLimit | BumpFailed | Connectivity

  datatype BumpResult =
    | Bumped(fee: int)
    | Rejected(returned: int, error: BumpError)

  /** The settings one estimator keeps for every bump it computes. */
  datatype BumpConfig = BumpConfig(maxFeePriceInput: int, maxBumpPrice: int, bumpMin: int, bumpPercent: uint16)
  {
    function Cap(): int { Min(maxFeePriceInput, maxBumpPrice) }
  }

  function Max(x: int, y: int): int { if x > y then x else y }

  function Min(x: int, y: int): int { if x < y then x else y }

  function AddPercentage(value: int, percentage: uint16): int {
    value * ((100 + percentage) % 0x1_0000) / 100
  }

  function MaxBumpedFee(original: int, percent: uint16, units: int): int {
    Max(AddPercentage(original, percent), original + units)
  }

  function MaxFee(current: Option<int>, bumped: int, cap: int): int {
    match current
    case None => bumped
    case Some(price) =>
      if price > cap then bumped
      else if bumped < price then price
      else bumped
  }

  /** The room left under the cap: the termination measure of every chain of bumps. */
  function BumpMeasure(fee: int, cfg: BumpConfig): nat { Max(0, cfg.Cap() - fee) }

  /** What the retry loops of the transaction manager rely on: with a
      non-negative bumpMin an accepted bump is a strict increase by at least
      bumpMin, it stays under both caps, it does not fall behind a market price
      that is itself under the cap, and it uses up some of the room left. */
  function CalculateBumpedFee(current: Option<int>, original: int, cfg: BumpConfig): (r: BumpResult)
    ensures r.Bumped? && 0 <= cfg.bumpMin ==>
              && original < r.fee <= cfg.maxFeePriceInput
              && r.fee <= cfg.maxBumpPrice
              && original + cfg.bumpMin <= r.fee
              && (current.Some? && current.value <= cfg.Cap() ==> current.value <= r.fee)
              && BumpMeasure(r.fee, cfg) < BumpMeasure(original, cfg)
  {
    var cap := cfg.Cap();
    var bumped := MaxFee(current, MaxBumpedFee(original, cfg.bumpPercent, cfg.bumpMin), cap);
    if bumped > cap then Rejected(cap, BumpFeeExceedsLimit)
    else if bumped == original then Rejected(bumped, BumpFailed)
    else Bumped(bumped)
  }

  /** What a bump by a percentage should come to, and does unless the sum with 100 wraps. */
  function PercentageBump(value: int, percentage: uint16): int {
    if percentage <= 65435 then value + value * percentage / 100 else value * (percentage - 65436) / 100
  }

  lemma AddPercentageIsExact(value: int, percentage: uint16)
    ensures AddPercentage(value, percentage) == PercentageBump(value, percentage)
  {
  }

  /** The prices a bump may settle on; a market price above the cap is ignored. */
  ghost function Candidates(current: Option<int>, original: int, cfg: BumpConfig): set<int> {
    {PercentageBump(original, cfg.bumpPercent), original + cfg.bumpMin}
    + (if current.Some? && current.value <= cfg.Cap() then {current.value} else {})
  }

  /** The result is the largest candidate, and it is accepted exactly when it
      stays under the cap and differs from the price that is being replaced. */
  lemma BumpIsLargestCandidate(current: Option<int>, original: int, cfg: BumpConfig, best: int)
    requires best in Candidates(current, original, cfg)
    requires forall c :: c in Candidates(current, original, cfg) ==> c <= best
    ensures CalculateBumpedFee(current, original, cfg)
         == if best > cfg.maxFeePriceInput || best > cfg.maxBumpPrice
            then Rejected(Min(cfg.maxFeePriceInput, cfg.maxBumpPrice), BumpFeeExceedsLimit)
            else if best == original then Rejected(original, BumpFailed)
            else Bumped(best)
  {
    AddPercentageIsExact(original, cfg.bumpPercent);
  }

  /** `fees` is a chain of accepted bumps, the i-th computed at market price `markets[i]`. */
  ghost predicate BumpChain(fees: seq<int>, markets: seq<Option<int>>, cfg: BumpConfig) {
    && |fees| == |markets| + 1
    && forall i :: 0 <= i < |markets| ==> CalculateBumpedFee(markets[i], fees[i], cfg) == Bumped(fees[i + 1])
  }

  lemma {:induction false} ChainGrows(fees: seq<int>, markets: seq<Option<int>>, cfg: BumpConfig)
    requires 0 <= cfg.bumpMin
    requires BumpChain(fees, markets, cfg)
    ensures fees[0] + |markets| * cfg.bumpMin <= fees[|markets|]
    ensures fees[0] + |markets| <= fees[|markets|]
    ensures |markets| > 0 ==> fees[|markets|] <= cfg.Cap()
  {
    var n := |markets|;
    if n > 0 {
      ChainGrows(fees[..n], markets[..n - 1], cfg);
      assert CalculateBumpedFee(markets[n - 1], fees[n - 1], cfg) == Bumped(fees[n - 1 + 1]);
      calc {
        n * cfg.bumpMin;
        (n - 1) * cfg.bumpMin + cfg.bumpMin;
      }
    }
  }

  /** However the market moves, at most (cap - original) / bumpMin bumps of one
      transaction succeed, so bumping on "underpriced" always stops. */
  lemma BumpsAreBounded(fees: seq<int>, markets: seq<Option<int>>, cfg: BumpConfig)
    requires 0 < cfg.bumpMin
    requires BumpChain(fees, markets, cfg)
    ensures |markets| <= BumpMeasure(fees[0], cfg) / cfg.bumpMin
  {
    ChainGrows(fees, markets, cfg);
    var n, room := |markets|, BumpMeasure(fees[0], cfg);
    if n > 0 {
      assert n * cfg.bumpMin <= room;
      DivisionBound(n, cfg.bumpMin, room);
    }
  }

  lemma DivisionBound(n: nat, d: int, room: nat)
    requires 0 < d && n * d <= room
    ensures n <= room / d
  {
    var slack := room / d + 1 - n;
    assert slack * d == d * (room / d) + d - n * d;
    if slack <= 0 {
      NonPositiveProduct(slack, d);
      assert false;
    }
  }

  lemma NonPositiveProduct(x: int, d: int)
    requires x <= 0 < d
    ensures x * d <= 0
  {
  }

  /** A positive price is never lowered by the percentage step exactly when
      100+percentage fits in sixteen bits: the largest safe setting is 65435. */
  lemma PercentageNeverLowersIff(value: int, percentage: uint16)
    requires 0 < value
    ensures value <= AddPercentage(value, percentage) <==> percentage <= 65435
  {
    var factor := (100 + percentage) % 0x1_0000;
    if percentage <= 65435 {
      assert factor == 100 + percentage;
      ProductGrows(value, 100, factor);
    } else {
      assert factor == percentage - 65436;
      ProductGrows(value, factor, 99);
    }
  }

  lemma ProductGrows(value: int, small: int, large: int)
    requires 0 < value && small <= large
    ensures value * small <= value * large
  {
  }

  /** With the wrap, percentage 65436 turns every price into zero. */
  lemma PercentageWrapExample()
    ensures AddPercentage(1_000_000, 65436) == 0
  {
  }
}
