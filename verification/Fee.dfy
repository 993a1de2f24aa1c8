/**
 Fee prices of a transaction attempt (common/fee).

 Prices are `big.Int`, so unbounded; the percentage is a `uint16`, and the sum
 `100 + percentage` is taken in that type, so it wraps at 65536.
 */
module Fee {
  import opened Options

  newtype uint16 = x: int | 0 <= x < 0x1_0000

  function Min(a: int, b: int): int {
    if a < b then a else b
  }

  function Max(a: int, b: int): int {
    if a > b then a else b
  }

  /** The price limits and bump sizes that stay fixed while a transaction is being priced. */
  datatype FeeConfig = FeeConfig(maxFeePriceInput: int, maxBumpPrice: int, bumpMin: int, bumpPercent: uint16)
  {
    /** No attempt may be priced above this. */
    function Limit(): int {
      Min(maxFeePriceInput, maxBumpPrice)
    }
  }

  /** Every outcome carries a price; the last two come with an error. */
  datatype BumpResult =
    | Bumped(price: int)
    | ExceedsLimit(price: int)
    | Unchanged(price: int)

  /** `big.Int` division is Euclidean, like Dafny's. */
  function AddPercentage(value: int, percentage: uint16): int {
    value * ((100 + percentage as int) % 0x1_0000) / 100
  }

  function MaxBumpedFee(original: int, percentage: uint16, units: int): int {
    Max(AddPercentage(original, percentage), original + units)
  }

  function MaxFee(current: Option<int>, bumped: int, limit: int): int {
    if current.None? then bumped
    else if current.value > limit then bumped
    else if bumped < current.value then current.value
    else bumped
  }

  function CalculateBumpedFee(cfg: FeeConfig, current: Option<int>, original: int): BumpResult {
    var limit := cfg.Limit();
    var bumped := MaxFee(current, MaxBumpedFee(original, cfg.bumpPercent, cfg.bumpMin), limit);
    if bumped > limit then ExceedsLimit(limit)
    else if bumped == original then Unchanged(bumped)
    else Bumped(bumped)
  }

  /** A price the node may ask for: known, and not above the limit. */
  predicate Usable(current: Option<int>, limit: int) {
    current.Some? && current.value <= limit
  }

  /** What the percentage makes of a price, rounded down; the sum with 100 starts over at zero from 65436 up. */
  ghost predicate IsPercentBump(price: int, percentage: uint16, bumped: int) {
    var factor := if percentage < 65436 then 100 + percentage as int else percentage as int - 65436;
    100 * bumped <= price * factor < 100 * bumped + 100
  }

  /** There is one such price, and the code computes it. */
  lemma PercentBump(price: int, percentage: uint16, bumped: int)
    ensures bumped == AddPercentage(price, percentage) <==> IsPercentBump(price, percentage, bumped)
  {
    var factor := if percentage < 65436 then 100 + percentage as int else percentage as int - 65436;
    assert (100 + percentage as int) % 0x1_0000 == factor;
  }

  /**
   When the bump succeeds, and with which price: the greatest of the percentage bump, the fixed bump and a usable
   current price, above the original and within the lower of the two limits.
   */
  lemma BumpMeaning(cfg: FeeConfig, current: Option<int>, original: int, percentBump: int, limit: int)
    requires cfg.bumpMin >= 0 && IsPercentBump(original, cfg.bumpPercent, percentBump)
    requires limit <= cfg.maxFeePriceInput && limit <= cfg.maxBumpPrice
    requires limit == cfg.maxFeePriceInput || limit == cfg.maxBumpPrice
    ensures var r := CalculateBumpedFee(cfg, current, original);
            var unitBump := original + cfg.bumpMin;
            var wanted := current.Some? && current.value <= limit;
            && (r.ExceedsLimit? <==> percentBump > limit || unitBump > limit)
            && (r.ExceedsLimit? ==> r.price == limit)
            && (r.Unchanged? <==> && original <= limit && cfg.bumpMin == 0 && percentBump <= original
                                  && (wanted ==> current.value <= original))
            && (r.Unchanged? ==> r.price == original)
            && (r.Bumped? ==>
                  && original < r.price <= limit
                  && percentBump <= r.price && unitBump <= r.price && (wanted ==> current.value <= r.price)
                  && (r.price == percentBump || r.price == unitBump || (wanted && r.price == current.value)))
  {
    PercentBump(original, cfg.bumpPercent, percentBump);
    var floor := MaxBumpedFee(original, cfg.bumpPercent, cfg.bumpMin);
    assert floor >= original + cfg.bumpMin >= original;
  }

  /**
   The percentage stops raising a positive price exactly where `100 + percentage` wraps past
   zero percent (65436 and up); the fixed amount is then all that keeps the bump above the original.
   */
  lemma PercentageWraps(value: int, percentage: uint16)
    requires value > 0
    ensures AddPercentage(value, percentage) < value <==> percentage >= 65436
  {
    var p := percentage as int;
    if p >= 65436 {
      assert (100 + p) % 0x1_0000 == p - 65436;
      ScaleBound(value, p - 65436);
    } else {
      assert (100 + p) % 0x1_0000 == 100 + p;
      assert value * (100 + p) == value * 100 + value * p;
      assert value * p >= 0 by { ScaleBound(value, p); }
    }
  }

  lemma ScaleBound(value: int, factor: nat)
    requires value > 0
    ensures value * factor >= 0
    ensures factor < 100 ==> value * factor < value * 100
  {
  }

  /** The node may ask for any price, or for none, at the time of a bump. */
  ghost predicate IsBump(cfg: FeeConfig, from: int, to: int) {
    exists current: Option<int> :: CalculateBumpedFee(cfg, current, from) == Bumped(to)
  }

  lemma SuccessIsBump(cfg: FeeConfig, current: Option<int>, from: int)
    requires CalculateBumpedFee(cfg, current, from).Bumped?
    ensures IsBump(cfg, from, CalculateBumpedFee(cfg, current, from).price)
  {
    var to := CalculateBumpedFee(cfg, current, from).price;
    assert CalculateBumpedFee(cfg, current, from) == Bumped(to);
  }

  /** Each price is a successful bump of the one before it. */
  ghost predicate BumpChain(cfg: FeeConfig, prices: seq<int>) {
    forall i :: 0 <= i < |prices| - 1 ==> IsBump(cfg, prices[i], prices[i + 1])
  }

  lemma BumpRises(cfg: FeeConfig, from: int, to: int)
    requires cfg.bumpMin >= 0 && IsBump(cfg, from, to)
    ensures from < to <= cfg.Limit() && from + cfg.bumpMin <= to
  {
    var current: Option<int> :| CalculateBumpedFee(cfg, current, from) == Bumped(to);
    PercentBump(from, cfg.bumpPercent, AddPercentage(from, cfg.bumpPercent));
    BumpMeaning(cfg, current, from, AddPercentage(from, cfg.bumpPercent), cfg.Limit());
  }

  /**
   k bumps raise the price by at least k times the fixed amount and by at least k, and stay
   within the limit: any run of rejections for a low price is bounded by the fee gap.
   */
  lemma {:induction false} BumpChainRises(cfg: FeeConfig, prices: seq<int>)
    requires cfg.bumpMin >= 0 && |prices| > 0 && BumpChain(cfg, prices)
    ensures var k := |prices| - 1;
            && prices[k] >= prices[0] + k * cfg.bumpMin
            && (k > 0 ==> prices[0] + k <= prices[k] <= cfg.Limit())
  {
    var k := |prices| - 1;
    if k > 0 {
      BumpChainRises(cfg, prices[..k]);
      BumpRises(cfg, prices[k - 1], prices[k]);
      assert k * cfg.bumpMin == (k - 1) * cfg.bumpMin + cfg.bumpMin;
    }
  }

  /** At a hundred percent or more, a higher price has a strictly higher percentage bump. */
  lemma PercentageStrict(low: int, high: int, percent: int)
    requires low < high && percent >= 100
    ensures low * percent / 100 < high * percent / 100
  {
    var gap := high - low;
    assert high * percent == low * percent + gap * percent;
    ScaleUp(gap, percent);
  }

  lemma ScaleUp(factor: int, percent: int)
    requires factor >= 1 && percent >= 0
    ensures factor * percent >= percent
  {
  }

  /** What the comment on `CalculateBumpedFee` asks for: the higher of the original and the current price, bumped. */
  function Documented(cfg: FeeConfig, current: Option<int>, original: int): BumpResult {
    var baseline := if current.Some? then Max(original, current.value) else original;
    var bumped := MaxBumpedFee(baseline, cfg.bumpPercent, cfg.bumpMin);
    if bumped > cfg.Limit() then ExceedsLimit(cfg.Limit())
    else if bumped == original then Unchanged(bumped)
    else Bumped(bumped)
  }

  /** A bump of a higher price is strictly higher, unless there is no fixed amount and no percentage to speak of. */
  lemma HigherBump(cfg: FeeConfig, low: int, high: int)
    requires cfg.bumpMin >= 0 && 0 <= low < high
    ensures MaxBumpedFee(low, cfg.bumpPercent, cfg.bumpMin) <= MaxBumpedFee(high, cfg.bumpPercent, cfg.bumpMin)
    ensures cfg.bumpMin > 0 || AddPercentage(high, cfg.bumpPercent) > high ==>
              MaxBumpedFee(low, cfg.bumpPercent, cfg.bumpMin) < MaxBumpedFee(high, cfg.bumpPercent, cfg.bumpMin)
  {
    var percent := (100 + cfg.bumpPercent as int) % 0x1_0000;
    if percent >= 100 {
      PercentageStrict(low, high, percent);
    } else {
      PercentageWraps(high, cfg.bumpPercent);
      if low > 0 {
        PercentageWraps(low, cfg.bumpPercent);
      }
    }
  }

  /**
   The code bumps the original price only and takes a higher current price as it is. It agrees with its comment
   exactly when the current price is unknown or no higher than the original, when the original's own bump is already
   above the limit, or when a usable current price is not raised by its own bump either.
   */
  lemma CommentHolds(cfg: FeeConfig, current: Option<int>, original: int)
    requires cfg.bumpMin >= 0 && original >= 0
    ensures CalculateBumpedFee(cfg, current, original) == Documented(cfg, current, original) <==>
            || current.None? || current.value <= original
            || MaxBumpedFee(original, cfg.bumpPercent, cfg.bumpMin) > cfg.Limit()
            || (cfg.bumpMin == 0 && Usable(current, cfg.Limit())
                && AddPercentage(current.value, cfg.bumpPercent) <= current.value)
  {
    if current.Some? && current.value > original {
      HigherBump(cfg, original, current.value);
    }
  }
}
