/** Fee schedule, the worst-case BUY bound, and why the bound is safe (fees.py). */
module Fees {
  import opened Decimals

  /** The exponent is a natural number of at least one on every live market. */
  datatype FeeSchedule = FeeSchedule(enabled: bool, rate: real, exponent: nat)

  datatype TraderSide = Maker | TakerOrUntagged

  function EstimatedFeePerShare(price: real, fees: FeeSchedule): real {
    if !fees.enabled || fees.rate <= 0.0 then 0.0
    else if price <= 0.0 || price >= 1.0 then 0.0
    else Mul(fees.rate, Pow(Mul(price, 1.0 - price), fees.exponent))
  }

  lemma FeeNonnegative(price: real, fees: FeeSchedule)
    ensures EstimatedFeePerShare(price, fees) >= 0.0
  {
    hide Mul;
    if 0.0 < price < 1.0 && fees.rate > 0.0 {
      MulSign(price, 1.0 - price);
      PowMonotone(0.0, Mul(price, 1.0 - price), fees.exponent);
      MulSign(fees.rate, Pow(Mul(price, 1.0 - price), fees.exponent));
    }
  }

  /** What one share may cost at most under a signed limit. */
  function CommitmentPerShare(limit: real, fees: FeeSchedule): real {
    limit + 2.0 * EstimatedFeePerShare(Min(limit, 0.5), fees)
  }

  function MaximumBuyCost(size: real, limit: real, fees: FeeSchedule): real {
    Mul(size, CommitmentPerShare(limit, fees))
  }

  /** Matched fees settle on five USDC decimals, half up. */
  function RoundFee(x: real): real {
    RoundUnits(x * 100000.0) as real * 0.00001
  }

  /** A half-up rounded fee is at most twice the fee it rounds. */
  lemma RoundFeeAtMostDouble(x: real)
    requires x >= 0.0
    ensures 0.0 <= RoundFee(x) <= 2.0 * x
  {}

  /** The fee a reported fill is charged: makers pay nothing, takers are rounded half up. */
  function MatchedTakerFee(size: real, price: real, feeRateBps: real, side: TraderSide): real {
    if size <= 0.0 || price <= 0.0 || price >= 1.0 || feeRateBps <= 0.0 then 0.0
    else if side == Maker then 0.0
    else RoundFee(Mul(Mul(Mul(size, feeRateBps / 10000.0), price), 1.0 - price))
  }

  /** THE SCHEDULE. Nothing is charged without an enabled positive rate or outside the open price range; there the fee
      is the rate times price and complement, once per unit of the exponent. */
  lemma ScheduleExactly(price: real, rate: real, n: nat)
    ensures var fee := EstimatedFeePerShare(price, FeeSchedule(true, rate, n));
            var more := EstimatedFeePerShare(price, FeeSchedule(true, rate, n + 1));
            && EstimatedFeePerShare(price, FeeSchedule(false, rate, n)) == 0.0
            && (rate <= 0.0 || price <= 0.0 || price >= 1.0 ==> fee == 0.0)
            && (rate > 0.0 && 0.0 < price < 1.0 ==>
                  more == Mul(fee, Mul(price, 1.0 - price)) && (n == 0 ==> fee == rate))
  {
    hide Mul;
    var term := Mul(price, 1.0 - price);
    MulUnit(rate);
    MulComm(term, Pow(term, n));
    MulAssoc(rate, Pow(term, n), term);
  }

  /** Without fees a BUY commits its size at the limit, and nothing more. */
  lemma FeelessCost(size: real, limit: real, fees: FeeSchedule)
    requires !fees.enabled || fees.rate <= 0.0
    ensures MaximumBuyCost(size, limit, fees) == Mul(size, limit)
  {}

  /** A reported fill: makers pay nothing, takers the reported rate of the notional times the complement, to the nearest
      hundred-thousandth. */
  lemma MatchedFeeExactly(size: real, price: real, bps: real)
    requires size > 0.0 && 0.0 < price < 1.0 && bps > 0.0
    ensures MatchedTakerFee(size, price, bps, Maker) == 0.0
    ensures var owed := Mul(Mul(Mul(size, bps / 10000.0), price), 1.0 - price);
            Abs(MatchedTakerFee(size, price, bps, TakerOrUntagged) - owed) <= 0.000005
  {
    hide Mul;
  }

  lemma ParabolaPeak(p: real, q: real)
    requires 0.0 <= p <= q <= 0.5 || (q == 0.5 && p <= 1.0)
    ensures Mul(p, 1.0 - p) <= Mul(q, 1.0 - q)
  {
    assert (q - p) * (1.0 - q - p) == q * (1.0 - q) - p * (1.0 - p);
    if p > 0.5 { assert (p - q) * (p - q) >= 0.0; }
  }

  /** The fee curve peaks at one half, so no price under the limit is dearer than Min(limit, 1/2). */
  lemma FeePeak(price: real, limit: real, fees: FeeSchedule)
    requires price <= limit < 1.0
    ensures EstimatedFeePerShare(price, fees) <= EstimatedFeePerShare(Min(limit, 0.5), fees)
  {
    hide Mul, Pow;
    var peak := Min(limit, 0.5);
    FeeNonnegative(peak, fees);
    if fees.enabled && fees.rate > 0.0 && price > 0.0 {
      var a, b := Mul(price, 1.0 - price), Mul(peak, 1.0 - peak);
      MulSign(price, 1.0 - price);
      ParabolaPeak(price, peak);
      PowMonotone(a, b, fees.exponent);
      MulMonotone(Pow(a, fees.exponent), Pow(b, fees.exponent), fees.rate);
    }
  }

  /** A dearer limit never lowers the commitment, so it reprices every share already sized. */
  lemma CommitmentMonotone(p: real, q: real, fees: FeeSchedule)
    requires 0.0 < p <= q < 1.0
    ensures 0.0 < p <= CommitmentPerShare(p, fees) <= CommitmentPerShare(q, fees)
  {
    hide EstimatedFeePerShare;
    FeeNonnegative(Min(p, 0.5), fees);
    FeePeak(Min(p, 0.5), q, fees);
  }

  /** One executed slice of a signed BUY. */
  datatype Fill = Fill(size: real, price: real, feeRateBps: real, side: TraderSide)

  function FilledSize(fills: seq<Fill>): real {
    if fills == [] then 0.0 else fills[0].size + FilledSize(fills[1..])
  }

  /** Cash that leaves the wallet: price paid plus the fee matched for each fill. */
  function SettledCost(fills: seq<Fill>): real {
    if fills == [] then 0.0
    else Mul(fills[0].size, fills[0].price)
         + MatchedTakerFee(fills[0].size, fills[0].price, fills[0].feeRateBps, fills[0].side)
         + SettledCost(fills[1..])
  }

  /** The same settlement under a schedule of any exponent, each fee still rounded half up. */
  function SettledScheduleCost(fills: seq<Fill>, fees: FeeSchedule): real {
    if fills == [] then 0.0
    else Mul(fills[0].size, fills[0].price)
         + RoundFee(Mul(fills[0].size, EstimatedFeePerShare(fills[0].price, fees)))
         + SettledScheduleCost(fills[1..], fees)
  }

  predicate FillsUnder(fills: seq<Fill>, limit: real) {
    forall f <- fills :: f.size > 0.0 && 0.0 < f.price <= limit
  }

  predicate RatesUnder(fills: seq<Fill>, rate: real) {
    forall f <- fills :: f.feeRateBps / 10000.0 <= rate
  }

  /** One fill never costs more than its share of the worst-case commitment. */
  lemma FillWithinCommitment(size: real, price: real, limit: real, fees: FeeSchedule)
    requires size > 0.0 && 0.0 < price <= limit < 1.0
    ensures Mul(size, price) + RoundFee(Mul(size, EstimatedFeePerShare(price, fees)))
            <= MaximumBuyCost(size, limit, fees)
  {
    hide Mul, EstimatedFeePerShare, RoundFee;
    var fee := EstimatedFeePerShare(price, fees);
    var peak := EstimatedFeePerShare(Min(limit, 0.5), fees);
    FeeNonnegative(price, fees);
    FeePeak(price, limit, fees);
    MulSign(size, fee);
    RoundFeeAtMostDouble(Mul(size, fee));
    MulMonotone(price, limit, size);
    MulMonotone(fee, peak, size);
    MulDouble(size, peak);
    MulDistrib(size, limit, 2.0 * peak);
  }

  /** Every split of a BUY into rounded partial fills settles within MaximumBuyCost. */
  lemma {:induction false} WorstCaseSplitBound(fills: seq<Fill>, size: real, limit: real, fees: FeeSchedule)
    requires 0.0 < limit < 1.0
    requires FillsUnder(fills, limit) && FilledSize(fills) <= size
    ensures SettledScheduleCost(fills, fees) <= MaximumBuyCost(size, limit, fees)
  {
    hide Mul, EstimatedFeePerShare, RoundFee, CommitmentPerShare;
    var c := CommitmentPerShare(limit, fees);
    if fills == [] {
      CommitmentMonotone(limit, limit, fees);
      MulSign(size, c);
    } else {
      WorstCaseSplitBound(fills[1..], size - fills[0].size, limit, fees);
      FillWithinCommitment(fills[0].size, fills[0].price, limit, fees);
      MulDistrib(c, size, fills[0].size);
    }
  }

  /** The reported taker fee is never above the rounded schedule fee of exponent one. */
  lemma MatchedFeeUnderSchedule(f: Fill, rate: real)
    requires f.size > 0.0 && 0.0 < f.price < 1.0 && f.feeRateBps / 10000.0 <= rate
    ensures MatchedTakerFee(f.size, f.price, f.feeRateBps, f.side)
         <= RoundFee(Mul(f.size, EstimatedFeePerShare(f.price, FeeSchedule(true, rate, 1))))
  {
    hide Mul, RoundUnits;
    var fee := EstimatedFeePerShare(f.price, FeeSchedule(true, rate, 1));
    FeeNonnegative(f.price, FeeSchedule(true, rate, 1));
    MulSign(f.size, fee);
    if f.feeRateBps > 0.0 && f.side != Maker {
      var matched := f.feeRateBps / 10000.0;
      var term := Mul(f.price, 1.0 - f.price);
      assert Pow(term, 1) == Mul(term, Pow(term, 0)) == Mul(term, 1.0);
      MulUnit(term);
      MulSign(f.price, 1.0 - f.price);
      MulMonotone(matched, rate, term);
      MulMonotone(Mul(matched, term), Mul(rate, term), f.size);
      MulAssoc(Mul(f.size, matched), f.price, 1.0 - f.price);
      MulAssoc(f.size, matched, term);
      RoundUnitsMonotone(Mul(f.size, Mul(matched, term)) * 100000.0, Mul(f.size, fee) * 100000.0);
    }
  }

  lemma {:induction false} MatchedUnderSchedule(fills: seq<Fill>, limit: real, rate: real)
    requires limit < 1.0 && FillsUnder(fills, limit) && RatesUnder(fills, rate)
    ensures SettledCost(fills) <= SettledScheduleCost(fills, FeeSchedule(true, rate, 1))
  {
    hide Mul, MatchedTakerFee, EstimatedFeePerShare, RoundFee;
    if fills != [] {
      MatchedUnderSchedule(fills[1..], limit, rate);
      MatchedFeeUnderSchedule(fills[0], rate);
    }
  }

  /** The bound holds for the fees the venue actually reports, however the BUY is split. */
  lemma WorstCaseFillBound(fills: seq<Fill>, size: real, limit: real, rate: real)
    requires 0.0 < limit < 1.0
    requires FillsUnder(fills, limit) && RatesUnder(fills, rate) && FilledSize(fills) <= size
    ensures SettledCost(fills) <= MaximumBuyCost(size, limit, FeeSchedule(true, rate, 1))
  {
    hide MaximumBuyCost;
    MatchedUnderSchedule(fills, limit, rate);
    WorstCaseSplitBound(fills, size, limit, FeeSchedule(true, rate, 1));
  }

  /** The factor two is not slack: at every rate, any number of these fills meets the bound exactly. */
  lemma {:induction false} BoundIsTight(n: nat, rate: real) returns (fills: seq<Fill>)
    requires rate > 0.0
    ensures |fills| == n && FillsUnder(fills, 0.5) && RatesUnder(fills, rate)
    ensures SettledCost(fills) == MaximumBuyCost(FilledSize(fills), 0.5, FeeSchedule(true, rate, 1))
  {
    hide Mul, MatchedTakerFee, CommitmentPerShare;
    var c := CommitmentPerShare(0.5, FeeSchedule(true, rate, 1));
    if n == 0 {
      fills := [];
      MulSign(0.0, c);
    } else {
      var rest := BoundIsTight(n - 1, rate);
      var f := HalfUnitFill(rate);
      fills := [f] + rest;
      assert fills[1..] == rest;
      MulDistrib(c, f.size, FilledSize(rest));
    }
  }

  /** A slice that owes exactly half a fee unit, which rounds up to a whole one. */
  lemma HalfUnitFill(rate: real) returns (f: Fill)
    requires rate > 0.0
    ensures FillsUnder([f], 0.5) && RatesUnder([f], rate)
    ensures Mul(f.size, f.price) + MatchedTakerFee(f.size, f.price, f.feeRateBps, f.side)
         == MaximumBuyCost(f.size, 0.5, FeeSchedule(true, rate, 1))
  {
    var size := 0.00002 / rate;
    f := Fill(size, 0.5, rate * 10000.0, TakerOrUntagged);
    assert size * rate == 0.00002;
    HalfUnitArithmetic(size, rate);
    assert f.feeRateBps / 10000.0 == rate;
  }

  lemma HalfUnitArithmetic(size: real, rate: real)
    requires rate > 0.0 && size * rate == 0.00002
    ensures size > 0.0
    ensures RoundFee(Mul(Mul(Mul(size, rate), 0.5), 1.0 - 0.5)) == 0.00001
    ensures Mul(size, CommitmentPerShare(0.5, FeeSchedule(true, rate, 1))) == Mul(size, 0.5) + 0.00001
  {
    assert Mul(Mul(Mul(size, rate), 0.5), 0.5) == 0.000005;
    assert RoundUnits(0.5) == 1;
    var term := Mul(0.5, 0.5);
    assert Pow(term, 1) == Mul(term, Pow(term, 0)) == 0.25;
    assert Mul(size, 0.5 + 2.0 * (rate * 0.25)) == size * 0.5 + 0.5 * (size * rate);
  }
}
