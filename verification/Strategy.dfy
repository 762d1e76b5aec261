/** Sizing of entries and exits, and its agreement with the risk gate (strategy.py). */
module Strategy {
  import opened Decimals
  import opened Fees
  import opened OrderBook
  import opened Wrappers
  import opened BookSweep
  import opened Portfolio
  import opened Risk

  // ---------------------------------------------------------------- entries

  function EventRoom(m: Market, p: PortfolioState, s: Settings): real {
    Mul(p.bankroll, s.limits.maxEvent) - Lookup(p.eventExposure, EventKey(m))
        - Lookup(p.eventExposure, UNCLASSIFIED_EVENT)
  }

  /** Unlike the gate, the strategy leaves the unclassified bucket out of this room. */
  function BucketRoom(m: Market, p: PortfolioState, s: Settings): real {
    Mul(p.bankroll, s.limits.maxBucket) - Lookup(p.bucketExposure, Bucket(m))
  }

  function KellyBudget(conservative: real, bestAsk: real, p: PortfolioState, s: Settings): real
    requires bestAsk < 1.0
  {
    var rawKelly := Div(conservative - bestAsk, 1.0 - bestAsk);
    Mul(Mul(p.bankroll, s.kellyFraction), Max(rawKelly, 0.0))
  }

  /** The smallest of seven limits; the gate re-checks all but the Kelly one. */
  function BuyBudget(conservative: real, bestAsk: real, m: Market, p: PortfolioState, s: Settings): (budget: real)
    requires bestAsk < 1.0
    ensures budget > 0.0 ==>
              && budget <= s.limits.maxOrder && budget <= Mul(p.bankroll, s.limits.maxTradeRisk) && budget <= p.cash
              && budget <= KellyBudget(conservative, bestAsk, p, s)
              && budget <= EventRoom(m, p, s) && budget <= BucketRoom(m, p, s)
              && budget <= Mul(p.bankroll, s.limits.maxGross) - p.gross
  {
    var a := Min(s.limits.maxOrder, Mul(p.bankroll, s.limits.maxTradeRisk));
    var b := Min(p.cash, KellyBudget(conservative, bestAsk, p, s));
    var c := Min(Max(0.0, EventRoom(m, p, s)), Max(0.0, BucketRoom(m, p, s)));
    Min(Min(a, b), Min(c, Max(0.0, Mul(p.bankroll, s.limits.maxGross) - p.gross)))
  }

  const TINY := 0.00000001

  function BuyCandidate(m: Market, b: Book, outcome: Outcome, conservative: real, p: PortfolioState,
                        s: Settings): Option<Candidate>
    requires ValidSnapshot(b)
  {
    var bestAsk := BestQuote(b.asks, false);
    if bestAsk.None? || conservative <= bestAsk.value then None
    else
      BestAskInside(b);
      var budget := BuyBudget(conservative, bestAsk.value, m, p, s);
      if budget <= 0.0 then None
      else
        SortedKeepsLevels(b.asks, false);
        var sweep := OptimalSweep(Sorted(b.asks, false), budget, m.fees);
        var shares := QuantizeDown(sweep.shares, STEP);
        if shares < MinimumSize(m, b) || shares <= 0.0 || sweep.baseCost <= 0.0 || sweep.lastPrice.None? then None
        else
          var vwap := Div(sweep.baseCost, Max(shares, TINY));
          var feePerShare := Div(sweep.feeCost, Max(shares, TINY));
          var edge := conservative - vwap - feePerShare - s.uncertaintyReserve;
          var commitment := MaximumBuyCost(shares, sweep.lastPrice.value, m.fees);
          if edge <= 0.0 || commitment > budget then None
          else Some(Candidate(m.id, m.eventId, Bucket(m), b.tokenId, outcome, Buy, AiValue, conservative, vwap,
                              sweep.lastPrice.value, shares, sweep.baseCost + sweep.feeCost, Some(commitment),
                              sweep.feeCost, edge))
  }

  lemma BestAskInside(b: Book)
    requires ValidSnapshot(b) && b.asks != []
    ensures 0.0 < BestQuote(b.asks, false).value < 1.0
  {
    var best := BestQuote(b.asks, false);
    var l :| l in b.asks && l.price == best.value;
  }

  /** Re-quantizing the swept size changes nothing and the commitment check behind it never rejects. */
  lemma LateChecksNeverFire(levels: seq<Level>, budget: real, fees: FeeSchedule)
    requires ValidLevels(levels) && Ordered(levels, false)
    ensures var sweep := OptimalSweep(levels, budget, fees);
            && QuantizeDown(sweep.shares, STEP) == sweep.shares
            && (sweep.shares > 0.0 ==>
                sweep.lastPrice.Some? && MaximumBuyCost(sweep.shares, sweep.lastPrice.value, fees) <= budget)
  {
    hide Mul, Div, OptimalSweep, QuantizeDown, Hundredths;
    SweepSharesOnGrid(levels, budget, fees);
    QuantizeOnGrid(OptimalSweep(levels, budget, fees).shares);
    if OptimalSweep(levels, budget, fees).shares > 0.0 { SweepWithinBudget(levels, budget, fees); }
  }

  lemma SweepSharesOnGrid(levels: seq<Level>, budget: real, fees: FeeSchedule)
    requires ValidLevels(levels) && Ordered(levels, false)
    ensures OnGrid(OptimalSweep(levels, budget, fees).shares) && OptimalSweep(levels, budget, fees).shares >= 0.0
  {
    hide Mul, Div, QuantizeDown, SharesCap, Cost, Hundredths;
    CapsFall(levels, budget, fees);
    LotsOnGrid(levels);
    BestOnGrid(Lots(levels), Caps(levels, budget, fees), Reach(Lots(levels)));
    BestIsMaximum(Lots(levels), Caps(levels, budget, fees), Reach(Lots(levels)));
  }

  /** Everything the gate and the order builder rely on about a BUY the strategy proposes. */
  lemma BuyFacts(m: Market, b: Book, outcome: Outcome, conservative: real, p: PortfolioState, s: Settings)
    requires ValidSnapshot(b) && 0.0 <= conservative <= 1.0 && s.uncertaintyReserve >= 0.0
    requires BuyCandidate(m, b, outcome, conservative, p, s).Some?
    ensures var c := BuyCandidate(m, b, outcome, conservative, p, s).value;
            && b.asks != [] && ValidCandidate(c) && c.side == Buy && OnGrid(c.size)
            && c.maxCommitment == Some(MaximumBuyCost(c.size, c.limitPrice, m.fees))
            && BestQuote(b.asks, false).value < 1.0
            && c.maxCommitment.value <= BuyBudget(conservative, BestQuote(b.asks, false).value, m, p, s)
            && BestQuote(b.asks, false).value <= c.expectedPrice <= c.limitPrice
            && c.size >= MinimumSize(m, b) && c.edge <= conservative - c.expectedPrice
  {
    hide Mul, Div, OptimalSweep, BuyBudget, QuantizeDown, Sorted, Hundredths, CommitmentPerShare, MinimumSize;
    BestAskInside(b);
    SortedKeepsLevels(b.asks, false);
    BestQuoteIsFirst(b.asks, false);
    var levels := Sorted(b.asks, false);
    var budget := BuyBudget(conservative, BestQuote(b.asks, false).value, m, p, s);
    LateChecksNeverFire(levels, budget, m.fees);
    var sweep := OptimalSweep(levels, budget, m.fees);
    SweepWithinBudget(levels, budget, m.fees);
    SweepSharesOnGrid(levels, budget, m.fees);
    AtLeastAHundredth(sweep.shares);
    DivBound(sweep.baseCost, levels[0].price, sweep.shares);
    DivBound(sweep.baseCost, sweep.lastPrice.value, sweep.shares);
    DivSign(sweep.feeCost, sweep.shares);
    CommitmentMonotone(sweep.lastPrice.value, sweep.lastPrice.value, m.fees);
    MulSign(sweep.shares, CommitmentPerShare(sweep.lastPrice.value, m.fees));
  }

  lemma AtLeastAHundredth(x: real)
    requires OnGrid(x) && x > 0.0
    ensures x >= 0.01
  {
    hide Hundredths;
    assert Hundredths(x) >= 1;
  }

  predicate SizingCode(code: RiskCode) {
    code in {OrderCapExceeded, InsufficientCash, TradeRiskCapExceeded, EventCapExceeded, GrossCapExceeded,
             BelowMinimumSize, EmptyAskBook, LimitNotMarketable}
  }

  /** A BUY the strategy proposes never draws a sizing code from the gate on the same book and portfolio. */
  lemma BuyNeverDrawsSizingCodes(m: Market, b: Book, outcome: Outcome, conservative: real, p: PortfolioState,
                                 s: Settings, now: Instant)
    requires ValidSnapshot(b) && 0.0 <= conservative <= 1.0 && s.uncertaintyReserve >= 0.0
    requires BuyCandidate(m, b, outcome, conservative, p, s).Some?
    ensures forall code | SizingCode(code) ::
              !Draws(code, BuyCandidate(m, b, outcome, conservative, p, s).value, m, b, p, s, now)
  {
    hide Mul, Div, MaximumBuyCost, QuantizeDown, BuyCandidate, Hundredths, KellyBudget, MinimumSize;
    BuyFacts(m, b, outcome, conservative, p, s);
    var c := BuyCandidate(m, b, outcome, conservative, p, s).value;
    SameKeys(m, b, outcome, conservative, p, s);
    GeneralDraws(c, m, b, p, s, now);
    BuyDraws(c, m, b, p, s, now);
  }

  lemma SameKeys(m: Market, b: Book, outcome: Outcome, conservative: real, p: PortfolioState, s: Settings)
    requires ValidSnapshot(b) && BuyCandidate(m, b, outcome, conservative, p, s).Some?
    ensures var c := BuyCandidate(m, b, outcome, conservative, p, s).value;
            && c.side == Buy && OrElse(c.eventId, c.marketId) == EventKey(m) && c.bucket == Bucket(m)
            && c.marketId == m.id && c.tokenId == b.tokenId && c.strategy == AiValue
  {
    hide Mul, Div, OptimalSweep, BuyBudget, QuantizeDown, Sorted, MaximumBuyCost, MinimumSize;
  }

  /** The bucket code is drawn exactly when the unclassified exposure exceeds what the commitment leaves free. */
  lemma BuyDrawsBucketExactly(m: Market, b: Book, outcome: Outcome, conservative: real, p: PortfolioState, s: Settings,
                              now: Instant)
    requires ValidSnapshot(b) && 0.0 <= conservative <= 1.0 && s.uncertaintyReserve >= 0.0
    requires BuyCandidate(m, b, outcome, conservative, p, s).Some?
    ensures var c := BuyCandidate(m, b, outcome, conservative, p, s).value;
            && (Draws(BucketCapExceeded, c, m, b, p, s, now)
                <==> Lookup(p.bucketExposure, UNCLASSIFIED_BUCKET) > BucketRoom(m, p, s) - c.maxCommitment.value)
            && (Lookup(p.bucketExposure, UNCLASSIFIED_BUCKET) <= 0.0 ==> !Draws(BucketCapExceeded, c, m, b, p, s, now))
  {
    hide Mul, Div, MaximumBuyCost, QuantizeDown, BuyCandidate, Hundredths, KellyBudget, MinimumSize;
    BuyFacts(m, b, outcome, conservative, p, s);
    SameKeys(m, b, outcome, conservative, p, s);
    BuyDraws(BuyCandidate(m, b, outcome, conservative, p, s).value, m, b, p, s, now);
  }

  /** An unclassified exposure the strategy does not see makes the gate refuse the strategy's own BUY. */
  lemma UnclassifiedBucketRefusesABuy(m: Market, b: Book, p: PortfolioState, s: Settings, now: Instant)
    requires b.asks == [Level(0.5, 100.0)] && ValidSnapshot(b) && m.minimumOrderSize <= 1.0 && b.minimumOrderSize <= 1.0
    requires m.fees == FeeSchedule(false, 0.0, 1) && m.category == "" && s.uncertaintyReserve == 0.01
    requires p.bankroll == 1000.0 && p.cash == 1000.0 && p.gross == 0.0 && p.eventExposure == map[]
    requires p.bucketExposure == map[UNCLASSIFIED_BUCKET := 48.0]
    requires s.kellyFraction == 0.25 && s.limits.maxOrder == 5.0 && s.limits.maxTradeRisk == 0.005
    requires s.limits.maxEvent == 0.02 && s.limits.maxBucket == 0.05 && s.limits.maxGross == 0.1
    ensures var c := BuyCandidate(m, b, Yes, 0.9, p, s);
            c.Some? && Draws(BucketCapExceeded, c.value, m, b, p, s, now)
  {
    hide BuyCandidate, Mul, Lookup;
    WitnessIsSized(m, b, p, s);
    WitnessRoom(m, p, s);
    BuyDrawsBucketExactly(m, b, Yes, 0.9, p, s, now);
  }

  lemma WitnessRoom(m: Market, p: PortfolioState, s: Settings)
    requires m.category == "" && p.bankroll == 1000.0 && s.limits.maxBucket == 0.05
    requires p.bucketExposure == map[UNCLASSIFIED_BUCKET := 48.0]
    ensures BucketRoom(m, p, s) == 50.0 && Lookup(p.bucketExposure, UNCLASSIFIED_BUCKET) == 48.0
  {
    assert "other" != UNCLASSIFIED_BUCKET by { assert |"other"| != |UNCLASSIFIED_BUCKET|; }
  }

  lemma WitnessIsSized(m: Market, b: Book, p: PortfolioState, s: Settings)
    requires b.asks == [Level(0.5, 100.0)] && ValidSnapshot(b) && m.minimumOrderSize <= 1.0 && b.minimumOrderSize <= 1.0
    requires m.fees == FeeSchedule(false, 0.0, 1) && m.category == "" && s.uncertaintyReserve == 0.01
    requires p.bankroll == 1000.0 && p.cash == 1000.0 && p.gross == 0.0 && p.eventExposure == map[]
    requires p.bucketExposure == map[UNCLASSIFIED_BUCKET := 48.0]
    requires s.kellyFraction == 0.25 && s.limits.maxOrder == 5.0 && s.limits.maxTradeRisk == 0.005
    requires s.limits.maxEvent == 0.02 && s.limits.maxBucket == 0.05 && s.limits.maxGross == 0.1
    ensures var c := BuyCandidate(m, b, Yes, 0.9, p, s); c.Some? && c.value.maxCommitment == Some(5.0)
  {
    hide OptimalSweep, QuantizeDown, BuyBudget;
    var levels := Sorted(b.asks, false);
    assert levels == b.asks by { assert b.asks[1..] == []; }
    assert BestQuote(b.asks, false) == Some(0.5) by { assert b.asks[1..] == []; }
    WitnessBudget(m, p, s);
    TenShares(levels);
    assert Div(5.0, 10.0) == 0.5 && Div(0.0, 10.0) == 0.0;
  }

  lemma WitnessBudget(m: Market, p: PortfolioState, s: Settings)
    requires m.category == "" && p.bankroll == 1000.0 && p.cash == 1000.0 && p.gross == 0.0 && p.eventExposure == map[]
    requires p.bucketExposure == map[UNCLASSIFIED_BUCKET := 48.0]
    requires s.kellyFraction == 0.25 && s.limits.maxOrder == 5.0 && s.limits.maxTradeRisk == 0.005
    requires s.limits.maxEvent == 0.02 && s.limits.maxBucket == 0.05 && s.limits.maxGross == 0.1
    ensures BuyBudget(0.9, 0.5, m, p, s) == 5.0
  {
    WitnessRoom(m, p, s);
    assert Div(0.9 - 0.5, 1.0 - 0.5) == 0.8 && KellyBudget(0.9, 0.5, p, s) == 200.0;
  }

  lemma TenShares(levels: seq<Level>)
    requires levels == [Level(0.5, 100.0)]
    ensures OptimalSweep(levels, 5.0, FeeSchedule(false, 0.0, 1)) == Sweep(10.0, 5.0, 0.0, Some(0.5))
    ensures QuantizeDown(10.0, STEP) == 10.0
  {
    var fees := FeeSchedule(false, 0.0, 1);
    SharesOnGrid(10000);
    SharesOnGrid(1000);
    QuantizeToShares(100.0);
    QuantizeToShares(10.0);
    assert Shares(10000) == 100.0 && Shares(1000) == 10.0;
    var lots, caps := Lots(levels), Caps(levels, 5.0, fees);
    assert lots == [100.0];
    assert CommitmentPerShare(0.5, fees) == 0.5 && Div(5.0, 0.5) == 10.0 && caps == [10.0];
    assert Reach(lots) == 1 by { assert lots[1..] == []; }
    assert Depth(lots, 0) == 0.0 && Depth(lots, 1) == 100.0;
    assert Best(lots, caps, 0) == 0.0 && Best(lots, caps, 1) == 10.0;
    assert Taken(lots, 10.0, 0) == 10.0;
    assert Cost(lots, Prices(levels), 10.0, 1) == Cost(lots, Prices(levels), 10.0, 0) + Mul(10.0, 0.5);
    assert Cost(lots, FeeUnits(levels, fees), 10.0, 1) == Cost(lots, FeeUnits(levels, fees), 10.0, 0) + Mul(10.0, 0.0);
  }

  /** The same predicate stops entries in the gate and triggers liquidation in the strategy. */
  predicate HardRiskBreached(p: PortfolioState, s: Settings) {
    DailyLossBreached(p, s.limits) || DrawdownBreached(p, s.limits)
  }

  lemma HardBreachStopsEveryBuy(c: Candidate, m: Market, b: Book, p: PortfolioState, s: Settings, now: Instant)
    requires ValidSnapshot(b) && c.side == Buy
    ensures HardRiskBreached(p, s)
            <==> Draws(DailyLossKill, c, m, b, p, s, now) || Draws(DrawdownKill, c, m, b, p, s, now)
    ensures HardRiskBreached(p, s) ==> !Approved(c, m, b, p, s, now)
  {
    hide DailyLossBreached, DrawdownBreached;
    BuyDraws(c, m, b, p, s, now);
  }

  // ---------------------------------------------------------------- exits

  datatype BidFill = BidFill(filled: real, gross: real, fee: real, limit: Option<real>)

  function Sizes(levels: seq<Level>): seq<real> {
    seq(|levels|, i requires 0 <= i < |levels| => levels[i].size)
  }

  /** Selling into price-sorted bids up to a cap: the whole cap if the book is deep enough. */
  function BidsFilled(levels: seq<Level>, cap: real, fees: FeeSchedule): BidFill {
    var n := Min(cap, Depth(Sizes(levels), |levels|));
    BidFill(n, Cost(Sizes(levels), Prices(levels), n, |levels|),
            Cost(Sizes(levels), FeeUnits(levels, fees), n, |levels|), PriceAt(levels, Sizes(levels), n))
  }

  lemma SizesPositive(levels: seq<Level>)
    requires ValidLevels(levels)
    ensures Nonnegative(Sizes(levels))
  {}

  /** The loop's state after k levels: all of them bought out, or stopped inside the last one. */
  ghost predicate FilledTo(levels: seq<Level>, fees: FeeSchedule, k: nat, f: BidFill)
    requires k <= |levels|
  {
    var sizes := Sizes(levels);
    && f.filled <= Depth(sizes, k)
    && (if k == 0 then f.filled == 0.0 && f.limit == None
        else Depth(sizes, k - 1) < f.filled && f.limit == Some(levels[k - 1].price))
    && f.gross == Cost(sizes, Prices(levels), f.filled, k) && f.fee == Cost(sizes, FeeUnits(levels, fees), f.filled, k)
  }

  lemma NextBid(levels: seq<Level>, fees: FeeSchedule, k: nat, f: BidFill, take: real)
    requires ValidLevels(levels) && k < |levels| && FilledTo(levels, fees, k, f)
    requires f.filled == Depth(Sizes(levels), k) && 0.0 < take <= levels[k].size
    ensures FilledTo(levels, fees, k + 1, BidFill(f.filled + take, f.gross + Mul(take, levels[k].price),
              f.fee + Mul(take, EstimatedFeePerShare(levels[k].price, fees)), Some(levels[k].price)))
    ensures take == levels[k].size ==> f.filled + take == Depth(Sizes(levels), k + 1)
  {
    hide Mul, EstimatedFeePerShare;
    SizesPositive(levels);
    TakeNext(levels, Prices(levels), Sizes(levels), k, take);
    TakeNext(levels, FeeUnits(levels, fees), Sizes(levels), k, take);
  }

  lemma FillDone(levels: seq<Level>, cap: real, fees: FeeSchedule, k: nat, f: BidFill)
    requires ValidLevels(levels) && k <= |levels| && FilledTo(levels, fees, k, f)
    requires f.filled == cap || (f.filled <= cap && k == |levels| && f.filled == Depth(Sizes(levels), k))
    ensures f == BidsFilled(levels, cap, fees)
  {
    hide Mul, EstimatedFeePerShare;
    SizesPositive(levels);
    var sizes := Sizes(levels);
    DepthMonotone(sizes, k, |levels|);
    CostStops(sizes, Prices(levels), f.filled, k, |levels|);
    CostStops(sizes, FeeUnits(levels, fees), f.filled, k, |levels|);
    if k > 0 { PriceAtLevel(levels, sizes, f.filled, k - 1); }
  }

  /** The fill loop of both exits. Level sizes and the remaining cap are positive, so every level visited is taken. */
  method FillBids(bids: seq<Level>, cap: real, fees: FeeSchedule) returns (r: BidFill)
    requires ValidLevels(bids) && cap > 0.0
    ensures r == BidsFilled(Sorted(bids, true), cap, fees)
  {
    hide Mul, Div, EstimatedFeePerShare, Sorted, Cost, PriceAt, BidsFilled;
    var levels := Sorted(bids, true);
    SortedKeepsLevels(bids, true);
    var remaining, filled, gross, fee, limit := cap, 0.0, 0.0, 0.0, None;
    var i := 0;
    Unfilled(levels, fees);
    while i < |levels|
      invariant 0 <= i <= |levels| && filled == Depth(Sizes(levels), i) && remaining == cap - filled && remaining > 0.0
      invariant FilledTo(levels, fees, i, BidFill(filled, gross, fee, limit))
    {
      var level := levels[i];
      var take := Min(level.size, remaining);
      var feePerShare := EstimatedFeePerShare(level.price, fees);
      NextBid(levels, fees, i, BidFill(filled, gross, fee, limit), take);
      filled := filled + take;
      gross := gross + Mul(take, level.price);
      fee := fee + Mul(take, feePerShare);
      remaining := remaining - take;
      limit := Some(level.price);
      if remaining <= 0.0 {
        FillDone(levels, cap, fees, i + 1, BidFill(filled, gross, fee, limit));
        return BidFill(filled, gross, fee, limit);
      }
      i := i + 1;
    }
    FillDone(levels, cap, fees, i, BidFill(filled, gross, fee, limit));
    r := BidFill(filled, gross, fee, limit);
  }

  lemma Unfilled(levels: seq<Level>, fees: FeeSchedule)
    ensures FilledTo(levels, fees, 0, BidFill(0.0, 0.0, 0.0, None)) && Depth(Sizes(levels), 0) == 0.0
  {}

  /** The average bid hit lies between the limit and the best bid. */
  lemma FillBounds(levels: seq<Level>, cap: real, fees: FeeSchedule)
    requires ValidLevels(levels) && Ordered(levels, true) && levels != [] && cap > 0.0
    ensures var f := BidsFilled(levels, cap, fees);
            && 0.0 < f.filled <= cap && f.limit.Some? && 0.0 < f.limit.value <= levels[0].price && f.fee >= 0.0
            && Mul(f.limit.value, f.filled) <= f.gross <= Mul(levels[0].price, f.filled)
  {
    hide Mul, EstimatedFeePerShare;
    SizesPositive(levels);
    var sizes := Sizes(levels);
    DepthMonotone(sizes, 1, |levels|);
    var n := BidsFilled(levels, cap, fees).filled;
    var k := LevelOf(sizes, n, |levels|);
    PriceAtLevel(levels, sizes, n, k);
    forall i: nat | i < |levels| && Depth(sizes, i) < n ensures levels[k].price <= levels[i].price <= levels[0].price {
      if i > k { DepthMonotone(sizes, k + 1, i); }
      assert Rank(levels[0], true) <= Rank(levels[i], true) || i == 0;
      assert Rank(levels[i], true) <= Rank(levels[k], true) || i == k;
    }
    CostBounds(sizes, Prices(levels), n, |levels|, levels[k].price, levels[0].price);
    FillFeesNonnegative(levels, fees, n, |levels|);
  }

  lemma {:induction false} FillFeesNonnegative(levels: seq<Level>, fees: FeeSchedule, n: real, k: nat)
    requires k <= |levels|
    ensures Cost(Sizes(levels), FeeUnits(levels, fees), n, k) >= 0.0
  {
    hide Mul, EstimatedFeePerShare;
    if k > 0 {
      FillFeesNonnegative(levels, fees, n, k - 1);
      FeeNonnegative(levels[k - 1].price, fees);
      MulSign(Taken(Sizes(levels), n, k - 1), EstimatedFeePerShare(levels[k - 1].price, fees));
    }
  }

  /** Drop the part of a fill below the share grid, and its proceeds and fee in proportion. */
  function Orderable(raw: BidFill): BidFill {
    var filled := QuantizeDown(raw.filled, STEP);
    if raw.filled > 0.0 && filled < raw.filled then
      var scale := Div(filled, raw.filled);
      BidFill(filled, Mul(raw.gross, scale), Mul(raw.fee, scale), raw.limit)
    else BidFill(filled, raw.gross, raw.fee, raw.limit)
  }

  /** The rescale keeps the average price between the same bounds. */
  lemma OrderableBounds(raw: BidFill, lo: real, hi: real)
    requires raw.filled > 0.0 && raw.fee >= 0.0
    requires Mul(lo, raw.filled) <= raw.gross <= Mul(hi, raw.filled)
    ensures var f := Orderable(raw);
            && 0.0 <= f.filled <= raw.filled && f.limit == raw.limit && f.fee >= 0.0
            && Mul(lo, f.filled) <= f.gross <= Mul(hi, f.filled)
  {
    hide Mul, Div, QuantizeDown, Hundredths;
    QuantizeOnGrid(raw.filled);
    var filled := QuantizeDown(raw.filled, STEP);
    if filled < raw.filled {
      var scale := Div(filled, raw.filled);
      DivSign(filled, raw.filled);
      DivMul(filled, raw.filled);
      MulSign(raw.fee, scale);
      MulMonotone(Mul(lo, raw.filled), raw.gross, scale);
      MulMonotone(raw.gross, Mul(hi, raw.filled), scale);
      MulAssoc(lo, raw.filled, scale);
      MulAssoc(hi, raw.filled, scale);
    }
  }

  /** The most shares an exit may order: the position, and what the order cap buys at the best bid. */
  function ExitCap(b: Book, p: PortfolioState, s: Settings): real
    requires b.bids != [] && BestQuote(b.bids, true).value > 0.0
  {
    QuantizeDown(Min(Lookup(p.positions, b.tokenId), Div(s.limits.maxOrder, BestQuote(b.bids, true).value)), STEP)
  }

  lemma BestBidInside(b: Book)
    requires ValidSnapshot(b) && b.bids != []
    ensures 0.0 < BestQuote(b.bids, true).value < 1.0
  {
    var best := BestQuote(b.bids, true);
    var l :| l in b.bids && l.price == best.value;
  }

  function SellCandidate(m: Market, b: Book, outcome: Outcome, upper: real, p: PortfolioState,
                         s: Settings): Option<Candidate>
    requires ValidSnapshot(b) && ValidMarket(m)
  {
    var bestBid := BestQuote(b.bids, true);
    if Lookup(p.positions, b.tokenId) <= 0.0 || bestBid.None? || bestBid.value <= upper then None
    else
      BestBidInside(b);
      var cap := ExitCap(b, p, s);
      if cap < MinimumSize(m, b) then None
      else
        var fill := Orderable(BidsFilled(Sorted(b.bids, true), cap, m.fees));
        if fill.filled < MinimumSize(m, b) || fill.limit.None? then None
        else
          var vwap := Div(fill.gross, fill.filled);
          var edge := vwap - upper - Div(fill.fee, fill.filled) - s.uncertaintyReserve;
          if edge <= 0.0 then None
          else Some(Candidate(m.id, m.eventId, Bucket(m), b.tokenId, outcome, Sell, AiValue, upper, vwap,
                              fill.limit.value, fill.filled, fill.gross - fill.fee, None, fill.fee, edge))
  }

  function RiskExitCandidate(m: Market, b: Book, outcome: Outcome, p: PortfolioState, s: Settings): Option<Candidate>
    requires ValidSnapshot(b) && ValidMarket(m)
  {
    var bestBid := BestQuote(b.bids, true);
    if Lookup(p.positions, b.tokenId) <= 0.0 || bestBid.None? then None
    else
      BestBidInside(b);
      var cap := ExitCap(b, p, s);
      if cap < MinimumSize(m, b) then None
      else
        var fill := Orderable(BidsFilled(Sorted(b.bids, true), cap, m.fees));
        if fill.filled < MinimumSize(m, b) || fill.limit.None? || fill.gross <= fill.fee then None
        else Some(Candidate(m.id, m.eventId, Bucket(m), b.tokenId, outcome, Sell, RiskExit, 0.0,
                            Div(fill.gross, fill.filled), fill.limit.value, fill.filled, fill.gross - fill.fee,
                            None, fill.fee, 0.0))
  }

  /** What either exit keeps: never more than is held, never above the order cap, never below its limit. */
  ghost predicate SafeExit(c: Candidate, m: Market, b: Book, p: PortfolioState, s: Settings) {
    && ValidCandidate(c) && c.side == Sell && c.tokenId == b.tokenId && OnGrid(c.size) && b.bids != []
    && MinimumSize(m, b) <= c.size <= Lookup(p.positions, c.tokenId)
    && c.notional <= c.notional + c.fee <= s.limits.maxOrder
    && c.notional + c.fee == Mul(c.size, c.expectedPrice)
    && c.limitPrice <= c.expectedPrice <= BestQuote(b.bids, true).value
  }

  lemma ExitFillFacts(m: Market, b: Book, p: PortfolioState, s: Settings)
    requires ValidSnapshot(b) && ValidMarket(m) && b.bids != [] && s.limits.maxOrder > 0.0
    requires BestQuote(b.bids, true).value > 0.0 && Lookup(p.positions, b.tokenId) > 0.0
    requires ExitCap(b, p, s) >= MinimumSize(m, b)
    ensures var f := Orderable(BidsFilled(Sorted(b.bids, true), ExitCap(b, p, s), m.fees));
            var best := BestQuote(b.bids, true).value;
            && OnGrid(f.filled) && f.fee >= 0.0 && best < 1.0
            && (f.filled > 0.0 ==>
                && f.filled <= Lookup(p.positions, b.tokenId) && f.gross <= s.limits.maxOrder
                && f.limit.Some? && 0.0 < f.limit.value <= Div(f.gross, f.filled) <= best
                && Mul(f.filled, Div(f.gross, f.filled)) == f.gross)
  {
    hide Mul, Div, QuantizeDown, Hundredths, Sorted, BidsFilled, Cost, Lookup;
    BestBidInside(b);
    SortedKeepsLevels(b.bids, true);
    BestQuoteIsFirst(b.bids, true);
    var levels, cap, best := Sorted(b.bids, true), ExitCap(b, p, s), BestQuote(b.bids, true).value;
    var raw := BidsFilled(levels, cap, m.fees);
    FillBounds(levels, cap, m.fees);
    OrderableBounds(raw, raw.limit.value, best);
    QuantizeOnGrid(raw.filled);
    var f := Orderable(raw);
    DivSign(s.limits.maxOrder, best);
    QuantizeOnGrid(Min(Lookup(p.positions, b.tokenId), Div(s.limits.maxOrder, best)));
    if f.filled > 0.0 {
      MulMonotone(f.filled, Div(s.limits.maxOrder, best), best);
      DivMul(s.limits.maxOrder, best);
      DivBound(f.gross, best, f.filled);
      DivBound(f.gross, raw.limit.value, f.filled);
      DivMul(f.gross, f.filled);
    }
  }

  lemma SellIsSafe(m: Market, b: Book, outcome: Outcome, upper: real, p: PortfolioState, s: Settings)
    requires ValidSnapshot(b) && ValidMarket(m) && ValidSettings(s) && 0.0 <= upper <= 1.0
    requires SellCandidate(m, b, outcome, upper, p, s).Some?
    ensures SafeExit(SellCandidate(m, b, outcome, upper, p, s).value, m, b, p, s)
  {
    hide Mul, Div, QuantizeDown, Hundredths, Sorted, BidsFilled, Lookup, Orderable, ExitCap;
    BestBidInside(b);
    ExitFillFacts(m, b, p, s);
    var f := Orderable(BidsFilled(Sorted(b.bids, true), ExitCap(b, p, s), m.fees));
    MulStrict(Div(f.fee, f.filled), Div(f.gross, f.filled), f.filled);
    DivMul(f.fee, f.filled);
    DivMul(f.gross, f.filled);
  }

  lemma RiskExitIsSafe(m: Market, b: Book, outcome: Outcome, p: PortfolioState, s: Settings)
    requires ValidSnapshot(b) && ValidMarket(m) && ValidSettings(s)
    requires RiskExitCandidate(m, b, outcome, p, s).Some?
    ensures SafeExit(RiskExitCandidate(m, b, outcome, p, s).value, m, b, p, s)
  {
    hide Mul, Div, QuantizeDown, Hundredths, Sorted, BidsFilled, Lookup, Orderable, ExitCap;
    BestBidInside(b);
    ExitFillFacts(m, b, p, s);
  }

  predicate ExitCode(code: RiskCode) {
    code in {OrderCapExceeded, BelowMinimumSize, SellExceedsPosition, EmptyBidBook, SellLimitNotMarketable}
  }

  /** An exit never draws a size, cap or sell-side code, nor any code that belongs to entries. */
  lemma ExitNeverDrawsSizingCodes(c: Candidate, m: Market, b: Book, p: PortfolioState, s: Settings, now: Instant)
    requires ValidSnapshot(b) && SafeExit(c, m, b, p, s)
    ensures forall code | ExitCode(code) || code in BUY_ONLY :: !Draws(code, c, m, b, p, s, now)
  {
    hide Mul, QuantizeDown, MaximumBuyCost, Lookup, Drawdown, DailyRiskPnl, MinimumSize;
    forall code | ExitCode(code) || code in BUY_ONLY ensures !Draws(code, c, m, b, p, s, now) {
      GeneralDraws(c, m, b, p, s, now);
      SellDraws(c, m, b, p, s, now);
    }
  }

  // ---------------------------------------------------------------- choices

  function Better(a: Option<Candidate>, b: Option<Candidate>, byNotional: bool): Option<Candidate> {
    if a.None? then b
    else if b.None? then a
    else if (if byNotional then b.value.notional > a.value.notional else b.value.edge > a.value.edge) then b else a
  }

  /** An exit is always preferred to an entry; within each kind the larger edge wins, YES first on a tie. */
  function Choose(m: Market, f: Forecast, yes: Book, no: Book, p: PortfolioState, s: Settings): Option<Candidate>
    requires ValidSnapshot(yes) && ValidSnapshot(no) && ValidMarket(m)
  {
    if f.confidence < s.minConfidence then None
    else
      var exit := Better(SellCandidate(m, yes, Yes, f.high, p, s), SellCandidate(m, no, No, 1.0 - f.low, p, s), false);
      if exit.Some? then exit
      else Better(BuyCandidate(m, yes, Yes, f.low, p, s), BuyCandidate(m, no, No, 1.0 - f.high, p, s), false)
  }

  function ChooseRiskExit(m: Market, yes: Book, no: Book, p: PortfolioState, s: Settings): Option<Candidate>
    requires ValidSnapshot(yes) && ValidSnapshot(no) && ValidMarket(m)
  {
    if !HardRiskBreached(p, s) then None
    else Better(RiskExitCandidate(m, yes, Yes, p, s), RiskExitCandidate(m, no, No, p, s), true)
  }

  /** The candidate is well formed and the gate on this book has nothing to say about its size and price. */
  ghost predicate GateAgrees(c: Candidate, m: Market, b: Book, p: PortfolioState, s: Settings, now: Instant)
    requires b.tickSize > 0.0
  {
    && ValidCandidate(c) && c.tokenId == b.tokenId
    && (c.side == Sell ==> forall code | ExitCode(code) :: !Draws(code, c, m, b, p, s, now))
    && (c.side == Buy ==> forall code | SizingCode(code) :: !Draws(code, c, m, b, p, s, now))
  }

  lemma SellAgrees(m: Market, b: Book, o: Outcome, upper: real, p: PortfolioState, s: Settings, now: Instant)
    requires ValidSnapshot(b) && ValidMarket(m) && ValidSettings(s) && 0.0 <= upper <= 1.0
    ensures SellCandidate(m, b, o, upper, p, s).Some? ==>
              GateAgrees(SellCandidate(m, b, o, upper, p, s).value, m, b, p, s, now)
  {
    hide SellCandidate, Draws, MinimumSize, Mul;
    if SellCandidate(m, b, o, upper, p, s).Some? {
      SellIsSafe(m, b, o, upper, p, s);
      ExitNeverDrawsSizingCodes(SellCandidate(m, b, o, upper, p, s).value, m, b, p, s, now);
    }
  }

  lemma BuyAgrees(m: Market, b: Book, o: Outcome, lower: real, p: PortfolioState, s: Settings, now: Instant)
    requires ValidSnapshot(b) && ValidSettings(s) && 0.0 <= lower <= 1.0
    ensures BuyCandidate(m, b, o, lower, p, s).Some? ==>
              GateAgrees(BuyCandidate(m, b, o, lower, p, s).value, m, b, p, s, now)
  {
    hide BuyCandidate, Draws, MinimumSize, Mul, MaximumBuyCost, BuyBudget;
    if BuyCandidate(m, b, o, lower, p, s).Some? {
      BuyFacts(m, b, o, lower, p, s);
      SameKeys(m, b, o, lower, p, s);
      BuyNeverDrawsSizingCodes(m, b, o, lower, p, s, now);
    }
  }

  /** Whatever is chosen builds a valid candidate for the book of its outcome, and the gate on that book
      never refuses it for its size, price bound or exposure (except the unclassified bucket). */
  lemma ChosenAgreesWithGate(m: Market, f: Forecast, yes: Book, no: Book, p: PortfolioState, s: Settings, now: Instant)
    requires ValidSnapshot(yes) && ValidSnapshot(no) && ValidMarket(m) && ValidForecast(f) && ValidSettings(s)
    requires Choose(m, f, yes, no, p, s).Some?
    ensures var c := Choose(m, f, yes, no, p, s).value;
            GateAgrees(c, m, if c.outcome == Yes then yes else no, p, s, now)
  {
    hide SellCandidate, BuyCandidate, GateAgrees;
    OutcomesAreTheirs(m, yes, no, f, p, s);
    SellAgrees(m, yes, Yes, f.high, p, s, now);
    SellAgrees(m, no, No, 1.0 - f.low, p, s, now);
    BuyAgrees(m, yes, Yes, f.low, p, s, now);
    BuyAgrees(m, no, No, 1.0 - f.high, p, s, now);
  }

  /** Under a hard breach only exits are proposed, and without one the exit path proposes nothing. */
  lemma RiskExitOnlyUnderBreach(m: Market, yes: Book, no: Book, p: PortfolioState, s: Settings)
    requires ValidSnapshot(yes) && ValidSnapshot(no) && ValidMarket(m) && ValidSettings(s)
    ensures ChooseRiskExit(m, yes, no, p, s).Some? ==>
              && HardRiskBreached(p, s)
              && var c := ChooseRiskExit(m, yes, no, p, s).value;
                 SafeExit(c, m, if c.outcome == Yes then yes else no, p, s) && c.marketId == m.id
                     && c.strategy == RiskExit
  {
    hide RiskExitCandidate, HardRiskBreached;
    RiskOutcomes(m, yes, Yes, p, s);
    RiskOutcomes(m, no, No, p, s);
    if RiskExitCandidate(m, yes, Yes, p, s).Some? { RiskExitIsSafe(m, yes, Yes, p, s); }
    if RiskExitCandidate(m, no, No, p, s).Some? { RiskExitIsSafe(m, no, No, p, s); }
  }

  lemma RiskOutcomes(m: Market, b: Book, o: Outcome, p: PortfolioState, s: Settings)
    requires ValidSnapshot(b) && ValidMarket(m)
    ensures RiskExitCandidate(m, b, o, p, s).Some? ==>
              && RiskExitCandidate(m, b, o, p, s).value.outcome == o
              && RiskExitCandidate(m, b, o, p, s).value.marketId == m.id
              && RiskExitCandidate(m, b, o, p, s).value.strategy == RiskExit
  {
    hide Mul, Div, QuantizeDown, Sorted, BidsFilled, Orderable, ExitCap, MinimumSize;
  }

  lemma OutcomesAreTheirs(m: Market, yes: Book, no: Book, f: Forecast, p: PortfolioState, s: Settings)
    requires ValidSnapshot(yes) && ValidSnapshot(no) && ValidMarket(m) && ValidForecast(f) && ValidSettings(s)
    ensures var c := SellCandidate(m, yes, Yes, f.high, p, s);
            c.Some? ==> c.value.outcome == Yes && c.value.side == Sell
    ensures var c := SellCandidate(m, no, No, 1.0 - f.low, p, s);
            c.Some? ==> c.value.outcome == No && c.value.side == Sell
    ensures var c := BuyCandidate(m, yes, Yes, f.low, p, s); c.Some? ==> c.value.outcome == Yes && c.value.side == Buy
    ensures var c := BuyCandidate(m, no, No, 1.0 - f.high, p, s);
            c.Some? ==> c.value.outcome == No && c.value.side == Buy
  {
    hide SellCandidate, BuyCandidate;
    if SellCandidate(m, yes, Yes, f.high, p, s).Some? { SellEdge(m, yes, Yes, f.high, p, s); }
    if SellCandidate(m, no, No, 1.0 - f.low, p, s).Some? { SellEdge(m, no, No, 1.0 - f.low, p, s); }
    if BuyCandidate(m, yes, Yes, f.low, p, s).Some? { BuyEdge(m, yes, Yes, f.low, p, s); }
    if BuyCandidate(m, no, No, 1.0 - f.high, p, s).Some? { BuyEdge(m, no, No, 1.0 - f.high, p, s); }
  }

  // ---------------------------------------------------------------- what a candidate is worth

  /** A BUY of this outcome on this book: its whole cost, the reserve included, stays below the lower bound, and the
      edge is what is left per share. */
  ghost predicate BuysBelow(c: Candidate, m: Market, b: Book, o: Outcome, bound: real, s: Settings) {
    && c.side == Buy && c.outcome == o && c.tokenId == b.tokenId && c.marketId == m.id && c.conservative == bound
    && c.size >= m.minimumOrderSize && c.size >= b.minimumOrderSize
    && c.notional + Mul(c.size, s.uncertaintyReserve) < Mul(c.size, bound)
    && Mul(c.size, c.edge) == Mul(c.size, bound) - Mul(c.size, s.uncertaintyReserve) - c.notional && c.edge > 0.0
  }

  /** A SELL of this outcome on this book: its net proceeds, the reserve deducted, stay above the upper bound. */
  ghost predicate SellsAbove(c: Candidate, m: Market, b: Book, o: Outcome, bound: real, s: Settings) {
    && c.side == Sell && c.outcome == o && c.tokenId == b.tokenId && c.marketId == m.id && c.conservative == bound
    && c.size >= m.minimumOrderSize && c.size >= b.minimumOrderSize
    && c.notional > Mul(c.size, bound + s.uncertaintyReserve)
    && Mul(c.size, c.edge) == c.notional - Mul(c.size, bound + s.uncertaintyReserve) && c.edge > 0.0
  }

  /** Per share times size: the sum in front of the bracket. */
  lemma EdgeTimesSize(size: real, bound: real, cost: real, fee: real, reserve: real)
    requires size > 0.0
    ensures Mul(size, bound - Div(cost, size) - Div(fee, size) - reserve)
            == Mul(size, bound) - cost - fee - Mul(size, reserve)
    ensures Mul(size, Div(cost, size) - bound - Div(fee, size) - reserve) == cost - fee - Mul(size, bound + reserve)
  {
    hide Mul, Div;
    var c, f := Div(cost, size), Div(fee, size);
    DivMul(cost, size);
    DivMul(fee, size);
    MulDistrib(size, bound, c);
    MulDistrib(size, bound - c, f);
    MulDistrib(size, bound - c - f, reserve);
    MulDistrib(size, c, bound);
    MulDistrib(size, c - bound, f);
    MulDistrib(size, c - bound - f, reserve);
    MulDistrib(size, bound, reserve);
  }

  lemma BuyParts(m: Market, b: Book, o: Outcome, bound: real, p: PortfolioState, s: Settings)
    requires ValidSnapshot(b) && BuyCandidate(m, b, o, bound, p, s).Some?
    ensures b.asks != [] && BestQuote(b.asks, false).value < 1.0 && ValidLevels(Sorted(b.asks, false))
    ensures var sweep := OptimalSweep(Sorted(b.asks, false), BuyBudget(bound, BestQuote(b.asks, false).value, m, p, s),
                                      m.fees);
            var c := BuyCandidate(m, b, o, bound, p, s).value;
            && c.side == Buy && c.outcome == o && c.tokenId == b.tokenId && c.marketId == m.id
               && c.conservative == bound
            && c.size >= MinimumSize(m, b) && c.notional == sweep.baseCost + sweep.feeCost && c.edge > 0.0
            && c.edge == bound - Div(sweep.baseCost, Max(c.size, TINY)) - Div(sweep.feeCost, Max(c.size, TINY))
                         - s.uncertaintyReserve
  {
    hide Mul, Div, OptimalSweep, BuyBudget, QuantizeDown, Sorted, Hundredths, MaximumBuyCost, MinimumSize, Bucket;
    BestAskInside(b);
    SortedKeepsLevels(b.asks, false);
  }

  lemma BuyEdge(m: Market, b: Book, o: Outcome, bound: real, p: PortfolioState, s: Settings)
    requires ValidSnapshot(b) && 0.0 <= bound <= 1.0 && s.uncertaintyReserve >= 0.0
    requires BuyCandidate(m, b, o, bound, p, s).Some?
    ensures BuysBelow(BuyCandidate(m, b, o, bound, p, s).value, m, b, o, bound, s)
  {
    hide Mul, Div, OptimalSweep, BuyBudget, BuyCandidate, Sorted, Hundredths, MaximumBuyCost, BestQuote;
    BuyFacts(m, b, o, bound, p, s);
    BuyParts(m, b, o, bound, p, s);
    var sweep := OptimalSweep(Sorted(b.asks, false), BuyBudget(bound, BestQuote(b.asks, false).value, m, p, s), m.fees);
    var c := BuyCandidate(m, b, o, bound, p, s).value;
    AtLeastAHundredth(c.size);
    EdgeTimesSize(c.size, bound, sweep.baseCost, sweep.feeCost, s.uncertaintyReserve);
    MulSign(c.size, c.edge);
  }

  lemma SellEdge(m: Market, b: Book, o: Outcome, bound: real, p: PortfolioState, s: Settings)
    requires ValidSnapshot(b) && ValidMarket(m) && ValidSettings(s) && 0.0 <= bound <= 1.0
    requires SellCandidate(m, b, o, bound, p, s).Some?
    ensures SellsAbove(SellCandidate(m, b, o, bound, p, s).value, m, b, o, bound, s)
  {
    hide Mul, Div, QuantizeDown, Hundredths, Sorted, BidsFilled, Lookup, Orderable, ExitCap;
    BestBidInside(b);
    var f := Orderable(BidsFilled(Sorted(b.bids, true), ExitCap(b, p, s), m.fees));
    var c := SellCandidate(m, b, o, bound, p, s).value;
    EdgeTimesSize(c.size, bound, f.gross, f.fee, s.uncertaintyReserve);
    MulSign(c.size, c.edge);
  }

  /** THE CHOICE. Nothing below the minimum confidence; a SELL beats the upper bound of its outcome and a BUY stays
      below the lower one, a NO share being worth one less the YES bound on the other end; an entry only when neither
      book has a viable exit; and no viable candidate of its kind has a larger edge, YES coming first on a tie. */
  lemma ChosenByItsBound(m: Market, f: Forecast, yes: Book, no: Book, p: PortfolioState, s: Settings)
    requires ValidSnapshot(yes) && ValidSnapshot(no) && ValidMarket(m) && ValidForecast(f) && ValidSettings(s)
    requires Choose(m, f, yes, no, p, s).Some?
    ensures var c := Choose(m, f, yes, no, p, s).value;
            && f.confidence >= s.minConfidence
            && (c.side == Sell && c.outcome == Yes ==> SellsAbove(c, m, yes, Yes, f.high, s))
            && (c.side == Sell && c.outcome == No ==> SellsAbove(c, m, no, No, 1.0 - f.low, s))
            && (c.side == Buy && c.outcome == Yes ==> BuysBelow(c, m, yes, Yes, f.low, s))
            && (c.side == Buy && c.outcome == No ==> BuysBelow(c, m, no, No, 1.0 - f.high, s))
            && (c.side == Buy ==> SellCandidate(m, yes, Yes, f.high, p, s).None?
                                  && SellCandidate(m, no, No, 1.0 - f.low, p, s).None?)
            && (forall o: Option<Candidate> | o.Some? && o.value.side == c.side
                  && o in {SellCandidate(m, yes, Yes, f.high, p, s), SellCandidate(m, no, No, 1.0 - f.low, p, s),
                           BuyCandidate(m, yes, Yes, f.low, p, s), BuyCandidate(m, no, No, 1.0 - f.high, p, s)} ::
                  o.value.edge <= c.edge && (o.value.outcome == Yes && c.outcome == No ==> o.value.edge < c.edge))
  {
    hide SellCandidate, BuyCandidate, BuysBelow, SellsAbove;
    OutcomesAreTheirs(m, yes, no, f, p, s);
    if SellCandidate(m, yes, Yes, f.high, p, s).Some? { SellEdge(m, yes, Yes, f.high, p, s); }
    if SellCandidate(m, no, No, 1.0 - f.low, p, s).Some? { SellEdge(m, no, No, 1.0 - f.low, p, s); }
    if BuyCandidate(m, yes, Yes, f.low, p, s).Some? { BuyEdge(m, yes, Yes, f.low, p, s); }
    if BuyCandidate(m, no, No, 1.0 - f.high, p, s).Some? { BuyEdge(m, no, No, 1.0 - f.high, p, s); }
  }

  /** Nothing is chosen exactly when the forecast is not confident enough or none of the four candidates is viable. */
  lemma NothingChosenExactly(m: Market, f: Forecast, yes: Book, no: Book, p: PortfolioState, s: Settings)
    requires ValidSnapshot(yes) && ValidSnapshot(no) && ValidMarket(m)
    ensures Choose(m, f, yes, no, p, s).None? <==>
              || f.confidence < s.minConfidence
              || (SellCandidate(m, yes, Yes, f.high, p, s).None? && SellCandidate(m, no, No, 1.0 - f.low, p, s).None?
                  && BuyCandidate(m, yes, Yes, f.low, p, s).None?
                  && BuyCandidate(m, no, No, 1.0 - f.high, p, s).None?)
  {
    hide SellCandidate, BuyCandidate;
  }

  /** VIABILITY of an exit: something is held, cap and fill reach the minimum size, and the net proceeds of that fill
      beat bound and reserve. The separate test of the best bid rejects nothing more. */
  lemma SellViableExactly(m: Market, b: Book, o: Outcome, bound: real, p: PortfolioState, s: Settings)
    requires ValidSnapshot(b) && ValidMarket(m) && ValidSettings(s) && b.bids != [] && 0.0 <= bound <= 1.0
    ensures BestQuote(b.bids, true).value > 0.0
    ensures var f := Orderable(BidsFilled(Sorted(b.bids, true), ExitCap(b, p, s), m.fees));
            SellCandidate(m, b, o, bound, p, s).Some?
            <==> Lookup(p.positions, b.tokenId) > 0.0 && ExitCap(b, p, s) >= MinimumSize(m, b)
                 && f.filled >= MinimumSize(m, b) && f.gross - f.fee > Mul(f.filled, bound + s.uncertaintyReserve)
  {
    hide Mul, Div, QuantizeDown, Hundredths, Sorted, BidsFilled, Lookup, Orderable, ExitCap;
    BestBidInside(b);
    var f := Orderable(BidsFilled(Sorted(b.bids, true), ExitCap(b, p, s), m.fees));
    var best := BestQuote(b.bids, true).value;
    if Lookup(p.positions, b.tokenId) > 0.0 && ExitCap(b, p, s) >= MinimumSize(m, b) {
      ExitFillFacts(m, b, p, s);
      if f.filled >= MinimumSize(m, b) {
        var edge := Div(f.gross, f.filled) - bound - Div(f.fee, f.filled) - s.uncertaintyReserve;
        EdgeTimesSize(f.filled, bound, f.gross, f.fee, s.uncertaintyReserve);
        MulSign(f.filled, edge);
        if edge < 0.0 { MulStrict(edge, 0.0, f.filled); MulSign(f.filled, 0.0); MulComm(f.filled, edge); }
        DivSign(f.fee, f.filled);
      }
    }
  }

  /** VIABILITY of an entry: a positive budget, a sweep that reaches the minimum size, and a cost that stays below bound
      and reserve. The tests of the best ask and of the commitment reject nothing more. */
  lemma BuyViableExactly(m: Market, b: Book, o: Outcome, bound: real, p: PortfolioState, s: Settings)
    requires ValidSnapshot(b) && ValidMarket(m) && b.asks != [] && 0.0 <= bound <= 1.0 && s.uncertaintyReserve >= 0.0
    ensures BestQuote(b.asks, false).value < 1.0 && ValidLevels(Sorted(b.asks, false))
    ensures var budget := BuyBudget(bound, BestQuote(b.asks, false).value, m, p, s);
            var sweep := OptimalSweep(Sorted(b.asks, false), budget, m.fees);
            BuyCandidate(m, b, o, bound, p, s).Some?
            <==> budget > 0.0 && sweep.shares >= MinimumSize(m, b)
                 && sweep.baseCost + sweep.feeCost + Mul(sweep.shares, s.uncertaintyReserve) < Mul(sweep.shares, bound)
  {
    hide Mul, Div, OptimalSweep, BuyBudget, QuantizeDown, Sorted, Hundredths, MaximumBuyCost, BestQuote;
    BestAskInside(b);
    SortedKeepsLevels(b.asks, false);
    BestQuoteIsFirst(b.asks, false);
    var levels, best := Sorted(b.asks, false), BestQuote(b.asks, false).value;
    var budget := BuyBudget(bound, best, m, p, s);
    var sweep := OptimalSweep(levels, budget, m.fees);
    if budget > 0.0 {
      LateChecksNeverFire(levels, budget, m.fees);
      SweepSharesOnGrid(levels, budget, m.fees);
      if sweep.shares >= MinimumSize(m, b) {
        SweepWithinBudget(levels, budget, m.fees);
        AtLeastAHundredth(sweep.shares);
        EdgeTimesSize(sweep.shares, bound, sweep.baseCost, sweep.feeCost, s.uncertaintyReserve);
        var edge := bound - Div(sweep.baseCost, sweep.shares) - Div(sweep.feeCost, sweep.shares) - s.uncertaintyReserve;
        MulSign(sweep.shares, edge);
        if edge < 0.0 { MulStrict(edge, 0.0, sweep.shares); MulSign(sweep.shares, 0.0); MulComm(sweep.shares, edge); }
        DivBound(sweep.baseCost, best, sweep.shares);
        DivSign(sweep.feeCost, sweep.shares);
        MulSign(best, sweep.shares);
      }
    }
  }

  /** A risk exit is viable exactly when something is held, cap and fill reach the minimum size, and the fill brings
      more than its fee. */
  lemma RiskExitViableExactly(m: Market, b: Book, o: Outcome, p: PortfolioState, s: Settings)
    requires ValidSnapshot(b) && ValidMarket(m) && b.bids != []
    ensures BestQuote(b.bids, true).value > 0.0
    ensures var f := Orderable(BidsFilled(Sorted(b.bids, true), ExitCap(b, p, s), m.fees));
            RiskExitCandidate(m, b, o, p, s).Some?
            <==> Lookup(p.positions, b.tokenId) > 0.0 && ExitCap(b, p, s) >= MinimumSize(m, b)
                 && f.limit.Some? && f.filled >= MinimumSize(m, b) && f.gross > f.fee
  {
    hide Mul, Div, QuantizeDown, Sorted, BidsFilled, Lookup, Orderable, ExitCap, MinimumSize;
    BestBidInside(b);
  }

  /** A risk exit is proposed exactly when the portfolio is broken and one of the two sides is viable, and then for the
      side that brings more. */
  lemma RiskExitExactly(m: Market, yes: Book, no: Book, p: PortfolioState, s: Settings)
    requires ValidSnapshot(yes) && ValidSnapshot(no) && ValidMarket(m)
    ensures var c := ChooseRiskExit(m, yes, no, p, s);
            var sides := [RiskExitCandidate(m, yes, Yes, p, s), RiskExitCandidate(m, no, No, p, s)];
            && (c.Some? <==> HardRiskBreached(p, s) && (sides[0].Some? || sides[1].Some?))
            && (c.Some? ==> c in sides && forall o | o in sides && o.Some? :: o.value.notional <= c.value.notional)
            && (c.Some? && sides[0].Some? && sides[0].value.notional == c.value.notional ==> c == sides[0])
  {
    hide RiskExitCandidate, HardRiskBreached;
  }

  /** The exit cap is the largest orderable size within the position and the order cap at the best bid. */
  lemma ExitCapIsLargest(b: Book, p: PortfolioState, s: Settings, n: real)
    requires ValidSnapshot(b) && b.bids != [] && BestQuote(b.bids, true).value > 0.0 && s.limits.maxOrder > 0.0
    requires Lookup(p.positions, b.tokenId) >= 0.0 && OnGrid(n)
    ensures n <= ExitCap(b, p, s)
            <==> n <= Lookup(p.positions, b.tokenId) && Mul(n, BestQuote(b.bids, true).value) <= s.limits.maxOrder
  {
    hide Mul, Div, Hundredths, QuantizeDown, Lookup, BestQuote;
    var best, held := BestQuote(b.bids, true).value, Lookup(p.positions, b.tokenId);
    var room := Min(held, Div(s.limits.maxOrder, best));
    DivSign(s.limits.maxOrder, best);
    GridBelow(room, n);
    if n <= Div(s.limits.maxOrder, best) {
      MulMonotone(n, Div(s.limits.maxOrder, best), best);
      DivMul(s.limits.maxOrder, best);
    } else {
      MulStrict(Div(s.limits.maxOrder, best), n, best);
      DivMul(s.limits.maxOrder, best);
    }
  }

  /** Quantizing down keeps every grid size below. */
  lemma GridBelow(x: real, n: real)
    requires x >= 0.0 && OnGrid(n)
    ensures n <= QuantizeDown(x, STEP) <==> n <= x
  {
    hide QuantizeDown, Hundredths;
    QuantizeToShares(x);
    QuantizeOnGrid(x);
    if n <= x { GridMonotone(n, x); }
  }

  lemma GridMonotone(n: real, x: real)
    requires OnGrid(n) && n <= x && x >= 0.0
    ensures n <= Shares(Hundredths(x))
  {
    assert Hundredths(n) <= Hundredths(x);
  }

  /** Only the part of a fill below the share grid is dropped, with its proceeds and fee in proportion. */
  lemma OrderableKeepsRates(raw: BidFill)
    requires raw.filled > 0.0
    ensures var f := Orderable(raw);
            && (forall n | OnGrid(n) :: n <= f.filled <==> n <= raw.filled) && OnGrid(f.filled)
            && Mul(f.gross, raw.filled) == Mul(raw.gross, f.filled) && Mul(f.fee, raw.filled) == Mul(raw.fee, f.filled)
  {
    hide Mul, Div, QuantizeDown, Hundredths;
    QuantizeOnGrid(raw.filled);
    forall n | OnGrid(n) ensures n <= QuantizeDown(raw.filled, STEP) <==> n <= raw.filled { GridBelow(raw.filled, n); }
    var f, scale := Orderable(raw), Div(QuantizeDown(raw.filled, STEP), raw.filled);
    DivMul(QuantizeDown(raw.filled, STEP), raw.filled);
    MulAssoc(raw.gross, scale, raw.filled);
    MulAssoc(raw.fee, scale, raw.filled);
  }

  /** The budget of an entry is the tightest of its seven rooms, and positive exactly when all of them are. */
  lemma BudgetIsTheTightest(bound: real, ask: real, m: Market, p: PortfolioState, s: Settings)
    requires ask < 1.0
    ensures var event := Mul(p.bankroll, s.limits.maxEvent) - Lookup(p.eventExposure, OrElse(m.eventId, m.id))
                         - Lookup(p.eventExposure, UNCLASSIFIED_EVENT);
            var bucket := Mul(p.bankroll, s.limits.maxBucket)
                          - Lookup(p.bucketExposure, OrElse(Some(m.category), "other"));
            var kelly := if bound > ask then Mul(Mul(p.bankroll, s.kellyFraction), Div(bound - ask, 1.0 - ask))
                         else 0.0;
            var rooms := [s.limits.maxOrder, Mul(p.bankroll, s.limits.maxTradeRisk), p.cash, kelly, event, bucket,
                          Mul(p.bankroll, s.limits.maxGross) - p.gross];
            var budget := BuyBudget(bound, ask, m, p, s);
            && (budget > 0.0 <==> forall r | r in rooms :: r > 0.0)
            && (budget > 0.0 ==> budget in rooms && forall r | r in rooms :: budget <= r)
  {
    hide Mul, Div, Lookup;
    DivSign(bound - ask, 1.0 - ask);
    MulSign(Mul(p.bankroll, s.kellyFraction), 0.0);
  }

  lemma ChosenForItsMarket(m: Market, f: Forecast, yes: Book, no: Book, p: PortfolioState, s: Settings)
    requires ValidSnapshot(yes) && ValidSnapshot(no) && ValidMarket(m) && Choose(m, f, yes, no, p, s).Some?
    ensures var c := Choose(m, f, yes, no, p, s).value; c.marketId == m.id && c.strategy == AiValue
  {
    hide SellCandidate, BuyCandidate;
    if SellCandidate(m, yes, Yes, f.high, p, s).Some? { SellForMarket(m, yes, Yes, f.high, p, s); }
    if SellCandidate(m, no, No, 1.0 - f.low, p, s).Some? { SellForMarket(m, no, No, 1.0 - f.low, p, s); }
    if BuyCandidate(m, yes, Yes, f.low, p, s).Some? { SameKeys(m, yes, Yes, f.low, p, s); }
    if BuyCandidate(m, no, No, 1.0 - f.high, p, s).Some? { SameKeys(m, no, No, 1.0 - f.high, p, s); }
  }

  lemma SellForMarket(m: Market, b: Book, o: Outcome, upper: real, p: PortfolioState, s: Settings)
    requires ValidSnapshot(b) && ValidMarket(m) && SellCandidate(m, b, o, upper, p, s).Some?
    ensures var c := SellCandidate(m, b, o, upper, p, s).value; c.marketId == m.id && c.strategy == AiValue
  {
    hide Mul, Div, QuantizeDown, Sorted, BidsFilled, Orderable, ExitCap, MinimumSize;
  }
}
