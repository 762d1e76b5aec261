/** The greedy ask sweep that sizes a BUY, and why its size is the optimum (strategy.py). */
module BookSweep {
  import opened Decimals
  import opened Fees
  import opened OrderBook
  import opened Wrappers

  const STEP := 0.01

  predicate OnGrid(x: real) { x == Shares(Hundredths(x)) }

  lemma GridFacts(a: int, b: int)
    ensures OnGrid(Shares(a)) && OnGrid(Shares(a) + Shares(b)) && OnGrid(Shares(a) - Shares(b))
  {
    hide TruncDiv;
    SharesOnGrid(a);
    SharesOnGrid(a + b);
    SharesOnGrid(a - b);
    assert Shares(a) + Shares(b) == Shares(a + b) && Shares(a) - Shares(b) == Shares(a - b);
  }

  lemma QuantizeOnGrid(value: real)
    ensures OnGrid(QuantizeDown(value, STEP))
    ensures OnGrid(value) ==> QuantizeDown(value, STEP) == value
    ensures value >= 0.0 ==> 0.0 <= QuantizeDown(value, STEP) <= value
    ensures value < 0.0 ==> QuantizeDown(value, STEP) <= 0.0
  {
    hide Hundredths;
    QuantizeToShares(value);
    QuantizeDownBounds(value, STEP);
    GridFacts(Hundredths(value), 0);
  }

  /** Quantizing the smaller of a size and a room already on the grid quantizes the size alone. */
  lemma QuantizeMin(size: real, room: real)
    requires OnGrid(room) && size > 0.0
    ensures QuantizeDown(Min(size, room), STEP) == Min(QuantizeDown(size, STEP), room)
  {
    hide QuantizeDown, Hundredths;
    QuantizeToShares(size);
    QuantizeToShares(room);
    assert Hundredths(room) < Hundredths(size) + 1 || size < room;
  }

  function Lots(levels: seq<Level>): seq<real> {
    seq(|levels|, i requires 0 <= i < |levels| => QuantizeDown(levels[i].size, STEP))
  }

  function Prices(levels: seq<Level>): seq<real> {
    seq(|levels|, i requires 0 <= i < |levels| => levels[i].price)
  }

  function FeeUnits(levels: seq<Level>, fees: FeeSchedule): seq<real> {
    seq(|levels|, i requires 0 <= i < |levels| => EstimatedFeePerShare(levels[i].price, fees))
  }

  /** The most shares whose whole commitment at this limit the budget covers. */
  function SharesCap(price: real, budget: real, fees: FeeSchedule): real
    requires 0.0 < price < 1.0
  {
    CommitmentMonotone(price, price, fees);
    QuantizeDown(Div(budget, CommitmentPerShare(price, fees)), STEP)
  }

  function Caps(levels: seq<Level>, budget: real, fees: FeeSchedule): seq<real>
    requires ValidLevels(levels)
  {
    seq(|levels|, i requires 0 <= i < |levels| => SharesCap(levels[i].price, budget, fees))
  }

  /** Levels in front of the first one that holds less than a hundredth of a share. */
  function Reach(lots: seq<real>): (k: nat)
    ensures k <= |lots|
    ensures forall i | 0 <= i < k :: lots[i] > 0.0
    ensures k < |lots| ==> lots[k] <= 0.0
  {
    if lots == [] || lots[0] <= 0.0 then 0 else 1 + Reach(lots[1..])
  }

  /** The best size over the limits offered by the first k levels: depth reached there, or the cap there. */
  function Best(lots: seq<real>, caps: seq<real>, k: nat): real
    requires k <= |lots| == |caps|
  {
    if k == 0 then 0.0 else Max(Best(lots, caps, k - 1), Min(Depth(lots, k), caps[k - 1]))
  }

  /** The price of the level that holds the n-th share. */
  function PriceAt(levels: seq<Level>, sizes: seq<real>, n: real): Option<real>
    requires |levels| == |sizes|
  {
    if n <= 0.0 || levels == [] then None
    else if n <= sizes[0] || |levels| == 1 then Some(levels[0].price)
    else PriceAt(levels[1..], sizes[1..], n - sizes[0])
  }

  datatype Sweep = Sweep(shares: real, baseCost: real, feeCost: real, lastPrice: Option<real>)

  /** What a sweep of price-sorted asks is meant to find: the optimal size and its cost on this book. */
  function OptimalSweep(levels: seq<Level>, budget: real, fees: FeeSchedule): Sweep
    requires ValidLevels(levels)
  {
    var lots := Lots(levels);
    var n := Best(lots, Caps(levels, budget, fees), Reach(lots));
    Sweep(n, Cost(lots, Prices(levels), n, |levels|), Cost(lots, FeeUnits(levels, fees), n, |levels|),
          PriceAt(levels, lots, n))
  }

  lemma {:induction false} BestIsMaximum(lots: seq<real>, caps: seq<real>, k: nat)
    requires k <= |lots| == |caps|
    ensures Best(lots, caps, k) >= 0.0
    ensures forall j | 0 <= j < k :: Min(Depth(lots, j + 1), caps[j]) <= Best(lots, caps, k)
    ensures Best(lots, caps, k) == 0.0
         || exists j :: 0 <= j < k && Best(lots, caps, k) == Min(Depth(lots, j + 1), caps[j])
  {
    if k > 0 { BestIsMaximum(lots, caps, k - 1); }
  }

  /** Once the cap is met, deeper levels only lower it. */
  lemma {:induction false} BestStays(lots: seq<real>, caps: seq<real>, i: nat, k: nat)
    requires i <= k <= |lots| == |caps|
    requires forall j | i <= j < k :: caps[j] <= Best(lots, caps, i)
    ensures Best(lots, caps, k) == Best(lots, caps, i)
  {
    if i < k { BestStays(lots, caps, i, k - 1); }
  }

  lemma CapsFall(levels: seq<Level>, budget: real, fees: FeeSchedule)
    requires ValidLevels(levels) && Ordered(levels, false)
    ensures var caps := Caps(levels, budget, fees);
            && (forall i | 0 <= i < |levels| :: OnGrid(caps[i]))
            && (forall i, j | 0 <= i <= j < |levels| :: caps[i] >= 0.0 ==> caps[j] <= caps[i])
            && (forall i, j | 0 <= i <= j < |levels| :: caps[i] <= 0.0 ==> caps[j] <= 0.0)
  {
    var caps := Caps(levels, budget, fees);
    forall i | 0 <= i < |levels| ensures OnGrid(caps[i]) {
      CommitmentMonotone(levels[i].price, levels[i].price, fees);
      QuantizeOnGrid(Div(budget, CommitmentPerShare(levels[i].price, fees)));
    }
    forall i, j | 0 <= i <= j < |levels|
      ensures caps[i] >= 0.0 ==> caps[j] <= caps[i]
      ensures caps[i] <= 0.0 ==> caps[j] <= 0.0
    {
      CapFalls(levels[i].price, levels[j].price, budget, fees);
    }
  }

  lemma CapFalls(p: real, q: real, budget: real, fees: FeeSchedule)
    requires 0.0 < p <= q < 1.0
    ensures SharesCap(p, budget, fees) >= 0.0 ==> SharesCap(q, budget, fees) <= SharesCap(p, budget, fees)
    ensures SharesCap(p, budget, fees) <= 0.0 ==> SharesCap(q, budget, fees) <= 0.0
  {
    hide Div, Mul, CommitmentPerShare, Trunc;
    CommitmentMonotone(p, q, fees);
    var a, b := Div(budget, CommitmentPerShare(p, fees)), Div(budget, CommitmentPerShare(q, fees));
    DivSign(budget, CommitmentPerShare(p, fees));
    DivSign(budget, CommitmentPerShare(q, fees));
    QuantizeOnGrid(a);
    QuantizeOnGrid(b);
    if budget >= 0.0 {
      DivAntitone(budget, CommitmentPerShare(p, fees), CommitmentPerShare(q, fees));
      QuantizeMonotone(b, a);
    }
  }

  lemma QuantizeMonotone(a: real, b: real)
    requires 0.0 <= a <= b
    ensures QuantizeDown(a, STEP) <= QuantizeDown(b, STEP)
  {
    hide QuantizeDown, Hundredths;
    QuantizeToShares(a);
    QuantizeToShares(b);
    assert Hundredths(a) < Hundredths(b) + 1;
  }

  lemma {:induction false} PriceAtLevel(levels: seq<Level>, sizes: seq<real>, n: real, k: nat)
    requires |levels| == |sizes| && k < |levels| && Nonnegative(sizes)
    requires Depth(sizes, k) < n <= Depth(sizes, k + 1)
    ensures PriceAt(levels, sizes, n) == Some(levels[k].price)
  {
    DepthMonotone(sizes, 0, k);
    if k > 0 {
      DepthShift(sizes, k);
      DepthShift(sizes, k + 1);
      DepthMonotone(sizes, 1, k);
      assert forall x <- sizes[1..] :: x in sizes;
      PriceAtLevel(levels[1..], sizes[1..], n - sizes[0], k - 1);
    }
  }

  lemma {:induction false} DepthShift(sizes: seq<real>, k: nat)
    requires 0 < k <= |sizes|
    ensures Depth(sizes, k) == sizes[0] + Depth(sizes[1..], k - 1)
  {
    if k > 1 { DepthShift(sizes, k - 1); }
  }

  /** The loop's state after k levels: optimal among their limits, and costed level by level. */
  ghost predicate SweptTo(levels: seq<Level>, budget: real, fees: FeeSchedule, k: nat, s: Sweep)
    requires ValidLevels(levels)
  {
    var lots := Lots(levels);
    && k <= Reach(lots)
    && s.shares == Best(lots, Caps(levels, budget, fees), k) && OnGrid(s.shares)
    && (if k == 0 then s.shares == 0.0 && s.lastPrice == None
        else Depth(lots, k - 1) < s.shares <= Depth(lots, k) && s.lastPrice == Some(levels[k - 1].price))
    && s.baseCost == Cost(lots, Prices(levels), s.shares, k)
    && s.feeCost == Cost(lots, FeeUnits(levels, fees), s.shares, k)
  }

  lemma LotsOnGrid(levels: seq<Level>)
    requires ValidLevels(levels)
    ensures Nonnegative(Lots(levels)) && forall i | 0 <= i < |levels| :: OnGrid(Lots(levels)[i])
  {
    forall i | 0 <= i < |levels| ensures Lots(levels)[i] >= 0.0 && OnGrid(Lots(levels)[i]) {
      QuantizeOnGrid(levels[i].size);
    }
  }

  /** The two quantizations of one iteration: the cap at this limit, and the shares it lets through. */
  lemma SizeLevel(levels: seq<Level>, budget: real, fees: FeeSchedule, i: nat, shares: real)
    requires ValidLevels(levels) && i < |levels| && OnGrid(shares)
    ensures MaximumBuyCost(1.0, levels[i].price, fees) > 0.0
    ensures var cap := Caps(levels, budget, fees)[i];
            && cap == QuantizeDown(Div(budget, MaximumBuyCost(1.0, levels[i].price, fees)), STEP)
            && QuantizeDown(Min(levels[i].size, cap - shares), STEP) == Min(Lots(levels)[i], cap - shares)
            && OnGrid(Min(Lots(levels)[i], cap - shares))
  {
    hide Mul, Div, Trunc, Hundredths, EstimatedFeePerShare, QuantizeDown, CommitmentPerShare;
    var c := CommitmentPerShare(levels[i].price, fees);
    CommitmentMonotone(levels[i].price, levels[i].price, fees);
    MulUnit(c);
    QuantizeOnGrid(Div(budget, c));
    var cap := Caps(levels, budget, fees)[i];
    GridFacts(Hundredths(cap), Hundredths(shares));
    QuantizeMin(levels[i].size, cap - shares);
    LotsOnGrid(levels);
  }

  lemma NextLevel(levels: seq<Level>, budget: real, fees: FeeSchedule, i: nat, s: Sweep, take: real)
    requires ValidLevels(levels) && i < |levels|
    requires SweptTo(levels, budget, fees, i, s) && s.shares == Depth(Lots(levels), i)
    requires take == Min(Lots(levels)[i], Caps(levels, budget, fees)[i] - s.shares) && take > 0.0 && OnGrid(take)
    ensures SweptTo(levels, budget, fees, i + 1, Sweep(s.shares + take, s.baseCost + Mul(take, levels[i].price),
              s.feeCost + Mul(take, EstimatedFeePerShare(levels[i].price, fees)), Some(levels[i].price)))
    ensures s.shares + take < Caps(levels, budget, fees)[i] ==> s.shares + take == Depth(Lots(levels), i + 1)
  {
    hide Mul, Div, Trunc, Hundredths, EstimatedFeePerShare, QuantizeDown, SharesCap;
    LotsOnGrid(levels);
    TakeNext(levels, Prices(levels), Lots(levels), i, take);
    TakeNext(levels, FeeUnits(levels, fees), Lots(levels), i, take);
    GridFacts(Hundredths(s.shares), Hundredths(take));
    DepthMonotone(Lots(levels), 0, i);
  }

  /** Wherever the loop stops, no deeper level could have raised the size. */
  lemma Finished(levels: seq<Level>, budget: real, fees: FeeSchedule, k: nat, s: Sweep)
    requires ValidLevels(levels) && Ordered(levels, false) && SweptTo(levels, budget, fees, k, s)
    requires var caps := Caps(levels, budget, fees);
             || k == |levels| || Lots(levels)[k] <= 0.0 || caps[k] <= s.shares
             || (k > 0 && caps[k - 1] <= s.shares)
    ensures s == OptimalSweep(levels, budget, fees)
  {
    hide Mul, Div, Trunc, Hundredths, EstimatedFeePerShare, QuantizeDown, SharesCap;
    var lots, caps := Lots(levels), Caps(levels, budget, fees);
    CapsFall(levels, budget, fees);
    LotsOnGrid(levels);
    BestIsMaximum(lots, caps, k);
    BestStays(lots, caps, k, Reach(lots));
    CostStops(lots, Prices(levels), s.shares, k, |levels|);
    CostStops(lots, FeeUnits(levels, fees), s.shares, k, |levels|);
    if k > 0 { PriceAtLevel(levels, lots, s.shares, k - 1); }
  }

  /** The greedy loop. One share over a dearer level reprices the commitment of all shares before it. */
  method SweepBook(asks: seq<Level>, budget: real, fees: FeeSchedule) returns (r: Sweep)
    requires ValidLevels(asks)
    ensures ValidLevels(Sorted(asks, false)) && r == OptimalSweep(Sorted(asks, false), budget, fees)
  {
    hide Mul, Div, Trunc, Hundredths, EstimatedFeePerShare, QuantizeDown, Sorted, MaximumBuyCost, OptimalSweep,
      SharesCap;
    var levels := Sorted(asks, false);
    SortedKeepsLevels(asks, false);
    var shares, baseCost, feeCost, last := 0.0, 0.0, 0.0, None;
    GridFacts(0, 0);
    var i := 0;
    while i < |levels|
      invariant 0 <= i <= |levels| && shares == Depth(Lots(levels), i)
      invariant SweptTo(levels, budget, fees, i, Sweep(shares, baseCost, feeCost, last))
    {
      var level := levels[i];
      var perShareFee := EstimatedFeePerShare(level.price, fees);
      SizeLevel(levels, budget, fees, i, shares);
      var commitmentPerShare := MaximumBuyCost(1.0, level.price, fees);
      var maximumShares := QuantizeDown(Div(budget, commitmentPerShare), STEP);
      var take := QuantizeDown(Min(level.size, maximumShares - shares), STEP);
      if take <= 0.0 {
        Finished(levels, budget, fees, i, Sweep(shares, baseCost, feeCost, last));
        return Sweep(shares, baseCost, feeCost, last);
      }
      NextLevel(levels, budget, fees, i, Sweep(shares, baseCost, feeCost, last), take);
      baseCost := baseCost + Mul(take, level.price);
      feeCost := feeCost + Mul(take, perShareFee);
      shares := shares + take;
      last := Some(level.price);
      if shares >= maximumShares {
        Finished(levels, budget, fees, i + 1, Sweep(shares, baseCost, feeCost, last));
        return Sweep(shares, baseCost, feeCost, last);
      }
      i := i + 1;
    }
    Finished(levels, budget, fees, i, Sweep(shares, baseCost, feeCost, last));
    r := Sweep(shares, baseCost, feeCost, last);
  }

  /** Buying into level i adds that level's price and leaves the levels before it alone. */
  lemma TakeNext(levels: seq<Level>, unit: seq<real>, lots: seq<real>, i: nat, take: real)
    requires i < |levels| == |unit| == |lots| && Nonnegative(lots) && 0.0 < take <= lots[i]
    ensures Cost(lots, unit, Depth(lots, i) + take, i + 1) == Cost(lots, unit, Depth(lots, i), i) + Mul(take, unit[i])
  {
    hide Mul;
    CostSaturates(lots, unit, Depth(lots, i), Depth(lots, i) + take, i);
  }

  /** On a book without dust the sweep is the maximum over every limit the book offers. */
  lemma SweepIsOptimal(levels: seq<Level>, budget: real, fees: FeeSchedule)
    requires ValidLevels(levels) && forall i | 0 <= i < |levels| :: levels[i].size >= STEP
    ensures var n, lots, caps := OptimalSweep(levels, budget, fees).shares, Lots(levels), Caps(levels, budget, fees);
            && n >= 0.0
            && (forall k | 0 <= k < |levels| :: Min(Depth(lots, k + 1), caps[k]) <= n)
            && (n == 0.0 || exists k :: 0 <= k < |levels| && n == Min(Depth(lots, k + 1), caps[k]))
  {
    hide Mul, Div;
    var lots := Lots(levels);
    if Reach(lots) < |levels| {
      var k := Reach(lots);
      QuantizeToShares(levels[k].size);
    }
    BestIsMaximum(lots, Caps(levels, budget, fees), |levels|);
  }

  /** Level k lies behind a dust level, has depth, and affords one more share than the depth before the dust. */
  ghost predicate LostLevel(lots: seq<real>, caps: seq<real>, k: nat)
    requires |lots| == |caps|
  {
    Reach(lots) < k < |lots| && lots[k] > 0.0 && caps[k] > Depth(lots, Reach(lots))
  }

  /** A dust level costs the optimum exactly when it hides such a level. */
  lemma DustLosesExactly(levels: seq<Level>, budget: real, fees: FeeSchedule)
    requires ValidLevels(levels) && Ordered(levels, false)
    ensures OptimalSweep(levels, budget, fees).shares < Best(Lots(levels), Caps(levels, budget, fees), |levels|)
            <==> exists k: nat :: LostLevel(Lots(levels), Caps(levels, budget, fees), k)
  {
    hide Mul, Div, Trunc, QuantizeDown, EstimatedFeePerShare, SharesCap;
    var lots, caps := Lots(levels), Caps(levels, budget, fees);
    CapsFall(levels, budget, fees);
    LotsOnGrid(levels);
    DustLoses(lots, caps);
  }

  lemma DustLoses(lots: seq<real>, caps: seq<real>)
    requires |lots| == |caps| && Nonnegative(lots)
    requires forall i, j | 0 <= i <= j < |caps| :: caps[i] >= 0.0 ==> caps[j] <= caps[i]
    requires forall i, j | 0 <= i <= j < |caps| :: caps[i] <= 0.0 ==> caps[j] <= 0.0
    ensures Best(lots, caps, Reach(lots)) < Best(lots, caps, |lots|) <==> exists k: nat :: LostLevel(lots, caps, k)
  {
    var m := Reach(lots);
    if k: nat :| LostLevel(lots, caps, k) {
      BestIsMaximum(lots, caps, |lots|);
      BestWithinDepth(lots, caps, m);
      DepthMonotone(lots, m, k);
      assert Min(Depth(lots, k + 1), caps[k]) > Depth(lots, m);
    } else {
      forall j | m < j < |lots| ensures lots[j] <= 0.0 || caps[j] <= Depth(lots, m) {
        assert !LostLevel(lots, caps, j);
      }
      NothingBeyond(lots, caps, m, |lots|);
    }
  }

  lemma {:induction false} BestWithinDepth(lots: seq<real>, caps: seq<real>, k: nat)
    requires k <= |lots| == |caps| && Nonnegative(lots)
    ensures Best(lots, caps, k) <= Depth(lots, k)
  {
    if k > 0 { BestWithinDepth(lots, caps, k - 1); DepthMonotone(lots, k - 1, k); }
    DepthMonotone(lots, 0, k);
  }

  lemma {:induction false} NothingBeyond(lots: seq<real>, caps: seq<real>, m: nat, k: nat)
    requires m <= k <= |lots| == |caps| && Nonnegative(lots)
    requires m < |lots| ==> lots[m] <= 0.0
    requires forall i, j | 0 <= i <= j < |caps| :: caps[i] >= 0.0 ==> caps[j] <= caps[i]
    requires forall i, j | 0 <= i <= j < |caps| :: caps[i] <= 0.0 ==> caps[j] <= 0.0
    requires forall j | m < j < |lots| :: lots[j] <= 0.0 || caps[j] <= Depth(lots, m)
    ensures Best(lots, caps, k) == Best(lots, caps, m)
    ensures k == m || Depth(lots, k) == Depth(lots, m) || caps[k - 1] <= Depth(lots, m)
  {
    DepthMonotone(lots, 0, m);
    if m < k {
      NothingBeyond(lots, caps, m, k - 1);
      assert lots[k - 1] in lots;
      BestIsMaximum(lots, caps, m);
    }
  }

  /** The level that holds the last share: its price is the limit and its cap admits the whole size. */
  lemma LimitLevel(levels: seq<Level>, budget: real, fees: FeeSchedule) returns (k: nat)
    requires ValidLevels(levels) && Ordered(levels, false)
    requires OptimalSweep(levels, budget, fees).shares > 0.0
    ensures var s, lots := OptimalSweep(levels, budget, fees), Lots(levels);
            && k < |levels| && OnGrid(s.shares) && s.lastPrice == Some(levels[k].price)
            && Depth(lots, k) < s.shares <= Depth(lots, k + 1)
            && s.shares <= Caps(levels, budget, fees)[k]
  {
    hide Mul, Div, Trunc, Hundredths, EstimatedFeePerShare, QuantizeDown, SharesCap, Cost;
    var lots, caps := Lots(levels), Caps(levels, budget, fees);
    var n := OptimalSweep(levels, budget, fees).shares;
    CapsFall(levels, budget, fees);
    LotsOnGrid(levels);
    BestIsMaximum(lots, caps, Reach(lots));
    BestWithinDepth(lots, caps, Reach(lots));
    BestOnGrid(lots, caps, Reach(lots));
    k := LevelOf(lots, n, Reach(lots));
    PriceAtLevel(levels, lots, n, k);
    var j :| 0 <= j < Reach(lots) && n == Min(Depth(lots, j + 1), caps[j]);
    if j < k { DepthMonotone(lots, j + 1, k); }
  }

  /** For any book at all: the size is on the grid, its commitment at the limit returned is within budget,
      and the limit and average price stay inside the book. */
  lemma SweepWithinBudget(levels: seq<Level>, budget: real, fees: FeeSchedule)
    requires ValidLevels(levels) && Ordered(levels, false)
    requires OptimalSweep(levels, budget, fees).shares > 0.0
    ensures var s := OptimalSweep(levels, budget, fees);
            && OnGrid(s.shares) && s.lastPrice.Some? && levels[0].price <= s.lastPrice.value < 1.0
            && MaximumBuyCost(s.shares, s.lastPrice.value, fees) <= budget
            && Mul(levels[0].price, s.shares) <= s.baseCost <= Mul(s.lastPrice.value, s.shares)
            && s.feeCost >= 0.0
  {
    hide Mul, Div, Trunc, Hundredths, EstimatedFeePerShare, QuantizeDown, CommitmentPerShare, SharesCap, Best, Reach;
    var s, lots := OptimalSweep(levels, budget, fees), Lots(levels);
    var k := LimitLevel(levels, budget, fees);
    LotsOnGrid(levels);
    CommitmentWithin(levels[k].price, budget, fees, s.shares);
    DepthMonotone(lots, k + 1, |levels|);
    TouchedPrices(levels, s.shares, k);
    CostBounds(lots, Prices(levels), s.shares, |levels|, levels[0].price, levels[k].price);
    FeesNonnegative(levels, fees, s.shares, |levels|);
  }

  lemma TouchedPrices(levels: seq<Level>, n: real, k: nat)
    requires ValidLevels(levels) && Ordered(levels, false) && k < |levels| && n <= Depth(Lots(levels), k + 1)
    ensures forall i: nat | i < |levels| && Depth(Lots(levels), i) < n ::
              levels[0].price <= levels[i].price <= levels[k].price
  {
    hide QuantizeDown;
    LotsOnGrid(levels);
    forall i: nat | i < |levels| && Depth(Lots(levels), i) < n
      ensures levels[0].price <= levels[i].price <= levels[k].price
    {
      if i > k { DepthMonotone(Lots(levels), k + 1, i); }
      assert Rank(levels[0], false) <= Rank(levels[i], false) || i == 0;
      assert Rank(levels[i], false) <= Rank(levels[k], false) || i == k;
    }
  }

  lemma CommitmentWithin(limit: real, budget: real, fees: FeeSchedule, shares: real)
    requires 0.0 < limit < 1.0 && 0.0 < shares <= SharesCap(limit, budget, fees)
    ensures MaximumBuyCost(shares, limit, fees) <= budget
  {
    hide Mul, Div, Trunc, QuantizeDown, CommitmentPerShare;
    CommitmentMonotone(limit, limit, fees);
    var c := CommitmentPerShare(limit, fees);
    QuantizeOnGrid(Div(budget, c));
    MulMonotone(shares, Div(budget, c), c);
    DivMul(budget, c);
  }

  lemma {:induction false} FeesNonnegative(levels: seq<Level>, fees: FeeSchedule, n: real, k: nat)
    requires k <= |levels|
    ensures Cost(Lots(levels), FeeUnits(levels, fees), n, k) >= 0.0
  {
    hide Mul, EstimatedFeePerShare, QuantizeDown;
    if k > 0 {
      FeesNonnegative(levels, fees, n, k - 1);
      FeeNonnegative(levels[k - 1].price, fees);
      MulSign(Taken(Lots(levels), n, k - 1), EstimatedFeePerShare(levels[k - 1].price, fees));
    }
  }

  lemma {:induction false} BestOnGrid(lots: seq<real>, caps: seq<real>, k: nat)
    requires k <= |lots| == |caps|
    requires forall i | 0 <= i < |lots| :: OnGrid(lots[i]) && OnGrid(caps[i])
    ensures OnGrid(Best(lots, caps, k)) && OnGrid(Depth(lots, k))
  {
    hide Hundredths;
    GridFacts(0, 0);
    if k > 0 {
      BestOnGrid(lots, caps, k - 1);
      GridFacts(Hundredths(Depth(lots, k - 1)), Hundredths(lots[k - 1]));
    }
  }

  /** The level that holds the n-th share. */
  lemma {:induction false} LevelOf(sizes: seq<real>, n: real, k: nat) returns (j: nat)
    requires Nonnegative(sizes) && k <= |sizes| && 0.0 < n <= Depth(sizes, k)
    ensures j < k && Depth(sizes, j) < n <= Depth(sizes, j + 1)
  {
    if n <= Depth(sizes, k - 1) { j := LevelOf(sizes, n, k - 1); } else { j := k - 1; }
  }

  /** A dust level at the top of the book stops the sweep although the level behind it is affordable. */
  lemma DustStopsTheSweep()
    ensures var levels := [Level(0.4, 0.005), Level(0.5, 10.0)];
            var fees := FeeSchedule(false, 0.0, 1);
            && ValidLevels(levels) && Ordered(levels, false)
            && OptimalSweep(levels, 5.0, fees).shares == 0.0
            && LostLevel(Lots(levels), Caps(levels, 5.0, fees), 1)
  {
    var levels := [Level(0.4, 0.005), Level(0.5, 10.0)];
    var fees := FeeSchedule(false, 0.0, 1);
    QuantizeToShares(0.005);
    assert Hundredths(0.005) == 0 && Lots(levels)[0] == 0.0;
    QuantizeOnGrid(10.0);
    QuantizeToShares(10.0);
    assert Lots(levels)[1] > 0.0;
    assert CommitmentPerShare(0.5, fees) == 0.5 && Div(5.0, 0.5) == 10.0;
    assert Caps(levels, 5.0, fees)[1] == QuantizeDown(10.0, STEP) > 0.0;
    assert Reach(Lots(levels)) == 0;
  }
}
