/** Where the gate's bucket test and the strategy's bucket budget part, in terms of portfolio and settings
    (strategy.py, risk.py). */
module BucketGap {
  import opened Decimals
  import opened Fees
  import opened OrderBook
  import opened Wrappers
  import opened BookSweep
  import opened Portfolio
  import opened Risk
  import opened Strategy

  function Unclassified(p: PortfolioState): real { Lookup(p.bucketExposure, UNCLASSIFIED_BUCKET) }

  /** Every limit of a BUY except the Kelly one. */
  function OtherRooms(m: Market, p: PortfolioState, s: Settings): real {
    Min(Min(Min(s.limits.maxOrder, Mul(p.bankroll, s.limits.maxTradeRisk)), p.cash),
        Min(Min(Max(0.0, EventRoom(m, p, s)), Max(0.0, BucketRoom(m, p, s))),
            Max(0.0, Mul(p.bankroll, s.limits.maxGross) - p.gross)))
  }

  /** What the Kelly budget tends to as the best ask gets cheaper. */
  function KellyCeiling(conservative: real, p: PortfolioState, s: Settings): real {
    Mul(Mul(p.bankroll, s.kellyFraction), conservative)
  }

  /** The least upper bound of the budgets that books can offer. */
  function AttainableBudget(conservative: real, m: Market, p: PortfolioState, s: Settings): real {
    Min(KellyCeiling(conservative, p, s), OtherRooms(m, p, s))
  }

  lemma BudgetParts(conservative: real, ask: real, m: Market, p: PortfolioState, s: Settings)
    requires ask < 1.0
    ensures BuyBudget(conservative, ask, m, p, s) == Min(KellyBudget(conservative, ask, p, s), OtherRooms(m, p, s))
  {
    hide Mul, KellyBudget, EventRoom, BucketRoom;
  }

  /** A cheap ask costs the Kelly budget at most twice the price, scaled by the fraction of the bankroll. */
  lemma KellyNearCeiling(conservative: real, ask: real, p: PortfolioState, s: Settings)
    requires 0.0 < ask < conservative <= 1.0
    ensures var g := Mul(p.bankroll, s.kellyFraction);
            && (g >= 0.0 ==> KellyBudget(conservative, ask, p, s) <= KellyCeiling(conservative, p, s))
            && (g < 0.0 ==> KellyBudget(conservative, ask, p, s) < 0.0)
            && (g >= 0.0 && ask <= 0.5 ==>
                KellyBudget(conservative, ask, p, s) >= KellyCeiling(conservative, p, s) - 2.0 * Mul(ask, g))
  {
    hide Mul, Div;
    var g, raw := Mul(p.bankroll, s.kellyFraction), Div(conservative - ask, 1.0 - ask);
    RawKelly(conservative, ask);
    MulComm(ask, g);
    MulDouble(g, ask);
    MulDistrib(g, conservative, 2.0 * ask);
    if g >= 0.0 {
      MulMonotone(raw, conservative, g);
      MulMonotone(conservative - 2.0 * ask, raw, g);
    } else {
      MulSign(g, raw);
    }
  }

  lemma RawKelly(conservative: real, ask: real)
    requires 0.0 < ask < conservative <= 1.0
    ensures 0.0 < Div(conservative - ask, 1.0 - ask) <= conservative
    ensures ask <= 0.5 ==> Div(conservative - ask, 1.0 - ask) >= conservative - 2.0 * ask
  {
    hide Mul, Div;
    DivSign(conservative - ask, 1.0 - ask);
    DivBound(conservative - ask, conservative, 1.0 - ask);
    DivBound(conservative - ask, conservative - 2.0 * ask, 1.0 - ask);
    RawKellyProducts(conservative, ask);
  }

  lemma RawKellyProducts(c: real, a: real)
    requires 0.0 < a < c <= 1.0
    ensures c - a <= Mul(c, 1.0 - a)
    ensures a <= 0.5 ==> c - a >= Mul(c - 2.0 * a, 1.0 - a)
  {
    assert Mul(c, 1.0 - a) == c - c * a;
    assert (1.0 - c) * a >= 0.0;
    if a <= 0.5 {
      assert Mul(c - 2.0 * a, 1.0 - a) == c - a - a * (1.0 + c - 2.0 * a);
      assert a * (1.0 + c - 2.0 * a) >= 0.0;
    }
  }

  /** The rate that is in force. */
  function Rate(fees: FeeSchedule): real { if fees.enabled && fees.rate > 0.0 then fees.rate else 0.0 }

  lemma {:induction false} PowerBelow(x: real, n: nat)
    requires 0.0 <= x <= 1.0 && n >= 1
    ensures 0.0 <= Pow(x, n) <= x
  {
    hide Mul;
    PowMonotone(0.0, x, n);
    MulUnit(x);
    if n == 1 {
      assert Pow(x, 0) == 1.0;
    } else {
      PowerBelow(x, n - 1);
      MulSign(x, Pow(x, n - 1));
      MulMonotone(Pow(x, n - 1), 1.0, x);
    }
  }

  /** Near zero, fee and commitment per share are no more than proportional to the price. */
  lemma CheapCommitment(ask: real, fees: FeeSchedule)
    requires 0.0 < ask <= 0.5 && (fees.enabled ==> fees.exponent >= 1)
    ensures 0.0 <= EstimatedFeePerShare(ask, fees) <= Mul(ask, Rate(fees))
    ensures 0.0 < CommitmentPerShare(ask, fees) <= Mul(ask, 1.0 + 2.0 * Rate(fees))
  {
    hide Mul, Pow;
    FeeNonnegative(ask, fees);
    var term, r := Mul(ask, 1.0 - ask), Rate(fees);
    MulSign(ask, r);
    MulDistrib(ask, 1.0, 2.0 * r);
    MulUnit(ask);
    MulDouble(ask, r);
    if fees.enabled && fees.rate > 0.0 {
      MulSign(ask, 1.0 - ask);
      MulMonotone(1.0 - ask, 1.0, ask);
      PowerBelow(term, fees.exponent);
      MulMonotone(Pow(term, fees.exponent), ask, fees.rate);
      MulComm(ask, fees.rate);
    }
  }

  // ---------------------------------------------------------------- a book with one ask

  function OneAsk(ask: real, size: real): Book { Book("token", [], [Level(ask, size)], 0.01, 0.01, 0.0) }

  lemma OneAskSorted(ask: real, size: real)
    ensures Sorted([Level(ask, size)], false) == [Level(ask, size)] && BestQuote([Level(ask, size)], false) == Some(ask)
  {
    assert [Level(ask, size)][1..] == [];
  }

  /** One ask that is deep enough: the sweep buys what the budget commits to. */
  lemma OneAskSweep(ask: real, size: real, budget: real, fees: FeeSchedule)
    requires 0.0 < ask < 1.0 && size > 0.0 && ValidLevels([Level(ask, size)])
    requires CommitmentPerShare(ask, fees) > 0.0 && Div(budget, CommitmentPerShare(ask, fees)) == size - 1.0
    requires QuantizeDown(size - 1.0, STEP) > 0.0
    ensures var n := QuantizeDown(size - 1.0, STEP);
            OptimalSweep([Level(ask, size)], budget, fees)
                == Sweep(n, Mul(n, ask), Mul(n, EstimatedFeePerShare(ask, fees)), Some(ask))
  {
    hide Mul, Div, QuantizeDown, EstimatedFeePerShare, CommitmentPerShare, Hundredths;
    var levels := [Level(ask, size)];
    var lots, caps, n := Lots(levels), Caps(levels, budget, fees), QuantizeDown(size - 1.0, STEP);
    QuantizeDownBounds(size, STEP);
    QuantizeDownBounds(size - 1.0, STEP);
    assert lots == [QuantizeDown(size, STEP)] && caps == [n] && n < lots[0];
    assert Reach(lots) == 1 by { assert lots[1..] == []; }
    assert Depth(lots, 0) == 0.0 && Depth(lots, 1) == lots[0];
    assert Best(lots, caps, 0) == 0.0 && Best(lots, caps, 1) == n;
    assert Taken(lots, n, 0) == n;
    OneTerm(lots, Prices(levels), n);
    OneTerm(lots, FeeUnits(levels, fees), n);
  }

  lemma OneTerm(lots: seq<real>, unit: seq<real>, n: real)
    requires |lots| == |unit| == 1
    ensures Cost(lots, unit, n, 1) == Mul(Taken(lots, n, 0), unit[0])
  {
    assert Cost(lots, unit, n, 0) == 0.0;
  }

  /** On that book the strategy proposes a BUY that commits all of the budget but less than a hundredth of a share. */
  lemma OneAskBuy(ask: real, m: Market, conservative: real, p: PortfolioState, s: Settings)
    requires 0.0 < ask < conservative <= 1.0 && m.minimumOrderSize > 0.0
    requires CommitmentPerShare(ask, m.fees) > 0.0 && EstimatedFeePerShare(ask, m.fees) >= 0.0
    requires conservative - ask - EstimatedFeePerShare(ask, m.fees) - s.uncertaintyReserve > 0.0
    requires BuyBudget(conservative, ask, m, p, s) > 0.0
    requires BuyBudget(conservative, ask, m, p, s)
             >= Mul(Max(m.minimumOrderSize, 0.01) + 0.01, CommitmentPerShare(ask, m.fees))
    ensures var unit := CommitmentPerShare(ask, m.fees);
            var budget := BuyBudget(conservative, ask, m, p, s);
            var b := OneAsk(ask, Div(budget, unit) + 1.0);
            && ValidSnapshot(b) && BuyCandidate(m, b, Yes, conservative, p, s).Some?
            && BuyCandidate(m, b, Yes, conservative, p, s).value.maxCommitment.value > budget - 0.01 * unit
  {
    hide Mul, Div, QuantizeDown, EstimatedFeePerShare, CommitmentPerShare, Hundredths, BuyBudget, OptimalSweep, Sorted,
      BestQuote, Trunc;
    var unit, budget := CommitmentPerShare(ask, m.fees), BuyBudget(conservative, ask, m, p, s);
    var least, cap := Max(m.minimumOrderSize, 0.01), Div(budget, unit);
    var b := OneAsk(ask, cap + 1.0);
    DivBound(budget, least + 0.01, unit);
    QuantizeDownBounds(cap, STEP);
    var n := QuantizeDown(cap, STEP);
    OneAskSorted(ask, cap + 1.0);
    OneAskSweep(ask, cap + 1.0, budget, m.fees);
    QuantizeOnGrid(cap);
    QuantizeOnGrid(n);
    CancelUnit(n, ask);
    CancelUnit(n, EstimatedFeePerShare(ask, m.fees));
    MulSign(n, ask);
    DivMul(budget, unit);
    MulMonotone(n, cap, unit);
    MulStrict(cap - 0.01, n, unit);
    MulDistrib(unit, cap, 0.01);
    MulComm(unit, 0.01);
    HundredthOf(unit);
  }

  lemma HundredthOf(unit: real)
    ensures Mul(0.01, unit) == 0.01 * unit
  {}

  lemma CancelUnit(n: real, unit: real)
    requires n > 0.0
    ensures Div(Mul(n, unit), n) == unit
  {}

  // ---------------------------------------------------------------- the boundary

  ghost predicate DrawnOn(b: Book, o: Outcome, m: Market, conservative: real, p: PortfolioState, s: Settings,
                          now: Instant) {
    && ValidSnapshot(b) && BuyCandidate(m, b, o, conservative, p, s).Some?
    && Draws(BucketCapExceeded, BuyCandidate(m, b, o, conservative, p, s).value, m, b, p, s, now)
  }

  /** Between these two bounds, and only there, the book decides: below the room that the budget leaves the gate never
      draws the bucket code on a BUY of the strategy, and from the whole room on it always does. */
  lemma BucketBracket(m: Market, b: Book, o: Outcome, conservative: real, p: PortfolioState, s: Settings, now: Instant)
    requires ValidSnapshot(b) && 0.0 <= conservative <= 1.0 && s.uncertaintyReserve >= 0.0
    requires BuyCandidate(m, b, o, conservative, p, s).Some?
    ensures BestQuote(b.asks, false).Some? && BestQuote(b.asks, false).value < 1.0
    ensures Unclassified(p)
            <= BucketRoom(m, p, s) - BuyBudget(conservative, BestQuote(b.asks, false).value, m, p, s) ==>
              !DrawnOn(b, o, m, conservative, p, s, now)
    ensures Unclassified(p) >= BucketRoom(m, p, s) ==> DrawnOn(b, o, m, conservative, p, s, now)
  {
    hide BuyCandidate, BuyBudget, BucketRoom, Draws, MinimumSize, Mul, MaximumBuyCost;
    BuyFacts(m, b, o, conservative, p, s);
    BuyDrawsBucketExactly(m, b, o, conservative, p, s, now);
  }

  /** Any BUY of the strategy has its budget within the attainable one and an expectation above the reserve. */
  lemma BuyIsAttainable(m: Market, b: Book, o: Outcome, conservative: real, p: PortfolioState, s: Settings)
    requires ValidSnapshot(b) && 0.0 <= conservative <= 1.0 && s.uncertaintyReserve >= 0.0
    requires BuyCandidate(m, b, o, conservative, p, s).Some?
    ensures conservative > s.uncertaintyReserve
    ensures 0.0 < BuyCandidate(m, b, o, conservative, p, s).value.maxCommitment.value
            <= AttainableBudget(conservative, m, p, s)
  {
    hide BuyCandidate, BuyBudget, MinimumSize, Mul, MaximumBuyCost, KellyBudget, OtherRooms, KellyCeiling;
    BuyFacts(m, b, o, conservative, p, s);
    BuyHasEdge(m, b, o, conservative, p, s);
    var ask := BestQuote(b.asks, false).value;
    BestAskInside(b);
    BudgetParts(conservative, ask, m, p, s);
    KellyNearCeiling(conservative, ask, p, s);
  }

  lemma BuyHasEdge(m: Market, b: Book, o: Outcome, conservative: real, p: PortfolioState, s: Settings)
    requires ValidSnapshot(b) && 0.0 <= conservative <= 1.0 && s.uncertaintyReserve >= 0.0
    requires BuyCandidate(m, b, o, conservative, p, s).Some?
    ensures var c := BuyCandidate(m, b, o, conservative, p, s).value;
            0.0 < c.edge <= conservative - s.uncertaintyReserve - c.expectedPrice
    ensures BestQuote(b.asks, false).Some? && BestQuote(b.asks, false).value < conservative
  {
    hide Mul, Div, OptimalSweep, BuyBudget, QuantizeDown, Sorted, MaximumBuyCost, MinimumSize;
    BuyFacts(m, b, o, conservative, p, s);
    SortedKeepsLevels(b.asks, false);
    var budget := BuyBudget(conservative, BestQuote(b.asks, false).value, m, p, s);
    var sweep := OptimalSweep(Sorted(b.asks, false), budget, m.fees);
    DivSign(sweep.feeCost, Max(QuantizeDown(sweep.shares, STEP), TINY));
  }

  /** A best ask cheap enough for the budget to come within `slack` of the attainable one, for a minimum size `least`,
      and for the edge to stay positive. */
  function CheapAsk(conservative: real, m: Market, p: PortfolioState, s: Settings, slack: real): real
    requires slack > 0.0
  {
    var r := Rate(m.fees);
    Scale(r, Mul(p.bankroll, s.kellyFraction), Max(m.minimumOrderSize, 0.01), slack,
          conservative - s.uncertaintyReserve)
  }

  function Weight(r: real, g: real, least: real): real { 2.0 * g + Mul(1.0 + 2.0 * r, least + 1.0) }

  function Scale(r: real, g: real, least: real, slack: real, room: real): real {
    var byEdge := if r >= 0.0 then Div(room, 2.0 * (1.0 + r)) else 0.0;
    var w := Weight(r, g, least);
    Min(0.5, Min(byEdge, if w > 0.0 then Div(slack, 2.0 * w) else 0.0))
  }

  lemma ScaleFacts(r: real, g: real, least: real, slack: real, room: real)
    requires r >= 0.0 && g >= 0.0 && least > 0.0 && slack > 0.0 && room > 0.0
    ensures var a := Scale(r, g, least, slack, room);
            var unit := Mul(a, 1.0 + 2.0 * r);
            && 0.0 < a <= 0.5 && a + Mul(a, r) < room && a < room
            && 2.0 * Mul(a, g) + unit < slack && 2.0 * Mul(a, g) + Mul(least + 0.01, unit) < slack
  {
    hide Mul, Div;
    var a, w := Scale(r, g, least, slack, room), Weight(r, g, least);
    MulSign(1.0 + 2.0 * r, least + 1.0);
    DivSign(room, 2.0 * (1.0 + r));
    DivSign(slack, 2.0 * w);
    // The edge: a (1 + r) is at most half the room.
    DivMul(room, 2.0 * (1.0 + r));
    MulMonotone(a, Div(room, 2.0 * (1.0 + r)), 2.0 * (1.0 + r));
    MulDouble(a, 1.0 + r);
    MulDistrib(a, 1.0, r);
    MulUnit(a);
    MulSign(a, r);
    // The budget: a w is at most half the slack.
    DivMul(slack, 2.0 * w);
    MulMonotone(a, Div(slack, 2.0 * w), 2.0 * w);
    MulDouble(a, w);
    MulDouble(a, g);
    MulDistrib(a, 2.0 * g, Mul(1.0 + 2.0 * r, least + 1.0));
    MulAssoc(a, 1.0 + 2.0 * r, least + 1.0);
    var unit := Mul(a, 1.0 + 2.0 * r);
    MulSign(a, 1.0 + 2.0 * r);
    MulUnit(unit);
    MulMonotone(1.0, least + 1.0, unit);
    MulMonotone(least + 0.01, least + 1.0, unit);
    MulComm(unit, least + 0.01);
  }

  /** Any amount below the attainable budget is exceeded by the commitment of some BUY. */
  lemma CheapAskCommits(m: Market, conservative: real, p: PortfolioState, s: Settings, below: real) returns (b: Book)
    requires m.minimumOrderSize > 0.0 && (m.fees.enabled ==> m.fees.exponent >= 1) && s.uncertaintyReserve >= 0.0
    requires s.uncertaintyReserve < conservative <= 1.0 && s.kellyFraction > 0.0
    requires 0.0 <= below < AttainableBudget(conservative, m, p, s)
    ensures ValidSnapshot(b) && BuyCandidate(m, b, Yes, conservative, p, s).Some?
    ensures BuyCandidate(m, b, Yes, conservative, p, s).value.maxCommitment.value > below
  {
    hide Mul, Div, Scale, BuyCandidate, BuyBudget, OtherRooms, EstimatedFeePerShare, CommitmentPerShare, KellyBudget;
    var g, r, least := Mul(p.bankroll, s.kellyFraction), Rate(m.fees), Max(m.minimumOrderSize, 0.01);
    MulSign(g, conservative);
    NegativeProduct(g, conservative);
    var slack := AttainableBudget(conservative, m, p, s) - below;
    var ask := CheapAsk(conservative, m, p, s, slack);
    ScaleFacts(r, g, least, slack, conservative - s.uncertaintyReserve);
    CheapCommitment(ask, m.fees);
    KellyNearCeiling(conservative, ask, p, s);
    BudgetParts(conservative, ask, m, p, s);
    var unit := CommitmentPerShare(ask, m.fees);
    MulMonotone(unit, Mul(ask, 1.0 + 2.0 * r), least + 0.01);
    OneAskBuy(ask, m, conservative, p, s);
    b := OneAsk(ask, Div(BuyBudget(conservative, ask, m, p, s), unit) + 1.0);
  }

  lemma NegativeProduct(g: real, c: real)
    requires c > 0.0 && Mul(g, c) > 0.0
    ensures g > 0.0
  {}

  /** EXACTNESS. Some book makes the strategy size a BUY that the gate's bucket test refuses, if and only if the
      forecast clears the reserve, there is a budget to attain, and the unclassified exposure exceeds what the
      attainable budget leaves of the room. */
  lemma BucketGapExactly(m: Market, conservative: real, p: PortfolioState, s: Settings, now: Instant)
    requires m.minimumOrderSize > 0.0 && (m.fees.enabled ==> m.fees.exponent >= 1) && ValidSettings(s)
             && 0.0 <= conservative <= 1.0
    ensures (exists b, o :: DrawnOn(b, o, m, conservative, p, s, now)) <==>
              && conservative > s.uncertaintyReserve && AttainableBudget(conservative, m, p, s) > 0.0
              && Unclassified(p) > BucketRoom(m, p, s) - AttainableBudget(conservative, m, p, s)
  {
    hide BuyCandidate, BucketRoom, AttainableBudget, Draws, Mul;
    var attainable, room := AttainableBudget(conservative, m, p, s), BucketRoom(m, p, s);
    forall b, o | DrawnOn(b, o, m, conservative, p, s, now)
      ensures conservative > s.uncertaintyReserve && attainable > 0.0 && Unclassified(p) > room - attainable
    {
      BuyIsAttainable(m, b, o, conservative, p, s);
      BuyDrawsBucketExactly(m, b, o, conservative, p, s, now);
    }
    if conservative > s.uncertaintyReserve && attainable > 0.0 && Unclassified(p) > room - attainable {
      var b := CheapAskCommits(m, conservative, p, s, Max(0.0, room - Unclassified(p)));
      BuyDrawsBucketExactly(m, b, Yes, conservative, p, s, now);
      assert DrawnOn(b, Yes, m, conservative, p, s, now);
    }
  }
}
