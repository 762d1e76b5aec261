/** The snapshot backtest (backtest.py): conservation of the bankroll, the stop level, and the running-peak drawdown. */
module Backtest {
  import opened Decimals
  import opened Fees
  import opened Wrappers
  import opened Portfolio

  datatype Row = Row(
    marketId: string, resolvedYes: bool, askYes: real, askNo: real, depthYes: real, depthNo: real,
    probability: real, low: real, high: real, confidence: real, fees: FeeSchedule, slippage: real)

  datatype Trade = Trade(marketId: string, outcome: Outcome, price: real, conservative: real, stake: real, fee: real,
                         pnl: real, won: bool)

  /** What one row leads to at a given bankroll; a price of exactly zero divides by zero in the source. */
  datatype Verdict = Skipped | Traded(trade: Trade) | DividesByZero

  datatype Pick = Pick(outcome: Outcome, price: real, conservative: real, depth: real, won: bool)

  function YesEdge(r: Row, s: Settings): real { r.low - r.askYes - r.slippage - s.uncertaintyReserve }

  function NoEdge(r: Row, s: Settings): real { 1.0 - r.high - r.askNo - r.slippage - s.uncertaintyReserve }

  function PickOf(r: Row, s: Settings): Option<Pick> {
    if r.confidence < s.minConfidence || Max(YesEdge(r, s), NoEdge(r, s)) < s.limits.minEdge then None
    else
      var pick := if YesEdge(r, s) >= NoEdge(r, s)
                  then Pick(Yes, r.askYes + r.slippage, r.low, r.depthYes, r.resolvedYes)
                  else Pick(No, r.askNo + r.slippage, 1.0 - r.high, r.depthNo, !r.resolvedYes);
      if pick.price >= 1.0 then None else Some(pick)
  }

  function StakeOf(p: Pick, bankroll: real, s: Settings): real
    requires p.price < 1.0
  {
    var kelly := Max(0.0, Div(p.conservative - p.price, 1.0 - p.price));
    Min(Min(Min(s.limits.maxOrder, Mul(bankroll, s.limits.maxTradeRisk)), Mul(Mul(bankroll, s.kellyFraction), kelly)),
        p.depth)
  }

  function Settle(marketId: string, p: Pick, stake: real, fees: FeeSchedule): Trade
    requires p.price != 0.0
  {
    var shares := Div(stake, p.price);
    var fee := Mul(shares, EstimatedFeePerShare(p.price, fees));
    var pnl := if p.won then Mul(shares, 1.0 - p.price) - fee else -(stake + fee);
    Trade(marketId, p.outcome, p.price, p.conservative, stake, fee, pnl, p.won)
  }

  function Judge(r: Row, bankroll: real, s: Settings): Verdict {
    var pick := PickOf(r, s);
    if pick.None? || StakeOf(pick.value, bankroll, s) <= 0.0 then Skipped
    else if pick.value.price == 0.0 then DividesByZero
    else Traded(Settle(r.marketId, pick.value, StakeOf(pick.value, bankroll, s), r.fees))
  }

  function Pnl(trades: seq<Trade>): real {
    if trades == [] then 0.0 else Pnl(trades[..|trades| - 1]) + trades[|trades| - 1].pnl
  }

  /** The bankroll before the first trade and after each one. */
  function Curve(initial: real, trades: seq<Trade>): (b: seq<real>)
    ensures |b| == |trades| + 1 && b[0] == initial && b[|trades|] == initial + Pnl(trades)
  {
    if trades == [] then [initial]
    else Curve(initial, trades[..|trades| - 1]) + [initial + Pnl(trades)]
  }

  function Wins(trades: seq<Trade>): nat {
    if trades == [] then 0 else Wins(trades[..|trades| - 1]) + if trades[|trades| - 1].won then 1 else 0
  }

  /** How far a forecast was from what happened. */
  function Miss(r: Row): real { r.probability - if r.resolvedYes then 1.0 else 0.0 }

  function SquaredError(rows: seq<Row>): real {
    if rows == [] then 0.0
    else SquaredError(rows[..|rows| - 1]) + Mul(Miss(rows[|rows| - 1]), Miss(rows[|rows| - 1]))
  }

  /** The Brier score of all rows. */
  function MeanSquaredError(rows: seq<Row>): real {
    if rows == [] then 0.0 else Div(SquaredError(rows), |rows| as real)
  }

  function Loss(from: real, to: real): real
    requires from != 0.0
  {
    Div(from - to, from)
  }

  function Peak(b: seq<real>): real
    requires |b| > 0
  {
    if |b| == 1 then b[0] else Max(Peak(b[..|b| - 1]), b[|b| - 1])
  }

  /** The single-pass figure: the deepest fall below the running peak. */
  function RunningDrawdown(b: seq<real>): real
    requires |b| > 0
  {
    if |b| == 1 then 0.0
    else
      var before := RunningDrawdown(b[..|b| - 1]);
      if Peak(b) > 0.0 then Max(before, Loss(Peak(b), b[|b| - 1])) else before
  }

  predicate ValidRun(initial: real, s: Settings) {
    initial > 0.0 && 0.0 < s.limits.maxDrawdown <= 1.0
  }

  function StopLevel(initial: real, s: Settings): real { Mul(initial, 1.0 - s.limits.maxDrawdown) }

  datatype Report = Report(
    rows: nat, trades: nat, wins: nat, winRate: Option<real>, initial: real, final: real, netPnl: real, roi: real,
    maxDrawdown: real, brier: real, detail: seq<Trade>)

  /** Where the loop stands after the given rows. */
  datatype Simulation = Simulation(trades: seq<Trade>, processed: nat, stopped: bool, raised: bool)

  function Simulate(rows: seq<Row>, initial: real, s: Settings): Simulation {
    if rows == [] then Simulation([], 0, false, false)
    else
      var before := Simulate(rows[..|rows| - 1], initial, s);
      if before.stopped || before.raised then before
      else
        match Judge(rows[|rows| - 1], initial + Pnl(before.trades), s)
        case Skipped => before.(processed := |rows|)
        case DividesByZero => before.(processed := |rows|, raised := true)
        case Traded(t) =>
          var trades := before.trades + [t];
          Simulation(trades, |rows|, initial + Pnl(trades) <= StopLevel(initial, s), false)
  }

  lemma {:induction false} SimulationSettled(rows: seq<Row>, n: nat, initial: real, s: Settings)
    requires n <= |rows| && (Simulate(rows[..n], initial, s).stopped || Simulate(rows[..n], initial, s).raised)
    ensures Simulate(rows, initial, s) == Simulate(rows[..n], initial, s)
    decreases |rows| - n
  {
    hide Judge, Pnl, StopLevel;
    if n < |rows| {
      assert rows[..n + 1][..n] == rows[..n];
      SimulationSettled(rows, n + 1, initial, s);
    } else {
      assert rows[..n] == rows;
    }
  }

  method RunBacktest(rows: seq<Row>, initial: real, s: Settings) returns (r: Option<Report>)
    requires initial > 0.0
    ensures var sim := Simulate(rows, initial, s);
            && (r.None? <==> sim.raised)
            && (r.Some? ==> r.value.detail == sim.trades && ReportOf(r.value, sim, rows, initial))
  {
    hide Judge, Pnl, StopLevel, Curve, Peak, RunningDrawdown, Wins, SquaredError;
    var bankroll, peak, maxDrawdown, brierSum := initial, initial, 0.0, 0.0;
    var trades, i, stopped := [], 0, false;
    StartOfRun(initial);
    while i < |rows| && !stopped
      invariant 0 <= i <= |rows| && Simulate(rows[..i], initial, s) == Simulation(trades, i, stopped, false)
      invariant bankroll == initial + Pnl(trades) && peak == Peak(Curve(initial, trades)) && peak > 0.0
      invariant maxDrawdown == RunningDrawdown(Curve(initial, trades)) && brierSum == SquaredError(rows[..i])
      decreases |rows| - i
    {
      var row := rows[i];
      assert rows[..i + 1][..i] == rows[..i];
      SquaredErrorMore(rows, i);
      brierSum := brierSum + Mul(Miss(row), Miss(row));
      i := i + 1;
      var verdict := Judge(row, bankroll, s);
      if verdict.DividesByZero? {
        SimulationSettled(rows, i, initial, s);
        return None;
      }
      if verdict.Traded? {
        OneTradeMore(initial, trades, verdict.trade);
        bankroll := bankroll + verdict.trade.pnl;
        peak := Max(peak, bankroll);
        if peak > 0.0 { maxDrawdown := Max(maxDrawdown, Loss(peak, bankroll)); }
        trades := trades + [verdict.trade];
        stopped := bankroll <= StopLevel(initial, s);
      }
    }
    if stopped { SimulationSettled(rows, i, initial, s); } else { assert rows[..i] == rows; }
    var wins := Wins(trades);
    r := Some(Report(
      |rows|, |trades|, wins, if trades == [] then None else Some(Div(wins as real, |trades| as real)),
      initial, bankroll,
      bankroll - initial, Div(bankroll - initial, initial), maxDrawdown,
      if rows == [] then 0.0 else Div(brierSum, |rows| as real), trades));
  }

  /** The report's figures in terms of the simulated trades. The Brier sum covers the processed rows only, but is
      divided by all of them. */
  ghost predicate ReportOf(r: Report, sim: Simulation, rows: seq<Row>, initial: real) {
    && r.rows == |rows| && r.trades == |sim.trades| && r.wins == Wins(sim.trades) && sim.processed <= |rows|
    && r.initial == initial && r.final == initial + Pnl(sim.trades) && r.netPnl == Pnl(sim.trades)
    && r.maxDrawdown == RunningDrawdown(Curve(initial, sim.trades))
    && r.winRate == (if sim.trades == [] then None else Some(Div(Wins(sim.trades) as real, |sim.trades| as real)))
    && initial > 0.0 && r.roi == Div(Pnl(sim.trades), initial)
    && r.brier == if rows == [] then 0.0 else Div(SquaredError(rows[..sim.processed]), |rows| as real)
  }

  // ---- what one row leads to, by the row itself

  /** THE TRADE. It is on the side with the larger edge, YES on a tie; its stake buys shares at the ask plus slippage;
      it wins if that side happened, and then every share pays one, otherwise nothing; fees come on top. */
  lemma TradeExactly(r: Row, bankroll: real, s: Settings) returns (shares: real)
    requires Judge(r, bankroll, s).Traded? && PickOf(r, s).value.price > 0.0
    ensures var t := Judge(r, bankroll, s).trade;
            && t.marketId == r.marketId && (t.won <==> (t.outcome == Yes <==> r.resolvedYes))
            && t.price == (if t.outcome == Yes then r.askYes else r.askNo) + r.slippage
            && Mul(shares, t.price) == t.stake && t.fee == Mul(shares, EstimatedFeePerShare(t.price, r.fees))
            && t.pnl + t.stake + t.fee == if t.won then shares else 0.0
    ensures var yes, no := r.low - (r.askYes + r.slippage), 1.0 - r.high - (r.askNo + r.slippage);
            && (Judge(r, bankroll, s).trade.outcome == Yes <==> yes >= no)
            && Max(yes, no) >= s.limits.minEdge + s.uncertaintyReserve && r.confidence >= s.minConfidence
  {
    hide Mul, Div, EstimatedFeePerShare, StakeOf;
    var p := PickOf(r, s).value;
    var stake := StakeOf(p, bankroll, s);
    shares := Div(stake, p.price);
    DivMul(stake, p.price);
    MulDistrib(shares, 1.0, p.price);
    MulUnit(shares);
  }

  /** THE STAKE. The largest amount within the order cap, the risk fraction of the bankroll, the depth of the side, and
      the fraction of the bankroll that Kelly's rule allows for the margin of the conservative bound over the price. */
  lemma StakeExactly(r: Row, bankroll: real, s: Settings, x: real)
    requires Judge(r, bankroll, s).Traded? && PickOf(r, s).value.price > 0.0
    ensures var t := Judge(r, bankroll, s).trade;
            var margin := (if t.outcome == Yes then r.low else 1.0 - r.high) - t.price;
            0.0 < t.stake && t.price < 1.0 && margin > 0.0
            && (x <= t.stake <==>
                  && x <= s.limits.maxOrder && x <= Mul(bankroll, s.limits.maxTradeRisk)
                  && x <= (if t.outcome == Yes then r.depthYes else r.depthNo)
                  && Mul(x, 1.0 - t.price) <= Mul(Mul(bankroll, s.kellyFraction), margin))
  {
    hide Mul, Div, EstimatedFeePerShare;
    var p := PickOf(r, s).value;
    KellyBound(Mul(bankroll, s.kellyFraction), p.conservative - p.price, 1.0 - p.price, x);
  }

  /** WHICH ROWS TRADE. Exactly the confident ones whose better side clears the edge at a price below one, on a margin
      over it, with something to stake. */
  lemma SkippedExactly(r: Row, bankroll: real, s: Settings)
    requires bankroll > 0.0 && s.kellyFraction > 0.0
    ensures var yes := r.low - (r.askYes + r.slippage) >= 1.0 - r.high - (r.askNo + r.slippage);
            var price := (if yes then r.askYes else r.askNo) + r.slippage;
            var margin := (if yes then r.low else 1.0 - r.high) - price;
            Judge(r, bankroll, s) != Skipped <==>
              && r.confidence >= s.minConfidence && margin >= s.limits.minEdge + s.uncertaintyReserve && price < 1.0
              && margin > 0.0 && s.limits.maxOrder > 0.0 && s.limits.maxTradeRisk > 0.0
              && (if yes then r.depthYes else r.depthNo) > 0.0
  {
    hide Mul, Div, EstimatedFeePerShare, Settle;
    var pick := PickOf(r, s);
    MulSign(bankroll, s.limits.maxTradeRisk);
    NoRisk(bankroll, s.limits.maxTradeRisk);
    MulSign(bankroll, s.kellyFraction);
    if pick.Some? {
      var p := pick.value;
      var base := Mul(bankroll, s.kellyFraction);
      DivSign(p.conservative - p.price, 1.0 - p.price);
      MulSign(base, Max(0.0, Div(p.conservative - p.price, 1.0 - p.price)));
    }
  }

  lemma NoRisk(bankroll: real, risk: real)
    requires bankroll > 0.0
    ensures risk <= 0.0 ==> Mul(bankroll, risk) <= 0.0
  {}

  lemma KellyBound(base: real, margin: real, room: real, x: real)
    requires room > 0.0
    ensures margin > 0.0 ==> (x <= Mul(base, Max(0.0, Div(margin, room))) <==> Mul(x, room) <= Mul(base, margin))
    ensures margin <= 0.0 ==> Mul(base, Max(0.0, Div(margin, room))) == 0.0
  {
    hide Mul, Div;
    var k := Div(margin, room);
    DivSign(margin, room);
    MulSign(base, 0.0);
    DivMul(margin, room);
    MulAssoc(base, k, room);
    if x <= Mul(base, k) { MulMonotone(x, Mul(base, k), room); } else { MulStrict(Mul(base, k), x, room); }
  }

  /** THE RUN. Row by row: what a processed row leads to at the bankroll of that moment is exactly what it added to the
      trades. */
  lemma {:induction false} RunRowByRow(rows: seq<Row>, initial: real, s: Settings, i: nat)
    requires i < Simulate(rows, initial, s).processed <= |rows|
    ensures var sim, k, next := Simulate(rows, initial, s), |Simulate(rows[..i], initial, s).trades|,
                                |Simulate(rows[..i + 1], initial, s).trades|;
            && k <= next <= |sim.trades|
            && match Judge(rows[i], Curve(initial, sim.trades)[k], s)
               case Skipped => next == k
               case Traded(t) => next == k + 1 && sim.trades[k] == t
               case DividesByZero => next == k && sim.raised
  {
    hide Judge, Curve, Pnl, Simulate;
    var n := |rows| - 1;
    var sim, before := Simulate(rows, initial, s), Simulate(rows[..n], initial, s);
    OneRowMore(rows, initial, s);
    EveryRowProcessed(rows[..n], initial, s);
    CurveExactly(initial, sim.trades);
    if i == n {
      assert rows[..n + 1] == rows;
      assert sim.trades[..|before.trades|] == before.trades;
    } else {
      assert rows[..n][..i] == rows[..i] && rows[..n][..i + 1] == rows[..i + 1];
      RunRowByRow(rows[..n], initial, s, i);
      CurveExactly(initial, before.trades);
      var k := |Simulate(rows[..i], initial, s).trades|;
      assert before.trades[..k] == sim.trades[..k];
    }
  }

  lemma OneRowMore(rows: seq<Row>, initial: real, s: Settings)
    requires rows != []
    ensures var sim, before := Simulate(rows, initial, s), Simulate(rows[..|rows| - 1], initial, s);
            && before.processed < |rows|
            && if before.stopped || before.raised then sim == before
               else
                 && sim.processed == |rows|
                 && match Judge(rows[|rows| - 1], initial + Pnl(before.trades), s)
                    case Skipped => sim.trades == before.trades
                    case Traded(t) => sim.trades == before.trades + [t]
                    case DividesByZero => sim.trades == before.trades && sim.raised
  {
    hide Judge, StopLevel, Pnl;
    EveryRowProcessed(rows[..|rows| - 1], initial, s);
  }

  /** Every row is processed unless the run stopped or raised before it. */
  lemma {:induction false} EveryRowProcessed(rows: seq<Row>, initial: real, s: Settings)
    ensures var sim := Simulate(rows, initial, s);
            sim.processed <= |rows| && (!sim.stopped && !sim.raised ==> sim.processed == |rows|)
  {
    hide Judge, StopLevel, Pnl;
    if rows != [] { EveryRowProcessed(rows[..|rows| - 1], initial, s); }
  }

  /** THE FIGURES add up trade by trade and row by row. */
  lemma {:induction false} CurveExactly(initial: real, trades: seq<Trade>)
    ensures forall k | 0 <= k <= |trades| :: Curve(initial, trades)[k] == initial + Pnl(trades[..k])
  {
    var n := |trades|;
    assert trades[..n] == trades;
    if n > 0 {
      CurveExactly(initial, trades[..n - 1]);
      forall k | 0 <= k < n ensures Curve(initial, trades)[k] == initial + Pnl(trades[..k]) {
        assert trades[..n - 1][..k] == trades[..k];
      }
    }
  }

  lemma {:induction false} TradesAddUp(trades: seq<Trade>, more: seq<Trade>, t: Trade)
    ensures Pnl(trades + more) == Pnl(trades) + Pnl(more) && Pnl([t]) == t.pnl
    ensures Wins(trades + more) == Wins(trades) + Wins(more) && Wins([t]) == if t.won then 1 else 0
  {
    assert [t][..0] == [];
    if more == [] {
      assert trades + more == trades;
    } else {
      assert (trades + more)[..|trades + more| - 1] == trades + more[..|more| - 1];
      TradesAddUp(trades, more[..|more| - 1], t);
    }
  }

  lemma {:induction false} ErrorsAddUp(rows: seq<Row>, more: seq<Row>, r: Row)
    ensures SquaredError(rows + more) == SquaredError(rows) + SquaredError(more)
    ensures var e := if r.resolvedYes then 1.0 - r.probability else r.probability; SquaredError([r]) == Mul(e, e)
  {
    assert [r][..0] == [];
    var e := 1.0 - r.probability;
    assert Mul(-e, -e) == Mul(e, e);
    if more == [] {
      assert rows + more == rows;
    } else {
      assert (rows + more)[..|rows + more| - 1] == rows + more[..|more| - 1];
      ErrorsAddUp(rows, more[..|more| - 1], r);
    }
  }

  lemma {:induction false} ErrorsAccumulate(rows: seq<Row>, n: nat)
    requires n <= |rows|
    ensures SquaredError(rows[..n]) <= SquaredError(rows)
    ensures SquaredError(rows[..n]) == SquaredError(rows) <==> forall i | n <= i < |rows| :: Miss(rows[i]) == 0.0
    decreases |rows| - n
  {
    hide Mul, Miss;
    if n == |rows| {
      assert rows[..n] == rows;
    } else {
      ErrorsAccumulate(rows, n + 1);
      SquaredErrorMore(rows, n);
      SquareSign(Miss(rows[n]));
    }
  }

  lemma SquareSign(x: real)
    ensures Mul(x, x) >= 0.0 && (Mul(x, x) == 0.0 <==> x == 0.0)
  {
    MulSign(x, x);
    MulSign(-x, -x);
    assert Mul(x, x) == Mul(-x, -x);
  }

  /** EXACTNESS. The reported Brier score is never too high, and it is the mean over all rows if and only if every row
      behind the stop was forecast without any error. */
  lemma BrierExactly(r: Report, rows: seq<Row>, initial: real, s: Settings)
    requires ReportOf(r, Simulate(rows, initial, s), rows, initial)
    ensures var n := Simulate(rows, initial, s).processed;
            && r.brier <= MeanSquaredError(rows)
            && (r.brier == MeanSquaredError(rows) <==> forall i | n <= i < |rows| :: Miss(rows[i]) == 0.0)
  {
    hide Mul, Div, Miss, Simulate;
    var n, count := Simulate(rows, initial, s).processed, |rows| as real;
    ErrorsAccumulate(rows, n);
    if rows != [] {
      var part, all := SquaredError(rows[..n]), SquaredError(rows);
      DivMonotone(part, all, count);
      DivMul(part, count);
      DivMul(all, count);
    }
  }

  lemma StartOfRun(initial: real)
    ensures Pnl([]) == 0.0 && Curve(initial, []) == [initial] && Peak([initial]) == initial
            && RunningDrawdown([initial]) == 0.0
    ensures SquaredError([]) == 0.0
  {}

  lemma SquaredErrorMore(rows: seq<Row>, i: nat)
    requires i < |rows|
    ensures SquaredError(rows[..i + 1]) == SquaredError(rows[..i]) + Mul(Miss(rows[i]), Miss(rows[i]))
  {
    assert rows[..i + 1][..i] == rows[..i];
  }

  lemma OneTradeMore(initial: real, trades: seq<Trade>, t: Trade)
    ensures var more, b := trades + [t], initial + Pnl(trades) + t.pnl;
            && Pnl(more) == Pnl(trades) + t.pnl && Curve(initial, more) == Curve(initial, trades) + [b]
            && Peak(Curve(initial, more)) == Max(Peak(Curve(initial, trades)), b)
            && RunningDrawdown(Curve(initial, more))
               == if Peak(Curve(initial, more)) > 0.0
                   then Max(RunningDrawdown(Curve(initial, trades)), Loss(Peak(Curve(initial, more)), b))
                  else RunningDrawdown(Curve(initial, trades))
  {
    hide Loss;
    var more := trades + [t];
    assert more[..|trades|] == trades;
    assert (Curve(initial, trades) + [initial + Pnl(more)])[..|trades| + 1] == Curve(initial, trades);
  }

  lemma {:induction false} StopsAtLevel(rows: seq<Row>, initial: real, s: Settings)
    requires initial > StopLevel(initial, s)
    ensures var sim := Simulate(rows, initial, s);
            var b := Curve(initial, sim.trades);
            && (forall k | 0 <= k < |b| - 1 :: b[k] > StopLevel(initial, s))
            && (sim.stopped <==> b[|b| - 1] <= StopLevel(initial, s))
  {
    hide Judge, StopLevel;
    if rows != [] {
      var before := Simulate(rows[..|rows| - 1], initial, s);
      StopsAtLevel(rows[..|rows| - 1], initial, s);
      if !before.stopped && !before.raised {
        match Judge(rows[|rows| - 1], initial + Pnl(before.trades), s)
        case Skipped =>
        case DividesByZero =>
        case Traded(t) => OneTradeMore(initial, before.trades, t);
      }
    }
  }

  /** Every bankroll before the last trade stood above the part of the initial one that may not be lost, and after the
      last one too unless the run stopped. */
  lemma StopsAtFirstBreach(rows: seq<Row>, initial: real, s: Settings)
    requires ValidRun(initial, s)
    ensures var sim, level := Simulate(rows, initial, s), Mul(initial, 1.0 - s.limits.maxDrawdown);
            var b := Curve(initial, sim.trades);
            (forall k | 0 <= k < |b| - 1 :: b[k] > level) && (sim.stopped <==> b[|b| - 1] <= level)
  {
    hide Simulate, Mul, Curve;
    MulDistrib(initial, 1.0, s.limits.maxDrawdown);
    MulUnit(initial);
    MulSign(initial, s.limits.maxDrawdown);
    StopsAtLevel(rows, initial, s);
  }

  // ---- the running peak against the definition of a maximum drawdown

  /** d is the deepest relative fall from any earlier positive bankroll to a later one. */
  ghost predicate IsMaximumDrawdown(b: seq<real>, d: real) {
    && (exists i, j :: 0 <= i <= j < |b| && b[i] > 0.0 && d == Loss(b[i], b[j]))
    && forall i, j | 0 <= i <= j < |b| && b[i] > 0.0 :: Loss(b[i], b[j]) <= d
  }

  /** As long as the later bankroll is not negative, a higher peak means a deeper fall; below zero it is the reverse. */
  lemma LossByPeak(a: real, c: real, b: real)
    requires 0.0 < a <= c
    ensures b >= 0.0 ==> Loss(a, b) <= Loss(c, b) <= 1.0
    ensures b < 0.0 && a < c ==> Loss(a, b) > Loss(c, b)
    ensures b < 0.0 ==> Loss(a, b) > 1.0
    ensures b > 0.0 ==> Loss(a, b) < 1.0
  {
    hide Mul, Div;
    var x, y := Loss(a, b), Loss(c, b);
    DivMul(a - b, a);
    DivMul(c - b, c);
    MulUnit(a);
    MulUnit(c);
    MulDistrib(a, 1.0, x);
    MulDistrib(c, 1.0, y);
    assert Mul(a, 1.0 - x) == b && Mul(c, 1.0 - y) == b;
    SignOf(a, 1.0 - x);
    SignOf(c, 1.0 - y);
    if b >= 0.0 && x > y {
      MulStrict(1.0 - x, 1.0 - y, a);
      MulMonotone(a, c, 1.0 - y);
    }
    if b < 0.0 && a < c && x <= y {
      MulMonotone(1.0 - y, 1.0 - x, a);
      MulStrict(a, c, -(1.0 - y));
      MulDistrib(a, 0.0, 1.0 - y);
      MulDistrib(c, 0.0, 1.0 - y);
      MulSign(a, 0.0);
      MulSign(c, 0.0);
    }
  }

  lemma SignOf(a: real, z: real)
    requires a > 0.0
    ensures Mul(a, z) > 0.0 <==> z > 0.0
    ensures Mul(a, z) < 0.0 <==> z < 0.0
  {}

  lemma {:induction false} PeakFacts(b: seq<real>)
    requires |b| > 0
    ensures (exists i :: 0 <= i < |b| && b[i] == Peak(b)) && forall i | 0 <= i < |b| :: b[i] <= Peak(b)
  {
    if |b| == 1 {
      assert b[0] == Peak(b);
    } else {
      var init := b[..|b| - 1];
      PeakFacts(init);
      var i :| 0 <= i < |init| && init[i] == Peak(init);
      assert b[i] == Peak(init) && (Peak(b) == b[i] || Peak(b) == b[|b| - 1]);
      assert forall k | 0 <= k < |init| :: b[k] == init[k];
    }
  }

  /** What the loop keeps: a positive start, and only the last bankroll may have gone below zero. */
  ghost predicate Solvent(b: seq<real>) {
    |b| > 0 && b[0] > 0.0 && forall i | 0 <= i < |b| - 1 :: b[i] > 0.0
  }

  lemma {:induction false} RunningIsMaximum(b: seq<real>)
    requires Solvent(b) && b[|b| - 1] >= 0.0
    ensures IsMaximumDrawdown(b, RunningDrawdown(b))
  {
    hide Loss, Peak;
    var n := |b| - 1;
    if n == 0 {
      LossToItself(b[0]);
    } else {
      var init := b[..n];
      RunningIsMaximum(init);
      PeakFacts(b);
      LossToItself(Peak(b));
      ExtendMaximum(b, RunningDrawdown(init));
    }
  }

  lemma LossToItself(a: real)
    requires a > 0.0
    ensures Loss(a, a) == 0.0
  {}

  /** The maximum over a longer curve: either the old one, or the fall from the peak to the new end. */
  lemma ExtendMaximum(b: seq<real>, d: real)
    requires Solvent(b) && |b| > 1 && b[|b| - 1] >= 0.0 && IsMaximumDrawdown(b[..|b| - 1], d)
    ensures IsMaximumDrawdown(b, Max(d, Loss(PeakPositive(b), b[|b| - 1])))
  {
    hide Loss, Peak;
    var n, init := |b| - 1, b[..|b| - 1];
    var worst := Loss(PeakPositive(b), b[n]);
    PeakFacts(b);
    var p :| 0 <= p < |b| && b[p] == Peak(b);
    var i, j :| 0 <= i <= j < |init| && init[i] > 0.0 && d == Loss(init[i], init[j]);
    assert d == Loss(b[i], b[j]) && worst == Loss(b[p], b[n]);
    forall k, m | 0 <= k <= m < |b| && b[k] > 0.0 ensures Loss(b[k], b[m]) <= Max(d, worst) {
      if m < n { assert Loss(init[k], init[m]) <= d; } else { LossByPeak(b[k], Peak(b), b[n]); }
    }
  }

  function PeakPositive(b: seq<real>): (p: real)
    requires Solvent(b)
    ensures p == Peak(b) && p > 0.0
  {
    PeakFacts(b);
    Peak(b)
  }

  /** When the last trade loses more than everything, the loop's figure is the fall from the peak,
      beyond 100 percent. */
  lemma RuinedRun(b: seq<real>)
    requires Solvent(b) && |b| > 1 && b[|b| - 1] < 0.0
    ensures RunningDrawdown(b) == Loss(PeakPositive(b), b[|b| - 1]) > 1.0
    ensures PeakPositive(b) == Peak(b[..|b| - 1])
  {
    hide Loss;
    var n, init := |b| - 1, b[..|b| - 1];
    PeakFacts(init);
    RunningIsMaximum(init);
    LossByPeak(Peak(b), Peak(b), b[n]);
    var i, j :| 0 <= i <= j < |init| && init[i] > 0.0 && RunningDrawdown(init) == Loss(init[i], init[j]);
    LossByPeak(init[i], init[i], init[j]);
  }

  /** EXACTNESS. The running-peak figure is the true maximum drawdown if and only if the last bankroll is not
      negative, or no earlier bankroll differed from the first. */
  lemma DrawdownExactly(b: seq<real>)
    requires Solvent(b)
    ensures IsMaximumDrawdown(b, RunningDrawdown(b))
            <==> b[|b| - 1] >= 0.0 || forall i | 0 <= i < |b| - 1 :: b[i] == b[0]
  {
    hide Loss, Peak, RunningDrawdown, IsMaximumDrawdown;
    if b[|b| - 1] >= 0.0 {
      RunningIsMaximum(b);
    } else if exists i :: 0 <= i < |b| - 1 && b[i] != b[0] {
      UnevenRuinUnderstated(b);
    } else {
      EvenRuinIsMaximum(b);
    }
  }

  lemma UnevenRuinUnderstated(b: seq<real>)
    requires Solvent(b) && b[|b| - 1] < 0.0 && exists i :: 0 <= i < |b| - 1 && b[i] != b[0]
    ensures !IsMaximumDrawdown(b, RunningDrawdown(b))
  {
    hide Loss, Peak, RunningDrawdown;
    var n, init := |b| - 1, b[..|b| - 1];
    RuinedRun(b);
    PeakFacts(init);
    assert forall k | 0 <= k < n :: init[k] == b[k];
    var i :| 0 <= i < n && b[i] != b[0];
    var low := if b[i] < Peak(b) then i else 0;
    assert b[low] < Peak(b);
    LossByPeak(b[low], Peak(b), b[n]);
    assert Loss(b[low], b[n]) > RunningDrawdown(b);
  }

  lemma EvenRuinIsMaximum(b: seq<real>)
    requires Solvent(b) && b[|b| - 1] < 0.0 && forall i | 0 <= i < |b| - 1 :: b[i] == b[0]
    ensures IsMaximumDrawdown(b, RunningDrawdown(b))
  {
    hide Loss, Peak, RunningDrawdown;
    var n, init := |b| - 1, b[..|b| - 1];
    RuinedRun(b);
    PeakFacts(init);
    assert forall k | 0 <= k < n :: init[k] == b[k];
    assert Peak(b) == b[0];
    forall k, m | 0 <= k <= m < |b| && b[k] > 0.0 ensures Loss(b[k], b[m]) <= RunningDrawdown(b) {
      if m < n { LossByPeak(b[k], b[k], b[m]); }
    }
  }

  /** Over any rows: the report's drawdown is the true one exactly when the final bankroll is not negative or every
      earlier bankroll equals the initial one. */
  lemma ReportedDrawdownExactly(rows: seq<Row>, initial: real, s: Settings)
    requires ValidRun(initial, s)
    ensures var b := Curve(initial, Simulate(rows, initial, s).trades);
            && Solvent(b)
            && (IsMaximumDrawdown(b, RunningDrawdown(b))
                <==> b[|b| - 1] >= 0.0 || forall i | 0 <= i < |b| - 1 :: b[i] == initial)
  {
    hide Judge, Mul, RunningDrawdown, IsMaximumDrawdown, Pnl;
    var b := Curve(initial, Simulate(rows, initial, s).trades);
    StopsAtFirstBreach(rows, initial, s);
    MulSign(initial, 1.0 - s.limits.maxDrawdown);
    DrawdownExactly(b);
  }

  // ---- which rows can ruin a run

  /** A row's price and fee leave room for the largest fraction of the bankroll that may be staked. */
  predicate CoversLoss(price: real, fees: FeeSchedule, s: Settings) {
    price > 0.0 && Mul(s.limits.maxTradeRisk, price + EstimatedFeePerShare(price, fees)) <= price
  }

  /** One trade, by its stake, price and fee: when it takes a bankroll below zero, exactly. */
  lemma OneTradeRuinsExactly(marketId: string, p: Pick, stake: real, fees: FeeSchedule, bankroll: real)
    requires 0.0 < p.price < 1.0
    ensures var f := EstimatedFeePerShare(p.price, fees);
            bankroll + Settle(marketId, p, stake, fees).pnl < 0.0
            <==> Mul(stake, if p.won then f - (1.0 - p.price) else p.price + f) > Mul(bankroll, p.price)
  {
    hide Mul, Div, EstimatedFeePerShare;
    var price, f, shares := p.price, EstimatedFeePerShare(p.price, fees), Div(stake, p.price);
    var z := if p.won then f - (1.0 - price) else price + f;
    DivMul(stake, price);
    MulDistrib(shares, price, f);
    MulDistrib(shares, f, 1.0 - price);
    assert Settle(marketId, p, stake, fees).pnl == -Mul(shares, z);
    // Both sides multiplied by the price, of which the shares are the quotient.
    MulAssoc(price, shares, z);
    MulComm(price, bankroll);
    if bankroll < Mul(shares, z) {
      MulStrict(bankroll, Mul(shares, z), price);
    } else {
      MulMonotone(Mul(shares, z), bankroll, price);
    }
  }

  lemma StakeWithinRisk(p: Pick, bankroll: real, s: Settings)
    requires p.price < 1.0
    ensures StakeOf(p, bankroll, s) <= Mul(bankroll, s.limits.maxTradeRisk)
  {
    hide Mul, Div;
  }

  /** A trade on a row that passes the guard leaves a positive bankroll non-negative. */
  lemma GuardedTradeIsSolvent(r: Row, bankroll: real, s: Settings)
    requires bankroll > 0.0 && Judge(r, bankroll, s).Traded? && CoversLoss(PickOf(r, s).value.price, r.fees, s)
    ensures bankroll + Judge(r, bankroll, s).trade.pnl >= 0.0
  {
    hide Mul, Div, EstimatedFeePerShare, StakeOf, Settle;
    var p := PickOf(r, s).value;
    var f, stake, risk := EstimatedFeePerShare(p.price, r.fees), StakeOf(p, bankroll, s), s.limits.maxTradeRisk;
    FeeNonnegative(p.price, r.fees);
    OneTradeRuinsExactly(r.marketId, p, stake, r.fees, bankroll);
    StakeWithinRisk(p, bankroll, s);
    MulMonotone(f - (1.0 - p.price), p.price + f, stake);
    MulMonotone(stake, Mul(bankroll, risk), p.price + f);
    MulAssoc(bankroll, risk, p.price + f);
    MulMonotone(Mul(risk, p.price + f), p.price, bankroll);
  }

  /** Where the risk fraction is the binding limit, a lost trade goes below zero exactly when the guard fails. */
  lemma UnguardedLossRuinsExactly(marketId: string, p: Pick, fees: FeeSchedule, bankroll: real, s: Settings)
    requires 0.0 < p.price < 1.0 && !p.won && bankroll > 0.0
    requires StakeOf(p, bankroll, s) == Mul(bankroll, s.limits.maxTradeRisk)
    ensures bankroll + Settle(marketId, p, StakeOf(p, bankroll, s), fees).pnl < 0.0 <==> !CoversLoss(p.price, fees, s)
  {
    hide Mul, Div, EstimatedFeePerShare, StakeOf, Settle;
    var f, risk := EstimatedFeePerShare(p.price, fees), s.limits.maxTradeRisk;
    OneTradeRuinsExactly(marketId, p, StakeOf(p, bankroll, s), fees, bankroll);
    MulAssoc(bankroll, risk, p.price + f);
    if Mul(risk, p.price + f) <= p.price {
      MulMonotone(Mul(risk, p.price + f), p.price, bankroll);
    } else {
      MulStrict(p.price, Mul(risk, p.price + f), bankroll);
    }
  }

  /** Every row that may be traded passes the guard. */
  predicate Guarded(rows: seq<Row>, s: Settings) {
    forall i | 0 <= i < |rows| && PickOf(rows[i], s).Some? ::
          CoversLoss(PickOf(rows[i], s).value.price, rows[i].fees, s)
  }

  lemma {:induction false} GuardedRunIsSolvent(rows: seq<Row>, initial: real, s: Settings)
    requires ValidRun(initial, s) && Guarded(rows, s)
    ensures initial + Pnl(Simulate(rows, initial, s).trades) >= 0.0
  {
    hide Judge, Mul, CoversLoss, PickOf, Pnl, Curve, Peak, RunningDrawdown;
    if rows == [] {
      StartOfRun(initial);
    } else {
      var init := rows[..|rows| - 1];
      var before := Simulate(init, initial, s);
      GuardedRunIsSolvent(init, initial, s);
      var r, bankroll := rows[|rows| - 1], initial + Pnl(before.trades);
      if !before.stopped && !before.raised && Judge(r, bankroll, s).Traded? {
        StillSolvent(init, initial, s);
        TradedHasPick(r, bankroll, s);
        GuardedTradeIsSolvent(r, bankroll, s);
        OneTradeMore(initial, before.trades, Judge(r, bankroll, s).trade);
      }
    }
  }

  lemma StillSolvent(rows: seq<Row>, initial: real, s: Settings)
    requires ValidRun(initial, s) && !Simulate(rows, initial, s).stopped
    ensures initial + Pnl(Simulate(rows, initial, s).trades) > 0.0
  {
    hide Judge, Mul, Simulate;
    StopsAtFirstBreach(rows, initial, s);
    MulSign(initial, 1.0 - s.limits.maxDrawdown);
  }

  lemma TradedHasPick(r: Row, bankroll: real, s: Settings)
    requires Judge(r, bankroll, s).Traded?
    ensures PickOf(r, s).Some?
  {}

  /** A guard on rows and settings alone under which the reported drawdown is the true maximum. */
  lemma GuardedDrawdownIsTrue(rows: seq<Row>, initial: real, s: Settings)
    requires ValidRun(initial, s) && Guarded(rows, s)
    ensures var b := Curve(initial, Simulate(rows, initial, s).trades); IsMaximumDrawdown(b, RunningDrawdown(b))
  {
    hide Simulate, Curve, RunningDrawdown, IsMaximumDrawdown, Guarded, Pnl;
    GuardedRunIsSolvent(rows, initial, s);
    ReportedDrawdownExactly(rows, initial, s);
  }

  const RUIN_SETTINGS := Settings(Limits(1.0, 1.0, 1.0, 1.0, 1.0, 1.0, 1.0, 0.0), 0.0, 0.0, 0.0, 1.0, 0.0, 0.0)
  const RUIN_FEES := FeeSchedule(true, 1.0, 1)
  const RUIN_ROW := Row("m", false, 0.5, 0.5, 2.0, 2.0, 1.0, 1.0, 1.0, 1.0, RUIN_FEES, 0.0)
  const RUIN_PICK := Pick(Yes, 0.5, 1.0, 2.0, false)

  /** The ruin is real: with the whole bankroll at risk, the fee of a lost trade takes the bankroll below zero. */
  lemma RuinHappens()
    ensures ValidRun(1.0, RUIN_SETTINGS) && ValidSettings(RUIN_SETTINGS)
    ensures var b := Curve(1.0, Simulate([RUIN_ROW], 1.0, RUIN_SETTINGS).trades); b[|b| - 1] < 0.0
  {
    hide Mul, Div, EstimatedFeePerShare, PickOf, StakeOf, Curve, StopLevel;
    var rows, t := [RUIN_ROW], Settle("m", RUIN_PICK, 1.0, RUIN_FEES);
    RuinPick();
    RuinStake();
    RuinFee();
    assert rows[..0] == [] && [] + [t] == [t];
    OneTradeMore(1.0, [], t);
    assert Simulate([], 1.0, RUIN_SETTINGS) == Simulation([], 0, false, false) && Pnl([]) == 0.0;
    assert Judge(RUIN_ROW, 1.0, RUIN_SETTINGS) == Traded(t);
  }

  lemma RuinPick()
    ensures PickOf(RUIN_ROW, RUIN_SETTINGS) == Some(RUIN_PICK)
  {}

  lemma RuinStake()
    ensures StakeOf(RUIN_PICK, 1.0, RUIN_SETTINGS) == 1.0
  {}

  lemma RuinFee()
    ensures Div(1.0, 0.5) == 2.0 && Mul(2.0, EstimatedFeePerShare(0.5, RUIN_FEES)) == 0.5
  {
    RuinFeePerShare();
  }

  const DEEP_SETTINGS := RUIN_SETTINGS.(limits := RUIN_SETTINGS.limits.(maxOrder := 10.0))
  const WON_ROW := RUIN_ROW.(resolvedYes := true)
  const WON_PICK := RUIN_PICK.(won := true)

  const WON := Settle("m", WON_PICK, 1.0, RUIN_FEES)
  const LOST := Settle("m", RUIN_PICK, 1.5, RUIN_FEES)

  /** A win and then a loss of more than everything: the fall from the peak is 1.5, the one from the start 1.75. */
  lemma RuinUnderstatesDrawdown() returns (rows: seq<Row>, s: Settings)
    ensures ValidRun(1.0, s) && ValidSettings(s) && |rows| == 2
    ensures var b := Curve(1.0, Simulate(rows, 1.0, s).trades);
            && b == [1.0, 1.5, -0.75] && RunningDrawdown(b) == 1.5 && Loss(b[0], b[2]) == 1.75
            && !IsMaximumDrawdown(b, RunningDrawdown(b))
  {
    hide Curve, RunningDrawdown, Simulate, Loss, IsMaximumDrawdown, Settle;
    rows, s := [WON_ROW, RUIN_ROW], DEEP_SETTINGS;
    FirstDeepTrade();
    SecondDeepTrade();
    DeepPnl();
    DeepLevel();
    TwoTrades(WON_ROW, RUIN_ROW, WON, LOST, 1.0, DEEP_SETTINGS);
    DeepCurve(WON, LOST);
    DeeperFall(Curve(1.0, [WON, LOST]), 1.5);
  }

  lemma TwoTrades(first: Row, second: Row, t: Trade, u: Trade, initial: real, s: Settings)
    requires Judge(first, initial, s) == Traded(t) && initial + t.pnl > StopLevel(initial, s)
    requires Judge(second, initial + t.pnl, s) == Traded(u)
    ensures Simulate([first, second], initial, s).trades == [t, u]
  {
    hide Judge, StopLevel;
    var rows := [first, second];
    assert rows[..1] == [first] && [first][..0] == [] && [] + [t] == [t] && [t] + [u] == [t, u] && [t][..0] == [];
    assert Pnl([t]) == t.pnl;
    assert Simulate([first], initial, s) == Simulation([t], 1, false, false);
  }

  lemma DeeperFall(b: seq<real>, d: real)
    requires |b| == 3 && b[0] > 0.0 && Loss(b[0], b[2]) > d
    ensures !IsMaximumDrawdown(b, d)
  {
    hide Loss;
  }

  lemma DeepCurve(won: Trade, lost: Trade)
    requires won.pnl == 0.5 && lost.pnl == -2.25
    ensures var b := Curve(1.0, [won, lost]);
            b == [1.0, 1.5, -0.75] && RunningDrawdown(b) == 1.5 && Loss(b[0], b[2]) == 1.75
  {
    hide Loss, Peak, RunningDrawdown, Curve, Pnl;
    DeepStart();
    OneTradeMore(1.0, [], won);
    assert [] + [won] == [won] && Curve(1.0, [won]) == [1.0, 1.5];
    OneTradeMore(1.0, [won], lost);
    assert [won] + [lost] == [won, lost] && Curve(1.0, [won, lost]) == [1.0, 1.5, -0.75];
  }

  lemma DeepStart()
    ensures Pnl([]) == 0.0 && Curve(1.0, []) == [1.0] && Peak([1.0]) == 1.0 && RunningDrawdown([1.0]) == 0.0
    ensures Loss(1.5, 1.5) == 0.0 && Loss(1.5, -0.75) == 1.5 && Loss(1.0, -0.75) == 1.75
  {}

  lemma DeepPnl()
    ensures WON.pnl == 0.5 && LOST.pnl == -2.25
  {
    hide EstimatedFeePerShare;
    RuinFeePerShare();
    assert Div(1.0, 0.5) == 2.0 && Mul(2.0, 0.25) == 0.5 && Mul(2.0, 0.5) == 1.0;
    assert Div(1.5, 0.5) == 3.0 && Mul(3.0, 0.25) == 0.75;
  }

  lemma RuinFeePerShare()
    ensures EstimatedFeePerShare(0.5, RUIN_FEES) == 0.25
  {
    assert Pow(0.25, 0) == 1.0;
    assert Pow(0.25, 1) == 0.25;
  }

  lemma DeepLevel()
    ensures StopLevel(1.0, DEEP_SETTINGS) == 0.0
  {
    assert Mul(1.0, 0.0) == 0.0;
  }

  lemma FirstDeepTrade()
    ensures Judge(WON_ROW, 1.0, DEEP_SETTINGS) == Traded(WON)
  {
    hide Settle, PickOf, StakeOf;
    FirstDeepPick();
    FirstDeepStake();
  }

  lemma SecondDeepTrade()
    ensures Judge(RUIN_ROW, 1.5, DEEP_SETTINGS) == Traded(LOST)
  {
    hide Settle, PickOf, StakeOf;
    SecondDeepPick();
    SecondDeepStake();
  }

  lemma FirstDeepPick()
    ensures PickOf(WON_ROW, DEEP_SETTINGS) == Some(WON_PICK)
  {}

  lemma SecondDeepPick()
    ensures PickOf(RUIN_ROW, DEEP_SETTINGS) == Some(RUIN_PICK)
  {}

  lemma WholeStakes()
    ensures Div(0.5, 0.5) == 1.0 && Mul(1.0, 1.0) == 1.0 && Mul(1.5, 1.0) == 1.5
  {}

  lemma FirstDeepStake()
    ensures StakeOf(WON_PICK, 1.0, DEEP_SETTINGS) == 1.0
  {
    hide Mul, Div;
    WholeStakes();
  }

  lemma SecondDeepStake()
    ensures StakeOf(RUIN_PICK, 1.5, DEEP_SETTINGS) == 1.5
  {
    hide Mul, Div;
    WholeStakes();
  }

  const MISSED_ROW := RUIN_ROW.(probability := 0.5)

  /** A run that stops at its first row reports less than the Brier score of its two rows. */
  lemma EarlyStopUnderstatesBrier(r: Report)
    requires ReportOf(r, Simulate([RUIN_ROW, MISSED_ROW], 1.0, RUIN_SETTINGS), [RUIN_ROW, MISSED_ROW], 1.0)
    ensures r.brier < MeanSquaredError([RUIN_ROW, MISSED_ROW])
  {
    hide Mul, Div, MeanSquaredError, ReportOf, Judge, Curve;
    var rows := [RUIN_ROW, MISSED_ROW];
    RuinHappens();
    StopsAtFirstBreach([RUIN_ROW], 1.0, RUIN_SETTINGS);
    RuinStops();
    assert rows[..1] == [RUIN_ROW];
    SimulationSettled(rows, 1, 1.0, RUIN_SETTINGS);
    BrierExactly(r, rows, 1.0, RUIN_SETTINGS);
    assert Miss(rows[1]) == 0.5;
  }

  lemma RuinStops()
    ensures Simulate([RUIN_ROW], 1.0, RUIN_SETTINGS).processed <= 1 && StopLevel(1.0, RUIN_SETTINGS) == 0.0
  {
    assert Mul(1.0, 0.0) == 0.0;
  }
}
