/** What the calls of one cycle answer, and what follows from those answers for its AI budget (engine.py). */
module CyclePlan {
  import opened Modes
  import opened Fees
  import opened OrderBook
  import opened Wrappers
  import opened Portfolio
  import opened IntentLog
  import R = Risk
  import S = Strategy

  /** What a cycle's calls answer while one candidate is executed; None is a call that raised. */
  datatype ExecReplies = ExecReplies(decisionSaved: bool, guard: Option<bool>, sent: bool, recorded: bool)

  /** The decimal text of an intent's price and size. */
  datatype Text = Text(price: string, size: string)

  /** What a cycle's calls answer while one market is processed. */
  datatype MarketReplies = MarketReplies(
    market: Market, tokensPresent: bool, quarantined: bool,
    firstBooks: Option<(Book, Book)>, firstPortfolio: Option<PortfolioState>, firstAt: Instant,
    recentForecast: Option<bool>, budget: Option<bool>, evidence: Option<bool>,
    forecast: Option<(string, Forecast)>, forecastSaved: bool, citedEnough: bool,
    secondBooks: Option<(Book, Book)>, secondPortfolio: Option<PortfolioState>, secondAt: Instant,
    exitKey: string, exitText: Text, entryText: Text, exitExec: ExecReplies, entryExec: ExecReplies)

  ghost predicate ValidBooks(b: Option<(Book, Book)>) {
    b.Some? ==> ValidSnapshot(b.value.0) && ValidSnapshot(b.value.1)
  }

  ghost predicate ValidReplies(r: MarketReplies) {
    && ValidMarket(r.market) && ValidBooks(r.firstBooks) && ValidBooks(r.secondBooks)
    && (r.forecast.Some? ==> ValidForecast(r.forecast.value.1))
  }

  /** A listed market: whether a position is held there, and whether the candidate filter lets it through. */
  datatype Listed = Listed(replies: MarketReplies, held: bool, allowed: bool)

  datatype CycleReplies = CycleReplies(
    healthy: bool, start: Option<PortfolioState>, cancelVerified: Option<bool>, refreshed: Option<PortfolioState>,
    markets: Option<seq<Listed>>, stopPersisted: bool)

  ghost predicate AllValid(plan: seq<Listed>) { forall i | 0 <= i < |plan| :: ValidReplies(plan[i].replies) }

  ghost predicate ValidCycle(c: CycleReplies) { c.markets.Some? ==> AllValid(c.markets.value) }

  /** Held markets survive the filter, reduce-only; in a hard stop nothing else is visited. */
  function Narrow(markets: seq<Listed>, hardBreach: bool): (r: seq<Listed>)
    ensures forall l | l in r :: l in markets && (l.allowed || l.held) && (hardBreach ==> l.held)
  {
    if markets == [] then [] else IfKept(markets[0], hardBreach) + Narrow(markets[1..], hardBreach)
  }

  function IfKept(l: Listed, hardBreach: bool): seq<Listed> {
    if (l.allowed || l.held) && (hardBreach ==> l.held) then [l] else []
  }

  /** Exactly those markets, each as often and in the order it is listed. */
  lemma NarrowExactly(markets: seq<Listed>, more: seq<Listed>, hardBreach: bool)
    ensures forall l :: l in Narrow(markets, hardBreach)
                        <==> l in markets && (l.allowed || l.held) && (hardBreach ==> l.held)
    ensures Narrow(markets + more, hardBreach) == Narrow(markets, hardBreach) + Narrow(more, hardBreach)
  {
    forall l | l in markets && (l.allowed || l.held) && (hardBreach ==> l.held)
      ensures l in Narrow(markets, hardBreach)
    {
      NarrowKeeps(markets, hardBreach, l);
    }
    NarrowJoins(markets, more, hardBreach);
  }

  lemma {:induction false} NarrowKeeps(markets: seq<Listed>, hardBreach: bool, l: Listed)
    requires l in markets && (l.allowed || l.held) && (hardBreach ==> l.held)
    ensures l in Narrow(markets, hardBreach)
  {
    if l != markets[0] { NarrowKeeps(markets[1..], hardBreach, l); }
  }

  lemma {:induction false} NarrowJoins(markets: seq<Listed>, more: seq<Listed>, hardBreach: bool)
    ensures Narrow(markets + more, hardBreach) == Narrow(markets, hardBreach) + Narrow(more, hardBreach)
  {
    hide IfKept;
    if markets == [] {
      assert markets + more == more;
    } else {
      assert (markets + more)[1..] == markets[1..] + more;
      NarrowJoins(markets[1..], more, hardBreach);
    }
  }

  lemma NarrowKeepsValid(markets: seq<Listed>, hardBreach: bool)
    requires AllValid(markets)
    ensures AllValid(Narrow(markets, hardBreach))
  {
    var r := Narrow(markets, hardBreach);
    forall i | 0 <= i < |r| ensures ValidReplies(r[i].replies) {
      assert r[i] in r;
    }
  }

  // ---------------------------------------------------------------- how far one market gets

  datatype Checkpoint = Passed(portfolio: PortfolioState) | Unavailable | MustStop

  /** Real money needs a complete and unbroken portfolio; anything else stops the cycle. */
  function CheckpointOf(reply: Option<PortfolioState>, mode: Mode, s: Settings): Checkpoint {
    if !RealMoney(mode) then if reply.None? then Unavailable else Passed(reply.value)
    else if reply.None? then MustStop
    else if reply.value.equity.None? || reply.value.dayStartEquity.None? || reply.value.peakEquity.None? then MustStop
    else if S.HardRiskBreached(reply.value, s) then MustStop else Passed(reply.value)
  }

  predicate Tradeable(r: MarketReplies) {
    r.market.active && !r.market.closed && r.market.acceptingOrders && r.tokensPresent && !r.quarantined
  }

  /** Where a market ends up before any AI is paid for: Asks is the step that reserves budget. */
  datatype Reach = Skipped | Fails | Stops | Exits(candidate: Candidate) | Asks

  function ReachOf(r: MarketReplies, mode: Mode, s: Settings): Reach
    requires ValidMarket(r.market) && ValidBooks(r.firstBooks)
  {
    var check := CheckpointOf(r.firstPortfolio, mode, s);
    if !Tradeable(r) then Skipped
    else if r.firstBooks.None? || check.Unavailable? then Fails
    else if check.MustStop? then Stops
    else
      var yes, no := r.firstBooks.value.0, r.firstBooks.value.1;
      var exit := S.ChooseRiskExit(r.market, yes, no, check.portfolio, s);
      if exit.Some? then Exits(exit.value)
      else if r.market.liquidity < s.minLiquidity then Skipped
      else if r.recentForecast.None? then Fails
      else if r.recentForecast.value || BestQuote(yes.asks, false).None? || BestQuote(no.asks, false).None? then Skipped
      else Asks
  }

  /** Real money must not go on with this portfolio: it is missing, incomplete, or in a hard breach. */
  predicate Unsafe(p: Option<PortfolioState>, mode: Mode, s: Settings) {
    RealMoney(mode)
    && (p.None? || p.value.equity.None? || p.value.dayStartEquity.None? || p.value.peakEquity.None?
        || S.HardRiskBreached(p.value, s))
  }

  /** How far a market gets, in terms of its replies: a stop, a risk exit, or the AI budget. */
  lemma ReachExactly(r: MarketReplies, mode: Mode, s: Settings)
    requires ValidMarket(r.market) && ValidBooks(r.firstBooks)
    ensures var open := r.market.active && !r.market.closed && r.market.acceptingOrders && r.tokensPresent
                        && !r.quarantined && r.firstBooks.Some?;
            var reach := ReachOf(r, mode, s);
            && (reach.Stops? <==> open && Unsafe(r.firstPortfolio, mode, s))
            && (reach.Exits? <==>
                  open && !Unsafe(r.firstPortfolio, mode, s) && r.firstPortfolio.Some?
                  && S.ChooseRiskExit(r.market, r.firstBooks.value.0, r.firstBooks.value.1, r.firstPortfolio.value,
                                      s).Some?)
            && (reach.Asks? <==>
                  open && !Unsafe(r.firstPortfolio, mode, s) && r.firstPortfolio.Some?
                  && S.ChooseRiskExit(r.market, r.firstBooks.value.0, r.firstBooks.value.1, r.firstPortfolio.value,
                                      s).None?
                  && r.market.liquidity >= s.minLiquidity && r.recentForecast == Some(false)
                  && r.firstBooks.value.0.asks != [] && r.firstBooks.value.1.asks != [])
  {
    hide S.ChooseRiskExit, S.HardRiskBreached;
  }

  // ---------------------------------------------------------------- what one market executes

  /** What a trading engine is set up with. */
  datatype Terms = Terms(account: string, mode: Mode, settings: Settings, cap: nat)

  function BookFor(c: Candidate, books: (Book, Book)): Book {
    if c.tokenId == books.0.tokenId then books.0 else books.1
  }

  function KeyOf(c: Candidate, text: Text, forecastId: Option<string>, decisionKey: Option<string>,
                 t: Terms): IntentKey {
    IntentKey(t.account, t.mode, c.marketId, c.tokenId, c.outcome, c.side, text.price, text.size, c.strategy,
              forecastId, decisionKey)
  }

  /** A candidate with its intent and everything its gate looks at. */
  datatype Order = Order(
    key: IntentKey, candidate: Candidate, book: Book, portfolio: PortfolioState, at: Instant, exec: ExecReplies)

  /** What the intent store answered: a new intent, a known one, nothing because the call raised;
      or it was not asked. */
  datatype StoreAnswer = NotAsked | Inserted | Duplicate | Unanswered

  ghost predicate Approves(o: Order, m: Market, s: Settings) {
    o.book.tickSize > 0.0 && R.Approved(o.candidate, m, o.book, o.portfolio, s, o.at)
  }

  /** The order gets as far as the intent store. */
  ghost predicate AsksStore(o: Order, m: Market, s: Settings) {
    o.exec.decisionSaved && Approves(o, m, s) && o.exec.guard == Some(true)
  }

  ghost predicate ExecutionRaises(o: Order, m: Market, answer: StoreAnswer, s: Settings) {
    || !o.exec.decisionSaved
    || (Approves(o, m, s) && o.exec.guard.None?)
    || (AsksStore(o, m, s) && (answer.Unanswered? || (answer.Inserted? && (!o.exec.sent || !o.exec.recorded))))
  }

  /** The risk exit of a held market, on the books and the portfolio of its first checkpoint. */
  function ExitOrder(r: MarketReplies, c: Candidate, p: PortfolioState, t: Terms): Order
    requires r.firstBooks.Some?
  {
    Order(KeyOf(c, r.exitText, None, Some(r.exitKey), t), c, BookFor(c, r.firstBooks.value), p, r.firstAt, r.exitExec)
  }

  /** The entry or value exit chosen after a forecast, on repriced books and a refreshed portfolio. */
  function EntryOrder(r: MarketReplies, c: Candidate, p: PortfolioState, t: Terms): Order
    requires r.forecast.Some? && r.secondBooks.Some?
  {
    Order(KeyOf(c, r.entryText, Some(r.forecast.value.0), None, t), c, BookFor(c, r.secondBooks.value), p, r.secondAt,
          r.entryExec)
  }

  /** The AI answers, and in real money on enough distinct and cited sources. */
  predicate Forecasts(r: MarketReplies, mode: Mode) {
    && r.evidence.Some? && (RealMoney(mode) ==> r.evidence.value) && r.forecast.Some? && r.forecastSaved
    && (RealMoney(mode) ==> r.citedEnough)
  }

  ghost function Chosen(r: MarketReplies, t: Terms): Option<Order>
    requires ValidReplies(r)
  {
    var check := CheckpointOf(r.secondPortfolio, t.mode, t.settings);
    if !Forecasts(r, t.mode) || r.secondBooks.None? || !check.Passed? then None
    else
      var books := r.secondBooks.value;
      var c := S.Choose(r.market, r.forecast.value.1, books.0, books.1, check.portfolio, t.settings);
      if c.None? then None else Some(EntryOrder(r, c.value, check.portfolio, t))
  }

  /** What a visit executes: the risk exit before any AI, or what is chosen once budget was reserved. */
  ghost function OrderOf(r: MarketReplies, reserved: bool, t: Terms): Option<Order>
    requires ValidReplies(r)
  {
    var reach := ReachOf(r, t.mode, t.settings);
    if reach.Exits? then Some(ExitOrder(r, reach.candidate, r.firstPortfolio.value, t))
    else if reserved then Chosen(r, t) else None
  }

  /** How a market that reserved AI budget ends: within the cap's count, failing outside it, or stopping the cycle. */
  datatype Fate = Counted | Uncounted | Halted

  ghost function FateOf(r: MarketReplies, answer: StoreAnswer, t: Terms): Fate
    requires ValidReplies(r)
  {
    var check := CheckpointOf(r.secondPortfolio, t.mode, t.settings);
    if !Forecasts(r, t.mode) then Counted
    else if r.secondBooks.None? || check.Unavailable? then Uncounted
    else if check.MustStop? then Halted
    else
      var order := Chosen(r, t);
      if order.Some? && ExecutionRaises(order.value, r.market, answer, t.settings) then Uncounted else Counted
  }

  /** How a market that reserved AI budget ends, in terms of its replies. */
  lemma FateExactly(r: MarketReplies, answer: StoreAnswer, t: Terms)
    requires ValidReplies(r)
    ensures var forecast := r.evidence.Some? && r.forecast.Some? && r.forecastSaved
                            && (RealMoney(t.mode) ==> r.evidence.value && r.citedEnough);
            var repriced := forecast && r.secondBooks.Some? && r.secondPortfolio.Some?
                            && !Unsafe(r.secondPortfolio, t.mode, t.settings);
            var fate := FateOf(r, answer, t);
            && (fate.Halted? <==> forecast && r.secondBooks.Some? && Unsafe(r.secondPortfolio, t.mode, t.settings))
            && (fate.Uncounted? <==>
                  || (forecast && r.secondBooks.None?)
                  || (forecast && r.secondPortfolio.None? && !RealMoney(t.mode))
                  || (repriced && Chosen(r, t).Some?
                      && ExecutionRaises(Chosen(r, t).value, r.market, answer, t.settings)))
            && (Chosen(r, t).Some? <==>
                  repriced && S.Choose(r.market, r.forecast.value.1, r.secondBooks.value.0, r.secondBooks.value.1,
                                       r.secondPortfolio.value, t.settings).Some?)
  {
    hide S.Choose, S.HardRiskBreached, ExecutionRaises, ValidSnapshot;
  }

  /** An execution raises at the first of its calls that does: the decision is not saved, the guard of an approved
      candidate raises, the store raises behind an open guard, or the order of an inserted intent is
      not sent or recorded. */
  lemma RaisesExactly(o: Order, m: Market, answer: StoreAnswer, s: Settings)
    requires o.book.tickSize > 0.0
    ensures ExecutionRaises(o, m, answer, s) <==>
              || !o.exec.decisionSaved
              || (R.Approved(o.candidate, m, o.book, o.portfolio, s, o.at)
                  && (o.exec.guard.None?
                      || (o.exec.guard.value
                          && (answer.Unanswered? || (answer.Inserted? && !(o.exec.sent && o.exec.recorded))))))
  {
    hide R.Approved;
  }

  /** Two intents have the same key exactly when account, mode, market, token, outcome, side, price and size text,
      strategy, forecast and decision key are all the same. */
  lemma KeySeparates(c: Candidate, x: Text, f: Option<string>, k: Option<string>, t: Terms,
                     d: Candidate, y: Text, g: Option<string>, l: Option<string>, u: Terms)
    ensures KeyOf(c, x, f, k, t) == KeyOf(d, y, g, l, u) <==>
              && t.account == u.account && t.mode == u.mode && c.marketId == d.marketId && c.tokenId == d.tokenId
              && c.outcome == d.outcome && c.side == d.side && x.price == y.price && x.size == y.size
              && c.strategy == d.strategy && f == g && k == l
  {}

  ghost predicate DistinctTokens(books: Option<(Book, Book)>) {
    books.Some? ==> books.value.0.tokenId != books.value.1.tokenId
  }

  /** The book of the candidate's outcome, out of a pair that lists YES first. */
  ghost predicate BookOfOutcome(o: Order, books: (Book, Book)) {
    o.book == if o.candidate.outcome == Yes then books.0 else books.1
  }

  /** AGREEMENT AT THE GATE. Whatever a visit executes reaches the gate with the book of its own token and outcome, out
      of the books it was sized on and with that portfolio, and the gate on this book agrees with its size and price. A
      risk exit goes by the first checkpoint, anything else by the one after the forecast. */
  lemma OrderReachesItsOwnBook(r: MarketReplies, reserved: bool, t: Terms)
    requires ValidReplies(r) && ValidSettings(t.settings) && OrderOf(r, reserved, t).Some?
    requires DistinctTokens(r.firstBooks) && DistinctTokens(r.secondBooks)
    ensures var o := OrderOf(r, reserved, t).value;
            && o.book.tickSize > 0.0 && o.book.tokenId == o.candidate.tokenId && o.candidate.marketId == r.market.id
            && S.GateAgrees(o.candidate, r.market, o.book, o.portfolio, t.settings, o.at)
            && (o.candidate.strategy == RiskExit ==>
                  && r.firstBooks.Some? && BookOfOutcome(o, r.firstBooks.value) && r.firstPortfolio == Some(o.portfolio)
                  && o.at == r.firstAt && o.exec == r.exitExec && S.HardRiskBreached(o.portfolio, t.settings)
                  && o.key == KeyOf(o.candidate, r.exitText, None, Some(r.exitKey), t))
            && (o.candidate.strategy != RiskExit ==>
                  && reserved && r.forecast.Some?
                  && r.secondBooks.Some? && BookOfOutcome(o, r.secondBooks.value)
                     && r.secondPortfolio == Some(o.portfolio)
                  && o.at == r.secondAt && o.exec == r.entryExec
                  && o.key == KeyOf(o.candidate, r.entryText, Some(r.forecast.value.0), None, t))
  {
    hide S.Choose, S.ChooseRiskExit, S.HardRiskBreached, S.GateAgrees, KeyOf, ValidSnapshot, ValidForecast, ValidMarket;
    var reach := ReachOf(r, t.mode, t.settings);
    if reach.Exits? {
      ExitAgrees(r.market, r.firstBooks.value, r.firstPortfolio.value, t.settings, r.firstAt);
    } else {
      var books := r.secondBooks.value;
      EntryAgrees(r.market, r.forecast.value.1, books, r.secondPortfolio.value, t.settings, r.secondAt);
    }
  }

  /** One of the two books, by outcome, and found again by its token. */
  ghost predicate Fits(c: Candidate, m: Market, books: (Book, Book), p: PortfolioState, s: Settings, now: Instant)
    requires ValidSnapshot(books.0) && ValidSnapshot(books.1)
  {
    var b := if c.outcome == Yes then books.0 else books.1;
    b.tickSize > 0.0 && BookFor(c, books) == b && c.tokenId == b.tokenId && c.marketId == m.id
        && S.GateAgrees(c, m, b, p, s, now)
  }

  lemma ExitAgrees(m: Market, books: (Book, Book), p: PortfolioState, s: Settings, now: Instant)
    requires ValidSnapshot(books.0) && ValidSnapshot(books.1) && ValidMarket(m) && ValidSettings(s)
    requires books.0.tokenId != books.1.tokenId && S.ChooseRiskExit(m, books.0, books.1, p, s).Some?
    ensures var c := S.ChooseRiskExit(m, books.0, books.1, p, s).value;
            Fits(c, m, books, p, s, now) && c.strategy == RiskExit && S.HardRiskBreached(p, s)
  {
    hide S.ChooseRiskExit, S.HardRiskBreached, R.Draws, MinimumSize;
    S.RiskExitOnlyUnderBreach(m, books.0, books.1, p, s);
    var c := S.ChooseRiskExit(m, books.0, books.1, p, s).value;
    S.ExitNeverDrawsSizingCodes(c, m, if c.outcome == Yes then books.0 else books.1, p, s, now);
  }

  lemma EntryAgrees(m: Market, f: Forecast, books: (Book, Book), p: PortfolioState, s: Settings, now: Instant)
    requires ValidSnapshot(books.0) && ValidSnapshot(books.1) && ValidMarket(m) && ValidSettings(s) && ValidForecast(f)
    requires books.0.tokenId != books.1.tokenId && S.Choose(m, f, books.0, books.1, p, s).Some?
    ensures var c := S.Choose(m, f, books.0, books.1, p, s).value;
            Fits(c, m, books, p, s, now) && c.strategy == AiValue
  {
    hide S.Choose, R.Draws, MinimumSize, ValidCandidate;
    S.ChosenAgreesWithGate(m, f, books.0, books.1, p, s, now);
    S.ChosenForItsMarket(m, f, books.0, books.1, p, s);
  }

  /** A breach seen at the market's own first checkpoint: it still reaches the AI budget exactly outside real money
      and when neither held side can be sold off, all the other screens passing. */
  lemma BreachedMarketAsksExactly(r: MarketReplies, mode: Mode, s: Settings)
    requires ValidMarket(r.market) && ValidBooks(r.firstBooks) && Tradeable(r) && r.firstBooks.Some?
    requires r.firstPortfolio.Some? && S.HardRiskBreached(r.firstPortfolio.value, s)
    requires r.market.liquidity >= s.minLiquidity && r.recentForecast == Some(false)
    requires r.firstBooks.value.0.asks != [] && r.firstBooks.value.1.asks != []
    ensures ReachOf(r, mode, s).Asks?
            <==> (!RealMoney(mode)
                  && S.RiskExitCandidate(r.market, r.firstBooks.value.0, Yes, r.firstPortfolio.value, s).None?
                  && S.RiskExitCandidate(r.market, r.firstBooks.value.1, No, r.firstPortfolio.value, s).None?)
  {
    hide S.RiskExitCandidate, S.HardRiskBreached;
  }

  // ---------------------------------------------------------------- the course of a cycle

  function CountedIn(fates: seq<Fate>): nat {
    if fates == [] then 0 else CountedIn(fates[..|fates| - 1]) + if fates[|fates| - 1].Counted? then 1 else 0
  }

  /** How far a cycle has come: the reservations it made, the intents it submitted, whether the budget refused, and
      whether it stopped. */
  datatype Course = Course(made: seq<Fate>, sent: seq<IntentKey>, blocked: bool, stopped: bool)

  /** The next market gets to the AI budget: allowed to, below the cap, and not refused before. */
  ghost predicate MayReserve(before: Course, l: Listed, mayAsk: bool, t: Terms)
    requires ValidReplies(l.replies)
  {
    && !before.stopped && !before.blocked && mayAsk && l.allowed && CountedIn(before.made) < t.cap
    && ReachOf(l.replies, t.mode, t.settings).Asks?
  }

  ghost function NextOrder(before: Course, l: Listed, mayAsk: bool, t: Terms): Option<Order>
    requires ValidReplies(l.replies)
  {
    if before.stopped then None
    else OrderOf(l.replies, MayReserve(before, l, mayAsk, t) && l.replies.budget == Some(true), t)
  }

  /** The keys an answer lets through. */
  function Sent(order: Option<Order>, answer: StoreAnswer): seq<IntentKey> {
    if order.Some? && answer.Inserted? then [order.value.key] else []
  }

  /** One more market. A stop ends the cycle, at its first checkpoint or after the forecast. */
  ghost function CourseAfter(before: Course, l: Listed, answer: StoreAnswer, mayAsk: bool, t: Terms): Course
    requires ValidReplies(l.replies)
  {
    var now := before.(sent := before.sent + Sent(NextOrder(before, l, mayAsk, t), answer));
    if before.stopped then before
    else if ReachOf(l.replies, t.mode, t.settings).Stops? then now.(stopped := true)
    else if !MayReserve(before, l, mayAsk, t) then now
    else if l.replies.budget != Some(true) then now.(blocked := true)
    else
      var fate := FateOf(l.replies, answer, t);
      now.(made := before.made + [fate], stopped := fate.Halted?)
  }

  ghost function CourseOf(plan: seq<Listed>, answers: seq<StoreAnswer>, mayAsk: bool, t: Terms): Course
    requires AllValid(plan) && |answers| == |plan|
  {
    if plan == [] then Course([], [], false, false)
    else
      var n := |plan| - 1;
      CourseAfter(CourseOf(plan[..n], answers[..n], mayAsk, t), plan[n], answers[n], mayAsk, t)
  }

  lemma CourseNext(plan: seq<Listed>, i: nat, answers: seq<StoreAnswer>, answer: StoreAnswer, mayAsk: bool, t: Terms)
    requires AllValid(plan) && i < |plan| && |answers| == i
    ensures CourseOf(plan[..i + 1], answers + [answer], mayAsk, t)
            == CourseAfter(CourseOf(plan[..i], answers, mayAsk, t), plan[i], answer, mayAsk, t)
  {
    hide ValidReplies, CourseAfter;
    assert plan[..i + 1][..i] == plan[..i] && (answers + [answer])[..i] == answers;
  }

  /** A stopped cycle stays stopped, whatever the later markets would have answered. */
  lemma {:induction false} StoppedStays(plan: seq<Listed>, answers: seq<StoreAnswer>, n: nat, mayAsk: bool, t: Terms)
    requires AllValid(plan) && |answers| == |plan| && n <= |plan|
    requires CourseOf(plan[..n], answers[..n], mayAsk, t).stopped
    ensures CourseOf(plan, answers, mayAsk, t) == CourseOf(plan[..n], answers[..n], mayAsk, t)
  {
    hide ValidReplies, ReachOf, FateOf, NextOrder, MayReserve;
    if n < |plan| {
      var m := |plan| - 1;
      assert plan[..m][..n] == plan[..n] && answers[..m][..n] == answers[..n];
      StoppedStays(plan[..m], answers[..m], n, mayAsk, t);
    } else {
      assert plan[..n] == plan && answers[..n] == answers;
    }
  }

  /** Once the budget was refused, nobody reserves any more. */
  lemma {:induction false} RefusedStays(plan: seq<Listed>, answers: seq<StoreAnswer>, n: nat, mayAsk: bool, t: Terms)
    requires AllValid(plan) && |answers| == |plan| && n <= |plan|
    requires CourseOf(plan[..n], answers[..n], mayAsk, t).blocked
    ensures var course := CourseOf(plan, answers, mayAsk, t);
            course.blocked && course.made == CourseOf(plan[..n], answers[..n], mayAsk, t).made
  {
    hide ValidReplies, ReachOf, FateOf, NextOrder;
    if n < |plan| {
      var m := |plan| - 1;
      assert plan[..m][..n] == plan[..n] && answers[..m][..n] == answers[..n];
      RefusedStays(plan[..m], answers[..m], n, mayAsk, t);
    } else {
      assert plan[..n] == plan && answers[..n] == answers;
    }
  }

  /** The calls of the store that raised. */
  function RaisedIn(answers: seq<StoreAnswer>): nat {
    if answers == [] then 0
    else RaisedIn(answers[..|answers| - 1]) + if answers[|answers| - 1].Unanswered? then 1 else 0
  }

  // ---------------------------------------------------------------- the cap on AI markets

  /** The reservations the replies of a plan would lead to without a cap, in order, and whether there can be more. */
  datatype Demand = Demand(fates: seq<Fate>, closed: bool)

  /** One more market: after a stop or a refused budget nobody reserves any more. */
  ghost function DemandAfter(before: Demand, l: Listed, answer: StoreAnswer, t: Terms): Demand
    requires ValidReplies(l.replies)
  {
    var reach := ReachOf(l.replies, t.mode, t.settings);
    if before.closed then before
    else if reach.Stops? then before.(closed := true)
    else if !l.allowed || !reach.Asks? then before
    else if l.replies.budget != Some(true) then before.(closed := true)
    else
      var fate := FateOf(l.replies, answer, t);
      Demand(before.fates + [fate], fate.Halted?)
  }

  ghost function DemandOf(plan: seq<Listed>, answers: seq<StoreAnswer>, t: Terms): Demand
    requires AllValid(plan) && |answers| == |plan|
  {
    if plan == [] then Demand([], false)
    else
      var n := |plan| - 1;
      DemandAfter(DemandOf(plan[..n], answers[..n], t), plan[n], answers[n], t)
  }

  /** The reservations actually made: the cap closes once as many were counted. */
  function Attempts(fates: seq<Fate>, cap: nat): nat {
    if fates == [] then 0
    else Attempts(fates[..|fates| - 1], cap) + if CountedIn(fates[..|fates| - 1]) < cap then 1 else 0
  }

  lemma OneMoreFate(fates: seq<Fate>, fate: Fate, cap: nat)
    ensures CountedIn(fates + [fate]) == CountedIn(fates) + if fate.Counted? then 1 else 0
    ensures Attempts(fates + [fate], cap) == Attempts(fates, cap) + if CountedIn(fates) < cap then 1 else 0
  {
    assert (fates + [fate])[..|fates|] == fates;
  }

  lemma {:induction false} CountedBound(fates: seq<Fate>)
    ensures CountedIn(fates) <= |fates|
    ensures CountedIn(fates) == |fates| <==> forall i | 0 <= i < |fates| :: fates[i].Counted?
  {
    if fates != [] { CountedBound(fates[..|fates| - 1]); }
  }

  lemma {:induction false} AttemptsWithinCap(fates: seq<Fate>, cap: nat)
    requires |fates| <= cap
    ensures Attempts(fates, cap) == |fates|
  {
    if fates != [] {
      AttemptsWithinCap(fates[..|fates| - 1], cap);
      CountedBound(fates[..|fates| - 1]);
    }
  }

  lemma {:induction false} CountedGrows(fates: seq<Fate>, n: nat, cap: nat)
    requires n <= |fates|
    ensures CountedIn(fates[..n]) <= CountedIn(fates) && Attempts(fates[..n], cap) <= Attempts(fates, cap)
    ensures CountedIn(fates[..n]) >= cap ==> Attempts(fates[..n], cap) == Attempts(fates, cap)
  {
    if n < |fates| {
      var init := fates[..|fates| - 1];
      CountedGrows(init, n, cap);
      assert init[..n] == fates[..n];
    } else {
      assert fates[..n] == fates;
    }
  }

  /** More reservations are wanted than the cap allows, and one of the first `cap` of them escapes its count. */
  ghost predicate Overruns(fates: seq<Fate>, cap: nat) {
    |fates| > cap && exists i :: 0 <= i < cap && !fates[i].Counted?
  }

  /** EXACTNESS. The cap on AI markets holds unless a reservation among the first `cap` fails and
      another follows them. */
  lemma CapHoldsExactly(fates: seq<Fate>, cap: nat)
    ensures Attempts(fates, cap) <= cap <==> !Overruns(fates, cap)
  {
    if |fates| <= cap {
      AttemptsWithinCap(fates, cap);
    } else {
      var first, more := fates[..cap], fates[..cap + 1];
      AttemptsWithinCap(first, cap);
      CountedBound(first);
      CountedGrows(fates, cap, cap);
      CountedGrows(fates, cap + 1, cap);
      assert more[..cap] == first;
      assert CountedIn(first) < cap <==> Overruns(fates, cap) by {
        assert forall i | 0 <= i < cap :: first[i] == fates[i];
      }
    }
  }

  /** A cycle free to use AI makes the reservations of the uncapped demand, as many as the cap lets through. */
  lemma {:induction false} CourseIsCappedDemand(plan: seq<Listed>, answers: seq<StoreAnswer>, t: Terms)
    requires AllValid(plan) && |answers| == |plan|
    ensures |CourseOf(plan, answers, true, t).made| == Attempts(DemandOf(plan, answers, t).fates, t.cap)
    ensures var demand, course := DemandOf(plan, answers, t), CourseOf(plan, answers, true, t);
            if CountedIn(demand.fates) < t.cap
            then course.made == demand.fates && (demand.closed <==> course.blocked || course.stopped)
            else CountedIn(course.made) >= t.cap
  {
    hide ValidReplies, ReachOf, FateOf, NextOrder;
    if plan != [] {
      var n := |plan| - 1;
      CourseIsCappedDemand(plan[..n], answers[..n], t);
      var demand, course := DemandOf(plan[..n], answers[..n], t), CourseOf(plan[..n], answers[..n], true, t);
      var fate := FateOf(plan[n].replies, answers[n], t);
      OneMoreFate(demand.fates, fate, t.cap);
      OneMoreFate(course.made, fate, t.cap);
    }
  }

  // ---------------------------------------------------------------- concrete replies

  const CALM := PortfolioState(100.0, 100.0, 0.0, map[], map[], map[], 0.0, None, None, None)
  const BROKEN := CALM.(realizedToday := -60.0)
  const HALF := Settings(Limits(5.0, 0.5, 0.5, 0.5, 0.5, 0.5, 0.5, 0.01), 0.0, 60.0, 60.0, 0.25, 0.01, 0.5)
  const QUIET := Book("token", [], [Level(0.5, 10.0)], 0.01, 1.0, 0.0)
  const NEVER := ExecReplies(true, Some(false), true, true)

  /** A market that reaches the AI budget, gets a forecast, and then cannot be repriced. */
  function Failing(id: string, p: PortfolioState): MarketReplies {
    MarketReplies(Market(id, None, "", true, false, true, 10.0, 1.0, None, FeeSchedule(false, 0.0, 1)), true, false,
                  Some((QUIET, QUIET)), Some(p), 0.0, Some(false), Some(true), Some(true),
                  Some(("forecast", Forecast(0.5, 0.5, 0.5, 1.0))), true, true, None, None, 0.0,
                  "", Text("", ""), Text("", ""), NEVER, NEVER)
  }

  lemma FailingIsValid(id: string, p: PortfolioState)
    ensures ValidReplies(Failing(id, p))
  {}

  lemma CalmIsUnbroken()
    ensures !S.HardRiskBreached(CALM, HALF) && S.HardRiskBreached(BROKEN, HALF)
  {}

  /** A broken paper portfolio without held shares: the market still reserves AI budget. */
  lemma BrokenPaperMarketAsks(id: string)
    ensures ValidReplies(Failing(id, BROKEN)) && S.HardRiskBreached(BROKEN, HALF)
            && ReachOf(Failing(id, BROKEN), Paper, HALF).Asks?
  {
    FailingIsValid(id, BROKEN);
    CalmIsUnbroken();
  }

  const DESK := Terms("account", Paper, HALF, 1)

  lemma CalmMarketAsks(id: string)
    ensures ValidReplies(Failing(id, CALM)) && ReachOf(Failing(id, CALM), Paper, HALF).Asks?
    ensures forall a: StoreAnswer :: FateOf(Failing(id, CALM), a, DESK) == Uncounted
  {
    FailingIsValid(id, CALM);
    CalmIsUnbroken();
  }

  function Open(id: string): Listed { Listed(Failing(id, CALM), false, true) }

  /** Below the cap such a market reserves once more, and is not counted. */
  lemma OneMoreUncounted(before: Course, id: string, a: StoreAnswer)
    requires !before.stopped && !before.blocked && CountedIn(before.made) < DESK.cap
    ensures ValidReplies(Open(id).replies)
    ensures var after := CourseAfter(before, Open(id), a, true, DESK);
            after.made == before.made + [Uncounted] && !after.stopped && !after.blocked
  {
    hide ReachOf, FateOf, OrderOf;
    CalmMarketAsks(id);
    assert Open(id).replies == Failing(id, CALM);
    assert Open(id).replies.budget == Some(true);
  }

  lemma OpenPlan()
    ensures AllValid([Open("a"), Open("b")])
    ensures CourseOf([], [], true, DESK) == Course([], [], false, false)
    ensures CountedIn([]) == 0 && CountedIn([Uncounted]) == 0
  {
    FailingIsValid("a", CALM);
    FailingIsValid("b", CALM);
    assert [Uncounted][..0] == [];
  }

  /** Two such markets go over a cap of one. */
  lemma CapIsOverrun(a: StoreAnswer, b: StoreAnswer)
    ensures var plan := [Open("a"), Open("b")];
            AllValid(plan) && CourseOf(plan, [a, b], true, DESK).made == [Uncounted, Uncounted] && DESK.cap == 1
  {
    hide CourseAfter, CourseOf, CountedIn, ValidReplies, Open;
    var plan := [Open("a"), Open("b")];
    OpenPlan();
    assert plan[..0] == [];
    var none := CourseOf(plan[..0], [], true, DESK);
    OneMoreUncounted(none, "a", a);
    CourseNext(plan, 0, [], a, true, DESK);
    var one := CourseOf(plan[..1], [a], true, DESK);
    assert [] + [a] == [a] && [] + [Uncounted] == [Uncounted];
    OneMoreUncounted(one, "b", b);
    CourseNext(plan, 1, [a], b, true, DESK);
    assert plan[..2] == plan && [a] + [b] == [a, b] && [Uncounted] + [Uncounted] == [Uncounted, Uncounted];
  }
}
