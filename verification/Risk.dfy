/** The deterministic gate every candidate passes through (risk.py). */
module Risk {
  import opened Decimals
  import opened Fees
  import opened OrderBook
  import opened Wrappers
  import opened Portfolio

  datatype RiskCode =
    | MarketNotTradeable | InvalidFeeSchedule | InsufficientLiquidity | StaleBook | TooCloseToResolution
    | EdgeBelowThreshold | OrderCapExceeded | InvalidTickPrice | BelowMinimumSize
    | InsufficientCash | TradeRiskCapExceeded | EventCapExceeded | BucketCapExceeded | GrossCapExceeded
    | DailyLossKill | DrawdownKill | EmptyAskBook | LimitNotMarketable
    | SellExceedsPosition | EmptyBidBook | SellLimitNotMarketable

  datatype Decision = Decision(approved: bool, codes: seq<RiskCode>)

  function Commitment(c: Candidate, m: Market): real {
    if c.side == Buy then MaximumBuyCost(c.size, c.limitPrice, m.fees) else c.notional
  }

  function TickAligned(price: real, tick: real): bool
    requires tick > 0.0
  {
    price == QuantizeDown(price, tick)
  }

  function DailyLossBreached(p: PortfolioState, l: Limits): bool {
    DailyRiskPnl(p) <= -Mul(LossBasis(p), l.dailyLoss)
  }

  function DrawdownBreached(p: PortfolioState, l: Limits): bool { Drawdown(p) >= l.maxDrawdown }

  function EventAfter(c: Candidate, m: Market, p: PortfolioState): real {
    Lookup(p.eventExposure, OrElse(c.eventId, c.marketId)) + Lookup(p.eventExposure, UNCLASSIFIED_EVENT)
        + Commitment(c, m)
  }

  function BucketAfter(c: Candidate, m: Market, p: PortfolioState): real {
    Lookup(p.bucketExposure, c.bucket) + Lookup(p.bucketExposure, UNCLASSIFIED_BUCKET) + Commitment(c, m)
  }

  /** When each code is a reason to refuse the candidate. */
  function Draws(code: RiskCode, c: Candidate, m: Market, b: Book, p: PortfolioState, s: Settings, now: Instant): bool
    requires b.tickSize > 0.0
  {
    var l := s.limits;
    var riskExit := c.side == Sell && c.strategy == RiskExit;
    match code
    case MarketNotTradeable => !m.active || m.closed || !m.acceptingOrders
    case InvalidFeeSchedule => m.fees.enabled && m.fees.rate <= 0.0
    case InsufficientLiquidity => !riskExit && m.liquidity < s.minLiquidity
    case StaleBook => now - b.capturedAt > s.maxBookAge
    case TooCloseToResolution => c.side == Buy && m.endAt.Some? && m.endAt.value - now < s.minTimeToResolution
    case EdgeBelowThreshold => !riskExit && c.edge < l.minEdge
    case OrderCapExceeded => Commitment(c, m) > l.maxOrder
    case InvalidTickPrice => !TickAligned(c.limitPrice, b.tickSize)
    case BelowMinimumSize => c.size < MinimumSize(m, b)
    case InsufficientCash => c.side == Buy && Commitment(c, m) > p.cash
    case TradeRiskCapExceeded => c.side == Buy && Commitment(c, m) > Mul(p.bankroll, l.maxTradeRisk)
    case EventCapExceeded => c.side == Buy && EventAfter(c, m, p) > Mul(p.bankroll, l.maxEvent)
    case BucketCapExceeded => c.side == Buy && BucketAfter(c, m, p) > Mul(p.bankroll, l.maxBucket)
    case GrossCapExceeded => c.side == Buy && p.gross + Commitment(c, m) > Mul(p.bankroll, l.maxGross)
    case DailyLossKill => c.side == Buy && DailyLossBreached(p, l)
    case DrawdownKill => c.side == Buy && DrawdownBreached(p, l)
    case EmptyAskBook => c.side == Buy && b.asks == []
    case LimitNotMarketable =>
      c.side == Buy && b.asks != [] && c.limitPrice < BestQuote(b.asks, false).value
    case SellExceedsPosition => c.side == Sell && c.size > Lookup(p.positions, c.tokenId)
    case EmptyBidBook => c.side == Sell && b.bids == []
    case SellLimitNotMarketable =>
      c.side == Sell && b.bids != [] && c.limitPrice > BestQuote(b.bids, true).value
  }

  ghost predicate Approved(c: Candidate, m: Market, b: Book, p: PortfolioState, s: Settings, now: Instant)
    requires b.tickSize > 0.0
  {
    forall code: RiskCode :: !Draws(code, c, m, b, p, s, now)
  }

  function Only(code: RiskCode, drawn: bool): (r: seq<RiskCode>) { if drawn then [code] else [] }

  const GENERAL := [MarketNotTradeable, InvalidFeeSchedule, InsufficientLiquidity, StaleBook, TooCloseToResolution,
                    EdgeBelowThreshold, OrderCapExceeded, InvalidTickPrice, BelowMinimumSize]
  const BUY_ONLY := [InsufficientCash, TradeRiskCapExceeded, EventCapExceeded, BucketCapExceeded, GrossCapExceeded,
                     DailyLossKill, DrawdownKill, EmptyAskBook, LimitNotMarketable]
  const SELL_ONLY := [SellExceedsPosition, EmptyBidBook, SellLimitNotMarketable]

  /** The codes of `order` that are drawn, in that order. */
  function Drawn(order: seq<RiskCode>, c: Candidate, m: Market, b: Book, p: PortfolioState, s: Settings,
                 now: Instant): seq<RiskCode>
    requires b.tickSize > 0.0
  {
    if order == [] then []
    else Drawn(order[..|order| - 1], c, m, b, p, s, now)
         + Only(order[|order| - 1], Draws(order[|order| - 1], c, m, b, p, s, now))
  }

  lemma {:induction false} DrawnMembers(order: seq<RiskCode>, c: Candidate, m: Market, b: Book, p: PortfolioState,
                                        s: Settings, now: Instant)
    requires b.tickSize > 0.0
    ensures forall x :: x in Drawn(order, c, m, b, p, s, now) <==> x in order && Draws(x, c, m, b, p, s, now)
  {
    hide Draws;
    if order != [] {
      DrawnMembers(order[..|order| - 1], c, m, b, p, s, now);
      assert order == order[..|order| - 1] + [order[|order| - 1]];
    }
  }

  lemma NoneDrawn(c: Candidate, m: Market, b: Book, p: PortfolioState, s: Settings, now: Instant)
    requires b.tickSize > 0.0
    ensures Drawn([], c, m, b, p, s, now) == []
  {}

  /** What each code common to both sides means. */
  lemma GeneralDraws(c: Candidate, m: Market, b: Book, p: PortfolioState, s: Settings, now: Instant)
    requires b.tickSize > 0.0
    ensures Draws(MarketNotTradeable, c, m, b, p, s, now) <==> (!m.active || m.closed || !m.acceptingOrders)
    ensures Draws(InvalidFeeSchedule, c, m, b, p, s, now) <==> (m.fees.enabled && m.fees.rate <= 0.0)
    ensures Draws(InsufficientLiquidity, c, m, b, p, s, now)
            <==> (!(c.side == Sell && c.strategy == RiskExit) && m.liquidity < s.minLiquidity)
    ensures Draws(StaleBook, c, m, b, p, s, now) <==> now - b.capturedAt > s.maxBookAge
    ensures Draws(TooCloseToResolution, c, m, b, p, s, now)
            <==> (c.side == Buy && m.endAt.Some? && m.endAt.value - now < s.minTimeToResolution)
    ensures Draws(EdgeBelowThreshold, c, m, b, p, s, now)
            <==> (!(c.side == Sell && c.strategy == RiskExit) && c.edge < s.limits.minEdge)
    ensures Draws(OrderCapExceeded, c, m, b, p, s, now) <==> Commitment(c, m) > s.limits.maxOrder
    ensures Draws(InvalidTickPrice, c, m, b, p, s, now) <==> !TickAligned(c.limitPrice, b.tickSize)
    ensures Draws(BelowMinimumSize, c, m, b, p, s, now) <==> c.size < MinimumSize(m, b)
  {
    hide Mul, Commitment, EventAfter, BucketAfter, DailyLossBreached, DrawdownBreached, BestQuote, TickAligned,
      MinimumSize;
  }

  /** What each BUY-only code means, one line per code. */
  lemma BuyDraws(c: Candidate, m: Market, b: Book, p: PortfolioState, s: Settings, now: Instant)
    requires b.tickSize > 0.0 && c.side == Buy
    ensures Draws(InsufficientCash, c, m, b, p, s, now) <==> Commitment(c, m) > p.cash
    ensures Draws(TradeRiskCapExceeded, c, m, b, p, s, now)
            <==> Commitment(c, m) > Mul(p.bankroll, s.limits.maxTradeRisk)
    ensures Draws(EventCapExceeded, c, m, b, p, s, now) <==> EventAfter(c, m, p) > Mul(p.bankroll, s.limits.maxEvent)
    ensures Draws(BucketCapExceeded, c, m, b, p, s, now) <==> BucketAfter(c, m, p) > Mul(p.bankroll, s.limits.maxBucket)
    ensures Draws(GrossCapExceeded, c, m, b, p, s, now)
            <==> p.gross + Commitment(c, m) > Mul(p.bankroll, s.limits.maxGross)
    ensures Draws(DailyLossKill, c, m, b, p, s, now) <==> DailyLossBreached(p, s.limits)
    ensures Draws(DrawdownKill, c, m, b, p, s, now) <==> DrawdownBreached(p, s.limits)
    ensures Draws(EmptyAskBook, c, m, b, p, s, now) <==> b.asks == []
    ensures Draws(LimitNotMarketable, c, m, b, p, s, now)
            <==> (b.asks != [] && c.limitPrice < BestQuote(b.asks, false).value)
  {
    hide Mul, Commitment, EventAfter, BucketAfter, DailyLossBreached, DrawdownBreached, BestQuote, TickAligned,
      MinimumSize;
  }

  /** What each code means for a SELL. */
  lemma SellDraws(c: Candidate, m: Market, b: Book, p: PortfolioState, s: Settings, now: Instant)
    requires b.tickSize > 0.0 && c.side == Sell
    ensures Draws(SellExceedsPosition, c, m, b, p, s, now) <==> c.size > Lookup(p.positions, c.tokenId)
    ensures Draws(EmptyBidBook, c, m, b, p, s, now) <==> b.bids == []
    ensures Draws(SellLimitNotMarketable, c, m, b, p, s, now)
            <==> (b.bids != [] && c.limitPrice > BestQuote(b.bids, true).value)
    ensures forall code | code in BUY_ONLY :: !Draws(code, c, m, b, p, s, now)
  {
    hide Mul, EventAfter, BucketAfter, DailyLossBreached, DrawdownBreached, BestQuote, TickAligned, MinimumSize, Lookup;
  }

  /** A loss of x reaches this fraction of the bankroll, or of a positive equity at the start of the day. */
  predicate LossReaches(x: real, fraction: real, p: PortfolioState) {
    || x <= -Mul(p.bankroll, fraction)
    || (p.dayStartEquity.Some? && p.dayStartEquity.value > 0.0 && x <= -Mul(p.dayStartEquity.value, fraction))
  }

  /** The daily loss limit is breached exactly when the realized loss or the fall of the equity since the start of the
      day reaches it. */
  lemma DailyLossExactly(p: PortfolioState, l: Limits)
    requires l.dailyLoss >= 0.0
    ensures DailyLossBreached(p, l)
            <==> LossReaches(p.realizedToday, l.dailyLoss, p)
                 || (p.equity.Some? && p.dayStartEquity.Some?
                     && LossReaches(p.equity.value - p.dayStartEquity.value, l.dailyLoss, p))
  {
    hide Mul;
    if p.dayStartEquity.Some? {
      MulMonotone(Min(p.bankroll, p.dayStartEquity.value), p.bankroll, l.dailyLoss);
      MulMonotone(Min(p.bankroll, p.dayStartEquity.value), p.dayStartEquity.value, l.dailyLoss);
    }
  }

  /** The drawdown limit is breached exactly when both figures are known and the equity has fallen by that fraction of a
      positive peak. */
  lemma DrawdownExactly(p: PortfolioState, l: Limits)
    requires l.maxDrawdown > 0.0
    ensures DrawdownBreached(p, l)
            <==> p.peakEquity.Some? && p.equity.Some? && p.peakEquity.value > 0.0
                 && p.peakEquity.value - p.equity.value >= Mul(l.maxDrawdown, p.peakEquity.value)
  {
    hide Mul, Div;
    if p.peakEquity.Some? && p.equity.Some? && p.peakEquity.value > 0.0 {
      DivBound(p.peakEquity.value - p.equity.value, l.maxDrawdown, p.peakEquity.value);
    }
  }

  /** What a BUY adds to its event and its bucket, on top of what is held there and of what is unclassified. */
  lemma ExposureCapsExactly(c: Candidate, m: Market, b: Book, p: PortfolioState, s: Settings, now: Instant)
    requires b.tickSize > 0.0 && c.side == Buy
    ensures var cost := MaximumBuyCost(c.size, c.limitPrice, m.fees);
            var event := if c.eventId.Some? && c.eventId.value != "" then c.eventId.value else c.marketId;
            && (Draws(OrderCapExceeded, c, m, b, p, s, now) <==> cost > s.limits.maxOrder)
            && (Draws(InsufficientCash, c, m, b, p, s, now) <==> cost > p.cash)
            && (Draws(TradeRiskCapExceeded, c, m, b, p, s, now) <==> cost > Mul(p.bankroll, s.limits.maxTradeRisk))
            && (Draws(EventCapExceeded, c, m, b, p, s, now)
                <==> Lookup(p.eventExposure, event) + Lookup(p.eventExposure, "__unclassified_event__") + cost
                     > Mul(p.bankroll, s.limits.maxEvent))
            && (Draws(BucketCapExceeded, c, m, b, p, s, now)
                <==> Lookup(p.bucketExposure, c.bucket) + Lookup(p.bucketExposure, "__unclassified__") + cost
                     > Mul(p.bankroll, s.limits.maxBucket))
            && (Draws(GrossCapExceeded, c, m, b, p, s, now) <==> p.gross + cost > Mul(p.bankroll, s.limits.maxGross))
  {
    hide Mul, MaximumBuyCost, Lookup, DailyLossBreached, DrawdownBreached, BestQuote, TickAligned;
    GeneralDraws(c, m, b, p, s, now);
    BuyDraws(c, m, b, p, s, now);
  }

  function Ticks(k: int, tick: real): real { Mul(k as real, tick) }

  /** A price is on the tick grid exactly when it is a whole number of ticks. */
  lemma TickAlignedExactly(price: real, tick: real)
    requires tick > 0.0
    ensures TickAligned(price, tick) <==> exists k: int :: price == Ticks(k, tick)
  {
    hide Mul, TruncDiv;
    if TickAligned(price, tick) { assert price == Ticks(TruncDiv(price, tick), tick); }
    if k: int :| price == Ticks(k, tick) { WholeTicks(k, tick); }
  }

  lemma WholeTicks(k: int, tick: real)
    requires tick > 0.0
    ensures TruncDiv(Mul(k as real, tick), tick) == k
  {
    assert Div(Mul(k as real, tick), tick) == k as real;
  }

  /** One `if …: codes.append(…)` of the gate. */
  method Append(codes: seq<RiskCode>, ghost order: seq<RiskCode>, code: RiskCode, drawn: bool,
                ghost c: Candidate, ghost m: Market, ghost b: Book, ghost p: PortfolioState, ghost s: Settings,
                ghost now: Instant)
    returns (r: seq<RiskCode>, ghost next: seq<RiskCode>)
    requires b.tickSize > 0.0
    requires codes == Drawn(order, c, m, b, p, s, now) && drawn == Draws(code, c, m, b, p, s, now)
    ensures next == order + [code] && r == Drawn(next, c, m, b, p, s, now)
  {
    hide Draws;
    r, next := if drawn then codes + [code] else codes, order + [code];
    assert next[..|order|] == order;
  }

  /** The gate reports exactly the codes that are drawn, and approves exactly when none is. */
  method EvaluateCandidate(c: Candidate, m: Market, b: Book, p: PortfolioState, s: Settings, now: Instant)
    returns (r: Decision)
    requires ValidSnapshot(b)
    ensures forall code: RiskCode :: code in r.codes <==> Draws(code, c, m, b, p, s, now)
    ensures r.approved <==> Approved(c, m, b, p, s, now)
  {
    hide Draws, Drawn, Commitment;
    ghost var order;
    var codes, commitment;
    codes, commitment, order := GeneralCodes(c, m, b, p, s, now);
    if c.side == Buy {
      codes, order := BuyCodes(codes, order, commitment, c, m, b, p, s, now);
    } else {
      codes, order := SellCodes(codes, order, c, m, b, p, s, now);
    }
    DrawnMembers(order, c, m, b, p, s, now);
    r := Decision(codes == [], codes);
    OtherSideSilent(c, m, b, p, s, now);
    assert codes != [] ==> codes[0] in codes;
  }

  lemma OtherSideSilent(c: Candidate, m: Market, b: Book, p: PortfolioState, s: Settings, now: Instant)
    requires b.tickSize > 0.0
    ensures forall code | Draws(code, c, m, b, p, s, now) ::
              code in GENERAL + (if c.side == Buy then BUY_ONLY else SELL_ONLY)
  {
    hide Mul, Div, QuantizeDown, MaximumBuyCost, BestQuote, Drawdown, DailyRiskPnl, LossBasis, Lookup;
    forall code | Draws(code, c, m, b, p, s, now)
      ensures code in GENERAL + (if c.side == Buy then BUY_ONLY else SELL_ONLY)
    {
      assert code in GENERAL || code in BUY_ONLY || code in SELL_ONLY;
    }
  }

  method GeneralCodes(c: Candidate, m: Market, b: Book, p: PortfolioState, s: Settings, now: Instant)
    returns (codes: seq<RiskCode>, commitment: real, ghost order: seq<RiskCode>)
    requires ValidSnapshot(b)
    ensures order == GENERAL && codes == Drawn(order, c, m, b, p, s, now)
    ensures commitment == Commitment(c, m)
  {
    hide Mul, Div, QuantizeDown, MaximumBuyCost, BestQuote, Drawn, Draws, TickAligned, MinimumSize;
    GeneralDraws(c, m, b, p, s, now);
    NoneDrawn(c, m, b, p, s, now);
    var l := s.limits;
    codes, order := [], [];
    codes, order := Append(codes, order, MarketNotTradeable, !m.active || m.closed || !m.acceptingOrders,
                           c, m, b, p, s, now);
    codes, order := Append(codes, order, InvalidFeeSchedule, m.fees.enabled && m.fees.rate <= 0.0, c, m, b, p, s, now);
    var riskExit := c.side == Sell && c.strategy == RiskExit;
    codes, order := Append(codes, order, InsufficientLiquidity, !riskExit && m.liquidity < s.minLiquidity, c, m, b, p,
                           s, now);
    codes, order := Append(codes, order, StaleBook, now - b.capturedAt > s.maxBookAge, c, m, b, p, s, now);
    codes, order := Append(codes, order, TooCloseToResolution,
                           c.side == Buy && m.endAt.Some? && m.endAt.value - now < s.minTimeToResolution,
                           c, m, b, p, s, now);
    codes, order := Append(codes, order, EdgeBelowThreshold, !riskExit && c.edge < l.minEdge, c, m, b, p, s, now);
    commitment := c.notional;
    if c.side == Buy { commitment := MaximumBuyCost(c.size, c.limitPrice, m.fees); }
    codes, order := Append(codes, order, OrderCapExceeded, commitment > l.maxOrder, c, m, b, p, s, now);
    codes, order := Append(codes, order, InvalidTickPrice, !TickAligned(c.limitPrice, b.tickSize), c, m, b, p, s, now);
    codes, order := Append(codes, order, BelowMinimumSize, c.size < MinimumSize(m, b), c, m, b, p, s, now);
  }

  method BuyCodes(before: seq<RiskCode>, ghost prior: seq<RiskCode>, commitment: real,
                  c: Candidate, m: Market, b: Book, p: PortfolioState, s: Settings, now: Instant)
    returns (codes: seq<RiskCode>, ghost order: seq<RiskCode>)
    requires ValidSnapshot(b) && c.side == Buy && commitment == Commitment(c, m)
    requires before == Drawn(prior, c, m, b, p, s, now)
    ensures order == prior + BUY_ONLY && codes == Drawn(order, c, m, b, p, s, now)
  {
    hide Mul, Div, QuantizeDown, MaximumBuyCost, Drawdown, DailyRiskPnl, LossBasis, Lookup, Drawn, Draws, Commitment,
      OrElse;
    BuyDraws(c, m, b, p, s, now);
    var l := s.limits;
    codes, order := before, prior;
    codes, order := Append(codes, order, InsufficientCash, commitment > p.cash, c, m, b, p, s, now);
    codes, order := Append(codes, order, TradeRiskCapExceeded, commitment > Mul(p.bankroll, l.maxTradeRisk), c, m, b, p,
                           s, now);
    var eventAfter := Lookup(p.eventExposure, OrElse(c.eventId, c.marketId));
    eventAfter := eventAfter + Lookup(p.eventExposure, UNCLASSIFIED_EVENT);
    eventAfter := eventAfter + commitment;
    codes, order := Append(codes, order, EventCapExceeded, eventAfter > Mul(p.bankroll, l.maxEvent), c, m, b, p, s,
                           now);
    var bucketAfter := Lookup(p.bucketExposure, c.bucket);
    bucketAfter := bucketAfter + Lookup(p.bucketExposure, UNCLASSIFIED_BUCKET);
    bucketAfter := bucketAfter + commitment;
    codes, order := Append(codes, order, BucketCapExceeded, bucketAfter > Mul(p.bankroll, l.maxBucket), c, m, b, p, s,
                           now);
    codes, order := Append(codes, order, GrossCapExceeded, p.gross + commitment > Mul(p.bankroll, l.maxGross), c, m, b,
                           p, s, now);
    codes, order := Append(codes, order, DailyLossKill, DailyRiskPnl(p) <= -Mul(LossBasis(p), l.dailyLoss), c, m, b, p,
                           s, now);
    codes, order := Append(codes, order, DrawdownKill, Drawdown(p) >= l.maxDrawdown, c, m, b, p, s, now);
    var bestAsk := BestQuote(b.asks, false);
    codes, order := Append(codes, order, EmptyAskBook, bestAsk.None?, c, m, b, p, s, now);
    codes, order := Append(codes, order, LimitNotMarketable, bestAsk.Some? && c.limitPrice < bestAsk.value, c, m, b, p,
                           s, now);
  }

  method SellCodes(before: seq<RiskCode>, ghost prior: seq<RiskCode>,
                   c: Candidate, m: Market, b: Book, p: PortfolioState, s: Settings, now: Instant)
    returns (codes: seq<RiskCode>, ghost order: seq<RiskCode>)
    requires ValidSnapshot(b) && c.side == Sell
    requires before == Drawn(prior, c, m, b, p, s, now)
    ensures order == prior + SELL_ONLY && codes == Drawn(order, c, m, b, p, s, now)
  {
    hide Lookup, Drawn;
    codes, order := before, prior;
    codes, order := Append(codes, order, SellExceedsPosition, c.size > Lookup(p.positions, c.tokenId), c, m, b, p, s,
                           now);
    var bestBid := BestQuote(b.bids, true);
    codes, order := Append(codes, order, EmptyBidBook, bestBid.None?, c, m, b, p, s, now);
    codes, order := Append(codes, order, SellLimitNotMarketable, bestBid.Some? && c.limitPrice > bestBid.value, c, m, b,
                           p, s, now);
  }

  /** Each limit of `tight` is at least as strict as the same limit of `loose`. */
  predicate NoLooser(tight: Limits, loose: Limits) {
    && tight.maxOrder <= loose.maxOrder && tight.maxTradeRisk <= loose.maxTradeRisk
    && tight.maxEvent <= loose.maxEvent && tight.maxBucket <= loose.maxBucket
    && tight.maxGross <= loose.maxGross && tight.dailyLoss <= loose.dailyLoss
    && tight.maxDrawdown <= loose.maxDrawdown && tight.minEdge >= loose.minEdge
  }

  /** Whatever passes tightened limits passes the looser ones, at any bankroll. A negative bankroll reverses
      the percentage caps, but then no well-formed BUY passes the tightened trade-risk cap at all. */
  lemma TighteningIsSound(c: Candidate, m: Market, b: Book, p: PortfolioState, s: Settings, loose: Limits, now: Instant)
    requires ValidCandidate(c) && b.tickSize > 0.0
    requires NoLooser(s.limits, loose) && s.limits.maxTradeRisk > 0.0
    requires Approved(c, m, b, p, s, now)
    ensures Approved(c, m, b, p, s.(limits := loose), now)
  {
    hide Mul, Div, QuantizeDown, MaximumBuyCost, Drawdown, DailyRiskPnl, BestQuote;
    var t := s.limits;
    forall code: RiskCode ensures !Draws(code, c, m, b, p, s.(limits := loose), now) {
      assert !Draws(code, c, m, b, p, s, now);
      if c.side == Buy {
        CommitmentPositive(c, m);
        assert !Draws(TradeRiskCapExceeded, c, m, b, p, s, now);
        MulSign(p.bankroll, t.maxTradeRisk);
        assert p.bankroll > 0.0;
        MulMonotone(t.maxTradeRisk, loose.maxTradeRisk, p.bankroll);
        MulMonotone(t.maxEvent, loose.maxEvent, p.bankroll);
        MulMonotone(t.maxBucket, loose.maxBucket, p.bankroll);
        MulMonotone(t.maxGross, loose.maxGross, p.bankroll);
        MulMonotone(t.dailyLoss, loose.dailyLoss, LossBasis(p));
      }
    }
  }

  lemma CommitmentPositive(c: Candidate, m: Market)
    requires ValidCandidate(c)
    ensures Commitment(c, m) > 0.0
  {
    hide Mul, CommitmentPerShare;
    CommitmentMonotone(c.limitPrice, c.limitPrice, m.fees);
    MulSign(c.size, CommitmentPerShare(c.limitPrice, m.fees));
  }
}
