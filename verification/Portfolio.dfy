/** Markets, portfolios, settings and trade candidates shared by strategy and risk (models.py, config.py). */
module Portfolio {
  import opened Decimals
  import opened Fees
  import opened OrderBook
  import opened Wrappers

  type Instant = real

  datatype Side = Buy | Sell

  datatype Outcome = Yes | No

  datatype Strategy = AiValue | RiskExit

  datatype Market = Market(
    id: string, eventId: Option<string>, category: string,
    active: bool, closed: bool, acceptingOrders: bool,
    liquidity: real, minimumOrderSize: real, endAt: Option<Instant>, fees: FeeSchedule)

  /** What the market model's validators guarantee of every instance. */
  ghost predicate ValidMarket(m: Market) {
    m.minimumOrderSize > 0.0 && m.fees.rate >= 0.0 && (m.fees.enabled ==> m.fees.rate > 0.0)
  }

  datatype Book = Book(
    tokenId: string, bids: seq<Level>, asks: seq<Level>,
    tickSize: real, minimumOrderSize: real, capturedAt: Instant)

  ghost predicate ValidSnapshot(b: Book) {
    ValidLevels(b.bids) && ValidLevels(b.asks) && b.tickSize > 0.0 && b.minimumOrderSize > 0.0
  }

  function MinimumSize(m: Market, b: Book): real { Max(m.minimumOrderSize, b.minimumOrderSize) }

  const UNCLASSIFIED_EVENT := "__unclassified_event__"
  const UNCLASSIFIED_BUCKET := "__unclassified__"

  function Lookup(m: map<string, real>, key: string): real { if key in m then m[key] else 0.0 }

  /** Python's `value or fallback` on an optional string. */
  function OrElse(value: Option<string>, fallback: string): string {
    if value.Some? && value.value != "" then value.value else fallback
  }

  function Bucket(m: Market): string { OrElse(Some(m.category), "other") }

  function EventKey(m: Market): string { OrElse(m.eventId, m.id) }

  /** A market without a category counts under "other", one without an event under its own id. */
  lemma KeysExactly(m: Market)
    ensures m.category != "" ==> Bucket(m) == m.category
    ensures m.category == "" ==> Bucket(m) == "other"
    ensures m.eventId.Some? && m.eventId.value != "" ==> EventKey(m) == m.eventId.value
    ensures m.eventId == None || m.eventId == Some("") ==> EventKey(m) == m.id
  {}

  datatype PortfolioState = PortfolioState(
    bankroll: real, cash: real, gross: real,
    eventExposure: map<string, real>, bucketExposure: map<string, real>, positions: map<string, real>,
    realizedToday: real, peakEquity: Option<real>, equity: Option<real>, dayStartEquity: Option<real>)

  function DailyRiskPnl(p: PortfolioState): real {
    if p.equity.None? || p.dayStartEquity.None? then p.realizedToday
    else Min(p.realizedToday, p.equity.value - p.dayStartEquity.value)
  }

  function LossBasis(p: PortfolioState): real {
    if p.dayStartEquity.None? || p.dayStartEquity.value <= 0.0 then p.bankroll
    else Min(p.bankroll, p.dayStartEquity.value)
  }

  function Drawdown(p: PortfolioState): real {
    if p.peakEquity.None? || p.equity.None? || p.peakEquity.value <= 0.0 then 0.0
    else Max(0.0, Div(p.peakEquity.value - p.equity.value, p.peakEquity.value))
  }

  /** The eight limits an account policy may tighten. */
  datatype Limits = Limits(
    maxOrder: real, maxTradeRisk: real, maxEvent: real, maxBucket: real, maxGross: real,
    dailyLoss: real, maxDrawdown: real, minEdge: real)

  datatype Settings = Settings(
    limits: Limits, minLiquidity: real, maxBookAge: Instant, minTimeToResolution: Instant,
    kellyFraction: real, uncertaintyReserve: real, minConfidence: real)

  ghost predicate ValidSettings(s: Settings) {
    s.limits.maxOrder > 0.0 && s.kellyFraction > 0.0 && s.uncertaintyReserve >= 0.0
  }

  datatype Forecast = Forecast(probability: real, low: real, high: real, confidence: real)

  /** The Forecast validator: an ordered interval of probabilities. */
  ghost predicate ValidForecast(f: Forecast) {
    0.0 <= f.low <= f.probability <= f.high <= 1.0 && 0.0 <= f.confidence <= 1.0
  }

  datatype Candidate = Candidate(
    marketId: string, eventId: Option<string>, bucket: string, tokenId: string, outcome: Outcome,
    side: Side, strategy: Strategy, conservative: real, expectedPrice: real, limitPrice: real,
    size: real, notional: real, maxCommitment: Option<real>, fee: real, edge: real)

  /** The TradeCandidate validators; a candidate outside them would raise at construction. */
  ghost predicate ValidCandidate(c: Candidate) {
    && 0.0 <= c.conservative <= 1.0 && 0.0 < c.expectedPrice < 1.0 && 0.0 < c.limitPrice < 1.0
    && c.size > 0.0 && c.notional > 0.0 && c.fee >= 0.0
    && (c.maxCommitment.Some? ==> c.maxCommitment.value > 0.0)
  }
}
