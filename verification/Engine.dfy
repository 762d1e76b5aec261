/** One auditable scan-to-execution cycle (engine.py) among other parties that share the intent store. */
module Engine {
  import opened Modes
  import opened OrderBook
  import opened Wrappers
  import opened Histories
  import opened Portfolio
  import opened IntentLog
  import opened CyclePlan
  import R = Risk
  import S = Strategy

  datatype Signal = Finished(usedAi: bool) | MarketError | StopCycle

  predicate SellsOnly(acts: seq<Act>) { forall x | x in acts && x.Submitted? :: x.key.side == Sell }

  predicate NoAi(acts: seq<Act>) { forall x | x in acts :: !x.AiReserved? }

  /** What a market's visit may do; stops and the cycle's own cancellation are not its business. */
  predicate MarketActs(acts: seq<Act>) { forall x | x in acts :: !x.StopStarted? && !x.CancelAll? }

  predicate NothingSubmitted(acts: seq<Act>) { forall x | x in acts :: !x.Submitted? }

  /** AI and entries only on these markets. */
  predicate EntersOnly(acts: seq<Act>, ids: set<string>) {
    forall x | x in acts ::
      && (x.AiReserved? ==> x.marketId in ids)
      && (x.Submitted? && x.key.side == Buy ==> x.key.marketId in ids)
  }

  function CountAi(acts: seq<Act>): nat {
    if acts == [] then 0 else CountAi(acts[..|acts| - 1]) + if acts[|acts| - 1].AiReserved? then 1 else 0
  }

  lemma {:induction false} CountAiAdds(xs: seq<Act>, ys: seq<Act>)
    ensures CountAi(xs + ys) == CountAi(xs) + CountAi(ys)
  {
    if ys == [] {
      assert xs + ys == xs;
    } else {
      assert (xs + ys)[..|xs + ys| - 1] == xs + ys[..|ys| - 1];
      CountAiAdds(xs, ys[..|ys| - 1]);
    }
  }

  lemma {:induction false} NoAiCountsZero(acts: seq<Act>)
    ensures NoAi(acts) <==> CountAi(acts) == 0
  {
    if acts != [] {
      NoAiCountsZero(acts[..|acts| - 1]);
      assert acts == acts[..|acts| - 1] + [acts[|acts| - 1]];
    }
  }

  /** The intents submitted, in order. */
  function SentKeys(acts: seq<Act>): seq<IntentKey> {
    if acts == [] then []
    else
      var last := acts[|acts| - 1];
      SentKeys(acts[..|acts| - 1]) + if last.Submitted? then [last.key] else []
  }

  lemma {:induction false} SentKeysAdd(xs: seq<Act>, ys: seq<Act>)
    ensures SentKeys(xs + ys) == SentKeys(xs) + SentKeys(ys)
  {
    if ys == [] {
      assert xs + ys == xs;
    } else {
      var init := ys[..|ys| - 1];
      assert (xs + ys)[..|xs + ys| - 1] == xs + init;
      SentKeysAdd(xs, init);
      assert SentKeys(xs) + (SentKeys(init) + SentKeys(ys)[|SentKeys(init)|..]) == SentKeys(xs) + SentKeys(ys);
    }
  }

  lemma SentKeysOfOne(act: Act)
    ensures SentKeys([act]) == if act.Submitted? then [act.key] else []
    ensures SentKeys([]) == []
  {
    assert [act][..0] == [];
  }

  /** The answer is what this party's reservation came to: its own insertion, another act's, or none. */
  ghost predicate Answered(answer: StoreAnswer, me: PartyId, key: IntentKey, acts: seq<Act>, log: Log) {
    match answer
    case NotAsked => Reserved(me, key) !in acts
    case Inserted => Reserved(me, key) in acts
    case Duplicate => Reserved(me, key) !in acts && HasReserved(log, key)
    case Unanswered => Submitted(me, key) !in acts
  }

  lemma {:induction false} SentAreAll(acts: seq<Act>)
    ensures NothingSubmitted(acts) <==> SentKeys(acts) == []
  {
    if acts != [] {
      SentAreAll(acts[..|acts| - 1]);
      assert acts == acts[..|acts| - 1] + [acts[|acts| - 1]];
    }
  }

  lemma NoneRaised()
    ensures RaisedIn([]) == 0 && forall a: StoreAnswer :: RaisedIn([a]) == if a.Unanswered? then 1 else 0
  {
    forall a: StoreAnswer ensures RaisedIn([a]) == if a.Unanswered? then 1 else 0 {
      assert [a][..0] == [];
    }
  }

  /** Everything these acts say is about one intent. */
  predicate OnlyAbout(acts: seq<Act>, me: PartyId, key: IntentKey) {
    forall x | x in acts :: x == Approved(me, key) || x == GuardOpen(me) || x == Reserved(me, key)
        || x == Submitted(me, key)
  }

  class TradingEngine {
    const settings: Settings
    const mode: Mode
    const account: string
    const maxAiMarkets: nat
    var aiBudgetBlocked: bool

    constructor (settings: Settings, mode: Mode, account: string, maxAiMarkets: nat)
      ensures this.settings == settings && this.mode == mode && this.account == account
              && this.maxAiMarkets == maxAiMarkets
    {
      this.settings, this.mode, this.account, this.maxAiMarkets, aiBudgetBlocked := settings, mode, account,
          maxAiMarkets, false;
    }

    /** The cycle starts in a hard breach; outside real money it goes on, only to reduce positions. */
    predicate Broken(c: CycleReplies) {
      c.start.Some? && S.HardRiskBreached(c.start.value, settings)
    }

    function InForce(): Terms { Terms(account, mode, settings, maxAiMarkets) }

    /** Gate, guard, reservation, submission, in that order; true where a call raised. */
    method ExecuteCandidate(w: IntentStore, me: PartyId, o: Order, m: Market)
      returns (raised: bool, ghost answer: StoreAnswer, ghost acts: seq<Act>)
      requires w.Valid() && ValidSnapshot(o.book)
      modifies w
      ensures w.Grew(me, acts) && OnlyAbout(acts, me, o.key)
      ensures answer.NotAsked? <==> !AsksStore(o, m, settings)
      ensures Answered(answer, me, o.key, acts, w.log) && w.faults == old(w.faults) + RaisedIn([answer])
      ensures AsksStore(o, m, settings)
              <==> o.exec.decisionSaved && R.Approved(o.candidate, m, o.book, o.portfolio, settings, o.at)
                   && o.exec.guard == Some(true)
      ensures SentKeys(acts) == if answer.Inserted? then [o.key] else []
      ensures raised <==> ExecutionRaises(o, m, answer, settings)
    {
      hide Disciplined, Added, R.Approved, R.Draws, HasReserved;
      acts, answer := [], NotAsked;
      AddedNothing(w.log, By(me));
      NoneRaised();
      var decision := R.EvaluateCandidate(o.candidate, m, o.book, o.portfolio, settings, o.at);
      if !o.exec.decisionSaved { return true, answer, acts; }
      if !decision.approved { return false, answer, acts; }
      w.Note(Approved(me, o.key));
      ghost var a := |w.log| - 1;
      acts := [Approved(me, o.key)];
      SentKeysOfOne(acts[0]);
      raised, answer, acts := GuardReserveSubmit(w, me, o.key, o.exec, a, old(w.log), acts);
    }

    method GuardReserveSubmit(w: IntentStore, me: PartyId, key: IntentKey, e: ExecReplies,
                              ghost a: nat, ghost start: Log, ghost before: seq<Act>)
      returns (raised: bool, ghost answer: StoreAnswer, ghost acts: seq<Act>)
      requires w.Valid() && Added(start, w.log, By(me), before) && a < |w.log| && w.log[a] == Approved(me, key)
      requires before == [Approved(me, key)]
      modifies w
      ensures w.Valid() && Added(start, w.log, By(me), acts) && OnlyAbout(acts, me, key)
      ensures answer.NotAsked? <==> e.guard != Some(true)
      ensures Answered(answer, me, key, acts, w.log) && w.faults == old(w.faults) + RaisedIn([answer])
      ensures SentKeys(acts) == if answer.Inserted? then [key] else []
      ensures raised <==> e.guard.None? || answer.Unanswered? || (answer.Inserted? && (!e.sent || !e.recorded))
    {
      hide Disciplined, Added, HasReserved, SentKeys;
      acts, answer := before, NotAsked;
      NoneRaised();
      SentKeysOfOne(Approved(me, key));
      if e.guard != Some(true) { return e.guard.None?, answer, acts; }
      ghost var l0 := w.log;
      w.Interfere(me);
      AddedThen(start, l0, w.log, By(me), acts, []);
      ghost var l1 := w.log;
      w.Note(GuardOpen(me));
      ghost var g := |w.log| - 1;
      AddedThen(start, l1, w.log, By(me), acts + [], [GuardOpen(me)]);
      acts := acts + [] + [GuardOpen(me)];
      ghost var l2 := w.log;
      var reserved;
      ghost var step;
      reserved, step := w.ReserveIntent(me, key);
      AddedThen(start, l2, w.log, By(me), acts, step);
      acts := acts + step;
      SentAreAll(acts);
      if reserved.Raised? { return true, Unanswered, acts; }
      if !reserved.value { return false, Duplicate, acts; }
      assert step[0] in acts;
      ghost var l3 := w.log;
      w.Submit(me, key, a, g, |w.log| - 1);
      AddedThen(start, l3, w.log, By(me), acts, [Submitted(me, key)]);
      SentKeysAdd(acts, [Submitted(me, key)]);
      SentKeysOfOne(Submitted(me, key));
      acts := acts + [Submitted(me, key)];
      raised, answer := !e.sent || !e.recorded, Inserted;
    }

    method PortfolioCheckpoint(reply: Option<PortfolioState>) returns (c: Checkpoint)
      ensures c == CheckpointOf(reply, mode, settings)
      ensures c.Passed? ==> reply == Some(c.portfolio)
      ensures c.Passed? && RealMoney(mode) ==> !S.HardRiskBreached(c.portfolio, settings)
      ensures c.MustStop? ==> RealMoney(mode)
    {
      if reply.None? { return if RealMoney(mode) then MustStop else Unavailable; }
      if RealMoney(mode) {
        var q := reply.value;
        if q.equity.None? || q.dayStartEquity.None? || q.peakEquity.None? { return MustStop; }
        if S.HardRiskBreached(q, settings) { return MustStop; }
      }
      return Passed(reply.value);
    }

    /** Once the daily budget refuses, nobody asks again this cycle. */
    method ReserveAiBudget(reply: Option<bool>) returns (ok: bool)
      modifies this`aiBudgetBlocked
      ensures ok <==> reply == Some(true) && !old(aiBudgetBlocked)
      ensures aiBudgetBlocked <==> !ok
    {
      if aiBudgetBlocked { return false; }
      if reply != Some(true) { aiBudgetBlocked := true; return false; }
      ok := true;
    }

    /** Budget, evidence, forecast, citations: what stands between a market and an AI-sized candidate. */
    method AiStage(w: IntentStore, me: PartyId, r: MarketReplies)
      returns (usedAi: bool, ready: bool, ghost acts: seq<Act>)
      requires w.Valid()
      modifies w, `aiBudgetBlocked
      ensures w.Grew(me, acts) && acts == (if usedAi then [AiReserved(me, r.market.id)] else [])
              && w.faults == old(w.faults)
      ensures usedAi <==> r.budget == Some(true) && !old(aiBudgetBlocked)
      ensures aiBudgetBlocked <==> !usedAi
      ensures ready <==> usedAi && Forecasts(r, mode)
    {
      hide Disciplined, Added;
      AddedNothing(w.log, By(me));
      acts, ready := [], false;
      usedAi := ReserveAiBudget(r.budget);
      if !usedAi { return; }
      w.Note(AiReserved(me, r.market.id));
      acts := [AiReserved(me, r.market.id)];
      if r.evidence.None? || (RealMoney(mode) && !r.evidence.value) { return; }
      if r.forecast.None? || !r.forecastSaved { return; }
      if RealMoney(mode) && !r.citedEnough { return; }
      ready := true;
    }

    /** What a market's visit may lead to once it has reserved AI budget. */
    predicate Ends(signal: Signal, fate: Fate) {
      match fate
      case Counted => signal == Finished(true)
      case Uncounted => signal == MarketError
      case Halted => signal == StopCycle
    }

    /** What a visit did about its order, and what the store answered. */
    ghost predicate Handled(order: Option<Order>, m: Market, answer: StoreAnswer, me: PartyId, acts: seq<Act>,
                            log: Log) {
      && (answer.NotAsked? <==> order.None? || !AsksStore(order.value, m, settings))
      && SentKeys(acts) == Sent(order, answer)
      && (order.Some? ==> Answered(answer, me, order.value.key, acts, log))
    }

    /** A held market under a breach is reduced, and only an allowed one may go on to AI and an entry. */
    method ProcessMarket(w: IntentStore, me: PartyId, r: MarketReplies, allowAi: bool)
      returns (signal: Signal, ghost answer: StoreAnswer, ghost acts: seq<Act>)
      requires w.Valid() && ValidReplies(r) && ValidSettings(settings)
      modifies w, `aiBudgetBlocked
      ensures w.Grew(me, acts) && EntersOnly(acts, {r.market.id})
      ensures Handled(OrderOf(r, !NoAi(acts), InForce()), r.market, answer, me, acts, w.log)
      ensures w.faults == old(w.faults) + RaisedIn([answer])
      ensures !NoAi(acts)
              <==> allowAi && ReachOf(r, mode, settings).Asks? && r.budget == Some(true) && !old(aiBudgetBlocked)
      ensures NoAi(acts) ==> SellsOnly(acts) && signal != Finished(true)
      ensures NoAi(acts) ==> (signal.StopCycle? <==> ReachOf(r, mode, settings).Stops?)
      ensures !NoAi(acts) ==> CountAi(acts) == 1 && Ends(signal, FateOf(r, answer, InForce()))
      ensures aiBudgetBlocked
              <==> old(aiBudgetBlocked) || (allowAi && ReachOf(r, mode, settings).Asks? && r.budget != Some(true))
      ensures signal.StopCycle? ==> RealMoney(mode) && NothingSubmitted(acts)
      ensures MarketActs(acts)
      ensures !SellsOnly(acts) ==> r.secondPortfolio.Some? && !S.HardRiskBreached(r.secondPortfolio.value, settings)
      // A breach at the market's own first checkpoint stops real money, and otherwise sells whatever can be sold.
      ensures r.firstPortfolio.Some? && S.HardRiskBreached(r.firstPortfolio.value, settings) && r.firstBooks.Some?
              && (RealMoney(mode)
                  || S.ChooseRiskExit(r.market, r.firstBooks.value.0, r.firstBooks.value.1, r.firstPortfolio.value,
                                      settings).Some?) ==>
                NoAi(acts) && SellsOnly(acts)
    {
      hide Disciplined, Added, S.ChooseRiskExit, S.HardRiskBreached, CountAi, FateOf, Chosen, Approves, HasReserved,
        RaisedIn, SentKeys, Answered, AsksStore, ExecutionRaises;
      acts, answer := [], NotAsked;
      AddedNothing(w.log, By(me));
      NoAiCountsZero(acts);
      NoneRaised();
      SentKeysOfOne(StopStarted(me));
      if !r.market.active || r.market.closed || !r.market.acceptingOrders || !r.tokensPresent || r.quarantined {
        return Finished(false), answer, acts;
      }
      if r.firstBooks.None? { return MarketError, answer, acts; }
      var yes, no := r.firstBooks.value.0, r.firstBooks.value.1;
      var check := PortfolioCheckpoint(r.firstPortfolio);
      if !check.Passed? { return if check.MustStop? then StopCycle else MarketError, answer, acts; }
      var exit := S.ChooseRiskExit(r.market, yes, no, check.portfolio, settings);
      if exit.Some? {
        signal, answer, acts := SellOff(w, me, r, exit.value, check.portfolio);
        return;
      }
      if !allowAi || r.market.liquidity < settings.minLiquidity { return Finished(false), answer, acts; }
      if r.recentForecast.None? { return MarketError, answer, acts; }
      if r.recentForecast.value || BestQuote(yes.asks, false).None? || BestQuote(no.asks, false).None? {
        return Finished(false), answer, acts;
      }
      signal, answer, acts := ForecastAndEnter(w, me, r);
    }

    /** The risk exit of a held market. */
    method SellOff(w: IntentStore, me: PartyId, r: MarketReplies, exit: Candidate, p: PortfolioState)
      returns (signal: Signal, ghost answer: StoreAnswer, ghost acts: seq<Act>)
      requires w.Valid() && ValidReplies(r) && ValidSettings(settings) && r.firstBooks.Some?
      requires S.ChooseRiskExit(r.market, r.firstBooks.value.0, r.firstBooks.value.1, p, settings) == Some(exit)
      modifies w
      ensures w.Grew(me, acts) && NoAi(acts) && SellsOnly(acts) && EntersOnly(acts, {r.market.id}) && MarketActs(acts)
      ensures Handled(Some(ExitOrder(r, exit, p, InForce())), r.market, answer, me, acts, w.log)
      ensures w.faults == old(w.faults) + RaisedIn([answer])
      ensures signal == if ExecutionRaises(ExitOrder(r, exit, p, InForce()), r.market, answer, settings)
              then MarketError
                        else Finished(false)
    {
      hide Disciplined, Added, S.ChooseRiskExit, S.HardRiskBreached, Approves, ExecutionRaises, AsksStore, HasReserved,
        SentKeys, Answered, RaisedIn;
      RiskExitSells(r.market, r.firstBooks.value.0, r.firstBooks.value.1, p, settings);
      var raised;
      raised, answer, acts := ExecuteCandidate(w, me, ExitOrder(r, exit, p, InForce()), r.market);
      signal := if raised then MarketError else Finished(false);
    }

    /** The AI path of an allowed market: everything is repriced and re-checked after the forecast. */
    method ForecastAndEnter(w: IntentStore, me: PartyId, r: MarketReplies)
      returns (signal: Signal, ghost answer: StoreAnswer, ghost acts: seq<Act>)
      requires w.Valid() && ValidReplies(r) && ValidSettings(settings)
      modifies w, `aiBudgetBlocked
      ensures w.Grew(me, acts) && EntersOnly(acts, {r.market.id}) && MarketActs(acts)
      ensures Handled(if NoAi(acts) then None else Chosen(r, InForce()), r.market, answer, me, acts, w.log)
      ensures w.faults == old(w.faults) + RaisedIn([answer])
      ensures !NoAi(acts) <==> r.budget == Some(true) && !old(aiBudgetBlocked)
      ensures aiBudgetBlocked <==> old(aiBudgetBlocked) || r.budget != Some(true)
      ensures NoAi(acts) ==> SellsOnly(acts) && signal == Finished(false)
      ensures !NoAi(acts) ==> CountAi(acts) == 1 && Ends(signal, FateOf(r, answer, InForce()))
      ensures signal.StopCycle? ==> RealMoney(mode) && NothingSubmitted(acts)
      ensures !SellsOnly(acts) ==> r.secondPortfolio.Some? && !S.HardRiskBreached(r.secondPortfolio.value, settings)
    {
      hide Disciplined, Added, S.HardRiskBreached, CountAi, AsksStore, HasReserved, SentKeys, RaisedIn, ReachOf,
        ValidSnapshot, Chosen, FateOf, Forecasts;
      var usedAi, ready;
      answer := NotAsked;
      NoneRaised();
      usedAi, ready, acts := AiStage(w, me, r);
      OneAi(me, r.market.id);
      SentKeysOfOne(AiReserved(me, r.market.id));
      if !ready {
        NotForecast(r);
        return Finished(usedAi), answer, acts;
      }
      assert acts[0] in acts;
      ghost var mid := w.log;
      ghost var step;
      signal, answer, step := RepriceAndEnter(w, me, r);
      AddedThen(old(w.log), mid, w.log, By(me), acts, step);
      CountAiAdds(acts, step);
      SentKeysAdd(acts, step);
      NoAiCountsZero(step);
      acts := acts + step;
      assert acts[0].AiReserved?;
    }

    lemma NotForecast(r: MarketReplies)
      requires ValidReplies(r)
      ensures !Forecasts(r, mode) ==> Chosen(r, InForce()).None? && FateOf(r, NotAsked, InForce()).Counted?
    {}

    /** After the forecast: books and portfolio once more, and the candidate chosen on them. */
    method RepriceAndEnter(w: IntentStore, me: PartyId, r: MarketReplies)
      returns (signal: Signal, ghost answer: StoreAnswer, ghost acts: seq<Act>)
      requires w.Valid() && ValidReplies(r) && ValidSettings(settings) && Forecasts(r, mode)
      modifies w
      ensures w.Grew(me, acts) && NoAi(acts) && EntersOnly(acts, {r.market.id}) && MarketActs(acts)
      ensures Handled(Chosen(r, InForce()), r.market, answer, me, acts, w.log)
      ensures w.faults == old(w.faults) + RaisedIn([answer])
      ensures Ends(signal, FateOf(r, answer, InForce()))
      ensures signal.StopCycle? ==> RealMoney(mode) && NothingSubmitted(acts)
      ensures !SellsOnly(acts) ==> r.secondPortfolio.Some? && !S.HardRiskBreached(r.secondPortfolio.value, settings)
    {
      hide Disciplined, Added, S.Choose, S.HardRiskBreached, Approves, ExecutionRaises, AsksStore, HasReserved,
        SentKeys, RaisedIn, ValidSnapshot;
      acts, answer := [], NotAsked;
      AddedNothing(w.log, By(me));
      NoneRaised();
      SentKeysOfOne(StopStarted(me));
      if r.secondBooks.None? { return MarketError, answer, acts; }
      var check := PortfolioCheckpoint(r.secondPortfolio);
      if !check.Passed? { return if check.MustStop? then StopCycle else MarketError, answer, acts; }
      var books := r.secondBooks.value;
      var candidate := S.Choose(r.market, r.forecast.value.1, books.0, books.1, check.portfolio, settings);
      if candidate.None? { return Finished(true), answer, acts; }
      var raised;
      raised, answer, acts := Enter(w, me, r, candidate.value, check.portfolio);
      signal := if raised then MarketError else Finished(true);
    }

    /** The chosen entry or value exit of a market. */
    method Enter(w: IntentStore, me: PartyId, r: MarketReplies, c: Candidate, p: PortfolioState)
      returns (raised: bool, ghost answer: StoreAnswer, ghost acts: seq<Act>)
      requires w.Valid() && ValidReplies(r) && r.secondBooks.Some? && r.forecast.Some?
      requires S.Choose(r.market, r.forecast.value.1, r.secondBooks.value.0, r.secondBooks.value.1, p, settings)
               == Some(c)
      modifies w
      ensures w.Grew(me, acts) && NoAi(acts) && EntersOnly(acts, {r.market.id}) && MarketActs(acts)
      ensures Handled(Some(EntryOrder(r, c, p, InForce())), r.market, answer, me, acts, w.log)
      ensures w.faults == old(w.faults) + RaisedIn([answer])
      ensures raised <==> ExecutionRaises(EntryOrder(r, c, p, InForce()), r.market, answer, settings)
      ensures !SellsOnly(acts) ==> !S.HardRiskBreached(p, settings)
    {
      hide Disciplined, Added, S.Choose, S.HardRiskBreached, R.Approved, R.Draws, ExecutionRaises, HasReserved,
        SentKeys, Answered, RaisedIn;
      var books := r.secondBooks.value;
      S.ChosenForItsMarket(r.market, r.forecast.value.1, books.0, books.1, p, settings);
      var o := EntryOrder(r, c, p, InForce());
      raised, answer, acts := ExecuteCandidate(w, me, o, r.market);
      if c.side == Buy {
        S.HardBreachStopsEveryBuy(c, r.market, o.book, p, settings, r.secondAt);
        if S.HardRiskBreached(p, settings) {
          SentAreAll(acts);
        }
      }
    }

    /** The markets of a plan that get as far as the AI budget and are allowed to. */
    ghost function AskingIds(plan: seq<Listed>): set<string>
      requires AllValid(plan)
    {
      set i | 0 <= i < |plan| && plan[i].allowed && ReachOf(plan[i].replies, mode, settings).Asks? ::
        plan[i].replies.market.id
    }

    /** The cycle gets as far as its markets; after a hard breach only past a verified cancel and a fresh portfolio. */
    predicate Visits(c: CycleReplies) {
      && c.healthy && CheckpointOf(c.start, mode, settings).Passed? && c.markets.Some?
      && (Broken(c) ==> c.cancelVerified == Some(true) && c.refreshed.Some?)
    }

    function Plan(c: CycleReplies): seq<Listed>
      requires c.markets.Some?
    {
      Narrow(c.markets.value, Broken(c))
    }

    /** What a cycle does before its first market. */
    function Opening(c: CycleReplies, me: PartyId): seq<Act> {
      if !c.healthy then []
      else
        match CheckpointOf(c.start, mode, settings)
        case MustStop => [StopStarted(me)]
        case Unavailable => []
        case Passed(_) => if Broken(c) then [CancelAll(me)] else []
    }

    /** BEFORE THE FIRST MARKET, by the replies: a stop where the portfolio is unsafe for real money; a cancel where it
        is broken otherwise; and markets only without a stop and, past such a cancel, once it is verified and the
        portfolio fresh. */
    lemma OpeningExactly(c: CycleReplies, me: PartyId)
      ensures var opening, stops := Opening(c, me), Unsafe(c.start, mode, settings);
              var cancels := !RealMoney(mode) && c.start.Some? && S.HardRiskBreached(c.start.value, settings);
              && (opening == [StopStarted(me)] <==> c.healthy && stops)
              && (opening == [CancelAll(me)] <==> c.healthy && cancels)
              && (opening == [] <==> !c.healthy || (!stops && !cancels))
              && (Visits(c) <==>
                    && c.healthy && c.start.Some? && c.markets.Some? && !stops
                    && (cancels ==> c.cancelVerified == Some(true) && c.refreshed.Some?))
    {
      hide S.HardRiskBreached;
    }

    /** The acts are the ones of the course: its reservations, its submissions in order, and its stop. */
    ghost predicate Follows(course: Course, me: PartyId, acts: seq<Act>) {
      && CountAi(acts) == |course.made| && SentKeys(acts) == course.sent
      && (StopStarted(me) in acts <==> course.stopped)
    }

    /** The answers are real ones: the store was asked where the course has an order that gets to it, an insertion is
        one of these acts, and a duplicate is a key some act had reserved. */
    ghost predicate Truthful(plan: seq<Listed>, answers: seq<StoreAnswer>, mayAsk: bool, me: PartyId, acts: seq<Act>,
                             log: Log)
      requires AllValid(plan) && |answers| <= |plan|
    {
      forall i | 0 <= i < |answers| ::
        TruthAt(NextOrder(CourseOf(plan[..i], answers[..i], mayAsk, InForce()), plan[i], mayAsk, InForce()),
                plan[i].replies.market, answers[i], me, acts, log)
    }

    ghost predicate TruthAt(order: Option<Order>, m: Market, answer: StoreAnswer, me: PartyId, acts: seq<Act>,
                            log: Log) {
      && (answer.NotAsked? <==> order.None? || !AsksStore(order.value, m, settings))
      && (answer.Inserted? ==> order.Some? && Reserved(me, order.value.key) in acts)
      && (answer.Duplicate? ==> order.Some? && HasReserved(log, order.value.key))
    }

    /** One cycle. A stop ends it; a failing market does not. `answers` is what the intent store said market by market;
        with the replies it determines every reservation of AI budget, every submission and the stop. */
    method RunCycle(w: IntentStore, me: PartyId, c: CycleReplies)
      returns (latchFailed: bool, ghost answers: seq<StoreAnswer>, ghost acts: seq<Act>)
      requires w.Valid() && ValidSettings(settings) && ValidCycle(c)
      modifies w, `aiBudgetBlocked
      ensures w.Grew(me, acts) && NothingAfterStop(acts)
      ensures EntersOnly(acts, if c.markets.Some? then AskingIds(c.markets.value) else {})
      ensures Broken(c) ==> SellsOnly(acts) && NoAi(acts)
      ensures StopStarted(me) in acts ==> RealMoney(mode)
      ensures latchFailed <==> StopStarted(me) in acts && !c.stopPersisted
      ensures w.faults == old(w.faults) + RaisedIn(answers)
      ensures !Visits(c) ==> acts == Opening(c, me) && answers == []
      ensures Visits(c) ==> AllValid(Plan(c)) && |answers| == |Plan(c)|
      ensures Visits(c) ==> Opening(c, me) <= acts && CancelAll(me) !in acts[|Opening(c, me)|..]
      ensures Visits(c) ==> Follows(CourseOf(Plan(c), answers, !Broken(c), InForce()), me, acts)
      ensures Visits(c) ==> Truthful(Plan(c), answers, !Broken(c), me, acts, w.log)
      ensures Visits(c) && !Broken(c) ==>
                (CountAi(acts) <= maxAiMarkets
                 <==> !Overruns(DemandOf(Plan(c), answers, InForce()).fates, maxAiMarkets))
    {
      hide Disciplined, Added, S.HardRiskBreached, CountAi, SentKeys, Narrow, AskingIds, DemandOf, CourseOf, Overruns,
        AllValid, Truthful, RaisedIn, MarketActs, EntersOnly, SellsOnly, NoAi;
      acts, answers, latchFailed, aiBudgetBlocked := [], [], false, false;
      AddedNothing(w.log, By(me));
      NoneRaised();
      if c.markets.Some? {
        NarrowKeepsValid(c.markets.value, false);
        NarrowKeepsValid(c.markets.value, true);
      }
      ghost var ids := if c.markets.Some? then AskingIds(c.markets.value) else {};
      OpeningIsQuiet([], ids);
      OpeningIsQuiet([StopStarted(me)], ids);
      OpeningIsQuiet([CancelAll(me)], ids);
      if !c.healthy { return; }
      var check := PortfolioCheckpoint(c.start);
      if !check.Passed? {
        if check.MustStop? {
          w.Note(StopStarted(me));
          acts, latchFailed := [StopStarted(me)], !c.stopPersisted;
        }
        return;
      }
      var hardBreach := S.HardRiskBreached(check.portfolio, settings);
      if hardBreach {
        w.Note(CancelAll(me));
        acts := [CancelAll(me)];
        if c.cancelVerified != Some(true) || c.refreshed.None? { return; }
      }
      if c.markets.None? { return; }
      ghost var mid, before := w.log, acts;
      ghost var rest;
      latchFailed, answers, rest :=
          VisitMarkets(w, me, Narrow(c.markets.value, hardBreach), hardBreach, c.stopPersisted);
      AddedThen(old(w.log), mid, w.log, By(me), before, rest);
      NarrowAsks(c.markets.value, hardBreach, rest);
      acts := before + rest;
      OpeningThen(before, rest, me, AskingIds(c.markets.value));
      TruthWider(Plan(c), answers, !hardBreach, me, rest, acts, w.log);
      if !hardBreach {
        CourseIsCappedDemand(Plan(c), answers, InForce());
        CapHoldsExactly(DemandOf(Plan(c), answers, InForce()).fates, maxAiMarkets);
      }
    }

    lemma TruthWider(plan: seq<Listed>, answers: seq<StoreAnswer>, mayAsk: bool, me: PartyId, acts: seq<Act>,
                     more: seq<Act>, log: Log)
      requires AllValid(plan) && |answers| <= |plan| && Truthful(plan, answers, mayAsk, me, acts, log)
      requires forall x | x in acts :: x in more
      ensures Truthful(plan, answers, mayAsk, me, more, log)
    {
      hide NextOrder, CourseOf, AsksStore, HasReserved, ValidReplies;
    }

    lemma NarrowAsks(markets: seq<Listed>, hardBreach: bool, acts: seq<Act>)
      requires AllValid(markets) && AllValid(Narrow(markets, hardBreach))
               && EntersOnly(acts, AskingIds(Narrow(markets, hardBreach)))
      ensures EntersOnly(acts, AskingIds(markets))
    {
      hide EntersOnly, ReachOf;
      var r := Narrow(markets, hardBreach);
      forall id | id in AskingIds(r) ensures id in AskingIds(markets) {
        var i :| 0 <= i < |r| && r[i].allowed && ReachOf(r[i].replies, mode, settings).Asks?
            && r[i].replies.market.id == id;
        assert r[i] in markets;
        var j :| 0 <= j < |markets| && markets[j] == r[i];
      }
      WiderEnters(acts, AskingIds(r), AskingIds(markets));
    }

    /** Any number of cycles, with the other parties acting in between: no intent is ever submitted twice. */
    method RunCycles(w: IntentStore, me: PartyId, cycles: seq<CycleReplies>)
      requires w.Valid() && ValidSettings(settings) && forall c | c in cycles :: ValidCycle(c)
      modifies w, `aiBudgetBlocked
      ensures w.Valid()
      ensures forall j, k | 0 <= j < k < |w.log| && w.log[j].Submitted? && w.log[k].Submitted? ::
                w.log[j].key != w.log[k].key
    {
      hide Disciplined, ValidCycle;
      for i := 0 to |cycles|
        invariant w.Valid()
      {
        w.Interfere(me);
        assert cycles[i] in cycles;
        var latchFailed;
        ghost var answers, acts;
        latchFailed, answers, acts := RunCycle(w, me, cycles[i]);
        if latchFailed { break; }
      }
      forall j, k | 0 <= j < k < |w.log| && w.log[j].Submitted? && w.log[k].Submitted?
        ensures w.log[j].key != w.log[k].key
      {
        SubmittedAtMostOnce(w.log, j, k);
      }
    }

    method VisitMarkets(w: IntentStore, me: PartyId, plan: seq<Listed>, hardBreach: bool, stopPersisted: bool)
      returns (latchFailed: bool, ghost answers: seq<StoreAnswer>, ghost acts: seq<Act>)
      requires w.Valid() && ValidSettings(settings) && AllValid(plan) && !aiBudgetBlocked
      modifies w, `aiBudgetBlocked
      ensures w.Grew(me, acts) && NothingAfterStop(acts) && EntersOnly(acts, AskingIds(plan)) && CancelAll(me) !in acts
      ensures hardBreach ==> SellsOnly(acts) && NoAi(acts)
      ensures StopStarted(me) in acts ==> RealMoney(mode)
      ensures latchFailed <==> StopStarted(me) in acts && !stopPersisted
      ensures |answers| == |plan| && w.faults == old(w.faults) + RaisedIn(answers)
      ensures Follows(CourseOf(plan, answers, !hardBreach, InForce()), me, acts)
      ensures Truthful(plan, answers, !hardBreach, me, acts, w.log)
    {
      hide Disciplined, Added, CountAi, SentKeys, AskingIds, NothingAfterStop, EntersOnly, SellsOnly, NoAi,
        NothingSubmitted, ValidReplies, ValidSettings, ReachOf, FateOf, OrderOf, CourseOf, CountedIn, RaisedIn, Ends,
        Running, Tracks, Truthful, Handled, MarketActs, Follows;
      var ai := 0;
      acts, answers, latchFailed := [], [], false;
      AddedNothing(w.log, By(me));
      NoActs(AskingIds(plan));
      AtTheStart(plan, hardBreach, me, w.log);
      for i := 0 to |plan|
        invariant w.Grew(me, acts) && Running(acts, AskingIds(plan), hardBreach) && !latchFailed && |answers| == i
        invariant w.faults == old(w.faults) + RaisedIn(answers)
        invariant Tracks(plan, i, answers, acts, ai, aiBudgetBlocked, hardBreach)
        invariant Truthful(plan, answers, !hardBreach, me, acts, w.log)
      {
        var l, allowAi := plan[i], !hardBreach && plan[i].allowed && ai < maxAiMarkets;
        ghost var mid, blocked := w.log, aiBudgetBlocked;
        var signal;
        ghost var answer, step;
        signal, answer, step := ProcessMarket(w, me, l.replies, allowAi);
        AddedThen(old(w.log), mid, w.log, By(me), acts, step);
        StepRuns(acts, step, plan, i, hardBreach, allowAi);
        VisitTracked(plan, i, answers, answer, me, acts, step, ai, signal, blocked, aiBudgetBlocked, hardBreach,
                     mid, w.log);
        acts, answers := acts + step, answers + [answer];
        if signal == Finished(true) { ai := ai + 1; }
        if signal.StopCycle? {
          mid := w.log;
          w.Note(StopStarted(me));
          AddedThen(old(w.log), mid, w.log, By(me), acts, [StopStarted(me)]);
          StopRuns(acts, me, AskingIds(plan), hardBreach);
          StopTracked(plan, i + 1, answers, me, acts, hardBreach, mid, w.log);
          acts, answers := acts + [StopStarted(me)], answers + seq(|plan| - i - 1, _ => NotAsked);
          return !stopPersisted, answers, acts;
        }
      }
      RunningMeans(acts, AskingIds(plan), hardBreach);
      AtTheEnd(plan, answers, me, acts, ai, aiBudgetBlocked, hardBreach);
    }

    /** The loop's bookkeeping: what was done is the course of the markets visited, and `ai` is what the cap counts. */
    ghost predicate Tracks(plan: seq<Listed>, i: nat, answers: seq<StoreAnswer>, acts: seq<Act>, ai: nat, blocked: bool,
                           hardBreach: bool)
      requires AllValid(plan) && i <= |plan| && |answers| == i
    {
      var course := CourseOf(plan[..i], answers, !hardBreach, InForce());
      && CountAi(acts) == |course.made| && SentKeys(acts) == course.sent
      && ai == CountedIn(course.made) && (blocked <==> course.blocked) && !course.stopped
    }

    /** What one visit reports, as `ProcessMarket` promises it. */
    ghost predicate Visited(l: Listed, allowAi: bool, signal: Signal, answer: StoreAnswer, me: PartyId, step: seq<Act>,
                            blocked: bool, after: bool, log: Log)
      requires ValidReplies(l.replies)
    {
      var reach, budget := ReachOf(l.replies, mode, settings), l.replies.budget;
      && (!NoAi(step) <==> allowAi && reach.Asks? && budget == Some(true) && !blocked)
      && (NoAi(step) ==> signal != Finished(true) && (signal.StopCycle? <==> reach.Stops?))
      && (!NoAi(step) ==> CountAi(step) == 1 && Ends(signal, FateOf(l.replies, answer, InForce())))
      && (after <==> blocked || (allowAi && reach.Asks? && budget != Some(true)))
      && Handled(OrderOf(l.replies, !NoAi(step), InForce()), l.replies.market, answer, me, step, log)
    }

    lemma VisitTracked(plan: seq<Listed>, i: nat, answers: seq<StoreAnswer>, answer: StoreAnswer, me: PartyId,
                       acts: seq<Act>, step: seq<Act>, ai: nat, signal: Signal, blocked: bool, after: bool,
                       hardBreach: bool, before: Log, log: Log)
      requires AllValid(plan) && i < |plan| && |answers| == i && Tracks(plan, i, answers, acts, ai, blocked, hardBreach)
      requires Visited(plan[i], !hardBreach && plan[i].allowed && ai < maxAiMarkets, signal, answer, me, step, blocked,
                       after, log)
      requires Truthful(plan, answers, !hardBreach, me, acts, before) && before <= log
      ensures Truthful(plan, answers + [answer], !hardBreach, me, acts + step, log)
      ensures RaisedIn(answers + [answer]) == RaisedIn(answers) + RaisedIn([answer])
      ensures !signal.StopCycle? ==>
                Tracks(plan, i + 1, answers + [answer], acts + step, ai + (if signal == Finished(true) then 1 else 0),
                       after, hardBreach)
      ensures signal.StopCycle? ==>
                var course := CourseOf(plan[..i + 1], answers + [answer], !hardBreach, InForce());
                course.stopped && CountAi(acts + step) == |course.made| && SentKeys(acts + step) == course.sent
    {
      hide ReachOf, FateOf, OrderOf, CourseOf, CountAi, SentKeys, CountedIn, NoAi, ValidReplies, Truthful, AsksStore,
        HasReserved, RaisedIn;
      CountAiAdds(acts, step);
      SentKeysAdd(acts, step);
      NoAiCountsZero(step);
      RaisedMore(answers, answer);
      CourseNext(plan, i, answers, answer, !hardBreach, InForce());
      var course := CourseOf(plan[..i], answers, !hardBreach, InForce());
      OneMoreFate(course.made, FateOf(plan[i].replies, answer, InForce()), maxAiMarkets);
      ReservesAsVisited(course, plan[i], !NoAi(step), !hardBreach);
      TruthNext(plan, i, answers, answer, !hardBreach, me, acts, step, before, log);
    }

    lemma ReservesAsVisited(course: Course, l: Listed, reserved: bool, mayAsk: bool)
      requires ValidReplies(l.replies) && !course.stopped
      requires reserved <==> MayReserve(course, l, mayAsk, InForce()) && l.replies.budget == Some(true)
      ensures NextOrder(course, l, mayAsk, InForce()) == OrderOf(l.replies, reserved, InForce())
    {}

    lemma TruthNext(plan: seq<Listed>, i: nat, answers: seq<StoreAnswer>, answer: StoreAnswer, mayAsk: bool,
                    me: PartyId, acts: seq<Act>, step: seq<Act>, before: Log, log: Log)
      requires AllValid(plan) && i < |plan| && |answers| == i && Truthful(plan, answers, mayAsk, me, acts, before)
      requires before <= log
      requires Handled(NextOrder(CourseOf(plan[..i], answers, mayAsk, InForce()), plan[i], mayAsk, InForce()),
                       plan[i].replies.market, answer, me, step, log)
      ensures Truthful(plan, answers + [answer], mayAsk, me, acts + step, log)
    {
      hide NextOrder, CourseOf, AsksStore, HasReserved, SentKeys, ValidReplies, TruthAt;
      var more := answers + [answer];
      forall k | 0 <= k < |more|
        ensures TruthAt(NextOrder(CourseOf(plan[..k], more[..k], mayAsk, InForce()), plan[k], mayAsk, InForce()),
                        plan[k].replies.market, more[k], me, acts + step, log)
      {
        if k < i {
          assert more[..k] == answers[..k];
          var order := NextOrder(CourseOf(plan[..k], answers[..k], mayAsk, InForce()), plan[k], mayAsk, InForce());
          TruthStays(order, plan[k].replies.market, answers[k], me, acts, step, before, log);
        } else {
          assert more[..k] == answers;
          var order := NextOrder(CourseOf(plan[..i], answers, mayAsk, InForce()), plan[i], mayAsk, InForce());
          HandledTruly(order, plan[i].replies.market, answer, me, acts, step, log);
        }
      }
    }

    lemma TruthStays(order: Option<Order>, m: Market, answer: StoreAnswer, me: PartyId, acts: seq<Act>, step: seq<Act>,
                     before: Log, log: Log)
      requires TruthAt(order, m, answer, me, acts, before) && before <= log
      ensures TruthAt(order, m, answer, me, acts + step, log)
    {
      hide AsksStore, HasReserved;
      if answer.Duplicate? { ReservedStays(before, log, order.value.key); }
    }

    lemma HandledTruly(order: Option<Order>, m: Market, answer: StoreAnswer, me: PartyId, acts: seq<Act>,
                       step: seq<Act>, log: Log)
      requires Handled(order, m, answer, me, step, log)
      ensures TruthAt(order, m, answer, me, acts + step, log)
    {
      hide AsksStore, HasReserved, SentKeys;
    }

    /** After a stop the remaining markets are never visited. */
    lemma StopTracked(plan: seq<Listed>, n: nat, answers: seq<StoreAnswer>, me: PartyId, acts: seq<Act>,
                      hardBreach: bool, before: Log, log: Log)
      requires AllValid(plan) && n <= |plan| && |answers| == n && before <= log
      requires Truthful(plan, answers, !hardBreach, me, acts, before)
      requires var course := CourseOf(plan[..n], answers, !hardBreach, InForce());
               course.stopped && CountAi(acts) == |course.made| && SentKeys(acts) == course.sent
      ensures var all, more := answers + seq(|plan| - n, _ => NotAsked), acts + [StopStarted(me)];
              && RaisedIn(all) == RaisedIn(answers) && Truthful(plan, all, !hardBreach, me, more, log)
              && Follows(CourseOf(plan, all, !hardBreach, InForce()), me, more)
    {
      hide CourseOf, CountAi, SentKeys, ValidReplies, NextOrder, AsksStore, HasReserved, TruthAt;
      var all, more := answers + seq(|plan| - n, _ => NotAsked), acts + [StopStarted(me)];
      var mayAsk := !hardBreach;
      assert all[..n] == answers;
      StoppedStays(plan, all, n, mayAsk, InForce());
      CountAiAdds(acts, [StopStarted(me)]);
      NoAiStop(me);
      SentKeysAdd(acts, [StopStarted(me)]);
      SentKeysOfOne(StopStarted(me));
      NotAskedNeverRaise(answers, |plan| - n);
      forall k | 0 <= k < |all|
        ensures TruthAt(NextOrder(CourseOf(plan[..k], all[..k], mayAsk, InForce()), plan[k], mayAsk, InForce()),
                        plan[k].replies.market, all[k], me, more, log)
      {
        if k < n {
          assert all[..k] == answers[..k];
          var order := NextOrder(CourseOf(plan[..k], answers[..k], mayAsk, InForce()), plan[k], mayAsk, InForce());
          TruthStays(order, plan[k].replies.market, answers[k], me, acts, [StopStarted(me)], before, log);
        } else {
          assert plan[..k][..n] == plan[..n] && all[..k][..n] == answers;
          StoppedStays(plan[..k], all[..k], n, mayAsk, InForce());
          NothingNext(CourseOf(plan[..k], all[..k], mayAsk, InForce()), plan[k], mayAsk, me, more, log);
        }
      }
    }

    lemma NothingNext(course: Course, l: Listed, mayAsk: bool, me: PartyId, acts: seq<Act>, log: Log)
      requires ValidReplies(l.replies) && course.stopped
      ensures TruthAt(NextOrder(course, l, mayAsk, InForce()), l.replies.market, NotAsked, me, acts, log)
    {}

    lemma AtTheStart(plan: seq<Listed>, hardBreach: bool, me: PartyId, log: Log)
      requires AllValid(plan)
      ensures Tracks(plan, 0, [], [], 0, false, hardBreach) && Truthful(plan, [], !hardBreach, me, [], log)
      ensures RaisedIn([]) == 0
    {
      assert plan[..0] == [];
    }

    lemma AtTheEnd(plan: seq<Listed>, answers: seq<StoreAnswer>, me: PartyId, acts: seq<Act>, ai: nat, blocked: bool,
                   hardBreach: bool)
      requires AllValid(plan) && |answers| == |plan| && Tracks(plan, |plan|, answers, acts, ai, blocked, hardBreach)
      requires StopStarted(me) !in acts
      ensures Follows(CourseOf(plan, answers, !hardBreach, InForce()), me, acts)
    {
      assert plan[..|plan|] == plan;
    }

    lemma StepRuns(acts: seq<Act>, step: seq<Act>, plan: seq<Listed>, i: nat, hardBreach: bool, allowAi: bool)
      requires AllValid(plan) && i < |plan| && Running(acts, AskingIds(plan), hardBreach)
      requires EntersOnly(step, {plan[i].replies.market.id}) && MarketActs(step)
      requires allowAi ==> !hardBreach && plan[i].allowed
      requires NoAi(step) ==> SellsOnly(step)
      requires !NoAi(step) ==> allowAi && ReachOf(plan[i].replies, mode, settings).Asks?
      ensures Running(acts + step, AskingIds(plan), hardBreach)
    {
      hide ReachOf, ValidReplies;
      if !NoAi(step) { assert plan[i].replies.market.id in AskingIds(plan); }
    }
  }

  lemma RaisedMore(answers: seq<StoreAnswer>, answer: StoreAnswer)
    ensures RaisedIn(answers + [answer]) == RaisedIn(answers) + RaisedIn([answer])
  {
    assert (answers + [answer])[..|answers|] == answers && [answer][..0] == [];
  }

  lemma {:induction false} NotAskedNeverRaise(answers: seq<StoreAnswer>, n: nat)
    ensures RaisedIn(answers + seq(n, _ => NotAsked)) == RaisedIn(answers)
  {
    if n == 0 {
      assert answers + seq(n, _ => NotAsked) == answers;
    } else {
      assert answers + seq(n, _ => NotAsked) == answers + seq(n - 1, _ => NotAsked) + [NotAsked];
      RaisedMore(answers + seq(n - 1, _ => NotAsked), NotAsked);
      NotAskedNeverRaise(answers, n - 1);
      NoneRaised();
    }
  }

  /** The stop is the last thing a cycle does. */
  predicate NothingAfterStop(acts: seq<Act>) {
    forall i | 0 <= i < |acts| && acts[i].StopStarted? :: i == |acts| - 1
  }

  predicate Running(acts: seq<Act>, ids: set<string>, hardBreach: bool) {
    MarketActs(acts) && EntersOnly(acts, ids) && (hardBreach ==> SellsOnly(acts) && NoAi(acts))
  }

  lemma WiderEnters(acts: seq<Act>, ids: set<string>, more: set<string>)
    requires EntersOnly(acts, ids) && forall id | id in ids :: id in more
    ensures EntersOnly(acts, more)
  {}

  lemma NoActs(ids: set<string>)
    ensures Running([], ids, true) && Running([], ids, false)
  {}

  lemma RunningMeans(acts: seq<Act>, ids: set<string>, hardBreach: bool)
    requires Running(acts, ids, hardBreach)
    ensures NothingAfterStop(acts) && EntersOnly(acts, ids) && (hardBreach ==> SellsOnly(acts) && NoAi(acts))
    ensures forall who :: StopStarted(who) !in acts && CancelAll(who) !in acts
  {
    assert forall i | 0 <= i < |acts| :: acts[i] in acts;
  }

  lemma StopRuns(acts: seq<Act>, me: PartyId, ids: set<string>, hardBreach: bool)
    requires Running(acts, ids, hardBreach)
    ensures var more := acts + [StopStarted(me)];
            && NothingAfterStop(more) && EntersOnly(more, ids) && (hardBreach ==> SellsOnly(more) && NoAi(more))
            && StopStarted(me) in more && CancelAll(me) !in more
  {
    assert forall i | 0 <= i < |acts| :: acts[i] in acts;
  }

  /** A cycle's opening enters nothing. */
  lemma OpeningIsQuiet(opening: seq<Act>, ids: set<string>)
    requires opening == [] || (|opening| == 1 && (opening[0].StopStarted? || opening[0].CancelAll?))
    ensures CountAi(opening) == 0 && SentKeys(opening) == [] && NothingAfterStop(opening)
    ensures EntersOnly(opening, ids) && SellsOnly(opening) && NoAi(opening)
  {
    NoAiCountsZero(opening);
    SentAreAll(opening);
  }

  lemma OpeningThen(opening: seq<Act>, rest: seq<Act>, me: PartyId, ids: set<string>)
    requires opening == [] || opening == [CancelAll(me)]
    requires NothingAfterStop(rest) && EntersOnly(rest, ids)
    ensures var acts := opening + rest;
            && NothingAfterStop(acts) && EntersOnly(acts, ids) && opening <= acts && acts[|opening|..] == rest
            && (SellsOnly(rest) ==> SellsOnly(acts)) && (NoAi(rest) ==> NoAi(acts))
            && CountAi(acts) == CountAi(rest) && SentKeys(acts) == SentKeys(rest)
            && (StopStarted(me) in acts <==> StopStarted(me) in rest)
  {
    hide CountAi, SentKeys;
    OpeningIsQuiet(opening, ids);
    CountAiAdds(opening, rest);
    SentKeysAdd(opening, rest);
  }

  lemma NoAiStop(me: PartyId)
    ensures CountAi([StopStarted(me)]) == 0
  {
    assert [StopStarted(me)][..0] == [];
  }

  lemma OneAi(me: PartyId, id: string)
    ensures CountAi([]) == 0 && CountAi([AiReserved(me, id)]) == 1
  {
    assert [AiReserved(me, id)][..0] == [];
  }

  lemma RiskExitSells(m: Market, yes: Book, no: Book, p: PortfolioState, s: Settings)
    requires ValidSnapshot(yes) && ValidSnapshot(no) && ValidMarket(m) && ValidSettings(s)
    ensures S.ChooseRiskExit(m, yes, no, p, s).Some? ==> S.ChooseRiskExit(m, yes, no, p, s).value.side == Sell
  {
    S.RiskExitOnlyUnderBreach(m, yes, no, p, s);
  }
}
