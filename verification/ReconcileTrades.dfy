/** Attributing an account trade to the bot, setting it aside, or failing closed (reconcile.py). */
module ReconcileTrades {
  import opened Wrappers

  datatype SideText = Maker | Taker | Blank | OtherText

  datatype Leg = Leg(orderId: string, token: string)

  /** A trade as the exchange lists it; an empty order identifier is a leg without one. */
  datatype Trade = Trade(id: string, side: SideText, taker: Leg, makers: seq<Leg>, matchedAt: Option<int>)

  /** One economic perspective of a trade. */
  type Update = Leg

  function MakerUpdates(makers: seq<Leg>): (u: seq<Update>)
    ensures forall x | x in u :: x in makers && x.orderId != ""
  {
    if makers == [] then []
    else MakerUpdates(makers[..|makers| - 1]) + if makers[|makers| - 1].orderId != "" then [makers[|makers| - 1]]
        else []
  }

  function TakerUpdates(t: Trade): seq<Update> { if t.taker.orderId != "" then [t.taker] else [] }

  function Updates(t: Trade): seq<Update> {
    match t.side
    case Maker => MakerUpdates(t.makers)
    case Taker => TakerUpdates(t)
    case _ => TakerUpdates(t) + MakerUpdates(t.makers)
  }

  datatype Verdict = Attributed(updates: seq<Update>) | Discarded | Quarantined(updates: seq<Update>) | FailClosed

  /** What the classification knows: the bot's durable orders and token footprint, the baseline,
      the quarantine switch. */
  datatype Ledgers = Ledgers(orders: set<string>, footprint: set<string>, baseline: Option<int>, quarantine: bool)

  function Owned(updates: seq<Update>, orders: set<string>): seq<Update> {
    if updates == [] then []
    else
      var last := updates[|updates| - 1];
      Owned(updates[..|updates| - 1], orders) + if last.orderId in orders then [last] else []
  }

  lemma {:induction false} OwnedMembers(updates: seq<Update>, orders: set<string>, u: Update)
    ensures u in Owned(updates, orders) <==> u in updates && u.orderId in orders
  {
    if updates != [] {
      OwnedMembers(updates[..|updates| - 1], orders, u);
      assert updates == updates[..|updates| - 1] + [updates[|updates| - 1]];
    }
  }

  predicate Foreign(token: string, l: Ledgers) { token !in l.footprint }

  /** Both sides of one trade are durable orders of the bot and the exchange did not say which it was. */
  predicate Ambiguous(t: Trade, l: Ledgers) {
    && t.side == Blank && t.taker.orderId in l.orders && t.taker.orderId != ""
    && exists m :: m in MakerUpdates(t.makers) && m.orderId in l.orders && m.orderId != t.taker.orderId
  }

  predicate BeforeBaseline(t: Trade, l: Ledgers) {
    l.baseline.Some? && t.matchedAt.Some? && t.matchedAt.value < l.baseline.value
  }

  predicate AllForeign(updates: seq<Update>, l: Ledgers) {
    forall u | u in updates :: Foreign(u.token, l)
  }

  /** Something identifiable, and nothing of the bot's. */
  predicate Quarantinable(updates: seq<Update>, l: Ledgers) {
    && (exists u :: u in updates && u.token != "")
    && forall u | u in updates && u.token != "" :: Foreign(u.token, l)
  }

  function Classify(t: Trade, l: Ledgers): Verdict {
    var updates := Updates(t);
    if Ambiguous(t, l) then FailClosed
    else if Owned(updates, l.orders) != [] then Attributed(Owned(updates, l.orders))
    else if BeforeBaseline(t, l) && AllForeign(updates, l) then Discarded
    else if l.quarantine && Quarantinable(updates, l) then Quarantined(updates)
    else FailClosed
  }

  ghost predicate SomeDurable(updates: seq<Update>, orders: set<string>, taker: string, same: bool) {
    exists k :: 0 <= k < |updates| && updates[k].orderId in orders && (updates[k].orderId == taker) == same
  }

  /** The perspectives whose order is durable, and whether they are on the taker's side, on a maker's, or on both. */
  method OwnUpdates(updates: seq<Update>, orders: set<string>, taker: string)
    returns (account: seq<Update>, durableTaker: bool, durableMaker: bool)
    ensures account == Owned(updates, orders)
    ensures durableTaker <==> SomeDurable(updates, orders, taker, true)
    ensures durableMaker <==> SomeDurable(updates, orders, taker, false)
  {
    hide SomeDurable;
    account, durableTaker, durableMaker := [], false, false;
    NoneDurable(orders, taker);
    for i := 0 to |updates|
      invariant account == Owned(updates[..i], orders)
      invariant durableTaker <==> SomeDurable(updates[..i], orders, taker, true)
      invariant durableMaker <==> SomeDurable(updates[..i], orders, taker, false)
    {
      assert updates[..i + 1][..i] == updates[..i];
      OneMore(updates, i, orders, taker, true);
      OneMore(updates, i, orders, taker, false);
      if updates[i].orderId in orders {
        account := account + [updates[i]];
        if updates[i].orderId == taker { durableTaker := true; } else { durableMaker := true; }
      }
    }
    assert updates[..|updates|] == updates;
  }

  lemma NoneDurable(orders: set<string>, taker: string)
    ensures !SomeDurable([], orders, taker, true) && !SomeDurable([], orders, taker, false)
  {}

  lemma OneMore(updates: seq<Update>, i: nat, orders: set<string>, taker: string, same: bool)
    requires i < |updates|
    ensures SomeDurable(updates[..i + 1], orders, taker, same)
            <==> SomeDurable(updates[..i], orders, taker, same)
                 || (updates[i].orderId in orders && (updates[i].orderId == taker) == same)
  {
    var less, more := updates[..i], updates[..i + 1];
    assert more[i] == updates[i];
    if SomeDurable(less, orders, taker, same) {
      var k :| 0 <= k < |less| && less[k].orderId in orders && (less[k].orderId == taker) == same;
      assert more[k] == less[k];
    }
    if SomeDurable(more, orders, taker, same) {
      var k :| 0 <= k < |more| && more[k].orderId in orders && (more[k].orderId == taker) == same;
      assert k < i ==> less[k] == more[k];
    }
  }

  /** The whole classification: own orders first, then the baseline, then the quarantine, otherwise fail closed. */
  method ClassifyTrade(t: Trade, l: Ledgers) returns (v: Verdict)
    ensures v == Classify(t, l)
  {
    hide Owned, Quarantinable, AllForeign, SomeDurable, Updates, Ambiguous;
    var updates := Updates(t);
    var account, durableTaker, durableMaker := OwnUpdates(updates, l.orders, t.taker.orderId);
    if t.side != Blank {
      OnlyBlankIsAmbiguous(t, l);
    } else {
      AmbiguityByOrders(t, l);
      if durableTaker && durableMaker { return FailClosed; }
    }
    if account != [] { return Attributed(account); }
    if l.baseline.Some? && t.matchedAt.Some? && t.matchedAt.value < l.baseline.value {
      var allForeign := EveryForeign(updates, l);
      if allForeign { return Discarded; }
    }
    if l.quarantine {
      var quarantinable := NothingOfTheBots(updates, l);
      if quarantinable { return Quarantined(updates); }
    }
    v := FailClosed;
  }

  lemma OnlyBlankIsAmbiguous(t: Trade, l: Ledgers)
    ensures t.side != Blank ==> !Ambiguous(t, l)
  {}

  method NothingOfTheBots(updates: seq<Update>, l: Ledgers) returns (r: bool)
    ensures r <==> Quarantinable(updates, l)
  {
    var identified := false;
    for i := 0 to |updates|
      invariant identified <==> exists k :: 0 <= k < i && updates[k].token != ""
      invariant forall k | 0 <= k < i && updates[k].token != "" :: Foreign(updates[k].token, l)
    {
      if updates[i].token != "" {
        identified := true;
        if updates[i].token in l.footprint { return false; }
      }
    }
    r := identified;
  }

  method EveryForeign(updates: seq<Update>, l: Ledgers) returns (all: bool)
    ensures all <==> AllForeign(updates, l)
  {
    for i := 0 to |updates|
      invariant forall k | 0 <= k < i :: Foreign(updates[k].token, l)
    {
      if updates[i].token in l.footprint { return false; }
    }
    return true;
  }

  /** The ambiguity test on order identifiers is the one on the two sides of the trade. */
  lemma AmbiguityByOrders(t: Trade, l: Ledgers)
    requires t.side == Blank
    ensures Ambiguous(t, l) <==>
              SomeDurable(Updates(t), l.orders, t.taker.orderId, true)
                  && SomeDurable(Updates(t), l.orders, t.taker.orderId, false)
  {
    var u, makers := Updates(t), MakerUpdates(t.makers);
    assert t.taker.orderId != "" ==> u[0] == t.taker;
    forall m | m in makers ensures exists k :: 0 <= k < |u| && u[k] == m {
      var j :| 0 <= j < |makers| && makers[j] == m;
      assert u[j + |TakerUpdates(t)|] == m;
    }
  }

  // ---------------------------------------------------------------- on the legs of the trade itself

  /** An identified leg on the side the exchange says was the account's: a maker's, the taker's, or, unsaid, either. */
  predicate OwnSide(t: Trade, u: Leg) {
    && u.orderId != ""
    && ((t.side != Taker && u in t.makers) || (t.side != Maker && u == t.taker))
  }

  lemma UpdatesAreOwnSide(t: Trade)
    ensures forall u :: u in Updates(t) <==> OwnSide(t, u)
  {
    forall u ensures u in MakerUpdates(t.makers) <==> u in t.makers && u.orderId != "" { MakersListed(t.makers, u); }
  }

  lemma {:induction false} MakersListed(makers: seq<Leg>, u: Leg)
    ensures u in MakerUpdates(makers) <==> u in makers && u.orderId != ""
  {
    if makers != [] {
      MakersListed(makers[..|makers| - 1], u);
      assert makers == makers[..|makers| - 1] + [makers[|makers| - 1]];
    }
  }

  /** The side is unsaid and both the taker's order and another maker's are the bot's. */
  ghost predicate BothSidesOwn(t: Trade, l: Ledgers) {
    && t.side == Blank && t.taker.orderId != "" && t.taker.orderId in l.orders
    && exists m :: m in t.makers && m.orderId in l.orders && m.orderId != "" && m.orderId != t.taker.orderId
  }

  /** ATTRIBUTION. A trade is attributed exactly when some leg of the account's side is one of the bot's orders, and
      then with exactly those legs; unless both sides are the bot's and the exchange did not say which it was. */
  lemma AttributedExactly(t: Trade, l: Ledgers)
    ensures Classify(t, l).Attributed?
            <==> !BothSidesOwn(t, l) && exists u :: OwnSide(t, u) && u.orderId in l.orders
    ensures Classify(t, l).Attributed? ==>
              forall u :: u in Classify(t, l).updates <==> OwnSide(t, u) && u.orderId in l.orders
  {
    hide Updates, Owned;
    UpdatesAreOwnSide(t);
    AmbiguousIsBothOwn(t, l);
    forall u ensures u in Owned(Updates(t), l.orders) <==> OwnSide(t, u) && u.orderId in l.orders {
      OwnedMembers(Updates(t), l.orders, u);
    }
    if u :| OwnSide(t, u) && u.orderId in l.orders { assert u in Owned(Updates(t), l.orders); }
    var owned := Owned(Updates(t), l.orders);
    if owned != [] { assert owned[0] in owned; }
  }

  lemma AmbiguousIsBothOwn(t: Trade, l: Ledgers)
    ensures Ambiguous(t, l) <==> BothSidesOwn(t, l)
  {
    forall u ensures u in MakerUpdates(t.makers) <==> u in t.makers && u.orderId != "" { MakersListed(t.makers, u); }
  }

  /** SOUNDNESS. A trade with at least one perspective is dropped only if every identified token on the account's side
      lies outside the bot's footprint and no leg there is the bot's own order; what is set aside is that side. */
  lemma DroppedOnlyIfForeign(t: Trade, l: Ledgers)
    requires (exists u :: OwnSide(t, u)) && (Classify(t, l).Discarded? || Classify(t, l).Quarantined?)
    ensures forall u | OwnSide(t, u) :: u.orderId !in l.orders && (u.token != "" ==> u.token !in l.footprint)
    ensures Classify(t, l).Discarded? ==>
              l.baseline.Some? && t.matchedAt.Some? && t.matchedAt.value < l.baseline.value
    ensures Classify(t, l).Quarantined? ==>
              l.quarantine && forall u :: u in Classify(t, l).updates <==> OwnSide(t, u)
  {
    hide Updates, Owned;
    UpdatesAreOwnSide(t);
    forall u | u in Updates(t) ensures u.orderId !in l.orders { OwnedMembers(Updates(t), l.orders, u); }
  }

  /** Some identified token on the account's side is the bot's. */
  ghost predicate TouchesBot(t: Trade, l: Ledgers) {
    exists u :: OwnSide(t, u) && u.token != "" && u.token in l.footprint
  }

  /** EXACTNESS. An unattributed trade fails closed exactly when it touches a token of the bot, or when neither rule
      covers it: the baseline, which also tests a blank identifier, or the quarantine, which needs an identified one. */
  lemma FailsClosedExactly(t: Trade, l: Ledgers)
    requires forall u | OwnSide(t, u) :: u.orderId !in l.orders
    ensures var blank := exists u :: OwnSide(t, u) && u.token == "";
            var identified := exists u :: OwnSide(t, u) && u.token != "";
            var early := l.baseline.Some? && t.matchedAt.Some? && t.matchedAt.value < l.baseline.value;
            Classify(t, l).FailClosed? <==>
              || TouchesBot(t, l)
              || ((!early || (blank && "" in l.footprint)) && (!l.quarantine || !identified))
  {
    hide Updates, Owned, Ambiguous;
    var updates := Updates(t);
    UpdatesAreOwnSide(t);
    AttributedExactly(t, l);
    AmbiguousIsBothOwn(t, l);
    NotAmbiguous(t, l);
    if updates != [] { assert updates[0] in updates; }
    assert forall u :: u in updates <==> OwnSide(t, u);
    if !TouchesBot(t, l) {
      assert AllForeign(updates, l) <==> !(exists u :: OwnSide(t, u) && u.token == "" && "" in l.footprint);
      assert Quarantinable(updates, l) <==> exists u :: OwnSide(t, u) && u.token != "";
    }
  }

  lemma NotAmbiguous(t: Trade, l: Ledgers)
    requires forall u | OwnSide(t, u) :: u.orderId !in l.orders
    ensures !BothSidesOwn(t, l)
  {
    assert t.side == Blank && t.taker.orderId != "" ==> OwnSide(t, t.taker);
  }

  /** What the bot's own orders take part in is never dropped. */
  lemma OwnTradesNeverDropped(t: Trade, l: Ledgers, u: Leg)
    requires OwnSide(t, u) && u.orderId in l.orders
    ensures Classify(t, l).FailClosed? || (Classify(t, l).Attributed? && u in Classify(t, l).updates)
    ensures t.side != Blank ==> Classify(t, l).Attributed?
  {
    hide Classify;
    AttributedExactly(t, l);
    DropsNothingOwn(t, l, u);
  }

  lemma DropsNothingOwn(t: Trade, l: Ledgers, u: Leg)
    requires OwnSide(t, u) && u.orderId in l.orders
    ensures Classify(t, l).FailClosed? || Classify(t, l).Attributed?
  {
    hide Updates, Owned;
    UpdatesAreOwnSide(t);
    OwnedMembers(Updates(t), l.orders, u);
  }

  /** A trade that yields no perspective at all is discarded before the baseline even on a token of the bot's. */
  lemma EmptyTradeDiscardedVacuously(token: string) returns (t: Trade, l: Ledgers)
    ensures Classify(t, l) == Discarded && t.taker.token == token && !Foreign(token, l)
  {
    t := Trade("t", Maker, Leg("o", token), [], Some(1));
    l := Ledgers({}, {token}, Some(2), true);
  }
}
