/** One reconciliation pass with its rolling cursors, and what any mix of passes has classified (reconcile.py). */
module Reconcile {
  import opened Wrappers
  import opened ReconcileTrades
  import opened ReconcilePositions

  const TRADE_LIMIT: nat := 100_000
  const ACTIVITY_LIMIT: nat := 4_500
  const OVERLAP := 60

  /** A paged listing: its rows, and whether it was read to the end or raised. */
  datatype Listing<T> = Listing(rows: seq<T>, complete: bool)

  /** What the exchange and the store answer during one pass; a false flag is a call that raised. */
  datatype Replies = Replies(
    ordersOk: bool, someAbsent: bool, trades: int -> Listing<Trade>, accepts: Trade -> bool, pending: Listing<Trade>,
    absencesOk: bool, activities: Listing<int>, scopeOk: bool, positions: Listing<RawPosition>, mapped: bool,
    fills: Option<FillLedger>, saved: bool, orders: set<string>, footprint: set<string>)

  function Larger(a: int, b: int): int { if a < b then b else a }

  function Latest(from: int, trades: seq<Trade>): int {
    if trades == [] then from
    else
      var last, before := trades[|trades| - 1], Latest(from, trades[..|trades| - 1]);
      if last.matchedAt.Some? then Larger(before, last.matchedAt.value) else before
  }

  function NextTradeCursor(cursor: nat, trades: seq<Trade>): nat { Larger(0, Latest(cursor, trades) - OVERLAP) }

  function LatestActivity(from: int, times: seq<int>): int {
    if times == [] then from else Larger(LatestActivity(from, times[..|times| - 1]), times[|times| - 1])
  }

  /** A trade has gone through classification when it was attributed, discarded or quarantined. */
  predicate Settled(t: Trade, l: Ledgers) { !Classify(t, l).FailClosed? }

  /** A listing read to the end within the safety limit, every row of it explained and stored. */
  ghost predicate AllSettled(listing: Listing<Trade>, l: Ledgers, accepts: Trade -> bool, counted: nat) {
    && listing.complete && (listing.rows == [] || counted + |listing.rows| < TRADE_LIMIT)
    && forall t | t in listing.rows :: Settled(t, l) && accepts(t)
  }

  /** The positions were listed to the end, mapped and saved, and every token that disagrees may be quarantined. */
  ghost predicate PositionsPass(env: Replies, quarantine: bool) {
    && env.positions.complete && AllParse(env.positions.rows) && env.mapped && env.saved && env.fills.Some?
    && forall token | !Agrees(PositionsOf(env.positions.rows), env.fills.value, token) ::
         quarantine && token !in env.footprint
  }

  /** Everything a pass has to get through before it may advance the cursors. */
  ghost predicate Completes(env: Replies, listing: Listing<Trade>, l: Ledgers) {
    && env.ordersOk && env.absencesOk && env.scopeOk
    && AllSettled(listing, l, env.accepts, 0) && AllSettled(env.pending, l, env.accepts, |listing.rows|)
    && env.activities.complete && |env.activities.rows| < ACTIVITY_LIMIT
    && PositionsPass(env, l.quarantine)
  }

  /** What one pass did: from which cursor it listed, what it read, whether it succeeded, and the cursor it left. */
  datatype Pass = Pass(before: nat, after: int, listed: seq<Trade>, ok: bool, next: nat)

  ghost predicate Chained(passes: seq<Pass>) {
    && (passes != [] ==> passes[0].before == 0)
    && (forall i | 0 <= i < |passes| :: PassOk(passes[i]))
    && (forall i | 0 < i < |passes| :: passes[i].before == passes[i - 1].next)
  }

  predicate PassOk(p: Pass) {
    && (p.after == p.before || p.after == 0)
    && p.next == if p.ok then NextTradeCursor(p.before, p.listed) else p.before
  }

  lemma LatestOfNone(from: int)
    ensures Latest(from, []) == from
  {}

  lemma LatestMore(from: int, trades: seq<Trade>, i: nat)
    requires i < |trades|
    ensures Latest(from, trades[..i + 1])
            == if trades[i].matchedAt.None? then Latest(from, trades[..i])
               else Larger(Latest(from, trades[..i]), trades[i].matchedAt.value)
  {
    assert trades[..i + 1][..i] == trades[..i];
  }

  class OrderReconciler {
    const quarantine: bool
    var tradeAfter: nat
    var activityStart: nat
    var baseline: Option<int>
    /** The passes since the last change of baseline. */
    ghost var passes: seq<Pass>

    ghost predicate Valid()
      reads this
    {
      Chained(passes) && tradeAfter == (if passes == [] then 0 else passes[|passes| - 1].next) && activityStart >= 1
    }

    constructor (quarantine: bool, baseline: Option<int>)
      ensures Valid() && passes == [] && this.quarantine == quarantine && this.baseline == baseline
    {
      this.quarantine, tradeAfter, activityStart, this.baseline, passes := quarantine, 0, 1, baseline, [];
    }

    /** A new baseline replays the account history from the start. */
    method SetBaseline(value: Option<int>)
      requires Valid()
      modifies this
      ensures Valid() && baseline == value && passes == [] && tradeAfter == 0 && activityStart == 1
    {
      baseline, tradeAfter, activityStart, passes := value, 0, 1, [];
    }

    /** Every row through the classification, fail closed on the first that cannot be explained or stored. */
    method SettleTrades(listing: Listing<Trade>, l: Ledgers, accepts: Trade -> bool, from: int, counted: nat)
      returns (ok: bool, latest: int, count: nat)
      ensures ok <==> AllSettled(listing, l, accepts, counted)
      ensures ok ==> latest == Latest(from, listing.rows) && count == counted + |listing.rows|
    {
      hide Classify, Latest, Larger;
      latest, count := from, counted;
      LatestOfNone(from);
      for i := 0 to |listing.rows|
        invariant latest == Latest(from, listing.rows[..i]) && count == counted + i && (i > 0 ==> count < TRADE_LIMIT)
        invariant forall k | 0 <= k < i :: Settled(listing.rows[k], l) && accepts(listing.rows[k])
      {
        LatestMore(from, listing.rows, i);
        var trade := listing.rows[i];
        assert trade in listing.rows;
        var verdict := ClassifyTrade(trade, l);
        if verdict.FailClosed? || !accepts(trade) { return false, latest, count; }
        if trade.matchedAt.Some? { latest := Larger(latest, trade.matchedAt.value); }
        count := count + 1;
        if count >= TRADE_LIMIT { return false, latest, count; }
      }
      assert listing.rows[..|listing.rows|] == listing.rows;
      ok := listing.complete;
    }

    method ReadActivities(listing: Listing<int>) returns (ok: bool, latest: int)
      ensures ok <==> listing.complete && |listing.rows| < ACTIVITY_LIMIT
      ensures ok ==> latest == LatestActivity(activityStart, listing.rows)
    {
      latest := activityStart;
      for i := 0 to |listing.rows|
        invariant latest == LatestActivity(activityStart, listing.rows[..i]) && i < ACTIVITY_LIMIT
      {
        assert listing.rows[..i + 1][..i] == listing.rows[..i];
        latest := Larger(latest, listing.rows[i]);
        if i + 1 >= ACTIVITY_LIMIT { return false, latest; }
      }
      assert listing.rows[..|listing.rows|] == listing.rows;
      ok := listing.complete;
    }

    /** Positions parsed, mapped, checked against the ledger, and only the bot's own ones saved. */
    method SettlePositions(env: Replies) returns (ok: bool, owned: seq<Position>)
      ensures ok <==> PositionsPass(env, quarantine)
      ensures ok ==> PositionsSound(env, owned)
    {
      owned := [];
      var positions := ParsePositions(env.positions.rows);
      if positions.None? || !env.positions.complete || !env.mapped || env.fills.None? { return false, owned; }
      var checked, foreign := CheckPositions(positions.value, env.fills.value, env.footprint, quarantine);
      if checked.None? { return false, owned; }
      owned := checked.value;
      ok := env.saved;
    }

    /** One pass. It succeeds exactly when everything it asks for comes through, and only then the cursors move. */
    method ReconcileRestOnce(env: Replies) returns (ok: bool, owned: seq<Position>)
      requires Valid()
      modifies this
      ensures Valid() && baseline == old(baseline)
      ensures |passes| == |old(passes)| + 1 && passes[..|old(passes)|] == old(passes)
      ensures var p := passes[|old(passes)|];
              && p.ok == ok && p.before == old(tradeAfter) && p.after == (if env.someAbsent then 0 else old(tradeAfter))
              && p.listed == env.trades(p.after).rows
      ensures !ok ==> tradeAfter == old(tradeAfter) && activityStart == old(activityStart)
      ensures ok ==> tradeAfter == NextTradeCursor(old(tradeAfter), passes[|old(passes)|].listed)
      ensures ok ==> activityStart == Larger(1, LatestActivity(old(activityStart), env.activities.rows) - OVERLAP)
      ensures ok <==> Completes(env, env.trades(if env.someAbsent then 0 else old(tradeAfter)),
                                Ledgers(env.orders, env.footprint, baseline, quarantine))
      ensures ok ==> PositionsSound(env, owned)
    {
      hide Chained, Latest, LatestActivity, PositionsSound, PositionsPass, AllSettled, Larger;
      var after := if env.someAbsent then 0 else tradeAfter;
      var listing := env.trades(after);
      var next, activity;
      ok, owned, next, activity := Attempt(env, listing);
      ghost var left := if ok then NextTradeCursor(tradeAfter, listing.rows) else tradeAfter;
      ghost var p := Pass(tradeAfter, after, listing.rows, ok, left);
      ChainMore(passes, p, tradeAfter);
      if ok { tradeAfter, activityStart := next, activity; }
      passes := passes + [p];
    }

    /** Everything a pass does before it may advance the cursors. */
    method Attempt(env: Replies, listing: Listing<Trade>)
      returns (ok: bool, owned: seq<Position>, next: nat, activity: nat)
      requires activityStart >= 1
      ensures ok ==> next == NextTradeCursor(tradeAfter, listing.rows)
      ensures ok ==> activity == Larger(1, LatestActivity(activityStart, env.activities.rows) - OVERLAP)
      ensures ok ==> activity >= 1
      ensures ok <==> Completes(env, listing, Ledgers(env.orders, env.footprint, baseline, quarantine))
      ensures ok ==> PositionsSound(env, owned)
    {
      hide PositionsSound, PositionsPass, AllSettled, Latest, LatestActivity;
      owned, next, activity := [], tradeAfter, activityStart;
      if !env.ordersOk { return false, owned, next, activity; }
      var l := Ledgers(env.orders, env.footprint, baseline, quarantine);
      var latest, count, ignored, latestActivity;
      ok, latest, count := SettleTrades(listing, l, env.accepts, tradeAfter, 0);
      if !ok { return; }
      ok, ignored, count := SettleTrades(env.pending, l, env.accepts, latest, count);
      if !ok || !env.absencesOk { return false, owned, next, activity; }
      ok, latestActivity := ReadActivities(env.activities);
      if !ok || !env.scopeOk { return false, owned, next, activity; }
      ok, owned := SettlePositions(env);
      if !ok { return; }
      next, activity := Larger(0, latest - OVERLAP), Larger(1, latestActivity - OVERLAP);
    }
  }

  /** After a successful pass: every token of the bot's footprint agrees, and so does every position that was saved. */
  ghost predicate PositionsSound(env: Replies, owned: seq<Position>) {
    env.fills.Some? && AllParse(env.positions.rows) &&
    var positions := PositionsOf(env.positions.rows);
    && (forall token | token in env.footprint :: Agrees(positions, env.fills.value, token))
    && (forall p | p in owned :: p in positions && Agrees(positions, env.fills.value, p.token))
    && (forall p | p in positions && Agrees(positions, env.fills.value, p.token) :: p in owned)
  }

  lemma ChainMore(passes: seq<Pass>, p: Pass, cursor: nat)
    requires Chained(passes) && PassOk(p) && p.before == cursor
    requires cursor == if passes == [] then 0 else passes[|passes| - 1].next
    ensures Chained(passes + [p])
  {}

  // ---- completeness of the rolling cursor

  /** Every visible trade carries a positive match time. */
  ghost predicate Stamped(trades: set<Trade>) {
    forall t | t in trades :: t.matchedAt.Some? && t.matchedAt.value > 0
  }

  /** How the exchange is trusted: `visible[i]` is what exists when pass i lists. A listing read to the end holds
      every visible trade newer than its cursor, nothing visible disappears, and a trade that shows up only after
      some trade was read is not 60 seconds or more older than it. */
  ghost predicate Trusted(passes: seq<Pass>, visible: seq<set<Trade>>) {
    && |visible| == |passes|
    && (forall i | 0 <= i < |passes| :: Stamped(visible[i]))
    && (forall i, j | 0 <= i <= j < |passes| :: visible[i] <= visible[j])
    && (forall i | 0 <= i < |passes| && passes[i].ok ::
          forall t | t in visible[i] && t.matchedAt.value > passes[i].after :: t in passes[i].listed)
    && (forall i, j | 0 <= i <= j < |passes| ::
          forall t, u | t in visible[j] && t !in visible[i] && u in passes[i].listed && u.matchedAt.Some? ::
            t.matchedAt.value > u.matchedAt.value - OVERLAP)
  }

  /** Read by some successful pass among the first n. */
  ghost predicate Classified(passes: seq<Pass>, n: nat, t: Trade) {
    exists i :: 0 <= i < n && i < |passes| && passes[i].ok && t in passes[i].listed
  }

  lemma {:induction false} LatestIsSome(from: int, trades: seq<Trade>)
    ensures Latest(from, trades) >= from
    ensures Latest(from, trades) == from || exists u :: u in trades && u.matchedAt == Some(Latest(from, trades))
  {
    if trades != [] {
      var init := trades[..|trades| - 1];
      LatestIsSome(from, init);
      if Latest(from, trades) != from {
        if Latest(from, trades) == Latest(from, init) {
          var u :| u in init && u.matchedAt == Some(Latest(from, init));
          assert u in trades;
        } else {
          assert trades[|trades| - 1] in trades;
        }
      }
    }
  }

  lemma {:induction false} LatestIsLast(from: int, trades: seq<Trade>, t: Trade)
    requires t in trades && t.matchedAt.Some?
    ensures Latest(from, trades) >= t.matchedAt.value
  {
    var n := |trades| - 1;
    if t in trades[..n] { LatestIsLast(from, trades[..n], t); } else { assert t == trades[n]; }
  }

  /** THE CURSOR. A successful pass leaves it 60 seconds behind the newest trade of its listing, or behind where it was
      if that is later, and never before zero. */
  lemma CursorExactly(cursor: nat, trades: seq<Trade>)
    ensures var newest := NextTradeCursor(cursor, trades) + 60;
            && newest >= 60 && newest >= cursor
            && (forall t | t in trades && t.matchedAt.Some? :: newest >= t.matchedAt.value)
            && (newest == 60 || newest == cursor || exists t :: t in trades && t.matchedAt == Some(newest))
  {
    hide Latest;
    LatestIsSome(cursor, trades);
    forall t | t in trades && t.matchedAt.Some? ensures Latest(cursor, trades) >= t.matchedAt.value {
      LatestIsLast(cursor, trades, t);
    }
  }

  lemma {:induction false} LatestActivityIsLast(from: int, times: seq<int>)
    ensures LatestActivity(from, times) >= from && forall x | x in times :: LatestActivity(from, times) >= x
    ensures LatestActivity(from, times) == from || LatestActivity(from, times) in times
  {
    if times != [] {
      LatestActivityIsLast(from, times[..|times| - 1]);
      assert times == times[..|times| - 1] + [times[|times| - 1]];
    }
  }

  /** Whatever is ever visible at or below the cursor has been classified already. */
  lemma {:induction false} BelowCursorIsClassified(passes: seq<Pass>, visible: seq<set<Trade>>, n: nat, j: nat,
                                                   t: Trade)
    requires Chained(passes) && Trusted(passes, visible) && n <= j < |passes| && t in visible[j]
    requires t.matchedAt.value <= if n == 0 then 0 else passes[n - 1].next
    ensures Classified(passes, n, t)
  {
    if n > 0 {
      var p := passes[n - 1];
      assert PassOk(p);
      assert p.before == if n == 1 then 0 else passes[n - 2].next;
      if p.ok && t.matchedAt.value > p.before {
        LatestIsSome(p.before, p.listed);
        var u :| u in p.listed && u.matchedAt == Some(Latest(p.before, p.listed));
        assert t in visible[n - 1];
        assert t in p.listed;
        assert Classified(passes, n, t);
      } else {
        BelowCursorIsClassified(passes, visible, n - 1, j, t);
      }
    }
  }

  /** COMPLETENESS. Over any mix of failing and successful passes, after each successful one every trade visible to it
      has gone through classification. */
  lemma SuccessfulPassIsComplete(passes: seq<Pass>, visible: seq<set<Trade>>, i: nat, t: Trade)
    requires Chained(passes) && Trusted(passes, visible) && i < |passes| && passes[i].ok && t in visible[i]
    ensures Classified(passes, i + 1, t)
  {
    var p := passes[i];
    assert PassOk(p);
    if t.matchedAt.value > p.after {
      assert t in p.listed;
    } else {
      BelowCursorIsClassified(passes, visible, i, i, t);
      assert Classified(passes, i, t);
    }
  }
}
