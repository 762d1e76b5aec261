/** The clean-up a former real-money deployment goes through before it may run paper or shadow cycles. */
module RuntimeDowngrade {
  import opened Modes
  import opened Wrappers
  import opened Histories
  import opened RuntimeControl
  import opened RuntimeWorld
  import opened RuntimeLatch
  import opened RuntimeStops

  /** None of these events takes the row into paper or shadow. */
  predicate Quiet(done: seq<Event>) {
    forall e | e in done && e.Disarmed? :: RealMoney(e.mode)
  }

  /** Nothing was left open when the party read this row. */
  predicate Settled(c: Control) {
    Stopped(c) && !c.pending
  }

  /** If the party's own disarm into paper or shadow lost an unacknowledged latch, another party moved the row after
      this one had read it as settled. */
  ghost predicate LeakOnlyByRace(before: Log, after: Log, me: AgentId) {
    forall l: nat | |before| <= l < |after| && after[l].event.who == me && Leak(after, l) ::
      exists p: nat :: |before| <= p < l && Settled(RowAt(after, p))
          && RowAt(after, p).version < RowAt(after, l).version
  }

  lemma QuietNeverLeaks(before: Log, after: Log, me: AgentId, done: seq<Event>)
    requires Added(before, after, By(me), done) && Quiet(done)
    ensures LeakOnlyByRace(before, after, me)
  {
    forall l: nat | |before| <= l < |after| && after[l].event.who == me ensures !Leak(after, l) {
      QuietHere(before, after, after, me, done, l);
    }
  }

  lemma LeakIsUnsettled(log: Log, l: nat)
    requires Leak(log, l)
    ensures !Settled(RowAt(log, l))
  {}

  lemma QuietHere(before: Log, mid: Log, after: Log, me: AgentId, done: seq<Event>, l: nat)
    requires Added(before, mid, By(me), done) && Quiet(done) && mid <= after
    requires |before| <= l < |mid| && after[l].event.who == me
    ensures !Leak(after, l)
  {
    AddedMembers(before, mid, By(me), done, l);
  }

  lemma LeakNeedsRace(before: Log, mid: Log, after: Log, me: AgentId, done: seq<Event>, p: nat)
    requires WellFormed(after) && Added(before, mid, By(me), done) && Quiet(done) && mid <= after
    requires |before| <= p <= |mid| && Settled(RowAt(mid, p))
    ensures LeakOnlyByRace(before, after, me)
  {
    hide StepOk, WellFormed, Leak, Settled, Added, Quiet;
    forall l: nat | |before| <= l < |after| && after[l].event.who == me && Leak(after, l)
      ensures exists p: nat ::
                |before| <= p < l && Settled(RowAt(after, p)) && RowAt(after, p).version < RowAt(after, l).version
    {
      if l < |mid| { QuietHere(before, mid, after, me, done, l); }
      VersionPins(after, p, l);
      LeakIsUnsettled(after, l);
      assert RowAt(after, p) == RowAt(mid, p);
    }
  }

  lemma QuietThen(xs: seq<Event>, ys: seq<Event>)
    requires Quiet(xs) && Quiet(ys)
    ensures Quiet(xs + ys)
  {}

  // ---------------------------------------------------------------- what a successful clean-up has done

  /** Something real-money may linger: in the row first read, or as an unresolved order. */
  predicate Historical(c: Control, clear: bool) {
    RealMoney(c.mode) || c.armed || c.accept || !c.kill || c.pending || !clear
  }

  function HistoricalMode(c: Control): Mode { if RealMoney(c.mode) then c.mode else Live }

  /** The row is already stopped and latched for its real-money mode. */
  predicate AlreadyLatched(c: Control) {
    c.pending && !c.armed && !c.accept && c.kill && c.mode == HistoricalMode(c)
  }

  function LatchTrace(me: AgentId, c: Control): seq<Event> {
    if AlreadyLatched(c) then [] else [Disarmed(me, HistoricalMode(c))]
  }

  /** One cancel and then listings, the last of them the only empty one. */
  function CancelTrace(me: AgentId, listings: nat): seq<Event> {
    [CancelIssued(me, false)] + seq(listings, _ => OrdersListed(me, false)) + [OrdersListed(me, true)]
  }

  function SettleTrace(me: AgentId, listings: nat): seq<Event> {
    CancelTrace(me, listings) + [LeaseChecked(me, true)] + [UnresolvedChecked(me, true), Acknowledged(me)]
  }

  function AlignTrace(me: AgentId, mode: Mode): seq<Event> { [Disarmed(me, mode), LeaseChecked(me, true)] }

  /** Every event of a clean-up that succeeds, in order, by the row it read first and its first order check. */
  function CleanTrace(me: AgentId, mode: Mode, c: Control, clear: bool, listings: nat): seq<Event> {
    var read := [UnresolvedChecked(me, clear), LeaseChecked(me, true)];
    if Historical(c, clear) then
      read + LatchTrace(me, c) + SettleTrace(me, listings) + [LeaseChecked(me, true)] + AlignTrace(me, mode)
    else if c.mode == mode then read
    else read + AlignTrace(me, mode)
  }

  /** The clean-up left exactly such a trace, with at most three listings. */
  ghost predicate Cleaned(done: seq<Event>, me: AgentId, mode: Mode, c: Control) {
    exists clear: bool, listings: nat :: listings < 3 && done == CleanTrace(me, mode, c, clear, listings)
  }

  /** The settling part of a trace: cancel, zero report, lease, order check, acknowledgement, lease, disarm, lease. */
  ghost predicate SettledInOrder(done: seq<Event>, me: AgentId, mode: Mode, i: nat, j: nat) {
    && i < j && |done| == j + 7 && done[i] == CancelIssued(me, false) && done[j] == OrdersListed(me, true)
    && done[j + 1] == done[j + 4] == done[j + 6] == LeaseChecked(me, true)
    && done[j + 2] == UnresolvedChecked(me, true) && done[j + 3] == Acknowledged(me)
       && done[j + 5] == Disarmed(me, mode)
  }

  // ---------------------------------------------------------------- where a clean-up breaks off

  /** The answer that breaks a trace off where it would have gone on with `expected`. */
  predicate Fails(expected: Event, e: Event, me: AgentId, listings: nat, version: nat) {
    || (expected == LeaseChecked(me, true) && e == LeaseChecked(me, false))
    || (expected == OrdersListed(me, true) && e == OrdersListed(me, false) && listings == 2)
    || (expected == UnresolvedChecked(me, true) && e == UnresolvedChecked(me, false))
    || (expected == Acknowledged(me) && e.AckRefused? && e == AckRefused(me, version, e.unresolved))
  }

  /** The trace was followed up to its last event, and that one is a failing answer. */
  ghost predicate Breaks(done: seq<Event>, trace: seq<Event>, me: AgentId, listings: nat, version: nat) {
    && 0 < |done| <= |trace| && done[..|done| - 1] == trace[..|done| - 1]
    && Fails(trace[|done| - 1], done[|done| - 1], me, listings, version)
  }

  /** The version a clean-up has to acknowledge: of the row it read, if that was latched already, and otherwise of the
      row its own disarm into the former mode wrote. */
  ghost predicate ToAcknowledge(log: Log, from: nat, me: AgentId, c: Control, version: nat) {
    if AlreadyLatched(c) then version == c.version
    else
      exists b: nat :: from < b <= |log| && log[b - 1].event == Disarmed(me, HistoricalMode(c))
                       && RowAt(log, b).version == version
  }

  /** A clean-up in which every call answered broke off past its first order check, at an answer that failed. */
  ghost predicate Interrupted(log: Log, from: nat, done: seq<Event>, me: AgentId, mode: Mode, c: Control) {
    exists clear: bool, listings: nat, version: nat ::
      InterruptedBy(log, from, done, me, mode, c, clear, listings, version)
  }

  ghost predicate InterruptedBy(log: Log, from: nat, done: seq<Event>, me: AgentId, mode: Mode, c: Control, clear: bool,
                                listings: nat, version: nat)
  {
    && listings < 3 && |done| > 1 && Breaks(done, CleanTrace(me, mode, c, clear, listings), me, listings, version)
    && (done[|done| - 1].AckRefused? ==> ToAcknowledge(log, from, me, c, version))
  }

  /** Without the key or a client the former exchange account cannot be reached: only the latch was set. */
  ghost predicate LatchedOnly(done: seq<Event>, me: AgentId, c: Control) {
    exists clear: bool ::
      Historical(c, clear) && done == [UnresolvedChecked(me, clear), LeaseChecked(me, true)] + LatchTrace(me, c)
  }

  lemma BreaksThen(xs: seq<Event>, done: seq<Event>, trace: seq<Event>, ys: seq<Event>, me: AgentId, listings: nat,
                   version: nat)
    requires Breaks(done, trace, me, listings, version)
    ensures Breaks(xs + done, xs + trace + ys, me, listings, version)
  {
    hide Fails;
    assert (xs + done)[..|xs + done| - 1] == xs + done[..|done| - 1];
    assert (xs + trace + ys)[..|xs + done| - 1] == xs + trace[..|done| - 1];
  }

  lemma ToAcknowledgeLater(log: Log, after: Log, from: nat, earlier: nat, me: AgentId, c: Control, version: nat)
    requires ToAcknowledge(log, from, me, c, version) && log <= after && earlier <= from
    ensures ToAcknowledge(after, earlier, me, c, version)
  {
    if !AlreadyLatched(c) {
      var b: nat :| from < b <= |log| && log[b - 1].event == Disarmed(me, HistoricalMode(c))
                    && RowAt(log, b).version == version;
      assert after[b - 1] == log[b - 1] && RowAt(after, b) == RowAt(log, b);
    }
  }

  /** The three ways the settling part can break off. */
  lemma ListingsBreak(me: AgentId, version: nat)
    ensures Breaks([CancelIssued(me, false)] + seq(3, _ => OrdersListed(me, false)), SettleTrace(me, 2), me, 2, version)
  {
    var done, trace := [CancelIssued(me, false)] + seq(3, _ => OrdersListed(me, false)), SettleTrace(me, 2);
    assert done[..3] == [CancelIssued(me, false), OrdersListed(me, false), OrdersListed(me, false)] == trace[..3];
  }

  lemma LeaseBreaks(me: AgentId, listings: nat, version: nat)
    ensures Breaks(CancelTrace(me, listings) + [LeaseChecked(me, false)], SettleTrace(me, listings), me, listings,
                   version)
  {
    hide CancelTrace;
    var c := CancelTrace(me, listings);
    assert (c + [LeaseChecked(me, false)])[..|c|] == c == SettleTrace(me, listings)[..|c|];
  }

  lemma AcknowledgementBreaks(me: AgentId, listings: nat, step: seq<Event>, version: nat)
    requires NotAcknowledged(step, me, version)
    ensures Breaks(CancelTrace(me, listings) + [LeaseChecked(me, true)] + step, SettleTrace(me, listings), me, listings,
                   version)
  {
    hide CancelTrace;
    var head, rest := CancelTrace(me, listings) + [LeaseChecked(me, true)],
        [UnresolvedChecked(me, true), Acknowledged(me)];
    assert Breaks(step, rest, me, listings, version);
    BreaksThen(head, step, rest, [], me, listings, version);
    assert head + rest + [] == SettleTrace(me, listings);
  }

  /** WHAT IT CALLS FOR. A row stopped and unlatched in paper or shadow, with a clear order check, is aligned at most;
      any other is latched in its real-money mode, live if it names none, unless it is so already, and only then
      cancelled. */
  lemma CallsForExactly(me: AgentId, mode: Mode, c: Control, clear: bool, listings: nat)
    ensures var trace, stopped := CleanTrace(me, mode, c, clear, listings), !c.armed && !c.accept && c.kill;
            var past := c.mode == Canary || c.mode == Live;
            var i := if past && stopped && c.pending then 2 else 3;
            if !past && stopped && !c.pending && clear
            then trace[2..] == if c.mode == mode then [] else [Disarmed(me, mode), LeaseChecked(me, true)]
            else |trace| > 3 && trace[i] == CancelIssued(me, false)
                 && (i == 3 ==> trace[2] == Disarmed(me, if c.mode == Canary then Canary else Live))
  {
    hide SettleTrace, CancelTrace;
    SettleTraceStarts(me, listings);
  }

  lemma SettleTraceStarts(me: AgentId, listings: nat)
    ensures |SettleTrace(me, listings)| > 1 && SettleTrace(me, listings)[0] == CancelIssued(me, false)
  {}

  /** A success over a real-money past, or over an order check that was not clear, went through all of it. */
  lemma CleanedInOrder(done: seq<Event>, me: AgentId, mode: Mode, c: Control)
    requires Cleaned(done, me, mode, c)
    ensures |done| >= 2 && done[0].UnresolvedChecked? && done[1] == LeaseChecked(me, true)
    ensures Historical(c, done[0] == UnresolvedChecked(me, true)) ==>
              exists i: nat, j: nat :: SettledInOrder(done, me, mode, i, j)
  {
    hide LatchTrace, CancelTrace, SettleTrace, AlignTrace, Historical;
    var clear: bool, listings: nat :| listings < 3 && done == CleanTrace(me, mode, c, clear, listings);
    CleanTraceStarts(me, mode, c, clear, listings);
    assert done[0] == UnresolvedChecked(me, clear);
    if Historical(c, clear) {
      var head := [UnresolvedChecked(me, clear), LeaseChecked(me, true)] + LatchTrace(me, c);
      RestOfTrace(me, mode, c, clear, listings);
      InOrder(done, head, me, mode, listings);
    }
  }

  lemma RestOfTrace(me: AgentId, mode: Mode, c: Control, clear: bool, listings: nat)
    requires Historical(c, clear)
    ensures CleanTrace(me, mode, c, clear, listings)
            == [UnresolvedChecked(me, clear), LeaseChecked(me, true)] + LatchTrace(me, c) + CancelTrace(me, listings)
               + EndOfTrace(me, mode)
  {
    hide LatchTrace, CancelTrace, Historical;
  }

  function EndOfTrace(me: AgentId, mode: Mode): seq<Event> {
    [LeaseChecked(me, true), UnresolvedChecked(me, true), Acknowledged(me), LeaseChecked(me, true), Disarmed(me, mode),
     LeaseChecked(me, true)]
  }

  lemma InOrder(done: seq<Event>, head: seq<Event>, me: AgentId, mode: Mode, listings: nat)
    requires done == head + CancelTrace(me, listings) + EndOfTrace(me, mode)
    ensures SettledInOrder(done, me, mode, |head|, |head| + listings + 1)
  {
    var n := |head| + listings + 2;
    assert forall k | 0 <= k < 6 :: done[n + k] == EndOfTrace(me, mode)[k];
    assert done[|head|] == CancelTrace(me, listings)[0];
    assert done[n - 1] == CancelTrace(me, listings)[listings + 1];
  }

  /** The exchange side of the clean-up: one cancel, then at most three listings until none is open. */
  method CancelAndList(w: World, me: AgentId)
    returns (empty: bool, ghost cancel: nat, ghost listings: nat, ghost done: seq<Event>)
    requires w.Valid()
    modifies w
    ensures w.Grew(me, done) && Quiet(done) && |old(w.log)| <= cancel < |w.log|
    ensures w.log[cancel].event == CancelIssued(me, false)
    ensures empty ==> cancel < |w.log| - 1 && w.log[|w.log| - 1].event == OrdersListed(me, true)
    ensures empty ==> listings < 3 && done == CancelTrace(me, listings)
    ensures !empty ==> listings <= 3 && done == [CancelIssued(me, false)] + seq(listings, _ => OrdersListed(me, false))
    ensures w.faults >= old(w.faults) && (!empty && w.faults == old(w.faults) ==> listings == 3)
  {
    hide StepOk, WellFormed, Disciplined, Added;
    empty, listings := false, 0;
    var raised := w.IssueCancel(me);
    done, cancel := [CancelIssued(me, false)], |w.log| - 1;
    AddedPrefix(old(w.log), w.log, By(me), done);
    assert done == [CancelIssued(me, false)] + seq(0, _ => OrdersListed(me, false));
    if raised { return; }
    for attempt := 0 to 3
      invariant w.Grew(me, done) && Quiet(done) && |old(w.log)| <= cancel < |w.log|
      invariant w.log[cancel].event == CancelIssued(me, false) && !empty && listings == attempt
      invariant done == [CancelIssued(me, false)] + seq(attempt, _ => OrdersListed(me, false))
      invariant w.faults == old(w.faults)
    {
      ghost var first, before := w.log, done;
      var open := w.ListOpenOrders(me);
      ghost var step := [OrdersListed(me, open == Ok(0))];
      Chain(old(w.log), first, w.log, me, done, step);
      done := done + step;
      if open == Ok(0) { return true, cancel, attempt, done; }
      assert seq(attempt + 1, _ => OrdersListed(me, false)) == seq(attempt, _ => OrdersListed(me, false)) + step;
      listings := attempt + 1;
      if open.Raised? { return; }
    }
  }

  /** The rest of the exchange side: the lease still holds, and the cancelled version is acknowledged. */
  method SettleHistory(w: World, me: AgentId, disarmed: Control, ghost from: nat, ghost b: nat)
    returns (settled: bool, ghost listings: nat, ghost done: seq<Event>)
    requires w.Valid() && Seen(w.log, from, b, disarmed)
    modifies w
    ensures w.Grew(me, done) && Quiet(done)
    ensures settled ==> listings < 3 && done == SettleTrace(me, listings) && Settled(w.row)
    ensures w.faults >= old(w.faults)
    ensures !settled && w.faults == old(w.faults) ==>
              listings < 3 && Breaks(done, SettleTrace(me, listings), me, listings, disarmed.version)
  {
    hide StepOk, WellFormed, Disciplined, Added, Quiet, Breaks, SettleTrace, CancelTrace, NotAcknowledged;
    settled := false;
    ghost var cancel, step;
    var empty;
    empty, cancel, listings, done := CancelAndList(w, me);
    AddedPrefix(old(w.log), w.log, By(me), done);
    if !empty {
      listings := 2;
      ListingsBreak(me, disarmed.version);
      return;
    }
    LeaseBreaks(me, listings, disarmed.version);
    ghost var first, zero := w.log, |w.log| - 1;
    var lease := w.ValidateLease(me);
    step := [LeaseChecked(me, lease == Ok(true))];
    Chain(old(w.log), first, w.log, me, done, step);
    QuietCheck(me, lease == Ok(true));
    QuietThen(done, step);
    done := done + step;
    if lease != Ok(true) { return; }
    first := w.log;
    var acknowledged;
    acknowledged, step := AcknowledgeIfClear(w, me, disarmed, from, b, cancel, zero);
    Chain(old(w.log), first, w.log, me, done, step);
    QuietAcks(me, step);
    QuietThen(done, step);
    if acknowledged.None? && w.faults == old(w.faults) { AcknowledgementBreaks(me, listings, step, disarmed.version); }
    SettleTraceIs(me, listings);
    done := done + step;
    settled := acknowledged.Some?;
  }

  lemma QuietCheck(me: AgentId, valid: bool)
    ensures Quiet([LeaseChecked(me, valid)])
  {}

  lemma QuietAcks(me: AgentId, step: seq<Event>)
    requires forall e | e in step :: e.UnresolvedChecked? || e == Acknowledged(me) || e.AckRefused?
    ensures Quiet(step)
  {}

  /** The last disarm moves the row into the new mode; the lease is validated after it. */
  method Align(w: World, me: AgentId, mode: Mode)
    returns (aligned: Option<Control>, ghost b: nat, ghost done: seq<Event>)
    requires w.Valid()
    modifies w
    ensures w.Grew(me, done)
    ensures aligned.Some? ==> Seen(w.log, |old(w.log)|, b, aligned.value) && done == AlignTrace(me, mode)
    ensures aligned.Some? ==>
              Stopped(aligned.value) && aligned.value.mode == mode && aligned.value.pending == RealMoney(mode)
    ensures w.faults >= old(w.faults)
    ensures aligned.None? && w.faults == old(w.faults) ==> done == [Disarmed(me, mode), LeaseChecked(me, false)]
  {
    hide StepOk, WellFormed, Disciplined, Added;
    aligned, b := None, 0;
    var disarmed;
    disarmed, done := w.DisarmControl(me, mode);
    AddedPrefix(old(w.log), w.log, By(me), done);
    if disarmed.Raised? { return; }
    b := |w.log|;
    ghost var first := w.log;
    var lease := w.ValidateLease(me);
    ghost var step := [LeaseChecked(me, lease == Ok(true))];
    Chain(old(w.log), first, w.log, me, done, step);
    done := done + step;
    if lease == Ok(true) { aligned := Some(disarmed.value); }
  }

  /** What the clean-up found first: the row, whether the order check was clear, and a valid lease. */
  method ReadHistory(w: World, me: AgentId)
    returns (found: Option<(Control, bool)>, ghost b: nat, ghost done: seq<Event>)
    requires w.Valid()
    modifies w
    ensures w.Grew(me, done) && Quiet(done)
    ensures found.Some? ==> done == [UnresolvedChecked(me, found.value.1), LeaseChecked(me, true)]
    ensures found.Some? ==> Seen(w.log, |old(w.log)|, b, found.value.0) && ValidShape(found.value.0)
    ensures w.faults >= old(w.faults)
    ensures found.None? && w.faults == old(w.faults) ==>
              && |old(w.log)| <= b <= |w.log|
              && |done| == 2 && done[0].UnresolvedChecked? && done[0].who == me && done[1] == LeaseChecked(me, false)
  {
    hide StepOk, WellFormed, Disciplined, Added;
    found, done, b := None, [], 0;
    var got := w.GetControl(me);
    AddedPrefix(old(w.log), w.log, By(me), done);
    if got.Raised? { return; }
    b := |w.log|;
    ShapeKept(w.log, b);
    ghost var first := w.log;
    var unresolved := w.HasUnresolvedOrders(me);
    ghost var step := [UnresolvedChecked(me, unresolved == Ok(false))];
    Chain(old(w.log), first, w.log, me, done, step);
    done := done + step;
    if unresolved.Raised? { return; }
    first := w.log;
    var lease := w.ValidateLease(me);
    step := [LeaseChecked(me, lease == Ok(true))];
    Chain(old(w.log), first, w.log, me, done, step);
    done := done + step;
    if lease == Ok(true) { found := Some((got.value, !unresolved.value)); }
  }

  /** Make sure the historical real-money row is stopped and latched before touching the exchange. */
  method LatchHistory(w: World, me: AgentId, control: Control, ghost from: nat, ghost at: nat)
    returns (disarmed: Option<Control>, ghost b: nat, ghost done: seq<Event>)
    requires w.Valid() && Seen(w.log, from, at, control)
    modifies w
    ensures w.Grew(me, done) && Quiet(done)
    ensures disarmed.Some? ==> done == LatchTrace(me, control)
    ensures disarmed.Some? ==>
              Seen(w.log, from, b, disarmed.value) && disarmed.value.pending && RealMoney(disarmed.value.mode)
    ensures disarmed.Some? ==> ToAcknowledge(w.log, from, me, control, disarmed.value.version)
    ensures w.faults >= old(w.faults) && (w.faults == old(w.faults) ==> disarmed.Some?)
  {
    hide StepOk, WellFormed, Disciplined, Added;
    done, b := [], at;
    AddedNothing(w.log, By(me));
    var mode := if RealMoney(control.mode) then control.mode else Live;
    if control.pending && !control.armed && !control.accept && control.kill && control.mode == mode {
      return Some(control), b, done;
    }
    var reply;
    reply, done := w.DisarmControl(me, mode);
    AddedPrefix(old(w.log), w.log, By(me), done);
    disarmed := None;
    if reply.Ok? { disarmed, b := Some(reply.value), |w.log|; }
  }

  /** The whole clean-up of a real-money past, up to the final disarm. */
  method CleanHistory(w: World, me: AgentId, control: Control, clear: bool, hasKey: bool, clientOpens: bool,
                      ghost from: nat, ghost at: nat)
    returns (settled: bool, ghost p: nat, ghost version: nat, ghost listings: nat, ghost done: seq<Event>)
    requires w.Valid() && Seen(w.log, from, at, control)
    modifies w
    ensures w.Grew(me, done) && Quiet(done)
    ensures settled ==> listings < 3
    ensures settled ==> done == LatchTrace(me, control) + SettleTrace(me, listings) + [LeaseChecked(me, true)]
    ensures settled ==> |old(w.log)| <= p <= |w.log| && Settled(RowAt(w.log, p))
    ensures w.faults >= old(w.faults)
    ensures settled ==> hasKey && clientOpens
    ensures !settled && w.faults == old(w.faults) && !(hasKey && clientOpens) ==> done == LatchTrace(me, control)
    ensures !settled && w.faults == old(w.faults) && hasKey && clientOpens ==>
              && listings < 3 && ToAcknowledge(w.log, from, me, control, version)
              && Breaks(done, LatchTrace(me, control) + SettleTrace(me, listings) + [LeaseChecked(me, true)], me,
                        listings, version)
  {
    hide StepOk, WellFormed, Disciplined, Added, Quiet, SettleTrace, LatchTrace, Settled, Breaks, ToAcknowledge;
    settled, p, listings, version := false, 0, 0, 0;
    var disarmed;
    ghost var b, step;
    disarmed, b, done := LatchHistory(w, me, control, from, at);
    AddedPrefix(old(w.log), w.log, By(me), done);
    if disarmed.None? || !hasKey || !clientOpens { return; }
    version := disarmed.value.version;
    ghost var first := w.log;
    settled, listings, step := SettleHistory(w, me, disarmed.value, from, b);
    Chain(old(w.log), first, w.log, me, done, step);
    QuietThen(done, step);
    ToAcknowledgeLater(first, w.log, from, from, me, control, version);
    if !settled && w.faults == old(w.faults) {
      BreaksThen(done, step, SettleTrace(me, listings), [LeaseChecked(me, true)], me, listings, version);
    }
    done, p := done + step, |w.log|;
    if !settled { return; }
    first := w.log;
    var lease := w.ValidateLease(me);
    step := [LeaseChecked(me, lease == Ok(true))];
    Chain(old(w.log), first, w.log, me, done, step);
    QuietCheck(me, lease == Ok(true));
    QuietThen(done, step);
    ToAcknowledgeLater(first, w.log, from, from, me, control, version);
    LastBreaks(done, me, listings, version);
    done := done + step;
    settled := lease == Ok(true);
  }

  lemma LastBreaks(done: seq<Event>, me: AgentId, listings: nat, version: nat)
    ensures Breaks(done + [LeaseChecked(me, false)], done + [LeaseChecked(me, true)], me, listings, version)
  {
    assert (done + [LeaseChecked(me, false)])[..|done|] == done == (done + [LeaseChecked(me, true)])[..|done|];
  }

  lemma SettleTraceIs(me: AgentId, listings: nat)
    ensures SettleTrace(me, listings)
            == CancelTrace(me, listings) + [LeaseChecked(me, true)] + [UnresolvedChecked(me, true), Acknowledged(me)]
  {}

  lemma CleanTraceStarts(me: AgentId, mode: Mode, c: Control, clear: bool, listings: nat)
    ensures [UnresolvedChecked(me, clear), LeaseChecked(me, true)] <= CleanTrace(me, mode, c, clear, listings)
  {
    hide LatchTrace, SettleTrace, Historical;
  }

  lemma IsLatchedOnly(done: seq<Event>, me: AgentId, c: Control, clear: bool)
    requires Historical(c, clear) && done == [UnresolvedChecked(me, clear), LeaseChecked(me, true)] + LatchTrace(me, c)
    ensures LatchedOnly(done, me, c)
  {
    hide LatchTrace;
  }

  lemma ReadBreaks(log: Log, from: nat, done: seq<Event>, me: AgentId, mode: Mode, c: Control)
    requires |done| == 2 && done[0].UnresolvedChecked? && done[0].who == me && done[1] == LeaseChecked(me, false)
    ensures Interrupted(log, from, done, me, mode, c)
  {
    hide CleanTrace, ToAcknowledge;
    var clear := done[0].clear;
    var trace, read := CleanTrace(me, mode, c, clear, 0), [UnresolvedChecked(me, clear), LeaseChecked(me, true)];
    CleanTraceStarts(me, mode, c, clear, 0);
    assert trace[0] == read[0] && trace[1] == read[1];
    assert done[..1] == trace[..1];
    assert InterruptedBy(log, from, done, me, mode, c, clear, 0, 0);
  }

  lemma CleaningBreaks(log: Log, from: nat, step: seq<Event>, me: AgentId, mode: Mode, c: Control, clear: bool,
                       listings: nat, version: nat)
    requires Historical(c, clear) && listings < 3 && ToAcknowledge(log, from, me, c, version)
    requires Breaks(step, LatchTrace(me, c) + SettleTrace(me, listings) + [LeaseChecked(me, true)], me, listings,
                    version)
    ensures Interrupted(log, from, [UnresolvedChecked(me, clear), LeaseChecked(me, true)] + step, me, mode, c)
  {
    hide LatchTrace, SettleTrace, Historical, ToAcknowledge, CleanTrace, Fails;
    var read := [UnresolvedChecked(me, clear), LeaseChecked(me, true)];
    TraceShape(me, mode, c, clear, listings);
    BreaksThen(read, step, LatchTrace(me, c) + SettleTrace(me, listings) + [LeaseChecked(me, true)],
               AlignTrace(me, mode), me, listings, version);
    assert InterruptedBy(log, from, read + step, me, mode, c, clear, listings, version);
  }

  /** `done` is everything before the last disarm. */
  lemma AligningBreaks(log: Log, from: nat, done: seq<Event>, me: AgentId, mode: Mode, c: Control, clear: bool,
                       listings: nat)
    requires listings < 3 && CleanTrace(me, mode, c, clear, listings) == done + AlignTrace(me, mode)
    ensures Interrupted(log, from, done + [Disarmed(me, mode), LeaseChecked(me, false)], me, mode, c)
  {
    hide CleanTrace, Breaks, ToAcknowledge;
    var head := done + [Disarmed(me, mode)];
    LastBreaks(head, me, listings, 0);
    assert head + [LeaseChecked(me, false)] == done + [Disarmed(me, mode), LeaseChecked(me, false)];
    assert head + [LeaseChecked(me, true)] == done + AlignTrace(me, mode);
    assert InterruptedBy(log, from, head + [LeaseChecked(me, false)], me, mode, c, clear, listings, 0);
  }

  /** The trace of a clean-up, regrouped as it happens. */
  lemma TraceShape(me: AgentId, mode: Mode, c: Control, clear: bool, listings: nat)
    ensures Historical(c, clear) ==>
              CleanTrace(me, mode, c, clear, listings)
              == [UnresolvedChecked(me, clear), LeaseChecked(me, true)]
                 + (LatchTrace(me, c) + SettleTrace(me, listings) + [LeaseChecked(me, true)]) + AlignTrace(me, mode)
  {
    hide SettleTrace, LatchTrace;
  }

  lemma SettledByShape(c: Control, clear: bool)
    requires ValidShape(c) && !Historical(c, clear)
    ensures Settled(c)
  {}

  lemma QuietEmpty(before: Log, after: Log, me: AgentId)
    requires before == after
    ensures LeakOnlyByRace(before, after, me)
  {}

  lemma IsSettled(c: Control)
    requires Stopped(c) && !c.pending
    ensures Settled(c)
  {}

  /** The last step, entered with everything before it done and a settled row seen at p. */
  method AlignAfter(w: World, me: AgentId, mode: Mode, ghost start: Log, ghost before: seq<Event>, ghost p: nat,
                    ghost c: Control, ghost clear: bool, ghost listings: nat)
    returns (ok: bool, ghost b: nat, ghost done: seq<Event>)
    requires w.Valid() && !RealMoney(mode) && Added(start, w.log, By(me), before) && Quiet(before)
    requires |start| <= p <= |w.log| && Settled(RowAt(w.log, p))
    requires listings < 3 && CleanTrace(me, mode, c, clear, listings) == before + AlignTrace(me, mode)
    modifies w
    ensures w.Valid() && Added(start, w.log, By(me), done) && LeakOnlyByRace(start, w.log, me) && old(w.log) <= w.log
    ensures ok ==> Cleaned(done, me, mode, c)
    ensures ok ==> |start| <= b <= |w.log| && Settled(RowAt(w.log, b)) && RowAt(w.log, b).mode == mode
    ensures w.faults >= old(w.faults)
    ensures !ok && w.faults == old(w.faults) ==> Interrupted(w.log, |start|, done, me, mode, c)
  {
    hide StepOk, WellFormed, Disciplined, Added, Quiet, LeakOnlyByRace, Settled, Interrupted, CleanTrace, Cleaned;
    ghost var first := w.log;
    var aligned;
    ghost var step;
    AddedPrefix(start, first, By(me), before);
    aligned, b, step := Align(w, me, mode);
    Chain(start, first, w.log, me, before, step);
    AddedPrefix(first, w.log, By(me), step);
    LeakNeedsRace(start, first, w.log, me, before, p);
    ok, done := aligned.Some?, before + step;
    if ok {
      IsSettled(aligned.value);
      IsCleaned(done, me, mode, c, clear, listings);
    } else if w.faults == old(w.faults) {
      AligningBreaks(w.log, |start|, before, me, mode, c, clear, listings);
    }
  }

  /** Everything after the first look: the clean-up where there is a real-money past, and the last disarm. */
  method CleanAndAlign(w: World, me: AgentId, mode: Mode, control: Control, clear: bool, hasKey: bool,
                       clientOpens: bool, ghost start: Log, ghost read: seq<Event>, ghost at: nat)
    returns (ok: bool, ghost b: nat, ghost done: seq<Event>)
    requires w.Valid() && !RealMoney(mode) && Added(start, w.log, By(me), read) && Quiet(read)
    requires read == [UnresolvedChecked(me, clear), LeaseChecked(me, true)]
    requires Seen(w.log, |start|, at, control) && ValidShape(control)
    modifies w
    ensures w.Valid() && Added(start, w.log, By(me), done) && LeakOnlyByRace(start, w.log, me)
    ensures ok ==> Cleaned(done, me, mode, control)
    ensures ok ==> |start| <= b <= |w.log| && Settled(RowAt(w.log, b)) && RowAt(w.log, b).mode == mode
    ensures at <= |w.log| && RowAt(w.log, at) == control
    ensures w.faults >= old(w.faults)
    ensures !ok && w.faults == old(w.faults) ==>
              || Interrupted(w.log, |start|, done, me, mode, control)
              || (!(hasKey && clientOpens) && LatchedOnly(done, me, control))
  {
    hide StepOk, WellFormed, Disciplined, Added, Quiet, LeakOnlyByRace, Settled, ValidShape, SettleTrace, LatchTrace,
      Interrupted, Breaks, ToAcknowledge, Historical, CleanTrace, AlignTrace, Cleaned, LatchedOnly;
    ok, b, done := false, at, read;
    ghost var p, first, listings, step, version := at, w.log, 0, [], 0;
    AddedPrefix(start, first, By(me), read);
    if Historical(control, clear) {
      var settled;
      settled, p, version, listings, step := CleanHistory(w, me, control, clear, hasKey, clientOpens, |start|, at);
      Chain(start, first, w.log, me, read, step);
      AddedPrefix(first, w.log, By(me), step);
      QuietThen(read, step);
      done := read + step;
      if !settled {
        QuietNeverLeaks(start, w.log, me, done);
        if w.faults == old(w.faults) && hasKey && clientOpens {
          CleaningBreaks(w.log, |start|, step, me, mode, control, clear, listings, version);
        } else if w.faults == old(w.faults) {
          IsLatchedOnly(done, me, control, clear);
        }
        return;
      }
      TraceShape(me, mode, control, clear, listings);
    } else {
      SettledByShape(control, clear);
      ShortTrace(me, mode, control, clear, listings);
      if control.mode == mode {
        QuietNeverLeaks(start, w.log, me, done);
        assert read + [] == read;
        IsCleaned(read, me, mode, control, clear, listings);
        return true, b, done;
      }
    }
    first := w.log;
    ok, b, done := AlignAfter(w, me, mode, start, done, p, control, clear, listings);
  }

  lemma IsCleaned(done: seq<Event>, me: AgentId, mode: Mode, c: Control, clear: bool, listings: nat)
    requires listings < 3 && done == CleanTrace(me, mode, c, clear, listings)
    ensures Cleaned(done, me, mode, c)
  {
    hide CleanTrace;
  }

  lemma ShortTrace(me: AgentId, mode: Mode, c: Control, clear: bool, listings: nat)
    ensures !Historical(c, clear) ==>
              CleanTrace(me, mode, c, clear, listings)
              == [UnresolvedChecked(me, clear), LeaseChecked(me, true)]
                 + (if c.mode == mode then [] else AlignTrace(me, mode))
  {
    hide SettleTrace, LatchTrace, Historical;
  }

  /** The whole clean-up. True only after exactly the trace above, with a row seen settled in the new mode. */
  method ClearPersonalLiveDowngrade(w: World, me: AgentId, mode: Mode, hasKey: bool, clientOpens: bool)
    returns (ok: bool, ghost read: nat, ghost b: nat, ghost done: seq<Event>)
    requires w.Valid()
    modifies w
    ensures w.Grew(me, done) && LeakOnlyByRace(old(w.log), w.log, me)
    ensures RealMoney(mode) ==> ok && done == []
    ensures ok && !RealMoney(mode) ==>
              |old(w.log)| <= b <= |w.log| && Settled(RowAt(w.log, b)) && RowAt(w.log, b).mode == mode
    ensures ok && !RealMoney(mode) ==> |old(w.log)| <= read <= |w.log| && Cleaned(done, me, mode, RowAt(w.log, read))
    // When every call answers, a failure is an answer that broke the trace off, or the missing key or client.
    ensures !ok && w.faults == old(w.faults) ==> |old(w.log)| <= read <= |w.log|
    ensures !ok && w.faults == old(w.faults) ==>
              || Interrupted(w.log, |old(w.log)|, done, me, mode, RowAt(w.log, read))
              || (!(hasKey && clientOpens) && LatchedOnly(done, me, RowAt(w.log, read)))
  {
    hide StepOk, WellFormed, Disciplined, Added, Quiet, LeakOnlyByRace, Settled, ValidShape, Interrupted, Cleaned,
      LatchedOnly;
    ok, done, read, b := RealMoney(mode), [], 0, 0;
    AddedNothing(w.log, By(me));
    QuietEmpty(old(w.log), w.log, me);
    if ok { return; }
    var found;
    found, read, done := ReadHistory(w, me);
    QuietNeverLeaks(old(w.log), w.log, me, done);
    if found.None? {
      if w.faults == old(w.faults) { ReadBreaks(w.log, |old(w.log)|, done, me, mode, RowAt(w.log, read)); }
      return;
    }
    var (control, clear) := found.value;
    ok, b, done := CleanAndAlign(w, me, mode, control, clear, hasKey, clientOpens, old(w.log), done, read);
  }
}
