/** The parties that stop real-money trading, each against a world in which all the others keep acting. */
module RuntimeLatch {
  import opened Modes
  import opened Wrappers
  import opened Histories
  import opened RuntimeControl
  import opened RuntimeWorld

  class WatchState {
    var lastVersion: Option<nat>
    var wasLiveArmed: bool
    var cancellationPending: bool

    constructor ()
      ensures lastVersion == None && !wasLiveArmed && !cancellationPending
    {
      lastVersion, wasLiveArmed, cancellationPending := None, false, false;
    }
  }

  /** The party read `c` at position b of the history, not before `from`. */
  ghost predicate Seen(log: Log, from: nat, b: nat, c: Control) {
    from <= b <= |log| && RowAt(log, b) == c
  }

  predicate NoCancel(done: seq<Event>) {
    forall e | e in done :: !e.CancelIssued?
  }

  /** Every cancel the party issued came after it held a row with the database latch set. */
  ghost predicate LatchedBeforeCancel(before: Log, after: Log, me: AgentId) {
    forall k | |before| <= k < |after| && after[k].event.CancelIssued? && after[k].event.who == me ::
      exists b: nat :: |before| <= b <= k && RowAt(after, b).pending
  }

  lemma LatchFirst(before: Log, mid: Log, after: Log, me: AgentId, done: seq<Event>, b: nat, c: Control)
    requires Added(before, mid, By(me), done) && NoCancel(done) && mid <= after
    requires mid == after || (Seen(mid, |before|, b, c) && c.pending)
    ensures LatchedBeforeCancel(before, after, me)
  {
    forall k | |before| <= k < |after| && after[k].event.CancelIssued? && after[k].event.who == me
      ensures exists b: nat :: |before| <= b <= k && RowAt(after, b).pending
    {
      if k < |mid| {
        AddedMembers(before, mid, By(me), done, k);
      } else {
        assert RowAt(after, b).pending;
      }
    }
  }

  lemma Chain(first: Log, mid: Log, last: Log, me: AgentId, done: seq<Event>, step: seq<Event>)
    requires Added(first, mid, By(me), done) && Added(mid, last, By(me), step)
    ensures Added(first, last, By(me), done + step) && first <= mid <= last
  {
    AddedThen(first, mid, last, By(me), done, step);
  }

  /** This party has neither disarmed nor expired the row from position b on. */
  ghost predicate NoStopSince(log: Log, b: nat, me: AgentId) {
    forall k | b <= k < |log| && log[k].event.who == me :: !log[k].event.Disarmed? && !log[k].event.Expired?
  }

  predicate NoStops(done: seq<Event>) {
    forall e | e in done :: !e.Disarmed? && !e.Expired?
  }

  lemma NoStopSinceThen(mid: Log, after: Log, me: AgentId, step: seq<Event>, b: nat)
    requires Added(mid, after, By(me), step) && NoStops(step) && NoStopSince(mid, b, me)
    ensures NoStopSince(after, b, me)
  {
    AddedPrefix(mid, after, By(me), step);
    forall k | b <= k < |after| && after[k].event.who == me
      ensures !after[k].event.Disarmed? && !after[k].event.Expired?
    {
      if |mid| <= k { AddedMembers(mid, after, By(me), step, k); }
    }
  }

  /** Why this version was not acknowledged, as it happened: the order check was not clear, or the store was asked and
      refused. */
  ghost predicate Withheld(done: seq<Event>, me: AgentId, version: nat) {
    UnresolvedChecked(me, false) in done || exists u: bool :: AckRefused(me, version, u) in done
  }

  lemma WithheldThen(done: seq<Event>, step: seq<Event>, me: AgentId, version: nat)
    ensures Withheld(step, me, version) ==> Withheld(done + step, me, version)
  {}

  /** First stage of a watcher pass: read the row, and let the database expire or disarm a stale arm. */
  method ReadAndSettle(w: World, me: AgentId, mode: Mode, clientNow: Instant)
    returns (ok: bool, control: Control, armed: bool, unsafeArm: bool, ghost read: nat, ghost b: nat,
             ghost done: seq<Event>)
    requires w.Valid()
    modifies w
    ensures w.Grew(me, done) && NoCancel(done)
    ensures ok ==> Seen(w.log, |old(w.log)|, b, control) && NoStopSince(w.log, b, me)
    ensures ok ==> |old(w.log)| <= read <= |w.log|
    // Armed is exactly a live arm for this mode that the database did not expire.
    ensures ok ==>
              var first := RowAt(w.log, read);
              armed <==> !unsafeArm && IsLiveArmed(first, clientNow) && first.mode == mode
    ensures ok && armed ==> control == RowAt(w.log, read)
    ensures ok && unsafeArm ==>
              RealMoney(mode) && RowAt(w.log, read).armed && !armed && !control.armed && control.pending
    ensures ok && RealMoney(mode) && RowAt(w.log, read).armed && RowAt(w.log, read).mode != mode ==>
              unsafeArm && Disarmed(me, mode) in done
    ensures ok && RealMoney(mode) && RowAt(w.log, read).armed && RowAt(w.log, read).mode == mode ==>
              if unsafeArm then Expired(me) in done
              else control == RowAt(w.log, read) && Expire(w.row, mode, RowAt(w.log, read).version, w.now).None?
    ensures ok && !unsafeArm ==> control == RowAt(w.log, read) && done == []
    ensures w.faults >= old(w.faults) && (ok <==> w.faults == old(w.faults))
  {
    hide StepOk, WellFormed, Disciplined, Added;
    ok, armed, unsafeArm, read, b, done := false, false, false, 0, 0, [];
    var got := w.GetControl(me);
    AddedPrefix(old(w.log), w.log, By(me), done);
    if got.Raised? { control := INITIAL; return; }
    control, read, b := got.value, |w.log|, |w.log|;
    assert NoStopSince(w.log, b, me);
    armed := IsLiveArmed(control, clientNow) && control.mode == mode;
    ghost var before := w.log;
    ghost var step;
    if RealMoney(mode) && control.armed && control.mode == mode {
      var expired;
      expired, step := w.ExpireControl(me, mode, control.version);
      Chain(old(w.log), before, w.log, me, done, step);
      done := done + step;
      if expired.Raised? { return; }
      if expired.value.Some? {
        control, b, armed, unsafeArm := expired.value.value, |w.log|, false, true;
      } else {
        NoStopSinceThen(before, w.log, me, step, b);
      }
    } else if RealMoney(mode) && control.armed {
      var disarmed;
      disarmed, step := w.DisarmControl(me, mode);
      Chain(old(w.log), before, w.log, me, done, step);
      done := done + step;
      if disarmed.Raised? { return; }
      control, b, armed, unsafeArm := disarmed.value, |w.log|, false, true;
    }
    ok := true;
  }

  /** Last stage: cancel everything, and only then acknowledge the very version whose latch was seen. */
  method CancelAndAcknowledge(w: World, me: AgentId, control: Control, ghost from: nat, ghost b: nat, state: WatchState)
    returns (ok: bool, ghost now: nat, ghost done: seq<Event>)
    requires w.Valid() && Seen(w.log, from, b, control)
    requires state.cancellationPending && state.lastVersion == Some(control.version)
    modifies w, state
    ensures w.Grew(me, done) && state.wasLiveArmed == old(state.wasLiveArmed)
    ensures state.cancellationPending ==> state.lastVersion == Some(control.version)
    ensures |done| > 0 && done[0].CancelIssued? && NoStops(done)
    ensures state.cancellationPending ==> now == b
    ensures !state.cancellationPending ==> now == b || now == |w.log|
    ensures !state.cancellationPending ==> ok && from <= now <= |w.log| && !RowAt(w.log, now).pending
    ensures !state.cancellationPending ==> state.lastVersion == Some(RowAt(w.log, now).version)
    ensures !state.cancellationPending ==> RowAt(w.log, now) == control || !RowAt(w.log, now).armed
    ensures w.faults >= old(w.faults) && (ok <==> w.faults == old(w.faults))
    ensures ok && state.cancellationPending ==>
              done[0] == CancelIssued(me, false) || Withheld(done, me, control.version)
  {
    hide StepOk, WellFormed, Disciplined, Added;
    ok, now := false, b;
    var cancelled := w.CancelAll(me);
    done := [CancelIssued(me, cancelled == Ok(true))];
    AddedPrefix(old(w.log), w.log, By(me), done);
    if cancelled.Raised? { return; }
    ok := true;
    if !cancelled.value { return; }
    if !control.pending {
      state.cancellationPending := false;
      return;
    }
    ghost var cancel, first := |w.log| - 1, w.log;
    var unresolved := w.HasUnresolvedOrders(me);
    ghost var step := [UnresolvedChecked(me, unresolved == Ok(false))];
    Chain(old(w.log), first, w.log, me, done, step);
    done := done + step;
    if unresolved.Raised? { ok := false; return; }
    if unresolved.value { return; }
    ghost var clear := |w.log| - 1;
    first := w.log;
    assert Evidence(w.log, me, b, cancel, cancel, clear);
    var acknowledged;
    acknowledged, step := w.AcknowledgeCancellation(me, control.version, b, cancel, cancel, clear);
    Chain(old(w.log), first, w.log, me, done, step);
    WithheldThen(done, step, me, control.version);
    done := done + step;
    if acknowledged.Raised? { ok := false; return; }
    if acknowledged.value.None? {
      assert step[0] in step;
      return;
    }
    now := |w.log|;
    state.lastVersion, state.cancellationPending := Some(acknowledged.value.value.version), false;
  }

  /** Middle stage: in real money, whatever requires a cancellation first sets the database latch. */
  method LatchBeforeExchange(w: World, me: AgentId, mode: Mode, required: bool, seen: Control, ghost from: nat,
                             ghost at: nat)
    returns (ok: bool, control: Control, ghost b: nat, ghost done: seq<Event>)
    requires w.Valid() && Seen(w.log, from, at, seen)
    modifies w
    ensures w.Grew(me, done) && NoCancel(done)
    ensures ok ==> Seen(w.log, from, b, control) && (control == seen || !control.armed)
    ensures ok && NoStopSince(old(w.log), at, me) ==> NoStopSince(w.log, b, me)
    ensures ok && RealMoney(mode) && required ==> control.pending
    ensures ok && !(RealMoney(mode) && required && !seen.pending) ==> control == seen && done == []
    ensures w.faults >= old(w.faults) && (ok <==> w.faults == old(w.faults))
  {
    hide StepOk, WellFormed, Disciplined, Added;
    ok, control, b, done := true, seen, at, [];
    AddedNothing(w.log, By(me));
    if RealMoney(mode) && required && !seen.pending {
      var disarmed;
      disarmed, done := w.DisarmControl(me, mode);
      AddedPrefix(old(w.log), w.log, By(me), done);
      if disarmed.Raised? { ok := false; return; }
      control, b := disarmed.value, |w.log|;
      ok := control.pending;
    }
  }

  /** Nothing was pending, and the row first read is either armed for this mode, live, and not expired by the database,
      or a disarmed and unlatched one at which this party neither starts nor leaves an armed state. */
  predicate LeftAlone(read: Control, mode: Mode, now: Instant, pending: bool, firstSight: bool, wasArmed: bool,
                      me: AgentId, done: seq<Event>)
  {
    && !pending
    && ((IsLiveArmed(read, now) && read.mode == mode && Expired(me) !in done)
        || (!firstSight && !wasArmed && !read.armed && !read.pending))
  }

  lemma LeftAloneMeans(mode: Mode, now: Instant, pending: bool, firstSight: bool, wasArmed: bool, me: AgentId)
    ensures forall c: Control, done: seq<Event> | LeftAlone(c, mode, now, pending, firstSight, wasArmed, me, done) ::
              && !pending && !c.pending && (!c.armed ==> !firstSight && !wasArmed)
              && (c.armed ==> IsLiveArmed(c, now) && c.mode == mode && RealMoney(c.mode) && Expired(me) !in done)
    ensures forall c: Control | IsLiveArmed(c, now) :: c.armed && !c.pending && RealMoney(c.mode)
  {}

  /** What the pass remembers, and the latch where a cancellation is required, after the row was read and settled. */
  method RememberAndLatch(w: World, me: AgentId, mode: Mode, seen: Control, armed: bool, unsafeArm: bool,
                          state: WatchState, ghost from: nat, ghost at: nat)
    returns (ok: bool, control: Control, ghost b: nat, ghost done: seq<Event>)
    requires w.Valid() && Seen(w.log, from, at, seen) && NoStopSince(w.log, at, me)
    requires unsafeArm ==> !armed && seen.pending && !seen.armed
    requires armed ==> seen.armed && !seen.pending && RealMoney(mode)
    modifies w, state
    ensures w.Grew(me, done) && NoCancel(done)
    ensures ok ==> Seen(w.log, from, b, control) && NoStopSince(w.log, b, me)
    ensures ok ==> state.lastVersion == Some(control.version)
    ensures ok && RealMoney(mode) ==> state.cancellationPending == control.pending
    ensures ok && state.wasLiveArmed ==> armed && control == seen && !state.cancellationPending
    ensures ok && RealMoney(mode) && !state.wasLiveArmed
            && (old(state.lastVersion).None? || old(state.wasLiveArmed)) ==>
              control.pending
    ensures ok && !old(state.cancellationPending) && !seen.pending && !unsafeArm
            && (armed || (old(state.lastVersion).Some? && !old(state.wasLiveArmed))) ==>
              !state.cancellationPending && done == [] && (state.wasLiveArmed <==> armed)
    ensures w.faults >= old(w.faults) && (ok <==> w.faults == old(w.faults))
  {
    hide StepOk, WellFormed, Disciplined, Added, NoCancel, Seen, NoStopSince;
    var firstObservation, previous := state.lastVersion.None?, state.lastVersion;
    var leaving := state.wasLiveArmed && !armed;
    var transition := RealMoney(mode) && !armed && (firstObservation || leaving || unsafeArm);
    if state.cancellationPending && previous.Some? && seen.version != previous.value && !seen.pending {
      state.cancellationPending := false;
    }
    var required := state.cancellationPending || seen.pending || transition;
    ok, control, b, done := LatchBeforeExchange(w, me, mode, required, seen, from, at);
    if !ok { return; }
    if RealMoney(mode) && (control.pending || transition || state.cancellationPending) {
      state.cancellationPending := true;
    }
    state.lastVersion := Some(control.version);
    state.wasLiveArmed := armed && !(RealMoney(mode) && required && !seen.pending);
  }

  /** Everything a watcher pass does before it may touch the exchange. */
  method PreparePass(w: World, me: AgentId, mode: Mode, clientNow: Instant, state: WatchState)
    returns (ok: bool, control: Control, ghost read: nat, ghost b: nat, ghost done: seq<Event>)
    requires w.Valid()
    modifies w, state
    ensures w.Grew(me, done) && NoCancel(done)
    ensures ok ==> Seen(w.log, |old(w.log)|, b, control) && state.lastVersion == Some(control.version)
    ensures ok ==> NoStopSince(w.log, b, me)
    ensures ok && RealMoney(mode) ==> state.cancellationPending == control.pending
    ensures ok && state.wasLiveArmed ==>
              !state.cancellationPending && IsLiveArmed(control, clientNow) && control.mode == mode
    ensures ok && RealMoney(mode) && !state.wasLiveArmed
            && (old(state.lastVersion).None? || old(state.wasLiveArmed)) ==>
              control.pending
    ensures ok ==> |old(w.log)| <= read <= |w.log|
    ensures ok && RealMoney(mode) && RowAt(w.log, read).armed && RowAt(w.log, read).mode != mode ==>
              Disarmed(me, mode) in done && !state.wasLiveArmed
    ensures ok && LeftAlone(RowAt(w.log, read), mode, clientNow, old(state.cancellationPending),
                            old(state.lastVersion).None?, old(state.wasLiveArmed), me, done) ==>
              !state.cancellationPending && done == [] && (state.wasLiveArmed <==> RowAt(w.log, read).armed)
    ensures w.faults >= old(w.faults) && (ok <==> w.faults == old(w.faults))
  {
    hide StepOk, WellFormed, Disciplined, Added, NoCancel, Seen, LeftAlone, IsLiveArmed, NoStopSince, Expire,
      RealMoney, By;
    LeftAloneMeans(mode, clientNow, old(state.cancellationPending), old(state.lastVersion).None?,
                   old(state.wasLiveArmed), me);
    var armed, unsafeArm;
    ghost var step;
    ok, control, armed, unsafeArm, read, b, done := ReadAndSettle(w, me, mode, clientNow);
    AddedPrefix(old(w.log), w.log, By(me), done);
    if !ok { return; }
    ghost var mid := w.log;
    ok, control, b, step := RememberAndLatch(w, me, mode, control, armed, unsafeArm, state, |old(w.log)|, b);
    Chain(old(w.log), mid, w.log, me, done, step);
    NoCancelThen(done, step);
    done := done + step;
  }

  /** One watcher pass. `read` is the position at which it first read the row, `now` the one it last knew. */
  method EnforceRuntimeControlOnce(w: World, me: AgentId, mode: Mode, clientNow: Instant, state: WatchState)
    returns (ok: bool, ghost read: nat, ghost now: nat, ghost done: seq<Event>)
    requires w.Valid()
    modifies w, state
    ensures w.Grew(me, done)
    ensures RealMoney(mode) ==> LatchedBeforeCancel(old(w.log), w.log, me)
    // `now` stands behind every disarm and expiry of its own, and its version is what the party remembers.
    ensures ok ==> |old(w.log)| <= now <= |w.log| && state.lastVersion == Some(RowAt(w.log, now).version)
    ensures ok ==> NoStopSince(w.log, now, me)
    ensures ok && RealMoney(mode) ==> (state.cancellationPending <==> RowAt(w.log, now).pending)
    ensures ok && RealMoney(mode) && (old(state.lastVersion).None? || old(state.wasLiveArmed))
            && !state.wasLiveArmed ==>
              exists e :: e in done && e.CancelIssued?
    ensures ok && state.wasLiveArmed ==>
              !state.cancellationPending && IsLiveArmed(RowAt(w.log, now), clientNow) && RowAt(w.log, now).mode == mode
    ensures ok ==> |old(w.log)| <= read <= |w.log|
    ensures ok && RealMoney(mode) && RowAt(w.log, read).armed && RowAt(w.log, read).mode != mode ==>
              Disarmed(me, mode) in done && !state.wasLiveArmed
    // A live arm for this mode is left alone and remembered, and a quiet row is left alone.
    ensures ok && LeftAlone(RowAt(w.log, read), mode, clientNow, old(state.cancellationPending),
                            old(state.lastVersion).None?, old(state.wasLiveArmed), me, done) ==>
              !state.cancellationPending && done == [] && (state.wasLiveArmed <==> RowAt(w.log, read).armed)
    // Unless a call raised, only an unverified cancel, an unresolved order or a refused version keeps it pending.
    ensures ok <==> w.faults == old(w.faults)
    ensures ok && state.cancellationPending ==>
              CancelIssued(me, false) in done || Withheld(done, me, RowAt(w.log, now).version)
  {
    hide StepOk, WellFormed, Disciplined, Added, NoCancel, NoStops, NoStopSince, Withheld, LatchedBeforeCancel,
      IsLiveArmed;
    var control;
    ghost var b, step;
    ok, control, read, b, done := PreparePass(w, me, mode, clientNow, state);
    now := b;
    AddedPrefix(old(w.log), w.log, By(me), done);
    LatchFirst(old(w.log), w.log, w.log, me, done, b, control);
    if !ok || !state.cancellationPending { return; }
    ghost var mid := w.log;
    ok, now, step := CancelAndAcknowledge(w, me, control, |old(w.log)|, b, state);
    Chain(old(w.log), mid, w.log, me, done, step);
    if RealMoney(mode) { LatchFirst(old(w.log), mid, w.log, me, done, b, control); }
    NoStopSinceThen(mid, w.log, me, step, b);
    NothingAfter(w.log, me);
    WithheldThen(done, step, me, control.version);
    done := done + step;
    assert step[0] in done;
  }

  lemma NothingAfter(log: Log, me: AgentId)
    ensures NoStopSince(log, |log|, me)
  {}

  lemma NoCancelThen(done: seq<Event>, step: seq<Event>)
    requires NoCancel(done) && NoCancel(step)
    ensures NoCancel(done + step)
  {}
}
