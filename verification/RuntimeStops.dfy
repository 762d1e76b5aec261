/** The engine's safety stop, the clean-up before a downgrade to paper or shadow, and the worker's shutdown. */
module RuntimeStops {
  import opened Modes
  import opened Wrappers
  import opened Histories
  import opened RuntimeControl
  import opened RuntimeWorld
  import opened RuntimeLatch

  /** The first part of a stop: make sure the row is durably stopped, whatever a failed read said. */
  method PersistStop(w: World, me: AgentId, mode: Mode)
    returns (persisted: Option<Control>, ghost b: nat, ghost done: seq<Event>)
    requires w.Valid()
    modifies w
    ensures w.Grew(me, done)
    ensures persisted.Some? ==>
              Seen(w.log, |old(w.log)|, b, persisted.value) && Stopped(persisted.value) && persisted.value.mode == mode
    ensures persisted.Some? ==> b == |w.log|
    ensures done == [] || done == [Disarmed(me, mode)]
    ensures w.faults >= old(w.faults) && (w.faults == old(w.faults) ==> persisted.Some?)
  {
    hide StepOk, WellFormed, Disciplined, Added;
    done, b, persisted := [], 0, None;
    var current := w.GetControl(me);
    AddedPrefix(old(w.log), w.log, By(me), done);
    if current.Ok? && current.value.mode == mode && Stopped(current.value) {
      return Some(current.value), |w.log|, [];
    }
    ghost var first := w.log;
    ghost var step;
    var disarmed;
    disarmed, step := w.DisarmControl(me, mode);
    Chain(old(w.log), first, w.log, me, done, step);
    done := done + step;
    if disarmed.Ok? { persisted, b := Some(disarmed.value), |w.log|; }
  }

  /** The order check was not clear, or it was and the store refused this version. */
  ghost predicate NotAcknowledged(done: seq<Event>, me: AgentId, version: nat) {
    || done == [UnresolvedChecked(me, false)]
    || exists u: bool :: done == [UnresolvedChecked(me, true), AckRefused(me, version, u)]
  }

  lemma NotAcknowledgedWithholds(done: seq<Event>, me: AgentId, version: nat)
    requires NotAcknowledged(done, me, version)
    ensures Withheld(done, me, version)
  {
    if done != [UnresolvedChecked(me, false)] {
      var u: bool :| done == [UnresolvedChecked(me, true), AckRefused(me, version, u)];
      assert AckRefused(me, version, u) in done;
    } else {
      assert UnresolvedChecked(me, false) in done;
    }
  }

  /** The order check and the version CAS, in that order, for a cancel already issued. */
  method AcknowledgeIfClear(w: World, me: AgentId, seen: Control,
                            ghost from: nat, ghost b: nat, ghost cancel: nat, ghost zero: nat)
    returns (acknowledged: Option<Control>, ghost done: seq<Event>)
    requires w.Valid() && Seen(w.log, from, b, seen) && b <= cancel <= zero < |w.log|
    requires w.log[cancel].event.CancelIssued? && w.log[cancel].event.who == me && ZeroReported(w.log[zero].event, me)
    modifies w
    ensures w.Grew(me, done)
    ensures acknowledged.Some? ==> acknowledged.value == w.row && Stopped(w.row) && !w.row.pending
    ensures acknowledged.Some? ==> done == [UnresolvedChecked(me, true), Acknowledged(me)]
    ensures forall e | e in done :: e.UnresolvedChecked? || e == Acknowledged(me) || e.AckRefused?
    ensures w.faults >= old(w.faults)
    ensures w.faults == old(w.faults) ==> (acknowledged.Some? <==> Acknowledged(me) in done)
    ensures acknowledged.None? && w.faults == old(w.faults) ==> NotAcknowledged(done, me, seen.version)
  {
    hide StepOk, WellFormed, Disciplined, Added;
    acknowledged := None;
    var unresolved := w.HasUnresolvedOrders(me);
    done := [UnresolvedChecked(me, unresolved == Ok(false))];
    AddedPrefix(old(w.log), w.log, By(me), done);
    if unresolved == Ok(false) {
      ghost var first := w.log;
      assert Evidence(w.log, me, b, cancel, zero, |w.log| - 1);
      var reply;
      ghost var step;
      reply, step := w.AcknowledgeCancellation(me, seen.version, b, cancel, zero, |w.log| - 1);
      Chain(old(w.log), first, w.log, me, done, step);
      done := done + step;
      if reply.Ok? { acknowledged := reply.value; }
    }
  }

  /** The engine's real-money stop: no failure of the row may keep the exchange from being cancelled. */
  method PersistStopAndVerifyCancellation(w: World, me: AgentId, mode: Mode)
    returns (ok: bool, ghost b: nat, ghost cancel: nat, ghost done: seq<Event>)
    requires w.Valid() && RealMoney(mode)
    modifies w
    ensures w.Grew(me, done)
    ensures |old(w.log)| <= cancel < |w.log| && w.log[cancel].event.CancelIssued? && w.log[cancel].event.who == me
    ensures ok ==> |old(w.log)| <= b <= cancel && Stopped(RowAt(w.log, b)) && RowAt(w.log, b).mode == mode
    ensures ok ==> w.log[cancel].event == CancelIssued(me, true)
    ensures ok ==> NoStopSince(w.log, b, me)
    // When every call answers, a verified cancel is a success, and it ends with the latch off unless the order check
    // was not clear or the store refused the version of the stopped row.
    ensures w.faults == old(w.faults) ==> (ok <==> w.log[cancel].event == CancelIssued(me, true))
    ensures ok && w.faults == old(w.faults) && RowAt(w.log, b).pending ==>
              || Withheld(done, me, RowAt(w.log, b).version)
              || (Acknowledged(me) in done && Stopped(w.row) && !w.row.pending)
  {
    hide StepOk, WellFormed, Disciplined, Added;
    var persisted;
    persisted, b, done := PersistStop(w, me, mode);
    ghost var first := w.log;
    AddedPrefix(old(w.log), w.log, By(me), done);
    var cancelled := w.CancelAll(me);
    ghost var step := [CancelIssued(me, cancelled == Ok(true))];
    Chain(old(w.log), first, w.log, me, done, step);
    if persisted.Some? {
      NothingAfter(first, me);
      NoStopSinceThen(first, w.log, me, step, b);
    }
    done, cancel := done + step, |w.log| - 1;
    ok := persisted.Some? && cancelled == Ok(true);
    if ok && persisted.value.pending {
      first := w.log;
      var acknowledged;
      acknowledged, step := AcknowledgeIfClear(w, me, persisted.value, |old(w.log)|, b, cancel, cancel);
      Chain(old(w.log), first, w.log, me, done, step);
      NoStopSinceThen(first, w.log, me, step, b);
      if acknowledged.None? && w.faults == old(w.faults) {
        NotAcknowledgedWithholds(step, me, persisted.value.version);
      }
      WithheldThen(done, step, me, persisted.value.version);
      done := done + step;
    }
  }

  datatype ShutdownResult = ShutdownResult(persisted: bool, verified: bool, acknowledged: bool, released: bool)

  /** No lease validation the party made has failed or raised. */
  predicate LeaseHeld(done: seq<Event>) {
    forall e | e in done && e.LeaseChecked? :: e.valid
  }

  function Cancels(done: seq<Event>): nat {
    if done == [] then 0 else Cancels(done[..|done| - 1]) + if done[|done| - 1].CancelIssued? then 1 else 0
  }

  lemma {:induction false} CancelsAdd(xs: seq<Event>, ys: seq<Event>)
    ensures Cancels(xs + ys) == Cancels(xs) + Cancels(ys)
  {
    if ys == [] {
      assert xs + ys == xs;
    } else {
      CancelsAdd(xs, ys[..|ys| - 1]);
      assert (xs + ys)[..|xs + ys| - 1] == xs + ys[..|ys| - 1];
    }
  }

  /** Position r of a shutdown may be the release of the lease: the disarm was persisted, after it a cancel was
      verified, after that the lease was validated once more, after that (real money) the cancellation was
      acknowledged, and no lease validation had failed. */
  ghost predicate ReleaseEarned(done: seq<Event>, me: AgentId, mode: Mode, r: nat, d: nat, c: nat, v: nat, a: nat)
    requires r < |done|
  {
    && LeaseHeld(done[..r])
    && d < c < v < r && done[d] == Disarmed(me, mode) && done[c] == CancelIssued(me, true)
       && done[v] == LeaseChecked(me, true)
    && (RealMoney(mode) ==> v < a < r && done[a] == Acknowledged(me))
  }

  ghost predicate SafeRelease(done: seq<Event>, me: AgentId, mode: Mode) {
    forall r: nat | r < |done| && done[r].LeaseReleased? ::
      exists d: nat, c: nat, v: nat, a: nat :: ReleaseEarned(done, me, mode, r, d, c, v, a)
  }

  /** A holder of the lease validates it immediately before every cancel. */
  ghost predicate CheckedCancels(done: seq<Event>) {
    forall i | 0 <= i < |done| && done[i].CancelIssued? :: i > 0 && done[i - 1].LeaseChecked?
  }

  predicate OnlyDisarms(done: seq<Event>, me: AgentId, mode: Mode) {
    forall e | e in done :: e == Disarmed(me, mode)
  }

  method PersistDisarm(w: World, me: AgentId, mode: Mode, attempts: nat)
    returns (persisted: Option<Control>, ghost b: nat, ghost done: seq<Event>)
    requires w.Valid()
    modifies w
    ensures w.Grew(me, done) && OnlyDisarms(done, me, mode) && |done| <= attempts
    ensures persisted.Some? ==> |done| > 0 && Seen(w.log, |old(w.log)|, b, persisted.value)
    ensures persisted.Some? ==> persisted.value.pending == RealMoney(mode)
    ensures persisted.Some? ==> |old(w.log)| < b == |w.log| && w.log[b - 1].event == Disarmed(me, mode)
    ensures persisted.None? ==> w.faults == old(w.faults) + attempts
    ensures w.faults >= old(w.faults)
  {
    hide StepOk, WellFormed, Disciplined, Added;
    persisted, b, done := None, 0, [];
    AddedNothing(w.log, By(me));
    for attempt := 0 to attempts
      invariant w.Grew(me, done) && OnlyDisarms(done, me, mode) && |done| <= attempt && persisted.None?
      invariant w.faults == old(w.faults) + attempt
    {
      ghost var first := w.log;
      var disarmed;
      ghost var step;
      disarmed, step := w.DisarmControl(me, mode);
      Chain(old(w.log), first, w.log, me, done, step);
      done := done + step;
      if disarmed.Ok? { return Some(disarmed.value), |w.log|, done; }
    }
  }

  method ValidateThenCancel(w: World, me: AgentId, hasLease: bool)
    returns (valid: bool, verified: bool, ghost done: seq<Event>)
    requires w.Valid()
    modifies w
    ensures w.Grew(me, done) && |w.log| > |old(w.log)| && w.log[|w.log| - 1].event == CancelIssued(me, verified)
    ensures done == (if hasLease then [LeaseChecked(me, valid)] else []) + [CancelIssued(me, verified)]
    ensures !hasLease ==> valid
    ensures w.faults >= old(w.faults)
  {
    hide StepOk, WellFormed, Disciplined, Added;
    done, valid := [], true;
    AddedNothing(w.log, By(me));
    if hasLease {
      var lease := w.ValidateLease(me);
      valid := lease == Ok(true);
      done := [LeaseChecked(me, valid)];
    }
    ghost var first := w.log;
    var cancelled := w.CancelAll(me);
    verified := cancelled == Ok(true);
    Chain(old(w.log), first, w.log, me, done, [CancelIssued(me, verified)]);
    done := done + [CancelIssued(me, verified)];
  }

  method CancelRepeatedly(w: World, me: AgentId, hasLease: bool, attempts: nat)
    returns (leaseConfirmed: bool, verified: bool, ghost done: seq<Event>)
    requires w.Valid() && attempts >= 1
    modifies w
    ensures w.Grew(me, done) && 1 <= Cancels(done) <= attempts
    ensures forall e | e in done :: e.LeaseChecked? || e.CancelIssued?
    ensures leaseConfirmed <==> hasLease && LeaseHeld(done)
    ensures hasLease ==> CheckedCancels(done)
    ensures verified ==> |w.log| > |old(w.log)| && w.log[|w.log| - 1].event == CancelIssued(me, true)
    ensures verified ==> |done| > 0 && done[|done| - 1] == CancelIssued(me, true)
    ensures !verified ==> CancelIssued(me, true) !in done && Cancels(done) == attempts
    ensures w.faults >= old(w.faults)
  {
    hide StepOk, WellFormed, Disciplined, Added;
    leaseConfirmed, verified, done := hasLease, false, [];
    AddedNothing(w.log, By(me));
    for attempt := 0 to attempts
      invariant w.Grew(me, done) && Cancels(done) == attempt && !verified && CancelIssued(me, true) !in done
      invariant forall e | e in done :: e.LeaseChecked? || e.CancelIssued?
      invariant leaseConfirmed <==> hasLease && LeaseHeld(done)
      invariant hasLease ==> CheckedCancels(done)
      invariant w.faults >= old(w.faults)
    {
      ghost var first := w.log;
      var valid;
      ghost var step;
      valid, verified, step := ValidateThenCancel(w, me, hasLease);
      leaseConfirmed := leaseConfirmed && valid;
      Chain(old(w.log), first, w.log, me, done, step);
      CancelsAdd(done, step);
      OneCancel(hasLease, me, valid, verified);
      LeaseHeldThen(done, step);
      done := done + step;
      if verified { return; }
    }
  }

  lemma OneCancel(hasLease: bool, me: AgentId, valid: bool, verified: bool)
    ensures Cancels((if hasLease then [LeaseChecked(me, valid)] else []) + [CancelIssued(me, verified)]) == 1
    ensures LeaseHeld((if hasLease then [LeaseChecked(me, valid)] else []) + [CancelIssued(me, verified)])
            <==> !hasLease || valid
  {
    var c := CancelIssued(me, verified);
    assert Cancels([]) == 0;
    if hasLease {
      var l := LeaseChecked(me, valid);
      assert [l] + [c] == [l, c] && [l, c][..1] == [l] && [l][..0] == [];
      assert l in [l, c];
    } else {
      assert [] + [c] == [c] && [c][..0] == [];
    }
  }

  lemma LeaseHeldThen(xs: seq<Event>, ys: seq<Event>)
    ensures LeaseHeld(xs + ys) <==> LeaseHeld(xs) && LeaseHeld(ys)
  {
    assert forall e | e in xs :: e in xs + ys;
    assert forall e | e in ys :: e in xs + ys;
  }

  predicate NoRelease(done: seq<Event>) {
    forall e | e in done :: !e.LeaseReleased?
  }

  /** The last validation and the acknowledgement, entered with a verified cancel as the latest entry. */
  method ConfirmAndAcknowledge(w: World, me: AgentId, disarmed: Control, ghost from: nat, ghost b: nat)
    returns (confirmed: bool, acknowledged: bool, ghost done: seq<Event>)
    requires w.Valid() && Seen(w.log, from, b, disarmed) && b < |w.log|
    requires w.log[|w.log| - 1].event == CancelIssued(me, true)
    modifies w
    ensures w.Grew(me, done) && NoRelease(done) && NoCancel(done)
    ensures |done| > 0 && done[0] == LeaseChecked(me, confirmed)
    ensures confirmed <==> LeaseHeld(done)
    ensures disarmed.pending && acknowledged ==> |done| > 1 && done[|done| - 1] == Acknowledged(me)
    ensures !disarmed.pending ==> acknowledged
    ensures w.faults >= old(w.faults) && NoStops(done)
    ensures w.faults == old(w.faults) ==> (acknowledged <==> !disarmed.pending || Acknowledged(me) in done)
    ensures confirmed && !acknowledged && w.faults == old(w.faults) ==> Withheld(done, me, disarmed.version)
  {
    hide StepOk, WellFormed, Disciplined, Added;
    ghost var cancel := |w.log| - 1;
    acknowledged := !disarmed.pending;
    var lease := w.ValidateLease(me);
    confirmed, done := lease == Ok(true), [LeaseChecked(me, lease == Ok(true))];
    AddedPrefix(old(w.log), w.log, By(me), done);
    assert done[0] in done;
    if confirmed && disarmed.pending {
      ghost var first := w.log;
      var reply;
      ghost var step;
      reply, step := AcknowledgeIfClear(w, me, disarmed, from, b, cancel, cancel);
      acknowledged := reply.Some?;
      Chain(old(w.log), first, w.log, me, done, step);
      LeaseHeldThen(done, step);
      if reply.None? && w.faults == old(w.faults) { NotAcknowledgedWithholds(step, me, disarmed.version); }
      WithheldThen(done, step, me, disarmed.version);
      done := done + step;
    }
  }

  lemma {:induction false} NoCancels(done: seq<Event>)
    requires forall e | e in done :: !e.CancelIssued?
    ensures Cancels(done) == 0
  {
    if done != [] { NoCancels(done[..|done| - 1]); }
  }

  /** A release is the last event of a shutdown, after a first successful validation, only successful ones, and, where
      the latch was set, an acknowledgement. */
  ghost predicate EndsRelease(done: seq<Event>, me: AgentId, latched: bool) {
    forall r | 0 <= r < |done| && done[r].LeaseReleased? ::
      && r == |done| - 1 && 0 < r && done[0] == LeaseChecked(me, true) && LeaseHeld(done[..r])
      && (latched ==> 1 < r && done[r - 1] == Acknowledged(me))
  }

  /** The last validation, the acknowledgement and the release. */
  method FinishShutdown(w: World, me: AgentId, disarmed: Control, ghost from: nat, ghost b: nat)
    returns (acknowledged: bool, released: bool, ghost done: seq<Event>)
    requires w.Valid() && Seen(w.log, from, b, disarmed) && b < |w.log|
    requires w.log[|w.log| - 1].event == CancelIssued(me, true)
    modifies w
    ensures w.Grew(me, done) && NoCancel(done) && EndsRelease(done, me, disarmed.pending)
    ensures released ==> acknowledged && LeaseReleased(me) in done
    ensures acknowledged ==> !disarmed.pending || Acknowledged(me) in done
    ensures !disarmed.pending ==> acknowledged
    ensures w.faults >= old(w.faults) && NoStops(done)
    ensures w.faults == old(w.faults) ==> (acknowledged <==> !disarmed.pending || Acknowledged(me) in done)
    ensures w.faults == old(w.faults) ==> (released <==> LeaseReleased(me) in done)
    ensures w.faults == old(w.faults) && LeaseHeld(done) ==>
              released || (!acknowledged && Withheld(done, me, disarmed.version))
  {
    hide StepOk, WellFormed, Disciplined, Added, LeaseHeld, Withheld;
    released := false;
    var confirmed;
    confirmed, acknowledged, done := ConfirmAndAcknowledge(w, me, disarmed, from, b);
    assert forall i | 0 <= i < |done| :: done[i] in done;
    if confirmed && acknowledged {
      ghost var first, before := w.log, done;
      var reply;
      ghost var step;
      reply, step := w.ReleaseLease(me);
      released := reply == Ok(true);
      Chain(old(w.log), first, w.log, me, done, step);
      LeaseHeldThen(done, step);
      OneFailedCheck(me);
      WithheldThen(done, step, me, disarmed.version);
      done := done + step;
      assert done[..|before|] == before;
    }
  }

  /** A worker's shutdown: it gives up its lease only when a replacement could not find anything left to stop. */
  method ShutdownLiveSafely(w: World, me: AgentId, mode: Mode, hasLease: bool, attempts: nat)
    returns (r: Option<ShutdownResult>, ghost b: nat, ghost done: seq<Event>)
    requires w.Valid()
    modifies w
    ensures w.Grew(me, done) && SafeRelease(done, me, mode)
    ensures hasLease ==> CheckedCancels(done)
    ensures Cancels(done) <= attempts && (r.None? <==> attempts == 0) && (attempts > 0 ==> Cancels(done) >= 1)
    // `b` is the row written by its last disarm.
    ensures r.Some? && r.value.persisted ==> |old(w.log)| < b <= |w.log| && w.log[b - 1].event == Disarmed(me, mode)
    ensures r.Some? && r.value.persisted ==> Disarmed(me, mode) in done && NoStopSince(w.log, b, me)
    ensures r.Some? && !r.value.persisted ==> w.faults >= old(w.faults) + attempts
    ensures r.Some? ==> (r.value.verified <==> CancelIssued(me, true) in done)
    ensures r.Some? && r.value.acknowledged ==> r.value.persisted && (!RealMoney(mode) || Acknowledged(me) in done)
    ensures r.Some? && r.value.persisted && !RealMoney(mode) ==> r.value.acknowledged
    ensures r.Some? && r.value.released ==> LeaseReleased(me) in done && hasLease
    ensures r.Some? && w.faults == old(w.faults) ==>
              && (r.value.acknowledged <==> !RealMoney(mode) || Acknowledged(me) in done)
              && (r.value.released <==> LeaseReleased(me) in done)
    // When every call answers, the lease stays held and a cancel is verified, the lease is released, unless the order
    // check was not clear or the store refused the version of that row.
    ensures hasLease && r.Some? && w.faults == old(w.faults) && LeaseHeld(done) && r.value.verified ==>
              r.value.released || (!r.value.acknowledged && Withheld(done, me, RowAt(w.log, b).version))
  {
    hide StepOk, WellFormed, Disciplined, Added, Cancels, LeaseHeld, SafeRelease, CheckedCancels, EndsRelease, Withheld,
      NoStopSince;
    done, r, b := [], None, 0;
    AddedNothing(w.log, By(me));
    NoCancels(done);
    UncheckedNothing(done, done);
    NothingReleased(done, me, mode);
    if attempts < 1 { return; }
    ghost var first, step;
    var persisted, leaseConfirmed, verified, acknowledged, released;
    persisted, b, done := PersistDisarm(w, me, mode, attempts);
    assert persisted.Some? ==> done[|done| - 1] in done;
    NoCancels(done);
    first := w.log;
    leaseConfirmed, verified, step := CancelRepeatedly(w, me, hasLease, attempts);
    Chain(old(w.log), first, w.log, me, done, step);
    CancelsAdd(done, step);
    LeaseHeldThen(done, step);
    DisarmsHoldLease(done, me, mode);
    if hasLease { ChecksThen(done, step); }
    if persisted.Some? {
      NothingAfter(first, me);
      NoStopSinceThen(first, w.log, me, step, b);
    }
    ghost var d, c := |done| - 1, |done| + |step| - 1;
    done := done + step;
    assert persisted.Some? ==> done[d] == Disarmed(me, mode);
    assert verified ==> done[c] == CancelIssued(me, true);
    NothingReleased(done, me, mode);
    acknowledged, released := persisted.Some? && !persisted.value.pending, false;
    if leaseConfirmed && persisted.Some? && verified {
      first := w.log;
      acknowledged, released, step := FinishShutdown(w, me, persisted.value, |old(w.log)|, b);
      Chain(old(w.log), first, w.log, me, done, step);
      CancelsAdd(done, step);
      NoCancels(step);
      LeaseHeldThen(done, step);
      UncheckedNothing(done, step);
      NoStopSinceThen(first, w.log, me, step, b);
      WithheldThen(done, step, me, persisted.value.version);
      ReleaseIsSafe(done, step, me, mode, d, c);
      done := done + step;
    }
    r := Some(ShutdownResult(persisted.Some?, verified, acknowledged, released));
  }

  /** Events without a cancel leave the validations before the cancels as they were. */
  lemma UncheckedNothing(done: seq<Event>, step: seq<Event>)
    requires forall e | e in step :: !e.CancelIssued?
    ensures CheckedCancels(step) && (CheckedCancels(done) ==> CheckedCancels(done + step))
  {
    assert forall i | 0 <= i < |step| :: step[i] in step;
  }

  lemma ChecksThen(done: seq<Event>, step: seq<Event>)
    requires CheckedCancels(step) && forall e | e in done :: !e.CancelIssued?
    ensures CheckedCancels(done + step)
  {
    assert forall i | 0 <= i < |done| :: done[i] in done;
    forall i | 0 <= i < |done + step| && (done + step)[i].CancelIssued?
      ensures i > 0 && (done + step)[i - 1].LeaseChecked?
    {
      assert (done + step)[i] == step[i - |done|];
    }
  }

  lemma DisarmsHoldLease(done: seq<Event>, me: AgentId, mode: Mode)
    requires OnlyDisarms(done, me, mode)
    ensures LeaseHeld(done)
  {}

  lemma OneFailedCheck(me: AgentId)
    ensures !LeaseHeld([LeaseChecked(me, false)])
  {
    assert LeaseChecked(me, false) in [LeaseChecked(me, false)];
  }

  lemma NothingReleased(done: seq<Event>, me: AgentId, mode: Mode)
    requires NoRelease(done)
    ensures SafeRelease(done, me, mode)
  {}

  lemma ReleaseIsSafe(done: seq<Event>, step: seq<Event>, me: AgentId, mode: Mode, d: nat, c: nat)
    requires NoRelease(done) && LeaseHeld(done) && EndsRelease(step, me, RealMoney(mode))
    requires d < c < |done| && done[d] == Disarmed(me, mode) && done[c] == CancelIssued(me, true)
    ensures SafeRelease(done + step, me, mode)
  {
    hide LeaseHeld;
    var all, n := done + step, |done|;
    assert forall i | 0 <= i < n :: done[i] in done && all[i] == done[i];
    forall r: nat | r < |all| && all[r].LeaseReleased?
      ensures exists d: nat, c: nat, v: nat, a: nat :: ReleaseEarned(all, me, mode, r, d, c, v, a)
    {
      assert n <= r && all[r] == step[r - n] && all[r - 1] == step[r - n - 1] && all[n] == step[0];
      assert all[..r] == done + step[..r - n];
      LeaseHeldThen(done, step[..r - n]);
      assert ReleaseEarned(all, me, mode, r, d, c, n, r - 1);
    }
  }
}
