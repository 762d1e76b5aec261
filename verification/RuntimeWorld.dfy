/**
 The shared store and exchange as one party sees them: before every call takes effect, any number of steps by the
 other parties may have happened, and any call may raise, before or after its effect.
 */
module RuntimeWorld {
  import opened Modes
  import opened Wrappers
  import opened Histories
  import opened RuntimeControl

  class World {
    var row: Control
    var now: Instant
    var unresolved: bool
    ghost var log: Log
    /** How many of this party's calls have raised. */
    ghost var faults: nat

    ghost predicate Valid()
      reads this
    {
      WellFormed(log) && Disciplined(log) && row == RowAt(log, |log|)
    }

    /** The history grew, and `events` is what this party itself added to it. */
    twostate predicate Grew(me: AgentId, events: seq<Event>)
      reads this
    {
      Valid() && Added(old(log), log, By(me), events)
    }

    /** Any number of steps by other parties. What they may do is exactly what this contract leaves open. */
    method Interfere(ghost me: AgentId)
      requires Valid()
      modifies this
      ensures Grew(me, []) && faults == old(faults)
    {
      AddedNothing(log, By(me));
    }

    /** One of this party's calls raised, or not. */
    ghost method Answer(raised: bool)
      modifies this`faults
      ensures faults == old(faults) + if raised then 1 else 0
    {
      faults := faults + if raised then 1 else 0;
    }

    /** One step of this party. */
    method Record(e: Event, newRow: Control)
      requires Valid() && StepOk(row, e, newRow)
      requires e.Acknowledged? ==> Justified(log + [Entry(e, newRow)], |log|)
      modifies this`row, this`log
      ensures Grew(e.who, [e]) && row == newRow && log == old(log) + [Entry(e, newRow)]
    {
      hide StepOk, WellFormed, Disciplined;
      AppendKeeps(log, Entry(e, newRow));
      AddedOne(log, Entry(e, newRow), By(e.who));
      row, log := newRow, log + [Entry(e, newRow)];
    }

    /** One step of this party after any number of steps by the others. */
    method Observe(me: AgentId, e: Event)
      requires Valid() && e.who == me && !TouchesRow(e)
      modifies this
      ensures Grew(me, [e]) && |log| > |old(log)| && log[|log| - 1] == Entry(e, row) && faults == old(faults)
    {
      hide WellFormed, Disciplined, Added;
      Interfere(me);
      ghost var before := log;
      AddedPrefix(old(log), before, By(me), []);
      Record(e, row);
      AddedThen(old(log), before, log, By(me), [], [e]);
      assert [] + [e] == [e];
    }

    method GetControl(ghost me: AgentId) returns (r: Reply<Control>)
      requires Valid()
      modifies this
      ensures Grew(me, []) && (r.Ok? ==> r.value == row)
      ensures faults == old(faults) + if r.Raised? then 1 else 0
    {
      Interfere(me);
      var raises: bool := *;
      r := if raises then Raised else Ok(row);
      Answer(r.Raised?);
    }

    method DisarmControl(me: AgentId, mode: Mode) returns (r: Reply<Control>, ghost step: seq<Event>)
      requires Valid()
      modifies this
      ensures Grew(me, step) && (step == [Disarmed(me, mode)] || (r.Raised? && step == []))
      ensures r.Ok? ==> |log| > |old(log)| && log[|log| - 1].event == Disarmed(me, mode)
      ensures r.Ok? ==> r.value == row && row == Control(mode, false, false, None, true, RealMoney(mode), row.version)
      ensures faults == old(faults) + if r.Raised? then 1 else 0
    {
      hide WellFormed, Disciplined, Added;
      Interfere(me);
      var effective: bool, raises: bool := *, *;
      if !effective {
        Answer(true);
        return Raised, [];
      }
      ghost var before := log;
      step := [Disarmed(me, mode)];
      Record(Disarmed(me, mode), Disarm(row, mode));
      AddedThen(old(log), before, log, By(me), [], step);
      assert [] + step == step;
      r := if raises then Raised else Ok(row);
      Answer(r.Raised?);
    }

    method ExpireControl(me: AgentId, mode: Mode, expected: nat)
      returns (r: Reply<Option<Control>>, ghost step: seq<Event>)
      requires Valid() && RealMoney(mode)
      modifies this
      ensures Grew(me, step) && (step == [] || step == [Expired(me)])
      ensures r.Ok? && r.value.Some? ==> step == [Expired(me)] && r.value.value == row && !row.armed && row.pending
      ensures r.Ok? && r.value.None? ==> step == [] && Expire(row, mode, expected, now).None?
      ensures faults == old(faults) + if r.Raised? then 1 else 0
    {
      hide WellFormed, Disciplined, Added;
      Interfere(me);
      var effective: bool, raises: bool := *, *;
      step := [];
      if !effective {
        Answer(true);
        return Raised, [];
      }
      var expired := Expire(row, mode, expected, now);
      if expired.Some? {
        ghost var before := log;
        step := [Expired(me)];
        Record(Expired(me), expired.value);
        AddedThen(old(log), before, log, By(me), [], step);
        assert [] + step == step;
      }
      r := if raises then Raised else Ok(expired);
      Answer(r.Raised?);
    }

    /** The caller hands over its evidence: the row it saw at b, its cancel, the zero report and its order check. */
    method AcknowledgeCancellation(me: AgentId, expected: nat,
                                   ghost b: nat, ghost cancel: nat, ghost zero: nat, ghost clear: nat)
      returns (r: Reply<Option<Control>>, ghost step: seq<Event>)
      requires Valid() && Evidence(log, me, b, cancel, zero, clear) && RowAt(log, b).version == expected
      modifies this
      ensures Grew(me, step) && (r.Raised? ==> |step| <= 1)
      ensures forall e | e in step :: e == Acknowledged(me) || e == AckRefused(me, expected, unresolved)
      ensures r.Ok? ==> step == [if r.value.Some? then Acknowledged(me) else AckRefused(me, expected, unresolved)]
      ensures r.Ok? && r.value.Some? ==> r.value.value == row && Stopped(row) && !row.pending
      ensures faults == old(faults) + if r.Raised? then 1 else 0
    {
      hide WellFormed, Disciplined, Added, Evidence, StepOk, RowAt;
      Interfere(me);
      AddedPrefix(old(log), log, By(me), []);
      EvidenceStays(old(log), log, me, b, cancel, zero, clear);
      var effective: bool, raises: bool := *, *;
      step := [];
      if !effective {
        Answer(true);
        return Raised, [];
      }
      var acknowledged := Acknowledge(row, expected, unresolved);
      ghost var before := log;
      if acknowledged.Some? {
        step := [Acknowledged(me)];
        AckStep(log, me, row, acknowledged.value, expected, unresolved);
        CasJustifies(log, Entry(Acknowledged(me), acknowledged.value), b, cancel, zero, clear);
        Record(Acknowledged(me), acknowledged.value);
      } else {
        step := [AckRefused(me, expected, unresolved)];
        RefusalStep(me, row, expected, unresolved);
        Record(AckRefused(me, expected, unresolved), row);
      }
      AddedThen(old(log), before, log, By(me), [], step);
      assert [] + step == step;
      r := if raises then Raised else Ok(acknowledged);
      Answer(r.Raised?);
    }

    /** `cancel_all`: true only when the exchange then reports zero open orders. */
    method CancelAll(me: AgentId) returns (r: Reply<bool>)
      requires Valid()
      modifies this
      ensures Grew(me, [CancelIssued(me, r == Ok(true))])
      ensures |log| > |old(log)| && log[|log| - 1] == Entry(CancelIssued(me, r == Ok(true)), row)
      ensures faults == old(faults) + if r.Raised? then 1 else 0
    {
      var verified: bool, raises: bool := *, *;
      r := if raises then Raised else Ok(verified);
      Observe(me, CancelIssued(me, r == Ok(true)));
      Answer(r.Raised?);
    }

    /** A cancel whose outcome the caller must look up itself. */
    method IssueCancel(me: AgentId) returns (raised: bool)
      requires Valid()
      modifies this
      ensures Grew(me, [CancelIssued(me, false)])
      ensures |log| > |old(log)| && log[|log| - 1] == Entry(CancelIssued(me, false), row)
      ensures faults == old(faults) + if raised then 1 else 0
    {
      raised := *;
      Observe(me, CancelIssued(me, false));
      Answer(raised);
    }

    /** The number of open orders the exchange lists. */
    method ListOpenOrders(me: AgentId) returns (r: Reply<nat>)
      requires Valid()
      modifies this
      ensures Grew(me, [OrdersListed(me, r == Ok(0))])
      ensures |log| > |old(log)| && log[|log| - 1] == Entry(OrdersListed(me, r == Ok(0)), row)
      ensures faults == old(faults) + if r.Raised? then 1 else 0
    {
      var open: nat, raises: bool := *, *;
      r := if raises then Raised else Ok(open);
      Observe(me, OrdersListed(me, r == Ok(0)));
      Answer(r.Raised?);
    }

    method HasUnresolvedOrders(me: AgentId) returns (r: Reply<bool>)
      requires Valid()
      modifies this
      ensures Grew(me, [UnresolvedChecked(me, r == Ok(false))])
      ensures |log| > |old(log)| && log[|log| - 1] == Entry(UnresolvedChecked(me, r == Ok(false)), row)
      ensures faults == old(faults) + if r.Raised? then 1 else 0
    {
      var raises: bool := *;
      r := if raises then Raised else Ok(unresolved);
      Observe(me, UnresolvedChecked(me, r == Ok(false)));
      Answer(r.Raised?);
    }

    method ValidateLease(me: AgentId) returns (r: Reply<bool>)
      requires Valid()
      modifies this
      ensures Grew(me, [LeaseChecked(me, r == Ok(true))])
      ensures faults == old(faults) + if r.Raised? then 1 else 0
    {
      var valid: bool, raises: bool := *, *;
      r := if raises then Raised else Ok(valid);
      Observe(me, LeaseChecked(me, r == Ok(true)));
      Answer(r.Raised?);
    }

    /** False means that the store no longer saw the lease as this party's. */
    method ReleaseLease(me: AgentId) returns (r: Reply<bool>, ghost step: seq<Event>)
      requires Valid()
      modifies this
      ensures Grew(me, step)
      ensures r.Raised? ==> step == [] || step == [LeaseReleased(me)]
      ensures r.Ok? ==> step == if r.value then [LeaseReleased(me)] else [LeaseChecked(me, false)]
      ensures faults == old(faults) + if r.Raised? then 1 else 0
    {
      var effective: bool, raises: bool := *, *;
      if effective {
        Observe(me, LeaseReleased(me));
        step, r := [LeaseReleased(me)], if raises then Raised else Ok(true);
      } else if raises {
        AddedNothing(log, By(me));
        step, r := [], Raised;
      } else {
        Observe(me, LeaseChecked(me, false));
        step, r := [LeaseChecked(me, false)], Ok(false);
      }
      Answer(r.Raised?);
    }
  }

  lemma RefusalStep(me: AgentId, row: Control, expected: nat, unresolved: bool)
    requires Acknowledge(row, expected, unresolved).None?
    ensures StepOk(row, AckRefused(me, expected, unresolved), row)
  {}

  lemma AckStep(log: Log, me: AgentId, row: Control, acknowledged: Control, expected: nat, unresolved: bool)
    requires WellFormed(log) && row == RowAt(log, |log|)
    requires Acknowledge(row, expected, unresolved) == Some(acknowledged)
    ensures StepOk(row, Acknowledged(me), acknowledged) && row.version == expected && row.pending
    ensures Stopped(acknowledged) && !acknowledged.pending
  {
    ShapeKept(log, |log|);
  }

  /** The durable stopped state: no party may submit under it. */
  predicate Stopped(c: Control) {
    !c.armed && !c.accept && c.armedUntil.None? && c.kill
  }

  /** An event that changes the row, or that only some rows allow. */
  predicate TouchesRow(e: Event) {
    e.Armed? || e.Expired? || e.Disarmed? || e.Paused? || e.Acknowledged? || e.AckRefused?
  }
}
