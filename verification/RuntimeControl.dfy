/** The durable runtime-control row, its RPCs, and histories of it (models.py, stores/memory.py). */
module RuntimeControl {
  import opened Modes
  import opened Wrappers
  import opened Histories

  type Instant = real
  type AgentId = nat

  datatype Control = Control(
    mode: Mode, armed: bool, accept: bool, armedUntil: Option<Instant>, kill: bool, pending: bool, version: nat)

  const INITIAL := Control(Paper, false, false, None, true, false, 1)

  /** The gate-shape validator, and what the RPCs keep on top of it. */
  predicate ValidShape(c: Control) {
    if c.armed then c.accept && !c.kill && !c.pending && c.armedUntil.Some? && RealMoney(c.mode)
    else !c.accept && c.armedUntil.None? && c.kill && (c.pending ==> RealMoney(c.mode))
  }

  predicate IsLiveArmed(c: Control, now: Instant) {
    && c.armed && c.accept && !c.kill && !c.pending
    && c.armedUntil.Some? && c.armedUntil.value > now && RealMoney(c.mode)
  }

  /** An arm lasts at most fifteen minutes. */
  const ARM_SECONDS := 900.0

  function Arm(c: Control, mode: Mode, until: Instant, expected: nat, now: Instant): Option<Control> {
    var eligibleDisarmed := !c.armed && !c.accept && c.kill && c.armedUntil.None?;
    var eligibleRenewal := c.armed && IsLiveArmed(c, now) && c.mode == mode;
    if !RealMoney(mode) || c.version != expected || c.pending || until <= now || until > now + ARM_SECONDS
       || !(eligibleDisarmed || eligibleRenewal) then None
    else Some(Control(mode, true, true, Some(until), false, false, c.version + 1))
  }

  function Expire(c: Control, mode: Mode, expected: nat, now: Instant): Option<Control> {
    if c.version != expected || c.mode != mode || !c.armed || c.armedUntil.None? || c.armedUntil.value > now then None
    else Some(Control(mode, false, false, None, true, true, c.version + 1))
  }

  /** Unconditional. The cancellation latch is set for real-money modes and cleared for the others. */
  function Disarm(c: Control, mode: Mode): Control {
    Control(mode, false, false, None, true, RealMoney(mode), c.version + 1)
  }

  /** The operator's pause: a disarm that keeps the mode, and a no-op on a row already stopped. */
  function Pause(c: Control): Control {
    if !c.kill || c.accept || c.armed || c.armedUntil.Some? || c.pending != RealMoney(c.mode)
    then Disarm(c, c.mode) else c
  }

  function Acknowledge(c: Control, expected: nat, unresolved: bool): Option<Control> {
    if c.version != expected || !c.pending || c.armed || !c.kill || unresolved then None
    else Some(c.(pending := false, version := c.version + 1))
  }

  /** What any party did, in the order the database and the exchange saw it. */
  datatype Event =
    | Armed(who: AgentId, mode: Mode)
    | Expired(who: AgentId)
    | Disarmed(who: AgentId, mode: Mode)
    | Paused(who: AgentId)
    | Acknowledged(who: AgentId)
    | AckRefused(who: AgentId, expected: nat, unresolved: bool)
    | CancelIssued(who: AgentId, verified: bool)
    | OrdersListed(who: AgentId, empty: bool)
    | UnresolvedChecked(who: AgentId, clear: bool)
    | LeaseChecked(who: AgentId, valid: bool)
    | LeaseReleased(who: AgentId)

  datatype Entry = Entry(event: Event, row: Control)

  type Log = seq<Entry>

  function RowAt(log: Log, k: nat): Control
    requires k <= |log|
  {
    if k == 0 then INITIAL else log[k - 1].row
  }

  /** One history entry follows from the row before it by the RPC it names. */
  predicate StepOk(before: Control, e: Event, after: Control) {
    match e
    case Armed(_, m) =>
      && RealMoney(m) && !before.pending && (!before.armed || before.mode == m) && after.armedUntil.Some?
      && after == Control(m, true, true, after.armedUntil, false, false, before.version + 1)
    case Expired(_) => before.armed && after == Control(before.mode, false, false, None, true, true, before.version + 1)
    case Disarmed(_, m) => after == Disarm(before, m)
    case Paused(_) => after == Pause(before)
    case Acknowledged(_) => before.pending && !before.armed
        && after == before.(pending := false, version := before.version + 1)
    case AckRefused(_, expected, unresolved) => after == before && Acknowledge(before, expected, unresolved).None?
    case _ => after == before
  }

  predicate StepAt(log: Log, k: int) {
    0 <= k < |log| ==> StepOk(RowAt(log, k), log[k].event, log[k].row)
  }

  ghost predicate WellFormed(log: Log) { forall k :: StepAt(log, k) }

  /** The exchange reported zero open orders, either inside `cancel_all` or in a listing of its own. */
  predicate ZeroReported(e: Event, who: AgentId) {
    e == CancelIssued(who, true) || e == OrdersListed(who, true)
  }

  /** The acknowledgement at k follows a cancel, a report of zero open orders and then a "no unresolved orders"
      answer of the same party, and over that whole stretch the row stood still with the latch set. */
  ghost predicate JustifiedBy(log: Log, k: nat, cancel: nat, zero: nat, clear: nat)
    requires k < |log|
  {
    var who := log[k].event.who;
    && cancel <= zero < clear < k
    && log[cancel].event.CancelIssued? && log[cancel].event.who == who
    && ZeroReported(log[zero].event, who) && log[clear].event == UnresolvedChecked(who, true)
    && RowAt(log, k).pending && forall m: nat | cancel <= m <= k :: RowAt(log, m) == RowAt(log, k)
  }

  ghost predicate Justified(log: Log, k: nat)
    requires k < |log|
  {
    exists cancel: nat, zero: nat, clear: nat :: JustifiedBy(log, k, cancel, zero, clear)
  }

  ghost predicate Disciplined(log: Log) {
    forall k: nat | k < |log| && log[k].event.Acknowledged? :: Justified(log, k)
  }

  /** What one entry can and cannot do to the row. */
  lemma StepFacts(before: Control, e: Event, after: Control)
    requires StepOk(before, e, after) && ValidShape(before)
    ensures ValidShape(after)
    ensures before.version <= after.version && (before.version == after.version ==> before == after)
    ensures e.Armed? ==> after.armed && !before.pending
    ensures !e.Acknowledged? && (before.armed || before.pending == RealMoney(before.mode)) ==>
              after.armed || after.pending == RealMoney(after.mode)
    ensures !e.Acknowledged? && (before.armed || before.pending) && !LeakStep(before, e) ==>
              after.armed || after.pending
  {}

  /** An arm is granted exactly for real money, at the version read, with nothing to acknowledge, for at most fifteen
      minutes, on a disarmed row or as a renewal of a live arm for the same mode; the row it leaves is live. */
  lemma ArmExactly(c: Control, mode: Mode, until: Instant, expected: nat, now: Instant, who: AgentId)
    requires ValidShape(c)
    ensures Arm(c, mode, until, expected, now).Some?
            <==> RealMoney(mode) && c.version == expected && !c.pending && now < until <= now + ARM_SECONDS
                 && (c.armed ==> c.mode == mode && c.armedUntil.value > now)
    ensures var d := Arm(c, mode, until, expected, now);
            d.Some? ==>
              && StepOk(c, Armed(who, mode), d.value) && IsLiveArmed(d.value, now) && d.value.mode == mode
              && forall t: Instant :: IsLiveArmed(d.value, t) <==> t < until
  {}

  /** The end of an arm: an armed row is live until the moment at which it can be expired, and then stays so; expiring
      is the only way out of it that the expiry call has. */
  lemma ExpiryEndsLife(c: Control, mode: Mode, expected: nat, now: Instant, who: AgentId)
    requires ValidShape(c)
    ensures Expire(c, mode, expected, now).Some?
            <==> c.armed && !IsLiveArmed(c, now) && c.mode == mode && c.version == expected
    ensures var d := Expire(c, mode, expected, now);
            d.Some? ==> StepOk(c, Expired(who), d.value) && !d.value.armed && d.value.pending && d.value.mode == mode
  {}

  /** A pause stops the row in its own mode, latched exactly in real money, and does nothing to a row already there. */
  lemma PauseStops(c: Control)
    requires ValidShape(c)
    ensures var d := Pause(c);
            && !d.armed && !d.accept && d.kill && d.mode == c.mode && (d.pending <==> RealMoney(c.mode))
            && (d.version == c.version <==> d == c) && d.version <= c.version + 1
  {}

  /** A disarm into paper or shadow that lands on an armed row or on a latched one. */
  predicate LeakStep(before: Control, e: Event) {
    e.Disarmed? && !RealMoney(e.mode) && (before.armed || before.pending)
  }

  lemma {:induction false} ShapeKept(log: Log, k: nat)
    requires WellFormed(log) && k <= |log|
    ensures ValidShape(RowAt(log, k))
  {
    hide StepOk, ValidShape;
    if k > 0 {
      ShapeKept(log, k - 1);
      assert StepAt(log, k - 1);
      StepFacts(RowAt(log, k - 1), log[k - 1].event, log[k - 1].row);
    } else {
      InitialShape();
    }
  }

  lemma InitialShape()
    ensures ValidShape(INITIAL)
  {}

  /** Versions only grow, and two positions at one version hold the very same row. */
  lemma {:induction false} VersionPins(log: Log, b: nat, k: nat)
    requires WellFormed(log) && b <= k <= |log|
    ensures RowAt(log, b).version <= RowAt(log, k).version
    ensures RowAt(log, b).version == RowAt(log, k).version ==> RowAt(log, b) == RowAt(log, k)
  {
    hide StepOk, ValidShape;
    if b < k {
      VersionPins(log, b, k - 1);
      ShapeKept(log, k - 1);
      assert StepAt(log, k - 1);
      StepFacts(RowAt(log, k - 1), log[k - 1].event, log[k - 1].row);
    }
  }

  ghost predicate ArmStart(log: Log, k: nat) {
    k < |log| && log[k].event.Armed? && !RowAt(log, k).armed
  }

  ghost predicate Leak(log: Log, k: nat) { k < |log| && LeakStep(RowAt(log, k), log[k].event) }

  ghost predicate AckIn(log: Log, i: nat, j: nat) {
    exists k: nat :: i < k < j && k < |log| && log[k].event.Acknowledged?
  }

  /** Until it is acknowledged, an ended armed period keeps the latch set unless a leak intervened. */
  lemma {:induction false} LatchHolds(log: Log, i: nat, n: nat)
    requires WellFormed(log) && ArmStart(log, i) && i < n <= |log| && !AckIn(log, i, n)
    ensures RowAt(log, n).armed || RowAt(log, n).pending == RealMoney(RowAt(log, n).mode)
    ensures (forall l: nat | i < l < n :: !Leak(log, l)) ==> RowAt(log, n).armed || RowAt(log, n).pending
  {
    hide StepOk, ValidShape, LeakStep;
    ShapeKept(log, n - 1);
    assert StepAt(log, n - 1);
    StepFacts(RowAt(log, n - 1), log[n - 1].event, log[n - 1].row);
    if n > i + 1 {
      LatchHolds(log, i, n - 1);
      assert log[n - 1].event.Acknowledged? ==> AckIn(log, i, n);
      assert Leak(log, n - 1) || !LeakStep(RowAt(log, n - 1), log[n - 1].event);
    }
  }

  /** SAFETY. In every interleaving, two armed periods without a leak between them are separated by an
      acknowledgement whose cancel and order check both happened after the first period began. */
  lemma ArmedPeriodsSeparated(log: Log, i: nat, j: nat)
    requires WellFormed(log) && Disciplined(log)
    requires ArmStart(log, i) && ArmStart(log, j) && i < j
    requires forall l: nat | i < l < j :: !Leak(log, l)
    ensures exists k: nat, cancel: nat, zero: nat, clear: nat :: SeparatingAck(log, i, j, k, cancel, zero, clear)
  {
    hide StepOk, ValidShape, LeakStep;
    ShapeKept(log, j);
    assert StepAt(log, j);
    StepFacts(RowAt(log, j), log[j].event, log[j].row);
    if !AckIn(log, i, j) { LatchHolds(log, i, j); }
    var k: nat :| i < k < j && k < |log| && log[k].event.Acknowledged?;
    assert Justified(log, k);
    var cancel: nat, zero: nat, clear: nat :| JustifiedBy(log, k, cancel, zero, clear);
    EvidenceIsFresh(log, i, k, cancel, zero, clear);
    assert SeparatingAck(log, i, j, k, cancel, zero, clear);
  }

  /** At k, between the armed periods starting at i and j, an acknowledgement justified by later evidence. */
  ghost predicate SeparatingAck(log: Log, i: nat, j: nat, k: nat, cancel: nat, zero: nat, clear: nat) {
    k < |log| && log[k].event.Acknowledged? && i < cancel && k < j && JustifiedBy(log, k, cancel, zero, clear)
  }

  lemma EvidenceIsFresh(log: Log, i: nat, k: nat, cancel: nat, zero: nat, clear: nat)
    requires WellFormed(log) && ArmStart(log, i) && i < k < |log| && JustifiedBy(log, k, cancel, zero, clear)
    ensures i < cancel
  {
    hide StepOk;
    ShapeKept(log, i);
    ShapeKept(log, i + 1);
    assert StepAt(log, i);
    StepFacts(RowAt(log, i), log[i].event, log[i].row);
    assert RowAt(log, i + 1).armed;
  }

  /** EXACTNESS. When an armed period has ended unacknowledged, the row accepts a new arm exactly when its last
      disarm went into paper or shadow; and then a leak has happened. */
  lemma RearmWithoutAckExactly(log: Log, i: nat, mode: Mode, until: Instant, now: Instant)
    requires WellFormed(log) && ArmStart(log, i) && RealMoney(mode) && now < until <= now + ARM_SECONDS
    requires !AckIn(log, i, |log|) && !RowAt(log, |log|).armed
    ensures var row := RowAt(log, |log|);
            && (Arm(row, mode, until, row.version, now).Some? <==> !RealMoney(row.mode))
            && (Arm(row, mode, until, row.version, now).Some? ==> exists l: nat :: i < l && Leak(log, l))
  {
    ShapeKept(log, |log|);
    LatchHolds(log, i, |log|);
  }

  /** A concrete interleaving with two armed periods and no acknowledgement: between the order and lease checks of a
      clean-up into shadow and its last disarm, another party arms. */
  lemma ShadowDisarmReopens(a: AgentId, b: AgentId) returns (log: Log)
    requires a != b
    ensures WellFormed(log) && Disciplined(log) && |log| == 6 && ArmStart(log, 2) && ArmStart(log, 5)
    ensures !AckIn(log, 2, 5) && Leak(log, 3)
    ensures Mine(log, By(b)) == [UnresolvedChecked(b, true), LeaseChecked(b, true), Disarmed(b, Shadow),
                                 LeaseChecked(b, true)]
    ensures RowAt(log, 0).mode == Paper && !RowAt(log, 0).armed && !RowAt(log, 0).pending
  {
    hide Mine;
    var r0 := Control(Live, true, true, Some(10.0), false, false, 2);
    var r1 := Disarm(r0, Shadow);
    var r2 := Control(Live, true, true, Some(20.0), false, false, 4);
    log := [Entry(UnresolvedChecked(b, true), INITIAL), Entry(LeaseChecked(b, true), INITIAL),
            Entry(Armed(a, Live), r0), Entry(Disarmed(b, Shadow), r1), Entry(LeaseChecked(b, true), r1),
            Entry(Armed(a, Live), r2)];
    assert RowAt(log, 0) == RowAt(log, 1) == RowAt(log, 2) == INITIAL && RowAt(log, 3) == r0
           && RowAt(log, 4) == RowAt(log, 5) == r1;
    MineOfReopening(log, a, b);
  }

  lemma MineOfReopening(log: Log, a: AgentId, b: AgentId)
    requires |log| == 6 && log[0].event == UnresolvedChecked(b, true) && log[1].event == LeaseChecked(b, true)
    requires log[2].event == log[5].event == Armed(a, Live) && a != b
    requires log[3].event == Disarmed(b, Shadow) && log[4].event == LeaseChecked(b, true)
    ensures Mine(log, By(b)) == [UnresolvedChecked(b, true), LeaseChecked(b, true), Disarmed(b, Shadow),
                                 LeaseChecked(b, true)]
  {
    assert log[..0] == [] && log[..6] == log;
    MineSoFar(log, b, 1);
    MineSoFar(log, b, 2);
    MineSoFar(log, b, 3);
    MineSoFar(log, b, 4);
    MineSoFar(log, b, 5);
    MineSoFar(log, b, 6);
  }

  lemma MineSoFar(log: Log, me: AgentId, n: nat)
    requires 0 < n <= |log|
    ensures Mine(log[..n], By(me)) == Mine(log[..n - 1], By(me)) + if log[n - 1].event.who == me then [log[n - 1].event]
            else []
  {
    assert log[..n][..n - 1] == log[..n - 1];
  }

  /** A history stays well formed and disciplined when a legal entry is appended. */
  lemma AppendKeeps(log: Log, entry: Entry)
    requires WellFormed(log) && Disciplined(log) && StepOk(RowAt(log, |log|), entry.event, entry.row)
    requires entry.event.Acknowledged? ==> Justified(log + [entry], |log|)
    ensures WellFormed(log + [entry]) && Disciplined(log + [entry])
  {
    hide StepOk;
    var more := log + [entry];
    forall k ensures StepAt(more, k) {
      if 0 <= k < |more| {
        assert StepAt(log, k) && RowAt(more, k) == RowAt(log, k);
      }
    }
    forall k: nat | k < |more| && more[k].event.Acknowledged? ensures Justified(more, k) {
      if k < |log| {
        assert Justified(log, k);
        var cancel: nat, zero: nat, clear: nat :| JustifiedBy(log, k, cancel, zero, clear);
        forall m: nat | cancel <= m <= k ensures RowAt(more, m) == RowAt(more, k) {
          assert RowAt(log, m) == RowAt(log, k);
        }
        assert JustifiedBy(more, k, cancel, zero, clear);
      }
    }
  }

  /** What an acknowledging party has in hand: the row it read at b, its cancel, the zero report, its order check. */
  ghost predicate Evidence(log: Log, me: AgentId, b: nat, cancel: nat, zero: nat, clear: nat) {
    && b <= cancel <= zero < clear < |log|
    && log[cancel].event.CancelIssued? && log[cancel].event.who == me
    && ZeroReported(log[zero].event, me) && log[clear].event == UnresolvedChecked(me, true)
  }

  lemma EvidenceStays(log: Log, more: Log, me: AgentId, b: nat, cancel: nat, zero: nat, clear: nat)
    requires Evidence(log, me, b, cancel, zero, clear) && log <= more
    ensures Evidence(more, me, b, cancel, zero, clear) && RowAt(more, b) == RowAt(log, b)
  {}

  /** A version CAS that succeeds proves the row has not moved since the version was read. */
  lemma CasJustifies(log: Log, entry: Entry, b: nat, cancel: nat, zero: nat, clear: nat)
    requires WellFormed(log) && Evidence(log, entry.event.who, b, cancel, zero, clear)
    requires RowAt(log, b).version == RowAt(log, |log|).version && RowAt(log, |log|).pending
    ensures Justified(log + [entry], |log|)
  {
    hide StepOk, WellFormed;
    var more := log + [entry];
    forall m: nat | cancel <= m <= |log| ensures RowAt(more, m) == RowAt(more, |log|) {
      VersionPins(log, b, m);
      VersionPins(log, m, |log|);
    }
    assert JustifiedBy(more, |log|, cancel, zero, clear);
  }

  /** A refusal is never arbitrary: if the version was read off a stopped and latched row, then either an order is
      unresolved or the row has moved since. */
  lemma RefusalMeansMoved(log: Log, b: nat, k: nat)
    requires WellFormed(log) && b <= k < |log| && log[k].event.AckRefused?
    requires log[k].event.expected == RowAt(log, b).version
    requires RowAt(log, b).pending && !RowAt(log, b).armed && RowAt(log, b).kill
    ensures log[k].event.unresolved || RowAt(log, k).version > RowAt(log, b).version
  {
    assert StepAt(log, k);
    VersionPins(log, b, k);
  }

  /** The events of one party. */
  function By(me: AgentId): Entry -> Option<Event> {
    (e: Entry) => if e.event.who == me then Some(e.event) else None
  }
}
