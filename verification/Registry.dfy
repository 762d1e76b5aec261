/** The bounded idempotency registry of manual cycle requests (api_models.py). */
module Registry {
  import opened Modes
  import opened Wrappers

  datatype State = Queued | Running | Done(outcome: string)

  datatype Entry = Entry(
    account: string, key: string, id: nat, mode: Mode, state: State, created: real, started: Option<real>,
    cycle: Option<string>, reason: Option<string>, unknown: bool)

  /** A cycle as the worker publishes it: running, or over. `mode` is None where the text names no trading mode. */
  datatype Snapshot = Snapshot(id: string, done: Option<string>, mode: Option<Mode>)

  datatype Limits = Limits(maxEntries: nat, queueTimeout: real, runTimeout: real)

  datatype Acceptance = Accepted(id: nat) | Existing(id: nat) | Conflict | Full

  predicate ActiveEntry(e: Entry) { e.state.Queued? || e.state.Running? }

  function Failed(e: Entry, reason: string, unknown: bool): Entry {
    e.(state := Done("failed"), reason := Some(reason), unknown := unknown)
  }

  predicate TimedOut(e: Entry, l: Limits, now: real) {
    || (e.state.Queued? && now - e.created >= l.queueTimeout)
    || (e.state.Running? && e.started.Some? && now - e.started.value >= l.runTimeout)
  }

  function Expire(e: Entry, l: Limits, now: real): Entry {
    if e.state.Queued? && now - e.created >= l.queueTimeout then Failed(e, "queue_timeout", false)
    else if e.state.Running? && e.started.Some? && now - e.started.value >= l.runTimeout
        then Failed(e, "result_timeout", true)
    else e
  }

  function Observe(e: Entry, s: Snapshot, now: real): Entry {
    if e.state.Queued? && s.done.None? then
      if s.mode == Some(e.mode) then
        e.(state := Running, started := Some(now), cycle := Some(s.id), reason := None, unknown := false)
      else if s.mode.Some? then Failed(e, "mode_superseded", false) else e
    else if e.state.Running? && e.cycle == Some(s.id) then
      e.(state := if s.done.None? then Running else Done(s.done.value), reason := None, unknown := false)
    else e
  }

  function Supersede(e: Entry, account: string, mode: Mode): Entry {
    if e.account == account && e.state.Queued? && e.mode != mode then Failed(e, "mode_superseded", false) else e
  }

  function FailIfActive(e: Entry, reason: string): Entry {
    if ActiveEntry(e) then Failed(e, reason, e.state.Running?) else e
  }

  function Each(entries: seq<Entry>, f: Entry -> Entry): (r: seq<Entry>)
    ensures |r| == |entries| && forall i | 0 <= i < |r| :: r[i] == f(entries[i])
  {
    seq(|entries|, i requires 0 <= i < |entries| => f(entries[i]))
  }

  function Expired(entries: seq<Entry>, l: Limits, now: real): seq<Entry> {
    Each(entries, (e: Entry) => Expire(e, l, now))
  }

  predicate Named(e: Entry, account: string, key: string) { e.account == account && e.key == key }

  /** Position of the request with this key, or -1. */
  function Find(entries: seq<Entry>, account: string, key: string): (i: int)
    ensures 0 <= i ==> i < |entries| && Named(entries[i], account, key)
    ensures i < 0 ==> forall j | 0 <= j < |entries| :: !Named(entries[j], account, key)
  {
    if entries == [] then -1
    else
      var before := Find(entries[..|entries| - 1], account, key);
      if before >= 0 then before else if Named(entries[|entries| - 1], account, key) then |entries| - 1 else -1
  }

  /** Position of the first request that is over, or -1. */
  function FirstDone(entries: seq<Entry>): (i: int)
    ensures 0 <= i ==> i < |entries| && !ActiveEntry(entries[i])
    ensures i < 0 ==> forall j | 0 <= j < |entries| :: ActiveEntry(entries[j])
  {
    if entries == [] then -1
    else
      var before := FirstDone(entries[..|entries| - 1]);
      if before >= 0 then before else if !ActiveEntry(entries[|entries| - 1]) then |entries| - 1 else -1
  }

  function Without(entries: seq<Entry>, i: int): seq<Entry>
    requires 0 <= i < |entries|
  {
    entries[..i] + entries[i + 1..]
  }

  function NewEntry(account: string, key: string, mode: Mode, id: nat, now: real): Entry {
    Entry(account, key, id, mode, Queued, now, None, None, None, false)
  }

  function AfterAccept(entries: seq<Entry>, l: Limits, account: string, key: string, mode: Mode, id: nat,
                       now: real): (seq<Entry>, Acceptance) {
    var live := Expired(entries, l, now);
    var at, done := Find(live, account, key), FirstDone(live);
    if at >= 0 then (Without(live, at) + [live[at]], if live[at].mode == mode then Existing(live[at].id) else Conflict)
    else if |live| < l.maxEntries then (live + [NewEntry(account, key, mode, id, now)], Accepted(id))
    else if done < 0 then (live, Full)
    else (Without(live, done) + [NewEntry(account, key, mode, id, now)], Accepted(id))
  }

  datatype Op =
    | Accept(account: string, key: string, mode: Mode, id: nat)
    | ObserveCycle(snapshot: Option<Snapshot>)
    | SupersedeQueued(account: string, mode: Mode)
    | FailActive(reason: string)
    | Get

  function Apply(entries: seq<Entry>, l: Limits, op: Op, now: real): seq<Entry> {
    match op
    case Accept(account, key, mode, id) => AfterAccept(entries, l, account, key, mode, id, now).0
    case ObserveCycle(s) =>
      if s.None? then Expired(entries, l, now)
          else Each(Expired(entries, l, now), (e: Entry) => Observe(e, s.value, now))
    case SupersedeQueued(account, mode) => Each(Expired(entries, l, now), (e: Entry) => Supersede(e, account, mode))
    case FailActive(reason) => Each(entries, (e: Entry) => FailIfActive(e, reason))
    case Get => Expired(entries, l, now)
  }

  // ---- one request, one operation

  /** What may happen to a retained request: its identity is fixed, what is over stays as it is, and
      it never goes back. */
  predicate Follows(e: Entry, f: Entry) {
    && f.account == e.account && f.key == e.key && f.id == e.id && f.mode == e.mode && f.created == e.created
    && (!ActiveEntry(e) ==> f == e)
    && (e.state.Running? ==> !f.state.Queued?)
  }

  predicate EntryOk(e: Entry) {
    && (e.state.Queued? ==> e.started.None?) && (e.state.Running? ==> e.started.Some?)
    && (e.state.Done? && e.reason.Some? ==> (e.unknown <==> e.started.Some?))
    && (!e.state.Done? ==> e.reason.None? && !e.unknown)
  }

  lemma UpdatesFollow(e: Entry, l: Limits, s: Snapshot, account: string, mode: Mode, reason: string, now: real)
    requires EntryOk(e)
    ensures Follows(e, Expire(e, l, now)) && EntryOk(Expire(e, l, now)) && !TimedOut(Expire(e, l, now), l, now)
    ensures Follows(e, Observe(e, s, now)) && EntryOk(Observe(e, s, now))
    ensures Follows(e, Supersede(e, account, mode)) && EntryOk(Supersede(e, account, mode))
    ensures Follows(e, FailIfActive(e, reason)) && EntryOk(FailIfActive(e, reason))
            && !ActiveEntry(FailIfActive(e, reason))
  {}

  /** EXPIRY. A request that has waited too long ends as never started; one that ran too long ends with its outcome
      unknown; every other one is left alone. */
  lemma ExpiryExactly(e: Entry, l: Limits, now: real)
    ensures var f, waited := Expire(e, l, now), e.state.Queued? && now >= e.created + l.queueTimeout;
            var ran := e.state.Running? && e.started.Some? && now >= e.started.value + l.runTimeout;
            && (waited ==> f == e.(state := f.state, reason := Some("queue_timeout"), unknown := false))
            && (ran ==> f == e.(state := f.state, reason := Some("result_timeout"), unknown := true))
            && (waited || ran ==> f.state == Done("failed")) && (!waited && !ran ==> f == e)
            && (TimedOut(e, l, now) <==> waited || ran)
  {}

  /** OBSERVATION. A running cycle takes up the requests queued for its mode and ends those queued for another one; its
      end is the end of the requests it took up. Nothing else is touched. */
  lemma ObservationExactly(e: Entry, s: Snapshot, now: real)
    requires EntryOk(e)
    ensures var f, starts := Observe(e, s, now), e.state.Queued? && s.done.None?;
            && (starts && s.mode == Some(e.mode) ==>
                  f.state.Running? && f.started == Some(now) && f.cycle == Some(s.id) && f.reason.None?)
            && (starts && s.mode.Some? && s.mode != Some(e.mode) ==>
                  f.state == Done("failed") && f.reason == Some("mode_superseded") && f.started.None? && !f.unknown)
            && (e.state.Running? && e.cycle == Some(s.id) ==>
                  && f.started == e.started && f.cycle == e.cycle && f.reason.None? && !f.unknown
                  && f.state == if s.done.Some? then Done(s.done.value) else Running)
            && (f != e ==> (starts && s.mode.Some?) || (e.state.Running? && e.cycle == Some(s.id)))
  {}

  /** A change of mode ends the requests of that account queued for another mode; a failure ends everything active. */
  lemma EndingExactly(e: Entry, account: string, mode: Mode, reason: string)
    ensures var f, hit := Supersede(e, account, mode), e.account == account && e.state.Queued? && e.mode != mode;
            && (hit ==> f.state == Done("failed") && f.reason == Some("mode_superseded") && !f.unknown)
            && (!hit ==> f == e)
    ensures var g := FailIfActive(e, reason);
            && (e.state.Done? ==> g == e)
            && (!e.state.Done? ==>
                  g.state == Done("failed") && g.reason == Some(reason) && (g.unknown <==> e.state.Running?))
  {}

  // ---- one accept

  /** REPEATS. A retained request is answered by its own identifier, or conflicts in another mode,
      and moves to the end. */
  lemma RepeatExactly(entries: seq<Entry>, l: Limits, account: string, key: string, mode: Mode, id: nat, now: real,
                      k: nat)
    requires k < |Expired(entries, l, now)|
    requires Expired(entries, l, now)[k].account == account && Expired(entries, l, now)[k].key == key
    ensures var (after, answer) := AfterAccept(entries, l, account, key, mode, id, now);
            && Moved(Expired(entries, l, now), after, account, key)
            && answer == if after[|after| - 1].mode == mode then Existing(after[|after| - 1].id) else Conflict
  {
    hide Expired;
    var live := Expired(entries, l, now);
    var at := Find(live, account, key);
    assert at >= 0;
    assert Without(live, at) + [live[at]] == live[..at] + live[at + 1..] + [live[at]];
  }

  /** ACCEPTANCE. A new request is refused exactly when the registry is full of active ones, and then nothing changes;
      otherwise it is queued last, and if there was no room the first request that is over makes it. */
  lemma AcceptExactly(entries: seq<Entry>, l: Limits, account: string, key: string, mode: Mode, id: nat, now: real)
    requires forall e | e in Expired(entries, l, now) :: e.account != account || e.key != key
    ensures var live := Expired(entries, l, now);
            var (after, answer) := AfterAccept(entries, l, account, key, mode, id, now);
            var crowded := |live| >= l.maxEntries;
            && (answer == Full <==> crowded && forall i | 0 <= i < |live| :: ActiveEntry(live[i]))
            && (answer == Full ==> after == live)
            && (answer != Full ==> answer == Accepted(id) && QueuedLast(after, account, key, mode, id, now))
            && (answer != Full && !crowded ==> after[..|after| - 1] == live)
            && (answer != Full && crowded ==> FirstOverLeft(live, after[..|after| - 1]))
  {
    hide Expired, ActiveEntry, FirstOverLeft, Without;
    var live := Expired(entries, l, now);
    var done, added := FirstDone(live), NewEntry(account, key, mode, id, now);
    assert Find(live, account, key) < 0;
    if |live| < l.maxEntries {
      assert (live + [added])[..|live|] == live;
    } else if done >= 0 {
      FirstDoneLeaves(live);
      var rest := Without(live, done);
      assert (rest + [added])[..|rest|] == rest;
    }
  }

  /** The request of that name went to the end; the others kept their order. */
  ghost predicate Moved(live: seq<Entry>, after: seq<Entry>, account: string, key: string) {
    exists i :: 0 <= i < |live| && live[i].account == account && live[i].key == key
                && after == live[..i] + live[i + 1..] + [live[i]]
  }

  /** The last request is a new one that waits. */
  predicate QueuedLast(after: seq<Entry>, account: string, key: string, mode: Mode, id: nat, now: real) {
    && after != []
    && var e := after[|after| - 1];
       && e.account == account && e.key == key && e.mode == mode && e.id == id && e.created == now
       && e.state.Queued? && e.started.None?
  }

  /** Only the first request that was over is gone. */
  ghost predicate FirstOverLeft(live: seq<Entry>, rest: seq<Entry>) {
    exists i :: 0 <= i < |live| && !ActiveEntry(live[i]) && rest == live[..i] + live[i + 1..]
                && forall j | 0 <= j < i :: ActiveEntry(live[j])
  }

  lemma FirstDoneLeaves(live: seq<Entry>)
    requires FirstDone(live) >= 0
    ensures FirstOverLeft(live, Without(live, FirstDone(live)))
  {
    FirstDoneIsFirst(live);
  }

  lemma {:induction false} FirstDoneIsFirst(entries: seq<Entry>)
    ensures forall j | 0 <= j < FirstDone(entries) :: ActiveEntry(entries[j])
  {
    hide ActiveEntry;
    if entries != [] { FirstDoneIsFirst(entries[..|entries| - 1]); }
  }

  lemma FollowsThen(e: Entry, f: Entry, g: Entry)
    requires Follows(e, f) && Follows(f, g)
    ensures Follows(e, g)
  {}

  // ---- the whole registry

  ghost predicate DistinctNames(entries: seq<Entry>) {
    forall i, j | 0 <= i < |entries| && 0 <= j < |entries| && Named(entries[i], entries[j].account, entries[j].key) ::
          i == j
  }

  ghost predicate Inv(entries: seq<Entry>, l: Limits) {
    |entries| <= l.maxEntries && DistinctNames(entries) && forall i | 0 <= i < |entries| :: EntryOk(entries[i])
  }

  ghost predicate Followed(e: Entry, entries: seq<Entry>) {
    exists j :: 0 <= j < |entries| && Follows(e, entries[j])
  }

  /** Each request is followed, or, when an accept made room, it was over by then. */
  ghost predicate Step(entries: seq<Entry>, after: seq<Entry>, l: Limits, op: Op, now: real) {
    forall i | 0 <= i < |entries| :: Followed(entries[i], after)
        || (op.Accept? && !ActiveEntry(Expire(entries[i], l, now)))
  }

  ghost predicate Improves(entries: seq<Entry>, after: seq<Entry>) {
    |after| == |entries| && forall i | 0 <= i < |entries| :: Follows(entries[i], after[i]) && EntryOk(after[i])
  }

  lemma ImprovingKeeps(entries: seq<Entry>, after: seq<Entry>, l: Limits, op: Op, now: real)
    requires Inv(entries, l) && Improves(entries, after)
    ensures Inv(after, l) && Step(entries, after, l, op, now)
  {
    forall i, j | 0 <= i < |after| && 0 <= j < |after| && Named(after[i], after[j].account, after[j].key)
      ensures i == j
    {
      assert Follows(entries[i], after[i]) && Follows(entries[j], after[j]);
      assert Named(entries[i], entries[j].account, entries[j].key);
    }
    forall i | 0 <= i < |entries| ensures Followed(entries[i], after) { assert Follows(entries[i], after[i]); }
  }

  lemma EachImproves(entries: seq<Entry>, l: Limits, s: Snapshot, account: string, mode: Mode, reason: string,
                     now: real)
    requires Inv(entries, l)
    ensures Improves(entries, Expired(entries, l, now))
    ensures Improves(entries, Each(entries, (e: Entry) => Observe(e, s, now)))
    ensures Improves(entries, Each(entries, (e: Entry) => Supersede(e, account, mode)))
    ensures Improves(entries, Each(entries, (e: Entry) => FailIfActive(e, reason)))
    ensures forall i | 0 <= i < |entries| :: !TimedOut(Expired(entries, l, now)[i], l, now)
  {
    hide Follows, EntryOk, Expire, Observe, Supersede, FailIfActive, TimedOut;
    forall i | 0 <= i < |entries|
      ensures Follows(entries[i], Expire(entries[i], l, now)) && EntryOk(Expire(entries[i], l, now))
              && !TimedOut(Expire(entries[i], l, now), l, now)
      ensures Follows(entries[i], Observe(entries[i], s, now)) && EntryOk(Observe(entries[i], s, now))
      ensures Follows(entries[i], Supersede(entries[i], account, mode)) && EntryOk(Supersede(entries[i], account, mode))
      ensures Follows(entries[i], FailIfActive(entries[i], reason)) && EntryOk(FailIfActive(entries[i], reason))
    {
      UpdatesFollow(entries[i], l, s, account, mode, reason, now);
    }
  }

  lemma ImprovesThen(a: seq<Entry>, b: seq<Entry>, c: seq<Entry>)
    requires Improves(a, b) && Improves(b, c)
    ensures Improves(a, c)
  {
    hide EntryOk;
    forall i | 0 <= i < |a| ensures Follows(a[i], c[i]) { FollowsThen(a[i], b[i], c[i]); }
  }

  /** Moving a request to the end, or dropping one, loses no other. */
  lemma WithoutKeeps(entries: seq<Entry>, i: int)
    requires 0 <= i < |entries| && DistinctNames(entries)
    ensures var rest := Without(entries, i);
            && |rest| == |entries| - 1 && DistinctNames(rest)
            && (forall k | 0 <= k < |rest| :: rest[k] == entries[if k < i then k else k + 1])
            && forall k | 0 <= k < |rest| :: !Named(rest[k], entries[i].account, entries[i].key)
  {
    var rest := Without(entries, i);
    forall k | 0 <= k < |rest| ensures !Named(rest[k], entries[i].account, entries[i].key) {
      assert rest[k] == entries[if k < i then k else k + 1];
    }
  }

  lemma AppendKeeps(entries: seq<Entry>, e: Entry)
    requires DistinctNames(entries) && forall k | 0 <= k < |entries| :: !Named(entries[k], e.account, e.key)
    ensures DistinctNames(entries + [e])
  {}

  ghost predicate NoneTimedOut(entries: seq<Entry>, l: Limits, now: real) {
    forall k | 0 <= k < |entries| :: !TimedOut(entries[k], l, now)
  }

  lemma ReplaceKeeps(entries: seq<Entry>, live: seq<Entry>, out: int, e: Entry, l: Limits, op: Op, now: real)
    requires live == Expired(entries, l, now) && Improves(entries, live) && Inv(live, l) && NoneTimedOut(live, l, now)
    requires 0 <= out < |live| && EntryOk(e) && !TimedOut(e, l, now) && op.Accept?
    requires forall k | 0 <= k < |live| && k != out :: !Named(live[k], e.account, e.key)
    requires e == live[out] || !ActiveEntry(live[out])
    ensures var after := Without(live, out) + [e];
            Inv(after, l) && Step(entries, after, l, op, now) && NoneTimedOut(after, l, now)
  {
    hide Follows, Expire, TimedOut, DistinctNames, EntryOk;
    WithoutKeeps(live, out);
    AppendKeeps(Without(live, out), e);
    Places(entries, live, out, e, l, now);
  }

  lemma GrowKeeps(entries: seq<Entry>, live: seq<Entry>, e: Entry, l: Limits, op: Op, now: real)
    requires Improves(entries, live) && Inv(live, l) && NoneTimedOut(live, l, now) && |live| < l.maxEntries
    requires EntryOk(e) && !TimedOut(e, l, now) && forall k | 0 <= k < |live| :: !Named(live[k], e.account, e.key)
    ensures Inv(live + [e], l) && Step(entries, live + [e], l, op, now) && NoneTimedOut(live + [e], l, now)
  {
    hide Follows, Expire, TimedOut, DistinctNames, EntryOk;
    AppendKeeps(live, e);
    forall i | 0 <= i < |entries| ensures Followed(entries[i], live + [e]) { assert (live + [e])[i] == live[i]; }
  }

  lemma AcceptKeeps(entries: seq<Entry>, l: Limits, account: string, key: string, mode: Mode, id: nat, now: real)
    requires Inv(entries, l) && l.maxEntries >= 1 && l.queueTimeout > 0.0
    ensures var after := AfterAccept(entries, l, account, key, mode, id, now).0;
            Inv(after, l) && Step(entries, after, l, Accept(account, key, mode, id), now) && NoneTimedOut(after, l, now)
  {
    hide Inv, Step, Improves, NoneTimedOut, Expired, Expire, Without, NewEntry;
    var op, live := Accept(account, key, mode, id), Expired(entries, l, now);
    LiveIsSound(entries, l, op, now);
    var at, done := Find(live, account, key), FirstDone(live);
    var added := NewEntry(account, key, mode, id, now);
    NewIsFine(account, key, mode, id, now, l);
    if at >= 0 {
      RowFacts(live, at, l, now);
      ReplaceKeeps(entries, live, at, live[at], l, op, now);
    } else if |live| < l.maxEntries {
      GrowKeeps(entries, live, added, l, op, now);
    } else if done >= 0 {
      ReplaceKeeps(entries, live, done, added, l, op, now);
    }
  }

  lemma LiveIsSound(entries: seq<Entry>, l: Limits, op: Op, now: real)
    requires Inv(entries, l)
    ensures var live := Expired(entries, l, now);
            Improves(entries, live) && Inv(live, l) && Step(entries, live, l, op, now) && NoneTimedOut(live, l, now)
                && |live| == |entries|
  {
    hide Inv, Step, Follows, TimedOut, EntryOk;
    EachImproves(entries, l, Snapshot("", None, None), "", Paper, "", now);
    ImprovingKeeps(entries, Expired(entries, l, now), l, op, now);
  }

  lemma RowFacts(live: seq<Entry>, at: int, l: Limits, now: real)
    requires Inv(live, l) && NoneTimedOut(live, l, now) && 0 <= at < |live|
    ensures EntryOk(live[at]) && !TimedOut(live[at], l, now)
    ensures forall k | 0 <= k < |live| && k != at :: !Named(live[k], live[at].account, live[at].key)
  {}

  lemma NewIsFine(account: string, key: string, mode: Mode, id: nat, now: real, l: Limits)
    requires l.queueTimeout > 0.0
    ensures var e := NewEntry(account, key, mode, id, now);
            EntryOk(e) && !TimedOut(e, l, now) && e.account == account && e.key == key
  {}

  /** Every request but the one at `out` is followed; so is that one if `e` is its former self. */
  lemma Places(entries: seq<Entry>, live: seq<Entry>, out: int, e: Entry, l: Limits, now: real)
    requires Improves(entries, live) && 0 <= out < |live|
    ensures forall i | 0 <= i < |entries| && i != out :: Followed(entries[i], Without(live, out) + [e])
    ensures e == live[out] ==> Followed(entries[out], Without(live, out) + [e])
  {
    hide Follows, EntryOk;
    var after := Without(live, out) + [e];
    assert after[|live| - 1] == e;
    forall i | 0 <= i < |entries| && i != out ensures Followed(entries[i], after) {
      assert after[if i < out then i else i - 1] == live[i];
    }
  }

  lemma ApplyKeeps(entries: seq<Entry>, l: Limits, op: Op, now: real)
    requires Inv(entries, l) && l.maxEntries >= 1 && l.queueTimeout > 0.0
    ensures Inv(Apply(entries, l, op, now), l) && Step(entries, Apply(entries, l, op, now), l, op, now)
    ensures op.Accept? || op.Get? ==> NoneTimedOut(Apply(entries, l, op, now), l, now)
  {
    hide Inv, Step, Improves, AfterAccept, NoneTimedOut, Each, Expired;
    var nobody := Snapshot("", None, None);
    var live := Expired(entries, l, now);
    LiveIsSound(entries, l, op, now);
    match op
    case Accept(account, key, mode, id) => AcceptKeeps(entries, l, account, key, mode, id, now);
    case ObserveCycle(s) =>
      if s.Some? {
        EachImproves(live, l, s.value, "", Paper, "", now);
        ImprovesThen(entries, live, Apply(entries, l, op, now));
        ImprovingKeeps(entries, Apply(entries, l, op, now), l, op, now);
      }
    case SupersedeQueued(account, mode) =>
      EachImproves(live, l, nobody, account, mode, "", now);
      ImprovesThen(entries, live, Apply(entries, l, op, now));
      ImprovingKeeps(entries, Apply(entries, l, op, now), l, op, now);
    case FailActive(reason) =>
      EachImproves(entries, l, nobody, "", Paper, reason, now);
      ImprovingKeeps(entries, Apply(entries, l, op, now), l, op, now);
    case Get =>
  }

  // ---- runs

  datatype Timed = Timed(op: Op, now: real)

  ghost predicate Run(states: seq<seq<Entry>>, ops: seq<Timed>, l: Limits) {
    && |states| == |ops| + 1 && states[0] == [] && l.maxEntries >= 1 && l.queueTimeout > 0.0 && l.runTimeout > 0.0
    && forall i | 0 <= i < |ops| :: states[i + 1] == Apply(states[i], l, ops[i].op, ops[i].now)
  }

  /** Never more than the maximum, never two requests of one name, and outcomes marked unknown exactly when started. */
  lemma {:induction false} RegistryIsSound(states: seq<seq<Entry>>, ops: seq<Timed>, l: Limits, i: nat)
    requires Run(states, ops, l) && i < |states|
    ensures Inv(states[i], l)
    ensures i > 0 && (ops[i - 1].op.Accept? || ops[i - 1].op.Get?) ==> NoneTimedOut(states[i], l, ops[i - 1].now)
  {
    hide Apply, Step, NoneTimedOut;
    if i > 0 {
      RegistryIsSound(states, ops, l, i - 1);
      ApplyKeeps(states[i - 1], l, ops[i - 1].op, ops[i - 1].now);
    }
  }

  /** At operation m the successor of e, over by then, made room for a new request. */
  ghost predicate EvictedAt(states: seq<seq<Entry>>, ops: seq<Timed>, l: Limits, e: Entry, m: nat) {
    m < |ops| && m < |states| && ops[m].op.Accept?
    && exists k :: 0 <= k < |states[m]| && Follows(e, states[m][k]) && !ActiveEntry(Expire(states[m][k], l, ops[m].now))
  }

  /** A request keeps its identity and never goes back for as long as it is retained, and it is
      retained until it is over. */
  lemma {:induction false} RetainedUntilOver(states: seq<seq<Entry>>, ops: seq<Timed>, l: Limits, i: nat, j: nat,
                                             e: Entry)
    requires Run(states, ops, l) && i <= j < |states| && e in states[i]
    ensures Followed(e, states[j]) || exists m: nat :: i <= m < j && EvictedAt(states, ops, l, e, m)
  {
    hide Apply, Inv, Follows, Expire;
    if i == j {
      assert Follows(e, e) by { FollowsItself(e); }
    } else {
      RetainedUntilOver(states, ops, l, i, j - 1, e);
      if Followed(e, states[j - 1]) {
        RegistryIsSound(states, ops, l, j - 1);
        var op := ops[j - 1];
        ApplyKeeps(states[j - 1], l, op.op, op.now);
        var k :| 0 <= k < |states[j - 1]| && Follows(e, states[j - 1][k]);
        if Followed(states[j - 1][k], states[j]) {
          var n :| 0 <= n < |states[j]| && Follows(states[j - 1][k], states[j][n]);
          FollowsThen(e, states[j - 1][k], states[j][n]);
        } else {
          assert EvictedAt(states, ops, l, e, j - 1);
        }
      }
    }
  }

  lemma FollowsItself(e: Entry)
    ensures Follows(e, e)
  {}

  /** While it is retained, repeating a request with the same mode answers the same identifier, and
      another mode conflicts. */
  lemma RepeatAnswersSameId(states: seq<seq<Entry>>, ops: seq<Timed>, l: Limits, j: nat, e: Entry, mode: Mode, id: nat,
                            now: real)
    requires Run(states, ops, l) && j < |states| && Followed(e, states[j])
    ensures AfterAccept(states[j], l, e.account, e.key, mode, id, now).1 == if mode == e.mode then Existing(e.id)
            else Conflict
  {
    hide Apply, NoneTimedOut, Step;
    RegistryIsSound(states, ops, l, j);
    LiveIsSound(states[j], l, Get, now);
    var live := Expired(states[j], l, now);
    var k :| 0 <= k < |states[j]| && Follows(e, states[j][k]);
    assert Follows(states[j][k], live[k]);
  }

  // ---- where a request's start and its outcome come from

  /** The cycle of this operation, running in the request's mode, took the request up. */
  predicate TookUp(t: Timed, e: Entry) {
    && t.op.ObserveCycle? && t.op.snapshot.Some?
    && var s := t.op.snapshot.value;
       s.done.None? && s.mode == Some(e.mode) && e.cycle == Some(s.id) && e.started == Some(t.now)
  }

  /** The cycle of this operation is over, with the request's outcome. */
  predicate Delivered(t: Timed, e: Entry) {
    && t.op.ObserveCycle? && t.op.snapshot.Some? && e.state.Done?
    && e.cycle == Some(t.op.snapshot.value.id) && t.op.snapshot.value.done == Some(e.state.outcome)
  }

  predicate HasOutcome(e: Entry) { e.state.Done? && e.reason.None? }

  /** What one operation may have added to a request. */
  predicate Traced(e: Entry, f: Entry, t: Timed) {
    && (f.started.Some? ==> TookUp(t, f) || (f.started == e.started && f.cycle == e.cycle && f.mode == e.mode))
    && (HasOutcome(f) ==> f == e || (Delivered(t, f) && f.started == e.started && f.cycle == e.cycle && f.mode == e.mode
                                     && e.started.Some?))
  }

  lemma UpdatesTraced(e: Entry, l: Limits, t: Timed)
    requires EntryOk(e)
    ensures var live := Expire(e, l, t.now);
            && Traced(e, live, t) && (!t.op.FailActive? || Traced(e, FailIfActive(e, t.op.reason), t))
            && (!t.op.SupersedeQueued? || Traced(e, Supersede(live, t.op.account, t.op.mode), t))
            && (t.op.ObserveCycle? && t.op.snapshot.Some? ==> Traced(e, Observe(live, t.op.snapshot.value, t.now), t))
  {}

  /** Every request after an operation is a new one that waits, or comes from one before it. */
  lemma ApplyTraced(entries: seq<Entry>, l: Limits, t: Timed, f: Entry)
    requires f in Apply(entries, l, t.op, t.now) && forall i | 0 <= i < |entries| :: EntryOk(entries[i])
    ensures (f.state.Queued? && f.started.None?) || exists e :: e in entries && Traced(e, f, t)
  {
    hide Traced, EntryOk, Expire, Observe, Supersede, FailIfActive;
    var after, live := Apply(entries, l, t.op, t.now), Expired(entries, l, t.now);
    if !t.op.Accept? {
      var i :| 0 <= i < |after| && after[i] == f;
      UpdatesTraced(entries[i], l, t);
    } else if f in live {
      var i :| 0 <= i < |live| && live[i] == f;
      UpdatesTraced(entries[i], l, t);
    }
  }

  /** CAUSALITY. In every run: a request that started was taken up by a cycle seen running in its own mode, at that time
      and under that identifier, and one with an outcome got it from the end of that very cycle, later on. */
  lemma {:induction false} OutcomeHasItsCycle(states: seq<seq<Entry>>, ops: seq<Timed>, l: Limits, i: nat, f: Entry)
    requires Run(states, ops, l) && i < |states| && f in states[i]
    ensures f.started.Some? ==> exists k: nat :: k < i && TookUp(ops[k], f)
    ensures HasOutcome(f) ==> exists k: nat, m: nat :: k < m < i && TookUp(ops[k], f) && Delivered(ops[m], f)
  {
    hide Apply, TookUp, Delivered, HasOutcome, Run, NoneTimedOut;
    NotAtStart(states, ops, l, i, f);
    var before, t := states[i - 1], ops[i - 1];
    RegistryIsSound(states, ops, l, i - 1);
    ApplyTraced(before, l, t, f);
    if exists e :: e in before && Traced(e, f, t) {
      var e :| e in before && Traced(e, f, t);
      OutcomeHasItsCycle(states, ops, l, i - 1, e);
      SameCycle(e, f);
      if HasOutcome(f) && f != e { assert Delivered(t, f); }
    } else {
      NoOutcomeYet(f);
    }
  }

  lemma NotAtStart(states: seq<seq<Entry>>, ops: seq<Timed>, l: Limits, i: nat, f: Entry)
    requires Run(states, ops, l) && i < |states| && f in states[i]
    ensures i > 0 && |ops| == |states| - 1 && states[i] == Apply(states[i - 1], l, ops[i - 1].op, ops[i - 1].now)
  {}

  lemma SameCycle(e: Entry, f: Entry)
    ensures f.started == e.started && f.cycle == e.cycle && f.mode == e.mode ==>
              forall t: Timed :: TookUp(t, e) <==> TookUp(t, f)
  {}

  lemma NoOutcomeYet(f: Entry)
    ensures f.state.Queued? ==> !HasOutcome(f)
  {}

  class PersonalCycleRequestRegistry {
    const limits: Limits
    var entries: seq<Entry>

    constructor (limits: Limits)
      requires limits.maxEntries >= 1 && limits.queueTimeout > 0.0 && limits.runTimeout > 0.0
      ensures this.limits == limits && entries == []
    {
      this.limits, entries := limits, [];
    }

    method ExpireEntries(now: real)
      modifies this
      ensures entries == Expired(old(entries), limits, now)
    {
      for i := 0 to |entries|
        invariant |entries| == |old(entries)|
        invariant forall k | 0 <= k < i :: entries[k] == Expire(old(entries)[k], limits, now)
        invariant forall k | i <= k < |entries| :: entries[k] == old(entries)[k]
      {
        var e := entries[i];
        if e.state.Queued? && now - e.created >= limits.queueTimeout {
          entries := entries[i := Failed(e, "queue_timeout", false)];
        } else if e.state.Running? && e.started.Some? && now - e.started.value >= limits.runTimeout {
          entries := entries[i := Failed(e, "result_timeout", true)];
        }
      }
    }

    method AcceptRequest(account: string, key: string, mode: Mode, id: nat, now: real) returns (r: Acceptance)
      modifies this
      ensures (entries, r) == AfterAccept(old(entries), limits, account, key, mode, id, now)
    {
      ExpireEntries(now);
      var at := Find(entries, account, key);
      if at >= 0 {
        var existing := entries[at];
        entries := Without(entries, at) + [existing];
        return if existing.mode != mode then Conflict else Existing(existing.id);
      }
      if |entries| >= limits.maxEntries {
        var terminal := FirstDone(entries);
        if terminal < 0 { return Full; }
        entries := Without(entries, terminal);
      }
      entries := entries + [NewEntry(account, key, mode, id, now)];
      r := Accepted(id);
    }

    method GetRequest(account: string, id: nat, now: real) returns (r: Option<Entry>)
      modifies this
      ensures entries == Apply(old(entries), limits, Get, now)
      ensures r.Some? ==> r.value in entries && r.value.account == account && r.value.id == id
      ensures r.None? ==> forall k | 0 <= k < |entries| :: entries[k].account != account || entries[k].id != id
    {
      ExpireEntries(now);
      for i := 0 to |entries|
        invariant forall k | 0 <= k < i :: entries[k].account != account || entries[k].id != id
      {
        if entries[i].account == account && entries[i].id == id { return Some(entries[i]); }
      }
      r := None;
    }

    method ObserveCycleSnapshot(snapshot: Option<Snapshot>, now: real)
      modifies this
      ensures entries == Apply(old(entries), limits, ObserveCycle(snapshot), now)
    {
      ExpireEntries(now);
      if snapshot.None? { return; }
      ghost var live := entries;
      for i := 0 to |entries|
        invariant |entries| == |live|
        invariant forall k | 0 <= k < i :: entries[k] == Observe(live[k], snapshot.value, now)
        invariant forall k | i <= k < |entries| :: entries[k] == live[k]
      {
        entries := entries[i := Observe(entries[i], snapshot.value, now)];
      }
    }

    method SupersedeQueuedRequests(account: string, mode: Mode, now: real)
      modifies this
      ensures entries == Apply(old(entries), limits, SupersedeQueued(account, mode), now)
    {
      ExpireEntries(now);
      ghost var live := entries;
      for i := 0 to |entries|
        invariant |entries| == |live|
        invariant forall k | 0 <= k < i :: entries[k] == Supersede(live[k], account, mode)
        invariant forall k | i <= k < |entries| :: entries[k] == live[k]
      {
        var e := entries[i];
        if e.account == account && e.state.Queued? && e.mode != mode {
          entries := entries[i := Failed(e, "mode_superseded", false)];
        }
      }
    }

    method FailActiveRequests(reason: string, now: real)
      modifies this
      ensures entries == Apply(old(entries), limits, FailActive(reason), now)
    {
      for i := 0 to |entries|
        invariant |entries| == |old(entries)|
        invariant forall k | 0 <= k < i :: entries[k] == FailIfActive(old(entries)[k], reason)
        invariant forall k | i <= k < |entries| :: entries[k] == old(entries)[k]
      {
        var e := entries[i];
        if ActiveEntry(e) { entries := entries[i := Failed(e, reason, e.state.Running?)]; }
      }
    }
  }
}
