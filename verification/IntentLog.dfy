/** Intents, their atomic reservation, and what all parties together did with them (models.py, stores, engine.py). */
module IntentLog {
  import opened Modes
  import opened Wrappers
  import opened Histories
  import opened Portfolio

  type PartyId = nat

  /** The canonical content an intent hash is computed from, price and size as decimal text; equal hashes mean equal
      contents, so the same value written differently is another intent. */
  datatype IntentKey = IntentKey(
    account: string, mode: Mode, marketId: string, tokenId: string, outcome: Outcome, side: Side,
    price: string, size: string, strategy: Strategy, forecastId: Option<string>, decisionKey: Option<string>)

  datatype Act =
    | Approved(who: PartyId, key: IntentKey)
    | GuardOpen(who: PartyId)
    | Reserved(who: PartyId, key: IntentKey)
    | Submitted(who: PartyId, key: IntentKey)
    | AiReserved(who: PartyId, marketId: string)
    | StopStarted(who: PartyId)
    | CancelAll(who: PartyId)

  type Log = seq<Act>

  ghost predicate ReservedOnce(log: Log) {
    forall i, j | 0 <= i < j < |log| && log[i].Reserved? && log[j].Reserved? :: log[i].key != log[j].key
  }

  /** The submission at k follows an approval of that intent, an open guard and the reservation of that intent, in
      that order and by the same party, and uses the reservation for the first time. */
  ghost predicate EarnedBy(log: Log, k: nat, a: nat, g: nat, r: nat)
    requires k < |log| && log[k].Submitted?
  {
    && a < g < r < k
    && log[a] == Approved(log[k].who, log[k].key) && log[g] == GuardOpen(log[k].who)
    && log[r] == Reserved(log[k].who, log[k].key)
    && forall m | r < m < k :: log[m] != log[k]
  }

  ghost predicate Disciplined(log: Log) {
    && ReservedOnce(log)
    && forall k: nat | k < |log| && log[k].Submitted? :: exists a: nat, g: nat, r: nat :: EarnedBy(log, k, a, g, r)
  }

  /** The keys some party has reserved. */
  ghost predicate HasReserved(log: Log, key: IntentKey) {
    exists i :: 0 <= i < |log| && log[i].Reserved? && log[i].key == key
  }

  /** SAFETY. Whatever the interleaving, no intent is ever submitted twice, by the same party or by two. */
  lemma SubmittedAtMostOnce(log: Log, j: nat, k: nat)
    requires Disciplined(log) && j < k < |log| && log[j].Submitted? && log[k].Submitted?
    ensures log[j].key != log[k].key
  {
    var a: nat, g: nat, r: nat :| EarnedBy(log, j, a, g, r);
    var b: nat, h: nat, s: nat :| EarnedBy(log, k, b, h, s);
    assert r != s ==> log[r].key != log[s].key;
  }

  /** Appending an act keeps the discipline if a reservation is new and a submission is earned. */
  lemma AppendKeeps(log: Log, act: Act)
    requires Disciplined(log)
    requires act.Reserved? ==> !HasReserved(log, act.key)
    requires act.Submitted? ==> exists a: nat, g: nat, r: nat :: EarnedBy(log + [act], |log|, a, g, r)
    ensures Disciplined(log + [act])
  {
    var more := log + [act];
    forall k: nat | k < |more| && more[k].Submitted?
      ensures exists a: nat, g: nat, r: nat :: EarnedBy(more, k, a, g, r)
    {
      if k < |log| {
        var a: nat, g: nat, r: nat :| EarnedBy(log, k, a, g, r);
        assert EarnedBy(more, k, a, g, r);
      }
    }
  }

  /** The acts of one party. */
  function By(me: PartyId): Act -> Option<Act> {
    (act: Act) => if act.who == me then Some(act) else None
  }

  /** The intent store shared by all parties: an insert-if-absent set. */
  class IntentStore {
    var intents: set<IntentKey>
    ghost var log: Log
    /** The reservation calls that raised. */
    ghost var faults: nat

    ghost predicate Valid()
      reads this
    {
      Disciplined(log) && forall key :: key in intents <==> HasReserved(log, key)
    }

    twostate predicate Grew(me: PartyId, acts: seq<Act>)
      reads this
    {
      Valid() && Added(old(log), log, By(me), acts)
    }

    /** Any number of steps by other parties. What they may do is exactly what this contract leaves open. */
    method Interfere(ghost me: PartyId)
      requires Valid()
      modifies this
      ensures Grew(me, []) && faults == old(faults)
    {
      AddedNothing(log, By(me));
    }

    /** A step of this party other than a reservation or a submission. */
    ghost method Note(act: Act)
      requires Valid() && !act.Reserved? && !act.Submitted?
      modifies this`log
      ensures Grew(act.who, [act]) && log == old(log) + [act]
    {
      hide Disciplined, Added;
      AppendKeeps(log, act);
      AddedOne(log, act, By(act.who));
      SameReservations(log, act);
      log := log + [act];
    }

    /** `reserve_intent`: atomic, whatever the others are doing; it may raise before or after its effect. */
    method ReserveIntent(me: PartyId, key: IntentKey) returns (r: Reply<bool>, ghost acts: seq<Act>)
      requires Valid()
      modifies this
      ensures Grew(me, acts) && (acts == [] || acts == [Reserved(me, key)])
      ensures faults == old(faults) + if r.Raised? then 1 else 0
      ensures r.Ok? ==> acts == (if r.value then [Reserved(me, key)] else []) && HasReserved(log, key)
      ensures acts != [] ==> |log| > |old(log)| && log[|log| - 1] == Reserved(me, key)
      ensures acts != [] ==> !HasReserved(log[..|log| - 1], key)
    {
      hide Disciplined, Added, HasReserved;
      Interfere(me);
      acts := [];
      var effective: bool, raises: bool := *, *;
      if !effective || raises { faults := faults + 1; }
      if !effective { return Raised, acts; }
      if key in intents { return if raises then Raised else Ok(false), acts; }
      ghost var before, act := log, Reserved(me, key);
      AppendKeeps(log, act);
      AddedOne(log, act, By(me));
      NewReservation(log, act);
      intents, log := intents + {key}, log + [act];
      AddedThen(old(log), before, log, By(me), [], [act]);
      acts := [] + [act];
      r := if raises then Raised else Ok(true);
    }

    /** `broker.submit`, for an intent this party has just reserved; others may act while the request is on its way. */
    method Submit(me: PartyId, key: IntentKey, ghost a: nat, ghost g: nat, ghost r: nat)
      requires Valid() && a < g < r && r == |log| - 1
      requires log[a] == Approved(me, key) && log[g] == GuardOpen(me) && log[r] == Reserved(me, key)
      modifies this
      ensures Grew(me, [Submitted(me, key)]) && faults == old(faults)
    {
      hide Disciplined, Added;
      Interfere(me);
      ghost var before, act := log, Submitted(me, key);
      AddedPrefix(old(log), before, By(me), []);
      forall m | r < m < |before| ensures before[m] != act { NotMine(old(log), before, me, m); }
      assert EarnedBy(log + [act], |log|, a, g, r);
      AppendKeeps(log, act);
      AddedOne(log, act, By(act.who));
      SameReservations(log, act);
      log := log + [act];
      AddedThen(old(log), before, log, By(me), [], [act]);
      assert [] + [act] == [act];
    }
  }

  lemma ReservedStays(before: Log, after: Log, key: IntentKey)
    requires before <= after && HasReserved(before, key)
    ensures HasReserved(after, key)
  {
    var i :| 0 <= i < |before| && before[i].Reserved? && before[i].key == key;
    assert after[i] == before[i];
  }

  lemma NotMine(before: Log, after: Log, me: PartyId, k: nat)
    requires Added(before, after, By(me), []) && |before| <= k < |after|
    ensures after[k].who != me
  {
    MineGrows(before, after, By(me));
  }

  lemma SameReservations(log: Log, act: Act)
    requires !act.Reserved?
    ensures forall key :: HasReserved(log + [act], key) <==> HasReserved(log, key)
  {
    forall key ensures HasReserved(log + [act], key) <==> HasReserved(log, key) {
      if HasReserved(log, key) {
        var i :| 0 <= i < |log| && log[i].Reserved? && log[i].key == key;
        assert (log + [act])[i] == log[i];
      }
    }
  }

  lemma NewReservation(log: Log, act: Act)
    requires act.Reserved?
    ensures forall key :: HasReserved(log + [act], key) <==> HasReserved(log, key) || key == act.key
  {
    forall key ensures HasReserved(log + [act], key) <==> HasReserved(log, key) || key == act.key {
      if HasReserved(log, key) {
        var i :| 0 <= i < |log| && log[i].Reserved? && log[i].key == key;
        assert (log + [act])[i] == log[i];
      }
      assert (log + [act])[|log|] == act;
    }
  }
}
