/** The ordered, lazily expired request limiter (api_models.py) against a counter that never evicts anything. */
module Limiter {
  import opened Decimals

  type Key = string

  datatype Window = Window(start: real, hits: nat)

  datatype Entry = Entry(key: Key, window: Window)

  /** A call that was counted, as opposed to one refused for want of room. */
  datatype Call = Call(key: Key, now: real)

  function Bump(w: Window, now: real, size: real): Window {
    if now - w.start >= size then Window(now, 1) else Window(w.start, w.hits + 1)
  }

  /** The naive limiter: the fixed window of one key, from the counted calls of that key alone. */
  function WindowOf(counted: seq<Call>, key: Key, size: real): Window {
    if counted == [] then Window(0.0, 0)
    else
      var before, last := WindowOf(counted[..|counted| - 1], key, size), counted[|counted| - 1];
      if last.key == key then Bump(before, last.now, size) else before
  }

  ghost predicate Chronological(counted: seq<Call>) {
    (forall i | 0 <= i < |counted| :: counted[i].now >= 0.0)
    && forall i, j | 0 <= i < j < |counted| :: counted[i].now <= counted[j].now
  }

  predicate Expired(w: Window, now: real, size: real) { now - w.start >= size }

  function Keys(entries: seq<Entry>): set<Key> { set i | 0 <= i < |entries| :: entries[i].key }

  ghost predicate SortedByStart(entries: seq<Entry>) {
    forall i, j | 0 <= i < j < |entries| :: entries[i].window.start <= entries[j].window.start
  }

  ghost predicate DistinctKeys(entries: seq<Entry>) {
    forall i, j | 0 <= i < j < |entries| :: entries[i].key != entries[j].key
  }

  /** Every window still running, in order. */
  function Running(entries: seq<Entry>, now: real, size: real): seq<Entry> {
    if entries == [] then []
    else
      var before, last := Running(entries[..|entries| - 1], now, size), entries[|entries| - 1];
      if Expired(last.window, now, size) then before else before + [last]
  }

  /** Sorted by start, the expired windows are a head of the list, and dropping that head drops nothing else. */
  lemma {:induction false} HeadIsExpired(entries: seq<Entry>, n: nat, now: real, size: real)
    requires SortedByStart(entries) && n <= |entries|
    requires forall i | 0 <= i < n :: Expired(entries[i].window, now, size)
    requires n < |entries| ==> !Expired(entries[n].window, now, size)
    ensures Running(entries, now, size) == entries[n..]
  {
    if entries != [] {
      var init := entries[..|entries| - 1];
      if n == |entries| {
        HeadIsExpired(init, n - 1, now, size);
      } else {
        HeadIsExpired(init, n, now, size);
        assert entries[n].window.start <= entries[|entries| - 1].window.start;
        assert init[n..] + [entries[|entries| - 1]] == entries[n..];
      }
    }
  }

  ghost predicate Ordered(entries: seq<Entry>, clock: real, size: real) {
    && clock >= 0.0 && SortedByStart(entries) && DistinctKeys(entries)
    && (forall i | 0 <= i < |entries| :: 0.0 <= entries[i].window.start <= clock)
    && (forall i | 0 <= i < |entries| :: entries[i].window.start == 0.0 || entries[i].window.start >= size)
  }

  ghost predicate Past(counted: seq<Call>, clock: real) {
    Chronological(counted) && forall i | 0 <= i < |counted| :: counted[i].now <= clock
  }

  /** A key without an entry has no window at all, or one that has run out. */
  predicate Gone(w: Window, clock: real, size: real) {
    w == Window(0.0, 0) || (w.start >= 0.0 && Expired(w, clock, size))
  }

  /** The stored entry of every key is the naive window. */
  ghost predicate Agrees(entries: seq<Entry>, counted: seq<Call>, clock: real, size: real) {
    && (forall i | 0 <= i < |entries| :: entries[i].window == WindowOf(counted, entries[i].key, size))
    && (forall k: Key | k !in Keys(entries) :: Gone(WindowOf(counted, k, size), clock, size))
  }

  /** Forgetting an expired head loses nothing the naive limiter would still count. */
  lemma DropKeeps(entries: seq<Entry>, n: nat, counted: seq<Call>, clock: real, now: real, size: real)
    requires Ordered(entries, clock, size) && Agrees(entries, counted, clock, size) && Past(counted, clock)
    requires n <= |entries| && clock <= now && size > 0.0
    requires forall i | 0 <= i < n :: Expired(entries[i].window, now, size)
    requires n < |entries| ==> !Expired(entries[n].window, now, size)
    ensures Ordered(entries[n..], now, size) && Agrees(entries[n..], counted, now, size) && Past(counted, now)
    ensures forall i | 0 <= i < |entries[n..]| :: !Expired(entries[n..][i].window, now, size)
    ensures Running(entries, now, size) == entries[n..]
  {
    HeadIsExpired(entries, n, now, size);
    var rest := entries[n..];
    assert forall i | 0 <= i < |rest| :: rest[i] == entries[i + n];
    forall i | 0 <= i < |rest| ensures !Expired(rest[i].window, now, size) {
      assert rest[0].window.start <= rest[i].window.start;
    }
    forall k: Key | k !in Keys(rest) ensures Gone(WindowOf(counted, k, size), now, size) {
      assert forall j | n <= j < |entries| :: entries[j].key == rest[j - n].key && rest[j - n].key in Keys(rest);
      if k in Keys(entries) {
        var i :| 0 <= i < |entries| && entries[i].key == k;
        assert i < n;
      }
    }
  }

  class RequestRateLimiter {
    const capacity: nat
    const size: nat
    var entries: seq<Entry>
    /** The calls the naive limiter has counted, and the last time it saw. */
    ghost var counted: seq<Call>
    ghost var clock: real

    ghost predicate Valid()
      reads this
    {
      && capacity >= 1 && size >= 1 && |entries| <= capacity
      && Ordered(entries, clock, size as real) && Past(counted, clock) && Agrees(entries, counted, clock, size as real)
    }

    constructor (capacity: nat, size: nat)
      requires capacity >= 1 && size >= 1
      ensures Valid() && entries == [] && counted == [] && this.capacity == capacity && this.size == size
    {
      this.capacity, this.size, entries, counted, clock := capacity, size, [], [], 0.0;
    }

    /** The eviction loop. */
    method EvictExpired(now: real)
      requires Valid() && clock <= now
      modifies this`entries, this`clock
      ensures Valid() && clock == now && entries == Running(old(entries), now, size as real)
      ensures forall i | 0 <= i < |entries| :: !Expired(entries[i].window, now, size as real)
    {
      hide Ordered, Agrees, Past, Running;
      ghost var before, n := entries, 0;
      while entries != []
        invariant n <= |before| && entries == before[n..] && clock == old(clock)
        invariant forall i | 0 <= i < n :: Expired(before[i].window, now, size as real)
        decreases |entries|
      {
        if now - entries[0].window.start < size as real { break; }
        entries := entries[1..];
        n := n + 1;
      }
      DropKeeps(before, n, counted, clock, now, size as real);
      clock := now;
    }

    /** One request: `ok` where the source returns True, with the seconds to wait. */
    method Allow(key: Key, limit: nat, now: real) returns (ok: bool, retryAfter: int)
      requires Valid() && clock <= now
      modifies this
      ensures Valid() && clock == now
      ensures var live := Running(old(entries), now, size as real);
              if key !in Keys(live) && |live| >= capacity then !ok && retryAfter == size && entries == live
                  && counted == old(counted)
              else
                var w := WindowOf(counted, key, size as real);
                && counted == old(counted) + [Call(key, now)] && (ok <==> w.hits <= limit)
                && retryAfter == RetryAfter(w, now, size) && Keys(entries) == Keys(live) + {key}
    {
      EvictExpired(now);
      var at := IndexOf(entries, key);
      if at < 0 && |entries| >= capacity { return false, size; }
      var window := if at < 0 then Window(0.0, 0) else entries[at].window;
      var bumped := Bump(window, now, size as real);
      var stored := Stored(entries, at, Entry(key, bumped));
      StoredKeys(entries, at, key, bumped);
      StoreKeepsOrder(entries, at, key, bumped, now, size as real);
      StoreAgrees(entries, at, key, bumped, counted, now, size as real);
      entries, counted := stored, counted + [Call(key, now)];
      ok, retryAfter := bumped.hits <= limit, RetryAfter(bumped, now, size);
    }
  }

  /** An assignment to an ordered dictionary: in place where the key exists, at the end otherwise. */
  function Stored(entries: seq<Entry>, at: int, e: Entry): seq<Entry>
    requires at < |entries|
  {
    if at < 0 then entries + [e] else entries[at := e]
  }

  function Stale(entries: seq<Entry>, at: int): Window
    requires at < |entries|
  {
    if at < 0 then Window(0.0, 0) else entries[at].window
  }

  lemma StoredKeys(entries: seq<Entry>, at: int, key: Key, w: Window)
    requires at < |entries| && (at >= 0 ==> entries[at].key == key)
    ensures Keys(Stored(entries, at, Entry(key, w))) == Keys(entries) + {key}
  {
    var stored := Stored(entries, at, Entry(key, w));
    assert forall i | 0 <= i < |entries| :: stored[i].key == entries[i].key;
    assert stored[if at < 0 then |entries| else at].key == key;
    forall k | k in Keys(entries) ensures k in Keys(stored) {
      var i :| 0 <= i < |entries| && entries[i].key == k;
      assert stored[i].key == k;
    }
  }

  lemma StoreKeepsOrder(entries: seq<Entry>, at: int, key: Key, w: Window, now: real, size: real)
    requires Ordered(entries, now, size) && size > 0.0 && at == IndexOf(entries, key)
    requires forall i | 0 <= i < |entries| :: !Expired(entries[i].window, now, size)
    requires w == Bump(Stale(entries, at), now, size)
    ensures Ordered(Stored(entries, at, Entry(key, w)), now, size)
  {
    var stored := Stored(entries, at, Entry(key, w));
    if at < 0 {
      forall i | 0 <= i < |entries| ensures entries[i].key != key && entries[i].window.start <= w.start {
        assert entries[i].key in Keys(entries);
      }
    }
  }

  /** Where the store agrees with the naive limiter before a counted call, it agrees after it. */
  lemma StoreAgrees(entries: seq<Entry>, at: int, key: Key, w: Window, counted: seq<Call>, now: real, size: real)
    requires Agrees(entries, counted, now, size) && DistinctKeys(entries) && size > 0.0 && at == IndexOf(entries, key)
    requires w == Bump(Stale(entries, at), now, size)
    ensures Agrees(Stored(entries, at, Entry(key, w)), counted + [Call(key, now)], now, size)
    ensures WindowOf(counted + [Call(key, now)], key, size) == w
  {
    var stored, more := Stored(entries, at, Entry(key, w)), counted + [Call(key, now)];
    assert more[..|counted|] == counted;
    StoredKeys(entries, at, key, w);
    forall i | 0 <= i < |stored| ensures stored[i].window == WindowOf(more, stored[i].key, size) {
      if i < |entries| && i != at { assert stored[i] == entries[i] && entries[i].key in Keys(entries); }
    }
  }

  function RetryAfter(w: Window, now: real, size: nat): int {
    var left := Trunc(size as real - (now - w.start));
    if left > 1 then left else 1
  }

  function IndexOf(entries: seq<Entry>, key: Key): (i: int)
    ensures 0 <= i ==> i < |entries| && entries[i].key == key
    ensures i < 0 <==> key !in Keys(entries)
  {
    if entries == [] then -1
    else
      var before := IndexOf(entries[..|entries| - 1], key);
      KeysOfPrefix(entries);
      if before >= 0 then before else if entries[|entries| - 1].key == key then |entries| - 1 else -1
  }

  lemma KeysOfPrefix(entries: seq<Entry>)
    requires |entries| > 0
    ensures Keys(entries) == Keys(entries[..|entries| - 1]) + {entries[|entries| - 1].key}
  {
    var init := entries[..|entries| - 1];
    assert forall i | 0 <= i < |init| :: entries[i] == init[i];
  }

  // ---- what the naive limiter counts

  /** The counted calls of one key from t on. */
  function CallsFrom(counted: seq<Call>, key: Key, t: real): nat {
    if counted == [] then 0
    else
      var last := counted[|counted| - 1];
      CallsFrom(counted[..|counted| - 1], key, t) + if last.key == key && last.now >= t then 1 else 0
  }

  /** No call of that key lies at or beyond t. */
  ghost predicate AllBefore(counted: seq<Call>, key: Key, t: real) {
    forall c | c in counted && c.key == key :: c.now < t
  }

  lemma {:induction false} NoneFrom(counted: seq<Call>, key: Key, t: real)
    requires AllBefore(counted, key, t)
    ensures CallsFrom(counted, key, t) == 0
  {
    if counted != [] { NoneFrom(counted[..|counted| - 1], key, t); }
  }

  lemma {:induction false} FewerFrom(counted: seq<Call>, key: Key, t: real, u: real)
    requires t <= u
    ensures CallsFrom(counted, key, u) <= CallsFrom(counted, key, t)
  {
    if counted != [] { FewerFrom(counted[..|counted| - 1], key, t, u); }
  }

  /** THE WINDOW. It opens at zero or with a call of its key, covers every call of that key so far, and counts each one
      since it opened. */
  lemma {:induction false} WindowExactly(counted: seq<Call>, key: Key, size: real)
    requires Chronological(counted) && size > 0.0
    ensures var w := WindowOf(counted, key, size);
            && w.hits == CallsFrom(counted, key, w.start) && AllBefore(counted, key, w.start + size)
            && (w.start == 0.0 || Call(key, w.start) in counted)
  {
    if counted != [] {
      var n := |counted| - 1;
      var before, w := WindowOf(counted[..n], key, size), WindowOf(counted, key, size);
      WindowExactly(counted[..n], key, size);
      assert counted == counted[..n] + [counted[n]];
      assert counted[n].key == key && w != before && w.start == counted[n].now ==> Call(key, w.start) == counted[n];
      if w.start >= before.start + size {
        assert AllBefore(counted[..n], key, w.start);
        NoneFrom(counted[..n], key, w.start);
      }
    }
  }

  /** One window of a key follows another at a distance of at least its length. */
  lemma {:induction false} WindowsApart(counted: seq<Call>, n: nat, key: Key, size: real)
    requires n <= |counted| && size > 0.0
    ensures var earlier, w := WindowOf(counted[..n], key, size), WindowOf(counted, key, size);
            w.start == earlier.start || w.start >= earlier.start + size
  {
    if n == |counted| {
      assert counted[..n] == counted;
    } else {
      assert counted[..|counted| - 1][..n] == counted[..n];
      WindowsApart(counted[..|counted| - 1], n, key, size);
    }
  }

  /** NO FALSE REFUSAL. A call is within the limit if its key made no more than that many within the window's length up
      to and including it. */
  lemma QuietKeyAdmitted(counted: seq<Call>, key: Key, limit: nat, now: real, size: real)
    requires Chronological(counted + [Call(key, now)]) && size > 0.0
    requires CallsFrom(counted + [Call(key, now)], key, now - size) <= limit
    ensures WindowOf(counted + [Call(key, now)], key, size).hits <= limit
  {
    var more := counted + [Call(key, now)];
    var w := WindowOf(more, key, size);
    WindowExactly(more, key, size);
    assert Call(key, now) in more;
    FewerFrom(more, key, now - size, w.start);
  }

  /** Eviction leaves exactly the entries whose window is younger than its length. */
  lemma {:induction false} RunningExactly(entries: seq<Entry>, now: real, size: real, e: Entry)
    ensures multiset(Running(entries, now, size))[e] == if now < e.window.start + size then multiset(entries)[e] else 0
  {
    if entries != [] {
      RunningExactly(entries[..|entries| - 1], now, size, e);
      assert entries == entries[..|entries| - 1] + [entries[|entries| - 1]];
    }
  }

  /** The wait ends the window, to the whole second below, and is never less than a second. */
  lemma RetryAfterExactly(w: Window, now: real, size: nat)
    requires size >= 1 && w.start <= now < w.start + size as real
    ensures var r := RetryAfter(w, now, size);
            && 1 <= r <= size && now + r as real > w.start + size as real - 1.0
            && (now + r as real <= w.start + size as real || r == 1)
  {}

  // ---- how much a fixed window can admit

  /** The calls of one key admitted within [t, t + size). */
  function Admitted(counted: seq<Call>, key: Key, limit: nat, t: real, size: real): nat {
    if counted == [] then 0
    else
      var last := counted[|counted| - 1];
      Admitted(counted[..|counted| - 1], key, limit, t, size)
      + if last.key == key && t <= last.now < t + size && WindowOf(counted, key, size).hits <= limit then 1 else 0
  }

  function Least(a: nat, b: nat): nat { if a < b then a else b }

  lemma {:induction false} NothingBefore(counted: seq<Call>, key: Key, limit: nat, t: real, size: real)
    requires forall c | c in counted :: c.now < t
    ensures Admitted(counted, key, limit, t, size) == 0
  {
    if counted != [] { NothingBefore(counted[..|counted| - 1], key, limit, t, size); }
  }

  lemma {:induction false} WindowPast(counted: seq<Call>, key: Key, size: real)
    requires Chronological(counted) && size > 0.0
    ensures WindowOf(counted, key, size).start >= 0.0
    ensures counted != [] ==> WindowOf(counted, key, size).start <= counted[|counted| - 1].now
  {
    if counted != [] {
      WindowPast(counted[..|counted| - 1], key, size);
    }
  }

  /** At most two windows of one key meet an interval no longer than a window. */
  lemma {:induction false} AdmittedByWindow(counted: seq<Call>, key: Key, limit: nat, t: real, size: real)
    requires Chronological(counted) && size > 0.0
    ensures var w := WindowOf(counted, key, size);
            var n := Admitted(counted, key, limit, t, size);
            if w.start < t then n <= Least(w.hits, limit)
            else if w.start < t + size then n <= limit + Least(w.hits, limit)
            else n <= 2 * limit
  {
    if counted != [] {
      var before, last := counted[..|counted| - 1], counted[|counted| - 1];
      AdmittedByWindow(before, key, limit, t, size);
      WindowPast(before, key, size);
      if last.now < t { NothingBefore(counted, key, limit, t, size); }
    }
  }

  /** Whatever the calls were, a key is admitted at most twice its limit in any half-open interval of one window. */
  lemma AtMostTwiceTheLimit(counted: seq<Call>, key: Key, limit: nat, t: real, size: real)
    requires Chronological(counted) && size > 0.0
    ensures Admitted(counted, key, limit, t, size) <= 2 * limit
  {
    AdmittedByWindow(counted, key, limit, t, size);
  }

  /** Twice is reached: `limit` calls at the end of one window and `limit` at the start of the next. */
  lemma TwiceIsReached(key: Key)
    ensures var counted := [Call(key, 1.5), Call(key, 2.0)];
            Chronological(counted) && Admitted(counted, key, 1, 1.5, 2.0) == 2
  {
    var counted := [Call(key, 1.5), Call(key, 2.0)];
    assert counted[..1] == [Call(key, 1.5)] && counted[..1][..0] == [];
    assert WindowOf([], key, 2.0) == Window(0.0, 0);
    assert WindowOf(counted[..1], key, 2.0) == Window(0.0, 1);
    assert WindowOf(counted, key, 2.0) == Window(2.0, 1);
    assert Admitted(counted[..1], key, 1, 1.5, 2.0) == 1;
  }
}
