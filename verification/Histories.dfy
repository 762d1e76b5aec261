/** Shared histories: what one party contributed to a log that others extend too. */
module Histories {
  import opened Wrappers

  /** What a view recognises of a log, in order. */
  ghost function Mine<E, A>(log: seq<E>, view: E -> Option<A>): seq<A> {
    if log == [] then []
    else
      var last := view(log[|log| - 1]);
      Mine(log[..|log| - 1], view) + if last.Some? then [last.value] else []
  }

  /** The log grew from `before` to `after`, and `acts` is what the view recognises of the growth. */
  ghost predicate Added<E, A>(before: seq<E>, after: seq<E>, view: E -> Option<A>, acts: seq<A>) {
    before <= after && Mine(after, view) == Mine(before, view) + acts
  }

  lemma AddedPrefix<E, A>(before: seq<E>, after: seq<E>, view: E -> Option<A>, acts: seq<A>)
    requires Added(before, after, view, acts)
    ensures before <= after
  {}

  lemma AddedNothing<E, A>(log: seq<E>, view: E -> Option<A>)
    ensures Added(log, log, view, [])
  {
    assert Mine(log, view) + [] == Mine(log, view);
  }

  lemma AddedOne<E, A>(log: seq<E>, e: E, view: E -> Option<A>)
    requires view(e).Some?
    ensures Added(log, log + [e], view, [view(e).value])
  {
    assert (log + [e])[..|log|] == log;
  }

  lemma AddedThen<E, A>(first: seq<E>, second: seq<E>, third: seq<E>, view: E -> Option<A>, xs: seq<A>, ys: seq<A>)
    requires Added(first, second, view, xs) && Added(second, third, view, ys)
    ensures Added(first, third, view, xs + ys) && first <= second <= third
  {
    assert Mine(first, view) + xs + ys == Mine(first, view) + (xs + ys);
  }

  lemma {:induction false} MineGrows<E, A>(before: seq<E>, after: seq<E>, view: E -> Option<A>)
    requires before <= after
    ensures Mine(before, view) <= Mine(after, view)
    ensures forall k | |before| <= k < |after| && view(after[k]).Some? ::
              view(after[k]).value in Mine(after, view)[|Mine(before, view)|..]
  {
    if |before| < |after| {
      var prefix := after[..|after| - 1];
      MineGrows(before, prefix, view);
      var last := view(after[|after| - 1]);
      var mine, base := Mine(prefix, view), |Mine(before, view)|;
      forall k | |before| <= k < |after| && view(after[k]).Some?
        ensures view(after[k]).value in Mine(after, view)[base..]
      {
        if k < |after| - 1 {
          assert after[k] == prefix[k];
          var i :| base <= i < |mine| && mine[i] == view(after[k]).value;
          assert Mine(after, view)[i] == view(after[k]).value;
        } else {
          assert Mine(after, view)[|mine|] == last.value;
        }
      }
    } else {
      assert before == after;
    }
  }

  /** Everything recognised between the two logs is among what was contributed. */
  lemma AddedMembers<E, A>(before: seq<E>, after: seq<E>, view: E -> Option<A>, acts: seq<A>, k: nat)
    requires Added(before, after, view, acts) && |before| <= k < |after| && view(after[k]).Some?
    ensures view(after[k]).value in acts
  {
    MineGrows(before, after, view);
    assert Mine(after, view)[|Mine(before, view)|..] == acts;
  }
}
