/** Order-book levels, best quotes, and what walking a sorted book costs (models.py, strategy.py). */
module OrderBook {
  import opened Decimals
  import opened Wrappers

  datatype Level = Level(price: real, size: real)

  ghost predicate ValidLevels(levels: seq<Level>) {
    forall i | 0 <= i < |levels| :: 0.0 < levels[i].price < 1.0 && levels[i].size > 0.0
  }

  /** Asks sort by price, bids by descending price; equal prices keep their listing order. */
  function Rank(l: Level, descending: bool): real { if descending then -l.price else l.price }

  predicate Ordered(levels: seq<Level>, descending: bool) {
    forall i, j | 0 <= i < j < |levels| :: Rank(levels[i], descending) <= Rank(levels[j], descending)
  }

  function Insert(l: Level, levels: seq<Level>, descending: bool): (r: seq<Level>)
    ensures multiset(r) == multiset{l} + multiset(levels)
  {
    if levels == [] then [l]
    else if Rank(l, descending) <= Rank(levels[0], descending) then [l] + levels
    else
      assert levels == [levels[0]] + levels[1..];
      [levels[0]] + Insert(l, levels[1..], descending)
  }

  lemma InsertMembers(l: Level, levels: seq<Level>, descending: bool)
    ensures forall x | x in Insert(l, levels, descending) :: x == l || x in levels
  {
    var r := Insert(l, levels, descending);
    forall x | x in r ensures x == l || x in levels {
      assert x in multiset(r);
    }
  }

  lemma PrependOrders(first: Level, rest: seq<Level>, descending: bool)
    requires Ordered(rest, descending) && forall x | x in rest :: Rank(first, descending) <= Rank(x, descending)
    ensures Ordered([first] + rest, descending)
  {
    hide Rank;
    assert forall i | 0 <= i < |rest| :: rest[i] in rest;
  }

  lemma {:induction false} InsertOrders(l: Level, levels: seq<Level>, descending: bool)
    requires Ordered(levels, descending)
    ensures Ordered(Insert(l, levels, descending), descending)
  {
    if levels != [] && Rank(l, descending) > Rank(levels[0], descending) {
      var rest := Insert(l, levels[1..], descending);
      InsertOrders(l, levels[1..], descending);
      InsertMembers(l, levels[1..], descending);
      forall x | x in rest ensures Rank(levels[0], descending) <= Rank(x, descending) {
        if x != l {
          var i :| 1 <= i < |levels| && levels[i] == x;
        }
      }
      PrependOrders(levels[0], rest, descending);
    }
  }

  function Sorted(levels: seq<Level>, descending: bool): (r: seq<Level>)
    ensures multiset(r) == multiset(levels)
  {
    if levels == [] then []
    else
      assert levels == [levels[0]] + levels[1..];
      Insert(levels[0], Sorted(levels[1..], descending), descending)
  }

  lemma {:induction false} SortedIsOrdered(levels: seq<Level>, descending: bool)
    ensures Ordered(Sorted(levels, descending), descending)
  {
    if levels != [] {
      SortedIsOrdered(levels[1..], descending);
      InsertOrders(levels[0], Sorted(levels[1..], descending), descending);
    }
  }

  lemma SortedKeepsLevels(levels: seq<Level>, descending: bool)
    ensures forall l :: l in Sorted(levels, descending) <==> l in levels
    ensures |Sorted(levels, descending)| == |levels|
    ensures Ordered(Sorted(levels, descending), descending)
    ensures ValidLevels(levels) ==> ValidLevels(Sorted(levels, descending))
  {
    SortedIsOrdered(levels, descending);
    var r := Sorted(levels, descending);
    assert forall l :: l in r <==> l in multiset(r);
    assert forall l :: l in levels <==> l in multiset(levels);
    assert |multiset(r)| == |multiset(levels)|;
    assert forall i | 0 <= i < |r| :: r[i] in r;
  }

  /** The lowest ask or the highest bid, whatever order the venue listed the levels in. */
  function BestQuote(levels: seq<Level>, highest: bool): (best: Option<real>)
    ensures best.None? <==> levels == []
    ensures best.Some? ==> exists l <- levels :: l.price == best.value
    ensures best.Some? ==> forall l <- levels :: if highest then l.price <= best.value else best.value <= l.price
  {
    if levels == [] then None
    else
      var rest := BestQuote(levels[1..], highest);
      var p := levels[0].price;
      assert levels[0] in levels;
      assert forall l <- levels :: l == levels[0] || l in levels[1..];
      if rest.None? then Some(p)
      else if highest then Some(Max(p, rest.value)) else Some(Min(p, rest.value))
  }

  lemma BestQuoteIsFirst(levels: seq<Level>, highest: bool)
    requires levels != []
    ensures BestQuote(levels, highest) == Some(Sorted(levels, highest)[0].price)
  {
    SortedKeepsLevels(levels, highest);
    var r := Sorted(levels, highest);
    var best := BestQuote(levels, highest);
    var l :| l in levels && l.price == best.value;
    assert r[0] in levels && l in r;
    var i :| 0 <= i < |r| && r[i] == l;
  }

  /** Shares available in the first k levels. */
  function Depth(sizes: seq<real>, k: nat): real
    requires k <= |sizes|
  {
    if k == 0 then 0.0 else Depth(sizes, k - 1) + sizes[k - 1]
  }

  /** What level j contributes when the best n shares of the book are taken. */
  function Taken(sizes: seq<real>, n: real, j: nat): real
    requires j < |sizes|
  {
    Max(0.0, Min(sizes[j], n - Depth(sizes, j)))
  }

  /** The charge of the best n shares that falls on the first k levels, at one unit price per level. */
  function Cost(sizes: seq<real>, unit: seq<real>, n: real, k: nat): real
    requires k <= |sizes| == |unit|
  {
    if k == 0 then 0.0 else Cost(sizes, unit, n, k - 1) + Mul(Taken(sizes, n, k - 1), unit[k - 1])
  }

  ghost predicate Nonnegative(sizes: seq<real>) { forall s <- sizes :: s >= 0.0 }

  lemma {:induction false} DepthMonotone(sizes: seq<real>, j: nat, k: nat)
    requires Nonnegative(sizes) && j <= k <= |sizes|
    ensures 0.0 <= Depth(sizes, j) <= Depth(sizes, k)
  {
    if j < k { DepthMonotone(sizes, j, k - 1); assert sizes[k - 1] in sizes; }
    else if j > 0 { DepthMonotone(sizes, j - 1, j - 1); assert sizes[j - 1] in sizes; }
  }

  /** Levels that are bought out cost the same whatever is taken beyond them. */
  lemma {:induction false} CostSaturates(sizes: seq<real>, unit: seq<real>, n: real, m: real, k: nat)
    requires Nonnegative(sizes) && k <= |sizes| == |unit|
    requires Depth(sizes, k) <= n && Depth(sizes, k) <= m
    ensures Cost(sizes, unit, n, k) == Cost(sizes, unit, m, k)
  {
    hide Mul;
    if k > 0 {
      DepthMonotone(sizes, k - 1, k);
      CostSaturates(sizes, unit, n, m, k - 1);
      assert sizes[k - 1] in sizes;
    }
  }

  /** Levels behind the last share taken cost nothing. */
  lemma {:induction false} CostStops(sizes: seq<real>, unit: seq<real>, n: real, i: nat, k: nat)
    requires Nonnegative(sizes) && i <= k <= |sizes| == |unit|
    requires n <= Depth(sizes, i)
    ensures Cost(sizes, unit, n, k) == Cost(sizes, unit, n, i)
  {
    hide Mul;
    if i < k {
      CostStops(sizes, unit, n, i, k - 1);
      DepthMonotone(sizes, i, k - 1);
      assert sizes[k - 1] in sizes;
      MulSign(0.0, unit[k - 1]);
    }
  }

  /** The average price paid stays between the cheapest and dearest level that was touched. */
  lemma {:induction false} CostBounds(sizes: seq<real>, unit: seq<real>, n: real, k: nat, lo: real, hi: real)
    requires Nonnegative(sizes) && k <= |sizes| == |unit| && n >= 0.0
    requires forall j | 0 <= j < k :: Depth(sizes, j) < n ==> lo <= unit[j] <= hi
    ensures Mul(lo, Min(n, Depth(sizes, k))) <= Cost(sizes, unit, n, k) <= Mul(hi, Min(n, Depth(sizes, k)))
  {
    hide Mul;
    if k == 0 {
      MulSign(lo, 0.0);
      MulSign(hi, 0.0);
    } else {
      CostBounds(sizes, unit, n, k - 1, lo, hi);
      DepthMonotone(sizes, k - 1, k);
      assert sizes[k - 1] in sizes;
      var t := Taken(sizes, n, k - 1);
      assert Min(n, Depth(sizes, k)) == Min(n, Depth(sizes, k - 1)) + t;
      MulDistrib(lo, Min(n, Depth(sizes, k - 1)), t);
      MulDistrib(hi, Min(n, Depth(sizes, k - 1)), t);
      MulComm(t, unit[k - 1]);
      if t > 0.0 {
        MulMonotone(lo, unit[k - 1], t);
        MulMonotone(unit[k - 1], hi, t);
      } else {
        MulSign(lo, t);
        MulSign(hi, t);
        MulSign(unit[k - 1], t);
      }
    }
  }

  function Sum(xs: seq<real>, k: nat): real
    requires k <= |xs|
  {
    if k == 0 then 0.0 else Sum(xs, k - 1) + xs[k - 1]
  }

  function Spend(xs: seq<real>, unit: seq<real>, k: nat): real
    requires k <= |xs| == |unit|
  {
    if k == 0 then 0.0 else Spend(xs, unit, k - 1) + Mul(xs[k - 1], unit[k - 1])
  }

  lemma NothingToFill(sizes: seq<real>, unit: seq<real>, n: real, other: seq<real>)
    requires |sizes| == |unit| == |other| == 0
    ensures Cost(sizes, unit, n, 0) == Spend(other, unit, 0) == 0.0
  {}

  /** Walking an ascending book is the cheapest way to collect n shares from it. */
  lemma CheapestFill(sizes: seq<real>, unit: seq<real>, n: real, other: seq<real>)
    requires Nonnegative(sizes) && |sizes| == |unit| == |other| && 0.0 <= n <= Depth(sizes, |sizes|)
    requires forall i, j | 0 <= i < j < |unit| :: unit[i] <= unit[j]
    requires forall j | 0 <= j < |sizes| :: 0.0 <= other[j] <= sizes[j]
    requires Sum(other, |other|) == n
    ensures Cost(sizes, unit, n, |sizes|) <= Spend(other, unit, |unit|)
  {
    hide Mul, Taken, Cost, Spend;
    if |sizes| == 0 {
      NothingToFill(sizes, unit, n, other);
      return;
    }
    // The level holding the last share prices every swap between the two fills.
    var m := MarginalLevel(sizes, n, |sizes|);
    SwapNeverPays(sizes, unit, n, other, m, |sizes|);
    FilledShares(sizes, n, |sizes|);
    MulSign(0.0, unit[m]);
  }

  lemma {:induction false} MarginalLevel(sizes: seq<real>, n: real, k: nat) returns (m: nat)
    requires Nonnegative(sizes) && 0 < k <= |sizes| && 0.0 <= n <= Depth(sizes, k)
    ensures m < k
    ensures forall j: nat | j < m :: Taken(sizes, n, j) == sizes[j]
    ensures forall j: nat | m < j < |sizes| :: Taken(sizes, n, j) == 0.0
  {
    if k > 1 && n <= Depth(sizes, k - 1) {
      m := MarginalLevel(sizes, n, k - 1);
    } else {
      m := k - 1;
      forall j: nat | j < m ensures Taken(sizes, n, j) == sizes[j] {
        DepthMonotone(sizes, j + 1, m);
        assert sizes[j] in sizes;
      }
      forall j: nat | m < j < |sizes| ensures Taken(sizes, n, j) == 0.0 {
        DepthMonotone(sizes, k, j);
        assert sizes[j] in sizes;
      }
    }
  }

  lemma {:induction false} FilledShares(sizes: seq<real>, n: real, k: nat)
    requires Nonnegative(sizes) && k <= |sizes| && n >= 0.0
    ensures Sum(seq(k, j requires 0 <= j < k => Taken(sizes, n, j)), k) == Min(n, Depth(sizes, k))
  {
    if k > 0 {
      FilledShares(sizes, n, k - 1);
      DepthMonotone(sizes, k - 1, k);
      assert sizes[k - 1] in sizes;
      var all := seq(k, j requires 0 <= j < k => Taken(sizes, n, j));
      var front := seq(k - 1, j requires 0 <= j < k - 1 => Taken(sizes, n, j));
      SumPrefix(front, all, k - 1);
    }
  }

  lemma {:induction false} SumPrefix(xs: seq<real>, ys: seq<real>, k: nat)
    requires k <= |xs| && k <= |ys| && forall j | 0 <= j < k :: xs[j] == ys[j]
    ensures Sum(xs, k) == Sum(ys, k)
  {
    if k > 0 { SumPrefix(xs, ys, k - 1); }
  }

  lemma {:induction false} SwapNeverPays(sizes: seq<real>, unit: seq<real>, n: real, other: seq<real>, m: nat, k: nat)
    requires |sizes| == |unit| == |other| && m < |sizes| && k <= |sizes|
    requires forall i, j | 0 <= i < j < |unit| :: unit[i] <= unit[j]
    requires forall j | 0 <= j < |sizes| :: 0.0 <= other[j] <= sizes[j]
    requires forall j: nat | j < m :: Taken(sizes, n, j) == sizes[j]
    requires forall j: nat | m < j < |sizes| :: Taken(sizes, n, j) == 0.0
    ensures Spend(other, unit, k) - Cost(sizes, unit, n, k)
         >= Mul(Sum(other, k) - Sum(seq(k, j requires 0 <= j < k => Taken(sizes, n, j)), k), unit[m])
  {
    hide Mul, Taken;
    var all := seq(k, j requires 0 <= j < k => Taken(sizes, n, j));
    if k == 0 {
      MulSign(0.0, unit[m]);
    } else {
      var j := k - 1;
      SwapNeverPays(sizes, unit, n, other, m, j);
      var front := seq(j, i requires 0 <= i < j => Taken(sizes, n, i));
      SumPrefix(front, all, j);
      var t := Taken(sizes, n, j);
      MulDistrib(unit[j], other[j], t);
      MulDistrib(unit[m], Sum(other, j) - Sum(front, j), other[j] - t);
      MulComm(unit[j], other[j] - t);
      if j < m {
        MulMonotone(unit[j], unit[m], t - other[j]);
        MulDistrib(unit[j], t, other[j]);
        MulDistrib(unit[m], t, other[j]);
        MulDistrib(unit[m], other[j], t);
      } else if j > m {
        MulMonotone(unit[m], unit[j], other[j] - t);
      }
    }
  }
}
