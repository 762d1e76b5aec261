/** Resolved forecasts and their reliability deciles (performance.py). */
module Performance {
  import opened Decimals
  import opened Wrappers

  const BIN_COUNT: nat := 10

  /** A ledger row; a decimal that is missing, malformed or not finite reads as None. */
  datatype Row = Row(probability: Option<real>, brier: Option<real>, logLoss: Option<real>, yes: bool, market: string)

  datatype Point = Point(probability: real, brier: real, logLoss: real, yes: bool, market: string)

  datatype Bin = Bin(lower: real, upper: real, samples: nat, mean: Option<real>, observed: Option<real>)

  predicate ValidPoint(p: Point) {
    0.0 <= p.probability <= 1.0 && p.brier >= 0.0 && p.logLoss >= 0.0
  }

  function PointOf(r: Row): Option<Point> {
    if r.probability.None? || r.brier.None? || r.logLoss.None? then None
    else
      var p := Point(r.probability.value, r.brier.value, r.logLoss.value, r.yes, r.market);
      if ValidPoint(p) then Some(p) else None
  }

  /** The usable rows, in order. */
  function Resolved(rows: seq<Row>): (points: seq<Point>)
    ensures forall p | p in points :: ValidPoint(p) && exists r :: r in rows && PointOf(r) == Some(p)
  {
    if rows == [] then []
    else
      var before := Resolved(rows[..|rows| - 1]);
      var last := PointOf(rows[|rows| - 1]);
      if last.None? then before else before + [last.value]
  }

  method ResolvedForecastsFromRows(rows: seq<Row>) returns (points: seq<Point>)
    ensures points == Resolved(rows)
    ensures forall p | p in points :: ValidPoint(p)
  {
    points := [];
    for i := 0 to |rows|
      invariant points == Resolved(rows[..i])
    {
      assert rows[..i + 1][..i] == rows[..i];
      var row := rows[i];
      if row.probability.None? || row.brier.None? || row.logLoss.None? { continue; }
      if !(0.0 <= row.probability.value <= 1.0) || row.brier.value < 0.0 || row.logLoss.value < 0.0 { continue; }
      points := points + [Point(row.probability.value, row.brier.value, row.logLoss.value, row.yes, row.market)];
    }
    assert rows[..|rows|] == rows;
  }

  function Lower(i: nat): real { i as real / 10.0 }

  predicate InBin(p: real, i: nat) {
    Lower(i) <= p <= Lower(i + 1) && (i == BIN_COUNT - 1 || p < Lower(i + 1))
  }

  function Selected(points: seq<Point>, i: nat): (s: seq<Point>)
    ensures forall p | p in s :: p in points && InBin(p.probability, i)
  {
    if points == [] then []
    else (if InBin(points[0].probability, i) then [points[0]] else []) + Selected(points[1..], i)
  }

  function Total(points: seq<Point>): real {
    if points == [] then 0.0 else points[0].probability + Total(points[1..])
  }

  function Hits(points: seq<Point>): (n: nat)
    ensures n <= |points|
  {
    if points == [] then 0 else (if points[0].yes then 1 else 0) + Hits(points[1..])
  }

  function BinOf(points: seq<Point>, i: nat): Bin {
    var s := Selected(points, i);
    if s == [] then Bin(Lower(i), Lower(i + 1), 0, None, None)
    else Bin(Lower(i), Lower(i + 1), |s|, Some(Div(Total(s), |s| as real)), Some(Div(Hits(s) as real, |s| as real)))
  }

  function Bins(points: seq<Point>): (bins: seq<Bin>)
    ensures |bins| == BIN_COUNT && forall i | 0 <= i < BIN_COUNT :: bins[i] == BinOf(points, i)
  {
    seq(BIN_COUNT, (i: nat) => BinOf(points, i))
  }

  method CalibrationBins(points: seq<Point>) returns (bins: seq<Bin>)
    ensures bins == Bins(points)
  {
    bins := [];
    for index := 0 to BIN_COUNT
      invariant |bins| == index && forall i | 0 <= i < index :: bins[i] == BinOf(points, i)
    {
      var selected := Selected(points, index);
      var mean, observed := None, None;
      if selected != [] {
        mean := Some(Div(Total(selected), |selected| as real));
        observed := Some(Div(Hits(selected) as real, |selected| as real));
      }
      bins := bins + [Bin(Lower(index), Lower(index + 1), |selected|, mean, observed)];
    }
  }

  /** The decile a probability belongs to. */
  function Decile(p: real): (i: nat)
    requires 0.0 <= p <= 1.0
    ensures i < BIN_COUNT
  {
    if p == 1.0 then BIN_COUNT - 1 else (p * 10.0).Floor
  }

  lemma ExactlyOneBin(p: real, i: nat)
    requires 0.0 <= p <= 1.0 && i < BIN_COUNT
    ensures InBin(p, i) <==> i == Decile(p)
  {}

  function SamplesBelow(points: seq<Point>, n: nat): nat {
    if n == 0 then 0 else SamplesBelow(points, n - 1) + |Selected(points, n - 1)|
  }

  lemma SelectedMore(points: seq<Point>, i: nat)
    requires |points| > 0
    ensures |Selected(points, i)| == |Selected(points[1..], i)| + if InBin(points[0].probability, i) then 1 else 0
  {
    hide InBin;
  }

  lemma {:induction false} OnePointMore(points: seq<Point>, n: nat)
    requires |points| > 0 && ValidPoint(points[0]) && n <= BIN_COUNT
    ensures SamplesBelow(points, n) == SamplesBelow(points[1..], n) + if Decile(points[0].probability) < n then 1 else 0
  {
    hide Decile, InBin, Lower, Selected;
    if n > 0 {
      OnePointMore(points, n - 1);
      SelectedMore(points, n - 1);
      ExactlyOneBin(points[0].probability, n - 1);
    }
  }

  /** The deciles partition the ledger: every valid point is counted in exactly one of them. */
  lemma {:induction false} DecilesPartition(points: seq<Point>)
    requires forall p | p in points :: ValidPoint(p)
    ensures SamplesBelow(points, BIN_COUNT) == |points|
  {
    if points == [] {
      NoSamples(BIN_COUNT);
    } else {
      OnePointMore(points, BIN_COUNT);
      DecilesPartition(points[1..]);
    }
  }

  lemma {:induction false} NoSamples(n: nat)
    ensures SamplesBelow([], n) == 0
  {
    if n > 0 { NoSamples(n - 1); }
  }

  lemma {:induction false} TotalBounds(s: seq<Point>, lo: real, hi: real)
    requires forall p | p in s :: lo <= p.probability <= hi
    ensures Mul(lo, |s| as real) <= Total(s) <= Mul(hi, |s| as real)
    ensures |s| > 0 && (forall p | p in s :: p.probability < hi) ==> Total(s) < Mul(hi, |s| as real)
  {
    hide Mul;
    var n := |s| as real;
    if |s| == 0 {
      MulSign(lo, n);
      MulSign(hi, n);
    } else {
      TotalBounds(s[1..], lo, hi);
      MulDistrib(lo, n - 1.0, 1.0);
      MulDistrib(hi, n - 1.0, 1.0);
      MulUnit(lo);
      MulUnit(hi);
      assert s[0] in s;
    }
  }

  lemma MeanInBin(points: seq<Point>, i: nat)
    requires i < BIN_COUNT && Selected(points, i) != []
    ensures var m := BinOf(points, i).mean.value; InBin(m, i)
  {
    hide Mul, Div;
    var s := Selected(points, i);
    var n := |s| as real;
    TotalBounds(s, Lower(i), Lower(i + 1));
    DivBound(Total(s), Lower(i), n);
    DivBound(Total(s), Lower(i + 1), n);
    if i < BIN_COUNT - 1 { DivStrict(Total(s), Lower(i + 1), n); }
  }

  lemma DivStrict(a: real, b: real, c: real)
    requires c > 0.0 && a < Mul(b, c)
    ensures Div(a, c) < b
  {
    hide Mul, Div;
    DivBound(a, b, c);
    DivMul(a, c);
  }

  lemma ObservedInRange(points: seq<Point>, i: nat)
    requires Selected(points, i) != []
    ensures 0.0 <= BinOf(points, i).observed.value <= 1.0
  {
    hide Mul, Div;
    var s := Selected(points, i);
    MulUnit(|s| as real);
    DivBound(Hits(s) as real, 1.0, |s| as real);
    DivSign(Hits(s) as real, |s| as real);
  }

  /** Non-empty deciles are ordered by their means, strictly. */
  lemma MeansIncrease(points: seq<Point>, i: nat, j: nat)
    requires i < j < BIN_COUNT && Selected(points, i) != [] && Selected(points, j) != []
    ensures BinOf(points, i).mean.value < BinOf(points, j).mean.value
  {
    hide Div, Total;
    MeanInBin(points, i);
    MeanInBin(points, j);
    assert Lower(i + 1) <= Lower(j);
  }

  // ---- what the figures count

  /** Row by row: a usable row is kept as it is, any other is dropped, and order is kept. */
  lemma {:induction false} ResolvedRowByRow(rows: seq<Row>, more: seq<Row>, r: Row)
    ensures Resolved(rows + more) == Resolved(rows) + Resolved(more)
    ensures Resolved([r]) ==
              if r.probability.Some? && r.brier.Some? && r.logLoss.Some? && 0.0 <= r.probability.value <= 1.0
                 && r.brier.value >= 0.0 && r.logLoss.value >= 0.0
              then [Point(r.probability.value, r.brier.value, r.logLoss.value, r.yes, r.market)] else []
  {
    assert [r][..0] == [];
    if more == [] {
      assert rows + more == rows;
    } else {
      assert (rows + more)[..|rows + more| - 1] == rows + more[..|more| - 1];
      ResolvedRowByRow(rows, more[..|more| - 1], r);
    }
  }

  /** A decile selects a point as often as the ledger lists it, if its probability lies there, and never otherwise. */
  lemma {:induction false} SelectedExactly(points: seq<Point>, i: nat, p: Point)
    requires i < 10
    ensures multiset(Selected(points, i))[p]
            == if i as real / 10.0 <= p.probability
                  && (p.probability < (i + 1) as real / 10.0 || (i == 9 && p.probability == 1.0))
               then multiset(points)[p] else 0
  {
    if points != [] {
      SelectedExactly(points[1..], i, p);
      assert points == [points[0]] + points[1..];
      var head := if InBin(points[0].probability, i) then [points[0]] else [];
      assert Selected(points, i) == head + Selected(points[1..], i);
    }
  }

  /** Hits and totals add up point by point: a hit is an outcome that was YES, a total is of forecast probabilities. */
  lemma {:induction false} CountsAddUp(points: seq<Point>, more: seq<Point>, p: Point)
    ensures Hits(points + more) == Hits(points) + Hits(more) && Hits([p]) == (if p.yes then 1 else 0)
    ensures Total(points + more) == Total(points) + Total(more) && Total([p]) == p.probability
  {
    if points == [] {
      assert points + more == more;
    } else {
      assert (points + more)[1..] == points[1..] + more;
      CountsAddUp(points[1..], more, p);
    }
  }

  /** The figures of a decile: its bounds, how many points it selects, and the averages of forecast and outcome. */
  lemma BinFigures(points: seq<Point>, i: nat)
    requires i < 10
    ensures var b, s := Bins(points)[i], Selected(points, i);
            && b.lower == i as real / 10.0 && b.upper == (i + 1) as real / 10.0 && b.samples == |s|
            && (b.mean.Some? <==> s != []) && (b.observed.Some? <==> s != [])
            && (s != [] ==> Mul(b.mean.value, |s| as real) == Total(s)
                            && Mul(b.observed.value, |s| as real) == Hits(s) as real)
  {
    hide Mul, Div, Selected;
    var s := Selected(points, i);
    if s != [] {
      DivMul(Total(s), |s| as real);
      DivMul(Hits(s) as real, |s| as real);
    }
  }
}
