/** The reliability curve and its bounded, shrunk correction (ai/calibration.py). */
module Calibration {
  import opened Decimals
  import opened Wrappers
  import opened Performance

  datatype Config = Config(enabled: bool, minTotal: nat, minBin: nat, shrinkage: nat, maxShift: real)

  predicate ValidConfig(c: Config) {
    c.minTotal >= 1 && c.minBin >= 1 && c.shrinkage >= 1 && 0.0 <= c.maxShift <= 1.0
  }

  datatype Anchor = Anchor(forecast: real, observed: real, samples: nat)

  datatype Curve = Curve(anchors: seq<Anchor>, samples: nat)

  predicate UsableBin(b: Bin, minBin: nat) {
    b.samples >= minBin && b.mean.Some? && b.observed.Some? && 0.0 <= b.mean.value <= 1.0
        && 0.0 <= b.observed.value <= 1.0
  }

  /** The isotonic pass: each usable bin becomes an anchor no lower than the ones before it. */
  function Collect(bins: seq<Bin>, minBin: nat): seq<Anchor> {
    if bins == [] then []
    else
      var before, b := Collect(bins[..|bins| - 1], minBin), bins[|bins| - 1];
      if !UsableBin(b, minBin) then before
      else before + [Anchor(b.mean.value, Max(b.observed.value, Peak(before)), b.samples)]
  }

  function Peak(anchors: seq<Anchor>): real { if anchors == [] then 0.0 else anchors[|anchors| - 1].observed }

  /** Stable insertion into a list sorted by forecast. */
  function Insert(anchors: seq<Anchor>, a: Anchor): seq<Anchor> {
    if anchors == [] || anchors[|anchors| - 1].forecast <= a.forecast then anchors + [a]
    else Insert(anchors[..|anchors| - 1], a) + [anchors[|anchors| - 1]]
  }

  function SortByForecast(anchors: seq<Anchor>): seq<Anchor> {
    if anchors == [] then [] else Insert(SortByForecast(anchors[..|anchors| - 1]), anchors[|anchors| - 1])
  }

  /** Of equal forecasts the anchor with the most samples survives, the later one on a tie. */
  function Dedup(anchors: seq<Anchor>): seq<Anchor> {
    if anchors == [] then []
    else
      var before, a := Dedup(anchors[..|anchors| - 1]), anchors[|anchors| - 1];
      if before != [] && before[|before| - 1].forecast == a.forecast then
        if a.samples >= before[|before| - 1].samples then before[..|before| - 1] + [a] else before
      else before + [a]
  }

  function SampleSum(anchors: seq<Anchor>): nat {
    if anchors == [] then 0 else SampleSum(anchors[..|anchors| - 1]) + anchors[|anchors| - 1].samples
  }

  function CurveOf(sampleSize: nat, bins: seq<Bin>, c: Config): Option<Curve> {
    var anchors := Dedup(SortByForecast(Collect(bins, c.minBin)));
    if !c.enabled || sampleSize < c.minTotal || Collect(bins, c.minBin) == [] then None
    else Some(Curve(anchors, SampleSum(anchors)))
  }

  method BuildCurve(sampleSize: nat, bins: seq<Bin>, c: Config) returns (r: Option<Curve>)
    ensures r == CurveOf(sampleSize, bins, c)
  {
    if !c.enabled || sampleSize < c.minTotal { return None; }
    var anchors, runningMax := [], 0.0;
    for i := 0 to |bins|
      invariant anchors == Collect(bins[..i], c.minBin) && runningMax == Peak(anchors)
    {
      assert bins[..i + 1][..i] == bins[..i];
      var b := bins[i];
      if b.samples < c.minBin || b.mean.None? || b.observed.None? { continue; }
      if !(0.0 <= b.mean.value <= 1.0 && 0.0 <= b.observed.value <= 1.0) { continue; }
      var observed := Max(b.observed.value, runningMax);
      runningMax := observed;
      anchors := anchors + [Anchor(b.mean.value, observed, b.samples)];
    }
    assert bins[..|bins|] == bins;
    if anchors == [] { return None; }
    anchors := SortByForecast(anchors);
    var deduped, samples := [], 0;
    for i := 0 to |anchors|
      invariant deduped == Dedup(anchors[..i])
    {
      assert anchors[..i + 1][..i] == anchors[..i];
      var anchor := anchors[i];
      if deduped != [] && deduped[|deduped| - 1].forecast == anchor.forecast {
        if anchor.samples >= deduped[|deduped| - 1].samples { deduped := deduped[..|deduped| - 1] + [anchor]; }
        continue;
      }
      deduped := deduped + [anchor];
    }
    assert anchors[..|anchors|] == anchors;
    r := Some(Curve(deduped, SampleSum(deduped)));
  }

  /** A reliability curve fit for use: forecasts strictly increase, observed frequencies never decrease. */
  ghost predicate SoundAnchors(a: seq<Anchor>) {
    && (forall i | 0 <= i < |a| :: 0.0 <= a[i].forecast <= 1.0 && 0.0 <= a[i].observed <= 1.0)
    && (forall i, j | 0 <= i < j < |a| :: a[i].forecast < a[j].forecast && a[i].observed <= a[j].observed)
  }

  lemma {:induction false} SortedAlready(a: seq<Anchor>)
    requires SoundAnchors(a)
    ensures SortByForecast(a) == a && Dedup(a) == a
  {
    if a != [] { SortedAlready(a[..|a| - 1]); }
  }

  /** The bins of a ledger: in range, with strictly increasing means. */
  ghost predicate OrderedBins(bins: seq<Bin>) {
    && (forall i | 0 <= i < |bins| && bins[i].mean.Some? :: 0.0 <= bins[i].mean.value <= 1.0)
    && (forall i | 0 <= i < |bins| && bins[i].observed.Some? :: 0.0 <= bins[i].observed.value <= 1.0)
    && (forall i, j | 0 <= i < j < |bins| && bins[i].mean.Some? && bins[j].mean.Some? ::
        bins[i].mean.value < bins[j].mean.value)
  }

  /** Every anchor's forecast is the mean of one of the bins. */
  ghost predicate FromMeans(a: seq<Anchor>, bins: seq<Bin>) {
    forall k | 0 <= k < |a| :: IsMean(a[k].forecast, bins)
  }

  ghost predicate IsMean(f: real, bins: seq<Bin>) {
    exists i :: 0 <= i < |bins| && bins[i].mean == Some(f)
  }

  lemma MeanIsBelow(bins: seq<Bin>, f: real)
    requires |bins| > 0 && OrderedBins(bins) && IsMean(f, bins[..|bins| - 1]) && bins[|bins| - 1].mean.Some?
    ensures f < bins[|bins| - 1].mean.value
  {
    var i :| 0 <= i < |bins| - 1 && bins[..|bins| - 1][i].mean == Some(f);
    assert bins[i].mean == Some(f);
  }

  lemma MeanStays(bins: seq<Bin>, f: real)
    requires |bins| > 0 && IsMean(f, bins[..|bins| - 1])
    ensures IsMean(f, bins)
  {
    var i :| 0 <= i < |bins| - 1 && bins[..|bins| - 1][i].mean == Some(f);
    assert bins[i].mean == Some(f);
  }

  lemma AppendIsSound(before: seq<Anchor>, a: Anchor)
    requires SoundAnchors(before) && 0.0 <= a.forecast <= 1.0 && 0.0 <= a.observed <= 1.0 && Peak(before) <= a.observed
    requires forall k | 0 <= k < |before| :: before[k].forecast < a.forecast
    ensures SoundAnchors(before + [a])
  {}

  lemma {:induction false} CollectIsSound(bins: seq<Bin>, minBin: nat)
    requires OrderedBins(bins)
    ensures SoundAnchors(Collect(bins, minBin)) && FromMeans(Collect(bins, minBin), bins)
  {
    hide SoundAnchors, IsMean;
    if bins == [] {
      NoAnchors();
    } else {
      var init, b := bins[..|bins| - 1], bins[|bins| - 1];
      CollectIsSound(init, minBin);
      var before := Collect(init, minBin);
      forall k | 0 <= k < |before| ensures IsMean(before[k].forecast, bins) { MeanStays(bins, before[k].forecast); }
      if UsableBin(b, minBin) {
        forall k | 0 <= k < |before| ensures before[k].forecast < b.mean.value {
          MeanIsBelow(bins, before[k].forecast);
        }
        PeakInRange(before);
        AppendIsSound(before, Anchor(b.mean.value, Max(b.observed.value, Peak(before)), b.samples));
        assert IsMean(b.mean.value, bins) by { LastIsMean(bins); }
      }
    }
  }

  lemma NoAnchors()
    ensures SoundAnchors([])
  {}

  lemma PeakInRange(a: seq<Anchor>)
    requires SoundAnchors(a)
    ensures 0.0 <= Peak(a) <= 1.0
  {}

  lemma LastIsMean(bins: seq<Bin>)
    requires |bins| > 0 && bins[|bins| - 1].mean.Some?
    ensures IsMean(bins[|bins| - 1].mean.value, bins)
  {}

  lemma LedgerBinsOrdered(points: seq<Point>)
    ensures OrderedBins(Bins(points))
  {
    hide Div, Total;
    var bins := Bins(points);
    forall i | 0 <= i < |bins| && bins[i].mean.Some?
      ensures 0.0 <= bins[i].mean.value <= 1.0 && 0.0 <= bins[i].observed.value <= 1.0
    {
      MeanInBin(points, i);
      ObservedInRange(points, i);
    }
    forall i, j | 0 <= i < j < |bins| && bins[i].mean.Some? && bins[j].mean.Some?
      ensures bins[i].mean.value < bins[j].mean.value
    {
      MeansIncrease(points, i, j);
    }
  }

  /** A curve built from any ledger is sound, sorting and deduplication change nothing, and its anchors are exactly
      the deciles with enough samples. */
  lemma LedgerCurveIsSound(points: seq<Point>, sampleSize: nat, c: Config)
    ensures var a := Collect(Bins(points), c.minBin);
            && SoundAnchors(a)
            && CurveOf(sampleSize, Bins(points), c)
               == if c.enabled && sampleSize >= c.minTotal && a != [] then Some(Curve(a, SampleSum(a))) else None
  {
    LedgerBinsOrdered(points);
    CollectIsSound(Bins(points), c.minBin);
    SortedAlready(Collect(Bins(points), c.minBin));
  }

  /** How many of the first n bins become anchors. */
  function UsableCount(bins: seq<Bin>, minBin: nat, n: nat): (k: nat)
    requires n <= |bins|
    ensures k <= n
  {
    if n == 0 then 0 else UsableCount(bins, minBin, n - 1) + if UsableBin(bins[n - 1], minBin) then 1 else 0
  }

  /** The anchor that bin i becomes: its mean, its samples, and the largest frequency among the usable bins up to it. */
  ghost predicate AnchorOf(a: Anchor, bins: seq<Bin>, i: nat, minBin: nat)
    requires i < |bins| && UsableBin(bins[i], minBin)
  {
    && a.forecast == bins[i].mean.value && a.samples == bins[i].samples
    && (forall j | 0 <= j <= i && UsableBin(bins[j], minBin) :: bins[j].observed.value <= a.observed)
    && exists j :: 0 <= j <= i && UsableBin(bins[j], minBin) && bins[j].observed.value == a.observed
  }

  /** ISOTONIC. The usable bins, each in its place, become the anchors: with enough samples, and
      both figures in range. */
  lemma {:induction false} CollectExactly(bins: seq<Bin>, minBin: nat)
    ensures var a := Collect(bins, minBin);
            && |a| == UsableCount(bins, minBin, |bins|)
            && forall i: nat | i < |bins| && UsableBin(bins[i], minBin) ::
                 UsableCount(bins, minBin, i) < |a| && AnchorOf(a[UsableCount(bins, minBin, i)], bins, i, minBin)
    ensures forall b: Bin :: UsableBin(b, minBin) <==>
              b.samples >= minBin && b.mean.Some? && b.observed.Some? && 0.0 <= b.mean.value <= 1.0
              && 0.0 <= b.observed.value <= 1.0
  {
    if bins != [] {
      var n := |bins| - 1;
      CollectExactly(bins[..n], minBin);
      CountsPrefix(bins, minBin, n);
      var before, a := Collect(bins[..n], minBin), Collect(bins, minBin);
      PeakIsLargest(bins[..n], minBin);
      forall i: nat | i < |bins| && UsableBin(bins[i], minBin)
        ensures UsableCount(bins, minBin, i) < |a| && AnchorOf(a[UsableCount(bins, minBin, i)], bins, i, minBin)
      {
        if i < n {
          assert bins[..n][i] == bins[i];
          AnchorStays(a[UsableCount(bins, minBin, i)], bins, n, i, minBin);
        } else {
          NewAnchor(a[|a| - 1], bins, minBin);
        }
      }
    }
  }

  lemma CountsPrefix(bins: seq<Bin>, minBin: nat, n: nat)
    requires n <= |bins|
    ensures forall i: nat | i <= n :: UsableCount(bins[..n], minBin, i) == UsableCount(bins, minBin, i)
  {
    forall i: nat | i <= n ensures UsableCount(bins[..n], minBin, i) == UsableCount(bins, minBin, i) {
      CountsAgree(bins[..n], bins, minBin, i);
    }
  }

  lemma {:induction false} CountsAgree(bins: seq<Bin>, others: seq<Bin>, minBin: nat, n: nat)
    requires n <= |bins| && n <= |others| && forall i | 0 <= i < n :: bins[i] == others[i]
    ensures UsableCount(bins, minBin, n) == UsableCount(others, minBin, n)
  {
    if n > 0 { CountsAgree(bins, others, minBin, n - 1); }
  }

  lemma AnchorStays(a: Anchor, bins: seq<Bin>, n: nat, i: nat, minBin: nat)
    requires i < n <= |bins| && UsableBin(bins[i], minBin) && AnchorOf(a, bins[..n], i, minBin)
    ensures AnchorOf(a, bins, i, minBin)
  {
    var j :| 0 <= j <= i && UsableBin(bins[..n][j], minBin) && bins[..n][j].observed.value == a.observed;
    assert bins[j] == bins[..n][j];
    assert forall k | 0 <= k <= i :: bins[..n][k] == bins[k];
  }

  /** The last anchor's frequency is the largest among the usable bins, and zero without any. */
  lemma {:induction false} PeakIsLargest(bins: seq<Bin>, minBin: nat)
    ensures var peak := Peak(Collect(bins, minBin));
            && (forall j | 0 <= j < |bins| && UsableBin(bins[j], minBin) :: bins[j].observed.value <= peak)
            && (peak == 0.0
                || exists j :: 0 <= j < |bins| && UsableBin(bins[j], minBin) && bins[j].observed.value == peak)
            && peak >= 0.0
  {
    if bins != [] {
      var n := |bins| - 1;
      PeakIsLargest(bins[..n], minBin);
      var peak := Peak(Collect(bins[..n], minBin));
      assert forall j | 0 <= j < n :: bins[..n][j] == bins[j];
      if peak != 0.0 {
        var j :| 0 <= j < n && UsableBin(bins[..n][j], minBin) && bins[..n][j].observed.value == peak;
        assert bins[j].observed.value == peak;
      }
    }
  }

  lemma NewAnchor(a: Anchor, bins: seq<Bin>, minBin: nat)
    requires |bins| > 0 && UsableBin(bins[|bins| - 1], minBin)
    requires var b := bins[|bins| - 1];
             a == Anchor(b.mean.value, Max(b.observed.value, Peak(Collect(bins[..|bins| - 1], minBin))), b.samples)
    ensures AnchorOf(a, bins, |bins| - 1, minBin)
  {
    hide Collect;
    var n := |bins| - 1;
    PeakIsLargest(bins[..n], minBin);
    assert forall j | 0 <= j < n :: bins[..n][j] == bins[j];
    var peak := Peak(Collect(bins[..n], minBin));
    if a.observed != bins[n].observed.value && peak != 0.0 {
      var j :| 0 <= j < n && UsableBin(bins[..n][j], minBin) && bins[..n][j].observed.value == peak;
      assert bins[j].observed.value == a.observed;
    }
  }

  /** The samples behind a curve are those of its anchors, added up. */
  lemma {:induction false} SamplesAddUp(a: seq<Anchor>, b: seq<Anchor>, x: Anchor)
    ensures SampleSum(a + b) == SampleSum(a) + SampleSum(b) && SampleSum([x]) == x.samples && SampleSum([]) == 0
  {
    assert [x][..0] == [];
    if b == [] {
      assert a + b == a;
    } else {
      assert (a + b)[..|a + b| - 1] == a + b[..|b| - 1];
      SamplesAddUp(a, b[..|b| - 1], x);
    }
  }

  // ---- sorting and deduplication, on any anchors

  ghost predicate Ascending(a: seq<Anchor>) {
    forall i, j | 0 <= i < j < |a| :: a[i].forecast <= a[j].forecast
  }

  /** The anchors of one forecast, in order. */
  function At(a: seq<Anchor>, f: real): (r: seq<Anchor>)
    ensures forall x | x in r :: x in a && x.forecast == f
  {
    if a == [] then []
    else At(a[..|a| - 1], f) + if a[|a| - 1].forecast == f then [a[|a| - 1]] else []
  }

  function Only(x: Anchor, f: real): seq<Anchor> { if x.forecast == f then [x] else [] }

  lemma AtMore(a: seq<Anchor>, x: Anchor, f: real)
    ensures At(a + [x], f) == At(a, f) + Only(x, f)
  {
    assert (a + [x])[..|a|] == a;
  }

  lemma {:induction false} InsertAscends(a: seq<Anchor>, x: Anchor)
    requires Ascending(a)
    ensures Ascending(Insert(a, x)) && forall y | y in Insert(a, x) :: y in a || y == x
  {
    if a != [] && a[|a| - 1].forecast > x.forecast {
      var n, last := |a| - 1, a[|a| - 1];
      InsertAscends(a[..n], x);
      forall y | y in Insert(a[..n], x) ensures y.forecast <= last.forecast {}
    }
  }

  lemma {:induction false} InsertKeeps(a: seq<Anchor>, x: Anchor, f: real)
    requires Ascending(a)
    ensures At(Insert(a, x), f) == At(a, f) + Only(x, f)
  {
    hide At;
    if a != [] && a[|a| - 1].forecast > x.forecast {
      var n, last := |a| - 1, a[|a| - 1];
      InsertKeeps(a[..n], x, f);
      AtMore(Insert(a[..n], x), last, f);
      AtMore(a[..n], last, f);
      assert a == a[..n] + [last];
    } else {
      AtMore(a, x, f);
    }
  }

  /** The sort orders the anchors by forecast, keeps them all, and leaves equal forecasts in their order. */
  lemma {:induction false} SortExactly(a: seq<Anchor>, f: real)
    ensures Ascending(SortByForecast(a)) && At(SortByForecast(a), f) == At(a, f)
  {
    if a != [] {
      var n := |a| - 1;
      var sorted := SortByForecast(a[..n]);
      SortExactly(a[..n], f);
      InsertAscends(sorted, a[n]);
      InsertKeeps(sorted, a[n], f);
    }
  }

  /** The last of those with the most samples. */
  ghost predicate MostSamples(x: Anchor, s: seq<Anchor>) {
    exists k :: 0 <= k < |s| && s[k] == x && (forall j | 0 <= j < k :: s[j].samples <= x.samples)
                && forall j | k < j < |s| :: s[j].samples < x.samples
  }

  lemma {:induction false} DedupAscends(a: seq<Anchor>)
    requires Ascending(a)
    ensures forall i, j | 0 <= i < j < |Dedup(a)| :: Dedup(a)[i].forecast < Dedup(a)[j].forecast
    ensures (a == [] <==> Dedup(a) == []) && (a != [] ==> Dedup(a)[|Dedup(a)| - 1].forecast == a[|a| - 1].forecast)
  {
    if a != [] { DedupAscends(a[..|a| - 1]); }
  }

  /** What is kept of one forecast is the last of those with the most samples. */
  ghost predicate Deduped(kept: seq<Anchor>, all: seq<Anchor>) {
    if all == [] then kept == [] else |kept| == 1 && MostSamples(kept[0], all)
  }

  /** Of each forecast the deduplication keeps exactly one anchor. */
  lemma {:induction false} DedupExactly(a: seq<Anchor>, f: real)
    requires Ascending(a)
    ensures Deduped(At(Dedup(a), f), At(a, f))
  {
    hide At, MostSamples, Deduped, Dedup;
    if a == [] {
      DedupNone(f);
    } else {
      var n, x := |a| - 1, a[|a| - 1];
      DedupExactly(a[..n], f);
      DedupMore(a[..n], x, f);
      assert a == a[..n] + [x];
    }
  }

  lemma DedupNone(f: real)
    ensures Deduped(At(Dedup([]), f), At([], f))
  {}

  lemma DedupMore(a: seq<Anchor>, x: Anchor, f: real)
    requires Ascending(a + [x]) && Deduped(At(Dedup(a), f), At(a, f))
    ensures Deduped(At(Dedup(a + [x]), f), At(a + [x], f))
  {
    hide At, MostSamples, Deduped, Dedup, Ascending;
    DedupStep(a, x);
    LastIsLargest(a, x);
    DedupAscends(a);
    AtMore(a, x, f);
    if x.forecast != f {
      OtherForecast(a, x, f);
    } else if a != [] && a[|a| - 1].forecast == f {
      SameForecast(a, x, f);
    } else {
      NoneBelow(Dedup(a), f);
      NoneBelow(a, f);
      AtMore(Dedup(a), x, f);
      OnlyOne(x);
      assert [] + [x] == [x];
    }
  }

  lemma DedupStep(a: seq<Anchor>, x: Anchor)
    ensures var before := Dedup(a);
            Dedup(a + [x])
            == if before != [] && before[|before| - 1].forecast == x.forecast then
                 if x.samples >= before[|before| - 1].samples then before[..|before| - 1] + [x] else before
               else before + [x]
  {
    assert (a + [x])[..|a|] == a;
  }

  lemma OtherForecast(a: seq<Anchor>, x: Anchor, f: real)
    requires x.forecast != f
    ensures At(Dedup(a + [x]), f) == At(Dedup(a), f) && At(a + [x], f) == At(a, f)
  {
    hide At, Dedup;
    DedupStep(a, x);
    var before := Dedup(a);
    AtMore(a, x, f);
    AtMore(before, x, f);
    if before != [] {
      var init, y := before[..|before| - 1], before[|before| - 1];
      assert before == init + [y];
      AtMore(init, y, f);
      AtMore(init, x, f);
    }
  }

  lemma SameForecast(a: seq<Anchor>, x: Anchor, f: real)
    requires a != [] && Ascending(a) && a[|a| - 1].forecast == x.forecast == f && Deduped(At(Dedup(a), f), At(a, f))
    ensures Deduped(At(Dedup(a + [x]), f), At(a, f) + [x])
  {
    hide At, Dedup, MostSamples, Ascending;
    DedupStep(a, x);
    DedupAscends(a);
    var before := Dedup(a);
    var init, y := before[..|before| - 1], before[|before| - 1];
    assert before == init + [y];
    NoneBelow(init, f);
    AtMore(init, y, f);
    AtMore(init, x, f);
    assert [] + [y] == [y] && [] + [x] == [x];
    MostOfMore(y, At(a, f), x);
  }

  lemma OnlyOne(x: Anchor)
    ensures Deduped([x], [x])
  {
    MostOfOne(x);
  }

  lemma LastIsLargest(a: seq<Anchor>, x: Anchor)
    requires Ascending(a + [x])
    ensures forall y | y in a :: y.forecast <= x.forecast
    ensures a != [] ==> forall y | y in a :: y.forecast <= a[|a| - 1].forecast
    ensures Ascending(a)
  {
    assert (a + [x])[|a|] == x && forall i | 0 <= i < |a| :: (a + [x])[i] == a[i];
  }

  lemma MostOfOne(x: Anchor)
    ensures MostSamples(x, [x])
  {
    assert [x][0] == x;
  }

  lemma {:induction false} NoneBelow(a: seq<Anchor>, f: real)
    requires forall x | x in a :: x.forecast < f
    ensures At(a, f) == []
  {
    if a != [] { NoneBelow(a[..|a| - 1], f); }
  }

  lemma MostOfMore(y: Anchor, s: seq<Anchor>, x: Anchor)
    requires MostSamples(y, s)
    ensures MostSamples(if x.samples >= y.samples then x else y, s + [x])
  {
    var k :| 0 <= k < |s| && s[k] == y && (forall j | 0 <= j < k :: s[j].samples <= y.samples)
             && forall j | k < j < |s| :: s[j].samples < y.samples;
    assert (s + [x])[if x.samples >= y.samples then |s| else k] == if x.samples >= y.samples then x else y;
  }

  /** A curve is in use exactly when calibration is enabled, the ledger is large enough, and some bin is usable. */
  lemma ActiveExactly(sampleSize: nat, bins: seq<Bin>, c: Config)
    ensures CurveOf(sampleSize, bins, c).Some?
            <==> c.enabled && sampleSize >= c.minTotal && exists i :: 0 <= i < |bins| && UsableBin(bins[i], c.minBin)
  {
    CollectExactly(bins, c.minBin);
    if forall i | 0 <= i < |bins| :: !UsableBin(bins[i], c.minBin) { NothingUsable(bins, c.minBin); }
  }

  lemma {:induction false} NothingUsable(bins: seq<Bin>, minBin: nat)
    requires forall i | 0 <= i < |bins| :: !UsableBin(bins[i], minBin)
    ensures Collect(bins, minBin) == []
  {
    if bins != [] { NothingUsable(bins[..|bins| - 1], minBin); }
  }
}
