/** Reading the reliability curve and applying it, bounded and shrunk (ai/calibration.py). */
module Correction {
  import opened Decimals
  import opened Wrappers
  import opened Performance
  import opened Calibration

  /** The straight line between two anchors. */
  function Line(l: Anchor, r: Anchor, p: real): real {
    var span := r.forecast - l.forecast;
    if span <= 0.0 then r.observed else l.observed + Mul(r.observed - l.observed, Div(p - l.forecast, span))
  }

  /** The first adjacent pair that brackets p. */
  function Between(a: seq<Anchor>, p: real): real
    requires |a| > 0
  {
    if |a| == 1 then a[0].observed
    else if a[0].forecast <= p <= a[1].forecast then Line(a[0], a[1], p)
    else Between(a[1..], p)
  }

  function Interpolate(a: seq<Anchor>, p: real): real {
    if a == [] then p
    else if p <= a[0].forecast then a[0].observed
    else if p >= a[|a| - 1].forecast then a[|a| - 1].observed
    else Between(a, p)
  }

  method ReadCurve(a: seq<Anchor>, p: real) returns (r: real)
    ensures r == Interpolate(a, p)
  {
    if a == [] { return p; }
    if p <= a[0].forecast { return a[0].observed; }
    if p >= a[|a| - 1].forecast { return a[|a| - 1].observed; }
    for i := 0 to |a| - 1
      invariant Between(a, p) == Between(a[i..], p)
    {
      var left, right := a[i], a[i + 1];
      assert a[i..][1..] == a[i + 1..];
      if left.forecast <= p <= right.forecast {
        var span := right.forecast - left.forecast;
        if span <= 0.0 { return right.observed; }
        var weight := Div(p - left.forecast, span);
        return left.observed + Mul(right.observed - left.observed, weight);
      }
    }
    return a[|a| - 1].observed;
  }

  lemma LineBounds(l: Anchor, r: Anchor, p: real, q: real)
    requires l.forecast < r.forecast && l.observed <= r.observed && l.forecast <= p <= q <= r.forecast
    ensures l.observed <= Line(l, r, p) <= Line(l, r, q) <= r.observed
    ensures p == r.forecast ==> Line(l, r, p) == r.observed
  {
    hide Mul, Div;
    var span, rise := r.forecast - l.forecast, r.observed - l.observed;
    DivMonotone(p - l.forecast, q - l.forecast, span);
    MulUnit(span);
    DivBound(q - l.forecast, 1.0, span);
    DivBound(p - l.forecast, 1.0, span);
    DivSign(p - l.forecast, span);
    MulMonotone(Div(p - l.forecast, span), Div(q - l.forecast, span), rise);
    MulMonotone(Div(q - l.forecast, span), 1.0, rise);
    MulSign(rise, Div(p - l.forecast, span));
    MulUnit(rise);
  }

  lemma SoundTail(a: seq<Anchor>)
    requires SoundAnchors(a) && |a| > 1
    ensures SoundAnchors(a[1..]) && a[0].forecast < a[1].forecast && a[0].observed <= a[1].observed
    ensures a[1..][|a| - 2] == a[|a| - 1]
  {}

  /** Between the outer anchors, the bracketing walk never leaves their observed range. */
  lemma {:induction false} BetweenBounds(a: seq<Anchor>, p: real)
    requires SoundAnchors(a) && |a| > 0 && a[0].forecast <= p <= a[|a| - 1].forecast
    ensures a[0].observed <= Between(a, p) <= a[|a| - 1].observed
  {
    hide Line, SoundAnchors;
    if |a| > 1 {
      SoundTail(a);
      if p <= a[1].forecast {
        LineBounds(a[0], a[1], p, p);
        LastIsHighest(a);
      } else {
        BetweenBounds(a[1..], p);
      }
    }
  }

  lemma LastIsHighest(a: seq<Anchor>)
    requires SoundAnchors(a) && |a| > 1
    ensures a[0].observed <= a[1].observed <= a[|a| - 1].observed && a[1].forecast <= a[|a| - 1].forecast
  {}

  lemma {:induction false} BetweenMonotone(a: seq<Anchor>, p: real, q: real)
    requires SoundAnchors(a) && |a| > 0 && a[0].forecast <= p <= q <= a[|a| - 1].forecast
    ensures Between(a, p) <= Between(a, q)
  {
    hide Line, SoundAnchors;
    if |a| > 1 {
      SoundTail(a);
      if q <= a[1].forecast {
        LineBounds(a[0], a[1], p, q);
      } else if p <= a[1].forecast {
        LineBounds(a[0], a[1], p, p);
        BetweenBounds(a[1..], q);
      } else {
        BetweenMonotone(a[1..], p, q);
      }
    }
  }

  /** A sound curve is read monotonically and stays among its observed frequencies. */
  lemma InterpolateMonotone(a: seq<Anchor>, p: real, q: real)
    requires SoundAnchors(a) && p <= q
    ensures Interpolate(a, p) <= Interpolate(a, q)
    ensures a != [] ==> a[0].observed <= Interpolate(a, p) <= a[|a| - 1].observed
  {
    hide Line, Between;
    if a != [] && a[0].forecast < p < a[|a| - 1].forecast { BetweenBounds(a, p); }
    if a != [] && a[0].forecast < q < a[|a| - 1].forecast {
      BetweenBounds(a, q);
      if a[0].forecast < p { BetweenMonotone(a, p, q); }
    }
  }

  /** `quantize(0.000001, ROUND_HALF_UP)`. */
  function ToMicro(x: real): real { RoundUnits(x * 1000000.0) as real * 0.000001 }

  function Clamp(x: real, lo: real, hi: real): real { Min(Max(x, lo), hi) }

  function Weight(samples: nat, shrinkage: nat): real {
    if samples + shrinkage > 0 then Div(samples as real, (samples + shrinkage) as real) else 0.0
  }

  function Adjusted(p: real, target: real, weight: real): real { p + Mul(target - p, weight) }

  function Applied(curve: Option<Curve>, c: Config, p: real): real {
    if curve.None? then p
    else
      var adjusted := Adjusted(p, Interpolate(curve.value.anchors, p), Weight(curve.value.samples, c.shrinkage));
      ToMicro(Clamp(Clamp(adjusted, p - c.maxShift, p + c.maxShift), 0.0, 1.0))
  }

  lemma WeightInRange(samples: nat, shrinkage: nat)
    requires shrinkage >= 1
    ensures 0.0 <= Weight(samples, shrinkage) < 1.0
  {
    hide Mul, Div;
    var n, total := samples as real, (samples + shrinkage) as real;
    DivMul(n, total);
    DivSign(n, total);
    MulUnit(total);
    if Div(n, total) >= 1.0 { MulMonotone(1.0, Div(n, total), total); }
  }

  /** Shrinking keeps the order: a mixture of two increasing readings. */
  lemma AdjustedMonotone(p: real, q: real, s: real, t: real, w: real)
    requires p <= q && s <= t && 0.0 <= w < 1.0
    ensures Adjusted(p, s, w) <= Adjusted(q, t, w)
  {
    hide Mul;
    MulDistrib(w, s, p);
    MulDistrib(w, t, q);
    MulMonotone(s, t, w);
    MulMonotone(p, q, 1.0 - w);
    MulDistrib(p, 1.0, w);
    MulDistrib(q, 1.0, w);
    MulUnit(p);
    MulUnit(q);
  }

  lemma MicroFacts(x: real, y: real)
    requires x <= y
    ensures ToMicro(x) <= ToMicro(y) && Abs(ToMicro(x) - x) <= 0.0000005
    ensures 0.0 <= x <= 1.0 ==> 0.0 <= ToMicro(x) <= 1.0
  {
    hide RoundUnits;
    RoundUnitsMonotone(x * 1000000.0, y * 1000000.0);
    MicroInRange(x);
  }

  lemma MicroInRange(x: real)
    ensures 0.0 <= x <= 1.0 ==> 0.0 <= ToMicro(x) <= 1.0
  {
    hide RoundUnits;
    if 0.0 <= x <= 1.0 {
      WholeUnits();
      RoundUnitsMonotone(0.0, x * 1000000.0);
      RoundUnitsMonotone(x * 1000000.0, 1000000.0);
    }
  }

  lemma WholeUnits()
    ensures RoundUnits(0.0) == 0 && RoundUnits(1000000.0) == 1000000
  {}

  /** READING. Flat outside the outer anchors, and on the straight line between two neighbours in between. */
  lemma InterpolateExactly(a: seq<Anchor>, p: real, i: nat)
    requires SoundAnchors(a) && i + 1 < |a| && a[i].forecast <= p <= a[i + 1].forecast
    ensures Mul(Interpolate(a, p) - a[i].observed, a[i + 1].forecast - a[i].forecast)
            == Mul(a[i + 1].observed - a[i].observed, p - a[i].forecast)
  {
    hide Mul, Line;
    LineThrough(a[i], a[i + 1], p);
    if p <= a[0].forecast || p >= a[|a| - 1].forecast {
      assert p <= a[0].forecast ==> i == 0;
      assert p >= a[|a| - 1].forecast ==> i == |a| - 2;
    } else {
      BetweenExactly(a, p, i);
    }
  }

  lemma InterpolateOutside(a: seq<Anchor>, p: real)
    ensures a == [] ==> Interpolate(a, p) == p
    ensures a != [] && p <= a[0].forecast ==> Interpolate(a, p) == a[0].observed
    ensures SoundAnchors(a) && a != [] && p >= a[|a| - 1].forecast ==> Interpolate(a, p) == a[|a| - 1].observed
  {}

  /** The line meets both anchors and rises in proportion. */
  lemma LineThrough(l: Anchor, r: Anchor, p: real)
    requires l.forecast < r.forecast
    ensures Mul(Line(l, r, p) - l.observed, r.forecast - l.forecast) == Mul(r.observed - l.observed, p - l.forecast)
    ensures Line(l, r, l.forecast) == l.observed && Line(l, r, r.forecast) == r.observed
    ensures Mul(l.observed - l.observed, r.forecast - l.forecast)
            == Mul(r.observed - l.observed, l.forecast - l.forecast)
  {
    hide Mul, Div;
    var span, rise := r.forecast - l.forecast, r.observed - l.observed;
    MulAssoc(rise, Div(p - l.forecast, span), span);
    DivMul(p - l.forecast, span);
    DivMul(0.0, span);
    DivMul(span, span);
    MulUnit(span);
    MulUnit(rise);
    ZeroQuotient(span);
    MulSign(rise, 0.0);
    MulSign(0.0, span);
  }

  lemma ZeroQuotient(b: real)
    requires b > 0.0
    ensures Div(0.0, b) == 0.0 && Div(b, b) == 1.0
  {}

  lemma {:induction false} BetweenExactly(a: seq<Anchor>, p: real, i: nat)
    requires SoundAnchors(a) && i + 1 < |a| && a[i].forecast <= p <= a[i + 1].forecast
    ensures Between(a, p) == Line(a[i], a[i + 1], p)
  {
    hide Line;
    if i > 0 {
      SoundTail(a);
      if p <= a[1].forecast {
        assert i == 1 && p == a[1].forecast;
        LineThrough(a[0], a[1], p);
        LineThrough(a[1], a[2], p);
      } else {
        BetweenExactly(a[1..], p, i - 1);
      }
    }
  }

  /** THE CORRECTION. It moves a probability towards the curve's reading, by the share of the samples among samples and
      shrinkage, but never by more than the maximum shift, to the nearest millionth. */
  lemma ApplyMovesExactly(curve: Curve, c: Config, p: real) returns (step: real)
    requires ValidConfig(c) && SoundAnchors(curve.anchors) && 0.0 <= p <= 1.0
    ensures Mul(step, (curve.samples + c.shrinkage) as real)
            == Mul(Interpolate(curve.anchors, p) - p, curve.samples as real)
    ensures Abs(Applied(Some(curve), c, p) - (p + Min(Max(step, -c.maxShift), c.maxShift))) <= 0.0000005
    ensures exists n: int :: Applied(Some(curve), c, p) == Millionths(n)
  {
    hide Mul, Div, Interpolate, SoundAnchors, ToMicro;
    var target, w := Interpolate(curve.anchors, p), Weight(curve.samples, c.shrinkage);
    InterpolateMonotone(curve.anchors, p, p);
    ReadingInRange(curve.anchors, p);
    WeightInRange(curve.samples, c.shrinkage);
    step := Mul(target - p, w);
    MulAssoc(target - p, w, (curve.samples + c.shrinkage) as real);
    DivMul(curve.samples as real, (curve.samples + c.shrinkage) as real);
    PartOfTheWay(target - p, w);
    var moved := p + Min(Max(step, -c.maxShift), c.maxShift);
    MicroFacts(moved, moved);
    MicroIsWhole(moved);
  }

  function Millionths(n: int): real { n as real * 0.000001 }

  lemma MicroIsWhole(x: real)
    ensures exists n: int :: ToMicro(x) == Millionths(n)
  {
    assert ToMicro(x) == Millionths(RoundUnits(x * 1000000.0));
  }

  lemma PartOfTheWay(d: real, w: real)
    requires 0.0 <= w < 1.0
    ensures if d >= 0.0 then 0.0 <= Mul(d, w) <= d else d <= Mul(d, w) <= 0.0
  {
    hide Mul;
    MulUnit(d);
    if d >= 0.0 {
      MulSign(d, w);
      MulMonotone(w, 1.0, d);
    } else {
      MulSign(-d, w);
      MulMonotone(w, 1.0, -d);
      MulUnit(-d);
      MulDistrib(w, 0.0, d);
      MulComm(d, w);
      MulComm(-d, w);
      MulSign(0.0, w);
    }
  }

  lemma ReadingInRange(a: seq<Anchor>, p: real)
    requires SoundAnchors(a) && 0.0 <= p <= 1.0
    ensures 0.0 <= Interpolate(a, p) <= 1.0
  {
    hide Interpolate;
    InterpolateMonotone(a, p, p);
    if a == [] { InterpolateOutside(a, p); }
  }

  /** MONOTONE, IN RANGE, BOUNDED: what a sound curve does to every probability. */
  lemma ApplyIsBoundedAndMonotone(curve: Option<Curve>, c: Config, p: real, q: real)
    requires ValidConfig(c) && (curve.Some? ==> SoundAnchors(curve.value.anchors)) && 0.0 <= p <= q <= 1.0
    ensures Applied(curve, c, p) <= Applied(curve, c, q)
    ensures 0.0 <= Applied(curve, c, p) <= 1.0
    ensures Abs(Applied(curve, c, p) - p) <= c.maxShift + 0.0000005
  {
    hide Mul, Div, Interpolate, Weight, Adjusted, SoundAnchors, ToMicro;
    if curve.Some? {
      var a, w := curve.value.anchors, Weight(curve.value.samples, c.shrinkage);
      InterpolateMonotone(a, p, q);
      WeightInRange(curve.value.samples, c.shrinkage);
      var s, t := Interpolate(a, p), Interpolate(a, q);
      AdjustedMonotone(p, q, s, t, w);
      var x := Clamp(Clamp(Adjusted(p, s, w), p - c.maxShift, p + c.maxShift), 0.0, 1.0);
      var y := Clamp(Clamp(Adjusted(q, t, w), q - c.maxShift, q + c.maxShift), 0.0, 1.0);
      MicroFacts(x, y);
      MicroFacts(y, y);
    }
  }

  /** A thin ledger, or calibration switched off, is the identity. */
  lemma ThinLedgerIsIdentity(points: seq<Point>, sampleSize: nat, c: Config, p: real)
    requires !c.enabled || sampleSize < c.minTotal || forall i: nat | i < BIN_COUNT :: |Selected(points, i)| < c.minBin
    ensures Applied(CurveOf(sampleSize, Bins(points), c), c, p) == p
  {
    hide Div, Dedup, SortByForecast;
    var bins := Bins(points);
    if c.enabled && sampleSize >= c.minTotal {
      forall i | 0 <= i < |bins| ensures !UsableBin(bins[i], c.minBin) {
        assert bins[i] == BinOf(points, i) && |Selected(points, i)| < c.minBin;
      }
      NothingUsable(bins, c.minBin);
    }
  }

  class Calibrator {
    const config: Config
    var curve: Option<Curve>

    constructor (config: Config)
      ensures this.config == config && curve == None
    {
      this.config, curve := config, None;
    }

    method UpdateFromSnapshot(sampleSize: nat, bins: seq<Bin>) returns (active: bool)
      modifies this
      ensures curve == CurveOf(sampleSize, bins, config) && active == curve.Some?
    {
      curve := BuildCurve(sampleSize, bins, config);
      active := curve.Some?;
    }

    method Apply(p: real) returns (r: real)
      ensures r == Applied(curve, config, p)
    {
      if curve.None? { return p; }
      var target := ReadCurve(curve.value.anchors, p);
      var total := curve.value.samples + config.shrinkage;
      var weight := if total > 0 then Div(curve.value.samples as real, total as real) else 0.0;
      var adjusted := p + Mul(target - p, weight);
      var shift := config.maxShift;
      adjusted := Min(Max(adjusted, p - shift), p + shift);
      adjusted := Min(Max(adjusted, 0.0), 1.0);
      r := ToMicro(adjusted);
    }

    /** From raw ledger rows to a corrected forecast. */
    method RefreshAndApply(rows: seq<Row>, sampleSize: nat, p: real, q: real) returns (rp: real, rq: real)
      requires ValidConfig(config) && 0.0 <= p <= q <= 1.0
      modifies this
      ensures curve == CurveOf(sampleSize, Bins(Resolved(rows)), config)
      ensures rp == Applied(curve, config, p) && rq == Applied(curve, config, q)
      ensures rp <= rq && 0.0 <= rp && rq <= 1.0
      ensures Abs(rp - p) <= config.maxShift + 0.0000005 && Abs(rq - q) <= config.maxShift + 0.0000005
    {
      hide Applied, CurveOf, SoundAnchors;
      var points := ResolvedForecastsFromRows(rows);
      var bins := CalibrationBins(points);
      var active := UpdateFromSnapshot(sampleSize, bins);
      LedgerCurveUsable(points, sampleSize, config);
      rp := Apply(p);
      rq := Apply(q);
      ApplyIsBoundedAndMonotone(curve, config, p, q);
      ApplyIsBoundedAndMonotone(curve, config, q, q);
    }
  }

  lemma LedgerCurveUsable(points: seq<Point>, sampleSize: nat, c: Config)
    ensures var curve := CurveOf(sampleSize, Bins(points), c);
            curve.Some? ==> SoundAnchors(curve.value.anchors)
  {
    LedgerCurveIsSound(points, sampleSize, c);
  }
}
