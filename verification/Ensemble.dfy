/** The two-pass forecast ensemble (ai/graph.py). */
module Ensemble {
  import opened Decimals
  import opened Wrappers
  import opened Portfolio
  import opened Calibration
  import opened Correction

  function Least(a: real, b: real, c: real, d: real): real { Min(Min(Min(a, b), c), d) }

  function Greatest(a: real, b: real, c: real, d: real): real { Max(Max(Max(a, b), c), d) }

  /** The combined forecast; `calibration` is None when no calibrator is attached. */
  function Aggregate(first: Forecast, second: Forecast, calibration: Option<(Option<Curve>, Config)>): Forecast {
    var raw := (first.probability + second.probability) / 2.0;
    var disagreement := Abs(first.probability - second.probability);
    var probability := if calibration.Some? then Applied(calibration.value.0, calibration.value.1, raw) else raw;
    Forecast(
      probability,
      Least(first.low, second.low, raw, probability),
      Greatest(first.high, second.high, raw, probability),
      Mul(Min(first.confidence, second.confidence), Max(0.0, 1.0 - disagreement)))
  }

  ghost predicate SoundCalibration(calibration: Option<(Option<Curve>, Config)>) {
    calibration.Some? ==>
      ValidConfig(calibration.value.1)
          && (calibration.value.0.Some? ==> SoundAnchors(calibration.value.0.value.anchors))
  }

  /** The validator never refuses the ensemble; its interval holds both inputs; confidence is never inflated; and
      calibration adds at most the configured shift and half a quantum to the mean of the two passes. */
  lemma AggregateIsSound(first: Forecast, second: Forecast, calibration: Option<(Option<Curve>, Config)>)
    requires ValidForecast(first) && ValidForecast(second) && SoundCalibration(calibration)
    ensures var f := Aggregate(first, second, calibration);
            && ValidForecast(f)
            && f.low <= first.low && f.low <= second.low && first.high <= f.high && second.high <= f.high
            && f.confidence <= first.confidence && f.confidence <= second.confidence
            && Abs(f.probability - (first.probability + second.probability) / 2.0)
               <= (if calibration.Some? then calibration.value.1.maxShift + 0.0000005 else 0.0)
  {
    hide Applied, Mul, SoundAnchors;
    var raw := (first.probability + second.probability) / 2.0;
    if calibration.Some? { ApplyIsBoundedAndMonotone(calibration.value.0, calibration.value.1, raw, raw); }
    var least, penalty := Min(first.confidence, second.confidence),
        Max(0.0, 1.0 - Abs(first.probability - second.probability));
    MulSign(least, penalty);
    MulMonotone(penalty, 1.0, least);
    MulUnit(least);
  }

  /** Total disagreement leaves no confidence, agreement keeps the lesser one: the penalty is applied
      before calibration. */
  lemma DisagreementDominates(first: Forecast, second: Forecast, calibration: Option<(Option<Curve>, Config)>)
    requires ValidForecast(first) && ValidForecast(second)
    ensures var f := Aggregate(first, second, calibration);
            && (f.confidence == 0.0
                <==> first.confidence == 0.0 || second.confidence == 0.0
                     || Abs(first.probability - second.probability) == 1.0)
            && (first.probability == second.probability ==> f.confidence == Min(first.confidence, second.confidence))
  {
    hide Applied, Mul;
    var least, penalty := Min(first.confidence, second.confidence),
        Max(0.0, 1.0 - Abs(first.probability - second.probability));
    MulSign(least, penalty);
    MulUnit(least);
  }

  /** What the two passes become: the calibrated mean, the narrowest interval that holds it, the mean and both inputs,
      and the lesser confidence less its share of the disagreement. */
  lemma AggregateExactly(first: Forecast, second: Forecast, calibration: Option<(Option<Curve>, Config)>)
    requires ValidForecast(first) && ValidForecast(second)
    ensures var f := Aggregate(first, second, calibration);
            var raw := (first.probability + second.probability) / 2.0;
            var distance := if first.probability < second.probability then second.probability - first.probability
                            else first.probability - second.probability;
            && f.probability == (if calibration.Some? then Applied(calibration.value.0, calibration.value.1, raw)
                                 else raw)
            && f.low in {first.low, second.low, raw, f.probability} && f.low <= raw && f.low <= f.probability
            && f.low <= first.low && f.low <= second.low
            && f.high in {first.high, second.high, raw, f.probability} && f.high >= raw && f.high >= f.probability
            && f.high >= first.high && f.high >= second.high
            && f.confidence == Mul(Min(first.confidence, second.confidence), 1.0 - distance)
  {
    hide Applied, Mul;
  }
}
