/**
 * The two hazard classifiers: the threshold table applied to the sensor record
 * (inclusive bounds, flame/co2/pm25/pm10, nulls as 0.0), and the speech module's
 * evaluator (strict bounds, flame/co2/pm25 only).
 */
module Hazard {
  import opened Wrappers
  import opened SensorState
  import opened PromptRules

  /** Severity order of the levels. */
  function Rank(h: HazardLevel): nat {
    match h
    case Low => 0
    case Medium => 1
    case High => 2
    case Critical => 3
  }

  /** `safe`: a null reading counts as 0.0. */
  function Safe(v: Option<real>): (r: real)
    ensures v.Some? ==> r == v.value
    ensures v.None? ==> r == 0.0
  {
    v.GetOr(0.0)
  }

  predicate CriticalReadings(flame: real, co2: real, pm25: real, pm10: real) {
    flame >= 0.8 || co2 >= 2600.0 || pm25 >= 250.0 || pm10 >= 350.0
  }

  predicate HighReadings(flame: real, co2: real, pm25: real, pm10: real) {
    flame >= 0.5 || co2 >= 2000.0 || pm25 >= 150.0 || pm10 >= 250.0
  }

  predicate MediumReadings(co2: real, pm25: real, pm10: real) {
    co2 >= 1000.0 || pm25 >= 80.0 || pm10 >= 120.0
  }

  /** `compute` on the four readings: the first band whose threshold any reading reaches. */
  function Classify(flame: real, co2: real, pm25: real, pm10: real): (r: HazardLevel)
    ensures r == Critical <==> CriticalReadings(flame, co2, pm25, pm10)
    ensures r == Low <==> !HighReadings(flame, co2, pm25, pm10) && !MediumReadings(co2, pm25, pm10)
    ensures r == Medium ==> flame < 0.5
  {
    if CriticalReadings(flame, co2, pm25, pm10) then Critical
    else if HighReadings(flame, co2, pm25, pm10) then High
    else if MediumReadings(co2, pm25, pm10) then Medium
    else Low
  }

  /** `HazardEvaluator.compute(state)`. */
  function Compute(s: State): (r: HazardLevel)
    ensures s.flame.None? && s.co2.None? && s.pm25.None? && s.pm10.None? ==> r == Low
    ensures r == Critical <==> CriticalReadings(Safe(s.flame), Safe(s.co2), Safe(s.pm25), Safe(s.pm10))
  {
    Classify(Safe(s.flame), Safe(s.co2), Safe(s.pm25), Safe(s.pm10))
  }

  /** The speech module's `evaluate`, with strict comparisons. */
  function Evaluate(flame: real, co2: real, pm25: real): (r: HazardLevel)
    ensures r == Critical <==> co2 > 3000.0 || flame > 0.9
    ensures r == Low <==> co2 <= 1000.0 && pm25 <= 80.0 && flame <= 0.7
    ensures r == Medium ==> flame <= 0.7
  {
    if co2 > 3000.0 || flame > 0.9 then Critical
    else if co2 > 2000.0 || pm25 > 150.0 || flame > 0.7 then High
    else if co2 > 1000.0 || pm25 > 80.0 then Medium
    else Low
  }

  // ----- properties of compute -----

  /** Each band holds exactly when its own thresholds are reached and no higher band's are. */
  lemma ClassifyBands(flame: real, co2: real, pm25: real, pm10: real)
    ensures Classify(flame, co2, pm25, pm10) == Critical <==> CriticalReadings(flame, co2, pm25, pm10)
    ensures Classify(flame, co2, pm25, pm10) == High <==>
      !CriticalReadings(flame, co2, pm25, pm10) && HighReadings(flame, co2, pm25, pm10)
    ensures Classify(flame, co2, pm25, pm10) == Medium <==>
      !CriticalReadings(flame, co2, pm25, pm10) && !HighReadings(flame, co2, pm25, pm10) && MediumReadings(co2, pm25, pm10)
  {
  }

  /** Raising readings never lowers the level. */
  lemma ClassifyMonotone(f1: real, c1: real, a1: real, b1: real, f2: real, c2: real, a2: real, b2: real)
    requires f1 <= f2 && c1 <= c2 && a1 <= a2 && b1 <= b2
    ensures Rank(Classify(f1, c1, a1, b1)) <= Rank(Classify(f2, c2, a2, b2))
  {
  }

  /** MEDIUM is decided by co2, pm25 and pm10 alone: flame can lift a level to HIGH or CRITICAL but never to MEDIUM. */
  lemma FlameNeverMedium(flame: real, co2: real, pm25: real, pm10: real)
    requires Classify(flame, co2, pm25, pm10) == Medium
    ensures MediumReadings(co2, pm25, pm10)
    ensures Classify(0.0, co2, pm25, pm10) == Medium
  {
  }

  /** An empty record is LOW. */
  lemma EmptyRecordIsLow()
    ensures Compute(Initial) == Low
  {
  }

  // ----- properties of evaluate -----

  /** pm25 never decides CRITICAL: the CRITICAL verdict ignores it. */
  lemma Pm25NeverCritical(flame: real, co2: real, pm25: real)
    ensures Evaluate(flame, co2, pm25) == Critical <==> Evaluate(flame, co2, 0.0) == Critical
    ensures Evaluate(0.0, 0.0, pm25) != Critical
  {
  }

  /** The bounds are strict: exactly 3000 ppm is HIGH and exactly 1000 ppm is LOW. */
  lemma StrictBounds()
    ensures Evaluate(0.0, 3000.0, 0.0) == High
    ensures Evaluate(0.0, 1000.0, 0.0) == Low
    ensures Evaluate(0.9, 0.0, 0.0) == High
    ensures Evaluate(0.0, 0.0, 80.0) == Low
  {
  }

  /** `evaluate` is monotone in each reading. */
  lemma EvaluateMonotone(f1: real, c1: real, p1: real, f2: real, c2: real, p2: real)
    requires f1 <= f2 && c1 <= c2 && p1 <= p2
    ensures Rank(Evaluate(f1, c1, p1)) <= Rank(Evaluate(f2, c2, p2))
  {
  }

  /** The two classifiers disagree on shared inputs: 2600 ppm is CRITICAL for one and HIGH for the other. */
  lemma ClassifiersDiffer()
    ensures Classify(0.0, 2600.0, 0.0, 0.0) == Critical && Evaluate(0.0, 2600.0, 0.0) == High
  {
  }
}
