/** The colour tier of a dashboard gauge: a value is graded good, mid or bad
    against a pair of thresholds, in the direction the metric's mode names. */
module Gauge {

  import opened Wrappers
  import opened Floats

  datatype Mode = HigherIsBetter | LowerIsBetter | RangeOptimal

  datatype Tier = Good | Mid | Bad

  /** The `metric_mode` strings the gauge accepts; any other string is unknown. */
  function ParseMode(s: string): (m: Option<Mode>)
    ensures m == Some(HigherIsBetter) <==> s == "higher_is_better"
    ensures m == Some(LowerIsBetter) <==> s == "lower_is_better"
    ensures m == Some(RangeOptimal) <==> s == "range_optimal"
  {
    if s == "higher_is_better" then Some(HigherIsBetter)
    else if s == "lower_is_better" then Some(LowerIsBetter)
    else if s == "range_optimal" then Some(RangeOptimal)
    else None
  }

  /** The three palette entries, green, yellow and red. */
  function Colour(t: Tier): string {
    match t
    case Good => "#37C36C"
    case Mid => "#FACF3D"
    case Bad => "#EA424B"
  }

  const Palette: set<string> := {"#37C36C", "#FACF3D", "#EA424B"}

  /** Grade of a tier, bad lowest. */
  function Rank(t: Tier): nat {
    match t
    case Bad => 0
    case Mid => 1
    case Good => 2
  }

  /** Good and bad swapped, mid kept. */
  function Mirror(t: Tier): Tier {
    match t
    case Good => Bad
    case Mid => Mid
    case Bad => Good
  }

  /** The tier a value gets against thresholds `[low, high]` under a mode. The
      range-optimal mode keeps the source's third branch, which no real value reaches. */
  function Classify(v: real, low: real, high: real, m: Mode): (t: Tier)
    ensures m == HigherIsBetter ==>
      (t == Bad <==> v < low) && (t == Mid <==> low <= v < high) && (t == Good <==> low <= v && high <= v)
    ensures m == LowerIsBetter ==>
      (t == Good <==> v < low) && (t == Mid <==> low <= v < high) && (t == Bad <==> low <= v && high <= v)
    ensures m == RangeOptimal ==> (t == Good <==> low <= v <= high) && (t == Bad <==> !(low <= v <= high))
  {
    match m
    case HigherIsBetter =>
      if v < low then Bad else if v < high then Mid else Good
    case LowerIsBetter =>
      if v < low then Good else if v < high then Mid else Bad
    case RangeOptimal =>
      if low <= v <= high then Good else if v < low || v > high then Bad else Mid
  }

  /** The tier of a float64 value, with the source's comparisons as Python evaluates them:
      every comparison with NaN is false, so a NaN value falls through to the last branch of
      each chain (good, bad and mid respectively). A finite value gets its `Classify` tier. */
  function ClassifyFloat(v: Ext, low: real, high: real, m: Mode): (t: Tier)
    ensures v.Num? ==> t == Classify(v.v, low, high, m)
    ensures v.NaN? ==> t == (match m case HigherIsBetter => Good case LowerIsBetter => Bad case RangeOptimal => Mid)
    ensures v.PosInf? ==> t == (if m == HigherIsBetter then Good else Bad)
    ensures v.NegInf? ==> t == (if m == LowerIsBetter then Good else Bad)
  {
    match m
    case HigherIsBetter =>
      if Gt(Num(low), v) then Bad else if Gt(Num(high), v) then Mid else Good
    case LowerIsBetter =>
      if Gt(Num(low), v) then Good else if Gt(Num(high), v) then Mid else Bad
    case RangeOptimal =>
      if Le(Num(low), v) && Le(v, Num(high)) then Good
      else if Gt(Num(low), v) || Gt(v, Num(high)) then Bad
      else Mid
  }

  /** The range-optimal mid tier is reached exactly by a NaN value (an RSI still inside its
      first window, say). */
  lemma RangeOptimalMidIffNaN(v: Ext, low: real, high: real)
    ensures ClassifyFloat(v, low, high, RangeOptimal) == Mid <==> v.NaN?
  {
  }

  /** The colour `create_gauge` returns beside its figure, or the error it raises
      for an unknown `metric_mode`. */
  function GaugeColour(value: Ext, low: real, high: real, mode: string): (r: Result<string, string>)
    ensures r.Failure? <==> mode !in {"higher_is_better", "lower_is_better", "range_optimal"}
    ensures r.Failure? ==> r.error == "metric_mode inconnu"
    ensures r.Success? ==> r.value in Palette
    ensures r.Success? ==> r.value == Colour(ClassifyFloat(value, low, high, ParseMode(mode).value))
  {
    match ParseMode(mode)
    case None => Failure("metric_mode inconnu")
    case Some(m) => Success(Colour(ClassifyFloat(value, low, high, m)))
  }

  /** Distinct tiers are painted in distinct colours, so the colour identifies the tier. */
  lemma ColourInjective(a: Tier, b: Tier)
    ensures Colour(a) == Colour(b) <==> a == b
  {
  }

  /** Lower-is-better is higher-is-better mirrored: good and bad swap, mid stays. */
  lemma LowerMirrorsHigher(v: real, low: real, high: real)
    ensures Classify(v, low, high, LowerIsBetter) == Mirror(Classify(v, low, high, HigherIsBetter))
  {
  }

  /** In range-optimal mode a real value is never graded mid. */
  lemma RangeOptimalNeverMid(v: real, low: real, high: real)
    ensures Classify(v, low, high, RangeOptimal) != Mid
  {
  }

  /** Raising the value never lowers its higher-is-better tier, never raises its
      lower-is-better tier. */
  lemma ClassifyMonotone(v: real, w: real, low: real, high: real)
    requires v <= w
    ensures Rank(Classify(v, low, high, HigherIsBetter)) <= Rank(Classify(w, low, high, HigherIsBetter))
    ensures Rank(Classify(v, low, high, LowerIsBetter)) >= Rank(Classify(w, low, high, LowerIsBetter))
  {
  }

  /** Worked examples: a 12% return against [5%, 10%] is good, 7% is mid, a multiple of 30
      against [20, 35] is mid when lower is better, and a misspelt mode is an error. */
  lemma ClassifyExamples()
    ensures Classify(0.12, 0.05, 0.10, HigherIsBetter) == Good
    ensures Classify(0.07, 0.05, 0.10, HigherIsBetter) == Mid
    ensures Classify(30.0, 20.0, 35.0, LowerIsBetter) == Mid
    ensures GaugeColour(Num(0.12), 0.05, 0.10, "higher_is_better") == Success("#37C36C")
    ensures GaugeColour(Num(0.12), 0.05, 0.10, "higher-is-better").Failure?
  {
  }
}
