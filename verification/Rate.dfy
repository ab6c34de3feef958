/**
 rate, increase and delta (extrapolatedRate, pkg/promql/functions.go:65-137). The points are
 those of one window: at strictly increasing times, in milliseconds, inside the range.
 */
module Rate {

  datatype Point = Point(t: int, v: real)
  datatype Window = Window(points: seq<Point>, start: int, end: int)

  ghost predicate Ordered(w: Window) {
    && (forall i :: 0 <= i < |w.points| ==> w.start <= w.points[i].t <= w.end)
    && (forall i, j :: 0 <= i < j < |w.points| ==> w.points[i].t < w.points[j].t)
  }

  function Seconds(ms: int): real {
    ms as real / 1000.0
  }

  // ---------- The increase of a counter ----------

  /** What a counter gained from one sample to the next; if it fell, it was reset and started from zero. */
  function Gain(a: real, b: real): real {
    if b < a then b else b - a
  }

  function Gains(p: seq<Point>, n: nat): real
    requires 0 < n <= |p|
  {
    if n == 1 then 0.0 else Gains(p, n - 1) + Gain(p[n - 2].v, p[n - 1].v)
  }

  /** The loop that makes up for resets (functions.go:80-89). */
  method CounterIncrease(p: seq<Point>) returns (resultValue: real)
    requires p != []
    ensures resultValue == Gains(p, |p|)
  {
    resultValue := p[|p| - 1].v - p[0].v;
    var lastValue := 0.0;
    ghost var difference := resultValue;
    for i := 0 to |p|
      invariant lastValue == if i == 0 then 0.0 else p[i - 1].v
      invariant resultValue - difference == if i == 0 then 0.0 else Gains(p, i) - (p[i - 1].v - p[0].v)
    {
      if p[i].v < lastValue {
        resultValue := resultValue + lastValue;
      }
      lastValue := p[i].v;
    }
  }

  /** A counter that is never negative never has a negative increase. */
  lemma {:induction false} GainsAreNotNegative(p: seq<Point>, n: nat)
    requires 0 < n <= |p| && forall i :: 0 <= i < |p| ==> p[i].v >= 0.0
    ensures Gains(p, n) >= 0.0
  {
    if n > 1 {
      GainsAreNotNegative(p, n - 1);
    }
  }

  // ---------- Extrapolation ----------

  function Sampled(w: Window): real
    requires |w.points| >= 2
  {
    Seconds(w.points[|w.points| - 1].t - w.points[0].t)
  }

  function Average(w: Window): real
    requires |w.points| >= 2
  {
    Sampled(w) / (|w.points| - 1) as real
  }

  /** How long before the first sample the series may have begun: for a rising counter, not before it was zero. */
  function ToStart(w: Window, isCounter: bool, raw: real): real
    requires |w.points| >= 2
  {
    var toBoundary := Seconds(w.points[0].t - w.start);
    if isCounter && raw > 0.0 && w.points[0].v >= 0.0 && Sampled(w) * (w.points[0].v / raw) < toBoundary
    then Sampled(w) * (w.points[0].v / raw) else toBoundary
  }

  function ToEnd(w: Window): real
    requires |w.points| >= 2
  {
    Seconds(w.end - w.points[|w.points| - 1].t)
  }

  /** A gap that is not much longer than usual is filled, a longer one by half the usual gap. */
  function Extension(gap: real, average: real): real {
    if gap < average * 1.1 then gap else average / 2.0
  }

  function Interval(w: Window, isCounter: bool, raw: real): real
    requires |w.points| >= 2
  {
    Sampled(w) + Extension(ToStart(w, isCounter, raw), Average(w)) + Extension(ToEnd(w), Average(w))
  }

  function Raw(w: Window, isCounter: bool): real
    requires |w.points| >= 2
  {
    if isCounter then Gains(w.points, |w.points|) else w.points[|w.points| - 1].v - w.points[0].v
  }

  lemma SampledIsPositive(w: Window)
    requires Ordered(w) && |w.points| >= 2
    ensures Sampled(w) > 0.0 && Average(w) > 0.0
  {
    var n := (|w.points| - 1) as real;
    assert Average(w) * n == Sampled(w);
  }

  lemma ExtensionIsWithin(gap: real, average: real)
    requires gap >= 0.0 && average > 0.0
    ensures 0.0 <= Extension(gap, average) <= gap
  {
  }

  lemma QuotientIsNotNegative(s: real, v: real, raw: real)
    requires s > 0.0 && v >= 0.0 && raw > 0.0
    ensures s * (v / raw) >= 0.0
  {
    assert v / raw >= 0.0;
  }

  lemma ToStartIsWithin(w: Window, isCounter: bool, raw: real)
    requires Ordered(w) && |w.points| >= 2
    ensures 0.0 <= ToStart(w, isCounter, raw) <= Seconds(w.points[0].t - w.start)
    ensures isCounter && raw > 0.0 && w.points[0].v >= 0.0 ==>
        ToStart(w, isCounter, raw) <= Sampled(w) * (w.points[0].v / raw)
  {
    SampledIsPositive(w);
    if raw > 0.0 && w.points[0].v >= 0.0 {
      QuotientIsNotNegative(Sampled(w), w.points[0].v, raw);
    }
    hide Sampled, Average;
  }

  /** The extrapolated interval lies between the sampled interval and the whole range. */
  lemma IntervalIsWithinRange(w: Window, isCounter: bool)
    requires Ordered(w) && |w.points| >= 2
    ensures Sampled(w) <= Interval(w, isCounter, Raw(w, isCounter)) <= Seconds(w.end - w.start)
  {
    SampledIsPositive(w);
    ToStartIsWithin(w, isCounter, Raw(w, isCounter));
    ExtensionIsWithin(ToStart(w, isCounter, Raw(w, isCounter)), Average(w));
    ExtensionIsWithin(ToEnd(w), Average(w));
    hide Raw, ToStart, Average, Extension;
  }

  lemma BackwardsToZero(s: real, v: real, raw: real, x: real)
    requires s > 0.0 && v >= 0.0 && raw > 0.0 && 0.0 <= x <= s * (v / raw)
    ensures raw / s * x <= v
  {
    assert raw / s * s == raw && v / raw * raw == v;
    assert raw / s * x <= raw / s * (s * (v / raw)) by {
      assert raw / s > 0.0;
    }
    assert raw / s * (s * (v / raw)) == raw * (v / raw);
  }

  lemma BackwardsUp(s: real, raw: real, x: real)
    requires s > 0.0 && raw <= 0.0 && x >= 0.0
    ensures raw / s * x <= 0.0
  {
    assert raw / s <= 0.0;
  }

  /** Going back at the average slope, a counter that starts at zero or above never falls below zero. */
  lemma CounterStaysAboveZero(w: Window)
    requires Ordered(w) && |w.points| >= 2 && w.points[0].v >= 0.0
    ensures var x := Extension(ToStart(w, true, Raw(w, true)), Average(w));
      w.points[0].v - Raw(w, true) / Sampled(w) * x >= 0.0
  {
    hide Sampled, Average, Raw, ToStart, Extension;
    SampledIsPositive(w);
    var raw := Raw(w, true);
    ToStartIsWithin(w, true, raw);
    ExtensionIsWithin(ToStart(w, true, raw), Average(w));
    var x := Extension(ToStart(w, true, raw), Average(w));
    if raw > 0.0 {
      BackwardsToZero(Sampled(w), w.points[0].v, raw, x);
    } else {
      BackwardsUp(Sampled(w), raw, x);
    }
  }

  /** If the way back to the start is cut short, that is where the counter would have been zero. */
  lemma CutAtZero(w: Window, raw: real)
    requires Ordered(w) && |w.points| >= 2 && ToStart(w, true, raw) < Seconds(w.points[0].t - w.start)
    ensures raw > 0.0 && Sampled(w) > 0.0 && ToStart(w, true, raw) / Sampled(w) * raw == w.points[0].v
  {
    hide Ordered, Seconds;
    SampledIsPositive(w);
    BackToZero(Sampled(w), w.points[0].v, raw);
    hide Sampled;
  }

  lemma BackToZero(s: real, v: real, raw: real)
    requires s > 0.0 && raw > 0.0
    ensures s * (v / raw) / s * raw == v
  {
    assert s * (v / raw) / s == v / raw;
  }

  /** The gap counts as filled while it is less than eleven tenths of the usual one. */
  lemma GapRule(gap: real, average: real)
    ensures 10.0 * gap < 11.0 * average ==> Extension(gap, average) == gap
    ensures 10.0 * gap >= 11.0 * average ==> 2.0 * Extension(gap, average) == average
  {
  }

  /** The increase at the average slope over another interval. */
  function Scaled(raw: real, interval: real, sampled: real): real
    requires sampled > 0.0
  {
    raw * (interval / sampled)
  }

  function PerSecond(increase: real, seconds: real): real
    requires seconds > 0.0
  {
    increase / seconds
  }

  /** The extrapolated increase over its interval has the slope of the gain over the sampled time. */
  ghost predicate SameSlope(w: Window, isCounter: bool, increase: real)
    requires |w.points| >= 2
  {
    var raw := Raw(w, isCounter);
    increase * Seconds(w.points[|w.points| - 1].t - w.points[0].t) == raw * Interval(w, isCounter, raw)
  }

  lemma ScaledHasSameSlope(raw: real, interval: real, sampled: real)
    requires sampled > 0.0
    ensures Scaled(raw, interval, sampled) * sampled == raw * interval
  {
    assert interval / sampled * sampled == interval;
    assert raw * (interval / sampled) * sampled == raw * (interval / sampled * sampled);
  }

  lemma ExtrapolationHasSameSlope(w: Window, isCounter: bool)
    requires |w.points| >= 2 && Sampled(w) > 0.0
    ensures var raw := Raw(w, isCounter); SameSlope(w, isCounter, Scaled(raw, Interval(w, isCounter, raw), Sampled(w)))
  {
    hide Scaled, Raw, Interval, Seconds;
    var raw := Raw(w, isCounter);
    ScaledHasSameSlope(raw, Interval(w, isCounter, raw), Sampled(w));
  }

  /** A rate times its range is the increase. */
  lemma RateTimesRange(increase: real, seconds: real)
    requires seconds > 0.0
    ensures PerSecond(increase, seconds) * seconds == increase
  {
  }

  /** The same of a result, which may be a rate. */
  ghost predicate HasSlope(w: Window, isCounter: bool, isRate: bool, result: real)
    requires |w.points| >= 2
  {
    SameSlope(w, isCounter, if isRate then result * Seconds(w.end - w.start) else result)
  }

  lemma ResultHasSlope(w: Window, isCounter: bool, isRate: bool, increase: real, result: real)
    requires |w.points| >= 2 && SameSlope(w, isCounter, increase) && Seconds(w.end - w.start) > 0.0
    requires result == if isRate then PerSecond(increase, Seconds(w.end - w.start)) else increase
    ensures HasSlope(w, isCounter, isRate, result)
  {
    hide Raw, Interval, Seconds;
    RateTimesRange(increase, Seconds(w.end - w.start));
  }

  /** Times are in milliseconds. */
  lemma SecondsAreThousandMilliseconds(ms: int)
    ensures Seconds(1000 * ms) == ms as real && 1000.0 * Seconds(ms) == ms as real
  {
  }

  /** The interval that the samples stand for (functions.go:92-128). */
  method ExtrapolateToInterval(w: Window, isCounter: bool, resultValue: real) returns (interval: real)
    requires |w.points| >= 2
    ensures interval == Interval(w, isCounter, resultValue)
  {
    hide Seconds;
    var p := w.points;
    var durationToStart, durationToEnd := Seconds(p[0].t - w.start), Seconds(w.end - p[|p| - 1].t);
    var sampledInterval := Seconds(p[|p| - 1].t - p[0].t);
    var average := sampledInterval / (|p| - 1) as real;
    if isCounter && resultValue > 0.0 && p[0].v >= 0.0 {
      var durationToZero := sampledInterval * (p[0].v / resultValue);
      if durationToZero < durationToStart {
        durationToStart := durationToZero;
      }
    }
    assert durationToStart == ToStart(w, isCounter, resultValue);
    var threshold := average * 1.1;
    interval := sampledInterval;
    interval := interval + if durationToStart < threshold then durationToStart else average / 2.0;
    interval := interval + if durationToEnd < threshold then durationToEnd else average / 2.0;
  }

  /** extrapolatedRate: nothing for fewer than two samples. */
  method ExtrapolatedRate(w: Window, isCounter: bool, isRate: bool) returns (out: seq<real>)
    requires Ordered(w)
    ensures |w.points| < 2 ==> out == []
    ensures |w.points| >= 2 ==> Sampled(w) > 0.0 && Seconds(w.end - w.start) > 0.0
    ensures |w.points| >= 2 ==> var raw := Raw(w, isCounter);
      var result := Scaled(raw, Interval(w, isCounter, raw), Sampled(w));
      out == [if isRate then PerSecond(result, Seconds(w.end - w.start)) else result]
    ensures |w.points| >= 2 ==> HasSlope(w, isCounter, isRate, out[0])
  {
    hide Scaled, PerSecond, Gains, Seconds, Ordered, SameSlope, HasSlope;
    var p := w.points;
    if |p| < 2 {
      return [];
    }
    SampledIsPositive(w);
    IntervalIsWithinRange(w, isCounter);
    var resultValue := p[|p| - 1].v - p[0].v;
    if isCounter {
      resultValue := CounterIncrease(p);
    }
    assert resultValue == Raw(w, isCounter);
    var sampledInterval := Seconds(p[|p| - 1].t - p[0].t);
    var interval := ExtrapolateToInterval(w, isCounter, resultValue);
    ExtrapolationHasSameSlope(w, isCounter);
    resultValue := Scaled(resultValue, interval, sampledInterval);
    ghost var increase := resultValue;
    if isRate {
      resultValue := PerSecond(resultValue, Seconds(w.end - w.start));
    }
    ResultHasSlope(w, isCounter, isRate, increase, resultValue);
    return [resultValue];
  }
}
