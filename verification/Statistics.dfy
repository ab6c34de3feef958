/**
 One-pass mean, variance and linear regression (pkg/promql/engine.go:2433-2517,
 pkg/promql/functions.go:493-506, 703-758) over reals, where they must agree with their
 two-pass definitions.
 */
module Statistics {
  import opened Grouping

  // ---------- Sums ----------

  function Sum(v: seq<real>, n: nat): real
    requires n <= |v|
  {
    if n == 0 then 0.0 else Sum(v, n - 1) + v[n - 1]
  }

  /** The sum of products of two sequences. */
  function Dot(x: seq<real>, y: seq<real>, n: nat): real
    requires n <= |x| && n <= |y|
  {
    if n == 0 then 0.0 else Dot(x, y, n - 1) + Times(x[n - 1], y[n - 1])
  }

  /** A product as a name, so that sums of products stay linear where their factors do not matter. */
  function Times(a: real, b: real): real {
    a * b
  }

  function Abs(x: real): real {
    if x < 0.0 then -x else x
  }

  /** kahanSumInc (functions.go:703-712). */
  function KahanSumInc(inc: real, sum: real, c: real): (real, real) {
    var t := sum + inc;
    if Abs(sum) >= Abs(inc) then (t, c + ((sum - t) + inc)) else (t, c + ((inc - t) + sum))
  }

  /** Without rounding, there is never anything to compensate. */
  lemma KahanIsExact(inc: real, sum: real, c: real)
    ensures KahanSumInc(inc, sum, c) == (sum + inc, c)
  {
  }

  // ---------- Mean and variance ----------

  /** The sum of squared distances from m: the second pass. */
  function Deviation(v: seq<real>, n: nat, m: real): real
    requires n <= |v|
  {
    if n == 0 then 0.0 else Deviation(v, n - 1, m) + (v[n - 1] - m) * (v[n - 1] - m)
  }

  function Mean(v: seq<real>, n: nat): real
    requires 0 < n <= |v|
  {
    Sum(v, n) / n as real
  }

  /** The squared distances, multiplied out. */
  lemma {:induction false} DeviationExpands(v: seq<real>, n: nat, m: real)
    requires n <= |v|
    ensures Deviation(v, n, m) == Dot(v, v, n) - 2.0 * m * Sum(v, n) + n as real * m * m
  {
    if n > 0 {
      DeviationExpands(v, n - 1, m);
      var x := v[n - 1];
      assert (x - m) * (x - m) == x * x - 2.0 * m * x + m * m;
      assert 2.0 * m * Sum(v, n) == 2.0 * m * Sum(v, n - 1) + 2.0 * m * x;
      assert n as real * m * m == (n - 1) as real * m * m + m * m;
    }
  }

  lemma MeanStep(sum: real, x: real, n: real, mean: real)
    requires n >= 0.0 && mean * n == sum
    ensures mean + (x - mean) / (n + 1.0) == (sum + x) / (n + 1.0)
  {
    var a, b := mean + (x - mean) / (n + 1.0), (sum + x) / (n + 1.0);
    assert a * (n + 1.0) == b * (n + 1.0);
  }

  /** One step of the one-pass sum of squared distances, with q the sum of squares. */
  lemma VarianceStep(q: real, n: real, m: real, x: real, m': real)
    requires (n + 1.0) * m' == n * m + x
    ensures q - n * m * m + (x - m) * (x - m') == q + x * x - (n + 1.0) * m' * m'
  {
    assert (n + 1.0) * m' * m' == (n * m + x) * m';
    assert m * ((n + 1.0) * m') == m * (n * m + x);
    assert (x - m) * (x - m') == x * x - x * m' - m * x + m * m';
  }

  /** The mean and the sum of squared distances of the first n values. */
  ghost predicate Moments(v: seq<real>, n: nat, mean: real, dev: real)
    requires n <= |v|
  {
    mean * n as real == Sum(v, n) && dev == Dot(v, v, n) - n as real * mean * mean
  }

  lemma MomentsStep(v: seq<real>, n: nat, mean: real, dev: real, next: real, more: real)
    requires n < |v| && Moments(v, n, mean, dev)
    requires next == mean + (v[n] - mean) / (n + 1) as real && more == dev + (v[n] - mean) * (v[n] - next)
    ensures Moments(v, n + 1, next, more)
  {
    var x, m := v[n], n as real;
    assert (n + 1) as real == m + 1.0;
    MeanStep(Sum(v, n), x, m, mean);
    assert next * (m + 1.0) == Sum(v, n) + x;
    VarianceStep(Dot(v, v, n), m, mean, x, next);
  }

  /** They are what the two-pass definitions say. */
  lemma MomentsAreTwoPass(v: seq<real>, n: nat, mean: real, dev: real)
    requires 0 < n <= |v| && Moments(v, n, mean, dev)
    ensures mean == Mean(v, n) && dev == Deviation(v, n, Mean(v, n))
  {
    var m := n as real;
    assert mean * m / m == mean;
    DeviationExpands(v, n, mean);
    assert 2.0 * mean * Sum(v, n) == 2.0 * mean * (mean * m);
    assert 2.0 * mean * (mean * m) == 2.0 * (m * mean * mean);
  }

  lemma FirstMoments(v: seq<real>)
    requires v != []
    ensures Moments(v, 1, v[0], 0.0)
  {
    assert Sum(v, 0) == 0.0 && Dot(v, v, 0) == 0.0;
    assert Sum(v, 1) == v[0] && Dot(v, v, 1) == Times(v[0], v[0]);
  }

  lemma NoMoments(v: seq<real>)
    ensures Moments(v, 0, 0.0, 0.0)
  {
  }

  lemma {:induction false} SumsOfPrefix(v: seq<real>, x: real, n: nat)
    requires n <= |v|
    ensures Sum(v + [x], n) == Sum(v, n) && Dot(v + [x], v + [x], n) == Dot(v, v, n)
  {
    hide Times;
    if n > 0 {
      SumsOfPrefix(v, x, n - 1);
    }
  }

  lemma SameMean(x: real, mean: real, n: real)
    requires n > 0.0
    ensures mean + (x / n - mean / n) == mean + (x - mean) / n
  {
    assert (x / n - mean / n) * n == x - mean;
  }

  /** The accumulator of a group: its mean, the sum of squared distances from it, and the size of the group. */
  datatype Accumulator = Accumulator(mean: real, value: real, groupCount: nat)

  /** stdvar and stddev, one more sample (engine.go:2513-2517). */
  function StepVariance(a: Accumulator, x: real): Accumulator {
    var n := a.groupCount + 1;
    var mean := a.mean + (x - a.mean) / n as real;
    Accumulator(mean, a.value + (x - a.mean) * (x - mean), n)
  }

  /** avg, one more sample (engine.go:2475-2495). */
  function StepAverage(a: Accumulator, x: real): Accumulator {
    var n := a.groupCount + 1;
    Accumulator(a.mean + (x / n as real - a.mean / n as real), a.value, n)
  }

  ghost predicate IsVariance(a: Accumulator, m: seq<real>) {
    a.groupCount == |m| && Moments(m, |m|, a.mean, a.value)
  }

  ghost predicate IsAverage(a: Accumulator, m: seq<real>) {
    a.groupCount == |m| && exists dev :: Moments(m, |m|, a.mean, dev)
  }

  lemma MomentsOfOneMore(m: seq<real>, x: real, mean: real, dev: real, next: real, more: real)
    requires Moments(m, |m|, mean, dev)
    requires next == mean + (x - mean) / (|m| + 1) as real && more == dev + (x - mean) * (x - next)
    ensures Moments(m + [x], |m + [x]|, next, more)
  {
    SumsOfPrefix(m, x, |m|);
    assert Moments(m + [x], |m|, mean, dev);
    hide Moments;
    MomentsStep(m + [x], |m|, mean, dev, next, more);
  }

  lemma StepVarianceWorks(a: Accumulator, m: seq<real>, x: real)
    requires IsVariance(a, m)
    ensures IsVariance(StepVariance(a, x), m + [x])
  {
    hide Moments;
    var b := StepVariance(a, x);
    MomentsOfOneMore(m, x, a.mean, a.value, b.mean, b.value);
  }

  lemma StepAverageWorks(a: Accumulator, m: seq<real>, x: real)
    requires IsAverage(a, m)
    ensures IsAverage(StepAverage(a, x), m + [x])
  {
    hide Moments;
    var b := StepAverage(a, x);
    var dev :| Moments(m, |m|, a.mean, dev);
    SameMean(x, a.mean, (|m| + 1) as real);
    var more := dev + (x - a.mean) * (x - b.mean);
    MomentsOfOneMore(m, x, a.mean, dev, b.mean, more);
  }

  /** stdvar: for each group, the variance of its samples (engine.go:2402-2469, 2513-2517, 2572-2573). */
  method Variances<K(==, !new)>(v: seq<Keyed<K, real>>) returns (out: seq<real>)
    ensures |out| == |Keys(v, |v|)|
    ensures forall i :: 0 <= i < |out| ==> var m := Members(v, |v|, Keys(v, |v|)[i]);
      m != [] && out[i] == Deviation(m, |m|, Mean(m, |m|)) / |m| as real
  {
    hide Moments, Deviation, Mean;
    forall x: real
      ensures IsVariance(Accumulator(x, 0.0, 1), [x])
    {
      FirstMoments([x]);
    }
    forall a, m, x | IsVariance(a, m)
      ensures IsVariance(StepVariance(a, x), m + [x])
    {
      StepVarianceWorks(a, m, x);
    }
    hide IsVariance, StepVariance;
    var ordered, groups := Aggregate(v, x => Accumulator(x, 0.0, 1), StepVariance, IsVariance);
    out := [];
    for i := 0 to |ordered|
      invariant |out| == i
      invariant forall j :: 0 <= j < i ==> var m := Members(v, |v|, ordered[j]);
        m != [] && out[j] == Deviation(m, |m|, Mean(m, |m|)) / |m| as real
    {
      var a := groups[ordered[i]];
      ghost var m := Members(v, |v|, ordered[i]);
      VarianceOfGroup(a, m);
      out := out + [a.value / a.groupCount as real];
    }
  }

  lemma VarianceOfGroup(a: Accumulator, m: seq<real>)
    requires m != [] && IsVariance(a, m)
    ensures a.groupCount == |m| && a.value / a.groupCount as real == Deviation(m, |m|, Mean(m, |m|)) / |m| as real
  {
    MomentsAreTwoPass(m, |m|, a.mean, a.value);
  }

  /** avg: for each group, the mean of its samples (engine.go:2402-2469, 2475-2495, 2566-2567). */
  method Averages<K(==, !new)>(v: seq<Keyed<K, real>>) returns (out: seq<real>)
    ensures |out| == |Keys(v, |v|)|
    ensures forall i :: 0 <= i < |out| ==> var m := Members(v, |v|, Keys(v, |v|)[i]); m != [] && out[i] == Mean(m, |m|)
  {
    hide Moments, Mean;
    forall x: real
      ensures IsAverage(Accumulator(x, x, 1), [x])
    {
      FirstMoments([x]);
      assert Moments([x], |[x]|, x, 0.0);
    }
    forall a, m, x | IsAverage(a, m)
      ensures IsAverage(StepAverage(a, x), m + [x])
    {
      StepAverageWorks(a, m, x);
    }
    hide IsAverage, StepAverage;
    var ordered, groups := Aggregate(v, x => Accumulator(x, x, 1), StepAverage, IsAverage);
    out := [];
    for i := 0 to |ordered|
      invariant |out| == i
      invariant forall j :: 0 <= j < i ==> var m := Members(v, |v|, ordered[j]); m != [] && out[j] == Mean(m, |m|)
    {
      var a := groups[ordered[i]];
      ghost var m := Members(v, |v|, ordered[i]);
      AverageOfGroup(a, m);
      out := out + [a.mean];
    }
  }

  lemma AverageOfGroup(a: Accumulator, m: seq<real>)
    requires m != [] && IsAverage(a, m)
    ensures a.mean == Mean(m, |m|)
  {
    var dev :| Moments(m, |m|, a.mean, dev);
    MomentsAreTwoPass(m, |m|, a.mean, dev);
  }

  /** stdvar_over_time, with compensated sums (functions.go:493-506). */
  method VarianceOverTime(v: seq<real>) returns (r: real)
    requires v != []
    ensures r == Deviation(v, |v|, Mean(v, |v|)) / |v| as real
  {
    hide Moments, KahanSumInc, Deviation, Mean;
    var mean, cMean, aux, cAux := 0.0, 0.0, 0.0, 0.0;
    NoMoments(v);
    for i := 0 to |v|
      invariant Moments(v, i, mean, aux) && cMean == 0.0 && cAux == 0.0
    {
      ghost var before, had := mean, aux;
      var count := (i + 1) as real;
      var delta := v[i] - (mean + cMean);
      KahanIsExact(delta / count, mean, cMean);
      var inc := KahanSumInc(delta / count, mean, cMean);
      mean, cMean := inc.0, inc.1;
      KahanIsExact(delta * (v[i] - (mean + cMean)), aux, cAux);
      inc := KahanSumInc(delta * (v[i] - (mean + cMean)), aux, cAux);
      aux, cAux := inc.0, inc.1;
      MomentsStep(v, i, before, had, mean, aux);
    }
    MomentsAreTwoPass(v, |v|, mean, aux);
    return (aux + cAux) / |v| as real;
  }

  // ---------- Linear regression ----------

  function Square(z: real): (r: real)
    ensures r >= 0.0
  {
    z * z
  }

  lemma ProductIsPositive(v: real, w: real, r: real)
    requires (v > 0.0 && w > 0.0) || (v < 0.0 && w < 0.0)
    requires r == v * w
    ensures r > 0.0
  {
  }

  lemma SquareIsPositive(z: real)
    requires z != 0.0
    ensures Square(z) > 0.0
  {
    ProductIsPositive(z, z, Square(z));
  }

  function Line(a: real, b: real, x: real): real {
    a * x + b
  }

  /** The squared error of the line a * x + b. */
  function Error(x: seq<real>, y: seq<real>, n: nat, a: real, b: real): real
    requires n <= |x| && n <= |y|
  {
    if n == 0 then 0.0 else Error(x, y, n - 1, a, b) + Square(y[n - 1] - Line(a, b, x[n - 1]))
  }

  /** The sum of the squares of a * x + b. */
  function Squares(x: seq<real>, n: nat, a: real, b: real): real
    requires n <= |x|
  {
    if n == 0 then 0.0 else Squares(x, n - 1, a, b) + Square(Line(a, b, x[n - 1]))
  }

  /** The residuals of a line, summed up, and weighted by x. */
  function Residual(x: seq<real>, y: seq<real>, n: nat, a: real, b: real): real
    requires n <= |x| && n <= |y|
  {
    if n == 0 then 0.0 else Residual(x, y, n - 1, a, b) + (y[n - 1] - Line(a, b, x[n - 1]))
  }

  function WeightedResidual(x: seq<real>, y: seq<real>, n: nat, a: real, b: real): real
    requires n <= |x| && n <= |y|
  {
    if n == 0 then 0.0 else WeightedResidual(x, y, n - 1, a, b) + Times(x[n - 1], y[n - 1] - Line(a, b, x[n - 1]))
  }

  lemma TimesZero(a: real)
    ensures Times(a, 0.0) == 0.0
  {
  }

  lemma Distribute(a: real, s: real, t: real)
    ensures Times(a, s + t) == Times(a, s) + Times(a, t)
  {
  }

  lemma {:induction false} ResidualIs(x: seq<real>, y: seq<real>, n: nat, a: real, b: real)
    requires n <= |x| && n <= |y|
    ensures Residual(x, y, n, a, b) == Sum(y, n) - Times(a, Sum(x, n)) - Times(b, n as real)
  {
    if n > 0 {
      ResidualIs(x, y, n - 1, a, b);
      Distribute(a, Sum(x, n - 1), x[n - 1]);
      Distribute(b, (n - 1) as real, 1.0);
      assert n as real == (n - 1) as real + 1.0;
    }
  }

  lemma WeightedTerm(x: real, y: real, a: real, b: real)
    ensures Times(x, y - Line(a, b, x)) == Times(x, y) - Times(a, Times(x, x)) - Times(b, x)
  {
  }

  lemma {:induction false} WeightedResidualIs(x: seq<real>, y: seq<real>, n: nat, a: real, b: real)
    requires n <= |x| && n <= |y|
    ensures WeightedResidual(x, y, n, a, b) == Dot(x, y, n) - Times(a, Dot(x, x, n)) - Times(b, Sum(x, n))
  {
    hide Line, Times;
    if n == 0 {
      TimesZero(a);
      TimesZero(b);
    } else {
      WeightedResidualIs(x, y, n - 1, a, b);
      WeightedTerm(x[n - 1], y[n - 1], a, b);
      Distribute(a, Dot(x, x, n - 1), Times(x[n - 1], x[n - 1]));
      Distribute(b, Sum(x, n - 1), x[n - 1]);
    }
  }

  lemma SquareOfDifference(r: real, s: real)
    ensures Square(r - s) == Square(r) + Square(s) - 2.0 * (s * r)
  {
    assert (r - s) * (r - s) == r * r + s * s - 2.0 * (s * r);
  }

  lemma OtherLine(x: real, y: real, a: real, b: real, p: real, q: real)
    ensures var r := y - Line(a, b, x);
      Square(y - Line(a + p, b + q, x)) ==
      Square(r) + Square(Line(p, q, x)) - 2.0 * Times(p, Times(x, r)) - 2.0 * Times(q, r)
  {
    var r, s := y - Line(a, b, x), Line(p, q, x);
    assert y - Line(a + p, b + q, x) == r - s by { assert (a + p) * x == a * x + p * x; }
    SquareOfDifference(r, s);
    assert s * r == p * (x * r) + q * r;
  }

  /** The error of any line, compared to that of a given one. */
  lemma {:induction false} ErrorCompared(x: seq<real>, y: seq<real>, n: nat, a: real, b: real, p: real, q: real)
    requires n <= |x| && n <= |y|
    ensures Error(x, y, n, a + p, b + q) ==
      Error(x, y, n, a, b) + Squares(x, n, p, q)
      - 2.0 * Times(p, WeightedResidual(x, y, n, a, b)) - 2.0 * Times(q, Residual(x, y, n, a, b))
  {
    hide Line, Square, Times;
    if n == 0 {
      TimesZero(p);
      TimesZero(q);
    } else {
      var i := n - 1;
      ErrorCompared(x, y, i, a, b, p, q);
      OtherLine(x[i], y[i], a, b, p, q);
      var r := y[i] - Line(a, b, x[i]);
      Distribute(p, WeightedResidual(x, y, i, a, b), Times(x[i], r));
      Distribute(q, Residual(x, y, i, a, b), r);
    }
  }

  lemma {:induction false} SquaresAreNotNegative(x: seq<real>, n: nat, a: real, b: real)
    requires n <= |x|
    ensures Squares(x, n, a, b) >= 0.0
  {
    hide Square, Line;
    if n > 0 {
      SquaresAreNotNegative(x, n - 1, a, b);
    }
  }

  lemma {:induction false} SquaresAreAtLeast(x: seq<real>, n: nat, a: real, b: real, i: nat)
    requires i < n <= |x|
    ensures Squares(x, n, a, b) >= Square(Line(a, b, x[i]))
  {
    hide Square, Line;
    SquaresAreNotNegative(x, n - 1, a, b);
    if i < n - 1 {
      SquaresAreAtLeast(x, n - 1, a, b, i);
    }
  }

  /** A line that leaves no residual, weighted or not, is the best one. */
  lemma NormalEquations(x: seq<real>, y: seq<real>, n: nat, a: real, b: real, c: real, d: real)
    requires n <= |x| && n <= |y| && Residual(x, y, n, a, b) == 0.0 && WeightedResidual(x, y, n, a, b) == 0.0
    ensures Error(x, y, n, a, b) <= Error(x, y, n, c, d)
  {
    hide Residual, WeightedResidual, Error, Squares;
    ErrorCompared(x, y, n, a, b, c - a, d - b);
    assert a + (c - a) == c && b + (d - b) == d;
    SquaresAreNotNegative(x, n, c - a, d - b);
  }

  datatype Point = Point(t: int, v: real)

  ghost predicate Increasing(p: seq<Point>) {
    forall i, j :: 0 <= i < j < |p| ==> p[i].t < p[j].t
  }

  /** The times in seconds from the intercept, and the values. */
  function Xs(p: seq<Point>, at: int): (x: seq<real>)
    ensures |x| == |p| && forall i :: 0 <= i < |p| ==> x[i] == (p[i].t - at) as real / 1000.0
  {
    seq(|p|, i requires 0 <= i < |p| => (p[i].t - at) as real / 1000.0)
  }

  function Ys(p: seq<Point>): (y: seq<real>)
    ensures |y| == |p| && forall i :: 0 <= i < |p| ==> y[i] == p[i].v
  {
    seq(|p|, i requires 0 <= i < |p| => p[i].v)
  }

  lemma {:induction false} SquaresExpand(x: seq<real>, n: nat, b: real)
    requires n <= |x|
    ensures Squares(x, n, 1.0, b) == Dot(x, x, n) + 2.0 * Times(b, Sum(x, n)) + Times(b, Times(b, n as real))
  {
    hide Times, Square, Line;
    if n == 0 {
      TimesZero(b);
      TimesZero(b);
    } else {
      SquaresExpand(x, n - 1, b);
      SquareOfLine(b, x[n - 1]);
      Distribute(b, Sum(x, n - 1), x[n - 1]);
      assert n as real == (n - 1) as real + 1.0;
      Distribute(b, (n - 1) as real, 1.0);
      Distribute(b, Times(b, (n - 1) as real), Times(b, 1.0));
    }
  }

  lemma SquareOfLine(b: real, x: real)
    ensures Square(Line(1.0, b, x)) == Times(x, x) + 2.0 * Times(b, x) + Times(b, Times(b, 1.0))
  {
    assert (x + b) * (x + b) == x * x + 2.0 * (b * x) + b * b;
  }

  lemma MeanSquares(sx: real, n: real)
    requires n > 0.0
    ensures var b := -sx / n; 2.0 * Times(b, sx) + Times(b, Times(b, n)) == -(sx * sx / n)
  {
    var b := -sx / n;
    assert b * n == -sx;
    assert b * (b * n) == -(b * sx);
    assert b * sx == -(sx * sx / n) by {
      assert b * sx * n == -(sx * sx);
    }
  }

  /** With two different times, the times have a variance. */
  lemma VarianceIsPositive(x: seq<real>, n: nat)
    requires 2 <= n <= |x| && x[0] != x[1]
    ensures Dot(x, x, n) - Sum(x, n) * Sum(x, n) / n as real > 0.0
  {
    hide Dot, Sum, Squares, Times, Square;
    var b := -Sum(x, n) / n as real;
    SquaresExpand(x, n, b);
    MeanSquares(Sum(x, n), n as real);
    assert Squares(x, n, 1.0, b) == Dot(x, x, n) - Sum(x, n) * Sum(x, n) / n as real;
    SquaresAreAtLeast(x, n, 1.0, b, 0);
    SquaresAreAtLeast(x, n, 1.0, b, 1);
    if Line(1.0, b, x[0]) != 0.0 {
      SquareIsPositive(Line(1.0, b, x[0]));
    } else {
      SquareIsPositive(Line(1.0, b, x[1]));
    }
  }

  /** The slope and the intercept that the code computes solve the normal equations. */
  lemma LeastSquares(n: real, sx: real, sy: real, sxy: real, sxx: real, slope: real, intercept: real)
    requires n > 0.0 && sxx - sx * sx / n > 0.0
    requires slope == (sxy - sx * sy / n) / (sxx - sx * sx / n)
    requires intercept == sy / n - slope * sx / n
    ensures sy - Times(slope, sx) - Times(intercept, n) == 0.0
    ensures sxy - Times(slope, sxx) - Times(intercept, sx) == 0.0
  {
    assert sy / n * n == sy && slope * sx / n * n == slope * sx;
    assert intercept * n == sy - slope * sx;
    var d := sxx - sx * sx / n;
    assert slope * d == sxy - sx * sy / n;
    assert slope * d == slope * sxx - slope * (sx * sx / n);
    assert intercept * sx == sx * sy / n - slope * (sx * sx / n) by {
      assert sy / n * sx == sx * sy / n;
      assert slope * sx / n * sx == slope * (sx * sx / n);
    }
  }

  /** The sums over the samples, and whether all values are the same (functions.go:727-750). */
  method RegressionSums(p: seq<Point>, at: int) returns (sumX: real, sumY: real, sumXY: real, sumX2: real, constY: bool)
    requires p != []
    ensures var x, y, n := Xs(p, at), Ys(p), |p|;
      sumX == Sum(x, n) && sumY == Sum(y, n) && sumXY == Dot(x, y, n) && sumX2 == Dot(x, x, n)
    ensures constY <==> forall i :: 0 <= i < |p| ==> p[i].v == p[0].v
  {
    hide KahanSumInc;
    var cX, cY, cXY, cX2 := 0.0, 0.0, 0.0, 0.0;
    sumX, sumY, sumXY, sumX2, constY := 0.0, 0.0, 0.0, 0.0, true;
    ghost var xs, ys := Xs(p, at), Ys(p);
    for i := 0 to |p|
      invariant sumX == Sum(xs, i) && sumY == Sum(ys, i) && sumXY == Dot(xs, ys, i) && sumX2 == Dot(xs, xs, i)
      invariant cX == 0.0 && cY == 0.0 && cXY == 0.0 && cX2 == 0.0
      invariant constY <==> forall j :: 0 <= j < i ==> p[j].v == p[0].v
    {
      if constY && i > 0 && p[i].v != p[0].v {
        constY := false;
      }
      var x := (p[i].t - at) as real / 1000.0;
      sumX, cX := Increment(x, sumX, cX);
      sumY, cY := Increment(p[i].v, sumY, cY);
      sumXY, cXY := Increment(Times(x, p[i].v), sumXY, cXY);
      sumX2, cX2 := Increment(Times(x, x), sumX2, cX2);
    }
    sumX, sumY, sumXY, sumX2 := sumX + cX, sumY + cY, sumXY + cXY, sumX2 + cX2;
  }

  method Increment(inc: real, sum: real, c: real) returns (newSum: real, newC: real)
    ensures newSum == sum + inc && newC == c
  {
    KahanIsExact(inc, sum, c);
    var r := KahanSumInc(inc, sum, c);
    return r.0, r.1;
  }

  lemma {:induction false} ConstantHasNoError(x: seq<real>, y: seq<real>, n: nat, c: real)
    requires n <= |x| && n <= |y| && forall i :: 0 <= i < n ==> y[i] == c
    ensures Error(x, y, n, 0.0, c) == 0.0
  {
    if n > 0 {
      ConstantHasNoError(x, y, n - 1, c);
    }
  }

  lemma {:induction false} ErrorIsNotNegative(x: seq<real>, y: seq<real>, n: nat, a: real, b: real)
    requires n <= |x| && n <= |y|
    ensures Error(x, y, n, a, b) >= 0.0
  {
    hide Square, Line;
    if n > 0 {
      ErrorIsNotNegative(x, y, n - 1, a, b);
    }
  }

  /** No other line has a smaller squared error. */
  ghost predicate IsBestLine(p: seq<Point>, at: int, slope: real, intercept: real) {
    forall a, b :: Error(Xs(p, at), Ys(p), |p|, slope, intercept) <= Error(Xs(p, at), Ys(p), |p|, a, b)
  }

  lemma ConstantIsBest(p: seq<Point>, at: int)
    requires p != [] && forall i :: 0 <= i < |p| ==> p[i].v == p[0].v
    ensures IsBestLine(p, at, 0.0, p[0].v)
  {
    ConstantHasNoError(Xs(p, at), Ys(p), |p|, p[0].v);
    forall a, b {
      ErrorIsNotNegative(Xs(p, at), Ys(p), |p|, a, b);
    }
  }

  lemma SolutionIsBest(p: seq<Point>, at: int, slope: real, intercept: real)
    requires var x, y, n := Xs(p, at), Ys(p), |p|;
      && Sum(y, n) - Times(slope, Sum(x, n)) - Times(intercept, n as real) == 0.0
      && Dot(x, y, n) - Times(slope, Dot(x, x, n)) - Times(intercept, Sum(x, n)) == 0.0
    ensures IsBestLine(p, at, slope, intercept)
  {
    hide Sum, Dot, Times, Error;
    var x, y, n := Xs(p, at), Ys(p), |p|;
    ResidualIs(x, y, n, slope, intercept);
    WeightedResidualIs(x, y, n, slope, intercept);
    forall a, b
      ensures Error(x, y, n, slope, intercept) <= Error(x, y, n, a, b)
    {
      NormalEquations(x, y, n, slope, intercept, a, b);
    }
  }

  /** linearRegression (functions.go:717-758). */
  method LinearRegression(p: seq<Point>, at: int) returns (slope: real, intercept: real)
    requires p != [] && Increasing(p)
    ensures IsBestLine(p, at, slope, intercept)
  {
    hide IsBestLine, Sum, Dot, Times;
    var sumX, sumY, sumXY, sumX2, constY := RegressionSums(p, at);
    if constY {
      ConstantIsBest(p, at);
      return 0.0, p[0].v;
    }
    var n := |p| as real;
    assert |p| > 1 && p[0].t < p[1].t;
    VarianceIsPositive(Xs(p, at), |p|);
    var covXY := sumXY - sumX * sumY / n;
    var varX := sumX2 - sumX * sumX / n;
    slope := covXY / varX;
    intercept := sumY / n - slope * sumX / n;
    LeastSquares(n, sumX, sumY, sumXY, sumX2, slope, intercept);
    SolutionIsBest(p, at, slope, intercept);
  }
}
