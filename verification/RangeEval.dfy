/**
 The step loop of the evaluator (rangeEval, pkg/promql/engine.go:1088-1249). It gathers the
 input vector of each step by a merge scan: only the first remaining point of each series is
 looked at, and taken off when it is of this step. The meaning is a lookup by timestamp in the
 whole series. A label set stands for its hash; the function that is called is a parameter.
 */
module RangeEval {
  import opened Arith
  import PromqlAst

  type Labels = string
  datatype Point = Point(t: int, v: real)
  datatype Series = Series(metric: Labels, points: seq<Point>)
  datatype Sample = Sample(metric: Labels, t: int, v: real)
  type Matrix = seq<Series>
  type Vector = seq<Sample>

  type Grid = PromqlAst.Grid

  // ---------- The input of one step ----------

  /** The sample of the series at time ts, if it has one. */
  function Lookup(s: Series, k: nat, ts: int): Vector
    requires k <= |s.points|
  {
    if k == 0 then []
    else if s.points[k - 1].t == ts then [Sample(s.metric, ts, s.points[k - 1].v)]
    else Lookup(s, k - 1, ts)
  }

  /** The samples of the first k series at time ts, in the order of the series. */
  function VectorAt(m: Matrix, k: nat, ts: int): Vector
    requires k <= |m|
  {
    if k == 0 then [] else VectorAt(m, k - 1, ts) + Lookup(m[k - 1], |m[k - 1].points|, ts)
  }

  /** What the merge scan sees of a series: its first point, if it is of time ts. */
  function Head(s: Series, ts: int): Vector {
    if s.points != [] && s.points[0].t == ts then [Sample(s.metric, ts, s.points[0].v)] else []
  }

  function Advance(s: Series, ts: int): Series {
    if Head(s, ts) == [] then s else Series(s.metric, s.points[1..])
  }

  function Heads(m: Matrix, k: nat, ts: int): Vector
    requires k <= |m|
  {
    if k == 0 then [] else Heads(m, k - 1, ts) + Head(m[k - 1], ts)
  }

  ghost predicate Increasing(s: Series) {
    forall i, j :: 0 <= i < j < |s.points| ==> s.points[i].t < s.points[j].t
  }

  ghost predicate OnGrid(g: Grid, t: int) {
    g.start <= t && (t - g.start) % g.interval == 0
  }

  ghost predicate Aligned(g: Grid, s: Series) {
    Increasing(s) && forall i :: 0 <= i < |s.points| ==> OnGrid(g, s.points[i].t)
  }

  /** `rest` is the part of the series from time ts on. */
  ghost predicate Remains(s: Series, rest: Series, ts: int) {
    var n := |s.points| - |rest.points|;
    && rest.metric == s.metric && 0 <= n && rest.points == s.points[n..]
    && (forall i :: 0 <= i < n ==> s.points[i].t < ts)
    && (forall i :: n <= i < |s.points| ==> ts <= s.points[i].t)
  }

  lemma {:induction false} LookupFinds(s: Series, k: nat, ts: int, n: nat)
    requires Increasing(s) && k <= |s.points| && n <= |s.points|
    requires forall i :: 0 <= i < n ==> s.points[i].t < ts
    requires forall i :: n <= i < |s.points| ==> ts <= s.points[i].t
    ensures Lookup(s, k, ts) == if n < k && s.points[n].t == ts then [Sample(s.metric, ts, s.points[n].v)] else []
  {
    if k > 0 {
      LookupFinds(s, k - 1, ts, n);
    }
  }

  /** Looking at the first remaining point is looking up the time in the whole series. */
  lemma HeadIsLookup(s: Series, rest: Series, ts: int)
    requires Increasing(s) && Remains(s, rest, ts)
    ensures Head(rest, ts) == Lookup(s, |s.points|, ts)
  {
    LookupFinds(s, |s.points|, ts, |s.points| - |rest.points|);
  }

  lemma AdvanceRemains(g: Grid, s: Series, rest: Series, ts: int)
    requires Aligned(g, s) && Remains(s, rest, ts) && OnGrid(g, ts)
    ensures Remains(s, Advance(rest, ts), ts + g.interval)
  {
    var n := |s.points| - |rest.points|;
    forall i | n <= i < |s.points|
      ensures ts < s.points[i].t ==> ts + g.interval <= s.points[i].t
    {
      assert OnGrid(g, s.points[i].t);
      MultiplesAreFarApart(ts - g.start, s.points[i].t - g.start, g.interval);
    }
  }

  ghost predicate AllRemain(m: Matrix, rest: Matrix, ts: int) {
    |m| == |rest| && forall i :: 0 <= i < |m| ==> Remains(m[i], rest[i], ts)
  }

  ghost predicate AllAligned(g: Grid, m: Matrix) {
    forall i :: 0 <= i < |m| ==> Aligned(g, m[i])
  }

  lemma {:induction false} HeadsAreLookups(g: Grid, m: Matrix, rest: Matrix, k: nat, ts: int)
    requires AllAligned(g, m) && AllRemain(m, rest, ts) && k <= |m|
    ensures Heads(rest, k, ts) == VectorAt(m, k, ts)
  {
    hide Remains, Increasing, OnGrid, Head, Lookup;
    if k > 0 {
      HeadsAreLookups(g, m, rest, k - 1, ts);
      HeadIsLookup(m[k - 1], rest[k - 1], ts);
    }
  }

  lemma {:induction false} HeadsGrow(m: Matrix, k: nat, n: nat, ts: int)
    requires k <= n <= |m|
    ensures |Heads(m, k, ts)| <= |Heads(m, n, ts)|
  {
    if k < n {
      HeadsGrow(m, k, n - 1, ts);
    }
  }

  /** The scan over the series of one argument (engine.go:1162-1181). */
  method Gather(m: Matrix, ts: int, current: int, maxSamples: int)
    returns (vector: Vector, rest: Matrix, now: int, tooMany: bool)
    requires current <= maxSamples
    ensures tooMany <==> current + |Heads(m, |m|, ts)| > maxSamples
    ensures !tooMany ==> vector == Heads(m, |m|, ts) && now == current + |vector|
    ensures !tooMany ==> |rest| == |m| && forall i :: 0 <= i < |m| ==> rest[i] == Advance(m[i], ts)
  {
    vector, rest, now, tooMany := [], m, current, false;
    for i := 0 to |m|
      invariant vector == Heads(m, i, ts) && now == current + |vector| && now <= maxSamples
      invariant |rest| == |m| && (forall j :: 0 <= j < i ==> rest[j] == Advance(m[j], ts))
      invariant forall j :: i <= j < |m| ==> rest[j] == m[j]
    {
      var series := m[i];
      if |series.points| > 0 && series.points[0].t == ts {
        if now < maxSamples {
          vector := vector + [Sample(series.metric, ts, series.points[0].v)];
          rest := rest[i := Series(series.metric, series.points[1..])];
          now := now + 1;
        } else {
          HeadsGrow(m, i + 1, |m|, ts);
          return vector, rest, now, true;
        }
      }
    }
  }

  // ---------- All arguments of one step ----------

  function VectorsAt(inputs: seq<Matrix>, k: nat, ts: int): (r: seq<Vector>)
    requires k <= |inputs|
    ensures |r| == k
  {
    if k == 0 then [] else VectorsAt(inputs, k - 1, ts) + [VectorAt(inputs[k - 1], |inputs[k - 1]|, ts)]
  }

  function CountAt(inputs: seq<Matrix>, k: nat, ts: int): nat
    requires k <= |inputs|
  {
    if k == 0 then 0 else CountAt(inputs, k - 1, ts) + |VectorAt(inputs[k - 1], |inputs[k - 1]|, ts)|
  }

  lemma {:induction false} CountGrows(inputs: seq<Matrix>, k: nat, n: nat, ts: int)
    requires k <= n <= |inputs|
    ensures CountAt(inputs, k, ts) <= CountAt(inputs, n, ts)
  {
    if k < n {
      CountGrows(inputs, k, n - 1, ts);
    }
  }

  ghost predicate InputsRemain(inputs: seq<Matrix>, rest: seq<Matrix>, ts: int) {
    |inputs| == |rest| && forall i :: 0 <= i < |inputs| ==> AllRemain(inputs[i], rest[i], ts)
  }

  ghost predicate InputsAligned(g: Grid, inputs: seq<Matrix>) {
    forall i :: 0 <= i < |inputs| ==> AllAligned(g, inputs[i])
  }

  /** One argument: what is gathered is what is looked up, and the scan is ready for the next step. */
  method GatherAligned(g: Grid, m: Matrix, ts: int, current: int, maxSamples: int, ghost whole: Matrix)
    returns (vector: Vector, rest: Matrix, now: int, tooMany: bool)
    requires current <= maxSamples
    requires AllAligned(g, whole) && AllRemain(whole, m, ts) && OnGrid(g, ts)
    ensures tooMany <==> current + |VectorAt(whole, |whole|, ts)| > maxSamples
    ensures !tooMany ==> vector == VectorAt(whole, |whole|, ts) && now == current + |vector|
    ensures !tooMany ==> AllRemain(whole, rest, ts + g.interval)
  {
    HeadsAreLookups(g, whole, m, |m|, ts);
    vector, rest, now, tooMany := Gather(m, ts, current, maxSamples);
    forall i | 0 <= i < |whole|
      ensures Remains(whole[i], Advance(m[i], ts), ts + g.interval)
    {
      AdvanceRemains(g, whole[i], m[i], ts);
    }
    hide Remains, VectorAt, Heads, Advance;
  }

  /** The input vectors of a step (engine.go:1155-1184). */
  method GatherAll(g: Grid, m: seq<Matrix>, ts: int, current: int, maxSamples: int, ghost inputs: seq<Matrix>)
    returns (vectors: seq<Vector>, rest: seq<Matrix>, now: int, tooMany: bool)
    requires current <= maxSamples
    requires InputsAligned(g, inputs) && InputsRemain(inputs, m, ts) && OnGrid(g, ts)
    ensures tooMany <==> current + CountAt(inputs, |inputs|, ts) > maxSamples
    ensures !tooMany ==> vectors == VectorsAt(inputs, |inputs|, ts) && now == current + CountAt(inputs, |inputs|, ts)
    ensures !tooMany ==> InputsRemain(inputs, rest, ts + g.interval)
  {
    vectors, rest, now, tooMany := [], m, current, false;
    hide AllAligned, AllRemain, VectorAt, OnGrid;
    for i := 0 to |m|
      invariant |rest| == |m| && vectors == VectorsAt(inputs, i, ts)
      invariant now == current + CountAt(inputs, i, ts) && now <= maxSamples
      invariant forall j :: 0 <= j < i ==> AllRemain(inputs[j], rest[j], ts + g.interval)
    {
      var vector, left;
      vector, left, now, tooMany := GatherAligned(g, m[i], ts, now, maxSamples, inputs[i]);
      if tooMany {
        CountGrows(inputs, i + 1, |inputs|, ts);
        return;
      }
      vectors := vectors + [vector];
      rest := rest[i := left];
    }
  }

  // ---------- The output series ----------

  /** The points for one metric among the first n samples of a result. */
  function Picks(v: Vector, n: nat, metric: Labels, ts: int): seq<Point>
    requires n <= |v|
  {
    if n == 0 then []
    else Picks(v, n - 1, metric, ts) + if v[n - 1].metric == metric then [Point(ts, v[n - 1].v)] else []
  }

  type Output = map<Labels, seq<Point>>

  function Get(out: Output, metric: Labels): seq<Point> {
    if metric in out then out[metric] else []
  }

  ghost predicate NoneEmpty(out: Output) {
    forall m :: m in out ==> out[m] != []
  }

  ghost function Total(out: Output): nat {
    if out == map[] then 0 else var m :| m in out; |out[m]| + Total(out - {m})
  }

  lemma {:induction false} TotalWithout(out: Output, m: Labels)
    ensures Total(out) == |Get(out, m)| + Total(out - {m})
    decreases |out|
  {
    if m !in out {
      assert out - {m} == out;
    } else {
      var n :| n in out && Total(out) == |out[n]| + Total(out - {n});
      if n != m {
        TotalWithout(out - {n}, m);
        TotalWithout(out - {m}, n);
        assert out - {n} - {m} == out - {m} - {n};
      }
    }
  }

  lemma TotalOfUpdate(out: Output, m: Labels, points: seq<Point>)
    ensures Total(out[m := points]) == Total(out) - |Get(out, m)| + |points|
  {
    TotalWithout(out, m);
    TotalWithout(out[m := points], m);
    assert out[m := points] - {m} == out - {m};
  }

  method AddSample(out0: Output, sample: Sample, ts: int) returns (out: Output)
    requires NoneEmpty(out0)
    ensures NoneEmpty(out) && Total(out) == Total(out0) + 1
    ensures forall m :: Get(out, m) == Get(out0, m) + if m == sample.metric then [Point(ts, sample.v)] else []
  {
    var points := if sample.metric in out0 then out0[sample.metric] else [];
    TotalOfUpdate(out0, sample.metric, points + [Point(ts, sample.v)]);
    hide Total;
    out := out0[sample.metric := points + [Point(ts, sample.v)]];
  }

  /** Adds the result of a step to the output series (engine.go:1219-1232). */
  method AddResult(out0: Output, result: Vector, ts: int) returns (out: Output)
    requires NoneEmpty(out0)
    ensures NoneEmpty(out) && Total(out) == Total(out0) + |result|
    ensures forall m :: Get(out, m) == Get(out0, m) + Picks(result, |result|, m, ts)
  {
    out := out0;
    hide Total, Get, NoneEmpty;
    for i := 0 to |result|
      invariant NoneEmpty(out) && Total(out) == Total(out0) + i
      invariant forall m :: Get(out, m) == Get(out0, m) + Picks(result, i, m, ts)
    {
      out := AddSample(out, result[i], ts);
    }
  }

  function TotalSamples(m: Matrix): nat {
    if m == [] then 0 else TotalSamples(m[..|m| - 1]) + |m[|m| - 1].points|
  }

  /** The matrix holds the output series, each once, in any order. */
  ghost predicate Lists(m: Matrix, out: Output) {
    && (forall i :: 0 <= i < |m| ==> m[i].metric in out && m[i].points == out[m[i].metric])
    && (forall i, j :: 0 <= i < j < |m| ==> m[i].metric != m[j].metric)
    && (forall l :: l in out ==> exists i :: 0 <= i < |m| && m[i].metric == l)
  }

  ghost predicate Listed(m: Matrix, out: Output, left: Output) {
    && (forall l :: l in left ==> l in out && left[l] == out[l])
    && (forall i :: 0 <= i < |m| ==> m[i].metric in out && m[i].metric !in left && m[i].points == out[m[i].metric])
    && (forall i, j :: 0 <= i < j < |m| ==> m[i].metric != m[j].metric)
    && (forall l :: l in out && l !in left ==> exists i :: 0 <= i < |m| && m[i].metric == l)
  }

  lemma ListOne(m: Matrix, out: Output, left: Output, l: Labels)
    requires Listed(m, out, left) && l in left
    ensures Listed(m + [Series(l, left[l])], out, left - {l})
  {
    var n := m + [Series(l, left[l])];
    assert n[|m|].metric == l;
    forall k | k in out && k !in left
      ensures exists i :: 0 <= i < |n| && n[i].metric == k
    {
      var i :| 0 <= i < |m| && m[i].metric == k;
      assert n[i].metric == k;
    }
  }

  lemma TotalOfOneMore(m: Matrix, s: Series)
    ensures TotalSamples(m + [s]) == TotalSamples(m) + |s.points|
  {
    assert (m + [s])[..|m|] == m;
  }

  /** Go iterates over a map in any order (engine.go:1242-1245). */
  method Assemble(out: Output) returns (mat: Matrix)
    ensures Lists(mat, out) && TotalSamples(mat) == Total(out)
  {
    mat := [];
    var left := out;
    assert Listed(mat, out, left);
    while left != map[]
      invariant Listed(mat, out, left)
      invariant TotalSamples(mat) + Total(left) == Total(out)
      decreases |left|
    {
      hide Listed;
      var l :| l in left;
      TotalWithout(left, l);
      ListOne(mat, out, left, l);
      TotalOfOneMore(mat, Series(l, left[l]));
      hide Total, TotalSamples;
      mat := mat + [Series(l, left[l])];
      left := left - {l};
    }
  }

  ghost predicate HasSameLabelset(v: Vector) {
    exists i, j :: 0 <= i < j < |v| && v[i].metric == v[j].metric
  }

  /** ContainsSameLabelset (pkg/promql/value.go:140-157). */
  method ContainsSameLabelset(v: Vector) returns (same: bool)
    ensures same <==> HasSameLabelset(v)
  {
    if |v| <= 1 {
      return false;
    } else if |v| == 2 {
      return v[0].metric == v[1].metric;
    }
    var seen: set<Labels> := {};
    for i := 0 to |v|
      invariant forall l :: l in seen <==> exists j :: 0 <= j < i && v[j].metric == l
      invariant forall j, k :: 0 <= j < k < i ==> v[j].metric != v[k].metric
    {
      if v[i].metric in seen {
        return true;
      }
      seen := seen + {v[i].metric};
    }
    return false;
  }

  // ---------- The step loop ----------

  datatype Verdict = Fine | TooManySamples | SameLabelset

  /** The evaluated arguments, the steps, and the function that is called at each step. */
  datatype Job = Job(g: Grid, inputs: seq<Matrix>, f: (int, seq<Vector>) -> Vector)
  {
    function TimeAt(k: nat): int {
      if k == 0 then g.start else TimeAt(k - 1) + g.interval
    }

    function StepsFrom(ts: int): nat
      decreases if ts <= g.end then g.end - ts + 1 else 0
    {
      if g.end < ts then 0 else 1 + StepsFrom(ts + g.interval)
    }

    /** The result of the function for the inputs looked up at time ts. */
    function OutAt(ts: int): Vector {
      f(ts, VectorsAt(inputs, |inputs|, ts))
    }

    function OutCount(k: nat): nat {
      if k == 0 then 0 else OutCount(k - 1) + |OutAt(TimeAt(k - 1))|
    }

    /** The output series of a metric: its results in the first k steps, in time order. */
    function Collect(metric: Labels, k: nat): seq<Point> {
      if k == 0 then []
      else
        var ts := TimeAt(k - 1);
        Collect(metric, k - 1) + Picks(OutAt(ts), |OutAt(ts)|, metric, ts)
    }

    ghost function StepVerdict(ts: int, room: int): Verdict {
      var n := CountAt(inputs, |inputs|, ts);
      if n > room then TooManySamples
      else if HasSameLabelset(OutAt(ts)) then SameLabelset
      else if n + |OutAt(ts)| > room then TooManySamples
      else Fine
    }

    /** How the first k steps end: with the first problem, if there is one. */
    ghost function VerdictOf(k: nat, room: int): Verdict {
      if k == 0 then Fine
      else if VerdictOf(k - 1, room) != Fine then VerdictOf(k - 1, room)
      else StepVerdict(TimeAt(k - 1), room - OutCount(k - 1))
    }
  }

  lemma {:induction false} FirstProblemStays(j: Job, k: nat, n: nat, room: int)
    requires k <= n && j.VerdictOf(k, room) != Fine
    ensures j.VerdictOf(n, room) == j.VerdictOf(k, room)
  {
    hide Job.StepVerdict, Job.OutCount;
    if k < n {
      FirstProblemStays(j, k, n - 1, room);
    }
  }

  /** A step fits: with the results so far, its inputs and its result are within the budget. */
  ghost predicate StepFits(j: Job, i: nat, room: int) {
    var ts := j.TimeAt(i);
    !HasSameLabelset(j.OutAt(ts)) && j.OutCount(i) + CountAt(j.inputs, |j.inputs|, ts) + |j.OutAt(ts)| <= room
  }

  lemma {:induction false} FineIffAllStepsFit(j: Job, k: nat, room: int)
    ensures j.VerdictOf(k, room) == Fine <==> forall i :: 0 <= i < k ==> StepFits(j, i, room)
  {
    hide Job.OutAt, HasSameLabelset, CountAt, Job.OutCount, Job.TimeAt;
    if k > 0 {
      FineIffAllStepsFit(j, k - 1, room);
      assert StepFits(j, k - 1, room) <==> j.StepVerdict(j.TimeAt(k - 1), room - j.OutCount(k - 1)) == Fine;
    }
  }

  /** The matrix holds exactly the series with a result, each with its points of all steps. */
  ghost predicate IsResult(j: Job, mat: Matrix, k: nat) {
    && (forall i :: 0 <= i < |mat| ==> mat[i].points == j.Collect(mat[i].metric, k) != [])
    && (forall i, h :: 0 <= i < h < |mat| ==> mat[i].metric != mat[h].metric)
    && (forall m :: j.Collect(m, k) != [] ==> exists i :: 0 <= i < |mat| && mat[i].metric == m)
  }

  ghost predicate Collected(j: Job, out: Output, k: nat) {
    NoneEmpty(out) && Total(out) == j.OutCount(k) && forall m :: Get(out, m) == j.Collect(m, k)
  }

  lemma CollectedIsResult(j: Job, out: Output, mat: Matrix, k: nat)
    requires Collected(j, out, k) && Lists(mat, out)
    ensures IsResult(j, mat, k)
  {
    hide Job.Collect, Total, Job.OutCount;
    forall m | j.Collect(m, k) != []
      ensures exists i :: 0 <= i < |mat| && mat[i].metric == m
    {
      assert Get(out, m) != [];
    }
    forall i | 0 <= i < |mat|
      ensures mat[i].points == j.Collect(mat[i].metric, k)
    {
      assert Get(out, mat[i].metric) == out[mat[i].metric];
    }
  }

  // ---------- What the result holds ----------

  /** The series among the first k that have a point at time ts, with that point, in order. */
  ghost predicate IsInput(m: Matrix, k: nat, ts: int, from: seq<nat>, v: Vector)
    requires k <= |m|
  {
    && |from| == |v| && (forall a, b :: 0 <= a < b < |from| ==> from[a] < from[b])
    && (forall a :: 0 <= a < |from| ==> from[a] < k && IsSampleOf(m[from[a]], ts, v[a]))
    && (forall i, x :: 0 <= i < k && Point(ts, x) in m[i].points ==> i in from)
  }

  predicate IsSampleOf(s: Series, ts: int, x: Sample) {
    x.metric == s.metric && x.t == ts && Point(ts, x.v) in s.points
  }

  lemma {:induction false} LookupMeans(s: Series, k: nat, ts: int)
    requires k <= |s.points|
    ensures Lookup(s, k, ts) == [] ==> forall x :: Point(ts, x) !in s.points[..k]
    ensures Lookup(s, k, ts) != [] ==> |Lookup(s, k, ts)| == 1 && IsSampleOf(s, ts, Lookup(s, k, ts)[0])
  {
    if k > 0 {
      LookupMeans(s, k - 1, ts);
      assert s.points[..k] == s.points[..k - 1] + [s.points[k - 1]];
      assert s.points[k - 1] in s.points;
    }
  }

  lemma NoMoreInput(m: Matrix, k: nat, ts: int, from: seq<nat>, v: Vector)
    requires k < |m| && IsInput(m, k, ts, from, v) && forall x :: Point(ts, x) !in m[k].points
    ensures IsInput(m, k + 1, ts, from, v)
  {
    hide IsSampleOf;
  }

  lemma OneMoreInput(m: Matrix, k: nat, ts: int, from: seq<nat>, v: Vector, x: Sample)
    requires k < |m| && IsInput(m, k, ts, from, v) && IsSampleOf(m[k], ts, x)
    ensures IsInput(m, k + 1, ts, from + [k], v + [x])
  {
    hide IsSampleOf;
    assert forall i :: i in from + [k] <==> i in from || i == k;
  }

  /** The input of a step is a lookup at its time. */
  lemma {:induction false} VectorIsInput(m: Matrix, k: nat, ts: int) returns (from: seq<nat>)
    requires k <= |m|
    ensures IsInput(m, k, ts, from, VectorAt(m, k, ts))
  {
    hide Lookup, IsSampleOf;
    from := [];
    if k > 0 {
      var s := m[k - 1];
      var more := Lookup(s, |s.points|, ts);
      from := VectorIsInput(m, k - 1, ts);
      LookupMeans(s, |s.points|, ts);
      assert s.points[..|s.points|] == s.points;
      if more == [] {
        NoMoreInput(m, k - 1, ts, from, VectorAt(m, k - 1, ts));
        assert VectorAt(m, k, ts) == VectorAt(m, k - 1, ts);
      } else {
        OneMoreInput(m, k - 1, ts, from, VectorAt(m, k - 1, ts), more[0]);
        assert more == [more[0]];
        from := from + [k - 1];
      }
    }
  }

  lemma {:induction false} VectorsAreVectors(inputs: seq<Matrix>, k: nat, ts: int, i: nat)
    requires i < k <= |inputs|
    ensures VectorsAt(inputs, k, ts)[i] == VectorAt(inputs[i], |inputs[i]|, ts)
  {
    if i < k - 1 {
      VectorsAreVectors(inputs, k - 1, ts, i);
    }
  }

  ghost predicate HasSample(v: Vector, n: nat, metric: Labels, x: real)
    requires n <= |v|
  {
    exists i :: 0 <= i < n && v[i].metric == metric && v[i].v == x
  }

  lemma {:induction false} PicksMean(v: Vector, n: nat, metric: Labels, ts: int, p: Point)
    requires n <= |v|
    ensures p in Picks(v, n, metric, ts) <==> p.t == ts && HasSample(v, n, metric, p.v)
  {
    if n > 0 {
      PicksMean(v, n - 1, metric, ts, p);
    }
  }

  /** What the function returns at time t has this sample. */
  ghost predicate Returns(j: Job, metric: Labels, t: int, x: real) {
    var out := j.f(t, VectorsAt(j.inputs, |j.inputs|, t));
    HasSample(out, |out|, metric, x)
  }

  /** The points collected in the first k steps, which lie before time TimeAt(k). */
  lemma {:induction false} CollectMeans(j: Job, metric: Labels, k: nat, p: Point)
    ensures OnGrid(j.g, j.TimeAt(k))
    ensures p in j.Collect(metric, k) <==>
      OnGrid(j.g, p.t) && p.t < j.TimeAt(k) && Returns(j, metric, p.t, p.v)
  {
    hide OnGrid, Returns, Picks;
    if k == 0 {
      FirstTime(j.g, p.t);
    } else {
      CollectMeans(j, metric, k - 1, p);
      var ts := j.TimeAt(k - 1);
      StepPoint(j, metric, ts, p);
      NextTime(j.g, ts);
      TimesBetween(j.g, ts, p.t);
    }
  }

  lemma StepPoint(j: Job, metric: Labels, ts: int, p: Point)
    ensures p in Picks(j.OutAt(ts), |j.OutAt(ts)|, metric, ts) <==> p.t == ts && Returns(j, metric, p.t, p.v)
  {
    PicksMean(j.OutAt(ts), |j.OutAt(ts)|, metric, ts, p);
  }

  lemma FirstTime(g: Grid, t: int)
    ensures OnGrid(g, g.start) && (OnGrid(g, t) ==> g.start <= t)
  {
  }

  lemma TimesBetween(g: Grid, ts: int, t: int)
    requires OnGrid(g, ts)
    ensures OnGrid(g, t) ==> (t < ts + g.interval <==> t <= ts)
  {
    if OnGrid(g, t) {
      MultiplesAreFarApart(ts - g.start, t - g.start, g.interval);
    }
  }

  /** The steps end where the query ends. */
  lemma {:induction false} StepsEnd(j: Job, k: nat, t: int)
    requires OnGrid(j.g, j.TimeAt(k)) && OnGrid(j.g, t) && (k == 0 || j.TimeAt(k) - j.g.interval <= j.g.end)
    ensures t < j.TimeAt(k + j.StepsFrom(j.TimeAt(k))) <==> t <= j.g.end || t < j.TimeAt(k)
    decreases if j.TimeAt(k) <= j.g.end then j.g.end - j.TimeAt(k) + 1 else 0
  {
    hide OnGrid;
    var ts := j.TimeAt(k);
    if ts <= j.g.end {
      NextTime(j.g, ts);
      assert j.TimeAt(k + 1) == ts + j.g.interval;
      StepsEnd(j, k + 1, t);
      TimesBetween(j.g, ts, t);
    }
  }

  predicate InTimeOrder(ps: seq<Point>) {
    forall a, b :: 0 <= a < b < |ps| ==> ps[a].t < ps[b].t
  }

  lemma {:induction false} PicksAtMostOne(v: Vector, n: nat, metric: Labels, ts: int)
    requires n <= |v| && !HasSameLabelset(v)
    ensures |Picks(v, n, metric, ts)| <= 1
    ensures Picks(v, n, metric, ts) != [] ==> exists i :: 0 <= i < n && v[i].metric == metric
  {
    if n > 0 {
      PicksAtMostOne(v, n - 1, metric, ts);
    }
  }

  lemma {:induction false} CollectIsOrdered(j: Job, metric: Labels, k: nat, room: int)
    requires j.VerdictOf(k, room) == Fine
    ensures InTimeOrder(j.Collect(metric, k))
  {
    hide Picks, Returns, Job.OutAt, OnGrid;
    if k > 0 {
      var ts := j.TimeAt(k - 1);
      var before, more := j.Collect(metric, k - 1), Picks(j.OutAt(ts), |j.OutAt(ts)|, metric, ts);
      CollectIsOrdered(j, metric, k - 1, room);
      PicksAtMostOne(j.OutAt(ts), |j.OutAt(ts)|, metric, ts);
      forall i | 0 <= i < |before|
        ensures before[i].t < ts
      {
        CollectMeans(j, metric, k - 1, before[i]);
      }
      if more != [] {
        PicksMean(j.OutAt(ts), |j.OutAt(ts)|, metric, ts, more[0]);
      }
    }
  }

  /**
   The result of a query: for each metric at most one series, in time order, with exactly the points
   that the function returns at the steps, each for the inputs at its own time.
   */
  ghost predicate Answers(j: Job, mat: Matrix) {
    && (forall i, h :: 0 <= i < h < |mat| ==> mat[i].metric != mat[h].metric)
    && (forall i :: 0 <= i < |mat| ==> mat[i].points != [] && InTimeOrder(mat[i].points))
    && (forall metric, p :: HasPoint(mat, metric, p) <==>
          PromqlAst.Step(j.g, p.t) && Returns(j, metric, p.t, p.v))
  }

  ghost predicate HasPoint(mat: Matrix, metric: Labels, p: Point) {
    exists i :: 0 <= i < |mat| && mat[i].metric == metric && p in mat[i].points
  }

  lemma PointIff(j: Job, mat: Matrix, metric: Labels, p: Point)
    requires IsResult(j, mat, j.StepsFrom(j.g.start))
    ensures HasPoint(mat, metric, p) <==> PromqlAst.Step(j.g, p.t) && Returns(j, metric, p.t, p.v)
  {
    hide Returns, Job.Collect;
    var n := j.StepsFrom(j.g.start);
    CollectMeans(j, metric, n, p);
    FirstTime(j.g, p.t);
    if OnGrid(j.g, p.t) {
      StepsEnd(j, 0, p.t);
    }
    assert p in j.Collect(metric, n) <==> PromqlAst.Step(j.g, p.t) && Returns(j, metric, p.t, p.v);
  }

  lemma ResultAnswers(j: Job, mat: Matrix, room: int)
    requires IsResult(j, mat, j.StepsFrom(j.g.start)) && j.VerdictOf(j.StepsFrom(j.g.start), room) == Fine
    ensures Answers(j, mat)
  {
    hide Returns, Job.Collect, Job.VerdictOf, Job.StepsFrom, InTimeOrder, HasPoint;
    var n := j.StepsFrom(j.g.start);
    forall i | 0 <= i < |mat|
      ensures InTimeOrder(mat[i].points)
    {
      CollectIsOrdered(j, mat[i].metric, n, room);
    }
    forall metric, p
      ensures HasPoint(mat, metric, p) <==> PromqlAst.Step(j.g, p.t) && Returns(j, metric, p.t, p.v)
    {
      PointIff(j, mat, metric, p);
    }
  }

  /** One step: gather, call, check (engine.go:1153-1203). */
  method Step(j: Job, m: seq<Matrix>, ts: int, temp: int, maxSamples: int)
    returns (result: Vector, rest: seq<Matrix>, verdict: Verdict)
    requires InputsAligned(j.g, j.inputs) && InputsRemain(j.inputs, m, ts) && OnGrid(j.g, ts) && temp <= maxSamples
    ensures verdict == j.StepVerdict(ts, maxSamples - temp)
    ensures verdict == Fine ==> result == j.OutAt(ts) && temp + |result| <= maxSamples
    ensures verdict == Fine ==> InputsRemain(j.inputs, rest, ts + j.g.interval)
  {
    hide InputsAligned, InputsRemain, OnGrid, VectorsAt, CountAt, HasSameLabelset;
    var vectors, current, tooMany;
    vectors, rest, current, tooMany := GatherAll(j.g, m, ts, temp, maxSamples, j.inputs);
    result := [];
    if tooMany {
      return result, rest, TooManySamples;
    }
    result := j.f(ts, vectors);
    var same := ContainsSameLabelset(result);
    if same {
      return result, rest, SameLabelset;
    }
    verdict := if current + |result| > maxSamples then TooManySamples else Fine;
  }

  /** One series for each sample of a vector, in the same order. */
  ghost predicate IsVector(mat: Matrix, v: Vector, ts: int) {
    |mat| == |v| && forall i :: 0 <= i < |mat| ==> mat[i] == Series(v[i].metric, [Point(ts, v[i].v)])
  }

  /** The shortcut for instant queries keeps the order of the result (engine.go:1207-1216). */
  method AsMatrix(result: Vector, ts: int) returns (mat: Matrix)
    ensures IsVector(mat, result, ts)
    ensures TotalSamples(mat) == |result|
  {
    mat := [];
    for i := 0 to |result|
      invariant |mat| == i && TotalSamples(mat) == i
      invariant forall h :: 0 <= h < i ==> mat[h] == Series(result[h].metric, [Point(ts, result[h].v)])
    {
      TotalOfOneMore(mat, Series(result[i].metric, [Point(ts, result[i].v)]));
      mat := mat + [Series(result[i].metric, [Point(ts, result[i].v)])];
    }
  }

  /** A query of one step returns from within that step. */
  method EvaluateInstant(j: Job, original: int, current: int, maxSamples: int)
    returns (mat: Matrix, now: int, verdict: Verdict)
    requires InputsAligned(j.g, j.inputs) && original <= current <= maxSamples && j.g.start == j.g.end
    ensures verdict == j.VerdictOf(j.StepsFrom(j.g.start), maxSamples - current)
    ensures verdict == Fine ==> now == original + TotalSamples(mat) <= maxSamples
    ensures verdict == Fine ==> TotalSamples(mat) == j.OutCount(j.StepsFrom(j.g.start))
    ensures verdict == Fine ==>
      var t := j.g.start; IsVector(mat, j.f(t, VectorsAt(j.inputs, |j.inputs|, t)), t)
  {
    var ts := j.g.start;
    Start(j, current, maxSamples);
    assert j.StepsFrom(ts) == 1;
    NextStep(j, ts, 0, maxSamples - current);
    hide InputsRemain, InputsAligned, OnGrid, Job.StepVerdict, Job.OutAt, Job.StepsFrom, TotalSamples, IsVector;
    var result, rest;
    result, rest, verdict := Step(j, j.inputs, ts, current, maxSamples);
    mat, now := [], current;
    if verdict == Fine {
      mat := AsMatrix(result, ts);
      now := original + |result|;
    }
  }

  /** A query of several steps, or of none, collects the output series. */
  method EvaluateRange(j: Job, original: int, current: int, maxSamples: int)
    returns (mat: Matrix, now: int, verdict: Verdict)
    requires InputsAligned(j.g, j.inputs) && original <= current <= maxSamples
    ensures verdict == j.VerdictOf(j.StepsFrom(j.g.start), maxSamples - current)
    ensures verdict == Fine ==> now == original + TotalSamples(mat) <= maxSamples
    ensures verdict == Fine ==> TotalSamples(mat) == j.OutCount(j.StepsFrom(j.g.start))
    ensures verdict == Fine ==> IsResult(j, mat, j.StepsFrom(j.g.start)) && Answers(j, mat)
  {
    hide *;
    mat, now, verdict := [], current, Fine;
    var out: Output := map[];
    var rest, ts, temp := j.inputs, j.g.start, current;
    ghost var k := 0;
    Start(j, current, maxSamples);
    while ts <= j.g.end
      invariant Running(j, k, ts, rest, out, temp, current, maxSamples) && k + j.StepsFrom(ts) == j.StepsFrom(j.g.start)
      invariant verdict == j.VerdictOf(k, maxSamples - current) == Fine
      decreases if ts <= j.g.end then j.g.end - ts + 1 else 0
    {
      OneStepLess(j, ts);
      out, rest, temp, verdict := RunStep(j, k, ts, rest, out, temp, current, maxSamples);
      if verdict != Fine {
        FirstProblemStays(j, k + 1, j.StepsFrom(j.g.start), maxSamples - current);
        return;
      }
      ts := ts + j.g.interval;
      k := k + 1;
    }
    OneStepLess(j, ts);
    mat := Finish(j, k, ts, rest, out, temp, current, maxSamples);
    ResultAnswers(j, mat, maxSamples - current);
    now := original + TotalSamples(mat);
  }

  /** The state before step k: the results so far are in memory, and the inputs from ts on remain. */
  ghost predicate Running(j: Job, k: nat, ts: int, rest: seq<Matrix>, out: Output, temp: int, current: int,
                          maxSamples: int)
  {
    && ts == j.TimeAt(k) && OnGrid(j.g, ts) && InputsRemain(j.inputs, rest, ts)
    && temp == current + j.OutCount(k) && temp <= maxSamples
    && Collected(j, out, k)
  }

  /** One step that goes on to the next (engine.go:1148-1233). */
  method RunStep(j: Job, ghost k: nat, ts: int, rest0: seq<Matrix>, out0: Output, temp0: int, ghost current: int,
                 maxSamples: int)
    returns (out: Output, rest: seq<Matrix>, temp: int, verdict: Verdict)
    requires InputsAligned(j.g, j.inputs) && Running(j, k, ts, rest0, out0, temp0, current, maxSamples)
    requires j.VerdictOf(k, maxSamples - current) == Fine
    ensures verdict == j.VerdictOf(k + 1, maxSamples - current)
    ensures verdict == Fine ==> Running(j, k + 1, ts + j.g.interval, rest, out, temp, current, maxSamples)
  {
    hide OnGrid, InputsRemain, InputsAligned, Collected, Job.StepVerdict, Job.OutAt, Job.OutCount, Job.TimeAt;
    hide Job.VerdictOf, Job.StepsFrom, Job.Collect;
    NextStep(j, ts, k, maxSamples - current);
    NextTime(j.g, ts);
    var result;
    result, rest, verdict := Step(j, rest0, ts, temp0, maxSamples);
    out, temp := out0, temp0 + |result|;
    if verdict == Fine {
      out := AddStep(j, out, result, ts, k);
    }
  }

  method Finish(j: Job, ghost k: nat, ghost ts: int, ghost rest: seq<Matrix>, out: Output, ghost temp: int,
                ghost current: int, ghost maxSamples: int) returns (mat: Matrix)
    requires Running(j, k, ts, rest, out, temp, current, maxSamples)
    ensures IsResult(j, mat, k) && TotalSamples(mat) == j.OutCount(k) && current + TotalSamples(mat) <= maxSamples
  {
    hide Job.Collect, Total, Job.OutCount, NoneEmpty, Get, Lists, InputsRemain;
    mat := Assemble(out);
    CollectedIsResult(j, out, mat, k);
  }

  lemma NextStep(j: Job, ts: int, k: nat, room: int)
    requires ts == j.TimeAt(k) && j.VerdictOf(k, room) == Fine
    ensures j.TimeAt(k + 1) == ts + j.g.interval
    ensures j.OutCount(k + 1) == j.OutCount(k) + |j.OutAt(ts)|
    ensures j.VerdictOf(k + 1, room) == j.StepVerdict(ts, room - j.OutCount(k))
  {
    hide Job.OutAt, Job.StepVerdict;
  }

  lemma Start(j: Job, current: int, maxSamples: int)
    requires InputsAligned(j.g, j.inputs) && current <= maxSamples
    ensures Running(j, 0, j.g.start, j.inputs, map[], current, current, maxSamples)
    ensures j.VerdictOf(0, maxSamples - current) == Fine
  {
  }

  lemma OneStepLess(j: Job, ts: int)
    ensures j.StepsFrom(ts) == if j.g.end < ts then 0 else 1 + j.StepsFrom(ts + j.g.interval)
  {
  }

  lemma NextTime(g: Grid, ts: int)
    requires OnGrid(g, ts)
    ensures OnGrid(g, ts + g.interval)
  {
    DivModUnique(ts + g.interval - g.start, g.interval, (ts - g.start) / g.interval + 1, 0);
  }

  method AddStep(j: Job, out0: Output, result: Vector, ts: int, ghost k: nat) returns (out: Output)
    requires Collected(j, out0, k) && result == j.OutAt(ts) && ts == j.TimeAt(k)
    ensures Collected(j, out, k + 1)
  {
    hide Total, Job.OutAt, NoneEmpty, Get;
    out := AddResult(out0, result, ts);
  }
}
