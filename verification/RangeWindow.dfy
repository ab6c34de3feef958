/**
 Range-vector windows (pkg/promql/engine.go:1476-1554, 1935-1990). For each step the evaluator
 keeps the points of the last window that are still in range and reads only the new ones from
 a buffered iterator, whose buffer shrinks to one step. The meaning of a window is `Window`,
 a filter of the whole series.
 */
module RangeWindow {
  import opened Arith

  datatype Sample = Sample(t: int, v: real, stale: bool)
  datatype Point = Point(t: int, v: real)

  ghost predicate Increasing(s: seq<Sample>) {
    forall i, j :: 0 <= i < j < |s| ==> s[i].t < s[j].t
  }

  // ---------- What a window is ----------

  predicate Inside(x: Sample, lo: int, hi: int) {
    !x.stale && lo <= x.t <= hi
  }

  /** The points of the series from lo to hi, both included, in order. */
  function Window(s: seq<Sample>, lo: int, hi: int): (r: seq<Point>)
    ensures |r| <= |s|
    ensures forall i :: 0 <= i < |r| ==> lo <= r[i].t <= hi
  {
    if s == [] then []
    else
      var x, rest := s[|s| - 1], Window(s[..|s| - 1], lo, hi);
      if Inside(x, lo, hi) then rest + [Point(x.t, x.v)] else rest
  }

  lemma {:induction false} WindowIsEmpty(s: seq<Sample>, lo: int, hi: int)
    ensures Window(s, lo, hi) == [] <==> forall i :: 0 <= i < |s| ==> !Inside(s[i], lo, hi)
  {
    if s != [] {
      WindowIsEmpty(s[..|s| - 1], lo, hi);
      assert Window(s, lo, hi) == [] <==> Window(s[..|s| - 1], lo, hi) == [] && !Inside(s[|s| - 1], lo, hi);
    }
  }

  lemma {:induction false} WindowSplit(s: seq<Sample>, k: nat, lo: int, hi: int)
    requires k <= |s|
    ensures Window(s, lo, hi) == Window(s[..k], lo, hi) + Window(s[k..], lo, hi)
  {
    if k == |s| {
      assert s[..k] == s;
    } else {
      var rest := s[..|s| - 1];
      WindowSplit(rest, k, lo, hi);
      assert rest[..k] == s[..k] && s[k..][..|s| - 1 - k] == rest[k..] && s[k..][|s| - 1 - k] == s[|s| - 1];
    }
  }

  /** A window is the window up to some time followed by the window after it. */
  lemma {:induction false} WindowJoin(s: seq<Sample>, lo: int, mid: int, hi: int)
    requires Increasing(s) && lo <= mid <= hi + 1
    ensures Window(s, lo, hi) == Window(s, lo, mid - 1) + Window(s, mid, hi)
  {
    if s != [] {
      var rest, x := s[..|s| - 1], s[|s| - 1];
      WindowJoin(rest, lo, mid, hi);
      if x.t < mid {
        WindowIsEmpty(rest, mid, hi);
      }
    }
  }

  /** Only part of the series has to be read, if the rest is out of range. */
  lemma WindowOfPart(s: seq<Sample>, a: nat, b: nat, lo: int, hi: int)
    requires a <= b <= |s|
    requires forall i :: 0 <= i < a || b <= i < |s| ==> !Inside(s[i], lo, hi)
    ensures Window(s[a..b], lo, hi) == Window(s, lo, hi)
  {
    WindowSplit(s, b, lo, hi);
    WindowSplit(s[..b], a, lo, hi);
    WindowIsEmpty(s[b..], lo, hi);
    WindowIsEmpty(s[..a], lo, hi);
    assert s[..b][..a] == s[..a] && s[..b][a..] == s[a..b];
  }

  lemma {:induction false} WindowIncreasing(s: seq<Sample>, lo: int, hi: int)
    requires Increasing(s)
    ensures forall i, j :: 0 <= i < j < |Window(s, lo, hi)| ==> Window(s, lo, hi)[i].t < Window(s, lo, hi)[j].t
  {
    if s != [] {
      var rest, x := s[..|s| - 1], s[|s| - 1];
      WindowIncreasing(rest, lo, hi);
      if Inside(x, lo, hi) {
        WindowJoin(rest, lo, x.t, hi);
        WindowIsEmpty(rest, x.t, hi);
      }
    }
  }

  // ---------- The buffered iterator ----------

  /**
   What the evaluator knows of storage.BufferedSeriesIterator: after a seek, the buffer is a
   run of points before the target that holds at least those of the last `delta` milliseconds.
   */
  class BufferedIterator {
    const series: seq<Sample>
    var delta: int
    var first: nat
    var pos: nat

    constructor (series: seq<Sample>, delta: int)
      ensures this.series == series && this.delta == delta
    {
      this.series, this.delta := series, delta;
      first, pos := 0, 0;
    }

    ghost predicate At(t: int)
      reads this
    {
      && first <= pos <= |series|
      && (forall i :: 0 <= i < pos ==> series[i].t < t)
      && (forall i :: pos <= i < |series| ==> t <= series[i].t)
      && (forall i :: 0 <= i < first ==> series[i].t < t - delta)
    }

    method Seek(t: int) returns (ok: bool)
      requires Increasing(series)
      modifies this`first, this`pos
      ensures At(t) && ok == (pos < |series|)
    {
      pos := 0;
      var late := 0;
      while pos < |series| && series[pos].t < t
        invariant late <= pos <= |series|
        invariant forall i :: 0 <= i < pos ==> series[i].t < t
        invariant forall i :: 0 <= i < late ==> series[i].t < t - delta
      {
        if late == pos && series[pos].t < t - delta {
          late := late + 1;
        }
        pos := pos + 1;
      }
      var oldest :| 0 <= oldest <= late;
      first := oldest;
      return pos < |series|;
    }

    method ReduceDelta(d: int)
      modifies this`delta
      ensures delta == if d < old(delta) then d else old(delta)
    {
      if d < delta {
        delta := d;
      }
    }
  }

  // ---------- Reading one window ----------

  /** `out` is the window of an earlier step, and the buffer reaches back to what it has not seen. */
  ghost predicate Continues(s: seq<Sample>, out: seq<Point>, prevMin: int, prevMax: int, mint: int, maxt: int,
                            delta: int)
  {
    && Increasing(s) && prevMin <= mint <= maxt && prevMin <= prevMax + 1 && prevMax < maxt
    && out == Window(s, prevMin, prevMax)
    && maxt - delta <= (if mint <= prevMax then prevMax + 1 else mint)
  }

  lemma DropsTheFirstPart(before: seq<Point>, kept: seq<Point>, mint: int, drop: nat)
    requires forall i :: 0 <= i < |before| ==> before[i].t < mint
    requires forall i :: 0 <= i < |kept| ==> mint <= kept[i].t
    requires drop <= |before + kept| && (forall i :: 0 <= i < drop ==> (before + kept)[i].t < mint)
    requires drop < |before + kept| ==> mint <= (before + kept)[drop].t
    ensures drop == |before|
  {
    assert forall i :: 0 <= i < |before| ==> (before + kept)[i] == before[i];
    assert kept != [] ==> (before + kept)[|before|] == kept[0];
  }

  /** The carried-over points are the first part of the new window; `from` is where the rest starts. */
  lemma CarriedOver(s: seq<Sample>, out: seq<Point>, prevMin: int, prevMax: int, mint: int, maxt: int, delta: int,
                    drop: nat, from: int)
    requires Continues(s, out, prevMin, prevMax, mint, maxt, delta)
    requires drop <= |out| && (forall i :: 0 <= i < drop ==> out[i].t < mint) && (drop < |out| ==> mint <= out[drop].t)
    requires from == if drop < |out| then out[|out| - 1].t + 1 else mint
    ensures mint <= from <= maxt && Window(s, mint, maxt) == out[drop..] + Window(s, from, maxt)
    ensures forall i :: 0 <= i < |s| && s[i].t < maxt - delta ==> !Inside(s[i], from, maxt)
  {
    if mint <= prevMax {
      WindowJoin(s, prevMin, mint, prevMax);
      var before, kept := Window(s, prevMin, mint - 1), Window(s, mint, prevMax);
      DropsTheFirstPart(before, kept, mint, drop);
      assert out[drop..] == kept;
      StillKept(s, kept, mint, prevMax, maxt, from);
    } else {
      assert drop == |out|;
    }
  }

  lemma StillKept(s: seq<Sample>, kept: seq<Point>, mint: int, prevMax: int, maxt: int, from: int)
    requires Increasing(s) && mint <= prevMax < maxt && kept == Window(s, mint, prevMax)
    requires from == if kept == [] then mint else kept[|kept| - 1].t + 1
    ensures mint <= from <= maxt && Window(s, mint, maxt) == kept + Window(s, from, maxt)
    ensures forall i :: 0 <= i < |s| && s[i].t <= prevMax ==> !Inside(s[i], from, maxt)
  {
    LastPoint(s, mint, prevMax);
    WindowJoin(s, mint, prevMax + 1, maxt);
    WindowJoin(s, from, prevMax + 1, maxt);
    WindowIsEmpty(s, from, prevMax);
  }

  /** After its last point a window holds nothing. */
  lemma LastPoint(s: seq<Sample>, lo: int, hi: int)
    requires Increasing(s) && lo <= hi + 1
    ensures var w := Window(s, lo, hi);
      Window(s, if w == [] then lo else w[|w| - 1].t + 1, hi) == []
  {
    var w := Window(s, lo, hi);
    if w != [] {
      var last := w[|w| - 1].t;
      WindowJoin(s, lo, last + 1, hi);
    }
  }

  // ---------- A range function over all steps and series ----------

  datatype Series = Series(metric: string, samples: seq<Sample>)
  datatype Output = Nothing | Value(v: real)

  /** The steps of a query, the selector, and the function that is called for each window. */
  datatype Call = Call(start: int, end: int, interval: int, range: nat, offset: int, f: (int, seq<Point>) -> Output)
  {
    ghost predicate Valid() {
      0 < interval
    }

    /** From the second step on, only this much is buffered. */
    function StepRange(): int {
      if interval < range then interval else range
    }

    /** The window of step ts. */
    function At(s: seq<Sample>, ts: int): seq<Point> {
      Window(s, ts - offset - range, ts - offset)
    }

    /** What step ts adds to the result of a series: nothing for an empty window. */
    function Result(s: seq<Sample>, ts: int): seq<Point> {
      var points := At(s, ts);
      if points == [] then []
      else match f(ts, points) case Nothing => [] case Value(v) => [Point(ts, v)]
    }

    /** The results of all steps from ts on, each from its own window. */
    function Results(s: seq<Sample>, ts: int): seq<Point>
      requires 0 < interval
      decreases if ts <= end then end - ts + 1 else 0
    {
      if end < ts then [] else Result(s, ts) + Results(s, ts + interval)
    }

    /** Every window from step ts on has at most `room` points. */
    predicate WindowsFit(s: seq<Sample>, ts: int, room: int)
      requires 0 < interval
      decreases if ts <= end then end - ts + 1 else 0
    {
      end < ts || (|At(s, ts)| <= room && WindowsFit(s, ts + interval, room))
    }

    /** The window that is left over after the last step. */
    function LastWindow(s: seq<Sample>, ts: int, points: seq<Point>): seq<Point>
      requires 0 < interval
      decreases if ts <= end then end - ts + 1 else 0
    {
      if end < ts then points else LastWindow(s, ts + interval, At(s, ts))
    }

    function ResultOf(x: Series): seq<ResultSeries>
      requires 0 < interval
    {
      if Results(x.samples, start) == [] then [] else [ResultSeries(x.metric, Results(x.samples, start))]
    }

    /** `room` is enough for one series: for each window, and for the last one beside the result. */
    predicate SeriesFits(s: seq<Sample>, room: int)
      requires 0 < interval
    {
      && WindowsFit(s, start, room)
      && (Results(s, start) == [] || |LastWindow(s, start, [])| + |Results(s, start)| <= room)
    }

    /** The range that the points carried over to step ts cover: nothing before the first step. */
    function PrevMin(ts: int): int {
      if ts == start then ts - offset - range else ts - offset - range - interval
    }

    function PrevMax(ts: int): int {
      if ts == start then ts - offset - range - 1 else ts - offset - interval
    }
  }

  datatype ResultSeries = ResultSeries(metric: string, points: seq<Point>)

  /** The results of the first k series, for those that have one. */
  function ResultMatrix(c: Call, list: seq<Series>, k: nat): seq<ResultSeries>
    requires c.Valid() && k <= |list|
  {
    if k == 0 then [] else ResultMatrix(c, list, k - 1) + c.ResultOf(list[k - 1])
  }

  function TotalSamples(m: seq<ResultSeries>): nat {
    if m == [] then 0 else TotalSamples(m[..|m| - 1]) + |m[|m| - 1].points|
  }

  /** The budget is enough for the first k series, when `room` points fit on entry. */
  predicate Fits(c: Call, list: seq<Series>, k: nat, room: int)
    requires c.Valid() && k <= |list|
  {
    if k == 0 then true
    else
      var used := TotalSamples(ResultMatrix(c, list, k - 1));
      Fits(c, list, k - 1, room) && c.SeriesFits(list[k - 1].samples, room - used)
  }

  lemma {:induction false} FitsPrefix(c: Call, list: seq<Series>, k: nat, n: nat, room: int)
    requires c.Valid() && k <= n <= |list| && Fits(c, list, n, room)
    ensures Fits(c, list, k, room)
  {
    hide Call.SeriesFits, ResultMatrix, TotalSamples;
    if k < n {
      FitsPrefix(c, list, k, n - 1, room);
    }
  }

  lemma FirstStep(c: Call, s: seq<Sample>, ts: int, done: seq<Point>, points: seq<Point>, room: int)
    requires c.Valid() && ts <= c.end
    ensures done + c.Results(s, ts) == done + c.Result(s, ts) + c.Results(s, ts + c.interval)
    ensures c.WindowsFit(s, ts, room) <==> |c.At(s, ts)| <= room && c.WindowsFit(s, ts + c.interval, room)
    ensures c.LastWindow(s, ts, points) == c.LastWindow(s, ts + c.interval, c.At(s, ts))
  {
    hide Call.Result, Call.At;
    assert done + (c.Result(s, ts) + c.Results(s, ts + c.interval)) ==
        done + c.Result(s, ts) + c.Results(s, ts + c.interval);
  }

  /** Each step continues the window of the last one, although the buffer has shrunk to one step. */
  lemma StepContinues(c: Call, s: seq<Sample>, ts: int, points: seq<Point>, delta: int)
    requires c.Valid() && Increasing(s)
    requires points == if ts == c.start then [] else c.At(s, ts - c.interval)
    requires delta == c.range || (ts != c.start && delta == c.StepRange())
    ensures Continues(s, points, c.PrevMin(ts), c.PrevMax(ts), ts - c.offset - c.range, ts - c.offset, delta)
  {
    if ts == c.start {
      WindowIsEmpty(s, c.PrevMin(ts), c.PrevMax(ts));
    }
  }

  lemma TotalOfOneMore(c: Call, m: seq<ResultSeries>, x: Series)
    requires c.Valid()
    ensures TotalSamples(m + c.ResultOf(x)) == TotalSamples(m) + |c.Results(x.samples, c.start)|
  {
    hide Call.Results;
    if c.ResultOf(x) != [] {
      assert (m + c.ResultOf(x))[..|m|] == m;
    } else {
      assert m + [] == m;
    }
  }

  ghost predicate AllIncreasing(list: seq<Series>) {
    forall x :: x in list ==> Increasing(x.samples)
  }

  // ---------- What the results are, without the functions above ----------

  /** A window holds the samples from lo to hi that are not stale, and nothing else, in time order. */
  lemma {:induction false} WindowHolds(s: seq<Sample>, lo: int, hi: int)
    requires Increasing(s)
    ensures forall p :: p in Window(s, lo, hi) <==>
      exists i :: 0 <= i < |s| && !s[i].stale && lo <= s[i].t <= hi && p == Point(s[i].t, s[i].v)
    ensures InTimeOrder(Window(s, lo, hi))
  {
    if s != [] {
      var n := |s| - 1;
      WindowHolds(s[..n], lo, hi);
      var rest := Window(s[..n], lo, hi);
      forall p | p in rest
        ensures p.t < s[n].t
      {
        var i :| 0 <= i < n && !s[..n][i].stale && lo <= s[..n][i].t <= hi && p == Point(s[..n][i].t, s[..n][i].v);
      }
      forall p
        ensures p in Window(s, lo, hi) <==>
          exists i :: 0 <= i < |s| && !s[i].stale && lo <= s[i].t <= hi && p == Point(s[i].t, s[i].v)
      {
        WindowPoint(s, lo, hi, p);
      }
    }
  }

  lemma WindowPoint(s: seq<Sample>, lo: int, hi: int, p: Point)
    requires s != []
    requires p in Window(s[..|s| - 1], lo, hi) <==>
      exists i :: 0 <= i < |s| - 1 && !s[i].stale && lo <= s[i].t <= hi && p == Point(s[i].t, s[i].v)
    ensures p in Window(s, lo, hi) <==>
      exists i :: 0 <= i < |s| && !s[i].stale && lo <= s[i].t <= hi && p == Point(s[i].t, s[i].v)
  {
    var n := |s| - 1;
    if Inside(s[n], lo, hi) && p == Point(s[n].t, s[n].v) {
      assert !s[n].stale && lo <= s[n].t <= hi;
    }
  }

  predicate InTimeOrder(ps: seq<Point>) {
    forall i, j :: 0 <= i < j < |ps| ==> ps[i].t < ps[j].t
  }

  /** The point is the value of the function at a step, for a window that is not empty. */
  ghost predicate IsResult(c: Call, s: seq<Sample>, p: Point) {
    var window := Window(s, p.t - c.offset - c.range, p.t - c.offset);
    window != [] && c.f(p.t, window) == Value(p.v)
  }

  ghost predicate IsStep(c: Call, from: int, t: int)
    requires c.Valid()
  {
    from <= t <= c.end && (t - from) % c.interval == 0
  }

  /** In time order, exactly the results at the steps from some step on. */
  ghost predicate AnswersFrom(c: Call, s: seq<Sample>, from: int, ps: seq<Point>)
    requires c.Valid()
  {
    InTimeOrder(ps) && forall p :: p in ps <==> IsStep(c, from, p.t) && IsResult(c, s, p)
  }

  /** The steps from `from` on are that one and the steps from the next on. */
  lemma NextStep(c: Call, from: int, t: int)
    requires c.Valid() && from <= c.end
    ensures IsStep(c, from, t) <==> t == from || IsStep(c, from + c.interval, t)
  {
    var k := c.interval;
    if from < t && (t - from) % k == 0 {
      StepsBack(t - from, k);
    }
    if from + k <= t {
      StepsBack(t - from, k);
    }
  }

  lemma StepsBack(d: int, k: int)
    requires 0 < k && 0 < d
    ensures d % k == 0 ==> d >= k
    ensures d >= k ==> (d - k) % k == d % k
  {
    if d >= k {
      DivModUnique(d - k, k, d / k - 1, d % k);
    }
  }

  lemma ResultAnswers(c: Call, s: seq<Sample>, ts: int, p: Point)
    ensures p in c.Result(s, ts) <==> p.t == ts && IsResult(c, s, p)
  {
  }

  lemma {:induction false} ResultsAnswer(c: Call, s: seq<Sample>, ts: int)
    requires c.Valid()
    ensures AnswersFrom(c, s, ts, c.Results(s, ts))
    decreases if ts <= c.end then c.end - ts + 1 else 0
  {
    hide IsResult, Call.Result;
    if ts <= c.end {
      ResultsAnswer(c, s, ts + c.interval);
      var first, rest := c.Result(s, ts), c.Results(s, ts + c.interval);
      forall p
        ensures p in first <==> p.t == ts && IsResult(c, s, p)
        ensures IsStep(c, ts, p.t) <==> p.t == ts || IsStep(c, ts + c.interval, p.t)
      {
        ResultAnswers(c, s, ts, p);
        NextStep(c, ts, p.t);
      }
      OneResult(c, s, ts);
      assert forall i :: 0 <= i < |rest| ==> rest[i] in rest;
      assert first != [] ==> first[0] in first;
    }
  }

  lemma OneResult(c: Call, s: seq<Sample>, ts: int)
    ensures |c.Result(s, ts)| <= 1
  {
  }

  /**
   The matrix lists, in order, the series with results, each with exactly its results; `from` says
   which series of the list each of them is.
   */
  ghost predicate IsAnswer(c: Call, list: seq<Series>, n: nat, mat: seq<ResultSeries>, from: seq<nat>)
    requires c.Valid() && n <= |list|
  {
    && |from| == |mat|
    && (forall i, j :: 0 <= i < j < |from| ==> from[i] < from[j])
    && (forall i :: 0 <= i < |from| ==> from[i] < n && AnswersSeries(c, list[from[i]], mat[i]))
    && (forall k :: 0 <= k < n && k !in from ==> AnswersFrom(c, list[k].samples, c.start, []))
  }

  ghost predicate AnswersSeries(c: Call, x: Series, r: ResultSeries)
    requires c.Valid()
  {
    r.metric == x.metric && r.points != [] && AnswersFrom(c, x.samples, c.start, r.points)
  }

  /** One more series. */
  lemma OneMoreAnswer(c: Call, list: seq<Series>, n: nat, mat: seq<ResultSeries>, from: seq<nat>,
                      more: seq<ResultSeries>)
    requires c.Valid() && n < |list| && IsAnswer(c, list, n, mat, from) && |more| <= 1
    requires if more == [] then AnswersFrom(c, list[n].samples, c.start, []) else AnswersSeries(c, list[n], more[0])
    ensures IsAnswer(c, list, n + 1, mat + more, if more == [] then from else from + [n])
  {
    hide AnswersFrom, AnswersSeries;
    if more == [] {
      assert mat + more == mat;
    } else {
      assert mat + more == mat + [more[0]];
      assert forall k :: k in from + [n] <==> k in from || k == n;
    }
  }

  lemma {:induction false} MatrixAnswers(c: Call, list: seq<Series>, n: nat) returns (from: seq<nat>)
    requires c.Valid() && n <= |list|
    ensures IsAnswer(c, list, n, ResultMatrix(c, list, n), from)
  {
    hide AnswersFrom, Call.Results, IsAnswer;
    from := [];
    if n == 0 {
      NothingAnswers(c, list);
    } else {
      var before := MatrixAnswers(c, list, n - 1);
      ResultsAnswer(c, list[n - 1].samples, c.start);
      var more := c.ResultOf(list[n - 1]);
      OneMoreAnswer(c, list, n - 1, ResultMatrix(c, list, n - 1), before, more);
      from := if more == [] then before else before + [n - 1];
    }
  }

  lemma NothingAnswers(c: Call, list: seq<Series>)
    requires c.Valid()
    ensures IsAnswer(c, list, 0, [], [])
  {
  }

  predicate WindowFits(c: Call, s: seq<Sample>, t: int, room: int) {
    |Window(s, t - c.offset - c.range, t - c.offset)| <= room
  }

  /** The budget for windows, step by step. */
  lemma {:induction false} WindowsFitIff(c: Call, s: seq<Sample>, ts: int, room: int)
    requires c.Valid()
    ensures c.WindowsFit(s, ts, room) <==> forall t :: IsStep(c, ts, t) ==> WindowFits(c, s, t, room)
    decreases if ts <= c.end then c.end - ts + 1 else 0
  {
    hide Window;
    if ts <= c.end {
      WindowsFitIff(c, s, ts + c.interval, room);
      forall t
        ensures IsStep(c, ts, t) <==> t == ts || IsStep(c, ts + c.interval, t)
      {
        NextStep(c, ts, t);
      }
      assert IsStep(c, ts, ts);
    }
  }

  /** What is left over after the last step is the window of that step. */
  lemma {:induction false} LastWindowIs(c: Call, s: seq<Sample>, ts: int, points: seq<Point>) returns (t: int)
    requires c.Valid() && ts <= c.end
    ensures IsStep(c, ts, t) && c.end < t + c.interval
    ensures c.LastWindow(s, ts, points) == Window(s, t - c.offset - c.range, t - c.offset)
    decreases c.end - ts
  {
    hide Window;
    t := ts;
    if ts + c.interval <= c.end {
      t := LastWindowIs(c, s, ts + c.interval, c.At(s, ts));
      NextStep(c, ts, t);
    }
  }

  /** The budget for one series: every window fits, and the window of the last step t fits beside the result. */
  lemma SeriesFitsIff(c: Call, s: seq<Sample>, room: int) returns (t: int)
    requires c.Valid() && c.start <= c.end
    ensures IsStep(c, c.start, t) && c.end < t + c.interval
    ensures var result := c.Results(s, c.start);
      c.SeriesFits(s, room) <==>
      && (forall u :: IsStep(c, c.start, u) ==> WindowFits(c, s, u, room))
      && (result == [] || WindowFits(c, s, t, room - |result|))
  {
    hide Window, IsStep, Call.WindowsFit, Call.LastWindow, Call.Results;
    t := LastWindowIs(c, s, c.start, []);
    WindowsFitIff(c, s, c.start, room);
  }

  class Evaluator {
    var currentSamples: int
    const maxSamples: int

    /** Appends the buffered points from `from` on, until the budget is used up (engine.go:1963-1976). */
    method CopyBuffer(buffer: seq<Sample>, from: int, out: seq<Point>, ghost maxt: int)
      returns (r: seq<Point>, tooMany: bool)
      requires forall i :: 0 <= i < |buffer| ==> buffer[i].t <= maxt
      requires currentSamples <= maxSamples
      modifies this`currentSamples
      ensures currentSamples <= maxSamples
      ensures tooMany <==> old(currentSamples) + |Window(buffer, from, maxt)| > maxSamples
      ensures !tooMany ==> r == out + Window(buffer, from, maxt) && currentSamples == old(currentSamples) + |r| - |out|
    {
      r, tooMany := out, false;
      for i := 0 to |buffer|
        invariant r == out + Window(buffer[..i], from, maxt)
        invariant currentSamples == old(currentSamples) + |r| - |out| && currentSamples <= maxSamples
      {
        var x := buffer[i];
        assert buffer[..i + 1][..i] == buffer[..i];
        if x.stale {
          continue;
        }
        if from <= x.t {
          if currentSamples >= maxSamples {
            WindowSplit(buffer, i + 1, from, maxt);
            return r, true;
          }
          currentSamples := currentSamples + 1;
          r := r + [Point(x.t, x.v)];
        }
      }
      assert buffer[..|buffer|] == buffer;
    }

    /** Seeks to maxt and appends what the iterator has from `from` on (engine.go:1955-1987). */
    method ReadRest(it: BufferedIterator, from: int, maxt: int, kept: seq<Point>) returns (r: seq<Point>, tooMany: bool)
      requires Increasing(it.series) && from <= maxt && currentSamples <= maxSamples
      requires forall i :: 0 <= i < |it.series| && it.series[i].t < maxt - it.delta ==>
          !Inside(it.series[i], from, maxt)
      modifies this`currentSamples, it`first, it`pos
      ensures currentSamples <= maxSamples
      ensures tooMany <==> old(currentSamples) + |Window(it.series, from, maxt)| > maxSamples
      ensures !tooMany ==> r == kept + Window(it.series, from, maxt)
      ensures !tooMany ==> currentSamples == old(currentSamples) + |r| - |kept|
    {
      var ok := it.Seek(maxt);
      var buffer := it.series[it.first..it.pos];
      ReadFromBuffer(it.series, it.first, it.pos, from, maxt);
      hide Window, Increasing;
      r, tooMany := CopyBuffer(buffer, from, kept, maxt);
      if tooMany {
        return;
      }
      if ok {
        var x := it.series[it.pos];
        if x.t == maxt && !x.stale {
          if currentSamples >= maxSamples {
            return r, true;
          }
          r := r + [Point(x.t, x.v)];
          currentSamples := currentSamples + 1;
        }
      }
    }

    /** matrixIterSlice (engine.go:1935-1990). */
    method MatrixIterSlice(it: BufferedIterator, mint: int, maxt: int, out: seq<Point>, ghost prevMin: int,
                           ghost prevMax: int)
      returns (r: seq<Point>, tooMany: bool)
      requires Continues(it.series, out, prevMin, prevMax, mint, maxt, it.delta)
      requires currentSamples <= maxSamples
      modifies this`currentSamples, it`first, it`pos
      ensures currentSamples <= maxSamples
      ensures tooMany <==> old(currentSamples) - |out| + |Window(it.series, mint, maxt)| > maxSamples
      ensures !tooMany ==> r == Window(it.series, mint, maxt) && currentSamples == old(currentSamples) - |out| + |r|
    {
      var drop, from := |out|, mint;
      WindowIncreasing(it.series, prevMin, prevMax);
      if |out| > 0 && out[|out| - 1].t >= mint {
        drop := 0;
        while out[drop].t < mint
          invariant drop < |out| && forall i :: 0 <= i < drop ==> out[i].t < mint
          decreases |out| - drop
        {
          drop := drop + 1;
        }
        from := out[|out| - 1].t + 1;
      }
      CarriedOver(it.series, out, prevMin, prevMax, mint, maxt, it.delta, drop, from);
      hide Window;
      currentSamples := currentSamples - drop;
      r, tooMany := ReadRest(it, from, maxt, out[drop..]);
    }

    /** One step of one series (engine.go:1520-1537). */
    method Step(it: BufferedIterator, c: Call, ts: int, ss0: seq<Point>, points0: seq<Point>)
      returns (ss: seq<Point>, points: seq<Point>, tooMany: bool)
      requires c.Valid() && Increasing(it.series) && currentSamples <= maxSamples
      requires points0 == if ts == c.start then [] else c.At(it.series, ts - c.interval)
      requires it.delta == c.range || (ts != c.start && it.delta == c.StepRange())
      modifies this`currentSamples, it
      ensures it.delta == c.range || it.delta == c.StepRange()
      ensures currentSamples <= maxSamples
      ensures tooMany <==> old(currentSamples) - |points0| + |c.At(it.series, ts)| > maxSamples
      ensures !tooMany ==> points == c.At(it.series, ts) && ss == ss0 + c.Result(it.series, ts)
      ensures !tooMany ==> currentSamples == old(currentSamples) - |points0| + |points|
    {
      ss := ss0;
      var maxt := ts - c.offset;
      var mint := maxt - c.range;
      StepContinues(c, it.series, ts, points0, it.delta);
      hide Window, Continues, Increasing;
      points, tooMany := MatrixIterSlice(it, mint, maxt, points0, c.PrevMin(ts), c.PrevMax(ts));
      if tooMany || |points| == 0 {
        return;
      }
      var out := c.f(ts, points);
      if out.Value? {
        ss := ss + [Point(ts, out.v)];
      }
      it.ReduceDelta(c.StepRange());
    }

    /** All steps of one series (engine.go:1510-1538). */
    method EvalSeries(c: Call, s: seq<Sample>) returns (ss: seq<Point>, points: seq<Point>, tooMany: bool)
      requires c.Valid() && Increasing(s) && currentSamples <= maxSamples
      modifies this`currentSamples
      ensures currentSamples <= maxSamples
      ensures tooMany <==> !c.WindowsFit(s, c.start, maxSamples - old(currentSamples))
      ensures !tooMany ==> ss == c.Results(s, c.start) && points == c.LastWindow(s, c.start, [])
      ensures !tooMany ==> AnswersFrom(c, s, c.start, ss)
      ensures !tooMany ==> currentSamples == old(currentSamples) + |points|
    {
      hide AnswersFrom;
      ss, points, tooMany := [], [], false;
      var it := new BufferedIterator(s, c.range);
      var ts := c.start;
      ghost var room := maxSamples - currentSamples;
      while ts <= c.end
        invariant it.series == s && (it.delta == c.range || (ts != c.start && it.delta == c.StepRange()))
        invariant points == if ts == c.start then [] else c.At(s, ts - c.interval)
        invariant currentSamples == old(currentSamples) + |points| && currentSamples <= maxSamples
        invariant c.Results(s, c.start) == ss + c.Results(s, ts)
        invariant c.WindowsFit(s, c.start, room) == c.WindowsFit(s, ts, room)
        invariant c.LastWindow(s, c.start, []) == c.LastWindow(s, ts, points)
        decreases if ts <= c.end then c.end - ts + 1 else 0
      {
        FirstStep(c, s, ts, ss, points, room);
        hide Increasing, Call.At, Call.Result, Call.Results, Call.WindowsFit, Call.LastWindow, Call.StepRange;
        ss, points, tooMany := Step(it, c, ts, ss, points);
        if tooMany {
          return;
        }
        ts := ts + c.interval;
      }
      ResultsAnswer(c, s, c.start);
    }

    /** One series, and its result if it has one (engine.go:1502-1548). */
    method AddSeries(c: Call, x: Series, mat0: seq<ResultSeries>)
      returns (mat: seq<ResultSeries>, points: seq<Point>, tooMany: bool)
      requires c.Valid() && Increasing(x.samples) && currentSamples <= maxSamples
      modifies this`currentSamples
      ensures tooMany <==> !c.SeriesFits(x.samples, maxSamples - old(currentSamples))
      ensures !tooMany ==> mat == mat0 + c.ResultOf(x)
      ensures !tooMany ==>
        currentSamples == old(currentSamples) + |points| + |c.Results(x.samples, c.start)| <= maxSamples
    {
      mat := mat0;
      var ss;
      ss, points, tooMany := EvalSeries(c, x.samples);
      hide Call.Results, Call.WindowsFit, Call.LastWindow;
      if tooMany || |ss| == 0 {
        return;
      }
      if currentSamples + |ss| > maxSamples {
        return mat, points, true;
      }
      mat := mat + [ResultSeries(x.metric, ss)];
      currentSamples := currentSamples + |ss|;
    }

    /** All series of a range-function call (engine.go:1490-1554): the answer, or a budget that is exceeded. */
    method EvalCall(c: Call, list: seq<Series>)
      returns (mat: seq<ResultSeries>, tooMany: bool, ghost from: seq<nat>)
      requires c.Valid() && currentSamples <= maxSamples && AllIncreasing(list)
      modifies this`currentSamples
      ensures tooMany <==> !Fits(c, list, |list|, maxSamples - old(currentSamples))
      ensures !tooMany ==> mat == ResultMatrix(c, list, |list|) && IsAnswer(c, list, |list|, mat, from)
      ensures !tooMany ==> currentSamples == old(currentSamples) + TotalSamples(mat) <= maxSamples
    {
      hide Fits, ResultMatrix, TotalSamples, AllIncreasing, IsAnswer;
      mat, tooMany := EvalList(c, list);
      from := MatrixAnswers(c, list, |list|);
    }

    /** The loop over the series. */
    method EvalList(c: Call, list: seq<Series>) returns (mat: seq<ResultSeries>, tooMany: bool)
      requires c.Valid() && currentSamples <= maxSamples && AllIncreasing(list)
      modifies this`currentSamples
      ensures tooMany <==> !Fits(c, list, |list|, maxSamples - old(currentSamples))
      ensures !tooMany ==> mat == ResultMatrix(c, list, |list|)
      ensures !tooMany ==> currentSamples == old(currentSamples) + TotalSamples(mat) <= maxSamples
    {
      mat, tooMany := [], false;
      var points: seq<Point> := [];
      ghost var room := maxSamples - currentSamples;
      hide Call.SeriesFits, Call.Results, Call.ResultOf, Increasing;
      for i := 0 to |list|
        invariant mat == ResultMatrix(c, list, i) && Fits(c, list, i, room)
        invariant currentSamples == old(currentSamples) + TotalSamples(mat) + |points| && currentSamples <= maxSamples
      {
        currentSamples := currentSamples - |points|;
        TotalOfOneMore(c, mat, list[i]);
        assert Fits(c, list, i + 1, room) == c.SeriesFits(list[i].samples, maxSamples - currentSamples);
        hide TotalSamples;
        mat, points, tooMany := AddSeries(c, list[i], mat);
        if tooMany {
          if Fits(c, list, |list|, room) {
            FitsPrefix(c, list, i + 1, |list|, room);
          }
          return;
        }
      }
      currentSamples := currentSamples - |points|;
    }
  }

  /** The buffer and the point at the target, if there is one, make up the rest of the window. */
  lemma ReadFromBuffer(s: seq<Sample>, first: nat, pos: nat, from: int, maxt: int)
    requires Increasing(s) && first <= pos <= |s| && from <= maxt
    requires forall i :: 0 <= i < first ==> !Inside(s[i], from, maxt)
    requires forall i :: 0 <= i < pos ==> s[i].t < maxt
    requires forall i :: pos <= i < |s| ==> maxt <= s[i].t
    ensures Window(s, from, maxt) == Window(s[first..pos], from, maxt) +
      (if pos < |s| && s[pos].t == maxt && !s[pos].stale then [Point(maxt, s[pos].v)] else [])
  {
    var end := if pos < |s| then pos + 1 else pos;
    WindowOfPart(s, first, end, from, maxt);
    WindowSplit(s[first..end], pos - first, from, maxt);
    assert s[first..end][..pos - first] == s[first..pos];
    if pos < |s| {
      assert s[first..end][pos - first..] == [s[pos]];
      assert [s[pos]][..0] == [];
    }
  }
}
