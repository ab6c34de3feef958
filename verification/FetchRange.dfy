/**
 The time ranges the engine fetches before it evaluates a query (pkg/promql/engine.go:763-855).

 For every selector the engine walks the subqueries above it and computes one range to fetch.
 `Reads` is what evaluation then looks at: its value depends on nothing else (`EvalDependsOnReads`).
 Nothing that is read lies outside the range fetched for its selector, so a query over the
 fetched data means what it means over all data (`FetchedDataIsEnough`).
 */
module FetchRange {
  import opened PromqlAst
  import opened AtModifier

  /** The range to fetch for one selector. */
  datatype Hint = Hint(id: int, start: int, end: int)

  /** Samples of one selector that an evaluation step may look at. */
  datatype Read = Read(id: int, lo: int, hi: int)

  datatype Bounds = Bounds(lo: int, hi: int)

  datatype Times = Times(offset: int, span: int, ts: At)

  // ---------- subqueryTimes ----------

  /** The evaluation times of the innermost of the subqueries on a path, outermost first. */
  function PathBounds(q: Query, path: seq<Range>): Bounds {
    if path == [] then Bounds(q.start, q.end)
    else
      var b, r := PathBounds(q, path[..|path| - 1]), path[|path| - 1];
      if r.Matrix? then b
      else
        var base := if r.at.AtTime? then Bounds(r.at.ts, r.at.ts) else b;
        Bounds(base.lo - r.original - r.span, base.hi - r.original)
  }

  function ApplyTimes(q: Query, t: Times): Bounds {
    var base := if t.ts.AtTime? then Bounds(t.ts.ts, t.ts.ts) else Bounds(q.start, q.end);
    Bounds(base.lo - t.offset - t.span, base.hi - t.offset)
  }

  /** The sums of offsets and ranges since the last `@`, and that `@` (engine.go:763-787). */
  function SubqueryTimes(path: seq<Range>): Times {
    if path == [] then Times(0, 0, NoAt)
    else
      var t, r := SubqueryTimes(path[..|path| - 1]), path[|path| - 1];
      if r.Matrix? then t
      else if r.at.AtTime? then Times(r.original, r.span, r.at)
      else Times(t.offset + r.original, t.span + r.span, t.ts)
  }

  method ComputeSubqueryTimes(path: seq<Range>) returns (subqOffset: int, subqRange: int, ts: At)
    ensures Times(subqOffset, subqRange, ts) == SubqueryTimes(path)
    ensures forall q :: ApplyTimes(q, Times(subqOffset, subqRange, ts)) == PathBounds(q, path)
  {
    subqOffset, subqRange, ts := 0, 0, NoAt;
    for i := 0 to |path|
      invariant Times(subqOffset, subqRange, ts) == SubqueryTimes(path[..i])
    {
      assert path[..i + 1][..i] == path[..i];
      var n := path[i];
      if n.Subquery? {
        subqOffset := subqOffset + n.original;
        subqRange := subqRange + n.span;
        if n.at.AtTime? {
          subqOffset := n.original;
          subqRange := n.span;
          ts := n.at;
        }
      }
    }
    assert path[..|path|] == path;
    forall q ensures ApplyTimes(q, SubqueryTimes(path)) == PathBounds(q, path) {
      TimesGiveBounds(q, path);
    }
  }

  lemma {:induction false} TimesGiveBounds(q: Query, path: seq<Range>)
    ensures ApplyTimes(q, SubqueryTimes(path)) == PathBounds(q, path)
  {
    if path != [] {
      TimesGiveBounds(q, path[..|path| - 1]);
    }
  }

  function SumOffsets(path: seq<Range>): int {
    if path == [] then 0
    else SumOffsets(path[..|path| - 1]) + if path[|path| - 1].Subquery? then path[|path| - 1].original else 0
  }

  function SumSpans(path: seq<Range>): int {
    if path == [] then 0
    else SumSpans(path[..|path| - 1]) + if path[|path| - 1].Subquery? then path[|path| - 1].span else 0
  }

  predicate Fixed(r: Range) {
    r.Subquery? && r.at.AtTime?
  }

  /** Subquery k is the innermost with an `@`. */
  ghost predicate LastFixed(path: seq<Range>, k: nat) {
    k < |path| && Fixed(path[k]) && forall i :: k < i < |path| ==> !Fixed(path[i])
  }

  /** Without an `@`, the times of the query are moved back by all offsets and widened by all ranges. */
  lemma {:induction false} BoundsWithoutAt(q: Query, path: seq<Range>)
    requires forall i :: 0 <= i < |path| ==> !Fixed(path[i])
    ensures PathBounds(q, path) == Bounds(q.start - SumOffsets(path) - SumSpans(path), q.end - SumOffsets(path))
  {
    if path != [] {
      BoundsWithoutAt(q, path[..|path| - 1]);
    }
  }

  /** With one, its time is moved and widened by what is from it on. */
  lemma {:induction false} BoundsFromAt(q: Query, path: seq<Range>, k: nat)
    requires LastFixed(path, k)
    ensures var ts, offset, span := path[k].at.ts, SumOffsets(path[k..]), SumSpans(path[k..]);
      PathBounds(q, path) == Bounds(ts - offset - span, ts - offset)
  {
    var n := |path| - 1;
    var init := path[..n];
    assert path[k..][..n - k] == path[k..n] == init[k..];
    if k < n {
      assert LastFixed(init, k);
      BoundsFromAt(q, init, k);
    }
  }

  // ---------- getTimeRangesForSelector and findMinMaxTime ----------

  /** getTimeRangesForSelector (engine.go:822-855). */
  function SelectorHint(q: Query, lookback: nat, s: Selector, path: seq<Range>, evalRange: int): Hint {
    var b := if s.at.AtTime? then Bounds(s.at.ts, s.at.ts) else ApplyTimes(q, SubqueryTimes(path));
    var back := if evalRange == 0 then lookback else evalRange;
    Hint(s.id, b.lo - back - s.original, b.hi - s.original)
  }

  /** The ranges populateSeries and findMinMaxTime compute for the selectors of a tree. */
  function Hints(q: Query, lookback: nat, e: Expr, path: seq<Range>): seq<Hint>
    decreases e
  {
    match e
    case Num(_) => []
    case Str(_) => []
    case Sel(s) => [SelectorHint(q, lookback, s, path, 0)]
    case TimestampOf(s) => [SelectorHint(q, lookback, s, path, 0)]
    case Call(_, args) => HintsArgs(q, lookback, args, path)
    case RangeCall(_, r, _, others) => HintsRange(q, lookback, r, path) + HintsArgs(q, lookback, others, path)
    case Agg(_, param, body) => Hints(q, lookback, body, path) + HintsArgs(q, lookback, param, path)
    case Bin(_, l, r) => Hints(q, lookback, l, path) + Hints(q, lookback, r, path)
    case Neg(b) => Hints(q, lookback, b, path)
    case Paren(b) => Hints(q, lookback, b, path)
    case StepInvariant(b) => Hints(q, lookback, b, path)
  }

  function HintsRange(q: Query, lookback: nat, r: Range, path: seq<Range>): seq<Hint>
    decreases r
  {
    match r
    case Matrix(s, span) => [SelectorHint(q, lookback, s, path, span)]
    case Subquery(body, _, _, _, _, _) => Hints(q, lookback, body, path + [r])
  }

  function HintsArgs(q: Query, lookback: nat, args: Args, path: seq<Range>): seq<Hint>
    decreases args
  {
    match args
    case Nil => []
    case Cons(e, rest) => Hints(q, lookback, e, path) + HintsArgs(q, lookback, rest, path)
  }

  /** findMinMaxTime's running minimum and maximum (engine.go:789-820). */
  method FindMinMaxTime(hints: seq<Hint>) returns (mint: int, maxt: int)
    ensures hints == [] ==> mint == maxt == 0
    ensures forall h :: h in hints ==> mint <= h.start && h.end <= maxt
    ensures hints != [] ==> (exists h :: h in hints && h.start == mint) && (exists h :: h in hints && h.end == maxt)
  {
    if hints == [] {
      return 0, 0;
    }
    mint, maxt := hints[0].start, hints[0].end;
    for i := 1 to |hints|
      invariant forall j :: 0 <= j < i ==> mint <= hints[j].start && hints[j].end <= maxt
      invariant exists j :: 0 <= j < i && hints[j].start == mint
      invariant exists j :: 0 <= j < i && hints[j].end == maxt
    {
      if hints[i].start < mint { mint := hints[i].start; }
      if hints[i].end > maxt { maxt := hints[i].end; }
    }
  }

  // ---------- What evaluation reads ----------

  /** The evaluation of `e` over `g` looks at `d`. */
  ghost predicate Reads(I: Interp, lookback: nat, e: Expr, g: Grid, d: Read)
    decreases Size(e)
  {
    match e
    case Num(_) => false
    case Str(_) => false
    case Sel(s) => exists t :: Step(g, t) && d == Read(s.id, t - s.offset - lookback, t - s.offset)
    case TimestampOf(s) =>
      exists t :: Step(g, t) &&
        var ref := t - (if s.at.AtTime? then t - s.at.ts else s.offset);
        d == Read(s.id, ref - lookback, ref)
    case Call(_, args) => ReadsArgs(I, lookback, args, g, d)
    case RangeCall(_, r, _, others) => ReadsRange(I, lookback, r, g, d) || ReadsArgs(I, lookback, others, g, d)
    case Agg(_, param, body) => ReadsArgs(I, lookback, param, g, d) || Reads(I, lookback, body, g, d)
    case Bin(_, l, r) => Reads(I, lookback, l, g, d) || Reads(I, lookback, r, g, d)
    case Neg(b) => Reads(I, lookback, b, g, d)
    case Paren(b) => Reads(I, lookback, b, g, d)
    case StepInvariant(b) => Reads(I, lookback, b, Grid(g.start, g.start, g.interval), d)
  }

  ghost predicate ReadsRange(I: Interp, lookback: nat, r: Range, g: Grid, d: Read)
    decreases SizeRange(r)
  {
    match r
    case Matrix(s, span) => exists t :: Step(g, t) && d == Read(s.id, t - s.offset - span, t - s.offset)
    case Subquery(_, _, _, _, _, _) => Reads(I, lookback, SubBody(I, r, g), SubGrid(I, r, g), d)
  }

  ghost predicate ReadsArgs(I: Interp, lookback: nat, args: Args, g: Grid, d: Read)
    decreases SizeArgs(args)
  {
    args.Cons? && (Reads(I, lookback, args.head, g, d) || ReadsArgs(I, lookback, args.tail, g, d))
  }

  // ---------- Coverage ----------

  ghost predicate Covered(d: Read, hints: seq<Hint>) {
    exists h :: h in hints && h.id == d.id && h.start <= d.lo && d.hi <= h.end
  }

  predicate Within(g: Grid, b: Bounds) {
    b.lo <= g.start && g.end <= b.hi
  }

  lemma {:induction false} ReadsAreCovered(I: Interp, q: Query, lookback: nat, e: Expr, g: Grid, single: bool,
                                           path: seq<Range>, d: Read)
    requires Ready(I, e, g.start, single) && (single ==> g.end == g.start)
    requires Within(g, PathBounds(q, path)) || (single && TimeFree(e))
    requires Reads(I, lookback, SetOffsets(e, g.start, 0), g, d)
    ensures Covered(d, Hints(q, lookback, e, path))
    decreases e
  {
    match e
    case Num(_) =>
    case Str(_) =>
    case Sel(s) =>
      TimesGiveBounds(q, path);
      assert SelectorHint(q, lookback, s, path, 0) in Hints(q, lookback, e, path);
    case TimestampOf(s) =>
      TimesGiveBounds(q, path);
      assert SelectorHint(q, lookback, s, path, 0) in Hints(q, lookback, e, path);
    case Call(_, args) => ArgReadsAreCovered(I, q, lookback, args, g, single, path, d);
    case RangeCall(_, r, _, others) =>
      if ReadsRange(I, lookback, SetOffsetsRange(r, g.start, 0), g, d) {
        RangeReadsAreCovered(I, q, lookback, r, g, single, path, d);
      } else {
        ArgReadsAreCovered(I, q, lookback, others, g, single, path, d);
      }
    case Agg(_, param, body) =>
      if Reads(I, lookback, SetOffsets(body, g.start, 0), g, d) {
        ReadsAreCovered(I, q, lookback, body, g, single, path, d);
      } else {
        ArgReadsAreCovered(I, q, lookback, param, g, single, path, d);
      }
    case Bin(_, l, r) =>
      if Reads(I, lookback, SetOffsets(l, g.start, 0), g, d) {
        ReadsAreCovered(I, q, lookback, l, g, single, path, d);
      } else {
        ReadsAreCovered(I, q, lookback, r, g, single, path, d);
      }
    case Neg(b) => ReadsAreCovered(I, q, lookback, b, g, single, path, d);
    case Paren(b) => ReadsAreCovered(I, q, lookback, b, g, single, path, d);
    case StepInvariant(b) =>
      ReadsAreCovered(I, q, lookback, b, Grid(g.start, g.start, g.interval), true, path, d);
  }

  lemma {:induction false} ArgReadsAreCovered(I: Interp, q: Query, lookback: nat, args: Args, g: Grid, single: bool,
                                              path: seq<Range>, d: Read)
    requires ReadyArgs(I, args, g.start, single) && (single ==> g.end == g.start)
    requires Within(g, PathBounds(q, path)) || (single && TimeFreeArgs(args))
    requires ReadsArgs(I, lookback, SetOffsetsArgs(args, g.start, 0), g, d)
    ensures Covered(d, HintsArgs(q, lookback, args, path))
    decreases args
  {
    if Reads(I, lookback, SetOffsets(args.head, g.start, 0), g, d) {
      ReadsAreCovered(I, q, lookback, args.head, g, single, path, d);
    } else {
      ArgReadsAreCovered(I, q, lookback, args.tail, g, single, path, d);
    }
  }

  lemma {:induction false} RangeReadsAreCovered(I: Interp, q: Query, lookback: nat, r: Range, g: Grid, single: bool,
                                                path: seq<Range>, d: Read)
    requires ReadyRange(I, r, g.start, single) && (single ==> g.end == g.start)
    requires Within(g, PathBounds(q, path)) || (single && r.Modifier().AtTime?)
    requires ReadsRange(I, lookback, SetOffsetsRange(r, g.start, 0), g, d)
    ensures Covered(d, HintsRange(q, lookback, r, path))
    decreases r
  {
    match r
    case Matrix(s, span) =>
      TimesGiveBounds(q, path);
      assert SelectorHint(q, lookback, s, path, span) in HintsRange(q, lookback, r, path);
    case Subquery(body, _, _, _, _, _) =>
      var s := SetOffsetsRange(r, g.start, 0);
      var g' := SubGrid(I, s, g);
      AlignedStartIsLeastMultiple(g.start - s.offset - s.span, StepOf(I, r));
      assert (path + [r])[..|path|] == path;
      assert Within(g', PathBounds(q, path + [r]));
      SubBodyOffsets(I, r, g);
      ReadsAreCovered(I, q, lookback, body, g', false, path + [r], d);
  }

  /**
   Whatever a query reads, at any step and under any nesting of subqueries, lies in the range
   that was computed for its selector.
   */
  lemma FetchedRangesCoverEveryRead(I: Interp, lookback: nat, e: Expr, g: Grid, d: Read)
    requires Good(I, Query(g.start, g.end), e, g.start)
    requires var q := Query(g.start, g.end);
             Reads(I, lookback, SetOffsets(Preprocess(q, e), g.start, 0), g, d)
    ensures var q := Query(g.start, g.end);
            Covered(d, Hints(q, lookback, Preprocess(q, e), []))
  {
    var q := Query(g.start, g.end);
    RewriteIsReady(I, q, e, g.start);
    ReadsAreCovered(I, q, lookback, Preprocess(q, e), g, false, [], d);
  }

  /** The range computed for a query with one selector, and two of its reads that reach the ends of that range. */
  ghost predicate Tight(I: Interp, lookback: nat, e: Expr, g: Grid, h: Hint, a: Read, b: Read) {
    var q := Query(g.start, g.end);
    var tree := SetOffsets(Preprocess(q, e), g.start, 0);
    && Hints(q, lookback, Preprocess(q, e), []) == [h]
    && Reads(I, lookback, tree, g, a) && a.lo == h.start
    && Reads(I, lookback, tree, g, b) && b.hi == h.end
  }

  /** Nothing less would do: both ends of the range of a selector are read, if the last step is at the end. */
  lemma SelectorRangeIsTight(I: Interp, lookback: nat, s: Selector, g: Grid) returns (h: Hint, a: Read, b: Read)
    requires g.start <= g.end && Step(g, g.end)
    ensures Tight(I, lookback, Sel(s), g, h, a, b)
  {
    var q := Query(g.start, g.end);
    h := SelectorHint(q, lookback, s.(at := Resolve(s.at, q)), [], 0);
    a, b := Read(s.id, h.start, h.start + lookback), Read(s.id, h.end - lookback, h.end);
    assert Step(g, g.start) && Step(Grid(g.start, g.start, g.interval), g.start);
  }

  lemma WindowRangeIsTight(I: Interp, lookback: nat, fn: string, s: Selector, span: int, g: Grid)
    returns (h: Hint, a: Read, b: Read)
    requires g.start <= g.end && Step(g, g.end) && span != 0
    ensures Tight(I, lookback, RangeCall(fn, Matrix(s, span), false, Nil), g, h, a, b)
  {
    hide IsInvariant;
    var q, e := Query(g.start, g.end), RangeCall(fn, Matrix(s, span), false, Nil);
    var s' := s.(at := Resolve(s.at, q));
    h := SelectorHint(q, lookback, s', [], span);
    a, b := Read(s.id, h.start, h.start + span), Read(s.id, h.end - span, h.end);
    InvariantWindows(fn, s, span);
    var call := RangeCall(fn, Matrix(s', span), Rewrite(q, e).wrapped, Nil);
    assert Rewrite(q, e) == call;
    var single := Grid(g.start, g.start, g.interval);
    assert Step(g, g.start) && Step(single, g.start);
    WindowReads(I, q, lookback, call, single);
    WindowReads(I, q, lookback, call, g);
    var tree := SetOffsets(call, g.start, 0);
    if IsInvariant(e) {
      assert Reads(I, lookback, tree, single, a) && Reads(I, lookback, tree, single, b);
    } else {
      assert Reads(I, lookback, tree, g, a) && Reads(I, lookback, tree, g, b);
    }
  }

  lemma InvariantWindows(fn: string, s: Selector, span: int)
    ensures IsInvariant(RangeCall(fn, Matrix(s, span), false, Nil)) ==> !s.at.NoAt?
  {
  }

  lemma WindowReads(I: Interp, q: Query, lookback: nat, e: Expr, g: Grid)
    requires e.RangeCall? && e.arg.Matrix? && e.others == Nil && g.start <= g.end
    ensures Hints(q, lookback, e, []) == [SelectorHint(q, lookback, e.arg.sel, [], e.arg.span)]
    ensures var s, span := e.arg.sel, e.arg.span;
      var offset := NewOffset(s.at, s.original, g.start, 0);
      forall t :: Step(g, t) ==>
        Reads(I, lookback, SetOffsets(e, g.start, 0), g, Read(s.id, t - offset - span, t - offset))
  {
    var s, span := e.arg.sel, e.arg.span;
    var offset := NewOffset(s.at, s.original, g.start, 0);
    assert HintsArgs(q, lookback, Nil, []) == [];
    var m := SetOffsetsRange(e.arg, g.start, 0);
    forall t | Step(g, t)
      ensures ReadsRange(I, lookback, m, g, Read(s.id, t - offset - span, t - offset))
    {
    }
  }

  // ---------- Nothing else matters ----------

  /** The same operators over other data. */
  ghost predicate SameOperators(I: Interp, J: Interp) {
    && I.call == J.call && I.rangeCall == J.rangeCall && I.aggregate == J.aggregate
    && I.binary == J.binary && I.negate == J.negate && I.defaultStep == J.defaultStep
  }

  /** The data look the same to whoever makes this read. */
  ghost predicate AgreeOn(I: Interp, J: Interp, lookback: nat, d: Read) {
    && I.window(d.id, d.lo, d.hi) == J.window(d.id, d.lo, d.hi)
    && (d.lo == d.hi - lookback ==>
          I.instant(d.id, d.hi) == J.instant(d.id, d.hi) && I.stamps(d.id, d.hi) == J.stamps(d.id, d.hi))
  }

  ghost predicate AgreeOnReads(I: Interp, J: Interp, lookback: nat, e: Expr, g: Grid) {
    forall d :: Reads(I, lookback, e, g, d) ==> AgreeOn(I, J, lookback, d)
  }

  ghost predicate AgreeOnArgs(I: Interp, J: Interp, lookback: nat, args: Args, g: Grid) {
    forall d :: ReadsArgs(I, lookback, args, g, d) ==> AgreeOn(I, J, lookback, d)
  }

  ghost predicate AgreeOnRange(I: Interp, J: Interp, lookback: nat, r: Range, g: Grid) {
    forall d :: ReadsRange(I, lookback, r, g, d) ==> AgreeOn(I, J, lookback, d)
  }

  lemma SelectorAgrees(I: Interp, J: Interp, lookback: nat, e: Expr, g: Grid, t: int)
    requires SameOperators(I, J) && AgreeOnReads(I, J, lookback, e, g) && Step(g, t) && (e.Sel? || e.TimestampOf?)
    ensures Eval(I, e, g, t) == Eval(J, e, g, t)
  {
    var s := e.sel;
    var ref := t - if e.TimestampOf? && s.at.AtTime? then t - s.at.ts else s.offset;
    assert Reads(I, lookback, e, g, Read(s.id, ref - lookback, ref));
  }

  /** The parts of a tree read what the tree reads. */
  lemma PartsRead(I: Interp, J: Interp, lookback: nat, e: Expr, g: Grid)
    requires AgreeOnReads(I, J, lookback, e, g)
    ensures e.Call? ==> AgreeOnArgs(I, J, lookback, e.args, g)
    ensures e.RangeCall? ==> AgreeOnRange(I, J, lookback, e.arg, g) && AgreeOnArgs(I, J, lookback, e.others, g)
    ensures e.Agg? ==> AgreeOnArgs(I, J, lookback, e.param, g) && AgreeOnReads(I, J, lookback, e.body, g)
    ensures e.Bin? ==> AgreeOnReads(I, J, lookback, e.lhs, g) && AgreeOnReads(I, J, lookback, e.rhs, g)
    ensures e.Neg? || e.Paren? ==> AgreeOnReads(I, J, lookback, e.body, g)
    ensures e.StepInvariant? ==> AgreeOnReads(I, J, lookback, e.body, Grid(g.start, g.start, g.interval))
  {
    hide AgreeOn, ReadsArgs, ReadsRange;
  }

  /** The value of a tree depends on its operators and on what it reads, and on nothing else. */
  lemma {:induction false} EvalDependsOnReads(I: Interp, J: Interp, lookback: nat, e: Expr, g: Grid, t: int)
    requires SameOperators(I, J) && AgreeOnReads(I, J, lookback, e, g) && Step(g, t)
    ensures Eval(I, e, g, t) == Eval(J, e, g, t)
    decreases Size(e)
  {
    hide AgreeOnReads, AgreeOnArgs, AgreeOnRange, EvalArgs, EvalRange, ResultOffset;
    PartsRead(I, J, lookback, e, g);
    match e
    case Num(_) =>
    case Str(_) =>
    case Sel(_) => SelectorAgrees(I, J, lookback, e, g, t);
    case TimestampOf(_) => SelectorAgrees(I, J, lookback, e, g, t);
    case Call(_, args) => ArgsDependOnReads(I, J, lookback, args, g, t);
    case RangeCall(_, r, _, others) =>
      RangeDependsOnReads(I, J, lookback, r, g, t);
      ArgsDependOnReads(I, J, lookback, others, g, t);
    case Agg(_, param, body) =>
      ArgsDependOnReads(I, J, lookback, param, g, t);
      EvalDependsOnReads(I, J, lookback, body, g, t);
    case Bin(_, l, r) =>
      EvalDependsOnReads(I, J, lookback, l, g, t);
      EvalDependsOnReads(I, J, lookback, r, g, t);
    case Neg(b) => EvalDependsOnReads(I, J, lookback, b, g, t);
    case Paren(b) => EvalDependsOnReads(I, J, lookback, b, g, t);
    case StepInvariant(b) => EvalDependsOnReads(I, J, lookback, b, Grid(g.start, g.start, g.interval), g.start);
  }

  lemma {:induction false} ArgsDependOnReads(I: Interp, J: Interp, lookback: nat, args: Args, g: Grid, t: int)
    requires SameOperators(I, J) && AgreeOnArgs(I, J, lookback, args, g) && Step(g, t)
    ensures EvalArgs(I, args, g, t) == EvalArgs(J, args, g, t)
    decreases SizeArgs(args)
  {
    hide Eval, Reads, AgreeOn;
    if args.Cons? {
      EvalDependsOnReads(I, J, lookback, args.head, g, t);
      ArgsDependOnReads(I, J, lookback, args.tail, g, t);
    }
  }

  lemma {:induction false} RangeDependsOnReads(I: Interp, J: Interp, lookback: nat, r: Range, g: Grid, t: int)
    requires SameOperators(I, J) && AgreeOnRange(I, J, lookback, r, g) && Step(g, t)
    ensures EvalRange(I, r, g, t) == EvalRange(J, r, g, t)
    decreases SizeRange(r)
  {
    hide Eval, Reads, SetOffsets, AlignedStart;
    if r.Matrix? {
      var hi := t - r.sel.offset;
      assert ReadsRange(I, lookback, r, g, Read(r.sel.id, hi - r.span, hi));
    } else {
      var g', body := SubGrid(I, r, g), SubBody(I, r, g);
      assert g' == SubGrid(J, r, g) && body == SubBody(J, r, g);
      assert AgreeOnReads(I, J, lookback, body, g');
      forall x | Step(g', x)
        ensures Eval(I, body, g', x) == Eval(J, body, g', x)
      {
        EvalDependsOnReads(I, J, lookback, body, g', x);
      }
    }
  }

  /** The data agree on all that was fetched. */
  ghost predicate AgreeOnFetched(I: Interp, J: Interp, lookback: nat, hints: seq<Hint>) {
    forall d :: Covered(d, hints) ==> AgreeOn(I, J, lookback, d)
  }

  /** Evaluating a query over the fetched data alone gives, at every step, its meaning over all data. */
  lemma FetchedDataIsEnough(I: Interp, J: Interp, lookback: nat, e: Expr, g: Grid, t: int)
    requires TimeBlind(I) && SameOperators(I, J) && Step(g, t)
    requires Good(I, Query(g.start, g.end), e, g.start)
    requires var q := Query(g.start, g.end);
             AgreeOnFetched(I, J, lookback, Hints(q, lookback, Preprocess(q, e), []))
    ensures var q := Query(g.start, g.end);
            Eval(J, SetOffsets(Preprocess(q, e), g.start, 0), g, t) == Denote(I, q, e, t)
  {
    hide Eval, Denote, SetOffsets, Preprocess, Hints, Good, Reads, Covered, AgreeOn, TimeBlind;
    var q := Query(g.start, g.end);
    var tree := SetOffsets(Preprocess(q, e), g.start, 0);
    forall d | Reads(I, lookback, tree, g, d)
      ensures AgreeOn(I, J, lookback, d)
    {
      FetchedRangesCoverEveryRead(I, lookback, e, g, d);
    }
    EvalDependsOnReads(I, J, lookback, tree, g, t);
    PreprocessedQueryMeansTheOriginal(I, e, g);
  }

  /** So the one range that findMinMaxTime hands to the querier is enough as well. */
  lemma OneRangeIsEnough(I: Interp, J: Interp, lookback: nat, hints: seq<Hint>, mint: int, maxt: int)
    requires forall h :: h in hints ==> mint <= h.start && h.end <= maxt
    requires forall d: Read :: mint <= d.lo && d.hi <= maxt ==> AgreeOn(I, J, lookback, d)
    ensures AgreeOnFetched(I, J, lookback, hints)
  {
    hide AgreeOn;
  }
}
