/**
 Where step-invariant wrapping and the `@` offsets go wrong. Every lemma takes a family of
 queries that `Good` excludes and says exactly when the engine is still right about it,
 whatever the data and whatever the time-blind operators compute.
 */
module AtModifierGaps {
  import opened PromqlAst
  import opened AtModifier

  function TimeAsVector(t: int): Vector {
    map[map[] := Fin(t as real)]
  }

  function FirstVector(args: seq<Value>, otherwise: Vector): Vector {
    if |args| > 0 && args[0].Vec? then args[0].v else otherwise
  }

  /** Operators that report the time they look at: a selector's value is its reference time. */
  const CLOCK: Interp := Interp(
    (id, x) => TimeAsVector(x),
    (id, x) => TimeAsVector(x),
    (id, lo, hi) => map[],
    (fn, args, t) => if LooksAtTime(fn, args) then TimeAsVector(t)
                     else FirstVector(args, map[]),
    (fn, lo, hi, w, args, t) => TimeAsVector(hi),
    (op, param, v) => FirstVector(param, v),
    (op, l, r) => l,
    v => v,
    span => 1)

  lemma ClockIsTimeBlind()
    ensures TimeBlind(CLOCK)
  {
  }

  lemma TimesAreDistinct(t: int, t': int)
    ensures TimeAsVector(t) == TimeAsVector(t') <==> t == t'
  {
    var k: Labels := map[];
    assert TimeAsVector(t)[k] == Fin(t as real);
    assert TimeAsVector(t')[k] == Fin(t' as real);
  }

  /** The engine's value of query `e` at step `t` is its meaning, for all data and operators. */
  ghost predicate RightAt(e: Expr, g: Grid, t: int) {
    var q := Query(g.start, g.end);
    forall I :: TimeBlind(I) ==> Eval(I, SetOffsets(Preprocess(q, e), g.start, 0), g, t) == Denote(I, q, e, t)
  }

  lemma RightOnClock(e: Expr, g: Grid, t: int)
    requires RightAt(e, g, t)
    ensures var q := Query(g.start, g.end);
            Eval(CLOCK, SetOffsets(Preprocess(q, e), g.start, 0), g, t) == Denote(CLOCK, q, e, t)
  {
    ClockIsTimeBlind();
  }

  /** time() and the other date functions without an argument follow the steps: no wrapper freezes them. */
  lemma TimeFunctionsFollowTheSteps(I: Interp, fn: string, g: Grid, t: int)
    requires fn == "time" || (fn in DATE_FUNCTIONS && fn != "day_of_year")
    ensures Eval(I, SetOffsets(Preprocess(Query(g.start, g.end), Call(fn, Nil)), g.start, 0), g, t) == I.call(fn, [], t)
  {
    var q, e := Query(g.start, g.end), Call(fn, Nil);
    assert EvalArgs(I, Nil, g, t) == [];
    assert Preprocess(q, e) == e == SetOffsets(e, g.start, 0);
  }

  /** So does timestamp of anything that is not a selector. */
  lemma TimestampFollowsTheSteps(I: Interp, args: Args, g: Grid, t: int)
    ensures var q := Query(g.start, g.end);
            var args' := SetOffsetsArgs(RewriteArgs(q, args, true), g.start, 0);
            Eval(I, SetOffsets(Preprocess(q, Call("timestamp", args)), g.start, 0), g, t) ==
            I.call("timestamp", EvalArgs(I, args', g, t), t)
  {
    hide RewriteArgs, SetOffsetsArgs, EvalArgs, AllInvariant;
    var q, e := Query(g.start, g.end), Call("timestamp", args);
    assert Preprocess(q, e) == Call("timestamp", RewriteArgs(q, args, true));
  }

  /** day_of_year() is missing from the unsafe table: a step is right iff it has the first step's day of the year. */
  lemma DayOfYearIsFrozen(I: Interp, g: Grid, t: int)
    requires Step(g, t)
    ensures var q, e := Query(g.start, g.end), Call("day_of_year", Nil);
            Eval(I, SetOffsets(Preprocess(q, e), g.start, 0), g, t) == Denote(I, q, e, t) <==>
            I.call("day_of_year", [], t) == I.call("day_of_year", [], g.start)
  {
    var q, e := Query(g.start, g.end), Call("day_of_year", Nil);
    assert EvalArgs(I, Nil, g, t) == DenoteArgs(I, q, Nil, t) == [];
    assert Preprocess(q, e) == StepInvariant(e) == SetOffsets(StepInvariant(e), g.start, 0);
  }

  /** timestamp(x @ ts offset o) looks at ts and not at ts - o. */
  lemma TimestampDropsOffset(s: Selector, g: Grid, t: int)
    requires !s.at.NoAt? && Step(g, t)
    ensures RightAt(TimestampOf(s), g, t) <==> s.original == 0
  {
    var q, e := Query(g.start, g.end), TimestampOf(s);
    assert Preprocess(q, e) == TimestampOf(s.(at := Resolve(s.at, q)));
    if RightAt(e, g, t) {
      RightOnClock(e, g, t);
      TimesAreDistinct(TimeOf(s.at, q, t), TimeOf(s.at, q, t) - s.original);
    }
  }

  // ---------- Range arguments ----------

  /** A tree that is right apart from the node above it, whatever the default step. */
  ghost predicate AlwaysGood(q: Query, e: Expr, start: int) {
    forall I :: Good(I, q, e, start)
  }

  ghost predicate AlwaysGoodArgs(q: Query, args: Args, start: int) {
    forall I :: GoodArgs(I, q, args, start)
  }

  ghost predicate AlwaysGoodRange(q: Query, r: Range, start: int) {
    forall I :: GoodRange(I, q, r, start)
  }

  /** The arguments of a range call are right at every step at which the call is evaluated. */
  lemma OtherArguments(I: Interp, q: Query, args: Args, wrap: bool, g: Grid, t: int)
    requires TimeBlind(I) && GoodArgs(I, q, args, g.start) && Step(g, t)
    requires wrap || (AllInvariant(args) && t == g.start)
    ensures EvalArgs(I, SetOffsetsArgs(RewriteArgs(q, args, wrap), g.start, 0), g, t) == DenoteArgs(I, q, args, t)
  {
    RewriteArgsAreReady(I, q, args, g.start, wrap);
    EvalReadyArgs(I, q, RewriteArgs(q, args, wrap), g, t, !wrap);
    RewriteArgsKeepMeaning(I, q, args, wrap, t);
  }

  /** The end of the window that the engine reads for an `@` range argument. */
  lemma SlidingEnd(q: Query, r: Range, g: Grid, t: int)
    requires !r.Modifier().NoAt?
    ensures var s := SetOffsetsRange(RewriteRange(q, r), g.start, 0);
            && s.span == r.span
            && t - ResultOffset(s, g) == TimeOf(r.Modifier(), q, t) - r.OriginalOffset() + (t - g.start)
  {
  }

  lemma PreparedRangeCall(fn: string, r: Range, others: Args, q: Query)
    ensures var e := RangeCall(fn, r, false, others);
            var wrap := !IsInvariant(e);
            var args := SetOffsetsArgs(RewriteArgs(q, others, wrap), q.start, 0);
            var s := SetOffsetsRange(RewriteRange(q, r), q.start, 0);
            SetOffsets(Preprocess(q, e), q.start, 0) ==
            if wrap then RangeCall(fn, s, !r.Modifier().NoAt?, args) else StepInvariant(RangeCall(fn, s, false, args))
  {
    hide SetOffsetsArgs, SetOffsetsRange, RewriteArgs, RewriteRange, IsInvariant;
  }

  lemma EvalRangeCall(I: Interp, fn: string, r: Range, w: bool, others: Args, g: Grid, t: int)
    ensures var hi := t - ResultOffset(r, g);
            Eval(I, RangeCall(fn, r, w, others), g, t) ==
            I.rangeCall(fn, hi - r.span, hi, EvalRange(I, r, g, t), EvalArgs(I, others, g, t), t)
  {
  }

  lemma DenoteRangeCall(I: Interp, q: Query, fn: string, r: Range, others: Args, t: int)
    ensures var hi := TimeOf(r.Modifier(), q, t) - r.OriginalOffset();
            Denote(I, q, RangeCall(fn, r, false, others), t) ==
            I.rangeCall(fn, hi - r.span, hi, DenoteRange(I, q, r, t), DenoteArgs(I, q, others, t), t)
  {
  }

  /** At the first step the call is right: one evaluation there is what the offsets are set for. */
  lemma FirstStepIsRight(I: Interp, fn: string, r: Range, others: Args, g: Grid)
    requires TimeBlind(I) && !r.Modifier().NoAt? && g.start <= g.end
    requires !IsInvariant(RangeCall(fn, r, false, others))
    requires GoodRange(I, Query(g.start, g.end), r, g.start) && GoodArgs(I, Query(g.start, g.end), others, g.start)
    ensures var q, e := Query(g.start, g.end), RangeCall(fn, r, false, others);
            Eval(I, SetOffsets(Preprocess(q, e), g.start, 0), g, g.start) == Denote(I, q, e, g.start)
  {
    hide *;
    var q, t := Query(g.start, g.end), g.start;
    FirstIsStep(g);
    PreparedRangeCall(fn, r, others, q);
    OtherArguments(I, q, others, true, g, t);
    RewriteRangeIsReady(I, q, r, g.start, true);
    EvalReadyRange(I, q, RewriteRange(q, r), g, t, true);
    RewriteRangeKeepsMeaning(I, q, r, t);
    EvalRangeCall(I, fn, SetOffsetsRange(RewriteRange(q, r), g.start, 0), true,
                  SetOffsetsArgs(RewriteArgs(q, others, true), g.start, 0), g, t);
    DenoteRangeCall(I, q, fn, r, others, t);
  }

  lemma FirstIsStep(g: Grid)
    requires g.start <= g.end
    ensures Step(g, g.start)
  {
  }

  lemma SlidesOnClock(fn: string, r: Range, others: Args, g: Grid, t: int)
    requires !r.Modifier().NoAt? && !IsInvariant(RangeCall(fn, r, false, others))
    ensures var q, e := Query(g.start, g.end), RangeCall(fn, r, false, others);
            Eval(CLOCK, SetOffsets(Preprocess(q, e), g.start, 0), g, t) == Denote(CLOCK, q, e, t) ==> t == g.start
  {
    hide Eval, Denote, SetOffsets, Preprocess, SetOffsetsRange, RewriteRange, ResultOffset, EvalRange, EvalArgs,
        DenoteRange, DenoteArgs;
    hide RewriteArgs, SetOffsetsArgs, IsInvariant;
    var q := Query(g.start, g.end);
    var s, hi := SetOffsetsRange(RewriteRange(q, r), g.start, 0), TimeOf(r.Modifier(), q, t) - r.OriginalOffset();
    PreparedRangeCall(fn, r, others, q);
    SlidingEnd(q, r, g, t);
    EvalRangeCall(CLOCK, fn, s, true, SetOffsetsArgs(RewriteArgs(q, others, true), g.start, 0), g, t);
    DenoteRangeCall(CLOCK, q, fn, r, others, t);
    TimesAreDistinct(hi, hi + (t - g.start));
  }

  /**
   An `@` range argument of a call that is not wholly invariant, be it for its function or for
   another argument, slides with the steps: the wrapper around it is not used.
   */
  lemma RangeArgumentSlides(fn: string, r: Range, others: Args, g: Grid, t: int)
    requires !r.Modifier().NoAt? && Step(g, t)
    requires !IsInvariant(RangeCall(fn, r, false, others))
    requires AlwaysGoodRange(Query(g.start, g.end), r, g.start) &&
        AlwaysGoodArgs(Query(g.start, g.end), others, g.start)
    ensures RightAt(RangeCall(fn, r, false, others), g, t) <==> t == g.start
  {
    hide Eval, Denote, SetOffsets, Preprocess, IsInvariant, TimeBlind, GoodRange, GoodArgs;
    forall I | TimeBlind(I) && t == g.start
      ensures var q, e := Query(g.start, g.end), RangeCall(fn, r, false, others);
              Eval(I, SetOffsets(Preprocess(q, e), g.start, 0), g, t) == Denote(I, q, e, t)
    {
      FirstStepIsRight(I, fn, r, others, g);
    }
    if RightAt(RangeCall(fn, r, false, others), g, t) {
      RightOnClock(RangeCall(fn, r, false, others), g, t);
      SlidesOnClock(fn, r, others, g, t);
    }
  }

  /** For instance predict_linear(x[span] @ ts, v), for its function. */
  lemma PredictLinearSlides(s: Selector, span: int, v: Float, g: Grid, t: int)
    requires !s.at.NoAt? && Step(g, t)
    ensures RightAt(RangeCall("predict_linear", Matrix(s, span), false, Cons(Num(v), Nil)), g, t) <==> t == g.start
  {
    forall I: Interp
      ensures GoodArgs(I, Query(g.start, g.end), Cons(Num(v), Nil), g.start)
    {
      assert GoodArgs(I, Query(g.start, g.end), Nil, g.start);
    }
    RangeArgumentSlides("predict_linear", Matrix(s, span), Cons(Num(v), Nil), g, t);
  }

  /** And quantile_over_time(scalar(p), x[span] @ ts), for its other argument. */
  lemma QuantileOverTimeSlides(s: Selector, span: int, p: Selector, g: Grid, t: int)
    requires !s.at.NoAt? && p.at.NoAt? && Step(g, t)
    ensures RightAt(RangeCall("quantile_over_time", Matrix(s, span), false, Scalar(p)), g, t) <==> t == g.start
  {
    assert !AllInvariant(Scalar(p)) by {
      assert !IsInvariant(Sel(p)) && !AllInvariant(Cons(Sel(p), Nil));
    }
    forall I: Interp
      ensures GoodArgs(I, Query(g.start, g.end), Scalar(p), g.start)
    {
      assert GoodArgs(I, Query(g.start, g.end), Nil, g.start);
      assert GoodArgs(I, Query(g.start, g.end), Cons(Sel(p), Nil), g.start);
    }
    RangeArgumentSlides("quantile_over_time", Matrix(s, span), Scalar(p), g, t);
  }

  // ---------- Parameters of aggregations ----------

  /** The argument scalar(p). */
  function Scalar(p: Selector): Args {
    Cons(Call("scalar", Cons(Sel(p), Nil)), Nil)
  }

  lemma EvalScalar(I: Interp, p: Selector, g: Grid, t: int)
    ensures EvalArgs(I, Scalar(p), g, t) == [Vec(I.call("scalar", [Vec(I.instant(p.id, t - p.offset))], t))]
  {
    assert EvalArgs(I, Cons(Sel(p), Nil), g, t) == [Vec(Eval(I, Sel(p), g, t))];
    assert EvalArgs(I, Nil, g, t) == [];
  }

  lemma DenoteScalar(I: Interp, q: Query, p: Selector, t: int)
    ensures var x := TimeOf(p.at, q, t) - p.original;
            DenoteArgs(I, q, Scalar(p), t) == [Vec(I.call("scalar", [Vec(I.instant(p.id, x))], t))]
  {
    assert DenoteArgs(I, q, Cons(Sel(p), Nil), t) == [Vec(Denote(I, q, Sel(p), t))];
    assert DenoteArgs(I, q, Nil, t) == [];
  }

  lemma SetScalar(p: Selector, t: int)
    ensures SetOffsetsArgs(Scalar(p), t, 0) == Scalar(SetSelector(p, t, 0))
  {
    assert SetOffsetsArgs(Cons(Sel(p), Nil), t, 0) == Cons(Sel(SetSelector(p, t, 0)), SetOffsetsArgs(Nil, t, 0));
    assert SetOffsetsArgs(Nil, t, 0) == Nil;
  }

  lemma PreparedAggregate(op: string, p: Selector, body: Expr, q: Query)
    ensures var e := Agg(op, Scalar(SetSelector(p, q.start, 0)), SetOffsets(Rewrite(q, body), q.start, 0));
            SetOffsets(Preprocess(q, Agg(op, Scalar(p), body)), q.start, 0) ==
            if IsInvariant(body) then StepInvariant(e) else e
  {
    hide Scalar, SetOffsetsArgs, RewriteArgs;
    SetScalar(p, q.start);
    assert Rewrite(q, Agg(op, Scalar(p), body)) == Agg(op, Scalar(p), Rewrite(q, body));
  }

  lemma EvalAggregate(I: Interp, op: string, p: Selector, body: Expr, g: Grid, t: int)
    ensures Eval(I, Agg(op, Scalar(p), body), g, t) ==
            I.aggregate(op, [Vec(I.call("scalar", [Vec(I.instant(p.id, t - p.offset))], t))], Eval(I, body, g, t))
  {
    hide Scalar, EvalArgs;
    EvalScalar(I, p, g, t);
  }

  lemma EvalInvariant(I: Interp, e: Expr, g: Grid, t: int)
    ensures Eval(I, StepInvariant(e), g, t) == Eval(I, e, Grid(g.start, g.start, g.interval), g.start)
  {
  }

  /** What the engine computes for op(scalar(p), body): the parameter is neither resolved nor wrapped. */
  lemma AggregateValue(I: Interp, op: string, p: Selector, body: Expr, g: Grid, t: int)
    requires TimeBlind(I) && Step(g, t) && Good(I, Query(g.start, g.end), body, g.start)
    ensures var q, x := Query(g.start, g.end), if IsInvariant(body) then g.start else t;
            Eval(I, SetOffsets(Preprocess(q, Agg(op, Scalar(p), body)), g.start, 0), g, t) ==
            var v := I.instant(p.id, x - NewOffset(p.at, p.original, g.start, 0));
            I.aggregate(op, [Vec(I.call("scalar", [Vec(v)], x))], Denote(I, q, body, t))
  {
    hide *;
    var q, x := Query(g.start, g.end), if IsInvariant(body) then g.start else t;
    var g' := if IsInvariant(body) then Grid(g.start, g.start, g.interval) else g;
    var p', body' := SetSelector(p, g.start, 0), SetOffsets(Rewrite(q, body), g.start, 0);
    assert p'.id == p.id && p'.offset == NewOffset(p.at, p.original, g.start, 0) by {
      SetSelectorOffset(p, g.start);
    }
    PreparedAggregate(op, p, body, q);
    FirstIsStep(Grid(g.start, g.start, g.interval));
    RewriteIsReady(I, q, body, g.start);
    EvalReady(I, q, Rewrite(q, body), g', x, IsInvariant(body));
    RewriteKeepsMeaning(I, q, body, t);
    if IsInvariant(body) {
      TimeFreeIsConstant(I, q, Rewrite(q, body), x, t);
      EvalInvariant(I, Agg(op, Scalar(p'), body'), g, t);
    }
    EvalAggregate(I, op, p', body', g', x);
  }

  lemma SetSelectorOffset(p: Selector, t: int)
    ensures SetSelector(p, t, 0).id == p.id && SetSelector(p, t, 0).offset == NewOffset(p.at, p.original, t, 0)
  {
  }

  lemma AggregateMeaning(I: Interp, q: Query, op: string, p: Selector, body: Expr, t: int)
    ensures Denote(I, q, Agg(op, Scalar(p), body), t) ==
            I.aggregate(op, [Vec(I.call("scalar", [Vec(I.instant(p.id, TimeOf(p.at, q, t) - p.original))], t))],
              Denote(I, q, body, t))
  {
    hide Scalar, DenoteArgs;
    DenoteScalar(I, q, p, t);
  }

  lemma ScalarIsTimeBlind(I: Interp, v: Vector, t: int, t': int)
    requires TimeBlind(I)
    ensures I.call("scalar", [Vec(v)], t) == I.call("scalar", [Vec(v)], t')
  {
  }

  lemma ScalarOnClock(op: string, id: int, x: int, t: int, v: Vector)
    ensures CLOCK.aggregate(op, [Vec(CLOCK.call("scalar", [Vec(CLOCK.instant(id, x))], t))], v) == TimeAsVector(x)
  {
  }

  /** The times at which the engine reads the parameter, and at which it should. */
  function ReadTime(p: Selector, body: Expr, g: Grid, t: int): int {
    (if IsInvariant(body) then g.start else t) - NewOffset(p.at, p.original, g.start, 0)
  }

  function MeantTime(p: Selector, g: Grid, t: int): int {
    TimeOf(p.at, Query(g.start, g.end), t) - p.original
  }

  lemma ParameterOnClock(op: string, p: Selector, body: Expr, g: Grid, t: int)
    requires Step(g, t) && Good(CLOCK, Query(g.start, g.end), body, g.start)
    ensures var q, e := Query(g.start, g.end), Agg(op, Scalar(p), body);
      && Eval(CLOCK, SetOffsets(Preprocess(q, e), g.start, 0), g, t) == TimeAsVector(ReadTime(p, body, g, t))
      && Denote(CLOCK, q, e, t) == TimeAsVector(MeantTime(p, g, t))
  {
    hide Eval, Denote, SetOffsets, Preprocess, Scalar, IsInvariant, Good, TimeBlind, NewOffset, TimeOf, FirstVector,
        TimeAsVector;
    var q, x := Query(g.start, g.end), if IsInvariant(body) then g.start else t;
    ClockIsTimeBlind();
    AggregateValue(CLOCK, op, p, body, g, t);
    AggregateMeaning(CLOCK, q, op, p, body, t);
    ScalarOnClock(op, p.id, ReadTime(p, body, g, t), x, Denote(CLOCK, q, body, t));
    ScalarOnClock(op, p.id, MeantTime(p, g, t), t, Denote(CLOCK, q, body, t));
  }

  /** The parameter is read where it should be. */
  lemma ParameterRightIff(op: string, p: Selector, body: Expr, g: Grid, t: int)
    requires Step(g, t) && AlwaysGood(Query(g.start, g.end), body, g.start)
    ensures RightAt(Agg(op, Scalar(p), body), g, t) <==> ReadTime(p, body, g, t) == MeantTime(p, g, t)
  {
    hide Eval, Denote, SetOffsets, Preprocess, Scalar, IsInvariant, Good, TimeBlind, NewOffset, TimeOf, TimeAsVector;
    var q, e := Query(g.start, g.end), Agg(op, Scalar(p), body);
    if ReadTime(p, body, g, t) == MeantTime(p, g, t) {
      forall I | TimeBlind(I)
        ensures Eval(I, SetOffsets(Preprocess(q, e), g.start, 0), g, t) == Denote(I, q, e, t)
      {
        AggregateValue(I, op, p, body, g, t);
        AggregateMeaning(I, q, op, p, body, t);
        ScalarIsTimeBlind(I, I.instant(p.id, MeantTime(p, g, t)), if IsInvariant(body) then g.start else t, t);
      }
    } else if RightAt(e, g, t) {
      RightOnClock(e, g, t);
      ParameterOnClock(op, p, body, g, t);
      TimesAreDistinct(ReadTime(p, body, g, t), MeantTime(p, g, t));
    }
  }

  /** An `@` selector in an aggregation parameter is never wrapped, so it slides with the steps. */
  lemma AggregateParameterSlides(op: string, p: Selector, body: Expr, g: Grid, t: int)
    requires !IsInvariant(body) && AlwaysGood(Query(g.start, g.end), body, g.start) && Step(g, t)
    ensures RightAt(Agg(op, Scalar(p), body), g, t) <==>
            match p.at { case NoAt => true case AtEnd => t == g.end case _ => t == g.start }
  {
    ParameterRightIff(op, p, body, g, t);
  }

  /** A parameter that does depend on the step is frozen when the aggregated expression is invariant. */
  lemma AggregateParameterIsFrozen(op: string, p: Selector, body: Expr, g: Grid, t: int)
    requires IsInvariant(body) && AlwaysGood(Query(g.start, g.end), body, g.start) && Step(g, t)
    ensures RightAt(Agg(op, Scalar(p), body), g, t) <==>
            match p.at { case NoAt => t == g.start case AtEnd => g.start == g.end case _ => true }
  {
    ParameterRightIff(op, p, body, g, t);
  }

  /** For instance topk(scalar(p @ ts), x), and topk(scalar(p), x @ ts). */
  lemma TopkOfSelectors(p: Selector, x: Selector, g: Grid, t: int)
    requires p.at.NoAt? != x.at.NoAt? && !p.at.AtEnd? && Step(g, t)
    ensures RightAt(Agg("topk", Scalar(p), Sel(x)), g, t) <==> t == g.start
  {
    if x.at.NoAt? {
      AggregateParameterSlides("topk", p, Sel(x), g, t);
    } else {
      AggregateParameterIsFrozen("topk", p, Sel(x), g, t);
    }
  }
}
