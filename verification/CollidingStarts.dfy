/**
 Subqueries that start where the query starts. Their evaluator skips the second
 setOffsetForAtModifier (pkg/promql/engine.go:1741-1746), so that every `@` below them that is read
 through an offset is wrong by the offset of the subquery. For any body without a further subquery
 this module says what is computed instead, and exactly when that is still right.
 */
module CollidingStarts {
  import opened Arith
  import opened PromqlAst
  import opened AtModifier
  import opened AtModifierGaps

  predicate NoSubquery(e: Expr) {
    match e
    case Num(_) => true
    case Str(_) => true
    case Sel(_) => true
    case TimestampOf(_) => true
    case Call(_, args) => NoSubqueryArgs(args)
    case RangeCall(_, r, _, others) => r.Matrix? && NoSubqueryArgs(others)
    case Agg(_, param, body) => NoSubqueryArgs(param) && NoSubquery(body)
    case Bin(_, l, r) => NoSubquery(l) && NoSubquery(r)
    case Neg(b) => NoSubquery(b)
    case Paren(b) => NoSubquery(b)
    case StepInvariant(b) => NoSubquery(b)
  }

  predicate NoSubqueryArgs(args: Args) {
    args.Cons? ==> NoSubquery(args.head) && NoSubqueryArgs(args.tail)
  }

  lemma {:induction false} RewriteNoSubquery(q: Query, e: Expr)
    requires NoSubquery(e)
    ensures NoSubquery(Rewrite(q, e)) && NoSubquery(Preprocess(q, e))
    decreases e
  {
    hide IsInvariant;
    match e
    case Num(_) =>
    case Str(_) =>
    case Sel(_) =>
    case TimestampOf(_) =>
    case Call(_, args) => RewriteArgsNoSubquery(q, args, !IsInvariant(e));
    case RangeCall(_, _, _, others) => RewriteArgsNoSubquery(q, others, !IsInvariant(e));
    case Agg(_, _, body) => RewriteNoSubquery(q, body);
    case Bin(_, l, r) =>
      RewriteNoSubquery(q, l);
      RewriteNoSubquery(q, r);
    case Neg(b) => RewriteNoSubquery(q, b);
    case Paren(b) => RewriteNoSubquery(q, b);
    case StepInvariant(_) =>
  }

  lemma {:induction false} RewriteArgsNoSubquery(q: Query, args: Args, wrap: bool)
    requires NoSubqueryArgs(args)
    ensures NoSubqueryArgs(RewriteArgs(q, args, wrap))
    decreases args
  {
    if args.Cons? {
      RewriteNoSubquery(q, args.head);
      RewriteArgsNoSubquery(q, args.tail, wrap);
    }
  }

  // ---------- The tree that is computed instead ----------

  function MovedSelector(s: Selector, d: int): Selector {
    if s.at.AtTime? then s.(at := AtTime(s.at.ts + d)) else s
  }

  /** The times that are read through an offset move by d. */
  function Moved(e: Expr, d: int): (r: Expr)
    ensures Literal(r) == Literal(e)
  {
    match e
    case Num(_) => e
    case Str(_) => e
    case Sel(s) => Sel(MovedSelector(s, d))
    case TimestampOf(_) => e
    case Call(fn, args) => Call(fn, MovedArgs(args, d))
    case RangeCall(fn, r, w, others) => RangeCall(fn, MovedRange(r, d), w, MovedArgs(others, d))
    case Agg(op, param, body) => Agg(op, MovedArgs(param, d), Moved(body, d))
    case Bin(op, l, r) => Bin(op, Moved(l, d), Moved(r, d))
    case Neg(b) => Neg(Moved(b, d))
    case Paren(b) => Paren(Moved(b, d))
    case StepInvariant(b) => StepInvariant(Moved(b, d))
  }

  function MovedRange(r: Range, d: int): Range {
    if r.Matrix? then r.(sel := MovedSelector(r.sel, d)) else r
  }

  function MovedArgs(args: Args, d: int): Args {
    match args
    case Nil => Nil
    case Cons(e, rest) => Cons(Moved(e, d), MovedArgs(rest, d))
  }

  lemma {:induction false} MovedTimeFree(e: Expr, d: int)
    requires TimeFree(e) && NoSubquery(e)
    ensures TimeFree(Moved(e, d))
    decreases e
  {
    match e
    case Num(_) =>
    case Str(_) =>
    case Sel(_) =>
    case TimestampOf(_) =>
    case Call(_, args) => MovedTimeFreeArgs(args, d);
    case RangeCall(_, _, _, others) => MovedTimeFreeArgs(others, d);
    case Agg(_, param, body) =>
      MovedTimeFreeArgs(param, d);
      MovedTimeFree(body, d);
    case Bin(_, l, r) =>
      MovedTimeFree(l, d);
      MovedTimeFree(r, d);
    case Neg(b) => MovedTimeFree(b, d);
    case Paren(b) => MovedTimeFree(b, d);
    case StepInvariant(b) => MovedTimeFree(b, d);
  }

  lemma {:induction false} MovedTimeFreeArgs(args: Args, d: int)
    requires TimeFreeArgs(args) && NoSubqueryArgs(args)
    ensures TimeFreeArgs(MovedArgs(args, d)) && (MovedArgs(args, d).Nil? <==> args.Nil?)
    decreases args
  {
    if args.Cons? {
      MovedTimeFree(args.head, d);
      MovedTimeFreeArgs(args.tail, d);
    }
  }

  /** With d left in the offsets, an evaluator computes the meaning of the tree moved by d. */
  lemma {:induction false} EvalMoved(I: Interp, q: Query, e: Expr, g: Grid, t: int, single: bool, d: int)
    requires TimeBlind(I) && Ready(I, e, g.start, single) && NoSubquery(e)
    requires Step(g, t) && (single ==> t == g.start)
    ensures Eval(I, SetOffsets(e, g.start, d), g, t) == Denote(I, q, Moved(e, d), t)
    decreases e, 1
  {
    hide EvalRange, EvalArgs, DenoteRange, DenoteArgs, SetOffsetsRange, SetOffsetsArgs, ReadyRange, ReadyArgs,
        MovedArgs;
    hide ResultOffset, TimeBlind, TimeFree, NoSubqueryArgs;
    match e
    case Num(_) =>
    case Str(_) =>
    case Sel(_) =>
    case TimestampOf(_) =>
    case Call(_, args) => EvalMovedArgs(I, q, args, g, t, single, d);
    case RangeCall(_, _, _, _) => EvalMovedRangeCall(I, q, e, g, t, single, d);
    case Agg(_, param, body) =>
      EvalMovedArgs(I, q, param, g, t, single, d);
      EvalMoved(I, q, body, g, t, single, d);
    case Bin(_, l, r) =>
      EvalMoved(I, q, l, g, t, single, d);
      EvalMoved(I, q, r, g, t, single, d);
    case Neg(b) => EvalMoved(I, q, b, g, t, single, d);
    case Paren(b) => EvalMoved(I, q, b, g, t, single, d);
    case StepInvariant(b) =>
      EvalMoved(I, q, b, Grid(g.start, g.start, g.interval), g.start, true, d);
      MovedTimeFree(b, d);
      TimeFreeIsConstant(I, q, Moved(b, d), g.start, t);
  }

  lemma {:induction false} EvalMovedRangeCall(I: Interp, q: Query, e: Expr, g: Grid, t: int, single: bool, d: int)
    requires TimeBlind(I) && e.RangeCall? && Ready(I, e, g.start, single) && NoSubquery(e)
    requires Step(g, t) && (single ==> t == g.start)
    ensures Eval(I, SetOffsets(e, g.start, d), g, t) == Denote(I, q, Moved(e, d), t)
    decreases e, 0
  {
    hide EvalArgs, DenoteArgs, SetOffsetsArgs, ReadyArgs, MovedArgs, TimeBlind, NoSubqueryArgs;
    EvalMovedArgs(I, q, e.others, g, t, single, d);
  }

  lemma {:induction false} EvalMovedArgs(I: Interp, q: Query, args: Args, g: Grid, t: int, single: bool, d: int)
    requires TimeBlind(I) && ReadyArgs(I, args, g.start, single) && NoSubqueryArgs(args)
    requires Step(g, t) && (single ==> t == g.start)
    ensures EvalArgs(I, SetOffsetsArgs(args, g.start, d), g, t) == DenoteArgs(I, q, MovedArgs(args, d), t)
    decreases args
  {
    hide Eval, Denote, TimeBlind;
    if args.Cons? {
      EvalMoved(I, q, args.head, g, t, single, d);
      EvalMovedArgs(I, q, args.tail, g, t, single, d);
    }
  }

  // ---------- A call over a subquery ----------

  /** A subquery with a step of its own. */
  datatype Sub = Sub(body: Expr, span: int, step: Positive, original: int, at: At) {
    function AsRange(): Range {
      Subquery(body, span, step, original, 0, at)
    }

    /** The offset by which the engine moves its evaluator. */
    function Shift(q: Query): int {
      NewOffset(Resolve(at, q), original, q.start, 0)
    }

    function Start(q: Query): int {
      AlignedStart(q.start - Shift(q) - span, step)
    }

    /** It starts where the query starts, and something below it is read through an offset that is not set again. */
    predicate Collides(q: Query) {
      Start(q) == q.start && Shift(q) != 0 && !OffsetFree(body)
    }

    function High(q: Query, t: int): int {
      TimeOf(at, q, t) - original
    }

    /** No evaluation time of the subquery falls into its range at step t. */
    predicate Empty(q: Query, t: int) {
      AlignedStart(High(q, t) - span, step) > High(q, t)
    }

    /** The body as it is evaluated. */
    function Computed(q: Query): Expr {
      if Collides(q) then Moved(Preprocess(q, body), Shift(q)) else Preprocess(q, body)
    }
  }

  /** The points of a subquery in its range at step t, by the values of some tree. */
  function Points(I: Interp, q: Query, u: Sub, e: Expr, t: int): RangeVector {
    map x | u.High(q, t) - u.span <= x <= u.High(q, t) && x % u.step == 0 :: Denote(I, q, e, x)
  }

  lemma SubCollides(I: Interp, u: Sub, q: Query)
    ensures StartsCollide(I, RewriteRange(q, u.AsRange()), q.start) == u.Collides(q)
  {
    hide AlignedStart;
    PreprocessOffsetFree(q, u.body);
  }

  /** The subquery with its offsets set for the start of the query. */
  lemma SubOffsets(I: Interp, u: Sub, g: Grid, q: Query, t: int)
    requires q.start == g.start && (u.at.NoAt? || t == g.start)
    ensures var r := SetOffsetsRange(RewriteRange(q, u.AsRange()), g.start, 0);
            && r.Subquery? && r.span == u.span && t - ResultOffset(r, g) == u.High(q, t)
            && SubGrid(I, r, g) == Grid(u.Start(q), g.end - u.Shift(q), u.step)
            && r.body == SetOffsets(Preprocess(q, u.body), g.start, u.Shift(q))
  {
    hide SetOffsets, AlignedStart;
  }

  lemma SubReach(u: Sub, g: Grid, q: Query, t: int)
    requires Step(g, t) && q.start == g.start && (u.at.NoAt? || t == g.start)
    ensures g.start - u.Shift(q) <= u.High(q, t) <= g.end - u.Shift(q)
  {
  }

  /** At each of its steps the evaluator of the subquery computes the moved body if the starts collide. */
  lemma SubPoint(I: Interp, u: Sub, g: Grid, q: Query, t: int, x: int)
    requires TimeBlind(I) && NoSubquery(u.body) && Good(I, q, u.body, u.Start(q))
    requires q.start == g.start && (u.at.NoAt? || t == g.start)
    requires Step(Grid(u.Start(q), g.end - u.Shift(q), u.step), x)
    ensures var r := SetOffsetsRange(RewriteRange(q, u.AsRange()), g.start, 0);
            r.Subquery? && Eval(I, SubBody(I, r, g), SubGrid(I, r, g), x) == Denote(I, q, u.Computed(q), x)
  {
    hide Eval, Denote, SetOffsets, SetOffsetsRange, RewriteRange, Preprocess, AlignedStart, StartsCollide, SubGrid,
        TimeBlind;
    hide Ready, Good, NoSubquery, Moved, Step;
    var r := SetOffsetsRange(RewriteRange(q, u.AsRange()), g.start, 0);
    var g', body := Grid(u.Start(q), g.end - u.Shift(q), u.step), Preprocess(q, u.body);
    SubCollides(I, u, q);
    SubOffsets(I, u, g, q, t);
    RewriteIsReady(I, q, u.body, u.Start(q));
    if u.Collides(q) {
      RewriteNoSubquery(q, u.body);
      EvalMoved(I, q, body, g', x, false, u.Shift(q));
    } else {
      RewrittenSub(u, q);
      SubBodyOffsets(I, RewriteRange(q, u.AsRange()), g);
      EvalReady(I, q, body, g', x, false);
    }
  }

  lemma RewrittenSub(u: Sub, q: Query)
    ensures var r := RewriteRange(q, u.AsRange()); r.Subquery? && r.body == Preprocess(q, u.body)
  {
    hide Preprocess;
  }

  /** The points of a window are the multiples of the step, if the evaluator reaches from end to end. */
  lemma MultiplesAreSteps(g: Grid, bound: int, x: int)
    requires g.start == AlignedStart(bound, g.interval) && bound <= x <= g.end
    ensures Step(g, x) <==> x % g.interval == 0
  {
    AlignedStartIsLeastMultiple(bound, g.interval);
    ShiftByMultiple(g.start, x, g.interval);
  }

  lemma EvalSubquery(I: Interp, r: Range, g: Grid, t: int)
    requires r.Subquery?
    ensures var hi, g' := t - ResultOffset(r, g), SubGrid(I, r, g);
            EvalRange(I, r, g, t) == map x | hi - r.span <= x <= hi && Step(g', x) :: Eval(I, SubBody(I, r, g), g', x)
  {
  }

  /** What the engine reads for the subquery at the first step, or at any step if it has no modifier. */
  lemma SubValue(I: Interp, u: Sub, g: Grid, q: Query, t: int)
    requires TimeBlind(I) && NoSubquery(u.body) && Good(I, q, u.body, u.Start(q))
    requires Step(g, t) && q.start == g.start && (u.at.NoAt? || t == g.start)
    ensures var r := SetOffsetsRange(RewriteRange(q, u.AsRange()), g.start, 0);
            && r.span == u.span && t - ResultOffset(r, g) == u.High(q, t)
            && EvalRange(I, r, g, t) == Points(I, q, u, u.Computed(q), t)
  {
    hide Eval, EvalRange, Denote, SetOffsets, SetOffsetsRange, RewriteRange, AlignedStart, SubBody, SubGrid,
        ResultOffset, Step;
    hide TimeBlind, Good, NoSubquery, Sub.Computed;
    var r, hi := SetOffsetsRange(RewriteRange(q, u.AsRange()), g.start, 0), u.High(q, t);
    var g' := Grid(u.Start(q), g.end - u.Shift(q), u.step);
    SubOffsets(I, u, g, q, t);
    SubReach(u, g, q, t);
    EvalSubquery(I, r, g, t);
    forall x | hi - u.span <= x <= hi
      ensures Step(g', x) <==> x % u.step == 0
      ensures Step(g', x) ==> Eval(I, SubBody(I, r, g), g', x) == Denote(I, q, u.Computed(q), x)
    {
      MultiplesAreSteps(g', g.start - u.Shift(q) - u.span, x);
      if Step(g', x) {
        SubPoint(I, u, g, q, t, x);
      }
    }
  }

  /** What an evaluator computes for a call over such a subquery: a call over the computed points. */
  ghost predicate CallsComputed(I: Interp, fn: string, u: Sub, others: Args, q: Query, t: int, v: Vector) {
    var hi := u.High(q, t);
    v == I.rangeCall(fn, hi - u.span, hi, Points(I, q, u, u.Computed(q), t), DenoteArgs(I, q, others, t), t)
  }

  lemma SubCallAt(I: Interp, fn: string, u: Sub, others: Args, wrap: bool, g: Grid, q: Query, t: int)
    requires TimeBlind(I) && NoSubquery(u.body) && Good(I, q, u.body, u.Start(q))
    requires Step(g, t) && q.start == g.start && (u.at.NoAt? || t == g.start)
    requires GoodArgs(I, q, others, g.start) && (wrap || (AllInvariant(others) && t == g.start))
    ensures var r := SetOffsetsRange(RewriteRange(q, u.AsRange()), g.start, 0);
            var args := SetOffsetsArgs(RewriteArgs(q, others, wrap), g.start, 0);
            CallsComputed(I, fn, u, others, q, t, Eval(I, RangeCall(fn, r, false, args), g, t))
  {
    hide Eval, EvalRange, EvalArgs, DenoteArgs, SetOffsetsRange, SetOffsetsArgs, RewriteArgs, RewriteRange,
        ResultOffset;
    hide TimeBlind, Good, GoodArgs, AllInvariant, Step, NoSubquery, Points, Sub.Computed, Sub.Start, Sub.High;
    var r := SetOffsetsRange(RewriteRange(q, u.AsRange()), g.start, 0);
    var args := SetOffsetsArgs(RewriteArgs(q, others, wrap), g.start, 0);
    SubValue(I, u, g, q, t);
    OtherArguments(I, q, others, wrap, g, t);
    EvalRangeCall(I, fn, r, false, args, g, t);
  }

  /** An invariant call may be evaluated at the first step for all of them. */
  lemma ComputedCallIsConstant(I: Interp, fn: string, u: Sub, others: Args, q: Query, t: int, t': int, v: Vector)
    requires TimeBlind(I) && IsInvariant(RangeCall(fn, u.AsRange(), false, others))
    requires GoodArgs(I, q, others, q.start) && CallsComputed(I, fn, u, others, q, t, v)
    ensures CallsComputed(I, fn, u, others, q, t', v)
  {
    hide Denote, DenoteArgs, RewriteArgs, AlignedStart, GoodArgs, AllInvariant, TimeFreeArgs, Sub.Computed;
    RewriteArgsAreReady(I, q, others, q.start, false);
    RewriteArgsKeepMeaning(I, q, others, false, t);
    RewriteArgsKeepMeaning(I, q, others, false, t');
    TimeFreeArgsAreConstant(I, q, RewriteArgs(q, others, false), t, t');
  }

  /** What the engine computes for a whole query over such a subquery. */
  lemma SubCall(I: Interp, fn: string, u: Sub, others: Args, g: Grid, t: int)
    requires TimeBlind(I) && Step(g, t) && NoSubquery(u.body)
    requires u.at.NoAt? || IsInvariant(RangeCall(fn, u.AsRange(), false, others))
    requires var q := Query(g.start, g.end); Good(I, q, u.body, u.Start(q)) && GoodArgs(I, q, others, g.start)
    ensures var q, e := Query(g.start, g.end), RangeCall(fn, u.AsRange(), false, others);
            CallsComputed(I, fn, u, others, q, t, Eval(I, SetOffsets(Preprocess(q, e), g.start, 0), g, t))
  {
    hide Eval, SetOffsets, Preprocess, SetOffsetsRange, SetOffsetsArgs, RewriteArgs, RewriteRange, CallsComputed,
        TimeBlind;
    hide Good, GoodArgs, AllInvariant, NoSubquery, Sub.Start;
    var q, e := Query(g.start, g.end), RangeCall(fn, u.AsRange(), false, others);
    var r := SetOffsetsRange(RewriteRange(q, u.AsRange()), g.start, 0);
    PreparedRangeCall(fn, u.AsRange(), others, q);
    if IsInvariant(e) {
      var g', args := Grid(g.start, g.start, g.interval), SetOffsetsArgs(RewriteArgs(q, others, false), g.start, 0);
      FirstIsStep(g');
      SubCallAt(I, fn, u, others, false, g', q, g.start);
      EvalInvariant(I, RangeCall(fn, r, false, args), g, t);
      ComputedCallIsConstant(I, fn, u, others, q, g.start, t, Eval(I, RangeCall(fn, r, false, args), g', g.start));
    } else {
      SubCallAt(I, fn, u, others, true, g, q, t);
    }
  }

  /** The meaning of the call: a call over the points of the preprocessed body. */
  lemma SubMeaning(I: Interp, fn: string, u: Sub, others: Args, q: Query, t: int)
    ensures var hi := u.High(q, t);
            Denote(I, q, RangeCall(fn, u.AsRange(), false, others), t) ==
            I.rangeCall(fn, hi - u.span, hi, Points(I, q, u, Preprocess(q, u.body), t), DenoteArgs(I, q, others, t), t)
  {
    hide Denote, DenoteArgs, Preprocess;
    DenoteRangeCall(I, q, fn, u.AsRange(), others, t);
    assert StepOf(I, u.AsRange()) == u.step;
    forall x {
      RewriteKeepsMeaning(I, q, u.body, x);
    }
    assert DenoteRange(I, q, u.AsRange(), t) == Points(I, q, u, Preprocess(q, u.body), t);
  }

  // ---------- Operators that add everything up ----------

  function Single(r: real): Vector {
    map[map[] := Fin(r)]
  }

  function Val(v: Vector): real {
    var k: Labels := map[];
    if k in v && v[k].Fin? then v[k].r else 0.0
  }

  function Total(args: seq<Value>): real {
    if args == [] then 0.0 else (if args[0].Vec? then Val(args[0].v) else 0.0) + Total(args[1..])
  }

  /** A range function adds the earliest point of a subquery, or else the end of its window. */
  function Adding(step: Positive): Interp {
    Interp(
      (id, x) => Single(x as real),
      (id, x) => Single(0.0),
      (id, lo, hi) => map[],
      (fn, args, t) => Single(Total(args)),
      (fn, lo, hi, w, args, t) =>
        Single((if AlignedStart(lo, step) in w then Val(w[AlignedStart(lo, step)]) else hi as real) + Total(args)),
      (op, param, v) => Single(Total(param) + Val(v)),
      (op, l, r) => Single(Val(l) + Val(r)),
      v => v,
      span => 1)
  }

  lemma AddingIsTimeBlind(step: Positive)
    ensures TimeBlind(Adding(step))
  {
    hide AlignedStart, Total, Val;
  }

  function Weigh(s: Selector, d: int): real {
    if s.at.AtTime? then d as real else 0.0
  }

  /** By how much moving a tree by d changes its total. */
  function Weight(e: Expr, d: int): real {
    match e
    case Num(_) => 0.0
    case Str(_) => 0.0
    case Sel(s) => Weigh(s, d)
    case TimestampOf(_) => 0.0
    case Call(_, args) => WeightArgs(args, d)
    case RangeCall(_, r, _, others) => (if r.Matrix? then Weigh(r.sel, d) else 0.0) + WeightArgs(others, d)
    case Agg(_, param, body) => WeightArgs(param, d) + Weight(body, d)
    case Bin(_, l, r) => Weight(l, d) + Weight(r, d)
    case Neg(b) => Weight(b, d)
    case Paren(b) => Weight(b, d)
    case StepInvariant(b) => Weight(b, d)
  }

  function WeightArgs(args: Args, d: int): real {
    match args
    case Nil => 0.0
    case Cons(e, rest) => Weight(e, d) + WeightArgs(rest, d)
  }

  lemma AddedNode(step: Positive, op: string, id: int, x: int, args: seq<Value>, l: Vector, r: Vector, t: int)
    ensures var I := Adding(step);
      && Val(I.instant(id, x)) == x as real && Val(I.stamps(id, x)) == 0.0
      && Val(I.call(op, args, t)) == Total(args)
      && Val(I.aggregate(op, args, l)) == Total(args) + Val(l)
      && Val(I.binary(op, l, r)) == Val(l) + Val(r) && I.negate(l) == l
  {
    hide AlignedStart, Total;
  }

  lemma AddedRange(step: Positive, q: Query, e: Expr, t: int)
    requires e.RangeCall? && e.arg.Matrix?
    ensures var I := Adding(step);
      Val(Denote(I, q, e, t)) ==
      (TimeOf(e.arg.sel.at, q, t) - e.arg.sel.original) as real + Total(DenoteArgs(I, q, e.others, t))
  {
    hide DenoteArgs, Total, AlignedStart;
  }

  lemma {:induction false} MovingAdds(step: Positive, q: Query, e: Expr, d: int, t: int)
    requires NoSubquery(e)
    ensures Val(Denote(Adding(step), q, Moved(e, d), t)) == Val(Denote(Adding(step), q, e, t)) + Weight(e, d)
    decreases e
  {
    hide DenoteArgs, DenoteRange, MovedArgs, WeightArgs, NoSubqueryArgs, Total, AlignedStart, Adding, Val;
    var I := Adding(step);
    match e
    case Num(_) =>
    case Str(_) =>
    case Sel(s) =>
      AddedNode(step, "", s.id, TimeOf(s.at, q, t) - s.original, [], map[], map[], t);
      AddedNode(step, "", s.id, TimeOf(MovedSelector(s, d).at, q, t) - s.original, [], map[], map[], t);
    case TimestampOf(_) =>
    case Call(fn, args) =>
      MovingAddsArgs(step, q, args, d, t);
      AddedNode(step, fn, 0, 0, DenoteArgs(I, q, args, t), map[], map[], t);
      AddedNode(step, fn, 0, 0, DenoteArgs(I, q, MovedArgs(args, d), t), map[], map[], t);
    case RangeCall(_, _, _, others) =>
      MovingAddsArgs(step, q, others, d, t);
      AddedRange(step, q, e, t);
      AddedRange(step, q, Moved(e, d), t);
    case Agg(op, param, body) =>
      MovingAddsArgs(step, q, param, d, t);
      MovingAdds(step, q, body, d, t);
      AddedNode(step, op, 0, 0, DenoteArgs(I, q, param, t), Denote(I, q, body, t), map[], t);
      AddedNode(step, op, 0, 0, DenoteArgs(I, q, MovedArgs(param, d), t), Denote(I, q, Moved(body, d), t), map[], t);
    case Bin(op, l, r) =>
      MovingAdds(step, q, l, d, t);
      MovingAdds(step, q, r, d, t);
      AddedNode(step, op, 0, 0, [], Denote(I, q, l, t), Denote(I, q, r, t), t);
      AddedNode(step, op, 0, 0, [], Denote(I, q, Moved(l, d), t), Denote(I, q, Moved(r, d), t), t);
    case Neg(b) =>
      MovingAdds(step, q, b, d, t);
      AddedNode(step, "", 0, 0, [], Denote(I, q, b, t), map[], t);
      AddedNode(step, "", 0, 0, [], Denote(I, q, Moved(b, d), t), map[], t);
    case Paren(b) => MovingAdds(step, q, b, d, t);
    case StepInvariant(b) => MovingAdds(step, q, b, d, t);
  }

  lemma {:induction false} MovingAddsArgs(step: Positive, q: Query, args: Args, d: int, t: int)
    requires NoSubqueryArgs(args)
    ensures Total(DenoteArgs(Adding(step), q, MovedArgs(args, d), t)) ==
            Total(DenoteArgs(Adding(step), q, args, t)) + WeightArgs(args, d)
    decreases args
  {
    hide Denote, Val, Adding, Weight;
    if args.Cons? {
      MovingAdds(step, q, args.head, d, t);
      MovingAddsArgs(step, q, args.tail, d, t);
      if Literal(args.head) != [] {
        LiteralWeighsNothing(args.head, d);
      }
    }
  }

  lemma {:induction false} LiteralWeighsNothing(e: Expr, d: int)
    requires Literal(e) != []
    ensures Weight(e, d) == 0.0
    decreases e
  {
    match e
    case Paren(b) => LiteralWeighsNothing(b, d);
    case StepInvariant(b) => LiteralWeighsNothing(b, d);
    case _ =>
  }

  /** All moves go the same way, so they cannot cancel. */
  lemma {:induction false} WeightSign(I: Interp, e: Expr, start: int, single: bool, d: int)
    requires Ready(I, e, start, single) && NoSubquery(e)
    ensures d >= 0 ==> Weight(e, d) >= 0.0
    ensures d <= 0 ==> Weight(e, d) <= 0.0
    ensures d != 0 && !OffsetFree(e) ==> Weight(e, d) != 0.0
    decreases e
  {
    match e
    case Num(_) =>
    case Str(_) =>
    case Sel(_) =>
    case TimestampOf(_) =>
    case Call(_, args) => WeightSignArgs(I, args, start, single, d);
    case RangeCall(_, r, _, others) =>
      WeightSignArgs(I, others, start, single, d);
      assert ReadyRange(I, r, start, single) && OffsetFreeRange(r) == r.sel.at.NoAt?;
    case Agg(_, param, body) =>
      WeightSignArgs(I, param, start, single, d);
      WeightSign(I, body, start, single, d);
    case Bin(_, l, r) =>
      WeightSign(I, l, start, single, d);
      WeightSign(I, r, start, single, d);
    case Neg(b) => WeightSign(I, b, start, single, d);
    case Paren(b) => WeightSign(I, b, start, single, d);
    case StepInvariant(b) => WeightSign(I, b, start, true, d);
  }

  lemma {:induction false} WeightSignArgs(I: Interp, args: Args, start: int, single: bool, d: int)
    requires ReadyArgs(I, args, start, single) && NoSubqueryArgs(args)
    ensures d >= 0 ==> WeightArgs(args, d) >= 0.0
    ensures d <= 0 ==> WeightArgs(args, d) <= 0.0
    ensures d != 0 && !OffsetFreeArgs(args) ==> WeightArgs(args, d) != 0.0
    decreases args
  {
    if args.Cons? {
      WeightSign(I, args.head, start, single, d);
      WeightSignArgs(I, args.tail, start, single, d);
    }
  }

  // ---------- Exactly when the engine is right ----------

  lemma EmptyPoints(I: Interp, q: Query, u: Sub, e: Expr, e': Expr, t: int)
    requires u.Empty(q, t)
    ensures Points(I, q, u, e, t) == Points(I, q, u, e', t)
  {
    hide Denote;
    AlignedStartIsLeastMultiple(u.High(q, t) - u.span, u.step);
  }

  lemma AddingFinds(u: Sub, fn: string, q: Query, e: Expr, args: seq<Value>, t: int)
    requires !u.Empty(q, t)
    ensures var I, hi := Adding(u.step), u.High(q, t);
            Val(I.rangeCall(fn, hi - u.span, hi, Points(I, q, u, e, t), args, t)) ==
            Val(Denote(I, q, e, AlignedStart(hi - u.span, u.step))) + Total(args)
  {
    hide Denote, Total;
    AlignedStartIsLeastMultiple(u.High(q, t) - u.span, u.step);
  }

  /** Where the starts collide and there is a point, adding up shows the difference. */
  lemma AddingShows(fn: string, u: Sub, others: Args, g: Grid, t: int)
    requires Step(g, t) && NoSubquery(u.body)
    requires u.at.NoAt? || IsInvariant(RangeCall(fn, u.AsRange(), false, others))
    requires var q := Query(g.start, g.end);
             Good(Adding(u.step), q, u.body, u.Start(q)) && GoodArgs(Adding(u.step), q, others, g.start)
    requires u.Collides(Query(g.start, g.end)) && !u.Empty(Query(g.start, g.end), t)
    ensures var I, q, e := Adding(u.step), Query(g.start, g.end), RangeCall(fn, u.AsRange(), false, others);
            Eval(I, SetOffsets(Preprocess(q, e), g.start, 0), g, t) != Denote(I, q, e, t)
  {
    hide Eval, Denote, SetOffsets, Preprocess, IsInvariant, AlignedStart, Good, GoodArgs, TimeBlind, NoSubquery,
        Moved, OffsetFree;
    hide Adding, Points, Val, Total, Ready, Weight, DenoteArgs;
    var I, q, e := Adding(u.step), Query(g.start, g.end), RangeCall(fn, u.AsRange(), false, others);
    var body, args := Preprocess(q, u.body), DenoteArgs(I, q, others, t);
    var x := AlignedStart(u.High(q, t) - u.span, u.step);
    AddingIsTimeBlind(u.step);
    SubCall(I, fn, u, others, g, t);
    SubMeaning(I, fn, u, others, q, t);
    AddingFinds(u, fn, q, u.Computed(q), args, t);
    AddingFinds(u, fn, q, body, args, t);
    RewriteNoSubquery(q, u.body);
    MovingAdds(u.step, q, body, u.Shift(q), x);
    RewriteIsReady(I, q, u.body, u.Start(q));
    PreprocessOffsetFree(q, u.body);
    WeightSign(I, body, u.Start(q), false, u.Shift(q));
  }

  /** A whole query over such a subquery: right iff the starts do not collide or no point is in the range. */
  lemma CollidingCallRightIff(fn: string, u: Sub, others: Args, g: Grid, t: int)
    requires Step(g, t) && NoSubquery(u.body)
    requires u.at.NoAt? || IsInvariant(RangeCall(fn, u.AsRange(), false, others))
    requires var q := Query(g.start, g.end); AlwaysGood(q, u.body, u.Start(q)) && AlwaysGoodArgs(q, others, g.start)
    ensures var q := Query(g.start, g.end);
            RightAt(RangeCall(fn, u.AsRange(), false, others), g, t) <==> !u.Collides(q) || u.Empty(q, t)
  {
    hide Eval, Denote, DenoteArgs, SetOffsets, Preprocess, IsInvariant, AlignedStart, Good, GoodArgs, TimeBlind,
        NoSubquery;
    hide Adding, Points, OffsetFree, Moved;
    var q, e := Query(g.start, g.end), RangeCall(fn, u.AsRange(), false, others);
    if !u.Collides(q) || u.Empty(q, t) {
      forall I | TimeBlind(I)
        ensures Eval(I, SetOffsets(Preprocess(q, e), g.start, 0), g, t) == Denote(I, q, e, t)
      {
        SubCall(I, fn, u, others, g, t);
        SubMeaning(I, fn, u, others, q, t);
        if u.Empty(q, t) {
          EmptyPoints(I, q, u, u.Computed(q), Preprocess(q, u.body), t);
        }
      }
    } else if RightAt(e, g, t) {
      AddingIsTimeBlind(u.step);
      AddingShows(fn, u, others, g, t);
    }
  }

  /**
   Starts do collide: (x @ ts)[5:1] offset -5 over the single step 0, and, without a negative
   offset, (x @ ts)[5:20] offset 5 over the steps 0 and 10.
   */
  lemma StartsCanCollide(fn: string, id: int, ts: int)
    ensures var x := Sel(Selector(id, 0, 0, AtTime(ts)));
      && !RightAt(RangeCall(fn, Sub(x, 5, 1, -5, NoAt).AsRange(), false, Nil), Grid(0, 0, 1), 0)
      && !RightAt(RangeCall(fn, Sub(x, 5, 20, 5, NoAt).AsRange(), false, Nil), Grid(0, 10, 10), 10)
  {
    var x := Sel(Selector(id, 0, 0, AtTime(ts)));
    CollidingCallRightIff(fn, Sub(x, 5, 1, -5, NoAt), Nil, Grid(0, 0, 1), 0);
    CollidingCallRightIff(fn, Sub(x, 5, 20, 5, NoAt), Nil, Grid(0, 10, 10), 10);
  }
}
