/**
 What the engine returns for a query (pkg/promql/engine.go:664-760), in terms of what it returns for
 the parts of the query as queries of their own, and for the same query at a single time. Whether a
 part is wrapped, evaluated once or has its offset adjusted does not show in these laws.
 */
module QueryParts {
  import opened PromqlAst
  import opened AtModifier
  import opened InstantQuery

  /** The value at step t of the preprocessed query, with offsets set for the start. */
  function Runs(I: Interp, e: Expr, g: Grid, t: int): Vector {
    Eval(I, SetOffsets(Preprocess(Query(g.start, g.end), e), g.start, 0), g, t)
  }

  function RunsArgs(I: Interp, args: Args, g: Grid, t: int): seq<Value> {
    match args
    case Nil => []
    case Cons(e, rest) =>
      [if Literal(e) != [] then Text(Literal(e)[0]) else Vec(Runs(I, e, g, t))] + RunsArgs(I, rest, g, t)
  }

  lemma RunsMeans(I: Interp, e: Expr, g: Grid, t: int)
    requires TimeBlind(I) && Good(I, Query(g.start, g.end), e, g.start) && Step(g, t)
    ensures Runs(I, e, g, t) == Denote(I, Query(g.start, g.end), e, t)
  {
    hide Eval, Denote, SetOffsets, Preprocess, TimeBlind, Good;
    PreprocessedQueryMeansTheOriginal(I, e, g);
  }

  lemma {:induction false} RunsArgsMeans(I: Interp, args: Args, g: Grid, t: int)
    requires TimeBlind(I) && GoodArgs(I, Query(g.start, g.end), args, g.start) && Step(g, t)
    ensures RunsArgs(I, args, g, t) == DenoteArgs(I, Query(g.start, g.end), args, t)
    decreases args
  {
    hide Runs, Denote, TimeBlind, Good;
    if args.Cons? {
      RunsMeans(I, args.head, g, t);
      RunsArgsMeans(I, args.tail, g, t);
    }
  }

  // ---------- Operators ----------

  /** The time that a modifier names, or the step. */
  function ModifierTime(at: At, g: Grid, t: int): int {
    match at
    case NoAt => t
    case AtTime(ts) => ts
    case AtStart => g.start
    case AtEnd => g.end
  }

  /** A selector looks back from its time by its offset. */
  lemma SelectorValue(I: Interp, s: Selector, g: Grid, t: int)
    requires TimeBlind(I) && Step(g, t)
    ensures Runs(I, Sel(s), g, t) == I.instant(s.id, ModifierTime(s.at, g, t) - s.original)
    ensures s.at.NoAt? || s.original == 0 ==>
      Runs(I, TimestampOf(s), g, t) == I.stamps(s.id, ModifierTime(s.at, g, t) - s.original)
  {
    hide Runs, TimeBlind;
    RunsMeans(I, Sel(s), g, t);
    if s.at.NoAt? || s.original == 0 {
      RunsMeans(I, TimestampOf(s), g, t);
    }
  }

  lemma OperatorValue(I: Interp, op: string, l: Expr, r: Expr, g: Grid, t: int)
    requires TimeBlind(I) && Good(I, Query(g.start, g.end), Bin(op, l, r), g.start) && Step(g, t)
    ensures Runs(I, Bin(op, l, r), g, t) == I.binary(op, Runs(I, l, g, t), Runs(I, r, g, t))
    ensures Runs(I, Neg(l), g, t) == I.negate(Runs(I, l, g, t)) && Runs(I, Paren(l), g, t) == Runs(I, l, g, t)
  {
    hide Runs, TimeBlind;
    RunsMeans(I, Bin(op, l, r), g, t);
    RunsMeans(I, Neg(l), g, t);
    RunsMeans(I, Paren(l), g, t);
    RunsMeans(I, l, g, t);
    RunsMeans(I, r, g, t);
  }

  lemma CallValue(I: Interp, fn: string, args: Args, g: Grid, t: int)
    requires TimeBlind(I) && Good(I, Query(g.start, g.end), Call(fn, args), g.start) && Step(g, t)
    ensures Runs(I, Call(fn, args), g, t) == I.call(fn, RunsArgs(I, args, g, t), t)
  {
    hide Runs, TimeBlind, RunsArgs;
    RunsMeans(I, Call(fn, args), g, t);
    RunsArgsMeans(I, args, g, t);
  }

  lemma AggregateValue(I: Interp, op: string, param: Args, body: Expr, g: Grid, t: int)
    requires TimeBlind(I) && Good(I, Query(g.start, g.end), Agg(op, param, body), g.start) && Step(g, t)
    requires GoodArgs(I, Query(g.start, g.end), param, g.start)
    ensures Runs(I, Agg(op, param, body), g, t) == I.aggregate(op, RunsArgs(I, param, g, t), Runs(I, body, g, t))
  {
    hide Runs, TimeBlind, RunsArgs, GoodArgs;
    RunsMeans(I, Agg(op, param, body), g, t);
    RunsMeans(I, body, g, t);
    RunsArgsMeans(I, param, g, t);
  }

  /** A range selector hands its function the window that ends at its time, less the offset. */
  lemma WindowValue(I: Interp, fn: string, s: Selector, span: int, others: Args, g: Grid, t: int)
    requires TimeBlind(I) && Step(g, t)
    requires Good(I, Query(g.start, g.end), RangeCall(fn, Matrix(s, span), false, others), g.start)
    ensures var hi := ModifierTime(s.at, g, t) - s.original;
      Runs(I, RangeCall(fn, Matrix(s, span), false, others), g, t) ==
      I.rangeCall(fn, hi - span, hi, I.window(s.id, hi - span, hi), RunsArgs(I, others, g, t), t)
  {
    hide Runs, TimeBlind, RunsArgs;
    RunsMeans(I, RangeCall(fn, Matrix(s, span), false, others), g, t);
    RunsArgsMeans(I, others, g, t);
  }

  // ---------- Range queries and instant queries ----------

  /** The query does not name its own start or end. */
  predicate NoBounds(e: Expr) {
    match e
    case Num(_) => true
    case Str(_) => true
    case Sel(s) => NamesNoBound(s.at)
    case TimestampOf(s) => NamesNoBound(s.at)
    case Call(_, args) => NoBoundsArgs(args)
    case RangeCall(_, r, _, others) =>
      NamesNoBound(r.Modifier()) && (r.Subquery? ==> NoBounds(r.body)) && NoBoundsArgs(others)
    case Agg(_, param, body) => NoBoundsArgs(param) && NoBounds(body)
    case Bin(_, l, r) => NoBounds(l) && NoBounds(r)
    case Neg(b) => NoBounds(b)
    case Paren(b) => NoBounds(b)
    case StepInvariant(b) => NoBounds(b)
  }

  predicate NoBoundsArgs(args: Args) {
    args.Cons? ==> NoBounds(args.head) && NoBoundsArgs(args.tail)
  }

  predicate NamesNoBound(at: At) {
    at.NoAt? || at.AtTime?
  }

  lemma {:induction false} MeaningIgnoresBounds(I: Interp, q: Query, q': Query, e: Expr, t: int)
    requires NoBounds(e)
    ensures Denote(I, q, e, t) == Denote(I, q', e, t)
    decreases e
  {
    match e
    case Num(_) =>
    case Str(_) =>
    case Sel(_) =>
    case TimestampOf(_) =>
    case Call(_, args) => ArgsIgnoreBounds(I, q, q', args, t);
    case RangeCall(_, r, _, others) =>
      ArgsIgnoreBounds(I, q, q', others, t);
      RangeIgnoresBounds(I, q, q', r, t);
    case Agg(_, param, body) =>
      ArgsIgnoreBounds(I, q, q', param, t);
      MeaningIgnoresBounds(I, q, q', body, t);
    case Bin(_, l, r) =>
      MeaningIgnoresBounds(I, q, q', l, t);
      MeaningIgnoresBounds(I, q, q', r, t);
    case Neg(b) => MeaningIgnoresBounds(I, q, q', b, t);
    case Paren(b) => MeaningIgnoresBounds(I, q, q', b, t);
    case StepInvariant(b) => MeaningIgnoresBounds(I, q, q', b, t);
  }

  lemma {:induction false} ArgsIgnoreBounds(I: Interp, q: Query, q': Query, args: Args, t: int)
    requires NoBoundsArgs(args)
    ensures DenoteArgs(I, q, args, t) == DenoteArgs(I, q', args, t)
    decreases args
  {
    if args.Cons? {
      MeaningIgnoresBounds(I, q, q', args.head, t);
      ArgsIgnoreBounds(I, q, q', args.tail, t);
    }
  }

  lemma {:induction false} RangeIgnoresBounds(I: Interp, q: Query, q': Query, r: Range, t: int)
    requires NamesNoBound(r.Modifier()) && (r.Subquery? ==> NoBounds(r.body))
    ensures DenoteRange(I, q, r, t) == DenoteRange(I, q', r, t)
    decreases r
  {
    hide Denote;
    if r.Subquery? {
      forall x {
        MeaningIgnoresBounds(I, q, q', r.body, x);
      }
    }
  }

  /** At each of its steps a range query returns what an instant query at that time returns. */
  lemma RangeQueryIsInstantQueries(I: Interp, e: Expr, g: Grid, t: int)
    requires TimeBlind(I) && Step(g, t) && NoBounds(e)
    requires Good(I, Query(g.start, g.end), e, g.start) && GoodOnce(I, Query(t, t), e, t)
    ensures Runs(I, e, g, t) == Runs(I, e, Grid(t, t, 1), t)
  {
    hide Runs, TimeBlind, NoBounds, Good, GoodOnce, Denote;
    RunsMeans(I, e, g, t);
    RunsOnceMeans(I, e, t);
    MeaningIgnoresBounds(I, Query(g.start, g.end), Query(t, t), e, t);
  }

  lemma RunsOnceMeans(I: Interp, e: Expr, t: int)
    requires TimeBlind(I) && GoodOnce(I, Query(t, t), e, t)
    ensures Runs(I, e, Grid(t, t, 1), t) == Denote(I, Query(t, t), e, t)
  {
    hide Eval, Denote, SetOffsets, Preprocess, TimeBlind, GoodOnce;
    InstantQueryMeansTheOriginal(I, e, Grid(t, t, 1));
  }

  /** A subquery hands its function what instant queries would return at the multiples of its step in its window. */
  lemma SubqueryValue(I: Interp, fn: string, r: Range, others: Args, g: Grid, t: int) returns (window: RangeVector)
    requires TimeBlind(I) && Step(g, t) && r.Subquery? && NoBounds(r.body)
    requires Good(I, Query(g.start, g.end), RangeCall(fn, r, false, others), g.start)
    requires forall x :: GoodOnce(I, Query(x, x), r.body, x)
    ensures var hi := ModifierTime(r.at, g, t) - r.original;
      Runs(I, RangeCall(fn, r, false, others), g, t) ==
      I.rangeCall(fn, hi - r.span, hi, window, RunsArgs(I, others, g, t), t)
    ensures var hi := ModifierTime(r.at, g, t) - r.original;
      var step := if r.step != 0 then r.step else I.defaultStep(r.span);
      forall x :: x in window <==> hi - r.span <= x <= hi && x % step == 0
    ensures forall x :: x in window ==> window[x] == Runs(I, r.body, Grid(x, x, 1), x)
  {
    hide Runs, TimeBlind, RunsArgs, Denote, Good, GoodOnce, NoBounds;
    var q := Query(g.start, g.end);
    window := DenoteRange(I, q, r, t);
    GoodCall(I, q, fn, r, others, g.start);
    RunsMeans(I, RangeCall(fn, r, false, others), g, t);
    RunsArgsMeans(I, others, g, t);
    CallMeans(I, q, fn, r, others, t);
    WindowMeans(I, q, r, t);
    hide DenoteRange;
    forall x
      ensures Runs(I, r.body, Grid(x, x, 1), x) == Denote(I, q, r.body, x)
    {
      RunsOnceMeans(I, r.body, x);
      MeaningIgnoresBounds(I, q, Query(x, x), r.body, x);
    }
  }

  lemma WindowMeans(I: Interp, q: Query, r: Range, t: int)
    requires r.Subquery?
    ensures var hi, window := TimeOf(r.at, q, t) - r.original, DenoteRange(I, q, r, t);
      forall x :: x in window <==> hi - r.span <= x <= hi && x % StepOf(I, r) == 0
    ensures forall x :: x in DenoteRange(I, q, r, t) ==> DenoteRange(I, q, r, t)[x] == Denote(I, q, r.body, x)
  {
    hide Denote, StepOf;
  }

  lemma GoodCall(I: Interp, q: Query, fn: string, r: Range, others: Args, start: int)
    requires Good(I, q, RangeCall(fn, r, false, others), start)
    ensures GoodArgs(I, q, others, start)
  {
  }

  lemma CallMeans(I: Interp, q: Query, fn: string, r: Range, others: Args, t: int)
    ensures var hi := TimeOf(r.Modifier(), q, t) - r.OriginalOffset();
      Denote(I, q, RangeCall(fn, r, false, others), t) ==
      I.rangeCall(fn, hi - r.span, hi, DenoteRange(I, q, r, t), DenoteArgs(I, q, others, t), t)
  {
  }

  // ---------- Ordinary queries ----------

  lemma {:induction false} OrdinaryHasNoBounds(e: Expr)
    requires Ordinary(e)
    ensures NoBounds(e)
    decreases e
  {
    match e
    case Num(_) =>
    case Str(_) =>
    case Sel(_) =>
    case TimestampOf(_) =>
    case Call(_, args) => OrdinaryArgsHaveNoBounds(args);
    case RangeCall(_, r, _, others) =>
      OrdinaryArgsHaveNoBounds(others);
      if r.Subquery? {
        OrdinaryHasNoBounds(r.body);
      }
    case Agg(_, param, body) =>
      OrdinaryArgsHaveNoBounds(param);
      OrdinaryHasNoBounds(body);
    case Bin(_, l, r) =>
      OrdinaryHasNoBounds(l);
      OrdinaryHasNoBounds(r);
    case Neg(b) => OrdinaryHasNoBounds(b);
    case Paren(b) => OrdinaryHasNoBounds(b);
  }

  lemma {:induction false} OrdinaryArgsHaveNoBounds(args: Args)
    requires OrdinaryArgs(args)
    ensures NoBoundsArgs(args)
    decreases args
  {
    if args.Cons? {
      OrdinaryHasNoBounds(args.head);
      OrdinaryArgsHaveNoBounds(args.tail);
    }
  }

  /** A range query without modifiers is, step by step, the same query at a single time. */
  lemma OrdinaryRangeQueries(I: Interp, e: Expr, g: Grid, t: int)
    requires TimeBlind(I) && Step(g, t) && Ordinary(e)
    ensures Runs(I, e, g, t) == Runs(I, e, Grid(t, t, 1), t)
  {
    hide Runs, TimeBlind, NoBounds, Good, GoodOnce, Ordinary;
    OrdinaryHasNoBounds(e);
    OrdinaryQueriesAreGood(I, Query(g.start, g.end), e, g.start);
    OrdinaryQueriesAreGood(I, Query(t, t), e, t);
    GoodIsGoodOnce(I, Query(t, t), e, t);
    RangeQueryIsInstantQueries(I, e, g, t);
  }
}
