/**
 Queries over a single step (pkg/promql/engine.go:667-700). Nothing can slide or be frozen between
 steps then, so the engine is right about more of them: outside subqueries, any modifier anywhere,
 any aggregation parameter and any function will do.
 */
module InstantQuery {
  import opened Arith
  import opened PromqlAst
  import opened AtModifier

  /** An evaluator computes the meaning of this tree at its only step; the tree is evaluated as it stands. */
  predicate Once(I: Interp, e: Expr, start: int) {
    match e
    case Num(_) => true
    case Str(_) => true
    case Sel(_) => true
    case TimestampOf(s) => !s.at.AtTime? || s.original == 0
    case Call(_, args) => OnceArgs(I, args, start)
    case RangeCall(_, r, _, others) => OnceRange(I, r, start) && OnceArgs(I, others, start)
    case Agg(_, param, body) => OnceArgs(I, param, start) && Once(I, body, start)
    case Bin(_, l, r) => Once(I, l, start) && Once(I, r, start)
    case Neg(b) => Once(I, b, start)
    case Paren(b) => Once(I, b, start)
    case StepInvariant(b) => Once(I, b, start)
  }

  predicate OnceRange(I: Interp, r: Range, start: int) {
    r.Subquery? ==> !StartsCollide(I, r, start) && Ready(I, r.body, SubStart(I, r, start), false)
  }

  predicate OnceArgs(I: Interp, args: Args, start: int) {
    args.Cons? ==> Once(I, args.head, start) && OnceArgs(I, args.tail, start)
  }

  /** The source queries the engine gets right at a single step. Bodies of subqueries have many steps. */
  predicate GoodOnce(I: Interp, q: Query, e: Expr, start: int) {
    match e
    case Num(_) => true
    case Str(_) => true
    case Sel(_) => true
    case TimestampOf(s) => s.at.NoAt? || s.original == 0
    case Call(_, args) => GoodOnceArgs(I, q, args, start)
    case RangeCall(_, r, _, others) => GoodRange(I, q, r, start) && GoodOnceArgs(I, q, others, start)
    case Agg(_, param, body) => OnceArgs(I, param, start) && GoodOnce(I, q, body, start)
    case Bin(_, l, r) => GoodOnce(I, q, l, start) && GoodOnce(I, q, r, start)
    case Neg(b) => GoodOnce(I, q, b, start)
    case Paren(b) => GoodOnce(I, q, b, start)
    case StepInvariant(_) => false  // never produced by the parser
  }

  predicate GoodOnceArgs(I: Interp, q: Query, args: Args, start: int) {
    args.Cons? ==> GoodOnce(I, q, args.head, start) && GoodOnceArgs(I, q, args.tail, start)
  }

  // ---------- Evaluation at the only step ----------

  ghost predicate Instant(q: Query, g: Grid) {
    q.start == q.end == g.start && g.start <= g.end
  }

  lemma {:induction false} EvalOnce(I: Interp, q: Query, e: Expr, g: Grid)
    requires TimeBlind(I) && Once(I, e, g.start) && Instant(q, g)
    ensures Eval(I, SetOffsets(e, g.start, 0), g, g.start) == Denote(I, q, e, g.start)
    decreases e
  {
    hide EvalRange, EvalArgs, DenoteRange, DenoteArgs, SetOffsetsRange, SetOffsetsArgs, OnceRange, OnceArgs;
    hide ResultOffset, TimeBlind;
    match e
    case Num(_) =>
    case Str(_) =>
    case Sel(_) =>
    case TimestampOf(_) =>
    case Call(_, args) => EvalOnceArgs(I, q, args, g);
    case RangeCall(_, r, _, others) =>
      EvalOnceRange(I, q, r, g);
      EvalOnceArgs(I, q, others, g);
    case Agg(_, param, body) =>
      EvalOnceArgs(I, q, param, g);
      EvalOnce(I, q, body, g);
    case Bin(_, l, r) =>
      EvalOnce(I, q, l, g);
      EvalOnce(I, q, r, g);
    case Neg(b) => EvalOnce(I, q, b, g);
    case Paren(b) => EvalOnce(I, q, b, g);
    case StepInvariant(b) => EvalOnce(I, q, b, Grid(g.start, g.start, g.interval));
  }

  lemma {:induction false} EvalOnceArgs(I: Interp, q: Query, args: Args, g: Grid)
    requires TimeBlind(I) && OnceArgs(I, args, g.start) && Instant(q, g)
    ensures EvalArgs(I, SetOffsetsArgs(args, g.start, 0), g, g.start) == DenoteArgs(I, q, args, g.start)
    decreases args
  {
    hide Eval, Denote, TimeBlind;
    if args.Cons? {
      EvalOnce(I, q, args.head, g);
      EvalOnceArgs(I, q, args.tail, g);
    }
  }

  lemma {:induction false} EvalOnceRange(I: Interp, q: Query, r: Range, g: Grid)
    requires TimeBlind(I) && OnceRange(I, r, g.start) && Instant(q, g)
    ensures var s := SetOffsetsRange(r, g.start, 0);
            && s.span == r.span
            && g.start - ResultOffset(s, g) == TimeOf(r.Modifier(), q, g.start) - r.OriginalOffset()
            && EvalRange(I, s, g, g.start) == DenoteRange(I, q, r, g.start)
    decreases r
  {
    hide Eval, Denote, SetOffsets, TimeBlind, Ready;
    if r.Subquery? {
      var s := SetOffsetsRange(r, g.start, 0);
      var g', k := SubGrid(I, s, g), StepOf(I, r);
      var maxt := g.start - ResultOffset(s, g);
      AlignedStartIsLeastMultiple(g.start - s.offset - s.span, k);
      SubBodyOffsets(I, r, g);
      forall x | maxt - r.span <= x <= maxt
        ensures Step(g', x) <==> x % k == 0
        ensures Step(g', x) ==> Eval(I, SubBody(I, s, g), g', x) == Denote(I, q, r.body, x)
      {
        ShiftByMultiple(g'.start, x, k);
        if Step(g', x) {
          EvalReady(I, q, r.body, g', x, false);
        }
      }
    }
  }

  // ---------- Preprocessing ----------

  lemma {:induction false} RewriteIsOnce(I: Interp, q: Query, e: Expr, start: int)
    requires GoodOnce(I, q, e, start)
    ensures Once(I, Rewrite(q, e), start) && Once(I, Preprocess(q, e), start)
    decreases e
  {
    hide IsInvariant, GoodRange;
    match e
    case Num(_) =>
    case Str(_) =>
    case Sel(_) =>
    case TimestampOf(_) =>
    case Call(_, args) => RewriteArgsAreOnce(I, q, args, start, !IsInvariant(e));
    case RangeCall(_, r, _, others) =>
      RewriteRangeIsReady(I, q, r, start, true);
      RewriteArgsAreOnce(I, q, others, start, !IsInvariant(e));
    case Agg(_, _, body) => RewriteIsOnce(I, q, body, start);
    case Bin(_, l, r) =>
      RewriteIsOnce(I, q, l, start);
      RewriteIsOnce(I, q, r, start);
    case Neg(b) => RewriteIsOnce(I, q, b, start);
    case Paren(b) => RewriteIsOnce(I, q, b, start);
  }

  lemma {:induction false} RewriteArgsAreOnce(I: Interp, q: Query, args: Args, start: int, wrap: bool)
    requires GoodOnceArgs(I, q, args, start)
    ensures OnceArgs(I, RewriteArgs(q, args, wrap), start)
    decreases args
  {
    hide Once, GoodOnce;
    if args.Cons? {
      RewriteIsOnce(I, q, args.head, start);
      RewriteArgsAreOnce(I, q, args.tail, start, wrap);
    }
  }

  /** A preprocessed instant query yields the meaning of the original query. */
  lemma InstantQueryMeansTheOriginal(I: Interp, e: Expr, g: Grid)
    requires TimeBlind(I) && g.start == g.end && GoodOnce(I, Query(g.start, g.end), e, g.start)
    ensures var q := Query(g.start, g.end);
            Eval(I, SetOffsets(Preprocess(q, e), g.start, 0), g, g.start) == Denote(I, q, e, g.start)
  {
    hide Eval, Denote, SetOffsets, Preprocess, TimeBlind, GoodOnce, Once;
    var q := Query(g.start, g.end);
    RewriteIsOnce(I, q, e, g.start);
    EvalOnce(I, q, Preprocess(q, e), g);
    RewriteKeepsMeaning(I, q, e, g.start);
  }

  // ---------- The fragment is larger ----------

  lemma {:induction false} ReadyIsOnce(I: Interp, e: Expr, start: int, single: bool)
    requires Ready(I, e, start, single)
    ensures Once(I, e, start)
    decreases e
  {
    match e
    case Num(_) =>
    case Str(_) =>
    case Sel(_) =>
    case TimestampOf(_) =>
    case Call(_, args) => ReadyArgsAreOnce(I, args, start, single);
    case RangeCall(_, _, _, others) => ReadyArgsAreOnce(I, others, start, single);
    case Agg(_, param, body) =>
      ReadyArgsAreOnce(I, param, start, single);
      ReadyIsOnce(I, body, start, single);
    case Bin(_, l, r) =>
      ReadyIsOnce(I, l, start, single);
      ReadyIsOnce(I, r, start, single);
    case Neg(b) => ReadyIsOnce(I, b, start, single);
    case Paren(b) => ReadyIsOnce(I, b, start, single);
    case StepInvariant(b) => ReadyIsOnce(I, b, start, true);
  }

  lemma {:induction false} ReadyArgsAreOnce(I: Interp, args: Args, start: int, single: bool)
    requires ReadyArgs(I, args, start, single)
    ensures OnceArgs(I, args, start)
    decreases args
  {
    if args.Cons? {
      ReadyIsOnce(I, args.head, start, single);
      ReadyArgsAreOnce(I, args.tail, start, single);
    }
  }

  /** Whatever the engine gets right over many steps it gets right over one. */
  lemma {:induction false} GoodIsGoodOnce(I: Interp, q: Query, e: Expr, start: int)
    requires Good(I, q, e, start)
    ensures GoodOnce(I, q, e, start)
    decreases e
  {
    match e
    case Num(_) =>
    case Str(_) =>
    case Sel(_) =>
    case TimestampOf(_) =>
    case Call(_, args) => GoodArgsAreGoodOnce(I, q, args, start);
    case RangeCall(_, _, _, others) => GoodArgsAreGoodOnce(I, q, others, start);
    case Agg(_, param, body) =>
      ReadyArgsAreOnce(I, param, start, IsInvariant(body));
      GoodIsGoodOnce(I, q, body, start);
    case Bin(_, l, r) =>
      GoodIsGoodOnce(I, q, l, start);
      GoodIsGoodOnce(I, q, r, start);
    case Neg(b) => GoodIsGoodOnce(I, q, b, start);
    case Paren(b) => GoodIsGoodOnce(I, q, b, start);
  }

  lemma {:induction false} GoodArgsAreGoodOnce(I: Interp, q: Query, args: Args, start: int)
    requires GoodArgs(I, q, args, start)
    ensures GoodOnceArgs(I, q, args, start)
    decreases args
  {
    if args.Cons? {
      GoodIsGoodOnce(I, q, args.head, start);
      GoodArgsAreGoodOnce(I, q, args.tail, start);
    }
  }
}
