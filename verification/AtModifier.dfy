/**
 The `@` modifier and step-invariant wrapping of the PromQL engine (pkg/promql/engine.go).

 The engine rewrites a query before evaluating it: every part whose value cannot
 depend on the step is wrapped in a step-invariant node, which is later evaluated once,
 at the first step, and copied to all of them. An `@ t` selector is not evaluated at `t`
 directly: its offset is adjusted, relative to the start of the evaluator that will run it,
 so that one evaluation at that start happens to look at `t`. `Eval` is that machine and
 `Denote` is what the query means; `PreprocessedQueryMeansTheOriginal` relates the two.
 */
module AtModifier {
  import opened Arith
  import opened PromqlAst

  /** The operators of the language. Every theorem below holds for all of them. */
  datatype Interp = Interp(
    instant: (int, int) -> Vector,            // selector, reference time
    stamps: (int, int) -> Vector,             // timestamps of what `instant` finds
    window: (int, int, int) -> RangeVector,   // selector, mint, maxt
    call: (string, seq<Value>, int) -> Vector,
    rangeCall: (string, int, int, RangeVector, seq<Value>, int) -> Vector,
    aggregate: (string, seq<Value>, Vector) -> Vector,
    binary: (string, Vector, Vector) -> Vector,
    negate: Vector -> Vector,
    defaultStep: int -> Positive)

  datatype Query = Query(start: int, end: int)

  // ---------- What a query means ----------

  /** The time a node with modifier `at` is evaluated at when the step is `t`. */
  function TimeOf(at: At, q: Query, t: int): int {
    match at
    case NoAt => t
    case AtTime(ts) => ts
    case AtStart => q.start
    case AtEnd => q.end
  }

  function StepOf(I: Interp, r: Range): Positive
    requires r.Subquery?
  {
    if r.step != 0 then r.step else I.defaultStep(r.span)
  }

  /** The value of an expression at one evaluation time. */
  function Denote(I: Interp, q: Query, e: Expr, t: int): Vector
    decreases e
  {
    match e
    case Num(v) => map[map[] := v]
    case Str(_) => map[]
    case Sel(s) => I.instant(s.id, TimeOf(s.at, q, t) - s.original)
    case TimestampOf(s) => I.stamps(s.id, TimeOf(s.at, q, t) - s.original)
    case Call(fn, args) => I.call(fn, DenoteArgs(I, q, args, t), t)
    case RangeCall(fn, r, _, others) =>
      var hi := TimeOf(r.Modifier(), q, t) - r.OriginalOffset();
      I.rangeCall(fn, hi - r.span, hi, DenoteRange(I, q, r, t), DenoteArgs(I, q, others, t), t)
    case Agg(op, param, body) => I.aggregate(op, DenoteArgs(I, q, param, t), Denote(I, q, body, t))
    case Bin(op, l, r) => I.binary(op, Denote(I, q, l, t), Denote(I, q, r, t))
    case Neg(b) => I.negate(Denote(I, q, b, t))
    case Paren(b) => Denote(I, q, b, t)
    case StepInvariant(b) => Denote(I, q, b, t)
  }

  /** A subquery evaluates its body at every multiple of its step inside its range. */
  function DenoteRange(I: Interp, q: Query, r: Range, t: int): RangeVector
    decreases r
  {
    var hi := TimeOf(r.Modifier(), q, t) - r.OriginalOffset();
    match r
    case Matrix(s, span) => I.window(s.id, hi - span, hi)
    case Subquery(body, span, _, _, _, _) =>
      map x | hi - span <= x <= hi && x % StepOf(I, r) == 0 :: Denote(I, q, body, x)
  }

  function DenoteArgs(I: Interp, q: Query, args: Args, t: int): seq<Value>
    decreases args
  {
    match args
    case Nil => []
    case Cons(e, rest) =>
      [if Literal(e) != [] then Text(Literal(e)[0]) else Vec(Denote(I, q, e, t))] + DenoteArgs(I, q, rest, t)
  }

  // ---------- The evaluator ----------

  /** setOffsetForAtModifier; `acc` is what the subqueries on the path contribute (engine.go:2783-2797). */
  function NewOffset(at: At, original: int, evalTime: int, acc: int): int {
    match at
    case AtTime(ts) => original + (evalTime - ts) - acc
    case _ => original
  }

  function PathOffset(at: At, original: int, evalTime: int, acc: int): int {
    match at
    case AtTime(ts) => original + (evalTime - ts)
    case _ => acc + original
  }

  function SetSelector(s: Selector, evalTime: int, acc: int): Selector {
    s.(offset := NewOffset(s.at, s.original, evalTime, acc))
  }

  function SetOffsets(e: Expr, evalTime: int, acc: int): (r: Expr)
    ensures Size(r) == Size(e) && Literal(r) == Literal(e)
    decreases e
  {
    match e
    case Num(_) => e
    case Str(_) => e
    case Sel(s) => Sel(SetSelector(s, evalTime, acc))
    case TimestampOf(s) => TimestampOf(if s.at.AtTime? then s else SetSelector(s, evalTime, acc))  // see Eval
    case Call(fn, args) => Call(fn, SetOffsetsArgs(args, evalTime, acc))
    case RangeCall(fn, r, w, others) =>
      RangeCall(fn, SetOffsetsRange(r, evalTime, acc), w, SetOffsetsArgs(others, evalTime, acc))
    case Agg(op, param, body) => Agg(op, SetOffsetsArgs(param, evalTime, acc), SetOffsets(body, evalTime, acc))
    case Bin(op, l, r) => Bin(op, SetOffsets(l, evalTime, acc), SetOffsets(r, evalTime, acc))
    case Neg(b) => Neg(SetOffsets(b, evalTime, acc))
    case Paren(b) => Paren(SetOffsets(b, evalTime, acc))
    case StepInvariant(b) => StepInvariant(SetOffsets(b, evalTime, acc))
  }

  function SetOffsetsRange(r: Range, evalTime: int, acc: int): (r': Range)
    ensures SizeRange(r') == SizeRange(r)
    decreases r
  {
    match r
    case Matrix(s, span) => Matrix(SetSelector(s, evalTime, acc), span)
    case Subquery(body, span, step, original, _, at) =>
      Subquery(SetOffsets(body, evalTime, PathOffset(at, original, evalTime, acc)), span, step, original,
               NewOffset(at, original, evalTime, acc), at)
  }

  function SetOffsetsArgs(args: Args, evalTime: int, acc: int): (r: Args)
    ensures SizeArgs(r) == SizeArgs(args)
    decreases args
  {
    match args
    case Nil => Nil
    case Cons(e, rest) => Cons(SetOffsets(e, evalTime, acc), SetOffsetsArgs(rest, evalTime, acc))
  }

  /** The evaluator of a subquery's body (engine.go:1714-1739). */
  function SubGrid(I: Interp, r: Range, g: Grid): Grid
    requires r.Subquery?
  {
    var step := StepOf(I, r);
    Grid(AlignedStart(g.start - r.offset - r.span, step), g.end - r.offset, step)
  }

  /** The body a subquery evaluates; its offsets are set again only if the start has moved (engine.go:1741-1746). */
  function SubBody(I: Interp, r: Range, g: Grid): (b: Expr)
    requires r.Subquery?
    ensures Size(b) == Size(r.body)
  {
    var start := SubGrid(I, r, g).start;
    if start != g.start then SetOffsets(r.body, start, 0) else r.body
  }

  /** The value at step `t` of evaluating `e` over the steps of `g`. */
  function Eval(I: Interp, e: Expr, g: Grid, t: int): Vector
    decreases Size(e)
  {
    match e
    case Num(v) => map[map[] := v]
    case Str(_) => map[]
    case Sel(s) => I.instant(s.id, t - s.offset)
    case TimestampOf(s) =>
      // The offset of an `@` selector is overwritten for every step, without its own offset (engine.go:1402-1406).
      I.stamps(s.id, t - (if s.at.AtTime? then t - s.at.ts else s.offset))
    case Call(fn, args) => I.call(fn, EvalArgs(I, args, g, t), t)
    case RangeCall(fn, r, _, others) =>
      var maxt := t - ResultOffset(r, g);
      I.rangeCall(fn, maxt - r.span, maxt, EvalRange(I, r, g, t), EvalArgs(I, others, g, t), t)
    case Agg(op, param, body) => I.aggregate(op, EvalArgs(I, param, g, t), Eval(I, body, g, t))
    case Bin(op, l, r) => I.binary(op, Eval(I, l, g, t), Eval(I, r, g, t))
    case Neg(b) => I.negate(Eval(I, b, g, t))
    case Paren(b) => Eval(I, b, g, t)
    case StepInvariant(b) => Eval(I, b, Grid(g.start, g.start, g.interval), g.start)
  }

  /** The offset with which the result of a range argument is windowed (engine.go:1262-1272). */
  function ResultOffset(r: Range, g: Grid): int {
    match r
    case Matrix(s, _) => s.offset
    case Subquery(_, _, _, original, offset, at) =>
      if at.AtTime? then original + (g.start - at.ts) else offset
  }

  /** The points of a range argument that fall into the window of step `t` (engine.go:1520-1523). */
  function EvalRange(I: Interp, r: Range, g: Grid, t: int): RangeVector
    decreases SizeRange(r)
  {
    var maxt := t - ResultOffset(r, g);
    match r
    case Matrix(s, span) => I.window(s.id, maxt - span, maxt)
    case Subquery(_, span, _, _, _, _) =>
      var g', body := SubGrid(I, r, g), SubBody(I, r, g);
      map x | maxt - span <= x <= maxt && Step(g', x) :: Eval(I, body, g', x)
  }

  function EvalArgs(I: Interp, args: Args, g: Grid, t: int): seq<Value>
    decreases SizeArgs(args)
  {
    match args
    case Nil => []
    case Cons(e, rest) =>
      [if Literal(e) != [] then Text(Literal(e)[0]) else Vec(Eval(I, e, g, t))] + EvalArgs(I, rest, g, t)
  }

  // ---------- Preprocessing ----------

  /** AtModifierUnsafeFunctions (functions.go:1152-1160). */
  const UNSAFE_FUNCTIONS: set<string> :=
    {"days_in_month", "day_of_month", "day_of_week", "hour", "minute", "month", "year",
     "predict_linear", "time", "timestamp"}

  function Resolve(at: At, q: Query): At {
    match at
    case AtStart => AtTime(q.start)
    case AtEnd => AtTime(q.end)
    case _ => at
  }

  /** The result of preprocessExprHelper (engine.go:2694-2774). */
  predicate IsInvariant(e: Expr) {
    match e
    case Num(_) => true
    case Str(_) => true
    case Sel(s) => !s.at.NoAt?
    case TimestampOf(_) => false
    case Call(fn, args) => fn !in UNSAFE_FUNCTIONS && AllInvariant(args)
    case RangeCall(fn, r, _, others) => fn !in UNSAFE_FUNCTIONS && !r.Modifier().NoAt? && AllInvariant(others)
    case Agg(_, _, body) => IsInvariant(body)
    case Bin(_, l, r) => IsInvariant(l) && IsInvariant(r)
    case Neg(b) => IsInvariant(b)
    case Paren(b) => IsInvariant(b)
    case StepInvariant(b) => IsInvariant(b)
  }

  predicate AllInvariant(args: Args) {
    match args
    case Nil => true
    case Cons(e, rest) => IsInvariant(e) && AllInvariant(rest)
  }

  /** PreprocessExpr (engine.go:2682-2688). */
  function Preprocess(q: Query, e: Expr): Expr
    decreases e, 1
  {
    if IsInvariant(e) then StepInvariant(Rewrite(q, e)) else Rewrite(q, e)
  }

  /** What preprocessExprHelper leaves in the tree: invariant children of variant nodes are wrapped. */
  function Rewrite(q: Query, e: Expr): Expr
    decreases e, 0
  {
    match e
    case Num(_) => e
    case Str(_) => e
    case Sel(s) => Sel(s.(at := Resolve(s.at, q)))
    case TimestampOf(s) => TimestampOf(s.(at := Resolve(s.at, q)))
    case Call(fn, args) => Call(fn, RewriteArgs(q, args, !IsInvariant(e)))
    case RangeCall(fn, r, _, others) =>
      RangeCall(fn, RewriteRange(q, r), !IsInvariant(e) && !r.Modifier().NoAt?, RewriteArgs(q, others, !IsInvariant(e)))
    case Agg(op, param, body) => Agg(op, param, Rewrite(q, body))
    case Bin(op, l, r) =>
      if IsInvariant(e) then Bin(op, Rewrite(q, l), Rewrite(q, r)) else Bin(op, Preprocess(q, l), Preprocess(q, r))
    case Neg(b) => Neg(Rewrite(q, b))
    case Paren(b) => Paren(Rewrite(q, b))
    case StepInvariant(b) => e
  }

  function RewriteRange(q: Query, r: Range): Range
    decreases r, 0
  {
    match r
    case Matrix(s, span) => Matrix(s.(at := Resolve(s.at, q)), span)
    case Subquery(body, span, step, original, offset, at) =>
      Subquery(Preprocess(q, body), span, step, original, offset, Resolve(at, q))
  }

  function RewriteArgs(q: Query, args: Args, wrap: bool): Args
    decreases args, 0
  {
    match args
    case Nil => Nil
    case Cons(e, rest) => Cons(if wrap then Preprocess(q, e) else Rewrite(q, e), RewriteArgs(q, rest, wrap))
  }

  // ---------- The fragment on which the optimisation is sound ----------

  /** The functions that take the evaluation time if they have no argument (functions.go:1001-1009). */
  const DATE_FUNCTIONS: set<string> :=
    {"days_in_month", "day_of_month", "day_of_week", "day_of_year", "hour", "minute", "month", "year"}

  /**
   The calls that look at the evaluation time: time() (functions.go:55-59), a date function without an
   argument, and timestamp of samples that were computed at that time.
   */
  predicate LooksAtTime(fn: string, args: seq<Value>) {
    fn == "time" || fn == "timestamp" || (fn in DATE_FUNCTIONS && args == [])
  }

  /** The other calls ignore it; among range functions, only predict_linear looks at it (functions.go:788). */
  ghost predicate TimeBlind(I: Interp) {
    && (forall fn, args, t, t' :: !LooksAtTime(fn, args) ==> I.call(fn, args, t) == I.call(fn, args, t'))
    && (forall fn, lo, hi, w, args, t, t' :: fn != "predict_linear" ==>
          I.rangeCall(fn, lo, hi, w, args, t) == I.rangeCall(fn, lo, hi, w, args, t'))
  }

  /** No node whose offset is read carries an `@` modifier. */
  predicate OffsetFree(e: Expr) {
    match e
    case Num(_) => true
    case Str(_) => true
    case Sel(s) => s.at.NoAt?
    case TimestampOf(_) => true
    case Call(_, args) => OffsetFreeArgs(args)
    case RangeCall(_, r, _, others) => OffsetFreeRange(r) && OffsetFreeArgs(others)
    case Agg(_, param, body) => OffsetFreeArgs(param) && OffsetFree(body)
    case Bin(_, l, r) => OffsetFree(l) && OffsetFree(r)
    case Neg(b) => OffsetFree(b)
    case Paren(b) => OffsetFree(b)
    case StepInvariant(b) => OffsetFree(b)
  }

  predicate OffsetFreeRange(r: Range) {
    r.Modifier().NoAt? && (r.Subquery? ==> OffsetFree(r.body))
  }

  predicate OffsetFreeArgs(args: Args) {
    args.Cons? ==> OffsetFree(args.head) && OffsetFreeArgs(args.tail)
  }

  /** The value cannot depend on the evaluation time. */
  predicate TimeFree(e: Expr) {
    match e
    case Num(_) => true
    case Str(_) => true
    case Sel(s) => s.at.AtTime?
    case TimestampOf(s) => s.at.AtTime?
    case Call(fn, args) => fn !in UNSAFE_FUNCTIONS && !(fn == "day_of_year" && args.Nil?) && TimeFreeArgs(args)
    case RangeCall(fn, r, _, others) => fn !in UNSAFE_FUNCTIONS && r.Modifier().AtTime? && TimeFreeArgs(others)
    case Agg(_, param, body) => TimeFreeArgs(param) && TimeFree(body)
    case Bin(_, l, r) => TimeFree(l) && TimeFree(r)
    case Neg(b) => TimeFree(b)
    case Paren(b) => TimeFree(b)
    case StepInvariant(b) => TimeFree(b)
  }

  predicate TimeFreeArgs(args: Args) {
    args.Cons? ==> TimeFree(args.head) && TimeFreeArgs(args.tail)
  }

  /** The start of a subquery's evaluator, when the enclosing evaluator starts at `start`. */
  function SubStart(I: Interp, r: Range, start: int): int
    requires r.Subquery?
  {
    AlignedStart(start - NewOffset(r.at, r.original, start, 0) - r.span, StepOf(I, r))
  }

  /** The subquery's evaluator starts where the enclosing one does, so `@` offsets below are not set again. */
  predicate StartsCollide(I: Interp, r: Range, start: int)
    requires r.Subquery?
  {
    SubStart(I, r, start) == start && NewOffset(r.at, r.original, start, 0) != 0 && !OffsetFree(r.body)
  }

  /**
   An evaluator that starts at `start` computes the meaning of this tree: at its first step only
   when `single`, and at every step otherwise.
   */
  predicate Ready(I: Interp, e: Expr, start: int, single: bool) {
    match e
    case Num(_) => true
    case Str(_) => true
    case Sel(s) => ReadyAt(s.at, single)
    case TimestampOf(s) => s.at.NoAt? || (s.at.AtTime? && s.original == 0)
    case Call(_, args) => ReadyArgs(I, args, start, single)
    case RangeCall(_, r, _, others) => ReadyRange(I, r, start, single) && ReadyArgs(I, others, start, single)
    case Agg(_, param, body) => ReadyArgs(I, param, start, single) && Ready(I, body, start, single)
    case Bin(_, l, r) => Ready(I, l, start, single) && Ready(I, r, start, single)
    case Neg(b) => Ready(I, b, start, single)
    case Paren(b) => Ready(I, b, start, single)
    case StepInvariant(b) => Ready(I, b, start, true) && TimeFree(b)
  }

  predicate ReadyAt(at: At, single: bool) {
    at.NoAt? || (at.AtTime? && single)
  }

  predicate ReadyRange(I: Interp, r: Range, start: int, single: bool) {
    && ReadyAt(r.Modifier(), single)
    && (r.Subquery? ==> !StartsCollide(I, r, start) && Ready(I, r.body, SubStart(I, r, start), false))
  }

  predicate ReadyArgs(I: Interp, args: Args, start: int, single: bool) {
    args.Cons? ==> Ready(I, args.head, start, single) && ReadyArgs(I, args.tail, start, single)
  }

  /**
   The source queries the engine gets right over any number of steps. Each clause names a branch of
   the code that can fail otherwise; AtModifierGaps and CollidingStarts say exactly when it does.
   */
  predicate Good(I: Interp, q: Query, e: Expr, start: int) {
    match e
    case Num(_) => true
    case Str(_) => true
    case Sel(_) => true
    case TimestampOf(s) => s.at.NoAt? || s.original == 0
    case Call(fn, args) => !(fn == "day_of_year" && args.Nil?) && GoodArgs(I, q, args, start)
    case RangeCall(_, r, _, others) =>
      && (!r.Modifier().NoAt? ==> IsInvariant(e))
      && GoodRange(I, q, r, start) && GoodArgs(I, q, others, start)
    case Agg(_, param, body) =>
      && ReadyArgs(I, param, start, IsInvariant(body))
      && (IsInvariant(body) ==> TimeFreeArgs(param))
      && Good(I, q, body, start)
    case Bin(_, l, r) => Good(I, q, l, start) && Good(I, q, r, start)
    case Neg(b) => Good(I, q, b, start)
    case Paren(b) => Good(I, q, b, start)
    case StepInvariant(_) => false  // never produced by the parser
  }

  predicate GoodRange(I: Interp, q: Query, r: Range, start: int) {
    r.Subquery? ==>
      var r' := r.(at := Resolve(r.at, q));
      !StartsCollide(I, r', start) && Good(I, q, r.body, SubStart(I, r', start))
  }

  predicate GoodArgs(I: Interp, q: Query, args: Args, start: int) {
    args.Cons? ==> Good(I, q, args.head, start) && GoodArgs(I, q, args.tail, start)
  }

  // ---------- Setting offsets ----------

  /** Only the last call of setOffsetForAtModifier counts. */
  lemma {:induction false} SetOffsetsOverwrites(e: Expr, t1: int, a1: int, t2: int, a2: int)
    ensures SetOffsets(SetOffsets(e, t1, a1), t2, a2) == SetOffsets(e, t2, a2)
    decreases e
  {
    match e
    case Num(_) =>
    case Str(_) =>
    case Sel(_) =>
    case TimestampOf(_) =>
    case Call(_, args) => SetOffsetsOverwritesArgs(args, t1, a1, t2, a2);
    case RangeCall(_, r, _, others) =>
      if r.Subquery? {
        var p1, p2 := PathOffset(r.at, r.original, t1, a1), PathOffset(r.at, r.original, t2, a2);
        SetOffsetsOverwrites(r.body, t1, p1, t2, p2);
      }
      SetOffsetsOverwritesArgs(others, t1, a1, t2, a2);
    case Agg(_, param, body) =>
      SetOffsetsOverwritesArgs(param, t1, a1, t2, a2);
      SetOffsetsOverwrites(body, t1, a1, t2, a2);
    case Bin(_, l, r) =>
      SetOffsetsOverwrites(l, t1, a1, t2, a2);
      SetOffsetsOverwrites(r, t1, a1, t2, a2);
    case Neg(b) => SetOffsetsOverwrites(b, t1, a1, t2, a2);
    case Paren(b) => SetOffsetsOverwrites(b, t1, a1, t2, a2);
    case StepInvariant(b) => SetOffsetsOverwrites(b, t1, a1, t2, a2);
  }

  lemma {:induction false} SetOffsetsOverwritesArgs(args: Args, t1: int, a1: int, t2: int, a2: int)
    ensures SetOffsetsArgs(SetOffsetsArgs(args, t1, a1), t2, a2) == SetOffsetsArgs(args, t2, a2)
    decreases args
  {
    if args.Cons? {
      SetOffsetsOverwrites(args.head, t1, a1, t2, a2);
      SetOffsetsOverwritesArgs(args.tail, t1, a1, t2, a2);
    }
  }

  /** Without such nodes the offsets do not depend on the evaluation time or the path. */
  lemma {:induction false} OffsetFreeStays(e: Expr, t1: int, a1: int, t2: int, a2: int)
    requires OffsetFree(e)
    ensures SetOffsets(e, t1, a1) == SetOffsets(e, t2, a2)
    decreases e
  {
    match e
    case Num(_) =>
    case Str(_) =>
    case Sel(_) =>
    case TimestampOf(_) =>
    case Call(_, args) => OffsetFreeStayArgs(args, t1, a1, t2, a2);
    case RangeCall(_, r, _, others) =>
      if r.Subquery? {
        OffsetFreeStays(r.body, t1, PathOffset(r.at, r.original, t1, a1), t2, PathOffset(r.at, r.original, t2, a2));
      }
      OffsetFreeStayArgs(others, t1, a1, t2, a2);
    case Agg(_, param, body) =>
      OffsetFreeStayArgs(param, t1, a1, t2, a2);
      OffsetFreeStays(body, t1, a1, t2, a2);
    case Bin(_, l, r) =>
      OffsetFreeStays(l, t1, a1, t2, a2);
      OffsetFreeStays(r, t1, a1, t2, a2);
    case Neg(b) => OffsetFreeStays(b, t1, a1, t2, a2);
    case Paren(b) => OffsetFreeStays(b, t1, a1, t2, a2);
    case StepInvariant(b) => OffsetFreeStays(b, t1, a1, t2, a2);
  }

  lemma {:induction false} OffsetFreeStayArgs(args: Args, t1: int, a1: int, t2: int, a2: int)
    requires OffsetFreeArgs(args)
    ensures SetOffsetsArgs(args, t1, a1) == SetOffsetsArgs(args, t2, a2)
    decreases args
  {
    if args.Cons? {
      OffsetFreeStays(args.head, t1, a1, t2, a2);
      OffsetFreeStayArgs(args.tail, t1, a1, t2, a2);
    }
  }

  // ---------- The evaluator computes the meaning of a ready tree ----------

  lemma {:induction false} TimeFreeIsConstant(I: Interp, q: Query, e: Expr, t: int, t': int)
    requires TimeBlind(I) && TimeFree(e)
    ensures Denote(I, q, e, t) == Denote(I, q, e, t')
    decreases e
  {
    match e
    case Num(_) =>
    case Str(_) =>
    case Sel(_) =>
    case TimestampOf(_) =>
    case Call(_, args) => TimeFreeArgsAreConstant(I, q, args, t, t');
    case RangeCall(_, _, _, others) => TimeFreeArgsAreConstant(I, q, others, t, t');
    case Agg(_, param, body) =>
      TimeFreeArgsAreConstant(I, q, param, t, t');
      TimeFreeIsConstant(I, q, body, t, t');
    case Bin(_, l, r) =>
      TimeFreeIsConstant(I, q, l, t, t');
      TimeFreeIsConstant(I, q, r, t, t');
    case Neg(b) => TimeFreeIsConstant(I, q, b, t, t');
    case Paren(b) => TimeFreeIsConstant(I, q, b, t, t');
    case StepInvariant(b) => TimeFreeIsConstant(I, q, b, t, t');
  }

  lemma {:induction false} TimeFreeArgsAreConstant(I: Interp, q: Query, args: Args, t: int, t': int)
    requires TimeBlind(I) && TimeFreeArgs(args)
    ensures DenoteArgs(I, q, args, t) == DenoteArgs(I, q, args, t')
    decreases args
  {
    if args.Cons? {
      TimeFreeIsConstant(I, q, args.head, t, t');
      TimeFreeArgsAreConstant(I, q, args.tail, t, t');
    }
  }

  lemma {:induction false} EvalReady(I: Interp, q: Query, e: Expr, g: Grid, t: int, single: bool)
    requires TimeBlind(I) && Ready(I, e, g.start, single)
    requires Step(g, t) && (single ==> t == g.start)
    ensures Eval(I, SetOffsets(e, g.start, 0), g, t) == Denote(I, q, e, t)
    decreases e, 1
  {
    hide EvalRange, EvalArgs, DenoteRange, DenoteArgs, SetOffsetsRange, SetOffsetsArgs, ReadyRange, ReadyArgs;
    hide ResultOffset, TimeBlind, TimeFree;
    match e
    case Num(_) =>
    case Str(_) =>
    case Sel(_) =>
    case TimestampOf(_) =>
    case Call(_, args) => EvalReadyArgs(I, q, args, g, t, single);
    case RangeCall(_, _, _, _) => EvalReadyRangeCall(I, q, e, g, t, single);
    case Agg(_, param, body) =>
      EvalReadyArgs(I, q, param, g, t, single);
      EvalReady(I, q, body, g, t, single);
    case Bin(_, l, r) =>
      EvalReady(I, q, l, g, t, single);
      EvalReady(I, q, r, g, t, single);
    case Neg(b) => EvalReady(I, q, b, g, t, single);
    case Paren(b) => EvalReady(I, q, b, g, t, single);
    case StepInvariant(b) =>
      EvalReady(I, q, b, Grid(g.start, g.start, g.interval), g.start, true);
      TimeFreeIsConstant(I, q, b, g.start, t);
  }

  lemma {:induction false} EvalReadyRangeCall(I: Interp, q: Query, e: Expr, g: Grid, t: int, single: bool)
    requires TimeBlind(I) && e.RangeCall? && Ready(I, e, g.start, single)
    requires Step(g, t) && (single ==> t == g.start)
    ensures Eval(I, SetOffsets(e, g.start, 0), g, t) == Denote(I, q, e, t)
    decreases e, 0
  {
    hide EvalRange, EvalArgs, DenoteRange, DenoteArgs, SetOffsetsRange, SetOffsetsArgs, ReadyRange, ReadyArgs;
    hide ResultOffset, TimeBlind;
    EvalReadyRange(I, q, e.arg, g, t, single);
    EvalReadyArgs(I, q, e.others, g, t, single);
  }

  lemma {:induction false} EvalReadyArgs(I: Interp, q: Query, args: Args, g: Grid, t: int, single: bool)
    requires TimeBlind(I) && ReadyArgs(I, args, g.start, single)
    requires Step(g, t) && (single ==> t == g.start)
    ensures EvalArgs(I, SetOffsetsArgs(args, g.start, 0), g, t) == DenoteArgs(I, q, args, t)
    decreases args
  {
    if args.Cons? {
      EvalReady(I, q, args.head, g, t, single);
      EvalReadyArgs(I, q, args.tail, g, t, single);
    }
  }

  lemma {:induction false} EvalReadyRange(I: Interp, q: Query, r: Range, g: Grid, t: int, single: bool)
    requires TimeBlind(I) && ReadyRange(I, r, g.start, single)
    requires Step(g, t) && (single ==> t == g.start)
    ensures var s := SetOffsetsRange(r, g.start, 0);
            && s.span == r.span && t - ResultOffset(s, g) == TimeOf(r.Modifier(), q, t) - r.OriginalOffset()
            && EvalRange(I, s, g, t) == DenoteRange(I, q, r, t)
    decreases r
  {
    hide Eval, Denote, SetOffsets, TimeBlind, Ready;
    if r.Subquery? {
      var s := SetOffsetsRange(r, g.start, 0);
      var g', k := SubGrid(I, s, g), StepOf(I, r);
      var maxt := t - ResultOffset(s, g);
      AlignedStartIsLeastMultiple(g.start - s.offset - s.span, k);
      SubBodyOffsets(I, r, g);
      forall x | maxt - r.span <= x <= maxt
        ensures Step(g', x) <==> x % k == 0
        ensures Step(g', x) ==> Eval(I, SubBody(I, s, g), g', x) == Denote(I, q, r.body, x)
      {
        ShiftByMultiple(g'.start, x, k);
        if Step(g', x) {
          EvalReady(I, q, r.body, g', x, false);
        }
      }
    }
  }

  /** Unless the starts collide, the body a subquery evaluates has its offsets set for that evaluation. */
  lemma SubBodyOffsets(I: Interp, r: Range, g: Grid)
    requires r.Subquery? && !StartsCollide(I, r, g.start)
    ensures var s := SetOffsetsRange(r, g.start, 0);
            SubBody(I, s, g) == SetOffsets(r.body, SubGrid(I, s, g).start, 0)
  {
    var s := SetOffsetsRange(r, g.start, 0);
    var start := SubGrid(I, s, g).start;
    var acc := PathOffset(r.at, r.original, g.start, 0);
    assert acc == s.offset && start == SubStart(I, r, g.start);
    if start != g.start {
      SetOffsetsOverwrites(r.body, g.start, acc, start, 0);
    } else if acc != 0 {
      OffsetFreeStays(r.body, g.start, acc, start, 0);
    }
  }

  // ---------- Preprocessing yields ready trees with the same meaning ----------

  lemma {:induction false} RewriteIsReady(I: Interp, q: Query, e: Expr, start: int)
    requires Good(I, q, e, start)
    ensures Ready(I, Rewrite(q, e), start, IsInvariant(e))
    ensures IsInvariant(e) ==> TimeFree(Rewrite(q, e))
    ensures Ready(I, Preprocess(q, e), start, false)
    decreases e
  {
    match e
    case Num(_) =>
    case Str(_) =>
    case Sel(_) =>
    case TimestampOf(_) =>
    case Call(_, args) => RewriteArgsAreReady(I, q, args, start, !IsInvariant(e));
    case RangeCall(_, r, _, others) =>
      RewriteArgsAreReady(I, q, others, start, !IsInvariant(e));
      RewriteRangeIsReady(I, q, r, start, IsInvariant(e));
    case Agg(_, param, body) => RewriteIsReady(I, q, body, start);
    case Bin(_, l, r) =>
      RewriteIsReady(I, q, l, start);
      RewriteIsReady(I, q, r, start);
    case Neg(b) => RewriteIsReady(I, q, b, start);
    case Paren(b) => RewriteIsReady(I, q, b, start);
  }

  lemma {:induction false} RewriteRangeIsReady(I: Interp, q: Query, r: Range, start: int, single: bool)
    requires GoodRange(I, q, r, start) && (r.Modifier().NoAt? || single)
    ensures ReadyRange(I, RewriteRange(q, r), start, single)
    decreases r
  {
    if r.Subquery? {
      var r' := r.(at := Resolve(r.at, q));
      RewriteIsReady(I, q, r.body, SubStart(I, r', start));
      PreprocessOffsetFree(q, r.body);
      assert SubStart(I, RewriteRange(q, r), start) == SubStart(I, r', start);
    }
  }

  lemma {:induction false} RewriteArgsAreReady(I: Interp, q: Query, args: Args, start: int, wrap: bool)
    requires GoodArgs(I, q, args, start) && (wrap || AllInvariant(args))
    ensures ReadyArgs(I, RewriteArgs(q, args, wrap), start, !wrap)
    ensures !wrap ==> TimeFreeArgs(RewriteArgs(q, args, wrap))
    decreases args
  {
    if args.Cons? {
      RewriteIsReady(I, q, args.head, start);
      RewriteArgsAreReady(I, q, args.tail, start, wrap);
    }
  }

  lemma {:induction false} PreprocessOffsetFree(q: Query, e: Expr)
    ensures OffsetFree(Rewrite(q, e)) == OffsetFree(Preprocess(q, e)) == OffsetFree(e)
    decreases e
  {
    match e
    case Num(_) =>
    case Str(_) =>
    case Sel(_) =>
    case TimestampOf(_) =>
    case Call(_, args) => RewriteArgsOffsetFree(q, args, !IsInvariant(e));
    case RangeCall(_, r, _, others) =>
      if r.Subquery? { PreprocessOffsetFree(q, r.body); }
      assert OffsetFreeRange(RewriteRange(q, r)) == OffsetFreeRange(r);
      RewriteArgsOffsetFree(q, others, !IsInvariant(e));
    case Agg(_, _, body) => PreprocessOffsetFree(q, body);
    case Bin(_, l, r) =>
      PreprocessOffsetFree(q, l);
      PreprocessOffsetFree(q, r);
    case Neg(b) => PreprocessOffsetFree(q, b);
    case Paren(b) => PreprocessOffsetFree(q, b);
    case StepInvariant(_) =>
  }

  lemma {:induction false} RewriteArgsOffsetFree(q: Query, args: Args, wrap: bool)
    ensures OffsetFreeArgs(RewriteArgs(q, args, wrap)) == OffsetFreeArgs(args)
    decreases args
  {
    if args.Cons? {
      PreprocessOffsetFree(q, args.head);
      RewriteArgsOffsetFree(q, args.tail, wrap);
    }
  }

  lemma {:induction false} RewriteKeepsLiteral(q: Query, e: Expr)
    ensures Literal(Rewrite(q, e)) == Literal(Preprocess(q, e)) == Literal(e)
    decreases e
  {
    hide IsInvariant, RewriteArgs, RewriteRange;
    if e.Paren? {
      RewriteKeepsLiteral(q, e.body);
    }
  }

  lemma {:induction false} RewriteKeepsMeaning(I: Interp, q: Query, e: Expr, t: int)
    ensures Denote(I, q, Rewrite(q, e), t) == Denote(I, q, e, t)
    ensures Denote(I, q, Preprocess(q, e), t) == Denote(I, q, e, t)
    decreases e
  {
    hide DenoteArgs, RewriteArgs, IsInvariant, DenoteRange, RewriteRange;
    match e
    case Num(_) =>
    case Str(_) =>
    case Sel(_) =>
    case TimestampOf(_) =>
    case Call(_, args) => RewriteArgsKeepMeaning(I, q, args, !IsInvariant(e), t);
    case RangeCall(_, r, _, others) =>
      RewriteArgsKeepMeaning(I, q, others, !IsInvariant(e), t);
      RewriteRangeKeepsMeaning(I, q, r, t);
    case Agg(_, _, body) => RewriteKeepsMeaning(I, q, body, t);
    case Bin(_, l, r) =>
      RewriteKeepsMeaning(I, q, l, t);
      RewriteKeepsMeaning(I, q, r, t);
    case Neg(b) => RewriteKeepsMeaning(I, q, b, t);
    case Paren(b) => RewriteKeepsMeaning(I, q, b, t);
    case StepInvariant(_) =>
  }

  lemma {:induction false} RewriteRangeKeepsMeaning(I: Interp, q: Query, r: Range, t: int)
    ensures var s := RewriteRange(q, r);
            && s.span == r.span
            && TimeOf(s.Modifier(), q, t) - s.OriginalOffset() == TimeOf(r.Modifier(), q, t) - r.OriginalOffset()
            && DenoteRange(I, q, s, t) == DenoteRange(I, q, r, t)
    decreases r
  {
    hide Denote, Rewrite, Preprocess;
    if r.Subquery? {
      forall x {
        RewriteKeepsMeaning(I, q, r.body, x);
      }
    }
  }

  lemma {:induction false} RewriteArgsKeepMeaning(I: Interp, q: Query, args: Args, wrap: bool, t: int)
    ensures DenoteArgs(I, q, RewriteArgs(q, args, wrap), t) == DenoteArgs(I, q, args, t)
    decreases args
  {
    if args.Cons? {
      RewriteKeepsLiteral(q, args.head);
      RewriteKeepsMeaning(I, q, args.head, t);
      RewriteArgsKeepMeaning(I, q, args.tail, wrap, t);
    }
  }

  /**
   Running the preprocessed query over the grid, with offsets set for its start (engine.go:664),
   yields at every step the meaning of the original query at that step.
   */
  lemma PreprocessedQueryMeansTheOriginal(I: Interp, e: Expr, g: Grid)
    requires TimeBlind(I)
    requires Good(I, Query(g.start, g.end), e, g.start)
    ensures var q := Query(g.start, g.end);
            forall t :: Step(g, t) ==>
              Eval(I, SetOffsets(Preprocess(q, e), g.start, 0), g, t) == Denote(I, q, e, t)
  {
    var q := Query(g.start, g.end);
    RewriteIsReady(I, q, e, g.start);
    forall t | Step(g, t)
      ensures Eval(I, SetOffsets(Preprocess(q, e), g.start, 0), g, t) == Denote(I, q, e, t)
    {
      EvalReady(I, q, Preprocess(q, e), g, t, false);
      RewriteKeepsMeaning(I, q, e, t);
    }
  }

  // ---------- The fragment holds every ordinary query ----------

  /** As parsed, without `@`, without day_of_year(), and with parameters only for aggregations over data. */
  predicate Ordinary(e: Expr) {
    match e
    case Num(_) => true
    case Str(_) => true
    case Sel(s) => s.at.NoAt?
    case TimestampOf(s) => s.at.NoAt?
    case Call(fn, args) => !(fn == "day_of_year" && args.Nil?) && OrdinaryArgs(args)
    case RangeCall(_, r, _, others) => OrdinaryRange(r) && OrdinaryArgs(others)
    case Agg(_, param, body) => (IsInvariant(body) ==> param.Nil?) && OrdinaryArgs(param) && Ordinary(body)
    case Bin(_, l, r) => Ordinary(l) && Ordinary(r)
    case Neg(b) => Ordinary(b)
    case Paren(b) => Ordinary(b)
    case StepInvariant(_) => false
  }

  predicate OrdinaryRange(r: Range) {
    r.Modifier().NoAt? && (r.Subquery? ==> Ordinary(r.body))
  }

  predicate OrdinaryArgs(args: Args) {
    args.Cons? ==> Ordinary(args.head) && OrdinaryArgs(args.tail)
  }

  /** At any nesting of subqueries, with whatever offsets, ranges and steps. */
  lemma {:induction false} OrdinaryQueriesAreGood(I: Interp, q: Query, e: Expr, start: int)
    requires Ordinary(e)
    ensures OffsetFree(e) && Good(I, q, e, start) && Ready(I, e, start, false)
    decreases e
  {
    match e
    case Num(_) =>
    case Str(_) =>
    case Sel(_) =>
    case TimestampOf(_) =>
    case Call(_, args) => OrdinaryArgsAreGood(I, q, args, start);
    case RangeCall(_, r, _, others) =>
      OrdinaryArgsAreGood(I, q, others, start);
      if r.Subquery? {
        OrdinaryQueriesAreGood(I, q, r.body, SubStart(I, r, start));
      }
    case Agg(_, param, body) =>
      OrdinaryArgsAreGood(I, q, param, start);
      OrdinaryQueriesAreGood(I, q, body, start);
    case Bin(_, l, r) =>
      OrdinaryQueriesAreGood(I, q, l, start);
      OrdinaryQueriesAreGood(I, q, r, start);
    case Neg(b) => OrdinaryQueriesAreGood(I, q, b, start);
    case Paren(b) => OrdinaryQueriesAreGood(I, q, b, start);
  }

  lemma {:induction false} OrdinaryArgsAreGood(I: Interp, q: Query, args: Args, start: int)
    requires OrdinaryArgs(args)
    ensures OffsetFreeArgs(args) && GoodArgs(I, q, args, start) && ReadyArgs(I, args, start, false)
    decreases args
  {
    if args.Cons? {
      OrdinaryQueriesAreGood(I, q, args.head, start);
      OrdinaryArgsAreGood(I, q, args.tail, start);
    }
  }
}
