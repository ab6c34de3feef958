/** PromQL expressions as the engine sees them, and the time grids it evaluates them on. */
module PromqlAst {
  import opened Arith

  datatype Float = NaN | NegInf | Fin(r: real) | PosInf
  type Labels = map<string, string>
  type Vector = map<Labels, Float>
  /** A range vector, keyed by the timestamps of its points. */
  type RangeVector = map<int, Vector>
  datatype Value = Vec(v: Vector) | Text(s: string)

  datatype At = NoAt | AtTime(ts: int) | AtStart | AtEnd

  datatype Selector = Selector(id: int, original: int, offset: int, at: At)

  datatype Expr =
    | Num(v: Float)
    | Str(s: string)
    | Sel(sel: Selector)
    | TimestampOf(sel: Selector)  // timestamp(selector), which the engine treats specially
    | Call(fn: string, args: Args)
    | RangeCall(fn: string, arg: Range, wrapped: bool, others: Args)
    | Agg(op: string, param: Args, body: Expr)
    | Bin(op: string, lhs: Expr, rhs: Expr)
    | Neg(body: Expr)
    | Paren(body: Expr)
    | StepInvariant(body: Expr)

  datatype Range =
    | Matrix(sel: Selector, span: int)
    | Subquery(body: Expr, span: int, step: nat, original: int, offset: int, at: At)
  {
    function Modifier(): At {
      if Matrix? then sel.at else at
    }

    function OriginalOffset(): int {
      if Matrix? then sel.original else original
    }
  }

  datatype Args = Nil | Cons(head: Expr, tail: Args)

  function Size(e: Expr): (n: nat)
    ensures n > 0
  {
    1 + match e
    case Num(_) => 0
    case Str(_) => 0
    case Sel(_) => 0
    case TimestampOf(_) => 0
    case Call(_, args) => SizeArgs(args)
    case RangeCall(_, r, _, others) => SizeRange(r) + SizeArgs(others)
    case Agg(_, param, body) => SizeArgs(param) + Size(body)
    case Bin(_, l, r) => Size(l) + Size(r)
    case Neg(b) => Size(b)
    case Paren(b) => Size(b)
    case StepInvariant(b) => Size(b)
  }

  function SizeRange(r: Range): (n: nat)
    ensures n > 0
  {
    match r
    case Matrix(_, _) => 1
    case Subquery(b, _, _, _, _, _) => 1 + Size(b)
  }

  function SizeArgs(a: Args): nat {
    match a
    case Nil => 0
    case Cons(e, rest) => 1 + Size(e) + SizeArgs(rest)
  }

  /** The text of a string literal under any parentheses and wrappers. */
  function Literal(e: Expr): seq<string> {
    match e
    case Str(s) => [s]
    case Paren(b) => Literal(b)
    case StepInvariant(b) => Literal(b)
    case _ => []
  }

  /** The evaluation times of an evaluator: start, start + interval, ... up to end. */
  datatype Grid = Grid(start: int, end: int, interval: Positive)

  predicate Step(g: Grid, t: int) {
    g.start <= t <= g.end && (t - g.start) % g.interval == 0
  }

  /** The start of a subquery's evaluator (engine.go:1734-1739). */
  function AlignedStart(bound: int, interval: Positive): int {
    var s := interval * Quo(bound, interval);
    if s < bound then s + interval else s
  }

  /** The aligned start is the least multiple of the interval not below the bound, for either sign. */
  lemma AlignedStartIsLeastMultiple(bound: int, interval: Positive)
    ensures var s := AlignedStart(bound, interval);
            && s % interval == 0
            && bound <= s < bound + interval
            && forall m :: m >= bound && m % interval == 0 ==> s <= m
  {
    var s, q := AlignedStart(bound, interval), Quo(bound, interval);
    assert bound == interval * (bound / interval) + bound % interval;
    assert -bound == interval * ((-bound) / interval) + (-bound) % interval;
    DivModUnique(interval * q, interval, q, 0);
    DivModUnique(interval * q + interval, interval, q + 1, 0);
    forall m | m >= bound && m % interval == 0 ensures s <= m {
      MultiplesAreFarApart(m, s, interval);
    }
  }
}
