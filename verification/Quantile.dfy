/**
 Quantiles (pkg/promql/quantile.go). histogram_quantile sorts the buckets of a histogram, adds
 up those with the same bound, raises the counts so that they never fall, searches for the
 bucket of the rank and interpolates in it. Bounds are finite or +Inf, counts and values are reals.
 */
module Quantile {
  import opened PromqlAst
  import opened Sorting

  datatype Bound = Le(r: real) | Inf
  datatype Bucket = Bucket(bound: Bound, count: real)

  predicate Below(a: Bound, b: Bound) {
    a.Le? && (b.Inf? || a.r < b.r)
  }

  predicate ByBound(x: Bucket, y: Bucket) {
    !Below(y.bound, x.bound)
  }

  ghost predicate StrictlyIncreasing(c: seq<Bucket>) {
    forall i, j :: 0 <= i < j < |c| ==> Below(c[i].bound, c[j].bound)
  }

  // ---------- Buckets with the same bound ----------

  /** The sum of the counts at a bound. */
  function SumAt(s: seq<Bucket>, b: Bound): real {
    if s == [] then 0.0
    else if s[|s| - 1].bound == b then SumAt(s[..|s| - 1], b) + s[|s| - 1].count
    else SumAt(s[..|s| - 1], b)
  }

  lemma {:induction false} SumAtJoin(s: seq<Bucket>, t: seq<Bucket>, b: Bound)
    ensures SumAt(s + t, b) == SumAt(s, b) + SumAt(t, b)
  {
    if t == [] {
      assert s + t == s;
    } else {
      assert (s + t)[..|s + t| - 1] == s + t[..|t| - 1];
      SumAtJoin(s, t[..|t| - 1], b);
    }
  }

  lemma Remove(t: seq<Bucket>, x: Bucket) returns (rest: seq<Bucket>)
    requires x in t
    ensures |rest| == |t| - 1 && multiset(t) == multiset(rest) + multiset{x}
    ensures forall b :: SumAt(t, b) == SumAt(rest, b) + SumAt([x], b)
  {
    var j :| 0 <= j < |t| && t[j] == x;
    rest := t[..j] + t[j + 1..];
    assert t == t[..j] + [x] + t[j + 1..];
    forall b
      ensures SumAt(t, b) == SumAt(rest, b) + SumAt([x], b)
    {
      SumAtJoin(t[..j] + [x], t[j + 1..], b);
      SumAtJoin(t[..j], [x], b);
      SumAtJoin(t[..j], t[j + 1..], b);
    }
  }

  lemma SameRest(init: seq<Bucket>, x: Bucket, rest: seq<Bucket>)
    requires multiset(init + [x]) == multiset(rest) + multiset{x}
    ensures Permutation(init, rest)
  {
    assert multiset(init + [x]) == multiset(init) + multiset{x};
    assert multiset(init) == multiset(init) + multiset{x} - multiset{x} == multiset(rest);
  }

  /** The sums do not depend on the order of the buckets. */
  lemma {:induction false} SumAtPermutes(s: seq<Bucket>, t: seq<Bucket>, b: Bound)
    requires Permutation(s, t)
    ensures SumAt(s, b) == SumAt(t, b)
  {
    hide SumAt;
    if s == [] {
      assert |multiset(t)| == 0;
    } else {
      var x, init := s[|s| - 1], s[..|s| - 1];
      assert s == init + [x];
      assert x in multiset(s);
      var rest := Remove(t, x);
      SameRest(init, x, rest);
      SumAtPermutes(init, rest, b);
      SumAtJoin(init, [x], b);
    }
  }

  /** What coalesceBuckets makes of the first n buckets. */
  function Coalesced(s: seq<Bucket>, n: nat): (c: seq<Bucket>)
    requires 0 < n <= |s|
    ensures 0 < |c| <= n
  {
    if n == 1 then [s[0]]
    else
      var c, x := Coalesced(s, n - 1), s[n - 1];
      var last := c[|c| - 1];
      if x.bound == last.bound then c[..|c| - 1] + [Bucket(last.bound, last.count + x.count)] else c + [x]
  }

  ghost predicate HasBound(s: seq<Bucket>, b: Bound) {
    exists i :: 0 <= i < |s| && s[i].bound == b
  }

  /** One bucket for each bound, with the sum of the counts at that bound, in increasing order. */
  ghost predicate Sums(c: seq<Bucket>, s: seq<Bucket>) {
    && StrictlyIncreasing(c)
    && (forall i :: 0 <= i < |c| ==> HasBound(s, c[i].bound) && c[i].count == SumAt(s, c[i].bound))
    && (forall i :: 0 <= i < |s| ==> HasBound(c, s[i].bound))
  }

  lemma HasBoundOfOneMore(s: seq<Bucket>, x: Bucket, b: Bound)
    ensures HasBound(s + [x], b) <==> HasBound(s, b) || x.bound == b
    ensures SumAt(s + [x], b) == SumAt(s, b) + if x.bound == b then x.count else 0.0
  {
    var t := s + [x];
    assert t[..|s|] == s && t[|s|] == x;
    if HasBound(s, b) {
      var i :| 0 <= i < |s| && s[i].bound == b;
      assert t[i].bound == b;
    }
  }

  lemma {:induction false} NoSum(s: seq<Bucket>, b: Bound)
    requires !HasBound(s, b)
    ensures SumAt(s, b) == 0.0
  {
    if s != [] {
      var init := s[..|s| - 1];
      assert s == init + [s[|s| - 1]];
      HasBoundOfOneMore(init, s[|s| - 1], b);
      NoSum(init, b);
    }
  }

  lemma AddToLast(c: seq<Bucket>, s: seq<Bucket>, x: Bucket)
    requires c != [] && Sums(c, s) && x.bound == c[|c| - 1].bound
    ensures Sums(c[..|c| - 1] + [Bucket(x.bound, c[|c| - 1].count + x.count)], s + [x])
  {
    hide SumAt, HasBound;
    var d, t := c[..|c| - 1] + [Bucket(x.bound, c[|c| - 1].count + x.count)], s + [x];
    assert forall i :: 0 <= i < |c| ==> d[i].bound == c[i].bound;
    forall b
      ensures HasBound(t, b) <==> HasBound(s, b) || x.bound == b
      ensures SumAt(t, b) == SumAt(s, b) + if x.bound == b then x.count else 0.0
      ensures HasBound(d, b) <==> HasBound(c, b)
    {
      HasBoundOfOneMore(s, x, b);
      SameBounds(c, d, b);
    }
    assert HasBound(d, x.bound) by { BoundAt(d, |d| - 1); }
  }

  lemma BoundAt(c: seq<Bucket>, i: nat)
    requires i < |c|
    ensures HasBound(c, c[i].bound)
  {
  }

  lemma SameBounds(c: seq<Bucket>, d: seq<Bucket>, b: Bound)
    requires |c| == |d| && forall i :: 0 <= i < |c| ==> d[i].bound == c[i].bound
    ensures HasBound(d, b) <==> HasBound(c, b)
  {
  }

  lemma AddNew(c: seq<Bucket>, s: seq<Bucket>, x: Bucket)
    requires Sums(c, s) && forall i :: 0 <= i < |c| ==> Below(c[i].bound, x.bound)
    ensures Sums(c + [x], s + [x])
  {
    var d, t := c + [x], s + [x];
    assert !HasBound(c, x.bound) && !HasBound(s, x.bound);
    NoSum(s, x.bound);
    hide SumAt, HasBound;
    forall b
      ensures HasBound(t, b) <==> HasBound(s, b) || x.bound == b
      ensures SumAt(t, b) == SumAt(s, b) + if x.bound == b then x.count else 0.0
      ensures HasBound(d, b) <==> HasBound(c, b) || x.bound == b
    {
      HasBoundOfOneMore(s, x, b);
      HasBoundOfOneMore(c, x, b);
    }
  }

  lemma NewIsAbove(c: seq<Bucket>, s: seq<Bucket>, x: Bucket)
    requires c != [] && Sums(c, s) && Sorted(s + [x], ByBound) && x.bound != c[|c| - 1].bound
    ensures forall i :: 0 <= i < |c| ==> Below(c[i].bound, x.bound)
  {
    var last := c[|c| - 1].bound;
    var k :| 0 <= k < |s| && s[k].bound == last;
    assert (s + [x])[k] == s[k] && (s + [x])[|s|] == x;
    hide SumAt, HasBound;
    assert Below(last, x.bound);
  }

  /** Coalescing sorted buckets adds up the counts at each bound. */
  lemma {:induction false} CoalescedSums(s: seq<Bucket>, n: nat)
    requires 0 < n <= |s| && Sorted(s, ByBound)
    ensures Sums(Coalesced(s, n), s[..n])
  {
    hide Sums, SumAt, HasBound, StrictlyIncreasing;
    if n == 1 {
      assert s[..1] == [s[0]] == [] + [s[0]];
      NoSums();
      AddNew([], [], s[0]);
    } else {
      CoalescedSums(s, n - 1);
      var c, x := Coalesced(s, n - 1), s[n - 1];
      assert s[..n] == s[..n - 1] + [x];
      if x.bound == c[|c| - 1].bound {
        AddToLast(c, s[..n - 1], x);
      } else {
        NewIsAbove(c, s[..n - 1], x);
        AddNew(c, s[..n - 1], x);
      }
    }
  }

  lemma NoSums()
    ensures Sums([], [])
  {
  }

  ghost predicate Within(c: seq<Bucket>, d: seq<Bucket>) {
    forall x :: x in c ==> x in d
  }

  lemma LastIsHighest(c: seq<Bucket>, x: Bucket)
    requires StrictlyIncreasing(c) && x in c
    ensures x == c[|c| - 1] || (x in c[..|c| - 1] && Below(x.bound, c[|c| - 1].bound))
  {
    var i :| 0 <= i < |c| && c[i] == x;
    assert i < |c| - 1 ==> c[..|c| - 1][i] == x;
  }

  lemma HasElement<T>(s: seq<T>)
    ensures s == [] || exists x :: x in s
  {
    if s != [] {
      assert s[0] in s;
    }
  }

  lemma {:induction false} SameBuckets(c: seq<Bucket>, d: seq<Bucket>)
    requires StrictlyIncreasing(c) && StrictlyIncreasing(d) && Within(c, d) && Within(d, c)
    ensures c == d
  {
    if c == [] || d == [] {
      HasElement(c);
      HasElement(d);
    } else {
      var c', d', x, y := c[..|c| - 1], d[..|d| - 1], c[|c| - 1], d[|d| - 1];
      LastIsHighest(d, x);
      LastIsHighest(c, y);
      forall z | z in c'
        ensures z in d'
      {
        LastIsHighest(d, z);
        var i :| 0 <= i < |c'| && c'[i] == z;
        assert Below(c[i].bound, x.bound);
      }
      forall z | z in d'
        ensures z in c'
      {
        LastIsHighest(c, z);
        var i :| 0 <= i < |d'| && d'[i] == z;
        assert Below(d[i].bound, y.bound);
      }
      SameBuckets(c', d');
      assert c == c' + [x] && d == d' + [y];
    }
  }

  lemma SumsWithin(c: seq<Bucket>, s: seq<Bucket>, d: seq<Bucket>, t: seq<Bucket>)
    requires Sums(c, s) && Sums(d, t) && Permutation(s, t)
    ensures Within(c, d)
  {
    hide SumAt;
    forall x | x in c
      ensures x in d
    {
      var i :| 0 <= i < |c| && c[i] == x;
      var j :| 0 <= j < |s| && s[j].bound == x.bound;
      assert s[j] in multiset(s) && s[j] in t;
      var k :| 0 <= k < |t| && t[k] == s[j];
      assert HasBound(d, t[k].bound);
      var h :| 0 <= h < |d| && d[h].bound == x.bound;
      SumAtPermutes(s, t, x.bound);
      assert d[h] == x;
    }
  }

  lemma CoalescedFirst(s: seq<Bucket>)
    requires s != []
    ensures Coalesced(s, 1) == [s[0]]
  {
  }

  lemma CoalescedStep(s: seq<Bucket>, n: nat)
    requires 0 < n < |s|
    ensures var c, d := Coalesced(s, n), Coalesced(s, n + 1);
      if s[n].bound == c[|c| - 1].bound then
        |d| == |c| && d[|c| - 1] == Bucket(s[n].bound, c[|c| - 1].count + s[n].count) && d[..|c| - 1] == c[..|c| - 1]
      else d == c + [s[n]]
  {
  }

  /** coalesceBuckets (quantile.go:125-139), in place. */
  method CoalesceBuckets(buckets: seq<Bucket>) returns (r: seq<Bucket>)
    requires buckets != []
    ensures r == Coalesced(buckets, |buckets|)
  {
    hide Coalesced;
    r := buckets;
    var last, i := buckets[0], 0;
    CoalescedFirst(buckets);
    for n := 1 to |buckets|
      invariant |r| == |buckets| && i < n
      invariant |Coalesced(buckets, n)| == i + 1 && Coalesced(buckets, n)[i] == last
      invariant forall k :: 0 <= k < i ==> r[k] == Coalesced(buckets, n)[k]
      invariant forall k :: n <= k < |r| ==> r[k] == buckets[k]
    {
      var b := r[n];
      CoalescedStep(buckets, n);
      if b.bound == last.bound {
        last := Bucket(last.bound, last.count + b.count);
      } else {
        r := r[i := last];
        last := b;
        i := i + 1;
      }
    }
    r := r[i := last];
    return r[..i + 1];
  }

  // ---------- Counts that never fall ----------

  function Highest(c: seq<Bucket>, n: nat): real
    requires 0 < n <= |c|
  {
    if n > 1 && Highest(c, n - 1) > c[n - 1].count then Highest(c, n - 1) else c[n - 1].count
  }

  function Envelope(c: seq<Bucket>): (e: seq<Bucket>)
    ensures |e| == |c| && forall i :: 0 <= i < |c| ==> e[i] == Bucket(c[i].bound, Highest(c, i + 1))
  {
    seq(|c|, i requires 0 <= i < |c| => Bucket(c[i].bound, Highest(c, i + 1)))
  }

  ghost predicate NeverFalls(c: seq<Bucket>) {
    forall i, j :: 0 <= i < j < |c| ==> c[i].count <= c[j].count
  }

  lemma {:induction false} HighestIsAttained(c: seq<Bucket>, n: nat) returns (k: nat)
    requires 0 < n <= |c|
    ensures k < n && c[k].count == Highest(c, n)
  {
    k := n - 1;
    if n > 1 && Highest(c, n - 1) > c[n - 1].count {
      k := HighestIsAttained(c, n - 1);
    }
  }

  lemma {:induction false} HighestIsBound(c: seq<Bucket>, k: nat, n: nat)
    requires k < n <= |c|
    ensures c[k].count <= Highest(c, n)
  {
    if k < n - 1 {
      HighestIsBound(c, k, n - 1);
    }
  }

  /** The envelope is the least sequence of counts that never falls and is nowhere below the given one. */
  lemma EnvelopeIsLeastMajorant(c: seq<Bucket>)
    ensures NeverFalls(Envelope(c)) && Above(Envelope(c), c)
    ensures forall d :: |d| == |c| && NeverFalls(d) && Above(d, c) ==> Above(d, Envelope(c))
  {
    forall i, j | 0 <= i < j < |c|
      ensures Envelope(c)[i].count <= Envelope(c)[j].count
    {
      var k := HighestIsAttained(c, i + 1);
      HighestIsBound(c, k, j + 1);
    }
    forall i | 0 <= i < |c|
      ensures c[i].count <= Envelope(c)[i].count
    {
      HighestIsBound(c, i, i + 1);
    }
    forall d: seq<Bucket> | |d| == |c| && NeverFalls(d) && Above(d, c)
      ensures Above(d, Envelope(c))
    {
      forall i | 0 <= i < |c|
        ensures Envelope(c)[i].count <= d[i].count
      {
        var k := HighestIsAttained(c, i + 1);
      }
    }
  }

  ghost predicate Above(d: seq<Bucket>, c: seq<Bucket>)
    requires |d| == |c|
  {
    forall i :: 0 <= i < |c| ==> c[i].count <= d[i].count
  }

  /** ensureMonotonic (quantile.go:174-184), in place. */
  method EnsureMonotonic(buckets: seq<Bucket>) returns (r: seq<Bucket>)
    requires buckets != []
    ensures r == Envelope(buckets)
  {
    r := buckets;
    var max := buckets[0].count;
    for i := 1 to |buckets|
      invariant |r| == |buckets| && max == Highest(buckets, i)
      invariant forall k :: 0 <= k < i ==> r[k] == Bucket(buckets[k].bound, Highest(buckets, k + 1))
      invariant forall k :: i <= k < |r| ==> r[k] == buckets[k]
    {
      if r[i].count > max {
        max := r[i].count;
      } else if r[i].count < max {
        r := r[i := Bucket(r[i].bound, max)];
      }
    }
  }

  // ---------- The bucket of a rank ----------

  /** The first of the buckets k..n whose count reaches the rank; n if there is none. */
  function First(e: seq<Bucket>, k: nat, n: nat, rank: real): (b: nat)
    requires k <= n <= |e|
    ensures k <= b <= n && (b < n ==> rank <= e[b].count) && forall i :: k <= i < b ==> e[i].count < rank
    decreases n - k
  {
    if k == n || rank <= e[k].count then k else First(e, k + 1, n, rank)
  }

  /** The binary search of sort.Search (quantile.go:101). */
  method Search(e: seq<Bucket>, n: nat, rank: real) returns (b: nat)
    requires n <= |e| && NeverFalls(e)
    ensures b == First(e, 0, n, rank)
  {
    var i, j := 0, n;
    while i < j
      invariant i <= j <= n
      invariant forall k :: 0 <= k < i ==> e[k].count < rank
      invariant forall k :: j <= k < n ==> rank <= e[k].count
    {
      var h := (i + j) / 2;
      if e[h].count < rank {
        i := h + 1;
      } else {
        j := h;
      }
    }
    assert i < n ==> rank <= e[i].count;
    b := i;
  }

  // ---------- The quantile of a histogram ----------

  function BoundValue(b: Bound): Float {
    if b.Le? then Fin(b.r) else PosInf
  }

  /** Where the bucket of a rank starts, and how many observations are before it. */
  function StartOf(e: seq<Bucket>, b: nat): real
    requires b < |e| - 1 && StrictlyIncreasing(e)
  {
    if b == 0 then 0.0 else assert Below(e[b - 1].bound, e[b].bound); e[b - 1].bound.r
  }

  function Before(e: seq<Bucket>, b: nat): real
    requires b < |e|
  {
    if b == 0 then 0.0 else e[b - 1].count
  }

  /** Division by zero yields NaN; the code divides zero by zero only. */
  function Interpolate(e: seq<Bucket>, b: nat, rank: real): Float
    requires b < |e| - 1 && StrictlyIncreasing(e)
  {
    assert Below(e[b].bound, e[b + 1].bound);
    var start, before := StartOf(e, b), Before(e, b);
    if e[b].count == before then NaN
    else Fin(Lerp(start, e[b].bound.r, (rank - before) / (e[b].count - before)))
  }

  function Lerp(a: real, b: real, f: real): real {
    a + (b - a) * f
  }

  /** The value for a rank in bucket b. */
  function ValueIn(e: seq<Bucket>, b: nat, rank: real): Float
    requires 1 < |e| && b < |e| && StrictlyIncreasing(e)
  {
    var n := |e| - 1;
    if b == n then BoundValue(e[n - 1].bound)
    else if b == 0 && !Below(Le(0.0), e[0].bound) then BoundValue(e[0].bound)
    else Interpolate(e, b, rank)
  }

  /** The quantile of coalesced buckets whose counts never fall (quantile.go:93-119). */
  function QuantileOf(q: real, e: seq<Bucket>): Float
    requires e != [] && StrictlyIncreasing(e)
  {
    var n := |e| - 1;
    if n < 1 || e[n].count == 0.0 then NaN
    else
      ValueIn(e, First(e, 0, n, RankOf(q, e)), RankOf(q, e))
  }

  /** How many observations the quantile leaves below it. */
  function RankOf(q: real, e: seq<Bucket>): real
    requires e != []
  {
    q * e[|e| - 1].count
  }

  lemma {:induction false} SumsPermute(c: seq<Bucket>, s: seq<Bucket>, t: seq<Bucket>)
    requires Sums(c, s) && Permutation(s, t)
    ensures Sums(c, t)
  {
    hide SumAt, StrictlyIncreasing;
    forall i | 0 <= i < |c|
      ensures HasBound(t, c[i].bound) && c[i].count == SumAt(t, c[i].bound)
    {
      var j :| 0 <= j < |s| && s[j].bound == c[i].bound;
      assert s[j] in multiset(s) && s[j] in t;
      SumAtPermutes(s, t, c[i].bound);
    }
    forall i | 0 <= i < |t|
      ensures HasBound(c, t[i].bound)
    {
      assert t[i] in multiset(t) && t[i] in s;
    }
  }

  /** The buckets after coalescing depend only on the multiset of buckets. */
  lemma SumsAreUnique(c: seq<Bucket>, s: seq<Bucket>, d: seq<Bucket>, t: seq<Bucket>)
    requires Sums(c, s) && Sums(d, t) && Permutation(s, t)
    ensures c == d
  {
    hide SumAt, HasBound;
    SumsWithin(c, s, d, t);
    SumsWithin(d, t, c, s);
    SameBuckets(c, d);
  }

  lemma ByBoundIsOrder()
    ensures TotalOrder(ByBound)
  {
  }

  /** Sorting and coalescing (quantile.go:85-90). */
  method Canonical(buckets: seq<Bucket>) returns (sorted: seq<Bucket>, c: seq<Bucket>)
    requires buckets != []
    ensures Sums(c, buckets) && c != []
    ensures sorted != [] && (sorted[|sorted| - 1].bound == Inf <==> HasBound(buckets, Inf))
  {
    hide Sums, SumAt, Coalesced;
    ByBoundIsOrder();
    sorted := Sort(buckets, ByBound);
    assert |sorted| == |multiset(sorted)| == |multiset(buckets)| == |buckets|;
    c := CoalesceBuckets(sorted);
    assert sorted[..|sorted|] == sorted;
    CoalescedSums(sorted, |sorted|);
    SumsPermute(c, sorted, buckets);
    TopIsLast(buckets, sorted);
  }

  lemma TopIsLast(s: seq<Bucket>, t: seq<Bucket>)
    requires Permutation(s, t) && Sorted(t, ByBound) && t != []
    ensures t[|t| - 1].bound == Inf <==> HasBound(s, Inf)
  {
    assert t[|t| - 1] in multiset(t) && t[|t| - 1] in s;
    if HasBound(s, Inf) {
      var i :| 0 <= i < |s| && s[i].bound == Inf;
      assert s[i] in multiset(s) && s[i] in t;
      var j :| 0 <= j < |t| && t[j] == s[i];
      assert j < |t| - 1 ==> ByBound(t[j], t[|t| - 1]);
    }
  }

  /** The search in the prepared buckets (quantile.go:93-119). */
  method SearchBucket(q: real, e: seq<Bucket>) returns (r: Float)
    requires e != [] && StrictlyIncreasing(e) && NeverFalls(e)
    ensures r == QuantileOf(q, e)
  {
    hide RankOf, First, Interpolate;
    if |e| < 2 {
      return NaN;
    }
    var observations := e[|e| - 1].count;
    if observations == 0.0 {
      return NaN;
    }
    var rank := RankOf(q, e);
    var b := Search(e, |e| - 1, rank);
    if b == |e| - 1 {
      return BoundValue(e[|e| - 2].bound);
    }
    if b == 0 && !Below(Le(0.0), e[0].bound) {
      return BoundValue(e[0].bound);
    }
    return Interpolate(e, b, rank);
  }

  /** bucketQuantile (quantile.go:75-120). `c` is the histogram with one bucket for each bound. */
  method BucketQuantile(q: Float, buckets: seq<Bucket>) returns (r: Float, ghost c: seq<Bucket>)
    requires buckets != []
    ensures q.NaN? ==> r == NaN
    ensures q.NegInf? || (q.Fin? && q.r < 0.0) ==> r == NegInf
    ensures q.PosInf? || (q.Fin? && q.r > 1.0) ==> r == PosInf
    ensures q.Fin? && 0.0 <= q.r <= 1.0 ==> Sums(c, buckets) && c != []
    ensures q.Fin? && 0.0 <= q.r <= 1.0 ==>
      r == if HasBound(buckets, Inf) then QuantileOf(q.r, Envelope(c)) else NaN
  {
    hide Sums, QuantileOf, Envelope, NeverFalls, StrictlyIncreasing, HasBound;
    c := [];
    if q.NaN? {
      return NaN, c;
    }
    if q.NegInf? || (q.Fin? && q.r < 0.0) {
      return NegInf, c;
    }
    if q.PosInf? || q.r > 1.0 {
      return PosInf, c;
    }
    var sorted, coalesced := Canonical(buckets);
    c := coalesced;
    if sorted[|sorted| - 1].bound != Inf {
      return NaN, c;
    }
    SumsIncrease(c, buckets);
    EnvelopeIsLeastMajorant(c);
    var e := EnsureMonotonic(coalesced);
    r := SearchBucket(q.r, e);
  }

  lemma SumsIncrease(c: seq<Bucket>, s: seq<Bucket>)
    requires Sums(c, s)
    ensures StrictlyIncreasing(c) && StrictlyIncreasing(Envelope(c))
  {
  }

  // ---------- The quantile is well behaved ----------

  /** At least two buckets, the last one +Inf, with something counted. */
  ghost predicate Histogram(e: seq<Bucket>) {
    && |e| >= 2 && StrictlyIncreasing(e) && NeverFalls(e)
    && e[|e| - 1].bound == Inf && e[|e| - 1].count > 0.0
  }

  /** The one case in which the code divides zero by zero. */
  predicate Degenerate(q: real, e: seq<Bucket>)
    requires e != []
  {
    q == 0.0 && e[0].count == 0.0 && Below(Le(0.0), e[0].bound)
  }

  lemma ProductSigns(q: real, n: real)
    requires n > 0.0 && 0.0 <= q <= 1.0
    ensures 0.0 <= q * n <= n && (q * n == 0.0 <==> q == 0.0)
  {
  }

  lemma ProductGrows(p: real, q: real, n: real)
    requires n >= 0.0 && p <= q
    ensures p * n <= q * n
  {
  }

  lemma QuotientWithin(x: real, y: real, w: real)
    requires 0.0 <= x <= y <= w && 0.0 < w
    ensures 0.0 <= x / w <= y / w <= 1.0
  {
    assert x / w * w == x && y / w * w == y;
  }

  lemma LerpGrows(a: real, b: real, f: real, g: real)
    requires a <= b && 0.0 <= f <= g <= 1.0
    ensures a <= Lerp(a, b, f) <= Lerp(a, b, g) <= b
  {
    assert (b - a) * f <= (b - a) * g <= b - a;
  }

  /** The range of the values in a bucket: a first bucket above zero starts at zero. */
  ghost function LowEnd(e: seq<Bucket>, b: nat): real
    requires Histogram(e) && b < |e|
  {
    assert b > 0 ==> Below(e[b - 1].bound, e[b].bound);
    assert Below(e[0].bound, e[1].bound);
    if b > 0 then e[b - 1].bound.r else if e[0].bound.r < 0.0 then e[0].bound.r else 0.0
  }

  ghost function HighEnd(e: seq<Bucket>, b: nat): real
    requires Histogram(e) && b < |e|
  {
    var i := if b == |e| - 1 then b - 1 else b;
    assert Below(e[i].bound, e[i + 1].bound);
    e[i].bound.r
  }

  lemma EndsAreOrdered(e: seq<Bucket>, a: nat, b: nat)
    requires Histogram(e) && a < |e| && b < |e|
    ensures a < b ==> HighEnd(e, a) <= LowEnd(e, b)
    ensures LowEnd(e, 0) <= LowEnd(e, a) && HighEnd(e, a) <= HighEnd(e, |e| - 1)
  {
    assert forall i :: 0 <= i < |e| - 1 ==> Below(e[i].bound, e[i + 1].bound);
  }

  /** In a bucket that counts something, interpolation stays in the bucket and grows with the rank. */
  lemma InterpolationGrows(e: seq<Bucket>, b: nat, x: real, y: real)
    requires Histogram(e) && b < |e| - 1 && (b == 0 ==> Below(Le(0.0), e[0].bound))
    requires Before(e, b) <= x <= y <= e[b].count && Before(e, b) < e[b].count
    ensures Interpolate(e, b, x).Fin? && Interpolate(e, b, y).Fin?
    ensures LowEnd(e, b) <= Interpolate(e, b, x).r <= Interpolate(e, b, y).r <= HighEnd(e, b)
  {
    hide Lerp;
    var start, before := StartOf(e, b), Before(e, b);
    var w := e[b].count - before;
    assert Below(e[b].bound, e[b + 1].bound);
    assert b > 0 ==> Below(e[b - 1].bound, e[b].bound);
    QuotientWithin(x - before, y - before, w);
    LerpGrows(start, e[b].bound.r, (x - before) / w, (y - before) / w);
  }

  /** Both ranks fall into bucket b. */
  ghost predicate InBucket(e: seq<Bucket>, b: nat, x: real, y: real)
    requires Histogram(e)
  {
    b < |e| && 0.0 <= x <= y && (b < |e| - 1 ==> y <= e[b].count) && (b > 0 ==> e[b - 1].count < x)
  }

  lemma ValueGrows(e: seq<Bucket>, b: nat, x: real, y: real)
    requires Histogram(e) && InBucket(e, b, x, y)
    ensures ValueIn(e, b, x) == NaN <==> b == 0 && e[0].count == 0.0 && Below(Le(0.0), e[0].bound)
    ensures ValueIn(e, b, x) != NaN ==> ValueIn(e, b, x).Fin? && ValueIn(e, b, y).Fin?
    ensures ValueIn(e, b, x) != NaN ==>
      LowEnd(e, b) <= ValueIn(e, b, x).r <= ValueIn(e, b, y).r <= HighEnd(e, b)
  {
    hide Lerp;
    var n := |e| - 1;
    assert Below(e[n - 1].bound, e[n].bound) && Below(e[0].bound, e[1].bound);
    if b < n && (b > 0 || Below(Le(0.0), e[0].bound)) && Before(e, b) < e[b].count {
      InterpolationGrows(e, b, x, y);
    }
  }

  ghost function BucketOf(q: real, e: seq<Bucket>): nat
    requires |e| >= 2
  {
    First(e, 0, |e| - 1, RankOf(q, e))
  }

  lemma FallsInto(p: real, q: real, e: seq<Bucket>)
    requires Histogram(e) && 0.0 <= p <= q <= 1.0
    ensures BucketOf(p, e) <= BucketOf(q, e)
    ensures BucketOf(p, e) == BucketOf(q, e) ==> InBucket(e, BucketOf(p, e), RankOf(p, e), RankOf(q, e))
    ensures QuantileOf(p, e) == ValueIn(e, BucketOf(p, e), RankOf(p, e))
    ensures Degenerate(p, e) <==> BucketOf(p, e) == 0 && e[0].count == 0.0 && Below(Le(0.0), e[0].bound)
  {
    hide ValueIn, First, RankOf;
    RanksGrow(p, q, e);
    FirstGrows(e, |e| - 1, RankOf(p, e), RankOf(q, e));
  }

  lemma RanksGrow(p: real, q: real, e: seq<Bucket>)
    requires Histogram(e) && 0.0 <= p <= q <= 1.0
    ensures 0.0 <= RankOf(p, e) <= RankOf(q, e) && (RankOf(p, e) == 0.0 <==> p == 0.0)
  {
    var n := e[|e| - 1].count;
    ProductSigns(p, n);
    ProductSigns(q, n);
    ProductGrows(p, q, n);
  }

  lemma FirstGrows(e: seq<Bucket>, n: nat, x: real, y: real)
    requires n <= |e| && x <= y
    ensures First(e, 0, n, x) <= First(e, 0, n, y)
  {
    hide First;
    var a, b := First(e, 0, n, x), First(e, 0, n, y);
    assert b < n ==> x <= e[b].count;
  }

  /** The quantile is NaN in the degenerate case only. */
  lemma QuantileIsNaNIff(q: real, e: seq<Bucket>)
    requires Histogram(e) && 0.0 <= q <= 1.0
    ensures QuantileOf(q, e) == NaN <==> Degenerate(q, e)
  {
    hide QuantileOf, ValueIn, RankOf, BucketOf, InBucket, LowEnd, HighEnd;
    FallsInto(q, q, e);
    ValueGrows(e, BucketOf(q, e), RankOf(q, e), RankOf(q, e));
  }

  /** histogram_quantile lies between zero or the lowest bound and the second-highest bound. */
  lemma QuantileIsBounded(q: real, e: seq<Bucket>)
    requires Histogram(e) && 0.0 <= q <= 1.0 && !Degenerate(q, e)
    ensures QuantileOf(q, e).Fin? && LowEnd(e, 0) <= QuantileOf(q, e).r <= HighEnd(e, |e| - 1)
  {
    hide QuantileOf, ValueIn, RankOf, LowEnd, HighEnd;
    FallsInto(q, q, e);
    ValueGrows(e, BucketOf(q, e), RankOf(q, e), RankOf(q, e));
    EndsAreOrdered(e, BucketOf(q, e), BucketOf(q, e));
  }

  /** histogram_quantile is monotone in q. */
  lemma QuantileIsMonotone(p: real, q: real, e: seq<Bucket>)
    requires Histogram(e) && 0.0 <= p <= q <= 1.0 && !Degenerate(p, e)
    ensures QuantileOf(p, e).Fin? && QuantileOf(q, e).Fin? && QuantileOf(p, e).r <= QuantileOf(q, e).r
  {
    hide QuantileOf, ValueIn, RankOf, LowEnd, HighEnd, Degenerate;
    FallsInto(p, q, e);
    FallsInto(p, p, e);
    FallsInto(q, q, e);
    var a, b := BucketOf(p, e), BucketOf(q, e);
    if a < b {
      ValueGrows(e, a, RankOf(p, e), RankOf(p, e));
      ValueGrows(e, b, RankOf(q, e), RankOf(q, e));
      EndsAreOrdered(e, a, b);
    } else {
      ValueGrows(e, a, RankOf(p, e), RankOf(q, e));
    }
  }

  /** The observations counted up to x, if those of bucket b are spread evenly from `lo` on. */
  ghost function CountedUpTo(lo: real, before: real, hi: real, count: real, x: real): real
    requires lo < hi
  {
    before + (x - lo) / (hi - lo) * (count - before)
  }

  /**
   x is the q-quantile: b is the first bucket whose count reaches q times the total, and x is where
   exactly that many observations are counted. The two buckets without a width are stood for by a bound.
   */
  ghost predicate IsQuantileIn(q: real, e: seq<Bucket>, b: nat, x: real)
    requires Histogram(e)
  {
    var n, wanted := |e| - 1, q * e[|e| - 1].count;
    && b <= n && (b > 0 ==> e[b - 1].count < wanted) && (b < n ==> wanted <= e[b].count)
    && if b == n then e[n - 1].bound == Le(x)
       else if b == 0 then
         e[0].bound.Le? && var hi := e[0].bound.r;
         if hi <= 0.0 then x == hi else 0.0 <= x <= hi && CountedUpTo(0.0, 0.0, hi, e[0].count, x) == wanted
       else
         e[b - 1].bound.Le? && e[b].bound.Le? && var lo, hi := e[b - 1].bound.r, e[b].bound.r;
         lo < hi && lo <= x <= hi && CountedUpTo(lo, e[b - 1].count, hi, e[b].count, x) == wanted
  }

  /** Interpolating a value and counting up to it are inverse. */
  lemma LerpCounts(lo: real, before: real, hi: real, count: real, wanted: real)
    requires lo < hi && before < count
    ensures CountedUpTo(lo, before, hi, count, Lerp(lo, hi, (wanted - before) / (count - before))) == wanted
  {
    var f := (wanted - before) / (count - before);
    ScaledBack(hi - lo, f);
    assert f * (count - before) == wanted - before;
  }

  lemma ScaledBack(w: real, f: real)
    requires w > 0.0
    ensures w * f / w == f
  {
  }

  /** histogram_quantile finds where the count, interpolated in its bucket, is q times the total. */
  lemma QuantileCounts(q: real, e: seq<Bucket>)
    requires Histogram(e) && 0.0 <= q <= 1.0 && !Degenerate(q, e)
    ensures QuantileOf(q, e).Fin? && exists b :: IsQuantileIn(q, e, b, QuantileOf(q, e).r)
  {
    hide CountedUpTo, Lerp, First;
    var n, b, wanted := |e| - 1, BucketOf(q, e), RankOf(q, e);
    QuantileIsBounded(q, e);
    FallsInto(q, q, e);
    ValueGrows(e, b, wanted, wanted);
    assert Below(e[n - 1].bound, e[n].bound) && Below(e[0].bound, e[1].bound);
    assert b > 0 ==> Below(e[b - 1].bound, e[b].bound);
    assert b < n ==> Below(e[b].bound, e[b + 1].bound);
    if b < n && (b > 0 || Below(Le(0.0), e[0].bound)) {
      LerpCounts(StartOf(e, b), Before(e, b), e[b].bound.r, e[b].count, wanted);
    }
    assert IsQuantileIn(q, e, b, QuantileOf(q, e).r);
  }

  lemma {:induction false} SumIsNotNegative(s: seq<Bucket>, b: Bound)
    requires forall i :: 0 <= i < |s| ==> s[i].count >= 0.0
    ensures SumAt(s, b) >= 0.0
  {
    if s != [] {
      SumIsNotNegative(s[..|s| - 1], b);
    }
  }

  /** Counts that are not negative make a histogram, unless there is one bucket or nothing was counted. */
  lemma PreparedIsHistogram(c: seq<Bucket>, s: seq<Bucket>)
    requires Sums(c, s) && HasBound(s, Inf) && forall i :: 0 <= i < |s| ==> s[i].count >= 0.0
    ensures c != [] && (|c| < 2 || Envelope(c)[|c| - 1].count == 0.0 || Histogram(Envelope(c)))
  {
    hide SumAt, Highest;
    EnvelopeIsLeastMajorant(c);
    SumsIncrease(c, s);
    var i :| 0 <= i < |s| && s[i].bound == Inf;
    var j :| 0 <= j < |c| && c[j].bound == Inf;
    SumIsNotNegative(s, c[|c| - 1].bound);
    assert j == |c| - 1;
  }

  // ---------- The quantile of samples ----------

  /** The value at a rank: the two neighbours, weighted by their distance. */
  function ValueAt(v: seq<real>, rank: real): real
    requires v != [] && 0.0 <= rank <= (|v| - 1) as real
  {
    var lower := rank.Floor;
    var upper := if lower + 1 < |v| then lower + 1 else |v| - 1;
    Lerp(v[lower], v[upper], rank - lower as real)
  }

  function SampleRank(q: real, n: nat): (rank: real)
    requires n > 0 && 0.0 <= q <= 1.0
    ensures 0.0 <= rank <= (n - 1) as real
  {
    q * (n - 1) as real
  }

  lemma SampleRankGrows(p: real, q: real, n: nat)
    requires n > 0 && 0.0 <= p <= q <= 1.0
    ensures SampleRank(p, n) <= SampleRank(q, n)
  {
    ProductGrows(p, q, (n - 1) as real);
  }

  function SampleQuantile(q: real, v: seq<real>): real
    requires v != [] && 0.0 <= q <= 1.0
  {
    ValueAt(v, SampleRank(q, |v|))
  }

  predicate AtMost(x: real, y: real) {
    x <= y
  }

  /** quantile (quantile.go:193-215). */
  method Quantile(q: Float, values: seq<real>) returns (r: Float, ghost sorted: seq<real>)
    ensures values == [] || q.NaN? ==> r == NaN
    ensures values != [] && (q.NegInf? || (q.Fin? && q.r < 0.0)) ==> r == NegInf
    ensures values != [] && (q.PosInf? || (q.Fin? && q.r > 1.0)) ==> r == PosInf
    ensures values != [] && q.Fin? && 0.0 <= q.r <= 1.0 ==>
      sorted != [] && Sorted(sorted, AtMost) && Permutation(values, sorted) && r == Fin(SampleQuantile(q.r, sorted))
  {
    sorted := [];
    if |values| == 0 || q.NaN? {
      return NaN, sorted;
    }
    if q.NegInf? || (q.Fin? && q.r < 0.0) {
      return NegInf, sorted;
    }
    if q.PosInf? || q.r > 1.0 {
      return PosInf, sorted;
    }
    var s := Sort(values, AtMost);
    assert |s| == |multiset(s)| == |multiset(values)| == |values|;
    sorted := s;
    var rank := SampleRank(q.r, |s|);
    var lower := rank.Floor;
    var upper := if lower + 1 < |s| then lower + 1 else |s| - 1;
    return Fin(Lerp(s[lower], s[upper], rank - lower as real)), sorted;
  }

  /** The sorted values depend only on the multiset of values. */
  lemma SortedValuesAreUnique(s: seq<real>, t: seq<real>)
    requires Sorted(s, AtMost) && Sorted(t, AtMost) && Permutation(s, t)
    ensures s == t
  {
    SortedIsUnique(s, t, AtMost);
  }

  lemma ValueGrowsWithRank(v: seq<real>, x: real, y: real)
    requires v != [] && Sorted(v, AtMost) && 0.0 <= x <= y <= (|v| - 1) as real
    ensures v[0] <= ValueAt(v, x) <= ValueAt(v, y) <= v[|v| - 1]
  {
    hide Lerp;
    var i, j, n := x.Floor, y.Floor, |v| - 1;
    var i', j' := if i < n then i + 1 else n, if j < n then j + 1 else n;
    assert AtMost(v[0], v[i]) && AtMost(v[i], v[i']) && AtMost(v[j], v[j']) && AtMost(v[j'], v[n]);
    if i == j {
      LerpGrows(v[i], v[i'], x - i as real, y - i as real);
    } else {
      assert AtMost(v[i'], v[j]);
      LerpGrows(v[i], v[i'], x - i as real, 1.0);
      LerpGrows(v[j], v[j'], 0.0, y - j as real);
    }
  }

  /** With q at k and a fraction of the way through the values, the quantile is at that point between two of them. */
  lemma SampleQuantileIsBetween(q: real, v: seq<real>, k: nat, f: real)
    requires k + 1 < |v| && 0.0 <= q <= 1.0 && 0.0 <= f <= 1.0 && q * (|v| - 1) as real == k as real + f
    ensures SampleQuantile(q, v) == v[k] + f * (v[k + 1] - v[k])
  {
    if f < 1.0 {
      assert (k as real + f).Floor == k;
    } else {
      ValueAtSample(v, k + 1);
      assert SampleRank(q, |v|) == (k + 1) as real;
    }
  }

  lemma ValueAtSample(v: seq<real>, k: nat)
    requires k < |v|
    ensures ValueAt(v, k as real) == v[k]
  {
    assert (k as real).Floor == k;
  }

  /** The least and the greatest value are the quantiles for 0 and 1. */
  lemma SampleQuantileEnds(v: seq<real>)
    requires v != []
    ensures SampleQuantile(0.0, v) == v[0] && SampleQuantile(1.0, v) == v[|v| - 1]
  {
    ValueAtSample(v, 0);
    ValueAtSample(v, |v| - 1);
  }

  /** The quantile of samples is monotone in q, between the least and the greatest value. */
  lemma SampleQuantileIsMonotone(p: real, q: real, v: seq<real>)
    requires v != [] && Sorted(v, AtMost) && 0.0 <= p <= q <= 1.0
    ensures v[0] <= SampleQuantile(p, v) <= SampleQuantile(q, v) <= v[|v| - 1]
  {
    hide ValueAt, Sorted, SampleRank;
    SampleRankGrows(p, q, |v|);
    ValueGrowsWithRank(v, SampleRank(p, |v|), SampleRank(q, |v|));
  }
}
