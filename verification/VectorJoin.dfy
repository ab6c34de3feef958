/**
 Binary operations between two vectors (pkg/promql/engine.go:1992-2180). The engine finds the
 match of a sample in a table of the other side's signatures; the meaning is the nested loop
 over both sides. The signature of a sample, the operation on two values and the labels of a
 result are parameters.
 */
module VectorJoin {

  type Labels = string

  /** A sample with its signature: the labels that have to match. */
  datatype Elem = Elem(metric: Labels, v: real, sig: string)
  datatype Result = Result(metric: Labels, v: real)
  type Vector = seq<Elem>

  predicate HasSig(v: Vector, n: nat, sig: string)
    requires n <= |v|
  {
    n > 0 && (v[n - 1].sig == sig || HasSig(v, n - 1, sig))
  }

  lemma {:induction false} HasSigMeans(v: Vector, n: nat, sig: string)
    requires n <= |v|
    ensures HasSig(v, n, sig) <==> exists i :: 0 <= i < n && v[i].sig == sig
  {
    if n > 0 {
      HasSigMeans(v, n - 1, sig);
    }
  }

  // ---------- Set operations ----------

  /** The first n samples of a whose signature occurs in b (or, with `wanted` false, does not). */
  function Matching(a: Vector, n: nat, b: Vector, wanted: bool): Vector
    requires n <= |a|
  {
    if n == 0 then []
    else if HasSig(b, |b|, a[n - 1].sig) == wanted then Matching(a, n - 1, b, wanted) + [a[n - 1]]
    else Matching(a, n - 1, b, wanted)
  }

  function And(a: Vector, b: Vector): Vector {
    Matching(a, |a|, b, true)
  }

  function Unless(a: Vector, b: Vector): Vector {
    Matching(a, |a|, b, false)
  }

  /** The table of signatures that all set operations build. */
  method Signatures(v: Vector) returns (sigs: set<string>)
    ensures forall s :: s in sigs <==> HasSig(v, |v|, s)
  {
    sigs := {};
    for i := 0 to |v|
      invariant forall s :: s in sigs <==> HasSig(v, i, s)
    {
      sigs := sigs + {v[i].sig};
    }
  }

  method SelectMatching(a: Vector, b: Vector, sigs: set<string>, wanted: bool) returns (out: Vector)
    requires forall s :: s in sigs <==> HasSig(b, |b|, s)
    ensures out == Matching(a, |a|, b, wanted)
  {
    out := [];
    hide HasSig;
    for i := 0 to |a|
      invariant out == Matching(a, i, b, wanted)
    {
      if (a[i].sig in sigs) == wanted {
        out := out + [a[i]];
      }
    }
  }

  lemma {:induction false} NothingMatches(a: Vector, n: nat)
    requires n <= |a|
    ensures Matching(a, n, [], true) == [] && Matching(a, n, [], false) == a[..n]
  {
    if n > 0 {
      NothingMatches(a, n - 1);
      assert a[..n] == a[..n - 1] + [a[n - 1]];
    }
  }

  /** VectorAnd (engine.go:1992-2014). */
  method VectorAnd(lhs: Vector, rhs: Vector) returns (out: Vector)
    ensures out == And(lhs, rhs)
  {
    if |lhs| == 0 || |rhs| == 0 {
      NothingMatches(lhs, |lhs|);
      return [];
    }
    var rightSigs := Signatures(rhs);
    out := SelectMatching(lhs, rhs, rightSigs, true);
  }

  /** VectorOr (engine.go:2016-2041): all of the left side, then what it does not match of the right. */
  method VectorOr(lhs: Vector, rhs: Vector) returns (out: Vector)
    ensures out == lhs + Unless(rhs, lhs)
  {
    if |lhs| == 0 {
      NothingMatches(rhs, |rhs|);
      assert rhs[..|rhs|] == rhs;
      return rhs;
    } else if |rhs| == 0 {
      return lhs;
    }
    var leftSigs := Signatures(lhs);
    out := SelectMatching(rhs, lhs, leftSigs, false);
    out := lhs + out;
  }

  /** VectorUnless (engine.go:2043-2065). */
  method VectorUnless(lhs: Vector, rhs: Vector) returns (out: Vector)
    ensures out == Unless(lhs, rhs)
  {
    if |lhs| == 0 || |rhs| == 0 {
      NothingMatches(lhs, |lhs|);
      assert lhs[..|lhs|] == lhs;
      return lhs;
    }
    var rightSigs := Signatures(rhs);
    out := SelectMatching(lhs, rhs, rightSigs, false);
  }

  lemma AddOne<T>(yes: seq<T>, no: seq<T>, all: seq<T>, x: T)
    requires multiset(yes) + multiset(no) == multiset(all)
    ensures multiset(yes + [x]) + multiset(no) == multiset(all + [x])
    ensures multiset(yes) + multiset(no + [x]) == multiset(all + [x])
  {
    assert multiset(yes + [x]) == multiset(yes) + multiset{x};
    assert multiset(no + [x]) == multiset(no) + multiset{x};
    assert multiset(all + [x]) == multiset(all) + multiset{x};
  }

  /** `and` and `unless` split the left side: each sample goes to exactly one of them. */
  lemma {:induction false} AndUnlessPartition(a: Vector, n: nat, b: Vector)
    requires n <= |a|
    ensures multiset(Matching(a, n, b, true)) + multiset(Matching(a, n, b, false)) == multiset(a[..n])
  {
    hide HasSig;
    if n > 0 {
      AndUnlessPartition(a, n - 1, b);
      assert a[..n] == a[..n - 1] + [a[n - 1]];
      AddOne(Matching(a, n - 1, b, true), Matching(a, n - 1, b, false), a[..n - 1], a[n - 1]);
    }
  }

  lemma {:induction false} MatchingMatches(a: Vector, n: nat, b: Vector, wanted: bool)
    requires n <= |a|
    ensures forall x :: x in Matching(a, n, b, wanted) ==> HasSig(b, |b|, x.sig) == wanted
  {
    hide HasSig;
    if n > 0 {
      MatchingMatches(a, n - 1, b, wanted);
    }
  }

  /** The samples at the given places, in order; those are the places with the wanted match. */
  ghost predicate Picks(a: Vector, n: nat, b: Vector, wanted: bool, at: seq<nat>, out: Vector)
    requires n <= |a|
  {
    && |at| == |out| && (forall i, j :: 0 <= i < j < |at| ==> at[i] < at[j])
    && (forall k :: 0 <= k < |at| ==> at[k] < n && out[k] == a[at[k]])
    && (forall i :: 0 <= i < n ==> (i in at <==> HasSig(b, |b|, a[i].sig) == wanted))
  }

  lemma OneMorePick(a: Vector, n: nat, b: Vector, wanted: bool, at: seq<nat>, out: Vector)
    requires n < |a| && Picks(a, n, b, wanted, at, out)
    ensures if HasSig(b, |b|, a[n].sig) == wanted then Picks(a, n + 1, b, wanted, at + [n], out + [a[n]])
            else Picks(a, n + 1, b, wanted, at, out)
  {
    hide HasSig;
    assert forall i :: i in at + [n] <==> i in at || i == n;
  }

  lemma {:induction false} MatchingPicks(a: Vector, n: nat, b: Vector, wanted: bool) returns (at: seq<nat>)
    requires n <= |a|
    ensures Picks(a, n, b, wanted, at, Matching(a, n, b, wanted))
  {
    hide HasSig;
    at := [];
    if n > 0 {
      at := MatchingPicks(a, n - 1, b, wanted);
      OneMorePick(a, n - 1, b, wanted, at, Matching(a, n - 1, b, wanted));
      if HasSig(b, |b|, a[n - 1].sig) == wanted {
        at := at + [n - 1];
      }
    }
  }

  // ---------- Joining two vectors ----------

  datatype Card = OneToOne | ManyToOne | OneToMany
  datatype Kept = Kept(value: real, keep: bool)

  /** An operator with its matching; `labels` are those of a result, `drop` takes the metric name off. */
  datatype Operation = Operation(card: Card, returnBool: bool, elem: (real, real) -> Kept,
                                 labels: (Labels, Labels) -> Labels, drop: Labels -> Labels)
  {
    /** The result for a sample x of the many side and its match y, if it is kept. */
    function Pair(x: Elem, y: Elem): seq<Result> {
      var kept := if card == OneToMany then elem(y.v, x.v) else elem(x.v, y.v);
      if returnBool then [Result(drop(labels(x.metric, y.metric)), if kept.keep then 1.0 else 0.0)]
      else if kept.keep then [Result(labels(x.metric, y.metric), kept.value)]
      else []
    }

    /** The inner loop: the results of x with each of the first k samples it matches. */
    function Row(x: Elem, one: Vector, k: nat): seq<Result>
      requires k <= |one|
    {
      if k == 0 then []
      else if one[k - 1].sig == x.sig then Row(x, one, k - 1) + Pair(x, one[k - 1])
      else Row(x, one, k - 1)
    }

    function Of(x: Elem, one: Vector): seq<Result> {
      Row(x, one, |one|)
    }

    /** The nested loop, in the order of the many side. */
    function Join(many: Vector, n: nat, one: Vector): seq<Result>
      requires n <= |many|
    {
      if n == 0 then [] else Join(many, n - 1, one) + Of(many[n - 1], one)
    }

    /** Two kept matches that must not both be there. */
    predicate Clash(x: Elem, y: Elem, one: Vector) {
      var a, b := Of(x, one), Of(y, one);
      x.sig == y.sig && a != [] && b != [] && (card == OneToOne || a[0].metric == b[0].metric)
    }

    ghost predicate Clashes(many: Vector, n: nat, one: Vector)
      requires n <= |many|
    {
      exists i, j :: 0 <= i < j < n && Clash(many[i], many[j], one)
    }
  }

  ghost predicate Repeats(v: Vector, n: nat)
    requires n <= |v|
  {
    exists i, j :: 0 <= i < j < n && v[i].sig == v[j].sig
  }

  type Table = map<string, Elem>

  ghost predicate IsTable(t: Table, one: Vector, n: nat)
    requires n <= |one|
  {
    && (forall i :: 0 <= i < n ==> one[i].sig in t && t[one[i].sig] == one[i])
    && (forall s :: s in t ==> HasSig(one, n, s))
  }

  /** The table of the one side, unless a signature repeats (engine.go:2094-2111). */
  method BuildTable(one: Vector) returns (t: Table, duplicate: bool)
    ensures duplicate <==> Repeats(one, |one|)
    ensures !duplicate ==> IsTable(t, one, |one|)
  {
    t, duplicate := map[], false;
    for i := 0 to |one|
      invariant !Repeats(one, i) && IsTable(t, one, i)
    {
      if one[i].sig in t {
        HasSigMeans(one, i, one[i].sig);
        return t, true;
      }
      t := t[one[i].sig := one[i]];
    }
  }

  /** If no signature repeats, the table finds what the inner loop finds. */
  lemma {:induction false} TableFinds(op: Operation, t: Table, one: Vector, x: Elem, k: nat)
    requires k <= |one| && IsTable(t, one, |one|) && !Repeats(one, |one|)
    ensures HasSig(one, k, x.sig) ==> x.sig in t && op.Row(x, one, k) == op.Pair(x, t[x.sig])
    ensures !HasSig(one, k, x.sig) ==> op.Row(x, one, k) == []
  {
    hide Operation.Pair;
    if k > 0 {
      TableFinds(op, t, one, x, k - 1);
      HasSigMeans(one, k - 1, x.sig);
    }
  }

  /** What a sample yields is found in the table: nothing, or one result with the one match. */
  lemma LookUp(op: Operation, t: Table, one: Vector, x: Elem)
    requires IsTable(t, one, |one|) && !Repeats(one, |one|)
    ensures op.Of(x, one) == if x.sig in t then op.Pair(x, t[x.sig]) else []
  {
    hide Operation.Pair, Operation.Row;
    TableFinds(op, t, one, x, |one|);
  }

  // ---------- What is joined, in terms of the two sides ----------

  /** z is the result of a left and a right sample with the same signature. */
  ghost predicate Produces(op: Operation, l: Elem, r: Elem, z: Result) {
    var kept := op.elem(l.v, r.v);
    var both := if op.card == OneToMany then op.labels(r.metric, l.metric) else op.labels(l.metric, r.metric);
    l.sig == r.sig &&
    if op.returnBool then z == Result(op.drop(both), if kept.keep then 1.0 else 0.0)
    else kept.keep && z == Result(both, kept.value)
  }

  /** The same with x of the many side and y of the one side. */
  ghost predicate Yields(op: Operation, x: Elem, y: Elem, z: Result) {
    if op.card == OneToMany then Produces(op, y, x, z) else Produces(op, x, y, z)
  }

  /** z is the result of x and some sample of the one side. */
  ghost predicate Gives(op: Operation, x: Elem, one: Vector, z: Result) {
    exists j :: 0 <= j < |one| && Yields(op, x, one[j], z)
  }

  lemma PairYields(op: Operation, x: Elem, y: Elem, z: Result)
    ensures Yields(op, x, y, z) <==> x.sig == y.sig && z in op.Pair(x, y)
    ensures |op.Pair(x, y)| <= 1
  {
  }

  lemma {:induction false} RowGives(op: Operation, x: Elem, one: Vector, k: nat, z: Result)
    requires k <= |one|
    ensures z in op.Row(x, one, k) <==> exists j :: 0 <= j < k && Yields(op, x, one[j], z)
  {
    hide Operation.Pair, Yields;
    if k > 0 {
      RowGives(op, x, one, k - 1, z);
      PairYields(op, x, one[k - 1], z);
    }
  }

  /** Where no signature repeats, a sample of the many side has at most one result. */
  lemma {:induction false} AtMostOne(op: Operation, x: Elem, one: Vector, k: nat)
    requires k <= |one| && !Repeats(one, |one|)
    ensures |op.Row(x, one, k)| <= 1 && (op.Row(x, one, k) != [] ==> HasSig(one, k, x.sig))
  {
    hide Operation.Pair;
    if k > 0 {
      AtMostOne(op, x, one, k - 1);
      HasSigMeans(one, k - 1, x.sig);
      PairYields(op, x, one[k - 1], Result("", 0.0));
    }
  }

  lemma OfGives(op: Operation, x: Elem, one: Vector)
    ensures forall z :: z in op.Of(x, one) <==> Gives(op, x, one, z)
    ensures !Repeats(one, |one|) ==> |op.Of(x, one)| <= 1
  {
    hide Operation.Row, Yields, Repeats;
    forall z
      ensures z in op.Of(x, one) <==> Gives(op, x, one, z)
    {
      RowGives(op, x, one, |one|, z);
    }
    if !Repeats(one, |one|) {
      AtMostOne(op, x, one, |one|);
    }
  }

  /** The results in the order of the many side; `from` says whose they are. */
  ghost predicate JoinsAs(op: Operation, many: Vector, n: nat, one: Vector, from: seq<nat>, out: seq<Result>)
    requires n <= |many|
  {
    && |from| == |out| && (forall i, j :: 0 <= i < j < |from| ==> from[i] < from[j])
    && (forall k :: 0 <= k < |from| ==> from[k] < n && Gives(op, many[from[k]], one, out[k]))
    && (forall i, z :: 0 <= i < n && Gives(op, many[i], one, z) ==> i in from)
  }

  lemma NoneMoreJoined(op: Operation, many: Vector, n: nat, one: Vector, from: seq<nat>, out: seq<Result>)
    requires n < |many| && JoinsAs(op, many, n, one, from, out) && forall z :: !Gives(op, many[n], one, z)
    ensures JoinsAs(op, many, n + 1, one, from, out)
  {
    hide Gives;
  }

  lemma OneMoreJoined(op: Operation, many: Vector, n: nat, one: Vector, from: seq<nat>, out: seq<Result>, z: Result)
    requires n < |many| && JoinsAs(op, many, n, one, from, out) && Gives(op, many[n], one, z)
    ensures JoinsAs(op, many, n + 1, one, from + [n], out + [z])
  {
    hide Gives;
    assert forall k :: k in from + [n] <==> k in from || k == n;
  }

  lemma {:induction false} JoinIsOrdered(op: Operation, many: Vector, n: nat, one: Vector) returns (from: seq<nat>)
    requires n <= |many| && !Repeats(one, |one|)
    ensures JoinsAs(op, many, n, one, from, op.Join(many, n, one))
  {
    hide Gives, Operation.Of, Repeats;
    from := [];
    if n > 0 {
      from := JoinIsOrdered(op, many, n - 1, one);
      var out, more := op.Join(many, n - 1, one), op.Of(many[n - 1], one);
      OfGives(op, many[n - 1], one);
      if more == [] {
        NoneMoreJoined(op, many, n - 1, one, from, out);
        assert out + more == out;
      } else {
        assert more == [more[0]] && more[0] in more;
        OneMoreJoined(op, many, n - 1, one, from, out, more[0]);
        from := from + [n - 1];
      }
    }
  }

  lemma {:induction false} JoinGives(op: Operation, many: Vector, n: nat, one: Vector, z: Result)
    requires n <= |many|
    ensures z in op.Join(many, n, one) <==> exists i :: 0 <= i < n && Gives(op, many[i], one, z)
  {
    hide Gives, Operation.Of;
    if n > 0 {
      JoinGives(op, many, n - 1, one, z);
      OfGives(op, many[n - 1], one);
    }
  }

  /** Two samples of the many side whose results must not both be there. */
  ghost predicate Collide(op: Operation, x: Elem, y: Elem, one: Vector) {
    x.sig == y.sig &&
    exists z, z' :: Gives(op, x, one, z) && Gives(op, y, one, z') && (op.card == OneToOne || z.metric == z'.metric)
  }

  ghost predicate Collides(op: Operation, many: Vector, one: Vector) {
    exists i, j :: 0 <= i < j < |many| && Collide(op, many[i], many[j], one)
  }

  lemma ClashesIffCollides(op: Operation, many: Vector, one: Vector)
    requires !Repeats(one, |one|)
    ensures op.Clashes(many, |many|, one) <==> Collides(op, many, one)
    ensures one == [] ==> !Collides(op, many, one)
  {
    hide Operation.Clash, Repeats, Gives;
    if i, j :| 0 <= i < j < |many| && Collide(op, many[i], many[j], one) {
      ClashIffCollide(op, many[i], many[j], one);
    }
    if i, j :| 0 <= i < j < |many| && op.Clash(many[i], many[j], one) {
      ClashIffCollide(op, many[i], many[j], one);
    }
    NothingToJoin(op);
  }

  lemma NothingToJoin(op: Operation)
    ensures forall x, z :: !Gives(op, x, [], z)
  {
  }

  lemma ClashIffCollide(op: Operation, x: Elem, y: Elem, one: Vector)
    requires !Repeats(one, |one|)
    ensures op.Clash(x, y, one) <==> Collide(op, x, y, one)
  {
    hide Gives, Operation.Of, Repeats;
    OfGives(op, x, one);
    OfGives(op, y, one);
    var a, b := op.Of(x, one), op.Of(y, one);
    if a != [] && b != [] {
      assert a[0] in a && b[0] in b;
    }
  }

  // ---------- The hashed join ----------

  datatype Outcome = Joined(out: seq<Result>) | DuplicateOnOneSide | MultipleMatches | NotUnique

  /** For each signature that was matched, the result labels so far. */
  type Matched = map<string, set<Labels>>

  /** Sample y was matched: its result is in the output. */
  ghost predicate WasMatched(op: Operation, y: Elem, one: Vector, sig: string, metric: Labels) {
    y.sig == sig && op.Of(y, one) != [] && op.Of(y, one)[0].metric == metric
  }

  ghost predicate IsMatched(op: Operation, m: Matched, many: Vector, n: nat, one: Vector)
    requires n <= |many|
  {
    && (forall i :: 0 <= i < n && op.Of(many[i], one) != [] ==>
          many[i].sig in m && (op.card == OneToOne || op.Of(many[i], one)[0].metric in m[many[i].sig]))
    && (forall s :: s in m ==> exists i :: 0 <= i < n && many[i].sig == s && op.Of(many[i], one) != [])
    && (op.card != OneToOne ==> forall s, l :: s in m && l in m[s] ==>
          exists i :: 0 <= i < n && WasMatched(op, many[i], one, s, l))
  }

  /** The check for a repeated match (engine.go:2153-2172). */
  method Record(op: Operation, m0: Matched, many: Vector, n: nat, metric: Labels, ghost one: Vector)
    returns (m: Matched, clash: bool)
    requires n < |many| && IsMatched(op, m0, many, n, one) && WasMatched(op, many[n], one, many[n].sig, metric)
    ensures clash <==> exists i :: 0 <= i < n && op.Clash(many[i], many[n], one)
    ensures !clash ==> IsMatched(op, m, many, n + 1, one)
  {
    hide Operation.Of;
    var sig := many[n].sig;
    m, clash := m0, false;
    if op.card == OneToOne {
      if sig in m0 {
        ghost var i :| 0 <= i < n && many[i].sig == sig && op.Of(many[i], one) != [];
        assert op.Clash(many[i], many[n], one);
        return m0, true;
      }
      m := m0[sig := {}];
    } else {
      if sig in m0 && metric in m0[sig] {
        ghost var i :| 0 <= i < n && WasMatched(op, many[i], one, sig, metric);
        assert op.Clash(many[i], many[n], one);
        return m0, true;
      }
      m := m0[sig := (if sig in m0 then m0[sig] else {}) + {metric}];
    }
  }

  /** What a binary operation means: both sides in a nested loop, or the reason why it fails. */
  ghost function Meaning(op: Operation, lhs: Vector, rhs: Vector): Outcome {
    var many, one := if op.card == OneToMany then rhs else lhs, if op.card == OneToMany then lhs else rhs;
    if many == [] || one == [] then Joined([])
    else if Repeats(one, |one|) then DuplicateOnOneSide
    else if op.Clashes(many, |many|, one) then if op.card == OneToOne then MultipleMatches else NotUnique
    else Joined(op.Join(many, |many|, one))
  }

  lemma ClashAt(op: Operation, many: Vector, n: nat, one: Vector)
    requires n < |many| && !op.Clashes(many, n, one)
    ensures op.Clashes(many, n + 1, one) <==> exists i :: 0 <= i < n && op.Clash(many[i], many[n], one)
    ensures op.Clashes(many, n + 1, one) ==> op.Clashes(many, |many|, one)
  {
    hide Operation.Clash;
  }

  /** The loop over the many side (engine.go:2126-2178). */
  method Probe(op: Operation, many: Vector, t: Table, ghost one: Vector) returns (o: Outcome)
    requires IsTable(t, one, |one|) && !Repeats(one, |one|)
    ensures o == if op.Clashes(many, |many|, one) then if op.card == OneToOne then MultipleMatches else NotUnique
                 else Joined(op.Join(many, |many|, one))
  {
    var out: seq<Result> := [];
    var matched: Matched := map[];
    hide IsTable, Repeats, Operation.Of, Operation.Clash;
    for i := 0 to |many|
      invariant out == op.Join(many, i, one) && IsMatched(op, matched, many, i, one)
      invariant !op.Clashes(many, i, one)
    {
      var ls := many[i];
      LookUp(op, t, one, ls);
      ClashAt(op, many, i, one);
      if ls.sig !in t {
        Unmatched(op, matched, many, i, one);
        continue;
      }
      var rs := t[ls.sig];
      var results := op.Pair(ls, rs);
      if |results| == 0 {
        Unmatched(op, matched, many, i, one);
        continue;
      }
      var clash;
      matched, clash := Record(op, matched, many, i, results[0].metric, one);
      if clash {
        return if op.card == OneToOne then MultipleMatches else NotUnique;
      }
      out := out + results;
    }
    return Joined(out);
  }

  lemma Unmatched(op: Operation, m: Matched, many: Vector, n: nat, one: Vector)
    requires n < |many| && IsMatched(op, m, many, n, one) && op.Of(many[n], one) == []
    ensures IsMatched(op, m, many, n + 1, one)
    ensures forall i :: 0 <= i < n ==> !op.Clash(many[i], many[n], one)
    ensures op.Join(many, n + 1, one) == op.Join(many, n, one)
  {
    hide Operation.Of;
  }

  /** The join of two sides, without the loops: which results there are, and when there are none. */
  ghost predicate IsJoin(op: Operation, lhs: Vector, rhs: Vector, o: Outcome) {
    var many, one := if op.card == OneToMany then rhs else lhs, if op.card == OneToMany then lhs else rhs;
    match o
    case Joined(out) =>
      && (forall z :: z in out <==> exists i, j :: 0 <= i < |lhs| && 0 <= j < |rhs| && Produces(op, lhs[i], rhs[j], z))
      && (out != [] ==> exists from :: JoinsAs(op, many, |many|, one, from, out))
    case DuplicateOnOneSide => many != [] && Repeats(one, |one|)
    case MultipleMatches => op.card == OneToOne && Collides(op, many, one)
    case NotUnique => op.card != OneToOne && Collides(op, many, one)
  }

  /** The condition on the two sides for a result. */
  ghost predicate Joins(op: Operation, lhs: Vector, rhs: Vector) {
    var many, one := if op.card == OneToMany then rhs else lhs, if op.card == OneToMany then lhs else rhs;
    many == [] || (!Repeats(one, |one|) && !Collides(op, many, one))
  }

  lemma InTermsOfSides(op: Operation, lhs: Vector, rhs: Vector, z: Result)
    ensures var many, one := if op.card == OneToMany then rhs else lhs, if op.card == OneToMany then lhs else rhs;
      (exists i :: 0 <= i < |many| && Gives(op, many[i], one, z)) <==>
      exists i, j :: 0 <= i < |lhs| && 0 <= j < |rhs| && Produces(op, lhs[i], rhs[j], z)
  {
    hide Produces;
    var many, one := if op.card == OneToMany then rhs else lhs, if op.card == OneToMany then lhs else rhs;
    if i, j :| 0 <= i < |lhs| && 0 <= j < |rhs| && Produces(op, lhs[i], rhs[j], z) {
      if op.card == OneToMany {
        assert Yields(op, many[j], one[i], z) && Gives(op, many[j], one, z);
      } else {
        assert Yields(op, many[i], one[j], z) && Gives(op, many[i], one, z);
      }
    }
  }

  lemma JoinedIsJoin(op: Operation, lhs: Vector, rhs: Vector)
    requires Meaning(op, lhs, rhs).Joined?
    ensures IsJoin(op, lhs, rhs, Meaning(op, lhs, rhs))
  {
    hide Produces, Gives, Collide, Operation.Clashes, Operation.Join, Repeats;
    var many, one := if op.card == OneToMany then rhs else lhs, if op.card == OneToMany then lhs else rhs;
    forall z
      ensures z in op.Join(many, |many|, one) <==>
        exists i, j :: 0 <= i < |lhs| && 0 <= j < |rhs| && Produces(op, lhs[i], rhs[j], z)
    {
      JoinGives(op, many, |many|, one, z);
      InTermsOfSides(op, lhs, rhs, z);
    }
    if many != [] && one != [] {
      var from := JoinIsOrdered(op, many, |many|, one);
      assert JoinsAs(op, many, |many|, one, from, Meaning(op, lhs, rhs).out);
    }
  }

  lemma MeaningIsJoin(op: Operation, lhs: Vector, rhs: Vector)
    ensures IsJoin(op, lhs, rhs, Meaning(op, lhs, rhs))
    ensures Meaning(op, lhs, rhs).Joined? <==> Joins(op, lhs, rhs)
  {
    hide Produces, Collides, Operation.Clashes, Operation.Join;
    var many, one := if op.card == OneToMany then rhs else lhs, if op.card == OneToMany then lhs else rhs;
    if Meaning(op, lhs, rhs).Joined? {
      JoinedIsJoin(op, lhs, rhs);
    }
    if !Repeats(one, |one|) {
      ClashesIffCollides(op, many, one);
    }
  }

  /** VectorBinop (engine.go:2068-2180). */
  method VectorBinop(op: Operation, lhs: Vector, rhs: Vector) returns (o: Outcome)
    ensures o == Meaning(op, lhs, rhs)
    ensures IsJoin(op, lhs, rhs, o) && (o.Joined? <==> Joins(op, lhs, rhs))
  {
    hide IsJoin, Joins;
    MeaningIsJoin(op, lhs, rhs);
    hide Repeats, IsTable, Operation.Clashes, Operation.Join;
    if |lhs| == 0 || |rhs| == 0 {
      return Joined([]);
    }
    var many, one := lhs, rhs;
    if op.card == OneToMany {
      many, one := rhs, lhs;
    }
    var t, duplicate := BuildTable(one);
    if duplicate {
      return DuplicateOnOneSide;
    }
    o := Probe(op, many, t, one);
  }

  // ---------- One-to-many is many-to-one the other way round ----------

  /** The same operation, grouped to the other side. */
  ghost predicate Mirrors(op: Operation, other: Operation) {
    && op.card == OneToMany && other.card == ManyToOne
    && op.returnBool == other.returnBool && op.labels == other.labels && op.drop == other.drop
    && forall a, b :: other.elem(a, b) == op.elem(b, a)
  }

  lemma {:induction false} SameRow(op: Operation, other: Operation, x: Elem, one: Vector, k: nat)
    requires Mirrors(op, other) && k <= |one|
    ensures op.Row(x, one, k) == other.Row(x, one, k)
  {
    if k > 0 {
      SameRow(op, other, x, one, k - 1);
      assert op.Pair(x, one[k - 1]) == other.Pair(x, one[k - 1]);
    }
  }

  lemma {:induction false} SameJoin(op: Operation, other: Operation, many: Vector, n: nat, one: Vector)
    requires Mirrors(op, other) && n <= |many|
    ensures op.Join(many, n, one) == other.Join(many, n, one)
  {
    if n > 0 {
      SameJoin(op, other, many, n - 1, one);
      SameRow(op, other, many[n - 1], one, |one|);
    }
  }

  lemma OneToManyIsManyToOneSwapped(op: Operation, other: Operation, lhs: Vector, rhs: Vector)
    requires Mirrors(op, other)
    ensures Meaning(op, lhs, rhs) == Meaning(other, rhs, lhs)
  {
    forall x: Elem, y: Elem
      ensures op.Clash(x, y, lhs) == other.Clash(x, y, lhs)
    {
      SameRow(op, other, x, lhs, |lhs|);
      SameRow(op, other, y, lhs, |lhs|);
    }
    SameJoin(op, other, rhs, |rhs|, lhs);
    hide Operation.Row, Operation.Clash, Operation.Join;
  }
}
