/**
 topk and bottomk (pkg/promql/engine.go:2450-2468, 2519-2553, 2578-2603), without NaN.
 A heap keeps the best k samples so far with the worst of them on top.
 */
module TopK {
  import BinaryHeap
  import opened Grouping
  import opened Sorting

  datatype Sample = Sample(metric: string, v: real)

  /** What makes a sample good: a high value for topk, a low one for bottomk. */
  function Key(x: Sample, bottom: bool): real {
    if bottom then -x.v else x.v
  }

  /** No sample of the first kind is worse than one of the second. */
  ghost predicate Beats(a: seq<Sample>, b: seq<Sample>, bottom: bool) {
    forall x, y :: x in a && y in b ==> Key(y, bottom) <= Key(x, bottom)
  }

  // ---------- The heap ----------

  function KeyOf(bottom: bool): Sample -> real {
    (x: Sample) => Key(x, bottom)
  }

  /** The order that container/heap keeps with the Less of the two heap types (functions.go:1162-1218). */
  ghost predicate IsHeap(h: seq<Sample>, bottom: bool) {
    BinaryHeap.Ordered(h, KeyOf(bottom))
  }

  lemma TopIsWorst(h: seq<Sample>, bottom: bool, x: Sample)
    requires IsHeap(h, bottom) && x in h
    ensures Key(h[0], bottom) <= Key(x, bottom)
  {
    var i :| 0 <= i < |h| && h[i] == x;
    BinaryHeap.TopIsLeast(h, KeyOf(bottom), i);
  }

  function Better(bottom: bool): (Sample, Sample) -> bool {
    (x: Sample, y: Sample) => Key(y, bottom) <= Key(x, bottom)
  }

  // ---------- The best k of a group ----------

  /** The heap holds k samples, or all if there are fewer, and none that was left out beats one of them. */
  ghost predicate Best(h: seq<Sample>, out: seq<Sample>, values: seq<Sample>, k: nat, bottom: bool) {
    && multiset(values) == multiset(h) + multiset(out)
    && |h| == (if k <= |values| then k else |values|)
    && Beats(h, out, bottom)
  }

  lemma InOneMore(h: seq<Sample>, r: seq<Sample>, x: Sample, y: Sample)
    requires multiset(r) == multiset(h) + multiset{x} && y in r
    ensures y in h || y == x
  {
    assert y in multiset(r);
  }

  lemma InFewer(h: seq<Sample>, r: seq<Sample>, x: Sample, y: Sample)
    requires multiset(h) == multiset(r) + multiset{x} && y in r
    ensures y in h
  {
    assert y in multiset(r) && y in multiset(h);
  }

  lemma Added(h: seq<Sample>, r: seq<Sample>, out: seq<Sample>, values: seq<Sample>, x: Sample, k: nat, bottom: bool)
    requires Best(h, out, values, k, bottom) && |h| < k
    requires multiset(r) == multiset(h) + multiset{x} && |r| == |h| + 1
    ensures Best(r, out, values + [x], k, bottom)
  {
    assert |multiset(values)| == |multiset(h)| + |multiset(out)|;
    assert out == [];
  }

  lemma Skipped(h: seq<Sample>, out: seq<Sample>, values: seq<Sample>, x: Sample, k: nat, bottom: bool)
    requires Best(h, out, values, k, bottom) && |h| == k > 0 && IsHeap(h, bottom) && Key(x, bottom) <= Key(h[0], bottom)
    ensures Best(h, out + [x], values + [x], k, bottom)
  {
    assert multiset(values + [x]) == multiset(h) + multiset(out + [x]);
    assert |multiset(values)| == |multiset(h)| + |multiset(out)|;
    forall y | y in h
      ensures Key(x, bottom) <= Key(y, bottom)
    {
      TopIsWorst(h, bottom, y);
    }
  }

  lemma Replaced(h: seq<Sample>, mid: seq<Sample>, r: seq<Sample>, out: seq<Sample>, values: seq<Sample>, x: Sample,
                 k: nat, bottom: bool)
    requires Best(h, out, values, k, bottom) && |h| == k > 0 && IsHeap(h, bottom) && Key(h[0], bottom) < Key(x, bottom)
    requires multiset(h) == multiset(mid) + multiset{h[0]} && multiset(r) == multiset(mid) + multiset{x} && |r| == k
    ensures Best(r, out + [h[0]], values + [x], k, bottom)
  {
    var top := h[0];
    assert multiset(values + [x]) == multiset(r) + multiset(out + [top]) by {
      assert multiset(values + [x]) == multiset(values) + multiset{x};
      assert multiset(out + [top]) == multiset(out) + multiset{top};
    }
    assert |multiset(values)| == |multiset(h)| + |multiset(out)|;
    forall y, z | y in r && z in out + [top]
      ensures Key(z, bottom) <= Key(y, bottom)
    {
      InOneMore(mid, r, x, y);
      if y in mid {
        InFewer(h, mid, top, y);
        TopIsWorst(h, bottom, y);
      }
      assert top in h;
    }
  }

  /** One more sample of the group (engine.go:2519-2553). */
  function Consider(h: seq<Sample>, x: Sample, k: nat, bottom: bool): seq<Sample> {
    if |h| < k || (h != [] && Key(h[0], bottom) < Key(x, bottom)) then
      if |h| < k then BinaryHeap.Push(h, x, KeyOf(bottom))
      else if k == 1 then [x]
      else BinaryHeap.Push(BinaryHeap.Pop(h, KeyOf(bottom)), x, KeyOf(bottom))
    else h
  }

  /** The heap of a group: its best k samples, or all if there are fewer. */
  ghost predicate HoldsBest(h: seq<Sample>, values: seq<Sample>, k: nat, bottom: bool) {
    h != [] && IsHeap(h, bottom) && exists out :: Best(h, out, values, k, bottom)
  }

  lemma FirstIsBest(x: Sample, k: nat, bottom: bool)
    requires k > 0
    ensures HoldsBest([x], [x], k, bottom)
  {
    assert Best([x], [], [x], k, bottom);
  }

  lemma Witness(r: seq<Sample>, out: seq<Sample>, values: seq<Sample>, k: nat, bottom: bool)
    requires r != [] && IsHeap(r, bottom) && Best(r, out, values, k, bottom)
    ensures HoldsBest(r, values, k, bottom)
  {
  }

  lemma ReplaceOnlyOne(h: seq<Sample>, x: Sample, out: seq<Sample>, values: seq<Sample>, bottom: bool)
    requires |h| == 1 && Best(h, out, values, 1, bottom) && Key(h[0], bottom) < Key(x, bottom)
    ensures HoldsBest([x], values + [x], 1, bottom)
  {
    assert h == [h[0]];
    assert multiset(h) == multiset{h[0]};
    Replaced(h, [], [x], out, values, x, 1, bottom);
    Witness([x], out + [h[0]], values + [x], 1, bottom);
  }

  lemma ConsiderKeepsBest(h: seq<Sample>, x: Sample, k: nat, bottom: bool, values: seq<Sample>)
    requires k > 0 && HoldsBest(h, values, k, bottom)
    ensures HoldsBest(Consider(h, x, k, bottom), values + [x], k, bottom)
  {
    hide Best, Key, BinaryHeap.Ordered, BinaryHeap.Push, BinaryHeap.Pop;
    var key := KeyOf(bottom);
    var out :| Best(h, out, values, k, bottom);
    SizeOfBest(h, out, values, k, bottom);
    if |h| < k {
      var r := BinaryHeap.Push(h, x, key);
      BinaryHeap.PushKeepsOrder(h, x, key);
      Added(h, r, out, values, x, k, bottom);
      Witness(r, out, values + [x], k, bottom);
    } else if Key(h[0], bottom) < Key(x, bottom) {
      if k == 1 {
        ReplaceOnlyOne(h, x, out, values, bottom);
      } else {
        var mid := BinaryHeap.Pop(h, key);
        var r := BinaryHeap.Push(mid, x, key);
        BinaryHeap.PopKeepsOrder(h, key);
        BinaryHeap.PushKeepsOrder(mid, x, key);
        Replaced(h, mid, r, out, values, x, k, bottom);
        Witness(r, out + [h[0]], values + [x], k, bottom);
      }
    } else {
      Skipped(h, out, values, x, k, bottom);
      Witness(h, out + [x], values + [x], k, bottom);
    }
  }

  lemma SizeOfBest(h: seq<Sample>, out: seq<Sample>, values: seq<Sample>, k: nat, bottom: bool)
    requires Best(h, out, values, k, bottom)
    ensures |h| <= k
  {
  }

  /** `out` is the start of a best-first order of all values. */
  ghost predicate LeadsOrder(out: seq<Sample>, rest: seq<Sample>, values: seq<Sample>, bottom: bool) {
    Sorted(out + rest, Better(bottom)) && Permutation(values, out + rest)
  }

  lemma BestLeads(h: seq<Sample>, sorted: seq<Sample>, out: seq<Sample>, rest: seq<Sample>, values: seq<Sample>,
                  k: nat, bottom: bool)
    requires Best(h, out, values, k, bottom)
    requires Sorted(sorted, Better(bottom)) && Permutation(h, sorted) && Sorted(rest, Better(bottom)) &&
        Permutation(out, rest)
    ensures LeadsOrder(sorted, rest, values, bottom)
  {
    var all := sorted + rest;
    forall i, j | 0 <= i < j < |all|
      ensures Better(bottom)(all[i], all[j])
    {
      if i < |sorted| <= j {
        assert all[i] in multiset(sorted) && all[i] in h;
        assert all[j] in multiset(rest) && all[j] in out;
      }
    }
  }

  /** The best k of the values, or all if there are fewer, best first. */
  ghost predicate IsTop(out: seq<Sample>, values: seq<Sample>, k: nat, bottom: bool) {
    |out| == (if k <= |values| then k else |values|) && exists rest :: LeadsOrder(out, rest, values, bottom)
  }

  /** The heap keeps the worst on top, so it is sorted the other way round (engine.go:2578-2602). */
  method SortHeap(h: seq<Sample>, bottom: bool, ghost values: seq<Sample>, ghost k: nat) returns (r: seq<Sample>)
    requires HoldsBest(h, values, k, bottom)
    ensures IsTop(r, values, k, bottom)
  {
    r := Sort(h, Better(bottom));
    assert |r| == |multiset(r)| == |h|;
    ghost var left :| Best(h, left, values, k, bottom);
    ghost var rest := SortedPermutation(left, Better(bottom));
    BestLeads(h, r, left, rest, values, k, bottom);
  }

  /** By values: topk leaves out nothing greater than what it returns, highest first; bottomk nothing less. */
  ghost predicate TopByValue(out: seq<Sample>, rest: seq<Sample>, values: seq<Sample>, bottom: bool) {
    && multiset(values) == multiset(out) + multiset(rest)
    && (forall i, j :: 0 <= i < j < |out| ==> if bottom then out[i].v <= out[j].v else out[i].v >= out[j].v)
    && (forall x, y :: x in out && y in rest ==> if bottom then x.v <= y.v else x.v >= y.v)
  }

  lemma TopIsByValue(out: seq<Sample>, values: seq<Sample>, k: nat, bottom: bool) returns (rest: seq<Sample>)
    requires IsTop(out, values, k, bottom)
    ensures TopByValue(out, rest, values, bottom)
  {
    rest :| LeadsOrder(out, rest, values, bottom);
    var all := out + rest;
    forall x, y | x in out && y in rest
      ensures if bottom then x.v <= y.v else x.v >= y.v
    {
      var i :| 0 <= i < |out| && out[i] == x;
      var j :| 0 <= j < |rest| && rest[j] == y;
      assert Better(bottom)(all[i], all[|out| + j]);
    }
    forall i, j | 0 <= i < j < |out|
      ensures if bottom then out[i].v <= out[j].v else out[i].v >= out[j].v
    {
      assert Better(bottom)(all[i], all[j]);
    }
  }

  /** topk and bottomk: for each group in order, its best k samples (engine.go:2369-2372, 2402-2602). */
  method TopOrBottomK<K(==, !new)>(v: seq<Keyed<K, Sample>>, k: int, bottom: bool) returns (out: seq<seq<Sample>>)
    ensures k < 1 ==> out == []
    ensures k >= 1 ==> |out| == |Keys(v, |v|)| && forall i :: 0 <= i < |out| ==>
      IsTop(out[i], Members(v, |v|, Keys(v, |v|)[i]), k, bottom)
  {
    hide IsTop, HoldsBest;
    out := [];
    if k < 1 {
      return;
    }
    ghost var rel := (h, m) => HoldsBest(h, m, k, bottom);
    forall x: Sample
      ensures rel([x], [x])
    {
      FirstIsBest(x, k, bottom);
    }
    forall h, m, x | m != [] && rel(h, m)
      ensures rel(Consider(h, x, k, bottom), m + [x])
    {
      ConsiderKeepsBest(h, x, k, bottom, m);
    }
    var ordered, groups := Aggregate(v, x => [x], (h, x) => Consider(h, x, k, bottom), rel);
    for i := 0 to |ordered|
      invariant |out| == i
      invariant forall j :: 0 <= j < i ==> IsTop(out[j], Members(v, |v|, ordered[j]), k, bottom)
    {
      var r := SortHeap(groups[ordered[i]], bottom, Members(v, |v|, ordered[i]), k);
      out := out + [r];
    }
  }

  /** Which samples tie is not determined, but their values are. */
  lemma KeysAreDetermined(a: seq<Sample>, b: seq<Sample>, bottom: bool, i: nat)
    requires Permutation(a, b) && Sorted(a, Better(bottom)) && Sorted(b, Better(bottom)) && i < |a|
    ensures |a| == |b| && Key(a[i], bottom) == Key(b[i], bottom)
  {
    var key, down := (x: Sample) => Key(x, bottom), (x: real, y: real) => y <= x;
    assert |a| == |multiset(a)| == |multiset(b)| == |b|;
    MapPermutes(a, b, key);
    SortedIsUnique(Map(a, key), Map(b, key), down);
    assert Map(a, key)[i] == Map(b, key)[i];
  }
}
