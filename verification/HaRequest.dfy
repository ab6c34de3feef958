/**
 A write request as the high-availability filter changes it (pkg/ha/filter.go:135-181).
 Slices are compacted in place. A series keeps its labels in a backing array of its own, and
 a copy of the series shares that array: the model keeps the arrays apart from the headers
 that point to them. What a request holds is the value `Shown`.
 */
module HaRequest {

  datatype Label = Label(name: string, value: string)
  datatype Sample = Sample(value: real, timestamp: int)

  /** A series in the request: which label array it shows, and how much of it. */
  datatype Header = Header(arr: nat, len: nat, samples: seq<Sample>)

  /** What a series holds. */
  datatype Series = Series(labels: seq<Label>, samples: seq<Sample>)

  const REPLICA_LABEL := "__replica__"
  const CLUSTER_LABEL := "cluster"

  // ---------- Filtering samples by time ----------

  /** The samples whose timestamp satisfies `keep`, in order. */
  function Select(s: seq<Sample>, keep: int -> bool): (r: seq<Sample>)
    ensures |r| <= |s|
    ensures forall x :: x in r <==> x in s && keep(x.timestamp)
  {
    if s == [] then []
    else
      var x, rest := s[|s| - 1], Select(s[..|s| - 1], keep);
      if keep(x.timestamp) then rest + [x] else rest
  }

  predicate Increasing(at: seq<nat>) {
    forall i, j :: 0 <= i < j < |at| ==> at[i] < at[j]
  }

  /** The elements at the given places, which are those where `keep` holds. */
  ghost predicate Picks(s: seq<Sample>, at: seq<nat>, r: seq<Sample>, keep: int -> bool) {
    && Increasing(at) && |at| == |r|
    && (forall j :: 0 <= j < |at| ==> at[j] < |s| && r[j] == s[at[j]])
    && (forall i :: 0 <= i < |s| ==> (i in at <==> keep(s[i].timestamp)))
  }

  lemma OneMorePlace(at: seq<nat>, n: nat)
    requires Increasing(at) && forall j :: 0 <= j < |at| ==> at[j] < n
    ensures Increasing(at + [n]) && n !in at && forall i :: i in at + [n] <==> i in at || i == n
  {
  }

  lemma OneMorePick(s: seq<Sample>, at: seq<nat>, r: seq<Sample>, keep: int -> bool)
    requires s != [] && Picks(s[..|s| - 1], at, r, keep)
    ensures var n := |s| - 1;
      if keep(s[n].timestamp) then Picks(s, at + [n], r + [s[n]], keep) else Picks(s, at, r, keep)
  {
    hide Increasing;
    var n := |s| - 1;
    assert forall i :: 0 <= i < n ==> s[..n][i] == s[i];
    OneMorePlace(at, n);
  }

  /** Selecting keeps order and repetitions. */
  lemma {:induction false} SelectPicks(s: seq<Sample>, keep: int -> bool) returns (at: seq<nat>)
    ensures Picks(s, at, Select(s, keep), keep)
  {
    if s == [] {
      at := [];
    } else {
      var n := |s| - 1;
      at := SelectPicks(s[..n], keep);
      OneMorePick(s, at, Select(s[..n], keep), keep);
      hide Picks;
      if keep(s[n].timestamp) {
        at := at + [n];
      }
    }
  }

  function Outside(lo: int, hi: int): int -> bool {
    t => !(lo <= t < hi)
  }

  lemma {:induction false} SelectAgain(s: seq<Sample>, p: int -> bool, q: int -> bool, both: int -> bool)
    requires forall x :: x in s ==> (both(x.timestamp) <==> p(x.timestamp) && q(x.timestamp))
    ensures Select(Select(s, p), q) == Select(s, both)
  {
    if s != [] {
      var rest, x := s[..|s| - 1], s[|s| - 1];
      SelectAgain(rest, p, q, both);
      assert x in s;
      if p(x.timestamp) {
        assert (Select(rest, p) + [x])[..|Select(rest, p)|] == Select(rest, p);
      }
    }
  }

  lemma {:induction false} SelectAll(s: seq<Sample>, p: int -> bool)
    requires forall x :: x in s ==> p(x.timestamp)
    ensures Select(s, p) == s
  {
    if s != [] {
      var init, x := s[..|s| - 1], s[|s| - 1];
      assert x in s && forall y :: y in init ==> y in s;
      SelectAll(init, p);
      assert s == init + [x];
    }
  }

  /** The inner loops of filterOutSampleRange (filter.go:138-150). */
  method FilterSamples(s: seq<Sample>, lo: int, hi: int) returns (r: seq<Sample>)
    ensures r == Select(s, Outside(lo, hi))
  {
    hide Select;
    var a := s;
    var numAccepted := 0;
    SelectNone(Outside(lo, hi));
    for j := 0 to |s|
      invariant numAccepted <= j && |a| == |s|
      invariant a[..numAccepted] == Select(s[..j], Outside(lo, hi))
      invariant forall k :: j <= k < |s| ==> a[k] == s[k]
    {
      SelectOneMore(s, j, Outside(lo, hi));
      var sample := a[j];
      if lo <= sample.timestamp < hi {
        continue;
      }
      a := a[numAccepted := sample];
      assert a[..numAccepted + 1] == a[..numAccepted] + [sample];
      numAccepted := numAccepted + 1;
    }
    assert s[..|s|] == s;
    for j := numAccepted to |s|
      invariant |a| == |s| && a[..numAccepted] == Select(s, Outside(lo, hi))
    {
      a := a[j := Sample(0.0, 0)];
    }
    return a[..numAccepted];
  }

  lemma SelectNone(keep: int -> bool)
    ensures Select([], keep) == []
  {
  }

  lemma SelectOneMore(s: seq<Sample>, j: nat, keep: int -> bool)
    requires j < |s|
    ensures Select(s[..j + 1], keep) ==
            if keep(s[j].timestamp) then Select(s[..j], keep) + [s[j]] else Select(s[..j], keep)
  {
    assert s[..j + 1][..j] == s[..j];
  }

  // ---------- The first replica label ----------

  predicate IsReplica(x: Label) {
    x.name == "__replica__"
  }

  ghost predicate HasReplica(l: seq<Label>) {
    exists i :: 0 <= i < |l| && IsReplica(l[i])
  }

  /** The index of the first replica label, or the length if there is none. */
  function ReplicaIndex(l: seq<Label>): (i: nat)
    ensures i <= |l|
    ensures i < |l| ==> IsReplica(l[i])
    ensures forall j :: 0 <= j < i ==> !IsReplica(l[j])
  {
    if l == [] || IsReplica(l[0]) then 0 else 1 + ReplicaIndex(l[1..])
  }

  /** The labels without the first replica label. */
  function WithoutReplica(l: seq<Label>): seq<Label> {
    var i := ReplicaIndex(l);
    if i < |l| then l[..i] + l[i + 1..] else l
  }

  /** What a header of the original length shows after the labels behind the replica label moved up. */
  function ShiftedReplica(l: seq<Label>): seq<Label> {
    var i := ReplicaIndex(l);
    if i < |l| then l[..i] + l[i + 1..] + [l[|l| - 1]] else l
  }

  /** Moves the elements behind `ind` up by one; the last one stays where it is, too. */
  method MoveUp(l: seq<Label>, ind: nat, len: nat) returns (r: seq<Label>)
    requires ind < len <= |l|
    ensures |r| == |l|
    ensures r[..len - 1] == l[..ind] + l[ind + 1..len]
    ensures r[len - 1..] == l[len - 1..]
  {
    r := l;
    for j := ind to len - 1
      invariant |r| == |l|
      invariant r[..j] == l[..ind] + l[ind + 1..j + 1]
      invariant r[j..] == l[j..]
    {
      var next := r[j + 1];
      assert next == r[j..][1] == l[j + 1];
      r := r[j := next];
      assert r[..j + 1] == r[..j] + [next];
      assert l[ind + 1..j + 2] == l[ind + 1..j + 1] + [next];
    }
  }

  /** The search for the label to drop. */
  method FindReplica(l: seq<Label>) returns (ind: nat)
    ensures ind == ReplicaIndex(l)
  {
    ind := 0;
    while ind < |l| && l[ind].name != REPLICA_LABEL
      invariant ind <= |l|
      invariant forall j :: 0 <= j < ind ==> !IsReplica(l[j])
    {
      ind := ind + 1;
    }
  }

  /** The loop over the labels of one series (filter.go:170-175); `len` of the array is shown. */
  method DropReplica(l: seq<Label>, len: nat) returns (r: seq<Label>, n: nat)
    requires len <= |l|
    ensures |r| == |l| && n <= len
    ensures r[..n] == WithoutReplica(l[..len]) && ReplicaDropped(l[..len], r[..n])
    ensures r[..len] == ShiftedReplica(l[..len]) && ReplicaShifted(l[..len], r[..len])
  {
    hide ReplicaDropped, ReplicaShifted, ReplicaIndex, WithoutReplica, ShiftedReplica;
    WithoutReplicaDrops(l[..len]);
    NoReplicaToDrop(l[..len]);
    var ind := FindReplica(l[..len]);
    if ind == len {
      return l, len;
    }
    r := MoveUp(l, ind, len);
    n := len - 1;
    MovedUp(l, r, len);
  }

  lemma NoReplicaToDrop(l: seq<Label>)
    ensures ReplicaIndex(l) == |l| ==> WithoutReplica(l) == l && ShiftedReplica(l) == l
  {
  }

  lemma MovedUp(l: seq<Label>, r: seq<Label>, len: nat)
    requires len <= |l| == |r| && ReplicaIndex(l[..len]) < len
    requires var ind := ReplicaIndex(l[..len]); r[..len - 1] == l[..ind] + l[ind + 1..len]
    requires r[len - 1..] == l[len - 1..]
    ensures r[..len - 1] == WithoutReplica(l[..len]) && r[..len] == ShiftedReplica(l[..len])
  {
    hide ReplicaIndex;
    var shown, ind := l[..len], ReplicaIndex(l[..len]);
    assert shown[ind + 1..] == l[ind + 1..len] && shown[..ind] == l[..ind];
    assert r[len - 1] == r[len - 1..][0] == l[len - 1..][0] == shown[len - 1];
    assert r[..len] == r[..len - 1] + [r[len - 1]];
  }

  /** Keeping the old length shows the right labels exactly if there is no replica label to drop. */
  lemma ShiftedIsRightIff(l: seq<Label>)
    ensures ShiftedReplica(l) == WithoutReplica(l) <==> ReplicaIndex(l) == |l|
  {
    if ReplicaIndex(l) < |l| {
      assert |ShiftedReplica(l)| != |WithoutReplica(l)|;
    }
  }

  // ---------- What happens to the labels ----------

  /** One replica label is missing, the first one; the other labels are as before. */
  ghost predicate FirstDropped(l: seq<Label>, a: seq<Label>, x: Label, b: seq<Label>) {
    l == a + [x] + b && IsReplica(x) && !HasReplica(a)
  }

  /** `r` is `l` without its first replica label, if it has one. */
  ghost predicate ReplicaDropped(l: seq<Label>, r: seq<Label>) {
    if HasReplica(l) then
      exists a, x, b :: FirstDropped(l, a, x, b) && r == a + b
    else
      r == l
  }

  /** `r` is that, and the last label again to make up the length. */
  ghost predicate ReplicaShifted(l: seq<Label>, r: seq<Label>) {
    if HasReplica(l) then
      exists a, x, b :: FirstDropped(l, a, x, b) && r == a + b + [l[|l| - 1]]
    else
      r == l
  }

  lemma CutAtReplica(l: seq<Label>, i: nat)
    requires i < |l| && IsReplica(l[i]) && forall j :: 0 <= j < i ==> !IsReplica(l[j])
    ensures FirstDropped(l, l[..i], l[i], l[i + 1..])
  {
  }

  lemma WithoutReplicaDrops(l: seq<Label>)
    ensures ReplicaDropped(l, WithoutReplica(l)) && ReplicaShifted(l, ShiftedReplica(l))
  {
    hide ReplicaIndex, FirstDropped, IsReplica;
    var i := ReplicaIndex(l);
    if i < |l| {
      CutAtReplica(l, i);
    }
  }

  /** The labels with other names, in order. */
  function Others(l: seq<Label>): seq<Label> {
    if l == [] then []
    else if IsReplica(l[|l| - 1]) then Others(l[..|l| - 1])
    else Others(l[..|l| - 1]) + [l[|l| - 1]]
  }

  lemma {:induction false} OthersJoin(a: seq<Label>, b: seq<Label>)
    ensures Others(a + b) == Others(a) + Others(b)
    decreases b
  {
    if b == [] {
      assert a + b == a;
    } else {
      assert (a + b)[..|a + b| - 1] == a + b[..|b| - 1];
      OthersJoin(a, b[..|b| - 1]);
    }
  }

  lemma DroppingOne(a: seq<Label>, x: Label, b: seq<Label>)
    requires IsReplica(x)
    ensures Others(a + [x] + b) == Others(a + b) && multiset(a + [x] + b) == multiset(a + b) + multiset{x}
  {
    OthersJoin(a + [x], b);
    OthersJoin(a, [x]);
    OthersJoin(a, b);
    assert Others([x]) == [];
  }

  /** Dropping takes one replica label away and leaves the other labels alone. */
  lemma DroppingKeepsOthers(l: seq<Label>, r: seq<Label>)
    requires ReplicaDropped(l, r)
    ensures Others(r) == Others(l)
    ensures HasReplica(l) ==> exists x :: IsReplica(x) && multiset(l) == multiset(r) + multiset{x}
  {
    if HasReplica(l) {
      var a, x, b :| FirstDropped(l, a, x, b) && r == a + b;
      DroppingOne(a, x, b);
    }
  }

  // ---------- The final pass over a request ----------

  /** The series from index i on, when k series have been accepted before them (filter.go:158-181). */
  function Final(v: seq<Series>, i: nat, k: nat): seq<Series>
    requires i <= |v|
    decreases |v| - i
  {
    if i == |v| then []
    else if v[i].samples == [] then Final(v, i + 1, k)
    else
      [Accepted(v[i], k == i)] + Final(v, i + 1, k + 1)
  }

  /** The series left are those with samples, in order; one that did not move has lost its replica label. */
  ghost predicate Leaves(v: seq<Series>, from: seq<nat>, out: seq<Series>) {
    && Increasing(from) && |from| == |out|
    && (forall j :: 0 <= j < |from| ==> from[j] < |v| && LeavesSeries(v[from[j]], out[j], from[j] == j))
    && (forall i :: 0 <= i < |v| ==> (i in from <==> v[i].samples != []))
  }

  ghost predicate LeavesSome(v: seq<Series>, out: seq<Series>) {
    exists from :: Leaves(v, from, out)
  }

  ghost predicate LeavesSeries(x: Series, y: Series, inPlace: bool) {
    && y.samples == x.samples
    && if inPlace then ReplicaDropped(x.labels, y.labels) else ReplicaShifted(x.labels, y.labels)
  }

  /** The same for the series before i. */
  ghost predicate LeavesUpTo(v: seq<Series>, i: nat, from: seq<nat>, out: seq<Series>) {
    && Increasing(from) && |from| == |out|
    && (forall j :: 0 <= j < |from| ==> from[j] < i <= |v| && LeavesSeries(v[from[j]], out[j], from[j] == j))
    && (forall m :: 0 <= m < i <= |v| ==> (m in from <==> v[m].samples != []))
  }

  lemma AcceptedLeaves(x: Series, inPlace: bool)
    ensures LeavesSeries(x, Accepted(x, inPlace), inPlace)
  {
    WithoutReplicaDrops(x.labels);
  }

  lemma OneMoreLeft(v: seq<Series>, i: nat, from: seq<nat>, out: seq<Series>)
    requires i < |v| && LeavesUpTo(v, i, from, out)
    ensures v[i].samples == [] ==> LeavesUpTo(v, i + 1, from, out)
    ensures v[i].samples != [] ==> LeavesUpTo(v, i + 1, from + [i], out + [Accepted(v[i], |out| == i)])
  {
    hide LeavesSeries, Accepted, Increasing;
    AcceptedLeaves(v[i], |out| == i);
    OneMorePlace(from, i);
  }

  lemma FinalEnd(v: seq<Series>, from: seq<nat>, out: seq<Series>)
    requires LeavesUpTo(v, |v|, from, out)
    ensures Leaves(v, from, out) && Final(v, |v|, |out|) == []
  {
  }

  lemma FinalPass(v: seq<Series>)
    ensures LeavesSome(v, Final(v, 0, 0))
  {
    hide Leaves, Final, Accepted, LeavesSeries;
    var from: seq<nat>, out := [], [];
    for i := 0 to |v|
      invariant LeavesUpTo(v, i, from, out) && Final(v, 0, 0) == out + Final(v, i, |out|)
    {
      OneMoreLeft(v, i, from, out);
      FinalStep(v, i, out);
      hide LeavesUpTo;
      if v[i].samples != [] {
        from, out := from + [i], out + [Accepted(v[i], |out| == i)];
      }
    }
    FinalEnd(v, from, out);
    assert Final(v, 0, 0) == out && Leaves(v, from, out);
  }

  /** What the final pass is for: drop empty series, and the replica label of the others. */
  function Ideal(v: seq<Series>): seq<Series> {
    if v == [] then []
    else if v[0].samples == [] then Ideal(v[1..])
    else [Series(WithoutReplica(v[0].labels), v[0].samples)] + Ideal(v[1..])
  }

  /** A series with a replica label comes behind an empty one. */
  predicate MovesReplica(v: seq<Series>) {
    exists i, j :: 0 <= i < j < |v| && v[i].samples == [] && v[j].samples != [] &&
        ReplicaIndex(v[j].labels) < |v[j].labels|
  }

  predicate HasReplicaFrom(v: seq<Series>, i: nat) {
    exists j :: i <= j < |v| && v[j].samples != [] && ReplicaIndex(v[j].labels) < |v[j].labels|
  }

  lemma SameHeadSameTail<T>(x: T, xs: seq<T>, y: T, ys: seq<T>)
    ensures [x] + xs == [y] + ys <==> x == y && xs == ys
  {
    if [x] + xs == [y] + ys {
      assert ([x] + xs)[0] == ([y] + ys)[0] && ([x] + xs)[1..] == ([y] + ys)[1..];
    }
  }

  lemma {:induction false} MovedSeries(v: seq<Series>, i: nat, k: nat)
    requires k < i <= |v|
    ensures Final(v, i, k) == Ideal(v[i..]) <==> !HasReplicaFrom(v, i)
    decreases |v| - i
  {
    hide ShiftedReplica, WithoutReplica, ReplicaIndex;
    if i < |v| {
      var x := v[i];
      assert v[i..][1..] == v[i + 1..];
      ShiftedIsRightIff(x.labels);
      MovedSeries(v, i + 1, if x.samples == [] then k else k + 1);
      SameHeadSameTail(Accepted(x, false), Final(v, i + 1, k + 1), Accepted(x, true), Ideal(v[i + 1..]));
      ReplicaFromNext(v, i);
      hide HasReplicaFrom;
    }
  }

  lemma ReplicaFromNext(v: seq<Series>, i: nat)
    requires i < |v|
    ensures HasReplicaFrom(v, i) <==>
            (v[i].samples != [] && ReplicaIndex(v[i].labels) < |v[i].labels|) || HasReplicaFrom(v, i + 1)
  {
    hide ReplicaIndex;
  }

  lemma {:induction false} UnmovedSeries(v: seq<Series>, i: nat)
    requires i <= |v| && forall j :: 0 <= j < i ==> v[j].samples != []
    ensures Final(v, i, i) == Ideal(v[i..]) <==> !MovesReplica(v)
    decreases |v| - i
  {
    if i < |v| {
      var x := v[i];
      assert v[i..][1..] == v[i + 1..];
      if x.samples == [] {
        MovedSeries(v, i + 1, i);
        assert HasReplicaFrom(v, i + 1) <==> MovesReplica(v);
      } else {
        UnmovedSeries(v, i + 1);
        var y := Series(WithoutReplica(x.labels), x.samples);
        SameHeadSameTail(y, Final(v, i + 1, i + 1), y, Ideal(v[i + 1..]));
      }
    } else {
      assert !MovesReplica(v);
    }
  }

  /** The final pass is right exactly if no series with a replica label has to move left. */
  lemma FinalIsIdealIff(v: seq<Series>)
    ensures Final(v, 0, 0) == Ideal(v) <==> !MovesReplica(v)
  {
    UnmovedSeries(v, 0);
    assert v[0..] == v;
  }

  // ---------- The request in place ----------

  predicate InBounds(arrays: seq<seq<Label>>, h: Header) {
    h.arr < |arrays| && h.len <= |arrays[h.arr]|
  }

  predicate AllInBounds(arrays: seq<seq<Label>>, hs: seq<Header>) {
    forall i :: 0 <= i < |hs| ==> InBounds(arrays, hs[i])
  }

  function Show(arrays: seq<seq<Label>>, h: Header): Series
    requires InBounds(arrays, h)
  {
    Series(arrays[h.arr][..h.len], h.samples)
  }

  function Shown(arrays: seq<seq<Label>>, hs: seq<Header>): (v: seq<Series>)
    requires AllInBounds(arrays, hs)
    ensures |v| == |hs|
    ensures forall i :: 0 <= i < |hs| ==> v[i] == Show(arrays, hs[i])
  {
    seq(|hs|, i requires 0 <= i < |hs| => Show(arrays, hs[i]))
  }

  predicate OwnArrays(hs: seq<Header>) {
    forall i, j :: 0 <= i < j < |hs| ==> hs[i].arr != hs[j].arr
  }

  function Filtered(v: seq<Series>, keep: int -> bool): (r: seq<Series>)
    ensures |r| == |v|
    ensures forall i :: 0 <= i < |v| ==> r[i] == Series(v[i].labels, Select(v[i].samples, keep))
  {
    seq(|v|, i requires 0 <= i < |v| => Series(v[i].labels, Select(v[i].samples, keep)))
  }

  /** Before series i, `out` has been accepted; the series from i on are untouched. */
  predicate Progress(arrays: seq<seq<Label>>, hs: seq<Header>, before: seq<Header>, v: seq<Series>, i: nat,
                     out: seq<Series>)
  {
    && |out| <= i <= |v| == |before| == |hs|
    && AllInBounds(arrays, hs)
    && (forall j :: 0 <= j < |out| ==> Show(arrays, hs[j]) == out[j])
    && (forall j :: i <= j < |v| ==> hs[j] == before[j] && Show(arrays, hs[j]) == v[j])
    && Separate(hs, before, i, |out|)
  }

  /** The first k headers have arrays of their own, and so have those that are still to come. */
  predicate Separate(hs: seq<Header>, before: seq<Header>, i: nat, k: nat)
    requires k <= |hs|
  {
    && (forall j, m :: 0 <= j < m < k ==> hs[j].arr != hs[m].arr)
    && (forall j, m :: 0 <= j < k && i <= m < |before| ==> hs[j].arr != before[m].arr)
  }

  lemma AcceptOne(arrays: seq<seq<Label>>, hs: seq<Header>, before: seq<Header>, v: seq<Series>, i: nat,
                  out: seq<Series>, labels: seq<Label>, len: nat, x: Series)
    requires Progress(arrays, hs, before, v, i, out) && i < |v| && OwnArrays(before)
    requires |labels| == |arrays[hs[i].arr]| && len <= hs[i].len
    requires x.samples == v[i].samples
    requires x.labels == if |out| == i then labels[..len] else labels[..hs[i].len]
    ensures Progress(arrays[hs[i].arr := labels], hs[|out| := hs[i]][i := Header(hs[i].arr, len, hs[i].samples)],
                     before, v, i + 1, out + [x])
  {
    var a, k := arrays[hs[i].arr := labels], |out|;
    var h := hs[k := hs[i]][i := Header(hs[i].arr, len, hs[i].samples)];
    assert AllInBounds(a, h);
    assert Show(a, h[k]) == x;
    assert Separate(h, before, i + 1, k + 1);
    assert forall j :: 0 <= j < k ==> h[j] == hs[j] && Show(a, h[j]) == out[j];
    assert forall j :: i < j < |v| ==> h[j] == before[j] && Show(a, h[j]) == v[j];
  }

  /** The series that the final pass puts at position k when it accepts series i. */
  function Accepted(v: Series, inPlace: bool): Series {
    Series(if inPlace then WithoutReplica(v.labels) else ShiftedReplica(v.labels), v.samples)
  }

  /** One accepted series: first its header is copied, then its labels move (filter.go:165-175). */
  method AcceptSeries(arrays: seq<seq<Label>>, hs: seq<Header>, i: nat, k: nat,
                      ghost before: seq<Header>, ghost v: seq<Series>, ghost out: seq<Series>)
    returns (a: seq<seq<Label>>, h: seq<Header>)
    requires Progress(arrays, hs, before, v, i, out) && k == |out| && i < |v| && OwnArrays(before)
    ensures Progress(a, h, before, v, i + 1, out + [Accepted(v[i], k == i)])
  {
    h := hs[k := hs[i]];
    var t := h[i];
    var labels, len := DropReplica(arrays[t.arr], t.len);
    a := arrays[t.arr := labels];
    h := h[i := Header(t.arr, len, t.samples)];
    ghost var x := Accepted(v[i], k == i);
    hide ShiftedReplica, WithoutReplica, ReplicaIndex, Separate, AllInBounds;
    AcceptOne(arrays, hs, before, v, i, out, labels, len, x);
  }

  lemma Untouched(arrays: seq<seq<Label>>, hs: seq<Header>)
    requires AllInBounds(arrays, hs)
    ensures Progress(arrays, hs, hs, Shown(arrays, hs), 0, [])
  {
  }

  lemma AllSeen(arrays: seq<seq<Label>>, hs: seq<Header>, before: seq<Header>, v: seq<Series>, out: seq<Series>)
    requires Progress(arrays, hs, before, v, |v|, out)
    ensures AllInBounds(arrays, hs[..|out|]) && OwnArrays(hs[..|out|]) && Shown(arrays, hs[..|out|]) == out
  {
  }

  lemma NextUntouched(arrays: seq<seq<Label>>, hs: seq<Header>, before: seq<Header>, v: seq<Series>, i: nat,
                      out: seq<Series>)
    requires Progress(arrays, hs, before, v, i, out) && i < |v|
    ensures |hs| == |v| && hs[i].samples == v[i].samples
    ensures v[i].samples == [] ==> Progress(arrays, hs, before, v, i + 1, out)
  {
  }

  lemma FinalStep(v: seq<Series>, i: nat, out: seq<Series>)
    requires i < |v|
    ensures v[i].samples == [] ==> out + Final(v, i, |out|) == out + Final(v, i + 1, |out|)
    ensures var next := out + [Accepted(v[i], |out| == i)];
      v[i].samples != [] ==> out + Final(v, i, |out|) == next + Final(v, i + 1, |next|)
  {
    hide Accepted;
    if v[i].samples != [] {
      var x := Accepted(v[i], |out| == i);
      assert out + ([x] + Final(v, i + 1, |out| + 1)) == out + [x] + Final(v, i + 1, |out| + 1);
    }
  }

  class WriteRequest {
    var arrays: seq<seq<Label>>
    var series: seq<Header>

    /** Every header lies within its array, and no two series share one. */
    ghost predicate Valid()
      reads this
    {
      AllInBounds(arrays, series) && OwnArrays(series)
    }

    ghost function View(): (v: seq<Series>)
      reads this
      requires Valid()
    {
      Shown(arrays, series)
    }

    constructor (timeseries: seq<Series>)
      ensures Valid() && View() == timeseries
    {
      arrays := seq(|timeseries|, i requires 0 <= i < |timeseries| => timeseries[i].labels);
      series := seq(|timeseries|, i requires 0 <= i < |timeseries| =>
        Header(i, |timeseries[i].labels|, timeseries[i].samples));
      new;
      assert forall i :: 0 <= i < |series| ==> Show(arrays, series[i]) == timeseries[i];
    }

    /** filterOutSampleRange (filter.go:135-152). */
    method FilterOutSampleRange(lo: int, hi: int)
      requires Valid()
      modifies this`series
      ensures Valid() && View() == Filtered(old(View()), Outside(lo, hi))
    {
      ghost var before := series;
      for i := 0 to |series|
        invariant |series| == |before| && Valid()
        invariant forall j :: 0 <= j < |before| ==> series[j].arr == before[j].arr && series[j].len == before[j].len
        invariant forall j :: i <= j < |before| ==> series[j] == before[j]
        invariant forall j :: 0 <= j < i ==> series[j].samples == Select(before[j].samples, Outside(lo, hi))
      {
        var samples := FilterSamples(series[i].samples, lo, hi);
        series := series[i := series[i].(samples := samples)];
      }
    }

    /** finalFiltering (filter.go:158-181). */
    method FinalFiltering()
      requires Valid()
      modifies this
      ensures Valid() && View() == Final(old(View()), 0, 0)
      ensures LeavesSome(old(View()), View())
    {
      hide Final, LeavesSome, Shown, AllInBounds, OwnArrays;
      ghost var v := View();
      AcceptAll();
      FinalPass(v);
    }

    /** The loop over the series. */
    method AcceptAll()
      requires Valid()
      modifies this
      ensures Valid() && View() == Final(old(View()), 0, 0)
    {
      ghost var before, v := series, View();
      ghost var out: seq<Series> := [];
      var numAccepted, n := 0, |series|;
      Untouched(arrays, series);
      hide Progress, Shown, AllInBounds, OwnArrays, Accepted;
      for i := 0 to n
        invariant Progress(arrays, series, before, v, i, out) && numAccepted == |out|
        invariant Final(v, 0, 0) == out + Final(v, i, numAccepted)
      {
        NextUntouched(arrays, series, before, v, i, out);
        FinalStep(v, i, out);
        hide Final;
        if |series[i].samples| == 0 {
          continue;
        }
        arrays, series := AcceptSeries(arrays, series, i, numAccepted, before, v, out);
        out := out + [Accepted(v[i], numAccepted == i)];
        numAccepted := numAccepted + 1;
      }
      AllSeen(arrays, series, before, v, out);
      series := series[..numAccepted];
    }
  }
}
