/**
 The high-availability write filter (pkg/ha/filter.go): two Prometheus replicas send the same
 series, and only the samples of the replica that held the lease at their time are stored.
 Times are whole milliseconds. The lease log is the table that the lease client reads
 (pkg/ha/client/client.go:25-31, pkg/ha/mock_ha_lock_client.go:19-34), ordered by lease start;
 the answer of the lease check is a parameter, and so is which reads of the log succeed.
 */
module HaFilter {
  import opened HaRequest

  // ---------- The lease log ----------

  datatype Lease = Lease(leader: string, start: int, until: int)

  ghost predicate LeaseLog(log: seq<Lease>) {
    && (forall i :: 0 <= i < |log| ==> log[i].start <= log[i].until)
    && (forall i, j :: 0 <= i < j < |log| ==> log[i].start <= log[j].start)
  }

  predicate Candidate(x: Lease, replica: string, start: int, end: int) {
    x.leader == replica && start < x.until <= end
  }

  /** A past lease of the replica, one that ended by `end`, covers time t. */
  predicate InPastLease(log: seq<Lease>, replica: string, end: int, t: int) {
    exists i :: 0 <= i < |log| && log[i].leader == replica && log[i].start <= t < log[i].until <= end
  }

  /** A lease of the replica ended in the range; it may have been an empty one. */
  predicate HasCandidate(log: seq<Lease>, replica: string, start: int, end: int) {
    exists i :: 0 <= i < |log| && Candidate(log[i], replica, start, end)
  }

  datatype Answer = Range(start: int, until: int) | NoLeasesInRange | Broken

  /** GetBackfillLeaseRange (pkg/ha/service.go:136-142): the earliest candidate of the log. */
  method GetBackfillLeaseRange(log: seq<Lease>, replica: string, start: int, end: int, readable: bool)
    returns (a: Answer)
    ensures a.Broken? <==> !readable
    ensures a.Range? ==> exists i :: 0 <= i < |log| && IsFirst(log, i, replica, start, end) &&
                                     a == Range(log[i].start, log[i].until)
    ensures a.NoLeasesInRange? ==> forall j :: 0 <= j < |log| ==> !Candidate(log[j], replica, start, end)
  {
    if !readable {
      return Broken;
    }
    for i := 0 to |log|
      invariant forall j :: 0 <= j < i ==> !Candidate(log[j], replica, start, end)
    {
      if Candidate(log[i], replica, start, end) {
        assert IsFirst(log, i, replica, start, end);
        return Range(log[i].start, log[i].until);
      }
    }
    return NoLeasesInRange;
  }

  predicate IsFirst(log: seq<Lease>, i: nat, replica: string, start: int, end: int)
    requires i < |log|
  {
    Candidate(log[i], replica, start, end) && forall j :: 0 <= j < i ==> !Candidate(log[j], replica, start, end)
  }

  /** Up to its end, the earliest candidate decides which times from `start` on are in a past lease. */
  lemma FirstCandidateDecides(log: seq<Lease>, i: nat, replica: string, start: int, end: int, t: int)
    requires LeaseLog(log) && i < |log| && IsFirst(log, i, replica, start, end)
    requires start <= t < log[i].until
    ensures InPastLease(log, replica, end, t) <==> log[i].start <= t
  {
    if j :| 0 <= j < |log| && log[j].leader == replica && log[j].start <= t < log[j].until <= end {
      assert Candidate(log[j], replica, start, end);
    }
  }

  // ---------- Which samples stay ----------

  /** The samples that the loop over past leases has kept when it has come to `from`. */
  function KeptUpTo(log: seq<Lease>, replica: string, end: int, from: int): int -> bool {
    t => from <= t || InPastLease(log, replica, end, t)
  }

  /** What the filter is for: past leases before the current lease, and the current lease if it is ours. */
  function Kept(log: seq<Lease>, replica: string, allowed: bool, leaseStart: int): int -> bool {
    t => if t < leaseStart then InPastLease(log, replica, leaseStart, t) else allowed
  }

  /** A time stays if a past lease of the replica covers it, or if the replica holds the lease it falls in. */
  lemma KeptIff(log: seq<Lease>, replica: string, allowed: bool, leaseStart: int, from: int, t: int)
    ensures Kept(log, replica, allowed, leaseStart)(t) <==>
            || (allowed && leaseStart <= t)
            || exists i :: 0 <= i < |log| && log[i].leader == replica &&
                           log[i].start <= t && t < log[i].until && log[i].until <= leaseStart
    ensures KeptUpTo(log, replica, leaseStart, from)(t) <==>
            || from <= t
            || exists i :: 0 <= i < |log| && log[i].leader == replica &&
                           log[i].start <= t && t < log[i].until && log[i].until <= leaseStart
  {
  }

  predicate Agree(v: seq<Series>, p: int -> bool, q: int -> bool) {
    forall i, x :: 0 <= i < |v| && x in v[i].samples ==> (p(x.timestamp) <==> q(x.timestamp))
  }

  lemma FilteredAgain(v: seq<Series>, p: int -> bool, q: int -> bool, both: int -> bool)
    requires Agree(v, t => p(t) && q(t), both)
    ensures Filtered(Filtered(v, p), q) == Filtered(v, both)
  {
    forall i | 0 <= i < |v|
      ensures Filtered(Filtered(v, p), q)[i] == Filtered(v, both)[i]
    {
      SelectAgain(v[i].samples, p, q, both);
    }
  }

  lemma FilteredAll(v: seq<Series>, p: int -> bool)
    requires Agree(v, p, t => true)
    ensures Filtered(v, p) == v
  {
    forall i | 0 <= i < |v|
      ensures Filtered(v, p)[i] == v[i]
    {
      SelectAll(v[i].samples, p);
    }
  }

  lemma {:induction false} NothingLeft(v: seq<Series>, i: nat, k: nat)
    requires i <= |v| && forall j :: i <= j < |v| ==> v[j].samples == []
    ensures Final(v, i, k) == []
    decreases |v| - i
  {
    if i < |v| {
      NothingLeft(v, i + 1, k);
    }
  }

  /** If no sample is kept, nothing is left. */
  lemma FilteredNone(v: seq<Series>, p: int -> bool)
    requires Agree(v, p, t => false)
    ensures Final(Filtered(v, p), 0, 0) == []
  {
    forall i | 0 <= i < |v|
      ensures Filtered(v, p)[i].samples == []
    {
      var s := Select(v[i].samples, p);
      assert s != [] ==> s[0] in v[i].samples && p(s[0].timestamp);
    }
    NothingLeft(Filtered(v, p), 0, 0);
  }

  ghost predicate NoneBefore(v: seq<Series>, lo: int) {
    forall i, x :: 0 <= i < |v| && x in v[i].samples ==> lo <= x.timestamp
  }

  ghost predicate NoneAfter(v: seq<Series>, hi: int) {
    forall i, x :: 0 <= i < |v| && x in v[i].samples ==> x.timestamp <= hi
  }

  // ---------- The loop over past leases ----------

  ghost predicate NoPastLease(log: seq<Lease>, replica: string, end: int, from: int) {
    forall t :: from <= t < end ==> !InPastLease(log, replica, end, t)
  }

  /** filterBackfill (filter.go:92-133). `from` is where the loop stopped. */
  method FilterBackfill(wr: WriteRequest, log: seq<Lease>, replica: string, minT: int, end: int, readable: int -> bool)
    returns (hasBackfill: bool, broken: bool, ghost from: int)
    requires wr.Valid() && LeaseLog(log) && NoneBefore(wr.View(), minT) && minT < end
    modifies wr`series
    ensures wr.Valid()
    ensures broken ==> minT <= from < end && !readable(from)
    ensures broken ==> wr.View() == Filtered(old(wr.View()), KeptUpTo(log, replica, end, from))
    ensures !broken && hasBackfill ==> wr.View() == Filtered(old(wr.View()), KeptUpTo(log, replica, end, end))
    ensures !broken && !hasBackfill ==> wr.View() == old(wr.View()) && NoPastLease(log, replica, end, minT)
    ensures !broken ==> (hasBackfill <==> HasCandidate(log, replica, minT, end))
  {
    hasBackfill, broken := false, false;
    var backfillStart := minT;
    ghost var v := wr.View();
    FilteredAll(v, KeptUpTo(log, replica, end, minT));
    hide KeptUpTo, Filtered, Shown, AllInBounds, OwnArrays;
    while backfillStart < end
      invariant minT <= backfillStart <= end && (!hasBackfill ==> backfillStart == minT)
      invariant hasBackfill ==> HasCandidate(log, replica, minT, end)
      invariant wr.Valid() && wr.View() == Filtered(v, KeptUpTo(log, replica, end, backfillStart))
      decreases end - backfillStart
    {
      var lease := GetBackfillLeaseRange(log, replica, backfillStart, end, readable(backfillStart));
      match lease
      case NoLeasesInRange =>
        assert !HasCandidate(log, replica, backfillStart, end);
        assert NoPastLease(log, replica, end, backfillStart);
        break;
      case Broken =>
        broken := true;
        from := backfillStart;
        return;
      case Range(keepStart, keepEnd) =>
        assert HasCandidate(log, replica, backfillStart, end);
        hasBackfill := true;
        ghost var i :| 0 <= i < |log| && IsFirst(log, i, replica, backfillStart, end) &&
            lease == Range(log[i].start, log[i].until);
        if backfillStart <= keepStart {
          wr.FilterOutSampleRange(backfillStart, keepStart);
        }
        KeepLease(v, log, i, replica, backfillStart, end);
        backfillStart := keepEnd;
    }
    from := backfillStart;
    assert NoPastLease(log, replica, end, from);
    if hasBackfill {
      wr.FilterOutSampleRange(backfillStart, end);
      DropRest(v, log, replica, from, end);
    }
  }

  /** Dropping the times before the next lease of the replica moves the loop on to the end of that lease. */
  lemma KeepLease(v: seq<Series>, log: seq<Lease>, i: nat, replica: string, start: int, end: int)
    requires LeaseLog(log) && i < |log| && IsFirst(log, i, replica, start, end)
    ensures
      var p, q := KeptUpTo(log, replica, end, start), KeptUpTo(log, replica, end, log[i].until);
      if start <= log[i].start then Filtered(v, q) == Filtered(Filtered(v, p), Outside(start, log[i].start))
      else Filtered(v, q) == Filtered(v, p)
  {
    var p, q := KeptUpTo(log, replica, end, start), KeptUpTo(log, replica, end, log[i].until);
    forall t | start <= t < log[i].until
      ensures InPastLease(log, replica, end, t) <==> log[i].start <= t
    {
      FirstCandidateDecides(log, i, replica, start, end, t);
    }
    hide InPastLease, IsFirst;
    if start <= log[i].start {
      FilteredAgain(v, p, Outside(start, log[i].start), q);
    } else {
      FilteredAgain(v, p, t => true, q);
      FilteredAll(Filtered(v, p), t => true);
    }
  }

  lemma DropRest(v: seq<Series>, log: seq<Lease>, replica: string, from: int, end: int)
    requires NoPastLease(log, replica, end, from) && from <= end
    ensures Filtered(Filtered(v, KeptUpTo(log, replica, end, from)), Outside(from, end)) ==
        Filtered(v, KeptUpTo(log, replica, end, end))
  {
    FilteredAgain(v, KeptUpTo(log, replica, end, from), Outside(from, end), KeptUpTo(log, replica, end, end));
  }

  // ---------- The labels and the time range of a request ----------

  /** The value of the last label with this name; empty if there is none. */
  function ValueOf(labels: seq<Label>, name: string): string {
    if labels == [] then ""
    else if labels[|labels| - 1].name == name then labels[|labels| - 1].value
    else ValueOf(labels[..|labels| - 1], name)
  }

  lemma {:induction false} ValueOfIsLast(labels: seq<Label>, name: string) returns (i: int)
    ensures -1 <= i < |labels| && forall j :: i < j < |labels| ==> labels[j].name != name
    ensures if i == -1 then ValueOf(labels, name) == "" else labels[i] == Label(name, ValueOf(labels, name))
  {
    if labels == [] {
      i := -1;
    } else if labels[|labels| - 1].name == name {
      i := |labels| - 1;
    } else {
      i := ValueOfIsLast(labels[..|labels| - 1], name);
    }
  }

  /** haLabels (filter.go:211-220). */
  method HaLabels(labels: seq<Label>) returns (cluster: string, replica: string)
    ensures cluster == ValueOf(labels, "cluster") && replica == ValueOf(labels, "__replica__")
  {
    cluster, replica := "", "";
    for i := 0 to |labels|
      invariant cluster == ValueOf(labels[..i], CLUSTER_LABEL) && replica == ValueOf(labels[..i], REPLICA_LABEL)
    {
      assert labels[..i + 1][..i] == labels[..i];
      if labels[i].name == CLUSTER_LABEL {
        cluster := labels[i].value;
      } else if labels[i].name == REPLICA_LABEL {
        replica := labels[i].value;
      }
    }
    assert labels[..|labels|] == labels;
  }

  /** A time range: unset, and then (0, 0), or from a least to a greatest timestamp. */
  datatype TimeRange = TimeRange(known: bool, min: int, max: int)

  ghost predicate Covers(r: TimeRange, s: seq<Sample>) {
    forall x :: x in s ==> r.known && r.min <= x.timestamp <= r.max
  }

  ghost predicate Has(s: seq<Sample>, t: int) {
    exists x :: x in s && x.timestamp == t
  }

  /** The range of one series joined to that of the series before it (filter.go:192-206). */
  method Extend(r0: TimeRange, s: seq<Sample>) returns (r: TimeRange)
    ensures Covers(r, s)
    ensures r0.known ==> r.known && r.min <= r0.min && r0.max <= r.max
    ensures if !r.known then r == r0 && s == [] else
      ((r0.known && r.min == r0.min) || Has(s, r.min)) && ((r0.known && r.max == r0.max) || Has(s, r.max))
  {
    r := r0;
    for j := 0 to |s|
      invariant Covers(r, s[..j])
      invariant r0.known ==> r.known && r.min <= r0.min && r0.max <= r.max
      invariant if !r.known then r == r0 && j == 0 else
        ((r0.known && r.min == r0.min) || Has(s, r.min)) && ((r0.known && r.max == r0.max) || Has(s, r.max))
    {
      var t := s[j].timestamp;
      assert s[j] in s && Has(s, t);
      if !r.known {
        r := TimeRange(true, t, t);
        continue;
      }
      if t < r.min {
        r := r.(min := t);
      }
      if r.max < t {
        r := r.(max := t);
      }
    }
    assert s[..|s|] == s;
  }

  ghost predicate Occurs(v: seq<Series>, t: int) {
    exists i :: 0 <= i < |v| && Has(v[i].samples, t)
  }

  /** findDataTimeRange (filter.go:184-209). */
  method FindDataTimeRange(v: seq<Series>) returns (minT: int, maxT: int)
    ensures NoneBefore(v, minT) && NoneAfter(v, maxT)
    ensures NoSamples(v) ==> minT == maxT == 0
    ensures !NoSamples(v) ==> Occurs(v, minT) && Occurs(v, maxT)
  {
    var r := TimeRange(false, 0, 0);
    for i := 0 to |v|
      invariant forall k :: 0 <= k < i ==> Covers(r, v[k].samples)
      invariant if r.known then Occurs(v, r.min) && Occurs(v, r.max)
                else r.min == r.max == 0 && forall k :: 0 <= k < i ==> v[k].samples == []
    {
      r := Extend(r, v[i].samples);
    }
    return r.min, r.max;
  }

  ghost predicate NoSamples(v: seq<Series>) {
    forall i :: 0 <= i < |v| ==> v[i].samples == []
  }

  /** The request reaches back before the current lease; one without samples counts as one at time 0. */
  ghost predicate ReachesBack(v: seq<Series>, leaseStart: int) {
    if NoSamples(v) then 0 < leaseStart else !NoneBefore(v, leaseStart)
  }

  // ---------- Processing a request ----------

  /** What CheckLease answers: whether the replica holds the current lease, and since when. */
  datatype LeaseCheck = Checked(allowed: bool, leaseStart: int) | Failed

  datatype Outcome = Done | LabelsMissing | LeaseUnknown | BackfillUnknown

  /** The cases after the loop over past leases (filter.go:71-84). */
  method DropRefused(wr: WriteRequest, log: seq<Lease>, replica: string, allowed: bool, leaseStart: int,
                     minT: int, maxT: int, hasBackfill: bool, ghost v: seq<Series>)
    requires wr.Valid() && NoneBefore(v, minT) && NoneAfter(v, maxT)
    requires hasBackfill ==> wr.View() == Filtered(v, KeptUpTo(log, replica, leaseStart, leaseStart))
    requires !hasBackfill ==> wr.View() == v && NoPastLease(log, replica, leaseStart, minT)
    modifies wr
    ensures wr.Valid() && Final(wr.View(), 0, 0) == Final(Filtered(v, Kept(log, replica, allowed, leaseStart)), 0, 0)
  {
    ghost var kept, upTo := Kept(log, replica, allowed, leaseStart), KeptUpTo(log, replica, leaseStart, leaseStart);
    if !hasBackfill && allowed {
      wr.FilterOutSampleRange(minT, leaseStart);
      FilteredAll(v, t => true);
      FilteredAgain(v, t => true, Outside(minT, leaseStart), kept);
    } else if hasBackfill && !allowed {
      wr.FilterOutSampleRange(leaseStart, maxT + 1);
      FilteredAgain(v, upTo, Outside(leaseStart, maxT + 1), kept);
    } else if !hasBackfill && !allowed {
      wr.series := [];
      FilteredNone(v, kept);
    } else {
      FilteredAgain(v, t => true, upTo, kept);
      FilteredAll(v, t => true);
    }
  }

  /** Which outcome a request gets; a log that cannot be read matters only to samples before the lease. */
  ghost predicate Expected(v: seq<Series>, check: LeaseCheck, o: Outcome) {
    match o
    case Done => v == [] || (Named(v[0]) && check.Checked?)
    case LabelsMissing => v != [] && !Named(v[0])
    case LeaseUnknown => v != [] && Named(v[0]) && check.Failed?
    case BackfillUnknown =>
      v != [] && Named(v[0]) && check.Checked? && ReachesBack(v, check.leaseStart)
  }

  /** The labels of the first series stand for those of all (filter.go:42). */
  method FirstLabels(wr: WriteRequest) returns (cluster: string, replica: string)
    requires wr.Valid() && |wr.series| > 0
    ensures |wr.View()| == |wr.series|
    ensures cluster == ValueOf(wr.View()[0].labels, CLUSTER_LABEL) && replica == ReplicaOf(wr.View()[0])
  {
    hide ValueOf;
    var h := wr.series[0];
    cluster, replica := HaLabels(wr.arrays[h.arr][..h.len]);
  }

  /** Process without the deferred final pass (filter.go:37-86). */
  method Decide(wr: WriteRequest, check: LeaseCheck, log: seq<Lease>, readable: int -> bool)
    returns (o: Outcome, ghost from: int)
    requires wr.Valid() && LeaseLog(log)
    modifies wr
    ensures wr.Valid()
    ensures o == Done && old(wr.View()) == [] ==> wr.View() == []
    ensures o == LabelsMissing || o == LeaseUnknown ==> wr.View() == old(wr.View())
    ensures Expected(old(wr.View()), check, o) && (o == BackfillUnknown ==> !readable(from))
    ensures o == Done && old(wr.View()) != [] ==> var v := old(wr.View());
      Final(wr.View(), 0, 0) == Final(Filtered(v, Kept(log, ReplicaOf(v[0]), check.allowed, check.leaseStart)), 0, 0)
    ensures o == BackfillUnknown ==> var v := old(wr.View());
      wr.View() == Filtered(v, KeptUpTo(log, ReplicaOf(v[0]), check.leaseStart, from))
  {
    hide Filtered, Shown, AllInBounds, OwnArrays, Final, InPastLease, ValueOf, KeptUpTo, Outside;
    from := 0;
    ghost var v := wr.View();
    if |wr.series| == 0 {
      return Done, from;
    }
    var cluster, replica := FirstLabels(wr);
    if cluster == "" || replica == "" {
      return LabelsMissing, from;
    }
    var minT, maxT := FindDataTimeRange(Shown(wr.arrays, wr.series));
    if check.Failed? {
      return LeaseUnknown, from;
    }
    var leaseStart := check.leaseStart;
    if leaseStart <= minT {
      if check.allowed {
        FilteredAll(v, Kept(log, replica, true, leaseStart));
      } else {
        DropAll(wr);
        FilteredNone(v, Kept(log, replica, false, leaseStart));
      }
      return Done, from;
    }
    var hasBackfill, broken;
    hasBackfill, broken, from := FilterBackfill(wr, log, replica, minT, leaseStart, readable);
    if broken {
      return BackfillUnknown, from;
    }
    DropRefused(wr, log, replica, check.allowed, leaseStart, minT, maxT, hasBackfill, v);
    return Done, from;
  }

  method DropAll(wr: WriteRequest)
    requires wr.Valid()
    modifies wr`series
    ensures wr.Valid() && wr.View() == [] && Final(wr.View(), 0, 0) == []
  {
    wr.series := [];
  }

  function ReplicaOf(s: Series): string {
    ValueOf(s.labels, REPLICA_LABEL)
  }

  predicate Named(s: Series) {
    ValueOf(s.labels, CLUSTER_LABEL) != "" && ReplicaOf(s) != ""
  }

  /** Process (filter.go:35-86): whatever happens, the final pass comes last. */
  method Process(wr: WriteRequest, check: LeaseCheck, log: seq<Lease>, readable: int -> bool)
    returns (o: Outcome, ghost from: int)
    requires wr.Valid() && LeaseLog(log)
    modifies wr
    ensures wr.Valid() && Expected(old(wr.View()), check, o) && (o == BackfillUnknown ==> !readable(from))
    ensures o == Done && old(wr.View()) == [] ==> wr.View() == []
    ensures o == Done && old(wr.View()) != [] ==> var v := old(wr.View());
      wr.View() == Final(Filtered(v, Kept(log, ReplicaOf(v[0]), check.allowed, check.leaseStart)), 0, 0)
    ensures o == LabelsMissing || o == LeaseUnknown ==> wr.View() == Final(old(wr.View()), 0, 0)
    ensures o == BackfillUnknown ==> var v := old(wr.View());
      wr.View() == Final(Filtered(v, KeptUpTo(log, ReplicaOf(v[0]), check.leaseStart, from)), 0, 0)
    ensures LeavesSome(Survivors(old(wr.View()), check, log, o, from), wr.View())
  {
    hide Filtered, Shown, AllInBounds, OwnArrays, Kept, KeptUpTo, Expected, Final, LeavesSome;
    ghost var v := wr.View();
    o, from := Decide(wr, check, log, readable);
    wr.FinalFiltering();
    FinalPass(Survivors(v, check, log, o, from));
    FinalOfNothing();
  }

  lemma FinalOfNothing()
    ensures Final([], 0, 0) == []
  {
  }

  /** The request with the samples that stay, before the final pass. */
  ghost function Survivors(v: seq<Series>, check: LeaseCheck, log: seq<Lease>, o: Outcome, from: int): seq<Series>
    requires Expected(v, check, o)
  {
    if v == [] || o == LabelsMissing || o == LeaseUnknown then v
    else if o == BackfillUnknown then Filtered(v, KeptUpTo(log, ReplicaOf(v[0]), check.leaseStart, from))
    else Filtered(v, Kept(log, ReplicaOf(v[0]), check.allowed, check.leaseStart))
  }

  // ---------- One replica for each time ----------

  ghost predicate Disjoint(log: seq<Lease>) {
    forall i, j :: 0 <= i < j < |log| ==> log[i].until <= log[j].start
  }

  /**
   A lease log grows over time. `log[..c]` is what had ended when a request was processed and
   `log[c]` was the current lease; the lease check says whether the replica holds it, and has
   extended it beyond the samples it lets in.
   */
  ghost predicate StoredAt(log: seq<Lease>, c: nat, replica: string, t: int)
    requires c < |log|
  {
    Kept(log[..c], replica, log[c].leader == replica, log[c].start)(t) && (log[c].start <= t ==> t < log[c].until)
  }

  /** A stored sample lies in a lease of its replica. */
  lemma StoredUnderOwnLease(log: seq<Lease>, c: nat, replica: string, t: int) returns (i: nat)
    requires c < |log| && StoredAt(log, c, replica, t)
    ensures i < |log| && log[i].leader == replica && log[i].start <= t < log[i].until
  {
    if log[c].start <= t {
      return c;
    }
    i :| 0 <= i < |log[..c]| && log[..c][i].leader == replica &&
      log[..c][i].start <= t < log[..c][i].until <= log[c].start;
  }

  /** Whenever two requests are processed, no time is stored from two replicas. */
  lemma OneReplicaForEachTime(log: seq<Lease>, c: nat, d: nat, r1: string, r2: string, t: int)
    requires Disjoint(log) && c < |log| && d < |log|
    requires StoredAt(log, c, r1, t) && StoredAt(log, d, r2, t)
    ensures r1 == r2
  {
    var i := StoredUnderOwnLease(log, c, r1, t);
    var j := StoredUnderOwnLease(log, d, r2, t);
    assert i == j;
  }

  // ---------- Two requests ----------

  ghost predicate HasSampleAt(v: seq<Series>, t: int) {
    exists i, x :: 0 <= i < |v| && x in v[i].samples && x.timestamp == t
  }

  lemma FinalNext(v: seq<Series>, i: nat, k: nat)
    requires i <= |v|
    ensures i == |v| ==> Final(v, i, k) == []
    ensures i < |v| && v[i].samples == [] ==> Final(v, i, k) == Final(v, i + 1, k)
    ensures i < |v| && v[i].samples != [] ==>
      |Final(v, i, k)| > 0 && Final(v, i, k)[0].samples == v[i].samples && Final(v, i, k)[1..] == Final(v, i + 1, k + 1)
  {
  }

  /** The final pass shows only samples that were there before it. */
  lemma {:induction false} FinalHasNoOthers(v: seq<Series>, i: nat, k: nat, j: nat) returns (m: nat)
    requires i <= |v| && j < |Final(v, i, k)|
    ensures i <= m < |v| && Final(v, i, k)[j].samples == v[m].samples
    decreases |v| - i
  {
    hide Accepted, Final;
    FinalNext(v, i, k);
    if v[i].samples == [] {
      m := FinalHasNoOthers(v, i + 1, k, j);
    } else if j == 0 {
      m := i;
    } else {
      m := FinalHasNoOthers(v, i + 1, k + 1, j - 1);
    }
  }

  /** Every sample that is left was in the request, at a time that is kept. */
  lemma LeftIsKept(v: seq<Series>, keep: int -> bool, t: int)
    requires HasSampleAt(Final(Filtered(v, keep), 0, 0), t)
    ensures HasSampleAt(v, t) && keep(t)
  {
    var left := Final(Filtered(v, keep), 0, 0);
    var j, x :| 0 <= j < |left| && x in left[j].samples && x.timestamp == t;
    var m := FinalHasNoOthers(Filtered(v, keep), 0, 0, j);
    assert x in Select(v[m].samples, keep);
    assert x in v[m].samples;
  }

  /**
   The lease check as it was answered when log[c] was the current lease: a replica that is let in has
   had the lease extended beyond its samples.
   */
  ghost predicate Answered(check: LeaseCheck, log: seq<Lease>, c: nat, v: seq<Series>)
    requires c < |log| && v != []
  {
    && check == Checked(log[c].leader == ReplicaOf(v[0]), log[c].start)
    && (check.allowed ==> forall t :: HasSampleAt(v, t) ==> t < log[c].until)
  }

  /** What is left of a request was stored under the log of that moment. */
  lemma LeftIsStored(v: seq<Series>, check: LeaseCheck, log: seq<Lease>, c: nat, t: int)
    requires c < |log| && v != [] && Answered(check, log, c, v)
    requires HasSampleAt(Final(Filtered(v, Kept(log[..c], ReplicaOf(v[0]), check.allowed, check.leaseStart)), 0, 0), t)
    ensures StoredAt(log, c, ReplicaOf(v[0]), t)
  {
    hide Final, Filtered, ValueOf, InPastLease, HasSampleAt;
    LeftIsKept(v, Kept(log[..c], ReplicaOf(v[0]), check.allowed, check.leaseStart), t);
  }

  /** Of two requests from different replicas, processed at any two moments of one log, no time is stored twice. */
  method ProcessTwo(a: WriteRequest, b: WriteRequest, checkA: LeaseCheck, checkB: LeaseCheck,
                    log: seq<Lease>, c: nat, d: nat, readable: int -> bool) returns (oa: Outcome, ob: Outcome)
    requires a != b && a.Valid() && b.Valid() && a.View() != [] && b.View() != []
    requires LeaseLog(log) && Disjoint(log) && c < |log| && d < |log|
    requires Answered(checkA, log, c, a.View()) && Answered(checkB, log, d, b.View())
    modifies a, b
    ensures a.Valid() && b.Valid()
    ensures oa == Done && ob == Done && old(ReplicaOf(a.View()[0])) != old(ReplicaOf(b.View()[0])) ==>
      forall t :: !(HasSampleAt(a.View(), t) && HasSampleAt(b.View(), t))
  {
    hide Final, Filtered, Kept, KeptUpTo, ValueOf, InPastLease, HasSampleAt, Shown, AllInBounds, OwnArrays, Answered,
        StoredAt;
    hide Expected, Disjoint, LeavesSome, Survivors;
    ghost var va, vb := a.View(), b.View();
    ghost var from;
    oa, from := Process(a, checkA, log[..c], readable);
    ob, from := Process(b, checkB, log[..d], readable);
    if oa == Done && ob == Done {
      CheckedWhenAnswered(checkA, log, c, va);
      CheckedWhenAnswered(checkB, log, d, vb);
      forall t | HasSampleAt(a.View(), t) && HasSampleAt(b.View(), t)
        ensures ReplicaOf(va[0]) == ReplicaOf(vb[0])
      {
        LeftIsStored(va, checkA, log, c, t);
        LeftIsStored(vb, checkB, log, d, t);
        OneReplicaForEachTime(log, c, d, ReplicaOf(va[0]), ReplicaOf(vb[0]), t);
      }
    }
  }

  lemma CheckedWhenAnswered(check: LeaseCheck, log: seq<Lease>, c: nat, v: seq<Series>)
    requires c < |log| && v != [] && Answered(check, log, c, v)
    ensures check.Checked?
  {
  }
}
