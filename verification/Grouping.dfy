/**
 The grouping loop of aggregations (pkg/promql/engine.go:2402-2469): one pass over a vector in
 which the samples of different groups interleave, with an accumulator for each group. What
 an accumulator holds is a relation to the samples of its group, in order.
 */
module Grouping {

  datatype Keyed<K, S> = Keyed(key: K, sample: S)

  /** The samples of one group among the first n, in order. */
  function Members<K(==), S>(v: seq<Keyed<K, S>>, n: nat, key: K): seq<S>
    requires n <= |v|
  {
    if n == 0 then []
    else if v[n - 1].key == key then Members(v, n - 1, key) + [v[n - 1].sample]
    else Members(v, n - 1, key)
  }

  /** The groups among the first n samples, in the order in which they are first seen. */
  function Keys<K(==), S>(v: seq<Keyed<K, S>>, n: nat): seq<K>
    requires n <= |v|
  {
    if n == 0 then []
    else if v[n - 1].key in Keys(v, n - 1) then Keys(v, n - 1)
    else Keys(v, n - 1) + [v[n - 1].key]
  }

  /** Every group is listed once, and has members. */
  lemma {:induction false} KeysAreGroups<K(!new), S>(v: seq<Keyed<K, S>>, n: nat)
    requires n <= |v|
    ensures forall i, j :: 0 <= i < j < |Keys(v, n)| ==> Keys(v, n)[i] != Keys(v, n)[j]
    ensures forall k :: k in Keys(v, n) <==> Members(v, n, k) != []
  {
    if n > 0 {
      KeysAreGroups(v, n - 1);
    }
  }

  function TotalMembers<K(==), S>(v: seq<Keyed<K, S>>, n: nat, keys: seq<K>): nat
    requires n <= |v|
  {
    if keys == [] then 0
    else TotalMembers(v, n, keys[..|keys| - 1]) + |Members(v, n, keys[|keys| - 1])|
  }

  lemma {:induction false} TotalOfOneMore<K(!new), S>(v: seq<Keyed<K, S>>, n: nat, keys: seq<K>)
    requires n < |v| && forall i, j :: 0 <= i < j < |keys| ==> keys[i] != keys[j]
    ensures TotalMembers(v, n + 1, keys) == TotalMembers(v, n, keys) + if v[n].key in keys then 1 else 0
  {
    if keys != [] {
      TotalOfOneMore(v, n, keys[..|keys| - 1]);
    }
  }

  /** Every sample is in exactly one group. */
  lemma {:induction false} GroupsPartition<K(!new), S>(v: seq<Keyed<K, S>>, n: nat)
    requires n <= |v|
    ensures TotalMembers(v, n, Keys(v, n)) == n
  {
    if n > 0 {
      var keys, k := Keys(v, n - 1), v[n - 1].key;
      GroupsPartition(v, n - 1);
      KeysAreGroups(v, n - 1);
      TotalOfOneMore(v, n - 1, keys);
      if k !in keys {
        assert (keys + [k])[..|keys|] == keys;
        assert Members(v, n, k) == [v[n - 1].sample];
      }
    }
  }

  /** Every accumulator is related to the samples of its group. */
  ghost predicate Accumulated<K(!new), S, A>(v: seq<Keyed<K, S>>, n: nat, groups: map<K, A>, rel: (A, seq<S>) -> bool)
    requires n <= |v|
  {
    && (forall k :: k in groups <==> Members(v, n, k) != [])
    && (forall k :: k in groups ==> rel(groups[k], Members(v, n, k)))
  }

  /** The loop over the samples: a new group starts with `init`, an existing one takes a `step`. */
  method Aggregate<K(==, !new), S(!new), A(!new)>(v: seq<Keyed<K, S>>, init: S -> A, step: (A, S) -> A,
                                                 ghost rel: (A, seq<S>) -> bool)
    returns (ordered: seq<K>, groups: map<K, A>)
    requires forall s :: rel(init(s), [s])
    requires forall a, m, s :: m != [] && rel(a, m) ==> rel(step(a, s), m + [s])
    ensures ordered == Keys(v, |v|) && (forall k :: k in ordered <==> k in groups)
    ensures Accumulated(v, |v|, groups, rel)
  {
    ordered, groups := [], map[];
    for i := 0 to |v|
      invariant ordered == Keys(v, i) && (forall k :: k in ordered <==> k in groups)
      invariant Accumulated(v, i, groups, rel)
    {
      var x := v[i];
      if x.key !in groups {
        groups := groups[x.key := init(x.sample)];
        ordered := ordered + [x.key];
        assert Members(v, i + 1, x.key) == [x.sample];
        continue;
      }
      groups := groups[x.key := step(groups[x.key], x.sample)];
    }
  }
}
