/** What the callers of Go's sort.Sort and sort.Search rely on: some sorted permutation, and the least index. */
module Sorting {

  ghost predicate TotalOrder<T(!new)>(leq: (T, T) -> bool) {
    && (forall x, y :: leq(x, y) || leq(y, x))
    && (forall x, y, z :: leq(x, y) && leq(y, z) ==> leq(x, z))
  }

  ghost predicate Sorted<T(!new)>(s: seq<T>, leq: (T, T) -> bool) {
    forall i, j :: 0 <= i < j < |s| ==> leq(s[i], s[j])
  }

  ghost predicate Permutation<T>(s: seq<T>, t: seq<T>) {
    multiset(s) == multiset(t)
  }

  /** Inserts x behind the elements of a sorted sequence that it is not less than. */
  function Insert<T(!new)>(s: seq<T>, x: T, leq: (T, T) -> bool): (r: seq<T>)
    ensures |r| == |s| + 1
  {
    if s == [] || leq(s[|s| - 1], x) then s + [x] else Insert(s[..|s| - 1], x, leq) + [s[|s| - 1]]
  }

  lemma {:induction false} InsertPermutes<T(!new)>(s: seq<T>, x: T, leq: (T, T) -> bool)
    ensures multiset(Insert(s, x, leq)) == multiset(s) + multiset{x}
  {
    if s == [] || leq(s[|s| - 1], x) {
    } else {
      InsertPermutes(s[..|s| - 1], x, leq);
      assert s == s[..|s| - 1] + [s[|s| - 1]];
    }
  }

  lemma {:induction false} InsertSorts<T(!new)>(s: seq<T>, x: T, leq: (T, T) -> bool)
    requires TotalOrder(leq) && Sorted(s, leq)
    ensures Sorted(Insert(s, x, leq), leq)
    ensures forall y :: y in Insert(s, x, leq) ==> y == x || y in s
  {
    if s == [] {
    } else if leq(s[|s| - 1], x) {
      forall i | 0 <= i < |s|
        ensures leq(s[i], x)
      {
        assert i < |s| - 1 ==> leq(s[i], s[|s| - 1]);
      }
    } else {
      var rest, last := s[..|s| - 1], s[|s| - 1];
      InsertSorts(rest, x, leq);
      var r := Insert(rest, x, leq);
      forall i | 0 <= i < |r|
        ensures leq(r[i], last)
      {
        assert r[i] in r;
        assert leq(x, last);
      }
    }
  }

  method Sort<T(!new)>(s: seq<T>, leq: (T, T) -> bool) returns (r: seq<T>)
    requires TotalOrder(leq)
    ensures Sorted(r, leq) && Permutation(s, r)
  {
    r := [];
    for i := 0 to |s|
      invariant Sorted(r, leq) && multiset(r) == multiset(s[..i])
    {
      InsertPermutes(r, s[i], leq);
      InsertSorts(r, s[i], leq);
      assert s[..i + 1] == s[..i] + [s[i]];
      hide Insert, Sorted, TotalOrder;
      r := Insert(r, s[i], leq);
    }
    assert s[..|s|] == s;
  }

  ghost predicate Antisymmetric<T(!new)>(leq: (T, T) -> bool) {
    forall x, y :: leq(x, y) && leq(y, x) ==> x == y
  }

  lemma LastIsGreatest<T(!new)>(s: seq<T>, leq: (T, T) -> bool, x: T)
    requires TotalOrder(leq) && Sorted(s, leq) && x in s
    ensures leq(x, s[|s| - 1])
  {
    var i :| 0 <= i < |s| && s[i] == x;
  }

  lemma DropLast<T>(s: seq<T>, t: seq<T>)
    requires s != [] && t != [] && multiset(s) == multiset(t) && s[|s| - 1] == t[|t| - 1]
    ensures multiset(s[..|s| - 1]) == multiset(t[..|t| - 1])
  {
    assert s == s[..|s| - 1] + [s[|s| - 1]] && t == t[..|t| - 1] + [t[|t| - 1]];
    assert multiset(s[..|s| - 1]) == multiset(s) - multiset{s[|s| - 1]};
    assert multiset(t[..|t| - 1]) == multiset(t) - multiset{t[|t| - 1]};
  }

  /** Under an order that tells all elements apart there is only one sorted permutation. */
  lemma {:induction false} SortedIsUnique<T(!new)>(s: seq<T>, t: seq<T>, leq: (T, T) -> bool)
    requires TotalOrder(leq) && Antisymmetric(leq) && Sorted(s, leq) && Sorted(t, leq) && Permutation(s, t)
    ensures s == t
  {
    if s == [] {
      assert |multiset(t)| == 0;
    } else {
      assert s[|s| - 1] in multiset(s) && t != [] && t[|t| - 1] in multiset(t);
      LastIsGreatest(s, leq, t[|t| - 1]);
      LastIsGreatest(t, leq, s[|s| - 1]);
      DropLast(s, t);
      SortedIsUnique(s[..|s| - 1], t[..|t| - 1], leq);
      assert s == s[..|s| - 1] + [s[|s| - 1]] && t == t[..|t| - 1] + [t[|t| - 1]];
    }
  }

  lemma {:induction false} SortedPermutation<T(!new)>(s: seq<T>, leq: (T, T) -> bool) returns (r: seq<T>)
    requires TotalOrder(leq)
    ensures Sorted(r, leq) && Permutation(s, r)
  {
    r := [];
    if s != [] {
      var x := s[|s| - 1];
      var rest := SortedPermutation(s[..|s| - 1], leq);
      assert s == s[..|s| - 1] + [x];
      InsertPermutes(rest, x, leq);
      InsertSorts(rest, x, leq);
      r := Insert(rest, x, leq);
    }
  }

  function Map<T, U>(s: seq<T>, f: T -> U): (r: seq<U>)
    ensures |r| == |s| && forall i :: 0 <= i < |s| ==> r[i] == f(s[i])
  {
    seq(|s|, i requires 0 <= i < |s| => f(s[i]))
  }

  lemma MapWithout<T, U>(t: seq<T>, j: nat, f: T -> U)
    requires j < |t|
    ensures multiset(t) == multiset(t[..j] + t[j + 1..]) + multiset{t[j]}
    ensures multiset(Map(t, f)) == multiset(Map(t[..j] + t[j + 1..], f)) + multiset{f(t[j])}
  {
    assert t == t[..j] + [t[j]] + t[j + 1..];
    var m := Map(t, f);
    assert m == m[..j] + [m[j]] + m[j + 1..];
    assert Map(t[..j] + t[j + 1..], f) == m[..j] + m[j + 1..];
  }

  /** Mapping two permutations gives two permutations. */
  lemma {:induction false} MapPermutes<T(!new), U>(s: seq<T>, t: seq<T>, f: T -> U)
    requires Permutation(s, t)
    ensures Permutation(Map(s, f), Map(t, f))
  {
    if s == [] {
      assert |multiset(t)| == 0;
    } else {
      var n := |s| - 1;
      assert s[n] in multiset(s) && s[n] in t;
      var j :| 0 <= j < |t| && t[j] == s[n];
      MapWithout(s, n, f);
      MapWithout(t, j, f);
      assert s[..n] + s[n + 1..] == s[..n];
      SameRemainder(s[..n], t[..j] + t[j + 1..], s[n]);
      MapPermutes(s[..n], t[..j] + t[j + 1..], f);
    }
  }

  lemma SameRemainder<T>(a: seq<T>, b: seq<T>, x: T)
    requires multiset(a) + multiset{x} == multiset(b) + multiset{x}
    ensures multiset(a) == multiset(b)
  {
    assert multiset(a) == multiset(a) + multiset{x} - multiset{x};
    assert multiset(b) == multiset(b) + multiset{x} - multiset{x};
  }
}
