/**
 The array heap of Go's container/heap, which the engine uses for topk and bottomk
 (pkg/promql/engine.go:2519-2553) through Less, Swap, Push and Pop (pkg/promql/functions.go:1162-1218).
 Only neighbours on a path to the root are in order, so the least element is on top but the
 rest is not sorted.
 */
module BinaryHeap {

  function Parent(i: nat): (p: nat)
    requires i > 0
    ensures p < i && (i == 2 * p + 1 || i == 2 * p + 2)
  {
    (i - 1) / 2
  }

  ghost predicate Above<T>(h: seq<T>, key: T -> real, p: nat, i: nat)
    requires p < |h| && i < |h|
  {
    key(h[p]) <= key(h[i])
  }

  ghost predicate Ordered<T>(h: seq<T>, key: T -> real) {
    forall i :: 0 < i < |h| ==> Above(h, key, Parent(i), i)
  }

  lemma {:induction false} TopIsLeast<T>(h: seq<T>, key: T -> real, i: nat)
    requires Ordered(h, key) && i < |h|
    ensures key(h[0]) <= key(h[i])
    decreases i
  {
    if i > 0 {
      TopIsLeast(h, key, Parent(i));
      assert Above(h, key, Parent(i), i);
    }
  }

  function Swap<T>(h: seq<T>, i: nat, j: nat): (r: seq<T>)
    requires i < |h| && j < |h|
    ensures |r| == |h| && multiset(r) == multiset(h)
  {
    h[i := h[j]][j := h[i]]
  }

  // ---------- Sifting up ----------

  /** The loop of `up`: a new element rises while it is less than its parent. */
  function Up<T>(h: seq<T>, j: nat, key: T -> real): (r: seq<T>)
    requires j < |h|
    ensures |r| == |h| && multiset(r) == multiset(h)
    decreases j
  {
    if j == 0 || !(key(h[j]) < key(h[Parent(j)])) then h else Up(Swap(h, Parent(j), j), Parent(j), key)
  }

  /** In order except that j may be less than its parent; its children are not. */
  ghost predicate OrderedBut<T>(h: seq<T>, j: nat, key: T -> real)
    requires j < |h|
  {
    && (forall i :: 0 < i < |h| && i != j ==> Above(h, key, Parent(i), i))
    && (forall i :: 0 < i < |h| && Parent(i) == j > 0 ==> Above(h, key, Parent(j), i))
  }

  lemma UpStep<T>(h: seq<T>, j: nat, key: T -> real)
    requires 0 < j < |h| && OrderedBut(h, j, key) && key(h[j]) < key(h[Parent(j)])
    ensures OrderedBut(Swap(h, Parent(j), j), Parent(j), key)
  {
    var p := Parent(j);
    var r := Swap(h, p, j);
    forall i | 0 < i < |r| && i != p
      ensures Above(r, key, Parent(i), i)
    {
      assert Above(h, key, Parent(i), i) || i == j;
      if Parent(i) == j {
        assert Above(h, key, p, i);
      }
    }
    forall i | 0 < i < |r| && Parent(i) == p > 0
      ensures Above(r, key, Parent(p), i)
    {
      assert Above(h, key, Parent(p), p);
      assert i == j || Above(h, key, p, i);
    }
  }

  lemma {:induction false} UpRestores<T>(h: seq<T>, j: nat, key: T -> real)
    requires j < |h| && OrderedBut(h, j, key)
    ensures Ordered(Up(h, j, key), key)
    decreases j
  {
    if !(j == 0 || !(key(h[j]) < key(h[Parent(j)]))) {
      UpStep(h, j, key);
      UpRestores(Swap(h, Parent(j), j), Parent(j), key);
    }
  }

  /** heap.Push. */
  function Push<T>(h: seq<T>, x: T, key: T -> real): seq<T> {
    Up(h + [x], |h|, key)
  }

  lemma PushKeepsOrder<T>(h: seq<T>, x: T, key: T -> real)
    requires Ordered(h, key)
    ensures var r := Push(h, x, key); Ordered(r, key) && |r| == |h| + 1 && multiset(r) == multiset(h) + multiset{x}
  {
    var s := h + [x];
    forall i | 0 < i < |s| && i != |h|
      ensures Above(s, key, Parent(i), i)
    {
      assert Above(h, key, Parent(i), i);
    }
    UpRestores(s, |h|, key);
  }

  // ---------- Sifting down ----------

  /** The lesser child of i, the left one if they are equal. */
  function Child<T>(h: seq<T>, i: nat, key: T -> real): (c: nat)
    requires 2 * i + 1 < |h|
    ensures i < c < |h| && Parent(c) == i
    ensures forall d :: 0 < d < |h| && Parent(d) == i ==> key(h[c]) <= key(h[d])
  {
    var c := 2 * i + 1;
    if c + 1 < |h| && key(h[c + 1]) < key(h[c]) then c + 1 else c
  }

  /** The loop of `down`: an element sinks while its lesser child is less than it. */
  function Down<T>(h: seq<T>, i: nat, key: T -> real): (r: seq<T>)
    requires i <= |h|
    ensures |r| == |h| && multiset(r) == multiset(h)
    decreases |h| - i
  {
    if 2 * i + 1 >= |h| || !(key(h[Child(h, i, key)]) < key(h[i])) then h
    else Down(Swap(h, i, Child(h, i, key)), Child(h, i, key), key)
  }

  /** In order except that i may be greater than its children; its parent is not. */
  ghost predicate OrderedBelow<T>(h: seq<T>, i: nat, key: T -> real) {
    && (forall c :: 0 < c < |h| && Parent(c) != i ==> Above(h, key, Parent(c), c))
    && (forall c :: 0 < c < |h| && Parent(c) == i > 0 ==> Above(h, key, Parent(i), c))
  }

  lemma DownStep<T>(h: seq<T>, i: nat, key: T -> real)
    requires 2 * i + 1 < |h| && OrderedBelow(h, i, key) && key(h[Child(h, i, key)]) < key(h[i])
    ensures OrderedBelow(Swap(h, i, Child(h, i, key)), Child(h, i, key), key)
  {
    var c := Child(h, i, key);
    var r := Swap(h, i, c);
    forall d | 0 < d < |r| && Parent(d) != c
      ensures Above(r, key, Parent(d), d)
    {
      assert Parent(d) == i || Above(h, key, Parent(d), d);
      if d == i {
        assert Above(h, key, Parent(i), c);
      }
    }
    forall d | 0 < d < |r| && Parent(d) == c
      ensures Above(r, key, i, d)
    {
      assert Above(h, key, c, d);
    }
  }

  lemma {:induction false} DownRestores<T>(h: seq<T>, i: nat, key: T -> real)
    requires i <= |h| && OrderedBelow(h, i, key)
    ensures Ordered(Down(h, i, key), key)
    decreases |h| - i
  {
    if 2 * i + 1 < |h| && key(h[Child(h, i, key)]) < key(h[i]) {
      DownStep(h, i, key);
      DownRestores(Swap(h, i, Child(h, i, key)), Child(h, i, key), key);
    } else {
      forall d | 0 < d < |h|
        ensures Above(h, key, Parent(d), d)
      {
        if Parent(d) == i {
          assert key(h[Child(h, i, key)]) <= key(h[d]);
        }
      }
    }
  }

  /** heap.Pop, without the element that it returns: the last element takes the place of the first. */
  function Pop<T>(h: seq<T>, key: T -> real): seq<T> {
    if h == [] then [] else Down(Moved(h), 0, key)
  }

  /** The heap without its first element and with the last in its place: in order but for the top. */
  function Moved<T>(h: seq<T>): seq<T>
    requires h != []
  {
    Swap(h, 0, |h| - 1)[..|h| - 1]
  }

  lemma MovedIsOrdered<T>(h: seq<T>, key: T -> real)
    requires h != [] && Ordered(h, key)
    ensures OrderedBelow(Moved(h), 0, key)
  {
    var s := Moved(h);
    forall c | 0 < c < |s| && Parent(c) != 0
      ensures Above(s, key, Parent(c), c)
    {
      assert Above(h, key, Parent(c), c);
      assert s[c] == h[c] && s[Parent(c)] == h[Parent(c)];
    }
  }

  lemma MovedElements<T>(h: seq<T>)
    requires h != []
    ensures |Moved(h)| == |h| - 1 && multiset(h) == multiset(Moved(h)) + multiset{h[0]}
  {
    var s := Swap(h, 0, |h| - 1);
    assert s == s[..|h| - 1] + [h[0]];
  }

  lemma PopKeepsOrder<T>(h: seq<T>, key: T -> real)
    requires h != [] && Ordered(h, key)
    ensures var r := Pop(h, key); Ordered(r, key) && |r| == |h| - 1 && multiset(h) == multiset(r) + multiset{h[0]}
  {
    hide Ordered, OrderedBelow, Moved, Swap, Down;
    MovedIsOrdered(h, key);
    MovedElements(h);
    DownRestores(Moved(h), 0, key);
  }
}
