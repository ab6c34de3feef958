/**
 The CLOCK cache (pkg/clockcache/cache.go): a map of pointers into a ring of elements. It is
 proved to be a plain map that forgets: `Contents` is what a plain map holds after the stores,
 evictions and resets the cache went through, which the ghost field `history` records.
 */
module ClockCache {
  import opened Arith
  import opened ClockEviction

  datatype Element<K, V> = Element(key: K, value: V, usedWithTs: uint32, size: uint64)

  // ---------- The plain map ----------

  datatype Event<K, V> = Stored(key: K, value: V) | Evicted(key: K) | Cleared

  function Apply<K, V>(m: map<K, V>, e: Event<K, V>): map<K, V> {
    match e
    case Stored(k, v) => m[k := v]
    case Evicted(k) => m - {k}
    case Cleared => map[]
  }

  function Replay<K, V>(h: seq<Event<K, V>>): map<K, V> {
    if h == [] then map[] else Apply(Replay(h[..|h| - 1]), h[|h| - 1])
  }

  /** The event ends what was stored for `k` before it. */
  predicate Overwrites<K(==), V>(e: Event<K, V>, k: K) {
    e.Cleared? || e.key == k
  }

  /** A plain map holds, for each of its keys, the value last stored since the key was admitted. */
  lemma {:induction false} ReplayIsLastStore<K, V>(h: seq<Event<K, V>>, k: K) returns (i: int)
    ensures k in Replay(h) ==> 0 <= i < |h| && h[i] == Stored(k, Replay(h)[k])
    ensures k !in Replay(h) ==> i == -1 || (0 <= i < |h| && Overwrites(h[i], k) && !h[i].Stored?)
    ensures forall j :: i < j < |h| ==> !Overwrites(h[j], k)
    decreases h
  {
    if h == [] {
      i := -1;
    } else if Overwrites(h[|h| - 1], k) {
      i := |h| - 1;
    } else {
      i := ReplayIsLastStore(h[..|h| - 1], k);
    }
  }

  lemma ReplayTwo<K, V>(h: seq<Event<K, V>>, a: Event<K, V>, b: Event<K, V>)
    ensures Replay(h + [a, b]) == Apply(Apply(Replay(h), a), b)
    ensures Replay(h + [a]) == Apply(Replay(h), a)
  {
    assert (h + [a, b])[..|h| + 1] == h + [a] && (h + [a])[..|h|] == h;
  }

  /** One insertion into a map that holds at most `cap` keys. */
  ghost predicate InsertStep<K, V>(m: map<K, V>, cap: nat, k: K, v: V, m': map<K, V>, canonical: V, inCache: bool) {
    if k in m then m' == m && canonical == m[k] && inCache
    else if |m| < cap then m' == m[k := v] && canonical == v && inCache
    else
      && canonical == v
      && (inCache ==> exists victim :: victim in m && m' == (m - {victim})[k := v])
      && (!inCache ==> m' == m)
  }

  /** The events of that insertion. */
  ghost predicate InsertEvents<K, V>(h: seq<Event<K, V>>, m: map<K, V>, cap: nat, k: K, v: V, h': seq<Event<K, V>>,
                                     inCache: bool)
  {
    if k in m || !inCache then h' == h
    else if |m| < cap then h' == h + [Stored(k, v)]
    else exists victim :: victim in m && h' == h + [Evicted(victim), Stored(k, v)]
  }

  // ---------- Sizes ----------

  function TotalSize<K, V>(s: seq<Element<K, V>>): nat {
    if s == [] then 0 else TotalSize(s[..|s| - 1]) + s[|s| - 1].size
  }

  lemma {:induction false} TotalSizeUpdate<K, V>(s: seq<Element<K, V>>, i: nat, e: Element<K, V>)
    requires i < |s|
    ensures TotalSize(s[i := e]) == TotalSize(s) - s[i].size + e.size
    decreases s
  {
    var n := |s| - 1;
    if i < n {
      TotalSizeUpdate(s[..n], i, e);
      assert s[i := e][..n] == s[..n][i := e];
    } else {
      assert s[i := e][..n] == s[..n];
    }
  }

  /** How far a recorded size is ahead of the sizes it should sum up, modulo 2^64. */
  function Ahead(dataSize: uint64, total: nat): uint64 {
    (dataSize - total) % TWO64
  }

  lemma AheadIsZeroIff(dataSize: uint64, total: nat)
    ensures Ahead(dataSize, total) == 0 <==> dataSize == total % TWO64
  {
  }

  /** Taking a size away and adding another, with wrap-around at each step. */
  lemma AheadStays(dataSize: uint64, total: nat, gone: uint64, new_: uint64)
    requires gone <= total
    ensures Ahead(((dataSize - gone) % TWO64 + new_) % TWO64, total - gone + new_) == Ahead(dataSize, total)
    ensures Ahead((dataSize + new_) % TWO64, total + new_) == Ahead(dataSize, total)
  {
  }

  /** Different sizes below 2^64 make a difference below 2^64. */
  lemma OffByLess(total: nat, gone: uint64, new_: uint64)
    requires gone <= total
    ensures total % TWO64 == (total - gone + new_) % TWO64 <==> gone == new_
  {
  }

  /** Sizes that change while the recorded size stays. */
  lemma AheadMoves(dataSize: uint64, total: nat, total': nat)
    ensures Ahead(dataSize, total') == (Ahead(dataSize, total) + total - total') % TWO64
  {
  }

  lemma {:induction false} TotalSizeSame<K, V>(s: seq<Element<K, V>>, t: seq<Element<K, V>>)
    requires |s| == |t| && forall i :: 0 <= i < |s| ==> s[i].size == t[i].size
    ensures TotalSize(s) == TotalSize(t)
    decreases s
  {
    if s != [] {
      TotalSizeSame(s[..|s| - 1], t[..|t| - 1]);
    }
  }

  lemma {:induction false} TotalSizeZeroIff<K, V>(s: seq<Element<K, V>>)
    ensures TotalSize(s) == 0 <==> forall i :: 0 <= i < |s| ==> s[i].size == 0
    decreases s
  {
    if s != [] {
      TotalSizeZeroIff(s[..|s| - 1]);
    }
  }

  lemma {:induction false} TotalSizeAtLeast<K, V>(s: seq<Element<K, V>>, i: nat)
    requires i < |s|
    ensures s[i].size <= TotalSize(s)
    decreases s
  {
    if i < |s| - 1 {
      TotalSizeAtLeast(s[..|s| - 1], i);
    }
  }

  function Words<K, V>(s: seq<Element<K, V>>): (w: seq<uint32>)
    ensures |w| == |s|
  {
    seq(|s|, i requires 0 <= i < |s| => s[i].usedWithTs)
  }

  /**
   A word after its element was used at time `now`: it is marked, and it carries that time unless it
   was marked already.
   */
  predicate Refreshed(before: uint32, after: uint32, now: int32) {
    && after >= 0x8000_0000
    && after == if before >= 0x8000_0000 then before else 0x8000_0000 + now % 0x8000_0000
  }

  /** The element at i was used, and no other. */
  predicate OnlyRefreshed<K, V>(s: seq<Element<K, V>>, t: seq<Element<K, V>>, i: nat, now: int32) {
    && i < |s| == |t|
    && Refreshed(s[i].usedWithTs, t[i].usedWithTs, now)
    && forall j :: 0 <= j < |s| && j != i ==> t[j].usedWithTs == s[j].usedWithTs
  }

  /** The elements of the given keys were used, and no others. */
  ghost predicate UsedSince<K, V>(s: seq<Element<K, V>>, t: seq<Element<K, V>>, keys: seq<K>, now: int32) {
    |s| == |t| &&
    forall j :: 0 <= j < |s| ==>
        if s[j].key in keys then Refreshed(s[j].usedWithTs, t[j].usedWithTs, now)
        else t[j].usedWithTs == s[j].usedWithTs
  }

  lemma OneMoreUse<K, V>(elements: map<K, nat>, s: seq<Element<K, V>>, t: seq<Element<K, V>>, u: seq<Element<K, V>>,
                         keys: seq<K>, k: K, now: int32)
    requires Bijection(elements, t) && k in elements && SameButMarks(t, s)
    requires UsedSince(s, t, keys, now) && OnlyRefreshed(t, u, elements[k], now)
    ensures UsedSince(s, u, keys + [k], now)
  {
    forall j | 0 <= j < |s|
      ensures if s[j].key in keys + [k] then Refreshed(s[j].usedWithTs, u[j].usedWithTs, now)
              else u[j].usedWithTs == s[j].usedWithTs
    {
      assert s[j].key in keys + [k] <==> s[j].key in keys || j == elements[k];
    }
  }

  /** Keys that are not there make no difference. */
  lemma UseOfAbsentKeys<K, V>(elements: map<K, nat>, s: seq<Element<K, V>>, t: seq<Element<K, V>>, keys: seq<K>,
                              all: seq<K>, now: int32)
    requires Bijection(elements, s) && UsedSince(s, t, keys, now)
    requires forall k :: k in elements ==> (k in keys <==> k in all)
    ensures UsedSince(s, t, all, now)
  {
  }

  /** The same elements up to their marks. */
  predicate SameButMarks<K(==), V(==)>(s: seq<Element<K, V>>, t: seq<Element<K, V>>) {
    |s| == |t| &&
    forall i :: 0 <= i < |s| ==> s[i].key == t[i].key && s[i].value == t[i].value && s[i].size == t[i].size
  }

  lemma SameButMarksTrans<K, V>(s: seq<Element<K, V>>, t: seq<Element<K, V>>, u: seq<Element<K, V>>)
    requires SameButMarks(s, t) && SameButMarks(t, u)
    ensures SameButMarks(s, u)
  {
  }

  // ---------- The map of pointers and the ring ----------

  /** Map and ring point at each other. */
  ghost predicate Bijection<K, V>(elements: map<K, nat>, storage: seq<Element<K, V>>) {
    && (forall k :: k in elements ==> elements[k] < |storage| && storage[elements[k]].key == k)
    && (forall i :: 0 <= i < |storage| ==> storage[i].key in elements && elements[storage[i].key] == i)
  }

  ghost function ContentsOf<K, V>(elements: map<K, nat>, storage: seq<Element<K, V>>): map<K, V>
    requires Bijection(elements, storage)
  {
    map k | k in elements :: storage[elements[k]].value
  }

  lemma BijectionEmpty<K, V>()
    ensures Bijection<K, V>(map[], []) && ContentsOf<K, V>(map[], []) == map[] && TotalSize<K, V>([]) == 0
  {
  }

  /** There are as many keys as elements. */
  lemma {:induction false} BijectionSize<K, V>(elements: map<K, nat>, storage: seq<Element<K, V>>)
    requires Bijection(elements, storage)
    ensures |ContentsOf(elements, storage)| == |storage|
    decreases storage
  {
    var m := ContentsOf(elements, storage);
    if storage == [] {
      assert m == map[];
    } else {
      var n := |storage| - 1;
      var k := storage[n].key;
      BijectionSize(elements - {k}, storage[..n]);
      assert m == ContentsOf(elements - {k}, storage[..n])[k := storage[n].value];
    }
  }

  lemma BijectionMarks<K, V>(elements: map<K, nat>, s: seq<Element<K, V>>, t: seq<Element<K, V>>)
    requires Bijection(elements, s) && SameButMarks(t, s)
    ensures Bijection(elements, t) && ContentsOf(elements, t) == ContentsOf(elements, s)
  {
  }

  lemma BijectionSizes<K, V>(elements: map<K, nat>, s: seq<Element<K, V>>, t: seq<Element<K, V>>)
    requires Bijection(elements, s) && |s| == |t| && forall i :: 0 <= i < |s| ==> t[i] == s[i].(size := 0)
    ensures Bijection(elements, t) && ContentsOf(elements, t) == ContentsOf(elements, s)
  {
  }

  lemma BijectionAppend<K, V>(elements: map<K, nat>, storage: seq<Element<K, V>>, e: Element<K, V>)
    requires Bijection(elements, storage) && e.key !in elements
    ensures var elements', storage' := elements[e.key := |storage|], storage + [e];
            && Bijection(elements', storage')
            && ContentsOf(elements', storage') == ContentsOf(elements, storage)[e.key := e.value]
  {
  }

  lemma BijectionReplace<K, V>(elements: map<K, nat>, storage: seq<Element<K, V>>, j: nat, e: Element<K, V>)
    requires Bijection(elements, storage) && j < |storage| && e.key !in elements
    ensures var victim := storage[j].key;
            var elements', storage' := (elements - {victim})[e.key := j], storage[j := e];
            && victim in elements && victim in ContentsOf(elements, storage) && Bijection(elements', storage')
            && ContentsOf(elements', storage') == (ContentsOf(elements, storage) - {victim})[e.key := e.value]
  {
  }

  lemma BijectionStore<K, V>(elements: map<K, nat>, storage: seq<Element<K, V>>, k: K, v: V, size: uint64)
    requires Bijection(elements, storage) && k in elements
    ensures var storage' := storage[elements[k] := storage[elements[k]].(value := v, size := size)];
            && Bijection(elements, storage')
            && ContentsOf(elements, storage') == ContentsOf(elements, storage)[k := v]
  {
  }

  function Later(a: int32, b: int32): int32 {
    if a < b then b else a
  }

  /** The timestamp that the victim shows when it is replaced: readers may mark it after it was found. */
  function SeenLast(words: seq<uint32>, start: nat, sched: Schedule, probes: nat, i: nat): int32 {
    if i < |words| then ExtractTimestamp(Marked(After(words, start, sched, probes), sched.after)[i]) else 0
  }

  /** The outcome of an eviction, and what it does to the latest eviction time. */
  ghost predicate Displaced(words: seq<uint32>, start: nat, sched: Schedule, victim: Option<nat>, probes: nat,
                            before: int32, after: int32)
  {
    && Outcome(words, start, sched, victim, probes)
    && (victim.Some? ==> after == Later(before, SeenLast(words, start, sched, probes, victim.value)))
  }

  method Swap<K>(a: array<K>, i: nat, j: nat)
    requires i <= j < a.Length
    modifies a
    ensures a[i] == old(a[j]) && a[j] == old(a[i])
    ensures forall k :: 0 <= k < a.Length && k != i && k != j ==> a[k] == old(a[k])
    ensures multiset(a[..]) == old(multiset(a[..]))
  {
    a[i], a[j] := a[j], a[i];
  }

  // ---------- The cache ----------

  class Cache<K(==), V(==)> {
    var elements: map<K, nat>  // the pointers into storage, as indices
    var storage: seq<Element<K, V>>
    var capacity: nat
    var dataSize: uint64
    var evictions: uint64
    var maxEvictionTs: int32
    var next: nat
    ghost var history: seq<Event<K, V>>

    ghost function Contents(): map<K, V>
      reads this
      requires Bijection(elements, storage)
    {
      ContentsOf(elements, storage)
    }

    ghost predicate Valid()
      reads this
    {
      && Bijection(elements, storage)
      && |storage| <= capacity
      && (next < |storage| || next == 0)
      && Contents() == Replay(history)
      && maxEvictionTs >= 0
    }

    /** How far dataSize is ahead of the sizes in storage. */
    ghost function Excess(): uint64
      reads this
    {
      Ahead(dataSize, TotalSize(storage))
    }

    /** SizeBytes reports the size of what is stored (cache.go:363-369). */
    ghost predicate InStep()
      reads this
    {
      dataSize == TotalSize(storage) % TWO64
    }

    constructor WithMax(max: nat)
      ensures Valid() && Contents() == map[] && capacity == max && InStep() && history == []
    {
      elements, storage, capacity := map[], [], max;
      dataSize, evictions, maxEvictionTs, next := 0, 0, 0, 0;
      history := [];
    }

    /** The ring has at most `capacity` elements with distinct keys. */
    lemma NeverOverfull()
      requires Valid()
      ensures |Contents()| == |storage| <= capacity
      ensures forall i, j :: 0 <= i < j < |storage| ==> storage[i].key != storage[j].key
    {
      BijectionSize(elements, storage);
    }

    lemma KeysOfContents()
      requires Valid()
      ensures Contents().Keys == elements.Keys
    {
    }

    lemma PointsAt(key: K)
      requires Valid() && key in elements
      ensures elements[key] < |storage| && key in Contents() && Contents()[key] == storage[elements[key]].value
    {
    }

    /** Changing marks changes nothing a user of the cache sees. */
    twostate lemma MarksDoNotMatter()
      requires old(Valid()) && SameButMarks(storage, old(storage))
      requires unchanged(this`elements, this`capacity, this`dataSize, this`maxEvictionTs, this`history)
      requires next < |storage| || next == 0
      ensures Valid() && Contents() == old(Contents()) && Excess() == old(Excess())
    {
      TotalSizeSame(storage, old(storage));
      BijectionMarks(elements, old(storage), storage);
    }

    method SetWord(i: nat, w: uint32)
      requires Valid() && i < |storage|
      modifies this`storage
      ensures Valid() && Contents() == old(Contents())
      ensures SameButMarks(storage, old(storage)) && Words(storage) == Words(old(storage))[i := w]
    {
      storage := storage[i := storage[i].(usedWithTs := w)];
      MarksDoNotMatter();
    }

    /** The mark a reader makes (cache.go:263-265). */
    method MarkUsed(i: nat, now: int32)
      requires Valid() && i < |storage|
      modifies this`storage
      ensures Valid() && Contents() == old(Contents()) && SameButMarks(storage, old(storage))
      ensures Words(storage) == Words(old(storage))[i := if ExtractUsed(old(storage)[i].usedWithTs)
                then old(storage)[i].usedWithTs else PackUsedAndTimestamp(true, now)]
      ensures OnlyRefreshed(old(storage), storage, i, now)
    {
      ghost var before := storage;
      if !ExtractUsed(storage[i].usedWithTs) {
        SetWord(i, PackUsedAndTimestamp(true, now));
      }
      WordIsBitAndTimestamp(before[i].usedWithTs, now);
      assert forall j :: 0 <= j < |storage| ==> storage[j].usedWithTs == Words(storage)[j];
    }

    /** Concurrent readers at work. */
    method Readers(marks: seq<Mark>)
      requires Valid()
      modifies this`storage
      ensures Valid() && Contents() == old(Contents())
      ensures SameButMarks(storage, old(storage)) && Words(storage) == Marked(Words(old(storage)), marks)
      decreases marks
    {
      if marks != [] {
        if marks[0].index < |storage| {
          SetWord(marks[0].index, marks[0].word);
        }
        Readers(marks[1..]);
      }
    }

    /** One probe: a load and a swap, with readers before and in between (cache.go:179). */
    method Probe(i: nat, ghost start: nat, sched: Schedule, p: nat, ghost words: seq<uint32>) returns (old_: uint32)
      requires Valid() && i < |storage| == |words| && i == Ring(start, p, |words|)
      requires Words(storage) == After(words, start, sched, p)
      modifies this`storage
      ensures Valid() && Contents() == old(Contents()) && SameButMarks(storage, old(storage))
      ensures old_ == Seen(words, start, sched, p) && Words(storage) == After(words, start, sched, p + 1)
    {
      Readers(sched.before(p));
      var loaded := storage[i].usedWithTs;
      assert loaded == Words(storage)[i];
      Readers(sched.between(p));
      old_ := storage[i].usedWithTs;
      assert old_ == Words(storage)[i];
      SetWord(i, SetUsed(false, loaded));
    }

    /** One of the two inner loops of evict: elements lo to hi, the first of them with probe number p. */
    method Sweep(lo: nat, hi: nat, ghost start: nat, sched: Schedule, p: nat, ghost words: seq<uint32>)
      returns (found: Option<nat>)
      requires Valid() && lo <= hi <= |storage| == |words|
      requires forall q :: p <= q < p + (hi - lo) ==> Ring(start, q, |words|) == lo + (q - p)
      requires |words| > 0 ==> Words(storage) == After(words, start, sched, p)
      modifies this`storage
      ensures Valid() && Contents() == old(Contents()) && SameButMarks(storage, old(storage))
      ensures found.Some? ==> found.value < hi - lo
      ensures var m := if found.Some? then found.value else hi - lo;
              && (forall q :: p <= q < p + m ==> ExtractUsed(Seen(words, start, sched, q)))
              && (found.Some? ==> !ExtractUsed(Seen(words, start, sched, p + m)))
              && (|words| > 0 ==>
                    Words(storage) == After(words, start, sched, if found.Some? then p + m + 1 else p + m))
    {
      hide After, Seen, Ring;
      for k := 0 to hi - lo
        invariant Valid() && Contents() == old(Contents()) && SameButMarks(storage, old(storage))
        invariant |words| > 0 ==> Words(storage) == After(words, start, sched, p + k)
        invariant forall q :: p <= q < p + k ==> ExtractUsed(Seen(words, start, sched, q))
      {
        var w := Probe(lo + k, start, sched, p + k, words);
        if !ExtractUsed(w) {
          return Some(k);
        }
      }
      return None;
    }

    /** One round of evict: from `next` to the end of the ring, then up to `next` (cache.go:177-200). */
    method Walk(sched: Schedule, p: nat, ghost round: nat, ghost words: seq<uint32>)
      returns (victim: Option<nat>, ghost probes: nat)
      requires Valid() && 0 < |storage| == |words| && p == |words| * round
      requires Words(storage) == After(words, next, sched, p)
      modifies this`storage, this`next
      ensures Valid() && Contents() == old(Contents()) && SameButMarks(storage, old(storage))
      ensures Words(storage) == After(words, old(next), sched, probes)
      ensures var n := |words|;
              && p <= probes <= p + n
              && (victim.None? ==> probes == p + n && next == old(next))
              && (victim.Some? ==>
                    && probes > p && victim.value == Ring(old(next), probes - 1, n) && next == (victim.value + 1) % n
                    && !ExtractUsed(Seen(words, old(next), sched, probes - 1)))
              && AllMarked(words, old(next), sched, p, if victim.Some? then probes - 1 else probes)
    {
      hide After, Seen, Replay, TotalSize, Bijection, ContentsOf;
      var start, n := next, |storage|;
      forall q | p <= q < p + (n - start) ensures Ring(start, q, n) == start + (q - p) {
        DivModUnique(start + q, n, round, start + (q - p));
      }
      var found := Sweep(start, n, start, sched, p, words);
      if found.Some? {
        next := (start + found.value + 1) % n;
        MarksDoNotMatter();
        return Some(start + found.value), p + found.value + 1;
      }
      var p' := p + (n - start);
      forall q | p' <= q < p' + start ensures Ring(start, q, n) == q - p' {
        DivModUnique(start + q, n, round + 1, q - p');
      }
      found := Sweep(0, start, start, sched, p', words);
      if found.Some? {
        next := found.value + 1;
        DivModUnique(found.value + 1, n, 0, found.value + 1);
        MarksDoNotMatter();
        return Some(found.value), p' + found.value + 1;
      }
      return None, p + n;
    }

    /** evict (cache.go:159-204): at most two rounds. */
    method Evict(sched: Schedule) returns (victim: Option<nat>, ghost probes: nat)
      requires Valid()
      modifies this`storage, this`next
      ensures Valid() && Contents() == old(Contents()) && SameButMarks(storage, old(storage))
      ensures Outcome(Words(old(storage)), old(next), sched, victim, probes)
      ensures |storage| > 0 ==> Words(storage) == After(Words(old(storage)), old(next), sched, probes)
      ensures victim.Some? ==> victim.value < |storage| && next == (victim.value + 1) % |storage|
      ensures victim.None? ==> next == old(next)
    {
      ghost var words := Words(storage);
      if |storage| == 0 {
        return None, 0;
      }
      assert After(words, next, sched, 0) == words;
      hide After, Seen, Replay, TotalSize, Ring, Bijection, ContentsOf, Words, ExtractUsed, AllMarked, SameButMarks;
      victim, probes := Walk(sched, 0, 0, words);
      if victim.None? {
        ghost var s := storage;
        victim, probes := Walk(sched, |storage|, 1, words);
        SameButMarksTrans(storage, s, old(storage));
        AllMarkedJoin(words, old(next), sched, |storage|, if victim.Some? then probes - 1 else probes);
      }
    }

    /** Readers are at work until the lock is taken to replace the victim (cache.go:115-119). */
    method MakeRoom(sched: Schedule) returns (victim: Option<nat>, ghost probes: nat)
      requires Valid()
      modifies this`storage, this`next
      ensures Valid() && Contents() == old(Contents()) && SameButMarks(storage, old(storage)) &&
          Excess() == old(Excess())
      ensures Outcome(Words(old(storage)), old(next), sched, victim, probes)
      ensures victim.Some? ==> victim.value < |storage| && next == (victim.value + 1) % |storage|
      ensures victim.None? ==> next == old(next)
      ensures victim.Some? ==>
        ExtractTimestamp(storage[victim.value].usedWithTs) ==
        SeenLast(Words(old(storage)), old(next), sched, probes, victim.value)
    {
      hide Replay, TotalSize, Outcome, Bijection, ContentsOf, Ahead, After, Marked, ExtractTimestamp;
      victim, probes := Evict(sched);
      ghost var walked := storage;
      Readers(sched.after);
      SameButMarksTrans(storage, walked, old(storage));
      MarksDoNotMatter();
      if victim.Some? {
        assert storage[victim.value].usedWithTs == Words(storage)[victim.value];
      }
    }

    /** The new element takes a free place at the end of the ring (cache.go:131-138). */
    method Append(e: Element<K, V>)
      requires Valid() && |storage| < capacity && e.key !in elements
      modifies this
      ensures Valid() && capacity == old(capacity) && Excess() == old(Excess()) && next == old(next)
      ensures storage == old(storage) + [e] && elements == old(elements)[e.key := |old(storage)|]
      ensures Contents() == old(Contents())[e.key := e.value]
      ensures history == old(history) + [Stored(e.key, e.value)]
      ensures evictions == old(evictions) && maxEvictionTs == old(maxEvictionTs)
    {
      ReplayTwo(history, Stored(e.key, e.value), Cleared);
      BijectionAppend(elements, storage, e);
      assert (storage + [e])[..|storage|] == storage;
      assert TotalSize(storage + [e]) == TotalSize(storage) + e.size;
      AheadStays(dataSize, TotalSize(storage), 0, e.size);
      hide Ahead;
      hide Replay, Bijection, ContentsOf, TotalSize;
      storage := storage + [e];
      dataSize := (dataSize + e.size) % TWO64;
      elements := elements[e.key := |storage| - 1];
      history := history + [Stored(e.key, e.value)];
    }

    /** The new element replaces the victim (cache.go:119-129, 138). */
    method Replace(j: nat, e: Element<K, V>)
      requires Valid() && j < |storage| && e.key !in elements
      modifies this
      ensures Valid() && capacity == old(capacity) && Excess() == old(Excess()) && next == old(next)
      ensures var victim := old(storage)[j].key;
              && victim in old(Contents()) && storage == old(storage)[j := e]
              && elements == (old(elements) - {victim})[e.key := j]
              && Contents() == (old(Contents()) - {victim})[e.key := e.value]
              && history == old(history) + [Evicted(victim), Stored(e.key, e.value)]
      ensures evictions == (old(evictions) + 1) % TWO64
      ensures maxEvictionTs == Later(old(maxEvictionTs), ExtractTimestamp(old(storage)[j].usedWithTs))
    {
      hide Replay, Bijection, ContentsOf, TotalSize, ExtractTimestamp, Ahead;
      var gone := storage[j];
      ReplayTwo(history, Evicted(gone.key), Stored(e.key, e.value));
      TotalSizeUpdate(storage, j, e);
      BijectionReplace(elements, storage, j, e);
      TotalSizeAtLeast(storage, j);
      AheadStays(dataSize, TotalSize(storage), gone.size, e.size);
      elements := (elements - {gone.key})[e.key := j];
      dataSize := ((dataSize - gone.size) % TWO64 + e.size) % TWO64;
      evictions := (evictions + 1) % TWO64;
      if maxEvictionTs < ExtractTimestamp(gone.usedWithTs) {
        maxEvictionTs := ExtractTimestamp(gone.usedWithTs);
      }
      storage := storage[j := e];
      history := history + [Evicted(gone.key), Stored(e.key, e.value)];
    }

    /** A full cache: the new element takes the place of a victim, if there is one (cache.go:112-129). */
    method Displace(e: Element<K, V>, sched: Schedule) returns (victim: Option<nat>, ghost probes: nat)
      requires Valid() && e.key !in elements
      modifies this
      ensures Valid() && capacity == old(capacity) && Excess() == old(Excess()) && |storage| == |old(storage)|
      ensures Displaced(Words(old(storage)), old(next), sched, victim, probes, old(maxEvictionTs), maxEvictionTs)
      ensures victim.None? ==>
                && Contents() == old(Contents()) && elements == old(elements) && history == old(history)
                && next == old(next)
      ensures victim.Some? ==>
                && victim.value < |storage| && storage[victim.value] == e
                && next == (victim.value + 1) % |storage|
                && e.key in elements && elements[e.key] == victim.value
      ensures victim.Some? ==>
                var gone := old(storage)[victim.value].key;
                && gone in old(Contents())
                && Contents() == (old(Contents()) - {gone})[e.key := e.value]
                && history == old(history) + [Evicted(gone), Stored(e.key, e.value)]
    {
      hide Replay, TotalSize, Outcome, Ahead, SeenLast, ExtractTimestamp, Bijection, ContentsOf;
      victim, probes := MakeRoom(sched);
      if victim.Some? {
        Replace(victim.value, e);
      }
    }

    /** insert (cache.go:102-140). */
    method InsertElement(key: K, value: V, size: uint64, now: int32, sched: Schedule)
      returns (index: nat, canonical: V, inserted: bool, inCache: bool)
      requires Valid()
      modifies this
      ensures Valid() && capacity == old(capacity) && Excess() == old(Excess())
      ensures InsertStep(old(Contents()), capacity, key, value, Contents(), canonical, inCache)
      ensures InsertEvents(old(history), old(Contents()), capacity, key, value, history, inCache)
      ensures inserted <==> key !in old(Contents()) && key in Contents()
      ensures inCache <==> key in Contents()
      ensures inCache ==> index < |storage| && elements[key] == index && storage[index].value == canonical
      ensures key in old(elements) ==>
                && SameButMarks(storage, old(storage)) && elements == old(elements)
                && OnlyRefreshed(old(storage), storage, index, now)
      ensures next == if inserted && |old(storage)| >= capacity then (index + 1) % |storage| else old(next)
      ensures inserted && |old(storage)| >= capacity ==>
                && index < |old(storage)| && |storage| == |old(storage)|
                && Contents() == (old(Contents()) - {old(storage)[index].key})[key := value]
      ensures inserted && |old(storage)| < capacity ==> index == |old(storage)| && storage[..index] == old(storage)
      ensures inserted ==> storage[index] == Element(key, value, PackUsedAndTimestamp(false, now), size)
      ensures key !in old(elements) && |old(storage)| >= capacity ==>
                var victim := if inserted then Some(index) else None;
                exists probes ::
                  Displaced(Words(old(storage)), old(next), sched, victim, probes, old(maxEvictionTs), maxEvictionTs)
    {
      hide Replay, TotalSize, Outcome, PackUsedAndTimestamp, Ahead, SeenLast, ExtractTimestamp, OnlyRefreshed;
      hide Bijection, ContentsOf;
      NeverOverfull();
      KeysOfContents();
      if key in elements {
        index := elements[key];
        PointsAt(key);
        MarkUsed(index, now);
        MarksDoNotMatter();
        PointsAt(key);
        return index, storage[index].value, false, true;
      }
      var e := Element(key, value, PackUsedAndTimestamp(false, now), size);
      if |storage| >= capacity {
        var victim, probes := Displace(e, sched);
        if victim.None? {
          return 0, value, false, false;
        }
        return victim.value, value, true, true;
      }
      Append(e);
      return |storage| - 1, value, true, true;
    }

    method Insert(key: K, value: V, size: uint64, now: int32, sched: Schedule) returns (canonical: V, inCache: bool)
      requires Valid()
      modifies this
      ensures Valid() && capacity == old(capacity) && Excess() == old(Excess())
      ensures InsertStep(old(Contents()), capacity, key, value, Contents(), canonical, inCache)
      ensures InsertEvents(old(history), old(Contents()), capacity, key, value, history, inCache)
      ensures InStep() == old(InStep())
    {
      InStepIff();
      var index, inserted;
      index, canonical, inserted, inCache := InsertElement(key, value, size, now, sched);
      InStepIff();
    }

    /** InsertBatch (cache.go:84-100) overwrites the values with their canonical versions and stops when starved. */
    method InsertBatch(keys: array<K>, values: array<V>, sizes: array<uint64>, now: int32, scheds: nat -> Schedule)
      returns (n: nat, ghost states: seq<seq<Event<K, V>>>)
      requires Valid() && keys.Length == values.Length <= sizes.Length && keys as object != values as object
      modifies this, values
      ensures Valid() && capacity == old(capacity) && InStep() == old(InStep())
      ensures n <= keys.Length && |states| == (if n < keys.Length then n + 2 else n + 1)
      ensures states[0] == old(history) && states[|states| - 1] == history
      ensures forall i :: 0 <= i < |states| - 1 ==>
                && InsertStep(Replay(states[i]), capacity, keys[i], old(values[i]),
                              Replay(states[i + 1]), values[i], i < n)
                && InsertEvents(states[i], Replay(states[i]), capacity, keys[i], old(values[i]), states[i + 1], i < n)
      ensures forall i :: n < i < values.Length ==> values[i] == old(values[i])
    {
      hide Replay, TotalSize, InsertStep, InsertEvents, Bijection, ContentsOf, Ahead;
      states := [history];
      n := 0;
      while n < keys.Length
        invariant Valid() && capacity == old(capacity) && InStep() == old(InStep())
        invariant n <= keys.Length && |states| == n + 1 && states[0] == old(history) && states[n] == history
        invariant forall i :: 0 <= i < n ==>
                    && InsertStep(Replay(states[i]), capacity, keys[i], old(values[i]),
                                  Replay(states[i + 1]), values[i], true)
                    && InsertEvents(states[i], Replay(states[i]), capacity, keys[i], old(values[i]),
                                    states[i + 1], true)
        invariant forall i :: n <= i < values.Length ==> values[i] == old(values[i])
      {
        var canonical, inCache := Insert(keys[n], values[n], sizes[n], now, scheds(n));
        values[n] := canonical;
        states := states + [history];
        if !inCache {
          return;
        }
        n := n + 1;
      }
    }

    /** Update (cache.go:144-157) does not touch dataSize when it overwrites, so the sizes drift apart. */
    method Update(key: K, value: V, size: uint64, now: int32, sched: Schedule) returns (canonical: V)
      requires Valid()
      modifies this
      ensures Valid() && capacity == old(capacity)
      ensures canonical == value
      ensures if key in old(Contents()) then Contents() == old(Contents())[key := value]
              else exists inCache ::
                     && InsertStep(old(Contents()), capacity, key, value, Contents(), value, inCache)
                     && InsertEvents(old(history), old(Contents()), capacity, key, value, history, inCache)
      ensures key in old(elements) ==>
                var e := old(storage[elements[key]]);
                if e.size == size && e.value == value then history == old(history)
                else history == old(history) + [Stored(key, value)]
      ensures old(InStep()) ==>
                (InStep() <==> key in old(elements) ==> old(storage[elements[key]].size) == size)
    {
      hide Replay, Bijection, TotalSize, Ahead;
      AheadIsZeroIff(dataSize, TotalSize(storage));
      var index, inserted, inCache;
      index, canonical, inserted, inCache := InsertElement(key, value, size, now, sched);
      AheadIsZeroIff(dataSize, TotalSize(storage));
      if !inserted && inCache && (storage[index].size != size || canonical != value) {
        Overwrite(key, index, value, size);
        canonical := value;
      }
    }

    /** The new value and size go into the element that is there (cache.go:153-154). */
    method Overwrite(key: K, index: nat, value: V, size: uint64)
      requires Valid() && key in elements && elements[key] == index
      modifies this`storage, this`history
      ensures Valid() && Contents() == old(Contents())[key := value] && history == old(history) + [Stored(key, value)]
      ensures old(InStep()) ==> (InStep() <==> old(storage)[index].size == size)
    {
      var e := storage[index].(value := value, size := size);
      TotalSizeUpdate(storage, index, e);
      TotalSizeAtLeast(storage, index);
      ReplayTwo(history, Stored(key, value), Cleared);
      BijectionStore(elements, storage, key, value, size);
      OffByLess(TotalSize(storage), storage[index].size, size);
      hide Replay, Bijection, ContentsOf, TotalSize;
      storage := storage[index := e];
      history := history + [Stored(key, value)];
    }

    /** Get (cache.go:242-269). */
    method Get(key: K, now: int32) returns (r: Option<V>)
      requires Valid()
      modifies this`storage
      ensures Valid() && Contents() == old(Contents()) && SameButMarks(storage, old(storage)) &&
          InStep() == old(InStep())
      ensures r == if key in Contents() then Some(Contents()[key]) else None
      ensures if key in elements then OnlyRefreshed(old(storage), storage, elements[key], now)
              else storage == old(storage)
    {
      if key !in elements {
        return None;
      }
      InStepIff();
      MarkUsed(elements[key], now);
      MarksDoNotMatter();
      InStepIff();
      return Some(storage[elements[key]].value);
    }

    /** A key just read survives the next insertion in a full cache, if some other element is unmarked. */
    method ReadSurvives(key: K, now: int32, key': K, value: V, size: uint64, now': int32) returns (r: Option<V>)
      requires Valid() && key in Contents() && key' !in Contents() && |storage| == capacity
      requires exists j :: 0 <= j < |storage| && storage[j].key != key && storage[j].usedWithTs < 0x8000_0000
      modifies this
      ensures Valid() && r == Some(old(Contents())[key])
      ensures key in Contents() && Contents()[key] == old(Contents())[key]
      ensures key' in Contents() && Contents()[key'] == value && |storage| == capacity == old(capacity)
    {
      hide Replay, TotalSize, Ahead, Outcome;
      var i := elements[key];
      ghost var j :| 0 <= j < |storage| && storage[j].key != key && storage[j].usedWithTs < 0x8000_0000;
      r := Get(key, now);
      ghost var words, start, latest := Words(storage), next, maxEvictionTs;
      var index, canonical, inserted, inCache := InsertElement(key', value, size, now', QUIET);
      ghost var victim := if inserted then Some(index) else None;
      ghost var probes :| Displaced(words, start, QUIET, victim, probes, latest, maxEvictionTs);
      MarkedElementStays(words, start, victim, probes, i, j);
    }

    /**
     GetValues (cache.go:211-240) moves the keys it finds to the front; the rest of the keys are
     the ones that are not in the cache.
     */
    method GetValues(keys: array<K>, valuesOut: array<V>, now: int32) returns (n: nat)
      requires Valid() && keys.Length == valuesOut.Length && keys as object != valuesOut as object
      modifies this`storage, keys, valuesOut
      ensures Valid() && Contents() == old(Contents()) && InStep() == old(InStep())
      ensures n <= keys.Length && multiset(keys[..]) == old(multiset(keys[..]))
      ensures forall i :: 0 <= i < n ==> keys[i] in Contents() && valuesOut[i] == Contents()[keys[i]]
      ensures forall i :: n <= i < keys.Length ==> keys[i] !in Contents() && valuesOut[i] == old(valuesOut[i])
      ensures SameButMarks(storage, old(storage)) && UsedSince(old(storage), storage, old(keys[..]), now)
    {
      hide Replay, TotalSize, Bijection, ContentsOf, Ahead, SameButMarks, OnlyRefreshed, UsedSince;
      NothingUsed(now);
      n := keys.Length;
      var idx := 0;
      ghost var m := Contents();
      while idx < n
        invariant 0 <= idx <= n <= keys.Length
        invariant Valid() && Contents() == m && InStep() == old(InStep()) &&
            multiset(keys[..]) == old(multiset(keys[..]))
        invariant forall i :: 0 <= i < idx ==> keys[i] in m && valuesOut[i] == m[keys[i]]
        invariant forall i :: idx <= i < keys.Length ==> valuesOut[i] == old(valuesOut[i])
        invariant forall i :: n <= i < keys.Length ==> keys[i] !in m
        invariant SameButMarks(storage, old(storage)) && UsedSince(old(storage), storage, keys[..idx], now)
        decreases n - idx
      {
        ghost var before := storage;
        KeysOfContents();
        var r := Get(keys[idx], now);
        SameButMarksTrans(storage, before, old(storage));
        if r.None? {
          n := n - 1;
          ghost var found := keys[..idx];
          Swap(keys, idx, n);
          assert keys[..idx] == found;
        } else {
          OneMoreUse(elements, old(storage), before, storage, keys[..idx], keys[idx], now);
          assert keys[..idx + 1] == keys[..idx] + [keys[idx]];
          valuesOut[idx] := r.value;
          idx := idx + 1;
        }
      }
      KeysOfContents();
      forall k | k in elements
        ensures k in keys[..n] <==> k in old(keys[..])
      {
        assert k in old(keys[..]) <==> k in old(multiset(keys[..]));
        assert k in keys[..] <==> k in multiset(keys[..]);
      }
      UseOfAbsentKeys(elements, old(storage), storage, keys[..n], old(keys[..]), now);
    }

    lemma NothingUsed(now: int32)
      ensures SameButMarks(storage, storage) && UsedSince(storage, storage, [], now)
    {
    }

    /** ExpandTo (cache.go:292-326) copies the elements without their sizes. */
    method ExpandTo(newMax: int)
      requires Valid()
      modifies this
      ensures Valid() && Contents() == old(Contents()) && history == old(history)
      ensures capacity == if newMax > old(capacity) then newMax else old(capacity)
      ensures newMax > old(capacity) ==> Excess() == (old(Excess()) + TotalSize(old(storage))) % TWO64
      ensures newMax <= old(capacity) ==> Excess() == old(Excess())
      ensures old(InStep()) && TotalSize(old(storage)) < TWO64 ==>
                (InStep() <==>
                   newMax <= old(capacity) || forall i :: 0 <= i < |old(storage)| ==> old(storage)[i].size == 0)
      ensures Words(storage) == Words(old(storage)) && next == old(next)
      ensures newMax > old(capacity) ==> evictions == 0 && maxEvictionTs == 0
    {
      hide Replay, TotalSize, Ahead;
      TotalSizeZeroIff(storage);
      AheadIsZeroIff(dataSize, TotalSize(storage));
      if newMax <= capacity {
        return;
      }
      var newStorage: seq<Element<K, V>> := [];
      var newElements: map<K, nat> := map[];
      while |newStorage| < |storage|
        invariant |newStorage| <= |storage|
        invariant forall i :: 0 <= i < |newStorage| ==> newStorage[i] == storage[i].(size := 0)
        invariant forall k :: k in newElements ==> k in elements && newElements[k] == elements[k]
        invariant forall i :: 0 <= i < |newStorage| ==> storage[i].key in newElements
      {
        var e := storage[|newStorage|];
        newElements := newElements[e.key := |newStorage|];
        newStorage := newStorage + [Element(e.key, e.value, e.usedWithTs, 0)];
      }
      assert newElements == elements;
      TotalSizeZeroIff(newStorage);
      AheadMoves(dataSize, TotalSize(storage), 0);
      AheadIsZeroIff(dataSize, 0);
      BijectionSizes(elements, storage, newStorage);
      assert Words(newStorage) == Words(storage);
      hide Bijection, ContentsOf, Words;
      elements, storage, capacity := newElements, newStorage, newMax;
      maxEvictionTs, evictions := 0, 0;
    }

    /** Reset (cache.go:328-343) empties the cache but leaves dataSize as it is. */
    method Reset()
      requires Valid()
      modifies this
      ensures Valid() && Contents() == map[] && capacity == old(capacity) && next == 0
      ensures history == old(history) + [Cleared] && evictions == 0 && maxEvictionTs == 0
      ensures Excess() == (old(Excess()) + TotalSize(old(storage))) % TWO64
      ensures old(InStep()) && TotalSize(old(storage)) < TWO64 ==>
                (InStep() <==> forall i :: 0 <= i < |old(storage)| ==> old(storage)[i].size == 0)
    {
      TotalSizeZeroIff(storage);
      AheadMoves(dataSize, TotalSize(storage), 0);
      AheadIsZeroIff(dataSize, 0);
      ReplayTwo(history, Cleared, Cleared);
      BijectionEmpty<K, V>();
      hide Replay, TotalSize, Bijection, ContentsOf;
      elements, storage, next := map[], [], 0;
      maxEvictionTs, evictions := 0, 0;
      history := history + [Cleared];
    }

    /** To be in step is to have no excess. */
    lemma InStepIff()
      ensures InStep() <==> Excess() == 0
    {
      AheadIsZeroIff(dataSize, TotalSize(storage));
    }
  }

  method TwoElements<K(==), V(==)>(a: K, b: K, v: V, now: int32) returns (cache: Cache<K, V>)
    requires a != b && 0 <= now
    ensures fresh(cache) && cache.Valid() && cache.capacity == 2 && cache.Contents() == map[a := v, b := v]
    ensures |cache.storage| == 2 && cache.storage[1].key == b && cache.storage[1].usedWithTs < 0x8000_0000
  {
    hide Replay, TotalSize, Ahead, Outcome, InsertEvents, Bijection, ContentsOf, OnlyRefreshed, Displaced;
    cache := new Cache.WithMax(2);
    cache.NeverOverfull();
    var index, canonical, inserted, inCache := cache.InsertElement(a, v, 1, now, QUIET);
    cache.NeverOverfull();
    index, canonical, inserted, inCache := cache.InsertElement(b, v, 1, now, QUIET);
    cache.NeverOverfull();
  }

  /** Of two elements, the one that was not read since goes when a third comes. */
  method UnreadGoes<K(==), V(==)>(a: K, b: K, c: K, v: V, now: int32) returns (cache: Cache<K, V>)
    requires a != b && b != c && a != c && 0 <= now
    ensures cache.Valid() && cache.Contents() == map[a := v, c := v]
  {
    hide Replay, TotalSize, Ahead, Bijection, ContentsOf;
    cache := TwoElements(a, b, v, now);
    var r := cache.ReadSurvives(a, now, c, v, 1, now);
    cache.NeverOverfull();
    TwoKeys(cache.Contents(), a, c);
  }

  lemma TwoKeys<K, V>(m: map<K, V>, a: K, c: K)
    requires a != c && a in m && c in m && |m| == 2
    ensures m == map[a := m[a], c := m[c]]
  {
    var rest := m.Keys - {a, c};
    assert m.Keys == rest + {a, c} && |rest| == 0;
  }
}
