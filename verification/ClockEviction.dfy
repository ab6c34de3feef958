/**
 The CLOCK marks and the evictor's walk around the ring (pkg/clockcache/cache.go:159-204,
 388-414). The evictor holds no lock that readers need, so readers may mark elements before
 each of its probes, and even between the load and the swap inside one probe. A schedule says
 which marks happen when; the properties hold for every schedule.
 */
module ClockEviction {
  import opened Arith

  datatype Option<+T> = None | Some(value: T)

  // ---------- The used bit and the timestamp in one word ----------

  /** Bit operations on the leftmost of 32 bits, as arithmetic. */
  function ExtractTimestamp(w: uint32): int32 { w % TWO31 }
  predicate ExtractUsed(w: uint32) { w / TWO31 == 1 }
  function SetUsed(used: bool, w: uint32): uint32 { if used then w % TWO31 + TWO31 else w % TWO31 }
  function PackUsedAndTimestamp(used: bool, ts: int32): uint32 {
    var u: uint32 := if ts < 0 then ts + 0x1_0000_0000 else ts;
    if used then SetUsed(true, u) else u
  }

  /** The used bit is the leftmost of 32 bits, and the timestamp is the rest of the word. */
  lemma WordIsBitAndTimestamp(w: uint32, ts: int32)
    ensures ExtractUsed(w) <==> w >= 0x8000_0000
    ensures ExtractTimestamp(w) == if w >= 0x8000_0000 then w - 0x8000_0000 else w
    ensures PackUsedAndTimestamp(true, ts) == 0x8000_0000 + ts % 0x8000_0000
    ensures PackUsedAndTimestamp(false, ts) == ts % 0x1_0000_0000
  {
  }

  /** Packing can be undone exactly for the timestamps that fit in 31 bits, those until 2038. */
  lemma PackRoundTripIff(used: bool, ts: int32)
    ensures var w := PackUsedAndTimestamp(used, ts);
            ExtractUsed(w) == used && ExtractTimestamp(w) == ts <==> ts >= 0
  {
  }

  lemma SetUsedSets(used: bool, w: uint32)
    ensures ExtractUsed(SetUsed(used, w)) == used
    ensures ExtractTimestamp(SetUsed(used, w)) == ExtractTimestamp(w)
  {
  }

  // ---------- Readers and probes ----------

  /** A reader stores a word with the used bit set. */
  datatype Mark = Mark(index: nat, word: uint32)

  /** The marks readers make before each probe's load, between its load and its swap, and after the last probe. */
  datatype Schedule = Schedule(before: nat -> seq<Mark>, between: nat -> seq<Mark>, after: seq<Mark>)

  const QUIET: Schedule := Schedule(_ => [], _ => [], [])

  function Marked(words: seq<uint32>, marks: seq<Mark>): (r: seq<uint32>)
    ensures |r| == |words|
    decreases |marks|
  {
    if marks == [] then words
    else
      var m := marks[0];
      Marked(if m.index < |words| then words[m.index := m.word] else words, marks[1..])
  }

  /** The words a probe of element i finds when it loads, and when it swaps. */
  function Loaded(words: seq<uint32>, before: seq<Mark>): (r: seq<uint32>)
    ensures |r| == |words|
  {
    Marked(words, before)
  }

  function Swapped(words: seq<uint32>, before: seq<Mark>, between: seq<Mark>): (r: seq<uint32>)
    ensures |r| == |words|
  {
    Marked(Marked(words, before), between)
  }

  /** The words after a probe of element i (cache.go:179). */
  function Probed(words: seq<uint32>, i: nat, before: seq<Mark>, between: seq<Mark>): (r: seq<uint32>)
    requires i < |words|
    ensures |r| == |words|
  {
    Swapped(words, before, between)[i := SetUsed(false, Loaded(words, before)[i])]
  }

  function Ring(start: nat, p: nat, n: nat): (i: nat)
    requires n > 0
    ensures i < n
  {
    (start + p) % n
  }

  /** The words after p probes from `start` on. */
  function After(words: seq<uint32>, start: nat, sched: Schedule, p: nat): (r: seq<uint32>)
    requires |words| > 0
    ensures |r| == |words|
  {
    if p == 0 then words
    else
      var q := p - 1;
      Probed(After(words, start, sched, q), Ring(start, q, |words|), sched.before(q), sched.between(q))
  }

  /** The word that probe p takes out. */
  function Seen(words: seq<uint32>, start: nat, sched: Schedule, p: nat): uint32
    requires |words| > 0
  {
    Swapped(After(words, start, sched, p), sched.before(p), sched.between(p))[Ring(start, p, |words|)]
  }

  /** Probes lo to hi all find a mark. */
  ghost predicate AllMarked(words: seq<uint32>, start: nat, sched: Schedule, lo: nat, hi: nat)
    requires |words| > 0
  {
    forall q :: lo <= q < hi ==> ExtractUsed(Seen(words, start, sched, q))
  }

  lemma AllMarkedJoin(words: seq<uint32>, start: nat, sched: Schedule, mid: nat, hi: nat)
    requires |words| > 0 && AllMarked(words, start, sched, 0, mid) && AllMarked(words, start, sched, mid, hi)
    ensures AllMarked(words, start, sched, 0, hi)
  {
  }

  /**
   What evict may return: the first element found unmarked, after at most two rounds, or nothing
   when every probe found a mark.
   */
  ghost predicate Outcome(words: seq<uint32>, start: nat, sched: Schedule, victim: Option<nat>, probes: nat) {
    && probes <= 2 * |words|
    && (|words| == 0 ==> victim.None?)
    && (|words| > 0 && victim.None? ==>
          probes == 2 * |words| && AllMarked(words, start, sched, 0, probes))
    && (|words| > 0 && victim.Some? ==>
          && probes > 0 && victim.value == Ring(start, probes - 1, |words|)
          && !ExtractUsed(Seen(words, start, sched, probes - 1))
          && AllMarked(words, start, sched, 0, probes - 1))
  }

  // ---------- Timestamps ----------

  /** The word that the last of the marks on element i stores. */
  function LastMark(marks: seq<Mark>, i: nat): Option<uint32> {
    if marks == [] then None
    else if marks[|marks| - 1].index == i then Some(marks[|marks| - 1].word)
    else LastMark(marks[..|marks| - 1], i)
  }

  lemma {:induction false} MarkedJoin(words: seq<uint32>, a: seq<Mark>, b: seq<Mark>)
    ensures Marked(words, a + b) == Marked(Marked(words, a), b)
    decreases a
  {
    if a == [] {
      assert a + b == b;
    } else {
      assert (a + b)[1..] == a[1..] + b;
      var m := a[0];
      MarkedJoin(if m.index < |words| then words[m.index := m.word] else words, a[1..], b);
    }
  }

  lemma {:induction false} LastMarkStays(words: seq<uint32>, marks: seq<Mark>, i: nat)
    requires i < |words|
    ensures Marked(words, marks)[i] == match LastMark(marks, i) { case Some(w) => w case None => words[i] }
    decreases marks
  {
    if marks != [] {
      var n := |marks| - 1;
      assert marks == marks[..n] + [marks[n]];
      MarkedJoin(words, marks[..n], [marks[n]]);
      LastMarkStays(words, marks[..n], i);
    }
  }

  /** No mark on i falls between the load and the swap, or the last one repeats the timestamp that was loaded. */
  predicate Harmless(words: seq<uint32>, i: nat, before: seq<Mark>, between: seq<Mark>)
    requires i < |words|
  {
    match LastMark(between, i)
    case None => true
    case Some(w) => ExtractTimestamp(w) == ExtractTimestamp(Loaded(words, before)[i])
  }

  /** A probe keeps every timestamp that readers wrote exactly when the marks on its element are harmless. */
  lemma ProbeKeepsTimestampsIff(words: seq<uint32>, i: nat, before: seq<Mark>, between: seq<Mark>)
    requires i < |words|
    ensures SameTimestamps(Probed(words, i, before, between), Swapped(words, before, between))
            <==> Harmless(words, i, before, between)
  {
    SetUsedSets(false, Loaded(words, before)[i]);
    LastMarkStays(Loaded(words, before), between, i);
    assert ExtractTimestamp(Probed(words, i, before, between)[i]) == ExtractTimestamp(Loaded(words, before)[i]);
  }

  /** What the words would be with the readers alone. */
  function ReadersOnly(words: seq<uint32>, sched: Schedule, p: nat): (r: seq<uint32>)
    ensures |r| == |words|
  {
    if p == 0 then words else Swapped(ReadersOnly(words, sched, p - 1), sched.before(p - 1), sched.between(p - 1))
  }

  predicate SameTimestamps(a: seq<uint32>, b: seq<uint32>) {
    |a| == |b| && forall j :: 0 <= j < |a| ==> ExtractTimestamp(a[j]) == ExtractTimestamp(b[j])
  }

  lemma {:induction false} MarkingKeepsAgreement(a: seq<uint32>, b: seq<uint32>, marks: seq<Mark>)
    requires SameTimestamps(a, b)
    ensures SameTimestamps(Marked(a, marks), Marked(b, marks))
    decreases marks
  {
    if marks != [] {
      var m := marks[0];
      var a' := if m.index < |a| then a[m.index := m.word] else a;
      var b' := if m.index < |b| then b[m.index := m.word] else b;
      MarkingKeepsAgreement(a', b', marks[1..]);
    }
  }

  /** One probe keeps the agreement with the readers alone exactly when it is harmless. */
  lemma ProbeKeepsAgreementIff(a: seq<uint32>, b: seq<uint32>, i: nat, before: seq<Mark>, between: seq<Mark>)
    requires i < |a| && SameTimestamps(a, b)
    ensures SameTimestamps(Probed(a, i, before, between), Swapped(b, before, between)) <==>
        Harmless(b, i, before, between)
  {
    hide Marked, Probed, ExtractTimestamp;
    MarkingKeepsAgreement(a, b, before);
    MarkingKeepsAgreement(Marked(a, before), Marked(b, before), between);
    ProbeKeepsTimestampsIff(a, i, before, between);
    assert Harmless(a, i, before, between) == Harmless(b, i, before, between);
  }

  /** Up to probe p, the evictor is at no time seen to alter a timestamp. */
  ghost predicate KeepsTimestamps(words: seq<uint32>, start: nat, sched: Schedule, p: nat)
    requires |words| > 0
  {
    forall q :: 0 <= q <= p ==> SameTimestamps(After(words, start, sched, q), ReadersOnly(words, sched, q))
  }

  /** A probe among those of a run, judged by what the readers do alone. */
  predicate HarmlessProbe(words: seq<uint32>, start: nat, sched: Schedule, q: nat)
    requires |words| > 0
  {
    Harmless(ReadersOnly(words, sched, q), Ring(start, q, |words|), sched.before(q), sched.between(q))
  }

  /** The condition for a whole run, which is about the readers' marks only. */
  lemma {:induction false} EvictorKeepsTimestampsIff(words: seq<uint32>, start: nat, sched: Schedule, p: nat)
    requires |words| > 0
    ensures KeepsTimestamps(words, start, sched, p) <==>
        forall q :: 0 <= q < p ==> HarmlessProbe(words, start, sched, q)
  {
    hide Harmless, SameTimestamps, Probed, Swapped;
    if p == 0 {
      Agreement(words);
    } else {
      EvictorKeepsTimestampsIff(words, start, sched, p - 1);
      if KeepsTimestamps(words, start, sched, p - 1) {
        var q := p - 1;
        ProbeKeepsAgreementIff(After(words, start, sched, q), ReadersOnly(words, sched, q), Ring(start, q, |words|),
                               sched.before(q), sched.between(q));
        assert SameTimestamps(After(words, start, sched, p), ReadersOnly(words, sched, p)) <==>
            HarmlessProbe(words, start, sched, q);
      }
    }
  }

  lemma Agreement(words: seq<uint32>)
    ensures SameTimestamps(words, words)
  {
  }

  /** As long as readers do not mark the element that is just being probed, no timestamp is altered. */
  lemma EvictorNeverAltersTimestamps(words: seq<uint32>, start: nat, sched: Schedule, p: nat)
    requires |words| > 0 && forall q :: 0 <= q < p ==> LastMark(sched.between(q), Ring(start, q, |words|)).None?
    ensures SameTimestamps(After(words, start, sched, p), ReadersOnly(words, sched, p))
  {
    EvictorKeepsTimestampsIff(words, start, sched, p);
  }

  /**
   A timestamp can be lost: one reader finds an unmarked element and marks it at time 2 while a probe holds
   time 1.
   */
  lemma TimestampCanBeLost()
    ensures var sched := Schedule(_ => [], _ => [Mark(0, PackUsedAndTimestamp(true, 2))], []);
            !KeepsTimestamps([PackUsedAndTimestamp(false, 1)], 0, sched, 1)
  {
    var words, mark := [PackUsedAndTimestamp(false, 1)], Mark(0, PackUsedAndTimestamp(true, 2));
    var sched := Schedule(_ => [], _ => [mark], []);
    assert Marked(words, []) == words && LastMark([mark], 0) == Some(mark.word);
    assert !HarmlessProbe(words, 0, sched, 0);
    EvictorKeepsTimestampsIff(words, 0, sched, 1);
  }

  // ---------- Without interference ----------

  lemma RingPositions(start: nat, p: nat, q: nat, n: nat)
    requires start < n
    ensures p < q < n ==> Ring(start, p, n) != Ring(start, q, n)
    ensures p < n ==> Ring(start, p, n) == if start + p < n then start + p else start + p - n
    ensures Ring(start, n, n) == start
  {
    if p < n {
      DivModUnique(start + p, n, if start + p < n then 0 else 1, if start + p < n then start + p else start + p - n);
    }
    if q < n {
      DivModUnique(start + q, n, if start + q < n then 0 else 1, if start + q < n then start + q else start + q - n);
    }
    DivModUnique(start + n, n, 1, start);
  }

  /** Alone, the evictor clears the marks it passes and sees every other word as it was. */
  lemma {:induction false} QuietWalk(words: seq<uint32>, start: nat, p: nat)
    requires start < |words| && p <= |words|
    ensures var n := |words|;
            && (forall j :: 0 <= j < n && (forall q :: 0 <= q < p ==> Ring(start, q, n) != j) ==>
                  After(words, start, QUIET, p)[j] == words[j])
            && (forall q :: 0 <= q < p ==> !ExtractUsed(After(words, start, QUIET, p)[Ring(start, q, n)]))
    decreases p
  {
    var n := |words|;
    if p > 0 {
      QuietWalk(words, start, p - 1);
      var w, i := After(words, start, QUIET, p - 1), Ring(start, p - 1, n);
      SetUsedSets(false, w[i]);
      assert After(words, start, QUIET, p) == w[i := SetUsed(false, w[i])];
    }
  }

  /**
   Without interference eviction always succeeds, within one round and one probe, and takes the
   first unmarked element in ring order, or the starting element when all are marked.
   */
  lemma QuietEviction(words: seq<uint32>, start: nat, victim: Option<nat>, probes: nat)
    requires start < |words| && Outcome(words, start, QUIET, victim, probes)
    ensures victim.Some? && probes <= |words| + 1
    ensures forall q :: 0 <= q < probes - 1 ==> ExtractUsed(words[Ring(start, q, |words|)])
    ensures if probes <= |words| then !ExtractUsed(words[victim.value]) else victim.value == start
  {
    hide Seen, After;
    var n := |words|;
    forall q | 0 <= q < n ensures Seen(words, start, QUIET, q) == words[Ring(start, q, n)] {
      QuietSeen(words, start, q);
    }
    QuietSeen(words, start, n);
  }

  /** Without interference a marked element stays as long as some other element is unmarked. */
  lemma MarkedElementStays(words: seq<uint32>, start: nat, victim: Option<nat>, probes: nat, i: nat, j: nat)
    requires start < |words| && Outcome(words, start, QUIET, victim, probes)
    requires i < |words| && j < |words| && words[i] >= 0x8000_0000 && words[j] < 0x8000_0000
    ensures victim.Some? && victim.value != i
  {
    var n := |words|;
    QuietEviction(words, start, victim, probes);
    var q := if j >= start then j - start else j - start + n;
    RingPositions(start, q, q, n);
    assert !ExtractUsed(words[Ring(start, q, n)]);
  }

  lemma QuietSeen(words: seq<uint32>, start: nat, q: nat)
    requires start < |words| && q <= |words|
    ensures var n := |words|;
            if q < n then Seen(words, start, QUIET, q) == words[Ring(start, q, n)]
            else !ExtractUsed(Seen(words, start, QUIET, q)) && Ring(start, q, n) == start
  {
    var n := |words|;
    QuietWalk(words, start, q);
    RingPositions(start, 0, 0, n);
    assert Seen(words, start, QUIET, q) == After(words, start, QUIET, q)[Ring(start, q, n)];
    if q < n {
      forall r | 0 <= r < q ensures Ring(start, r, n) != Ring(start, q, n) { RingPositions(start, r, q, n); }
    }
  }
}
