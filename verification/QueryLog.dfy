/**
 What the file of the active-query log holds (pkg/promql/query_logger.go): a slot for each query,
 in one of the phases of its insertion and deletion, and what parseBrokenJSON reads back from it
 after a crash.
 */
module QueryLog {
  import opened Arith
  import opened QueryEntry

  const OPEN: byte := 0x5B
  const CLOSE: byte := 0x5D

  // ---------- What a slot holds ----------

  datatype Phase = Free | Claimed | Written(entry: seq<byte>) | Active(entry: seq<byte>) | Cleared

  ghost predicate Proper(p: Phase) {
    p.Written? || p.Active? ==> IsText(p.entry)
  }

  function Zeros(n: nat): seq<byte> {
    seq(n, i => 0)
  }

  /** The first n bytes, or all if there are fewer. */
  function Cut(e: seq<byte>, n: nat): (r: seq<byte>)
    ensures r <= e && |r| == if |e| <= n then |e| else n
  {
    if |e| <= n then e else e[..n]
  }

  /** The content of a slot: of a long entry, only what the slot has room for. */
  function Content(p: Phase): (r: seq<byte>)
    ensures |r| == ENTRY_SIZE
  {
    match p
    case Written(e) => Cut(e, ENTRY_SIZE) + Zeros(ENTRY_SIZE - |Cut(e, ENTRY_SIZE)|)
    case Active(e) => Cut(e, ENTRY_SIZE - 1) + Zeros(ENTRY_SIZE - 1 - |Cut(e, ENTRY_SIZE - 1)|) + [COMMA]
    case _ => Zeros(ENTRY_SIZE)
  }

  function Offset(slot: nat): nat {
    1 + slot * ENTRY_SIZE
  }

  ghost predicate SlotHolds(file: seq<byte>, slot: nat, content: seq<byte>)
    requires |content| == ENTRY_SIZE && Offset(slot) + ENTRY_SIZE <= |file|
  {
    forall q :: Offset(slot) <= q < Offset(slot) + ENTRY_SIZE ==> file[q] == content[q - Offset(slot)]
  }

  lemma SlotsApart(i: nat, j: nat)
    ensures i < j ==> Offset(i) + ENTRY_SIZE <= Offset(j)
    ensures j < i ==> Offset(j) + ENTRY_SIZE <= Offset(i)
  {
  }

  /** A byte for the bracket, then the slots one behind the other. */
  lemma SlotLayout(i: nat)
    ensures Offset(0) == 1 && Offset(i + 1) == Offset(i) + 1000
  {
  }

  /** Copying `bytes` to `at` turns the one into the other; the copy stops at the end. */
  ghost predicate Overwrites(a: seq<byte>, b: seq<byte>, at: nat, bytes: seq<byte>) {
    |a| == |b| && forall k :: 0 <= k < |a| ==> b[k] == if at <= k < at + |bytes| then bytes[k - at] else a[k]
  }

  /** Every slot holds what its phase says. */
  ghost predicate ValidFile(file: seq<byte>, phases: seq<Phase>) {
    && |file| == Offset(|phases|) && file[0] == OPEN
    && (forall i :: 0 <= i < |phases| ==> Intact(file, phases, i))
  }

  /** One slot does. */
  ghost predicate Intact(file: seq<byte>, phases: seq<Phase>, i: nat) {
    i < |phases| && Offset(i) + ENTRY_SIZE <= |file| && Proper(phases[i]) && SlotHolds(file, i, Content(phases[i]))
  }

  // ---------- Reading the file back ----------

  function NonZero(s: seq<byte>): seq<byte> {
    if s == [] then []
    else if s[|s| - 1] == 0 then NonZero(s[..|s| - 1])
    else NonZero(s[..|s| - 1]) + [s[|s| - 1]]
  }

  lemma {:induction false} NonZeroJoin(a: seq<byte>, b: seq<byte>)
    ensures NonZero(a + b) == NonZero(a) + NonZero(b)
  {
    if b == [] {
      assert a + b == a;
    } else {
      assert (a + b)[..|a + b| - 1] == a + b[..|b| - 1];
      NonZeroJoin(a, b[..|b| - 1]);
    }
  }

  lemma {:induction false} NonZeroOfZeros(n: nat)
    ensures NonZero(Zeros(n)) == []
  {
    if n > 0 {
      assert Zeros(n)[..n - 1] == Zeros(n - 1);
      NonZeroOfZeros(n - 1);
    }
  }

  lemma {:induction false} NonZeroOfEntry(e: seq<byte>)
    requires forall i :: 0 <= i < |e| ==> e[i] != 0
    ensures NonZero(e) == e
  {
    if e != [] {
      NonZeroOfEntry(e[..|e| - 1]);
    }
  }

  /** What a slot leaves when its zero bytes are taken out. */
  function Remains(p: Phase): seq<byte> {
    match p
    case Written(e) => Cut(e, ENTRY_SIZE)
    case Active(e) => Cut(e, ENTRY_SIZE - 1) + [COMMA]
    case _ => []
  }

  lemma NonZeroOfPadded(e: seq<byte>, n: nat)
    requires forall i :: 0 <= i < |e| ==> e[i] != 0
    ensures NonZero(e + Zeros(n)) == e
  {
    NonZeroJoin(e, Zeros(n));
    NonZeroOfEntry(e);
    NonZeroOfZeros(n);
    assert e + [] == e;
  }

  lemma NonZeroOfSlot(p: Phase)
    requires Proper(p)
    ensures NonZero(Content(p)) == Remains(p)
  {
    hide NonZero, Zeros;
    match p
    case Written(e) =>
      var c := Cut(e, ENTRY_SIZE);
      NonZeroOfPadded(c, ENTRY_SIZE - |c|);
    case Active(e) =>
      var c := Cut(e, ENTRY_SIZE - 1);
      NonZeroJoin(c + Zeros(ENTRY_SIZE - 1 - |c|), [COMMA]);
      NonZeroOfPadded(c, ENTRY_SIZE - 1 - |c|);
      NonZeroOfEntry([COMMA]);
    case _ =>
      NonZeroOfZeros(ENTRY_SIZE);
  }

  function Listing(phases: seq<Phase>, n: nat): seq<byte>
    requires n <= |phases|
  {
    if n == 0 then [] else Listing(phases, n - 1) + Remains(phases[n - 1])
  }

  lemma SlotSlice(file: seq<byte>, phases: seq<Phase>, n: nat)
    requires ValidFile(file, phases) && n < |phases|
    ensures Offset(n + 1) <= |file| && Proper(phases[n])
    ensures file[..Offset(n + 1)] == file[..Offset(n)] + Content(phases[n])
  {
    hide Content;
    SlotsApart(n, |phases|);
    assert Intact(file, phases, n);
  }

  lemma Opening(file: seq<byte>)
    requires |file| > 0 && file[0] == OPEN
    ensures NonZero(file[..Offset(0)]) == [OPEN]
  {
    assert file[..1] == [OPEN];
    NonZeroOfEntry([OPEN]);
  }

  /** The file without its zero bytes is the opening bracket and what the slots leave. */
  lemma {:induction false} FileListing(file: seq<byte>, phases: seq<Phase>, n: nat)
    requires ValidFile(file, phases) && n <= |phases|
    ensures Offset(n) <= |file| && NonZero(file[..Offset(n)]) == [OPEN] + Listing(phases, n)
  {
    hide NonZero, Remains, Content, Proper;
    if n == 0 {
      Opening(file);
      assert [OPEN] + [] == [OPEN];
    } else {
      FileListing(file, phases, n - 1);
      SlotSlice(file, phases, n - 1);
      NonZeroJoin(file[..Offset(n - 1)], Content(phases[n - 1]));
      NonZeroOfSlot(phases[n - 1]);
    }
  }

  // ---------- The JSON array of the unfinished queries ----------

  /** The entries of the active slots, in slot order. */
  function Entries(phases: seq<Phase>, n: nat): seq<seq<byte>>
    requires n <= |phases|
  {
    if n == 0 then []
    else if phases[n - 1].Active? then Entries(phases, n - 1) + [phases[n - 1].entry]
    else Entries(phases, n - 1)
  }

  /** They are the entries at the given places, which are the active slots. */
  ghost predicate PicksActive(phases: seq<Phase>, n: nat, at: seq<nat>, es: seq<seq<byte>>)
    requires n <= |phases|
  {
    && |at| == |es| && (forall i, j :: 0 <= i < j < |at| ==> at[i] < at[j])
    && (forall k :: 0 <= k < |at| ==> at[k] < n && phases[at[k]] == Active(es[k]))
    && (forall i :: 0 <= i < n && phases[i].Active? ==> i in at)
  }

  lemma OneMoreActive(phases: seq<Phase>, n: nat, at: seq<nat>, es: seq<seq<byte>>)
    requires n < |phases| && phases[n].Active? && PicksActive(phases, n, at, es)
    ensures PicksActive(phases, n + 1, at + [n], es + [phases[n].entry])
  {
    assert forall i :: i in at + [n] <==> i in at || i == n;
  }

  lemma {:induction false} EntriesPickActive(phases: seq<Phase>, n: nat) returns (at: seq<nat>)
    requires n <= |phases|
    ensures PicksActive(phases, n, at, Entries(phases, n))
  {
    at := [];
    if n > 0 {
      at := EntriesPickActive(phases, n - 1);
      if phases[n - 1].Active? {
        OneMoreActive(phases, n - 1, at, Entries(phases, n - 1));
        at := at + [n - 1];
      }
    }
  }

  /** The elements of a JSON array, with commas between them. */
  function Commas(es: seq<seq<byte>>): seq<byte>
    requires es != []
  {
    if |es| == 1 then es[0] else Commas(es[..|es| - 1]) + [COMMA] + es[|es| - 1]
  }

  /** No query is between the two copies of its insertion, and no entry is as long as a slot. */
  ghost predicate Settled(phases: seq<Phase>) {
    forall i :: 0 <= i < |phases| ==> SettledSlot(phases[i])
  }

  predicate SettledSlot(p: Phase) {
    !p.Written? && (p.Active? ==> |p.entry| < ENTRY_SIZE)
  }

  /** The JSON array of some entries. */
  function Array(es: seq<seq<byte>>): seq<byte> {
    if es == [] then [OPEN, CLOSE] else [OPEN] + Commas(es) + [CLOSE]
  }

  /** Brackets around, a comma before each further entry. */
  lemma ArrayText(es: seq<seq<byte>>, e: seq<byte>)
    ensures Array([]) == [0x5B, 0x5D] && Array([e]) == [0x5B] + e + [0x5D]
    ensures es != [] ==> Array(es + [e]) == Array(es)[..|Array(es)| - 1] + [0x2C] + e + [0x5D]
  {
    if es != [] {
      assert (es + [e])[..|es|] == es;
      var c := Commas(es);
      assert ([OPEN] + c + [CLOSE])[..1 + |c|] == [OPEN] + c;
      assert [OPEN] + (c + [COMMA] + e) + [CLOSE] == [OPEN] + c + [COMMA] + e + [CLOSE];
    }
  }

  /** The entries, each with a comma behind it. */
  function Terminated(es: seq<seq<byte>>): seq<byte> {
    if es == [] then [] else Terminated(es[..|es| - 1]) + (es[|es| - 1] + [COMMA])
  }

  lemma {:induction false} TerminatedIsCommas(es: seq<seq<byte>>)
    requires es != []
    ensures Terminated(es) == Commas(es) + [COMMA]
  {
    var init, e := es[..|es| - 1], es[|es| - 1];
    if |es| == 1 {
      assert Terminated(es) == [] + (e + [COMMA]) == e + [COMMA];
    } else {
      TerminatedIsCommas(init);
      assert Commas(init) + [COMMA] + (e + [COMMA]) == Commas(init) + [COMMA] + e + [COMMA];
    }
  }

  /** parseBrokenJSON (query_logger.go:46-58). */
  method ParseBrokenJSON(broken: seq<byte>) returns (queries: seq<byte>, exist: bool)
    ensures var q := NonZero(broken);
      if |q| <= 1 then queries == [OPEN, CLOSE] && !exist
      else queries == q[..|q| - 1] + [CLOSE] && exist
  {
    queries := [];
    for i := 0 to |broken|
      invariant queries == NonZero(broken[..i])
    {
      assert broken[..i + 1][..i] == broken[..i];
      if broken[i] != 0 {
        queries := queries + [broken[i]];
      }
    }
    assert broken[..|broken|] == broken;
    if |queries| > 0 {
      queries := queries[..|queries| - 1] + [CLOSE];
    }
    if |queries| <= 1 {
      return [OPEN, CLOSE], false;
    }
    return queries, true;
  }

  lemma {:induction false} TerminatedSize(es: seq<seq<byte>>)
    ensures |Terminated(es)| == 0 <==> es == []
    ensures |Array(es)| == if es == [] then 2 else |Terminated(es)| + 1
  {
    if es != [] {
      TerminatedIsCommas(es);
    }
  }

  /** What parseBrokenJSON makes of a listing. */
  function Closed(listing: seq<byte>): seq<byte> {
    if listing == [] then [OPEN, CLOSE] else [OPEN] + listing[..|listing| - 1] + [CLOSE]
  }

  lemma ArrayIsClosed(es: seq<seq<byte>>)
    ensures Array(es) == Closed(Terminated(es))
  {
    hide Commas, Terminated;
    TerminatedSize(es);
    if es == [] {
      assert Terminated(es) == [];
    } else {
      TerminatedIsCommas(es);
      assert (Commas(es) + [COMMA])[..|Commas(es)|] == Commas(es);
    }
  }

  // ---------- Counting the beginnings of entries ----------

  predicate StartsAt(s: seq<byte>, i: nat) {
    i + 2 < |s| && s[i] == HEAD[0] && s[i + 1] == HEAD[1] && s[i + 2] == HEAD[2]
  }

  function Starts(s: seq<byte>): nat {
    if s == [] then 0 else Starts(s[1..]) + if StartsAt(s, 0) then 1 else 0
  }

  /** Nothing begins across the seam before such bytes. */
  predicate Seamless(b: seq<byte>) {
    b == [] || (b[0] != HEAD[1] && b[0] != HEAD[2])
  }

  lemma {:induction false} StartsJoin(a: seq<byte>, b: seq<byte>)
    requires Seamless(b)
    ensures Starts(a + b) == Starts(a) + Starts(b)
    decreases |a|
  {
    if a == [] {
      assert a + b == b;
    } else {
      assert (a + b)[1..] == a[1..] + b;
      StartsJoin(a[1..], b);
    }
  }

  lemma {:induction false} NoStarts(s: seq<byte>)
    requires forall i :: 0 <= i < |s| ==> !StartsAt(s, i)
    ensures Starts(s) == 0
    decreases |s|
  {
    if s != [] {
      forall i | 0 <= i < |s[1..]|
        ensures !StartsAt(s[1..], i)
      {
        assert !StartsAt(s, i + 1);
      }
      NoStarts(s[1..]);
    }
  }

  /** An entry, or as much of it as has three bytes, begins once. */
  lemma TextStartsOnce(e: seq<byte>, n: nat)
    requires IsText(e) && 3 <= n <= |e|
    ensures Starts(e[..n]) == 1
  {
    var s := e[..n];
    forall i | 0 <= i < |s[1..]|
      ensures !StartsAt(s[1..], i)
    {
      assert !LikeStart(e, i + 1);
    }
    NoStarts(s[1..]);
    assert LikeStart(e, 0);
  }

  lemma ByteStartsNothing(b: byte)
    ensures Starts([b]) == 0
  {
    assert [b][1..] == [];
  }

  predicate Holds(p: Phase) {
    p.Written? || p.Active?
  }

  /** The slots that hold an entry, whole or not. */
  function Held(phases: seq<Phase>, n: nat): nat
    requires n <= |phases|
  {
    if n == 0 then 0 else if Holds(phases[n - 1]) then Held(phases, n - 1) + 1 else Held(phases, n - 1)
  }

  lemma CutOfText(e: seq<byte>, n: nat)
    requires IsText(e) && n >= 3
    ensures Cut(e, n) == e[..|Cut(e, n)|] && 3 <= |Cut(e, n)| && Cut(e, n)[0] == HEAD[0] && Starts(Cut(e, n)) == 1
  {
    TextStartsOnce(e, |Cut(e, n)|);
  }

  /** What a slot leaves begins once, even without its last byte. */
  lemma RemainsStart(p: Phase)
    requires Proper(p) && Holds(p)
    ensures var r := Remains(p);
      |r| > 3 && r[0] == HEAD[0] && Starts(r) == 1 && Starts(r[..|r| - 1]) == 1
  {
    hide Starts, Cut, IsText;
    var e := p.entry;
    assert |e| > 3 by { TextSize(e); }
    if p.Written? {
      var c := Cut(e, ENTRY_SIZE);
      CutOfText(e, ENTRY_SIZE);
      assert c[..|c| - 1] == e[..|c| - 1];
      TextStartsOnce(e, |c| - 1);
    } else {
      var c := Cut(e, ENTRY_SIZE - 1);
      CutOfText(e, ENTRY_SIZE - 1);
      assert (c + [COMMA])[..|c|] == c;
      StartsJoin(c, [COMMA]);
      ByteStartsNothing(COMMA);
    }
  }

  lemma TextSize(e: seq<byte>)
    requires IsText(e)
    ensures |e| > 3
  {
  }

  lemma {:induction false} ListingStarts(phases: seq<Phase>, n: nat)
    requires n <= |phases| && forall i :: 0 <= i < n ==> Proper(phases[i])
    ensures var l := Listing(phases, n);
      && Starts(l) == Held(phases, n) && (l == [] <==> Held(phases, n) == 0)
      && (l != [] ==> l[0] == HEAD[0] && Starts(l[..|l| - 1]) == Held(phases, n))
  {
    hide Starts, Remains, Proper;
    if n == 0 {
      NoStarts([]);
    } else {
      ListingStarts(phases, n - 1);
      var l, p := Listing(phases, n - 1), phases[n - 1];
      if Holds(p) {
        var r := Remains(p);
        RemainsStart(p);
        StartsJoin(l, r);
        StartsJoin(l, r[..|r| - 1]);
        assert (l + r)[..|l + r| - 1] == l + r[..|r| - 1];
      } else {
        NothingRemains(p);
        assert l + [] == l;
      }
    }
  }

  lemma NothingRemains(p: Phase)
    requires !Holds(p)
    ensures Remains(p) == []
  {
  }

  lemma {:induction false} ClosedStarts(l: seq<byte>, n: nat)
    requires l != [] ==> l[0] == HEAD[0] && Starts(l[..|l| - 1]) == n
    requires l == [] ==> n == 0
    ensures Starts(Closed(l)) == n
  {
    hide Starts;
    ByteStartsNothing(OPEN);
    ByteStartsNothing(CLOSE);
    if l == [] {
      assert [OPEN] + [CLOSE] == [OPEN, CLOSE];
      StartsJoin([OPEN], [CLOSE]);
    } else {
      var l' := l[..|l| - 1];
      StartsJoin([OPEN], l');
      StartsJoin([OPEN] + l', [CLOSE]);
    }
  }

  lemma {:induction false} TerminatedStarts(es: seq<seq<byte>>)
    requires forall i :: 0 <= i < |es| ==> IsText(es[i])
    ensures var t := Terminated(es);
      Starts(t) == |es| && (es != [] ==> t[0] == HEAD[0] && Starts(t[..|t| - 1]) == |es|)
  {
    hide Starts, IsText;
    if es == [] {
      NoStarts([]);
    } else {
      var init, e := es[..|es| - 1], es[|es| - 1];
      TerminatedStarts(init);
      TerminatedSize(init);
      var t := Terminated(init);
      TextSize(e);
      TextStartsOnce(e, |e|);
      assert e[..|e|] == e;
      assert e[0] == HEAD[0] by { TextStart(e); }
      StartsJoin(t, e);
      StartsJoin(t + e, [COMMA]);
      ByteStartsNothing(COMMA);
      assert t + (e + [COMMA]) == t + e + [COMMA];
      assert (t + e + [COMMA])[..|t + e|] == t + e;
    }
  }

  lemma TextStart(e: seq<byte>)
    requires IsText(e)
    ensures e[0] == HEAD[0]
  {
  }

  lemma {:induction false} EntriesAreTexts(phases: seq<Phase>, n: nat)
    requires n <= |phases| && forall i :: 0 <= i < n ==> Proper(phases[i])
    ensures forall i :: 0 <= i < |Entries(phases, n)| ==> IsText(Entries(phases, n)[i])
    ensures |Entries(phases, n)| <= Held(phases, n)
    ensures |Entries(phases, n)| == Held(phases, n) ==> forall i :: 0 <= i < n ==> !phases[i].Written?
  {
    hide IsText;
    if n > 0 {
      EntriesAreTexts(phases, n - 1);
    }
  }

  // ---------- When the file reads back as the active queries ----------

  lemma TerminatedGrows(es: seq<seq<byte>>, e: seq<byte>)
    ensures |Terminated(es + [e])| == |Terminated(es)| + |e| + 1
  {
    assert (es + [e])[..|es|] == es;
  }

  lemma RemainsSize(p: Phase)
    requires !p.Written?
    ensures |Remains(p)| == if !p.Active? then 0 else if SettledSlot(p) then |p.entry| + 1 else ENTRY_SIZE
  {
  }

  /** Without half-written entries, what is missing from the listing is what was cut off. */
  lemma {:induction false} ListingIsShorter(phases: seq<Phase>, n: nat)
    requires n <= |phases| && forall i :: 0 <= i < n ==> !phases[i].Written?
    ensures |Listing(phases, n)| <= |Terminated(Entries(phases, n))|
    ensures |Listing(phases, n)| == |Terminated(Entries(phases, n))| ==>
        forall i :: 0 <= i < n ==> SettledSlot(phases[i])
  {
    hide Terminated, Remains;
    if n == 0 {
      TerminatedSize([]);
    } else {
      ListingIsShorter(phases, n - 1);
      var p := phases[n - 1];
      RemainsSize(p);
      if p.Active? {
        TerminatedGrows(Entries(phases, n - 1), p.entry);
      }
    }
  }

  lemma CutOfShort(e: seq<byte>)
    requires |e| < ENTRY_SIZE
    ensures Cut(e, ENTRY_SIZE - 1) == e
  {
  }

  lemma {:induction false} ListingOfEntries(phases: seq<Phase>, n: nat)
    requires n <= |phases| && Settled(phases)
    ensures Listing(phases, n) == Terminated(Entries(phases, n))
  {
    hide Cut;
    if n > 0 {
      ListingOfEntries(phases, n - 1);
      var before, p := Entries(phases, n - 1), phases[n - 1];
      assert SettledSlot(p);
      if p.Active? {
        CutOfShort(p.entry);
        assert (before + [p.entry])[..|before|] == before;
      } else {
        assert Listing(phases, n) == Listing(phases, n - 1) + [] == Listing(phases, n - 1);
      }
    }
  }

  lemma ClosedSize(l: seq<byte>)
    ensures |Closed(l)| == if l == [] then 2 else |l| + 1
  {
  }

  /**
   The listing closes to the array of the active entries exactly if no entry lacks its comma and none
   was cut: an entry too many shows in the number of beginnings, a cut one in the length.
   */
  lemma ClosedIsArrayIff(phases: seq<Phase>)
    requires forall i :: 0 <= i < |phases| ==> Proper(phases[i])
    ensures var n := |phases|;
      Closed(Listing(phases, n)) == Array(Entries(phases, n)) <==> Settled(phases)
  {
    hide Listing, Entries, Commas, Terminated, Array, Starts, Held, Closed, IsText, Proper;
    var n := |phases|;
    var es, l := Entries(phases, n), Listing(phases, n);
    ArrayIsClosed(es);
    if Settled(phases) {
      ListingOfEntries(phases, n);
    } else if Closed(l) == Array(es) {
      ListingStarts(phases, n);
      ClosedStarts(l, Held(phases, n));
      EntriesAreTexts(phases, n);
      TerminatedStarts(es);
      TerminatedSize(es);
      ClosedStarts(Terminated(es), |es|);
      ClosedSize(l);
      ClosedSize(Terminated(es));
      ListingIsShorter(phases, n);
    }
  }
}
