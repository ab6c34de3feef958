/**
 The active-query tracker (pkg/promql/query_logger.go). Queries that run at the same time each hold
 a slot of a memory-mapped file. Their steps interleave: each step is one method, which keeps the
 slots in order whatever the entries are, and says what it does to the bytes of the file. The file
 is valid, every slot holding what its phase says, until an entry spills into the next slot.
 */
module QueryTracker {
  import opened Arith
  import opened QueryEntry
  import opened QueryLog

  // ---------- The slots ----------

  /** Free and held slots partition all slots: the channel holds the free ones, each once. */
  ghost predicate Partition(free: seq<nat>, phases: seq<Phase>) {
    && (forall i, j :: 0 <= i < j < |free| ==> free[i] != free[j])
    && (forall k :: 0 <= k < |free| ==> free[k] < |phases| && phases[free[k]] == Free)
    && (forall i :: 0 <= i < |phases| && phases[i] == Free ==> i in free)
  }

  lemma TakeFirst(free: seq<nat>, phases: seq<Phase>)
    requires free != [] && Partition(free, phases)
    ensures Partition(free[1..], phases[free[0] := Claimed])
  {
    assert forall i :: i in free ==> i == free[0] || i in free[1..];
  }

  lemma FirstIsFree(free: seq<nat>, phases: seq<Phase>)
    requires free != [] && Partition(free, phases)
    ensures free[0] < |phases| && phases[free[0]] == Free
  {
  }

  lemma HeldIsNotFree(free: seq<nat>, phases: seq<Phase>, slot: nat)
    requires slot < |phases| && phases[slot] != Free && Partition(free, phases)
    ensures forall k :: 0 <= k < |free| ==> free[k] < |phases| && free[k] != slot
    ensures forall i, j :: 0 <= i < j < |free| ==> free[i] != free[j]
  {
  }

  lemma ChangeHeld(free: seq<nat>, phases: seq<Phase>, slot: nat, p: Phase)
    requires slot < |phases| && phases[slot] != Free && p != Free && Partition(free, phases)
    ensures Partition(free, phases[slot := p])
  {
  }

  lemma GiveBack(free: seq<nat>, phases: seq<Phase>, slot: nat)
    requires slot < |phases| && phases[slot] != Free && Partition(free, phases)
    ensures Partition(free + [slot], phases[slot := Free])
  {
    assert slot in free + [slot];
    assert forall i :: i in free ==> i in free + [slot];
  }

  /** Distinct numbers below n, and not s: fewer than n. */
  lemma FewerThan(free: seq<nat>, n: nat, s: nat)
    requires s < n && forall k :: 0 <= k < |free| ==> free[k] < n && free[k] != s
    requires forall i, j :: 0 <= i < j < |free| ==> free[i] != free[j]
    ensures |free| < n
  {
    var taken := set k | 0 <= k < |free| :: free[k];
    SizeOfDistinct(free, |free|);
    Subset(taken, Below(n) - {s});
    assert |Below(n) - {s}| == n - 1;
  }

  ghost function Below(n: nat): (r: set<nat>)
    ensures |r| == n && forall x: nat :: x in r <==> x < n
  {
    if n == 0 then {} else Below(n - 1) + {n - 1}
  }

  lemma {:induction false} SizeOfDistinct(free: seq<nat>, n: nat)
    requires n <= |free| && forall i, j :: 0 <= i < j < |free| ==> free[i] != free[j]
    ensures |set k | 0 <= k < n :: free[k]| == n
  {
    if n > 0 {
      SizeOfDistinct(free, n - 1);
      assert (set k | 0 <= k < n :: free[k]) == (set k | 0 <= k < n - 1 :: free[k]) + {free[n - 1]};
    }
  }

  lemma {:induction false} Subset(a: set<nat>, b: set<nat>)
    requires a <= b
    ensures |a| <= |b|
  {
    if a != {} {
      var x :| x in a;
      Subset(a - {x}, b - {x});
    }
  }

  /** Go's copy. */
  method Copy(file: array<byte>, at: nat, bytes: seq<byte>)
    requires at <= file.Length
    modifies file
    ensures Overwrites(old(file[..]), file[..], at, bytes)
  {
    var i := 0;
    while i < |bytes| && at + i < file.Length
      invariant 0 <= i <= |bytes| && at + i <= file.Length
      invariant forall q :: 0 <= q < file.Length ==> file[q] == if at <= q < at + i then bytes[q - at] else old(file[q])
    {
      file[at + i] := bytes[i];
      i := i + 1;
    }
  }

  // ---------- What a step does to the file ----------

  /** No byte outside the slot changes. */
  ghost predicate SameOutside(a: seq<byte>, b: seq<byte>, slot: nat) {
    |a| == |b| && forall q :: 0 <= q < |a| && (q < Offset(slot) || Offset(slot + 1) <= q) ==> a[q] == b[q]
  }

  /** Then the other slots are as intact as before. */
  lemma OthersStay(a: seq<byte>, b: seq<byte>, phases: seq<Phase>, slot: nat, p: Phase, i: nat)
    requires SameOutside(a, b, slot) && slot < |phases| && i != slot
    ensures Intact(b, phases[slot := p], i) == Intact(a, phases, i)
  {
    hide Content, Proper;
    SlotsApart(slot, i);
    if i < |phases| && Offset(i) + ENTRY_SIZE <= |a| {
      assert phases[slot := p][i] == phases[i];
      assert SlotHolds(b, i, Content(phases[i])) == SlotHolds(a, i, Content(phases[i]));
    }
  }

  /** A copy that turns the one content into the other keeps the slot itself intact. */
  lemma OwnSlotStays(a: seq<byte>, b: seq<byte>, phases: seq<Phase>, slot: nat, p: Phase, at: nat, bytes: seq<byte>)
    requires Intact(a, phases, slot) && Proper(p) && Overwrites(a, b, Offset(slot) + at, bytes)
    requires Overwrites(Content(phases[slot]), Content(p), at, bytes)
    ensures Intact(b, phases[slot := p], slot)
  {
    hide Content, Proper;
  }

  lemma EntryOverwrites(entry: seq<byte>)
    ensures Overwrites(Content(Claimed), Content(Written(entry)), 0, entry)
  {
  }

  lemma CommaOverwrites(entry: seq<byte>)
    ensures Overwrites(Content(Written(entry)), Content(Active(entry)), ENTRY_SIZE - 1, [COMMA])
  {
  }

  /** Zeros make a slot intact whatever it held. */
  lemma ZerosClear(a: seq<byte>, b: seq<byte>, phases: seq<Phase>, slot: nat)
    requires slot < |phases| && Offset(slot) + ENTRY_SIZE <= |a| && Overwrites(a, b, Offset(slot), Zeros(ENTRY_SIZE))
    ensures Intact(b, phases[slot := Cleared], slot) && SameOutside(a, b, slot)
  {
  }

  /** The two copies of an insertion. */
  ghost predicate Inserted(a: seq<byte>, c: seq<byte>, slot: nat, entry: seq<byte>) {
    |a| == |c| && forall k :: 0 <= k < |a| ==>
      c[k] == if k == Offset(slot) + ENTRY_SIZE - 1 then COMMA
              else if Offset(slot) <= k < Offset(slot) + |entry| then entry[k - Offset(slot)]
              else a[k]
  }

  lemma TwoCopies(a: seq<byte>, b: seq<byte>, c: seq<byte>, slot: nat, entry: seq<byte>)
    requires Overwrites(a, b, Offset(slot), entry) && Overwrites(b, c, Offset(slot) + ENTRY_SIZE - 1, [COMMA])
    ensures Inserted(a, c, slot, entry)
  {
  }

  /** A slot is empty, or it starts as an entry does. */
  lemma StartOfSlot(p: Phase)
    requires Proper(p)
    ensures var c := Content(p); c[0] == 0 || (c[0] == HEAD[0] && c[1] == HEAD[1] && c[2] == HEAD[2])
  {
  }

  /** The end of a long entry differs from what the next slot holds, whatever that is. */
  lemma NextSlotDiffers(a: seq<byte>, phases: seq<Phase>, slot: nat, entry: seq<byte>)
    requires Intact(a, phases, slot + 1) && IsText(entry) && |entry| > ENTRY_SIZE
    ensures exists q :: Offset(slot + 1) <= q < Offset(slot + 2) && q < Offset(slot) + |entry| && q < |a| &&
                        a[q] != entry[q - Offset(slot)]
  {
    hide Content, Proper;
    var p, o := phases[slot + 1], Offset(slot + 1);
    StartOfSlot(p);
    assert !LikeStart(entry, ENTRY_SIZE) && entry[ENTRY_SIZE] != 0;
    assert a[o] == Content(p)[0] && a[o + 1] == Content(p)[1] && a[o + 2] == Content(p)[2];
    assert o - Offset(slot) == ENTRY_SIZE;
    var d := if a[o] != entry[ENTRY_SIZE] then 0
             else if ENTRY_SIZE + 1 < |entry| && a[o + 1] != entry[ENTRY_SIZE + 1] then 1 else 2;
    assert a[o + d] != entry[o + d - Offset(slot)];
  }

  /** Exactly when an insertion leaves the other slots alone, and the file valid. */
  lemma InsertedIff(a: seq<byte>, c: seq<byte>, phases: seq<Phase>, slot: nat, entry: seq<byte>)
    requires |a| == Offset(|phases|) && slot < |phases| && phases[slot] == Claimed
    requires IsText(entry) && Inserted(a, c, slot, entry)
    ensures |entry| <= ENTRY_SIZE || slot + 1 == |phases| ==> SameOutside(a, c, slot)
    ensures Intact(a, phases, slot) ==> Intact(c, phases[slot := Active(entry)], slot)
    ensures ValidFile(a, phases) ==>
      (SameOutside(a, c, slot) <==> |entry| <= ENTRY_SIZE || slot + 1 == |phases|)
    ensures ValidFile(a, phases) ==>
      (ValidFile(c, phases[slot := Active(entry)]) <==> |entry| <= ENTRY_SIZE || slot + 1 == |phases|)
  {
    hide Content, IsText, SlotHolds;
    var after := phases[slot := Active(entry)];
    SlotsApart(slot, |phases|);
    if |entry| <= ENTRY_SIZE || slot + 1 == |phases| {
      assert SameOutside(a, c, slot);
      forall i | i != slot
        ensures Intact(c, after, i) == Intact(a, phases, i)
      {
        OthersStay(a, c, phases, slot, Active(entry), i);
      }
    }
    InsertedOwnSlot(a, c, phases, slot, entry);
    if ValidFile(a, phases) {
      assert Intact(a, phases, slot);
      if |entry| > ENTRY_SIZE && slot + 1 < |phases| {
        SpillShows(a, c, phases, slot, entry);
      }
    }
  }

  lemma InsertedOwnSlot(a: seq<byte>, c: seq<byte>, phases: seq<Phase>, slot: nat, entry: seq<byte>)
    requires slot < |phases| && phases[slot] == Claimed && IsText(entry) && Inserted(a, c, slot, entry)
    ensures Intact(a, phases, slot) ==> Intact(c, phases[slot := Active(entry)], slot)
  {
    hide IsText;
    var content := Content(Active(entry));
    forall k | 0 <= k < ENTRY_SIZE
      ensures content[k] == if k == ENTRY_SIZE - 1 then COMMA else if k < |entry| then entry[k] else 0
    {
    }
  }

  /** A spill is seen in the next slot. */
  lemma SpillShows(a: seq<byte>, c: seq<byte>, phases: seq<Phase>, slot: nat, entry: seq<byte>)
    requires Intact(a, phases, slot + 1) && IsText(entry) && |entry| > ENTRY_SIZE && Inserted(a, c, slot, entry)
    ensures !SameOutside(a, c, slot) && !Intact(c, phases[slot := Active(entry)], slot + 1)
  {
    hide Content, IsText, Proper;
    NextSlotDiffers(a, phases, slot, entry);
    var q :| Offset(slot + 1) <= q < Offset(slot + 2) && q < Offset(slot) + |entry| && q < |a| &&
        a[q] != entry[q - Offset(slot)];
    assert c[q] == entry[q - Offset(slot)];
    var content := Content(phases[slot + 1]);
    assert a[q] == content[q - Offset(slot + 1)];
    assert phases[slot := Active(entry)][slot + 1] == phases[slot + 1];
  }

  /** The entry can be read back from its slot exactly if there is room for it and its comma. */
  lemma ReadBack(c: seq<byte>, phases: seq<Phase>, slot: nat, entry: seq<byte>)
    requires Intact(c, phases, slot) && phases[slot] == Active(entry)
    ensures Offset(slot + 1) <= |c|
    ensures NonZero(c[Offset(slot)..Offset(slot + 1)]) == entry + [COMMA] <==> |entry| < ENTRY_SIZE
  {
    hide NonZero, Content;
    assert c[Offset(slot)..Offset(slot + 1)] == Content(phases[slot]);
    NonZeroOfSlot(phases[slot]);
  }

  // ---------- The tracker ----------

  class Tracker {
    const maxConcurrent: nat
    const file: array<byte>
    /** The channel of slots that nobody holds, first in first out. */
    var free: seq<nat>
    ghost var phases: seq<Phase>

    /** Free and held slots partition all slots, whatever the file holds. */
    ghost predicate Slots()
      reads this
    {
      && |phases| == maxConcurrent && file.Length == Offset(maxConcurrent) && Partition(free, phases)
      && (forall i :: 0 <= i < maxConcurrent ==> Proper(phases[i]))
    }

    ghost predicate SlotIntact(i: nat)
      reads this, file
    {
      Intact(file[..], phases, i)
    }

    /** Besides, every slot holds what its phase says. */
    ghost predicate Valid()
      reads this, file
    {
      Slots() && ValidFile(file[..], phases)
    }

    /** NewActiveQueryTracker (query_logger.go:110-135, 173-177): all slots are empty and free. */
    constructor (maxConcurrent: nat)
      ensures this.maxConcurrent == maxConcurrent && fresh(file) && Valid()
      ensures forall i :: 0 <= i < maxConcurrent ==> phases[i] == Free
    {
      this.maxConcurrent := maxConcurrent;
      var bytes := new byte[Offset(maxConcurrent)](i => if i == 0 then OPEN else 0);
      file := bytes;
      free := seq(maxConcurrent, i => i);
      phases := seq(maxConcurrent, i => Free);
      new;
      forall i | 0 <= i < maxConcurrent
        ensures i in free && SlotHolds(file[..], i, Content(phases[i]))
      {
        assert free[i] == i;
        SlotsApart(i, maxConcurrent);
      }
    }

    /** A query takes a slot from the channel; it waits as long as there is none (query_logger.go:190). */
    method Claim() returns (slot: nat)
      requires Slots() && free != []
      modifies this
      ensures Slots() && slot == old(free)[0] < maxConcurrent && free == old(free)[1..]
      ensures old(phases)[slot] == Free && phases == old(phases)[slot := Claimed]
      ensures forall i :: SlotIntact(i) == old(SlotIntact(i))
      ensures old(Valid()) ==> Valid()
    {
      hide Partition, SlotHolds;
      slot := free[0];
      FirstIsFree(free, phases);
      TakeFirst(free, phases);
      free := free[1..];
      phases := phases[slot := Claimed];
      assert Content(Claimed) == Content(Free);
      if old(Valid()) {
        forall i | 0 <= i < maxConcurrent
          ensures Intact(file[..], phases, i)
        {
          assert old(SlotIntact(i));
        }
      }
    }

    /** The copy of the entry, which stops only at the end of the file (query_logger.go:195). */
    method CopyEntry(slot: nat, entry: seq<byte>)
      requires Slots() && slot < maxConcurrent && phases[slot] == Claimed && IsText(entry)
      modifies file, this`phases
      ensures Slots() && phases == old(phases)[slot := Written(entry)]
      ensures Overwrites(old(file[..]), file[..], Offset(slot), entry)
      ensures old(SlotIntact(slot)) ==> SlotIntact(slot)
    {
      hide Partition, Content, Overwrites, SlotHolds, Intact, IsText;
      SlotsApart(slot, maxConcurrent);
      ghost var before := file[..];
      Copy(file, Offset(slot), entry);
      ChangeHeld(free, phases, slot, Written(entry));
      EntryOverwrites(entry);
      if Intact(before, phases, slot) {
        OwnSlotStays(before, file[..], phases, slot, Written(entry), 0, entry);
      }
      phases := phases[slot := Written(entry)];
    }

    /** The copy of the comma (query_logger.go:196). */
    method CopyComma(slot: nat)
      requires Slots() && slot < maxConcurrent && phases[slot].Written?
      modifies file, this`phases
      ensures Slots() && phases == old(phases)[slot := Active(old(phases)[slot].entry)]
      ensures Overwrites(old(file[..]), file[..], Offset(slot) + ENTRY_SIZE - 1, [COMMA])
      ensures old(SlotIntact(slot)) ==> SlotIntact(slot)
    {
      hide Partition, Content, Overwrites, SlotHolds, Intact, IsText;
      SlotsApart(slot, maxConcurrent);
      ghost var before, entry := file[..], phases[slot].entry;
      assert Proper(phases[slot]);
      Copy(file, Offset(slot) + ENTRY_SIZE - 1, [COMMA]);
      ChangeHeld(free, phases, slot, Active(entry));
      CommaOverwrites(entry);
      if Intact(before, phases, slot) {
        OwnSlotStays(before, file[..], phases, slot, Active(entry), ENTRY_SIZE - 1, [COMMA]);
      }
      phases := phases[slot := Active(entry)];
    }

    /** query_logger.go:184. */
    method Clear(slot: nat)
      requires Slots() && slot < maxConcurrent && phases[slot] != Free
      modifies file, this`phases
      ensures Slots() && phases == old(phases)[slot := Cleared]
      ensures SlotIntact(slot) && SameOutside(old(file[..]), file[..], slot)
    {
      hide Partition, Content, Overwrites, SlotHolds, Intact, SameOutside;
      SlotsApart(slot, maxConcurrent);
      ghost var before := file[..];
      Copy(file, Offset(slot), Zeros(ENTRY_SIZE));
      ChangeHeld(free, phases, slot, Cleared);
      ZerosClear(before, file[..], phases, slot);
      phases := phases[slot := Cleared];
    }

    /** Gives the slot back; the channel has room for it, so this never waits (query_logger.go:185). */
    method Release(slot: nat)
      requires Slots() && slot < maxConcurrent && phases[slot] == Cleared
      modifies this
      ensures |old(free)| < maxConcurrent
      ensures Slots() && free == old(free) + [slot] && phases == old(phases)[slot := Free]
      ensures forall i :: SlotIntact(i) == old(SlotIntact(i))
    {
      HeldIsNotFree(free, phases, slot);
      FewerThan(free, maxConcurrent, slot);
      GiveBack(free, phases, slot);
      hide Partition, SlotHolds;
      free := free + [slot];
      phases := phases[slot := Free];
      assert Content(Cleared) == Content(Free);
    }

    /**
     Insert (query_logger.go:188-201) when a slot is free. A query that cannot be cut ends in a panic
     with its slot claimed. Otherwise, in a valid file, the other slots keep every byte, and the file
     stays valid, if and only if the entry is no longer than a slot or there is no slot behind it; the
     entry can be read back from its slot if and only if it is shorter than a slot.
     */
    method Insert(query: seq<byte>, ts: int64)
      returns (slot: nat, ok: bool, ghost trimmed: seq<byte>, ghost entry: seq<byte>)
      requires Slots() && free != []
      modifies this, file
      ensures Slots() && slot == old(free)[0] < maxConcurrent && old(phases)[slot] == Free && free == old(free)[1..]
      ensures phases == old(phases)[slot := if ok then Active(entry) else Claimed]
      ensures RoomFor(ts) >= 0 && (ok <==> CanCut(query, RoomFor(ts)))
      ensures !ok ==> file[..] == old(file[..]) && (old(Valid()) ==> Valid())
      ensures ok ==> IsEntryOf(query, ts, trimmed, entry) && Inserted(old(file[..]), file[..], slot, entry)
      ensures ok && (|entry| <= ENTRY_SIZE || slot + 1 == maxConcurrent) ==> SameOutside(old(file[..]), file[..], slot)
      ensures ok && old(Valid()) ==>
        (SameOutside(old(file[..]), file[..], slot) <==> |entry| <= ENTRY_SIZE || slot + 1 == maxConcurrent)
      ensures ok && old(Valid()) ==> (Valid() <==> |entry| <= ENTRY_SIZE || slot + 1 == maxConcurrent)
      ensures Offset(slot + 1) <= file.Length
      ensures ok && old(SlotIntact(slot)) ==> SlotIntact(slot)
      ensures ok && old(SlotIntact(slot)) ==>
        (NonZero(file[Offset(slot)..Offset(slot + 1)]) == entry + [COMMA] <==> |entry| < ENTRY_SIZE)
    {
      hide Partition, NonZero, Content, IsEntryOf, CanCut, IsText, Overwrites, SameOutside, Inserted, ValidFile, Intact;
      slot := Claim();
      ghost var a, log := file[..], phases;
      SlotsApart(slot, maxConcurrent);
      var e, cut;
      e, cut, ok := NewJSONEntry(query, ts);
      trimmed, entry := cut, e;
      if !ok {
        return;
      }
      CopyEntry(slot, e);
      ghost var b := file[..];
      CopyComma(slot);
      TwoCopies(a, b, file[..], slot, e);
      assert phases == log[slot := Active(e)];
      InsertedIff(a, file[..], log, slot, e);
      if SlotIntact(slot) {
        ReadBack(file[..], phases, slot, e);
      }
    }

    /**
     Delete (query_logger.go:183-186) of a query that holds a slot, however long its entry was. It never
     waits, and it leaves its slot intact and the others as they were.
     */
    method Delete(slot: nat)
      requires Slots() && slot < maxConcurrent && phases[slot] != Free
      modifies this, file
      ensures |old(free)| < maxConcurrent
      ensures Slots() && phases == old(phases)[slot := Free] && free == old(free) + [slot]
      ensures SameOutside(old(file[..]), file[..], slot) && SlotIntact(slot)
      ensures forall i :: i != slot ==> SlotIntact(i) == old(SlotIntact(i))
      ensures old(Valid()) ==> Valid()
    {
      hide Partition, Content, SameOutside, Intact;
      ghost var before, log := file[..], phases;
      Clear(slot);
      forall i | i != slot
        ensures SlotIntact(i) == Intact(before, log, i)
      {
        OthersStay(before, file[..], log, slot, Cleared, i);
      }
      Release(slot);
      FirstByte(before, file[..], slot);
      if old(Valid()) {
        forall i | 0 <= i < maxConcurrent
          ensures Intact(file[..], phases, i)
        {
          assert SlotIntact(i);
        }
      }
    }

    /** What exec does around a query (engine.go:609-616): the slot comes back last in the channel. */
    method Track(query: seq<byte>, ts: int64) returns (ok: bool)
      requires Slots() && free != []
      modifies this, file
      ensures Slots() && RoomFor(ts) >= 0 && (ok <==> CanCut(query, RoomFor(ts)))
      ensures ok ==> phases == old(phases) && free == old(free)[1..] + [old(free)[0]]
      ensures !ok ==> phases == old(phases)[old(free)[0] := Claimed] && free == old(free)[1..]
    {
      hide Partition, CanCut, IsEntryOf, NonZero, SameOutside, Inserted, ValidFile, Intact;
      var slot;
      ghost var trimmed, entry;
      slot, ok, trimmed, entry := Insert(query, ts);
      if ok {
        Delete(slot);
      }
    }
  }

  lemma FirstByte(a: seq<byte>, b: seq<byte>, slot: nat)
    requires SameOutside(a, b, slot) && a != []
    ensures a[0] == b[0]
  {
  }

  // ---------- Recovery ----------

  /**
   After a crash, the file yields the active entries, in slot order, as a JSON array if and only
   if no query was between the two copies of its insertion and no entry was as long as a slot.
   */
  method Recover(t: Tracker) returns (queries: seq<byte>, exist: bool)
    requires t.Valid()
    ensures queries == Closed(Listing(t.phases, |t.phases|)) && (exist <==> Listing(t.phases, |t.phases|) != [])
    ensures queries == Array(Entries(t.phases, |t.phases|)) <==> Settled(t.phases)
  {
    hide NonZero, Listing, Entries, Array, Partition, Content;
    ghost var n := t.maxConcurrent;
    FileListing(t.file[..], t.phases, n);
    ClosedIsArrayIff(t.phases);
    assert t.file[..][..Offset(n)] == t.file[..];
    queries, exist := ParseBrokenJSON(t.file[..]);
    ghost var l := Listing(t.phases, n);
    if l != [] {
      assert ([OPEN] + l)[..|l|] == [OPEN] + l[..|l| - 1];
    }
  }
}
