/**
 The entries of the active-query log (pkg/promql/query_logger.go:37-40, 137-171): a JSON object
 with a query, cut to what is left of a slot before it is escaped, and a time. The encoder is
 encoding/json of Go 1.19, whose strings are those of JsonEscape with HTML escaping.
 */
module QueryEntry {
  import opened Arith
  import opened JsonEscape

  const ENTRY_SIZE := 1000
  const COMMA: byte := 0x2C
  const BRACE: byte := 0x7B
  const END_BRACE: byte := 0x7D

  // ---------- The JSON object ----------

  function Digits(n: nat): (r: seq<byte>)
    ensures r != [] && forall i :: 0 <= i < |r| ==> 0x30 <= r[i] <= 0x39
  {
    if n < 10 then [0x30 + n] else Digits(n / 10) + [0x30 + n % 10]
  }

  function Decimal(n: int): (r: seq<byte>)
    ensures r != [] && forall i :: 0 <= i < |r| ==> r[i] == 0x2D || 0x30 <= r[i] <= 0x39
  {
    if n < 0 then [0x2D] + Digits(-n) else Digits(n)
  }

  /** The number that decimal digits stand for. */
  function NumberOf(digits: seq<byte>): int {
    if digits == [] then 0 else 10 * NumberOf(digits[..|digits| - 1]) + digits[|digits| - 1] - 0x30
  }

  lemma {:induction false} DigitsRead(n: nat)
    ensures NumberOf(Digits(n)) == n
    ensures |Digits(n)| > 1 ==> Digits(n)[0] != 0x30
  {
    if n >= 10 {
      DigitsRead(n / 10);
      assert Digits(n)[..|Digits(n)| - 1] == Digits(n / 10);
    }
  }

  /** Reading a timestamp back gives the timestamp. */
  lemma DecimalReads(n: int)
    ensures if n < 0 then Decimal(n)[0] == 0x2D && NumberOf(Decimal(n)[1..]) == -n else NumberOf(Decimal(n)) == n
  {
    DigitsRead(if n < 0 then -n else n);
  }

  /** {"query":" */
  const HEAD: seq<byte> := [BRACE, QUOTE, 0x71, 0x75, 0x65, 0x72, 0x79, QUOTE, 0x3A, QUOTE]

  /** ","timestamp_sec": */
  const MIDDLE: seq<byte> :=
    [QUOTE, COMMA, QUOTE, 0x74, 0x69, 0x6D, 0x65, 0x73, 0x74, 0x61, 0x6D, 0x70, 0x5F, 0x73, 0x65, 0x63, QUOTE, 0x3A]

  /** The bytes of a text in ASCII. */
  function Ascii(s: string): seq<int> {
    seq(|s|, i requires 0 <= i < |s| => s[i] as int)
  }

  lemma FieldNames()
    ensures HEAD == Ascii("{\"query\":\"") && MIDDLE == Ascii("\",\"timestamp_sec\":")
  {
  }

  function Tail(ts: int64): seq<byte> {
    MIDDLE + Decimal(ts) + [END_BRACE]
  }

  function Entry(query: seq<byte>, ts: int64): seq<byte> {
    HEAD + Escape(query, true) + Tail(ts)
  }

  /** What is left for the query in a slot, with a comma behind the entry. */
  function RoomFor(ts: int64): int {
    ENTRY_SIZE - (|Entry([], ts)| + 1)
  }

  function Pow10(k: nat): nat {
    if k == 0 then 1 else 10 * Pow10(k - 1)
  }

  lemma {:induction false} DigitsBound(n: nat, k: nat)
    requires k > 0 && n < Pow10(k)
    ensures |Digits(n)| <= k
    decreases k
  {
    if n >= 10 {
      DigitsBound(n / 10, k - 1);
    }
  }

  lemma PowersOfTen()
    ensures TWO63 < Pow10(19)
  {
    assert Pow10(4) == 10000;
    assert Pow10(8) == 10000 * Pow10(4);
    assert Pow10(12) == 10000 * Pow10(8);
    assert Pow10(16) == 10000 * Pow10(12);
    assert Pow10(19) == 1000 * Pow10(16);
  }

  lemma RoomIsEnough(ts: int64)
    ensures 950 <= RoomFor(ts) <= 970
    ensures RoomFor(ts) == ENTRY_SIZE - 1 - |HEAD| - |Tail(ts)|
  {
    PowersOfTen();
    var n: nat := if ts < 0 then 0 - ts as int else ts as int;
    DigitsBound(n, 19);
    assert Escape([], true) == [];
  }

  lemma EntrySize(query: seq<byte>, ts: int64)
    ensures |Entry(query, ts)| == ENTRY_SIZE - 1 - RoomFor(ts) + |Escape(query, true)|
  {
    RoomIsEnough(ts);
  }

  /** From k on, the bytes agree with the beginning of an entry as far as they go. */
  predicate LikeStart(e: seq<byte>, k: nat)
    requires k < |e|
  {
    e[k] == HEAD[0] && (k + 1 < |e| ==> e[k + 1] == HEAD[1]) && (k + 2 < |e| ==> e[k + 2] == HEAD[2])
  }

  /** The bytes that a log can hold: they begin like an entry, and only once, and none is zero. */
  predicate IsText(e: seq<byte>) {
    && |e| > 3 && LikeStart(e, 0)
    && (forall i :: 0 <= i < |e| ==> e[i] != 0)
    && (forall k :: 0 < k < |e| ==> !LikeStart(e, k))
  }

  lemma EntryIsText(query: seq<byte>, ts: int64)
    ensures IsText(Entry(query, ts))
  {
    hide Escape, Decimal;
    var e, text := Entry(query, ts), Escape(query, true);
    EscapeIsClean(query, true);
    forall i | 0 <= i < |e|
      ensures e[i] != 0
    {
      if |HEAD| <= i < |HEAD| + |text| {
        CleanAt(text, true, i - |HEAD|);
      }
    }
    forall k | 0 < k < |e|
      ensures !LikeStart(e, k)
    {
      NoSecondStart(query, ts, k);
    }
  }

  /** No later part of an entry can pass for the beginning of one, not even at its end. */
  lemma NoSecondStart(query: seq<byte>, ts: int64, k: nat)
    requires 0 < k < |Entry(query, ts)|
    ensures !LikeStart(Entry(query, ts), k)
  {
    hide Escape, Decimal;
    var e, text := Entry(query, ts), Escape(query, true);
    var m := |HEAD| + |text|;
    EscapeIsClean(query, true);
    if e[k] == BRACE {
      NoBraceInTail(ts, k - m);
      assert |HEAD| <= k < m;
      assert e[m] == QUOTE && e[m + 1] == COMMA;
      if k + 1 < m && e[k + 1] == QUOTE {
        CleanAt(text, true, k + 1 - |HEAD|);
      }
    }
  }

  lemma NoBraceInTail(ts: int64, i: int)
    ensures 0 <= i < |Tail(ts)| ==> Tail(ts)[i] != BRACE
  {
    hide Decimal;
  }

  // ---------- Cutting the query ----------

  /** utf8.RuneStart. */
  predicate RuneStart(b: byte) {
    !(0x80 <= b < 0xC0)
  }

  /** A string can be cut at its end and where a rune starts. */
  predicate CutPlace(s: seq<byte>, k: nat)
    requires k <= |s|
  {
    k == |s| || RuneStart(s[k])
  }

  /** There is a place to cut within the size. */
  ghost predicate CanCut(s: seq<byte>, size: nat) {
    exists k :: 0 <= k <= size && k <= |s| && CutPlace(s, k)
  }

  /** The longest prefix within the size that ends at a place to cut. */
  ghost predicate IsCut(s: seq<byte>, size: nat, r: seq<byte>) {
    && r <= s && |r| <= size && CutPlace(s, |r|)
    && forall k :: |r| < k <= size && k <= |s| ==> !CutPlace(s, k)
  }

  /** trimStringByBytes (query_logger.go:137-149): it runs off the front if no rune starts in time. */
  method TrimStringByBytes(s: seq<byte>, size: nat) returns (r: seq<byte>, ok: bool)
    ensures ok <==> CanCut(s, size)
    ensures ok ==> IsCut(s, size, r)
  {
    if |s| <= size {
      assert CutPlace(s, |s|);
      return s, true;
    }
    var trimIndex: int := size;
    while trimIndex >= 0 && !RuneStart(s[trimIndex])
      invariant -1 <= trimIndex <= size
      invariant forall k :: trimIndex < k <= size ==> !CutPlace(s, k)
    {
      trimIndex := trimIndex - 1;
    }
    if trimIndex < 0 {
      return [], false;
    }
    assert CutPlace(s, trimIndex);
    return s[..trimIndex], true;
  }

  /** Text that starts with a rune can be cut, so a query that was parsed can be. */
  lemma TextCanBeCut(s: seq<byte>, size: nat)
    requires s == [] || RuneStart(s[0])
    ensures CanCut(s, size)
  {
    assert CutPlace(s, 0);
  }

  /** Continuation bytes alone cannot, from one more than the size on. */
  lemma ContinuationCannotBeCut(n: nat, size: nat)
    requires n > size
    ensures !CanCut(seq(n, i => 0x80), size)
  {
  }

  /** What newJSONEntry makes of a query that can be cut. */
  ghost predicate IsEntryOf(query: seq<byte>, ts: int64, trimmed: seq<byte>, entry: seq<byte>) {
    RoomFor(ts) >= 0 && IsCut(query, RoomFor(ts), trimmed) && entry == Entry(trimmed, ts)
  }

  /** newJSONEntry (query_logger.go:163-171). */
  method NewJSONEntry(query: seq<byte>, ts: int64) returns (entry: seq<byte>, trimmed: seq<byte>, ok: bool)
    ensures RoomFor(ts) >= 0 && (ok <==> CanCut(query, RoomFor(ts)))
    ensures ok ==> IsEntryOf(query, ts, trimmed, entry) && IsText(entry)
    ensures ok ==> (|entry| < ENTRY_SIZE <==> |Escape(trimmed, true)| <= RoomFor(ts))
  {
    hide Escape, Tail;
    RoomIsEnough(ts);
    var minEntry := Entry([], ts);
    trimmed, ok := TrimStringByBytes(query, ENTRY_SIZE - (|minEntry| + 1));
    entry := Entry(trimmed, ts);
    EntrySize(trimmed, ts);
    EntryIsText(trimmed, ts);
  }

  /** A query of bytes that need no escaping fits, however long it is. */
  lemma SafeQueriesFit(query: seq<byte>, ts: int64, trimmed: seq<byte>, entry: seq<byte>)
    requires forall i :: 0 <= i < |query| ==> Harmless(query[i], true)
    requires IsEntryOf(query, ts, trimmed, entry)
    ensures |entry| < ENTRY_SIZE
  {
    HarmlessStays(trimmed, true);
    EntrySize(trimmed, ts);
  }

  /** A query of quotation marks does not: from 500 of them on, it is longer than a slot. */
  lemma QuotesDoNotFit(n: nat, ts: int64, trimmed: seq<byte>, entry: seq<byte>)
    requires n >= 500 && IsEntryOf(seq(n, i => QUOTE), ts, trimmed, entry)
    ensures |entry| > ENTRY_SIZE
  {
    var query: seq<byte> := seq(n, i => QUOTE);
    RoomIsEnough(ts);
    var m := |trimmed|;
    if m < 500 {
      assert CutPlace(query, m + 1);
    }
    assert m >= 500;
    assert trimmed == seq(m, i => QUOTE);
    QuotesDouble(m, true);
    EntrySize(trimmed, ts);
  }
}
