/**
 The escaping of JSON strings (WriteEscapedString, pkg/api/marshal.go:246-318, with the tables
 at 320-529), and the reading of JSON strings by section 7 of RFC 8259. Strings are bytes; the
 decoding of runes is that of Go's utf8.DecodeRuneInString.
 */
module JsonEscape {
  import opened Arith

  // ---------- Runes ----------

  predicate Cont(b: byte) {
    0x80 <= b <= 0xBF
  }

  /** The length of the rune that a string starts with; 0 if its first bytes are not valid UTF-8. */
  function RuneLen(s: seq<byte>): (n: nat)
    requires s != []
    ensures n <= 4 && n <= |s|
  {
    var b := s[0];
    if b < 0x80 then 1
    else if 0xC2 <= b <= 0xDF then if |s| >= 2 && Cont(s[1]) then 2 else 0
    else if 0xE0 <= b <= 0xEF then
      var lo, hi := if b == 0xE0 then 0xA0 else 0x80, if b == 0xED then 0x9F else 0xBF;
      if |s| >= 3 && lo <= s[1] <= hi && Cont(s[2]) then 3 else 0
    else if 0xF0 <= b <= 0xF4 then
      var lo, hi := if b == 0xF0 then 0x90 else 0x80, if b == 0xF4 then 0x8F else 0xBF;
      if |s| >= 4 && lo <= s[1] <= hi && Cont(s[2]) && Cont(s[3]) then 4 else 0
    else 0
  }

  /** The code point of a valid rune. */
  function RuneOf(s: seq<byte>): int
    requires s != [] && RuneLen(s) > 0
  {
    var n := RuneLen(s);
    if n == 1 then s[0]
    else if n == 2 then Bits(s[0], 0xC0) * 0x40 + Bits(s[1], 0x80)
    else if n == 3 then Bits(s[0], 0xE0) * 0x1000 + Bits(s[1], 0x80) * 0x40 + Bits(s[2], 0x80)
    else Bits(s[0], 0xF0) * 0x40000 + Bits(s[1], 0x80) * 0x1000 + Bits(s[2], 0x80) * 0x40 + Bits(s[3], 0x80)
  }

  /** The payload bits of a byte with a marker. */
  function Bits(b: int, marker: int): int {
    b - marker
  }

  /** How far the loop moves on: over a rune, or over one byte that is not part of one. */
  function Step(s: seq<byte>): (n: nat)
    requires s != []
    ensures 0 < n <= |s|
  {
    if RuneLen(s) == 0 then 1 else RuneLen(s)
  }

  /** What follows a valid rune does not matter to its decoding. */
  lemma RuneStands(s: seq<byte>, rest: seq<byte>)
    requires s != [] && RuneLen(s) > 0
    ensures var t := s[..RuneLen(s)] + rest;
      t != [] && RuneLen(t) == RuneLen(s) && t[..RuneLen(t)] == s[..RuneLen(s)] && t[RuneLen(t)..] == rest
  {
  }

  // ---------- Escaping ----------

  const QUOTE: byte := 0x22
  const BACKSLASH: byte := 0x5C
  const LETTER_U: byte := 0x75
  const REPLACEMENT: seq<byte> := [0xEF, 0xBF, 0xBD]

  predicate IsHtml(b: byte) {
    b == 0x3C || b == 0x3E || b == 0x26
  }

  /** safeSet and htmlSafeSet (marshal.go:320-529): what needs no escaping. */
  predicate Safe(b: byte, escapeHTML: bool) {
    0x20 <= b < 0x80 && b != QUOTE && b != BACKSLASH && !(escapeHTML && IsHtml(b))
  }

  function Hex(d: int): byte
    requires 0 <= d < 16
  {
    if d < 10 then 0x30 + d else 0x61 + d - 10
  }

  /** The escape of an ASCII character that is not safe. */
  function EscapeAscii(b: byte): seq<byte> {
    if b == BACKSLASH then [BACKSLASH, BACKSLASH]
    else if b == QUOTE then [BACKSLASH, QUOTE]
    else if b == 0x0A then [BACKSLASH, 0x6E]
    else if b == 0x0D then [BACKSLASH, 0x72]
    else if b == 0x09 then [BACKSLASH, 0x74]
    else [BACKSLASH, LETTER_U, 0x30, 0x30, Hex(b / 16), Hex(b % 16)]
  }

  predicate IsSeparator(c: int) {
    c == 0x2028 || c == 0x2029
  }

  /** Whether the rune or byte at the front is copied as it is. */
  predicate Plain(s: seq<byte>, escapeHTML: bool)
    requires s != []
  {
    if s[0] < 0x80 then Safe(s[0], escapeHTML) else RuneLen(s) > 0 && !IsSeparator(RuneOf(s))
  }

  function EscapeFirst(s: seq<byte>, escapeHTML: bool): seq<byte>
    requires s != []
  {
    if Plain(s, escapeHTML) then s[..Step(s)]
    else if s[0] < 0x80 then EscapeAscii(s[0])
    else if RuneLen(s) == 0 then [BACKSLASH, LETTER_U, 0x66, 0x66, 0x66, 0x64]
    else [BACKSLASH, LETTER_U, 0x32, 0x30, 0x32, Hex(RuneOf(s) % 16)]
  }

  function Escape(s: seq<byte>, escapeHTML: bool): seq<byte> {
    if s == [] then [] else EscapeFirst(s, escapeHTML) + Escape(s[Step(s)..], escapeHTML)
  }

  // ---------- Writing ----------

  /** The part of a text that a writer takes when it fails after `room` bytes. */
  function Fitting(text: seq<byte>, room: nat): seq<byte> {
    if |text| <= room then text else text[..room]
  }

  /** A writer that fails after some number of bytes; the first failure sticks (marshal.go:174-203). */
  class ErrorWrapper {
    var out: seq<byte>
    var room: nat
    var err: bool

    method WriteBytes(b: seq<byte>)
      modifies this
      ensures old(err) ==> err && out == old(out) && room == old(room)
      ensures !old(err) ==> out == old(out) + Fitting(b, old(room)) && err == (|b| > old(room))
      ensures |out| + room == |old(out)| + old(room)
    {
      if err {
        return;
      }
      var n := if |b| <= room then |b| else room;
      out := out + b[..n];
      room := room - n;
      err := n < |b|;
    }

    /** Writes the part that needed no escaping and has not been written, and then an escape. */
    method Flush(plain: seq<byte>, escape: seq<byte>)
      modifies this
      ensures old(err) ==> err && out == old(out) && room == old(room)
      ensures !old(err) ==> out == old(out) + Fitting(plain + escape, old(room))
      ensures !old(err) ==> err == (|plain + escape| > old(room))
      ensures !old(err) && err ==> room == 0
      ensures |out| + room == |old(out)| + old(room)
    {
      if |plain| > 0 {
        WriteBytes(plain);
      }
      WriteBytes(escape);
    }

    /** WriteEscapedString (marshal.go:246-318). */
    method WriteEscapedString(s: seq<byte>, escapeHTML: bool)
      modifies this
      ensures old(err) ==> err && out == old(out)
      ensures !old(err) ==> out == old(out) + Fitting(Escape(s, escapeHTML), old(room))
      ensures !old(err) ==> err == (|Escape(s, escapeHTML)| > old(room))
    {
      hide RuneLen, RuneOf, EscapeAscii, Escape, EscapeFirst, Pending;
      if err {
        return;
      }
      ghost var target := out + Escape(s, escapeHTML);
      var start, i := 0, 0;
      PendingAll(out, s, escapeHTML);
      while i < |s|
        invariant 0 <= start <= i <= |s|
        invariant out <= target && |out| + room == |old(out)| + old(room)
        invariant if err then room == 0 && |out| < |target| else Pending(out, s, start, i, escapeHTML, target)
      {
        var rest, b := s[i..], s[i];
        ghost var before, failed, left := out, err, room;
        Cases(rest, escapeHTML);
        if b < 0x80 {
          if Safe(b, escapeHTML) {
            Grow(before, s, start, i, 1, escapeHTML, target, failed);
            i := i + 1;
            continue;
          }
          Flush(s[start..i], EscapeAscii(b));
          Flushed(before, s, start, i, 1, escapeHTML, target, failed, left);
          i := i + 1;
          start := i;
          continue;
        }
        var size := RuneLen(rest);
        if size == 0 {
          Flush(s[start..i], [BACKSLASH, LETTER_U, 0x66, 0x66, 0x66, 0x64]);
          Flushed(before, s, start, i, 1, escapeHTML, target, failed, left);
          i := i + 1;
          start := i;
          continue;
        }
        var c := RuneOf(rest);
        if IsSeparator(c) {
          Flush(s[start..i], [BACKSLASH, LETTER_U, 0x32, 0x30, 0x32, Hex(c % 16)]);
          Flushed(before, s, start, i, size, escapeHTML, target, failed, left);
          i := i + size;
          start := i;
          continue;
        }
        Grow(before, s, start, i, size, escapeHTML, target, failed);
        i := i + size;
      }
      PendingLast(out, s, start, escapeHTML, target, err);
      if start < |s| {
        WriteBytes(s[start..]);
      }
      assert out <= target && if err then |out| < |target| else out == target;
    }
  }

  /** What was written, what still has to be, and the escape of the rest make up the whole. */
  ghost predicate Pending(out: seq<byte>, s: seq<byte>, start: nat, i: nat, escapeHTML: bool, target: seq<byte>)
    requires start <= i <= |s|
  {
    out + s[start..i] + Escape(s[i..], escapeHTML) == target
  }

  /** What a flush leaves of the target, whether or not it fails. */
  lemma PartTaken(before: seq<byte>, plain: seq<byte>, escape: seq<byte>, room: nat, target: seq<byte>)
    requires before + plain + escape <= target
    ensures var out := before + Fitting(plain + escape, room);
      out <= target && if |plain + escape| > room then |out| < |target| else out == before + plain + escape
  {
    assert before + (plain + escape) == before + plain + escape;
  }

  lemma PendingAll(out: seq<byte>, s: seq<byte>, escapeHTML: bool)
    ensures Pending(out, s, 0, 0, escapeHTML, out + Escape(s, escapeHTML))
  {
    assert s[0..] == s && out + s[0..0] == out;
  }

  lemma PendingLast(out: seq<byte>, s: seq<byte>, start: nat, escapeHTML: bool, target: seq<byte>, failed: bool)
    requires start <= |s| && (failed || Pending(out, s, start, |s|, escapeHTML, target))
    ensures !failed ==> out + s[start..] == target && (start == |s| ==> out == target)
  {
    if !failed {
      assert out + s[start..|s|] + [] == target;
    }
  }

  /** The branches of the loop. */
  lemma Cases(s: seq<byte>, escapeHTML: bool)
    requires s != []
    ensures s[0] < 0x80 ==> Step(s) == 1
    ensures s[0] < 0x80 && Safe(s[0], escapeHTML) ==> EscapeFirst(s, escapeHTML) == s[..1]
    ensures s[0] < 0x80 && !Safe(s[0], escapeHTML) ==> EscapeFirst(s, escapeHTML) == EscapeAscii(s[0])
    ensures s[0] >= 0x80 && RuneLen(s) == 0 ==>
      Step(s) == 1 && EscapeFirst(s, escapeHTML) == [BACKSLASH, LETTER_U, 0x66, 0x66, 0x66, 0x64]
    ensures s[0] >= 0x80 && RuneLen(s) > 0 ==> Step(s) == RuneLen(s)
    ensures s[0] >= 0x80 && RuneLen(s) > 0 && !IsSeparator(RuneOf(s)) ==> EscapeFirst(s, escapeHTML) == s[..RuneLen(s)]
    ensures s[0] >= 0x80 && RuneLen(s) > 0 && IsSeparator(RuneOf(s)) ==>
      EscapeFirst(s, escapeHTML) == [BACKSLASH, LETTER_U, 0x32, 0x30, 0x32, Hex(RuneOf(s) % 16)]
  {
    hide RuneOf, EscapeAscii;
  }

  lemma Grow(out: seq<byte>, s: seq<byte>, start: nat, i: nat, n: nat, escapeHTML: bool, target: seq<byte>,
             failed: bool)
    requires start <= i < |s| && n == Step(s[i..]) && EscapeFirst(s[i..], escapeHTML) == s[i..][..n]
    requires failed || Pending(out, s, start, i, escapeHTML, target)
    ensures i + n <= |s| && (failed || Pending(out, s, start, i + n, escapeHTML, target))
  {
    hide EscapeFirst, Step;
    if !failed {
      assert s[start..i + n] == s[start..i] + s[i..][..n];
      assert s[i..][n..] == s[i + n..];
      assert Escape(s[i..], escapeHTML) == s[i..][..n] + Escape(s[i + n..], escapeHTML);
    }
  }

  lemma Flushed(out: seq<byte>, s: seq<byte>, start: nat, i: nat, n: nat, escapeHTML: bool, target: seq<byte>,
                failed: bool, room: nat)
    requires start <= i < |s| && n == Step(s[i..])
    requires failed || Pending(out, s, start, i, escapeHTML, target)
    ensures i + n <= |s|
    ensures var part := s[start..i] + EscapeFirst(s[i..], escapeHTML);
      var now := out + Fitting(part, room);
      failed || (now <= target &&
                 if |part| > room then |now| < |target| else Pending(now, s, i + n, i + n, escapeHTML, target))
  {
    hide EscapeFirst, Step, Fitting;
    if !failed {
      var plain, escape := s[start..i], EscapeFirst(s[i..], escapeHTML);
      var all, tail := out + plain + escape, Escape(s[i + n..], escapeHTML);
      assert s[i..][n..] == s[i + n..];
      assert Escape(s[i..], escapeHTML) == escape + tail;
      assert all + [] == all;
      assert out + plain + (escape + tail) == all + tail;
      PartTaken(out, plain, escape, room, target);
    }
  }

  // ---------- Reading a JSON string by section 7 of RFC 8259 ----------

  datatype Text = Text(bytes: seq<byte>) | Malformed

  function Prepend(b: seq<byte>, t: Text): Text {
    if t.Text? then Text(b + t.bytes) else Malformed
  }

  /** The value of a hexadecimal digit in either case; -1 for other characters. */
  function HexValue(b: byte): int {
    if 0x30 <= b <= 0x39 then b as int - 0x30
    else if 0x61 <= b <= 0x66 then b as int - 0x61 + 10
    else if 0x41 <= b <= 0x46 then b as int - 0x41 + 10
    else -1
  }

  /** The code unit of a \u escape; -1 if there are no four digits. */
  function CodeUnit(t: seq<byte>): int {
    if |t| < 6 || t[0] != BACKSLASH || t[1] != LETTER_U then -1
    else
      var a, b, c, d := HexValue(t[2]), HexValue(t[3]), HexValue(t[4]), HexValue(t[5]);
      if a < 0 || b < 0 || c < 0 || d < 0 then -1 else a * 0x1000 + b * 0x100 + c * 0x10 + d
  }

  /** The UTF-8 encoding of a code point. */
  function Utf8(c: int): seq<byte>
    requires 0 <= c < 0x110000
  {
    if c < 0x80 then [c]
    else if c < 0x800 then [0xC0 + c / 0x40, 0x80 + c % 0x40]
    else if c < 0x10000 then [0xE0 + c / 0x1000, 0x80 + c / 0x40 % 0x40, 0x80 + c % 0x40]
    else [0xF0 + c / 0x40000, 0x80 + c / 0x1000 % 0x40, 0x80 + c / 0x40 % 0x40, 0x80 + c % 0x40]
  }

  /** The character that a two-character escape stands for; -1 if there is no such escape. */
  function ShortEscape(b: byte): int {
    if b == QUOTE || b == BACKSLASH || b == 0x2F then b
    else if b == 0x62 then 0x08
    else if b == 0x66 then 0x0C
    else if b == 0x6E then 0x0A
    else if b == 0x72 then 0x0D
    else if b == 0x74 then 0x09
    else -1
  }

  /** A code point beyond the Basic Multilingual Plane from a surrogate pair. */
  function FromSurrogates(high: int, low: int): int {
    0x10000 + (high - 0xD800) * 0x400 + (low - 0xDC00)
  }

  /** The contents of a JSON string, between its quotation marks. */
  function Unescape(t: seq<byte>): Text
    decreases |t|
  {
    if t == [] then Text([])
    else if t[0] == BACKSLASH then
      var c := CodeUnit(t);
      if 0 <= c < 0xD800 || 0xE000 <= c < 0x10000 then Prepend(Utf8(c), Unescape(t[6..]))
      else if 0xD800 <= c < 0xDC00 && 0xDC00 <= CodeUnit(t[6..]) < 0xE000 then
        Prepend(Utf8(FromSurrogates(c, CodeUnit(t[6..]))), Unescape(t[12..]))
      else if |t| >= 2 && ShortEscape(t[1]) >= 0 then Prepend([ShortEscape(t[1])], Unescape(t[2..]))
      else Malformed
    else if t[0] == QUOTE || t[0] < 0x20 || RuneLen(t) == 0 then Malformed
    else Prepend(t[..RuneLen(t)], Unescape(t[RuneLen(t)..]))
  }

  // ---------- The round trip ----------

  function SanitizeFirst(s: seq<byte>): seq<byte>
    requires s != []
  {
    if RuneLen(s) == 0 then REPLACEMENT else s[..RuneLen(s)]
  }

  /** The string with U+FFFD for each byte that is not part of a valid rune. */
  function Sanitize(s: seq<byte>): seq<byte> {
    if s == [] then [] else SanitizeFirst(s) + Sanitize(s[Step(s)..])
  }

  predicate ValidUtf8(s: seq<byte>) {
    s == [] || (RuneLen(s) > 0 && ValidUtf8(s[RuneLen(s)..]))
  }

  lemma ReadCodeUnit(t: seq<byte>, c: int)
    requires CodeUnit(t) == c && (0 <= c < 0xD800 || 0xE000 <= c < 0x10000)
    ensures Unescape(t) == Prepend(Utf8(c), Unescape(t[6..]))
  {
    hide CodeUnit, Utf8, RuneLen;
    assert |t| >= 6 && t[0] == BACKSLASH by { CodeUnitShape(t); }
  }

  lemma CodeUnitShape(t: seq<byte>)
    requires CodeUnit(t) >= 0
    ensures |t| >= 6 && t[0] == BACKSLASH && t[1] == LETTER_U
  {
  }

  lemma ReadShort(t: seq<byte>, b: byte)
    requires |t| >= 2 && t[0] == BACKSLASH && ShortEscape(t[1]) == b
    ensures Unescape(t) == Prepend([b], Unescape(t[2..]))
  {
    hide Utf8, RuneLen;
    assert CodeUnit(t) == -1;
  }

  lemma ReadPlain(t: seq<byte>)
    requires t != [] && t[0] != BACKSLASH && t[0] != QUOTE && t[0] >= 0x20 && RuneLen(t) > 0
    ensures Unescape(t) == Prepend(t[..RuneLen(t)], Unescape(t[RuneLen(t)..]))
  {
    hide RuneLen;
  }

  lemma HexDigits(b: byte, rest: seq<byte>)
    requires b < 0x80
    ensures CodeUnit([BACKSLASH, LETTER_U, 0x30, 0x30, Hex(b / 16), Hex(b % 16)] + rest) == b
  {
    assert HexValue(Hex(b / 16)) == b / 16 && HexValue(Hex(b % 16)) == b % 16;
  }

  lemma AsciiRoundTrip(b: byte, rest: seq<byte>)
    requires b < 0x80
    ensures Unescape(EscapeAscii(b) + rest) == Prepend([b], Unescape(rest))
  {
    hide Unescape, CodeUnit;
    var t := EscapeAscii(b) + rest;
    if b == BACKSLASH || b == QUOTE || b == 0x0A || b == 0x0D || b == 0x09 {
      assert t[2..] == rest;
      ReadShort(t, b);
    } else {
      assert t[6..] == rest;
      HexDigits(b, rest);
      ReadCodeUnit(t, b);
    }
  }

  lemma ReplacementRoundTrip(rest: seq<byte>)
    ensures Unescape([BACKSLASH, LETTER_U, 0x66, 0x66, 0x66, 0x64] + rest) == Prepend(REPLACEMENT, Unescape(rest))
  {
    var t := [BACKSLASH, LETTER_U, 0x66, 0x66, 0x66, 0x64] + rest;
    assert CodeUnit(t) == 0xFFFD;
    assert Utf8(0xFFFD) == REPLACEMENT;
    assert t[6..] == rest;
    hide Unescape, CodeUnit, Utf8;
    ReadCodeUnit(t, 0xFFFD);
  }

  lemma SeparatorBytes(s: seq<byte>)
    requires s != [] && RuneLen(s) > 0 && IsSeparator(RuneOf(s))
    ensures RuneLen(s) == 3 && s[..3] == Utf8(RuneOf(s))
  {
    var c := RuneOf(s);
    assert RuneLen(s) != 4 ==> c < 0x10000;
  }

  lemma SeparatorRoundTrip(c: int, rest: seq<byte>)
    requires IsSeparator(c)
    ensures Unescape([BACKSLASH, LETTER_U, 0x32, 0x30, 0x32, Hex(c % 16)] + rest) == Prepend(Utf8(c), Unescape(rest))
  {
    var t := [BACKSLASH, LETTER_U, 0x32, 0x30, 0x32, Hex(c % 16)] + rest;
    assert HexValue(Hex(c % 16)) == c % 16;
    assert CodeUnit(t) == c;
    assert t[6..] == rest;
    hide Unescape, CodeUnit, Utf8;
    ReadCodeUnit(t, c);
  }

  lemma FirstRoundTrip(s: seq<byte>, escapeHTML: bool, rest: seq<byte>)
    requires s != []
    ensures Unescape(EscapeFirst(s, escapeHTML) + rest) == Prepend(SanitizeFirst(s), Unescape(rest))
  {
    hide Unescape, RuneLen, RuneOf, EscapeAscii, Utf8, EscapeFirst;
    Cases(s, escapeHTML);
    if s[0] < 0x80 {
      assert RuneLen(s) == 1 by { AsciiRune(s); }
      if Safe(s[0], escapeHTML) {
        RuneStands(s, rest);
        ReadPlain(s[..1] + rest);
      } else {
        assert s[..1] == [s[0]];
        AsciiRoundTrip(s[0], rest);
      }
    } else if RuneLen(s) == 0 {
      ReplacementRoundTrip(rest);
    } else if IsSeparator(RuneOf(s)) {
      SeparatorBytes(s);
      SeparatorRoundTrip(RuneOf(s), rest);
    } else {
      RuneStands(s, rest);
      ReadPlain(s[..RuneLen(s)] + rest);
    }
  }

  lemma AsciiRune(s: seq<byte>)
    requires s != [] && s[0] < 0x80
    ensures RuneLen(s) == 1
  {
  }

  /** Reading what was written gives the string back, with U+FFFD for each invalid byte. */
  lemma {:induction false} EscapeRoundTrip(s: seq<byte>, escapeHTML: bool)
    ensures Unescape(Escape(s, escapeHTML)) == Text(Sanitize(s))
  {
    if s != [] {
      hide Unescape, EscapeFirst, SanitizeFirst, Step;
      var rest := s[Step(s)..];
      EscapeRoundTrip(rest, escapeHTML);
      FirstRoundTrip(s, escapeHTML, Escape(rest, escapeHTML));
    } else {
      assert Escape(s, escapeHTML) == [];
    }
  }

  /** A string comes back unchanged exactly if it is valid UTF-8. */
  lemma {:induction false} SanitizeKeepsIff(s: seq<byte>)
    ensures Sanitize(s) == s <==> ValidUtf8(s)
    ensures |Sanitize(s)| >= |s|
  {
    if s != [] {
      hide RuneLen;
      var n := Step(s);
      SanitizeKeepsIff(s[n..]);
      assert s == s[..n] + s[n..];
      if RuneLen(s) > 0 {
        SamePrefix(s[..n], Sanitize(s[n..]), s[n..]);
      }
    }
  }

  lemma SamePrefix(a: seq<byte>, b: seq<byte>, c: seq<byte>)
    ensures a + b == a + c <==> b == c
  {
    if a + b == a + c {
      assert (a + b)[|a|..] == (a + c)[|a|..];
      assert (a + b)[|a|..] == b && (a + c)[|a|..] == c;
    }
  }

  // ---------- What the output never contains ----------

  predicate CleanByte(b: byte, escapeHTML: bool) {
    b >= 0x20 && !(escapeHTML && IsHtml(b))
  }

  predicate Unmarked(b: byte, escapeHTML: bool) {
    b != QUOTE && b != BACKSLASH && CleanByte(b, escapeHTML)
  }

  /**
   Read from the front, a backslash takes the next byte along; apart from such pairs there is no
   quotation mark. There is no control byte and, if asked for, no <, > or &.
   */
  predicate Clean(t: seq<byte>, escapeHTML: bool) {
    if t == [] then true
    else if t[0] == BACKSLASH then |t| >= 2 && CleanByte(t[1], escapeHTML) && Clean(t[2..], escapeHTML)
    else t[0] != QUOTE && CleanByte(t[0], escapeHTML) && Clean(t[1..], escapeHTML)
  }

  lemma {:induction false} CleanJoin(a: seq<byte>, b: seq<byte>, escapeHTML: bool)
    requires Clean(a, escapeHTML) && Clean(b, escapeHTML)
    ensures Clean(a + b, escapeHTML)
    decreases |a|
  {
    hide CleanByte;
    if a == [] {
      assert a + b == b;
    } else if a[0] == BACKSLASH {
      assert (a + b)[2..] == a[2..] + b;
      CleanJoin(a[2..], b, escapeHTML);
    } else {
      assert (a + b)[1..] == a[1..] + b;
      CleanJoin(a[1..], b, escapeHTML);
    }
  }

  lemma {:induction false} UnmarkedIsClean(t: seq<byte>, escapeHTML: bool)
    requires forall i :: 0 <= i < |t| ==> Unmarked(t[i], escapeHTML)
    ensures Clean(t, escapeHTML)
    decreases |t|
  {
    if t != [] {
      UnmarkedIsClean(t[1..], escapeHTML);
    }
  }

  lemma UnitIsClean(a: byte, b: byte, c: byte, d: byte, escapeHTML: bool)
    requires Unmarked(a, escapeHTML) && Unmarked(b, escapeHTML) && Unmarked(c, escapeHTML) && Unmarked(d, escapeHTML)
    ensures Clean([BACKSLASH, LETTER_U, a, b, c, d], escapeHTML)
  {
    var t := [BACKSLASH, LETTER_U, a, b, c, d];
    assert t[2..] == [a, b, c, d];
    UnmarkedIsClean(t[2..], escapeHTML);
  }

  lemma AsciiIsClean(b: byte, escapeHTML: bool)
    requires b < 0x80
    ensures Clean(EscapeAscii(b), escapeHTML)
  {
    var t := EscapeAscii(b);
    if |t| == 2 {
      assert t[2..] == [];
    } else {
      UnitIsClean(0x30, 0x30, Hex(b / 16), Hex(b % 16), escapeHTML);
    }
  }

  lemma FirstIsClean(s: seq<byte>, escapeHTML: bool)
    requires s != []
    ensures Clean(EscapeFirst(s, escapeHTML), escapeHTML)
  {
    hide RuneOf, EscapeFirst, EscapeAscii, Clean;
    Cases(s, escapeHTML);
    if s[0] < 0x80 {
      if Safe(s[0], escapeHTML) {
        UnmarkedIsClean(s[..1], escapeHTML);
      } else {
        AsciiIsClean(s[0], escapeHTML);
      }
    } else if RuneLen(s) == 0 {
      UnitIsClean(0x66, 0x66, 0x66, 0x64, escapeHTML);
    } else if IsSeparator(RuneOf(s)) {
      UnitIsClean(0x32, 0x30, 0x32, Hex(RuneOf(s) % 16), escapeHTML);
    } else {
      assert forall i :: 0 <= i < RuneLen(s) ==> s[..RuneLen(s)][i] == s[i] >= 0x80;
      UnmarkedIsClean(s[..RuneLen(s)], escapeHTML);
    }
  }

  lemma {:induction false} EscapeIsClean(s: seq<byte>, escapeHTML: bool)
    ensures Clean(Escape(s, escapeHTML), escapeHTML)
  {
    hide EscapeFirst, Step;
    if s != [] {
      EscapeIsClean(s[Step(s)..], escapeHTML);
      FirstIsClean(s, escapeHTML);
      CleanJoin(EscapeFirst(s, escapeHTML), Escape(s[Step(s)..], escapeHTML), escapeHTML);
    }
  }

  /** So no byte is a control byte, and a quotation mark has a backslash before it. */
  lemma {:induction false} CleanAt(t: seq<byte>, escapeHTML: bool, i: nat)
    requires Clean(t, escapeHTML) && i < |t|
    ensures t[i] >= 0x20 && (t[i] == 0x22 ==> i > 0 && t[i - 1] == 0x5C)
    ensures escapeHTML ==> t[i] != 0x3C && t[i] != 0x3E && t[i] != 0x26
    decreases |t|
  {
    if t[0] == BACKSLASH {
      if i >= 2 {
        CleanAt(t[2..], escapeHTML, i - 2);
      }
    } else if i >= 1 {
      CleanAt(t[1..], escapeHTML, i - 1);
    }
  }

  // ---------- How long the output is ----------

  /** Printable ASCII other than the quotation mark, the backslash and, if asked for, <, > and &. */
  predicate Harmless(b: byte, escapeHTML: bool) {
    && 0x20 <= b < 0x80 && b != 0x22 && b != 0x5C
    && (escapeHTML ==> b != 0x3C && b != 0x3E && b != 0x26)
  }

  lemma {:induction false} HarmlessStays(s: seq<byte>, escapeHTML: bool)
    requires forall i :: 0 <= i < |s| ==> Harmless(s[i], escapeHTML)
    ensures Escape(s, escapeHTML) == s
  {
    if s != [] {
      HarmlessStays(s[1..], escapeHTML);
      Cases(s, escapeHTML);
      assert s == s[..1] + s[1..];
    }
  }

  /** Quotation marks double. */
  lemma {:induction false} QuotesDouble(n: nat, escapeHTML: bool)
    ensures |Escape(seq(n, i => QUOTE), escapeHTML)| == 2 * n
  {
    if n > 0 {
      var s: seq<byte> := seq(n, i => QUOTE);
      assert s[1..] == seq(n - 1, i => QUOTE);
      Cases(s, escapeHTML);
      QuotesDouble(n - 1, escapeHTML);
    }
  }
}
