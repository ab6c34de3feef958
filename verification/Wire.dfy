/**
 The wire primitives of the generated protobuf code (pkg/prompb/types.pb.go, remote.pb.go):
 base-128 varints, field tags, length-prefixed payloads, little-endian words and the skipping
 of unknown fields. The generated code repeats the same inline loops in every message; here
 each loop is one method, proved against a function on byte sequences.
 */
module Wire {
  import opened Arith

  datatype Error = Overflow | UnexpectedEof | InvalidLength | WrongWireType | EndGroup | IllegalTag
                 | UnexpectedEndOfGroup | IllegalWireType

  /** Go's integer conversions. */
  function ToUint64(x: int64): uint64 { if x < 0 then x + TWO64 else x }
  function ToInt64(x: uint64): int64 { if x >= TWO63 then x - TWO64 else x }
  function ToInt32(x: nat): int32 { var w := x % TWO32; if w >= TWO31 then w - TWO32 else w }

  // ---------- Varints ----------

  function VarintBytes(v: nat): (s: seq<byte>)
    ensures |s| > 0
  {
    if v < 128 then [v] else [v % 128 + 128] + VarintBytes(v / 128)
  }

  /** The number of bits of v, math/bits.Len64. */
  function BitLen(v: nat): nat {
    if v == 0 then 0 else 1 + BitLen(v / 2)
  }

  /** sovTypes and sovRemote (types.pb.go:1624-1626): setting the lowest bit makes zero one bit long. */
  function Sov(v: nat): nat {
    (BitLen(if v % 2 == 0 then v + 1 else v) + 6) / 7
  }

  lemma BitLenOfSeptet(v: nat)
    requires v >= 128
    ensures BitLen(v) == 7 + BitLen(v / 128)
  {
    assert v / 2 / 2 / 2 / 2 / 2 / 2 / 2 == v / 128;
    assert BitLen(v) == 1 + BitLen(v / 2);
    assert BitLen(v / 2) == 1 + BitLen(v / 2 / 2);
    assert BitLen(v / 2 / 2) == 1 + BitLen(v / 2 / 2 / 2);
    assert BitLen(v / 2 / 2 / 2) == 1 + BitLen(v / 2 / 2 / 2 / 2);
    assert BitLen(v / 2 / 2 / 2 / 2) == 1 + BitLen(v / 2 / 2 / 2 / 2 / 2);
    assert BitLen(v / 2 / 2 / 2 / 2 / 2) == 1 + BitLen(v / 2 / 2 / 2 / 2 / 2 / 2);
  }

  lemma BitLenOfSmall(v: nat)
    requires 0 < v < 128
    ensures 1 <= BitLen(v) <= 7
  {
    assert BitLen(v / 2 / 2 / 2 / 2 / 2 / 2) <= 1;
    assert BitLen(v / 2 / 2 / 2 / 2 / 2) <= 2;
    assert BitLen(v / 2 / 2 / 2 / 2) <= 3;
    assert BitLen(v / 2 / 2 / 2) <= 4;
    assert BitLen(v / 2 / 2) <= 5;
  }

  /** The size computed from the bit length is the number of bytes the encoder writes. */
  lemma {:induction false} SovIsVarintLength(v: nat)
    ensures Sov(v) == |VarintBytes(v)|
  {
    var w := if v % 2 == 0 then v + 1 else v;
    assert w / 2 == v / 2;
    assert v > 0 ==> BitLen(w) == BitLen(v);
    if v < 128 {
      BitLenOfSmall(w);
    } else {
      BitLenOfSeptet(v);
      var u := v / 128;
      var w' := if u % 2 == 0 then u + 1 else u;
      assert w' / 2 == u / 2;
      assert BitLen(w') == BitLen(u);
      SovIsVarintLength(u);
    }
  }

  /** encodeVarintTypes (types.pb.go:1365-1375): the varint that ends just before `offset`. */
  method EncodeVarint(dAtA: array<byte>, offset: nat, v: nat) returns (base: nat)
    requires |VarintBytes(v)| <= offset <= dAtA.Length
    modifies dAtA
    ensures base == offset - |VarintBytes(v)|
    ensures dAtA[base..offset] == VarintBytes(v)
    ensures dAtA[..base] == old(dAtA[..base]) && dAtA[offset..] == old(dAtA[offset..])
  {
    SovIsVarintLength(v);
    base := offset - Sov(v);
    var i, w := base, v;
    while w >= 128
      invariant base <= i < offset
      invariant dAtA[base..i] + VarintBytes(w) == VarintBytes(v)
      invariant dAtA[..base] == old(dAtA[..base]) && dAtA[offset..] == old(dAtA[offset..])
    {
      dAtA[i] := w % 128 + 128;
      assert dAtA[base..i + 1] == dAtA[base..i] + [w % 128 + 128];
      w := w / 128;
      i := i + 1;
    }
    dAtA[i] := w;
    assert dAtA[base..i + 1] == dAtA[base..i] + [w];
  }

  datatype Decoded = Ok(v: uint64, n: nat) | Bad(err: Error)

  /** The values that still fit when k bytes of a varint have been read. */
  function Room(k: nat): (r: nat)
    requires k <= 9
    ensures r > 0
    decreases 9 - k
  {
    if k == 9 then 2 else 128 * Room(k + 1)
  }

  lemma RoomAtStart()
    ensures Room(0) == TWO64
  {
    assert Room(8) == 128 * Room(9) && Room(7) == 128 * Room(8);
    assert Room(6) == 128 * Room(7) && Room(5) == 128 * Room(6);
    assert Room(4) == 128 * Room(5) && Room(3) == 128 * Room(4);
    assert Room(2) == 128 * Room(3) && Room(1) == 128 * Room(2);
  }

  /** The varint at the front of `s`, of which k bytes have been read; at most ten bytes are. */
  function DecodeFrom(s: seq<byte>, k: nat): (d: Decoded)
    ensures d.Ok? ==> k <= 9 && 1 <= d.n <= |s| && d.v < Room(k)
    decreases |s|
  {
    if k >= 10 then Bad(Overflow)
    else if s == [] then Bad(UnexpectedEof)
    else
      var low := if k == 9 then s[0] % 2 else s[0] % 128;
      if s[0] < 128 then RoomBound(k); Ok(low, 1)
      else
        var d := DecodeFrom(s[1..], k + 1);
        if d.Bad? then d else RoomBound(k); Ok(low + 128 * d.v, d.n + 1)
  }

  lemma RoomBound(k: nat)
    requires k <= 9
    ensures Room(k) <= TWO64 && (k < 9 ==> Room(k) >= 128)
  {
    RoomAtStart();
    var i := 0;
    while i < k
      invariant i <= k && Room(i) <= TWO64
    {
      assert Room(i) == 128 * Room(i + 1);
      i := i + 1;
    }
  }

  function Decode(s: seq<byte>): (d: Decoded)
    ensures d.Ok? ==> 1 <= d.n <= |s|
  {
    DecodeFrom(s, 0)
  }

  /** Decoding undoes encoding, whatever follows. */
  lemma {:induction false} DecodeUndoesEncode(v: uint64, rest: seq<byte>, k: nat)
    requires k <= 9 && v < Room(k)
    ensures DecodeFrom(VarintBytes(v) + rest, k) == Ok(v, |VarintBytes(v)|)
  {
    RoomBound(k);
    var s := VarintBytes(v) + rest;
    if v < 128 {
      assert s[0] == v;
    } else {
      assert s[0] == v % 128 + 128 && s[1..] == VarintBytes(v / 128) + rest;
      DecodeUndoesEncode(v / 128, rest, k + 1);
    }
  }

  /** The inline varint loops of Unmarshal (for example types.pb.go:1803-1817). */
  method ReadVarint(dAtA: array<byte>, start: nat, l: nat) returns (d: Decoded)
    requires start <= l <= dAtA.Length
    ensures d == Decode(dAtA[start..l])
  {
    ghost var s := dAtA[start..l];
    var acc, k, unit := 0, 0, 1;  // unit == 1 << shift with shift == 7 * k
    RoomAtStart();
    while true
      invariant 0 <= k <= 10 && k <= |s| && 0 <= acc < unit
      invariant k <= 9 ==> unit * Room(k) == TWO64
      invariant Decode(s) == Resume(acc, unit, k, DecodeFrom(s[k..], k))
      decreases 10 - k
    {
      if k >= 10 {
        return Bad(Overflow);
      }
      if start + k >= l {
        return Bad(UnexpectedEof);
      }
      var b := dAtA[start + k];
      assert b == s[k] && s[k..][1..] == s[k + 1..];
      ReadStep(acc, unit, k, b, DecodeFrom(s[k + 1..], k + 1));
      acc := (acc + (b % 128) * unit) % TWO64;
      k := k + 1;
      if b < 128 {
        return Ok(acc, k);
      }
      unit := unit * 128;
    }
  }

  /** What the whole varint decodes to, when k bytes gave `acc` and the others decode to `d`. */
  ghost function Resume(acc: nat, unit: nat, k: nat, d: Decoded): Decoded {
    if d.Bad? then d
    else if acc + unit * d.v < TWO64 then Ok(acc + unit * d.v, k + d.n) else Bad(Overflow)
  }

  lemma EarlySeptet(acc: nat, unit: nat, room: nat, s: nat)
    requires acc < unit && s < 128 <= room && unit * room == TWO64
    ensures (acc + s * unit) % TWO64 == acc + unit * s < unit * 128
  {
    MulMono(unit, s, 127);
    MulMono(unit, 128, room);
    DivModUnique(acc + unit * s, TWO64, 0, acc + unit * s);
  }

  lemma LastSeptet(acc: nat, unit: nat, s: nat)
    requires acc < unit && unit * 2 == TWO64
    ensures (acc + s * unit) % TWO64 == acc + unit * (s % 2) < unit * 128
  {
    var h, low := s / 2, s % 2;
    assert s * unit == h * (unit * 2) + unit * low;
    DivModUnique(acc + s * unit, TWO64, h, acc + unit * low);
  }

  /** Adding a byte's seven bits at position `unit`; of the tenth byte only the lowest bit survives. */
  lemma AddSeptet(acc: nat, unit: nat, k: nat, b: byte)
    requires k <= 9 && acc < unit && unit * Room(k) == TWO64
    ensures var low := if k == 9 then b % 2 else b % 128;
            (acc + (b % 128) * unit) % TWO64 == acc + unit * low < unit * 128
  {
    RoomBound(k);
    hide Room;
    if k == 9 {
      LastSeptet(acc, unit, b % 128);
    } else {
      EarlySeptet(acc, unit, Room(k), b % 128);
    }
  }

  lemma ResumeStep(acc: nat, unit: nat, k: nat, low: nat, d: Decoded)
    requires d.Ok? && low + 128 * d.v < TWO64
    ensures Resume(acc + unit * low, unit * 128, k + 1, d) == Resume(acc, unit, k, Ok(low + 128 * d.v, d.n + 1))
  {
    assert unit * (low + 128 * d.v) == unit * low + (unit * 128) * d.v;
  }

  lemma ReadStep(acc: nat, unit: nat, k: nat, b: byte, d: Decoded)
    requires k <= 9 && acc < unit && unit * Room(k) == TWO64
    requires d.Ok? ==> k < 9 && d.v < Room(k + 1)
    ensures var low := if k == 9 then b % 2 else b % 128;
            var acc' := (acc + (b % 128) * unit) % TWO64;
            && acc' == acc + unit * low < unit * 128
            && (k < 9 ==> (unit * 128) * Room(k + 1) == TWO64)
            && (d.Ok? ==>
                  && low + 128 * d.v < TWO64
                  && Resume(acc', unit * 128, k + 1, d) == Resume(acc, unit, k, Ok(low + 128 * d.v, d.n + 1)))
  {
    hide Resume;
    AddSeptet(acc, unit, k, b);
    if k < 9 {
      RoomBound(k);
      assert Room(k) == 128 * Room(k + 1);
      assert unit * (128 * Room(k + 1)) == (unit * 128) * Room(k + 1);
      if d.Ok? {
        ResumeStep(acc, unit, k, b % 128, d);
      }
    }
  }

  // ---------- Fixed-width words ----------

  function LittleEndian(v: nat, n: nat): (s: seq<byte>)
    ensures |s| == n
  {
    if n == 0 then [] else [v % 256] + LittleEndian(v / 256, n - 1)
  }

  function FromLittleEndian(s: seq<byte>): (v: nat) {
    if s == [] then 0 else s[0] + 256 * FromLittleEndian(s[1..])
  }

  lemma {:induction false} LittleEndianRoundTrip(v: uint64)
    ensures FromLittleEndian(LittleEndian(v, 8)) == v
  {
    LittleEndianTruncates(v, 8);
    assert Pow256(8) == TWO64 by {
      assert Pow256(2) == 256 * Pow256(1) && Pow256(3) == 256 * Pow256(2) && Pow256(4) == 256 * Pow256(3);
      assert Pow256(5) == 256 * Pow256(4) && Pow256(6) == 256 * Pow256(5) && Pow256(7) == 256 * Pow256(6);
    }
  }

  function Pow256(n: nat): nat {
    if n == 0 then 1 else 256 * Pow256(n - 1)
  }

  lemma {:induction false} LittleEndianTruncates(v: nat, n: nat)
    ensures v < Pow256(n) ==> FromLittleEndian(LittleEndian(v, n)) == v
    ensures FromLittleEndian(LittleEndian(v, n)) < Pow256(n)
  {
    if n > 0 {
      LittleEndianTruncates(v / 256, n - 1);
      assert LittleEndian(v, n)[1..] == LittleEndian(v / 256, n - 1);
    }
  }

  // ---------- Tags and payloads ----------

  datatype Tag = TagOf(num: int32, wireType: nat, n: nat) | BadTag(err: Error)

  /** The tag at the front of `s`, with the checks every Unmarshal makes on it. */
  function ReadTag(s: seq<byte>): (t: Tag)
    ensures t.TagOf? ==> 1 <= t.n <= |s| && t.num > 0
  {
    match Decode(s)
    case Bad(e) => BadTag(e)
    case Ok(wire, n) =>
      if wire % 8 == 4 then BadTag(EndGroup)
      else if ToInt32(wire / 8) <= 0 then BadTag(IllegalTag)
      else TagOf(ToInt32(wire / 8), wire % 8, n)
  }

  datatype Span = Span(lo: nat, hi: nat) | BadSpan(err: Error)

  /**
   A length-prefixed payload at the front of `s`, which starts at index `at` of the message:
   negative and overflowing lengths are told apart from short input.
   */
  function Payload(s: seq<byte>, at: nat): (p: Span)
    ensures p.Span? ==> 1 <= p.lo <= p.hi <= |s|
  {
    match Decode(s)
    case Bad(e) => BadSpan(e)
    case Ok(v, n) =>
      if ToInt64(v) < 0 || at + n + v >= TWO63 then BadSpan(InvalidLength)
      else if n + v > |s| then BadSpan(UnexpectedEof)
      else Span(n, n + v)
  }

  datatype Skipped = SkippedTo(next: nat) | BadSkip(err: Error)

  /** skipTypes from index i on, inside `depth` open groups (types.pb.go:2989-3066). */
  function SkipFrom(s: seq<byte>, i: nat, depth: nat): (r: Skipped)
    ensures r.SkippedTo? ==> r.next > i
    decreases |s| - i
  {
    if i >= |s| then BadSkip(UnexpectedEof)
    else match Decode(s[i..])
      case Bad(e) => BadSkip(e)
      case Ok(wire, n) =>
        match SkipValue(s, i + n, wire % 8, depth)
        case BadSkip(e) => BadSkip(e)
        case SkippedTo(j) =>
          var d := NextDepth(wire % 8, depth);
          if j >= TWO63 then BadSkip(InvalidLength)
          else if d == 0 then SkippedTo(j)
          else SkipFrom(s, j, d)
  }

  function NextDepth(wireType: nat, depth: nat): nat {
    if wireType == 3 then depth + 1 else if wireType == 4 && depth > 0 then depth - 1 else depth
  }

  function SkipValue(s: seq<byte>, i: nat, wireType: nat, depth: nat): (r: Skipped)
    requires i <= |s|
    ensures r.SkippedTo? ==> r.next >= i
  {
    if wireType == 0 then
      match Decode(s[i..]) case Bad(e) => BadSkip(e) case Ok(_, n) => SkippedTo(i + n)
    else if wireType == 1 then SkippedTo(i + 8)
    else if wireType == 2 then
      match Decode(s[i..])
      case Bad(e) => BadSkip(e)
      case Ok(v, n) => if ToInt64(v) < 0 then BadSkip(InvalidLength) else SkippedTo(i + n + v)
    else if wireType == 3 then SkippedTo(i)
    else if wireType == 4 then (if depth == 0 then BadSkip(UnexpectedEndOfGroup) else SkippedTo(i))
    else if wireType == 5 then SkippedTo(i + 4)
    else BadSkip(IllegalWireType)
  }

  /** The extent of the unknown field at the front of `s` (for example types.pb.go:1858-1875). */
  function Unknown(s: seq<byte>, at: nat): (p: Span)
    ensures p.Span? ==> p.lo == 0 < p.hi <= |s|
  {
    match SkipFrom(s, 0, 0)
    case BadSkip(e) => BadSpan(e)
    case SkippedTo(n) =>
      if at + n >= TWO63 then BadSpan(InvalidLength)
      else if n > |s| then BadSpan(UnexpectedEof)
      else Span(0, n)
  }

  // ---------- The same on slices of a buffer ----------

  method TagAt(dAtA: array<byte>, i: nat, l: nat) returns (t: Tag)
    requires i <= l <= dAtA.Length
    ensures t == ReadTag(dAtA[i..l])
  {
    var d := ReadVarint(dAtA, i, l);
    match d
    case Bad(e) => return BadTag(e);
    case Ok(wire, n) =>
      if wire % 8 == 4 {
        return BadTag(EndGroup);
      }
      if ToInt32(wire / 8) <= 0 {
        return BadTag(IllegalTag);
      }
      return TagOf(ToInt32(wire / 8), wire % 8, n);
  }

  method PayloadAt(dAtA: array<byte>, i: nat, l: nat, at: nat) returns (p: Span)
    requires i <= l <= dAtA.Length
    ensures p == Payload(dAtA[i..l], at)
  {
    var d := ReadVarint(dAtA, i, l);
    match d
    case Bad(e) => return BadSpan(e);
    case Ok(v, n) =>
      if ToInt64(v) < 0 || at + n + v >= TWO63 {
        return BadSpan(InvalidLength);
      }
      if n + v > l - i {
        return BadSpan(UnexpectedEof);
      }
      return Span(n, n + v);
  }

  /** The switch of skipTypes on the wire type of the field at hand. */
  method SkipValueOf(dAtA: array<byte>, lo: nat, l: nat, i: nat, wireType: nat, depth: nat) returns (r: Skipped)
    requires lo + i <= l <= dAtA.Length
    ensures r == SkipValue(dAtA[lo..l], i, wireType, depth)
  {
    assert dAtA[lo..l][i..] == dAtA[lo + i..l];
    if wireType == 0 || wireType == 2 {
      var d := ReadVarint(dAtA, lo + i, l);
      if d.Bad? {
        return BadSkip(d.err);
      }
      if wireType == 0 {
        return SkippedTo(i + d.n);
      }
      if ToInt64(d.v) < 0 {
        return BadSkip(InvalidLength);
      }
      return SkippedTo(i + d.n + d.v);
    } else if wireType == 1 {
      return SkippedTo(i + 8);
    } else if wireType == 3 {
      return SkippedTo(i);
    } else if wireType == 4 {
      return if depth == 0 then BadSkip(UnexpectedEndOfGroup) else SkippedTo(i);
    } else if wireType == 5 {
      return SkippedTo(i + 4);
    } else {
      return BadSkip(IllegalWireType);
    }
  }

  method SkipTypes(dAtA: array<byte>, lo: nat, l: nat) returns (r: Skipped)
    requires lo <= l <= dAtA.Length
    ensures r == SkipFrom(dAtA[lo..l], 0, 0)
  {
    hide DecodeFrom, SkipValue;
    ghost var s := dAtA[lo..l];
    var iNdEx, depth := 0, 0;
    while lo + iNdEx < l
      invariant SkipFrom(s, 0, 0) == SkipFrom(s, iNdEx, depth)
      decreases l - lo - iNdEx
    {
      assert s[iNdEx..] == dAtA[lo + iNdEx..l];
      var tag := ReadVarint(dAtA, lo + iNdEx, l);
      if tag.Bad? {
        return BadSkip(tag.err);
      }
      r := SkipValueOf(dAtA, lo, l, iNdEx + tag.n, tag.v % 8, depth);
      if r.BadSkip? {
        return;
      }
      depth := NextDepth(tag.v % 8, depth);
      if r.next >= TWO63 {
        return BadSkip(InvalidLength);
      }
      if depth == 0 {
        return;
      }
      iNdEx := r.next;
    }
    return BadSkip(UnexpectedEof);
  }

  method UnknownAt(dAtA: array<byte>, i: nat, l: nat, at: nat) returns (p: Span)
    requires i <= l <= dAtA.Length
    ensures p == Unknown(dAtA[i..l], at)
  {
    var r := SkipTypes(dAtA, i, l);
    match r
    case BadSkip(e) => return BadSpan(e);
    case SkippedTo(n) =>
      if at + n >= TWO63 {
        return BadSpan(InvalidLength);
      }
      if n > l - i {
        return BadSpan(UnexpectedEof);
      }
      return Span(0, n);
  }
}
