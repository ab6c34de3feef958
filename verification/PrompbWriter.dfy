/**
 The generated writers (pkg/prompb/types.pb.go, remote.pb.go): they fill a buffer from its end
 towards its front, so that the length of a nested message is known when its header is written.
 */
module PrompbWriter {
  import opened Arith
  import opened Wire
  import opened Prompb

  /** `after` is `before` with exactly the bytes from i to `end` replaced, by `x`. */
  ghost predicate Wrote(before: seq<byte>, after: seq<byte>, i: int, end: int, x: seq<byte>) {
    0 <= i <= end <= |before| && i + |x| == end && after == before[..i] + x + before[end..]
  }

  /** A write that ends where an earlier one began makes one longer write. */
  lemma WroteBefore(s0: seq<byte>, s1: seq<byte>, s2: seq<byte>, i: int, j: int, end: int, x: seq<byte>, y: seq<byte>)
    requires Wrote(s0, s1, j, end, y) && Wrote(s1, s2, i, j, x)
    ensures Wrote(s0, s2, i, end, x + y)
  {
    assert s1[..i] == s0[..i] && s1[j..] == y + s0[end..];
  }

  lemma WroteAll(before: seq<byte>, after: seq<byte>, x: seq<byte>)
    requires Wrote(before, after, 0, |before|, x)
    ensures after == x
  {
  }

  method PutBytes(dAtA: array<byte>, end: nat, p: seq<byte>) returns (i: nat)
    requires |p| <= end <= dAtA.Length
    modifies dAtA
    ensures Wrote(old(dAtA[..]), dAtA[..], i, end, p)
  {
    i := end - |p|;
    forall k | 0 <= k < |p| {
      dAtA[i + k] := p[k];
    }
  }

  /** The tag and the length of a payload of `size` bytes that starts at `end`. */
  method PutHeader(dAtA: array<byte>, end: nat, tag: byte, size: nat) returns (i: nat)
    requires 1 + |VarintBytes(size)| <= end <= dAtA.Length
    modifies dAtA
    ensures Wrote(old(dAtA[..]), dAtA[..], i, end, [tag] + VarintBytes(size))
  {
    ghost var s0 := dAtA[..];
    var j := EncodeVarint(dAtA, end, size);
    ghost var s1 := dAtA[..];
    assert s1 == s1[..j] + s1[j..end] + s1[end..];
    i := j - 1;
    dAtA[i] := tag;
    assert Wrote(s1, dAtA[..], i, j, [tag]);
    WroteBefore(s0, s1, dAtA[..], i, j, end, [tag], VarintBytes(size));
  }

  method PutString(dAtA: array<byte>, end: nat, tag: byte, p: seq<byte>) returns (i: nat)
    requires |EncString(tag, p)| <= end <= dAtA.Length
    modifies dAtA
    ensures Wrote(old(dAtA[..]), dAtA[..], i, end, EncString(tag, p))
  {
    i := end;
    if |p| > 0 {
      ghost var s0 := dAtA[..];
      var j := PutBytes(dAtA, end, p);
      ghost var s1 := dAtA[..];
      i := PutHeader(dAtA, j, tag, |p|);
      WroteBefore(s0, s1, dAtA[..], i, j, end, [tag] + VarintBytes(|p|), p);
    }
  }

  method PutNumber(dAtA: array<byte>, end: nat, tag: byte, v: uint64) returns (i: nat)
    requires |EncVarint(tag, v)| <= end <= dAtA.Length
    modifies dAtA
    ensures Wrote(old(dAtA[..]), dAtA[..], i, end, EncVarint(tag, v))
  {
    i := end;
    if v != 0 {
      i := PutHeader(dAtA, end, tag, v);
    }
  }

  method PutFixed(dAtA: array<byte>, end: nat, tag: byte, bits: uint64) returns (i: nat)
    requires |EncFixed(tag, bits)| <= end <= dAtA.Length
    modifies dAtA
    ensures Wrote(old(dAtA[..]), dAtA[..], i, end, EncFixed(tag, bits))
  {
    i := end;
    if !IsZero(bits) {
      ghost var s0 := dAtA[..];
      var j := PutBytes(dAtA, end, LittleEndian(bits, 8));
      ghost var s1 := dAtA[..];
      i := j - 1;
      dAtA[i] := tag;
      assert Wrote(s1, dAtA[..], i, j, [tag]);
      WroteBefore(s0, s1, dAtA[..], i, j, end, [tag], LittleEndian(bits, 8));
    }
  }

  // ---------- Messages; each returns the number of bytes it wrote before `end` ----------

  method MarshalLabel(dAtA: array<byte>, end: nat, m: Label) returns (size: nat)
    requires |EncLabel(m)| <= end <= dAtA.Length
    modifies dAtA
    ensures Wrote(old(dAtA[..]), dAtA[..], end - size, end, EncLabel(m))
  {
    ghost var s0 := dAtA[..];
    var a := PutBytes(dAtA, end, m.unrecognized);
    ghost var s1 := dAtA[..];
    var b := PutString(dAtA, a, 0x12, m.value);
    ghost var s2 := dAtA[..];
    WroteBefore(s0, s1, s2, b, a, end, EncString(0x12, m.value), m.unrecognized);
    var c := PutString(dAtA, b, 0x0a, m.name);
    WroteBefore(s0, s2, dAtA[..], c, b, end, EncString(0x0a, m.name), EncString(0x12, m.value) + m.unrecognized);
    assert EncLabel(m) == EncString(0x0a, m.name) + (EncString(0x12, m.value) + m.unrecognized);
    size := end - c;
  }

  lemma {:induction false} EncAllFrom<T>(tag: byte, enc: T -> seq<byte>, items: seq<T>, k: nat)
    requires k < |items|
    ensures EncAll(tag, enc, items[k..]) == EncMessage(tag, enc(items[k])) + EncAll(tag, enc, items[k + 1..])
    ensures |EncAll(tag, enc, items[k..])| <= |EncAll(tag, enc, items)|
  {
    assert items[k..][1..] == items[k + 1..];
    if k == 0 {
      assert items[0..] == items;
    } else {
      EncAllFrom(tag, enc, items, k - 1);
    }
  }

  method MarshalLabels(dAtA: array<byte>, end: nat, items: seq<Label>) returns (i: nat)
    requires |EncAll(0x0a, EncLabel, items)| <= end <= dAtA.Length
    modifies dAtA
    ensures Wrote(old(dAtA[..]), dAtA[..], i, end, EncAll(0x0a, EncLabel, items))
  {
    hide EncLabel;
    i := end;
    ghost var s0 := dAtA[..];
    var k := |items|;
    assert items[k..] == [];
    while k > 0
      invariant 0 <= k <= |items|
      invariant Wrote(s0, dAtA[..], i, end, EncAll(0x0a, EncLabel, items[k..]))
    {
      k := k - 1;
      EncAllFrom(0x0a, EncLabel, items, k);
      ghost var s1, x := dAtA[..], EncLabel(items[k]);
      var size := MarshalLabel(dAtA, i, items[k]);
      ghost var s2 := dAtA[..];
      var j := PutHeader(dAtA, i - size, 0x0a, size);
      WroteBefore(s1, s2, dAtA[..], j, i - size, i, [0x0a] + VarintBytes(size), x);
      WroteBefore(s0, s1, dAtA[..], j, i, end, EncMessage(0x0a, x), EncAll(0x0a, EncLabel, items[k + 1..]));
      i := j;
    }
    assert items[0..] == items;
  }

  method MarshalSample(dAtA: array<byte>, end: nat, m: Sample) returns (size: nat)
    requires |EncSample(m)| <= end <= dAtA.Length
    modifies dAtA
    ensures Wrote(old(dAtA[..]), dAtA[..], end - size, end, EncSample(m))
  {
    ghost var s0, t := dAtA[..], EncVarint(0x10, ToUint64(m.timestamp));
    var a := PutBytes(dAtA, end, m.unrecognized);
    ghost var s1 := dAtA[..];
    var b := PutNumber(dAtA, a, 0x10, ToUint64(m.timestamp));
    ghost var s2 := dAtA[..];
    WroteBefore(s0, s1, s2, b, a, end, t, m.unrecognized);
    var c := PutFixed(dAtA, b, 0x09, m.value);
    WroteBefore(s0, s2, dAtA[..], c, b, end, EncFixed(0x09, m.value), t + m.unrecognized);
    assert EncSample(m) == EncFixed(0x09, m.value) + (t + m.unrecognized);
    size := end - c;
  }

  method MarshalSamples(dAtA: array<byte>, end: nat, items: seq<Sample>) returns (i: nat)
    requires |EncAll(0x12, EncSample, items)| <= end <= dAtA.Length
    modifies dAtA
    ensures Wrote(old(dAtA[..]), dAtA[..], i, end, EncAll(0x12, EncSample, items))
  {
    hide EncSample;
    i := end;
    ghost var s0 := dAtA[..];
    var k := |items|;
    assert items[k..] == [];
    while k > 0
      invariant 0 <= k <= |items|
      invariant Wrote(s0, dAtA[..], i, end, EncAll(0x12, EncSample, items[k..]))
    {
      k := k - 1;
      EncAllFrom(0x12, EncSample, items, k);
      ghost var s1, x := dAtA[..], EncSample(items[k]);
      var size := MarshalSample(dAtA, i, items[k]);
      ghost var s2 := dAtA[..];
      var j := PutHeader(dAtA, i - size, 0x12, size);
      WroteBefore(s1, s2, dAtA[..], j, i - size, i, [0x12] + VarintBytes(size), x);
      WroteBefore(s0, s1, dAtA[..], j, i, end, EncMessage(0x12, x), EncAll(0x12, EncSample, items[k + 1..]));
      i := j;
    }
    assert items[0..] == items;
  }

  lemma Associative(a: seq<byte>, b: seq<byte>, c: seq<byte>)
    ensures a + (b + c) == a + b + c
  {
  }

  method MarshalExemplar(dAtA: array<byte>, end: nat, m: Exemplar) returns (size: nat)
    requires |EncExemplar(m)| <= end <= dAtA.Length
    modifies dAtA
    ensures Wrote(old(dAtA[..]), dAtA[..], end - size, end, EncExemplar(m))
  {
    hide EncAll, EncString, EncFixed, EncVarint;
    ghost var s0, t := dAtA[..], EncVarint(0x18, ToUint64(m.timestamp));
    var a := PutBytes(dAtA, end, m.unrecognized);
    ghost var s1 := dAtA[..];
    var b := PutNumber(dAtA, a, 0x18, ToUint64(m.timestamp));
    ghost var s2 := dAtA[..];
    WroteBefore(s0, s1, s2, b, a, end, t, m.unrecognized);
    var c := PutFixed(dAtA, b, 0x11, m.value);
    ghost var s3 := dAtA[..];
    WroteBefore(s0, s2, s3, c, b, end, EncFixed(0x11, m.value), t + m.unrecognized);
    Associative(EncFixed(0x11, m.value), t, m.unrecognized);
    var d := MarshalLabels(dAtA, c, m.labels);
    WroteBefore(s0, s3, dAtA[..], d, c, end, EncAll(0x0a, EncLabel, m.labels),
                EncFixed(0x11, m.value) + t + m.unrecognized);
    size := end - d;
  }

  method MarshalExemplars(dAtA: array<byte>, end: nat, items: seq<Exemplar>) returns (i: nat)
    requires |EncAll(0x1a, EncExemplar, items)| <= end <= dAtA.Length
    modifies dAtA
    ensures Wrote(old(dAtA[..]), dAtA[..], i, end, EncAll(0x1a, EncExemplar, items))
  {
    hide EncExemplar;
    i := end;
    ghost var s0 := dAtA[..];
    var k := |items|;
    assert items[k..] == [];
    while k > 0
      invariant 0 <= k <= |items|
      invariant Wrote(s0, dAtA[..], i, end, EncAll(0x1a, EncExemplar, items[k..]))
    {
      k := k - 1;
      EncAllFrom(0x1a, EncExemplar, items, k);
      ghost var s1, x := dAtA[..], EncExemplar(items[k]);
      var size := MarshalExemplar(dAtA, i, items[k]);
      ghost var s2 := dAtA[..];
      var j := PutHeader(dAtA, i - size, 0x1a, size);
      WroteBefore(s1, s2, dAtA[..], j, i - size, i, [0x1a] + VarintBytes(size), x);
      WroteBefore(s0, s1, dAtA[..], j, i, end, EncMessage(0x1a, x), EncAll(0x1a, EncExemplar, items[k + 1..]));
      i := j;
    }
    assert items[0..] == items;
  }

  method MarshalTimeSeries(dAtA: array<byte>, end: nat, m: TimeSeries) returns (size: nat)
    requires |EncTimeSeries(m)| <= end <= dAtA.Length
    modifies dAtA
    ensures Wrote(old(dAtA[..]), dAtA[..], end - size, end, EncTimeSeries(m))
  {
    hide EncAll, EncString, EncFixed, EncVarint;
    ghost var x, y := EncAll(0x12, EncSample, m.samples), EncAll(0x1a, EncExemplar, m.exemplars);
    ghost var s0 := dAtA[..];
    var a := PutBytes(dAtA, end, m.unrecognized);
    ghost var s1 := dAtA[..];
    var b := MarshalExemplars(dAtA, a, m.exemplars);
    ghost var s2 := dAtA[..];
    WroteBefore(s0, s1, s2, b, a, end, y, m.unrecognized);
    var c := MarshalSamples(dAtA, b, m.samples);
    ghost var s3 := dAtA[..];
    WroteBefore(s0, s2, s3, c, b, end, x, y + m.unrecognized);
    var d := MarshalLabels(dAtA, c, m.labels);
    WroteBefore(s0, s3, dAtA[..], d, c, end, EncAll(0x0a, EncLabel, m.labels), x + (y + m.unrecognized));
    size := end - d;
  }

  method MarshalSeries(dAtA: array<byte>, end: nat, items: seq<TimeSeries>) returns (i: nat)
    requires |EncAll(0x0a, EncTimeSeries, items)| <= end <= dAtA.Length
    modifies dAtA
    ensures Wrote(old(dAtA[..]), dAtA[..], i, end, EncAll(0x0a, EncTimeSeries, items))
  {
    hide EncTimeSeries;
    i := end;
    ghost var s0 := dAtA[..];
    var k := |items|;
    assert items[k..] == [];
    while k > 0
      invariant 0 <= k <= |items|
      invariant Wrote(s0, dAtA[..], i, end, EncAll(0x0a, EncTimeSeries, items[k..]))
    {
      k := k - 1;
      EncAllFrom(0x0a, EncTimeSeries, items, k);
      ghost var s1, x := dAtA[..], EncTimeSeries(items[k]);
      var size := MarshalTimeSeries(dAtA, i, items[k]);
      ghost var s2 := dAtA[..];
      var j := PutHeader(dAtA, i - size, 0x0a, size);
      WroteBefore(s1, s2, dAtA[..], j, i - size, i, [0x0a] + VarintBytes(size), x);
      WroteBefore(s0, s1, dAtA[..], j, i, end, EncMessage(0x0a, x), EncAll(0x0a, EncTimeSeries, items[k + 1..]));
      i := j;
    }
    assert items[0..] == items;
  }

  method MarshalMetadata(dAtA: array<byte>, end: nat, m: Metadata) returns (size: nat)
    requires |EncMetadata(m)| <= end <= dAtA.Length
    modifies dAtA
    ensures Wrote(old(dAtA[..]), dAtA[..], end - size, end, EncMetadata(m))
  {
    hide EncAll, EncString, EncFixed, EncVarint;
    ghost var u := m.unrecognized;
    ghost var z := EncString(0x2a, m.unit) + u;
    ghost var y := EncString(0x22, m.help) + z;
    ghost var s0 := dAtA[..];
    var a := PutBytes(dAtA, end, m.unrecognized);
    ghost var s1 := dAtA[..];
    var b := PutString(dAtA, a, 0x2a, m.unit);
    ghost var s2 := dAtA[..];
    WroteBefore(s0, s1, s2, b, a, end, EncString(0x2a, m.unit), u);
    var c := PutString(dAtA, b, 0x22, m.help);
    ghost var s3 := dAtA[..];
    WroteBefore(s0, s2, s3, c, b, end, EncString(0x22, m.help), z);
    var d := PutString(dAtA, c, 0x12, m.family);
    ghost var s4 := dAtA[..];
    WroteBefore(s0, s3, s4, d, c, end, EncString(0x12, m.family), y);
    var e := PutNumber(dAtA, d, 0x08, ToUint64(m.kind));
    WroteBefore(s0, s4, dAtA[..], e, d, end, EncVarint(0x08, ToUint64(m.kind)), EncString(0x12, m.family) + y);
    size := end - e;
  }

  method MarshalAllMetadata(dAtA: array<byte>, end: nat, items: seq<Metadata>) returns (i: nat)
    requires |EncAll(0x1a, EncMetadata, items)| <= end <= dAtA.Length
    modifies dAtA
    ensures Wrote(old(dAtA[..]), dAtA[..], i, end, EncAll(0x1a, EncMetadata, items))
  {
    hide EncMetadata;
    i := end;
    ghost var s0 := dAtA[..];
    var k := |items|;
    assert items[k..] == [];
    while k > 0
      invariant 0 <= k <= |items|
      invariant Wrote(s0, dAtA[..], i, end, EncAll(0x1a, EncMetadata, items[k..]))
    {
      k := k - 1;
      EncAllFrom(0x1a, EncMetadata, items, k);
      ghost var s1, x := dAtA[..], EncMetadata(items[k]);
      var size := MarshalMetadata(dAtA, i, items[k]);
      ghost var s2 := dAtA[..];
      var j := PutHeader(dAtA, i - size, 0x1a, size);
      WroteBefore(s1, s2, dAtA[..], j, i - size, i, [0x1a] + VarintBytes(size), x);
      WroteBefore(s0, s1, dAtA[..], j, i, end, EncMessage(0x1a, x), EncAll(0x1a, EncMetadata, items[k + 1..]));
      i := j;
    }
    assert items[0..] == items;
  }

  method MarshalToSizedBuffer(dAtA: array<byte>, end: nat, m: WriteRequest) returns (size: nat)
    requires |EncWriteRequest(m)| <= end <= dAtA.Length
    modifies dAtA
    ensures Wrote(old(dAtA[..]), dAtA[..], end - size, end, EncWriteRequest(m))
  {
    ghost var y := EncAll(0x1a, EncMetadata, m.metadata);
    ghost var s0 := dAtA[..];
    var a := PutBytes(dAtA, end, m.unrecognized);
    ghost var s1 := dAtA[..];
    var b := MarshalAllMetadata(dAtA, a, m.metadata);
    ghost var s2 := dAtA[..];
    WroteBefore(s0, s1, s2, b, a, end, y, m.unrecognized);
    var c := MarshalSeries(dAtA, b, m.timeseries);
    WroteBefore(s0, s2, dAtA[..], c, b, end, EncAll(0x0a, EncTimeSeries, m.timeseries), y + m.unrecognized);
    size := end - c;
  }

  /** Marshal (remote.pb.go:451-462): a buffer of Size() bytes is filled exactly. */
  method Marshal(m: WriteRequest) returns (dAtA: array<byte>)
    ensures dAtA[..] == EncWriteRequest(m) && dAtA.Length == SizeWriteRequest(m)
  {
    SizeWriteRequestIsLength(m);
    dAtA := new byte[SizeWriteRequest(m)](_ => 0);
    ghost var before := dAtA[..];
    var n := MarshalToSizedBuffer(dAtA, dAtA.Length, m);
    WroteAll(before, dAtA[..], EncWriteRequest(m));
  }
}
