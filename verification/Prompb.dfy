/**
 The remote-write messages (pkg/prompb/types.pb.go, remote.pb.go): their encoding, their size
 and what parsing bytes yields, all as functions on values. `WriteRequestRoundTrip` is the main
 result; the codec itself, which works on buffers, is in PrompbWriter and PrompbReader.
 */
module Prompb {
  import opened Arith
  import opened Wire

  datatype Label = Label(name: seq<byte>, value: seq<byte>, unrecognized: seq<byte>)
  /** A float64 is represented by its bits. */
  datatype Sample = Sample(value: uint64, timestamp: int64, unrecognized: seq<byte>)
  datatype Exemplar = Exemplar(labels: seq<Label>, value: uint64, timestamp: int64, unrecognized: seq<byte>)
  datatype TimeSeries = TimeSeries(
    labels: seq<Label>, samples: seq<Sample>, exemplars: seq<Exemplar>, unrecognized: seq<byte>)
  datatype Metadata = Metadata(
    kind: int32, family: seq<byte>, help: seq<byte>, unit: seq<byte>, unrecognized: seq<byte>)
  datatype WriteRequest = WriteRequest(timeseries: seq<TimeSeries>, metadata: seq<Metadata>, unrecognized: seq<byte>)

  const EMPTY_LABEL := Label([], [], [])
  const EMPTY_SAMPLE := Sample(0, 0, [])
  const EMPTY_EXEMPLAR := Exemplar([], 0, 0, [])
  const EMPTY_SERIES := TimeSeries([], [], [], [])
  const EMPTY_METADATA := Metadata(0, [], [], [], [])
  const EMPTY_REQUEST := WriteRequest([], [], [])

  /** The comparison `m.Value != 0` is false for both zeros. */
  predicate IsZero(bits: uint64) {
    bits == 0 || bits == TWO63
  }

  // ---------- Encoding ----------

  function EncMessage(tag: byte, p: seq<byte>): seq<byte> {
    [tag] + VarintBytes(|p|) + p
  }

  function EncString(tag: byte, p: seq<byte>): seq<byte> {
    if p == [] then [] else EncMessage(tag, p)
  }

  function EncVarint(tag: byte, v: uint64): seq<byte> {
    if v == 0 then [] else [tag] + VarintBytes(v)
  }

  function EncFixed(tag: byte, bits: uint64): seq<byte> {
    if IsZero(bits) then [] else [tag] + LittleEndian(bits, 8)
  }

  function EncAll<T>(tag: byte, enc: T -> seq<byte>, items: seq<T>): seq<byte> {
    if items == [] then [] else EncMessage(tag, enc(items[0])) + EncAll(tag, enc, items[1..])
  }

  function EncLabel(m: Label): seq<byte> {
    EncString(0x0a, m.name) + EncString(0x12, m.value) + m.unrecognized
  }

  function EncSample(m: Sample): seq<byte> {
    EncFixed(0x09, m.value) + EncVarint(0x10, ToUint64(m.timestamp)) + m.unrecognized
  }

  function EncExemplar(m: Exemplar): seq<byte> {
    EncAll(0x0a, EncLabel, m.labels) +
    (EncFixed(0x11, m.value) + EncVarint(0x18, ToUint64(m.timestamp)) + m.unrecognized)
  }

  function EncTimeSeries(m: TimeSeries): seq<byte> {
    EncAll(0x0a, EncLabel, m.labels) +
    (EncAll(0x12, EncSample, m.samples) + (EncAll(0x1a, EncExemplar, m.exemplars) + m.unrecognized))
  }

  function EncMetadata(m: Metadata): seq<byte> {
    EncVarint(0x08, ToUint64(m.kind)) +
    (EncString(0x12, m.family) + (EncString(0x22, m.help) + (EncString(0x2a, m.unit) + m.unrecognized)))
  }

  function EncWriteRequest(m: WriteRequest): seq<byte> {
    EncAll(0x0a, EncTimeSeries, m.timeseries) + (EncAll(0x1a, EncMetadata, m.metadata) + m.unrecognized)
  }

  // ---------- Sizes ----------

  function SizeString(p: seq<byte>): nat {
    if |p| > 0 then 1 + |p| + Sov(|p|) else 0
  }

  function SizeAll<T>(size: T -> nat, items: seq<T>): nat {
    if items == [] then 0 else 1 + size(items[0]) + Sov(size(items[0])) + SizeAll(size, items[1..])
  }

  function SizeNumbers(bits: uint64, timestamp: int64): nat {
    (if !IsZero(bits) then 9 else 0) + (if timestamp != 0 then 1 + Sov(ToUint64(timestamp)) else 0)
  }

  function SizeLabel(m: Label): nat {
    SizeString(m.name) + SizeString(m.value) + |m.unrecognized|
  }

  function SizeSample(m: Sample): nat {
    SizeNumbers(m.value, m.timestamp) + |m.unrecognized|
  }

  function SizeExemplar(m: Exemplar): nat {
    SizeAll(SizeLabel, m.labels) + SizeNumbers(m.value, m.timestamp) + |m.unrecognized|
  }

  function SizeTimeSeries(m: TimeSeries): nat {
    SizeAll(SizeLabel, m.labels) + SizeAll(SizeSample, m.samples) + SizeAll(SizeExemplar, m.exemplars) +
      |m.unrecognized|
  }

  function SizeMetadata(m: Metadata): nat {
    (if m.kind != 0 then 1 + Sov(ToUint64(m.kind)) else 0) +
    SizeString(m.family) + SizeString(m.help) + SizeString(m.unit) + |m.unrecognized|
  }

  function SizeWriteRequest(m: WriteRequest): nat {
    SizeAll(SizeTimeSeries, m.timeseries) + SizeAll(SizeMetadata, m.metadata) + |m.unrecognized|
  }

  lemma SizeStringIsLength(tag: byte, p: seq<byte>)
    ensures SizeString(p) == |EncString(tag, p)|
  {
    SovIsVarintLength(|p|);
  }

  lemma {:induction false} SizeAllIsLength<T>(tag: byte, enc: T -> seq<byte>, size: T -> nat, items: seq<T>)
    requires forall x :: x in items ==> size(x) == |enc(x)|
    ensures SizeAll(size, items) == |EncAll(tag, enc, items)|
  {
    if items != [] {
      SovIsVarintLength(size(items[0]));
      SizeAllIsLength(tag, enc, size, items[1..]);
    }
  }

  lemma SizeNumbersIsLength(tag: byte, tag': byte, bits: uint64, timestamp: int64)
    ensures SizeNumbers(bits, timestamp) == |EncFixed(tag, bits) + EncVarint(tag', ToUint64(timestamp))|
  {
    SovIsVarintLength(ToUint64(timestamp));
  }

  lemma SizeLabelIsLength(m: Label)
    ensures SizeLabel(m) == |EncLabel(m)|
  {
    SizeStringIsLength(0x0a, m.name);
    SizeStringIsLength(0x12, m.value);
  }

  lemma SizeSampleIsLength(m: Sample)
    ensures SizeSample(m) == |EncSample(m)|
  {
    SizeNumbersIsLength(0x09, 0x10, m.value, m.timestamp);
  }

  lemma SizeExemplarIsLength(m: Exemplar)
    ensures SizeExemplar(m) == |EncExemplar(m)|
  {
    forall x ensures SizeLabel(x) == |EncLabel(x)| { SizeLabelIsLength(x); }
    SizeAllIsLength(0x0a, EncLabel, SizeLabel, m.labels);
    SizeNumbersIsLength(0x11, 0x18, m.value, m.timestamp);
  }

  lemma SizeTimeSeriesIsLength(m: TimeSeries)
    ensures SizeTimeSeries(m) == |EncTimeSeries(m)|
  {
    forall x ensures SizeLabel(x) == |EncLabel(x)| { SizeLabelIsLength(x); }
    forall x ensures SizeSample(x) == |EncSample(x)| { SizeSampleIsLength(x); }
    forall x ensures SizeExemplar(x) == |EncExemplar(x)| { SizeExemplarIsLength(x); }
    SizeAllIsLength(0x0a, EncLabel, SizeLabel, m.labels);
    SizeAllIsLength(0x12, EncSample, SizeSample, m.samples);
    SizeAllIsLength(0x1a, EncExemplar, SizeExemplar, m.exemplars);
  }

  lemma SizeMetadataIsLength(m: Metadata)
    ensures SizeMetadata(m) == |EncMetadata(m)|
  {
    SovIsVarintLength(ToUint64(m.kind));
    SizeStringIsLength(0x12, m.family);
    SizeStringIsLength(0x22, m.help);
    SizeStringIsLength(0x2a, m.unit);
  }

  /** Size() is exactly the number of bytes of the encoding, for every message. */
  lemma SizeWriteRequestIsLength(m: WriteRequest)
    ensures SizeWriteRequest(m) == |EncWriteRequest(m)|
  {
    forall x ensures SizeTimeSeries(x) == |EncTimeSeries(x)| { SizeTimeSeriesIsLength(x); }
    forall x ensures SizeMetadata(x) == |EncMetadata(x)| { SizeMetadataIsLength(x); }
    SizeAllIsLength(0x0a, EncTimeSeries, SizeTimeSeries, m.timeseries);
    SizeAllIsLength(0x1a, EncMetadata, SizeMetadata, m.metadata);
  }

  // ---------- Parsing ----------

  datatype Parsed<+M> = Done(msg: M) | Failed(err: Error)

  /** The outcome of reading one field: the bytes it took and the message after it. */
  datatype Step<+M> = Next(n: nat, msg: M) | Stop(err: Error)

  /** How one field at the front of `s`, at index `at` of the message, changes the message. */
  type FieldReader<!M> = (seq<byte>, nat, M) -> Step<M>

  /** The loop of Unmarshal: fields are read until the bytes are used up. */
  function ParseAll<M>(read: FieldReader<M>, s: seq<byte>, at: nat, m: M): Parsed<M>
    decreases |s|
  {
    if s == [] then Done(m)
    else match read(s, at, m)
      case Stop(e) => Failed(e)
      case Next(n, m') => if 0 < n <= |s| then ParseAll(read, s[n..], at + n, m') else Failed(UnexpectedEof)
  }

  lemma ParseOnward<M>(read: FieldReader<M>, s: seq<byte>, at: nat, m: M)
    requires s != []
    ensures read(s, at, m).Stop? ==> ParseAll(read, s, at, m) == Failed(read(s, at, m).err)
    ensures read(s, at, m).Next? && 0 < read(s, at, m).n <= |s| ==>
              var n := read(s, at, m).n;
              ParseAll(read, s, at, m) == ParseAll(read, s[n..], at + n, read(s, at, m).msg)
  {
  }

  function ReadUnknown<M>(s: seq<byte>, at: nat, keep: seq<byte> -> M): (r: Step<M>)
    ensures r.Next? ==> 0 < r.n <= |s|
  {
    match Unknown(s, at)
    case BadSpan(e) => Stop(e)
    case Span(_, b) => Next(b, keep(s[..b]))
  }

  /** Where the payload of the length-prefixed field with tag `t` at the front of `s` lies. */
  function BytesSpan(s: seq<byte>, at: nat, t: Tag): (r: Span)
    requires t.TagOf? && t.n <= |s|
    ensures r.Span? ==> t.n < r.lo <= r.hi <= |s|
  {
    if t.wireType != 2 then BadSpan(WrongWireType)
    else match Payload(s[t.n..], at + t.n)
      case BadSpan(e) => BadSpan(e)
      case Span(a, b) => Span(t.n + a, t.n + b)
  }

  function ReadBytes<M>(s: seq<byte>, at: nat, t: Tag, set_: seq<byte> -> Parsed<M>): (r: Step<M>)
    requires t.TagOf? && t.n <= |s|
    ensures r.Next? ==> 0 < r.n <= |s|
  {
    match BytesSpan(s, at, t)
    case BadSpan(e) => Stop(e)
    case Span(a, b) =>
      match set_(s[a..b])
      case Failed(e) => Stop(e)
      case Done(m) => Next(b, m)
  }

  function ReadFixed<M>(s: seq<byte>, t: Tag, set_: uint64 -> M): (r: Step<M>)
    requires t.TagOf? && t.n <= |s|
    ensures r.Next? ==> 0 < r.n <= |s|
  {
    if t.wireType != 1 then Stop(WrongWireType)
    else if t.n + 8 > |s| then Stop(UnexpectedEof)
    else Next(t.n + 8, set_(FromBits(s[t.n..t.n + 8])))
  }

  function ReadNumber<M>(s: seq<byte>, t: Tag, set_: uint64 -> M): (r: Step<M>)
    requires t.TagOf? && t.n <= |s|
    ensures r.Next? ==> 0 < r.n <= |s|
  {
    if t.wireType != 0 then Stop(WrongWireType)
    else match Decode(s[t.n..])
      case Bad(e) => Stop(e)
      case Ok(v, k) => Next(t.n + k, set_(v))
  }

  function FromBits(s: seq<byte>): uint64
    requires |s| == 8
  {
    EightBytesFit(s); FromLittleEndian(s)
  }

  lemma EightBytesFit(s: seq<byte>)
    requires |s| == 8
    ensures FromLittleEndian(s) < TWO64
  {
    assert FromLittleEndian(s[1..][1..][1..][1..][1..][1..][1..]) < 256;
    assert FromLittleEndian(s[1..][1..][1..][1..][1..][1..]) < 0x1_0000;
    assert FromLittleEndian(s[1..][1..][1..][1..][1..]) < 0x100_0000;
    assert FromLittleEndian(s[1..][1..][1..][1..]) < 0x1_0000_0000;
    assert FromLittleEndian(s[1..][1..][1..]) < 0x100_0000_0000;
    assert FromLittleEndian(s[1..][1..]) < 0x1_0000_0000_0000;
    assert FromLittleEndian(s[1..]) < 0x100_0000_0000_0000;
  }

  /** Appends the message a payload holds. */
  function ParseInto<T, M>(read: FieldReader<T>, empty: T, p: seq<byte>, add: T -> M): Parsed<M> {
    match ParseAll(read, p, 0, empty)
    case Failed(e) => Failed(e)
    case Done(x) => Done(add(x))
  }

  function LabelField(s: seq<byte>, at: nat, m: Label): (r: Step<Label>)
    ensures r.Next? ==> 0 < r.n <= |s|
  {
    match ReadTag(s)
    case BadTag(e) => Stop(e)
    case TagOf(num, wireType, n) =>
      var t := TagOf(num, wireType, n);
      if num == 1 then ReadBytes(s, at, t, p => Done(m.(name := p)))
      else if num == 2 then ReadBytes(s, at, t, p => Done(m.(value := p)))
      else ReadUnknown(s, at, u => m.(unrecognized := m.unrecognized + u))
  }

  function SampleField(s: seq<byte>, at: nat, m: Sample): (r: Step<Sample>)
    ensures r.Next? ==> 0 < r.n <= |s|
  {
    match ReadTag(s)
    case BadTag(e) => Stop(e)
    case TagOf(num, wireType, n) =>
      var t := TagOf(num, wireType, n);
      if num == 1 then ReadFixed(s, t, v => m.(value := v))
      else if num == 2 then ReadNumber(s, t, v => m.(timestamp := ToInt64(v)))
      else ReadUnknown(s, at, u => m.(unrecognized := m.unrecognized + u))
  }

  function ExemplarField(s: seq<byte>, at: nat, m: Exemplar): (r: Step<Exemplar>)
    ensures r.Next? ==> 0 < r.n <= |s|
  {
    match ReadTag(s)
    case BadTag(e) => Stop(e)
    case TagOf(num, wireType, n) =>
      var t := TagOf(num, wireType, n);
      if num == 1 then
        ReadBytes(s, at, t, p => ParseInto(LabelField, EMPTY_LABEL, p, x => m.(labels := m.labels + [x])))
      else if num == 2 then ReadFixed(s, t, v => m.(value := v))
      else if num == 3 then ReadNumber(s, t, v => m.(timestamp := ToInt64(v)))
      else ReadUnknown(s, at, u => m.(unrecognized := m.unrecognized + u))
  }

  function SeriesElement(num: int, p: seq<byte>, m: TimeSeries): Parsed<TimeSeries> {
    if num == 1 then ParseInto(LabelField, EMPTY_LABEL, p, x => m.(labels := m.labels + [x]))
    else if num == 2 then ParseInto(SampleField, EMPTY_SAMPLE, p, x => m.(samples := m.samples + [x]))
    else ParseInto(ExemplarField, EMPTY_EXEMPLAR, p, x => m.(exemplars := m.exemplars + [x]))
  }

  function SeriesField(s: seq<byte>, at: nat, m: TimeSeries): (r: Step<TimeSeries>)
    ensures r.Next? ==> 0 < r.n <= |s|
  {
    match ReadTag(s)
    case BadTag(e) => Stop(e)
    case TagOf(num, wireType, n) =>
      var t := TagOf(num, wireType, n);
      if num <= 3 then ReadBytes(s, at, t, p => SeriesElement(num, p, m))
      else ReadUnknown(s, at, u => m.(unrecognized := m.unrecognized + u))
  }

  function MetadataField(s: seq<byte>, at: nat, m: Metadata): (r: Step<Metadata>)
    ensures r.Next? ==> 0 < r.n <= |s|
  {
    match ReadTag(s)
    case BadTag(e) => Stop(e)
    case TagOf(num, wireType, n) =>
      var t := TagOf(num, wireType, n);
      if num == 1 then ReadNumber(s, t, v => m.(kind := ToInt32(v)))
      else if num == 2 then ReadBytes(s, at, t, p => Done(m.(family := p)))
      else if num == 4 then ReadBytes(s, at, t, p => Done(m.(help := p)))
      else if num == 5 then ReadBytes(s, at, t, p => Done(m.(unit := p)))
      else ReadUnknown(s, at, u => m.(unrecognized := m.unrecognized + u))
  }

  function RequestElement(num: int, p: seq<byte>, m: WriteRequest): Parsed<WriteRequest> {
    if num == 1 then ParseInto(SeriesField, EMPTY_SERIES, p, x => m.(timeseries := m.timeseries + [x]))
    else ParseInto(MetadataField, EMPTY_METADATA, p, x => m.(metadata := m.metadata + [x]))
  }

  function RequestField(s: seq<byte>, at: nat, m: WriteRequest): (r: Step<WriteRequest>)
    ensures r.Next? ==> 0 < r.n <= |s|
  {
    match ReadTag(s)
    case BadTag(e) => Stop(e)
    case TagOf(num, wireType, n) =>
      var t := TagOf(num, wireType, n);
      if num == 1 || num == 3 then ReadBytes(s, at, t, p => RequestElement(num, p, m))
      else ReadUnknown(s, at, u => m.(unrecognized := m.unrecognized + u))
  }
}
