/**
 The generated readers (pkg/prompb/types.pb.go, remote.pb.go). A reader appends to slices that a
 hand-written Reset has only truncated (pkg/prompb/custom.ts.go), so it reuses elements that
 still hold the previous request. `Vec` is such a slice with the stale elements behind it; the
 readers are proved against parsing into plain sequences, where nothing stale exists.
 */
module PrompbReader {
  import opened Arith
  import opened Wire
  import opened Prompb

  /** A slice: its elements, and the stale ones between its length and its capacity. */
  datatype Vec<T> = Vec(live: seq<T>, spare: seq<T>)

  datatype ExemplarBuf = ExemplarBuf(labels: Vec<Label>, value: uint64, timestamp: int64, unrecognized: seq<byte>)
  datatype SeriesBuf = SeriesBuf(
    labels: Vec<Label>, samples: Vec<Sample>, exemplars: Vec<ExemplarBuf>, unrecognized: seq<byte>)

  function Truncated<T>(v: Vec<T>): Vec<T> {
    Vec([], v.live + v.spare)
  }

  /** Extending a slice by one: within the capacity the stale element is reset, else a zero one is appended. */
  function Extended<T>(v: Vec<T>, reset: T -> T, zero: T): (r: Vec<T>)
    ensures |r.live| == |v.live| + 1 && r.live[..|v.live|] == v.live
  {
    if v.spare != [] then Vec(v.live + [reset(v.spare[0])], v.spare[1..]) else Vec(v.live + [zero], [])
  }

  function SetLast<T>(v: Vec<T>, x: T): Vec<T>
    requires v.live != []
  {
    v.(live := v.live[|v.live| - 1 := x])
  }

  const ZERO_EXEMPLAR := ExemplarBuf(Vec([], []), 0, 0, [])
  const ZERO_SERIES := SeriesBuf(Vec([], []), Vec([], []), Vec([], []), [])

  /** The Reset methods (custom.ts.go:8-14, types.pb.go:211, 398). */
  function ResetLabel(m: Label): Label { EMPTY_LABEL }
  function ResetSample(m: Sample): Sample { EMPTY_SAMPLE }
  function ResetMetadata(m: Metadata): Metadata { EMPTY_METADATA }
  function ResetExemplar(m: ExemplarBuf): ExemplarBuf { ExemplarBuf(Truncated(m.labels), 0, 0, []) }
  function ResetSeries(m: SeriesBuf): SeriesBuf {
    SeriesBuf(Truncated(m.labels), Truncated(m.samples), Truncated(m.exemplars), [])
  }

  // ---------- What a recycled message stands for ----------

  function View(m: ExemplarBuf): Exemplar {
    Exemplar(m.labels.live, m.value, m.timestamp, m.unrecognized)
  }

  function Views(xs: seq<ExemplarBuf>): seq<Exemplar> {
    seq(|xs|, i requires 0 <= i < |xs| => View(xs[i]))
  }

  function ViewSeries(m: SeriesBuf): TimeSeries {
    TimeSeries(m.labels.live, m.samples.live, Views(m.exemplars.live), m.unrecognized)
  }

  function ViewsSeries(xs: seq<SeriesBuf>): seq<TimeSeries> {
    seq(|xs|, i requires 0 <= i < |xs| => ViewSeries(xs[i]))
  }

  function Viewed<B, M>(view: B -> M, r: Parsed<B>): Parsed<M> {
    match r case Done(m) => Done(view(m)) case Failed(e) => Failed(e)
  }

  function ViewedStep<B, M>(view: B -> M, r: Step<B>): Step<M> {
    match r case Next(n, m) => Next(n, view(m)) case Stop(e) => Stop(e)
  }

  /** A reset element looks like a new one, whatever it held. */
  lemma ResetIsEmpty(e: ExemplarBuf, s: SeriesBuf)
    ensures View(ResetExemplar(e)) == EMPTY_EXEMPLAR && ViewSeries(ResetSeries(s)) == EMPTY_SERIES
    ensures View(ZERO_EXEMPLAR) == EMPTY_EXEMPLAR && ViewSeries(ZERO_SERIES) == EMPTY_SERIES
  {
  }

  // ---------- Fields in a buffer ----------

  method BytesAt(dAtA: array<byte>, i: nat, l: nat, at: nat, t: Tag) returns (r: Span)
    requires i <= l <= dAtA.Length && t.TagOf? && t.n <= l - i
    ensures r == BytesSpan(dAtA[i..l], at, t)
  {
    if t.wireType != 2 {
      return BadSpan(WrongWireType);
    }
    Tail(dAtA, i, l, t.n);
    r := PayloadAt(dAtA, i + t.n, l, at + t.n);
    if r.Span? {
      r := Span(t.n + r.lo, t.n + r.hi);
    }
  }

  lemma SubSlice(a: array<byte>, i: nat, l: nat, lo: nat, hi: nat)
    requires i <= l <= a.Length && lo <= hi <= l - i
    ensures a[i..l][lo..hi] == a[i + lo..i + hi]
  {
    var x, y := a[i..l][lo..hi], a[i + lo..i + hi];
    forall k | 0 <= k < hi - lo
      ensures x[k] == y[k]
    {
      assert x[k] == a[i..l][lo + k] == a[i + lo + k];
    }
  }

  lemma Tail(a: array<byte>, i: nat, l: nat, n: nat)
    requires i <= l <= a.Length && n <= l - i
    ensures a[i..l][n..] == a[i + n..l]
  {
  }

  method FixedAt(dAtA: array<byte>, i: nat, l: nat, t: Tag) returns (r: Step<uint64>)
    requires i <= l <= dAtA.Length && t.TagOf? && t.n <= l - i
    ensures r == ReadFixed(dAtA[i..l], t, v => v)
  {
    if t.wireType != 1 {
      return Stop(WrongWireType);
    }
    if t.n + 8 > l - i {
      return Stop(UnexpectedEof);
    }
    SubSlice(dAtA, i, l, t.n, t.n + 8);
    return Next(t.n + 8, FromBits(dAtA[i + t.n..i + t.n + 8]));
  }

  method NumberAt(dAtA: array<byte>, i: nat, l: nat, t: Tag) returns (r: Step<uint64>)
    requires i <= l <= dAtA.Length && t.TagOf? && t.n <= l - i
    ensures r == ReadNumber(dAtA[i..l], t, v => v)
  {
    if t.wireType != 0 {
      return Stop(WrongWireType);
    }
    Tail(dAtA, i, l, t.n);
    var d := ReadVarint(dAtA, i + t.n, l);
    match d
    case Bad(e) => return Stop(e);
    case Ok(v, k) => return Next(t.n + k, v);
  }

  method RawAt(dAtA: array<byte>, i: nat, l: nat, at: nat) returns (r: Step<seq<byte>>)
    requires i <= l <= dAtA.Length
    ensures r == ReadUnknown(dAtA[i..l], at, u => u)
  {
    var p := UnknownAt(dAtA, i, l, at);
    match p
    case BadSpan(e) => return Stop(e);
    case Span(_, b) =>
      assert dAtA[i..l][..b] == dAtA[i..i + b];
      return Next(b, dAtA[i..i + b]);
  }

  // ---------- Labels, samples and metadata ----------

  method ReadLabelField(dAtA: array<byte>, i: nat, l: nat, at: nat, m: Label) returns (r: Step<Label>)
    requires i <= l <= dAtA.Length
    ensures r == LabelField(dAtA[i..l], at, m)
  {
    var t := TagAt(dAtA, i, l);
    if t.BadTag? {
      return Stop(t.err);
    }
    if t.num == 1 || t.num == 2 {
      var p := BytesAt(dAtA, i, l, at, t);
      if p.BadSpan? {
        return Stop(p.err);
      }
      SubSlice(dAtA, i, l, p.lo, p.hi);
      var text := dAtA[i + p.lo..i + p.hi];
      return Next(p.hi, if t.num == 1 then m.(name := text) else m.(value := text));
    }
    var u := RawAt(dAtA, i, l, at);
    if u.Stop? {
      return Stop(u.err);
    }
    return Next(u.n, m.(unrecognized := m.unrecognized + u.msg));
  }

  method UnmarshalLabel(dAtA: array<byte>, lo: nat, l: nat, m0: Label) returns (r: Parsed<Label>)
    requires lo <= l <= dAtA.Length
    ensures r == ParseAll(LabelField, dAtA[lo..l], 0, m0)
  {
    hide LabelField;
    var i, m := lo, m0;
    while i < l
      invariant lo <= i <= l
      invariant ParseAll(LabelField, dAtA[lo..l], 0, m0) == ParseAll(LabelField, dAtA[i..l], i - lo, m)
    {
      var st := ReadLabelField(dAtA, i, l, i - lo, m);
      ParseOnward(LabelField, dAtA[i..l], i - lo, m);
      if st.Stop? {
        return Failed(st.err);
      }
      Tail(dAtA, i, l, st.n);
      i, m := i + st.n, st.msg;
    }
    return Done(m);
  }

  method ReadSampleField(dAtA: array<byte>, i: nat, l: nat, at: nat, m: Sample) returns (r: Step<Sample>)
    requires i <= l <= dAtA.Length
    ensures r == SampleField(dAtA[i..l], at, m)
  {
    var t := TagAt(dAtA, i, l);
    if t.BadTag? {
      return Stop(t.err);
    }
    if t.num == 1 {
      var v := FixedAt(dAtA, i, l, t);
      return if v.Stop? then Stop(v.err) else Next(v.n, m.(value := v.msg));
    }
    if t.num == 2 {
      var v := NumberAt(dAtA, i, l, t);
      return if v.Stop? then Stop(v.err) else Next(v.n, m.(timestamp := ToInt64(v.msg)));
    }
    var u := RawAt(dAtA, i, l, at);
    return if u.Stop? then Stop(u.err) else Next(u.n, m.(unrecognized := m.unrecognized + u.msg));
  }

  method UnmarshalSample(dAtA: array<byte>, lo: nat, l: nat, m0: Sample) returns (r: Parsed<Sample>)
    requires lo <= l <= dAtA.Length
    ensures r == ParseAll(SampleField, dAtA[lo..l], 0, m0)
  {
    hide SampleField;
    var i, m := lo, m0;
    while i < l
      invariant lo <= i <= l
      invariant ParseAll(SampleField, dAtA[lo..l], 0, m0) == ParseAll(SampleField, dAtA[i..l], i - lo, m)
    {
      var st := ReadSampleField(dAtA, i, l, i - lo, m);
      ParseOnward(SampleField, dAtA[i..l], i - lo, m);
      if st.Stop? {
        return Failed(st.err);
      }
      Tail(dAtA, i, l, st.n);
      i, m := i + st.n, st.msg;
    }
    return Done(m);
  }

  method ReadMetadataField(dAtA: array<byte>, i: nat, l: nat, at: nat, m: Metadata) returns (r: Step<Metadata>)
    requires i <= l <= dAtA.Length
    ensures r == MetadataField(dAtA[i..l], at, m)
  {
    var t := TagAt(dAtA, i, l);
    if t.BadTag? {
      return Stop(t.err);
    }
    if t.num == 1 {
      var v := NumberAt(dAtA, i, l, t);
      return if v.Stop? then Stop(v.err) else Next(v.n, m.(kind := ToInt32(v.msg)));
    }
    if t.num == 2 || t.num == 4 || t.num == 5 {
      var p := BytesAt(dAtA, i, l, at, t);
      if p.BadSpan? {
        return Stop(p.err);
      }
      SubSlice(dAtA, i, l, p.lo, p.hi);
      var text := dAtA[i + p.lo..i + p.hi];
      return Next(p.hi, if t.num == 2 then m.(family := text)
                        else if t.num == 4 then m.(help := text) else m.(unit := text));
    }
    var u := RawAt(dAtA, i, l, at);
    return if u.Stop? then Stop(u.err) else Next(u.n, m.(unrecognized := m.unrecognized + u.msg));
  }

  method UnmarshalMetadata(dAtA: array<byte>, lo: nat, l: nat, m0: Metadata) returns (r: Parsed<Metadata>)
    requires lo <= l <= dAtA.Length
    ensures r == ParseAll(MetadataField, dAtA[lo..l], 0, m0)
  {
    hide MetadataField;
    var i, m := lo, m0;
    while i < l
      invariant lo <= i <= l
      invariant ParseAll(MetadataField, dAtA[lo..l], 0, m0) == ParseAll(MetadataField, dAtA[i..l], i - lo, m)
    {
      var st := ReadMetadataField(dAtA, i, l, i - lo, m);
      ParseOnward(MetadataField, dAtA[i..l], i - lo, m);
      if st.Stop? {
        return Failed(st.err);
      }
      Tail(dAtA, i, l, st.n);
      i, m := i + st.n, st.msg;
    }
    return Done(m);
  }

  // ---------- Messages that recycle their slices ----------

  method ReadExemplarField(dAtA: array<byte>, i: nat, l: nat, at: nat, m: ExemplarBuf) returns (r: Step<ExemplarBuf>)
    requires i <= l <= dAtA.Length
    ensures ViewedStep(View, r) == ExemplarField(dAtA[i..l], at, View(m))
  {
    hide ReadTag, BytesSpan, Decode, Unknown, FromBits, ParseAll;
    var t := TagAt(dAtA, i, l);
    if t.BadTag? {
      return Stop(t.err);
    }
    if t.num == 1 {
      var p := BytesAt(dAtA, i, l, at, t);
      if p.BadSpan? {
        return Stop(p.err);
      }
      SubSlice(dAtA, i, l, p.lo, p.hi);
      var v := Extended(m.labels, ResetLabel, EMPTY_LABEL);
      var x := UnmarshalLabel(dAtA, i + p.lo, i + p.hi, v.live[|m.labels.live|]);
      if x.Failed? {
        return Stop(x.err);
      }
      assert SetLast(v, x.msg).live == m.labels.live + [x.msg];
      return Next(p.hi, m.(labels := SetLast(v, x.msg)));
    }
    if t.num == 2 {
      var v := FixedAt(dAtA, i, l, t);
      return if v.Stop? then Stop(v.err) else Next(v.n, m.(value := v.msg));
    }
    if t.num == 3 {
      var v := NumberAt(dAtA, i, l, t);
      return if v.Stop? then Stop(v.err) else Next(v.n, m.(timestamp := ToInt64(v.msg)));
    }
    var u := RawAt(dAtA, i, l, at);
    return if u.Stop? then Stop(u.err) else Next(u.n, m.(unrecognized := m.unrecognized + u.msg));
  }

  method UnmarshalExemplar(dAtA: array<byte>, lo: nat, l: nat, m0: ExemplarBuf) returns (r: Parsed<ExemplarBuf>)
    requires lo <= l <= dAtA.Length
    ensures Viewed(View, r) == ParseAll(ExemplarField, dAtA[lo..l], 0, View(m0))
  {
    hide ExemplarField;
    var i, m := lo, m0;
    while i < l
      invariant lo <= i <= l
      invariant ParseAll(ExemplarField, dAtA[lo..l], 0, View(m0)) ==
          ParseAll(ExemplarField, dAtA[i..l], i - lo, View(m))
    {
      var st := ReadExemplarField(dAtA, i, l, i - lo, m);
      ParseOnward(ExemplarField, dAtA[i..l], i - lo, View(m));
      if st.Stop? {
        return Failed(st.err);
      }
      Tail(dAtA, i, l, st.n);
      i, m := i + st.n, st.msg;
    }
    return Done(m);
  }

  /** The nested message of a series: it is appended to the slice its field number names. */
  method ReadSeriesElement(dAtA: array<byte>, lo: nat, hi: nat, num: int, m: SeriesBuf) returns (r: Parsed<SeriesBuf>)
    requires lo <= hi <= dAtA.Length && 1 <= num <= 3
    ensures Viewed(ViewSeries, r) == SeriesElement(num, dAtA[lo..hi], ViewSeries(m))
  {
    hide ParseAll;
    if num == 1 {
      var v := Extended(m.labels, ResetLabel, EMPTY_LABEL);
      var x := UnmarshalLabel(dAtA, lo, hi, v.live[|m.labels.live|]);
      if x.Failed? {
        return Failed(x.err);
      }
      assert SetLast(v, x.msg).live == m.labels.live + [x.msg];
      return Done(m.(labels := SetLast(v, x.msg)));
    }
    if num == 2 {
      var v := Extended(m.samples, ResetSample, EMPTY_SAMPLE);
      var x := UnmarshalSample(dAtA, lo, hi, v.live[|m.samples.live|]);
      if x.Failed? {
        return Failed(x.err);
      }
      assert SetLast(v, x.msg).live == m.samples.live + [x.msg];
      return Done(m.(samples := SetLast(v, x.msg)));
    }
    var v := Extended(m.exemplars, ResetExemplar, ZERO_EXEMPLAR);
    var x := UnmarshalExemplar(dAtA, lo, hi, v.live[|m.exemplars.live|]);
    if x.Failed? {
      return Failed(x.err);
    }
    assert SetLast(v, x.msg).live == m.exemplars.live + [x.msg];
    assert Views(m.exemplars.live + [x.msg]) == Views(m.exemplars.live) + [View(x.msg)];
    return Done(m.(exemplars := SetLast(v, x.msg)));
  }

  method ReadSeriesField(dAtA: array<byte>, i: nat, l: nat, at: nat, m: SeriesBuf) returns (r: Step<SeriesBuf>)
    requires i <= l <= dAtA.Length
    ensures ViewedStep(ViewSeries, r) == SeriesField(dAtA[i..l], at, ViewSeries(m))
  {
    hide ReadTag, BytesSpan, Unknown, SeriesElement;
    var t := TagAt(dAtA, i, l);
    if t.BadTag? {
      return Stop(t.err);
    }
    if t.num <= 3 {
      var p := BytesAt(dAtA, i, l, at, t);
      if p.BadSpan? {
        return Stop(p.err);
      }
      SubSlice(dAtA, i, l, p.lo, p.hi);
      var x := ReadSeriesElement(dAtA, i + p.lo, i + p.hi, t.num, m);
      return if x.Failed? then Stop(x.err) else Next(p.hi, x.msg);
    }
    var u := RawAt(dAtA, i, l, at);
    return if u.Stop? then Stop(u.err) else Next(u.n, m.(unrecognized := m.unrecognized + u.msg));
  }

  method UnmarshalTimeSeries(dAtA: array<byte>, lo: nat, l: nat, m0: SeriesBuf) returns (r: Parsed<SeriesBuf>)
    requires lo <= l <= dAtA.Length
    ensures Viewed(ViewSeries, r) == ParseAll(SeriesField, dAtA[lo..l], 0, ViewSeries(m0))
  {
    hide SeriesField, ViewSeries;
    var i, m := lo, m0;
    while i < l
      invariant lo <= i <= l
      invariant ParseAll(SeriesField, dAtA[lo..l], 0, ViewSeries(m0)) ==
                ParseAll(SeriesField, dAtA[i..l], i - lo, ViewSeries(m))
    {
      var st := ReadSeriesField(dAtA, i, l, i - lo, m);
      ParseOnward(SeriesField, dAtA[i..l], i - lo, ViewSeries(m));
      if st.Stop? {
        return Failed(st.err);
      }
      Tail(dAtA, i, l, st.n);
      i, m := i + st.n, st.msg;
    }
    return Done(m);
  }

  /** A WriteRequest as the receiver keeps it between requests. */
  class WriteRequestBuf {
    var timeseries: Vec<SeriesBuf>
    var metadata: Vec<Metadata>
    var unrecognized: seq<byte>

    constructor ()
      ensures Contents() == EMPTY_REQUEST
    {
      timeseries, metadata, unrecognized := Vec([], []), Vec([], []), [];
    }

    function Contents(): WriteRequest
      reads this
    {
      WriteRequest(ViewsSeries(timeseries.live), metadata.live, unrecognized)
    }

    /** Reset (custom.ts.go:8-10) empties the message but keeps everything it held as spare elements. */
    method Reset()
      modifies this
      ensures Contents() == EMPTY_REQUEST
      ensures timeseries == Truncated(old(timeseries)) && metadata == Truncated(old(metadata))
    {
      timeseries, metadata, unrecognized := Truncated(timeseries), Truncated(metadata), [];
    }

    /** The nested message of a request: it is appended to the slice its field number names. */
    method ReadElement(dAtA: array<byte>, lo: nat, hi: nat, num: int) returns (r: Parsed<()>)
      requires lo <= hi <= dAtA.Length
      modifies this
      ensures var x := RequestElement(num, dAtA[lo..hi], old(Contents()));
              match r case Failed(e) => x == Failed(e) case Done(_) => x == Done(Contents())
    {
      hide ParseAll, ViewSeries;
      if num == 1 {
        var v := Extended(timeseries, ResetSeries, ZERO_SERIES);
        ResetIsEmpty(ZERO_EXEMPLAR, if timeseries.spare != [] then timeseries.spare[0] else ZERO_SERIES);
        var x := UnmarshalTimeSeries(dAtA, lo, hi, v.live[|timeseries.live|]);
        if x.Failed? {
          return Failed(x.err);
        }
        assert SetLast(v, x.msg).live == timeseries.live + [x.msg];
        assert ViewsSeries(timeseries.live + [x.msg]) == ViewsSeries(timeseries.live) + [ViewSeries(x.msg)];
        timeseries := SetLast(v, x.msg);
        return Done(());
      }
      var v := Extended(metadata, ResetMetadata, EMPTY_METADATA);
      var x := UnmarshalMetadata(dAtA, lo, hi, v.live[|metadata.live|]);
      if x.Failed? {
        return Failed(x.err);
      }
      assert SetLast(v, x.msg).live == metadata.live + [x.msg];
      metadata := SetLast(v, x.msg);
      return Done(());
    }

    /** One field; an error leaves the fields read before it in place. */
    method ReadField(dAtA: array<byte>, i: nat, l: nat, at: nat) returns (r: Step<()>)
      requires i <= l <= dAtA.Length
      modifies this
      ensures var st := RequestField(dAtA[i..l], at, old(Contents()));
              match r case Stop(e) => st == Stop(e) case Next(n, _) => st == Next(n, Contents())
    {
      hide ReadTag, BytesSpan, Unknown, RequestElement;
      var t := TagAt(dAtA, i, l);
      if t.BadTag? {
        return Stop(t.err);
      }
      if t.num == 1 || t.num == 3 {
        var p := BytesAt(dAtA, i, l, at, t);
        if p.BadSpan? {
          return Stop(p.err);
        }
        SubSlice(dAtA, i, l, p.lo, p.hi);
        var x := ReadElement(dAtA, i + p.lo, i + p.hi, t.num);
        return if x.Failed? then Stop(x.err) else Next(p.hi, ());
      }
      var u := RawAt(dAtA, i, l, at);
      if u.Stop? {
        return Stop(u.err);
      }
      unrecognized := unrecognized + u.msg;
      return Next(u.n, ());
    }

    /** Unmarshal (remote.pb.go:910-1038). */
    method Unmarshal(dAtA: array<byte>) returns (r: Parsed<()>)
      modifies this
      ensures var parsed := ParseAll(RequestField, dAtA[..], 0, old(Contents()));
              match r case Failed(e) => parsed == Failed(e) case Done(_) => parsed == Done(Contents())
    {
      hide RequestField, ViewSeries;
      var i, l := 0, dAtA.Length;
      assert dAtA[0..l] == dAtA[..];
      while i < l
        invariant 0 <= i <= l
        invariant ParseAll(RequestField, dAtA[..], 0, old(Contents())) ==
                  ParseAll(RequestField, dAtA[i..l], i, Contents())
      {
        ParseOnward(RequestField, dAtA[i..l], i, Contents());
        var st := ReadField(dAtA, i, l, i);
        if st.Stop? {
          return Failed(st.err);
        }
        Tail(dAtA, i, l, st.n);
        i := i + st.n;
      }
      return Done(());
    }

    /** Decoding into a recycled request depends on the bytes only, not on what it held before. */
    method DecodeRecycled(dAtA: array<byte>) returns (r: Parsed<()>)
      modifies this
      ensures var fresh_ := ParseAll(RequestField, dAtA[..], 0, EMPTY_REQUEST);
              match r case Failed(e) => fresh_ == Failed(e) case Done(_) => fresh_ == Done(Contents())
    {
      Reset();
      r := Unmarshal(dAtA);
    }
  }
}
