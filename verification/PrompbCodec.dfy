/**
 The codec as a whole: a request that is written and read again, and a request that is received
 and passed on.
 */
module PrompbCodec {
  import opened Arith
  import opened Wire
  import opened UnknownFields
  import opened Prompb
  import opened PrompbRoundTrip
  import opened PrompbWriter
  import opened PrompbReader

  /** A marshalled request, unmarshalled into a request that held anything before, is the request. */
  method Transfer(m: WriteRequest, into: WriteRequestBuf) returns (r: Parsed<()>)
    requires SoundRequest(m) && SizeWriteRequest(m) < TWO63
    modifies into
    ensures r.Done? && into.Contents() == NormRequest(m)
  {
    hide SoundRequest, ParseAll, EncWriteRequest, NormRequest;
    SizeWriteRequestIsLength(m);
    WriteRequestRoundTrip(m);
    var dAtA := Marshal(m);
    r := into.DecodeRecycled(dAtA);
  }

  // ---------- What was received is sound ----------

  /** What every field keeps holds of the whole message. */
  lemma {:induction false} ParseKeeps<M(!new)>(read: FieldReader<M>, holds: M -> bool, s: seq<byte>, at: nat, m: M)
    requires holds(m) && forall s, at: nat, m :: s != [] && holds(m) && read(s, at, m).Next? ==>
        holds(read(s, at, m).msg)
    ensures ParseAll(read, s, at, m).Done? ==> holds(ParseAll(read, s, at, m).msg)
    decreases |s|
  {
    if s != [] && read(s, at, m).Next? && 0 < read(s, at, m).n <= |s| {
      ParseKeeps(read, holds, s[read(s, at, m).n..], at + read(s, at, m).n, read(s, at, m).msg);
    }
  }

  function Append(fs: Fields, f: Field): Fields {
    match fs
    case NoFields => More(f, NoFields)
    case More(g, rest) => More(g, Append(rest, f))
  }

  lemma {:induction false} AppendBytes(fs: Fields, f: Field, known: set<int>)
    requires AllForeign(fs, known) && Foreign(f, known)
    ensures AllForeign(Append(fs, f), known) && AllBytes(Append(fs, f)) == AllBytes(fs) + Bytes(f)
    decreases fs
  {
    hide Bytes, Foreign;
    if fs.More? {
      AppendBytes(fs.tail, f, known);
      assert AllBytes(Append(fs, f)) == Bytes(fs.head) + (AllBytes(fs.tail) + Bytes(f));
    } else {
      assert Bytes(f) + [] == Bytes(f) == [] + Bytes(f);
    }
  }

  /** A field that was skipped as unknown is one more well-formed field. */
  lemma SkippedIsUnrecognized(s: seq<byte>, at: nat, u: seq<byte>, known: set<int>)
    requires Unrecognized(u, known)
    requires ReadTag(s).TagOf? && ReadTag(s).num !in known && Unknown(s, at).Span?
    ensures Unrecognized(u + s[..Unknown(s, at).hi], known)
  {
    hide SkipFrom, Decode, DecodeFrom, WellBody, AllForeign, AllBytes;
    var f := SkippedIsField(s);
    var fs :| AllForeign(fs, known) && AllBytes(fs) == u;
    assert s[..Unknown(s, at).hi] == Bytes(f);
    AtSplit(s, 0, f.key, BodyBytes(f.body));
    DecodeAt(s, 0, f.key);
    assert s[0..] == s;
    AppendBytes(fs, f, known);
  }

  lemma LabelStaysSound(s: seq<byte>, at: nat, m: Label)
    requires s != [] && SoundLabel(m) && LabelField(s, at, m).Next?
    ensures SoundLabel(LabelField(s, at, m).msg)
  {
    hide ReadTag, Unknown, BytesSpan, Unrecognized;
    if ReadTag(s).num !in {1, 2} {
      SkippedIsUnrecognized(s, at, m.unrecognized, {1, 2});
    }
  }

  lemma SampleStaysSound(s: seq<byte>, at: nat, m: Sample)
    requires s != [] && SoundSample(m) && SampleField(s, at, m).Next?
    ensures SoundSample(SampleField(s, at, m).msg)
  {
    hide ReadTag, Unknown, BytesSpan, Unrecognized, Decode, FromBits;
    if ReadTag(s).num !in {1, 2} {
      SkippedIsUnrecognized(s, at, m.unrecognized, {1, 2});
    }
  }

  lemma MetadataStaysSound(s: seq<byte>, at: nat, m: Metadata)
    requires s != [] && SoundMetadata(m) && MetadataField(s, at, m).Next?
    ensures SoundMetadata(MetadataField(s, at, m).msg)
  {
    hide ReadTag, Unknown, BytesSpan, Unrecognized, Decode;
    if ReadTag(s).num !in {1, 2, 4, 5} {
      SkippedIsUnrecognized(s, at, m.unrecognized, {1, 2, 4, 5});
    }
  }

  lemma ParsedLabelIsSound(p: seq<byte>)
    ensures ParseAll(LabelField, p, 0, EMPTY_LABEL).Done? ==> SoundLabel(ParseAll(LabelField, p, 0, EMPTY_LABEL).msg)
  {
    hide LabelField, ParseAll;
    NothingIsUnrecognized({1, 2});
    forall s, at: nat, m | s != [] && SoundLabel(m) && LabelField(s, at, m).Next?
      ensures SoundLabel(LabelField(s, at, m).msg)
    {
      LabelStaysSound(s, at, m);
    }
    ParseKeeps(LabelField, m => SoundLabel(m), p, 0, EMPTY_LABEL);
  }

  lemma ParsedSampleIsSound(p: seq<byte>)
    ensures ParseAll(SampleField, p, 0, EMPTY_SAMPLE).Done? ==>
        SoundSample(ParseAll(SampleField, p, 0, EMPTY_SAMPLE).msg)
  {
    hide SampleField, ParseAll;
    NothingIsUnrecognized({1, 2});
    forall s, at: nat, m | s != [] && SoundSample(m) && SampleField(s, at, m).Next?
      ensures SoundSample(SampleField(s, at, m).msg)
    {
      SampleStaysSound(s, at, m);
    }
    ParseKeeps(SampleField, m => SoundSample(m), p, 0, EMPTY_SAMPLE);
  }

  lemma ParsedMetadataIsSound(p: seq<byte>)
    ensures ParseAll(MetadataField, p, 0, EMPTY_METADATA).Done? ==>
              SoundMetadata(ParseAll(MetadataField, p, 0, EMPTY_METADATA).msg)
  {
    hide MetadataField, ParseAll;
    NothingIsUnrecognized({1, 2, 4, 5});
    forall s, at: nat, m | s != [] && SoundMetadata(m) && MetadataField(s, at, m).Next?
      ensures SoundMetadata(MetadataField(s, at, m).msg)
    {
      MetadataStaysSound(s, at, m);
    }
    ParseKeeps(MetadataField, m => SoundMetadata(m), p, 0, EMPTY_METADATA);
  }

  lemma ExemplarStaysSound(s: seq<byte>, at: nat, m: Exemplar)
    requires s != [] && SoundExemplar(m) && ExemplarField(s, at, m).Next?
    ensures SoundExemplar(ExemplarField(s, at, m).msg)
  {
    hide ReadTag, Unknown, BytesSpan, Unrecognized, Decode, FromBits, ParseAll, SoundLabel;
    if ReadTag(s).num !in {1, 2, 3} {
      SkippedIsUnrecognized(s, at, m.unrecognized, {1, 2, 3});
    } else if ReadTag(s).num == 1 {
      var span := BytesSpan(s, at, ReadTag(s));
      ParsedLabelIsSound(s[span.lo..span.hi]);
    }
  }

  lemma ParsedExemplarIsSound(p: seq<byte>)
    ensures ParseAll(ExemplarField, p, 0, EMPTY_EXEMPLAR).Done? ==>
              SoundExemplar(ParseAll(ExemplarField, p, 0, EMPTY_EXEMPLAR).msg)
  {
    hide ExemplarField, ParseAll;
    NothingIsUnrecognized({1, 2, 3});
    forall s, at: nat, m | s != [] && SoundExemplar(m) && ExemplarField(s, at, m).Next?
      ensures SoundExemplar(ExemplarField(s, at, m).msg)
    {
      ExemplarStaysSound(s, at, m);
    }
    ParseKeeps(ExemplarField, m => SoundExemplar(m), p, 0, EMPTY_EXEMPLAR);
  }

  lemma SeriesElementIsSound(num: int, p: seq<byte>, m: TimeSeries)
    requires SoundSeries(m) && SeriesElement(num, p, m).Done?
    ensures SoundSeries(SeriesElement(num, p, m).msg)
  {
    hide ParseAll, Unrecognized, SoundLabel, SoundSample, SoundExemplar;
    ParsedLabelIsSound(p);
    ParsedSampleIsSound(p);
    ParsedExemplarIsSound(p);
  }

  lemma SeriesStaysSound(s: seq<byte>, at: nat, m: TimeSeries)
    requires s != [] && SoundSeries(m) && SeriesField(s, at, m).Next?
    ensures SoundSeries(SeriesField(s, at, m).msg)
  {
    hide ReadTag, Unknown, BytesSpan, Unrecognized, SeriesElement, SoundLabel, SoundSample, SoundExemplar;
    var t := ReadTag(s);
    if t.num !in {1, 2, 3} {
      SkippedIsUnrecognized(s, at, m.unrecognized, {1, 2, 3});
    } else {
      var span := BytesSpan(s, at, t);
      SeriesElementIsSound(t.num, s[span.lo..span.hi], m);
    }
  }

  lemma ParsedSeriesIsSound(p: seq<byte>)
    ensures ParseAll(SeriesField, p, 0, EMPTY_SERIES).Done? ==>
        SoundSeries(ParseAll(SeriesField, p, 0, EMPTY_SERIES).msg)
  {
    hide SeriesField, ParseAll;
    NothingIsUnrecognized({1, 2, 3});
    forall s, at: nat, m | s != [] && SoundSeries(m) && SeriesField(s, at, m).Next?
      ensures SoundSeries(SeriesField(s, at, m).msg)
    {
      SeriesStaysSound(s, at, m);
    }
    ParseKeeps(SeriesField, m => SoundSeries(m), p, 0, EMPTY_SERIES);
  }

  lemma RequestElementIsSound(num: int, p: seq<byte>, m: WriteRequest)
    requires SoundRequest(m) && RequestElement(num, p, m).Done?
    ensures SoundRequest(RequestElement(num, p, m).msg)
  {
    hide ParseAll, Unrecognized, SoundSeries, SoundMetadata;
    ParsedSeriesIsSound(p);
    ParsedMetadataIsSound(p);
  }

  lemma RequestStaysSound(s: seq<byte>, at: nat, m: WriteRequest)
    requires s != [] && SoundRequest(m) && RequestField(s, at, m).Next?
    ensures SoundRequest(RequestField(s, at, m).msg)
  {
    hide ReadTag, Unknown, BytesSpan, Unrecognized, RequestElement, SoundSeries, SoundMetadata;
    var t := ReadTag(s);
    if t.num !in {1, 3} {
      SkippedIsUnrecognized(s, at, m.unrecognized, {1, 3});
    } else {
      var span := BytesSpan(s, at, t);
      RequestElementIsSound(t.num, s[span.lo..span.hi], m);
    }
  }

  /** Whatever bytes a request was read from, its unrecognized parts are well-formed unknown fields. */
  lemma ReceivedIsSound(p: seq<byte>)
    ensures ParseAll(RequestField, p, 0, EMPTY_REQUEST).Done? ==>
        SoundRequest(ParseAll(RequestField, p, 0, EMPTY_REQUEST).msg)
  {
    hide RequestField, ParseAll;
    NothingIsUnrecognized({1, 3});
    forall s, at: nat, m | s != [] && SoundRequest(m) && RequestField(s, at, m).Next?
      ensures SoundRequest(RequestField(s, at, m).msg)
    {
      RequestStaysSound(s, at, m);
    }
    ParseKeeps(RequestField, m => SoundRequest(m), p, 0, EMPTY_REQUEST);
  }

  /** A received request that is passed on arrives as it was received, unknown fields included. */
  lemma PassedOnArrives(p: seq<byte>, m: WriteRequest)
    requires ParseAll(RequestField, p, 0, EMPTY_REQUEST) == Done(m) && |EncWriteRequest(m)| < TWO63
    ensures ParseAll(RequestField, EncWriteRequest(m), 0, EMPTY_REQUEST) == Done(NormRequest(m))
  {
    hide *;
    ReceivedIsSound(p);
    WriteRequestRoundTrip(m);
  }
}
