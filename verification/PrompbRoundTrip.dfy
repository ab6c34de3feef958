/** Parsing undoes encoding, message by message. */
module PrompbRoundTrip {
  import opened Arith
  import opened Wire
  import opened Prompb
  import opened UnknownFields

  // ---------- What comes back ----------

  /** Negative zero counts as absent, so it comes back as positive zero. */
  function Bits(bits: uint64): uint64 {
    if IsZero(bits) then 0 else bits
  }

  function Mapped<T>(f: T -> T, xs: seq<T>): seq<T> {
    if xs == [] then [] else [f(xs[0])] + Mapped(f, xs[1..])
  }

  function NormSample(m: Sample): Sample { m.(value := Bits(m.value)) }
  function NormExemplar(m: Exemplar): Exemplar { m.(value := Bits(m.value)) }

  function NormSeries(m: TimeSeries): TimeSeries {
    m.(samples := Mapped(NormSample, m.samples), exemplars := Mapped(NormExemplar, m.exemplars))
  }

  function NormRequest(m: WriteRequest): WriteRequest {
    m.(timeseries := Mapped(NormSeries, m.timeseries))
  }

  /** The number that ReadTag finds in the key of a field. */
  function NumberOf(f: Field): int
    requires IsVarint(f.key)
  {
    ToInt32(ValueOf(f.key) / 8)
  }

  predicate Foreign(f: Field, known: set<int>) {
    WellFormed(f) && NumberOf(f) > 0 && NumberOf(f) !in known
  }

  predicate AllForeign(fs: Fields, known: set<int>) {
    fs.More? ==> Foreign(fs.head, known) && AllForeign(fs.tail, known)
  }

  /** Unrecognized bytes: well-formed fields with numbers that the message does not know. */
  ghost predicate Unrecognized(u: seq<byte>, known: set<int>) {
    exists fs :: AllForeign(fs, known) && AllBytes(fs) == u
  }

  lemma NothingIsUnrecognized(known: set<int>)
    ensures Unrecognized([], known)
  {
    assert AllForeign(NoFields, known) && AllBytes(NoFields) == [];
  }

  ghost predicate SoundLabel(m: Label) { Unrecognized(m.unrecognized, {1, 2}) }
  ghost predicate SoundSample(m: Sample) { Unrecognized(m.unrecognized, {1, 2}) }
  ghost predicate SoundMetadata(m: Metadata) { Unrecognized(m.unrecognized, {1, 2, 4, 5}) }
  ghost predicate SoundExemplar(m: Exemplar) {
    Unrecognized(m.unrecognized, {1, 2, 3}) && forall x :: x in m.labels ==> SoundLabel(x)
  }
  ghost predicate SoundSeries(m: TimeSeries) {
    && Unrecognized(m.unrecognized, {1, 2, 3})
    && (forall x :: x in m.labels ==> SoundLabel(x))
    && (forall x :: x in m.samples ==> SoundSample(x))
    && (forall x :: x in m.exemplars ==> SoundExemplar(x))
  }
  ghost predicate SoundRequest(m: WriteRequest) {
    && Unrecognized(m.unrecognized, {1, 3})
    && (forall x :: x in m.timeseries ==> SoundSeries(x))
    && (forall x :: x in m.metadata ==> SoundMetadata(x))
  }

  // ---------- One field ----------

  lemma TagField(tag: byte, rest: seq<byte>)
    requires 8 <= tag < 128 && tag % 8 != 4
    ensures var s := [tag] + rest;
            ReadTag(s) == TagOf(tag / 8, tag % 8, 1) && s[1..] == rest
  {
    RoomAtStart();
  }

  lemma MessageTag(tag: byte, p: seq<byte>, rest: seq<byte>)
    requires 8 <= tag < 128 && tag % 8 == 2
    ensures ReadTag(EncMessage(tag, p) + rest) == TagOf(tag / 8, 2, 1)
  {
    assert EncMessage(tag, p) + rest == [tag] + (VarintBytes(|p|) + p + rest);
    TagField(tag, VarintBytes(|p|) + p + rest);
  }

  lemma MessageField<M>(tag: byte, p: seq<byte>, rest: seq<byte>, at: nat, set_: seq<byte> -> Parsed<M>)
    requires 8 <= tag < 128 && tag % 8 == 2 && at + |EncMessage(tag, p)| < TWO63 && set_(p).Done?
    ensures ReadBytes(EncMessage(tag, p) + rest, at, TagOf(tag / 8, 2, 1), set_) ==
            Next(|EncMessage(tag, p)|, set_(p).msg)
  {
    var v := VarintBytes(|p|);
    var s, t := EncMessage(tag, p) + rest, v + (p + rest);
    assert s == [tag] + t && s[1..] == t;
    RoomAtStart();
    DecodeUndoesEncode(|p|, p + rest, 0);
    assert Payload(t, at + 1) == Span(|v|, |v| + |p|);
    assert s[1 + |v|..1 + |v| + |p|] == p;
  }

  lemma VarintField<M>(tag: byte, v: uint64, rest: seq<byte>, set_: uint64 -> M)
    requires 8 <= tag < 128 && tag % 8 == 0
    ensures var s := [tag] + VarintBytes(v) + rest;
            && ReadTag(s) == TagOf(tag / 8, 0, 1)
            && ReadNumber(s, ReadTag(s), set_) == Next(|[tag] + VarintBytes(v)|, set_(v))
  {
    assert [tag] + VarintBytes(v) + rest == [tag] + (VarintBytes(v) + rest);
    TagField(tag, VarintBytes(v) + rest);
    RoomAtStart();
    DecodeUndoesEncode(v, rest, 0);
  }

  lemma FixedField<M>(tag: byte, bits: uint64, rest: seq<byte>, set_: uint64 -> M)
    requires 8 <= tag < 128 && tag % 8 == 1
    ensures var s := [tag] + LittleEndian(bits, 8) + rest;
            && ReadTag(s) == TagOf(tag / 8, 1, 1)
            && ReadFixed(s, ReadTag(s), set_) == Next(9, set_(bits))
  {
    var w := LittleEndian(bits, 8);
    assert [tag] + w + rest == [tag] + (w + rest);
    TagField(tag, w + rest);
    assert ([tag] + (w + rest))[1..9] == w;
    LittleEndianRoundTrip(bits);
  }

  // ---------- Sequences of fields ----------

  /** Parsing goes on behind a field that was read. */
  lemma ParseOne<M>(read: FieldReader<M>, x: seq<byte>, rest: seq<byte>, at: nat, m: M, m': M)
    requires x != [] && read(x + rest, at, m) == Next(|x|, m')
    ensures ParseAll(read, x + rest, at, m) == ParseAll(read, rest, at + |x|, m')
  {
    assert (x + rest)[|x|..] == rest;
  }

  function AddAll<T, M>(add: (M, T) -> M, m: M, items: seq<T>): M {
    if items == [] then m else AddAll(add, add(m, items[0]), items[1..])
  }

  /** A repeated field whose elements are read one by one is read as a whole. */
  lemma {:induction false} ParseRepeated<T, M>(read: FieldReader<M>, tag: byte, enc: T -> seq<byte>, add: (M, T) -> M,
                                               items: seq<T>, rest: seq<byte>, at: nat, m: M)
    requires at + |EncAll(tag, enc, items)| < TWO63
    requires forall x, r, a: nat, m :: x in items && a + |EncMessage(tag, enc(x))| < TWO63 ==>
               read(EncMessage(tag, enc(x)) + r, a, m) == Next(|EncMessage(tag, enc(x))|, add(m, x))
    ensures ParseAll(read, EncAll(tag, enc, items) + rest, at, m) ==
            ParseAll(read, rest, at + |EncAll(tag, enc, items)|, AddAll(add, m, items))
    decreases items
  {
    if items == [] {
      assert [] + rest == rest;
    } else {
      var head, tail := EncMessage(tag, enc(items[0])), EncAll(tag, enc, items[1..]);
      assert EncAll(tag, enc, items) + rest == head + (tail + rest);
      ParseOne(read, head, tail + rest, at, m, add(m, items[0]));
      ParseRepeated(read, tag, enc, add, items[1..], rest, at + |head|, add(m, items[0]));
    }
  }

  // ---------- Unrecognized fields ----------

  /** A field with an unknown number is kept as it is. */
  lemma UnknownField<M>(f: Field, rest: seq<byte>, at: nat, keep: seq<byte> -> M)
    requires WellFormed(f) && NumberOf(f) > 0 && at + |Bytes(f)| < TWO63
    ensures ReadTag(Bytes(f) + rest) == TagOf(NumberOf(f), WireType(f.body), |f.key|)
    ensures ReadUnknown(Bytes(f) + rest, at, keep) == Next(|Bytes(f)|, keep(Bytes(f)))
  {
    hide SkipFrom, DecodeFrom, Decode, WellBody, BodyBytes;
    var s := Bytes(f) + rest;
    assert At(s, 0, Bytes(f));
    assert s == f.key + (BodyBytes(f.body) + rest);
    assert At(s, 0, f.key);
    assert s[0..] == s;
    DecodeAt(s, 0, f.key);
    SkipField(s, 0, 0, f);
    assert s[..|Bytes(f)|] == Bytes(f);
  }

  /** The reader keeps a foreign field. */
  ghost predicate Keeps<M(!new)>(read: FieldReader<M>, known: set<int>, keep: (M, seq<byte>) -> M) {
    forall f, r, a: nat, m :: Foreign(f, known) && a + |Bytes(f)| < TWO63 ==>
      read(Bytes(f) + r, a, m) == Next(|Bytes(f)|, keep(m, Bytes(f)))
  }

  /** What is kept adds up. */
  ghost predicate AddsUp<M(!new)>(keep: (M, seq<byte>) -> M) {
    (forall m :: keep(m, []) == m) && (forall m, a, b :: keep(keep(m, a), b) == keep(m, a + b))
  }

  lemma KeepsOne<M(!new)>(read: FieldReader<M>, known: set<int>, keep: (M, seq<byte>) -> M, f: Field,
                          rest: seq<byte>, at: nat, m: M)
    requires Keeps(read, known, keep) && Foreign(f, known) && at + |Bytes(f)| < TWO63
    ensures read(Bytes(f) + rest, at, m) == Next(|Bytes(f)|, keep(m, Bytes(f)))
  {
    hide Foreign, Bytes;
  }

  lemma AddsUpTwo<M(!new)>(keep: (M, seq<byte>) -> M, m: M, a: seq<byte>, b: seq<byte>)
    requires AddsUp(keep)
    ensures keep(m, []) == m && keep(keep(m, a), b) == keep(m, a + b)
  {
  }

  /** A reader that keeps foreign fields keeps all of them, one behind the other. */
  lemma {:induction false} ParseForeign<M(!new)>(read: FieldReader<M>, known: set<int>, keep: (M, seq<byte>) -> M,
                                                 fs: Fields, at: nat, m: M)
    requires AllForeign(fs, known) && at + |AllBytes(fs)| < TWO63 && Keeps(read, known, keep) && AddsUp(keep)
    ensures ParseAll(read, AllBytes(fs), at, m) == Done(keep(m, AllBytes(fs)))
    decreases fs
  {
    hide WellFormed, Bytes, BodyBytes, ParseAll, Keeps, AddsUp;
    ParseNothing(read, at, m);
    AddsUpTwo(keep, m, [], []);
    if fs.More? {
      var x, rest := Bytes(fs.head), AllBytes(fs.tail);
      BytesNotEmpty(fs.head);
      KeepsOne(read, known, keep, fs.head, rest, at, m);
      ParseOne(read, x, rest, at, m, keep(m, x));
      ParseForeign(read, known, keep, fs.tail, at + |x|, keep(m, x));
      AddsUpTwo(keep, m, x, rest);
    }
  }

  lemma ParseNothing<M>(read: FieldReader<M>, at: nat, m: M)
    ensures ParseAll(read, [], at, m) == Done(m)
  {
  }

  lemma BytesNotEmpty(f: Field)
    requires WellFormed(f)
    ensures Bytes(f) != []
  {
  }

  lemma LabelUnknown(u: seq<byte>, at: nat, m: Label)
    requires Unrecognized(u, {1, 2}) && at + |u| < TWO63
    ensures ParseAll(LabelField, u, at, m) == Done(m.(unrecognized := m.unrecognized + u))
  {
    hide ReadTag, ReadUnknown, Bytes, WellFormed, AllForeign, AllBytes, ParseAll;
    var fs :| AllForeign(fs, {1, 2}) && AllBytes(fs) == u;
    var keep := (m: Label, u: seq<byte>) => m.(unrecognized := m.unrecognized + u);
    forall f, r, a: nat, m | Foreign(f, {1, 2}) && a + |Bytes(f)| < TWO63
      ensures LabelField(Bytes(f) + r, a, m) == Next(|Bytes(f)|, keep(m, Bytes(f)))
    {
      UnknownField(f, r, a, u => m.(unrecognized := m.unrecognized + u));
    }
    forall m: Label
      ensures keep(m, []) == m
    {
      assert m.unrecognized + [] == m.unrecognized;
    }
    forall m: Label, a, b
      ensures keep(keep(m, a), b) == keep(m, a + b)
    {
      assert m.unrecognized + a + b == m.unrecognized + (a + b);
    }
    ParseForeign(LabelField, {1, 2}, keep, fs, at, m);
  }

  lemma SampleUnknown(u: seq<byte>, at: nat, m: Sample)
    requires Unrecognized(u, {1, 2}) && at + |u| < TWO63
    ensures ParseAll(SampleField, u, at, m) == Done(m.(unrecognized := m.unrecognized + u))
  {
    hide ReadTag, ReadUnknown, Bytes, WellFormed, AllForeign, AllBytes, ParseAll;
    var fs :| AllForeign(fs, {1, 2}) && AllBytes(fs) == u;
    var keep := (m: Sample, u: seq<byte>) => m.(unrecognized := m.unrecognized + u);
    forall f, r, a: nat, m | Foreign(f, {1, 2}) && a + |Bytes(f)| < TWO63
      ensures SampleField(Bytes(f) + r, a, m) == Next(|Bytes(f)|, keep(m, Bytes(f)))
    {
      UnknownField(f, r, a, u => m.(unrecognized := m.unrecognized + u));
    }
    forall m: Sample
      ensures keep(m, []) == m
    {
      assert m.unrecognized + [] == m.unrecognized;
    }
    forall m: Sample, a, b
      ensures keep(keep(m, a), b) == keep(m, a + b)
    {
      assert m.unrecognized + a + b == m.unrecognized + (a + b);
    }
    ParseForeign(SampleField, {1, 2}, keep, fs, at, m);
  }

  lemma MetadataUnknown(u: seq<byte>, at: nat, m: Metadata)
    requires Unrecognized(u, {1, 2, 4, 5}) && at + |u| < TWO63
    ensures ParseAll(MetadataField, u, at, m) == Done(m.(unrecognized := m.unrecognized + u))
  {
    hide ReadTag, ReadUnknown, Bytes, WellFormed, AllForeign, AllBytes, ParseAll;
    var fs :| AllForeign(fs, {1, 2, 4, 5}) && AllBytes(fs) == u;
    var keep := (m: Metadata, u: seq<byte>) => m.(unrecognized := m.unrecognized + u);
    forall f, r, a: nat, m | Foreign(f, {1, 2, 4, 5}) && a + |Bytes(f)| < TWO63
      ensures MetadataField(Bytes(f) + r, a, m) == Next(|Bytes(f)|, keep(m, Bytes(f)))
    {
      UnknownField(f, r, a, u => m.(unrecognized := m.unrecognized + u));
    }
    forall m: Metadata
      ensures keep(m, []) == m
    {
      assert m.unrecognized + [] == m.unrecognized;
    }
    forall m: Metadata, a, b
      ensures keep(keep(m, a), b) == keep(m, a + b)
    {
      assert m.unrecognized + a + b == m.unrecognized + (a + b);
    }
    ParseForeign(MetadataField, {1, 2, 4, 5}, keep, fs, at, m);
  }

  lemma ExemplarUnknown(u: seq<byte>, at: nat, m: Exemplar)
    requires Unrecognized(u, {1, 2, 3}) && at + |u| < TWO63
    ensures ParseAll(ExemplarField, u, at, m) == Done(m.(unrecognized := m.unrecognized + u))
  {
    hide ReadTag, ReadUnknown, Bytes, WellFormed, AllForeign, AllBytes, ParseAll;
    var fs :| AllForeign(fs, {1, 2, 3}) && AllBytes(fs) == u;
    var keep := (m: Exemplar, u: seq<byte>) => m.(unrecognized := m.unrecognized + u);
    forall f, r, a: nat, m | Foreign(f, {1, 2, 3}) && a + |Bytes(f)| < TWO63
      ensures ExemplarField(Bytes(f) + r, a, m) == Next(|Bytes(f)|, keep(m, Bytes(f)))
    {
      UnknownField(f, r, a, u => m.(unrecognized := m.unrecognized + u));
    }
    forall m: Exemplar
      ensures keep(m, []) == m
    {
      assert m.unrecognized + [] == m.unrecognized;
    }
    forall m: Exemplar, a, b
      ensures keep(keep(m, a), b) == keep(m, a + b)
    {
      assert m.unrecognized + a + b == m.unrecognized + (a + b);
    }
    ParseForeign(ExemplarField, {1, 2, 3}, keep, fs, at, m);
  }

  lemma SeriesUnknown(u: seq<byte>, at: nat, m: TimeSeries)
    requires Unrecognized(u, {1, 2, 3}) && at + |u| < TWO63
    ensures ParseAll(SeriesField, u, at, m) == Done(m.(unrecognized := m.unrecognized + u))
  {
    hide ReadTag, ReadUnknown, Bytes, WellFormed, AllForeign, AllBytes, ParseAll;
    var fs :| AllForeign(fs, {1, 2, 3}) && AllBytes(fs) == u;
    var keep := (m: TimeSeries, u: seq<byte>) => m.(unrecognized := m.unrecognized + u);
    forall f, r, a: nat, m | Foreign(f, {1, 2, 3}) && a + |Bytes(f)| < TWO63
      ensures SeriesField(Bytes(f) + r, a, m) == Next(|Bytes(f)|, keep(m, Bytes(f)))
    {
      UnknownField(f, r, a, u => m.(unrecognized := m.unrecognized + u));
    }
    forall m: TimeSeries
      ensures keep(m, []) == m
    {
      assert m.unrecognized + [] == m.unrecognized;
    }
    forall m: TimeSeries, a, b
      ensures keep(keep(m, a), b) == keep(m, a + b)
    {
      assert m.unrecognized + a + b == m.unrecognized + (a + b);
    }
    ParseForeign(SeriesField, {1, 2, 3}, keep, fs, at, m);
  }

  lemma RequestUnknown(u: seq<byte>, at: nat, m: WriteRequest)
    requires Unrecognized(u, {1, 3}) && at + |u| < TWO63
    ensures ParseAll(RequestField, u, at, m) == Done(m.(unrecognized := m.unrecognized + u))
  {
    hide ReadTag, ReadUnknown, Bytes, WellFormed, AllForeign, AllBytes, ParseAll;
    var fs :| AllForeign(fs, {1, 3}) && AllBytes(fs) == u;
    var keep := (m: WriteRequest, u: seq<byte>) => m.(unrecognized := m.unrecognized + u);
    forall f, r, a: nat, m | Foreign(f, {1, 3}) && a + |Bytes(f)| < TWO63
      ensures RequestField(Bytes(f) + r, a, m) == Next(|Bytes(f)|, keep(m, Bytes(f)))
    {
      UnknownField(f, r, a, u => m.(unrecognized := m.unrecognized + u));
    }
    forall m: WriteRequest
      ensures keep(m, []) == m
    {
      assert m.unrecognized + [] == m.unrecognized;
    }
    forall m: WriteRequest, a, b
      ensures keep(keep(m, a), b) == keep(m, a + b)
    {
      assert m.unrecognized + a + b == m.unrecognized + (a + b);
    }
    ParseForeign(RequestField, {1, 3}, keep, fs, at, m);
  }

  // ---------- Labels, samples and metadata ----------

  lemma LabelRoundTrip(m: Label)
    requires SoundLabel(m) && |EncLabel(m)| < TWO63
    ensures ParseAll(LabelField, EncLabel(m), 0, EMPTY_LABEL) == Done(m)
  {
    hide ParseAll, EncString, Unrecognized;
    var a, b, u := EncString(0x0a, m.name), EncString(0x12, m.value), m.unrecognized;
    var m1 := EMPTY_LABEL.(name := m.name);
    var m2 := m1.(value := m.value);
    assert EncLabel(m) == a + (b + u);
    LabelName(m.name, b + u);
    LabelValue(m.value, u, |a|, m1);
    LabelUnknown(u, |a| + |b|, m2);
    assert m2.unrecognized + u == u;
  }

  lemma LabelName(p: seq<byte>, rest: seq<byte>)
    requires |EncString(0x0a, p)| < TWO63
    ensures ParseAll(LabelField, EncString(0x0a, p) + rest, 0, EMPTY_LABEL) ==
            ParseAll(LabelField, rest, |EncString(0x0a, p)|, EMPTY_LABEL.(name := p))
  {
    hide ReadTag, ReadBytes, ReadUnknown, ParseAll;
    if p == [] {
      assert [] + rest == rest;
    } else {
      MessageTag(0x0a, p, rest);
      MessageField(0x0a, p, rest, 0, p => Done(EMPTY_LABEL.(name := p)));
      ParseOne(LabelField, EncMessage(0x0a, p), rest, 0, EMPTY_LABEL, EMPTY_LABEL.(name := p));
    }
  }

  lemma LabelValue(p: seq<byte>, rest: seq<byte>, at: nat, m: Label)
    requires at + |EncString(0x12, p)| < TWO63 && m.value == []
    ensures ParseAll(LabelField, EncString(0x12, p) + rest, at, m) ==
            ParseAll(LabelField, rest, at + |EncString(0x12, p)|, m.(value := p))
  {
    hide ReadTag, ReadBytes, ReadUnknown, ParseAll;
    if p == [] {
      assert [] + rest == rest;
    } else {
      MessageTag(0x12, p, rest);
      MessageField(0x12, p, rest, at, p => Done(m.(value := p)));
      ParseOne(LabelField, EncMessage(0x12, p), rest, at, m, m.(value := p));
    }
  }

  lemma SampleNumbers(bits: uint64, timestamp: int64, rest: seq<byte>)
    ensures var a, b := EncFixed(0x09, bits), EncVarint(0x10, ToUint64(timestamp));
            ParseAll(SampleField, a + (b + rest), 0, EMPTY_SAMPLE) ==
            ParseAll(SampleField, rest, |a| + |b|, EMPTY_SAMPLE.(value := Bits(bits), timestamp := timestamp))
  {
    hide ReadTag, ReadBytes, ReadUnknown, ReadFixed, ReadNumber, ParseAll, LittleEndian, VarintBytes;
    var a, b := EncFixed(0x09, bits), EncVarint(0x10, ToUint64(timestamp));
    var m1 := EMPTY_SAMPLE.(value := Bits(bits));
    if a == [] {
      assert a + (b + rest) == b + rest;
    } else {
      FixedField(0x09, bits, b + rest, v => EMPTY_SAMPLE.(value := v));
      ParseOne(SampleField, a, b + rest, 0, EMPTY_SAMPLE, m1);
    }
    if b == [] {
      assert b + rest == rest;
    } else {
      VarintField(0x10, ToUint64(timestamp), rest, v => m1.(timestamp := ToInt64(v)));
      ParseOne(SampleField, b, rest, |a|, m1, m1.(timestamp := timestamp));
    }
  }

  lemma SampleRoundTrip(m: Sample)
    requires SoundSample(m) && |EncSample(m)| < TWO63
    ensures ParseAll(SampleField, EncSample(m), 0, EMPTY_SAMPLE) == Done(NormSample(m))
  {
    hide ParseAll, EncFixed, EncVarint, Unrecognized;
    var a, b, u := EncFixed(0x09, m.value), EncVarint(0x10, ToUint64(m.timestamp)), m.unrecognized;
    var m1 := EMPTY_SAMPLE.(value := Bits(m.value), timestamp := m.timestamp);
    assert EncSample(m) == a + (b + u);
    SampleNumbers(m.value, m.timestamp, u);
    SampleUnknown(u, |a| + |b|, m1);
    assert m1.unrecognized + u == u;
  }

  /** The text fields of metadata; each is absent when empty. */
  lemma MetadataText(num: int, p: seq<byte>, rest: seq<byte>, at: nat, m: Metadata, m': Metadata)
    requires num in {2, 4, 5} && at + |EncString(8 * num + 2, p)| < TWO63
    requires m' == if num == 2 then m.(family := p) else if num == 4 then m.(help := p) else m.(unit := p)
    requires p == [] ==> m' == m
    ensures ParseAll(MetadataField, EncString(8 * num + 2, p) + rest, at, m) ==
            ParseAll(MetadataField, rest, at + |EncString(8 * num + 2, p)|, m')
  {
    hide ReadTag, ReadBytes, ReadUnknown;
    var tag := 8 * num + 2;
    if p == [] {
      assert [] + rest == rest;
    } else {
      MessageTag(tag, p, rest);
      MessageField(tag, p, rest, at, p => Done(m.(family := p)));
      MessageField(tag, p, rest, at, p => Done(m.(help := p)));
      MessageField(tag, p, rest, at, p => Done(m.(unit := p)));
      ParseOne(MetadataField, EncMessage(tag, p), rest, at, m, m');
    }
  }

  lemma MetadataKind(kind: int32, rest: seq<byte>)
    ensures var k := EncVarint(0x08, ToUint64(kind));
            ParseAll(MetadataField, k + rest, 0, EMPTY_METADATA) ==
            ParseAll(MetadataField, rest, |k|, EMPTY_METADATA.(kind := kind))
  {
    hide ReadBytes, ReadUnknown, ReadNumber, ReadTag, ParseAll, VarintBytes;
    if kind == 0 {
      assert [] + rest == rest;
    } else {
      VarintField(0x08, ToUint64(kind), rest, v => EMPTY_METADATA.(kind := ToInt32(v)));
      assert ToInt32(ToUint64(kind)) == kind;
      ParseOne(MetadataField, EncVarint(0x08, ToUint64(kind)), rest, 0, EMPTY_METADATA, EMPTY_METADATA.(kind := kind));
    }
  }

  lemma MetadataRoundTrip(m: Metadata)
    requires SoundMetadata(m) && |EncMetadata(m)| < TWO63
    ensures ParseAll(MetadataField, EncMetadata(m), 0, EMPTY_METADATA) == Done(m)
  {
    hide MetadataField, EncString, EncVarint, ParseAll, Unrecognized;
    var k, a := EncVarint(0x08, ToUint64(m.kind)), EncString(0x12, m.family);
    var b, c := EncString(0x22, m.help), EncString(0x2a, m.unit);
    var m0 := EMPTY_METADATA.(kind := m.kind);
    var m1 := m0.(family := m.family);
    var m2 := m1.(help := m.help);
    var m3, u := m2.(unit := m.unit), m.unrecognized;
    MetadataKind(m.kind, a + (b + (c + u)));
    MetadataText(2, m.family, b + (c + u), |k|, m0, m1);
    MetadataText(4, m.help, c + u, |k| + |a|, m1, m2);
    MetadataText(5, m.unit, u, |k| + |a| + |b|, m2, m3);
    MetadataUnknown(u, |k| + |a| + |b| + |c|, m3);
    assert m3.unrecognized + u == u;
  }

  // ---------- Messages with repeated fields ----------

  lemma {:induction false} AddLabelsToExemplar(m: Exemplar, items: seq<Label>)
    ensures AddAll((m: Exemplar, x) => m.(labels := m.labels + [x]), m, items) == m.(labels := m.labels + items)
    decreases items
  {
    if items == [] {
      assert m.labels + items == m.labels;
    } else {
      AddLabelsToExemplar(m.(labels := m.labels + [items[0]]), items[1..]);
      assert m.labels + [items[0]] + items[1..] == m.labels + items;
    }
  }

  lemma ExemplarLabels(items: seq<Label>, rest: seq<byte>, m: Exemplar)
    requires |EncAll(0x0a, EncLabel, items)| < TWO63 && forall x :: x in items ==> SoundLabel(x)
    ensures ParseAll(ExemplarField, EncAll(0x0a, EncLabel, items) + rest, 0, m) ==
            ParseAll(ExemplarField, rest, |EncAll(0x0a, EncLabel, items)|, m.(labels := m.labels + items))
  {
    hide ReadTag, ReadBytes, ReadUnknown, ParseAll;
    var add := (m: Exemplar, x: Label) => m.(labels := m.labels + [x]);
    forall x, r, a: nat, m | x in items && a + |EncMessage(0x0a, EncLabel(x))| < TWO63
      ensures ExemplarField(EncMessage(0x0a, EncLabel(x)) + r, a, m) == Next(|EncMessage(0x0a, EncLabel(x))|, add(m, x))
    {
      LabelRoundTrip(x);
      MessageTag(0x0a, EncLabel(x), r);
      MessageField(0x0a, EncLabel(x), r, a,
                   p => ParseInto(LabelField, EMPTY_LABEL, p, x => m.(labels := m.labels + [x])));
    }
    ParseRepeated(ExemplarField, 0x0a, EncLabel, add, items, rest, 0, m);
    AddLabelsToExemplar(m, items);
  }

  lemma ExemplarNumbers(bits: uint64, timestamp: int64, rest: seq<byte>, at: nat, m: Exemplar)
    requires m.value == 0 && m.timestamp == 0
    ensures var a, b := EncFixed(0x11, bits), EncVarint(0x18, ToUint64(timestamp));
            ParseAll(ExemplarField, a + (b + rest), at, m) ==
            ParseAll(ExemplarField, rest, at + |a| + |b|, m.(value := Bits(bits), timestamp := timestamp))
  {
    hide ReadTag, ReadBytes, ReadUnknown, ReadFixed, ReadNumber, ParseAll, LittleEndian, VarintBytes;
    var a, b := EncFixed(0x11, bits), EncVarint(0x18, ToUint64(timestamp));
    var m1 := m.(value := Bits(bits));
    if a == [] {
      assert a + (b + rest) == b + rest;
    } else {
      FixedField(0x11, bits, b + rest, v => m.(value := v));
      ParseOne(ExemplarField, a, b + rest, at, m, m1);
    }
    if b == [] {
      assert b + rest == rest;
    } else {
      VarintField(0x18, ToUint64(timestamp), rest, v => m1.(timestamp := ToInt64(v)));
      ParseOne(ExemplarField, b, rest, at + |a|, m1, m1.(timestamp := timestamp));
    }
  }

  lemma ExemplarRoundTrip(m: Exemplar)
    requires SoundExemplar(m) && |EncExemplar(m)| < TWO63
    ensures ParseAll(ExemplarField, EncExemplar(m), 0, EMPTY_EXEMPLAR) == Done(NormExemplar(m))
  {
    hide ParseAll, EncAll, EncFixed, EncVarint, Unrecognized;
    var a, b, u := EncFixed(0x11, m.value), EncVarint(0x18, ToUint64(m.timestamp)), m.unrecognized;
    var l := EncAll(0x0a, EncLabel, m.labels);
    var m1 := EMPTY_EXEMPLAR.(labels := m.labels);
    var m2 := m1.(value := Bits(m.value), timestamp := m.timestamp);
    assert a + b + u == a + (b + u);
    ExemplarLabels(m.labels, a + (b + u), EMPTY_EXEMPLAR);
    assert EMPTY_EXEMPLAR.labels + m.labels == m.labels;
    ExemplarNumbers(m.value, m.timestamp, u, |l|, m1);
    ExemplarUnknown(u, |l| + |a| + |b|, m2);
    assert m2.unrecognized + u == u;
  }

  lemma {:induction false} AddLabels(m: TimeSeries, labels: seq<Label>)
    ensures AddAll((m: TimeSeries, x) => m.(labels := m.labels + [x]), m, labels) == m.(labels := m.labels + labels)
    decreases |labels|
  {
    if labels != [] {
      AddLabels(m.(labels := m.labels + [labels[0]]), labels[1..]);
      assert m.labels + [labels[0]] + labels[1..] == m.labels + labels;
    } else {
      assert m.labels + [] == m.labels;
    }
  }

  lemma MappedFirst<T>(f: T -> T, s: seq<T>)
    ensures Mapped(f, s) == if s == [] then [] else [f(s[0])] + Mapped(f, s[1..])
  {
  }

  lemma {:induction false} AddSamples(m: TimeSeries, samples: seq<Sample>)
    ensures AddAll((m: TimeSeries, x) => m.(samples := m.samples + [NormSample(x)]), m, samples) ==
            m.(samples := m.samples + Mapped(NormSample, samples))
    decreases |samples|
  {
    hide NormSample, Mapped;
    MappedFirst(NormSample, samples);
    if samples != [] {
      var x := NormSample(samples[0]);
      AddSamples(m.(samples := m.samples + [x]), samples[1..]);
      assert m.samples + [x] + Mapped(NormSample, samples[1..]) == m.samples + ([x] + Mapped(NormSample, samples[1..]));
    } else {
      assert m.samples + [] == m.samples;
    }
  }

  lemma {:induction false} AddExemplars(m: TimeSeries, exemplars: seq<Exemplar>)
    ensures AddAll((m: TimeSeries, x) => m.(exemplars := m.exemplars + [NormExemplar(x)]), m, exemplars) ==
            m.(exemplars := m.exemplars + Mapped(NormExemplar, exemplars))
    decreases |exemplars|
  {
    hide NormExemplar, Mapped;
    MappedFirst(NormExemplar, exemplars);
    if exemplars != [] {
      var x := NormExemplar(exemplars[0]);
      AddExemplars(m.(exemplars := m.exemplars + [x]), exemplars[1..]);
      assert m.exemplars + [x] + Mapped(NormExemplar, exemplars[1..]) ==
             m.exemplars + ([x] + Mapped(NormExemplar, exemplars[1..]));
    } else {
      assert m.exemplars + [] == m.exemplars;
    }
  }

  lemma SeriesLabels(items: seq<Label>, rest: seq<byte>, m: TimeSeries)
    requires |EncAll(0x0a, EncLabel, items)| < TWO63 && forall x :: x in items ==> SoundLabel(x)
    ensures ParseAll(SeriesField, EncAll(0x0a, EncLabel, items) + rest, 0, m) ==
            ParseAll(SeriesField, rest, |EncAll(0x0a, EncLabel, items)|, m.(labels := m.labels + items))
  {
    hide ReadTag, ReadBytes, ReadUnknown, ParseAll;
    var add := (m: TimeSeries, x: Label) => m.(labels := m.labels + [x]);
    forall x, r, a: nat, m | x in items && a + |EncMessage(0x0a, EncLabel(x))| < TWO63
      ensures SeriesField(EncMessage(0x0a, EncLabel(x)) + r, a, m) == Next(|EncMessage(0x0a, EncLabel(x))|, add(m, x))
    {
      LabelRoundTrip(x);
      MessageTag(0x0a, EncLabel(x), r);
      MessageField(0x0a, EncLabel(x), r, a,
                   p => SeriesElement(1, p, m));
    }
    ParseRepeated(SeriesField, 0x0a, EncLabel, add, items, rest, 0, m);
    AddLabels(m, items);
  }

  lemma SeriesSamples(items: seq<Sample>, rest: seq<byte>, at: nat, m: TimeSeries)
    requires at + |EncAll(0x12, EncSample, items)| < TWO63 && forall x :: x in items ==> SoundSample(x)
    ensures ParseAll(SeriesField, EncAll(0x12, EncSample, items) + rest, at, m) ==
            ParseAll(SeriesField, rest, at + |EncAll(0x12, EncSample, items)|,
                     m.(samples := m.samples + Mapped(NormSample, items)))
  {
    hide ReadTag, ReadBytes, ReadUnknown, ParseAll;
    var add := (m: TimeSeries, x: Sample) => m.(samples := m.samples + [NormSample(x)]);
    forall x, r, a: nat, m | x in items && a + |EncMessage(0x12, EncSample(x))| < TWO63
      ensures SeriesField(EncMessage(0x12, EncSample(x)) + r, a, m) == Next(|EncMessage(0x12, EncSample(x))|, add(m, x))
    {
      SampleRoundTrip(x);
      MessageTag(0x12, EncSample(x), r);
      MessageField(0x12, EncSample(x), r, a,
                   p => SeriesElement(2, p, m));
    }
    ParseRepeated(SeriesField, 0x12, EncSample, add, items, rest, at, m);
    AddSamples(m, items);
  }

  lemma SeriesExemplars(items: seq<Exemplar>, rest: seq<byte>, at: nat, m: TimeSeries)
    requires at + |EncAll(0x1a, EncExemplar, items)| < TWO63 && forall x :: x in items ==> SoundExemplar(x)
    ensures ParseAll(SeriesField, EncAll(0x1a, EncExemplar, items) + rest, at, m) ==
            ParseAll(SeriesField, rest, at + |EncAll(0x1a, EncExemplar, items)|,
                     m.(exemplars := m.exemplars + Mapped(NormExemplar, items)))
  {
    hide ReadTag, ReadBytes, ReadUnknown, ParseAll;
    var add := (m: TimeSeries, x: Exemplar) => m.(exemplars := m.exemplars + [NormExemplar(x)]);
    forall x, r, a: nat, m | x in items && a + |EncMessage(0x1a, EncExemplar(x))| < TWO63
      ensures SeriesField(EncMessage(0x1a, EncExemplar(x)) + r, a, m) ==
          Next(|EncMessage(0x1a, EncExemplar(x))|, add(m, x))
    {
      ExemplarRoundTrip(x);
      MessageTag(0x1a, EncExemplar(x), r);
      MessageField(0x1a, EncExemplar(x), r, a,
                   p => SeriesElement(3, p, m));
    }
    ParseRepeated(SeriesField, 0x1a, EncExemplar, add, items, rest, at, m);
    AddExemplars(m, items);
  }

  lemma TimeSeriesRoundTrip(m: TimeSeries)
    requires SoundSeries(m) && |EncTimeSeries(m)| < TWO63
    ensures ParseAll(SeriesField, EncTimeSeries(m), 0, EMPTY_SERIES) == Done(NormSeries(m))
  {
    hide ParseAll, EncAll, Mapped, Unrecognized;
    var a, b := EncAll(0x0a, EncLabel, m.labels), EncAll(0x12, EncSample, m.samples);
    var c, u := EncAll(0x1a, EncExemplar, m.exemplars), m.unrecognized;
    var m1 := EMPTY_SERIES.(labels := m.labels);
    var m2 := m1.(samples := Mapped(NormSample, m.samples));
    var m3 := m2.(exemplars := Mapped(NormExemplar, m.exemplars));
    SeriesLabels(m.labels, b + (c + u), EMPTY_SERIES);
    assert EMPTY_SERIES.labels + m.labels == m.labels;
    SeriesSamples(m.samples, c + u, |a|, m1);
    assert m1.samples + m2.samples == m2.samples;
    SeriesExemplars(m.exemplars, u, |a| + |b|, m2);
    assert m2.exemplars + m3.exemplars == m3.exemplars;
    SeriesUnknown(u, |a| + |b| + |c|, m3);
    assert m3.unrecognized + u == u;
  }

  lemma {:induction false} AddSeries(m: WriteRequest, series: seq<TimeSeries>)
    ensures AddAll((m: WriteRequest, x) => m.(timeseries := m.timeseries + [NormSeries(x)]), m, series) ==
            m.(timeseries := m.timeseries + Mapped(NormSeries, series))
    decreases |series|
  {
    hide NormSeries, Mapped;
    MappedFirst(NormSeries, series);
    if series != [] {
      var x := NormSeries(series[0]);
      AddSeries(m.(timeseries := m.timeseries + [x]), series[1..]);
      assert m.timeseries + [x] + Mapped(NormSeries, series[1..]) ==
             m.timeseries + ([x] + Mapped(NormSeries, series[1..]));
    } else {
      assert m.timeseries + [] == m.timeseries;
    }
  }

  lemma {:induction false} AddMetadata(m: WriteRequest, metadata: seq<Metadata>)
    ensures AddAll((m: WriteRequest, x) => m.(metadata := m.metadata + [x]), m, metadata) ==
            m.(metadata := m.metadata + metadata)
    decreases |metadata|
  {
    if metadata != [] {
      AddMetadata(m.(metadata := m.metadata + [metadata[0]]), metadata[1..]);
      assert m.metadata + [metadata[0]] + metadata[1..] == m.metadata + metadata;
    } else {
      assert m.metadata + [] == m.metadata;
    }
  }

  lemma RequestSeries(items: seq<TimeSeries>, rest: seq<byte>, m: WriteRequest)
    requires |EncAll(0x0a, EncTimeSeries, items)| < TWO63 && forall x :: x in items ==> SoundSeries(x)
    ensures ParseAll(RequestField, EncAll(0x0a, EncTimeSeries, items) + rest, 0, m) ==
            ParseAll(RequestField, rest, |EncAll(0x0a, EncTimeSeries, items)|,
                     m.(timeseries := m.timeseries + Mapped(NormSeries, items)))
  {
    hide ReadTag, ReadBytes, ReadUnknown, ParseAll;
    var add := (m: WriteRequest, x: TimeSeries) => m.(timeseries := m.timeseries + [NormSeries(x)]);
    forall x, r, a: nat, m | x in items && a + |EncMessage(0x0a, EncTimeSeries(x))| < TWO63
      ensures RequestField(EncMessage(0x0a, EncTimeSeries(x)) + r, a, m) ==
          Next(|EncMessage(0x0a, EncTimeSeries(x))|, add(m, x))
    {
      TimeSeriesRoundTrip(x);
      MessageTag(0x0a, EncTimeSeries(x), r);
      MessageField(0x0a, EncTimeSeries(x), r, a,
                   p => RequestElement(1, p, m));
    }
    ParseRepeated(RequestField, 0x0a, EncTimeSeries, add, items, rest, 0, m);
    AddSeries(m, items);
  }

  lemma RequestMetadata(items: seq<Metadata>, rest: seq<byte>, at: nat, m: WriteRequest)
    requires at + |EncAll(0x1a, EncMetadata, items)| < TWO63 && forall x :: x in items ==> SoundMetadata(x)
    ensures ParseAll(RequestField, EncAll(0x1a, EncMetadata, items) + rest, at, m) ==
            ParseAll(RequestField, rest, at + |EncAll(0x1a, EncMetadata, items)|, m.(metadata := m.metadata + items))
  {
    hide ReadTag, ReadBytes, ReadUnknown, ParseAll;
    var add := (m: WriteRequest, x: Metadata) => m.(metadata := m.metadata + [x]);
    forall x, r, a: nat, m | x in items && a + |EncMessage(0x1a, EncMetadata(x))| < TWO63
      ensures RequestField(EncMessage(0x1a, EncMetadata(x)) + r, a, m) ==
          Next(|EncMessage(0x1a, EncMetadata(x))|, add(m, x))
    {
      MetadataRoundTrip(x);
      MessageTag(0x1a, EncMetadata(x), r);
      MessageField(0x1a, EncMetadata(x), r, a,
                   p => RequestElement(3, p, m));
    }
    ParseRepeated(RequestField, 0x1a, EncMetadata, add, items, rest, at, m);
    AddMetadata(m, items);
  }

  /** Unmarshalling what was marshalled gives the message back, with negative zeros turned positive. */
  lemma WriteRequestRoundTrip(m: WriteRequest)
    requires SoundRequest(m) && |EncWriteRequest(m)| < TWO63
    ensures ParseAll(RequestField, EncWriteRequest(m), 0, EMPTY_REQUEST) == Done(NormRequest(m))
  {
    hide ParseAll, EncAll, Mapped, Unrecognized;
    var a, b := EncAll(0x0a, EncTimeSeries, m.timeseries), EncAll(0x1a, EncMetadata, m.metadata);
    var m1, u := EMPTY_REQUEST.(timeseries := Mapped(NormSeries, m.timeseries)), m.unrecognized;
    var m2 := m1.(metadata := m.metadata);
    RequestSeries(m.timeseries, b + u, EMPTY_REQUEST);
    assert EMPTY_REQUEST.timeseries + m1.timeseries == m1.timeseries;
    RequestMetadata(m.metadata, u, |a|, m1);
    assert m1.metadata + m.metadata == m.metadata;
    RequestUnknown(u, |a| + |b|, m2);
    assert m2.unrecognized + u == u;
  }

  // ---------- Exactly which messages come back unchanged ----------

  lemma {:induction false} MappedAt<T>(f: T -> T, xs: seq<T>)
    ensures |Mapped(f, xs)| == |xs|
    ensures forall i :: 0 <= i < |xs| ==> Mapped(f, xs)[i] == f(xs[i])
  {
    if xs != [] { MappedAt(f, xs[1..]); }
  }

  lemma MappedIsIdentity<T>(f: T -> T, xs: seq<T>)
    ensures Mapped(f, xs) == xs <==> forall x :: x in xs ==> f(x) == x
  {
    MappedAt(f, xs);
    if Mapped(f, xs) == xs {
      forall x | x in xs ensures f(x) == x {
        var i :| 0 <= i < |xs| && xs[i] == x;
      }
    }
  }

  /** The bits of -0.0 occur among the values of a series. */
  predicate HasNegativeZero(m: TimeSeries) {
    (exists x :: x in m.samples && x.value == TWO63) || (exists x :: x in m.exemplars && x.value == TWO63)
  }

  lemma SeriesComesBackIff(m: TimeSeries)
    ensures NormSeries(m) == m <==> !HasNegativeZero(m)
  {
    MappedIsIdentity(NormSample, m.samples);
    MappedIsIdentity(NormExemplar, m.exemplars);
    forall x: Sample ensures NormSample(x) == x <==> x.value != TWO63 {}
    forall x: Exemplar ensures NormExemplar(x) == x <==> x.value != TWO63 {}
  }

  /** A request round-trips exactly if no value in it is -0.0. */
  lemma RequestComesBackIff(m: WriteRequest)
    requires SoundRequest(m) && |EncWriteRequest(m)| < TWO63
    ensures ParseAll(RequestField, EncWriteRequest(m), 0, EMPTY_REQUEST) == Done(m) <==>
            forall x :: x in m.timeseries ==> !HasNegativeZero(x)
  {
    WriteRequestRoundTrip(m);
    MappedIsIdentity(NormSeries, m.timeseries);
    forall x ensures NormSeries(x) == x <==> !HasNegativeZero(x) { SeriesComesBackIff(x); }
  }
}
