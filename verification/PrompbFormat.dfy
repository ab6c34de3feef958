/**
 The encoding of the remote-write messages by the rules of the protocol buffer wire format: each
 field that is not at its default is written as a key, made of its number and its wire type, and its
 value. The numbers are those of the message types (struct tags in pkg/prompb/types.pb.go and
 remote.pb.go); the generated code has them as constant tag bytes.
 */
module PrompbFormat {
  import opened Arith
  import opened Wire
  import opened Prompb

  // ---------- Numbers ----------

  /** The value of base-128 digits, lowest first. */
  function Base128(s: seq<byte>): nat {
    if s == [] then 0 else s[0] % 128 + 128 * Base128(s[1..])
  }

  /** A varint holds seven bits in each byte, lowest first; all but the last are marked, and none is to spare. */
  lemma {:induction false} VarintIsBase128(v: nat)
    ensures var s := VarintBytes(v);
      && Base128(s) == v
      && (forall i :: 0 <= i < |s| - 1 ==> s[i] >= 128) && s[|s| - 1] < 128
      && (|s| > 1 ==> s[|s| - 1] != 0)
  {
    if v >= 128 {
      var s := VarintBytes(v);
      VarintIsBase128(v / 128);
      assert s[1..] == VarintBytes(v / 128);
      assert forall i :: 1 <= i < |s| ==> s[i] == s[1..][i - 1];
    }
  }

  /** The first n bytes are marked up to the last of them, which is not. */
  predicate Terminated(s: seq<byte>, n: nat) {
    1 <= n <= |s| && s[n - 1] < 128 && forall i :: 0 <= i < n - 1 ==> s[i] >= 128
  }

  lemma SeptetModulo(low: nat, rest: nat, room: Positive)
    requires low < 128
    ensures (low + 128 * rest) % (128 * room) == low + 128 * (rest % room)
  {
    var q, r := rest / room, rest % room;
    assert low + 128 * rest == (128 * room) * q + (low + 128 * r);
    DivModUnique(low + 128 * rest, 128 * room, q, low + 128 * r);
  }

  /** Up to ten bytes are read as base-128 digits, of which 64 bits are kept. */
  lemma {:induction false} DecodeTerminated(s: seq<byte>, k: nat, n: nat)
    requires Terminated(s, n) && k + n <= 10
    ensures DecodeFrom(s, k).Ok? && DecodeFrom(s, k).v == Base128(s[..n]) % Room(k) && DecodeFrom(s, k).n == n
    decreases n
  {
    hide Room, Base128, DecodeFrom;
    RoomBound(k);
    FirstDigit(s, n);
    if n == 1 {
      LastByte(s, k);
      SeptetFits(k, s[0]);
    } else {
      DecodeTerminated(s[1..], k + 1, n - 1);
      OneMoreByte(s, k);
      NextRoom(k);
      SeptetModulo(s[0] % 128, Base128(s[1..][..n - 1]), Room(k + 1));
    }
  }

  lemma FirstDigit(s: seq<byte>, n: nat)
    requires Terminated(s, n)
    ensures Base128(s[..n]) == if n == 1 then s[0] % 128 else s[0] % 128 + 128 * Base128(s[1..][..n - 1])
    ensures n > 1 ==> Terminated(s[1..], n - 1)
  {
    assert s[..n][1..] == s[1..][..n - 1];
  }

  lemma NextRoom(k: nat)
    requires k < 9
    ensures Room(k) == 128 * Room(k + 1)
  {
  }

  lemma LastByte(s: seq<byte>, k: nat)
    requires k <= 9 && s != [] && s[0] < 128
    ensures DecodeFrom(s, k).Ok? && DecodeFrom(s, k).n == 1
    ensures DecodeFrom(s, k).v == if k == 9 then s[0] % 2 else s[0] % 128
  {
    hide Room;
    RoomBound(k);
  }

  lemma OneMoreByte(s: seq<byte>, k: nat)
    requires k < 9 && s != [] && s[0] >= 128 && DecodeFrom(s[1..], k + 1).Ok?
    ensures DecodeFrom(s, k).Ok? && DecodeFrom(s, k).n == DecodeFrom(s[1..], k + 1).n + 1
    ensures DecodeFrom(s, k).v == s[0] % 128 + 128 * DecodeFrom(s[1..], k + 1).v
  {
    hide Room;
  }

  lemma SeptetFits(k: nat, b: byte)
    requires k <= 9
    ensures (b % 128) % Room(k) == if k == 9 then b % 2 else b % 128
  {
    RoomBound(k);
    if k < 9 {
      DivModUnique(b % 128, Room(k), 0, b % 128);
    }
  }

  /** Otherwise ten bytes are one too many, and fewer are not enough. */
  lemma {:induction false} DecodeUnterminated(s: seq<byte>, k: nat)
    requires k <= 10 && forall i :: 0 <= i < |s| && i < 10 - k ==> s[i] >= 128
    ensures DecodeFrom(s, k) == Bad(if |s| + k >= 10 then Overflow else UnexpectedEof)
    decreases |s|
  {
    if k < 10 && s != [] {
      DecodeUnterminated(s[1..], k + 1);
    }
  }

  /** Decoding, for any bytes. */
  lemma DecodeMeans(s: seq<byte>, n: nat)
    ensures n <= 10 && Terminated(s, n) ==> Decode(s) == Ok(Base128(s[..n]) % TWO64, n)
    ensures (forall i :: 0 <= i < |s| && i < 10 ==> s[i] >= 128) ==>
      Decode(s) == Bad(if |s| >= 10 then Overflow else UnexpectedEof)
  {
    RoomAtStart();
    if n <= 10 && Terminated(s, n) {
      DecodeTerminated(s, 0, n);
    }
    if forall i :: 0 <= i < |s| && i < 10 ==> s[i] >= 128 {
      DecodeUnterminated(s, 0);
    }
  }

  /** The lowest byte of a word comes first. */
  lemma WordIsLittleEndian(bits: uint64)
    ensures var s: seq<int> := LittleEndian(bits, 8);
      bits == s[0] + 0x100 * s[1] + 0x1_0000 * s[2] + 0x100_0000 * s[3] + 0x1_0000_0000 * s[4] +
              0x100_0000_0000 * s[5] + 0x1_0000_0000_0000 * s[6] + 0x100_0000_0000_0000 * s[7]
  {
    LittleEndianRoundTrip(bits);
    var s := LittleEndian(bits, 8);
    Unfold(s);
    Unfold(s[1..]);
    Unfold(s[2..]);
    Unfold(s[3..]);
    Unfold(s[4..]);
    Unfold(s[5..]);
    Unfold(s[6..]);
    Unfold(s[7..]);
    assert s[1..][1..] == s[2..] && s[2..][1..] == s[3..] && s[3..][1..] == s[4..] && s[4..][1..] == s[5..];
    assert s[5..][1..] == s[6..] && s[6..][1..] == s[7..] && s[7..][1..] == [];
  }

  lemma Unfold(s: seq<byte>)
    requires s != []
    ensures FromLittleEndian(s) == s[0] + 256 * FromLittleEndian(s[1..]) && FromLittleEndian([]) == 0
  {
  }

  /** Signed numbers are written in two's complement. */
  lemma SignedNumbers(x: int64)
    ensures ToUint64(x) == x % TWO64 && ToInt64(ToUint64(x)) == x
  {
  }

  // ---------- Fields ----------

  datatype Value =
    | Number(v: uint64)
    | Double(bits: uint64)
    | Text(p: seq<byte>)
    | Message(p: seq<byte>)

  datatype Field = Field(number: nat, value: Value)

  function WireType(v: Value): nat {
    match v
    case Number(_) => 0
    case Double(_) => 1
    case Text(_) => 2
    case Message(_) => 2
  }

  /** Scalars at zero and empty texts are left out; the bits 1 << 63 are a zero as well. */
  predicate LeftOut(v: Value) {
    match v
    case Number(v) => v == 0
    case Double(bits) => bits == 0 || bits == TWO63
    case Text(p) => p == []
    case Message(_) => false
  }

  function ValueBytes(v: Value): seq<byte> {
    match v
    case Number(v) => VarintBytes(v)
    case Double(bits) => LittleEndian(bits, 8)
    case Text(p) => VarintBytes(|p|) + p
    case Message(p) => VarintBytes(|p|) + p
  }

  function FieldBytes(f: Field): seq<byte> {
    if LeftOut(f.value) then [] else VarintBytes(8 * f.number + WireType(f.value)) + ValueBytes(f.value)
  }

  function Encoding(fs: seq<Field>): seq<byte> {
    if fs == [] then [] else FieldBytes(fs[0]) + Encoding(fs[1..])
  }

  /** A repeated field: one message for each element, in order. */
  function Repeated<T>(number: nat, enc: T -> seq<byte>, items: seq<T>): seq<Field> {
    if items == [] then [] else [Field(number, Message(enc(items[0])))] + Repeated(number, enc, items[1..])
  }

  lemma {:induction false} EncodingJoin(a: seq<Field>, b: seq<Field>)
    ensures Encoding(a + b) == Encoding(a) + Encoding(b)
    decreases a
  {
    hide FieldBytes;
    if a == [] {
      assert a + b == b;
    } else {
      EncodingJoin(a[1..], b);
      assert (a + b)[1..] == a[1..] + b;
    }
  }

  lemma {:induction false} RepeatedEncoding<T>(number: nat, tag: byte, enc: T -> seq<byte>, items: seq<T>)
    requires tag == 8 * number + 2 < 128
    ensures Encoding(Repeated(number, enc, items)) == EncAll(tag, enc, items)
    decreases items
  {
    hide FieldBytes, EncMessage;
    if items != [] {
      RepeatedEncoding(number, tag, enc, items[1..]);
      MessageEncoding(number, tag, enc(items[0]));
      FirstField(Field(number, Message(enc(items[0]))), Repeated(number, enc, items[1..]));
    }
  }

  lemma FirstField(f: Field, rest: seq<Field>)
    ensures Encoding([f] + rest) == FieldBytes(f) + Encoding(rest)
  {
    assert ([f] + rest)[1..] == rest;
  }

  lemma MessageEncoding(number: nat, tag: byte, p: seq<byte>)
    requires tag == 8 * number + 2 < 128
    ensures FieldBytes(Field(number, Message(p))) == EncMessage(tag, p)
  {
    assert VarintBytes(tag) == [tag];
  }

  lemma TextEncoding(number: nat, tag: byte, p: seq<byte>)
    requires tag == 8 * number + 2 < 128
    ensures FieldBytes(Field(number, Text(p))) == EncString(tag, p)
  {
    assert VarintBytes(tag) == [tag];
  }

  lemma NumberEncoding(number: nat, tag: byte, v: uint64)
    requires tag == 8 * number < 128
    ensures FieldBytes(Field(number, Number(v))) == EncVarint(tag, v)
  {
    assert VarintBytes(tag) == [tag];
  }

  lemma DoubleEncoding(number: nat, tag: byte, bits: uint64)
    requires tag == 8 * number + 1 < 128
    ensures FieldBytes(Field(number, Double(bits))) == EncFixed(tag, bits)
  {
    assert VarintBytes(tag) == [tag];
  }

  lemma TwoFields(a: Field, b: Field)
    ensures Encoding([a]) == FieldBytes(a) && Encoding([a, b]) == FieldBytes(a) + FieldBytes(b)
  {
    hide FieldBytes;
    EncodingJoin([a], [b]);
    assert [a] + [b] == [a, b] && [a][1..] == [] && [b][1..] == [];
    assert FieldBytes(a) + [] == FieldBytes(a) && FieldBytes(b) + [] == FieldBytes(b);
  }

  // ---------- The message types ----------

  /** name = 1, value = 2. */
  lemma LabelFormat(m: Label)
    ensures EncLabel(m) == Encoding([Field(1, Text(m.name)), Field(2, Text(m.value))]) + m.unrecognized
  {
    hide FieldBytes, EncString;
    TextEncoding(1, 0x0a, m.name);
    TextEncoding(2, 0x12, m.value);
    TwoFields(Field(1, Text(m.name)), Field(2, Text(m.value)));
  }

  /** value = 1, timestamp = 2. */
  lemma SampleFormat(m: Sample)
    ensures EncSample(m) ==
      Encoding([Field(1, Double(m.value)), Field(2, Number(m.timestamp % TWO64))]) + m.unrecognized
  {
    hide FieldBytes, EncFixed, EncVarint;
    SignedNumbers(m.timestamp);
    DoubleEncoding(1, 0x09, m.value);
    NumberEncoding(2, 0x10, ToUint64(m.timestamp));
    TwoFields(Field(1, Double(m.value)), Field(2, Number(ToUint64(m.timestamp))));
  }

  /** labels = 1, value = 2, timestamp = 3. */
  lemma ExemplarFormat(m: Exemplar)
    ensures EncExemplar(m) ==
      Encoding(Repeated(1, EncLabel, m.labels) +
               [Field(2, Double(m.value)), Field(3, Number(m.timestamp % TWO64))]) + m.unrecognized
  {
    hide FieldBytes, EncFixed, EncVarint, EncAll, Encoding, Repeated;
    SignedNumbers(m.timestamp);
    RepeatedEncoding(1, 0x0a, EncLabel, m.labels);
    DoubleEncoding(2, 0x11, m.value);
    NumberEncoding(3, 0x18, ToUint64(m.timestamp));
    var a, b := Field(2, Double(m.value)), Field(3, Number(ToUint64(m.timestamp)));
    TwoFields(a, b);
    EncodingJoin(Repeated(1, EncLabel, m.labels), [a, b]);
  }

  /** labels = 1, samples = 2, exemplars = 3. */
  lemma TimeSeriesFormat(m: TimeSeries)
    ensures EncTimeSeries(m) ==
      Encoding(Repeated(1, EncLabel, m.labels) + Repeated(2, EncSample, m.samples) +
               Repeated(3, EncExemplar, m.exemplars)) + m.unrecognized
  {
    hide EncAll, Encoding, Repeated;
    RepeatedEncoding(1, 0x0a, EncLabel, m.labels);
    RepeatedEncoding(2, 0x12, EncSample, m.samples);
    RepeatedEncoding(3, 0x1a, EncExemplar, m.exemplars);
    var a, b, c := Repeated(1, EncLabel, m.labels), Repeated(2, EncSample, m.samples),
        Repeated(3, EncExemplar, m.exemplars);
    EncodingJoin(a, b);
    EncodingJoin(a + b, c);
  }

  /** type = 1, metric_family_name = 2, help = 4, unit = 5. */
  lemma MetadataFormat(m: Metadata)
    ensures EncMetadata(m) ==
      Encoding([Field(1, Number(m.kind % TWO64)), Field(2, Text(m.family)), Field(4, Text(m.help)),
                Field(5, Text(m.unit))]) + m.unrecognized
  {
    hide FieldBytes, EncVarint, EncString, Encoding;
    SignedNumbers(m.kind);
    NumberEncoding(1, 0x08, ToUint64(m.kind));
    TextEncoding(2, 0x12, m.family);
    TextEncoding(4, 0x22, m.help);
    TextEncoding(5, 0x2a, m.unit);
    var a, b := Field(1, Number(ToUint64(m.kind))), Field(2, Text(m.family));
    var c, d := Field(4, Text(m.help)), Field(5, Text(m.unit));
    TwoFields(a, b);
    TwoFields(c, d);
    EncodingJoin([a, b], [c, d]);
    assert [a, b] + [c, d] == [a, b, c, d];
  }

  /** timeseries = 1, metadata = 3. */
  lemma WriteRequestFormat(m: WriteRequest)
    ensures EncWriteRequest(m) ==
      Encoding(Repeated(1, EncTimeSeries, m.timeseries) + Repeated(3, EncMetadata, m.metadata)) + m.unrecognized
  {
    hide EncAll, Encoding, Repeated;
    RepeatedEncoding(1, 0x0a, EncTimeSeries, m.timeseries);
    RepeatedEncoding(3, 0x1a, EncMetadata, m.metadata);
    EncodingJoin(Repeated(1, EncTimeSeries, m.timeseries), Repeated(3, EncMetadata, m.metadata));
  }
}
