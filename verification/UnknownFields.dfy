/**
 Fields that a message does not know, by the wire format of protocol buffers: a key and a value
 of one of five kinds, of which a group holds fields again. skipTypes
 (pkg/prompb/types.pb.go:2989-3066) accepts exactly these.
 */
module UnknownFields {
  import opened Arith
  import opened Wire

  // ---------- Varints of any length ----------

  /** Bytes that are one varint, which need not be as short as possible. */
  predicate IsVarint(w: seq<byte>) {
    Decode(w).Ok? && Decode(w).n == |w|
  }

  function ValueOf(w: seq<byte>): uint64
    requires IsVarint(w)
  {
    Decode(w).v
  }

  /** What follows a varint does not matter to its decoding. */
  lemma {:induction false} VarintStands(w: seq<byte>, rest: seq<byte>, k: nat)
    requires DecodeFrom(w, k).Ok?
    ensures DecodeFrom(w + rest, k) == DecodeFrom(w, k)
    decreases |w|
  {
    assert (w + rest)[1..] == w[1..] + rest;
    if w[0] >= 128 {
      VarintStands(w[1..], rest, k + 1);
    }
  }

  lemma {:induction false} VarintTaken(s: seq<byte>, k: nat)
    requires DecodeFrom(s, k).Ok?
    ensures DecodeFrom(s[..DecodeFrom(s, k).n], k) == DecodeFrom(s, k)
    decreases |s|
  {
    var n := DecodeFrom(s, k).n;
    if s[0] >= 128 {
      VarintTaken(s[1..], k + 1);
      assert s[..n][1..] == s[1..][..n - 1];
    }
  }

  // ---------- Fields ----------

  datatype Field = Field(key: seq<byte>, body: Body)
  datatype Body =
    | Number(v: seq<byte>)
    | Fixed64(b: seq<byte>)
    | Delimited(len: seq<byte>, p: seq<byte>)
    | Group(fields: Fields, end: seq<byte>)
    | Fixed32(b: seq<byte>)
  datatype Fields = NoFields | More(head: Field, tail: Fields)

  function WireType(b: Body): nat {
    match b
    case Number(_) => 0
    case Fixed64(_) => 1
    case Delimited(_, _) => 2
    case Group(_, _) => 3
    case Fixed32(_) => 5
  }

  predicate WellFormed(f: Field) {
    IsVarint(f.key) && ValueOf(f.key) % 8 == WireType(f.body) && WellBody(f.body)
  }

  predicate WellBody(b: Body) {
    match b
    case Number(v) => IsVarint(v)
    case Fixed64(b) => |b| == 8
    case Delimited(len, p) => IsVarint(len) && ValueOf(len) == |p| < TWO63
    case Group(fs, end) => AllWell(fs) && IsVarint(end) && ValueOf(end) % 8 == 4
    case Fixed32(b) => |b| == 4
  }

  predicate AllWell(fs: Fields) {
    fs.More? ==> WellFormed(fs.head) && AllWell(fs.tail)
  }

  function Bytes(f: Field): seq<byte> {
    f.key + BodyBytes(f.body)
  }

  function BodyBytes(b: Body): seq<byte> {
    match b
    case Number(v) => v
    case Fixed64(b) => b
    case Delimited(len, p) => len + p
    case Group(fs, end) => AllBytes(fs) + end
    case Fixed32(b) => b
  }

  function AllBytes(fs: Fields): seq<byte> {
    match fs
    case NoFields => []
    case More(f, rest) => Bytes(f) + AllBytes(rest)
  }

  // ---------- Skipping ----------

  /** The bytes `b` stand at index i. */
  predicate At(s: seq<byte>, i: nat, b: seq<byte>) {
    i + |b| <= |s| && s[i..i + |b|] == b
  }

  lemma AtSplit(s: seq<byte>, i: nat, a: seq<byte>, b: seq<byte>)
    requires At(s, i, a + b)
    ensures At(s, i, a) && At(s, i + |a|, b)
  {
    assert s[i..i + |a|] == s[i..i + |a + b|][..|a|] == a;
    assert s[i + |a|..i + |a| + |b|] == s[i..i + |a + b|][|a|..] == b;
  }

  lemma DecodeAt(s: seq<byte>, i: nat, w: seq<byte>)
    requires IsVarint(w) && At(s, i, w)
    ensures i < |s| && Decode(s[i..]) == Ok(ValueOf(w), |w|)
  {
    assert s[i..] == w + s[i + |w|..];
    VarintStands(w, s[i + |w|..], 0);
  }

  /** One round of the loop of skipTypes. */
  lemma SkipRound(s: seq<byte>, i: nat, depth: nat, key: seq<byte>)
    requires IsVarint(key) && At(s, i, key)
    ensures SkipFrom(s, i, depth) ==
      match SkipValue(s, i + |key|, ValueOf(key) % 8, depth)
      case BadSkip(e) => BadSkip(e)
      case SkippedTo(j) =>
        var d := NextDepth(ValueOf(key) % 8, depth);
        if j >= TWO63 then BadSkip(InvalidLength) else if d == 0 then SkippedTo(j) else SkipFrom(s, j, d)
  {
    hide SkipValue, DecodeFrom;
    DecodeAt(s, i, key);
  }

  /** Where skipping goes on behind a field or a group: it ends there unless a group is still open. */
  function Onward(s: seq<byte>, j: nat, depth: nat): Skipped {
    if depth == 0 then SkippedTo(j) else SkipFrom(s, j, depth)
  }

  lemma SkipScalar(s: seq<byte>, k: nat, depth: nat, b: Body)
    requires WellBody(b) && !b.Group? && At(s, k, BodyBytes(b))
    ensures SkipValue(s, k, WireType(b), depth) == SkippedTo(k + |BodyBytes(b)|)
  {
    hide DecodeFrom;
    match b
    case Number(v) => DecodeAt(s, k, v);
    case Fixed64(_) =>
    case Delimited(len, p) =>
      AtSplit(s, k, len, p);
      DecodeAt(s, k, len);
    case Fixed32(_) =>
  }

  /** Skipping a well-formed field lands right behind it, at any depth. */
  lemma {:induction false} SkipField(s: seq<byte>, i: nat, depth: nat, f: Field)
    requires WellFormed(f) && At(s, i, Bytes(f)) && i + |Bytes(f)| < TWO63
    ensures SkipFrom(s, i, depth) == Onward(s, i + |Bytes(f)|, depth)
    decreases f
  {
    hide SkipFrom, Decode, DecodeFrom, At;
    var k := i + |f.key|;
    AtSplit(s, i, f.key, BodyBytes(f.body));
    SkipRound(s, i, depth, f.key);
    if f.body.Group? {
      var fs, end := f.body.fields, f.body.end;
      AtSplit(s, k, AllBytes(fs), end);
      AtFits(s, k + |AllBytes(fs)|, end);
      SkipFields(s, k, depth + 1, fs);
      SkipRound(s, k + |AllBytes(fs)|, depth + 1, end);
    } else {
      SkipScalar(s, k, depth, f.body);
    }
  }

  lemma AtFits(s: seq<byte>, i: nat, b: seq<byte>)
    requires At(s, i, b)
    ensures i + |b| <= |s|
  {
  }

  lemma {:induction false} SkipFields(s: seq<byte>, i: nat, depth: nat, fs: Fields)
    requires AllWell(fs) && At(s, i, AllBytes(fs)) && i + |AllBytes(fs)| < TWO63 && depth > 0
    ensures SkipFrom(s, i, depth) == SkipFrom(s, i + |AllBytes(fs)|, depth)
    decreases fs
  {
    hide SkipFrom, At, Bytes, WellFormed;
    if fs.More? {
      AtSplit(s, i, Bytes(fs.head), AllBytes(fs.tail));
      SkipField(s, i, depth, fs.head);
      SkipFields(s, i + |Bytes(fs.head)|, depth, fs.tail);
    }
  }

  // ---------- What skipping accepts ----------

  /** The key at index i. */
  lemma KeyAt(s: seq<byte>, i: nat) returns (key: seq<byte>)
    requires i < |s| && Decode(s[i..]).Ok?
    ensures IsVarint(key) && At(s, i, key) && ValueOf(key) == Decode(s[i..]).v && |key| == Decode(s[i..]).n
  {
    var n := Decode(s[i..]).n;
    key := s[i..i + n];
    assert s[i..][..n] == key;
    VarintTaken(s[i..], 0);
  }

  /** A value that was skipped and lies within the bytes is the body of a field. */
  lemma BodyAt(s: seq<byte>, k: nat, wireType: nat, depth: nat) returns (b: Body)
    requires k <= |s| && wireType != 3 && wireType != 4
    requires var r := SkipValue(s, k, wireType, depth); r.SkippedTo? && r.next <= |s|
    ensures !b.Group? && WellBody(b) && WireType(b) == wireType
    ensures At(s, k, BodyBytes(b)) && SkipValue(s, k, wireType, depth) == SkippedTo(k + |BodyBytes(b)|)
  {
    hide DecodeFrom;
    var j := SkipValue(s, k, wireType, depth).next;
    if wireType == 0 {
      var v := KeyAt(s, k);
      b := Number(v);
    } else if wireType == 1 {
      b := Fixed64(s[k..k + 8]);
    } else if wireType == 2 {
      var len := KeyAt(s, k);
      b := Delimited(len, s[k + |len|..j]);
      assert s[k..j] == len + s[k + |len|..j];
    } else {
      b := Fixed32(s[k..k + 4]);
    }
  }

  lemma AtJoin(s: seq<byte>, i: nat, a: seq<byte>, b: seq<byte>)
    requires At(s, i, a) && At(s, i + |a|, b)
    ensures At(s, i, a + b)
  {
    assert s[i..i + |a + b|] == s[i..i + |a|] + s[i + |a|..i + |a| + |b|];
  }

  /** One round of the loop, seen from its end. */
  lemma RoundTaken(s: seq<byte>, i: nat, depth: nat) returns (key: seq<byte>, j: nat)
    requires var r := SkipFrom(s, i, depth); r.SkippedTo? && r.next <= |s|
    ensures IsVarint(key) && At(s, i, key) && |key| > 0 && j >= i + |key|
    ensures SkipValue(s, i + |key|, ValueOf(key) % 8, depth) == SkippedTo(j) && j < TWO63
    ensures j <= |s| && SkipFrom(s, i, depth) == Onward(s, j, NextDepth(ValueOf(key) % 8, depth))
  {
    hide SkipValue, DecodeFrom;
    key := KeyAt(s, i);
    SkipRound(s, i, depth, key);
    j := SkipValue(s, i + |key|, ValueOf(key) % 8, depth).next;
    if NextDepth(ValueOf(key) % 8, depth) > 0 {
      NotBeyond(s, j, NextDepth(ValueOf(key) % 8, depth));
    }
  }

  lemma NotBeyond(s: seq<byte>, j: nat, depth: nat)
    requires SkipFrom(s, j, depth).SkippedTo?
    ensures j < |s|
  {
  }

  /** From inside a group, skipping first passes the fields up to the end of that group. */
  lemma {:induction false} GroupTaken(s: seq<byte>, i: nat, depth: nat) returns (fs: Fields, end: seq<byte>)
    requires depth > 0 && var r := SkipFrom(s, i, depth); r.SkippedTo? && r.next <= |s|
    ensures AllWell(fs) && IsVarint(end) && ValueOf(end) % 8 == 4 && At(s, i, AllBytes(fs) + end)
    ensures |end| > 0 && SkipFrom(s, i, depth) == Onward(s, i + |AllBytes(fs) + end|, depth - 1)
    decreases |s| - i
  {
    hide SkipFrom, SkipValue, Decode, DecodeFrom, At, WellBody;
    var key, j := RoundTaken(s, i, depth);
    AtFits(s, i, key);
    if ValueOf(key) % 8 == 4 {
      EndsHere(s, i + |key|, depth);
      assert [] + key == key;
      return NoFields, key;
    }
    var f, next := FieldFrom(s, i, depth, key, j);
    var rest;
    rest, end := GroupTaken(s, next, depth);
    fs := More(f, rest);
    AtJoin(s, i, Bytes(f), AllBytes(rest) + end);
    assert Bytes(f) + (AllBytes(rest) + end) == AllBytes(fs) + end;
  }

  lemma EndsHere(s: seq<byte>, k: nat, depth: nat)
    requires k <= |s| && depth > 0
    ensures SkipValue(s, k, 4, depth) == SkippedTo(k)
  {
  }

  lemma GroupStartsHere(s: seq<byte>, k: nat, depth: nat)
    requires k <= |s|
    ensures SkipValue(s, k, 3, depth) == SkippedTo(k)
  {
  }

  /** The field whose key was just read. */
  lemma {:induction false} FieldFrom(s: seq<byte>, i: nat, depth: nat, key: seq<byte>, j: nat)
    returns (f: Field, next: nat)
    requires IsVarint(key) && At(s, i, key) && |key| > 0 && ValueOf(key) % 8 != 4 && i + |key| <= |s|
    requires SkipValue(s, i + |key|, ValueOf(key) % 8, depth) == SkippedTo(j) && j <= |s|
    requires var r := SkipFrom(s, i, depth); r.SkippedTo? && r.next <= |s|
    requires SkipFrom(s, i, depth) == Onward(s, j, NextDepth(ValueOf(key) % 8, depth))
    ensures WellFormed(f) && f.key == key && At(s, i, Bytes(f)) && next == i + |Bytes(f)| > i
    ensures SkipFrom(s, i, depth) == Onward(s, next, depth)
    decreases |s| - i, 0
  {
    hide SkipFrom, SkipValue, Decode, DecodeFrom, At;
    var k, wireType := i + |key|, ValueOf(key) % 8;
    if wireType == 3 {
      GroupStartsHere(s, k, depth);
      var fs, end := GroupTaken(s, k, depth + 1);
      f := Field(key, Group(fs, end));
    } else {
      var b := BodyAt(s, k, wireType, depth);
      f := Field(key, b);
    }
    AtJoin(s, i, key, BodyBytes(f.body));
    next := i + |Bytes(f)|;
  }

  /** skipTypes accepts exactly the well-formed fields: it lands right behind one, or it fails or runs off the end. */
  lemma SkippedIsField(s: seq<byte>) returns (f: Field)
    requires var r := SkipFrom(s, 0, 0); r.SkippedTo? && r.next <= |s|
    ensures WellFormed(f) && At(s, 0, Bytes(f)) && SkipFrom(s, 0, 0) == SkippedTo(|Bytes(f)|)
  {
    hide SkipFrom, SkipValue, Decode, DecodeFrom, At;
    var key, j := RoundTaken(s, 0, 0);
    AtFits(s, 0, key);
    if ValueOf(key) % 8 == 4 {
      EndsNowhere(s, |key|);
      assert false;
    }
    var next;
    f, next := FieldFrom(s, 0, 0, key, j);
  }

  lemma EndsNowhere(s: seq<byte>, k: nat)
    requires k <= |s|
    ensures SkipValue(s, k, 4, 0).BadSkip?
  {
  }

  /** Both ways: the bytes at the front are skipped as a whole if and only if they are a well-formed field. */
  lemma SkipsFieldIff(s: seq<byte>, n: nat)
    requires n <= |s| && |s| < TWO63
    ensures SkipFrom(s, 0, 0) == SkippedTo(n) <==> exists f :: WellFormed(f) && Bytes(f) == s[..n]
  {
    hide SkipFrom, Decode, DecodeFrom, WellFormed, Bytes;
    if SkipFrom(s, 0, 0) == SkippedTo(n) {
      var f := SkippedIsField(s);
      assert Bytes(f) == s[..n];
    }
    if f :| WellFormed(f) && Bytes(f) == s[..n] {
      SkipField(s, 0, 0, f);
    }
  }
}
