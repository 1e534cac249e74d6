/**
 The protobuf wire format one level deep: a message is a list of records, each a key
 (field number and wire type) followed by a payload. Section "Length-Delimited Records"
 of the Protocol Buffers encoding specification. The parser is independent of any schema.
 */
module WireFormat {
  import opened Wrappers
  import opened Varint
  import Seqs

  datatype Payload =
    | VarintPayload(v: nat)
    | Fixed64Payload(bits: nat)
    | LenPayload(bytes: seq<Byte>)
    | Fixed32Payload(bits: nat)
    | RawPayload(bytes: seq<Byte>) // what a callback wrote on its own, key and all; not a valid record

  datatype Record = Record(tag: nat, payload: Payload)

  const MAX_TAG: nat := 0x1FFF_FFFF

  predicate ValidPayload(p: Payload) {
    match p
    case VarintPayload(v) => v < TWO_64
    case Fixed64Payload(bits) => bits < TWO_64
    case LenPayload(bytes) => |bytes| < TWO_64
    case Fixed32Payload(bits) => bits < TWO_32
    case RawPayload(_) => false
  }

  predicate ValidRecord(r: Record) {
    1 <= r.tag <= MAX_TAG && ValidPayload(r.payload)
  }

  predicate ValidRecords(rs: seq<Record>) {
    forall r :: r in rs ==> ValidRecord(r)
  }

  // ------------------------------------------------------------ little-endian words

  function LittleEndian(v: nat, width: nat): (s: seq<Byte>)
    ensures |s| == width
  {
    if width == 0 then [] else [v % 256] + LittleEndian(v / 256, width - 1)
  }

  function FromLittleEndian(s: seq<Byte>): nat {
    if s == [] then 0 else s[0] + 256 * FromLittleEndian(s[1..])
  }

  function Pow256(n: nat): (p: nat)
    ensures p >= 1
  {
    if n == 0 then 1 else 256 * Pow256(n - 1)
  }

  /** Byte `k` is the digit of weight 256^k. */
  lemma {:induction false} LittleEndianAt(v: nat, width: nat, k: nat)
    requires k < width
    ensures LittleEndian(v, width)[k] == v / Pow256(k) % 256
  {
    if k > 0 {
      LittleEndianAt(v / 256, width - 1, k - 1);
      DivideTwice(v, 256, Pow256(k - 1));
    }
  }

  lemma {:induction false} LittleEndianRoundTrip(v: nat, width: nat)
    requires v < Pow256(width)
    ensures FromLittleEndian(LittleEndian(v, width)) == v
  {
    if width > 0 {
      LittleEndianRoundTrip(v / 256, width - 1);
      assert LittleEndian(v, width)[1..] == LittleEndian(v / 256, width - 1);
    }
  }

  lemma Word32(v: nat)
    requires v < TWO_32
    ensures FromLittleEndian(LittleEndian(v, 4)) == v
  {
    assert Pow256(4) == 256 * Pow256(3) == 65536 * Pow256(2);
    LittleEndianRoundTrip(v, 4);
  }

  lemma Word64(v: nat)
    requires v < TWO_64
    ensures FromLittleEndian(LittleEndian(v, 8)) == v
  {
    assert Pow256(8) == 65536 * Pow256(6) && Pow256(6) == 65536 * Pow256(4) && Pow256(4) == 65536 * Pow256(2);
    LittleEndianRoundTrip(v, 8);
  }

  // ------------------------------------------------------------------------ writing

  function WireType(p: Payload): nat {
    match p
    case VarintPayload(_) => 0
    case Fixed64Payload(_) => 1
    case LenPayload(_) => 2
    case Fixed32Payload(_) => 5
    case RawPayload(_) => 0
  }

  function KeyBytes(tag: nat, wireType: nat): seq<Byte> {
    Encoded(tag * 8 + wireType)
  }

  function PayloadBytes(p: Payload): seq<Byte> {
    match p
    case VarintPayload(v) => Encoded(v)
    case Fixed64Payload(bits) => LittleEndian(bits, 8)
    case LenPayload(bytes) => Encoded(|bytes|) + bytes
    case Fixed32Payload(bits) => LittleEndian(bits, 4)
    case RawPayload(bytes) => bytes
  }

  /** Key and payload: the field number times eight plus the wire type, 0 for varints, 1 and 5 for eight
      and four bytes, 2 for a length and what it counts. */
  lemma RecordIs(tag: nat, v: nat, bytes: seq<Byte>)
    ensures RecordBytes(Record(tag, VarintPayload(v))) == Encoded(8 * tag) + Encoded(v)
    ensures RecordBytes(Record(tag, Fixed64Payload(v))) == Encoded(8 * tag + 1) + LittleEndian(v, 8)
    ensures RecordBytes(Record(tag, LenPayload(bytes))) == Encoded(8 * tag + 2) + (Encoded(|bytes|) + bytes)
    ensures RecordBytes(Record(tag, Fixed32Payload(v))) == Encoded(8 * tag + 5) + LittleEndian(v, 4)
  {}

  /** The examples of the specification: 150 in field 1, and "testing" in field 2. */
  lemma RecordExamples()
    ensures RecordBytes(Record(1, VarintPayload(150))) == [0x08, 0x96, 0x01]
    ensures RecordBytes(Record(2, LenPayload([0x74, 0x65, 0x73, 0x74, 0x69, 0x6E, 0x67])))
         == [0x12, 0x07, 0x74, 0x65, 0x73, 0x74, 0x69, 0x6E, 0x67]
  {}

  function RecordBytes(r: Record): seq<Byte> {
    if r.payload.RawPayload? then r.payload.bytes
    else KeyBytes(r.tag, WireType(r.payload)) + PayloadBytes(r.payload)
  }

  /** The bytes of a list of records; peels the last one so that a writing loop follows it. */
  function Written(rs: seq<Record>): seq<Byte> {
    if rs == [] then [] else Written(rs[..|rs| - 1]) + RecordBytes(rs[|rs| - 1])
  }

  lemma WrittenOne(r: Record)
    ensures Written([r]) == RecordBytes(r)
  {
    assert [r][..0] == [];
  }

  lemma {:induction false} WrittenConcat(a: seq<Record>, b: seq<Record>)
    ensures Written(a + b) == Written(a) + Written(b)
  {
    if b == [] {
      assert a + b == a;
    } else {
      var b' := b[..|b| - 1];
      WrittenConcat(a, b');
      Seqs.PeelRight(a, b);
      Seqs.Assoc(Written(a), Written(b'), RecordBytes(b[|b| - 1]));
    }
  }

  // ------------------------------------------------------------------------ parsing

  /** One payload of the given wire type from the front of `s`, and its length. */
  function ParsePayload(wireType: nat, s: seq<Byte>): (r: Option<(Payload, nat)>)
    ensures r.Some? ==> 1 <= r.value.1 <= |s| && ValidPayload(r.value.0)
    ensures r.Some? && r.value.0.LenPayload? ==> |r.value.0.bytes| < r.value.1
  {
    match wireType
    case 0 => (match Decode(s) case None => None case Some((v, n)) => Some((VarintPayload(v), n)))
    case 1 => if |s| < 8 then None else FixedBound(s, 8); Some((Fixed64Payload(FromLittleEndian(s[..8])), 8))
    case 2 =>
      (match Decode(s)
       case None => None
       case Some((len, n)) => if n + len > |s| then None else Some((LenPayload(s[n..n + len]), n + len)))
    case 5 => if |s| < 4 then None else FixedBound(s, 4); Some((Fixed32Payload(FromLittleEndian(s[..4])), 4))
    case _ => None
  }

  lemma {:induction false} FromLittleEndianBound(s: seq<Byte>)
    ensures FromLittleEndian(s) < Pow256(|s|)
  {
    if s != [] { FromLittleEndianBound(s[1..]); }
  }

  lemma FixedBound(s: seq<Byte>, n: nat)
    requires (n == 4 || n == 8) && |s| >= n
    ensures FromLittleEndian(s[..n]) < if n == 4 then TWO_32 else TWO_64
  {
    FromLittleEndianBound(s[..n]);
    assert Pow256(8) == 65536 * Pow256(6) && Pow256(6) == 65536 * Pow256(4) && Pow256(4) == 65536 * Pow256(2);
  }

  /** One record from the front of `s`, and its length. Field number 0 is illegal. */
  function ParseRecord(s: seq<Byte>): (r: Option<(Record, nat)>)
    ensures r.Some? ==> 1 <= r.value.1 <= |s| && ValidRecord(r.value.0)
    ensures r.Some? && r.value.0.payload.LenPayload? ==> |r.value.0.payload.bytes| < |s|
  {
    match Decode(s)
    case None => None
    case Some((key, n)) =>
      if key / 8 == 0 || key / 8 > MAX_TAG then None else
      match ParsePayload(key % 8, s[n..])
      case None => None
      case Some((p, m)) => Some((Record(key / 8, p), n + m))
  }

  function ParseRecords(s: seq<Byte>): (r: Option<seq<Record>>)
    ensures r.Some? ==> ValidRecords(r.value)
    ensures r.Some? ==> forall x :: x in r.value && x.payload.LenPayload? ==> |x.payload.bytes| < |s|
    decreases |s|
  {
    if s == [] then Some([]) else
    match ParseRecord(s)
    case None => None
    case Some((r, n)) =>
      match ParseRecords(s[n..])
      case None => None
      case Some(rs) => Some([r] + rs)
  }

  // --------------------------------------------------------------------- round trip

  lemma ParseWrittenPayload(p: Payload, rest: seq<Byte>)
    requires ValidPayload(p)
    ensures ParsePayload(WireType(p), PayloadBytes(p) + rest) == Some((p, |PayloadBytes(p)|))
  {
    var s := PayloadBytes(p) + rest;
    match p
    case VarintPayload(v) => DecodeEncoded(v, rest);
    case Fixed64Payload(bits) =>
      assert s[..8] == LittleEndian(bits, 8);
      Word64(bits);
    case LenPayload(bytes) =>
      DecodeEncoded(|bytes|, bytes + rest);
      Seqs.Assoc(Encoded(|bytes|), bytes, rest);
      var n := |Encoded(|bytes|)|;
      assert s[n..n + |bytes|] == bytes;
    case Fixed32Payload(bits) =>
      assert s[..4] == LittleEndian(bits, 4);
      Word32(bits);
  }

  lemma ParseWrittenRecord(r: Record, rest: seq<Byte>)
    requires ValidRecord(r)
    ensures ParseRecord(RecordBytes(r) + rest) == Some((r, |RecordBytes(r)|))
  {
    var key := r.tag * 8 + WireType(r.payload);
    var s := RecordBytes(r) + rest;
    assert s == Encoded(key) + (PayloadBytes(r.payload) + rest);
    DecodeEncoded(key, PayloadBytes(r.payload) + rest);
    assert key / 8 == r.tag && key % 8 == WireType(r.payload);
    assert s[|Encoded(key)|..] == PayloadBytes(r.payload) + rest;
    ParseWrittenPayload(r.payload, rest);
  }

  /** Parsing the bytes of any list of valid records gives the records back. */
  lemma {:induction false} ParseWritten(rs: seq<Record>)
    requires ValidRecords(rs)
    ensures ParseRecords(Written(rs)) == Some(rs)
  {
    if rs != [] {
      var r, t := rs[0], rs[1..];
      assert rs == [r] + t;
      WrittenConcat([r], t);
      WrittenOne(r);
      ParseWrittenRecord(r, Written(t));
      ParseWritten(t);
      assert Written(rs)[|RecordBytes(r)|..] == Written(t);
    }
  }
}
