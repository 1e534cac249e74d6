/**
 Protobuf messages as the firmware's encoder sees them: a C struct walked through its
 field descriptors, modelled as a tree. `MessageBytes` is the reference serialisation,
 `ParseMessage` a schema-driven proto3 parser, and `RoundTrip` relates the two through
 `Visible`, the part of the tree that proto3 puts on the wire.
 */
module Message {
  import opened Wrappers
  import opened Varint
  import opened WireFormat
  import Seqs

  // --------------------------------------------------------------------- the tree

  datatype ScalarKind = BoolKind | IntKind | UintKind | SintKind | Fixed32Kind | Fixed64Kind

  datatype Scalar =
    | BoolValue(b: bool)
    | IntValue(i: int)
    | UintValue(u: nat)
    | SintValue(z: int)
    | Fixed32Value(w: nat)
    | Fixed64Value(d: nat)

  /** What a field's descriptor says about its presence. */
  datatype Presence =
    | Required
    | Singular             // proto3 singular: no presence flag
    | Optional(has: bool)  // has_ flag in the struct
    | Oneof(which: nat)    // the which_ selector of its union
    | Repeated

  datatype Data =
    | Basic(scalar: Scalar)
    | BytesArray(size: nat, room: seq<Byte>)  // pb_bytes_array_t inside the struct
    | CharArray(chars: seq<Byte>)             // char[data_size] inside the struct
    | FixedLength(bytes: seq<Byte>)
    | Submessage(msg: Message)
    | PackedArray(kind: ScalarKind, values: seq<Scalar>, capacity: nat)
    | Array(items: seq<Data>, capacity: nat)
    | Callback(emission: Emission)

  /** A deterministic encode callback: not set, failing, writing the field's key and then one
      value any number of times, or writing any bytes at all and then reporting success or not. */
  datatype Emission = Unset | Refuses | Emits(items: seq<Data>) | Writes(bytes: seq<Byte>, ok: bool)

  datatype Field = Field(tag: nat, presence: Presence, data: Data)

  datatype Message = Message(fields: seq<Field>)

  function KindOf(s: Scalar): ScalarKind {
    match s
    case BoolValue(_) => BoolKind
    case IntValue(_) => IntKind
    case UintValue(_) => UintKind
    case SintValue(_) => SintKind
    case Fixed32Value(_) => Fixed32Kind
    case Fixed64Value(_) => Fixed64Kind
  }

  predicate ValidScalar(s: Scalar) {
    match s
    case BoolValue(_) => true
    case IntValue(i) => IsInt64(i)
    case UintValue(u) => u < TWO_64
    case SintValue(z) => IsInt64(z)
    case Fixed32Value(w) => w < TWO_32
    case Fixed64Value(d) => d < TWO_64
  }

  predicate ValidScalars(values: seq<Scalar>) {
    forall i :: 0 <= i < |values| ==> ValidScalar(values[i])
  }

  predicate AllOfKind(kind: ScalarKind, values: seq<Scalar>) {
    forall i :: 0 <= i < |values| ==> ValidScalar(values[i]) && KindOf(values[i]) == kind
  }

  predicate IsZero(s: Scalar) {
    match s
    case BoolValue(b) => !b
    case IntValue(i) => i == 0
    case UintValue(u) => u == 0
    case SintValue(z) => z == 0
    case Fixed32Value(w) => w == 0
    case Fixed64Value(d) => d == 0
  }

  // --------------------------------------------------------------------- presence

  /** proto3's "is it the zero value" test, which descends into submessages. */
  predicate IsDefault(f: Field)
    decreases f
  {
    if f.data.Callback? then f.data.emission.Unset?
    else
      match f.presence
      case Required => false
      case Repeated => (f.data.Array? ==> f.data.items == []) && (f.data.PackedArray? ==> f.data.values == [])
      case Oneof(which) => which == 0
      case Optional(has) => !has
      case Singular =>
        match f.data
        case Basic(s) => IsZero(s)
        case BytesArray(size, _) => size == 0
        case CharArray(chars) => chars != [] && chars[0] == 0
        case FixedLength(bytes) => bytes == []
        case Submessage(m) => forall i :: 0 <= i < |m.fields| ==> IsDefault(m.fields[i])
        case _ => false
  }

  /** Whether the encoder gets as far as writing the field's contents. */
  predicate Present(f: Field) {
    match f.presence
    case Oneof(which) => which == f.tag
    case Optional(has) => has
    case Singular => f.data.Callback? || !IsDefault(f)
    case _ => true
  }

  // ---------------------------------------------------------- reference serialisation

  /** Position of the terminating NUL, if there is one. */
  function NulIndex(chars: seq<Byte>): (r: Option<nat>)
    ensures r.Some? ==> r.value < |chars| && chars[r.value] == 0 && forall i :: 0 <= i < r.value ==> chars[i] != 0
    ensures r.None? ==> 0 !in chars
  {
    if chars == [] then None
    else if chars[0] == 0 then Some(0)
    else match NulIndex(chars[1..])
      case None => None
      case Some(n) => Some(n + 1)
  }

  function ScalarPayload(s: Scalar): (p: Payload)
    requires ValidScalar(s)
    ensures ValidPayload(p) && !p.LenPayload?
  {
    match s
    case BoolValue(b) => VarintPayload(if b then 1 else 0)
    case IntValue(i) => VarintPayload(ToUnsigned(i))
    case UintValue(u) => VarintPayload(u)
    case SintValue(z) => VarintPayload(Zigzag(z))
    case Fixed32Value(w) => Fixed32Payload(w)
    case Fixed64Value(d) => Fixed64Payload(d)
  }

  /** How each scalar travels: booleans as 0 and 1, integers in two's complement, signed ones zigzag,
      fixed ones as they are. */
  lemma ScalarWire(b: bool, i: int, u: nat)
    requires IsInt64(i) && u < TWO_32
    ensures ScalarPayload(BoolValue(b)) == VarintPayload(if b then 1 else 0)
    ensures ScalarPayload(IntValue(i)) == VarintPayload(if i >= 0 then i else i + TWO_64)
    ensures ScalarPayload(SintValue(i)) == VarintPayload(if i >= 0 then 2 * i else -2 * i - 1)
    ensures ScalarPayload(UintValue(u)) == VarintPayload(u)
    ensures ScalarPayload(Fixed32Value(u)) == Fixed32Payload(u) && ScalarPayload(Fixed64Value(u)) == Fixed64Payload(u)
  {
    ZigzagRoundTrip(i);
  }

  function PackedBytes(values: seq<Scalar>): seq<Byte>
    requires ValidScalars(values)
  {
    if values == [] then []
    else PackedBytes(values[..|values| - 1]) + PayloadBytes(ScalarPayload(values[|values| - 1]))
  }

  /** The payload of one value; None where the encoder reports an error. */
  function ItemPayload(d: Data): Option<Payload>
    decreases d, 0
  {
    match d
    case Basic(s) => if ValidScalar(s) then Some(ScalarPayload(s)) else None
    case BytesArray(size, room) => if size > |room| then None else Some(LenPayload(room[..size]))
    case CharArray(chars) =>
      (match NulIndex(chars) case None => None case Some(n) => Some(LenPayload(chars[..n])))
    case FixedLength(bytes) => Some(LenPayload(bytes))
    case Submessage(m) =>
      (match FieldsRecords(m.fields) case None => None case Some(rs) => Some(LenPayload(Written(rs))))
    case _ => None
  }

  function ItemsRecords(tag: nat, items: seq<Data>): Option<seq<Record>>
    decreases items
  {
    if items == [] then Some([])
    else Cat(ItemsRecords(tag, items[..|items| - 1]), ItemRecord(tag, items[|items| - 1]))
  }

  /** One key and its value. */
  function ItemRecord(tag: nat, d: Data): Option<seq<Record>>
    decreases d, 1
  {
    match ItemPayload(d)
    case None => None
    case Some(p) => Some([Record(tag, p)])
  }

  function FieldRecords(f: Field): Option<seq<Record>>
    decreases f
  {
    if !Present(f) then Some([]) else
    match f.data
    case Callback(Unset) => Some([])
    case Callback(Refuses) => None
    case Callback(Emits(items)) => ItemsRecords(f.tag, items)
    case Callback(Writes(bytes, ok)) => if ok then Some([Record(f.tag, RawPayload(bytes))]) else None
    case Array(items, capacity) =>
      if !f.presence.Repeated? || |items| > capacity then None else ItemsRecords(f.tag, items)
    case PackedArray(_, values, capacity) =>
      if !f.presence.Repeated? || |values| > capacity || !ValidScalars(values) then None
      else if values == [] then Some([])
      else Some([Record(f.tag, LenPayload(PackedBytes(values)))])
    case d =>
      if f.presence.Repeated? then None else ItemRecord(f.tag, d)
  }

  /** A singular scalar is written exactly if it is not zero; text exactly if it does not begin with a
      NUL, bytes exactly if there are some. */
  lemma SingularPresence(tag: nat, s: Scalar, chars: seq<Byte>, size: nat, room: seq<Byte>)
    requires ValidScalar(s)
    ensures FieldRecords(Field(tag, Singular, Basic(s)))
         == if s in {BoolValue(false), IntValue(0), UintValue(0), SintValue(0), Fixed32Value(0), Fixed64Value(0)} then Some([])
            else Some([Record(tag, ScalarPayload(s))])
    ensures chars != [] ==>
              FieldRecords(Field(tag, Singular, CharArray(chars)))
              == if chars[0] == 0 then Some([]) else ItemRecord(tag, CharArray(chars))
    ensures FieldRecords(Field(tag, Singular, BytesArray(size, room)))
         == if size == 0 then Some([]) else ItemRecord(tag, BytesArray(size, room))
    ensures FieldRecords(Field(tag, Singular, FixedLength(room)))
         == if room == [] then Some([]) else Some([Record(tag, LenPayload(room))])
  {
    assert ItemPayload(Basic(s)) == Some(ScalarPayload(s));
    assert ItemPayload(FixedLength(room)) == Some(LenPayload(room));
  }

  /** What a value writes, and when that is an error: bytes beyond their array, text without a NUL, more
      elements than the array holds. */
  lemma ValueIs(tag: nat, size: nat, room: seq<Byte>, chars: seq<Byte>, n: nat, items: seq<Data>, capacity: nat)
    ensures ItemPayload(BytesArray(size, room)) == if size <= |room| then Some(LenPayload(room[..size])) else None
    ensures ItemPayload(CharArray(chars)).None? <==> 0 !in chars
    ensures n < |chars| && chars[n] == 0 && 0 !in chars[..n] ==> ItemPayload(CharArray(chars)) == Some(LenPayload(chars[..n]))
    ensures ItemPayload(FixedLength(room)) == Some(LenPayload(room))
    ensures FieldRecords(Field(tag, Repeated, Array(items, capacity)))
         == if |items| <= capacity then ItemsRecords(tag, items) else None
  {
    if n < |chars| && chars[n] == 0 && 0 !in chars[..n] { FirstNul(chars, n); }
  }

  lemma FirstNul(chars: seq<Byte>, n: nat)
    requires n < |chars| && chars[n] == 0 && 0 !in chars[..n]
    ensures NulIndex(chars) == Some(n)
  {
    assert forall i :: 0 <= i < n ==> chars[i] in chars[..n];
  }

  /** With another presence rule the value does not matter: a required field is always written, an
      optional one with its flag, an arm when it is the chosen one. */
  lemma ChosenPresence(tag: nat, d: Data, has: bool, which: nat)
    requires !d.Callback? && !d.Array? && !d.PackedArray?
    ensures FieldRecords(Field(tag, Required, d)) == ItemRecord(tag, d)
    ensures FieldRecords(Field(tag, Optional(has), d)) == if has then ItemRecord(tag, d) else Some([])
    ensures FieldRecords(Field(tag, Oneof(which), d)) == if which == tag then ItemRecord(tag, d) else Some([])
  {}

  /** What counts as default would write nothing, so leaving it out loses nothing. */
  lemma {:induction false} DefaultIsEmpty(f: Field)
    requires RepresentableField(f) && IsDefault(f)
    ensures FieldRecords(f) == Some([])
    ensures f.data.Submessage? && f.presence.Singular? ==> FieldsRecords(f.data.msg.fields) == Some([])
    decreases f
  {
    if f.data.Submessage? && f.presence.Singular? {
      assert RepresentableData(f.data) && Representable(f.data.msg);
      forall i | 0 <= i < |f.data.msg.fields| ensures FieldRecords(f.data.msg.fields[i]) == Some([]) {
        DefaultIsEmpty(f.data.msg.fields[i]);
      }
      NothingWritten(f.data.msg.fields);
    }
  }

  lemma {:induction false} NothingWritten(fs: seq<Field>)
    requires forall i :: 0 <= i < |fs| ==> FieldRecords(fs[i]) == Some([])
    ensures FieldsRecords(fs) == Some([])
  {
    if fs != [] {
      NothingWritten(fs[..|fs| - 1]);
      CatEmpty<Record>(Some([]));
    }
  }

  /** All records of a struct, in descriptor order. */
  function FieldsRecords(fs: seq<Field>): Option<seq<Record>>
    decreases fs
  {
    if fs == [] then Some([])
    else Cat(FieldsRecords(fs[..|fs| - 1]), FieldRecords(fs[|fs| - 1]))
  }

  /** The serialisation of a message, or None when the encoder must fail. */
  function MessageBytes(m: Message): Option<seq<Byte>> {
    Bytes(FieldsRecords(m.fields))
  }

  function Bytes(o: Option<seq<Record>>): Option<seq<Byte>> {
    match o
    case None => None
    case Some(rs) => Some(Written(rs))
  }

  // ------------------------------------------------------------------ representability

  /** What C's types and address space guarantee of a struct: field numbers and scalars
      in range, packed arrays of one type, and no object as large as SIZE_MAX. */
  predicate Representable(m: Message)
    decreases m
  {
    && (forall i :: 0 <= i < |m.fields| ==> RepresentableField(m.fields[i]))
    && (MessageBytes(m).Some? ==> |MessageBytes(m).value| < TWO_32)
  }

  predicate RepresentableField(f: Field)
    decreases f
  {
    && 1 <= f.tag <= MAX_TAG
    && RepresentableData(f.data)
    && (f.data.Array? || f.data.PackedArray? ==> f.presence.Repeated?)
    && (f.presence.Repeated? ==> f.data.Array? || f.data.PackedArray? || f.data.Callback?)
  }

  predicate RepresentableData(d: Data)
    decreases d, 0
  {
    match d
    case Basic(s) => ValidScalar(s)
    case BytesArray(_, room) => |room| < TWO_32
    case CharArray(chars) => |chars| < TWO_32
    case FixedLength(bytes) => |bytes| < TWO_32
    case Submessage(m) => Representable(m)
    case PackedArray(kind, values, _) =>
      && AllOfKind(kind, values)
      && |PackedBytes(values)| < TWO_32
    case Array(items, _) => forall i :: 0 <= i < |items| ==> RepresentableItem(items[i])
    case Callback(Emits(items)) => forall i :: 0 <= i < |items| ==> RepresentableItem(items[i])
    case Callback(Writes(bytes, _)) => |bytes| < TWO_32
    case Callback(_) => true
  }

  predicate RepresentableItem(d: Data)
    decreases d, 1
  {
    RepresentableData(d) && !d.PackedArray? && !d.Array? && !d.Callback?
  }

  lemma ItemPayloadValid(d: Data)
    requires RepresentableData(d) && ItemPayload(d).Some?
    ensures ValidPayload(ItemPayload(d).value)
  {
  }

  lemma {:induction false} ItemsRecordsValid(tag: nat, items: seq<Data>)
    requires 1 <= tag <= MAX_TAG
    requires forall i :: 0 <= i < |items| ==> RepresentableItem(items[i])
    requires ItemsRecords(tag, items).Some?
    ensures ValidRecords(ItemsRecords(tag, items).value)
  {
    if items != [] {
      ItemsRecordsValid(tag, items[..|items| - 1]);
      ItemPayloadValid(items[|items| - 1]);
    }
  }

  /** The field's callback, if it has one, writes whole fields. */
  predicate Framed(f: Field) {
    f.data.Callback? ==> !f.data.emission.Writes?
  }

  lemma FieldRecordsValid(f: Field)
    requires RepresentableField(f) && Framed(f) && FieldRecords(f).Some?
    ensures ValidRecords(FieldRecords(f).value)
  {
    if Present(f) {
      match f.data
      case Callback(Emits(items)) => ItemsRecordsValid(f.tag, items);
      case Array(items, _) => ItemsRecordsValid(f.tag, items);
      case PackedArray(_, _, _) =>
      case Callback(_) =>
      case d => ItemPayloadValid(d);
    }
  }

  lemma {:induction false} FieldsRecordsValid(fs: seq<Field>)
    requires forall i :: 0 <= i < |fs| ==> RepresentableField(fs[i]) && Framed(fs[i])
    requires FieldsRecords(fs).Some?
    ensures ValidRecords(FieldsRecords(fs).value)
  {
    if fs != [] {
      FieldsRecordsValid(fs[..|fs| - 1]);
      FieldRecordsValid(fs[|fs| - 1]);
    }
  }

  // ----------------------------------------------------------------- schema and parser

  datatype Kind =
    | KScalar(kind: ScalarKind)
    | KBytes
    | KMessage(schema: Schema)
    | KPacked(kind: ScalarKind)

  datatype Schema = Schema(kinds: map<nat, Kind>)

  datatype Parsed =
    | PScalar(scalar: Scalar)
    | PBytes(bytes: seq<Byte>)
    | PMessage(fields: seq<ParsedField>)
    | PPacked(values: seq<Scalar>)

  datatype ParsedField = ParsedField(tag: nat, value: Parsed)

  function ParseScalar(kind: ScalarKind, p: Payload): Option<Scalar>
    requires ValidPayload(p)
  {
    match (kind, p)
    case (BoolKind, VarintPayload(v)) => Some(BoolValue(v != 0))
    case (IntKind, VarintPayload(v)) => Some(IntValue(ToSigned(v)))
    case (UintKind, VarintPayload(v)) => Some(UintValue(v))
    case (SintKind, VarintPayload(v)) => Some(SintValue(Unzigzag(v)))
    case (Fixed32Kind, Fixed32Payload(w)) => Some(Fixed32Value(w))
    case (Fixed64Kind, Fixed64Payload(d)) => Some(Fixed64Value(d))
    case _ => None
  }

  function ScalarWireType(kind: ScalarKind): nat {
    match kind
    case Fixed32Kind => 5
    case Fixed64Kind => 1
    case _ => 0
  }

  /** A packed array: payloads of one kind back to back. */
  function ParsePacked(kind: ScalarKind, s: seq<Byte>): Option<seq<Scalar>>
    decreases |s|
  {
    if s == [] then Some([]) else
    match ParsePayload(ScalarWireType(kind), s)
    case None => None
    case Some((p, n)) =>
      match (ParseScalar(kind, p), ParsePacked(kind, s[n..]))
      case (Some(v), Some(vs)) => Some([v] + vs)
      case _ => None
  }

  function ParseValue(kind: Kind, p: Payload, bound: nat): Option<Parsed>
    requires ValidPayload(p)
    requires p.LenPayload? ==> |p.bytes| < bound
    decreases bound, 0, 0
  {
    match (kind, p)
    case (KScalar(k), _) => (match ParseScalar(k, p) case None => None case Some(s) => Some(PScalar(s)))
    case (KBytes, LenPayload(bytes)) => Some(PBytes(bytes))
    case (KMessage(schema), LenPayload(bytes)) =>
      (match ParseMessage(schema, bytes) case None => None case Some(fs) => Some(PMessage(fs)))
    case (KPacked(k), LenPayload(bytes)) =>
      (match ParsePacked(k, bytes) case None => None case Some(vs) => Some(PPacked(vs)))
    case _ => None
  }

  /** Field numbers outside the schema are skipped, as proto3 asks. */
  function ParseFields(schema: Schema, rs: seq<Record>, bound: nat): Option<seq<ParsedField>>
    requires ValidRecords(rs)
    requires forall r :: r in rs && r.payload.LenPayload? ==> |r.payload.bytes| < bound
    decreases bound, 1, |rs|
  {
    if rs == [] then Some([]) else
    var r := rs[|rs| - 1];
    assert r in rs;
    match ParseFields(schema, rs[..|rs| - 1], bound)
    case None => None
    case Some(fs) =>
      if r.tag !in schema.kinds then Some(fs) else
      match ParseValue(schema.kinds[r.tag], r.payload, bound)
      case None => None
      case Some(v) => Some(fs + [ParsedField(r.tag, v)])
  }

  function ParseMessage(schema: Schema, s: seq<Byte>): Option<seq<ParsedField>>
    decreases |s|, 2, 0
  {
    match ParseRecords(s)
    case None => None
    case Some(rs) => ParseFields(schema, rs, |s|)
  }

  // ------------------------------------------------------------ what the wire carries

  function VisibleItem(d: Data): Parsed
    decreases d
  {
    match d
    case Basic(s) => PScalar(s)
    case BytesArray(size, room) => PBytes(if size <= |room| then room[..size] else [])
    case CharArray(chars) => PBytes(match NulIndex(chars) case None => [] case Some(n) => chars[..n])
    case FixedLength(bytes) => PBytes(bytes)
    case Submessage(m) => PMessage(VisibleFields(m.fields))
    case _ => PBytes([])
  }

  function VisibleItems(tag: nat, items: seq<Data>): seq<ParsedField>
    decreases items
  {
    if items == [] then []
    else VisibleItems(tag, items[..|items| - 1]) + [ParsedField(tag, VisibleItem(items[|items| - 1]))]
  }

  function VisibleField(f: Field): seq<ParsedField>
    decreases f
  {
    if !Present(f) then [] else
    match f.data
    case Callback(Emits(items)) => VisibleItems(f.tag, items)
    case Callback(_) => []
    case Array(items, _) => VisibleItems(f.tag, items)
    case PackedArray(_, values, _) => if values == [] then [] else [ParsedField(f.tag, PPacked(values))]
    case d => [ParsedField(f.tag, VisibleItem(d))]
  }

  /** The present fields of a struct, each with the value a receiver should see. */
  function VisibleFields(fs: seq<Field>): seq<ParsedField>
    decreases fs
  {
    if fs == [] then [] else VisibleFields(fs[..|fs| - 1]) + VisibleField(fs[|fs| - 1])
  }

  function Visible(m: Message): seq<ParsedField> {
    VisibleFields(m.fields)
  }

  /** The struct's descriptors agree with the schema, and its callbacks write whole fields. */
  predicate Conforms(schema: Schema, m: Message)
    decreases m
  {
    forall i :: 0 <= i < |m.fields| ==> FieldConforms(schema, m.fields[i])
  }

  predicate FieldConforms(schema: Schema, f: Field)
    decreases f
  {
    f.tag in schema.kinds && DataConforms(schema.kinds[f.tag], f.data)
  }

  predicate DataConforms(kind: Kind, d: Data)
    decreases d
  {
    match d
    case Basic(s) => kind == KScalar(KindOf(s))
    case BytesArray(_, _) => kind.KBytes?
    case CharArray(_) => kind.KBytes?
    case FixedLength(_) => kind.KBytes?
    case Submessage(m) => kind.KMessage? && Conforms(kind.schema, m)
    case PackedArray(k, _, _) => kind == KPacked(k)
    case Array(items, _) => forall i :: 0 <= i < |items| ==> DataConforms(kind, items[i])
    case Callback(Emits(items)) => forall i :: 0 <= i < |items| ==> DataConforms(kind, items[i])
    case Callback(Writes(_, _)) => false
    case Callback(_) => true
  }

  // --------------------------------------------------------------------- round trip

  lemma ScalarRoundTrip(s: Scalar)
    requires ValidScalar(s)
    ensures ParseScalar(KindOf(s), ScalarPayload(s)) == Some(s)
    ensures WireType(ScalarPayload(s)) == ScalarWireType(KindOf(s))
  {
    match s
    case IntValue(i) => ZigzagRoundTrip(i);
    case SintValue(z) => ZigzagRoundTrip(z);
    case _ =>
  }

  lemma {:induction false} PackedConcat(a: seq<Scalar>, b: seq<Scalar>)
    requires ValidScalars(a) && ValidScalars(b)
    ensures PackedBytes(a + b) == PackedBytes(a) + PackedBytes(b)
  {
    if b == [] {
      assert a + b == a;
    } else {
      Seqs.PeelRight(a, b);
      PackedConcat(a, b[..|b| - 1]);
      Seqs.Assoc(PackedBytes(a), PackedBytes(b[..|b| - 1]), PayloadBytes(ScalarPayload(b[|b| - 1])));
    }
  }

  lemma {:induction false} PackedRoundTrip(kind: ScalarKind, values: seq<Scalar>)
    requires AllOfKind(kind, values)
    ensures ParsePacked(kind, PackedBytes(values)) == Some(values)
  {
    if values != [] {
      var v, t := values[0], values[1..];
      assert values == [v] + t;
      PackedConcat([v], t);
      PackedOne(v);
      PackedRoundTrip(kind, t);
      PackedFirst(kind, v, t, PackedBytes(t));
    }
  }

  lemma PackedOne(v: Scalar)
    requires ValidScalar(v)
    ensures PackedBytes([v]) == PayloadBytes(ScalarPayload(v))
  {
    assert [v][..0] == [];
  }

  /** The parser takes one element off the front. */
  lemma PackedFirst(kind: ScalarKind, v: Scalar, t: seq<Scalar>, tail: seq<Byte>)
    requires ValidScalar(v) && KindOf(v) == kind && ParsePacked(kind, tail) == Some(t)
    ensures ParsePacked(kind, PayloadBytes(ScalarPayload(v)) + tail) == Some([v] + t)
  {
    var s := PayloadBytes(ScalarPayload(v)) + tail;
    ScalarRoundTrip(v);
    ParseWrittenPayload(ScalarPayload(v), tail);
    assert s[|PayloadBytes(ScalarPayload(v))|..] == tail;
  }

  lemma {:induction false} ParseFieldsConcat(schema: Schema, a: seq<Record>, b: seq<Record>, bound: nat)
    requires ValidRecords(a + b)
    requires forall r :: r in a + b && r.payload.LenPayload? ==> |r.payload.bytes| < bound
    ensures ValidRecords(a) && ValidRecords(b)
    ensures forall r :: r in a && r.payload.LenPayload? ==> |r.payload.bytes| < bound
    ensures forall r :: r in b && r.payload.LenPayload? ==> |r.payload.bytes| < bound
    ensures ParseFields(schema, a + b, bound)
         == Cat(ParseFields(schema, a, bound), ParseFields(schema, b, bound))
  {
    assert forall r :: r in a ==> r in a + b;
    assert forall r :: r in b ==> r in a + b;
    if b == [] {
      assert a + b == a;
      var x := ParseFields(schema, a, bound);
      assert x.Some? ==> x.value + [] == x.value;
    } else {
      var b' := b[..|b| - 1];
      Seqs.PeelRight(a, b);
      assert forall r :: r in a + b' ==> r in a + b;
      ParseFieldsConcat(schema, a, b', bound);
      var x, y := ParseFields(schema, a, bound), ParseFields(schema, b', bound);
      var r := b[|b| - 1];
      assert r in b;
      if x.Some? && y.Some? && r.tag in schema.kinds {
        var v := ParseValue(schema.kinds[r.tag], r.payload, bound);
        if v.Some? { Seqs.Assoc(x.value, y.value, [ParsedField(r.tag, v.value)]); }
      }
    }
  }

  lemma ConformingFramed(schema: Schema, fs: seq<Field>)
    requires forall i :: 0 <= i < |fs| ==> FieldConforms(schema, fs[i])
    ensures forall i :: 0 <= i < |fs| ==> Framed(fs[i])
  {
    forall i | 0 <= i < |fs| ensures Framed(fs[i]) {
      assert FieldConforms(schema, fs[i]);
      DataFramed(schema.kinds[fs[i].tag], fs[i].data);
    }
  }

  lemma DataFramed(kind: Kind, d: Data)
    requires DataConforms(kind, d)
    ensures d.Callback? ==> !d.emission.Writes?
  {}

  predicate ShortPayloads(rs: seq<Record>, bound: nat) {
    forall r :: r in rs && r.payload.LenPayload? ==> |r.payload.bytes| < bound
  }

  lemma {:induction false} ItemRoundTrip(kind: Kind, d: Data, bound: nat)
    requires RepresentableItem(d) && ItemPayload(d).Some? && DataConforms(kind, d)
    requires ItemPayload(d).value.LenPayload? ==> |ItemPayload(d).value.bytes| < bound
    ensures ValidPayload(ItemPayload(d).value)
    ensures ParseValue(kind, ItemPayload(d).value, bound) == Some(VisibleItem(d))
    decreases d
  {
    ItemPayloadValid(d);
    match d
    case Basic(s) => ScalarRoundTrip(s);
    case Submessage(m) =>
      assert Representable(m) && Conforms(kind.schema, m);
      ConformingFramed(kind.schema, m.fields);
      WireRoundTrip(m);
      FieldsRoundTrip(kind.schema, m.fields, |MessageBytes(m).value|);
    case _ =>
  }

  lemma {:induction false} ItemsRoundTrip(schema: Schema, tag: nat, items: seq<Data>, bound: nat)
    requires 1 <= tag <= MAX_TAG && tag in schema.kinds
    requires forall i :: 0 <= i < |items| ==> RepresentableItem(items[i]) && DataConforms(schema.kinds[tag], items[i])
    requires ItemsRecords(tag, items).Some? && ShortPayloads(ItemsRecords(tag, items).value, bound)
    ensures ValidRecords(ItemsRecords(tag, items).value)
    ensures ParseFields(schema, ItemsRecords(tag, items).value, bound) == Some(VisibleItems(tag, items))
    decreases items
  {
    ItemsRecordsValid(tag, items);
    if items != [] {
      var rs := ItemsRecords(tag, items[..|items| - 1]).value;
      var d := items[|items| - 1];
      var r := Record(tag, ItemPayload(d).value);
      assert ItemsRecords(tag, items).value == rs + [r];
      assert (rs + [r])[..|rs + [r]| - 1] == rs && (rs + [r])[|rs + [r]| - 1] == r;
      ItemsRoundTrip(schema, tag, items[..|items| - 1], bound);
      ItemRoundTrip(schema.kinds[tag], d, bound);
    }
  }

  lemma {:induction false} FieldRoundTrip(schema: Schema, f: Field, bound: nat)
    requires RepresentableField(f) && FieldConforms(schema, f)
    requires FieldRecords(f).Some? && ShortPayloads(FieldRecords(f).value, bound)
    ensures ValidRecords(FieldRecords(f).value)
    ensures ParseFields(schema, FieldRecords(f).value, bound) == Some(VisibleField(f))
    decreases f
  {
    FieldRecordsValid(f);
    if Present(f) {
      match f.data
      case Callback(Emits(items)) => ItemsRoundTrip(schema, f.tag, items, bound);
      case Callback(_) =>
      case Array(items, _) => ItemsRoundTrip(schema, f.tag, items, bound);
      case PackedArray(kind, values, _) =>
        if values != [] {
          PackedRoundTrip(kind, values);
          OneRecord(schema, FieldRecords(f).value[0], bound);
        }
      case d =>
        ItemRoundTrip(schema.kinds[f.tag], d, bound);
        OneRecord(schema, FieldRecords(f).value[0], bound);
    }
  }

  lemma OneRecord(schema: Schema, r: Record, bound: nat)
    requires ValidRecord(r) && r.tag in schema.kinds
    requires r.payload.LenPayload? ==> |r.payload.bytes| < bound
    ensures ParseFields(schema, [r], bound) ==
      match ParseValue(schema.kinds[r.tag], r.payload, bound)
      case None => None
      case Some(v) => Some([ParsedField(r.tag, v)])
  {
    assert [r][..|[r]| - 1] == [];
    var v := ParseValue(schema.kinds[r.tag], r.payload, bound);
    assert v.Some? ==> [] + [ParsedField(r.tag, v.value)] == [ParsedField(r.tag, v.value)];
  }

  lemma {:induction false} FieldsRoundTrip(schema: Schema, fs: seq<Field>, bound: nat)
    requires forall i :: 0 <= i < |fs| ==> RepresentableField(fs[i]) && FieldConforms(schema, fs[i])
    requires FieldsRecords(fs).Some? && ShortPayloads(FieldsRecords(fs).value, bound)
    ensures ValidRecords(FieldsRecords(fs).value)
    ensures ParseFields(schema, FieldsRecords(fs).value, bound) == Some(VisibleFields(fs))
    decreases fs
  {
    ConformingFramed(schema, fs);
    FieldsRecordsValid(fs);
    if fs != [] {
      var f := fs[|fs| - 1];
      var a, b := FieldsRecords(fs[..|fs| - 1]).value, FieldRecords(f).value;
      ParseFieldsConcat(schema, a, b, bound);
      FieldsRoundTrip(schema, fs[..|fs| - 1], bound);
      FieldRoundTrip(schema, f, bound);
    }
  }

  lemma WireRoundTrip(m: Message)
    requires Representable(m) && MessageBytes(m).Some? && forall i :: 0 <= i < |m.fields| ==> Framed(m.fields[i])
    ensures ValidRecords(FieldsRecords(m.fields).value)
    ensures ParseRecords(MessageBytes(m).value) == Some(FieldsRecords(m.fields).value)
  {
    FieldsRecordsValid(m.fields);
    ParseWritten(FieldsRecords(m.fields).value);
  }

  /** Parsing the serialisation of any representable message, of any depth, against a
      schema it conforms to yields exactly its visible tree. */
  lemma RoundTrip(schema: Schema, m: Message)
    requires Representable(m) && Conforms(schema, m) && MessageBytes(m).Some?
    ensures ParseMessage(schema, MessageBytes(m).value) == Some(Visible(m))
  {
    ConformingFramed(schema, m.fields);
    WireRoundTrip(m);
    FieldsRoundTrip(schema, m.fields, |MessageBytes(m).value|);
  }
}
