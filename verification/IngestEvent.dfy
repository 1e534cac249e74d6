/**
 The events the firmware builds (metric set, signal frame, status), the tree each becomes,
 the ingest schema, and the receiver's view: decoding the bytes of an event gives the
 event back, up to the truncation of its fixed-size strings.
 */
module IngestEvent {
  import opened Wrappers
  import opened Varint
  import opened WireFormat
  import opened Message
  import Seqs

  const MAX_METRICS: nat := 32
  const SIGNAL_CHANNELS_MAX: nat := 4

  // ------------------------------------------------------------------------ events

  datatype Header = Header(
    deviceId: seq<Byte>, sequence: nat, bootId: seq<Byte>, firmwareVersion: nat, uptimeMs: nat, timestampNs: nat)

  datatype MetricValue =
    | IntMetric(i: int)
    | DoubleMetric(bits: nat)
    | BoolMetric(b: bool)
    | StringMetric(text: seq<Byte>)
    | BytesMetric(blob: seq<Byte>)   // an empty blob is a null pointer in the firmware

  datatype Metric = Metric(key: seq<Byte>, value: MetricValue, unit: seq<Byte>)

  datatype Channel = Channel(key: seq<Byte>, unit: seq<Byte>, scale: Option<nat>, offset: Option<nat>)

  datatype Frame = Frame(
    streamKey: seq<Byte>, intervalNs: nat, sampleCount: nat, encoding: nat, layout: nat,
    channels: seq<Channel>, samples: seq<Byte>)

  datatype Status = Status(status: nat, rssi: int, freeHeap: nat, rebootReason: seq<Byte>)

  datatype Body =
    | MetricSet(metrics: seq<Metric>)
    | SignalFrame(frame: Frame)
    | DeviceStatus(report: Status)

  datatype Event = Event(header: Header, body: Body)

  predicate ValidHeader(h: Header) {
    h.sequence < TWO_64 && h.firmwareVersion < TWO_32 && h.uptimeMs < TWO_64 && h.timestampNs < TWO_64
  }

  predicate ValidMetric(m: Metric) {
    match m.value
    case IntMetric(i) => IsInt64(i)
    case DoubleMetric(bits) => bits < TWO_64
    case _ => true
  }

  predicate ValidChannel(c: Channel) {
    (c.scale.Some? ==> c.scale.value < TWO_32) && (c.offset.Some? ==> c.offset.value < TWO_32)
  }

  predicate ValidBody(b: Body) {
    match b
    case MetricSet(metrics) => forall i :: 0 <= i < |metrics| ==> ValidMetric(metrics[i])
    case SignalFrame(f) =>
      && f.intervalNs < TWO_64 && f.sampleCount < TWO_32 && f.encoding < 5 && f.layout < 3
      && forall i :: 0 <= i < |f.channels| ==> ValidChannel(f.channels[i])
    case DeviceStatus(s) => s.status < 4 && -0x8000_0000 <= s.rssi < 0x8000_0000 && s.freeHeap < TWO_32
  }

  /** What C's integer types guarantee of an event. */
  predicate ValidEvent(e: Event) {
    ValidHeader(e.header) && ValidBody(e.body)
  }

  // ------------------------------------------------------------------- copy_string

  /** The text a C string function sees: up to the first NUL, at most `max` bytes. */
  function Text(source: seq<Byte>, max: nat): (t: seq<Byte>)
    ensures |t| <= max && |t| <= |source| && t == source[..|t|]
    ensures 0 !in t
    ensures |t| < max && |t| < |source| ==> source[|t|] == 0
  {
    if max == 0 || source == [] || source[0] == 0 then []
    else
      var rest := Text(source[1..], max - 1);
      assert [source[0]] + rest == source[..1 + |rest|];
      [source[0]] + rest
  }

  /** Text that already fits and has no NUL is taken whole, and only such text is. */
  lemma {:induction false} TextWhole(source: seq<Byte>, max: nat)
    ensures Text(source, max) == source <==> |source| <= max && 0 !in source
  {
    var t := Text(source, max);
    assert |t| < |source| ==> source[|t|] in source;
  }

  function Zeros(n: nat): (z: seq<Byte>)
    ensures |z| == n && forall i :: 0 <= i < n ==> z[i] == 0
  {
    seq(n, _ => 0)
  }

  /** strncpy into `size` chars, last one NUL. */
  function CopyString(size: nat, source: seq<Byte>): (chars: seq<Byte>)
    requires size >= 1
    ensures |chars| == size
  {
    var t := Text(source, size - 1);
    t + Zeros(size - |t|)
  }

  lemma CopyStringText(size: nat, source: seq<Byte>)
    requires size >= 1
    ensures NulIndex(CopyString(size, source)) == Some(|Text(source, size - 1)|)
    ensures CopyString(size, source)[..|Text(source, size - 1)|] == Text(source, size - 1)
    ensures CopyString(size, source)[0] == 0 <==> Text(source, size - 1) == []
  {
    var t, chars := Text(source, size - 1), CopyString(size, source);
    assert chars[|t|] == 0 && forall i :: 0 <= i < |t| ==> chars[i] == t[i];
    assert forall i :: 0 <= i < |t| ==> t[i] in t;
    var n := NulIndex(chars);
    assert chars[|t|] in chars;
    assert forall i :: 0 <= i < |t| ==> chars[i] != 0;
  }

  // ------------------------------------------------------------------- the trees

  function UintField(tag: nat, u: nat): Field { Field(tag, Singular, Basic(UintValue(u))) }

  function StringField(tag: nat, size: nat, text: seq<Byte>): Field
    requires size >= 1
  {
    Field(tag, Singular, CharArray(CopyString(size, text)))
  }

  /** An arm of a union; arms not selected are never read. */
  function Arm(tag: nat, which: nat, d: Data): Field {
    Field(tag, Oneof(which), if which == tag then d else Submessage(Message([])))
  }

  function ScalarArm(tag: nat, which: nat, s: Scalar, zero: Scalar): Field {
    Field(tag, Oneof(which), Basic(if which == tag then s else zero))
  }

  function BlobArm(tag: nat, which: nat, emission: Emission): Field {
    Field(tag, Oneof(which), Callback(if which == tag then emission else Unset))
  }

  function WhichValue(v: MetricValue): nat {
    match v
    case IntMetric(_) => 2
    case DoubleMetric(_) => 3
    case BoolMetric(_) => 4
    case StringMetric(_) => 5
    case BytesMetric(_) => 6
  }

  /** The string callback writes strlen bytes; the bytes callback refuses a null pointer. */
  function BlobEmission(v: MetricValue): Emission {
    match v
    case StringMetric(text) => Emits([FixedLength(Text(text, |text|))])
    case BytesMetric(blob) => if blob == [] then Refuses else Emits([FixedLength(blob)])
    case _ => Unset
  }

  function MetricFront(m: Metric): seq<Field> {
    var w := WhichValue(m.value);
    var number := if m.value.IntMetric? then m.value.i else 0;
    var bits := if m.value.DoubleMetric? then m.value.bits else 0;
    var flag := m.value.BoolMetric? && m.value.b;
    [StringField(1, 20, m.key),
     ScalarArm(2, w, SintValue(number), SintValue(0)),
     ScalarArm(3, w, Fixed64Value(bits), Fixed64Value(0)),
     ScalarArm(4, w, BoolValue(flag), BoolValue(false))]
  }

  function MetricBack(m: Metric): seq<Field> {
    var w := WhichValue(m.value);
    [BlobArm(5, w, BlobEmission(m.value)), BlobArm(6, w, BlobEmission(m.value)), StringField(7, 8, m.unit)]
  }

  function MetricTree(m: Metric): Message {
    Message(MetricFront(m) + MetricBack(m))
  }

  function Clip<T>(s: seq<T>, max: nat): (r: seq<T>)
    ensures |r| <= max && r <= s
    ensures |s| <= max ==> r == s
  {
    if |s| <= max then s else s[..max]
  }

  function MetricItems(metrics: seq<Metric>): (items: seq<Data>)
    ensures |items| == |metrics|
    ensures forall i :: 0 <= i < |items| ==> items[i] == Submessage(MetricTree(metrics[i]))
  {
    seq(|metrics|, i requires 0 <= i < |metrics| => Submessage(MetricTree(metrics[i])))
  }

  function MetricSetTree(metrics: seq<Metric>): Message {
    Message([Field(1, Repeated, Array(MetricItems(Clip(metrics, MAX_METRICS)), MAX_METRICS))])
  }

  function OptionalField(tag: nat, bits: Option<nat>): Field {
    Field(tag, Optional(bits.Some?), Basic(Fixed32Value(if bits.Some? then bits.value else 0)))
  }

  function ChannelTree(c: Channel): Message {
    Message([StringField(1, 20, c.key), StringField(2, 8, c.unit), OptionalField(3, c.scale), OptionalField(4, c.offset)])
  }

  function ChannelItems(channels: seq<Channel>): (items: seq<Data>)
    ensures |items| == |channels|
    ensures forall i :: 0 <= i < |items| ==> items[i] == Submessage(ChannelTree(channels[i]))
  {
    seq(|channels|, i requires 0 <= i < |channels| => Submessage(ChannelTree(channels[i])))
  }

  /** The channel callback writes one submessage a channel. */
  function ChannelsField(f: Frame): Field {
    Field(6, Repeated, Callback(Emits(ChannelItems(Clip(f.channels, SIGNAL_CHANNELS_MAX)))))
  }

  function SamplesField(f: Frame): Field {
    Field(7, Singular, Callback(Emits([FixedLength(f.samples)])))
  }

  function FrameFront(f: Frame): seq<Field> {
    [StringField(1, 32, f.streamKey), UintField(2, f.intervalNs), UintField(3, f.sampleCount), UintField(4, f.encoding)]
  }

  function FrameBack(f: Frame): seq<Field> {
    [UintField(5, f.layout), ChannelsField(f), SamplesField(f)]
  }

  function FrameTree(f: Frame): Message {
    Message(FrameFront(f) + FrameBack(f))
  }

  function StatusTree(s: Status): Message {
    Message([
      UintField(1, s.status),
      Field(2, Singular, Basic(SintValue(s.rssi))),
      UintField(3, s.freeHeap),
      StringField(4, 24, s.rebootReason)
    ])
  }

  function TelemetryTree(b: Body): Message
    requires !b.DeviceStatus?
  {
    var which := if b.MetricSet? then 1 else 2;
    var inner := Submessage(if b.MetricSet? then MetricSetTree(b.metrics) else FrameTree(b.frame));
    Message([Arm(1, which, inner), Arm(2, which, inner)])
  }

  function BodyData(b: Body): Data {
    Submessage(if b.DeviceStatus? then StatusTree(b.report) else TelemetryTree(b))
  }

  function WhichBody(b: Body): nat { if b.DeviceStatus? then 11 else 10 }

  function EventTypeOf(b: Body): nat { if b.DeviceStatus? then 2 else 1 }

  function HeaderFront(e: Event): seq<Field> {
    [UintField(1, 1), StringField(2, 32, e.header.deviceId), UintField(3, e.header.sequence),
     UintField(4, EventTypeOf(e.body))]
  }

  function HeaderBack(e: Event): seq<Field> {
    [StringField(5, 32, e.header.bootId), UintField(6, e.header.firmwareVersion), UintField(7, e.header.uptimeMs),
     UintField(8, e.header.timestampNs)]
  }

  function HeaderFields(e: Event): seq<Field> {
    HeaderFront(e) + HeaderBack(e)
  }

  /** Telemetry, status and alert; the firmware never selects the last. */
  function BodyArms(b: Body): seq<Field> {
    var w, d := WhichBody(b), BodyData(b);
    [Arm(10, w, d), Arm(11, w, d), Arm(12, w, d)]
  }

  function EventTree(e: Event): Message {
    Message(HeaderFields(e) + BodyArms(e.body))
  }

  // -------------------------------------------------------------------- the schema

  function UintKindOf(): Kind { KScalar(UintKind) }

  function MetricSchema(): Schema {
    Schema(map[1 := KBytes, 2 := KScalar(SintKind), 3 := KScalar(Fixed64Kind), 4 := KScalar(BoolKind),
               5 := KBytes, 6 := KBytes, 7 := KBytes])
  }

  function ChannelSchema(): Schema {
    Schema(map[1 := KBytes, 2 := KBytes, 3 := KScalar(Fixed32Kind), 4 := KScalar(Fixed32Kind)])
  }

  function FrameSchema(): Schema {
    Schema(map[1 := KBytes, 2 := UintKindOf(), 3 := UintKindOf(), 4 := UintKindOf(), 5 := UintKindOf(),
               6 := KMessage(ChannelSchema()), 7 := KBytes])
  }

  function TelemetrySchema(): Schema {
    Schema(map[1 := KMessage(Schema(map[1 := KMessage(MetricSchema())])), 2 := KMessage(FrameSchema())])
  }

  function StatusSchema(): Schema {
    Schema(map[1 := UintKindOf(), 2 := KScalar(SintKind), 3 := UintKindOf(), 4 := KBytes])
  }

  function AlertSchema(): Schema {
    Schema(map[1 := KBytes, 2 := UintKindOf(), 3 := KBytes])
  }

  function EventSchema(): Schema {
    Schema(map[1 := UintKindOf(), 2 := KBytes, 3 := UintKindOf(), 4 := UintKindOf(), 5 := KBytes, 6 := UintKindOf(),
               7 := UintKindOf(), 8 := UintKindOf(), 10 := KMessage(TelemetrySchema()),
               11 := KMessage(StatusSchema()), 12 := KMessage(AlertSchema())])
  }

  lemma MetricConforms(m: Metric)
    ensures Conforms(MetricSchema(), MetricTree(m))
  {
    var fs := MetricTree(m).fields;
    forall i | 0 <= i < |fs| ensures FieldConforms(MetricSchema(), fs[i]) {
      if fs[i].data.Callback? && fs[i].data.emission.Emits? {
        assert |fs[i].data.emission.items| == 1 && fs[i].data.emission.items[0].FixedLength?;
      }
    }
  }

  lemma ChannelConforms(c: Channel)
    ensures Conforms(ChannelSchema(), ChannelTree(c))
  {
  }

  lemma MetricSetConforms(metrics: seq<Metric>)
    ensures Conforms(Schema(map[1 := KMessage(MetricSchema())]), MetricSetTree(metrics))
  {
    var clipped := Clip(metrics, MAX_METRICS);
    forall i | 0 <= i < |clipped| ensures DataConforms(KMessage(MetricSchema()), MetricItems(clipped)[i]) {
      MetricConforms(clipped[i]);
    }
    assert FieldConforms(Schema(map[1 := KMessage(MetricSchema())]), MetricSetTree(metrics).fields[0]);
  }

  lemma FrameConforms(f: Frame)
    ensures Conforms(FrameSchema(), FrameTree(f))
  {
    var channels := Clip(f.channels, SIGNAL_CHANNELS_MAX);
    forall i | 0 <= i < |channels| ensures DataConforms(KMessage(ChannelSchema()), ChannelItems(channels)[i]) {
      ChannelConforms(channels[i]);
    }
    var fs := FrameTree(f).fields;
    assert FieldConforms(FrameSchema(), fs[5]);
    assert FieldConforms(FrameSchema(), fs[6]);
  }

  lemma TelemetryConforms(b: Body)
    requires !b.DeviceStatus?
    ensures Conforms(TelemetrySchema(), TelemetryTree(b))
  {
    var fs := TelemetryTree(b).fields;
    if b.MetricSet? { MetricSetConforms(b.metrics); } else { FrameConforms(b.frame); }
    assert FieldConforms(TelemetrySchema(), fs[0]);
    assert FieldConforms(TelemetrySchema(), fs[1]);
  }

  lemma StatusConforms(s: Status)
    ensures Conforms(StatusSchema(), StatusTree(s))
  {
  }

  lemma ArmConforms(schema: Schema, tag: nat, b: Body)
    requires tag == 10 ==> schema == TelemetrySchema()
    requires tag == 11 ==> schema == StatusSchema()
    ensures DataConforms(KMessage(schema), Arm(tag, WhichBody(b), BodyData(b)).data)
  {
    assert Conforms(schema, Message([]));
    if b.DeviceStatus? { StatusConforms(b.report); } else { TelemetryConforms(b); }
  }

  lemma HeaderConforms(e: Event)
    ensures forall i :: 0 <= i < 8 ==> FieldConforms(EventSchema(), HeaderFields(e)[i])
  {
  }

  /** Every event tree conforms to the ingest schema. */
  lemma EventConforms(e: Event)
    ensures Conforms(EventSchema(), EventTree(e))
  {
    HeaderConforms(e);
    ArmConforms(TelemetrySchema(), 10, e.body);
    ArmConforms(StatusSchema(), 11, e.body);
    ArmConforms(AlertSchema(), 12, e.body);
    var arms := BodyArms(e.body);
    assert forall i :: 0 <= i < 3 ==> FieldConforms(EventSchema(), arms[i]);
  }

  // --------------------------------------------------------------- the receiver's view

  /** All values of a field number, in wire order. */
  function Occurrences(fs: seq<ParsedField>, tag: nat): seq<Parsed> {
    if fs == [] then [] else
    var front, last := fs[..|fs| - 1], fs[|fs| - 1];
    Occurrences(front, tag) + (if last.tag == tag then [last.value] else [])
  }

  lemma {:induction false} OccurrencesConcat(a: seq<ParsedField>, b: seq<ParsedField>, tag: nat)
    ensures Occurrences(a + b, tag) == Occurrences(a, tag) + Occurrences(b, tag)
  {
    if b == [] {
      assert a + b == a;
    } else {
      Seqs.PeelRight(a, b);
      OccurrencesConcat(a, b[..|b| - 1], tag);
    }
  }

  lemma {:induction false} NoOccurrence(fs: seq<ParsedField>, tag: nat)
    requires forall i :: 0 <= i < |fs| ==> fs[i].tag != tag
    ensures Occurrences(fs, tag) == []
  {
    if fs != [] { NoOccurrence(fs[..|fs| - 1], tag); }
  }

  lemma {:induction false} VisibleItemsTag(tag: nat, items: seq<Data>)
    ensures |VisibleItems(tag, items)| == |items|
    ensures forall i :: 0 <= i < |items| ==> VisibleItems(tag, items)[i] == ParsedField(tag, VisibleItem(items[i]))
  {
    if items != [] { VisibleItemsTag(tag, items[..|items| - 1]); }
  }

  lemma VisibleFieldTag(f: Field)
    ensures forall i :: 0 <= i < |VisibleField(f)| ==> VisibleField(f)[i].tag == f.tag
  {
    match f.data
    case Callback(Emits(items)) => VisibleItemsTag(f.tag, items);
    case Array(items, _) => VisibleItemsTag(f.tag, items);
    case _ =>
  }

  predicate DistinctTags(fs: seq<Field>) {
    forall i, j :: 0 <= i < j < |fs| ==> fs[i].tag != fs[j].tag
  }

  /** In a struct with distinct field numbers, what a receiver finds under a number is
      what that one field contributed. */
  lemma {:induction false} OccurrencesOfField(fs: seq<Field>, k: nat)
    requires k < |fs| && DistinctTags(fs)
    ensures Occurrences(VisibleFields(fs), fs[k].tag) == Occurrences(VisibleField(fs[k]), fs[k].tag)
  {
    var front, last := fs[..|fs| - 1], fs[|fs| - 1];
    var tag := fs[k].tag;
    OccurrencesConcat(VisibleFields(front), VisibleField(last), tag);
    if k == |front| {
      OtherFields(front, tag);
    } else {
      OccurrencesOfField(front, k);
      VisibleFieldTag(last);
      NoOccurrence(VisibleField(last), tag);
    }
  }

  lemma {:induction false} OtherFields(fs: seq<Field>, tag: nat)
    requires forall i :: 0 <= i < |fs| ==> fs[i].tag != tag
    ensures Occurrences(VisibleFields(fs), tag) == []
  {
    if fs != [] {
      var front, last := fs[..|fs| - 1], fs[|fs| - 1];
      OccurrencesConcat(VisibleFields(front), VisibleField(last), tag);
      OtherFields(front, tag);
      VisibleFieldTag(last);
      NoOccurrence(VisibleField(last), tag);
    }
  }

  lemma OccurrencesOne(f: ParsedField, tag: nat)
    ensures Occurrences([f], tag) == if f.tag == tag then [f.value] else []
    ensures Occurrences([], tag) == []
  {
    assert [f][..|[f]| - 1] == [];
  }

  // proto3 accessors: the last occurrence counts, an absent field reads as zero

  function Get(fs: seq<ParsedField>, tag: nat): Option<Parsed> {
    var all := Occurrences(fs, tag);
    if all == [] then None else Some(all[|all| - 1])
  }

  function GetUint(fs: seq<ParsedField>, tag: nat): nat {
    match Get(fs, tag) case Some(PScalar(UintValue(u))) => u case _ => 0
  }

  function GetSint(fs: seq<ParsedField>, tag: nat): int {
    match Get(fs, tag) case Some(PScalar(SintValue(z))) => z case _ => 0
  }

  function GetScalar(fs: seq<ParsedField>, tag: nat): Option<Scalar> {
    match Get(fs, tag) case Some(PScalar(s)) => Some(s) case _ => None
  }

  function GetBytes(fs: seq<ParsedField>, tag: nat): seq<Byte> {
    match Get(fs, tag) case Some(PBytes(bytes)) => bytes case _ => []
  }

  function GetMessage(fs: seq<ParsedField>, tag: nat): seq<ParsedField> {
    match Get(fs, tag) case Some(PMessage(inner)) => inner case _ => []
  }

  function GetOptional(fs: seq<ParsedField>, tag: nat): Option<nat> {
    match Get(fs, tag) case Some(PScalar(Fixed32Value(w))) => Some(w) case _ => None
  }

  function MessageFields(p: Parsed): seq<ParsedField> {
    match p case PMessage(fs) => fs case _ => []
  }

  function DecodeMetric(fs: seq<ParsedField>): Metric {
    Metric(GetBytes(fs, 1), DecodeMetricValue(fs), GetBytes(fs, 7))
  }

  function DecodeMetricValue(fs: seq<ParsedField>): MetricValue {
    var number, bits, flag := GetScalar(fs, 2), GetScalar(fs, 3), GetScalar(fs, 4);
    if number.Some? && number.value.SintValue? then IntMetric(number.value.z)
    else if bits.Some? && bits.value.Fixed64Value? then DoubleMetric(bits.value.d)
    else if flag.Some? && flag.value.BoolValue? then BoolMetric(flag.value.b)
    else if Get(fs, 5).Some? then StringMetric(GetBytes(fs, 5))
    else BytesMetric(GetBytes(fs, 6))
  }

  function DecodeChannel(fs: seq<ParsedField>): Channel {
    Channel(GetBytes(fs, 1), GetBytes(fs, 2), GetOptional(fs, 3), GetOptional(fs, 4))
  }

  function DecodeFrame(fs: seq<ParsedField>): Frame {
    var all := Occurrences(fs, 6);
    Frame(GetBytes(fs, 1), GetUint(fs, 2), GetUint(fs, 3), GetUint(fs, 4), GetUint(fs, 5),
          seq(|all|, i requires 0 <= i < |all| => DecodeChannel(MessageFields(all[i]))), GetBytes(fs, 7))
  }

  function DecodeMetrics(fs: seq<ParsedField>): seq<Metric> {
    var all := Occurrences(fs, 1);
    seq(|all|, i requires 0 <= i < |all| => DecodeMetric(MessageFields(all[i])))
  }

  function DecodeBody(fs: seq<ParsedField>): Body {
    if Get(fs, 11).Some? then
      var s := GetMessage(fs, 11);
      DeviceStatus(Status(GetUint(s, 1), GetSint(s, 2), GetUint(s, 3), GetBytes(s, 4)))
    else
      var t := GetMessage(fs, 10);
      if Get(t, 1).Some? then MetricSet(DecodeMetrics(GetMessage(t, 1)))
      else SignalFrame(DecodeFrame(GetMessage(t, 2)))
  }

  /** An event with the schema version and event type that came with it. */
  datatype Arrival = Arrival(schemaVersion: nat, eventType: nat, event: Event)

  /** What a server reconstructs from the parsed tree. */
  function DecodeEvent(fs: seq<ParsedField>): Arrival {
    var header := Header(GetBytes(fs, 2), GetUint(fs, 3), GetBytes(fs, 5), GetUint(fs, 6), GetUint(fs, 7), GetUint(fs, 8));
    Arrival(GetUint(fs, 1), GetUint(fs, 4), Event(header, DecodeBody(fs)))
  }

  // ----------------------------------------------- the event as it leaves the device

  function SentMetric(m: Metric): Metric {
    Metric(Text(m.key, 19),
           if m.value.StringMetric? then StringMetric(Text(m.value.text, |m.value.text|)) else m.value,
           Text(m.unit, 7))
  }

  function SentChannel(c: Channel): Channel {
    c.(key := Text(c.key, 19), unit := Text(c.unit, 7))
  }

  function SentChannels(channels: seq<Channel>): seq<Channel> {
    var clipped := Clip(channels, SIGNAL_CHANNELS_MAX);
    seq(|clipped|, i requires 0 <= i < |clipped| => SentChannel(clipped[i]))
  }

  function SentBody(b: Body): Body {
    match b
    case MetricSet(metrics) =>
      var clipped := Clip(metrics, MAX_METRICS);
      MetricSet(seq(|clipped|, i requires 0 <= i < |clipped| => SentMetric(clipped[i])))
    case SignalFrame(f) =>
      SignalFrame(f.(streamKey := Text(f.streamKey, 31), channels := SentChannels(f.channels)))
    case DeviceStatus(s) => DeviceStatus(s.(rebootReason := Text(s.rebootReason, 23)))
  }

  /** Strings cut to the protobuf struct's arrays, lists cut to their maximum. */
  function Sent(e: Event): Event {
    Event(e.header.(deviceId := Text(e.header.deviceId, 31), bootId := Text(e.header.bootId, 31)), SentBody(e.body))
  }

  // ----------------------------------------------------------------------- round trip

  /** A field that contributes at most one value: that value is what the receiver gets. */
  lemma ReadOwn(fs: seq<Field>, k: nat, own: seq<ParsedField>)
    requires k < |fs| && DistinctTags(fs) && own == VisibleField(fs[k]) && |own| <= 1
    ensures Get(VisibleFields(fs), fs[k].tag) == if own == [] then None else Some(own[0].value)
  {
    OccurrencesOfField(fs, k);
    if own != [] {
      VisibleFieldTag(fs[k]);
      OccurrencesOne(own[0], fs[k].tag);
      assert own == [own[0]];
    }
  }

  lemma ReadUint(fs: seq<Field>, k: nat)
    requires k < |fs| && DistinctTags(fs) && fs[k].presence.Singular? && fs[k].data.Basic? && fs[k].data.scalar.UintValue?
    ensures GetUint(VisibleFields(fs), fs[k].tag) == fs[k].data.scalar.u
  {
    ReadOwn(fs, k, VisibleField(fs[k]));
  }

  lemma ReadSint(fs: seq<Field>, k: nat)
    requires k < |fs| && DistinctTags(fs) && fs[k].presence.Singular? && fs[k].data.Basic? && fs[k].data.scalar.SintValue?
    ensures GetSint(VisibleFields(fs), fs[k].tag) == fs[k].data.scalar.z
  {
    ReadOwn(fs, k, VisibleField(fs[k]));
  }

  lemma ReadString(fs: seq<Field>, k: nat, size: nat, text: seq<Byte>)
    requires size >= 1 && k < |fs| && DistinctTags(fs) && fs[k] == StringField(fs[k].tag, size, text)
    ensures GetBytes(VisibleFields(fs), fs[k].tag) == Text(text, size - 1)
  {
    CopyStringText(size, text);
    ReadOwn(fs, k, VisibleField(fs[k]));
  }

  lemma ReadOptional(fs: seq<Field>, k: nat, bits: Option<nat>)
    requires k < |fs| && DistinctTags(fs) && fs[k] == OptionalField(fs[k].tag, bits)
    ensures GetOptional(VisibleFields(fs), fs[k].tag) == bits
  {
    ReadOwn(fs, k, VisibleField(fs[k]));
  }

  /** A selected arm is always there, even when it holds the zero value; others never are. */
  lemma ReadArm(fs: seq<Field>, k: nat)
    requires k < |fs| && DistinctTags(fs) && fs[k].presence.Oneof?
    requires !fs[k].data.Array? && !fs[k].data.PackedArray? && !fs[k].data.Callback?
    ensures Get(VisibleFields(fs), fs[k].tag)
         == if fs[k].presence.which == fs[k].tag then Some(VisibleItem(fs[k].data)) else None
  {
    ReadOwn(fs, k, VisibleField(fs[k]));
  }

  lemma {:induction false} OccurrencesOfItems(tag: nat, items: seq<Data>)
    ensures |Occurrences(VisibleItems(tag, items), tag)| == |items|
    ensures forall i :: 0 <= i < |items| ==> Occurrences(VisibleItems(tag, items), tag)[i] == VisibleItem(items[i])
  {
    if items != [] {
      OccurrencesOfItems(tag, items[..|items| - 1]);
      var v := VisibleItems(tag, items);
      assert v[..|v| - 1] == VisibleItems(tag, items[..|items| - 1]);
    }
  }

  /** What a callback field or array shows its receiver: its items in order. */
  lemma ReadItems(fs: seq<Field>, k: nat, items: seq<Data>)
    requires k < |fs| && DistinctTags(fs) && Present(fs[k])
    requires fs[k].data == Callback(Emits(items)) || (fs[k].data.Array? && fs[k].data.items == items)
    ensures |Occurrences(VisibleFields(fs), fs[k].tag)| == |items|
    ensures forall i :: 0 <= i < |items| ==> Occurrences(VisibleFields(fs), fs[k].tag)[i] == VisibleItem(items[i])
  {
    OccurrencesOfField(fs, k);
    OccurrencesOfItems(fs[k].tag, items);
  }

  lemma ReadBlobArm(fs: seq<Field>, k: nat, which: nat, emission: Emission)
    requires k < |fs| && DistinctTags(fs) && fs[k] == BlobArm(fs[k].tag, which, emission)
    requires emission.Emits? ==> |emission.items| == 1
    ensures Get(VisibleFields(fs), fs[k].tag)
         == if which == fs[k].tag && emission.Emits? then Some(VisibleItem(emission.items[0])) else None
  {
    BlobArmVisible(fs[k].tag, which, emission);
    ReadOwn(fs, k, VisibleField(fs[k]));
  }

  lemma BlobArmVisible(tag: nat, which: nat, emission: Emission)
    requires emission.Emits? ==> |emission.items| == 1
    ensures VisibleField(BlobArm(tag, which, emission))
         == if which == tag && emission.Emits? then [ParsedField(tag, VisibleItem(emission.items[0]))] else []
  {
    if which == tag && emission.Emits? {
      assert emission.items[..0] == [];
      assert VisibleItems(tag, []) == [];
    }
  }

  lemma MetricTagsDistinct(m: Metric)
    ensures DistinctTags(MetricTree(m).fields)
  {
  }

  lemma MetricText(m: Metric)
    ensures GetBytes(Visible(MetricTree(m)), 1) == Text(m.key, 19)
    ensures GetBytes(Visible(MetricTree(m)), 7) == Text(m.unit, 7)
  {
    MetricTagsDistinct(m);
    ReadString(MetricTree(m).fields, 0, 20, m.key);
    ReadString(MetricTree(m).fields, 6, 8, m.unit);
  }

  /** Of the three scalar arms only the selected one is on the wire. */
  lemma MetricScalars(m: Metric)
    ensures GetScalar(Visible(MetricTree(m)), 2) == if m.value.IntMetric? then Some(SintValue(m.value.i)) else None
    ensures GetScalar(Visible(MetricTree(m)), 3) == if m.value.DoubleMetric? then Some(Fixed64Value(m.value.bits)) else None
    ensures GetScalar(Visible(MetricTree(m)), 4) == if m.value.BoolMetric? then Some(BoolValue(m.value.b)) else None
  {
    MetricTagsDistinct(m);
    ReadArm(MetricTree(m).fields, 1);
    ReadArm(MetricTree(m).fields, 2);
    ReadArm(MetricTree(m).fields, 3);
  }

  lemma MetricBlobs(m: Metric)
    ensures Get(Visible(MetricTree(m)), 5)
         == if m.value.StringMetric? then Some(PBytes(Text(m.value.text, |m.value.text|))) else None
    ensures Get(Visible(MetricTree(m)), 6)
         == if m.value.BytesMetric? && m.value.blob != [] then Some(PBytes(m.value.blob)) else None
  {
    MetricTagsDistinct(m);
    ReadBlobArm(MetricTree(m).fields, 4, WhichValue(m.value), BlobEmission(m.value));
    ReadBlobArm(MetricTree(m).fields, 5, WhichValue(m.value), BlobEmission(m.value));
  }

  lemma MetricDecodes(m: Metric)
    ensures DecodeMetric(Visible(MetricTree(m))) == SentMetric(m)
  {
    MetricText(m);
    MetricScalars(m);
    MetricBlobs(m);
    AssembleMetric(Visible(MetricTree(m)), SentMetric(m).value);
  }

  lemma AssembleMetric(v: seq<ParsedField>, value: MetricValue)
    requires GetScalar(v, 2) == if value.IntMetric? then Some(SintValue(value.i)) else None
    requires GetScalar(v, 3) == if value.DoubleMetric? then Some(Fixed64Value(value.bits)) else None
    requires GetScalar(v, 4) == if value.BoolMetric? then Some(BoolValue(value.b)) else None
    requires Get(v, 5) == if value.StringMetric? then Some(PBytes(value.text)) else None
    requires Get(v, 6) == if value.BytesMetric? && value.blob != [] then Some(PBytes(value.blob)) else None
    ensures DecodeMetricValue(v) == value
  {
  }

  /** A channel under the field numbers of ingest.proto. */
  lemma ChannelTags(c: Channel)
    ensures var v := Visible(ChannelTree(c));
            && GetBytes(v, 1) == Text(c.key, 19) && GetBytes(v, 2) == Text(c.unit, 7)
            && GetOptional(v, 3) == c.scale && GetOptional(v, 4) == c.offset
  {
    var fs := ChannelTree(c).fields;
    ReadString(fs, 0, 20, c.key);
    ReadString(fs, 1, 8, c.unit);
    ReadOptional(fs, 2, c.scale);
    ReadOptional(fs, 3, c.offset);
  }

  lemma ChannelDecodes(c: Channel)
    ensures DecodeChannel(Visible(ChannelTree(c))) == SentChannel(c)
  {
    ChannelTags(c);
  }

  lemma MetricSetDecodes(metrics: seq<Metric>)
    ensures MetricSet(DecodeMetrics(Visible(MetricSetTree(metrics)))) == SentBody(MetricSet(metrics))
  {
    var fs, clipped := MetricSetTree(metrics).fields, Clip(metrics, MAX_METRICS);
    ReadItems(fs, 0, MetricItems(clipped));
    forall i | 0 <= i < |clipped| ensures DecodeMetric(Visible(MetricTree(clipped[i]))) == SentMetric(clipped[i]) {
      MetricDecodes(clipped[i]);
    }
    DecodedAll(VisibleFields(fs), clipped);
  }

  lemma DecodedAll(fs: seq<ParsedField>, metrics: seq<Metric>)
    requires |Occurrences(fs, 1)| == |metrics| <= MAX_METRICS
    requires forall i :: 0 <= i < |metrics| ==> Occurrences(fs, 1)[i] == PMessage(Visible(MetricTree(metrics[i])))
    requires forall i :: 0 <= i < |metrics| ==> DecodeMetric(Visible(MetricTree(metrics[i]))) == SentMetric(metrics[i])
    ensures MetricSet(DecodeMetrics(fs)) == SentBody(MetricSet(metrics))
  {
    var decoded, sent := DecodeMetrics(fs), SentBody(MetricSet(metrics)).metrics;
    forall i | 0 <= i < |metrics| ensures decoded[i] == sent[i] {}
  }

  lemma FrameNumbers(f: Frame)
    ensures DistinctTags(FrameTree(f).fields)
    ensures GetBytes(Visible(FrameTree(f)), 1) == Text(f.streamKey, 31)
    ensures GetUint(Visible(FrameTree(f)), 2) == f.intervalNs
    ensures GetUint(Visible(FrameTree(f)), 3) == f.sampleCount
    ensures GetUint(Visible(FrameTree(f)), 4) == f.encoding
    ensures GetUint(Visible(FrameTree(f)), 5) == f.layout
  {
    var fs := FrameTree(f).fields;
    assert DistinctTags(fs);
    ReadString(fs, 0, 32, f.streamKey);
    ReadUint(fs, 1);
    ReadUint(fs, 2);
    ReadUint(fs, 3);
    ReadUint(fs, 4);
  }

  lemma FrameLists(f: Frame)
    ensures var all := Occurrences(Visible(FrameTree(f)), 6);
            var clipped := Clip(f.channels, SIGNAL_CHANNELS_MAX);
            |all| == |clipped|
            && forall i :: 0 <= i < |all| ==> all[i] == PMessage(Visible(ChannelTree(clipped[i])))
    ensures GetBytes(Visible(FrameTree(f)), 7) == f.samples
  {
    FrameNumbers(f);
    ReadItems(FrameTree(f).fields, 5, ChannelItems(Clip(f.channels, SIGNAL_CHANNELS_MAX)));
    SamplesVisible(f);
    ReadOwn(FrameTree(f).fields, 6, VisibleField(SamplesField(f)));
  }

  lemma SamplesVisible(f: Frame)
    ensures VisibleField(SamplesField(f)) == [ParsedField(7, PBytes(f.samples))]
  {
    var items := [FixedLength(f.samples)];
    assert items[..|items| - 1] == [];
    assert VisibleItems(7, items) == [] + [ParsedField(7, VisibleItem(items[0]))];
  }

  lemma FrameDecodes(f: Frame)
    ensures SignalFrame(DecodeFrame(Visible(FrameTree(f)))) == SentBody(SignalFrame(f))
  {
    var clipped := Clip(f.channels, SIGNAL_CHANNELS_MAX);
    FrameNumbers(f);
    FrameLists(f);
    forall i | 0 <= i < |clipped| ensures DecodeChannel(Visible(ChannelTree(clipped[i]))) == SentChannel(clipped[i]) {
      ChannelDecodes(clipped[i]);
    }
    assert DecodeFrame(Visible(FrameTree(f))).channels == SentBody(SignalFrame(f)).frame.channels;
  }

  lemma StatusDecodes(s: Status)
    ensures var v := Visible(StatusTree(s));
            DeviceStatus(Status(GetUint(v, 1), GetSint(v, 2), GetUint(v, 3), GetBytes(v, 4))) == SentBody(DeviceStatus(s))
  {
    var fs := StatusTree(s).fields;
    ReadUint(fs, 0);
    ReadSint(fs, 1);
    ReadUint(fs, 2);
    ReadString(fs, 3, 24, s.rebootReason);
  }

  lemma EventTagsDistinct(e: Event)
    ensures DistinctTags(EventTree(e).fields)
  {
  }

  lemma EventArms(e: Event)
    ensures Get(Visible(EventTree(e)), 10) == if e.body.DeviceStatus? then None else Some(VisibleItem(BodyData(e.body)))
    ensures Get(Visible(EventTree(e)), 11) == if e.body.DeviceStatus? then Some(VisibleItem(BodyData(e.body))) else None
  {
    EventTagsDistinct(e);
    ReadArm(EventTree(e).fields, 8);
    ReadArm(EventTree(e).fields, 9);
  }

  lemma TelemetryArms(b: Body)
    requires !b.DeviceStatus?
    ensures var v := Visible(TelemetryTree(b));
            && (b.MetricSet? ==> Get(v, 1) == Some(PMessage(Visible(MetricSetTree(b.metrics)))))
            && (b.SignalFrame? ==> Get(v, 1) == None && Get(v, 2) == Some(PMessage(Visible(FrameTree(b.frame)))))
  {
    ReadArm(TelemetryTree(b).fields, 0);
    ReadArm(TelemetryTree(b).fields, 1);
  }

  lemma AssembleMetricSet(v: seq<ParsedField>, inner: seq<ParsedField>, payload: seq<ParsedField>)
    requires Get(v, 10) == Some(PMessage(inner)) && Get(v, 11) == None && Get(inner, 1) == Some(PMessage(payload))
    ensures DecodeBody(v) == MetricSet(DecodeMetrics(payload))
  {
    assert GetMessage(v, 10) == inner && GetMessage(inner, 1) == payload;
  }

  lemma AssembleFrame(v: seq<ParsedField>, inner: seq<ParsedField>, payload: seq<ParsedField>)
    requires Get(v, 10) == Some(PMessage(inner)) && Get(v, 11) == None
    requires Get(inner, 1) == None && Get(inner, 2) == Some(PMessage(payload))
    ensures DecodeBody(v) == SignalFrame(DecodeFrame(payload))
  {
    assert GetMessage(v, 10) == inner && GetMessage(inner, 2) == payload;
  }

  lemma BodyDecodes(e: Event)
    ensures DecodeBody(Visible(EventTree(e))) == SentBody(e.body)
  {
    EventArms(e);
    if e.body.DeviceStatus? {
      StatusDecodes(e.body.report);
    } else {
      var v, inner := Visible(EventTree(e)), Visible(TelemetryTree(e.body));
      TelemetryArms(e.body);
      if e.body.MetricSet? {
        MetricSetDecodes(e.body.metrics);
        AssembleMetricSet(v, inner, Visible(MetricSetTree(e.body.metrics)));
      } else {
        FrameDecodes(e.body.frame);
        AssembleFrame(v, inner, Visible(FrameTree(e.body.frame)));
      }
    }
  }

  /** What arrives: schema version 1, the type of the body, and the event as sent. */
  function Announced(e: Event): Arrival {
    Arrival(1, if e.body.DeviceStatus? then 2 else 1, Sent(e))
  }

  /** The header under the field numbers of ingest.proto. */
  lemma HeaderTags(e: Event)
    ensures var v := Visible(EventTree(e));
            && GetUint(v, 1) == 1 && GetBytes(v, 2) == Text(e.header.deviceId, 31) && GetUint(v, 3) == e.header.sequence
            && GetUint(v, 4) == (if e.body.DeviceStatus? then 2 else 1) && GetBytes(v, 5) == Text(e.header.bootId, 31)
            && GetUint(v, 6) == e.header.firmwareVersion && GetUint(v, 7) == e.header.uptimeMs
            && GetUint(v, 8) == e.header.timestampNs
  {
    var fs := EventTree(e).fields;
    EventTagsDistinct(e);
    ReadUint(fs, 0);
    ReadString(fs, 1, 32, e.header.deviceId);
    ReadUint(fs, 2);
    ReadUint(fs, 3);
    ReadString(fs, 4, 32, e.header.bootId);
    ReadUint(fs, 5);
    ReadUint(fs, 6);
    ReadUint(fs, 7);
  }

  lemma EventDecodes(e: Event)
    ensures DecodeEvent(Visible(EventTree(e))) == Announced(e)
  {
    HeaderTags(e);
    BodyDecodes(e);
  }

  /** The whole path: a server that parses an event's bytes against the ingest schema and
      reads the result with proto3 defaults has the event the device sent. */
  lemma EventRoundTrip(e: Event)
    requires Representable(EventTree(e)) && MessageBytes(EventTree(e)).Some?
    ensures var parsed := ParseMessage(EventSchema(), MessageBytes(EventTree(e)).value);
            parsed.Some? && DecodeEvent(parsed.value) == Announced(e)
  {
    EventConforms(e);
    RoundTrip(EventSchema(), EventTree(e));
    EventDecodes(e);
  }
}
