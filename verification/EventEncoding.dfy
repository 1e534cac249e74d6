/**
 How large the firmware's events become, and when they can be encoded at all. The main result
 is that every signal frame that passes validation encodes within its sample bytes plus the
 reserved overhead, so the uploader's encode step is never refused on a validated frame.
 */
module EventEncoding {
  import opened Wrappers
  import opened Varint
  import opened WireFormat
  import opened Message
  import opened IngestEvent
  import opened Encoder
  import opened FrameInput

  /** AETUS_SIGNAL_FRAME_ENCODE_OVERHEAD_BYTES */
  const ENCODE_OVERHEAD: nat := 512

  // -------------------------------------------------------------------- size algebra

  /** The fields encode, in at most `n` bytes. */
  predicate Within(fs: seq<Field>, n: nat) {
    FieldsRecords(fs).Some? && |Written(FieldsRecords(fs).value)| <= n
  }

  predicate FieldWithin(f: Field, n: nat) {
    FieldRecords(f).Some? && |Written(FieldRecords(f).value)| <= n
  }

  lemma WithinCat(a: seq<Field>, b: seq<Field>, m: nat, n: nat)
    requires Within(a, m) && Within(b, n)
    ensures Within(a + b, m + n)
  {
    FieldsConcat(a, b);
    WrittenConcat(FieldsRecords(a).value, FieldsRecords(b).value);
  }

  lemma WithinOne(f: Field, n: nat)
    requires FieldWithin(f, n)
    ensures Within([f], n)
  {
    assert [f][..|[f]| - 1] == [];
    CatEmpty(FieldRecords(f));
  }

  lemma WithinTwo(f: Field, g: Field, m: nat, n: nat)
    requires FieldWithin(f, m) && FieldWithin(g, n)
    ensures Within([f, g], m + n)
  {
    WithinOne(f, m);
    WithinOne(g, n);
    WithinCat([f], [g], m, n);
    assert [f] + [g] == [f, g];
  }

  lemma WithinThree(f: Field, g: Field, h: Field, m: nat, n: nat, o: nat)
    requires FieldWithin(f, m) && FieldWithin(g, n) && FieldWithin(h, o)
    ensures Within([f, g, h], m + n + o)
  {
    WithinTwo(f, g, m, n);
    WithinOne(h, o);
    WithinCat([f, g], [h], m + n, o);
    assert [f, g] + [h] == [f, g, h];
  }

  lemma WithinFour(f: Field, g: Field, h: Field, k: Field, m: nat, n: nat, o: nat, p: nat)
    requires FieldWithin(f, m) && FieldWithin(g, n) && FieldWithin(h, o) && FieldWithin(k, p)
    ensures Within([f, g, h, k], m + n + o + p)
  {
    WithinTwo(f, g, m, n);
    WithinTwo(h, k, o, p);
    WithinCat([f, g], [h, k], m + n, o + p);
    assert [f, g] + [h, k] == [f, g, h, k];
  }

  // ------------------------------------------------------------------ sizes of fields

  lemma RecordSize(tag: nat, p: Payload)
    requires tag < 16 && !p.RawPayload?
    ensures |RecordBytes(Record(tag, p))| == 1 + |PayloadBytes(p)|
    ensures p.LenPayload? && |p.bytes| < TWO_32 ==> |PayloadBytes(p)| <= 5 + |p.bytes|
    ensures p.LenPayload? && |p.bytes| < 128 ==> |PayloadBytes(p)| == 1 + |p.bytes|
  {
    if p.LenPayload? { EncodedLength(|p.bytes|); }
  }

  lemma StringFieldSize(tag: nat, size: nat, text: seq<Byte>)
    requires tag < 16 && 1 <= size <= 128
    ensures FieldWithin(StringField(tag, size, text), size + 1)
  {
    CopyStringText(size, text);
    var f := StringField(tag, size, text);
    if Present(f) {
      var r := Record(tag, ItemPayload(f.data).value);
      WrittenOne(r);
      RecordSize(tag, r.payload);
    }
  }

  /** A scalar under any presence rule takes at most eleven bytes, less for small types. */
  lemma ScalarFieldSize(f: Field)
    requires f.tag < 16 && f.data.Basic? && ValidScalar(f.data.scalar) && !f.presence.Repeated?
    ensures FieldWithin(f, 11)
    ensures f.data.scalar.Fixed32Value? ==> FieldWithin(f, 5)
    ensures f.data.scalar.SintValue? && -0x8000_0000 <= f.data.scalar.z < 0x8000_0000 ==> FieldWithin(f, 6)
    ensures f.data.scalar.UintValue? && f.data.scalar.u < TWO_32 ==> FieldWithin(f, 6)
    ensures f.data.scalar.UintValue? && f.data.scalar.u < 128 ==> FieldWithin(f, 2)
  {
    if Present(f) {
      var p := ScalarPayload(f.data.scalar);
      assert ItemPayload(f.data) == Some(p) && FieldRecords(f) == ItemRecord(f.tag, f.data);
      WrittenOne(Record(f.tag, p));
      RecordSize(f.tag, p);
      if p.VarintPayload? { EncodedLength(p.v); }
      if f.data.scalar.SintValue? { ZigzagRoundTrip(f.data.scalar.z); }
    } else {
      assert FieldRecords(f) == Some([]);
    }
  }

  lemma ItemSize(tag: nat, d: Data, n: nat)
    requires tag < 16 && ItemPayload(d).Some? && ItemPayload(d).value.LenPayload?
    requires |ItemPayload(d).value.bytes| <= n < TWO_32
    ensures ItemRecord(tag, d).Some? && |Written(ItemRecord(tag, d).value)| <= 6 + n
    ensures n < 128 ==> |Written(ItemRecord(tag, d).value)| <= 2 + n
  {
    WrittenOne(Record(tag, ItemPayload(d).value));
    RecordSize(tag, ItemPayload(d).value);
  }

  /** A union arm holding a message of at most `n` bytes. */
  lemma ArmSize(tag: nat, which: nat, m: Message, n: nat)
    requires tag < 16 && n < TWO_32 && (which == tag ==> Within(m.fields, n))
    ensures FieldWithin(Arm(tag, which, Submessage(m)), if which == tag then 6 + n else 0)
  {
    if which == tag { ItemSize(tag, Submessage(m), n); }
  }

  /** One more value of a repeated field. */
  lemma ItemsSnoc(tag: nat, front: seq<Data>, last: Data, m: nat, n: nat)
    requires ItemsRecords(tag, front).Some? && |Written(ItemsRecords(tag, front).value)| <= m
    requires ItemRecord(tag, last).Some? && |Written(ItemRecord(tag, last).value)| <= n
    ensures ItemsRecords(tag, front + [last]).Some? && |Written(ItemsRecords(tag, front + [last]).value)| <= m + n
  {
    var items := front + [last];
    assert items[..|items| - 1] == front && items[|items| - 1] == last;
    WrittenConcat(ItemsRecords(tag, front).value, ItemRecord(tag, last).value);
  }

  // ------------------------------------------------------------------ sizes of events

  lemma ChannelSize(c: Channel)
    requires ValidChannel(c)
    ensures Within(ChannelTree(c).fields, 40)
  {
    StringFieldSize(1, 20, c.key);
    StringFieldSize(2, 8, c.unit);
    ScalarFieldSize(OptionalField(3, c.scale));
    ScalarFieldSize(OptionalField(4, c.offset));
    WithinFour(StringField(1, 20, c.key), StringField(2, 8, c.unit), OptionalField(3, c.scale), OptionalField(4, c.offset),
               21, 9, 5, 5);
  }

  lemma ChannelItemsPeel(channels: seq<Channel>)
    requires channels != []
    ensures ChannelItems(channels)
         == ChannelItems(channels[..|channels| - 1]) + [Submessage(ChannelTree(channels[|channels| - 1]))]
  {
  }

  lemma {:induction false} ChannelItemsSize(channels: seq<Channel>)
    requires forall i :: 0 <= i < |channels| ==> ValidChannel(channels[i])
    ensures ItemsRecords(6, ChannelItems(channels)).Some?
    ensures |Written(ItemsRecords(6, ChannelItems(channels)).value)| <= 42 * |channels|
  {
    if channels != [] {
      var front, last := channels[..|channels| - 1], channels[|channels| - 1];
      ChannelItemsSize(front);
      ChannelItemSize(last);
      ItemsSnoc(6, ChannelItems(front), Submessage(ChannelTree(last)), 42 * |front|, 42);
      ChannelItemsPeel(channels);
    }
  }

  lemma ChannelItemSize(c: Channel)
    requires ValidChannel(c)
    ensures var r := ItemRecord(6, Submessage(ChannelTree(c))); r.Some? && |Written(r.value)| <= 42
  {
    ChannelSize(c);
    ItemSize(6, Submessage(ChannelTree(c)), 40);
  }

  lemma ItemsOne(tag: nat, d: Data)
    ensures ItemsRecords(tag, [d]) == ItemRecord(tag, d)
  {
    assert [d][..|[d]| - 1] == [];
    CatEmpty(ItemRecord(tag, d));
  }

  lemma SamplesSize(f: Frame)
    requires |f.samples| < TWO_32
    ensures FieldWithin(SamplesField(f), 6 + |f.samples|)
  {
    var d := FixedLength(f.samples);
    ItemsOne(7, d);
    assert FieldRecords(SamplesField(f)) == ItemsRecords(7, [d]);
    ItemSize(7, d, |f.samples|);
  }

  lemma ChannelsSize(f: Frame)
    requires ValidBody(SignalFrame(f))
    ensures FieldWithin(ChannelsField(f), 168)
  {
    var channels := Clip(f.channels, SIGNAL_CHANNELS_MAX);
    assert FieldRecords(ChannelsField(f)) == ItemsRecords(6, ChannelItems(channels));
    ChannelItemsSize(channels);
  }

  lemma FrameFrontSize(f: Frame)
    requires ValidBody(SignalFrame(f))
    ensures Within(FrameFront(f), 52)
  {
    StringFieldSize(1, 32, f.streamKey);
    ScalarFieldSize(UintField(2, f.intervalNs));
    ScalarFieldSize(UintField(3, f.sampleCount));
    ScalarFieldSize(UintField(4, f.encoding));
    WithinFour(StringField(1, 32, f.streamKey), UintField(2, f.intervalNs), UintField(3, f.sampleCount),
               UintField(4, f.encoding), 33, 11, 6, 2);
  }

  lemma FrameSize(f: Frame)
    requires ValidBody(SignalFrame(f)) && |f.samples| < TWO_32
    ensures Within(FrameTree(f).fields, 228 + |f.samples|)
  {
    FrameFrontSize(f);
    ScalarFieldSize(UintField(5, f.layout));
    ChannelsSize(f);
    SamplesSize(f);
    WithinThree(UintField(5, f.layout), ChannelsField(f), SamplesField(f), 2, 168, 6 + |f.samples|);
    WithinCat(FrameFront(f), FrameBack(f), 52, 176 + |f.samples|);
  }

  lemma StatusSize(s: Status)
    requires ValidBody(DeviceStatus(s))
    ensures Within(StatusTree(s).fields, 39)
  {
    var fs := StatusTree(s).fields;
    ScalarFieldSize(UintField(1, s.status));
    ScalarFieldSize(fs[1]);
    ScalarFieldSize(UintField(3, s.freeHeap));
    StringFieldSize(4, 24, s.rebootReason);
    WithinFour(fs[0], fs[1], fs[2], fs[3], 2, 6, 6, 25);
  }

  lemma HeaderSize(e: Event)
    requires ValidHeader(e.header)
    ensures Within(HeaderFields(e), 109)
  {
    var h := e.header;
    ScalarFieldSize(UintField(1, 1));
    StringFieldSize(2, 32, h.deviceId);
    ScalarFieldSize(UintField(3, h.sequence));
    ScalarFieldSize(UintField(4, EventTypeOf(e.body)));
    StringFieldSize(5, 32, h.bootId);
    ScalarFieldSize(UintField(6, h.firmwareVersion));
    ScalarFieldSize(UintField(7, h.uptimeMs));
    ScalarFieldSize(UintField(8, h.timestampNs));
    WithinFour(UintField(1, 1), StringField(2, 32, h.deviceId), UintField(3, h.sequence),
               UintField(4, EventTypeOf(e.body)), 2, 33, 11, 2);
    WithinFour(StringField(5, 32, h.bootId), UintField(6, h.firmwareVersion), UintField(7, h.uptimeMs),
               UintField(8, h.timestampNs), 33, 6, 11, 11);
    WithinCat(HeaderFront(e), HeaderBack(e), 48, 61);
  }

  function BodyMessage(b: Body): Message { BodyData(b).msg }

  /** An event is its header plus its body's message. */
  lemma EventSize(e: Event, n: nat)
    requires ValidHeader(e.header) && n < TWO_32 && Within(BodyMessage(e.body).fields, n)
    ensures Within(EventTree(e).fields, 115 + n)
  {
    HeaderSize(e);
    var w, m, arms := WhichBody(e.body), BodyMessage(e.body), BodyArms(e.body);
    ArmSize(10, w, m, n);
    ArmSize(11, w, m, n);
    ArmSize(12, w, m, n);
    WithinThree(arms[0], arms[1], arms[2], if w == 10 then 6 + n else 0, if w == 11 then 6 + n else 0, 0);
    assert [arms[0], arms[1], arms[2]] == arms;
    WithinCat(HeaderFields(e), arms, 109, 6 + n);
  }

  lemma TelemetrySize(b: Body, n: nat)
    requires !b.DeviceStatus? && n < TWO_32
    requires b.MetricSet? ==> Within(MetricSetTree(b.metrics).fields, n)
    requires b.SignalFrame? ==> Within(FrameTree(b.frame).fields, n)
    ensures Within(TelemetryTree(b).fields, 6 + n)
  {
    var which := if b.MetricSet? then 1 else 2;
    var m := if b.MetricSet? then MetricSetTree(b.metrics) else FrameTree(b.frame);
    ArmSize(1, which, m, n);
    ArmSize(2, which, m, n);
    WithinTwo(Arm(1, which, Submessage(m)), Arm(2, which, Submessage(m)),
              if which == 1 then 6 + n else 0, if which == 2 then 6 + n else 0);
  }

  /** Every signal event encodes, in at most 349 bytes more than its samples. */
  lemma SignalEventSize(e: Event)
    requires ValidEvent(e) && e.body.SignalFrame? && |e.body.frame.samples| <= SAMPLES_ABSOLUTE_MAX
    ensures MessageBytes(EventTree(e)).Some?
    ensures |MessageBytes(EventTree(e)).value| <= |e.body.frame.samples| + 349 <= |e.body.frame.samples| + ENCODE_OVERHEAD
  {
    var n := |e.body.frame.samples|;
    FrameSize(e.body.frame);
    TelemetrySize(e.body, 228 + n);
    EventSize(e, 234 + n);
  }

  /** Every status event encodes, in at most 154 bytes. */
  lemma StatusEventSize(e: Event)
    requires ValidEvent(e) && e.body.DeviceStatus?
    ensures MessageBytes(EventTree(e)).Some? && |MessageBytes(EventTree(e)).value| <= 154
  {
    StatusSize(e.body.report);
    EventSize(e, 39);
  }

  // ------------------------------------------------------------------- metric events

  /** The bytes callback refuses the null pointer that stands for an empty blob. */
  predicate EncodableMetric(m: Metric) {
    m.value != BytesMetric([])
  }

  function BlobLength(v: MetricValue): nat {
    match v
    case StringMetric(text) => |text|
    case BytesMetric(blob) => |blob|
    case _ => 0
  }

  function TotalBlobs(metrics: seq<Metric>): nat {
    if metrics == [] then 0
    else TotalBlobs(metrics[..|metrics| - 1]) + BlobLength(metrics[|metrics| - 1].value)
  }

  lemma BlobArmSize(tag: nat, v: MetricValue)
    requires tag < 16 && BlobLength(v) < TWO_32 && v != BytesMetric([])
    ensures FieldWithin(BlobArm(tag, WhichValue(v), BlobEmission(v)), if WhichValue(v) == tag then 6 + BlobLength(v) else 0)
  {
    var f, emission := BlobArm(tag, WhichValue(v), BlobEmission(v)), BlobEmission(v);
    if WhichValue(v) == tag && emission.Emits? {
      var d := emission.items[0];
      assert emission.items == [d];
      ItemsOne(tag, d);
      assert FieldRecords(f) == ItemsRecords(tag, [d]);
      ItemSize(tag, d, BlobLength(v));
    } else {
      assert FieldRecords(f) == Some([]);
    }
  }

  lemma MetricFrontSize(m: Metric)
    requires ValidMetric(m)
    ensures Within(MetricFront(m), 54)
  {
    var fs := MetricFront(m);
    StringFieldSize(1, 20, m.key);
    ScalarFieldSize(fs[1]);
    ScalarFieldSize(fs[2]);
    ScalarFieldSize(fs[3]);
    WithinFour(fs[0], fs[1], fs[2], fs[3], 21, 11, 11, 11);
  }

  lemma MetricSize(m: Metric)
    requires ValidMetric(m) && EncodableMetric(m) && BlobLength(m.value) < TWO_32
    ensures Within(MetricTree(m).fields, 69 + BlobLength(m.value))
  {
    var fs, n, w := MetricBack(m), BlobLength(m.value), WhichValue(m.value);
    MetricFrontSize(m);
    BlobArmSize(5, m.value);
    BlobArmSize(6, m.value);
    StringFieldSize(7, 8, m.unit);
    WithinThree(fs[0], fs[1], fs[2], if w == 5 then 6 + n else 0, if w == 6 then 6 + n else 0, 9);
    WithinCat(MetricFront(m), fs, 54, if w >= 5 then 15 + n else 9);
  }

  lemma FailingField(fs: seq<Field>, k: nat)
    requires k < |fs| && FieldRecords(fs[k]).None?
    ensures FieldsRecords(fs).None?
  {
    FieldsNext(fs, k);
    FieldsSplit(fs, k + 1);
  }

  lemma MetricFails(m: Metric)
    requires !EncodableMetric(m)
    ensures FieldsRecords(MetricTree(m).fields).None?
  {
    FailingField(MetricBack(m), 1);
    FieldsConcat(MetricFront(m), MetricBack(m));
  }

  lemma MetricItemsPeel(metrics: seq<Metric>)
    requires metrics != []
    ensures MetricItems(metrics)
         == MetricItems(metrics[..|metrics| - 1]) + [Submessage(MetricTree(metrics[|metrics| - 1]))]
  {
  }

  lemma {:induction false} MetricItemsSize(metrics: seq<Metric>)
    requires forall i :: 0 <= i < |metrics| ==> ValidMetric(metrics[i]) && EncodableMetric(metrics[i])
    requires TotalBlobs(metrics) < 0x8000_0000
    ensures ItemsRecords(1, MetricItems(metrics)).Some?
    ensures |Written(ItemsRecords(1, MetricItems(metrics)).value)| <= 75 * |metrics| + TotalBlobs(metrics)
  {
    if metrics != [] {
      var front, last := metrics[..|metrics| - 1], metrics[|metrics| - 1];
      var d, n := Submessage(MetricTree(last)), 69 + BlobLength(last.value);
      MetricItemsSize(front);
      MetricItemsPeel(metrics);
      MetricSize(last);
      ItemSize(1, d, n);
      ItemsSnoc(1, MetricItems(front), d, 75 * |front| + TotalBlobs(front), 6 + n);
    }
  }

  lemma MetricItemsFail(metrics: seq<Metric>, k: nat)
    requires k < |metrics| && !EncodableMetric(metrics[k])
    ensures ItemsRecords(1, MetricItems(metrics)).None?
  {
    var items := MetricItems(metrics);
    MetricFails(metrics[k]);
    assert ItemRecord(1, items[k]).None?;
    ItemsNext(1, items, k);
    ItemsSplit(1, items, k + 1);
  }

  /** The metrics that are sent: the first 32. */
  function SentMetrics(e: Event): seq<Metric>
    requires e.body.MetricSet?
  {
    Clip(e.body.metrics, MAX_METRICS)
  }

  predicate AllEncodable(e: Event) {
    e.body.MetricSet? ==> forall i :: 0 <= i < |SentMetrics(e)| ==> EncodableMetric(SentMetrics(e)[i])
  }

  /** The address-space limit on what an event may refer to. */
  predicate Addressable(e: Event) {
    match e.body
    case MetricSet(metrics) => TotalBlobs(SentMetrics(e)) < 0x8000_0000
    case SignalFrame(f) => |f.samples| <= SAMPLES_ABSOLUTE_MAX
    case DeviceStatus(_) => true
  }

  lemma MetricSetSize(e: Event)
    requires ValidEvent(e) && e.body.MetricSet? && Addressable(e)
    ensures var fs := MetricSetTree(e.body.metrics).fields;
            if AllEncodable(e) then Within(fs, 2400 + TotalBlobs(SentMetrics(e))) else FieldsRecords(fs).None?
  {
    var ms, f := SentMetrics(e), MetricSetTree(e.body.metrics).fields[0];
    assert FieldRecords(f) == ItemsRecords(1, MetricItems(ms));
    assert MetricSetTree(e.body.metrics).fields == [f];
    if AllEncodable(e) {
      MetricItemsSize(ms);
      WithinOne(f, 2400 + TotalBlobs(ms));
    } else {
      var k: nat :| k < |ms| && !EncodableMetric(ms[k]);
      MetricItemsFail(ms, k);
      FailingField([f], 0);
    }
  }

  /** A union none of whose arms can be encoded makes its message fail. */
  lemma FailingArm(fs: seq<Field>, k: nat, m: Message)
    requires k < |fs| && fs[k] == Arm(fs[k].tag, fs[k].tag, Submessage(m)) && FieldsRecords(m.fields).None?
    ensures FieldsRecords(fs).None?
  {
    assert ItemPayload(Submessage(m)).None? && FieldRecords(fs[k]) == ItemRecord(fs[k].tag, Submessage(m));
    FailingField(fs, k);
  }

  function BodyBound(e: Event): nat {
    match e.body
    case MetricSet(metrics) => 2406 + TotalBlobs(SentMetrics(e))
    case SignalFrame(f) => 234 + |f.samples|
    case DeviceStatus(_) => 39
  }

  lemma BodySize(e: Event)
    requires ValidEvent(e) && Addressable(e)
    ensures var fs := BodyMessage(e.body).fields;
            if AllEncodable(e) then Within(fs, BodyBound(e)) else FieldsRecords(fs).None?
  {
    match e.body
    case DeviceStatus(s) => StatusSize(s);
    case SignalFrame(f) =>
      FrameSize(f);
      TelemetrySize(e.body, 228 + |f.samples|);
    case MetricSet(metrics) =>
      MetricSetSize(e);
      if AllEncodable(e) {
        TelemetrySize(e.body, 2400 + TotalBlobs(SentMetrics(e)));
      } else {
        FailingArm(TelemetryTree(e.body).fields, 0, MetricSetTree(metrics));
      }
  }

  /** When an event can be encoded at all, given room: always, except that one empty byte
      blob among the metrics that are sent makes the whole event fail. */
  lemma EncodableIff(e: Event)
    requires ValidEvent(e) && Addressable(e)
    ensures MessageBytes(EventTree(e)).Some? <==> AllEncodable(e)
    ensures AllEncodable(e) ==> |MessageBytes(EventTree(e)).value| <= 115 + BodyBound(e)
  {
    BodySize(e);
    if AllEncodable(e) {
      EventSize(e, BodyBound(e));
    } else {
      FailingArm(BodyArms(e.body), 0, BodyMessage(e.body));
      FieldsConcat(HeaderFields(e), BodyArms(e.body));
    }
  }

  // ---------------------------------------------------------------- representability

  lemma MetricRepresentable(m: Metric)
    requires ValidMetric(m) && BlobLength(m.value) < 0x8000_0000
    ensures Representable(MetricTree(m))
  {
    if EncodableMetric(m) { MetricSize(m); } else { MetricFails(m); }
    MetricFrontRepresentable(m);
    MetricBackRepresentable(m);
  }

  lemma MetricFrontRepresentable(m: Metric)
    requires ValidMetric(m)
    ensures forall i :: 0 <= i < 4 ==> RepresentableField(MetricFront(m)[i])
  {
  }

  lemma MetricBackRepresentable(m: Metric)
    requires BlobLength(m.value) < 0x8000_0000
    ensures forall i :: 0 <= i < 3 ==> RepresentableField(MetricBack(m)[i])
  {
    var emission := BlobEmission(m.value);
    assert emission.Emits? ==> RepresentableItem(emission.items[0]) && |emission.items| == 1;
    assert RepresentableData(Callback(emission));
  }

  lemma ChannelRepresentable(c: Channel)
    requires ValidChannel(c)
    ensures Representable(ChannelTree(c))
  {
    ChannelSize(c);
  }

  lemma FrameRepresentable(f: Frame)
    requires ValidBody(SignalFrame(f)) && |f.samples| <= SAMPLES_ABSOLUTE_MAX
    ensures Representable(FrameTree(f))
  {
    FrameSize(f);
    FrameFrontRepresentable(f);
    FrameBackRepresentable(f);
  }

  lemma FrameFrontRepresentable(f: Frame)
    requires ValidBody(SignalFrame(f))
    ensures |FrameFront(f)| == 4 && forall i :: 0 <= i < 4 ==> RepresentableField(FrameFront(f)[i])
  {}

  lemma FrameBackRepresentable(f: Frame)
    requires ValidBody(SignalFrame(f)) && |f.samples| <= SAMPLES_ABSOLUTE_MAX
    ensures |FrameBack(f)| == 3 && forall i :: 0 <= i < 3 ==> RepresentableField(FrameBack(f)[i])
  {
    var channels := Clip(f.channels, SIGNAL_CHANNELS_MAX);
    forall i | 0 <= i < |channels| ensures RepresentableItem(ChannelItems(channels)[i]) {
      ChannelRepresentable(channels[i]);
    }
    assert RepresentableItem(FixedLength(f.samples));
  }

  lemma {:induction false} BlobWithinTotal(metrics: seq<Metric>, k: nat)
    requires k < |metrics|
    ensures BlobLength(metrics[k].value) <= TotalBlobs(metrics)
  {
    if k < |metrics| - 1 { BlobWithinTotal(metrics[..|metrics| - 1], k); }
  }

  lemma MetricSetRepresentable(e: Event)
    requires ValidEvent(e) && Addressable(e) && e.body.MetricSet?
    ensures Representable(MetricSetTree(e.body.metrics))
  {
    MetricItemsRepresentable(SentMetrics(e));
    MetricsFieldRepresentable(SentMetrics(e));
    MetricSetSize(e);
  }

  lemma {:induction false} MetricItemsRepresentable(ms: seq<Metric>)
    requires TotalBlobs(ms) < 0x8000_0000 && forall i :: 0 <= i < |ms| ==> ValidMetric(ms[i])
    ensures forall i :: 0 <= i < |ms| ==> RepresentableItem(MetricItems(ms)[i])
  {
    forall i | 0 <= i < |ms| ensures RepresentableItem(MetricItems(ms)[i]) { MetricItemRepresentable(ms, i); }
  }

  lemma {:induction false} MetricItemRepresentable(ms: seq<Metric>, i: nat)
    requires i < |ms| && TotalBlobs(ms) < 0x8000_0000 && ValidMetric(ms[i])
    ensures RepresentableItem(MetricItems(ms)[i])
  {
    BlobWithinTotal(ms, i);
    MetricRepresentable(ms[i]);
  }

  lemma MetricsFieldRepresentable(ms: seq<Metric>)
    requires forall i :: 0 <= i < |ms| ==> RepresentableItem(MetricItems(ms)[i])
    ensures RepresentableField(Field(1, Repeated, Array(MetricItems(ms), MAX_METRICS)))
  {}

  lemma TelemetryRepresentable(b: Body)
    requires !b.DeviceStatus?
    requires Representable(if b.MetricSet? then MetricSetTree(b.metrics) else FrameTree(b.frame))
    requires MessageBytes(TelemetryTree(b)).Some? ==> |MessageBytes(TelemetryTree(b)).value| < TWO_32
    ensures Representable(TelemetryTree(b))
  {
    assert Representable(Message([]));
    var inner := Submessage(if b.MetricSet? then MetricSetTree(b.metrics) else FrameTree(b.frame));
    assert RepresentableData(inner);
    assert forall i :: 0 <= i < 2 ==> RepresentableField(TelemetryTree(b).fields[i]);
  }

  lemma BodyRepresentable(e: Event)
    requires ValidEvent(e) && Addressable(e)
    ensures Representable(BodyMessage(e.body))
  {
    BodySize(e);
    if e.body.DeviceStatus? {
      assert forall i :: 0 <= i < 4 ==> RepresentableField(StatusTree(e.body.report).fields[i]);
    } else {
      if e.body.MetricSet? { MetricSetRepresentable(e); } else { FrameRepresentable(e.body.frame); }
      TelemetryRepresentable(e.body);
    }
  }

  /** Every event the firmware can hold in memory is representable. */
  lemma EventRepresentable(e: Event)
    requires ValidEvent(e) && Addressable(e)
    ensures Representable(EventTree(e))
  {
    EncodableIff(e);
    BodyRepresentable(e);
    HeaderRepresentable(e);
    ArmsRepresentable(e);
  }

  lemma HeaderRepresentable(e: Event)
    requires ValidHeader(e.header)
    ensures forall i :: 0 <= i < 8 ==> RepresentableField(HeaderFields(e)[i])
  {
    var front, back := HeaderFront(e), HeaderBack(e);
    assert forall i :: 0 <= i < 4 ==> RepresentableField(front[i]);
    assert forall i :: 0 <= i < 4 ==> RepresentableField(back[i]);
  }

  lemma ArmsRepresentable(e: Event)
    requires Representable(BodyMessage(e.body))
    ensures forall i :: 0 <= i < 3 ==> RepresentableField(BodyArms(e.body)[i])
  {
    assert Representable(Message([]));
    assert RepresentableData(BodyData(e.body));
  }

  // ---------------------------------------------------------------------- main result

  /** From device to server: whenever an event can be encoded, what the server decodes is
      the event as the device sent it. */
  lemma Delivered(e: Event)
    requires ValidEvent(e) && Addressable(e) && MessageBytes(EventTree(e)).Some?
    ensures var parsed := ParseMessage(EventSchema(), MessageBytes(EventTree(e)).value);
            parsed.Some? && DecodeEvent(parsed.value) == Announced(e)
  {
    EventRepresentable(e);
    EventRoundTrip(e);
  }

  /** What the server has of a header: device and boot id cut to the protobuf struct, the given number
      and time, firmware version and uptime. */
  predicate HeaderArrivesAs(h: Header, sequence: nat, timestampNs: nat, got: Header) {
    && got.deviceId == Text(h.deviceId, 31) && got.bootId == Text(h.bootId, 31)
    && got.sequence == sequence && got.timestampNs == timestampNs
    && got.firmwareVersion == h.firmwareVersion && got.uptimeMs == h.uptimeMs
  }

  predicate WholeText(text: seq<Byte>, max: nat) {
    |text| <= max && 0 !in text
  }

  predicate WholeMetric(m: Metric) {
    WholeText(m.key, 19) && WholeText(m.unit, 7) && (m.value.StringMetric? ==> 0 !in m.value.text)
  }

  /** The event's strings and lists fit the protobuf structs, and its strings have no NUL. */
  predicate Unabridged(e: Event) {
    && WholeText(e.header.deviceId, 31) && WholeText(e.header.bootId, 31)
    && match e.body
       case MetricSet(metrics) => |metrics| <= MAX_METRICS && forall i :: 0 <= i < |metrics| ==> WholeMetric(metrics[i])
       case SignalFrame(f) =>
         && WholeText(f.streamKey, 31) && |f.channels| <= SIGNAL_CHANNELS_MAX
         && forall i :: 0 <= i < |f.channels| ==> WholeText(f.channels[i].key, 19) && WholeText(f.channels[i].unit, 7)
       case DeviceStatus(s) => WholeText(s.rebootReason, 23)
  }

  lemma SentMetricWhole(m: Metric)
    ensures SentMetric(m) == m <==> WholeMetric(m)
  {
    TextWhole(m.key, 19);
    TextWhole(m.unit, 7);
    if m.value.StringMetric? { TextWhole(m.value.text, |m.value.text|); }
  }

  lemma SentChannelWhole(c: Channel)
    ensures SentChannel(c) == c <==> WholeText(c.key, 19) && WholeText(c.unit, 7)
  {
    TextWhole(c.key, 19);
    TextWhole(c.unit, 7);
  }

  /** Exactly which events arrive unchanged. A device id of 32 to 63 bytes is accepted by
      the configuration but does not. */
  lemma SentWhole(e: Event)
    ensures Sent(e) == e <==> Unabridged(e)
  {
    TextWhole(e.header.deviceId, 31);
    TextWhole(e.header.bootId, 31);
    match e.body
    case MetricSet(metrics) =>
      forall i | 0 <= i < |metrics| ensures SentMetric(metrics[i]) == metrics[i] <==> WholeMetric(metrics[i]) {
        SentMetricWhole(metrics[i]);
      }
      SentMetricsWhole(metrics);
    case SignalFrame(f) =>
      TextWhole(f.streamKey, 31);
      SentChannelsWhole(f.channels);
    case DeviceStatus(s) => TextWhole(s.rebootReason, 23);
  }

  lemma SentMetricsWhole(metrics: seq<Metric>)
    ensures SentBody(MetricSet(metrics)) == MetricSet(metrics)
       <==> |metrics| <= MAX_METRICS && forall i :: 0 <= i < |metrics| ==> WholeMetric(metrics[i])
  {
    forall i | 0 <= i < |metrics| ensures SentMetric(metrics[i]) == metrics[i] <==> WholeMetric(metrics[i]) {
      SentMetricWhole(metrics[i]);
    }
    var sent := SentBody(MetricSet(metrics)).metrics;
    if |metrics| <= MAX_METRICS {
      assert forall i :: 0 <= i < |metrics| ==> sent[i] == SentMetric(metrics[i]);
      if forall i :: 0 <= i < |metrics| ==> WholeMetric(metrics[i]) { assert sent == metrics; }
    }
  }

  lemma SentChannelsWhole(channels: seq<Channel>)
    ensures SentChannels(channels) == channels <==>
            && |channels| <= SIGNAL_CHANNELS_MAX
            && forall i :: 0 <= i < |channels| ==> WholeText(channels[i].key, 19) && WholeText(channels[i].unit, 7)
  {
    forall i | 0 <= i < |channels|
      ensures SentChannel(channels[i]) == channels[i] <==> WholeText(channels[i].key, 19) && WholeText(channels[i].unit, 7)
    {
      SentChannelWhole(channels[i]);
    }
    var sent := SentChannels(channels);
    if |channels| <= SIGNAL_CHANNELS_MAX {
      assert forall i :: 0 <= i < |channels| ==> sent[i] == SentChannel(channels[i]);
      if forall i :: 0 <= i < |channels| ==> SentChannel(channels[i]) == channels[i] { assert sent == channels; }
    }
  }

  // ------------------------------------------------------------------- signal frames

  /** The application's encodings and layouts as protobuf enumeration values. */
  function ToFrame(x: Input): Frame
    requires x.samples.Some?
  {
    Frame(x.streamKey, x.intervalNs, x.sampleCount,
          if 1 <= x.encoding <= 3 then x.encoding + 1 else 1, if x.layout == 1 then 2 else 1, x.channels, x.samples.value)
  }

  /** What the server has of an accepted frame: the application's encodings 0 to 3 as float32, int16,
      uint16 and int32 (1 to 4), its layouts 0 and 1 as interleaved and planar (1 and 2), strings cut
      to the protobuf struct, and everything else as it is. */
  predicate FrameArrivesAs(x: Input, f: Frame) {
    && f.streamKey == Text(x.streamKey, 31) && f.intervalNs == x.intervalNs && f.sampleCount == x.sampleCount
    && f.encoding == (match x.encoding case 0 => 1 case 1 => 2 case 2 => 3 case 3 => 4 case _ => 1)
    && f.layout == (if x.layout == 1 then 2 else 1)
    && x.samples == Some(f.samples) && |f.channels| == |x.channels|
    && forall i :: 0 <= i < |x.channels| ==>
         f.channels[i] == Channel(Text(x.channels[i].key, 19), Text(x.channels[i].unit, 7), x.channels[i].scale, x.channels[i].offset)
  }

  lemma FrameArrives(x: Input, maxSamples: nat)
    requires ValidInput(x) && Acceptable(x, maxSamples)
    ensures var sent := SentBody(SignalFrame(ToFrame(x))); sent.SignalFrame? && FrameArrivesAs(x, sent.frame)
  {
    assert Clip(x.channels, SIGNAL_CHANNELS_MAX) == x.channels;
    var sent := SentBody(SignalFrame(ToFrame(x))).frame;
    forall i | 0 <= i < |x.channels|
      ensures sent.channels[i] == Channel(Text(x.channels[i].key, 19), Text(x.channels[i].unit, 7), x.channels[i].scale, x.channels[i].offset)
    {
      assert sent.channels[i] == SentChannel(x.channels[i]);
    }
  }

  function SignalEvent(h: Header, x: Input): Event
    requires x.samples.Some?
  {
    Event(h.(timestampNs := x.timestampNs), SignalFrame(ToFrame(x)))
  }

  /** The bytes, if the event has an encoding that fits the buffer. */
  function Fitting(e: Event, capacity: nat): Option<seq<Byte>> {
    var bytes := MessageBytes(EventTree(e));
    if bytes.Some? && |bytes.value| <= capacity then bytes else None
  }

  /** With a buffer that satisfies the static assertion a validated frame is never refused. */
  lemma NeverRefused(h: Header, x: Input, maxSamples: nat, capacity: nat)
    requires ValidHeader(h) && ValidInput(x) && Acceptable(x, maxSamples) && maxSamples <= SAMPLES_ABSOLUTE_MAX
    requires capacity >= maxSamples + ENCODE_OVERHEAD
    ensures Fitting(SignalEvent(h, x), capacity).Some?
  {
    SignalEventSize(SignalEvent(h, x));
  }

  /** The uploader's encode step for a signal frame. A frame that passed validation when it
      was queued always encodes into a buffer that satisfies the firmware's static assertion. */
  method EncodeSignalFrame(h: Header, x: Input, maxSamples: nat, buf: array<Byte>) returns (r: Outcome, size: nat)
    requires ValidHeader(h) && ValidInput(x) && maxSamples <= SAMPLES_ABSOLUTE_MAX
    modifies buf
    ensures Acceptable(x, maxSamples) && buf.Length >= maxSamples + ENCODE_OVERHEAD ==> r.Ok?
    ensures r.Ok? <==> Acceptable(x, maxSamples) && Fitting(SignalEvent(h, x), buf.Length).Some?
    ensures r.Ok? ==> size <= x.samplesSize + 349 && size <= buf.Length
    ensures r.Ok? ==> Some(buf[..size]) == Fitting(SignalEvent(h, x), buf.Length)
    ensures r.Ok? ==> DecodesFrame(buf[..size], h, x)
  {
    var ok := Validate(x, maxSamples);
    if !ok {
      return Rejected, 0;
    }
    var e := SignalEvent(h, x);
    SignalEventSize(e);
    EventRepresentable(e);
    r, size := EncodeToBuffer(buf, EventTree(e));
    if r.Ok? { FrameDelivered(h, x, maxSamples); }
  }

  /** The server reads the frame as it arrives, under the header with the frame's own time. */
  ghost predicate DecodesFrame(bytes: seq<Byte>, h: Header, x: Input) {
    var parsed := ParseMessage(EventSchema(), bytes);
    parsed.Some?
    && var a := DecodeEvent(parsed.value);
    && a.schemaVersion == 1 && a.eventType == 1 && HeaderArrivesAs(h, h.sequence, x.timestampNs, a.event.header)
    && a.event.body.SignalFrame? && FrameArrivesAs(x, a.event.body.frame)
  }

  lemma FrameDelivered(h: Header, x: Input, maxSamples: nat)
    requires ValidHeader(h) && ValidInput(x) && Acceptable(x, maxSamples) && maxSamples <= SAMPLES_ABSOLUTE_MAX
    requires MessageBytes(EventTree(SignalEvent(h, x))).Some?
    ensures DecodesFrame(MessageBytes(EventTree(SignalEvent(h, x))).value, h, x)
  {
    Delivered(SignalEvent(h, x));
    FrameArrives(x, maxSamples);
  }
}
