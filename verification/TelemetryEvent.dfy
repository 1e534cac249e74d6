/**
 From a telemetry record in memory to the event on the wire: the encode step picks each metric
 from its inline or heap slot, and the server decodes what the application added.
 */
module TelemetryEvent {
  import opened Wrappers
  import opened Varint
  import opened Message
  import opened Encoder
  import opened IngestEvent
  import opened EventEncoding
  import T = Telemetry

  function ToValue(x: T.Reading): MetricValue {
    match x
    case Int(i) => IntMetric(i)
    case Double(bits) => DoubleMetric(bits)
    case Bool(b) => BoolMetric(b)
    case Text(text) => StringMetric(text)
    case Bytes(bytes) => BytesMetric(bytes)
  }

  function ToMetric(e: T.Entry): Metric {
    Metric(e.key, ToValue(e.reading), e.unit)
  }

  function ToMetrics(es: seq<T.Entry>): (ms: seq<Metric>)
    ensures |ms| == |es| && forall i :: 0 <= i < |es| ==> ms[i] == ToMetric(es[i])
  {
    seq(|es|, i requires 0 <= i < |es| => ToMetric(es[i]))
  }

  /** Ranges of the C types behind a reading. */
  predicate Typed(x: T.Reading) {
    (x.Int? ==> IsInt64(x.i)) && (x.Double? ==> x.bits < TWO_64)
  }

  predicate AllTyped(es: seq<T.Entry>) {
    forall i :: 0 <= i < |es| ==> Typed(es[i].reading)
  }

  /** Only texts and byte values count, by their length. */
  lemma BlobLengthIs(x: T.Reading)
    ensures BlobLength(ToValue(x)) == if x.Text? then |x.text| else if x.Bytes? then |x.bytes| else 0
  {}

  /** What a telemetry that fits the device's memory can say. */
  predicate Sendable(es: seq<T.Entry>) {
    AllTyped(es) && |es| <= MAX_METRICS && TotalBlobs(ToMetrics(es)) < 0x8000_0000
  }

  function Report(h: Header, es: seq<T.Entry>): Event {
    Event(h, MetricSet(ToMetrics(es)))
  }

  lemma ReportValid(h: Header, es: seq<T.Entry>)
    requires ValidHeader(h) && AllTyped(es)
    ensures ValidEvent(Report(h, es))
  {
    forall i | 0 <= i < |es| ensures ValidMetric(ToMetric(es[i])) { assert Typed(es[i].reading); }
  }

  // ------------------------------------------------------------------------ filling

  lemma SlotAt(t: T.Record, h: T.Blocks, i: nat)
    requires T.Owned(t, h) && i < t.count
    ensures i < T.INLINE_METRICS ==> T.Used(t, h)[i] == t.inlined[i]
    ensures i >= T.INLINE_METRICS ==>
              T.HasTable(t, h) && i - T.INLINE_METRICS < |h[t.table.value].rows|
              && T.Used(t, h)[i] == h[t.table.value].rows[i - T.INLINE_METRICS]
  {}

  /** The loop of the encode step: each metric from its slot. */
  method FillMetrics(t: T.Telemetry) returns (metrics: seq<Metric>)
    requires t.Valid()
    ensures metrics == ToMetrics(t.Says())
  {
    metrics := [];
    for i := 0 to t.count
      invariant |metrics| == i && forall k :: 0 <= k < i ==> metrics[k] == ToMetric(t.Says()[k])
    {
      SlotAt(t.View(), t.heap.blocks, i);
      var src;
      if i < T.INLINE_METRICS {
        src := t.inlined[i];
      } else {
        src := t.heap.blocks[t.table.value].rows[i - T.INLINE_METRICS];
      }
      assert src == T.Used(t.View(), t.heap.blocks)[i];
      metrics := metrics + [ToMetric(T.Resolve(src, t.heap.blocks))];
    }
  }

  /** encode_telemetry */
  method EncodeTelemetry(t: T.Telemetry, h: Header, buf: array<Byte>) returns (r: Outcome, size: nat)
    requires t.Valid() && ValidHeader(h) && AllTyped(t.Says()) && Addressable(Report(h, t.Says()))
    modifies buf
    ensures var bytes := MessageBytes(EventTree(Report(h, t.Says())));
            && (r.Ok? <==> bytes.Some? && |bytes.value| <= buf.Length)
            && (r.Ok? ==> size <= buf.Length && buf[..size] == bytes.value)
  {
    var metrics := FillMetrics(t);
    var e := Event(h, MetricSet(metrics));
    ReportValid(h, t.Says());
    EventRepresentable(e);
    r, size := EncodeToBuffer(buf, EventTree(e));
  }

  // ------------------------------------------------------------------------ end to end

  /** What the server has of an entry: key and unit cut to what the protobuf struct holds, and a value
      of the entry's own kind, a text up to its NUL. */
  predicate ArrivesAs(e: T.Entry, m: Metric) {
    && m.key == Text(e.key, 19) && m.unit == Text(e.unit, 7)
    && match e.reading
       case Int(i) => m.value == IntMetric(i)
       case Double(bits) => m.value == DoubleMetric(bits)
       case Bool(b) => m.value == BoolMetric(b)
       case Text(text) => m.value == StringMetric(Text(text, |text|))
       case Bytes(bytes) => m.value == BytesMetric(bytes)
  }

  /** All of them, in order. */
  predicate AllArrive(es: seq<T.Entry>, ms: seq<Metric>) {
    |ms| == |es| && forall i :: 0 <= i < |es| ==> ArrivesAs(es[i], ms[i])
  }

  /** Whatever a record says, if it can be encoded the server decodes it, metric by metric and in order. */
  lemma EntriesArrive(h: Header, es: seq<T.Entry>)
    requires ValidHeader(h) && AllTyped(es) && |es| <= MAX_METRICS && Addressable(Report(h, es))
    requires MessageBytes(EventTree(Report(h, es))).Some?
    ensures Decodes(MessageBytes(EventTree(Report(h, es))).value, es)
  {
    ReportValid(h, es);
    Delivered(Report(h, es));
    SentArrive(es);
  }

  lemma SentArrive(es: seq<T.Entry>)
    requires |es| <= MAX_METRICS
    ensures var sent := SentBody(MetricSet(ToMetrics(es))); sent.MetricSet? && AllArrive(es, sent.metrics)
  {
    assert Clip(ToMetrics(es), MAX_METRICS) == ToMetrics(es);
    var sent := SentBody(MetricSet(ToMetrics(es))).metrics;
    forall i | 0 <= i < |es| ensures ArrivesAs(es[i], sent[i]) { assert sent[i] == SentMetric(ToMetric(es[i])); }
  }

  /** The metric is the entry, uncut. */
  predicate SameAs(e: T.Entry, m: Metric) {
    && m.key == e.key && m.unit == e.unit
    && match e.reading
       case Int(i) => m.value == IntMetric(i)
       case Double(bits) => m.value == DoubleMetric(bits)
       case Bool(b) => m.value == BoolMetric(b)
       case Text(text) => m.value == StringMetric(text)
       case Bytes(bytes) => m.value == BytesMetric(bytes)
  }

  /** They arrive as they were added exactly if keys and units fit and no text holds a NUL. */
  lemma EntriesWholeIff(es: seq<T.Entry>, ms: seq<Metric>)
    requires AllArrive(es, ms)
    ensures (forall i :: 0 <= i < |es| ==> SameAs(es[i], ms[i]))
       <==> forall i :: 0 <= i < |es| ==>
              WholeText(es[i].key, 19) && WholeText(es[i].unit, 7) && (es[i].reading.Text? ==> 0 !in es[i].reading.text)
  {
    forall i | 0 <= i < |es|
      ensures SameAs(es[i], ms[i]) <==>
                WholeText(es[i].key, 19) && WholeText(es[i].unit, 7) && (es[i].reading.Text? ==> 0 !in es[i].reading.text)
    {
      EntryWholeIff(es[i], ms[i]);
    }
  }

  lemma EntryWholeIff(e: T.Entry, m: Metric)
    requires ArrivesAs(e, m)
    ensures SameAs(e, m) <==> WholeText(e.key, 19) && WholeText(e.unit, 7) && (e.reading.Text? ==> 0 !in e.reading.text)
  {
    TextWhole(e.key, 19);
    TextWhole(e.unit, 7);
    if e.reading.Text? { TextWhole(e.reading.text, |e.reading.text|); }
  }

  /** Bytes of all values handed to the add functions. */
  function Handed(calls: seq<T.Call>): nat {
    if calls == [] then 0 else Handed(calls[..|calls| - 1]) + BlobLength(ToValue(calls[|calls| - 1].reading))
  }

  lemma {:induction false} SucceededWithin(calls: seq<T.Call>, results: seq<T.Outcome>)
    requires |calls| == |results| && forall i :: 0 <= i < |calls| ==> Typed(calls[i].reading)
    ensures AllTyped(T.Succeeded(calls, results))
    ensures TotalBlobs(ToMetrics(T.Succeeded(calls, results))) <= Handed(calls)
  {
    if calls != [] {
      var front, res := calls[..|calls| - 1], results[..|results| - 1];
      SucceededWithin(front, res);
      var c := calls[|calls| - 1];
      var before, all := T.Succeeded(front, res), T.Succeeded(calls, results);
      if results[|results| - 1].Ok? {
        assert all == before + [T.Entry(c.key, c.unit, c.reading)];
        TotalSnoc(before, T.Entry(c.key, c.unit, c.reading));
      } else {
        assert all == before;
      }
    }
  }

  lemma TotalSnoc(es: seq<T.Entry>, e: T.Entry)
    ensures TotalBlobs(ToMetrics(es + [e])) == TotalBlobs(ToMetrics(es)) + BlobLength(ToValue(e.reading))
  {
    var ms := ToMetrics(es + [e]);
    assert ms[..|ms| - 1] == ToMetrics(es);
  }

  /** From the application to the server: fill an empty record with any calls, whatever the
      allocator answers, and encode it. If that succeeds, the server decodes exactly the
      successful adds, in order. */
  method AddAndEncode(t: T.Telemetry, calls: seq<T.Call>, h: Header, buf: array<Byte>)
    returns (results: seq<T.Outcome>, r: Outcome, size: nat)
    requires t.Valid() && t.Says() == [] && ValidHeader(h)
    requires (forall i :: 0 <= i < |calls| ==> Typed(calls[i].reading)) && Handed(calls) < 0x8000_0000
    modifies t, t.heap, buf
    ensures t.Valid() && |results| == |calls|
    ensures r.Ok? ==> size <= buf.Length && Decodes(buf[..size], T.Succeeded(calls, results))
  {
    results := t.AddAll(calls);
    assert t.Says() == T.Succeeded(calls, results);
    SucceededWithin(calls, results);
    r, size := EncodeSmall(t, h, buf);
  }

  /** Encoding a record whose blobs are small enough to fit the address space. */
  method EncodeSmall(t: T.Telemetry, h: Header, buf: array<Byte>) returns (r: Outcome, size: nat)
    requires t.Valid() && ValidHeader(h) && AllTyped(t.Says()) && TotalBlobs(ToMetrics(t.Says())) < 0x8000_0000
    modifies buf
    ensures r.Ok? ==> size <= buf.Length && Decodes(buf[..size], t.Says())
  {
    SmallReport(h, t.Says());
    r, size := EncodeTelemetry(t, h, buf);
    if r.Ok? { EntriesArrive(h, t.Says()); }
  }

  /** The server reads a set of metrics, and they are the entries as they arrive. */
  ghost predicate Decodes(bytes: seq<Byte>, es: seq<T.Entry>) {
    var parsed := ParseMessage(EventSchema(), bytes);
    parsed.Some?
    && var body := DecodeEvent(parsed.value).event.body;
    body.MetricSet? && AllArrive(es, body.metrics)
  }

  lemma SmallReport(h: Header, es: seq<T.Entry>)
    requires TotalBlobs(ToMetrics(es)) < 0x8000_0000 && |es| <= MAX_METRICS
    ensures Addressable(Report(h, es))
  {
    assert Clip(ToMetrics(es), MAX_METRICS) == ToMetrics(es);
  }
}
