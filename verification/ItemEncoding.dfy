/**
 What the uploader posts for an item: the header with the sequence counter and the item's own
 time, encoded from memory into the payload buffer. The step system's configuration for a build
 of the firmware allows exactly those payloads, and the server reads number and contents back.
 */
module ItemEncoding {
  import opened Wrappers
  import opened Varint
  import opened Message
  import opened Encoder
  import opened IngestEvent
  import opened FrameInput
  import opened EventEncoding
  import opened ItemMemory
  import U = Uploader
  import T = Telemetry
  import TelemetryEvent

  /** Within the ranges of C types. */
  ghost predicate InRange(k: U.Kind) {
    if k.Signal? then ValidInput(k.frame) else U.Vetted(k, 0)
  }

  /** A frame is validated again before it is encoded. */
  predicate Accepted(k: U.Kind, maxSamples: nat)
    requires k.Signal? ==> ValidInput(k.frame)
  {
    k.Signal? ==> Acceptable(k.frame, maxSamples)
  }

  /** map_device_status: the application's enumeration as the protobuf one. */
  function ToStatus(report: Status): Status {
    report.(status := if report.status <= 2 then report.status + 1 else 0)
  }

  /** fill_event_header: the counter and the item's time go into the header. */
  function EventOf(h: Header, sequence: nat, k: U.Kind): Event
    requires k.Signal? ==> k.frame.samples.Some?
  {
    match k
    case Telemetry(stamp, _, _, says) => TelemetryEvent.Report(h.(sequence := sequence, timestampNs := stamp), says)
    case Status(stamp, report) => Event(h.(sequence := sequence, timestampNs := stamp), DeviceStatus(ToStatus(report)))
    case Signal(frame) => SignalEvent(h.(sequence := sequence), frame)
  }

  function Payload(h: Header, sequence: nat, k: U.Kind, maxSamples: nat, capacity: nat): Option<seq<Byte>>
    requires k.Signal? ==> ValidInput(k.frame)
  {
    if Accepted(k, maxSamples) then Fitting(EventOf(h, sequence, k), capacity) else None
  }

  /** A build with the given queue length, sample limit and buffer size: what its encode step may
      refuse, and which payloads it may make of an item. */
  ghost function Firmware(depth: nat, maxSamples: nat, capacity: nat): U.Config {
    U.Config(depth, maxSamples, k => Refusable(k, maxSamples, capacity),
             (n: nat, k, payload) => Carries(n, k, payload, maxSamples, capacity))
  }

  ghost predicate Refusable(k: U.Kind, maxSamples: nat, capacity: nat) {
    InRange(k) && exists h, n: nat :: ValidHeader(h) && n < TWO_64 && Payload(h, n, k, maxSamples, capacity).None?
  }

  ghost predicate Carries(sequence: nat, k: U.Kind, payload: seq<Byte>, maxSamples: nat, capacity: nat) {
    InRange(k) && sequence < TWO_64
    && exists h :: ValidHeader(h) && Payload(h, sequence, k, maxSamples, capacity) == Some(payload)
  }

  lemma EventInRange(h: Header, sequence: nat, k: U.Kind, maxSamples: nat)
    requires ValidHeader(h) && sequence < TWO_64 && InRange(k) && Accepted(k, maxSamples) && maxSamples <= SAMPLES_ABSOLUTE_MAX
    ensures ValidEvent(EventOf(h, sequence, k)) && Addressable(EventOf(h, sequence, k))
  {
    if k.Telemetry? {
      var header := h.(sequence := sequence, timestampNs := k.stamp);
      TelemetryEvent.ReportValid(header, k.says);
      TelemetryEvent.SmallReport(header, k.says);
    }
  }

  // ------------------------------------------------------------------- the encode step

  /** encode_queue_item: by kind, from the record in memory, into a buffer of its own. */
  method EncodeItem(k: U.Kind, h: Header, sequence: nat, mem: T.Heap, maxSamples: nat, capacity: nat)
    returns (payload: Option<seq<Byte>>)
    requires ValidHeader(h) && sequence < TWO_64 && InRange(k) && maxSamples <= SAMPLES_ABSOLUTE_MAX
    requires mem.Valid() && InMemory(k, mem.blocks)
    ensures payload == Payload(h, sequence, k, maxSamples, capacity)
    ensures payload.Some? ==> |payload.value| <= capacity && Reads(payload.value, h, sequence, k)
  {
    var buf := new Byte[capacity](_ => 0);
    var r, size;
    var header := h.(sequence := sequence);
    if k.Status? {
      r, size := EncodeStatus(header.(timestampNs := k.stamp), ToStatus(k.report), buf);
    } else if k.Signal? {
      r, size := EncodeSignalFrame(header, k.frame, maxSamples, buf);
    } else {
      r, size := EncodeRecord(k, header.(timestampNs := k.stamp), mem, buf);
    }
    payload := if r.Ok? then Some(buf[..size]) else None;
    if payload.Some? { PayloadReads(h, sequence, k, maxSamples, capacity); }
  }

  /** encode_status */
  method EncodeStatus(h: Header, report: Status, buf: array<Byte>) returns (r: Outcome, size: nat)
    requires ValidHeader(h) && ValidBody(DeviceStatus(report))
    modifies buf
    ensures var bytes := Fitting(Event(h, DeviceStatus(report)), buf.Length);
            (r.Ok? <==> bytes.Some?) && (r.Ok? ==> size <= buf.Length && Some(buf[..size]) == bytes)
  {
    var e := Event(h, DeviceStatus(report));
    EventRepresentable(e);
    r, size := EncodeToBuffer(buf, EventTree(e));
  }

  /** encode_telemetry on the struct from the queue. */
  method EncodeRecord(k: U.Kind, h: Header, mem: T.Heap, buf: array<Byte>) returns (r: Outcome, size: nat)
    requires ValidHeader(h) && k.Telemetry? && InRange(k) && mem.Valid() && InMemory(k, mem.blocks)
    modifies buf
    ensures var bytes := Fitting(TelemetryEvent.Report(h, k.says), buf.Length);
            (r.Ok? <==> bytes.Some?) && (r.Ok? ==> size <= buf.Length && Some(buf[..size]) == bytes)
  {
    var item := Loaded(k.record, mem);
    TelemetryEvent.SmallReport(h, k.says);
    r, size := TelemetryEvent.EncodeTelemetry(item, h, buf);
  }

  /** A struct received from the queue as a local variable. */
  method Loaded(record: T.Record, mem: T.Heap) returns (item: T.Telemetry)
    requires mem.Valid() && T.Owned(record, mem.blocks)
    ensures fresh(item) && item.heap == mem && item.View() == record && item.Valid()
  {
    item := new T.Telemetry(mem);
    item.count, item.inlined, item.table := record.count, record.inlined, record.table;
  }

  // ------------------------------------------------------------------ what is never refused

  /** A status, or a frame that passed validation, fits a buffer that satisfies the static assertion. */
  lemma NeverRefusable(k: U.Kind, maxSamples: nat, capacity: nat)
    requires maxSamples <= SAMPLES_ABSOLUTE_MAX && capacity >= maxSamples + ENCODE_OVERHEAD
    requires U.Vetted(k, maxSamples) && !k.Telemetry?
    ensures !Refusable(k, maxSamples, capacity)
  {
    forall h, n: nat | ValidHeader(h) && n < TWO_64 ensures Payload(h, n, k, maxSamples, capacity).Some? {
      if k.Signal? {
        NeverRefused(h.(sequence := n), k.frame, maxSamples, capacity);
      } else {
        StatusEventSize(EventOf(h, n, k));
      }
    }
  }

  lemma FirmwareAdequate(depth: nat, maxSamples: nat, capacity: nat)
    requires maxSamples <= SAMPLES_ABSOLUTE_MAX && capacity >= maxSamples + ENCODE_OVERHEAD
    ensures U.Adequate(Firmware(depth, maxSamples, capacity))
  {
    forall k | U.Vetted(k, maxSamples) && !k.Telemetry? ensures !Firmware(depth, maxSamples, capacity).refuses(k) {
      NeverRefusable(k, maxSamples, capacity);
    }
  }

  /** Over every run of such a build no status and no signal frame is lost to the encode step, and
      the counter of validation failures stays at zero. */
  lemma DrainNeverRefuses(depth: nat, maxSamples: nat, capacity: nat, producers: nat, run: seq<U.Step>)
    requires maxSamples <= SAMPLES_ABSOLUTE_MAX && capacity >= maxSamples + ENCODE_OVERHEAD
    requires U.Possible(U.Start(Firmware(depth, maxSamples, capacity), producers), run)
    ensures var begin := U.Start(Firmware(depth, maxSamples, capacity), producers);
            && U.Refusals(begin, run) == 0
            && U.After(begin, run).totals.validationFailures == 0 && U.After(begin, run).stats.validationFailures == 0
  {
    FirmwareAdequate(depth, maxSamples, capacity);
    U.QueuedFramesEncode(Firmware(depth, maxSamples, capacity), producers, run);
  }

  predicate HasEmptyBytes(es: seq<T.Entry>) {
    exists i :: 0 <= i < |es| && es[i].reading == T.Bytes([])
  }

  /** Telemetry with an empty byte value is always refused; without one it is never refused if its
      values leave 2521 bytes of the buffer. */
  lemma TelemetryRefused(h: Header, sequence: nat, k: U.Kind, maxSamples: nat, capacity: nat)
    requires ValidHeader(h) && sequence < TWO_64 && k.Telemetry? && InRange(k)
    ensures HasEmptyBytes(k.says) ==> Payload(h, sequence, k, maxSamples, capacity).None?
    ensures !HasEmptyBytes(k.says) && EventEncoding.TotalBlobs(TelemetryEvent.ToMetrics(k.says)) + 2521 <= capacity ==>
              Payload(h, sequence, k, maxSamples, capacity).Some?
  {
    EventInRange(h, sequence, k, 0);
    EncodableIff(EventOf(h, sequence, k));
    EncodableEntries(h.(sequence := sequence, timestampNs := k.stamp), k.says);
  }

  lemma EncodableEntries(h: Header, es: seq<T.Entry>)
    requires |es| <= MAX_METRICS
    ensures var e := TelemetryEvent.Report(h, es);
            SentMetrics(e) == TelemetryEvent.ToMetrics(es) && (AllEncodable(e) <==> !HasEmptyBytes(es))
  {
    var ms := TelemetryEvent.ToMetrics(es);
    forall i | 0 <= i < |es| ensures EncodableMetric(ms[i]) <==> es[i].reading != T.Bytes([]) {
      assert ms[i] == TelemetryEvent.ToMetric(es[i]);
    }
  }

  // ------------------------------------------------------------------- what the server gets

  /** A status arrives as online, degraded or offline (1 to 3) for the application's 0 to 2, else as
      unspecified, and with its reboot reason cut to the protobuf struct. */
  predicate StatusArrivesAs(s: Status, got: Status) {
    && got.status == (match s.status case 0 => 1 case 1 => 2 case 2 => 3 case _ => 0) && got.rssi == s.rssi && got.freeHeap == s.freeHeap
    && got.rebootReason == Text(s.rebootReason, 23)
  }

  /** What the server has of an item: a telemetry's entries, a status, or a frame. */
  predicate ItemArrivesAs(k: U.Kind, b: Body) {
    match k
    case Telemetry(_, _, _, says) => b.MetricSet? && TelemetryEvent.AllArrive(says, b.metrics)
    case Status(_, report) => b.DeviceStatus? && StatusArrivesAs(report, b.report)
    case Signal(frame) => b.SignalFrame? && FrameArrivesAs(frame, b.frame)
  }

  /** Parsed with the schema, the payload is an event of version 1 under the header it was filled
      with: that number, the item's own time, the header's other fields; and it holds the item. */
  predicate Reads(payload: seq<Byte>, h: Header, sequence: nat, k: U.Kind) {
    var parsed := ParseMessage(EventSchema(), payload);
    parsed.Some?
    && var a := DecodeEvent(parsed.value);
    && a.schemaVersion == 1 && a.eventType == (if k.Status? then 2 else 1)
    && HeaderArrivesAs(h, sequence, if k.Signal? then k.frame.timestampNs else k.stamp, a.event.header)
    && ItemArrivesAs(k, a.event.body)
  }

  lemma ItemArrives(h: Header, sequence: nat, k: U.Kind, maxSamples: nat)
    requires InRange(k) && Accepted(k, maxSamples)
    ensures ItemArrivesAs(k, SentBody(EventOf(h, sequence, k).body))
  {
    match k
    case Telemetry(_, _, _, says) => TelemetryEvent.SentArrive(says);
    case Status(_, report) =>
    case Signal(frame) => FrameArrives(frame, maxSamples);
  }

  lemma PayloadReads(h: Header, sequence: nat, k: U.Kind, maxSamples: nat, capacity: nat)
    requires ValidHeader(h) && sequence < TWO_64 && InRange(k) && maxSamples <= SAMPLES_ABSOLUTE_MAX
    requires Payload(h, sequence, k, maxSamples, capacity).Some?
    ensures Reads(Payload(h, sequence, k, maxSamples, capacity).value, h, sequence, k)
  {
    EventInRange(h, sequence, k, maxSamples);
    Delivered(EventOf(h, sequence, k));
    ItemArrives(h, sequence, k, maxSamples);
  }

  /** Whatever a build may post for an item under a number reads back as that item and number. */
  lemma CarriedReads(sequence: nat, k: U.Kind, payload: seq<Byte>, maxSamples: nat, capacity: nat)
    requires Carries(sequence, k, payload, maxSamples, capacity) && maxSamples <= SAMPLES_ABSOLUTE_MAX
    ensures exists h :: ValidHeader(h) && Reads(payload, h, sequence, k)
  {
    var h :| ValidHeader(h) && Payload(h, sequence, k, maxSamples, capacity) == Some(payload);
    PayloadReads(h, sequence, k, maxSamples, capacity);
  }

  /** Over every run of a build: the k-th successful post's bytes read back as sequence number k
      (modulo 2^64) with the time and contents of the item posted. */
  lemma PostsReadBack(depth: nat, maxSamples: nat, capacity: nat, producers: nat, run: seq<U.Step>, k: nat)
    requires maxSamples <= SAMPLES_ABSOLUTE_MAX
    requires U.Possible(U.Start(Firmware(depth, maxSamples, capacity), producers), run)
    requires k < |U.After(U.Start(Firmware(depth, maxSamples, capacity), producers), run).posts|
    ensures var p := U.After(U.Start(Firmware(depth, maxSamples, capacity), producers), run).posts[k];
            exists h :: ValidHeader(h) && Reads(p.payload, h, k % TWO_64, p.item.kind)
  {
    var c := Firmware(depth, maxSamples, capacity);
    U.PostsInOrder(c, producers, run);
    U.StartSane(c, producers);
    U.Invariant(U.Start(c, producers), run);
    var s := U.After(U.Start(c, producers), run);
    assert s.config == c && c.carries(s.posts[k].sequence, s.posts[k].item.kind, s.posts[k].payload);
    CarriedReads(k % TWO_64, s.posts[k].item.kind, s.posts[k].payload, maxSamples, capacity);
  }
}
