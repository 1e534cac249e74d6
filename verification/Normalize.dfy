/**
 The ingest API's check of a decoded signal frame before it is stored. A frame that the firmware
 accepted for its queue is never rejected here, nor by the services that decode it later.
 */
module Normalize {
  import opened Wrappers
  import opened Varint
  import opened IngestEvent
  import opened FrameInput
  import opened EventEncoding
  import C = SignalCodec
  import Windows

  datatype Fault = NoStreamKey | NoInterval | NoSampleCount | UnknownEncoding | UnknownLayout | NoChannels | NoChannelKey | WrongLength

  /** Scale and offset are float32 patterns; an empty unit is stored as missing. */
  datatype StoredChannel = StoredChannel(key: seq<Byte>, unit: Option<seq<Byte>>, scale: Option<nat>, offset: Option<nat>)

  datatype StoredFrame = StoredFrame(
    streamKey: seq<Byte>, intervalNs: nat, sampleCount: nat, encoding: C.Encoding, layout: C.Layout,
    channels: seq<StoredChannel>, samples: seq<Byte>)

  datatype Result = Stored(frame: StoredFrame) | Rejected(why: Fault)

  /** SIGNAL_ENCODING_NAMES */
  function EncodingOf(n: nat): Option<C.Encoding> {
    match n
    case 1 => Some(C.Float32)
    case 2 => Some(C.Int16)
    case 3 => Some(C.Uint16)
    case 4 => Some(C.Int32)
    case _ => None
  }

  /** SIGNAL_LAYOUT_NAMES */
  function LayoutOf(n: nat): Option<C.Layout> {
    match n
    case 1 => Some(C.Interleaved)
    case 2 => Some(C.Planar)
    case _ => None
  }

  /** SIGNAL_ENCODING_SAMPLE_BYTES */
  function SampleBytes(n: nat): nat {
    if n == 2 || n == 3 then 2 else 4
  }

  /** What a frame must be to be stored. */
  predicate Storable(f: Frame) {
    && f.streamKey != [] && f.intervalNs > 0 && f.sampleCount > 0 && 1 <= f.encoding <= 4 && 1 <= f.layout <= 2
    && f.channels != [] && (forall i :: 0 <= i < |f.channels| ==> f.channels[i].key != [])
    && |f.samples| == f.sampleCount * |f.channels| * (if f.encoding == 2 || f.encoding == 3 then 2 else 4)
  }

  predicate StoredAs(c: Channel, s: StoredChannel) {
    s.key == c.key && s.unit == (if c.unit == [] then None else Some(c.unit)) && s.scale == c.scale && s.offset == c.offset
  }

  /** _normalize_signal_frame */
  method NormalizeFrame(f: Frame) returns (r: Result)
    ensures r.Stored? <==> Storable(f)
    ensures r.Stored? ==>
              && r.frame.streamKey == f.streamKey && r.frame.intervalNs == f.intervalNs && r.frame.sampleCount == f.sampleCount
              && r.frame.samples == f.samples && |r.frame.channels| == |f.channels|
              && (forall i :: 0 <= i < |f.channels| ==> StoredAs(f.channels[i], r.frame.channels[i]))
              && r.frame.encoding == (match f.encoding case 1 => C.Float32 case 2 => C.Int16 case 3 => C.Uint16 case _ => C.Int32)
              && r.frame.layout == (if f.layout == 2 then C.Planar else C.Interleaved)
  {
    if f.streamKey == [] { return Rejected(NoStreamKey); }
    if f.intervalNs == 0 { return Rejected(NoInterval); }
    if f.sampleCount == 0 { return Rejected(NoSampleCount); }
    var encoding, layout := EncodingOf(f.encoding), LayoutOf(f.layout);
    if encoding.None? { return Rejected(UnknownEncoding); }
    if layout.None? { return Rejected(UnknownLayout); }
    if f.channels == [] { return Rejected(NoChannels); }
    var channels := [];
    for i := 0 to |f.channels|
      invariant |channels| == i
      invariant forall k :: 0 <= k < i ==> f.channels[k].key != [] && StoredAs(f.channels[k], channels[k])
    {
      var c := f.channels[i];
      if c.key == [] { return Rejected(NoChannelKey); }
      channels := channels + [StoredChannel(c.key, if c.unit == [] then None else Some(c.unit), c.scale, c.offset)];
    }
    if |f.samples| != f.sampleCount * |channels| * SampleBytes(f.encoding) { return Rejected(WrongLength); }
    r := Stored(StoredFrame(f.streamKey, f.intervalNs, f.sampleCount, encoding.value, layout.value, channels, f.samples));
  }

  lemma KeptNonEmpty(text: seq<Byte>, max: nat)
    requires max > 0 && text != [] && text[0] != 0
    ensures Text(text, max) != []
  {}

  /** What arrives of a frame that the firmware's validation accepted is always stored: its three
      width tables and its size arithmetic agree with the server's. */
  lemma AcceptedIsStored(x: Input, f: Frame, maxSamples: nat)
    requires ValidInput(x) && Acceptable(x, maxSamples) && FrameArrivesAs(x, f)
    ensures Storable(f) && EncodingOf(f.encoding).Some? && LayoutOf(f.layout).Some?
    ensures SampleWidth(x.encoding) == SampleBytes(f.encoding) == C.Width(EncodingOf(f.encoding).value)
  {
    KeptNonEmpty(x.streamKey, 31);
    forall i | 0 <= i < |x.channels| ensures f.channels[i].key != [] { KeptNonEmpty(x.channels[i].key, 19); }
  }

  /** A stored frame passes the size and name checks of both decoding services, under any time and
      any scales of its channels. */
  lemma StoredIsDecodable(f: Frame, eventTime: int, channels: seq<C.Channel>)
    requires Storable(f) && |channels| == |f.channels|
    ensures Windows.Row(eventTime, f.intervalNs, f.sampleCount, f.samples, EncodingOf(f.encoding), LayoutOf(f.layout), channels).WellFormed()
  {
    C.WellSizedIs(f.samples, EncodingOf(f.encoding).value, f.sampleCount, |f.channels|);
  }
}
