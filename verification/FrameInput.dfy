/**
 Signal frames as the application hands them to the firmware, and the validation they pass
 before they are queued.
 */
module FrameInput {
  import opened Wrappers
  import opened Varint
  import opened IngestEvent

  /** AETUS_SIGNAL_SAMPLES_ABSOLUTE_MAX */
  const SAMPLES_ABSOLUTE_MAX: nat := 8192

  /** A frame as the application hands it over; `encoding` and `layout` are the
      application's enumeration values. The sample pointer may be null. */
  datatype Input = Input(
    timestampNs: nat, streamKey: seq<Byte>, intervalNs: nat, sampleCount: nat, encoding: nat, layout: nat,
    channels: seq<Channel>, samples: Option<seq<Byte>>, samplesSize: nat)

  /** Ranges of the struct's C types, and the pointer really covering `samplesSize` bytes. */
  predicate ValidInput(x: Input) {
    && x.timestampNs < TWO_64 && x.intervalNs < TWO_64 && x.sampleCount < TWO_32 && |x.channels| < TWO_32
    && x.samplesSize < TWO_32 && |x.streamKey| == 32
    && (forall i :: 0 <= i < |x.channels| ==> ValidChannel(x.channels[i]) && |x.channels[i].key| == 20)
    && (x.samples.Some? ==> |x.samples.value| == x.samplesSize)
  }

  function SampleWidth(encoding: nat): nat {
    match encoding
    case 0 => 4
    case 1 => 2
    case 2 => 2
    case 3 => 4
    case _ => 0
  }

  /** What validation is meant to accept. */
  predicate Acceptable(x: Input, maxSamples: nat)
    requires ValidInput(x)
  {
    && x.streamKey[0] != 0 && x.intervalNs > 0 && x.sampleCount > 0
    && 1 <= |x.channels| <= SIGNAL_CHANNELS_MAX
    && x.samples.Some? && 0 < x.samplesSize <= maxSamples
    && (forall i :: 0 <= i < |x.channels| ==> x.channels[i].key[0] != 0)
    && SampleWidth(x.encoding) > 0
    && TrueSize(x) == x.samplesSize
  }

  /** In numbers: a stream key, an interval, samples of one to four named channels, no more bytes than the
      limit, and as many as float32 (0), int16 (1), uint16 (2) or int32 (3) values take. */
  lemma AcceptableIff(x: Input, maxSamples: nat)
    requires ValidInput(x)
    ensures Acceptable(x, maxSamples) <==>
              && x.streamKey[0] != 0 && x.intervalNs > 0 && x.sampleCount > 0 && 1 <= |x.channels| <= 4
              && (forall i :: 0 <= i < |x.channels| ==> x.channels[i].key[0] != 0)
              && x.samples.Some? && 0 < x.samplesSize <= maxSamples && x.encoding <= 3
              && x.samplesSize == x.sampleCount * |x.channels| * (if x.encoding == 1 || x.encoding == 2 then 2 else 4)
  {}

  const SIZE_MAX: nat := 0xFFFF_FFFF

  function TrueSize(x: Input): nat {
    x.sampleCount * |x.channels| * SampleWidth(x.encoding)
  }

  /** The expected byte size, in 32-bit arithmetic behind overflow guards, is the true one. */
  method ExpectedSize(x: Input) returns (r: Option<nat>)
    requires ValidInput(x)
    ensures r.Some? <==> SampleWidth(x.encoding) > 0 && TrueSize(x) <= SIZE_MAX
    ensures r.Some? ==> r.value == TrueSize(x)
  {
    var width := SampleWidth(x.encoding);
    if width == 0 {
      return None;
    }
    ghost var product := x.sampleCount * |x.channels|;
    assert TrueSize(x) == product * width && (width == 2 || width == 4);
    if !(|x.channels| == 0 || x.sampleCount <= SIZE_MAX / |x.channels|) {
      ProductTooLarge(x.sampleCount, |x.channels|);
      return None;
    }
    if |x.channels| > 0 { ProductFits(x.sampleCount, |x.channels|); }
    assert product <= SIZE_MAX;
    var total := (x.sampleCount * |x.channels|) % TWO_32;
    assert total == product;
    if !(total == 0 || total <= SIZE_MAX / width) {
      return None;
    }
    r := Some((total * width) % TWO_32);
  }

  lemma ProductFits(a: nat, b: nat)
    requires b > 0 && a <= SIZE_MAX / b
    ensures a * b <= SIZE_MAX
  {
    var q := SIZE_MAX / b;
    assert a * b <= q * b;
    assert q * b <= SIZE_MAX;
  }

  lemma ProductTooLarge(a: nat, b: nat)
    requires b > 0 && a > SIZE_MAX / b
    ensures a * b > SIZE_MAX
  {
    var q := SIZE_MAX / b;
    assert (q + 1) * b > SIZE_MAX;
    assert a * b >= (q + 1) * b;
  }

  /** Validation before a frame is queued, and again before it is encoded. */
  method Validate(x: Input, maxSamples: nat) returns (ok: bool)
    requires ValidInput(x)
    ensures ok <==> Acceptable(x, maxSamples)
  {
    if x.streamKey[0] == 0 || x.intervalNs == 0 || x.sampleCount == 0 || |x.channels| == 0 {
      return false;
    }
    if |x.channels| > SIGNAL_CHANNELS_MAX || x.samplesSize == 0 || x.samples.None? || x.samplesSize > maxSamples {
      return false;
    }
    for i := 0 to |x.channels|
      invariant forall k :: 0 <= k < i ==> x.channels[k].key[0] != 0
    {
      if x.channels[i].key[0] == 0 {
        return false;
      }
    }
    var expected := ExpectedSize(x);
    ok := expected == Some(x.samplesSize);
  }
}
