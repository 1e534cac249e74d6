/**
 Signal samples as bytes. Two clients pack a matrix of samples (rows of channels) into a
 frame, in row order or channel by channel; the query service decodes a frame sequentially,
 the anomaly service by computing each value's position. A float32 sample is its bit pattern.
 */
module SignalCodec {
  import opened Wrappers
  import opened Varint
  import opened WireFormat
  import opened Numbers
  import Seqs

  datatype Encoding = Int16 | Uint16 | Int32 | Float32

  datatype Layout = Interleaved | Planar

  function Width(e: Encoding): (w: nat)
    ensures w == 2 || w == 4
  {
    if e.Int32? || e.Float32? then 4 else 2
  }

  /** `k` times the width. */
  function Offset(e: Encoding, k: nat): nat {
    if e.Int32? || e.Float32? then 4 * k else 2 * k
  }

  lemma OffsetIs(e: Encoding, k: nat)
    ensures Offset(e, k) == k * Width(e)
  {}

  /** A product, spelled as a sum for the proofs by induction. */
  function Times(s: nat, n: nat): nat {
    if s == 0 then 0 else Times(s - 1, n) + n
  }

  lemma {:induction false} TimesIs(s: nat, n: nat)
    ensures Times(s, n) == s * n
  {
    if s > 0 {
      TimesIs(s - 1, n);
      assert (s - 1) * n + n == s * n;
    }
  }

  lemma {:induction false} TimesGrows(s: nat, m: nat, n: nat)
    requires s <= m
    ensures Times(s, n) <= Times(m, n)
    decreases m
  {
    if s < m { TimesGrows(s, m - 1, n); }
  }

  lemma Commute(a: nat, b: nat)
    ensures Times(a, b) == Times(b, a)
  {
    TimesIs(a, b);
    TimesIs(b, a);
  }

  predicate InRange(e: Encoding, v: int) {
    match e
    case Int16 => -0x8000 <= v < 0x8000
    case Uint16 => 0 <= v < 0x1_0000
    case Int32 => -0x8000_0000 <= v < 0x8000_0000
    case Float32 => 0 <= v < 0x1_0000_0000
  }

  // ------------------------------------------------------------------------- one value

  /** The value as an unsigned number of the encoding's width: two's complement. */
  function Wrapped(e: Encoding, v: int): nat {
    if e.Int32? || e.Float32? then v % 0x1_0000_0000 else v % 0x1_0000
  }

  /** to_le_bytes: least significant byte first. */
  function ToBytes(e: Encoding, v: int): (s: seq<Byte>)
    ensures |s| == Width(e)
  {
    LittleEndian(Wrapped(e, v), Width(e))
  }

  /** from_le_bytes / struct.unpack */
  function FromBytes(e: Encoding, s: seq<Byte>): int
    requires |s| == Width(e)
  {
    var u := FromLittleEndian(s);
    match e
    case Int16 => if u >= 0x8000 then u - 0x1_0000 else u
    case Uint16 => u
    case Int32 => if u >= 0x8000_0000 then u - 0x1_0000_0000 else u
    case Float32 => u
  }

  /** The number a sample stands for. */
  function Meaning(e: Encoding, v: int): Number {
    if e.Float32? then FloatValue(v) else Finite(v as real)
  }

  lemma ValueRoundTrip(e: Encoding, v: int)
    requires InRange(e, v)
    ensures FromBytes(e, ToBytes(e, v)) == v
  {
    match e
    case Int16 => Int16RoundTrip(v);
    case Uint16 => Word16(v);
    case Int32 => Int32RoundTrip(v);
    case Float32 => Float32RoundTrip(v);
  }

  /** Two's complement, low byte first, in two or four bytes. */
  lemma ByteAt(e: Encoding, v: int, k: nat)
    requires InRange(e, v)
    ensures |ToBytes(e, v)| == if e.Int16? || e.Uint16? then 2 else 4
    ensures k < |ToBytes(e, v)| ==>
              ToBytes(e, v)[k] as int == (if v >= 0 then v else if e.Int16? then v + 0x1_0000 else v + 0x1_0000_0000) / Pow256(k) % 256
  {
    WrappedIs(e, v);
    if k < |ToBytes(e, v)| { LittleEndianAt(Wrapped(e, v), Width(e), k); }
  }

  lemma WrappedIs(e: Encoding, v: int)
    requires InRange(e, v)
    ensures Wrapped(e, v) == if v >= 0 then v else if e.Int16? then v + 0x1_0000 else v + 0x1_0000_0000
  {}

  /** The range of an encoding is exactly what survives packing. */
  lemma InRangeIff(e: Encoding, v: int)
    ensures InRange(e, v) <==> FromBytes(e, ToBytes(e, v)) == v
  {
    if InRange(e, v) {
      ValueRoundTrip(e, v);
    } else if e.Int32? || e.Float32? {
      Word32(Wrapped(e, v));
    } else {
      Word16(Wrapped(e, v));
    }
  }

  lemma Float32RoundTrip(v: int)
    requires InRange(Float32, v)
    ensures FromBytes(Float32, ToBytes(Float32, v)) == v
  {
    Word32(v);
    assert v % 0x1_0000_0000 == v;
  }

  lemma Int16RoundTrip(v: int)
    requires InRange(Int16, v)
    ensures FromBytes(Int16, ToBytes(Int16, v)) == v
  {
    Word16(v % 0x1_0000);
    assert v % 0x1_0000 == if v < 0 then v + 0x1_0000 else v;
  }

  lemma Int32RoundTrip(v: int)
    requires InRange(Int32, v)
    ensures FromBytes(Int32, ToBytes(Int32, v)) == v
  {
    Word32(v % 0x1_0000_0000);
    assert v % 0x1_0000_0000 == if v < 0 then v + 0x1_0000_0000 else v;
  }

  lemma Word16(n: nat)
    requires n < 0x1_0000
    ensures FromLittleEndian(LittleEndian(n, 2)) == n
  {
    assert Pow256(2) == 256 * Pow256(1) && Pow256(1) == 256 * Pow256(0);
    LittleEndianRoundTrip(n, 2);
  }

  // ------------------------------------------------------------------------- matrices

  /** At least one row, at least one channel, all rows equally long. */
  predicate Rectangular(m: seq<seq<int>>) {
    m != [] && m[0] != [] && forall r :: 0 <= r < |m| ==> |m[r]| == |m[0]|
  }

  predicate Representable(e: Encoding, m: seq<seq<int>>) {
    forall r, c :: 0 <= r < |m| && 0 <= c < |m[r]| ==> InRange(e, m[r][c])
  }

  function Encoded(e: Encoding, vs: seq<int>): seq<Byte> {
    if vs == [] then [] else Encoded(e, vs[..|vs| - 1]) + ToBytes(e, vs[|vs| - 1])
  }

  lemma {:induction false} EncodedLength(e: Encoding, vs: seq<int>)
    ensures |Encoded(e, vs)| == Offset(e, |vs|)
  {
    if vs != [] { EncodedLength(e, vs[..|vs| - 1]); }
  }

  lemma SliceOfFront(a: seq<Byte>, b: seq<Byte>, at: nat, n: nat)
    requires at + n <= |a|
    ensures (a + b)[at..at + n] == a[at..at + n]
  {}

  lemma SliceOfBack(a: seq<Byte>, b: seq<Byte>)
    ensures (a + b)[|a|..|a| + |b|] == b
  {}

  /** The bytes of value `k` are at `k` times the width. */
  lemma {:induction false} EncodedAt(e: Encoding, vs: seq<int>, k: nat)
    requires k < |vs|
    ensures Offset(e, k) + Width(e) <= |Encoded(e, vs)|
    ensures Encoded(e, vs)[Offset(e, k)..Offset(e, k) + Width(e)] == ToBytes(e, vs[k])
  {
    var front, last := Encoded(e, vs[..|vs| - 1]), ToBytes(e, vs[|vs| - 1]);
    EncodedSplit(e, vs);
    if k < |vs| - 1 {
      EncodedAt(e, vs[..|vs| - 1], k);
      SliceOfFront(front, last, Offset(e, k), Width(e));
    } else {
      SliceOfBack(front, last);
    }
  }

  lemma EncodedSplit(e: Encoding, vs: seq<int>)
    requires vs != []
    ensures Encoded(e, vs) == Encoded(e, vs[..|vs| - 1]) + ToBytes(e, vs[|vs| - 1])
    ensures |Encoded(e, vs[..|vs| - 1])| == Offset(e, |vs| - 1)
  {
    EncodedLength(e, vs[..|vs| - 1]);
  }

  /** Rows one after the other. */
  function Rows(m: seq<seq<int>>): seq<int> {
    if m == [] then [] else Rows(m[..|m| - 1]) + m[|m| - 1]
  }

  function Column(m: seq<seq<int>>, c: nat): seq<int>
    requires forall r :: 0 <= r < |m| ==> c < |m[r]|
  {
    seq(|m|, r requires 0 <= r < |m| => m[r][c])
  }

  /** The first `n` columns one after the other. */
  function Columns(m: seq<seq<int>>, n: nat): seq<int>
    requires forall r :: 0 <= r < |m| ==> n <= |m[r]|
  {
    if n == 0 then [] else Columns(m, n - 1) + Column(m, n - 1)
  }

  /** The order of values in a frame. */
  function Ordered(m: seq<seq<int>>, layout: Layout): seq<int>
    requires Rectangular(m)
  {
    if layout.Interleaved? then Rows(m) else Columns(m, |m[0]|)
  }

  /** Position of sample `s` of channel `c` among the values of a frame: s * channels + c in row
      order, c * samples + s channel by channel. */
  function ValueIndex(layout: Layout, samples: nat, channels: nat, s: nat, c: nat): nat {
    if layout.Interleaved? then Times(s, channels) + c else Times(c, samples) + s
  }

  lemma IndexBound(a: nat, b: nat, m: nat, n: nat)
    requires a < m && b < n
    ensures Times(a, n) + b < Times(m, n)
  {
    TimesGrows(a + 1, m, n);
  }

  lemma {:induction false} RowsAt(m: seq<seq<int>>, width: nat, s: nat, c: nat)
    requires s < |m| && c < width && forall r :: 0 <= r < |m| ==> |m[r]| == width
    ensures |Rows(m)| == Times(|m|, width) && Times(s, width) + c < |Rows(m)| && Rows(m)[Times(s, width) + c] == m[s][c]
  {
    var front := m[..|m| - 1];
    RowsLength(front, width);
    RowsLength(m, width);
    IndexBound(s, c, |m|, width);
    if s < |front| {
      RowsAt(front, width, s, c);
    }
  }

  lemma {:induction false} RowsLength(m: seq<seq<int>>, width: nat)
    requires forall r :: 0 <= r < |m| ==> |m[r]| == width
    ensures |Rows(m)| == Times(|m|, width)
  {
    if m != [] { RowsLength(m[..|m| - 1], width); }
  }

  lemma {:induction false} ColumnsAt(m: seq<seq<int>>, n: nat, s: nat, c: nat)
    requires s < |m| && c < n && forall r :: 0 <= r < |m| ==> n <= |m[r]|
    ensures |Columns(m, n)| == Times(n, |m|) && Times(c, |m|) + s < |Columns(m, n)| && Columns(m, n)[Times(c, |m|) + s] == m[s][c]
  {
    ColumnsLength(m, n - 1);
    ColumnsLength(m, n);
    IndexBound(c, s, n, |m|);
    if c < n - 1 {
      ColumnsAt(m, n - 1, s, c);
    }
  }

  lemma {:induction false} ColumnsLength(m: seq<seq<int>>, n: nat)
    requires forall r :: 0 <= r < |m| ==> n <= |m[r]|
    ensures |Columns(m, n)| == Times(n, |m|)
  {
    if n > 0 { ColumnsLength(m, n - 1); }
  }

  /** Both orders put every sample exactly where the index arithmetic looks for it. */
  lemma OrderedAt(m: seq<seq<int>>, layout: Layout, s: nat, c: nat)
    requires Rectangular(m) && s < |m| && c < |m[0]|
    ensures |Ordered(m, layout)| == Times(|m|, |m[0]|)
    ensures ValueIndex(layout, |m|, |m[0]|, s, c) < |Ordered(m, layout)|
    ensures Ordered(m, layout)[ValueIndex(layout, |m|, |m[0]|, s, c)] == m[s][c]
    ensures ValueIndex(layout, |m|, |m[0]|, s, c) == if layout.Interleaved? then s * |m[0]| + c else c * |m| + s
  {
    TimesIs(s, |m[0]|);
    TimesIs(c, |m|);
    if layout.Interleaved? {
      RowsAt(m, |m[0]|, s, c);
    } else {
      Commute(|m|, |m[0]|);
      ColumnsAt(m, |m[0]|, s, c);
    }
  }

  // ----------------------------------------------------------------------- the packers

  lemma EncodedNext(e: Encoding, done: seq<int>, vs: seq<int>, k: nat)
    requires k < |vs|
    ensures Encoded(e, done + vs[..k + 1]) == Encoded(e, done + vs[..k]) + ToBytes(e, vs[k])
  {
    var longer := done + vs[..k + 1];
    assert longer[..|longer| - 1] == done + vs[..k];
  }

  lemma RowsSnoc(m: seq<seq<int>>, r: nat)
    requires r < |m|
    ensures Rows(m[..r + 1]) == Rows(m[..r]) + m[r]
  {
    assert m[..r + 1][..r] == m[..r];
  }

  datatype Packed = Packed(bytes: seq<Byte>, sampleCount: nat)

  /** The input check both packers start with. */
  method CheckRows(m: seq<seq<int>>) returns (ok: bool)
    ensures ok <==> Rectangular(m)
  {
    if |m| == 0 || |m[0]| == 0 {
      return false;
    }
    for i := 0 to |m|
      invariant forall k :: 0 <= k < i ==> |m[k]| == |m[0]|
    {
      if |m[i]| != |m[0]| {
        return false;
      }
    }
    ok := true;
  }

  /** pack_signal_samples of the Rust client: writes each value's bytes as it goes; the row
      count is cast to 32 bits. */
  method PackRust(m: seq<seq<int>>, e: Encoding, layout: Layout) returns (r: Option<Packed>)
    requires Representable(e, m)
    ensures r.Some? <==> Rectangular(m)
    ensures r.Some? ==> r.value == Packed(Encoded(e, Ordered(m, layout)), |m| % 0x1_0000_0000)
  {
    var ok := CheckRows(m);
    if !ok {
      return None;
    }
    var bytes;
    if layout.Interleaved? {
      bytes := PackRows(m, e);
    } else {
      bytes := PackColumns(m, e);
    }
    r := Some(Packed(bytes, |m| % 0x1_0000_0000));
  }

  method PackRows(m: seq<seq<int>>, e: Encoding) returns (bytes: seq<Byte>)
    ensures bytes == Encoded(e, Rows(m))
  {
    bytes := [];
    assert m[..0] == [];
    for i := 0 to |m|
      invariant bytes == Encoded(e, Rows(m[..i]))
    {
      bytes := PackOnto(bytes, m[i], e, Rows(m[..i]));
      RowsSnoc(m, i);
    }
    assert m[..|m|] == m;
  }

  method PackOnto(start: seq<Byte>, row: seq<int>, e: Encoding, ghost done: seq<int>) returns (bytes: seq<Byte>)
    requires start == Encoded(e, done)
    ensures bytes == Encoded(e, done + row)
  {
    bytes := start;
    assert done + row[..0] == done;
    for c := 0 to |row|
      invariant bytes == Encoded(e, done + row[..c])
    {
      EncodedNext(e, done, row, c);
      bytes := bytes + ToBytes(e, row[c]);
    }
    assert row[..|row|] == row;
  }

  method PackColumns(m: seq<seq<int>>, e: Encoding) returns (bytes: seq<Byte>)
    requires Rectangular(m)
    ensures bytes == Encoded(e, Columns(m, |m[0]|))
  {
    bytes := [];
    for c := 0 to |m[0]|
      invariant bytes == Encoded(e, Columns(m, c))
    {
      bytes := PackColumnOnto(bytes, m, c, e, Columns(m, c), Column(m, c));
    }
  }

  method PackColumnOnto(start: seq<Byte>, m: seq<seq<int>>, c: nat, e: Encoding, ghost done: seq<int>, ghost column: seq<int>)
    returns (bytes: seq<Byte>)
    requires |column| == |m| && forall r :: 0 <= r < |m| ==> c < |m[r]| && m[r][c] == column[r]
    requires start == Encoded(e, done)
    ensures bytes == Encoded(e, done + column)
  {
    bytes := start;
    assert done + column[..0] == done;
    for i := 0 to |m|
      invariant bytes == Encoded(e, done + column[..i])
    {
      EncodedNext(e, done, column, i);
      bytes := bytes + ToBytes(e, m[i][c]);
    }
    assert column[..|m|] == column;
  }

  predicate AllInRange(e: Encoding, vs: seq<int>) {
    forall k :: 0 <= k < |vs| ==> InRange(e, vs[k])
  }

  /** The Python client's list-of-rows path: order the values first, then pack them. A value
      its struct format cannot hold raises. */
  method PackPython(m: seq<seq<int>>, e: Encoding, layout: Layout) returns (r: Option<Packed>)
    ensures r.Some? <==> Rectangular(m) && AllInRange(e, Ordered(m, layout))
    ensures r.Some? ==> r.value == Packed(Encoded(e, Ordered(m, layout)), |m|)
  {
    var ok := CheckRows(m);
    if !ok {
      return None;
    }
    var ordered := [];
    if layout.Interleaved? {
      ordered := Rows(m);
    } else {
      for c := 0 to |m[0]|
        invariant ordered == Columns(m, c)
      {
        ordered := ordered + Column(m, c);
      }
    }
    assert ordered == Ordered(m, layout);
    var bytes := PackStruct(ordered, e);
    r := if bytes.Some? then Some(Packed(bytes.value, |m|)) else None;
  }

  /** Packing a prefix, up to the first value that does not fit. */
  ghost predicate PackedPrefix(e: Encoding, ordered: seq<int>, k: nat, bytes: seq<Byte>) {
    k <= |ordered| && bytes == Encoded(e, ordered[..k]) && forall j :: 0 <= j < k ==> InRange(e, ordered[j])
  }

  lemma PackedPrefixNext(e: Encoding, ordered: seq<int>, k: nat, bytes: seq<Byte>)
    requires PackedPrefix(e, ordered, k, bytes) && k < |ordered| && InRange(e, ordered[k])
    ensures PackedPrefix(e, ordered, k + 1, bytes + ToBytes(e, ordered[k]))
  {
    assert ordered[..k + 1][..k] == ordered[..k];
  }

  lemma PackedPrefixAll(e: Encoding, ordered: seq<int>, bytes: seq<Byte>)
    requires PackedPrefix(e, ordered, |ordered|, bytes)
    ensures AllInRange(e, ordered) && bytes == Encoded(e, ordered)
  {
    assert ordered[..|ordered|] == ordered;
  }

  method PackStruct(ordered: seq<int>, e: Encoding) returns (r: Option<seq<Byte>>)
    ensures r.Some? <==> AllInRange(e, ordered)
    ensures r.Some? ==> r.value == Encoded(e, ordered)
  {
    var bytes := [];
    for k := 0 to |ordered|
      invariant PackedPrefix(e, ordered, k, bytes)
    {
      if !InRange(e, ordered[k]) {
        return None;
      }
      PackedPrefixNext(e, ordered, k, bytes);
      bytes := bytes + ToBytes(e, ordered[k]);
    }
    PackedPrefixAll(e, ordered, bytes);
    r := Some(bytes);
  }

  // ---------------------------------------------------------------------- the decoders

  datatype Channel = Channel(key: string, scale: Option<real>, offset: Option<real>)

  /** Scale first, then offset. */
  function Affine(v: Number, ch: Channel): Number {
    var scaled := if ch.scale.Some? then ScaledBy(v, ch.scale.value) else v;
    if ch.offset.Some? then ShiftedBy(scaled, ch.offset.value) else scaled
  }

  /** As many bytes as the values of a frame take. */
  predicate WellSized(bytes: seq<Byte>, e: Encoding, samples: nat, channels: nat) {
    |bytes| == Offset(e, Times(samples, channels))
  }

  lemma WellSizedIs(bytes: seq<Byte>, e: Encoding, samples: nat, channels: nat)
    ensures WellSized(bytes, e, samples, channels) <==> |bytes| == samples * channels * Width(e)
    ensures Width(e) == if e.Int16? || e.Uint16? then 2 else 4
  {
    TimesIs(samples, channels);
    OffsetIs(e, samples * channels);
  }

  lemma InBounds(bytes: seq<Byte>, e: Encoding, samples: nat, channels: nat, k: nat)
    requires WellSized(bytes, e, samples, channels) && k < Times(samples, channels)
    ensures Offset(e, k) + Width(e) <= |bytes|
  {}

  lemma IndexInBounds(layout: Layout, samples: nat, channels: nat, s: nat, c: nat)
    requires s < samples && c < channels
    ensures ValueIndex(layout, samples, channels, s, c) < Times(samples, channels)
  {
    Commute(samples, channels);
    if layout.Interleaved? { IndexBound(s, c, samples, channels); } else { IndexBound(c, s, channels, samples); }
  }

  /** decode_sample at a byte offset. */
  function DecodeAt(bytes: seq<Byte>, offset: nat, e: Encoding): Number
    requires offset + Width(e) <= |bytes|
  {
    Meaning(e, FromBytes(e, bytes[offset..offset + Width(e)]))
  }

  datatype Frame = Frame(bytes: seq<Byte>, encoding: Encoding, layout: Layout, samples: nat, channels: seq<Channel>)
  {
    ghost predicate Valid() { WellSized(bytes, encoding, samples, |channels|) }

    function Total(): nat { Times(samples, |channels|) }
  }

  /** The indexed decoder: the value of sample `s` of channel `c`, read where it belongs. */
  function Indexed(f: Frame, s: nat, c: nat): Number
    requires f.Valid() && s < f.samples && c < |f.channels|
  {
    IndexInBounds(f.layout, f.samples, |f.channels|, s, c);
    var k := ValueIndex(f.layout, f.samples, |f.channels|, s, c);
    InBounds(f.bytes, f.encoding, f.samples, |f.channels|, k);
    Affine(DecodeAt(f.bytes, Offset(f.encoding, k), f.encoding), f.channels[c])
  }

  /** The first `n` values of a channel according to the indexed decoder. */
  function Prefix(f: Frame, c: nat, n: nat): seq<Number>
    requires f.Valid() && c < |f.channels| && n <= f.samples
  {
    seq(n, s requires 0 <= s < n => Indexed(f, s, c))
  }

  predicate DistinctKeys(channels: seq<Channel>) {
    forall i, j :: 0 <= i < j < |channels| ==> channels[i].key != channels[j].key
  }

  // --------------------------------------------------------------- the sequential decoder

  /** The channel the sequential decoder has reached after `k` values: a row of channels again
      and again, or all samples of one channel after the other. */
  function ChannelOf(layout: Layout, samples: nat, channels: nat, k: nat): (c: nat)
    requires k < Times(samples, channels)
    ensures c < channels
    decreases k
  {
    TimesPositive(samples, channels);
    Commute(samples, channels);
    if layout.Interleaved? then
      if k < channels then k else ChannelOf(layout, samples - 1, channels, k - channels)
    else
      if k < samples then 0 else Commute(samples, channels - 1); 1 + ChannelOf(layout, samples, channels - 1, k - samples)
  }

  lemma TimesPositive(a: nat, b: nat)
    requires Times(a, b) > 0
    ensures a > 0 && b > 0
  {
    TimesIs(a, b);
  }

  lemma {:induction false} ChannelOfIndex(layout: Layout, samples: nat, channels: nat, s: nat, c: nat)
    requires s < samples && c < channels
    ensures ValueIndex(layout, samples, channels, s, c) < Times(samples, channels)
    ensures ChannelOf(layout, samples, channels, ValueIndex(layout, samples, channels, s, c)) == c
    decreases s + c
  {
    IndexInBounds(layout, samples, channels, s, c);
    if layout.Interleaved? {
      if s > 0 { ChannelOfIndex(layout, samples - 1, channels, s - 1, c); }
    } else {
      if c > 0 { ChannelOfIndex(layout, samples, channels - 1, s, c - 1); }
    }
  }

  /** The `k`-th value in wire order, through its channel's affine map. */
  function Decoded(f: Frame, k: nat): Number
    requires f.Valid() && k < f.Total()
  {
    InBounds(f.bytes, f.encoding, f.samples, |f.channels|, k);
    Affine(DecodeAt(f.bytes, Offset(f.encoding, k), f.encoding),
           f.channels[ChannelOf(f.layout, f.samples, |f.channels|, k)])
  }

  /** What the first `n` values of a frame contribute to the list kept under `key`. */
  function Collected(f: Frame, key: string, n: nat): seq<Number>
    requires f.Valid() && n <= f.Total()
  {
    if n == 0 then []
    else if f.channels[ChannelOf(f.layout, f.samples, |f.channels|, n - 1)].key == key
    then Collected(f, key, n - 1) + [Decoded(f, n - 1)]
    else Collected(f, key, n - 1)
  }

  ghost function Keys(channels: seq<Channel>): set<string> {
    set c | 0 <= c < |channels| :: channels[c].key
  }

  /** The decoder's state after `n` values: `offset` is just past them and every channel's list
      holds its share of them. */
  ghost predicate Reached(f: Frame, values: map<string, seq<Number>>, offset: nat, n: nat) {
    f.Valid() && n <= f.Total() && offset == Offset(f.encoding, n) && Collects(f, values, n)
  }

  ghost predicate Collects(f: Frame, values: map<string, seq<Number>>, n: nat)
    requires f.Valid() && n <= f.Total()
  {
    values.Keys == Keys(f.channels) && forall key :: key in values ==> values[key] == Collected(f, key, n)
  }

  method DecodeNext(f: Frame, c: nat, offset: nat, values: map<string, seq<Number>>, ghost n: nat)
    returns (r: map<string, seq<Number>>, next: nat)
    requires n < f.Total() && ChannelOf(f.layout, f.samples, |f.channels|, n) == c
    requires Reached(f, values, offset, n)
    ensures Reached(f, r, next, n + 1)
  {
    InBounds(f.bytes, f.encoding, f.samples, |f.channels|, n);
    var channel := f.channels[c];
    assert channel.key in Keys(f.channels);
    r := values[channel.key := values[channel.key] + [Affine(DecodeAt(f.bytes, offset, f.encoding), channel)]];
    next := offset + Width(f.encoding);
  }

  method EmptyLists(channels: seq<Channel>) returns (values: map<string, seq<Number>>)
    ensures values.Keys == Keys(channels) && forall key :: key in values ==> values[key] == []
  {
    values := map[];
    for c := 0 to |channels|
      invariant values.Keys == Keys(channels[..c]) && forall key :: key in values ==> values[key] == []
    {
      values := values[channels[c].key := []];
      KeysSnoc(channels, c);
    }
    assert channels[..|channels|] == channels;
  }

  lemma KeysSnoc(channels: seq<Channel>, c: nat)
    requires c < |channels|
    ensures Keys(channels[..c + 1]) == Keys(channels[..c]) + {channels[c].key}
  {
    forall key | key in Keys(channels[..c]) + {channels[c].key} ensures key in Keys(channels[..c + 1]) {
      if key == channels[c].key {
        assert channels[..c + 1][c].key == key;
      } else {
        var i :| 0 <= i < c && channels[..c][i].key == key;
        assert channels[..c + 1][i].key == key;
      }
    }
  }

  /** One row of the interleaved loop. */
  method DecodeRow(f: Frame, s: nat, offset: nat, values: map<string, seq<Number>>)
    returns (r: map<string, seq<Number>>, next: nat)
    requires f.layout.Interleaved? && s < f.samples
    requires Reached(f, values, offset, Times(s, |f.channels|))
    ensures Reached(f, r, next, Times(s + 1, |f.channels|))
  {
    r, next := values, offset;
    ghost var start := Times(s, |f.channels|);
    for c := 0 to |f.channels|
      invariant Reached(f, r, next, start + c)
    {
      ChannelOfIndex(f.layout, f.samples, |f.channels|, s, c);
      r, next := DecodeNext(f, c, next, r, start + c);
    }
  }

  /** One channel of the planar loop. */
  method DecodeColumn(f: Frame, c: nat, offset: nat, values: map<string, seq<Number>>)
    returns (r: map<string, seq<Number>>, next: nat)
    requires f.layout.Planar? && c < |f.channels|
    requires Reached(f, values, offset, Times(c, f.samples))
    ensures Reached(f, r, next, Times(c + 1, f.samples))
  {
    r, next := values, offset;
    ghost var start := Times(c, f.samples);
    for s := 0 to f.samples
      invariant Reached(f, r, next, start + s)
    {
      ChannelOfIndex(f.layout, f.samples, |f.channels|, s, c);
      r, next := DecodeNext(f, c, next, r, start + s);
    }
  }

  method DecodeRows(f: Frame, start: map<string, seq<Number>>) returns (values: map<string, seq<Number>>)
    requires f.layout.Interleaved? && Reached(f, start, 0, 0)
    ensures Collects(f, values, f.Total())
  {
    values := start;
    var offset := 0;
    for s := 0 to f.samples
      invariant Reached(f, values, offset, Times(s, |f.channels|))
    {
      values, offset := DecodeRow(f, s, offset, values);
    }
  }

  method DecodeColumns(f: Frame, start: map<string, seq<Number>>) returns (values: map<string, seq<Number>>)
    requires f.layout.Planar? && Reached(f, start, 0, 0)
    ensures Collects(f, values, f.Total())
  {
    values := start;
    var offset := 0;
    for c := 0 to |f.channels|
      invariant Reached(f, values, offset, Times(c, f.samples))
    {
      values, offset := DecodeColumn(f, c, offset, values);
    }
    Commute(|f.channels|, f.samples);
  }

  /** decode_samples of the query service; `samples` is the frame's signed count, None an
      encoding or layout name it does not know. The result None stands for the ValueErrors. */
  method DecodeSequential(bytes: seq<Byte>, e: Option<Encoding>, layout: Option<Layout>, channels: seq<Channel>, samples: int)
    returns (r: Option<map<string, seq<Number>>>)
    ensures r.Some? <==>
              channels != [] && samples > 0 && e.Some? && layout.Some? && WellSized(bytes, e.value, samples, |channels|)
    ensures r.Some? ==>
              var f := Frame(bytes, e.value, layout.value, samples, channels);
              Collects(f, r.value, f.Total())
  {
    if e.Some? && samples > 0 { WellSizedIs(bytes, e.value, samples, |channels|); }
    if channels == [] || samples <= 0 || e.None? || |bytes| != samples * |channels| * Width(e.value) || layout.None? {
      return None;
    }
    var f := Frame(bytes, e.value, layout.value, samples, channels);
    var values := EmptyLists(f.channels);
    if f.layout.Interleaved? {
      values := DecodeRows(f, values);
    } else {
      values := DecodeColumns(f, values);
    }
    r := Some(values);
  }

  // ----------------------------------------------------------- round trip and agreement

  /** How many of the first `n` channels carry a key. */
  function Carriers(channels: seq<Channel>, key: string, n: nat): nat
    requires n <= |channels|
  {
    if n == 0 then 0 else Carriers(channels, key, n - 1) + if channels[n - 1].key == key then 1 else 0
  }

  function Multiplicity(channels: seq<Channel>, key: string): nat {
    Carriers(channels, key, |channels|)
  }

  lemma {:induction false} CarriersShared(channels: seq<Channel>, i: nat, j: nat, n: nat)
    requires i < j < n <= |channels| && channels[i].key == channels[j].key
    ensures Carriers(channels, channels[i].key, n) >= 2
  {
    if j < n - 1 { CarriersShared(channels, i, j, n - 1); } else { CarriersHeld(channels, i, n - 1); }
  }

  lemma {:induction false} CarriersHeld(channels: seq<Channel>, i: nat, n: nat)
    requires i < n <= |channels|
    ensures Carriers(channels, channels[i].key, n) >= 1
  {
    if i < n - 1 { CarriersHeld(channels, i, n - 1); }
  }

  lemma HeldKey(channels: seq<Channel>, i: nat)
    requires i < |channels|
    ensures Multiplicity(channels, channels[i].key) >= 1
  {
    CarriersHeld(channels, i, |channels|);
  }

  /** The sequential decoder appends, at each position, the value the indexed decoder reads there. */
  lemma CollectedNext(f: Frame, key: string, s: nat, c: nat)
    requires f.Valid() && s < f.samples && c < |f.channels|
    ensures var k := ValueIndex(f.layout, f.samples, |f.channels|, s, c);
            k < f.Total()
            && Collected(f, key, k + 1) == Collected(f, key, k) + if f.channels[c].key == key then [Indexed(f, s, c)] else []
  {
    ChannelOfIndex(f.layout, f.samples, |f.channels|, s, c);
  }

  /** Rows of an interleaved frame, and channels of a planar one, tile it. */
  lemma Tiles(f: Frame, s: nat)
    ensures f.layout.Interleaved? ==> Times(f.samples, |f.channels|) == f.Total()
    ensures f.layout.Planar? ==> Times(|f.channels|, f.samples) == f.Total()
    ensures f.layout.Interleaved? && s <= f.samples ==> Times(s, |f.channels|) <= f.Total()
    ensures f.layout.Planar? && s <= |f.channels| ==> Times(s, f.samples) <= f.Total()
  {
    Commute(|f.channels|, f.samples);
    if f.layout.Interleaved? && s <= f.samples { TimesGrows(s, f.samples, |f.channels|); }
    if f.layout.Planar? && s <= |f.channels| { TimesGrows(s, |f.channels|, f.samples); }
  }

  /** The next value's contribution to the list under `key`. */
  function Part(f: Frame, key: string, s: nat, c: nat): seq<Number>
    requires f.Valid() && s < f.samples && c < |f.channels|
  {
    if f.channels[c].key == key then [Indexed(f, s, c)] else []
  }

  lemma NextInRow(f: Frame, key: string, s: nat, c: nat)
    requires f.Valid() && f.layout.Interleaved? && s < f.samples && c < |f.channels|
    ensures Times(s, |f.channels|) + c < f.Total()
    ensures Collected(f, key, Times(s, |f.channels|) + c + 1) == Collected(f, key, Times(s, |f.channels|) + c) + Part(f, key, s, c)
  {
    CollectedNext(f, key, s, c);
  }

  lemma NextInColumn(f: Frame, key: string, s: nat, c: nat)
    requires f.Valid() && f.layout.Planar? && s < f.samples && c < |f.channels|
    ensures Times(c, f.samples) + s < f.Total()
    ensures Collected(f, key, Times(c, f.samples) + s + 1) == Collected(f, key, Times(c, f.samples) + s) + Part(f, key, s, c)
  {
    CollectedNext(f, key, s, c);
  }

  /** Only channel `c` itself adds to its list. */
  lemma RowAdds(f: Frame, c: nat, s: nat, t: nat)
    requires f.Valid() && f.layout.Interleaved? && DistinctKeys(f.channels) && c < |f.channels|
    requires t < |f.channels| && s < f.samples
    ensures Times(s, |f.channels|) + t < f.Total()
    ensures Collected(f, f.channels[c].key, Times(s, |f.channels|) + t + 1)
         == Collected(f, f.channels[c].key, Times(s, |f.channels|) + t) + if t == c then [Indexed(f, s, c)] else []
  {
    NextInRow(f, f.channels[c].key, s, t);
    SameKeyIff(f.channels, c, t);
  }

  /** Lists that each extend the one before by nothing, except after step `c`, by `x`. */
  lemma {:induction false} ExtendedOnce(lists: seq<seq<Number>>, x: Number, c: nat, t: nat)
    requires t < |lists|
    requires forall k :: 0 <= k < |lists| - 1 ==> lists[k + 1] == lists[k] + if k == c then [x] else []
    ensures lists[t] == lists[0] + if t > c then [x] else []
  {
    if t > 0 { ExtendedOnce(lists, x, c, t - 1); }
  }

  /** The list of channel `c` after each value of row `s` of an interleaved frame. */
  function RowLists(f: Frame, c: nat, s: nat): (lists: seq<seq<Number>>)
    requires f.Valid() && f.layout.Interleaved? && c < |f.channels| && s < f.samples
    ensures |lists| == |f.channels| + 1
  {
    seq(|f.channels| + 1, t requires 0 <= t <= |f.channels| =>
          Tiles(f, s + 1); Collected(f, f.channels[c].key, Times(s, |f.channels|) + t))
  }

  lemma RowListsNext(f: Frame, c: nat, s: nat, k: nat)
    requires f.Valid() && f.layout.Interleaved? && DistinctKeys(f.channels) && c < |f.channels| && s < f.samples
    requires k < |f.channels|
    ensures RowLists(f, c, s)[k + 1] == RowLists(f, c, s)[k] + if k == c then [Indexed(f, s, c)] else []
  {
    RowAdds(f, c, s, k);
  }

  lemma RowListsAt(f: Frame, c: nat, s: nat, t: nat)
    requires f.Valid() && f.layout.Interleaved? && c < |f.channels| && s < f.samples && t <= |f.channels|
    ensures Times(s, |f.channels|) + |f.channels| <= f.Total()
    ensures RowLists(f, c, s)[t] == Collected(f, f.channels[c].key, Times(s, |f.channels|) + t)
  {
    Tiles(f, s + 1);
  }

  /** Row `s` of an interleaved frame adds one value to the list of each channel. */
  lemma CollectedRow(f: Frame, c: nat, s: nat)
    requires f.Valid() && f.layout.Interleaved? && DistinctKeys(f.channels) && c < |f.channels| && s < f.samples
    ensures Times(s, |f.channels|) + |f.channels| <= f.Total()
    ensures Collected(f, f.channels[c].key, Times(s, |f.channels|) + |f.channels|)
         == Collected(f, f.channels[c].key, Times(s, |f.channels|)) + [Indexed(f, s, c)]
  {
    var lists, x := RowLists(f, c, s), Indexed(f, s, c);
    forall k | 0 <= k < |lists| - 1 ensures lists[k + 1] == lists[k] + if k == c then [x] else [] {
      RowListsNext(f, c, s, k);
    }
    ExtendedOnce(lists, x, c, |f.channels|);
    RowListsAt(f, c, s, 0);
    RowListsAt(f, c, s, |f.channels|);
  }

  lemma {:induction false} CollectedRows(f: Frame, c: nat, s: nat)
    requires f.Valid() && f.layout.Interleaved? && DistinctKeys(f.channels) && c < |f.channels| && s <= f.samples
    ensures Times(s, |f.channels|) <= f.Total() && Collected(f, f.channels[c].key, Times(s, |f.channels|)) == Prefix(f, c, s)
  {
    if s == 0 {
      PrefixZero(f, c);
    } else {
      CollectedRows(f, c, s - 1);
      CollectedRow(f, c, s - 1);
      PrefixNext(f, c, s - 1);
    }
  }

  /** Lists that each extend the one before by the next element of `p`, or not at all. */
  lemma {:induction false} Accumulated(lists: seq<seq<Number>>, p: seq<Number>, held: bool, t: nat)
    requires |lists| == |p| + 1 && t <= |p|
    requires forall k :: 0 <= k < |p| ==> lists[k + 1] == lists[k] + if held then [p[k]] else []
    ensures lists[t] == lists[0] + if held then p[..t] else []
  {
    if t > 0 {
      Accumulated(lists, p, held, t - 1);
      assert p[..t] == p[..t - 1] + [p[t - 1]];
    }
  }

  /** The list under `key` after each sample of channel `d` of a planar frame. */
  function ColumnLists(f: Frame, key: string, d: nat): (lists: seq<seq<Number>>)
    requires f.Valid() && f.layout.Planar? && d < |f.channels|
    ensures |lists| == f.samples + 1
  {
    seq(f.samples + 1, t requires 0 <= t <= f.samples =>
          Tiles(f, d + 1); Collected(f, key, Times(d, f.samples) + t))
  }

  /** Channel `d` of a planar frame adds its values to the lists under its key. */
  lemma CollectedColumn(f: Frame, key: string, d: nat)
    requires f.Valid() && f.layout.Planar? && d < |f.channels|
    ensures Times(d, f.samples) + f.samples <= f.Total()
    ensures Collected(f, key, Times(d, f.samples) + f.samples)
         == Collected(f, key, Times(d, f.samples)) + if f.channels[d].key == key then Prefix(f, d, f.samples) else []
  {
    Tiles(f, d + 1);
    var lists, p, held := ColumnLists(f, key, d), Prefix(f, d, f.samples), f.channels[d].key == key;
    forall k | 0 <= k < |p| ensures lists[k + 1] == lists[k] + if held then [p[k]] else [] {
      NextInColumn(f, key, k, d);
    }
    Accumulated(lists, p, held, f.samples);
    assert p[..f.samples] == p;
    assert lists[0] == Collected(f, key, Times(d, f.samples));
  }

  lemma PrefixZero(f: Frame, c: nat)
    requires f.Valid() && c < |f.channels|
    ensures Prefix(f, c, 0) == []
  {}

  lemma PrefixNext(f: Frame, c: nat, n: nat)
    requires f.Valid() && c < |f.channels| && n < f.samples
    ensures Prefix(f, c, n + 1) == Prefix(f, c, n) + [Indexed(f, n, c)]
  {}

  lemma SameKeyIff(channels: seq<Channel>, c: nat, d: nat)
    requires DistinctKeys(channels) && c < |channels| && d < |channels|
    ensures channels[d].key == channels[c].key <==> d == c
  {}

  lemma AddedOnce(list: seq<Number>, whole: seq<Number>, c: nat, d: nat)
    requires list == if d > c then whole else []
    ensures list + (if d == c then whole else []) == if d + 1 > c then whole else []
  {}

  lemma ColumnAdds(f: Frame, c: nat, d: nat)
    requires f.Valid() && f.layout.Planar? && DistinctKeys(f.channels) && c < |f.channels| && d < |f.channels|
    ensures Times(d, f.samples) + f.samples <= f.Total()
    ensures Collected(f, f.channels[c].key, Times(d, f.samples) + f.samples)
         == Collected(f, f.channels[c].key, Times(d, f.samples)) + if d == c then Prefix(f, c, f.samples) else []
  {
    SameKeyIff(f.channels, c, d);
    CollectedColumn(f, f.channels[c].key, d);
  }

  lemma {:induction false} CollectedColumns(f: Frame, c: nat, d: nat)
    requires f.Valid() && f.layout.Planar? && DistinctKeys(f.channels) && c < |f.channels| && d <= |f.channels|
    ensures Times(d, f.samples) <= f.Total()
    ensures Collected(f, f.channels[c].key, Times(d, f.samples)) == if d > c then Prefix(f, c, f.samples) else []
  {
    if d > 0 {
      CollectedColumns(f, c, d - 1);
      ColumnAdds(f, c, d - 1);
      AddedOnce(Collected(f, f.channels[c].key, Times(d - 1, f.samples)), Prefix(f, c, f.samples), c, d - 1);
    }
  }

  /** With distinct keys the sequential decoder's list for a channel is its indexed values. */
  lemma DecodersAgree(f: Frame, c: nat)
    requires f.Valid() && DistinctKeys(f.channels) && c < |f.channels|
    ensures Collected(f, f.channels[c].key, f.Total()) == Prefix(f, c, f.samples)
  {
    Tiles(f, 0);
    if f.layout.Interleaved? { CollectedRows(f, c, f.samples); } else { CollectedColumns(f, c, |f.channels|); }
  }

  lemma CountNext(f: Frame, key: string, s: nat, c: nat)
    requires f.Valid() && f.layout.Interleaved? && s < f.samples && c < |f.channels|
    ensures Times(s, |f.channels|) + c < f.Total()
    ensures |Collected(f, key, Times(s, |f.channels|) + c + 1)|
         == |Collected(f, key, Times(s, |f.channels|) + c)| + if f.channels[c].key == key then 1 else 0
  {
    NextInRow(f, key, s, c);
  }

  lemma {:induction false} CountInRow(f: Frame, key: string, s: nat, t: nat)
    requires f.Valid() && f.layout.Interleaved? && t <= |f.channels| && s < f.samples
    ensures Times(s, |f.channels|) + |f.channels| <= f.Total()
    ensures |Collected(f, key, Times(s, |f.channels|) + t)|
         == |Collected(f, key, Times(s, |f.channels|))| + Carriers(f.channels, key, t)
  {
    Tiles(f, s + 1);
    if t > 0 {
      CountInRow(f, key, s, t - 1);
      CountNext(f, key, s, t - 1);
    }
  }

  lemma {:induction false} CountRows(f: Frame, key: string, s: nat)
    requires f.Valid() && f.layout.Interleaved? && s <= f.samples
    ensures Times(s, |f.channels|) <= f.Total()
    ensures |Collected(f, key, Times(s, |f.channels|))| == Times(s, Multiplicity(f.channels, key))
  {
    if s > 0 {
      CountRows(f, key, s - 1);
      CountInRow(f, key, s - 1, |f.channels|);
    }
  }

  lemma CountNextColumn(f: Frame, key: string, d: nat)
    requires f.Valid() && f.layout.Planar? && d < |f.channels|
    ensures Times(d, f.samples) <= f.Total() && Times(d + 1, f.samples) <= f.Total()
    ensures |Collected(f, key, Times(d + 1, f.samples))|
         == |Collected(f, key, Times(d, f.samples))| + if f.channels[d].key == key then f.samples else 0
  {
    CollectedColumn(f, key, d);
  }

  lemma {:induction false} CountColumns(f: Frame, key: string, d: nat)
    requires f.Valid() && f.layout.Planar? && d <= |f.channels|
    ensures Times(d, f.samples) <= f.Total()
    ensures |Collected(f, key, Times(d, f.samples))| == Times(Carriers(f.channels, key, d), f.samples)
  {
    if d > 0 {
      CountColumns(f, key, d - 1);
      CountNextColumn(f, key, d - 1);
      CarriersTimes(f.channels, key, d - 1, f.samples);
    }
  }

  lemma CarriersTimes(channels: seq<Channel>, key: string, d: nat, samples: nat)
    requires d < |channels|
    ensures Times(Carriers(channels, key, d + 1), samples)
         == Times(Carriers(channels, key, d), samples) + if channels[d].key == key then samples else 0
  {}

  /** In general a list holds one value per sample for every channel that carries its key. */
  lemma CollectedCount(f: Frame, key: string)
    requires f.Valid()
    ensures |Collected(f, key, f.Total())| == f.samples * Multiplicity(f.channels, key)
  {
    Tiles(f, 0);
    if f.layout.Interleaved? {
      CountRows(f, key, f.samples);
      TimesIs(f.samples, Multiplicity(f.channels, key));
    } else {
      CountColumns(f, key, |f.channels|);
      Commute(Multiplicity(f.channels, key), f.samples);
      TimesIs(f.samples, Multiplicity(f.channels, key));
    }
  }

  ghost predicate RecoversChannels(f: Frame)
    requires f.Valid()
  {
    forall c :: 0 <= c < |f.channels| ==> Collected(f, f.channels[c].key, f.Total()) == Prefix(f, c, f.samples)
  }

  /** The sequential decoder keeps channels apart exactly when their keys are distinct. */
  lemma RecoversChannelsIff(f: Frame)
    requires f.Valid() && f.samples > 0
    ensures RecoversChannels(f) <==> DistinctKeys(f.channels)
  {
    if DistinctKeys(f.channels) {
      forall c | 0 <= c < |f.channels| ensures Collected(f, f.channels[c].key, f.Total()) == Prefix(f, c, f.samples) {
        DecodersAgree(f, c);
      }
    } else {
      var i, j :| 0 <= i < j < |f.channels| && f.channels[i].key == f.channels[j].key;
      SharedKeyMerges(f, i, j);
      assert |Prefix(f, i, f.samples)| == f.samples;
    }
  }

  lemma SharedKeyMerges(f: Frame, i: nat, j: nat)
    requires f.Valid() && f.samples > 0 && i < j < |f.channels| && f.channels[i].key == f.channels[j].key
    ensures |Collected(f, f.channels[i].key, f.Total())| >= 2 * f.samples
  {
    CarriersShared(f.channels, i, j, |f.channels|);
    CollectedCount(f, f.channels[i].key);
    AtLeastTwice(f.samples, Multiplicity(f.channels, f.channels[i].key));
  }

  lemma AtLeastTwice(n: nat, k: nat)
    requires k >= 2
    ensures n * k >= 2 * n
  {}

  /** The frame a packer's output travels in. */
  function PackedFrame(m: seq<seq<int>>, e: Encoding, layout: Layout, channels: seq<Channel>): Frame
    requires Rectangular(m)
  {
    Frame(Encoded(e, Ordered(m, layout)), e, layout, |m|, channels)
  }

  /** Times the channel's scale, plus its offset, where absent ones are 1 and 0; NaN stays, an infinity
      changes sign with the scale and is NaN times zero. */
  ghost predicate Applied(v: Number, f: Number, ch: Channel) {
    var scale := if ch.scale.Some? then ch.scale.value else 1.0;
    var offset := if ch.offset.Some? then ch.offset.value else 0.0;
    && (f.Finite? ==> v == Finite(f.r * scale + offset))
    && (f.NaN? ==> v == NaN)
    && (f.Infinite? ==> v == if scale == 0.0 then NaN else Infinite(if scale < 0.0 then !f.negative else f.negative))
  }

  /** What a decoder makes of a sample: of an integer itself, of a float32 pattern its number. */
  ghost predicate ReadAs(v: Number, e: Encoding, x: int, ch: Channel) {
    Applied(v, if e == Float32 then FloatValue(x) else Finite(x as real), ch)
  }

  lemma AffineReads(e: Encoding, x: int, ch: Channel)
    ensures ReadAs(Affine(Meaning(e, x), ch), e, x, ch)
  {
    AffineIs(Meaning(e, x), ch);
  }

  lemma AffineIs(v: Number, ch: Channel)
    ensures Applied(Affine(v, ch), v, ch)
  {}

  /** Packed samples have the size the decoders demand, and the indexed decoder reads back
      every sample. */
  lemma IndexedRoundTrip(m: seq<seq<int>>, e: Encoding, layout: Layout, channels: seq<Channel>, s: nat, c: nat)
    requires Rectangular(m) && Representable(e, m) && |channels| == |m[0]|
    requires s < |m| && c < |channels|
    ensures PackedFrame(m, e, layout, channels).Valid()
    ensures Indexed(PackedFrame(m, e, layout, channels), s, c) == Affine(Meaning(e, m[s][c]), channels[c])
  {
    var vs := Ordered(m, layout);
    EncodedLength(e, vs);
    OrderedAt(m, layout, s, c);
    EncodedAt(e, vs, ValueIndex(layout, |m|, |channels|, s, c));
    ValueRoundTrip(e, m[s][c]);
  }

  /** A channel's samples through its affine map. */
  function Scaled(m: seq<seq<int>>, e: Encoding, c: nat, ch: Channel): seq<Number>
    requires forall r :: 0 <= r < |m| ==> c < |m[r]|
  {
    seq(|m|, r requires 0 <= r < |m| => Affine(Meaning(e, m[r][c]), ch))
  }

  /** Pack, then decode sequentially: every channel's list is its scaled column. */
  lemma SequentialRoundTrip(m: seq<seq<int>>, e: Encoding, layout: Layout, channels: seq<Channel>, c: nat)
    requires Rectangular(m) && Representable(e, m) && |channels| == |m[0]| && DistinctKeys(channels) && c < |channels|
    ensures var f := PackedFrame(m, e, layout, channels);
            f.Valid() && Collected(f, channels[c].key, f.Total()) == Scaled(m, e, c, channels[c])
  {
    var f := PackedFrame(m, e, layout, channels);
    IndexedRoundTrip(m, e, layout, channels, 0, c);
    DecodersAgree(f, c);
    forall s | 0 <= s < |m| ensures Prefix(f, c, |m|)[s] == Scaled(m, e, c, channels[c])[s] {
      IndexedRoundTrip(m, e, layout, channels, s, c);
    }
  }

  /** Packed samples are read as sample times scale plus offset, by either decoder. */
  lemma PackedReads(m: seq<seq<int>>, e: Encoding, layout: Layout, channels: seq<Channel>, s: nat, c: nat)
    requires Rectangular(m) && Representable(e, m) && |channels| == |m[0]| && s < |m| && c < |channels|
    ensures var f := PackedFrame(m, e, layout, channels);
            && f.Valid() && ReadAs(Indexed(f, s, c), e, m[s][c], channels[c])
            && (DistinctKeys(channels) ==>
                  && |Collected(f, channels[c].key, f.Total())| == |m|
                  && ReadAs(Collected(f, channels[c].key, f.Total())[s], e, m[s][c], channels[c]))
  {
    AffineReads(e, m[s][c], channels[c]);
    IndexedRoundTrip(m, e, layout, channels, s, c);
    if DistinctKeys(channels) { SequentialRoundTrip(m, e, layout, channels, c); }
  }

  /** The value check of the Python packer passes exactly when every sample fits. */
  lemma OrderedInRange(m: seq<seq<int>>, e: Encoding, layout: Layout)
    requires Rectangular(m)
    ensures AllInRange(e, Ordered(m, layout)) <==> Representable(e, m)
  {
    var vs := Ordered(m, layout);
    if AllInRange(e, vs) {
      forall r, c | 0 <= r < |m| && 0 <= c < |m[r]| ensures InRange(e, m[r][c]) {
        OrderedAt(m, layout, r, c);
      }
    }
    if Representable(e, m) {
      forall k | 0 <= k < |vs| ensures InRange(e, vs[k]) {
        OrderedHolds(m, layout, k);
      }
    }
  }

  lemma OrderedHolds(m: seq<seq<int>>, layout: Layout, k: nat)
    requires Rectangular(m) && k < |Ordered(m, layout)|
    ensures exists r, c :: 0 <= r < |m| && 0 <= c < |m[r]| && Ordered(m, layout)[k] == m[r][c]
  {
    OrderedAt(m, layout, 0, 0);
    Commute(|m|, |m[0]|);
    if layout.Interleaved? {
      var s, c := Split(k, |m|, |m[0]|);
      OrderedAt(m, layout, s, c);
    } else {
      var c, s := Split(k, |m[0]|, |m|);
      OrderedAt(m, layout, s, c);
    }
  }

  lemma DivBound(k: nat, n: nat, m: nat)
    requires n > 0 && k < n * m
    ensures k / n < m
  {
    var q := k / n;
    assert n * q <= k;
    assert q >= m ==> n * q >= n * m;
  }

  lemma Split(k: nat, m: nat, n: nat) returns (a: nat, b: nat)
    requires k < Times(m, n)
    ensures a < m && b < n && k == Times(a, n) + b
  {
    TimesIs(m, n);
    assert n > 0 && k < n * m;
    a, b := k / n, k % n;
    DivBound(k, n, m);
    TimesIs(a, n);
  }
}
