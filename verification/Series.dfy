/**
 The query service's raw sampled series: stored frames are decoded one after the other, the
 samples inside the asked range are collected per channel, and the result is returned as it is
 or, if it has more samples than points allowed, as an envelope.
 */
module Series {
  import opened Wrappers
  import opened Numbers
  import opened SignalCodec
  import opened Windows
  import opened Envelope
  import Seqs

  /** Optional inclusive limits. */
  datatype Range = Range(start: Option<int>, end: Option<int>)
  {
    predicate Covers(time: int) { (start.None? || time >= start.value) && (end.None? || time <= end.value) }
  }

  /** A timedelta rounds to the nearest microsecond, halves to the even one. */
  function Stamp(row: Row, s: nat): int {
    var ns := s * row.interval;
    row.eventTime + ns / 1000 + if ns % 1000 > 500 || (ns % 1000 == 500 && ns / 1000 % 2 == 1) then 1 else 0
  }

  predicate Decodable(rows: seq<Row>) {
    forall i :: 0 <= i < |rows| ==> rows[i].WellFormed()
  }

  /** Indices below `n` whose timestamps lie in the range. */
  function Chosen(range: Range, row: Row, n: nat): (idx: seq<nat>)
    ensures forall k :: 0 <= k < |idx| ==> idx[k] < n
  {
    if n == 0 then []
    else Chosen(range, row, n - 1) + if range.Covers(Stamp(row, n - 1)) then [n - 1] else []
  }

  function Pick(vs: seq<Number>, idx: seq<nat>): (r: seq<Number>)
    requires forall k :: 0 <= k < |idx| ==> idx[k] < |vs|
    ensures |r| == |idx|
  {
    seq(|idx|, k requires 0 <= k < |idx| => vs[idx[k]])
  }

  function Stamps(row: Row, idx: seq<nat>): (r: seq<int>)
    ensures |r| == |idx|
  {
    seq(|idx|, k requires 0 <= k < |idx| => Stamp(row, idx[k]))
  }

  function FrameIndices(range: Range, row: Row): (idx: seq<nat>)
    requires row.WellFormed()
    ensures forall k :: 0 <= k < |idx| ==> idx[k] < row.sampleCount
  {
    Chosen(range, row, row.sampleCount)
  }

  function AllTimes(range: Range, rows: seq<Row>): seq<int>
    requires Decodable(rows)
  {
    if rows == [] then []
    else
      var last := rows[|rows| - 1];
      AllTimes(range, rows[..|rows| - 1]) + Stamps(last, FrameIndices(range, last))
  }

  lemma HeldLength(f: Frame, c: nat)
    requires f.Valid() && c < |f.channels|
    ensures |Collected(f, f.channels[c].key, f.Total())| >= f.samples
  {
    CollectedCount(f, f.channels[c].key);
    HeldKey(f.channels, c);
    AtLeastOnce(f.samples, Multiplicity(f.channels, f.channels[c].key));
  }

  lemma AtLeastOnce(n: nat, k: nat)
    requires k >= 1
    ensures n * k >= n
  {}

  /** The in-range part of the list the decoder keeps for channel `c`. */
  function Part(range: Range, row: Row, c: nat): (r: seq<Number>)
    requires row.WellFormed() && c < |row.channels|
  {
    var f := row.Content();
    HeldLength(f, c);
    Pick(Collected(f, row.channels[c].key, f.Total()), FrameIndices(range, row))
  }

  /** What the first `n` channels of a frame add under `key`. */
  function FrameValues(range: Range, row: Row, key: string, n: nat): seq<Number>
    requires row.WellFormed() && n <= |row.channels|
  {
    if n == 0 then []
    else FrameValues(range, row, key, n - 1) + if row.channels[n - 1].key == key then Part(range, row, n - 1) else []
  }

  function AllValues(range: Range, rows: seq<Row>, key: string): seq<Number>
    requires Decodable(rows)
  {
    if rows == [] then []
    else
      var last := rows[|rows| - 1];
      AllValues(range, rows[..|rows| - 1], key) + FrameValues(range, last, key, |last.channels|)
  }

  // -------------------------------------------------------------------- collecting

  function Get(samples: map<string, seq<Number>>, key: string): seq<Number> {
    if key in samples then samples[key] else []
  }

  /** Names no channel: every channel is wanted. */
  function Everything(): Query { Query([], 0, 0, 0) }

  ghost predicate Holds(range: Range, samples: map<string, seq<Number>>, rows: seq<Row>, row: Row, c: nat)
    requires Decodable(rows) && row.WellFormed() && c <= |row.channels|
  {
    forall key :: Get(samples, key) == AllValues(range, rows, key) + FrameValues(range, row, key, c)
  }

  ghost predicate SameKeys(samples: map<string, seq<Number>>, order: seq<string>) {
    forall key :: key in samples <==> key in order
  }

  /** The dictionary of samples, with its insertion order, after `rows` and `c` channels of `row`. */
  ghost predicate Gathered(range: Range, samples: map<string, seq<Number>>, order: seq<string>, rows: seq<Row>, row: Row, c: nat)
    requires Decodable(rows) && row.WellFormed() && c <= |row.channels|
  {
    && SameKeys(samples, order)
    && order == AddKeys(Everything(), KeysSeen(Everything(), rows), row.channels, c)
    && Holds(range, samples, rows, row, c)
  }

  lemma HoldsNext(range: Range, samples: map<string, seq<Number>>, rows: seq<Row>, row: Row, c: nat, key: string)
    requires Decodable(rows) && row.WellFormed() && c < |row.channels| && Holds(range, samples, rows, row, c)
    requires key == row.channels[c].key
    ensures Holds(range, samples[key := Get(samples, key) + Part(range, row, c)], rows, row, c + 1)
  {
    var part := Part(range, row, c);
    var more := samples[key := Get(samples, key) + part];
    forall k ensures Get(more, k) == AllValues(range, rows, k) + FrameValues(range, row, k, c + 1) {
      assert Get(samples, k) == AllValues(range, rows, k) + FrameValues(range, row, k, c);
      FrameValuesNext(range, row, k, c);
      if k == key {
        Seqs.Assoc(AllValues(range, rows, k), FrameValues(range, row, k, c), part);
      }
    }
  }

  lemma FrameValuesNext(range: Range, row: Row, key: string, n: nat)
    requires row.WellFormed() && n < |row.channels|
    ensures row.channels[n].key == key ==>
              FrameValues(range, row, key, n + 1) == FrameValues(range, row, key, n) + Part(range, row, n)
    ensures row.channels[n].key != key ==> FrameValues(range, row, key, n + 1) == FrameValues(range, row, key, n)
  {}

  lemma OrderNext(samples: map<string, seq<Number>>, order: seq<string>, names: seq<string>, channels: seq<Channel>, c: nat)
    requires SameKeys(samples, order) && c < |channels| && order == AddKeys(Everything(), names, channels, c)
    ensures (if channels[c].key in samples then order else order + [channels[c].key])
         == AddKeys(Everything(), names, channels, c + 1)
  {}

  /** setdefault, then extend. */
  method ExtendEntry(samples: map<string, seq<Number>>, order: seq<string>, key: string, part: seq<Number>)
    returns (samples': map<string, seq<Number>>, order': seq<string>)
    requires SameKeys(samples, order)
    ensures samples' == samples[key := Get(samples, key) + part]
    ensures order' == (if key in samples then order else order + [key]) && SameKeys(samples', order')
  {
    samples', order' := samples, order;
    if key !in samples' {
      samples', order' := samples'[key := []], order' + [key];
    }
    samples' := samples'[key := samples'[key] + part];
  }

  lemma DecodedPart(range: Range, row: Row, decoded: map<string, seq<Number>>, c: nat)
    requires row.WellFormed() && c < |row.channels| && Collects(row.Content(), decoded, row.Content().Total())
    ensures var key := row.channels[c].key;
            key in decoded && |decoded[key]| >= row.sampleCount
            && Pick(decoded[key], FrameIndices(range, row)) == Part(range, row, c)
  {
    assert row.channels[c].key in Keys(row.channels);
    HeldLength(row.Content(), c);
  }

  /** One round of the channel loop. */
  method GatherChannel(range: Range, samples: map<string, seq<Number>>, order: seq<string>, row: Row, c: nat,
                       part: seq<Number>, ghost rows: seq<Row>)
    returns (samples': map<string, seq<Number>>, order': seq<string>)
    requires Decodable(rows) && row.WellFormed() && c < |row.channels| && Gathered(range, samples, order, rows, row, c)
    requires part == Part(range, row, c)
    ensures Gathered(range, samples', order', rows, row, c + 1)
  {
    HoldsNext(range, samples, rows, row, c, row.channels[c].key);
    OrderNext(samples, order, KeysSeen(Everything(), rows), row.channels, c);
    samples', order' := ExtendEntry(samples, order, row.channels[c].key, part);
  }

  /** The channel loop of one frame; `decoded` is what decode_samples returned for it. */
  method GatherFrame(range: Range, samples: map<string, seq<Number>>, order: seq<string>, row: Row,
                     decoded: map<string, seq<Number>>, idx: seq<nat>, ghost rows: seq<Row>)
    returns (samples': map<string, seq<Number>>, order': seq<string>)
    requires Decodable(rows) && row.WellFormed() && Gathered(range, samples, order, rows, row, 0)
    requires Collects(row.Content(), decoded, row.Content().Total()) && idx == FrameIndices(range, row)
    ensures Gathered(range, samples', order', rows, row, |row.channels|)
  {
    samples', order' := samples, order;
    for c := 0 to |row.channels|
      invariant Gathered(range, samples', order', rows, row, c)
    {
      DecodedPart(range, row, decoded, c);
      var part := Pick(decoded[row.channels[c].key], idx);
      samples', order' := GatherChannel(range, samples', order', row, c, part, rows);
    }
  }

  /** After whole frames. */
  ghost predicate Complete(range: Range, samples: map<string, seq<Number>>, order: seq<string>, times: seq<int>, rows: seq<Row>)
    requires Decodable(rows)
  {
    && SameKeys(samples, order) && order == KeysSeen(Everything(), rows) && times == AllTimes(range, rows)
    && forall key :: Get(samples, key) == AllValues(range, rows, key)
  }

  lemma FrameBegins(range: Range, samples: map<string, seq<Number>>, order: seq<string>, times: seq<int>, rows: seq<Row>, row: Row)
    requires Decodable(rows) && row.WellFormed() && Complete(range, samples, order, times, rows)
    ensures Gathered(range, samples, order, rows, row, 0)
  {
    forall key ensures Get(samples, key) == AllValues(range, rows, key) + FrameValues(range, row, key, 0) {
      assert AllValues(range, rows, key) + [] == AllValues(range, rows, key);
    }
  }

  lemma FrameFinishes(range: Range, samples: map<string, seq<Number>>, order: seq<string>, times: seq<int>, rows: seq<Row>, row: Row)
    requires Decodable(rows) && row.WellFormed() && Gathered(range, samples, order, rows, row, |row.channels|)
    requires times == AllTimes(range, rows)
    ensures Decodable(rows + [row])
    ensures Complete(range, samples, order, times + Stamps(row, FrameIndices(range, row)), rows + [row])
  {
    var more := rows + [row];
    assert more[..|more| - 1] == rows;
    KeysSeenNext(Everything(), rows, row);
    forall key ensures Get(samples, key) == AllValues(range, more, key) {
      assert Get(samples, key) == AllValues(range, rows, key) + FrameValues(range, row, key, |row.channels|);
    }
  }

  /** The loop over the stored frames. None stands for a decoding error. */
  method Gather(range: Range, rows: seq<Row>)
    returns (ok: bool, samples: map<string, seq<Number>>, order: seq<string>, times: seq<int>)
    ensures ok <==> Decodable(rows)
    ensures ok ==> Complete(range, samples, order, times, rows)
  {
    ok, samples, order, times := true, map[], [], [];
    for i := 0 to |rows|
      invariant ok && Decodable(rows[..i]) && Complete(range, samples, order, times, rows[..i])
    {
      var row := rows[i];
      var decoded := DecodeSequential(row.samples, row.encoding, row.layout, row.channels, row.sampleCount);
      if decoded.None? {
        ok := false;
        return;
      }
      var idx := FrameIndices(range, row);
      FrameBegins(range, samples, order, times, rows[..i], row);
      samples, order := GatherFrame(range, samples, order, row, decoded.value, idx, rows[..i]);
      FrameFinishes(range, samples, order, times, rows[..i], row);
      times := times + Stamps(row, idx);
      assert rows[..i] + [row] == rows[..i + 1];
    }
    assert rows[..|rows|] == rows;
  }

  // ---------------------------------------------------------------------- the response

  datatype Sample = Sample(ts: int, value: Number)

  datatype ChannelSeries =
    | Samples(name: string, samples: seq<Sample>)
    | Buckets(name: string, buckets: seq<Bucket>)

  datatype Mode = SampleMode | EnvelopeMode

  datatype Response = Response(mode: Mode, sourceSampleCount: nat, channels: seq<ChannelSeries>)

  /** zip stops at the shorter list. */
  function Zip(times: seq<int>, values: seq<Number>): seq<Sample> {
    seq(if |times| <= |values| then |times| else |values|,
        i requires 0 <= i < |times| && i < |values| => Sample(times[i], values[i]))
  }

  /** One channel of the answer, given its collected values. */
  function SeriesOf(key: string, times: seq<int>, values: seq<Number>, maxPoints: int): ChannelSeries {
    if |times| <= maxPoints then Samples(key, Zip(times, values))
    else if maxPoints <= 0 then Buckets(key, [])
    else
      CutsPartition(|times|, maxPoints);
      Buckets(key, Summaries(values, times, Cuts(|times|, maxPoints), maxPoints))
  }

  predicate Answers(r: ChannelSeries, key: string, times: seq<int>, values: seq<Number>, maxPoints: int) {
    r == SeriesOf(key, times, values, maxPoints)
  }

  /** _raw_frames_to_series */
  method RawSeries(range: Range, rows: seq<Row>, maxPoints: int) returns (r: Option<Response>)
    ensures r.Some? <==> Decodable(rows)
    ensures r.Some? ==>
              var times, order := AllTimes(range, rows), KeysSeen(Everything(), rows);
              && r.value.sourceSampleCount == |times|
              && r.value.mode == (if order == [] || |times| <= maxPoints then SampleMode else EnvelopeMode)
              && |r.value.channels| == |order|
              && forall k :: 0 <= k < |order| ==>
                   Answers(r.value.channels[k], order[k], times, AllValues(range, rows, order[k]), maxPoints)
  {
    var ok, samples, order, times := Gather(range, rows);
    if !ok {
      return None;
    }
    var channels := AllAnswers(samples, order, times, maxPoints);
    var mode := if order == [] || |times| <= maxPoints then SampleMode else EnvelopeMode;
    r := Some(Response(mode, |times|, channels));
  }

  method AllAnswers(samples: map<string, seq<Number>>, order: seq<string>, times: seq<int>, maxPoints: int)
    returns (channels: seq<ChannelSeries>)
    requires SameKeys(samples, order)
    ensures |channels| == |order|
    ensures forall k :: 0 <= k < |order| ==> Answers(channels[k], order[k], times, Get(samples, order[k]), maxPoints)
  {
    channels := [];
    for k := 0 to |order|
      invariant |channels| == k
      invariant forall j :: 0 <= j < k ==> Answers(channels[j], order[j], times, Get(samples, order[j]), maxPoints)
    {
      assert order[k] in samples;
      var one := ChannelAnswer(order[k], times, samples[order[k]], maxPoints);
      channels := channels + [one];
    }
  }

  /** A channel as samples or, with too many of them, as the bucket loop's points. */
  method ChannelAnswer(key: string, times: seq<int>, values: seq<Number>, maxPoints: int) returns (r: ChannelSeries)
    ensures Answers(r, key, times, values, maxPoints)
  {
    if |times| <= maxPoints {
      r := Samples(key, Zip(times, values));
    } else if maxPoints <= 0 {
      r := Buckets(key, []);
    } else {
      var points := BucketPoints(values, times, maxPoints);
      r := Buckets(key, points);
    }
  }

  // --------------------------------------------------- frames that share one channel list

  predicate Shared(rows: seq<Row>, channels: seq<Channel>) {
    DistinctKeys(channels) && forall i :: 0 <= i < |rows| ==> rows[i].channels == channels
  }

  /** One channel's in-range samples over all frames, by the indexed decoder. */
  function ChannelValues(range: Range, rows: seq<Row>, channels: seq<Channel>, c: nat): seq<Number>
    requires Decodable(rows) && Shared(rows, channels) && c < |channels|
  {
    if rows == [] then []
    else
      var last := rows[|rows| - 1];
      ChannelValues(range, rows[..|rows| - 1], channels, c)
      + Pick(Prefix(last.Content(), c, last.sampleCount), FrameIndices(range, last))
  }

  lemma ChannelAdds(range: Range, row: Row, c: nat, n: nat)
    requires row.WellFormed() && DistinctKeys(row.channels) && c < |row.channels| && n < |row.channels|
    ensures FrameValues(range, row, row.channels[c].key, n + 1)
         == FrameValues(range, row, row.channels[c].key, n) + if n == c then Part(range, row, c) else []
  {
    SameKeyIff(row.channels, c, n);
    FrameValuesNext(range, row, row.channels[c].key, n);
  }

  /** What the key of channel `c` has after each channel. */
  function ValueLists(range: Range, row: Row, c: nat): (lists: seq<seq<Number>>)
    requires row.WellFormed() && c < |row.channels|
  {
    seq(|row.channels| + 1, n requires 0 <= n <= |row.channels| => FrameValues(range, row, row.channels[c].key, n))
  }

  lemma OneChannelPerKey(range: Range, row: Row, c: nat, n: nat)
    requires row.WellFormed() && DistinctKeys(row.channels) && c < |row.channels| && n <= |row.channels|
    ensures FrameValues(range, row, row.channels[c].key, n) == if n > c then Part(range, row, c) else []
  {
    var lists, part := ValueLists(range, row, c), Part(range, row, c);
    forall k | 0 <= k < |lists| - 1 ensures lists[k + 1] == lists[k] + if k == c then part else [] {
      ChannelAdds(range, row, c, k);
    }
    Seqs.AddedOnce(lists, part, c, n);
  }

  /** A channel's list is exactly its own in-range samples, one for every collected timestamp. */
  lemma {:induction false} SharedValues(range: Range, rows: seq<Row>, channels: seq<Channel>, c: nat)
    requires Decodable(rows) && Shared(rows, channels) && c < |channels|
    ensures AllValues(range, rows, channels[c].key) == ChannelValues(range, rows, channels, c)
    ensures |AllValues(range, rows, channels[c].key)| == |AllTimes(range, rows)|
  {
    if rows != [] {
      var front, last := rows[..|rows| - 1], rows[|rows| - 1];
      SharedValues(range, front, channels, c);
      OneChannelPerKey(range, last, c, |channels|);
      DecodersAgree(last.Content(), c);
    }
  }

  /** For such frames, with more samples than points: exactly `maxPoints` buckets. Each encloses
      its samples exactly if none is NaN, and if all are finite the size-weighted averages add up
      to their sum. */
  lemma SharedEnvelope(range: Range, rows: seq<Row>, channels: seq<Channel>, c: nat, maxPoints: nat)
    requires Decodable(rows) && Shared(rows, channels) && c < |channels|
    requires 0 < maxPoints < |AllTimes(range, rows)|
    ensures var times, values := AllTimes(range, rows), ChannelValues(range, rows, channels, c);
            var answer := SeriesOf(channels[c].key, times, AllValues(range, rows, channels[c].key), maxPoints);
            var cuts := Cuts(|times|, maxPoints);
            && answer.Buckets? && |answer.buckets| == maxPoints
            && Partitions(cuts, |values|)
            && (AllFinite(values) ==> Weighted(answer.buckets, cuts, maxPoints) == Sum(values))
            && forall b :: 0 <= b < maxPoints ==> EnclosesOrNaN(answer.buckets, values, cuts, b)
  {
    var times, values := AllTimes(range, rows), ChannelValues(range, rows, channels, c);
    var cuts := Cuts(|times|, maxPoints);
    SharedValues(range, rows, channels, c);
    CutsPartition(|times|, maxPoints);
    SummariesFull(values, times, cuts, maxPoints);
    if AllFinite(values) { AveragesConserve(values, times, cuts); }
    var buckets := Summaries(values, times, cuts, maxPoints);
    forall b | 0 <= b < maxPoints ensures EnclosesOrNaN(buckets, values, cuts, b) {
      EnvelopeCovers(values, times, cuts, b);
    }
  }

  predicate EnclosesOrNaN(points: seq<Bucket>, values: seq<Number>, cuts: seq<nat>, b: nat) {
    b + 1 < |cuts| && cuts[b] < cuts[b + 1] <= |values|
    && (PointEncloses(points, values, cuts, b) <==> NoNaN(values[cuts[b]..cuts[b + 1]]))
  }

  // ------------------------------------------------- frames with different channel lists

  predicate DistinctEach(rows: seq<Row>) {
    forall i :: 0 <= i < |rows| ==> DistinctKeys(rows[i].channels)
  }

  ghost predicate Carries(row: Row, key: string) {
    exists c :: 0 <= c < |row.channels| && row.channels[c].key == key
  }

  function From(start: nat, n: nat): (r: seq<nat>)
    ensures |r| == n
  {
    seq(n, k requires 0 <= k < n => start + k)
  }

  /** For every value collected under `key`, the place of its own timestamp among all timestamps. */
  ghost function OwnPlaces(range: Range, rows: seq<Row>, key: string): seq<nat>
    requires Decodable(rows)
  {
    if rows == [] then []
    else
      var front, last := rows[..|rows| - 1], rows[|rows| - 1];
      OwnPlaces(range, front, key)
      + if Carries(last, key) then From(|AllTimes(range, front)|, |FrameIndices(range, last)|) else []
  }

  /** The values collected under `key`, each with the time it was sampled at. */
  ghost function Timed(range: Range, rows: seq<Row>, key: string): seq<Sample>
    requires Decodable(rows)
  {
    if rows == [] then []
    else
      var front, last := rows[..|rows| - 1], rows[|rows| - 1];
      Timed(range, front, key)
      + if Carries(last, key) then Zip(Stamps(last, FrameIndices(range, last)), FrameValues(range, last, key, |last.channels|)) else []
  }

  /** A frame adds one value per in-range sample under each of its keys, and none under others. */
  lemma FrameAdds(range: Range, row: Row, key: string)
    requires row.WellFormed() && DistinctKeys(row.channels)
    ensures |FrameValues(range, row, key, |row.channels|)| == if Carries(row, key) then |FrameIndices(range, row)| else 0
  {
    if Carries(row, key) {
      var c :| 0 <= c < |row.channels| && row.channels[c].key == key;
      OneChannelPerKey(range, row, c, |row.channels|);
    } else {
      NoValues(range, row, key, |row.channels|);
    }
  }

  lemma {:induction false} NoValues(range: Range, row: Row, key: string, n: nat)
    requires row.WellFormed() && n <= |row.channels| && !Carries(row, key)
    ensures FrameValues(range, row, key, n) == []
  {
    if n > 0 {
      NoValues(range, row, key, n - 1);
      FrameValuesNext(range, row, key, n - 1);
    }
  }

  /** Own places and times go with the values. */
  lemma {:induction false} OwnTimes(range: Range, rows: seq<Row>, key: string)
    requires Decodable(rows) && DistinctEach(rows)
    ensures var places, timed, values := OwnPlaces(range, rows, key), Timed(range, rows, key), AllValues(range, rows, key);
            Placed(AllTimes(range, rows), places, timed, values)
  {
    if rows != [] {
      var front, last := rows[..|rows| - 1], rows[|rows| - 1];
      OwnTimes(range, front, key);
      FrameAdds(range, last, key);
      PlacedNext(AllTimes(range, front), OwnPlaces(range, front, key), Timed(range, front, key), AllValues(range, front, key),
                 Stamps(last, FrameIndices(range, last)), FrameValues(range, last, key, |last.channels|), Carries(last, key));
    }
  }

  /** The k-th value was taken at the timestamp in its place. */
  predicate Placed(times: seq<int>, places: seq<nat>, timed: seq<Sample>, values: seq<Number>) {
    |places| == |timed| == |values|
    && forall k :: 0 <= k < |values| ==> places[k] < |times| && timed[k] == Sample(times[places[k]], values[k])
  }

  lemma PlacedNext(times: seq<int>, places: seq<nat>, timed: seq<Sample>, values: seq<Number>,
                   stamps: seq<int>, more: seq<Number>, held: bool)
    requires Placed(times, places, timed, values) && |more| == if held then |stamps| else 0
    ensures Placed(times + stamps, places + (if held then From(|times|, |stamps|) else []),
                   timed + (if held then Zip(stamps, more) else []), values + more)
  {}

  /** Frames with samples in range all carry the key. */
  ghost predicate AllCarry(range: Range, rows: seq<Row>, key: string)
    requires Decodable(rows)
  {
    forall i :: 0 <= i < |rows| && FrameIndices(range, rows[i]) != [] ==> Carries(rows[i], key)
  }

  /** The k-th value stands next to the k-th timestamp: every value is reported at its own time. */
  ghost predicate AtOwnTimes(range: Range, rows: seq<Row>, key: string)
    requires Decodable(rows)
  {
    CountsUp(OwnPlaces(range, rows, key))
  }

  ghost predicate CountsUp(a: seq<nat>) {
    forall k :: 0 <= k < |a| ==> a[k] == k
  }

  /** No frame that lacks the key, and has samples in range, comes before one that carries it. */
  ghost predicate NoGap(range: Range, rows: seq<Row>, key: string)
    requires Decodable(rows)
  {
    forall j :: 0 <= j < |rows| ==> Backed(range, rows, key, j)
  }

  ghost predicate Backed(range: Range, rows: seq<Row>, key: string, j: nat)
    requires Decodable(rows) && j < |rows|
  {
    FrameIndices(range, rows[j]) != [] && Carries(rows[j], key) ==> AllCarry(range, rows[..j], key)
  }

  lemma BackedPrefix(range: Range, rows: seq<Row>, key: string, j: nat)
    requires Decodable(rows) && j < |rows| - 1
    ensures Backed(range, rows[..|rows| - 1], key, j) <==> Backed(range, rows, key, j)
  {
    assert rows[..|rows| - 1][..j] == rows[..j];
  }

  lemma {:induction false} PlacesFull(range: Range, rows: seq<Row>, key: string)
    requires Decodable(rows)
    ensures |OwnPlaces(range, rows, key)| <= |AllTimes(range, rows)|
    ensures |OwnPlaces(range, rows, key)| == |AllTimes(range, rows)| <==> AllCarry(range, rows, key)
  {
    if rows != [] {
      PlacesFull(range, rows[..|rows| - 1], key);
      AllCarryNext(range, rows, key);
    }
  }

  lemma AllCarryNext(range: Range, rows: seq<Row>, key: string)
    requires Decodable(rows) && rows != []
    ensures var front, last := rows[..|rows| - 1], rows[|rows| - 1];
            AllCarry(range, rows, key) <==> AllCarry(range, front, key) && (FrameIndices(range, last) != [] ==> Carries(last, key))
  {
    var front := rows[..|rows| - 1];
    assert forall i :: 0 <= i < |front| ==> front[i] == rows[i];
  }

  lemma NoGapNext(range: Range, rows: seq<Row>, key: string)
    requires Decodable(rows) && rows != []
    ensures var front, last := rows[..|rows| - 1], rows[|rows| - 1];
            NoGap(range, rows, key)
            <==> NoGap(range, front, key) && (FrameIndices(range, last) != [] && Carries(last, key) ==> AllCarry(range, front, key))
  {
    var front := rows[..|rows| - 1];
    forall j | 0 <= j < |front| ensures Backed(range, front, key, j) <==> Backed(range, rows, key, j) {
      BackedPrefix(range, rows, key, j);
    }
    assert NoGap(range, rows, key) ==> Backed(range, rows, key, |front|);
    if NoGap(range, rows, key) {
      forall j | 0 <= j < |front| ensures Backed(range, front, key, j) { assert Backed(range, rows, key, j); }
    }
  }

  lemma AtOwnTimesNext(range: Range, rows: seq<Row>, key: string)
    requires Decodable(rows) && rows != []
    ensures var front, last := rows[..|rows| - 1], rows[|rows| - 1];
            AtOwnTimes(range, rows, key)
            <==> && AtOwnTimes(range, front, key)
                 && (FrameIndices(range, last) != [] && Carries(last, key) ==> |OwnPlaces(range, front, key)| == |AllTimes(range, front)|)
  {
    var front, last := rows[..|rows| - 1], rows[|rows| - 1];
    var a, b := OwnPlaces(range, front, key), From(|AllTimes(range, front)|, |FrameIndices(range, last)|);
    if Carries(last, key) {
      InPlace(a, |AllTimes(range, front)|, |FrameIndices(range, last)|);
      assert OwnPlaces(range, rows, key) == a + b;
    } else {
      assert OwnPlaces(range, rows, key) == a + [] == a;
    }
  }

  lemma InPlace(a: seq<nat>, start: nat, n: nat)
    ensures CountsUp(a + From(start, n)) <==> CountsUp(a) && (n > 0 ==> |a| == start)
  {
    var all := a + From(start, n);
    assert forall k :: 0 <= k < |a| ==> all[k] == a[k];
    assert n > 0 ==> all[|a|] == start;
  }

  /** Exactly when every value of a key is reported at its own time. */
  lemma {:induction false} AtOwnTimesIff(range: Range, rows: seq<Row>, key: string)
    requires Decodable(rows)
    ensures AtOwnTimes(range, rows, key) <==> NoGap(range, rows, key)
  {
    if rows != [] {
      var front := rows[..|rows| - 1];
      AtOwnTimesIff(range, front, key);
      AtOwnTimesNext(range, rows, key);
      NoGapNext(range, rows, key);
      PlacesFull(range, front, key);
    }
  }

  /** Then the samples answered are the values with their own times. */
  lemma NoGapAnswers(range: Range, rows: seq<Row>, key: string)
    requires Decodable(rows) && DistinctEach(rows) && NoGap(range, rows, key)
    ensures Zip(AllTimes(range, rows), AllValues(range, rows, key)) == Timed(range, rows, key)
  {
    OwnTimes(range, rows, key);
    AtOwnTimesIff(range, rows, key);
    PlacesFull(range, rows, key);
  }

  // ------------------------------------------------------------ the answer, place by place

  /** The chosen indices are, in order, those whose timestamp is not before the start nor after the end. */
  lemma {:induction false} ChosenIs(range: Range, row: Row, n: nat)
    ensures var idx := Chosen(range, row, n);
            && (forall i, j :: 0 <= i < j < |idx| ==> idx[i] < idx[j])
            && forall s: nat :: s in idx <==> s < n && InLimits(range, Stamp(row, s))
  {
    if n > 0 { ChosenIs(range, row, n - 1); }
  }

  predicate InLimits(range: Range, time: int) {
    (range.start.Some? ==> range.start.value <= time) && (range.end.Some? ==> time <= range.end.value)
  }

  /** The places of a frame's samples in range, as samples of one channel. */
  function FrameSpots(range: Range, row: Row, frame: nat, channel: nat): (spots: seq<Spot>)
    requires row.WellFormed()
    ensures |spots| == |FrameIndices(range, row)|
  {
    var idx := FrameIndices(range, row);
    seq(|idx|, k requires 0 <= k < |idx| => Spot(frame, idx[k], channel))
  }

  /** A sample in range, of a channel with that key. */
  predicate Asked(range: Range, rows: seq<Row>, key: string, p: Spot) {
    && Exists(rows, p) && rows[p.frame].channels[p.channel].key == key && InLimits(range, Stamp(rows[p.frame], p.sample))
  }

  lemma FrameSpotsAre(range: Range, rows: seq<Row>, key: string, n: nat, c: nat)
    requires n < |rows| && rows[n].WellFormed() && DistinctKeys(rows[n].channels)
    requires c < |rows[n].channels| && rows[n].channels[c].key == key
    ensures var spots := FrameSpots(range, rows[n], n, c);
            InOrder(spots) && forall p :: p in spots <==> Asked(range, rows, key, p) && p.frame == n
  {
    var idx, spots := FrameIndices(range, rows[n]), FrameSpots(range, rows[n], n, c);
    ChosenIs(range, rows[n], rows[n].sampleCount);
    forall p ensures p in spots <==> Asked(range, rows, key, p) && p.frame == n {
      if p in spots {
        var k :| 0 <= k < |spots| && spots[k] == p;
        assert idx[k] in idx;
      }
      if Asked(range, rows, key, p) && p.frame == n {
        SameKeyIff(rows[n].channels, c, p.channel);
        var k :| 0 <= k < |idx| && idx[k] == p.sample;
        assert spots[k] == p;
      }
    }
  }

  /** A frame with distinct keys adds, for one of its channels, its samples in range, each with its
      time and decoded value. */
  lemma TimedFrame(range: Range, row: Row, c: nat, k: nat)
    requires row.WellFormed() && DistinctKeys(row.channels) && c < |row.channels| && k < |FrameIndices(range, row)|
    ensures var idx := FrameIndices(range, row);
            var timed := Zip(Stamps(row, idx), FrameValues(range, row, row.channels[c].key, |row.channels|));
            && |timed| == |idx| && idx[k] < row.sampleCount
            && timed[k] == SampleAt(row, idx[k], c)
  {
    OneChannelPerKey(range, row, c, |row.channels|);
    DecodersAgree(row.Content(), c);
  }

  ghost predicate TimedAt(rows: seq<Row>, spots: seq<Spot>, timed: seq<Sample>) {
    && |spots| == |timed|
    && forall k :: 0 <= k < |spots| ==>
         Exists(rows, spots[k])
         && timed[k] == SampleAt(rows[spots[k].frame], spots[k].sample, spots[k].channel)
  }

  lemma TimedFrameAt(range: Range, rows: seq<Row>, n: nat, c: nat)
    requires n < |rows| && rows[n].WellFormed() && DistinctKeys(rows[n].channels) && c < |rows[n].channels|
    ensures TimedAt(rows, FrameSpots(range, rows[n], n, c),
                    Zip(Stamps(rows[n], FrameIndices(range, rows[n])),
                        FrameValues(range, rows[n], rows[n].channels[c].key, |rows[n].channels|)))
  {
    var row, idx := rows[n], FrameIndices(range, rows[n]);
    var timed := Zip(Stamps(row, idx), FrameValues(range, row, row.channels[c].key, |row.channels|));
    OneChannelPerKey(range, row, c, |row.channels|);
    forall k | 0 <= k < |idx| ensures k < |timed| && timed[k] == SampleAt(row, idx[k], c) { TimedFrame(range, row, c, k); }
    SpotsTimed(rows, n, c, idx, timed);
  }

  function SampleAt(row: Row, s: nat, c: nat): Sample
    requires row.WellFormed() && s < row.sampleCount && c < |row.channels|
  {
    Sample(Stamp(row, s), Indexed(row.Content(), s, c))
  }

  lemma SpotsTimed(rows: seq<Row>, n: nat, c: nat, idx: seq<nat>, timed: seq<Sample>)
    requires n < |rows| && rows[n].WellFormed() && c < |rows[n].channels| && |timed| == |idx|
    requires forall k :: 0 <= k < |idx| ==> idx[k] < rows[n].sampleCount && timed[k] == SampleAt(rows[n], idx[k], c)
    ensures TimedAt(rows, seq(|idx|, k requires 0 <= k < |idx| => Spot(n, idx[k], c)), timed)
  {}

  lemma TimedBoth(rows: seq<Row>, n: nat, a: seq<Spot>, x: seq<Sample>, b: seq<Spot>, y: seq<Sample>)
    requires n <= |rows| && TimedAt(rows[..n], a, x) && TimedAt(rows, b, y)
    ensures TimedAt(rows, a + b, x + y)
  {}

  /** The samples of a key with their times: exactly those of the channels that carry it and lie in
      the range, by frame and sample. */
  lemma {:induction false} TimedIs(range: Range, rows: seq<Row>, key: string) returns (spots: seq<Spot>)
    requires Decodable(rows) && DistinctEach(rows)
    ensures InOrder(spots) && TimedAt(rows, spots, Timed(range, rows, key))
    ensures forall p :: p in spots <==> Asked(range, rows, key, p)
  {
    if rows == [] {
      spots := [];
    } else {
      var n := |rows| - 1;
      var front, last := rows[..n], rows[n];
      var before := TimedIs(range, front, key);
      EarlierFrames(range, rows, key, n, before);
      if Carries(last, key) {
        var c :| 0 <= c < |last.channels| && last.channels[c].key == key;
        FrameSpotsAre(range, rows, key, n, c);
        TimedFrameAt(range, rows, n, c);
        TimedBoth(rows, n, before, Timed(range, front, key), FrameSpots(range, last, n, c),
                  Zip(Stamps(last, FrameIndices(range, last)), FrameValues(range, last, key, |last.channels|)));
        spots := before + FrameSpots(range, last, n, c);
        Together(range, rows, key, n, before, FrameSpots(range, last, n, c));
      } else {
        spots := before;
        NotCarried(range, rows, key, n);
        assert Timed(range, rows, key) == Timed(range, front, key);
        TimedBoth(rows, n, before, Timed(range, front, key), [], []);
        assert before + [] == before && Timed(range, front, key) + [] == Timed(range, front, key);
      }
    }
  }

  lemma NotCarried(range: Range, rows: seq<Row>, key: string, n: nat)
    requires n + 1 == |rows| && !Carries(rows[n], key)
    ensures forall p :: Asked(range, rows, key, p) ==> p.frame < n
  {}

  lemma EarlierFrames(range: Range, rows: seq<Row>, key: string, n: nat, spots: seq<Spot>)
    requires n < |rows| && forall p :: p in spots <==> Asked(range, rows[..n], key, p)
    ensures forall p :: p in spots <==> Asked(range, rows, key, p) && p.frame < n
  {
    forall p ensures p in spots <==> Asked(range, rows, key, p) && p.frame < n {
      assert p in spots <==> Asked(range, rows[..n], key, p);
    }
  }

  lemma Together(range: Range, rows: seq<Row>, key: string, n: nat, a: seq<Spot>, b: seq<Spot>)
    requires n + 1 == |rows| && InOrder(a) && InOrder(b)
    requires forall p :: p in a <==> Asked(range, rows, key, p) && p.frame < n
    requires forall p :: p in b <==> Asked(range, rows, key, p) && p.frame == n
    ensures InOrder(a + b) && forall p :: p in a + b <==> Asked(range, rows, key, p)
  {
    forall i, j | 0 <= i < j < |a + b| ensures Earlier((a + b)[i], (a + b)[j]) {
      if i < |a| <= j { assert a[i] in a && b[j - |a|] in b; }
    }
  }

  /** Timestamps are those of all samples in range, by frame and sample. */
  lemma {:induction false} TimesAre(range: Range, rows: seq<Row>) returns (spots: seq<Spot>)
    requires Decodable(rows)
    ensures InOrder(spots) && |spots| == |AllTimes(range, rows)|
    ensures forall k :: 0 <= k < |spots| ==>
              spots[k].frame < |rows| && AllTimes(range, rows)[k] == Stamp(rows[spots[k].frame], spots[k].sample)
    ensures forall p :: p in spots <==> InRangeAt(range, rows, p)
  {
    if rows == [] {
      spots := [];
    } else {
      var n := |rows| - 1;
      var front, last := rows[..n], rows[n];
      var before := TimesAre(range, front);
      var more := FrameSpots(range, last, n, 0);
      ChosenIs(range, last, last.sampleCount);
      spots := before + more;
      TimesInOrder(range, rows, n, before);
    }
  }

  predicate InRangeAt(range: Range, rows: seq<Row>, p: Spot) {
    p.frame < |rows| && p.sample < rows[p.frame].sampleCount && p.channel == 0 && InLimits(range, Stamp(rows[p.frame], p.sample))
  }

  lemma TimesInOrder(range: Range, rows: seq<Row>, n: nat, before: seq<Spot>)
    requires n + 1 == |rows| && Decodable(rows) && InOrder(before)
    requires forall p :: p in before <==> InRangeAt(range, rows[..n], p)
    ensures var spots := before + FrameSpots(range, rows[n], n, 0);
            InOrder(spots) && forall p :: p in spots <==> InRangeAt(range, rows, p)
  {
    var idx, more := FrameIndices(range, rows[n]), FrameSpots(range, rows[n], n, 0);
    ChosenIs(range, rows[n], rows[n].sampleCount);
    forall p ensures p in before + more <==> InRangeAt(range, rows, p) {
      assert p in before <==> InRangeAt(range, rows[..n], p);
      if p in more {
        var k :| 0 <= k < |more| && more[k] == p;
        assert idx[k] in idx;
      }
      if InRangeAt(range, rows, p) && p.frame == n {
        var k :| 0 <= k < |idx| && idx[k] == p.sample;
        assert more[k] == p;
      }
    }
    forall i, j | 0 <= i < j < |before + more| ensures Earlier((before + more)[i], (before + more)[j]) {
      if i < |before| <= j { assert before[i] in before; }
    }
  }

  /** With no more timestamps than points, the answer for a key without gaps is its samples with
      their own times. */
  lemma SamplesAnswer(range: Range, rows: seq<Row>, key: string, maxPoints: int)
    requires Decodable(rows) && DistinctEach(rows) && NoGap(range, rows, key) && |AllTimes(range, rows)| <= maxPoints
    ensures SeriesOf(key, AllTimes(range, rows), AllValues(range, rows, key), maxPoints) == Samples(key, Timed(range, rows, key))
  {
    NoGapAnswers(range, rows, key);
  }

  /** In general values and timestamps are paired by position; with too many timestamps there are
      buckets instead, none if no point is allowed. */
  lemma SeriesOfIs(key: string, times: seq<int>, values: seq<Number>, maxPoints: int)
    ensures var r := SeriesOf(key, times, values, maxPoints);
            && r.name == key && (r.Samples? <==> |times| <= maxPoints)
            && (r.Samples? ==>
                  && |r.samples| == (if |values| < |times| then |values| else |times|)
                  && forall i :: 0 <= i < |r.samples| ==> r.samples[i] == Sample(times[i], values[i]))
            && (r.Buckets? && maxPoints <= 0 ==> r.buckets == [])
  {}

  /** A timestamp is the nearest microsecond, the even one of two equally near. */
  lemma StampIsNearest(row: Row, s: nat)
    ensures var ns, us := s * row.interval, Stamp(row, s) - row.eventTime;
            -500 <= 1000 * us - ns <= 500 && (1000 * us - ns == 500 || 1000 * us - ns == -500 ==> us % 2 == 0)
  {}
}
