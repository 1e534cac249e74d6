/**
 Detection windows of the anomaly service: the stored signal frames of a stream, in order, are
 folded into one window of points per selected channel, each capped at a number of points.
 */
module Windows {
  import opened Wrappers
  import opened Varint
  import opened Numbers
  import opened SignalCodec
  import Seqs

  datatype Point = Point(time: int, value: Number)

  datatype Window = Window(key: string, points: seq<Point>, truncated: bool)

  /** Which channels (none named: all), which times (inclusive), how many points. */
  datatype Query = Query(selected: seq<string>, start: int, end: int, maxPoints: nat)
  {
    predicate Selects(key: string) { selected == [] || key in selected }

    predicate Covers(time: int) { start <= time <= end }
  }

  /** A stored frame; None stands for an encoding or layout name the service does not know.
      Times are microseconds, the interval nanoseconds. */
  datatype Row = Row(eventTime: int, interval: int, sampleCount: int, samples: seq<Byte>,
                     encoding: Option<Encoding>, layout: Option<Layout>, channels: seq<Channel>)
  {
    predicate Skipped() { sampleCount <= 0 || channels == [] }

    predicate WellFormed() {
      && sampleCount > 0 && channels != [] && encoding.Some? && layout.Some?
      && WellSized(samples, encoding.value, sampleCount, |channels|)
    }

    function Content(): (f: Frame)
      requires WellFormed()
      ensures f.Valid()
    {
      Frame(samples, encoding.value, layout.value, sampleCount, channels)
    }

    /** Integer division here drops the fraction, also of a negative offset. */
    function Time(s: nat): int {
      var offset := s * interval;
      eventTime + if offset >= 0 then offset / 1000 else -(-offset / 1000)
    }
  }

  // ------------------------------------------------------------- the uncapped windows

  /** Points of sample `s` under `key` among the first `n` channels. */
  function ChannelPoints(row: Row, key: string, s: nat, n: nat): seq<Point>
    requires row.WellFormed() && s < row.sampleCount && n <= |row.channels|
  {
    if n == 0 then []
    else ChannelPoints(row, key, s, n - 1)
         + if row.channels[n - 1].key == key then [Point(row.Time(s), Indexed(row.Content(), s, n - 1))] else []
  }

  /** Points under `key` of the first `n` samples that lie in the window. */
  function SamplePoints(q: Query, row: Row, key: string, n: nat): seq<Point>
    requires row.WellFormed() && n <= row.sampleCount
  {
    if n == 0 then []
    else SamplePoints(q, row, key, n - 1)
         + if q.Covers(row.Time(n - 1)) then ChannelPoints(row, key, n - 1, |row.channels|) else []
  }

  predicate Accepted(rows: seq<Row>) {
    forall i :: 0 <= i < |rows| ==> rows[i].Skipped() || rows[i].WellFormed()
  }

  /** Every in-range point under `key`, in frame and sample order: the uncapped window. */
  function Stream(q: Query, rows: seq<Row>, key: string): seq<Point>
    requires Accepted(rows)
  {
    if rows == [] then []
    else
      var last := rows[|rows| - 1];
      Stream(q, rows[..|rows| - 1], key)
      + if last.Skipped() then [] else SamplePoints(q, last, key, last.sampleCount)
  }

  /** Keys a frame adds, in order of first appearance. */
  function AddKeys(q: Query, names: seq<string>, channels: seq<Channel>, n: nat): seq<string>
    requires n <= |channels|
  {
    if n == 0 then names
    else
      var before := AddKeys(q, names, channels, n - 1);
      if q.Selects(channels[n - 1].key) && channels[n - 1].key !in before then before + [channels[n - 1].key] else before
  }

  function KeysSeen(q: Query, rows: seq<Row>): seq<string> {
    if rows == [] then []
    else
      var before, last := KeysSeen(q, rows[..|rows| - 1]), rows[|rows| - 1];
      if last.Skipped() then before else AddKeys(q, before, last.channels, |last.channels|)
  }

  // --------------------------------------------------------------- capped against uncapped

  /** The first `maxPoints` points, and whether there was one more. */
  predicate Caps(w: Window, full: seq<Point>, maxPoints: nat) {
    && w.points == full[..if |full| <= maxPoints then |full| else maxPoints]
    && (w.truncated <==> |full| > maxPoints)
  }

  function Push(w: Window, p: Point, maxPoints: nat): Window {
    if |w.points| >= maxPoints then w.(truncated := true) else w.(points := w.points + [p])
  }

  /** Pushing onto the capped window stays in step with appending to the uncapped one. */
  lemma PushCaps(w: Window, full: seq<Point>, p: Point, maxPoints: nat)
    requires Caps(w, full, maxPoints)
    ensures Caps(Push(w, p, maxPoints), full + [p], maxPoints)
  {
    if |full| < maxPoints {
      assert (full + [p])[..|full| + 1] == full[..|full|] + [p];
    } else {
      assert (full + [p])[..maxPoints] == full[..maxPoints];
    }
  }

  function Names(ws: seq<Window>): seq<string> {
    seq(|ws|, i requires 0 <= i < |ws| => ws[i].key)
  }

  ghost predicate DistinctNames(ws: seq<Window>) {
    forall i, j :: 0 <= i < j < |ws| ==> ws[i].key != ws[j].key
  }

  /** What key `key` has received after rows, then `s` samples of `row`, then `c` channels. */
  function Progress(q: Query, rows: seq<Row>, row: Row, s: nat, c: nat, key: string): seq<Point>
    requires Accepted(rows) && row.WellFormed() && s <= row.sampleCount && c <= |row.channels|
    requires s == row.sampleCount ==> c == 0
  {
    Stream(q, rows, key) + SamplePoints(q, row, key, s) + if c == 0 then [] else ChannelPoints(row, key, s, c)
  }

  lemma ProgressChannel(q: Query, rows: seq<Row>, row: Row, s: nat, c: nat, key: string)
    requires Accepted(rows) && row.WellFormed() && s < row.sampleCount && c < |row.channels|
    ensures Progress(q, rows, row, s, c + 1, key)
         == Progress(q, rows, row, s, c, key)
            + if row.channels[c].key == key then [Point(row.Time(s), Indexed(row.Content(), s, c))] else []
  {
    var tail := if row.channels[c].key == key then [Point(row.Time(s), Indexed(row.Content(), s, c))] else [];
    assert ChannelPoints(row, key, s, c + 1) == ChannelPoints(row, key, s, c) + tail;
    Seqs.Assoc(Stream(q, rows, key) + SamplePoints(q, row, key, s), ChannelPoints(row, key, s, c), tail);
  }

  lemma ProgressSample(q: Query, rows: seq<Row>, row: Row, s: nat, key: string)
    requires Accepted(rows) && row.WellFormed() && s < row.sampleCount
    ensures Progress(q, rows, row, s + 1, 0, key)
         == Progress(q, rows, row, s, if q.Covers(row.Time(s)) then |row.channels| else 0, key)
  {
    Seqs.Assoc(Stream(q, rows, key), SamplePoints(q, row, key, s), ChannelPoints(row, key, s, |row.channels|));
  }

  /** All windows are the caps of what their keys have received. */
  ghost predicate InStep(q: Query, ws: seq<Window>, rows: seq<Row>, row: Row, s: nat, c: nat)
    requires Accepted(rows) && row.WellFormed() && s <= row.sampleCount && c <= |row.channels|
    requires s == row.sampleCount ==> c == 0
  {
    forall i :: 0 <= i < |ws| ==> Caps(ws[i], Progress(q, rows, row, s, c, ws[i].key), q.maxPoints)
  }

  // ----------------------------------------------------------------------- the fold

  method FindWindow(ws: seq<Window>, key: string) returns (r: Option<nat>)
    ensures r.None? <==> key !in Names(ws)
    ensures r.Some? ==> r.value < |ws| && ws[r.value].key == key
  {
    for i := 0 to |ws|
      invariant forall j :: 0 <= j < i ==> ws[j].key != key
    {
      if ws[i].key == key {
        assert Names(ws)[i] == key;
        return Some(i);
      }
    }
    r := None;
  }

  lemma {:induction false} AddKeysHolds(q: Query, names: seq<string>, channels: seq<Channel>, n: nat, key: string)
    requires n <= |channels|
    ensures key in names ==> key in AddKeys(q, names, channels, n)
    ensures q.Selects(key) && (exists c :: 0 <= c < n && channels[c].key == key) ==> key in AddKeys(q, names, channels, n)
  {
    if n > 0 { AddKeysHolds(q, names, channels, n - 1, key); }
  }

  lemma {:induction false} AbsentPoints(q: Query, row: Row, key: string, s: nat, n: nat)
    requires row.WellFormed() && s < row.sampleCount && n <= |row.channels|
    requires forall c :: 0 <= c < |row.channels| ==> row.channels[c].key != key
    ensures ChannelPoints(row, key, s, n) == []
  {
    if n > 0 { AbsentPoints(q, row, key, s, n - 1); }
  }

  lemma {:induction false} AbsentSamples(q: Query, row: Row, key: string, n: nat)
    requires row.WellFormed() && n <= row.sampleCount
    requires forall c :: 0 <= c < |row.channels| ==> row.channels[c].key != key
    ensures SamplePoints(q, row, key, n) == []
  {
    if n > 0 {
      AbsentSamples(q, row, key, n - 1);
      AbsentPoints(q, row, key, n - 1, |row.channels|);
    }
  }

  /** A selected key that has no window yet has not received a point. */
  lemma {:induction false} UnseenIsEmpty(q: Query, rows: seq<Row>, key: string)
    requires Accepted(rows) && q.Selects(key) && key !in KeysSeen(q, rows)
    ensures Stream(q, rows, key) == []
  {
    if rows != [] {
      var front, last := rows[..|rows| - 1], rows[|rows| - 1];
      if last.Skipped() {
        UnseenIsEmpty(q, front, key);
      } else {
        AddKeysHolds(q, KeysSeen(q, front), last.channels, |last.channels|, key);
        UnseenIsEmpty(q, front, key);
        AbsentSamples(q, last, key, last.sampleCount);
      }
    }
  }

  /** Windows with distinct selected keys, each the cap of its key's stream. */
  ghost predicate Settled(q: Query, ws: seq<Window>, rows: seq<Row>)
    requires Accepted(rows)
  {
    && DistinctNames(ws)
    && (forall i :: 0 <= i < |ws| ==> q.Selects(ws[i].key))
    && forall i :: 0 <= i < |ws| ==> Caps(ws[i], Stream(q, rows, ws[i].key), q.maxPoints)
  }

  lemma NamesPush(ws: seq<Window>, w: Window)
    ensures Names(ws + [w]) == Names(ws) + [w.key]
    ensures DistinctNames(ws) && w.key !in Names(ws) ==> DistinctNames(ws + [w])
  {
    if DistinctNames(ws) && w.key !in Names(ws) {
      forall i | 0 <= i < |ws| ensures ws[i].key != w.key { assert Names(ws)[i] in Names(ws); }
    }
  }

  /** First loop: one empty window for every selected channel that has none. */
  method OpenWindows(ws: seq<Window>, q: Query, channels: seq<Channel>, ghost rows: seq<Row>) returns (r: seq<Window>)
    requires Accepted(rows) && Settled(q, ws, rows) && Names(ws) == KeysSeen(q, rows)
    ensures Settled(q, r, rows) && Names(r) == AddKeys(q, Names(ws), channels, |channels|)
  {
    r := ws;
    for c := 0 to |channels|
      invariant Settled(q, r, rows) && Names(r) == AddKeys(q, Names(ws), channels, c)
    {
      var key := channels[c].key;
      if q.Selects(key) {
        var found := FindWindow(r, key);
        if found.None? {
          AddKeysHolds(q, Names(ws), channels, c, key);
          UnseenIsEmpty(q, rows, key);
          NamesPush(r, Window(key, [], false));
          r := r + [Window(key, [], false)];
        }
      }
    }
  }

  ghost predicate Distinguished(q: Query, ws: seq<Window>) {
    DistinctNames(ws) && forall i :: 0 <= i < |ws| ==> q.Selects(ws[i].key)
  }

  lemma StepOther(q: Query, ws: seq<Window>, rows: seq<Row>, row: Row, s: nat, c: nat)
    requires Accepted(rows) && row.WellFormed() && s < row.sampleCount && c < |row.channels|
    requires InStep(q, ws, rows, row, s, c) && forall i :: 0 <= i < |ws| ==> ws[i].key != row.channels[c].key
    ensures InStep(q, ws, rows, row, s, c + 1)
  {
    forall i | 0 <= i < |ws| ensures Caps(ws[i], Progress(q, rows, row, s, c + 1, ws[i].key), q.maxPoints) {
      ProgressChannel(q, rows, row, s, c, ws[i].key);
    }
  }

  lemma StepFound(q: Query, ws: seq<Window>, rows: seq<Row>, row: Row, s: nat, c: nat, k: nat)
    requires Accepted(rows) && row.WellFormed() && s < row.sampleCount && c < |row.channels|
    requires InStep(q, ws, rows, row, s, c) && DistinctNames(ws) && k < |ws| && ws[k].key == row.channels[c].key
    ensures var p := Point(row.Time(s), Indexed(row.Content(), s, c));
            InStep(q, ws[k := Push(ws[k], p, q.maxPoints)], rows, row, s, c + 1)
  {
    var p := Point(row.Time(s), Indexed(row.Content(), s, c));
    var r := ws[k := Push(ws[k], p, q.maxPoints)];
    forall i | 0 <= i < |r| ensures Caps(r[i], Progress(q, rows, row, s, c + 1, r[i].key), q.maxPoints) {
      ProgressChannel(q, rows, row, s, c, ws[i].key);
      if i == k { PushCaps(ws[k], Progress(q, rows, row, s, c, ws[k].key), p, q.maxPoints); }
    }
  }

  /** One channel of an in-range sample: a point, or the truncation mark, if it is selected. */
  method AppendPoint(ws: seq<Window>, q: Query, row: Row, s: nat, c: nat, ghost rows: seq<Row>) returns (r: seq<Window>)
    requires Accepted(rows) && row.WellFormed() && s < row.sampleCount && c < |row.channels|
    requires Distinguished(q, ws) && InStep(q, ws, rows, row, s, c)
    ensures Distinguished(q, r) && Names(r) == Names(ws) && InStep(q, r, rows, row, s, c + 1)
  {
    var channel := row.channels[c];
    var found := None;
    if q.Selects(channel.key) {
      found := FindWindow(ws, channel.key);
    }
    if found.None? {
      forall i | 0 <= i < |ws| ensures ws[i].key != channel.key { assert Names(ws)[i] in Names(ws); }
      StepOther(q, ws, rows, row, s, c);
      return ws;
    }
    var k := found.value;
    StepFound(q, ws, rows, row, s, c, k);
    var w := ws[k];
    if |w.points| >= q.maxPoints {
      w := w.(truncated := true);
    } else {
      w := w.(points := w.points + [Point(row.Time(s), Indexed(row.Content(), s, c))]);
    }
    r := ws[k := w];
    SameNames(q, ws, k, w);
  }

  lemma SameNames(q: Query, ws: seq<Window>, k: nat, w: Window)
    requires Distinguished(q, ws) && k < |ws| && w.key == ws[k].key
    ensures Distinguished(q, ws[k := w]) && Names(ws[k := w]) == Names(ws)
  {}

  /** One in-range sample, for all channels of the frame. */
  method AppendSample(ws: seq<Window>, q: Query, row: Row, s: nat, ghost rows: seq<Row>) returns (r: seq<Window>)
    requires Accepted(rows) && row.WellFormed() && s < row.sampleCount
    requires Distinguished(q, ws) && InStep(q, ws, rows, row, s, 0)
    ensures Distinguished(q, r) && Names(r) == Names(ws) && InStep(q, r, rows, row, s, |row.channels|)
  {
    r := ws;
    for c := 0 to |row.channels|
      invariant Distinguished(q, r) && Names(r) == Names(ws) && InStep(q, r, rows, row, s, c)
    {
      r := AppendPoint(r, q, row, s, c, rows);
    }
  }

  lemma StepSample(q: Query, ws: seq<Window>, rows: seq<Row>, row: Row, s: nat)
    requires Accepted(rows) && row.WellFormed() && s < row.sampleCount
    requires InStep(q, ws, rows, row, s, if q.Covers(row.Time(s)) then |row.channels| else 0)
    ensures InStep(q, ws, rows, row, s + 1, 0)
  {
    forall i | 0 <= i < |ws| ensures Caps(ws[i], Progress(q, rows, row, s + 1, 0, ws[i].key), q.maxPoints) {
      ProgressSample(q, rows, row, s, ws[i].key);
    }
  }

  method AppendSamples(ws: seq<Window>, q: Query, row: Row, ghost rows: seq<Row>) returns (r: seq<Window>)
    requires Accepted(rows) && row.WellFormed()
    requires Distinguished(q, ws) && InStep(q, ws, rows, row, 0, 0)
    ensures Distinguished(q, r) && Names(r) == Names(ws) && InStep(q, r, rows, row, row.sampleCount, 0)
  {
    r := ws;
    for s := 0 to row.sampleCount
      invariant Distinguished(q, r) && Names(r) == Names(ws) && InStep(q, r, rows, row, s, 0)
    {
      if q.Covers(row.Time(s)) {
        r := AppendSample(r, q, row, s, rows);
      }
      StepSample(q, r, rows, row, s);
    }
  }

  lemma FrameStarts(q: Query, ws: seq<Window>, rows: seq<Row>, row: Row)
    requires Accepted(rows) && row.WellFormed() && Settled(q, ws, rows)
    ensures Distinguished(q, ws) && InStep(q, ws, rows, row, 0, 0)
  {
    forall i | 0 <= i < |ws| ensures Caps(ws[i], Progress(q, rows, row, 0, 0, ws[i].key), q.maxPoints) {
      assert Progress(q, rows, row, 0, 0, ws[i].key) == Stream(q, rows, ws[i].key);
    }
  }

  lemma FrameEnds(q: Query, ws: seq<Window>, rows: seq<Row>, row: Row)
    requires Accepted(rows) && row.WellFormed()
    requires Distinguished(q, ws) && InStep(q, ws, rows, row, row.sampleCount, 0)
    ensures Accepted(rows + [row]) && Settled(q, ws, rows + [row])
  {
    var more := rows + [row];
    assert more[..|more| - 1] == rows;
    forall i | 0 <= i < |ws| ensures Caps(ws[i], Stream(q, more, ws[i].key), q.maxPoints) {
      assert Progress(q, rows, row, row.sampleCount, 0, ws[i].key) == Stream(q, more, ws[i].key);
    }
  }

  lemma FrameSkipped(q: Query, ws: seq<Window>, rows: seq<Row>, row: Row)
    requires Accepted(rows) && row.Skipped() && Settled(q, ws, rows)
    ensures Accepted(rows + [row]) && Settled(q, ws, rows + [row])
  {
    var more := rows + [row];
    assert more[..|more| - 1] == rows;
    forall i | 0 <= i < |ws| ensures Caps(ws[i], Stream(q, more, ws[i].key), q.maxPoints) {
      assert Stream(q, more, ws[i].key) == Stream(q, rows, ws[i].key);
    }
  }

  lemma KeysSeenNext(q: Query, rows: seq<Row>, row: Row)
    ensures KeysSeen(q, rows + [row])
         == if row.Skipped() then KeysSeen(q, rows) else AddKeys(q, KeysSeen(q, rows), row.channels, |row.channels|)
  {
    var more := rows + [row];
    assert more[..|more| - 1] == rows;
  }

  /** append_signal_frame_points: an error leaves the windows alone. */
  method AppendFrame(ws: seq<Window>, q: Query, row: Row, ghost rows: seq<Row>) returns (r: seq<Window>, ok: bool)
    requires Accepted(rows) && Settled(q, ws, rows) && Names(ws) == KeysSeen(q, rows)
    ensures ok <==> row.Skipped() || row.WellFormed()
    ensures ok ==> Accepted(rows + [row]) && Settled(q, r, rows + [row]) && Names(r) == KeysSeen(q, rows + [row])
    ensures !ok ==> r == ws
  {
    r, ok := ws, true;
    KeysSeenNext(q, rows, row);
    if row.sampleCount <= 0 || row.channels == [] {
      FrameSkipped(q, ws, rows, row);
      return;
    }
    if row.encoding.Some? { WellSizedIs(row.samples, row.encoding.value, row.sampleCount, |row.channels|); }
    if row.encoding.None?
       || |row.samples| != row.sampleCount * |row.channels| * Width(row.encoding.value)
       || row.layout.None?
    {
      ok := false;
      return;
    }
    r := OpenWindows(ws, q, row.channels, rows);
    FrameStarts(q, r, rows, row);
    r := AppendSamples(r, q, row, rows);
    FrameEnds(q, r, rows, row);
  }

  /** Known names, and as many bytes as the samples take. */
  predicate Decodes(row: Row) {
    && row.encoding.Some? && row.layout.Some?
    && |row.samples| == row.sampleCount * |row.channels| * (if row.encoding.value.Int16? || row.encoding.value.Uint16? then 2 else 4)
  }

  lemma DecodesIff(row: Row)
    ensures row.sampleCount > 0 && |row.channels| > 0 ==> (row.WellFormed() <==> Decodes(row))
  {
    if row.sampleCount > 0 && row.encoding.Some? { WellSizedIs(row.samples, row.encoding.value, row.sampleCount, |row.channels|); }
  }

  /** The loop over a stream's stored frames. */
  method BuildWindows(q: Query, rows: seq<Row>) returns (r: Option<seq<Window>>)
    ensures r.Some? <==> Accepted(rows)
    ensures r.Some? <==> forall i :: 0 <= i < |rows| ==> rows[i].sampleCount <= 0 || |rows[i].channels| == 0 || Decodes(rows[i])
    ensures r.Some? ==> Settled(q, r.value, rows) && Names(r.value) == KeysSeen(q, rows)
  {
    forall i | 0 <= i < |rows| ensures rows[i].WellFormed() || rows[i].Skipped() <==>
        rows[i].sampleCount <= 0 || |rows[i].channels| == 0 || Decodes(rows[i])
    {
      DecodesIff(rows[i]);
    }
    var ws := [];
    assert Names(ws) == [];
    for i := 0 to |rows|
      invariant Accepted(rows[..i]) && Settled(q, ws, rows[..i]) && Names(ws) == KeysSeen(q, rows[..i])
    {
      var ok;
      ws, ok := AppendFrame(ws, q, rows[i], rows[..i]);
      if !ok {
        return None;
      }
      assert rows[..i] + [rows[i]] == rows[..i + 1];
    }
    assert rows[..|rows|] == rows;
    r := Some(ws);
  }

  // ------------------------------------------------------------- what a window contains

  /** The in-range samples of one channel of a frame. */
  function InRangeSamples(q: Query, row: Row, c: nat, n: nat): seq<Point>
    requires row.WellFormed() && n <= row.sampleCount && c < |row.channels|
  {
    if n == 0 then []
    else InRangeSamples(q, row, c, n - 1)
         + if q.Covers(row.Time(n - 1)) then [Point(row.Time(n - 1), Indexed(row.Content(), n - 1, c))] else []
  }

  /** The points under the key of channel `c` after each channel. */
  function PointLists(row: Row, s: nat, c: nat): (lists: seq<seq<Point>>)
    requires row.WellFormed() && s < row.sampleCount && c < |row.channels|
  {
    seq(|row.channels| + 1, n requires 0 <= n <= |row.channels| => ChannelPoints(row, row.channels[c].key, s, n))
  }

  lemma OnePointPerSample(row: Row, s: nat, c: nat, n: nat)
    requires row.WellFormed() && DistinctKeys(row.channels) && s < row.sampleCount && c < |row.channels| && n <= |row.channels|
    ensures ChannelPoints(row, row.channels[c].key, s, n)
         == if n > c then [Point(row.Time(s), Indexed(row.Content(), s, c))] else []
  {
    var lists, p := PointLists(row, s, c), Point(row.Time(s), Indexed(row.Content(), s, c));
    forall k | 0 <= k < |lists| - 1 ensures lists[k + 1] == lists[k] + if k == c then [p] else [] {
      ChannelPointAdds(row, s, c, k);
    }
    Seqs.AddedOnce(lists, [p], c, n);
  }

  lemma ChannelPointAdds(row: Row, s: nat, c: nat, n: nat)
    requires row.WellFormed() && DistinctKeys(row.channels) && s < row.sampleCount && c < |row.channels| && n < |row.channels|
    ensures ChannelPoints(row, row.channels[c].key, s, n + 1)
         == ChannelPoints(row, row.channels[c].key, s, n)
            + if n == c then [Point(row.Time(s), Indexed(row.Content(), s, c))] else []
  {
    SameKeyIff(row.channels, c, n);
  }

  /** With distinct keys a frame contributes exactly its channel's in-range samples, in order. */
  lemma {:induction false} ContributesOwnSamples(q: Query, row: Row, c: nat, n: nat)
    requires row.WellFormed() && DistinctKeys(row.channels) && n <= row.sampleCount && c < |row.channels|
    ensures SamplePoints(q, row, row.channels[c].key, n) == InRangeSamples(q, row, c, n)
  {
    if n > 0 {
      ContributesOwnSamples(q, row, c, n - 1);
      OnePointPerSample(row, n - 1, c, |row.channels|);
    }
  }

  /** The time drops the fraction of a microsecond, towards the frame's own time. */
  lemma TimeTruncates(row: Row, s: nat)
    ensures var offset, us := s * row.interval, row.Time(s) - row.eventTime;
            if offset >= 0 then 0 <= offset - 1000 * us < 1000 else 0 <= 1000 * us - offset < 1000
  {}

  // -------------------------------------------------------- the stream, place by place

  /** A sample of a channel of a frame. */
  datatype Spot = Spot(frame: nat, sample: nat, channel: nat)

  predicate Exists(rows: seq<Row>, p: Spot) {
    && p.frame < |rows| && rows[p.frame].WellFormed()
    && p.sample < rows[p.frame].sampleCount && p.channel < |rows[p.frame].channels|
  }

  /** By frame, then by sample, then by channel. */
  predicate Earlier(a: Spot, b: Spot) {
    a.frame < b.frame
    || (a.frame == b.frame && (a.sample < b.sample || (a.sample == b.sample && a.channel < b.channel)))
  }

  /** A channel of that key, at a time inside the window. */
  predicate Wanted(q: Query, rows: seq<Row>, key: string, p: Spot) {
    && Exists(rows, p) && rows[p.frame].channels[p.channel].key == key
    && q.start <= rows[p.frame].Time(p.sample) <= q.end
  }

  ghost predicate InOrder(spots: seq<Spot>) {
    forall i, j :: 0 <= i < j < |spots| ==> Earlier(spots[i], spots[j])
  }

  function PointAt(rows: seq<Row>, p: Spot): Point
    requires Exists(rows, p)
  {
    Point(rows[p.frame].Time(p.sample), Indexed(rows[p.frame].Content(), p.sample, p.channel))
  }

  /** The points are those at the spots. */
  ghost predicate At(rows: seq<Row>, spots: seq<Spot>, points: seq<Point>) {
    && |spots| == |points|
    && forall k :: 0 <= k < |spots| ==> Exists(rows, spots[k]) && points[k] == PointAt(rows, spots[k])
  }

  lemma AtNext(rows: seq<Row>, spots: seq<Spot>, points: seq<Point>, p: Spot)
    requires At(rows, spots, points) && Exists(rows, p)
    ensures At(rows, spots + [p], points + [PointAt(rows, p)]) && At(rows, spots, points + [])
  {
    assert points + [] == points;
  }

  /** All places up to a limit that are wanted, and no others. */
  ghost predicate Finds(q: Query, rows: seq<Row>, key: string, spots: seq<Spot>, end: Spot) {
    forall p :: p in spots <==> Wanted(q, rows, key, p) && Earlier(p, end)
  }

  lemma FindsNext(q: Query, rows: seq<Row>, key: string, spots: seq<Spot>, end: Spot, next: Spot)
    requires Finds(q, rows, key, spots, end) && InOrder(spots) && Earlier(end, next)
    requires forall p :: Wanted(q, rows, key, p) && Earlier(p, next) && !Earlier(p, end) ==> p == end
    ensures var more := if Wanted(q, rows, key, end) then spots + [end] else spots;
            Finds(q, rows, key, more, next) && InOrder(more)
  {
    var more := if Wanted(q, rows, key, end) then spots + [end] else spots;
    forall p ensures p in more <==> Wanted(q, rows, key, p) && Earlier(p, next) {
      assert p in spots <==> Wanted(q, rows, key, p) && Earlier(p, end);
    }
    forall i | 0 <= i < |spots| ensures Earlier(spots[i], end) { assert spots[i] in spots; }
  }

  /** One more channel. */
  lemma PointsNext(rows: seq<Row>, key: string, i: nat, s: nat, c: nat, spots: seq<Spot>, points: seq<Point>)
    requires i < |rows| && rows[i].WellFormed() && s < rows[i].sampleCount && c < |rows[i].channels|
    requires At(rows, spots, points + ChannelPoints(rows[i], key, s, c))
    ensures At(rows, if rows[i].channels[c].key == key then spots + [Spot(i, s, c)] else spots,
               points + ChannelPoints(rows[i], key, s, c + 1))
  {
    AtNext(rows, spots, points + ChannelPoints(rows[i], key, s, c), Spot(i, s, c));
    Seqs.Assoc(points, ChannelPoints(rows[i], key, s, c),
               if rows[i].channels[c].key == key then [PointAt(rows, Spot(i, s, c))] else []);
  }

  lemma SpotNext(q: Query, rows: seq<Row>, key: string, i: nat, s: nat, c: nat, spots: seq<Spot>, points: seq<Point>)
    returns (more: seq<Spot>)
    requires i < |rows| && rows[i].WellFormed() && s < rows[i].sampleCount && c < |rows[i].channels| && q.Covers(rows[i].Time(s))
    requires Finds(q, rows, key, spots, Spot(i, s, c)) && InOrder(spots) && At(rows, spots, points + ChannelPoints(rows[i], key, s, c))
    ensures Finds(q, rows, key, more, Spot(i, s, c + 1)) && InOrder(more) && At(rows, more, points + ChannelPoints(rows[i], key, s, c + 1))
  {
    more := if rows[i].channels[c].key == key then spots + [Spot(i, s, c)] else spots;
    FindsNext(q, rows, key, spots, Spot(i, s, c), Spot(i, s, c + 1));
    PointsNext(rows, key, i, s, c, spots, points);
  }

  /** What a key has received up to a sample and channel of a frame are the wanted places up to there. */
  lemma {:induction false} ChannelSpots(q: Query, rows: seq<Row>, key: string, i: nat, s: nat, n: nat, before: seq<Spot>, points: seq<Point>)
    returns (spots: seq<Spot>)
    requires i < |rows| && rows[i].WellFormed() && s < rows[i].sampleCount && n <= |rows[i].channels| && q.Covers(rows[i].Time(s))
    requires Finds(q, rows, key, before, Spot(i, s, 0)) && InOrder(before) && At(rows, before, points)
    ensures Finds(q, rows, key, spots, Spot(i, s, n)) && InOrder(spots)
    ensures At(rows, spots, points + ChannelPoints(rows[i], key, s, n))
  {
    if n == 0 {
      spots := before;
      assert points + ChannelPoints(rows[i], key, s, 0) == points;
    } else {
      var front := ChannelSpots(q, rows, key, i, s, n - 1, before, points);
      spots := SpotNext(q, rows, key, i, s, n - 1, front, points);
    }
  }

  /** A limit may move over places that are not wanted. */
  lemma FindsUpTo(q: Query, rows: seq<Row>, key: string, spots: seq<Spot>, end: Spot, next: Spot)
    requires Finds(q, rows, key, spots, end) && Earlier(end, next)
    requires forall p :: Wanted(q, rows, key, p) && Earlier(p, next) ==> Earlier(p, end)
    ensures Finds(q, rows, key, spots, next)
  {
    forall p ensures p in spots <==> Wanted(q, rows, key, p) && Earlier(p, next) {
      assert p in spots <==> Wanted(q, rows, key, p) && Earlier(p, end);
    }
  }

  lemma {:induction false} SampleSpots(q: Query, rows: seq<Row>, key: string, i: nat, n: nat, before: seq<Spot>, points: seq<Point>)
    returns (spots: seq<Spot>)
    requires i < |rows| && rows[i].WellFormed() && n <= rows[i].sampleCount
    requires Finds(q, rows, key, before, Spot(i, 0, 0)) && InOrder(before) && At(rows, before, points)
    ensures Finds(q, rows, key, spots, Spot(i, n, 0)) && InOrder(spots)
    ensures At(rows, spots, points + SamplePoints(q, rows[i], key, n))
  {
    if n == 0 {
      spots := before;
      assert points + SamplePoints(q, rows[i], key, 0) == points;
    } else {
      var front := SampleSpots(q, rows, key, i, n - 1, before, points);
      var row, width := rows[i], |rows[i].channels|;
      if q.Covers(row.Time(n - 1)) {
        spots := ChannelSpots(q, rows, key, i, n - 1, width, front, points + SamplePoints(q, row, key, n - 1));
        FindsUpTo(q, rows, key, spots, Spot(i, n - 1, width), Spot(i, n, 0));
        Seqs.Assoc(points, SamplePoints(q, row, key, n - 1), ChannelPoints(row, key, n - 1, width));
      } else {
        spots := front;
        FindsUpTo(q, rows, key, front, Spot(i, n - 1, 0), Spot(i, n, 0));
        Seqs.Assoc(points, SamplePoints(q, row, key, n - 1), []);
      }
    }
  }

  /** Spots of the frames before one are spots of all. */
  lemma MoreFrames(q: Query, rows: seq<Row>, key: string, n: nat, spots: seq<Spot>, points: seq<Point>)
    requires n < |rows| && Finds(q, rows[..n], key, spots, Spot(n, 0, 0)) && At(rows[..n], spots, points)
    ensures Finds(q, rows, key, spots, Spot(n, 0, 0)) && At(rows, spots, points)
  {
    forall p ensures p in spots <==> Wanted(q, rows, key, p) && Earlier(p, Spot(n, 0, 0)) {
      assert p in spots <==> Wanted(q, rows[..n], key, p) && Earlier(p, Spot(n, 0, 0));
    }
  }

  /** The stream of a key, place by place: exactly the samples of its channels whose time lies
      from start to end, by frame, sample and channel, each with its time and decoded value. */
  lemma {:induction false} StreamIs(q: Query, rows: seq<Row>, key: string) returns (spots: seq<Spot>)
    requires Accepted(rows)
    ensures InOrder(spots) && At(rows, spots, Stream(q, rows, key))
    ensures forall p :: p in spots <==> Wanted(q, rows, key, p)
  {
    if rows == [] {
      spots := [];
    } else {
      var n := |rows| - 1;
      spots := StreamIs(q, rows[..n], key);
      AllBelow(q, rows[..n], key, spots);
      MoreFrames(q, rows, key, n, spots, Stream(q, rows[..n], key));
      if rows[n].Skipped() {
        Seqs.Assoc(Stream(q, rows[..n], key), [], []);
        assert Stream(q, rows, key) == Stream(q, rows[..n], key);
      } else {
        spots := SampleSpots(q, rows, key, n, rows[n].sampleCount, spots, Stream(q, rows[..n], key));
      }
      AtEnd(q, rows, key, spots, if rows[n].Skipped() then Spot(n, 0, 0) else Spot(n, rows[n].sampleCount, 0));
    }
  }

  lemma AllBelow(q: Query, rows: seq<Row>, key: string, spots: seq<Spot>)
    requires forall p :: p in spots <==> Wanted(q, rows, key, p)
    ensures Finds(q, rows, key, spots, Spot(|rows|, 0, 0))
  {}

  lemma AtEnd(q: Query, rows: seq<Row>, key: string, spots: seq<Spot>, end: Spot)
    requires Finds(q, rows, key, spots, end) && forall p :: Wanted(q, rows, key, p) ==> Earlier(p, end)
    ensures forall p :: p in spots <==> Wanted(q, rows, key, p)
  {
    forall p ensures p in spots <==> Wanted(q, rows, key, p) {
      assert p in spots <==> Wanted(q, rows, key, p) && Earlier(p, end);
    }
  }

  // ------------------------------------------------------------------ which windows there are

  /** The keys of all channels of the frames that are not skipped, in order. */
  function ChannelKeys(rows: seq<Row>): seq<string> {
    if rows == [] then []
    else ChannelKeys(rows[..|rows| - 1]) + if rows[|rows| - 1].Skipped() then [] else KeysOf(rows[|rows| - 1].channels)
  }

  function KeysOf(channels: seq<Channel>): (r: seq<string>)
    ensures |r| == |channels|
  {
    seq(|channels|, c requires 0 <= c < |channels| => channels[c].key)
  }

  /** `names` are the wanted keys among `keys`, each at the place where it is first seen. */
  ghost predicate FirstSeen(q: Query, keys: seq<string>, names: seq<string>, places: seq<nat>) {
    && |places| == |names|
    && (forall i, j :: 0 <= i < j < |places| ==> places[i] < places[j])
    && (forall k :: 0 <= k < |names| ==> places[k] < |keys| && keys[places[k]] == names[k] && names[k] !in keys[..places[k]])
    && (forall key :: key in names <==> key in keys && (q.selected == [] || key in q.selected))
  }

  /** Places stay right when more keys follow. */
  lemma MoreKeys(q: Query, keys: seq<string>, names: seq<string>, places: seq<nat>, key: string)
    requires FirstSeen(q, keys, names, places)
    ensures forall k :: 0 <= k < |names| ==>
              places[k] < |keys + [key]| && (keys + [key])[places[k]] == names[k] && names[k] !in (keys + [key])[..places[k]]
  {
    forall k | 0 <= k < |names|
      ensures places[k] < |keys + [key]| && (keys + [key])[places[k]] == names[k] && names[k] !in (keys + [key])[..places[k]]
    {
      assert (keys + [key])[..places[k]] == keys[..places[k]];
    }
  }

  lemma FirstSeenNext(q: Query, keys: seq<string>, names: seq<string>, places: seq<nat>, key: string)
    returns (places': seq<nat>)
    requires FirstSeen(q, keys, names, places)
    ensures FirstSeen(q, keys + [key], if q.Selects(key) && key !in names then names + [key] else names, places')
  {
    MoreKeys(q, keys, names, places, key);
    if q.Selects(key) && key !in names {
      assert (keys + [key])[..|keys|] == keys;
      places' := places + [|keys|];
      NameAdded(q, keys, names, key);
    } else {
      places' := places;
    }
  }

  lemma NameAdded(q: Query, keys: seq<string>, names: seq<string>, key: string)
    requires forall k :: k in names <==> k in keys && (q.selected == [] || k in q.selected)
    requires q.Selects(key)
    ensures forall k :: k in names + [key] <==> k in keys + [key] && (q.selected == [] || k in q.selected)
  {}

  lemma {:induction false} AddKeysFirstSeen(q: Query, keys: seq<string>, names: seq<string>, places: seq<nat>, channels: seq<Channel>, n: nat)
    returns (places': seq<nat>)
    requires n <= |channels| && FirstSeen(q, keys, names, places)
    ensures FirstSeen(q, keys + KeysOf(channels)[..n], AddKeys(q, names, channels, n), places')
  {
    if n == 0 {
      places' := places;
      assert keys + KeysOf(channels)[..0] == keys;
    } else {
      var before := AddKeysFirstSeen(q, keys, names, places, channels, n - 1);
      assert keys + KeysOf(channels)[..n] == keys + KeysOf(channels)[..n - 1] + [channels[n - 1].key];
      places' := FirstSeenNext(q, keys + KeysOf(channels)[..n - 1], AddKeys(q, names, channels, n - 1), before, channels[n - 1].key);
    }
  }

  /** The windows' keys: the selected keys that occur, each once, in the order they first occur. */
  lemma {:induction false} KeysSeenIs(q: Query, rows: seq<Row>) returns (places: seq<nat>)
    ensures FirstSeen(q, ChannelKeys(rows), KeysSeen(q, rows), places)
  {
    if rows == [] {
      places := [];
    } else {
      var front, last := rows[..|rows| - 1], rows[|rows| - 1];
      places := KeysSeenIs(q, front);
      if last.Skipped() {
        assert ChannelKeys(rows) == ChannelKeys(front);
      } else {
        places := AddKeysFirstSeen(q, ChannelKeys(front), KeysSeen(q, front), places, last.channels, |last.channels|);
        assert KeysOf(last.channels)[..|last.channels|] == KeysOf(last.channels);
      }
    }
  }
}
