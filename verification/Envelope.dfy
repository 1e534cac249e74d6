/**
 Downsampling in the query service: a scalar series is thinned by stride, a sampled series is
 summed up in as many buckets as there may be points, each with minimum, maximum and average.
 */
module Envelope {
  import opened Wrappers
  import opened Numbers

  // ----------------------------------------------------------------------- thinning

  /** rows[::stride] */
  function Every<T>(rows: seq<T>, stride: nat): (r: seq<T>)
    requires stride > 0
    ensures |r| == (|rows| + stride - 1) / stride
  {
    var count := (|rows| + stride - 1) / stride;
    seq(count, i requires 0 <= i < count => StrideInside(|rows|, stride, i); rows[i * stride])
  }

  lemma StrideInside(length: nat, stride: nat, i: nat)
    requires stride > 0 && i < (length + stride - 1) / stride
    ensures i * stride < length
  {
    var q := (length + stride - 1) / stride;
    assert q * stride <= length + stride - 1;
    assert (i + 1) * stride <= q * stride;
  }

  function Stride(length: nat, maxPoints: nat): (d: nat)
    requires 0 < maxPoints < length
    ensures d > 0
  {
    if length / maxPoints > 1 then length / maxPoints else 1
  }

  /** _limit_points */
  function LimitPoints<T>(rows: seq<T>, maxPoints: int): seq<T> {
    if maxPoints <= 0 || |rows| <= maxPoints then rows
    else
      var kept := Every(rows, Stride(|rows|, maxPoints));
      if |kept| <= maxPoints then kept else kept[..maxPoints]
  }

  lemma StrideFits(length: nat, maxPoints: nat)
    requires 0 < maxPoints < length
    ensures Stride(length, maxPoints) == length / maxPoints
    ensures Stride(length, maxPoints) * maxPoints + length % maxPoints == length
    ensures (length + Stride(length, maxPoints) - 1) / Stride(length, maxPoints) >= maxPoints
  {
    var d := length / maxPoints;
    assert d * maxPoints + length % maxPoints == length;
    assert d >= 1 by { assert d <= 0 ==> d * maxPoints <= 0; }
    QuotientAtLeast(length + d - 1, d, maxPoints);
  }

  lemma QuotientAtLeast(x: nat, d: nat, k: nat)
    requires d > 0 && d * k <= x
    ensures x / d >= k
  {
    var q := x / d;
    assert x < d * q + d;
    assert q + 1 <= k ==> d * (q + 1) <= d * k;
  }

  /** A series that is short enough, or has no limit, is not cut. */
  lemma ShortKept<T>(rows: seq<T>, maxPoints: int)
    requires maxPoints <= 0 || |rows| <= maxPoints
    ensures LimitPoints(rows, maxPoints) == rows
  {}

  /** A cut series has exactly `maxPoints` rows: every stride-th one, starting with the first;
      the rows after the last kept one number less than stride plus `maxPoints`. */
  lemma LimitedRows<T>(rows: seq<T>, maxPoints: nat)
    requires 0 < maxPoints < |rows|
    ensures var r, d := LimitPoints(rows, maxPoints), |rows| / maxPoints;
            && |r| == maxPoints
            && (forall i :: 0 <= i < maxPoints ==> 0 <= i * d < |rows| && r[i] == rows[i * d])
            && |rows| - 1 - (maxPoints - 1) * d == d - 1 + |rows| % maxPoints
  {
    var d := Stride(|rows|, maxPoints);
    StrideFits(|rows|, maxPoints);
    forall i | 0 <= i < maxPoints ensures 0 <= i * d < |rows| {
      StrideInside(|rows|, d, i);
    }
    assert (maxPoints - 1) * d == d * maxPoints - d;
  }

  /** In order: later rows of the cut come from later rows of the series. */
  lemma LimitedInOrder(length: nat, maxPoints: nat, i: nat, j: nat)
    requires 0 < maxPoints < length && i < j < maxPoints
    ensures i * Stride(length, maxPoints) < j * Stride(length, maxPoints)
  {
    var d := Stride(length, maxPoints);
    assert (i + 1) * d <= j * d;
  }

  // ------------------------------------------------------------------------ buckets

  /** Where bucket `b` of `n` starts among `total` samples. */
  function Bound(b: nat, total: nat, n: nat): nat
    requires n > 0
  {
    b * total / n
  }

  lemma QuotientStep(x: nat, y: nat, n: nat)
    requires n > 0 && x + n <= y
    ensures x / n < y / n
  {
    QuotientAtLeast(y, n, x / n + 1);
  }

  lemma Steps(b: nat, total: nat)
    ensures (b + 1) * total == b * total + total
  {}

  lemma Multiples(total: nat, n: nat)
    requires n > 0
    ensures n * total / n == total
  {
    QuotientAtLeast(n * total, n, total);
    var q := n * total / n;
    assert n * q <= n * total;
    assert q >= total + 1 ==> n * q >= n * (total + 1);
  }

  /** No bucket is empty. */
  lemma BucketsNonEmpty(b: nat, total: nat, n: nat)
    requires 0 < n <= total
    ensures Bound(b, total, n) < Bound(b + 1, total, n)
  {
    Steps(b, total);
    QuotientStep(b * total, (b + 1) * total, n);
  }

  lemma BucketEnds(total: nat, n: nat)
    requires n > 0
    ensures Bound(0, total, n) == 0 && Bound(n, total, n) == total
  {
    Multiples(total, n);
  }

  lemma {:induction false} BucketsInOrder(b: nat, c: nat, total: nat, n: nat)
    requires 0 < n <= total && b < c
    ensures Bound(b, total, n) < Bound(c, total, n)
    decreases c - b
  {
    BucketsNonEmpty(c - 1, total, n);
    if b < c - 1 { BucketsInOrder(b, c - 1, total, n); }
  }

  /** Cut points of `total` samples into consecutive non-empty buckets. */
  predicate Partitions(cuts: seq<nat>, total: nat) {
    && |cuts| >= 2 && cuts[0] == 0 && cuts[|cuts| - 1] == total
    && forall b, c :: 0 <= b < c < |cuts| ==> cuts[b] < cuts[c]
  }

  function Cuts(total: nat, n: nat): (cuts: seq<nat>)
    requires n > 0
    ensures |cuts| == n + 1
  {
    seq(n + 1, b requires 0 <= b <= n => Bound(b, total, n))
  }

  /** With at least as many samples as buckets, no bucket is empty and none is left out. */
  lemma CutsPartition(total: nat, n: nat)
    requires 0 < n <= total
    ensures Partitions(Cuts(total, n), total)
    ensures forall b :: 0 <= b <= n ==> Cuts(total, n)[b] == b * total / n
  {
    BucketEnds(total, n);
    forall b, c | 0 <= b < c <= n ensures Cuts(total, n)[b] < Cuts(total, n)[c] {
      BucketsInOrder(b, c, total, n);
    }
  }

  lemma Apart(cuts: seq<nat>, total: nat, b: nat, c: nat)
    requires Partitions(cuts, total) && b < |cuts| && c < |cuts|
    ensures b < c ==> cuts[b + 1] <= cuts[c]
  {}

  /** Every sample lies in exactly one bucket. */
  lemma {:induction false} BucketOf(cuts: seq<nat>, total: nat, i: nat, k: nat) returns (b: nat)
    requires Partitions(cuts, total) && k < |cuts| && i < cuts[k]
    ensures b < k && cuts[b] <= i < cuts[b + 1]
    ensures forall c :: 0 <= c < |cuts| - 1 && cuts[c] <= i < cuts[c + 1] ==> c == b
  {
    if cuts[k - 1] <= i {
      b := k - 1;
      forall c | 0 <= c < |cuts| - 1 && cuts[c] <= i < cuts[c + 1] ensures c == b {
        Apart(cuts, total, b, c);
        Apart(cuts, total, c, b);
      }
    } else {
      b := BucketOf(cuts, total, i, k - 1);
    }
  }

  // ---------------------------------------------------------------------- summaries

  /** The sum of the real numbers among the values. */
  function Sum(vs: seq<Number>): real {
    if vs == [] then 0.0 else Sum(vs[..|vs| - 1]) + RealOf(vs[|vs| - 1])
  }

  function RealOf(v: Number): real {
    if v.Finite? then v.r else 0.0
  }

  predicate AllFinite(vs: seq<Number>) {
    forall i :: 0 <= i < |vs| ==> vs[i].Finite?
  }

  /** sum(vs) */
  function Total(vs: seq<Number>): Number {
    if vs == [] then Finite(0.0) else Add(Total(vs[..|vs| - 1]), vs[|vs| - 1])
  }

  /** min(vs): a later value takes over if it is less. */
  function Min(vs: seq<Number>): Number
    requires vs != []
  {
    var last := vs[|vs| - 1];
    if |vs| == 1 then last else
    var m := Min(vs[..|vs| - 1]);
    if Less(last, m) then last else m
  }

  function Max(vs: seq<Number>): Number
    requires vs != []
  {
    var last := vs[|vs| - 1];
    if |vs| == 1 then last else
    var m := Max(vs[..|vs| - 1]);
    if Less(m, last) then last else m
  }

  function Average(vs: seq<Number>): Number
    requires vs != []
  {
    DividedBy(Total(vs), |vs|)
  }

  predicate NoNaN(vs: seq<Number>) {
    forall i :: 0 <= i < |vs| ==> !vs[i].NaN?
  }

  lemma {:induction false} TotalFinite(vs: seq<Number>)
    requires AllFinite(vs)
    ensures Total(vs) == Finite(Sum(vs))
  {
    if vs != [] { TotalFinite(vs[..|vs| - 1]); }
  }

  /** Without NaN and with infinities of one sign at most, a sum is theirs or that of the numbers. */
  lemma {:induction false} TotalIs(vs: seq<Number>)
    ensures Total(vs).NaN? <==> NaN in vs || (Infinite(true) in vs && Infinite(false) in vs)
    ensures Total(vs).Infinite? ==> Total(vs) in vs
    ensures Total(vs).Finite? <==> AllFinite(vs)
  {
    if vs != [] {
      var front, last := vs[..|vs| - 1], vs[|vs| - 1];
      assert vs == front + [last];
      TotalIs(front);
      if AllFinite(front) { TotalFinite(front); }
    }
  }

  /** The average of the numbers; of infinities or NaN, what their sum is. */
  lemma AverageIs(vs: seq<Number>)
    requires vs != []
    ensures Average(vs) == if AllFinite(vs) then Finite(Sum(vs) / |vs| as real) else Total(vs)
  {
    TotalIs(vs);
    if AllFinite(vs) { TotalFinite(vs); }
  }

  /** Comparisons with NaN fail, so a NaN stays only where it comes first. */
  lemma {:induction false} MinWithNaN(vs: seq<Number>)
    requires vs != []
    ensures vs[0].NaN? ==> Min(vs).NaN? && Max(vs).NaN?
    ensures !vs[0].NaN? ==> Min(vs) in vs && Max(vs) in vs
    ensures !vs[0].NaN? ==> forall i :: 0 <= i < |vs| && !vs[i].NaN? ==> AtMost(Min(vs), vs[i]) && AtMost(vs[i], Max(vs))
  {
    if |vs| > 1 {
      var front := vs[..|vs| - 1];
      MinWithNaN(front);
      forall i | 0 <= i < |vs| && !vs[0].NaN? && !vs[i].NaN? ensures AtMost(Min(vs), vs[i]) && AtMost(vs[i], Max(vs)) {
        if i < |front| { assert vs[i] == front[i]; }
      }
    }
  }

  lemma {:induction false} MinBounds(vs: seq<Number>)
    requires vs != [] && NoNaN(vs)
    ensures Min(vs) in vs && forall i :: 0 <= i < |vs| ==> AtMost(Min(vs), vs[i])
  {
    if |vs| > 1 {
      MinBounds(vs[..|vs| - 1]);
      forall i | 0 <= i < |vs| - 1 ensures AtMost(Min(vs[..|vs| - 1]), vs[i]) { assert vs[..|vs| - 1][i] == vs[i]; }
    }
  }

  lemma {:induction false} MaxBounds(vs: seq<Number>)
    requires vs != [] && NoNaN(vs)
    ensures Max(vs) in vs && forall i :: 0 <= i < |vs| ==> AtMost(vs[i], Max(vs))
  {
    if |vs| > 1 {
      MaxBounds(vs[..|vs| - 1]);
      forall i | 0 <= i < |vs| - 1 ensures AtMost(vs[i], Max(vs[..|vs| - 1])) { assert vs[..|vs| - 1][i] == vs[i]; }
    }
  }

  lemma {:induction false} SumConcat(a: seq<Number>, b: seq<Number>)
    ensures Sum(a + b) == Sum(a) + Sum(b)
  {
    if b == [] {
      assert a + b == a;
    } else {
      SumConcat(a, b[..|b| - 1]);
      assert (a + b)[..|a + b| - 1] == a + b[..|b| - 1];
    }
  }

  /** values[from:to], which cuts off at the end of the list. */
  function Slice(vs: seq<Number>, from: nat, to: nat): seq<Number>
    requires from <= to
  {
    vs[if from <= |vs| then from else |vs|..if to <= |vs| then to else |vs|]
  }

  datatype Bucket = Bucket(ts: int, min: Number, max: Number, avg: Number)

  function Summary(ts: int, vs: seq<Number>): Bucket
    requires vs != []
  {
    Bucket(ts, Min(vs), Max(vs), Average(vs))
  }

  function Contents(values: seq<Number>, cuts: seq<nat>, b: nat): seq<Number>
    requires b + 1 < |cuts| && cuts[b] <= cuts[b + 1]
  {
    Slice(values, cuts[b], cuts[b + 1])
  }

  /** The points of the first `k` buckets; a bucket without values gives none. */
  function Summaries(values: seq<Number>, times: seq<int>, cuts: seq<nat>, k: nat): seq<Bucket>
    requires Partitions(cuts, |times|) && k < |cuts|
  {
    if k == 0 then []
    else
      var vs := Contents(values, cuts, k - 1);
      Summaries(values, times, cuts, k - 1) + if vs == [] then [] else [Summary(times[cuts[k - 1]], vs)]
  }

  /** The bucket loop for one channel. */
  method BucketPoints(values: seq<Number>, times: seq<int>, n: nat) returns (points: seq<Bucket>)
    requires 0 < n <= |times|
    ensures Partitions(Cuts(|times|, n), |times|) && points == Summaries(values, times, Cuts(|times|, n), n)
  {
    points := [];
    CutsPartition(|times|, n);
    ghost var cuts := Cuts(|times|, n);
    for b := 0 to n
      invariant points == Summaries(values, times, cuts, b)
    {
      var startIndex := b * |times| / n;
      var endIndex := (b + 1) * |times| / n;
      assert startIndex == cuts[b] && endIndex == cuts[b + 1];
      var bucket := Slice(values, startIndex, endIndex);
      if bucket != [] {
        points := points + [Summary(times[startIndex], bucket)];
      }
    }
  }

  lemma SummaryNext(values: seq<Number>, times: seq<int>, cuts: seq<nat>, k: nat)
    requires Partitions(cuts, |times|) && k + 1 < |cuts|
    ensures cuts[k] < cuts[k + 1] <= |times|
    ensures cuts[k] >= |values| ==> Summaries(values, times, cuts, k + 1) == Summaries(values, times, cuts, k)
    ensures cuts[k] < |values| ==>
              && Contents(values, cuts, k) != []
              && Summaries(values, times, cuts, k + 1)
                 == Summaries(values, times, cuts, k) + [Summary(times[cuts[k]], Contents(values, cuts, k))]
  {
    Apart(cuts, |times|, k, |cuts| - 1);
  }

  lemma {:induction false} SummariesUpTo(values: seq<Number>, times: seq<int>, cuts: seq<nat>, k: nat)
    requires Partitions(cuts, |times|) && k < |cuts|
    ensures |Summaries(values, times, cuts, k)| <= k
    ensures |Summaries(values, times, cuts, k)| == k <==> k == 0 || cuts[k - 1] < |values|
  {
    if k > 0 {
      SummariesUpTo(values, times, cuts, k - 1);
      SummaryNext(values, times, cuts, k - 1);
      if k > 1 { Apart(cuts, |times|, k - 2, k - 1); }
    }
  }

  /** A channel gets a point for every bucket exactly when its values reach the last one. */
  lemma FullEnvelopeIff(values: seq<Number>, times: seq<int>, n: nat)
    requires 0 < n <= |times|
    ensures Partitions(Cuts(|times|, n), |times|)
    ensures |Summaries(values, times, Cuts(|times|, n), n)| == n <==> (n - 1) * |times| / n < |values|
  {
    CutsPartition(|times|, n);
    SummariesUpTo(values, times, Cuts(|times|, n), n);
  }

  lemma SummaryNextFull(values: seq<Number>, times: seq<int>, cuts: seq<nat>, k: nat)
    requires |times| == |values| && Partitions(cuts, |times|) && k + 1 < |cuts|
    ensures cuts[k] < cuts[k + 1] <= |values|
    ensures Summaries(values, times, cuts, k + 1)
         == Summaries(values, times, cuts, k) + [Summary(times[cuts[k]], values[cuts[k]..cuts[k + 1]])]
  {
    SummaryNext(values, times, cuts, k);
    assert Contents(values, cuts, k) == values[cuts[k]..cuts[k + 1]];
  }

  lemma {:induction false} SummariesFull(values: seq<Number>, times: seq<int>, cuts: seq<nat>, k: nat)
    requires |times| == |values| && Partitions(cuts, |times|) && k < |cuts|
    ensures |Summaries(values, times, cuts, k)| == k
  {
    if k > 0 {
      SummariesFull(values, times, cuts, k - 1);
      SummaryNextFull(values, times, cuts, k - 1);
    }
  }

  lemma {:induction false} SummariesPrefix(values: seq<Number>, times: seq<int>, cuts: seq<nat>, j: nat, k: nat)
    requires |times| == |values| && Partitions(cuts, |times|) && j <= k < |cuts|
    ensures Summaries(values, times, cuts, j) <= Summaries(values, times, cuts, k)
    decreases k
  {
    if j < k {
      SummariesPrefix(values, times, cuts, j, k - 1);
      SummaryNextFull(values, times, cuts, k - 1);
    }
  }

  /** With a value for every timestamp, point `b` summarises bucket `b`. */
  lemma SummaryAt(values: seq<Number>, times: seq<int>, cuts: seq<nat>, k: nat, b: nat)
    requires |times| == |values| && Partitions(cuts, |times|) && b < k < |cuts|
    ensures |Summaries(values, times, cuts, k)| == k
    ensures cuts[b] < cuts[b + 1] <= |values|
    ensures Summaries(values, times, cuts, k)[b] == Summary(times[cuts[b]], values[cuts[b]..cuts[b + 1]])
  {
    SummariesFull(values, times, cuts, b);
    SummaryNextFull(values, times, cuts, b);
    SummariesFull(values, times, cuts, k);
    SummariesPrefix(values, times, cuts, b + 1, k);
  }

  /** All of `vs` between a point's minimum and maximum, which are both among them. */
  predicate Encloses(p: Bucket, vs: seq<Number>) {
    p.min in vs && p.max in vs && forall i :: 0 <= i < |vs| ==> AtMost(p.min, vs[i]) && AtMost(vs[i], p.max)
  }

  lemma EnclosesIff(ts: int, vs: seq<Number>)
    requires vs != []
    ensures Encloses(Summary(ts, vs), vs) <==> NoNaN(vs)
  {
    if NoNaN(vs) {
      MinBounds(vs);
      MaxBounds(vs);
    }
  }

  predicate PointEncloses(points: seq<Bucket>, values: seq<Number>, cuts: seq<nat>, b: nat) {
    b < |points| && b + 1 < |cuts| && cuts[b] < cuts[b + 1] <= |values| && Encloses(points[b], values[cuts[b]..cuts[b + 1]])
  }

  /** Each sample lies between the minimum and maximum of its bucket's point, and both are
      samples of that bucket, exactly if none of them is NaN. */
  lemma EnvelopeCovers(values: seq<Number>, times: seq<int>, cuts: seq<nat>, b: nat)
    requires |times| == |values| && Partitions(cuts, |times|) && b < |cuts| - 1
    ensures cuts[b] < cuts[b + 1] <= |values| && |Summaries(values, times, cuts, |cuts| - 1)| == |cuts| - 1
    ensures PointEncloses(Summaries(values, times, cuts, |cuts| - 1), values, cuts, b) <==> NoNaN(values[cuts[b]..cuts[b + 1]])
    ensures Summaries(values, times, cuts, |cuts| - 1)[b].ts == times[cuts[b]]
  {
    SummaryAt(values, times, cuts, |cuts| - 1, b);
    EnclosesIff(times[cuts[b]], values[cuts[b]..cuts[b + 1]]);
  }

  function Weight(p: Bucket, size: int): real {
    RealOf(p.avg) * size as real
  }

  /** Averages weighted by bucket size, over the first `k` points. */
  function Weighted(points: seq<Bucket>, cuts: seq<nat>, k: nat): real
    requires k <= |points| && k < |cuts|
  {
    if k == 0 then 0.0
    else Weighted(points, cuts, k - 1) + Weight(points[k - 1], cuts[k] as int - cuts[k - 1])
  }

  lemma {:induction false} WeightedSums(values: seq<Number>, times: seq<int>, cuts: seq<nat>, points: seq<Bucket>, k: nat)
    requires |times| == |values| && AllFinite(values) && Partitions(cuts, |times|) && k < |cuts|
    requires points == Summaries(values, times, cuts, |cuts| - 1) && |points| == |cuts| - 1
    ensures cuts[k] <= |values| && Weighted(points, cuts, k) == Sum(values[..cuts[k]])
  {
    if k > 0 {
      var lo, hi := cuts[k - 1], cuts[k];
      WeightedSums(values, times, cuts, points, k - 1);
      PointWeight(values, times, cuts, k - 1);
      SumStep(values, lo, hi);
    }
  }

  lemma PointWeight(values: seq<Number>, times: seq<int>, cuts: seq<nat>, b: nat)
    requires |times| == |values| && AllFinite(values) && Partitions(cuts, |times|) && b + 1 < |cuts|
    ensures |Summaries(values, times, cuts, |cuts| - 1)| == |cuts| - 1 && cuts[b] < cuts[b + 1] <= |values|
    ensures Weight(Summaries(values, times, cuts, |cuts| - 1)[b], cuts[b + 1] - cuts[b]) == Sum(values[cuts[b]..cuts[b + 1]])
  {
    SummaryAt(values, times, cuts, |cuts| - 1, b);
    var bucket := values[cuts[b]..cuts[b + 1]];
    SummaryWeight(times[cuts[b]], bucket);
    assert |bucket| == cuts[b + 1] - cuts[b];
  }

  lemma SumStep(values: seq<Number>, lo: nat, hi: nat)
    requires lo <= hi <= |values|
    ensures Sum(values[..hi]) == Sum(values[..lo]) + Sum(values[lo..hi])
  {
    SumConcat(values[..lo], values[lo..hi]);
    assert values[..lo] + values[lo..hi] == values[..hi];
  }

  lemma SummaryWeight(ts: int, vs: seq<Number>)
    requires vs != [] && AllFinite(vs)
    ensures Weight(Summary(ts, vs), |vs|) == Sum(vs)
  {
    TotalFinite(vs);
    Quotient(Sum(vs), |vs| as real);
  }

  lemma Quotient(x: real, y: real)
    requires y != 0.0
    ensures x / y * y == x
  {}

  /** Size-weighted, the averages of finite samples add up to the sum of them all. */
  lemma AveragesConserve(values: seq<Number>, times: seq<int>, cuts: seq<nat>)
    requires |times| == |values| && AllFinite(values) && Partitions(cuts, |times|)
    ensures |Summaries(values, times, cuts, |cuts| - 1)| == |cuts| - 1
    ensures Weighted(Summaries(values, times, cuts, |cuts| - 1), cuts, |cuts| - 1) == Sum(values)
  {
    SummaryAt(values, times, cuts, |cuts| - 1, 0);
    WeightedSums(values, times, cuts, Summaries(values, times, cuts, |cuts| - 1), |cuts| - 1);
    assert values[..|values|] == values;
  }
}
