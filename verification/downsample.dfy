/** `downsampleByLTTB` of next/src/lib/downsample.ts: the largest-triangle-three-buckets
    reduction of a chart series to `nDownSampled` points.

    The interior of the series (every point but the first and the last) is cut into
    `n - 2` buckets. Bucket `i` starts at `floor((i + 1) * bs)` and ends (exclusive) at
    `min(floor((i + 2) * bs) + 1, len - 1)`, with `bs = (len - 2) / (n - 2)`; with
    integers `floor(k * bs)` is `(k * (len - 2)) / (n - 2)`. From each bucket the point
    that spans the largest triangle with the previously chosen point (the anchor) and
    the average of the bucket itself is chosen. Coordinates are `Option<real>`: `None`
    is the `null` an accessor may return. */
module Downsample {
  import opened Wrappers

  /** `a * b`, counted out by repeated addition, and `x / d`, counted out by repeated
      subtraction: the bucket bounds are stated with these two so that only the lemmas
      that need them see the products and quotients as arithmetic. */
  function Product(a: nat, b: nat): nat {
    if a == 0 then 0 else Product(a - 1, b) + b
  }

  function Quotient(x: nat, d: nat): nat
    requires d > 0
    decreases x
  {
    if x < d then 0 else Quotient(x - d, d) + 1
  }

  /** Start of bucket `i`: `floor((i + 1) * (len - 2) / (n - 2))`. */
  function BucketStart(len: nat, n: int, i: nat): nat
    requires 2 < n && 2 <= len
  {
    Quotient(Product(i + 1, len - 2), n - 2)
  }

  /** End (exclusive) of bucket `i`: `min(floor((i + 2) * (len - 2) / (n - 2)) + 1, len - 1)`. */
  function BucketEnd(len: nat, n: int, i: nat): nat
    requires 2 < n && 2 <= len
  {
    var e := Quotient(Product(i + 2, len - 2), n - 2) + 1;
    if e < len - 1 then e else len - 1
  }

  lemma {:induction false} ProductIsMul(a: nat, b: nat)
    ensures Product(a, b) == a * b
  {
    if a > 0 {
      ProductIsMul(a - 1, b);
      assert (a - 1) * b + b == a * b;
    }
  }

  lemma {:induction false} QuotientIsDiv(x: nat, d: nat)
    requires d > 0
    ensures Quotient(x, d) == x / d
    decreases x
  {
    if x >= d {
      QuotientIsDiv(x - d, d);
      var q := (x - d) / d;
      var r := (x - d) % d;
      assert x == d * (q + 1) + r;
      DivUnique(x, d, q + 1, r);
    }
  }

  /** The bounds as `downsampleByLTTB` computes them. */
  lemma BucketArithmetic(len: nat, n: int, i: nat)
    requires 2 < n && 2 <= len
    ensures BucketStart(len, n, i) == ((i + 1) * (len - 2)) / (n - 2)
    ensures BucketEnd(len, n, i)
            == if ((i + 2) * (len - 2)) / (n - 2) + 1 < len - 1 then ((i + 2) * (len - 2)) / (n - 2) + 1 else len - 1
  {
    ProductIsMul(i + 1, len - 2);
    ProductIsMul(i + 2, len - 2);
    QuotientIsDiv(Product(i + 1, len - 2), n - 2);
    QuotientIsDiv(Product(i + 2, len - 2), n - 2);
  }

  lemma MulLe(a: int, b: int, c: int)
    requires 0 <= a <= b && 0 <= c
    ensures a * c <= b * c
  {
  }

  lemma MulBetween(t: int, d: int)
    requires 0 < d && 0 <= d * t < d
    ensures t == 0
  {
    if t >= 1 {
      MulLe(1, t, d);
    } else if t <= -1 {
      MulLe(1, -t, d);
    }
  }

  /** The quotient and remainder are unique. */
  lemma DivUnique(x: int, d: int, q: int, r: int)
    requires 0 < d && 0 <= r < d && x == d * q + r
    ensures x / d == q
  {
    var q' := x / d;
    var r' := x % d;
    assert d * q' + r' == x;
    if r' >= r {
      assert d * (q - q') == r' - r by { assert d * (q - q') == d * q - d * q'; }
      MulBetween(q - q', d);
    } else {
      assert d * (q' - q) == r - r' by { assert d * (q' - q) == d * q' - d * q; }
      MulBetween(q' - q, d);
    }
  }

  lemma MulDiv(a: int, d: int)
    requires 0 < d
    ensures (a * d) / d == a
  {
    DivUnique(a * d, d, a, 0);
  }

  lemma DivLe(x: int, y: int, d: int)
    requires 0 <= x <= y && 0 < d
    ensures x / d <= y / d
  {
    var qx := x / d;
    var qy := y / d;
    assert d * qx + x % d == x;
    assert d * qy + y % d == y;
    assert d * (qx - qy) < d by { assert d * (qx - qy) == d * qx - d * qy; }
    if qx - qy >= 1 {
      MulLe(1, qx - qy, d);
    }
  }

  /** `floor(k * m / d) >= k` when `d <= m`. */
  lemma ScaledAtLeast(k: int, m: int, d: int)
    requires 0 < d <= m && 0 <= k
    ensures (k * m) / d >= k
  {
    MulLe(d, m, k);
    assert d * k == k * d;
    DivLe(k * d, k * m, d);
    MulDiv(k, d);
  }

  /** `floor(k * m / d) <= m` when `k <= d`. */
  lemma ScaledAtMost(k: int, m: int, d: int)
    requires 0 < d && 0 <= k <= d && 0 <= m
    ensures (k * m) / d <= m
  {
    MulLe(k, d, m);
    DivLe(k * m, d * m, d);
    assert d * m == m * d;
    MulDiv(m, d);
  }

  /** `floor(k * m / d) <= floor((k + 1) * m / d)`. */
  lemma ScaledStep(k: int, m: int, d: int)
    requires 0 < d && 0 <= k && 0 <= m
    ensures (k * m) / d <= ((k + 1) * m) / d
  {
    MulLe(k, k + 1, m);
    DivLe(k * m, (k + 1) * m, d);
  }

  /** When downsampling, every bucket is non-empty and lies within the interior
      `[1, len - 2]` of the series. */
  lemma BucketBounds(len: nat, n: int, i: nat)
    requires 3 <= n < len
    requires i < n - 2
    ensures 1 <= BucketStart(len, n, i) < BucketEnd(len, n, i) <= len - 1
  {
    BucketArithmetic(len, n, i);
    ScaledAtLeast(i + 1, len - 2, n - 2);
    ScaledAtMost(i + 1, len - 2, n - 2);
    ScaledStep(i + 1, len - 2, n - 2);
  }

  /** Consecutive buckets share at most their boundary point: the last index of bucket
      `i` is at most the first index of bucket `i + 1`. */
  lemma BucketsInOrder(len: nat, n: int, i: nat)
    requires 3 <= n < len
    requires i + 1 < n - 2
    ensures BucketEnd(len, n, i) - 1 <= BucketStart(len, n, i + 1)
  {
  }

  /** The `reduce` that sums one coordinate over the first `m` points of a bucket,
      a `null` coordinate adding 0. */
  function CoordSum<T>(bucket: seq<T>, coord: T -> Option<real>, m: nat): real
    requires m <= |bucket|
  {
    if m == 0 then 0.0 else CoordSum(bucket, coord, m - 1) + coord(bucket[m - 1]).GetOr(0.0)
  }

  /** The average of one coordinate over a bucket. */
  function Mean<T>(bucket: seq<T>, coord: T -> Option<real>): real
    requires |bucket| > 0
  {
    CoordSum(bucket, coord, |bucket|) / (|bucket| as real)
  }

  /** The sum lies between `m` times the least and `m` times the greatest value, a
      `null` coordinate counting as 0. */
  lemma {:induction false} CoordSumBounds<T>(bucket: seq<T>, coord: T -> Option<real>, m: nat, lo: real, hi: real)
    requires m <= |bucket|
    requires forall k :: 0 <= k < |bucket| ==> lo <= coord(bucket[k]).GetOr(0.0) <= hi
    ensures (m as real) * lo <= CoordSum(bucket, coord, m) <= (m as real) * hi
  {
    if m > 0 {
      CoordSumBounds(bucket, coord, m - 1, lo, hi);
    }
  }

  /** The centroid coordinate lies between the least and the greatest value of the
      bucket, with `null` counted as 0. */
  lemma MeanBounds<T>(bucket: seq<T>, coord: T -> Option<real>, lo: real, hi: real)
    requires |bucket| > 0
    requires forall k :: 0 <= k < |bucket| ==> lo <= coord(bucket[k]).GetOr(0.0) <= hi
    ensures lo <= Mean(bucket, coord) <= hi
  {
    var c := |bucket| as real;
    CoordSumBounds(bucket, coord, |bucket|, lo, hi);
    assert c * lo <= CoordSum(bucket, coord, |bucket|) <= c * hi;
  }

  function Abs(x: real): real {
    if x < 0.0 then -x else x
  }

  /** A candidate is considered only when its coordinates and the anchor's are all
      present. */
  predicate Candidate<T>(anchor: T, p: T, xp: T -> Option<real>, yp: T -> Option<real>) {
    xp(anchor).Some? && xp(p).Some? && yp(anchor).Some? && yp(p).Some?
  }

  /** Twice the area of the triangle `(x0, y0)`, `(x1, y1)`, `(x2, y2)`. */
  function TwiceTriangle(x0: real, y0: real, x1: real, y1: real, x2: real, y2: real): real {
    Abs((x1 - x0) * (y2 - y0) - (x2 - x0) * (y1 - y0))
  }

  /** The area compared for a candidate: the triangle spanned by the anchor, the
      candidate and the centroid `(x2, y2)`, without the factor 0.5. */
  function Area<T>(anchor: T, p: T, x2: real, y2: real, xp: T -> Option<real>, yp: T -> Option<real>): (a: real)
    requires Candidate(anchor, p, xp, yp)
    ensures a >= 0.0
  {
    var x0 := xp(anchor).value;
    var y0 := yp(anchor).value;
    var x1 := xp(p).value;
    var y1 := yp(p).value;
    TwiceTriangle(x0, y0, x1, y1, x2, y2)
  }

  /** `(maxArea, offset of nextPointIndex)` after the inner loop has looked at the first
      `m` points of the bucket. */
  function Best<T>(bucket: seq<T>, anchor: T, x2: real, y2: real, xp: T -> Option<real>, yp: T -> Option<real>, m: nat): (r: (real, nat))
    requires m <= |bucket|
    ensures r.1 == 0 || r.1 < m
  {
    if m == 0 then (-1.0, 0)
    else
      var prev := Best(bucket, anchor, x2, y2, xp, yp, m - 1);
      var p := bucket[m - 1];
      if !Candidate(anchor, p, xp, yp) then prev
      else
        var a := Area(anchor, p, x2, y2, xp, yp);
        if a > prev.0 then (a, m - 1) else prev
  }

  /** The inner loop keeps the first candidate of largest area: with no candidate at
      all it keeps the bucket's start; otherwise it picks a candidate whose area no
      other candidate exceeds and that every earlier candidate falls short of. */
  lemma {:induction false} BestIsFirstLargest<T>(bucket: seq<T>, anchor: T, x2: real, y2: real, xp: T -> Option<real>, yp: T -> Option<real>, m: nat)
    requires m <= |bucket|
    ensures var r := Best(bucket, anchor, x2, y2, xp, yp, m);
      && ((forall j :: 0 <= j < m ==> !Candidate(anchor, bucket[j], xp, yp)) ==> r == (-1.0, 0))
      && ((exists j :: 0 <= j < m && Candidate(anchor, bucket[j], xp, yp)) ==>
            && r.1 < m
            && Candidate(anchor, bucket[r.1], xp, yp)
            && r.0 == Area(anchor, bucket[r.1], x2, y2, xp, yp)
            && (forall j :: 0 <= j < m && Candidate(anchor, bucket[j], xp, yp) ==>
                  Area(anchor, bucket[j], x2, y2, xp, yp) <= r.0)
            && (forall j :: 0 <= j < r.1 && Candidate(anchor, bucket[j], xp, yp) ==>
                  Area(anchor, bucket[j], x2, y2, xp, yp) < r.0))
  {
    if m > 0 {
      BestIsFirstLargest(bucket, anchor, x2, y2, xp, yp, m - 1);
      var prev := Best(bucket, anchor, x2, y2, xp, yp, m - 1);
      if !Candidate(anchor, bucket[m - 1], xp, yp) {
        if exists j :: 0 <= j < m && Candidate(anchor, bucket[j], xp, yp) {
          var j :| 0 <= j < m && Candidate(anchor, bucket[j], xp, yp);
          assert j < m - 1;
        }
      } else if !(exists j :: 0 <= j < m - 1 && Candidate(anchor, bucket[j], xp, yp)) {
        assert prev.0 == -1.0;
      }
    }
  }

  /** The bucket chosen from for interval `i`. */
  function Bucket<T>(data: seq<T>, n: int, i: nat): (b: seq<T>)
    requires 3 <= n < |data|
    requires i < n - 2
    ensures |b| > 0
  {
    BucketBounds(|data|, n, i);
    data[BucketStart(|data|, n, i)..BucketEnd(|data|, n, i)]
  }

  /** The index chosen from bucket `i` when the previous choice was `last`. */
  function Choose<T>(data: seq<T>, n: int, xp: T -> Option<real>, yp: T -> Option<real>, i: nat, last: nat): (p: nat)
    requires 3 <= n < |data|
    requires i < n - 2
    requires last < |data|
    ensures 1 <= p <= |data| - 2
  {
    BucketBounds(|data|, n, i);
    var bucket := Bucket(data, n, i);
    var best := Best(bucket, data[last], Mean(bucket, xp), Mean(bucket, yp), xp, yp, |bucket|);
    BucketStart(|data|, n, i) + best.1
  }

  /** The index chosen from bucket `i` in a run: bucket 0 is anchored at the first
      point, every later bucket at the previous bucket's choice. */
  function Pick<T>(data: seq<T>, n: int, xp: T -> Option<real>, yp: T -> Option<real>, i: nat): (p: nat)
    requires 3 <= n < |data|
    requires i < n - 2
    ensures 1 <= p <= |data| - 2
  {
    Choose(data, n, xp, yp, i, if i == 0 then 0 else Pick(data, n, xp, yp, i - 1))
  }

  /** The indices chosen from the first `k` buckets. */
  function Picks<T>(data: seq<T>, n: int, xp: T -> Option<real>, yp: T -> Option<real>, k: nat): (r: seq<nat>)
    requires 3 <= n < |data|
    requires k <= n - 2
  {
    seq(k, i requires 0 <= i < k => Pick(data, n, xp, yp, i))
  }

  /** Each bucket's choice lies inside that bucket, whatever the anchor. */
  lemma ChooseInBucket<T>(data: seq<T>, n: int, xp: T -> Option<real>, yp: T -> Option<real>, i: nat, last: nat)
    requires 3 <= n < |data|
    requires i < n - 2
    requires last < |data|
    ensures BucketStart(|data|, n, i) <= Choose(data, n, xp, yp, i, last) < BucketEnd(|data|, n, i)
  {
    BucketBounds(|data|, n, i);
  }

  /** The `i`-th choice of a run lies inside bucket `i`. */
  lemma PickInBucket<T>(data: seq<T>, n: int, xp: T -> Option<real>, yp: T -> Option<real>, i: nat)
    requires 3 <= n < |data|
    requires i < n - 2
    ensures BucketStart(|data|, n, i) <= Pick(data, n, xp, yp, i) < BucketEnd(|data|, n, i)
  {
    ChooseInBucket(data, n, xp, yp, i, if i == 0 then 0 else Pick(data, n, xp, yp, i - 1));
  }

  /** The indices of the sampled points: the first, one per bucket, the last. */
  function Indices<T>(data: seq<T>, n: int, xp: T -> Option<real>, yp: T -> Option<real>): (r: seq<nat>)
    requires 3 <= n < |data|
  {
    seq(n, k requires 0 <= k < n => if k == 0 then 0 else if k == n - 1 then |data| - 1 else Pick(data, n, xp, yp, k - 1))
  }

  /** The points at the given indices, in order. */
  function Points<T>(data: seq<T>, idx: seq<nat>): (r: seq<T>)
    requires forall k :: 0 <= k < |idx| ==> idx[k] < |data|
  {
    seq(|idx|, k requires 0 <= k < |idx| => data[idx[k]])
  }

  /** What `downsampleByLTTB(data, n, xp, yp)` returns. */
  function Lttb<T>(data: seq<T>, n: int, xp: T -> Option<real>, yp: T -> Option<real>): seq<T> {
    if n >= |data| || n < 3 then data
    else
      Points(data, Indices(data, n, xp, yp))
  }

  /** The chosen indices run from 0 to `len - 1` with one index per bucket in between,
      and never decrease, so the sample keeps the series' chronological order. */
  lemma IndicesShape<T>(data: seq<T>, n: int, xp: T -> Option<real>, yp: T -> Option<real>)
    requires 3 <= n < |data|
    ensures var idx := Indices(data, n, xp, yp);
      && |idx| == n
      && idx[0] == 0
      && idx[n - 1] == |data| - 1
      && (forall k :: 0 < k < n - 1 ==> 1 <= idx[k] <= |data| - 2)
      && (forall a, b :: 0 <= a <= b < n ==> idx[a] <= idx[b])
  {
    var idx := Indices(data, n, xp, yp);
    forall k | 0 <= k < n - 1
      ensures idx[k] <= idx[k + 1]
    {
      IndicesStep(data, n, xp, yp, k);
    }
    SortedFromSteps(idx);
  }

  /** Each interior index lies inside its own bucket. */
  lemma IndicesInBuckets<T>(data: seq<T>, n: int, xp: T -> Option<real>, yp: T -> Option<real>)
    requires 3 <= n < |data|
    ensures var idx := Indices(data, n, xp, yp);
      forall k :: 0 < k < n - 1 ==> BucketStart(|data|, n, k - 1) <= idx[k] < BucketEnd(|data|, n, k - 1)
  {
    var idx := Indices(data, n, xp, yp);
    forall k | 0 < k < n - 1
      ensures BucketStart(|data|, n, k - 1) <= idx[k] < BucketEnd(|data|, n, k - 1)
    {
      PickInBucket(data, n, xp, yp, k - 1);
    }
  }

  /** Consecutive choices are ordered. */
  lemma PicksInOrder<T>(data: seq<T>, n: int, xp: T -> Option<real>, yp: T -> Option<real>, k: nat)
    requires 3 <= n < |data|
    requires 0 < k < n - 2
    ensures Pick(data, n, xp, yp, k - 1) <= Pick(data, n, xp, yp, k)
  {
    PickInBucket(data, n, xp, yp, k - 1);
    PickInBucket(data, n, xp, yp, k);
    BucketsInOrder(|data|, n, k - 1);
  }

  /** A point of bucket `i` comes no later than a point of the next bucket `j`. */
  lemma InOrderAcrossBuckets(len: nat, n: int, i: nat, j: nat, a: int, b: int)
    requires 3 <= n < len
    requires j == i + 1 < n - 2
    requires a < BucketEnd(len, n, i)
    requires BucketStart(len, n, j) <= b
    ensures a <= b
  {
    BucketsInOrder(len, n, i);
  }

  /** Neighbouring indices are ordered: the first point comes before bucket 0, each
      bucket's last point is at most the next bucket's first, and the last point comes
      after the last bucket. */
  lemma IndicesStep<T>(data: seq<T>, n: int, xp: T -> Option<real>, yp: T -> Option<real>, k: nat)
    requires 3 <= n < |data|
    requires k < n - 1
    ensures var idx := Indices(data, n, xp, yp);
      idx[k] <= idx[k + 1]
  {
    if 0 < k < n - 2 {
      PicksInOrder(data, n, xp, yp, k);
    }
  }

  /** A sequence whose neighbours are ordered is sorted. */
  lemma SortedFromSteps(s: seq<nat>)
    requires forall k :: 0 <= k < |s| - 1 ==> s[k] <= s[k + 1]
    ensures forall a, b :: 0 <= a <= b < |s| ==> s[a] <= s[b]
  {
    forall a, b | 0 <= a <= b < |s|
      ensures s[a] <= s[b]
    {
      var c := a;
      while c < b
        invariant a <= c <= b
        invariant s[a] <= s[c]
      {
        c := c + 1;
      }
    }
  }

  /** Downsampling is not needed when the series already has at most `n` points, or
      when `n < 3`: the series comes back unchanged. Otherwise the result has exactly
      `n` points, each a point of the series (the first first, the last last). */
  lemma LttbShape<T>(data: seq<T>, n: int, xp: T -> Option<real>, yp: T -> Option<real>)
    ensures var r := Lttb(data, n, xp, yp);
      && (n >= |data| || n < 3 ==> r == data)
      && (3 <= n < |data| ==>
            && |r| == n
            && r[0] == data[0]
            && r[n - 1] == data[|data| - 1]
            && forall k :: 0 <= k < n ==> r[k] in data)
  {
    if 3 <= n < |data| {
      IndicesShape(data, n, xp, yp);
    }
  }

  /** The point chosen from bucket `i` is, among the bucket's candidates, the first of
      largest triangle area with the previous choice and the bucket's centroid; when no
      point of the bucket is a candidate, it is the bucket's first point. Positions are
      offsets `o` from the bucket's start. */
  lemma ChooseIsFirstLargest<T>(data: seq<T>, n: int, xp: T -> Option<real>, yp: T -> Option<real>, i: nat, last: nat)
    requires 3 <= n < |data|
    requires i < n - 2
    requires last < |data|
    ensures var b := Bucket(data, n, i);
      var anchor := data[last];
      var x2 := Mean(b, xp);
      var y2 := Mean(b, yp);
      var o := Choose(data, n, xp, yp, i, last) - BucketStart(|data|, n, i);
      && 0 <= o < |b|
      && ((forall j :: 0 <= j < |b| ==> !Candidate(anchor, b[j], xp, yp)) ==> o == 0)
      && ((exists j :: 0 <= j < |b| && Candidate(anchor, b[j], xp, yp)) ==>
            && Candidate(anchor, b[o], xp, yp)
            && (forall j :: 0 <= j < |b| && Candidate(anchor, b[j], xp, yp) ==>
                  Area(anchor, b[j], x2, y2, xp, yp) <= Area(anchor, b[o], x2, y2, xp, yp))
            && (forall j :: 0 <= j < o && Candidate(anchor, b[j], xp, yp) ==>
                  Area(anchor, b[j], x2, y2, xp, yp) < Area(anchor, b[o], x2, y2, xp, yp)))
  {
    var b := Bucket(data, n, i);
    BestIsFirstLargest(b, data[last], Mean(b, xp), Mean(b, yp), xp, yp, |b|);
  }

  /** `downsampleByLTTB`: `sampled` starts with the first point, gains the chosen point
      of each bucket, then the last point. */
  method DownsampleByLTTB<T>(data: seq<T>, nDownSampled: int, xp: T -> Option<real>, yp: T -> Option<real>)
    returns (sampled: seq<T>)
    ensures sampled == Lttb(data, nDownSampled, xp, yp)
  {
    if nDownSampled >= |data| || nDownSampled < 3 {
      return data;
    }
    var n := nDownSampled;
    sampled := [data[0]];
    var lastIndex := 0;
    for i := 0 to n - 2
      invariant sampled == [data[0]] + Points(data, Picks(data, n, xp, yp, i))
      invariant lastIndex == if i == 0 then 0 else Pick(data, n, xp, yp, i - 1)
      invariant lastIndex < |data|
    {
      var nextPointIndex := ChooseFromBucket(data, n, i, lastIndex, xp, yp);
      SampledStep(data, n, xp, yp, i, sampled, lastIndex, nextPointIndex);
      sampled := sampled + [data[nextPointIndex]];
      lastIndex := nextPointIndex;
    }
    SampledDone(data, n, xp, yp, sampled);
    sampled := sampled + [data[|data| - 1]];
  }

  /** The outer loop's invariant after one more bucket. */
  lemma SampledStep<T>(data: seq<T>, n: int, xp: T -> Option<real>, yp: T -> Option<real>, i: nat,
                       sampled: seq<T>, lastIndex: nat, next: nat)
    requires 3 <= n < |data|
    requires i < n - 2
    requires sampled == [data[0]] + Points(data, Picks(data, n, xp, yp, i))
    requires lastIndex == if i == 0 then 0 else Pick(data, n, xp, yp, i - 1)
    requires next == Choose(data, n, xp, yp, i, lastIndex)
    ensures next < |data|
    ensures sampled + [data[next]] == [data[0]] + Points(data, Picks(data, n, xp, yp, i + 1))
    ensures next == Pick(data, n, xp, yp, i)
  {
    PicksAppend(data, n, xp, yp, i);
    PointsAppend(data, Picks(data, n, xp, yp, i), next);
  }

  /** One more bucket adds its choice to the chosen indices. */
  lemma PicksAppend<T>(data: seq<T>, n: int, xp: T -> Option<real>, yp: T -> Option<real>, i: nat)
    requires 3 <= n < |data|
    requires i < n - 2
    ensures Picks(data, n, xp, yp, i + 1) == Picks(data, n, xp, yp, i) + [Pick(data, n, xp, yp, i)]
  {
  }

  /** Adding the last point after the loop gives the sample. */
  lemma SampledDone<T>(data: seq<T>, n: int, xp: T -> Option<real>, yp: T -> Option<real>, sampled: seq<T>)
    requires 3 <= n < |data|
    requires sampled == [data[0]] + Points(data, Picks(data, n, xp, yp, n - 2))
    ensures sampled + [data[|data| - 1]] == Lttb(data, n, xp, yp)
  {
    var picks := Picks(data, n, xp, yp, n - 2);
    assert Indices(data, n, xp, yp) == [0] + picks + [|data| - 1];
    PointsFrame(data, picks);
  }

  /** One pass of the outer loop: the bucket's bounds and centroid, then the inner loop
      over the bucket, which keeps the first candidate of largest area. */
  method ChooseFromBucket<T>(data: seq<T>, n: int, i: nat, lastIndex: nat, xp: T -> Option<real>, yp: T -> Option<real>)
    returns (nextPointIndex: nat)
    requires 3 <= n < |data|
    requires i < n - 2
    requires lastIndex < |data|
    ensures nextPointIndex == Choose(data, n, xp, yp, i, lastIndex)
  {
    BucketBounds(|data|, n, i);
    BucketArithmetic(|data|, n, i);
    var bucketStart := ((i + 1) * (|data| - 2)) / (n - 2);
    var bucketEnd := ((i + 2) * (|data| - 2)) / (n - 2) + 1;
    if bucketEnd > |data| - 1 {
      bucketEnd := |data| - 1;
    }
    var bucket := data[bucketStart..bucketEnd];
    assert bucket == Bucket(data, n, i);
    var maxArea := -1.0;
    nextPointIndex := bucketStart;
    var x2 := CoordSum(bucket, xp, |bucket|) / (|bucket| as real);
    var y2 := CoordSum(bucket, yp, |bucket|) / (|bucket| as real);
    ghost var anchor := data[lastIndex];
    for j := 0 to |bucket|
      invariant maxArea == Best(bucket, anchor, x2, y2, xp, yp, j).0
      invariant nextPointIndex == bucketStart + Best(bucket, anchor, x2, y2, xp, yp, j).1
    {
      ghost var next := Best(bucket, anchor, x2, y2, xp, yp, j + 1);
      var x0 := xp(data[lastIndex]);
      var x1 := xp(bucket[j]);
      var y0 := yp(data[lastIndex]);
      var y1 := yp(bucket[j]);
      if x0.None? || x1.None? || y0.None? || y1.None? {
        assert next == Best(bucket, anchor, x2, y2, xp, yp, j);
        continue;
      }
      var area := TwiceTriangle(x0.value, y0.value, x1.value, y1.value, x2, y2);
      assert area == Area(anchor, bucket[j], x2, y2, xp, yp);
      if area > maxArea {
        maxArea := area;
        nextPointIndex := bucketStart + j;
      }
    }
  }

  lemma PointsAppend<T>(data: seq<T>, idx: seq<nat>, p: nat)
    requires forall k :: 0 <= k < |idx| ==> idx[k] < |data|
    requires p < |data|
    ensures Points(data, idx + [p]) == Points(data, idx) + [data[p]]
  {
  }

  /** Adding the first and the last index around the chosen ones adds the first and
      the last point around the chosen points. */
  lemma PointsFrame<T>(data: seq<T>, picks: seq<nat>)
    requires |data| > 0
    requires forall k :: 0 <= k < |picks| ==> picks[k] < |data|
    ensures Points(data, [0] + picks + [|data| - 1]) == [data[0]] + Points(data, picks) + [data[|data| - 1]]
  {
  }
}
