/** Ramer-Douglas-Peucker simplification of one segment's points: the
    farthest interior point from the chord between the first and last point
    splits the range when it lies beyond the tolerance; otherwise only the
    two ends are kept. */
module Rdp {
  import opened Seqs
  import opened GpxModel

  /** `max(0.0, min(1.0, x))`. */
  function Clamp01(x: real): (r: real)
    ensures 0.0 <= r <= 1.0
    ensures 0.0 <= x <= 1.0 ==> r == x
    ensures x < 0.0 ==> r == 0.0
    ensures x > 1.0 ==> r == 1.0
  {
    var upper := if x < 1.0 then x else 1.0;
    if upper > 0.0 then upper else 0.0
  }

  /** `perpendicularDistanceSquared`: the squared haversine distance from the
      point to its projection on the chord (projection factor clamped to the
      chord), plus the squared coordinate offsets; for a degenerate chord the
      squared distance to its start. */
  function PerpendicularDistanceSquared(dist: Distance, point: Point, lineStart: Point, lineEnd: Point): (r: real)
    ensures r >= 0.0
    ensures lineStart.latitude == lineEnd.latitude && lineStart.longitude == lineEnd.longitude ==>
      r == DistanceSquared(dist, point, lineStart)
  {
    if lineStart.latitude == lineEnd.latitude && lineStart.longitude == lineEnd.longitude then
      DistanceSquared(dist, point, lineStart)
    else
      var lineLat := lineEnd.latitude - lineStart.latitude;
      var lineLon := lineEnd.longitude - lineStart.longitude;
      var lineLengthSquared := lineLat * lineLat + lineLon * lineLon;
      if lineLengthSquared == 0.0 then DistanceSquared(dist, point, lineStart)
      else
        var factor := Clamp01(((point.latitude - lineStart.latitude) * lineLat
          + (point.longitude - lineStart.longitude) * lineLon) / lineLengthSquared);
        var projectionLat := lineStart.latitude + factor * lineLat;
        var projectionLon := lineStart.longitude + factor * lineLon;
        var dLat := projectionLat - point.latitude;
        var dLon := projectionLon - point.longitude;
        ApproxSquared(dist, point.latitude, point.longitude, projectionLat, projectionLon)
          + dLat * dLat + dLon * dLon
  }

  /** The distance of a point from the chord between two others; the
      engine uses `ChordMeasure` below. */
  type Measure<!T> = (T, T, T) -> real

  function ChordMeasure(dist: Distance): (m: Measure<Point>)
    ensures forall p, a, b :: m(p, a, b) == PerpendicularDistanceSquared(dist, p, a, b)
  {
    (p, a, b) => PerpendicularDistanceSquared(dist, p, a, b)
  }

  /** The distance of every point from the chord between the first and last. */
  function ChordDistances<T>(measure: Measure<T>, points: seq<T>): (ds: seq<real>)
    requires |points| > 0
    ensures |ds| == |points|
    ensures forall i :: 0 <= i < |points| ==> ds[i] == measure(points[i], points[0], points[|points| - 1])
  {
    DistancesTo(measure, points, |points|)
  }

  /** The first `n` of those distances. */
  function DistancesTo<T>(measure: Measure<T>, points: seq<T>, n: nat): (ds: seq<real>)
    requires 0 < |points| && n <= |points|
    ensures |ds| == n
    ensures forall i :: 0 <= i < n ==> ds[i] == measure(points[i], points[0], points[|points| - 1])
  {
    if n == 0 then [] else DistancesTo(measure, points, n - 1) + [measure(points[n - 1], points[0], points[|points| - 1])]
  }

  /** The index and value the scan holds after the interior indices
      `1 .. n - 1`, starting from index 0 and maximum 0 and taking a new
      index only on a strictly greater distance. */
  function Scan(ds: seq<real>, n: nat): (r: (nat, real))
    requires 1 <= n <= |ds|
    ensures r.0 < n && r.1 >= 0.0
    ensures r.0 == 0 ==> r.1 == 0.0
    ensures r.0 > 0 ==> r.1 == ds[r.0]
  {
    if n == 1 then (0, 0.0)
    else
      var prev := Scan(ds, n - 1);
      if ds[n - 1] > prev.1 then (n - 1, ds[n - 1]) else prev
  }

  /** The scan ends on the first index attaining the maximum distance, or on
      0 with maximum 0 when no distance is positive. */
  lemma {:induction false} ScanFindsFirstMaximum(ds: seq<real>, n: nat)
    requires 1 <= n <= |ds|
    ensures var r := Scan(ds, n);
      && (forall j :: 1 <= j < n ==> ds[j] <= r.1)
      && (forall j :: 1 <= j < r.0 ==> ds[j] < r.1)
      && (r.0 > 0 <==> exists j :: 1 <= j < n && ds[j] > 0.0)
  {
    if n > 1 {
      ScanFindsFirstMaximum(ds, n - 1);
      var prev := Scan(ds, n - 1);
      if ds[n - 1] > prev.1 {
        assert ds[n - 1] > 0.0;
      } else if prev.0 == 0 {
        assert forall j :: 1 <= j < n ==> ds[j] <= 0.0;
      }
    }
  }

  /** The split index and the maximal distance of a range of at least two points. */
  function Farthest<T>(measure: Measure<T>, points: seq<T>): (r: (nat, real))
    requires |points| >= 2
    ensures r.0 <= |points| - 2
  {
    Scan(ChordDistances(measure, points), |points| - 1)
  }

  /** The loop of the recursive helper: scans the interior points for the
      first one farthest from the chord. */
  method FindFarthest<T>(measure: Measure<T>, points: seq<T>) returns (index: nat, maxDistance: real)
    requires |points| >= 2
    ensures index == Farthest(measure, points).0 && maxDistance == Farthest(measure, points).1
  {
    var first, last := points[0], points[|points| - 1];
    ghost var ds := ChordDistances(measure, points);
    index, maxDistance := 0, 0.0;
    for i := 1 to |points| - 1
      invariant index == Scan(ds, i).0 && maxDistance == Scan(ds, i).1
    {
      var distance := measure(points[i], first, last);
      assert distance == ds[i];
      if distance > maxDistance {
        index := i;
        maxDistance := distance;
      }
    }
  }

  /** What the recursive helper appends for a range of at least two points. */
  function Simplified<T>(measure: Measure<T>, points: seq<T>, epsilonSquared: real): (r: seq<T>)
    requires |points| >= 2 && epsilonSquared >= 0.0
    ensures 2 <= |r| <= |points|
    ensures r[0] == points[0] && r[|r| - 1] == points[|points| - 1]
    decreases |points|
  {
    var split := Farthest(measure, points);
    if split.1 > epsilonSquared then
      var left := Simplified(measure, points[..split.0 + 1], epsilonSquared);
      left[..|left| - 1] + Simplified(measure, points[split.0..], epsilonSquared)
    else
      [points[0], points[|points| - 1]]
  }

  /** A range split at the farthest point simplifies to its left half
      without the pivot, then its right half. */
  lemma SimplifiedSplit<T>(measure: Measure<T>, points: seq<T>, epsilonSquared: real, index: nat)
    requires |points| >= 2 && epsilonSquared >= 0.0
    requires Farthest(measure, points).1 > epsilonSquared && index == Farthest(measure, points).0
    ensures 0 < index < |points| - 1
    ensures Simplified(measure, points, epsilonSquared) ==
      Simplified(measure, points[..index + 1], epsilonSquared)[..|Simplified(measure, points[..index + 1], epsilonSquared)| - 1]
      + Simplified(measure, points[index..], epsilonSquared)
  {
    var split := Farthest(measure, points);
    assert split.0 == index && split.1 > epsilonSquared;
    assert index != 0;
    var left := Simplified(measure, points[..index + 1], epsilonSquared);
    var right := Simplified(measure, points[index..], epsilonSquared);
    assert Simplified(measure, points, epsilonSquared) == left[..|left| - 1] + right;
  }

  /** `simplify(points:epsilonSquared:result:)`: appends the simplification of
      `points` to `result`; between the two recursive calls `removeLast` drops
      the pivot the left half ended with, as the right half starts with it. */
  method SimplifyInto<T>(measure: Measure<T>, points: seq<T>, epsilonSquared: real, result: seq<T>)
    returns (r: seq<T>)
    requires |points| >= 2 && epsilonSquared >= 0.0
    ensures r == result + Simplified(measure, points, epsilonSquared)
    decreases |points|
  {
    var index, maxDistance := FindFarthest(measure, points);
    if maxDistance > epsilonSquared {
      SimplifiedSplit(measure, points, epsilonSquared, index);
      var prefix := points[..index + 1];
      var suffix := points[index..];
      r := SimplifyInto(measure, prefix, epsilonSquared, result);
      r := r[..|r| - 1];
      r := SimplifyInto(measure, suffix, epsilonSquared, r);
    } else {
      r := result + [points[0]];
      r := r + [points[|points| - 1]];
    }
  }

  /** `simplify(points:epsilon:)`: two points or fewer come back unchanged. */
  method Simplify(dist: Distance, points: seq<Point>, epsilon: real) returns (r: seq<Point>)
    ensures r == Simplification(dist, points, epsilon)
  {
    if |points| <= 2 {
      return points;
    }
    r := SimplifyInto(ChordMeasure(dist), points, epsilon * epsilon, []);
  }

  /** The whole-segment result: short inputs unchanged, longer ones
      simplified with the squared tolerance. */
  function Simplification(dist: Distance, points: seq<Point>, epsilon: real): (r: seq<Point>)
    ensures |points| <= 2 ==> r == points
    ensures |points| > 2 ==> r == Simplified(ChordMeasure(dist), points, epsilon * epsilon)
  {
    if |points| <= 2 then points else Simplified(ChordMeasure(dist), points, epsilon * epsilon)
  }

  // ---------------------------------------------------------------------
  // Properties

  /** When no interior point lies beyond the tolerance the range collapses
      to its two ends. */
  lemma CollapseWithinTolerance<T>(measure: Measure<T>, points: seq<T>, epsilonSquared: real)
    requires |points| >= 2 && epsilonSquared >= 0.0
    requires forall j :: 0 < j < |points| - 1 ==>
      measure(points[j], points[0], Last(points)) <= epsilonSquared
    ensures Simplified(measure, points, epsilonSquared) == [points[0], Last(points)]
  {
    var ds := ChordDistances(measure, points);
    var (index, maxDistance) := Farthest(measure, points);
    if index > 0 {
      assert ds[index] == measure(points[index], points[0], Last(points));
    }
  }

  /** Every point strictly between positions `lo` and `hi` lies within
      the tolerance of the chord from `points[lo]` to `points[hi]`. */
  ghost predicate ChordWithin<T>(measure: Measure<T>, points: seq<T>, lo: int, hi: int, epsilonSquared: real) {
    forall j :: 0 <= lo < j < hi < |points| ==> measure(points[j], points[lo], points[hi]) <= epsilonSquared
  }

  /** Between every two consecutive kept positions, the points left out lie
      within the tolerance of the chord joining them. */
  ghost predicate WithinTolerance<T>(measure: Measure<T>, points: seq<T>, idx: seq<int>, epsilonSquared: real) {
    forall k :: 0 <= k < |idx| - 1 ==> ChordWithin(measure, points, idx[k], idx[k + 1], epsilonSquared)
  }

  lemma ChordWithinPrefix<T>(measure: Measure<T>, points: seq<T>, n: nat, lo: int, hi: int, epsilonSquared: real)
    requires n <= |points| && 0 <= lo && hi < n
    requires ChordWithin(measure, points[..n], lo, hi, epsilonSquared)
    ensures ChordWithin(measure, points, lo, hi, epsilonSquared)
  {
    forall j | 0 <= lo < j < hi < |points|
      ensures measure(points[j], points[lo], points[hi]) <= epsilonSquared
    {
      assert points[..n][j] == points[j];
    }
  }

  lemma ChordWithinSuffix<T>(measure: Measure<T>, points: seq<T>, n: nat, lo: int, hi: int, epsilonSquared: real)
    requires n <= |points| && 0 <= lo && hi < |points| - n
    requires ChordWithin(measure, points[n..], lo, hi, epsilonSquared)
    ensures ChordWithin(measure, points, lo + n, hi + n, epsilonSquared)
  {
    forall j | 0 <= lo + n < j < hi + n < |points|
      ensures measure(points[j], points[lo + n], points[hi + n]) <= epsilonSquared
    {
      assert points[n..][j - n] == points[j];
    }
  }

  /** Joining the halves' embeddings at the pivot `k` keeps every chord
      within tolerance. */
  lemma JoinTolerance<T>(measure: Measure<T>, points: seq<T>, k: nat, ia: seq<int>, ib: seq<int>, epsilonSquared: real,
                      idx: seq<int>)
    requires k < |points| && |ia| >= 1 && |ib| >= 1
    requires idx == ia[..|ia| - 1] + Shift(ib, k)
    requires forall j :: 0 <= j < |ia| ==> 0 <= ia[j] <= k
    requires forall j :: 0 <= j < |ib| ==> 0 <= ib[j] < |points| - k
    requires ia[|ia| - 1] == k && ib[0] == 0
    requires WithinTolerance(measure, points[..k + 1], ia, epsilonSquared)
    requires WithinTolerance(measure, points[k..], ib, epsilonSquared)
    ensures WithinTolerance(measure, points, idx, epsilonSquared)
  {
    var L := |ia|;
    forall t | 0 <= t < |idx| - 1
      ensures ChordWithin(measure, points, idx[t], idx[t + 1], epsilonSquared)
    {
      if t < L - 1 {
        assert idx[t] == ia[t];
        assert idx[t + 1] == ia[t + 1];
        assert ChordWithin(measure, points[..k + 1], ia[t], ia[t + 1], epsilonSquared);
        ChordWithinPrefix(measure, points, k + 1, ia[t], ia[t + 1], epsilonSquared);
      } else {
        var u := t - (L - 1);
        assert idx[t] == ib[u] + k && idx[t + 1] == ib[u + 1] + k;
        assert ChordWithin(measure, points[k..], ib[u], ib[u + 1], epsilonSquared);
        ChordWithinSuffix(measure, points, k, ib[u], ib[u + 1], epsilonSquared);
      }
    }
  }

  /** The case of a range split at its farthest point: the halves'
      embeddings join at the pivot. */
  lemma SplitEmbeds<T>(measure: Measure<T>, points: seq<T>, epsilonSquared: real, index: nat,
                       ia: seq<int>, ib: seq<int>) returns (idx: seq<int>)
    requires |points| >= 2 && epsilonSquared >= 0.0
    requires Farthest(measure, points).1 > epsilonSquared && index == Farthest(measure, points).0
    requires Embeds(ia, Simplified(measure, points[..index + 1], epsilonSquared), points[..index + 1])
    requires ia[0] == 0 && ia[|ia| - 1] == index
    requires WithinTolerance(measure, points[..index + 1], ia, epsilonSquared)
    requires Embeds(ib, Simplified(measure, points[index..], epsilonSquared), points[index..])
    requires ib[0] == 0 && ib[|ib| - 1] == |points| - 1 - index
    requires WithinTolerance(measure, points[index..], ib, epsilonSquared)
    ensures Embeds(idx, Simplified(measure, points, epsilonSquared), points)
    ensures idx[0] == 0 && idx[|idx| - 1] == |points| - 1
    ensures WithinTolerance(measure, points, idx, epsilonSquared)
  {
    SimplifiedSplit(measure, points, epsilonSquared, index);
    var a := Simplified(measure, points[..index + 1], epsilonSquared);
    var b := Simplified(measure, points[index..], epsilonSquared);
    idx := JoinEmbeds(ia, a, ib, b, points, index);
    JoinTolerance(measure, points, index, ia, ib, epsilonSquared, idx);
  }

  /** The case of a range within tolerance: only its two ends are kept. */
  lemma CollapseEmbeds<T>(measure: Measure<T>, points: seq<T>, epsilonSquared: real) returns (idx: seq<int>)
    requires |points| >= 2 && epsilonSquared >= 0.0
    requires Farthest(measure, points).1 <= epsilonSquared
    ensures Embeds(idx, Simplified(measure, points, epsilonSquared), points)
    ensures idx[0] == 0 && idx[|idx| - 1] == |points| - 1
    ensures WithinTolerance(measure, points, idx, epsilonSquared)
  {
    var split := Farthest(measure, points);
    idx := [0, |points| - 1];
    assert Simplified(measure, points, epsilonSquared) == [points[0], points[|points| - 1]];
    var ds := ChordDistances(measure, points);
    ScanFindsFirstMaximum(ds, |points| - 1);
    forall j | 0 < j < |points| - 1
      ensures measure(points[j], points[0], points[|points| - 1]) <= epsilonSquared
    {
      assert ds[j] <= split.1;
    }
    assert ChordWithin(measure, points, 0, |points| - 1, epsilonSquared);
  }

  /** The simplification is an order-preserving subsequence of the range
      that keeps its two ends, and every point left out lies within the
      tolerance of the chord between the kept points around it. */
  lemma {:induction false} SimplifiedEmbeds<T>(measure: Measure<T>, points: seq<T>, epsilonSquared: real)
    returns (idx: seq<int>)
    requires |points| >= 2 && epsilonSquared >= 0.0
    ensures Embeds(idx, Simplified(measure, points, epsilonSquared), points)
    ensures idx[0] == 0 && idx[|idx| - 1] == |points| - 1
    ensures WithinTolerance(measure, points, idx, epsilonSquared)
    decreases |points|, 1
  {
    if Farthest(measure, points).1 > epsilonSquared {
      idx := SplitSimplifiedEmbeds(measure, points, epsilonSquared);
    } else {
      idx := CollapseEmbeds(measure, points, epsilonSquared);
    }
  }

  /** The case that splits at the farthest point: both halves, joined. */
  lemma {:induction false} SplitSimplifiedEmbeds<T>(measure: Measure<T>, points: seq<T>, epsilonSquared: real)
    returns (idx: seq<int>)
    requires |points| >= 2 && epsilonSquared >= 0.0 && Farthest(measure, points).1 > epsilonSquared
    ensures Embeds(idx, Simplified(measure, points, epsilonSquared), points)
    ensures idx[0] == 0 && idx[|idx| - 1] == |points| - 1
    ensures WithinTolerance(measure, points, idx, epsilonSquared)
    decreases |points|, 0
  {
    var index := Farthest(measure, points).0;
    SimplifiedSplit(measure, points, epsilonSquared, index);
    var ia := SimplifiedEmbeds(measure, points[..index + 1], epsilonSquared);
    var ib := SimplifiedEmbeds(measure, points[index..], epsilonSquared);
    idx := SplitEmbeds(measure, points, epsilonSquared, index, ia, ib);
  }

  /** What the public entry point promises: short inputs unchanged; longer
      ones keep their first and last point and are a subsequence, hence no
      longer, each left-out point lying within epsilon² of the chord between
      the kept points around it. */
  lemma SimplificationProperties(dist: Distance, points: seq<Point>, epsilon: real)
    ensures var r := Simplification(dist, points, epsilon);
      && IsSubsequence(r, points)
      && |r| <= |points|
      && (|points| > 0 ==> |r| > 0 && r[0] == points[0] && Last(r) == Last(points))
      && (|points| > 2 ==> exists idx ::
            Embeds(idx, r, points) && WithinTolerance(ChordMeasure(dist), points, idx, epsilon * epsilon))
  {
    var r := Simplification(dist, points, epsilon);
    if |points| <= 2 {
      var idx := EmbedsRefl(points);
    } else {
      var idx := SimplifiedEmbeds(ChordMeasure(dist), points, epsilon * epsilon);
      SubsequenceLength(r, points);
    }
  }
}
