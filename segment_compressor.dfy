/** `SegmentCompressor`: the primary reduction strategy of the configuration,
    then the fixed nearby-point pass with the deduplication radius.

    The two loop filters are written over any element type: `stripNearby`
    only looks at the distance between two points and `stripDuplicates` only
    at whether two points share their coordinates, and they are used on
    points through `PointGap` and `SameCoordinates`. */
module SegmentCompression {
  import opened Wrappers
  import opened Seqs
  import opened GpxModel
  import opened Configuration
  import Rdp

  /** How far apart two elements are, as the nearby filter sees them. */
  type Gap<!T> = (T, T) -> real

  /** The haversine distance between the coordinates of two points. */
  function PointGap(dist: Distance): (g: Gap<Point>)
    ensures forall p: Point, q: Point :: g(p, q) == dist(p.latitude, p.longitude, q.latitude, q.longitude)
  {
    (p: Point, q: Point) => dist(p.latitude, p.longitude, q.latitude, q.longitude)
  }

  /** Equal latitude and equal longitude; the other fields do not matter. */
  predicate SameCoordinates(p: Point, q: Point) {
    p.latitude == q.latitude && p.longitude == q.longitude
  }

  // ---------------------------------------------------------------------
  // stripNearby

  /** What the loop of `stripNearby` has kept after `points`: the first one,
      and then every point at least `radius` from the last point kept. */
  function NearbyKept<T>(gap: Gap<T>, points: seq<T>, radius: real): (r: seq<T>)
    ensures |points| > 0 ==> |r| > 0
  {
    if |points| == 0 then []
    else
      var kept := NearbyKept(gap, points[..|points| - 1], radius);
      var point := points[|points| - 1];
      if kept == [] || gap(Last(kept), point) >= radius then kept + [point] else kept
  }

  /** `stripNearby`: fewer than two points come back unchanged; otherwise
      the loop's points, with the input's last point added when the loop
      did not end on it. */
  function NearbyStripped<T(==)>(gap: Gap<T>, points: seq<T>, radius: real): (r: seq<T>)
  {
    if |points| <= 1 then points
    else
      var kept := NearbyKept(gap, points, radius);
      if kept == [] || Last(kept) != Last(points) then kept + [Last(points)] else kept
  }

  method StripNearby<T(==)>(gap: Gap<T>, points: seq<T>, radius: real) returns (r: seq<T>)
    ensures r == NearbyStripped(gap, points, radius)
  {
    if |points| <= 1 {
      return points;
    }
    var filtered: seq<T> := [];
    var lastPoint: Option<T> := None;
    for i := 0 to |points|
      invariant filtered == NearbyKept(gap, points[..i], radius)
      invariant lastPoint == if filtered == [] then None else Some(Last(filtered))
    {
      var point := points[i];
      assert points[..i + 1][..i] == points[..i];
      match lastPoint {
        case None =>
          filtered := filtered + [point];
          lastPoint := Some(point);
        case Some(lp) =>
          if gap(lp, point) >= radius {
            filtered := filtered + [point];
            lastPoint := Some(point);
          }
      }
    }
    assert points[..|points|] == points;
    if filtered == [] || Last(filtered) != Last(points) {
      filtered := filtered + [Last(points)];
    }
    r := filtered;
  }

  /** Every point between the kept point at `idx[k]` and the next kept one
      (or the end) is within `radius` of it. */
  ghost predicate DroppedNear<T>(gap: Gap<T>, points: seq<T>, idx: seq<int>, radius: real) {
    forall k, j :: 0 <= k < |idx| && 0 <= idx[k] < j < |points| && (k + 1 == |idx| || j < idx[k + 1]) ==>
      gap(points[idx[k]], points[j]) < radius
  }

  /** Consecutive kept points are at least `radius` apart. */
  ghost predicate Spaced<T>(gap: Gap<T>, kept: seq<T>, radius: real) {
    forall k :: 0 <= k < |kept| - 1 ==> gap(kept[k], kept[k + 1]) >= radius
  }

  /** Each point the loop keeps after the first is at least `radius` from
      the one kept before it. */
  lemma {:induction false} NearbyKeptSpaced<T>(gap: Gap<T>, points: seq<T>, radius: real)
    ensures Spaced(gap, NearbyKept(gap, points, radius), radius)
  {
    if |points| > 0 {
      var n := |points| - 1;
      var kept := NearbyKept(gap, points[..n], radius);
      NearbyKeptSpaced(gap, points[..n], radius);
      if kept == [] || gap(Last(kept), points[n]) >= radius {
        var r := kept + [points[n]];
        forall k | 0 <= k < |r| - 1
          ensures gap(r[k], r[k + 1]) >= radius
        {
          if k + 1 < |kept| {
            assert r[k] == kept[k] && r[k + 1] == kept[k + 1];
          }
        }
      }
    }
  }

  /** The loop keeps the first point and drops only points within `radius`
      of the point kept last before them. */
  lemma {:induction false} NearbyKeptEmbeds<T>(gap: Gap<T>, points: seq<T>, radius: real) returns (idx: seq<int>)
    ensures Embeds(idx, NearbyKept(gap, points, radius), points)
    ensures |points| > 0 ==> idx[0] == 0
    ensures DroppedNear(gap, points, idx, radius)
  {
    if |points| == 0 {
      idx := [];
    } else {
      var n := |points| - 1;
      var prefix := points[..n];
      var kept := NearbyKept(gap, prefix, radius);
      var before := NearbyKeptEmbeds(gap, prefix, radius);
      assert points[..n + 1] == points;
      if kept == [] || gap(Last(kept), points[n]) >= radius {
        idx := before + [n];
        EmbedsSnoc(before, kept, points, n);
        DroppedNearExtended(gap, points, before, radius);
      } else {
        idx := before;
        EmbedsWiden(before, kept, points, n, n + 1);
        DroppedNearWidened(gap, points, before, radius);
      }
    }
  }

  /** Keeping the newest point carries the property over from the prefix. */
  lemma DroppedNearExtended<T>(gap: Gap<T>, points: seq<T>, before: seq<int>, radius: real)
    requires |points| > 0
    requires forall k :: 0 <= k < |before| ==> 0 <= before[k] < |points| - 1
    requires DroppedNear(gap, points[..|points| - 1], before, radius)
    ensures DroppedNear(gap, points, before + [|points| - 1], radius)
  {
    var n := |points| - 1;
    var idx := before + [n];
    forall k, j | 0 <= k < |idx| && 0 <= idx[k] < j < |points| && (k + 1 == |idx| || j < idx[k + 1])
      ensures gap(points[idx[k]], points[j]) < radius
    {
      assert k < |before| && idx[k] == before[k];
      assert points[j] == points[..n][j];
      assert points[idx[k]] == points[..n][before[k]];
    }
  }

  /** Dropping the newest point, which is within `radius` of the last kept
      one, carries the property over from the prefix. */
  lemma DroppedNearWidened<T>(gap: Gap<T>, points: seq<T>, before: seq<int>, radius: real)
    requires |points| > 0 && |before| > 0
    requires forall k :: 0 <= k < |before| ==> 0 <= before[k] < |points| - 1
    requires gap(points[before[|before| - 1]], points[|points| - 1]) < radius
    requires DroppedNear(gap, points[..|points| - 1], before, radius)
    ensures DroppedNear(gap, points, before, radius)
  {
    var n := |points| - 1;
    forall k, j | 0 <= k < |before| && 0 <= before[k] < j < |points| && (k + 1 == |before| || j < before[k + 1])
      ensures gap(points[before[k]], points[j]) < radius
    {
      assert points[before[k]] == points[..n][before[k]];
      if j < n {
        assert points[j] == points[..n][j];
      }
    }
  }

  /** What `stripNearby` promises: short inputs unchanged; longer ones give
      an order-preserving subsequence that starts with the first point and
      ends with the last, whose consecutive points are at least `radius`
      apart except possibly the final pair (the forced last point), and
      which leaves out only points within `radius` of the point kept before
      them. */
  lemma StripNearbyProperties<T>(gap: Gap<T>, points: seq<T>, radius: real)
    ensures |points| <= 1 ==> NearbyStripped(gap, points, radius) == points
    ensures var r := NearbyStripped(gap, points, radius);
      |points| > 1 ==>
        && |r| > 0 && r[0] == points[0] && Last(r) == Last(points)
        && (forall k :: 0 <= k < |r| - 2 ==> gap(r[k], r[k + 1]) >= radius)
        && exists idx :: Embeds(idx, r, points) && DroppedNear(gap, points, idx, radius)
  {
    if |points| > 1 {
      var kept := NearbyKept(gap, points, radius);
      var idx := NearbyKeptEmbeds(gap, points, radius);
      NearbyKeptSpaced(gap, points, radius);
      if Last(kept) != Last(points) {
        var full := ForcedLastEmbeds(gap, points, radius, idx);
      }
    }
  }

  /** The case where the input's last point was not kept by the loop and is
      appended: the embedding gains the last position. */
  lemma ForcedLastEmbeds<T>(gap: Gap<T>, points: seq<T>, radius: real, idx: seq<int>) returns (full: seq<int>)
    requires |points| > 1
    requires Embeds(idx, NearbyKept(gap, points, radius), points) && idx[0] == 0
    requires DroppedNear(gap, points, idx, radius)
    requires Spaced(gap, NearbyKept(gap, points, radius), radius)
    requires Last(NearbyKept(gap, points, radius)) != Last(points)
    ensures full == idx + [|points| - 1]
    ensures Embeds(full, NearbyStripped(gap, points, radius), points)
    ensures DroppedNear(gap, points, full, radius)
    ensures forall k :: 0 <= k < |full| - 2 ==>
      gap(NearbyStripped(gap, points, radius)[k], NearbyStripped(gap, points, radius)[k + 1]) >= radius
  {
    var kept := NearbyKept(gap, points, radius);
    var r := NearbyStripped(gap, points, radius);
    assert r == kept + [Last(points)];
    var n := |points| - 1;
    assert idx[|idx| - 1] != n;
    full := idx + [n];
    DroppedNearForced(gap, points, idx, radius);
    forall k | 0 <= k < |r| - 2
      ensures gap(r[k], r[k + 1]) >= radius
    {
      assert r[k] == kept[k] && r[k + 1] == kept[k + 1];
    }
  }

  /** Appending the input's last point to the loop's result keeps the
      property: the points it skips were already within `radius` of the
      point kept before them. */
  lemma DroppedNearForced<T>(gap: Gap<T>, points: seq<T>, idx: seq<int>, radius: real)
    requires |points| > 0
    requires forall k :: 0 <= k < |idx| ==> 0 <= idx[k] < |points| - 1
    requires DroppedNear(gap, points, idx, radius)
    ensures DroppedNear(gap, points, idx + [|points| - 1], radius)
  {
    var full := idx + [|points| - 1];
    forall k, j | 0 <= k < |full| && 0 <= full[k] < j < |points| && (k + 1 == |full| || j < full[k + 1])
      ensures gap(points[full[k]], points[j]) < radius
    {
      assert k < |idx|;
      assert full[k] == idx[k];
      if k + 1 < |idx| {
        assert full[k + 1] == idx[k + 1];
      }
      assert 0 <= idx[k] < j < |points| && (k + 1 == |idx| || j < idx[k + 1]);
      assert gap(points[idx[k]], points[j]) < radius;
    }
  }

  // ---------------------------------------------------------------------
  // stripDuplicates

  /** What the loop of `stripDuplicates` keeps: every point whose
      coordinates differ from those of the last point kept. */
  function DistinctKept<T>(same: (T, T) -> bool, points: seq<T>): (r: seq<T>)
    ensures |points| > 0 ==> |r| > 0
  {
    if |points| == 0 then []
    else
      var kept := DistinctKept(same, points[..|points| - 1]);
      var point := points[|points| - 1];
      if kept != [] && same(Last(kept), point) then kept else kept + [point]
  }

  method StripDuplicates<T>(same: (T, T) -> bool, points: seq<T>) returns (r: seq<T>)
    ensures r == DistinctKept(same, points)
  {
    if |points| <= 1 {
      assert |points| == 1 ==> points[..0] == [];
      return points;
    }
    var filtered: seq<T> := [];
    var lastPoint: Option<T> := None;
    for i := 0 to |points|
      invariant filtered == DistinctKept(same, points[..i])
      invariant lastPoint == if filtered == [] then None else Some(Last(filtered))
    {
      var point := points[i];
      assert points[..i + 1][..i] == points[..i];
      if lastPoint.Some? && same(lastPoint.value, point) {
        continue;
      }
      filtered := filtered + [point];
      lastPoint := Some(point);
    }
    assert points[..|points|] == points;
    r := filtered;
  }

  /** Every point between the kept point at `idx[k]` and the next kept one
      (or the end) has its coordinates. */
  ghost predicate DroppedSame<T>(same: (T, T) -> bool, points: seq<T>, idx: seq<int>) {
    forall k, j :: 0 <= k < |idx| && 0 <= idx[k] < j < |points| && (k + 1 == |idx| || j < idx[k + 1]) ==>
      same(points[idx[k]], points[j])
  }

  /** No two neighbours share their coordinates. */
  ghost predicate NoAdjacentSame<T>(same: (T, T) -> bool, s: seq<T>) {
    forall k :: 0 <= k < |s| - 1 ==> !same(s[k], s[k + 1])
  }

  /** What `stripDuplicates` promises: an order-preserving subsequence that
      starts with the first point, has no two neighbours with the same
      coordinates, and leaves out only points whose coordinates match the
      point kept last before them. */
  lemma {:induction false} DistinctKeptEmbeds<T>(same: (T, T) -> bool, points: seq<T>) returns (idx: seq<int>)
    ensures Embeds(idx, DistinctKept(same, points), points)
    ensures |points| > 0 ==> idx[0] == 0
    ensures NoAdjacentSame(same, DistinctKept(same, points))
    ensures DroppedSame(same, points, idx)
  {
    if |points| == 0 {
      idx := [];
    } else {
      var n := |points| - 1;
      var prefix := points[..n];
      var kept := DistinctKept(same, prefix);
      var before := DistinctKeptEmbeds(same, prefix);
      assert points[..n + 1] == points;
      if kept != [] && same(Last(kept), points[n]) {
        idx := before;
        EmbedsWiden(before, kept, points, n, n + 1);
        DroppedSameWidened(same, points, before);
      } else {
        idx := before + [n];
        EmbedsSnoc(before, kept, points, n);
        DroppedSameExtended(same, points, before);
        NoAdjacentSameSnoc(same, kept, points[n]);
      }
    }
  }

  /** A point different from the last kept one can be appended. */
  lemma NoAdjacentSameSnoc<T>(same: (T, T) -> bool, kept: seq<T>, point: T)
    requires NoAdjacentSame(same, kept)
    requires kept == [] || !same(Last(kept), point)
    ensures NoAdjacentSame(same, kept + [point])
  {
    var r := kept + [point];
    forall k | 0 <= k < |r| - 1
      ensures !same(r[k], r[k + 1])
    {
      if k + 1 < |kept| {
        assert r[k] == kept[k] && r[k + 1] == kept[k + 1];
      }
    }
  }

  /** Keeping the newest point carries the property over from the prefix. */
  lemma DroppedSameExtended<T>(same: (T, T) -> bool, points: seq<T>, before: seq<int>)
    requires |points| > 0
    requires forall k :: 0 <= k < |before| ==> 0 <= before[k] < |points| - 1
    requires DroppedSame(same, points[..|points| - 1], before)
    ensures DroppedSame(same, points, before + [|points| - 1])
  {
    var n := |points| - 1;
    var idx := before + [n];
    forall k, j | 0 <= k < |idx| && 0 <= idx[k] < j < |points| && (k + 1 == |idx| || j < idx[k + 1])
      ensures same(points[idx[k]], points[j])
    {
      assert k < |before| && idx[k] == before[k];
      assert points[j] == points[..n][j];
      assert points[idx[k]] == points[..n][before[k]];
    }
  }

  /** Dropping the newest point, which has the coordinates of the last kept
      one, carries the property over from the prefix. */
  lemma DroppedSameWidened<T>(same: (T, T) -> bool, points: seq<T>, before: seq<int>)
    requires |points| > 0 && |before| > 0
    requires forall k :: 0 <= k < |before| ==> 0 <= before[k] < |points| - 1
    requires same(points[before[|before| - 1]], points[|points| - 1])
    requires DroppedSame(same, points[..|points| - 1], before)
    ensures DroppedSame(same, points, before)
  {
    var n := |points| - 1;
    forall k, j | 0 <= k < |before| && 0 <= before[k] < j < |points| && (k + 1 == |before| || j < before[k + 1])
      ensures same(points[before[k]], points[j])
    {
      assert points[before[k]] == points[..n][before[k]];
      if j < n {
        assert points[j] == points[..n][j];
      }
    }
  }

  /** A sequence without neighbouring duplicates passes unchanged. */
  lemma {:induction false} DistinctKeptFixed<T>(same: (T, T) -> bool, points: seq<T>)
    requires NoAdjacentSame(same, points)
    ensures DistinctKept(same, points) == points
  {
    if |points| > 0 {
      var n := |points| - 1;
      var prefix := points[..n];
      assert NoAdjacentSame(same, prefix) by {
        forall k | 0 <= k < |prefix| - 1
          ensures !same(prefix[k], prefix[k + 1])
        {
          assert prefix[k] == points[k] && prefix[k + 1] == points[k + 1];
        }
      }
      DistinctKeptFixed(same, prefix);
      if n > 0 {
        assert Last(prefix) == points[n - 1];
      }
      assert prefix + [points[n]] == points;
    }
  }

  /** Stripping duplicates twice is the same as once. */
  lemma StripDuplicatesIdempotent<T>(same: (T, T) -> bool, points: seq<T>)
    ensures DistinctKept(same, DistinctKept(same, points)) == DistinctKept(same, points)
  {
    var idx := DistinctKeptEmbeds(same, points);
    DistinctKeptFixed(same, DistinctKept(same, points));
  }

  // ---------------------------------------------------------------------
  // randomRemoval

  /** `filter` with one draw per point, in order: the point at position `i`
      stays when `draws(i)` is at most `keepProbability`. */
  function KeepDrawn<T>(points: seq<T>, draws: nat -> real, keepProbability: real): (r: seq<T>)
    ensures |r| <= |points|
  {
    if |points| == 0 then []
    else
      var n := |points| - 1;
      var kept := KeepDrawn(points[..n], draws, keepProbability);
      if draws(n) <= keepProbability then kept + [points[n]] else kept
  }

  /** `randomRemoval`: a percentage outside (0, 1) removes nothing; otherwise
      each point stays with probability `1 - percent`, clamped to [0, 1]; the
      random draws are the parameter `draws`. */
  function RandomRemoval<T>(points: seq<T>, percent: real, draws: nat -> real): (r: seq<T>)
  {
    if !(percent > 0.0 && percent < 1.0) then points
    else
      var keep := 1.0 - percent;
      var keepProbability := if keep < 0.0 then 0.0 else if keep > 1.0 then 1.0 else keep;
      KeepDrawn(points, draws, keepProbability)
  }

  /** The points that survive the draws are exactly those whose draw is at
      most the keep probability, in their original order. */
  lemma {:induction false} KeepDrawnEmbeds<T>(points: seq<T>, draws: nat -> real, keepProbability: real) returns (idx: seq<int>)
    ensures Embeds(idx, KeepDrawn(points, draws, keepProbability), points)
    ensures forall i :: 0 <= i < |points| ==> (i in idx <==> draws(i) <= keepProbability)
  {
    if |points| == 0 {
      idx := [];
    } else {
      var n := |points| - 1;
      var before := KeepDrawnEmbeds(points[..n], draws, keepProbability);
      assert points[..n + 1] == points;
      if draws(n) <= keepProbability {
        idx := before + [n];
        EmbedsSnoc(before, KeepDrawn(points[..n], draws, keepProbability), points, n);
      } else {
        idx := before;
        EmbedsWiden(before, KeepDrawn(points[..n], draws, keepProbability), points, n, n + 1);
        assert n !in idx;
      }
    }
  }

  /** Random removal leaves the points unchanged outside (0, 1), and
      otherwise keeps an order-preserving subsequence. */
  lemma RandomRemovalProperties<T>(points: seq<T>, percent: real, draws: nat -> real)
    ensures !(0.0 < percent < 1.0) ==> RandomRemoval(points, percent, draws) == points
    ensures IsSubsequence(RandomRemoval(points, percent, draws), points)
  {
    if 0.0 < percent < 1.0 {
      var keep := 1.0 - percent;
      var idx := KeepDrawnEmbeds(points, draws, keep);
    } else {
      var idx := EmbedsRefl(points);
    }
  }

  // ---------------------------------------------------------------------
  // compress

  /** The points after the configured strategy alone. */
  function StrategyApplied(configuration: Configuration, dist: Distance, draws: nat -> real, points: seq<Point>): (r: seq<Point>)
  {
    match configuration.compressionStrategy
    case RamerDouglasPeucker(tolerance) => Rdp.Simplification(dist, points, tolerance)
    case StripNearby(distance) => NearbyStripped(PointGap(dist), points, distance)
    case Random(percent) =>
      if configuration.enableRandomRemoval then RandomRemoval(points, percent, draws) else points
    case StripDuplicates => DistinctKept(SameCoordinates, points)
  }

  /** The points of a compressed segment: the strategy, then the nearby
      pass with the deduplication radius when there is one. */
  function CompressedPoints(configuration: Configuration, dist: Distance, draws: nat -> real, points: seq<Point>): (r: seq<Point>)
  {
    var processed := StrategyApplied(configuration, dist, draws, points);
    match configuration.deduplicationRadius
    case Some(radius) => NearbyStripped(PointGap(dist), processed, radius)
    case None => processed
  }

  /** `compress(segment:)`. `cancelled` is the outcome of the `Task`'s
      cancellation check on entry; the random draws are `draws`. */
  method Compress(configuration: Configuration, dist: Distance, draws: nat -> real, cancelled: bool, segment: SegmentPayload)
    returns (r: Result<SegmentPayload, Failure>)
    ensures cancelled <==> r == Failure(CancellationError)
    ensures !cancelled ==>
      && r.Success?
      && r.value.trackIndex == segment.trackIndex
      && r.value.segmentIndex == segment.segmentIndex
      && r.value.attributes == segment.attributes
      && r.value.leadingNodes == segment.leadingNodes
      && r.value.trailingNodes == segment.trailingNodes
      && r.value.points == CompressedPoints(configuration, dist, draws, segment.points)
  {
    if cancelled {
      return Failure(CancellationError);
    }
    var processedPoints: seq<Point>;
    match configuration.compressionStrategy {
      case RamerDouglasPeucker(tolerance) =>
        processedPoints := Rdp.Simplify(dist, segment.points, tolerance);
      case StripNearby(distance) =>
        processedPoints := StripNearby(PointGap(dist), segment.points, distance);
      case Random(percent) =>
        if !configuration.enableRandomRemoval {
          processedPoints := segment.points;
        } else {
          processedPoints := RandomRemoval(segment.points, percent, draws);
        }
      case StripDuplicates =>
        processedPoints := StripDuplicates(SameCoordinates, segment.points);
    }
    var deduped: seq<Point>;
    match configuration.deduplicationRadius {
      case Some(radius) =>
        deduped := StripNearby(PointGap(dist), processedPoints, radius);
      case None =>
        deduped := processedPoints;
    }
    r := Success(SegmentPayload(
      segment.trackIndex,
      segment.segmentIndex,
      segment.attributes,
      segment.leadingNodes,
      segment.trailingNodes,
      deduped));
  }

  /** Whatever the strategy, the compressed points are an order-preserving
      subsequence of the segment's, so never more of them. */
  lemma CompressedSubsequence(configuration: Configuration, dist: Distance, draws: nat -> real, points: seq<Point>)
    ensures IsSubsequence(CompressedPoints(configuration, dist, draws, points), points)
    ensures |CompressedPoints(configuration, dist, draws, points)| <= |points|
  {
    var processed := StrategyApplied(configuration, dist, draws, points);
    assert IsSubsequence(processed, points) by {
      match configuration.compressionStrategy {
        case RamerDouglasPeucker(tolerance) =>
          Rdp.SimplificationProperties(dist, points, tolerance);
        case StripNearby(distance) =>
          NearbyStrippedSubsequence(PointGap(dist), points, distance);
        case Random(percent) =>
          if configuration.enableRandomRemoval {
            RandomRemovalProperties(points, percent, draws);
          } else {
            var idx := EmbedsRefl(points);
          }
        case StripDuplicates =>
          var idx := DistinctKeptEmbeds(SameCoordinates, points);
      }
    }
    match configuration.deduplicationRadius {
      case Some(radius) =>
        NearbyStrippedSubsequence(PointGap(dist), processed, radius);
        SubsequenceTransitive(CompressedPoints(configuration, dist, draws, points), processed, points);
      case None =>
    }
    SubsequenceLength(CompressedPoints(configuration, dist, draws, points), points);
  }

  lemma NearbyStrippedSubsequence<T>(gap: Gap<T>, points: seq<T>, radius: real)
    ensures IsSubsequence(NearbyStripped(gap, points, radius), points)
  {
    if |points| <= 1 {
      var idx := EmbedsRefl(points);
    } else {
      StripNearbyProperties(gap, points, radius);
    }
  }

  /** Whenever a deduplication radius is configured, whatever the primary
      strategy, the final pass applies: neighbouring compressed points are
      at least that far apart, except possibly the final pair, and the last
      point the primary strategy kept is still the last one written. */
  lemma DeduplicationAlwaysApplies(configuration: Configuration, dist: Distance, draws: nat -> real, points: seq<Point>, radius: real)
    requires configuration.deduplicationRadius == Some(radius)
    ensures var r := CompressedPoints(configuration, dist, draws, points);
      forall k :: 0 <= k < |r| - 2 ==>
        dist(r[k].latitude, r[k].longitude, r[k + 1].latitude, r[k + 1].longitude) >= radius
    ensures var r := CompressedPoints(configuration, dist, draws, points);
      |r| > 0 ==> Last(r) == Last(StrategyApplied(configuration, dist, draws, points))
  {
    var processed := StrategyApplied(configuration, dist, draws, points);
    var r := CompressedPoints(configuration, dist, draws, points);
    StripNearbyProperties(PointGap(dist), processed, radius);
    forall k | 0 <= k < |r| - 2
      ensures dist(r[k].latitude, r[k].longitude, r[k + 1].latitude, r[k + 1].longitude) >= radius
    {
      assert PointGap(dist)(r[k], r[k + 1]) >= radius;
    }
  }

  /** Strip-duplicates with no deduplication radius turns two equal points
      followed by a distinct one into two points. */
  lemma DuplicatesExample(dist: Distance, draws: nat -> real)
    ensures var configuration := NewConfiguration("-compressed", 1024, CompressionStrategy.StripDuplicates, None, true, false, true);
      var p := Point(1.0, 1.0, None, None, map[], []);
      var q := Point(1.0001, 1.0001, None, None, map[], []);
      CompressedPoints(configuration, dist, draws, [p, p, q]) == [p, q]
  {
    var p := Point(1.0, 1.0, None, None, map[], []);
    var q := Point(1.0001, 1.0001, None, None, map[], []);
    assert [p, p, q][..2] == [p, p];
    assert [p, p][..1] == [p];
    assert [p][..0] == [];
    assert DistinctKept(SameCoordinates, [p]) == [p];
    assert DistinctKept(SameCoordinates, [p, p]) == [p];
    assert DistinctKept(SameCoordinates, [p, p, q]) == [p, q];
  }
}
