/**
 * Finding the fuel stations worth considering along a route: the bounding box
 * of the route, the sampled route vertices a station is projected onto, the
 * corridor filter, the per-bucket pruning and the start-price estimate.
 * The database query that returns the stations inside the box is not part of
 * this model: its result is passed in as `rows`.
 */
module StationLocator {
  import opened Wrappers
  import opened Domain
  import opened Distance
  import opened Sorting

  const MAX_ROUTE_SAMPLE_POINTS: int := 350
  const STATION_BUCKET_MILES: real := 35.0
  const MAX_STATIONS_PER_BUCKET: nat := 3
  const START_PRICE_WINDOW_MILES: real := 40.0
  const DEFAULT_START_PRICE: real := 3.5

  // ---------------------------------------------------------------- bounding box

  datatype BoundingBox = BoundingBox(minLat: real, maxLat: real, minLon: real, maxLon: real)

  predicate InBox(box: BoundingBox, v: LonLat) {
    box.minLat <= v.lat <= box.maxLat && box.minLon <= v.lon <= box.maxLon
  }

  function Abs(x: real): real { if x < 0.0 then -x else x }

  function MaxReal(a: real, b: real): real { if a < b then b else a }

  /** Python's `min` of a non-empty list. */
  function MinOf(xs: seq<real>): (r: real)
    requires |xs| > 0
    ensures forall i :: 0 <= i < |xs| ==> r <= xs[i]
  {
    if |xs| == 1 then xs[0]
    else
      var m := MinOf(xs[1..]);
      assert forall i :: 1 <= i < |xs| ==> xs[i] == xs[1..][i - 1];
      if xs[0] <= m then xs[0] else m
  }

  /** Python's `max` of a non-empty list. */
  function MaxOf(xs: seq<real>): (r: real)
    requires |xs| > 0
    ensures forall i :: 0 <= i < |xs| ==> xs[i] <= r
  {
    if |xs| == 1 then xs[0]
    else
      var m := MaxOf(xs[1..]);
      assert forall i :: 1 <= i < |xs| ==> xs[i] == xs[1..][i - 1];
      if m <= xs[0] then xs[0] else m
  }

  /** The minimum and the maximum are elements of the list. */
  lemma {:induction false} MinMaxAttained(xs: seq<real>)
    requires |xs| > 0
    ensures MinOf(xs) in xs && MaxOf(xs) in xs
  {
    if |xs| > 1 {
      MinMaxAttained(xs[1..]);
      assert forall x :: x in xs[1..] ==> x in xs;
    }
  }

  function Lats(geometry: seq<LonLat>): (r: seq<real>)
    ensures |r| == |geometry| && forall i :: 0 <= i < |r| ==> r[i] == geometry[i].lat
  {
    seq(|geometry|, i requires 0 <= i < |geometry| => geometry[i].lat)
  }

  function Lons(geometry: seq<LonLat>): (r: seq<real>)
    ensures |r| == |geometry| && forall i :: 0 <= i < |r| ==> r[i] == geometry[i].lon
  {
    seq(|geometry|, i requires 0 <= i < |geometry| => geometry[i].lon)
  }

  /** Longitude padding: the corridor over the miles per degree of longitude, floored at 15. */
  function LonPad(corridorMiles: real, midLat: real, cosDegrees: real -> real): real {
    corridorMiles / MaxReal(69.0 * Abs(cosDegrees(midLat)), 15.0)
  }

  /**
   * `_bbox_from_route`. `cosDegrees` stands for `math.cos(math.radians(_))`.
   * `None` is the `ValueError` that `min` raises on an empty route.
   */
  function BboxFromRoute(geometry: seq<LonLat>, corridorMiles: real, cosDegrees: real -> real): (r: Option<BoundingBox>)
    ensures r.None? <==> geometry == []
  {
    if geometry == [] then None
    else
      var lats := Lats(geometry);
      var lons := Lons(geometry);
      var midLat := (MinOf(lats) + MaxOf(lats)) / 2.0;
      var latPad := corridorMiles / 69.0;
      var lonPad := LonPad(corridorMiles, midLat, cosDegrees);
      Some(BoundingBox(MinOf(lats) - latPad, MaxOf(lats) + latPad, MinOf(lons) - lonPad, MaxOf(lons) + lonPad))
  }

  /** With a non-negative corridor, every route vertex lies inside the box. */
  lemma BboxContainsRoute(geometry: seq<LonLat>, corridorMiles: real, cosDegrees: real -> real)
    requires geometry != [] && corridorMiles >= 0.0
    ensures forall v :: v in geometry ==> InBox(BboxFromRoute(geometry, corridorMiles, cosDegrees).value, v)
  {
    var lats := Lats(geometry);
    var lons := Lons(geometry);
    var midLat := (MinOf(lats) + MaxOf(lats)) / 2.0;
    var box := BboxFromRoute(geometry, corridorMiles, cosDegrees).value;
    LonPadBounds(corridorMiles, midLat, cosDegrees);
    assert corridorMiles / 69.0 >= 0.0;
    forall i | 0 <= i < |geometry| ensures InBox(box, geometry[i]) {
      assert lats[i] == geometry[i].lat && lons[i] == geometry[i].lon;
    }
  }

  /** The longitude padding is never negative and at most `corridor / 15`. */
  lemma LonPadBounds(corridorMiles: real, midLat: real, cosDegrees: real -> real)
    requires corridorMiles >= 0.0
    ensures 0.0 <= LonPad(corridorMiles, midLat, cosDegrees) <= corridorMiles / 15.0
  {
    var d := MaxReal(69.0 * Abs(cosDegrees(midLat)), 15.0);
    var x := corridorMiles / d;
    var y := corridorMiles / 15.0;
    assert x * d == corridorMiles;
    assert y * 15.0 == corridorMiles;
    assert y * 15.0 <= y * d by {
      assert y * (d - 15.0) >= 0.0;
    }
    assert x * d <= y * d;
  }

  /** The box extends the latitude range of the route by `corridor / 69` on both sides. */
  lemma BboxLatPadding(geometry: seq<LonLat>, corridorMiles: real, cosDegrees: real -> real)
    requires geometry != []
    ensures var box := BboxFromRoute(geometry, corridorMiles, cosDegrees).value;
      && box.minLat == MinOf(Lats(geometry)) - corridorMiles / 69.0
      && box.maxLat == MaxOf(Lats(geometry)) + corridorMiles / 69.0
  {
  }

  /**
   * The box extends the longitude range of the route by the same amount on
   * both sides, and for a non-negative corridor that amount is at most
   * `corridor / 15` (the divisor is floored at 15 miles per degree).
   */
  lemma BboxLonPadding(geometry: seq<LonLat>, corridorMiles: real, cosDegrees: real -> real)
    requires geometry != [] && corridorMiles >= 0.0
    ensures var box := BboxFromRoute(geometry, corridorMiles, cosDegrees).value;
      0.0 <= MinOf(Lons(geometry)) - box.minLon == box.maxLon - MaxOf(Lons(geometry)) <= corridorMiles / 15.0
  {
    var lats := Lats(geometry);
    var midLat := (MinOf(lats) + MaxOf(lats)) / 2.0;
    LonPadBounds(corridorMiles, midLat, cosDegrees);
  }

  // ---------------------------------------------------------------- sample indexes

  /** Python's `a // b` on integers (rounds toward negative infinity). */
  function FloorDiv(a: int, b: int): int
    requires b != 0
  {
    if b > 0 then a / b else (-a) / (-b)
  }

  /** `max(1, n // maxSamples)`. */
  function SampleStep(n: nat, maxSamples: int): (step: nat)
    requires maxSamples != 0
    ensures step >= 1
  {
    var q := FloorDiv(n, maxSamples);
    if q > 1 then q else 1
  }

  /** `list(range(0, n, step))`. */
  function Strided(n: nat, step: nat): (r: seq<nat>)
    requires step >= 1
  {
    seq((n + step - 1) / step, i requires 0 <= i => i * step)
  }

  /**
   * `_build_sample_indexes` as a function of the route length. `None` is the
   * `ZeroDivisionError` raised when `maxSamples` is 0 and the route is not empty.
   */
  function SampleIndexes(geometry: seq<LonLat>, maxSamples: int): Option<seq<nat>> {
    var n := |geometry|;
    if n == 0 then Some([])
    else if n <= maxSamples then Some(Strided(n, 1))
    else if maxSamples == 0 then None
    else
      var indexes := Strided(n, SampleStep(n, maxSamples));
      if indexes[|indexes| - 1] != n - 1 then Some(indexes + [n - 1]) else Some(indexes)
  }

  lemma MulLess(a: int, b: int, c: int)
    requires a < b && c >= 1
    ensures a * c < b * c
  {
    assert b * c - a * c == (b - a) * c;
  }

  /** The count of `range(0, n, step)`: at least one, and its last value is below `n`. */
  lemma StridedCount(n: nat, step: nat)
    requires step >= 1 && n > 0
    ensures var q := (n + step - 1) / step; q >= 1 && (q - 1) * step < n
  {
    var q := (n + step - 1) / step;
    var rem := (n + step - 1) % step;
    assert q * step + rem == n + step - 1;
    assert (q - 1) * step == q * step - step;
  }

  lemma StridedShape(n: nat, step: nat)
    requires step >= 1 && n > 0
    ensures var r := Strided(n, step);
      && |r| > 0 && r[0] == 0
      && (forall i :: 0 <= i < |r| ==> r[i] < n)
      && (forall i, j :: 0 <= i < j < |r| ==> r[i] < r[j])
  {
    var q := (n + step - 1) / step;
    StridedCount(n, step);
    var r := Strided(n, step);
    forall i | 0 <= i < |r| ensures r[i] < n {
      if i < q - 1 {
        MulLess(i, q - 1, step);
      }
    }
    forall i, j | 0 <= i < j < |r| ensures r[i] < r[j] {
      MulLess(i, j, step);
    }
  }

  /** An empty route gives no samples; a short route samples every vertex. */
  lemma SampleIndexesShortRoute(geometry: seq<LonLat>, maxSamples: int)
    requires |geometry| <= maxSamples || |geometry| == 0
    ensures SampleIndexes(geometry, maxSamples) == Some(seq(|geometry|, i requires 0 <= i => i))
  {
    var n := |geometry|;
    assert (n + 1 - 1) / 1 == n;
    assert Strided(n, 1) == seq(n, i requires 0 <= i => i);
  }

  /**
   * A long route is sampled at strictly increasing, in-range indexes that start
   * at the first vertex and end at the last one.
   */
  lemma SampleIndexesLongRoute(geometry: seq<LonLat>, maxSamples: int)
    requires |geometry| > maxSamples && |geometry| > 0 && maxSamples != 0
    ensures SampleIndexes(geometry, maxSamples).Some?
    ensures var r := SampleIndexes(geometry, maxSamples).value;
      && |r| > 0 && r[0] == 0 && r[|r| - 1] == |geometry| - 1
      && (forall i :: 0 <= i < |r| ==> r[i] < |geometry|)
      && (forall i, j :: 0 <= i < j < |r| ==> r[i] < r[j])
  {
    var n := |geometry|;
    var indexes := Strided(n, SampleStep(n, maxSamples));
    StridedShape(n, SampleStep(n, maxSamples));
    if indexes[|indexes| - 1] != n - 1 {
      var r := indexes + [n - 1];
      assert forall i :: 0 <= i < |indexes| ==> r[i] == indexes[i] && r[i] < n - 1;
    }
  }

  /** The sample count is not bounded by `maxSamples`: 699 vertices with 350 give 699 samples. */
  lemma SampleCountNotCapped(geometry: seq<LonLat>)
    requires |geometry| == 699
    ensures SampleIndexes(geometry, 350).Some? && |SampleIndexes(geometry, 350).value| == 699
  {
    assert SampleStep(699, 350) == 1;
    assert |Strided(699, 1)| == 699;
  }

  /** `_build_sample_indexes`: the one conditional `append` after `range`. */
  method BuildSampleIndexes(geometry: seq<LonLat>, maxSamples: int) returns (r: Option<seq<nat>>)
    ensures r == SampleIndexes(geometry, maxSamples)
  {
    var n := |geometry|;
    if n == 0 {
      return Some([]);
    }
    if n <= maxSamples {
      return Some(Strided(n, 1));
    }
    if maxSamples == 0 {
      return None;
    }
    var step := SampleStep(n, maxSamples);
    var indexes := Strided(n, step);
    StridedShape(n, step);
    if indexes[|indexes| - 1] != n - 1 {
      indexes := indexes + [n - 1];
    }
    return Some(indexes);
  }

  // ---------------------------------------------------------------- projection

  /** A distance that may still be Python's `float("inf")`. */
  datatype ExtReal = Infinite | Finite(miles: real)

  predicate Less(d: real, best: ExtReal) {
    best.Infinite? || d < best.miles
  }

  /** `distance_to_route > corridor_miles`. */
  predicate Exceeds(d: ExtReal, corridorMiles: real) {
    d.Infinite? || d.miles > corridorMiles
  }

  datatype Projection = Projection(distanceToRoute: ExtReal, alongDistance: real)

  predicate ValidSamples(geometry: seq<LonLat>, sampleIndexes: seq<nat>, cumulative: seq<real>) {
    forall k :: 0 <= k < |sampleIndexes| ==> sampleIndexes[k] < |geometry| && sampleIndexes[k] < |cumulative|
  }

  /** The distance from the station to the `k`-th sampled vertex. */
  function SampleDistance(haversine: Haversine, lat: real, lon: real, geometry: seq<LonLat>, sampleIndexes: seq<nat>, k: nat): real
    requires k < |sampleIndexes| && sampleIndexes[k] < |geometry|
  {
    var v := geometry[sampleIndexes[k]];
    haversine(lat, lon, v.lat, v.lon)
  }

  /** The projection after the first `k` samples have been visited. */
  function Nearest(haversine: Haversine, lat: real, lon: real, geometry: seq<LonLat>, sampleIndexes: seq<nat>,
                   cumulative: seq<real>, k: nat): Projection
    requires ValidSamples(geometry, sampleIndexes, cumulative) && k <= |sampleIndexes|
  {
    if k == 0 then Projection(Infinite, 0.0)
    else
      var p := Nearest(haversine, lat, lon, geometry, sampleIndexes, cumulative, k - 1);
      var d := SampleDistance(haversine, lat, lon, geometry, sampleIndexes, k - 1);
      if Less(d, p.distanceToRoute) then Projection(Finite(d), cumulative[sampleIndexes[k - 1]]) else p
  }

  /**
   * `_project_station_to_route`: the smallest distance from the station to a
   * sampled vertex, with the cumulative distance of that vertex.
   */
  method ProjectStationToRoute(haversine: Haversine, stationLat: real, stationLon: real, geometry: seq<LonLat>,
                               sampleIndexes: seq<nat>, cumulative: seq<real>) returns (p: Projection)
    requires ValidSamples(geometry, sampleIndexes, cumulative)
    ensures p == Nearest(haversine, stationLat, stationLon, geometry, sampleIndexes, cumulative, |sampleIndexes|)
  {
    var bestDistance := Infinite;
    var bestAlongDistance := 0.0;
    for k := 0 to |sampleIndexes|
      invariant Projection(bestDistance, bestAlongDistance)
             == Nearest(haversine, stationLat, stationLon, geometry, sampleIndexes, cumulative, k)
    {
      var idx := sampleIndexes[k];
      var v := geometry[idx];
      var distance := haversine(stationLat, stationLon, v.lat, v.lon);
      if Less(distance, bestDistance) {
        bestDistance := Finite(distance);
        bestAlongDistance := cumulative[idx];
      }
    }
    p := Projection(bestDistance, bestAlongDistance);
  }

  /** With no samples the projection is `(inf, 0.0)`. */
  lemma NearestOfNoSamples(haversine: Haversine, lat: real, lon: real, geometry: seq<LonLat>, cumulative: seq<real>)
    ensures Nearest(haversine, lat, lon, geometry, [], cumulative, 0) == Projection(Infinite, 0.0)
  {
  }

  /** After `k > 0` samples the projection's distance is finite and beats any `x` that every visited sample beats. */
  lemma {:induction false} NearestBelow(haversine: Haversine, lat: real, lon: real, geometry: seq<LonLat>,
                                       sampleIndexes: seq<nat>, cumulative: seq<real>, k: nat, x: real)
    requires ValidSamples(geometry, sampleIndexes, cumulative) && 0 < k <= |sampleIndexes|
    requires forall j :: 0 <= j < k ==> x < SampleDistance(haversine, lat, lon, geometry, sampleIndexes, j)
    ensures Nearest(haversine, lat, lon, geometry, sampleIndexes, cumulative, k).distanceToRoute.Finite?
    ensures x < Nearest(haversine, lat, lon, geometry, sampleIndexes, cumulative, k).distanceToRoute.miles
  {
    if k > 1 {
      NearestBelow(haversine, lat, lon, geometry, sampleIndexes, cumulative, k - 1, x);
    }
  }

  /**
   * When sample `m` is the FIRST of the first `k` samples to attain their
   * minimum distance, the projection after them is that distance and the
   * cumulative distance of sample `m`'s vertex: later ties do not replace it.
   */
  lemma {:induction false} NearestIsFirstMinimum(haversine: Haversine, lat: real, lon: real, geometry: seq<LonLat>,
                                                sampleIndexes: seq<nat>, cumulative: seq<real>, k: nat, m: nat)
    requires ValidSamples(geometry, sampleIndexes, cumulative) && m < k <= |sampleIndexes|
    requires forall j :: 0 <= j < k ==>
      SampleDistance(haversine, lat, lon, geometry, sampleIndexes, m) <= SampleDistance(haversine, lat, lon, geometry, sampleIndexes, j)
    requires forall j :: 0 <= j < m ==>
      SampleDistance(haversine, lat, lon, geometry, sampleIndexes, m) < SampleDistance(haversine, lat, lon, geometry, sampleIndexes, j)
    ensures Nearest(haversine, lat, lon, geometry, sampleIndexes, cumulative, k)
      == Projection(Finite(SampleDistance(haversine, lat, lon, geometry, sampleIndexes, m)), cumulative[sampleIndexes[m]])
  {
    var dm := SampleDistance(haversine, lat, lon, geometry, sampleIndexes, m);
    if k == m + 1 {
      if m > 0 {
        NearestBelow(haversine, lat, lon, geometry, sampleIndexes, cumulative, m, dm);
      }
    } else {
      NearestIsFirstMinimum(haversine, lat, lon, geometry, sampleIndexes, cumulative, k - 1, m);
      assert dm <= SampleDistance(haversine, lat, lon, geometry, sampleIndexes, k - 1);
    }
  }

  // ---------------------------------------------------------------- corridor filter

  /** A station row as returned by the bounding-box query (coordinates are never null there). */
  datatype StationRow = StationRow(
    id: int,
    opisTruckstopId: string,
    truckstopName: string,
    address: string,
    city: string,
    state: string,
    retailPrice: real,
    latitude: real,
    longitude: real)

  function ToCandidate(row: StationRow, alongDistance: real, distanceToRoute: real): StationCandidate {
    StationCandidate(row.id, row.opisTruckstopId, row.truckstopName, row.address, row.city, row.state,
                     row.retailPrice, row.latitude, row.longitude, alongDistance, distanceToRoute)
  }

  function ProjectRow(haversine: Haversine, row: StationRow, geometry: seq<LonLat>, sampleIndexes: seq<nat>,
                      cumulative: seq<real>): Projection
    requires ValidSamples(geometry, sampleIndexes, cumulative)
  {
    Nearest(haversine, row.latitude, row.longitude, geometry, sampleIndexes, cumulative, |sampleIndexes|)
  }

  /** The candidates built from the rows that lie within the corridor, in row order. */
  function CorridorCandidates(haversine: Haversine, rows: seq<StationRow>, geometry: seq<LonLat>, sampleIndexes: seq<nat>,
                              cumulative: seq<real>, corridorMiles: real): (r: seq<StationCandidate>)
    requires ValidSamples(geometry, sampleIndexes, cumulative)
    ensures |r| <= |rows|
    ensures forall c :: c in r ==> c.distanceToRouteMiles <= corridorMiles
  {
    if rows == [] then []
    else
      var init := CorridorCandidates(haversine, rows[..|rows| - 1], geometry, sampleIndexes, cumulative, corridorMiles);
      var row := rows[|rows| - 1];
      var p := ProjectRow(haversine, row, geometry, sampleIndexes, cumulative);
      if Exceeds(p.distanceToRoute, corridorMiles) then init
      else init + [ToCandidate(row, p.alongDistance, p.distanceToRoute.miles)]
  }

  /** A row becomes a candidate exactly when its projected distance is within the corridor. */
  lemma {:induction false} CorridorKeepsExactlyNear(haversine: Haversine, rows: seq<StationRow>, geometry: seq<LonLat>,
                                                   sampleIndexes: seq<nat>, cumulative: seq<real>, corridorMiles: real)
    requires ValidSamples(geometry, sampleIndexes, cumulative)
    ensures var r := CorridorCandidates(haversine, rows, geometry, sampleIndexes, cumulative, corridorMiles);
      && (forall row :: row in rows && !Exceeds(ProjectRow(haversine, row, geometry, sampleIndexes, cumulative).distanceToRoute, corridorMiles) ==>
            var p := ProjectRow(haversine, row, geometry, sampleIndexes, cumulative);
            ToCandidate(row, p.alongDistance, p.distanceToRoute.miles) in r)
      && (forall c :: c in r ==> exists row :: (row in rows
            && var p := ProjectRow(haversine, row, geometry, sampleIndexes, cumulative);
               !Exceeds(p.distanceToRoute, corridorMiles) && c == ToCandidate(row, p.alongDistance, p.distanceToRoute.miles)))
  {
    if rows != [] {
      var init := rows[..|rows| - 1];
      CorridorKeepsExactlyNear(haversine, init, geometry, sampleIndexes, cumulative, corridorMiles);
      assert forall row :: row in rows ==> row in init || row == rows[|rows| - 1];
      assert forall row :: row in init ==> row in rows;
    }
  }

  /** The filter loop of `fetch_route_station_candidates`. */
  method FilterCorridor(haversine: Haversine, rows: seq<StationRow>, geometry: seq<LonLat>, sampleIndexes: seq<nat>,
                        cumulative: seq<real>, corridorMiles: real) returns (candidates: seq<StationCandidate>)
    requires ValidSamples(geometry, sampleIndexes, cumulative)
    ensures candidates == CorridorCandidates(haversine, rows, geometry, sampleIndexes, cumulative, corridorMiles)
  {
    candidates := [];
    for i := 0 to |rows|
      invariant candidates == CorridorCandidates(haversine, rows[..i], geometry, sampleIndexes, cumulative, corridorMiles)
    {
      var row := rows[i];
      assert rows[..i + 1][..i] == rows[..i];
      var projection := ProjectStationToRoute(haversine, row.latitude, row.longitude, geometry, sampleIndexes, cumulative);
      if Exceeds(projection.distanceToRoute, corridorMiles) {
        continue;
      }
      candidates := candidates + [ToCandidate(row, projection.alongDistance, projection.distanceToRoute.miles)];
    }
    assert rows[..|rows|] == rows;
  }

  /**
   * `fetch_route_station_candidates` once the query has returned `rows`:
   * `None` is the `ValueError` of an empty route (raised while computing the box).
   */
  method FetchRouteStationCandidates(haversine: Haversine, cosDegrees: real -> real, rows: seq<StationRow>,
                                     geometry: seq<LonLat>, cumulative: seq<real>, corridorMiles: real)
    returns (r: Option<seq<StationCandidate>>)
    requires |cumulative| >= |geometry|
    ensures r.None? <==> geometry == []
    ensures r.Some? ==> exists sampleIndexes ::
      && SampleIndexes(geometry, MAX_ROUTE_SAMPLE_POINTS) == Some(sampleIndexes)
      && ValidSamples(geometry, sampleIndexes, cumulative)
      && r.value == Prune(CorridorCandidates(haversine, rows, geometry, sampleIndexes, cumulative, corridorMiles))
  {
    var box := BboxFromRoute(geometry, corridorMiles, cosDegrees);
    if box.None? {
      return None;
    }
    var samples := BuildSampleIndexes(geometry, MAX_ROUTE_SAMPLE_POINTS);
    if |geometry| <= MAX_ROUTE_SAMPLE_POINTS {
      SampleIndexesShortRoute(geometry, MAX_ROUTE_SAMPLE_POINTS);
    } else {
      SampleIndexesLongRoute(geometry, MAX_ROUTE_SAMPLE_POINTS);
    }
    var sampleIndexes := samples.value;
    var candidates := FilterCorridor(haversine, rows, geometry, sampleIndexes, cumulative, corridorMiles);
    var pruned := PruneCandidates(candidates);
    return Some(pruned);
  }

  // ---------------------------------------------------------------- pruning

  /** `int(along_distance_miles // STATION_BUCKET_MILES)`. */
  function Bucket(c: StationCandidate): int {
    (c.alongDistanceMiles / STATION_BUCKET_MILES).Floor
  }

  /** Ordering by the key `(price_per_gallon, distance_to_route_miles)`. */
  predicate PriceOffsetLe(a: StationCandidate, b: StationCandidate) {
    a.pricePerGallon < b.pricePerGallon
    || (a.pricePerGallon == b.pricePerGallon && a.distanceToRouteMiles <= b.distanceToRouteMiles)
  }

  /** Ordering by the key `along_distance_miles`. */
  predicate AlongLe(a: StationCandidate, b: StationCandidate) {
    a.alongDistanceMiles <= b.alongDistanceMiles
  }

  predicate IntLe(a: int, b: int) { a <= b }

  /** Python's `s[:n]`. */
  function Take<T>(s: seq<T>, n: nat): (r: seq<T>)
    ensures |r| == if |s| <= n then |s| else n
    ensures r == s[..|r|]
  {
    if |s| <= n then s else s[..n]
  }

  /** The candidates of bucket `b`, in input order. */
  function InBucket(cs: seq<StationCandidate>, b: int): (r: seq<StationCandidate>)
    ensures forall c :: c in r ==> c in cs && Bucket(c) == b
  {
    if cs == [] then []
    else
      var last := cs[|cs| - 1];
      InBucket(cs[..|cs| - 1], b) + (if Bucket(last) == b then [last] else [])
  }

  /** The buckets in order of first appearance: the key order of the `bucketed` dict. */
  function BucketKeys(cs: seq<StationCandidate>): (r: seq<int>)
    ensures forall b :: b in r <==> exists c :: c in cs && Bucket(c) == b
  {
    if cs == [] then []
    else
      var keys := BucketKeys(cs[..|cs| - 1]);
      var b := Bucket(cs[|cs| - 1]);
      assert forall c :: c in cs <==> c in cs[..|cs| - 1] || c == cs[|cs| - 1];
      if b in keys then keys else keys + [b]
  }

  /** A bucket no candidate falls into is empty. */
  lemma {:induction false} InBucketOfAbsentKey(cs: seq<StationCandidate>, b: int)
    requires b !in BucketKeys(cs)
    ensures InBucket(cs, b) == []
  {
    if cs != [] {
      assert cs[|cs| - 1] in cs;
      InBucketOfAbsentKey(cs[..|cs| - 1], b);
    }
  }

  /** What bucket `b` contributes: its three best candidates by price, then offset. */
  function Chunk(cs: seq<StationCandidate>, b: int): seq<StationCandidate> {
    Take(Sort(InBucket(cs, b), PriceOffsetLe), MAX_STATIONS_PER_BUCKET)
  }

  /** The contributions of the buckets `keys`, concatenated in that order. */
  function Selected(cs: seq<StationCandidate>, keys: seq<int>): seq<StationCandidate> {
    if keys == [] then [] else Selected(cs, keys[..|keys| - 1]) + Chunk(cs, keys[|keys| - 1])
  }

  /** `_prune_candidates` as a function: buckets in ascending order, then sorted by along distance. */
  function Prune(cs: seq<StationCandidate>): seq<StationCandidate> {
    Sort(Selected(cs, Sort(BucketKeys(cs), IntLe)), AlongLe)
  }

  /** The first loop of `_prune_candidates`: `bucketed.setdefault(bucket, []).append(candidate)`. */
  method BucketCandidates(candidates: seq<StationCandidate>) returns (bucketed: map<int, seq<StationCandidate>>, keys: seq<int>)
    ensures keys == BucketKeys(candidates)
    ensures forall b :: b in bucketed <==> b in keys
    ensures forall b :: b in bucketed ==> bucketed[b] == InBucket(candidates, b)
  {
    bucketed := map[];
    keys := [];
    for i := 0 to |candidates|
      invariant keys == BucketKeys(candidates[..i])
      invariant forall b :: b in bucketed <==> b in keys
      invariant forall b :: b in bucketed ==> bucketed[b] == InBucket(candidates[..i], b)
    {
      var candidate := candidates[i];
      assert candidates[..i + 1][..i] == candidates[..i];
      var bucket := (candidate.alongDistanceMiles / STATION_BUCKET_MILES).Floor;
      assert bucket == Bucket(candidate);
      var bucketList := if bucket in bucketed then bucketed[bucket] else [];
      if bucket !in bucketed {
        InBucketOfAbsentKey(candidates[..i], bucket);
      }
      if bucket !in bucketed {
        keys := keys + [bucket];
      }
      ghost var before := bucketed;
      bucketed := bucketed[bucket := bucketList + [candidate]];
      forall b | b in bucketed
        ensures bucketed[b] == InBucket(candidates[..i + 1], b)
      {
        assert InBucket(candidates[..i + 1], b)
            == InBucket(candidates[..i], b) + (if bucket == b then [candidate] else []);
        if b != bucket {
          assert bucketed[b] == before[b];
        }
      }
    }
    assert candidates[..|candidates|] == candidates;
  }

  /** The second loop of `_prune_candidates`: the cheapest few of each bucket, bucket by bucket in `sortedKeys` order. */
  method SelectPerBucket(candidates: seq<StationCandidate>, bucketed: map<int, seq<StationCandidate>>, sortedKeys: seq<int>)
    returns (selected: seq<StationCandidate>)
    requires forall b :: b in sortedKeys ==> b in bucketed && bucketed[b] == InBucket(candidates, b)
    ensures selected == Selected(candidates, sortedKeys)
  {
    selected := [];
    for j := 0 to |sortedKeys|
      invariant selected == Selected(candidates, sortedKeys[..j])
    {
      var bucket := sortedKeys[j];
      assert sortedKeys[..j + 1][..j] == sortedKeys[..j];
      var bucketCandidates := Sort(bucketed[bucket], PriceOffsetLe);
      selected := selected + Take(bucketCandidates, MAX_STATIONS_PER_BUCKET);
    }
    assert sortedKeys[..|sortedKeys|] == sortedKeys;
  }

  /** `_prune_candidates`: buckets the candidates, then extends `selected` bucket by bucket. */
  method PruneCandidates(candidates: seq<StationCandidate>) returns (pruned: seq<StationCandidate>)
    ensures pruned == Prune(candidates)
  {
    var bucketed, keys := BucketCandidates(candidates);
    var sortedKeys := Sort(keys, IntLe);
    forall b | b in sortedKeys ensures b in bucketed && bucketed[b] == InBucket(candidates, b) {
      assert b in multiset(sortedKeys);
    }
    var selected := SelectPerBucket(candidates, bucketed, sortedKeys);
    pruned := Sort(selected, AlongLe);
  }

  // ---------------------------------------------------------------- start price

  /** The candidates within `START_PRICE_WINDOW_MILES` of the start, in input order. */
  function NearStart(cs: seq<StationCandidate>): (r: seq<StationCandidate>)
    ensures forall c :: c in r <==> c in cs && c.alongDistanceMiles <= START_PRICE_WINDOW_MILES
  {
    if cs == [] then []
    else
      var rest := NearStart(cs[1..]);
      assert forall c :: c in cs <==> c == cs[0] || c in cs[1..];
      if cs[0].alongDistanceMiles <= START_PRICE_WINDOW_MILES then [cs[0]] + rest else rest
  }

  function MinPrice(cs: seq<StationCandidate>): (r: real)
    requires cs != []
    ensures exists c :: c in cs && r == c.pricePerGallon
    ensures forall c :: c in cs ==> r <= c.pricePerGallon
  {
    if |cs| == 1 then cs[0].pricePerGallon
    else
      var m := MinPrice(cs[1..]);
      assert forall c :: c in cs <==> c == cs[0] || c in cs[1..];
      if cs[0].pricePerGallon <= m then cs[0].pricePerGallon else m
  }

  /**
   * `estimate_start_price`. `averagePrice` is the database average over all
   * stations (`None` when the table is empty).
   */
  function EstimateStartPrice(cs: seq<StationCandidate>, averagePrice: Option<real>): (r: real)
    ensures (exists c :: c in cs && c.alongDistanceMiles <= START_PRICE_WINDOW_MILES) ==>
      && (exists c :: c in cs && c.alongDistanceMiles <= START_PRICE_WINDOW_MILES && r == c.pricePerGallon)
      && (forall c :: c in cs && c.alongDistanceMiles <= START_PRICE_WINDOW_MILES ==> r <= c.pricePerGallon)
    ensures (forall c :: c in cs ==> c.alongDistanceMiles > START_PRICE_WINDOW_MILES) ==>
      r == (if averagePrice.Some? then averagePrice.value else DEFAULT_START_PRICE)
  {
    var nearStart := NearStart(cs);
    if nearStart != [] then MinPrice(nearStart)
    else if averagePrice.Some? then averagePrice.value
    else DEFAULT_START_PRICE
  }
}
