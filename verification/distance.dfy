/**
 * Distances along a route polyline. A route vertex is a `[lon, lat]` pair, as
 * the routing providers return it. The great-circle distance
 * (`haversine_miles(lat1, lon1, lat2, lon2)`) is trigonometry on floats and is
 * passed in as an abstract function; only its non-negativity is ever assumed.
 */
module Distance {

  /** One route vertex: longitude first, latitude second. */
  datatype LonLat = LonLat(lon: real, lat: real)

  /** The great-circle distance in miles, arguments `(lat1, lon1, lat2, lon2)`. */
  type Haversine = (real, real, real, real) -> real

  ghost predicate NonNegative(haversine: Haversine) {
    forall lat1, lon1, lat2, lon2 :: haversine(lat1, lon1, lat2, lon2) >= 0.0
  }

  /** The length of the leg from `a` to `b`: each vertex is read as `[lon, lat]`. */
  function Leg(haversine: Haversine, a: LonLat, b: LonLat): real {
    haversine(a.lat, a.lon, b.lat, b.lon)
  }

  /** The total length of a polyline, summed from its first leg onwards. */
  function PathLength(haversine: Haversine, coords: seq<LonLat>): real {
    if |coords| < 2 then 0.0 else Leg(haversine, coords[0], coords[1]) + PathLength(haversine, coords[1..])
  }

  /**
   * `cumulative` holds, for every vertex, the distance travelled to reach it:
   * the same length as the route, 0.0 at the first vertex, and each entry the
   * previous one plus the leg between them.
   */
  ghost predicate IsCumulative(haversine: Haversine, coords: seq<LonLat>, cumulative: seq<real>) {
    && |cumulative| == |coords|
    && (|coords| > 0 ==> cumulative[0] == 0.0)
    && forall i :: 1 <= i < |coords| ==> cumulative[i] == cumulative[i - 1] + Leg(haversine, coords[i - 1], coords[i])
  }

  /** `cumulative_route_distances`: the running total of the leg lengths. */
  method CumulativeRouteDistances(coords: seq<LonLat>, haversine: Haversine) returns (cumulative: seq<real>)
    ensures IsCumulative(haversine, coords, cumulative)
    ensures coords == [] ==> cumulative == []
  {
    if coords == [] {
      return [];
    }
    cumulative := [0.0];
    var total := 0.0;
    for idx := 1 to |coords|
      invariant |cumulative| == idx && cumulative[0] == 0.0
      invariant total == cumulative[idx - 1]
      invariant forall i :: 1 <= i < idx ==> cumulative[i] == cumulative[i - 1] + Leg(haversine, coords[i - 1], coords[i])
    {
      var prev := coords[idx - 1];
      var here := coords[idx];
      total := total + haversine(prev.lat, prev.lon, here.lat, here.lon);
      cumulative := cumulative + [total];
    }
  }

  /** The running totals are determined by the route: there is only one such list. */
  lemma {:induction false} CumulativeIsUnique(haversine: Haversine, coords: seq<LonLat>, c1: seq<real>, c2: seq<real>)
    requires IsCumulative(haversine, coords, c1) && IsCumulative(haversine, coords, c2)
    ensures c1 == c2
  {
    var k := 0;
    while k < |coords|
      invariant 0 <= k <= |coords|
      invariant c1[..k] == c2[..k]
    {
      if k > 0 {
        assert c1[k - 1] == c2[k - 1] by { assert c1[..k][k - 1] == c2[..k][k - 1]; }
      }
      assert c1[..k + 1] == c1[..k] + [c1[k]];
      assert c2[..k + 1] == c2[..k] + [c2[k]];
      k := k + 1;
    }
    assert c1 == c1[..|coords|] && c2 == c2[..|coords|];
  }

  /** With a non-negative distance the running totals never decrease. */
  lemma CumulativeNonDecreasing(haversine: Haversine, coords: seq<LonLat>, cumulative: seq<real>)
    requires NonNegative(haversine)
    requires IsCumulative(haversine, coords, cumulative)
    ensures forall i, j :: 0 <= i <= j < |cumulative| ==> cumulative[i] <= cumulative[j]
  {
    forall i, j | 0 <= i <= j < |cumulative|
      ensures cumulative[i] <= cumulative[j]
    {
      var k := i;
      while k < j
        invariant i <= k <= j
        invariant cumulative[i] <= cumulative[k]
      {
        assert Leg(haversine, coords[k], coords[k + 1]) >= 0.0;
        k := k + 1;
      }
    }
  }

  /** Dropping the last vertex shortens the path by exactly the last leg. */
  lemma {:induction false} PathLengthSnoc(haversine: Haversine, coords: seq<LonLat>)
    requires |coords| >= 2
    ensures PathLength(haversine, coords)
         == PathLength(haversine, coords[..|coords| - 1]) + Leg(haversine, coords[|coords| - 2], coords[|coords| - 1])
  {
    if |coords| > 2 {
      PathLengthSnoc(haversine, coords[1..]);
      assert coords[1..][..|coords| - 2] == coords[..|coords| - 1][1..];
    }
  }

  /** Every running total is the length of the route up to that vertex. */
  lemma {:induction false} CumulativeIsPrefixLength(haversine: Haversine, coords: seq<LonLat>, cumulative: seq<real>, k: nat)
    requires IsCumulative(haversine, coords, cumulative)
    requires k < |coords|
    ensures cumulative[k] == PathLength(haversine, coords[..k + 1])
  {
    if k > 0 {
      CumulativeIsPrefixLength(haversine, coords, cumulative, k - 1);
      PathLengthSnoc(haversine, coords[..k + 1]);
      assert coords[..k + 1][..k] == coords[..k];
    }
  }

  /** The last running total is the length of the whole route. */
  lemma CumulativeLastIsPathLength(haversine: Haversine, coords: seq<LonLat>, cumulative: seq<real>)
    requires IsCumulative(haversine, coords, cumulative)
    requires |coords| > 0
    ensures cumulative[|coords| - 1] == PathLength(haversine, coords)
  {
    CumulativeIsPrefixLength(haversine, coords, cumulative, |coords| - 1);
    assert coords[..|coords|] == coords;
  }
}
