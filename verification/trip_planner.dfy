/**
 * The planning steps of `build_trip_plan` that decide something: the waypoint
 * list handed to the fuel planner (a synthetic start, the candidate stations
 * strictly inside the route, a synthetic end, stably sorted by distance), and
 * the serialisation of the planner's actions into numbered stops.
 * Geocoding, routing and the station query happen before these steps; their
 * results (the candidates, the route length, the database average price and the
 * origin coordinates) are inputs here.
 */
module TripPlanner {
  import opened Wrappers
  import opened Domain
  import opened Sorting
  import opened Text
  import opened StationLocator
  import opened Optimizer
  import opened OptimizerProperties

  /** Stations this close to either end of the route are not offered as stops. */
  const STATION_END_MARGIN_MILES: real := 0.1

  // ---------------------------------------------------------------- waypoints

  function StartNode(candidates: seq<StationCandidate>, averagePrice: Option<real>): FuelNode {
    FuelNode("start", 0.0, Some(EstimateStartPrice(candidates, averagePrice)), true, None)
  }

  function StationKey(stationId: int): string {
    "station-" + IntToDecimal(stationId)
  }

  function StationNode(c: StationCandidate): FuelNode {
    FuelNode(StationKey(c.stationId), c.alongDistanceMiles, Some(c.pricePerGallon), true, Some(c))
  }

  function EndNode(routeTotalMiles: real): FuelNode {
    FuelNode("end", routeTotalMiles, None, false, None)
  }

  /** A candidate is offered as a stop only strictly inside the route, away from both ends. */
  predicate StrictlyInside(c: StationCandidate, routeTotalMiles: real) {
    STATION_END_MARGIN_MILES < c.alongDistanceMiles < routeTotalMiles - STATION_END_MARGIN_MILES
  }

  /** The station nodes, in candidate order. */
  function StationNodes(candidates: seq<StationCandidate>, routeTotalMiles: real): seq<FuelNode> {
    if candidates == [] then []
    else
      var init := StationNodes(candidates[..|candidates| - 1], routeTotalMiles);
      var c := candidates[|candidates| - 1];
      if StrictlyInside(c, routeTotalMiles) then init + [StationNode(c)] else init
  }

  predicate DistanceLe(a: FuelNode, b: FuelNode) {
    a.distanceMiles <= b.distanceMiles
  }

  /** The node list before sorting: start, the station nodes, end. */
  function UnsortedWaypoints(candidates: seq<StationCandidate>, routeTotalMiles: real, averagePrice: Option<real>): seq<FuelNode> {
    [StartNode(candidates, averagePrice)] + StationNodes(candidates, routeTotalMiles) + [EndNode(routeTotalMiles)]
  }

  /** The node list handed to the planner. */
  function Waypoints(candidates: seq<StationCandidate>, routeTotalMiles: real, averagePrice: Option<real>): seq<FuelNode> {
    Sort(UnsortedWaypoints(candidates, routeTotalMiles, averagePrice), DistanceLe)
  }

  /** The node-list construction of `build_trip_plan`: appends in a loop, then sorts. */
  method BuildNodes(candidates: seq<StationCandidate>, routeTotalMiles: real, averagePrice: Option<real>)
    returns (nodes: seq<FuelNode>)
    ensures nodes == Waypoints(candidates, routeTotalMiles, averagePrice)
  {
    nodes := [FuelNode("start", 0.0, Some(EstimateStartPrice(candidates, averagePrice)), true, None)];
    for i := 0 to |candidates|
      invariant nodes == [StartNode(candidates, averagePrice)] + StationNodes(candidates[..i], routeTotalMiles)
    {
      var candidate := candidates[i];
      assert candidates[..i + 1][..i] == candidates[..i];
      if 0.1 < candidate.alongDistanceMiles < routeTotalMiles - 0.1 {
        nodes := nodes + [FuelNode("station-" + IntToDecimal(candidate.stationId), candidate.alongDistanceMiles,
                                   Some(candidate.pricePerGallon), true, Some(candidate))];
      }
    }
    assert candidates[..|candidates|] == candidates;
    nodes := nodes + [FuelNode("end", routeTotalMiles, None, false, None)];
    nodes := Sort(nodes, DistanceLe);
  }

  /** A node is a station node exactly when it comes from a candidate strictly inside the route. */
  lemma {:induction false} StationNodesAreInsideCandidates(candidates: seq<StationCandidate>, routeTotalMiles: real)
    ensures forall n :: n in StationNodes(candidates, routeTotalMiles) <==>
      exists c :: c in candidates && StrictlyInside(c, routeTotalMiles) && n == StationNode(c)
  {
    if candidates != [] {
      var init := candidates[..|candidates| - 1];
      StationNodesAreInsideCandidates(init, routeTotalMiles);
      assert forall c :: c in candidates <==> c in init || c == candidates[|candidates| - 1];
    }
  }

  /** Station nodes lie strictly between 0.1 miles and the route length minus 0.1 miles. */
  lemma {:induction false} StationNodesInside(candidates: seq<StationCandidate>, routeTotalMiles: real)
    ensures forall n :: n in StationNodes(candidates, routeTotalMiles) ==>
      STATION_END_MARGIN_MILES < n.distanceMiles < routeTotalMiles - STATION_END_MARGIN_MILES
      && n.purchasable && n.pricePerGallon.Some? && n.station.Some?
  {
    if candidates != [] {
      StationNodesInside(candidates[..|candidates| - 1], routeTotalMiles);
    }
  }

  function CountInside(candidates: seq<StationCandidate>, routeTotalMiles: real): nat {
    if candidates == [] then 0
    else
      var init := CountInside(candidates[..|candidates| - 1], routeTotalMiles);
      if StrictlyInside(candidates[|candidates| - 1], routeTotalMiles) then init + 1 else init
  }

  /**
   * The planner receives two nodes more than there are candidates strictly
   * inside the route, in ascending order of distance, and no node is lost or
   * invented by the sort.
   */
  lemma WaypointsShape(candidates: seq<StationCandidate>, routeTotalMiles: real, averagePrice: Option<real>)
    ensures var nodes := Waypoints(candidates, routeTotalMiles, averagePrice);
      && |nodes| == 2 + CountInside(candidates, routeTotalMiles)
      && SortedBy(nodes, DistanceLe)
      && multiset(nodes) == multiset(UnsortedWaypoints(candidates, routeTotalMiles, averagePrice))
  {
    StationNodesCount(candidates, routeTotalMiles);
    SortIsSorted(UnsortedWaypoints(candidates, routeTotalMiles, averagePrice), DistanceLe);
  }

  lemma {:induction false} StationNodesCount(candidates: seq<StationCandidate>, routeTotalMiles: real)
    ensures |StationNodes(candidates, routeTotalMiles)| == CountInside(candidates, routeTotalMiles)
  {
    if candidates != [] {
      StationNodesCount(candidates[..|candidates| - 1], routeTotalMiles);
    }
  }

  /**
   * For a route of non-negative length, sorting keeps the start node first and
   * the end node last: every station node lies strictly between them.
   */
  lemma WaypointsStartAndEnd(candidates: seq<StationCandidate>, routeTotalMiles: real, averagePrice: Option<real>)
    requires routeTotalMiles >= 0.0
    ensures var nodes := Waypoints(candidates, routeTotalMiles, averagePrice);
      && nodes[0] == StartNode(candidates, averagePrice)
      && nodes[|nodes| - 1] == EndNode(routeTotalMiles)
  {
    var unsorted := UnsortedWaypoints(candidates, routeTotalMiles, averagePrice);
    var stations := StationNodes(candidates, routeTotalMiles);
    StationNodesInside(candidates, routeTotalMiles);
    forall i | 0 <= i < |unsorted|
      ensures DistanceLe(unsorted[0], unsorted[i]) && DistanceLe(unsorted[i], unsorted[|unsorted| - 1])
    {
      if 0 < i < |unsorted| - 1 {
        assert unsorted[i] == stations[i - 1];
        assert unsorted[i] in stations;
      }
    }
    SortKeepsLeastFirst(unsorted, DistanceLe);
    SortKeepsGreatestLast(unsorted, DistanceLe);
  }

  /** A station's key names its id: different ids give different keys, and never "start" or "end". */
  lemma StationKeysIdentifyStations(a: int, b: int)
    ensures StationKey(a) == StationKey(b) <==> a == b
    ensures StationKey(a) != "start" && StationKey(a) != "end"
  {
    if StationKey(a) == StationKey(b) {
      assert IntToDecimal(a) == StationKey(a)[8..];
      assert IntToDecimal(b) == StationKey(b)[8..];
      ParseIntOfDecimal(a);
      ParseIntOfDecimal(b);
    }
    assert StationKey(a)[3] == 't';
  }

  // ---------------------------------------------------------------- stops

  const KIND_TRIP_START: string := "trip_start_estimate"
  const KIND_FUEL_STATION: string := "fuel_station"

  /** One serialised stop (before rounding; station details sit in `station`). */
  datatype Stop = Stop(
    sequence: int,
    kind: string,
    station: Option<StationCandidate>,
    pricePerGallon: real,
    gallonsPurchased: real,
    estimatedCost: real,
    distanceFromStartMiles: real,
    latitude: real,
    longitude: real)

  /**
   * `_serialize_stop_action`. A stop at a node without a station is the trip
   * start; the source reads that node's price, so it must have one.
   */
  function SerializeStopAction(action: StopAction, sequence: int, originLatitude: real, originLongitude: real): (s: Stop)
    requires action.node.station.None? ==> action.node.pricePerGallon.Some?
    ensures s.sequence == sequence
    ensures s.kind == KIND_TRIP_START <==> action.node.station.None?
    ensures s.kind == KIND_FUEL_STATION <==> action.node.station.Some?
    ensures s.gallonsPurchased == action.gallonsPurchased && s.estimatedCost == action.purchaseCost
  {
    match action.node.station
    case None =>
      Stop(sequence, KIND_TRIP_START, None, action.node.pricePerGallon.value, action.gallonsPurchased,
           action.purchaseCost, 0.0, originLatitude, originLongitude)
    case Some(station) =>
      Stop(sequence, KIND_FUEL_STATION, Some(station), station.pricePerGallon, action.gallonsPurchased,
           action.purchaseCost, station.alongDistanceMiles, station.latitude, station.longitude)
  }

  /** The trip-start stop sits at mile 0.0 at the origin; a station stop at the station's along distance and position. */
  lemma StopPlacement(action: StopAction, sequence: int, originLatitude: real, originLongitude: real)
    requires action.node.station.None? ==> action.node.pricePerGallon.Some?
    ensures var s := SerializeStopAction(action, sequence, originLatitude, originLongitude);
      && (action.node.station.None? ==>
            s.distanceFromStartMiles == 0.0 && s.latitude == originLatitude && s.longitude == originLongitude
            && s.pricePerGallon == action.node.pricePerGallon.value)
      && (action.node.station.Some? ==>
            var st := action.node.station.value;
            s.distanceFromStartMiles == st.alongDistanceMiles && s.latitude == st.latitude && s.longitude == st.longitude
            && s.pricePerGallon == st.pricePerGallon)
  {
  }

  predicate Serializable(actions: seq<StopAction>) {
    forall i :: 0 <= i < |actions| ==> (actions[i].node.station.None? ==> actions[i].node.pricePerGallon.Some?)
  }

  /** The `stops` list: `enumerate(actions, start=1)`. */
  function SerializeStops(actions: seq<StopAction>, originLatitude: real, originLongitude: real): (stops: seq<Stop>)
    requires Serializable(actions)
    ensures |stops| == |actions|
    ensures forall i :: 0 <= i < |stops| ==> stops[i].sequence == i + 1
    ensures forall i :: 0 <= i < |stops| ==> stops[i] == SerializeStopAction(actions[i], i + 1, originLatitude, originLongitude)
  {
    seq(|actions|, i requires 0 <= i < |actions| => SerializeStopAction(actions[i], i + 1, originLatitude, originLongitude))
  }

  /** Every action the planner returns can be serialised: it was bought at a priced node. */
  lemma PlanActionsSerializable(nodes: seq<FuelNode>, mpg: real, maxRangeMiles: real)
    requires Plan(nodes, mpg, maxRangeMiles).Ok?
    ensures Serializable(Plan(nodes, mpg, maxRangeMiles).value.stopActions)
  {
    PlanActionsInNodeOrder(nodes, mpg, maxRangeMiles);
  }

  /** The fuel-plan part of the response. */
  datatype TripFuelPlan = TripFuelPlan(totalGallons: real, totalCost: real, stops: seq<Stop>, candidatesConsidered: nat)

  /**
   * The planning part of `build_trip_plan`: waypoints, the planner, and the
   * numbered stops. A planner error is passed on.
   */
  method PlanTrip(candidates: seq<StationCandidate>, routeTotalMiles: real, averagePrice: Option<real>,
                  mpg: real, maxRangeMiles: real, originLatitude: real, originLongitude: real)
    returns (r: Result<TripFuelPlan, FuelPlanningError>)
    ensures var plan := Plan(Waypoints(candidates, routeTotalMiles, averagePrice), mpg, maxRangeMiles);
      && (plan.Err? ==> r == Err(plan.error))
      && (plan.Ok? ==>
            && r.Ok?
            && r.value.totalGallons == plan.value.totalGallons
            && r.value.totalCost == plan.value.totalCost
            && r.value.candidatesConsidered == |candidates|
            && Serializable(plan.value.stopActions)
            && r.value.stops == SerializeStops(plan.value.stopActions, originLatitude, originLongitude))
  {
    var nodes := BuildNodes(candidates, routeTotalMiles, averagePrice);
    var plan := OptimizeFuelPlan(nodes, mpg, maxRangeMiles);
    if plan.Err? {
      return Err(plan.error);
    }
    PlanActionsSerializable(nodes, mpg, maxRangeMiles);
    var stops := SerializeStops(plan.value.stopActions, originLatitude, originLongitude);
    r := Ok(TripFuelPlan(plan.value.totalGallons, plan.value.totalCost, stops, |candidates|));
  }
}
