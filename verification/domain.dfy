/** The immutable value records shared by the planner (planner/domain/types.py). */
module Domain {
  import opened Wrappers

  /** A fuel station projected onto the route; never changed after creation. */
  datatype StationCandidate = StationCandidate(
    stationId: int,
    opisTruckstopId: string,
    name: string,
    address: string,
    city: string,
    state: string,
    pricePerGallon: real,
    latitude: real,
    longitude: real,
    alongDistanceMiles: real,
    distanceToRouteMiles: real)

  /** A point along the route where the planner may buy fuel. */
  datatype FuelNode = FuelNode(
    key: string,
    distanceMiles: real,
    pricePerGallon: Option<real>,
    purchasable: bool,
    station: Option<StationCandidate>)

  /** One purchase decided by the planner. */
  datatype StopAction = StopAction(
    node: FuelNode,
    gallonsPurchased: real,
    purchaseCost: real)
}
