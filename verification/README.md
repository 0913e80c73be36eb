# Fuel-stop planning for a road trip, in Dafny

This project models the decision-making core of a Django service that plans
fuel stops along a US road trip. Given the two ends of a trip, the service:

1. geocodes them, first from a local postal-code table and then from a
   remote geocoder, with a cache in front;
2. fetches a route;
3. finds the fuel stations inside a corridor around the route;
4. runs a greedy planner over the stations, the start and the end.

The model covers:

- the planner itself (`optimize_fuel_plan`): the forward simulation that
  decides, node by node, how many gallons to buy;
- the route arithmetic it needs:
  - running totals of the route's legs;
  - the route's bounding box;
  - the sampled route vertices a station is projected onto;
  - the corridor filter;
  - the per-bucket pruning of candidate stations;
  - the start-price estimate;
- the waypoint list handed to the planner, and how its purchases are
  numbered into stops;
- the local city lookup: name normalisation, spelling variants, the index
  built from the postal table, and lookup order;
- the `City, ST` query parser, the cache key and the order of the geocoding
  sources;
- the request validator that pins the vehicle to the required economy and
  range, with the field bounds of the request;
- the typed environment-variable readers of the settings module.

Imperative source code is modelled by Dafny methods with loops, each proved
equal to a specification function. Two of these are classes:

- the city locator, whose constructor fills its index;
- the geocoding cache, which `GeocodeLocation` updates in place.

The properties the source promises are proved as lemmas about the
specification functions.

Modelling choices:

- **Numbers and strings.**
  - Python floats are modelled as exact `real`s.
  - The tolerance `1e-6` is the real constant `0.000001`.
  - Python's `sorted` is a stable insertion sort (`Sorting.Sort`).
  - `str.strip`, `split`, `lower`, `upper` and `int()` are written out in
    module `Text`.
- **Collaborators become parameters.** Everything the core calls but does
  not decide is passed in:
  - the haversine distance and `cos(radians(_))`;
  - the SHA-256 digest;
  - the remote geocoder;
  - `float()` parsing and `{:g}` formatting;
  - the station rows returned by the database query;
  - the database average price;
  - the rows of the postal table.
- **Code over prose.** Where the project's prose describes more than its
  code (a local-search refiner, stop penalties, minimum stop sizes, detour
  limits), the model follows the code. None of these exist in
  `optimize_fuel_plan` or `build_trip_plan`; the request fields that carry
  them are only bounds-checked.

## Model

| member | source | states |
|---|---|---|
| Optimizer.FirstCheaper | planner/domain/optimizer.py:48-54 | a node it returns lies in the reachable window and is priced strictly below the current price |
| Optimizer.CollectReachable | planner/domain/optimizer.py:36-43 | the `while probe` loop computes the reachable window: every index is after `idx` and inside the node list |
| Optimizer.FindCheaper | planner/domain/optimizer.py:48-54 | the `for reachable_idx` loop returns the first window entry priced below the current node (none when the current node has no price) |
| Optimizer.ChooseTargetFuel | planner/domain/optimizer.py:56-61 | the target fuel chosen from the window is the specification's `TargetFuel` |
| Optimizer.OptimizeFuelPlan | planner/domain/optimizer.py:8-87 | the imperative simulation returns exactly `Plan`; mpg ≤ 0, range ≤ 0 and fewer than two nodes fail with their own error, in that order, before any simulation |
| Optimizer.RunErrorPersists | planner/domain/optimizer.py:26-85 | the first error raised is the planner's answer: later segments never replace it |
| OptimizerProperties.WindowShape | planner/domain/optimizer.py:36-43 | the window is the run of consecutive in-range nodes after `idx`, stopping at the first node out of range or at the end of the list |
| OptimizerProperties.ReachableIsWindow | planner/domain/optimizer.py:36-43 | the window lists, in order, exactly the nodes reachable from `idx` without passing a node out of range |
| OptimizerProperties.FirstCheaperFindsFirst | planner/domain/optimizer.py:50-54 | the search stops at the first cheaper entry in window order (`break`) |
| OptimizerProperties.FirstCheaperNone | planner/domain/optimizer.py:48-54 | nothing is found exactly when no window entry is priced strictly below |
| OptimizerProperties.TargetFuelFirstCheaper | planner/domain/optimizer.py:56-58 | at a priced node with a strictly cheaper reachable node, the target is just enough fuel to reach the first such node |
| OptimizerProperties.TargetFuelNoCheaper | planner/domain/optimizer.py:59-61 | otherwise the target is the fuel to the end when the end is within range + 1e-6, else a full tank `max_range/mpg` |
| OptimizerProperties.StepPurchase | planner/domain/optimizer.py:63-79 | the planner buys `max(0, target − tank)` only when it exceeds 1e-6, at gallons × price, and records it once; such a shortfall at a non-purchasable or unpriced node raises |
| OptimizerProperties.BuyKeepsInvariant | planner/domain/optimizer.py:63-79 | a recorded purchase keeps the totals equal to the sums over the actions, and actions in node order and well formed |
| OptimizerProperties.StepKeepsInvariant | planner/domain/optimizer.py:26-85 | a successful segment keeps the tank non-negative, the totals equal to the sums and the actions in node order |
| OptimizerProperties.RunKeepsInvariant | planner/domain/optimizer.py:26-85 | the same invariant holds after every successful prefix of segments |
| OptimizerProperties.RunNeverLacksReachableNode | planner/domain/optimizer.py:33-46 | once a segment passes its range check, the next node is in the window, so "No reachable node" is never raised |
| OptimizerProperties.PlanNeverLacksReachableNode | planner/domain/optimizer.py:45-46 | the planner never answers "No reachable node within max range" |
| OptimizerProperties.RunOkSegmentsFeasible | planner/domain/optimizer.py:29-34 | every segment simulated without error is ordered and within range, up to 1e-6 |
| OptimizerProperties.PlanOkSegmentsFeasible | planner/domain/optimizer.py:29-34 | a successful plan had every segment ordered and within range, up to 1e-6 |
| OptimizerProperties.BadSegmentFails | planner/domain/optimizer.py:29-34 | the first segment below −1e-6 makes the plan fail as unordered; the first segment above range + 1e-6 makes it fail as out of range |
| OptimizerProperties.PlanTotalsAreSums | planner/domain/optimizer.py:69-79 | the returned total gallons and total cost are the sums over the returned actions |
| OptimizerProperties.PlanActionsInNodeOrder | planner/domain/optimizer.py:26-79 | each action buys more than 1e-6 at a purchasable priced node at gallons × price; actions follow node order, at most one per node, never at the last node |
| OptimizerProperties.TankNeverNegative | planner/domain/optimizer.py:81-85 | after every successful segment the tank is non-negative |
| OptimizerProperties.TargetFuelWithinCapacity | planner/domain/optimizer.py:56-61 | the fuel the planner aims for is at most `(max_range + 1e-6) / mpg` |
| OptimizerProperties.TankWithinCapacity | planner/domain/optimizer.py:63-85 | on a route whose distances never decrease, the tank never holds more than `(max_range + 1e-6) / mpg` after a successful segment |
| OptimizerProperties.CheaperStationAheadScenario | planner/tests/test_optimizer.py:8-26 | nodes at 0/200/450/700/900 miles priced 4.5/4.0/3.0/5.0/none, at 10 mpg and 500 miles: buys 20, 25 and 45 gallons at start, s1 and s2, for 90 gallons and 325 in all |
| OptimizerProperties.SegmentTooLongScenario | planner/tests/test_optimizer.py:28-35 | nodes 700 miles apart with a 500-mile range fail with the segment-exceeds-range error |
| Distance.CumulativeRouteDistances | planner/services/distance.py:17-28 | the output has one running total per vertex, starting at 0.0, each the previous one plus the leg between them read as `[lon, lat]`; an empty route gives `[]` |
| Distance.CumulativeIsUnique | planner/services/distance.py:17-28 | the running totals are determined by the route and the distance function |
| Distance.CumulativeNonDecreasing | planner/services/distance.py:23-27 | with a non-negative distance function the running totals never decrease |
| Distance.PathLengthSnoc | planner/services/distance.py:23-27 | a path's length is the length without its last vertex plus the last leg |
| Distance.CumulativeIsPrefixLength | planner/services/distance.py:23-27 | every running total is the length of the route up to that vertex |
| Distance.CumulativeLastIsPathLength | planner/services/distance.py:23-27 | the last running total is the sum of all leg lengths |
| StationLocator.MinOf | planner/services/station_locator.py:23-26 | `min` of a non-empty list is a lower bound of it |
| StationLocator.MaxOf | planner/services/station_locator.py:23-26 | `max` of a non-empty list is an upper bound of it |
| StationLocator.MinMaxAttained | planner/services/station_locator.py:23-26 | `min` and `max` are elements of the list |
| StationLocator.BboxFromRoute | planner/services/station_locator.py:16-37 | the box fails (Python's `ValueError`) exactly for an empty route |
| StationLocator.BboxContainsRoute | planner/services/station_locator.py:16-37 | with a non-negative corridor every route vertex lies inside the box |
| StationLocator.LonPadBounds | planner/services/station_locator.py:30 | the longitude pad is non-negative and at most corridor/15 |
| StationLocator.BboxLatPadding | planner/services/station_locator.py:23-34 | the latitude bounds are the route's extremes widened by corridor/69 |
| StationLocator.BboxLonPadding | planner/services/station_locator.py:25-36 | the longitude bounds widen the route's extremes by one non-negative pad of at most corridor/15 on both sides |
| StationLocator.SampleStep | planner/services/station_locator.py:49 | the sampling step is at least 1 |
| StationLocator.StridedShape | planner/services/station_locator.py:50 | `range(0, n, step)` starts at 0 and is strictly increasing below `n` |
| StationLocator.SampleIndexesShortRoute | planner/services/station_locator.py:44-47 | an empty route gives no samples; a route of at most `max_samples` vertices gives exactly 0..n−1 |
| StationLocator.SampleIndexesLongRoute | planner/services/station_locator.py:49-53 | a longer route gives strictly increasing in-range indexes that start at 0 and end at n−1 |
| StationLocator.SampleCountNotCapped | planner/services/station_locator.py:49-50 | the sample count is not bounded by `max_samples`: 699 vertices with 350 give 699 samples |
| StationLocator.BuildSampleIndexes | planner/services/station_locator.py:40-53 | the method returns the specified indexes, failing (Python's `ZeroDivisionError`) only for a zero `max_samples` on a route longer than it |
| StationLocator.ProjectStationToRoute | planner/services/station_locator.py:56-73 | the loop over the samples computes the specified projection |
| StationLocator.NearestOfNoSamples | planner/services/station_locator.py:63-73 | with no samples the projection is (infinity, 0.0) |
| StationLocator.NearestBelow | planner/services/station_locator.py:66-71 | after at least one sample the distance is finite and below any bound every visited sample exceeds |
| StationLocator.NearestIsFirstMinimum | planner/services/station_locator.py:66-73 | the projection is the minimum sampled distance with the cumulative distance of the FIRST sample attaining it; later ties do not replace it |
| StationLocator.CorridorCandidates | planner/services/station_locator.py:119-147 | no more candidates than rows, each within the corridor |
| StationLocator.CorridorKeepsExactlyNear | planner/services/station_locator.py:122-147 | a row becomes a candidate exactly when its projected distance does not exceed the corridor |
| StationLocator.FilterCorridor | planner/services/station_locator.py:119-147 | the filter loop builds exactly the specified candidates, in row order |
| StationLocator.FetchRouteStationCandidates | planner/services/station_locator.py:93-149 | an empty route fails; otherwise the result is the pruned corridor candidates under the specified sample indexes |
| StationLocator.Take | planner/services/station_locator.py:88 | `s[:n]` is the prefix of `s` of length `min(n, len(s))` |
| StationLocator.InBucket | planner/services/station_locator.py:77-80 | a bucket holds only candidates of the input whose bucket ⌊along/35⌋ it is |
| StationLocator.BucketKeys | planner/services/station_locator.py:77-80 | the bucket keys are exactly the buckets some candidate falls into |
| StationLocator.InBucketOfAbsentKey | planner/services/station_locator.py:77-80 | a bucket no candidate falls into is empty |
| StationLocator.BucketCandidates | planner/services/station_locator.py:77-80 | the `setdefault().append` loop builds, per bucket, its candidates in input order, and keys in first-appearance order |
| StationLocator.SelectPerBucket | planner/services/station_locator.py:82-88 | the `extend` loop concatenates each bucket's three best by (price, offset), in ascending bucket order |
| StationLocator.PruneCandidates | planner/services/station_locator.py:76-90 | the method returns the specified pruning |
| StationLocator.NearStart | planner/services/station_locator.py:153 | the near-start list holds exactly the candidates within 40 miles of the start |
| StationLocator.MinPrice | planner/services/station_locator.py:155 | the minimum is one of the prices and no price is below it |
| StationLocator.EstimateStartPrice | planner/services/station_locator.py:152-158 | with a candidate within 40 miles, the result is the lowest such price; otherwise it is the database average, or 3.5 when there is none |
| PruneProperties.PriceOffsetIsTotal | planner/services/station_locator.py:84-87 | the (price, offset) key is a total preorder, so the sort orders by it |
| PruneProperties.AlongIsTotal | planner/services/station_locator.py:90 | the along-distance key is a total preorder |
| PruneProperties.BucketKeysDistinct | planner/services/station_locator.py:77-80 | each bucket key appears once |
| PruneProperties.InBucketOfSelected | planner/services/station_locator.py:82-88 | bucket `b` of the selection is that bucket's own contribution |
| PruneProperties.PruneBucket | planner/services/station_locator.py:76-90 | what survives of bucket `b` is, as a multiset, its three best by (price, offset) |
| PruneProperties.PruneKeepsAtMostThreePerBucket | planner/services/station_locator.py:82-88 | at most three candidates survive per 35-mile bucket |
| PruneProperties.PruneBucketSize | planner/services/station_locator.py:82-88 | a bucket of more than three candidates keeps exactly three; a smaller bucket keeps all of its own |
| PruneProperties.PruneKeepsSmallBuckets | planner/services/station_locator.py:82-88 | a bucket of at most three candidates survives whole |
| PruneProperties.PruneDropsOnlyWorse | planner/services/station_locator.py:83-88 | within a bucket, every dropped candidate is at least as expensive as every kept one, and at least as far off the route at equal price |
| PruneProperties.PruneIsSubMultiset | planner/services/station_locator.py:76-90 | pruning invents and duplicates nothing: the output is a sub-multiset of the input |
| PruneProperties.PruneSortedByAlong | planner/services/station_locator.py:90 | the output is sorted by distance along the route |
| Sorting.Sort | planner/services/station_locator.py:84-87 | `sorted` returns a permutation of its input |
| Sorting.SortIsSorted | planner/services/trip_planner.py:117 | for a total preorder key, the output of `sorted` is in ascending order |
| Sorting.SortKeepsLeastFirst | planner/services/trip_planner.py:117 | stability: a first element that is a minimum stays first |
| Sorting.SortKeepsGreatestLast | planner/services/trip_planner.py:117 | stability: a last element that is a maximum stays last |
| Sorting.SortIsStable | planner/services/station_locator.py:84-87 | stability: for every `x`, the elements whose key equals `x`'s come out in their input order |
| TripPlanner.BuildNodes | planner/services/trip_planner.py:85-117 | the append loop and sort build exactly the specified waypoint list |
| TripPlanner.StationNodesAreInsideCandidates | planner/services/trip_planner.py:96-106 | a station node exists exactly for each candidate with 0.1 < along < total − 0.1, keyed "station-<id>" with the candidate's distance and price |
| TripPlanner.StationNodesInside | planner/services/trip_planner.py:96-106 | every station node lies strictly inside the 0.1-mile margins, purchasable, priced, with its station |
| TripPlanner.StationNodesCount | planner/services/trip_planner.py:96-106 | one station node per candidate strictly inside the route |
| TripPlanner.WaypointsShape | planner/services/trip_planner.py:86-117 | the planner receives 2 + (kept candidates) nodes, ascending by distance, a permutation of start, stations and end |
| TripPlanner.WaypointsStartAndEnd | planner/services/trip_planner.py:86-117 | for a route of non-negative length the sorted list still starts with the start node (mile 0, purchasable, estimated price) and ends with the end node (route total, unpriced, not purchasable) |
| TripPlanner.StationKeysIdentifyStations | planner/services/trip_planner.py:100 | different station ids give different keys, and no key is "start" or "end" |
| TripPlanner.SerializeStopAction | planner/services/trip_planner.py:16-58 | an action at a node without a station is a "trip_start_estimate" stop, one with a station a "fuel_station" stop; sequence, gallons and cost are carried over |
| TripPlanner.StopPlacement | planner/services/trip_planner.py:24-58 | the trip-start stop sits at mile 0.0 at the origin with the node's price; a station stop at the station's along distance, position and price |
| TripPlanner.SerializeStops | planner/services/trip_planner.py:153-161 | one stop per action, numbered consecutively from 1 in action order |
| TripPlanner.PlanActionsSerializable | planner/services/trip_planner.py:119-161 | every action the planner returns has a price, so it can be serialised |
| TripPlanner.PlanTrip | planner/services/trip_planner.py:85-161 | a planner error is passed on; otherwise the totals are the planner's, the stops are its actions numbered from 1, and the candidate count is reported |
| Text.Strip | planner/services/geocoding.py:91 | `strip()` leaves nothing to strip and never lengthens the text |
| Text.StripSplit | planner/services/geocoding.py:91 | what `strip()` removes is whitespace on both sides of what it keeps |
| Text.StripIdempotent | planner/services/geocoding.py:91 | stripping twice is stripping once |
| Text.StripIgnoresPadding | spotter_api/settings.py:14 | whitespace around a text does not change what `strip()` keeps |
| Text.Split | spotter_api/settings.py:19 | `split(",")` yields one more piece than there are commas, none containing a comma |
| Text.JoinSplit | spotter_api/settings.py:19 | joining the pieces of a split gives the text back |
| Text.ParseIntOfDecimal | spotter_api/settings.py:26 | `int(str(n)) == n` |
| Text.FirstIndex | planner/services/city_locator.py:56 | the first position holding `x`: nothing before it holds `x`, and it is `len(s)` exactly when `x` is absent |
| Text.NonEmpty | planner/services/city_locator.py:56 | the filter `if variant`: the non-empty texts, each as often as in the input |
| Text.NonEmptyAppend | planner/services/city_locator.py:56 | the filter keeps order: filtering a concatenation concatenates the filtered parts |
| Text.NonEmptyKeepsFirstOrder | planner/services/city_locator.py:56 | the filter keeps the order in which the surviving texts first appear |
| CityLocation.ReplaceRuns | planner/services/city_locator.py:42-43 | after replacing runs of a character class by a space, every character of the result is a space or outside the class |
| CityLocation.ReplaceRunsKeepsProperty | planner/services/city_locator.py:42-43 | apart from the inserted spaces, the result holds only characters of the input |
| CityLocation.ReplaceSpaceRunsSingleSpaced | planner/services/city_locator.py:43 | after replacing whitespace runs, no two whitespace characters are adjacent |
| CityLocation.NormalizeCityIsNormalized | planner/services/city_locator.py:40-44 | a normalised name has only a–z, 0–9 and single spaces, with no leading or trailing space |
| CityLocation.NormalizeCityFixesNormalized | planner/services/city_locator.py:40-44 | a name already in that form normalises to itself |
| CityLocation.NormalizeCityIdempotent | planner/services/city_locator.py:40-44 | normalising twice is normalising once |
| CityLocation.Dedup | planner/services/city_locator.py:56 | `dict.fromkeys` keeps exactly the input's values, each once, in order of first occurrence |
| CityLocation.CityVariants | planner/services/city_locator.py:46-56 | the variants are exactly the non-empty raw spellings, each once, in order of first appearance |
| CityLocation.CityVariantsStartWithName | planner/services/city_locator.py:48-56 | a non-empty name is its own first variant; an empty name has none |
| CityLocation.CityVariantsDerived | planner/services/city_locator.py:49-54 | "st X" adds "saint X", "saint X" adds "st X", "X city" adds "X" |
| CityLocation.CityIndexGroupsRows | planner/services/city_locator.py:25-33 | a (state, city) key is indexed exactly when an indexed row has it, with those rows' coordinates in row order; rows with an empty state or city leave no trace |
| CityLocation.StateCoordinatesGroupRows | planner/services/city_locator.py:25-33 | each state's list holds the coordinates of its indexed rows, in row order |
| CityLocation.StateFallbackIsMean | planner/services/city_locator.py:35-38 | a state has a fallback exactly when it has indexed rows, and it is their mean position |
| CityLocation.IndexedRowIsListed | planner/services/city_locator.py:25-33 | every indexed row is found under its own key |
| CityLocation.FirstHitOrder | planner/services/city_locator.py:62-69 | the answer is the mean of the first variant with entries; only when none has any is it the state's fallback, or nothing |
| CityLocation.IndexRows | planner/services/city_locator.py:25-33 | the row loop builds the specified index and per-state lists |
| CityLocation.MeanByState | planner/services/city_locator.py:35-38 | the closing loop maps each state to the mean of its coordinates |
| CityLocation.CityLocator.constructor | planner/services/city_locator.py:17-38 | a new locator holds the index and state fallback of its rows |
| CityLocation.CityLocator.Lookup | planner/services/city_locator.py:58-69 | the lookup normalises state and city and returns the specified answer |
| Geocoding.ParseCityState | planner/services/geocoding.py:37-41 | a parsed state has two characters |
| Geocoding.ParseCityStateComplete | planner/services/geocoding.py:37-41 | every query of the shape `ws city ws , ws LL ws` (city without comma, LL two ASCII letters) parses to the stripped city and the upper-cased letters |
| Geocoding.ParseCityStateSound | planner/services/geocoding.py:37-41 | every query that parses has that shape, and the result is read off its pieces |
| Geocoding.ParseCityStateResult | planner/services/geocoding.py:41 | a parsed city has no comma and the state is two upper-case letters |
| Geocoding.ParseCityStateBlankCity | planner/services/geocoding.py:37-41 | the city may be empty: "  , TX" parses to ("", "TX") |
| Geocoding.ParseCityStateNeedsOneComma | planner/services/geocoding.py:12 | a query without a comma, or with several, does not parse |
| Geocoding.CacheKey | planner/services/geocoding.py:32-34 | every key starts with "geocode::" |
| Geocoding.CacheKeyIgnoresCase | planner/services/geocoding.py:33 | letter case does not change the key |
| Geocoding.CacheKeyIgnoresPadding | planner/services/geocoding.py:33 | whitespace around the query does not change the key |
| Geocoding.LocalLookupIn | planner/services/geocoding.py:44-59 | nothing exactly when the query does not parse or the locator has no answer; otherwise the locator's coordinates, displayed as `city + ", " + state` and labelled "pgeocode-local" |
| Geocoding.EmptyQueryFails | planner/services/geocoding.py:91-93 | a blank query fails before any lookup and leaves the cache alone |
| Geocoding.LocalHitSkipsRemote | planner/tests/test_geocoding.py:13-26 | a local hit is the answer and the remote geocoder is not asked |
| Geocoding.RemoteOnlyAfterLocalMiss | planner/services/geocoding.py:95-110 | the remote geocoder is asked exactly when the query is not blank, not cached and not found locally; an error means every source missed |
| Geocoding.SuccessIsCached | planner/services/geocoding.py:100-108 | a success is cached under the query's key; a failure leaves the cache unchanged |
| Geocoding.RepeatIsServedFromCache | planner/services/geocoding.py:95-98 | asking again after a success gives the same answer from the cache, with no lookup |
| Geocoding.LocalLookup | planner/services/geocoding.py:44-59 | the method returns the specified local answer from the locator's index and fallback |
| Geocoding.GeocodeLocation | planner/services/geocoding.py:90-110 | result, new cache contents and whether the remote geocoder was asked are those of the specification |
| Serializers.FieldErrors | planner/api/serializers.py:7-32 | only declared fields are ever reported |
| Serializers.FieldErrorsIff | planner/api/serializers.py:7-32 | no field error exactly when the lengths are at most 255, mpg ≥ 1, range ≥ 50, the route mode is a choice and the other numbers are ≥ 0 |
| Serializers.Validated | planner/api/serializers.py:34-50 | with enforcement off the attributes pass unchanged; otherwise they pass, unchanged, exactly when neither value is more than 1e-6 off; an "mpg" error is present exactly when mpg is off, a "max_range_miles" error exactly when the range is off, and both are reported together |
| Serializers.Validate | planner/api/serializers.py:34-50 | the method fills the error dictionary field by field and answers as specified |
| Serializers.CheckRequest | planner/api/serializers.py:7-50 | a request out of bounds fails with the names of exactly the broken fields; one within bounds passes, unchanged, exactly when enforcement is off or neither constraint is violated, and otherwise fails under exactly the violated fields |
| Serializers.RejectsEightMpg | planner/tests/test_api.py:160-171 | with the shipped settings a request at 8 mpg is refused under "mpg" only |
| Serializers.RejectsShortRange | planner/tests/test_api.py:173-184 | a request with a 450-mile range is refused under "max_range_miles" only |
| Serializers.ReportsBothViolations | planner/api/serializers.py:41-48 | a request off on both values reports both |
| Serializers.ShippedDefaultRequestPasses | planner/api/serializers.py:7-35 | a request that sets only its two locations takes the shipped defaults, which meet every bound and the assignment constraint |
| Serializers.DefaultsPass | planner/api/serializers.py:10-50 | a request at the required values passes whenever those values meet the field bounds |
| Settings.EnvBool | spotter_api/settings.py:10-14 | unset gives the default; set gives true exactly for 1/true/yes/on after strip and lower, whatever the default |
| Settings.EnvBoolIgnoresCaseAndPadding | spotter_api/settings.py:14 | case and surrounding whitespace do not matter |
| Settings.EnvBoolOtherWordIsFalse | spotter_api/settings.py:14 | any other set value, even empty, is false with a true default |
| Settings.EnvList | spotter_api/settings.py:17-19 | at most (commas + 1) items, each non-empty and stripped; the unset default is read like a set value |
| Settings.EnvListOfPaddedJoin | spotter_api/settings.py:17-19 | a comma-joined list reads back piece by piece: each piece stripped, blank pieces dropped, order kept |
| Settings.EnvListOfPaddedText | spotter_api/settings.py:17-19 | " a , ,b " reads as ["a", "b"] |
| Settings.NonBlankItemsKeepsClean | spotter_api/settings.py:19 | clean items are kept as they are, in order |
| Settings.EnvListHasNoComma | spotter_api/settings.py:19 | no item carries a comma |
| Settings.EnvListOfJoin | spotter_api/settings.py:17-19 | a comma-joined list of clean items reads back as that list |
| Settings.EnvListOfEmptyDefault | spotter_api/settings.py:46 | an unset variable with an empty default gives [] |
| Settings.EnvInt | spotter_api/settings.py:22-26 | unset gives the default; a set value gives `int(raw)` when it parses (never when blank) and a `ValueError` on its text otherwise |
| Settings.EnvIntOfDecimal | spotter_api/settings.py:26 | the decimal text of any integer reads back as that integer |
| Settings.EnvIntOfBlank | spotter_api/settings.py:26 | a blank value is a `ValueError`, not the default |
| Settings.EnvFloat | spotter_api/settings.py:29-33 | unset gives the default; a set value gives `float(raw)` when `float()` accepts it and a `ValueError` on its text otherwise |
| Settings.EnvOptionalFloat | spotter_api/settings.py:36-40 | unset or blank gives the default; otherwise `float(raw)` when `float()` accepts it and a `ValueError` on its text otherwise |
| Settings.EnvOptionalFloatOfWhitespace | spotter_api/settings.py:38-39 | whitespace alone never reaches the float parser |
| Settings.ShippedAllowedHosts | spotter_api/settings.py:45 | the shipped default host list reads as its three hosts |

## Left out

- The trigonometric body of `haversine_miles` and the `math.cos(math.radians(_))` of the bounding box: both are function parameters; only non-negativity of the distance is assumed, and only where a lemma says so.
- Floating-point rounding: the model computes with exact reals, so it does not capture rounding error in sums, products or comparisons against the 1e-6 tolerance.
- The `round(...)` calls of the response (stop prices, gallons, costs, distances): `TripPlanner.Stop` holds the unrounded values.
- The response's other parts (origin, destination, route geometry and duration, the assumption strings) and the stop labels and station detail fields: presentation only.
- The database: the bounding-box query of `fetch_route_station_candidates` and the `Avg` fallback price are inputs (`rows`, `averagePrice`). Row order is whatever the database returns. The box is computed, but that the rows lie inside it is not checked.
- Geocoding's network access (`_remote_lookup`, `raise_for_status`, JSON decoding) is the parameter `remote`. SHA-256 is the parameter `digest`.
- The cache's 24-hour timeout: cached entries never expire in the model.
- `if cached:` is modelled as key presence, since a cached `GeocodedPoint` is always truthy.
- The process-wide `lru_cache` around the city locator: the locator is an explicit argument.
- Loading the pgeocode table and its `dropna` are left out: the rows passed in are the table after `dropna`.
- `str(row.place_name)`, `float(row.latitude)` and similar conversions of the table are identity on the modelled values.
- Text handling is modelled for ASCII:
  - `lower()` and `upper()` change only A–Z and a–z;
  - `isspace`/`\s` use Python's whitespace set;
  - `int()` accepts ASCII digits with single underscores, an optional sign and surrounding whitespace;
  - non-ASCII letters and Unicode digits are not modelled.
- `float()` parsing and the `{:g}` formatting of error messages are parameters.
- Request handling before `validate` (required fields, blank strings, whitespace trimming, type coercion, defaults) is left out; the field bounds are modelled as a predicate on the attributes.
- The views, URL configuration and the error-to-status mapping of the API are left out.
- The routing providers (Mapbox and OSRM clients) and the import command are left out: they are HTTP and file I/O.
- There is no local-search refinement, stop penalty, minimum stop size or detour limit in the planner code, so none is modelled; `route_mode`, `max_stop_detour_miles`, `min_stop_gallons` and `stop_penalty_usd` appear only as request fields with bounds.
- OptimizerProperties.TankWithinCapacity: assumes node distances that never decrease. The planner accepts a segment as short as −1e-6, and each such segment can leave the tank up to 1e-6/mpg above the bound, so the bound is not stated for those routes.
- StationLocator.MinOf: states only the lower bound in its own contract; that the minimum is an element of the list is `StationLocator.MinMaxAttained`. The same split applies to `StationLocator.MaxOf`.
