/**
 * The trip-plan request: the bounds its fields must meet and the assignment
 * constraint that pins the vehicle to the required fuel economy and range
 * (within 1e-6) while enforcement is switched on. The `{:g}` rendering of a
 * number in an error message is passed in as a function.
 */
module Serializers {
  import opened Wrappers

  const EPSILON: real := 0.000001
  const MPG_FIELD: string := "mpg"
  const RANGE_FIELD: string := "max_range_miles"
  const MAX_LOCATION_LENGTH: nat := 255

  /** The validated request attributes. `maxStopDetourMiles` may be null. */
  datatype TripPlanRequest = TripPlanRequest(
    startLocation: string,
    finishLocation: string,
    mpg: real,
    maxRangeMiles: real,
    routeMode: string,
    maxStopDetourMiles: Option<real>,
    minStopGallons: real,
    stopPenaltyUsd: real)

  /** The settings `validate` consults. */
  datatype AssignmentSettings = AssignmentSettings(enforce: bool, requiredMpg: real, requiredMaxRangeMiles: real)

  function Abs(x: real): real { if x < 0.0 then -x else x }

  /** Off from the required value by more than the tolerance. */
  predicate Violates(value: real, required: real) {
    Abs(value - required) > EPSILON
  }

  // ---------------------------------------------------------------- field bounds

  /** The field declarations' bounds: minimum values, the route-mode choices and the length limit. */
  predicate WithinFieldBounds(req: TripPlanRequest) {
    && |req.startLocation| <= MAX_LOCATION_LENGTH
    && |req.finishLocation| <= MAX_LOCATION_LENGTH
    && req.mpg >= 1.0
    && req.maxRangeMiles >= 50.0
    && (req.routeMode == "direct" || req.routeMode == "via_stops")
    && (req.maxStopDetourMiles.None? || req.maxStopDetourMiles.value >= 0.0)
    && req.minStopGallons >= 0.0
    && req.stopPenaltyUsd >= 0.0
  }

  /** The names of the fields whose declared bound a request breaks. */
  function FieldErrors(req: TripPlanRequest): (names: set<string>)
    ensures names <= {"start_location", "finish_location", MPG_FIELD, RANGE_FIELD, "route_mode",
                      "max_stop_detour_miles", "min_stop_gallons", "stop_penalty_usd"}
  {
    (if |req.startLocation| > MAX_LOCATION_LENGTH then {"start_location"} else {})
    + (if |req.finishLocation| > MAX_LOCATION_LENGTH then {"finish_location"} else {})
    + (if req.mpg < 1.0 then {MPG_FIELD} else {})
    + (if req.maxRangeMiles < 50.0 then {RANGE_FIELD} else {})
    + (if req.routeMode != "direct" && req.routeMode != "via_stops" then {"route_mode"} else {})
    + (if req.maxStopDetourMiles.Some? && req.maxStopDetourMiles.value < 0.0 then {"max_stop_detour_miles"} else {})
    + (if req.minStopGallons < 0.0 then {"min_stop_gallons"} else {})
    + (if req.stopPenaltyUsd < 0.0 then {"stop_penalty_usd"} else {})
  }

  /** A request has no field error exactly when it is within every bound. */
  lemma FieldErrorsIff(req: TripPlanRequest)
    ensures FieldErrors(req) == {} <==> WithinFieldBounds(req)
  {
    if !WithinFieldBounds(req) {
      if |req.startLocation| > MAX_LOCATION_LENGTH { assert "start_location" in FieldErrors(req); }
      else if |req.finishLocation| > MAX_LOCATION_LENGTH { assert "finish_location" in FieldErrors(req); }
      else if req.mpg < 1.0 { assert MPG_FIELD in FieldErrors(req); }
      else if req.maxRangeMiles < 50.0 { assert RANGE_FIELD in FieldErrors(req); }
      else if req.routeMode != "direct" && req.routeMode != "via_stops" { assert "route_mode" in FieldErrors(req); }
      else if req.maxStopDetourMiles.Some? && req.maxStopDetourMiles.value < 0.0 {
        assert "max_stop_detour_miles" in FieldErrors(req);
      }
      else if req.minStopGallons < 0.0 { assert "min_stop_gallons" in FieldErrors(req); }
      else { assert "stop_penalty_usd" in FieldErrors(req); }
    }
  }

  // ---------------------------------------------------------------- assignment constraint

  function MpgMessage(required: real, formatG: real -> string): string {
    "Assignment constraint: mpg must be " + formatG(required) + "."
  }

  function RangeMessage(required: real, formatG: real -> string): string {
    "Assignment constraint: max_range_miles must be " + formatG(required) + "."
  }

  /**
   * `TripPlanRequestSerializer.validate`: with enforcement off the attributes
   * pass untouched; otherwise both constraints are checked, every violation
   * is reported under its field's name, and the attributes pass only when
   * there is none.
   */
  function Validated(attrs: TripPlanRequest, settings: AssignmentSettings, formatG: real -> string)
    : (r: Result<TripPlanRequest, map<string, string>>)
    ensures r.Ok? ==> r.value == attrs
    ensures r.Ok? <==> !settings.enforce
                       || (!Violates(attrs.mpg, settings.requiredMpg)
                           && !Violates(attrs.maxRangeMiles, settings.requiredMaxRangeMiles))
    ensures r.Err? ==> && (MPG_FIELD in r.error <==> Violates(attrs.mpg, settings.requiredMpg))
                       && (RANGE_FIELD in r.error <==> Violates(attrs.maxRangeMiles, settings.requiredMaxRangeMiles))
                       && r.error.Keys <= {MPG_FIELD, RANGE_FIELD}
  {
    if !settings.enforce then Ok(attrs)
    else
      var mpgErrors := if Violates(attrs.mpg, settings.requiredMpg)
        then map[MPG_FIELD := MpgMessage(settings.requiredMpg, formatG)] else map[];
      var errors := if Violates(attrs.maxRangeMiles, settings.requiredMaxRangeMiles)
        then mpgErrors[RANGE_FIELD := RangeMessage(settings.requiredMaxRangeMiles, formatG)] else mpgErrors;
      if |errors| > 0 then Err(errors) else Ok(attrs)
  }

  /** `validate`, filling the error dictionary one field at a time. */
  method Validate(attrs: TripPlanRequest, settings: AssignmentSettings, formatG: real -> string)
    returns (r: Result<TripPlanRequest, map<string, string>>)
    ensures r == Validated(attrs, settings, formatG)
  {
    if !settings.enforce {
      return Ok(attrs);
    }
    var requiredMpg := settings.requiredMpg;
    var requiredRange := settings.requiredMaxRangeMiles;
    var errors: map<string, string> := map[];
    if Abs(attrs.mpg - requiredMpg) > EPSILON {
      errors := errors[MPG_FIELD := MpgMessage(requiredMpg, formatG)];
    }
    if Abs(attrs.maxRangeMiles - requiredRange) > EPSILON {
      errors := errors[RANGE_FIELD := RangeMessage(requiredRange, formatG)];
    }
    if |errors| > 0 {
      return Err(errors);
    }
    return Ok(attrs);
  }

  /** The whole check of a request: the field bounds first, then `validate`; the names of the failing fields. */
  function CheckRequest(req: TripPlanRequest, settings: AssignmentSettings, formatG: real -> string)
    : (r: Result<TripPlanRequest, set<string>>)
    ensures r.Ok? ==> r.value == req && WithinFieldBounds(req)
    ensures !WithinFieldBounds(req) ==> r.Err? && r.error != {} && r.error == FieldErrors(req)
    ensures WithinFieldBounds(req) ==>
      (r.Ok? <==> !settings.enforce
                  || (!Violates(req.mpg, settings.requiredMpg)
                      && !Violates(req.maxRangeMiles, settings.requiredMaxRangeMiles)))
    ensures WithinFieldBounds(req) && r.Err? ==>
      && (MPG_FIELD in r.error <==> Violates(req.mpg, settings.requiredMpg))
      && (RANGE_FIELD in r.error <==> Violates(req.maxRangeMiles, settings.requiredMaxRangeMiles))
      && r.error <= {MPG_FIELD, RANGE_FIELD}
  {
    FieldErrorsIff(req);
    if FieldErrors(req) != {} then Err(FieldErrors(req))
    else
      match Validated(req, settings, formatG)
      case Ok(attrs) => Ok(attrs)
      case Err(errors) => Err(errors.Keys)
  }

  /** The settings the project ships with: enforcement on, 10 mpg and 500 miles required. */
  const SHIPPED_SETTINGS := AssignmentSettings(true, 10.0, 500.0)

  function RequestWith(mpg: real, maxRangeMiles: real): TripPlanRequest {
    TripPlanRequest("New York, NY", "Atlanta, GA", mpg, maxRangeMiles, "direct", Some(20.0), 1.5, 1.5)
  }

  /** A request at 8 mpg is refused, under "mpg" only. */
  lemma RejectsEightMpg(formatG: real -> string)
    ensures CheckRequest(RequestWith(8.0, 500.0), SHIPPED_SETTINGS, formatG) == Err({MPG_FIELD})
  {
    var req := RequestWith(8.0, 500.0);
    assert FieldErrors(req) == {};
    var v := Validated(req, SHIPPED_SETTINGS, formatG);
    assert v.error.Keys == {MPG_FIELD};
  }

  /** A request with a 450-mile range is refused, under "max_range_miles" only. */
  lemma RejectsShortRange(formatG: real -> string)
    ensures CheckRequest(RequestWith(10.0, 450.0), SHIPPED_SETTINGS, formatG) == Err({RANGE_FIELD})
  {
    var req := RequestWith(10.0, 450.0);
    assert FieldErrors(req) == {};
    var v := Validated(req, SHIPPED_SETTINGS, formatG);
    assert v.error.Keys == {RANGE_FIELD};
  }

  /** A request that breaks both constraints reports both before failing. */
  lemma ReportsBothViolations(formatG: real -> string)
    ensures CheckRequest(RequestWith(8.0, 450.0), SHIPPED_SETTINGS, formatG) == Err({MPG_FIELD, RANGE_FIELD})
  {
    var req := RequestWith(8.0, 450.0);
    assert FieldErrors(req) == {};
    var v := Validated(req, SHIPPED_SETTINGS, formatG);
    assert v.error.Keys == {MPG_FIELD, RANGE_FIELD};
  }

  /**
   * A request that sets only its two locations takes the shipped defaults
   * (10 mpg, 500 miles, "direct", a 20-mile detour, 1.5 gallons, 1.5 USD),
   * and these meet every field bound and the assignment constraint.
   */
  lemma ShippedDefaultRequestPasses(start: string, finish: string, formatG: real -> string)
    requires |start| <= MAX_LOCATION_LENGTH && |finish| <= MAX_LOCATION_LENGTH
    ensures var req := TripPlanRequest(start, finish, 10.0, 500.0, "direct", Some(20.0), 1.5, 1.5);
      CheckRequest(req, SHIPPED_SETTINGS, formatG) == Ok(req)
  {
    var req := TripPlanRequest(start, finish, 10.0, 500.0, "direct", Some(20.0), 1.5, 1.5);
    DefaultsPass(req, SHIPPED_SETTINGS, formatG);
  }

  /**
   * A request left at the defaults (the required values) passes whenever the
   * required values themselves meet the field bounds.
   */
  lemma DefaultsPass(req: TripPlanRequest, settings: AssignmentSettings, formatG: real -> string)
    requires WithinFieldBounds(req)
    requires req.mpg == settings.requiredMpg && req.maxRangeMiles == settings.requiredMaxRangeMiles
    ensures CheckRequest(req, settings, formatG) == Ok(req)
  {
    FieldErrorsIff(req);
  }
}
