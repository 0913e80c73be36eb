/**
 * Turning a free-text location into coordinates: a `City, ST` query is first
 * answered from the offline city index, anything else (or a miss) from the
 * remote geocoder, and every success is remembered in a cache keyed by a
 * digest of the lower-cased, stripped query. The digest (SHA-256 in hex) and
 * the remote geocoder are passed in; the cache is a map from key to point.
 */
module Geocoding {
  import opened Wrappers
  import opened Text
  import opened CityLocation

  const CACHE_KEY_PREFIX: string := "geocode::"
  const LOCAL_SOURCE: string := "pgeocode-local"

  datatype GeocodedPoint = GeocodedPoint(latitude: real, longitude: real, displayName: string, source: string)

  /** The two ways `geocode_location` raises `GeocodingError`. */
  datatype GeocodingError =
    | EmptyLocation
    | UnableToGeocode(query: string)

  // ---------------------------------------------------------------- `City, ST`

  /** Two ASCII letters. */
  predicate IsStateCode(t: string) {
    |t| == 2 && IsAsciiLetter(t[0]) && IsAsciiLetter(t[1])
  }

  /**
   * `_parse_city_state`: a query with exactly one comma, something before it,
   * and two ASCII letters (up to whitespace) after it gives the stripped text
   * before the comma and the upper-cased letters.
   */
  function ParseCityState(query: string): (r: Option<(string, string)>)
    ensures r.Some? ==> |r.value.1| == 2
  {
    var parts := Split(query, ',');
    if |parts| != 2 || parts[0] == [] then None
    else
      var state := Strip(parts[1]);
      if IsStateCode(state) then Some((Strip(parts[0]), Upper(state))) else None
  }

  /**
   * The shape the pattern `^\s*([^,]+?)\s*,\s*([A-Za-z]{2})\s*$` accepts,
   * written as a decomposition of the query into its pieces.
   */
  predicate CityStateShape(query: string, ws1: string, city: string, ws2: string, ws3: string, letters: string, ws4: string) {
    && query == ws1 + city + ws2 + [','] + ws3 + letters + ws4
    && AllSpace(ws1) && AllSpace(ws2) && AllSpace(ws3) && AllSpace(ws4)
    && city != [] && ',' !in city
    && IsStateCode(letters)
  }

  lemma NoCommaInSpace(s: string)
    requires AllSpace(s)
    ensures ',' !in s
  {
  }

  lemma NoCommaInJoin(u: string, v: string, w: string)
    requires ',' !in u && ',' !in v && ',' !in w
    ensures ',' !in u + v + w
  {
  }

  lemma StateCodeIsStripped(letters: string)
    requires IsStateCode(letters)
    ensures Stripped(letters)
  {
  }

  /** Every query of the accepted shape parses, to the stripped city and the upper-cased letters. */
  lemma ParseCityStateComplete(query: string, ws1: string, city: string, ws2: string, ws3: string, letters: string, ws4: string)
    requires CityStateShape(query, ws1, city, ws2, ws3, letters, ws4)
    ensures ParseCityState(query) == Some((Strip(city), Upper(letters)))
  {
    NoCommaInSpace(ws1);
    NoCommaInSpace(ws2);
    NoCommaInSpace(ws3);
    NoCommaInSpace(ws4);
    assert ',' !in letters;
    var before := ws1 + city + ws2;
    var after := ws3 + letters + ws4;
    NoCommaInJoin(ws1, city, ws2);
    NoCommaInJoin(ws3, letters, ws4);
    assert query == before + [','] + after;
    SplitAtSep(before, after, ',');
    StripIgnoresPadding(ws1, city, ws2);
    StateCodeIsStripped(letters);
    StripPadded(ws3, letters, ws4);
  }

  lemma SplitInTwo(query: string)
    requires |Split(query, ',')| == 2
    ensures query == Split(query, ',')[0] + [','] + Split(query, ',')[1]
  {
    JoinSplit(query, ',');
  }

  /** Every query that parses has the accepted shape, and the result is read off its pieces. */
  lemma ParseCityStateSound(query: string)
    requires ParseCityState(query).Some?
    ensures exists ws1, city, ws2, ws3, letters, ws4 ::
      && CityStateShape(query, ws1, city, ws2, ws3, letters, ws4)
      && ParseCityState(query).value == (Strip(city), Upper(letters))
  {
    var parts := Split(query, ',');
    SplitInTwo(query);
    var letters := Strip(parts[1]);
    var ws3, ws4 := StripSplit(parts[1]);
    assert query == [] + parts[0] + [] + [','] + ws3 + letters + ws4;
    assert CityStateShape(query, [], parts[0], [], ws3, letters, ws4);
  }

  /** A successful parse yields a city without a comma and a two-letter upper-case state. */
  lemma ParseCityStateResult(query: string)
    requires ParseCityState(query).Some?
    ensures ',' !in ParseCityState(query).value.0
    ensures IsAsciiUpper(ParseCityState(query).value.1[0]) && IsAsciiUpper(ParseCityState(query).value.1[1])
  {
    var parts := Split(query, ',');
    StripKeepsCharacters(parts[0]);
  }

  /** A query of whitespace before the comma parses to an empty city name. */
  lemma SplitBlankCityQuery()
    ensures Split("  , TX", ',') == ["  ", " TX"]
  {
    assert "  , TX" == "  " + [','] + " TX";
    SplitAtSep("  ", " TX", ',');
  }

  lemma StripPaddedStateCode()
    ensures Strip(" TX") == "TX"
  {
    assert " TX" == " " + "TX" + "";
    StripPadded(" ", "TX", "");
  }

  lemma ParseCityStateBlankCity()
    ensures ParseCityState("  , TX") == Some(("", "TX"))
  {
    SplitBlankCityQuery();
    StripOfAllSpace("  ");
    StripPaddedStateCode();
    assert IsStateCode("TX") && Upper("TX") == "TX";
  }

  /** Without a comma, or with two, nothing parses. */
  lemma ParseCityStateNeedsOneComma(query: string)
    requires CountChar(query, ',') != 1
    ensures ParseCityState(query) == None
  {
  }

  // ---------------------------------------------------------------- cache key

  /** `_cache_key`: the prefix and the digest of the lower-cased, stripped query. */
  function CacheKey(query: string, digest: string -> string): (key: string)
    ensures StartsWith(key, CACHE_KEY_PREFIX)
  {
    CACHE_KEY_PREFIX + digest(Strip(Lower(query)))
  }

  lemma LowerIdempotent(s: string)
    ensures Lower(Lower(s)) == Lower(s)
  {
  }

  /** Letter case does not change the key. */
  lemma CacheKeyIgnoresCase(query: string, digest: string -> string)
    ensures CacheKey(Lower(query), digest) == CacheKey(query, digest)
  {
    LowerIdempotent(query);
  }

  lemma LowerOfSpace(s: string)
    requires AllSpace(s)
    ensures Lower(s) == s
  {
  }

  /** Whitespace around the query does not change the key. */
  lemma CacheKeyIgnoresPadding(a: string, query: string, b: string, digest: string -> string)
    requires AllSpace(a) && AllSpace(b)
    ensures CacheKey(a + query + b, digest) == CacheKey(query, digest)
  {
    assert Lower(a + query + b) == Lower(a) + Lower(query) + Lower(b);
    LowerOfSpace(a);
    LowerOfSpace(b);
    StripIgnoresPadding(a, Lower(query), b);
  }

  // ---------------------------------------------------------------- lookup order

  /** `_local_lookup` against the city index and state fallback of a locator. */
  function LocalLookupIn(index: map<(string, string), seq<Coordinate>>, fallback: map<string, Coordinate>,
                         query: string): (r: Option<GeocodedPoint>)
    ensures r.None? <==> ParseCityState(query).None?
                         || LookupIn(index, fallback, ParseCityState(query).value.0, ParseCityState(query).value.1).None?
    ensures r.Some? ==>
      var (city, state) := ParseCityState(query).value;
      var c := LookupIn(index, fallback, city, state).value;
      && r.value.latitude == c.latitude && r.value.longitude == c.longitude
      && r.value.displayName == city + ", " + state
      && r.value.source == LOCAL_SOURCE
  {
    match ParseCityState(query)
    case None => None
    case Some((city, state)) =>
      match LookupIn(index, fallback, city, state)
      case None => None
      case Some(c) => Some(GeocodedPoint(c.latitude, c.longitude, city + ", " + state, LOCAL_SOURCE))
  }

  /** The answer, the cache afterwards and whether the remote geocoder was asked. */
  datatype Geocoded = Geocoded(result: Result<GeocodedPoint, GeocodingError>,
                               cache: map<string, GeocodedPoint>, remoteCalled: bool)

  /** `geocode_location`: cache, then the local index, then the remote geocoder, else an error. */
  function Geocode(cache: map<string, GeocodedPoint>, index: map<(string, string), seq<Coordinate>>,
                   fallback: map<string, Coordinate>, digest: string -> string,
                   remote: string -> Option<GeocodedPoint>, query: string): Geocoded
  {
    var normalized := Strip(query);
    if normalized == [] then Geocoded(Err(EmptyLocation), cache, false)
    else
      var key := CacheKey(normalized, digest);
      if key in cache then Geocoded(Ok(cache[key]), cache, false)
      else match LocalLookupIn(index, fallback, normalized)
        case Some(local) => Geocoded(Ok(local), cache[key := local], false)
        case None =>
          match remote(normalized)
          case Some(point) => Geocoded(Ok(point), cache[key := point], true)
          case None => Geocoded(Err(UnableToGeocode(normalized)), cache, true)
  }

  /** A blank query fails with `EmptyLocation` before any lookup. */
  lemma EmptyQueryFails(cache: map<string, GeocodedPoint>, index: map<(string, string), seq<Coordinate>>,
                        fallback: map<string, Coordinate>, digest: string -> string,
                        remote: string -> Option<GeocodedPoint>, query: string)
    requires AllSpace(query)
    ensures Geocode(cache, index, fallback, digest, remote, query) == Geocoded(Err(EmptyLocation), cache, false)
  {
    assert query == query + [] + [];
    StripIgnoresPadding(query, [], []);
  }

  /** A local hit is the answer: the remote geocoder is not asked. */
  lemma LocalHitSkipsRemote(cache: map<string, GeocodedPoint>, index: map<(string, string), seq<Coordinate>>,
                            fallback: map<string, Coordinate>, digest: string -> string,
                            remote: string -> Option<GeocodedPoint>, query: string)
    requires Strip(query) != [] && CacheKey(Strip(query), digest) !in cache
    requires LocalLookupIn(index, fallback, Strip(query)).Some?
    ensures var g := Geocode(cache, index, fallback, digest, remote, query);
      && !g.remoteCalled
      && g.result == Ok(LocalLookupIn(index, fallback, Strip(query)).value)
      && g.result.value.source == LOCAL_SOURCE
  {
  }

  /**
   * The remote geocoder is asked exactly when the query is not blank, not
   * cached and not found locally; an error means every source missed.
   */
  lemma RemoteOnlyAfterLocalMiss(cache: map<string, GeocodedPoint>, index: map<(string, string), seq<Coordinate>>,
                                 fallback: map<string, Coordinate>, digest: string -> string,
                                 remote: string -> Option<GeocodedPoint>, query: string)
    ensures var g := Geocode(cache, index, fallback, digest, remote, query);
      var normalized := Strip(query);
      && (g.remoteCalled <==>
            normalized != [] && CacheKey(normalized, digest) !in cache && LocalLookupIn(index, fallback, normalized).None?)
      && (g.result.Err? <==>
            normalized == [] || (CacheKey(normalized, digest) !in cache
                                 && LocalLookupIn(index, fallback, normalized).None? && remote(normalized).None?))
  {
  }

  /** A success is in the cache afterwards under the query's key; a failure leaves the cache as it was. */
  lemma SuccessIsCached(cache: map<string, GeocodedPoint>, index: map<(string, string), seq<Coordinate>>,
                        fallback: map<string, Coordinate>, digest: string -> string,
                        remote: string -> Option<GeocodedPoint>, query: string)
    ensures var g := Geocode(cache, index, fallback, digest, remote, query);
      && (g.result.Ok? ==> CacheKey(Strip(query), digest) in g.cache && g.cache[CacheKey(Strip(query), digest)] == g.result.value)
      && (g.result.Err? ==> g.cache == cache)
  {
    var normalized := Strip(query);
    var key := CacheKey(normalized, digest);
    var g := Geocode(cache, index, fallback, digest, remote, query);
    if normalized != [] && key !in cache {
      var local := LocalLookupIn(index, fallback, normalized);
      if local.Some? {
        assert g == Geocoded(Ok(local.value), cache[key := local.value], false);
      } else if remote(normalized).Some? {
        assert g == Geocoded(Ok(remote(normalized).value), cache[key := remote(normalized).value], true);
      }
    }
  }

  /** Asking again after a success gives the same answer from the cache, without any lookup. */
  lemma RepeatIsServedFromCache(cache: map<string, GeocodedPoint>, index: map<(string, string), seq<Coordinate>>,
                                fallback: map<string, Coordinate>, digest: string -> string,
                                remote: string -> Option<GeocodedPoint>, query: string)
    requires Geocode(cache, index, fallback, digest, remote, query).result.Ok?
    ensures var g := Geocode(cache, index, fallback, digest, remote, query);
      Geocode(g.cache, index, fallback, digest, remote, query) == Geocoded(g.result, g.cache, false)
  {
    SuccessIsCached(cache, index, fallback, digest, remote, query);
  }

  /** The cache Django keeps for the geocoder. */
  class GeocodeCache {
    var entries: map<string, GeocodedPoint>

    constructor ()
      ensures entries == map[]
    {
      entries := map[];
    }
  }

  /** `_local_lookup`. */
  method LocalLookup(locator: CityLocator, query: string) returns (r: Option<GeocodedPoint>)
    ensures r == LocalLookupIn(locator.cityIndex, locator.stateFallback, query)
  {
    var parsed := ParseCityState(query);
    if parsed.None? {
      return None;
    }
    var (city, state) := parsed.value;
    var localMatch := locator.Lookup(city, state);
    if localMatch.None? {
      return None;
    }
    return Some(GeocodedPoint(localMatch.value.latitude, localMatch.value.longitude, city + ", " + state, LOCAL_SOURCE));
  }

  /** `geocode_location`, with the cache updated in place. */
  method GeocodeLocation(cache: GeocodeCache, locator: CityLocator, digest: string -> string,
                         remote: string -> Option<GeocodedPoint>, query: string)
    returns (r: Result<GeocodedPoint, GeocodingError>, remoteCalled: bool)
    modifies cache
    ensures Geocoded(r, cache.entries, remoteCalled)
         == Geocode(old(cache.entries), locator.cityIndex, locator.stateFallback, digest, remote, query)
  {
    var normalizedQuery := Strip(query);
    if normalizedQuery == [] {
      return Err(EmptyLocation), false;
    }
    var cacheKey := CacheKey(normalizedQuery, digest);
    if cacheKey in cache.entries {
      return Ok(cache.entries[cacheKey]), false;
    }
    var local := LocalLookup(locator, normalizedQuery);
    if local.Some? {
      cache.entries := cache.entries[cacheKey := local.value];
      return Ok(local.value), false;
    }
    var answer := remote(normalizedQuery);
    if answer.Some? {
      cache.entries := cache.entries[cacheKey := answer.value];
      return Ok(answer.value), true;
    }
    return Err(UnableToGeocode(normalizedQuery)), true;
  }
}
