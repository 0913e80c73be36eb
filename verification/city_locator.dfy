/**
 * The offline city lookup behind local geocoding: city names are normalised,
 * expanded into spelling variants ("st"/"saint", a trailing "city"), and looked
 * up in an index of postal places built once from the place table; a state's
 * mean position is the fallback. Loading the place table is not part of this
 * model: its rows (with missing values already dropped) are passed in.
 */
module CityLocation {
  import opened Wrappers
  import opened Text

  // ---------------------------------------------------------------- normalisation

  /** The characters `[a-z0-9 ]` that survive normalisation. */
  predicate Kept(c: char) {
    IsAsciiLower(c) || IsDigit(c) || c == ' '
  }

  predicate Disallowed(c: char) {
    !Kept(c)
  }

  /** The suffix left after dropping a leading run of `bad` characters. */
  function DropRun(s: string, bad: char -> bool): (r: string)
    ensures |r| <= |s| && r == s[|s| - |r|..]
    ensures r != [] ==> !bad(r[0])
  {
    if s != [] && bad(s[0]) then DropRun(s[1..], bad) else s
  }

  /**
   * `re.sub(class + "+", " ", s)` for a one-character class `bad`: every
   * maximal run of `bad` characters becomes one space.
   */
  function ReplaceRuns(s: string, bad: char -> bool): (r: string)
    ensures forall i :: 0 <= i < |r| ==> r[i] == ' ' || !bad(r[i])
    decreases |s|
  {
    if s == [] then []
    else if bad(s[0]) then [' '] + ReplaceRuns(DropRun(s[1..], bad), bad)
    else [s[0]] + ReplaceRuns(s[1..], bad)
  }

  /** Every character of `s` satisfies `p`. */
  predicate All(s: string, p: char -> bool) {
    forall i :: 0 <= i < |s| ==> p(s[i])
  }

  /** Every character of `s` is a space or satisfies `p`. */
  predicate AllOrSpace(s: string, p: char -> bool) {
    forall i :: 0 <= i < |s| ==> s[i] == ' ' || p(s[i])
  }

  lemma DropRunKeepsProperty(s: string, bad: char -> bool, p: char -> bool)
    requires All(s, p)
    ensures All(DropRun(s, bad), p)
  {
    var r := DropRun(s, bad);
    forall i | 0 <= i < |r| ensures p(r[i]) {
      assert r[i] == s[|s| - |r| + i];
    }
  }

  lemma PrependKeepsProperty(c: char, t: string, p: char -> bool)
    requires c == ' ' || p(c)
    requires AllOrSpace(t, p)
    ensures AllOrSpace([c] + t, p)
  {
    forall i | 0 <= i < |[c] + t| ensures ([c] + t)[i] == ' ' || p(([c] + t)[i]) {
      if i > 0 {
        assert ([c] + t)[i] == t[i - 1];
      }
    }
  }

  /** Apart from the spaces it inserts, the result holds only characters of the input: whatever all of them satisfy, so do its others. */
  lemma {:induction false} ReplaceRunsKeepsProperty(s: string, bad: char -> bool, p: char -> bool)
    requires All(s, p)
    ensures AllOrSpace(ReplaceRuns(s, bad), p)
    decreases |s|
  {
    if s != [] {
      var rest := if bad(s[0]) then DropRun(s[1..], bad) else s[1..];
      assert All(s[1..], p) by {
        assert forall i :: 0 <= i < |s[1..]| ==> s[1..][i] == s[i + 1];
      }
      if bad(s[0]) {
        DropRunKeepsProperty(s[1..], bad, p);
      }
      ReplaceRunsKeepsProperty(rest, bad, p);
      PrependKeepsProperty(if bad(s[0]) then ' ' else s[0], ReplaceRuns(rest, bad), p);
    }
  }

  /** `_normalize_city`: lower-case, disallowed runs to a space, whitespace runs to a space, strip. */
  function NormalizeCity(value: string): string {
    Strip(ReplaceRuns(ReplaceRuns(Lower(value), Disallowed), IsSpace))
  }

  /** No two spaces in a row. */
  predicate SingleSpaced(t: string) {
    forall i :: 0 <= i < |t| - 1 ==> !(t[i] == ' ' && t[i + 1] == ' ')
  }

  /** What `_normalize_city` produces: `[a-z0-9 ]` only, single spaces, nothing to strip. */
  predicate Normalized(t: string) {
    && (forall i :: 0 <= i < |t| ==> Kept(t[i]))
    && SingleSpaced(t)
    && Stripped(t)
  }

  /** The first character of the result: a space for a bad run, the character itself otherwise. */
  lemma ReplaceRunsHead(s: string, bad: char -> bool)
    requires s != []
    ensures ReplaceRuns(s, bad) != []
    ensures ReplaceRuns(s, bad)[0] == if bad(s[0]) then ' ' else s[0]
  {
  }

  /** No two whitespace characters are adjacent. */
  predicate NoAdjacentSpace(t: string) {
    forall i :: 0 <= i < |t| - 1 ==> !(IsSpace(t[i]) && IsSpace(t[i + 1]))
  }

  lemma PrependNoAdjacentSpace(c: char, t: string)
    requires NoAdjacentSpace(t)
    requires t != [] ==> !(IsSpace(c) && IsSpace(t[0]))
    ensures NoAdjacentSpace([c] + t)
  {
    var r := [c] + t;
    forall i | 1 <= i < |r| - 1 ensures !(IsSpace(r[i]) && IsSpace(r[i + 1])) {
      assert r[i] == t[i - 1] && r[i + 1] == t[i];
    }
  }

  /** After replacing whitespace runs, no two whitespace characters are adjacent. */
  lemma {:induction false} ReplaceSpaceRunsSingleSpaced(s: string)
    ensures NoAdjacentSpace(ReplaceRuns(s, IsSpace))
    decreases |s|
  {
    if s != [] {
      var rest := if IsSpace(s[0]) then DropRun(s[1..], IsSpace) else s[1..];
      ReplaceSpaceRunsSingleSpaced(rest);
      if rest != [] {
        ReplaceRunsHead(rest, IsSpace);
      }
      PrependNoAdjacentSpace(if IsSpace(s[0]) then ' ' else s[0], ReplaceRuns(rest, IsSpace));
    }
  }

  /** Stripping a single-spaced `[a-z0-9 ]` string yields a `Normalized` one. */
  lemma StripNormalizes(s: string)
    requires forall i :: 0 <= i < |s| ==> Kept(s[i])
    requires SingleSpaced(s)
    ensures Normalized(Strip(s))
  {
    var t := Strip(s);
    var before, after := StripSplit(s);
    var k := |before|;
    assert forall i :: 0 <= i < |t| ==> t[i] == s[k + i];
    assert forall i :: 0 <= i < |t| ==> Kept(t[i]);
    assert SingleSpaced(t) by {
      forall i | 0 <= i < |t| - 1 ensures !(t[i] == ' ' && t[i + 1] == ' ') {
        assert t[i] == s[k + i] && t[i + 1] == s[k + i + 1];
      }
    }
  }

  /** Replacing the disallowed runs leaves only `[a-z0-9 ]`. */
  lemma DisallowedRunsReplaced(s: string)
    ensures forall i :: 0 <= i < |ReplaceRuns(s, Disallowed)| ==> Kept(ReplaceRuns(s, Disallowed)[i])
  {
  }

  /** Replacing the whitespace runs of a `[a-z0-9 ]` string keeps it so and makes it single-spaced. */
  lemma SpaceRunsReplaced(s: string)
    requires forall i :: 0 <= i < |s| ==> Kept(s[i])
    ensures forall i :: 0 <= i < |ReplaceRuns(s, IsSpace)| ==> Kept(ReplaceRuns(s, IsSpace)[i])
    ensures SingleSpaced(ReplaceRuns(s, IsSpace))
  {
    var r := ReplaceRuns(s, IsSpace);
    ReplaceRunsKeepsProperty(s, IsSpace, Kept);
    assert AllOrSpace(r, Kept);
    ReplaceSpaceRunsSingleSpaced(s);
    assert IsSpace(' ');
  }

  /** Every normalised name is `Normalized`. */
  lemma NormalizeCityIsNormalized(value: string)
    ensures Normalized(NormalizeCity(value))
  {
    var s1 := ReplaceRuns(Lower(value), Disallowed);
    DisallowedRunsReplaced(Lower(value));
    SpaceRunsReplaced(s1);
    StripNormalizes(ReplaceRuns(s1, IsSpace));
  }

  lemma {:induction false} ReplaceRunsWithoutBad(s: string, bad: char -> bool)
    requires forall i :: 0 <= i < |s| ==> !bad(s[i])
    ensures ReplaceRuns(s, bad) == s
  {
    if s != [] {
      ReplaceRunsWithoutBad(s[1..], bad);
    }
  }

  lemma {:induction false} ReplaceSingleSpaces(s: string)
    requires forall i :: 0 <= i < |s| ==> Kept(s[i])
    requires SingleSpaced(s)
    ensures ReplaceRuns(s, IsSpace) == s
  {
    if s != [] {
      ReplaceSingleSpaces(s[1..]);
      if IsSpace(s[0]) {
        assert DropRun(s[1..], IsSpace) == s[1..];
      }
    }
  }

  /** A normalised name normalises to itself. */
  lemma NormalizeCityFixesNormalized(t: string)
    requires Normalized(t)
    ensures NormalizeCity(t) == t
  {
    assert Lower(t) == t;
    ReplaceRunsWithoutBad(t, Disallowed);
    ReplaceSingleSpaces(t);
    StripOfStripped(t);
  }

  /** `_normalize_city` is idempotent. */
  lemma NormalizeCityIdempotent(value: string)
    ensures NormalizeCity(NormalizeCity(value)) == NormalizeCity(value)
  {
    NormalizeCityIsNormalized(value);
    NormalizeCityFixesNormalized(NormalizeCity(value));
  }

  // ---------------------------------------------------------------- variants

  /**
   * `list(dict.fromkeys(s))`: every value once, in order of first occurrence.
   * The three properties together determine the result.
   */
  function Dedup(s: seq<string>): (r: seq<string>)
    ensures forall x :: x in r <==> x in s
    ensures forall i, j :: 0 <= i < j < |r| ==> r[i] != r[j]
    ensures forall i, j :: 0 <= i < j < |r| ==> FirstIndex(s, r[i]) < FirstIndex(s, r[j])
    ensures s != [] ==> r != [] && r[0] == s[0]
  {
    if s == [] then []
    else
      var d := Dedup(s[..|s| - 1]);
      assert forall x :: x in s <==> x in s[..|s| - 1] || x == s[|s| - 1];
      FirstIndexAfterSnoc(s);
      if s[|s| - 1] in d then d else d + [s[|s| - 1]]
  }

  /** The candidate spellings before filtering: the name, then the derived names. */
  function RawVariants(name: string): seq<string> {
    [name]
    + (if StartsWith(name, "st ") then ["saint " + name[3..]] else [])
    + (if StartsWith(name, "saint ") then ["st " + name[6..]] else [])
    + (if EndsWith(name, " city") then [name[..|name| - 5]] else [])
  }

  /** `_city_variants`: the non-empty spellings, each once, in order of first appearance. */
  function CityVariants(name: string): (r: seq<string>)
    ensures forall x :: x in r <==> x in RawVariants(name) && x != []
    ensures forall i, j :: 0 <= i < j < |r| ==> r[i] != r[j]
    ensures forall i, j :: 0 <= i < j < |r| ==> FirstIndex(RawVariants(name), r[i]) < FirstIndex(RawVariants(name), r[j])
  {
    NonEmptyKeepsFirstOrder(RawVariants(name));
    Dedup(NonEmpty(RawVariants(name)))
  }

  /** The name itself is the first variant; an empty name has none. */
  lemma CityVariantsStartWithName(name: string)
    ensures name != [] ==> |CityVariants(name)| > 0 && CityVariants(name)[0] == name
    ensures name == [] ==> CityVariants(name) == []
  {
    if name == [] {
      assert RawVariants(name) == [name];
      assert NonEmpty(RawVariants(name)) == [];
    }
  }

  /** "st X" adds "saint X", "saint X" adds "st X", and "X city" adds "X" when X is not empty. */
  lemma CityVariantsDerived(name: string)
    ensures StartsWith(name, "st ") ==> "saint " + name[3..] in CityVariants(name)
    ensures StartsWith(name, "saint ") ==> "st " + name[6..] in CityVariants(name)
    ensures EndsWith(name, " city") && |name| > 5 ==> name[..|name| - 5] in CityVariants(name)
  {
    var raw := RawVariants(name);
    if StartsWith(name, "st ") {
      assert "saint " + name[3..] in raw;
      assert ("saint " + name[3..])[0] == 's';
    }
    if StartsWith(name, "saint ") {
      assert "st " + name[6..] in raw;
      assert ("st " + name[6..])[0] == 's';
    }
    if EndsWith(name, " city") && |name| > 5 {
      assert name[..|name| - 5] in raw;
      assert name[..|name| - 5][0] == name[0];
    }
  }

  // ---------------------------------------------------------------- index

  datatype Coordinate = Coordinate(latitude: real, longitude: real)

  /** One place of the postal table: name, state code and position. */
  datatype PlaceRow = PlaceRow(placeName: string, stateCode: string, latitude: real, longitude: real)

  function RowState(row: PlaceRow): string { Strip(Upper(row.stateCode)) }
  function RowCity(row: PlaceRow): string { NormalizeCity(row.placeName) }

  /** A row is indexed unless its state or its normalised name is empty. */
  predicate Indexed(row: PlaceRow) { RowState(row) != [] && RowCity(row) != [] }

  function RowKey(row: PlaceRow): (string, string) { (RowState(row), RowCity(row)) }

  function RowCoordinate(row: PlaceRow): Coordinate { Coordinate(row.latitude, row.longitude) }

  /** The coordinates of the indexed rows, grouped by (state, city) in row order. */
  function CityIndex(rows: seq<PlaceRow>): (index: map<(string, string), seq<Coordinate>>)
    ensures forall key :: key in index ==> index[key] != []
  {
    if rows == [] then map[]
    else
      var index := CityIndex(rows[..|rows| - 1]);
      var row := rows[|rows| - 1];
      if !Indexed(row) then index
      else
        var key := RowKey(row);
        index[key := (if key in index then index[key] else []) + [RowCoordinate(row)]]
  }

  /** The coordinates of the indexed rows, grouped by state in row order. */
  function StateCoordinates(rows: seq<PlaceRow>): (acc: map<string, seq<Coordinate>>)
    ensures forall s :: s in acc ==> acc[s] != []
  {
    if rows == [] then map[]
    else
      var acc := StateCoordinates(rows[..|rows| - 1]);
      var row := rows[|rows| - 1];
      if !Indexed(row) then acc
      else
        var state := RowState(row);
        acc[state := (if state in acc then acc[state] else []) + [RowCoordinate(row)]]
  }

  function SumLatitudes(cs: seq<Coordinate>): real {
    if cs == [] then 0.0 else SumLatitudes(cs[..|cs| - 1]) + cs[|cs| - 1].latitude
  }

  function SumLongitudes(cs: seq<Coordinate>): real {
    if cs == [] then 0.0 else SumLongitudes(cs[..|cs| - 1]) + cs[|cs| - 1].longitude
  }

  /** The mean position of a non-empty list of coordinates. */
  function Mean(cs: seq<Coordinate>): Coordinate
    requires cs != []
  {
    Coordinate(SumLatitudes(cs) / |cs| as real, SumLongitudes(cs) / |cs| as real)
  }

  /** Each state's mean position over its indexed rows. */
  function StateFallback(rows: seq<PlaceRow>): map<string, Coordinate> {
    var acc := StateCoordinates(rows);
    map s | s in acc :: Mean(acc[s])
  }

  /** An independent account of one index entry: the coordinates of the indexed rows with that key, in row order. */
  function RowsWithKey(rows: seq<PlaceRow>, key: (string, string)): (cs: seq<Coordinate>)
    ensures |cs| <= |rows|
  {
    if rows == [] then []
    else
      var row := rows[|rows| - 1];
      RowsWithKey(rows[..|rows| - 1], key) + (if Indexed(row) && RowKey(row) == key then [RowCoordinate(row)] else [])
  }

  /** The coordinates of the indexed rows of one state, in row order. */
  function RowsInState(rows: seq<PlaceRow>, state: string): (cs: seq<Coordinate>)
    ensures |cs| <= |rows|
  {
    if rows == [] then []
    else
      var row := rows[|rows| - 1];
      RowsInState(rows[..|rows| - 1], state) + (if Indexed(row) && RowState(row) == state then [RowCoordinate(row)] else [])
  }

  /**
   * The index groups the rows by key: a key is present exactly when some
   * indexed row has it, and its entry lists those rows' coordinates in row
   * order. A row whose state or normalised name is empty leaves no trace.
   */
  lemma {:induction false} CityIndexGroupsRows(rows: seq<PlaceRow>, key: (string, string))
    ensures key in CityIndex(rows) <==> RowsWithKey(rows, key) != []
    ensures key in CityIndex(rows) ==> CityIndex(rows)[key] == RowsWithKey(rows, key)
  {
    if rows != [] {
      CityIndexGroupsRows(rows[..|rows| - 1], key);
    }
  }

  /** A state has a fallback exactly when it has indexed rows, and it is their mean position. */
  lemma {:induction false} StateCoordinatesGroupRows(rows: seq<PlaceRow>, state: string)
    ensures state in StateCoordinates(rows) <==> RowsInState(rows, state) != []
    ensures state in StateCoordinates(rows) ==> StateCoordinates(rows)[state] == RowsInState(rows, state)
  {
    if rows != [] {
      StateCoordinatesGroupRows(rows[..|rows| - 1], state);
    }
  }

  lemma StateFallbackIsMean(rows: seq<PlaceRow>, state: string)
    ensures state in StateFallback(rows) <==> RowsInState(rows, state) != []
    ensures state in StateFallback(rows) ==> StateFallback(rows)[state] == Mean(RowsInState(rows, state))
  {
    StateCoordinatesGroupRows(rows, state);
  }

  /** Every indexed row is found under its own key. */
  lemma {:induction false} IndexedRowIsListed(rows: seq<PlaceRow>, i: nat)
    requires i < |rows| && Indexed(rows[i])
    ensures RowCoordinate(rows[i]) in RowsWithKey(rows, RowKey(rows[i]))
  {
    var init := rows[..|rows| - 1];
    if i < |rows| - 1 {
      assert rows[i] == init[i];
      IndexedRowIsListed(init, i);
    }
  }

  // ---------------------------------------------------------------- lookup

  /** Variant `v` of the normalised state has a non-empty index entry. */
  predicate Hit(index: map<(string, string), seq<Coordinate>>, state: string, v: string) {
    (state, v) in index && index[(state, v)] != []
  }

  /** The mean of the first variant with an entry, else the state's fallback, else nothing. */
  function FirstHit(index: map<(string, string), seq<Coordinate>>, fallback: map<string, Coordinate>,
                    state: string, variants: seq<string>): Option<Coordinate>
  {
    if variants == [] then (if state in fallback then Some(fallback[state]) else None)
    else if Hit(index, state, variants[0]) then Some(Mean(index[(state, variants[0])]))
    else FirstHit(index, fallback, state, variants[1..])
  }

  function NormalizeState(state: string): string { Upper(Strip(state)) }

  function LookupIn(index: map<(string, string), seq<Coordinate>>, fallback: map<string, Coordinate>,
                    city: string, state: string): Option<Coordinate>
  {
    FirstHit(index, fallback, NormalizeState(state), CityVariants(NormalizeCity(city)))
  }

  /**
   * The lookup answers with the mean of the FIRST variant that has index
   * entries; only when no variant has any does it answer with the state's
   * fallback, or with nothing for an unknown state.
   */
  lemma {:induction false} FirstHitOrder(index: map<(string, string), seq<Coordinate>>, fallback: map<string, Coordinate>,
                                        state: string, variants: seq<string>)
    ensures var r := FirstHit(index, fallback, state, variants);
      || (exists k :: (0 <= k < |variants| && Hit(index, state, variants[k])
            && (forall j :: 0 <= j < k ==> !Hit(index, state, variants[j]))
            && r == Some(Mean(index[(state, variants[k])]))))
      || ((forall k :: 0 <= k < |variants| ==> !Hit(index, state, variants[k]))
            && r == (if state in fallback then Some(fallback[state]) else None))
  {
    if variants != [] && !Hit(index, state, variants[0]) {
      FirstHitOrder(index, fallback, state, variants[1..]);
      var r := FirstHit(index, fallback, state, variants);
      if exists k :: (0 <= k < |variants[1..]| && Hit(index, state, variants[1..][k])
            && (forall j :: 0 <= j < k ==> !Hit(index, state, variants[1..][j]))
            && r == Some(Mean(index[(state, variants[1..][k])]))) {
        var k :| 0 <= k < |variants[1..]| && Hit(index, state, variants[1..][k])
            && (forall j :: 0 <= j < k ==> !Hit(index, state, variants[1..][j]))
            && r == Some(Mean(index[(state, variants[1..][k])]));
        assert forall j :: 0 <= j < k + 1 ==> !Hit(index, state, variants[j]) by {
          forall j | 0 <= j < k + 1 ensures !Hit(index, state, variants[j]) {
            if j > 0 {
              assert variants[j] == variants[1..][j - 1];
            }
          }
        }
        assert variants[k + 1] == variants[1..][k];
      } else {
        assert forall k :: 1 <= k < |variants| ==> variants[k] == variants[1..][k - 1];
      }
    }
  }

  /** The loop of `CityLocator.__init__` over the place rows: the index and the per-state lists. */
  method IndexRows(rows: seq<PlaceRow>)
    returns (index: map<(string, string), seq<Coordinate>>, accumulator: map<string, seq<Coordinate>>)
    ensures index == CityIndex(rows)
    ensures accumulator == StateCoordinates(rows)
  {
    index := map[];
    accumulator := map[];
    for i := 0 to |rows|
      invariant index == CityIndex(rows[..i])
      invariant accumulator == StateCoordinates(rows[..i])
    {
      var row := rows[i];
      assert rows[..i + 1][..i] == rows[..i];
      var state := Strip(Upper(row.stateCode));
      var city := NormalizeCity(row.placeName);
      assert state == RowState(row) && city == RowCity(row) && (state, city) == RowKey(row);
      if state == [] || city == [] {
        continue;
      }
      var coord := Coordinate(row.latitude, row.longitude);
      var key := (state, city);
      index := index[key := (if key in index then index[key] else []) + [coord]];
      accumulator := accumulator[state := (if state in accumulator then accumulator[state] else []) + [coord]];
    }
    assert rows[..|rows|] == rows;
  }

  /** The closing loop of `CityLocator.__init__`: each state's mean position. */
  method MeanByState(accumulator: map<string, seq<Coordinate>>) returns (fallback: map<string, Coordinate>)
    requires forall s :: s in accumulator ==> accumulator[s] != []
    ensures fallback == map s | s in accumulator :: Mean(accumulator[s])
  {
    fallback := map[];
    var remaining := accumulator.Keys;
    while remaining != {}
      invariant remaining <= accumulator.Keys
      invariant forall s :: s in fallback <==> s in accumulator && s !in remaining
      invariant forall s :: s in fallback ==> fallback[s] == Mean(accumulator[s])
      decreases remaining
    {
      var state :| state in remaining;
      var coords := accumulator[state];
      fallback := fallback[state := Coordinate(SumLatitudes(coords) / |coords| as real,
                                               SumLongitudes(coords) / |coords| as real)];
      remaining := remaining - {state};
    }
  }

  class CityLocator {
    var cityIndex: map<(string, string), seq<Coordinate>>
    var stateFallback: map<string, Coordinate>

    /** `CityLocator.__init__` over the rows of the place table. */
    constructor (rows: seq<PlaceRow>)
      ensures cityIndex == CityIndex(rows)
      ensures stateFallback == StateFallback(rows)
    {
      var index, accumulator := IndexRows(rows);
      var fallback := MeanByState(accumulator);
      cityIndex := index;
      stateFallback := fallback;
    }

    /** `CityLocator.lookup`: tries the variants in order, returning at the first with entries. */
    method Lookup(city: string, state: string) returns (r: Option<Coordinate>)
      ensures r == LookupIn(cityIndex, stateFallback, city, state)
    {
      var normalizedState := Upper(Strip(state));
      var normalizedCity := NormalizeCity(city);
      var variants := CityVariants(normalizedCity);
      assert normalizedState == NormalizeState(state);
      for k := 0 to |variants|
        invariant FirstHit(cityIndex, stateFallback, normalizedState, variants[k..])
               == LookupIn(cityIndex, stateFallback, city, state)
      {
        var variant := variants[k];
        assert variants[k..][1..] == variants[k + 1..];
        var key := (normalizedState, variant);
        if key in cityIndex && cityIndex[key] != [] {
          var values := cityIndex[key];
          return Some(Coordinate(SumLatitudes(values) / |values| as real, SumLongitudes(values) / |values| as real));
        }
      }
      if normalizedState in stateFallback {
        return Some(stateFallback[normalizedState]);
      }
      return None;
    }
  }
}
