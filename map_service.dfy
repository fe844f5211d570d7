/**
 * The map service: the WHERE clause of the map queries (which always demands
 * a county code), the per-county aggregation with the map bounds it derives,
 * and the case points with their clamped limit. Running the SQL is not
 * modelled: the rows it returns are inputs, in the order the query sorts them.
 */
module MapService {
  import opened Options
  import opened Text
  import opened Sql
  import opened ServiceFilters
  import opened Breakdowns

  // ---------------------------------------------------------------------------
  // The filter
  // ---------------------------------------------------------------------------

  /** The map filter: list filters take any number of values; an absent and an empty list both mean "no filter". */
  datatype MapFilter = MapFilter(
    state: Option<string>,
    county: Option<string>,
    yearStart: Option<int>,
    yearEnd: Option<int>,
    solved: Option<bool>,
    vicSex: seq<string>,
    vicRace: seq<string>,
    vicAgeMin: Option<int>,
    vicAgeMax: Option<int>,
    weapon: seq<string>,
    relationship: seq<string>,
    circumstance: seq<string>)

  /** No optional filter supplied. */
  const NoMapFilter := MapFilter(None, None, None, None, None, [], [], None, None, [], [], [])

  /** The condition every map query starts with. */
  const HasCounty := "county_fips_code IS NOT NULL"

  const Required := Clause(HasCounty, [])

  lemma RequiredProper()
    ensures Proper([Required])
  {
    CountCharAbsent(HasCounty, '?');
  }

  /** State, county and years are added by the same code as in the timeline and statistics services. */
  function Place(f: MapFilter): ServiceFilter {
    NoServiceFilter.(state := f.state, county := f.county, yearStart := f.yearStart, yearEnd := f.yearEnd)
  }

  /** Solved status, victim sex and race lists, and the lower age bound. */
  function VictimClauses(f: MapFilter): (r: seq<Clause>)
    ensures |r| == (if f.solved.Some? then 1 else 0) + (if |f.vicSex| > 0 then 1 else 0)
      + (if |f.vicRace| > 0 then 1 else 0) + (if f.vicAgeMin.Some? then 1 else 0)
  {
    SolvedClauses(f.solved)
    + IfAny("vic_sex", f.vicSex)
    + IfAny("vic_race", f.vicRace)
    + IfSome("vic_age", ">=", f.vicAgeMin)
  }

  /** The upper age bound and the weapon, relationship and circumstance lists. */
  function CrimeClauses(f: MapFilter): (r: seq<Clause>)
    ensures |r| == (if f.vicAgeMax.Some? then 1 else 0) + (if |f.weapon| > 0 then 1 else 0)
      + (if |f.relationship| > 0 then 1 else 0) + (if |f.circumstance| > 0 then 1 else 0)
  {
    IfSome("vic_age", "<=", f.vicAgeMax)
    + IfAny("weapon", f.weapon)
    + IfAny("relationship", f.relationship)
    + IfAny("circumstance", f.circumstance)
  }

  /** Every condition, in the order the builder adds them. */
  function MapClauses(f: MapFilter): seq<Clause>
    requires !CountyInvalid(f.county)
  {
    [Required] + PlaceAndYearClauses(Place(f)) + VictimClauses(f) + CrimeClauses(f)
  }

  /** The builder's outcome: the rendered clause, or `None` when `int(county)` raises. */
  function MapQuery(f: MapFilter): Option<Query> {
    if CountyInvalid(f.county) then None else Some(Render(MapClauses(f)))
  }

  /** `_build_map_filter_conditions` */
  method BuildMapFilter(f: MapFilter) returns (r: Option<Query>)
    ensures r == MapQuery(f)
  {
    var conditions: seq<string> := [HasCounty];
    var params: seq<Param> := [];
    if CountyInvalid(f.county) {
      if Truthy(f.state) {
        conditions := conditions + [StateMatch];
        params := params + [Str(f.state.value)];
      }
      var county := ParseInt(f.county.value);
      assert county.None?;
      return None;
    }
    ghost var added := [Required];
    assert Conditions(added) == [HasCounty];
    conditions, params := AddPlaceAndYear(conditions, params, added, Place(f));
    added := added + PlaceAndYearClauses(Place(f));
    conditions, params := AddVictim(conditions, params, added, f);
    added := added + VictimClauses(f);
    conditions, params := AddCrime(conditions, params, added, f);
    added := added + CrimeClauses(f);
    var where := if |conditions| > 0 then Join(conditions, " AND ") else "1=1";
    r := Some(Query(where, params));
  }

  method AddVictim(conditions: seq<string>, params: seq<Param>, ghost added: seq<Clause>, f: MapFilter)
    returns (conditions': seq<string>, params': seq<Param>)
    requires Holds(conditions, params, added)
    ensures Holds(conditions', params', added + VictimClauses(f))
  {
    var solved := if f.solved.Some? then Some(if f.solved.value then 1 else 0) else None;
    conditions', params' := AddIfSome(conditions, params, added, "solved", "=", solved);
    ghost var now := added + SolvedClauses(f.solved);
    conditions', params' := AddInList(conditions', params', now, "vic_sex", f.vicSex);
    now := now + IfAny("vic_sex", f.vicSex);
    conditions', params' := AddInList(conditions', params', now, "vic_race", f.vicRace);
    now := now + IfAny("vic_race", f.vicRace);
    conditions', params' := AddIfSome(conditions', params', now, "vic_age", ">=", f.vicAgeMin);
    Regroup(added, SolvedClauses(f.solved), IfAny("vic_sex", f.vicSex), IfAny("vic_race", f.vicRace),
            IfSome("vic_age", ">=", f.vicAgeMin));
  }

  method AddCrime(conditions: seq<string>, params: seq<Param>, ghost added: seq<Clause>, f: MapFilter)
    returns (conditions': seq<string>, params': seq<Param>)
    requires Holds(conditions, params, added)
    ensures Holds(conditions', params', added + CrimeClauses(f))
  {
    conditions', params' := AddIfSome(conditions, params, added, "vic_age", "<=", f.vicAgeMax);
    ghost var now := added + IfSome("vic_age", "<=", f.vicAgeMax);
    conditions', params' := AddInList(conditions', params', now, "weapon", f.weapon);
    now := now + IfAny("weapon", f.weapon);
    conditions', params' := AddInList(conditions', params', now, "relationship", f.relationship);
    now := now + IfAny("relationship", f.relationship);
    conditions', params' := AddInList(conditions', params', now, "circumstance", f.circumstance);
    Regroup(added, IfSome("vic_age", "<=", f.vicAgeMax), IfAny("weapon", f.weapon),
            IfAny("relationship", f.relationship), IfAny("circumstance", f.circumstance));
  }

  lemma VictimProper(f: MapFilter)
    ensures Proper(VictimClauses(f))
  {
    IfSomeProper("solved", "=", if f.solved.Some? then Some(SolvedFlag(f.solved.value)) else None);
    IfAnyProper("vic_sex", f.vicSex);
    IfAnyProper("vic_race", f.vicRace);
    IfSomeProper("vic_age", ">=", f.vicAgeMin);
    ProperConcat4(SolvedClauses(f.solved), IfAny("vic_sex", f.vicSex), IfAny("vic_race", f.vicRace),
                  IfSome("vic_age", ">=", f.vicAgeMin));
  }

  lemma CrimeProper(f: MapFilter)
    ensures Proper(CrimeClauses(f))
  {
    IfSomeProper("vic_age", "<=", f.vicAgeMax);
    IfAnyProper("weapon", f.weapon);
    IfAnyProper("relationship", f.relationship);
    IfAnyProper("circumstance", f.circumstance);
    ProperConcat4(IfSome("vic_age", "<=", f.vicAgeMax), IfAny("weapon", f.weapon),
                  IfAny("relationship", f.relationship), IfAny("circumstance", f.circumstance));
  }

  lemma MapClausesProper(f: MapFilter)
    requires !CountyInvalid(f.county)
    ensures Proper(MapClauses(f))
  {
    RequiredProper();
    PlaceAndYearProper(Place(f));
    VictimProper(f);
    CrimeProper(f);
    ProperConcat4([Required], PlaceAndYearClauses(Place(f)), VictimClauses(f), CrimeClauses(f));
  }

  /** How many optional filters are supplied (truthy strings and lists, present numbers and flags). */
  function ActiveMapFilters(f: MapFilter): nat {
    (if Truthy(f.state) then 1 else 0) + (if Truthy(f.county) then 1 else 0)
    + (if f.yearStart.Some? then 1 else 0) + (if f.yearEnd.Some? then 1 else 0)
    + (if f.solved.Some? then 1 else 0)
    + (if |f.vicSex| > 0 then 1 else 0) + (if |f.vicRace| > 0 then 1 else 0)
    + (if f.vicAgeMin.Some? then 1 else 0) + (if f.vicAgeMax.Some? then 1 else 0)
    + (if |f.weapon| > 0 then 1 else 0) + (if |f.relationship| > 0 then 1 else 0)
    + (if |f.circumstance| > 0 then 1 else 0)
  }

  /** The required condition plus one per supplied filter: a list adds one "IN (…)" however long it is. */
  lemma MapClauseCount(f: MapFilter)
    requires !CountyInvalid(f.county)
    ensures |MapClauses(f)| == 1 + ActiveMapFilters(f)
  {
  }

  /** Whenever the build succeeds, the clause has one placeholder per parameter. */
  lemma MapPlaceholdersMatch(f: MapFilter)
    ensures MapQuery(f).Some? ==> CountChar(MapQuery(f).value.where, '?') == |MapQuery(f).value.params|
  {
    if !CountyInvalid(f.county) {
      MapClausesProper(f);
      PlaceholdersMatch(MapClauses(f));
    }
  }

  /** The clause always starts with the county-code condition, so it is never "1=1". */
  lemma MapFilterNeverTrivial(f: MapFilter)
    requires !CountyInvalid(f.county)
    ensures HasCounty <= MapQuery(f).value.where
    ensures MapQuery(f).value.where != "1=1"
  {
    var cs := MapClauses(f);
    assert cs[0] == Required;
    WhereStartsWith(HasCounty, cs);
    MapClausesProper(f);
    NoConditions(cs);
  }

  /** The parameter an optional number adds. */
  function IntArgs(value: Option<int>): seq<Param> {
    if value.Some? then [Int(value.value)] else []
  }

  lemma IfAnyArgs(column: string, values: seq<string>)
    ensures Args(IfAny(column, values)) == Strs(values)
  {
    if |values| > 0 {
      assert IfAny(column, values)[..0] == [];
    }
  }

  lemma IfSomeArgs(column: string, op: string, value: Option<int>)
    ensures Args(IfSome(column, op, value)) == IntArgs(value)
  {
    if value.Some? {
      assert IfSome(column, op, value)[..0] == [];
    }
  }

  /** The parameters of the victim conditions: the solved flag, both lists, the lower age bound. */
  function VictimParams(f: MapFilter): seq<Param> {
    IntArgs(if f.solved.Some? then Some(SolvedFlag(f.solved.value)) else None)
    + Strs(f.vicSex) + Strs(f.vicRace) + IntArgs(f.vicAgeMin)
  }

  /** The parameters of the crime conditions: the upper age bound and the three lists. */
  function CrimeParams(f: MapFilter): seq<Param> {
    IntArgs(f.vicAgeMax) + Strs(f.weapon) + Strs(f.relationship) + Strs(f.circumstance)
  }

  lemma VictimArgs(f: MapFilter)
    ensures Args(VictimClauses(f)) == VictimParams(f)
  {
    var a, b, c, d := SolvedClauses(f.solved), IfAny("vic_sex", f.vicSex), IfAny("vic_race", f.vicRace),
                      IfSome("vic_age", ">=", f.vicAgeMin);
    ArgsConcat(a + b + c, d);
    ArgsConcat(a + b, c);
    ArgsConcat(a, b);
    IfSomeArgs("solved", "=", if f.solved.Some? then Some(SolvedFlag(f.solved.value)) else None);
    IfAnyArgs("vic_sex", f.vicSex);
    IfAnyArgs("vic_race", f.vicRace);
    IfSomeArgs("vic_age", ">=", f.vicAgeMin);
  }

  lemma CrimeArgs(f: MapFilter)
    ensures Args(CrimeClauses(f)) == CrimeParams(f)
  {
    var a, b, c, d := IfSome("vic_age", "<=", f.vicAgeMax), IfAny("weapon", f.weapon),
                      IfAny("relationship", f.relationship), IfAny("circumstance", f.circumstance);
    ArgsConcat(a + b + c, d);
    ArgsConcat(a + b, c);
    ArgsConcat(a, b);
    IfSomeArgs("vic_age", "<=", f.vicAgeMax);
    IfAnyArgs("weapon", f.weapon);
    IfAnyArgs("relationship", f.relationship);
    IfAnyArgs("circumstance", f.circumstance);
  }

  /**
   * The parameters follow the filters in the builder's order, and each list
   * filter contributes its values, in order: one per placeholder of its "IN (…)".
   */
  lemma MapParameters(f: MapFilter)
    requires !CountyInvalid(f.county)
    ensures MapQuery(f).value.params == Args(PlaceAndYearClauses(Place(f))) + VictimParams(f) + CrimeParams(f)
  {
    var p, v, c := PlaceAndYearClauses(Place(f)), VictimClauses(f), CrimeClauses(f);
    assert MapQuery(f).value.params == Args([Required] + p + v + c);
    ArgsConcat([Required] + p + v, c);
    ArgsConcat([Required] + p, v);
    ArgsConcat([Required], p);
    assert Args([Required]) == [];
    var head := Args([Required] + p);
    assert head == Args(p);
    VictimArgs(f);
    CrimeArgs(f);
    assert Args([Required] + p + v) == Args(p) + VictimParams(f);
  }

  /** The build fails exactly when a county is given that `int()` rejects. */
  lemma MapQueryFails(f: MapFilter)
    ensures MapQuery(f).None? <==> Truthy(f.county) && ParseInt(f.county.value).None?
  {
  }

  // ---------------------------------------------------------------------------
  // County aggregation
  // ---------------------------------------------------------------------------

  /** A row grouped by county code: the code, COUNT(*) and the two SUMs. */
  datatype CountyRow = CountyRow(fips: Option<int>, totalCases: int, solvedCases: Option<int>, unsolvedCases: Option<int>)

  /** A county's names and centroid from the centroid table. */
  datatype CountyInfo = CountyInfo(stateName: string, countyName: string, latitude: real, longitude: real)

  datatype CountyMapData = CountyMapData(fips: string, stateName: string, countyName: string,
                                         latitude: real, longitude: real,
                                         totalCases: int, solvedCases: int, unsolvedCases: int, solveRate: real)

  /** The running minimum and maximum latitude and longitude. */
  datatype Extent = Extent(minLat: real, maxLat: real, minLon: real, maxLon: real)

  datatype MapBounds = MapBounds(north: real, south: real, east: real, west: real)

  /** The extent before any county: every real centroid lies inside the opposite corners. */
  const Unseen := Extent(90.0, -90.0, 180.0, -180.0)

  /** `str(fips).zfill(5)` */
  function FipsText(fips: int): (r: string)
    ensures |r| >= 5
    ensures fips >= 0 ==> ParseInt(r) == Some(fips)
  {
    assert fips >= 0 ==> ParseInt(ZFill(IntToString(fips), 5)) == Some(fips) by {
      if fips >= 0 {
        ParseZFilledNat(fips, 5);
      }
    }
    ZFill(IntToString(fips), 5)
  }

  /** A code is rendered with at least five characters, and a non-negative code reads back as itself. */
  lemma FipsTextFacts(fips: int)
    ensures |FipsText(fips)| >= 5
    ensures fips >= 0 ==> ParseInt(FipsText(fips)) == Some(fips)
  {
    if fips >= 0 {
      ParseZFilledNat(fips, 5);
    }
  }

  /** A row is used when its code is present and the centroid table knows it. */
  predicate Kept(row: CountyRow, info: map<int, CountyInfo>) {
    row.fips.Some? && row.fips.value in info
  }

  function CountyData(row: CountyRow, info: map<int, CountyInfo>): CountyMapData
    requires Kept(row, info)
  {
    var county := info[row.fips.value];
    var solved := OrInt(row.solvedCases, 0);
    CountyMapData(FipsText(row.fips.value), county.stateName, county.countyName, county.latitude, county.longitude,
                  row.totalCases, solved, OrInt(row.unsolvedCases, 0), ShareOf(solved, row.totalCases))
  }

  function Min(a: real, b: real): real { if b < a then b else a }
  function Max(a: real, b: real): real { if b > a then b else a }

  datatype Aggregation = Aggregation(counties: seq<CountyMapData>, totalCases: int, extent: Extent)

  /** One row of the loop: a kept row adds its county, its total and its centroid; any other is skipped. */
  function Step(a: Aggregation, row: CountyRow, info: map<int, CountyInfo>): Aggregation {
    if !Kept(row, info) then a
    else
      var county := info[row.fips.value];
      var e := a.extent;
      Aggregation(a.counties + [CountyData(row, info)], a.totalCases + row.totalCases,
                  Extent(Min(e.minLat, county.latitude), Max(e.maxLat, county.latitude),
                         Min(e.minLon, county.longitude), Max(e.maxLon, county.longitude)))
  }

  /** The loop over all rows. */
  function Aggregate(rows: seq<CountyRow>, info: map<int, CountyInfo>): (r: Aggregation)
    ensures |r.counties| <= |rows|
    ensures AllCovered(r)
  {
    if rows == [] then Aggregation([], 0, Unseen)
    else
      var before := Aggregate(rows[..|rows| - 1], info);
      StepCovers(before, rows[|rows| - 1], info);
      Step(before, rows[|rows| - 1], info)
  }

  /** The rows the loop keeps, in order. */
  function KeptRows(rows: seq<CountyRow>, info: map<int, CountyInfo>): (r: seq<CountyRow>)
    ensures forall k :: 0 <= k < |r| ==> Kept(r[k], info) && r[k] in rows
  {
    if rows == [] then []
    else KeptRows(rows[..|rows| - 1], info) + (if Kept(rows[|rows| - 1], info) then [rows[|rows| - 1]] else [])
  }

  /** The sum of the totals of some rows. */
  function RowsTotal(rows: seq<CountyRow>): int {
    if rows == [] then 0 else RowsTotal(rows[..|rows| - 1]) + rows[|rows| - 1].totalCases
  }

  /** The counties of `a` are the given rows' data, in order, and its total is the sum of their totals. */
  predicate CountiesOf(a: Aggregation, kept: seq<CountyRow>, info: map<int, CountyInfo>)
    requires forall k :: 0 <= k < |kept| ==> Kept(kept[k], info)
  {
    && |a.counties| == |kept|
    && (forall k :: 0 <= k < |kept| ==> a.counties[k] == CountyData(kept[k], info))
    && a.totalCases == RowsTotal(kept)
  }

  lemma StepKeeps(a: Aggregation, kept: seq<CountyRow>, row: CountyRow, info: map<int, CountyInfo>)
    requires forall k :: 0 <= k < |kept| ==> Kept(kept[k], info)
    requires CountiesOf(a, kept, info)
    ensures Kept(row, info) ==> CountiesOf(Step(a, row, info), kept + [row], info)
    ensures !Kept(row, info) ==> Step(a, row, info) == a
  {
    if Kept(row, info) {
      assert (kept + [row])[..|kept|] == kept;
    }
  }

  /** The counties are exactly the kept rows, in order, and the total is the sum of their totals. */
  lemma {:induction false} AggregateKeeps(rows: seq<CountyRow>, info: map<int, CountyInfo>)
    ensures CountiesOf(Aggregate(rows, info), KeptRows(rows, info), info)
  {
    if rows != [] {
      var init := rows[..|rows| - 1];
      var last := rows[|rows| - 1];
      AggregateKeeps(init, info);
      StepKeeps(Aggregate(init, info), KeptRows(init, info), last, info);
      if !Kept(last, info) {
        assert KeptRows(rows, info) == KeptRows(init, info);
      }
    }
  }

  predicate Covers(e: Extent, c: CountyMapData) {
    e.minLat <= c.latitude <= e.maxLat && e.minLon <= c.longitude <= e.maxLon
  }

  /** Every county of `a` lies inside its extent. */
  predicate AllCovered(a: Aggregation) {
    forall k :: 0 <= k < |a.counties| ==> Covers(a.extent, a.counties[k])
  }

  lemma StepCovers(a: Aggregation, row: CountyRow, info: map<int, CountyInfo>)
    requires AllCovered(a)
    ensures AllCovered(Step(a, row, info))
  {
    if Kept(row, info) {
      var b := Step(a, row, info);
      forall k | 0 <= k < |b.counties|
        ensures Covers(b.extent, b.counties[k])
      {
        if k < |a.counties| {
          assert b.counties[k] == a.counties[k];
          assert Covers(a.extent, a.counties[k]);
        }
      }
    }
  }

  /** Every county's centroid lies inside the extent. */
  lemma {:induction false} AggregateCovers(rows: seq<CountyRow>, info: map<int, CountyInfo>)
    ensures AllCovered(Aggregate(rows, info))
  {
    if rows != [] {
      AggregateCovers(rows[..|rows| - 1], info);
      StepCovers(Aggregate(rows[..|rows| - 1], info), rows[|rows| - 1], info);
    }
  }

  /** `span * 0.1 or 1.0` */
  function Padding(span: real): (r: real)
    ensures r != 0.0
    ensures span >= 0.0 ==> r > 0.0
  {
    if span * 0.1 != 0.0 then span * 0.1 else 1.0
  }

  /** The bounds: fixed continental bounds with no county, else the padded extent within the caps. */
  function Bounds(empty: bool, e: Extent): (r: MapBounds)
    ensures !empty ==> r.north <= 72.0 && r.south >= 18.0 && r.east <= -66.0 && r.west >= -180.0
    ensures empty ==> r.north == 49.0 && r.south == 25.0 && r.east == -66.0 && r.west == -125.0
  {
    if empty then MapBounds(49.0, 25.0, -66.0, -125.0)
    else
      var latPadding := Padding(e.maxLat - e.minLat);
      var lonPadding := Padding(e.maxLon - e.minLon);
      MapBounds(Min(e.maxLat + latPadding, 72.0), Max(e.minLat - latPadding, 18.0),
                Min(e.maxLon + lonPadding, -66.0), Max(e.minLon - lonPadding, -180.0))
  }

  /** A non-negative span gets a positive padding. */
  lemma PaddingPositive(span: real)
    requires span >= 0.0
    ensures Padding(span) > 0.0
  {
  }

  /**
   * Bounds over counties respect the caps, and every county whose centroid
   * lies within the caps lies within the bounds.
   */
  lemma BoundsContain(e: Extent, c: CountyMapData)
    requires Covers(e, c)
    ensures var b := Bounds(false, e);
      && b.north <= 72.0 && b.south >= 18.0 && b.east <= -66.0 && b.west >= -180.0
      && (c.latitude <= 72.0 ==> c.latitude <= b.north)
      && (c.latitude >= 18.0 ==> b.south <= c.latitude)
      && (c.longitude <= -66.0 ==> c.longitude <= b.east)
      && (c.longitude >= -180.0 ==> b.west <= c.longitude)
  {
    PaddingPositive(e.maxLat - e.minLat);
    PaddingPositive(e.maxLon - e.minLon);
  }

  /** `get_county_aggregations` after the query: the row loop, then the bounds. */
  method BuildCountyAggregation(rows: seq<CountyRow>, info: map<int, CountyInfo>)
    returns (counties: seq<CountyMapData>, totalCases: int, bounds: MapBounds)
    ensures Aggregation(counties, totalCases, Aggregate(rows, info).extent) == Aggregate(rows, info)
    ensures bounds == Bounds(counties == [], Aggregate(rows, info).extent)
  {
    counties := [];
    totalCases := 0;
    var minLat, maxLat := 90.0, -90.0;
    var minLon, maxLon := 180.0, -180.0;
    for i := 0 to |rows|
      invariant Aggregation(counties, totalCases, Extent(minLat, maxLat, minLon, maxLon)) == Aggregate(rows[..i], info)
    {
      assert rows[..i + 1][..i] == rows[..i];
      var row := rows[i];
      if row.fips.None? {
        continue;
      }
      var fips := row.fips.value;
      if fips !in info {
        continue;
      }
      var county := info[fips];
      counties := counties + [CountyData(row, info)];
      totalCases := totalCases + row.totalCases;
      minLat := Min(minLat, county.latitude);
      maxLat := Max(maxLat, county.latitude);
      minLon := Min(minLon, county.longitude);
      maxLon := Max(maxLon, county.longitude);
    }
    assert rows[..|rows|] == rows;
    bounds := Bounds(counties == [], Extent(minLat, maxLat, minLon, maxLon));
  }

  /** With no usable county the bounds are the fixed ones; otherwise every capped centroid is inside them. */
  lemma AggregationBounds(rows: seq<CountyRow>, info: map<int, CountyInfo>)
    ensures var a := Aggregate(rows, info);
      && (a.counties == [] ==> Bounds(true, a.extent) == MapBounds(49.0, 25.0, -66.0, -125.0))
      && (forall k :: 0 <= k < |a.counties| ==>
            var c := a.counties[k];
            var b := Bounds(false, a.extent);
            (18.0 <= c.latitude <= 72.0 ==> b.south <= c.latitude <= b.north)
            && (-180.0 <= c.longitude <= -66.0 ==> b.west <= c.longitude <= b.east))
  {
    var a := Aggregate(rows, info);
    AggregateCovers(rows, info);
    forall k | 0 <= k < |a.counties|
      ensures var c := a.counties[k];
              var b := Bounds(false, a.extent);
              (18.0 <= c.latitude <= 72.0 ==> b.south <= c.latitude <= b.north)
              && (-180.0 <= c.longitude <= -66.0 ==> b.west <= c.longitude <= b.east)
    {
      BoundsContain(a.extent, a.counties[k]);
    }
  }

  // ---------------------------------------------------------------------------
  // Case points
  // ---------------------------------------------------------------------------

  /** `min(max(limit, 1), 5000)` */
  function ClampLimit(limit: int): (l: int)
    ensures 1 <= l <= 5000
    ensures 1 <= limit <= 5000 ==> l == limit
    ensures limit < 1 ==> l == 1
    ensures limit > 5000 ==> l == 5000
  {
    var lower := if limit > 1 then limit else 1;
    if lower < 5000 then lower else 5000
  }

  /** Case points must also have coordinates. */
  const HasLatitude := " AND latitude IS NOT NULL"
  const HasLongitude := " AND longitude IS NOT NULL"
  const HasCoordinates := HasLatitude + HasLongitude

  lemma CoordinatesFree()
    ensures CountChar(HasCoordinates, '?') == 0
  {
    CountCharAbsent(HasLatitude, '?');
    CountCharAbsent(HasLongitude, '?');
    CountCharConcat(HasLatitude, HasLongitude, '?');
  }

  /** The clause of the case-point queries: the map clause with the coordinate conditions appended. */
  function CasePointsQuery(f: MapFilter): Option<Query> {
    if CountyInvalid(f.county) then None
    else Some(Query(MapQuery(f).value.where + HasCoordinates, MapQuery(f).value.params))
  }

  /** The appended conditions hold no placeholder, so the clause still has one per parameter. */
  lemma CasePointsPlaceholders(f: MapFilter)
    ensures CasePointsQuery(f).Some? <==> MapQuery(f).Some?
    ensures CasePointsQuery(f).Some? ==>
      CountChar(CasePointsQuery(f).value.where, '?') == |CasePointsQuery(f).value.params|
  {
    if !CountyInvalid(f.county) {
      MapPlaceholdersMatch(f);
      CoordinatesFree();
      CountCharConcat(MapQuery(f).value.where, HasCoordinates, '?');
    }
  }

  /** A matching case as selected: latitude and longitude are non-NULL by the WHERE clause. */
  datatype CaseRow = CaseRow(id: string, latitude: real, longitude: real, year: int, solved: Option<int>,
                             vicSex: Option<string>, vicAge: Option<int>, weapon: Option<string>)

  datatype MapCasePoint = MapCasePoint(caseId: string, latitude: real, longitude: real, year: int, solved: bool,
                                       victimSex: Option<string>, victimAge: Option<int>, weapon: Option<string>)

  /** 999 is the unknown-age code and becomes no age; any other value, NULL included, is kept. */
  function VictimAge(age: Option<int>): (r: Option<int>)
    ensures age == Some(999) ==> r.None?
    ensures age != Some(999) ==> r == age
  {
    if age != Some(999) then age else None
  }

  function CasePoint(row: CaseRow): (r: MapCasePoint)
    ensures r.caseId == row.id && r.latitude == row.latitude && r.longitude == row.longitude
    ensures r.solved <==> row.solved.Some? && row.solved.value != 0
    ensures r.victimAge != Some(999)
  {
    MapCasePoint(row.id, row.latitude, row.longitude, row.year, row.solved.Some? && row.solved.value != 0,
                 row.vicSex, VictimAge(row.vicAge), row.weapon)
  }

  /**
   * `get_case_points` after building the clause: COUNT(*) over the matching
   * rows, the first `limit` of them (by the query's order) as points, and
   * whether the limit cut any off.
   */
  method BuildCasePoints(matching: seq<CaseRow>, limit: int)
    returns (cases: seq<MapCasePoint>, total: int, limited: bool)
    ensures total == |matching|
    ensures |cases| <= ClampLimit(limit) && |cases| <= |matching|
    ensures |cases| == ClampLimit(limit) || |cases| == |matching|
    ensures forall i :: 0 <= i < |cases| ==> cases[i] == CasePoint(matching[i])
    ensures limited <==> total > ClampLimit(limit)
    ensures limited <==> |cases| < |matching|
  {
    var clamped := ClampLimit(limit);
    total := |matching|;
    var rows := if |matching| <= clamped then matching else matching[..clamped];
    cases := [];
    for i := 0 to |rows|
      invariant |cases| == i
      invariant forall j :: 0 <= j < i ==> cases[j] == CasePoint(rows[j])
    {
      cases := cases + [CasePoint(rows[i])];
    }
    limited := total > clamped;
  }
}
