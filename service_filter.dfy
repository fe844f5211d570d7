/**
 * The WHERE clause of the timeline and statistics services. Both services
 * build it with the same code: one equality or bound per supplied filter,
 * each with a single parameter, joined with " AND " ("1=1" when none is set).
 * The county filter is passed through `int()`, which raises on a county that
 * is not an integer; that outcome is `None` here.
 */
module ServiceFilters {
  import opened Options
  import opened Text
  import opened Sql

  datatype ServiceFilter = ServiceFilter(
    state: Option<string>,
    county: Option<string>,
    yearStart: Option<int>,
    yearEnd: Option<int>,
    solved: Option<bool>,
    victimSex: Option<string>,
    victimRace: Option<string>,
    victimAgeMin: Option<int>,
    victimAgeMax: Option<int>,
    weapon: Option<string>,
    relationship: Option<string>,
    circumstance: Option<string>)

  const NoServiceFilter := ServiceFilter(None, None, None, None, None, None, None, None, None, None, None, None)

  /** "UPPER(state) = UPPER(?)", kept in pieces so its placeholder can be counted. */
  const StateMatch := "UPPER(state) = UPPER(" + "?" + ")"

  lemma StateMatchCount()
    ensures CountChar(StateMatch, '?') == 1
  {
    CountCharAbsent("UPPER(state) = UPPER(", '?');
    CountCharAbsent(")", '?');
    QuestionMark();
    CountCharConcat3("UPPER(state) = UPPER(", "?", ")", '?');
  }

  /** `int(county)` raises: the county is set but is not an integer. */
  predicate CountyInvalid(county: Option<string>) {
    Truthy(county) && ParseInt(county.value).None?
  }

  /** The solved flag as the 1/0 the `solved` column holds. */
  function SolvedFlag(solved: bool): int {
    if solved then 1 else 0
  }

  function StateClauses(state: Option<string>): (r: seq<Clause>)
    ensures |r| == if Truthy(state) then 1 else 0
  {
    if Truthy(state) then [Clause(StateMatch, [Str(state.value)])] else []
  }

  function CountyClauses(county: Option<string>): (r: seq<Clause>)
    requires !CountyInvalid(county)
    ensures |r| == if Truthy(county) then 1 else 0
  {
    if Truthy(county) then [Compare("county_fips_code", "=", Int(ParseInt(county.value).value))] else []
  }

  function SolvedClauses(solved: Option<bool>): (r: seq<Clause>)
    ensures |r| == if solved.Some? then 1 else 0
  {
    IfSome("solved", "=", if solved.Some? then Some(SolvedFlag(solved.value)) else None)
  }

  /** State, county and year conditions. */
  function PlaceAndYearClauses(f: ServiceFilter): (r: seq<Clause>)
    requires !CountyInvalid(f.county)
    ensures |r| == (if Truthy(f.state) then 1 else 0) + (if Truthy(f.county) then 1 else 0)
      + (if f.yearStart.Some? then 1 else 0) + (if f.yearEnd.Some? then 1 else 0)
  {
    StateClauses(f.state)
    + CountyClauses(f.county)
    + IfSome("year", ">=", f.yearStart)
    + IfSome("year", "<=", f.yearEnd)
  }

  /** Solved status, victim sex and race, and the lower age bound. */
  function StatusAndVictimClauses(f: ServiceFilter): (r: seq<Clause>)
    ensures |r| == (if f.solved.Some? then 1 else 0)
      + (if Truthy(f.victimSex) then 1 else 0) + (if Truthy(f.victimRace) then 1 else 0)
      + (if f.victimAgeMin.Some? then 1 else 0)
  {
    SolvedClauses(f.solved)
    + IfTruthy("vic_sex", "=", f.victimSex, Str(f.victimSex.GetOr("")))
    + IfTruthy("vic_race", "=", f.victimRace, Str(f.victimRace.GetOr("")))
    + IfSome("vic_age", ">=", f.victimAgeMin)
  }

  /** The upper age bound, weapon, relationship and circumstance. */
  function AgeAndCrimeClauses(f: ServiceFilter): (r: seq<Clause>)
    ensures |r| == (if f.victimAgeMax.Some? then 1 else 0)
      + (if Truthy(f.weapon) then 1 else 0) + (if Truthy(f.relationship) then 1 else 0)
      + (if Truthy(f.circumstance) then 1 else 0)
  {
    IfSome("vic_age", "<=", f.victimAgeMax)
    + IfTruthy("weapon", "=", f.weapon, Str(f.weapon.GetOr("")))
    + IfTruthy("relationship", "=", f.relationship, Str(f.relationship.GetOr("")))
    + IfTruthy("circumstance", "=", f.circumstance, Str(f.circumstance.GetOr("")))
  }

  /** Every condition, in the order the builder adds them. */
  function ServiceClauses(f: ServiceFilter): seq<Clause>
    requires !CountyInvalid(f.county)
  {
    PlaceAndYearClauses(f) + StatusAndVictimClauses(f) + AgeAndCrimeClauses(f)
  }

  /** The builder's outcome: the rendered clause, or `None` when `int(county)` raises. */
  function ServiceQuery(f: ServiceFilter): (r: Option<Query>)
    ensures r.None? <==> Truthy(f.county) && ParseInt(f.county.value).None?
    ensures r.Some? ==> CountChar(r.value.where, '?') == |r.value.params|
  {
    if CountyInvalid(f.county) then None
    else
      ServiceClausesProper(f);
      PlaceholdersMatch(ServiceClauses(f));
      Some(Render(ServiceClauses(f)))
  }

  /** How many filters are supplied (truthy strings, present numbers and flags). */
  function ActiveFilters(f: ServiceFilter): nat {
    (if Truthy(f.state) then 1 else 0) + (if Truthy(f.county) then 1 else 0)
    + (if f.yearStart.Some? then 1 else 0) + (if f.yearEnd.Some? then 1 else 0)
    + (if f.solved.Some? then 1 else 0)
    + (if Truthy(f.victimSex) then 1 else 0) + (if Truthy(f.victimRace) then 1 else 0)
    + (if f.victimAgeMin.Some? then 1 else 0) + (if f.victimAgeMax.Some? then 1 else 0)
    + (if Truthy(f.weapon) then 1 else 0) + (if Truthy(f.relationship) then 1 else 0)
    + (if Truthy(f.circumstance) then 1 else 0)
  }

  // ---------------------------------------------------------------------------
  // The builder
  // ---------------------------------------------------------------------------

  /**
   * Appends one condition and one parameter per supplied filter and joins the
   * conditions; a county that `int()` rejects ends the build with `None`.
   */
  method BuildServiceFilter(f: ServiceFilter) returns (r: Option<Query>)
    ensures r == ServiceQuery(f)
  {
    var conditions: seq<string> := [];
    var params: seq<Param> := [];
    if CountyInvalid(f.county) {
      if Truthy(f.state) {
        conditions := conditions + [StateMatch];
        params := params + [Str(f.state.value)];
      }
      var county := ParseInt(f.county.value);
      assert county.None?;
      return None;
    }
    ghost var added: seq<Clause> := [];
    conditions, params := AddPlaceAndYear(conditions, params, added, f);
    added := added + PlaceAndYearClauses(f);
    conditions, params := AddStatusAndVictim(conditions, params, added, f);
    added := added + StatusAndVictimClauses(f);
    conditions, params := AddAgeAndCrime(conditions, params, added, f);
    added := added + AgeAndCrimeClauses(f);
    FromEmpty3(PlaceAndYearClauses(f), StatusAndVictimClauses(f), AgeAndCrimeClauses(f));
    var where := if |conditions| > 0 then Join(conditions, " AND ") else "1=1";
    r := Some(Query(where, params));
  }

  lemma FromEmpty3(a: seq<Clause>, b: seq<Clause>, c: seq<Clause>)
    ensures [] + a + b + c == a + b + c
  {
  }

  method AddPlaceAndYear(conditions: seq<string>, params: seq<Param>, ghost added: seq<Clause>, f: ServiceFilter)
    returns (conditions': seq<string>, params': seq<Param>)
    requires !CountyInvalid(f.county)
    requires Holds(conditions, params, added)
    ensures Holds(conditions', params', added + PlaceAndYearClauses(f))
  {
    conditions', params' := conditions, params;
    if Truthy(f.state) {
      Extend(conditions', params', added, Clause(StateMatch, [Str(f.state.value)]));
      conditions' := conditions' + [StateMatch];
      params' := params' + [Str(f.state.value)];
    } else {
      assert added + [] == added;
    }
    ghost var now := added + StateClauses(f.state);
    if Truthy(f.county) {
      var county := ParseInt(f.county.value);
      Extend(conditions', params', now, Compare("county_fips_code", "=", Int(county.value)));
      conditions' := conditions' + ["county_fips_code" + " " + "=" + " ?"];
      params' := params' + [Int(county.value)];
    } else {
      assert now + [] == now;
    }
    now := now + CountyClauses(f.county);
    conditions', params' := AddIfSome(conditions', params', now, "year", ">=", f.yearStart);
    now := now + IfSome("year", ">=", f.yearStart);
    conditions', params' := AddIfSome(conditions', params', now, "year", "<=", f.yearEnd);
    now := now + IfSome("year", "<=", f.yearEnd);
    Regroup(added, StateClauses(f.state), CountyClauses(f.county),
            IfSome("year", ">=", f.yearStart), IfSome("year", "<=", f.yearEnd));
  }

  method AddStatusAndVictim(conditions: seq<string>, params: seq<Param>, ghost added: seq<Clause>, f: ServiceFilter)
    returns (conditions': seq<string>, params': seq<Param>)
    requires Holds(conditions, params, added)
    ensures Holds(conditions', params', added + StatusAndVictimClauses(f))
  {
    var solved := if f.solved.Some? then Some(if f.solved.value then 1 else 0) else None;
    conditions', params' := AddIfSome(conditions, params, added, "solved", "=", solved);
    ghost var now := added + SolvedClauses(f.solved);
    conditions', params' := AddIfTruthy(conditions', params', now, "vic_sex", "=", f.victimSex, Str(f.victimSex.GetOr("")));
    now := now + IfTruthy("vic_sex", "=", f.victimSex, Str(f.victimSex.GetOr("")));
    conditions', params' := AddIfTruthy(conditions', params', now, "vic_race", "=", f.victimRace, Str(f.victimRace.GetOr("")));
    now := now + IfTruthy("vic_race", "=", f.victimRace, Str(f.victimRace.GetOr("")));
    conditions', params' := AddIfSome(conditions', params', now, "vic_age", ">=", f.victimAgeMin);
    now := now + IfSome("vic_age", ">=", f.victimAgeMin);
    Regroup(added, SolvedClauses(f.solved), IfTruthy("vic_sex", "=", f.victimSex, Str(f.victimSex.GetOr(""))),
            IfTruthy("vic_race", "=", f.victimRace, Str(f.victimRace.GetOr(""))), IfSome("vic_age", ">=", f.victimAgeMin));
  }

  method AddAgeAndCrime(conditions: seq<string>, params: seq<Param>, ghost added: seq<Clause>, f: ServiceFilter)
    returns (conditions': seq<string>, params': seq<Param>)
    requires Holds(conditions, params, added)
    ensures Holds(conditions', params', added + AgeAndCrimeClauses(f))
  {
    conditions', params' := AddIfSome(conditions, params, added, "vic_age", "<=", f.victimAgeMax);
    ghost var now := added + IfSome("vic_age", "<=", f.victimAgeMax);
    conditions', params' := AddIfTruthy(conditions', params', now, "weapon", "=", f.weapon, Str(f.weapon.GetOr("")));
    now := now + IfTruthy("weapon", "=", f.weapon, Str(f.weapon.GetOr("")));
    conditions', params' := AddIfTruthy(conditions', params', now, "relationship", "=", f.relationship, Str(f.relationship.GetOr("")));
    now := now + IfTruthy("relationship", "=", f.relationship, Str(f.relationship.GetOr("")));
    conditions', params' := AddIfTruthy(conditions', params', now, "circumstance", "=", f.circumstance, Str(f.circumstance.GetOr("")));
    now := now + IfTruthy("circumstance", "=", f.circumstance, Str(f.circumstance.GetOr("")));
    Regroup(added, IfSome("vic_age", "<=", f.victimAgeMax), IfTruthy("weapon", "=", f.weapon, Str(f.weapon.GetOr(""))),
            IfTruthy("relationship", "=", f.relationship, Str(f.relationship.GetOr(""))),
            IfTruthy("circumstance", "=", f.circumstance, Str(f.circumstance.GetOr(""))));
  }

  // ---------------------------------------------------------------------------
  // What the builder guarantees
  // ---------------------------------------------------------------------------

  lemma PlaceAndYearProper(f: ServiceFilter)
    requires !CountyInvalid(f.county)
    ensures Proper(PlaceAndYearClauses(f))
  {
    StateMatchCount();
    if Truthy(f.county) {
      CompareBalanced("county_fips_code", "=", Int(ParseInt(f.county.value).value));
    }
    IfSomeProper("year", ">=", f.yearStart);
    IfSomeProper("year", "<=", f.yearEnd);
    ProperConcat4(StateClauses(f.state), CountyClauses(f.county),
                  IfSome("year", ">=", f.yearStart), IfSome("year", "<=", f.yearEnd));
  }

  lemma StatusAndVictimProper(f: ServiceFilter)
    ensures Proper(StatusAndVictimClauses(f))
  {
    IfSomeProper("solved", "=", if f.solved.Some? then Some(SolvedFlag(f.solved.value)) else None);
    IfTruthyProper("vic_sex", "=", f.victimSex, Str(f.victimSex.GetOr("")));
    IfTruthyProper("vic_race", "=", f.victimRace, Str(f.victimRace.GetOr("")));
    IfSomeProper("vic_age", ">=", f.victimAgeMin);
    ProperConcat4(SolvedClauses(f.solved), IfTruthy("vic_sex", "=", f.victimSex, Str(f.victimSex.GetOr(""))),
                  IfTruthy("vic_race", "=", f.victimRace, Str(f.victimRace.GetOr(""))),
                  IfSome("vic_age", ">=", f.victimAgeMin));
  }

  lemma AgeAndCrimeProper(f: ServiceFilter)
    ensures Proper(AgeAndCrimeClauses(f))
  {
    IfSomeProper("vic_age", "<=", f.victimAgeMax);
    IfTruthyProper("weapon", "=", f.weapon, Str(f.weapon.GetOr("")));
    IfTruthyProper("relationship", "=", f.relationship, Str(f.relationship.GetOr("")));
    IfTruthyProper("circumstance", "=", f.circumstance, Str(f.circumstance.GetOr("")));
    ProperConcat4(IfSome("vic_age", "<=", f.victimAgeMax), IfTruthy("weapon", "=", f.weapon, Str(f.weapon.GetOr(""))),
                  IfTruthy("relationship", "=", f.relationship, Str(f.relationship.GetOr(""))),
                  IfTruthy("circumstance", "=", f.circumstance, Str(f.circumstance.GetOr(""))));
  }

  lemma ServiceClausesProper(f: ServiceFilter)
    requires !CountyInvalid(f.county)
    ensures Proper(ServiceClauses(f))
  {
    PlaceAndYearProper(f);
    StatusAndVictimProper(f);
    AgeAndCrimeProper(f);
    ProperConcat(PlaceAndYearClauses(f), StatusAndVictimClauses(f));
    ProperConcat(PlaceAndYearClauses(f) + StatusAndVictimClauses(f), AgeAndCrimeClauses(f));
  }

  /** Each supplied filter adds exactly one condition. */
  lemma ServiceClauseCount(f: ServiceFilter)
    requires !CountyInvalid(f.county)
    ensures |ServiceClauses(f)| == ActiveFilters(f)
  {
  }

  /** Whenever the build succeeds, the clause has one placeholder per parameter. */
  lemma ServicePlaceholdersMatch(f: ServiceFilter)
    ensures ServiceQuery(f).Some? ==> CountChar(ServiceQuery(f).value.where, '?') == |ServiceQuery(f).value.params|
  {
    if !CountyInvalid(f.county) {
      ServiceClausesProper(f);
      PlaceholdersMatch(ServiceClauses(f));
    }
  }

  /** The build fails exactly when a county is given that `int()` rejects. */
  lemma ServiceQueryFails(f: ServiceFilter)
    ensures ServiceQuery(f).None? <==> Truthy(f.county) && ParseInt(f.county.value).None?
  {
  }

  /** The clause is "1=1", with no parameters, exactly when no filter is supplied. */
  lemma ServiceNoFilter(f: ServiceFilter)
    requires !CountyInvalid(f.county)
    ensures ServiceQuery(f).value.where == "1=1" <==> ActiveFilters(f) == 0
    ensures ActiveFilters(f) == 0 ==> ServiceQuery(f).value.params == []
  {
    ServiceClausesProper(f);
    ServiceClauseCount(f);
    NoConditions(ServiceClauses(f));
  }

  /** The solved flag alone binds the single parameter 1 for solved and 0 for unsolved. */
  lemma SolvedParameter(solved: bool)
    ensures ServiceQuery(NoServiceFilter.(solved := Some(solved))).value.params == [Int(if solved then 1 else 0)]
  {
    var f := NoServiceFilter.(solved := Some(solved));
    assert PlaceAndYearClauses(f) == [] && AgeAndCrimeClauses(f) == [];
    var c := Compare("solved", "=", Int(SolvedFlag(solved)));
    assert ServiceClauses(f) == [c];
    assert [c][..0] == [];
    assert Args([c]) == Args([]) + c.args;
  }
}
