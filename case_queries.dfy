/**
 * The case browser's query side: the WHERE clause built from a case filter
 * (with its "year:id" pagination cursor), one page cut from the fetched rows
 * together with the cursor of the next page, and the filter statistics.
 * Running the SQL is not modelled: fetched rows are inputs.
 */
module CaseQueries {
  import opened Options
  import opened Rounding
  import opened Text
  import opened Sorting
  import opened Sql

  /**
   * The filter of a case search. An absent list and an empty list are both
   * "no filter", so list filters are plain sequences.
   */
  datatype CaseFilter = CaseFilter(
    states: seq<string>,
    yearMin: Option<int>,
    yearMax: Option<int>,
    solved: Option<int>,
    vicSex: seq<string>,
    vicRace: seq<string>,
    vicEthnic: seq<string>,
    vicAgeMin: Option<int>,
    vicAgeMax: Option<int>,
    includeUnknownAge: bool,
    weapon: seq<string>,
    relationship: seq<string>,
    circumstance: seq<string>,
    situation: seq<string>,
    county: seq<string>,
    msa: seq<string>,
    agencySearch: Option<string>,
    caseId: Option<string>,
    cursor: Option<string>,
    limit: int)

  /** The filter with nothing set and the default page size. */
  const NoFilter := CaseFilter([], None, None, None, [], [], [], None, None, false,
                               [], [], [], [], [], [], None, None, None, 100)

  function UpperAll(xs: seq<string>): (r: seq<string>)
    ensures |r| == |xs|
    ensures forall i :: 0 <= i < |xs| ==> r[i] == Upper(xs[i])
  {
    if xs == [] then [] else [Upper(xs[0])] + UpperAll(xs[1..])
  }

  // ---------------------------------------------------------------------------
  // The clauses a filter contributes, in the order the builder adds them
  // ---------------------------------------------------------------------------

  /** "(vic_age >= ? AND vic_age <= ?)", kept in pieces so its placeholders can be counted. */
  const AgeRange := "(vic_age >= " + "?" + " AND vic_age <= " + "?" + ")"
  const UnknownAge := "vic_age = 999"

  lemma AgeRangeCount()
    ensures CountChar(AgeRange, '?') == 2
  {
    CountCharAbsent("(vic_age >= ", '?');
    CountCharAbsent(" AND vic_age <= ", '?');
    CountCharAbsent(")", '?');
    QuestionMark();
    CountCharConcat3("(vic_age >= ", "?", " AND vic_age <= ", '?');
    CountCharConcat3("(vic_age >= " + "?" + " AND vic_age <= ", "?", ")", '?');
  }

  /** The bounded part of the age filter: both bounds, the lower or the upper. */
  function AgeBounds(min: Option<int>, max: Option<int>): (c: Clause)
    requires min.Some? || max.Some?
    ensures Balanced(c)
  {
    if min.Some? && max.Some? then
      AgeRangeCount();
      Clause(AgeRange, [Int(min.value), Int(max.value)])
    else if min.Some? then
      CompareBalanced("vic_age", ">=", Int(min.value));
      Compare("vic_age", ">=", Int(min.value))
    else
      CompareBalanced("vic_age", "<=", Int(max.value));
      Compare("vic_age", "<=", Int(max.value))
  }

  /** `"(" + " OR ".join([bounds, "vic_age = 999"]) + ")"` */
  function OrUnknown(bounds: Clause): (c: Clause)
    requires Balanced(bounds)
    ensures Balanced(c)
    ensures c.args == bounds.args
  {
    var sql := "(" + Join([bounds.sql, UnknownAge], " OR ") + ")";
    assert Join([bounds.sql, UnknownAge], " OR ") == bounds.sql + " OR " + UnknownAge;
    CountCharAbsent("(", '?');
    CountCharAbsent(" OR ", '?');
    CountCharAbsent(UnknownAge, '?');
    CountCharAbsent(")", '?');
    CountCharConcat3("(", bounds.sql, " OR ", '?');
    CountCharConcat3("(" + bounds.sql + " OR ", UnknownAge, ")", '?');
    assert sql == "(" + bounds.sql + " OR " + UnknownAge + ")";
    assert CountChar(sql, '?') == CountChar(bounds.sql, '?');
    Clause(sql, bounds.args)
  }

  /** The single age condition, if any. */
  function AgeClauses(min: Option<int>, max: Option<int>, includeUnknown: bool): (r: seq<Clause>)
    ensures |r| == if min.Some? || max.Some? || includeUnknown then 1 else 0
    ensures Proper(r)
  {
    if min.Some? || max.Some? then
      if includeUnknown then [OrUnknown(AgeBounds(min, max))] else [AgeBounds(min, max)]
    else if includeUnknown then [Fixed(UnknownAge)]
    else []
  }

  /** "(year < ? OR (year = ? AND id > ?))", kept in pieces so its placeholders can be counted. */
  const CursorCondition := "(year < " + "?" + " OR (year = " + "?" + " AND id > " + "?" + "))"

  lemma CursorConditionCount()
    ensures CountChar(CursorCondition, '?') == 3
  {
    var a, b, c, d := "(year < ", " OR (year = ", " AND id > ", "))";
    CountCharAbsent(a, '?');
    CountCharAbsent(b, '?');
    CountCharAbsent(c, '?');
    CountCharAbsent(d, '?');
    QuestionMark();
    CountCharConcat3(a, "?", b, '?');
    CountCharConcat3(a + "?" + b, "?", c, '?');
    CountCharConcat3(a + "?" + b + "?" + c, "?", d, '?');
  }

  /** Rows after position (year, id) in "year DESC, id ASC" order. */
  function After(year: int, id: string): (c: Clause)
    ensures Balanced(c)
  {
    CursorConditionCount();
    Clause(CursorCondition, [Int(year), Int(year), Str(id)])
  }

  /**
   * A truthy cursor split at its first ':' into a year that `int()` accepts and
   * an id; anything else is ignored.
   */
  function ParseCursor(cursor: Option<string>): (r: Option<(int, string)>)
    ensures !Truthy(cursor) || ':' !in cursor.value ==> r.None?
    ensures r.Some? ==> var s, n := cursor.value, |cursor.value| - |r.value.1| - 1;
      0 <= n && s[n] == ':' && ':' !in s[..n] && s[n + 1..] == r.value.1 && ParseInt(s[..n]) == Some(r.value.0)
  {
    if !Truthy(cursor) then None
    else match SplitFirst(cursor.value, ':')
      case None => None
      case Some((y, id)) =>
        assert cursor.value[..|y|] == y && cursor.value[|y| + 1..] == id;
        match ParseInt(y)
        case None => None
        case Some(year) => Some((year, id))
  }

  /** The cursor's condition, added only once the cursor has parsed. */
  function CursorClauses(cursor: Option<string>): (r: seq<Clause>)
    ensures |r| == if ParseCursor(cursor).Some? then 1 else 0
    ensures Proper(r)
  {
    match ParseCursor(cursor)
    case None => []
    case Some((year, id)) => [After(year, id)]
  }

  /**
   * The cursor's condition as the code is written: the condition is appended
   * after the split but before `int()` runs, so a year that does not parse
   * leaves the condition behind without its parameters.
   */
  function CursorClausesAsWritten(cursor: Option<string>): seq<Clause> {
    if !Truthy(cursor) then []
    else match SplitFirst(cursor.value, ':')
      case None => []
      case Some((y, id)) =>
        match ParseInt(y)
        case None => [Clause(CursorCondition, [])]
        case Some(year) => [After(year, id)]
  }

  /** States are compared upper-cased. */
  const StateColumn := "UPPER(state)"

  /** State, year and solved-status conditions. */
  function RangeClauses(f: CaseFilter): seq<Clause> {
    IfAny(StateColumn, UpperAll(f.states))
    + IfSome("year", ">=", f.yearMin)
    + IfSome("year", "<=", f.yearMax)
    + IfSome("solved", "=", f.solved)
  }

  /** Victim sex, race, ethnicity and age conditions. */
  function VictimClauses(f: CaseFilter): seq<Clause> {
    IfAny("vic_sex", f.vicSex)
    + IfAny("vic_race", f.vicRace)
    + IfAny("vic_ethnic", f.vicEthnic)
    + AgeClauses(f.vicAgeMin, f.vicAgeMax, f.includeUnknownAge)
  }

  /** Weapon, relationship, circumstance and situation conditions. */
  function CrimeClauses(f: CaseFilter): seq<Clause> {
    IfAny("weapon", f.weapon)
    + IfAny("relationship", f.relationship)
    + IfAny("circumstance", f.circumstance)
    + IfAny("situation", f.situation)
  }

  /** `f"%{agency_search}%"`: the agency name contains the search text. */
  function Like(search: Option<string>): Param {
    Str("%" + search.GetOr("") + "%")
  }

  /** County, MSA, agency and case-id conditions. */
  function PlaceClauses(f: CaseFilter): seq<Clause> {
    IfAny("cntyfips", f.county)
    + IfAny("msa", f.msa)
    + IfTruthy("agency", "LIKE", f.agencySearch, Like(f.agencySearch))
    + IfTruthy("id", "=", f.caseId, Str(f.caseId.GetOr("")))
  }

  /** Every condition except the cursor's, in the builder's order. */
  function FilterClauses(f: CaseFilter): seq<Clause> {
    RangeClauses(f) + VictimClauses(f) + CrimeClauses(f) + PlaceClauses(f)
  }

  function CaseClauses(f: CaseFilter): seq<Clause> {
    FilterClauses(f) + CursorClauses(f.cursor)
  }

  function CaseClausesAsWritten(f: CaseFilter): seq<Clause> {
    FilterClauses(f) + CursorClausesAsWritten(f.cursor)
  }

  /** Some filter is set (a cursor only counts when it parses). */
  predicate AnyFilter(f: CaseFilter) {
    |f.states| > 0 || f.yearMin.Some? || f.yearMax.Some? || f.solved.Some?
    || |f.vicSex| > 0 || |f.vicRace| > 0 || |f.vicEthnic| > 0
    || f.vicAgeMin.Some? || f.vicAgeMax.Some? || f.includeUnknownAge
    || |f.weapon| > 0 || |f.relationship| > 0 || |f.circumstance| > 0
    || |f.situation| > 0 || |f.county| > 0 || |f.msa| > 0
    || Truthy(f.agencySearch) || Truthy(f.caseId) || ParseCursor(f.cursor).Some?
  }

  // ---------------------------------------------------------------------------
  // The builder
  // ---------------------------------------------------------------------------

  /**
   * Appends one condition and its parameters per active filter, then joins
   * the conditions with " AND " ("1=1" when there are none).
   */
  method BuildFilterQuery(f: CaseFilter) returns (where: string, params: seq<Param>)
    ensures Query(where, params) == Render(CaseClauses(f))
    ensures CountChar(where, '?') == |params|
    ensures where == "1=1" <==> !AnyFilter(f)
  {
    CasePlaceholdersMatch(f);
    CaseNoFilter(f);
    var conditions: seq<string> := [];
    params := [];
    ghost var added: seq<Clause> := [];
    conditions, params := AddRangeConditions(conditions, params, added, f);
    added := added + RangeClauses(f);
    conditions, params := AddVictimConditions(conditions, params, added, f);
    added := added + VictimClauses(f);
    conditions, params := AddCrimeConditions(conditions, params, added, f);
    added := added + CrimeClauses(f);
    conditions, params := AddPlaceConditions(conditions, params, added, f);
    added := added + PlaceClauses(f);
    conditions, params := AddCursorCondition(conditions, params, added, f.cursor);
    added := added + CursorClauses(f.cursor);
    FromEmpty(RangeClauses(f), VictimClauses(f), CrimeClauses(f), PlaceClauses(f), CursorClauses(f.cursor));
    where := if |conditions| > 0 then Join(conditions, " AND ") else "1=1";
  }

  lemma FromEmpty(a: seq<Clause>, b: seq<Clause>, c: seq<Clause>, d: seq<Clause>, e: seq<Clause>)
    ensures [] + a + b + c + d + e == (a + b + c + d) + e
  {
  }

  method AddRangeConditions(conditions: seq<string>, params: seq<Param>, ghost added: seq<Clause>, f: CaseFilter)
    returns (conditions': seq<string>, params': seq<Param>)
    requires Holds(conditions, params, added)
    ensures Holds(conditions', params', added + RangeClauses(f))
  {
    conditions', params' := AddInList(conditions, params, added, StateColumn, UpperAll(f.states));
    ghost var now := added + IfAny(StateColumn, UpperAll(f.states));
    conditions', params' := AddIfSome(conditions', params', now, "year", ">=", f.yearMin);
    now := now + IfSome("year", ">=", f.yearMin);
    conditions', params' := AddIfSome(conditions', params', now, "year", "<=", f.yearMax);
    now := now + IfSome("year", "<=", f.yearMax);
    conditions', params' := AddIfSome(conditions', params', now, "solved", "=", f.solved);
    now := now + IfSome("solved", "=", f.solved);
    Regroup(added, IfAny(StateColumn, UpperAll(f.states)), IfSome("year", ">=", f.yearMin),
            IfSome("year", "<=", f.yearMax), IfSome("solved", "=", f.solved));
  }

  method AddVictimConditions(conditions: seq<string>, params: seq<Param>, ghost added: seq<Clause>, f: CaseFilter)
    returns (conditions': seq<string>, params': seq<Param>)
    requires Holds(conditions, params, added)
    ensures Holds(conditions', params', added + VictimClauses(f))
  {
    conditions', params' := AddInList(conditions, params, added, "vic_sex", f.vicSex);
    ghost var now := added + IfAny("vic_sex", f.vicSex);
    conditions', params' := AddInList(conditions', params', now, "vic_race", f.vicRace);
    now := now + IfAny("vic_race", f.vicRace);
    conditions', params' := AddInList(conditions', params', now, "vic_ethnic", f.vicEthnic);
    now := now + IfAny("vic_ethnic", f.vicEthnic);
    conditions', params' := AddAgeCondition(conditions', params', now, f.vicAgeMin, f.vicAgeMax, f.includeUnknownAge);
    now := now + AgeClauses(f.vicAgeMin, f.vicAgeMax, f.includeUnknownAge);
    Regroup(added, IfAny("vic_sex", f.vicSex), IfAny("vic_race", f.vicRace),
            IfAny("vic_ethnic", f.vicEthnic), AgeClauses(f.vicAgeMin, f.vicAgeMax, f.includeUnknownAge));
  }

  method AddCrimeConditions(conditions: seq<string>, params: seq<Param>, ghost added: seq<Clause>, f: CaseFilter)
    returns (conditions': seq<string>, params': seq<Param>)
    requires Holds(conditions, params, added)
    ensures Holds(conditions', params', added + CrimeClauses(f))
  {
    conditions', params' := AddInList(conditions, params, added, "weapon", f.weapon);
    ghost var now := added + IfAny("weapon", f.weapon);
    conditions', params' := AddInList(conditions', params', now, "relationship", f.relationship);
    now := now + IfAny("relationship", f.relationship);
    conditions', params' := AddInList(conditions', params', now, "circumstance", f.circumstance);
    now := now + IfAny("circumstance", f.circumstance);
    conditions', params' := AddInList(conditions', params', now, "situation", f.situation);
    now := now + IfAny("situation", f.situation);
    Regroup(added, IfAny("weapon", f.weapon), IfAny("relationship", f.relationship),
            IfAny("circumstance", f.circumstance), IfAny("situation", f.situation));
  }

  method AddPlaceConditions(conditions: seq<string>, params: seq<Param>, ghost added: seq<Clause>, f: CaseFilter)
    returns (conditions': seq<string>, params': seq<Param>)
    requires Holds(conditions, params, added)
    ensures Holds(conditions', params', added + PlaceClauses(f))
  {
    conditions', params' := AddInList(conditions, params, added, "cntyfips", f.county);
    ghost var now := added + IfAny("cntyfips", f.county);
    conditions', params' := AddInList(conditions', params', now, "msa", f.msa);
    now := now + IfAny("msa", f.msa);
    conditions', params' := AddIfTruthy(conditions', params', now, "agency", "LIKE", f.agencySearch, Like(f.agencySearch));
    now := now + IfTruthy("agency", "LIKE", f.agencySearch, Like(f.agencySearch));
    conditions', params' := AddIfTruthy(conditions', params', now, "id", "=", f.caseId, Str(f.caseId.GetOr("")));
    now := now + IfTruthy("id", "=", f.caseId, Str(f.caseId.GetOr("")));
    Regroup(added, IfAny("cntyfips", f.county), IfAny("msa", f.msa),
            IfTruthy("agency", "LIKE", f.agencySearch, Like(f.agencySearch)), IfTruthy("id", "=", f.caseId, Str(f.caseId.GetOr(""))));
  }

  /**
   * Splits the cursor at its first ':', parses the year and only then adds
   * the condition with [year, year, id]; a cursor that fails either step is ignored.
   */
  method AddCursorCondition(conditions: seq<string>, params: seq<Param>, ghost added: seq<Clause>, cursor: Option<string>)
    returns (conditions': seq<string>, params': seq<Param>)
    requires Holds(conditions, params, added)
    ensures Holds(conditions', params', added + CursorClauses(cursor))
  {
    conditions', params' := conditions, params;
    if Truthy(cursor) {
      var parts := SplitFirst(cursor.value, ':');
      if parts.Some? {
        var year := ParseInt(parts.value.0);
        if year.Some? {
          Extend(conditions, params, added, After(year.value, parts.value.1));
          conditions' := conditions + [CursorCondition];
          params' := params + [Int(year.value), Int(year.value), Str(parts.value.1)];
        }
      }
    }
    assert CursorClauses(cursor) == [] ==> added + CursorClauses(cursor) == added;
  }

  /**
   * The age filter: the bounds go into a local list of alternatives, "vic_age = 999"
   * joins them when unknown ages are included, and several alternatives are
   * OR-joined in brackets.
   */
  method AddAgeCondition(conditions: seq<string>, params: seq<Param>, ghost added: seq<Clause>,
                         min: Option<int>, max: Option<int>, includeUnknown: bool)
    returns (conditions': seq<string>, params': seq<Param>)
    requires Holds(conditions, params, added)
    ensures Holds(conditions', params', added + AgeClauses(min, max, includeUnknown))
  {
    conditions', params' := conditions, params;
    if min.Some? || max.Some? {
      ghost var bounds := AgeBounds(min, max);
      var ageConditions: seq<string> := [];
      if min.Some? && max.Some? {
        ageConditions := ageConditions + [AgeRange];
        params' := params' + [Int(min.value), Int(max.value)];
      } else if min.Some? {
        assert bounds.sql == "vic_age" + " " + ">=" + " ?" == "vic_age >= ?";
        ageConditions := ageConditions + ["vic_age >= ?"];
        params' := params' + [Int(min.value)];
      } else if max.Some? {
        assert bounds.sql == "vic_age" + " " + "<=" + " ?" == "vic_age <= ?";
        ageConditions := ageConditions + ["vic_age <= ?"];
        params' := params' + [Int(max.value)];
      }
      assert ageConditions == [bounds.sql] && params' == params + bounds.args;
      if includeUnknown {
        ageConditions := ageConditions + [UnknownAge];
      }
      if |ageConditions| > 1 {
        assert ageConditions == [bounds.sql, UnknownAge];
        conditions' := conditions' + ["(" + Join(ageConditions, " OR ") + ")"];
      } else {
        conditions' := conditions' + [ageConditions[0]];
      }
      assert conditions' == conditions + [AgeClauses(min, max, includeUnknown)[0].sql];
      Extend(conditions, params, added, AgeClauses(min, max, includeUnknown)[0]);
    } else if includeUnknown {
      conditions' := conditions' + [UnknownAge];
      Extend(conditions, params, added, Fixed(UnknownAge));
    } else {
      assert added + [] == added;
    }
  }

  // ---------------------------------------------------------------------------
  // What the builder guarantees
  // ---------------------------------------------------------------------------

  lemma CaseClausesProper(f: CaseFilter)
    ensures Proper(CaseClauses(f))
  {
    RangeProper(f);
    VictimProper(f);
    CrimeProper(f);
    PlaceProper(f);
    ProperConcat4(RangeClauses(f), VictimClauses(f), CrimeClauses(f), PlaceClauses(f));
    ProperConcat(FilterClauses(f), CursorClauses(f.cursor));
  }

  lemma RangeProper(f: CaseFilter)
    ensures Proper(RangeClauses(f))
  {
    IfAnyProper(StateColumn, UpperAll(f.states));
    IfSomeProper("year", ">=", f.yearMin);
    IfSomeProper("year", "<=", f.yearMax);
    IfSomeProper("solved", "=", f.solved);
    ProperConcat4(IfAny(StateColumn, UpperAll(f.states)), IfSome("year", ">=", f.yearMin),
                  IfSome("year", "<=", f.yearMax), IfSome("solved", "=", f.solved));
  }

  lemma VictimProper(f: CaseFilter)
    ensures Proper(VictimClauses(f))
  {
    IfAnyProper("vic_sex", f.vicSex);
    IfAnyProper("vic_race", f.vicRace);
    IfAnyProper("vic_ethnic", f.vicEthnic);
    ProperConcat4(IfAny("vic_sex", f.vicSex), IfAny("vic_race", f.vicRace),
                  IfAny("vic_ethnic", f.vicEthnic), AgeClauses(f.vicAgeMin, f.vicAgeMax, f.includeUnknownAge));
  }

  lemma CrimeProper(f: CaseFilter)
    ensures Proper(CrimeClauses(f))
  {
    IfAnyProper("weapon", f.weapon);
    IfAnyProper("relationship", f.relationship);
    IfAnyProper("circumstance", f.circumstance);
    IfAnyProper("situation", f.situation);
    ProperConcat4(IfAny("weapon", f.weapon), IfAny("relationship", f.relationship),
                  IfAny("circumstance", f.circumstance), IfAny("situation", f.situation));
  }

  lemma PlaceProper(f: CaseFilter)
    ensures Proper(PlaceClauses(f))
  {
    IfAnyProper("cntyfips", f.county);
    IfAnyProper("msa", f.msa);
    IfTruthyProper("agency", "LIKE", f.agencySearch, Like(f.agencySearch));
    IfTruthyProper("id", "=", f.caseId, Str(f.caseId.GetOr("")));
    ProperConcat4(IfAny("cntyfips", f.county), IfAny("msa", f.msa),
                  IfTruthy("agency", "LIKE", f.agencySearch, Like(f.agencySearch)),
                  IfTruthy("id", "=", f.caseId, Str(f.caseId.GetOr(""))));
  }

  /** The WHERE clause has one placeholder per parameter, for every filter. */
  lemma CasePlaceholdersMatch(f: CaseFilter)
    ensures CountChar(Render(CaseClauses(f)).where, '?') == |Render(CaseClauses(f)).params|
  {
    CaseClausesProper(f);
    PlaceholdersMatch(CaseClauses(f));
  }

  /** The clause is "1=1", with no parameters, exactly when no filter is set. */
  lemma CaseNoFilter(f: CaseFilter)
    ensures Render(CaseClauses(f)).where == "1=1" <==> !AnyFilter(f)
    ensures !AnyFilter(f) ==> Render(CaseClauses(f)).params == []
  {
    CaseClausesProper(f);
    assert |CaseClauses(f)| == |RangeClauses(f)| + |VictimClauses(f)| + |CrimeClauses(f)|
                               + |PlaceClauses(f)| + |CursorClauses(f.cursor)|;
    NoConditions(CaseClauses(f));
  }

  /** States are matched upper-cased: one IN list, one placeholder and one parameter per state. */
  lemma StatesCondition(f: CaseFilter)
    requires |f.states| > 0
    ensures var q := Render(CaseClauses(f));
      && StateColumn + " IN (" <= q.where
      && |q.params| >= |f.states|
      && forall i :: 0 <= i < |f.states| ==> q.params[i] == Str(Upper(f.states[i]))
  {
    StatesWhere(f);
    StatesParams(f);
  }

  lemma StatesWhere(f: CaseFilter)
    requires |f.states| > 0
    ensures StateColumn + " IN (" <= Render(CaseClauses(f)).where
  {
    FirstClause(f);
    WhereStartsWith(StateColumn + " IN (", CaseClauses(f));
  }

  /** A non-empty clause list renders starting with its first condition. */
  lemma StatesParams(f: CaseFilter)
    requires |f.states| > 0
    ensures Strs(UpperAll(f.states)) <= Render(CaseClauses(f)).params
  {
    FirstClause(f);
    ArgsHead(CaseClauses(f));
  }

  lemma FirstClause(f: CaseFilter)
    requires |f.states| > 0
    ensures |CaseClauses(f)| > 0 && CaseClauses(f)[0] == InList(StateColumn, Strs(UpperAll(f.states)))
  {
    var r := RangeClauses(f);
    assert r[0] == InList(StateColumn, Strs(UpperAll(f.states)));
    assert FilterClauses(f)[0] == r[0];
  }

  /** The age filter yields one condition at most, and which one depends on the bounds given. */
  lemma AgeConditions(min: Option<int>, max: Option<int>, includeUnknown: bool)
    ensures var cs := AgeClauses(min, max, includeUnknown);
      && |cs| == (if min.Some? || max.Some? || includeUnknown then 1 else 0)
      && AllBalanced(cs)
      && (min.Some? && max.Some? && !includeUnknown ==>
            cs == [Clause(AgeRange, [Int(min.value), Int(max.value)])])
      && (min.Some? && max.Some? && includeUnknown ==>
            cs == [Clause("(" + AgeRange + " OR " + UnknownAge + ")", [Int(min.value), Int(max.value)])])
      && (min.None? && max.None? && includeUnknown ==> cs == [Clause(UnknownAge, [])])
      && (min.Some? && max.None? ==> cs[0].args == [Int(min.value)])
      && (min.None? && max.Some? ==> cs[0].args == [Int(max.value)])
  {
    if min.Some? && max.Some? && includeUnknown {
      var bounds := AgeBounds(min, max);
      assert bounds == Clause(AgeRange, [Int(min.value), Int(max.value)]);
      assert Join([AgeRange, UnknownAge], " OR ") == AgeRange + " OR " + UnknownAge;
      assert OrUnknown(bounds).sql == "(" + AgeRange + " OR " + UnknownAge + ")";
    }
  }

  // ---------------------------------------------------------------------------
  // The cursor
  // ---------------------------------------------------------------------------

  /** `f"{year}:{id}"` */
  function MakeCursor(year: int, id: string): (r: string)
    ensures ParseCursor(Some(r)) == Some((year, id))
  {
    IntToStringChars(year);
    assert ':' !in IntToString(year);
    SplitFirstOfConcat(IntToString(year), ':', id);
    ParseIntToString(year);
    IntToString(year) + ":" + id
  }

  /** A cursor made from (year, id) parses back to (year, id), even when id contains ':'. */
  lemma CursorRoundTrip(year: int, id: string)
    ensures ParseCursor(Some(MakeCursor(year, id))) == Some((year, id))
    ensures CursorClauses(Some(MakeCursor(year, id))) == [After(year, id)]
  {
    IntToStringChars(year);
    assert ':' !in IntToString(year);
    assert MakeCursor(year, id) == IntToString(year) + [':'] + id;
    SplitFirstOfConcat(IntToString(year), ':', id);
    ParseIntToString(year);
  }

  /** A parsed cursor adds one condition with the three parameters [year, year, id]. */
  lemma CursorParameters(cursor: Option<string>)
    ensures |CursorClauses(cursor)| <= 1
    ensures ParseCursor(cursor).None? <==> CursorClauses(cursor) == []
    ensures ParseCursor(cursor).Some? ==>
      var (year, id) := ParseCursor(cursor).value;
      CursorClauses(cursor)[0].args == [Int(year), Int(year), Str(id)]
  {
  }

  /** Only a cursor is set. */
  lemma OnlyCursor(cursor: Option<string>)
    ensures FilterClauses(NoFilter.(cursor := cursor)) == []
  {
    var f := NoFilter.(cursor := cursor);
    assert |RangeClauses(f)| == 0 && |VictimClauses(f)| == 0;
    assert |CrimeClauses(f)| == 0 && |PlaceClauses(f)| == 0;
  }

  /** "abc:1" splits into a year "abc" that `int()` rejects and the id "1". */
  lemma InvalidYearCursor()
    ensures Truthy(Some("abc:1"))
    ensures SplitFirst("abc:1", ':') == Some(("abc", "1"))
    ensures ParseInt("abc") == None
  {
    assert "abc:1" == "abc" + [':'] + "1";
    SplitFirstOfConcat("abc", ':', "1");
    assert !IsDigit("abc"[0]);
  }

  /** The cursor "abc:1", as the code is written, leaves three placeholders and no parameters. */
  lemma CursorAsWrittenUnbalanced()
    ensures var q := Render(CaseClausesAsWritten(NoFilter.(cursor := Some("abc:1"))));
      q.where == CursorCondition && q.params == [] && CountChar(q.where, '?') == 3
  {
    InvalidYearCursor();
    OnlyCursor(Some("abc:1"));
    CursorConditionCount();
    var cs := CaseClausesAsWritten(NoFilter.(cursor := Some("abc:1")));
    assert CursorClausesAsWritten(Some("abc:1")) == [Clause(CursorCondition, [])];
    assert cs == [Clause(CursorCondition, [])];
    assert Conditions(cs) == [CursorCondition];
    assert Args(cs) == [];
  }

  /** With the condition added only after parsing, the same cursor is ignored. */
  lemma CursorIgnoredWhenYearInvalid()
    ensures Render(CaseClauses(NoFilter.(cursor := Some("abc:1")))) == Query("1=1", [])
  {
    InvalidYearCursor();
    OnlyCursor(Some("abc:1"));
    assert ParseCursor(Some("abc:1")) == None;
    assert CaseClauses(NoFilter.(cursor := Some("abc:1"))) == [];
  }

  // ---------------------------------------------------------------------------
  // One page
  // ---------------------------------------------------------------------------

  /** The columns of a fetched case row that paging looks at. */
  datatype CaseRow = CaseRow(id: string, year: int)

  datatype Page = Page(cases: seq<CaseRow>, nextCursor: Option<string>, totalCount: int)

  /**
   * The query asks for `limit + 1` rows; the first `limit` are returned and
   * the extra row only tells that there is a next page, whose cursor is made
   * from the last returned case.
   */
  function Paginate(rows: seq<CaseRow>, limit: int, totalCount: int): (r: Page)
    requires limit >= 1
    ensures |r.cases| <= limit && r.cases <= rows && r.totalCount == totalCount
    ensures r.nextCursor.Some? <==> |rows| > limit
    ensures if |rows| > limit then |r.cases| == limit else r.cases == rows
    ensures r.nextCursor.Some? ==>
      ParseCursor(r.nextCursor) == Some((r.cases[|r.cases| - 1].year, r.cases[|r.cases| - 1].id))
  {
    var cases := Take(rows, limit);
    var hasMore := |rows| > limit;
    Page(cases,
         if hasMore && |cases| > 0 then Some(MakeCursor(cases[|cases| - 1].year, cases[|cases| - 1].id)) else None,
         totalCount)
  }

  /** At most `limit` cases, taken from the front of the fetched rows; all of them when they fit. */
  lemma PageSize(rows: seq<CaseRow>, limit: int, totalCount: int)
    requires limit >= 1
    ensures var p := Paginate(rows, limit, totalCount);
      && |p.cases| <= limit
      && p.cases <= rows
      && (|rows| <= limit ==> p.cases == rows)
  {
  }

  /** A next cursor exactly when more rows were fetched than returned; it points just after the last case returned. */
  lemma NextCursor(rows: seq<CaseRow>, limit: int, totalCount: int)
    requires limit >= 1
    ensures var p := Paginate(rows, limit, totalCount);
      && (p.nextCursor.Some? <==> |rows| > limit)
      && (p.nextCursor.Some? ==>
            |p.cases| == limit
            && ParseCursor(p.nextCursor) == Some((rows[limit - 1].year, rows[limit - 1].id)))
  {
    if |rows| > limit {
      PaginateMore(rows, limit, totalCount);
      CursorRoundTrip(rows[limit - 1].year, rows[limit - 1].id);
    }
  }

  lemma PaginateMore(rows: seq<CaseRow>, limit: int, totalCount: int)
    requires 1 <= limit < |rows|
    ensures Paginate(rows, limit, totalCount)
         == Page(rows[..limit], Some(MakeCursor(rows[limit - 1].year, rows[limit - 1].id)), totalCount)
  {
    var cases := Take(rows, limit);
    assert cases == rows[..limit];
    assert cases[|cases| - 1] == rows[limit - 1];
  }

  // ---------------------------------------------------------------------------
  // Filter statistics
  // ---------------------------------------------------------------------------

  /** The aggregate row: COUNT(*) and two SUMs, which are NULL over no rows. */
  datatype StatsRow = StatsRow(totalCases: int, solvedCases: Option<int>, unsolvedCases: Option<int>)

  datatype FilterStats = FilterStats(totalCases: int, solvedCases: int, unsolvedCases: int, solveRate: real)

  /** All zeros when nothing matches; otherwise the counts with NULL as 0 and the solve rate. */
  function Stats(row: Option<StatsRow>): (r: FilterStats)
    ensures r.totalCases >= 0
    ensures r.totalCases == 0 ==> r == FilterStats(0, 0, 0, 0.0)
    ensures row.Some? && row.value.totalCases > 0 ==> r.totalCases == row.value.totalCases
  {
    if row.Some? && row.value.totalCases > 0 then
      var total := row.value.totalCases;
      var solved := OrInt(row.value.solvedCases, 0);
      FilterStats(total, solved, OrInt(row.value.unsolvedCases, 0), Percentage(solved, total))
    else FilterStats(0, 0, 0, 0.0)
  }

  /** No match gives all zeros; otherwise the rate is a percentage that is 0 or 100 exactly at the extremes. */
  lemma StatsFacts(row: Option<StatsRow>)
    ensures row.None? || row.value.totalCases <= 0 ==> Stats(row) == FilterStats(0, 0, 0, 0.0)
    ensures row.Some? && row.value.totalCases > 0 ==> Stats(row).totalCases == row.value.totalCases
    ensures row.Some? && row.value.totalCases > 0 && row.value.solvedCases.Some? ==>
      Stats(row).solvedCases == row.value.solvedCases.value
    ensures row.Some? && 0 <= OrInt(row.value.solvedCases, 0) <= row.value.totalCases ==>
      0.0 <= Stats(row).solveRate <= 100.0
    ensures row.Some? && row.value.totalCases > 0 && row.value.solvedCases.GetOr(0) == 0 ==>
      Stats(row).solveRate == 0.0
    ensures row.Some? && row.value.totalCases > 0 && row.value.solvedCases == Some(row.value.totalCases) ==>
      Stats(row).solveRate == 100.0
  {
    if row.Some? && row.value.totalCases > 0 {
      var total := row.value.totalCases;
      var solved := OrInt(row.value.solvedCases, 0);
      if 0 <= solved <= total {
        PercentageRange(solved, total);
      }
    }
  }
}
