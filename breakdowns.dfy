/**
 * The statistics service's fixed victim age groups and the two loops that
 * turn grouped rows into breakdown entries with a solve rate and a share of
 * the total. The grouped rows themselves come from SQL and are inputs here.
 */
module Breakdowns {
  import opened Options
  import opened Rounding

  // ---------------------------------------------------------------------------
  // Age groups
  // ---------------------------------------------------------------------------

  datatype AgeGroup = AgeGroup(name: string, minAge: int, maxAge: int)

  /** The inclusive age ranges, in order; 999 (the unknown-age code) falls in the last one. */
  const AgeGroups := [
    AgeGroup("0-17", 0, 17),
    AgeGroup("18-24", 18, 24),
    AgeGroup("25-34", 25, 34),
    AgeGroup("35-44", 35, 44),
    AgeGroup("45-54", 45, 54),
    AgeGroup("55-64", 55, 64),
    AgeGroup("65+", 65, 999)
  ]

  predicate InGroup(age: int, k: int)
    requires 0 <= k < |AgeGroups|
  {
    AgeGroups[k].minAge <= age <= AgeGroups[k].maxAge
  }

  /** The seven ranges are non-empty, each starts right after the previous one ends, and they span 0..999. */
  lemma AgeGroupsContiguous()
    ensures |AgeGroups| == 7
    ensures AgeGroups[0].minAge == 0 && AgeGroups[6].maxAge == 999
    ensures forall k :: 0 <= k < 7 ==> AgeGroups[k].minAge <= AgeGroups[k].maxAge
    ensures forall k :: 0 <= k < 6 ==> AgeGroups[k + 1].minAge == AgeGroups[k].maxAge + 1
  {
  }

  /** The group an age in 0..999 falls in. */
  function GroupOf(age: int): (k: int)
    requires 0 <= age <= 999
    ensures 0 <= k < |AgeGroups| && InGroup(age, k)
  {
    if age <= 17 then 0
    else if age <= 24 then 1
    else if age <= 34 then 2
    else if age <= 44 then 3
    else if age <= 54 then 4
    else if age <= 64 then 5
    else 6
  }

  /** No age lies in two groups. */
  lemma AgeGroupsDisjoint(age: int, j: int, k: int)
    requires 0 <= j < |AgeGroups| && 0 <= k < |AgeGroups|
    requires InGroup(age, j) && InGroup(age, k)
    ensures j == k
  {
    AgeGroupsContiguous();
    if j < k {
      AgeGroupsOrdered(j, k);
    } else if k < j {
      AgeGroupsOrdered(k, j);
    }
  }

  lemma AgeGroupsOrdered(j: int, k: int)
    requires 0 <= j < k < |AgeGroups|
    ensures AgeGroups[j].maxAge < AgeGroups[k].minAge
  {
  }

  /** Every age in 0..999 is in exactly one group, and the unknown-age code lands in "65+". */
  lemma AgeGroupsPartition(age: int)
    requires 0 <= age <= 999
    ensures forall k :: 0 <= k < |AgeGroups| ==> (InGroup(age, k) <==> k == GroupOf(age))
    ensures AgeGroups[GroupOf(999)].name == "65+"
  {
    forall k | 0 <= k < |AgeGroups| && InGroup(age, k)
      ensures k == GroupOf(age)
    {
      AgeGroupsDisjoint(age, k, GroupOf(age));
    }
  }

  // ---------------------------------------------------------------------------
  // Breakdown builders
  // ---------------------------------------------------------------------------

  /** `category or "Unknown"` */
  function CategoryName(category: Option<string>): (name: string)
    ensures name != ""
    ensures Truthy(category) ==> name == category.value
  {
    if Truthy(category) then category.value else "Unknown"
  }

  /** `round(part / whole * 100, 1) if whole > 0 else 0.0` */
  function ShareOf(part: int, whole: int): (r: real)
    ensures whole <= 0 ==> r == 0.0
    ensures whole > 0 ==> part as real / whole as real * 100.0 - 0.05 <= r <= part as real / whole as real * 100.0 + 0.05
  {
    if whole > 0 then Percentage(part, whole) else 0.0
  }

  lemma ShareOfRange(part: int, whole: int)
    ensures whole <= 0 ==> ShareOf(part, whole) == 0.0
    ensures 0 <= part <= whole ==> 0.0 <= ShareOf(part, whole) <= 100.0
    ensures 0 < whole && part == whole ==> ShareOf(part, whole) == 100.0
  {
    if 0 < whole && 0 <= part <= whole {
      PercentageRange(part, whole);
    }
  }

  /** A row grouped by a victim attribute: the value, COUNT(*) and the two SUMs. */
  datatype DemographicRow = DemographicRow(category: Option<string>, totalCases: Option<int>,
                                           solvedCases: Option<int>, unsolvedCases: Option<int>)

  datatype DemographicBreakdown = DemographicBreakdown(category: string, totalCases: int, solvedCases: int,
                                                       unsolvedCases: int, solveRate: real, percentageOfTotal: real)

  function Demographic(row: DemographicRow, totalCases: int): (r: DemographicBreakdown)
    ensures r.category != "" && (Truthy(row.category) ==> r.category == row.category.value)
    ensures r.totalCases <= 0 ==> r.solveRate == 0.0
    ensures totalCases <= 0 ==> r.percentageOfTotal == 0.0
  {
    var total := OrInt(row.totalCases, 0);
    var solved := OrInt(row.solvedCases, 0);
    DemographicBreakdown(CategoryName(row.category), total, solved, OrInt(row.unsolvedCases, 0),
                         ShareOf(solved, total), ShareOf(total, totalCases))
  }

  /** One breakdown per row, in row order. */
  method BuildDemographicBreakdowns(rows: seq<DemographicRow>, totalCases: int)
    returns (breakdowns: seq<DemographicBreakdown>)
    ensures |breakdowns| == |rows|
    ensures forall i :: 0 <= i < |rows| ==> breakdowns[i] == Demographic(rows[i], totalCases)
  {
    breakdowns := [];
    for i := 0 to |rows|
      invariant |breakdowns| == i
      invariant forall j :: 0 <= j < i ==> breakdowns[j] == Demographic(rows[j], totalCases)
    {
      breakdowns := breakdowns + [Demographic(rows[i], totalCases)];
    }
  }

  /** NULL and "" read as "Unknown"; rates are 0.0 over an empty denominator and percentages otherwise. */
  lemma DemographicFacts(row: DemographicRow, totalCases: int)
    ensures var b := Demographic(row, totalCases);
      && (b.category == "Unknown" <==> !Truthy(row.category) || row.category.value == "Unknown")
      && (b.totalCases <= 0 ==> b.solveRate == 0.0)
      && (totalCases <= 0 ==> b.percentageOfTotal == 0.0)
      && (0 <= b.solvedCases <= b.totalCases ==> 0.0 <= b.solveRate <= 100.0)
      && (0 <= b.totalCases <= totalCases ==> 0.0 <= b.percentageOfTotal <= 100.0)
  {
    var b := Demographic(row, totalCases);
    ShareOfRange(b.solvedCases, b.totalCases);
    ShareOfRange(b.totalCases, totalCases);
  }

  /** A row grouped by weapon, circumstance or relationship: the value, COUNT(*) and solved count. */
  datatype CategoryRow = CategoryRow(category: Option<string>, count: Option<int>, solvedCount: Option<int>)

  datatype CategoryBreakdown = CategoryBreakdown(category: string, count: int, percentage: real, solveRate: real)

  function Category(row: CategoryRow, totalCases: int): (r: CategoryBreakdown)
    ensures r.category != "" && (Truthy(row.category) ==> r.category == row.category.value)
    ensures r.count <= 0 ==> r.solveRate == 0.0
    ensures totalCases <= 0 ==> r.percentage == 0.0
  {
    var count := OrInt(row.count, 0);
    CategoryBreakdown(CategoryName(row.category), count, ShareOf(count, totalCases),
                      ShareOf(OrInt(row.solvedCount, 0), count))
  }

  /** One breakdown per row, in row order. */
  method BuildCategoryBreakdowns(rows: seq<CategoryRow>, totalCases: int)
    returns (breakdowns: seq<CategoryBreakdown>)
    ensures |breakdowns| == |rows|
    ensures forall i :: 0 <= i < |rows| ==> breakdowns[i] == Category(rows[i], totalCases)
  {
    breakdowns := [];
    for i := 0 to |rows|
      invariant |breakdowns| == i
      invariant forall j :: 0 <= j < i ==> breakdowns[j] == Category(rows[j], totalCases)
    {
      breakdowns := breakdowns + [Category(rows[i], totalCases)];
    }
  }

  lemma CategoryFacts(row: CategoryRow, totalCases: int)
    ensures var b := Category(row, totalCases);
      && (b.category == "Unknown" <==> !Truthy(row.category) || row.category.value == "Unknown")
      && (b.count <= 0 ==> b.solveRate == 0.0)
      && (totalCases <= 0 ==> b.percentage == 0.0)
      && (0 <= OrInt(row.solvedCount, 0) <= b.count ==> 0.0 <= b.solveRate <= 100.0)
      && (0 <= b.count <= totalCases ==> 0.0 <= b.percentage <= 100.0)
  {
    var b := Category(row, totalCases);
    ShareOfRange(OrInt(row.solvedCount, 0), b.count);
    ShareOfRange(b.count, totalCases);
  }
}
