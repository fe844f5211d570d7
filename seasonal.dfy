/**
 * The seasonal statistics of the statistics service: one pattern per calendar
 * month built from the rows grouped by month, with the peak and the lowest
 * month picked in the same pass.
 */
module Seasonal {
  import opened Options
  import opened Rounding
  import opened Breakdowns

  const MonthNames: seq<string> := [
    "January", "February", "March", "April", "May", "June",
    "July", "August", "September", "October", "November", "December"
  ]

  /**
   * No month name is empty, so the empty-string test for "no peak yet" only
   * fires before one is chosen, and none is the "N/A" fallback.
   */
  lemma MonthNamesDistinctFromMarkers()
    ensures |MonthNames| == 12
    ensures forall k :: 0 <= k < 12 ==> |MonthNames[k]| > 0 && MonthNames[k] != "N/A"
  {
  }

  /** A row grouped by month: the month, COUNT(*) and COUNT(DISTINCT year). */
  datatype MonthRow = MonthRow(month: Option<int>, totalCases: Option<int>, numYears: Option<int>)

  datatype SeasonalPattern = SeasonalPattern(month: int, monthName: string, averageCases: real, percentageOfAnnual: real)

  /** The dictionary built from the rows keyed by month: a later row for the same month replaces an earlier one. */
  function RowFor(rows: seq<MonthRow>, month: int): (r: Option<MonthRow>)
    ensures r.Some? ==> r.value in rows && r.value.month == Some(month)
    ensures r.None? ==> forall i :: 0 <= i < |rows| ==> rows[i].month != Some(month)
  {
    if rows == [] then None
    else if rows[|rows| - 1].month == Some(month) then Some(rows[|rows| - 1])
    else RowFor(rows[..|rows| - 1], month)
  }

  /** When several rows carry the month, the dictionary keeps the last of them. */
  lemma {:induction false} RowForLast(rows: seq<MonthRow>, month: int, k: int)
    requires 0 <= k < |rows| && rows[k].month == Some(month)
    requires forall i :: k < i < |rows| ==> rows[i].month != Some(month)
    ensures RowFor(rows, month) == Some(rows[k])
  {
    if k < |rows| - 1 {
      RowForLast(rows[..|rows| - 1], month, k);
    }
  }

  /** `round(total / (num_years or 1), 1)` */
  function AverageCases(row: MonthRow): (r: real)
    ensures OrInt(row.numYears, 1) != 0
    ensures var exact := OrInt(row.totalCases, 0) as real / OrInt(row.numYears, 1) as real;
      exact - 0.05 <= r <= exact + 0.05
  {
    Round1(OrInt(row.totalCases, 0) as real / OrInt(row.numYears, 1) as real)
  }

  function Pattern(rows: seq<MonthRow>, totalCases: int, month: int): (r: SeasonalPattern)
    requires 1 <= month <= 12
    ensures r.month == month && r.monthName == MonthNames[month - 1]
    ensures (forall i :: 0 <= i < |rows| ==> rows[i].month != Some(month)) ==> r.averageCases == 0.0 && r.percentageOfAnnual == 0.0
    ensures totalCases <= 0 ==> r.percentageOfAnnual == 0.0
  {
    match RowFor(rows, month)
    case None => SeasonalPattern(month, MonthNames[month - 1], 0.0, 0.0)
    case Some(row) => SeasonalPattern(month, MonthNames[month - 1], AverageCases(row),
                                      ShareOf(OrInt(row.totalCases, 0), totalCases))
  }

  /** The patterns of months 1 .. n, in calendar order. */
  function Patterns(rows: seq<MonthRow>, totalCases: int, n: int): (r: seq<SeasonalPattern>)
    requires 0 <= n <= 12
    ensures |r| == n
  {
    if n == 0 then [] else Patterns(rows, totalCases, n - 1) + [Pattern(rows, totalCases, n)]
  }

  /** Month i + 1's pattern sits at index i. */
  lemma {:induction false} PatternsAt(rows: seq<MonthRow>, totalCases: int, n: int, i: int)
    requires 0 <= i < n <= 12
    ensures Patterns(rows, totalCases, n)[i] == Pattern(rows, totalCases, i + 1)
  {
    if i < n - 1 {
      PatternsAt(rows, totalCases, n - 1, i);
    }
  }

  /** Every pattern carries a real month name, never empty and never "N/A". */
  lemma PatternName(rows: seq<MonthRow>, totalCases: int, month: int)
    requires 1 <= month <= 12
    ensures |Pattern(rows, totalCases, month).monthName| > 0
    ensures Pattern(rows, totalCases, month).monthName != "N/A"
  {
    MonthNamesDistinctFromMarkers();
  }

  /** A month with no row reads as zero cases and a zero share. */
  lemma MissingMonth(rows: seq<MonthRow>, totalCases: int, month: int)
    requires 1 <= month <= 12
    requires forall i :: 0 <= i < |rows| ==> rows[i].month != Some(month)
    ensures Pattern(rows, totalCases, month).averageCases == 0.0
    ensures Pattern(rows, totalCases, month).percentageOfAnnual == 0.0
  {
  }

  /** Non-negative counts give a non-negative average. */
  lemma AverageCasesNonNegative(row: MonthRow)
    requires 0 <= OrInt(row.totalCases, 0) && 0 <= OrInt(row.numYears, 1)
    ensures 0.0 <= AverageCases(row)
  {
    var x := OrInt(row.totalCases, 0) as real / OrInt(row.numYears, 1) as real;
    assert 0.0 <= x;
    Round1Monotone(0.0, x);
    Round1Integer(0);
  }

  /** When every row's count lies between 0 and the overall total, a pattern's average is non-negative and its share a percentage. */
  lemma PatternBounds(rows: seq<MonthRow>, totalCases: int, month: int)
    requires 1 <= month <= 12
    requires forall i :: 0 <= i < |rows| ==> 0 <= OrInt(rows[i].totalCases, 0) <= totalCases && 0 <= OrInt(rows[i].numYears, 1)
    ensures 0.0 <= Pattern(rows, totalCases, month).averageCases
    ensures 0.0 <= Pattern(rows, totalCases, month).percentageOfAnnual <= 100.0
  {
    var row := RowFor(rows, month);
    if row.Some? {
      AverageCasesNonNegative(row.value);
      ShareOfRange(OrInt(row.value.totalCases, 0), totalCases);
    }
  }

  /** Index k holds the largest value, and no earlier index holds it: the first maximum. */
  predicate FirstMax(xs: seq<real>, k: int) {
    0 <= k < |xs| && (forall i :: 0 <= i < |xs| ==> xs[i] <= xs[k]) && (forall i :: 0 <= i < k ==> xs[i] < xs[k])
  }

  /** Index k holds the smallest value, and no earlier index holds it: the first minimum. */
  predicate FirstMin(xs: seq<real>, k: int) {
    0 <= k < |xs| && (forall i :: 0 <= i < |xs| ==> xs[k] <= xs[i]) && (forall i :: 0 <= i < k ==> xs[k] < xs[i])
  }

  /** A sequence has at most one first maximum and at most one first minimum. */
  lemma FirstExtremesUnique(xs: seq<real>, j: int, k: int)
    ensures FirstMax(xs, j) && FirstMax(xs, k) ==> j == k
    ensures FirstMin(xs, j) && FirstMin(xs, k) ==> j == k
  {
    if j < k && 0 <= j {
      assert FirstMax(xs, k) ==> xs[j] < xs[k];
      assert FirstMin(xs, k) ==> xs[k] < xs[j];
    } else if k < j && 0 <= k {
      assert FirstMax(xs, j) ==> xs[k] < xs[j];
      assert FirstMin(xs, j) ==> xs[j] < xs[k];
    }
  }

  /** Appending a value keeps the first maximum, unless the value exceeds it and becomes the new one. */
  lemma MaxExtend(xs: seq<real>, k: int, x: real)
    requires FirstMax(xs, k)
    ensures x > xs[k] ==> FirstMax(xs + [x], |xs|)
    ensures x <= xs[k] ==> FirstMax(xs + [x], k)
  {
  }

  /** While no value is positive there is no peak; the first positive value is the first maximum. */
  lemma MaxStart(xs: seq<real>, x: real)
    requires forall i :: 0 <= i < |xs| ==> xs[i] <= 0.0
    ensures x > 0.0 ==> FirstMax(xs + [x], |xs|)
    ensures x <= 0.0 ==> forall i :: 0 <= i < |xs| + 1 ==> (xs + [x])[i] <= 0.0
  {
  }

  /** Appending a value keeps the first minimum, unless the value is below it and becomes the new one. */
  lemma MinExtend(xs: seq<real>, k: int, x: real)
    requires FirstMin(xs, k)
    ensures x < xs[k] ==> FirstMin(xs + [x], |xs|)
    ensures x >= xs[k] ==> FirstMin(xs + [x], k)
  {
  }

  /** The average of each pattern, in order. */
  function Averages(patterns: seq<SeasonalPattern>): (r: seq<real>)
    ensures |r| == |patterns|
  {
    if patterns == [] then [] else Averages(patterns[..|patterns| - 1]) + [patterns[|patterns| - 1].averageCases]
  }

  /** The month name of each pattern, in order. */
  function Names(patterns: seq<SeasonalPattern>): (r: seq<string>)
    ensures |r| == |patterns|
  {
    if patterns == [] then [] else Names(patterns[..|patterns| - 1]) + [patterns[|patterns| - 1].monthName]
  }

  lemma ColumnsAppend(patterns: seq<SeasonalPattern>, p: SeasonalPattern)
    ensures Averages(patterns + [p]) == Averages(patterns) + [p.averageCases]
    ensures Names(patterns + [p]) == Names(patterns) + [p.monthName]
  {
    assert (patterns + [p])[..|patterns|] == patterns;
  }

  /**
   * The peak after the months seen so far: none yet (the empty name, average
   * 0.0) while no average is positive, else the first largest average.
   */
  predicate PeakTracked(averages: seq<real>, names: seq<string>, peakAvg: real, peakMonth: string, peakIndex: int)
    requires |names| == |averages|
  {
    if |peakMonth| == 0 then peakAvg == 0.0 && forall i :: 0 <= i < |averages| ==> averages[i] <= 0.0
    else FirstMax(averages, peakIndex) && peakAvg == averages[peakIndex] && peakAvg > 0.0
         && peakMonth == names[peakIndex] && peakMonth != "N/A"
  }

  /** The lowest month after the months seen so far: none (infinity) before the first, else the first smallest average. */
  predicate LowestTracked(averages: seq<real>, names: seq<string>, lowestAvg: Option<real>, lowestMonth: string, lowestIndex: int)
    requires |names| == |averages|
  {
    if averages == [] then lowestAvg.None?
    else FirstMin(averages, lowestIndex) && lowestAvg == Some(averages[lowestIndex]) && lowestMonth == names[lowestIndex]
  }

  /** The loop body's bookkeeping: a strictly larger average becomes the peak, a strictly smaller one the lowest. */
  method Track(ghost averages: seq<real>, ghost names: seq<string>, average: real, name: string,
               peakAvg: real, peakMonth: string, ghost peakIndex: int,
               lowestAvg: Option<real>, lowestMonth: string, ghost lowestIndex: int)
    returns (peakAvg': real, peakMonth': string, ghost peakIndex': int,
             lowestAvg': Option<real>, lowestMonth': string, ghost lowestIndex': int)
    requires |names| == |averages| && |name| > 0 && name != "N/A"
    requires PeakTracked(averages, names, peakAvg, peakMonth, peakIndex)
    requires LowestTracked(averages, names, lowestAvg, lowestMonth, lowestIndex)
    ensures PeakTracked(averages + [average], names + [name], peakAvg', peakMonth', peakIndex')
    ensures LowestTracked(averages + [average], names + [name], lowestAvg', lowestMonth', lowestIndex')
  {
    if |peakMonth| == 0 {
      MaxStart(averages, average);
    } else {
      MaxExtend(averages, peakIndex, average);
    }
    if averages != [] {
      MinExtend(averages, lowestIndex, average);
    }
    peakAvg', peakMonth', peakIndex' := peakAvg, peakMonth, peakIndex;
    lowestAvg', lowestMonth', lowestIndex' := lowestAvg, lowestMonth, lowestIndex;
    if average > peakAvg {
      peakAvg', peakMonth', peakIndex' := average, name, |averages|;
    }
    if lowestAvg.None? || average < lowestAvg.value {
      lowestAvg', lowestMonth', lowestIndex' := Some(average), name, |averages|;
    }
  }

  /**
   * The month loop: twelve patterns in calendar order, the peak month the
   * first with the largest positive average ("N/A" when no average is
   * positive), the lowest month the first with the smallest average. The
   * lowest average starts at infinity, so after twelve months one is always
   * chosen and its "N/A" fallback never applies.
   */
  method SeasonalStatistics(rows: seq<MonthRow>, totalRow: Option<int>)
    returns (patterns: seq<SeasonalPattern>, peakMonth: string, lowestMonth: string)
    ensures patterns == Patterns(rows, OrInt(totalRow, 0), 12)
    ensures peakMonth == "N/A" <==> forall i :: 0 <= i < 12 ==> Averages(patterns)[i] <= 0.0
    ensures peakMonth != "N/A" ==>
      exists k :: FirstMax(Averages(patterns), k) && Averages(patterns)[k] > 0.0 && peakMonth == Names(patterns)[k]
    ensures exists k :: FirstMin(Averages(patterns), k) && lowestMonth == Names(patterns)[k]
  {
    var totalCases := OrInt(totalRow, 0);
    patterns := [];
    var peakAvg := 0.0;
    peakMonth := "";
    var lowestAvg: Option<real> := None;  // None stands for float('inf')
    lowestMonth := "";
    ghost var peakIndex := 0;
    ghost var lowestIndex := 0;
    for monthIndex := 0 to 12
      invariant patterns == Patterns(rows, totalCases, monthIndex)
      invariant PeakTracked(Averages(patterns), Names(patterns), peakAvg, peakMonth, peakIndex)
      invariant LowestTracked(Averages(patterns), Names(patterns), lowestAvg, lowestMonth, lowestIndex)
    {
      var pattern := Pattern(rows, totalCases, monthIndex + 1);
      PatternName(rows, totalCases, monthIndex + 1);
      peakAvg, peakMonth, peakIndex, lowestAvg, lowestMonth, lowestIndex :=
        Track(Averages(patterns), Names(patterns), pattern.averageCases, pattern.monthName,
              peakAvg, peakMonth, peakIndex, lowestAvg, lowestMonth, lowestIndex);
      ColumnsAppend(patterns, pattern);
      patterns := patterns + [pattern];
    }
    assert |Averages(patterns)| == 12;
    assert FirstMin(Averages(patterns), lowestIndex) && lowestMonth == Names(patterns)[lowestIndex];
    if |peakMonth| == 0 {
      peakMonth := "N/A";
    } else {
      assert FirstMax(Averages(patterns), peakIndex) && Averages(patterns)[peakIndex] > 0.0;
    }
  }
}
