/**
 * The timeline service after its query has run: period labels for years,
 * months and decades, one data point per aggregated row with the running
 * total and the first and last period, the moving average of a metric, and
 * the metric and window checks of the trend endpoint.
 */
module Timeline {
  import opened Options
  import opened Rounding
  import opened Text

  // ---------------------------------------------------------------------------
  // Period labels
  // ---------------------------------------------------------------------------

  /** `str(year)` */
  function FormatYear(year: int): (r: string)
    ensures ParseInt(r) == Some(year)
  {
    ParseIntToString(year);
    IntToString(year)
  }

  /** `f"{month:02d}"`: at least two characters, zero-padded after any sign. */
  function TwoDigits(month: int): string {
    ZFill(IntToString(month), 2)
  }

  /** `f"{year}-{month:02d}"` */
  function FormatMonth(year: int, month: int): (r: string)
    ensures year >= 0 && month >= 0 ==> ParseMonthPeriod(r) == Some((year, month))
  {
    var y := IntToString(year);
    assert year >= 0 && month >= 0 ==> ParseMonthPeriod(y + "-" + TwoDigits(month)) == Some((year, month)) by {
      if year >= 0 && month >= 0 {
        assert '-' !in y by {
          assert y == NatToString(year);
        }
        assert y + "-" + TwoDigits(month) == y + ['-'] + TwoDigits(month);
        SplitFirstOfConcat(y, '-', TwoDigits(month));
        ParseIntToString(year);
        ParseZFilledNat(month, 2);
      }
    }
    y + "-" + TwoDigits(month)
  }

  /** `f"{decade}s"` */
  function FormatDecade(decade: int): (r: string)
    ensures ParseDecadePeriod(r) == Some(decade)
  {
    ParseIntToString(decade);
    assert (IntToString(decade) + "s")[..|IntToString(decade)|] == IntToString(decade);
    IntToString(decade) + "s"
  }

  /** `(year // 10) * 10`: the multiple of ten at or below the year. */
  function Decade(year: int): (d: int)
    ensures d % 10 == 0
    ensures d <= year < d + 10
  {
    (year / 10) * 10
  }

  /** Every year of a decade belongs to that decade. */
  lemma DecadeOfDecade(year: int, k: int)
    requires 0 <= k < 10
    ensures Decade(Decade(year) + k) == Decade(year)
  {
    var d := Decade(year);
    assert d == (year / 10) * 10;
    assert (d + k) / 10 == year / 10;
  }

  /** A month period reads back as its year and month: text before the first '-' and the rest. */
  function ParseMonthPeriod(period: string): Option<(int, int)> {
    match SplitFirst(period, '-')
    case None => None
    case Some((y, m)) =>
      match (ParseInt(y), ParseInt(m))
      case (Some(year), Some(month)) => Some((year, month))
      case _ => None
  }

  /** Month labels of non-negative years round-trip; months 0..99 take exactly two characters. */
  lemma MonthPeriodRoundTrip(year: nat, month: nat)
    ensures ParseMonthPeriod(FormatMonth(year, month)) == Some((year as int, month as int))
    ensures month < 100 ==> |TwoDigits(month)| == 2
  {
    var y := IntToString(year);
    assert '-' !in y by {
      assert y == NatToString(year);
    }
    assert FormatMonth(year, month) == y + ['-'] + TwoDigits(month);
    SplitFirstOfConcat(y, '-', TwoDigits(month));
    ParseIntToString(year);
    ParseZFilledNat(month, 2);
    if month < 100 {
      assert |NatToString(month)| <= 2 by {
        if month >= 10 {
          assert NatToString(month) == NatToString(month / 10) + [DigitChar(month % 10)];
        }
      }
    }
  }

  /** Distinct (year, month) pairs get distinct labels. */
  lemma FormatMonthInjective(y1: nat, m1: nat, y2: nat, m2: nat)
    requires FormatMonth(y1, m1) == FormatMonth(y2, m2)
    ensures y1 == y2 && m1 == m2
  {
    MonthPeriodRoundTrip(y1, m1);
    MonthPeriodRoundTrip(y2, m2);
  }

  /** A decade label read back: the text before a final 's' as a number. */
  function ParseDecadePeriod(period: string): Option<int> {
    if |period| >= 1 && period[|period| - 1] == 's' then ParseInt(period[..|period| - 1]) else None
  }

  /** A decade label is the decade followed by 's', and dropping the 's' gives the decade back. */
  lemma DecadePeriodRoundTrip(decade: int)
    ensures var p := FormatDecade(decade);
      |p| >= 2 && p[|p| - 1] == 's' && ParseInt(p[..|p| - 1]) == Some(decade)
  {
    var p := FormatDecade(decade);
    IntToStringChars(decade);
    assert p[..|p| - 1] == IntToString(decade);
    ParseIntToString(decade);
  }

  // ---------------------------------------------------------------------------
  // Data points
  // ---------------------------------------------------------------------------

  /** The grouping the caller asked for; anything but "month" and "decade" means years. */
  datatype Granularity = Year | Month | DecadeLevel

  function ParseGranularity(g: string): Granularity {
    if g == "month" then Month else if g == "decade" then DecadeLevel else Year
  }

  /** One aggregated row: the grouping columns, COUNT(*) and the two SUMs (NULL over no rows). */
  datatype TimelineRow = TimelineRow(year: int, month: int, decade: int,
                                     totalCases: int, solvedCases: Option<int>, unsolvedCases: Option<int>)

  datatype DataPoint = DataPoint(period: string, totalCases: int, solvedCases: int,
                                 unsolvedCases: int, solveRate: real)

  function Period(g: Granularity, row: TimelineRow): (p: string)
    ensures |p| > 0
  {
    match g
    case Month => FormatMonth(row.year, row.month)
    case DecadeLevel => FormatDecade(row.decade)
    case Year => FormatYear(row.year)
  }

  /** The point for one row: NULL sums read as 0, and the solve rate is 0.0 for an empty group. */
  function Point(g: Granularity, row: TimelineRow): DataPoint {
    var solved := OrInt(row.solvedCases, 0);
    DataPoint(Period(g, row), row.totalCases, solved, OrInt(row.unsolvedCases, 0),
              if row.totalCases > 0 then Percentage(solved, row.totalCases) else 0.0)
  }

  /** One point per row, in row order. */
  function Points(g: Granularity, rows: seq<TimelineRow>): (r: seq<DataPoint>)
    ensures |r| == |rows|
    ensures forall i :: 0 <= i < |rows| ==> r[i] == Point(g, rows[i])
  {
    if rows == [] then [] else Points(g, rows[..|rows| - 1]) + [Point(g, rows[|rows| - 1])]
  }

  /** The sum of the row totals. */
  function TotalOf(rows: seq<TimelineRow>): int {
    if rows == [] then 0 else TotalOf(rows[..|rows| - 1]) + rows[|rows| - 1].totalCases
  }

  /** `period or "N/A"`: a period that was seen is never empty, so it is kept as it is. */
  function OrNA(period: Option<string>): (r: string)
    ensures period.Some? && |period.value| > 0 ==> r == period.value
  {
    if period.Some? && period.value != [] then period.value else "N/A"
  }

  /**
   * The row loop: appends a point per row, adds up the totals, keeps the first
   * period and overwrites the last one, then settles the date range.
   */
  method BuildTimeline(g: Granularity, rows: seq<TimelineRow>)
    returns (points: seq<DataPoint>, totalCases: int, range: (string, string))
    ensures points == Points(g, rows)
    ensures totalCases == TotalOf(rows)
    ensures rows == [] ==> range == ("N/A", "N/A")
    ensures rows != [] ==> range == (Period(g, rows[0]), Period(g, rows[|rows| - 1]))
  {
    points := [];
    totalCases := 0;
    var first: Option<string> := None;
    var last: Option<string> := None;
    for i := 0 to |rows|
      invariant points == Points(g, rows[..i])
      invariant totalCases == TotalOf(rows[..i])
      invariant i == 0 ==> first.None? && last.None?
      invariant i > 0 ==> first == Some(Period(g, rows[0])) && last == Some(Period(g, rows[i - 1]))
    {
      var period := Period(g, rows[i]);
      var point := Point(g, rows[i]);
      RowsPrefix(g, rows, i);
      points := points + [point];
      totalCases := totalCases + rows[i].totalCases;
      if first.None? {
        first := Some(period);
      }
      last := Some(period);
    }
    assert rows[..|rows|] == rows;
    if |points| == 0 {
      range := ("N/A", "N/A");
    } else {
      range := (OrNA(first), OrNA(last));
    }
  }

  /** Extending the prefix by one row extends the points and the total by that row's. */
  lemma RowsPrefix(g: Granularity, rows: seq<TimelineRow>, i: int)
    requires 0 <= i < |rows|
    ensures Points(g, rows[..i + 1]) == Points(g, rows[..i]) + [Point(g, rows[i])]
    ensures TotalOf(rows[..i + 1]) == TotalOf(rows[..i]) + rows[i].totalCases
  {
    assert rows[..i + 1][..i] == rows[..i];
  }

  /** Every point keeps its row's counts, and a non-empty group's rate is a percentage. */
  lemma PointFacts(g: Granularity, row: TimelineRow)
    ensures Point(g, row).totalCases == row.totalCases
    ensures row.totalCases <= 0 ==> Point(g, row).solveRate == 0.0
    ensures 0 <= OrInt(row.solvedCases, 0) <= row.totalCases ==> 0.0 <= Point(g, row).solveRate <= 100.0
  {
    var solved := OrInt(row.solvedCases, 0);
    if row.totalCases > 0 && 0 <= solved <= row.totalCases {
      PercentageRange(solved, row.totalCases);
    }
  }

  // ---------------------------------------------------------------------------
  // Moving average
  // ---------------------------------------------------------------------------

  /** `sum(xs)` */
  function Sum(xs: seq<real>): real {
    if xs == [] then 0.0 else Sum(xs[..|xs| - 1]) + xs[|xs| - 1]
  }

  /** Entry `i` of the moving average: None until a whole window is available. */
  function AverageAt(values: seq<real>, window: int, i: int): (r: Option<real>)
    requires 0 <= i < |values|
    ensures r.Some? <==> 2 <= window <= i + 1
    ensures r.Some? ==> var mean := Sum(values[i - window + 1..i + 1]) / window as real;
      mean - 0.005 <= r.value <= mean + 0.005
  {
    if window < 2 || |values| < window || i < window - 1 then None
    else Some(Round2(Sum(values[i - window + 1..i + 1]) / window as real))
  }

  /** `_calculate_moving_average(values, window)` */
  method MovingAverage(values: seq<real>, window: int) returns (result: seq<Option<real>>)
    ensures |result| == |values|
    ensures forall i :: 0 <= i < |values| ==> result[i] == AverageAt(values, window, i)
  {
    if window < 2 || |values| < window {
      return seq(|values|, _ => None);
    }
    result := [];
    var i := 0;
    while i < |values|
      invariant 0 <= i <= |values|
      invariant |result| == i
      invariant forall j :: 0 <= j < i ==> result[j] == AverageAt(values, window, j)
    {
      if i < window - 1 {
        result := result + [None];
      } else {
        var windowValues := values[i - window + 1..i + 1];
        var avg := Sum(windowValues) / |windowValues| as real;
        result := result + [Some(Round2(avg))];
      }
      i := i + 1;
    }
  }

  lemma {:induction false} SumBounds(xs: seq<real>, lo: real, hi: real)
    requires forall k :: 0 <= k < |xs| ==> lo <= xs[k] <= hi
    ensures |xs| as real * lo <= Sum(xs) <= |xs| as real * hi
  {
    if xs != [] {
      SumBounds(xs[..|xs| - 1], lo, hi);
      assert (|xs| - 1) as real * lo + lo == |xs| as real * lo;
      assert (|xs| - 1) as real * hi + hi == |xs| as real * hi;
    }
  }

  lemma {:induction false} SumConstant(xs: seq<real>, c: real)
    requires forall k :: 0 <= k < |xs| ==> xs[k] == c
    ensures Sum(xs) == |xs| as real * c
  {
    if xs != [] {
      SumConstant(xs[..|xs| - 1], c);
    }
  }

  /** A sum between n·lo and n·hi has its mean between lo and hi. */
  lemma MeanWithin(total: real, n: int, lo: real, hi: real)
    requires n > 0 && n as real * lo <= total <= n as real * hi
    ensures lo <= total / n as real <= hi
  {
    var mean := total / n as real;
    assert n as real * mean == total;
  }

  /** Averages stay within integer bounds that hold for every value. */
  lemma AverageWithin(values: seq<real>, window: int, i: int, lo: int, hi: int)
    requires 0 <= i < |values|
    requires forall k :: 0 <= k < |values| ==> lo as real <= values[k] <= hi as real
    ensures AverageAt(values, window, i).Some? ==>
      lo as real <= AverageAt(values, window, i).value <= hi as real
  {
    if AverageAt(values, window, i).Some? {
      var w := values[i - window + 1..i + 1];
      assert |w| == window;
      SumBounds(w, lo as real, hi as real);
      MeanWithin(Sum(w), window, lo as real, hi as real);
      Round2Within(Sum(w) / window as real, lo, hi);
    }
  }

  /** A constant run of values (in hundredths) averages to that value. */
  lemma AverageOfConstant(values: seq<real>, window: int, i: int, k: int)
    requires 0 <= i < |values|
    requires forall j :: 0 <= j < |values| ==> values[j] == k as real / 100.0
    ensures 2 <= window <= |values| && i >= window - 1 ==> AverageAt(values, window, i) == Some(k as real / 100.0)
  {
    if 2 <= window <= |values| && i >= window - 1 {
      var w := values[i - window + 1..i + 1];
      SumConstant(w, k as real / 100.0);
      assert Sum(w) / window as real == k as real / 100.0;
      Round2Exact(k);
    }
  }

  /** Which entries are None: all when the window does not fit, else the first window - 1. */
  lemma AverageDefined(values: seq<real>, window: int, i: int)
    requires 0 <= i < |values|
    ensures AverageAt(values, window, i).Some? <==> 2 <= window <= |values| && i >= window - 1
  {
  }

  // ---------------------------------------------------------------------------
  // Trends
  // ---------------------------------------------------------------------------

  const ValidMetrics := ["solve_rate", "total_cases", "unsolved_cases", "solved_cases"]

  /** The four metrics a trend can follow. */
  datatype Metric = SolveRate | TotalCases | UnsolvedCases | SolvedCases

  function MetricName(m: Metric): string {
    match m
    case SolveRate => "solve_rate"
    case TotalCases => "total_cases"
    case UnsolvedCases => "unsolved_cases"
    case SolvedCases => "solved_cases"
  }

  /** The metric a name selects; a name outside the valid list falls back to "solve_rate". */
  function ParseMetric(metric: string): (r: Metric)
    ensures metric in ValidMetrics ==> MetricName(r) == metric
    ensures metric !in ValidMetrics ==> r == SolveRate
  {
    if metric == "total_cases" then TotalCases
    else if metric == "unsolved_cases" then UnsolvedCases
    else if metric == "solved_cases" then SolvedCases
    else SolveRate
  }

  /** The checked name is always valid, and it is the requested one exactly when that was valid. */
  lemma CheckedMetric(metric: string)
    ensures MetricName(ParseMetric(metric)) in ValidMetrics
    ensures MetricName(ParseMetric(metric)) == metric <==> metric in ValidMetrics
  {
  }

  /** Every metric is selected by its own name. */
  lemma MetricNameRoundTrip(m: Metric)
    ensures ParseMetric(MetricName(m)) == m
  {
  }

  /** `max(2, min(10, window))` */
  function ClampWindow(window: int): (w: int)
    ensures 2 <= w <= 10
    ensures 2 <= window <= 10 ==> w == window
    ensures window < 2 ==> w == 2
    ensures window > 10 ==> w == 10
  {
    var upper := if window < 10 then window else 10;
    if upper > 2 then upper else 2
  }

  /** The value a point contributes for a checked metric. */
  function MetricValue(metric: Metric, p: DataPoint): real {
    match metric
    case SolveRate => p.solveRate
    case TotalCases => p.totalCases as real
    case UnsolvedCases => p.unsolvedCases as real
    case SolvedCases => p.solvedCases as real
  }

  /** The metric's value at each point, in order. */
  function Values(metric: Metric, points: seq<DataPoint>): (r: seq<real>)
    ensures |r| == |points|
    ensures forall i :: 0 <= i < |points| ==> r[i] == MetricValue(metric, points[i])
  {
    if points == [] then [] else Values(metric, points[..|points| - 1]) + [MetricValue(metric, points[|points| - 1])]
  }

  datatype TrendPoint = TrendPoint(period: string, value: real, movingAverage: Option<real>)

  /**
   * The trend endpoint after fetching the timeline: checks the metric and the
   * window, extracts one value per point and pairs it with its moving average.
   */
  method BuildTrends(metric: string, window: int, points: seq<DataPoint>)
    returns (usedMetric: string, usedWindow: int, trends: seq<TrendPoint>)
    ensures usedMetric == MetricName(ParseMetric(metric)) && usedWindow == ClampWindow(window)
    ensures |trends| == |points|
    ensures forall i :: 0 <= i < |points| ==>
      trends[i].period == points[i].period
      && trends[i].value == MetricValue(ParseMetric(metric), points[i])
      && trends[i].movingAverage == AverageAt(Values(ParseMetric(metric), points), usedWindow, i)
  {
    var checked := ParseMetric(metric);
    usedMetric := MetricName(checked);
    usedWindow := ClampWindow(window);
    var values: seq<real> := [];
    for i := 0 to |points|
      invariant values == Values(checked, points[..i])
    {
      values := values + [MetricValue(checked, points[i])];
      assert points[..i + 1][..i] == points[..i];
    }
    assert points[..|points|] == points;
    var averages := MovingAverage(values, usedWindow);
    trends := [];
    for i := 0 to |points|
      invariant |trends| == i
      invariant forall j :: 0 <= j < i ==> trends[j] == TrendPoint(points[j].period, values[j], averages[j])
    {
      trends := trends + [TrendPoint(points[i].period, values[i], averages[i])];
    }
  }
}
