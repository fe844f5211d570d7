/**
 * The yearly trend of the statistics service: one point per year row, the
 * direction of the solve rate by the least-squares slope over the row
 * indices, and the average number of cases per year.
 */
module Trends {
  import opened Options
  import opened Rounding
  import opened Timeline

  // ---------------------------------------------------------------------------
  // Least-squares slope
  // ---------------------------------------------------------------------------

  /** The mean of the indices 0 .. n-1. */
  function IndexMean(n: nat): real {
    (n as real - 1.0) / 2.0
  }

  function Mean(values: seq<real>): real
    requires |values| > 0
  {
    Sum(values) / |values| as real
  }

  /** One term of the numerator: (i - x̄)(y - ȳ). */
  function Cross(i: int, xMean: real, y: real, yMean: real): real {
    (i as real - xMean) * (y - yMean)
  }

  /** One term of the denominator: (i - x̄)². */
  function Square(i: int, xMean: real): real {
    (i as real - xMean) * (i as real - xMean)
  }

  /** Σ (i - x̄)(yᵢ - ȳ) over the indices of `values`. */
  function Numerator(values: seq<real>, xMean: real, yMean: real): real {
    if values == [] then 0.0
    else Numerator(values[..|values| - 1], xMean, yMean) + Cross(|values| - 1, xMean, values[|values| - 1], yMean)
  }

  /** Σ (i - x̄)² over the indices 0 .. n-1. */
  function Denominator(n: nat, xMean: real): real {
    if n == 0 then 0.0 else Denominator(n - 1, xMean) + Square(n - 1, xMean)
  }

  /** A slope above 0.5 is "increasing", below -0.5 "decreasing"; fewer than two values are "stable". */
  function Direction(values: seq<real>): (r: string)
    ensures r == "increasing" || r == "decreasing" || r == "stable"
    ensures |values| < 2 ==> r == "stable"
  {
    if |values| < 2 then "stable"
    else
      var xMean := IndexMean(|values|);
      var yMean := Mean(values);
      var den := Denominator(|values|, xMean);
      if den == 0.0 then "stable"
      else
        var slope := Numerator(values, xMean, yMean) / den;
        if slope > 0.5 then "increasing" else if slope < -0.5 then "decreasing" else "stable"
  }

  /** `_calculate_trend_direction(values)` */
  method TrendDirection(values: seq<real>) returns (trend: string)
    ensures trend == Direction(values)
    ensures trend == "increasing" || trend == "decreasing" || trend == "stable"
  {
    if |values| < 2 {
      return "stable";
    }
    var n := |values|;
    var xMean := (n as real - 1.0) / 2.0;
    var yMean := Sum(values) / n as real;
    var numerator := 0.0;
    var denominator := 0.0;
    for i := 0 to n
      invariant numerator == Numerator(values[..i], xMean, yMean)
      invariant denominator == Denominator(i, xMean)
    {
      assert values[..i + 1][..i] == values[..i];
      numerator := numerator + (i as real - xMean) * (values[i] - yMean);
      denominator := denominator + (i as real - xMean) * (i as real - xMean);
    }
    assert values[..n] == values;
    if denominator == 0.0 {
      return "stable";
    }
    var slope := numerator / denominator;
    if slope > 0.5 {
      trend := "increasing";
    } else if slope < -0.5 {
      trend := "decreasing";
    } else {
      trend := "stable";
    }
  }

  lemma {:induction false} DenominatorAtLeastFirst(n: nat, xMean: real)
    requires n >= 1
    ensures Denominator(n, xMean) >= Square(0, xMean)
  {
    if n > 1 {
      DenominatorAtLeastFirst(n - 1, xMean);
      SquareNonNegative(n - 1, xMean);
    }
  }

  lemma SquareNonNegative(i: int, xMean: real)
    ensures Square(i, xMean) >= 0.0
  {
    var d := i as real - xMean;
    if d < 0.0 {
      assert (-d) * (-d) == d * d;
    }
  }

  /** With two or more values the denominator is positive, so its zero test never fires. */
  lemma DenominatorPositive(n: nat)
    requires n >= 2
    ensures Denominator(n, IndexMean(n)) > 0.0
  {
    DenominatorAtLeastFirst(n, IndexMean(n));
    assert IndexMean(n) >= 0.5;
  }

  lemma {:induction false} NumeratorOfConstant(values: seq<real>, xMean: real, c: real)
    requires forall k :: 0 <= k < |values| ==> values[k] == c
    ensures Numerator(values, xMean, c) == 0.0
  {
    if values != [] {
      NumeratorOfConstant(values[..|values| - 1], xMean, c);
    }
  }

  /** A constant series is "stable". */
  lemma ConstantIsStable(values: seq<real>, c: real)
    requires forall k :: 0 <= k < |values| ==> values[k] == c
    ensures Direction(values) == "stable"
  {
    if |values| >= 2 {
      SumConstant(values, c);
      assert Mean(values) == c;
      NumeratorOfConstant(values, IndexMean(|values|), c);
    }
  }

  /** The series a, a + b, a + 2b, … of length n. */
  function Linear(a: real, b: real, n: nat): (r: seq<real>)
    ensures |r| == n
  {
    seq(n, i requires 0 <= i < n => a + b * i as real)
  }

  lemma LinearPrefix(a: real, b: real, n: nat)
    requires n > 0
    ensures Linear(a, b, n)[..n - 1] == Linear(a, b, n - 1)
    ensures Linear(a, b, n)[n - 1] == a + b * (n - 1) as real
  {
  }

  lemma {:induction false} SumLinear(a: real, b: real, n: nat)
    ensures Sum(Linear(a, b, n)) == n as real * a + b * (n as real * (n as real - 1.0) / 2.0)
  {
    if n > 0 {
      LinearPrefix(a, b, n);
      SumLinear(a, b, n - 1);
      var m := (n - 1) as real;
      assert b * (m * (m - 1.0) / 2.0) + b * m == b * ((m + 1.0) * m / 2.0);
    }
  }

  /** Against the mean a + b·x̄, the term at index i is b·(i - x̄)². */
  lemma CrossOfLinear(a: real, b: real, i: int, xMean: real)
    ensures Cross(i, xMean, a + b * i as real, a + b * xMean) == b * Square(i, xMean)
  {
    assert (a + b * i as real) - (a + b * xMean) == b * (i as real - xMean);
  }

  lemma {:induction false} NumeratorOfLinear(a: real, b: real, n: nat, xMean: real)
    ensures Numerator(Linear(a, b, n), xMean, a + b * xMean) == b * Denominator(n, xMean)
  {
    if n > 0 {
      LinearPrefix(a, b, n);
      NumeratorOfLinear(a, b, n - 1, xMean);
      CrossOfLinear(a, b, n - 1, xMean);
    }
  }

  lemma MeanOfLinear(a: real, b: real, n: nat)
    requires n >= 1
    ensures Mean(Linear(a, b, n)) == a + b * IndexMean(n)
  {
    SumLinear(a, b, n);
    var size := n as real;
    var total := size * a + b * (size * (size - 1.0) / 2.0);
    assert size * (a + b * ((size - 1.0) / 2.0)) == total;
    QuotientOf(total, size, a + b * IndexMean(n));
  }

  lemma QuotientOf(x: real, d: real, q: real)
    requires d != 0.0 && d * q == x
    ensures x / d == q
  {
  }

  /**
   * The slope of an exactly linear series is its step: a step above 0.5 is
   * "increasing", below -0.5 "decreasing", anything in between "stable".
   */
  lemma LinearDirection(a: real, b: real, n: nat)
    requires n >= 2
    ensures Direction(Linear(a, b, n))
         == if b > 0.5 then "increasing" else if b < -0.5 then "decreasing" else "stable"
  {
    var values := Linear(a, b, n);
    var xMean := IndexMean(n);
    MeanOfLinear(a, b, n);
    NumeratorOfLinear(a, b, n, xMean);
    DenominatorPositive(n);
    var den := Denominator(n, xMean);
    QuotientOf(b * den, den, b);
    assert Mean(values) == a + b * xMean;
    assert Numerator(values, xMean, Mean(values)) == b * den;
    assert Numerator(values, xMean, Mean(values)) / den == b;
  }

  // ---------------------------------------------------------------------------
  // Yearly trend statistics
  // ---------------------------------------------------------------------------

  /** A row grouped by year: the year, COUNT(*) and the two SUMs. */
  datatype YearRow = YearRow(year: int, totalCases: Option<int>, solvedCases: Option<int>, unsolvedCases: Option<int>)

  datatype YearlyPoint = YearlyPoint(year: int, totalCases: int, solvedCases: int, unsolvedCases: int, solveRate: real)

  function YearlyPointOf(row: YearRow): YearlyPoint {
    var total := OrInt(row.totalCases, 0);
    var solved := OrInt(row.solvedCases, 0);
    YearlyPoint(row.year, total, solved, OrInt(row.unsolvedCases, 0),
                if total > 0 then Percentage(solved, total) else 0.0)
  }

  /** The total over all year rows, NULL counting as 0. */
  function CaseTotal(rows: seq<YearRow>): int {
    if rows == [] then 0 else CaseTotal(rows[..|rows| - 1]) + OrInt(rows[|rows| - 1].totalCases, 0)
  }

  /** `round(total / years, 1) if years > 0 else 0.0` */
  function AverageAnnual(total: int, years: int): (r: real)
    ensures years <= 0 ==> r == 0.0
    ensures years > 0 ==> total as real / years as real - 0.05 <= r <= total as real / years as real + 0.05
  {
    if years > 0 then Round1(total as real / years as real) else 0.0
  }

  /** No years give 0.0; an even spread of k cases a year gives exactly k; non-negative totals give a non-negative average. */
  lemma AverageAnnualFacts(total: int, years: int, k: int)
    ensures years <= 0 ==> AverageAnnual(total, years) == 0.0
    ensures years > 0 && total == k * years ==> AverageAnnual(total, years) == k as real
    ensures years > 0 && 0 <= total ==> 0.0 <= AverageAnnual(total, years)
  {
    if years > 0 {
      if total == k * years {
        assert total as real / years as real == k as real;
        Round1Integer(k);
      }
      if 0 <= total {
        Round1Monotone(0.0, total as real / years as real);
        Round1Integer(0);
      }
    }
  }

  /**
   * The row loop of the trend endpoint: a point and a solve rate per row and
   * the running total, then the direction of the rates and the yearly average.
   */
  method BuildTrendStatistics(rows: seq<YearRow>)
    returns (yearly: seq<YearlyPoint>, trend: string, averageAnnual: real)
    ensures |yearly| == |rows|
    ensures forall i :: 0 <= i < |rows| ==> yearly[i] == YearlyPointOf(rows[i])
    ensures trend == Direction(seq(|rows|, i requires 0 <= i < |rows| => YearlyPointOf(rows[i]).solveRate))
    ensures averageAnnual == AverageAnnual(CaseTotal(rows), |rows|)
  {
    yearly := [];
    var solveRates: seq<real> := [];
    var total := 0;
    for i := 0 to |rows|
      invariant |yearly| == i && |solveRates| == i
      invariant forall j :: 0 <= j < i ==> yearly[j] == YearlyPointOf(rows[j])
      invariant forall j :: 0 <= j < i ==> solveRates[j] == YearlyPointOf(rows[j]).solveRate
      invariant total == CaseTotal(rows[..i])
    {
      var point := YearlyPointOf(rows[i]);
      yearly := yearly + [point];
      solveRates := solveRates + [point.solveRate];
      assert rows[..i + 1][..i] == rows[..i];
      total := total + point.totalCases;
    }
    assert rows[..|rows|] == rows;
    assert solveRates == seq(|rows|, i requires 0 <= i < |rows| => YearlyPointOf(rows[i]).solveRate);
    trend := TrendDirection(solveRates);
    var numYears := |yearly|;
    averageAnnual := if numYears > 0 then Round1(total as real / numYears as real) else 0.0;
  }
}
