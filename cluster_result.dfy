/**
 * The summary of one detected cluster: counts, solve rate, year range,
 * most common weapon and victim sex, mean victim age and mean pair score.
 */
module ClusterResults {
  import opened Rounding
  import opened Text
  import opened Clustering

  datatype ClusterResult = ClusterResult(
    clusterId: string,
    locationDescription: string,
    cases: seq<Case>,
    totalCases: int,
    solvedCases: int,
    unsolvedCases: int,
    solveRate: real,
    avgSimilarityScore: real,
    firstYear: int,
    lastYear: int,
    primaryWeapon: string,
    primaryVictimSex: string,
    avgVictimAge: real)

  // ---------------------------------------------------------------------------
  // Counting labels
  // ---------------------------------------------------------------------------

  /** Occurrences of `l` in `s`. */
  function Count(s: seq<string>, l: string): (r: nat)
    ensures r > 0 <==> l in s
  {
    if s == [] then 0
    else Count(s[..|s| - 1], l) + (if s[|s| - 1] == l then 1 else 0)
  }

  /** Position of the first occurrence of `l` in `s`. */
  function FirstIndex(s: seq<string>, l: string): (r: nat)
    requires l in s
    ensures r < |s| && s[r] == l && l !in s[..r]
  {
    if l in s[..|s| - 1] then FirstIndex(s[..|s| - 1], l) else |s| - 1
  }

  /** The distinct labels of `s` in order of first occurrence (a dict's key order). */
  function FirstAppearances(s: seq<string>): seq<string> {
    if s == [] then []
    else
      var init := FirstAppearances(s[..|s| - 1]);
      if s[|s| - 1] in init then init else init + [s[|s| - 1]]
  }

  lemma {:induction false} FirstAppearancesMembers(s: seq<string>)
    ensures forall l :: l in FirstAppearances(s) <==> l in s
  {
    if s != [] {
      FirstAppearancesMembers(s[..|s| - 1]);
      assert s == s[..|s| - 1] + [s[|s| - 1]];
    }
  }

  lemma {:induction false} FirstAppearancesFacts(s: seq<string>)
    ensures forall l :: l in FirstAppearances(s) <==> l in s
    ensures Distinct(FirstAppearances(s))
    ensures forall p, q :: 0 <= p < q < |FirstAppearances(s)| ==>
      FirstIndex(s, FirstAppearances(s)[p]) < FirstIndex(s, FirstAppearances(s)[q])
  {
    FirstAppearancesMembers(s);
    if s != [] {
      var init := s[..|s| - 1];
      FirstAppearancesFacts(init);
      var f := FirstAppearances(s);
      forall p, q | 0 <= p < q < |f| ensures FirstIndex(s, f[p]) < FirstIndex(s, f[q]) {
        assert f[p] in init;
        if q < |FirstAppearances(init)| {
          assert f[q] in init;
        }
      }
    }
  }

  predicate Distinct(s: seq<string>) {
    forall i, j :: 0 <= i < j < |s| ==> s[i] != s[j]
  }

  /**
   * `l` occurs most often in `s`, and among labels occurring as often it
   * occurs first: what `max` over a counting dictionary returns.
   */
  ghost predicate IsMostCommon(s: seq<string>, l: string) {
    l in s
    && (forall m :: m in s ==> Count(s, m) <= Count(s, l))
    && (forall m :: m in s && Count(s, m) == Count(s, l) ==> FirstIndex(s, l) <= FirstIndex(s, m))
  }

  /** There is only one most common label. */
  lemma MostCommonUnique(s: seq<string>, a: string, b: string)
    requires IsMostCommon(s, a) && IsMostCommon(s, b)
    ensures a == b
  {
    assert FirstIndex(s, a) == FirstIndex(s, b);
  }

  /** Counts each label into a dictionary whose keys keep their insertion order. */
  method CountLabels(s: seq<string>) returns (counts: map<string, nat>, order: seq<string>)
    ensures order == FirstAppearances(s)
    ensures forall l :: l in counts <==> l in s
    ensures forall l :: l in counts ==> counts[l] == Count(s, l)
  {
    counts := map[];
    order := [];
    for i := 0 to |s|
      invariant order == FirstAppearances(s[..i])
      invariant forall l :: l in counts <==> l in s[..i]
      invariant forall l :: l in counts ==> counts[l] == Count(s[..i], l)
    {
      assert s[..i + 1] == s[..i] + [s[i]];
      FirstAppearancesMembers(s[..i]);
      var l := s[i];
      if l !in counts {
        order := order + [l];
      }
      counts := counts[l := (if l in counts then counts[l] else 0) + 1];
    }
    assert s[..|s|] == s;
  }

  /**
   * The key at `at` of the counting dictionary has the largest count, and
   * every key before it a smaller one: it is the most common label.
   */
  lemma FirstMaximumIsMostCommon(s: seq<string>, order: seq<string>, at: nat)
    requires order == FirstAppearances(s)
    requires at < |order|
    requires forall m :: 0 <= m < |order| ==> Count(s, order[m]) <= Count(s, order[at])
    requires forall m :: 0 <= m < at ==> Count(s, order[m]) < Count(s, order[at])
    ensures IsMostCommon(s, order[at])
  {
    var r := order[at];
    FirstAppearancesFacts(s);
    forall m | m in s ensures Count(s, m) <= Count(s, r) {
      var p :| 0 <= p < |order| && order[p] == m;
    }
    forall m | m in s && Count(s, m) == Count(s, r) ensures FirstIndex(s, r) <= FirstIndex(s, m) {
      var p :| 0 <= p < |order| && order[p] == m;
      if p != at {
        assert at < p;
      }
    }
  }

  /** The first key, in insertion order, whose count is maximal (Python's `max`). */
  method MostCommon(s: seq<string>) returns (r: string)
    requires |s| > 0
    ensures IsMostCommon(s, r)
  {
    var counts, order := CountLabels(s);
    FirstAppearancesMembers(s);
    assert s[0] in order;
    r := order[0];
    var best := counts[r];
    ghost var at := 0;
    for k := 1 to |order|
      invariant 0 <= at < k && r == order[at] && best == counts[r]
      invariant forall m :: 0 <= m < k ==> counts[order[m]] <= best
      invariant forall m :: 0 <= m < at ==> counts[order[m]] < best
    {
      if counts[order[k]] > best {
        r := order[k];
        best := counts[r];
        at := k;
      }
    }
    FirstMaximumIsMostCommon(s, order, at);
  }

  // ---------------------------------------------------------------------------
  // Statistics
  // ---------------------------------------------------------------------------

  /** Number of cases marked solved (`solved == 1`). */
  function CountSolved(cases: seq<Case>): (r: nat)
    ensures r <= |cases|
  {
    if cases == [] then 0
    else CountSolved(cases[..|cases| - 1]) + (if cases[|cases| - 1].solved == 1 then 1 else 0)
  }

  function Years(cases: seq<Case>): (r: seq<int>)
    ensures |r| == |cases| && forall k :: 0 <= k < |cases| ==> r[k] == cases[k].year
  {
    if cases == [] then [] else Years(cases[..|cases| - 1]) + [cases[|cases| - 1].year]
  }

  function Weapons(cases: seq<Case>): (r: seq<string>)
    ensures |r| == |cases| && forall k :: 0 <= k < |cases| ==> r[k] == cases[k].weapon
  {
    if cases == [] then [] else Weapons(cases[..|cases| - 1]) + [cases[|cases| - 1].weapon]
  }

  function VictimSexes(cases: seq<Case>): (r: seq<string>)
    ensures |r| == |cases| && forall k :: 0 <= k < |cases| ==> r[k] == cases[k].vicSex
  {
    if cases == [] then [] else VictimSexes(cases[..|cases| - 1]) + [cases[|cases| - 1].vicSex]
  }

  /** `min(xs)` */
  function MinOf(xs: seq<int>): (r: int)
    requires |xs| > 0
    ensures r in xs && forall x :: x in xs ==> r <= x
  {
    if |xs| == 1 then xs[0]
    else
      var m := MinOf(xs[1..]);
      assert xs == [xs[0]] + xs[1..];
      if xs[0] <= m then xs[0] else m
  }

  /** `max(xs)` */
  function MaxOf(xs: seq<int>): (r: int)
    requires |xs| > 0
    ensures r in xs && forall x :: x in xs ==> x <= r
  {
    if |xs| == 1 then xs[0]
    else
      var m := MaxOf(xs[1..]);
      assert xs == [xs[0]] + xs[1..];
      if xs[0] >= m then xs[0] else m
  }

  /** Victim ages other than the unknown marker, as reals, in order. */
  function KnownAges(cases: seq<Case>): (r: seq<real>)
    ensures |r| <= |cases|
  {
    if cases == [] then []
    else
      var c := cases[|cases| - 1];
      KnownAges(cases[..|cases| - 1]) + (if c.vicAge != UnknownAge then [c.vicAge as real] else [])
  }

  function Sum(xs: seq<real>): real {
    if xs == [] then 0.0 else Sum(xs[..|xs| - 1]) + xs[|xs| - 1]
  }

  /** Mean rounded to one decimal, or 0.0 for an empty list. */
  function Mean1(xs: seq<real>): (r: real)
    ensures |xs| == 0 ==> r == 0.0
    ensures |xs| > 0 ==> Sum(xs) / |xs| as real - 0.05 <= r <= Sum(xs) / |xs| as real + 0.05
  {
    if |xs| == 0 then 0.0 else Round1(Sum(xs) / |xs| as real)
  }

  lemma {:induction false} SumBounds(xs: seq<real>, lo: real, hi: real)
    requires forall k :: 0 <= k < |xs| ==> lo <= xs[k] <= hi
    ensures |xs| as real * lo <= Sum(xs) <= |xs| as real * hi
  {
    if xs != [] {
      SumBounds(xs[..|xs| - 1], lo, hi);
      assert (|xs| - 1) as real * lo + lo == |xs| as real * lo;
      assert (|xs| - 1) as real * hi + hi == |xs| as real * hi;
    }
  }

  /** The rounded mean of values within whole-number bounds stays within them. */
  lemma Mean1Bounds(xs: seq<real>, lo: int, hi: int)
    requires |xs| > 0
    requires forall k :: 0 <= k < |xs| ==> lo as real <= xs[k] <= hi as real
    ensures lo as real <= Mean1(xs) <= hi as real
  {
    SumBounds(xs, lo as real, hi as real);
    var n := |xs| as real;
    assert Sum(xs) / n >= lo as real by {
      assert Sum(xs) >= n * (lo as real);
    }
    assert Sum(xs) / n <= hi as real by {
      assert Sum(xs) <= n * (hi as real);
    }
    Round1Within(Sum(xs) / n, lo, hi);
  }

  /** The rounded mean of values at least `lo` is at least `lo` rounded. */
  lemma Mean1AtLeast(xs: seq<real>, lo: real)
    requires |xs| > 0
    requires forall k :: 0 <= k < |xs| ==> lo <= xs[k]
    ensures Round1(lo) <= Mean1(xs)
  {
    SumLower(xs, lo);
    var n := |xs| as real;
    assert Sum(xs) / n >= lo by {
      assert Sum(xs) >= n * lo;
    }
    Round1Monotone(lo, Sum(xs) / n);
  }

  lemma {:induction false} SumLower(xs: seq<real>, lo: real)
    requires forall k :: 0 <= k < |xs| ==> lo <= xs[k]
    ensures |xs| as real * lo <= Sum(xs)
  {
    if xs != [] {
      SumLower(xs[..|xs| - 1], lo);
      assert (|xs| - 1) as real * lo + lo == |xs| as real * lo;
    }
  }

  /** "STATE - County FIPS" from the key's text before and after its first colon. */
  function LocationDescription(countyKey: string): (r: string)
    requires ':' in countyKey
    ensures var (state, rest) := SplitFirst(countyKey, ':').value;
      |r| >= |state| + 10 && r[..|state|] == state && r[|state|..|state| + 10] == " - County "
      && (':' !in rest ==> r == state + " - County " + rest)
  {
    var parts := SplitAll(countyKey, ':');
    var (a, b) := SplitFirst(countyKey, ':').value;
    assert parts == [a] + SplitAll(b, ':');
    assert ':' !in b ==> SplitAll(b, ':') == [b];
    parts[0] + " - County " + parts[1]
  }

  /** The key with colons replaced by underscores, then the timestamp. */
  function ClusterId(countyKey: string, timestamp: int): (r: string)
    ensures ':' !in r && |r| > |countyKey|
  {
    IntToStringChars(timestamp);
    ReplaceChar(countyKey, ':', '_') + "_" + IntToString(timestamp)
  }

  /** `r` summarises `cases`: the statistics every built result carries. */
  ghost predicate Summarises(r: ClusterResult, cases: seq<Case>) {
    |cases| > 0
    && r.cases == cases
    && r.totalCases == |cases|
    && r.solvedCases == CountSolved(cases)
    && r.unsolvedCases == |cases| - CountSolved(cases)
    && r.solveRate == Percentage(CountSolved(cases), |cases|)
    && r.firstYear == MinOf(Years(cases))
    && r.lastYear == MaxOf(Years(cases))
    && IsMostCommon(Weapons(cases), r.primaryWeapon)
    && IsMostCommon(VictimSexes(cases), r.primaryVictimSex)
    && r.avgVictimAge == Mean1(KnownAges(cases))
  }

  /** What every summary guarantees: counts add up and the rate is a percentage. */
  lemma SummaryCounts(r: ClusterResult, cases: seq<Case>)
    requires Summarises(r, cases)
    ensures 0 <= r.solvedCases <= r.totalCases && r.unsolvedCases >= 0
    ensures r.solvedCases + r.unsolvedCases == r.totalCases
    ensures 0.0 <= r.solveRate <= 100.0
  {
    PercentageRange(CountSolved(cases), |cases|);
  }

  /** The year range of a summary spans every member's year. */
  lemma SummaryYears(r: ClusterResult, cases: seq<Case>)
    requires Summarises(r, cases)
    ensures r.firstYear <= r.lastYear
    ensures forall c :: c in cases ==> r.firstYear <= c.year <= r.lastYear
  {
    var years := Years(cases);
    forall c | c in cases ensures r.firstYear <= c.year <= r.lastYear {
      var k :| 0 <= k < |cases| && cases[k] == c;
      assert years[k] in years;
    }
    assert years[0] in years;
  }

  /** Victim ages known to lie in [lo, hi] give a mean age in [lo, hi]. */
  lemma AvgVictimAgeBounds(cases: seq<Case>, lo: int, hi: int)
    requires forall c :: c in cases && c.vicAge != UnknownAge ==> lo <= c.vicAge <= hi
    ensures KnownAges(cases) == [] ==> Mean1(KnownAges(cases)) == 0.0
    ensures KnownAges(cases) != [] ==> lo as real <= Mean1(KnownAges(cases)) <= hi as real
  {
    KnownAgesBounds(cases, lo, hi);
    if KnownAges(cases) != [] {
      Mean1Bounds(KnownAges(cases), lo, hi);
    }
  }

  lemma {:induction false} KnownAgesBounds(cases: seq<Case>, lo: int, hi: int)
    requires forall c :: c in cases && c.vicAge != UnknownAge ==> lo <= c.vicAge <= hi
    ensures forall k :: 0 <= k < |KnownAges(cases)| ==> lo as real <= KnownAges(cases)[k] <= hi as real
  {
    if cases != [] {
      var init := cases[..|cases| - 1];
      assert forall c :: c in init ==> c in cases;
      KnownAgesBounds(init, lo, hi);
    }
  }

  /**
   * Builds the summary of a cluster found in the group `countyKey`;
   * `similarities` are the scores recorded while the cluster was collected.
   */
  method BuildClusterResult(countyKey: string, cases: seq<Case>, similarities: seq<real>, timestamp: int)
    returns (r: ClusterResult)
    requires ':' in countyKey && |cases| > 0
    ensures Summarises(r, cases)
    ensures r.avgSimilarityScore == Mean1(similarities)
    ensures r.clusterId == ClusterId(countyKey, timestamp)
    ensures r.locationDescription == LocationDescription(countyKey)
  {
    var total := |cases|;
    var solved := CountSolved(cases);
    var primaryWeapon := MostCommon(Weapons(cases));
    var primaryVictimSex := MostCommon(VictimSexes(cases));
    r := ClusterResult(
      ClusterId(countyKey, timestamp),
      LocationDescription(countyKey),
      cases,
      total,
      solved,
      total - solved,
      Percentage(solved, total),
      Mean1(similarities),
      MinOf(Years(cases)),
      MaxOf(Years(cases)),
      primaryWeapon,
      primaryVictimSex,
      Mean1(KnownAges(cases)));
  }
}
