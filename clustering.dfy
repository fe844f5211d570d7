/**
 * The case model and the six-factor similarity score of the cluster
 * detection engine: geographic proximity, weapon, victim sex, victim age,
 * year and victim race, combined as a weighted average normalised by the
 * total weight and rounded to one decimal.
 */
module Clustering {
  import opened Options
  import opened Rounding
  import opened Geo
  import Mappings

  /** One homicide case, reduced to the fields the engine compares. */
  datatype Case = Case(
    id: string,
    state: string,
    countyFips: Option<int>,
    latitude: Option<real>,
    longitude: Option<real>,
    year: int,
    month: int,
    solved: int,
    weaponCode: int,
    weapon: string,
    vicSexCode: int,
    vicSex: string,
    vicAge: int,
    vicRace: string,
    offAge: int,
    offSex: string,
    offRace: string,
    relationship: string,
    circumstance: string)

  /** Relative weight of each factor in the combined score. */
  datatype Weights = Weights(
    geographic: real,
    weapon: real,
    victimSex: real,
    victimAge: real,
    temporal: real,
    victimRace: real)
  {
    function Total(): (t: real)
      ensures NonNegative() ==> t >= 0.0
    {
      geographic + weapon + victimSex + victimAge + temporal + victimRace
    }

    predicate NonNegative() {
      geographic >= 0.0 && weapon >= 0.0 && victimSex >= 0.0
      && victimAge >= 0.0 && temporal >= 0.0 && victimRace >= 0.0
    }
  }

  const DefaultWeights: Weights := Weights(35.0, 25.0, 20.0, 10.0, 7.0, 3.0)

  lemma DefaultWeightsTotal()
    ensures DefaultWeights.NonNegative() && DefaultWeights.Total() == 100.0
  {
  }

  /** Thresholds of cluster detection. */
  datatype ClusterConfig = ClusterConfig(
    minClusterSize: int,
    maxSolveRate: real,
    similarityThreshold: real,
    weights: Weights)

  const DefaultConfig: ClusterConfig := ClusterConfig(5, 33.0, 70.0, DefaultWeights)

  // ---------------------------------------------------------------------------
  // Weapon categories
  // ---------------------------------------------------------------------------

  datatype Category = Firearm | Blade | Blunt | Personal | Other

  /** The category table, searched in this order. */
  const WeaponCategories: seq<(Category, seq<int>)> := [
    (Firearm, [11, 12, 13, 14, 15]),
    (Blade, [20, 21]),
    (Blunt, [30, 31]),
    (Personal, [40, 41]),
    (Other, [50, 60, 65, 70, 80, 90, 99])
  ]

  /** The first category of `table` whose codes hold `code`. */
  function FindCategory(table: seq<(Category, seq<int>)>, code: int): Option<Category> {
    if table == [] then None
    else if code in table[0].1 then Some(table[0].0)
    else FindCategory(table[1..], code)
  }

  /** The category found is that of the first entry listing the code; none when no entry lists it. */
  lemma {:induction false} FindCategoryFirst(table: seq<(Category, seq<int>)>, code: int)
    ensures FindCategory(table, code).None? <==> forall k :: 0 <= k < |table| ==> code !in table[k].1
    ensures FindCategory(table, code).Some? ==>
      exists k :: 0 <= k < |table| && table[k].0 == FindCategory(table, code).value
        && code in table[k].1 && forall j :: 0 <= j < k ==> code !in table[j].1
  {
    if table != [] && code !in table[0].1 {
      FindCategoryFirst(table[1..], code);
      if FindCategory(table, code).Some? {
        var k :| 0 <= k < |table[1..]| && table[1..][k].0 == FindCategory(table, code).value
          && code in table[1..][k].1 && forall j :: 0 <= j < k ==> code !in table[1..][j].1;
        assert table[k + 1] == table[1..][k];
        forall j | 0 <= j < k + 1 ensures code !in table[j].1 {
          if j > 0 {
            assert table[j] == table[1..][j - 1];
          }
        }
      } else {
        forall k | 0 <= k < |table| ensures code !in table[k].1 {
          if k > 0 {
            assert table[k] == table[1..][k - 1];
          }
        }
      }
    }
  }

  /** The category of the first table entry listing the code, or none when no entry lists it. */
  function WeaponCategory(code: int): Option<Category> {
    FindCategory(WeaponCategories, code)
  }

  /** The first matching entry of the table, one entry at a time. */
  lemma WeaponCategorySteps(code: int)
    ensures WeaponCategory(code) ==
      if 11 <= code <= 15 then Some(Firearm)
      else if code == 20 || code == 21 then Some(Blade)
      else if code == 30 || code == 31 then Some(Blunt)
      else if code == 40 || code == 41 then Some(Personal)
      else if code in [50, 60, 65, 70, 80, 90, 99] then Some(Other)
      else None
  {
    var t := WeaponCategories;
    assert code in t[0].1 <==> 11 <= code <= 15;
    assert FindCategory(t, code) == if code in t[0].1 then Some(Firearm) else FindCategory(t[1..], code);
    assert FindCategory(t[1..], code) == if code in t[1].1 then Some(Blade) else FindCategory(t[2..], code);
    assert FindCategory(t[2..], code) == if code in t[2].1 then Some(Blunt) else FindCategory(t[3..], code);
    assert FindCategory(t[3..], code) == if code in t[3].1 then Some(Personal) else FindCategory(t[4..], code);
    assert FindCategory(t[4..], code) == if code in t[4].1 then Some(Other) else FindCategory(t[5..], code);
    assert t[5..] == [];
  }

  /** The category table partitions exactly these codes; every other code has none. */
  lemma WeaponCategoryTable(code: int)
    ensures WeaponCategory(code) == Some(Firearm) <==> 11 <= code <= 15
    ensures WeaponCategory(code) == Some(Blade) <==> code == 20 || code == 21
    ensures WeaponCategory(code) == Some(Blunt) <==> code == 30 || code == 31
    ensures WeaponCategory(code) == Some(Personal) <==> code == 40 || code == 41
    ensures WeaponCategory(code) == Some(Other) <==> code in {50, 60, 65, 70, 80, 90, 99}
    ensures WeaponCategory(code) == None <==> code !in {11, 12, 13, 14, 15, 20, 21, 30, 31, 40, 41, 50, 60, 65, 70, 80, 90, 99}
  {
    WeaponCategorySteps(code);
    assert code in [50, 60, 65, 70, 80, 90, 99] <==> code in {50, 60, 65, 70, 80, 90, 99};
  }

  /**
   * The codes 55, 75 and 85 of the weapon code table have no category, so
   * any two of them count as the same (absent) category.
   */
  lemma UncategorisedTableCodes()
    ensures forall name :: name in Mappings.WeaponCodeMap ==>
      (WeaponCategory(Mappings.WeaponCodeMap[name]).None? <==> Mappings.WeaponCodeMap[name] in {55, 75, 85})
  {
    Mappings.WeaponCodeInverse();
    forall name | name in Mappings.WeaponCodeMap
      ensures WeaponCategory(Mappings.WeaponCodeMap[name]).None? <==> Mappings.WeaponCodeMap[name] in {55, 75, 85}
    {
      WeaponCategoryTable(Mappings.WeaponCodeMap[name]);
    }
  }

  // ---------------------------------------------------------------------------
  // Factors
  // ---------------------------------------------------------------------------

  /** The six factor scores of a pair of cases, each between 0 and 100. */
  datatype Factors = Factors(
    geographic: real,
    weapon: real,
    victimSex: real,
    victimAge: real,
    temporal: real,
    victimRace: real)
  {
    predicate InRange() {
      0.0 <= geographic <= 100.0 && 0.0 <= weapon <= 100.0 && 0.0 <= victimSex <= 100.0
      && 0.0 <= victimAge <= 100.0 && 0.0 <= temporal <= 100.0 && 0.0 <= victimRace <= 100.0
    }
  }

  function Abs(x: int): nat { if x < 0 then -x else x }

  function MaxReal(a: real, b: real): real { if a >= b then a else b }

  /** 100 for the same code, 70 for the same category (two absent ones included), else 0. */
  function WeaponFactor(code1: int, code2: int): (r: real)
    ensures r == 100.0 <==> code1 == code2
    ensures r == 70.0 <==> code1 != code2 && WeaponCategory(code1) == WeaponCategory(code2)
    ensures r == 0.0 <==> WeaponCategory(code1) != WeaponCategory(code2)
  {
    if code1 == code2 then 100.0
    else if WeaponCategory(code1) == WeaponCategory(code2) then 70.0
    else 0.0
  }

  /** Age marker for an unknown age. */
  const UnknownAge: int := 999

  /** 0 when either age is unknown, else 5 points off per year of difference. */
  function AgeFactor(age1: int, age2: int): (r: real)
    ensures 0.0 <= r <= 100.0
    ensures age1 == UnknownAge || age2 == UnknownAge ==> r == 0.0
  {
    if age1 == UnknownAge || age2 == UnknownAge then 0.0
    else MaxReal(0.0, 100.0 - (Abs(age1 - age2) as real) * 5.0)
  }

  /** 10 points off per year between the two cases. */
  function TemporalFactor(year1: int, year2: int): (r: real)
    ensures 0.0 <= r <= 100.0
    ensures r == 100.0 <==> year1 == year2
    ensures r == 0.0 <==> Abs(year1 - year2) >= 10
  {
    MaxReal(0.0, 100.0 - (Abs(year1 - year2) as real) * 10.0)
  }

  function MatchFactor<T(==)>(a: T, b: T): real {
    if a == b then 100.0 else 0.0
  }

  /** A larger age difference never scores higher. */
  lemma AgeFactorAntitone(a1: int, a2: int, b1: int, b2: int)
    requires a1 != UnknownAge && a2 != UnknownAge && b1 != UnknownAge && b2 != UnknownAge
    requires Abs(a1 - a2) <= Abs(b1 - b2)
    ensures AgeFactor(a1, a2) >= AgeFactor(b1, b2)
    ensures Abs(b1 - b2) >= 20 ==> AgeFactor(b1, b2) == 0.0
    ensures AgeFactor(a1, a2) == 100.0 <==> a1 == a2
  {
  }

  /** A larger year gap never scores higher. */
  lemma TemporalFactorAntitone(a1: int, a2: int, b1: int, b2: int)
    requires Abs(a1 - a2) <= Abs(b1 - b2)
    ensures TemporalFactor(a1, a2) >= TemporalFactor(b1, b2)
  {
  }

  /** The six factors of a pair; each attribute-match factor is full exactly when the attribute agrees. */
  function ComputeFactors(c1: Case, c2: Case, dist: Distance): (r: Factors)
    ensures r.weapon == 100.0 <==> c1.weaponCode == c2.weaponCode
    ensures r.victimSex == 100.0 <==> c1.vicSexCode == c2.vicSexCode
    ensures r.victimRace == 100.0 <==> c1.vicRace == c2.vicRace
    ensures r.temporal == 100.0 <==> c1.year == c2.year
    ensures c1.countyFips.Some? && c1.countyFips == c2.countyFips ==> r.geographic == 100.0
  {
    Factors(
      GeographicScore(c1.countyFips, c1.latitude, c1.longitude, c2.countyFips, c2.latitude, c2.longitude, dist),
      WeaponFactor(c1.weaponCode, c2.weaponCode),
      MatchFactor(c1.vicSexCode, c2.vicSexCode),
      AgeFactor(c1.vicAge, c2.vicAge),
      TemporalFactor(c1.year, c2.year),
      MatchFactor(c1.vicRace, c2.vicRace))
  }

  function FactorList(f: Factors): seq<real> {
    [f.geographic, f.weapon, f.victimSex, f.victimAge, f.temporal, f.victimRace]
  }

  function WeightList(w: Weights): seq<real> {
    [w.geographic, w.weapon, w.victimSex, w.victimAge, w.temporal, w.victimRace]
  }

  /** Sum of the pairwise products of two lists of equal length. */
  function Dot(xs: seq<real>, ys: seq<real>): real
    requires |xs| == |ys|
  {
    if xs == [] then 0.0 else xs[0] * ys[0] + Dot(xs[1..], ys[1..])
  }

  function SumList(xs: seq<real>): real {
    if xs == [] then 0.0 else xs[0] + SumList(xs[1..])
  }

  /** Each factor times its weight, summed over the six factors. */
  function WeightedSum(f: Factors, w: Weights): real {
    Dot(FactorList(f), WeightList(w))
  }

  /** Dividing by a zero total weight is an error. */
  datatype SimilarityError = ZeroTotalWeight

  /**
   * The combined score of two cases with its factors: the weighted average of
   * the factors rounded to one decimal, or an error when the weights sum to 0.
   */
  function CalculateSimilarity(c1: Case, c2: Case, w: Weights, dist: Distance): (r: Result<(real, Factors), SimilarityError>)
    ensures r.Err? <==> w.Total() == 0.0
  {
    if w.Total() == 0.0 then Err(ZeroTotalWeight)
    else
      var f := ComputeFactors(c1, c2, dist);
      Ok((Round1(WeightedSum(f, w) / w.Total()), f))
  }

  /** The score of a pair, for weights known to have a non-zero total. */
  function Similarity(c1: Case, c2: Case, w: Weights, dist: Distance): (r: real)
    requires w.Total() != 0.0
    ensures WeightedSum(ComputeFactors(c1, c2, dist), w) / w.Total() - 0.05 <= r
    ensures r <= WeightedSum(ComputeFactors(c1, c2, dist), w) / w.Total() + 0.05
  {
    CalculateSimilarity(c1, c2, w, dist).value.0
  }

  lemma FactorsInRange(c1: Case, c2: Case, dist: Distance)
    requires forall a, b, c, d :: dist(a, b, c, d) >= 0.0
    ensures ComputeFactors(c1, c2, dist).InRange()
  {
    GeographicScoreRange(c1.countyFips, c1.latitude, c1.longitude, c2.countyFips, c2.latitude, c2.longitude, dist);
  }

  lemma ScaledBounds(f: real, w: real)
    requires 0.0 <= f <= 100.0 && w >= 0.0
    ensures 0.0 <= f * w <= 100.0 * w
  {
  }

  lemma AddBounds(x: real, y: real, p: real, q: real)
    requires 0.0 <= x <= 100.0 * p && 0.0 <= y <= 100.0 * q
    ensures 0.0 <= x + y <= 100.0 * (p + q)
  {
  }

  /** A weighted sum of scores in [0, 100] lies between 0 and 100 times the total weight. */
  lemma {:induction false} DotBounds(xs: seq<real>, ys: seq<real>)
    requires |xs| == |ys|
    requires forall k :: 0 <= k < |xs| ==> 0.0 <= xs[k] <= 100.0 && ys[k] >= 0.0
    ensures 0.0 <= Dot(xs, ys) <= 100.0 * SumList(ys)
  {
    if xs != [] {
      var x, y := xs[0], ys[0];
      ScaledBounds(x, y);
      DotBounds(xs[1..], ys[1..]);
      AddBounds(x * y, Dot(xs[1..], ys[1..]), y, SumList(ys[1..]));
    }
  }

  lemma TotalIsSum(w: Weights)
    ensures w.Total() == SumList(WeightList(w))
  {
    var l := WeightList(w);
    assert SumList(l[5..]) == w.victimRace;
    assert SumList(l[4..]) == w.temporal + SumList(l[5..]);
    assert SumList(l[3..]) == w.victimAge + SumList(l[4..]);
    assert SumList(l[2..]) == w.victimSex + SumList(l[3..]);
    assert SumList(l[1..]) == w.weapon + SumList(l[2..]);
  }

  lemma WeightedSumBounds(f: Factors, w: Weights)
    requires f.InRange() && w.NonNegative()
    ensures 0.0 <= WeightedSum(f, w) <= 100.0 * w.Total()
  {
    DotBounds(FactorList(f), WeightList(w));
    TotalIsSum(w);
  }

  /** With non-negative weights of positive total, the score lies in [0, 100]. */
  lemma SimilarityRange(c1: Case, c2: Case, w: Weights, dist: Distance)
    requires forall a, b, c, d :: dist(a, b, c, d) >= 0.0
    requires w.NonNegative() && w.Total() > 0.0
    ensures 0.0 <= Similarity(c1, c2, w, dist) <= 100.0
  {
    var f := ComputeFactors(c1, c2, dist);
    FactorsInRange(c1, c2, dist);
    WeightedSumBounds(f, w);
    var avg := WeightedSum(f, w) / w.Total();
    assert 0.0 <= avg <= 100.0;
    Round1Within(avg, 0, 100);
  }

  /** The score does not depend on the order of the two cases. */
  lemma SimilaritySymmetric(c1: Case, c2: Case, w: Weights, dist: Distance)
    requires forall a, b, c, d :: dist(a, b, c, d) == dist(c, d, a, b)
    ensures CalculateSimilarity(c1, c2, w, dist) == CalculateSimilarity(c2, c1, w, dist)
  {
    GeographicScoreSymmetric(c1.countyFips, c1.latitude, c1.longitude, c2.countyFips, c2.latitude, c2.longitude, dist);
    assert ComputeFactors(c1, c2, dist) == ComputeFactors(c2, c1, dist);
  }

  /** Two identical cases in a known county score 100 with the default weights. */
  lemma SelfSimilarity(c: Case, dist: Distance)
    requires c.countyFips.Some? && c.vicAge != UnknownAge
    ensures Similarity(c, c, DefaultWeights, dist) == 100.0
  {
    var f := ComputeFactors(c, c, dist);
    assert f == Factors(100.0, 100.0, 100.0, 100.0, 100.0, 100.0);
    assert WeightedSum(f, DefaultWeights) / DefaultWeights.Total() == 100.0;
    Round1Integer(100);
  }
}
