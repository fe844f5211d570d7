/**
 * The single-case similarity search: a reference case is scored against
 * every candidate with a second, different vocabulary of factors
 * (tolerance windows, a neutral 50 for unknowns, a county/state fallback
 * without coordinates, no normalisation by the total weight), and the
 * candidates that reach the minimum score are ranked and trimmed to a limit.
 */
module SimilaritySearch {
  import opened Options
  import opened Rounding
  import opened Geo
  import opened Sorting

  /** The columns of one row that the search reads; NULL columns are None. */
  datatype SearchCase = SearchCase(
    id: string,
    state: Option<string>,
    year: int,
    vicAge: int,
    vicRace: Option<string>,
    weapon: Option<string>,
    weaponCode: Option<int>,
    relationship: Option<string>,
    circumstance: Option<string>,
    countyFips: Option<int>,
    latitude: Option<real>,
    longitude: Option<real>)

  datatype SearchWeights = SearchWeights(
    weapon: real,
    geographic: real,
    victimAge: real,
    temporal: real,
    victimRace: real,
    circumstance: real,
    relationship: real)
  {
    function Total(): real {
      weapon + geographic + victimAge + temporal + victimRace + circumstance + relationship
    }

    predicate NonNegative() {
      weapon >= 0.0 && geographic >= 0.0 && victimAge >= 0.0 && temporal >= 0.0
      && victimRace >= 0.0 && circumstance >= 0.0 && relationship >= 0.0
    }
  }

  const DefaultSearchWeights: SearchWeights := SearchWeights(0.30, 0.25, 0.20, 0.15, 0.05, 0.03, 0.02)

  lemma DefaultSearchWeightsTotal()
    ensures DefaultSearchWeights.NonNegative() && DefaultSearchWeights.Total() == 1.0
  {
  }

  datatype SearchConfig = SearchConfig(
    weights: SearchWeights,
    radiusMiles: real,
    ageRange: int,
    yearRange: int,
    minScore: real,
    limit: int)

  /** The configuration a search runs with: default weights, radius and windows. */
  function DefaultSearchConfig(minScore: real, limit: int): (c: SearchConfig)
    ensures c.radiusMiles > 0.0 && c.weights.Total() == 1.0
  {
    SearchConfig(DefaultSearchWeights, 100.0, 10, 5, minScore, limit)
  }

  // ---------------------------------------------------------------------------
  // Weapon categories of the search
  // ---------------------------------------------------------------------------

  /** The eleven code sets of the search's own category table, in order. */
  const SearchCategories: seq<set<int>> := [
    {11, 12, 13, 14, 15}, {20}, {30}, {40}, {80, 85}, {60}, {70}, {65}, {75}, {90}, {50, 55}
  ]

  /** Whether some set of `table` holds both codes, trying the sets in order. */
  function BothInSomeSet(table: seq<set<int>>, a: int, b: int): bool {
    table != [] && ((a in table[0] && b in table[0]) || BothInSomeSet(table[1..], a, b))
  }

  /** False when either code is absent; otherwise whether one set of the table holds both. */
  function SameWeaponCategory(code1: Option<int>, code2: Option<int>): bool {
    code1.Some? && code2.Some? && BothInSomeSet(SearchCategories, code1.value, code2.value)
  }

  lemma {:induction false} BothInSomeSetMeaning(table: seq<set<int>>, a: int, b: int)
    ensures BothInSomeSet(table, a, b) <==> exists k :: 0 <= k < |table| && a in table[k] && b in table[k]
  {
    if table != [] {
      BothInSomeSetMeaning(table[1..], a, b);
      if BothInSomeSet(table[1..], a, b) {
        var k :| 0 <= k < |table[1..]| && a in table[1..][k] && b in table[1..][k];
        assert table[k + 1] == table[1..][k];
      }
      if exists k :: 0 <= k < |table| && a in table[k] && b in table[k] {
        var k :| 0 <= k < |table| && a in table[k] && b in table[k];
        if k > 0 {
          assert table[1..][k - 1] == table[k];
        }
      }
    }
  }

  /**
   * Two present codes share a category exactly when one set of the table
   * holds both; the relation is symmetric.
   */
  lemma SameWeaponCategoryMeaning(code1: Option<int>, code2: Option<int>)
    ensures SameWeaponCategory(code1, code2) <==>
      code1.Some? && code2.Some?
      && exists k :: 0 <= k < |SearchCategories| && code1.value in SearchCategories[k] && code2.value in SearchCategories[k]
    ensures SameWeaponCategory(code1, code2) == SameWeaponCategory(code2, code1)
  {
    if code1.Some? && code2.Some? {
      BothInSomeSetMeaning(SearchCategories, code1.value, code2.value);
      BothInSomeSetMeaning(SearchCategories, code2.value, code1.value);
    }
  }

  /** Every code listed in the table. */
  const ListedCodes: set<int> := {11, 12, 13, 14, 15, 20, 30, 40, 80, 85, 60, 70, 65, 75, 90, 50, 55}

  /**
   * A code shares a category with itself only when the table lists it, so
   * an unlisted code such as 99 or 21 never matches, not even itself.
   */
  lemma SameWeaponCategoryReflexive(code: int)
    ensures SameWeaponCategory(Some(code), Some(code)) <==> code in ListedCodes
  {
    SameWeaponCategoryMeaning(Some(code), Some(code));
    if code in ListedCodes {
      var k :=
        if code in {11, 12, 13, 14, 15} then 0 else if code == 20 then 1 else if code == 30 then 2
        else if code == 40 then 3 else if code in {80, 85} then 4 else if code == 60 then 5
        else if code == 70 then 6 else if code == 65 then 7 else if code == 75 then 8
        else if code == 90 then 9 else 10;
      assert code in SearchCategories[k];
    }
  }

  // ---------------------------------------------------------------------------
  // Factors
  // ---------------------------------------------------------------------------

  /** The seven factor scores of a candidate. */
  datatype SearchFactors = SearchFactors(
    weapon: real,
    geographic: real,
    victimAge: real,
    temporal: real,
    victimRace: real,
    circumstance: real,
    relationship: real)
  {
    predicate InRange() {
      0.0 <= weapon <= 100.0 && 0.0 <= geographic <= 100.0 && 0.0 <= victimAge <= 100.0
      && 0.0 <= temporal <= 100.0 && 0.0 <= victimRace <= 100.0 && 0.0 <= circumstance <= 100.0
      && 0.0 <= relationship <= 100.0
    }
  }

  /** 100 for the same weapon label (two missing labels included), 70 for the same category, else 0. */
  function WeaponMatch(ref: SearchCase, cand: SearchCase): (r: real)
    ensures r == 100.0 <==> ref.weapon == cand.weapon
    ensures r == 70.0 <==> ref.weapon != cand.weapon && SameWeaponCategory(ref.weaponCode, cand.weaponCode)
    ensures r == 0.0 || r == 70.0 || r == 100.0
  {
    if ref.weapon == cand.weapon then 100.0
    else if SameWeaponCategory(ref.weaponCode, cand.weaponCode) then 70.0
    else 0.0
  }

  /** Python truthiness of an optional coordinate: present and not 0.0. */
  predicate TruthyCoordinate(x: Option<real>) {
    x.Some? && x.value != 0.0
  }

  /** `all([ref_lat, ref_lon, cand_lat, cand_lon])` */
  predicate AllCoordinates(ref: SearchCase, cand: SearchCase) {
    TruthyCoordinate(ref.latitude) && TruthyCoordinate(ref.longitude)
    && TruthyCoordinate(cand.latitude) && TruthyCoordinate(cand.longitude)
  }

  function Between(ref: SearchCase, cand: SearchCase, dist: Distance): real
    requires AllCoordinates(ref, cand)
  {
    dist(ref.latitude.value, ref.longitude.value, cand.latitude.value, cand.longitude.value)
  }

  function MaxReal(a: real, b: real): real { if a >= b then a else b }

  /**
   * With all four coordinates: 100 at distance 0 down to 50 at the radius,
   * 0 beyond it. Without them: 100 for equal county codes (two missing ones
   * included), 30 for the same state, else 0.
   */
  function Proximity(ref: SearchCase, cand: SearchCase, radius: real, dist: Distance): (r: real)
    requires radius > 0.0
    ensures AllCoordinates(ref, cand) && Between(ref, cand, dist) > radius ==> r == 0.0
    ensures (AllCoordinates(ref, cand) ==> Between(ref, cand, dist) >= 0.0) ==> 0.0 <= r <= 100.0
  {
    if AllCoordinates(ref, cand) then
      var d := Between(ref, cand, dist);
      if d <= radius then
        assert d >= 0.0 ==> d / radius >= 0.0;
        MaxReal(0.0, 100.0 - d / radius * 50.0)
      else 0.0
    else if ref.countyFips == cand.countyFips then 100.0
    else if ref.state == cand.state then 30.0
    else 0.0
  }

  /** The proximity score within the radius lies in [50, 100], and is 0 beyond it. */
  lemma ProximityWithCoordinates(ref: SearchCase, cand: SearchCase, radius: real, dist: Distance)
    requires radius > 0.0 && AllCoordinates(ref, cand) && Between(ref, cand, dist) >= 0.0
    ensures Between(ref, cand, dist) <= radius ==> 50.0 <= Proximity(ref, cand, radius, dist) <= 100.0
    ensures Between(ref, cand, dist) > radius ==> Proximity(ref, cand, radius, dist) == 0.0
    ensures Between(ref, cand, dist) == 0.0 ==> Proximity(ref, cand, radius, dist) == 100.0
  {
    var d := Between(ref, cand, dist);
    if d <= radius {
      assert 0.0 <= d / radius <= 1.0;
    }
  }

  /** Without all four coordinates the score falls back on county, then state. */
  lemma ProximityFallback(ref: SearchCase, cand: SearchCase, radius: real, dist: Distance)
    requires radius > 0.0 && !AllCoordinates(ref, cand)
    ensures Proximity(ref, cand, radius, dist) == 100.0 <==> ref.countyFips == cand.countyFips
    ensures Proximity(ref, cand, radius, dist) == 30.0 <==> ref.countyFips != cand.countyFips && ref.state == cand.state
    ensures Proximity(ref, cand, radius, dist) == 0.0 <==> ref.countyFips != cand.countyFips && ref.state != cand.state
  {
  }

  function AbsInt(x: int): nat { if x < 0 then -x else x }

  /** Victim age marker for an unknown age. */
  const UnknownAge: int := 999

  /** 50 when either age is unknown; 100 within the window; then 5 points off per year beyond it. */
  function AgeProximity(age1: int, age2: int, window: int): (r: real)
    ensures 0.0 <= r <= 100.0
    ensures age1 == UnknownAge || age2 == UnknownAge ==> r == 50.0
    ensures age1 != UnknownAge && age2 != UnknownAge ==> (AbsInt(age1 - age2) <= window <==> r == 100.0)
  {
    if age1 == UnknownAge || age2 == UnknownAge then 50.0
    else
      var diff := AbsInt(age1 - age2);
      if diff <= window then 100.0 else MaxReal(0.0, 100.0 - ((diff - window) as real) * 5.0)
  }

  /** 100 within the window of years; then 10 points off per year beyond it. */
  function YearProximity(year1: int, year2: int, window: int): (r: real)
    ensures 0.0 <= r <= 100.0
    ensures AbsInt(year1 - year2) <= window <==> r == 100.0
    ensures AbsInt(year1 - year2) >= window + 10 ==> r == 0.0
  {
    var diff := AbsInt(year1 - year2);
    if diff <= window then 100.0 else MaxReal(0.0, 100.0 - ((diff - window) as real) * 10.0)
  }

  /** A wider gap between known ages, or between years, never scores higher. */
  lemma ProximityAntitone(a1: int, a2: int, b1: int, b2: int, window: int)
    requires AbsInt(a1 - a2) <= AbsInt(b1 - b2)
    ensures a1 != UnknownAge && a2 != UnknownAge && b1 != UnknownAge && b2 != UnknownAge ==>
      AgeProximity(a1, a2, window) >= AgeProximity(b1, b2, window)
    ensures YearProximity(a1, a2, window) >= YearProximity(b1, b2, window)
  {
  }

  /** 100 when both values are present and equal, 0 when both are present and differ, 50 otherwise. */
  function ContextMatch(a: Option<string>, b: Option<string>): (r: real)
    ensures Truthy(a) && Truthy(b) ==> (r == 100.0 <==> a == b) && (r == 0.0 <==> a != b)
    ensures !(Truthy(a) && Truthy(b)) ==> r == 50.0
  {
    if Truthy(a) && Truthy(b) then (if a == b then 100.0 else 0.0) else 50.0
  }

  /** The seven factors of a candidate, each in [0, 100] for a non-negative distance. */
  function ScoreFactors(ref: SearchCase, cand: SearchCase, config: SearchConfig, dist: Distance): (r: SearchFactors)
    requires config.radiusMiles > 0.0
    ensures (AllCoordinates(ref, cand) ==> Between(ref, cand, dist) >= 0.0) ==> r.InRange()
    ensures r.weapon == 100.0 <==> ref.weapon == cand.weapon
    ensures r.victimRace == 100.0 <==> ref.vicRace == cand.vicRace
    ensures r.temporal == 100.0 <==> AbsInt(ref.year - cand.year) <= config.yearRange
  {
    SearchFactors(
      WeaponMatch(ref, cand),
      Proximity(ref, cand, config.radiusMiles, dist),
      AgeProximity(ref.vicAge, cand.vicAge, config.ageRange),
      YearProximity(ref.year, cand.year, config.yearRange),
      if ref.vicRace == cand.vicRace then 100.0 else 0.0,
      ContextMatch(ref.circumstance, cand.circumstance),
      ContextMatch(ref.relationship, cand.relationship))
  }

  /** A factor in [0, 100] times a non-negative weight lies between 0 and 100 times the weight. */
  function Weighted(factor: real, weight: real): (r: real)
    ensures 0.0 <= factor <= 100.0 && weight >= 0.0 ==> 0.0 <= r <= 100.0 * weight
  {
    if 0.0 <= factor <= 100.0 && weight >= 0.0 then
      ScaledBounds(factor, weight);
      factor * weight
    else factor * weight
  }

  lemma ScaledBounds(f: real, w: real)
    requires 0.0 <= f <= 100.0 && w >= 0.0
    ensures 0.0 <= f * w <= 100.0 * w
  {
  }

  /** Each factor times its weight, summed: no division by the total and no rounding. */
  function OverallScore(f: SearchFactors, w: SearchWeights): (r: real)
    ensures f.InRange() && w.NonNegative() ==> 0.0 <= r <= 100.0 * w.Total()
  {
    Weighted(f.weapon, w.weapon) + Weighted(f.geographic, w.geographic)
    + Weighted(f.victimAge, w.victimAge) + Weighted(f.temporal, w.temporal)
    + Weighted(f.victimRace, w.victimRace) + Weighted(f.circumstance, w.circumstance)
    + Weighted(f.relationship, w.relationship)
  }

  /** The score of a candidate and its factors. */
  function ScoreCandidate(ref: SearchCase, cand: SearchCase, config: SearchConfig, dist: Distance): (r: (real, SearchFactors))
    requires config.radiusMiles > 0.0
    ensures (AllCoordinates(ref, cand) ==> Between(ref, cand, dist) >= 0.0) ==> r.1.InRange()
    ensures (AllCoordinates(ref, cand) ==> Between(ref, cand, dist) >= 0.0) && config.weights.NonNegative() ==>
      0.0 <= r.0 <= 100.0 * config.weights.Total()
  {
    var f := ScoreFactors(ref, cand, config, dist);
    (OverallScore(f, config.weights), f)
  }

  lemma FactorsInRange(ref: SearchCase, cand: SearchCase, config: SearchConfig, dist: Distance)
    requires config.radiusMiles > 0.0
    requires AllCoordinates(ref, cand) ==> Between(ref, cand, dist) >= 0.0
    ensures ScoreFactors(ref, cand, config, dist).InRange()
  {
    if AllCoordinates(ref, cand) {
      ProximityWithCoordinates(ref, cand, config.radiusMiles, dist);
    }
  }

  /** A weighted sum of factors in [0, 100] with weights summing to 1 is in [0, 100]. */
  lemma OverallScoreRange(f: SearchFactors, w: SearchWeights)
    requires f.InRange() && w.NonNegative() && w.Total() == 1.0
    ensures 0.0 <= OverallScore(f, w) <= 100.0
  {
  }

  /** With the default weights and a non-negative distance, every score is in [0, 100]. */
  lemma ScoreRange(ref: SearchCase, cand: SearchCase, config: SearchConfig, dist: Distance)
    requires config.radiusMiles > 0.0 && config.weights.NonNegative() && config.weights.Total() == 1.0
    requires AllCoordinates(ref, cand) ==> Between(ref, cand, dist) >= 0.0
    ensures 0.0 <= ScoreCandidate(ref, cand, config, dist).0 <= 100.0
  {
    FactorsInRange(ref, cand, config, dist);
    OverallScoreRange(ScoreFactors(ref, cand, config, dist), config.weights);
  }

  /** With a symmetric distance the score does not depend on which case is the reference. */
  lemma ScoreSymmetric(ref: SearchCase, cand: SearchCase, config: SearchConfig, dist: Distance)
    requires config.radiusMiles > 0.0
    requires AllCoordinates(ref, cand) ==> Between(ref, cand, dist) == Between(cand, ref, dist)
    ensures ScoreCandidate(ref, cand, config, dist) == ScoreCandidate(cand, ref, config, dist)
  {
    SameWeaponCategoryMeaning(ref.weaponCode, cand.weaponCode);
    assert AbsInt(ref.vicAge - cand.vicAge) == AbsInt(cand.vicAge - ref.vicAge);
    assert AbsInt(ref.year - cand.year) == AbsInt(cand.year - ref.year);
  }

  // ---------------------------------------------------------------------------
  // Ranking
  // ---------------------------------------------------------------------------

  /** One entry of the search result. */
  datatype SimilarCase = SimilarCase(
    caseId: string,
    similarityScore: real,
    matchingFactors: SearchFactors,
    caseData: SearchCase)

  function RoundFactors(f: SearchFactors): SearchFactors {
    SearchFactors(Round1(f.weapon), Round1(f.geographic), Round1(f.victimAge), Round1(f.temporal),
                  Round1(f.victimRace), Round1(f.circumstance), Round1(f.relationship))
  }

  /** The entry for a candidate: its id, the score and factors rounded to one decimal, the row. */
  function Entry(ref: SearchCase, cand: SearchCase, config: SearchConfig, dist: Distance): SimilarCase
    requires config.radiusMiles > 0.0
  {
    var (score, f) := ScoreCandidate(ref, cand, config, dist);
    SimilarCase(cand.id, Round1(score), RoundFactors(f), cand)
  }

  /** The entries of the candidates whose unrounded score reaches the minimum, in row order. */
  function Kept(ref: SearchCase, cands: seq<SearchCase>, config: SearchConfig, dist: Distance): seq<SimilarCase>
    requires config.radiusMiles > 0.0
  {
    if cands == [] then []
    else
      var last := cands[|cands| - 1];
      Kept(ref, cands[..|cands| - 1], config, dist)
        + if Reaches(ref, last, config, dist) then [Entry(ref, last, config, dist)] else []
  }

  /** The candidate's unrounded score reaches the minimum. */
  predicate Reaches(ref: SearchCase, cand: SearchCase, config: SearchConfig, dist: Distance)
    requires config.radiusMiles > 0.0
  {
    ScoreCandidate(ref, cand, config, dist).0 >= config.minScore
  }

  /** An entry is kept exactly when some candidate reaching the minimum produced it. */
  lemma {:induction false} KeptMembers(ref: SearchCase, cands: seq<SearchCase>, config: SearchConfig, dist: Distance, e: SimilarCase)
    requires config.radiusMiles > 0.0
    ensures e in Kept(ref, cands, config, dist) <==>
      exists c :: c in cands && Reaches(ref, c, config, dist) && e == Entry(ref, c, config, dist)
  {
    if cands != [] {
      var init := cands[..|cands| - 1];
      KeptMembers(ref, init, config, dist, e);
      assert cands == init + [cands[|cands| - 1]];
      if exists c :: c in cands && Reaches(ref, c, config, dist) && e == Entry(ref, c, config, dist) {
        var c :| c in cands && Reaches(ref, c, config, dist) && e == Entry(ref, c, config, dist);
        if c != cands[|cands| - 1] {
          assert c in init;
        }
      }
    }
  }

  /** Rounding keeps every kept score at or above the rounded minimum. */
  lemma KeptScores(ref: SearchCase, cands: seq<SearchCase>, config: SearchConfig, dist: Distance)
    requires config.radiusMiles > 0.0
    ensures forall e :: e in Kept(ref, cands, config, dist) ==> e.similarityScore >= Round1(config.minScore)
  {
    forall e | e in Kept(ref, cands, config, dist) ensures e.similarityScore >= Round1(config.minScore) {
      KeptMembers(ref, cands, config, dist, e);
      var c :| c in cands && ScoreCandidate(ref, c, config, dist).0 >= config.minScore && e == Entry(ref, c, config, dist);
      Round1Monotone(config.minScore, ScoreCandidate(ref, c, config, dist).0);
    }
  }

  function ScoreKey(e: SimilarCase): real { e.similarityScore }

  /**
   * Scores every candidate in row order, keeps those whose unrounded score
   * reaches the minimum, sorts them by rounded score (stable, descending)
   * and keeps the first `limit`.
   */
  method FindSimilarCases(ref: SearchCase, candidates: seq<SearchCase>, config: SearchConfig, dist: Distance)
    returns (result: seq<SimilarCase>)
    requires config.radiusMiles > 0.0
    ensures result == Take(SortDesc(Kept(ref, candidates, config, dist), ScoreKey), config.limit)
  {
    var similar: seq<SimilarCase> := [];
    for i := 0 to |candidates|
      invariant similar == Kept(ref, candidates[..i], config, dist)
    {
      assert candidates[..i + 1][..i] == candidates[..i];
      var candidate := candidates[i];
      var (score, factors) := ScoreCandidate(ref, candidate, config, dist);
      if score >= config.minScore {
        similar := similar + [SimilarCase(candidate.id, Round1(score), RoundFactors(factors), candidate)];
      }
    }
    assert candidates[..|candidates|] == candidates;
    similar := SortDesc(similar, ScoreKey);
    result := Take(similar, config.limit);
  }

  /**
   * What a search returns: at most `limit` entries, in non-increasing score
   * order, each produced by a candidate that reached the minimum score; equal
   * scores keep row order; and with room for all of them nothing is dropped.
   */
  lemma SearchResultFacts(ref: SearchCase, cands: seq<SearchCase>, config: SearchConfig, dist: Distance, k: real)
    requires config.radiusMiles > 0.0 && config.limit >= 0
    ensures var kept := Kept(ref, cands, config, dist);
      var result := Take(SortDesc(kept, ScoreKey), config.limit);
      |result| <= config.limit
      && SortedDesc(result, ScoreKey)
      && (forall e :: e in result ==> e in kept && e.similarityScore >= Round1(config.minScore))
      && (|kept| <= config.limit ==>
            multiset(result) == multiset(kept) && WithKey(result, ScoreKey, k) == WithKey(kept, ScoreKey, k))
  {
    var kept := Kept(ref, cands, config, dist);
    var sorted := SortDesc(kept, ScoreKey);
    var result := Take(sorted, config.limit);
    SortDescSorted(kept, ScoreKey);
    SortDescStable(kept, ScoreKey, k);
    KeptScores(ref, cands, config, dist);
    forall e | e in result ensures e in kept {
      assert e in sorted;
      assert e in multiset(sorted);
    }
  }
}
