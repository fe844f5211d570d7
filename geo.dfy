/**
 * Geographic helpers of the clustering engine: the proximity score of two
 * cases and the county grouping key. Great-circle distance itself is a
 * parameter (`Distance`), so the model does not depend on trigonometry.
 */
module Geo {
  import opened Options
  import opened Rounding
  import opened Text

  /** Distance in miles between (lat1, lon1) and (lat2, lon2). */
  type Distance = (real, real, real, real) -> real

  /** Distance at which the proximity score reaches zero. */
  const MaxDistanceMiles: real := 50.0

  /** Score for two cases with coordinates that lie `d` miles apart. */
  function DistanceScore(d: real): (r: real)
    ensures d >= MaxDistanceMiles ==> r == 0.0
    ensures d < MaxDistanceMiles ==>
      100.0 * (1.0 - d / MaxDistanceMiles) - 0.05 <= r <= 100.0 * (1.0 - d / MaxDistanceMiles) + 0.05
  {
    if d >= MaxDistanceMiles then 0.0
    else Round1(100.0 * (1.0 - d / MaxDistanceMiles))
  }

  /**
   * Proximity score of two cases, 0 to 100: 100 for the same known county,
   * 0 when any coordinate is missing, otherwise decaying linearly with the
   * distance and reaching 0 at `MaxDistanceMiles`.
   */
  function GeographicScore(
    fips1: Option<int>, lat1: Option<real>, lon1: Option<real>,
    fips2: Option<int>, lat2: Option<real>, lon2: Option<real>,
    dist: Distance): (r: real)
    ensures fips1.Some? && fips1 == fips2 ==> r == 100.0
    ensures !(fips1.Some? && fips1 == fips2) && (lat1.None? || lon1.None? || lat2.None? || lon2.None?) ==> r == 0.0
  {
    if fips1.Some? && fips2.Some? && fips1.value == fips2.value then 100.0
    else if lat1.None? || lon1.None? || lat2.None? || lon2.None? then 0.0
    else DistanceScore(dist(lat1.value, lon1.value, lat2.value, lon2.value))
  }

  /** The distance-based score stays within 0 and 100 for a non-negative distance. */
  lemma DistanceScoreRange(d: real)
    requires d >= 0.0
    ensures 0.0 <= DistanceScore(d) <= 100.0
    ensures d >= MaxDistanceMiles ==> DistanceScore(d) == 0.0
  {
    if d < MaxDistanceMiles {
      Round1Within(100.0 * (1.0 - d / MaxDistanceMiles), 0, 100);
    }
  }

  /** A closer pair never scores lower than a farther one. */
  lemma DistanceScoreAntitone(d1: real, d2: real)
    requires 0.0 <= d1 <= d2
    ensures DistanceScore(d1) >= DistanceScore(d2)
  {
    if d2 < MaxDistanceMiles {
      Round1Monotone(100.0 * (1.0 - d2 / MaxDistanceMiles), 100.0 * (1.0 - d1 / MaxDistanceMiles));
    } else if d1 < MaxDistanceMiles {
      Round1Within(100.0 * (1.0 - d1 / MaxDistanceMiles), 0, 100);
    }
  }

  /** Two cases at the same point score 100. */
  lemma DistanceScoreZero()
    ensures DistanceScore(0.0) == 100.0
  {
    Round1Integer(100);
  }

  lemma DistanceAt(dist: Distance, a: real, b: real, c: real, d: real)
    requires forall a, b, c, d :: dist(a, b, c, d) >= 0.0
    ensures 0.0 <= DistanceScore(dist(a, b, c, d)) <= 100.0
  {
    DistanceScoreRange(dist(a, b, c, d));
  }

  lemma SymmetricAt(dist: Distance, a: real, b: real, c: real, d: real)
    requires forall a, b, c, d :: dist(a, b, c, d) == dist(c, d, a, b)
    ensures dist(a, b, c, d) == dist(c, d, a, b)
  {
  }

  /** The proximity score lies between 0 and 100. */
  lemma GeographicScoreRange(
    fips1: Option<int>, lat1: Option<real>, lon1: Option<real>,
    fips2: Option<int>, lat2: Option<real>, lon2: Option<real>,
    dist: Distance)
    requires forall a, b, c, d :: dist(a, b, c, d) >= 0.0
    ensures 0.0 <= GeographicScore(fips1, lat1, lon1, fips2, lat2, lon2, dist) <= 100.0
  {
    if lat1.Some? && lon1.Some? && lat2.Some? && lon2.Some? {
      DistanceAt(dist, lat1.value, lon1.value, lat2.value, lon2.value);
    }
  }

  /** With a symmetric distance, the order of the two cases does not matter. */
  lemma GeographicScoreSymmetric(
    fips1: Option<int>, lat1: Option<real>, lon1: Option<real>,
    fips2: Option<int>, lat2: Option<real>, lon2: Option<real>,
    dist: Distance)
    requires forall a, b, c, d :: dist(a, b, c, d) == dist(c, d, a, b)
    ensures GeographicScore(fips1, lat1, lon1, fips2, lat2, lon2, dist)
         == GeographicScore(fips2, lat2, lon2, fips1, lat1, lon1, dist)
  {
    if lat1.Some? && lon1.Some? && lat2.Some? && lon2.Some? {
      SymmetricAt(dist, lat1.value, lon1.value, lat2.value, lon2.value);
    }
  }

  /** Text after the colon of a county key. */
  function CountySuffix(fips: Option<int>): string {
    match fips
    case None => "UNKNOWN"
    case Some(f) => IntToString(f)
  }

  /** Grouping key "STATE:FIPS", or "STATE:UNKNOWN" when the county is missing. */
  function CountyKey(fips: Option<int>, state: string): string {
    state + ":" + CountySuffix(fips)
  }

  /** Splitting a key at its first colon gives back the state and the county part. */
  lemma CountyKeySplit(fips: Option<int>, state: string)
    requires ':' !in state
    ensures SplitFirst(CountyKey(fips, state), ':') == Some((state, CountySuffix(fips)))
    ensures ':' !in CountySuffix(fips) ==> SplitAll(CountyKey(fips, state), ':') == [state, CountySuffix(fips)]
  {
    assert CountyKey(fips, state) == state + [':'] + CountySuffix(fips);
    SplitFirstOfConcat(state, ':', CountySuffix(fips));
  }

  lemma NotUnknown(v: int)
    ensures IntToString(v) != "UNKNOWN"
  {
    IntToStringChars(v);
    assert "UNKNOWN"[0] == 'U';
  }

  /** The suffix of a key tells the county back. */
  lemma CountySuffixInjective(f1: Option<int>, f2: Option<int>)
    requires CountySuffix(f1) == CountySuffix(f2)
    ensures f1 == f2
  {
    if f1.Some? && f2.Some? {
      IntToStringInjective(f1.value, f2.value);
    } else if f1.Some? {
      NotUnknown(f1.value);
    } else if f2.Some? {
      NotUnknown(f2.value);
    }
  }

  /**
   * For state names without a colon, two cases share a key exactly when
   * they share state and county (a missing county being one county of its own).
   */
  lemma CountyKeyInjective(f1: Option<int>, s1: string, f2: Option<int>, s2: string)
    requires ':' !in s1 && ':' !in s2
    ensures CountyKey(f1, s1) == CountyKey(f2, s2) <==> s1 == s2 && f1 == f2
  {
    if CountyKey(f1, s1) == CountyKey(f2, s2) {
      CountyKeySplit(f1, s1);
      CountyKeySplit(f2, s2);
      CountySuffixInjective(f1, f2);
    }
  }
}
