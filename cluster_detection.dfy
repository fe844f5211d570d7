/**
 * Cluster detection: cases are grouped by county key; within each group of
 * at least `minClusterSize` cases every pair i < j is scored and pairs at or
 * above the threshold become edges; each connected component of that graph
 * large enough and with a solve rate at most `maxSolveRate` is reported;
 * reports are ordered by unsolved count, highest first, ties in discovery
 * order.
 */
module ClusterDetection {
  import opened Options
  import opened Rounding
  import opened Text
  import opened Geo
  import opened Clustering
  import opened Components
  import opened ClusterResults
  import opened Sorting
  import opened Pairs

  /** The county grouping key of a case. */
  function KeyOf(c: Case): string {
    CountyKey(c.countyFips, c.state)
  }

  lemma KeyHasColon(c: Case)
    ensures ':' in KeyOf(c)
  {
    assert KeyOf(c)[|c.state|] == ':';
  }

  // ---------------------------------------------------------------------------
  // Grouping by county
  // ---------------------------------------------------------------------------

  /** The cases with key `key`, in input order. */
  function GroupOf(cases: seq<Case>, key: string): seq<Case> {
    if cases == [] then []
    else
      var c := cases[|cases| - 1];
      GroupOf(cases[..|cases| - 1], key) + (if KeyOf(c) == key then [c] else [])
  }

  /** A group holds exactly the cases with its key. */
  lemma {:induction false} GroupOfMembers(cases: seq<Case>, key: string)
    ensures forall c :: c in GroupOf(cases, key) <==> c in cases && KeyOf(c) == key
  {
    if cases != [] {
      var c := cases[|cases| - 1];
      assert cases == cases[..|cases| - 1] + [c];
      GroupOfMembers(cases[..|cases| - 1], key);
    }
  }

  /** Keys in order of first occurrence. */
  function KeyOrder(cases: seq<Case>): seq<string> {
    if cases == [] then []
    else
      var c := cases[|cases| - 1];
      var init := KeyOrder(cases[..|cases| - 1]);
      if KeyOf(c) in init then init else init + [KeyOf(c)]
  }

  /** The key order lists exactly the keys of the cases. */
  lemma {:induction false} KeyOrderMembers(cases: seq<Case>)
    ensures forall k :: k in KeyOrder(cases) <==> exists c :: c in cases && KeyOf(c) == k
  {
    if cases != [] {
      var c := cases[|cases| - 1];
      assert cases == cases[..|cases| - 1] + [c];
      KeyOrderMembers(cases[..|cases| - 1]);
    }
  }

  lemma {:induction false} KeyOrderDistinct(cases: seq<Case>)
    ensures Components.Distinct(KeyOrder(cases))
  {
    if cases != [] {
      KeyOrderDistinct(cases[..|cases| - 1]);
    }
  }

  lemma GroupOfSnoc(cases: seq<Case>, c: Case, key: string)
    ensures GroupOf(cases + [c], key) == GroupOf(cases, key) + (if KeyOf(c) == key then [c] else [])
  {
    assert (cases + [c])[..|cases|] == cases;
  }

  lemma KeyOrderSnoc(cases: seq<Case>, c: Case)
    ensures KeyOrder(cases + [c])
         == if KeyOf(c) in KeyOrder(cases) then KeyOrder(cases) else KeyOrder(cases) + [KeyOf(c)]
  {
    assert (cases + [c])[..|cases|] == cases;
  }

  lemma GroupOfAbsent(cases: seq<Case>, key: string)
    requires key !in KeyOrder(cases)
    ensures GroupOf(cases, key) == []
  {
    KeyOrderMembers(cases);
    GroupOfMembers(cases, key);
  }

  /** Appending case `i` to its county's list keeps the lists equal to the groups of the prefix. */
  lemma GroupsStep(cases: seq<Case>, i: nat, groups0: map<string, seq<Case>>, keys0: seq<string>,
                   groups: map<string, seq<Case>>, keys: seq<string>)
    requires i < |cases|
    requires keys0 == KeyOrder(cases[..i])
    requires forall k :: k in groups0 <==> k in keys0
    requires forall k :: k in groups0 ==> groups0[k] == GroupOf(cases[..i], k)
    requires var key := KeyOf(cases[i]);
      && keys == (if key in groups0 then keys0 else keys0 + [key])
      && groups == groups0[key := (if key in groups0 then groups0[key] else []) + [cases[i]]]
    ensures keys == KeyOrder(cases[..i + 1])
    ensures forall k :: k in groups <==> k in keys
    ensures forall k :: k in groups ==> groups[k] == GroupOf(cases[..i + 1], k)
  {
    var c, before := cases[i], cases[..i];
    assert cases[..i + 1] == before + [c];
    KeyOrderSnoc(before, c);
    forall k | k in groups ensures groups[k] == GroupOf(before + [c], k) {
      GroupOfSnoc(before, c, k);
      if k !in groups0 {
        GroupOfAbsent(before, k);
      }
    }
  }

  /**
   * Appends every case to the list of its county key; the keys come in
   * order of first occurrence and each list holds that county's cases in
   * input order.
   */
  method GroupByCounty(cases: seq<Case>) returns (groups: map<string, seq<Case>>, keys: seq<string>)
    ensures keys == KeyOrder(cases) && Components.Distinct(keys)
    ensures forall k :: k in groups <==> k in keys
    ensures forall k :: k in groups ==> groups[k] == GroupOf(cases, k)
  {
    groups := map[];
    keys := [];
    for i := 0 to |cases|
      invariant keys == KeyOrder(cases[..i])
      invariant forall k :: k in groups <==> k in keys
      invariant forall k :: k in groups ==> groups[k] == GroupOf(cases[..i], k)
    {
      var c := cases[i];
      ghost var groups0, keys0 := groups, keys;
      var key := CountyKey(c.countyFips, c.state);
      // `defaultdict(list)`: a missing key starts from an empty list
      var list := if key in groups then groups[key] else [];
      if key !in groups {
        keys := keys + [key];
      }
      groups := groups[key := list + [c]];
      GroupsStep(cases, i, groups0, keys0, groups, keys);
    }
    assert cases[..|cases|] == cases;
    KeyOrderDistinct(cases);
  }

  // ---------------------------------------------------------------------------
  // Similar pairs
  // ---------------------------------------------------------------------------

  /** The edge for the pair (c1, c2) if it scores at least the threshold. */
  function PairIf(c1: Case, c2: Case, config: ClusterConfig, dist: Distance): seq<Edge> {
    match CalculateSimilarity(c1, c2, config.weights, dist)
    case Err(_) => []
    case Ok((s, _)) => if s >= config.similarityThreshold then [Edge(c1.id, c2.id, s)] else []
  }

  /** The pair (c1, c2) scores at least the threshold and `e` is its edge. */
  ghost predicate IsSimilarPair(c1: Case, c2: Case, config: ClusterConfig, dist: Distance, e: Edge) {
    var r := CalculateSimilarity(c1, c2, config.weights, dist);
    r.Ok? && r.value.0 >= config.similarityThreshold && e == Edge(c1.id, c2.id, r.value.0)
  }

  lemma PairIfMembers(c1: Case, c2: Case, config: ClusterConfig, dist: Distance, e: Edge)
    ensures e in PairIf(c1, c2, config, dist) <==> IsSimilarPair(c1, c2, config, dist, e)
  {
  }

  function Pairer(config: ClusterConfig, dist: Distance): Pairing {
    (c1: Case, c2: Case) => PairIf(c1, c2, config, dist)
  }

  /** All pairs i < j of the group scoring at least the threshold, row by row. */
  function SimilarPairs(group: seq<Case>, config: ClusterConfig, dist: Distance): seq<Edge> {
    PairsBefore(group, |group|, Pairer(config, dist))
  }

  /**
   * Only pairs of the group with a score at or above the threshold become
   * edges, and each such pair does.
   */
  lemma SimilarPairsMembers(group: seq<Case>, config: ClusterConfig, dist: Distance, e: Edge)
    ensures e in SimilarPairs(group, config, dist) <==>
      exists a, b :: 0 <= a < b < |group| && IsSimilarPair(group[a], group[b], config, dist, e)
  {
    PairsBeforeMembers(group, |group|, Pairer(config, dist), e);
    forall a, b | 0 <= a < b < |group|
      ensures e in PairIf(group[a], group[b], config, dist) <==> IsSimilarPair(group[a], group[b], config, dist, e)
    {
      PairIfMembers(group[a], group[b], config, dist, e);
    }
  }

  /** Every edge scores at least the threshold and joins two ids of the group. */
  lemma SimilarPairsEdges(group: seq<Case>, config: ClusterConfig, dist: Distance)
    ensures forall e :: e in SimilarPairs(group, config, dist) ==>
      e.sim >= config.similarityThreshold
      && (exists c :: c in group && c.id == e.a) && (exists c :: c in group && c.id == e.b)
  {
    forall e | e in SimilarPairs(group, config, dist)
      ensures e.sim >= config.similarityThreshold
      ensures (exists c :: c in group && c.id == e.a) && (exists c :: c in group && c.id == e.b)
    {
      SimilarPairsMembers(group, config, dist, e);
      var a, b :| 0 <= a < b < |group| && IsSimilarPair(group[a], group[b], config, dist, e);
      assert group[a] in group && group[b] in group;
    }
  }

  /**
   * The body of the inner loop: scores the pair (i, j) and appends its edge to
   * `row` when the score reaches the threshold; a zero total weight is an error.
   */
  method AppendIfSimilar(group: seq<Case>, i: nat, j: nat, config: ClusterConfig, dist: Distance, row: seq<Edge>)
    returns (r: Result<seq<Edge>, SimilarityError>)
    requires i < j < |group|
    requires row == RowPairs(group, i, j, Pairer(config, dist))
    ensures r.Err? <==> config.weights.Total() == 0.0
    ensures r.Ok? ==> r.value == RowPairs(group, i, j + 1, Pairer(config, dist))
  {
    var result := CalculateSimilarity(group[i], group[j], config.weights, dist);
    if result.Err? {
      return Err(result.error);
    }
    var similarity := result.value.0;
    if similarity >= config.similarityThreshold {
      return Ok(row + [Edge(group[i].id, group[j].id, similarity)]);
    }
    return Ok(row);
  }

  /**
   * Scores case `i` against every later case of the group and returns the
   * similar pairs in order.
   */
  method ScoreRow(group: seq<Case>, i: nat, config: ClusterConfig, dist: Distance)
    returns (r: Result<seq<Edge>, SimilarityError>)
    requires i < |group|
    ensures r.Err? <==> config.weights.Total() == 0.0 && i + 1 < |group|
    ensures r.Ok? ==> r.value == RowPairs(group, i, |group|, Pairer(config, dist))
  {
    var row: seq<Edge> := [];
    for j := i + 1 to |group|
      invariant row == RowPairs(group, i, j, Pairer(config, dist))
      invariant config.weights.Total() == 0.0 ==> j == i + 1
    {
      var next := AppendIfSimilar(group, i, j, config, dist, row);
      if next.Err? {
        return Err(next.error);
      }
      assert next.value == RowPairs(group, i, j + 1, Pairer(config, dist));
      row := next.value;
    }
    return Ok(row);
  }

  /** Scores every pair i < j of the group; a zero total weight is an error. */
  method FindSimilarPairs(group: seq<Case>, config: ClusterConfig, dist: Distance)
    returns (r: Result<seq<Edge>, SimilarityError>)
    ensures r.Err? <==> config.weights.Total() == 0.0 && |group| >= 2
    ensures r.Ok? ==> r.value == SimilarPairs(group, config, dist)
  {
    var pairs: seq<Edge> := [];
    for i := 0 to |group|
      invariant pairs == PairsBefore(group, i, Pairer(config, dist))
      invariant config.weights.Total() == 0.0 && i > 0 ==> |group| <= 1
    {
      var row := ScoreRow(group, i, config, dist);
      if row.Err? {
        return Err(row.error);
      }
      pairs := pairs + row.value;
    }
    return Ok(pairs);
  }

  // ---------------------------------------------------------------------------
  // Looking cases up by id
  // ---------------------------------------------------------------------------

  /** `{case.id: case for case in group}`: a later case wins over an earlier one. */
  function IndexById(group: seq<Case>): (r: map<string, Case>)
    ensures forall id :: id in r <==> exists c :: c in group && c.id == id
    ensures forall id :: id in r ==> r[id] in group && r[id].id == id
  {
    if group == [] then map[]
    else
      var c := group[|group| - 1];
      assert group == group[..|group| - 1] + [c];
      IndexById(group[..|group| - 1])[c.id := c]
  }

  /** The case found for an id is the last case of the group with that id. */
  lemma {:induction false} IndexByIdLast(group: seq<Case>, k: nat)
    requires k < |group|
    requires forall j :: k < j < |group| ==> group[j].id != group[k].id
    ensures IndexById(group)[group[k].id] == group[k]
  {
    if k < |group| - 1 {
      IndexByIdLast(group[..|group| - 1], k);
    }
  }

  function IdsOf(cases: seq<Case>): (r: seq<string>)
    ensures |r| == |cases| && forall k :: 0 <= k < |cases| ==> r[k] == cases[k].id
  {
    if cases == [] then [] else [cases[0].id] + IdsOf(cases[1..])
  }

  // ---------------------------------------------------------------------------
  // Clusters
  // ---------------------------------------------------------------------------

  /**
   * `c` summarises a connected component of the similarity graph of `group`,
   * a county group of at least `minClusterSize` cases, with at least
   * `minClusterSize` members looked up by id.
   */
  ghost predicate ComponentCluster(group: seq<Case>, config: ClusterConfig, dist: Distance, c: ClusterResult) {
    var ids := IdsOf(c.cases);
    |group| >= config.minClusterSize
    && |c.cases| >= 1 && |c.cases| >= config.minClusterSize
    && IsComponent(AdjacencyOf(SimilarPairs(group, config, dist)), ids)
    && (forall k :: 0 <= k < |c.cases| ==> ids[k] in IndexById(group) && c.cases[k] == IndexById(group)[ids[k]])
    && Summarises(c, c.cases)
    && (c.avgSimilarityScore == 0.0 || c.avgSimilarityScore >= Round1(config.similarityThreshold))
  }

  /** A reported cluster: a component cluster of its first case's county group with a low solve rate. */
  ghost predicate ValidCluster(cases: seq<Case>, config: ClusterConfig, dist: Distance, c: ClusterResult) {
    |c.cases| >= 1
    && ComponentCluster(GroupOf(cases, KeyOf(c.cases[0])), config, dist, c)
    && c.solveRate <= config.maxSolveRate
  }

  /**
   * What a reported cluster promises: enough members, a low solve rate,
   * distinct members from one county group, each on at least one similar
   * pair of that group.
   */
  lemma ValidClusterFacts(cases: seq<Case>, config: ClusterConfig, dist: Distance, c: ClusterResult)
    requires ValidCluster(cases, config, dist, c)
    ensures c.totalCases == |c.cases| >= config.minClusterSize
    ensures c.solveRate <= config.maxSolveRate
    ensures forall m :: m in c.cases ==> m in cases && KeyOf(m) == KeyOf(c.cases[0])
    ensures |GroupOf(cases, KeyOf(c.cases[0]))| >= config.minClusterSize
    ensures forall i, j :: 0 <= i < j < |c.cases| ==> c.cases[i].id != c.cases[j].id
    ensures forall m :: m in c.cases ==> Touches(SimilarPairs(GroupOf(cases, KeyOf(c.cases[0])), config, dist), m.id)
  {
    var group := GroupOf(cases, KeyOf(c.cases[0]));
    ClusterMembers(group, config, dist, c);
    GroupOfMembers(cases, KeyOf(c.cases[0]));
    var ids := IdsOf(c.cases);
    forall i, j | 0 <= i < j < |c.cases| ensures c.cases[i].id != c.cases[j].id {
      assert ids[i] != ids[j];
    }
  }

  lemma ClusterMembers(group: seq<Case>, config: ClusterConfig, dist: Distance, c: ClusterResult)
    requires ComponentCluster(group, config, dist, c)
    ensures forall m :: m in c.cases ==> m in group && Touches(SimilarPairs(group, config, dist), m.id)
  {
    var es := SimilarPairs(group, config, dist);
    var ids := IdsOf(c.cases);
    forall m | m in c.cases ensures m in group && Touches(es, m.id) {
      var k :| 0 <= k < |c.cases| && c.cases[k] == m;
      assert ids[k] in ids;
      AdjacencyOfLinked(es, m.id, m.id);
    }
  }

  lemma {:induction false} TouchingEdge(es: seq<Edge>, x: string) returns (k: nat)
    requires Touches(es, x)
    ensures k < |es| && (es[k].a == x || es[k].b == x)
  {
    if Touches(es[..|es| - 1], x) {
      k := TouchingEdge(es[..|es| - 1], x);
    } else {
      k := |es| - 1;
    }
  }

  /** An id on a similar pair belongs to a case of the group. */
  lemma TouchesHasCase(group: seq<Case>, config: ClusterConfig, dist: Distance, x: string)
    requires Touches(SimilarPairs(group, config, dist), x)
    ensures exists c :: c in group && c.id == x
  {
    var es := SimilarPairs(group, config, dist);
    var k := TouchingEdge(es, x);
    SimilarPairsEdges(group, config, dist);
    assert es[k] in es;
  }

  lemma {:induction false} NeighboursScores(es: seq<Edge>, u: string, lo: real)
    requires forall e :: e in es ==> e.sim >= lo
    ensures forall k :: 0 <= k < |Neighbours(es, u)| ==> Neighbours(es, u)[k].1 >= lo
  {
    if es != [] {
      var init := es[..|es| - 1];
      assert forall e :: e in init ==> e in es;
      NeighboursScores(init, u, lo);
      assert es[|es| - 1] in es;
    }
  }

  /** Every entry of every adjacency list carries the score of some edge. */
  lemma NeighbourScoresAtLeast(es: seq<Edge>, lo: real)
    requires forall e :: e in es ==> e.sim >= lo
    ensures ScoresAtLeast(AdjacencyOf(es), lo)
  {
    forall u | u in AdjacencyOf(es)
      ensures forall k :: 0 <= k < |Neighbours(es, u)| ==> Neighbours(es, u)[k].1 >= lo
    {
      NeighboursScores(es, u, lo);
    }
  }

  lemma ComponentInIndex(group: seq<Case>, config: ClusterConfig, dist: Distance, comp: seq<string>)
    requires IsComponent(AdjacencyOf(SimilarPairs(group, config, dist)), comp)
    ensures forall x :: x in comp ==> x in IndexById(group)
  {
    forall x | x in comp ensures x in IndexById(group) {
      AdjacencyOfLinked(SimilarPairs(group, config, dist), x, x);
      TouchesHasCase(group, config, dist, x);
    }
  }

  /** `[by_id[x] for x in ids]` */
  function LookUp(byId: map<string, Case>, ids: seq<string>): (r: seq<Case>)
    requires forall x :: x in ids ==> x in byId
    ensures |r| == |ids| && forall k :: 0 <= k < |ids| ==> r[k] == byId[ids[k]]
    ensures (forall x :: x in byId ==> byId[x].id == x) ==> IdsOf(r) == ids
  {
    seq(|ids|, k requires 0 <= k < |ids| => byId[ids[k]])
  }

  /** Looking ids up in the group's index gives cases carrying those ids, in order. */
  lemma LookUpIds(group: seq<Case>, comp: seq<string>, cases: seq<Case>)
    requires forall x :: x in comp ==> x in IndexById(group)
    requires cases == LookUp(IndexById(group), comp)
    ensures IdsOf(cases) == comp
  {
    var byId := IndexById(group);
    forall k | 0 <= k < |comp| ensures IdsOf(cases)[k] == comp[k] {
      assert cases[k] == byId[comp[k]];
    }
  }

  lemma ComponentClusterIntro(group: seq<Case>, config: ClusterConfig, dist: Distance, comp: seq<string>,
                              sims: seq<real>, c: ClusterResult)
    requires |group| >= config.minClusterSize && |comp| >= config.minClusterSize
    requires IsComponent(AdjacencyOf(SimilarPairs(group, config, dist)), comp)
    requires AtLeast(sims, config.similarityThreshold)
    requires IdsOf(c.cases) == comp
    requires forall k :: 0 <= k < |comp| ==> comp[k] in IndexById(group) && c.cases[k] == IndexById(group)[comp[k]]
    requires Summarises(c, c.cases) && c.avgSimilarityScore == Mean1(sims)
    ensures ComponentCluster(group, config, dist, c)
  {
    if |sims| > 0 {
      Mean1AtLeast(sims, config.similarityThreshold);
    }
  }

  /** Looks the component's ids up in the group and summarises them. */
  method ClusterFromComponent(key: string, group: seq<Case>, config: ClusterConfig, dist: Distance, timestamp: int,
                              comp: seq<string>, sims: seq<real>)
    returns (cluster: ClusterResult)
    requires ':' in key && |group| >= config.minClusterSize
    requires IsComponent(AdjacencyOf(SimilarPairs(group, config, dist)), comp)
    requires |comp| >= config.minClusterSize
    requires AtLeast(sims, config.similarityThreshold)
    ensures ComponentCluster(group, config, dist, cluster) && cluster.cases[0] in group
    ensures forall x :: x in comp ==> x in IndexById(group)
    ensures cluster.cases == LookUp(IndexById(group), comp)
    ensures cluster.solveRate == Percentage(CountSolved(cluster.cases), |comp|)
    ensures cluster.clusterId == ClusterId(key, timestamp)
    ensures cluster.locationDescription == LocationDescription(key)
  {
    var byId := IndexById(group);
    ComponentInIndex(group, config, dist, comp);
    var members := LookUp(byId, comp);
    LookUpIds(group, comp, members);
    cluster := BuildClusterResult(key, members, sims, timestamp);
    ComponentClusterIntro(group, config, dist, comp, sims, cluster);
  }

  // ---------------------------------------------------------------------------
  // Which components must be reported
  // ---------------------------------------------------------------------------

  /** Graph of the county group `key`. */
  ghost function GraphOf(cases: seq<Case>, config: ClusterConfig, dist: Distance, key: string): Adjacency {
    AdjacencyOf(SimilarPairs(GroupOf(cases, key), config, dist))
  }

  /**
   * `comp` is a component of `adj` that detection keeps: it has at least
   * `minClusterSize` ids, each naming a case of `byId`, and the solve rate
   * of those cases is at most `maxSolveRate`.
   */
  ghost predicate Keeps(adj: Adjacency, byId: map<string, Case>, config: ClusterConfig, comp: seq<string>) {
    IsComponent(adj, comp) && Kept(byId, config, comp)
  }

  /** The ids of `comp` are enough cases, all in `byId`, with a low enough solve rate. */
  ghost predicate Kept(byId: map<string, Case>, config: ClusterConfig, comp: seq<string>) {
    |comp| >= 1 && |comp| >= config.minClusterSize
    && (forall x :: x in comp ==> x in byId)
    && Percentage(CountSolved(LookUp(byId, comp)), |comp|) <= config.maxSolveRate
  }

  /**
   * `comp` is a component of the similarity graph of the county group `key`
   * that detection reports: the group has at least `minClusterSize` cases
   * and the component is kept.
   */
  ghost predicate Reportable(cases: seq<Case>, config: ClusterConfig, dist: Distance, key: string, comp: seq<string>) {
    |GroupOf(cases, key)| >= config.minClusterSize
    && Keeps(GraphOf(cases, config, dist, key), IndexById(GroupOf(cases, key)), config, comp)
  }

  /** Cluster `c` belongs to county group `key` and holds exactly the ids of `comp`. */
  ghost predicate Reports(c: ClusterResult, key: string, comp: seq<string>) {
    |c.cases| >= 1 && KeyOf(c.cases[0]) == key
    && forall x :: x in IdsOf(c.cases) <==> x in comp
  }

  /** Every reportable component of county group `key` is reported by some cluster of `cs`. */
  ghost predicate Complete(cases: seq<Case>, config: ClusterConfig, dist: Distance, key: string, cs: seq<ClusterResult>) {
    forall comp :: Reportable(cases, config, dist, key, comp) ==> exists i :: 0 <= i < |cs| && Reports(cs[i], key, comp)
  }

  /** No case belongs to two clusters of `cs`. */
  ghost predicate Disjoint(cs: seq<ClusterResult>) {
    forall i, j, m :: 0 <= i < j < |cs| && m in cs[i].cases ==> m !in cs[j].cases
  }

  /** The ids of `a` whose case is solved. */
  ghost function SolvedIds(byId: map<string, Case>, a: seq<string>): set<string> {
    set x | x in a && x in byId && byId[x].solved == 1
  }

  lemma LookUpSnoc(byId: map<string, Case>, a: seq<string>, x: string)
    requires (forall y :: y in a ==> y in byId) && x in byId
    ensures LookUp(byId, a + [x]) == LookUp(byId, a) + [byId[x]]
  {
  }

  lemma CountSolvedSnoc(cs: seq<Case>, c: Case)
    ensures CountSolved(cs + [c]) == CountSolved(cs) + (if c.solved == 1 then 1 else 0)
  {
    assert (cs + [c])[..|cs|] == cs;
  }

  /** Distinct ids: the solved count of their cases is the number of solved ids. */
  lemma {:induction false} DistinctSolved(byId: map<string, Case>, a: seq<string>)
    requires Components.Distinct(a) && forall x :: x in a ==> x in byId
    ensures CountSolved(LookUp(byId, a)) == |SolvedIds(byId, a)|
  {
    if a != [] {
      var init, last := a[..|a| - 1], a[|a| - 1];
      assert a == init + [last];
      assert Components.Distinct(init) && last !in init;
      DistinctSolved(byId, init);
      LookUpSnoc(byId, init, last);
      CountSolvedSnoc(LookUp(byId, init), byId[last]);
      SolvedIdsSnoc(byId, init, last);
    }
  }

  lemma SolvedIdsSnoc(byId: map<string, Case>, a: seq<string>, x: string)
    requires x !in a && x in byId
    ensures |SolvedIds(byId, a + [x])| == |SolvedIds(byId, a)| + (if byId[x].solved == 1 then 1 else 0)
  {
    if byId[x].solved == 1 {
      assert SolvedIds(byId, a + [x]) == SolvedIds(byId, a) + {x};
    } else {
      assert SolvedIds(byId, a + [x]) == SolvedIds(byId, a);
    }
  }

  /** Two orderings of the same distinct ids have the same size and the same solve rate. */
  lemma SameMembersRate(byId: map<string, Case>, a: seq<string>, b: seq<string>)
    requires Components.Distinct(a) && Components.Distinct(b) && forall x :: x in a <==> x in b
    requires forall x :: x in a ==> x in byId
    ensures |a| == |b|
    ensures CountSolved(LookUp(byId, a)) == CountSolved(LookUp(byId, b))
  {
    SameMembersSize(a, b);
    DistinctSolved(byId, a);
    DistinctSolved(byId, b);
    assert SolvedIds(byId, a) == SolvedIds(byId, b);
  }

  /** An id that is a key of the similarity graph of a group is the id of a case of that group. */
  lemma NodeHasCase(cases: seq<Case>, config: ClusterConfig, dist: Distance, key: string, x: string)
    requires x in AdjacencyOf(SimilarPairs(GroupOf(cases, key), config, dist))
    ensures exists c :: c in cases && KeyOf(c) == key
  {
    var group := GroupOf(cases, key);
    AdjacencyOfLinked(SimilarPairs(group, config, dist), x, x);
    TouchesHasCase(group, config, dist, x);
    GroupOfMembers(cases, key);
  }

  /** A member of a reported cluster is the case its id names in the cluster's county group. */
  lemma MemberLookedUp(cases: seq<Case>, config: ClusterConfig, dist: Distance, c: ClusterResult, k: nat)
    requires ValidCluster(cases, config, dist, c) && k < |c.cases|
    ensures c.cases[k].id in IndexById(GroupOf(cases, KeyOf(c.cases[0])))
    ensures c.cases[k] == IndexById(GroupOf(cases, KeyOf(c.cases[0])))[c.cases[k].id]
  {
    assert IdsOf(c.cases)[k] == c.cases[k].id;
  }

  /**
   * In a disjoint list of reported clusters, a component is reported at most
   * once: together with completeness, exactly once.
   */
  lemma ReportedOnce(cases: seq<Case>, config: ClusterConfig, dist: Distance, cs: seq<ClusterResult>,
                     key: string, comp: seq<string>, i: nat, j: nat)
    requires Disjoint(cs) && i < |cs| && j < |cs|
    requires ValidCluster(cases, config, dist, cs[i]) && ValidCluster(cases, config, dist, cs[j])
    requires Reports(cs[i], key, comp) && Reports(cs[j], key, comp) && |comp| >= 1
    ensures i == j
  {
    var x := comp[0];
    assert x in IdsOf(cs[i].cases) && x in IdsOf(cs[j].cases);
    var ki :| 0 <= ki < |cs[i].cases| && IdsOf(cs[i].cases)[ki] == x;
    var kj :| 0 <= kj < |cs[j].cases| && IdsOf(cs[j].cases)[kj] == x;
    MemberLookedUp(cases, config, dist, cs[i], ki);
    MemberLookedUp(cases, config, dist, cs[j], kj);
    var m := cs[i].cases[ki];
    assert m == cs[j].cases[kj];
    assert m in cs[i].cases && m in cs[j].cases;
  }

  /**
   * `found[k]` is the cluster built from `comps[from[k]]`; `from` increases,
   * and every kept component among the first `n` has its cluster.
   */
  ghost predicate BuiltFrom(byId: map<string, Case>, config: ClusterConfig, key: string, comps: seq<seq<string>>,
                            n: nat, from: seq<nat>, found: seq<ClusterResult>) {
    |from| == |found|
    && (forall k :: 0 <= k < |found| ==>
          (from[k] < n && from[k] < |comps| && |found[k].cases| >= 1
           && KeyOf(found[k].cases[0]) == key && IdsOf(found[k].cases) == comps[from[k]]))
    && (forall k1, k2 :: 0 <= k1 < k2 < |found| ==> from[k1] < from[k2])
    && (forall j :: 0 <= j < n && j < |comps| && Kept(byId, config, comps[j]) ==> exists k :: 0 <= k < |found| && from[k] == j)
  }

  /** Clusters built from separate components share no case. */
  lemma BuiltDisjoint(byId: map<string, Case>, config: ClusterConfig, key: string, comps: seq<seq<string>>,
                      n: nat, from: seq<nat>, found: seq<ClusterResult>)
    requires BuiltFrom(byId, config, key, comps, n, from, found) && Separate(comps)
    ensures Disjoint(found)
  {
    forall k1, k2, m | 0 <= k1 < k2 < |found| && m in found[k1].cases ensures m !in found[k2].cases {
      var a :| 0 <= a < |found[k1].cases| && found[k1].cases[a] == m;
      assert IdsOf(found[k1].cases)[a] == m.id;
      SeparateApart(comps, from[k1], from[k2], m.id);
    }
  }

  /** Every kept component of the graph is reported once all components are walked. */
  lemma BuiltComplete(adj: Adjacency, byId: map<string, Case>, config: ClusterConfig, key: string,
                      comps: seq<seq<string>>, from: seq<nat>, found: seq<ClusterResult>, comp: seq<string>)
    requires Symmetric(adj) && forall i :: 0 <= i < |comps| ==> IsComponent(adj, comps[i])
    requires forall x :: x in adj ==> exists i :: 0 <= i < |comps| && x in comps[i]
    requires BuiltFrom(byId, config, key, comps, |comps|, from, found)
    requires Keeps(adj, byId, config, comp)
    ensures exists k :: 0 <= k < |found| && Reports(found[k], key, comp)
  {
    var i :| 0 <= i < |comps| && comp[0] in comps[i];
    SameComponent(adj, comp, comps[i], comp[0]);
    SameMembersRate(byId, comp, comps[i]);
    assert Kept(byId, config, comps[i]);
    var k :| 0 <= k < |found| && from[k] == i;
    assert Reports(found[k], key, comp);
  }

  /** Appending the cluster built from the kept component `comps[n]` extends the correspondence by one component. */
  lemma BuiltKeep(byId: map<string, Case>, config: ClusterConfig, key: string, comps: seq<seq<string>>,
                  n: nat, from: seq<nat>, found: seq<ClusterResult>, cluster: ClusterResult)
    requires BuiltFrom(byId, config, key, comps, n, from, found) && n < |comps|
    requires |cluster.cases| >= 1 && KeyOf(cluster.cases[0]) == key && IdsOf(cluster.cases) == comps[n]
    ensures BuiltFrom(byId, config, key, comps, n + 1, from + [n], found + [cluster])
  {
    var from', found' := from + [n], found + [cluster];
    forall k | 0 <= k < |found'|
      ensures from'[k] < n + 1 && from'[k] < |comps| && |found'[k].cases| >= 1
      ensures KeyOf(found'[k].cases[0]) == key && IdsOf(found'[k].cases) == comps[from'[k]]
    {
      if k < |found| {
        assert from'[k] == from[k] && found'[k] == found[k];
      }
    }
    forall k1, k2 | 0 <= k1 < k2 < |found'| ensures from'[k1] < from'[k2] {
      assert from'[k1] == from[k1];
    }
    forall j | 0 <= j < n + 1 && j < |comps| && Kept(byId, config, comps[j])
      ensures exists k :: 0 <= k < |found'| && from'[k] == j
    {
      if j < n {
        var k :| 0 <= k < |found| && from[k] == j;
        assert from'[k] == j;
      } else {
        assert from'[|found|] == j;
      }
    }
  }

  /** Passing over the component `comps[n]`, when it is not kept, keeps the correspondence. */
  lemma BuiltSkip(byId: map<string, Case>, config: ClusterConfig, key: string, comps: seq<seq<string>>,
                  n: nat, from: seq<nat>, found: seq<ClusterResult>)
    requires BuiltFrom(byId, config, key, comps, n, from, found) && n < |comps|
    requires !Kept(byId, config, comps[n])
    ensures BuiltFrom(byId, config, key, comps, n + 1, from, found)
  {
  }

  /** What holds of the clusters kept from the first `n` components. */
  ghost predicate KeptSoFar(cases: seq<Case>, config: ClusterConfig, dist: Distance, key: string, group: seq<Case>,
                            comps: seq<seq<string>>, n: nat, from: seq<nat>, found: seq<ClusterResult>) {
    (forall c :: c in found ==> ValidCluster(cases, config, dist, c))
    && (forall c, m :: c in found && m in c.cases ==> KeyOf(m) == key)
    && BuiltFrom(IndexById(group), config, key, comps, n, from, found)
  }

  /**
   * The cluster of component `comp`: built when the component has at least
   * `minClusterSize` ids, kept when its solve rate is at most `maxSolveRate`.
   */
  method KeptCluster(key: string, group: seq<Case>, config: ClusterConfig, dist: Distance, timestamp: int,
                     ghost cases: seq<Case>, comp: seq<string>, sims: seq<real>)
    returns (r: Option<ClusterResult>)
    requires group == GroupOf(cases, key) && |group| >= config.minClusterSize && ':' in key
    requires forall c :: c in group ==> KeyOf(c) == key
    requires IsComponent(AdjacencyOf(SimilarPairs(group, config, dist)), comp)
    requires AtLeast(sims, config.similarityThreshold)
    ensures r.Some? <==> Kept(IndexById(group), config, comp)
    ensures r.Some? ==> ValidCluster(cases, config, dist, r.value) && KeyOf(r.value.cases[0]) == key
    ensures r.Some? ==> IdsOf(r.value.cases) == comp && forall m :: m in r.value.cases ==> KeyOf(m) == key
  {
    if |comp| < config.minClusterSize {
      return None;
    }
    var cluster := ClusterFromComponent(key, group, config, dist, timestamp, comp, sims);
    ClusterKept(group, config, comp, cluster);
    if cluster.solveRate > config.maxSolveRate {
      return None;
    }
    ClusterValid(cases, key, group, config, dist, cluster);
    return Some(cluster);
  }

  /** The cluster looked up from `comp` holds its ids, and its solve rate decides whether `comp` is kept. */
  lemma ClusterKept(group: seq<Case>, config: ClusterConfig, comp: seq<string>, cluster: ClusterResult)
    requires |comp| >= 1 && |comp| >= config.minClusterSize && forall x :: x in comp ==> x in IndexById(group)
    requires cluster.cases == LookUp(IndexById(group), comp)
    requires cluster.solveRate == Percentage(CountSolved(cluster.cases), |comp|)
    ensures IdsOf(cluster.cases) == comp
    ensures cluster.solveRate <= config.maxSolveRate <==> Kept(IndexById(group), config, comp)
  {
  }

  /** A component cluster of a county group with a low solve rate is reported for that county. */
  lemma ClusterValid(cases: seq<Case>, key: string, group: seq<Case>, config: ClusterConfig, dist: Distance,
                     cluster: ClusterResult)
    requires group == GroupOf(cases, key) && forall c :: c in group ==> KeyOf(c) == key
    requires ComponentCluster(group, config, dist, cluster) && cluster.cases[0] in group
    requires cluster.solveRate <= config.maxSolveRate
    ensures ValidCluster(cases, config, dist, cluster) && KeyOf(cluster.cases[0]) == key
    ensures forall m :: m in cluster.cases ==> KeyOf(m) == key
  {
    ClusterMembers(group, config, dist, cluster);
  }

  /** Taking the kept cluster of `comps[n]` extends what holds of the first `n` components. */
  lemma KeptStepKeep(cases: seq<Case>, config: ClusterConfig, dist: Distance, key: string, group: seq<Case>,
                     comps: seq<seq<string>>, n: nat, from: seq<nat>, found: seq<ClusterResult>, c: ClusterResult)
    requires KeptSoFar(cases, config, dist, key, group, comps, n, from, found) && n < |comps|
    requires ValidCluster(cases, config, dist, c) && KeyOf(c.cases[0]) == key
    requires IdsOf(c.cases) == comps[n] && forall m :: m in c.cases ==> KeyOf(m) == key
    ensures KeptSoFar(cases, config, dist, key, group, comps, n + 1, from + [n], found + [c])
  {
    ValidAppend(cases, config, dist, found, c);
    SameKeyAppend(found, c, key);
    BuiltKeep(IndexById(group), config, key, comps, n, from, found, c);
  }

  /** The clusters found so far, followed by the kept cluster, if any. */
  function Extend(found: seq<ClusterResult>, kept: Option<ClusterResult>): (r: seq<ClusterResult>)
    ensures kept.None? ==> r == found
    ensures kept.Some? ==> |r| == |found| + 1 && r[..|found|] == found && r[|found|] == kept.value
  {
    if kept.Some? then found + [kept.value] else found
  }

  /** The component indexes of the clusters found so far, followed by `n` if its cluster was kept. */
  ghost function ExtendFrom(from: seq<nat>, n: nat, kept: Option<ClusterResult>): seq<nat> {
    if kept.Some? then from + [n] else from
  }

  /** Taking the kept cluster of `comps[n]`, if any, extends what holds of the first `n` components. */
  lemma KeptStep(cases: seq<Case>, config: ClusterConfig, dist: Distance, key: string, group: seq<Case>,
                 comps: seq<seq<string>>, n: nat, from: seq<nat>, found: seq<ClusterResult>, kept: Option<ClusterResult>)
    requires KeptSoFar(cases, config, dist, key, group, comps, n, from, found) && n < |comps|
    requires kept.Some? <==> Kept(IndexById(group), config, comps[n])
    requires kept.Some? ==> ValidCluster(cases, config, dist, kept.value) && KeyOf(kept.value.cases[0]) == key
    requires kept.Some? ==> IdsOf(kept.value.cases) == comps[n] && forall m :: m in kept.value.cases ==> KeyOf(m) == key
    ensures KeptSoFar(cases, config, dist, key, group, comps, n + 1, ExtendFrom(from, n, kept), Extend(found, kept))
  {
    if kept.Some? {
      KeptStepKeep(cases, config, dist, key, group, comps, n, from, found, kept.value);
    } else {
      KeptStepSkip(cases, config, dist, key, group, comps, n, from, found);
    }
  }

  lemma ValidAppend(cases: seq<Case>, config: ClusterConfig, dist: Distance, found: seq<ClusterResult>, c: ClusterResult)
    requires forall d :: d in found ==> ValidCluster(cases, config, dist, d)
    requires ValidCluster(cases, config, dist, c)
    ensures forall d :: d in found + [c] ==> ValidCluster(cases, config, dist, d)
  {
  }

  lemma SameKeyAppend(found: seq<ClusterResult>, c: ClusterResult, key: string)
    requires forall d, m :: d in found && m in d.cases ==> KeyOf(m) == key
    requires forall m :: m in c.cases ==> KeyOf(m) == key
    ensures forall d, m :: d in found + [c] && m in d.cases ==> KeyOf(m) == key
  {
  }

  /** Passing over `comps[n]`, when it is not kept, keeps what holds of the first `n` components. */
  lemma KeptStepSkip(cases: seq<Case>, config: ClusterConfig, dist: Distance, key: string, group: seq<Case>,
                     comps: seq<seq<string>>, n: nat, from: seq<nat>, found: seq<ClusterResult>)
    requires KeptSoFar(cases, config, dist, key, group, comps, n, from, found) && n < |comps|
    requires !Kept(IndexById(group), config, comps[n])
    ensures KeptSoFar(cases, config, dist, key, group, comps, n + 1, from, found)
  {
    BuiltSkip(IndexById(group), config, key, comps, n, from, found);
  }

  /**
   * Builds the cluster of every component with at least `minClusterSize`
   * ids and keeps those with a solve rate at most `maxSolveRate`, in the
   * order of the components. The source filters each component right after
   * its walk; walking all components first and filtering afterwards gives
   * the same clusters in the same order, since filtering visits nothing.
   */
  method KeepClusters(key: string, group: seq<Case>, config: ClusterConfig, dist: Distance, timestamp: int,
                      ghost cases: seq<Case>, comps: seq<seq<string>>, sims: seq<seq<real>>)
    returns (found: seq<ClusterResult>, ghost from: seq<nat>)
    requires group == GroupOf(cases, key) && |group| >= config.minClusterSize && ':' in key
    requires forall c :: c in group ==> KeyOf(c) == key
    requires |sims| == |comps|
    requires forall i :: 0 <= i < |comps| ==>
               IsComponent(AdjacencyOf(SimilarPairs(group, config, dist)), comps[i])
               && AtLeast(sims[i], config.similarityThreshold)
    ensures KeptSoFar(cases, config, dist, key, group, comps, |comps|, from, found)
  {
    found, from := [], [];
    for i := 0 to |comps|
      invariant KeptSoFar(cases, config, dist, key, group, comps, i, from, found)
    {
      var kept := KeptCluster(key, group, config, dist, timestamp, cases, comps[i], sims[i]);
      KeptStep(cases, config, dist, key, group, comps, i, from, found, kept);
      found, from := Extend(found, kept), ExtendFrom(from, i, kept);
    }
  }

  /**
   * Collects the components of one county group's similarity graph, in the
   * order of the adjacency keys, and keeps those large enough and with a
   * low enough solve rate: every such component is reported, by exactly one
   * cluster, and no case lands in two clusters.
   */
  method ClustersInCounty(key: string, group: seq<Case>, config: ClusterConfig, dist: Distance, timestamp: int,
                          ghost cases: seq<Case>)
    returns (r: Result<seq<ClusterResult>, SimilarityError>)
    requires group == GroupOf(cases, key) && |group| >= config.minClusterSize
    ensures r.Err? <==> config.weights.Total() == 0.0 && |group| >= 2
    ensures r.Ok? ==> forall c :: c in r.value ==> ValidCluster(cases, config, dist, c)
    ensures r.Ok? ==> forall c, m :: c in r.value && m in c.cases ==> KeyOf(m) == key
    ensures r.Ok? ==> Complete(cases, config, dist, key, r.value)
    ensures r.Ok? ==> Disjoint(r.value)
  {
    var pairsResult := FindSimilarPairs(group, config, dist);
    if pairsResult.Err? {
      return Err(pairsResult.error);
    }
    var pairs := pairsResult.value;
    var found: seq<ClusterResult> := [];
    if pairs == [] {
      NoComponentWithoutEdges();
      return Ok(found);
    }
    var adj, order := BuildAdjacency(pairs);
    AdjacencyOfWellFormed(pairs);
    SimilarPairsEdges(group, config, dist);
    NeighbourScoresAtLeast(pairs, config.similarityThreshold);
    NodesFacts(pairs);
    assert pairs[0] in pairs;
    GroupOfMembers(cases, key);
    KeyHasColon(group[0]);
    assert ':' in key;
    var comps, sims := FindComponents(adj, order, config.similarityThreshold);
    ghost var byId := IndexById(group);
    ghost var from;
    found, from := KeepClusters(key, group, config, dist, timestamp, cases, comps, sims);
    BuiltDisjoint(byId, config, key, comps, |comps|, from, found);
    assert forall x :: x in adj ==> x in order;
    forall comp | Reportable(cases, config, dist, key, comp)
      ensures exists k :: 0 <= k < |found| && Reports(found[k], key, comp)
    {
      assert Keeps(adj, byId, config, comp);
      BuiltComplete(adj, byId, config, key, comps, from, found, comp);
    }
    return Ok(found);
  }

  lemma AllValidAppend(cases: seq<Case>, config: ClusterConfig, dist: Distance, xs: seq<ClusterResult>, ys: seq<ClusterResult>)
    requires forall c :: c in xs ==> ValidCluster(cases, config, dist, c)
    requires forall c :: c in ys ==> ValidCluster(cases, config, dist, c)
    ensures forall c :: c in xs + ys ==> ValidCluster(cases, config, dist, c)
  {
  }

  /** Appending clusters keeps every component that either list reports. */
  lemma CompleteAppend(cases: seq<Case>, config: ClusterConfig, dist: Distance, key: string,
                       xs: seq<ClusterResult>, ys: seq<ClusterResult>)
    requires Complete(cases, config, dist, key, xs) || Complete(cases, config, dist, key, ys)
    ensures Complete(cases, config, dist, key, xs + ys)
  {
    forall comp | Reportable(cases, config, dist, key, comp)
      ensures exists i :: 0 <= i < |xs + ys| && Reports((xs + ys)[i], key, comp)
    {
      if Complete(cases, config, dist, key, xs) {
        var i :| 0 <= i < |xs| && Reports(xs[i], key, comp);
        assert (xs + ys)[i] == xs[i];
      } else {
        var i :| 0 <= i < |ys| && Reports(ys[i], key, comp);
        assert (xs + ys)[|xs| + i] == ys[i];
      }
    }
  }

  /** A county group smaller than `minClusterSize` has nothing to report. */
  lemma SmallGroupComplete(cases: seq<Case>, config: ClusterConfig, dist: Distance, key: string)
    requires |GroupOf(cases, key)| < config.minClusterSize
    ensures Complete(cases, config, dist, key, [])
  {
  }

  /** Clusters of a new county key share no case with clusters of earlier keys. */
  lemma DisjointAppend(xs: seq<ClusterResult>, ys: seq<ClusterResult>, ks: seq<string>, key: string)
    requires Disjoint(xs) && Disjoint(ys) && key !in ks
    requires forall c, m :: c in xs && m in c.cases ==> KeyOf(m) in ks
    requires forall c, m :: c in ys && m in c.cases ==> KeyOf(m) == key
    ensures Disjoint(xs + ys)
  {
    var zs := xs + ys;
    forall i, j, m | 0 <= i < j < |zs| && m in zs[i].cases ensures m !in zs[j].cases {
      if j < |xs| {
        assert zs[i] == xs[i] && zs[j] == xs[j];
        assert m !in zs[j].cases;
      } else if |xs| <= i {
        assert zs[i] == ys[i - |xs|] && zs[j] == ys[j - |xs|];
        assert m !in zs[j].cases;
      } else {
        assert zs[i] == xs[i] && zs[j] == ys[j - |xs|];
        assert xs[i] in xs && ys[j - |xs|] in ys;
        assert KeyOf(m) in ks;
        assert m !in zs[j].cases;
      }
    }
  }

  /**
   * What holds of the clusters of the first `gi` county keys: all are
   * reported clusters of those counties, no case is in two of them, and
   * every reportable component of those counties is among them.
   */
  ghost predicate DetectedSoFar(cases: seq<Case>, config: ClusterConfig, dist: Distance, keys: seq<string>, gi: nat,
                                all: seq<ClusterResult>) {
    gi <= |keys|
    && (forall c :: c in all ==> ValidCluster(cases, config, dist, c))
    && (forall c, m :: c in all && m in c.cases ==> KeyOf(m) in keys[..gi])
    && Disjoint(all)
    && forall g :: 0 <= g < gi ==> Complete(cases, config, dist, keys[g], all)
  }

  /** Appending the clusters of county `keys[gi]` extends what holds of the first `gi` keys. */
  lemma DetectedStep(cases: seq<Case>, config: ClusterConfig, dist: Distance, keys: seq<string>, gi: nat,
                     all: seq<ClusterResult>, next: seq<ClusterResult>)
    requires DetectedSoFar(cases, config, dist, keys, gi, all) && gi < |keys| && Components.Distinct(keys)
    requires forall c :: c in next ==> ValidCluster(cases, config, dist, c)
    requires forall c, m :: c in next && m in c.cases ==> KeyOf(m) == keys[gi]
    requires Disjoint(next) && Complete(cases, config, dist, keys[gi], next)
    ensures DetectedSoFar(cases, config, dist, keys, gi + 1, all + next)
  {
    AllValidAppend(cases, config, dist, all, next);
    assert keys[..gi + 1] == keys[..gi] + [keys[gi]];
    assert keys[gi] !in keys[..gi];
    DisjointAppend(all, next, keys[..gi], keys[gi]);
    forall g | 0 <= g < gi + 1 ensures Complete(cases, config, dist, keys[g], all + next) {
      CompleteAppend(cases, config, dist, keys[g], all, next);
    }
  }

  /** Once every county key is walked, every county of the input is covered. */
  lemma DetectedAll(cases: seq<Case>, config: ClusterConfig, dist: Distance, keys: seq<string>, all: seq<ClusterResult>)
    requires keys == KeyOrder(cases) && DetectedSoFar(cases, config, dist, keys, |keys|, all)
    ensures forall c :: c in cases ==> Complete(cases, config, dist, KeyOf(c), all)
  {
    KeyOrderMembers(cases);
    forall c | c in cases ensures Complete(cases, config, dist, KeyOf(c), all) {
      assert KeyOf(c) in keys;
      var g :| 0 <= g < |keys| && keys[g] == KeyOf(c);
    }
  }

  /** Large-enough county groups, where at least one pair gets scored. */
  ghost predicate ScoredGroup(group: seq<Case>, config: ClusterConfig) {
    |group| >= config.minClusterSize && |group| >= 2
  }

  /**
   * The clusters of the county group `keys[gi]`: none for a group below the
   * minimum size, otherwise those `ClustersInCounty` finds. Appended to the
   * clusters of the earlier counties, they cover one county more.
   */
  method CountyClusters(key: string, group: seq<Case>, config: ClusterConfig, dist: Distance, timestamp: int,
                        ghost cases: seq<Case>, ghost keys: seq<string>, ghost gi: nat, ghost all: seq<ClusterResult>)
    returns (r: Result<seq<ClusterResult>, SimilarityError>)
    requires DetectedSoFar(cases, config, dist, keys, gi, all) && gi < |keys| && Components.Distinct(keys)
    requires key == keys[gi] && group == GroupOf(cases, key)
    ensures r.Err? <==> config.weights.Total() == 0.0 && ScoredGroup(group, config)
    ensures r.Ok? ==> DetectedSoFar(cases, config, dist, keys, gi + 1, all + r.value)
  {
    if |group| < config.minClusterSize {
      SmallGroupComplete(cases, config, dist, key);
      DetectedStep(cases, config, dist, keys, gi, all, []);
      return Ok([]);
    }
    r := ClustersInCounty(key, group, config, dist, timestamp, cases);
    if r.Ok? {
      DetectedStep(cases, config, dist, keys, gi, all, r.value);
    }
  }

  function UnsolvedKey(c: ClusterResult): real {
    c.unsolvedCases as real
  }

  /**
   * Detects the clusters of `cases`. `discovered` lists them in the order
   * they were found; the result is that list stably sorted by unsolved
   * count, highest first. Scoring with weights of total 0 is an error.
   */
  method DetectClusters(cases: seq<Case>, config: ClusterConfig, dist: Distance, timestamp: int)
    returns (r: Result<seq<ClusterResult>, SimilarityError>, ghost discovered: seq<ClusterResult>)
    ensures r.Err? <==> config.weights.Total() == 0.0
                        && exists c :: c in cases && ScoredGroup(GroupOf(cases, KeyOf(c)), config)
    ensures r.Ok? ==> r.value == SortDesc(discovered, UnsolvedKey)
    ensures r.Ok? ==> forall c :: c in discovered ==> ValidCluster(cases, config, dist, c)
    ensures r.Ok? ==> forall c :: c in cases ==> Complete(cases, config, dist, KeyOf(c), discovered)
    ensures r.Ok? ==> Disjoint(discovered)
    ensures cases == [] ==> r == Ok([])
  {
    var groups, keys := GroupByCounty(cases);
    var all: seq<ClusterResult> := [];
    for gi := 0 to |keys|
      invariant DetectedSoFar(cases, config, dist, keys, gi, all)
      invariant gi == 0 ==> all == []
      invariant config.weights.Total() == 0.0 ==> forall m :: 0 <= m < gi ==> !ScoredGroup(groups[keys[m]], config)
    {
      var key := keys[gi];
      var group := groups[key];
      var inCounty := CountyClusters(key, group, config, dist, timestamp, cases, keys, gi, all);
      if inCounty.Err? {
        GroupOfMembers(cases, key);
        assert group[0] in cases;
        return Err(inCounty.error), all;
      }
      all := all + inCounty.value;
    }
    discovered := all;
    DetectedAll(cases, config, dist, keys, all);
    if config.weights.Total() == 0.0 {
      forall c | c in cases ensures !ScoredGroup(GroupOf(cases, KeyOf(c)), config) {
        KeyOrderMembers(cases);
        assert KeyOf(c) in keys;
        assert GroupOf(cases, KeyOf(c)) == groups[KeyOf(c)];
        var m :| 0 <= m < |keys| && keys[m] == KeyOf(c);
      }
    }
    if cases == [] {
      assert keys == [] && all == [];
    }
    all := SortDesc(all, UnsolvedKey);
    return Ok(all), discovered;
  }

  /**
   * The reported clusters are the discovered ones, ordered by unsolved
   * count, highest first, clusters with equal counts in discovery order.
   */
  lemma DetectedOrder(discovered: seq<ClusterResult>)
    ensures SortedDesc(SortDesc(discovered, UnsolvedKey), UnsolvedKey)
    ensures multiset(SortDesc(discovered, UnsolvedKey)) == multiset(discovered)
    ensures forall k :: WithKey(SortDesc(discovered, UnsolvedKey), UnsolvedKey, k) == WithKey(discovered, UnsolvedKey, k)
  {
    SortDescSorted(discovered, UnsolvedKey);
    forall k ensures WithKey(SortDesc(discovered, UnsolvedKey), UnsolvedKey, k) == WithKey(discovered, UnsolvedKey, k) {
      SortDescStable(discovered, UnsolvedKey, k);
    }
  }
}
