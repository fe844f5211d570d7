# redstring homicide analysis core, modelled in Dafny

redstring is a homicide-data explorer. Its backend loads the Murder
Accountability Project case records into SQLite and answers filtered queries
about them. This project models the parts of that backend that compute
something:

- **Cluster detection.** Cases are grouped by county. Every pair in a group is
  scored with a weighted similarity of weapon, geography, victim age, sex and
  race, and year. Pairs at or above a threshold become edges. The connected
  components of those edges are found with a depth-first search. Each
  component is summarised (counts, solve rate, years, most common weapon and
  victim sex, average age and average similarity). Components that are too
  small or too often solved are dropped. The rest are sorted by unsolved
  count.
- **Similar-case search.** A reference case is scored against candidates with a
  different six-factor weighting. Candidates at or above the minimum score
  are kept, sorted by score and cut to the limit.
- **SQL filter builders.** The case explorer, the statistics and timeline
  services and the map service each turn their optional filters into a
  `WHERE` text and a parameter list. They also handle cursor pagination and
  the filter statistics.
- **Statistics.** Demographic and category breakdowns, age groups, the yearly
  trend (least-squares slope of the solve rate) and the monthly seasonal
  pattern with its peak and lowest month.
- **Timeline.** Period formatting per granularity, the timeline rows with
  their date range, metric validation and the trailing moving average.
- **Map service.** County aggregation with the padded, capped map bounds, and
  the case points with their limit clamp.
- **Setup progress.** The tracker that the data import updates and the
  polling endpoint reads.

SQL is not executed. A database query becomes its input rows, and the
builders are modelled as producing a list of clauses, each a condition text
with its parameters. `Sql.Render` joins the clauses the way the source does.
The builder methods keep the invariant `Sql.Holds` between their running
`conditions`/`params` lists and the clauses added so far. That gives two
properties for every builder: the rendered text has exactly as many `?` as
there are parameters, and the text is `1=1` exactly when no filter is active.

Python semantics are written out explicitly:

- `round(x, n)` rounds half to even on reals (`Rounding`).
- `int(s)` may fail, which gives an `Option` (`Text.ParseInt`).
- `x or d` and truthiness of optional strings are in `Options`.
- `str.zfill`, `str.upper` and `str.split(":", 1)` are in `Text`.
- Dictionaries with insertion order are a `map` plus a key-order sequence.
- `list.sort(reverse=True)` is a stable insertion sort (`Sorting.SortDesc`).
- Slicing with a possibly negative bound is `Sorting.Take`.

The modules follow the backend's files:

| module | file |
|---|---|
| `Geo` | `backend/utils/geo.py` |
| `Mappings` | `backend/utils/mappings.py` |
| `Clustering`, `Components`, `ClusterResults`, `Pairs`, `ClusterDetection` | `backend/analysis/clustering.py` |
| `SimilaritySearch` | `backend/analysis/similarity.py` |
| `Sql`, `CaseQueries` | `backend/database/queries/cases.py` |
| `ServiceFilters`, `Breakdowns`, `Trends`, `Seasonal` | `backend/services/statistics_service.py` |
| `Timeline` | `backend/services/timeline_service.py` |
| `MapService` | `backend/services/map_service.py` |
| `Progress` | `backend/routes/setup.py` |

`Options`, `Text`, `Rounding` and `Sorting` hold the Python built-ins the
others rely on. `ServiceFilters` serves both the statistics and the timeline
services, because their filter builders are the same code
(`backend/services/statistics_service.py:92-152` and
`backend/services/timeline_service.py:28-121`).

## Model

| member | source | states |
|---|---|---|
| Geo.GeographicScore | backend/utils/geo.py:93-107 | two cases in the same known county score 100; otherwise a missing coordinate on either side scores 0 |
| Geo.DistanceScoreRange | backend/utils/geo.py:113-118 | for a non-negative distance the proximity score is between 0 and 100, and it is 0 from 50 miles on |
| Geo.DistanceScoreAntitone | backend/utils/geo.py:113-118 | a closer pair never scores lower than a farther one |
| Geo.DistanceScoreZero | backend/utils/geo.py:113-118 | two cases at the same point score 100 |
| Geo.GeographicScoreRange | backend/utils/geo.py:55-118 | with a non-negative distance function the geographic score is always within 0..100 |
| Geo.GeographicScoreSymmetric | backend/utils/geo.py:55-118 | with a symmetric distance, swapping the two cases does not change the score |
| Geo.CountyKeySplit | backend/utils/geo.py:121-140 | splitting a county key at its first colon gives back the state and the FIPS text (or "UNKNOWN") |
| Geo.CountySuffixInjective | backend/utils/geo.py:138-140 | the part after the colon determines the county, so "UNKNOWN" never collides with a FIPS number |
| Geo.CountyKeyInjective | backend/utils/geo.py:121-140 | for colon-free states, two keys are equal exactly when state and county are equal |
| Geo.DistanceScore | backend/utils/geo.py:111-118 | from 50 miles on the score is 0; below that it is within 0.05 of the linear decay 100·(1 − d/50), the one-decimal rounding |
| Geo.CountyKey | backend/utils/geo.py:121-140 | "STATE:FIPS" or "STATE:UNKNOWN"; it carries no contract of its own, and Geo.CountyKeySplit and Geo.CountyKeyInjective state what it promises |
| Mappings.Lookup | backend/utils/mappings.py:22-67 | a table lookup succeeds exactly for the table's names and then gives that name's code |
| Mappings.SolvedMapValues | backend/utils/mappings.py:22-25 | "Yes" maps to 1 and "No" to 0, and nothing else is mapped |
| Mappings.VictimSexCodeDistinct | backend/utils/mappings.py:27-31 | Male, Female and Unknown map to the distinct codes 1, 2 and 9 |
| Mappings.MonthMapBijection | backend/utils/mappings.py:33-46 | the month table is a bijection from the twelve month names onto 1..12, in calendar order |
| Mappings.WeaponLabelsInOrder | backend/utils/mappings.py:48-67 | each of the eighteen weapon labels maps to the code at its position |
| Mappings.WeaponCodeInverse | backend/utils/mappings.py:48-67 | every weapon code lies in 11..99 and leads back to its own label |
| Mappings.WeaponIndexOfCodes | backend/utils/mappings.py:48-67 | each of the eighteen codes is in 11..99 and its position is recovered from the code |
| Mappings.WeaponCodeMapDistinct | backend/utils/mappings.py:48-67 | no two weapon labels share a code |
| Clustering.DefaultWeightsTotal | backend/analysis/clustering.py:52-81 | the default weights are non-negative and total 100 |
| Clustering.FindCategoryFirst | backend/analysis/clustering.py:137-149 | the category found is that of the first table entry listing the code, and there is none exactly when no entry lists it |
| Clustering.WeaponCategorySteps | backend/analysis/clustering.py:123-149 | the lookup tries firearm, blade, blunt, personal and other, in that order |
| Clustering.WeaponCategoryTable | backend/analysis/clustering.py:123-149 | the categories partition exactly the listed codes (11-15, 20-21, 30-31, 40-41, and 50/60/65/70/80/90/99); every other code has none |
| Clustering.UncategorisedTableCodes | backend/utils/mappings.py:48-67 | among the codes of the weapon table, exactly 55, 75 and 85 have no category |
| Clustering.WeaponFactor | backend/analysis/clustering.py:191-199 | 100 exactly for equal codes, 70 exactly for different codes of the same category (two uncategorised codes included), 0 exactly for different categories |
| Clustering.AgeFactor | backend/analysis/clustering.py:209-214 | within 0..100, and 0 when either age is the unknown marker 999 |
| Clustering.AgeFactorAntitone | backend/analysis/clustering.py:209-214 | for known ages a larger difference never scores higher, 20 years or more scores 0, and only equal ages score 100 |
| Clustering.TemporalFactor | backend/analysis/clustering.py:217-219 | within 0..100, 100 exactly for the same year, 0 exactly from ten years apart |
| Clustering.TemporalFactorAntitone | backend/analysis/clustering.py:217-219 | a larger year gap never scores higher |
| Clustering.CalculateSimilarity | backend/analysis/clustering.py:157-238 | fails (the division by zero) exactly when the weights total 0 |
| Clustering.FactorsInRange | backend/analysis/clustering.py:187-225 | every factor score of a pair lies within 0..100 |
| Clustering.DotBounds | backend/analysis/clustering.py:228-236 | a weighted sum of scores in 0..100 with non-negative weights lies between 0 and 100 times the weight total |
| Clustering.TotalIsSum | backend/analysis/clustering.py:71-81 | the weight total is the sum of the six weights |
| Clustering.WeightedSumBounds | backend/analysis/clustering.py:228-236 | the weighted factor sum lies between 0 and 100 times the total weight |
| Clustering.SimilarityRange | backend/analysis/clustering.py:157-238 | with non-negative weights of positive total, the combined score is within 0..100 |
| Clustering.SimilaritySymmetric | backend/analysis/clustering.py:157-238 | with a symmetric distance, the result (score and factors) does not depend on the order of the two cases |
| Clustering.SelfSimilarity | backend/analysis/clustering.py:157-238 | a case compared with itself scores 100 with the default weights when its county and age are known |
| Clustering.WeaponCategory | backend/analysis/clustering.py:137-149 | the category of a weapon code; it carries no contract of its own, and Clustering.FindCategoryFirst, Clustering.WeaponCategorySteps and Clustering.WeaponCategoryTable state what it returns |
| Clustering.ComputeFactors | backend/analysis/clustering.py:180-225 | the weapon, victim sex, victim race and temporal factors are 100 exactly when the two cases agree on that attribute; two cases in the same known county have geographic factor 100 |
| Clustering.Similarity | backend/analysis/clustering.py:227-238 | the score is within 0.05 of the weighted factor sum divided by the weight total, the one-decimal rounding of the weighted mean |
| Components.Ids | backend/analysis/clustering.py:336-340 | the ids of a neighbour list, position by position |
| Components.NodesFacts | backend/analysis/clustering.py:309-312 | the adjacency keys, in insertion order, are distinct and are exactly the ids on some edge |
| Components.NeighboursLinked | backend/analysis/clustering.py:309-312 | `v` is in `u`'s neighbour list exactly when an edge joins them, in either direction |
| Components.LinkedTouches | backend/analysis/clustering.py:309-312 | both ends of an edge have entries, and linking is symmetric |
| Components.BuildAdjacency | backend/analysis/clustering.py:309-312 | the loop builds exactly the adjacency the edges describe, with its keys in first-appearance order |
| Components.AdjacencyOfLinked | backend/analysis/clustering.py:309-312 | an id has a list exactly when it is on an edge, and its list holds exactly the ids it is linked to |
| Components.AdjacencyOfWellFormed | backend/analysis/clustering.py:309-312 | every listed neighbour has a list of its own, and the adjacency is symmetric |
| Components.ReversePath | backend/analysis/clustering.py:309-312 | in a symmetric adjacency a path read backwards is a path |
| Components.PushUnvisited | backend/analysis/clustering.py:336-340 | pushes exactly the unvisited neighbours, in order, with their scores |
| Components.Explore | backend/analysis/clustering.py:323-340 | the DFS returns distinct ids starting at the start id, all newly visited and reachable from it; afterwards every neighbour of a returned id is visited; every collected score is at least the adjacency's minimum |
| Components.FindComponents | backend/analysis/clustering.py:315-341 | walks the adjacency keys in order and returns whole connected components, pairwise separate, covering every key, each with scores at least the threshold |
| Components.FoundStep | backend/analysis/clustering.py:319-341 | exploring an unvisited key adds its whole component, separate from all earlier ones, and keeps the visited set exactly their ids |
| Components.SameComponent | backend/analysis/clustering.py:315-341 | in a symmetric adjacency two components sharing an id have the same members |
| Components.NoComponentWithoutEdges | backend/analysis/clustering.py:304-306 | with no similar pair there is no component, so skipping the county misses nothing |
| Components.ExploreIsComponent | backend/analysis/clustering.py:315-340 | when the ids visited before are closed under adjacency, the ids a DFS returns form a whole connected component, and the visited set stays closed |
| ClusterResults.Count | backend/analysis/clustering.py:394-396 | a label is counted more than zero times exactly when it occurs |
| ClusterResults.FirstAppearancesFacts | backend/analysis/clustering.py:394-397 | the counter's key order holds each label once, exactly the labels present, in order of first occurrence |
| ClusterResults.CountLabels | backend/analysis/clustering.py:394-396 | the counter maps exactly the labels present to their number of occurrences, with keys in first-occurrence order |
| ClusterResults.FirstMaximumIsMostCommon | backend/analysis/clustering.py:397 | the first key, in counter order, with the highest count is the most common label |
| ClusterResults.MostCommon | backend/analysis/clustering.py:393-403 | the result is the most common label, ties going to the label seen first |
| ClusterResults.MostCommonUnique | backend/analysis/clustering.py:397 | that most common label is unique |
| ClusterResults.CountSolved | backend/analysis/clustering.py:383 | the solved count never exceeds the number of cases |
| ClusterResults.Years | backend/analysis/clustering.py:389 | the years of the cases, in order |
| ClusterResults.Weapons | backend/analysis/clustering.py:394 | the weapon labels of the cases, in order |
| ClusterResults.VictimSexes | backend/analysis/clustering.py:400 | the victim sexes of the cases, in order |
| ClusterResults.MinOf | backend/analysis/clustering.py:390 | the first year is one of the years and no year is earlier |
| ClusterResults.MaxOf | backend/analysis/clustering.py:391 | the last year is one of the years and no year is later |
| ClusterResults.KnownAges | backend/analysis/clustering.py:406 | the ages other than the 999 marker, never more than there are cases |
| ClusterResults.SumBounds | backend/analysis/clustering.py:386 | a sum of values within bounds lies between n times each bound |
| ClusterResults.Mean1Bounds | backend/analysis/clustering.py:386 | the rounded mean of values within integer bounds stays within them |
| ClusterResults.AvgVictimAgeBounds | backend/analysis/clustering.py:406-407 | with no known age the average age is 0; otherwise it lies within the bounds of the known ages |
| ClusterResults.SummaryCounts | backend/analysis/clustering.py:382-385 | in a cluster summary, solved plus unsolved is the total, and the solve rate is within 0..100 |
| ClusterResults.SummaryYears | backend/analysis/clustering.py:389-391 | first year ≤ last year, and every case's year lies between them |
| ClusterResults.BuildClusterResult | backend/analysis/clustering.py:362-427 | the result summarises the cases (counts, rate, years, most common weapon and sex, ages); its average similarity is the rounded mean of the scores; its id and location come from the county key |
| ClusterResults.Mean1 | backend/analysis/clustering.py:386 | 0 for no scores; otherwise within 0.05 of the mean |
| ClusterResults.ClusterId | backend/analysis/clustering.py:376-379 | the id has no colon (colons become underscores) and is longer than the key |
| ClusterResults.LocationDescription | backend/analysis/clustering.py:409-411 | the text starts with the state and " - County ", and for a key with one colon it is exactly state, " - County " and the county part |
| ClusterDetection.KeyHasColon | backend/utils/geo.py:138-140 | every grouping key contains a colon, so the location text can be split from it |
| ClusterDetection.GroupOfMembers | backend/analysis/clustering.py:276-279 | a county group holds exactly the cases with that key |
| ClusterDetection.KeyOrderMembers | backend/analysis/clustering.py:276-279 | the group keys are exactly the keys of the cases |
| ClusterDetection.KeyOrderDistinct | backend/analysis/clustering.py:276-279 | each key appears once in the group order |
| ClusterDetection.GroupByCounty | backend/analysis/clustering.py:276-279 | the loop yields one group per key, in first-occurrence order, each holding its cases in input order |
| ClusterDetection.PairIfMembers | backend/analysis/clustering.py:299-302 | a pair contributes an edge exactly when it scores at least the threshold |
| Pairs.RowPairsMembers | backend/analysis/clustering.py:295-302 | row `i` yields exactly the edges of the pairs (i, m) with m after i |
| Pairs.PairsBeforeMembers | backend/analysis/clustering.py:294-302 | the rows before `i` yield exactly the edges of the pairs whose first index is before `i` |
| Pairs.PairsBeforeSound | backend/analysis/clustering.py:294-302 | every edge from the rows before `i` comes from some pair a < b with a before `i` |
| Pairs.PairsBeforeComplete | backend/analysis/clustering.py:294-302 | every edge of a pair a < b with a before `i` is among the edges of the rows before `i` |
| ClusterDetection.SimilarPairsMembers | backend/analysis/clustering.py:292-302 | an edge is listed exactly when some pair a < b of the group scores at least the threshold with it |
| ClusterDetection.SimilarPairsEdges | backend/analysis/clustering.py:292-302 | every edge meets the threshold and joins ids of cases in the group |
| ClusterDetection.AppendIfSimilar | backend/analysis/clustering.py:296-302 | scoring one more pair extends the row by that pair's edge, or fails when the weights total 0 |
| ClusterDetection.ScoreRow | backend/analysis/clustering.py:295-302 | the inner loop produces row `i`'s edges, failing exactly when a pair is scored with zero total weight |
| ClusterDetection.FindSimilarPairs | backend/analysis/clustering.py:292-302 | the double loop produces all similar pairs, failing exactly when a group of two or more is scored with zero total weight |
| ClusterDetection.IndexById | backend/analysis/clustering.py:316 | the id index holds exactly the group's ids, each mapped to a case with that id |
| ClusterDetection.IndexByIdLast | backend/analysis/clustering.py:316 | for a repeated id the later case wins |
| ClusterDetection.IdsOf | backend/analysis/clustering.py:344 | the ids of the cases, in order |
| ClusterDetection.ValidClusterFacts | backend/analysis/clustering.py:276-351 | a reported cluster has at least the minimum size, a solve rate at most the maximum, distinct ids, and cases all from one county group; every case lies on a similar pair |
| ClusterDetection.ClusterMembers | backend/analysis/clustering.py:315-344 | every case of a component cluster is in the group and is on a similar pair |
| ClusterDetection.TouchesHasCase | backend/analysis/clustering.py:299-302 | an id on a similar pair belongs to a case of the group |
| ClusterDetection.NeighbourScoresAtLeast | backend/analysis/clustering.py:309-312 | every adjacency entry carries a score at least the threshold |
| ClusterDetection.ComponentInIndex | backend/analysis/clustering.py:316-344 | every id of a component can be looked up in the id index |
| ClusterDetection.LookUp | backend/analysis/clustering.py:344 | the looked-up cases have the component's ids, position by position |
| ClusterDetection.ClusterFromComponent | backend/analysis/clustering.py:343-347 | a component of at least the minimum size becomes a component cluster of the group: its cases are the group's cases looked up by id in component order, its solve rate is the solved share of the component, and its id and location come from the county key |
| ClusterDetection.LookUpIds | backend/analysis/clustering.py:344 | the cases looked up for a component carry exactly the component's ids, position by position |
| ClusterDetection.ClusterKept | backend/analysis/clustering.py:343-351 | the looked-up cluster has the component's ids, and its solve rate is at most the maximum exactly when the component is one the source keeps |
| ClusterDetection.ClusterValid | backend/analysis/clustering.py:343-351 | a component cluster of a county group with a low enough solve rate is a valid reported cluster, all of whose cases carry that county's key |
| ClusterDetection.KeptCluster | backend/analysis/clustering.py:342-351 | returns a cluster exactly when the component is large enough and its solve rate is at most the maximum; that cluster is valid, holds the component's ids in order, and lies in the county |
| ClusterDetection.KeepClusters | backend/analysis/clustering.py:319-351 | over the components in DFS order, keeps exactly the clusters of the kept components, in component order; each is valid and lies in the county |
| ClusterDetection.KeptStep | backend/analysis/clustering.py:342-351 | taking or skipping the next component keeps the correspondence between kept components and clusters found |
| ClusterDetection.BuiltComplete | backend/analysis/clustering.py:319-351 | when the components cover the graph, every component the source keeps is reported by some cluster found |
| ClusterDetection.BuiltDisjoint | backend/analysis/clustering.py:319-351 | clusters built from separate components share no case |
| ClusterDetection.SameMembersRate | backend/analysis/clustering.py:343-350 | two orders of the same distinct ids give the same size and the same solved count, so whether a component is kept does not depend on the DFS order |
| ClusterDetection.ReportedOnce | backend/analysis/clustering.py:319-353 | in a disjoint list of valid clusters, at most one cluster reports a given component |
| ClusterDetection.SmallGroupComplete | backend/analysis/clustering.py:287-289 | a county group below the minimum size has no reportable component, so skipping it misses nothing |
| ClusterDetection.CompleteAppend | backend/analysis/clustering.py:353 | appending clusters keeps every component either list already reports |
| ClusterDetection.DisjointAppend | backend/analysis/clustering.py:353 | clusters of a new county appended to disjoint clusters of other counties stay disjoint |
| ClusterDetection.DetectedStep | backend/analysis/clustering.py:286-353 | the clusters of one more county, valid, disjoint and complete for that county, extend what holds of the counties processed so far |
| ClusterDetection.DetectedAll | backend/analysis/clustering.py:286-353 | after the last county, every county of the input has all its reportable components reported |
| ClusterDetection.CountyClusters | backend/analysis/clustering.py:286-353 | processes one county group (skipping a small one), failing exactly when a scored group meets zero total weight, and otherwise extends what holds of the counties processed so far |
| ClusterDetection.ClustersInCounty | backend/analysis/clustering.py:288-353 | fails exactly when the weights total 0 (on a group of two or more); otherwise every cluster it returns is valid and lies in the county, every component the source keeps (at least the minimum size, solve rate at most the maximum) is reported by some cluster, and no case is in two clusters |
| ClusterDetection.DetectClusters | backend/analysis/clustering.py:246-359 | fails exactly when a scored group meets zero total weight; otherwise it returns the discovered clusters sorted by unsolved count, every one valid, no case in two of them, and for every county of the input every component the source keeps reported; no cases give no clusters |
| ClusterDetection.DetectedOrder | backend/analysis/clustering.py:356 | the result is sorted by unsolved count (descending), is a permutation of the clusters found, and keeps ties in discovery order |
| Sorting.Take | backend/analysis/similarity.py:370 | `xs[:n]` is a prefix of `xs` of length min(n, len) for n ≥ 0, and drops -n elements from the end for n < 0 |
| Sorting.WithKey | backend/analysis/clustering.py:356 | the elements with a given key, in order, never more than the whole |
| Sorting.Insert | backend/analysis/clustering.py:356 | one insertion adds exactly the element |
| Sorting.SortDesc | backend/analysis/clustering.py:356 | the sort is a permutation of its input |
| Sorting.InsertSorted | backend/analysis/clustering.py:356 | inserting into a descending sequence keeps it descending |
| Sorting.SortDescSorted | backend/analysis/clustering.py:356 | the sorted result is in non-increasing key order |
| Sorting.SortDescStable | backend/analysis/clustering.py:356 | for every key, the elements with that key keep their input order (the sort is stable) |
| Sorting.SortDescOfSorted | backend/analysis/clustering.py:356 | sorting an already sorted sequence changes nothing |
| SimilaritySearch.DefaultSearchConfig | backend/analysis/similarity.py:24-77 | the default configuration has a positive radius and weights totalling 1 |
| SimilaritySearch.BothInSomeSetMeaning | backend/analysis/similarity.py:147-151 | the category check holds exactly when some category contains both codes |
| SimilaritySearch.SameWeaponCategoryMeaning | backend/analysis/similarity.py:112-151 | two codes share a category exactly when both are present and one category lists both; the check is symmetric |
| SimilaritySearch.SameWeaponCategoryReflexive | backend/analysis/similarity.py:112-151 | a code shares a category with itself exactly when some category lists it |
| SimilaritySearch.WeaponMatch | backend/analysis/similarity.py:182-189 | 100 exactly for the same weapon text, 70 exactly for different weapons of one category, otherwise 0 |
| SimilaritySearch.ProximityWithCoordinates | backend/analysis/similarity.py:197-205 | with coordinates, within the radius scores 50..100, the same point 100, and beyond the radius 0 |
| SimilaritySearch.ProximityFallback | backend/analysis/similarity.py:206-215 | without coordinates, 100 exactly for the same county, 30 exactly for another county of the same state, else 0 |
| SimilaritySearch.AgeProximity | backend/analysis/similarity.py:218-231 | within 0..100; 50 when either age is unknown; 100 exactly within the age window |
| SimilaritySearch.YearProximity | backend/analysis/similarity.py:234-242 | within 0..100; 100 exactly within the year window; 0 from ten years beyond it |
| SimilaritySearch.ProximityAntitone | backend/analysis/similarity.py:218-242 | a larger age or year gap never scores higher |
| SimilaritySearch.ContextMatch | backend/analysis/similarity.py:252-269 | when both sides are given, 100 exactly if equal and 0 otherwise; 50 when either is missing or empty |
| SimilaritySearch.Weighted | backend/analysis/similarity.py:272-280 | a factor in 0..100 times a non-negative weight lies between 0 and 100 times the weight |
| SimilaritySearch.FactorsInRange | backend/analysis/similarity.py:178-269 | every factor score lies within 0..100 |
| SimilaritySearch.OverallScoreRange | backend/analysis/similarity.py:272-282 | factors in range with non-negative weights totalling 1 give an overall score within 0..100 |
| SimilaritySearch.ScoreRange | backend/analysis/similarity.py:159-282 | with a valid configuration a candidate's score is within 0..100 |
| SimilaritySearch.ScoreSymmetric | backend/analysis/similarity.py:159-282 | with a symmetric distance, scoring is symmetric in the two cases |
| SimilaritySearch.KeptMembers | backend/analysis/similarity.py:354-366 | an entry is kept exactly when it is the rounded entry of a candidate whose score reaches the minimum |
| SimilaritySearch.KeptScores | backend/analysis/similarity.py:358-362 | every kept entry's rounded score is at least the rounded minimum |
| SimilaritySearch.FindSimilarCases | backend/analysis/similarity.py:352-370 | the loop returns the kept entries, sorted by score and cut to the limit |
| SimilaritySearch.SearchResultFacts | backend/analysis/similarity.py:369-370 | the result has at most `limit` entries, is sorted by score, holds only kept entries above the minimum, and when everything fits is a stable permutation of the kept entries |
| SimilaritySearch.Proximity | backend/analysis/similarity.py:191-215 | with coordinates farther apart than the radius the factor is 0; whenever distances are non-negative it lies within 0..100 |
| SimilaritySearch.ScoreFactors | backend/analysis/similarity.py:178-269 | the factors lie within 0..100; weapon and victim race are 100 exactly when the texts agree, temporal exactly when the years are within the window |
| SimilaritySearch.OverallScore | backend/analysis/similarity.py:271-280 | factors in range with non-negative weights give a score between 0 and 100 times the weight total |
| SimilaritySearch.ScoreCandidate | backend/analysis/similarity.py:159-282 | the factors lie within 0..100, and with non-negative weights the overall score lies between 0 and 100 times the weight total |
| Sql.Strs | backend/database/queries/cases.py:45-49 | string parameters, position by position |
| Sql.PlaceholdersCount | backend/database/queries/cases.py:47 | `",".join("?" * n)` holds exactly n placeholders |
| Sql.InList | backend/database/queries/cases.py:65-68 | an `IN (...)` condition starts with its column and takes exactly the list as parameters |
| Sql.InListBalanced | backend/database/queries/cases.py:65-68 | an `IN (...)` condition has one placeholder per value |
| Sql.Compare | backend/database/queries/cases.py:52-57 | a comparison condition starts with its column and takes exactly its one parameter |
| Sql.CompareBalanced | backend/database/queries/cases.py:52-57 | a comparison condition has one placeholder for its one parameter |
| Sql.Fixed | backend/database/queries/cases.py:109-111 | a fixed condition has no placeholder and no parameter |
| Sql.Conditions | backend/database/queries/cases.py:173 | the condition texts of the clauses, in order |
| Sql.ArgsConcat | backend/database/queries/cases.py:49 | the parameters of two clause lists concatenate |
| Sql.Extend | backend/database/queries/cases.py:52-57 | appending one condition and its parameters keeps the running lists equal to the rendering of the clauses added |
| Sql.CountArgs | backend/database/queries/cases.py:173-175 | over balanced clauses, the placeholders in the conditions equal the number of parameters |
| Sql.PlaceholdersMatch | backend/database/queries/cases.py:173-175 | the rendered `WHERE` text has exactly as many `?` as there are parameters |
| Sql.NoConditions | backend/database/queries/cases.py:173 | for well-formed clauses the text is `1=1` exactly when there are none, and then there are no parameters |
| Sql.WhereStartsWith | backend/services/map_service.py:177 | the rendered text starts with the first condition |
| Sql.JoinHeadPart | backend/database/queries/cases.py:173 | a join starts with its first part |
| Sql.ArgsHead | backend/database/queries/cases.py:173-175 | the parameter list starts with the first clause's parameters |
| Sql.IfAny | backend/database/queries/cases.py:65-68 | a list filter adds one clause exactly when the list is non-empty |
| Sql.IfSome | backend/database/queries/cases.py:52-57 | an optional number adds one clause exactly when it is given |
| Sql.IfTruthy | backend/database/queries/cases.py:150-157 | an optional string adds one clause exactly when it is non-empty |
| Sql.AddIfTruthy | backend/database/queries/cases.py:150-157 | the builder step for an optional string keeps the running lists in step with the clauses |
| Sql.AddIfSome | backend/database/queries/cases.py:52-57 | the builder step for an optional number keeps the running lists in step with the clauses |
| Sql.AddInList | backend/database/queries/cases.py:65-68 | the builder step for a list keeps the running lists in step with the clauses |
| Sql.Render | backend/database/queries/cases.py:172-173 | no condition renders as `1=1` with no parameters; otherwise the first condition leads the text and its parameters lead the list |
| CaseQueries.UpperAll | backend/database/queries/cases.py:46 | each state is upper-cased, position by position |
| CaseQueries.AgeBounds | backend/database/queries/cases.py:87-98 | the age-bound condition has one placeholder per bound |
| CaseQueries.OrUnknown | backend/database/queries/cases.py:101-108 | OR-ing in the unknown-age test keeps the bounds' parameters and placeholders |
| CaseQueries.AgeClauses | backend/database/queries/cases.py:84-111 | one age condition exactly when a bound is given or unknown ages are included |
| CaseQueries.AgeConditions | backend/database/queries/cases.py:84-111 | the age condition takes the given bounds as parameters and tests for 999 alone when only unknown ages are asked for |
| CaseQueries.After | backend/database/queries/cases.py:166-167 | the keyset condition has one placeholder per parameter |
| CaseQueries.CursorClauses | backend/database/queries/cases.py:161-170 | one cursor condition exactly when the cursor parses |
| CaseQueries.BuildFilterQuery | backend/database/queries/cases.py:21-175 | the builder returns the rendering of all active filter clauses, in the source's order, with the CORRECTED cursor behaviour: a cursor whose year part does not parse adds nothing, whereas the source (lines 166-167) appends the condition before `int()` fails; the text has as many `?` as parameters and is `1=1` exactly when no filter is active |
| CaseQueries.AddRangeConditions | backend/database/queries/cases.py:44-62 | adds the state, year and solved conditions and keeps the lists in step |
| CaseQueries.AddVictimConditions | backend/database/queries/cases.py:64-111 | adds the victim sex, race, ethnicity and age conditions and keeps the lists in step |
| CaseQueries.AddAgeCondition | backend/database/queries/cases.py:82-111 | adds the combined age condition and keeps the lists in step |
| CaseQueries.AddCrimeConditions | backend/database/queries/cases.py:113-135 | adds the weapon, relationship, circumstance and situation conditions and keeps the lists in step |
| CaseQueries.AddPlaceConditions | backend/database/queries/cases.py:137-157 | adds the county, MSA, agency and case-id conditions and keeps the lists in step |
| CaseQueries.AddCursorCondition | backend/database/queries/cases.py:159-170 | adds the keyset condition for a valid cursor and keeps the lists in step |
| CaseQueries.CaseClausesProper | backend/database/queries/cases.py:21-175 | every condition is balanced, non-empty and cannot be confused with `1=1` |
| CaseQueries.CasePlaceholdersMatch | backend/database/queries/cases.py:21-175 | for every filter, the `WHERE` text has exactly as many `?` as there are parameters |
| CaseQueries.CaseNoFilter | backend/database/queries/cases.py:173 | the text is `1=1` exactly when no filter is active, and then there are no parameters |
| CaseQueries.StatesCondition | backend/database/queries/cases.py:45-49 | with states given, the text starts with the `UPPER(state) IN (` condition, and the parameters start with the upper-cased states |
| CaseQueries.FirstClause | backend/database/queries/cases.py:45-49 | the state condition comes first |
| CaseQueries.CursorRoundTrip | backend/database/queries/cases.py:249 | a cursor made from a page's last case parses back to that year and id, and gives the keyset condition |
| CaseQueries.CursorParameters | backend/database/queries/cases.py:161-170 | a cursor adds no condition when it does not parse; otherwise one condition with the year twice and the id |
| CaseQueries.OnlyCursor | backend/database/queries/cases.py:21-175 | a filter with only a cursor has no other conditions |
| CaseQueries.InvalidYearCursor | backend/database/queries/cases.py:161-165 | "abc:1" is a non-empty cursor with a colon whose year does not parse |
| CaseQueries.CursorAsWrittenUnbalanced | backend/database/queries/cases.py:161-169 | as written, the cursor "abc:1" yields three placeholders and no parameters |
| CaseQueries.CursorIgnoredWhenYearInvalid | backend/database/queries/cases.py:161-170 | in the corrected builder, a cursor whose year does not parse adds nothing |
| CaseQueries.PageSize | backend/database/queries/cases.py:239-253 | a page has at most `limit` cases taken from the front, and all rows when they fit |
| CaseQueries.NextCursor | backend/database/queries/cases.py:244-249 | there is a next cursor exactly when more rows came back than the limit, and it parses back to the last returned case |
| CaseQueries.PaginateMore | backend/database/queries/cases.py:244-249 | with more rows than the limit, the page is the first `limit` rows with the cursor of the last |
| CaseQueries.StatsFacts | backend/database/queries/cases.py:353-372 | no rows give all zeros; NULL sums count as 0; the solve rate is within 0..100, 0 with nothing solved and 100 with everything solved |
| CaseQueries.ParseCursor | backend/database/queries/cases.py:161-170 | no text or no colon gives no cursor; a cursor splits at its first colon, the part before parses as the year and the rest, colons included, is the id |
| CaseQueries.MakeCursor | backend/database/queries/cases.py:246-249 | the cursor made from (year, id) parses back to (year, id), even when the id holds a colon |
| CaseQueries.Paginate | backend/database/queries/cases.py:239-249 | at most `limit` cases, a prefix of the rows, all of them when they fit; a next cursor exactly when more rows were fetched, pointing at the last case returned |
| CaseQueries.Stats | backend/database/queries/cases.py:353-372 | with no row or a zero count all four values are zero; otherwise the total is the row's count, never negative |
| ServiceFilters.StateClauses | backend/services/statistics_service.py:95-98 | a state condition exactly when the state is non-empty |
| ServiceFilters.CountyClauses | backend/services/statistics_service.py:100-103 | a county condition exactly when the county is non-empty |
| ServiceFilters.SolvedClauses | backend/services/statistics_service.py:113-116 | a solved condition exactly when the status is given |
| ServiceFilters.PlaceAndYearClauses | backend/services/statistics_service.py:95-111 | one condition per given state, county and year bound |
| ServiceFilters.StatusAndVictimClauses | backend/services/statistics_service.py:113-126 | one condition per given status, sex and race |
| ServiceFilters.AgeAndCrimeClauses | backend/services/statistics_service.py:128-149 | one condition per given age bound, weapon, relationship and circumstance |
| ServiceFilters.BuildServiceFilter | backend/services/statistics_service.py:92-152 | the builder returns the rendering of the active filters, or fails when the county is not an integer |
| ServiceFilters.AddPlaceAndYear | backend/services/statistics_service.py:95-111 | adds the state, county and year conditions and keeps the lists in step |
| ServiceFilters.AddStatusAndVictim | backend/services/statistics_service.py:113-126 | adds the solved, sex and race conditions and keeps the lists in step |
| ServiceFilters.AddAgeAndCrime | backend/services/statistics_service.py:128-149 | adds the age, weapon, relationship and circumstance conditions and keeps the lists in step |
| ServiceFilters.ServiceClausesProper | backend/services/statistics_service.py:92-152 | every condition is balanced and non-empty |
| ServiceFilters.ServiceClauseCount | backend/services/statistics_service.py:92-152 | there is one condition per active filter |
| ServiceFilters.ServicePlaceholdersMatch | backend/services/statistics_service.py:92-152 | the text has exactly as many `?` as there are parameters |
| ServiceFilters.ServiceQueryFails | backend/services/statistics_service.py:100-103 | the builder fails exactly when a non-empty county does not parse as an integer |
| ServiceFilters.ServiceNoFilter | backend/services/statistics_service.py:151 | the text is `1=1` exactly when no filter is active, and then there are no parameters |
| ServiceFilters.SolvedParameter | backend/services/statistics_service.py:113-116 | the solved flag is passed as 1 or 0 |
| ServiceFilters.ServiceQuery | backend/services/statistics_service.py:59-152 | fails exactly when a non-empty county does not parse as an integer; otherwise the text has exactly as many `?` as parameters |
| Breakdowns.AgeGroupsContiguous | backend/services/statistics_service.py:37-45 | seven age groups cover 0..999 without gaps, each non-empty |
| Breakdowns.GroupOf | backend/services/statistics_service.py:37-45 | every age in 0..999 falls in some group |
| Breakdowns.AgeGroupsDisjoint | backend/services/statistics_service.py:37-45 | no age falls in two groups |
| Breakdowns.AgeGroupsOrdered | backend/services/statistics_service.py:37-45 | the groups are in increasing age order |
| Breakdowns.AgeGroupsPartition | backend/services/statistics_service.py:37-45 | each age's group is unique, and the unknown marker 999 is "65+" |
| Breakdowns.CategoryName | backend/services/statistics_service.py:354 | a missing or empty category is named "Unknown"; otherwise the category is kept |
| Breakdowns.ShareOfRange | backend/services/statistics_service.py:358-359 | a share of a non-positive whole is 0; a part within the whole gives 0..100, and the whole gives 100 |
| Breakdowns.BuildDemographicBreakdowns | backend/services/statistics_service.py:347-369 | one breakdown per row, in order |
| Breakdowns.DemographicFacts | backend/services/statistics_service.py:353-368 | a breakdown is "Unknown" exactly for a missing or "Unknown" category; its rates are 0 on a zero denominator and within 0..100 when the counts are consistent |
| Breakdowns.BuildCategoryBreakdowns | backend/services/statistics_service.py:657-676 | one breakdown per row, in order |
| Breakdowns.CategoryFacts | backend/services/statistics_service.py:663-675 | the same facts for category breakdowns |
| Breakdowns.ShareOf | backend/services/statistics_service.py:358-359 | a non-positive whole gives 0; otherwise the share is within 0.05 of part/whole·100 |
| Breakdowns.Demographic | backend/services/statistics_service.py:353-368 | the label is the row's category when it is non-empty and never empty otherwise; no cases give a zero solve rate and a zero total gives a zero share |
| Breakdowns.Category | backend/services/statistics_service.py:663-675 | the label is the row's category when it is non-empty and never empty otherwise; a zero count gives a zero solve rate and a zero total gives a zero share |
| Timeline.Decade | backend/services/timeline_service.py:144-146 | the decade is a multiple of ten at most the year and within ten of it |
| Timeline.DecadeOfDecade | backend/services/timeline_service.py:144-146 | every year of a decade has that decade |
| Timeline.MonthPeriodRoundTrip | backend/services/timeline_service.py:134-136 | a "YYYY-MM" period parses back to its year and month, with the month zero-padded to two digits |
| Timeline.FormatMonthInjective | backend/services/timeline_service.py:134-136 | distinct (year, month) pairs give distinct periods |
| Timeline.DecadePeriodRoundTrip | backend/services/timeline_service.py:139-141 | a decade period is the decade's digits followed by "s" |
| Timeline.Period | backend/services/timeline_service.py:288-294 | a period label is never empty |
| Timeline.Points | backend/services/timeline_service.py:287-309 | one data point per row, in order |
| Timeline.OrNA | backend/services/timeline_service.py:322-323 | a non-empty period is kept, anything else becomes "N/A" |
| Timeline.BuildTimeline | backend/services/timeline_service.py:279-324 | the loop returns one point per row and the total of the rows; the date range is the first and last period, or N/A/N/A with no rows |
| Timeline.PointFacts | backend/services/timeline_service.py:296-307 | a point keeps the row's total; its solve rate is 0 without cases and within 0..100 when the counts are consistent |
| Timeline.MovingAverage | backend/services/timeline_service.py:154-182 | one entry per value, each the trailing average at that index |
| Timeline.AverageDefined | backend/services/timeline_service.py:167-175 | an average exists exactly when 2 ≤ window ≤ count and the index has a full window before it |
| Timeline.AverageWithin | backend/services/timeline_service.py:176-180 | an average of values within integer bounds stays within them |
| Timeline.AverageOfConstant | backend/services/timeline_service.py:176-180 | a constant series averages to itself wherever the window fits |
| Timeline.CheckedMetric | backend/services/timeline_service.py:385-389 | the metric used is always a valid one, and it is the requested one exactly when that is valid |
| Timeline.MetricNameRoundTrip | backend/services/timeline_service.py:386 | metric names and metrics correspond one to one |
| Timeline.ClampWindow | backend/services/timeline_service.py:392 | the window is clamped into 2..10 and left alone inside it |
| Timeline.Values | backend/services/timeline_service.py:412-421 | one metric value per data point |
| Timeline.BuildTrends | backend/services/timeline_service.py:385-437 | one trend point per data point, with the validated metric's value and the moving average over the clamped window |
| Timeline.FormatYear | backend/services/timeline_service.py:129-131 | the label reads back as the year |
| Timeline.FormatMonth | backend/services/timeline_service.py:134-136 | for a non-negative year and month the label splits at its first hyphen into the year and the month |
| Timeline.FormatDecade | backend/services/timeline_service.py:139-141 | the label ends in "s", and the text before it reads back as the decade |
| Timeline.ParseMetric | backend/services/timeline_service.py:385-389 | a valid metric name is kept, and any other falls back to the solve rate |
| Timeline.AverageAt | backend/services/timeline_service.py:167-180 | a value exactly when the window is at least 2 and fits before position i; it is within 0.005 of the mean of the window ending at i |
| Trends.TrendDirection | backend/services/statistics_service.py:929-971 | the loop computes the least-squares direction, always one of the three labels |
| Trends.DenominatorPositive | backend/services/statistics_service.py:953-958 | with two or more values the slope's denominator is positive, so its zero test never fires |
| Trends.ConstantIsStable | backend/services/statistics_service.py:929-971 | a constant series is "stable" |
| Trends.LinearDirection | backend/services/statistics_service.py:943-971 | an exactly linear series has its step as slope: "increasing" above 0.5, "decreasing" below -0.5, else "stable" |
| Trends.Linear | backend/services/statistics_service.py:953 | the series a, a+b, … has n entries |
| Trends.AverageAnnualFacts | backend/services/statistics_service.py:919-920 | no years give 0; an even spread of k per year gives exactly k; non-negative totals give a non-negative average |
| Trends.BuildTrendStatistics | backend/services/statistics_service.py:893-926 | one yearly point per row; the trend is the direction of the rows' solve rates; the average is the rounded total per year |
| Trends.Direction | backend/services/statistics_service.py:929-971 | one of "increasing", "decreasing" or "stable", and "stable" for fewer than two values |
| Trends.AverageAnnual | backend/services/statistics_service.py:919-920 | 0 when there are no years; otherwise within 0.05 of the cases per year |
| Seasonal.MonthNamesDistinctFromMarkers | backend/services/statistics_service.py:48-51 | twelve non-empty month names, none of them "N/A" |
| Seasonal.RowFor | backend/services/statistics_service.py:1057 | the row found for a month has that month, and none is found when no row has it |
| Seasonal.RowForLast | backend/services/statistics_service.py:1057 | with repeated months the last row wins |
| Seasonal.Patterns | backend/services/statistics_service.py:1059-1077 | one pattern per month |
| Seasonal.PatternsAt | backend/services/statistics_service.py:1059-1077 | pattern `i` is that of month `i + 1` |
| Seasonal.PatternName | backend/services/statistics_service.py:1060 | each pattern's name is a real month name |
| Seasonal.MissingMonth | backend/services/statistics_service.py:1068-1070 | a month without a row averages 0 and has 0 percent |
| Seasonal.AverageCasesNonNegative | backend/services/statistics_service.py:1064-1066 | non-negative counts give a non-negative average |
| Seasonal.PatternBounds | backend/services/statistics_service.py:1062-1070 | averages are non-negative and percentages within 0..100 for consistent counts |
| Seasonal.FirstExtremesUnique | backend/services/statistics_service.py:1079-1085 | the first maximum and the first minimum are unique |
| Seasonal.MaxExtend | backend/services/statistics_service.py:1080-1082 | the peak moves only on a strictly larger average |
| Seasonal.MaxStart | backend/services/statistics_service.py:1051 | starting from 0, the peak is set by the first positive average |
| Seasonal.MinExtend | backend/services/statistics_service.py:1083-1085 | the lowest month moves only on a strictly smaller average |
| Seasonal.Averages | backend/services/statistics_service.py:1079-1085 | the averages of the patterns, one per pattern |
| Seasonal.Names | backend/services/statistics_service.py:1079-1085 | the names of the patterns, one per pattern |
| Seasonal.ColumnsAppend | backend/services/statistics_service.py:1072-1077 | appending a pattern appends its average and name |
| Seasonal.Track | backend/services/statistics_service.py:1079-1085 | one month's update keeps the peak as the first maximum and the lowest as the first minimum |
| Seasonal.SeasonalStatistics | backend/services/statistics_service.py:1044-1091 | twelve patterns; the peak is the first month with the highest positive average, or "N/A" when none is positive; the lowest is the first month with the smallest average |
| Seasonal.AverageCases | backend/services/statistics_service.py:1062-1066 | the year count used is never 0 (a missing or zero count becomes 1), and the average is within 0.05 of cases per year |
| Seasonal.Pattern | backend/services/statistics_service.py:1058-1076 | the entry carries the month and its name; a month with no row averages 0 with share 0, and a zero total gives share 0 |
| MapService.RequiredProper | backend/services/map_service.py:114 | the always-present county condition is well formed |
| MapService.VictimClauses | backend/services/map_service.py:135-154 | one condition per given status, sex list, race list and minimum age |
| MapService.CrimeClauses | backend/services/map_service.py:155-175 | one condition per given maximum age, weapon, relationship and circumstance list |
| MapService.BuildMapFilter | backend/services/map_service.py:110-178 | the builder returns the county requirement followed by the active filters, or fails when the county is not an integer |
| MapService.AddVictim | backend/services/map_service.py:135-154 | adds the status, sex, race and minimum-age conditions and keeps the lists in step |
| MapService.AddCrime | backend/services/map_service.py:155-175 | adds the maximum-age, weapon, relationship and circumstance conditions and keeps the lists in step |
| MapService.MapClausesProper | backend/services/map_service.py:110-178 | every condition is balanced and non-empty |
| MapService.MapClauseCount | backend/services/map_service.py:110-178 | one condition for the county requirement plus one per active filter |
| MapService.MapPlaceholdersMatch | backend/services/map_service.py:110-178 | the text has exactly as many `?` as there are parameters |
| MapService.MapFilterNeverTrivial | backend/services/map_service.py:113-114 | the text always starts with the county requirement and is never `1=1` |
| MapService.IfAnyArgs | backend/services/map_service.py:140-175 | a list filter's parameters are the list, or nothing when it is empty |
| MapService.IfSomeArgs | backend/services/map_service.py:152-157 | an optional number's parameters are that number, or nothing |
| MapService.VictimArgs | backend/services/map_service.py:135-154 | the victim conditions take the solved flag, the sexes, the races and the minimum age, in that order |
| MapService.CrimeArgs | backend/services/map_service.py:155-175 | the crime conditions take the maximum age and the three lists, in that order |
| MapService.MapParameters | backend/services/map_service.py:117-175 | the parameters are the place and year values, then the victim values, then the crime values |
| MapService.MapQueryFails | backend/services/map_service.py:122-124 | the builder fails exactly when a non-empty county does not parse as an integer |
| MapService.FipsTextFacts | backend/services/map_service.py:292 | the FIPS text has at least five characters and parses back to a non-negative code |
| MapService.KeptRows | backend/services/map_service.py:273-284 | only rows with a county code that has centroid data are kept |
| MapService.StepKeeps | backend/services/map_service.py:273-304 | one row's step keeps the counties equal to the kept rows' data and the total equal to their sum |
| MapService.AggregateKeeps | backend/services/map_service.py:273-304 | the counties are exactly the kept rows, in order, each with its centroid, counts and solve rate; the total is the sum of their cases |
| MapService.StepCovers | backend/services/map_service.py:306-311 | one row's step keeps every county's centroid inside the extent |
| MapService.AggregateCovers | backend/services/map_service.py:306-311 | the extent contains every aggregated county's centroid |
| MapService.PaddingPositive | backend/services/map_service.py:318-319 | the padding is always positive (1 when the span is zero) |
| MapService.BoundsContain | backend/services/map_service.py:313-325 | the bounds stay within the caps and contain every centroid within the caps |
| MapService.BuildCountyAggregation | backend/services/map_service.py:262-325 | the loop returns the aggregation of the rows, and the bounds are the default box with no counties or else the padded, capped extent |
| MapService.AggregationBounds | backend/services/map_service.py:313-325 | with no counties the bounds are the continental default; otherwise they contain every county's centroid that lies within the caps |
| MapService.ClampLimit | backend/services/map_service.py:383 | the limit is clamped into 1..5000 and left alone inside it |
| MapService.CoordinatesFree | backend/services/map_service.py:402 | the coordinate requirement adds no placeholder |
| MapService.CasePointsPlaceholders | backend/services/map_service.py:401-402 | after the coordinate requirement is appended, the text still has exactly as many `?` as parameters |
| MapService.VictimAge | backend/services/map_service.py:450 | the 999 marker becomes no age; any other age is kept |
| MapService.BuildCasePoints | backend/services/map_service.py:430-455 | one point per fetched row, at most the clamped limit, in order; the total is the matching count; "limited" holds exactly when the total exceeds the limit |
| MapService.FipsText | backend/services/map_service.py:292 | at least five characters, and for a non-negative code it reads back as the code |
| MapService.Aggregate | backend/services/map_service.py:273-311 | at most one county per row, and every county kept lies inside the min/max latitude and longitude collected from the kept counties |
| MapService.Padding | backend/services/map_service.py:318-319 | the padding is never 0 (a zero span falls back to 1), and positive for a non-negative span |
| MapService.Bounds | backend/services/map_service.py:313-325 | no counties give the fixed default box; otherwise the padded box is capped at 72 north, 18 south, -66 east and -180 west |
| MapService.CasePoint | backend/services/map_service.py:443-452 | id and coordinates are copied, solved holds exactly for a non-zero status, and the age marker 999 never appears |
| Progress.ProgressState.constructor | backend/routes/setup.py:30-35 | a new tracker is idle at 0 of 894636 with no error |
| Progress.ProgressState.Update | backend/routes/setup.py:37-42 | sets the counts and stage and keeps the error |
| Progress.ProgressState.SetError | backend/routes/setup.py:44-48 | records the error and enters the error stage, keeping the counts |
| Progress.ProgressState.Reset | backend/routes/setup.py:50-56 | returns to the initial state |
| Progress.ProgressState.GetSnapshot | backend/routes/setup.py:58-70 | copies the fields; the percentage is the rounded share for a positive total and 0 otherwise, within 0..100 when current ≤ total, 100 when complete |
| Rounding.NearestInt | backend/analysis/clustering.py:386 | `round` lands within half a unit of its argument |
| Rounding.NearestIntMonotone | backend/analysis/clustering.py:386 | rounding is monotone |
| Rounding.Round1Within | backend/analysis/clustering.py:386 | rounding to one decimal keeps a value within integer bounds |
| Rounding.Round2Within | backend/services/timeline_service.py:180 | rounding to two decimals keeps a value within integer bounds |
| Rounding.PercentageRange | backend/analysis/clustering.py:385 | a rounded percentage of a part within the whole is within 0..100, 0 for none and 100 for all |
| Rounding.Round1 | backend/utils/geo.py:118 | rounding to one decimal moves the value by at most 0.05 |
| Rounding.Round2 | backend/services/timeline_service.py:180 | rounding to two decimals moves the value by at most 0.005 |
| Rounding.Percentage | backend/analysis/clustering.py:385 | the rounded percentage is within 0.05 of part/whole·100 |
| Text.NatToString | backend/services/map_service.py:292 | `str` of a natural number is a non-empty digit string without a leading zero |
| Text.ParseInt | backend/database/queries/cases.py:163-167 | `int` of text succeeds only on non-empty text |
| Text.ParseIntToString | backend/database/queries/cases.py:163-167 | `int(str(i)) == i` for every integer |
| Text.IntToStringInjective | backend/utils/geo.py:138-140 | distinct integers print differently |
| Text.SplitFirst | backend/database/queries/cases.py:162 | `split(":", 1)` succeeds exactly when there is a colon, and the parts join back around it |
| Text.SplitFirstOfConcat | backend/database/queries/cases.py:162 | splitting `a + ":" + b` with a colon-free `a` gives back `a` and `b` |
| Text.ZFill | backend/services/map_service.py:292 | `zfill` pads to the width and never shortens |
| Text.ParseZFilledNat | backend/services/map_service.py:292 | a zero-filled number parses back to itself |
| Text.Upper | backend/database/queries/cases.py:46 | upper-casing works character by character |

## Left out

- Haversine distance: it is a parameter of type `Distance` (`backend/utils/geo.py:11-52` is not part of this model). Only non-negativity and symmetry are assumed of it, through `requires`.
- Floating point is modelled with Dafny reals. NaN, infinities and binary rounding of decimal constants are absent. `round` is exact half-to-even on reals.
- SQL execution, the `COUNT` queries, the `ORDER BY`/`LIMIT` text and the database connection are left out. Rows arrive as inputs in the order the query returns them.
- CSV import, `data_loader.py`, schema creation, the county-centroid file loader and its cache are left out. The centroid table is a `map` input.
- `int()` accepting surrounding whitespace and underscores is not modelled. Such text is treated as invalid. A leading `+` or `-` sign is accepted, as in Python.
- `str.upper` is modelled for ASCII letters only.
- Components.Explore: the order of the returned ids and the list of scores are bounded, not fixed. The source (`backend/analysis/clustering.py:324-340`) lists ids in stack-pop order. It records one push-time score per neighbour pushed, duplicates included. The model promises distinct ids starting at the start id, forming the whole component, and scores at least the threshold. So a cluster's case order and its `avgSimilarityScore` are constrained (it is 0 or at least the rounded threshold) but not determined.
- SimilaritySearch.ScoreFactors: `vic_age` and `year` are nullable columns (`backend/database/schema.py:35,42`). For a NULL, `.get` returns `None` and `abs()` raises `TypeError` (`backend/analysis/similarity.py:217-235`). The model's `SearchCase` has integer `vicAge` and `year`, so that failure is not modelled. Only rows with both values present are covered.
- List filters: `None` and `[]` are both the empty sequence, since the source's truthiness tests treat them alike.
- The cluster service layer, the FastAPI routes, the Pydantic models and the logging are left out. The threading lock of the progress tracker is absent because Dafny methods run sequentially.
- The cluster id timestamp is a parameter (the clock is I/O).
- Seasonal.SeasonalStatistics: the source's fallback to "N/A" for the lowest month cannot fire (there are always twelve months and the first average is below infinity). The model proves that the lowest month is always a real month name instead of modelling the dead branch.
- Progress.ProgressState.GetSnapshot: the source returns the integer 0 when the total is not positive; the model returns 0.0.
- Breakdowns.ShareOf and the other rounded rates use Dafny reals, so `round` ties that binary floating point would break differently are not reproduced.

## Findings

| source | as written | input that shows it | evidently intended | confidence | as-written member | corrected member |
|---|---|---|---|---|---|---|
| backend/database/queries/cases.py:161-169 | the cursor condition with three placeholders is appended before `int(cursor_year)` is evaluated, so when the year part is not a number the condition stays in the list while its parameters are never added | cursor "abc:1": the `WHERE` text gains three `?` and the parameter list gains none, so the query has unbound placeholders | a cursor whose year does not parse adds neither condition nor parameters | not executed | CaseQueries.CursorAsWrittenUnbalanced | CaseQueries.BuildFilterQuery, CaseQueries.CasePlaceholdersMatch |
