/**
 * The pair loop of cluster detection, `for i in range(n): for j in range(i + 1, n)`,
 * as the concatenation of the edges each pair contributes, row by row.
 */
module Pairs {
  import opened Clustering
  import opened Components

  /** Scores a pair of cases into the edges it contributes. */
  type Pairing = (Case, Case) -> seq<Edge>

  /** Edges f(group[i], group[m]) for i < m < j, in order of m. */
  function RowPairs(group: seq<Case>, i: nat, j: nat, f: Pairing): seq<Edge>
    requires i < j <= |group|
    decreases j
  {
    if j == i + 1 then []
    else RowPairs(group, i, j - 1, f) + f(group[i], group[j - 1])
  }

  /** Edges of the rows before `i`. */
  function PairsBefore(group: seq<Case>, i: nat, f: Pairing): seq<Edge>
    requires i <= |group|
  {
    if i == 0 then []
    else PairsBefore(group, i - 1, f) + RowPairs(group, i - 1, |group|, f)
  }

  lemma {:induction false} RowPairsMembers(group: seq<Case>, i: nat, j: nat, f: Pairing, e: Edge)
    requires i < j <= |group|
    ensures e in RowPairs(group, i, j, f) <==> exists m :: i < m < j && e in f(group[i], group[m])
    decreases j
  {
    if e in RowPairs(group, i, j, f) {
      RowPairsSound(group, i, j, f, e);
    }
    if exists m :: i < m < j && e in f(group[i], group[m]) {
      var m :| i < m < j && e in f(group[i], group[m]);
      RowPairsComplete(group, i, j, f, e, m);
    }
  }

  /** An edge of row `i` before `j` comes from some pair (i, m) with i < m < j. */
  lemma {:induction false} RowPairsSound(group: seq<Case>, i: nat, j: nat, f: Pairing, e: Edge)
    requires i < j <= |group| && e in RowPairs(group, i, j, f)
    ensures exists m :: i < m < j && e in f(group[i], group[m])
    decreases j
  {
    if e in RowPairs(group, i, j - 1, f) {
      RowPairsSound(group, i, j - 1, f, e);
    } else {
      assert i < j - 1 < j && e in f(group[i], group[j - 1]);
    }
  }

  /** The edges of a pair (i, m) with i < m < j are in row `i` before `j`. */
  lemma {:induction false} RowPairsComplete(group: seq<Case>, i: nat, j: nat, f: Pairing, e: Edge, m: nat)
    requires i < m < j <= |group| && e in f(group[i], group[m])
    ensures e in RowPairs(group, i, j, f)
    decreases j
  {
    if m < j - 1 {
      RowPairsComplete(group, i, j - 1, f, e, m);
    }
  }

  lemma {:induction false} PairsBeforeMembers(group: seq<Case>, i: nat, f: Pairing, e: Edge)
    requires i <= |group|
    ensures e in PairsBefore(group, i, f) <==>
      exists a, b :: 0 <= a < i && a < b < |group| && e in f(group[a], group[b])
  {
    if e in PairsBefore(group, i, f) {
      PairsBeforeSound(group, i, f, e);
    }
    if exists a, b :: 0 <= a < i && a < b < |group| && e in f(group[a], group[b]) {
      var a, b :| 0 <= a < i && a < b < |group| && e in f(group[a], group[b]);
      PairsBeforeComplete(group, i, f, e, a, b);
    }
  }

  /** An edge of the rows before `i` comes from some pair a < b with a < i. */
  lemma {:induction false} PairsBeforeSound(group: seq<Case>, i: nat, f: Pairing, e: Edge)
    requires i <= |group| && e in PairsBefore(group, i, f)
    ensures exists a, b :: 0 <= a < i && a < b < |group| && e in f(group[a], group[b])
  {
    if e in PairsBefore(group, i - 1, f) {
      PairsBeforeSound(group, i - 1, f, e);
      var a, b :| 0 <= a < i - 1 && a < b < |group| && e in f(group[a], group[b]);
      assert 0 <= a < i;
    } else {
      RowPairsSound(group, i - 1, |group|, f, e);
      var m :| i - 1 < m < |group| && e in f(group[i - 1], group[m]);
      assert 0 <= i - 1 < i;
    }
  }

  /** The edge of a pair a < b with a < i is among the edges of the rows before `i`. */
  lemma {:induction false} PairsBeforeComplete(group: seq<Case>, i: nat, f: Pairing, e: Edge, a: nat, b: nat)
    requires i <= |group| && a < i && a < b < |group| && e in f(group[a], group[b])
    ensures e in PairsBefore(group, i, f)
  {
    if a < i - 1 {
      PairsBeforeComplete(group, i - 1, f, e, a, b);
    } else {
      RowPairsComplete(group, i - 1, |group|, f, e, b);
    }
  }
}
