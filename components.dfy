/**
 * The similarity graph of one county group and its connected components:
 * the adjacency lists built from the list of similar pairs, and the
 * explicit-stack depth-first search that collects one component.
 */
module Components {

  /** A pair of similar cases, by id, with their score. */
  datatype Edge = Edge(a: string, b: string, sim: real)

  /** Adjacency lists: for each id, its neighbours with the score of the pair. */
  type Adjacency = map<string, seq<(string, real)>>

  /** The ids of a neighbour list. */
  function Ids(ns: seq<(string, real)>): (r: seq<string>)
    ensures |r| == |ns|
    ensures forall k :: 0 <= k < |ns| ==> r[k] == ns[k].0
  {
    if ns == [] then [] else [ns[0].0] + Ids(ns[1..])
  }

  lemma IdsAppend(ns: seq<(string, real)>, ms: seq<(string, real)>)
    ensures Ids(ns + ms) == Ids(ns) + Ids(ms)
  {
  }

  /**
   * The neighbour list of `u` after appending, edge by edge, the far end of
   * every edge at `u`: first for the edge's first id, then for its second.
   */
  function Neighbours(es: seq<Edge>, u: string): seq<(string, real)> {
    if es == [] then []
    else
      var e := es[|es| - 1];
      Neighbours(es[..|es| - 1], u)
        + (if e.a == u then [(e.b, e.sim)] else [])
        + (if e.b == u then [(e.a, e.sim)] else [])
  }

  /** Ids in order of first appearance among the edges (the dictionary's key order). */
  function Nodes(es: seq<Edge>): seq<string> {
    if es == [] then []
    else
      var e := es[|es| - 1];
      var init := Nodes(es[..|es| - 1]);
      var withA := if e.a in init then init else init + [e.a];
      if e.b in withA then withA else withA + [e.b]
  }

  predicate Distinct(s: seq<string>) {
    forall i, j :: 0 <= i < j < |s| ==> s[i] != s[j]
  }

  /** The edge joins `u` and `v`, in either direction. */
  predicate Joins(e: Edge, u: string, v: string) {
    (e.a == u && e.b == v) || (e.a == v && e.b == u)
  }

  /** `u` and `v` are the two ends of some edge. */
  predicate Linked(es: seq<Edge>, u: string, v: string) {
    es != [] && (Linked(es[..|es| - 1], u, v) || Joins(es[|es| - 1], u, v))
  }

  /** `u` is an end of some edge. */
  predicate Touches(es: seq<Edge>, u: string) {
    es != [] && (Touches(es[..|es| - 1], u) || es[|es| - 1].a == u || es[|es| - 1].b == u)
  }

  /** The adjacency the edges describe. */
  function AdjacencyOf(es: seq<Edge>): Adjacency {
    map u | u in Nodes(es) :: Neighbours(es, u)
  }

  lemma {:induction false} NodesFacts(es: seq<Edge>)
    ensures Distinct(Nodes(es))
    ensures forall u :: u in Nodes(es) <==> Touches(es, u)
  {
    if es != [] {
      NodesFacts(es[..|es| - 1]);
    }
  }

  lemma {:induction false} NeighboursLinked(es: seq<Edge>, u: string, v: string)
    ensures v in Ids(Neighbours(es, u)) <==> Linked(es, u, v)
  {
    if es != [] {
      var init := es[..|es| - 1];
      var e := es[|es| - 1];
      var first := if e.a == u then [(e.b, e.sim)] else [];
      var second := if e.b == u then [(e.a, e.sim)] else [];
      NeighboursLinked(init, u, v);
      IdsAppend(Neighbours(init, u), first);
      IdsAppend(Neighbours(init, u) + first, second);
      assert Neighbours(es, u) == Neighbours(init, u) + first + second;
    }
  }

  lemma {:induction false} NeighboursOfStranger(es: seq<Edge>, u: string)
    requires !Touches(es, u)
    ensures Neighbours(es, u) == []
  {
    if es != [] {
      NeighboursOfStranger(es[..|es| - 1], u);
    }
  }

  lemma {:induction false} LinkedTouches(es: seq<Edge>, u: string, v: string)
    requires Linked(es, u, v)
    ensures Touches(es, u) && Touches(es, v) && Linked(es, v, u)
  {
    if Linked(es[..|es| - 1], u, v) {
      LinkedTouches(es[..|es| - 1], u, v);
    }
  }

  /** `defaultdict(list)` append: add `n` at the end of the list of `u`, creating it if absent. */
  function AppendTo(adj: Adjacency, u: string, n: (string, real)): (r: Adjacency)
    ensures r.Keys == adj.Keys + {u}
    ensures r[u] == (if u in adj then adj[u] else []) + [n]
    ensures forall w :: w in adj && w != u ==> r[w] == adj[w]
  {
    adj[u := (if u in adj then adj[u] else []) + [n]]
  }

  lemma Snoc(es: seq<Edge>, e: Edge, u: string)
    ensures Neighbours(es + [e], u) == Neighbours(es, u)
      + (if e.a == u then [(e.b, e.sim)] else [])
      + (if e.b == u then [(e.a, e.sim)] else [])
    ensures Touches(es + [e], u) <==> Touches(es, u) || e.a == u || e.b == u
    ensures Nodes(es + [e]) ==
      var withA := if e.a in Nodes(es) then Nodes(es) else Nodes(es) + [e.a];
      if e.b in withA then withA else withA + [e.b]
  {
    assert (es + [e])[..|es|] == es;
  }

  /** Key by key, appending both ends of one more edge gives the adjacency of `es + [e]`. */
  lemma AppendEdgeAt(es: seq<Edge>, e: Edge, u: string)
    ensures var r := AppendTo(AppendTo(AdjacencyOf(es), e.a, (e.b, e.sim)), e.b, (e.a, e.sim));
      (u in r <==> u in AdjacencyOf(es + [e])) && (u in r ==> r[u] == AdjacencyOf(es + [e])[u])
  {
    NodesFacts(es);
    NodesFacts(es + [e]);
    Snoc(es, e, u);
    if u !in AdjacencyOf(es) {
      NeighboursOfStranger(es, u);
    }
  }

  /** Appending both ends of one more edge turns the adjacency of `es` into that of `es + [e]`. */
  lemma AppendEdge(es: seq<Edge>, e: Edge)
    ensures AppendTo(AppendTo(AdjacencyOf(es), e.a, (e.b, e.sim)), e.b, (e.a, e.sim)) == AdjacencyOf(es + [e])
  {
    var r := AppendTo(AppendTo(AdjacencyOf(es), e.a, (e.b, e.sim)), e.b, (e.a, e.sim));
    var target := AdjacencyOf(es + [e]);
    forall u ensures (u in r <==> u in target) && (u in r ==> r[u] == target[u]) {
      AppendEdgeAt(es, e, u);
    }
    assert r.Keys == target.Keys;
  }

  /**
   * Appends, for every similar pair in order, each end to the other end's
   * list; keys are kept in order of first insertion.
   */
  method BuildAdjacency(es: seq<Edge>) returns (adj: Adjacency, order: seq<string>)
    ensures order == Nodes(es) && Distinct(order)
    ensures adj == AdjacencyOf(es)
  {
    adj := map[];
    order := [];
    for i := 0 to |es|
      invariant order == Nodes(es[..i])
      invariant adj == AdjacencyOf(es[..i])
    {
      var e := es[i];
      assert es[..i + 1] == es[..i] + [e];
      AppendEdge(es[..i], e);
      Snoc(es[..i], e, e.a);
      adj := AppendTo(adj, e.a, (e.b, e.sim));
      if e.a !in order {
        order := order + [e.a];
      }
      adj := AppendTo(adj, e.b, (e.a, e.sim));
      if e.b !in order {
        order := order + [e.b];
      }
    }
    assert es[..|es|] == es;
    NodesFacts(es);
  }

  /** The adjacency lists name exactly the pairs the edges join. */
  lemma AdjacencyOfLinked(es: seq<Edge>, u: string, v: string)
    ensures u in AdjacencyOf(es) <==> Touches(es, u)
    ensures u in AdjacencyOf(es) ==> (v in Ids(AdjacencyOf(es)[u]) <==> Linked(es, u, v))
  {
    NodesFacts(es);
    NeighboursLinked(es, u, v);
  }

  // ---------------------------------------------------------------------------
  // Paths and components
  // ---------------------------------------------------------------------------

  /** A list without repetition has as many entries as members. */
  lemma {:induction false} DistinctSize(s: seq<string>)
    requires Distinct(s)
    ensures |s| == |set x | x in s|
  {
    if s != [] {
      var init, last := s[..|s| - 1], s[|s| - 1];
      assert s == init + [last];
      assert Distinct(init) && last !in init;
      DistinctSize(init);
      assert (set x | x in s) == (set x | x in init) + {last};
    }
  }

  /** Two lists without repetition and with the same members have the same length. */
  lemma SameMembersSize(a: seq<string>, b: seq<string>)
    requires Distinct(a) && Distinct(b) && forall x :: x in a <==> x in b
    ensures |a| == |b|
  {
    DistinctSize(a);
    DistinctSize(b);
    assert (set x | x in a) == (set x | x in b);
  }

  /** Every neighbour named in a list is itself a key. */
  ghost predicate WellFormed(adj: Adjacency) {
    forall u, k :: u in adj && 0 <= k < |adj[u]| ==> adj[u][k].0 in adj
  }

  /** Every neighbour relation holds both ways. */
  ghost predicate Symmetric(adj: Adjacency) {
    forall u, v :: u in adj && v in Ids(adj[u]) ==> v in adj && u in Ids(adj[v])
  }

  /** Consecutive ids of `p` are neighbours. */
  ghost predicate IsPath(adj: Adjacency, p: seq<string>) {
    |p| >= 1 && p[|p| - 1] in adj
    && forall i :: 0 <= i < |p| - 1 ==> p[i] in adj && p[i + 1] in Ids(adj[p[i]])
  }

  ghost predicate Reachable(adj: Adjacency, u: string, v: string) {
    exists p :: IsPath(adj, p) && p[0] == u && p[|p| - 1] == v
  }

  /** No neighbour of a member of `s` lies outside `s`. */
  ghost predicate Closed(adj: Adjacency, s: set<string>) {
    forall u, k :: u in s && u in adj && 0 <= k < |adj[u]| ==> adj[u][k].0 in s
  }

  /** `ids` lists, without repetition, exactly the ids reachable from its first one. */
  ghost predicate IsComponent(adj: Adjacency, ids: seq<string>) {
    |ids| >= 1 && Distinct(ids)
    && (forall x :: x in ids ==> x in adj)
    && forall x :: x in ids <==> Reachable(adj, ids[0], x)
  }

  lemma AdjacencyOfWellFormed(es: seq<Edge>)
    ensures WellFormed(AdjacencyOf(es)) && Symmetric(AdjacencyOf(es))
  {
    var adj := AdjacencyOf(es);
    NodesFacts(es);
    forall u, v | u in adj && v in Ids(adj[u])
      ensures v in adj && u in Ids(adj[v])
    {
      NeighboursLinked(es, u, v);
      LinkedTouches(es, u, v);
      NeighboursLinked(es, v, u);
    }
    forall u, k | u in adj && 0 <= k < |adj[u]|
      ensures adj[u][k].0 in adj
    {
      assert adj[u][k].0 in Ids(adj[u]);
    }
  }

  /** A closed set holding the start of a path holds all of it. */
  lemma {:induction false} ClosedHoldsPath(adj: Adjacency, s: set<string>, p: seq<string>)
    requires Closed(adj, s) && IsPath(adj, p) && p[0] in s
    ensures forall i :: 0 <= i < |p| ==> p[i] in s
  {
    if |p| > 1 {
      var u := p[0];
      var k :| 0 <= k < |adj[u]| && adj[u][k].0 == p[1] by {
        assert p[1] in Ids(adj[u]);
      }
      assert p[1..][0] in s;
      ClosedHoldsPath(adj, s, p[1..]);
      forall i | 0 <= i < |p| ensures p[i] in s {
        if i > 0 {
          assert p[i] == p[1..][i - 1];
        }
      }
    }
  }

  function Reverse(p: seq<string>): (r: seq<string>)
    ensures |r| == |p| && forall i :: 0 <= i < |p| ==> r[i] == p[|p| - 1 - i]
  {
    if p == [] then [] else Reverse(p[1..]) + [p[0]]
  }

  /** In a symmetric adjacency, a path walked backwards is a path. */
  lemma ReversePath(adj: Adjacency, p: seq<string>)
    requires Symmetric(adj) && IsPath(adj, p)
    ensures IsPath(adj, Reverse(p))
  {
    var r := Reverse(p);
    forall i | 0 <= i < |r| - 1
      ensures r[i] in adj && r[i + 1] in Ids(adj[r[i]])
    {
      var j := |p| - 2 - i;
      assert r[i] == p[j + 1] && r[i + 1] == p[j];
      assert p[j] in adj && p[j + 1] in Ids(adj[p[j]]);
    }
    if |p| > 1 {
      assert p[0] in adj;
    }
  }

  lemma ReachableSymmetric(adj: Adjacency, u: string, v: string)
    requires Symmetric(adj) && Reachable(adj, u, v)
    ensures Reachable(adj, v, u)
  {
    var p :| IsPath(adj, p) && p[0] == u && p[|p| - 1] == v;
    ReversePath(adj, p);
    assert Reverse(p)[0] == v && Reverse(p)[|p| - 1] == u;
  }

  /** Paths chain: reaching `v` from `u` and `w` from `v` reaches `w` from `u`. */
  lemma ReachableTrans(adj: Adjacency, u: string, v: string, w: string)
    requires Reachable(adj, u, v) && Reachable(adj, v, w)
    ensures Reachable(adj, u, w)
  {
    var p :| IsPath(adj, p) && p[0] == u && p[|p| - 1] == v;
    var q :| IsPath(adj, q) && q[0] == v && q[|q| - 1] == w;
    var r := p + q[1..];
    forall i | 0 <= i < |r| - 1 ensures r[i] in adj && r[i + 1] in Ids(adj[r[i]]) {
      if i < |p| - 1 {
        assert r[i] == p[i] && r[i + 1] == p[i + 1];
      } else {
        var j := i - |p| + 1;
        assert r[i] == q[j] && r[i + 1] == q[j + 1];
      }
    }
    assert r[|r| - 1] == w;
    assert IsPath(adj, r);
  }

  /** Two components of a symmetric adjacency that share an id have the same members. */
  lemma SameComponent(adj: Adjacency, a: seq<string>, b: seq<string>, x: string)
    requires Symmetric(adj) && IsComponent(adj, a) && IsComponent(adj, b)
    requires x in a && x in b
    ensures forall y :: y in a <==> y in b
  {
    ReachableSymmetric(adj, a[0], x);
    ReachableSymmetric(adj, b[0], x);
    ReachableTrans(adj, a[0], x, b[0]);
    ReachableTrans(adj, b[0], x, a[0]);
    forall y ensures y in a <==> y in b {
      if y in a {
        ReachableTrans(adj, b[0], a[0], y);
      }
      if y in b {
        ReachableTrans(adj, a[0], b[0], y);
      }
    }
  }

  /** The ids of `ns` not in `visited`, in order: what one expansion pushes. */
  function Unvisited(ns: seq<(string, real)>, visited: set<string>): seq<string> {
    if ns == [] then []
    else
      var last := ns[|ns| - 1];
      Unvisited(ns[..|ns| - 1], visited) + (if last.0 !in visited then [last.0] else [])
  }

  /** One expansion pushes exactly the neighbours not yet visited. */
  lemma {:induction false} UnvisitedMembers(ns: seq<(string, real)>, visited: set<string>)
    ensures forall x :: x in Unvisited(ns, visited) <==> x in Ids(ns) && x !in visited
  {
    if ns != [] {
      var init, last := ns[..|ns| - 1], ns[|ns| - 1];
      var tail := if last.0 !in visited then [last.0] else [];
      UnvisitedMembers(init, visited);
      assert ns == init + [last];
      IdsAppend(init, [last]);
      assert Ids(ns) == Ids(init) + [last.0];
      assert Unvisited(ns, visited) == Unvisited(init, visited) + tail;
      forall x ensures x in Unvisited(ns, visited) <==> x in Ids(ns) && x !in visited {
        assert x in Unvisited(init, visited) + tail <==> x in Unvisited(init, visited) || x in tail;
        assert x in Ids(init) + [last.0] <==> x in Ids(init) || x == last.0;
      }
    }
  }

  /** The scores of the pairs one expansion pushes, in order. */
  function UnvisitedSims(ns: seq<(string, real)>, visited: set<string>): seq<real> {
    if ns == [] then []
    else
      var last := ns[|ns| - 1];
      UnvisitedSims(ns[..|ns| - 1], visited) + (if last.0 !in visited then [last.1] else [])
  }

  lemma {:induction false} UnvisitedSimsBounds(ns: seq<(string, real)>, visited: set<string>, lo: real)
    requires forall k :: 0 <= k < |ns| ==> lo <= ns[k].1
    ensures forall i :: 0 <= i < |UnvisitedSims(ns, visited)| ==> lo <= UnvisitedSims(ns, visited)[i]
  {
    if ns != [] {
      UnvisitedSimsBounds(ns[..|ns| - 1], visited, lo);
    }
  }

  lemma ReachableStep(adj: Adjacency, start: string, u: string, v: string)
    requires WellFormed(adj) && Reachable(adj, start, u) && u in adj && v in Ids(adj[u])
    ensures Reachable(adj, start, v)
  {
    var p :| IsPath(adj, p) && p[0] == start && p[|p| - 1] == u;
    var k :| 0 <= k < |adj[u]| && adj[u][k].0 == v;
    var q := p + [v];
    assert IsPath(adj, q);
  }

  /** Every id pushed on the stack and every id collected is reachable from `start`. */
  ghost predicate AllReachable(adj: Adjacency, start: string, s: seq<string>) {
    forall x :: x in s ==> x in adj && Reachable(adj, start, x)
  }

  /** Every neighbour of a collected id is visited or waiting on the stack. */
  ghost predicate Frontier(adj: Adjacency, comp: seq<string>, visited: set<string>, stack: seq<string>)
    requires forall x :: x in comp ==> x in adj
  {
    forall x, k :: x in comp && 0 <= k < |adj[x]| ==> adj[x][k].0 in visited || adj[x][k].0 in stack
  }

  /** Every score in `sims` is at least `lo`. */
  predicate AtLeast(sims: seq<real>, lo: real) {
    forall i :: 0 <= i < |sims| ==> lo <= sims[i]
  }

  /** Every pair of the adjacency scores at least `lo`. */
  ghost predicate ScoresAtLeast(adj: Adjacency, lo: real) {
    forall u, k :: u in adj && 0 <= k < |adj[u]| ==> lo <= adj[u][k].1
  }

  /** What holds of the search from `start` before each pop. */
  ghost predicate Searching(adj: Adjacency, start: string, visited0: set<string>, lo: real,
                            comp: seq<string>, sims: seq<real>, visited: set<string>, stack: seq<string>) {
    (forall x :: x in visited <==> x in visited0 || x in comp)
    && Distinct(comp)
    && (forall x :: x in comp ==> x !in visited0)
    && AllReachable(adj, start, comp) && AllReachable(adj, start, stack)
    && (comp == [] ==> stack == [start])
    && (comp != [] ==> comp[0] == start)
    && Frontier(adj, comp, visited, stack)
    && AtLeast(sims, lo)
  }

  /** Popping an id already visited keeps the search invariant. */
  lemma SkipStep(adj: Adjacency, start: string, visited0: set<string>, lo: real,
                 comp: seq<string>, sims: seq<real>, visited: set<string>, stack: seq<string>, current: string)
    requires Searching(adj, start, visited0, lo, comp, sims, visited, stack + [current])
    requires start !in visited0 && current in visited
    ensures Searching(adj, start, visited0, lo, comp, sims, visited, stack)
  {
    assert (stack + [current])[|stack|] == current;
    forall x, k | x in comp && 0 <= k < |adj[x]|
      ensures adj[x][k].0 in visited || adj[x][k].0 in stack
    {
      assert adj[x][k].0 in visited || adj[x][k].0 in stack + [current];
    }
  }

  /** The popped id and the neighbours it pushes are reachable, like everything before them. */
  lemma ExpandReachable(adj: Adjacency, start: string, comp: seq<string>, stack: seq<string>,
                        current: string, visited': set<string>)
    requires WellFormed(adj)
    requires AllReachable(adj, start, comp) && AllReachable(adj, start, stack + [current])
    ensures current in adj
    ensures AllReachable(adj, start, comp + [current])
    ensures AllReachable(adj, start, stack + Unvisited(adj[current], visited'))
  {
    assert current in stack + [current];
    var pushed := Unvisited(adj[current], visited');
    UnvisitedMembers(adj[current], visited');
    forall x | x in stack + pushed ensures x in adj && Reachable(adj, start, x) {
      if x in pushed {
        ReachableStep(adj, start, current, x);
      } else {
        assert x in stack + [current];
      }
    }
  }

  /** Every neighbour of the popped id is now visited or pushed. */
  lemma ExpandFrontier(adj: Adjacency, comp: seq<string>, visited: set<string>, stack: seq<string>, current: string)
    requires current in adj && forall x :: x in comp ==> x in adj
    requires Frontier(adj, comp, visited, stack + [current])
    ensures Frontier(adj, comp + [current], visited + {current}, stack + Unvisited(adj[current], visited + {current}))
  {
    var visited' := visited + {current};
    var pushed := Unvisited(adj[current], visited');
    UnvisitedMembers(adj[current], visited');
    forall x, k | x in comp + [current] && 0 <= k < |adj[x]|
      ensures adj[x][k].0 in visited' || adj[x][k].0 in stack + pushed
    {
      var y := adj[x][k].0;
      if x == current {
        assert y in Ids(adj[current]);
      } else {
        assert y in visited || y in stack + [current];
      }
    }
  }

  /** The scores pushed are scores of the adjacency, so they keep the lower bound. */
  lemma ExpandScores(adj: Adjacency, lo: real, sims: seq<real>, current: string, visited': set<string>)
    requires ScoresAtLeast(adj, lo) && current in adj && AtLeast(sims, lo)
    ensures AtLeast(sims + UnvisitedSims(adj[current], visited'), lo)
  {
    var added := UnvisitedSims(adj[current], visited');
    UnvisitedSimsBounds(adj[current], visited', lo);
    forall i | 0 <= i < |sims + added| ensures lo <= (sims + added)[i] {
      if i >= |sims| {
        assert (sims + added)[i] == added[i - |sims|];
      }
    }
  }

  /**
   * Marking the popped id visited, collecting it and pushing its unvisited
   * neighbours keeps the search invariant, and leaves fewer ids unvisited.
   */
  lemma ExpandStep(adj: Adjacency, start: string, visited0: set<string>, lo: real,
                   comp: seq<string>, sims: seq<real>, visited: set<string>, stack: seq<string>, current: string)
    requires WellFormed(adj) && ScoresAtLeast(adj, lo)
    requires Searching(adj, start, visited0, lo, comp, sims, visited, stack + [current])
    requires current !in visited
    ensures var visited' := visited + {current};
      Searching(adj, start, visited0, lo, comp + [current], sims + UnvisitedSims(adj[current], visited'),
                visited', stack + Unvisited(adj[current], visited'))
    ensures |adj.Keys - (visited + {current})| < |adj.Keys - visited|
  {
    var visited' := visited + {current};
    ExpandReachable(adj, start, comp, stack, current, visited');
    ExpandFrontier(adj, comp, visited, stack, current);
    ExpandScores(adj, lo, sims, current, visited');
    assert comp == [] ==> current == start by {
      assert (stack + [current])[|stack|] == current;
    }
    assert adj.Keys - visited == (adj.Keys - visited') + {current};
  }

  /** Pushes every neighbour not yet visited, with the score of its pair. */
  method PushUnvisited(ns: seq<(string, real)>, visited: set<string>, stack0: seq<string>, sims0: seq<real>)
    returns (stack: seq<string>, sims: seq<real>)
    ensures stack == stack0 + Unvisited(ns, visited)
    ensures sims == sims0 + UnvisitedSims(ns, visited)
  {
    stack, sims := stack0, sims0;
    for k := 0 to |ns|
      invariant stack == stack0 + Unvisited(ns[..k], visited)
      invariant sims == sims0 + UnvisitedSims(ns[..k], visited)
    {
      assert ns[..k + 1][..k] == ns[..k];
      var (neighbour, similarity) := ns[k];
      if neighbour !in visited {
        stack := stack + [neighbour];
        sims := sims + [similarity];
      }
    }
    assert ns[..|ns|] == ns;
  }

  /**
   * Collects the component of `start` with an explicit stack, marking ids
   * in `visited` as they are popped; `sims` records the score of every
   * pair pushed onto the stack.
   */
  method Explore(adj: Adjacency, start: string, visited0: set<string>, ghost lo: real)
    returns (comp: seq<string>, sims: seq<real>, visited: set<string>)
    requires WellFormed(adj) && start in adj && start !in visited0
    requires ScoresAtLeast(adj, lo)
    ensures |comp| >= 1 && comp[0] == start && Distinct(comp)
    ensures forall x :: x in comp ==> x in adj && x !in visited0 && Reachable(adj, start, x)
    ensures forall x :: x in visited <==> x in visited0 || x in comp
    ensures forall x, k :: x in comp && 0 <= k < |adj[x]| ==> adj[x][k].0 in visited
    ensures AtLeast(sims, lo)
  {
    comp := [];
    sims := [];
    visited := visited0;
    var stack := [start];
    assert IsPath(adj, [start]);
    while stack != []
      invariant Searching(adj, start, visited0, lo, comp, sims, visited, stack)
      decreases |adj.Keys - visited|, |stack|
    {
      var current := stack[|stack| - 1];
      ghost var full := stack;
      stack := stack[..|stack| - 1];
      assert full == stack + [current];
      if current !in visited {
        ExpandStep(adj, start, visited0, lo, comp, sims, visited, stack, current);
        visited := visited + {current};
        comp := comp + [current];
        stack, sims := PushUnvisited(adj[current], visited, stack, sims);
      } else {
        SkipStep(adj, start, visited0, lo, comp, sims, visited, stack, current);
      }
    }
  }

  /**
   * When everything visited before is closed and the adjacency is symmetric,
   * what one search collects is the whole component of its start.
   */
  lemma ExploreIsComponent(adj: Adjacency, start: string, visited0: set<string>, comp: seq<string>, visited: set<string>)
    requires WellFormed(adj) && Symmetric(adj) && Closed(adj, visited0)
    requires start in adj && start !in visited0
    requires |comp| >= 1 && comp[0] == start && Distinct(comp)
    requires forall x :: x in comp ==> x in adj && x !in visited0 && Reachable(adj, start, x)
    requires forall x :: x in visited <==> x in visited0 || x in comp
    requires forall x, k :: x in comp && 0 <= k < |adj[x]| ==> adj[x][k].0 in visited
    ensures Closed(adj, visited)
    ensures IsComponent(adj, comp)
  {
    forall x | Reachable(adj, start, x) ensures x in comp {
      var p :| IsPath(adj, p) && p[0] == start && p[|p| - 1] == x;
      ClosedHoldsPath(adj, visited, p);
      if x in visited0 {
        ReachableSymmetric(adj, start, x);
        var q :| IsPath(adj, q) && q[0] == x && q[|q| - 1] == start;
        ClosedHoldsPath(adj, visited0, q);
      }
    }
  }

  /** Without edges there is no component. */
  lemma NoComponentWithoutEdges()
    ensures forall comp :: !IsComponent(AdjacencyOf([]), comp)
  {
    forall comp ensures !IsComponent(AdjacencyOf([]), comp) {
      if |comp| >= 1 {
        assert comp[0] !in AdjacencyOf([]);
      }
    }
  }

  /** The components of `comps` share no id. */
  ghost predicate Separate(comps: seq<seq<string>>) {
    forall i, j, x :: 0 <= i < j < |comps| && x in comps[i] ==> x !in comps[j]
  }

  /**
   * What holds of the components found so far: each is whole, with scores at
   * least `lo`, no two share an id, and `visited` holds exactly their ids and
   * is closed under edges.
   */
  ghost predicate FoundSoFar(adj: Adjacency, lo: real, comps: seq<seq<string>>, sims: seq<seq<real>>,
                             visited: set<string>) {
    |sims| == |comps| && Closed(adj, visited)
    && (forall i :: 0 <= i < |comps| ==> IsComponent(adj, comps[i]) && AtLeast(sims[i], lo))
    && (forall i, x :: 0 <= i < |comps| && x in comps[i] ==> x in visited)
    && (forall x :: x in visited ==> exists i :: 0 <= i < |comps| && x in comps[i])
    && Separate(comps)
  }

  /** Exploring an unvisited id adds its whole component, apart from all earlier ones. */
  lemma FoundStep(adj: Adjacency, lo: real, comps: seq<seq<string>>, sims: seq<seq<real>>, visited: set<string>,
                  start: string, comp: seq<string>, compSims: seq<real>, visited': set<string>)
    requires WellFormed(adj) && Symmetric(adj) && FoundSoFar(adj, lo, comps, sims, visited)
    requires start in adj && start !in visited
    requires |comp| >= 1 && comp[0] == start && Distinct(comp)
    requires forall x :: x in comp ==> x in adj && x !in visited && Reachable(adj, start, x)
    requires forall x :: x in visited' <==> x in visited || x in comp
    requires forall x, k :: x in comp && 0 <= k < |adj[x]| ==> adj[x][k].0 in visited'
    requires AtLeast(compSims, lo)
    ensures FoundSoFar(adj, lo, comps + [comp], sims + [compSims], visited')
  {
    ExploreIsComponent(adj, start, visited, comp, visited');
    SeparateAppend(comps, comp, visited);
    var all := comps + [comp];
    forall x | x in visited' ensures exists i :: 0 <= i < |all| && x in all[i] {
      if x in visited {
        var i :| 0 <= i < |comps| && x in comps[i];
        assert all[i] == comps[i];
      } else {
        assert x in all[|comps|];
      }
    }
    forall i, x | 0 <= i < |all| && x in all[i] ensures x in visited' {
      if i < |comps| {
        assert all[i] == comps[i];
      }
    }
    forall i | 0 <= i < |all| ensures IsComponent(adj, all[i]) && AtLeast((sims + [compSims])[i], lo) {
      if i < |comps| {
        assert all[i] == comps[i];
      }
    }
  }

  /**
   * Walks the ids of `order` and explores the component of every id not yet
   * visited: the components found are whole, share no id and together hold
   * every id of `order`; `sims[i]` are the scores recorded for `comps[i]`.
   */
  method FindComponents(adj: Adjacency, order: seq<string>, ghost lo: real)
    returns (comps: seq<seq<string>>, sims: seq<seq<real>>)
    requires WellFormed(adj) && Symmetric(adj) && ScoresAtLeast(adj, lo)
    requires forall x :: x in order ==> x in adj
    ensures |sims| == |comps|
    ensures forall i :: 0 <= i < |comps| ==> IsComponent(adj, comps[i]) && AtLeast(sims[i], lo)
    ensures Separate(comps)
    ensures forall x :: x in order ==> exists i :: 0 <= i < |comps| && x in comps[i]
  {
    comps, sims := [], [];
    var visited: set<string> := {};
    for oi := 0 to |order|
      invariant FoundSoFar(adj, lo, comps, sims, visited)
      invariant forall x :: x in order[..oi] ==> x in visited
    {
      var id := order[oi];
      assert order[..oi + 1] == order[..oi] + [id];
      if id !in visited {
        var comp, compSims, visited' := Explore(adj, id, visited, lo);
        FoundStep(adj, lo, comps, sims, visited, id, comp, compSims, visited');
        comps, sims := comps + [comp], sims + [compSims];
        visited := visited';
      }
    }
    forall x | x in order ensures exists i :: 0 <= i < |comps| && x in comps[i] {
      assert order[..|order|] == order;
    }
  }

  lemma SeparateApart(comps: seq<seq<string>>, i: nat, j: nat, x: string)
    requires Separate(comps) && i < j < |comps| && x in comps[i]
    ensures x !in comps[j]
  {
  }

  /** A component of ids not visited before is separate from the components found so far. */
  lemma SeparateAppend(comps: seq<seq<string>>, comp: seq<string>, visited: set<string>)
    requires Separate(comps)
    requires forall i, x :: 0 <= i < |comps| && x in comps[i] ==> x in visited
    requires forall x :: x in comp ==> x !in visited
    ensures Separate(comps + [comp])
  {
    var all := comps + [comp];
    forall i, j, x | 0 <= i < j < |all| && x in all[i] ensures x !in all[j] {
      assert all[i] == comps[i];
    }
  }
}
