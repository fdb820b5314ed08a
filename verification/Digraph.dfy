/** Directed graphs over names, as values: paths, cycles, and what it means for a list of
    names to respect the edges.  This is the vocabulary in which the sort is specified. */
module Digraph {

  /** Every node with the names its edges lead to, in the order they were added. */
  type Relation = map<string, seq<string>>

  ghost predicate Edge(deps: Relation, u: string, v: string) {
    u in deps && v in deps[u]
  }

  ghost predicate Closed(deps: Relation) {
    forall u, v :: Edge(deps, u, v) ==> v in deps
  }

  ghost predicate Path(deps: Relation, p: seq<string>) {
    |p| > 0 && forall i, j :: 0 <= i < j < |p| && j == i + 1 ==> Edge(deps, p[i], p[j])
  }

  ghost predicate PathBetween(deps: Relation, p: seq<string>, u: string, v: string) {
    Path(deps, p) && p[0] == u && p[|p| - 1] == v
  }

  ghost predicate Reaches(deps: Relation, u: string, v: string) {
    exists p :: PathBetween(deps, p, u, v)
  }

  /** No path with at least one edge ends where it began. */
  ghost predicate Acyclic(deps: Relation) {
    forall p :: Path(deps, p) && |p| > 1 ==> p[0] != p[|p| - 1]
  }

  predicate Distinct(names: seq<string>) {
    forall i, j :: 0 <= i < j < |names| ==> names[i] != names[j]
  }

  /** `list` holds every name of the set exactly once. */
  ghost predicate Enumerates(names: set<string>, list: seq<string>) {
    Distinct(list) && forall k :: k in list <==> k in names
  }

  lemma EnumeratesOneMore(names: set<string>, list: seq<string>, k: string)
    requires Enumerates(names, list) && k !in names
    ensures Enumerates(names + {k}, list + [k])
  {
  }

  /** `order` names every node exactly once. */
  ghost predicate Lists(deps: Relation, order: seq<string>) {
    Enumerates(deps.Keys, order)
  }

  /** Every edge leads forward in `order`. */
  ghost predicate Topological(deps: Relation, order: seq<string>) {
    forall i, j :: 0 <= i < |order| && 0 <= j < |order| && Edge(deps, order[i], order[j]) ==> i < j
  }

  /** Every edge leads backward in `order`: the order of the router, parents first. */
  ghost predicate ReverseTopological(deps: Relation, order: seq<string>) {
    forall i, j :: 0 <= i < |order| && 0 <= j < |order| && Edge(deps, order[i], order[j]) ==> j < i
  }

  /** Every edge leads forward in `order`, unless its two ends lie on a common cycle. */
  ghost predicate TopologicalUpToCycles(deps: Relation, order: seq<string>) {
    forall i, j :: 0 <= i < |order| && 0 <= j < |order| && Edge(deps, order[i], order[j]) ==>
                     i < j || Reaches(deps, order[j], order[i])
  }

  ghost predicate SameComponent(deps: Relation, u: string, v: string) {
    Reaches(deps, u, v) && Reaches(deps, v, u)
  }

  /** `u` stands before `v`, or is `v`. */
  ghost predicate Precedes(order: seq<string>, u: string, v: string) {
    exists i, j :: 0 <= i <= j < |order| && order[i] == u && order[j] == v
  }

  /** Whatever a node reaches stands behind some node of its component: so a node on no cycle stands
      before everything it reaches. */
  ghost predicate ComponentsLead(deps: Relation, order: seq<string>) {
    forall u, v :: u in deps && Reaches(deps, u, v) ==> ComponentPrecedes(deps, order, u, v)
  }

  ghost predicate ComponentPrecedes(deps: Relation, order: seq<string>, u: string, v: string) {
    exists w :: SameComponent(deps, w, u) && Precedes(order, w, v)
  }

  lemma ReachesItself(deps: Relation, u: string)
    ensures Reaches(deps, u, u)
  {
    assert PathBetween(deps, [u], u, u);
  }

  lemma ReachesFurther(deps: Relation, u: string, v: string, w: string)
    requires Reaches(deps, u, v) && Edge(deps, v, w)
    ensures Reaches(deps, u, w)
  {
    var p :| PathBetween(deps, p, u, v);
    assert PathBetween(deps, p + [w], u, w);
  }

  lemma ReachesThrough(deps: Relation, u: string, v: string, w: string)
    requires Reaches(deps, u, v) && Reaches(deps, v, w)
    ensures Reaches(deps, u, w)
  {
    var p :| PathBetween(deps, p, u, v);
    var q :| PathBetween(deps, q, v, w);
    var r := p + q[1..];
    forall i, j | 0 <= i < j < |r| && j == i + 1
      ensures Edge(deps, r[i], r[j])
    {
      if i >= |p| - 1 {
        assert r[i] == q[i - |p| + 1] && r[j] == q[j - |p| + 1];
      }
    }
    assert PathBetween(deps, r, u, w);
  }

  /** Along a path, positions in a topological order strictly increase. */
  lemma {:induction false} PathGoesForward(deps: Relation, order: seq<string>, p: seq<string>, i: nat, j: nat)
    requires Closed(deps) && Lists(deps, order) && Topological(deps, order)
    requires Path(deps, p) && |p| > 1
    requires i < |order| && j < |order| && order[i] == p[0] && order[j] == p[|p| - 1]
    ensures i < j
  {
    var q := p[..|p| - 1];
    assert Edge(deps, p[|p| - 2], p[|p| - 1]);
    if |q| > 1 {
      assert q[|q| - 1] in deps;
      var k :| 0 <= k < |order| && order[k] == q[|q| - 1];
      PathGoesForward(deps, order, q, i, k);
      assert Edge(deps, order[k], order[j]);
    }
  }

  lemma EdgeOnCycle(deps: Relation, u: string, v: string)
    requires Edge(deps, u, v) && Reaches(deps, v, u)
    ensures !Acyclic(deps)
  {
    var p :| PathBetween(deps, p, v, u);
    var cycle := [u] + p;
    assert Path(deps, cycle) && |cycle| > 1 && cycle[0] == cycle[|cycle| - 1];
  }

  /** A list that is topological up to cycles is topological exactly when there is no cycle. */
  lemma TopologicalIffAcyclic(deps: Relation, order: seq<string>)
    requires Closed(deps) && Lists(deps, order) && TopologicalUpToCycles(deps, order)
    ensures Topological(deps, order) <==> Acyclic(deps)
  {
    if Acyclic(deps) {
      forall i, j | 0 <= i < |order| && 0 <= j < |order| && Edge(deps, order[i], order[j])
        ensures i < j
      {
        if Reaches(deps, order[j], order[i]) {
          EdgeOnCycle(deps, order[i], order[j]);
        }
      }
    }
    if Topological(deps, order) {
      forall p | Path(deps, p) && |p| > 1
        ensures p[0] != p[|p| - 1]
      {
        assert Edge(deps, p[0], p[1]) && Edge(deps, p[|p| - 2], p[|p| - 1]);
        var i :| 0 <= i < |order| && order[i] == p[0];
        var j :| 0 <= j < |order| && order[j] == p[|p| - 1];
        PathGoesForward(deps, order, p, i, j);
      }
    }
  }

  /** A node on no cycle stands before every other node it reaches. */
  lemma OffCyclesPrecedes(deps: Relation, order: seq<string>, u: string, v: string)
    requires ComponentsLead(deps, order) && u in deps && Reaches(deps, u, v)
    requires forall w :: SameComponent(deps, w, u) ==> w == u
    ensures Precedes(order, u, v)
  {
    assert ComponentPrecedes(deps, order, u, v);
  }

  /** Nodes on a common cycle aside, some node of the one component stands strictly before the other. */
  lemma ComponentStrictlyPrecedes(deps: Relation, order: seq<string>, u: string, v: string)
    returns (w: string, i: nat, j: nat)
    requires ComponentsLead(deps, order) && u in deps && Reaches(deps, u, v) && !Reaches(deps, v, u)
    ensures SameComponent(deps, w, u) && i < j < |order| && order[i] == w && order[j] == v
  {
    assert ComponentPrecedes(deps, order, u, v);
    w :| SameComponent(deps, w, u) && Precedes(order, w, v);
    i, j := Positions(order, w, v);
  }

  lemma Positions(order: seq<string>, u: string, v: string) returns (i: nat, j: nat)
    requires Precedes(order, u, v)
    ensures i <= j < |order| && order[i] == u && order[j] == v
  {
    i, j :| 0 <= i <= j < |order| && order[i] == u && order[j] == v;
  }

  /** The variables of the search: the visited names, and the list that is pushed to at the front. */
  datatype SearchState = SearchState(visited: set<string>, order: seq<string>)

  /** The recursive search as a function: visiting the nodes `ns` one after the other.  It terminates on
      every graph, cycles included, since a node is marked before its dependencies are followed. */
  function VisitAll(deps: Relation, s: SearchState, ns: seq<string>): (t: SearchState)
    ensures s.visited <= t.visited
    decreases deps.Keys - s.visited, |ns|
  {
    if ns == [] then s
    else if ns[0] in s.visited || ns[0] !in deps then VisitAll(deps, s, ns[1..])
    else
      var inner := VisitAll(deps, s.(visited := s.visited + {ns[0]}), deps[ns[0]]);
      VisitAll(deps, SearchState(inner.visited, [ns[0]] + inner.order), ns[1..])
  }

  /** Visiting one node after the other. */
  lemma VisitFirst(deps: Relation, s: SearchState, ns: seq<string>)
    requires ns != []
    ensures VisitAll(deps, s, ns) == VisitAll(deps, VisitAll(deps, s, [ns[0]]), ns[1..])
  {
    assert [ns[0]][1..] == [];
  }

  lemma {:induction false} VisitLast(deps: Relation, s: SearchState, ns: seq<string>, n: string)
    ensures VisitAll(deps, s, ns + [n]) == VisitAll(deps, VisitAll(deps, s, ns), [n])
    decreases ns
  {
    if ns == [] {
      assert ns + [n] == [n];
    } else {
      VisitFirst(deps, s, ns);
      VisitFirst(deps, s, ns + [n]);
      assert (ns + [n])[1..] == ns[1..] + [n];
      VisitLast(deps, VisitAll(deps, s, [ns[0]]), ns[1..], n);
    }
  }

  /** The sort, when the map hands out its nodes in the order of `iteration`. */
  function SortBy(deps: Relation, iteration: seq<string>): seq<string> {
    VisitAll(deps, SearchState({}, []), iteration).order
  }

  /** `order` is what the sort gives for some order of iteration. */
  ghost predicate CanSort(deps: Relation, order: seq<string>) {
    exists iteration :: Lists(deps, iteration) && order == SortBy(deps, iteration)
  }

  /** The depth-first search invariant.  Nodes in `order` are finished, nodes in `grey` are in
      progress, all others are unvisited.  An edge of a finished node leads to a visited node
      that finished earlier (so stands later in the front-pushed `order`) or that reaches the
      edge's origin; and whatever a finished node reaches stands behind some node of its component,
      unless one of that component is still in progress. */
  ghost predicate SearchInvariant(deps: Relation, grey: set<string>, s: SearchState) {
    && s.visited <= deps.Keys
    && Distinct(s.order)
    && (forall k :: k in s.visited <==> k in grey || k in s.order)
    && (forall k :: k in grey ==> k !in s.order)
    && EdgesSettled(deps, s)
    && ComponentsSettled(deps, grey, s.order)
  }

  ghost predicate EdgesSettled(deps: Relation, s: SearchState) {
    forall i, v :: 0 <= i < |s.order| && Edge(deps, s.order[i], v) ==> EdgeSettled(deps, s, i, v)
  }

  ghost predicate EdgeSettled(deps: Relation, s: SearchState, i: int, v: string)
    requires 0 <= i < |s.order|
  {
    v in s.visited && (v in s.order[i + 1..] || Reaches(deps, v, s.order[i]))
  }

  ghost predicate ComponentsSettled(deps: Relation, grey: set<string>, order: seq<string>) {
    forall u, v :: u in order && Reaches(deps, u, v) ==> ComponentSettled(deps, grey, order, u, v)
  }

  ghost predicate ComponentSettled(deps: Relation, grey: set<string>, order: seq<string>, u: string, v: string) {
    exists w :: SameComponent(deps, w, u) && (w in grey || Precedes(order, w, v))
  }

  ghost predicate AllReach(deps: Relation, grey: set<string>, n: string) {
    forall g :: g in grey ==> Reaches(deps, g, n)
  }

  /** Starting on an unvisited node that everything in progress reaches. */
  lemma StartNode(deps: Relation, grey: set<string>, s: SearchState, n: string)
    requires SearchInvariant(deps, grey, s) && AllReach(deps, grey, n)
    requires n in deps && n !in s.visited
    ensures SearchInvariant(deps, grey + {n}, s.(visited := s.visited + {n})) && AllReach(deps, grey + {n}, n)
  {
    var t := s.(visited := s.visited + {n});
    ReachesItself(deps, n);
    forall i, v | 0 <= i < |s.order| && Edge(deps, s.order[i], v)
      ensures EdgeSettled(deps, t, i, v)
    {
      assert EdgeSettled(deps, s, i, v);
    }
    forall u, v | u in s.order && Reaches(deps, u, v)
      ensures ComponentSettled(deps, grey + {n}, s.order, u, v)
    {
      assert ComponentSettled(deps, grey, s.order, u, v);
    }
  }

  lemma FollowEdge(deps: Relation, grey: set<string>, n: string, v: string)
    requires AllReach(deps, grey, n) && Edge(deps, n, v)
    ensures AllReach(deps, grey, v)
  {
    forall g | g in grey
      ensures Reaches(deps, g, v)
    {
      ReachesFurther(deps, g, n, v);
    }
  }

  /** When `n` is about to finish and is alone of its component in progress, everything on a path from
      it has finished. */
  lemma {:induction false} PathHasFinished(deps: Relation, grey: set<string>, s: SearchState, n: string, p: seq<string>)
    requires SearchInvariant(deps, grey + {n}, s) && AllReach(deps, grey + {n}, n)
    requires n in deps && forall v :: v in deps[n] ==> v in s.visited
    requires forall g :: g in grey ==> !SameComponent(deps, g, n)
    requires Path(deps, p) && p[0] == n
    ensures p[|p| - 1] == n || p[|p| - 1] in s.order
  {
    if |p| > 1 {
      var q, v := p[..|p| - 1], p[|p| - 1];
      var u := q[|q| - 1];
      PathHasFinished(deps, grey, s, n, q);
      assert Edge(deps, p[|p| - 2], p[|p| - 1]);
      if u != n {
        var i :| 0 <= i < |s.order| && s.order[i] == u;
        assert EdgeSettled(deps, s, i, v);
      }
      assert PathBetween(deps, p, n, v);
    }
  }

  /** Finishing node `n`, whose edges have all been followed. */
  lemma FinishNode(deps: Relation, grey: set<string>, s: SearchState, n: string)
    requires SearchInvariant(deps, grey + {n}, s) && AllReach(deps, grey + {n}, n)
    requires n !in grey && n in deps
    requires forall v :: v in deps[n] ==> v in s.visited
    ensures SearchInvariant(deps, grey, s.(order := [n] + s.order))
  {
    var t := s.(order := [n] + s.order);
    FinishSettlesEdges(deps, grey, s, n);
    forall u, v | u in t.order && Reaches(deps, u, v)
      ensures ComponentSettled(deps, grey, t.order, u, v)
    {
      FinishSettlesComponent(deps, grey, s, n, u, v);
    }
  }

  lemma FinishSettlesEdges(deps: Relation, grey: set<string>, s: SearchState, n: string)
    requires SearchInvariant(deps, grey + {n}, s) && AllReach(deps, grey + {n}, n) && n in deps
    requires forall v :: v in deps[n] ==> v in s.visited
    ensures EdgesSettled(deps, s.(order := [n] + s.order))
  {
    var t := s.(order := [n] + s.order);
    ReachesItself(deps, n);
    forall i, v | 0 <= i < |t.order| && Edge(deps, t.order[i], v)
      ensures EdgeSettled(deps, t, i, v)
    {
      assert t.order[i + 1..] == s.order[i..];
      if i > 0 {
        assert EdgeSettled(deps, s, i - 1, v);
      } else {
        assert s.order[0..] == s.order;
      }
    }
  }

  lemma FinishSettlesComponent(deps: Relation, grey: set<string>, s: SearchState, n: string, u: string, v: string)
    requires SearchInvariant(deps, grey + {n}, s) && AllReach(deps, grey + {n}, n) && n in deps
    requires forall v :: v in deps[n] ==> v in s.visited
    requires u == n || u in s.order
    requires Reaches(deps, u, v)
    ensures ComponentSettled(deps, grey, [n] + s.order, u, v)
  {
    ReachesItself(deps, n);
    var w := n;
    if u != n {
      assert ComponentSettled(deps, grey + {n}, s.order, u, v);
      w :| SameComponent(deps, w, u) && (w in grey + {n} || Precedes(s.order, w, v));
    }
    if w !in grey + {n} || (w in s.order && w != n) {
      PrecedesBehind(n, s.order, w, v);
    } else if w == n {
      ReachesThrough(deps, n, u, v);
      FinishedLeads(deps, grey, s, n, v);
      var g :| SameComponent(deps, g, n) && (g in grey || Precedes([n] + s.order, g, v));
      ReachesThrough(deps, g, n, u);
      ReachesThrough(deps, u, n, g);
    }
  }

  lemma PrecedesBehind(n: string, order: seq<string>, u: string, v: string)
    requires Precedes(order, u, v)
    ensures Precedes([n] + order, u, v)
  {
    var i, j :| 0 <= i <= j < |order| && order[i] == u && order[j] == v;
    assert ([n] + order)[i + 1] == u && ([n] + order)[j + 1] == v;
  }

  /** A node that finishes stands before everything it reaches, unless its component is in progress. */
  lemma FinishedLeads(deps: Relation, grey: set<string>, s: SearchState, n: string, v: string)
    requires SearchInvariant(deps, grey + {n}, s) && AllReach(deps, grey + {n}, n) && n in deps
    requires forall v :: v in deps[n] ==> v in s.visited
    requires Reaches(deps, n, v)
    ensures ComponentSettled(deps, grey, [n] + s.order, n, v)
  {
    var order := [n] + s.order;
    if g :| g in grey && SameComponent(deps, g, n) {
    } else {
      var p :| PathBetween(deps, p, n, v);
      PathHasFinished(deps, grey, s, n, p);
      ReachesItself(deps, n);
      assert order[1..] == s.order && v in order;
      var j :| 0 <= j < |order| && order[j] == v;
      assert order[0] == n && Precedes(order, n, v);
    }
  }

  ghost predicate EndsWith(order: seq<string>, end: seq<string>) {
    |end| <= |order| && order[|order| - |end|..] == end
  }

  /** Visiting nodes that everything in progress reaches: they are all visited afterwards, what was in
      progress still is, and the list has only grown at its front. */
  lemma {:induction false} SearchKeepsInvariant(deps: Relation, grey: set<string>, s: SearchState, ns: seq<string>)
    requires Closed(deps) && SearchInvariant(deps, grey, s)
    requires forall v :: v in ns ==> v in deps && AllReach(deps, grey, v)
    ensures SearchInvariant(deps, grey, VisitAll(deps, s, ns))
    ensures forall v :: v in ns ==> v in VisitAll(deps, s, ns).visited
    ensures EndsWith(VisitAll(deps, s, ns).order, s.order)
    decreases deps.Keys - s.visited, |ns|
  {
    if ns != [] {
      var n, rest := ns[0], ns[1..];
      assert forall v :: v in ns ==> v == n || v in rest;
      var next := s;
      if n !in s.visited {
        next := VisitNode(deps, grey, s, n);
      }
      SearchKeepsInvariant(deps, grey, next, rest);
      var t := VisitAll(deps, next, rest);
      assert t == VisitAll(deps, s, ns);
      EndsWithThrough(t.order, next.order, s.order);
    }
  }

  /** The visit of one unvisited node, which it leaves at the front of the list. */
  lemma {:induction false} VisitNode(deps: Relation, grey: set<string>, s: SearchState, n: string)
    returns (t: SearchState)
    requires Closed(deps) && SearchInvariant(deps, grey, s)
    requires n in deps && AllReach(deps, grey, n) && n !in s.visited
    ensures var inner := VisitAll(deps, s.(visited := s.visited + {n}), deps[n]);
            t == SearchState(inner.visited, [n] + inner.order)
    ensures SearchInvariant(deps, grey, t) && n in t.visited && EndsWith(t.order, s.order)
    ensures forall v :: v in deps[n] ==> v in t.visited
    decreases deps.Keys - s.visited, 0
  {
    var start := s.(visited := s.visited + {n});
    StartNode(deps, grey, s, n);
    forall v | v in deps[n]
      ensures v in deps && AllReach(deps, grey + {n}, v)
    {
      assert Edge(deps, n, v);
      FollowEdge(deps, grey + {n}, n, v);
    }
    SearchKeepsInvariant(deps, grey + {n}, start, deps[n]);
    var inner := VisitAll(deps, start, deps[n]);
    FinishNode(deps, grey, inner, n);
    t := SearchState(inner.visited, [n] + inner.order);
    assert EndsWith(t.order, inner.order);
    EndsWithThrough(t.order, inner.order, s.order);
  }

  lemma EndsWithThrough(a: seq<string>, b: seq<string>, c: seq<string>)
    requires EndsWith(a, b) && EndsWith(b, c)
    ensures EndsWith(a, c)
  {
    assert a[|a| - |c|..] == a[|a| - |b|..][|b| - |c|..];
  }

  /** The sort, for every graph and every order of iteration: each node once, every edge forward unless
      on a cycle, every component before what it reaches. */
  lemma SortMeaning(deps: Relation, order: seq<string>)
    requires Closed(deps) && CanSort(deps, order)
    ensures Lists(deps, order) && TopologicalUpToCycles(deps, order) && ComponentsLead(deps, order)
  {
    var iteration :| Lists(deps, iteration) && order == SortBy(deps, iteration);
    SearchKeepsInvariant(deps, {}, SearchState({}, []), iteration);
    SearchDone(deps, VisitAll(deps, SearchState({}, []), iteration));
  }

  /** A search that has finished every node. */
  lemma SearchDone(deps: Relation, s: SearchState)
    requires SearchInvariant(deps, {}, s) && s.visited == deps.Keys
    ensures Lists(deps, s.order) && TopologicalUpToCycles(deps, s.order) && ComponentsLead(deps, s.order)
  {
    forall i, j | 0 <= i < |s.order| && 0 <= j < |s.order| && Edge(deps, s.order[i], s.order[j])
      ensures i < j || Reaches(deps, s.order[j], s.order[i])
    {
      assert EdgeSettled(deps, s, i, s.order[j]);
      if s.order[j] in s.order[i + 1..] {
        var k :| 0 <= k < |s.order[i + 1..]| && s.order[i + 1..][k] == s.order[j];
        assert s.order[i + 1 + k] == s.order[j];
      }
    }
    forall u, v | u in deps && Reaches(deps, u, v)
      ensures ComponentPrecedes(deps, s.order, u, v)
    {
      assert ComponentSettled(deps, {}, s.order, u, v);
    }
  }

  /** The names of a set, in some order. */
  lemma {:induction false} ListNames(names: set<string>) returns (list: seq<string>)
    ensures Enumerates(names, list)
    decreases names
  {
    if names == {} {
      return [];
    }
    var k :| k in names;
    var rest := ListNames(names - {k});
    list := [k] + rest;
  }

  /** Some order of iteration puts a node before everything an edge leads to: the one that starts there. */
  lemma StartingAt(deps: Relation, n: string) returns (order: seq<string>)
    requires Closed(deps) && n in deps
    ensures CanSort(deps, order)
    ensures forall v :: Edge(deps, n, v) ==> Precedes(order, n, v)
  {
    var rest := ListNames(deps.Keys - {n});
    var iteration := [n] + rest;
    assert Lists(deps, iteration) && iteration[1..] == rest;
    order := SortBy(deps, iteration);
    var first := VisitNode(deps, {}, SearchState({}, []), n);
    SearchKeepsInvariant(deps, {}, first, rest);
    assert VisitAll(deps, SearchState({}, []), iteration) == VisitAll(deps, first, rest);
    forall v | Edge(deps, n, v)
      ensures Precedes(order, n, v)
    {
      HeadPrecedes(order, first.order, v);
    }
  }

  lemma HeadPrecedes(order: seq<string>, end: seq<string>, v: string)
    requires EndsWith(order, end) && v in end
    ensures Precedes(order, end[0], v)
  {
    var l := |order| - |end|;
    var j :| 0 <= j < |end| && end[j] == v;
    assert order[l..][0] == end[0] && order[l..][j] == v;
    assert order[l] == end[0] && order[l + j] == v;
  }
}
