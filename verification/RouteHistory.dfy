/** The route graph over many rounds: routesMap is reset after each Build, the graph never is. */
module RouteHistory {
  import opened Digraph
  import opened DependencyGraph
  import opened Wrappers
  import opened Terraform
  import opened Routes

  /** What successful Builds of `gens`, one after the other, leave in a new graph. */
  function Accumulated(gens: seq<Generation>): (c: Content<Route>)
    ensures Wf(c)
  {
    if gens == [] then Content(map[], map[])
    else Merge(Accumulated(gens[..|gens| - 1]), gens[|gens| - 1])
  }

  predicate AllBuildable(gens: seq<Generation>) {
    forall i :: 0 <= i < |gens| ==> ParentsPresent(gens[i])
  }

  /** The route of the first generation that has one named `k`. */
  function FirstValue(gens: seq<Generation>, k: string): Option<Route> {
    if gens == [] then None
    else if k in gens[0] then Some(gens[0][k])
    else FirstValue(gens[1..], k)
  }

  /** The parents stated for `k`, one for each generation that states one, in order. */
  function StatedParents(gens: seq<Generation>, k: string): seq<string> {
    if gens == [] then []
    else (if k in gens[0] then StatedParent(gens[0][k]) else []) + StatedParents(gens[1..], k)
  }

  ghost predicate Stated(gens: seq<Generation>, child: string, parent: string) {
    exists i :: 0 <= i < |gens| && child in gens[i] && gens[i][child].parentName == parent
  }

  lemma {:induction false} FirstValueAppends(gens: seq<Generation>, m: Generation, k: string)
    ensures FirstValue(gens + [m], k) == if FirstValue(gens, k).Some? then FirstValue(gens, k) else Lookup(m, k)
    ensures StatedParents(gens + [m], k) == StatedParents(gens, k) + if k in m then StatedParent(m[k]) else []
  {
    if gens == [] {
      assert gens + [m] == [m] && [m][1..] == [];
    } else {
      assert (gens + [m])[1..] == gens[1..] + [m];
      FirstValueAppends(gens[1..], m, k);
    }
  }

  /** The graph holds, for every name seen, its first value and one edge per statement of a parent. */
  lemma {:induction false} AccumulatedMeaning(gens: seq<Generation>, k: string)
    ensures Lookup(Accumulated(gens).vals, k) == FirstValue(gens, k)
    ensures DepsOf(Accumulated(gens), k) == StatedParents(gens, k)
  {
    if gens != [] {
      var init, last := gens[..|gens| - 1], gens[|gens| - 1];
      assert init + [last] == gens;
      AccumulatedMeaning(init, k);
      FirstValueAppends(init, last, k);
    }
  }

  /** The nodes are exactly the names of all generations. */
  lemma {:induction false} NamesAreUnion(gens: seq<Generation>, k: string)
    ensures k in Accumulated(gens).vals <==> exists i :: 0 <= i < |gens| && k in gens[i]
  {
    if gens != [] {
      var init := gens[..|gens| - 1];
      NamesAreUnion(init, k);
      assert forall i :: 0 <= i < |init| ==> init[i] == gens[i];
      if k in Accumulated(init).vals {
        var i :| 0 <= i < |init| && k in init[i];
        assert k in gens[i];
      }
    }
  }

  lemma {:induction false} StatedParentsMeaning(gens: seq<Generation>, child: string, parent: string)
    ensures parent in StatedParents(gens, child) <==> parent != "" && Stated(gens, child, parent)
  {
    if gens != [] {
      StatedParentsMeaning(gens[1..], child, parent);
      if Stated(gens[1..], child, parent) {
        var i :| 0 <= i < |gens[1..]| && child in gens[1..][i] && gens[1..][i][child].parentName == parent;
        assert gens[i + 1] == gens[1..][i];
      }
      if Stated(gens, child, parent) {
        var i :| 0 <= i < |gens| && child in gens[i] && gens[i][child].parentName == parent;
        assert i == 0 || gens[1..][i - 1] == gens[i];
      }
    }
  }

  /** The edges are exactly the statements of a parent, over all generations. */
  lemma EdgesAreStatements(gens: seq<Generation>, child: string, parent: string)
    ensures Edge(Accumulated(gens).deps, child, parent) <==> parent != "" && Stated(gens, child, parent)
  {
    AccumulatedMeaning(gens, child);
    StatedParentsMeaning(gens, child, parent);
  }

  /** When every Build succeeded, edges lead to nodes. */
  lemma AccumulatedIsClosed(gens: seq<Generation>)
    requires AllBuildable(gens)
    ensures Closed(Accumulated(gens).deps)
  {
    forall u, v | Edge(Accumulated(gens).deps, u, v)
      ensures v in Accumulated(gens).deps
    {
      EdgesAreStatements(gens, u, v);
      var i :| 0 <= i < |gens| && u in gens[i] && gens[i][u].parentName == v;
      assert HasParentIn(gens[i], gens[i][u]);
      NamesAreUnion(gens, v);
    }
  }

  /** Every kept route has an edge to the parent it names. */
  lemma {:induction false} KeptRouteHasItsEdge(gens: seq<Generation>, k: string)
    requires k in Accumulated(gens).vals && Accumulated(gens).vals[k].parentName != ""
    ensures Edge(Accumulated(gens).deps, k, Accumulated(gens).vals[k].parentName)
  {
    var init := gens[..|gens| - 1];
    if k in Accumulated(init).vals {
      KeptRouteHasItsEdge(init, k);
    }
  }

  /** A graph as successful Builds leave it: edges lead to nodes, and every kept route has an edge
      to the parent it names. */
  ghost predicate Sound(c: Content<Route>) {
    && Wf(c)
    && Closed(c.deps)
    && forall k, p {:trigger Edge(c.deps, k, p)} ::
         k in c.vals && p != "" && c.vals[k].parentName == p ==> Edge(c.deps, k, p)
  }

  lemma AccumulatedIsSound(gens: seq<Generation>)
    requires AllBuildable(gens)
    ensures Sound(Accumulated(gens))
  {
    AccumulatedIsClosed(gens);
    forall k, p | k in Accumulated(gens).vals && p != "" && Accumulated(gens).vals[k].parentName == p
      ensures Edge(Accumulated(gens).deps, k, p)
    {
      KeptRouteHasItsEdge(gens, k);
    }
  }

  predicate NamedByKey(c: Content<Route>) {
    WellNamed(c.vals)
  }

  lemma {:induction false} AccumulatedIsNamed(gens: seq<Generation>)
    requires forall i :: 0 <= i < |gens| ==> WellNamed(gens[i])
    ensures NamedByKey(Accumulated(gens))
  {
    if gens != [] {
      AccumulatedIsNamed(gens[..|gens| - 1]);
    }
  }

  /** A node that a Build has added for the sake of a child, without having been through its own route. */
  predicate Unfinished(before: Content<Route>, done: set<string>, after: Content<Route>, k: string) {
    k in after.vals && k !in before.vals && k !in done
  }

  /** What a Build that stops half-way leaves: edges lead to nodes, but the graph is sound only if no
      node it has added for a child names a parent itself. */
  lemma PartBuiltIsSoundIff(before: Content<Route>, m: Generation, done: set<string>, after: Content<Route>)
    requires Sound(before) && BuiltUpTo(before, m, done, after)
    ensures Closed(after.deps)
    ensures Sound(after) <==> forall k :: Unfinished(before, done, after, k) ==> m[k].parentName == ""
  {
    forall u, v | Edge(after.deps, u, v)
      ensures v in after.deps
    {
      assert v in DepsOf(before, u) ==> Edge(before.deps, u, v);
    }
    forall k | Unfinished(before, done, after, k) && m[k].parentName != ""
      ensures !Sound(after)
    {
      assert after.deps[k] == DepsOf(before, k) + [] == [];
      assert !Edge(after.deps, k, m[k].parentName) && after.vals[k].parentName == m[k].parentName;
    }
    forall k, p | k in after.vals && p != "" && after.vals[k].parentName == p && !Unfinished(before, done, after, k)
      ensures Edge(after.deps, k, p)
    {
      if k in before.vals {
        assert Edge(before.deps, k, p);
      }
    }
  }

  /** The sort of the accumulated graph puts children before parents exactly when the union of
      all parent relations has no cycle. */
  lemma SortOfAccumulated(gens: seq<Generation>, result: seq<Route>)
    requires AllBuildable(gens) && IsSortOf(Accumulated(gens), result)
    ensures Topological(Accumulated(gens).deps, NamesOf(result)) <==> Acyclic(Accumulated(gens).deps)
  {
    AccumulatedIsSound(gens);
    TopologicalIffAcyclic(Accumulated(gens).deps, NamesOf(result));
  }

  /** A first Build: the nodes are the routes of the map and the edges its parent relation. */
  lemma FirstBuild(m: Generation)
    ensures Accumulated([m]).vals == m
    ensures Accumulated([m]).deps == map k | k in m :: StatedParent(m[k])
  {
    assert [m][..0] == [];
    forall k | k in m
      ensures Accumulated([m]).deps[k] == StatedParent(m[k])
    {
      assert [] + StatedParent(m[k]) == StatedParent(m[k]);
    }
  }

  /** Such an input: a child is added together with its parent, whose own parent is missing. */
  lemma PartBuiltCanBeUnsound()
    ensures var empty: Content<Route> := Content(map[], map[]);
            exists m, done, after :: BuiltUpTo(empty, m, done, after) && Sound(empty) && !Sound(after)
  {
    var empty: Content<Route> := Content(map[], map[]);
    var child, parent := Route("a", "b", false, None), Route("b", "c", false, None);
    var m := map["a" := child, "b" := parent];
    NothingBuilt(empty, m);
    BuiltOneMore(empty, m, {}, empty, "a");
    var after := WithEdge(empty, "a", child, "b", parent);
    assert {} + {"a"} == {"a"} && BuiltUpTo(empty, m, {"a"}, after);
    assert Unfinished(empty, {"a"}, after, "b");
    PartBuiltIsSoundIff(empty, m, {"a"}, after);
  }
}
