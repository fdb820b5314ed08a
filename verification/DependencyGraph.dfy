/** The pointer graph of pkg/state/dependency_graph.go and its depth-first sort. */
module DependencyGraph {
  import opened Digraph

  class Node<T> {
    const val: T
    var dependencies: seq<Node<T>>

    constructor (val: T)
      ensures this.val == val && dependencies == []
    {
      this.val := val;
      dependencies := [];
    }
  }

  /** What a graph holds, without its pointers: the value kept per name and the edges. */
  datatype Content<T> = Content(vals: map<string, T>, deps: Relation)

  function WithNode<T>(c: Content<T>, k: string, val: T): Content<T> {
    if k in c.vals then c else Content(c.vals[k := val], c.deps[k := []])
  }

  function WithEdge<T>(c: Content<T>, from: string, fromVal: T, to: string, toVal: T): Content<T>
    requires c.vals.Keys == c.deps.Keys
  {
    var w := WithNode(WithNode(c, from, fromVal), to, toVal);
    w.(deps := w.deps[from := w.deps[from] + [to]])
  }

  class Graph<T(!new)> {
    var nodes: map<string, Node<T>>
    const keyGetter: T -> string
    ghost var content: Content<T>
    ghost var repr: set<Node<T>>

    /** Each node is keyed by its value's name, and dependencies point to the map's own nodes. */
    ghost predicate Valid()
      reads this, repr
    {
      && content.vals.Keys == content.deps.Keys == nodes.Keys
      && forall k :: k in nodes ==> nodes[k] in repr && NodeOk(k, nodes[k])
    }

    ghost predicate NodeOk(k: string, n: Node<T>)
      reads this, n
      requires k in content.vals && k in content.deps
    {
      && Name(n) == k
      && content.vals[k] == n.val
      && |content.deps[k]| == |n.dependencies|
      && forall i :: 0 <= i < |n.dependencies| ==>
                       Owns(n.dependencies[i]) && content.deps[k][i] == Name(n.dependencies[i])
    }

    ghost predicate Owns(n: Node<T>)
      reads this
    {
      Name(n) in nodes && nodes[Name(n)] == n
    }

    function Name(n: Node<T>): string {
      keyGetter(n.val)
    }

    constructor (keyGetter: T -> string)
      ensures this.keyGetter == keyGetter && nodes == map[] && repr == {}
      ensures Valid() && content == Content(map[], map[])
    {
      this.keyGetter := keyGetter;
      nodes := map[];
      content := Content(map[], map[]);
      repr := {};
    }

    method AddNode(val: T) returns (n: Node<T>)
      requires Valid()
      modifies this
      ensures Valid() && fresh(repr - old(repr))
      ensures content == WithNode(old(content), keyGetter(val), val)
      ensures forall k :: k in old(nodes) ==> k in nodes && nodes[k] == old(nodes)[k]
      ensures Owns(n) && Name(n) == keyGetter(val)
    {
      var key := keyGetter(val);
      if key !in nodes {
        var added := new Node(val);
        Insert(added);
      }
      n := nodes[key];
    }

    /** The map write of `addNode`, for a node whose name is new. */
    method Insert(added: Node<T>)
      requires Valid() && Name(added) !in nodes && added.dependencies == []
      modifies this
      ensures Valid() && repr == old(repr) + {added}
      ensures nodes == old(nodes)[Name(added) := added]
      ensures content == WithNode(old(content), Name(added), added.val)
    {
      content := WithNode(content, Name(added), added.val);
      nodes := nodes[Name(added) := added];
      repr := repr + {added};
    }

    method AddSingleNode(val: T)
      requires Valid()
      modifies this
      ensures Valid() && fresh(repr - old(repr))
      ensures content == WithNode(old(content), keyGetter(val), val)
    {
      var _ := AddNode(val);
    }

    method AddEdge(from: T, to: T)
      requires Valid()
      modifies this, repr
      ensures Valid() && fresh(repr - old(repr))
      ensures content == WithEdge(old(content), keyGetter(from), from, keyGetter(to), to)
    {
      var fromNode := AddNode(from);
      var toNode := AddNode(to);
      assert Owns(fromNode) by {
        assert nodes[keyGetter(from)] == fromNode;
      }
      AppendDependency(fromNode, toNode);
    }

    /** The append of AddEdge, once both ends are in the graph. */
    method AppendDependency(fromNode: Node<T>, toNode: Node<T>)
      requires Valid() && Owns(fromNode) && Owns(toNode)
      modifies this`content, fromNode
      ensures Valid()
      ensures content.vals == old(content).vals
      ensures content.deps == old(content).deps[Name(fromNode) := old(content).deps[Name(fromNode)] + [Name(toNode)]]
    {
      ghost var key := Name(fromNode);
      assert NodeOk(key, fromNode);
      fromNode.dependencies := fromNode.dependencies + [toNode];
      content := content.(deps := content.deps[key := content.deps[key] + [Name(toNode)]]);
      forall k | k in nodes
        ensures NodeOk(k, nodes[k])
      {
        assert old(NodeOk(k, nodes[k]));
        assert nodes[k] == fromNode <==> k == key;
      }
    }

    lemma EdgesStayInside()
      requires Valid()
      ensures Closed(content.deps)
    {
      forall u, v | Edge(content.deps, u, v)
        ensures v in content.deps
      {
        assert NodeOk(u, nodes[u]);
      }
    }

    /** Sorts the graph, for whatever order the map hands out its nodes in. */
    method TopologicalSort() returns (result: seq<T>)
      requires Valid()
      ensures IsSort(content, keyGetter, result)
    {
      ghost var iteration;
      var search;
      search, iteration := VisitEveryNode();
      EdgesStayInside();
      IteratedMeaning(content.deps, iteration);
      result := search.Collect();
    }

    /** The loop over the map, which hands out each node once, in the order that `iteration` records. */
    method VisitEveryNode() returns (search: Search<T>, ghost iteration: seq<string>)
      requires Valid()
      ensures search.g == this && search.Ok()
      ensures Lists(content.deps, iteration)
      ensures search.Current() == VisitAll(content.deps, SearchState({}, []), iteration)
    {
      search := new Search(this);
      var pending := nodes.Keys;
      iteration := [];
      while pending != {}
        invariant fresh(search) && search.g == this && search.Ok() && pending <= nodes.Keys
        invariant Enumerates(nodes.Keys - pending, iteration)
        invariant search.Current() == VisitAll(content.deps, SearchState({}, []), iteration)
        decreases pending
      {
        var k :| k in pending;
        VisitLast(content.deps, SearchState({}, []), iteration, k);
        VisitIfNew(search, k);
        EnumeratesOneMore(nodes.Keys - pending, iteration, k);
        pending := pending - {k};
        iteration := iteration + [k];
        assert nodes.Keys - pending == nodes.Keys - (pending + {k}) + {k};
      }
    }

    /** The body of the loop over the map. */
    method VisitIfNew(search: Search<T>, k: string)
      requires Valid() && search.g == this && search.Ok() && k in nodes
      modifies search
      ensures search.Ok()
      ensures search.Current() == VisitAll(content.deps, old(search.Current()), [k])
    {
      var n := nodes[k];
      assert NodeOk(k, n);
      if Name(n) !in search.visited {
        search.Visit(n);
      }
    }
  }

  lemma IteratedMeaning(deps: Relation, iteration: seq<string>)
    requires Closed(deps) && Lists(deps, iteration)
    ensures var order := SortBy(deps, iteration);
            && CanSort(deps, order) && Lists(deps, order)
            && TopologicalUpToCycles(deps, order) && ComponentsLead(deps, order)
  {
    SortMeaning(deps, SortBy(deps, iteration));
  }

  function Keys<T>(keyGetter: T -> string, vals: seq<T>): (names: seq<string>)
    ensures |names| == |vals|
    ensures forall i :: 0 <= i < |vals| ==> names[i] == keyGetter(vals[i])
  {
    seq(|vals|, i requires 0 <= i < |vals| => keyGetter(vals[i]))
  }

  /** What the sort of a graph holding `c` promises: it is the recursive search for some order of
      iteration; each kept value once, every edge forward unless on a cycle, and every component before
      what it reaches. */
  ghost predicate IsSort<T>(c: Content<T>, keyGetter: T -> string, result: seq<T>) {
    var names := Keys(keyGetter, result);
    && CanSort(c.deps, names)
    && Lists(c.deps, names)
    && TopologicalUpToCycles(c.deps, names)
    && ComponentsLead(c.deps, names)
    && forall i :: 0 <= i < |result| ==> names[i] in c.vals && result[i] == c.vals[names[i]]
  }

  /** The variables captured by the closure `visit`: the shared visited set and the result list. */
  class Search<T(!new)> {
    const g: Graph<T>
    var visited: set<string>
    var list: seq<Node<T>>
    ghost var order: seq<string>

    constructor (g: Graph<T>)
      requires g.Valid()
      ensures this.g == g && Ok() && Current() == SearchState({}, [])
    {
      this.g := g;
      visited := {};
      list := [];
      order := [];
    }

    ghost predicate Ok()
      reads this, g, g.repr
    {
      && g.Valid()
      && |order| == |list|
      && forall i :: 0 <= i < |list| ==> g.Owns(list[i]) && order[i] == g.Name(list[i])
    }

    ghost function Current(): SearchState
      reads this
    {
      SearchState(visited, order)
    }

    /** One call of `visit` on the heap is the recursive search on names. */
    method Visit(n: Node<T>)
      requires Ok() && g.Owns(n)
      modifies this
      decreases g.nodes.Keys - visited
      ensures Ok()
      ensures Current() == VisitAll(g.content.deps, old(Current()), [g.Name(n)])
    {
      var key := g.Name(n);
      if key in visited {
        return;
      }
      ghost var deps := g.content.deps[key];
      assert g.NodeOk(key, n);
      visited := visited + {key};
      ghost var start := Current();
      for i := 0 to |n.dependencies|
        invariant Ok()
        invariant start.visited <= visited
        invariant VisitAll(g.content.deps, start, deps) == VisitAll(g.content.deps, Current(), deps[i..])
      {
        assert deps[i..][0] == g.Name(n.dependencies[i]) && deps[i..][1..] == deps[i + 1..];
        VisitFirst(g.content.deps, Current(), deps[i..]);
        Visit(n.dependencies[i]);
      }
      list := [n] + list;
      order := [key] + order;
    }

    /** The final walk over the list, taking each node's value. */
    method Collect() returns (result: seq<T>)
      requires Ok()
      ensures Keys(g.keyGetter, result) == order
      ensures forall i :: 0 <= i < |result| ==> order[i] in g.content.vals && result[i] == g.content.vals[order[i]]
    {
      result := [];
      for i := 0 to |list|
        invariant |result| == i
        invariant forall j :: 0 <= j < i ==> result[j] == list[j].val
      {
        result := result + [list[i].val];
      }
      forall i | 0 <= i < |result|
        ensures order[i] in g.content.vals && result[i] == g.content.vals[order[i]]
      {
        assert g.NodeOk(order[i], list[i]);
      }
    }
  }
}
