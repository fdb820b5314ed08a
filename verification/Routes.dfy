/** pkg/state/routes.go: reading a generation of routes and building the dependency graph from it. */
module Routes {
  import opened Digraph
  import opened DependencyGraph
  import opened Wrappers
  import opened Terraform

  datatype Backend = AwsLambda(functionName: string, qualifier: string) | NoBackend

  datatype Route = Route(name: string, parentName: string, isGrpcCall: bool, handler: Option<Backend>)

  type Generation = map<string, Route>

  const ROUTE_TYPE := "cruiser_route"

  /** `unmarshal` stands for the protojson decoder; None is a decoding error. */
  function DecodeRoute(unmarshal: string -> Option<Route>, d: Doc): Outcome<string, Route> {
    if d.kind != ROUTE_TYPE then Ignored
    else
      match unmarshal(d.json)
      case None => Malformed
      case Some(route) => Declared(route.name, route)
  }

  function RouteDecoder(unmarshal: string -> Option<Route>): Doc -> Outcome<string, Route> {
    (d: Doc) => DecodeRoute(unmarshal, d)
  }

  predicate RoutesDecodable(unmarshal: string -> Option<Route>, docs: seq<Doc>) {
    forall i :: 0 <= i < |docs| && docs[i].kind == "cruiser_route" ==> unmarshal(docs[i].json).Some?
  }

  /** Document `i` is the last that decodes to a route of its name. */
  predicate IsLastRoute(unmarshal: string -> Option<Route>, docs: seq<Doc>, i: int) {
    && 0 <= i < |docs| && docs[i].kind == "cruiser_route" && unmarshal(docs[i].json).Some?
    && forall j :: i < j < |docs| && docs[j].kind == "cruiser_route" && unmarshal(docs[j].json).Some? ==>
                     unmarshal(docs[j].json).value.name != unmarshal(docs[i].json).value.name
  }

  predicate NamesRoute(unmarshal: string -> Option<Route>, docs: seq<Doc>, name: string) {
    exists i :: 0 <= i < |docs| && docs[i].kind == "cruiser_route" && unmarshal(docs[i].json).Some?
                && unmarshal(docs[i].json).value.name == name
  }

  predicate HoldsLastRoute(unmarshal: string -> Option<Route>, docs: seq<Doc>, i: nat, after: Generation)
    requires IsLastRoute(unmarshal, docs, i)
  {
    var route := unmarshal(docs[i].json).value;
    Lookup(after, route.name) == Some(route)
  }

  ghost predicate HoldsRoutesRead(unmarshal: string -> Option<Route>, docs: seq<Doc>,
                                  before: Generation, after: Generation) {
    && (forall i :: IsLastRoute(unmarshal, docs, i) ==> HoldsLastRoute(unmarshal, docs, i, after))
    && (forall name :: !NamesRoute(unmarshal, docs, name) ==> Lookup(after, name) == Lookup(before, name))
  }

  /** Reading succeeds exactly when every document of a route can be decoded; then each name holds the
      route that its last document decodes to, and names without a document hold what they held. */
  lemma RoutesReadMeaning(unmarshal: string -> Option<Route>, m: Generation, docs: seq<Doc>)
    ensures var reading := ReadAll(RouteDecoder(unmarshal), m, docs);
            && (reading.ok <==> RoutesDecodable(unmarshal, docs))
            && (reading.ok ==> HoldsRoutesRead(unmarshal, docs, m, reading.entries))
  {
    var decode := RouteDecoder(unmarshal);
    ReadAllMeaning(decode, m, docs, "");
    forall i | IsLastRoute(unmarshal, docs, i) && WellFormed(decode, docs)
      ensures HoldsLastRoute(unmarshal, docs, i, ReadAll(decode, m, docs).entries)
    {
      var route := unmarshal(docs[i].json).value;
      ReadAllMeaning(decode, m, docs, route.name);
      LastDeclaredIs(decode, docs, route.name, i);
    }
    forall name | !NamesRoute(unmarshal, docs, name) && WellFormed(decode, docs)
      ensures Lookup(ReadAll(decode, m, docs).entries, name) == Lookup(m, name)
    {
      ReadAllMeaning(decode, m, docs, name);
      LastDeclaredExists(decode, docs, name);
    }
  }

  predicate WellNamed(m: Generation) {
    forall k :: k in m ==> m[k].name == k
  }

  predicate HasParentIn(m: Generation, r: Route) {
    r.parentName == "" || r.parentName in m
  }

  predicate ParentsPresent(m: Generation) {
    forall k :: k in m ==> HasParentIn(m, m[k])
  }

  /** The edges one Build adds for a route. */
  function StatedParent(r: Route): seq<string> {
    if r.parentName == "" then [] else [r.parentName]
  }

  predicate Wf(c: Content<Route>) {
    c.vals.Keys == c.deps.Keys
  }

  function DepsOf(c: Content<Route>, k: string): seq<string> {
    if k in c.deps then c.deps[k] else []
  }

  /** `after` is the graph once a Build that started from `before` has been through the routes in
      `done`, in whatever order: old values stay, new names get their route, and each child in
      `done` has gained one edge to its parent, which is there. */
  ghost predicate BuiltUpTo(before: Content<Route>, m: Generation, done: set<string>, after: Content<Route>) {
    && Wf(before) && Wf(after)
    && done <= m.Keys
    && before.vals.Keys + done <= after.vals.Keys <= before.vals.Keys + m.Keys
    && (forall k :: k in done ==> HasParentIn(m, m[k]) && HasParentIn(after.vals, m[k]))
    && (forall k :: k in after.vals ==> after.vals[k] == if k in before.vals then before.vals[k] else m[k])
    && (forall k :: k in after.deps ==>
          after.deps[k] == DepsOf(before, k) + if k in done then StatedParent(m[k]) else [])
  }

  /** What a whole Build makes of the graph. */
  function Merge(before: Content<Route>, m: Generation): (after: Content<Route>)
    requires Wf(before)
    ensures Wf(after) && after.vals.Keys == before.vals.Keys + m.Keys
  {
    Content(map k | k in before.vals.Keys + m.Keys :: if k in before.vals then before.vals[k] else m[k],
            map k | k in before.vals.Keys + m.Keys :: DepsOf(before, k) + if k in m then StatedParent(m[k]) else [])
  }

  /** Having been through all routes, in whatever order the map hands them out, is the same as Merge. */
  lemma BuiltAll(before: Content<Route>, m: Generation, after: Content<Route>)
    requires BuiltUpTo(before, m, m.Keys, after)
    ensures after == Merge(before, m)
  {
    var merged := Merge(before, m);
    assert after.vals == merged.vals;
    assert after.deps == merged.deps;
  }

  lemma NothingBuilt(before: Content<Route>, m: Generation)
    requires Wf(before)
    ensures BuiltUpTo(before, m, {}, before)
  {
    assert forall k :: k in before.deps ==> DepsOf(before, k) + [] == before.deps[k];
  }

  /** Adding the node of a route of the generation. */
  lemma BuiltNode(before: Content<Route>, m: Generation, done: set<string>, after: Content<Route>, k: string)
    requires BuiltUpTo(before, m, done, after) && k in m
    ensures BuiltUpTo(before, m, done, WithNode(after, k, m[k]))
  {
    assert DepsOf(before, k) + [] == DepsOf(before, k);
  }

  /** Being done with a route whose node is there, once its edge is appended. */
  lemma BuiltEdge(before: Content<Route>, m: Generation, done: set<string>, after: Content<Route>, k: string)
    requires BuiltUpTo(before, m, done, after) && k in m && k in after.vals && k !in done
    requires HasParentIn(m, m[k]) && HasParentIn(after.vals, m[k])
    ensures BuiltUpTo(before, m, done + {k}, after.(deps := after.deps[k := after.deps[k] + StatedParent(m[k])]))
  {
    assert after.deps[k] == DepsOf(before, k) + [];
  }

  /** One more route: what AddSingleNode or AddEdge does to the content. */
  lemma BuiltOneMore(before: Content<Route>, m: Generation, done: set<string>, after: Content<Route>, k: string)
    requires BuiltUpTo(before, m, done, after)
    requires k in m && k !in done && HasParentIn(m, m[k])
    ensures BuiltUpTo(before, m, done + {k},
                      if m[k].parentName == "" then WithNode(after, k, m[k])
                      else WithEdge(after, k, m[k], m[k].parentName, m[m[k].parentName]))
  {
    BuiltNode(before, m, done, after, k);
    var child := WithNode(after, k, m[k]);
    if m[k].parentName == "" {
      BuiltEdge(before, m, done, child, k);
      assert child.deps[k := child.deps[k] + []] == child.deps;
    } else {
      BuiltNode(before, m, done, child, m[k].parentName);
      BuiltEdge(before, m, done, WithNode(child, m[k].parentName, m[m[k].parentName]), k);
    }
  }

  function NamesOf(routes: seq<Route>): (names: seq<string>)
    ensures |names| == |routes|
    ensures forall i :: 0 <= i < |routes| ==> names[i] == routes[i].name
  {
    seq(|routes|, i requires 0 <= i < |routes| => routes[i].name)
  }

  /** The routes of the graph as some order of iteration sorts them: each once, children before parents
      unless they lie on a cycle, and every component before what it reaches. */
  ghost predicate IsSortOf(c: Content<Route>, result: seq<Route>) {
    && CanSort(c.deps, NamesOf(result))
    && ComponentsLead(c.deps, NamesOf(result))
    && Lists(c.deps, NamesOf(result))
    && TopologicalUpToCycles(c.deps, NamesOf(result))
    && forall i :: 0 <= i < |result| ==> result[i].name in c.vals && result[i] == c.vals[result[i].name]
  }

  class RoutesState {
    const routes: Graph<Route>
    var routesMap: Generation
    /** How many updates were sent on updateCh. */
    var updates: nat
    const unmarshal: string -> Option<Route>

    ghost predicate Valid()
      reads this, routes, routes.repr
    {
      && routes.Valid()
      && (forall r :: routes.keyGetter(r) == r.name)
      && WellNamed(routesMap)
    }

    constructor (unmarshal: string -> Option<Route>)
      ensures this.unmarshal == unmarshal && Valid() && fresh(routes) && fresh(routes.repr)
      ensures routesMap == map[] && updates == 0 && routes.content == Content(map[], map[])
    {
      this.unmarshal := unmarshal;
      routes := new Graph((r: Route) => r.name);
      routesMap := map[];
      updates := 0;
    }

    function Decoder(): Doc -> Outcome<string, Route> {
      RouteDecoder(unmarshal)
    }

    /** Reads the routes of the file: it succeeds exactly when all of them can be decoded, and then each
        name holds the route that its last document decodes to. */
    method ReadFromTfstate(tfstate: Tfstate) returns (ok: bool)
      requires Valid()
      modifies this`routesMap
      ensures Valid()
      ensures Reading(ok, routesMap) == ReadAll(Decoder(), old(routesMap), Docs(tfstate))
      ensures ok <==> RoutesDecodable(unmarshal, Docs(tfstate))
      ensures ok ==> HoldsRoutesRead(unmarshal, Docs(tfstate), old(routesMap), routesMap)
    {
      RoutesReadMeaning(unmarshal, routesMap, Docs(tfstate));
      for i := 0 to |tfstate|
        invariant WellNamed(routesMap)
        invariant ReadAll(Decoder(), old(routesMap), Docs(tfstate)) == ReadAll(Decoder(), routesMap, Docs(tfstate[i..]))
      {
        var resource := tfstate[i];
        assert tfstate[i..][1..] == tfstate[i + 1..];
        if resource.kind != ROUTE_TYPE {
          ReadAllSkips(Decoder(), routesMap, InstanceDocs(resource.kind, resource.instances), Docs(tfstate[i + 1..]));
        } else {
          var done := ReadInstances(resource.instances, Docs(tfstate[i + 1..]));
          if !done {
            return false;
          }
        }
      }
      return true;
    }

    /** The loop over the instances of a route resource; `rest` is what the outer loop has yet to read. */
    method ReadInstances(instances: seq<string>, ghost rest: seq<Doc>) returns (ok: bool)
      requires WellNamed(routesMap)
      modifies this`routesMap
      ensures WellNamed(routesMap)
      ensures ReadAll(Decoder(), old(routesMap), InstanceDocs(ROUTE_TYPE, instances) + rest) ==
              if ok then ReadAll(Decoder(), routesMap, rest) else Reading(false, routesMap)
    {
      ghost var docs := InstanceDocs(ROUTE_TYPE, instances) + rest;
      for j := 0 to |instances|
        invariant WellNamed(routesMap)
        invariant ReadAll(Decoder(), old(routesMap), docs) == ReadAll(Decoder(), routesMap, docs[j..])
      {
        assert docs[j..][0] == Doc(ROUTE_TYPE, instances[j]) && docs[j..][1..] == docs[j + 1..];
        match unmarshal(instances[j])
        case None => return false;
        case Some(route) => routesMap := routesMap[route.name := route];
      }
      assert docs[|instances|..] == rest;
      return true;
    }

    /** Adds the routes to the graph in any order of the map.  It succeeds exactly when every named
        parent is present; then the generation is handed over and one update is sent.  Otherwise
        the routes are kept, nothing is sent, and some of the routes have reached the graph. */
    method Build() returns (ok: bool)
      requires Valid()
      modifies this`routesMap, this`updates, routes, routes.repr
      ensures Valid() && fresh(routes.repr - old(routes.repr))
      ensures ok <==> ParentsPresent(old(routesMap))
      ensures ok ==> routesMap == map[] && updates == old(updates) + 1
      ensures ok ==> routes.content == Merge(old(routes.content), old(routesMap))
      ensures !ok ==> routesMap == old(routesMap) && updates == old(updates)
      ensures !ok ==> exists done :: BuiltUpTo(old(routes.content), routesMap, done, routes.content)
    {
      var pending := routesMap.Keys;
      ghost var done := {};
      while pending != {}
        invariant Valid() && fresh(routes.repr - old(routes.repr))
        invariant routesMap == old(routesMap) && updates == old(updates)
        invariant pending <= routesMap.Keys && done == routesMap.Keys - pending
        invariant BuiltUpTo(old(routes.content), routesMap, done, routes.content)
        decreases pending
      {
        var name :| name in pending;
        var added := AddRoute(routesMap[name], old(routes.content), done);
        if !added {
          return false;
        }
        pending := pending - {name};
        done := done + {name};
      }
      assert ParentsPresent(routesMap);
      BuiltAll(old(routes.content), routesMap, routes.content);
      routesMap := map[];
      updates := updates + 1;
      return true;
    }

    /** The body of Build's loop. */
    method AddRoute(route: Route, ghost before: Content<Route>, ghost done: set<string>) returns (ok: bool)
      requires Valid() && BuiltUpTo(before, routesMap, done, routes.content)
      requires route.name in routesMap && routesMap[route.name] == route && route.name !in done
      modifies routes, routes.repr
      ensures Valid() && fresh(routes.repr - old(routes.repr))
      ensures ok <==> HasParentIn(routesMap, route)
      ensures BuiltUpTo(before, routesMap, if ok then done + {route.name} else done, routes.content)
    {
      if HasParentIn(routesMap, route) {
        BuiltOneMore(before, routesMap, done, routes.content, route.name);
      }
      if route.parentName == "" {
        routes.AddSingleNode(route);
        return true;
      }
      if route.parentName !in routesMap {
        return false;
      }
      routes.AddEdge(route, routesMap[route.parentName]);
      return true;
    }

    method GetRoutes() returns (result: seq<Route>)
      requires Valid()
      ensures IsSortOf(routes.content, result)
    {
      result := routes.TopologicalSort();
      assert Keys(routes.keyGetter, result) == NamesOf(result);
    }
  }
}
