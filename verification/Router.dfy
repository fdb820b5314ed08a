/** pkg/server/router.go: registering routes by name and hanging each below its parent. */
module Router {
  import opened Digraph
  import opened DependencyGraph
  import opened Wrappers
  import opened Terraform
  import opened Routes
  import opened RouteHistory

  /** What becomes of a route: the route below which it hangs, and the backend it serves. */
  datatype Registered = Registered(name: string, parent: Option<nat>, serves: Option<Served>)

  datatype Served = Grpc(backend: Backend) | Http(backend: Backend)

  /** ParentMissing and NoBackendFound are panics of the original, NoBackendProvider is an error. */
  datatype Verdict = Ok | ParentMissing | NoBackendProvider | NoBackendFound

  /** The latest of the first `n` routes that is named `name`. */
  function Latest(routes: seq<Route>, n: nat, name: string): (j: Option<nat>)
    requires n <= |routes|
    ensures j.Some? ==> j.value < n && routes[j.value].name == name
  {
    if n == 0 then None
    else if routes[n - 1].name == name then Some(n - 1)
    else Latest(routes, n - 1, name)
  }

  lemma {:induction false} LatestMeaning(routes: seq<Route>, n: nat, name: string, j: nat)
    requires n <= |routes|
    ensures Latest(routes, n, name) == Some(j) <==>
            j < n && routes[j].name == name && forall l :: j < l < n ==> routes[l].name != name
    ensures j < n && routes[j].name == name ==> Latest(routes, n, name).Some?
  {
    if n > 0 {
      LatestMeaning(routes, n - 1, name, j);
    }
  }

  predicate IsRegistry(routes: seq<Route>, n: nat, named: map<string, nat>) {
    && n <= |routes|
    && (forall j :: 0 <= j < n ==> routes[j].name in named)
    && (forall k :: k in named ==> Latest(routes, n, k) == Some(named[k]))
  }

  lemma RegistersLatest(routes: seq<Route>, n: nat, named: map<string, nat>)
    requires n < |routes| && IsRegistry(routes, n, named)
    ensures IsRegistry(routes, n + 1, named[routes[n].name := n])
  {
  }

  function ParentOf(routes: seq<Route>, i: nat): Option<nat>
    requires i < |routes|
  {
    if routes[i].parentName == "" then None else Latest(routes, i, routes[i].parentName)
  }

  /** The parent lookup finds something when route `i` is parsed. */
  predicate ParentBefore(routes: seq<Route>, i: nat)
    requires i < |routes|
  {
    routes[i].parentName == "" || ParentOf(routes, i).Some?
  }

  predicate ParentsEarlier(routes: seq<Route>) {
    forall i :: 0 <= i < |routes| ==> ParentBefore(routes, i)
  }

  predicate Servable(aws: bool, r: Route) {
    r.handler.None? || (aws && r.handler.value.AwsLambda?)
  }

  predicate Accepted(aws: bool, routes: seq<Route>, i: nat)
    requires i < |routes|
  {
    ParentBefore(routes, i) && Servable(aws, routes[i])
  }

  function Serves(r: Route): Option<Served> {
    match r.handler
    case None => None
    case Some(b) => Some(if r.isGrpcCall then Grpc(b) else Http(b))
  }

  /** `built` is the subrouter forest for the first `n` routes. */
  predicate Forest(routes: seq<Route>, n: nat, built: seq<Registered>) {
    && |built| == n <= |routes|
    && forall i :: 0 <= i < n ==> built[i] == Registered(routes[i].name, ParentOf(routes, i), Serves(routes[i]))
  }

  lemma ForestOneMore(routes: seq<Route>, i: nat, built: seq<Registered>)
    requires i < |routes| && |built| == i + 1 && Forest(routes, i, built[..i])
    requires built[i] == Registered(routes[i].name, ParentOf(routes, i), Serves(routes[i]))
    ensures Forest(routes, i + 1, built)
  {
    assert forall j :: 0 <= j < i ==> built[j] == built[..i][j];
  }

  function Handlers(routes: seq<Route>, n: nat): seq<Backend>
    requires n <= |routes|
  {
    if n == 0 then []
    else Handlers(routes, n - 1) + if routes[n - 1].handler.Some? then [routes[n - 1].handler.value] else []
  }

  class Router {
    /** Whether provs holds the AWS provider, the only key a handler can ask for. */
    const aws: bool
    var rtr: seq<Registered>
    var named: map<string, nat>
    var handlers: seq<Backend>

    constructor (aws: bool)
      ensures this.aws == aws && rtr == [] && named == map[] && handlers == []
    {
      this.aws := aws;
      rtr, named, handlers := [], map[], [];
    }

    /** The router after the first `n` routes: the forest, the name registry, which points to the
        latest route of each name, and the handlers. */
    ghost predicate Parsed(routes: seq<Route>, n: nat)
      reads this
    {
      && Forest(routes, n, rtr)
      && IsRegistry(routes, n, named)
      && handlers == Handlers(routes, n)
    }

    /** Parses the list in order.  It succeeds exactly when every route is accepted after those before
        it, and then the forest and the handlers are those of the list; otherwise the verdict is that
        of the first route that is not accepted. */
    method ParseProtoRouterConfig(routes: seq<Route>) returns (v: Verdict)
      requires rtr == [] && named == map[] && handlers == []
      modifies this
      ensures v == Ok ==> Parsed(routes, |routes|) && AllAccepted(aws, routes, |routes|)
      ensures v == Ok ==> |rtr| == |routes| && forall i :: 0 <= i < |rtr| ==> ServesAs(routes[i], rtr[i].serves)
      ensures v == Ok ==> exists at :: AreCollected(routes, |routes|, at, handlers)
      ensures v != Ok ==> exists n :: FirstRefused(aws, routes, n) && v == Refusal(aws, routes, n)
      ensures v != Ok ==> exists n :: AllAcceptedUntil(aws, routes, n) && RefusedFor(aws, routes, n, v)
    {
      for i := 0 to |routes|
        invariant Parsed(routes, i)
        invariant AllAccepted(aws, routes, i)
      {
        v := ParseProtoRoute(routes, i);
        if v != Ok {
          assert FirstRefused(aws, routes, i);
          RefusalMeaning(aws, routes, i);
          return;
        }
      }
      v := Ok;
      HandlersAreCollected(routes, |routes|);
      assert AreCollected(routes, |routes|, Places(routes, |routes|), handlers);
    }

    /** One route: it is named below its parent, then its handler is attached. */
    method ParseProtoRoute(routes: seq<Route>, i: nat) returns (v: Verdict)
      requires i < |routes| && Parsed(routes, i)
      modifies this
      ensures v == Ok <==> Accepted(aws, routes, i)
      ensures v == Ok ==> Parsed(routes, i + 1)
      ensures v != Ok ==> v == Refusal(aws, routes, i)
    {
      var route := routes[i];
      var parent := None;
      if route.parentName != "" {
        if route.parentName !in named {
          return ParentMissing;
        }
        parent := Some(named[route.parentName]);
      }
      rtr := rtr + [Registered(route.name, parent, None)];
      RegistersLatest(routes, i, named);
      named := named[route.name := i];
      v := AttachHandler(routes, i);
    }

    method AttachHandler(routes: seq<Route>, i: nat) returns (v: Verdict)
      requires i < |routes| && ParentBefore(routes, i)
      requires |rtr| == i + 1 && Forest(routes, i, rtr[..i]) && handlers == Handlers(routes, i)
      requires rtr[i] == Registered(routes[i].name, ParentOf(routes, i), None)
      modifies this`rtr, this`handlers
      ensures v == Ok <==> Accepted(aws, routes, i)
      ensures v == Ok ==> Forest(routes, i + 1, rtr) && handlers == Handlers(routes, i + 1)
      ensures v != Ok ==> v == Refusal(aws, routes, i)
    {
      var route := routes[i];
      if route.handler.None? {
        assert Handlers(routes, i + 1) == Handlers(routes, i);
        ForestOneMore(routes, i, rtr);
        return Ok;
      }
      handlers := handlers + [route.handler.value];
      if !aws {
        return NoBackendProvider;
      }
      if route.handler.value.NoBackend? {
        return NoBackendFound;
      }
      assert rtr[i := rtr[i].(serves := Serves(route))][..i] == rtr[..i];
      rtr := rtr[i := rtr[i].(serves := Serves(route))];
      ForestOneMore(routes, i, rtr);
      return Ok;
    }
  }

  /** What a route serves: nothing without a handler; its backend, as gRPC or as HTTP, with one. */
  predicate ServesAs(route: Route, serves: Option<Served>) {
    match route.handler
    case None => serves == None
    case Some(b) =>
      && (route.isGrpcCall ==> serves == Some(Grpc(b)))
      && (!route.isGrpcCall ==> serves == Some(Http(b)))
  }

  /** `handlers` are those of the first `n` routes, in order: `at` holds the places of the routes that
      have one, all of them, increasing. */
  ghost predicate AreCollected(routes: seq<Route>, n: nat, at: seq<nat>, handlers: seq<Backend>) {
    && n <= |routes| && |at| == |handlers|
    && (forall p, q :: 0 <= p < q < |at| ==> at[p] < at[q])
    && (forall p :: 0 <= p < |at| ==> at[p] < n && routes[at[p]].handler == Some(handlers[p]))
    && (forall i :: 0 <= i < n && routes[i].handler.Some? ==> i in at)
  }

  lemma CollectOneMore(routes: seq<Route>, n: nat, at: seq<nat>, handlers: seq<Backend>)
    requires n < |routes| && AreCollected(routes, n, at, handlers)
    ensures routes[n].handler.None? ==> AreCollected(routes, n + 1, at, handlers)
    ensures routes[n].handler.Some? ==> AreCollected(routes, n + 1, at + [n], handlers + [routes[n].handler.value])
  {
    forall i | 0 <= i < n + 1 && routes[i].handler.Some?
      ensures i in at + [n]
    {
      assert i < n ==> i in at;
      assert (at + [n])[|at|] == n;
    }
  }

  /** The places of the routes with a handler among the first `n`. */
  function Places(routes: seq<Route>, n: nat): seq<nat>
    requires n <= |routes|
  {
    if n == 0 then [] else Places(routes, n - 1) + if routes[n - 1].handler.Some? then [n - 1] else []
  }

  lemma NothingCollected(routes: seq<Route>)
    ensures AreCollected(routes, 0, [], [])
  {
  }

  ghost predicate CollectedUpTo(routes: seq<Route>, n: nat)
    requires n <= |routes|
  {
    AreCollected(routes, n, Places(routes, n), Handlers(routes, n))
  }

  lemma NextCollected(routes: seq<Route>, n: nat)
    requires n < |routes| && CollectedUpTo(routes, n)
    ensures CollectedUpTo(routes, n + 1)
  {
    var at, handlers := Places(routes, n), Handlers(routes, n);
    CollectOneMore(routes, n, at, handlers);
    if routes[n].handler.None? {
      assert Places(routes, n + 1) == at && Handlers(routes, n + 1) == handlers;
    } else {
      assert Places(routes, n + 1) == at + [n] && Handlers(routes, n + 1) == handlers + [routes[n].handler.value];
    }
  }

  lemma {:induction false} HandlersAreCollected(routes: seq<Route>, n: nat)
    requires n <= |routes|
    ensures CollectedUpTo(routes, n)
  {
    if n == 0 {
      NothingCollected(routes);
    } else {
      HandlersAreCollected(routes, n - 1);
      NextCollected(routes, n - 1);
    }
  }

  /** An earlier route carries the name. */
  predicate IsNamedEarlier(routes: seq<Route>, i: nat, name: string)
    requires i <= |routes|
  {
    exists j :: 0 <= j < i && routes[j].name == name
  }

  lemma ParentBeforeMeaning(routes: seq<Route>, i: nat)
    requires i < |routes|
    ensures ParentBefore(routes, i) <==>
            routes[i].parentName == "" || IsNamedEarlier(routes, i, routes[i].parentName)
  {
    var parentName := routes[i].parentName;
    if parentName != "" && IsNamedEarlier(routes, i, parentName) {
      var j :| 0 <= j < i && routes[j].name == parentName;
      LatestMeaning(routes, i, parentName, j);
    }
  }

  /** Each refusal with the guard that causes it, in the order of the guards. */
  predicate RefusedFor(aws: bool, routes: seq<Route>, n: nat, v: Verdict)
    requires n < |routes|
  {
    var route := routes[n];
    if route.parentName != "" && !IsNamedEarlier(routes, n, route.parentName) then v == ParentMissing
    else route.handler.Some? &&
         if !aws then v == NoBackendProvider else route.handler.value.NoBackend? && v == NoBackendFound
  }

  /** No guard refuses any of the routes before `n`. */
  predicate AllAcceptedUntil(aws: bool, routes: seq<Route>, n: nat) {
    n < |routes| && forall i, v :: 0 <= i < n ==> !RefusedFor(aws, routes, i, v)
  }

  lemma AcceptedMeaning(aws: bool, routes: seq<Route>, i: nat)
    requires i < |routes|
    ensures Accepted(aws, routes, i) <==> forall v :: !RefusedFor(aws, routes, i, v)
  {
    ParentBeforeMeaning(routes, i);
    if !Accepted(aws, routes, i) {
      assert RefusedFor(aws, routes, i, Refusal(aws, routes, i));
    }
  }

  lemma RefusalMeaning(aws: bool, routes: seq<Route>, n: nat)
    requires FirstRefused(aws, routes, n)
    ensures AllAcceptedUntil(aws, routes, n) && RefusedFor(aws, routes, n, Refusal(aws, routes, n))
  {
    ParentBeforeMeaning(routes, n);
    forall i, v | 0 <= i < n
      ensures !RefusedFor(aws, routes, i, v)
    {
      assert Accepted(aws, routes, i);
      AcceptedMeaning(aws, routes, i);
    }
  }

  predicate FirstRefused(aws: bool, routes: seq<Route>, n: nat) {
    n < |routes| && !Accepted(aws, routes, n) && AllAccepted(aws, routes, n)
  }

  predicate AllAccepted(aws: bool, routes: seq<Route>, n: nat)
    requires n <= |routes|
  {
    forall i :: 0 <= i < n ==> Accepted(aws, routes, i)
  }

  function Refusal(aws: bool, routes: seq<Route>, n: nat): Verdict
    requires n < |routes|
  {
    if !ParentBefore(routes, n) then ParentMissing else if !aws then NoBackendProvider else NoBackendFound
  }

  predicate DistinctNames(routes: seq<Route>) {
    Distinct(NamesOf(routes))
  }

  lemma SameName(routes: seq<Route>, i: nat, j: nat)
    requires DistinctNames(routes) && i < |routes| && j < |routes| && routes[i].name == routes[j].name
    ensures i == j
  {
    assert NamesOf(routes)[i] == NamesOf(routes)[j];
  }

  predicate IsReverse<T(==)>(s: seq<T>, r: seq<T>) {
    |r| == |s| && forall i, j :: 0 <= i < |s| && 0 <= j < |s| && i + j == |s| - 1 ==> r[j] == s[i]
  }

  /** In a list of distinct names the forest is the parent relation: a route hangs below exactly the
      earlier route that carries its parent's name. */
  lemma ForestIsParentRelation(routes: seq<Route>, built: seq<Registered>, i: nat, j: nat)
    requires Forest(routes, |routes|, built) && DistinctNames(routes) && ParentsEarlier(routes)
    requires i < |routes| && j < |routes|
    ensures built[i].parent == Some(j) <==> routes[i].parentName != "" && routes[j].name == routes[i].parentName
  {
    assert ParentBefore(routes, i);
    assert built[i].parent == ParentOf(routes, i);
    if routes[i].parentName != "" {
      var l := ParentOf(routes, i).value;
      if routes[j].name == routes[i].parentName {
        SameName(routes, l, j);
      }
    }
  }

  lemma SortIndex(c: Content<Route>, result: seq<Route>, k: string) returns (i: nat)
    requires IsSortOf(c, result) && k in c.deps
    ensures i < |result| && result[i].name == k && k in c.vals && result[i] == c.vals[k]
  {
    i := NameIndex(result, k);
  }

  lemma NameIndex(routes: seq<Route>, k: string) returns (i: nat)
    requires k in NamesOf(routes)
    ensures i < |routes| && routes[i].name == k
  {
    i :| 0 <= i < |routes| && NamesOf(routes)[i] == k;
  }

  /** Without cycles, the sort puts every route before the route of its parent's name. */
  lemma ChildBeforeParent(c: Content<Route>, result: seq<Route>, i: nat, j: nat)
    requires Sound(c) && Acyclic(c.deps) && IsSortOf(c, result)
    requires i < |result| && j < |result| && result[i].parentName == result[j].name != ""
    ensures i < j
  {
    TopologicalIffAcyclic(c.deps, NamesOf(result));
    assert Edge(c.deps, NamesOf(result)[i], NamesOf(result)[j]);
  }

  /** The reverse of the sort has every parent earlier, when no parents form a cycle. */
  lemma ReverseOfSortIsAccepted(c: Content<Route>, result: seq<Route>, rev: seq<Route>)
    requires Sound(c) && Acyclic(c.deps) && IsSortOf(c, result) && IsReverse(result, rev)
    ensures ParentsEarlier(rev) && DistinctNames(rev)
  {
    SortHasParentsLater(c, result);
    ReverseHasParentsEarlier(result, rev);
    ReverseIsDistinct(result, rev);
  }

  predicate ParentsLater(routes: seq<Route>) {
    forall i :: 0 <= i < |routes| && routes[i].parentName != "" ==>
                  exists p :: i < p < |routes| && routes[p].name == routes[i].parentName
  }

  lemma SortHasParentsLater(c: Content<Route>, result: seq<Route>)
    requires Sound(c) && Acyclic(c.deps) && IsSortOf(c, result)
    ensures ParentsLater(result)
  {
    forall i | 0 <= i < |result| && result[i].parentName != ""
      ensures exists p :: i < p < |result| && result[p].name == result[i].parentName
    {
      var p := ParentInSort(c, result, i);
    }
  }

  lemma ReverseHasParentsEarlier(routes: seq<Route>, rev: seq<Route>)
    requires ParentsLater(routes) && IsReverse(routes, rev)
    ensures ParentsEarlier(rev)
  {
    forall j | 0 <= j < |rev|
      ensures ParentBefore(rev, j)
    {
      var i := |rev| - 1 - j;
      assert rev[j] == routes[i];
      if routes[i].parentName != "" {
        var p :| i < p < |routes| && routes[p].name == routes[i].parentName;
        EarlierInReverse(routes, rev, i, p);
      }
    }
  }

  lemma ReverseIsDistinct(routes: seq<Route>, rev: seq<Route>)
    requires DistinctNames(routes) && IsReverse(routes, rev)
    ensures DistinctNames(rev)
  {
    var n := |rev|;
    forall i, j | 0 <= i < j < n
      ensures rev[i].name != rev[j].name
    {
      assert rev[i] == routes[n - 1 - i] && rev[j] == routes[n - 1 - j];
      assert NamesOf(routes)[n - 1 - j] != NamesOf(routes)[n - 1 - i];
    }
  }

  lemma ParentInSort(c: Content<Route>, result: seq<Route>, i: nat) returns (p: nat)
    requires Sound(c) && Acyclic(c.deps) && IsSortOf(c, result)
    requires i < |result| && result[i].parentName != ""
    ensures i < p < |result| && result[p].name == result[i].parentName
  {
    assert Edge(c.deps, result[i].name, result[i].parentName);
    p := SortIndex(c, result, result[i].parentName);
    ChildBeforeParent(c, result, i, p);
  }

  lemma EarlierInReverse(routes: seq<Route>, rev: seq<Route>, i: nat, p: nat)
    requires IsReverse(routes, rev) && i < p < |routes| && routes[p].name == routes[i].parentName
    ensures ParentBefore(rev, |routes| - 1 - i)
  {
    assert rev[|routes| - 1 - i] == routes[i] && rev[|routes| - 1 - p] == routes[p];
    LatestMeaning(rev, |routes| - 1 - i, routes[i].parentName, |routes| - 1 - p);
  }

  /** The order in which the sort hands out the routes, cycles or not: it is accepted when no kept route
      names a parent, and only when every parent that is named reaches its child, on a cycle. */
  lemma CodeOrder(c: Content<Route>, result: seq<Route>)
    requires Sound(c) && IsSortOf(c, result)
    ensures NoParents(c) ==> ParentsEarlier(result)
    ensures ParentsEarlier(result) ==>
              forall k :: k in c.vals && c.vals[k].parentName != "" ==> Reaches(c.deps, c.vals[k].parentName, k)
  {
    forall k | ParentsEarlier(result) && k in c.vals && c.vals[k].parentName != ""
      ensures Reaches(c.deps, c.vals[k].parentName, k)
    {
      var i := SortIndex(c, result, k);
      assert ParentBefore(result, i);
      var j := ParentOf(result, i).value;
      assert Edge(c.deps, k, c.vals[k].parentName);
      assert Edge(c.deps, NamesOf(result)[i], NamesOf(result)[j]);
    }
  }

  predicate NoParents(c: Content<Route>) {
    forall k :: k in c.vals ==> c.vals[k].parentName == ""
  }

  /** Without cycles that leaves nothing to order: the sort's order, children first, is accepted
      exactly when no kept route names a parent. */
  lemma CodeOrderIsAcceptedIff(c: Content<Route>, result: seq<Route>)
    requires Sound(c) && Acyclic(c.deps) && IsSortOf(c, result)
    ensures ParentsEarlier(result) <==> NoParents(c)
  {
    CodeOrder(c, result);
    forall k | ParentsEarlier(result) && k in c.vals
      ensures c.vals[k].parentName == ""
    {
      if c.vals[k].parentName != "" {
        assert Edge(c.deps, k, c.vals[k].parentName);
        EdgeOnCycle(c.deps, k, c.vals[k].parentName);
      }
    }
  }

  /** Over all orders in which the map can hand out the nodes, cycles or not: every one of them gives an
      order that is accepted exactly when no kept route names a parent. */
  lemma EveryOrderIsAcceptedIff(c: Content<Route>)
    requires Sound(c) && NamedByKey(c)
    ensures (forall result :: IsSortOf(c, result) ==> ParentsEarlier(result)) <==> NoParents(c)
  {
    forall result | NoParents(c) && IsSortOf(c, result)
      ensures ParentsEarlier(result)
    {
      CodeOrder(c, result);
    }
    if k :| k in c.vals && c.vals[k].parentName != "" {
      var result := ChildFirst(c, k);
    }
  }

  /** An order of iteration that starts at a child has its parent come too late. */
  lemma ChildFirst(c: Content<Route>, k: string) returns (result: seq<Route>)
    requires Sound(c) && NamedByKey(c) && k in c.vals && c.vals[k].parentName != ""
    ensures IsSortOf(c, result) && !ParentsEarlier(result)
  {
    var p := c.vals[k].parentName;
    assert Edge(c.deps, k, p);
    var order := StartingAt(c.deps, k);
    result := SortedRoutes(c, order);
    assert Precedes(order, k, p);
    ParentLater(c, result, k);
  }

  lemma ParentLater(c: Content<Route>, result: seq<Route>, k: string)
    requires DistinctNames(result) && Keeps(c, result) && k in c.vals && c.vals[k].parentName != ""
    requires Precedes(NamesOf(result), k, c.vals[k].parentName)
    ensures !ParentsEarlier(result)
  {
    var names := NamesOf(result);
    var i, j :| 0 <= i <= j < |names| && names[i] == k && names[j] == c.vals[k].parentName;
    ParentComesLater(result, i, j);
  }

  /** The routes in an order that the sort can give. */
  lemma SortedRoutes(c: Content<Route>, order: seq<string>) returns (result: seq<Route>)
    requires Wf(c) && Closed(c.deps) && NamedByKey(c) && CanSort(c.deps, order)
    ensures IsSortOf(c, result) && NamesOf(result) == order && DistinctNames(result) && Keeps(c, result)
  {
    SortMeaning(c.deps, order);
    result := RoutesOf(c, order);
    NamesOfRoutes(c, order);
  }

  lemma NamesOfRoutes(c: Content<Route>, names: seq<string>)
    requires NamedByKey(c) && forall k :: k in names ==> k in c.vals
    ensures NamesOf(RoutesOf(c, names)) == names
  {
  }

  lemma ParentComesLater(routes: seq<Route>, i: nat, j: nat)
    requires DistinctNames(routes) && i <= j < |routes|
    requires routes[i].parentName == routes[j].name != ""
    ensures !ParentsEarlier(routes)
  {
    if ParentBefore(routes, i) {
      SameName(routes, ParentOf(routes, i).value, j);
    }
  }

  function RoutesOf(c: Content<Route>, names: seq<string>): (routes: seq<Route>)
    requires forall k :: k in names ==> k in c.vals
    ensures |routes| == |names| && forall i :: 0 <= i < |routes| ==> routes[i] == c.vals[names[i]]
  {
    seq(|names|, i requires 0 <= i < |names| => assert names[i] in names; c.vals[names[i]])
  }

  /** Accepting a list is finding every parent earlier and being able to serve every route. */
  lemma AcceptedIff(aws: bool, c: Content<Route>, result: seq<Route>)
    requires IsSortOf(c, result) && Wf(c)
    ensures AllAccepted(aws, result, |result|) <==>
            ParentsEarlier(result) && forall k :: k in c.vals ==> Servable(aws, c.vals[k])
  {
    if AllAccepted(aws, result, |result|) {
      forall k | k in c.vals
        ensures Servable(aws, c.vals[k])
      {
        var i := SortIndex(c, result, k);
        assert Accepted(aws, result, i);
      }
      assert forall i :: 0 <= i < |result| ==> Accepted(aws, result, i) ==> ParentBefore(result, i);
    }
  }

  /** Every route with the parent it names; what earlier or later generations stated does not count. */
  function KeptParents(c: Content<Route>): (deps: Relation)
    ensures deps.Keys == c.vals.Keys
  {
    map k | k in c.vals :: StatedParent(c.vals[k])
  }

  /** `routes` are kept routes. */
  predicate Keeps(c: Content<Route>, routes: seq<Route>) {
    forall i :: 0 <= i < |routes| ==> routes[i].name in c.vals && routes[i] == c.vals[routes[i].name]
  }

  /** `routes` holds every kept route once, in some order. */
  predicate Arranges(c: Content<Route>, routes: seq<Route>) {
    DistinctNames(routes) && Keeps(c, routes) && forall k :: k in c.vals ==> k in NamesOf(routes)
  }

  /** A list of all kept routes is accepted, as far as parents go, exactly when each kept route comes
      after the parent it names; whatever other edges the graph has gathered. */
  lemma AcceptedIffReverseTopological(c: Content<Route>, routes: seq<Route>)
    requires Sound(c) && Arranges(c, routes)
    ensures ParentsEarlier(routes) <==> ReverseTopological(KeptParents(c), NamesOf(routes))
    ensures OwnParentsOnly(c) ==> (ParentsEarlier(routes) <==> ReverseTopological(c.deps, NamesOf(routes)))
  {
    var names := NamesOf(routes);
    forall i, j | && ParentsEarlier(routes) && 0 <= i < |names| && 0 <= j < |names|
                  && Edge(KeptParents(c), names[i], names[j])
      ensures j < i
    {
      EdgeResolves(c, routes, i, j);
    }
    forall i | ReverseTopological(KeptParents(c), names) && 0 <= i < |names| && routes[i].parentName != ""
      ensures ParentBefore(routes, i)
    {
      ParentIsFound(c, routes, i);
    }
    if OwnParentsOnly(c) {
      SameEdges(c);
    }
  }

  /** Every edge of the graph, however often it was added, leads to the kept route's own parent. */
  ghost predicate OwnParentsOnly(c: Content<Route>) {
    forall k, p :: Edge(c.deps, k, p) ==> k in c.vals && p != "" && p == c.vals[k].parentName
  }

  lemma SameEdges(c: Content<Route>)
    requires Sound(c) && OwnParentsOnly(c)
    ensures forall k, p :: Edge(c.deps, k, p) <==> Edge(KeptParents(c), k, p)
  {
    forall k, p | Edge(KeptParents(c), k, p)
      ensures Edge(c.deps, k, p)
    {
      assert p == c.vals[k].parentName && p != "";
    }
  }

  /** No generation states another parent for a route than the first one with that route. */
  ghost predicate ParentsNeverChange(gens: seq<Generation>) {
    forall k, p :: p != "" && Stated(gens, k, p) ==>
                     FirstValue(gens, k).Some? && p == FirstValue(gens, k).value.parentName
  }

  /** When the graph holds no other edges: however often the same parents are stated again. */
  lemma OwnParentsIff(gens: seq<Generation>)
    ensures OwnParentsOnly(Accumulated(gens)) <==> ParentsNeverChange(gens)
  {
    var c := Accumulated(gens);
    forall k, p
      ensures Edge(c.deps, k, p) <==> p != "" && Stated(gens, k, p)
      ensures FirstValue(gens, k) == Lookup(c.vals, k)
    {
      EdgesAreStatements(gens, k, p);
      AccumulatedMeaning(gens, k);
    }
  }

  lemma ParentIsFound(c: Content<Route>, routes: seq<Route>, i: nat)
    requires Sound(c) && Arranges(c, routes)
    requires ReverseTopological(KeptParents(c), NamesOf(routes)) && i < |routes| && routes[i].parentName != ""
    ensures ParentBefore(routes, i)
  {
    var parentName := routes[i].parentName;
    assert Edge(c.deps, routes[i].name, parentName);
    var j := NameIndex(routes, parentName);
    assert Edge(KeptParents(c), NamesOf(routes)[i], NamesOf(routes)[j]);
    LatestMeaning(routes, i, parentName, j);
  }

  lemma EdgeResolves(c: Content<Route>, routes: seq<Route>, i: nat, j: nat)
    requires Arranges(c, routes) && ParentsEarlier(routes) && i < |routes| && j < |routes|
    requires Edge(KeptParents(c), routes[i].name, routes[j].name)
    ensures j < i
  {
    assert ParentBefore(routes, i);
    var l := ParentOf(routes, i).value;
    SameName(routes, l, j);
  }
}
