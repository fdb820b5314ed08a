/** What the consumer in cmd/router.go does with an update: sort the routes, build a router from them. */
module Consumer {
  import opened Digraph
  import opened DependencyGraph
  import opened Routes
  import opened RouteHistory
  import opened Router

  /** Rebuilding the router from the state.  For a graph without cycles it succeeds exactly when no
      route has a parent and every handler can be served, since the sort hands out children first; with
      cycles, not unless every parent that is named reaches its child. */
  method Rebuild(state: RoutesState, aws: bool) returns (v: Verdict, router: Router)
    requires state.Valid()
    ensures fresh(router)
    ensures v == Ok ==> exists routes :: IsSortOf(state.routes.content, routes) && router.Parsed(routes, |routes|)
    ensures v != Ok ==> exists routes, n :: IsSortOf(state.routes.content, routes) && FirstRefused(aws, routes, n) &&
                                            v == Refusal(aws, routes, n)
    ensures Sound(state.routes.content) && Acyclic(state.routes.content.deps) ==>
              var vals := state.routes.content.vals;
              (v == Ok <==> forall k :: k in vals ==> vals[k].parentName == "" && Servable(aws, vals[k]))
    ensures Sound(state.routes.content) && NoParents(state.routes.content) ==>
              var vals := state.routes.content.vals;
              (v == Ok <==> forall k :: k in vals ==> Servable(aws, vals[k]))
    ensures Sound(state.routes.content) && v == Ok ==>
              var vals, deps := state.routes.content.vals, state.routes.content.deps;
              forall k :: k in vals ==>
                            && Servable(aws, vals[k])
                            && (vals[k].parentName == "" || Reaches(deps, vals[k].parentName, k))
  {
    var routes := state.GetRoutes();
    router := new Router(aws);
    v := router.ParseProtoRouterConfig(routes);
    AcceptedIff(aws, state.routes.content, routes);
    if Sound(state.routes.content) {
      CodeOrder(state.routes.content, routes);
      if Acyclic(state.routes.content.deps) {
        CodeOrderIsAcceptedIff(state.routes.content, routes);
      }
    }
  }
}
