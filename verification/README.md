# Cruiser: a verified model of the synchronisation pipeline

Cruiser watches Terraform state files in a bucket and turns them into two things: the five xDS caches
of its control plane and the route graph from which its router is rebuilt. A source hands out the state
files, round by round; in each round one goroutine per manager reads all of them and then calls `Build`.
This project models that pipeline, the gRPC proxy flow and the health-check fan-out, and proves what
they keep over every run.

## What is modelled

| module | what it is |
|---|---|
| `Wrappers` | a value that may be absent |
| `Digraph` | paths, cycles and orders over a relation of names; the invariant of the depth-first search |
| `DependencyGraph` | the pointer graph, updated in place, and its recursive sort |
| `Terraform` | state files, and what it means to read documents in order into a map |
| `Routes`, `RouteHistory` | reading and building routes; the graph after many Builds |
| `Router`, `Consumer` | registering routes below their parents; rebuilding the router from the graph |
| `RoutesSync` | the write lock, the update channel, the reader of the route graph and its health check, interleaved |
| `XdsModel`, `Xds` | the five resource groups as values over whole runs, and as map objects handed over by reference |
| `ServiceDiscovery` | the endpoint overlay, `flush`, and the reset at the start of `sync` |
| `TfstateSource`, `EtagCache` | the ETag cache, and why it agrees with downloading everything |
| `EndToEnd` | one manager's rounds: from the bucket's listing to the contents of the caches |
| `Scheduler` | rounds, manager goroutines, the WaitGroup and the error channel, interleaved |
| `Pipeline` | the scheduler's calls on the xDS manager, fed by the source, over every interleaving |
| `GrpcProtocol`, `GrpcForwarding` | the select loop with its two goroutines, interleaved; what the two flows forward |
| `HealthCheck` | driver, workers, bounded channel, WaitGroup and stop channel, interleaved |

Code that changes things in place is modelled by classes and loops, each method proved against a function
or a predicate on values. Concurrent code is modelled as a state machine: an action is one indivisible
step of one goroutine, a rendezvous on an unbuffered channel is one step of both sides, and the theorems
are about every state of every behaviour. Maps are iterated in an arbitrary order everywhere.

The main results:

- **The sort.** `TopologicalSort` on the heap is, for some order of iteration, the recursive search as a
  function; for every graph, cyclic ones included, and every such order it terminates, lists every value
  once, puts `from` before `to` for every edge that is not on a cycle, and puts some node of every
  component before whatever that component reaches. It is a topological order if and only if the graph is
  acyclic.
- **The router.** For an acyclic graph the reverse of the sort is accepted, and the forest built is the
  parent relation. The order of the code itself is accepted if and only if no route names a parent; with
  cycles, every order that the map can give is accepted if and only if no route names a parent. Any
  arrangement of the kept routes is accepted if and only if each comes after the parent it names.
- **The route graph over time.** Its nodes, values and edges after any sequence of successful Builds.
  Each read sees a whole number of Builds, except that one may follow a failed Build, and it is known
  exactly when what is read is sound. A Build is stuck, holding the write lock for ever, exactly when it is
  at its send and the consumer waits for the read lock, has left its loop, waits for ever in its health
  check, or is building a router that is refused, which ends the process, or whose health check has to
  wait for ever; each of these is reachable.
- **The xDS delta.** Covering the cached names by the current and the to-delete map is necessary and
  sufficient for update-then-delete to replace the cache; it survives every failed and partly applied
  `Build`, so any later success leaves every cache equal to what was read.
- **The ETag cache.** It agrees with the store at every exit; when a call succeeds, fails, reports no
  change, or hands out a nil state file is characterised exactly.
- **End to end.** Over every interleaving of scheduler, managers and endpoint updates without errors, once
  the xDS manager has built in a round the five caches hold exactly the resources of the bucket's current
  state files, or nothing at all when no ETag changed. An object without an ETag may appear with an older
  content.
- **The scheduler and the gRPC flow.** Barrier and fail-stop; after a manager's error the scheduler waits for
  ever. The counting argument of the four turns.
- **The fan-out.** At most one driver, a WaitGroup that never goes negative; with a buffer every driver
  gets to its select. A pending stop can be received if and only if a driver is live and the channel has
  a buffer; a run in which it never is exists for every capacity and any two non-empty lists of handlers.

## Choices, where code and intent differ

- `pkg/state/dependency_graph.go:86` asserts the value type on an element that is a node (line 69). The
  model collects each node's value.
- `pkg/state/routes.go:73` adds edges from child to parent, so the sort hands out children first, while
  `pkg/server/router.go:47-48` needs parents first. Both orders are kept as they are: `CodeOrderIsAcceptedIff`
  says what happens to the first, `ReverseOfSortIsAccepted` what the second would give.
- `pkg/state/routes.go:77` resets the routes but never the graph, which keeps the first value of a name and
  repeats an edge for every Build that states it.
- An unchanged round gives the managers nothing to read, yet they build, so every xDS cache is emptied
  (`UnchangedRoundEmptiesCaches`). A deletion alone is not reported as a change (`UnchangedIff`).
- A new object whose ETag is empty is not downloaded and its entry stays nil. `HandsOutNilIff` says exactly
  when a nil is handed out and `NilIsHandedOut` gives an input. A manager given a nil dereferences it, so
  that the end-to-end theorems are about rounds that hand out none.
- `pkg/state/xds.go:236-239` returns at the first assignment without endpoints.
- `pkg/providers/aws/service_discovery/xds.go:151-193` never stores the assignment it builds. Since
  `NewXds` starts with an empty list, no run of sync and flush ever changes the list or the overlay
  (`PeriodicSync`).
- `pkg/providers/aws/provider.go:127-136` has no loop, so a stop that is sent when no driver is live is
  never received: `PendingStopIff` is the exact condition, `StopCanBeLost` the runs.
- `cmd/router.go:107` calls the health check in the arm of the select, with the handlers of the routes just
  read, so that such a stop keeps the consumer from receiving again (`StuckInHealthCheck`,
  `StuckBeforeHealthCheck`); a cancellation or an error ends its loop for good (`StuckAfterExit`), and a
  refused router is a panic that ends the process (`StuckBeforeRefusal`).
- A Build that fails may have put some of its routes into the graph, and a reader that comes late sees
  them (`FailedBuildCanBeSeen`); among them may be a parent whose own parent is missing
  (`PartBuiltCanBeUnsound`).
- A health-check channel without a buffer blocks the driver at its first handler (`ProgressIffBuffered`).
- A missing parent and a handler without a backend are panics in the original, and so is a missing provider,
  since `WithRouterConfig` panics on any error (`pkg/server/builder.go:97-102`); they are verdicts here.
- `errors.Is(err, io.EOF)` and `err != io.EOF` differ for a wrapped EOF; the model keeps both tests, so a
  wrapped EOF ends the receive flow quietly but is an error in the send flow.

## Parameters of the model

- `unmarshal` stands for the protojson decoders; `None` is a decoding error.
- `Fate` stands for the outcome of the library's `UpdateResources`: success, or a failure that may have
  applied any part of the delta.
- A `Page` is what the store answers for one step of the listing: an error, or a name with the outcomes of
  the head request and of the download. As in the code, a page carries one name; the `Name` that
  `tfstate_source.go:51` reads from a page is, in the AWS SDK, that of the bucket, and the model takes it
  for the object's key, as the code means it.
- That a name and an ETag stand for one content also assumes that nothing is written between the head
  request and the download.
- With a zero health-check interval the call has the effect of one without handlers, and is modelled as that.
- The backend and the stream of the gRPC flow answer from a script; past its end a call waits for ever.
- The fifteen fields of the xDS state are five groups in the order of `Build`, whose five statements become
  a loop. A send on an update channel is counted; the rendezvous itself is in `RoutesSync`.

## Model

| member | source | states |
|---|---|---|
| Digraph.TopologicalIffAcyclic | pkg/state/dependency_graph.go:49-91 | a list that respects every edge not on a cycle respects all edges if and only if the graph has no cycle |
| Digraph.PathGoesForward | pkg/state/dependency_graph.go:49-91 | in a topological order every path of the graph leads forward |
| Digraph.OffCyclesPrecedes | pkg/state/dependency_graph.go:49-91 | a node on no cycle stands before everything it reaches |
| Digraph.ComponentStrictlyPrecedes | pkg/state/dependency_graph.go:49-91 | if `u` reaches `v` and not the other way round, some node of `u`'s component stands strictly before `v` |
| Digraph.VisitLast | pkg/state/dependency_graph.go:74-83 | visiting one more node of the map continues the search from where it was |
| Digraph.StartNode | pkg/state/dependency_graph.go:59-62 | marking an unvisited node keeps the search invariant, and every active node still reaches it |
| Digraph.FollowEdge | pkg/state/dependency_graph.go:63-67 | whatever reaches a node in progress reaches each of its dependencies |
| Digraph.PathHasFinished | pkg/state/dependency_graph.go:63-69 | when a node finishes that is alone of its component in progress, everything it reaches has finished |
| Digraph.FinishNode | pkg/state/dependency_graph.go:69 | pushing a node whose dependencies are all visited to the front keeps the search invariant |
| Digraph.VisitNode | pkg/state/dependency_graph.go:56-72 | one call of `visit` keeps the invariant, visits the dependencies, and only pushes to the front |
| Digraph.SearchKeepsInvariant | pkg/state/dependency_graph.go:56-83 | so does visiting any list of nodes, on every graph |
| Digraph.SearchDone | pkg/state/dependency_graph.go:74-91 | once every node is finished, each is listed once, only edges on cycles may lead backward, and components lead |
| Digraph.SortMeaning | pkg/state/dependency_graph.go:49-91 | whatever the order of iteration, the sort lists each node once, with edges forward off cycles and components before what they reach |
| Digraph.StartingAt | pkg/state/dependency_graph.go:74-83 | some order of iteration puts a given node before everything its edges lead to |
| DependencyGraph.Graph.constructor | pkg/state/dependency_graph.go:23-28 | an empty graph satisfies the heap invariant |
| DependencyGraph.Graph.AddNode | pkg/state/dependency_graph.go:30-37 | the node of the value's name is returned; a known name keeps its first value, and no other node changes |
| DependencyGraph.Graph.AddSingleNode | pkg/state/dependency_graph.go:39-41 | the graph gains the name without an edge, or stays as it is |
| DependencyGraph.Graph.AddEdge | pkg/state/dependency_graph.go:43-47 | both names are present and exactly one edge, from the first to the second, is appended |
| DependencyGraph.Graph.EdgesStayInside | pkg/state/dependency_graph.go:43-47 | dependency pointers lead only to the map's own nodes |
| DependencyGraph.Graph.TopologicalSort | pkg/state/dependency_graph.go:49-91 | the result is the recursive search for some order of iteration: each kept value once, edges forward off cycles, components before what they reach |
| DependencyGraph.Graph.VisitEveryNode | pkg/state/dependency_graph.go:74-83 | the walk over the map visits each node once, and is the search over the order in which it does |
| DependencyGraph.Search.Visit | pkg/state/dependency_graph.go:56-72 | one call on the shared nodes of the heap terminates and does to the visited set and the list what the search on names does |
| DependencyGraph.Search.Collect | pkg/state/dependency_graph.go:85-87 | the result holds the kept values, in the order of the list |
| Terraform.ReadAllMeaning | pkg/state/routes.go:30-54 | reading fails exactly when a document is malformed; otherwise the last document of a name wins, and other names keep what they held |
| Terraform.LastDeclaredExists | pkg/state/routes.go:46 | a name has a last declaration exactly when some document declares it |
| Terraform.LastDeclaredIs | pkg/state/routes.go:46 | a declaration with none of the same name after it is the last one |
| Terraform.ReadAllConcat | pkg/state/manager.go:42-47 | reading several files is reading their documents one after the other, up to the first error |
| Terraform.ReadAllGrows | pkg/state/xds.go:80-160 | reading never removes a name, even when it fails |
| Terraform.ReadAllSkips | pkg/state/routes.go:34-36 | resources of another type have no effect |
| Terraform.DocsInOrder | pkg/state/xds.go:82-84 | the documents of a file are the instances of its resources, in order, each at its place |
| Terraform.EveryDocHasAPlace | pkg/state/xds.go:82-84 | and nothing else |
| Terraform.AllDocsInOrder | pkg/state/manager.go:42 | the files of a round are read in the order of the list |
| Routes.BuiltOneMore | pkg/state/routes.go:61-75 | adding one more route, in any order, leads to the next partial state of the Build |
| Routes.BuiltAll | pkg/state/routes.go:61-75 | having been through all routes gives the same graph for every order |
| Routes.RoutesState.constructor | pkg/state/builder.go:47-56 | a new state is empty, and its graph is keyed by route name |
| Routes.RoutesReadMeaning | pkg/state/routes.go:30-54 | reading succeeds exactly when every `cruiser_route` document decodes; then each name holds the route of its last document, and other names what they held |
| Routes.RoutesState.ReadFromTfstate | pkg/state/routes.go:30-54 | the same of the method, for the documents of the file |
| Routes.RoutesState.Build | pkg/state/routes.go:56-83 | fails exactly when a route names an absent parent, and then keeps the routes and sends nothing; otherwise merges the generation, empties the map and sends one update |
| Routes.RoutesState.GetRoutes | pkg/state/routes.go:85-92 | every kept route once, children before parents unless on a cycle |
| RouteHistory.AccumulatedMeaning | pkg/state/routes.go:56-81 | after any successful Builds each value is the first one seen, with one edge per Build that states a parent, in order |
| RouteHistory.NamesAreUnion | pkg/state/routes.go:56-81 | the nodes are exactly the names of all generations |
| RouteHistory.EdgesAreStatements | pkg/state/routes.go:63-75 | there is an edge exactly when some generation stated that parent |
| RouteHistory.StatedParentsMeaning | pkg/state/routes.go:63-75 | the parents counted for a route are those of the generations that name one |
| RouteHistory.AccumulatedIsClosed | pkg/state/routes.go:68-73 | after successful Builds every edge leads to a node |
| RouteHistory.KeptRouteHasItsEdge | pkg/state/dependency_graph.go:30-47 | a kept route always has an edge to the parent it names |
| RouteHistory.AccumulatedIsSound | pkg/state/routes.go:56-81 | successful Builds leave a graph the router theorems apply to |
| RouteHistory.AccumulatedIsNamed | pkg/state/routes.go:46 | every kept route stands under its own name |
| RouteHistory.PartBuiltIsSoundIff | pkg/state/routes.go:61-75 | what a Build leaves half-way has its edges between nodes, and is sound if and only if no node added only for a child names a parent |
| RouteHistory.PartBuiltCanBeUnsound | pkg/state/routes.go:68-73 | an input for which it is not |
| RouteHistory.SortOfAccumulated | pkg/state/routes.go:85-92 | the sort puts children before parents if and only if the union of all parent relations is acyclic |
| RouteHistory.FirstBuild | pkg/state/routes.go:56-83 | from an empty graph, the nodes are the map and the edges its parent relation |
| Router.LatestMeaning | pkg/server/router.go:47-51 | a lookup by name finds the latest route registered under it, if there is one |
| Router.RegistersLatest | pkg/server/router.go:51 | registering a route makes it the one found under its name |
| Router.Router.ParseProtoRouterConfig | pkg/server/router.go:31-41 | succeeds exactly when no guard refuses any route after those before it; then each route hangs below its parent and serves its backend as gRPC or HTTP, or nothing without one, and the handlers are those of the routes in order; otherwise the verdict is that of the first guard met |
| Router.Router.ParseProtoRoute | pkg/server/router.go:43-51 | one route hangs below its parent and is registered, or the verdict says why not |
| Router.Router.AttachHandler | pkg/server/router.go:132-162 | the handler is collected, and served as gRPC or HTTP when a provider and a backend exist |
| Router.HandlersAreCollected | pkg/server/router.go:138 | the handlers collected are those of exactly the routes that have one, in order |
| Router.ParentBeforeMeaning | pkg/server/router.go:47-48 | the parent is found exactly when an earlier route carries its name |
| Router.AcceptedMeaning | pkg/server/router.go:47-160 | a route is accepted exactly when none of the three guards refuses it |
| Router.RefusalMeaning | pkg/server/router.go:47-160 | each refusal comes from its own guard: a parent not registered, no provider, a handler without a backend |
| Router.ForestIsParentRelation | pkg/server/router.go:43-51 | for distinct names the forest is exactly the parent relation |
| Router.ChildBeforeParent | pkg/state/routes.go:73 | in the order of the sort a child stands before its parent |
| Router.ReverseOfSortIsAccepted | pkg/server/router.go:47-51 | the reverse of the sort of an acyclic graph has distinct names and every parent earlier |
| Router.CodeOrder | pkg/server/router.go:47-51 | cycles or not, the order the sort gives has every parent earlier if no kept route names a parent, and only if every parent that is named reaches its child |
| Router.CodeOrderIsAcceptedIff | pkg/server/router.go:47-51 | without cycles, if and only if no kept route names a parent |
| Router.EveryOrderIsAcceptedIff | pkg/server/router.go:47-51 | cycles or not, every order that the map can give is accepted if and only if no kept route names a parent |
| Router.ChildFirst | pkg/state/dependency_graph.go:74-83 | an order of iteration that starts at a child gives a list in which its parent comes too late |
| Router.AcceptedIff | pkg/server/router.go:31-51 | a sorted list is accepted if and only if parents come earlier and every handler can be served |
| Router.AcceptedIffReverseTopological | pkg/server/router.go:31-51 | every parent is found if and only if each kept route comes after the parent it names, whatever other edges the graph has; with no other edges, if and only if every edge leads backward |
| Router.OwnParentsIff | pkg/state/routes.go:63-73 | the graph has no other edges if and only if no later generation states another parent, however often one is stated again |
| Consumer.Rebuild | cmd/router.go:85-105 | the rebuilt router holds the sorted routes, or the verdict of the first refused; without cycles it succeeds if and only if no route has a parent and all handlers can be served; with cycles only if each named parent reaches its child |
| RoutesSync.StepKeepsInv | pkg/state/routes.go:56-92 | every step of Build, failing ones included, of its consumer and of the health check keeps the invariant on graph, lock and updates |
| RoutesSync.StepKeepsChecks | pkg/providers/aws/provider.go:90-139 | the health check keeps its own invariant inside the whole, and a pending stop keeps the consumer in its call |
| RoutesSync.StepKeepsGens | pkg/state/routes.go:61-77 | every generation that was built had its parents |
| RoutesSync.StepKeepsRebuild | cmd/router.go:89-105 | the router is built from a sort of the graph last read |
| RoutesSync.AlwaysInv | pkg/state/routes.go:56-92 | all of these hold in every reachable state |
| RoutesSync.FinishKeepsInv | pkg/state/routes.go:75-79 | when the last route is added the graph is at a whole number of Builds |
| RoutesSync.ReadSeesWholeBuilds | cmd/router.go:85-89 | the read triggered by the k-th update sees exactly the graph of the first k Builds; only the last, after a failed Build, may see what that Build left |
| RoutesSync.GensAreLocked | pkg/state/routes.go:56-79 | the Builds counted are those of the run, each with the generation it was called with, in order |
| RoutesSync.ReadIsSound | cmd/router.go:89 | what is read has its edges between nodes, and is sound unless a failed Build left a node with a missing edge, exactly then not |
| RoutesSync.RebuildIsAcceptedIff | cmd/router.go:96-105 | in every run the router that is built, unless the parents form a cycle, is accepted if and only if no route read names a parent and every handler can be served |
| RoutesSync.FailedBuildCanBeSeen | pkg/state/routes.go:68-71 | a run in which a read sees a part of a failed Build's routes |
| RoutesSync.StuckIff | cmd/router.go:70-112 | a Build never gets any further exactly when it is at its send and the consumer waits for the read lock, has left its loop, waits for ever in its health check, or is building a router that is refused or whose health check must wait for ever; or when the process has ended |
| RoutesSync.StuckForEver | pkg/state/routes.go:79 | in such a state no step, of whatever goroutine, brings the Build or its consumer on |
| RoutesSync.RefusalEndsProcess | pkg/server/builder.go:97-102 | a refused router can only end the process, after which nothing happens |
| RoutesSync.CallsWithHandlersRead | pkg/server/router.go:166-172 | the health check is called with the handlers of exactly the routes read, in order |
| RoutesSync.NothingIsChecked | pkg/providers/aws/provider.go:107-109 | with a zero interval no driver is ever started and no health check holds the consumer up |
| RoutesSync.ReceivePending | cmd/router.go:85-111 | in any other state a pending update can still be received, with the one call of the health check that the routes read allow |
| RoutesSync.StuckAtRead | cmd/router.go:85-89 | a run that ends stuck with the consumer at the read lock |
| RoutesSync.StuckAfterExit | cmd/router.go:73-83 | a run that ends stuck with the consumer gone |
| RoutesSync.LoseDriver | pkg/providers/aws/provider.go:117-137 | after the health check of one update the driver may be gone, or unable to send, so that the next call has to wait for ever |
| RoutesSync.StuckInHealthCheck | cmd/router.go:107 | for any capacity and any route with a handler, stated again and again, a run that ends stuck with the consumer in its health check |
| RoutesSync.StuckBeforeHealthCheck | cmd/router.go:100-107 | the same with the consumer still building the router, when no other call is left to make |
| RoutesSync.StuckBeforeRefusal | pkg/server/builder.go:97-102 | a run that ends with the Build at its send and the consumer building a router that is refused |
| XdsModel.TransactReplacesIff | pkg/state/xds.go:162-184 | a successful transaction makes the cache equal to the current map if and only if the cached names are covered |
| XdsModel.StepKeepsCovered | pkg/state/xds.go:80-227 | reads, endpoint updates and Builds, failed and partly applied ones included, keep the cached names covered |
| XdsModel.AlwaysCovered | pkg/state/xds.go:80-227 | the cached names are covered in every reachable state |
| XdsModel.BuildReplacesCache | pkg/state/xds.go:186-227 | at every reachable state, a successful Build leaves each cache equal to its current map, whatever failed before |
| XdsModel.CurrentIsLastRead | pkg/state/xds.go:80-160 | the current map holds what was last read under each name since the last successful Build |
| XdsModel.CacheIsLastGeneration | pkg/state/xds.go:186-227 | over any run ending in a successful Build the cache is exactly the generation read, a full replacement |
| XdsModel.KindIffType | pkg/state/xds.go:86-136 | each of the five type strings goes to its own group |
| XdsModel.DecodeMeaning | pkg/state/xds.go:86-152 | a document gives its group the decoded resource as it is, except that a load assignment takes the endpoints of the overlay if there are any; it is an error when any of the five cannot be decoded |
| XdsModel.CurrentHoldsLastRead | pkg/state/xds.go:80-160 | over any run the current map of a group holds exactly the names read since the last successful Build, each with the whole resource as last decoded, load assignments with the overlay of that moment |
| XdsModel.CacheHoldsLastRead | pkg/state/xds.go:186-227 | after a successful Build so does the cache |
| XdsModel.FailedBuild | pkg/state/xds.go:191-209 | a Build that fails at one transaction has replaced the caches before it, leaves those after it alone, and keeps what was read |
| XdsModel.PartialOutcomes | pkg/state/xds.go:182 | a failing UpdateResources may leave any mixture of old and new entries, and nothing else |
| XdsModel.CachedEndpoints | pkg/state/xds.go:144-150 | a cached load assignment has the endpoints the overlay held when it was last read, else those of the state file |
| XdsModel.LastDeclaredAppend | pkg/state/xds.go:150 | reading one more document changes the last value of its own name only |
| Xds.LinearCache.UpdateResources | pkg/state/xds.go:182 | the library call: updates then deletes are applied, or it fails having applied any part |
| Xds.TransactXdsResource | pkg/state/xds.go:162-184 | for every iteration order: names read again leave the to-delete map in place, and the delta goes to the cache |
| Xds.CollectNames | pkg/state/xds.go:174-180 | exactly the names of the to-delete map |
| Xds.ResourceGroup.DoTransact | pkg/state/xds.go:191-209 | the two map objects and the cache change as the transaction on values says |
| Xds.ResourceGroup.DoHandOver | pkg/state/xds.go:211-221 | the current map becomes the to-delete map by reference, and the two are still different objects |
| Xds.XdsState.constructor | pkg/state/builder.go:19-45 | five empty groups that share no object |
| Xds.XdsState.ReadInstance | pkg/state/xds.go:86-152 | the group of the resource's type, and no other, gains it under its name |
| Xds.XdsState.ReadFromTfstate | pkg/state/xds.go:80-160 | each group ends with the documents of the file read in order, up to the first malformed one |
| Xds.XdsState.Build | pkg/state/xds.go:186-227 | stops at the first failing transaction and hands nothing over; when all five succeed, hands over and sends one update |
| Xds.XdsState.HandOverAll | pkg/state/xds.go:211-221 | all five groups are handed over, still sharing no object |
| Xds.XdsState.SetClusterEndpoints | pkg/state/xds.go:229-245 | the overlay changes by the assignments up to and including the first empty one |
| ServiceDiscovery.SetEndpointsMeaning | pkg/state/xds.go:229-245 | the first empty assignment deletes its entry and hides the rest; before it the last assignment of a cluster wins; others keep theirs |
| ServiceDiscovery.InstalledAt | pkg/state/xds.go:241 | an assignment that takes effect and is the last of its cluster is what the overlay holds |
| ServiceDiscovery.SecondFlushInstallsAll | pkg/providers/aws/service_discovery/xds.go:200-216 | a second flush installs every surviving assignment, the last of a cluster winning, and keeps the list |
| ServiceDiscovery.FurtherFlushesChangeNothing | pkg/providers/aws/service_discovery/xds.go:200-216 | flushing again leaves the overlay as it is |
| ServiceDiscovery.FlushAfterSync | pkg/providers/aws/service_discovery/xds.go:200-216 | right after a reset only the first cluster loses its entry, and the whole list is dropped |
| ServiceDiscovery.NothingEmpty | pkg/providers/aws/service_discovery/xds.go:206-212 | a list without empty assignments takes effect and survives as a whole |
| ServiceDiscovery.NonEmptySplits | pkg/providers/aws/service_discovery/xds.go:204-214 | exactly the assignments without endpoints are dropped, and the order stays |
| ServiceDiscovery.Discovery.ResetEndpoints | pkg/providers/aws/service_discovery/xds.go:134-136 | every assignment object loses its endpoints in place |
| ServiceDiscovery.Discovery.Flush | pkg/providers/aws/service_discovery/xds.go:200-216 | the overlay takes the assignments, and only those with endpoints are kept |
| ServiceDiscovery.Discovery.Sync | pkg/providers/aws/service_discovery/xds.go:122-198 | the assignments lose their endpoints unless listing fails; nothing is added |
| ServiceDiscovery.Discovery.PeriodicSync | pkg/providers/aws/service_discovery/xds.go:218-243 | over any run the first flush drops the list and its first cluster's entry; from an empty list nothing ever changes |
| TfstateSource.TfstateSource.GetTfstate | pkg/providers/aws/s3/tfstate_source.go:28-128 | the result and the cache after the call, on every exit, are those of the scan on values |
| TfstateSource.TfstateSource.Refresh | pkg/providers/aws/s3/tfstate_source.go:57-104 | an entry changes only when its ETag does and the download succeeds; on failure nothing changes |
| TfstateSource.TfstateSource.Sweep | pkg/providers/aws/s3/tfstate_source.go:112-124 | exactly the entries that were not met are deleted |
| TfstateSource.ScanStops | pkg/providers/aws/s3/tfstate_source.go:47-49 | after a failure the remaining pages play no part |
| EtagCache.ListedMeaning | pkg/providers/aws/s3/tfstate_source.go:53-55 | an object is taken for a state file exactly if its name ends in `.tfstate` |
| EtagCache.ListedSplits | pkg/providers/aws/s3/tfstate_source.go:44-106 | the listed state files keep the order of the listing |
| EtagCache.FullNameIsInjective | pkg/providers/aws/s3/tfstate_source.go:67 | two objects of a bucket never share an entry |
| EtagCache.ScanKeepsCoherent | pkg/providers/aws/s3/tfstate_source.go:44-106 | the loop keeps each entry equal to what its ETag denotes |
| EtagCache.CacheStaysCoherent | pkg/providers/aws/s3/tfstate_source.go:28-128 | the same at every exit, error exits included |
| EtagCache.ScanIsFresh | pkg/providers/aws/s3/tfstate_source.go:74-100 | one result for each listed state file, in order, which is a fresh download's for every object with an ETag |
| EtagCache.ScanIsFreshDownload | pkg/providers/aws/s3/tfstate_source.go:74-100 | when all have one, the result is that of downloading everything, in listing order |
| EtagCache.EntryIsNilIff | pkg/providers/aws/s3/tfstate_source.go:69-98 | an entry is nil exactly when it was and the object has been listed without an ETag only |
| EtagCache.HandsOutNilIff | pkg/providers/aws/s3/tfstate_source.go:74-100 | a nil state file is handed out if and only if an object is listed without an ETag before it was ever downloaded |
| EtagCache.NilIsHandedOut | pkg/providers/aws/s3/tfstate_source.go:74-100 | an input for which that happens |
| EtagCache.ScanMeetsListed | pkg/providers/aws/s3/tfstate_source.go:102-104 | the names met are exactly those listed, and each is cached |
| EtagCache.ChangeSweepsCache | pkg/providers/aws/s3/tfstate_source.go:112-126 | after a changed call the cached names are exactly those listed |
| EtagCache.UnchangedIff | pkg/providers/aws/s3/tfstate_source.go:108-110 | a successful call reports no change if and only if no listed ETag differs from its entry, and then the entries are as before |
| EtagCache.ScanFailsIff | pkg/providers/aws/s3/tfstate_source.go:44-106 | the loop gets through if and only if the store lets it down at no page |
| EtagCache.FailsIff | pkg/providers/aws/s3/tfstate_source.go:28-128 | a call fails if and only if a listing, a head, or a download that was needed fails |
| EtagCache.EntryHasLatestETag | pkg/providers/aws/s3/tfstate_source.go:98 | an entry's ETag is that of the last page that listed it |
| EndToEnd.ReadRound | pkg/state/manager.go:42-47 | every group has read all documents of the round's files in order, up to the first malformed one |
| EndToEnd.ReadsIffDecodable | pkg/state/xds.go:80-160 | reading succeeds exactly when every document of a known type can be decoded |
| EndToEnd.RunManager | pkg/state/manager.go:40-56 | the goroutine succeeds if and only if every document can be decoded and every transaction succeeds, and then each cache equals what was read; every outcome is given, and keeps the cached names covered |
| EndToEnd.SourceStaysCoherent | pkg/providers/aws/s3/tfstate_source.go:28-128 | over all rounds the source's cache agrees with the store |
| EndToEnd.ScanHandsOut | pkg/providers/aws/s3/tfstate_source.go:28-128 | what a round hands out is one state file for each listed, the current one for every object with an ETag; nothing when no ETag changed |
| EndToEnd.TaggedDocsAreFresh | pkg/providers/aws/s3/tfstate_source.go:74-100 | when every object has an ETag, that is a fresh download |
| EndToEnd.LastRoundReadsBucket | pkg/state/manager.go:28-47 | what the manager reads in a round is just that |
| EndToEnd.ReadSinceBuild | pkg/state/xds.go:80-227 | since the last Build exactly the documents of the unfinished round were read |
| EndToEnd.RoundsEndBuilt | pkg/state/manager.go:49-54 | every finished round leaves nothing unread by a Build |
| EndToEnd.DeclaredIffNamed | pkg/state/xds.go:86-152 | a name is declared exactly when a document of that type carries it |
| EndToEnd.CachesFollowBucket | pkg/state/manager.go:28-60 | after every round, read in order and ended by a Build, each of the five caches has exactly the names of the state files handed out, the bucket's current ones as far as they have ETags, each with the whole resource as last decoded and the overlay of that moment |
| EndToEnd.UnchangedRoundEmptiesCaches | pkg/state/manager.go:42-49 | after a round in which no ETag changed every cache is empty |
| Pipeline.EventsOfAllCalls | pkg/state/manager.go:40-54 | a manager's calls are, round by round, the documents in order and one Build |
| Pipeline.SplitIntoRounds | pkg/state/manager.go:28-60 | a run of the xDS state made of those calls, mixed with endpoint updates, is a run of such rounds |
| Pipeline.BuiltHistory | pkg/state/manager.go:36-60 | a manager that has built has made the calls of all rounds so far |
| Pipeline.BuiltCachesFollowBucket | pkg/state/manager.go:26-76 | over every interleaving without errors, once the manager has built each cache has exactly those names, each with the whole resource as last decoded and the overlay of that moment; a fresh download's when every object has an ETag |
| Scheduler.StepKeepsInv | pkg/state/manager.go:26-76 | every step keeps WaitGroup, phases and histories in agreement |
| Scheduler.AlwaysInv | pkg/state/manager.go:26-76 | the same in every reachable state |
| Scheduler.FetchKeepsInv | pkg/state/manager.go:28-36 | starting a round turns the finished histories into those of the new round |
| Scheduler.WorkerMoves | pkg/state/manager.go:40-56 | a step of one manager's goroutine keeps the invariant of all |
| Scheduler.PendingCountUpdate | pkg/state/manager.go:38-54 | one goroutine's change moves the number of unfinished ones by exactly that one |
| Scheduler.WaitGroupCountsUnfinished | pkg/state/manager.go:36-60 | once all are started the WaitGroup counts those not finished successfully, and Wait can return exactly when there is none |
| Scheduler.HistoriesAreRoundByRound | pkg/state/manager.go:36-60 | every manager has done all earlier rounds in full and nothing beyond the current one |
| Scheduler.NewRoundMeansAllDone | pkg/state/manager.go:60-74 | when a new round can start each manager has made, round by round, the reads in order and one Build |
| Scheduler.ErrorStays | pkg/state/manager.go:30-52 | no step after an error clears it or starts a round |
| Scheduler.NoRoundAfterError | pkg/state/manager.go:26-76 | after any error no new round ever starts |
| Scheduler.WaitNeverReturnsAfterError | pkg/state/manager.go:43-60 | after a manager's error the scheduler never gets past Wait: it starts no round and does not end, not even on a cancellation |
| Scheduler.FailedCallStopsAll | pkg/state/manager.go:43-52 | from the step on by which a manager's call fails no round starts, that manager makes no call, Wait does not return, and the error is offered until one is taken |
| Scheduler.FailedFetchStopsAll | pkg/state/manager.go:30-34 | from a failed GetTfstate or a cancellation on no round starts, and the error is offered until one is taken |
| Scheduler.OneErrorIsTaken | cmd/router.go:78-83 | at most one error is ever taken |
| Scheduler.AnythingMayFail | pkg/state/manager.go:30-70 | any fetch and any call of a running manager may fail, any wait between rounds may be cancelled |
| Scheduler.RunRound | pkg/state/manager.go:28-74 | from every state in which a round can start, a run of that round leads to the next |
| Scheduler.AllRoundsCanRun | pkg/state/manager.go:26-76 | for any number of managers and any sequence of fetched state files there is a run of all the rounds |
| GrpcProtocol.StepKeepsInv | pkg/server/grpc.go:47-93 | every step of Handle and the two flows keeps the counting invariant |
| GrpcProtocol.AlwaysInv | pkg/server/grpc.go:47-93 | the same in every reachable state |
| GrpcProtocol.CounterCountsTurns | pkg/server/grpc.go:51-73 | the counter is the values plus closes taken, and is four if and only if both channels are nil, so the select never waits on two nil channels |
| GrpcProtocol.ReturnMeaning | pkg/server/grpc.go:51-75 | nil is returned if and only if both flows gave nil and both channels are closed; an error returned is the first non-nil one; End is called once |
| GrpcProtocol.DeliveredIsResult | pkg/server/grpc.go:87 | every value that Handle takes from a flow is the one with which that flow ended in the run |
| GrpcProtocol.ReturnTellsResults | pkg/server/grpc.go:50-75 | nil is returned only if both flows have ended with nil, an error only if a flow has ended with it |
| GrpcProtocol.AnyErrorCanBeReturned | pkg/server/grpc.go:59-70 | whatever error either flow ends with first can be what is returned |
| GrpcProtocol.NilCanBeReturned | pkg/server/grpc.go:50-75 | two flows that end with nil make it return nil, whichever ends first |
| GrpcProtocol.AtMostOneBlocked | pkg/server/grpc.go:79-93 | at most one goroutine stays blocked on its send, none after a nil return |
| GrpcProtocol.RunsAreShort | pkg/server/grpc.go:47-93 | no run has more than nine steps |
| GrpcProtocol.NeverStuckBeforeReturn | pkg/server/grpc.go:51-73 | until Handle returns some step is possible, its own once the flows are closed |
| GrpcForwarding.GrpcReceiveFrom | pkg/server/grpc.go:95-135 | Begin exactly if there is metadata, once and first; then the received payloads as requests, each once, in order, up to the stop, which gives nil at an end of stream, a stream's error as it is and a backend's wrapped |
| GrpcForwarding.ReceiveMeaning | pkg/server/grpc.go:111-129 | the stop of the receive flow and what it gives, error by error |
| GrpcForwarding.ReceiveSucceedsIff | pkg/server/grpc.go:111-133 | the flow gives nil if and only if the backend reported an end of stream for the last request, or all requests went well and the stream ended |
| GrpcForwarding.WrapMeaning | pkg/server/grpc.go:175-182 | a status stays as it is, any other error becomes an internal one |
| GrpcForwarding.ReceiveStopsOnce | pkg/server/grpc.go:103-131 | the stop is determined by stream and backend |
| GrpcForwarding.WholeStreamIsForwarded | pkg/server/grpc.go:111-119 | a stream that ends is forwarded whole when no request fails, and the flow gives nil |
| GrpcForwarding.GrpcSendFrom | pkg/server/grpc.go:137-173 | the header exactly if the first response has one, once and first; then the responses' payloads in order, each once, up to the stop, which gives nil at io.EOF and an error otherwise |
| GrpcForwarding.SendMeaning | pkg/server/grpc.go:155-169 | the stop of the send flow and what it gives, error by error |
| GrpcForwarding.SendStopsOnce | pkg/server/grpc.go:143-169 | the stop is determined by stream and backend |
| GrpcForwarding.SendSucceedsIff | pkg/server/grpc.go:155-171 | the flow gives nil if and only if an EOF-tagged response was the last one sent and nothing failed before |
| HealthCheck.StepKeepsInv | pkg/providers/aws/provider.go:90-139 | every step keeps channel, workers and WaitGroup in agreement with the driver's position |
| HealthCheck.AlwaysInv | pkg/providers/aws/provider.go:90-139 | the same in every reachable state |
| HealthCheck.OneDriverAndSafeWaitGroup | pkg/providers/aws/provider.go:101-122 | at most one driver is live, and Done calls never exceed Add calls |
| HealthCheck.WaitReturnsWhenAllDone | pkg/providers/aws/provider.go:119-125 | Wait returns only when every handler was taken, in order, each by one worker, and all are done |
| HealthCheck.DriverServesLastCall | pkg/providers/aws/provider.go:111-123 | the live driver checks the handlers of the last call with any; while that call waits for its stop, those of the one before |
| HealthCheck.WaitReturnsForLastCall | pkg/providers/aws/provider.go:119-125 | Wait returns only when exactly the handlers of that call were taken, in order, each by one worker |
| HealthCheck.CallsStartDrivers | pkg/providers/aws/provider.go:107-123 | a driver starts at once for the first call, in place of the old one when a later call's stop is received, and never for a call without handlers |
| HealthCheck.ProgressIffBuffered | pkg/providers/aws/provider.go:119-125 | a driver on its way to its select can be brought on if and only if the channel has a buffer |
| HealthCheck.AlwaysAtFirst | pkg/providers/aws/provider.go:119-123 | without a buffer every driver stays at its first handler |
| HealthCheck.FullBufferHasReceiver | pkg/providers/aws/provider.go:120 | there is one waiting worker for each buffered handler, so a full buffer can be emptied |
| HealthCheck.StepMakesProgress | pkg/providers/aws/provider.go:90-125 | every step of driver and workers leaves less to do |
| HealthCheck.EveryDriverReachesSelect | pkg/providers/aws/provider.go:119-127 | with a buffer, every run of the driver and its workers is bounded, and one that cannot go on has the driver at its select |
| HealthCheck.ReachSelect | pkg/providers/aws/provider.go:119-127 | with a buffer, a way to the select exists from every reachable state with a driver |
| HealthCheck.PendingStopIff | pkg/providers/aws/provider.go:111-136 | a pending stop can still be received if and only if a driver is live and the channel has a buffer |
| HealthCheck.StopWaitsForEver | pkg/providers/aws/provider.go:111-136 | otherwise nothing that happens lets the caller go on |
| HealthCheck.StopCanBeLost | pkg/providers/aws/provider.go:105-137 | for every capacity and any two non-empty lists of handlers, a run in which the second call waits for ever |

## Left out

- Routes.RoutesState.Build: after a failure the graph is only said to hold some part of the generation, since the part depends on the map's order.
- Consumer.Rebuild: ends before the call of the health check, which is a step of RoutesSync, and before the swap of the handler.
- EndToEnd.ReadRound: the overlay is fixed while the method reads; updates in between are covered by Pipeline.BuiltCachesFollowBucket.
- EndToEnd.RunManager: the same.
- Xds.XdsState.Build: the update is counted, not handed to a receiver; a Build blocked on that send, or a SetClusterEndpoints waiting for the lock, is not modelled.
- Xds.LinearCache.UpdateResources: a contract for a library call whose code is not part of this model; so are versions, watches and the xDS server.
- Calls to AWS: listing services, downloading objects, invoking and checking functions, assuming roles.
- The building of assignments in service discovery's sync, whose result is dropped; only the reset of the endpoints is modelled.
- Request matching of the router and the switch over matchers; only names, parents and handlers are kept.
- Decoding of JSON and protobuf messages; a decoded resource is a name with a payload.
- Servers, the swap of the handler, TLS, command-line handling and logging, and the consumer loop of cmd/xds.go.
- The HTTP backends and the table from HTTP to gRPC status codes.
- The exit of Handle when the backend factory fails.
- Data races in the memory model: each read of the overlay is one indivisible step.
- Real time: a timer may fire at any moment, and so may a cancellation.
- Pieces that split one function of the original for the proof have no row of their own: Insert, AppendDependency, VisitIfNew, AddRoute, ReadInstances, ReadResource, ReceiveLoopTurns, SendLoopTurns, SendTurn, SetFirstHeader, TransactOne, HandOverOne, Store, Delete, CollectStale, KeepNonEmpty, ForwardOne, SendOne.
