/** How Build and its consumer share the route graph: the write lock is held over the send on the
    unbuffered update channel, and the consumer takes the read lock after receiving, then builds a
    router and calls its health check before it can receive again.  pkg/state/routes.go, the select
    loop of cmd/router.go and the fan-out of pkg/providers/aws/provider.go, as interleaved steps. */
module RoutesSync {
  import opened Wrappers
  import opened Digraph
  import opened DependencyGraph
  import opened Routes
  import opened RouteHistory
  import opened Router
  import HealthCheck

  /** Where the goroutine that calls Build is.  Adding, Sending and Unlocking hold the write lock; a
      Broken one has returned an error, after which no round starts. */
  datatype Builder =
    | Idle
    | Adding(m: Generation, done: set<string>)
    | Sending
    | Unlocking
    | Broken(m: Generation, done: set<string>)

  /** Where the consumer is: in its select, past the receive, holding the read lock, building the
      router from the routes it was given, in the call of HealthCheckHandlers, gone after a cancellation
      or an error, or in a panic that has ended the process. */
  datatype Consumer =
    | Selecting
    | WantsRead
    | Sorting
    | Rebuilding(routes: seq<Route>)
    | InHealthCheck
    | Exited
    | Crashed

  datatype State = State(
    aws: bool,                      // the router has the AWS provider
    checking: bool,                 // the health-check interval is not zero
    graph: Content<Route>,
    builder: Builder,
    consumer: Consumer,
    checks: HealthCheck.State,
    gens: seq<Generation>,          // generations whose routes have all been added
    received: nat,                  // updates received
    seen: seq<Content<Route>>)      // the graph as each GetRoutes saw it

  datatype Action =
    | Lock(m: Generation)
    | Add(k: string)
    | Fail(k: string)
    | Finish
    | Deliver
    | Unlock
    | RLock
    | GetRoutes(result: seq<Route>)
    | Refuse
    | CallHealthCheck
    | HealthCheckReturns
    | Check(a: HealthCheck.Action)
    | Exit

  const EMPTY: Content<Route> := Content(map[], map[])

  ghost predicate Initial(s: State, capacity: nat) {
    && HealthCheck.Initial(s.checks, capacity)
    && s.graph == EMPTY && s.builder.Idle? && s.consumer.Selecting?
    && s.gens == [] && s.received == 0 && s.seen == []
  }

  /** The router's construction succeeds. */
  predicate IsAccepted(s: State)
    requires s.consumer.Rebuilding?
  {
    AllAccepted(s.aws, s.consumer.routes, |s.consumer.routes|)
  }

  /** What the health check is called with: the handlers of the router, or nothing, in effect, when the
      interval is zero. */
  function HandlersToCheck(s: State): seq<HealthCheck.Handler>
    requires s.consumer.Rebuilding?
  {
    if s.checking then Handlers(s.consumer.routes, |s.consumer.routes|) else []
  }

  ghost predicate Enabled(s: State, a: Action) {
    !s.consumer.Crashed? &&
    match a
    case Lock(m) => s.builder.Idle? && !s.consumer.Sorting? && WellNamed(m)
    case Add(k) =>
      && s.builder.Adding? && k in s.builder.m && k !in s.builder.done && Wf(s.graph)
      && HasParentIn(s.builder.m, s.builder.m[k])
    case Fail(k) =>
      && s.builder.Adding? && k in s.builder.m && k !in s.builder.done
      && !HasParentIn(s.builder.m, s.builder.m[k])
    case Finish => s.builder.Adding? && s.builder.done == s.builder.m.Keys
    case Deliver => s.builder.Sending? && s.consumer.Selecting?
    case Unlock => s.builder.Unlocking?
    case RLock => s.consumer.WantsRead? && !HoldsLock(s.builder)
    case GetRoutes(result) => s.consumer.Sorting? && IsSortOf(s.graph, result)
    case Refuse => s.consumer.Rebuilding? && !IsAccepted(s)
    case CallHealthCheck => s.consumer.Rebuilding? && IsAccepted(s) && s.checks.caller.Outside?
    case HealthCheckReturns => s.consumer.InHealthCheck? && s.checks.caller.Outside?
    case Check(step) => !step.Call? && HealthCheck.Enabled(s.checks, step)
    case Exit => s.consumer.Selecting?
  }

  predicate HoldsLock(builder: Builder) {
    builder.Adding? || builder.Sending? || builder.Unlocking?
  }

  function AfterAdd(graph: Content<Route>, m: Generation, k: string): Content<Route>
    requires Wf(graph) && k in m && HasParentIn(m, m[k])
  {
    if m[k].parentName == "" then WithNode(graph, k, m[k])
    else WithEdge(graph, k, m[k], m[k].parentName, m[m[k].parentName])
  }

  ghost function Next(s: State, a: Action): State
    requires Enabled(s, a)
  {
    match a
    case Lock(m) => s.(builder := Adding(m, {}))
    case Add(k) =>
      s.(builder := Adding(s.builder.m, s.builder.done + {k}), graph := AfterAdd(s.graph, s.builder.m, k))
    case Fail(_) => s.(builder := Broken(s.builder.m, s.builder.done))
    case Finish => s.(builder := Sending, gens := s.gens + [s.builder.m])
    case Deliver => s.(builder := Unlocking, consumer := WantsRead, received := s.received + 1)
    case Unlock => s.(builder := Idle)
    case RLock => s.(consumer := Sorting)
    case GetRoutes(result) => s.(consumer := Rebuilding(result), seen := s.seen + [s.graph])
    case Refuse => s.(consumer := Crashed)
    case CallHealthCheck =>
      s.(consumer := InHealthCheck, checks := HealthCheck.Next(s.checks, HealthCheck.Call(HandlersToCheck(s))))
    case HealthCheckReturns => s.(consumer := Selecting)
    case Check(step) => s.(checks := HealthCheck.Next(s.checks, step))
    case Exit => s.(consumer := Exited)
  }

  ghost predicate Step(s: State, t: State) {
    exists a :: Enabled(s, a) && t == Next(s, a)
  }

  /** `c` is a way on from `s`. */
  ghost predicate Continues(s: State, c: seq<State>) {
    && |c| > 0 && c[0] == s
    && forall i, j :: 0 <= i && j == i + 1 < |c| ==> Step(c[i], c[j])
  }

  /** A run; `capacity` is that of the health-check channel. */
  ghost predicate Behaviour(capacity: nat, b: seq<State>) {
    |b| > 0 && Initial(b[0], capacity) && Continues(b[0], b)
  }

  /** While a Build is adding, and after one has failed, the graph is part-way from the previous whole
      number of Builds; otherwise it is at a whole number of them. */
  ghost predicate GraphOk(s: State) {
    if s.builder.Adding? || s.builder.Broken? then BuiltUpTo(Accumulated(s.gens), s.builder.m, s.builder.done, s.graph)
    else s.graph == Accumulated(s.gens)
  }

  ghost predicate Inv(s: State) {
    && GraphOk(s)
    && |s.gens| == s.received + (if s.builder.Sending? then 1 else 0)
    && s.received == |s.seen| + (if s.consumer.WantsRead? || s.consumer.Sorting? then 1 else 0)
    && (s.consumer.Sorting? ==> !HoldsLock(s.builder))
    && (s.builder.Unlocking? ==> s.consumer.WantsRead?)
    && ReadsOk(s)
  }

  /** The k-th read saw the first k Builds, except that the last may have seen what a failed Build left. */
  ghost predicate ReadsOk(s: State) {
    && |s.seen| <= |s.gens|
    && forall i :: 0 <= i < |s.seen| ==>
                     || s.seen[i] == Accumulated(s.gens[..i + 1])
                     || (s.builder.Broken? && i == |s.gens| - 1 && s.seen[i] == s.graph)
  }

  ghost predicate ChecksOk(capacity: nat, s: State) {
    && HealthCheck.Inv(s.checks)
    && s.checks.capacity == capacity
    && (capacity == 0 ==> HealthCheck.NothingSent(s.checks))
    && (s.checks.caller.SendingStop? ==> s.consumer.InHealthCheck?)
  }

  /** Every generation that was built had its parents, and routes are keyed by their names. */
  predicate GensOk(s: State) {
    && AllBuildable(s.gens)
    && (forall i :: 0 <= i < |s.gens| ==> WellNamed(s.gens[i]))
    && (s.builder.Adding? || s.builder.Broken? ==> WellNamed(s.builder.m))
  }

  /** The routes from which a router is built are a sort of the graph last read. */
  ghost predicate RebuildOk(s: State) {
    s.consumer.Rebuilding? ==> s.seen != [] && IsSortOf(s.seen[|s.seen| - 1], s.consumer.routes)
  }

  ghost predicate AllOk(capacity: nat, s: State) {
    Inv(s) && ChecksOk(capacity, s) && GensOk(s) && RebuildOk(s)
  }

  lemma FinishKeepsInv(s: State)
    requires Inv(s) && Enabled(s, Finish)
    ensures Inv(Next(s, Finish))
  {
    var t := Next(s, Finish);
    assert t.gens[..|t.gens| - 1] == s.gens;
    BuiltAll(Accumulated(s.gens), s.builder.m, s.graph);
    forall i | 0 <= i < |t.seen|
      ensures t.seen[i] == Accumulated(t.gens[..i + 1])
    {
      assert t.gens[..i + 1] == s.gens[..i + 1];
    }
  }

  lemma GetRoutesKeepsInv(s: State, result: seq<Route>)
    requires Inv(s) && s.consumer.Sorting?
    ensures Inv(s.(consumer := Rebuilding(result), seen := s.seen + [s.graph]))
  {
    var t := s.(consumer := Rebuilding(result), seen := s.seen + [s.graph]);
    assert s.gens[..|s.seen| + 1] == s.gens;
    forall i | 0 <= i < |t.seen|
      ensures || t.seen[i] == Accumulated(t.gens[..i + 1])
              || (t.builder.Broken? && i == |t.gens| - 1 && t.seen[i] == t.graph)
    {
      assert i < |s.seen| ==> t.seen[i] == s.seen[i];
    }
  }

  lemma LockKeepsInv(s: State, m: Generation)
    requires Inv(s) && Enabled(s, Lock(m))
    ensures Inv(Next(s, Lock(m)))
  {
    NothingBuilt(Accumulated(s.gens), m);
  }

  lemma AddKeepsInv(s: State, k: string)
    requires Inv(s) && Enabled(s, Add(k))
    ensures Inv(Next(s, Add(k)))
  {
    BuiltOneMore(Accumulated(s.gens), s.builder.m, s.builder.done, s.graph, k);
  }

  lemma StepKeepsInv(s: State, a: Action)
    requires Inv(s) && Enabled(s, a)
    ensures Inv(Next(s, a))
  {
    match a
    case Lock(m) => LockKeepsInv(s, m);
    case Add(k) => AddKeepsInv(s, k);
    case Finish => FinishKeepsInv(s);
    case GetRoutes(result) => GetRoutesKeepsInv(s, result);
    case _ =>
  }

  lemma StepKeepsGens(s: State, a: Action)
    requires GensOk(s) && GraphOk(s) && Enabled(s, a)
    ensures GensOk(Next(s, a))
  {
    if a.Finish? {
      assert ParentsPresent(s.builder.m);
    }
  }

  lemma StepKeepsRebuild(s: State, a: Action)
    requires RebuildOk(s) && Enabled(s, a)
    ensures RebuildOk(Next(s, a))
  {
    if a.GetRoutes? {
      RebuildStarts(s, a.result);
    } else {
      RebuildStays(s, Next(s, a));
    }
  }

  lemma RebuildStarts(s: State, result: seq<Route>)
    requires IsSortOf(s.graph, result)
    ensures RebuildOk(s.(consumer := Rebuilding(result), seen := s.seen + [s.graph]))
  {
  }

  lemma RebuildStays(s: State, t: State)
    requires RebuildOk(s) && t.seen == s.seen && (t.consumer == s.consumer || !t.consumer.Rebuilding?)
    ensures RebuildOk(t)
  {
  }

  lemma StepKeepsChecks(capacity: nat, s: State, a: Action)
    requires ChecksOk(capacity, s) && Enabled(s, a)
    ensures ChecksOk(capacity, Next(s, a))
  {
    if a.Check? || a.CallHealthCheck? {
      var step := if a.Check? then a.a else HealthCheck.Call(HandlersToCheck(s));
      HealthCheck.StepKeepsInv(s.checks, step);
      if capacity == 0 {
        HealthCheck.NothingSentStays(s.checks, step);
      }
    }
  }

  lemma InitialInv(capacity: nat, s: State)
    requires Initial(s, capacity)
    ensures AllOk(capacity, s)
  {
    HealthCheck.InitialInv(capacity, s.checks);
  }

  lemma AnyStepKeepsInv(capacity: nat, s: State, t: State)
    requires AllOk(capacity, s) && Step(s, t)
    ensures AllOk(capacity, t)
  {
    var a :| Enabled(s, a) && t == Next(s, a);
    StepKeepsInv(s, a);
    StepKeepsChecks(capacity, s, a);
    StepKeepsGens(s, a);
    StepKeepsRebuild(s, a);
  }

  lemma {:induction false} AlwaysInv(capacity: nat, b: seq<State>, i: nat)
    requires Behaviour(capacity, b) && i < |b|
    ensures AllOk(capacity, b[i])
  {
    if i == 0 {
      InitialInv(capacity, b[0]);
    } else {
      AlwaysInv(capacity, b, i - 1);
      AnyStepKeepsInv(capacity, b[i - 1], b[i]);
    }
  }

  /** The graph a failed Build has left. */
  ghost predicate LeftByFailure(s: State, c: Content<Route>) {
    && s.builder.Broken? && c == s.graph
    && BuiltUpTo(Accumulated(s.gens), s.builder.m, s.builder.done, s.graph)
  }

  /** The read triggered by the k-th update sees exactly the graph of the first k Builds: never a later
      one, and a half-built one only if the next Build has failed and so was the last ever. */
  lemma ReadSeesWholeBuilds(capacity: nat, b: seq<State>, i: nat, k: nat)
    requires Behaviour(capacity, b) && i < |b| && k < |b[i].seen|
    ensures k < |b[i].gens|
    ensures || b[i].seen[k] == Accumulated(b[i].gens[..k + 1])
            || (k == |b[i].gens| - 1 && LeftByFailure(b[i], b[i].seen[k]))
  {
    AlwaysInv(capacity, b, i);
  }

  /** What is read is sound, so that the theorems about sorting and accepting apply to it; after a
      failure exactly when that Build has added no node for a child that names a parent itself. */
  lemma ReadIsSound(capacity: nat, b: seq<State>, i: nat, k: nat)
    requires Behaviour(capacity, b) && i < |b| && k < |b[i].seen|
    ensures Closed(b[i].seen[k].deps)
    ensures Sound(b[i].seen[k]) <==>
            (LeftByFailure(b[i], b[i].seen[k]) ==>
               forall r :: Unfinished(Accumulated(b[i].gens), b[i].builder.done, b[i].seen[k], r) ==>
                             b[i].builder.m[r].parentName == "")
    ensures !b[i].builder.Broken? ==> Sound(b[i].seen[k])
  {
    var s := b[i];
    AlwaysInv(capacity, b, i);
    ReadSeesWholeBuilds(capacity, b, i, k);
    AccumulatedIsSound(s.gens[..k + 1]);
    AccumulatedIsSound(s.gens);
    if LeftByFailure(s, s.seen[k]) {
      PartBuiltIsSoundIff(Accumulated(s.gens), s.builder.m, s.builder.done, s.graph);
    }
  }

  /** When the router that is built in a run is refused, which ends the process: unless the union of the
      parent relations has a cycle, exactly if a route names a parent or a handler cannot be served. */
  lemma RebuildIsAcceptedIff(capacity: nat, b: seq<State>, i: nat)
    requires Behaviour(capacity, b) && i < |b| && b[i].consumer.Rebuilding? && !b[i].builder.Broken?
    ensures b[i].seen != []
    ensures var c := b[i].seen[|b[i].seen| - 1];
            Acyclic(c.deps) ==>
              (IsAccepted(b[i]) <==> NoParents(c) && forall k :: k in c.vals ==> Servable(b[i].aws, c.vals[k]))
  {
    AlwaysInv(capacity, b, i);
    var c, routes := b[i].seen[|b[i].seen| - 1], b[i].consumer.routes;
    ReadIsSound(capacity, b, i, |b[i].seen| - 1);
    AcceptedIff(b[i].aws, c, routes);
    if Acyclic(c.deps) {
      CodeOrderIsAcceptedIff(c, routes);
    }
  }

  lemma Extend(s: State, c: seq<State>, a: Action) returns (c': seq<State>)
    requires Continues(s, c) && Enabled(c[|c| - 1], a)
    ensures Continues(s, c') && c'[|c'| - 1] == Next(c[|c| - 1], a)
  {
    c' := c + [Next(c[|c| - 1], a)];
    assert Step(c[|c| - 1], Next(c[|c| - 1], a));
  }

  /** Any way on of the health check alone is one of the whole. */
  lemma ExtendChecks(s: State, c: seq<State>, checks: seq<HealthCheck.State>) returns (c': seq<State>)
    requires Continues(s, c) && HealthCheck.Continues(c[|c| - 1].checks, checks) && !c[|c| - 1].consumer.Crashed?
    ensures Continues(s, c') && c'[|c'| - 1] == c[|c| - 1].(checks := checks[|checks| - 1])
  {
    var last := c[|c| - 1];
    c' := c + seq(|checks| - 1, i requires 0 <= i < |checks| - 1 => last.(checks := checks[i + 1]));
    forall i, j | 0 <= i && j == i + 1 < |c'|
      ensures Step(c'[i], c'[j])
    {
      if i >= |c| - 1 {
        var n := i - |c| + 1;
        assert c'[i] == last.(checks := checks[n]) && c'[j] == last.(checks := checks[n + 1]);
        assert HealthCheck.InnerStep(checks[n], checks[n + 1]);
        var a: HealthCheck.Action :| && !a.Call? && HealthCheck.Enabled(checks[n], a)
                                     && checks[n + 1] == HealthCheck.Next(checks[n], a);
        assert Enabled(c'[i], Check(a)) && c'[j] == Next(c'[i], Check(a));
      }
    }
  }

  /** A Build in progress that will never get any further, whatever happens. */
  ghost predicate Stuck(s: State) {
    HoldsLock(s.builder) && forall c: seq<State> :: Continues(s, c) ==> c[|c| - 1].builder == s.builder
  }

  /** The consumer will never be back in its select: it waits for the read lock, has left its loop, is in
      a health check whose stop nobody will receive, or is building a router that is refused or whose
      health check will end like that. */
  predicate NotComingBack(s: State) {
    || s.consumer.WantsRead?
    || s.consumer.Exited?
    || s.consumer.Crashed?
    || (s.consumer.InHealthCheck? && HealthCheck.NeverReceived(s.checks))
    || (s.consumer.Rebuilding? && (!IsAccepted(s) || (HandlersToCheck(s) != [] && HealthCheck.WouldWait(s.checks))))
  }

  lemma StuckStays(s: State, a: Action)
    requires s.builder.Sending? && NotComingBack(s) && Enabled(s, a)
    ensures Next(s, a).builder.Sending? && NotComingBack(Next(s, a))
  {
    if a.Check? && s.consumer.InHealthCheck? {
      HealthCheck.NeverReceivedStays(s.checks, a.a);
    } else if a.Check? && s.consumer.Rebuilding? && IsAccepted(s) {
      HealthCheck.WouldWaitStays(s.checks, a.a);
    } else if a.CallHealthCheck? {
      HealthCheck.CallWaits(s.checks, HandlersToCheck(s));
    }
  }

  lemma {:induction false} StuckForEver(s: State, c: seq<State>, i: nat)
    requires s.builder.Sending? && NotComingBack(s) && Continues(s, c) && i < |c|
    ensures c[i].builder.Sending? && NotComingBack(c[i])
  {
    if i > 0 {
      StuckForEver(s, c, i - 1);
      assert Step(c[i - 1], c[i]);
      var a :| Enabled(c[i - 1], a) && c[i] == Next(c[i - 1], a);
      StuckStays(c[i - 1], a);
    }
  }

  /** A health check that returns, or whose stop can be received, lets the consumer receive again. */
  lemma ReceiveAfterCheck(s: State, c: seq<State>) returns (c': seq<State>)
    requires Continues(s, c)
    requires var last := c[|c| - 1];
             && last.builder.Sending? && last.consumer.InHealthCheck? && HealthCheck.Inv(last.checks)
             && (last.checks.caller.SendingStop? ==> last.checks.drivers != [] && last.checks.capacity > 0)
    ensures Continues(s, c') && c'[|c'| - 1].builder.Unlocking?
  {
    c' := c;
    if c[|c| - 1].checks.caller.SendingStop? {
      var checks := HealthCheck.ReceiveStop(c[|c| - 1].checks);
      c' := ExtendChecks(s, c, checks);
    }
    c' := Extend(s, c', HealthCheckReturns);
    c' := Extend(s, c', Deliver);
  }

  /** The only health check there is to call, from a state in which the consumer can come back. */
  lemma CallCheck(capacity: nat, s: State) returns (c: seq<State>)
    requires ChecksOk(capacity, s) && s.consumer.Rebuilding? && !NotComingBack(s)
    ensures Continues(s, c)
    ensures var last := c[|c| - 1];
            && last == s.(consumer := InHealthCheck, checks := last.checks) && HealthCheck.Inv(last.checks)
            && (last.checks.caller.SendingStop? ==> last.checks.drivers != [] && last.checks.capacity > 0)
  {
    c := Extend(s, [s], CallHealthCheck);
    HealthCheck.StepKeepsInv(s.checks, HealthCheck.Call(HandlersToCheck(s)));
  }

  /** A consumer that is not gone can get back to its select and receive. */
  lemma ReceivePending(capacity: nat, s: State) returns (c: seq<State>)
    requires Inv(s) && ChecksOk(capacity, s) && s.builder.Sending? && !NotComingBack(s)
    ensures Continues(s, c) && c[|c| - 1].builder.Unlocking?
  {
    c := [s];
    if s.consumer.Selecting? {
      c := Extend(s, c, Deliver);
      return;
    }
    if s.consumer.Rebuilding? {
      c := CallCheck(capacity, s);
    }
    c := ReceiveAfterCheck(s, c);
  }

  /** A Build that is adding routes, or past its send, can go on. */
  lemma BuilderStep(s: State) returns (a: Action)
    requires Inv(s) && (s.builder.Adding? || s.builder.Unlocking?) && !s.consumer.Crashed?
    ensures Enabled(s, a) && Next(s, a).builder != s.builder
  {
    if s.builder.Unlocking? {
      return Unlock;
    }
    var m, done := s.builder.m, s.builder.done;
    if done == m.Keys {
      return Finish;
    }
    assert done < m.Keys;
    var k :| k in m.Keys && k !in done;
    return if HasParentIn(m, m[k]) then Add(k) else Fail(k);
  }

  /** A Build is stuck, holding the write lock for ever, exactly when it is at its send and the consumer
      is not coming back, or when the process has ended under it. */
  lemma StuckIff(capacity: nat, b: seq<State>, i: nat)
    requires Behaviour(capacity, b) && i < |b|
    ensures Stuck(b[i]) <==>
            (b[i].builder.Sending? && NotComingBack(b[i])) || (b[i].consumer.Crashed? && HoldsLock(b[i].builder))
  {
    AlwaysInv(capacity, b, i);
    var s := b[i];
    if s.builder.Sending? {
      PendingSendIsStuckIff(capacity, s);
    } else if s.consumer.Crashed? {
      forall c: seq<State> | Continues(s, c)
        ensures |c| == 1
      {
        assert |c| > 1 ==> Step(c[0], c[1]);
      }
    } else if HoldsLock(s.builder) {
      var a := BuilderStep(s);
      var c := Extend(s, [s], a);
      assert c[|c| - 1].builder != s.builder;
    }
  }

  lemma PendingSendIsStuckIff(capacity: nat, s: State)
    requires Inv(s) && ChecksOk(capacity, s) && s.builder.Sending?
    ensures Stuck(s) <==> NotComingBack(s)
  {
    if NotComingBack(s) {
      forall c: seq<State> | Continues(s, c)
        ensures c[|c| - 1].builder == s.builder
      {
        StuckForEver(s, c, |c| - 1);
      }
    } else {
      var c := ReceivePending(capacity, s);
      assert c[|c| - 1].builder != s.builder;
    }
  }

  lemma Start(capacity: nat, aws: bool) returns (b: seq<State>)
    ensures Behaviour(capacity, b) && |b| == 1 && b[0].aws == aws && b[0].checking
  {
    var checks := HealthCheck.State(capacity, [], HealthCheck.Outside, false, [], [], 0, 0, 0, 0, 0, 0);
    b := [State(aws, true, EMPTY, Idle, Selecting, checks, [], 0, [])];
  }

  /** The generation with one route, and its graph. */
  function Only(route: Route): Generation {
    map[route.name := route]
  }

  function GraphOf(route: Route): Content<Route> {
    Content(Only(route), map[route.name := []])
  }

  predicate ServesLambda(route: Route) {
    route.parentName == "" && route.handler.Some? && route.handler.value.AwsLambda?
  }

  predicate CanBuild(s: State, route: Route) {
    s.builder.Idle? && !s.consumer.Sorting? && !s.consumer.Crashed? && (s.graph == EMPTY || s.graph == GraphOf(route))
  }

  /** A Build of one route, up to its send. */
  lemma BuildOne(s: State, b: seq<State>, route: Route) returns (b': seq<State>)
    requires Continues(s, b) && CanBuild(b[|b| - 1], route) && route.parentName == ""
    ensures Continues(s, b')
    ensures b'[|b'| - 1] ==
            b[|b| - 1].(builder := Sending, graph := GraphOf(route), gens := b[|b| - 1].gens + [Only(route)])
  {
    b' := Extend(s, b, Lock(Only(route)));
    b' := Extend(s, b', Add(route.name));
    assert b'[|b'| - 1].graph == GraphOf(route);
    b' := Extend(s, b', Finish);
  }

  lemma OnlySort(route: Route)
    ensures IsSortOf(GraphOf(route), [route])
  {
    var deps, k := GraphOf(route).deps, route.name;
    assert NamesOf([route]) == [k];
    assert VisitAll(deps, SearchState({k}, []), deps[k]) == SearchState({k}, []);
    assert VisitAll(deps, SearchState({k}, [k]), []) == SearchState({k}, [k]);
    assert {} + {k} == {k} && [k][1..] == [] && [k] + [] == [k];
    assert SortBy(deps, [k]) == [k];
    assert Lists(deps, [k]);
    SortMeaning(deps, [k]);
  }

  /** The update is received and read. */
  lemma ReadOne(s: State, b: seq<State>, route: Route) returns (b': seq<State>)
    requires Continues(s, b)
    requires b[|b| - 1].builder.Sending? && b[|b| - 1].consumer.Selecting? && b[|b| - 1].graph == GraphOf(route)
    ensures Continues(s, b')
    ensures var last, last' := b[|b| - 1], b'[|b'| - 1];
            last' == last.(builder := Idle, consumer := Rebuilding([route]), received := last.received + 1,
                           seen := last.seen + [GraphOf(route)])
  {
    b' := ReceiveOne(s, b);
    OnlySort(route);
    b' := Extend(s, b', RLock);
    b' := Extend(s, b', GetRoutes([route]));
  }

  lemma ReceiveOne(s: State, b: seq<State>) returns (b': seq<State>)
    requires Continues(s, b) && b[|b| - 1].builder.Sending? && b[|b| - 1].consumer.Selecting?
    ensures Continues(s, b')
    ensures b'[|b'| - 1] ==
            b[|b| - 1].(builder := Idle, consumer := WantsRead, received := b[|b| - 1].received + 1)
  {
    b' := Extend(s, b, Deliver);
    b' := Extend(s, b', Unlock);
  }

  /** A whole update, up to the construction of the router. */
  lemma UpdateOne(s: State, b: seq<State>, route: Route) returns (b': seq<State>)
    requires Continues(s, b) && CanBuild(b[|b| - 1], route) && b[|b| - 1].consumer.Selecting? && route.parentName == ""
    ensures Continues(s, b')
    ensures var last, last' := b[|b| - 1], b'[|b'| - 1];
            && last'.builder.Idle? && last'.consumer == Rebuilding([route]) && last'.graph == GraphOf(route)
            && last'.checks == last.checks && last'.aws == last.aws && last'.checking == last.checking
  {
    b' := BuildOne(s, b, route);
    b' := ReadOne(s, b', route);
  }

  lemma HandlersOfOne(s: State, route: Route)
    requires s.consumer == Rebuilding([route]) && s.aws && s.checking && ServesLambda(route)
    ensures IsAccepted(s) && HandlersToCheck(s) == [route.handler.value]
  {
    assert Handlers([route], 1) == Handlers([route], 0) + [route.handler.value];
  }

  /** The first health check starts a driver. */
  lemma StartDriver(capacity: nat, route: Route) returns (b: seq<State>)
    requires ServesLambda(route)
    ensures Behaviour(capacity, b)
    ensures var last := b[|b| - 1];
            && CanBuild(last, route) && last.consumer.Selecting? && last.aws && last.checking
            && last.checks.caller.Outside? && last.checks.stopCreated && last.checks.drivers != []
  {
    b := Start(capacity, true);
    var s := b[0];
    b := UpdateOne(s, b, route);
    HandlersOfOne(b[|b| - 1], route);
    b := Extend(s, b, CallHealthCheck);
    b := Extend(s, b, HealthCheckReturns);
  }

  /** The driver times out; or, without a buffer, it never gets there. */
  lemma LoseDriver(capacity: nat, route: Route) returns (b: seq<State>)
    requires ServesLambda(route)
    ensures Behaviour(capacity, b)
    ensures var last := b[|b| - 1];
            && CanBuild(last, route) && last.consumer.Selecting? && last.aws && last.checking
            && last.checks.caller.Outside? && HealthCheck.WouldWait(last.checks)
  {
    b := StartDriver(capacity, route);
    AlwaysInv(capacity, b, |b| - 1);
    if capacity > 0 {
      var checks := HealthCheck.ReachSelect(b[|b| - 1].checks);
      b := TimeOut(b[0], b, checks);
    }
  }

  lemma TimeOut(s: State, b: seq<State>, checks: seq<HealthCheck.State>) returns (b': seq<State>)
    requires Continues(s, b) && HealthCheck.Continues(b[|b| - 1].checks, checks) && !b[|b| - 1].consumer.Crashed?
    requires var ready := checks[|checks| - 1];
             HealthCheck.Inv(ready) && ready.drivers != [] && ready.drivers[0].phase.Selecting?
    ensures Continues(s, b')
    ensures var ready, gone := checks[|checks| - 1], b'[|b'| - 1].checks;
            && b'[|b'| - 1] == b[|b| - 1].(checks := gone)
            && gone.drivers == [] && gone.stopCreated && gone.caller == ready.caller
  {
    b' := ExtendChecks(s, b, checks);
    b' := Extend(s, b', Check(HealthCheck.TimerOrContext(0)));
  }

  /** A second Build may start between the receive and the read. */
  lemma StuckAtRead(capacity: nat, route: Route) returns (b: seq<State>)
    requires route.parentName == ""
    ensures Behaviour(capacity, b) && Stuck(b[|b| - 1]) && b[|b| - 1].consumer.WantsRead?
  {
    b := Start(capacity, true);
    var s := b[0];
    b := BuildOne(s, b, route);
    b := Extend(s, b, Deliver);
    b := Extend(s, b, Unlock);
    b := BuildOne(s, b, route);
    StuckIff(capacity, b, |b| - 1);
  }

  /** The consumer may have left its loop when a Build sends. */
  lemma StuckAfterExit(capacity: nat, route: Route) returns (b: seq<State>)
    requires route.parentName == ""
    ensures Behaviour(capacity, b) && Stuck(b[|b| - 1]) && b[|b| - 1].consumer.Exited?
  {
    b := Start(capacity, true);
    var s := b[0];
    b := Extend(s, b, Exit);
    b := BuildOne(s, b, route);
    StuckIff(capacity, b, |b| - 1);
  }

  /** A route that is stated again and again, with a handler: the health check of the second update waits
      for ever, for every capacity. */
  lemma StuckInHealthCheck(capacity: nat, route: Route) returns (b: seq<State>)
    requires ServesLambda(route)
    ensures Behaviour(capacity, b) && Stuck(b[|b| - 1]) && b[|b| - 1].consumer.InHealthCheck?
  {
    b := LoseDriver(capacity, route);
    var s := b[0];
    b := UpdateOne(s, b, route);
    HandlersOfOne(b[|b| - 1], route);
    HealthCheck.CallWaits(b[|b| - 1].checks, [route.handler.value]);
    b := Extend(s, b, CallHealthCheck);
    b := BuildOne(s, b, route);
    StuckIff(capacity, b, |b| - 1);
  }

  /** The same run, when the next Build sends before the call: there is no other call to make. */
  lemma StuckBeforeHealthCheck(capacity: nat, route: Route) returns (b: seq<State>)
    requires ServesLambda(route)
    ensures Behaviour(capacity, b) && Stuck(b[|b| - 1])
    ensures b[|b| - 1].consumer.Rebuilding? && IsAccepted(b[|b| - 1])
  {
    b := LoseDriver(capacity, route);
    var s := b[0];
    b := UpdateOne(s, b, route);
    b := BuildOne(s, b, route);
    HandlersOfOne(b[|b| - 1], route);
    StuckIff(capacity, b, |b| - 1);
  }

  /** A handler without a provider: the router is refused, which ends the process with the Build in it. */
  lemma StuckBeforeRefusal(capacity: nat, route: Route) returns (b: seq<State>)
    requires ServesLambda(route)
    ensures Behaviour(capacity, b) && Stuck(b[|b| - 1])
    ensures b[|b| - 1].consumer.Rebuilding? && !IsAccepted(b[|b| - 1])
  {
    b := Start(capacity, false);
    var s := b[0];
    b := UpdateOne(s, b, route);
    b := BuildOne(s, b, route);
    assert !Accepted(false, [route], 0);
    StuckIff(capacity, b, |b| - 1);
  }

  /** A route that is built first, and a generation that fails half-way. */
  function Orphaned(good: Route): Generation {
    var orphan := Route(good.name + "-orphan", good.name + "-absent", false, None);
    map[good.name := good, orphan.name := orphan]
  }

  /** A read that comes after a failed Build can see a part of its routes. */
  lemma FailedBuildCanBeSeen(capacity: nat, first: Route, good: Route) returns (b: seq<State>)
    requires first.parentName == "" && good.parentName == "" && first.name != good.name
    ensures Behaviour(capacity, b)
    ensures var last := b[|b| - 1];
            last.builder.Broken? && |last.seen| == |last.gens| == 1 && last.seen[0] != Accumulated(last.gens)
  {
    b := Start(capacity, true);
    var s := b[0];
    b := BuildOne(s, b, first);
    b := Extend(s, b, Deliver);
    b := Extend(s, b, Unlock);
    b := FailAfter(s, b, good);
    b := Extend(s, b, RLock);
    AlwaysInv(capacity, b, |b| - 1);
    assert good.name in b[|b| - 1].graph.vals && good.name !in Accumulated([Only(first)]).vals by {
      NamesAreUnion([Only(first)], good.name);
    }
    var result := SomeSort(b[|b| - 1].graph);
    b := Extend(s, b, GetRoutes(result));
  }

  lemma FailAfter(s: State, b: seq<State>, good: Route) returns (b': seq<State>)
    requires Continues(s, b) && b[|b| - 1].builder.Idle? && b[|b| - 1].consumer.WantsRead? && Wf(b[|b| - 1].graph)
    requires good.parentName == ""
    ensures Continues(s, b')
    ensures b'[|b'| - 1] == b[|b| - 1].(builder := Broken(Orphaned(good), {good.name}),
                                        graph := WithNode(b[|b| - 1].graph, good.name, good))
  {
    var absent, orphan := good.name + "-absent", good.name + "-orphan";
    assert |orphan| == |good.name| + 7 && |absent| == |good.name| + 7;
    assert orphan[|good.name| + 1] == 'o' && absent[|good.name| + 1] == 'a';
    assert Orphaned(good)[good.name] == good;
    b' := Extend(s, b, Lock(Orphaned(good)));
    b' := Extend(s, b', Add(good.name));
    assert b'[|b'| - 1].builder.done == {good.name};
    b' := Extend(s, b', Fail(orphan));
  }

  /** A graph in which no route names a parent has a sort. */
  lemma SomeSort(c: Content<Route>) returns (result: seq<Route>)
    requires Wf(c) && NamedByKey(c) && Closed(c.deps)
    ensures IsSortOf(c, result)
  {
    var iteration := ListNames(c.deps.Keys);
    assert Lists(c.deps, iteration);
    result := SortedRoutes(c, SortBy(c.deps, iteration));
  }

  /** A refused router ends the process: nothing else can happen to it, and nothing happens after. */
  lemma RefusalEndsProcess(s: State, a: Action)
    requires s.consumer.Rebuilding? && !IsAccepted(s)
    ensures Enabled(s, Refuse) && Next(s, Refuse).consumer.Crashed? && !Enabled(Next(s, Refuse), a)
    ensures Enabled(s, a) && a != Refuse ==> Next(s, a).consumer == s.consumer && !a.CallHealthCheck?
  {
  }

  /** A run with the actions taken. */
  ghost predicate RunOf(capacity: nat, b: seq<State>, acts: seq<Action>) {
    && |b| == |acts| + 1 && Initial(b[0], capacity)
    && forall i, j :: 0 <= i && j == i + 1 < |b| ==> Follows(b[i], acts[i], b[j])
  }

  ghost predicate Follows(s: State, a: Action, t: State) {
    Enabled(s, a) && t == Next(s, a)
  }

  /** The generations with which Build was called, in order. */
  function Locks(acts: seq<Action>): seq<Generation> {
    if acts == [] then []
    else
      var last := acts[|acts| - 1];
      Locks(acts[..|acts| - 1]) + if last.Lock? then [last.m] else []
  }

  function InProgress(builder: Builder): seq<Generation> {
    if builder.Adding? || builder.Broken? then [builder.m] else []
  }

  lemma StepKeepsLocks(s: State, a: Action, t: State, acts: seq<Action>)
    requires s.gens + InProgress(s.builder) == Locks(acts) && Follows(s, a, t)
    ensures t.gens + InProgress(t.builder) == Locks(acts + [a])
  {
    assert (acts + [a])[..|acts|] == acts;
    if !a.Lock? && !a.Finish? {
      OtherStepsKeepGens(s, a);
    }
  }

  lemma OtherStepsKeepGens(s: State, a: Action)
    requires Enabled(s, a) && !a.Lock? && !a.Finish?
    ensures Next(s, a).gens == s.gens && InProgress(Next(s, a).builder) == InProgress(s.builder)
  {
  }

  /** The generations in the graph are those with which Build was called, in order; the last of the calls
      may be under way, or have failed. */
  lemma {:induction false} GensAreLocked(capacity: nat, b: seq<State>, acts: seq<Action>, n: nat)
    requires RunOf(capacity, b, acts) && n < |b|
    ensures b[n].gens + InProgress(b[n].builder) == Locks(acts[..n])
  {
    if n > 0 {
      GensAreLocked(capacity, b, acts, n - 1);
      assert Follows(b[n - 1], acts[n - 1], b[n]);
      assert acts[..n] == acts[..n - 1] + [acts[n - 1]];
      StepKeepsLocks(b[n - 1], acts[n - 1], b[n], acts[..n - 1]);
    }
  }

  /** The health check is called with the handlers of exactly the routes that have one, in order. */
  lemma CallsWithHandlersRead(s: State)
    requires s.consumer.Rebuilding? && s.checking && Enabled(s, CallHealthCheck)
    ensures exists at, handlers ::
              && AreCollected(s.consumer.routes, |s.consumer.routes|, at, handlers)
              && Next(s, CallHealthCheck).checks == HealthCheck.Next(s.checks, HealthCheck.Call(handlers))
  {
    var routes := s.consumer.routes;
    HandlersAreCollected(routes, |routes|);
    assert AreCollected(routes, |routes|, Places(routes, |routes|), Handlers(routes, |routes|));
  }

  predicate Unchecked(s: State) {
    !s.checking && s.checks.drivers == [] && !s.checks.stopCreated && s.checks.caller.Outside?
  }

  lemma StepKeepsUnchecked(s: State, a: Action)
    requires Unchecked(s) && Enabled(s, a)
    ensures Unchecked(Next(s, a))
  {
  }

  /** With a zero interval no driver is ever started, and no health check holds the consumer up. */
  lemma {:induction false} NothingIsChecked(capacity: nat, b: seq<State>, i: nat)
    requires Behaviour(capacity, b) && i < |b| && !b[0].checking
    ensures Unchecked(b[i])
  {
    if i > 0 {
      NothingIsChecked(capacity, b, i - 1);
      assert Step(b[i - 1], b[i]);
      var a :| Enabled(b[i - 1], a) && b[i] == Next(b[i - 1], a);
      StepKeepsUnchecked(b[i - 1], a);
    }
  }
}
