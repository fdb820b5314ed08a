/** HealthCheckHandlers and doHealthCheck of pkg/providers/aws/provider.go as interleaved steps: a
    driver goroutine, one worker per handler, a channel of bounded capacity, a WaitGroup, and the
    stop channel between a later call and the driver. */
module HealthCheck {
  import Routes

  type Handler = Routes.Backend

  /** Where a driver goroutine is; `i` is the handler it is at. */
  datatype Phase =
    | Sending(i: nat)     // about to send handler i, or past the loop when there is none
    | Adding(i: nat)
    | Spawning(i: nat)
    | Waiting
    | Selecting

  datatype Driver = Driver(handlers: seq<Handler>, phase: Phase)

  /** The caller of HealthCheckHandlers: outside, or blocked on sending the stop. */
  datatype Caller = Outside | SendingStop(handlers: seq<Handler>)

  datatype State = State(
    capacity: nat,
    drivers: seq<Driver>,         // the live driver goroutines
    caller: Caller,
    stopCreated: bool,            // stopHealthCheckCh is not nil
    ch: seq<Handler>,             // the buffered handlers
    taken: seq<Handler>,          // handlers received by the workers of the last driver, in order
    waiting: nat,                 // workers started that have not received
    busy: nat,                    // workers checking a handler
    finished: nat,                // workers of the last driver past their Done
    wg: int,
    adds: nat,                    // all calls of Add and Done ever
    dones: nat)

  datatype Action =
    | Call(handlers: seq<Handler>)
    | StopReceived(d: nat)
    | TimerOrContext(d: nat)
    | SendHandler(d: nat)
    | HandOff(d: nat)             // an unbuffered send needs a waiting worker
    | AddOne(d: nat)
    | Spawn(d: nat)
    | EndLoop(d: nat)
    | WaitReturns(d: nat)
    | Take
    | Finish

  predicate Initial(s: State, capacity: nat) {
    s == State(capacity, [], Outside, false, [], [], 0, 0, 0, 0, 0, 0)
  }

  predicate At(s: State, d: nat) {
    d < |s.drivers|
  }

  predicate Enabled(s: State, a: Action) {
    match a
    case Call(_) => s.caller.Outside?
    case StopReceived(d) => At(s, d) && s.drivers[d].phase.Selecting? && s.caller.SendingStop?
    case TimerOrContext(d) => At(s, d) && s.drivers[d].phase.Selecting?
    case SendHandler(d) => At(s, d) && HasNext(s.drivers[d]) && |s.ch| < s.capacity
    case HandOff(d) => At(s, d) && HasNext(s.drivers[d]) && s.capacity == 0 && s.waiting > 0
    case AddOne(d) => At(s, d) && s.drivers[d].phase.Adding?
    case Spawn(d) => At(s, d) && s.drivers[d].phase.Spawning?
    case EndLoop(d) => At(s, d) && s.drivers[d].phase == Sending(|s.drivers[d].handlers|)
    case WaitReturns(d) => At(s, d) && s.drivers[d].phase.Waiting? && s.wg == 0
    case Take => s.waiting > 0 && s.ch != []
    case Finish => s.busy > 0
  }

  predicate HasNext(d: Driver) {
    d.phase.Sending? && d.phase.i < |d.handlers|
  }

  function Move(s: State, d: nat, phase: Phase): State
    requires At(s, d)
  {
    s.(drivers := s.drivers[d := s.drivers[d].(phase := phase)])
  }

  function Without(s: State, d: nat): State
    requires At(s, d)
  {
    s.(drivers := s.drivers[..d] + s.drivers[d + 1..])
  }

  function Start(s: State, handlers: seq<Handler>): State {
    s.(drivers := s.drivers + [Driver(handlers, Sending(0))], taken := [], finished := 0)
  }

  function Next(s: State, a: Action): State
    requires Enabled(s, a)
  {
    match a
    case Call(handlers) =>
      if handlers == [] then s
      else if s.stopCreated then s.(caller := SendingStop(handlers))
      else Start(s, handlers).(stopCreated := true)
    case StopReceived(d) => Start(Without(s, d), s.caller.handlers).(caller := Outside)
    case TimerOrContext(d) => Without(s, d)
    case SendHandler(d) =>
      var i := s.drivers[d].phase.i;
      Move(s, d, Adding(i)).(ch := s.ch + [s.drivers[d].handlers[i]])
    case HandOff(d) =>
      var i := s.drivers[d].phase.i;
      Move(s, d, Adding(i)).(taken := s.taken + [s.drivers[d].handlers[i]],
                             waiting := s.waiting - 1, busy := s.busy + 1)
    case AddOne(d) => Move(s, d, Spawning(s.drivers[d].phase.i)).(wg := s.wg + 1, adds := s.adds + 1)
    case Spawn(d) => Move(s, d, Sending(s.drivers[d].phase.i + 1)).(waiting := s.waiting + 1)
    case EndLoop(d) => Move(s, d, Waiting)
    case WaitReturns(d) => Move(s, d, Selecting)
    case Take => s.(ch := s.ch[1..], taken := s.taken + [s.ch[0]], waiting := s.waiting - 1, busy := s.busy + 1)
    case Finish => s.(busy := s.busy - 1, finished := s.finished + 1, wg := s.wg - 1, dones := s.dones + 1)
  }

  ghost predicate Step(s: State, t: State) {
    exists a :: Enabled(s, a) && t == Next(s, a)
  }

  ghost predicate Behaviour(capacity: nat, b: seq<State>) {
    && |b| > 0 && Initial(b[0], capacity)
    && forall i, j :: 0 <= i && j == i + 1 < |b| ==> Step(b[i], b[j])
  }

  /** How many handlers a driver has sent, added to the WaitGroup, and started workers for. */
  function SentBy(d: Driver): nat {
    match d.phase
    case Sending(i) => i
    case Adding(i) => i + 1
    case Spawning(i) => i + 1
    case Waiting => |d.handlers|
    case Selecting => |d.handlers|
  }

  function AddedBy(d: Driver): nat {
    match d.phase
    case Sending(i) => i
    case Adding(i) => i
    case Spawning(i) => i + 1
    case Waiting => |d.handlers|
    case Selecting => |d.handlers|
  }

  function SpawnedBy(d: Driver): nat {
    if d.phase.Spawning? then d.phase.i else AddedBy(d)
  }

  predicate DriverInv(s: State, d: Driver) {
    && SentBy(d) <= |d.handlers|
    && s.taken + s.ch == d.handlers[..SentBy(d)]
    && s.waiting + s.busy + s.finished == SpawnedBy(d)
    && s.wg == AddedBy(d) - s.finished
    && (d.phase.Selecting? ==> s.wg == 0)
  }

  predicate Inv(s: State) {
    && |s.drivers| <= 1
    && (s.drivers != [] ==> s.stopCreated && DriverInv(s, s.drivers[0]))
    && (s.drivers == [] ==> s.ch == [] && s.waiting == 0 && s.busy == 0 && s.wg == 0)
    && (s.caller.SendingStop? ==> s.stopCreated)
    && |s.ch| <= s.capacity
    && |s.taken| == s.busy + s.finished
    && s.wg == s.adds - s.dones
    && s.dones <= s.adds
  }

  lemma SendKeepsInv(s: State, d: nat)
    requires Inv(s) && Enabled(s, SendHandler(d))
    ensures Inv(Next(s, SendHandler(d)))
  {
    var i, handlers := s.drivers[d].phase.i, s.drivers[d].handlers;
    assert s.taken + (s.ch + [handlers[i]]) == handlers[..i] + [handlers[i]];
  }

  lemma TakeKeepsInv(s: State)
    requires Inv(s) && Enabled(s, Take)
    ensures Inv(Next(s, Take))
  {
    assert s.taken + [s.ch[0]] + s.ch[1..] == s.taken + s.ch;
  }

  lemma DriverKeepsInv(s: State, a: Action)
    requires Inv(s) && Enabled(s, a) && (a.AddOne? || a.Spawn? || a.EndLoop? || a.WaitReturns?)
    ensures Inv(Next(s, a)) && Next(s, a).capacity == s.capacity
  {
  }

  lemma StartKeepsInv(s: State, handlers: seq<Handler>)
    requires Inv(s) && s.drivers == [] && s.stopCreated
    ensures Inv(Start(s, handlers))
  {
  }

  /** A driver that is replaced or ends has been through Wait: nothing of it is left. */
  lemma SelectingHasNothingLeft(s: State, d: nat)
    requires Inv(s) && At(s, d) && s.drivers[d].phase.Selecting?
    ensures Inv(Without(s, d)) && Without(s, d).drivers == []
  {
  }

  lemma StepKeepsInv(s: State, a: Action)
    requires Inv(s) && Enabled(s, a)
    ensures Inv(Next(s, a)) && Next(s, a).capacity == s.capacity
  {
    match a
    case Call(handlers) => if handlers != [] && !s.stopCreated { StartKeepsInv(s.(stopCreated := true), handlers); }
    case StopReceived(d) =>
      SelectingHasNothingLeft(s, d);
      StartKeepsInv(Without(s, d), s.caller.handlers);
    case TimerOrContext(d) => SelectingHasNothingLeft(s, d);
    case SendHandler(d) => SendKeepsInv(s, d);
    case HandOff(_) =>
    case Take => TakeKeepsInv(s);
    case Finish =>
    case _ => DriverKeepsInv(s, a);
  }

  /** Nothing was ever sent, and a driver is still at its first handler. */
  predicate NothingSent(s: State) {
    && s.waiting == 0 && s.busy == 0 && s.ch == []
    && forall d :: 0 <= d < |s.drivers| ==> s.drivers[d].phase == Sending(0) && s.drivers[d].handlers != []
  }

  lemma InitialInv(capacity: nat, s: State)
    requires Initial(s, capacity)
    ensures Inv(s) && NothingSent(s) && s.capacity == capacity && s.caller.Outside?
  {
  }

  lemma {:induction false} AlwaysInv(capacity: nat, b: seq<State>, i: nat)
    requires Behaviour(capacity, b) && i < |b|
    ensures Inv(b[i]) && b[i].capacity == capacity
  {
    if i > 0 {
      AlwaysInv(capacity, b, i - 1);
      assert Step(b[i - 1], b[i]);
      var a :| Enabled(b[i - 1], a) && b[i] == Next(b[i - 1], a);
      StepKeepsInv(b[i - 1], a);
    }
  }

  /** In every interleaving at most one driver is live, Done is never called more often than Add, and
      the WaitGroup, which is shared by all drivers, is their difference. */
  lemma OneDriverAndSafeWaitGroup(capacity: nat, b: seq<State>, i: nat)
    requires Behaviour(capacity, b) && i < |b|
    ensures |b[i].drivers| <= 1 && 0 <= b[i].wg == b[i].adds - b[i].dones
  {
    AlwaysInv(capacity, b, i);
  }

  /** Wait returns only when every handler was taken, in order, each by one worker, and all workers
      are done. */
  lemma WaitReturnsWhenAllDone(capacity: nat, b: seq<State>, i: nat, d: nat)
    requires Behaviour(capacity, b) && i < |b| && Enabled(b[i], WaitReturns(d))
    ensures b[i].taken == b[i].drivers[d].handlers && b[i].finished == |b[i].drivers[d].handlers|
    ensures b[i].waiting == 0 && b[i].busy == 0 && b[i].ch == []
  {
    AlwaysInv(capacity, b, i);
  }

  lemma WaitingIsDone(s: State, d: nat)
    requires Inv(s) && Enabled(s, WaitReturns(d))
    ensures d == 0 && s.taken == s.drivers[0].handlers && s.finished == |s.taken| && s.waiting == 0 && s.busy == 0
  {
  }

  predicate IsDriverOrWorker(a: Action) {
    !a.Call? && !a.StopReceived? && !a.TimerOrContext?
  }

  /** With a buffer, a step of the driver or of a worker that brings the driver on. */
  function DriverStep(s: State): Action
    requires s.drivers != []
  {
    match s.drivers[0].phase
    case Sending(j) =>
      if j == |s.drivers[0].handlers| then EndLoop(0) else if |s.ch| < s.capacity then SendHandler(0) else Take
    case Adding(_) => AddOne(0)
    case Spawning(_) => Spawn(0)
    case Waiting => if s.wg == 0 then WaitReturns(0) else if s.busy > 0 then Finish else Take
    case Selecting => TimerOrContext(0)
  }

  lemma DriverStepIsEnabled(s: State)
    requires Inv(s) && s.capacity > 0 && s.drivers != [] && !s.drivers[0].phase.Selecting?
    ensures IsDriverOrWorker(DriverStep(s)) && Enabled(s, DriverStep(s))
  {
  }

  lemma NothingSentStays(s: State, a: Action)
    requires Enabled(s, a) && s.capacity == 0 && NothingSent(s)
    ensures NothingSent(Next(s, a))
  {
  }

  /** Without a buffer nothing is ever sent: no worker exists before the first send. */
  lemma {:induction false} AlwaysAtFirst(capacity: nat, b: seq<State>, i: nat)
    requires Behaviour(capacity, b) && i < |b|
    ensures capacity == 0 ==> NothingSent(b[i])
  {
    if i > 0 {
      AlwaysAtFirst(capacity, b, i - 1);
      AlwaysInv(capacity, b, i - 1);
      assert Step(b[i - 1], b[i]);
      var a :| Enabled(b[i - 1], a) && b[i] == Next(b[i - 1], a);
      if capacity == 0 {
        NothingSentStays(b[i - 1], a);
      }
    }
  }

  /** A driver on its way to its select can always be brought on by itself or a worker, provided the
      channel has a buffer; without one it waits for ever at its first handler. */
  lemma ProgressIffBuffered(capacity: nat, b: seq<State>, i: nat)
    requires Behaviour(capacity, b) && i < |b| && b[i].drivers != [] && !b[i].drivers[0].phase.Selecting?
    ensures (exists a :: IsDriverOrWorker(a) && Enabled(b[i], a)) <==> capacity > 0
    ensures capacity == 0 ==> b[i].drivers[0].phase == Sending(0)
  {
    AlwaysInv(capacity, b, i);
    AlwaysAtFirst(capacity, b, i);
    if capacity > 0 {
      DriverStepIsEnabled(b[i]);
    }
  }

  /** A full buffer always has a worker waiting to empty it. */
  lemma FullBufferHasReceiver(capacity: nat, b: seq<State>, i: nat)
    requires Behaviour(capacity, b) && i < |b| && b[i].drivers != [] && HasNext(b[i].drivers[0])
    ensures b[i].waiting == |b[i].ch|
    ensures capacity > 0 && |b[i].ch| == capacity ==> Enabled(b[i], Take)
  {
    AlwaysInv(capacity, b, i);
  }

  /** What a driver and its workers have left to do. */
  function Remaining(s: State): nat
    requires s.drivers != [] && SentBy(s.drivers[0]) <= |s.drivers[0].handlers|
  {
    var d := s.drivers[0];
    2 * s.waiting + s.busy +
    match d.phase
    case Sending(i) => 5 * (|d.handlers| - i) + 2
    case Adding(i) => 5 * (|d.handlers| - i) + 1
    case Spawning(i) => 5 * (|d.handlers| - i)
    case Waiting => 1
    case Selecting => 0
  }

  lemma StepMakesProgress(s: State, a: Action)
    requires Inv(s) && Enabled(s, a) && IsDriverOrWorker(a) && s.drivers != []
    ensures Inv(Next(s, a)) && Next(s, a).drivers != [] && Next(s, a).capacity == s.capacity
    ensures Next(s, a).caller == s.caller
    ensures Remaining(Next(s, a)) < Remaining(s)
  {
    StepKeepsInv(s, a);
  }

  /** A step of the driver or of a worker. */
  ghost predicate DriverOrWorkerStep(s: State, t: State) {
    exists a :: IsDriverOrWorker(a) && Enabled(s, a) && t == Next(s, a)
  }

  /** A run of the driver and its workers alone. */
  ghost predicate DriverRun(c: seq<State>) {
    |c| > 0 && forall i, j :: 0 <= i && j == i + 1 < |c| ==> DriverOrWorkerStep(c[i], c[j])
  }

  lemma {:induction false} DriverRunsAreBounded(c: seq<State>, n: nat)
    requires DriverRun(c) && n < |c| && Inv(c[0]) && c[0].drivers != []
    ensures Inv(c[n]) && c[n].drivers != [] && c[n].capacity == c[0].capacity
    ensures n + Remaining(c[n]) <= Remaining(c[0])
  {
    if n > 0 {
      DriverRunsAreBounded(c, n - 1);
      assert DriverOrWorkerStep(c[n - 1], c[n]);
      var a :| IsDriverOrWorker(a) && Enabled(c[n - 1], a) && c[n] == Next(c[n - 1], a);
      StepMakesProgress(c[n - 1], a);
    }
  }

  /** With a buffer every driver gets to its select: whatever the interleaving, the driver and its
      workers can go on only so long, and when they cannot go on the driver is there. */
  lemma EveryDriverReachesSelect(c: seq<State>)
    requires DriverRun(c) && Inv(c[0]) && c[0].drivers != [] && c[0].capacity > 0
    ensures |c| <= Remaining(c[0]) + 1
    ensures c[|c| - 1].drivers != []
    ensures (forall a :: IsDriverOrWorker(a) ==> !Enabled(c[|c| - 1], a)) ==> c[|c| - 1].drivers[0].phase.Selecting?
  {
    var last := c[|c| - 1];
    DriverRunsAreBounded(c, |c| - 1);
    if !last.drivers[0].phase.Selecting? {
      DriverStepIsEnabled(last);
    }
  }

  /** Any step but a new call, which a pending one excludes. */
  ghost predicate InnerStep(s: State, t: State) {
    exists a: Action :: !a.Call? && Enabled(s, a) && t == Next(s, a)
  }

  /** `c` is a way on from `s` without a new call. */
  ghost predicate Continues(s: State, c: seq<State>) {
    && |c| > 0 && c[0] == s
    && forall i, j :: 0 <= i && j == i + 1 < |c| ==> InnerStep(c[i], c[j])
  }

  lemma ContinuesAfter(s: State, a: Action, c: seq<State>)
    requires Enabled(s, a) && !a.Call? && Continues(Next(s, a), c)
    ensures Continues(s, [s] + c)
  {
    assert InnerStep(s, c[0]);
  }

  lemma ContinuesFurther(s: State, c: seq<State>, a: Action)
    requires Continues(s, c) && Enabled(c[|c| - 1], a) && !a.Call?
    ensures Continues(s, c + [Next(c[|c| - 1], a)])
  {
    assert InnerStep(c[|c| - 1], Next(c[|c| - 1], a));
  }

  lemma {:induction false} ReachSelect(s: State) returns (c: seq<State>)
    requires Inv(s) && s.capacity > 0 && s.drivers != []
    ensures Continues(s, c)
    ensures var last := c[|c| - 1];
            Inv(last) && last.drivers != [] && last.drivers[0].phase.Selecting? && last.caller == s.caller
    decreases Remaining(s)
  {
    if s.drivers[0].phase.Selecting? {
      return [s];
    }
    var a := DriverStep(s);
    DriverStepIsEnabled(s);
    StepMakesProgress(s, a);
    var rest := ReachSelect(Next(s, a));
    ContinuesAfter(s, a, rest);
    c := [s] + rest;
  }

  /** A pending stop that nobody will receive: no driver is left, or none will get to its select. */
  predicate NeverReceived(s: State) {
    s.caller.SendingStop? && (s.drivers == [] || (s.capacity == 0 && NothingSent(s)))
  }

  /** A call with handlers that is made from here on will have to wait for ever. */
  predicate WouldWait(s: State) {
    s.stopCreated && (s.drivers == [] || (s.capacity == 0 && NothingSent(s)))
  }

  lemma WouldWaitStays(s: State, a: Action)
    requires WouldWait(s) && Enabled(s, a) && !a.Call?
    ensures WouldWait(Next(s, a))
  {
  }

  lemma CallWaits(s: State, handlers: seq<Handler>)
    requires WouldWait(s) && s.caller.Outside? && handlers != []
    ensures NeverReceived(Next(s, Call(handlers)))
  {
  }

  lemma NeverReceivedStays(s: State, a: Action)
    requires NeverReceived(s) && Enabled(s, a)
    ensures NeverReceived(Next(s, a)) && Next(s, a).caller == s.caller && !a.Call?
  {
  }

  lemma {:induction false} StopWaitsForEver(s: State, c: seq<State>, i: nat)
    requires NeverReceived(s) && Continues(s, c) && i < |c|
    ensures NeverReceived(c[i]) && c[i].caller == s.caller
  {
    if i > 0 {
      StopWaitsForEver(s, c, i - 1);
      assert InnerStep(c[i - 1], c[i]);
      var a: Action :| !a.Call? && Enabled(c[i - 1], a) && c[i] == Next(c[i - 1], a);
      NeverReceivedStays(c[i - 1], a);
    }
  }

  ghost predicate CanBeReceived(s: State) {
    exists c: seq<State> :: Continues(s, c) && c[|c| - 1].caller.Outside?
  }

  lemma ReceiveStop(s: State) returns (c: seq<State>)
    requires Inv(s) && s.caller.SendingStop? && s.drivers != [] && s.capacity > 0
    ensures Continues(s, c) && c[|c| - 1].caller.Outside? && Inv(c[|c| - 1])
  {
    var ready := ReachSelect(s);
    ContinuesFurther(s, ready, StopReceived(0));
    StepKeepsInv(ready[|ready| - 1], StopReceived(0));
    c := ready + [Next(ready[|ready| - 1], StopReceived(0))];
  }

  /** The stop rendezvous: a pending stop can still be received exactly when a driver is live and the
      channel has a buffer.  Otherwise the caller waits for ever. */
  lemma PendingStopIff(capacity: nat, b: seq<State>, i: nat)
    requires Behaviour(capacity, b) && i < |b| && b[i].caller.SendingStop?
    ensures CanBeReceived(b[i]) <==> b[i].drivers != [] && capacity > 0
    ensures NeverReceived(b[i]) <==> !CanBeReceived(b[i])
  {
    AlwaysInv(capacity, b, i);
    AlwaysAtFirst(capacity, b, i);
    if b[i].drivers != [] && capacity > 0 {
      var _ := ReceiveStop(b[i]);
    } else {
      forall c: seq<State> | Continues(b[i], c)
        ensures c[|c| - 1].caller.SendingStop?
      {
        StopWaitsForEver(b[i], c, |c| - 1);
      }
    }
  }

  lemma Extend(capacity: nat, b: seq<State>, a: Action) returns (b': seq<State>)
    requires Behaviour(capacity, b) && Enabled(b[|b| - 1], a)
    ensures Behaviour(capacity, b') && b'[|b'| - 1] == Next(b[|b| - 1], a)
  {
    b' := b + [Next(b[|b| - 1], a)];
    assert Step(b[|b| - 1], Next(b[|b| - 1], a));
  }

  lemma Join(capacity: nat, b: seq<State>, c: seq<State>) returns (b': seq<State>)
    requires Behaviour(capacity, b) && Continues(b[|b| - 1], c)
    ensures Behaviour(capacity, b') && b'[|b'| - 1] == c[|c| - 1]
  {
    b' := b + c[1..];
    forall i, j | 0 <= i && j == i + 1 < |b'|
      ensures Step(b'[i], b'[j])
    {
      if i >= |b| - 1 {
        assert b'[i] == c[i - |b| + 1] && b'[j] == c[j - |b| + 1];
        assert InnerStep(c[i - |b| + 1], c[j - |b| + 1]);
      }
    }
  }

  /** For every capacity and any two lists of handlers there is a run in which the second call waits for
      ever: the driver of the first has timed out, or never sends its first handler. */
  lemma StopCanBeLost(capacity: nat, first: seq<Handler>, second: seq<Handler>) returns (b: seq<State>)
    requires first != [] && second != []
    ensures Behaviour(capacity, b) && NeverReceived(b[|b| - 1])
    ensures capacity > 0 ==> b[|b| - 1].drivers == []
  {
    b := [State(capacity, [], Outside, false, [], [], 0, 0, 0, 0, 0, 0)];
    b := Extend(capacity, b, Call(first));
    if capacity > 0 {
      AlwaysInv(capacity, b, |b| - 1);
      var c := ReachSelect(b[|b| - 1]);
      b := Join(capacity, b, c);
      b := Extend(capacity, b, TimerOrContext(0));
    }
    b := Extend(capacity, b, Call(second));
    AlwaysAtFirst(capacity, b, |b| - 1);
  }

  /** A run with the actions taken. */
  ghost predicate RunOf(capacity: nat, b: seq<State>, acts: seq<Action>) {
    && |b| == |acts| + 1 && Initial(b[0], capacity)
    && forall i, j :: 0 <= i && j == i + 1 < |b| ==> Follows(b[i], acts[i], b[j])
  }

  predicate Follows(s: State, a: Action, t: State) {
    Enabled(s, a) && t == Next(s, a)
  }

  /** The calls of the run that came with handlers, in order. */
  function Calls(acts: seq<Action>): seq<seq<Handler>> {
    if acts == [] then []
    else
      var last := acts[|acts| - 1];
      Calls(acts[..|acts| - 1]) + if last.Call? && last.handlers != [] then [last.handlers] else []
  }

  /** A pending stop carries the handlers of the last call; the live driver has those of the last call that
      is no longer pending. */
  predicate HandlersOk(s: State, calls: seq<seq<Handler>>) {
    && (s.stopCreated <==> calls != [])
    && (s.caller.SendingStop? ==> |calls| > 1 && s.caller.handlers == calls[|calls| - 1])
    && (s.drivers != [] ==> calls != [] &&
                            s.drivers[0].handlers == calls[|calls| - if s.caller.SendingStop? then 2 else 1])
  }

  lemma StepKeepsHandlers(s: State, a: Action, acts: seq<Action>)
    requires Inv(s) && Enabled(s, a) && HandlersOk(s, Calls(acts))
    ensures HandlersOk(Next(s, a), Calls(acts + [a]))
  {
    assert (acts + [a])[..|acts|] == acts;
    if !a.Call? && !a.StopReceived? && !a.TimerOrContext? {
      StepKeepsDriver(s, a);
    }
  }

  lemma StepKeepsDriver(s: State, a: Action)
    requires Inv(s) && Enabled(s, a) && IsDriverOrWorker(a)
    ensures Next(s, a).caller == s.caller && Next(s, a).stopCreated == s.stopCreated
    ensures Next(s, a).drivers != [] <==> s.drivers != []
    ensures s.drivers != [] ==> Next(s, a).drivers[0].handlers == s.drivers[0].handlers
  {
  }

  lemma FollowsKeepsHandlers(s: State, a: Action, t: State, acts: seq<Action>)
    requires Inv(s) && HandlersOk(s, Calls(acts)) && Follows(s, a, t)
    ensures Inv(t) && HandlersOk(t, Calls(acts + [a]))
  {
    StepKeepsInv(s, a);
    StepKeepsHandlers(s, a, acts);
  }

  lemma {:induction false} AlwaysHandlers(capacity: nat, b: seq<State>, acts: seq<Action>, n: nat)
    requires RunOf(capacity, b, acts) && n < |b|
    ensures Inv(b[n]) && HandlersOk(b[n], Calls(acts[..n]))
  {
    if n == 0 {
      InitialInv(capacity, b[0]);
    } else {
      AlwaysHandlers(capacity, b, acts, n - 1);
      assert Follows(b[n - 1], acts[n - 1], b[n]);
      assert acts[..n] == acts[..n - 1] + [acts[n - 1]];
      FollowsKeepsHandlers(b[n - 1], acts[n - 1], b[n], acts[..n - 1]);
    }
  }

  /** At every reachable state the live driver checks the handlers of the last call with any; while that
      call waits for the stop to be received, those of the one before. */
  lemma DriverServesLastCall(capacity: nat, b: seq<State>, acts: seq<Action>, n: nat)
    requires RunOf(capacity, b, acts) && n < |b|
    ensures var s, calls := b[n], Calls(acts[..n]);
            && (s.caller.SendingStop? ==> |calls| > 1 && s.caller.handlers == calls[|calls| - 1])
            && (s.drivers != [] && s.caller.SendingStop? ==> s.drivers[0].handlers == calls[|calls| - 2])
            && (s.drivers != [] && s.caller.Outside? ==> calls != [] && s.drivers[0].handlers == calls[|calls| - 1])
  {
    AlwaysHandlers(capacity, b, acts, n);
  }

  /** Wait returns only when exactly the handlers of that call were taken, in order, each by one worker. */
  lemma WaitReturnsForLastCall(capacity: nat, b: seq<State>, acts: seq<Action>, n: nat, d: nat)
    requires RunOf(capacity, b, acts) && n < |b| && Enabled(b[n], WaitReturns(d))
    ensures var calls, pending := Calls(acts[..n]), b[n].caller.SendingStop?;
            && |calls| > (if pending then 1 else 0)
            && b[n].taken == calls[|calls| - if pending then 2 else 1]
            && b[n].finished == |b[n].taken| && b[n].waiting == 0 && b[n].busy == 0
  {
    AlwaysHandlers(capacity, b, acts, n);
    WaitingIsDone(b[n], d);
  }

  /** A driver starts with the handlers of its call and nothing taken: at once for the first call, when the
      stop is received for a later one, whose old driver is then gone; never for a call without handlers. */
  lemma CallsStartDrivers(s: State, a: Action)
    requires Inv(s) && Enabled(s, a)
    ensures a.Call? && a.handlers == [] ==> Next(s, a) == s
    ensures a.Call? && a.handlers != [] && s.stopCreated ==>
              Next(s, a).caller == SendingStop(a.handlers) && Next(s, a).drivers == s.drivers
    ensures a.Call? && a.handlers != [] && !s.stopCreated ==>
              && Next(s, a).drivers == [Driver(a.handlers, Sending(0))]
              && Next(s, a).taken == [] && Next(s, a).caller.Outside?
    ensures a.StopReceived? ==>
              && Next(s, a).drivers == [Driver(s.caller.handlers, Sending(0))]
              && Next(s, a).taken == [] && Next(s, a).caller.Outside?
  {
    if a.StopReceived? {
      SelectingHasNothingLeft(s, a.d);
    } else if a.Call? && !s.stopCreated {
      assert s.drivers == [];
    }
  }
}
