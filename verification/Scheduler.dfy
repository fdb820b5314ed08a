/** periodicSync of pkg/state/manager.go as interleaved steps: the scheduler, one goroutine per
    manager and round, the WaitGroup, and the unbuffered error channel with its one-shot reader. */
module Scheduler {
  import opened Terraform

  datatype Phase =
    | Fetching
    | Adding(j: nat)      // about to add to the WaitGroup for manager j
    | Spawning(j: nat)    // added, about to start the goroutine of manager j
    | Waiting
    | Sleeping
    | Reporting
    | Stopped

  /** The goroutine of a manager in the current round; `i` counts the state files it has read. */
  datatype Worker =
    | NotSpawned
    | Running(i: nat)
    | Built               // before its Done
    | Finished
    | SendingError(i: nat)
    | Failed(i: nat)

  datatype Call = ReadFromTfstate(tfstate: Tfstate) | Build

  datatype State = State(
    phase: Phase,
    workers: seq<Worker>,
    wg: int,
    rounds: seq<seq<Tfstate>>,     // what GetTfstate returned, round by round
    history: seq<seq<Call>>,       // the successful calls on each manager
    listening: bool)               // the reader of the error channel stops at the first error

  datatype Action =
    | Fetch(tfstates: seq<Tfstate>)
    | FetchFails
    | AddOne
    | Spawn
    | EndSpawning
    | WaitReturns
    | TimerFires
    | Cancelled
    | ReceiveFromScheduler
    | ReadOk(m: nat)
    | BuildOk(m: nat)
    | CallFails(m: nat)
    | Done(m: nat)
    | ReceiveFromWorker(m: nat)

  predicate Initial(s: State, n: nat) {
    s == State(Fetching, seq(n, _ => Finished), 0, [], seq(n, _ => []), true)
  }

  function Current(s: State): seq<Tfstate> {
    if s.rounds == [] then [] else s.rounds[|s.rounds| - 1]
  }

  predicate Enabled(s: State, a: Action) {
    |s.workers| == |s.history| &&
    match a
    case Fetch(_) => s.phase.Fetching?
    case FetchFails => s.phase.Fetching?
    case AddOne => s.phase.Adding? && s.phase.j < |s.workers|
    case Spawn => s.phase.Spawning? && s.phase.j < |s.workers|
    case EndSpawning => s.phase.Adding? && s.phase.j == |s.workers|
    case WaitReturns => s.phase.Waiting? && s.wg == 0
    case TimerFires => s.phase.Sleeping?
    case Cancelled => s.phase.Sleeping?
    case ReceiveFromScheduler => s.phase.Reporting? && s.listening
    case ReadOk(m) => m < |s.workers| && s.workers[m].Running? && s.workers[m].i < |Current(s)|
    case BuildOk(m) => m < |s.workers| && s.workers[m] == Running(|Current(s)|)
    case CallFails(m) => m < |s.workers| && s.workers[m].Running? && s.workers[m].i <= |Current(s)|
    case Done(m) => m < |s.workers| && s.workers[m].Built?
    case ReceiveFromWorker(m) => m < |s.workers| && s.workers[m].SendingError? && s.listening
  }

  function Next(s: State, a: Action): State
    requires Enabled(s, a)
  {
    match a
    case Fetch(tfstates) =>
      s.(phase := Adding(0), rounds := s.rounds + [tfstates], workers := seq(|s.workers|, _ => NotSpawned))
    case FetchFails => s.(phase := Reporting)
    case AddOne => s.(phase := Spawning(s.phase.j), wg := s.wg + 1)
    case Spawn => s.(phase := Adding(s.phase.j + 1), workers := s.workers[s.phase.j := Running(0)])
    case EndSpawning => s.(phase := Waiting)
    case WaitReturns => s.(phase := Sleeping)
    case TimerFires => s.(phase := Fetching)
    case Cancelled => s.(phase := Reporting)
    case ReceiveFromScheduler => s.(phase := Stopped, listening := false)
    case ReadOk(m) =>
      var i := s.workers[m].i;
      s.(workers := s.workers[m := Running(i + 1)],
         history := s.history[m := s.history[m] + [ReadFromTfstate(Current(s)[i])]])
    case BuildOk(m) => s.(workers := s.workers[m := Built], history := s.history[m := s.history[m] + [Build]])
    case CallFails(m) => s.(workers := s.workers[m := SendingError(s.workers[m].i)])
    case Done(m) => s.(workers := s.workers[m := Finished], wg := s.wg - 1)
    case ReceiveFromWorker(m) => s.(workers := s.workers[m := Failed(s.workers[m].i)], listening := false)
  }

  ghost predicate Step(s: State, t: State) {
    exists a :: Enabled(s, a) && t == Next(s, a)
  }

  ghost predicate Behaviour(n: nat, b: seq<State>) {
    && |b| > 0 && Initial(b[0], n)
    && forall i, j :: 0 <= i && j == i + 1 < |b| ==> Step(b[i], b[j])
  }

  /** A goroutine that was started and has not called Done. */
  predicate Pending(w: Worker) {
    !w.NotSpawned? && !w.Finished?
  }

  function PendingCount(ws: seq<Worker>): nat {
    if ws == [] then 0 else PendingCount(ws[..|ws| - 1]) + if Pending(ws[|ws| - 1]) then 1 else 0
  }

  lemma {:induction false} PendingCountUpdate(ws: seq<Worker>, m: nat, w: Worker)
    requires m < |ws|
    ensures PendingCount(ws[m := w]) ==
            PendingCount(ws) + (if Pending(w) then 1 else 0) - if Pending(ws[m]) then 1 else 0
  {
    var init := ws[..|ws| - 1];
    if m == |ws| - 1 {
      assert ws[m := w][..|ws| - 1] == init;
    } else {
      assert ws[m := w][..|ws| - 1] == init[m := w];
      PendingCountUpdate(init, m, w);
    }
  }

  lemma {:induction false} NonePending(ws: seq<Worker>)
    ensures PendingCount(ws) == 0 <==> forall m :: 0 <= m < |ws| ==> !Pending(ws[m])
  {
    if ws != [] {
      NonePending(ws[..|ws| - 1]);
      assert forall m :: 0 <= m < |ws| - 1 ==> ws[m] == ws[..|ws| - 1][m];
    }
  }

  function Reads(tfstates: seq<Tfstate>): (calls: seq<Call>)
    ensures |calls| == |tfstates|
    ensures forall i :: 0 <= i < |calls| ==> calls[i] == ReadFromTfstate(tfstates[i])
  {
    seq(|tfstates|, i requires 0 <= i < |tfstates| => ReadFromTfstate(tfstates[i]))
  }

  lemma ReadsOneMore(tfstates: seq<Tfstate>, i: nat)
    requires i < |tfstates|
    ensures Reads(tfstates[..i + 1]) == Reads(tfstates[..i]) + [ReadFromTfstate(tfstates[i])]
  {
  }

  /** What one complete round does to a manager. */
  function RoundCalls(tfstates: seq<Tfstate>): seq<Call> {
    Reads(tfstates) + [Build]
  }

  function AllCalls(rounds: seq<seq<Tfstate>>): seq<Call> {
    if rounds == [] then [] else AllCalls(rounds[..|rounds| - 1]) + RoundCalls(rounds[|rounds| - 1])
  }

  /** The calls of a worker in the current round. */
  function Progress(w: Worker, tfstates: seq<Tfstate>): seq<Call>
    requires w.Running? || w.SendingError? || w.Failed? ==> w.i <= |tfstates|
  {
    match w
    case NotSpawned => []
    case Running(i) => Reads(tfstates[..i])
    case Built => RoundCalls(tfstates)
    case Finished => RoundCalls(tfstates)
    case SendingError(i) => Reads(tfstates[..i])
    case Failed(i) => Reads(tfstates[..i])
  }

  /** The history of a manager: every earlier round in full, then what it has done in this one. */
  predicate HistoryOk(w: Worker, rounds: seq<seq<Tfstate>>, calls: seq<Call>) {
    if rounds == [] then w.Finished? && calls == []
    else
      var current := rounds[|rounds| - 1];
      && (w.Running? || w.SendingError? || w.Failed? ==> w.i <= |current|)
      && calls == AllCalls(rounds[..|rounds| - 1]) + Progress(w, current)
  }

  predicate PhaseOk(s: State) {
    match s.phase
    case Adding(j) => j <= |s.workers| && SpawnedUpTo(s, j)
    case Spawning(j) => j < |s.workers| && SpawnedUpTo(s, j)
    case Waiting => SpawnedUpTo(s, |s.workers|)
    case _ => forall m :: 0 <= m < |s.workers| ==> s.workers[m].Finished?
  }

  predicate SpawnedUpTo(s: State, j: nat) {
    s.rounds != [] && forall m :: 0 <= m < |s.workers| ==> (s.workers[m].NotSpawned? <==> j <= m)
  }

  predicate HistoriesOk(s: State) {
    && |s.workers| == |s.history|
    && forall m :: 0 <= m < |s.workers| ==> HistoryOk(s.workers[m], s.rounds, s.history[m])
  }

  predicate Inv(s: State) {
    && PhaseOk(s)
    && s.wg == PendingCount(s.workers) + (if s.phase.Spawning? then 1 else 0)
    && HistoriesOk(s)
  }

  lemma FetchKeepsInv(s: State, tfstates: seq<Tfstate>)
    requires Inv(s) && Enabled(s, Fetch(tfstates))
    ensures Inv(Next(s, Fetch(tfstates)))
  {
    var t := Next(s, Fetch(tfstates));
    NonePending(s.workers);
    NonePending(t.workers);
    assert t.rounds[..|t.rounds| - 1] == s.rounds;
    forall m | 0 <= m < |t.workers|
      ensures HistoryOk(t.workers[m], t.rounds, t.history[m])
    {
      assert HistoryOk(s.workers[m], s.rounds, s.history[m]);
    }
  }

  lemma WorkerMovesInPhase(s: State, t: State, m: nat, w: Worker)
    requires PhaseOk(s) && m < |s.workers| && Pending(s.workers[m]) && !w.NotSpawned?
    requires t.phase == s.phase && t.rounds == s.rounds && t.workers == s.workers[m := w]
    ensures PhaseOk(t)
  {
  }

  lemma WorkerMovesInHistory(s: State, t: State, m: nat, w: Worker, calls: seq<Call>)
    requires HistoriesOk(s) && m < |s.workers| && HistoryOk(w, s.rounds, calls)
    requires t.rounds == s.rounds && t.workers == s.workers[m := w] && t.history == s.history[m := calls]
    ensures HistoriesOk(t)
  {
  }

  /** A goroutine moves on: its own entry, its manager's history and, with Done, the WaitGroup change. */
  lemma WorkerMoves(s: State, m: nat, w: Worker, calls: seq<Call>, listening: bool)
    requires Inv(s) && m < |s.workers| && Pending(s.workers[m]) && !w.NotSpawned?
    requires HistoryOk(w, s.rounds, calls)
    ensures Inv(s.(workers := s.workers[m := w], history := s.history[m := calls], listening := listening,
                   wg := s.wg - if Pending(w) then 0 else 1))
  {
    var t := s.(workers := s.workers[m := w], history := s.history[m := calls], listening := listening,
                wg := s.wg - if Pending(w) then 0 else 1);
    PendingCountUpdate(s.workers, m, w);
    WorkerMovesInPhase(s, t, m, w);
    WorkerMovesInHistory(s, t, m, w, calls);
  }

  lemma WorkerKeepsInv(s: State, m: nat, a: Action)
    requires Inv(s) && Enabled(s, a) && m < |s.workers|
    requires a in {ReadOk(m), BuildOk(m), CallFails(m), Done(m), ReceiveFromWorker(m)}
    ensures Inv(Next(s, a))
  {
    var t := Next(s, a);
    assert HistoryOk(s.workers[m], s.rounds, s.history[m]);
    CallsKeepHistory(s, m, a);
    WorkerMoves(s, m, t.workers[m], t.history[m], t.listening);
    assert t.history == s.history[m := t.history[m]];
  }

  lemma CallsKeepHistory(s: State, m: nat, a: Action)
    requires Enabled(s, a) && m < |s.workers| && HistoryOk(s.workers[m], s.rounds, s.history[m])
    requires a in {ReadOk(m), BuildOk(m), CallFails(m), Done(m), ReceiveFromWorker(m)}
    ensures HistoryOk(Next(s, a).workers[m], s.rounds, Next(s, a).history[m])
  {
    match a
    case ReadOk(_) => ReadKeepsHistory(s, m);
    case BuildOk(_) => BuildKeepsHistory(s, m);
    case _ => EndsKeepHistory(s, m, a);
  }

  lemma ReadKeepsHistory(s: State, m: nat)
    requires Enabled(s, ReadOk(m)) && HistoryOk(s.workers[m], s.rounds, s.history[m])
    ensures HistoryOk(Next(s, ReadOk(m)).workers[m], s.rounds, Next(s, ReadOk(m)).history[m])
  {
    ReadExtends(s.workers[m].i, s.rounds, s.history[m]);
  }

  lemma BuildKeepsHistory(s: State, m: nat)
    requires Enabled(s, BuildOk(m)) && HistoryOk(s.workers[m], s.rounds, s.history[m])
    ensures HistoryOk(Next(s, BuildOk(m)).workers[m], s.rounds, Next(s, BuildOk(m)).history[m])
  {
    BuildExtends(s.rounds, s.history[m]);
  }

  /** A failed call, a Done and a reported error add no call. */
  lemma EndsKeepHistory(s: State, m: nat, a: Action)
    requires Enabled(s, a) && m < |s.workers| && HistoryOk(s.workers[m], s.rounds, s.history[m])
    requires a in {CallFails(m), Done(m), ReceiveFromWorker(m)}
    ensures HistoryOk(Next(s, a).workers[m], s.rounds, Next(s, a).history[m])
  {
  }

  lemma ReadExtends(i: nat, rounds: seq<seq<Tfstate>>, calls: seq<Call>)
    requires rounds != [] && i < |rounds[|rounds| - 1]| && HistoryOk(Running(i), rounds, calls)
    ensures HistoryOk(Running(i + 1), rounds, calls + [ReadFromTfstate(rounds[|rounds| - 1][i])])
  {
    ReadsOneMore(rounds[|rounds| - 1], i);
  }

  lemma BuildExtends(rounds: seq<seq<Tfstate>>, calls: seq<Call>)
    requires rounds != [] && HistoryOk(Running(|rounds[|rounds| - 1]|), rounds, calls)
    ensures HistoryOk(Built, rounds, calls + [Build])
  {
    var current := rounds[|rounds| - 1];
    assert current[..|current|] == current;
  }

  lemma SpawnKeepsInv(s: State)
    requires Inv(s) && Enabled(s, Spawn)
    ensures Inv(Next(s, Spawn))
  {
    PendingCountUpdate(s.workers, s.phase.j, Running(0));
    assert Reads(Current(s)[..0]) == [];
  }

  lemma WaitKeepsInv(s: State)
    requires Inv(s) && Enabled(s, WaitReturns)
    ensures Inv(Next(s, WaitReturns))
  {
    NonePending(s.workers);
  }

  lemma StepKeepsInv(s: State, a: Action)
    requires Inv(s) && Enabled(s, a)
    ensures Inv(Next(s, a))
  {
    match a
    case Fetch(tfstates) => FetchKeepsInv(s, tfstates);
    case Spawn => SpawnKeepsInv(s);
    case WaitReturns => WaitKeepsInv(s);
    case ReadOk(m) => WorkerKeepsInv(s, m, a);
    case BuildOk(m) => WorkerKeepsInv(s, m, a);
    case CallFails(m) => WorkerKeepsInv(s, m, a);
    case Done(m) => WorkerKeepsInv(s, m, a);
    case ReceiveFromWorker(m) => WorkerKeepsInv(s, m, a);
    case _ =>
  }

  lemma {:induction false} AlwaysInv(n: nat, b: seq<State>, i: nat)
    requires Behaviour(n, b) && i < |b|
    ensures Inv(b[i])
  {
    if i == 0 {
      NonePending(b[0].workers);
    } else {
      AlwaysInv(n, b, i - 1);
      assert Step(b[i - 1], b[i]);
      var a :| Enabled(b[i - 1], a) && b[i] == Next(b[i - 1], a);
      StepKeepsInv(b[i - 1], a);
    }
  }

  /** Once all goroutines of a round are started, the WaitGroup counts those that have not finished
      successfully, and Wait can return exactly when there is none. */
  lemma WaitGroupCountsUnfinished(n: nat, b: seq<State>, i: nat)
    requires Behaviour(n, b) && i < |b| && b[i].phase.Waiting?
    ensures b[i].wg == PendingCount(b[i].workers)
    ensures Enabled(b[i], WaitReturns) <==> forall m :: 0 <= m < |b[i].workers| ==> b[i].workers[m].Finished?
  {
    AlwaysInv(n, b, i);
    NonePending(b[i].workers);
  }

  lemma ProgressIsPartOfRound(w: Worker, rounds: seq<seq<Tfstate>>, calls: seq<Call>)
    requires rounds != [] && HistoryOk(w, rounds, calls)
    ensures var prev, current := AllCalls(rounds[..|rounds| - 1]), rounds[|rounds| - 1];
            prev <= calls <= prev + RoundCalls(current)
  {
    assert Progress(w, rounds[|rounds| - 1]) <= RoundCalls(rounds[|rounds| - 1]);
  }

  /** The barrier: whatever a manager has done, every manager has done all of the rounds before the
      current one, and nobody has done more than the current one. */
  lemma HistoriesAreRoundByRound(n: nat, b: seq<State>, i: nat, m: nat)
    requires Behaviour(n, b) && i < |b| && m < |b[i].workers| == |b[i].history| && b[i].rounds != []
    ensures var prev, current := AllCalls(b[i].rounds[..|b[i].rounds| - 1]), b[i].rounds[|b[i].rounds| - 1];
            prev <= b[i].history[m] <= prev + RoundCalls(current)
  {
    AlwaysInv(n, b, i);
    ProgressIsPartOfRound(b[i].workers[m], b[i].rounds, b[i].history[m]);
  }

  /** When a new round can start, every manager has been through all rounds: each round's state files
      in order, followed by one Build. */
  lemma NewRoundMeansAllDone(n: nat, b: seq<State>, i: nat, m: nat, tfstates: seq<Tfstate>)
    requires Behaviour(n, b) && i < |b| && m < |b[i].workers| && Enabled(b[i], Fetch(tfstates))
    ensures b[i].history[m] == AllCalls(b[i].rounds)
  {
    AlwaysInv(n, b, i);
    assert HistoryOk(b[i].workers[m], b[i].rounds, b[i].history[m]);
  }

  /** A manager or the scheduler itself has met an error. */
  predicate Errored(s: State) {
    || s.phase.Reporting? || s.phase.Stopped?
    || exists m :: 0 <= m < |s.workers| && WorkerErrored(s.workers[m])
  }

  predicate WorkerErrored(w: Worker) {
    w.SendingError? || w.Failed?
  }

  lemma WorkerErrorStays(s: State, a: Action, m: nat)
    requires Inv(s) && Enabled(s, a) && m < |s.workers| && WorkerErrored(s.workers[m])
    ensures Next(s, a).rounds == s.rounds && m < |Next(s, a).workers| && WorkerErrored(Next(s, a).workers[m])
  {
    assert !s.workers[m].Finished? && !s.workers[m].NotSpawned?;
    assert !s.phase.Fetching?;
  }

  lemma ErrorStays(s: State, a: Action)
    requires Inv(s) && Enabled(s, a) && Errored(s)
    ensures Errored(Next(s, a)) && Next(s, a).rounds == s.rounds
  {
    if m :| 0 <= m < |s.workers| && WorkerErrored(s.workers[m]) {
      WorkerErrorStays(s, a, m);
    }
  }

  lemma ErrorStaysOver(s: State, t: State)
    requires Inv(s) && Step(s, t) && Errored(s)
    ensures Errored(t) && t.rounds == s.rounds
  {
    var a :| Enabled(s, a) && t == Next(s, a);
    ErrorStays(s, a);
  }

  lemma ErrorStaysAt(n: nat, b: seq<State>, j: nat)
    requires Behaviour(n, b) && 0 < j < |b| && Errored(b[j - 1])
    ensures Errored(b[j]) && b[j].rounds == b[j - 1].rounds
  {
    var s, t := b[j - 1], b[j];
    AlwaysInv(n, b, j - 1);
    assert Step(s, t);
    ErrorStaysOver(s, t);
  }

  /** Fail-stop: after any error no new round ever starts. */
  lemma {:induction false} NoRoundAfterError(n: nat, b: seq<State>, i: nat, j: nat)
    requires Behaviour(n, b) && i <= j < |b| && Errored(b[i])
    ensures Errored(b[j]) && b[j].rounds == b[i].rounds
    decreases j
  {
    if i < j {
      NoRoundAfterError(n, b, i, j - 1);
      ErrorStaysAt(n, b, j);
    }
  }

  /** The scheduler has not got past Wait in the current round. */
  predicate BeforeOrAtWait(phase: Phase) {
    phase.Adding? || phase.Spawning? || phase.Waiting?
  }

  lemma ErroredWorkerHoldsWait(s: State, m: nat)
    requires Inv(s) && m < |s.workers| && WorkerErrored(s.workers[m])
    ensures BeforeOrAtWait(s.phase) && !Enabled(s, WaitReturns)
  {
    NonePending(s.workers);
    assert Pending(s.workers[m]);
  }

  lemma WorkerErrorStaysOver(s: State, t: State, m: nat)
    requires Inv(s) && Step(s, t) && m < |s.workers| && WorkerErrored(s.workers[m])
    ensures m < |t.workers| && WorkerErrored(t.workers[m])
  {
    var a :| Enabled(s, a) && t == Next(s, a);
    WorkerErrorStays(s, a, m);
  }

  lemma WorkerErrorStaysAt(n: nat, b: seq<State>, j: nat, m: nat)
    requires Behaviour(n, b) && 0 < j < |b| && m < |b[j - 1].workers| && WorkerErrored(b[j - 1].workers[m])
    ensures m < |b[j].workers| && WorkerErrored(b[j].workers[m])
  {
    var s, t := b[j - 1], b[j];
    AlwaysInv(n, b, j - 1);
    assert Step(s, t);
    WorkerErrorStaysOver(s, t, m);
  }

  /** After a manager's error the scheduler never gets past Wait again: it neither starts a round nor
      ends, not even on a cancellation. */
  lemma {:induction false} WaitNeverReturnsAfterError(n: nat, b: seq<State>, i: nat, j: nat, m: nat)
    requires Behaviour(n, b) && i <= j < |b| && m < |b[i].workers| && WorkerErrored(b[i].workers[m])
    ensures m < |b[j].workers| && WorkerErrored(b[j].workers[m])
    ensures BeforeOrAtWait(b[j].phase) && !Enabled(b[j], WaitReturns)
    decreases j
  {
    if i < j {
      WaitNeverReturnsAfterError(n, b, i, j - 1, m);
      WorkerErrorStaysAt(n, b, j, m);
    }
    AlwaysInv(n, b, j);
    ErroredWorkerHoldsWait(b[j], m);
  }

  /** Manager `m` has met an error, with its calls so far, and nobody has taken it or somebody has. */
  predicate HoldsError(s: State, m: nat, rounds: seq<seq<Tfstate>>, calls: seq<Call>) {
    && m < |s.workers| == |s.history| && s.rounds == rounds && s.history[m] == calls
    && (s.workers[m].SendingError? || (s.workers[m].Failed? && !s.listening))
  }

  lemma HoldsErrorStays(s: State, t: State, m: nat, rounds: seq<seq<Tfstate>>, calls: seq<Call>)
    requires Inv(s) && Step(s, t) && HoldsError(s, m, rounds, calls)
    ensures HoldsError(t, m, rounds, calls)
  {
    var a :| Enabled(s, a) && t == Next(s, a);
    ErroredWorkerHoldsWait(s, m);
    HoldsErrorNext(s, a, m, rounds, calls);
  }

  lemma HoldsErrorNext(s: State, a: Action, m: nat, rounds: seq<seq<Tfstate>>, calls: seq<Call>)
    requires HoldsError(s, m, rounds, calls) && Enabled(s, a) && BeforeOrAtWait(s.phase)
    requires s.phase.Spawning? ==> s.phase.j < |s.workers| && s.workers[s.phase.j].NotSpawned?
    ensures HoldsError(Next(s, a), m, rounds, calls)
  {
  }

  lemma HoldsErrorAt(n: nat, b: seq<State>, l: nat, m: nat, rounds: seq<seq<Tfstate>>, calls: seq<Call>)
    requires Behaviour(n, b) && 0 < l < |b| && HoldsError(b[l - 1], m, rounds, calls)
    ensures HoldsError(b[l], m, rounds, calls)
  {
    var s, t := b[l - 1], b[l];
    AlwaysInv(n, b, l - 1);
    assert Step(s, t);
    HoldsErrorStays(s, t, m, rounds, calls);
  }

  lemma {:induction false} HoldsErrorFrom(n: nat, b: seq<State>, i: nat, l: nat, m: nat,
                                          rounds: seq<seq<Tfstate>>, calls: seq<Call>)
    requires Behaviour(n, b) && i <= l < |b| && HoldsError(b[i], m, rounds, calls)
    ensures HoldsError(b[l], m, rounds, calls)
    decreases l
  {
    if i < l {
      HoldsErrorFrom(n, b, i, l - 1, m, rounds, calls);
      HoldsErrorAt(n, b, l, m, rounds, calls);
    }
  }

  /** From the step by which a call of a manager fails on: no round starts, the manager makes no call, Wait
      does not return, and the error is offered until some error has been taken. */
  lemma FailedCallStopsAll(n: nat, b: seq<State>, j: nat, l: nat, m: nat)
    requires Behaviour(n, b) && j < l < |b| && Enabled(b[j], CallFails(m)) && b[j + 1] == Next(b[j], CallFails(m))
    ensures b[l].rounds == b[j].rounds
    ensures m < |b[l].workers| == |b[l].history| == |b[j].history| && b[l].history[m] == b[j].history[m]
    ensures !Enabled(b[l], WaitReturns) && forall tfstates :: !Enabled(b[l], Fetch(tfstates))
    ensures b[l].listening ==> Enabled(b[l], ReceiveFromWorker(m))
  {
    HoldsErrorFrom(n, b, j + 1, l, m, b[j].rounds, b[j].history[m]);
    AlwaysInv(n, b, l);
    ErroredWorkerHoldsWait(b[l], m);
    HistoryCountStays(n, b, j, l);
  }

  lemma {:induction false} HistoryCountStays(n: nat, b: seq<State>, j: nat, l: nat)
    requires Behaviour(n, b) && j <= l < |b|
    ensures |b[l].history| == |b[j].history|
    decreases l
  {
    if j < l {
      HistoryCountStays(n, b, j, l - 1);
      assert Step(b[l - 1], b[l]);
    }
  }

  /** The scheduler has met an error or a cancellation; its report is pending, or it has stopped. */
  predicate SchedulerEnds(s: State, rounds: seq<seq<Tfstate>>) {
    (s.phase.Reporting? || (s.phase.Stopped? && !s.listening)) && s.rounds == rounds
  }

  lemma {:induction false} SchedulerStaysEnded(n: nat, b: seq<State>, i: nat, l: nat, rounds: seq<seq<Tfstate>>)
    requires Behaviour(n, b) && i <= l < |b| && SchedulerEnds(b[i], rounds)
    ensures SchedulerEnds(b[l], rounds)
    decreases l
  {
    if i < l {
      SchedulerStaysEnded(n, b, i, l - 1, rounds);
      assert Step(b[l - 1], b[l]);
      SchedulerEndsStep(b[l - 1], b[l], rounds);
    }
  }

  lemma SchedulerEndsStep(s: State, t: State, rounds: seq<seq<Tfstate>>)
    requires Step(s, t) && SchedulerEnds(s, rounds)
    ensures SchedulerEnds(t, rounds)
  {
  }

  /** From a failed GetTfstate, or a cancellation, on: no round starts, and the error is offered until some
      error has been taken. */
  lemma FailedFetchStopsAll(n: nat, b: seq<State>, j: nat, l: nat, a: Action)
    requires a == FetchFails || a == Cancelled
    requires Behaviour(n, b) && j < l < |b| && Enabled(b[j], a) && b[j + 1] == Next(b[j], a)
    ensures b[l].rounds == b[j].rounds && forall tfstates :: !Enabled(b[l], Fetch(tfstates))
    ensures b[l].listening ==> Enabled(b[l], ReceiveFromScheduler)
  {
    SchedulerStaysEnded(n, b, j + 1, l, b[j].rounds);
    AlwaysInv(n, b, l);
  }

  /** At most one error is ever taken: its reader stops. */
  lemma {:induction false} OneErrorIsTaken(n: nat, b: seq<State>, j: nat, l: nat, a: Action)
    requires a == ReceiveFromScheduler || a.ReceiveFromWorker?
    requires Behaviour(n, b) && j < l < |b| && Enabled(b[j], a) && b[j + 1] == Next(b[j], a)
    ensures !b[l].listening
    ensures !Enabled(b[l], ReceiveFromScheduler) && forall m :: !Enabled(b[l], ReceiveFromWorker(m))
    decreases l
  {
    if j + 1 < l {
      OneErrorIsTaken(n, b, j, l - 1, a);
      assert Step(b[l - 1], b[l]);
    }
  }

  /** What can happen: a fetch may return anything or fail, a call of a running manager may fail, a wait
      between rounds may be cancelled. */
  lemma AnythingMayFail(s: State, m: nat, tfstates: seq<Tfstate>)
    requires Inv(s)
    ensures s.phase.Fetching? ==> Enabled(s, Fetch(tfstates)) && Enabled(s, FetchFails)
    ensures s.phase.Sleeping? ==> Enabled(s, TimerFires) && Enabled(s, Cancelled)
    ensures m < |s.workers| && s.workers[m].Running? ==> Enabled(s, CallFails(m))
  {
    if m < |s.workers| && s.rounds != [] {
      assert HistoryOk(s.workers[m], s.rounds, s.history[m]);
    } else if m < |s.workers| {
      assert HistoryOk(s.workers[m], s.rounds, s.history[m]);
    }
  }

  lemma Extend(n: nat, b: seq<State>, a: Action) returns (b': seq<State>)
    requires Behaviour(n, b) && Enabled(b[|b| - 1], a)
    ensures Behaviour(n, b') && b'[|b'| - 1] == Next(b[|b| - 1], a)
  {
    b' := b + [Next(b[|b| - 1], a)];
    assert Step(b[|b| - 1], Next(b[|b| - 1], a));
  }

  /** The goroutines up to `j` run, the others are not started. */
  predicate StartedUpTo(s: State, j: nat) {
    && j <= |s.workers| == |s.history|
    && forall m :: 0 <= m < |s.workers| ==> s.workers[m] == if m < j then Running(0) else NotSpawned
  }

  lemma {:induction false} StartAll(n: nat, b: seq<State>, j: nat) returns (b': seq<State>)
    requires Behaviour(n, b) && b[|b| - 1].phase == Adding(j) && StartedUpTo(b[|b| - 1], j)
    ensures Behaviour(n, b')
    ensures var s, t := b[|b| - 1], b'[|b'| - 1];
            && t.phase == Adding(|t.workers|) && |t.workers| == |s.workers| && StartedUpTo(t, |t.workers|)
            && t.rounds == s.rounds && t.listening == s.listening
    decreases |b[|b| - 1].workers| - j
  {
    if j == |b[|b| - 1].workers| {
      return b;
    }
    var c := Extend(n, b, AddOne);
    c := Extend(n, c, Spawn);
    b' := StartAll(n, c, j + 1);
  }

  /** Goroutine `m` has read `i` state files; it reads the rest, builds and is done. */
  lemma {:induction false} RunWorker(n: nat, b: seq<State>, m: nat, i: nat) returns (b': seq<State>)
    requires Behaviour(n, b) && m < |b[|b| - 1].workers| == |b[|b| - 1].history|
    requires b[|b| - 1].workers[m] == Running(i) && i <= |Current(b[|b| - 1])|
    ensures Behaviour(n, b')
    ensures var s, t := b[|b| - 1], b'[|b'| - 1];
            && t.workers == s.workers[m := Finished] && |t.history| == |s.history| && t.phase == s.phase
            && t.rounds == s.rounds && t.listening == s.listening
    decreases |Current(b[|b| - 1])| - i
  {
    if i == |Current(b[|b| - 1])| {
      b' := Extend(n, b, BuildOk(m));
      b' := Extend(n, b', Done(m));
    } else {
      var c := Extend(n, b, ReadOk(m));
      b' := RunWorker(n, c, m, i + 1);
    }
  }

  predicate FinishedUpTo(s: State, j: nat) {
    && j <= |s.workers| == |s.history|
    && forall m :: 0 <= m < |s.workers| ==> s.workers[m] == if m < j then Finished else Running(0)
  }

  lemma {:induction false} RunAll(n: nat, b: seq<State>, j: nat) returns (b': seq<State>)
    requires Behaviour(n, b) && b[|b| - 1].phase.Waiting? && FinishedUpTo(b[|b| - 1], j)
    ensures Behaviour(n, b')
    ensures var s, t := b[|b| - 1], b'[|b'| - 1];
            && t.phase.Waiting? && FinishedUpTo(t, |t.workers|)
            && t.rounds == s.rounds && t.listening == s.listening
    decreases |b[|b| - 1].workers| - j
  {
    if j == |b[|b| - 1].workers| {
      return b;
    }
    var c := RunWorker(n, b, j, 0);
    b' := RunAll(n, c, j + 1);
  }

  /** A whole round of any state files, up to where the next one can start. */
  lemma RunRound(n: nat, b: seq<State>, tfstates: seq<Tfstate>) returns (b': seq<State>)
    requires Behaviour(n, b) && b[|b| - 1].phase.Fetching?
    ensures Behaviour(n, b') && b'[|b'| - 1].phase.Fetching?
    ensures b'[|b'| - 1].rounds == b[|b| - 1].rounds + [tfstates] && b'[|b'| - 1].listening == b[|b| - 1].listening
  {
    AlwaysInv(n, b, |b| - 1);
    b' := Extend(n, b, Fetch(tfstates));
    b' := StartAll(n, b', 0);
    b' := Extend(n, b', EndSpawning);
    b' := RunAll(n, b', 0);
    WaitGroupCountsUnfinished(n, b', |b'| - 1);
    b' := Extend(n, b', WaitReturns);
    b' := Extend(n, b', TimerFires);
  }

  /** For any number of managers and whatever the source hands out, there is a run of all the rounds. */
  lemma {:induction false} AllRoundsCanRun(n: nat, rounds: seq<seq<Tfstate>>) returns (b: seq<State>)
    ensures Behaviour(n, b) && b[|b| - 1].phase.Fetching? && b[|b| - 1].rounds == rounds && b[|b| - 1].listening
  {
    if rounds == [] {
      return [State(Fetching, seq(n, _ => Finished), 0, [], seq(n, _ => []), true)];
    }
    b := AllRoundsCanRun(n, rounds[..|rounds| - 1]);
    b := RunRound(n, b, rounds[|rounds| - 1]);
  }
}
