/** Handle of pkg/server/grpc.go and its two flow goroutines as interleaved steps: two unbuffered
    channels, and a select loop of four turns that sets a closed channel to nil. */
module GrpcProtocol {
  import opened Wrappers

  datatype FlowName = Receive | Send

  type Err = string

  /** A flow goroutine: running, blocked on sending its result, past the send, channel closed. */
  datatype Flow = Running | Offering(result: Option<Err>) | Sent | Closed

  datatype Outcome = Selecting | Returned(err: Option<Err>)

  /** A value taken from a channel. */
  datatype Delivery = Delivery(from: FlowName, result: Option<Err>)

  /** A flow goroutine, and whether Handle's variable for its channel is nil. */
  datatype Side = Side(flow: Flow, isNil: bool)

  datatype State = State(
    receive: Side,
    send: Side,
    i: nat,                        // the loop counter
    outcome: Outcome,
    taken: seq<Delivery>,          // values received, in order
    closes: nat,                   // closes received
    ended: nat)                    // calls of the backend's End
  {
    function At(f: FlowName): Side {
      if f == Receive then receive else send
    }

    function Put(f: FlowName, side: Side): State {
      if f == Receive then this.(receive := side) else this.(send := side)
    }

    predicate CanTake(f: FlowName) {
      outcome.Selecting? && i < TURNS && !At(f).isNil
    }
  }

  datatype Action =
    | FlowEnds(f: FlowName, result: Option<Err>)
    | Deliver(f: FlowName)         // the rendezvous of the goroutine's send with the select
    | Close(f: FlowName)
    | TakeClose(f: FlowName)       // the select receives from the closed channel
    | LoopExits

  const INITIAL := State(Side(Running, false), Side(Running, false), 0, Selecting, [], 0, 0)

  const TURNS := 4

  predicate Enabled(s: State, a: Action) {
    match a
    case FlowEnds(f, _) => s.At(f).flow.Running?
    case Deliver(f) => s.At(f).flow.Offering? && s.CanTake(f)
    case Close(f) => s.At(f).flow.Sent?
    case TakeClose(f) => s.At(f).flow.Closed? && s.CanTake(f)
    case LoopExits => s.outcome.Selecting? && s.i == TURNS
  }

  function Next(s: State, a: Action): State
    requires Enabled(s, a)
  {
    match a
    case FlowEnds(f, result) => s.Put(f, Side(Offering(result), s.At(f).isNil))
    case Deliver(f) =>
      var result := s.At(f).flow.result;
      var t := s.Put(f, Side(Sent, s.At(f).isNil)).(taken := s.taken + [Delivery(f, result)]);
      if result.Some? then t.(outcome := Returned(result), ended := s.ended + 1) else t.(i := s.i + 1)
    case Close(f) => s.Put(f, Side(Closed, s.At(f).isNil))
    case TakeClose(f) => s.Put(f, Side(Closed, true)).(i := s.i + 1, closes := s.closes + 1)
    case LoopExits => s.(outcome := Returned(None), ended := s.ended + 1)
  }

  ghost predicate Step(s: State, t: State) {
    exists a :: Enabled(s, a) && t == Next(s, a)
  }

  ghost predicate Behaviour(b: seq<State>) {
    && |b| > 0 && b[0] == INITIAL
    && forall i, j :: 0 <= i && j == i + 1 < |b| ==> Step(b[i], b[j])
  }

  predicate HasSent(s: State, f: FlowName) {
    s.At(f).flow.Sent? || s.At(f).flow.Closed?
  }

  /** How many turns of the loop a flow has used up: one for its value, one for its close. */
  function TurnsUsed(s: State, f: FlowName): nat {
    if !HasSent(s, f) then 0 else if s.At(f).isNil then 2 else 1
  }

  predicate AllNil(taken: seq<Delivery>) {
    forall j :: 0 <= j < |taken| ==> taken[j].result.None?
  }

  /** Every value taken came from a flow that is past its send. */
  predicate TakenOk(s: State) {
    forall j :: 0 <= j < |s.taken| ==> HasSent(s, s.taken[j].from)
  }

  predicate OutcomeOk(s: State) {
    match s.outcome
    case Selecting => AllNil(s.taken) && s.i == |s.taken| + s.closes && s.ended == 0
    case Returned(None) => AllNil(s.taken) && |s.taken| + s.closes == TURNS && s.ended == 1
    case Returned(Some(e)) => FirstError(s.taken, e) && s.ended == 1
  }

  /** `e` is the last value taken, and the first that is not nil. */
  predicate FirstError(taken: seq<Delivery>, e: Err) {
    taken != [] && AllNil(taken[..|taken| - 1]) && taken[|taken| - 1].result == Some(e)
  }

  /** The values and closes taken are the turns used up; a nil channel is a closed one. */
  predicate CountsOk(s: State) {
    && |s.taken| + s.closes == TurnsUsed(s, Receive) + TurnsUsed(s, Send)
    && s.closes == (if s.receive.isNil then 1 else 0) + (if s.send.isNil then 1 else 0)
    && (s.receive.isNil ==> s.receive.flow.Closed?) && (s.send.isNil ==> s.send.flow.Closed?)
  }

  predicate Inv(s: State) {
    CountsOk(s) && TakenOk(s) && OutcomeOk(s)
  }

  lemma DeliverKeepsCounts(s: State, f: FlowName)
    requires CountsOk(s) && Enabled(s, Deliver(f))
    ensures CountsOk(Next(s, Deliver(f)))
  {
  }

  lemma DeliverKeepsTaken(s: State, f: FlowName)
    requires TakenOk(s) && Enabled(s, Deliver(f))
    ensures TakenOk(Next(s, Deliver(f)))
  {
    var t := Next(s, Deliver(f));
    forall j | 0 <= j < |t.taken|
      ensures HasSent(t, t.taken[j].from)
    {
      if j < |s.taken| {
        assert HasSent(s, s.taken[j].from);
      }
    }
  }

  lemma DeliverKeepsOutcome(s: State, f: FlowName)
    requires OutcomeOk(s) && Enabled(s, Deliver(f))
    ensures OutcomeOk(Next(s, Deliver(f)))
  {
    var t := Next(s, Deliver(f));
    assert t.taken[..|s.taken|] == s.taken;
    assert t.taken[|s.taken|] == Delivery(f, s.At(f).flow.result);
  }

  lemma DeliverKeepsInv(s: State, f: FlowName)
    requires Inv(s) && Enabled(s, Deliver(f))
    ensures Inv(Next(s, Deliver(f)))
  {
    DeliverKeepsCounts(s, f);
    DeliverKeepsTaken(s, f);
    DeliverKeepsOutcome(s, f);
  }

  lemma TakeCloseKeepsInv(s: State, f: FlowName)
    requires Inv(s) && Enabled(s, TakeClose(f))
    ensures Inv(Next(s, TakeClose(f)))
  {
  }

  lemma StepKeepsInv(s: State, a: Action)
    requires Inv(s) && Enabled(s, a)
    ensures Inv(Next(s, a))
  {
    match a
    case Deliver(f) => DeliverKeepsInv(s, f);
    case TakeClose(f) => TakeCloseKeepsInv(s, f);
    case _ =>
  }

  lemma {:induction false} AlwaysInv(b: seq<State>, i: nat)
    requires Behaviour(b) && i < |b|
    ensures Inv(b[i])
  {
    if i > 0 {
      AlwaysInv(b, i - 1);
      assert Step(b[i - 1], b[i]);
      var a :| Enabled(b[i - 1], a) && b[i] == Next(b[i - 1], a);
      StepKeepsInv(b[i - 1], a);
    }
  }

  /** While Handle is in its loop, the counter is the number of values and closes it has taken; so it
      never selects on two nil channels, and the fourth turn is the last one there can be. */
  lemma CounterCountsTurns(b: seq<State>, n: nat)
    requires Behaviour(b) && n < |b| && b[n].outcome.Selecting?
    ensures b[n].i == |b[n].taken| + b[n].closes <= TURNS
    ensures b[n].i == TURNS <==> b[n].receive.isNil && b[n].send.isNil
  {
    AlwaysInv(b, n);
  }

  /** Handle returns nil exactly after taking a nil error and the close of both channels, both
      goroutines being through; an error it returns is the first non-nil one delivered. */
  lemma ReturnMeaning(b: seq<State>, n: nat)
    requires Behaviour(b) && n < |b| && b[n].outcome.Returned?
    ensures b[n].outcome.err.None? <==>
            && b[n].receive == Side(Closed, true) && b[n].send == Side(Closed, true)
            && |b[n].taken| == 2 && AllNil(b[n].taken)
    ensures b[n].outcome.err.Some? ==> FirstError(b[n].taken, b[n].outcome.err.value)
    ensures b[n].ended == 1
  {
    AlwaysInv(b, n);
  }

  predicate Blocked(s: State, f: FlowName) {
    s.At(f).flow.Offering? && !Enabled(s, Deliver(f))
  }

  /** At most one flow goroutine stays blocked on its send, and none when Handle returned nil. */
  lemma AtMostOneBlocked(b: seq<State>, n: nat)
    requires Behaviour(b) && n < |b|
    ensures !(Blocked(b[n], Receive) && Blocked(b[n], Send))
    ensures b[n].outcome == Returned(None) ==> !Blocked(b[n], Receive) && !Blocked(b[n], Send)
  {
    AlwaysInv(b, n);
  }

  /** What is still to do: every step of any of the three makes it smaller. */
  function Remaining(s: State): nat {
    SideRemaining(s.receive) + SideRemaining(s.send) + if s.outcome.Selecting? then 1 else 0
  }

  function SideRemaining(side: Side): nat {
    match side.flow
    case Running => 4
    case Offering(_) => 3
    case Sent => 2
    case Closed => if side.isNil then 0 else 1
  }

  lemma StepMakesProgress(s: State, a: Action)
    requires Enabled(s, a)
    ensures Remaining(Next(s, a)) < Remaining(s)
  {
  }

  /** Every run is short, whatever the interleaving: nine steps at most. */
  lemma {:induction false} RunsAreShort(b: seq<State>, n: nat)
    requires Behaviour(b) && n < |b|
    ensures n + Remaining(b[n]) <= 9
  {
    if n > 0 {
      RunsAreShort(b, n - 1);
      assert Step(b[n - 1], b[n]);
      var a :| Enabled(b[n - 1], a) && b[n] == Next(b[n - 1], a);
      StepMakesProgress(b[n - 1], a);
    }
  }

  /** Before Handle has returned, some step is always possible: of Handle once both flows have ended
      and closed, otherwise of a flow.  With the bound on the steps, Handle returns once both end. */
  lemma NeverStuckBeforeReturn(b: seq<State>, n: nat) returns (a: Action)
    requires Behaviour(b) && n < |b| && b[n].outcome.Selecting?
    ensures Enabled(b[n], a)
    ensures !b[n].receive.flow.Running? && !b[n].send.flow.Running? ==> !a.FlowEnds?
    ensures b[n].receive.flow.Closed? && b[n].send.flow.Closed? ==> a.TakeClose? || a.LoopExits?
  {
    AlwaysInv(b, n);
    var s := b[n];
    if s.i == TURNS {
      return LoopExits;
    }
    var f := if s.receive.isNil || (s.receive.flow.Running? && !s.send.isNil) then Send else Receive;
    match s.At(f).flow
    case Running => a := FlowEnds(f, None);
    case Offering(_) => a := Deliver(f);
    case Sent => a := Close(f);
    case Closed => a := TakeClose(f);
  }

  /** A run with the actions taken. */
  ghost predicate RunOf(b: seq<State>, acts: seq<Action>) {
    && |b| == |acts| + 1 && b[0] == INITIAL
    && forall i, j :: 0 <= i && j == i + 1 < |b| ==> Follows(b[i], acts[i], b[j])
  }

  predicate Follows(s: State, a: Action, t: State) {
    Enabled(s, a) && t == Next(s, a)
  }

  lemma RunIsBehaviour(b: seq<State>, acts: seq<Action>)
    requires RunOf(b, acts)
    ensures Behaviour(b)
  {
    forall i, j | 0 <= i && j == i + 1 < |b|
      ensures Step(b[i], b[j])
    {
      assert Follows(b[i], acts[i], b[j]);
    }
  }

  /** Action `i` of the run is the end of flow `f`. */
  predicate EndsAt(acts: seq<Action>, i: int, f: FlowName) {
    0 <= i < |acts| && acts[i].FlowEnds? && acts[i].f == f
  }

  /** A flow runs until it ends; from then on what it offers or has sent is what it ended with. */
  ghost predicate ResultOk(s: State, acts: seq<Action>, f: FlowName) {
    && (s.At(f).flow.Running? <==> forall i :: !EndsAt(acts, i, f))
    && (forall i :: EndsAt(acts, i, f) && s.At(f).flow.Offering? ==> s.At(f).flow.result == acts[i].result)
    && (forall i, j :: EndsAt(acts, i, f) && 0 <= j < |s.taken| && s.taken[j].from == f ==>
                         s.taken[j].result == acts[i].result)
    && (HasSent(s, f) <==> exists j :: 0 <= j < |s.taken| && s.taken[j].from == f)
  }

  lemma EndKeepsResult(s: State, acts: seq<Action>, g: FlowName, result: Option<Err>, f: FlowName)
    requires ResultOk(s, acts, f) && Enabled(s, FlowEnds(g, result))
    ensures ResultOk(Next(s, FlowEnds(g, result)), acts + [FlowEnds(g, result)], f)
  {
    var acts' := acts + [FlowEnds(g, result)];
    assert forall i :: 0 <= i < |acts| ==> (EndsAt(acts', i, f) <==> EndsAt(acts, i, f));
    assert EndsAt(acts', |acts|, g);
  }

  lemma OtherStepsKeepEnds(acts: seq<Action>, a: Action, f: FlowName, i: int)
    requires !a.FlowEnds?
    ensures EndsAt(acts + [a], i, f) <==> EndsAt(acts, i, f)
    ensures EndsAt(acts, i, f) ==> (acts + [a])[i] == acts[i]
  {
  }

  lemma DeliverKeepsResult(s: State, acts: seq<Action>, g: FlowName, f: FlowName)
    requires ResultOk(s, acts, f) && Enabled(s, Deliver(g))
    ensures ResultOk(Next(s, Deliver(g)), acts + [Deliver(g)], f)
  {
    var t := Next(s, Deliver(g));
    assert t.taken[|s.taken|].from == g;
    assert forall j :: 0 <= j < |s.taken| ==> t.taken[j] == s.taken[j];
    forall i
      ensures EndsAt(acts + [Deliver(g)], i, f) <==> EndsAt(acts, i, f)
      ensures EndsAt(acts, i, f) ==> (acts + [Deliver(g)])[i] == acts[i]
    {
      OtherStepsKeepEnds(acts, Deliver(g), f, i);
    }
  }

  lemma OtherKeepsResult(s: State, acts: seq<Action>, a: Action, f: FlowName)
    requires ResultOk(s, acts, f) && Enabled(s, a) && (a.Close? || a.TakeClose? || a.LoopExits?)
    ensures ResultOk(Next(s, a), acts + [a], f)
  {
    assert Next(s, a).taken == s.taken;
    forall i
      ensures EndsAt(acts + [a], i, f) <==> EndsAt(acts, i, f)
      ensures EndsAt(acts, i, f) ==> (acts + [a])[i] == acts[i]
    {
      OtherStepsKeepEnds(acts, a, f, i);
    }
  }

  lemma {:induction false} AlwaysResult(b: seq<State>, acts: seq<Action>, n: nat, f: FlowName)
    requires RunOf(b, acts) && n < |b|
    ensures ResultOk(b[n], acts[..n], f)
  {
    if n > 0 {
      AlwaysResult(b, acts, n - 1, f);
      var s, a := b[n - 1], acts[n - 1];
      assert Follows(s, a, b[n]);
      assert acts[..n] == acts[..n - 1] + [a];
      match a
      case FlowEnds(g, result) => EndKeepsResult(s, acts[..n - 1], g, result, f);
      case Deliver(g) => DeliverKeepsResult(s, acts[..n - 1], g, f);
      case _ => OtherKeepsResult(s, acts[..n - 1], a, f);
    }
  }

  /** Every value that Handle takes from a flow is the one with which that flow ended in the run. */
  lemma DeliveredIsResult(b: seq<State>, acts: seq<Action>, n: nat, j: nat)
    requires RunOf(b, acts) && n < |b| && j < |b[n].taken|
    ensures exists i :: EndsAt(acts[..n], i, b[n].taken[j].from)
    ensures forall i :: EndsAt(acts[..n], i, b[n].taken[j].from) ==> acts[i].result == b[n].taken[j].result
  {
    AlwaysResult(b, acts, n, b[n].taken[j].from);
  }

  ghost predicate EndedWithNil(acts: seq<Action>, f: FlowName) {
    && (exists i :: EndsAt(acts, i, f))
    && forall i :: EndsAt(acts, i, f) ==> acts[i].result.None?
  }

  /** Handle returns nil only if both flows have ended in the run, each with nil; an error only if a flow
      ended with that error. */
  lemma ReturnTellsResults(b: seq<State>, acts: seq<Action>, n: nat)
    requires RunOf(b, acts) && n < |b|
    ensures b[n].outcome == Returned(None) ==>
              EndedWithNil(acts[..n], Receive) && EndedWithNil(acts[..n], Send)
    ensures b[n].outcome.Returned? && b[n].outcome.err.Some? ==>
              exists i, f :: EndsAt(acts[..n], i, f) && acts[i].result == b[n].outcome.err
  {
    RunIsBehaviour(b, acts);
    AlwaysInv(b, n);
    var s := b[n];
    if s.outcome == Returned(None) {
      ReturnMeaning(b, n);
      AlwaysResult(b, acts, n, Receive);
      AlwaysResult(b, acts, n, Send);
      assert HasSent(s, Receive) && HasSent(s, Send);
    } else if s.outcome.Returned? {
      DeliveredIsResult(b, acts, n, |s.taken| - 1);
    }
  }

  lemma Extend(b: seq<State>, acts: seq<Action>, a: Action) returns (b': seq<State>, acts': seq<Action>)
    requires RunOf(b, acts) && Enabled(b[|b| - 1], a)
    ensures RunOf(b', acts') && b'[|b'| - 1] == Next(b[|b| - 1], a) && acts' == acts + [a]
  {
    b', acts' := b + [Next(b[|b| - 1], a)], acts + [a];
    forall i, j | 0 <= i && j == i + 1 < |b'|
      ensures Follows(b'[i], acts'[i], b'[j])
    {
      if j < |b| {
        assert Follows(b[i], acts[i], b[j]);
      }
    }
  }

  /** Any error with which either flow ends first can be what Handle returns. */
  lemma AnyErrorCanBeReturned(f: FlowName, e: Err) returns (b: seq<State>, acts: seq<Action>)
    ensures RunOf(b, acts) && acts == [FlowEnds(f, Some(e)), Deliver(f)]
    ensures b[|b| - 1].outcome == Returned(Some(e))
  {
    b, acts := [INITIAL], [];
    b, acts := Extend(b, acts, FlowEnds(f, Some(e)));
    b, acts := Extend(b, acts, Deliver(f));
  }

  /** A flow that ends with nil, up to the close being taken. */
  lemma EndWithNil(b: seq<State>, acts: seq<Action>, f: FlowName) returns (b': seq<State>, acts': seq<Action>)
    requires RunOf(b, acts)
    requires var s := b[|b| - 1]; s.At(f) == Side(Running, false) && s.outcome.Selecting? && s.i + 2 <= TURNS
    ensures RunOf(b', acts')
    ensures var s, t := b[|b| - 1], b'[|b'| - 1];
            && t.At(f) == Side(Closed, true) && t.outcome.Selecting? && t.i == s.i + 2
            && forall g :: g != f ==> t.At(g) == s.At(g)
  {
    b', acts' := Extend(b, acts, FlowEnds(f, None));
    b', acts' := Extend(b', acts', Deliver(f));
    b', acts' := Extend(b', acts', Close(f));
    b', acts' := Extend(b', acts', TakeClose(f));
  }

  /** Two flows that end with nil make Handle return nil, whichever ends first. */
  lemma NilCanBeReturned(first: FlowName, second: FlowName) returns (b: seq<State>, acts: seq<Action>)
    requires first != second
    ensures RunOf(b, acts) && b[|b| - 1].outcome == Returned(None)
  {
    b, acts := [INITIAL], [];
    b, acts := EndWithNil(b, acts, first);
    b, acts := EndWithNil(b, acts, second);
    b, acts := Extend(b, acts, LoopExits);
  }
}
