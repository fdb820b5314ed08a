/** The whole pipeline: the calls that the scheduler of pkg/state/manager.go makes on the xDS manager,
    in any interleaving with the other managers and with SetClusterEndpoints, fed by the S3 source. */
module Pipeline {
  import opened Wrappers
  import opened Terraform
  import opened TfstateSource
  import opened EtagCache
  import opened XdsModel
  import opened EndToEnd
  import Scheduler

  function Reads(docs: seq<Doc>): (events: seq<Event>)
    ensures |events| == |docs|
    ensures forall i :: 0 <= i < |docs| ==> events[i] == Read(docs[i])
  {
    seq(|docs|, i requires 0 <= i < |docs| => Read(docs[i]))
  }

  /** What a successful call is to the xDS state: the documents it reads in order, or a Build in which
      every transaction succeeds. */
  function EventsOfCall(call: Scheduler.Call): seq<Event> {
    match call
    case ReadFromTfstate(tfstate) => Reads(Docs(tfstate))
    case Build => [Build(ALL_SUCCEED)]
  }

  function EventsOfCalls(calls: seq<Scheduler.Call>): seq<Event> {
    if calls == [] then [] else EventsOfCalls(calls[..|calls| - 1]) + EventsOfCall(calls[|calls| - 1])
  }

  /** A run without its calls of SetClusterEndpoints. */
  function ManagerEvents(events: seq<Event>): seq<Event> {
    if events == [] then []
    else
      var last := events[|events| - 1];
      ManagerEvents(events[..|events| - 1]) + if last.SetClusterEndpoints? then [] else [last]
  }

  lemma Associative<T>(a: seq<T>, b: seq<T>, c: seq<T>)
    ensures (a + b) + c == a + (b + c)
  {
  }

  lemma {:induction false} EventsOfCallsAppend(a: seq<Scheduler.Call>, b: seq<Scheduler.Call>)
    ensures EventsOfCalls(a + b) == EventsOfCalls(a) + EventsOfCalls(b)
  {
    if b == [] {
      assert a + b == a;
    } else {
      var init, last := b[..|b| - 1], b[|b| - 1];
      assert (a + b)[..|a + b| - 1] == a + init && (a + b)[|a + b| - 1] == last;
      EventsOfCallsAppend(a, init);
      Associative(EventsOfCalls(a), EventsOfCalls(init), EventsOfCall(last));
    }
  }

  lemma ReadsAppend(a: seq<Doc>, b: seq<Doc>)
    ensures Reads(a + b) == Reads(a) + Reads(b)
  {
  }

  lemma {:induction false} EventsOfReads(tfstates: seq<Tfstate>)
    ensures EventsOfCalls(Scheduler.Reads(tfstates)) == Reads(AllDocs(tfstates))
  {
    if tfstates != [] {
      var first, rest := Scheduler.ReadFromTfstate(tfstates[0]), tfstates[1..];
      assert Scheduler.Reads(tfstates) == [first] + Scheduler.Reads(rest);
      EventsOfCallsAppend([first], Scheduler.Reads(rest));
      EventsOfOne(first);
      EventsOfReads(rest);
      ReadsAppend(Docs(tfstates[0]), AllDocs(rest));
    }
  }

  lemma EventsOfOne(call: Scheduler.Call)
    ensures EventsOfCalls([call]) == EventsOfCall(call)
  {
    assert [call][..0] == [];
    assert EventsOfCalls([]) == [];
  }

  /** The rounds of a manager as events: the documents of each in order, then a Build. */
  function EventsOfRounds(rounds: seq<seq<Tfstate>>): (events: seq<Event>)
    ensures events == [] <==> rounds == []
    ensures events != [] ==> events[|events| - 1] == Build(ALL_SUCCEED)
  {
    if rounds == [] then []
    else EventsOfRounds(rounds[..|rounds| - 1]) + (Reads(AllDocs(rounds[|rounds| - 1])) + [Build(ALL_SUCCEED)])
  }

  lemma {:induction false} EventsOfAllCalls(rounds: seq<seq<Tfstate>>)
    ensures EventsOfCalls(Scheduler.AllCalls(rounds)) == EventsOfRounds(rounds)
  {
    if rounds != [] {
      var before, last := rounds[..|rounds| - 1], rounds[|rounds| - 1];
      EventsOfAllCalls(before);
      EventsOfCallsAppend(Scheduler.AllCalls(before), Scheduler.RoundCalls(last));
      EventsOfCallsAppend(Scheduler.Reads(last), [Scheduler.Build]);
      EventsOfOne(Scheduler.Build);
      EventsOfReads(last);
    }
  }

  /** A run can be cut where the first part of its manager events ends. */
  lemma {:induction false} Cut(events: seq<Event>, a: seq<Event>, b: seq<Event>) returns (n: nat)
    requires ManagerEvents(events) == a + b
    ensures n <= |events| && ManagerEvents(events[..n]) == a && ManagerEvents(events[n..]) == b
    ensures if a == [] then n == 0 else n > 0 && events[n - 1] == a[|a| - 1]
  {
    if a == [] {
      assert events[0..] == events && a + b == b;
      return 0;
    }
    var init, last := events[..|events| - 1], events[|events| - 1];
    if last.SetClusterEndpoints? {
      n := Cut(init, a, b);
      CutFurther(events, n);
    } else if b == [] {
      assert events[..|events|] == events && a + b == a;
      n := |events|;
    } else {
      LastManagerEvent(events, a, b);
      n := Cut(init, a, b[..|b| - 1]);
      CutFurther(events, n);
    }
  }

  lemma LastManagerEvent(events: seq<Event>, a: seq<Event>, b: seq<Event>)
    requires events != [] && !events[|events| - 1].SetClusterEndpoints? && b != []
    requires ManagerEvents(events) == a + b
    ensures ManagerEvents(events[..|events| - 1]) == a + b[..|b| - 1] && b[|b| - 1] == events[|events| - 1]
  {
    var x, e := ManagerEvents(events[..|events| - 1]), events[|events| - 1];
    LastOf(b);
    Associative(a, b[..|b| - 1], [b[|b| - 1]]);
    SameEnds(x, e, a + b[..|b| - 1], b[|b| - 1]);
  }

  lemma LastOf<T>(s: seq<T>)
    requires s != []
    ensures s == s[..|s| - 1] + [s[|s| - 1]]
  {
  }

  lemma SameEnds<T>(a: seq<T>, x: T, b: seq<T>, y: T)
    requires a + [x] == b + [y]
    ensures a == b && x == y
  {
    assert |a| == |b|;
    assert a == (a + [x])[..|a|] == (b + [y])[..|b|] == b;
    assert (a + [x])[|a|] == (b + [y])[|b|];
  }

  lemma CutFurther(events: seq<Event>, n: nat)
    requires n < |events|
    ensures events[..|events| - 1][..n] == events[..n]
    ensures ManagerEvents(events[n..]) ==
            ManagerEvents(events[..|events| - 1][n..]) +
            if events[|events| - 1].SetClusterEndpoints? then [] else [events[|events| - 1]]
  {
    assert events[n..][..|events[n..]| - 1] == events[..|events| - 1][n..];
  }

  lemma {:induction false} OnlyReads(events: seq<Event>, docs: seq<Doc>)
    requires ManagerEvents(events) == Reads(docs)
    ensures DocsRead(events) == docs && forall e :: e in events ==> !e.Build?
  {
    if events != [] {
      var init, last := events[..|events| - 1], events[|events| - 1];
      if last.SetClusterEndpoints? {
        OnlyReads(init, docs);
      } else {
        assert ManagerEvents(events)[|docs| - 1] == last;
        assert ManagerEvents(init) == Reads(docs)[..|docs| - 1] == Reads(docs[..|docs| - 1]);
        OnlyReads(init, docs[..|docs| - 1]);
        assert docs[..|docs| - 1] + [last.doc] == docs;
      }
      assert forall e :: e in events ==> e in init || e == last;
    }
  }

  /** The events of a round: its documents in order, and no Build before the end. */
  predicate RoundReads(r: Round, tfstates: seq<Tfstate>) {
    DocsRead(r.events) == AllDocs(tfstates) && forall e :: e in r.events ==> !e.Build?
  }

  predicate RoundsRead(split: seq<Round>, rounds: seq<seq<Tfstate>>) {
    |split| == |rounds| && forall r :: 0 <= r < |rounds| ==> RoundReads(split[r], rounds[r])
  }

  lemma OneMoreRead(split: seq<Round>, r: Round, rounds: seq<seq<Tfstate>>, last: seq<Tfstate>)
    requires RoundsRead(split, rounds) && RoundReads(r, last)
    ensures RoundsRead(split + [r], rounds + [last])
  {
  }

  /** A run of the xDS state whose calls are those of `rounds`, up to its last Build, is a run of rounds. */
  lemma {:induction false} SplitIntoRounds(rounds: seq<seq<Tfstate>>, listings: seq<seq<Page>>, events: seq<Event>)
    returns (split: seq<Round>)
    requires |listings| == |rounds|
    requires ManagerEvents(events) == EventsOfRounds(rounds)
    requires events != [] ==> events[|events| - 1].Build?
    ensures EventsOf(split) == events && Listings(split) == listings
    ensures RoundsRead(split, rounds)
  {
    if rounds == [] {
      NoManagerEvents(events);
      return [];
    }
    var before, last := rounds[..|rounds| - 1], rounds[|rounds| - 1];
    var n := CutLastRound(EventsOfRounds(before), AllDocs(last), events);
    var parts := SplitIntoRounds(before, listings[..|rounds| - 1], events[..n]);
    var round := Round(listings[|rounds| - 1], events[n..|events| - 1]);
    AddRound(parts, round, events, n);
    OneMoreRead(parts, round, before, last);
    LastOf(listings);
    LastOf(rounds);
    split := parts + [round];
  }

  lemma AddRound(parts: seq<Round>, round: Round, events: seq<Event>, n: nat)
    requires n < |events| && EventsOf(parts) == events[..n] && events[|events| - 1] == Build(ALL_SUCCEED)
    requires round.events == events[n..|events| - 1]
    ensures EventsOf(parts + [round]) == events && Listings(parts + [round]) == Listings(parts) + [round.pages]
  {
    assert (parts + [round])[..|parts|] == parts;
    assert events[..n] + round.events + [Build(ALL_SUCCEED)] == events;
  }

  /** Where the last round begins: right after the Build of the round before. */
  lemma CutLastRound(done: seq<Event>, docs: seq<Doc>, events: seq<Event>) returns (n: nat)
    requires ManagerEvents(events) == done + (Reads(docs) + [Build(ALL_SUCCEED)])
    requires done != [] ==> done[|done| - 1].Build?
    requires events != [] ==> events[|events| - 1].Build?
    ensures n < |events| && events[|events| - 1] == Build(ALL_SUCCEED)
    ensures n > 0 ==> events[n - 1].Build?
    ensures ManagerEvents(events[..n]) == done
    ensures DocsRead(events[n..|events| - 1]) == docs && forall e :: e in events[n..|events| - 1] ==> !e.Build?
  {
    var current := Reads(docs) + [Build(ALL_SUCCEED)];
    n := Cut(events, done, current);
    var tail := events[n..];
    assert tail != [] && tail[|tail| - 1] == events[|events| - 1];
    assert [] + current == current;
    LastManagerEvent(tail, [], current);
    assert tail[..|tail| - 1] == events[n..|events| - 1];
    assert [] + current[..|current| - 1] == Reads(docs);
    OnlyReads(events[n..|events| - 1], docs);
  }

  lemma NoManagerEvents(events: seq<Event>)
    requires ManagerEvents(events) == []
    requires events != [] ==> events[|events| - 1].Build?
    ensures events == []
  {
  }

  /** The rounds of a scheduler are fed by the source: what GetTfstate returned, round by round. */
  predicate FedBySource(denotes: Denotation, bucket: string, listings: seq<seq<Page>>, rounds: seq<seq<Tfstate>>) {
    && |listings| == |rounds|
    && forall r :: 0 <= r < |rounds| ==> SourceOk(denotes, bucket, listings[..r + 1], rounds[r])
  }

  predicate AllDecodable(unmarshal: Unmarshal, rounds: seq<seq<Tfstate>>) {
    forall r :: 0 <= r < |rounds| ==> Decodable(unmarshal, AllDocs(rounds[r]))
  }

  lemma SplitRoundsAreOk(unmarshal: Unmarshal, denotes: Denotation, bucket: string, listings: seq<seq<Page>>,
                         rounds: seq<seq<Tfstate>>, split: seq<Round>)
    requires FedBySource(denotes, bucket, listings, rounds) && AllDecodable(unmarshal, rounds)
    requires Listings(split) == listings && RoundsRead(split, rounds)
    ensures AllRoundsOk(unmarshal, denotes, bucket, split)
  {
    forall n | 0 < n <= |split|
      ensures RoundOk(unmarshal, denotes, bucket, split[..n])
    {
      assert Listings(split[..n]) == listings[..n - 1 + 1];
      assert RoundReads(split[n - 1], rounds[n - 1]);
      assert SourceOk(denotes, bucket, Listings(split[..n]), rounds[n - 1]);
    }
  }

  /** The calls of a manager that has built in the current round are those of all rounds. */
  lemma BuiltHistory(n: nat, b: seq<Scheduler.State>, i: nat, m: nat)
    requires Scheduler.Behaviour(n, b) && i < |b| && m < |b[i].workers| == |b[i].history|
    requires b[i].workers[m].Built? || b[i].workers[m].Finished?
    ensures b[i].history[m] == Scheduler.AllCalls(b[i].rounds)
  {
    Scheduler.AlwaysInv(n, b, i);
    assert Scheduler.HistoryOk(b[i].workers[m], b[i].rounds, b[i].history[m]);
  }

  /** End to end, over every interleaving of scheduler, managers and endpoint updates: once the xDS
      manager has built in a round, each of the five caches holds exactly the resources of its kind in
      the bucket's current state files if some ETag had changed, each as last read and with the
      endpoints of the overlay at that moment; nothing if none had.  `events` is what happened to the
      xDS state up to that Build: the calls of its manager, mixed with SetClusterEndpoints. */
  lemma BuiltCachesFollowBucket(n: nat, b: seq<Scheduler.State>, i: nat, m: nat,
                                unmarshal: Unmarshal, denotes: Denotation, bucket: string,
                                listings: seq<seq<Page>>, events: seq<Event>, k: nat, name: string)
    requires Scheduler.Behaviour(n, b) && i < |b| && m < |b[i].workers| == |b[i].history| && b[i].rounds != []
    requires b[i].workers[m].Built? || b[i].workers[m].Finished?
    requires FedBySource(denotes, bucket, listings, b[i].rounds) && AllDecodable(unmarshal, b[i].rounds)
    requires ManagerEvents(events) == EventsOfCalls(b[i].history[m])
    requires events != [] ==> events[|events| - 1].Build?
    requires k < |KINDS|
    ensures events != [] && WellFormedRun(events) && WellFormedRun(events[..|events| - 1])
    ensures AreCurrentDocs(denotes, bucket, listings, DocsOf(SinceBuild(events[..|events| - 1])))
    ensures AllTagged(listings[|listings| - 1]) ==>
              DocsOf(SinceBuild(events[..|events| - 1])) == CurrentDocs(denotes, bucket, listings)
    ensures var read := SinceBuild(events[..|events| - 1]);
            var cache := Run(unmarshal, k, events).group.cache;
            && Lookup(cache, name) == LastDeclared(DecodeRead(unmarshal, KINDS[k]), read, name)
            && (name in cache <==> exists i :: 0 <= i < |read| && Names(unmarshal, KINDS[k], read[i].doc, name))
            && HoldsLastRead(unmarshal, k, events[..|events| - 1], name, cache)
  {
    BuiltHistory(n, b, i, m);
    EventsOfAllCalls(b[i].rounds);
    var split := SplitIntoRounds(b[i].rounds, listings, events);
    SplitRoundsAreOk(unmarshal, denotes, bucket, listings, b[i].rounds, split);
    CachesFollowBucket(unmarshal, denotes, bucket, split, k, name);
    assert events[..|events| - 1] == BeforeLastBuild(split);
    if AllTagged(listings[|listings| - 1]) {
      TaggedDocsAreFresh(denotes, bucket, listings, DocsOf(SinceBuild(events[..|events| - 1])));
    }
  }
}
