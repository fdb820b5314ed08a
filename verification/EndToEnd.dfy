/** From the bucket to the caches: the rounds of pkg/state/manager.go over the S3 source and the xDS
    state, in runs without errors. */
module EndToEnd {
  import opened Wrappers
  import opened Terraform
  import opened TfstateSource
  import opened EtagCache
  import opened XdsModel
  import opened Xds

  function Entries(unmarshal: Unmarshal, k: nat, overlay: Overlay, m: map<string, Res>,
                   docs: seq<Doc>): Reading<string, Res>
    requires k < |KINDS|
  {
    ReadAll(Decoder(unmarshal, KINDS[k], overlay), m, docs)
  }

  /** Reading the state files of a round: each group reads all their documents in order. */
  method ReadRound(manager: XdsState, tfstates: seq<Tfstate>) returns (ok: bool)
    requires manager.Valid()
    modifies manager.repr
    ensures manager.Valid() && manager.repr == old(manager.repr)
    ensures forall k :: 0 <= k < |KINDS| ==>
                          var before, after := old(manager.groups[k].view), manager.groups[k].view;
                          && after == before.(current := after.current)
                          && Reading(ok, after.current) ==
                             Entries(manager.unmarshal, k, manager.endpointsMap, before.current, AllDocs(tfstates))
  {
    for i := 0 to |tfstates|
      invariant manager.Valid() && manager.repr == old(manager.repr)
      invariant forall k :: 0 <= k < |KINDS| ==>
                              var before, now := old(manager.groups[k].view), manager.groups[k].view;
                              var overlay := manager.endpointsMap;
                              && now == before.(current := now.current)
                              && Entries(manager.unmarshal, k, overlay, before.current, AllDocs(tfstates)) ==
                                 Entries(manager.unmarshal, k, overlay, now.current, AllDocs(tfstates[i..]))
    {
      label before:
      assert tfstates[i..][1..] == tfstates[i + 1..];
      ok := manager.ReadFromTfstate(tfstates[i]);
      forall k | 0 <= k < |KINDS|
        ensures var was, now := old@before(manager.groups[k].view.current), manager.groups[k].view.current;
                Entries(manager.unmarshal, k, manager.endpointsMap, was, AllDocs(tfstates[i..])) ==
                if ok then Entries(manager.unmarshal, k, manager.endpointsMap, now, AllDocs(tfstates[i + 1..]))
                else Reading(false, now)
      {
        ReadAllConcat(Decoder(manager.unmarshal, KINDS[k], manager.endpointsMap),
                      old@before(manager.groups[k].view.current), Docs(tfstates[i]), AllDocs(tfstates[i + 1..]));
      }
      if !ok {
        return;
      }
    }
    ok := true;
  }

  /** Every document of a resource type that is read can be decoded. */
  predicate Decodable(unmarshal: Unmarshal, docs: seq<Doc>) {
    forall i :: 0 <= i < |docs| && KindOf(docs[i].kind).Some? ==>
                  unmarshal(KindOf(docs[i].kind).value, docs[i].json).Some?
  }

  lemma ReadsIffDecodable(unmarshal: Unmarshal, k: nat, overlay: Overlay, m: map<string, Res>, docs: seq<Doc>)
    requires k < |KINDS|
    ensures Entries(unmarshal, k, overlay, m, docs).ok <==> Decodable(unmarshal, docs)
  {
    ReadAllMeaning(Decoder(unmarshal, KINDS[k], overlay), m, docs, "");
    assert forall d: Doc :: Decoder(unmarshal, KINDS[k], overlay)(d).Malformed? <==>
                            KindOf(d.kind).Some? && unmarshal(KindOf(d.kind).value, d.json).None?;
  }

  /** A group after the manager's goroutine: it stops at a document that cannot be decoded, and builds
      otherwise. */
  function AfterManager(unmarshal: Unmarshal, k: nat, overlay: Overlay, g: Group, docs: seq<Doc>,
                        fates: seq<Fate>): Group
    requires k < |KINDS| == |fates|
  {
    var reading := Entries(unmarshal, k, overlay, g.current, docs);
    var read := g.(current := reading.entries);
    if reading.ok then BuildGroup(read, k, fates) else read
  }

  /** What the goroutine of the xDS manager does in a round: read every state file, then build.  It
      succeeds exactly when every document can be decoded and every transaction succeeds.  Then every
      cache is exactly what was read since the last successful Build; in every case, each cached name
      stays covered, so that a later success makes up for a failure. */
  method RunManager(manager: XdsState, tfstates: seq<Tfstate>, fates: seq<Fate>) returns (ok: bool)
    requires manager.Valid() && |fates| == |KINDS|
    requires forall k :: 0 <= k < |KINDS| ==> Covered(manager.groups[k].view)
    modifies manager, manager.repr
    ensures manager.Valid() && fresh(manager.repr - old(manager.repr))
    ensures manager.endpointsMap == old(manager.endpointsMap)
    ensures ok <==> Decodable(manager.unmarshal, AllDocs(tfstates)) && SucceedUpTo(fates, |fates|)
    ensures forall k :: 0 <= k < |KINDS| ==> Covered(manager.groups[k].view)
    ensures forall k :: 0 <= k < |KINDS| ==>
                          manager.groups[k].view == AfterManager(manager.unmarshal, k, manager.endpointsMap,
                                                                 old(manager.groups[k].view), AllDocs(tfstates), fates)
    ensures ok ==> forall k :: 0 <= k < |KINDS| ==>
                                 var before, after := old(manager.groups[k].view), manager.groups[k].view;
                                 Replaced(Entries(manager.unmarshal, k, manager.endpointsMap, before.current,
                                                  AllDocs(tfstates)), after)
  {
    ok := ReadRound(manager, tfstates);
    ReadsIffDecodable(manager.unmarshal, 0, manager.endpointsMap,
                      old(manager.groups[0].view.current), AllDocs(tfstates));
    forall k | 0 <= k < |KINDS|
      ensures Covered(manager.groups[k].view)
    {
      ReadAllGrows(Decoder(manager.unmarshal, KINDS[k], manager.endpointsMap),
                   old(manager.groups[k].view.current), AllDocs(tfstates));
    }
    if !ok {
      return;
    }
    label read:
    ok := manager.Build(fates);
    forall k | 0 <= k < |KINDS|
      ensures Covered(manager.groups[k].view)
      ensures ok ==> manager.groups[k].view.cache == old@read(manager.groups[k].view.current)
    {
      TransactReplacesIff(old@read(manager.groups[k].view));
    }
  }

  /** The group after a round that read `reading`: cached, and to be deleted unless read again. */
  predicate Replaced(reading: Reading<string, Res>, after: Group) {
    reading.ok && after == Group(map[], reading.entries.Keys, reading.entries)
  }

  /** A round as it runs: what the store answers, and the reads of the xDS manager interleaved with
      calls of SetClusterEndpoints.  The round ends with a successful Build. */
  datatype Round = Round(pages: seq<Page>, events: seq<Event>)

  const ALL_SUCCEED := [Succeeds, Succeeds, Succeeds, Succeeds, Succeeds]

  function DocsRead(events: seq<Event>): seq<Doc> {
    if events == [] then []
    else
      var last := events[|events| - 1];
      DocsRead(events[..|events| - 1]) + if last.Read? then [last.doc] else []
  }

  function EventsOf(rounds: seq<Round>): seq<Event> {
    if rounds == [] then []
    else EventsOf(rounds[..|rounds| - 1]) + rounds[|rounds| - 1].events + [Build(ALL_SUCCEED)]
  }

  /** The run up to the Build that ends the last round. */
  function BeforeLastBuild(rounds: seq<Round>): seq<Event>
    requires rounds != []
  {
    EventsOf(rounds[..|rounds| - 1]) + rounds[|rounds| - 1].events
  }

  /** What the store answered, round by round. */
  function Listings(rounds: seq<Round>): (listings: seq<seq<Page>>)
    ensures |listings| == |rounds|
    ensures forall i :: 0 <= i < |rounds| ==> listings[i] == rounds[i].pages
  {
    seq(|rounds|, i requires 0 <= i < |rounds| => rounds[i].pages)
  }

  /** The cache of the source after the rounds. */
  function SourceCache(bucket: string, listings: seq<seq<Page>>): map<string, Entry> {
    if listings == [] then map[]
    else CacheAfter(ScanPages(bucket, SourceCache(bucket, listings[..|listings| - 1]), listings[|listings| - 1]))
  }

  function ScanOf(bucket: string, listings: seq<seq<Page>>): Scan
    requires listings != []
  {
    ScanPages(bucket, SourceCache(bucket, listings[..|listings| - 1]), listings[|listings| - 1])
  }

  /** The state files the managers are given: none when nothing changed. */
  function Delivered(result: Result): seq<Option<Tfstate>> {
    if result.Changed? then result.tfstates else []
  }

  /** The source meets no error in the last round, hands out `tfstates`, none of them nil, and is told the
      truth: a name and a non-empty ETag stand for one content. */
  predicate SourceOk(denotes: Denotation, bucket: string, listings: seq<seq<Page>>, tfstates: seq<Tfstate>)
    requires listings != []
  {
    var pages := listings[|listings| - 1];
    && AllConsistent(denotes, bucket, pages)
    && ScanOf(bucket, listings).ok
    && Delivered(ResultOf(ScanOf(bucket, listings))) == Somes(tfstates)
  }

  /** No error in the last round: every delivered document is read in order and can be decoded, and no
      Build happens before the end of the round. */
  ghost predicate RoundOk(unmarshal: Unmarshal, denotes: Denotation, bucket: string, rounds: seq<Round>)
    requires rounds != []
  {
    var events := rounds[|rounds| - 1].events;
    && (forall e :: e in events ==> !e.Build?)
    && (exists tfstates ::
          SourceOk(denotes, bucket, Listings(rounds), tfstates) && DocsRead(events) == AllDocs(tfstates))
    && Decodable(unmarshal, DocsRead(events))
  }

  ghost predicate AllRoundsOk(unmarshal: Unmarshal, denotes: Denotation, bucket: string, rounds: seq<Round>) {
    forall n :: 0 < n <= |rounds| ==> RoundOk(unmarshal, denotes, bucket, rounds[..n])
  }

  lemma {:induction false} SourceStaysCoherent(unmarshal: Unmarshal, denotes: Denotation, bucket: string,
                                               rounds: seq<Round>)
    requires AllRoundsOk(unmarshal, denotes, bucket, rounds)
    ensures Coherent(denotes, SourceCache(bucket, Listings(rounds)))
  {
    if rounds != [] {
      var before := rounds[..|rounds| - 1];
      assert rounds[..|rounds|] == rounds;
      assert forall n :: 0 < n <= |before| ==> before[..n] == rounds[..n];
      assert Listings(before) == Listings(rounds)[..|rounds| - 1];
      SourceStaysCoherent(unmarshal, denotes, bucket, before);
      CacheStaysCoherent(denotes, bucket, SourceCache(bucket, Listings(before)), rounds[|rounds| - 1].pages);
    }
  }

  /** What the last round hands out: the bucket's current state files if some ETag had changed, none
      otherwise.  An object without an ETag may be there with an older content. */
  ghost predicate HandsOut(denotes: Denotation, bucket: string, listings: seq<seq<Page>>, tfstates: seq<Tfstate>)
    requires listings != []
  {
    if !ResultOf(ScanOf(bucket, listings)).Changed? then tfstates == []
    else AreCurrent(denotes, bucket, listings[|listings| - 1], tfstates)
  }

  /** One state file for each that is listed, and the current one if it has an ETag. */
  predicate AreCurrent(denotes: Denotation, bucket: string, pages: seq<Page>, tfstates: seq<Tfstate>) {
    && |tfstates| == |Listed(pages)|
    && forall i :: 0 <= i < |tfstates| && Tagged(Listed(pages)[i]) ==>
                     tfstates[i] == FreshDownload(denotes, bucket, pages)[i]
  }

  ghost predicate AreCurrentDocs(denotes: Denotation, bucket: string, listings: seq<seq<Page>>, docs: seq<Doc>)
    requires listings != []
  {
    exists tfstates :: HandsOut(denotes, bucket, listings, tfstates) && docs == AllDocs(tfstates)
  }

  /** The documents, when every object has an ETag. */
  function CurrentDocs(denotes: Denotation, bucket: string, listings: seq<seq<Page>>): seq<Doc>
    requires listings != []
  {
    if ResultOf(ScanOf(bucket, listings)).Changed?
    then AllDocs(FreshDownload(denotes, bucket, listings[|listings| - 1])) else []
  }

  lemma TaggedDocsAreFresh(denotes: Denotation, bucket: string, listings: seq<seq<Page>>, docs: seq<Doc>)
    requires listings != [] && AreCurrentDocs(denotes, bucket, listings, docs)
    requires AllTagged(listings[|listings| - 1])
    ensures docs == CurrentDocs(denotes, bucket, listings)
  {
    var tfstates :| HandsOut(denotes, bucket, listings, tfstates) && docs == AllDocs(tfstates);
    var pages := listings[|listings| - 1];
    if ResultOf(ScanOf(bucket, listings)).Changed? {
      forall i | 0 <= i < |tfstates|
        ensures tfstates[i] == FreshDownload(denotes, bucket, pages)[i]
      {
        assert Listed(pages)[i] in pages;
      }
      assert tfstates == FreshDownload(denotes, bucket, pages);
    }
  }

  lemma ScanHandsOut(denotes: Denotation, bucket: string, listings: seq<seq<Page>>, tfstates: seq<Tfstate>)
    requires listings != [] && SourceOk(denotes, bucket, listings, tfstates)
    requires Coherent(denotes, SourceCache(bucket, listings[..|listings| - 1]))
    ensures HandsOut(denotes, bucket, listings, tfstates)
  {
    var cache, pages := SourceCache(bucket, listings[..|listings| - 1]), listings[|listings| - 1];
    if ResultOf(ScanOf(bucket, listings)).Changed? {
      CollectsListed(bucket, cache, pages);
      forall i | 0 <= i < |tfstates| && Tagged(Listed(pages)[i])
        ensures tfstates[i] == FreshDownload(denotes, bucket, pages)[i]
      {
        ScanIsFresh(denotes, bucket, cache, pages, i);
        assert Somes(tfstates)[i] == Some(tfstates[i]);
      }
    }
  }

  lemma LastRoundReadsBucket(unmarshal: Unmarshal, denotes: Denotation, bucket: string, rounds: seq<Round>)
    requires rounds != [] && AllRoundsOk(unmarshal, denotes, bucket, rounds)
    ensures AreCurrentDocs(denotes, bucket, Listings(rounds), DocsRead(rounds[|rounds| - 1].events))
  {
    var before, last := rounds[..|rounds| - 1], rounds[|rounds| - 1];
    var listings := Listings(rounds);
    assert rounds[..|rounds|] == rounds;
    assert forall n :: 0 < n <= |before| ==> before[..n] == rounds[..n];
    assert Listings(before) == listings[..|rounds| - 1];
    SourceStaysCoherent(unmarshal, denotes, bucket, before);
    assert RoundOk(unmarshal, denotes, bucket, rounds);
    var tfstates :| SourceOk(denotes, bucket, listings, tfstates) && DocsRead(last.events) == AllDocs(tfstates);
    ScanHandsOut(denotes, bucket, listings, tfstates);
  }

  function DocsOf(read: seq<ReadDoc>): (docs: seq<Doc>)
    ensures |docs| == |read| && forall i :: 0 <= i < |docs| ==> docs[i] == read[i].doc
  {
    seq(|read|, i requires 0 <= i < |read| => read[i].doc)
  }

  /** Since the last Build, exactly the documents of the unfinished round have been read. */
  lemma {:induction false} ReadSinceBuild(before: seq<Event>, events: seq<Event>)
    requires WellFormedRun(before) && SinceBuild(before) == []
    requires forall e :: e in events ==> !e.Build?
    ensures WellFormedRun(before + events)
    ensures DocsOf(SinceBuild(before + events)) == DocsRead(events)
  {
    if events == [] {
      assert before + events == before;
    } else {
      var init := events[..|events| - 1];
      ReadSinceBuild(before, init);
      assert (before + events)[..|before + events| - 1] == before + init;
    }
  }

  lemma {:induction false} RoundsEndBuilt(rounds: seq<Round>)
    requires forall i, e :: 0 <= i < |rounds| && e in rounds[i].events ==> !e.Build?
    ensures WellFormedRun(EventsOf(rounds)) && SinceBuild(EventsOf(rounds)) == []
  {
    if rounds != [] {
      RoundsEndBuilt(rounds[..|rounds| - 1]);
      ReadSinceBuild(EventsOf(rounds[..|rounds| - 1]), rounds[|rounds| - 1].events);
      var events := EventsOf(rounds);
      assert events[..|events| - 1] == EventsOf(rounds[..|rounds| - 1]) + rounds[|rounds| - 1].events;
    }
  }

  /** `doc` is a resource of `kind` named `name`. */
  predicate Names(unmarshal: Unmarshal, kind: Kind, doc: Doc, name: string) {
    KindOf(doc.kind) == Some(kind) && unmarshal(kind, doc.json).Some? && unmarshal(kind, doc.json).value.name == name
  }

  lemma DeclaredIffNamed(unmarshal: Unmarshal, kind: Kind, read: seq<ReadDoc>, name: string)
    ensures LastDeclared(DecodeRead(unmarshal, kind), read, name).Some? <==>
            exists i :: 0 <= i < |read| && Names(unmarshal, kind, read[i].doc, name)
  {
    LastDeclaredExists(DecodeRead(unmarshal, kind), read, name);
    assert forall r: ReadDoc :: Names(unmarshal, kind, r.doc, name) <==>
                                DecodeRead(unmarshal, kind)(r).Declared? && DecodeRead(unmarshal, kind)(r).key == name;
  }

  lemma NoBuildInside(unmarshal: Unmarshal, denotes: Denotation, bucket: string, rounds: seq<Round>)
    requires AllRoundsOk(unmarshal, denotes, bucket, rounds)
    ensures forall i, e :: 0 <= i < |rounds| && e in rounds[i].events ==> !e.Build?
  {
    forall i, e | 0 <= i < |rounds| && e in rounds[i].events
      ensures !e.Build?
    {
      assert RoundOk(unmarshal, denotes, bucket, rounds[..i + 1]);
    }
  }

  /** After every round of a run without errors, each of the five caches holds exactly the resources
      of its kind in the bucket's current state files if some ETag had changed, each as last read
      and with the endpoints of the overlay at that moment; after an unchanged round it is empty. */
  lemma CachesFollowBucket(unmarshal: Unmarshal, denotes: Denotation, bucket: string, rounds: seq<Round>, k: nat,
                           name: string)
    requires k < |KINDS| && rounds != [] && AllRoundsOk(unmarshal, denotes, bucket, rounds)
    ensures WellFormedRun(EventsOf(rounds))
    ensures WellFormedRun(BeforeLastBuild(rounds))
    ensures AreCurrentDocs(denotes, bucket, Listings(rounds), DocsOf(SinceBuild(BeforeLastBuild(rounds))))
    ensures var read := SinceBuild(BeforeLastBuild(rounds));
            var cache := Run(unmarshal, k, EventsOf(rounds)).group.cache;
            && Lookup(cache, name) == LastDeclared(DecodeRead(unmarshal, KINDS[k]), read, name)
            && (name in cache <==> exists i :: 0 <= i < |read| && Names(unmarshal, KINDS[k], read[i].doc, name))
            && HoldsLastRead(unmarshal, k, BeforeLastBuild(rounds), name, cache)
  {
    var before, last := EventsOf(rounds[..|rounds| - 1]), rounds[|rounds| - 1].events;
    NoBuildInside(unmarshal, denotes, bucket, rounds);
    RoundsEndBuilt(rounds[..|rounds| - 1]);
    ReadSinceBuild(before, last);
    LastRoundReadsBucket(unmarshal, denotes, bucket, rounds);
    var read := SinceBuild(before + last);
    CacheIsLastGeneration(unmarshal, k, before + last, ALL_SUCCEED, name);
    CacheHoldsLastRead(unmarshal, k, before + last, ALL_SUCCEED, name);
    DeclaredIffNamed(unmarshal, KINDS[k], read, name);
  }

  /** A round in which no ETag changed hands the managers nothing, and so empties every cache. */
  lemma UnchangedRoundEmptiesCaches(unmarshal: Unmarshal, denotes: Denotation, bucket: string, rounds: seq<Round>,
                                    k: nat)
    requires k < |KINDS| && rounds != [] && AllRoundsOk(unmarshal, denotes, bucket, rounds)
    requires !AnyDiffers(bucket, SourceCache(bucket, Listings(rounds)[..|rounds| - 1]), rounds[|rounds| - 1].pages)
    ensures WellFormedRun(EventsOf(rounds)) && Run(unmarshal, k, EventsOf(rounds)).group.cache == map[]
  {
    assert rounds[..|rounds|] == rounds;
    assert RoundOk(unmarshal, denotes, bucket, rounds);
    UnchangedIff(bucket, SourceCache(bucket, Listings(rounds)[..|rounds| - 1]), rounds[|rounds| - 1].pages);
    CachesFollowBucket(unmarshal, denotes, bucket, rounds, k, "");
    var cache := Run(unmarshal, k, EventsOf(rounds)).group.cache;
    forall name
      ensures name !in cache
    {
      CachesFollowBucket(unmarshal, denotes, bucket, rounds, k, name);
    }
  }
}
