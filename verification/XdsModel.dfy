/** The xDS state of pkg/state/xds.go as values: what a read, an endpoint update and a Build do to
    one of its five resource groups, and what that amounts to over whole runs. */
module XdsModel {
  import opened Wrappers
  import opened Terraform

  datatype Kind = Cluster | ClusterLoadAssignment | Listener | VirtualHost | RouteConfiguration

  /** The order in which Build goes through the five groups. */
  const KINDS := [Cluster, ClusterLoadAssignment, Listener, VirtualHost, RouteConfiguration]

  type Endpoint = string

  /** A decoded resource; only load assignments have endpoints. */
  datatype Res = Res(name: string, body: string, endpoints: seq<Endpoint>)

  type Overlay = map<string, seq<Endpoint>>

  datatype Assignment = Assignment(clusterName: string, endpoints: seq<Endpoint>)

  /** Stands for the protojson decoders of the five resource types; None is a decoding error. */
  type Unmarshal = (Kind, string) -> Option<Res>

  function KindOf(resourceType: string): Option<Kind> {
    match resourceType
    case "cruiser_envoy_listener" => Some(Listener)
    case "cruiser_envoy_virtual_host" => Some(VirtualHost)
    case "cruiser_envoy_cluster" => Some(Cluster)
    case "cruiser_envoy_route_configuration" => Some(RouteConfiguration)
    case "cruiser_envoy_cluster_load_assignment" => Some(ClusterLoadAssignment)
    case _ => None
  }

  /** A load assignment takes the endpoints of the overlay, if it has any for that name. */
  function Overlaid(kind: Kind, overlay: Overlay, res: Res): Res {
    if kind == ClusterLoadAssignment && res.name in overlay then res.(endpoints := overlay[res.name]) else res
  }

  /** What a document, read while the overlay is `overlay`, means to the group of `kind`. */
  function Decode(unmarshal: Unmarshal, kind: Kind, overlay: Overlay, d: Doc): Outcome<string, Res> {
    match KindOf(d.kind)
    case None => Ignored
    case Some(k) =>
      match unmarshal(k, d.json)
      case None => Malformed
      case Some(res) => if k == kind then Declared(res.name, Overlaid(kind, overlay, res)) else Ignored
  }

  function Decoder(unmarshal: Unmarshal, kind: Kind, overlay: Overlay): Doc -> Outcome<string, Res> {
    (d: Doc) => Decode(unmarshal, kind, overlay, d)
  }

  /** SetClusterEndpoints: it returns at the first assignment without endpoints. */
  function SetEndpoints(overlay: Overlay, assignments: seq<Assignment>): Overlay
    decreases assignments
  {
    if assignments == [] then overlay
    else if assignments[0].endpoints == [] then overlay - {assignments[0].clusterName}
    else SetEndpoints(overlay[assignments[0].clusterName := assignments[0].endpoints], assignments[1..])
  }

  /** How an UpdateResources call ends.  A failing one may have applied any part of the change. */
  datatype Fate = Succeeds | Fails(updated: set<string>, deleted: set<string>)

  function Apply<V>(resources: map<string, V>, updates: map<string, V>, deletes: set<string>, fate: Fate)
    : map<string, V>
  {
    match fate
    case Succeeds => (resources + updates) - deletes
    case Fails(updated, deleted) =>
      (resources + map k | k in updates && k in updated :: updates[k]) - (deletes * deleted)
  }

  /** A group: the resources read since the last Build, the names to delete, and the cache. */
  datatype Group = Group(current: map<string, Res>, toDelete: set<string>, cache: map<string, Res>)

  const EMPTY_GROUP := Group(map[], {}, map[])

  /** transactXdsResource: names read again are no longer to be deleted, then the delta is applied. */
  function Transact(g: Group, fate: Fate): Group {
    var toDelete := g.toDelete - g.current.Keys;
    Group(g.current, toDelete, Apply(g.cache, g.current, toDelete, fate))
  }

  /** The hand-over at the end of a successful Build. */
  function HandOver(g: Group): Group {
    Group(map[], g.current.Keys, g.cache)
  }

  /** The first `n` transactions all succeed. */
  predicate SucceedUpTo(fates: seq<Fate>, n: nat)
    requires n <= |fates|
  {
    forall i :: 0 <= i < n ==> fates[i].Succeeds?
  }

  /** A Build as group `k` sees it: it goes through the groups in order and stops at the first
      failing transaction; only when all five succeed are the maps handed over. */
  function BuildGroup(g: Group, k: nat, fates: seq<Fate>): Group
    requires k < |fates|
  {
    if !SucceedUpTo(fates, k) then g
    else if SucceedUpTo(fates, |fates|) then HandOver(Transact(g, fates[k]))
    else Transact(g, fates[k])
  }

  /** Every name in the cache is known, as current or as to be deleted. */
  predicate Covered(g: Group) {
    g.cache.Keys <= g.current.Keys + g.toDelete
  }

  /** Covering is all that update-then-delete needs to replace the cache outright, and it is needed. */
  lemma TransactReplacesIff(g: Group)
    ensures Transact(g, Succeeds).cache == g.current <==> Covered(g)
  {
    var t := Transact(g, Succeeds);
    if Covered(g) {
      assert t.cache.Keys == g.current.Keys;
      assert t.cache == g.current;
    }
    forall k | t.cache == g.current && k in g.cache && k !in g.current
      ensures k in g.toDelete
    {
      assert k !in t.cache;
    }
  }

  datatype Event =
    | Read(doc: Doc)
    | SetClusterEndpoints(assignments: seq<Assignment>)
    | Build(fates: seq<Fate>)

  /** One group together with the overlay. */
  datatype State = State(group: Group, overlay: Overlay)

  function Step(unmarshal: Unmarshal, k: nat, s: State, e: Event): State
    requires k < |KINDS| && (e.Build? ==> |e.fates| == |KINDS|)
  {
    match e
    case Read(doc) =>
      var decoded := Decode(unmarshal, KINDS[k], s.overlay, doc);
      if decoded.Declared? then s.(group := s.group.(current := s.group.current[decoded.key := decoded.value])) else s
    case SetClusterEndpoints(assignments) => s.(overlay := SetEndpoints(s.overlay, assignments))
    case Build(fates) => s.(group := BuildGroup(s.group, k, fates))
  }

  predicate WellFormedRun(events: seq<Event>) {
    forall i :: 0 <= i < |events| && events[i].Build? ==> |events[i].fates| == |KINDS|
  }

  /** Group `k` and the overlay after a run. */
  function Run(unmarshal: Unmarshal, k: nat, events: seq<Event>): State
    requires k < |KINDS| && WellFormedRun(events)
  {
    if events == [] then State(EMPTY_GROUP, map[])
    else Step(unmarshal, k, Run(unmarshal, k, events[..|events| - 1]), events[|events| - 1])
  }

  /** Reads, endpoint updates and Builds, failed at any point and partly applied ones included, keep
      every cached name covered. */
  lemma StepKeepsCovered(unmarshal: Unmarshal, k: nat, s: State, e: Event)
    requires k < |KINDS| && (e.Build? ==> |e.fates| == |KINDS|) && Covered(s.group)
    ensures Covered(Step(unmarshal, k, s, e).group)
  {
    if e.Build? && SucceedUpTo(e.fates, |e.fates|) {
      TransactReplacesIff(s.group);
    }
  }

  lemma {:induction false} AlwaysCovered(unmarshal: Unmarshal, k: nat, events: seq<Event>)
    requires k < |KINDS| && WellFormedRun(events)
    ensures Covered(Run(unmarshal, k, events).group)
  {
    if events != [] {
      var before := events[..|events| - 1];
      AlwaysCovered(unmarshal, k, before);
      StepKeepsCovered(unmarshal, k, Run(unmarshal, k, before), events[|events| - 1]);
    }
  }

  /** At every reachable state, whatever failed before, a successful Build replaces the cache of
      every group by exactly the resources read. */
  lemma BuildReplacesCache(unmarshal: Unmarshal, k: nat, events: seq<Event>, fates: seq<Fate>)
    requires k < |KINDS| && WellFormedRun(events) && |fates| == |KINDS| && SucceedUpTo(fates, |fates|)
    ensures var g := Run(unmarshal, k, events).group;
            BuildGroup(g, k, fates) == Group(map[], g.current.Keys, g.current)
  {
    AlwaysCovered(unmarshal, k, events);
    TransactReplacesIff(Run(unmarshal, k, events).group);
  }

  function OverlayAfter(events: seq<Event>): Overlay {
    if events == [] then map[]
    else
      var before := OverlayAfter(events[..|events| - 1]);
      var last := events[|events| - 1];
      if last.SetClusterEndpoints? then SetEndpoints(before, last.assignments) else before
  }

  /** A document with the overlay at the moment it was read. */
  datatype ReadDoc = ReadDoc(doc: Doc, overlay: Overlay)

  function DecodeRead(unmarshal: Unmarshal, kind: Kind): ReadDoc -> Outcome<string, Res> {
    (r: ReadDoc) => Decode(unmarshal, kind, r.overlay, r.doc)
  }

  /** What was read since the last successful Build. */
  function SinceBuild(events: seq<Event>): seq<ReadDoc>
    requires WellFormedRun(events)
  {
    if events == [] then []
    else
      var before := events[..|events| - 1];
      match events[|events| - 1]
      case Read(doc) => SinceBuild(before) + [ReadDoc(doc, OverlayAfter(before))]
      case SetClusterEndpoints(_) => SinceBuild(before)
      case Build(fates) => if SucceedUpTo(fates, |fates|) then [] else SinceBuild(before)
  }

  lemma {:induction false} LastDeclaredAppend<D, K, V>(decode: D -> Outcome<K, V>, ds: seq<D>, d: D, k: K)
    ensures LastDeclared(decode, ds + [d], k) ==
            if decode(d).Declared? && decode(d).key == k then Some(decode(d).value) else LastDeclared(decode, ds, k)
  {
    if ds == [] {
      assert ds + [d] == [d] && [d][1..] == [];
    } else {
      assert (ds + [d])[1..] == ds[1..] + [d];
      LastDeclaredAppend(decode, ds[1..], d, k);
    }
  }

  /** The current map of a group holds, for every name, the resource last read under that name since
      the last successful Build, with the endpoints the overlay held at that moment. */
  lemma {:induction false} CurrentIsLastRead(unmarshal: Unmarshal, k: nat, events: seq<Event>, name: string)
    requires k < |KINDS| && WellFormedRun(events)
    ensures Run(unmarshal, k, events).overlay == OverlayAfter(events)
    ensures Lookup(Run(unmarshal, k, events).group.current, name) ==
            LastDeclared(DecodeRead(unmarshal, KINDS[k]), SinceBuild(events), name)
  {
    if events != [] {
      var before := events[..|events| - 1];
      CurrentIsLastRead(unmarshal, k, before, name);
      match events[|events| - 1]
      case Read(doc) =>
        var read := ReadDoc(doc, OverlayAfter(before));
        LastDeclaredAppend(DecodeRead(unmarshal, KINDS[k]), SinceBuild(before), read, name);
      case SetClusterEndpoints(_) =>
      case Build(fates) =>
    }
  }

  /** Over any run that ends in a successful Build, the cache of every group holds exactly the
      resources read since the successful Build before it, each as last read. */
  lemma CacheIsLastGeneration(unmarshal: Unmarshal, k: nat, events: seq<Event>, fates: seq<Fate>, name: string)
    requires k < |KINDS| && WellFormedRun(events) && |fates| == |KINDS| && SucceedUpTo(fates, |fates|)
    ensures WellFormedRun(events + [Build(fates)])
    ensures Lookup(Run(unmarshal, k, events + [Build(fates)]).group.cache, name) ==
            LastDeclared(DecodeRead(unmarshal, KINDS[k]), SinceBuild(events), name)
  {
    assert (events + [Build(fates)])[..|events|] == events;
    BuildReplacesCache(unmarshal, k, events, fates);
    CurrentIsLastRead(unmarshal, k, events, name);
  }

  /** The resource types of the state files. */
  predicate IsTypeOf(kind: Kind, resourceType: string) {
    match kind
    case Cluster => resourceType == "cruiser_envoy_cluster"
    case ClusterLoadAssignment => resourceType == "cruiser_envoy_cluster_load_assignment"
    case Listener => resourceType == "cruiser_envoy_listener"
    case VirtualHost => resourceType == "cruiser_envoy_virtual_host"
    case RouteConfiguration => resourceType == "cruiser_envoy_route_configuration"
  }

  lemma KindIffType(kind: Kind, resourceType: string)
    ensures KindOf(resourceType) == Some(kind) <==> IsTypeOf(kind, resourceType)
  {
  }

  /** What a document means to a group: its resource as decoded, but for a load assignment with an entry
      in the overlay, which has that entry's endpoints; an error if it is of any of the five types and
      cannot be decoded; nothing otherwise. */
  lemma DecodeMeaning(unmarshal: Unmarshal, kind: Kind, overlay: Overlay, d: Doc, other: Kind)
    ensures IsTypeOf(kind, d.kind) && unmarshal(kind, d.json).Some? ==>
              var res := unmarshal(kind, d.json).value;
              Decode(unmarshal, kind, overlay, d) ==
              Declared(res.name, if kind == ClusterLoadAssignment && res.name in overlay
                                 then res.(endpoints := overlay[res.name]) else res)
    ensures IsTypeOf(other, d.kind) && unmarshal(other, d.json).None? ==>
              Decode(unmarshal, kind, overlay, d) == Malformed
    ensures IsTypeOf(other, d.kind) && unmarshal(other, d.json).Some? && other != kind ==>
              Decode(unmarshal, kind, overlay, d) == Ignored
    ensures (forall k :: !IsTypeOf(k, d.kind)) ==> Decode(unmarshal, kind, overlay, d) == Ignored
  {
    KindIffType(kind, d.kind);
    KindIffType(other, d.kind);
    if KindOf(d.kind).Some? {
      KindIffType(KindOf(d.kind).value, d.kind);
    }
  }

  /** The event reads a resource of group `k` named `name`. */
  predicate ReadsNamed(unmarshal: Unmarshal, k: nat, e: Event, name: string)
    requires k < |KINDS|
  {
    && e.Read? && IsTypeOf(KINDS[k], e.doc.kind)
    && unmarshal(KINDS[k], e.doc.json).Some? && unmarshal(KINDS[k], e.doc.json).value.name == name
  }

  predicate BuildsAll(e: Event) {
    e.Build? && forall i :: 0 <= i < |e.fates| ==> e.fates[i].Succeeds?
  }

  /** Event `n` is the last to read `name` in group `k`, and no Build has succeeded since. */
  predicate LastRead(unmarshal: Unmarshal, k: nat, events: seq<Event>, name: string, n: int)
    requires k < |KINDS|
  {
    && 0 <= n < |events| && ReadsNamed(unmarshal, k, events[n], name)
    && forall j :: n < j < |events| ==> !BuildsAll(events[j]) && !ReadsNamed(unmarshal, k, events[j], name)
  }

  /** `m` holds `name` exactly if it was read since the last successful Build, and then as it was decoded
      when last read; a load assignment with the endpoints the overlay had for it at that moment, if any. */
  ghost predicate HoldsLastRead(unmarshal: Unmarshal, k: nat, events: seq<Event>, name: string, m: map<string, Res>)
    requires k < |KINDS|
  {
    && (name in m <==> exists n :: LastRead(unmarshal, k, events, name, n))
    && forall n :: LastRead(unmarshal, k, events, name, n) ==>
                     var res, overlay := unmarshal(KINDS[k], events[n].doc.json).value, OverlayAfter(events[..n]);
                     && name in m
                     && m[name] == if KINDS[k] == ClusterLoadAssignment && name in overlay
                                   then res.(endpoints := overlay[name]) else res
  }

  lemma LastReadBefore(unmarshal: Unmarshal, k: nat, events: seq<Event>, name: string, n: int)
    requires k < |KINDS| && events != [] && n < |events| - 1
    requires !BuildsAll(events[|events| - 1]) && !ReadsNamed(unmarshal, k, events[|events| - 1], name)
    ensures LastRead(unmarshal, k, events, name, n) <==> LastRead(unmarshal, k, events[..|events| - 1], name, n)
  {
  }

  /** The event that ends a run neither reads `name` nor is a successful Build. */
  lemma HoldsStill(unmarshal: Unmarshal, k: nat, events: seq<Event>, name: string, m: map<string, Res>)
    requires k < |KINDS| && events != [] && HoldsLastRead(unmarshal, k, events[..|events| - 1], name, m)
    requires !BuildsAll(events[|events| - 1]) && !ReadsNamed(unmarshal, k, events[|events| - 1], name)
    ensures HoldsLastRead(unmarshal, k, events, name, m)
  {
    var before := events[..|events| - 1];
    forall n | n < |before|
      ensures LastRead(unmarshal, k, events, name, n) <==> LastRead(unmarshal, k, before, name, n)
      ensures 0 <= n ==> events[..n] == before[..n]
    {
      LastReadBefore(unmarshal, k, events, name, n);
    }
  }

  /** Over any run, the current map of every group holds every name as last read. */
  lemma {:induction false} CurrentHoldsLastRead(unmarshal: Unmarshal, k: nat, events: seq<Event>, name: string)
    requires k < |KINDS| && WellFormedRun(events)
    ensures HoldsLastRead(unmarshal, k, events, name, Run(unmarshal, k, events).group.current)
  {
    if events != [] {
      var before, last := events[..|events| - 1], events[|events| - 1];
      CurrentHoldsLastRead(unmarshal, k, before, name);
      if ReadsNamed(unmarshal, k, last, name) {
        CurrentIsLastRead(unmarshal, k, before, name);
        DecodeMeaning(unmarshal, KINDS[k], OverlayAfter(before), last.doc, KINDS[k]);
        assert LastRead(unmarshal, k, events, name, |events| - 1);
      } else if !BuildsAll(last) {
        OtherEventsKeep(unmarshal, k, Run(unmarshal, k, before), last, name);
        HoldsStill(unmarshal, k, events, name, Run(unmarshal, k, before).group.current);
        SameLookup(unmarshal, k, events, name, Run(unmarshal, k, before).group.current,
                   Run(unmarshal, k, events).group.current);
      }
    }
  }

  lemma OtherEventsKeep(unmarshal: Unmarshal, k: nat, s: State, e: Event, name: string)
    requires k < |KINDS| && (e.Build? ==> |e.fates| == |KINDS|)
    requires !BuildsAll(e) && !ReadsNamed(unmarshal, k, e, name)
    ensures Lookup(Step(unmarshal, k, s, e).group.current, name) == Lookup(s.group.current, name)
  {
    if e.Read? {
      KindIffType(KINDS[k], e.doc.kind);
    }
  }

  lemma SameLookup(unmarshal: Unmarshal, k: nat, events: seq<Event>, name: string,
                   a: map<string, Res>, b: map<string, Res>)
    requires k < |KINDS| && HoldsLastRead(unmarshal, k, events, name, a) && Lookup(a, name) == Lookup(b, name)
    ensures HoldsLastRead(unmarshal, k, events, name, b)
  {
  }

  /** Over any run that ends in a successful Build, the cache of every group holds every resource of its
      type that was read since the successful Build before, as last read, and nothing else. */
  lemma CacheHoldsLastRead(unmarshal: Unmarshal, k: nat, events: seq<Event>, fates: seq<Fate>, name: string)
    requires k < |KINDS| && WellFormedRun(events) && |fates| == |KINDS| && SucceedUpTo(fates, |fates|)
    ensures WellFormedRun(events + [Build(fates)])
    ensures HoldsLastRead(unmarshal, k, events, name, Run(unmarshal, k, events + [Build(fates)]).group.cache)
  {
    assert (events + [Build(fates)])[..|events|] == events;
    BuildReplacesCache(unmarshal, k, events, fates);
    CurrentHoldsLastRead(unmarshal, k, events, name);
  }

  /** A Build that fails at transaction `j`: the groups before it have their caches replaced, those after
      it are untouched, and in every group what was read is still there for the next attempt. */
  lemma FailedBuild(g: Group, k: nat, fates: seq<Fate>, j: nat)
    requires k < |fates| && j < |fates| && fates[j].Fails? && forall i :: 0 <= i < j ==> fates[i].Succeeds?
    requires Covered(g)
    ensures BuildGroup(g, k, fates).current == g.current
    ensures k < j ==> BuildGroup(g, k, fates).cache == g.current
    ensures k > j ==> BuildGroup(g, k, fates) == g
    ensures k == j ==> forall name ::
                         Lookup(BuildGroup(g, k, fates).cache, name) in
                         {Lookup(g.cache, name), Lookup(g.current, name)}
  {
    TransactReplacesIff(g);
    if k < j {
      assert SucceedUpTo(fates, k) && fates[k].Succeeds?;
    }
  }

  /** What a failing UpdateResources can leave: for every name, independently of the others, the old state
      or the new one. */
  lemma PartialOutcomes<V(!new)>(resources: map<string, V>, updates: map<string, V>, deletes: set<string>,
                                 after: map<string, V>)
    requires updates.Keys !! deletes
    ensures (exists fate: Fate :: fate.Fails? && Apply(resources, updates, deletes, fate) == after) <==>
            forall name :: || Lookup(after, name) == Lookup(resources, name)
                           || (name in updates && Lookup(after, name) == Some(updates[name]))
                           || (name in deletes && name !in after)
  {
    if forall name :: || Lookup(after, name) == Lookup(resources, name)
                      || (name in updates && Lookup(after, name) == Some(updates[name]))
                      || (name in deletes && name !in after) {
      var updated := set k | k in updates && Lookup(after, k) == Some(updates[k]);
      var deleted := deletes - after.Keys;
      var result := Apply(resources, updates, deletes, Fails(updated, deleted));
      forall name
        ensures Lookup(result, name) == Lookup(after, name)
      {
      }
      assert result == after;
    }
  }

  /** `r` was read as the load assignment `name`. */
  predicate ReadsAssignment(unmarshal: Unmarshal, r: ReadDoc, name: string) {
    && KindOf(r.doc.kind) == Some(ClusterLoadAssignment)
    && unmarshal(ClusterLoadAssignment, r.doc.json).Some?
    && unmarshal(ClusterLoadAssignment, r.doc.json).value.name == name
  }

  /** The endpoints of a cached load assignment are those the overlay held for its name when it was
      last read, whatever SetClusterEndpoints did since; without an entry, those of the state file. */
  lemma CachedEndpoints(unmarshal: Unmarshal, events: seq<Event>, fates: seq<Fate>, name: string, i: nat)
    requires WellFormedRun(events) && |fates| == |KINDS| && SucceedUpTo(fates, |fates|)
    requires i < |SinceBuild(events)| && ReadsAssignment(unmarshal, SinceBuild(events)[i], name)
    requires forall j :: i < j < |SinceBuild(events)| ==> !ReadsAssignment(unmarshal, SinceBuild(events)[j], name)
    ensures WellFormedRun(events + [Build(fates)])
    ensures var cache := Run(unmarshal, 1, events + [Build(fates)]).group.cache;
            var read := SinceBuild(events)[i];
            && name in cache
            && cache[name].endpoints == if name in read.overlay then read.overlay[name]
                                        else unmarshal(ClusterLoadAssignment, read.doc.json).value.endpoints
  {
    CacheIsLastGeneration(unmarshal, 1, events, fates, name);
    LastDeclaredIs(DecodeRead(unmarshal, ClusterLoadAssignment), SinceBuild(events), name, i);
  }
}
