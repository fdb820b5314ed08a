/** The endpoint overlay: what SetClusterEndpoints makes of a list of assignments, and how flush and
    sync of pkg/providers/aws/service_discovery/xds.go use it. */
module ServiceDiscovery {
  import opened Wrappers
  import opened Terraform
  import opened XdsModel
  import opened Xds

  /** The assignments that take effect: those before the first without endpoints. */
  function BeforeFirstEmpty(assignments: seq<Assignment>): (p: seq<Assignment>)
    ensures p <= assignments
    ensures |p| < |assignments| ==> assignments[|p|].endpoints == []
    ensures forall i :: 0 <= i < |p| ==> p[i].endpoints != []
  {
    if assignments == [] || assignments[0].endpoints == [] then []
    else [assignments[0]] + BeforeFirstEmpty(assignments[1..])
  }

  function AsDeclared(a: Assignment): Outcome<string, seq<Endpoint>> {
    Declared(a.clusterName, a.endpoints)
  }

  function LastInstalled(assignments: seq<Assignment>, cluster: string): Option<seq<Endpoint>> {
    LastDeclared(AsDeclared, assignments, cluster)
  }

  /** The first assignment without endpoints loses its entry and hides everything after it; a
      cluster assigned before it has the endpoints last assigned; all others are as before. */
  lemma {:induction false} SetEndpointsMeaning(overlay: Overlay, assignments: seq<Assignment>, cluster: string)
    ensures var p := BeforeFirstEmpty(assignments);
            Lookup(SetEndpoints(overlay, assignments), cluster) ==
            if |p| < |assignments| && cluster == assignments[|p|].clusterName then None
            else if LastInstalled(p, cluster).Some? then LastInstalled(p, cluster)
            else Lookup(overlay, cluster)
    decreases assignments
  {
    if assignments != [] && assignments[0].endpoints != [] {
      var first, rest := assignments[0], assignments[1..];
      var p := BeforeFirstEmpty(assignments);
      assert p[1..] == BeforeFirstEmpty(rest);
      SetEndpointsMeaning(overlay[first.clusterName := first.endpoints], rest, cluster);
    }
  }

  function NonEmpty(assignments: seq<Assignment>): (r: seq<Assignment>)
    ensures forall i :: 0 <= i < |r| ==> r[i].endpoints != []
  {
    if assignments == [] then []
    else
      var last := assignments[|assignments| - 1];
      NonEmpty(assignments[..|assignments| - 1]) + if last.endpoints != [] then [last] else []
  }

  /** NonEmpty keeps the order and drops exactly the assignments without endpoints. */
  lemma {:induction false} NonEmptySplits(a: seq<Assignment>, x: Assignment, b: seq<Assignment>)
    ensures NonEmpty(a + [x] + b) == NonEmpty(a) + (if x.endpoints == [] then [] else [x]) + NonEmpty(b)
    decreases b
  {
    if b == [] {
      assert (a + [x] + b)[..|a|] == a;
    } else {
      var init := b[..|b| - 1];
      assert (a + [x] + b)[..|a + [x] + b| - 1] == a + [x] + init;
      NonEmptySplits(a, x, init);
    }
  }

  /** An assignment before the first empty one, with no later one for its cluster among those that take
      effect, is what the overlay holds; unless its cluster is that of the empty one. */
  lemma InstalledAt(overlay: Overlay, assignments: seq<Assignment>, i: nat)
    requires i < |assignments| && forall j :: 0 <= j <= i ==> assignments[j].endpoints != []
    requires forall j :: i < j < |assignments| && assignments[j].clusterName == assignments[i].clusterName ==>
                           exists l :: i < l < j && assignments[l].endpoints == []
    ensures Lookup(SetEndpoints(overlay, assignments), assignments[i].clusterName) == Some(assignments[i].endpoints)
  {
    var p := BeforeFirstEmpty(assignments);
    SetEndpointsMeaning(overlay, assignments, assignments[i].clusterName);
    assert i < |p|;
    assert forall j :: 0 <= j < |p| ==> p[j] == assignments[j];
    LastDeclaredIs(AsDeclared, p, assignments[i].clusterName, i);
  }

  lemma {:induction false} NothingEmpty(assignments: seq<Assignment>)
    requires forall i :: 0 <= i < |assignments| ==> assignments[i].endpoints != []
    ensures BeforeFirstEmpty(assignments) == assignments && NonEmpty(assignments) == assignments
    decreases assignments
  {
    if assignments != [] {
      NothingEmpty(assignments[1..]);
      NothingEmpty(assignments[..|assignments| - 1]);
    }
  }

  /** A second flush with no sync in between installs every surviving assignment, the last one of a
      cluster winning, and leaves the list as it is. */
  lemma SecondFlushInstallsAll(overlay: Overlay, assignments: seq<Assignment>, cluster: string)
    ensures var kept := NonEmpty(assignments);
            && NonEmpty(kept) == kept
            && Lookup(SetEndpoints(overlay, kept), cluster) ==
               if LastInstalled(kept, cluster).Some? then LastInstalled(kept, cluster) else Lookup(overlay, cluster)
  {
    NothingEmpty(NonEmpty(assignments));
    SetEndpointsMeaning(overlay, NonEmpty(assignments), cluster);
  }

  /** Further flushes change nothing. */
  lemma FurtherFlushesChangeNothing(overlay: Overlay, assignments: seq<Assignment>)
    ensures var kept := NonEmpty(assignments);
            SetEndpoints(SetEndpoints(overlay, kept), kept) == SetEndpoints(overlay, kept)
  {
    var kept := NonEmpty(assignments);
    var once := SetEndpoints(overlay, kept);
    forall cluster
      ensures Lookup(SetEndpoints(once, kept), cluster) == Lookup(once, cluster)
    {
      SecondFlushInstallsAll(overlay, assignments, cluster);
      SecondFlushInstallsAll(once, assignments, cluster);
    }
    SameLookups(SetEndpoints(once, kept), once);
  }

  lemma SameLookups<K(!new), V>(a: map<K, V>, b: map<K, V>)
    requires forall k :: Lookup(a, k) == Lookup(b, k)
    ensures a == b
  {
    forall k
      ensures k in a <==> k in b
    {
      assert Lookup(a, k) == Lookup(b, k);
    }
    forall k | k in a
      ensures a[k] == b[k]
    {
      assert Lookup(a, k) == Lookup(b, k);
    }
  }

  /** The flush right after a sync, which has emptied every assignment: only the first cluster loses
      its entry, the others keep theirs, and the whole list is dropped. */
  lemma FlushAfterSync(overlay: Overlay, assignments: seq<Assignment>)
    requires assignments != [] && forall i :: 0 <= i < |assignments| ==> assignments[i].endpoints == []
    ensures SetEndpoints(overlay, assignments) == overlay - {assignments[0].clusterName}
    ensures NonEmpty(assignments) == []
  {
    AllEmpty(assignments);
  }

  lemma {:induction false} AllEmpty(assignments: seq<Assignment>)
    requires forall i :: 0 <= i < |assignments| ==> assignments[i].endpoints == []
    ensures NonEmpty(assignments) == []
  {
    if assignments != [] {
      AllEmpty(assignments[..|assignments| - 1]);
    }
  }

  /** How a sync ends: an error before the reset, an error after it, or success. */
  datatype SyncOutcome = ListingFails | ReadingFails | Synced

  /** An assignment object, whose endpoints sync resets in place. */
  class LoadAssignment {
    const clusterName: string
    var endpoints: seq<Endpoint>

    constructor (clusterName: string, endpoints: seq<Endpoint>)
      ensures this.clusterName == clusterName && this.endpoints == endpoints
    {
      this.clusterName := clusterName;
      this.endpoints := endpoints;
    }
  }

  function Values(objects: seq<LoadAssignment>): (values: seq<Assignment>)
    reads objects
    ensures |values| == |objects|
    ensures forall i :: 0 <= i < |objects| ==> values[i] == Assignment(objects[i].clusterName, objects[i].endpoints)
  {
    if objects == [] then []
    else
      var last := objects[|objects| - 1];
      Values(objects[..|objects| - 1]) + [Assignment(last.clusterName, last.endpoints)]
  }

  class Discovery {
    var clusterLoadAssignments: seq<LoadAssignment>
    const xdsState: XdsState

    constructor (xdsState: XdsState)
      ensures this.xdsState == xdsState && clusterLoadAssignments == []
    {
      this.xdsState := xdsState;
      clusterLoadAssignments := [];
    }

    /** The start of sync: every assignment loses its endpoints, in place. */
    method ResetEndpoints()
      modifies clusterLoadAssignments
      ensures forall a :: a in clusterLoadAssignments ==> a.endpoints == []
    {
      for i := 0 to |clusterLoadAssignments|
        invariant forall j :: 0 <= j < i ==> clusterLoadAssignments[j].endpoints == []
      {
        clusterLoadAssignments[i].endpoints := [];
      }
    }

    method Flush()
      modifies this, xdsState`endpointsMap
      ensures xdsState.endpointsMap == SetEndpoints(old(xdsState.endpointsMap), old(Values(clusterLoadAssignments)))
      ensures Values(clusterLoadAssignments) == NonEmpty(old(Values(clusterLoadAssignments)))
    {
      xdsState.SetClusterEndpoints(Values(clusterLoadAssignments));
      clusterLoadAssignments := KeepNonEmpty(clusterLoadAssignments);
    }

    /** What sync does to the assignments: the reset, unless listing namespaces or services fails. */
    method Sync(outcome: SyncOutcome) returns (ok: bool)
      modifies clusterLoadAssignments
      ensures ok <==> outcome.Synced?
      ensures forall a :: a in clusterLoadAssignments ==>
                            a.endpoints == if outcome.ListingFails? then old(a.endpoints) else []
    {
      if outcome.ListingFails? {
        return false;
      }
      ResetEndpoints();
      ok := outcome.Synced?;
    }

    /** A run of the endless loop, one outcome of sync for each turn.  Whatever the services are, no
        endpoint is ever installed: the first flush drops the whole list, and with it the first cluster's
        entry; from the empty list that NewXds starts with, nothing ever changes. */
    method PeriodicSync(outcomes: seq<SyncOutcome>)
      modifies this, clusterLoadAssignments, xdsState`endpointsMap
      ensures var flushed := outcomes != [] && outcomes[0].Synced?;
              && clusterLoadAssignments == (if flushed then [] else old(clusterLoadAssignments))
              && xdsState.endpointsMap ==
                 if flushed && old(clusterLoadAssignments) != []
                 then old(xdsState.endpointsMap) - {old(clusterLoadAssignments)[0].clusterName}
                 else old(xdsState.endpointsMap)
    {
      for i := 0 to |outcomes|
        invariant i == 0 ==> unchanged(this, xdsState`endpointsMap)
        invariant i > 0 ==> outcomes[0].Synced? && clusterLoadAssignments == []
        invariant i > 0 ==> xdsState.endpointsMap ==
                            if old(clusterLoadAssignments) != []
                            then old(xdsState.endpointsMap) - {old(clusterLoadAssignments)[0].clusterName}
                            else old(xdsState.endpointsMap)
      {
        var ok := Sync(outcomes[i]);
        if !ok {
          return;
        }
        if clusterLoadAssignments != [] {
          FlushAfterSync(xdsState.endpointsMap, Values(clusterLoadAssignments));
        }
        Flush();
      }
    }
  }

  method KeepNonEmpty(objects: seq<LoadAssignment>) returns (kept: seq<LoadAssignment>)
    ensures Values(kept) == NonEmpty(Values(objects))
  {
    ghost var all := Values(objects);
    kept := [];
    for i := 0 to |objects|
      invariant Values(kept) == NonEmpty(all[..i])
    {
      assert all[..i + 1][..i] == all[..i];
      if objects[i].endpoints != [] {
        assert (kept + [objects[i]])[..|kept|] == kept;
        kept := kept + [objects[i]];
      }
    }
    assert all[..|all|] == all;
  }
}
