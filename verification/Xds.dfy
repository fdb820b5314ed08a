/** pkg/state/xds.go with its map objects: the maps read into, the maps of names to delete, and the
    caches, five of each.  They are kept as five groups in the order Build goes through them. */
module Xds {
  import opened Terraform
  import opened XdsModel

  /** A map object of the original: shared by reference, changed in place. */
  class ResourceMap {
    var m: map<string, Res>

    constructor ()
      ensures m == map[]
    {
      m := map[];
    }
  }

  /** The library's cache, of which only UpdateResources is used; `fate` says how the call ends. */
  class LinearCache {
    var resources: map<string, Res>

    constructor ()
      ensures resources == map[]
    {
      resources := map[];
    }

    method UpdateResources(updates: map<string, Res>, deletes: seq<string>, fate: Fate) returns (ok: bool)
      modifies this
      ensures ok <==> fate.Succeeds?
      ensures resources == Apply(old(resources), updates, (set d | d in deletes), fate)
    {
      resources := Apply(resources, updates, (set d | d in deletes), fate);
      ok := fate.Succeeds?;
    }
  }

  /** Removes the names of `toUpdate` from `toDelete` in place, then sends the delta to the cache.
      The two maps must be different objects, whatever order they are iterated in. */
  method TransactXdsResource(cache: LinearCache, toUpdate: ResourceMap, toDelete: ResourceMap, fate: Fate)
    returns (ok: bool)
    requires toUpdate != toDelete
    modifies toDelete, cache
    ensures ok <==> fate.Succeeds?
    ensures toDelete.m == old(toDelete.m) - toUpdate.m.Keys
    ensures cache.resources == Apply(old(cache.resources), toUpdate.m, toDelete.m.Keys, fate)
  {
    var updates: map<string, Res> := map[];
    var pending := toUpdate.m.Keys;
    while pending != {}
      invariant pending <= toUpdate.m.Keys
      invariant toDelete.m == old(toDelete.m) - (toUpdate.m.Keys - pending)
      invariant updates.Keys == toUpdate.m.Keys - pending
      invariant forall k :: k in updates ==> updates[k] == toUpdate.m[k]
      invariant cache.resources == old(cache.resources)
      decreases pending
    {
      var name :| name in pending;
      toDelete.m := toDelete.m - {name};
      updates := updates[name := toUpdate.m[name]];
      pending := pending - {name};
    }
    assert updates == toUpdate.m;
    var deletes := CollectNames(toDelete);
    ok := cache.UpdateResources(updates, deletes, fate);
  }

  method CollectNames(toDelete: ResourceMap) returns (deletes: seq<string>)
    ensures (set d | d in deletes) == toDelete.m.Keys
  {
    deletes := [];
    var names := toDelete.m.Keys;
    while names != {}
      invariant names <= toDelete.m.Keys
      invariant forall d :: d in deletes <==> d in toDelete.m && d !in names
      decreases names
    {
      var name :| name in names;
      deletes := deletes + [name];
      names := names - {name};
    }
  }

  /** The fields that belong to one resource type: xsMap, xsToDelete and xCache. */
  class ResourceGroup {
    var current: ResourceMap
    var toDelete: ResourceMap
    const cache: LinearCache
    ghost var view: Group
    ghost var repr: set<object>

    /** The invariant across the hand-over: the two maps are never the same object. */
    ghost predicate Valid()
      reads this, repr
    {
      && repr == {this, current, toDelete, cache}
      && current != toDelete
      && view == Group(current.m, toDelete.m.Keys, cache.resources)
    }

    constructor ()
      ensures Valid() && fresh(repr) && view == EMPTY_GROUP
    {
      current := new ResourceMap();
      toDelete := new ResourceMap();
      cache := new LinearCache();
      new;
      repr := {this, current, toDelete, cache};
      view := EMPTY_GROUP;
    }

    method Put(name: string, res: Res)
      requires Valid()
      modifies repr
      ensures Valid() && repr == old(repr)
      ensures view == old(view).(current := old(view).current[name := res])
    {
      current.m := current.m[name := res];
      view := view.(current := current.m);
    }

    method DoTransact(fate: Fate) returns (ok: bool)
      requires Valid()
      modifies repr
      ensures Valid() && repr == old(repr)
      ensures ok <==> fate.Succeeds?
      ensures view == Transact(old(view), fate)
    {
      ok := TransactXdsResource(cache, current, toDelete, fate);
      view := Transact(view, fate);
    }

    /** The map read into becomes the map of names to delete, by reference; a new one replaces it. */
    method DoHandOver()
      requires Valid()
      modifies repr
      ensures Valid() && fresh(repr - old(repr))
      ensures view == HandOver(old(view))
    {
      toDelete := current;
      current := new ResourceMap();
      repr := {this, current, toDelete, cache};
      view := HandOver(view);
    }
  }

  /** The groups are sound and share no object. */
  ghost predicate Separate(groups: seq<ResourceGroup>, repr: set<object>)
    reads repr
  {
    && (forall k :: 0 <= k < |groups| ==> groups[k] in repr && groups[k].repr <= repr && groups[k].Valid())
    && (forall k, l :: 0 <= k < l < |groups| ==> groups[k].repr !! groups[l].repr)
  }

  method NewGroups(n: nat) returns (groups: seq<ResourceGroup>, ghost repr: set<object>)
    ensures |groups| == n && fresh(repr) && Separate(groups, repr)
    ensures forall k :: 0 <= k < n ==> groups[k].view == EMPTY_GROUP
  {
    groups, repr := [], {};
    for i := 0 to n
      invariant |groups| == i && fresh(repr) && Separate(groups, repr)
      invariant forall k :: 0 <= k < i ==> groups[k].view == EMPTY_GROUP
    {
      var g := new ResourceGroup();
      groups := groups + [g];
      repr := repr + g.repr;
    }
  }

  class XdsState {
    /** The groups of KINDS, in that order. */
    const groups: seq<ResourceGroup>
    var endpointsMap: Overlay
    /** How many updates were sent on updateCh. */
    var updates: nat
    const unmarshal: Unmarshal
    ghost var repr: set<object>

    ghost predicate Valid()
      reads this, repr
    {
      |groups| == |KINDS| && this !in repr && Separate(groups, repr)
    }

    constructor (unmarshal: Unmarshal)
      ensures this.unmarshal == unmarshal && Valid() && fresh(repr)
      ensures endpointsMap == map[] && updates == 0
      ensures forall k :: 0 <= k < |KINDS| ==> groups[k].view == EMPTY_GROUP
    {
      this.unmarshal := unmarshal;
      endpointsMap, updates := map[], 0;
      var created;
      ghost var objects;
      created, objects := NewGroups(|KINDS|);
      groups := created;
      repr := objects;
    }

    /** One instance of a resource: the group of its kind gains it under its name. */
    method ReadInstance(resourceType: string, json: string) returns (ok: bool)
      requires Valid()
      modifies repr
      ensures Valid() && repr == old(repr)
      ensures forall k :: 0 <= k < |KINDS| ==>
                            ReadsInto(Decode(unmarshal, KINDS[k], endpointsMap, Doc(resourceType, json)),
                                      old(groups[k].view), ok, groups[k].view)
    {
      ok := true;
      match KindOf(resourceType)
      case None =>
      case Some(kind) =>
        match unmarshal(kind, json)
        case None => ok := false;
        case Some(res) =>
          var i := IndexOf(kind);
          groups[i].Put(res.name, Overlaid(kind, endpointsMap, res));
    }

    /** Reading `docs` from the views `start` comes to the same as reading `rest` from here. */
    ghost predicate ReadSoFar(start: seq<Group>, docs: seq<Doc>, rest: seq<Doc>)
      requires |start| == |groups| == |KINDS|
      reads this, repr, groups
    {
      forall k :: 0 <= k < |KINDS| ==>
                    && groups[k].view == start[k].(current := groups[k].view.current)
                    && ReadAll(Decoder(unmarshal, KINDS[k], endpointsMap), start[k].current, docs) ==
                       ReadAll(Decoder(unmarshal, KINDS[k], endpointsMap), groups[k].view.current, rest)
    }

    /** Each group reads the documents of the state file in order: its current map, and the error
        return, are those of reading them into the map it had; nothing else changes. */
    method ReadFromTfstate(tfstate: Tfstate) returns (ok: bool)
      requires Valid()
      modifies repr
      ensures Valid() && repr == old(repr)
      ensures forall k :: 0 <= k < |KINDS| ==>
                            && groups[k].view == old(groups[k].view).(current := groups[k].view.current)
                            && Reading(ok, groups[k].view.current) ==
                               ReadAll(Decoder(unmarshal, KINDS[k], endpointsMap),
                                       old(groups[k].view.current), Docs(tfstate))
    {
      ghost var start := seq(|KINDS|, k requires 0 <= k < |KINDS| reads this, repr, groups => groups[k].view);
      for i := 0 to |tfstate|
        invariant Valid() && repr == old(repr)
        invariant ReadSoFar(start, Docs(tfstate), Docs(tfstate[i..]))
      {
        assert tfstate[i..][1..] == tfstate[i + 1..];
        ok := ReadResource(tfstate[i], start, Docs(tfstate), Docs(tfstate[i + 1..]));
        if !ok {
          return;
        }
      }
      ok := true;
    }

    /** The loop over the instances of a resource; `rest` is what the outer loop has yet to read. */
    method ReadResource(resource: Resource, ghost start: seq<Group>, ghost docs: seq<Doc>, ghost rest: seq<Doc>)
      returns (ok: bool)
      requires Valid() && |start| == |KINDS|
      requires ReadSoFar(start, docs, InstanceDocs(resource.kind, resource.instances) + rest)
      modifies repr
      ensures Valid() && repr == old(repr)
      ensures ok ==> ReadSoFar(start, docs, rest)
      ensures !ok ==> forall k :: 0 <= k < |KINDS| ==>
                                    && groups[k].view == start[k].(current := groups[k].view.current)
                                    && ReadAll(Decoder(unmarshal, KINDS[k], endpointsMap), start[k].current, docs) ==
                                       Reading(false, groups[k].view.current)
    {
      ghost var todo := InstanceDocs(resource.kind, resource.instances) + rest;
      for j := 0 to |resource.instances|
        invariant Valid() && repr == old(repr)
        invariant ReadSoFar(start, docs, todo[j..])
      {
        assert todo[j..][0] == Doc(resource.kind, resource.instances[j]) && todo[j..][1..] == todo[j + 1..];
        ok := ReadInstance(resource.kind, resource.instances[j]);
        if !ok {
          return;
        }
      }
      assert todo[|resource.instances|..] == rest;
      ok := true;
    }

    /** Goes through the five transactions and stops at the first that fails; only when all succeed
        are the maps handed over and one update sent. */
    method Build(fates: seq<Fate>) returns (ok: bool)
      requires Valid() && |fates| == |KINDS|
      modifies this, repr
      ensures Valid() && fresh(repr - old(repr)) && endpointsMap == old(endpointsMap)
      ensures ok <==> SucceedUpTo(fates, |fates|)
      ensures updates == old(updates) + if ok then 1 else 0
      ensures forall k :: 0 <= k < |KINDS| ==> groups[k].view == BuildGroup(old(groups[k].view), k, fates)
    {
      for i := 0 to |KINDS|
        invariant Valid() && repr == old(repr)
        invariant endpointsMap == old(endpointsMap) && updates == old(updates)
        invariant SucceedUpTo(fates, i)
        invariant forall k :: 0 <= k < |KINDS| ==>
                                groups[k].view ==
                                if k < i then Transact(old(groups[k].view), fates[k]) else old(groups[k].view)
      {
        var done := TransactOne(i, fates[i]);
        if !done {
          return false;
        }
      }
      HandOverAll();
      updates := updates + 1;
      return true;
    }

    method HandOverAll()
      requires Valid()
      modifies this`repr, repr
      ensures Valid() && fresh(repr - old(repr))
      ensures forall k :: 0 <= k < |KINDS| ==> groups[k].view == HandOver(old(groups[k].view))
    {
      for i := 0 to |KINDS|
        invariant Valid() && fresh(repr - old(repr))
        invariant forall k :: 0 <= k < |KINDS| ==>
                                groups[k].view == if k < i then HandOver(old(groups[k].view)) else old(groups[k].view)
      {
        HandOverOne(i);
      }
    }

    method HandOverOne(i: nat)
      requires Valid() && i < |KINDS|
      modifies this`repr, repr
      ensures Valid() && fresh(repr - old(repr))
      ensures groups[i].view == HandOver(old(groups[i].view))
      ensures forall k :: 0 <= k < |KINDS| && k != i ==> groups[k].view == old(groups[k].view)
    {
      assert forall k :: 0 <= k < |KINDS| && k != i ==> groups[k].repr !! groups[i].repr;
      groups[i].DoHandOver();
      repr := repr + groups[i].repr;
    }

    method TransactOne(i: nat, fate: Fate) returns (ok: bool)
      requires Valid() && i < |KINDS|
      modifies repr
      ensures Valid() && repr == old(repr)
      ensures ok <==> fate.Succeeds?
      ensures groups[i].view == Transact(old(groups[i].view), fate)
      ensures forall k :: 0 <= k < |KINDS| && k != i ==> groups[k].view == old(groups[k].view)
    {
      ok := groups[i].DoTransact(fate);
    }

    /** Installs assignments up to the first without endpoints, which deletes its entry and ends the call. */
    method SetClusterEndpoints(assignments: seq<Assignment>)
      modifies this`endpointsMap
      ensures endpointsMap == SetEndpoints(old(endpointsMap), assignments)
    {
      for i := 0 to |assignments|
        invariant SetEndpoints(old(endpointsMap), assignments) == SetEndpoints(endpointsMap, assignments[i..])
      {
        var assignment := assignments[i];
        assert assignments[i..][0] == assignment && assignments[i..][1..] == assignments[i + 1..];
        if assignment.endpoints == [] {
          endpointsMap := endpointsMap - {assignment.clusterName};
          return;
        }
        endpointsMap := endpointsMap[assignment.clusterName := assignment.endpoints];
      }
    }
  }

  /** The effect on a group of reading one document that means `d` to it. */
  predicate ReadsInto(d: Outcome<string, Res>, before: Group, ok: bool, after: Group) {
    && (ok <==> !d.Malformed?)
    && after == before.(current := if d.Declared? then before.current[d.key := d.value] else before.current)
  }

  function IndexOf(kind: Kind): (i: nat)
    ensures i < |KINDS| && KINDS[i] == kind
    ensures forall j :: 0 <= j < |KINDS| && KINDS[j] == kind ==> j == i
  {
    match kind
    case Cluster => 0
    case ClusterLoadAssignment => 1
    case Listener => 2
    case VirtualHost => 3
    case RouteConfiguration => 4
  }
}
