/** pkg/providers/aws/s3/tfstate_source.go: state files are downloaded again only when their ETag
    has changed. */
module TfstateSource {
  import opened Wrappers
  import opened Terraform

  type ETag = string

  /** What the store answers about one listed object: the head request, then the download. */
  datatype Head = HeadFails | Head(etag: ETag, download: Download)

  datatype Download = DownloadFails | NotJson | Body(tfstate: Tfstate)

  /** One page of the listing: an error, or the name it yields and what the store answers for it. */
  datatype Page = PageFails | Page(name: string, head: Head)

  /** A cache entry: the state file, nil before the first download, and the ETag it was read at. */
  datatype Entry = Entry(tfstate: Option<Tfstate>, etag: ETag)

  const NEW_ENTRY := Entry(None, "")

  const SUFFIX := ".tfstate"

  predicate HasSuffix(name: string) {
    |name| >= |SUFFIX| && name[|name| - |SUFFIX|..] == SUFFIX
  }

  function FullName(bucket: string, name: string): string {
    bucket + "/" + name
  }

  predicate IsListed(p: Page) {
    p.Page? && HasSuffix(p.name)
  }

  /** The variables of the loop: the cache, the result so far, the names met, and the two flags. */
  datatype Scan = Scan(ok: bool, cache: map<string, Entry>, tfstates: seq<Option<Tfstate>>,
                       existing: set<string>, needUpdate: bool)

  function EntryOf(cache: map<string, Entry>, name: string): Entry {
    if name in cache then cache[name] else NEW_ENTRY
  }

  /** What a listed object's entry becomes; None when the store fails. */
  function Refreshed(e: Entry, h: Head): Option<Entry> {
    match h
    case HeadFails => None
    case Head(etag, download) =>
      if e.etag == etag then Some(e)
      else if download.Body? then Some(Entry(Some(download.tfstate), etag)) else None
  }

  function ScanPage(bucket: string, s: Scan, p: Page): Scan {
    if !s.ok then s
    else if p.PageFails? then s.(ok := false)
    else if !HasSuffix(p.name) then s
    else
      var name := FullName(bucket, p.name);
      var old' := EntryOf(s.cache, name);
      match Refreshed(old', p.head)
      case None => s.(ok := false)
      case Some(e) =>
        Scan(true, s.cache[name := e], s.tfstates + [e.tfstate], s.existing + {name},
             s.needUpdate || e.etag != old'.etag)
  }

  function ScanPages(bucket: string, cache: map<string, Entry>, pages: seq<Page>): Scan {
    if pages == [] then Scan(true, cache, [], {}, false)
    else ScanPage(bucket, ScanPages(bucket, cache, pages[..|pages| - 1]), pages[|pages| - 1])
  }

  datatype Result = Failed | Unchanged | Changed(tfstates: seq<Option<Tfstate>>)

  function ResultOf(s: Scan): Result {
    if !s.ok then Failed else if !s.needUpdate then Unchanged else Changed(s.tfstates)
  }

  /** The cache after the call: the sweep deletes what was not listed, but only on a change. */
  function CacheAfter(s: Scan): map<string, Entry> {
    if s.ok && s.needUpdate then map k | k in s.cache && k in s.existing :: s.cache[k] else s.cache
  }

  class TfstateObject {
    var tfstate: Option<Tfstate>
    var etag: ETag
    /** The name under which the object is stored. */
    ghost const name: string

    constructor (ghost name: string)
      ensures tfstate == None && etag == "" && this.name == name
    {
      tfstate := None;
      etag := "";
      this.name := name;
    }
  }

  class TfstateSource {
    const bucket: string
    var tfstateObjects: map<string, TfstateObject>
    ghost var cache: map<string, Entry>
    ghost var repr: set<TfstateObject>

    /** Every name has an entry object of its own. */
    ghost predicate Valid()
      reads this, repr
    {
      && cache.Keys == tfstateObjects.Keys
      && (forall k :: k in tfstateObjects ==> tfstateObjects[k] in repr && EntryOk(k, tfstateObjects[k]))
    }

    ghost predicate EntryOk(k: string, o: TfstateObject)
      reads this, o
      requires k in cache
    {
      o.name == k && cache[k] == Entry(o.tfstate, o.etag)
    }

    constructor (bucket: string)
      ensures this.bucket == bucket && Valid() && cache == map[] && repr == {}
    {
      this.bucket := bucket;
      tfstateObjects := map[];
      cache := map[];
      repr := {};
    }

    method GetTfstate(pages: seq<Page>) returns (result: Result)
      requires Valid()
      modifies this, repr
      ensures Valid() && fresh(repr - old(repr))
      ensures result == ResultOf(ScanPages(bucket, old(cache), pages))
      ensures cache == CacheAfter(ScanPages(bucket, old(cache), pages))
    {
      var tfstates: seq<Option<Tfstate>> := [];
      var existingObjects: set<string> := {};
      var needUpdate := false;
      for i := 0 to |pages|
        invariant Valid() && fresh(repr - old(repr))
        invariant ScanPages(bucket, old(cache), pages[..i]) == Scan(true, cache, tfstates, existingObjects, needUpdate)
      {
        assert pages[..i + 1][..i] == pages[..i];
        var page := pages[i];
        if page.PageFails? {
          ScanStops(bucket, old(cache), pages, i + 1);
          return Failed;
        }
        if !HasSuffix(page.name) {
          continue;
        }
        var name := FullName(bucket, page.name);
        var ok, tfstate, changed := Refresh(name, page.head);
        if !ok {
          ScanStops(bucket, old(cache), pages, i + 1);
          return Failed;
        }
        tfstates := tfstates + [tfstate];
        existingObjects := existingObjects + {name};
        needUpdate := needUpdate || changed;
      }
      assert pages[..|pages|] == pages;
      if !needUpdate {
        return Unchanged;
      }
      Sweep(existingObjects);
      return Changed(tfstates);
    }

    /** The body of the loop for a listed object, up to storing the entry. */
    method Refresh(name: string, head: Head) returns (ok: bool, tfstate: Option<Tfstate>, changed: bool)
      requires Valid()
      modifies this, repr
      ensures Valid() && fresh(repr - old(repr))
      ensures ok <==> Refreshed(EntryOf(old(cache), name), head).Some?
      ensures !ok ==> cache == old(cache)
      ensures ok ==> var e := Refreshed(EntryOf(old(cache), name), head).value;
                     && cache == old(cache)[name := e] && tfstate == e.tfstate
                     && (changed <==> e.etag != EntryOf(old(cache), name).etag)
    {
      ok, tfstate, changed := false, None, false;
      if head.HeadFails? {
        return;
      }
      var entry: TfstateObject;
      if name in tfstateObjects {
        entry := tfstateObjects[name];
      } else {
        entry := new TfstateObject(name);
      }
      if entry.etag != head.etag {
        if !head.download.Body? {
          return;
        }
        changed := true;
      }
      Store(name, entry, if changed then Some(head.download.tfstate) else entry.tfstate, head.etag);
      ok, tfstate := true, entry.tfstate;
    }

    /** The writes to an entry and to the map. */
    method Store(name: string, entry: TfstateObject, tfstate: Option<Tfstate>, etag: ETag)
      requires Valid()
      requires entry.name == name
      requires if name in tfstateObjects then tfstateObjects[name] == entry else entry !in repr
      modifies this, entry
      ensures Valid() && repr == old(repr) + {entry}
      ensures cache == old(cache)[name := Entry(tfstate, etag)] && entry.tfstate == tfstate
    {
      entry.tfstate := tfstate;
      entry.etag := etag;
      tfstateObjects := tfstateObjects[name := entry];
      repr := repr + {entry};
      cache := cache[name := Entry(tfstate, etag)];
    }

    /** The two loops at the end: collect the names not met, delete them. */
    method Sweep(existing: set<string>)
      requires Valid()
      modifies this`tfstateObjects, this`cache
      ensures Valid()
      ensures cache == map k | k in old(cache) && k in existing :: old(cache)[k]
    {
      var toDelete := CollectStale(existing);
      for i := 0 to |toDelete|
        invariant Valid()
        invariant forall k :: k in cache <==> k in old(cache) && k !in toDelete[..i]
        invariant forall k :: k in cache ==> cache[k] == old(cache)[k]
      {
        Delete(toDelete[i]);
      }
      assert toDelete[..|toDelete|] == toDelete;
    }

    method Delete(name: string)
      requires Valid()
      modifies this`tfstateObjects, this`cache
      ensures Valid() && cache == old(cache) - {name}
    {
      tfstateObjects := tfstateObjects - {name};
      cache := cache - {name};
    }

    method CollectStale(existing: set<string>) returns (toDelete: seq<string>)
      requires Valid()
      ensures forall k :: k in toDelete <==> k in cache && k !in existing
    {
      toDelete := [];
      var pending := tfstateObjects.Keys;
      while pending != {}
        invariant pending <= tfstateObjects.Keys
        invariant forall k :: k in toDelete <==> k in tfstateObjects && k !in pending && k !in existing
        decreases pending
      {
        var name :| name in pending;
        pending := pending - {name};
        if name !in existing {
          toDelete := toDelete + [name];
        }
      }
    }
  }

  /** A failed scan ignores the remaining pages. */
  lemma {:induction false} ScanStops(bucket: string, cache: map<string, Entry>, pages: seq<Page>, n: nat)
    requires n <= |pages| && !ScanPages(bucket, cache, pages[..n]).ok
    ensures ScanPages(bucket, cache, pages) == ScanPages(bucket, cache, pages[..n])
  {
    if n == |pages| {
      assert pages[..n] == pages;
    } else {
      assert pages[..|pages| - 1][..n] == pages[..n];
      ScanStops(bucket, cache, pages[..|pages| - 1], n);
    }
  }
}
