/** Why not downloading is as good as downloading: the cache of pkg/providers/aws/s3/tfstate_source.go
    agrees with the store, provided a name and an ETag determine a content. */
module EtagCache {
  import opened Wrappers
  import opened Terraform
  import opened TfstateSource

  /** The content that an object's full name and ETag stand for. */
  type Denotation = (string, ETag) -> Tfstate

  /** Each entry read at a non-empty ETag holds what that ETag denotes. */
  ghost predicate Coherent(denotes: Denotation, cache: map<string, Entry>) {
    forall k :: k in cache && cache[k].etag != "" ==> cache[k].tfstate == Some(denotes(k, cache[k].etag))
  }

  /** What is downloaded under a non-empty ETag is what that ETag denotes. */
  predicate Consistent(denotes: Denotation, bucket: string, p: Page) {
    IsListed(p) && p.head.Head? && p.head.etag != "" && p.head.download.Body? ==>
      p.head.download.tfstate == denotes(FullName(bucket, p.name), p.head.etag)
  }

  predicate AllConsistent(denotes: Denotation, bucket: string, pages: seq<Page>) {
    forall i :: 0 <= i < |pages| ==> Consistent(denotes, bucket, pages[i])
  }

  lemma {:induction false} ScanKeepsCoherent(denotes: Denotation, bucket: string, cache: map<string, Entry>,
                                             pages: seq<Page>)
    requires Coherent(denotes, cache) && AllConsistent(denotes, bucket, pages)
    ensures Coherent(denotes, ScanPages(bucket, cache, pages).cache)
  {
    if pages != [] {
      ScanKeepsCoherent(denotes, bucket, cache, pages[..|pages| - 1]);
      assert Consistent(denotes, bucket, pages[|pages| - 1]);
    }
  }

  /** At every exit of GetTfstate, error exits included, the cache agrees with the store. */
  lemma CacheStaysCoherent(denotes: Denotation, bucket: string, cache: map<string, Entry>, pages: seq<Page>)
    requires Coherent(denotes, cache) && AllConsistent(denotes, bucket, pages)
    ensures Coherent(denotes, CacheAfter(ScanPages(bucket, cache, pages)))
  {
    ScanKeepsCoherent(denotes, bucket, cache, pages);
  }

  function ETagOf(p: Page): ETag {
    if p.Page? && p.head.Head? then p.head.etag else ""
  }

  predicate Tagged(p: Page) {
    IsListed(p) ==> ETagOf(p) != ""
  }

  predicate AllTagged(pages: seq<Page>) {
    forall i :: 0 <= i < |pages| ==> Tagged(pages[i])
  }

  /** The pages that list a state file, in listing order. */
  function Listed(pages: seq<Page>): (listed: seq<Page>)
    ensures forall p :: p in listed <==> p in pages && IsListed(p)
  {
    if pages == [] then []
    else Listed(pages[..|pages| - 1]) + if IsListed(pages[|pages| - 1]) then [pages[|pages| - 1]] else []
  }

  /** Listing one page after the other keeps the order. */
  lemma {:induction false} ListedSplits(a: seq<Page>, p: Page, b: seq<Page>)
    ensures Listed(a + [p] + b) == Listed(a) + (if IsListed(p) then [p] else []) + Listed(b)
    decreases b
  {
    if b == [] {
      assert (a + [p] + b)[..|a|] == a;
    } else {
      var init := b[..|b| - 1];
      assert (a + [p] + b)[..|a + [p] + b| - 1] == a + [p] + init;
      ListedSplits(a, p, init);
    }
  }

  /** A page lists a state file exactly if its name ends in the suffix. */
  lemma ListedMeaning(name: string, head: Head)
    ensures IsListed(Page(name, head)) <==> exists stem :: name == stem + ".tfstate"
  {
    if IsListed(Page(name, head)) {
      assert name == name[..|name| - 8] + ".tfstate";
    }
    if stem :| name == stem + ".tfstate" {
      assert name[|name| - 8..] == ".tfstate";
    }
  }

  /** Objects of one bucket have different full names. */
  lemma FullNameIsInjective(bucket: string, a: string, b: string)
    requires FullName(bucket, a) == FullName(bucket, b)
    ensures a == b
  {
    var n := |bucket| + 1;
    assert FullName(bucket, a)[n..] == a && FullName(bucket, b)[n..] == b;
  }

  /** Downloading every listed state file afresh, in listing order. */
  function FreshDownload(denotes: Denotation, bucket: string, pages: seq<Page>): (tfstates: seq<Tfstate>)
    ensures |tfstates| == |Listed(pages)|
  {
    var listed := Listed(pages);
    seq(|listed|, i requires 0 <= i < |listed| =>
          assert listed[i] in listed; denotes(FullName(bucket, listed[i].name), ETagOf(listed[i])))
  }

  function Somes<T>(s: seq<T>): (r: seq<Option<T>>)
    ensures |r| == |s|
    ensures forall i :: 0 <= i < |s| ==> r[i] == Some(s[i])
  {
    seq(|s|, i requires 0 <= i < |s| => Some(s[i]))
  }

  /** A scan that ran to the end has collected one result for each listed state file, in order; it is
      what a fresh download would give, for every object that has an ETag. */
  lemma {:induction false} ScanIsFresh(denotes: Denotation, bucket: string, cache: map<string, Entry>,
                                       pages: seq<Page>, i: nat)
    requires Coherent(denotes, cache) && AllConsistent(denotes, bucket, pages)
    requires ScanPages(bucket, cache, pages).ok && i < |Listed(pages)|
    ensures |ScanPages(bucket, cache, pages).tfstates| == |Listed(pages)|
    ensures Tagged(Listed(pages)[i]) ==>
              ScanPages(bucket, cache, pages).tfstates[i] == Some(FreshDownload(denotes, bucket, pages)[i])
  {
    var before, last := pages[..|pages| - 1], pages[|pages| - 1];
    CollectsListed(bucket, cache, before);
    if i < |Listed(before)| {
      ScanIsFresh(denotes, bucket, cache, before, i);
    } else {
      ScanKeepsCoherent(denotes, bucket, cache, before);
      assert Consistent(denotes, bucket, last);
    }
  }

  lemma {:induction false} CollectsListed(bucket: string, cache: map<string, Entry>, pages: seq<Page>)
    requires ScanPages(bucket, cache, pages).ok
    ensures |ScanPages(bucket, cache, pages).tfstates| == |Listed(pages)|
  {
    if pages != [] {
      CollectsListed(bucket, cache, pages[..|pages| - 1]);
    }
  }

  lemma ScanIsFreshDownload(denotes: Denotation, bucket: string, cache: map<string, Entry>, pages: seq<Page>)
    requires Coherent(denotes, cache) && AllConsistent(denotes, bucket, pages)
    requires AllTagged(pages)
    requires ScanPages(bucket, cache, pages).ok
    ensures ScanPages(bucket, cache, pages).tfstates == Somes(FreshDownload(denotes, bucket, pages))
  {
    CollectsListed(bucket, cache, pages);
    forall i | 0 <= i < |Listed(pages)|
      ensures ScanPages(bucket, cache, pages).tfstates[i] == Some(FreshDownload(denotes, bucket, pages)[i])
    {
      assert Listed(pages)[i] in pages;
      ScanIsFresh(denotes, bucket, cache, pages, i);
    }
  }

  /** The full name of page `i`, when it is a listed state file. */
  predicate Lists(bucket: string, pages: seq<Page>, i: int, name: string)
    requires 0 <= i < |pages|
  {
    IsListed(pages[i]) && FullName(bucket, pages[i].name) == name
  }

  predicate IsMet(bucket: string, pages: seq<Page>, name: string) {
    exists i :: 0 <= i < |pages| && Lists(bucket, pages, i, name)
  }

  lemma IsMetOneMore(bucket: string, pages: seq<Page>, name: string)
    requires pages != []
    ensures IsMet(bucket, pages, name) <==>
            IsMet(bucket, pages[..|pages| - 1], name) || Lists(bucket, pages, |pages| - 1, name)
  {
    var before := pages[..|pages| - 1];
    if i :| 0 <= i < |before| && Lists(bucket, before, i, name) {
      assert Lists(bucket, pages, i, name);
    }
    if i :| 0 <= i < |before| && Lists(bucket, pages, i, name) {
      assert Lists(bucket, before, i, name);
    }
  }

  lemma {:induction false} ScanMeetsListed(bucket: string, cache: map<string, Entry>, pages: seq<Page>, name: string)
    requires ScanPages(bucket, cache, pages).ok
    ensures name in ScanPages(bucket, cache, pages).existing <==> IsMet(bucket, pages, name)
    ensures name in ScanPages(bucket, cache, pages).existing ==> name in ScanPages(bucket, cache, pages).cache
  {
    if pages != [] {
      ScanMeetsListed(bucket, cache, pages[..|pages| - 1], name);
      IsMetOneMore(bucket, pages, name);
    }
  }

  /** After a call that reports a change, the cached names are exactly those listed. */
  lemma ChangeSweepsCache(bucket: string, cache: map<string, Entry>, pages: seq<Page>, name: string)
    requires ResultOf(ScanPages(bucket, cache, pages)).Changed?
    ensures name in CacheAfter(ScanPages(bucket, cache, pages)) <==> IsMet(bucket, pages, name)
  {
    ScanMeetsListed(bucket, cache, pages, name);
  }

  /** An entry that was never downloaded has the empty ETag of a new one. */
  predicate NilUntagged(cache: map<string, Entry>) {
    forall k :: k in cache && cache[k].tfstate.None? ==> cache[k].etag == ""
  }

  /** So far the object has been listed without an ETag only. */
  predicate ListedUntagged(bucket: string, pages: seq<Page>, name: string) {
    forall i :: 0 <= i < |pages| && Lists(bucket, pages, i, name) ==> ETagOf(pages[i]) == ""
  }

  lemma ListedUntaggedOneMore(bucket: string, pages: seq<Page>, name: string)
    requires pages != []
    ensures ListedUntagged(bucket, pages, name) <==>
            && ListedUntagged(bucket, pages[..|pages| - 1], name)
            && (Lists(bucket, pages, |pages| - 1, name) ==> ETagOf(pages[|pages| - 1]) == "")
  {
    var before := pages[..|pages| - 1];
    assert forall i :: 0 <= i < |before| ==> (Lists(bucket, before, i, name) <==> Lists(bucket, pages, i, name));
  }

  lemma PageKeepsNil(bucket: string, s: Scan, p: Page, name: string)
    requires NilUntagged(s.cache) && s.ok
    ensures NilUntagged(ScanPage(bucket, s, p).cache)
    ensures ScanPage(bucket, s, p).ok ==>
              (EntryOf(ScanPage(bucket, s, p).cache, name).tfstate.None? <==>
               && EntryOf(s.cache, name).tfstate.None?
               && (IsListed(p) && FullName(bucket, p.name) == name ==> ETagOf(p) == ""))
  {
  }

  lemma {:induction false} EntryIsNilIff(bucket: string, cache: map<string, Entry>, pages: seq<Page>, name: string)
    requires NilUntagged(cache)
    ensures NilUntagged(ScanPages(bucket, cache, pages).cache)
    ensures ScanPages(bucket, cache, pages).ok ==>
              (EntryOf(ScanPages(bucket, cache, pages).cache, name).tfstate.None? <==>
               EntryOf(cache, name).tfstate.None? && ListedUntagged(bucket, pages, name))
  {
    if pages != [] {
      EntryIsNilIff(bucket, cache, pages[..|pages| - 1], name);
      ListedUntaggedOneMore(bucket, pages, name);
      var before := ScanPages(bucket, cache, pages[..|pages| - 1]);
      if before.ok {
        PageKeepsNil(bucket, before, pages[|pages| - 1], name);
      }
    }
  }

  /** At every exit of GetTfstate. */
  lemma NilStaysUntagged(bucket: string, cache: map<string, Entry>, pages: seq<Page>)
    requires NilUntagged(cache)
    ensures NilUntagged(CacheAfter(ScanPages(bucket, cache, pages)))
  {
    EntryIsNilIff(bucket, cache, pages, "");
  }

  /** Page `i` lists an object that was never downloaded and that no page up to this one gave an ETag. */
  predicate NeverDownloaded(bucket: string, cache: map<string, Entry>, pages: seq<Page>, i: nat)
    requires i < |pages|
  {
    && IsListed(pages[i])
    && EntryOf(cache, FullName(bucket, pages[i].name)).tfstate.None?
    && ListedUntagged(bucket, pages[..i + 1], FullName(bucket, pages[i].name))
  }

  lemma HandsOutNilAt(bucket: string, cache: map<string, Entry>, pages: seq<Page>)
    requires NilUntagged(cache) && pages != [] && ScanPages(bucket, cache, pages).ok
    ensures None in ScanPages(bucket, cache, pages).tfstates <==>
            || None in ScanPages(bucket, cache, pages[..|pages| - 1]).tfstates
            || NeverDownloaded(bucket, cache, pages, |pages| - 1)
  {
    var last := pages[|pages| - 1];
    assert pages[..|pages|] == pages;
    if IsListed(last) {
      EntryIsNilIff(bucket, cache, pages, FullName(bucket, last.name));
      var s := ScanPages(bucket, cache, pages);
      assert s.tfstates[|s.tfstates| - 1] == EntryOf(s.cache, FullName(bucket, last.name)).tfstate;
      assert s.tfstates[..|s.tfstates| - 1] == ScanPages(bucket, cache, pages[..|pages| - 1]).tfstates;
    }
  }

  /** A nil state file is handed out exactly when an object is listed without an ETag before it was ever
      downloaded. */
  lemma {:induction false} HandsOutNilIff(bucket: string, cache: map<string, Entry>, pages: seq<Page>, n: nat)
    requires NilUntagged(cache) && n <= |pages| && ScanPages(bucket, cache, pages[..n]).ok
    ensures None in ScanPages(bucket, cache, pages[..n]).tfstates <==>
            exists i :: 0 <= i < n && NeverDownloaded(bucket, cache, pages, i)
  {
    if n > 0 {
      assert pages[..n][..n - 1] == pages[..n - 1];
      HandsOutNilIff(bucket, cache, pages, n - 1);
      HandsOutNilAt(bucket, cache, pages[..n]);
      assert pages[..n][..n] == pages[..n];
      assert NeverDownloaded(bucket, cache, pages[..n], n - 1) <==> NeverDownloaded(bucket, cache, pages, n - 1);
    }
  }

  /** Such an input: a first listing with one object without an ETag and one with. */
  lemma NilIsHandedOut(bucket: string, tfstate: Tfstate)
    ensures var untagged := Page("a.tfstate", Head("", Body(tfstate)));
            var tagged := Page("b.tfstate", Head("1", Body(tfstate)));
            ResultOf(ScanPages(bucket, map[], [untagged, tagged])) == Changed([None, Some(tfstate)])
  {
    var untagged := Page("a.tfstate", Head("", Body(tfstate)));
    var tagged := Page("b.tfstate", Head("1", Body(tfstate)));
    var pages := [untagged, tagged];
    assert untagged.name[1..] == SUFFIX && tagged.name[1..] == SUFFIX;
    assert pages[..1] == [untagged] && [untagged][..0] == [];
    var first := ScanPages(bucket, map[], [untagged]);
    assert ScanPages(bucket, map[], []) == Scan(true, map[], [], {}, false);
    assert first == ScanPage(bucket, Scan(true, map[], [], {}, false), untagged);
    assert first.ok && first.tfstates == [None] && !first.needUpdate;
    assert FullName(bucket, tagged.name)[|FullName(bucket, tagged.name)| - 9] == 'b';
    assert FullName(bucket, untagged.name)[|FullName(bucket, untagged.name)| - 9] == 'a';
  }

  /** Page `i` is a state file whose ETag is not the one its entry in `cache` was read at. */
  predicate Differs(bucket: string, cache: map<string, Entry>, p: Page) {
    IsListed(p) && p.head.Head? && EntryOf(cache, FullName(bucket, p.name)).etag != p.head.etag
  }

  predicate AnyDiffers(bucket: string, cache: map<string, Entry>, pages: seq<Page>) {
    exists i :: 0 <= i < |pages| && Differs(bucket, cache, pages[i])
  }

  lemma {:induction false} UnchangedScan(bucket: string, cache: map<string, Entry>, pages: seq<Page>)
    requires ScanPages(bucket, cache, pages).ok
    ensures ScanPages(bucket, cache, pages).needUpdate <==> AnyDiffers(bucket, cache, pages)
    ensures !AnyDiffers(bucket, cache, pages) ==>
              forall name :: EntryOf(ScanPages(bucket, cache, pages).cache, name) == EntryOf(cache, name)
  {
    if pages != [] {
      var before := pages[..|pages| - 1];
      UnchangedScan(bucket, cache, before);
      assert AnyDiffers(bucket, cache, pages) <==>
             AnyDiffers(bucket, cache, before) || Differs(bucket, cache, pages[|pages| - 1]) by {
        if i :| 0 <= i < |before| && Differs(bucket, cache, before[i]) {
          assert Differs(bucket, cache, pages[i]);
        }
        if i :| 0 <= i < |pages| && Differs(bucket, cache, pages[i]) {
          assert i < |before| ==> Differs(bucket, cache, before[i]);
        }
      }
    }
  }

  /** A call that succeeds reports "nothing changed" exactly when no listed ETag differs from its
      entry.  A deleted object makes no difference, and its entry stays. */
  lemma UnchangedIff(bucket: string, cache: map<string, Entry>, pages: seq<Page>)
    requires ScanPages(bucket, cache, pages).ok
    ensures ResultOf(ScanPages(bucket, cache, pages)) == Unchanged <==> !AnyDiffers(bucket, cache, pages)
    ensures !AnyDiffers(bucket, cache, pages) ==>
              forall name :: EntryOf(CacheAfter(ScanPages(bucket, cache, pages)), name) == EntryOf(cache, name)
  {
    UnchangedScan(bucket, cache, pages);
  }

  /** The ETag that the entry of `name` has after the first `n` pages. */
  function LatestETag(bucket: string, cache: map<string, Entry>, pages: seq<Page>, n: nat, name: string): ETag
    requires n <= |pages|
  {
    if n == 0 then EntryOf(cache, name).etag
    else if Lists(bucket, pages, n - 1, name) && pages[n - 1].head.Head? then pages[n - 1].head.etag
    else LatestETag(bucket, cache, pages, n - 1, name)
  }

  /** The store lets the call down at page `p`: a failed listing or head, or a download that was
      needed, because the ETag had changed, and failed or was not JSON. */
  predicate PageBreaks(p: Page, known: ETag) {
    || p.PageFails?
    || (IsListed(p) && (p.head.HeadFails? || (known != p.head.etag && !p.head.download.Body?)))
  }

  predicate Breaks(bucket: string, cache: map<string, Entry>, pages: seq<Page>, i: nat)
    requires i < |pages|
  {
    PageBreaks(pages[i],
               if IsListed(pages[i]) then LatestETag(bucket, cache, pages, i, FullName(bucket, pages[i].name)) else "")
  }

  lemma {:induction false} EntryHasLatestETag(bucket: string, cache: map<string, Entry>, pages: seq<Page>, n: nat,
                                              name: string)
    requires n <= |pages| && ScanPages(bucket, cache, pages[..n]).ok
    ensures EntryOf(ScanPages(bucket, cache, pages[..n]).cache, name).etag == LatestETag(bucket, cache, pages, n, name)
  {
    if n > 0 {
      assert pages[..n][..n - 1] == pages[..n - 1] && pages[..n][n - 1] == pages[n - 1];
      EntryHasLatestETag(bucket, cache, pages, n - 1, name);
    }
  }

  lemma PageFailsIff(bucket: string, s: Scan, p: Page)
    requires s.ok
    ensures ScanPage(bucket, s, p).ok <==>
            !PageBreaks(p, if IsListed(p) then EntryOf(s.cache, FullName(bucket, p.name)).etag else "")
  {
  }

  lemma ScanFailsAt(bucket: string, cache: map<string, Entry>, pages: seq<Page>, n: nat)
    requires n < |pages|
    ensures ScanPages(bucket, cache, pages[..n + 1]).ok <==>
            ScanPages(bucket, cache, pages[..n]).ok && !Breaks(bucket, cache, pages, n)
  {
    assert pages[..n + 1][..n] == pages[..n] && pages[..n + 1][n] == pages[n];
    var scan := ScanPages(bucket, cache, pages[..n]);
    if scan.ok {
      PageFailsIff(bucket, scan, pages[n]);
      if IsListed(pages[n]) {
        EntryHasLatestETag(bucket, cache, pages, n, FullName(bucket, pages[n].name));
      }
    }
  }

  lemma {:induction false} ScanFailsIff(bucket: string, cache: map<string, Entry>, pages: seq<Page>, n: nat)
    requires n <= |pages|
    ensures ScanPages(bucket, cache, pages[..n]).ok <==> forall i :: 0 <= i < n ==> !Breaks(bucket, cache, pages, i)
  {
    if n > 0 {
      ScanFailsIff(bucket, cache, pages, n - 1);
      ScanFailsAt(bucket, cache, pages, n - 1);
    }
  }

  /** GetTfstate fails exactly when the store lets it down at some page. */
  lemma FailsIff(bucket: string, cache: map<string, Entry>, pages: seq<Page>)
    ensures ResultOf(ScanPages(bucket, cache, pages)) == Failed <==>
            exists i :: 0 <= i < |pages| && Breaks(bucket, cache, pages, i)
  {
    assert pages[..|pages|] == pages;
    ScanFailsIff(bucket, cache, pages, |pages|);
  }
}
