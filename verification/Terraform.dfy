/** The state files that drive everything (pkg/state/terraform.go) and how managers read them. */
module Terraform {
  import opened Wrappers

  /** A resource of a state file: its type and the JSON of its instances. */
  datatype Resource = Resource(kind: string, instances: seq<string>)

  type Tfstate = seq<Resource>

  /** One instance together with the type of its resource. */
  datatype Doc = Doc(kind: string, json: string)

  function InstanceDocs(kind: string, instances: seq<string>): (docs: seq<Doc>)
    ensures |docs| == |instances|
    ensures forall i :: 0 <= i < |docs| ==> docs[i] == Doc(kind, instances[i])
  {
    seq(|instances|, i requires 0 <= i < |instances| => Doc(kind, instances[i]))
  }

  /** The documents of a state file, in the order in which the nested loops meet them. */
  function Docs(tfstate: Tfstate): seq<Doc> {
    if tfstate == [] then []
    else InstanceDocs(tfstate[0].kind, tfstate[0].instances) + Docs(tfstate[1..])
  }

  /** Instance `j` of resource `r` is the document at its place in the file, and there is no other. */
  lemma {:induction false} DocsInOrder(tfstate: Tfstate, r: nat, j: nat)
    requires r < |tfstate| && j < |tfstate[r].instances|
    ensures |Docs(tfstate[..r])| + j < |Docs(tfstate)|
    ensures Docs(tfstate)[|Docs(tfstate[..r])| + j] == Doc(tfstate[r].kind, tfstate[r].instances[j])
    ensures |Docs(tfstate[..r + 1])| == |Docs(tfstate[..r])| + |tfstate[r].instances|
  {
    var first, rest := InstanceDocs(tfstate[0].kind, tfstate[0].instances), tfstate[1..];
    if r == 0 {
      assert tfstate[..1][1..] == [];
    } else {
      assert tfstate[..r][1..] == rest[..r - 1] && tfstate[..r + 1][1..] == rest[..r];
      DocsInOrder(rest, r - 1, j);
    }
  }

  lemma {:induction false} EveryDocHasAPlace(tfstate: Tfstate, n: nat) returns (r: nat, j: nat)
    requires n < |Docs(tfstate)|
    ensures r < |tfstate| && j < |tfstate[r].instances| && n == |Docs(tfstate[..r])| + j
  {
    var first := |tfstate[0].instances|;
    if n < first {
      return 0, n;
    }
    r, j := EveryDocHasAPlace(tfstate[1..], n - first);
    r := r + 1;
    assert tfstate[..r][1..] == tfstate[1..][..r - 1];
  }

  /** The documents of several state files, read one after the other. */
  function AllDocs(tfstates: seq<Tfstate>): seq<Doc> {
    if tfstates == [] then [] else Docs(tfstates[0]) + AllDocs(tfstates[1..])
  }

  /** Files follow each other in the order of the list. */
  lemma {:induction false} AllDocsInOrder(a: seq<Tfstate>, tfstate: Tfstate, b: seq<Tfstate>)
    ensures AllDocs(a + [tfstate] + b) == AllDocs(a) + Docs(tfstate) + AllDocs(b)
  {
    if a == [] {
      assert (a + [tfstate] + b)[1..] == b && (a + [tfstate] + b)[0] == tfstate;
    } else {
      assert (a + [tfstate] + b)[1..] == a[1..] + [tfstate] + b;
      AllDocsInOrder(a[1..], tfstate, b);
    }
  }

  /** What a reader makes of one document. */
  datatype Outcome<K, V> = Ignored | Malformed | Declared(key: K, value: V)

  datatype Reading<K, V> = Reading(ok: bool, entries: map<K, V>)

  /** Reads documents in order into `m`, stopping at the first malformed one. */
  function ReadAll<D, K, V>(decode: D -> Outcome<K, V>, m: map<K, V>, ds: seq<D>): Reading<K, V>
    decreases ds
  {
    if ds == [] then Reading(true, m)
    else
      match decode(ds[0])
      case Ignored => ReadAll(decode, m, ds[1..])
      case Malformed => Reading(false, m)
      case Declared(k, v) => ReadAll(decode, m[k := v], ds[1..])
  }

  /** The value of the last document in `ds` that declares `k`. */
  function LastDeclared<D, K(==), V>(decode: D -> Outcome<K, V>, ds: seq<D>, k: K): Option<V> {
    if ds == [] then None
    else
      var later := LastDeclared(decode, ds[1..], k);
      if later.Some? then later
      else
        var first := decode(ds[0]);
        if first.Declared? && first.key == k then Some(first.value) else None
  }

  function Lookup<K, V>(m: map<K, V>, k: K): Option<V> {
    if k in m then Some(m[k]) else None
  }

  lemma {:induction false} LastDeclaredExists<D, K, V>(decode: D -> Outcome<K, V>, ds: seq<D>, k: K)
    ensures LastDeclared(decode, ds, k).Some? <==>
            exists i :: 0 <= i < |ds| && decode(ds[i]).Declared? && decode(ds[i]).key == k
  {
    if ds != [] {
      LastDeclaredExists(decode, ds[1..], k);
      if i :| 0 <= i < |ds[1..]| && decode(ds[1..][i]).Declared? && decode(ds[1..][i]).key == k {
        assert ds[i + 1] == ds[1..][i];
      }
      assert forall i :: 0 < i < |ds| ==> ds[i] == ds[1..][i - 1];
    }
  }

  /** The last declaration of a key, by its position. */
  lemma {:induction false} LastDeclaredIs<D, K, V>(decode: D -> Outcome<K, V>, ds: seq<D>, k: K, i: nat)
    requires i < |ds| && decode(ds[i]).Declared? && decode(ds[i]).key == k
    requires forall j :: i < j < |ds| ==> !(decode(ds[j]).Declared? && decode(ds[j]).key == k)
    ensures LastDeclared(decode, ds, k) == Some(decode(ds[i]).value)
    decreases ds
  {
    var rest := ds[1..];
    assert forall j :: 0 <= j < |rest| ==> rest[j] == ds[j + 1];
    if i == 0 {
      LastDeclaredExists(decode, rest, k);
    } else {
      LastDeclaredIs(decode, rest, k, i - 1);
    }
  }

  predicate WellFormed<D(!new), K, V>(decode: D -> Outcome<K, V>, ds: seq<D>) {
    forall i :: 0 <= i < |ds| ==> !decode(ds[i]).Malformed?
  }

  /** Reading fails exactly when some document is malformed; otherwise each key ends up with the
      value of the last document declaring it, or with what it held before. */
  lemma {:induction false} ReadAllMeaning<D(!new), K, V>(decode: D -> Outcome<K, V>, m: map<K, V>, ds: seq<D>, k: K)
    ensures ReadAll(decode, m, ds).ok <==> WellFormed(decode, ds)
    ensures WellFormed(decode, ds) ==>
              var last := LastDeclared(decode, ds, k);
              Lookup(ReadAll(decode, m, ds).entries, k) == if last.Some? then last else Lookup(m, k)
    decreases ds
  {
    if ds != [] {
      assert WellFormed(decode, ds) <==> !decode(ds[0]).Malformed? && WellFormed(decode, ds[1..]) by {
        assert forall i :: 0 < i < |ds| ==> ds[i] == ds[1..][i - 1];
      }
      match decode(ds[0])
      case Ignored => ReadAllMeaning(decode, m, ds[1..], k);
      case Malformed =>
      case Declared(key, v) => ReadAllMeaning(decode, m[key := v], ds[1..], k);
    }
  }

  lemma {:induction false} ReadAllConcat<D, K, V>(decode: D -> Outcome<K, V>, m: map<K, V>, a: seq<D>, b: seq<D>)
    ensures ReadAll(decode, m, a + b) ==
            var first := ReadAll(decode, m, a);
            if first.ok then ReadAll(decode, first.entries, b) else first
    decreases a
  {
    if a == [] {
      assert a + b == b;
    } else {
      assert (a + b)[1..] == a[1..] + b;
      match decode(a[0])
      case Ignored => ReadAllConcat(decode, m, a[1..], b);
      case Malformed =>
      case Declared(k, v) => ReadAllConcat(decode, m[k := v], a[1..], b);
    }
  }

  lemma {:induction false} ReadAllGrows<D, K, V>(decode: D -> Outcome<K, V>, m: map<K, V>, ds: seq<D>)
    ensures m.Keys <= ReadAll(decode, m, ds).entries.Keys
    decreases ds
  {
    if ds != [] {
      match decode(ds[0])
      case Ignored => ReadAllGrows(decode, m, ds[1..]);
      case Malformed =>
      case Declared(k, v) => ReadAllGrows(decode, m[k := v], ds[1..]);
    }
  }

  /** Documents that are all ignored can be skipped as a whole. */
  lemma {:induction false} ReadAllSkips<D, K, V>(decode: D -> Outcome<K, V>, m: map<K, V>, a: seq<D>, b: seq<D>)
    requires forall i :: 0 <= i < |a| ==> decode(a[i]).Ignored?
    ensures ReadAll(decode, m, a + b) == ReadAll(decode, m, b)
  {
    if a == [] {
      assert a + b == b;
    } else {
      assert (a + b)[1..] == a[1..] + b;
      ReadAllSkips(decode, m, a[1..], b);
    }
  }
}
