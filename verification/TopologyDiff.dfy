/**
 DiffTopology of internal/configure/topology/diff.go over two parsed topologies.
 A service is its id and the digest hashstructure computes for it, if it can.
 */
module TopologyDiff {

  datatype Digest = Digest(value: nat) | Unhashable

  datatype Service = Service(id: string, digest: Digest)

  type Ids = map<string, Service>

  datatype DiffType = Add | Delete | Change

  datatype Diff = Diff(kind: DiffType, service: Service)

  datatype Result = Ok(diffs: seq<Diff>) | HashFailed

  /** Services by id; of several with one id the last counts. */
  function ById(dcs: seq<Service>): (m: Ids)
    ensures forall k :: k in m ==> m[k].id == k
  {
    if dcs == [] then map[]
    else ById(dcs[..|dcs| - 1])[dcs[|dcs| - 1].id := dcs[|dcs| - 1]]
  }

  method CollectIds(dcs: seq<Service>) returns (ids: Ids)
    ensures ids == ById(dcs)
  {
    ids := map[];
    for i := 0 to |dcs|
      invariant ids == ById(dcs[..i])
    {
      assert dcs[..i + 1][..i] == dcs[..i];
      ids := ids[dcs[i].id := dcs[i]];
    }
    assert dcs[..|dcs|] == dcs;
  }

  method Difference(ids1: Ids, ids2: Ids) returns (ids: Ids)
    ensures ids == map k | k in ids1 && k !in ids2 :: ids1[k]
  {
    ids := map[];
    var todo := ids1.Keys;
    while todo != {}
      invariant todo <= ids1.Keys
      invariant ids == map k | k in ids1 && k !in todo && k !in ids2 :: ids1[k]
      decreases todo
    {
      var k :| k in todo;
      if k !in ids2 {
        ids := ids[k := ids1[k]];
      }
      todo := todo - {k};
    }
  }

  // --------------------------------------------------------- what a diff means

  /** The entry a diff must have for an id, if any. */
  ghost predicate Expected(m1: Ids, m2: Ids, d: Diff) {
    match d.kind
    case Delete => d.service.id in m1 && d.service.id !in m2 && d.service == m1[d.service.id]
    case Add => d.service.id !in m1 && d.service.id in m2 && d.service == m2[d.service.id]
    case Change =>
      && d.service.id in m1 && d.service.id in m2 && d.service == m2[d.service.id]
      && m1[d.service.id].digest != m2[d.service.id].digest
  }

  ghost predicate OneEach(ds: seq<Diff>) {
    forall i, j :: 0 <= i < j < |ds| ==> ds[i].service.id != ds[j].service.id
  }

  /** A list of differences, in any order: every expected entry once, no other. */
  ghost predicate IsDiff(m1: Ids, m2: Ids, ds: seq<Diff>) {
    OneEach(ds) && forall d :: d in ds <==> Expected(m1, m2, d)
  }

  /** Some service on both sides has no digest. */
  ghost predicate SomeUnhashable(m1: Ids, m2: Ids) {
    exists k :: k in m1 && k in m2 && (m1[k].digest.Unhashable? || m2[k].digest.Unhashable?)
  }

  /** Appends one entry of `kind` for each service of `ids`, in map order. */
  method AppendAll(ds: seq<Diff>, ids: Ids, kind: DiffType) returns (r: seq<Diff>)
    requires OneEach(ds) && forall i :: 0 <= i < |ds| ==> ds[i].service.id !in ids
    requires forall k :: k in ids ==> ids[k].id == k
    ensures OneEach(r)
    ensures forall d :: d in r <==> d in ds || (d.kind == kind && d.service.id in ids && d.service == ids[d.service.id])
  {
    r := ds;
    var todo := ids.Keys;
    while todo != {}
      invariant todo <= ids.Keys
      invariant OneEach(r) && forall i :: 0 <= i < |r| ==> r[i].service.id !in todo
      invariant forall d :: d in r <==>
        d in ds || (d.kind == kind && d.service.id in ids && d.service.id !in todo && d.service == ids[d.service.id])
      decreases todo
    {
      var k :| k in todo;
      r := r + [Diff(kind, ids[k])];
      todo := todo - {k};
    }
  }

  ghost predicate Changed(ids1: Ids, ids2: Ids, d: Diff) {
    d.kind.Change? && Expected(ids1, ids2, d)
  }

  /** The last loop: entries for the ids on both sides whose digests differ. */
  method AppendChanges(ds: seq<Diff>, ids1: Ids, ids2: Ids, deleteIds: Ids, addIds: Ids) returns (r: Result)
    requires deleteIds.Keys == ids1.Keys - ids2.Keys && addIds.Keys == ids2.Keys - ids1.Keys
    requires OneEach(ds) && forall i :: 0 <= i < |ds| ==> !(ds[i].service.id in ids1 && ds[i].service.id in ids2)
    requires forall k :: k in ids2 ==> ids2[k].id == k
    ensures r.HashFailed? <==> SomeUnhashable(ids1, ids2)
    ensures r.Ok? ==> OneEach(r.diffs)
    ensures r.Ok? ==> forall d :: d in r.diffs <==> d in ds || Changed(ids1, ids2, d)
  {
    var out := ds;
    var todo := ids2.Keys;
    while todo != {}
      invariant todo <= ids2.Keys
      invariant OneEach(out) && forall i :: 0 <= i < |out| ==> !(out[i].service.id in ids1 && out[i].service.id in todo)
      invariant forall d :: d in out <==> d in ds || (d.service.id !in todo && Changed(ids1, ids2, d))
      invariant forall k :: k in ids1 && k in ids2 && k !in todo ==> ids1[k].digest.Digest? && ids2[k].digest.Digest?
      decreases todo
    {
      var id :| id in todo;
      if id !in deleteIds && id !in addIds {
        if ids1[id].digest.Unhashable? || ids2[id].digest.Unhashable? {
          return HashFailed;
        }
        if ids1[id].digest.value != ids2[id].digest.value {
          out := out + [Diff(Change, ids2[id])];
        }
      }
      todo := todo - {id};
    }
    r := Ok(out);
  }

  method DiffTopology(dcs1: seq<Service>, dcs2: seq<Service>) returns (r: Result)
    ensures r.HashFailed? <==> SomeUnhashable(ById(dcs1), ById(dcs2))
    ensures r.Ok? ==> IsDiff(ById(dcs1), ById(dcs2), r.diffs)
  {
    var ids1 := CollectIds(dcs1);
    var ids2 := CollectIds(dcs2);
    var deleteIds := Difference(ids1, ids2);
    var ds := AppendAll([], deleteIds, Delete);
    assert forall i :: 0 <= i < |ds| ==> ds[i] in ds;
    var addIds := Difference(ids2, ids1);
    var es := AppendAll(ds, addIds, Add);
    assert forall i :: 0 <= i < |es| ==> es[i] in es;
    r := AppendChanges(es, ids1, ids2, deleteIds, addIds);
  }

  // --------------------------------------------------------------- properties

  /** Carrying out one entry on a map of services. */
  function Apply(m: Ids, d: Diff): Ids {
    if d.kind.Delete? then m - {d.service.id} else m[d.service.id := d.service]
  }

  function ApplyAll(m: Ids, ds: seq<Diff>): Ids
    decreases |ds|
  {
    if ds == [] then m else ApplyAll(Apply(m, ds[0]), ds[1..])
  }

  ghost predicate SameDigests(m: Ids, m2: Ids) {
    m.Keys == m2.Keys && forall k :: k in m ==> m[k].digest == m2[k].digest
  }

  /** What one id looks like after entries with ids of their own are applied. */
  lemma {:induction false} ApplyAt(m: Ids, ds: seq<Diff>, k: string)
    requires OneEach(ds)
    ensures (forall i :: 0 <= i < |ds| ==> ds[i].service.id != k) ==>
      (k in ApplyAll(m, ds) <==> k in m) && (k in m ==> ApplyAll(m, ds)[k] == m[k])
    ensures forall i :: 0 <= i < |ds| && ds[i].service.id == k ==>
      if ds[i].kind.Delete? then k !in ApplyAll(m, ds)
      else k in ApplyAll(m, ds) && ApplyAll(m, ds)[k] == ds[i].service
    decreases |ds|
  {
    if ds != [] {
      ApplyAt(Apply(m, ds[0]), ds[1..], k);
      assert forall i :: 1 <= i < |ds| ==> ds[i] == ds[1..][i - 1];
    }
  }

  /** Applying a diff to the old topology gives the new one: the same ids, and equal
      digests at every id. */
  lemma DiffLeadsToNew(m1: Ids, m2: Ids, ds: seq<Diff>)
    requires IsDiff(m1, m2, ds)
    requires forall k :: k in m1 ==> m1[k].id == k
    requires forall k :: k in m2 ==> m2[k].id == k
    ensures SameDigests(ApplyAll(m1, ds), m2)
  {
    var m := ApplyAll(m1, ds);
    forall k ensures (k in m <==> k in m2) && (k in m ==> m[k].digest == m2[k].digest) {
      ApplyAt(m1, ds, k);
      if k in m1 && k !in m2 {
        var d := Diff(Delete, m1[k]);
        assert Expected(m1, m2, d) && d in ds;
      } else if k in m2 && (k !in m1 || m1[k].digest != m2[k].digest) {
        var d := Diff(if k in m1 then Change else Add, m2[k]);
        assert Expected(m1, m2, d) && d in ds;
      } else {
        forall i | 0 <= i < |ds| ensures ds[i].service.id != k {
          assert ds[i] in ds && Expected(m1, m2, ds[i]);
        }
      }
    }
  }

  /** Two diffs of the same topologies differ in order only. */
  lemma DiffsArePermutations(m1: Ids, m2: Ids, ds: seq<Diff>, es: seq<Diff>)
    requires IsDiff(m1, m2, ds) && IsDiff(m1, m2, es)
    ensures multiset(ds) == multiset(es)
  {
    forall d ensures multiset(ds)[d] == multiset(es)[d] {
      AtMostOnce(ds, d);
      AtMostOnce(es, d);
      assert d in ds <==> d in es;
    }
  }

  lemma {:induction false} AtMostOnce(ds: seq<Diff>, d: Diff)
    requires OneEach(ds)
    ensures multiset(ds)[d] == if d in ds then 1 else 0
    decreases |ds|
  {
    if ds != [] {
      AtMostOnce(ds[1..], d);
      assert ds == [ds[0]] + ds[1..];
      assert ds[0] !in ds[1..];
    }
  }

  /** No entries iff nothing differs. */
  lemma EmptyIffSame(m1: Ids, m2: Ids, ds: seq<Diff>)
    requires IsDiff(m1, m2, ds)
    requires forall k :: k in m1 ==> m1[k].id == k
    requires forall k :: k in m2 ==> m2[k].id == k
    ensures ds == [] <==> SameDigests(m1, m2)
  {
    if ds == [] {
      DiffLeadsToNew(m1, m2, ds);
    } else {
      assert Expected(m1, m2, ds[0]);
    }
  }
}
