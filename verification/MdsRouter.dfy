/**
 The hash router of internal/common/mds_router.go and the MDS table of
 internal/common/mds_meta.go.
 */
module MdsRouter {

  datatype Mds = Mds(id: int, location: string)

  datatype Option<T> = None | Some(value: T)

  /** The partition policy: how many buckets there are, and which MDS has which. */
  datatype Partition = Partition(bucketNum: nat, distributions: map<nat, seq<nat>>)

  class MdsMeta {
    var mdsMap: map<int, Mds>

    constructor ()
      ensures mdsMap == map[]
    {
      mdsMap := map[];
    }

    method SetMds(ms: seq<Mds>)
      modifies this
      ensures mdsMap == Filled(old(mdsMap), ms)
    {
      for i := 0 to |ms|
        invariant mdsMap == Filled(old(mdsMap), ms[..i])
      {
        assert ms[..i + 1][..i] == ms[..i];
        mdsMap := mdsMap[ms[i].id := ms[i]];
      }
      assert ms[..|ms|] == ms;
    }

    method GetMds(id: int) returns (r: Option<Mds>)
      ensures r == if id in mdsMap then Some(mdsMap[id]) else None
    {
      r := if id in mdsMap then Some(mdsMap[id]) else None;
    }
  }

  function Filled(m: map<int, Mds>, ms: seq<Mds>): map<int, Mds> {
    if ms == [] then m else Filled(m, ms[..|ms| - 1])[ms[|ms| - 1].id := ms[|ms| - 1]]
  }

  /** No later MDS has the id of the `i`-th. */
  predicate LastOfId(ms: seq<Mds>, i: nat) {
    i < |ms| && forall j :: i < j < |ms| ==> ms[j].id != ms[i].id
  }

  lemma {:induction false} FilledHas(m: map<int, Mds>, ms: seq<Mds>)
    requires forall k :: k in m ==> m[k].id == k
    ensures forall k :: k in Filled(m, ms) <==> k in m || exists x :: x in ms && x.id == k
    ensures forall k :: k in Filled(m, ms) ==> Filled(m, ms)[k].id == k
    ensures forall k :: k in Filled(m, ms) && k !in m ==> Filled(m, ms)[k] in ms
    ensures forall i :: 0 <= i < |ms| && LastOfId(ms, i) ==> Filled(m, ms)[ms[i].id] == ms[i]
    decreases |ms|
  {
    if ms != [] {
      var last := |ms| - 1;
      FilledHas(m, ms[..last]);
      assert ms == ms[..last] + [ms[last]];
      forall i | 0 <= i < last && LastOfId(ms, i) ensures LastOfId(ms[..last], i) && ms[last].id != ms[i].id {
      }
    }
  }

  // --------------------------------------------------------------- ownership

  /** `id` has bucket `b`. */
  ghost predicate Owns(p: Partition, id: nat, b: nat) {
    id in p.distributions && b in p.distributions[id]
  }

  /** No bucket is given to two MDSs. */
  ghost predicate Disjoint(p: Partition) {
    forall i, j, b :: Owns(p, i, b) && Owns(p, j, b) ==> i == j
  }

  ghost predicate HasOwner(p: Partition, b: nat) {
    exists i :: Owns(p, i, b)
  }

  ghost predicate Covers(p: Partition) {
    forall b: nat :: b < p.bucketNum ==> HasOwner(p, b)
  }

  /** Every entry of the bucket table is a bucket of that MDS. */
  ghost predicate Sound(p: Partition, table: map<nat, int>) {
    forall b :: b in table ==> table[b] >= 0 && Owns(p, table[b], b)
  }

  /** Every bucket of these MDSs is in the table. */
  ghost predicate Complete(p: Partition, ids: set<nat>, table: map<nat, int>) {
    forall i, b :: i in ids && Owns(p, i, b) ==> b in table
  }

  class HashRouter {
    var partition: Option<Partition>
    var mdsIdMap: map<nat, int>
    const meta: MdsMeta
    ghost var given: seq<Mds>

    /** After Init, with whatever success: the table names owners that were given. */
    ghost predicate Valid()
      reads this, meta
    {
      && partition.Some? && meta.mdsMap == Filled(map[], given)
      && Sound(partition.value, mdsIdMap)
      && forall b :: b in mdsIdMap ==> mdsIdMap[b] in meta.mdsMap
    }

    constructor ()
      ensures mdsIdMap == map[] && partition == None && meta.mdsMap == map[] && fresh(meta)
    {
      mdsIdMap, partition, given := map[], None, [];
      meta := new MdsMeta();
    }

    /** Fills the bucket table in map order; gives up at the first MDS that is not
        among `ms`. */
    method Init(ms: seq<Mds>, p: Partition) returns (ok: bool)
      requires mdsIdMap == map[] && meta.mdsMap == map[]
      modifies this, meta
      ensures Valid() && partition == Some(p) && given == ms
      ensures ok <==> forall i :: i in p.distributions ==> i in meta.mdsMap
      ensures ok ==> Complete(p, p.distributions.Keys, mdsIdMap)
    {
      meta.SetMds(ms);
      partition, given := Some(p), ms;
      var todo := p.distributions.Keys;
      while todo != {}
        invariant todo <= p.distributions.Keys
        invariant Valid() && partition == Some(p) && given == ms
        invariant Complete(p, p.distributions.Keys - todo, mdsIdMap)
        invariant forall i :: i in p.distributions.Keys - todo ==> i in meta.mdsMap
        decreases todo
      {
        var mdsId :| mdsId in todo;
        var found := meta.GetMds(mdsId);
        if found.None? {
          return false;
        }
        var buckets := p.distributions[mdsId];
        for j := 0 to |buckets|
          invariant Valid() && partition == Some(p) && given == ms
          invariant Complete(p, p.distributions.Keys - todo, mdsIdMap)
          invariant forall b :: b in buckets[..j] ==> b in mdsIdMap
        {
          assert Owns(p, mdsId, buckets[j]);
          assert buckets[..j + 1] == buckets[..j] + [buckets[j]];
          mdsIdMap := mdsIdMap[buckets[j] := mdsId];
        }
        assert buckets[..|buckets|] == buckets;
        todo := todo - {mdsId};
      }
      ok := true;
    }

    /** Answers with a given MDS that owns the inode's bucket, and answers at all once
        the table is complete and the bucket has an owner. */
    method GetMds(inodeId: nat) returns (r: Option<Mds>)
      requires Valid() && partition.value.bucketNum > 0
      ensures r == Route(partition.value, mdsIdMap, meta.mdsMap, inodeId)
      ensures r.Some? ==>
        r.value in given && r.value.id >= 0 && Owns(partition.value, r.value.id, inodeId % partition.value.bucketNum)
      ensures Complete(partition.value, partition.value.distributions.Keys, mdsIdMap) ==>
        (r.Some? <==> HasOwner(partition.value, inodeId % partition.value.bucketNum))
    {
      FilledHas(map[], given);
      var bucketId := inodeId % partition.value.bucketNum;
      if bucketId in mdsIdMap {
        r := meta.GetMds(mdsIdMap[bucketId]);
      } else {
        r := None;
      }
    }
  }

  /** What GetMds answers on a given state. */
  function Route(p: Partition, table: map<nat, int>, mds: map<int, Mds>, inodeId: nat): Option<Mds>
    requires p.bucketNum > 0
  {
    var b := inodeId % p.bucketNum;
    if b in table && table[b] in mds then Some(mds[table[b]]) else None
  }

  /** A fresh router that has been initialised, with whatever success, never routes
      an inode to an MDS that does not own its bucket; two routers initialised from
      the same data in different map orders never answer differently. */
  lemma RoutesToOwner(p: Partition, table: map<nat, int>, ms: seq<Mds>, inodeId: nat, owner: nat)
    requires p.bucketNum > 0 && Disjoint(p) && Sound(p, table)
    requires Owns(p, owner, inodeId % p.bucketNum)
    ensures var r := Route(p, table, Filled(map[], ms), inodeId);
      r.Some? ==> r.value.id == owner && r.value in ms && r.value == Filled(map[], ms)[owner]
  {
    FilledHas(map[], ms);
    var b := inodeId % p.bucketNum;
    if b in table {
      assert Owns(p, table[b], b);
    }
  }

  /** After a successful Init over a partition that covers all buckets, routing is
      total, and the answer is the owner's entry whatever the map order was. */
  lemma RoutingTotal(p: Partition, table: map<nat, int>, ms: seq<Mds>, inodeId: nat)
    requires p.bucketNum > 0 && Disjoint(p) && Covers(p)
    requires Sound(p, table) && Complete(p, p.distributions.Keys, table)
    requires forall i :: i in p.distributions ==> i in Filled(map[], ms)
    ensures exists owner ::
      && Owns(p, owner, inodeId % p.bucketNum) && owner in Filled(map[], ms)
      && Route(p, table, Filled(map[], ms), inodeId) == Some(Filled(map[], ms)[owner])
  {
    var b := inodeId % p.bucketNum;
    assert HasOwner(p, b);
    var owner :| Owns(p, owner, b);
    assert b in table && Owns(p, table[b], b);
  }
}
