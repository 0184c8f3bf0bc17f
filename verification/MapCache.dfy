/** The data node's cache and the copying of one shard between nodes. */
module MapCache {
  import opened Topology
  import opened DataPlane

  /** The keys of shard `shardId` with their values. */
  function Export(data: Store, hash: string -> nat, shardId: int, totalShards: nat): Store
    requires totalShards > 0
  {
    map k | k in data && hash(k) % totalShards == shardId :: data[k]
  }

  class ConcurrentMapCache {
    var data: Store

    constructor ()
      ensures data == map[]
    {
      data := map[];
    }

    method Lookup(key: string) returns (value: string)
      ensures value == Get(data, key)
    {
      value := if key in data then data[key] else "";
    }

    method PutValue(key: string, value: string)
      modifies this
      ensures data == Apply(old(data), Put(key, value))
    {
      data := data[key := value];
    }

    method DeleteKey(key: string)
      modifies this
      ensures data == Apply(old(data), Delete(key))
    {
      data := data - {key};
    }

    /** `order` is the order in which the map is iterated. */
    method ExportShard(hash: string -> nat, shardId: int, totalShards: nat, order: seq<string>) returns (result: Store)
      requires totalShards > 0 && Enumerates(order, data)
      ensures result == Export(data, hash, shardId, totalShards)
    {
      result := map[];
      for i := 0 to |order|
        invariant forall k :: k in result ==> k in data && result[k] == data[k] && hash(k) % totalShards == shardId
        invariant forall j :: 0 <= j < i && hash(order[j]) % totalShards == shardId ==> order[j] in result
      {
        var keyShard := hash(order[i]) % totalShards;
        if keyShard == shardId {
          result := result[order[i] := data[order[i]]];
        }
      }
      ghost var want := Export(data, hash, shardId, totalShards);
      assert result.Keys == want.Keys;
      assert result == want;
    }

    method Import(more: Store, order: seq<string>)
      requires Enumerates(order, more)
      modifies this
      ensures data == old(data) + more
    {
      for i := 0 to |order|
        invariant forall k :: k in old(data) ==> k in data
        invariant forall k :: k in data ==> k in old(data) || k in more
        invariant forall j :: 0 <= j < i ==> order[j] in data && data[order[j]] == more[order[j]]
        invariant forall k :: k in data ==>
                    (k in more && data[k] == more[k]) || (k in old(data) && data[k] == old(data)[k])
        invariant forall j :: i <= j < |order| && order[j] in data ==>
                    order[j] in old(data) && data[order[j]] == old(data)[order[j]]
      {
        data := data[order[i] := more[order[i]]];
      }
      assert data.Keys == (old(data) + more).Keys;
      assert forall k :: k in data ==> data[k] == (old(data) + more)[k];
      assert data == old(data) + more;
    }
  }

  // ---------------------------------------------------------------- exports partition the cache

  /** Importing the exports of `shardIds`, one after the other, into `base`. */
  function ImportAll(base: Store, data: Store, hash: string -> nat, totalShards: nat, shardIds: seq<int>): Store
    requires totalShards > 0
  {
    if shardIds == [] then base
    else
      var init, last := shardIds[..|shardIds| - 1], shardIds[|shardIds| - 1];
      ImportAll(base, data, hash, totalShards, init) + Export(data, hash, last, totalShards)
  }

  /** Importing some shards overwrites exactly their keys. */
  lemma {:induction false} ImportAllAt(base: Store, data: Store, hash: string -> nat, totalShards: nat,
                                       shardIds: seq<int>, k: string)
    requires totalShards > 0
    ensures var result := ImportAll(base, data, hash, totalShards, shardIds);
            if k in data && hash(k) % totalShards in shardIds then k in result && result[k] == data[k]
            else (k in result <==> k in base) && (k in base ==> result[k] == base[k])
  {
    if shardIds != [] {
      var init, last := shardIds[..|shardIds| - 1], shardIds[|shardIds| - 1];
      ImportAllAt(base, data, hash, totalShards, init, k);
      assert shardIds == init + [last];
    }
  }

  /** Importing all the exports, in any order, rebuilds the cache on top of what was there. */
  lemma ImportsRebuild(base: Store, data: Store, hash: string -> nat, totalShards: nat, shardIds: seq<int>)
    requires totalShards > 0 && (forall s :: 0 <= s < totalShards ==> s in shardIds)
    ensures ImportAll(base, data, hash, totalShards, shardIds) == base + data
  {
    var result := ImportAll(base, data, hash, totalShards, shardIds);
    forall k
      ensures k in result <==> k in base + data
      ensures k in result ==> result[k] == (base + data)[k]
    {
      ImportAllAt(base, data, hash, totalShards, shardIds, k);
    }
    assert result.Keys == (base + data).Keys;
    assert result == base + data;
  }

  /** The exports of the shards partition the cache: two shards share no key, no other number has
      any, and together, in any order, they are the cache. */
  lemma ExportsPartition(data: Store, hash: string -> nat, totalShards: nat, shardIds: seq<int>)
    requires totalShards > 0 && (forall s :: 0 <= s < totalShards ==> s in shardIds)
    ensures forall s, t :: s != t ==>
              Export(data, hash, s, totalShards).Keys !! Export(data, hash, t, totalShards).Keys
    ensures forall s :: !(0 <= s < totalShards) ==> Export(data, hash, s, totalShards) == map[]
    ensures ImportAll(map[], data, hash, totalShards, shardIds) == data
  {
    ImportsRebuild(map[], data, hash, totalShards, shardIds);
    assert (map[] + data).Keys == data.Keys;
    assert map[] + data == data;
  }

  // ---------------------------------------------------------------- moving a shard

  function ApplyAll(store: Store, writes: seq<Write>): Store {
    if writes == [] then store else Apply(ApplyAll(store, writes[..|writes| - 1]), writes[|writes| - 1])
  }

  /** What the target holds after the two pulls of a move, with `writes` at the source in between. */
  function TwoPulls(target: Store, source: Store, writes: seq<Write>, hash: string -> nat, shardId: int,
                    totalShards: nat): Store
    requires totalShards > 0
  {
    target + Export(source, hash, shardId, totalShards)
           + Export(ApplyAll(source, writes), hash, shardId, totalShards)
  }

  /** The two pulls leave the target agreeing with the source on every source key of the shard, and
      unchanged on the keys of other shards. */
  lemma PullsAgree(target: Store, source: Store, writes: seq<Write>, hash: string -> nat, shardId: int,
                   totalShards: nat, k: string)
    requires totalShards > 0
    ensures var after, final := TwoPulls(target, source, writes, hash, shardId, totalShards), ApplyAll(source, writes);
            && (k in after <==> k in target || (hash(k) % totalShards == shardId && (k in source || k in final)))
            && (hash(k) % totalShards == shardId && k in final ==> after[k] == final[k])
            && (hash(k) % totalShards != shardId && k in target ==> after[k] == target[k])
  {
    var first, second := Export(source, hash, shardId, totalShards),
                         Export(ApplyAll(source, writes), hash, shardId, totalShards);
    assert k in first <==> hash(k) % totalShards == shardId && k in source;
    assert k in second <==> hash(k) % totalShards == shardId && k in ApplyAll(source, writes);
  }

  /** The keys of the shard that the target had or the first pull brought. */
  function Brought(target: Store, source: Store, hash: string -> nat, shardId: int, totalShards: nat): set<string>
    requires totalShards > 0
  {
    Export(target, hash, shardId, totalShards).Keys + Export(source, hash, shardId, totalShards).Keys
  }

  /** After a move the target's shard equals the source's exactly when no key of the shard that the
      target had, or the first pull brought, is gone from the source. */
  lemma MoveCopiesIff(target: Store, source: Store, writes: seq<Write>, hash: string -> nat, shardId: int,
                      totalShards: nat)
    requires totalShards > 0
    ensures Export(TwoPulls(target, source, writes, hash, shardId, totalShards), hash, shardId, totalShards)
            == Export(ApplyAll(source, writes), hash, shardId, totalShards)
            <==> Brought(target, source, hash, shardId, totalShards) <= ApplyAll(source, writes).Keys
  {
    var after, final := TwoPulls(target, source, writes, hash, shardId, totalShards), ApplyAll(source, writes);
    var got, want := Export(after, hash, shardId, totalShards), Export(final, hash, shardId, totalShards);
    var brought := Brought(target, source, hash, shardId, totalShards);
    forall k
      ensures k in got <==> k in brought || k in want
      ensures k in want ==> got[k] == want[k]
    {
      PullsAgree(target, source, writes, hash, shardId, totalShards, k);
    }
    if brought <= final.Keys {
      assert got.Keys == want.Keys;
      assert got == want;
    } else {
      var k :| k in brought && k !in final;
      assert k in got && k !in want;
    }
  }

  lemma {:induction false} PutsKeepKeys(store: Store, writes: seq<Write>, key: string)
    requires key in store && forall i :: 0 <= i < |writes| ==> writes[i] != Delete(key)
    ensures key in ApplyAll(store, writes)
  {
    if writes != [] {
      PutsKeepKeys(store, writes[..|writes| - 1], key);
    }
  }

  /** A move copies the shard exactly if the target starts without it and no key of it is deleted
      at the source between the pulls. */
  lemma MoveCopiesShard(target: Store, source: Store, writes: seq<Write>, hash: string -> nat, shardId: int,
                        totalShards: nat)
    requires totalShards > 0 && Export(target, hash, shardId, totalShards) == map[]
    requires forall i :: 0 <= i < |writes| ==> writes[i].Delete? ==> hash(writes[i].key) % totalShards != shardId
    ensures Export(TwoPulls(target, source, writes, hash, shardId, totalShards), hash, shardId, totalShards)
            == Export(ApplyAll(source, writes), hash, shardId, totalShards)
  {
    MoveCopiesIff(target, source, writes, hash, shardId, totalShards);
    forall k | k in Export(source, hash, shardId, totalShards)
      ensures k in ApplyAll(source, writes)
    {
      PutsKeepKeys(source, writes, k);
    }
  }
}
