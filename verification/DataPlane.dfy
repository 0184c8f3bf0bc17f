/** Synchronous primary-backup writes under node deaths. Requests are handled one at a time, but a
    node may act on any topology it has ever fetched, and a write may stop after any replica. */
module DataPlane {
  import opened Topology

  type Store = map<string, string>

  /** A missing key reads as "". */
  function Get(store: Store, key: string): string {
    if key in store then store[key] else ""
  }

  datatype Write = Put(key: string, value: string) | Delete(key: string)

  function Apply(store: Store, w: Write): Store {
    match w
    case Put(key, value) => store[key := value]
    case Delete(key) => store - {key}
  }

  /** What a reader of the key sees once the write is applied. */
  function Effect(w: Write): string {
    if w.Put? then w.value else ""
  }

  lemma ApplyReads(store: Store, w: Write, key: string)
    ensures Get(Apply(store, w), key) == if key == w.key then Effect(w) else Get(store, key)
    ensures key in Apply(store, w) <==> if key == w.key then w.Put? else key in store
  {
  }

  // ---------------------------------------------------------------- one request

  /** The fate of one replication request: answered, never arrived, or applied but not answered. */
  datatype Outcome = Answered | RequestLost | ReplyLost

  datatype Status = Acked | Fenced | StaleEpoch | NotPrimary | ShardBusy | ReplicationFailed

  function StoreOf(stores: map<NodeId, Store>, n: NodeId): Store {
    if n in stores then stores[n] else map[]
  }

  function Read(stores: map<NodeId, Store>, n: NodeId, key: string): string {
    Get(StoreOf(stores, n), key)
  }

  /** The key hash is an arbitrary function. */
  function ShardOf(hash: string -> nat, key: string, totalShards: nat): nat {
    if totalShards > 0 then hash(key) % totalShards else 0
  }

  function Unknown(config: ClusterConfig, replicas: seq<NodeId>): set<NodeId> {
    set x | x in replicas && x !in config.nodes
  }

  /** The replicas that have an address. */
  function Targets(config: ClusterConfig, shardId: int): seq<NodeId> {
    if shardId in config.shards then
      Minus(config.shards[shardId].replicaIds, Unknown(config, config.shards[shardId].replicaIds))
    else []
  }

  /** A write is sent to exactly the replicas of its shard that the topology has an address for. */
  lemma TargetsAre(config: ClusterConfig, shardId: int, x: NodeId)
    ensures x in Targets(config, shardId)
            <==> shardId in config.shards && x in config.shards[shardId].replicaIds && x in config.nodes
  {
    if shardId in config.shards {
      var replicas := config.shards[shardId].replicaIds;
      MinusMembers(replicas, Unknown(config, replicas), x);
    }
  }

  function EpochOf(epochs: map<NodeId, nat>, n: NodeId): nat {
    if n in epochs then epochs[n] else 0
  }

  /** A replica refuses a request older than its topology. */
  predicate Reaches(epochs: map<NodeId, nat>, r: NodeId, epoch: nat, outcome: Outcome) {
    !outcome.RequestLost? && EpochOf(epochs, r) <= epoch
  }

  datatype Sent = Sent(stores: map<NodeId, Store>, ok: bool)

  /** Sending `w` to the first `n` targets, stopping at the first failure. */
  function SendTo(stores: map<NodeId, Store>, epochs: map<NodeId, nat>, targets: seq<NodeId>, w: Write, epoch: nat,
                  outcomes: seq<Outcome>, n: nat): Sent
    requires n <= |targets| <= |outcomes|
  {
    if n == 0 then Sent(stores, true)
    else
      var before := SendTo(stores, epochs, targets, w, epoch, outcomes, n - 1);
      var r := targets[n - 1];
      if !before.ok then before
      else if !Reaches(epochs, r, epoch, outcomes[n - 1]) then Sent(before.stores, false)
      else Sent(before.stores[r := Apply(StoreOf(before.stores, r), w)], outcomes[n - 1].Answered?)
  }

  /** Whether the topology `config` lets `self` write `w`. */
  function Check(config: ClusterConfig, hash: string -> nat, self: NodeId, active: bool, w: Write, epoch: nat): Status {
    var shardId := ShardOf(hash, w.key, config.totalShards);
    if !active then Fenced
    else if epoch < config.epoch then StaleEpoch
    else if config.totalShards == 0 then Acked
    else if shardId !in config.shards || config.shards[shardId].primaryId != self then NotPrimary
    else if config.shards[shardId].status.ShardLocked? || config.shards[shardId].status.ShardMigrating? then ShardBusy
    else Acked
  }

  datatype Served = Served(status: Status, stores: map<NodeId, Store>)

  /** A write request at node `self`, whose topology is `config`. */
  function Serve(config: ClusterConfig, hash: string -> nat, self: NodeId, active: bool, w: Write, epoch: nat,
                 stores: map<NodeId, Store>, epochs: map<NodeId, nat>, outcomes: seq<Outcome>): Served
    requires |Targets(config, ShardOf(hash, w.key, config.totalShards))| <= |outcomes|
  {
    var check := Check(config, hash, self, active, w, epoch);
    if check != Acked then Served(check, stores)
    else
      var targets := Targets(config, ShardOf(hash, w.key, config.totalShards));
      var sent := SendTo(stores, epochs, targets, w, epoch, outcomes, |targets|);
      if sent.ok then Served(Acked, sent.stores[self := Apply(StoreOf(sent.stores, self), w)])
      else Served(ReplicationFailed, sent.stores)
  }

  /** A write gets past the checks exactly at a node with a lease, with a request no older than the
      node's topology, of a shard that the topology gives to the node and that is neither locked nor
      migrating; a refused write says which of these failed first and changes no cache. */
  lemma ServedIff(config: ClusterConfig, hash: string -> nat, self: NodeId, active: bool, w: Write, epoch: nat,
                  stores: map<NodeId, Store>, epochs: map<NodeId, nat>, outcomes: seq<Outcome>)
    requires |Targets(config, ShardOf(hash, w.key, config.totalShards))| <= |outcomes|
    ensures var r := Serve(config, hash, self, active, w, epoch, stores, epochs, outcomes);
            && (r.status.Acked? || r.status.ReplicationFailed? <==>
                active && config.epoch <= epoch &&
                (config.totalShards > 0 ==>
                   var k := hash(w.key) % config.totalShards;
                   && k in config.shards && config.shards[k].primaryId == self
                   && config.shards[k].status != ShardLocked && config.shards[k].status != ShardMigrating))
            && (r.status.Fenced? <==> !active)
            && (r.status.StaleEpoch? <==> active && epoch < config.epoch)
            && (r.status.NotPrimary? <==>
                active && config.epoch <= epoch && config.totalShards > 0 &&
                (hash(w.key) % config.totalShards !in config.shards ||
                 config.shards[hash(w.key) % config.totalShards].primaryId != self))
            && (!r.status.Acked? && !r.status.ReplicationFailed? ==> r.stores == stores)
  {
  }

  method GetReplicas(config: ClusterConfig, shardId: int) returns (targets: seq<NodeId>)
    ensures targets == Targets(config, shardId)
  {
    targets := [];
    if shardId !in config.shards {
      return;
    }
    var replicas := config.shards[shardId].replicaIds;
    for i := 0 to |replicas|
      invariant targets == Minus(replicas[..i], Unknown(config, replicas))
    {
      assert replicas[..i + 1][..i] == replicas[..i];
      if replicas[i] in config.nodes {
        targets := targets + [replicas[i]];
      }
    }
    assert replicas[..|replicas|] == replicas;
  }

  /** The write handler: checks, then the loop over replicas, then the local cache. */
  method HandleWrite(config: ClusterConfig, hash: string -> nat, self: NodeId, active: bool, w: Write, epoch: nat,
                     stores: map<NodeId, Store>, epochs: map<NodeId, nat>, outcomes: seq<Outcome>)
    returns (status: Status, newStores: map<NodeId, Store>)
    requires |Targets(config, ShardOf(hash, w.key, config.totalShards))| <= |outcomes|
    ensures Served(status, newStores) == Serve(config, hash, self, active, w, epoch, stores, epochs, outcomes)
  {
    newStores := stores;
    if !active {
      return Fenced, newStores;
    }
    if epoch < config.epoch {
      return StaleEpoch, newStores;
    }
    var shardId := 0;
    if config.totalShards > 0 {
      shardId := hash(w.key) % config.totalShards;
      if shardId !in config.shards || config.shards[shardId].primaryId != self {
        return NotPrimary, newStores;
      }
      var s := config.shards[shardId].status;
      if s.ShardLocked? || s.ShardMigrating? {
        return ShardBusy, newStores;
      }
    }
    var targets := GetReplicas(config, shardId);
    var i := 0;
    while i < |targets|
      invariant 0 <= i <= |targets|
      invariant SendTo(stores, epochs, targets, w, epoch, outcomes, i) == Sent(newStores, true)
    {
      var r := targets[i];
      if outcomes[i].RequestLost? || epoch < EpochOf(epochs, r) {
        StopsSending(stores, epochs, targets, w, epoch, outcomes, i + 1, |targets|);
        return ReplicationFailed, newStores;
      }
      newStores := newStores[r := Apply(StoreOf(newStores, r), w)];
      if outcomes[i].ReplyLost? {
        StopsSending(stores, epochs, targets, w, epoch, outcomes, i + 1, |targets|);
        return ReplicationFailed, newStores;
      }
      i := i + 1;
    }
    newStores := newStores[self := Apply(StoreOf(newStores, self), w)];
    status := Acked;
  }

  lemma {:induction false} StopsSending(stores: map<NodeId, Store>, epochs: map<NodeId, nat>, targets: seq<NodeId>,
                                        w: Write, epoch: nat, outcomes: seq<Outcome>, i: nat, n: nat)
    requires i <= n <= |targets| <= |outcomes|
    requires !SendTo(stores, epochs, targets, w, epoch, outcomes, i).ok
    ensures SendTo(stores, epochs, targets, w, epoch, outcomes, n)
            == SendTo(stores, epochs, targets, w, epoch, outcomes, i)
  {
    if i < n {
      StopsSending(stores, epochs, targets, w, epoch, outcomes, i, n - 1);
    }
  }

  /** What a request does to one store: another key is untouched; the written key is either untouched
      or written; and once every target has answered, each target has it. */
  ghost predicate Spreads(before: map<NodeId, Store>, after: map<NodeId, Store>, w: Write, written: set<NodeId>) {
    forall n, key :: Read(after, n, key) ==
      if key == w.key && n in written then Effect(w) else Read(before, n, key)
  }

  /** The first targets, up to the first failure, are written; after a full success all are. */
  lemma {:induction false} SendSpreads(stores: map<NodeId, Store>, epochs: map<NodeId, nat>, targets: seq<NodeId>,
                                       w: Write, epoch: nat, outcomes: seq<Outcome>, n: nat)
    returns (written: set<NodeId>)
    requires n <= |targets| <= |outcomes|
    ensures Spreads(stores, SendTo(stores, epochs, targets, w, epoch, outcomes, n).stores, w, written)
    ensures written <= Elements(targets[..n])
    ensures SendTo(stores, epochs, targets, w, epoch, outcomes, n).ok ==> written == Elements(targets[..n])
  {
    if n == 0 {
      written := {};
    } else {
      written := SendSpreads(stores, epochs, targets, w, epoch, outcomes, n - 1);
      var before := SendTo(stores, epochs, targets, w, epoch, outcomes, n - 1);
      assert targets[..n] == targets[..n - 1] + [targets[n - 1]];
      if before.ok && Reaches(epochs, targets[n - 1], epoch, outcomes[n - 1]) {
        WriteSpreads(stores, before.stores, w, written, targets[n - 1]);
        written := written + {targets[n - 1]};
      }
    }
  }

  /** The replica answers, and the request is not older than its topology. */
  predicate Confirms(epochs: map<NodeId, nat>, r: NodeId, epoch: nat, outcome: Outcome) {
    outcome == Answered && (r in epochs ==> epochs[r] <= epoch)
  }

  /** The replica at which the write stops has it as well if only its answer was lost. */
  function UnansweredBy(epochs: map<NodeId, nat>, targets: seq<NodeId>, epoch: nat, outcomes: seq<Outcome>, i: nat,
                        n: nat): set<NodeId>
    requires i <= n <= |targets| <= |outcomes|
  {
    if i < n && outcomes[i] == ReplyLost && (targets[i] in epochs ==> epochs[targets[i]] <= epoch) then {targets[i]}
    else {}
  }

  /** The write has reached the first `i` of `n` targets, and the next one if only its answer was lost. */
  ghost predicate SentUntil(stores: map<NodeId, Store>, after: map<NodeId, Store>, epochs: map<NodeId, nat>,
                            targets: seq<NodeId>, w: Write, epoch: nat, outcomes: seq<Outcome>, i: nat, n: nat)
    requires i <= n <= |targets| <= |outcomes|
  {
    Spreads(stores, after, w, Elements(targets[..i]) + UnansweredBy(epochs, targets, epoch, outcomes, i, n))
  }

  lemma SendsOneMore(stores: map<NodeId, Store>, before: map<NodeId, Store>, epochs: map<NodeId, nat>,
                     targets: seq<NodeId>, w: Write, epoch: nat, outcomes: seq<Outcome>, m: nat)
    requires m < |targets| <= |outcomes| && SentUntil(stores, before, epochs, targets, w, epoch, outcomes, m, m)
    ensures var r := targets[m];
            var written := before[r := Apply(StoreOf(before, r), w)];
            && (!Reaches(epochs, r, epoch, outcomes[m]) ==>
                  SentUntil(stores, before, epochs, targets, w, epoch, outcomes, m, m + 1))
            && (Reaches(epochs, r, epoch, outcomes[m]) && outcomes[m] != Answered ==>
                  SentUntil(stores, written, epochs, targets, w, epoch, outcomes, m, m + 1))
            && SentUntil(stores, written, epochs, targets, w, epoch, outcomes, m + 1, m + 1)
  {
    var first, next := Elements(targets[..m]), Elements(targets[..m + 1]);
    assert first + {} == first && next + {} == next;
    assert targets[..m + 1] == targets[..m] + [targets[m]];
    assert next == first + {targets[m]};
    WriteSpreads(stores, before, w, first, targets[m]);
  }

  lemma {:induction false} SendsUntil(stores: map<NodeId, Store>, epochs: map<NodeId, nat>, targets: seq<NodeId>,
                                      w: Write, epoch: nat, outcomes: seq<Outcome>, n: nat)
    returns (i: nat)
    requires n <= |targets| <= |outcomes|
    ensures i <= n && (forall j :: 0 <= j < i ==> Confirms(epochs, targets[j], epoch, outcomes[j]))
    ensures i < n ==> !Confirms(epochs, targets[i], epoch, outcomes[i])
    ensures SendTo(stores, epochs, targets, w, epoch, outcomes, n).ok <==> i == n
    ensures SentUntil(stores, SendTo(stores, epochs, targets, w, epoch, outcomes, n).stores, epochs, targets, w, epoch,
                      outcomes, i, n)
  {
    if n == 0 {
      i := 0;
    } else {
      i := SendsUntil(stores, epochs, targets, w, epoch, outcomes, n - 1);
      if i == n - 1 {
        SendsOneMore(stores, SendTo(stores, epochs, targets, w, epoch, outcomes, n - 1).stores, epochs, targets, w, epoch,
                     outcomes, n - 1);
        i := if Confirms(epochs, targets[n - 1], epoch, outcomes[n - 1]) then n else n - 1;
      }
    }
  }

  /** A write that gets past the checks is acknowledged exactly when every replica with an address confirms it;
      then they and the node itself have it. Otherwise it stops at the first that does not, and those
      before it have it, with that one if only its answer was lost, but not the node itself. */
  lemma AckedIffAllConfirm(config: ClusterConfig, hash: string -> nat, self: NodeId, active: bool, w: Write, epoch: nat,
                           stores: map<NodeId, Store>, epochs: map<NodeId, nat>, outcomes: seq<Outcome>)
    returns (i: nat)
    requires |Targets(config, ShardOf(hash, w.key, config.totalShards))| <= |outcomes|
    requires var status := Serve(config, hash, self, active, w, epoch, stores, epochs, outcomes).status;
             status.Acked? || status.ReplicationFailed?
    ensures var targets := Targets(config, ShardOf(hash, w.key, config.totalShards));
            var r := Serve(config, hash, self, active, w, epoch, stores, epochs, outcomes);
            && i <= |targets| && (forall j :: 0 <= j < i ==> Confirms(epochs, targets[j], epoch, outcomes[j]))
            && (i < |targets| ==> !Confirms(epochs, targets[i], epoch, outcomes[i]))
            && (r.status.Acked? <==> i == |targets|)
            && Spreads(stores, r.stores, w,
                       if i == |targets| then Elements(targets) + {self}
                       else Elements(targets[..i]) + UnansweredBy(epochs, targets, epoch, outcomes, i, |targets|))
  {
    var targets := Targets(config, ShardOf(hash, w.key, config.totalShards));
    var sent := SendTo(stores, epochs, targets, w, epoch, outcomes, |targets|);
    i := SendsUntil(stores, epochs, targets, w, epoch, outcomes, |targets|);
    if i == |targets| {
      assert targets[..i] == targets;
      assert Elements(targets) + {} == Elements(targets);
      WriteSpreads(stores, sent.stores, w, Elements(targets), self);
    }
  }

  lemma WriteSpreads(stores: map<NodeId, Store>, now: map<NodeId, Store>, w: Write, written: set<NodeId>, r: NodeId)
    requires Spreads(stores, now, w, written)
    ensures Spreads(stores, now[r := Apply(StoreOf(now, r), w)], w, written + {r})
  {
    var next := now[r := Apply(StoreOf(now, r), w)];
    forall n, key
      ensures Read(next, n, key) == if key == w.key && n in written + {r} then Effect(w) else Read(stores, n, key)
    {
      if n == r {
        ApplyReads(StoreOf(now, r), w, key);
        assert StoreOf(next, n) == Apply(StoreOf(now, r), w);
        assert Read(now, n, key) == if key == w.key && n in written then Effect(w) else Read(stores, n, key);
      } else {
        assert StoreOf(next, n) == StoreOf(now, n);
        assert Read(next, n, key) == Read(now, n, key);
      }
    }
  }
}
