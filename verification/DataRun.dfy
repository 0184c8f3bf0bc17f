/** Runs of writes and deaths: no acknowledged write is lost by any holder of its shard. */
module DataRun {
  import opened Topology
  import opened DataPlane

  datatype Attempt = Attempt(write: Write, acked: bool)

  /** `configs` are all topologies so far, the last one current; `views[n]` is the one node `n` has
      fetched; `history` lists the writes that passed their checks. */
  datatype Cluster = Cluster(configs: seq<ClusterConfig>, views: map<NodeId, nat>, stores: map<NodeId, Store>,
                             history: seq<Attempt>)

  datatype Event =
    | Dies(dead: NodeId)
    | Fetches(node: NodeId, which: nat)
    | Writes(self: NodeId, active: bool, w: Write, epoch: nat, outcomes: seq<Outcome>)

  // ---------------------------------------------------------------- what a reader may see

  ghost predicate NoAckFrom(history: seq<Attempt>, from: nat, key: string) {
    forall i :: from <= i < |history| ==> !(history[i].acked && history[i].write.key == key)
  }

  ghost predicate LastAt(history: seq<Attempt>, i: int, key: string, v: string) {
    0 <= i < |history| && history[i].write.key == key && Effect(history[i].write) == v && NoAckFrom(history, i + 1, key)
  }

  /** `v` is the effect of the last acknowledged write of `key`, or of a later failed one. */
  ghost predicate CouldBe(history: seq<Attempt>, key: string, v: string) {
    (v == "" && NoAckFrom(history, 0, key)) || exists i :: LastAt(history, i, key, v)
  }

  lemma OtherKeyKeeps(history: seq<Attempt>, a: Attempt, key: string, v: string)
    requires CouldBe(history, key, v) && (a.write.key != key || !a.acked)
    ensures CouldBe(history + [a], key, v)
  {
    if i :| LastAt(history, i, key, v) {
      assert LastAt(history + [a], i, key, v);
    }
  }

  lemma WrittenIsAllowed(history: seq<Attempt>, a: Attempt)
    ensures CouldBe(history + [a], a.write.key, Effect(a.write))
  {
    assert LastAt(history + [a], |history|, a.write.key, Effect(a.write));
  }

  // ---------------------------------------------------------------- steps

  function Current(c: Cluster): ClusterConfig
    requires c.configs != []
  {
    c.configs[|c.configs| - 1]
  }

  /** The topology node `n` acts on. */
  function ViewOf(c: Cluster, n: NodeId): ClusterConfig
    requires n in c.views && c.views[n] < |c.configs|
  {
    c.configs[c.views[n]]
  }

  ghost predicate ViewsExist(c: Cluster) {
    c.configs != [] && forall n :: n in c.views ==> c.views[n] < |c.configs|
  }

  function Epochs(c: Cluster): map<NodeId, nat>
    requires forall n :: n in c.views ==> c.views[n] < |c.configs|
  {
    map n | n in c.views :: c.configs[c.views[n]].epoch
  }

  ghost predicate Enabled(c: Cluster, hash: string -> nat, e: Event) {
    && ViewsExist(c)
    && match e
       case Dies(_) => true
       case Fetches(_, which) => which < |c.configs|
       case Writes(self, _, w, _, outcomes) =>
         self in c.views
         && |Targets(ViewOf(c, self), ShardOf(hash, w.key, ViewOf(c, self).totalShards))| <= |outcomes|
  }

  ghost function WriteResult(c: Cluster, hash: string -> nat, e: Event): Served
    requires e.Writes? && Enabled(c, hash, e)
  {
    Serve(ViewOf(c, e.self), hash, e.self, e.active, e.w, e.epoch, c.stores, Epochs(c), e.outcomes)
  }

  ghost function Next(c: Cluster, hash: string -> nat, e: Event): Cluster
    requires Enabled(c, hash, e)
  {
    match e
    case Dies(dead) => c.(configs := c.configs + [Failover(Current(c), dead)])
    case Fetches(node, which) => c.(views := c.views[node := which])
    case Writes(self, active, w, epoch, outcomes) =>
      Written(c, w, WriteResult(c, hash, e))
  }

  // ---------------------------------------------------------------- the invariant

  ghost predicate IsReplica(config: ClusterConfig, hash: string -> nat, x: NodeId, key: string) {
    var k := ShardOf(hash, key, config.totalShards);
    k in config.shards && x in config.shards[k].replicaIds
  }

  /** Every replica of a shard that some key falls into has an address. */
  ghost predicate ReplicasKnown(config: ClusterConfig, hash: string -> nat) {
    forall key, x :: IsReplica(config, hash, x, key) ==> x in config.nodes
  }

  /** `now` comes from `was` by deaths: it has no new holders. */
  ghost predicate Shrinks(was: ClusterConfig, now: ClusterConfig) {
    && now.totalShards == was.totalShards && now.shards.Keys == was.shards.Keys
    && forall k, x :: k in now.shards && x in Holders(now.shards[k]) ==> x in Holders(was.shards[k])
  }

  ghost predicate ConfigsOk(c: Cluster, hash: string -> nat) {
    && ViewsExist(c) && WellFormedConfig(Current(c))
    && forall i :: 0 <= i < |c.configs| ==>
         Shrinks(c.configs[i], Current(c)) && c.configs[i].totalShards > 0 && ReplicasKnown(c.configs[i], hash)
  }

  /** Every holder of a key's shard has the last acknowledged value, or a later failed one. */
  ghost predicate HoldersAllowed(c: Cluster, hash: string -> nat)
    requires c.configs != []
  {
    forall key, n :: HoldsKey(Current(c), hash, n, key) ==> CouldBe(c.history, key, Read(c.stores, n, key))
  }

  ghost predicate HoldsKey(config: ClusterConfig, hash: string -> nat, n: NodeId, key: string) {
    var k := ShardOf(hash, key, config.totalShards);
    k in config.shards && n in Holders(config.shards[k])
  }

  ghost predicate Inv(c: Cluster, hash: string -> nat) {
    ConfigsOk(c, hash) && HoldersAllowed(c, hash)
  }

  lemma DeathShrinks(config: ClusterConfig, dead: NodeId)
    requires WellFormedConfig(config)
    ensures Shrinks(config, Failover(config, dead))
  {
    var now := Failover(config, dead);
    forall k, x | k in now.shards && x in Holders(now.shards[k])
      ensures x in Holders(config.shards[k])
    {
      DeathIsFilter(config.shards[k], dead);
      MinusMembers(Holders(config.shards[k]), {dead}, x);
    }
  }

  lemma DeathKeepsKnown(config: ClusterConfig, hash: string -> nat, dead: NodeId)
    requires ReplicasKnown(config, hash)
    ensures ReplicasKnown(Failover(config, dead), hash)
  {
    var now := Failover(config, dead);
    forall key, x | IsReplica(now, hash, x, key)
      ensures x in config.nodes
    {
      MinusMembers(config.shards[ShardOf(hash, key, config.totalShards)].replicaIds, {dead}, x);
      assert IsReplica(config, hash, x, key);
    }
  }

  lemma DeathKeeps(c: Cluster, hash: string -> nat, dead: NodeId)
    requires Inv(c, hash)
    ensures Inv(Next(c, hash, Dies(dead)), hash)
  {
    var next, now := Next(c, hash, Dies(dead)), Failover(Current(c), dead);
    FailoverWellFormed(Current(c), dead);
    DeathShrinks(Current(c), dead);
    DeathKeepsKnown(Current(c), hash, dead);
    assert Current(next) == now;
    forall i | 0 <= i < |next.configs|
      ensures Shrinks(next.configs[i], now) && next.configs[i].totalShards > 0 && ReplicasKnown(next.configs[i], hash)
    {
      if i < |c.configs| {
        assert next.configs[i] == c.configs[i];
      }
    }
    forall key, n | HoldsKey(now, hash, n, key)
      ensures CouldBe(next.history, key, Read(next.stores, n, key))
    {
      assert HoldsKey(Current(c), hash, n, key);
    }
  }

  lemma TargetsAreReplicas(config: ClusterConfig, hash: string -> nat, key: string)
    requires ReplicasKnown(config, hash) && ShardOf(hash, key, config.totalShards) in config.shards
    ensures Targets(config, ShardOf(hash, key, config.totalShards))
            == config.shards[ShardOf(hash, key, config.totalShards)].replicaIds
  {
    var replicas := config.shards[ShardOf(hash, key, config.totalShards)].replicaIds;
    assert forall x :: x in replicas ==> IsReplica(config, hash, x, key);
    MinusNothing(replicas, Unknown(config, replicas));
  }

  /** A write that passed its checks reaches the nodes in `written`: on success every current holder
      of the shard, however old the topology the writer used. */
  lemma WriteReaches(c: Cluster, hash: string -> nat, e: Event) returns (written: set<NodeId>)
    requires ConfigsOk(c, hash) && e.Writes? && Enabled(c, hash, e)
    ensures var r := WriteResult(c, hash, e);
            && (r.status == Acked || r.status == ReplicationFailed ==> Spreads(c.stores, r.stores, e.w, written))
            && (r.status == Acked ==> CoversHolders(Current(c), hash, e.w.key, written))
  {
    var view := ViewOf(c, e.self);
    written := {};
    if Check(view, hash, e.self, e.active, e.w, e.epoch) == Acked {
      var k := ShardOf(hash, e.w.key, view.totalShards);
      TargetsAreReplicas(view, hash, e.w.key);
      var targets := Targets(view, k);
      written := SendSpreads(c.stores, Epochs(c), targets, e.w, e.epoch, e.outcomes, |targets|);
      assert targets[..|targets|] == targets;
      var sent := SendTo(c.stores, Epochs(c), targets, e.w, e.epoch, e.outcomes, |targets|);
      if sent.ok {
        WriteSpreads(c.stores, sent.stores, e.w, written, e.self);
        written := written + {e.self};
        forall n | HoldsKey(Current(c), hash, n, e.w.key)
          ensures n in written
        {
          assert n in Holders(view.shards[k]);
        }
      }
    }
  }

  ghost predicate CoversHolders(config: ClusterConfig, hash: string -> nat, key: string, written: set<NodeId>) {
    forall n :: HoldsKey(config, hash, n, key) ==> n in written
  }

  lemma SpreadKeeps(c: Cluster, hash: string -> nat, a: Attempt, stores: map<NodeId, Store>, written: set<NodeId>)
    requires c.configs != [] && HoldersAllowed(c, hash) && Spreads(c.stores, stores, a.write, written)
    requires a.acked ==> CoversHolders(Current(c), hash, a.write.key, written)
    ensures HoldersAllowed(c.(stores := stores, history := c.history + [a]), hash)
  {
    forall key, n | HoldsKey(Current(c), hash, n, key)
      ensures CouldBe(c.history + [a], key, Read(stores, n, key))
    {
      if key == a.write.key && n in written {
        WrittenIsAllowed(c.history, a);
      } else {
        OtherKeyKeeps(c.history, a, key, Read(c.stores, n, key));
      }
    }
  }

  /** What the topologies promise depends on them and on which of them are fetched. */
  lemma ConfigsStayOk(c: Cluster, d: Cluster, hash: string -> nat)
    requires ConfigsOk(c, hash) && d.configs == c.configs && ViewsExist(d)
    ensures ConfigsOk(d, hash)
  {
    forall i | 0 <= i < |d.configs|
      ensures Shrinks(d.configs[i], Current(d)) && d.configs[i].totalShards > 0 && ReplicasKnown(d.configs[i], hash)
    {
      assert Shrinks(c.configs[i], Current(c)) && c.configs[i].totalShards > 0 && ReplicasKnown(c.configs[i], hash);
    }
  }

  /** What the holders have depends on the topology, the caches and the history. */
  lemma HoldersStayAllowed(c: Cluster, d: Cluster, hash: string -> nat)
    requires c.configs != [] && HoldersAllowed(c, hash)
    requires d.configs == c.configs && d.stores == c.stores && d.history == c.history
    ensures HoldersAllowed(d, hash)
  {
  }

  /** What a write does to the cluster. */
  ghost function Written(c: Cluster, w: Write, r: Served): Cluster {
    if r.status == Acked || r.status == ReplicationFailed then
      c.(stores := r.stores, history := c.history + [Attempt(w, r.status == Acked)])
    else c
  }

  lemma WrittenKeeps(c: Cluster, hash: string -> nat, w: Write, r: Served, written: set<NodeId>)
    requires Inv(c, hash)
    requires r.status == Acked || r.status == ReplicationFailed ==> Spreads(c.stores, r.stores, w, written)
    requires r.status == Acked ==> CoversHolders(Current(c), hash, w.key, written)
    ensures Inv(Written(c, w, r), hash)
  {
    if r.status == Acked || r.status == ReplicationFailed {
      SpreadKeeps(c, hash, Attempt(w, r.status == Acked), r.stores, written);
      ConfigsStayOk(c, Written(c, w, r), hash);
    }
  }

  lemma WriteKeeps(c: Cluster, hash: string -> nat, e: Event)
    requires Inv(c, hash) && e.Writes? && Enabled(c, hash, e)
    ensures Inv(Next(c, hash, e), hash)
  {
    var written := WriteReaches(c, hash, e);
    WrittenKeeps(c, hash, e.w, WriteResult(c, hash, e), written);
  }

  lemma FetchKeeps(c: Cluster, hash: string -> nat, node: NodeId, which: nat)
    requires Inv(c, hash) && which < |c.configs|
    ensures Inv(Next(c, hash, Fetches(node, which)), hash)
  {
    var d := Next(c, hash, Fetches(node, which));
    ConfigsStayOk(c, d, hash);
    HoldersStayAllowed(c, d, hash);
  }

  lemma EventKeeps(c: Cluster, hash: string -> nat, e: Event)
    requires Inv(c, hash) && Enabled(c, hash, e)
    ensures Inv(Next(c, hash, e), hash)
  {
    match e
    case Dies(dead) => DeathKeeps(c, hash, dead);
    case Fetches(node, which) => FetchKeeps(c, hash, node, which);
    case Writes(_, _, _, _, _) => WriteKeeps(c, hash, e);
  }

  // ---------------------------------------------------------------- runs

  /** `after` is reached from `c` by `events`. */
  ghost predicate Run(c: Cluster, hash: string -> nat, events: seq<Event>, after: Cluster)
    decreases events
  {
    if events == [] then after == c
    else Enabled(c, hash, events[0]) && Run(Next(c, hash, events[0]), hash, events[1..], after)
  }

  lemma {:induction false} RunKeeps(c: Cluster, hash: string -> nat, events: seq<Event>, after: Cluster)
    requires Inv(c, hash) && Run(c, hash, events, after)
    ensures Inv(after, hash)
    decreases events
  {
    if events != [] {
      EventKeeps(c, hash, events[0]);
      RunKeeps(Next(c, hash, events[0]), hash, events[1..], after);
    }
  }

  /** A cluster with empty caches whose nodes in `fetched` have the topology. */
  function Fresh(config: ClusterConfig, fetched: set<NodeId>): Cluster {
    Cluster([config], map n | n in fetched :: 0, map[], [])
  }

  ghost predicate AllRunsSafe(config: ClusterConfig, fetched: set<NodeId>, hash: string -> nat) {
    forall events, after :: Run(Fresh(config, fetched), hash, events, after) ==>
      after.configs != [] && HoldersAllowed(after, hash)
  }

  lemma RunsAreSafe(config: ClusterConfig, fetched: set<NodeId>, hash: string -> nat)
    requires WellFormedConfig(config) && config.totalShards > 0 && ReplicasKnown(config, hash)
    ensures AllRunsSafe(config, fetched, hash)
  {
    var c := Fresh(config, fetched);
    assert Inv(c, hash);
    forall events, after | Run(c, hash, events, after)
      ensures after.configs != [] && HoldersAllowed(after, hash)
    {
      RunKeeps(c, hash, events, after);
    }
  }

  // ---------------------------------------------------------------- replicas without an address

  lemma {:induction false} SendsAll(stores: map<NodeId, Store>, epochs: map<NodeId, nat>, targets: seq<NodeId>,
                                    w: Write, epoch: nat, outcomes: seq<Outcome>, n: nat)
    requires n <= |targets| <= |outcomes| && (forall i :: 0 <= i < n ==> outcomes[i] == Answered)
    requires forall r :: EpochOf(epochs, r) <= epoch
    ensures SendTo(stores, epochs, targets, w, epoch, outcomes, n).ok
  {
    if n > 0 {
      SendsAll(stores, epochs, targets, w, epoch, outcomes, n - 1);
    }
  }

  /** The run: an unrelated death unlocks the shards, the primary fetches, then writes the key. */
  function LosingCluster(config: ClusterConfig, fetched: set<NodeId>, primary: NodeId): Cluster {
    Cluster([config, Failover(config, NO_NODE)], (map n | n in fetched :: 0)[primary := 1], map[], [])
  }

  lemma LosingStart(config: ClusterConfig, fetched: set<NodeId>, primary: NodeId, hash: string -> nat)
    ensures var c := Fresh(config, fetched);
            && Enabled(c, hash, Dies(NO_NODE))
            && var c' := Next(c, hash, Dies(NO_NODE));
               Enabled(c', hash, Fetches(primary, 1))
               && Next(c', hash, Fetches(primary, 1)) == LosingCluster(config, fetched, primary)
  {
    assert [config] + [Failover(config, NO_NODE)] == [config, Failover(config, NO_NODE)];
  }

  /** The shard of `key` after the unrelated death: same holders, not locked. */
  lemma Unlocked(s: ShardMetadata)
    requires WellFormedShard(s) && s.primaryId != NO_NODE
    ensures FailShard(s, NO_NODE) == s.(status := StatusUnset)
  {
    MinusNothing(s.replicaIds, {NO_NODE});
  }

  /** A write all targets answer is acknowledged and does not touch the other nodes. */
  lemma AckMisses(view: ClusterConfig, hash: string -> nat, self: NodeId, w: Write, epoch: nat,
                  stores: map<NodeId, Store>, epochs: map<NodeId, nat>, outcomes: seq<Outcome>, x: NodeId)
    requires Check(view, hash, self, true, w, epoch) == Acked && (forall r :: EpochOf(epochs, r) <= epoch)
    requires |Targets(view, ShardOf(hash, w.key, view.totalShards))| == |outcomes|
    requires forall i :: 0 <= i < |outcomes| ==> outcomes[i] == Answered
    requires x !in Targets(view, ShardOf(hash, w.key, view.totalShards)) && x != self
    ensures var r := Serve(view, hash, self, true, w, epoch, stores, epochs, outcomes);
            r.status == Acked && Read(r.stores, x, w.key) == Read(stores, x, w.key)
  {
    var targets := Targets(view, ShardOf(hash, w.key, view.totalShards));
    SendsAll(stores, epochs, targets, w, epoch, outcomes, |targets|);
    var sent := SendTo(stores, epochs, targets, w, epoch, outcomes, |targets|);
    var written := SendSpreads(stores, epochs, targets, w, epoch, outcomes, |targets|);
    WriteSpreads(stores, sent.stores, w, written, self);
    assert targets[..|targets|] == targets;
  }

  /** After the unrelated death the primary may write the key at the new epoch, and `x` is not sent
      the write. */
  lemma LosingView(config: ClusterConfig, hash: string -> nat, key: string, x: NodeId)
    requires WellFormedConfig(config) && config.totalShards > 0
    requires IsReplica(config, hash, x, key) && x !in config.nodes
    ensures var k, view := ShardOf(hash, key, config.totalShards), Failover(config, NO_NODE);
            var primary := config.shards[k].primaryId;
            && Check(view, hash, primary, true, Put(key, "1"), view.epoch) == Acked
            && x !in Targets(view, k) && x != primary && HoldsKey(view, hash, x, key)
  {
    var k, view := ShardOf(hash, key, config.totalShards), Failover(config, NO_NODE);
    var s := config.shards[k];
    PrimaryNotReplica(s);
    Unlocked(s);
    MinusMembers(s.replicaIds, Unknown(view, s.replicaIds), x);
  }

  lemma LosingWrite(config: ClusterConfig, fetched: set<NodeId>, hash: string -> nat, key: string, x: NodeId)
    returns (e: Event)
    requires WellFormedConfig(config) && config.totalShards > 0
    requires IsReplica(config, hash, x, key) && x !in config.nodes
    ensures var primary := config.shards[ShardOf(hash, key, config.totalShards)].primaryId;
            var c := LosingCluster(config, fetched, primary);
            e.Writes? && Enabled(c, hash, e) && !HoldersAllowed(Next(c, hash, e), hash)
  {
    var k, view := ShardOf(hash, key, config.totalShards), Failover(config, NO_NODE);
    var primary := config.shards[k].primaryId;
    LosingView(config, hash, key, x);
    var c := LosingCluster(config, fetched, primary);
    var outcomes := seq(|Targets(view, k)|, i => Answered);
    e := Writes(primary, true, Put(key, "1"), view.epoch, outcomes);
    assert ViewOf(c, primary) == view;
    AckMisses(view, hash, primary, Put(key, "1"), view.epoch, c.stores, Epochs(c), outcomes, x);
    NotAllowed(Next(c, hash, e), hash, key, x);
  }

  lemma NotAllowed(c: Cluster, hash: string -> nat, key: string, x: NodeId)
    requires c.configs != [] && HoldsKey(Current(c), hash, x, key)
    requires c.history == [Attempt(Put(key, "1"), true)] && Read(c.stores, x, key) == ""
    ensures !HoldersAllowed(c, hash)
  {
    assert c.history[0].acked;
    assert !CouldBe(c.history, key, Read(c.stores, x, key));
  }

  lemma MissingReplicaLosesWrite(config: ClusterConfig, fetched: set<NodeId>, hash: string -> nat, key: string,
                                 x: NodeId)
    requires WellFormedConfig(config) && config.totalShards > 0
    requires IsReplica(config, hash, x, key) && x !in config.nodes
    ensures !AllRunsSafe(config, fetched, hash)
  {
    var primary := config.shards[ShardOf(hash, key, config.totalShards)].primaryId;
    var c0, c2 := Fresh(config, fetched), LosingCluster(config, fetched, primary);
    var e := LosingWrite(config, fetched, hash, key, x);
    LosingStart(config, fetched, primary, hash);
    RunThree(c0, Next(c0, hash, Dies(NO_NODE)), c2, hash, Dies(NO_NODE), Fetches(primary, 1), e);
  }

  lemma RunThree(c0: Cluster, c1: Cluster, c2: Cluster, hash: string -> nat, e0: Event, e1: Event, e2: Event)
    requires Enabled(c0, hash, e0) && Next(c0, hash, e0) == c1
    requires Enabled(c1, hash, e1) && Next(c1, hash, e1) == c2 && Enabled(c2, hash, e2)
    ensures Run(c0, hash, [e0, e1, e2], Next(c2, hash, e2))
  {
    var c3 := Next(c2, hash, e2);
    RunOne(c2, hash, e2, [], c3);
    RunOne(c1, hash, e1, [e2], c3);
    RunOne(c0, hash, e0, [e1, e2], c3);
    assert [e0] + [e1, e2] == [e0, e1, e2] && [e1] + [e2] == [e1, e2];
  }

  lemma RunOne(c: Cluster, hash: string -> nat, e: Event, rest: seq<Event>, after: Cluster)
    requires Enabled(c, hash, e) && Run(Next(c, hash, e), hash, rest, after)
    ensures Run(c, hash, [e] + rest, after)
  {
    assert ([e] + rest)[1..] == rest;
  }

  /** Failover keeps acknowledged writes: from empty caches, in every run of writes and deaths, with
      nodes acting on any topology they ever fetched, every node that still holds a key's shard has
      the last acknowledged value of the key or that of a later failed attempt, exactly when every
      replica of a used shard has an address in the node map. */
  lemma FailoverKeepsAcknowledgedWritesIff(config: ClusterConfig, fetched: set<NodeId>, hash: string -> nat)
    requires WellFormedConfig(config) && config.totalShards > 0
    ensures AllRunsSafe(config, fetched, hash) <==> ReplicasKnown(config, hash)
  {
    if ReplicasKnown(config, hash) {
      RunsAreSafe(config, fetched, hash);
    } else {
      var key, x :| IsReplica(config, hash, x, key) && x !in config.nodes;
      MissingReplicaLosesWrite(config, fetched, hash, key, x);
    }
  }

  /** A node that never fetched a topology acknowledges any write and tells nobody. */
  lemma UnconfiguredNodeAcksAlone(hash: string -> nat, self: NodeId, w: Write, epoch: nat,
                                  stores: map<NodeId, Store>, epochs: map<NodeId, nat>)
    ensures var r := Serve(ClusterConfig(0, 0, map[], map[]), hash, self, true, w, epoch, stores, epochs, []);
            r.status == Acked && Spreads(stores, r.stores, w, {self})
  {
    WriteSpreads(stores, stores, w, {}, self);
    assert {} + {self} == {self};
  }
}
