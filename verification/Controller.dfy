/** The top-up of primaries and replicas: what it gives each shard, which copies it starts and how it
    spreads the shards without a primary. */
module Controller {
  import opened Arithmetic
  import Quorum
  import opened Topology

  /** A data copy from a primary to a replica that was just added. */
  datatype SyncTask = SyncTask(shardId: int, primaryId: NodeId, replicaId: NodeId)

  predicate IsActive(nodes: map<NodeId, NodeMetadata>, x: NodeId) {
    x in nodes && nodes[x].status == NodeActive
  }

  /** `active` lists the active nodes, each once, in some order. */
  ghost predicate ActiveList(nodes: map<NodeId, NodeMetadata>, active: seq<NodeId>) {
    && Distinct(active) && NO_NODE !in nodes
    && (forall i :: 0 <= i < |active| ==> IsActive(nodes, active[i]))
    && (forall x :: IsActive(nodes, x) ==> x in active)
  }

  /** How many replicas a shard should have. */
  function Desired(activeCount: nat): nat
    requires activeCount > 0
  {
    if activeCount - 1 > 3 then 3 else activeCount - 1
  }

  // ---------------------------------------------------------------- one shard

  function Assign(s: ShardMetadata, active: seq<NodeId>, nodeIndex: nat): ShardMetadata
    requires active != []
  {
    if s.primaryId == NO_NODE then s.(primaryId := active[nodeIndex % |active|], status := ShardActive) else s
  }

  function Inactive(replicas: seq<NodeId>, nodes: map<NodeId, NodeMetadata>): set<NodeId> {
    set x | x in replicas && !IsActive(nodes, x)
  }

  /** The replicas that stay. */
  function Kept(s: ShardMetadata, nodes: map<NodeId, NodeMetadata>): seq<NodeId> {
    Minus(s.replicaIds, Inactive(s.replicaIds, nodes))
  }

  /** The active nodes that do not hold the shard, in order. */
  function Eligible(s: ShardMetadata, active: seq<NodeId>): seq<NodeId> {
    Minus(active, {s.primaryId} + Elements(s.replicaIds))
  }

  function Take(xs: seq<NodeId>, k: int): seq<NodeId> {
    if k <= 0 then [] else if k < |xs| then xs[..k] else xs
  }

  predicate Short(s: ShardMetadata, active: seq<NodeId>)
    requires active != []
  {
    |s.replicaIds| < Desired(|active|)
  }

  /** The replicas a short shard gains. */
  function Added(s: ShardMetadata, nodes: map<NodeId, NodeMetadata>, active: seq<NodeId>): seq<NodeId>
    requires active != []
  {
    if Short(s, active) then Take(Eligible(s, active), Desired(|active|) - |Kept(s, nodes)|) else []
  }

  function Refill(s: ShardMetadata, nodes: map<NodeId, NodeMetadata>, active: seq<NodeId>): ShardMetadata
    requires active != []
  {
    if Short(s, active) then s.(replicaIds := Kept(s, nodes) + Added(s, nodes, active)) else s
  }

  // ---------------------------------------------------------------- counting

  lemma {:induction false} ElementsAtMost(xs: seq<NodeId>)
    ensures |Elements(xs)| <= |xs|
  {
    if xs == [] {
      assert Elements(xs) == {};
    } else {
      var init, last := xs[..|xs| - 1], xs[|xs| - 1];
      ElementsAtMost(init);
      assert xs == init + [last];
      assert Elements(xs) == Elements(init) + {last};
    }
  }

  lemma {:induction false} ElementsOfDistinct(xs: seq<NodeId>)
    requires Distinct(xs)
    ensures |Elements(xs)| == |xs|
  {
    if xs == [] {
      assert Elements(xs) == {};
    } else {
      var init, last := xs[..|xs| - 1], xs[|xs| - 1];
      ElementsOfDistinct(init);
      assert xs == init + [last];
      assert Elements(xs) == Elements(init) + {last};
    }
  }

  /** Every active node is the primary, a kept replica or eligible, so there is room to fill. */
  lemma EnoughEligible(s: ShardMetadata, nodes: map<NodeId, NodeMetadata>, active: seq<NodeId>)
    requires ActiveList(nodes, active)
    ensures |active| <= 1 + |Kept(s, nodes)| + |Eligible(s, active)|
  {
    var kept, eligible := Kept(s, nodes), Eligible(s, active);
    var all := {s.primaryId} + Elements(kept) + Elements(eligible);
    forall x | x in Elements(active)
      ensures x in all
    {
      MinusMembers(active, {s.primaryId} + Elements(s.replicaIds), x);
      MinusMembers(s.replicaIds, Inactive(s.replicaIds, nodes), x);
    }
    Quorum.SubsetSize(Elements(active), all);
    ElementsOfDistinct(active);
    ElementsAtMost(kept);
    ElementsAtMost(eligible);
  }

  lemma DistinctConcat<T>(xs: seq<T>, ys: seq<T>)
    requires Distinct(xs) && Distinct(ys)
    requires forall i, j :: 0 <= i < |xs| && 0 <= j < |ys| ==> xs[i] != ys[j]
    ensures Distinct(xs + ys)
  {
  }

  lemma TakeOf(xs: seq<NodeId>, k: int)
    requires Distinct(xs)
    ensures Distinct(Take(xs, k)) && |Take(xs, k)| <= |xs|
    ensures 0 <= k <= |xs| ==> |Take(xs, k)| == k
    ensures forall x :: x in Take(xs, k) ==> x in xs
  {
  }

  /** `t` is `s` with enough replicas: with fewer than three and fewer than the other active nodes, it
      has exactly the smaller of the two, those of its own that are active first; otherwise its own. */
  ghost predicate Replenished(s: ShardMetadata, t: ShardMetadata, nodes: map<NodeId, NodeMetadata>, active: seq<NodeId>)
    requires active != []
  {
    && WellFormedShard(t)
    && if |s.replicaIds| < 3 && |s.replicaIds| < |active| - 1 then
         && t == s.(replicaIds := t.replicaIds) && |t.replicaIds| == (if |active| - 1 < 3 then |active| - 1 else 3)
         && (forall i :: 0 <= i < |t.replicaIds| ==> IsActive(nodes, t.replicaIds[i]))
         && (forall x :: x in s.replicaIds && IsActive(nodes, x) ==> x in t.replicaIds)
         && (forall i, j :: 0 <= i < j < |t.replicaIds| && t.replicaIds[j] in s.replicaIds ==>
               t.replicaIds[i] in s.replicaIds)
       else t == s
  }

  lemma KeptIsActive(s: ShardMetadata, nodes: map<NodeId, NodeMetadata>)
    requires Distinct(s.replicaIds)
    ensures Distinct(Kept(s, nodes)) && |Kept(s, nodes)| <= |s.replicaIds|
    ensures forall x :: x in Kept(s, nodes) <==> x in s.replicaIds && IsActive(nodes, x)
  {
    var gone := Inactive(s.replicaIds, nodes);
    MinusDistinct(s.replicaIds, gone);
    MinusShorter(s.replicaIds, gone);
    forall x
      ensures x in Minus(s.replicaIds, gone) <==> x in s.replicaIds && IsActive(nodes, x)
    {
      MinusMembers(s.replicaIds, gone, x);
    }
  }

  lemma {:induction false} MinusShorter(xs: seq<NodeId>, gone: set<NodeId>)
    ensures |Minus(xs, gone)| <= |xs|
  {
    if xs != [] {
      MinusShorter(xs[..|xs| - 1], gone);
    }
  }

  lemma AddedIsNew(s: ShardMetadata, nodes: map<NodeId, NodeMetadata>, active: seq<NodeId>)
    requires active != [] && ActiveList(nodes, active)
    ensures Distinct(Added(s, nodes, active))
    ensures forall x :: x in Added(s, nodes, active) ==> IsActive(nodes, x) && x != s.primaryId && x !in s.replicaIds
  {
    var gone := {s.primaryId} + Elements(s.replicaIds);
    MinusDistinct(active, gone);
    TakeOf(Eligible(s, active), Desired(|active|) - |Kept(s, nodes)|);
    forall x | x in Added(s, nodes, active)
      ensures IsActive(nodes, x) && x != s.primaryId && x !in s.replicaIds
    {
      MinusMembers(active, gone, x);
    }
  }

  lemma WellFormedWith(s: ShardMetadata, replicas: seq<NodeId>)
    requires s.primaryId != NO_NODE && s.primaryId !in replicas && NO_NODE !in replicas && Distinct(replicas)
    ensures WellFormedShard(s.(replicaIds := replicas))
  {
    DistinctConcat([s.primaryId], replicas);
  }

  /** A shard that has a primary ends with exactly the smaller of three and the number of other active
      nodes as distinct active replicas if it had fewer, and is left alone if it did not. */
  lemma RefillReplenishes(s: ShardMetadata, nodes: map<NodeId, NodeMetadata>, active: seq<NodeId>)
    requires WellFormedShard(s) && s.primaryId != NO_NODE && active != [] && ActiveList(nodes, active)
    ensures Replenished(s, Refill(s, nodes, active), nodes, active)
  {
    if Short(s, active) {
      PrimaryNotReplica(s);
      var kept, added := Kept(s, nodes), Added(s, nodes, active);
      KeptIsActive(s, nodes);
      AddedIsNew(s, nodes, active);
      EnoughEligible(s, nodes, active);
      MinusDistinct(active, {s.primaryId} + Elements(s.replicaIds));
      TakeOf(Eligible(s, active), Desired(|active|) - |kept|);
      assert forall i :: 0 <= i < |kept| ==> kept[i] in s.replicaIds;
      DistinctConcat(kept, added);
      assert forall x :: x in kept + added ==> x in kept || x in added;
      WellFormedWith(s, kept + added);
    }
  }

  // ---------------------------------------------------------------- all shards

  /** How many of the first `n` shards in `order` have no primary: the value of the node index. */
  function Orphans(shards: map<int, ShardMetadata>, order: seq<int>, n: nat): nat
    requires n <= |order| && forall i :: 0 <= i < |order| ==> order[i] in shards
  {
    if n == 0 then 0
    else Orphans(shards, order, n - 1) + if shards[order[n - 1]].primaryId == NO_NODE then 1 else 0
  }

  /** The shard at place `i` of the iteration once it has a primary. */
  function Assigned(shards: map<int, ShardMetadata>, order: seq<int>, i: nat, active: seq<NodeId>): ShardMetadata
    requires i < |order| && (forall j :: 0 <= j < |order| ==> order[j] in shards) && active != []
  {
    Assign(shards[order[i]], active, Orphans(shards, order, i))
  }

  function NewShards(shards: map<int, ShardMetadata>, order: seq<int>, n: nat, nodes: map<NodeId, NodeMetadata>,
                     active: seq<NodeId>): map<int, ShardMetadata>
    requires n <= |order| && (forall j :: 0 <= j < |order| ==> order[j] in shards) && active != []
  {
    if n == 0 then shards
    else NewShards(shards, order, n - 1, nodes, active)[order[n - 1] :=
           Refill(Assigned(shards, order, n - 1, active), nodes, active)]
  }

  function TasksFor(shardId: int, primaryId: NodeId, added: seq<NodeId>): seq<SyncTask> {
    seq(|added|, i requires 0 <= i < |added| => SyncTask(shardId, primaryId, added[i]))
  }

  function Tasks(shards: map<int, ShardMetadata>, order: seq<int>, n: nat, nodes: map<NodeId, NodeMetadata>,
                 active: seq<NodeId>): seq<SyncTask>
    requires n <= |order| && (forall j :: 0 <= j < |order| ==> order[j] in shards) && active != []
  {
    if n == 0 then []
    else
      var s := Assigned(shards, order, n - 1, active);
      Tasks(shards, order, n - 1, nodes, active) + TasksFor(order[n - 1], s.primaryId, Added(s, nodes, active))
  }

  predicate Lacking(s: ShardMetadata, active: seq<NodeId>)
    requires active != []
  {
    s.primaryId == NO_NODE || Short(s, active)
  }

  predicate NeedsUpdate(config: ClusterConfig, active: seq<NodeId>)
    requires active != []
  {
    exists k | k in config.shards :: Lacking(config.shards[k], active)
  }

  /** The configuration after a top-up that visits the shards in `order`. The nodes and the need for
      an update come from `seen`, read earlier under the lock; the shards are those of `config`. */
  function TopUpFrom(seen: ClusterConfig, config: ClusterConfig, active: seq<NodeId>, order: seq<int>): ClusterConfig
    requires forall j :: 0 <= j < |order| ==> order[j] in config.shards
  {
    if active == [] || !NeedsUpdate(seen, active) then config
    else config.(epoch := config.epoch + 1,
                 shards := NewShards(config.shards, order, |order|, seen.nodes, active))
  }

  function TopUpTasksFrom(seen: ClusterConfig, config: ClusterConfig, active: seq<NodeId>, order: seq<int>): seq<SyncTask>
    requires forall j :: 0 <= j < |order| ==> order[j] in config.shards
  {
    if active == [] || !NeedsUpdate(seen, active) then []
    else Tasks(config.shards, order, |order|, seen.nodes, active)
  }

  /** A top-up in which nothing comes between the reading and the writing. */
  function TopUp(config: ClusterConfig, active: seq<NodeId>, order: seq<int>): ClusterConfig
    requires forall j :: 0 <= j < |order| ==> order[j] in config.shards
  {
    TopUpFrom(config, config, active, order)
  }

  function TopUpTasks(config: ClusterConfig, active: seq<NodeId>, order: seq<int>): seq<SyncTask>
    requires forall j :: 0 <= j < |order| ==> order[j] in config.shards
  {
    TopUpTasksFrom(config, config, active, order)
  }

  lemma {:induction false} NewShardsKeys(shards: map<int, ShardMetadata>, order: seq<int>, n: nat,
                                         nodes: map<NodeId, NodeMetadata>, active: seq<NodeId>)
    requires n <= |order| && (forall j :: 0 <= j < |order| ==> order[j] in shards) && active != []
    ensures NewShards(shards, order, n, nodes, active).Keys == shards.Keys
  {
    if n > 0 {
      NewShardsKeys(shards, order, n - 1, nodes, active);
    }
  }

  /** Each entry of the new map is the old entry, assigned and refilled. */
  lemma {:induction false} NewShardsAt(shards: map<int, ShardMetadata>, order: seq<int>, n: nat,
                                       nodes: map<NodeId, NodeMetadata>, active: seq<NodeId>, j: nat)
    requires j < |order| && n <= |order| && Enumerates(order, shards) && active != []
    ensures order[j] in NewShards(shards, order, n, nodes, active)
    ensures NewShards(shards, order, n, nodes, active)[order[j]]
            == if j < n then Refill(Assigned(shards, order, j, active), nodes, active) else shards[order[j]]
  {
    NewShardsKeys(shards, order, n, nodes, active);
    if n > 0 {
      NewShardsAt(shards, order, n - 1, nodes, active, j);
      assert j != n - 1 ==> order[j] != order[n - 1];
    }
  }

  lemma AssignWellFormed(s: ShardMetadata, nodes: map<NodeId, NodeMetadata>, active: seq<NodeId>, nodeIndex: nat)
    requires WellFormedShard(s) && active != [] && ActiveList(nodes, active)
    ensures WellFormedShard(Assign(s, active, nodeIndex)) && Assign(s, active, nodeIndex).primaryId != NO_NODE
    ensures s.primaryId == NO_NODE ==>
              IsActive(nodes, Assign(s, active, nodeIndex).primaryId) && Assign(s, active, nodeIndex).status == ShardActive
  {
    assert IsActive(nodes, active[nodeIndex % |active|]);
  }

  /** `t` is the shard `s` after a top-up: it has a primary and enough replicas. */
  ghost predicate ToppedUp(s: ShardMetadata, t: ShardMetadata, nodes: map<NodeId, NodeMetadata>, active: seq<NodeId>)
    requires active != []
  {
    && t.primaryId != NO_NODE && t.id == s.id
    && (if s.primaryId == NO_NODE then IsActive(nodes, t.primaryId) && t.status == ShardActive
        else t.primaryId == s.primaryId && t.status == s.status)
    && Replenished(s.(primaryId := t.primaryId, status := t.status), t, nodes, active)
  }

  /** Whatever has happened to the shards since the nodes were read, a top-up that goes ahead gives
      each of them a primary and enough of the nodes that were active then. */
  lemma TopUpFromCorrect(seen: ClusterConfig, config: ClusterConfig, active: seq<NodeId>, order: seq<int>)
    requires WellFormedConfig(config) && Enumerates(order, config.shards)
    requires active != [] && ActiveList(seen.nodes, active) && NeedsUpdate(seen, active)
    ensures TopUpFrom(seen, config, active, order).shards.Keys == config.shards.Keys
    ensures forall k :: k in config.shards ==>
              ToppedUp(config.shards[k], TopUpFrom(seen, config, active, order).shards[k], seen.nodes, active)
  {
    var after := TopUpFrom(seen, config, active, order);
    NewShardsKeys(config.shards, order, |order|, seen.nodes, active);
    forall k | k in config.shards
      ensures ToppedUp(config.shards[k], after.shards[k], seen.nodes, active)
    {
      var j :| 0 <= j < |order| && order[j] == k;
      NewShardsAt(config.shards, order, |order|, seen.nodes, active, j);
      AssignWellFormed(config.shards[k], seen.nodes, active, Orphans(config.shards, order, j));
      RefillReplenishes(Assigned(config.shards, order, j, active), seen.nodes, active);
    }
  }

  /** From a well-formed topology with an active node, a top-up gives every shard a primary (the one
      it had, or else an active node), gives every shard that has fewer the smaller of three and the
      number of other active nodes as distinct active replicas other than its primary, and leaves the
      replicas of the others alone. */
  lemma TopUpCorrect(config: ClusterConfig, active: seq<NodeId>, order: seq<int>)
    requires WellFormedConfig(config) && Enumerates(order, config.shards)
    requires active != [] && ActiveList(config.nodes, active)
    ensures TopUp(config, active, order).shards.Keys == config.shards.Keys
    ensures forall k :: k in config.shards ==>
              ToppedUp(config.shards[k], TopUp(config, active, order).shards[k], config.nodes, active)
  {
    if NeedsUpdate(config, active) {
      TopUpFromCorrect(config, config, active, order);
    } else {
      forall k | k in config.shards
        ensures ToppedUp(config.shards[k], config.shards[k], config.nodes, active)
      {
        assert !Lacking(config.shards[k], active);
        LackingMeans(config.shards[k], active);
      }
    }
  }

  lemma LackingMeans(s: ShardMetadata, active: seq<NodeId>)
    requires active != []
    ensures Lacking(s, active) <==> s.primaryId == NO_NODE || (|s.replicaIds| < 3 && |s.replicaIds| < |active| - 1)
  {
  }

  /** The epoch rises by one exactly when some shard lacked a primary or replicas; otherwise nothing changes. */
  lemma TopUpChangesIff(config: ClusterConfig, active: seq<NodeId>, order: seq<int>)
    requires active != [] && forall j :: 0 <= j < |order| ==> order[j] in config.shards
    ensures var after := TopUp(config, active, order);
            if exists k :: k in config.shards && (config.shards[k].primaryId == NO_NODE ||
                                                  (|config.shards[k].replicaIds| < 3
                                                   && |config.shards[k].replicaIds| < |active| - 1))
            then after == config.(epoch := config.epoch + 1, shards := after.shards)
            else after == config
  {
    forall k | k in config.shards
      ensures Lacking(config.shards[k], active)
              <==> config.shards[k].primaryId == NO_NODE ||
                   (|config.shards[k].replicaIds| < 3 && |config.shards[k].replicaIds| < |active| - 1)
    {
      LackingMeans(config.shards[k], active);
    }
  }

  lemma TopUpKeys(config: ClusterConfig, active: seq<NodeId>, order: seq<int>)
    requires forall j :: 0 <= j < |order| ==> order[j] in config.shards
    ensures TopUp(config, active, order).shards.Keys == config.shards.Keys
  {
    if active != [] {
      NewShardsKeys(config.shards, order, |order|, config.nodes, active);
    }
  }

  lemma NothingLacks(s: ShardMetadata, t: ShardMetadata, nodes: map<NodeId, NodeMetadata>, active: seq<NodeId>,
                     active': seq<NodeId>)
    requires active != [] && |active'| == |active| && ToppedUp(s, t, nodes, active)
    ensures !Lacking(t, active')
  {
  }

  /** A second top-up changes nothing and starts no copies, whatever the two iteration orders. */
  lemma TopUpIsFixpoint(config: ClusterConfig, active: seq<NodeId>, order: seq<int>,
                        active': seq<NodeId>, order': seq<int>)
    requires WellFormedConfig(config) && Enumerates(order, config.shards)
    requires ActiveList(config.nodes, active) && ActiveList(config.nodes, active')
    requires forall j :: 0 <= j < |order'| ==> order'[j] in TopUp(config, active, order).shards
    ensures TopUp(TopUp(config, active, order), active', order') == TopUp(config, active, order)
    ensures TopUpTasks(TopUp(config, active, order), active', order') == []
  {
    SameLength(config.nodes, active, active');
    if active != [] {
      TopUpCorrect(config, active, order);
      var after := TopUp(config, active, order);
      forall k | k in after.shards
        ensures !Lacking(after.shards[k], active')
      {
        NothingLacks(config.shards[k], after.shards[k], config.nodes, active, active');
      }
    }
  }

  lemma SameLength(nodes: map<NodeId, NodeMetadata>, a: seq<NodeId>, b: seq<NodeId>)
    requires ActiveList(nodes, a) && ActiveList(nodes, b)
    ensures |a| == |b|
  {
    ElementsOfDistinct(a);
    ElementsOfDistinct(b);
    assert Elements(a) == Elements(b);
  }

  // ---------------------------------------------------------------- the copies that are started

  /** `t` copies shard `t.shardId` from its new primary to a replica it did not have before. */
  ghost predicate CopiesToNew(before: map<int, ShardMetadata>, after: map<int, ShardMetadata>, t: SyncTask) {
    && t.shardId in before && t.shardId in after
    && t.primaryId == after[t.shardId].primaryId
    && t.replicaId in after[t.shardId].replicaIds && t.replicaId !in before[t.shardId].replicaIds
  }

  ghost predicate IsTaskOf(shards: map<int, ShardMetadata>, order: seq<int>, j: int, nodes: map<NodeId, NodeMetadata>,
                           active: seq<NodeId>, t: SyncTask)
    requires 0 <= j < |order| && (forall i :: 0 <= i < |order| ==> order[i] in shards) && active != []
  {
    var s := Assigned(shards, order, j, active);
    t.shardId == order[j] && t.primaryId == s.primaryId && t.replicaId in Added(s, nodes, active)
  }

  lemma TasksForMembers(shardId: int, primaryId: NodeId, added: seq<NodeId>, t: SyncTask)
    ensures t in TasksFor(shardId, primaryId, added)
            <==> t.shardId == shardId && t.primaryId == primaryId && t.replicaId in added
  {
    var ts := TasksFor(shardId, primaryId, added);
    if t.shardId == shardId && t.primaryId == primaryId && t.replicaId in added {
      var i :| 0 <= i < |added| && added[i] == t.replicaId;
      assert ts[i] == t;
    }
  }

  lemma {:induction false} TasksMembers(shards: map<int, ShardMetadata>, order: seq<int>, n: nat,
                                        nodes: map<NodeId, NodeMetadata>, active: seq<NodeId>, t: SyncTask)
    requires n <= |order| && (forall j :: 0 <= j < |order| ==> order[j] in shards) && active != []
    ensures t in Tasks(shards, order, n, nodes, active)
            <==> exists j :: 0 <= j < n && IsTaskOf(shards, order, j, nodes, active, t)
  {
    if n > 0 {
      TasksMembers(shards, order, n - 1, nodes, active, t);
      var s := Assigned(shards, order, n - 1, active);
      TasksForMembers(order[n - 1], s.primaryId, Added(s, nodes, active), t);
      assert t in TasksFor(order[n - 1], s.primaryId, Added(s, nodes, active))
             <==> IsTaskOf(shards, order, n - 1, nodes, active, t);
    }
  }

  lemma TasksForDistinct(shardId: int, primaryId: NodeId, added: seq<NodeId>)
    requires Distinct(added)
    ensures Distinct(TasksFor(shardId, primaryId, added))
    ensures forall t :: t in TasksFor(shardId, primaryId, added) ==> t.shardId == shardId
  {
  }

  lemma EarlierTasks(shards: map<int, ShardMetadata>, order: seq<int>, n: nat, nodes: map<NodeId, NodeMetadata>,
                     active: seq<NodeId>)
    requires n < |order| && Enumerates(order, shards) && active != []
    ensures forall t :: t in Tasks(shards, order, n, nodes, active) ==> t.shardId != order[n]
  {
    forall t | t in Tasks(shards, order, n, nodes, active)
      ensures t.shardId != order[n]
    {
      TasksMembers(shards, order, n, nodes, active, t);
    }
  }

  lemma {:induction false} TasksDistinct(shards: map<int, ShardMetadata>, order: seq<int>, n: nat,
                                         nodes: map<NodeId, NodeMetadata>, active: seq<NodeId>)
    requires n <= |order| && Enumerates(order, shards) && active != [] && ActiveList(nodes, active)
    ensures Distinct(Tasks(shards, order, n, nodes, active))
  {
    if n > 0 {
      TasksDistinct(shards, order, n - 1, nodes, active);
      EarlierTasks(shards, order, n - 1, nodes, active);
      var s := Assigned(shards, order, n - 1, active);
      AddedIsNew(s, nodes, active);
      TasksForDistinct(order[n - 1], s.primaryId, Added(s, nodes, active));
      DistinctConcat(Tasks(shards, order, n - 1, nodes, active),
                     TasksFor(order[n - 1], s.primaryId, Added(s, nodes, active)));
    }
  }

  lemma RefillAdds(s: ShardMetadata, nodes: map<NodeId, NodeMetadata>, active: seq<NodeId>, x: NodeId)
    requires Distinct(s.replicaIds) && active != [] && ActiveList(nodes, active)
    ensures x in Added(s, nodes, active) <==> x in Refill(s, nodes, active).replicaIds && x !in s.replicaIds
  {
    KeptIsActive(s, nodes);
    AddedIsNew(s, nodes, active);
  }

  /** A top-up starts exactly one copy for each replica it adds, from that shard's primary. */
  lemma OneTaskPerAddedReplica(config: ClusterConfig, active: seq<NodeId>, order: seq<int>)
    requires WellFormedConfig(config) && Enumerates(order, config.shards) && ActiveList(config.nodes, active)
    ensures Distinct(TopUpTasks(config, active, order))
    ensures forall t :: t in TopUpTasks(config, active, order)
                        <==> CopiesToNew(config.shards, TopUp(config, active, order).shards, t)
  {
    if active != [] && NeedsUpdate(config, active) {
      TasksDistinct(config.shards, order, |order|, config.nodes, active);
      forall t
        ensures t in TopUpTasks(config, active, order)
                <==> CopiesToNew(config.shards, TopUp(config, active, order).shards, t)
      {
        TasksMembers(config.shards, order, |order|, config.nodes, active, t);
        NewShardsKeys(config.shards, order, |order|, config.nodes, active);
        if t.shardId in config.shards {
          TaskAt(config, active, order, t);
        }
      }
    }
  }

  lemma TaskAt(config: ClusterConfig, active: seq<NodeId>, order: seq<int>, t: SyncTask)
    requires WellFormedConfig(config) && Enumerates(order, config.shards) && ActiveList(config.nodes, active)
    requires active != [] && NeedsUpdate(config, active) && t.shardId in config.shards
    ensures (exists j :: 0 <= j < |order| && IsTaskOf(config.shards, order, j, config.nodes, active, t))
            <==> CopiesToNew(config.shards, TopUp(config, active, order).shards, t)
  {
    var j :| 0 <= j < |order| && order[j] == t.shardId;
    var before, s := config.shards[order[j]], Assigned(config.shards, order, j, active);
    NewShardsAt(config.shards, order, |order|, config.nodes, active, j);
    assert Distinct(s.replicaIds) by {
      if before.primaryId != NO_NODE {
        PrimaryNotReplica(before);
      }
    }
    RefillAdds(s, config.nodes, active, t.replicaId);
    assert forall i :: 0 <= i < |order| && order[i] == t.shardId ==> i == j;
    assert CopiesToNew(config.shards, TopUp(config, active, order).shards, t)
           <==> IsTaskOf(config.shards, order, j, config.nodes, active, t);
  }

  // ---------------------------------------------------------------- spreading orphans

  /** The shards among the first `n` of `order` that had no primary and now have `x`. */
  ghost function Gained(before: map<int, ShardMetadata>, after: map<int, ShardMetadata>, order: seq<int>, n: nat,
                        x: NodeId): set<int>
    requires n <= |order| && forall i :: 0 <= i < |order| ==> order[i] in before && order[i] in after
  {
    set i | 0 <= i < n && before[order[i]].primaryId == NO_NODE && after[order[i]].primaryId == x :: order[i]
  }

  lemma NextGained(before: map<int, ShardMetadata>, after: map<int, ShardMetadata>, order: seq<int>, n: nat, x: NodeId)
    requires 0 < n <= |order| && Enumerates(order, before) && after.Keys == before.Keys
    ensures |Gained(before, after, order, n, x)|
            == |Gained(before, after, order, n - 1, x)|
               + if before[order[n - 1]].primaryId == NO_NODE && after[order[n - 1]].primaryId == x then 1 else 0
  {
    var last := order[n - 1];
    var more := if before[last].primaryId == NO_NODE && after[last].primaryId == x then {last} else {};
    assert Gained(before, after, order, n, x) == Gained(before, after, order, n - 1, x) + more;
    assert last !in Gained(before, after, order, n - 1, x);
  }

  /** How many of `o` turns go to place `a` of `m`: a full round each, the first `o % m` one more. */
  function Share(o: nat, m: nat, a: nat): nat
    requires m > 0
  {
    o / m + if a < o % m then 1 else 0
  }

  lemma NextShare(o: nat, m: nat, a: nat)
    requires a < m
    ensures Share(o + 1, m, a) == Share(o, m, a) + if a == o % m then 1 else 0
  {
    DivModNext(o, m);
  }

  /** The primary of place `n` of the iteration when it had none. */
  lemma NewPrimaryAt(shards: map<int, ShardMetadata>, order: seq<int>, n: nat,
                     nodes: map<NodeId, NodeMetadata>, active: seq<NodeId>)
    requires n < |order| && Enumerates(order, shards) && active != []
    ensures order[n] in NewShards(shards, order, |order|, nodes, active)
    ensures shards[order[n]].primaryId == NO_NODE ==>
              NewShards(shards, order, |order|, nodes, active)[order[n]].primaryId
              == active[Orphans(shards, order, n) % |active|]
  {
    NewShardsAt(shards, order, |order|, nodes, active, n);
  }

  /** After `n` places each active node has gained its share of the orphans seen. */
  lemma {:induction false} GainedShare(shards: map<int, ShardMetadata>, order: seq<int>, n: nat,
                                       nodes: map<NodeId, NodeMetadata>, active: seq<NodeId>,
                                       after: map<int, ShardMetadata>, a: nat)
    requires n <= |order| && Enumerates(order, shards) && Distinct(active) && a < |active|
    requires after == NewShards(shards, order, |order|, nodes, active) && after.Keys == shards.Keys
    ensures |Gained(shards, after, order, n, active[a])| == Share(Orphans(shards, order, n), |active|, a)
  {
    if n == 0 {
      assert Gained(shards, after, order, 0, active[a]) == {};
      DivModUnique(0, |active|, 0, 0);
    } else {
      GainedShare(shards, order, n - 1, nodes, active, after, a);
      NextGained(shards, after, order, n, active[a]);
      NewPrimaryAt(shards, order, n - 1, nodes, active);
      NextShare(Orphans(shards, order, n - 1), |active|, a);
    }
  }

  /** The shards without a primary are spread evenly: any two active nodes gain the same number of
      them up to one, for every iteration order. */
  lemma OrphansSpreadEvenly(config: ClusterConfig, active: seq<NodeId>, order: seq<int>, x: NodeId, y: NodeId)
    requires Enumerates(order, config.shards) && ActiveList(config.nodes, active) && x in active && y in active
    requires WellFormedConfig(config)
    ensures TopUp(config, active, order).shards.Keys == config.shards.Keys
    ensures |Gained(config.shards, TopUp(config, active, order).shards, order, |order|, x)|
            <= |Gained(config.shards, TopUp(config, active, order).shards, order, |order|, y)| + 1
  {
    TopUpKeys(config, active, order);
    var after := TopUp(config, active, order).shards;
    if NeedsUpdate(config, active) {
      var a :| 0 <= a < |active| && active[a] == x;
      var b :| 0 <= b < |active| && active[b] == y;
      GainedShare(config.shards, order, |order|, config.nodes, active, after, a);
      GainedShare(config.shards, order, |order|, config.nodes, active, after, b);
    } else {
      assert forall k :: k in config.shards ==> !Lacking(config.shards[k], active);
      assert Gained(config.shards, after, order, |order|, x) == {};
    }
  }
}
