/** The controller as an object whose configuration its handlers replace, and what every run of
    joins, deaths, top-ups and moves keeps. Each section under the lock is one atomic step: a top-up
    reads in one and writes in another, and a move checks, locks and completes in three. */
module ControlPlane {
  import opened Arithmetic
  import opened Topology
  import opened Controller

  // ---------------------------------------------------------------- the steps on values

  /** The active nodes, in the order in which the node map is iterated. */
  function Active(nodes: map<NodeId, NodeMetadata>, nodeOrder: seq<NodeId>): seq<NodeId> {
    Minus(nodeOrder, Inactive(nodeOrder, nodes))
  }

  lemma ActiveIsList(nodes: map<NodeId, NodeMetadata>, nodeOrder: seq<NodeId>)
    requires Enumerates(nodeOrder, nodes) && NO_NODE !in nodes
    ensures ActiveList(nodes, Active(nodes, nodeOrder))
  {
    var gone := Inactive(nodeOrder, nodes);
    MinusDistinct(nodeOrder, gone);
    forall x
      ensures x in Minus(nodeOrder, gone) <==> IsActive(nodes, x)
    {
      MinusMembers(nodeOrder, gone, x);
    }
  }

  function Register(config: ClusterConfig, id: NodeId, address: string): ClusterConfig {
    if id in config.nodes then config
    else config.(epoch := config.epoch + 1, nodes := config.nodes[id := NodeMetadata(id, address, NodeActive)])
  }

  function Lock(config: ClusterConfig, shardId: int): ClusterConfig
    requires shardId in config.shards
  {
    config.(epoch := config.epoch + 1,
            shards := config.shards[shardId := config.shards[shardId].(status := ShardLocked)])
  }

  function Retarget(config: ClusterConfig, shardId: int, target: NodeId): ClusterConfig
    requires shardId in config.shards
  {
    config.(epoch := config.epoch + 1,
            shards := config.shards[shardId := config.shards[shardId].(primaryId := target, status := ShardActive)])
  }

  // ---------------------------------------------------------------- the object

  /** One shard of the top-up: the loops over its replicas and over the active nodes. */
  method RefillShard(s: ShardMetadata, shardId: int, nodes: map<NodeId, NodeMetadata>, active: seq<NodeId>)
    returns (t: ShardMetadata, tasks: seq<SyncTask>)
    requires active != []
    ensures t == Refill(s, nodes, active)
    ensures tasks == TasksFor(shardId, s.primaryId, Added(s, nodes, active))
  {
    var desired := |active| - 1;
    if desired > 3 {
      desired := 3;
    }
    t, tasks := s, [];
    if |s.replicaIds| < desired {
      var kept := KeepActive(s.replicaIds, nodes);
      MinusShorter(s.replicaIds, Inactive(s.replicaIds, nodes));
      var added := PickReplicas(s, active, desired - |kept|);
      tasks := seq(|added|, i requires 0 <= i < |added| => SyncTask(shardId, s.primaryId, added[i]));
      t := s.(replicaIds := kept + added);
    }
  }

  method KeepActive(replicas: seq<NodeId>, nodes: map<NodeId, NodeMetadata>) returns (kept: seq<NodeId>)
    ensures kept == Minus(replicas, Inactive(replicas, nodes))
  {
    kept := [];
    for i := 0 to |replicas|
      invariant kept == Minus(replicas[..i], Inactive(replicas, nodes))
    {
      assert replicas[..i + 1][..i] == replicas[..i];
      if replicas[i] in nodes && nodes[replicas[i]].status == NodeActive {
        kept := kept + [replicas[i]];
      }
    }
    assert replicas[..|replicas|] == replicas;
  }

  /** The first `room` active nodes that do not hold the shard. */
  method PickReplicas(s: ShardMetadata, active: seq<NodeId>, room: nat) returns (added: seq<NodeId>)
    requires room > 0
    ensures added == Take(Eligible(s, active), room)
  {
    var existing := {};
    for i := 0 to |s.replicaIds|
      invariant existing == Elements(s.replicaIds[..i])
    {
      existing := existing + {s.replicaIds[i]};
    }
    assert s.replicaIds[..|s.replicaIds|] == s.replicaIds;
    ghost var gone := {s.primaryId} + existing;
    added := [];
    var i := 0;
    while i < |active| && |added| < room
      invariant 0 <= i <= |active|
      invariant added == Minus(active[..i], gone) && |added| <= room
    {
      assert active[..i + 1][..i] == active[..i];
      if active[i] != s.primaryId && active[i] !in existing {
        added := added + [active[i]];
      }
      i := i + 1;
    }
    assert active == active[..i] + active[i..];
    MinusOfConcat(active[..i], active[i..], gone);
    if i == |active| {
      assert active[..i] == active;
    }
  }

  /** A shard without a primary takes the next node. */
  method AssignPrimary(s: ShardMetadata, active: seq<NodeId>, nodeIndex: nat) returns (t: ShardMetadata, next: nat)
    requires active != []
    ensures t == Assign(s, active, nodeIndex)
    ensures next == nodeIndex + if s.primaryId == NO_NODE then 1 else 0
  {
    t, next := s, nodeIndex;
    if s.primaryId == NO_NODE {
      t := s.(primaryId := active[nodeIndex % |active|], status := ShardActive);
      next := nodeIndex + 1;
    }
  }

  /** The loop over the shard map, handing out primaries round robin. */
  method TopUpShards(shards: map<int, ShardMetadata>, order: seq<int>, nodes: map<NodeId, NodeMetadata>,
                     active: seq<NodeId>)
    returns (newShards: map<int, ShardMetadata>, tasks: seq<SyncTask>)
    requires Enumerates(order, shards) && active != []
    ensures newShards == NewShards(shards, order, |order|, nodes, active)
    ensures tasks == Tasks(shards, order, |order|, nodes, active)
  {
    newShards, tasks := shards, [];
    var nodeIndex := 0;
    for n := 0 to |order|
      invariant newShards == NewShards(shards, order, n, nodes, active)
      invariant tasks == Tasks(shards, order, n, nodes, active)
      invariant nodeIndex == Orphans(shards, order, n)
    {
      NewShardsAt(shards, order, n, nodes, active, n);
      var shard;
      shard, nodeIndex := AssignPrimary(newShards[order[n]], active, nodeIndex);
      var refilled, started := RefillShard(shard, order[n], nodes, active);
      newShards := newShards[order[n] := refilled];
      tasks := tasks + started;
    }
  }

  method FindUpdate(config: ClusterConfig, order: seq<int>, active: seq<NodeId>) returns (needed: bool)
    requires Enumerates(order, config.shards) && active != []
    ensures needed <==> NeedsUpdate(config, active)
  {
    for n := 0 to |order|
      invariant forall j :: 0 <= j < n ==> !Lacking(config.shards[order[j]], active)
    {
      var k := order[n];
      var shard := config.shards[k];
      if shard.primaryId == NO_NODE || |shard.replicaIds| < Desired(|active|) {
        assert Lacking(config.shards[k], active);
        return true;
      }
    }
    needed := false;
    forall k | k in config.shards
      ensures !Lacking(config.shards[k], active)
    {
      var j :| 0 <= j < |order| && order[j] == k;
    }
  }

  class ControllerServer {
    var config: ClusterConfig

    constructor ()
      ensures config == NewCluster(10)
    {
      new;
      config := NewClusterConfig(10);
    }

    method ApplyRegisterNode(id: NodeId, address: string)
      modifies this
      ensures config == Register(old(config), id, address)
    {
      if id in config.nodes {
        return;
      }
      var newNodes := config.nodes[id := NodeMetadata(id, address, NodeActive)];
      config := config.(epoch := config.epoch + 1, nodes := newNodes);
    }

    method HandleNodeFailure(dead: NodeId, order: seq<int>)
      requires Enumerates(order, config.shards)
      modifies this
      ensures config == Failover(old(config), dead)
    {
      config := Rebalance(config, order, dead);
    }

    /** The first half of a top-up, which only reads. */
    method ScanTopology(nodeOrder: seq<NodeId>, shardOrder: seq<int>)
      returns (seen: ClusterConfig, active: seq<NodeId>, needed: bool)
      requires Enumerates(nodeOrder, config.nodes) && Enumerates(shardOrder, config.shards)
      ensures seen == config && active == Active(config.nodes, nodeOrder)
      ensures needed <==> active != [] && NeedsUpdate(config, active)
    {
      seen := config;
      active := KeepActive(nodeOrder, seen.nodes);
      if |active| == 0 {
        return seen, active, false;
      }
      needed := FindUpdate(seen, shardOrder, active);
    }

    /** The second half, on whatever the configuration is by then. */
    method ApplyTopUp(seen: ClusterConfig, active: seq<NodeId>, shardOrder: seq<int>) returns (tasks: seq<SyncTask>)
      requires active != [] && NeedsUpdate(seen, active) && Enumerates(shardOrder, config.shards)
      modifies this
      ensures config == TopUpFrom(seen, old(config), active, shardOrder)
      ensures tasks == TopUpTasksFrom(seen, old(config), active, shardOrder)
    {
      var newShards;
      newShards, tasks := TopUpShards(config.shards, shardOrder, seen.nodes, active);
      config := config.(shards := newShards, epoch := config.epoch + 1);
    }

    /** Both halves with nothing in between. */
    method RebalanceShards(nodeOrder: seq<NodeId>, shardOrder: seq<int>) returns (tasks: seq<SyncTask>)
      requires Enumerates(nodeOrder, config.nodes) && Enumerates(shardOrder, config.shards)
      modifies this
      ensures config == TopUp(old(config), Active(old(config).nodes, nodeOrder), shardOrder)
      ensures tasks == TopUpTasks(old(config), Active(old(config).nodes, nodeOrder), shardOrder)
    {
      var seen, active, needed := ScanTopology(nodeOrder, shardOrder);
      if !needed {
        return [];
      }
      tasks := ApplyTopUp(seen, active, shardOrder);
    }

    /** Applying a broadcast or restored configuration. */
    method ApplyUpdateTopology(sent: ClusterConfig)
      modifies this
      ensures config == sent
    {
      config := sent;
    }

    /** A move begins with checks and a first copy, locks the shard, copies again and completes; the
        lock is not held during the copies. */
    method BeginMove(shardId: int, target: NodeId) returns (ok: bool)
      ensures ok <==>
              shardId in config.shards && config.shards[shardId].primaryId in config.nodes && target in config.nodes
    {
      if shardId !in config.shards {
        return false;
      }
      var source := config.shards[shardId].primaryId;
      ok := source in config.nodes && target in config.nodes;
    }

    method LockForMove(shardId: int)
      requires shardId in config.shards
      modifies this
      ensures config == Lock(old(config), shardId)
    {
      var shardMeta := config.shards[shardId].(status := ShardLocked);
      config := config.(shards := config.shards[shardId := shardMeta], epoch := config.epoch + 1);
    }

    method CompleteMove(shardId: int, target: NodeId)
      requires shardId in config.shards
      modifies this
      ensures config == Retarget(old(config), shardId, target)
    {
      var shardMeta := config.shards[shardId].(primaryId := target, status := ShardActive);
      config := config.(shards := config.shards[shardId := shardMeta], epoch := config.epoch + 1);
    }
  }

  // ---------------------------------------------------------------- runs

  function NewCluster(numShards: nat): ClusterConfig {
    ClusterConfig(0, numShards, map[], map i: int | 0 <= i < numShards :: EmptyShard(i))
  }

  /** Well formed, and only live registered nodes hold the shard. */
  ghost predicate SoundShard(nodes: map<NodeId, NodeMetadata>, s: ShardMetadata) {
    WellFormedShard(s) && forall x :: x in Holders(s) ==> IsActive(nodes, x)
  }

  ghost predicate Sound(config: ClusterConfig) {
    && NO_NODE !in config.nodes
    && forall k :: k in config.shards ==> SoundShard(config.nodes, config.shards[k])
  }

  /** Completing a move, whatever has happened since it began, keeps the topology sound exactly when
      the target is by then a live node that is not a replica of the shard. */
  lemma MoveSoundIff(config: ClusterConfig, shardId: int, target: NodeId)
    requires Sound(config) && shardId in config.shards && target in config.nodes
    ensures Sound(Retarget(config, shardId, target))
            <==> IsActive(config.nodes, target) && target !in config.shards[shardId].replicaIds
  {
    var s, after := config.shards[shardId], Retarget(config, shardId, target);
    var t := after.shards[shardId];
    assert Holders(t) == [target] + s.replicaIds;
    assert target in Holders(t);
    if target in s.replicaIds {
      var i :| 0 <= i < |s.replicaIds| && s.replicaIds[i] == target;
      assert Holders(t)[0] == Holders(t)[i + 1];
      assert !SoundShard(after.nodes, t);
    } else if IsActive(config.nodes, target) {
      RetargetSound(config.nodes, s, target);
    } else {
      assert !SoundShard(after.nodes, t);
    }
  }

  lemma RetargetSound(nodes: map<NodeId, NodeMetadata>, s: ShardMetadata, target: NodeId)
    requires SoundShard(nodes, s) && IsActive(nodes, target) && target !in s.replicaIds && target != NO_NODE
    ensures SoundShard(nodes, s.(primaryId := target, status := ShardActive))
  {
    if s.primaryId != NO_NODE {
      PrimaryNotReplica(s);
    }
    DistinctConcat([target], s.replicaIds);
    assert forall x :: x in s.replicaIds ==> x in Holders(s);
    assert forall x :: x in [target] + s.replicaIds ==> x == target || x in s.replicaIds;
  }

  /** The death of the target between the locking and the completion of a move. */
  lemma DeathDuringMoveBreaks(config: ClusterConfig, shardId: int, target: NodeId)
    requires Sound(config) && shardId in config.shards && target in config.nodes
    ensures !Sound(Retarget(Failover(Lock(config, shardId), target), shardId, target))
  {
    ChangeKeepsSound(config, LockShard(shardId));
    var locked := Lock(config, shardId);
    ChangeKeepsSound(locked, Death(target));
    MoveSoundIff(Failover(locked, target), shardId, target);
  }

  /** The nodes given to a shard, its primary included, are live. `s` has its primary already. */
  ghost predicate PickLive(s: ShardMetadata, seen: map<NodeId, NodeMetadata>, active: seq<NodeId>,
                           nodes: map<NodeId, NodeMetadata>)
    requires active != []
  {
    IsActive(nodes, s.primaryId) && forall x :: x in Added(s, seen, active) ==> IsActive(nodes, x)
  }

  /** The nodes a top-up is about to give out are still live when it writes. */
  ghost predicate PicksLive(seen: ClusterConfig, config: ClusterConfig, active: seq<NodeId>, order: seq<int>)
    requires active != [] && Enumerates(order, config.shards)
  {
    forall i :: 0 <= i < |order| ==> PickLive(Assigned(config.shards, order, i, active), seen.nodes, active, config.nodes)
  }

  /** Every node that was active in `seen` still is. */
  ghost predicate StillLive(seen: map<NodeId, NodeMetadata>, nodes: map<NodeId, NodeMetadata>) {
    forall x :: IsActive(seen, x) ==> IsActive(nodes, x)
  }

  /** No shard lacks a primary or replicas. */
  ghost predicate Served(config: ClusterConfig, active: seq<NodeId>) {
    active != [] ==> forall k :: k in config.shards ==> !Lacking(config.shards[k], active)
  }

  datatype Change =
    | Join(id: NodeId, address: string)
    | Death(dead: NodeId)
    | Balance(seen: ClusterConfig, nodeOrder: seq<NodeId>, shardOrder: seq<int>)
    | LockShard(lockedId: int)
    | Complete(shardId: int, target: NodeId)

  /** Registration refuses the empty name, and maps are iterated in some order. A top-up writes while
      the nodes it read as active still are, or when no shard lacks anything by then; a move completes
      while its target is a live node that is not a replica. Other changes may come between the
      halves of both. */
  ghost predicate Enabled(config: ClusterConfig, c: Change) {
    match c
    case Join(id, _) => id != NO_NODE
    case Death(_) => true
    case Balance(seen, nodeOrder, shardOrder) =>
      && Enumerates(nodeOrder, seen.nodes) && Enumerates(shardOrder, config.shards) && NO_NODE !in seen.nodes
      && (StillLive(seen.nodes, config.nodes) || Served(config, Active(seen.nodes, nodeOrder)))
    case LockShard(id) => id in config.shards
    case Complete(id, target) =>
      id in config.shards && IsActive(config.nodes, target) && target !in config.shards[id].replicaIds
  }

  ghost function Next(config: ClusterConfig, c: Change): ClusterConfig
    requires Enabled(config, c)
  {
    match c
    case Join(id, address) => Register(config, id, address)
    case Death(dead) => Failover(config, dead)
    case Balance(seen, nodeOrder, shardOrder) => TopUpFrom(seen, config, Active(seen.nodes, nodeOrder), shardOrder)
    case LockShard(id) => Lock(config, id)
    case Complete(id, target) => Retarget(config, id, target)
  }

  /** No shard appears or goes, the epoch does not fall, and the dead stay dead. */
  ghost predicate Evolves(a: ClusterConfig, b: ClusterConfig) {
    && a.epoch <= b.epoch && a.totalShards == b.totalShards && a.shards.Keys == b.shards.Keys
    && (a != b ==> a.epoch < b.epoch)
    && forall x :: x in a.nodes ==> x in b.nodes && (a.nodes[x].status == NodeDead ==> b.nodes[x].status == NodeDead)
  }

  lemma JoinSound(nodes: map<NodeId, NodeMetadata>, s: ShardMetadata, id: NodeId, joined: NodeMetadata)
    requires SoundShard(nodes, s) && id !in nodes
    ensures SoundShard(nodes[id := joined], s)
  {
  }

  lemma DeathSound(nodes: map<NodeId, NodeMetadata>, s: ShardMetadata, dead: NodeId)
    requires SoundShard(nodes, s)
    ensures SoundShard(FailNodes(nodes, dead), FailShard(s, dead))
  {
    DeathIsFilter(s, dead);
    forall x | x in Minus(Holders(s), {dead})
      ensures IsActive(FailNodes(nodes, dead), x)
    {
      MinusMembers(Holders(s), {dead}, x);
    }
  }

  lemma RefillHolders(s: ShardMetadata, seen: map<NodeId, NodeMetadata>, active: seq<NodeId>, x: NodeId)
    requires WellFormedShard(s) && s.primaryId != NO_NODE && active != [] && ActiveList(seen, active)
    ensures x in Holders(Refill(s, seen, active)) ==> x == s.primaryId || x in s.replicaIds || x in Added(s, seen, active)
    ensures x == s.primaryId || x in Added(s, seen, active) ==> x in Holders(Refill(s, seen, active))
  {
    PrimaryNotReplica(s);
    KeptIsActive(s, seen);
    var t := Refill(s, seen, active);
    assert Holders(t)[0] == s.primaryId;
    assert x in Holders(t) <==> x == s.primaryId || x in t.replicaIds;
  }

  /** Topping up a sound shard leaves it sound exactly when the nodes it is given are live. */
  lemma RefillSoundIff(s: ShardMetadata, seen: map<NodeId, NodeMetadata>, active: seq<NodeId>,
                       nodes: map<NodeId, NodeMetadata>, nodeIndex: nat)
    requires SoundShard(nodes, s) && active != [] && ActiveList(seen, active)
    ensures var given := Assign(s, active, nodeIndex);
            SoundShard(nodes, Refill(given, seen, active)) <==> PickLive(given, seen, active, nodes)
  {
    var given := Assign(s, active, nodeIndex);
    AssignWellFormed(s, seen, active, nodeIndex);
    RefillReplenishes(given, seen, active);
    assert forall x :: x in s.replicaIds ==> x in Holders(s);
    forall x
      ensures x in Holders(Refill(given, seen, active)) ==>
                x == given.primaryId || x in s.replicaIds || x in Added(given, seen, active)
      ensures x == given.primaryId || x in Added(given, seen, active) ==> x in Holders(Refill(given, seen, active))
    {
      RefillHolders(given, seen, active, x);
    }
  }

  /** Along one pair of orders, a top-up that goes ahead keeps the topology sound exactly when the nodes
      it gives out are live. */
  lemma PicksSoundIff(seen: ClusterConfig, config: ClusterConfig, active: seq<NodeId>, order: seq<int>)
    requires Sound(config) && Enumerates(order, config.shards)
    requires active != [] && ActiveList(seen.nodes, active) && NeedsUpdate(seen, active)
    ensures Sound(TopUpFrom(seen, config, active, order)) <==> PicksLive(seen, config, active, order)
  {
    var after := TopUpFrom(seen, config, active, order);
    NewShardsKeys(config.shards, order, |order|, seen.nodes, active);
    forall i | 0 <= i < |order|
      ensures SoundShard(config.nodes, after.shards[order[i]])
              <==> PickLive(Assigned(config.shards, order, i, active), seen.nodes, active, config.nodes)
    {
      SoundAt(config, order[i]);
      NewShardsAt(config.shards, order, |order|, seen.nodes, active, i);
      RefillSoundIff(config.shards[order[i]], seen.nodes, active, config.nodes, Orphans(config.shards, order, i));
    }
    SoundOver(after, order);
  }

  lemma SoundAt(config: ClusterConfig, k: int)
    requires Sound(config) && k in config.shards
    ensures SoundShard(config.nodes, config.shards[k])
  {
  }

  lemma SoundOver(config: ClusterConfig, order: seq<int>)
    requires Enumerates(order, config.shards) && NO_NODE !in config.nodes
    ensures Sound(config) <==> forall i :: 0 <= i < |order| ==> SoundShard(config.nodes, config.shards[order[i]])
  {
    if Sound(config) {
      forall i | 0 <= i < |order|
        ensures SoundShard(config.nodes, config.shards[order[i]])
      {
        SoundAt(config, order[i]);
      }
    }
  }

  /** If the nodes read as active still are, or nothing is lacking, the nodes given out are live. */
  lemma PicksAreLive(seen: ClusterConfig, config: ClusterConfig, active: seq<NodeId>, order: seq<int>)
    requires Sound(config) && active != [] && ActiveList(seen.nodes, active) && Enumerates(order, config.shards)
    requires StillLive(seen.nodes, config.nodes) || Served(config, active)
    ensures PicksLive(seen, config, active, order)
  {
    forall i | 0 <= i < |order|
      ensures PickLive(Assigned(config.shards, order, i, active), seen.nodes, active, config.nodes)
    {
      SoundAt(config, order[i]);
      var k, s := order[i], config.shards[order[i]];
      assert s.primaryId != NO_NODE ==> Holders(s)[0] == s.primaryId;
      if StillLive(seen.nodes, config.nodes) {
        AssignWellFormed(s, seen.nodes, active, Orphans(config.shards, order, i));
        AddedIsNew(Assigned(config.shards, order, i, active), seen.nodes, active);
      } else {
        assert k in config.shards && !Lacking(config.shards[k], active);
      }
    }
  }

  lemma BalanceSound(seen: ClusterConfig, config: ClusterConfig, active: seq<NodeId>, order: seq<int>)
    requires Sound(config) && ActiveList(seen.nodes, active) && Enumerates(order, config.shards)
    requires StillLive(seen.nodes, config.nodes) || Served(config, active)
    ensures Sound(TopUpFrom(seen, config, active, order)) && Evolves(config, TopUpFrom(seen, config, active, order))
  {
    if active != [] && NeedsUpdate(seen, active) {
      PicksAreLive(seen, config, active, order);
      PicksSoundIff(seen, config, active, order);
      NewShardsKeys(config.shards, order, |order|, seen.nodes, active);
    }
  }

  /** A dead node that heads the list is the first to be added to a short shard. */
  lemma DeadHeadAdded(s: ShardMetadata, seen: map<NodeId, NodeMetadata>, active: seq<NodeId>,
                      nodes: map<NodeId, NodeMetadata>)
    requires SoundShard(nodes, s) && s.primaryId != NO_NODE && active != [] && Short(s, active)
    requires !IsActive(nodes, active[0])
    ensures active[0] in Added(s, seen, active)
  {
    var x, gone := active[0], {s.primaryId} + Elements(s.replicaIds);
    assert Holders(s)[0] == s.primaryId;
    assert forall y :: y in s.replicaIds ==> y in Holders(s);
    assert x !in gone;
    assert active == [x] + active[1..];
    MinusOfCons(x, active[1..], gone);
    MinusShorter(s.replicaIds, Inactive(s.replicaIds, seen));
    assert Eligible(s, active)[0] == x;
  }

  /** A top-up whose list of active nodes is headed by a dead one breaks the topology whenever some
      shard lacks a primary or replicas, whatever the order of the shards. */
  lemma DeadHeadBreaks(seen: ClusterConfig, config: ClusterConfig, active: seq<NodeId>, order: seq<int>, k: int)
    requires Sound(config) && active != [] && ActiveList(seen.nodes, active) && Enumerates(order, config.shards)
    requires NeedsUpdate(seen, active) && !IsActive(config.nodes, active[0])
    requires k in config.shards && Lacking(config.shards[k], active)
    ensures !Sound(TopUpFrom(seen, config, active, order))
  {
    var after := TopUpFrom(seen, config, active, order);
    if config.shards[k].primaryId == NO_NODE {
      assert IsActive(seen.nodes, active[0]);
      var first := FirstOrphanGets(config.shards, order, seen.nodes, active, k);
      DeadPrimaryUnsound(after.nodes, after.shards[first]);
    } else {
      var i :| 0 <= i < |order| && order[i] == k;
      DeadHeadAdded(config.shards[k], seen.nodes, active, config.nodes);
      PicksSoundIff(seen, config, active, order);
      assert !PickLive(Assigned(config.shards, order, i, active), seen.nodes, active, config.nodes);
    }
  }

  /** The death of the first node listed, between the halves of a top-up, breaks the topology whenever
      some shard lacks a primary or replicas. */
  lemma DeathDuringTopUpBreaks(config: ClusterConfig, active: seq<NodeId>, order: seq<int>, k: int)
    requires Sound(config) && active != [] && ActiveList(config.nodes, active) && Enumerates(order, config.shards)
    requires k in config.shards && Lacking(config.shards[k], active)
    ensures Enumerates(order, Failover(config, active[0]).shards)
    ensures !Sound(TopUpFrom(config, Failover(config, active[0]), active, order))
  {
    var dead := Failover(config, active[0]);
    assert IsActive(config.nodes, active[0]);
    ChangeKeepsSound(config, Death(active[0]));
    MinusShorter(config.shards[k].replicaIds, {active[0]});
    assert Lacking(dead.shards[k], active);
    DeadHeadBreaks(config, dead, active, order, k);
  }

  lemma HeadedEnumerates(nodes: map<NodeId, NodeMetadata>, nodeOrder: seq<NodeId>, x: NodeId)
    requires Enumerates(nodeOrder, nodes) && x in nodes
    ensures Enumerates([x] + Minus(nodeOrder, {x}), nodes)
  {
    var rest := Minus(nodeOrder, {x});
    MinusDistinct(nodeOrder, {x});
    forall y
      ensures y in rest <==> y in nodes && y != x
    {
      MinusMembers(nodeOrder, {x}, y);
    }
    assert forall i :: 0 <= i < |rest| ==> rest[i] in rest;
    DistinctConcat([x], rest);
  }

  /** Some order of the nodes puts a given active one first. */
  lemma HeadedBy(nodes: map<NodeId, NodeMetadata>, nodeOrder: seq<NodeId>, x: NodeId) returns (headed: seq<NodeId>)
    requires Enumerates(nodeOrder, nodes) && IsActive(nodes, x)
    ensures Enumerates(headed, nodes) && Active(nodes, headed) != [] && Active(nodes, headed)[0] == x
  {
    var rest := Minus(nodeOrder, {x});
    headed := [x] + rest;
    HeadedEnumerates(nodes, nodeOrder, x);
    MinusOfCons(x, rest, Inactive(headed, nodes));
  }

  /** The topology stays sound whatever the orders in which the two maps are iterated. */
  ghost predicate SoundInEveryOrder(seen: ClusterConfig, config: ClusterConfig) {
    forall nodeOrder, shardOrder :: Enumerates(nodeOrder, seen.nodes) && Enumerates(shardOrder, config.shards) ==>
      Sound(TopUpFrom(seen, config, Active(seen.nodes, nodeOrder), shardOrder))
  }

  lemma StaysSound(seen: ClusterConfig, config: ClusterConfig, active: seq<NodeId>)
    requires Sound(config) && NO_NODE !in seen.nodes && ActiveList(seen.nodes, active)
    requires StillLive(seen.nodes, config.nodes) || Served(config, active)
    ensures SoundInEveryOrder(seen, config)
  {
    forall nodeOrder, shardOrder | Enumerates(nodeOrder, seen.nodes) && Enumerates(shardOrder, config.shards)
      ensures Sound(TopUpFrom(seen, config, Active(seen.nodes, nodeOrder), shardOrder))
    {
      ActiveIsList(seen.nodes, nodeOrder);
      SameLength(seen.nodes, active, Active(seen.nodes, nodeOrder));
      BalanceSound(seen, config, Active(seen.nodes, nodeOrder), shardOrder);
    }
  }

  /** A top-up that goes ahead keeps the topology sound, for every iteration order and whatever has
      happened since it read the nodes, exactly when every node it read as active still is, or no
      shard lacks a primary or replicas by then. */
  lemma TopUpSoundIff(seen: ClusterConfig, config: ClusterConfig, nodeOrder: seq<NodeId>, shardOrder: seq<int>)
    requires Sound(config) && NO_NODE !in seen.nodes
    requires Enumerates(nodeOrder, seen.nodes) && Enumerates(shardOrder, config.shards)
    requires Active(seen.nodes, nodeOrder) != [] && NeedsUpdate(seen, Active(seen.nodes, nodeOrder))
    ensures SoundInEveryOrder(seen, config)
            <==> StillLive(seen.nodes, config.nodes) || Served(config, Active(seen.nodes, nodeOrder))
  {
    var active := Active(seen.nodes, nodeOrder);
    ActiveIsList(seen.nodes, nodeOrder);
    if StillLive(seen.nodes, config.nodes) || Served(config, active) {
      StaysSound(seen, config, active);
    } else {
      var x :| IsActive(seen.nodes, x) && !IsActive(config.nodes, x);
      var k :| k in config.shards && Lacking(config.shards[k], active);
      var headed := HeadedBy(seen.nodes, nodeOrder, x);
      ActiveIsList(seen.nodes, headed);
      SameLength(seen.nodes, active, Active(seen.nodes, headed));
      var l :| l in seen.shards && Lacking(seen.shards[l], active);
      assert Lacking(seen.shards[l], Active(seen.nodes, headed));
      DeadHeadBreaks(seen, config, Active(seen.nodes, headed), shardOrder, k);
    }
  }

  lemma JoinOrDeathSound(config: ClusterConfig, c: Change)
    requires Sound(config) && Enabled(config, c) && (c.Join? || c.Death?)
    ensures Sound(Next(config, c)) && Evolves(config, Next(config, c))
  {
    forall k | k in config.shards
      ensures SoundShard(Next(config, c).nodes, Next(config, c).shards[k])
    {
      if c.Death? {
        DeathSound(config.nodes, config.shards[k], c.dead);
      } else if c.id !in config.nodes {
        JoinSound(config.nodes, config.shards[k], c.id, NodeMetadata(c.id, c.address, NodeActive));
      }
    }
  }

  lemma LockSound(config: ClusterConfig, shardId: int)
    requires Sound(config) && shardId in config.shards
    ensures Sound(Lock(config, shardId)) && Evolves(config, Lock(config, shardId))
  {
    assert Holders(Lock(config, shardId).shards[shardId]) == Holders(config.shards[shardId]);
  }

  /** Every step keeps the topology sound, never undoes a death and, if it changes anything, raises the epoch
      by one. */
  lemma ChangeKeepsSound(config: ClusterConfig, c: Change)
    requires Sound(config) && Enabled(config, c)
    ensures Sound(Next(config, c)) && Evolves(config, Next(config, c))
    ensures Next(config, c) != config ==> Next(config, c).epoch == config.epoch + 1
  {
    match c
    case Join(_, _) => JoinOrDeathSound(config, c);
    case Death(_) => JoinOrDeathSound(config, c);
    case Balance(seen, nodeOrder, shardOrder) =>
      ActiveIsList(seen.nodes, nodeOrder);
      BalanceSound(seen, config, Active(seen.nodes, nodeOrder), shardOrder);
    case LockShard(id) => LockSound(config, id);
    case Complete(id, target) => MoveSoundIff(config, id, target);
  }

  lemma {:induction false} FirstOrphan(shards: map<int, ShardMetadata>, order: seq<int>, n: nat) returns (i: nat)
    requires n <= |order| && (forall j :: 0 <= j < |order| ==> order[j] in shards) && Orphans(shards, order, n) > 0
    ensures i < n && Orphans(shards, order, i) == 0 && shards[order[i]].primaryId == NO_NODE
  {
    if Orphans(shards, order, n - 1) > 0 {
      i := FirstOrphan(shards, order, n - 1);
    } else {
      i := n - 1;
    }
  }

  lemma {:induction false} SomeOrphan(shards: map<int, ShardMetadata>, order: seq<int>, n: nat, i: nat)
    requires i < n <= |order| && (forall j :: 0 <= j < |order| ==> order[j] in shards)
    requires shards[order[i]].primaryId == NO_NODE
    ensures Orphans(shards, order, n) > 0
  {
    if i < n - 1 {
      SomeOrphan(shards, order, n - 1, i);
    }
  }

  /** The first shard without a primary is given the first active node. */
  lemma FirstOrphanGets(shards: map<int, ShardMetadata>, order: seq<int>, nodes: map<NodeId, NodeMetadata>,
                        active: seq<NodeId>, k: int)
    returns (first: int)
    requires Enumerates(order, shards) && active != [] && k in shards && shards[k].primaryId == NO_NODE
    ensures first in NewShards(shards, order, |order|, nodes, active)
    ensures NewShards(shards, order, |order|, nodes, active)[first].primaryId == active[0]
  {
    var i :| 0 <= i < |order| && order[i] == k;
    SomeOrphan(shards, order, |order|, i);
    var n := FirstOrphan(shards, order, |order|);
    NewPrimaryAt(shards, order, n, nodes, active);
    DivModUnique(0, |active|, 0, 0);
    first := order[n];
  }

  lemma DeadPrimaryUnsound(nodes: map<NodeId, NodeMetadata>, s: ShardMetadata)
    requires s.primaryId != NO_NODE && !IsActive(nodes, s.primaryId)
    ensures !SoundShard(nodes, s)
  {
    assert Holders(s)[0] == s.primaryId;
  }

  /** `after` is reached from `config` by `changes` made here. */
  ghost predicate Reaches(config: ClusterConfig, changes: seq<Change>, after: ClusterConfig)
    decreases changes
  {
    if changes == [] then after == config
    else Enabled(config, changes[0]) && Reaches(Next(config, changes[0]), changes[1..], after)
  }

  lemma {:induction false} RunEvolves(config: ClusterConfig, changes: seq<Change>, after: ClusterConfig)
    requires Sound(config) && Reaches(config, changes, after)
    ensures Sound(after) && Evolves(config, after)
    decreases changes
  {
    if changes != [] {
      ChangeKeepsSound(config, changes[0]);
      RunEvolves(Next(config, changes[0]), changes[1..], after);
    }
  }

  // ---------------------------------------------------------------- configurations that come back

  /** A configuration that a top-up wrote is broadcast and replaces the current one when it is applied,
      whatever has happened since. Applying it is harmless exactly when nothing has changed; otherwise
      the epoch falls. */
  lemma LateApplyIff(sent: ClusterConfig, changes: seq<Change>, config: ClusterConfig)
    requires Sound(sent) && Reaches(sent, changes, config)
    ensures Evolves(config, sent) <==> config == sent
    ensures config != sent ==> sent.epoch < config.epoch
  {
    RunEvolves(sent, changes, config);
  }

  /** A death between the writing of a configuration and its application is undone. */
  lemma LateApplyRevives(sent: ClusterConfig, x: NodeId)
    requires Sound(sent) && IsActive(sent.nodes, x)
    ensures exists changes, config :: Reaches(sent, changes, config) && x in config.nodes
              && config.nodes[x].status == NodeDead && IsActive(sent.nodes, x) && sent.epoch < config.epoch
  {
    var config := Failover(sent, x);
    assert Next(sent, Death(x)) == config;
    assert [Death(x)][1..] == [];
    assert Reaches(sent, [Death(x)], config);
  }

  /** The controller's configuration and every one it has had, any of which may be applied again: as
      the broadcast of a top-up, or from a snapshot of the replicated state. */
  datatype Plane = Plane(config: ClusterConfig, past: set<ClusterConfig>)

  datatype Event = Here(change: Change) | Apply(sent: ClusterConfig)

  ghost predicate Happens(p: Plane, e: Event) {
    match e
    case Here(change) => Enabled(p.config, change)
    case Apply(sent) => sent in p.past
  }

  ghost function After(p: Plane, e: Event): Plane
    requires Happens(p, e)
  {
    var config := match e case Here(change) => Next(p.config, change) case Apply(sent) => sent;
    Plane(config, p.past + {config})
  }

  ghost predicate PlaneReaches(p: Plane, events: seq<Event>, q: Plane)
    decreases events
  {
    if events == [] then q == p
    else Happens(p, events[0]) && PlaneReaches(After(p, events[0]), events[1..], q)
  }

  /** Every configuration there has been is sound and has the same shards. */
  ghost predicate SoundPlane(p: Plane, shardIds: set<int>) {
    p.config in p.past && forall c :: c in p.past ==> Sound(c) && c.shards.Keys == shardIds
  }

  lemma {:induction false} RunKeepsSound(p: Plane, events: seq<Event>, q: Plane, shardIds: set<int>)
    requires SoundPlane(p, shardIds) && PlaneReaches(p, events, q)
    ensures SoundPlane(q, shardIds)
    decreases events
  {
    if events != [] {
      if events[0].Here? {
        ChangeKeepsSound(p.config, events[0].change);
      }
      RunKeepsSound(After(p, events[0]), events[1..], q, shardIds);
    }
  }

  /** The shard has a primary, and together with it at least four holders or as many as there are live
      nodes, all distinct and live. */
  ghost predicate HeldBy(config: ClusterConfig, s: ShardMetadata, live: nat) {
    && s.primaryId != NO_NODE && (|Holders(s)| >= 4 || |Holders(s)| >= live) && Distinct(Holders(s))
    && forall x :: x in Holders(s) ==> IsActive(config.nodes, x)
  }

  lemma ToppedUpHeld(nodes: map<NodeId, NodeMetadata>, s: ShardMetadata, t: ShardMetadata, active: seq<NodeId>)
    requires active != [] && ToppedUp(s, t, nodes, active) && SoundShard(nodes, t)
    ensures t.primaryId != NO_NODE && (|Holders(t)| >= 4 || |Holders(t)| >= |active|)
  {
  }

  /** After any run from a new cluster, in which old configurations may come back, only nodes that the
      configuration has as live hold shards; and an undisturbed top-up with a live node gives every
      shard a live primary and exactly the smaller of three and the number of other live nodes as live
      replicas, unless it had at least as many. */
  lemma TopUpRestoresRedundancy(numShards: nat, events: seq<Event>, p: Plane, nodeOrder: seq<NodeId>,
                                shardOrder: seq<int>)
    requires PlaneReaches(Plane(NewCluster(numShards), {NewCluster(numShards)}), events, p)
    requires Enumerates(nodeOrder, p.config.nodes) && Enumerates(shardOrder, p.config.shards)
    requires Active(p.config.nodes, nodeOrder) != []
    ensures Sound(p.config) && p.config.shards.Keys == NewCluster(numShards).shards.Keys
    ensures var active := Active(p.config.nodes, nodeOrder);
            var after := TopUp(p.config, active, shardOrder);
            && after.shards.Keys == p.config.shards.Keys
            && forall k :: k in after.shards ==>
                 && ToppedUp(p.config.shards[k], after.shards[k], p.config.nodes, active)
                 && HeldBy(after, after.shards[k], |active|)
  {
    var config, active := p.config, Active(p.config.nodes, nodeOrder);
    RunKeepsSound(Plane(NewCluster(numShards), {NewCluster(numShards)}), events, p, NewCluster(numShards).shards.Keys);
    ActiveIsList(config.nodes, nodeOrder);
    TopUpHolds(config, active, shardOrder);
  }

  lemma TopUpHolds(config: ClusterConfig, active: seq<NodeId>, order: seq<int>)
    requires Sound(config) && active != [] && ActiveList(config.nodes, active) && Enumerates(order, config.shards)
    ensures var after := TopUp(config, active, order);
            && after.shards.Keys == config.shards.Keys
            && forall k :: k in after.shards ==>
                 && ToppedUp(config.shards[k], after.shards[k], config.nodes, active)
                 && HeldBy(after, after.shards[k], |active|)
  {
    BalanceSound(config, config, active, order);
    TopUpCorrect(config, active, order);
    var after := TopUp(config, active, order);
    forall k | k in after.shards
      ensures ToppedUp(config.shards[k], after.shards[k], config.nodes, active) && HeldBy(after, after.shards[k], |active|)
    {
      SoundAt(after, k);
      ToppedUpHeld(after.nodes, config.shards[k], after.shards[k], active);
    }
  }
}
