/** What the steps of the controller mean for the nodes that act on them: joining, and the lock that a
    move holds on a shard. */
module Handover {
  import opened Topology
  import opened Controller
  import opened DataPlane
  import ControlPlane

  // ---------------------------------------------------------------- joining

  ghost predicate NoDeathOf(changes: seq<ControlPlane.Change>, x: NodeId) {
    forall i :: 0 <= i < |changes| ==> changes[i] != ControlPlane.Death(x)
  }

  ghost predicate IsDead(nodes: map<NodeId, NodeMetadata>, x: NodeId) {
    x in nodes && nodes[x].status == NodeDead
  }

  lemma {:induction false} ActiveIffNoDeath(config: ClusterConfig, changes: seq<ControlPlane.Change>,
                                            after: ClusterConfig, x: NodeId)
    requires ControlPlane.Reaches(config, changes, after) && x in config.nodes
    requires IsActive(config.nodes, x) || IsDead(config.nodes, x)
    ensures IsActive(after.nodes, x) || IsDead(after.nodes, x)
    ensures after.nodes[x].address == config.nodes[x].address
    ensures IsActive(after.nodes, x) <==> IsActive(config.nodes, x) && NoDeathOf(changes, x)
    decreases changes
  {
    if changes != [] {
      ActiveIffNoDeath(ControlPlane.Next(config, changes[0]), changes[1..], after, x);
      assert changes == [changes[0]] + changes[1..];
      assert NoDeathOf(changes, x) <==> changes[0] != ControlPlane.Death(x) && NoDeathOf(changes[1..], x);
    }
  }

  /** A node that joins keeps its address and is active from then on exactly until its death is reported;
      joining again does not bring it back. */
  lemma JoinedActiveIff(config: ClusterConfig, id: NodeId, address: string, changes: seq<ControlPlane.Change>,
                        after: ClusterConfig)
    requires id != NO_NODE && id !in config.nodes
    requires ControlPlane.Reaches(config, [ControlPlane.Join(id, address)] + changes, after)
    ensures id in after.nodes && after.nodes[id].address == address
    ensures IsActive(after.nodes, id) <==> NoDeathOf(changes, id)
  {
    var join := ControlPlane.Join(id, address);
    assert ([join] + changes)[1..] == changes;
    ActiveIffNoDeath(ControlPlane.Next(config, join), changes, after, id);
  }

  // ---------------------------------------------------------------- the lock of a move

  /** Another lock of the shard, or the completion of a move of it. */
  predicate Moves(c: ControlPlane.Change, k: int) {
    c == ControlPlane.LockShard(k) || (c.Complete? && c.shardId == k)
  }

  ghost predicate Unmoved(changes: seq<ControlPlane.Change>, k: int) {
    forall i :: 0 <= i < |changes| ==> !Moves(changes[i], k)
  }

  ghost predicate NoDeath(changes: seq<ControlPlane.Change>) {
    forall i :: 0 <= i < |changes| ==> !changes[i].Death?
  }

  /** A top-up changes the status of a shard only where it gives it a primary. */
  lemma TopUpKeepsStatus(config: ClusterConfig, c: ControlPlane.Change, k: int)
    requires ControlPlane.Sound(config) && ControlPlane.Enabled(config, c) && c.Balance? && k in config.shards
    ensures var t := ControlPlane.Next(config, c).shards;
            && k in t && (config.shards[k].primaryId != NO_NODE ==> t[k].status == config.shards[k].status)
            && t[k].status in {config.shards[k].status, ShardActive}
            && (config.shards[k].primaryId != NO_NODE ==> t[k].primaryId == config.shards[k].primaryId)
  {
    var active := ControlPlane.Active(c.seen.nodes, c.nodeOrder);
    ControlPlane.ActiveIsList(c.seen.nodes, c.nodeOrder);
    if active != [] && NeedsUpdate(c.seen, active) {
      TopUpFromCorrect(c.seen, config, active, c.shardOrder);
    }
  }

  /** Of the steps that do not move the shard, a death alone ends its lock, whichever node died. */
  lemma StepKeepsLock(config: ClusterConfig, c: ControlPlane.Change, k: int)
    requires ControlPlane.Sound(config) && ControlPlane.Enabled(config, c) && k in config.shards && !Moves(c, k)
    requires config.shards[k].status == ShardLocked ==> config.shards[k].primaryId != NO_NODE
    ensures var t := ControlPlane.Next(config, c).shards;
            && k in t && (t[k].status == ShardLocked <==> config.shards[k].status == ShardLocked && !c.Death?)
            && (t[k].status == ShardLocked ==> t[k].primaryId != NO_NODE)
            && (t[k].status == ShardMigrating ==> config.shards[k].status == ShardMigrating)
  {
    if c.Balance? {
      TopUpKeepsStatus(config, c, k);
    }
  }

  lemma {:induction false} RunKeepsLock(config: ClusterConfig, changes: seq<ControlPlane.Change>, after: ClusterConfig,
                                        k: int)
    requires ControlPlane.Sound(config) && ControlPlane.Reaches(config, changes, after) && k in config.shards
    requires Unmoved(changes, k) && (config.shards[k].status == ShardLocked ==> config.shards[k].primaryId != NO_NODE)
    ensures k in after.shards
    ensures after.shards[k].status == ShardLocked <==> config.shards[k].status == ShardLocked && NoDeath(changes)
    ensures after.shards[k].status == ShardMigrating ==> config.shards[k].status == ShardMigrating
    decreases changes
  {
    if changes != [] {
      var c, rest := changes[0], changes[1..];
      StepKeepsLock(config, c, k);
      ControlPlane.ChangeKeepsSound(config, c);
      RunKeepsLock(ControlPlane.Next(config, c), rest, after, k);
      assert changes == [c] + rest;
    }
  }

  /** Once a move has locked a shard, and until it is completed, the shard's primary refuses every write to
      it exactly as long as no node at all has died: failover forgets the lock of every shard. */
  lemma LockRefusesIff(config: ClusterConfig, k: int, changes: seq<ControlPlane.Change>, after: ClusterConfig,
                       hash: string -> nat, w: Write, epoch: nat, stores: map<NodeId, Store>, epochs: map<NodeId, nat>,
                       outcomes: seq<Outcome>)
    requires ControlPlane.Sound(config) && k in config.shards && config.shards[k].primaryId != NO_NODE
    requires ControlPlane.Reaches(config, [ControlPlane.LockShard(k)] + changes, after) && Unmoved(changes, k)
    requires after.totalShards > 0 && hash(w.key) % after.totalShards == k && after.epoch <= epoch
    requires |Targets(after, k)| <= |outcomes|
    ensures k in after.shards
    ensures var r := Serve(after, hash, after.shards[k].primaryId, true, w, epoch, stores, epochs, outcomes);
            if NoDeath(changes) then r == Served(ShardBusy, stores)
            else r.status == Acked || r.status == ReplicationFailed
  {
    var lock := ControlPlane.LockShard(k);
    assert ([lock] + changes)[1..] == changes;
    ControlPlane.ChangeKeepsSound(config, lock);
    RunKeepsLock(ControlPlane.Next(config, lock), changes, after, k);
    ServedIff(after, hash, after.shards[k].primaryId, true, w, epoch, stores, epochs, outcomes);
  }

  /** Once the move is completed, the target alone takes writes to the shard. */
  lemma TargetServesIff(config: ClusterConfig, k: int, target: NodeId, hash: string -> nat, self: NodeId, w: Write,
                        epoch: nat, stores: map<NodeId, Store>, epochs: map<NodeId, nat>, outcomes: seq<Outcome>)
    requires k in config.shards && config.totalShards > 0 && hash(w.key) % config.totalShards == k
    requires config.epoch < epoch && |Targets(ControlPlane.Retarget(config, k, target), k)| <= |outcomes|
    ensures var r := Serve(ControlPlane.Retarget(config, k, target), hash, self, true, w, epoch, stores, epochs, outcomes);
            if self == target then r.status == Acked || r.status == ReplicationFailed
            else r == Served(NotPrimary, stores)
  {
    ServedIff(ControlPlane.Retarget(config, k, target), hash, self, true, w, epoch, stores, epochs, outcomes);
  }
}
