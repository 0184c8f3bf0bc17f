/** The shard map and what a node's death does to it. */
module Topology {

  /** Node names; "" names no node. */
  datatype NodeId = NodeId(name: string)

  datatype NodeStatus = NodeActive | NodeDead | NodeJoining

  /** `StatusUnset` is the zero value, which failover leaves behind. */
  datatype ShardStatus = ShardActive | ShardMigrating | ShardLocked | StatusUnset

  datatype ShardMetadata = ShardMetadata(id: int, primaryId: NodeId, replicaIds: seq<NodeId>, status: ShardStatus)

  datatype NodeMetadata = NodeMetadata(id: NodeId, address: string, status: NodeStatus)

  datatype ClusterConfig = ClusterConfig(epoch: nat, totalShards: nat, nodes: map<NodeId, NodeMetadata>,
                                         shards: map<int, ShardMetadata>)

  /** `primaryId` holds this when a shard has no primary. */
  const NO_NODE: NodeId := NodeId("")

  // ---------------------------------------------------------------- the new cluster

  function EmptyShard(i: int): ShardMetadata {
    ShardMetadata(i, NO_NODE, [], ShardActive)
  }

  /** A cluster of `numShards` unassigned shards, numbered from zero. */
  method NewClusterConfig(numShards: nat) returns (config: ClusterConfig)
    ensures config.epoch == 0 && config.totalShards == numShards && config.nodes == map[]
    ensures config.shards == map i: int | 0 <= i < numShards :: EmptyShard(i)
    ensures WellFormedConfig(config)
  {
    var shards: map<int, ShardMetadata> := map[];
    for i := 0 to numShards
      invariant shards == map j: int | 0 <= j < i :: EmptyShard(j)
    {
      shards := shards[i := ShardMetadata(i, NO_NODE, [], ShardActive)];
    }
    config := ClusterConfig(0, numShards, map[], shards);
  }

  // ---------------------------------------------------------------- holders of a shard

  /** The nodes that hold the shard, the primary first. */
  function Holders(s: ShardMetadata): seq<NodeId> {
    if s.primaryId == NO_NODE then s.replicaIds else [s.primaryId] + s.replicaIds
  }

  ghost predicate Distinct<T>(xs: seq<T>) {
    forall i, j :: 0 <= i < j < |xs| ==> xs[i] != xs[j]
  }

  /** Replicas are distinct nodes other than the primary; without a primary there are none. */
  ghost predicate WellFormedShard(s: ShardMetadata) {
    && Distinct(Holders(s)) && NO_NODE !in s.replicaIds
    && (s.primaryId == NO_NODE ==> s.replicaIds == [])
  }

  ghost predicate WellFormedConfig(config: ClusterConfig) {
    forall k :: k in config.shards ==> WellFormedShard(config.shards[k])
  }

  /** The holders determine the assignment. */
  lemma SameHoldersSameAssignment(s: ShardMetadata, t: ShardMetadata)
    requires WellFormedShard(s) && WellFormedShard(t) && Holders(s) == Holders(t)
    ensures s.primaryId == t.primaryId && s.replicaIds == t.replicaIds
  {
    if s.primaryId != NO_NODE && t.primaryId != NO_NODE {
      assert s.replicaIds == Holders(s)[1..];
      assert t.replicaIds == Holders(t)[1..];
    } else {
      assert |Holders(s)| == |Holders(t)|;
    }
  }

  // ---------------------------------------------------------------- filtering

  /** `xs` without the elements of `gone`, in the same order. */
  function Minus(xs: seq<NodeId>, gone: set<NodeId>): seq<NodeId> {
    if xs == [] then []
    else
      var last := xs[|xs| - 1];
      if last in gone then Minus(xs[..|xs| - 1], gone) else Minus(xs[..|xs| - 1], gone) + [last]
  }

  lemma {:induction false} MinusMembers(xs: seq<NodeId>, gone: set<NodeId>, x: NodeId)
    ensures x in Minus(xs, gone) <==> x in xs && x !in gone
  {
    if xs != [] {
      MinusMembers(xs[..|xs| - 1], gone, x);
      assert xs == xs[..|xs| - 1] + [xs[|xs| - 1]];
    }
  }

  lemma {:induction false} MinusOfConcat(xs: seq<NodeId>, ys: seq<NodeId>, gone: set<NodeId>)
    ensures Minus(xs + ys, gone) == Minus(xs, gone) + Minus(ys, gone)
  {
    if ys == [] {
      assert xs + ys == xs;
    } else {
      var n := |ys| - 1;
      MinusOfConcat(xs, ys[..n], gone);
      assert (xs + ys)[..|xs + ys| - 1] == xs + ys[..n];
    }
  }

  lemma {:induction false} MinusDistinct(xs: seq<NodeId>, gone: set<NodeId>)
    requires Distinct(xs)
    ensures Distinct(Minus(xs, gone))
  {
    if xs != [] {
      MinusDistinct(xs[..|xs| - 1], gone);
      MinusMembers(xs[..|xs| - 1], gone, xs[|xs| - 1]);
    }
  }

  lemma {:induction false} MinusTwice(xs: seq<NodeId>, a: set<NodeId>, b: set<NodeId>)
    ensures Minus(Minus(xs, a), b) == Minus(xs, a + b)
  {
    if xs != [] {
      var init, last := xs[..|xs| - 1], xs[|xs| - 1];
      MinusTwice(init, a, b);
      if last !in a {
        MinusOfConcat(Minus(init, a), [last], b);
        assert Minus([last], b) == if last in b then [] else [last];
      }
    }
  }

  lemma {:induction false} MinusNothing(xs: seq<NodeId>, gone: set<NodeId>)
    requires forall i :: 0 <= i < |xs| ==> xs[i] !in gone
    ensures Minus(xs, gone) == xs
  {
    if xs != [] {
      MinusNothing(xs[..|xs| - 1], gone);
    }
  }

  // ---------------------------------------------------------------- one death

  /** What failover makes of one shard: promote the first replica, or drop the dead replica. */
  function FailShard(s: ShardMetadata, dead: NodeId): ShardMetadata {
    if s.primaryId == dead then
      if |s.replicaIds| > 0 then ShardMetadata(s.id, s.replicaIds[0], s.replicaIds[1..], StatusUnset)
      else ShardMetadata(s.id, NO_NODE, s.replicaIds, StatusUnset)
    else ShardMetadata(s.id, s.primaryId, Minus(s.replicaIds, {dead}), StatusUnset)
  }

  function FailNodes(nodes: map<NodeId, NodeMetadata>, dead: NodeId): map<NodeId, NodeMetadata> {
    if dead in nodes then nodes[dead := nodes[dead].(status := NodeDead)] else nodes
  }

  function Failover(config: ClusterConfig, dead: NodeId): ClusterConfig {
    config.(epoch := config.epoch + 1, nodes := FailNodes(config.nodes, dead),
            shards := map k | k in config.shards :: FailShard(config.shards[k], dead))
  }

  lemma PrimaryNotReplica(s: ShardMetadata)
    requires WellFormedShard(s) && s.primaryId != NO_NODE
    ensures s.primaryId !in s.replicaIds && Distinct(s.replicaIds)
  {
    var hs := Holders(s);
    forall i | 0 <= i < |s.replicaIds|
      ensures s.replicaIds[i] != s.primaryId
    {
      assert hs[0] == s.primaryId && hs[i + 1] == s.replicaIds[i];
    }
    forall i, j | 0 <= i < j < |s.replicaIds|
      ensures s.replicaIds[i] != s.replicaIds[j]
    {
      assert hs[i + 1] == s.replicaIds[i] && hs[j + 1] == s.replicaIds[j];
    }
  }

  lemma MinusOfCons(x: NodeId, xs: seq<NodeId>, gone: set<NodeId>)
    ensures Minus([x] + xs, gone) == (if x in gone then [] else [x]) + Minus(xs, gone)
  {
    MinusOfConcat([x], xs, gone);
    assert [x][..0] == [];
    assert Minus([x], gone) == if x in gone then [] else [x];
  }

  lemma PromotionKeepsReplicas(s: ShardMetadata)
    requires WellFormedShard(s)
    ensures Holders(FailShard(s, s.primaryId)) == s.replicaIds
  {
    var rs := s.replicaIds;
    if |rs| > 0 {
      assert rs[0] != NO_NODE;
      assert [rs[0]] + rs[1..] == rs;
    }
  }

  lemma PromotionIsFilter(s: ShardMetadata)
    requires WellFormedShard(s)
    ensures Minus(Holders(s), {s.primaryId}) == s.replicaIds
  {
    if s.primaryId != NO_NODE {
      PrimaryNotReplica(s);
      MinusOfCons(s.primaryId, s.replicaIds, {s.primaryId});
      MinusNothing(s.replicaIds, {s.primaryId});
    }
  }

  lemma RemovalIsFilter(s: ShardMetadata, dead: NodeId)
    requires WellFormedShard(s) && s.primaryId != dead
    ensures Holders(FailShard(s, dead)) == Minus(Holders(s), {dead})
  {
    if s.primaryId != NO_NODE {
      MinusOfCons(s.primaryId, s.replicaIds, {dead});
    }
  }

  /** On a well-formed shard a death removes the dead node from the list of holders, keeping the
      others in order, and leaves the shard well formed. */
  lemma DeathIsFilter(s: ShardMetadata, dead: NodeId)
    requires WellFormedShard(s)
    ensures Holders(FailShard(s, dead)) == Minus(Holders(s), {dead})
    ensures WellFormedShard(FailShard(s, dead))
  {
    MinusDistinct(Holders(s), {dead});
    if s.primaryId == dead {
      PromotionKeepsReplicas(s);
      PromotionIsFilter(s);
      if |s.replicaIds| > 0 {
        assert forall x :: x in s.replicaIds[1..] ==> x in s.replicaIds;
      }
    } else {
      RemovalIsFilter(s, dead);
      MinusMembers(s.replicaIds, {dead}, NO_NODE);
    }
  }

  lemma FailoverWellFormed(config: ClusterConfig, dead: NodeId)
    requires WellFormedConfig(config)
    ensures WellFormedConfig(Failover(config, dead))
  {
    forall k | k in config.shards
      ensures WellFormedShard(FailShard(config.shards[k], dead))
    {
      DeathIsFilter(config.shards[k], dead);
    }
  }

  /** The loop that rebuilds a replica list without the dead node. */
  method DropReplica(replicas: seq<NodeId>, dead: NodeId) returns (newReplicas: seq<NodeId>)
    ensures newReplicas == Minus(replicas, {dead})
  {
    newReplicas := [];
    for i := 0 to |replicas|
      invariant newReplicas == Minus(replicas[..i], {dead})
    {
      assert replicas[..i + 1][..i] == replicas[..i];
      if replicas[i] != dead {
        newReplicas := newReplicas + [replicas[i]];
      }
    }
    assert replicas[..|replicas|] == replicas;
  }

  method FailOneShard(shard: ShardMetadata, dead: NodeId) returns (s: ShardMetadata)
    ensures s == FailShard(shard, dead)
  {
    if shard.primaryId == dead {
      if |shard.replicaIds| > 0 {
        var newPrimary := shard.replicaIds[0];
        s := ShardMetadata(shard.id, newPrimary, shard.replicaIds[1..], StatusUnset);
      } else {
        s := ShardMetadata(shard.id, NO_NODE, shard.replicaIds, StatusUnset);
      }
    } else {
      var newReplicas := DropReplica(shard.replicaIds, dead);
      s := ShardMetadata(shard.id, shard.primaryId, newReplicas, StatusUnset);
    }
  }

  /** `order` lists every key once: an order in which a Go map may be iterated. */
  ghost predicate Enumerates<K, V>(order: seq<K>, m: map<K, V>) {
    && Distinct(order)
    && (forall i :: 0 <= i < |order| ==> order[i] in m)
    && (forall k :: k in m ==> k in order)
  }

  /** The loop over the shard map, in any order, overwriting entries of a copy. */
  method FailAllShards(shards: map<int, ShardMetadata>, order: seq<int>, dead: NodeId)
    returns (newShards: map<int, ShardMetadata>)
    requires Enumerates(order, shards)
    ensures newShards == map k | k in shards :: FailShard(shards[k], dead)
  {
    newShards := shards;
    for n := 0 to |order|
      invariant newShards.Keys == shards.Keys
      invariant forall j :: 0 <= j < n ==> newShards[order[j]] == FailShard(shards[order[j]], dead)
      invariant forall j :: n <= j < |order| ==> newShards[order[j]] == shards[order[j]]
    {
      var shard := FailOneShard(newShards[order[n]], dead);
      newShards := newShards[order[n] := shard];
    }
    ghost var want := map k | k in shards :: FailShard(shards[k], dead);
    assert newShards.Keys == want.Keys;
    assert forall k :: k in newShards ==> newShards[k] == want[k];
    assert newShards == want;
  }

  method Rebalance(config: ClusterConfig, order: seq<int>, dead: NodeId) returns (newConfig: ClusterConfig)
    requires Enumerates(order, config.shards)
    ensures newConfig == Failover(config, dead)
  {
    newConfig := config;
    newConfig := newConfig.(epoch := newConfig.epoch + 1);
    if dead in newConfig.nodes {
      newConfig := newConfig.(nodes := newConfig.nodes[dead := newConfig.nodes[dead].(status := NodeDead)]);
    }
    var shards := FailAllShards(config.shards, order, dead);
    newConfig := newConfig.(shards := shards);
  }

  // ---------------------------------------------------------------- any number of deaths

  function Elements(xs: seq<NodeId>): set<NodeId> {
    set x | x in xs
  }

  function Deaths(config: ClusterConfig, dead: seq<NodeId>): ClusterConfig {
    if dead == [] then config else Failover(Deaths(config, dead[..|dead| - 1]), dead[|dead| - 1])
  }

  function MarkDead(nodes: map<NodeId, NodeMetadata>, dead: set<NodeId>): map<NodeId, NodeMetadata> {
    map x | x in nodes :: if x in dead then nodes[x].(status := NodeDead) else nodes[x]
  }

  /** `t` is the shard `s` once the nodes in `dead` have died. */
  ghost predicate Survives(s: ShardMetadata, t: ShardMetadata, dead: set<NodeId>, status: ShardStatus) {
    WellFormedShard(t) && Holders(t) == Minus(Holders(s), dead) && t.id == s.id && t.status == status
  }

  lemma SurvivesMore(s: ShardMetadata, t: ShardMetadata, dead: set<NodeId>, status: ShardStatus, next: NodeId)
    requires Survives(s, t, dead, status)
    ensures Survives(s, FailShard(t, next), dead + {next}, StatusUnset)
  {
    DeathIsFilter(t, next);
    MinusTwice(Holders(s), dead, {next});
  }

  lemma MarkMore(nodes: map<NodeId, NodeMetadata>, dead: set<NodeId>, next: NodeId)
    ensures FailNodes(MarkDead(nodes, dead), next) == MarkDead(nodes, dead + {next})
  {
    var a, b := FailNodes(MarkDead(nodes, dead), next), MarkDead(nodes, dead + {next});
    assert a.Keys == b.Keys == nodes.Keys;
    assert forall x :: x in nodes ==> a[x] == b[x];
    assert a == b;
  }

  /** What `config` looks like once `dead` have died in that order. */
  ghost predicate AfterDeaths(config: ClusterConfig, dead: seq<NodeId>, after: ClusterConfig) {
    && after.epoch == config.epoch + |dead|
    && after.totalShards == config.totalShards && after.shards.Keys == config.shards.Keys
    && after.nodes == MarkDead(config.nodes, Elements(dead))
    && forall k :: k in config.shards ==>
         Survives(config.shards[k], after.shards[k], Elements(dead),
                  if dead == [] then config.shards[k].status else StatusUnset)
  }

  lemma NoDeaths(config: ClusterConfig)
    requires WellFormedConfig(config)
    ensures AfterDeaths(config, [], config)
  {
    forall k | k in config.shards
      ensures Minus(Holders(config.shards[k]), {}) == Holders(config.shards[k])
    {
      MinusNothing(Holders(config.shards[k]), {});
    }
    assert Elements([]) == {};
    assert MarkDead(config.nodes, {}) == config.nodes;
  }

  lemma OneMoreDeath(config: ClusterConfig, dead: seq<NodeId>, after: ClusterConfig, next: NodeId)
    requires AfterDeaths(config, dead, after)
    ensures AfterDeaths(config, dead + [next], Failover(after, next))
  {
    assert Elements(dead + [next]) == Elements(dead) + {next};
    MarkMore(config.nodes, Elements(dead), next);
    forall k | k in config.shards
      ensures Survives(config.shards[k], Failover(after, next).shards[k], Elements(dead) + {next}, StatusUnset)
    {
      SurvivesMore(config.shards[k], after.shards[k], Elements(dead),
                   if dead == [] then config.shards[k].status else StatusUnset, next);
    }
  }

  /** After any sequence of deaths the epoch has grown by their number, every shard keeps exactly
      its surviving holders in order, and the dead nodes are marked. */
  lemma {:induction false} DeathsFilter(config: ClusterConfig, dead: seq<NodeId>)
    requires WellFormedConfig(config)
    ensures AfterDeaths(config, dead, Deaths(config, dead))
  {
    if dead == [] {
      NoDeaths(config);
    } else {
      var init, last := dead[..|dead| - 1], dead[|dead| - 1];
      DeathsFilter(config, init);
      OneMoreDeath(config, init, Deaths(config, init), last);
      assert dead == init + [last];
    }
  }

  /** The order of a set of deaths does not matter: the resulting configuration is the same. */
  lemma DeathsCommute(config: ClusterConfig, dead: seq<NodeId>, reordered: seq<NodeId>)
    requires WellFormedConfig(config) && multiset(dead) == multiset(reordered)
    ensures Deaths(config, dead) == Deaths(config, reordered)
  {
    DeathsFilter(config, dead);
    DeathsFilter(config, reordered);
    assert forall x :: x in dead <==> x in multiset(dead);
    assert forall x :: x in reordered <==> x in multiset(reordered);
    assert Elements(dead) == Elements(reordered);
    assert |dead| == |multiset(dead)| == |multiset(reordered)| == |reordered|;
    var a, b := Deaths(config, dead), Deaths(config, reordered);
    forall k | k in config.shards
      ensures a.shards[k] == b.shards[k]
    {
      SameHoldersSameAssignment(a.shards[k], b.shards[k]);
    }
    assert a.shards == b.shards;
  }
}
