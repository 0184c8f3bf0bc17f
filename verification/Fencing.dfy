/** The lease against the writes: in every timed run of renewals, liveness checks and one write, when a
    node that is reported dead still takes up or acknowledges the write. */
module Fencing {
  import opened RaftTypes
  import opened Topology
  import opened DataPlane
  import Lease

  /** Each replication request of a write ends within this many seconds. */
  const REPLICATION_TIMEOUT := 5.0

  /** A write request at node `self`, whose topology is `config`, and what becomes of its replication. */
  datatype Request = Request(config: ClusterConfig, hash: string -> nat, self: NodeId, w: Write, epoch: nat,
                             stores: map<NodeId, Store>, epochs: map<NodeId, nat>, outcomes: seq<Outcome>)

  function Peers(r: Request): seq<NodeId> {
    Targets(r.config, ShardOf(r.hash, r.w.key, r.config.totalShards))
  }

  function Answer(r: Request, active: bool): Status
    requires |Peers(r)| <= |r.outcomes|
  {
    Serve(r.config, r.hash, r.self, active, r.w, r.epoch, r.stores, r.epochs, r.outcomes).status
  }

  /** A node with a lease acknowledges the request. */
  ghost predicate Servable(r: Request) {
    |Peers(r)| <= |r.outcomes| && Answer(r, true) == Acked
  }

  /** Such a request is acknowledged exactly at a node with a lease; otherwise it is refused. */
  lemma AckedIffActive(r: Request, active: bool)
    requires Servable(r)
    ensures Answer(r, active) == if active then Acked else DataPlane.Status.Fenced
  {
    ServedIff(r.config, r.hash, r.self, active, r.w, r.epoch, r.stores, r.epochs, r.outcomes);
  }

  // ---------------------------------------------------------------- taking up a write

  /** In every run, a node reported dead refuses the request, from the report until the controller next
      sees the node. */
  ghost predicate AllRunsRefuse(r: Request, duration: real, grace: real)
    requires Servable(r)
  {
    forall steps, after :: Lease.Run(Lease.START, steps, duration, grace, after) && after.reported ==>
      Answer(r, Lease.IsActive(after.validUntil, after.now)) != Acked
  }

  /** No request is taken up by a node reported dead exactly when the grace period is at least the lease
      plus both client timeouts. */
  lemma RefusedIff(r: Request, duration: real, grace: real)
    requires Servable(r) && duration > 0.0
    ensures AllRunsRefuse(r, duration, grace) <==> grace >= duration + 4.0
  {
    Lease.FencingIff(duration, grace);
    AckedIffActive(r, true);
    AckedIffActive(r, false);
    if !Lease.AllRunsFenced(duration, grace) {
      var steps, after :| Lease.Run(Lease.START, steps, duration, grace, after) && !Lease.Fenced(after);
      assert Answer(r, Lease.IsActive(after.validUntil, after.now)) == Acked;
    }
  }

  /** With such a grace period a node reported dead refuses every request whatever, and no cache changes. */
  lemma ReportedNodeWritesNothing(r: Request, duration: real, grace: real, steps: seq<Lease.Step>, after: Lease.World)
    requires duration > 0.0 && grace >= duration + 4.0 && |Peers(r)| <= |r.outcomes|
    requires Lease.Run(Lease.START, steps, duration, grace, after) && after.reported
    ensures Serve(r.config, r.hash, r.self, Lease.IsActive(after.validUntil, after.now), r.w, r.epoch, r.stores, r.epochs,
                  r.outcomes) == Served(DataPlane.Status.Fenced, r.stores)
  {
    Lease.FencingIff(duration, grace);
    assert Lease.Fenced(after);
    ServedIff(r.config, r.hash, r.self, false, r.w, r.epoch, r.stores, r.epochs, r.outcomes);
  }

  // ---------------------------------------------------------------- a write that takes time

  /** The write: not begun, waiting since `since` for the answer of its next replica after `done` of them,
      or over. */
  datatype Writing = NotBegun | Sending(done: nat, since: real) | Over

  datatype World = World(lease: Lease.World, writing: Writing)

  datatype Step = LeaseStep(s: Lease.Step) | Begin | Replied | Abandon | Acknowledge

  /** Time does not pass a replication timeout while a replica is waited for, and not at all once the
      last one has answered. */
  predicate Timely(r: Request, x: Writing, now: real) {
    x.Sending? ==> now <= x.since + (if x.done < |Peers(r)| then REPLICATION_TIMEOUT else 0.0)
  }

  /** The lease is looked at when the write begins, and only then. */
  ghost predicate Enabled(r: Request, w: World, s: Step)
    requires Servable(r)
  {
    match s
    case LeaseStep(l) =>
      Lease.Enabled(w.lease, l) && (l.Wait? ==> Timely(r, w.writing, w.lease.now + l.d))
    case Begin => w.writing.NotBegun? && Answer(r, Lease.IsActive(w.lease.validUntil, w.lease.now)) == Acked
    case Replied => w.writing.Sending? && w.writing.done < |Peers(r)|
    case Abandon => w.writing.Sending?
    case Acknowledge => w.writing.Sending? && w.writing.done == |Peers(r)|
  }

  ghost function Next(r: Request, w: World, s: Step, duration: real, grace: real): World
    requires Servable(r) && Enabled(r, w, s)
  {
    match s
    case LeaseStep(l) => w.(lease := Lease.Next(w.lease, l, duration, grace))
    case Begin => w.(writing := Sending(0, w.lease.now))
    case Replied => w.(writing := Sending(w.writing.done + 1, w.lease.now))
    case Abandon => w.(writing := Over)
    case Acknowledge => w.(writing := Over)
  }

  ghost predicate Run(r: Request, w: World, steps: seq<Step>, duration: real, grace: real, after: World)
    requires Servable(r)
    decreases steps
  {
    if steps == [] then after == w
    else Enabled(r, w, steps[0]) && Run(r, Next(r, w, steps[0], duration, grace), steps[1..], duration, grace, after)
  }

  const START: World := World(Lease.START, NotBegun)

  /** In every run, no write is acknowledged by a node that is then reported dead. */
  ghost predicate AllRunsAckInTime(r: Request, duration: real, grace: real)
    requires Servable(r)
  {
    forall steps, after :: Run(r, START, steps, duration, grace, after) && after.lease.reported ==>
      !Enabled(r, after, Acknowledge)
  }

  /** How long a write can take. */
  function Longest(done: nat): real {
    done as real * REPLICATION_TIMEOUT
  }

  /** The lease invariant, and a write in progress began before the lease ran out. */
  ghost predicate Inv(r: Request, w: World, duration: real, grace: real, latest: real)
    requires Servable(r)
  {
    && Lease.Inv(w.lease, duration, grace, latest) && Timely(r, w.writing, w.lease.now)
    && (w.writing.Sending? ==>
          && w.writing.done <= |Peers(r)|
          && w.writing.since < latest + 4.0 + duration + Longest(w.writing.done))
  }

  lemma StepKeeps(r: Request, w: World, s: Step, duration: real, grace: real, latest: real) returns (latest': real)
    requires Servable(r) && Inv(r, w, duration, grace, latest) && Enabled(r, w, s)
    ensures Inv(r, Next(r, w, s, duration, grace), duration, grace, latest')
  {
    latest' := latest;
    match s
    case LeaseStep(l) => latest' := Lease.StepKeeps(w.lease, l, duration, grace, latest);
    case Begin => AckedIffActive(r, Lease.IsActive(w.lease.validUntil, w.lease.now));
    case _ =>
  }

  lemma {:induction false} RunKeeps(r: Request, w: World, steps: seq<Step>, duration: real, grace: real, after: World,
                                    latest: real)
    returns (latest': real)
    requires Servable(r) && Inv(r, w, duration, grace, latest) && Run(r, w, steps, duration, grace, after)
    ensures Inv(r, after, duration, grace, latest')
    decreases steps
  {
    if steps == [] {
      latest' := latest;
    } else {
      var l := StepKeeps(r, w, steps[0], duration, grace, latest);
      latest' := RunKeeps(r, Next(r, w, steps[0], duration, grace), steps[1..], duration, grace, after, l);
    }
  }

  lemma LongGraceSuffices(r: Request, duration: real, grace: real)
    requires Servable(r) && duration >= 0.0 && grace >= duration + 4.0 + Longest(|Peers(r)|)
    ensures AllRunsAckInTime(r, duration, grace)
  {
    forall steps, after | Run(r, START, steps, duration, grace, after) && after.lease.reported
      ensures !Enabled(r, after, Acknowledge)
    {
      var latest := RunKeeps(r, START, steps, duration, grace, after, 0.0);
    }
  }

  // ---------------------------------------------------------------- the slowest write

  lemma RunOne(r: Request, w: World, s: Step, rest: seq<Step>, duration: real, grace: real, after: World)
    requires Servable(r) && Enabled(r, w, s) && Run(r, Next(r, w, s, duration, grace), rest, duration, grace, after)
    ensures Run(r, w, [s] + rest, duration, grace, after)
  {
    assert ([s] + rest)[1..] == rest;
  }

  lemma {:induction false} RunOn(r: Request, w: World, first: seq<Step>, u: World, more: seq<Step>, duration: real,
                                 grace: real, after: World)
    requires Servable(r) && Run(r, w, first, duration, grace, u) && Run(r, u, more, duration, grace, after)
    ensures Run(r, w, first + more, duration, grace, after)
    decreases first
  {
    if first == [] {
      assert first + more == more;
    } else {
      RunOn(r, Next(r, w, first[0], duration, grace), first[1..], u, more, duration, grace, after);
      assert (first + more)[1..] == first[1..] + more;
    }
  }

  /** A run of the lease alone is a run before the write has begun. */
  lemma {:induction false} LeaseRuns(r: Request, l: Lease.World, steps: seq<Lease.Step>, duration: real, grace: real,
                                     after: Lease.World)
    returns (lifted: seq<Step>)
    requires Servable(r) && Lease.Run(l, steps, duration, grace, after)
    ensures Run(r, World(l, NotBegun), lifted, duration, grace, World(after, NotBegun))
    decreases steps
  {
    if steps == [] {
      lifted := [];
    } else {
      var rest := LeaseRuns(r, Lease.Next(l, steps[0], duration, grace), steps[1..], duration, grace, after);
      RunOne(r, World(l, NotBegun), LeaseStep(steps[0]), rest, duration, grace, World(after, NotBegun));
      lifted := [LeaseStep(steps[0])] + rest;
    }
  }

  /** The world at time `t` after the slowest renewal, which is the last. */
  function Later(t: real, duration: real): Lease.World {
    Lease.World(t, 4.0 + duration, Lease.Idle, Some(0.0), false)
  }

  /** Every replica answers at the last moment. */
  lemma {:induction false} SlowReplicas(r: Request, t: real, done: nat, duration: real, grace: real)
    returns (steps: seq<Step>)
    requires Servable(r) && done <= |Peers(r)|
    ensures Run(r, World(Later(t, duration), Sending(done, t)), steps, duration, grace,
                var end := t + Longest(|Peers(r)| - done); World(Later(end, duration), Sending(|Peers(r)|, end)))
    decreases |Peers(r)| - done
  {
    if done == |Peers(r)| {
      steps := [];
    } else {
      var end := t + Longest(|Peers(r)| - done);
      var last := World(Later(end, duration), Sending(|Peers(r)|, end));
      var u := t + REPLICATION_TIMEOUT;
      var rest := SlowReplicas(r, u, done + 1, duration, grace);
      RunOne(r, World(Later(u, duration), Sending(done, t)), Replied, rest, duration, grace, last);
      steps := [LeaseStep(Lease.Wait(REPLICATION_TIMEOUT))] + ([Replied] + rest);
      RunOne(r, World(Later(t, duration), Sending(done, t)), LeaseStep(Lease.Wait(REPLICATION_TIMEOUT)),
             [Replied] + rest, duration, grace, last);
    }
  }

  /** A write that begins at `t`, before the lease runs out, and takes as long as it can. */
  lemma BeginsLate(r: Request, t: real, duration: real, grace: real) returns (steps: seq<Step>)
    requires Servable(r) && 4.0 <= t < 4.0 + duration
    ensures Run(r, World(Later(4.0, duration), NotBegun), steps, duration, grace,
                var end := t + Longest(|Peers(r)|); World(Later(end, duration), Sending(|Peers(r)|, end)))
  {
    var end := t + Longest(|Peers(r)|);
    var last := World(Later(end, duration), Sending(|Peers(r)|, end));
    var more := SlowReplicas(r, t, 0, duration, grace);
    RunOne(r, World(Later(t, duration), NotBegun), Begin, more, duration, grace, last);
    steps := [LeaseStep(Lease.Wait(t - 4.0))] + ([Begin] + more);
    RunOne(r, World(Later(4.0, duration), NotBegun), LeaseStep(Lease.Wait(t - 4.0)), [Begin] + more, duration, grace, last);
  }

  lemma SlowWrite(r: Request, t: real, duration: real, grace: real) returns (steps: seq<Step>)
    requires Servable(r) && 4.0 <= t < 4.0 + duration
    ensures Run(r, START, steps, duration, grace,
                var end := t + Longest(|Peers(r)|); World(Later(end, duration), Sending(|Peers(r)|, end)))
  {
    var end := t + Longest(|Peers(r)|);
    Lease.SlowRenewal(duration, grace);
    var first := LeaseRuns(r, Lease.START, Lease.SLOW, duration, grace, Later(4.0, duration));
    var more := BeginsLate(r, t, duration, grace);
    steps := first + more;
    RunOn(r, START, first, World(Later(4.0, duration), NotBegun), more, duration, grace,
          World(Later(end, duration), Sending(|Peers(r)|, end)));
  }

  lemma ShortGraceFails(r: Request, duration: real, grace: real)
    requires Servable(r) && duration > 0.0
    requires grace < duration + 4.0 + Longest(|Peers(r)|)
    ensures !AllRunsAckInTime(r, duration, grace)
  {
    var spare := grace - 4.0 - Longest(|Peers(r)|);
    var t := 4.0 + if spare < 0.0 then 0.0 else (spare + duration) / 2.0;
    var end := t + Longest(|Peers(r)|);
    var before := World(Later(end, duration), Sending(|Peers(r)|, end));
    var after := before.(lease := before.lease.(lastSeen := None, reported := true));
    var steps := SlowWrite(r, t, duration, grace);
    RunOne(r, before, LeaseStep(Lease.Check), [], duration, grace, after);
    RunOn(r, START, steps, before, [LeaseStep(Lease.Check)] + [], duration, grace, after);
    assert Enabled(r, after, Acknowledge);
  }

  /** The lease is looked at when a write begins, so no write is acknowledged by a node that is by then
      reported dead exactly when the grace period also covers the longest write: the lease, both
      client timeouts and a replication timeout for each replica. */
  lemma AckedInTimeIff(r: Request, duration: real, grace: real)
    requires Servable(r) && duration > 0.0
    ensures AllRunsAckInTime(r, duration, grace)
            <==> grace >= duration + 4.0 + 5.0 * |Peers(r)| as real
  {
    if grace >= duration + 4.0 + Longest(|Peers(r)|) {
      LongGraceSuffices(r, duration, grace);
    } else {
      ShortGraceFails(r, duration, grace);
    }
  }
}
