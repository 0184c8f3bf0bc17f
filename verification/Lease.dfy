/** Lease renewal at a data node against the controller's liveness check, with one clock. */
module Lease {
  import opened RaftTypes
  import opened Topology

  /** Each HTTP exchange of a renewal ends within this many seconds. */
  const CLIENT_TIMEOUT := 2.0

  /** The node serves while its lease lasts. */
  predicate IsActive(validUntil: real, now: real) {
    now < validUntil
  }

  predicate Overdue(seen: real, now: real, grace: real) {
    now - seen > grace
  }

  // ---------------------------------------------------------------- the two objects

  class LeaseManager {
    const duration: real
    var validUntil: real

    constructor (duration: real)
      ensures this.duration == duration && validUntil == 0.0
    {
      this.duration := duration;
      validUntil := 0.0;
    }

    method ExtendLease(now: real)
      modifies this
      ensures validUntil == now + duration
      ensures forall t :: IsActive(validUntil, t) <==> t - now < duration
    {
      validUntil := now + duration;
    }
  }

  /** The ids overdue at `now` among the first `n` of `order`, in that order. */
  function OverdueIds(lastSeen: map<NodeId, real>, now: real, grace: real, order: seq<NodeId>, n: nat): seq<NodeId>
    requires n <= |order| && forall i :: 0 <= i < |order| ==> order[i] in lastSeen
  {
    if n == 0 then []
    else if Overdue(lastSeen[order[n - 1]], now, grace) then
      OverdueIds(lastSeen, now, grace, order, n - 1) + [order[n - 1]]
    else OverdueIds(lastSeen, now, grace, order, n - 1)
  }

  lemma {:induction false} OverdueIdsAre(lastSeen: map<NodeId, real>, now: real, grace: real, order: seq<NodeId>,
                                         n: nat, x: NodeId)
    requires n <= |order| && forall i :: 0 <= i < |order| ==> order[i] in lastSeen
    ensures x in OverdueIds(lastSeen, now, grace, order, n)
            <==> x in order[..n] && Overdue(lastSeen[x], now, grace)
  {
    if n > 0 {
      OverdueIdsAre(lastSeen, now, grace, order, n - 1, x);
      assert order[..n] == order[..n - 1] + [order[n - 1]];
    }
  }

  class Reaper {
    const gracePeriod: real
    var lastSeen: map<NodeId, real>

    constructor (gracePeriod: real)
      ensures this.gracePeriod == gracePeriod && lastSeen == map[]
    {
      this.gracePeriod := gracePeriod;
      lastSeen := map[];
    }

    method Track(id: NodeId, now: real)
      modifies this
      ensures lastSeen == old(lastSeen)[id := now]
    {
      lastSeen := lastSeen[id := now];
    }

    /** Reports and forgets exactly the overdue nodes. */
    method CheckLiveness(now: real, order: seq<NodeId>) returns (dead: seq<NodeId>)
      requires Enumerates(order, lastSeen)
      modifies this
      ensures dead == OverdueIds(old(lastSeen), now, gracePeriod, order, |order|)
      ensures forall x :: x in dead <==> x in old(lastSeen) && Overdue(old(lastSeen)[x], now, gracePeriod)
      ensures lastSeen == old(lastSeen) - Elements(dead)
    {
      dead := [];
      for i := 0 to |order|
        invariant dead == OverdueIds(old(lastSeen), now, gracePeriod, order, i)
        invariant lastSeen == old(lastSeen) - Elements(dead)
        invariant forall x :: x in dead ==> x in order[..i]
      {
        var id := order[i];
        assert id !in order[..i];
        assert id in lastSeen && lastSeen[id] == old(lastSeen)[id];
        if now - lastSeen[id] > gracePeriod {
          lastSeen := lastSeen - {id};
          assert Elements(dead + [id]) == Elements(dead) + {id};
          dead := dead + [id];
        }
      }
      forall x
        ensures x in dead <==> x in old(lastSeen) && Overdue(old(lastSeen)[x], now, gracePeriod)
      {
        OverdueIdsAre(old(lastSeen), now, gracePeriod, order, |order|, x);
        assert order[..|order|] == order;
      }
    }
  }

  // ---------------------------------------------------------------- the timed steps

  /** Where the node's one renewal in progress is: the heartbeat sent at `since`, seen by the
      controller at `seen`, answered at `at`. */
  datatype Renewal =
    | Idle
    | Posting(since: real)
    | Seen(since: real, seen: real)
    | Answered(at: real, seen: real)

  /** `lastSeen` is the controller's entry for the node; `reported` holds from a report of the node's
      death until the controller next sees a heartbeat of the node. */
  datatype World = World(now: real, validUntil: real, renewal: Renewal, lastSeen: Option<real>, reported: bool)

  /** Heartbeats that the node has given up on may still arrive; a renewal may give up at any time. */
  datatype Step = Wait(d: real) | Post | Track | LateTrack | Reply | GiveUp | Extend | Check

  /** Time does not pass a client timeout while the node waits. */
  predicate Timely(r: Renewal, now: real) {
    match r
    case Idle => true
    case Posting(since) => now <= since + CLIENT_TIMEOUT
    case Seen(since, _) => now <= since + CLIENT_TIMEOUT
    case Answered(at, _) => now <= at + CLIENT_TIMEOUT
  }

  predicate Enabled(w: World, s: Step) {
    match s
    case Wait(d) => d >= 0.0 && Timely(w.renewal, w.now + d)
    case Post => w.renewal.Idle?
    case Track => w.renewal.Posting?
    case LateTrack => true
    case Reply => w.renewal.Seen?
    case GiveUp => w.renewal.Posting? || w.renewal.Seen?
    case Extend => w.renewal.Answered?
    case Check => true
  }

  function Next(w: World, s: Step, duration: real, grace: real): World
    requires Enabled(w, s)
  {
    match s
    case Wait(d) => w.(now := w.now + d)
    case Post => w.(renewal := Posting(w.now))
    case Track => w.(renewal := Seen(w.renewal.since, w.now), lastSeen := Some(w.now), reported := false)
    case LateTrack => w.(lastSeen := Some(w.now), reported := false)
    case Reply => w.(renewal := Answered(w.now, w.renewal.seen))
    case GiveUp => w.(renewal := Idle)
    case Extend => w.(renewal := Idle, validUntil := w.now + duration)
    case Check =>
      if w.lastSeen.Some? && Overdue(w.lastSeen.value, w.now, grace) then w.(lastSeen := None, reported := true) else w
  }

  /** A reported node is fenced: its lease has run out. */
  predicate Fenced(w: World) {
    w.reported ==> !IsActive(w.validUntil, w.now)
  }

  // ---------------------------------------------------------------- the invariant

  /** `latest` is when the controller last saw the node; the lease runs at most two client timeouts
      plus its duration beyond that. */
  ghost predicate Inv(w: World, duration: real, grace: real, latest: real) {
    && Timely(w.renewal, w.now) && latest <= w.now
    && w.validUntil <= latest + 4.0 + duration
    && (w.lastSeen.Some? ==> w.lastSeen.value == latest)
    && (w.reported ==> w.now - latest > grace)
    && match w.renewal
       case Idle => true
       case Posting(since) => since <= w.now
       case Seen(since, seen) => since <= seen <= latest
       case Answered(at, seen) => seen <= latest && at <= seen + CLIENT_TIMEOUT
  }

  lemma StepKeeps(w: World, s: Step, duration: real, grace: real, latest: real) returns (latest': real)
    requires Inv(w, duration, grace, latest) && Enabled(w, s)
    ensures Inv(Next(w, s, duration, grace), duration, grace, latest') && latest <= latest'
  {
    latest' := if s.Track? || s.LateTrack? then w.now else latest;
  }

  /** `after` is reached from `w` by `steps`. */
  ghost predicate Run(w: World, steps: seq<Step>, duration: real, grace: real, after: World)
    decreases steps
  {
    if steps == [] then after == w
    else Enabled(w, steps[0]) && Run(Next(w, steps[0], duration, grace), steps[1..], duration, grace, after)
  }

  lemma {:induction false} RunKeeps(w: World, steps: seq<Step>, duration: real, grace: real, after: World, latest: real)
    returns (latest': real)
    requires Inv(w, duration, grace, latest) && Run(w, steps, duration, grace, after)
    ensures Inv(after, duration, grace, latest')
    decreases steps
  {
    if steps == [] {
      latest' := latest;
    } else {
      var l := StepKeeps(w, steps[0], duration, grace, latest);
      latest' := RunKeeps(Next(w, steps[0], duration, grace), steps[1..], duration, grace, after, l);
    }
  }

  const START: World := World(0.0, 0.0, Idle, None, false)

  ghost predicate AllRunsFenced(duration: real, grace: real) {
    forall steps, after :: Run(START, steps, duration, grace, after) ==> Fenced(after)
  }

  lemma LongGraceFences(duration: real, grace: real)
    requires duration >= 0.0 && grace >= duration + 4.0
    ensures AllRunsFenced(duration, grace)
  {
    forall steps, after | Run(START, steps, duration, grace, after)
      ensures Fenced(after)
    {
      var latest := RunKeeps(START, steps, duration, grace, after, 0.0);
    }
  }

  lemma RunOne(w: World, s: Step, rest: seq<Step>, duration: real, grace: real, after: World)
    requires Enabled(w, s) && Run(Next(w, s, duration, grace), rest, duration, grace, after)
    ensures Run(w, [s] + rest, duration, grace, after)
  {
    assert ([s] + rest)[1..] == rest;
  }

  lemma {:induction false} RunOn(w: World, first: seq<Step>, u: World, more: seq<Step>, duration: real, grace: real,
                                 after: World)
    requires Run(w, first, duration, grace, u) && Run(u, more, duration, grace, after)
    ensures Run(w, first + more, duration, grace, after)
    decreases first
  {
    if first == [] {
      assert first + more == more;
    } else {
      RunOn(Next(w, first[0], duration, grace), first[1..], u, more, duration, grace, after);
      assert (first + more)[1..] == first[1..] + more;
    }
  }

  const SLOW: seq<Step> := [Post, Track, Wait(2.0), Reply, Wait(2.0), Extend]

  /** The slowest renewal: both exchanges take a whole client timeout. */
  lemma SlowRenewal(duration: real, grace: real)
    ensures Run(START, SLOW, duration, grace, World(4.0, 4.0 + duration, Idle, Some(0.0), false))
  {
    var w1 := World(0.0, 0.0, Posting(0.0), None, false);
    var w2 := World(0.0, 0.0, Seen(0.0, 0.0), Some(0.0), false);
    var w3 := World(2.0, 0.0, Seen(0.0, 0.0), Some(0.0), false);
    var w4 := World(2.0, 0.0, Answered(2.0, 0.0), Some(0.0), false);
    var w5 := World(4.0, 0.0, Answered(2.0, 0.0), Some(0.0), false);
    var w6 := World(4.0, 4.0 + duration, Idle, Some(0.0), false);
    RunOne(w5, Extend, [], duration, grace, w6);
    RunOne(w4, Wait(2.0), [Extend], duration, grace, w6);
    RunOne(w3, Reply, [Wait(2.0), Extend], duration, grace, w6);
    RunOne(w2, Wait(2.0), [Reply, Wait(2.0), Extend], duration, grace, w6);
    RunOne(w1, Track, [Wait(2.0), Reply, Wait(2.0), Extend], duration, grace, w6);
    RunOne(START, Post, [Track, Wait(2.0), Reply, Wait(2.0), Extend], duration, grace, w6);
  }

  /** After the slowest renewal the check can come while the grace period is over and the lease is not. */
  lemma ShortGraceDoesNotFence(duration: real, grace: real)
    requires duration > 0.0 && grace < duration + 4.0
    ensures !AllRunsFenced(duration, grace)
  {
    var until := 4.0 + duration;
    var d := if grace < 4.0 then 0.0 else (grace + until) / 2.0 - 4.0;
    var w0 := World(4.0, until, Idle, Some(0.0), false);
    var w1 := World(4.0 + d, until, Idle, Some(0.0), false);
    var w2 := World(4.0 + d, until, Idle, None, true);
    SlowRenewal(duration, grace);
    RunOne(w1, Check, [], duration, grace, w2);
    RunOne(w0, Wait(d), [Check], duration, grace, w2);
    RunOn(START, SLOW, w0, [Wait(d)] + [Check], duration, grace, w2);
    assert !Fenced(w2);
  }

  /** Fencing: in every run a node reported dead has no lease, from the report until the controller
      next sees it, exactly when the grace period is at least the lease plus both client timeouts. */
  lemma FencingIff(duration: real, grace: real)
    requires duration > 0.0
    ensures AllRunsFenced(duration, grace) <==> grace >= duration + 4.0
  {
    if grace >= duration + 4.0 {
      LongGraceFences(duration, grace);
    } else {
      ShortGraceDoesNotFence(duration, grace);
    }
  }

  /** The deployed values, five seconds each, do not fence. */
  lemma DefaultsDoNotFence()
    ensures !AllRunsFenced(5.0, 5.0)
  {
    FencingIff(5.0, 5.0);
  }
}
