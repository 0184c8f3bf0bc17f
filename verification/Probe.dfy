/** How a leader finds where a follower's log agrees with its own: it sends the tail from its
    cursor, and every rejection moves the cursor back by one. The leader's log stays the same and
    the follower does not compact meanwhile. */
module Probe {
  import opened RaftTypes
  import opened RaftSteps
  import opened AbsoluteLog
  import opened Iteration
  import NodeRun
  import Reign

  /** A leader and a follower that stands for `log`. */
  datatype Pair = Pair(leader: Node, follower: Node, log: seq<Entry>)

  /** `leader` leads with the log `a`, `follower` is server `j` and knows no later term, and the
      cursor is inside the leader's log. */
  ghost predicate Probing(p: Pair, j: nat, a: seq<Entry>) {
    && WellFormed(p.leader) && WellFormed(p.follower) && p.leader.role == Leader && !p.follower.panicked
    && j < p.leader.totalNodes && p.leader.id != j
    && p.follower.currentTerm <= p.leader.currentTerm
    && Represents(p.leader, a) && Represents(p.follower, p.log)
    && p.leader.lastIndex < p.leader.sentLengths[j] <= |a| + 1
  }

  /** Throughout a leader's term, as long as it leads, this holds for every follower that stands for
      some log, whatever the log. */
  lemma ReignProbes(c: Reign.Cluster, steps: seq<Reign.Step>, d: Reign.Cluster, j: nat, f: seq<Entry>)
    requires Reign.Begins(c) && Reign.Leads(c, steps, d) && j < |d.nodes| && j != d.leader && d.leader < |d.nodes|
    requires d.nodes[d.leader].role == Leader && Represents(d.nodes[j], f) && !d.nodes[j].panicked
    ensures Probing(Pair(d.nodes[d.leader], d.nodes[j], f), j, d.full)
  {
    Reign.BeginsInWindow(c);
    Reign.RunInside(c, steps, d);
  }

  predicate Accepted(p: Pair, j: nat) {
    && WellFormed(p.leader) && WellFormed(p.follower) && j < p.leader.totalNodes
    && Accepts(p.follower, PrepareLogRequest(p.leader, j))
  }

  /** What the follower's log becomes in one exchange. */
  function NextLog(p: Pair, j: nat): seq<Entry> {
    if Accepted(p, j) then
      var req := PrepareLogRequest(p.leader, j);
      AbsAppend(p.log, p.follower.lastIndex, req.prefixLen, req.suffix)
    else p.log
  }

  /** One exchange: the prepared request, its handling, and the leader's handling of the reply. */
  function Round(p: Pair, j: nat): Pair {
    if WellFormed(p.leader) && WellFormed(p.follower) && j < p.leader.totalNodes then
      var r := HandleLogRequest(p.follower, PrepareLogRequest(p.leader, j), false);
      Pair(HandleLogResponse(p.leader, j, r.1), r.0, NextLog(p, j))
    else p
  }

  ghost function Exchange(j: nat): Pair -> Pair {
    (p: Pair) => Round(p, j)
  }

  /** The servers after `k` exchanges. */
  ghost function Rounds(p: Pair, j: nat, k: nat): Pair {
    Iterate(Exchange(j), p, k)
  }

  // ---------------------------------------------------------------- one exchange seen on the logs

  /** The two logs have position `q` in common with the same term, where the follower can tell. */
  ghost predicate Matches(a: seq<Entry>, f: seq<Entry>, snapshotIndex: nat, q: nat) {
    q == 0 || (snapshotIndex <= q <= |f| && q <= |a| && TermAt(a, q) == TermAt(f, q))
  }

  /** The follower's log and the leader's cursor for it. */
  datatype View = View(log: seq<Entry>, cursor: nat)

  /** The logs and indices that stay the same: the leader's log, its snapshot index and the
      follower's. */
  datatype Setting = Setting(a: seq<Entry>, floor: nat, snapshotIndex: nat)

  predicate InLog(t: Setting, v: View) {
    t.floor < v.cursor <= |t.a| + 1
  }

  ghost predicate Hits(t: Setting, v: View) {
    InLog(t, v) && Matches(t.a, v.log, t.snapshotIndex, v.cursor - 1)
  }

  /** An accepted request appends the leader's tail and puts the cursor past its end; a rejected one
      moves the cursor back, but not to the leader's snapshot index. */
  ghost function Probed(t: Setting, v: View): View {
    if !InLog(t, v) then v
    else if Hits(t, v) then View(AbsAppend(v.log, t.snapshotIndex, v.cursor - 1, t.a[v.cursor - 1..]), |t.a| + 1)
    else View(v.log, if v.cursor > t.floor + 1 then v.cursor - 1 else v.cursor)
  }

  ghost function ProbeStep(t: Setting): View -> View {
    (v: View) => Probed(t, v)
  }

  ghost function ProbedTimes(t: Setting, v: View, k: nat): View {
    Iterate(ProbeStep(t), v, k)
  }

  lemma PreparesSuffix(p: Pair, j: nat, a: seq<Entry>)
    requires Probing(p, j, a)
    ensures var req := PrepareLogRequest(p.leader, j);
            && req.term == p.leader.currentTerm && req.prefixLen == p.leader.sentLengths[j] - 1
            && req.suffix == a[req.prefixLen..] && req.prefixTerm == TermAt(a, req.prefixLen)
  {
    Reign.PreparesTail(p.leader, a, j);
  }

  lemma PreparesAll(p: Pair, j: nat, a: seq<Entry>)
    requires Probing(p, j, a)
    ensures var req := PrepareLogRequest(p.leader, j);
            req.term == p.leader.currentTerm && req.prefixLen + |req.suffix| == |a|
  {
    PreparesSuffix(p, j, a);
  }

  /** The request is accepted exactly when the position before the cursor matches. */
  lemma AcceptedIffMatches(p: Pair, j: nat, a: seq<Entry>)
    requires Probing(p, j, a)
    ensures Accepted(p, j) <==> Matches(a, p.log, p.follower.lastIndex, p.leader.sentLengths[j] - 1)
  {
    PreparesSuffix(p, j, a);
    LogOkMeans(p.follower, p.log, p.leader.sentLengths[j] - 1, PrepareLogRequest(p.leader, j).prefixTerm);
  }

  lemma FollowerAnswers(n: Node, req: LogRequest)
    requires WellFormed(n) && n.currentTerm <= req.term
    ensures HandleLogRequest(n, req, false)
            == if Accepts(n, req) then
                 (AppendEntries(Observe(n, req), req.prefixLen, req.leaderCommit, req.suffix, false),
                  LogResponse(n.id, req.term, req.prefixLen + |req.suffix|, true))
               else (Observe(n, req), LogResponse(n.id, req.term, 0, false))
  {
  }

  lemma LeaderHears(l: Node, j: nat, resp: LogResponse)
    requires WellFormed(l) && j < l.totalNodes && l.role == Leader && resp.term == l.currentTerm
    ensures HandleLogResponse(l, j, resp)
            == if resp.success then CommitLogEntries(RecordAck(l, j, resp.ack)) else BackOff(l, j)
  {
  }

  /** A rejected exchange changes no log and moves the cursor back, down to the floor. */
  lemma RejectedRound(p: Pair, j: nat, a: seq<Entry>)
    requires Probing(p, j, a) && !Accepted(p, j)
    ensures Round(p, j) == Pair(BackOff(p.leader, j), Observe(p.follower, PrepareLogRequest(p.leader, j)), p.log)
  {
    var req := PrepareLogRequest(p.leader, j);
    PreparesSuffix(p, j, a);
    FollowerAnswers(p.follower, req);
    LeaderHears(p.leader, j, LogResponse(p.follower.id, req.term, 0, false));
  }

  lemma FollowerAppends(n: Node, f: seq<Entry>, req: LogRequest)
    requires WellFormed(n) && Represents(n, f) && !n.panicked && n.currentTerm <= req.term
    ensures var m := AppendEntries(Observe(n, req), req.prefixLen, req.leaderCommit, req.suffix, false);
            Appends(n, f, req, m)
  {
    var seen := Observe(n, req);
    assert Represents(seen, f);
    AppendEntriesRepresents(seen, f, req.prefixLen, req.leaderCommit, req.suffix, false);
    NodeRun.AppendWellFormed(seen, req, false);
  }

  /** `m` is the follower `n` of log `f` once it has taken the request. */
  ghost predicate Appends(n: Node, f: seq<Entry>, req: LogRequest, m: Node) {
    && WellFormed(m) && !m.panicked && m.lastIndex == n.lastIndex && m.currentTerm == req.term
    && Represents(m, AbsAppend(f, n.lastIndex, req.prefixLen, req.suffix))
  }

  lemma FollowerTakes(n: Node, f: seq<Entry>, req: LogRequest)
    requires WellFormed(n) && Represents(n, f) && !n.panicked && Accepts(n, req)
    ensures Appends(n, f, req, HandleLogRequest(n, req, false).0)
    ensures HandleLogRequest(n, req, false).1 == LogResponse(n.id, req.term, req.prefixLen + |req.suffix|, true)
  {
    FollowerAnswers(n, req);
    FollowerAppends(n, f, req);
  }

  /** `m` is the leader `l` of log `a` once server `j` has acknowledged all of it. */
  ghost predicate Recorded(l: Node, m: Node, a: seq<Entry>, j: nat) {
    && WellFormed(m) && Represents(m, a) && m.role == l.role && m.id == l.id && m.totalNodes == l.totalNodes
    && m.currentTerm == l.currentTerm && m.lastIndex == l.lastIndex
    && j < m.totalNodes && m.sentLengths[j] == |a| + 1 && m.ackedLengths[j] == |a|
  }

  lemma CommitRecorded(l: Node, m: Node, a: seq<Entry>, j: nat)
    requires WellFormed(l) && Represents(l, a) && j < l.totalNodes && WellFormed(m)
    requires m == RecordAck(l, j, |a|).(commitLength := m.commitLength, applied := m.applied)
    ensures Recorded(l, m, a, j)
  {
  }

  lemma LeaderRecords(l: Node, a: seq<Entry>, j: nat, resp: LogResponse)
    requires WellFormed(l) && Represents(l, a) && j < l.totalNodes && l.role == Leader
    requires resp.success && resp.term == l.currentTerm && resp.ack == |a|
    ensures Recorded(l, HandleLogResponse(l, j, resp), a, j)
  {
    var n := RecordAck(l, j, |a|);
    LeaderHears(l, j, resp);
    NodeRun.CommitWellFormed(n);
    CommitRecorded(l, CommitLogEntries(n), a, j);
  }

  /** The pair probes with the view `v`. */
  ghost predicate Sees(j: nat, t: Setting, p: Pair, v: View) {
    && Probing(p, j, t.a) && p.log == v.log && p.leader.sentLengths[j] == v.cursor
    && p.leader.lastIndex == t.floor && p.follower.lastIndex == t.snapshotIndex
  }

  lemma RejectedParts(j: nat, t: Setting, p: Pair, v: View, req: LogRequest)
    requires Sees(j, t, p, v) && !Hits(t, v) && req.term == p.leader.currentTerm
    ensures Sees(j, t, Pair(BackOff(p.leader, j), Observe(p.follower, req), p.log), Probed(t, v))
  {
  }

  lemma RejectedMeets(j: nat, t: Setting, p: Pair, v: View, req: LogRequest)
    requires Sees(j, t, p, v) && !Accepted(p, j) && req == PrepareLogRequest(p.leader, j)
    ensures Sees(j, t, Pair(BackOff(p.leader, j), Observe(p.follower, req), p.log), Probed(t, v))
  {
    AcceptedIffMatches(p, j, t.a);
    PreparesAll(p, j, t.a);
    RejectedParts(j, t, p, v, req);
  }

  lemma RejectedSees(j: nat, t: Setting, p: Pair, v: View)
    requires Sees(j, t, p, v) && !Accepted(p, j)
    ensures Sees(j, t, Round(p, j), Probed(t, v))
  {
    RejectedRound(p, j, t.a);
    RejectedMeets(j, t, p, v, PrepareLogRequest(p.leader, j));
  }

  /** An accepted exchange acknowledges the whole of the leader's log. */
  lemma AcceptedParts(j: nat, t: Setting, p: Pair, v: View, req: LogRequest, l: Node, g: Node)
    requires Sees(j, t, p, v) && Hits(t, v) && Recorded(p.leader, l, t.a, j) && Appends(p.follower, p.log, req, g)
    requires req.term == p.leader.currentTerm && req.prefixLen == v.cursor - 1 && req.suffix == t.a[v.cursor - 1..]
    ensures Sees(j, t, Pair(l, g, AbsAppend(p.log, p.follower.lastIndex, req.prefixLen, req.suffix)), Probed(t, v))
  {
  }

  lemma RoundParts(p: Pair, j: nat, req: LogRequest, g: Node, resp: LogResponse, l: Node)
    requires WellFormed(p.leader) && WellFormed(p.follower) && j < p.leader.totalNodes
    requires req == PrepareLogRequest(p.leader, j) && Accepts(p.follower, req)
    requires HandleLogRequest(p.follower, req, false) == (g, resp) && HandleLogResponse(p.leader, j, resp) == l
    ensures Round(p, j) == Pair(l, g, AbsAppend(p.log, p.follower.lastIndex, req.prefixLen, req.suffix))
  {
  }

  /** Both sides of an accepted exchange, given what each handler returns. */
  lemma Exchanged(p: Pair, j: nat, a: seq<Entry>, req: LogRequest, g: Node, resp: LogResponse, l: Node)
    requires WellFormed(p.leader) && p.leader.role == Leader && Represents(p.leader, a) && j < p.leader.totalNodes
    requires WellFormed(p.follower) && !p.follower.panicked && Represents(p.follower, p.log)
    requires Accepts(p.follower, req) && req.term == p.leader.currentTerm && req.prefixLen + |req.suffix| == |a|
    requires HandleLogRequest(p.follower, req, false) == (g, resp) && HandleLogResponse(p.leader, j, resp) == l
    ensures Recorded(p.leader, l, a, j) && Appends(p.follower, p.log, req, g)
  {
    FollowerTakes(p.follower, p.log, req);
    LeaderRecords(p.leader, a, j, resp);
  }

  lemma AcceptedRound(p: Pair, j: nat, a: seq<Entry>) returns (l: Node, g: Node)
    requires Probing(p, j, a) && Accepted(p, j)
    ensures var req := PrepareLogRequest(p.leader, j);
            && Round(p, j) == Pair(l, g, AbsAppend(p.log, p.follower.lastIndex, req.prefixLen, req.suffix))
            && Recorded(p.leader, l, a, j) && Appends(p.follower, p.log, req, g)
  {
    PreparesAll(p, j, a);
    var req := PrepareLogRequest(p.leader, j);
    var r := HandleLogRequest(p.follower, req, false);
    g, l := r.0, HandleLogResponse(p.leader, j, r.1);
    Exchanged(p, j, a, req, g, r.1, l);
    RoundParts(p, j, req, g, r.1, l);
  }

  lemma AcceptedMeets(j: nat, t: Setting, p: Pair, v: View, req: LogRequest, l: Node, g: Node)
    requires Sees(j, t, p, v) && Accepted(p, j) && req == PrepareLogRequest(p.leader, j)
    requires Recorded(p.leader, l, t.a, j) && Appends(p.follower, p.log, req, g)
    ensures Sees(j, t, Pair(l, g, AbsAppend(p.log, p.follower.lastIndex, req.prefixLen, req.suffix)), Probed(t, v))
  {
    AcceptedIffMatches(p, j, t.a);
    PreparesSuffix(p, j, t.a);
    AcceptedParts(j, t, p, v, req, l, g);
  }

  lemma AcceptedSees(j: nat, t: Setting, p: Pair, v: View)
    requires Sees(j, t, p, v) && Accepted(p, j)
    ensures Sees(j, t, Round(p, j), Probed(t, v))
  {
    var l, g := AcceptedRound(p, j, t.a);
    AcceptedMeets(j, t, p, v, PrepareLogRequest(p.leader, j), l, g);
  }

  ghost function SeesIn(j: nat, t: Setting): (Pair, View) -> bool {
    (p: Pair, v: View) => Sees(j, t, p, v)
  }

  /** One exchange of the servers is one exchange on the logs. */
  lemma ExchangeSimulates(j: nat, t: Setting)
    ensures Simulation(Exchange(j), ProbeStep(t), SeesIn(j, t))
  {
    forall p, v | Sees(j, t, p, v)
      ensures Sees(j, t, Round(p, j), Probed(t, v))
    {
      if Accepted(p, j) {
        AcceptedSees(j, t, p, v);
      } else {
        RejectedSees(j, t, p, v);
      }
    }
  }

  /** Any number of exchanges of the servers is that number of exchanges on the logs. */
  lemma RoundsSee(j: nat, t: Setting, p: Pair, v: View, k: nat)
    requires Sees(j, t, p, v)
    ensures Sees(j, t, Rounds(p, j, k), ProbedTimes(t, v, k))
  {
    ExchangeSimulates(j, t);
    IterateSimulates(Exchange(j), ProbeStep(t), SeesIn(j, t), p, v, k);
  }

  // ---------------------------------------------------------------- where probing stops

  ghost function AcceptedBy(j: nat): Pair -> bool {
    (p: Pair) => Accepted(p, j)
  }

  function Prefix(p: Pair, j: nat): nat {
    if WellFormed(p.leader) && j < p.leader.totalNodes then PrepareLogRequest(p.leader, j).prefixLen else 0
  }

  /** The first `k` requests are rejected and the next one, from `q` on, is accepted. */
  ghost predicate StopsAt(p: Pair, j: nat, k: nat, q: nat) {
    FirstStop(Exchange(j), AcceptedBy(j), p, k) && Prefix(Rounds(p, j, k), j) == q
  }

  ghost predicate ProbeEnds(p: Pair, j: nat) {
    exists k, q :: StopsAt(p, j, k, q)
  }

  ghost function HitsIn(t: Setting): View -> bool {
    (v: View) => Hits(t, v)
  }

  /** The same on the logs. */
  ghost predicate Stops(t: Setting, v: View, k: nat, q: nat) {
    FirstStop(ProbeStep(t), HitsIn(t), v, k) && ProbedTimes(t, v, k).cursor - 1 == q
  }

  lemma SeesAccepted(j: nat, t: Setting, p: Pair, v: View)
    requires Sees(j, t, p, v)
    ensures Accepted(p, j) <==> Hits(t, v)
    ensures Prefix(p, j) == v.cursor - 1
  {
    AcceptedIffMatches(p, j, t.a);
    PreparesSuffix(p, j, t.a);
  }

  lemma StopsSee(j: nat, t: Setting, p: Pair, v: View, k: nat, q: nat)
    requires Sees(j, t, p, v)
    ensures StopsAt(p, j, k, q) <==> Stops(t, v, k, q)
  {
    forall x, y | SeesIn(j, t)(x, y)
      ensures AcceptedBy(j)(x) <==> HitsIn(t)(y)
    {
      SeesAccepted(j, t, x, y);
    }
    ExchangeSimulates(j, t);
    StopSimulates(Exchange(j), ProbeStep(t), SeesIn(j, t), AcceptedBy(j), HitsIn(t), p, v, k);
    RoundsSee(j, t, p, v, k);
    SeesAccepted(j, t, Rounds(p, j, k), ProbedTimes(t, v, k));
  }

  /** Nothing from `low` up to `high` matches. */
  ghost predicate NoMatch(t: Setting, f: seq<Entry>, low: nat, high: nat) {
    forall r :: low <= r < high ==> !Matches(t.a, f, t.snapshotIndex, r)
  }

  /** `q` is the greatest position from the leader's snapshot to the cursor that matches. */
  ghost predicate GreatestMatch(t: Setting, v: View, q: nat) {
    t.floor <= q < v.cursor && Matches(t.a, v.log, t.snapshotIndex, q) && NoMatch(t, v.log, q + 1, v.cursor)
  }

  /** Each exchange down to the greatest match moves the cursor back by one. */
  lemma {:induction false} Descends(t: Setting, v: View, q: nat)
    requires InLog(t, v) && GreatestMatch(t, v, q)
    ensures Stops(t, v, v.cursor - 1 - q, q) && ProbedTimes(t, v, v.cursor - 1 - q) == View(v.log, q + 1)
    decreases v.cursor
  {
    if v.cursor - 1 > q {
      assert ProbeStep(t)(v) == View(v.log, v.cursor - 1);
      Descends(t, View(v.log, v.cursor - 1), q);
    }
  }

  /** Probing stops nowhere else. */
  lemma {:induction false} StopPasses(t: Setting, v: View, k: nat, q: nat)
    requires InLog(t, v) && Stops(t, v, k, q)
    ensures GreatestMatch(t, v, q) && k == v.cursor - 1 - q
    decreases k
  {
    if k > 0 {
      StopPasses(t, Probed(t, v), k - 1, q);
    }
  }

  /** The view of a pair and the setting it is seen in. */
  function ViewOf(p: Pair, j: nat): View
    requires j < |p.leader.sentLengths|
  {
    View(p.log, p.leader.sentLengths[j])
  }

  function SettingOf(p: Pair, a: seq<Entry>): Setting {
    Setting(a, p.leader.lastIndex, p.follower.lastIndex)
  }

  /** From any cursor, probing stops after one rejection for each position above it, at the greatest
      match, and both logs are then as they were; it stops nowhere else. */
  lemma ProbeStopsAtGreatestMatch(p: Pair, j: nat, a: seq<Entry>, k: nat, q: nat)
    requires Probing(p, j, a)
    ensures StopsAt(p, j, k, q)
            <==> GreatestMatch(SettingOf(p, a), ViewOf(p, j), q) && k == p.leader.sentLengths[j] - 1 - q
    ensures StopsAt(p, j, k, q) ==> Probing(Rounds(p, j, k), j, a) && Rounds(p, j, k).log == p.log
  {
    var t, v := SettingOf(p, a), ViewOf(p, j);
    StopsSee(j, t, p, v, k, q);
    if GreatestMatch(t, v, q) {
      Descends(t, v, q);
    }
    if Stops(t, v, k, q) {
      StopPasses(t, v, k, q);
      RoundsSee(j, t, p, v, k);
    }
  }

  ghost predicate HasMatch(t: Setting, v: View) {
    exists r :: t.floor <= r < v.cursor && Matches(t.a, v.log, t.snapshotIndex, r)
  }

  lemma {:induction false} GreatestMatchExists(t: Setting, v: View, r: nat, top: nat) returns (q: nat)
    requires t.floor <= r <= top < v.cursor && Matches(t.a, v.log, t.snapshotIndex, r)
    requires NoMatch(t, v.log, top + 1, v.cursor)
    ensures GreatestMatch(t, v, q)
    decreases top
  {
    if Matches(t.a, v.log, t.snapshotIndex, top) {
      q := top;
    } else {
      q := GreatestMatchExists(t, v, r, top - 1);
    }
  }

  lemma MatchStops(p: Pair, j: nat, a: seq<Entry>) returns (k: nat, q: nat)
    requires Probing(p, j, a) && HasMatch(SettingOf(p, a), ViewOf(p, j))
    ensures StopsAt(p, j, k, q)
  {
    var t, v := SettingOf(p, a), ViewOf(p, j);
    var r :| t.floor <= r < v.cursor && Matches(t.a, v.log, t.snapshotIndex, r);
    q := GreatestMatchExists(t, v, r, v.cursor - 1);
    k := v.cursor - 1 - q;
    ProbeStopsAtGreatestMatch(p, j, a, k, q);
  }

  /** Probing ends if and only if some position from the leader's snapshot to the cursor matches. */
  lemma ProbeEndsIff(p: Pair, j: nat, a: seq<Entry>)
    requires Probing(p, j, a)
    ensures ProbeEnds(p, j) <==> HasMatch(SettingOf(p, a), ViewOf(p, j))
  {
    if HasMatch(SettingOf(p, a), ViewOf(p, j)) {
      var k, q := MatchStops(p, j, a);
    }
    if ProbeEnds(p, j) {
      var k, q :| StopsAt(p, j, k, q);
      ProbeStopsAtGreatestMatch(p, j, a, k, q);
    }
  }

  // ---------------------------------------------------------------- what remains at the stop

  /** Section 5.3 of the Raft paper, for two logs: a position with the same term in both has the
      same entries up to it. */
  ghost predicate LogMatching(a: seq<Entry>, f: seq<Entry>) {
    forall p :: 0 < p <= |a| && p <= |f| && TermAt(a, p) == TermAt(f, p) ==> AgreeBelow(a, f, p)
  }

  /** If the logs differ anywhere from `q` on, they differ in term in the first entry after `q`. */
  ghost predicate ShowsFirst(a: seq<Entry>, f: seq<Entry>, q: nat) {
    !AgreeOnOverlap(f, a, q, |a|) ==> q < |a| && q < |f| && f[q].term != a[q].term
  }

  /** Where probing stops, from any cursor, logs that match agree below the stop, and what conflict
      remains shows in the first entry of the suffix; except when the very first request is accepted
      below the leader's end, or at zero below the follower's snapshot. */
  lemma ConflictShowsFirst(p: Pair, j: nat, a: seq<Entry>, k: nat, q: nat)
    requires Probing(p, j, a) && LogMatching(a, p.log) && StopsAt(p, j, k, q)
    ensures AgreeBelow(p.log, a, q)
    ensures ShowsFirst(a, p.log, q) || (k == 0 && p.leader.sentLengths[j] <= |a|) || q < p.follower.lastIndex
  {
    ProbeStopsAtGreatestMatch(p, j, a, k, q);
    assert q > 0 ==> AgreeBelow(a, p.log, q);
    if k > 0 && p.follower.lastIndex <= q && q < |a| && q < |p.log| {
      assert !Matches(a, p.log, p.follower.lastIndex, q + 1);
    }
  }
}
