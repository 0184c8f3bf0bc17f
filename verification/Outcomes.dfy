/** What handlers bring about: when counted votes make a leader, when a reply commits a position, when a
    leader gives up, what it sends, and what a snapshot transfer makes of a follower. */
module Outcomes {
  import opened RaftTypes
  import opened Quorum
  import opened RaftSteps
  import opened AbsoluteLog
  import NodeRun
  import Probe

  // ---------------------------------------------------------------- winning an election

  /** A reply makes a leader exactly of a candidate that counts it as a granted vote of its term and then
      has more than half of the cluster; the new leader knows itself as such and has reset its cursors. */
  lemma VoteWinsIff(n: Node, vote: VoteResponse)
    requires WellFormed(n) && n.role != Leader
    ensures var m := HandleVoteResponse(n, vote);
            && (m.role == Leader <==>
                n.role == Candidate && vote.granted && vote.term == n.currentTerm &&
                2 * |n.votes + {vote.nodeId}| > n.totalNodes)
            && (m.role == Leader ==>
                  && m.leaderId == n.id && m.currentTerm == n.currentTerm
                  && forall j :: 0 <= j < n.totalNodes && j != n.id ==>
                       m.sentLengths[j] == AbsLen(n) + 1 && m.ackedLengths[j] == 0)
  {
  }

  /** The servers that granted a vote, the candidate included. */
  function Supporters(self: nat, voters: seq<nat>): set<nat> {
    if voters == [] then {self} else Supporters(self, voters[..|voters| - 1]) + {voters[|voters| - 1]}
  }

  /** The candidate after the granted votes of `voters` in its term, one after the other. */
  function AfterVotes(n: Node, voters: seq<nat>): Node {
    if voters == [] then n
    else HandleVoteResponse(AfterVotes(n, voters[..|voters| - 1]),
                            VoteResponse(voters[|voters| - 1], n.currentTerm, true))
  }

  lemma MoreSupporters(self: nat, voters: seq<nat>)
    requires voters != []
    ensures |Supporters(self, voters[..|voters| - 1])| <= |Supporters(self, voters)|
  {
    SubsetSize(Supporters(self, voters[..|voters| - 1]), Supporters(self, voters));
  }

  lemma {:induction false} VotesCounted(n: Node, voters: seq<nat>)
    requires WellFormed(n) && n.role == Candidate && n.votes == {n.id}
    ensures var m := AfterVotes(n, voters);
            && WellFormed(m) && m.currentTerm == n.currentTerm && m.totalNodes == n.totalNodes && m.role != Follower
            && (m.role == Candidate ==>
                  m.votes == Supporters(n.id, voters) && (voters == [] || 2 * |m.votes| <= n.totalNodes))
            && (m.role == Leader ==> voters != [] && 2 * |Supporters(n.id, voters)| > n.totalNodes)
  {
    if voters != [] {
      VotesCounted(n, voters[..|voters| - 1]);
      MoreSupporters(n.id, voters);
    }
  }

  /** A campaign, in which every vote may be counted any number of times, is won exactly when more than half
      of the cluster supports the candidate and some reply has come: a server alone in its cluster does not
      count its own vote. */
  lemma CampaignWonIff(n: Node, voters: seq<nat>)
    requires WellFormed(n)
    ensures AfterVotes(StartElection(n).0, voters).role == Leader
            <==> voters != [] && 2 * |Supporters(n.id, voters)| > n.totalNodes
  {
    VotesCounted(StartElection(n).0, voters);
  }

  // ---------------------------------------------------------------- committing

  /** The servers that hold position `p` as far as the leader knows, itself included. */
  function KnownHolders(n: Node, p: nat): set<nat>
    requires WellFormed(n)
  {
    set j: nat | j < n.totalNodes && (j == n.id || n.ackedLengths[j] >= p)
  }

  lemma HoldersCounted(n: Node, p: nat)
    requires WellFormed(n) && p > 0
    ensures |KnownHolders(n, p)| == 1 + CountPeers(n.ackedLengths, n.id, |n.ackedLengths|, p - 1)
  {
    var acking := Acknowledging(n.ackedLengths, n.id, |n.ackedLengths|, p - 1);
    assert KnownHolders(n, p) == acking + {n.id};
  }

  /** The commit loop commits exactly the positions of the log that more than half of the cluster is known to
      hold, besides those committed before. */
  lemma CommittedIff(n: Node, p: nat)
    requires WellFormed(n) && p > 0
    ensures p <= CommitLogEntries(n).commitLength <==>
            p <= n.commitLength || (p <= AbsLen(n) && 2 * |KnownHolders(n, p)| > n.totalNodes)
  {
    HoldersCounted(n, p);
    if p <= AbsLen(n) {
      EnoughBelowBound(n.ackedLengths, n.id, AbsLen(n), p - 1);
    }
  }

  /** A leader that gets a positive reply of its term records the acknowledged length, moves the cursor past it and
      commits exactly what more than half of the cluster then holds; what it applies is what it commits. */
  lemma ReplyCommitsIff(n: Node, full: seq<Entry>, follower: nat, resp: LogResponse, p: nat)
    requires NodeRun.InOrder(n, full) && n.role == Leader && follower < n.totalNodes && p > 0
    requires resp.success && resp.term == n.currentTerm
    ensures var m := HandleLogResponse(n, follower, resp);
            && m.ackedLengths == n.ackedLengths[follower := resp.ack]
            && m.sentLengths == n.sentLengths[follower := resp.ack + 1]
            && m.applied == Messages(full[..m.commitLength]) && m.commitLength <= |full|
            && (p <= m.commitLength <==>
                p <= n.commitLength ||
                (p <= |full| &&
                 2 * |set j: nat | j < n.totalNodes && (j == n.id || m.ackedLengths[j] >= p)| > n.totalNodes))
  {
    var l := RecordAck(n, follower, resp.ack);
    NodeRun.LogResponseInOrder(n, full, follower, resp);
    CommittedIff(l, p);
    var m := HandleLogResponse(n, follower, resp);
    assert KnownHolders(l, p) == set j: nat | j < n.totalNodes && (j == n.id || m.ackedLengths[j] >= p);
  }

  /** A negative one moves the cursor back by one position, but not to the snapshot, and nothing else. */
  lemma RejectionBacksOff(n: Node, follower: nat, resp: LogResponse)
    requires WellFormed(n) && n.role == Leader && follower < n.totalNodes && !resp.success && resp.term == n.currentTerm
    ensures var m, cursor := HandleLogResponse(n, follower, resp), n.sentLengths[follower];
            m == n.(sentLengths := n.sentLengths[follower := if cursor > n.lastIndex + 1 then cursor - 1 else cursor])
  {
    assert n.sentLengths[follower := n.sentLengths[follower]] == n.sentLengths;
  }

  // ---------------------------------------------------------------- giving up

  function HealthyPeers(failures: seq<nat>, self: nat): set<nat> {
    set j: nat | j < |failures| && j != self && failures[j] < 5
  }

  lemma {:induction false} HealthyCounted(failures: seq<nat>, self: nat, upTo: nat) returns (s: set<nat>)
    requires upTo <= |failures|
    ensures s == (set j: nat | j < upTo && j != self && failures[j] < 5) && |s| == Healthy(failures, self, upTo)
  {
    if upTo == 0 {
      s := {};
    } else {
      var before := HealthyCounted(failures, self, upTo - 1);
      s := if upTo - 1 != self && failures[upTo - 1] < 5 then before + {upTo - 1} else before;
    }
  }

  /** A leader steps down exactly when it and the followers that failed fewer than five times in a row are
      at most half of the cluster; it stays in its term but forgets its vote. */
  lemma StepsDownIff(n: Node, failures: seq<nat>)
    ensures CheckQuorumHealth(n, failures)
            == if n.role == Leader && 2 * (1 + |HealthyPeers(failures, n.id)|) <= n.totalNodes
               then n.(role := Follower, votedFor := NOBODY, leaderId := NOBODY) else n
  {
    var s := HealthyCounted(failures, n.id, |failures|);
    assert s == HealthyPeers(failures, n.id);
  }

  // ---------------------------------------------------------------- what is sent

  lemma TailFrom(l: Node, full: seq<Entry>, prev: nat)
    requires Represents(l, full) && l.lastIndex <= prev <= |full|
    ensures prev - l.lastIndex <= |l.log| && l.log[prev - l.lastIndex..] == full[prev..]
  {
  }

  lemma PreparedTail(l: Node, full: seq<Entry>, to: nat, prev: nat)
    requires WellFormed(l) && to < l.totalNodes && Represents(l, full)
    requires NextIndex(l, to) == prev + 1 && l.lastIndex <= prev <= |full|
    ensures PrepareLogRequest(l, to)
            == LogRequest(l.id, l.currentTerm, prev, TermAt(full, prev), l.commitLength, full[prev..])
  {
    TailFrom(l, full, prev);
  }

  /** The request for a follower: the tail from the cursor, where a cursor of zero stands for one past the log. A
      cursor at or below the snapshot starts a transfer; with it, or beyond the log, the request is empty. */
  lemma PreparedIs(l: Node, full: seq<Entry>, to: nat)
    requires WellFormed(l) && to < l.totalNodes && Represents(l, full)
    ensures var next := if l.sentLengths[to] == 0 then |full| + 1 else l.sentLengths[to];
            && (NeedsSnapshot(l, to) <==> next <= l.lastIndex)
            && PrepareLogRequest(l, to)
               == if l.lastIndex < next <= |full| + 1
                  then LogRequest(l.id, l.currentTerm, next - 1, TermAt(full, next - 1), l.commitLength, full[next - 1..])
                  else LogRequest(l.id, l.currentTerm, 0, 0, 0, [])
  {
    var next := NextIndex(l, to);
    if l.lastIndex < next <= |full| + 1 {
      PreparedTail(l, full, to, next - 1);
    }
  }

  // ---------------------------------------------------------------- a snapshot transfer

  /** The follower once it has restored the leader's snapshot. */
  function Installed(l: Node, full: seq<Entry>, n: Node): Node
    requires WellFormed(n) && l.lastIndex <= |full|
  {
    HandleInstallSnapshot(n, SnapshotRequest(l.id, l.currentTerm, l.lastIndex, l.lastTerm, true), true,
                          Some(Messages(full[..l.lastIndex]))).0
  }

  /** What it then stands for: the snapshot and what it kept of its own log `f`. */
  function InstalledLog(l: Node, full: seq<Entry>, n: Node, f: seq<Entry>): seq<Entry>
    requires 0 < l.lastIndex <= |full|
  {
    var k := l.lastIndex;
    full[..k] + if n.lastIndex <= k < |f| && f[k].term == full[k - 1].term then f[k + 1..] else []
  }

  lemma InstalledStandsFor(l: Node, full: seq<Entry>, n: Node, f: seq<Entry>)
    requires Represents(l, full) && 0 < l.lastIndex && WellFormed(n) && Represents(n, f) && n.currentTerm <= l.currentTerm
    ensures var m := Installed(l, full, n);
            && Represents(m, InstalledLog(l, full, n, f)) && WellFormed(m) && m.panicked == n.panicked
            && m.lastIndex == l.lastIndex && m.currentTerm == l.currentTerm
  {
    var req := SnapshotRequest(l.id, l.currentTerm, l.lastIndex, l.lastTerm, true);
    var prefix := full[..l.lastIndex];
    RestoredStandsFor(n, f, req, prefix);
    InstallSets(n, req, Messages(prefix));
    NodeRun.SnapshotWellFormed(n, req, true, Some(Messages(prefix)));
  }

  /** After a finished transfer the leader sends exactly what follows the snapshot. */
  lemma ResumesAfterSnapshot(l: Node, full: seq<Entry>, to: nat)
    requires WellFormed(l) && to < l.totalNodes && Represents(l, full)
    ensures var after := FinishTransfer(l, to, l.lastIndex);
            && !NeedsSnapshot(after, to) && after.ackedLengths[to] == l.lastIndex
            && PrepareLogRequest(after, to)
               == LogRequest(l.id, l.currentTerm, l.lastIndex, TermAt(full, l.lastIndex), l.commitLength,
                             full[l.lastIndex..])
  {
    var after := FinishTransfer(l, to, l.lastIndex);
    assert Represents(after, full);
    PreparedIs(after, full, to);
  }

  lemma SamePrefix(g: seq<Entry>, full: seq<Entry>, k: nat)
    requires 0 < k <= |g| && k <= |full| && g[..k] == full[..k]
    ensures AgreeBelow(g, full, k) && TermAt(g, k) == TermAt(full, k)
  {
    forall i | 0 <= i < k
      ensures g[i] == full[i]
    {
      assert g[i] == g[..k][i];
    }
  }

  /** A request for all that follows the snapshot, at a follower that has restored it. */
  lemma AcceptsAfterSnapshot(m: Node, g: seq<Entry>, full: seq<Entry>, req: LogRequest)
    requires WellFormed(m) && !m.panicked && Represents(m, g) && m.currentTerm <= req.term
    requires 0 < m.lastIndex <= |full| && m.lastIndex <= |g| && g[..m.lastIndex] == full[..m.lastIndex]
    requires req.prefixLen == m.lastIndex && req.prefixTerm == TermAt(full, m.lastIndex)
    requires req.suffix == full[m.lastIndex..]
    ensures Accepts(m, req)
    ensures var r := HandleLogRequest(m, req, false);
            var h := AbsAppend(g, m.lastIndex, m.lastIndex, full[m.lastIndex..]);
            && Represents(r.0, h) && r.1.success && r.1.ack == |full|
            && (AgreeBelow(h, full, |full|) <==> AgreeOnOverlap(g, full, m.lastIndex, |full|))
  {
    var k := m.lastIndex;
    SamePrefix(g, full, k);
    LogOkMeans(m, g, k, req.prefixTerm);
    Probe.FollowerTakes(m, g, req);
    assert full[k..] == full[k..|full|];
    AppendAgreesIff(g, k, full, k, |full|);
  }

  /** A snapshot transfer and the request that follows it: the request is accepted and acknowledges the leader's
      whole log, and the follower then holds it exactly when what it had kept of its own log happens to agree, one
      position early; in particular when its log was no longer than the snapshot. */
  lemma TransferLevelsIff(l: Node, full: seq<Entry>, to: nat, n: Node, f: seq<Entry>)
    requires WellFormed(l) && to < l.totalNodes && Represents(l, full) && 0 < l.lastIndex
    requires WellFormed(n) && !n.panicked && Represents(n, f) && n.currentTerm <= l.currentTerm
    ensures var req := PrepareLogRequest(FinishTransfer(l, to, l.lastIndex), to);
            var r := HandleLogRequest(Installed(l, full, n), req, false);
            var g := InstalledLog(l, full, n, f);
            var h := AbsAppend(g, l.lastIndex, l.lastIndex, full[l.lastIndex..]);
            && r.1.success && r.1.ack == |full| && Represents(r.0, h)
            && (AgreeBelow(h, full, |full|) <==> AgreeOnOverlap(g, full, l.lastIndex, |full|))
            && (|f| <= l.lastIndex ==> h == full)
  {
    var k := l.lastIndex;
    var g := InstalledLog(l, full, n, f);
    ResumesAfterSnapshot(l, full, to);
    InstalledStandsFor(l, full, n, f);
    assert g[..k] == full[..k];
    AcceptsAfterSnapshot(Installed(l, full, n), g, full, PrepareLogRequest(FinishTransfer(l, to, k), to));
    if |f| <= k {
      assert g == full[..k];
      assert full[..k] + full[k..] == full;
    }
  }
}
