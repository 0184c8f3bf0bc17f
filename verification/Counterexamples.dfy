/** Runs that show what the hypotheses of the safety theorems are for. */
module Counterexamples {
  import opened RaftTypes
  import opened RaftSteps
  import NodeRun
  import opened Election

  /** A server of a cluster of three that has not run before. */
  function NewServer(id: nat): Node {
    Node(id, 3, 0, NOBODY, [], 0, Follower, NOBODY, {}, [0, 0, 0], [0, 0, 0], 0, 0, 1000, [], [], false)
  }

  function NewCluster(): Cluster {
    Cluster([NewServer(0), NewServer(1), NewServer(2)], {}, {}, {}, {})
  }

  /** Running `events` from `c` ends in `d`. */
  ghost predicate Leads(c: Cluster, events: seq<Event>, d: Cluster) {
    Shape(c) && EnabledRun(c, events) && RunEvents(c, events) == d
  }

  lemma {:induction false} LeadsThen(c: Cluster, events: seq<Event>, d: Cluster, e: Event)
    requires Leads(c, events, d) && Shape(d) && Enabled(d, e)
    ensures Leads(c, events + [e], Next(d, e)) && Shape(Next(d, e))
    decreases |events|
  {
    NextShape(d, e);
    if events == [] {
      assert events + [e] == [e];
      assert [e][1..] == [];
    } else {
      NextShape(c, events[0]);
      LeadsThen(Next(c, events[0]), events[1..], d, e);
      assert (events + [e])[1..] == events[1..] + [e];
    }
  }

  /** A state some run of a new cluster of three ends in. */
  ghost predicate Reachable(c: Cluster) {
    Shape(c) && exists events :: Leads(NewCluster(), events, c)
  }

  lemma ReachableThen(c: Cluster, e: Event) returns (d: Cluster)
    requires Reachable(c) && Enabled(c, e)
    ensures Reachable(d) && d == Next(c, e)
  {
    var events :| Leads(NewCluster(), events, c);
    LeadsThen(NewCluster(), events, c, e);
    d := Next(c, e);
  }

  lemma NewIsReachable()
    ensures Reachable(NewCluster()) && Init(NewCluster())
  {
    assert Leads(NewCluster(), [], NewCluster());
  }

  // Each kind of event, with what it leaves behind.

  lemma Campaign(c: Cluster, i: nat) returns (d: Cluster)
    requires Reachable(c) && i < |c.nodes|
    ensures Reachable(d) && d.nodes == c.nodes[i := StartElection(c.nodes[i]).0]
    ensures d.requests == c.requests + {StartElection(c.nodes[i]).1} && d.leaders == c.leaders
  {
    d := ReachableThen(c, Timeout(i));
  }

  lemma AskVote(c: Cluster, i: nat, req: VoteRequest) returns (d: Cluster)
    requires Reachable(c) && i < |c.nodes| && req in c.requests && req.candidateId != i
    ensures Reachable(d) && d.nodes == c.nodes[i := HandleVoteRequest(c.nodes[i], req).0]
    ensures d.requests == c.requests && c.leaders <= d.leaders
    ensures VoteReply(req.candidateId, HandleVoteRequest(c.nodes[i], req).1) in d.replies
  {
    d := ReachableThen(c, GetRequest(i, req));
  }

  /** A second vote makes a candidate of three the leader. */
  lemma Win(c: Cluster, i: nat, resp: VoteResponse) returns (d: Cluster)
    requires Reachable(c) && i < |c.nodes| && VoteReply(i, resp) in c.replies
    requires c.nodes[i].totalNodes == 3 && c.nodes[i].role == Candidate && c.nodes[i].votes == {i}
    requires resp.granted && resp.term == c.nodes[i].currentTerm && resp.nodeId != i
    ensures Reachable(d) && |d.nodes| == |c.nodes| && d.requests == c.requests
    ensures d.nodes[i].role == Leader && d.nodes[i].currentTerm == c.nodes[i].currentTerm
    ensures d.nodes[i].log == c.nodes[i].log && d.nodes[i].lastIndex == c.nodes[i].lastIndex
    ensures forall j :: 0 <= j < |c.nodes| && j != i ==> d.nodes[j] == c.nodes[j]
    ensures d.leaders == c.leaders + {Crown(c.nodes[i].currentTerm, i)}
  {
    assert {i} + {resp.nodeId} == {i, resp.nodeId};
    d := ReachableThen(c, GetReply(i, resp));
  }

  lemma Happens(c: Cluster, i: nat, op: NodeRun.Op) returns (d: Cluster)
    requires Reachable(c) && i < |c.nodes| && NotElection(c.nodes[i], op)
    ensures Reachable(d) && d.nodes == c.nodes[i := NodeRun.Step(c.nodes[i], op)]
    ensures d.requests == c.requests && c.leaders <= d.leaders
  {
    d := ReachableThen(c, Other(i, op));
  }

  /** A candidate of term `term` with an empty log. */
  function Campaigner(id: nat, term: int): Node {
    NewServer(id).(role := Candidate, currentTerm := term, votedFor := id, votes := {id})
  }

  // ---------------------------------------------------------------- a stale request from the leader

  /** Servers 0 and 2 campaign in term 2, each after an unsuccessful term 1. */
  lemma BothCampaign() returns (c: Cluster)
    ensures Reachable(c) && c.nodes == [Campaigner(0, 2), NewServer(1), Campaigner(2, 2)]
    ensures VoteRequest(0, 1, 0, 0) in c.requests && VoteRequest(0, 2, 0, 0) in c.requests
    ensures VoteRequest(2, 2, 0, 0) in c.requests
  {
    NewIsReachable();
    c := CampaignTwice(NewCluster(), 0);
    c := CampaignTwice(c, 2);
  }

  lemma NewServerCampaigns(i: nat)
    ensures StartElection(NewServer(i)) == (Campaigner(i, 1), VoteRequest(i, 1, 0, 0))
  {
  }

  lemma CampaignerCampaigns(i: nat)
    ensures StartElection(Campaigner(i, 1)) == (Campaigner(i, 2), VoteRequest(i, 2, 0, 0))
  {
  }

  /** Server `i` campaigns and becomes `m`, announcing `req`. */
  lemma CampaignAs(c: Cluster, i: nat, m: Node, req: VoteRequest) returns (d: Cluster)
    requires Reachable(c) && i < |c.nodes| && StartElection(c.nodes[i]) == (m, req)
    ensures Reachable(d) && d.nodes == c.nodes[i := m] && d.requests == c.requests + {req}
  {
    d := Campaign(c, i);
  }

  lemma CampaignTwice(c: Cluster, i: nat) returns (d: Cluster)
    requires Reachable(c) && i < |c.nodes| && c.nodes[i] == NewServer(i)
    ensures Reachable(d) && d.nodes == c.nodes[i := Campaigner(i, 2)]
    ensures d.requests == c.requests + {VoteRequest(i, 1, 0, 0)} + {VoteRequest(i, 2, 0, 0)}
  {
    NewServerCampaigns(i);
    var e := CampaignAs(c, i, Campaigner(i, 1), VoteRequest(i, 1, 0, 0));
    CampaignerCampaigns(i);
    d := CampaignAs(e, i, Campaigner(i, 2), VoteRequest(i, 2, 0, 0));
  }

  lemma NewServerVotes(i: nat, candidate: nat, term: int)
    requires term > 0
    ensures HandleVoteRequest(NewServer(i), VoteRequest(candidate, term, 0, 0))
            == (NewServer(i).(currentTerm := term, votedFor := candidate), VoteResponse(i, term, true))
  {
  }

  lemma VoterHearsLeader(n: Node, req: LogRequest)
    requires n == NewServer(1).(currentTerm := 2, votedFor := 0) && req == LogRequest(0, 2, 0, 0, 0, [])
    ensures HandleLogRequest(n, req, false).0 == n.(leaderId := 0)
  {
    assert n.log + [] == n.log;
  }

  /** Server 1 votes for 0, which wins term 2. */
  lemma FirstElected() returns (c: Cluster)
    ensures Reachable(c) && |c.nodes| == 3 && Crown(2, 0) in c.leaders
    ensures VoteRequest(0, 1, 0, 0) in c.requests && VoteRequest(2, 2, 0, 0) in c.requests
    ensures c.nodes[1] == NewServer(1).(currentTerm := 2, votedFor := 0) && c.nodes[2] == Campaigner(2, 2)
  {
    c := BothCampaign();
    NewServerVotes(1, 0, 2);
    c := AskVote(c, 1, VoteRequest(0, 2, 0, 0));
    c := Win(c, 0, VoteResponse(1, 2, true));
  }

  /** It then makes itself known to 1. */
  lemma FirstWins() returns (c: Cluster)
    ensures Reachable(c) && |c.nodes| == 3 && Crown(2, 0) in c.leaders
    ensures VoteRequest(0, 1, 0, 0) in c.requests && VoteRequest(2, 2, 0, 0) in c.requests
    ensures c.nodes[1] == NewServer(1).(currentTerm := 2, votedFor := 0, leaderId := 0)
    ensures c.nodes[2] == Campaigner(2, 2)
  {
    c := FirstElected();
    VoterHearsLeader(c.nodes[1], LogRequest(0, 2, 0, 0, 0, []));
    c := Happens(c, 1, NodeRun.OnLogRequest(LogRequest(0, 2, 0, 0, 0, []), false));
  }

  /** A delayed vote request of term 1 from the leader of term 2 makes server 1 forget its vote,
      so a second server wins term 2 while the first still leads. */
  lemma StaleRequestGivesTwoLeaders()
    ensures exists c :: Reachable(c) && !OneLeaderPerTerm(c)
  {
    var c := FirstWins();
    c := AskVote(c, 1, VoteRequest(0, 1, 0, 0));
    c := AskVote(c, 1, VoteRequest(2, 2, 0, 0));
    c := Win(c, 2, VoteResponse(1, 2, true));
    assert Crown(2, 0) in c.leaders && Crown(2, 2) in c.leaders;
  }

  // ---------------------------------------------------------------- a leader that loses its quorum

  /** Servers 0 and 2 campaign in term 1 and server 0 wins with the vote of server 1. */
  lemma FirstWinsTermOne() returns (c: Cluster)
    ensures Reachable(c) && |c.nodes| == 3 && Crown(1, 0) in c.leaders && VoteRequest(2, 1, 0, 0) in c.requests
    ensures c.nodes[0].role == Leader && c.nodes[0].currentTerm == 1 && c.nodes[0].log == [] && c.nodes[0].lastIndex == 0
    ensures c.nodes[2] == Campaigner(2, 1)
  {
    NewIsReachable();
    c := Campaign(NewCluster(), 0);
    c := Campaign(c, 2);
    c := AskVote(c, 1, VoteRequest(0, 1, 0, 0));
    c := Win(c, 0, VoteResponse(1, 1, true));
  }

  /** The leader of term 1 steps down for want of healthy followers, drops its vote, and then
      votes for another candidate of the same term, which wins it too. */
  lemma QuorumLossGivesTwoLeaders()
    ensures exists c :: Reachable(c) && !OneLeaderPerTerm(c)
  {
    var c := FirstWinsTermOne();
    assert Healthy([0, 5, 5], 0, 3) == 0 by {
      assert Healthy([0, 5, 5], 0, 2) == 0;
    }
    c := Happens(c, 0, NodeRun.OnQuorumCheck([0, 5, 5]));
    c := AskVote(c, 0, VoteRequest(2, 1, 0, 0));
    c := Win(c, 2, VoteResponse(0, 1, true));
    assert Crown(1, 0) in c.leaders && Crown(1, 2) in c.leaders;
  }

  // ---------------------------------------------------------------- a snapshot that cannot be restored

  const NOOP: Message := Message(CommandMsg, 0, None, [], "", "")

  function ThreeEntries(): seq<Entry> {
    [Entry(1, NOOP), Entry(1, NOOP), Entry(1, NOOP)]
  }

  /** A follower of term 1 that has committed and applied three entries. */
  function Settled(threshold: int): Node {
    NewServer(1).(currentTerm := 1, log := ThreeEntries(), commitLength := 3, threshold := threshold,
                  applied := [NOOP, NOOP, NOOP])
  }

  lemma SettledInOrder(threshold: int)
    ensures NodeRun.InOrder(Settled(threshold), ThreeEntries())
  {
    assert ThreeEntries()[..3] == ThreeEntries();
  }

  lemma CutLogs(threshold: int)
    ensures var e := Entry(2, NOOP);
            && Accepts(Settled(threshold), LogRequest(0, 2, 0, 0, 0, [e, e, e, e]))
            && Accepts(Settled(threshold), LogRequest(0, 2, 0, 0, 4, [e]))
            && Appended(Settled(threshold), 0, [e, e, e, e]) == [e] && Appended(Settled(threshold), 0, [e]) == []
  {
    var e := Entry(2, NOOP);
    assert [e, e, e, e][3..] == [e];
    assert ThreeEntries()[..0] == [];
  }

  lemma CutPanics()
    ensures var e := Entry(2, NOOP);
            HandleLogRequest(Settled(1), LogRequest(0, 2, 0, 0, 0, [e, e, e, e]), true).0.panicked
  {
    var req := LogRequest(0, 2, 0, 0, 0, [Entry(2, NOOP), Entry(2, NOOP), Entry(2, NOOP), Entry(2, NOOP)]);
    CutLogs(1);
    NodeRun.TakingIsReplacing(Settled(1), req, true);
  }

  lemma CutMovesBack()
    ensures HandleLogRequest(Settled(1000), LogRequest(0, 2, 0, 0, 4, [Entry(2, NOOP)]), true).0.commitLength == 0
  {
    CutLogs(1000);
    NodeRun.TakingIsReplacing(Settled(1000), LogRequest(0, 2, 0, 0, 4, [Entry(2, NOOP)]), true);
  }

  /** A request of a later term that conflicts below the commit length makes the follower panic if it
      compacts, and otherwise moves its commit length back from three to none. */
  lemma CutBelowCommitBreaksServer()
    ensures var e := Entry(2, NOOP);
            && NodeRun.InOrder(Settled(1), ThreeEntries()) && NodeRun.InOrder(Settled(1000), ThreeEntries())
            && HandleLogRequest(Settled(1), LogRequest(0, 2, 0, 0, 0, [e, e, e, e]), true).0.panicked
            && HandleLogRequest(Settled(1000), LogRequest(0, 2, 0, 0, 4, [e]), true).0.commitLength == 0
  {
    SettledInOrder(1);
    SettledInOrder(1000);
    CutPanics();
    CutMovesBack();
  }

  /** The same follower after a snapshot of its whole log arrives and cannot be restored. */
  function Gutted(threshold: int): Node {
    HandleInstallSnapshot(Settled(threshold), SnapshotRequest(0, 1, 3, 1, true), true, None).0
  }

  /** It still counts three entries as committed but has none. The next request of one entry makes it
      panic if it compacts, and otherwise moves its commit length back from three to one. */
  lemma FailedRestoreBreaksServer()
    ensures var req := LogRequest(0, 1, 0, 0, 4, [Entry(1, NOOP)]);
            && NodeRun.InOrder(Settled(1), ThreeEntries()) && NodeRun.InOrder(Settled(1000), ThreeEntries())
            && AbsLen(Gutted(1)) == 0 && Gutted(1).commitLength == 3
            && HandleLogRequest(Gutted(1), req.(leaderCommit := 0), true).0.panicked
            && HandleLogRequest(Gutted(1000), req, true).0.commitLength == 1
  {
    SettledInOrder(1);
    SettledInOrder(1000);
    var n := Gutted(1000);
    var req := LogRequest(0, 1, 0, 0, 4, [Entry(1, NOOP)]);
    assert Appended(Observe(n, req), 0, req.suffix) == req.suffix;
  }
}
