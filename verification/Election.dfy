/** Elections over any run of a cluster: timeouts, vote requests and replies that may be lost,
    duplicated and reordered, interleaved with arbitrary log requests, log replies and snapshots
    at any server. Each handler is one atomic step. */
module Election {
  import opened RaftTypes
  import opened Quorum
  import opened RaftSteps
  import opened AbsoluteLog
  import opened NodeRun

  /** A vote as it was cast: who voted for whom in which term, and the voter's log then. */
  datatype Ballot = Ballot(voter: nat, term: int, candidate: nat, voterTerm: int, voterLength: nat)

  datatype VoteReply = VoteReply(to: nat, resp: VoteResponse)

  datatype Crown = Crown(term: int, id: nat)

  /** `requests` and `replies` are all vote messages ever sent; `ballots` records the votes cast
      and `leaders` the terms in which a server has led. */
  datatype Cluster = Cluster(nodes: seq<Node>, requests: set<VoteRequest>, replies: set<VoteReply>,
                             ballots: set<Ballot>, leaders: set<Crown>)

  datatype Event =
    | Timeout(at: nat)
    | GetRequest(at: nat, req: VoteRequest)
    | GetReply(at: nat, resp: VoteResponse)
    | Other(at: nat, op: Op)

  ghost predicate Shape(c: Cluster) {
    forall i :: 0 <= i < |c.nodes| ==>
      WellFormed(c.nodes[i]) && c.nodes[i].id == i && c.nodes[i].totalNodes == |c.nodes|
  }

  /** Handlers that neither campaign nor vote; their arguments may be anything. */
  predicate NotElection(n: Node, op: Op) {
    match op
    case OnLogResponse(_, _) => InCluster(n, op)
    case OnTransferEnd(_, _) => InCluster(n, op)
    case OnVoteRequest(_) => false
    case OnVoteResponse(_) => false
    case OnTimeout => false
    case _ => true
  }

  ghost predicate Enabled(c: Cluster, e: Event) {
    && e.at < |c.nodes|
    && match e
       case Timeout(_) => true
       case GetRequest(at, req) => req in c.requests && req.candidateId != at
       case GetReply(at, resp) => VoteReply(at, resp) in c.replies
       case Other(at, op) => NotElection(c.nodes[at], op)
  }

  /** Server `i` becomes `m`; if it leads now, that is recorded. */
  function Put(c: Cluster, i: nat, m: Node): Cluster
    requires i < |c.nodes|
  {
    c.(nodes := c.nodes[i := m],
       leaders := if m.role == Leader then c.leaders + {Crown(m.currentTerm, i)} else c.leaders)
  }

  function BallotFor(n: Node, term: int, candidate: nat): Ballot {
    Ballot(n.id, term, candidate, LastLogTerm(n), AbsLen(n))
  }

  /** What a ballot records is the end of the voter's absolute log. */
  lemma BallotRecordsLog(n: Node, full: seq<Entry>, term: int, candidate: nat)
    requires Represents(n, full)
    ensures BallotFor(n, term, candidate) == Ballot(n.id, term, candidate, TermAt(full, |full|), |full|)
  {
    LastLogTermMeans(n, full);
  }

  ghost function Next(c: Cluster, e: Event): Cluster
    requires Shape(c) && Enabled(c, e)
  {
    var n := c.nodes[e.at];
    match e
    case Timeout(at) =>
      var r := StartElection(n);
      Put(c, at, r.0).(requests := c.requests + {r.1}, ballots := c.ballots + {BallotFor(n, r.1.term, at)})
    case GetRequest(at, req) =>
      var r := HandleVoteRequest(n, req);
      Put(c, at, r.0).(replies := c.replies + {VoteReply(req.candidateId, r.1)},
                       ballots := if r.1.granted then c.ballots + {BallotFor(n, req.term, req.candidateId)} else c.ballots)
    case GetReply(at, resp) => Put(c, at, HandleVoteResponse(n, resp))
    case Other(at, op) => Put(c, at, Step(n, op))
  }

  // ---------------------------------------------------------------- when a vote is forgotten

  /** A vote already cast in the current term is gone or changed after the step. */
  predicate VoteLost(n: Node, m: Node) {
    m.currentTerm == n.currentTerm && n.votedFor != NOBODY && m.votedFor != n.votedFor
  }

  /** A request that is not of a newer term and comes from the server recorded as leader, unless
      it is answered by the same vote again. */
  predicate ForgetsVote(n: Node, req: VoteRequest) {
    && n.votedFor != NOBODY && n.leaderId == req.candidateId && req.term <= n.currentTerm
    && !(req.term == n.currentTerm && n.votedFor == req.candidateId
         && (LastLogTerm(n) < req.logTerm || (LastLogTerm(n) == req.logTerm && AbsLen(n) <= req.logLength)))
  }

  lemma VoteRequestLosesVoteIff(n: Node, req: VoteRequest)
    ensures VoteLost(n, HandleVoteRequest(n, req).0) <==> ForgetsVote(n, req)
  {
  }

  /** A leader that finds too few healthy followers drops its own vote of the term it led. */
  lemma QuorumCheckLosesVoteIff(n: Node, failures: seq<nat>)
    ensures VoteLost(n, CheckQuorumHealth(n, failures)) <==> n.votedFor != NOBODY && LosesQuorum(n, failures)
  {
  }

  /** The two situations in which the code forgets a vote of the current term. */
  predicate KeepsVotes(n: Node, e: Event) {
    match e
    case GetRequest(_, req) => !ForgetsVote(n, req)
    case Other(_, OnQuorumCheck(failures)) => !LosesQuorum(n, failures)
    case _ => true
  }

  /** No other handler forgets a vote, and no handler moves the term back; a server that still
      campaigns or leads afterwards does so in the same term with the same votes. */
  ghost predicate Quiet(n: Node, m: Node) {
    && WellFormed(m) && m.id == n.id && m.totalNodes == n.totalNodes
    && m.currentTerm >= n.currentTerm && !VoteLost(n, m)
    && (m.role != Follower ==> m.role == n.role && m.currentTerm == n.currentTerm && m.votes == n.votes)
  }

  lemma AppendIsQuiet(n: Node, p: nat, leaderCommit: nat, suffix: seq<Entry>, taken: bool)
    requires WellFormed(n)
    ensures var m := AppendEntries(n, p, leaderCommit, suffix, taken);
            && WellFormed(m) && m.id == n.id && m.totalNodes == n.totalNodes && m.currentTerm == n.currentTerm
            && m.votedFor == n.votedFor && m.role == n.role && m.votes == n.votes
  {
  }

  lemma OtherIsQuiet(n: Node, op: Op)
    requires WellFormed(n) && NotElection(n, op)
    requires op.OnQuorumCheck? ==> !LosesQuorum(n, op.failures)
    ensures Quiet(n, Step(n, op))
  {
    match op
    case OnLogRequest(req, taken) => LogRequestIsQuiet(n, req, taken);
    case OnLogResponse(follower, resp) => LogResponseIsQuiet(n, follower, resp);
    case OnSnapshot(chunk, prefix, written, restored) => SnapshotIsQuiet(n, chunk, written, Image(prefix, restored));
    case _ =>
  }

  lemma LogResponseIsQuiet(n: Node, follower: nat, resp: LogResponse)
    requires WellFormed(n) && follower < n.totalNodes
    ensures Quiet(n, HandleLogResponse(n, follower, resp))
  {
    CommitWellFormed(RecordAck(n, follower, resp.ack));
  }

  lemma SnapshotIsQuiet(n: Node, chunk: SnapshotRequest, written: bool, image: Option<AppState>)
    requires WellFormed(n)
    ensures Quiet(n, HandleInstallSnapshot(n, chunk, written, image).0)
  {
  }

  lemma LogRequestIsQuiet(n: Node, req: LogRequest, taken: bool)
    requires WellFormed(n)
    ensures Quiet(n, HandleLogRequest(n, req, taken).0)
  {
    AppendIsQuiet(Observe(n, req), req.prefixLen, req.leaderCommit, req.suffix, taken);
  }

  // ---------------------------------------------------------------- the invariant

  /** A ballot binds its voter: the voter is past that term or still votes for that candidate. */
  ghost predicate BallotHolds(c: Cluster, b: Ballot) {
    && b.voter < |c.nodes|
    && (c.nodes[b.voter].currentTerm > b.term ||
        (c.nodes[b.voter].currentTerm == b.term && c.nodes[b.voter].votedFor == b.candidate))
  }

  ghost predicate HasBallot(c: Cluster, voter: nat, term: int, candidate: nat) {
    exists b :: b in c.ballots && b.voter == voter && b.term == term && b.candidate == candidate
  }

  /** The voter's log, when it cast the ballot, ended in an earlier term than that of the request, or in
      the same term at no greater length. */
  predicate NoFresher(b: Ballot, r: VoteRequest) {
    b.voterTerm < r.logTerm || (b.voterTerm == r.logTerm && b.voterLength <= r.logLength)
  }

  /** The ballot went to a candidacy whose announced log was at least as fresh as the voter's. */
  ghost predicate Justified(c: Cluster, b: Ballot) {
    exists r :: r in c.requests && r.candidateId == b.candidate && r.term == b.term && NoFresher(b, r)
  }

  /** Every candidacy announces the log that the candidate's ballot for itself records. */
  ghost predicate AnnouncesOwnLog(c: Cluster) {
    forall r :: r in c.requests ==> Ballot(r.candidateId, r.term, r.candidateId, r.logTerm, r.logLength) in c.ballots
  }

  lemma AnnouncementKept(c: Cluster, e: Event)
    requires Shape(c) && Enabled(c, e) && AnnouncesOwnLog(c)
    ensures AnnouncesOwnLog(Next(c, e))
  {
  }

  ghost predicate BallotsOk(c: Cluster) {
    && (forall b :: b in c.ballots ==> BallotHolds(c, b) && Justified(c, b))
    && (forall a, b :: a in c.ballots && b in c.ballots && a.voter == b.voter && a.term == b.term ==>
          a.candidate == b.candidate)
  }

  ghost predicate RequestsOk(c: Cluster) {
    && (forall r :: r in c.requests ==> r.candidateId < |c.nodes| && r.term <= c.nodes[r.candidateId].currentTerm)
    && (forall r, s :: r in c.requests && s in c.requests && r.candidateId == s.candidateId && r.term == s.term ==> r == s)
  }

  ghost predicate RepliesOk(c: Cluster) {
    forall v :: v in c.replies && v.resp.granted ==> HasBallot(c, v.resp.nodeId, v.resp.term, v.to)
  }

  /** The votes a candidate or leader has counted are ballots of its term. */
  ghost predicate VotesOk(c: Cluster) {
    forall i, v :: 0 <= i < |c.nodes| && c.nodes[i].role != Follower && v in c.nodes[i].votes ==>
      HasBallot(c, v, c.nodes[i].currentTerm, i)
  }

  ghost function Voters(c: Cluster, term: int, candidate: nat): set<nat> {
    set b | b in c.ballots && b.term == term && b.candidate == candidate :: b.voter
  }

  ghost predicate LeadersOk(c: Cluster) {
    && (forall k :: k in c.leaders ==> |Voters(c, k.term, k.id)| >= Majority(|c.nodes|))
    && (forall i :: 0 <= i < |c.nodes| && c.nodes[i].role == Leader ==>
          |c.nodes[i].votes| >= Majority(|c.nodes|))
  }

  ghost predicate Inv(c: Cluster) {
    Shape(c) && BallotsOk(c) && RequestsOk(c) && RepliesOk(c) && VotesOk(c) && LeadersOk(c)
  }

  /** No messages, no votes recorded, no candidate and no leader; terms and logs are arbitrary. */
  ghost predicate Init(c: Cluster) {
    && Shape(c) && c.requests == {} && c.replies == {} && c.ballots == {} && c.leaders == {}
    && (forall i :: 0 <= i < |c.nodes| ==> c.nodes[i].role == Follower)
  }

  ghost predicate OneLeaderPerTerm(c: Cluster) {
    forall j, k :: j in c.leaders && k in c.leaders && j.term == k.term ==> j.id == k.id
  }

  /** One leader per term follows from the invariant: two winners would share a voter. */
  lemma InvMeansOneLeader(c: Cluster)
    requires Inv(c)
    ensures OneLeaderPerTerm(c)
  {
    forall j, k | j in c.leaders && k in c.leaders && j.term == k.term
      ensures j.id == k.id
    {
      var shared := QuorumsIntersect(|c.nodes|, Voters(c, j.term, j.id), Voters(c, k.term, k.id));
      var a :| a in c.ballots && a.term == j.term && a.candidate == j.id && a.voter == shared;
      var b :| b in c.ballots && b.term == k.term && b.candidate == k.id && b.voter == shared;
    }
  }

  /** Every majority contains a voter of the winner whose log, when it voted, was no more up to
      date than the log the winner announced in that term. */
  lemma WinnerIsNoStaler(c: Cluster, k: Crown, quorum: set<nat>) returns (b: Ballot, r: VoteRequest)
    requires Inv(c) && k in c.leaders && quorum <= Ids(|c.nodes|) && |quorum| >= Majority(|c.nodes|)
    ensures b in c.ballots && b.voter in quorum && b.term == k.term && b.candidate == k.id
    ensures r in c.requests && r.candidateId == k.id && r.term == k.term
    ensures NoFresher(b, r)
    ensures forall s :: s in c.requests && s.candidateId == k.id && s.term == k.term ==> s == r
  {
    var shared := QuorumsIntersect(|c.nodes|, Voters(c, k.term, k.id), quorum);
    b :| b in c.ballots && b.term == k.term && b.candidate == k.id && b.voter == shared;
    assert Justified(c, b);
    r :| r in c.requests && r.candidateId == b.candidate && r.term == b.term && NoFresher(b, r);
  }

  // ---------------------------------------------------------------- the steps

  /** Messages and ballots only accumulate. */
  ghost predicate Extends(c: Cluster, d: Cluster) {
    c.requests <= d.requests && c.ballots <= d.ballots && |d.nodes| == |c.nodes|
  }

  lemma BallotStays(c: Cluster, d: Cluster, voter: nat, term: int, candidate: nat)
    requires Extends(c, d) && HasBallot(c, voter, term, candidate)
    ensures HasBallot(d, voter, term, candidate)
  {
    var b :| b in c.ballots && b.voter == voter && b.term == term && b.candidate == candidate;
    assert b in d.ballots;
  }

  lemma JustifiedStays(c: Cluster, d: Cluster, b: Ballot)
    requires Extends(c, d) && Justified(c, b)
    ensures Justified(d, b)
  {
    var r :| r in c.requests && r.candidateId == b.candidate && r.term == b.term && NoFresher(b, r);
    assert r in d.requests;
  }

  lemma VotersGrow(c: Cluster, d: Cluster, term: int, candidate: nat)
    requires Extends(c, d)
    ensures |Voters(c, term, candidate)| <= |Voters(d, term, candidate)|
  {
    SubsetSize(Voters(c, term, candidate), Voters(d, term, candidate));
  }

  /** The votes a server has counted are among the voters of its ballots. */
  lemma VotesAreVoters(c: Cluster, i: nat)
    requires i < |c.nodes| && forall v :: v in c.nodes[i].votes ==> HasBallot(c, v, c.nodes[i].currentTerm, i)
    ensures |c.nodes[i].votes| <= |Voters(c, c.nodes[i].currentTerm, i)|
  {
    var voters := Voters(c, c.nodes[i].currentTerm, i);
    forall v | v in c.nodes[i].votes
      ensures v in voters
    {
      var b :| b in c.ballots && b.voter == v && b.term == c.nodes[i].currentTerm && b.candidate == i;
    }
    SubsetSize(c.nodes[i].votes, voters);
  }

  lemma BallotsAfterPut(c: Cluster, i: nat, m: Node)
    requires Shape(c) && BallotsOk(c) && RequestsOk(c) && i < |c.nodes|
    requires m.currentTerm >= c.nodes[i].currentTerm && !VoteLost(c.nodes[i], m)
    ensures BallotsOk(Put(c, i, m)) && RequestsOk(Put(c, i, m))
  {
    var d := Put(c, i, m);
    forall b | b in d.ballots
      ensures BallotHolds(d, b) && Justified(d, b)
    {
      assert BallotHolds(c, b);
      JustifiedStays(c, d, b);
    }
  }

  lemma VotesAfterPut(c: Cluster, i: nat, m: Node)
    requires RepliesOk(c) && VotesOk(c) && i < |c.nodes|
    requires m.role != Follower ==> forall v :: v in m.votes ==> HasBallot(c, v, m.currentTerm, i)
    ensures RepliesOk(Put(c, i, m)) && VotesOk(Put(c, i, m))
  {
    var d := Put(c, i, m);
    forall r | r in d.replies && r.resp.granted
      ensures HasBallot(d, r.resp.nodeId, r.resp.term, r.to)
    {
      BallotStays(c, d, r.resp.nodeId, r.resp.term, r.to);
    }
    forall j, v | 0 <= j < |d.nodes| && d.nodes[j].role != Follower && v in d.nodes[j].votes
      ensures HasBallot(d, v, d.nodes[j].currentTerm, j)
    {
      BallotStays(c, d, v, d.nodes[j].currentTerm, j);
    }
  }

  lemma LeadersAfterPut(c: Cluster, i: nat, m: Node)
    requires LeadersOk(c) && i < |c.nodes| && VotesOk(Put(c, i, m))
    requires m.role == Leader ==> |m.votes| >= Majority(|c.nodes|)
    ensures LeadersOk(Put(c, i, m))
  {
    var d := Put(c, i, m);
    forall k | k in d.leaders
      ensures |Voters(d, k.term, k.id)| >= Majority(|d.nodes|)
    {
      if k in c.leaders {
        VotersGrow(c, d, k.term, k.id);
      } else {
        assert d.nodes[i] == m;
        VotesAreVoters(d, i);
      }
    }
  }

  /** Server `i` may move on to `m` if it keeps its vote and any votes it counts are ballots. */
  lemma PutKeeps(c: Cluster, i: nat, m: Node)
    requires Inv(c) && i < |c.nodes|
    requires WellFormed(m) && m.id == i && m.totalNodes == |c.nodes|
    requires m.currentTerm >= c.nodes[i].currentTerm && !VoteLost(c.nodes[i], m)
    requires m.role != Follower ==> forall v :: v in m.votes ==> HasBallot(c, v, m.currentTerm, i)
    requires m.role == Leader ==> |m.votes| >= Majority(|c.nodes|)
    ensures Inv(Put(c, i, m))
  {
    BallotsAfterPut(c, i, m);
    VotesAfterPut(c, i, m);
    LeadersAfterPut(c, i, m);
  }

  lemma PutQuiet(c: Cluster, i: nat, m: Node)
    requires Inv(c) && i < |c.nodes| && Quiet(c.nodes[i], m)
    ensures Inv(Put(c, i, m))
  {
    PutKeeps(c, i, m);
  }

  /** A voter that stands by a justified ballot may cast it. */
  lemma BallotAdded(c: Cluster, b: Ballot)
    requires Inv(c) && b.voter < |c.nodes| && Justified(c, b)
    requires c.nodes[b.voter].currentTerm == b.term && c.nodes[b.voter].votedFor == b.candidate
    ensures Inv(c.(ballots := c.ballots + {b}))
  {
    var d := c.(ballots := c.ballots + {b});
    forall a | a in d.ballots
      ensures BallotHolds(d, a) && Justified(d, a)
    {
      JustifiedStays(c, d, a);
      assert a in c.ballots ==> BallotHolds(c, a);
    }
    forall a | a in c.ballots && a.voter == b.voter && a.term == b.term
      ensures a.candidate == b.candidate
    {
      assert BallotHolds(c, a);
    }
    forall r | r in d.replies && r.resp.granted
      ensures HasBallot(d, r.resp.nodeId, r.resp.term, r.to)
    {
      BallotStays(c, d, r.resp.nodeId, r.resp.term, r.to);
    }
    forall j, v | 0 <= j < |d.nodes| && d.nodes[j].role != Follower && v in d.nodes[j].votes
      ensures HasBallot(d, v, d.nodes[j].currentTerm, j)
    {
      BallotStays(c, d, v, d.nodes[j].currentTerm, j);
    }
    forall k | k in d.leaders
      ensures |Voters(d, k.term, k.id)| >= Majority(|d.nodes|)
    {
      VotersGrow(c, d, k.term, k.id);
    }
  }

  /** A vote request of a term the candidate has reached, and in which it has sent none yet. */
  lemma RequestAdded(c: Cluster, r: VoteRequest)
    requires Inv(c) && r.candidateId < |c.nodes| && r.term <= c.nodes[r.candidateId].currentTerm
    requires forall s :: s in c.requests && s.candidateId == r.candidateId ==> s.term < r.term
    ensures Inv(c.(requests := c.requests + {r}))
  {
    var d := c.(requests := c.requests + {r});
    forall b | b in d.ballots
      ensures BallotHolds(d, b) && Justified(d, b)
    {
      assert BallotHolds(c, b);
      JustifiedStays(c, d, b);
    }
    SameElsewhere(c, d);
  }

  lemma ReplyAdded(c: Cluster, v: VoteReply)
    requires Inv(c) && (v.resp.granted ==> HasBallot(c, v.resp.nodeId, v.resp.term, v.to))
    ensures Inv(c.(replies := c.replies + {v}))
  {
    var d := c.(replies := c.replies + {v});
    forall b | b in d.ballots
      ensures BallotHolds(d, b) && Justified(d, b)
    {
      assert BallotHolds(c, b);
      JustifiedStays(c, d, b);
    }
    forall r | r in d.replies && r.resp.granted
      ensures HasBallot(d, r.resp.nodeId, r.resp.term, r.to)
    {
      BallotStays(c, d, r.resp.nodeId, r.resp.term, r.to);
    }
    SameVotes(c, d);
  }

  lemma SameVotes(c: Cluster, d: Cluster)
    requires VotesOk(c) && LeadersOk(c) && Extends(c, d)
    requires d.nodes == c.nodes && d.ballots == c.ballots && d.leaders == c.leaders
    ensures VotesOk(d) && LeadersOk(d)
  {
    forall j, v | 0 <= j < |d.nodes| && d.nodes[j].role != Follower && v in d.nodes[j].votes
      ensures HasBallot(d, v, d.nodes[j].currentTerm, j)
    {
      BallotStays(c, d, v, d.nodes[j].currentTerm, j);
    }
    forall k | k in d.leaders
      ensures |Voters(d, k.term, k.id)| >= Majority(|d.nodes|)
    {
      VotersGrow(c, d, k.term, k.id);
    }
  }

  lemma SameElsewhere(c: Cluster, d: Cluster)
    requires RepliesOk(c) && VotesOk(c) && LeadersOk(c) && Extends(c, d)
    requires d.nodes == c.nodes && d.ballots == c.ballots && d.leaders == c.leaders && d.replies == c.replies
    ensures RepliesOk(d) && VotesOk(d) && LeadersOk(d)
  {
    forall r | r in d.replies && r.resp.granted
      ensures HasBallot(d, r.resp.nodeId, r.resp.term, r.to)
    {
      BallotStays(c, d, r.resp.nodeId, r.resp.term, r.to);
    }
    SameVotes(c, d);
  }

  /** Server `i` moves to the next term, announces its candidacy and votes for itself. */
  function Announced(c: Cluster, i: nat): Cluster
    requires i < |c.nodes|
  {
    var r := StartElection(c.nodes[i]);
    Put(c, i, r.0.(role := Follower)).(requests := c.requests + {r.1},
                                       ballots := c.ballots + {BallotFor(c.nodes[i], r.1.term, i)})
  }

  lemma AnnouncedKeeps(c: Cluster, i: nat)
    requires Inv(c) && i < |c.nodes|
    ensures Inv(Announced(c, i))
  {
    var n := c.nodes[i];
    var m, r := StartElection(n).0, StartElection(n).1;
    var b := BallotFor(n, r.term, i);
    PutQuiet(c, i, m.(role := Follower));
    var c1 := Put(c, i, m.(role := Follower));
    RequestAdded(c1, r);
    var c2 := c1.(requests := c1.requests + {r});
    assert r in c2.requests;
    assert Justified(c2, b);
    BallotAdded(c2, b);
  }

  lemma TimeoutKeeps(c: Cluster, i: nat)
    requires Inv(c) && i < |c.nodes|
    ensures Inv(Next(c, Timeout(i)))
  {
    var m, d := StartElection(c.nodes[i]).0, Announced(c, i);
    AnnouncedKeeps(c, i);
    assert BallotFor(c.nodes[i], m.currentTerm, i) in d.ballots;
    assert HasBallot(d, i, m.currentTerm, i);
    PutKeeps(d, i, m);
    assert Put(d, i, m).nodes == c.nodes[i := m];
  }

  lemma GetRequestKeeps(c: Cluster, i: nat, req: VoteRequest)
    requires Inv(c) && Enabled(c, GetRequest(i, req)) && !ForgetsVote(c.nodes[i], req)
    ensures Inv(Next(c, GetRequest(i, req)))
  {
    var n := c.nodes[i];
    var m, resp := HandleVoteRequest(n, req).0, HandleVoteRequest(n, req).1;
    VoteRequestLosesVoteIff(n, req);
    PutQuiet(c, i, m);
    var c1 := Put(c, i, m);
    if resp.granted {
      var b := BallotFor(n, req.term, req.candidateId);
      assert req in c1.requests;
      assert Justified(c1, b);
      BallotAdded(c1, b);
      var c2 := c1.(ballots := c1.ballots + {b});
      assert b in c2.ballots;
      assert HasBallot(c2, i, req.term, req.candidateId);
      ReplyAdded(c2, VoteReply(req.candidateId, resp));
    } else {
      ReplyAdded(c1, VoteReply(req.candidateId, resp));
    }
  }

  lemma GetReplyKeeps(c: Cluster, i: nat, resp: VoteResponse)
    requires Inv(c) && Enabled(c, GetReply(i, resp))
    ensures Inv(Next(c, GetReply(i, resp)))
  {
    var n := c.nodes[i];
    assert VoteReply(i, resp) in c.replies;
    PutKeeps(c, i, HandleVoteResponse(n, resp));
  }

  lemma EventKeeps(c: Cluster, e: Event)
    requires Inv(c) && Enabled(c, e) && KeepsVotes(c.nodes[e.at], e)
    ensures Inv(Next(c, e))
  {
    match e
    case Timeout(at) => TimeoutKeeps(c, at);
    case GetRequest(at, req) => GetRequestKeeps(c, at, req);
    case GetReply(at, resp) => GetReplyKeeps(c, at, resp);
    case Other(at, op) =>
      OtherIsQuiet(c.nodes[at], op);
      PutQuiet(c, at, Step(c.nodes[at], op));
  }

  // ---------------------------------------------------------------- runs

  lemma NextShape(c: Cluster, e: Event)
    requires Shape(c) && Enabled(c, e)
    ensures Shape(Next(c, e))
  {
    if e.Other? {
      StepWellFormed(c.nodes[e.at], e.op);
    }
  }

  ghost predicate EnabledRun(c: Cluster, events: seq<Event>)
    requires Shape(c)
    decreases |events|
  {
    events == [] ||
    (Enabled(c, events[0]) && (NextShape(c, events[0]); EnabledRun(Next(c, events[0]), events[1..])))
  }

  ghost function RunEvents(c: Cluster, events: seq<Event>): Cluster
    requires Shape(c) && EnabledRun(c, events)
    decreases |events|
  {
    if events == [] then c
    else NextShape(c, events[0]); RunEvents(Next(c, events[0]), events[1..])
  }

  /** No event of the run makes its server forget a vote of the current term. */
  ghost predicate VotesKept(c: Cluster, events: seq<Event>)
    requires Shape(c) && EnabledRun(c, events)
    decreases |events|
  {
    events == [] ||
    (KeepsVotes(c.nodes[events[0].at], events[0]) &&
     (NextShape(c, events[0]); VotesKept(Next(c, events[0]), events[1..])))
  }

  lemma {:induction false} RunKeeps(c: Cluster, events: seq<Event>)
    requires Inv(c) && EnabledRun(c, events) && VotesKept(c, events)
    ensures Inv(RunEvents(c, events))
    decreases |events|
  {
    if events != [] {
      EventKeeps(c, events[0]);
      RunKeeps(Next(c, events[0]), events[1..]);
    }
  }

  lemma InitEstablishes(c: Cluster)
    requires Init(c)
    ensures Inv(c)
  {
  }

  /** Election safety: in every run in which no vote of the current term is forgotten, no term
      ever has two leaders. */
  lemma ElectionSafety(c: Cluster, events: seq<Event>)
    requires Init(c) && EnabledRun(c, events) && VotesKept(c, events)
    ensures OneLeaderPerTerm(RunEvents(c, events))
  {
    InitEstablishes(c);
    RunKeeps(c, events);
    InvMeansOneLeader(RunEvents(c, events));
  }

  lemma {:induction false} RunAnnounces(c: Cluster, events: seq<Event>)
    requires Shape(c) && AnnouncesOwnLog(c) && EnabledRun(c, events)
    ensures AnnouncesOwnLog(RunEvents(c, events))
    decreases |events|
  {
    if events != [] {
      AnnouncementKept(c, events[0]);
      NextShape(c, events[0]);
      RunAnnounces(Next(c, events[0]), events[1..]);
    }
  }

  /** The vote restriction, over the same runs: the one candidacy of a winner in its term announced the
      log that its own ballot records, and every majority contains a voter of the winner whose ballot
      records a log that ends in an earlier term, or in the same term at no greater length. */
  lemma VoteRestriction(c: Cluster, events: seq<Event>, k: Crown, quorum: set<nat>)
    requires Init(c) && EnabledRun(c, events) && VotesKept(c, events)
    requires k in RunEvents(c, events).leaders && quorum <= Ids(|RunEvents(c, events).nodes|)
    requires |quorum| >= Majority(|RunEvents(c, events).nodes|)
    ensures var d := RunEvents(c, events);
            exists b, own ::
              && b in d.ballots && b.voter in quorum && b.term == k.term && b.candidate == k.id
              && own in d.ballots && own.voter == k.id && own.term == k.term && own.candidate == k.id
              && (b.voterTerm < own.voterTerm ||
                  (b.voterTerm == own.voterTerm && b.voterLength <= own.voterLength))
              && VoteRequest(k.id, k.term, own.voterLength, own.voterTerm) in d.requests
              && (forall s :: s in d.requests && s.candidateId == k.id && s.term == k.term ==>
                    s == VoteRequest(k.id, k.term, own.voterLength, own.voterTerm))
  {
    var d := RunEvents(c, events);
    InitEstablishes(c);
    RunKeeps(c, events);
    RunAnnounces(c, events);
    var b, r := WinnerIsNoStaler(d, k, quorum);
    var own := Ballot(k.id, k.term, k.id, r.logTerm, r.logLength);
    assert own in d.ballots;
  }
}
