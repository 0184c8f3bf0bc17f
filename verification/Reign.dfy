/** One leader's reign: a cluster in which one server leads in the current term, over any run of
    proposals, replication requests and replies. Packets are never consumed, so they may be lost,
    duplicated and reordered; followers may compact whenever they accept a request. Each handler
    is one atomic step. */
module Reign {
  import opened RaftTypes
  import opened Quorum
  import opened RaftSteps
  import opened AbsoluteLog
  import NodeRun

  datatype Packet =
    | Request(to: nat, req: LogRequest)
    | Reply(from: nat, resp: LogResponse)
    | SnapshotTransfer(to: nat)

  /** `full` is the leader's absolute log. When the reign began the leader had committed `led`
      positions and no server more than `base`. */
  datatype Cluster = Cluster(nodes: seq<Node>, leader: nat, term: int, net: set<Packet>, full: seq<Entry>, led: nat,
                             base: nat)

  datatype Step =
    | Broadcast(message: Message)
    | Send(to: nat)
    | Receive(at: nat, req: LogRequest, snapshotTaken: bool)
    | Answer(from: nat, resp: LogResponse)
    | Vote(voter: nat, vote: VoteRequest)
    | Timeout(campaigner: nat)
    | QuorumCheck(failures: seq<nat>)

  // ---------------------------------------------------------------- the cluster

  ghost predicate Shape(c: Cluster) {
    && c.leader < |c.nodes|
    && (forall i :: 0 <= i < |c.nodes| ==>
          && WellFormed(c.nodes[i]) && c.nodes[i].id == i && c.nodes[i].totalNodes == |c.nodes|
          && c.nodes[i].currentTerm <= c.term)
    && c.nodes[c.leader].currentTerm == c.term
    && AbsLen(c.nodes[c.leader]) == |c.full|
  }

  function LeaderOf(c: Cluster): Node
    requires c.leader < |c.nodes|
  {
    c.nodes[c.leader]
  }

  ghost predicate Enabled(c: Cluster, s: Step)
    requires Shape(c)
  {
    match s
    case Broadcast(_) => true
    case Send(to) => to < |c.nodes| && to != c.leader && LeaderOf(c).role == Leader
    case Receive(at, req, _) => at < |c.nodes| && Request(at, req) in c.net
    case Answer(from, resp) => from < |c.nodes| && Reply(from, resp) in c.net
    case Vote(voter, vote) => voter < |c.nodes| && vote.term <= c.term
    case Timeout(i) => i < |c.nodes| && c.nodes[i].currentTerm < c.term
    case QuorumCheck(_) => true
  }

  /** What replicate puts on the network. */
  function Sent(l: Node, to: nat): Packet
    requires WellFormed(l) && to < l.totalNodes
  {
    if NeedsSnapshot(l, to) then SnapshotTransfer(to) else Request(to, PrepareLogRequest(l, to))
  }

  ghost function Next(c: Cluster, s: Step): Cluster
    requires Shape(c) && Enabled(c, s)
  {
    match s
    case Broadcast(message) =>
      c.(nodes := c.nodes[c.leader := Propose(LeaderOf(c), message)],
         full := if LeaderOf(c).role == Leader then c.full + [Entry(c.term, message)] else c.full)
    case Send(to) => c.(net := c.net + {Sent(LeaderOf(c), to)})
    case Receive(at, req, taken) =>
      var r := HandleLogRequest(c.nodes[at], req, taken);
      c.(nodes := c.nodes[at := r.0], net := c.net + {Reply(at, r.1)})
    case Answer(from, resp) => c.(nodes := c.nodes[c.leader := HandleLogResponse(LeaderOf(c), from, resp)])
    case Vote(voter, vote) => c.(nodes := c.nodes[voter := HandleVoteRequest(c.nodes[voter], vote).0])
    case Timeout(i) => c.(nodes := c.nodes[i := StartElection(c.nodes[i]).0])
    case QuorumCheck(failures) => c.(nodes := c.nodes[c.leader := CheckQuorumHealth(LeaderOf(c), failures)])
  }

  // ---------------------------------------------------------------- the sender window

  /** The cursor of each follower is above the leader's snapshot and at most one past its log. */
  ghost predicate CursorsInside(c: Cluster, l: Node)
    requires Shape(c) && WellFormed(l) && l.totalNodes == |c.nodes|
  {
    forall j :: 0 <= j < |c.nodes| && j != c.leader ==> l.lastIndex < l.sentLengths[j] <= |c.full| + 1
  }

  /** The request is a piece of the leader's log, and announces no commit beyond it. */
  ghost predicate RequestOk(c: Cluster, req: LogRequest)
    requires Shape(c)
  {
    && req.term == c.term && req.leaderId == c.leader
    && LeaderOf(c).lastIndex <= req.prefixLen && req.prefixLen + |req.suffix| <= |c.full|
    && (forall i :: 0 <= i < |req.suffix| ==> req.suffix[i] == c.full[req.prefixLen + i])
    && req.prefixTerm == TermAt(c.full, req.prefixLen)
    && req.leaderCommit <= LeaderOf(c).commitLength && req.leaderCommit <= req.prefixLen + |req.suffix|
  }

  /** Requests are pieces of the leader's log, and acknowledgements stay between its snapshot and end. */
  ghost predicate PacketInside(c: Cluster, p: Packet)
    requires Shape(c)
  {
    match p
    case Request(to, req) =>
      to < |c.nodes| && to != c.leader && RequestOk(c, req)
    case Reply(from, resp) =>
      && from < |c.nodes| && from != c.leader && resp.term <= c.term
      && (resp.success ==> LeaderOf(c).lastIndex <= resp.ack <= |c.full|)
    case SnapshotTransfer(_) => false
  }

  /** What the leader's requests depend on; the followers' logs play no part. */
  ghost predicate Window(c: Cluster) {
    && Shape(c) && Represents(LeaderOf(c), c.full) && LeaderOf(c).commitLength <= |c.full|
    && CursorsInside(c, LeaderOf(c)) && forall p :: p in c.net ==> PacketInside(c, p)
  }

  /** A leader that has just set its cursors, whatever the followers hold. */
  ghost predicate Begins(c: Cluster) {
    && Shape(c) && c.net == {} && LeaderOf(c).role == Leader
    && Represents(LeaderOf(c), c.full) && LeaderOf(c).commitLength <= |c.full|
    && (forall j :: 0 <= j < |c.nodes| && j != c.leader ==>
          LeaderOf(c).sentLengths[j] == |c.full| + 1 && LeaderOf(c).ackedLengths[j] == 0)
  }

  lemma BeginsInWindow(c: Cluster)
    requires Begins(c)
    ensures Window(c)
  {
  }

  /** With its cursor inside the log, a server prepares the whole tail from the cursor on. */
  lemma PreparesTail(l: Node, full: seq<Entry>, to: nat)
    requires WellFormed(l) && to < l.totalNodes && Represents(l, full)
    requires l.lastIndex < l.sentLengths[to] <= |full| + 1
    ensures !NeedsSnapshot(l, to)
    ensures var req := PrepareLogRequest(l, to);
            && req.term == l.currentTerm && req.leaderId == l.id && req.leaderCommit == l.commitLength
            && req.prefixLen + 1 == l.sentLengths[to] && req.prefixLen + |req.suffix| == |full|
            && req.prefixTerm == TermAt(full, req.prefixLen)
            && forall i :: 0 <= i < |req.suffix| ==> req.suffix[i] == full[req.prefixLen + i]
  {
    var prev := l.sentLengths[to] - 1;
    var rel := prev - l.lastIndex;
    var tail := l.log[rel..];
    assert PrepareLogRequest(l, to).suffix == tail;
    forall i | 0 <= i < |tail|
      ensures tail[i] == full[prev + i]
    {
      assert tail[i] == l.log[rel + i];
    }
  }

  lemma PacketAddedInside(c: Cluster, p: Packet)
    requires Window(c) && PacketInside(c, p)
    ensures Window(c.(net := c.net + {p}))
  {
    var d := c.(net := c.net + {p});
    forall q | q in d.net
      ensures PacketInside(d, q)
    {
      assert PacketInside(c, q);
    }
  }

  /** A packet stays inside when the leader's log and commit length grow. */
  lemma PacketStaysInside(c: Cluster, d: Cluster, p: Packet)
    requires Shape(c) && Shape(d) && PacketInside(c, p)
    requires d.leader == c.leader && d.term == c.term && |d.nodes| == |c.nodes| && c.full <= d.full
    requires LeaderOf(d).lastIndex == LeaderOf(c).lastIndex && LeaderOf(d).commitLength >= LeaderOf(c).commitLength
    ensures PacketInside(d, p)
  {
  }

  /** The leader moves on to `l` over the log `full`, which extends the old one. */
  lemma LeaderInside(c: Cluster, l: Node, full: seq<Entry>)
    requires Window(c) && c.full <= full && l.commitLength >= LeaderOf(c).commitLength
    requires WellFormed(l) && l.id == c.leader && l.totalNodes == |c.nodes| && l.currentTerm == c.term
    requires Represents(l, full) && l.commitLength <= |full| && l.lastIndex == LeaderOf(c).lastIndex
    requires forall j :: 0 <= j < |c.nodes| && j != c.leader ==> l.lastIndex < l.sentLengths[j] <= |full| + 1
    ensures Window(c.(nodes := c.nodes[c.leader := l], full := full))
  {
    var d := c.(nodes := c.nodes[c.leader := l], full := full);
    assert LeaderOf(d) == l;
    forall q | q in d.net
      ensures PacketInside(d, q)
    {
      PacketStaysInside(c, d, q);
    }
  }

  lemma FollowerInside(c: Cluster, i: nat, m: Node)
    requires Window(c) && i < |c.nodes| && i != c.leader
    requires WellFormed(m) && m.id == i && m.totalNodes == |c.nodes| && m.currentTerm <= c.term
    ensures Window(c.(nodes := c.nodes[i := m]))
  {
    var d := c.(nodes := c.nodes[i := m]);
    assert LeaderOf(d) == LeaderOf(c);
    forall q | q in d.net
      ensures PacketInside(d, q)
    {
      PacketStaysInside(c, d, q);
    }
  }

  lemma BroadcastInside(c: Cluster, message: Message)
    requires Window(c)
    ensures Window(Next(c, Broadcast(message)))
  {
    if LeaderOf(c).role == Leader {
      LeaderInside(c, Propose(LeaderOf(c), message), c.full + [Entry(c.term, message)]);
    } else {
      assert Next(c, Broadcast(message)).nodes == c.nodes;
    }
  }

  lemma ReceiveInside(c: Cluster, at: nat, req: LogRequest, taken: bool)
    requires Window(c) && Enabled(c, Receive(at, req, taken))
    ensures Window(Next(c, Receive(at, req, taken)))
  {
    assert PacketInside(c, Request(at, req));
    var r := HandleLogRequest(c.nodes[at], req, taken);
    NodeRun.AppendWellFormed(Observe(c.nodes[at], req), req, taken);
    FollowerInside(c, at, r.0);
    PacketAddedInside(c.(nodes := c.nodes[at := r.0]), Reply(at, r.1));
  }

  /** The leader moves its cursors and commit length only. */
  lemma CursorsMoved(c: Cluster, l: Node)
    requires Window(c) && WellFormed(l) && LeaderOf(c).commitLength <= l.commitLength <= |c.full|
    requires l == LeaderOf(c).(sentLengths := l.sentLengths, ackedLengths := l.ackedLengths,
                               commitLength := l.commitLength, applied := l.applied)
    requires CursorsInside(c, l)
    ensures Window(c.(nodes := c.nodes[c.leader := l]))
  {
    LeaderInside(c, l, c.full);
  }

  lemma AckInside(c: Cluster, from: nat, ack: nat)
    requires Window(c) && from < |c.nodes| && LeaderOf(c).lastIndex <= ack <= |c.full|
    ensures Window(c.(nodes := c.nodes[c.leader := CommitLogEntries(RecordAck(LeaderOf(c), from, ack))]))
  {
    var l := RecordAck(LeaderOf(c), from, ack);
    NodeRun.CommitWellFormed(l);
    CommitKeepsCursors(l);
    CursorsMoved(c, CommitLogEntries(l));
  }

  lemma AnswerInside(c: Cluster, from: nat, resp: LogResponse)
    requires Window(c) && Enabled(c, Answer(from, resp))
    ensures Window(Next(c, Answer(from, resp)))
  {
    assert PacketInside(c, Reply(from, resp));
    if resp.success {
      AckInside(c, from, resp.ack);
    }
    CursorsMoved(c, BackOff(LeaderOf(c), from));
    assert c.nodes[c.leader := LeaderOf(c)] == c.nodes;
  }

  lemma SendInside(c: Cluster, to: nat)
    requires Window(c) && Enabled(c, Send(to))
    ensures Window(Next(c, Send(to)))
  {
    SendsWholeTail(c, to);
    PacketAddedInside(c, Sent(LeaderOf(c), to));
  }

  lemma StepInside(c: Cluster, s: Step)
    requires Window(c) && Enabled(c, s)
    ensures Window(Next(c, s))
  {
    match s
    case Broadcast(message) => BroadcastInside(c, message);
    case Send(to) => SendInside(c, to);
    case Receive(at, req, taken) => ReceiveInside(c, at, req, taken);
    case Answer(from, resp) => AnswerInside(c, from, resp);
    case Vote(voter, vote) => QuietInside(c, voter, HandleVoteRequest(c.nodes[voter], vote).0);
    case Timeout(i) => QuietInside(c, i, StartElection(c.nodes[i]).0);
    case QuorumCheck(failures) => QuietInside(c, c.leader, CheckQuorumHealth(LeaderOf(c), failures));
  }

  /** `m` differs from `n` in the term, vote, role, votes and known leader only. */
  predicate Quiet(n: Node, m: Node) {
    m == n.(currentTerm := m.currentTerm, votedFor := m.votedFor, role := m.role, leaderId := m.leaderId, votes := m.votes)
  }

  lemma QuietInside(c: Cluster, i: nat, m: Node)
    requires Window(c) && i < |c.nodes| && Quiet(c.nodes[i], m)
    requires m.currentTerm <= c.term && (i == c.leader ==> m.currentTerm == c.term)
    ensures Window(c.(nodes := c.nodes[i := m]))
  {
    if i == c.leader {
      LeaderInside(c, m, c.full);
    } else {
      FollowerInside(c, i, m);
    }
  }

  // ---------------------------------------------------------------- the invariant

  /** The server holds a prefix of `full` and has applied exactly what it committed of it. */
  ghost predicate Follows(n: Node, full: seq<Entry>) {
    AbsLen(n) <= |full| && NodeRun.InOrder(n, full[..AbsLen(n)])
  }

  ghost predicate AllFollow(c: Cluster) {
    forall i :: 0 <= i < |c.nodes| ==> Follows(c.nodes[i], c.full)
  }

  /** Acknowledgements recorded by the leader are true, and its cursors stay inside its log. */
  ghost predicate CursorsOk(c: Cluster)
    requires Shape(c)
  {
    forall j :: 0 <= j < |c.nodes| && j != c.leader ==>
      && LeaderOf(c).ackedLengths[j] <= AbsLen(c.nodes[j])
      && LeaderOf(c).lastIndex < LeaderOf(c).sentLengths[j] <= |c.full| + 1
  }

  /** A request is a piece of the leader's log, commit included; a positive reply is true. */
  ghost predicate PacketOk(c: Cluster, p: Packet)
    requires Shape(c)
  {
    match p
    case Request(to, req) =>
      && to < |c.nodes| && to != c.leader && RequestOk(c, req)
    case Reply(from, resp) =>
      && from < |c.nodes| && from != c.leader && resp.term <= c.term
      && (resp.success ==> LeaderOf(c).lastIndex <= resp.ack <= AbsLen(c.nodes[from]))
    case SnapshotTransfer(_) => false
  }

  ghost predicate NetOk(c: Cluster)
    requires Shape(c)
  {
    forall p :: p in c.net ==> PacketOk(c, p)
  }

  /** The servers below `upTo` whose log reaches position `p`. */
  function Holders(nodes: seq<Node>, upTo: nat, p: nat): (r: set<nat>)
    requires upTo <= |nodes|
    ensures forall i: nat :: i in r <==> i < upTo && AbsLen(nodes[i]) >= p
  {
    if upTo == 0 then {}
    else Holders(nodes, upTo - 1, p) + (if AbsLen(nodes[upTo - 1]) >= p then {upTo - 1} else {})
  }

  ghost predicate HeldByMajority(c: Cluster, p: nat) {
    |Holders(c.nodes, |c.nodes|, p)| >= Majority(|c.nodes|)
  }

  ghost predicate CommitsOk(c: Cluster)
    requires Shape(c)
  {
    && (forall i :: 0 <= i < |c.nodes| ==>
          c.nodes[i].commitLength <= c.base || c.nodes[i].commitLength <= LeaderOf(c).commitLength)
    && c.led <= c.base
    && (forall p :: c.led < p <= LeaderOf(c).commitLength ==> HeldByMajority(c, p))
  }

  ghost predicate Inv(c: Cluster) {
    Shape(c) && AllFollow(c) && CursorsOk(c) && NetOk(c) && CommitsOk(c)
  }

  /** The reign begins: the leader has just set its cursors, nothing is in flight, and every
      server's absolute log is a prefix of the leader's. */
  ghost predicate Start(c: Cluster) {
    && Begins(c) && AllFollow(c) && c.led == LeaderOf(c).commitLength
    && (forall i :: 0 <= i < |c.nodes| ==> c.nodes[i].commitLength <= c.base)
  }

  lemma StartEstablishes(c: Cluster)
    requires Start(c)
    ensures Inv(c)
  {
  }

  /** A candidate whose vote count reaches a majority begins such a reign, provided the other
      servers' logs are prefixes of its own. */
  lemma ElectionStartsReign(nodes: seq<Node>, i: nat, vote: VoteResponse, full: seq<Entry>, base: nat)
    requires i < |nodes|
    requires forall k :: 0 <= k < |nodes| ==>
               && WellFormed(nodes[k]) && nodes[k].id == k && nodes[k].totalNodes == |nodes|
               && nodes[k].currentTerm <= nodes[i].currentTerm && Follows(nodes[k], full) && nodes[k].commitLength <= base
    requires AbsLen(nodes[i]) == |full|
    requires nodes[i].role == Candidate && HandleVoteResponse(nodes[i], vote).role == Leader
    ensures Start(Cluster(nodes[i := HandleVoteResponse(nodes[i], vote)], i, nodes[i].currentTerm, {}, full,
                          nodes[i].commitLength, base))
  {
    assert full[..|full|] == full;
    NodeRun.OtherStepsKeepData(nodes[i], NodeRun.OnVoteResponse(vote));
    NodeRun.SameDataInOrder(nodes[i], HandleVoteResponse(nodes[i], vote), full[..AbsLen(nodes[i])]);
  }

  // ---------------------------------------------------------------- growth

  /** Nothing a server holds is lost from `c` to `d`. */
  ghost predicate Grows(c: Cluster, d: Cluster)
    requires Shape(c) && Shape(d)
  {
    && d.leader == c.leader && d.term == c.term && d.led == c.led && d.base == c.base && |d.nodes| == |c.nodes|
    && |c.full| <= |d.full| && (forall i :: 0 <= i < |c.full| ==> d.full[i] == c.full[i])
    && LeaderOf(d).lastIndex == LeaderOf(c).lastIndex
    && LeaderOf(d).commitLength >= LeaderOf(c).commitLength
    && (forall i :: 0 <= i < |c.nodes| ==> AbsLen(d.nodes[i]) >= AbsLen(c.nodes[i]))
  }

  lemma PacketStaysOk(c: Cluster, d: Cluster, p: Packet)
    requires Shape(c) && Shape(d) && Grows(c, d) && PacketOk(c, p)
    ensures PacketOk(d, p)
  {
  }

  lemma NetStaysOk(c: Cluster, d: Cluster)
    requires Shape(c) && Shape(d) && Grows(c, d) && NetOk(c) && d.net == c.net
    ensures NetOk(d)
  {
    forall p | p in d.net
      ensures PacketOk(d, p)
    {
      PacketStaysOk(c, d, p);
    }
  }

  lemma HeldStaysHeld(c: Cluster, d: Cluster, p: nat)
    requires Shape(c) && Shape(d) && Grows(c, d) && HeldByMajority(c, p)
    ensures HeldByMajority(d, p)
  {
    SubsetSize(Holders(c.nodes, |c.nodes|, p), Holders(d.nodes, |d.nodes|, p));
  }

  /** A step that raises no commit length of the leader keeps CommitsOk. */
  lemma CommitsStayOk(c: Cluster, d: Cluster)
    requires Shape(c) && Shape(d) && Grows(c, d) && CommitsOk(c)
    requires LeaderOf(d).commitLength == LeaderOf(c).commitLength
    requires forall i :: 0 <= i < |c.nodes| ==>
               d.nodes[i].commitLength == c.nodes[i].commitLength || d.nodes[i].commitLength <= LeaderOf(c).commitLength
    ensures CommitsOk(d)
  {
    forall p | d.led < p <= LeaderOf(d).commitLength
      ensures HeldByMajority(d, p)
    {
      HeldStaysHeld(c, d, p);
    }
  }

  /** A longer leader log does not disturb servers that hold a prefix of the shorter one. */
  lemma FollowsLonger(n: Node, full: seq<Entry>, longer: seq<Entry>)
    requires Follows(n, full) && |full| <= |longer| && forall i :: 0 <= i < |full| ==> longer[i] == full[i]
    ensures Follows(n, longer)
  {
    assert longer[..AbsLen(n)] == full[..AbsLen(n)];
  }

  // ---------------------------------------------------------------- replacing one part of the cluster

  lemma PacketAdded(c: Cluster, p: Packet)
    requires Inv(c) && PacketOk(c, p)
    ensures Inv(c.(net := c.net + {p}))
  {
    var d := c.(net := c.net + {p});
    assert Grows(c, d);
    forall q | q in d.net
      ensures PacketOk(d, q)
    {
      PacketStaysOk(c, d, q);
    }
    CommitsStayOk(c, d);
  }

  /** A server other than the leader moves on to `m`. */
  lemma FollowerReplaced(c: Cluster, i: nat, m: Node)
    requires Inv(c) && i < |c.nodes| && i != c.leader
    requires WellFormed(m) && m.id == i && m.totalNodes == |c.nodes| && m.currentTerm <= c.term
    requires Follows(m, c.full) && AbsLen(m) >= AbsLen(c.nodes[i])
    requires m.commitLength == c.nodes[i].commitLength || m.commitLength <= LeaderOf(c).commitLength
    ensures Inv(c.(nodes := c.nodes[i := m]))
  {
    var d := c.(nodes := c.nodes[i := m]);
    assert LeaderOf(d) == LeaderOf(c);
    assert Grows(c, d);
    NetStaysOk(c, d);
    CommitsStayOk(c, d);
  }

  ghost predicate CursorsFit(c: Cluster, m: Node)
    requires Shape(c) && WellFormed(m) && m.totalNodes == |c.nodes|
  {
    forall j :: 0 <= j < |c.nodes| && j != c.leader ==>
      m.ackedLengths[j] <= AbsLen(c.nodes[j]) && m.lastIndex < m.sentLengths[j] <= |c.full| + 1
  }

  /** The leader moves on to `m`, which holds the same log and has committed only positions that
      a majority holds. */
  lemma LeaderReplaced(c: Cluster, m: Node)
    requires Inv(c)
    requires WellFormed(m) && m.id == c.leader && m.totalNodes == |c.nodes| && m.currentTerm == c.term
    requires Follows(m, c.full) && AbsLen(m) == |c.full| && m.lastIndex == LeaderOf(c).lastIndex
    requires CursorsFit(c, m)
    requires m.commitLength >= LeaderOf(c).commitLength
    requires forall p :: LeaderOf(c).commitLength < p <= m.commitLength ==> HeldByMajority(c, p)
    ensures Inv(c.(nodes := c.nodes[c.leader := m]))
  {
    var d := c.(nodes := c.nodes[c.leader := m]);
    LeaderGrows(c, m);
    NetStaysOk(c, d);
    LeaderCommits(c, d, m);
  }

  /** The part of it that is about shapes, prefixes and cursors. */
  lemma LeaderGrows(c: Cluster, m: Node)
    requires Shape(c) && AllFollow(c)
    requires WellFormed(m) && m.id == c.leader && m.totalNodes == |c.nodes| && m.currentTerm == c.term
    requires Follows(m, c.full) && AbsLen(m) == |c.full| && m.lastIndex == LeaderOf(c).lastIndex
    requires CursorsFit(c, m) && m.commitLength >= LeaderOf(c).commitLength
    ensures var d := c.(nodes := c.nodes[c.leader := m]);
            Shape(d) && LeaderOf(d) == m && Grows(c, d) && AllFollow(d) && CursorsOk(d)
  {
    var d := c.(nodes := c.nodes[c.leader := m]);
    forall i | 0 <= i < |d.nodes|
      ensures Follows(d.nodes[i], d.full)
    {
      assert i != c.leader ==> d.nodes[i] == c.nodes[i];
    }
  }

  /** The part that is about commits. */
  lemma LeaderCommits(c: Cluster, d: Cluster, m: Node)
    requires Shape(c) && Shape(d) && Grows(c, d) && CommitsOk(c) && LeaderOf(d) == m
    requires forall i :: 0 <= i < |c.nodes| && i != c.leader ==> d.nodes[i] == c.nodes[i]
    requires forall p :: LeaderOf(c).commitLength < p <= m.commitLength ==> HeldByMajority(c, p)
    ensures CommitsOk(d)
  {
    forall p | d.led < p <= m.commitLength
      ensures HeldByMajority(d, p)
    {
      assert HeldByMajority(c, p);
      HeldStaysHeld(c, d, p);
    }
  }

  // ---------------------------------------------------------------- the steps

  lemma BroadcastKeeps(c: Cluster, message: Message)
    requires Inv(c)
    ensures Inv(Next(c, Broadcast(message)))
  {
    if LeaderOf(c).role == Leader {
      ProposalFollows(c, message);
      var d := Next(c, Broadcast(message));
      assert Shape(d) && Grows(c, d);
      NetStaysOk(c, d);
      CommitsStayOk(c, d);
    } else {
      assert Next(c, Broadcast(message)).nodes == c.nodes;
    }
  }

  lemma ProposalFollows(c: Cluster, message: Message)
    requires Shape(c) && AllFollow(c) && LeaderOf(c).role == Leader
    ensures AllFollow(Next(c, Broadcast(message)))
  {
    var l, d := LeaderOf(c), Next(c, Broadcast(message));
    assert c.full[..AbsLen(l)] == c.full;
    NodeRun.BroadcastInOrder(l, c.full, message);
    assert d.full[..AbsLen(LeaderOf(d))] == d.full;
    forall i | 0 <= i < |d.nodes|
      ensures Follows(d.nodes[i], d.full)
    {
      if i != c.leader {
        FollowsLonger(c.nodes[i], c.full, d.full);
      }
    }
  }

  lemma InvHasWindow(c: Cluster)
    requires Inv(c)
    ensures Window(c)
  {
    assert c.full[..AbsLen(LeaderOf(c))] == c.full;
    forall p | p in c.net
      ensures PacketInside(c, p)
    {
      assert PacketOk(c, p);
    }
  }

  /** The sender window: every request the leader prepares is the whole tail of its log from the
      cursor on, and never announces more commits than it carries entries for. */
  lemma SendsWholeTail(c: Cluster, to: nat)
    requires Window(c) && to < |c.nodes| && to != c.leader
    ensures !NeedsSnapshot(LeaderOf(c), to)
    ensures var req := PrepareLogRequest(LeaderOf(c), to);
            && RequestOk(c, req)
            && req.prefixLen + |req.suffix| == |c.full| == AbsLen(LeaderOf(c))
            && req.leaderCommit == LeaderOf(c).commitLength
            && req.prefixLen + 1 == LeaderOf(c).sentLengths[to]
  {
    PreparesTail(LeaderOf(c), c.full, to);
  }

  lemma SendKeeps(c: Cluster, to: nat)
    requires Inv(c) && Enabled(c, Send(to))
    ensures Inv(Next(c, Send(to)))
  {
    InvHasWindow(c);
    SendsWholeTail(c, to);
    PacketAdded(c, Sent(LeaderOf(c), to));
  }

  /** A request of the reign extends a follower's prefix to whichever reaches further. */
  lemma AppendsPrefix(c: Cluster, k: nat, lastIndex: nat, req: LogRequest)
    requires Shape(c) && RequestOk(c, req) && req.prefixLen <= k <= |c.full|
    ensures var q := req.prefixLen + |req.suffix|;
            AbsAppend(c.full[..k], lastIndex, req.prefixLen, req.suffix) == c.full[..if q > k then q else k]
    ensures |req.suffix| > 0 && req.prefixLen < k ==> c.full[..k][req.prefixLen].term == req.suffix[0].term
  {
    var q := req.prefixLen + |req.suffix|;
    assert |req.suffix| > 0 ==> req.suffix[0] == c.full[req.prefixLen + 0];
    if q > k {
      assert c.full[..q] == c.full[..k] + req.suffix[k - req.prefixLen..];
    }
  }

  /** A follower that takes a request of the reign still holds a prefix of the leader's log, at
      least as long as before, and as long as what it acknowledges. */
  lemma FollowerTakes(c: Cluster, at: nat, req: LogRequest, taken: bool)
    requires Shape(c) && at < |c.nodes| && at != c.leader && Follows(c.nodes[at], c.full) && RequestOk(c, req)
    ensures var r := HandleLogRequest(c.nodes[at], req, taken);
            && Follows(r.0, c.full) && AbsLen(r.0) >= AbsLen(c.nodes[at])
            && r.0.currentTerm == c.term && r.1.term == c.term
            && r.0.id == at && r.0.totalNodes == |c.nodes|
            && (r.0.commitLength == c.nodes[at].commitLength || r.0.commitLength <= req.leaderCommit)
            && (r.1.success ==> r.1.ack == req.prefixLen + |req.suffix| <= AbsLen(r.0))
  {
    var n := c.nodes[at];
    var k := AbsLen(n);
    LogOkMeans(n, c.full[..k], req.prefixLen, req.prefixTerm);
    if Accepts(n, req) {
      AppendsPrefix(c, k, n.lastIndex, req);
      AppendedRepresents(n, c.full[..k], req.prefixLen, req.suffix);
    }
    NodeRun.LogRequestInOrder(n, c.full[..k], req, taken);
    CommitFollows(Observe(n, req), req, taken);
  }

  /** The handler touches nothing but the term, role, leader, log, snapshot and commit. */
  lemma CommitFollows(n: Node, req: LogRequest, taken: bool)
    requires n.lastIndex <= n.commitLength
    ensures var m := AppendEntries(n, req.prefixLen, req.leaderCommit, req.suffix, taken);
            && m.id == n.id && m.totalNodes == n.totalNodes && m.currentTerm == n.currentTerm
            && (m.commitLength == n.commitLength || m.commitLength <= req.leaderCommit)
  {
  }

  lemma ReceiveKeeps(c: Cluster, at: nat, req: LogRequest, taken: bool)
    requires Inv(c) && Enabled(c, Receive(at, req, taken))
    ensures Inv(Next(c, Receive(at, req, taken)))
  {
    assert PacketOk(c, Request(at, req));
    FollowerTakes(c, at, req, taken);
    var r := HandleLogRequest(c.nodes[at], req, taken);
    FollowerReplaced(c, at, r.0);
    PacketAdded(c.(nodes := c.nodes[at := r.0]), Reply(at, r.1));
  }

  /** Enough acknowledgements of a position mean that a majority holds it. */
  lemma EnoughMeansHeld(c: Cluster, p: nat)
    requires Shape(c) && CursorsOk(c) && 0 < p <= |c.full|
    requires Enough(LeaderOf(c).ackedLengths, c.leader, p - 1)
    ensures HeldByMajority(c, p)
  {
    var acking := Acknowledging(LeaderOf(c).ackedLengths, c.leader, |c.nodes|, p - 1);
    assert |acking + {c.leader}| == |acking| + 1;
    SubsetSize(acking + {c.leader}, Holders(c.nodes, |c.nodes|, p));
  }

  lemma NewCommitsHeld(c: Cluster, p: nat)
    requires Shape(c) && CursorsOk(c) && LeaderOf(c).commitLength < p <= CommitBound(LeaderOf(c))
    ensures HeldByMajority(c, p)
  {
    var l := LeaderOf(c);
    EnoughBelowBound(l.ackedLengths, l.id, AbsLen(l), p - 1);
    EnoughMeansHeld(c, p);
  }

  /** After recording a true acknowledgement, the commit loop commits only what a majority holds. */
  lemma CommitLoopKeeps(c: Cluster)
    requires Inv(c)
    ensures Inv(c.(nodes := c.nodes[c.leader := CommitLogEntries(LeaderOf(c))]))
  {
    var l := LeaderOf(c);
    var m := CommitLogEntries(l);
    NodeRun.CommitInOrder(l, c.full[..AbsLen(l)]);
    CommitKeepsCursors(l);
    forall p | l.commitLength < p <= m.commitLength
      ensures HeldByMajority(c, p)
    {
      NewCommitsHeld(c, p);
    }
    LeaderReplaced(c, m);
  }

  lemma CommitKeepsCursors(l: Node)
    requires WellFormed(l)
    ensures var m := CommitLogEntries(l);
            && m == l.(commitLength := m.commitLength, applied := m.applied)
            && m.commitLength >= l.commitLength
  {
  }

  /** The leader moves its cursors only. */
  lemma CursorsReplaced(c: Cluster, m: Node)
    requires Inv(c)
    requires m == LeaderOf(c).(sentLengths := m.sentLengths, ackedLengths := m.ackedLengths)
    requires WellFormed(m) && CursorsFit(c, m)
    ensures Inv(c.(nodes := c.nodes[c.leader := m]))
  {
    NodeRun.SameDataInOrder(LeaderOf(c), m, c.full[..AbsLen(m)]);
    LeaderReplaced(c, m);
  }

  lemma RecordKeeps(c: Cluster, from: nat, ack: nat)
    requires Inv(c) && from < |c.nodes| && from != c.leader
    requires LeaderOf(c).lastIndex <= ack <= AbsLen(c.nodes[from])
    ensures Inv(c.(nodes := c.nodes[c.leader := RecordAck(LeaderOf(c), from, ack)]))
  {
    CursorsReplaced(c, RecordAck(LeaderOf(c), from, ack));
  }

  lemma AcknowledgeKeeps(c: Cluster, from: nat, ack: nat)
    requires Inv(c) && from < |c.nodes| && from != c.leader
    requires LeaderOf(c).lastIndex <= ack <= AbsLen(c.nodes[from])
    ensures Inv(c.(nodes := c.nodes[c.leader := CommitLogEntries(RecordAck(LeaderOf(c), from, ack))]))
  {
    var m := RecordAck(LeaderOf(c), from, ack);
    var mid := c.(nodes := c.nodes[c.leader := m]);
    RecordKeeps(c, from, ack);
    CommitLoopKeeps(mid);
    assert mid.nodes[c.leader := CommitLogEntries(m)] == c.nodes[c.leader := CommitLogEntries(m)];
  }

  lemma BackOffKeeps(c: Cluster, from: nat)
    requires Inv(c) && from < |c.nodes|
    ensures Inv(c.(nodes := c.nodes[c.leader := BackOff(LeaderOf(c), from)]))
  {
    CursorsReplaced(c, BackOff(LeaderOf(c), from));
  }

  lemma AnswerKeeps(c: Cluster, from: nat, resp: LogResponse)
    requires Inv(c) && Enabled(c, Answer(from, resp))
    ensures Inv(Next(c, Answer(from, resp)))
  {
    assert PacketOk(c, Reply(from, resp));
    if resp.success {
      AcknowledgeKeeps(c, from, resp.ack);
    }
    BackOffKeeps(c, from);
    assert c.nodes[c.leader := LeaderOf(c)] == c.nodes;
  }

  lemma QuietStepKeeps(c: Cluster, i: nat, m: Node)
    requires Inv(c) && i < |c.nodes| && Quiet(c.nodes[i], m)
    requires m.currentTerm <= c.term && (i == c.leader ==> m.currentTerm == c.term)
    ensures Inv(c.(nodes := c.nodes[i := m]))
  {
    NodeRun.SameDataInOrder(c.nodes[i], m, c.full[..AbsLen(m)]);
    if i == c.leader {
      LeaderReplaced(c, m);
    } else {
      FollowerReplaced(c, i, m);
    }
  }

  lemma StepKeeps(c: Cluster, s: Step)
    requires Inv(c) && Enabled(c, s)
    ensures Inv(Next(c, s))
  {
    match s
    case Broadcast(message) => BroadcastKeeps(c, message);
    case Send(to) => SendKeeps(c, to);
    case Receive(at, req, taken) => ReceiveKeeps(c, at, req, taken);
    case Answer(from, resp) => AnswerKeeps(c, from, resp);
    case Vote(voter, vote) => QuietStepKeeps(c, voter, HandleVoteRequest(c.nodes[voter], vote).0);
    case Timeout(i) => QuietStepKeeps(c, i, StartElection(c.nodes[i]).0);
    case QuorumCheck(failures) => QuietStepKeeps(c, c.leader, CheckQuorumHealth(LeaderOf(c), failures));
  }

  // ---------------------------------------------------------------- runs

  /** Running `steps` from `c` ends in `d`. */
  ghost predicate Leads(c: Cluster, steps: seq<Step>, d: Cluster)
    decreases |steps|
  {
    if steps == [] then c == d
    else Shape(c) && Enabled(c, steps[0]) && Leads(Next(c, steps[0]), steps[1..], d)
  }

  lemma {:induction false} RunKeeps(c: Cluster, steps: seq<Step>, d: Cluster)
    requires Inv(c) && Leads(c, steps, d)
    ensures Inv(d)
    decreases |steps|
  {
    if steps != [] {
      StepKeeps(c, steps[0]);
      RunKeeps(Next(c, steps[0]), steps[1..], d);
    }
  }

  /** Replication safety. */
  ghost predicate Safe(c: Cluster) {
    && c.leader < |c.nodes|
    && (forall i :: 0 <= i < |c.nodes| ==>
          && !c.nodes[i].panicked
          && AbsLen(c.nodes[i]) <= |c.full| && Represents(c.nodes[i], c.full[..AbsLen(c.nodes[i])]))
    && |LeaderOf(c).ackedLengths| == |c.nodes|
    && (forall j :: 0 <= j < |c.nodes| && j != c.leader ==> LeaderOf(c).ackedLengths[j] <= AbsLen(c.nodes[j]))
    && (forall p :: c.led < p <= LeaderOf(c).commitLength ==> HeldByMajority(c, p))
    && (forall i, p :: 0 <= i < |c.nodes| && c.base < p <= c.nodes[i].commitLength ==> HeldByMajority(c, p))
    && (forall i, j :: 0 <= i < |c.nodes| && 0 <= j < |c.nodes| ==>
          c.nodes[i].applied <= c.nodes[j].applied || c.nodes[j].applied <= c.nodes[i].applied)
    && (forall to :: SnapshotTransfer(to) !in c.net)
  }

  lemma InvIsSafe(c: Cluster)
    requires Inv(c)
    ensures Safe(c)
  {
    forall i, j | 0 <= i < |c.nodes| && 0 <= j < |c.nodes|
      ensures c.nodes[i].applied <= c.nodes[j].applied || c.nodes[j].applied <= c.nodes[i].applied
    {
      AppliedArePrefixes(c.nodes[i], c.nodes[j], c.full);
    }
  }

  lemma AppliedArePrefixes(n: Node, m: Node, full: seq<Entry>)
    requires Follows(n, full) && Follows(m, full)
    ensures n.applied <= m.applied || m.applied <= n.applied
  {
    assert full[..AbsLen(n)][..n.commitLength] == full[..n.commitLength];
    assert full[..AbsLen(m)][..m.commitLength] == full[..m.commitLength];
    if n.commitLength <= m.commitLength {
      MessagesExtend(full, n.commitLength, m.commitLength);
    } else {
      MessagesExtend(full, m.commitLength, n.commitLength);
    }
  }

  /** In every run of the reign: no server panics, each server's log is a prefix of the leader's,
      each acknowledgement is at most the follower's length, each position committed since the
      reign began is held by a majority, the applied sequences are prefixes of one another, and
      no snapshot is ever sent. */
  lemma ReignIsSafe(c: Cluster, steps: seq<Step>, d: Cluster)
    requires Start(c) && Leads(c, steps, d)
    ensures Safe(d)
  {
    StartEstablishes(c);
    RunKeeps(c, steps, d);
    InvIsSafe(d);
  }

  lemma {:induction false} RunInside(c: Cluster, steps: seq<Step>, d: Cluster)
    requires Window(c) && Leads(c, steps, d)
    ensures Window(d)
    decreases |steps|
  {
    if steps != [] {
      StepInside(c, steps[0]);
      RunInside(Next(c, steps[0]), steps[1..], d);
    }
  }

  /** In every run of a leader's term, whatever the followers' logs hold, the sender window holds for
      every follower. */
  lemma ReignSendsWholeTail(c: Cluster, steps: seq<Step>, d: Cluster, to: nat)
    requires Begins(c) && Leads(c, steps, d) && to < |d.nodes| && to != d.leader
    ensures d.leader < |d.nodes| && WellFormed(LeaderOf(d)) && to < LeaderOf(d).totalNodes
    ensures var l := LeaderOf(d);
            && l.lastIndex < l.sentLengths[to] <= AbsLen(l) + 1
            && !NeedsSnapshot(l, to)
            && var req := PrepareLogRequest(l, to);
               && req.prefixLen + |req.suffix| == AbsLen(l)
               && req.leaderCommit <= req.prefixLen + |req.suffix|
  {
    BeginsInWindow(c);
    RunInside(c, steps, d);
    SendsWholeTail(d, to);
  }
}
