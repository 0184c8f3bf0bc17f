/** A run that shows what the prefix hypothesis of the reign theorem is for. */
module DivergedReign {
  import opened RaftTypes
  import opened Quorum
  import opened RaftSteps
  import NodeRun
  import opened Reign

  /** Every server is in order on a log of its own, and nothing is committed beyond `base`. */
  ghost predicate EachInOrder(c: Cluster) {
    forall i :: 0 <= i < |c.nodes| ==>
      c.nodes[i].commitLength <= c.base && exists log :: NodeRun.InOrder(c.nodes[i], log)
  }

  const NOOP: Message := Message(CommandMsg, 0, None, [], "", "")

  function Server(id: nat, log: seq<Entry>): Node {
    Node(id, 3, 2, NOBODY, log, 0, Follower, NOBODY, {}, [0, 0, 0], [0, 0, 0], 0, 0, 1000, [], [], false)
  }

  function NewLeader(sent: seq<nat>, acked: seq<nat>): Node {
    Server(0, [Entry(1, NOOP), Entry(2, NOOP)]).(role := Leader, leaderId := 0, sentLengths := sent, ackedLengths := acked)
  }

  /** Server 1 disagrees with the leader at position 2; server 2 has nothing. */
  function Diverged(leader: Node, other: Node, net: set<Packet>): Cluster {
    Cluster([leader, other, Server(2, [])], 0, 2, net, [Entry(1, NOOP), Entry(2, NOOP)], 0, 0)
  }

  const START: Cluster :=
    Diverged(NewLeader([0, 3, 3], [0, 0, 0]), Server(1, [Entry(1, NOOP), Entry(1, NOOP)]), {})

  lemma StartBegins()
    ensures Begins(START) && EachInOrder(START)
  {
    assert NodeRun.InOrder(START.nodes[0], START.nodes[0].log);
    assert NodeRun.InOrder(START.nodes[1], START.nodes[1].log);
    assert NodeRun.InOrder(START.nodes[2], START.nodes[2].log);
  }

  predicate OfThree(n: Node, i: nat) {
    WellFormed(n) && n.id == i && n.totalNodes == 3 && n.currentTerm <= 2
  }

  /** One request of `l` to server 1 with its answer: the request, the new states and the answer. */
  predicate Round(l: Node, f: Node, req: LogRequest, f': Node, resp: LogResponse, l': Node) {
    && OfThree(l, 0) && l.currentTerm == 2 && AbsLen(l) == 2 && l.role == Leader && OfThree(f, 1)
    && !NeedsSnapshot(l, 1) && PrepareLogRequest(l, 1) == req
    && HandleLogRequest(f, req, false) == (f', resp) && OfThree(f', 1)
    && HandleLogResponse(l, 1, resp) == l' && OfThree(l', 0) && l'.currentTerm == 2 && AbsLen(l') == 2
  }

  /** The follower refuses the request at its end and the leader moves its cursor back. */
  lemma RefusedRound()
    ensures var f := Server(1, [Entry(1, NOOP), Entry(1, NOOP)]);
            Round(NewLeader([0, 3, 3], [0, 0, 0]), f, LogRequest(0, 2, 2, 2, 0, []), f.(leaderId := 0),
                  LogResponse(1, 2, 0, false), NewLeader([0, 2, 3], [0, 0, 0]))
  {
    assert [0, 3, 3][1 := 2] == [0, 2, 3];
  }

  /** The follower cuts its log, skips the entry it should append and acknowledges it all the same. */
  lemma FollowerSkips()
    ensures var f := Server(1, [Entry(1, NOOP), Entry(1, NOOP)]).(leaderId := 0);
            HandleLogRequest(f, LogRequest(0, 2, 1, 1, 0, [Entry(2, NOOP)]), false)
            == (Server(1, [Entry(1, NOOP)]).(leaderId := 0), LogResponse(1, 2, 2, true))
  {
    assert [Entry(1, NOOP), Entry(1, NOOP)][..1] + [] == [Entry(1, NOOP)];
  }

  lemma LeaderPrepares()
    ensures var l := NewLeader([0, 2, 3], [0, 0, 0]);
            PrepareLogRequest(l, 1) == LogRequest(0, 2, 1, 1, 0, [Entry(2, NOOP)]) && !NeedsSnapshot(l, 1)
  {
    assert [Entry(1, NOOP), Entry(2, NOOP)][1..] == [Entry(2, NOOP)];
  }

  /** One acknowledgement of position 2 is enough in a cluster of three. */
  lemma OneAckCommits()
    ensures AckedBound([0, 2, 0], 0, 2) == 2
  {
    assert CountPeers([0, 2, 0], 0, 2, 1) == 1;
    EnoughBelowBound([0, 2, 0], 0, 2, 1);
  }

  /** `m` is the leader `n` with a later commit length. */
  predicate Committed(n: Node, m: Node, commit: nat) {
    m == n.(commitLength := commit, applied := m.applied)
  }

  lemma LeaderCommits()
    ensures var l := NewLeader([0, 2, 3], [0, 0, 0]);
            Committed(NewLeader([0, 3, 3], [0, 2, 0]), HandleLogResponse(l, 1, LogResponse(1, 2, 2, true)), 2)
  {
    var l, n := NewLeader([0, 2, 3], [0, 0, 0]), NewLeader([0, 3, 3], [0, 2, 0]);
    assert [0, 2, 3][1 := 3] == [0, 3, 3] && [0, 0, 0][1 := 2] == [0, 2, 0];
    assert RecordAck(l, 1, 2) == n;
    OneAckCommits();
    CommitsTo(n, 2);
  }

  lemma CommitsTo(n: Node, commit: nat)
    requires WellFormed(n) && CommitBound(n) == commit
    ensures Committed(n, CommitLogEntries(n), commit)
  {
  }

  /** So the leader commits an entry the follower does not hold. */
  lemma SkippingRound()
    ensures var l := NewLeader([0, 2, 3], [0, 0, 0]);
            var l' := HandleLogResponse(l, 1, LogResponse(1, 2, 2, true));
            && Round(l, Server(1, [Entry(1, NOOP), Entry(1, NOOP)]).(leaderId := 0),
                     LogRequest(0, 2, 1, 1, 0, [Entry(2, NOOP)]),
                     Server(1, [Entry(1, NOOP)]).(leaderId := 0), LogResponse(1, 2, 2, true), l')
            && l'.commitLength == 2
  {
    FollowerSkips();
    LeaderPrepares();
    LeaderCommits();
  }

  lemma {:induction false} LeadsThen(c: Cluster, steps: seq<Step>, d: Cluster, s: Step)
    requires Leads(c, steps, d) && Shape(d) && Enabled(d, s)
    ensures Leads(c, steps + [s], Next(d, s))
    decreases |steps|
  {
    if steps == [] {
      assert steps + [s] == [s];
      assert [s][1..] == [];
    } else {
      LeadsThen(Next(c, steps[0]), steps[1..], d, s);
      assert (steps + [s])[1..] == steps[1..] + [s];
    }
  }

  ghost predicate Reached(d: Cluster) {
    exists steps :: Leads(START, steps, d)
  }

  lemma ReachedThen(d: Cluster, s: Step)
    requires Reached(d) && Shape(d) && Enabled(d, s)
    ensures Reached(Next(d, s))
  {
    var steps :| Leads(START, steps, d);
    LeadsThen(START, steps, d, s);
  }

  /** The two servers of the exchange and what is in flight, at a point of the run. */
  ghost predicate At(l: Node, f: Node, net: set<Packet>) {
    && OfThree(l, 0) && l.currentTerm == 2 && AbsLen(l) == 2 && OfThree(f, 1)
    && Reached(Diverged(l, f, net))
  }

  lemma AtShape(l: Node, f: Node, net: set<Packet>)
    requires At(l, f, net)
    ensures Shape(Diverged(l, f, net)) && LeaderOf(Diverged(l, f, net)) == l
  {
  }

  lemma SendTo(l: Node, f: Node, net: set<Packet>, req: LogRequest) returns (net': set<Packet>)
    requires At(l, f, net) && l.role == Leader && !NeedsSnapshot(l, 1) && req == PrepareLogRequest(l, 1)
    ensures At(l, f, net') && Request(1, req) in net'
  {
    AtShape(l, f, net);
    ReachedThen(Diverged(l, f, net), Send(1));
    net' := net + {Request(1, req)};
    assert Next(Diverged(l, f, net), Send(1)) == Diverged(l, f, net');
  }

  lemma Take(l: Node, f: Node, net: set<Packet>, req: LogRequest, f': Node, resp: LogResponse)
    returns (net': set<Packet>)
    requires At(l, f, net) && Request(1, req) in net && HandleLogRequest(f, req, false) == (f', resp) && OfThree(f', 1)
    ensures At(l, f', net') && Reply(1, resp) in net'
  {
    AtShape(l, f, net);
    var c := Diverged(l, f, net);
    ReachedThen(c, Receive(1, req, false));
    net' := net + {Reply(1, resp)};
    assert c.nodes[1 := f'] == Diverged(l, f', net').nodes;
    assert Next(c, Receive(1, req, false)) == Diverged(l, f', net');
  }

  lemma Hear(l: Node, f: Node, net: set<Packet>, resp: LogResponse, l': Node)
    requires At(l, f, net) && Reply(1, resp) in net && HandleLogResponse(l, 1, resp) == l'
    requires OfThree(l', 0) && l'.currentTerm == 2 && AbsLen(l') == 2
    ensures At(l', f, net)
  {
    AtShape(l, f, net);
    var c := Diverged(l, f, net);
    ReachedThen(c, Answer(1, resp));
    assert c.nodes[0 := l'] == Diverged(l', f, net).nodes;
    assert Next(c, Answer(1, resp)) == Diverged(l', f, net);
  }

  lemma StartAt()
    ensures At(NewLeader([0, 3, 3], [0, 0, 0]), Server(1, [Entry(1, NOOP), Entry(1, NOOP)]), {})
  {
    assert Leads(START, [], START);
  }

  lemma Exchange(l: Node, f: Node, net: set<Packet>, req: LogRequest, f': Node, resp: LogResponse, l': Node)
    returns (net': set<Packet>)
    requires At(l, f, net) && Round(l, f, req, f', resp, l')
    ensures At(l', f', net')
  {
    net' := SendTo(l, f, net, req);
    net' := Take(l, f, net', req, f', resp);
    Hear(l, f', net', resp, l');
  }

  lemma TwoExchanges() returns (net: set<Packet>, l': Node)
    ensures At(l', Server(1, [Entry(1, NOOP)]).(leaderId := 0), net) && l'.commitLength == 2
  {
    var f, l := Server(1, [Entry(1, NOOP), Entry(1, NOOP)]), NewLeader([0, 2, 3], [0, 0, 0]);
    StartAt();
    RefusedRound();
    net := Exchange(NewLeader([0, 3, 3], [0, 0, 0]), f, {}, LogRequest(0, 2, 2, 2, 0, []), f.(leaderId := 0),
                    LogResponse(1, 2, 0, false), l);
    SkippingRound();
    l' := HandleLogResponse(l, 1, LogResponse(1, 2, 2, true));
    net := Exchange(l, f.(leaderId := 0), net, LogRequest(0, 2, 1, 1, 0, [Entry(2, NOOP)]),
                    Server(1, [Entry(1, NOOP)]).(leaderId := 0), LogResponse(1, 2, 2, true), l');
  }

  /** Without the prefix hypothesis a leader can commit a position that only it holds. */
  lemma DivergedFollowerBreaksReign()
    ensures exists c, steps, d :: Begins(c) && EachInOrder(c) && Leads(c, steps, d) && Shape(d)
              && 0 < LeaderOf(d).commitLength && !HeldByMajority(d, LeaderOf(d).commitLength)
  {
    StartBegins();
    var net, l := TwoExchanges();
    var f := Server(1, [Entry(1, NOOP)]).(leaderId := 0);
    AtShape(l, f, net);
    var d := Diverged(l, f, net);
    assert Holders(d.nodes, 3, 2) == {0};
    var steps :| Leads(START, steps, d);
  }
}
