/** When the acknowledgements of a reign are true: exactly when the log of each follower is a prefix
    of the leader's or matches it nowhere the leader can reach. */
module Acks {
  import opened RaftTypes
  import opened RaftSteps
  import opened AbsoluteLog
  import opened Reign
  import Iteration
  import NodeRun
  import Probe
  import CatchUp

  /** A cluster with the log each server stands for. */
  datatype Tracked = Tracked(c: Cluster, logs: seq<seq<Entry>>)

  ghost predicate Going(x: Tracked, s: Step) {
    |x.logs| == |x.c.nodes| && Shape(x.c) && Enabled(x.c, s)
  }

  /** A follower's log changes when it takes a request. */
  ghost function NextLogs(x: Tracked, s: Step): seq<seq<Entry>>
    requires Going(x, s)
  {
    match s
    case Receive(at, req, taken) =>
      x.logs[at := NodeRun.NextFull(x.c.nodes[at], x.logs[at], NodeRun.OnLogRequest(req, taken))]
    case _ => x.logs
  }

  ghost function After(x: Tracked, s: Step): Tracked
    requires Going(x, s)
  {
    Tracked(Next(x.c, s), NextLogs(x, s))
  }

  ghost predicate Goes(x: Tracked, steps: seq<Step>, y: Tracked)
    decreases |steps|
  {
    if steps == [] then x == y else Going(x, steps[0]) && Goes(After(x, steps[0]), steps[1..], y)
  }

  /** The follower agrees with the leader up to what the leader has it acknowledge. */
  ghost predicate AckTrue(x: Tracked, j: nat) {
    && x.c.leader < |x.c.nodes| && j < |x.logs| && j < |LeaderOf(x.c).ackedLengths|
    && AgreeBelow(x.logs[j], x.c.full, LeaderOf(x.c).ackedLengths[j])
  }

  ghost predicate AcksTrue(x: Tracked) {
    forall j :: 0 <= j < |x.c.nodes| && j != x.c.leader ==> AckTrue(x, j)
  }

  /** A leader that has just set its cursors, with followers each in order on its own log. */
  ghost predicate Opens(x: Tracked) {
    && Begins(x.c) && |x.logs| == |x.c.nodes|
    && forall j :: 0 <= j < |x.c.nodes| && j != x.c.leader ==> NodeRun.InOrder(x.c.nodes[j], x.logs[j])
  }

  ghost predicate AllRunsTrue(x: Tracked) {
    forall steps, y :: Goes(x, steps, y) ==> AcksTrue(y)
  }

  function SettingOf(x: Tracked, j: nat): Probe.Setting
    requires x.c.leader < |x.c.nodes| && j < |x.c.nodes|
  {
    Probe.Setting(x.c.full, LeaderOf(x.c).lastIndex, x.c.nodes[j].lastIndex)
  }

  /** Some position that the leader can reach and the follower can tell has the same term in both. */
  ghost predicate SomeMatch(x: Tracked, j: nat)
    requires x.c.leader < |x.c.nodes| && j < |x.c.nodes| && j < |x.logs|
  {
    Probe.HasMatch(SettingOf(x, j), Probe.View(x.logs[j], |x.c.full| + 1))
  }

  ghost predicate PrefixOrApart(x: Tracked)
    requires x.c.leader < |x.c.nodes| && |x.logs| == |x.c.nodes|
  {
    forall j :: 0 <= j < |x.c.nodes| && j != x.c.leader ==> x.logs[j] <= x.c.full || !SomeMatch(x, j)
  }

  // ---------------------------------------------------------------- the logs are those of the servers

  /** Short of a panic, each follower stands for its log. */
  ghost predicate LogsStand(x: Tracked) {
    && Window(x.c) && |x.logs| == |x.c.nodes|
    && forall j :: 0 <= j < |x.c.nodes| && j != x.c.leader ==>
         x.c.nodes[j].panicked || Represents(x.c.nodes[j], x.logs[j])
  }

  lemma TakesOrPanics(n: Node, f: seq<Entry>, req: LogRequest, taken: bool)
    requires WellFormed(n) && (n.panicked || Represents(n, f))
    ensures var m := HandleLogRequest(n, req, taken).0;
            m.panicked || Represents(m, NodeRun.NextFull(n, f, NodeRun.OnLogRequest(req, taken)))
  {
    if !n.panicked && Accepts(n, req) {
      AcceptedRepresents(n, f, req, taken);
    }
  }

  lemma ReceiveStands(x: Tracked, at: nat, req: LogRequest, taken: bool)
    requires LogsStand(x) && Going(x, Receive(at, req, taken))
    ensures LogsStand(After(x, Receive(at, req, taken)))
  {
    assert PacketInside(x.c, Request(at, req));
    ReceiveInside(x.c, at, req, taken);
    TakesOrPanics(x.c.nodes[at], x.logs[at], req, taken);
  }

  lemma StepStands(x: Tracked, s: Step)
    requires LogsStand(x) && Going(x, s)
    ensures LogsStand(After(x, s))
  {
    StepInside(x.c, s);
    if s.Receive? {
      ReceiveStands(x, s.at, s.req, s.snapshotTaken);
    }
  }

  /** Over every run the tracked logs are what the followers that have not panicked stand for, and
      the run is one of the reign. */
  lemma {:induction false} RunStands(x: Tracked, steps: seq<Step>, y: Tracked)
    requires LogsStand(x) && Goes(x, steps, y)
    ensures LogsStand(y) && Leads(x.c, steps, y.c)
    decreases |steps|
  {
    if steps != [] {
      StepStands(x, steps[0]);
      RunStands(After(x, steps[0]), steps[1..], y);
    }
  }

  lemma OpensStands(x: Tracked)
    requires Opens(x)
    ensures LogsStand(x)
  {
    BeginsInWindow(x.c);
  }

  // ---------------------------------------------------------------- what keeps acknowledgements true

  /** Server `j` holds a prefix of the leader's log, and what it acknowledges is true. */
  ghost predicate Holds(x: Tracked, j: nat)
    requires Shape(x.c) && j < |x.c.nodes| == |x.logs|
  {
    && Follows(x.c.nodes[j], x.c.full) && x.logs[j] == x.c.full[..AbsLen(x.c.nodes[j])]
    && LeaderOf(x.c).ackedLengths[j] <= AbsLen(x.c.nodes[j])
    && forall resp :: Reply(j, resp) in x.c.net && resp.success ==> resp.ack <= AbsLen(x.c.nodes[j])
  }

  /** Server `j` has rejected everything: nothing up to `b` matches, and no request starts beyond. */
  ghost predicate Rejects(x: Tracked, j: nat, b: nat)
    requires Shape(x.c) && j < |x.c.nodes| == |x.logs|
  {
    && b <= |x.c.full| && Represents(x.c.nodes[j], x.logs[j])
    && LeaderOf(x.c).ackedLengths[j] == 0 && LeaderOf(x.c).sentLengths[j] <= b + 1
    && Probe.NoMatch(SettingOf(x, j), x.logs[j], LeaderOf(x.c).lastIndex, b + 1)
    && (forall req :: Request(j, req) in x.c.net ==> req.prefixLen <= b)
    && (forall resp :: Reply(j, resp) in x.c.net ==> !resp.success)
  }

  /** Nothing that concerns server `j` has changed but the leader's log, which may have grown. */
  ghost predicate Same(x: Tracked, y: Tracked, j: nat) {
    && Shape(x.c) && Shape(y.c) && |x.logs| == |x.c.nodes| == |y.c.nodes| == |y.logs| && j < |x.c.nodes|
    && y.c.leader == x.c.leader && x.c.full <= y.c.full && y.logs[j] == x.logs[j]
    && LeaderOf(y.c).lastIndex == LeaderOf(x.c).lastIndex
    && LeaderOf(y.c).ackedLengths[j] == LeaderOf(x.c).ackedLengths[j]
    && NodeRun.SameData(x.c.nodes[j], y.c.nodes[j])
  }

  /** The cursor has not risen and no packet of server `j` is new. */
  ghost predicate SamePackets(x: Tracked, y: Tracked, j: nat)
    requires Same(x, y, j)
  {
    && LeaderOf(y.c).sentLengths[j] <= LeaderOf(x.c).sentLengths[j]
    && (forall req :: Request(j, req) in y.c.net ==> Request(j, req) in x.c.net)
    && (forall resp :: Reply(j, resp) in y.c.net ==> Reply(j, resp) in x.c.net)
  }

  lemma HoldsStays(x: Tracked, y: Tracked, j: nat)
    requires Same(x, y, j) && Holds(x, j)
    requires forall resp :: Reply(j, resp) in y.c.net ==> Reply(j, resp) in x.c.net
    ensures Holds(y, j)
  {
    var n, m := x.c.nodes[j], y.c.nodes[j];
    assert y.c.full[..AbsLen(n)] == x.c.full[..AbsLen(n)];
    NodeRun.SameDataInOrder(n, m, x.c.full[..AbsLen(n)]);
  }

  lemma RejectsStays(x: Tracked, y: Tracked, j: nat, b: nat)
    requires Same(x, y, j) && SamePackets(x, y, j) && Rejects(x, j, b)
    ensures Rejects(y, j, b)
  {
    forall r | LeaderOf(y.c).lastIndex <= r < b + 1
      ensures !Probe.Matches(y.c.full, y.logs[j], y.c.nodes[j].lastIndex, r)
    {
      assert !Probe.Matches(x.c.full, x.logs[j], x.c.nodes[j].lastIndex, r);
      assert TermAt(y.c.full, r) == TermAt(x.c.full, r);
    }
  }

  /** Every follower is one or the other. */
  ghost predicate Truthful(x: Tracked, b: nat) {
    && Window(x.c) && |x.logs| == |x.c.nodes|
    && forall j :: 0 <= j < |x.c.nodes| && j != x.c.leader ==> Holds(x, j) || Rejects(x, j, b)
  }

  lemma TruthfulAcks(x: Tracked, b: nat)
    requires Truthful(x, b)
    ensures AcksTrue(x)
  {
    forall j | 0 <= j < |x.c.nodes| && j != x.c.leader
      ensures AckTrue(x, j)
    {
      assert Holds(x, j) || Rejects(x, j, b);
    }
  }

  lemma OpensTruthful(x: Tracked)
    requires Opens(x) && PrefixOrApart(x)
    ensures Truthful(x, |x.c.full|)
  {
    BeginsInWindow(x.c);
    forall j | 0 <= j < |x.c.nodes| && j != x.c.leader
      ensures Holds(x, j) || Rejects(x, j, |x.c.full|)
    {
      if x.logs[j] <= x.c.full {
        assert x.logs[j] == x.c.full[..AbsLen(x.c.nodes[j])];
      }
    }
  }

  /** What is asked of server `j` after a step. */
  ghost predicate Keeps(x: Tracked, y: Tracked, j: nat, b: nat) {
    && Shape(x.c) && Shape(y.c) && |x.logs| == |x.c.nodes| == |y.c.nodes| == |y.logs| && j < |x.c.nodes|
    && (Holds(x, j) ==> Holds(y, j)) && (Rejects(x, j, b) ==> Rejects(y, j, b))
  }

  lemma SameKeeps(x: Tracked, y: Tracked, j: nat, b: nat)
    requires Same(x, y, j) && SamePackets(x, y, j)
    ensures Keeps(x, y, j, b)
  {
    if Holds(x, j) {
      HoldsStays(x, y, j);
    }
    if Rejects(x, j, b) {
      RejectsStays(x, y, j, b);
    }
  }

  lemma BroadcastTruthful(x: Tracked, message: Message, j: nat, b: nat)
    requires Truthful(x, b) && Going(x, Broadcast(message)) && j < |x.c.nodes| && j != x.c.leader
    ensures Keeps(x, After(x, Broadcast(message)), j, b)
  {
    BroadcastInside(x.c, message);
    SameKeeps(x, After(x, Broadcast(message)), j, b);
  }

  lemma SendTruthful(x: Tracked, to: nat, j: nat, b: nat)
    requires Truthful(x, b) && Going(x, Send(to)) && j < |x.c.nodes| && j != x.c.leader
    ensures Keeps(x, After(x, Send(to)), j, b)
  {
    var y := After(x, Send(to));
    SendsWholeTail(x.c, to);
    assert Same(x, y, j);
    if Holds(x, j) {
      HoldsStays(x, y, j);
    }
  }

  lemma RejectsRequest(n: Node, req: LogRequest, taken: bool)
    requires WellFormed(n) && !Accepts(n, req)
    ensures NodeRun.SameData(n, HandleLogRequest(n, req, taken).0) && !HandleLogRequest(n, req, taken).1.success
  {
  }

  /** A follower none of whose positions match accepts no request of the reign. */
  lemma ApartRejects(x: Tracked, at: nat, req: LogRequest, b: nat)
    requires Window(x.c) && |x.logs| == |x.c.nodes| && at < |x.c.nodes| && at != x.c.leader
    requires Rejects(x, at, b) && Request(at, req) in x.c.net
    ensures !Accepts(x.c.nodes[at], req)
  {
    assert PacketInside(x.c, Request(at, req));
    LogOkMeans(x.c.nodes[at], x.logs[at], req.prefixLen, req.prefixTerm);
    assert !Probe.Matches(x.c.full, x.logs[at], x.c.nodes[at].lastIndex, req.prefixLen);
  }

  lemma ReceiverRejects(x: Tracked, at: nat, req: LogRequest, taken: bool, b: nat, y: Tracked)
    requires Window(x.c) && Going(x, Receive(at, req, taken)) && at != x.c.leader && Rejects(x, at, b)
    requires y == After(x, Receive(at, req, taken)) && Shape(y.c)
    ensures Rejects(y, at, b)
  {
    ApartRejects(x, at, req, b);
    RejectsRequest(x.c.nodes[at], req, taken);
    RejecterStays(x, y, at, y.c.nodes[at], HandleLogRequest(x.c.nodes[at], req, taken).1, b);
  }

  lemma RejecterStays(x: Tracked, y: Tracked, at: nat, m: Node, resp: LogResponse, b: nat)
    requires Shape(x.c) && Shape(y.c) && at < |x.c.nodes| == |x.logs| && at != x.c.leader && Rejects(x, at, b)
    requires NodeRun.SameData(x.c.nodes[at], m) && !resp.success
    requires y == Tracked(x.c.(nodes := x.c.nodes[at := m], net := x.c.net + {Reply(at, resp)}), x.logs)
    ensures Rejects(y, at, b)
  {
    assert LeaderOf(y.c) == LeaderOf(x.c);
  }

  /** What a follower that holds a prefix takes is again a prefix. */
  lemma TakesPrefix(c: Cluster, n: Node, f: seq<Entry>, req: LogRequest, taken: bool)
    requires Shape(c) && RequestOk(c, req) && Represents(n, f) && f <= c.full
    ensures NodeRun.NextFull(n, f, NodeRun.OnLogRequest(req, taken)) <= c.full
  {
    if Accepts(n, req) {
      LogOkMeans(n, f, req.prefixLen, req.prefixTerm);
      AppendsPrefix(c, |f|, n.lastIndex, req);
      assert c.full[..|f|] == f;
    }
  }

  /** The handler leaves the follower as long as the log it then stands for. */
  lemma TakesLength(c: Cluster, n: Node, f: seq<Entry>, req: LogRequest, taken: bool)
    requires Shape(c) && RequestOk(c, req) && NodeRun.InOrder(n, f) && f <= c.full
    ensures AbsLen(HandleLogRequest(n, req, taken).0) == |NodeRun.NextFull(n, f, NodeRun.OnLogRequest(req, taken))|
  {
    if Accepts(n, req) {
      LogOkMeans(n, f, req.prefixLen, req.prefixTerm);
      AppendsPrefix(c, |f|, n.lastIndex, req);
      assert c.full[..|f|] == f;
      AppendedRepresents(n, f, req.prefixLen, req.suffix);
    }
    NodeRun.LogRequestInOrder(n, f, req, taken);
  }

  /** The follower is replaced by `m`, which stands for the log `f`, and sends the reply `resp`. */
  lemma HolderReplaced(x: Tracked, y: Tracked, at: nat, m: Node, f: seq<Entry>, resp: LogResponse)
    requires Shape(x.c) && Shape(y.c) && at < |x.c.nodes| == |x.logs| && at != x.c.leader && Holds(x, at)
    requires Follows(m, x.c.full) && f == x.c.full[..AbsLen(m)] && AbsLen(m) >= AbsLen(x.c.nodes[at])
    requires resp.success ==> resp.ack <= AbsLen(m)
    requires y == Tracked(x.c.(nodes := x.c.nodes[at := m], net := x.c.net + {Reply(at, resp)}), x.logs[at := f])
    ensures Holds(y, at)
  {
    assert LeaderOf(y.c) == LeaderOf(x.c);
  }

  /** What a follower that holds a prefix becomes and answers. */
  lemma TakesAlong(x: Tracked, at: nat, req: LogRequest, taken: bool) returns (m: Node, f: seq<Entry>, resp: LogResponse)
    requires Shape(x.c) && at < |x.c.nodes| == |x.logs| && at != x.c.leader && Holds(x, at) && RequestOk(x.c, req)
    ensures HandleLogRequest(x.c.nodes[at], req, taken) == (m, resp)
    ensures NodeRun.NextFull(x.c.nodes[at], x.logs[at], NodeRun.OnLogRequest(req, taken)) == f
    ensures Follows(m, x.c.full) && f == x.c.full[..AbsLen(m)] && AbsLen(m) >= AbsLen(x.c.nodes[at])
    ensures resp.success ==> resp.ack <= AbsLen(m)
  {
    var n := x.c.nodes[at];
    var r := HandleLogRequest(n, req, taken);
    m, resp := r.0, r.1;
    f := NodeRun.NextFull(n, x.logs[at], NodeRun.OnLogRequest(req, taken));
    TakesPrefix(x.c, n, x.logs[at], req, taken);
    TakesLength(x.c, n, x.logs[at], req, taken);
    FollowerTakes(x.c, at, req, taken);
  }

  lemma ReceiverHolds(x: Tracked, at: nat, req: LogRequest, taken: bool, y: Tracked)
    requires Window(x.c) && Going(x, Receive(at, req, taken)) && at != x.c.leader && Holds(x, at)
    requires y == After(x, Receive(at, req, taken)) && Shape(y.c)
    ensures Holds(y, at)
  {
    assert PacketInside(x.c, Request(at, req));
    var m, f, resp := TakesAlong(x, at, req, taken);
    HolderReplaced(x, y, at, m, f, resp);
  }

  lemma ReceiveTruthful(x: Tracked, at: nat, req: LogRequest, taken: bool, j: nat, b: nat)
    requires Truthful(x, b) && Going(x, Receive(at, req, taken)) && j < |x.c.nodes| && j != x.c.leader
    ensures Keeps(x, After(x, Receive(at, req, taken)), j, b)
  {
    var y := After(x, Receive(at, req, taken));
    assert PacketInside(x.c, Request(at, req));
    ReceiveInside(x.c, at, req, taken);
    if j != at {
      SameKeeps(x, y, j, b);
    } else {
      if Holds(x, at) {
        ReceiverHolds(x, at, req, taken, y);
      }
      if Rejects(x, at, b) {
        ReceiverRejects(x, at, req, taken, b, y);
      }
    }
  }

  /** The leader's cursors after a reply. */
  lemma AnswerMoves(l: Node, from: nat, resp: LogResponse, j: nat)
    requires WellFormed(l) && from < l.totalNodes && j < l.totalNodes && resp.term <= l.currentTerm
    ensures var m := HandleLogResponse(l, from, resp);
            && m.lastIndex == l.lastIndex && j < |m.ackedLengths| && j < |m.sentLengths|
            && (if j == from && resp.success then m.ackedLengths[j] in {l.ackedLengths[j], resp.ack}
                else m.ackedLengths[j] == l.ackedLengths[j] && m.sentLengths[j] <= l.sentLengths[j])
  {
    if resp.success {
      CommitKeepsCursors(RecordAck(l, from, resp.ack));
    }
  }

  lemma AnswerTruthful(x: Tracked, from: nat, resp: LogResponse, j: nat, b: nat)
    requires Truthful(x, b) && Going(x, Answer(from, resp)) && j < |x.c.nodes| && j != x.c.leader
    ensures Keeps(x, After(x, Answer(from, resp)), j, b)
  {
    var y := After(x, Answer(from, resp));
    assert PacketInside(x.c, Reply(from, resp));
    AnswerInside(x.c, from, resp);
    AnswerMoves(LeaderOf(x.c), from, resp, j);
    if j != from || !resp.success {
      SameKeeps(x, y, j, b);
    }
  }

  lemma QuietTruthful(x: Tracked, y: Tracked, i: nat, m: Node, j: nat, b: nat)
    requires Truthful(x, b) && i < |x.c.nodes| && Quiet(x.c.nodes[i], m) && j < |x.c.nodes| && j != x.c.leader
    requires m.currentTerm <= x.c.term && (i == x.c.leader ==> m.currentTerm == x.c.term)
    requires y == Tracked(x.c.(nodes := x.c.nodes[i := m]), x.logs)
    ensures Keeps(x, y, j, b)
  {
    QuietInside(x.c, i, m);
    SameKeeps(x, y, j, b);
  }

  lemma StepTruthfulAt(x: Tracked, s: Step, j: nat, b: nat)
    requires Truthful(x, b) && Going(x, s) && j < |x.c.nodes| && j != x.c.leader
    ensures Keeps(x, After(x, s), j, b)
  {
    match s
    case Broadcast(message) => BroadcastTruthful(x, message, j, b);
    case Send(to) => SendTruthful(x, to, j, b);
    case Receive(at, req, taken) => ReceiveTruthful(x, at, req, taken, j, b);
    case Answer(from, resp) => AnswerTruthful(x, from, resp, j, b);
    case Vote(voter, vote) => QuietTruthful(x, After(x, s), voter, HandleVoteRequest(x.c.nodes[voter], vote).0, j, b);
    case Timeout(i) => QuietTruthful(x, After(x, s), i, StartElection(x.c.nodes[i]).0, j, b);
    case QuorumCheck(failures) =>
      QuietTruthful(x, After(x, s), x.c.leader, CheckQuorumHealth(LeaderOf(x.c), failures), j, b);
  }

  lemma StepTruthful(x: Tracked, s: Step, b: nat)
    requires Truthful(x, b) && Going(x, s)
    ensures Truthful(After(x, s), b)
  {
    var y := After(x, s);
    StepInside(x.c, s);
    assert y.c.leader == x.c.leader && |y.c.nodes| == |x.c.nodes|;
    forall j | 0 <= j < |y.c.nodes| && j != y.c.leader
      ensures Holds(y, j) || Rejects(y, j, b)
    {
      StepTruthfulAt(x, s, j, b);
    }
  }

  lemma {:induction false} RunTruthful(x: Tracked, steps: seq<Step>, y: Tracked, b: nat)
    requires Truthful(x, b) && Goes(x, steps, y)
    ensures Truthful(y, b)
    decreases |steps|
  {
    if steps != [] {
      StepTruthful(x, steps[0], b);
      RunTruthful(After(x, steps[0]), steps[1..], y, b);
    }
  }

  // ---------------------------------------------------------------- what makes one false

  function PairOf(x: Tracked, j: nat): Probe.Pair
    requires x.c.leader < |x.c.nodes| && j < |x.c.nodes| && j < |x.logs|
  {
    Probe.Pair(LeaderOf(x.c), x.c.nodes[j], x.logs[j])
  }

  /** The leader of `x` probes server `j`. */
  ghost predicate Ready(x: Tracked, j: nat) {
    && Window(x.c) && |x.logs| == |x.c.nodes| && j < |x.c.nodes| && j != x.c.leader
    && Probe.Probing(PairOf(x, j), j, x.c.full)
  }

  lemma {:induction false} GoesOn(x: Tracked, first: seq<Step>, y: Tracked, more: seq<Step>, z: Tracked)
    requires Goes(x, first, y) && Goes(y, more, z)
    ensures Goes(x, first + more, z)
    decreases |first|
  {
    if first == [] {
      assert first + more == more;
    } else {
      var all := first + more;
      assert all[0] == first[0] && all[1..] == first[1..] + more;
      GoesOn(After(x, first[0]), first[1..], y, more, z);
    }
  }

  lemma SendGoes(x: Tracked, j: nat, req: LogRequest) returns (y: Tracked)
    requires Ready(x, j) && req == PrepareLogRequest(LeaderOf(x.c), j)
    ensures Going(x, Send(j)) && After(x, Send(j)) == y && Window(y.c)
    ensures y == Tracked(x.c.(net := x.c.net + {Request(j, req)}), x.logs)
  {
    SendsWholeTail(x.c, j);
    SendInside(x.c, j);
    y := After(x, Send(j));
  }

  lemma ReceiveGoes(x: Tracked, j: nat, req: LogRequest, g: Node, resp: LogResponse) returns (y: Tracked)
    requires Window(x.c) && |x.logs| == |x.c.nodes| && j < |x.c.nodes| && Request(j, req) in x.c.net
    requires HandleLogRequest(x.c.nodes[j], req, false) == (g, resp)
    ensures Going(x, Receive(j, req, false)) && After(x, Receive(j, req, false)) == y && Window(y.c)
    ensures y.c == x.c.(nodes := x.c.nodes[j := g], net := x.c.net + {Reply(j, resp)})
    ensures y.logs == x.logs[j := NodeRun.NextFull(x.c.nodes[j], x.logs[j], NodeRun.OnLogRequest(req, false))]
  {
    ReceiveInside(x.c, j, req, false);
    y := After(x, Receive(j, req, false));
  }

  lemma AnswerGoes(x: Tracked, j: nat, resp: LogResponse, l: Node) returns (y: Tracked)
    requires Window(x.c) && |x.logs| == |x.c.nodes| && j < |x.c.nodes| && Reply(j, resp) in x.c.net
    requires HandleLogResponse(LeaderOf(x.c), j, resp) == l
    ensures Going(x, Answer(j, resp)) && After(x, Answer(j, resp)) == y && Window(y.c)
    ensures y == Tracked(x.c.(nodes := x.c.nodes[x.c.leader := l]), x.logs)
  {
    AnswerInside(x.c, j, resp);
    y := After(x, Answer(j, resp));
  }

  lemma RoundIs(p: Probe.Pair, j: nat, req: LogRequest, g: Node, resp: LogResponse, l: Node)
    requires WellFormed(p.leader) && WellFormed(p.follower) && j < p.leader.totalNodes
    requires req == PrepareLogRequest(p.leader, j)
    requires HandleLogRequest(p.follower, req, false) == (g, resp) && HandleLogResponse(p.leader, j, resp) == l
    ensures Probe.Round(p, j)
            == Probe.Pair(l, g, NodeRun.NextFull(p.follower, p.log, NodeRun.OnLogRequest(req, false)))
  {
  }

  lemma ThreeSteps(x: Tracked, s1: Step, x1: Tracked, s2: Step, x2: Tracked, s3: Step, y: Tracked)
    requires Going(x, s1) && After(x, s1) == x1 && Going(x1, s2) && After(x1, s2) == x2
    requires Going(x2, s3) && After(x2, s3) == y
    ensures Goes(x, [s1, s2, s3], y)
  {
    assert Goes(y, [], y);
    assert Goes(x2, [s3], y);
    assert Goes(x1, [s2, s3], y);
  }

  /** One exchange with server `j` is a run of the cluster. */
  lemma Exchanges(x: Tracked, j: nat) returns (steps: seq<Step>, y: Tracked)
    requires Ready(x, j)
    ensures Goes(x, steps, y) && Window(y.c) && |y.logs| == |y.c.nodes| == |x.c.nodes|
    ensures y.c.leader == x.c.leader && y.c.full == x.c.full && PairOf(y, j) == Probe.Round(PairOf(x, j), j)
  {
    var req := PrepareLogRequest(LeaderOf(x.c), j);
    var r := HandleLogRequest(x.c.nodes[j], req, false);
    var l := HandleLogResponse(LeaderOf(x.c), j, r.1);
    var x1 := SendGoes(x, j, req);
    var x2 := ReceiveGoes(x1, j, req, r.0, r.1);
    y := AnswerGoes(x2, j, r.1, l);
    RoundIs(PairOf(x, j), j, req, r.0, r.1, l);
    ThreeSteps(x, Send(j), x1, Receive(j, req, false), x2, Answer(j, r.1), y);
    steps := [Send(j), Receive(j, req, false), Answer(j, r.1)];
  }

  lemma RoundSees(j: nat, t: Probe.Setting, p: Probe.Pair, v: Probe.View)
    requires Probe.Sees(j, t, p, v)
    ensures Probe.Sees(j, t, Probe.Round(p, j), Probe.Probed(t, v))
  {
    Probe.ExchangeSimulates(j, t);
    assert Probe.SeesIn(j, t)(p, v);
    assert Probe.SeesIn(j, t)(Probe.Exchange(j)(p), Probe.ProbeStep(t)(v));
  }

  lemma RoundProbes(p: Probe.Pair, j: nat, a: seq<Entry>)
    requires Probe.Probing(p, j, a)
    ensures Probe.Probing(Probe.Round(p, j), j, a)
  {
    RoundSees(j, Probe.SettingOf(p, a), p, Probe.ViewOf(p, j));
  }

  /** Any number of exchanges with server `j` is a run of the cluster. */
  lemma {:induction false} ExchangesMany(x: Tracked, j: nat, k: nat) returns (steps: seq<Step>, y: Tracked)
    requires Ready(x, j)
    ensures Goes(x, steps, y) && Ready(y, j) && |y.c.nodes| == |x.c.nodes|
    ensures y.c.leader == x.c.leader && y.c.full == x.c.full && PairOf(y, j) == Probe.Rounds(PairOf(x, j), j, k)
    decreases k
  {
    if k == 0 {
      steps, y := [], x;
    } else {
      var first, x1 := Exchanges(x, j);
      RoundProbes(PairOf(x, j), j, x.c.full);
      var more;
      more, y := ExchangesMany(x1, j, k - 1);
      GoesOn(x, first, x1, more, y);
      steps := first + more;
    }
  }

  /** Where the logs differ before a request, they differ, or one of them ends, after it. */
  lemma SentDiffers(t: Probe.Setting, f: seq<Entry>, q: nat, i: nat)
    requires q <= |t.a| && q <= |f| && i < |f| && i < |t.a| && f[i] != t.a[i]
    ensures !AgreeBelow(CatchUp.Sent(t, f, q), t.a, |t.a|)
  {
    if AgreeBelow(f, t.a, q) {
      assert !AgreeOnOverlap(f, t.a, q, |t.a|);
      assert t.a[q..] == t.a[q..|t.a|];
      AppendAgreesIff(f, t.snapshotIndex, t.a, q, |t.a|);
    } else {
      CatchUp.SentKeeps(t, f, q);
      var d :| 0 <= d < q && f[d] != t.a[d];
      assert CatchUp.Sent(t, f, q)[..q][d] == f[..q][d];
    }
  }

  /** The first accepted request acknowledges the whole of the leader's log. */
  lemma StopAcknowledges(p: Probe.Pair, j: nat, a: seq<Entry>, k: nat, q: nat)
    requires Probe.Probing(p, j, a) && Probe.StopsAt(p, j, k, q)
    ensures j < |Probe.Rounds(p, j, k + 1).leader.ackedLengths|
    ensures Probe.Rounds(p, j, k + 1).leader.ackedLengths[j] == |a|
    ensures q <= |a| && q <= |p.log|
    ensures Probe.Rounds(p, j, k + 1).log == CatchUp.Sent(Probe.SettingOf(p, a), p.log, q)
  {
    Probe.ProbeStopsAtGreatestMatch(p, j, a, k, q);
    CatchUp.FirstStopResets(p, j, a, k, q);
    var s := Probe.Rounds(p, j, k);
    StopAccepts(p, j, k);
    var l, g := Probe.AcceptedRound(s, j, a);
    LastRound(p, j, k);
  }

  lemma {:induction false} StopAccepts(p: Probe.Pair, j: nat, k: nat)
    requires Iteration.FirstStop(Probe.Exchange(j), Probe.AcceptedBy(j), p, k)
    ensures Probe.Accepted(Probe.Rounds(p, j, k), j)
    decreases k
  {
    if k > 0 {
      StopAccepts(Probe.Round(p, j), j, k - 1);
    }
  }

  lemma LastRound(p: Probe.Pair, j: nat, k: nat)
    ensures Probe.Rounds(p, j, k + 1) == Probe.Round(Probe.Rounds(p, j, k), j)
  {
    var step := Probe.Exchange(j);
    var s := Probe.Rounds(p, j, k);
    Iteration.IterateAdds(step, p, k, 1);
    assert Iteration.Iterate(step, s, 1) == Iteration.Iterate(step, step(s), 0);
  }

  lemma StopDiffers(p: Probe.Pair, j: nat, a: seq<Entry>, k: nat, q: nat, i: nat)
    requires Probe.Probing(p, j, a) && Probe.StopsAt(p, j, k, q) && i < |p.log| && i < |a| && p.log[i] != a[i]
    ensures var s := Probe.Rounds(p, j, k + 1);
            j < |s.leader.ackedLengths| && s.leader.ackedLengths[j] == |a| && !AgreeBelow(s.log, a, |a|)
  {
    StopAcknowledges(p, j, a, k, q);
    SentDiffers(Probe.SettingOf(p, a), p.log, q, i);
  }

  /** Where the logs differ and something matches below the cursor, some number of exchanges has the
      follower acknowledge what it does not hold. */
  lemma DifferenceAcknowledged(p: Probe.Pair, j: nat, a: seq<Entry>, i: nat) returns (k: nat)
    requires Probe.Probing(p, j, a) && i < |p.log| && i < |a| && p.log[i] != a[i]
    requires Probe.HasMatch(Probe.SettingOf(p, a), Probe.ViewOf(p, j))
    ensures var s := Probe.Rounds(p, j, k);
            j < |s.leader.ackedLengths| && s.leader.ackedLengths[j] == |a| && !AgreeBelow(s.log, a, |a|)
  {
    var n, q := Probe.MatchStops(p, j, a);
    StopDiffers(p, j, a, n, q, i);
    k := n + 1;
  }

  /** The same for a follower in the cluster: some run records a false acknowledgement. */
  lemma DifferenceLies(x: Tracked, j: nat, i: nat) returns (steps: seq<Step>, y: Tracked)
    requires Ready(x, j) && i < |x.logs[j]| && i < |x.c.full| && x.logs[j][i] != x.c.full[i]
    requires Probe.HasMatch(SettingOf(x, j), Probe.ViewOf(PairOf(x, j), j))
    ensures Goes(x, steps, y) && Ready(y, j) && |y.c.nodes| == |x.c.nodes| && y.c.leader == x.c.leader && !AckTrue(y, j)
  {
    var p := PairOf(x, j);
    var k := DifferenceAcknowledged(p, j, x.c.full, i);
    steps, y := ExchangesMany(x, j, k);
    var s := Probe.Rounds(p, j, k);
    assert LeaderOf(y.c) == s.leader && y.logs[j] == s.log;
  }

  /** A message that makes a new entry of the term differ from `e`. */
  function Unlike(e: Entry): Message {
    e.message.(key := e.message.key + 1)
  }

  lemma OpensReady(x: Tracked, j: nat)
    requires Opens(x) && j < |x.c.nodes| && j != x.c.leader
    ensures Ready(x, j) && Probe.ViewOf(PairOf(x, j), j) == Probe.View(x.logs[j], |x.c.full| + 1)
  {
    BeginsInWindow(x.c);
  }

  /** The leader's log grows by an entry that the follower does not have there. */
  lemma GrowsApart(x: Tracked, j: nat) returns (y: Tracked)
    requires Opens(x) && j < |x.c.nodes| && j != x.c.leader && x.c.full < x.logs[j] && SomeMatch(x, j)
    ensures Goes(x, [Broadcast(Unlike(x.logs[j][|x.c.full|]))], y) && Ready(y, j)
    ensures |y.c.nodes| == |x.c.nodes| && y.c.leader == x.c.leader
    ensures y.logs[j] == x.logs[j] && |y.c.full| == |x.c.full| + 1 && y.c.full[|x.c.full|] != x.logs[j][|x.c.full|]
    ensures Probe.HasMatch(SettingOf(y, j), Probe.ViewOf(PairOf(y, j), j))
  {
    var s := Broadcast(Unlike(x.logs[j][|x.c.full|]));
    OpensReady(x, j);
    BroadcastInside(x.c, s.message);
    y := After(x, s);
    assert Goes(y, [], y);
    var t, n := SettingOf(x, j), x.c.nodes[j].lastIndex;
    var r :| t.floor <= r < |x.c.full| + 1 && Probe.Matches(x.c.full, x.logs[j], n, r);
    assert Probe.Matches(y.c.full, y.logs[j], n, r);
  }

  lemma MatchLies(x: Tracked, j: nat) returns (steps: seq<Step>, y: Tracked)
    requires Opens(x) && j < |x.c.nodes| && j != x.c.leader && SomeMatch(x, j) && !(x.logs[j] <= x.c.full)
    ensures Goes(x, steps, y) && |y.c.nodes| == |x.c.nodes| && y.c.leader == x.c.leader && !AckTrue(y, j)
  {
    OpensReady(x, j);
    var f, a := x.logs[j], x.c.full;
    if a < f {
      var x1 := GrowsApart(x, j);
      var more;
      more, y := DifferenceLies(x1, j, |a|);
      GoesOn(x, [Broadcast(Unlike(f[|a|]))], x1, more, y);
      steps := [Broadcast(Unlike(f[|a|]))] + more;
    } else {
      var i := Difference(f, a);
      steps, y := DifferenceLies(x, j, i);
    }
  }

  lemma Difference(f: seq<Entry>, a: seq<Entry>) returns (i: nat)
    requires !(f <= a) && !(a < f)
    ensures i < |f| && i < |a| && f[i] != a[i]
  {
    i :| 0 <= i < |f| && i < |a| && f[i] != a[i];
  }

  /** From the start of a reign with followers that hold any logs, the acknowledgements recorded in
      every run are true if and only if the log of each follower is a prefix of the leader's or
      matches it nowhere from the leader's snapshot on. */
  lemma AcksTrueIff(x: Tracked)
    requires Opens(x)
    ensures AllRunsTrue(x) <==> PrefixOrApart(x)
  {
    if PrefixOrApart(x) {
      OpensTruthful(x);
      forall steps, y | Goes(x, steps, y)
        ensures AcksTrue(y)
      {
        RunTruthful(x, steps, y, |x.c.full|);
        TruthfulAcks(y, |x.c.full|);
      }
    } else {
      var j: nat :| j < |x.c.nodes| && j != x.c.leader && !(x.logs[j] <= x.c.full || !SomeMatch(x, j));
      var steps, y := MatchLies(x, j);
    }
  }

  /** A leader that has compacted nothing can reach position zero, which matches every log: its
      acknowledgements are true in every run if and only if every follower holds a prefix. */
  lemma UncompactedAcksTrueIff(x: Tracked)
    requires Opens(x) && LeaderOf(x.c).lastIndex == 0
    ensures AllRunsTrue(x) <==> forall j :: 0 <= j < |x.c.nodes| && j != x.c.leader ==> x.logs[j] <= x.c.full
  {
    AcksTrueIff(x);
    forall j | 0 <= j < |x.c.nodes|
      ensures SomeMatch(x, j)
    {
      assert Probe.Matches(x.c.full, x.logs[j], x.c.nodes[j].lastIndex, 0);
    }
  }
}
