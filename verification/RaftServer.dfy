/** The Raft server with the fields the handlers update in place. Every handler is proved to
    compute the corresponding function of RaftSteps; none indexes the log out of range. */
module RaftServer {
  import opened RaftTypes
  import opened Quorum
  import opened RaftSteps

  class Raft {
    const id: nat
    const totalNodes: nat
    var currentTerm: int
    var votedFor: int
    var log: seq<Entry>
    var commitLength: nat
    var role: Role
    var leaderId: int
    var votes: set<nat>
    var sentLengths: seq<nat>
    var ackedLengths: seq<nat>
    var lastIndex: nat
    var lastTerm: int
    const threshold: int
    var applied: AppState
    var snapshot: AppState
    var panicked: bool

    /** The state as a value. */
    ghost function State(): Node
      reads this
    {
      Node(id, totalNodes, currentTerm, votedFor, log, commitLength, role, leaderId, votes,
           sentLengths, ackedLengths, lastIndex, lastTerm, threshold, applied, snapshot, panicked)
    }

    ghost predicate Valid()
      reads this
    {
      WellFormed(State())
    }

    /** A server that has not run before. */
    constructor (id: nat, totalNodes: nat, threshold: int)
      requires id < totalNodes
      ensures Valid()
      ensures State() == Node(id, totalNodes, 0, NOBODY, [], 0, Follower, NOBODY, {},
                              seq(totalNodes, _ => 0), seq(totalNodes, _ => 0), 0, 0, threshold, [], [], false)
    {
      this.id, this.totalNodes, this.threshold := id, totalNodes, threshold;
      currentTerm, votedFor, log, commitLength := 0, NOBODY, [], 0;
      role, leaderId, votes := Follower, NOBODY, {};
      sentLengths, ackedLengths := seq(totalNodes, _ => 0), seq(totalNodes, _ => 0);
      lastIndex, lastTerm, applied, snapshot, panicked := 0, 0, [], [], false;
    }

    method DeliverToApplication(message: Message)
      modifies this`applied
      ensures applied == old(applied) + [message]
    {
      applied := applied + [message];
    }

    method GetLastLogTerm() returns (term: int)
      ensures term == LastLogTerm(State())
    {
      if |log| > 0 {
        return log[|log| - 1].term;
      } else if |log| == 0 && lastIndex > 0 {
        return lastTerm;
      }
      return 0;
    }

    // -------------------------------------------------------------- replication, follower side

    method DecideRunSnapshot(snapshotTaken: bool)
      requires Valid()
      modifies this`snapshot, this`log, this`lastIndex, this`lastTerm, this`panicked
      ensures Valid() && State() == Compact(old(State()), snapshotTaken)
    {
      if |log| < threshold {
        return;
      }
      var committedCount := commitLength - lastIndex;
      if committedCount <= 0 {
        return;
      }
      var relIdx := committedCount - 1;
      var newLastTerm := lastTerm;
      if 0 <= relIdx < |log| {
        newLastTerm := log[relIdx].term;
      }
      if !snapshotTaken {
        return;
      }
      snapshot := applied;
      if committedCount > |log| {
        panicked := true;
        return;
      }
      log := log[committedCount..];
      lastIndex := commitLength;
      lastTerm := newLastTerm;
    }

    /** The delivery loop of appendEntries. */
    method DeliverUpTo(target: nat)
      requires lastIndex <= commitLength && target <= lastIndex + |log|
      modifies this`applied, this`commitLength
      ensures commitLength == target
      ensures applied == old(applied) + MessagesBetween(log, lastIndex, old(commitLength), target)
    {
      ghost var start := commitLength;
      var i := commitLength;
      while i < target
        invariant commitLength == start <= i && (i <= target || i == start)
        invariant applied == old(applied) + MessagesBetween(log, lastIndex, start, i)
      {
        var relativeIndex := i - lastIndex;
        MessagesBetweenNext(log, lastIndex, start, i);
        DeliverToApplication(log[relativeIndex].message);
        i := i + 1;
      }
      commitLength := target;
    }

    /** The truncation and the append of appendEntries. */
    method AppendSuffix(prefixLen: nat, suffix: seq<Entry>)
      requires Valid()
      modifies this`log
      ensures log == Appended(old(State()), prefixLen, suffix)
    {
      var absoluteLogLength := |log| + lastIndex;
      if |suffix| > 0 && absoluteLogLength > prefixLen {
        var relativeCheckIndex := prefixLen - lastIndex;
        if 0 <= relativeCheckIndex < |log| {
          if log[relativeCheckIndex].term != suffix[0].term {
            log := log[..relativeCheckIndex];
          }
        }
      }
      if prefixLen + |suffix| > absoluteLogLength {
        var startAppendingIndex := absoluteLogLength - prefixLen;
        if startAppendingIndex < 0 {
          startAppendingIndex := 0;
        }
        if startAppendingIndex < |suffix| {
          log := log + suffix[startAppendingIndex..];
        }
      }
    }

    /** The commit part of appendEntries. */
    method FollowLeaderCommit(leaderCommit: nat)
      requires Valid()
      modifies this`commitLength, this`applied
      ensures Valid() && State() == FollowCommit(old(State()), leaderCommit)
    {
      if leaderCommit > commitLength {
        var target := leaderCommit;
        var maxCommit := |log| + lastIndex;
        if target > maxCommit {
          target := maxCommit;
        }
        DeliverUpTo(target);
      }
    }

    method AppendEntriesToLog(prefixLen: nat, leaderCommit: nat, suffix: seq<Entry>, snapshotTaken: bool)
      requires Valid()
      modifies this`log, this`commitLength, this`applied, this`snapshot, this`lastIndex, this`lastTerm, this`panicked
      ensures Valid() && State() == AppendEntries(old(State()), prefixLen, leaderCommit, suffix, snapshotTaken)
    {
      AppendSuffix(prefixLen, suffix);
      FollowLeaderCommit(leaderCommit);
      DecideRunSnapshot(snapshotTaken);
    }

    /** The consistency check of LogRequest. */
    method CheckPrefix(prevIndex: nat, prevTerm: int) returns (logOk: bool)
      ensures logOk == LogOk(State(), prevIndex, prevTerm)
    {
      var absLastIndex := lastIndex + |log|;
      if prevIndex == 0 {
        return prevTerm == 0;
      } else if prevIndex > absLastIndex {
        return false;
      } else if prevIndex == lastIndex {
        return lastTerm == prevTerm;
      }
      var rel := prevIndex - lastIndex - 1;
      if 0 <= rel < |log| {
        return log[rel].term == prevTerm;
      }
      return false;
    }

    /** What LogRequest does before the consistency check. */
    method ObserveRequest(req: LogRequest)
      requires Valid()
      modifies this`currentTerm, this`votedFor, this`role, this`leaderId
      ensures Valid() && State() == Observe(old(State()), req)
    {
      if currentTerm < req.term {
        currentTerm := req.term;
        votedFor := NOBODY;
      }
      if currentTerm == req.term {
        role := Follower;
        if id != req.leaderId {
          leaderId := req.leaderId;
        } else {
          leaderId := NOBODY;
        }
      }
    }

    method ReceiveLogRequest(req: LogRequest, snapshotTaken: bool) returns (resp: LogResponse)
      requires Valid()
      modifies this
      ensures Valid() && (State(), resp) == HandleLogRequest(old(State()), req, snapshotTaken)
    {
      ObserveRequest(req);
      var logOk := CheckPrefix(req.prefixLen, req.prefixTerm);
      if currentTerm == req.term && logOk {
        AppendEntriesToLog(req.prefixLen, req.leaderCommit, req.suffix, snapshotTaken);
        resp := LogResponse(id, currentTerm, req.prefixLen + |req.suffix|, true);
      } else {
        resp := LogResponse(id, currentTerm, 0, false);
      }
    }

    /** What InstallSnapshot does to the log once the last chunk is in. */
    method CutLog(index: nat, term: int)
      modifies this`log
      ensures log == AfterSnapshot(old(State()), index, term)
    {
      var currentLastIndex := lastIndex + |log|;
      if currentLastIndex > index {
        var relativeIndex := index - lastIndex;
        if 0 <= relativeIndex < |log| && log[relativeIndex].term == term {
          log := log[relativeIndex + 1..];
        } else {
          log := [];
        }
      } else {
        log := [];
      }
    }

    method RestoreImage(state: AppState, index: nat, term: int)
      requires Valid()
      modifies this`applied, this`snapshot, this`lastIndex, this`lastTerm, this`commitLength
      ensures Valid() && State() == Restore(old(State()), state, index, term)
    {
      applied, snapshot := state, state;
      lastIndex := index;
      lastTerm := term;
      if commitLength < index {
        commitLength := index;
      }
    }

    /** The term, role and leader updates of InstallSnapshot. */
    method NoteSnapshotSender(req: SnapshotRequest)
      requires req.term >= currentTerm
      modifies this`currentTerm, this`role, this`leaderId
      ensures State() == ObserveSnapshot(old(State()), req)
    {
      if req.term > currentTerm {
        currentTerm := req.term;
        role := Follower;
        leaderId := req.leaderId;
      }
      leaderId := req.leaderId;
    }

    /** `written` is the outcome of writing the chunk to the snapshot file. */
    method ReceiveSnapshot(req: SnapshotRequest, written: bool, image: Option<AppState>) returns (term: int)
      requires Valid()
      modifies this
      ensures Valid() && (State(), term) == HandleInstallSnapshot(old(State()), req, written, image)
    {
      term := currentTerm;
      if req.term < currentTerm {
        return;
      }
      NoteSnapshotSender(req);
      if !written {
        return;
      }
      if req.done {
        InstallImage(req.lastIncludedIndex, req.lastIncludedTerm, image);
      }
    }

    /** What InstallSnapshot does once the last chunk is in. */
    method InstallImage(index: nat, term: int, image: Option<AppState>)
      requires Valid()
      modifies this`log, this`applied, this`snapshot, this`lastIndex, this`lastTerm, this`commitLength
      ensures Valid()
      ensures var cut := old(State()).(log := AfterSnapshot(old(State()), index, term));
              State() == if image.None? then cut else Restore(cut, image.value, index, term)
    {
      CutLog(index, term);
      if image.Some? {
        RestoreImage(image.value, index, term);
      }
    }

    // -------------------------------------------------------------- elections

    method BecomeFollower(term: int)
      requires Valid()
      modifies this`role, this`currentTerm, this`votedFor, this`leaderId
      ensures Valid() && State() == StepDown(old(State()), term)
    {
      role := Follower;
      currentTerm := term;
      votedFor := NOBODY;
      leaderId := NOBODY;
    }

    method ReceiveVoteRequest(req: VoteRequest) returns (resp: VoteResponse)
      requires Valid()
      modifies this`role, this`currentTerm, this`votedFor, this`leaderId
      ensures Valid() && (State(), resp) == HandleVoteRequest(old(State()), req)
    {
      if leaderId == req.candidateId {
        role := Follower;
        votedFor := NOBODY;
        leaderId := NOBODY;
      }
      if req.term > currentTerm {
        currentTerm := req.term;
        role := Follower;
        votedFor := NOBODY;
      }
      var lastLogTerm := GetLastLogTerm();
      var logOk := req.logTerm > lastLogTerm || (req.logTerm == lastLogTerm && req.logLength >= |log| + lastIndex);
      if req.term == currentTerm && logOk && (votedFor == NOBODY || votedFor == req.candidateId) {
        votedFor := req.candidateId;
        role := Follower;
        leaderId := NOBODY;
        resp := VoteResponse(id, currentTerm, true);
      } else {
        resp := VoteResponse(id, currentTerm, false);
      }
    }

    method StartElectionRound() returns (req: VoteRequest)
      requires Valid()
      modifies this`role, this`currentTerm, this`votedFor, this`leaderId, this`votes
      ensures Valid() && (State(), req) == StartElection(old(State()))
    {
      role := Candidate;
      currentTerm := currentTerm + 1;
      votedFor := id;
      votes := {};
      votes := votes + {id};
      assert votes == {id};
      leaderId := NOBODY;
      var logTerm := GetLastLogTerm();
      req := VoteRequest(id, currentTerm, |log| + lastIndex, logTerm);
    }

    method TakeLeadership()
      requires Valid()
      modifies this`role, this`leaderId, this`sentLengths, this`ackedLengths
      ensures Valid() && State() == BecomeLeader(old(State()))
    {
      ghost var sent, acked := sentLengths, ackedLengths;
      role := Leader;
      leaderId := id;
      SetPeerLengths(lastIndex + |log| + 1);
      assert sentLengths == ForPeers(sent, id, lastIndex + |log| + 1);
      assert ackedLengths == ForPeers(acked, id, 0);
    }

    /** The loop of becomeLeader over the followers. */
    method SetPeerLengths(next: nat)
      requires |sentLengths| == |ackedLengths| == totalNodes
      modifies this`sentLengths, this`ackedLengths
      ensures |sentLengths| == |ackedLengths| == totalNodes
      ensures forall j :: 0 <= j < totalNodes ==> sentLengths[j] == if j != id then next else old(sentLengths)[j]
      ensures forall j :: 0 <= j < totalNodes ==> ackedLengths[j] == if j != id then 0 else old(ackedLengths)[j]
    {
      for followerId := 0 to totalNodes
        invariant |sentLengths| == |ackedLengths| == totalNodes
        invariant forall j :: 0 <= j < totalNodes ==>
                    sentLengths[j] == if j < followerId && j != id then next else old(sentLengths)[j]
        invariant forall j :: 0 <= j < totalNodes ==>
                    ackedLengths[j] == if j < followerId && j != id then 0 else old(ackedLengths)[j]
      {
        if followerId != id {
          sentLengths := sentLengths[followerId := next];
          ackedLengths := ackedLengths[followerId := 0];
        }
      }
    }

    method ReceiveVote(vote: VoteResponse)
      requires Valid()
      modifies this
      ensures Valid() && State() == HandleVoteResponse(old(State()), vote)
    {
      if currentTerm < vote.term {
        currentTerm := vote.term;
        role := Follower;
        return;
      }
      if vote.granted && currentTerm == vote.term && role == Candidate {
        votes := votes + {vote.nodeId};
        if |votes| >= Majority(totalNodes) {
          TakeLeadership();
        }
      }
    }

    /** `failures[i]` counts the replication attempts to server `i` that failed in a row. */
    method CheckQuorum(failures: seq<nat>)
      requires Valid()
      modifies this`role, this`currentTerm, this`votedFor, this`leaderId
      ensures Valid() && State() == CheckQuorumHealth(old(State()), failures)
    {
      if role != Leader {
        return;
      }
      var healthyFollowers := 0;
      for i := 0 to |failures|
        invariant healthyFollowers == Healthy(failures, id, i)
      {
        if i != id && failures[i] < MAX_CONSECUTIVE_FAILURES {
          healthyFollowers := healthyFollowers + 1;
        }
      }
      if healthyFollowers < Majority(totalNodes) - 1 {
        BecomeFollower(currentTerm);
      }
    }

    // -------------------------------------------------------------- replication, leader side

    method Broadcast(message: Message)
      requires Valid()
      modifies this`log, this`ackedLengths
      ensures Valid() && State() == Propose(old(State()), message)
    {
      if role != Leader {
        return;
      }
      log := log + [Entry(currentTerm, message)];
      ackedLengths := ackedLengths[id := |log| + lastIndex];
    }

    /** The term at `prevIndex`, which is at least the snapshot index; `known` is false past the log. */
    method TermBefore(prevIndex: nat) returns (known: bool, prevTerm: int)
      requires lastIndex <= prevIndex
      ensures known <==> prevIndex <= lastIndex + |log|
      ensures known ==> prevTerm == if prevIndex == 0 then 0 else if prevIndex == lastIndex then lastTerm
                                    else log[prevIndex - lastIndex - 1].term
    {
      if prevIndex == 0 {
        return true, 0;
      }
      if prevIndex == lastIndex {
        return true, lastTerm;
      }
      var rel := prevIndex - lastIndex - 1;
      if rel < 0 || rel >= |log| {
        return false, 0;
      }
      return true, log[rel].term;
    }

    /** `transfer` is set where a snapshot transfer is started as well. */
    method PrepareLogRequestArgs(follower: nat) returns (req: LogRequest, transfer: bool)
      requires Valid() && follower < totalNodes
      ensures req == PrepareLogRequest(State(), follower)
      ensures transfer <==> NeedsSnapshot(State(), follower)
    {
      transfer := false;
      var nextIndex := sentLengths[follower];
      if nextIndex == 0 {
        nextIndex := lastIndex + |log| + 1;
      }
      if nextIndex <= lastIndex {
        return LogRequest(id, currentTerm, 0, 0, 0, []), true;
      }
      var prevIndex := nextIndex - 1;
      var known, prevTerm := TermBefore(prevIndex);
      if !known {
        return LogRequest(id, currentTerm, 0, 0, 0, []), false;
      }
      var start := nextIndex - lastIndex - 1;
      if start > |log| {
        start := |log|;
      }
      req := LogRequest(id, currentTerm, prevIndex, prevTerm, commitLength, log[start..]);
    }

    method ReceiveTransferReply(term: int)
      requires Valid()
      modifies this`role, this`currentTerm, this`votedFor
      ensures Valid() && State() == HandleTransferReply(old(State()), term)
    {
      if term > currentTerm {
        currentTerm := term;
        role := Follower;
        votedFor := NOBODY;
      }
    }

    method EndTransfer(follower: nat, index: nat)
      requires Valid() && follower < totalNodes
      modifies this`sentLengths, this`ackedLengths
      ensures Valid() && State() == FinishTransfer(old(State()), follower, index)
    {
      sentLengths := sentLengths[follower := index + 1];
      ackedLengths := ackedLengths[follower := index];
    }

    /** How many servers hold the position after the commit length, this one included. */
    method CountAcks() returns (acks: nat)
      requires |ackedLengths| == totalNodes
      ensures acks == 1 + CountPeers(ackedLengths, id, totalNodes, commitLength)
    {
      acks := 1;
      for j := 0 to totalNodes
        invariant acks == 1 + CountPeers(ackedLengths, id, j, commitLength)
      {
        if j != id {
          if ackedLengths[j] > commitLength {
            acks := acks + 1;
          }
        }
      }
    }

    /** The counting loop of commitLogEntries: raises the commit length as far as `bound`, where
        acknowledgements run out, and collects the messages to deliver. */
    method AdvanceCommit(ghost bound: nat) returns (messagesToApply: seq<Message>)
      requires |ackedLengths| == totalNodes && lastIndex <= commitLength && bound <= lastIndex + |log|
      requires forall c :: 0 <= c < lastIndex + |log| ==> (Enough(ackedLengths, id, c) <==> c < bound)
      modifies this`commitLength
      ensures commitLength == if bound > old(commitLength) then bound else old(commitLength)
      ensures messagesToApply == MessagesBetween(log, lastIndex, old(commitLength), commitLength)
    {
      ghost var start := commitLength;
      messagesToApply := [];
      while commitLength < lastIndex + |log|
        invariant start <= commitLength && (commitLength == start || commitLength <= bound)
        invariant messagesToApply == MessagesBetween(log, lastIndex, start, commitLength)
      {
        var acks := CountAcks();
        assert acks >= Majority(totalNodes) <==> Enough(ackedLengths, id, commitLength);
        if acks >= Majority(totalNodes) {
          MessagesBetweenNext(log, lastIndex, start, commitLength);
          messagesToApply := messagesToApply + [log[commitLength - lastIndex].message];
          commitLength := commitLength + 1;
        } else {
          break;
        }
      }
    }

    method DeliverAll(messages: seq<Message>)
      modifies this`applied
      ensures applied == old(applied) + messages
    {
      for i := 0 to |messages|
        invariant applied == old(applied) + messages[..i]
      {
        DeliverToApplication(messages[i]);
      }
    }

    /** commitLogEntries, given where acknowledgements run out. */
    method CommitUpTo(ghost bound: nat)
      requires Valid() && bound <= lastIndex + |log|
      requires forall c :: 0 <= c < lastIndex + |log| ==> (Enough(ackedLengths, id, c) <==> c < bound)
      modifies this`commitLength, this`applied
      ensures State() == CommitTo(old(State()), if bound > old(commitLength) then bound else old(commitLength))
    {
      var messagesToApply := AdvanceCommit(bound);
      DeliverAll(messagesToApply);
    }

    method CommitAcknowledged()
      requires Valid()
      modifies this`commitLength, this`applied
      ensures Valid() && State() == CommitLogEntries(old(State()))
    {
      BoundStops(ackedLengths, id, lastIndex + |log|);
      CommitUpTo(AckedBound(ackedLengths, id, lastIndex + |log|));
    }

    /** The reply handling at the end of replicate. */
    method ReceiveLogResponse(follower: nat, resp: LogResponse)
      requires Valid() && follower < totalNodes
      modifies this
      ensures Valid() && State() == HandleLogResponse(old(State()), follower, resp)
    {
      if resp.term > currentTerm {
        BecomeFollower(resp.term);
        return;
      }
      if role == Leader && resp.term == currentTerm {
        if resp.success {
          sentLengths := sentLengths[follower := resp.ack + 1];
          ackedLengths := ackedLengths[follower := resp.ack];
          CommitAcknowledged();
        } else {
          var floor := lastIndex + 1;
          if sentLengths[follower] > floor {
            sentLengths := sentLengths[follower := sentLengths[follower] - 1];
          }
        }
      }
    }
  }
}
