/** The Raft handlers as functions from the old state of a server to the new one. Each is
    one atomic step; RaftServer proves that the imperative handlers compute them. */
module RaftSteps {
  import opened RaftTypes
  import opened Quorum

  // ---------------------------------------------------------------- reading the log

  function LastLogTerm(n: Node): int {
    if |n.log| > 0 then n.log[|n.log| - 1].term
    else if n.lastIndex > 0 then n.lastTerm
    else 0
  }

  /** The consistency check of a log request against the local log. */
  predicate LogOk(n: Node, prevIndex: nat, prevTerm: int) {
    if prevIndex == 0 then prevTerm == 0
    else if prevIndex > AbsLen(n) then false
    else if prevIndex == n.lastIndex then n.lastTerm == prevTerm
    else n.lastIndex < prevIndex && n.log[prevIndex - n.lastIndex - 1].term == prevTerm
  }

  // ---------------------------------------------------------------- the follower

  /** The only conflict appendEntries looks for: the entry just after the prefix has
      another term than the first entry of the suffix. */
  predicate Conflict(n: Node, prefixLen: nat, suffix: seq<Entry>) {
    && |suffix| > 0
    && n.lastIndex <= prefixLen < AbsLen(n)
    && n.log[prefixLen - n.lastIndex].term != suffix[0].term
  }

  /** The part of the suffix beyond the length the log had on entry. */
  function Fresh(length: nat, prefixLen: nat, suffix: seq<Entry>): seq<Entry> {
    if prefixLen + |suffix| <= length then []
    else if length <= prefixLen then suffix
    else suffix[length - prefixLen..]
  }

  function Appended(n: Node, prefixLen: nat, suffix: seq<Entry>): seq<Entry> {
    (if Conflict(n, prefixLen, suffix) then n.log[..prefixLen - n.lastIndex] else n.log) +
    Fresh(AbsLen(n), prefixLen, suffix)
  }

  /** Commits and applies up to `target`; a target below the commit length moves it back
      and applies nothing. */
  function CommitTo(n: Node, target: nat): Node
    requires n.lastIndex <= n.commitLength && (target <= n.commitLength || target <= AbsLen(n))
  {
    n.(commitLength := target,
       applied := n.applied + MessagesBetween(n.log, n.lastIndex, n.commitLength, target))
  }

  function FollowCommit(n: Node, leaderCommit: nat): Node
    requires n.lastIndex <= n.commitLength
  {
    if leaderCommit <= n.commitLength then n
    else CommitTo(n, if leaderCommit > AbsLen(n) then AbsLen(n) else leaderCommit)
  }

  /** Log compaction; `snapshotTaken` is false when the application could not produce a snapshot. */
  function Compact(n: Node, snapshotTaken: bool): Node
    requires n.lastIndex <= n.commitLength
  {
    var committed := n.commitLength - n.lastIndex;
    if |n.log| < n.threshold || committed == 0 || !snapshotTaken then n
    else if committed > |n.log| then n.(snapshot := n.applied, panicked := true)
    else n.(snapshot := n.applied, log := n.log[committed..], lastIndex := n.commitLength,
            lastTerm := n.log[committed - 1].term)
  }

  function AppendEntries(n: Node, prefixLen: nat, leaderCommit: nat, suffix: seq<Entry>, snapshotTaken: bool): Node
    requires n.lastIndex <= n.commitLength
  {
    Compact(FollowCommit(n.(log := Appended(n, prefixLen, suffix)), leaderCommit), snapshotTaken)
  }

  /** The term and role changes a log request causes before its contents are looked at. */
  function Observe(n: Node, req: LogRequest): Node {
    if n.currentTerm > req.term then n
    else
      n.(currentTerm := req.term,
         votedFor := if n.currentTerm < req.term then NOBODY else n.votedFor,
         role := Follower,
         leaderId := if n.id != req.leaderId then req.leaderId else NOBODY)
  }

  predicate Accepts(n: Node, req: LogRequest) {
    n.currentTerm <= req.term && LogOk(n, req.prefixLen, req.prefixTerm)
  }

  function HandleLogRequest(n: Node, req: LogRequest, snapshotTaken: bool): (Node, LogResponse)
    requires WellFormed(n)
  {
    var seen := Observe(n, req);
    if Accepts(n, req) then
      (AppendEntries(seen, req.prefixLen, req.leaderCommit, req.suffix, snapshotTaken),
       LogResponse(n.id, req.term, req.prefixLen + |req.suffix|, true))
    else
      (seen, LogResponse(n.id, seen.currentTerm, 0, false))
  }

  /** The term, role and leader changes of a snapshot request that is not stale. */
  function ObserveSnapshot(n: Node, req: SnapshotRequest): Node
    requires req.term >= n.currentTerm
  {
    n.(currentTerm := req.term,
       role := if req.term > n.currentTerm then Follower else n.role,
       leaderId := req.leaderId)
  }

  function Restore(n: Node, state: AppState, index: nat, term: int): Node {
    n.(applied := state, snapshot := state, lastIndex := index, lastTerm := term,
       commitLength := if n.commitLength < index then index else n.commitLength)
  }

  /** `written` is false when the chunk could not be written. The last chunk restores `image`, the
      decoded snapshot file; `None` when the file cannot be read or restored, which leaves the log
      cut but the snapshot indices untouched. */
  function HandleInstallSnapshot(n: Node, req: SnapshotRequest, written: bool, image: Option<AppState>): (Node, int)
    requires WellFormed(n)
  {
    if req.term < n.currentTerm then (n, n.currentTerm)
    else
      var seen := ObserveSnapshot(n, req);
      if !written || !req.done then (seen, n.currentTerm)
      else
        var cut := seen.(log := AfterSnapshot(n, req.lastIncludedIndex, req.lastIncludedTerm));
        if image.None? then (cut, n.currentTerm)
        else (Restore(cut, image.value, req.lastIncludedIndex, req.lastIncludedTerm), n.currentTerm)
  }

  /** The entries kept when a snapshot up to `index` arrives. */
  function AfterSnapshot(n: Node, index: nat, term: int): seq<Entry> {
    if n.lastIndex <= index < AbsLen(n) && n.log[index - n.lastIndex].term == term
    then n.log[index - n.lastIndex + 1..]
    else []
  }

  // ---------------------------------------------------------------- elections

  function StepDown(n: Node, term: int): Node {
    n.(role := Follower, currentTerm := term, votedFor := NOBODY, leaderId := NOBODY)
  }

  function HandleVoteRequest(n: Node, req: VoteRequest): (Node, VoteResponse) {
    var fromLeader := n.leaderId == req.candidateId;
    var newer := req.term > n.currentTerm;
    var seen := n.(role := if fromLeader || newer then Follower else n.role,
                   votedFor := if fromLeader || newer then NOBODY else n.votedFor,
                   leaderId := if fromLeader then NOBODY else n.leaderId,
                   currentTerm := if newer then req.term else n.currentTerm);
    if req.term == seen.currentTerm && UpToDate(req.logTerm, req.logLength, LastLogTerm(n), AbsLen(n))
       && (seen.votedFor == NOBODY || seen.votedFor == req.candidateId)
    then (seen.(votedFor := req.candidateId, role := Follower, leaderId := NOBODY),
          VoteResponse(n.id, seen.currentTerm, true))
    else (seen, VoteResponse(n.id, seen.currentTerm, false))
  }

  /** A log ending in `term` with `length` positions is at least as up to date as another. */
  predicate UpToDate(term: int, length: nat, otherTerm: int, otherLength: nat) {
    term > otherTerm || (term == otherTerm && length >= otherLength)
  }

  function StartElection(n: Node): (Node, VoteRequest) {
    (n.(role := Candidate, currentTerm := n.currentTerm + 1, votedFor := n.id, votes := {n.id},
        leaderId := NOBODY),
     VoteRequest(n.id, n.currentTerm + 1, AbsLen(n), LastLogTerm(n)))
  }

  function HandleVoteResponse(n: Node, vote: VoteResponse): Node {
    if n.currentTerm < vote.term then n.(currentTerm := vote.term, role := Follower)
    else if vote.granted && n.currentTerm == vote.term && n.role == Candidate then
      var counted := n.(votes := n.votes + {vote.nodeId});
      if |counted.votes| >= Majority(n.totalNodes) then BecomeLeader(counted) else counted
    else n
  }

  /** `lengths` with every entry but that of `self` set to `value`. */
  function ForPeers(lengths: seq<nat>, self: nat, value: nat): (r: seq<nat>)
    ensures |r| == |lengths|
    ensures forall j :: 0 <= j < |r| ==> r[j] == if j == self then lengths[j] else value
  {
    if lengths == [] then []
    else
      var last := |lengths| - 1;
      ForPeers(lengths[..last], self, value) + [if last == self then lengths[last] else value]
  }

  function BecomeLeader(n: Node): Node {
    n.(role := Leader, leaderId := n.id,
       sentLengths := ForPeers(n.sentLengths, n.id, AbsLen(n) + 1),
       ackedLengths := ForPeers(n.ackedLengths, n.id, 0))
  }

  const MAX_CONSECUTIVE_FAILURES: nat := 5

  /** The followers whose replicator has not failed too often in a row. */
  function Healthy(failures: seq<nat>, self: nat, upTo: nat): (k: nat)
    requires upTo <= |failures|
    ensures k <= upTo
  {
    if upTo == 0 then 0
    else Healthy(failures, self, upTo - 1) +
         (if upTo - 1 != self && failures[upTo - 1] < MAX_CONSECUTIVE_FAILURES then 1 else 0)
  }

  predicate LosesQuorum(n: Node, failures: seq<nat>) {
    n.role == Leader && Healthy(failures, n.id, |failures|) < Majority(n.totalNodes) - 1
  }

  function CheckQuorumHealth(n: Node, failures: seq<nat>): Node {
    if LosesQuorum(n, failures) then StepDown(n, n.currentTerm) else n
  }

  // ---------------------------------------------------------------- the leader

  /** Broadcast on the leader; elsewhere the message is forwarded and nothing changes here. */
  function Propose(n: Node, message: Message): Node
    requires WellFormed(n)
  {
    if n.role != Leader then n
    else n.(log := n.log + [Entry(n.currentTerm, message)],
            ackedLengths := n.ackedLengths[n.id := AbsLen(n) + 1])
  }

  function NextIndex(n: Node, follower: nat): nat
    requires WellFormed(n) && follower < n.totalNodes
  {
    if n.sentLengths[follower] == 0 then AbsLen(n) + 1 else n.sentLengths[follower]
  }

  predicate NeedsSnapshot(n: Node, follower: nat)
    requires WellFormed(n) && follower < n.totalNodes
  {
    NextIndex(n, follower) <= n.lastIndex
  }

  /** The request sent when the cursor points outside the log. */
  function EmptyRequest(n: Node): LogRequest {
    LogRequest(n.id, n.currentTerm, 0, 0, 0, [])
  }

  function PrepareLogRequest(n: Node, follower: nat): LogRequest
    requires WellFormed(n) && follower < n.totalNodes
  {
    var next := NextIndex(n, follower);
    if next <= n.lastIndex then EmptyRequest(n)
    else
      var prev := next - 1;
      if prev > AbsLen(n) then EmptyRequest(n)
      else
        var prevTerm := if prev == 0 then 0
                        else if prev == n.lastIndex then n.lastTerm
                        else n.log[prev - n.lastIndex - 1].term;
        LogRequest(n.id, n.currentTerm, prev, prevTerm, n.commitLength, n.log[prev - n.lastIndex..])
  }

  /** Where the commit loop stops; it never moves back. */
  function CommitBound(n: Node): nat
    requires WellFormed(n)
  {
    var bound := AckedBound(n.ackedLengths, n.id, AbsLen(n));
    if bound > n.commitLength then bound else n.commitLength
  }

  function CommitLogEntries(n: Node): Node
    requires WellFormed(n)
  {
    CommitTo(n, CommitBound(n))
  }

  function RecordAck(n: Node, follower: nat, ack: nat): Node
    requires WellFormed(n) && follower < n.totalNodes
  {
    n.(sentLengths := n.sentLengths[follower := ack + 1], ackedLengths := n.ackedLengths[follower := ack])
  }

  /** Moves the cursor of a follower back by one, but never to the snapshot. */
  function BackOff(n: Node, follower: nat): Node
    requires WellFormed(n) && follower < n.totalNodes
  {
    if n.sentLengths[follower] > n.lastIndex + 1 then
      n.(sentLengths := n.sentLengths[follower := n.sentLengths[follower] - 1])
    else n
  }

  /** A reply to a snapshot chunk that carries a later term. */
  function HandleTransferReply(n: Node, term: int): Node {
    if term > n.currentTerm then n.(currentTerm := term, role := Follower, votedFor := NOBODY) else n
  }

  /** The end of a snapshot transfer that began when the snapshot reached `index`. */
  function FinishTransfer(n: Node, follower: nat, index: nat): Node
    requires WellFormed(n) && follower < n.totalNodes
  {
    RecordAck(n, follower, index)
  }

  function HandleLogResponse(n: Node, follower: nat, resp: LogResponse): Node
    requires WellFormed(n) && follower < n.totalNodes
  {
    if resp.term > n.currentTerm then StepDown(n, resp.term)
    else if n.role != Leader || resp.term != n.currentTerm then n
    else if resp.success then CommitLogEntries(RecordAck(n, follower, resp.ack))
    else BackOff(n, follower)
  }
}
