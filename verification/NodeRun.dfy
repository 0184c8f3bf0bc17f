/** One server over any run of its handlers: the indices stay ordered and never move back, no
    handler panics, and the application has applied each committed entry once, in order. */
module NodeRun {
  import opened RaftTypes
  import opened RaftSteps
  import opened AbsoluteLog

  /** One handler invocation. A snapshot chunk carries the log prefix the snapshot was taken of, and
      whether writing the chunk and restoring the file succeed. */
  datatype Op =
    | OnLogRequest(req: LogRequest, snapshotTaken: bool)
    | OnLogResponse(follower: nat, resp: LogResponse)
    | OnVoteRequest(vote: VoteRequest)
    | OnVoteResponse(ballot: VoteResponse)
    | OnSnapshot(chunk: SnapshotRequest, prefix: seq<Entry>, written: bool, restored: bool)
    | OnTransferReply(replyTerm: int)
    | OnTransferEnd(peer: nat, index: nat)
    | OnBroadcast(message: Message)
    | OnTimeout
    | OnQuorumCheck(failures: seq<nat>)

  /** Replies come from servers of the cluster. */
  predicate InCluster(n: Node, op: Op) {
    (op.OnLogResponse? ==> op.follower < n.totalNodes) && (op.OnTransferEnd? ==> op.peer < n.totalNodes)
  }

  function Image(prefix: seq<Entry>, restored: bool): Option<AppState> {
    if restored then Some(Messages(prefix)) else None
  }

  function Step(n: Node, op: Op): Node
    requires WellFormed(n) && InCluster(n, op)
  {
    match op
    case OnLogRequest(req, taken) => HandleLogRequest(n, req, taken).0
    case OnLogResponse(follower, resp) => HandleLogResponse(n, follower, resp)
    case OnVoteRequest(vote) => HandleVoteRequest(n, vote).0
    case OnVoteResponse(ballot) => HandleVoteResponse(n, ballot)
    case OnSnapshot(chunk, prefix, written, restored) =>
      HandleInstallSnapshot(n, chunk, written, Image(prefix, restored)).0
    case OnTransferReply(term) => HandleTransferReply(n, term)
    case OnTransferEnd(peer, index) => FinishTransfer(n, peer, index)
    case OnBroadcast(message) => Propose(n, message)
    case OnTimeout => StartElection(n).0
    case OnQuorumCheck(failures) => CheckQuorumHealth(n, failures)
  }

  /** A log request that would cut entries already committed. */
  predicate CutsCommitted(n: Node, req: LogRequest) {
    Accepts(n, req) && Conflict(n, req.prefixLen, req.suffix) && req.prefixLen < n.commitLength
  }

  /** The chunk announces a snapshot of `prefix`. */
  predicate Announces(chunk: SnapshotRequest, prefix: seq<Entry>) {
    |prefix| == chunk.lastIncludedIndex && chunk.lastIncludedTerm == TermAt(prefix, |prefix|)
  }

  /** The chunk completes a snapshot file, so the log is cut. */
  predicate Installs(n: Node, chunk: SnapshotRequest, written: bool) {
    written && chunk.done && chunk.term >= n.currentTerm
  }

  /** The log `kept` starts with the same messages as the committed part of the server's. */
  predicate KeepsCommitted(n: Node, kept: seq<Entry>) {
    && n.lastIndex <= n.commitLength <= AbsLen(n) && n.commitLength <= n.lastIndex + |kept|
    && Messages(kept[..n.commitLength - n.lastIndex]) == Messages(n.log[..n.commitLength - n.lastIndex])
  }

  /** The committed part of the log still carries the same messages once a snapshot has cut it. */
  predicate CutKeepsCommitted(n: Node, chunk: SnapshotRequest) {
    KeepsCommitted(n, AfterSnapshot(n, chunk.lastIncludedIndex, chunk.lastIncludedTerm))
  }

  /** It does so once a log request has been taken. */
  predicate TakeKeepsCommitted(n: Node, req: LogRequest) {
    Accepts(n, req) ==> KeepsCommitted(n, Appended(n, req.prefixLen, req.suffix))
  }

  /** When completing a snapshot keeps the server in order: a restored one must reach the commit
      length; a failed one must not have cut committed entries. */
  predicate SnapshotAllowed(n: Node, chunk: SnapshotRequest, restored: bool) {
    if restored then n.commitLength <= chunk.lastIncludedIndex
    else CutKeepsCommitted(n, chunk)
  }

  /** What a run must avoid; every condition can be decided before the handler runs. */
  predicate Allowed(n: Node, op: Op) {
    && InCluster(n, op)
    && match op
       case OnLogRequest(req, _) => TakeKeepsCommitted(n, req)
       case OnSnapshot(chunk, prefix, written, restored) =>
         Installs(n, chunk, written) ==> (restored ==> Announces(chunk, prefix)) && SnapshotAllowed(n, chunk, restored)
       case _ => true
  }

  /** The server stands for `full`, has committed a prefix of it and applied exactly that prefix. */
  ghost predicate InOrder(n: Node, full: seq<Entry>) {
    && WellFormed(n) && !n.panicked && Represents(n, full)
    && n.commitLength <= |full|
    && n.applied == Messages(full[..n.commitLength])
    && n.snapshot == Messages(full[..n.lastIndex])
  }

  /** The absolute log once a snapshot file is complete: what the snapshot, or else the old one,
      covers, followed by the entries kept. */
  function AfterInstall(n: Node, full: seq<Entry>, chunk: SnapshotRequest, prefix: seq<Entry>, restored: bool): seq<Entry> {
    (if restored then prefix else if n.lastIndex <= |full| then full[..n.lastIndex] else full) +
    AfterSnapshot(n, chunk.lastIncludedIndex, chunk.lastIncludedTerm)
  }

  /** The absolute log after a step. */
  ghost function NextFull(n: Node, full: seq<Entry>, op: Op): seq<Entry> {
    match op
    case OnLogRequest(req, _) =>
      if Accepts(n, req) then AbsAppend(full, n.lastIndex, req.prefixLen, req.suffix) else full
    case OnSnapshot(chunk, prefix, written, restored) =>
      if Installs(n, chunk, written) then AfterInstall(n, full, chunk, prefix, restored) else full
    case OnBroadcast(message) => if n.role == Leader then full + [Entry(n.currentTerm, message)] else full
    case _ => full
  }

  lemma AdvancedInOrder(n: Node, m: Node, full: seq<Entry>, full': seq<Entry>, commit: nat)
    requires InOrder(n, full) && WellFormed(m) && AgreeBelow(full', full, n.commitLength) && Advanced(n, m, full', commit)
    ensures InOrder(m, full')
  {
    assert full'[..n.commitLength] == full[..n.commitLength];
    assert full'[..n.lastIndex] == full[..n.lastIndex];
    MessagesExtend(full', n.commitLength, commit);
  }

  lemma LogRequestInOrder(n: Node, full: seq<Entry>, req: LogRequest, taken: bool)
    requires InOrder(n, full) && !CutsCommitted(n, req)
    ensures var m := HandleLogRequest(n, req, taken).0;
            && InOrder(m, NextFull(n, full, OnLogRequest(req, taken)))
            && n.lastIndex <= m.lastIndex && n.commitLength <= m.commitLength
  {
    if Accepts(n, req) {
      var seen := Observe(n, req);
      assert InOrder(seen, full);
      AppendEffect(seen, full, req.prefixLen, req.leaderCommit, req.suffix, taken);
      var full' := AbsAppend(full, n.lastIndex, req.prefixLen, req.suffix);
      AdvancedInOrder(seen, AppendEntries(seen, req.prefixLen, req.leaderCommit, req.suffix, taken), full, full',
                      AbsCommit(n.commitLength, |full'|, req.leaderCommit));
    }
  }

  /** Nothing that InOrder speaks of has changed. */
  ghost predicate SameData(n: Node, m: Node) {
    && m.log == n.log && m.lastIndex == n.lastIndex && m.lastTerm == n.lastTerm
    && m.commitLength == n.commitLength && m.applied == n.applied && m.snapshot == n.snapshot
    && m.panicked == n.panicked && WellFormed(m)
  }

  lemma SameDataInOrder(n: Node, m: Node, full: seq<Entry>)
    requires InOrder(n, full) && SameData(n, m)
    ensures InOrder(m, full)
  {
  }

  lemma CommitInOrder(n: Node, full: seq<Entry>)
    requires InOrder(n, full)
    ensures InOrder(CommitLogEntries(n), full) && n.commitLength <= CommitLogEntries(n).commitLength
  {
    var bound := CommitBound(n);
    SliceThroughSnapshot(n, full, n.commitLength, bound);
    MessagesExtend(full, n.commitLength, bound);
  }

  lemma LogResponseInOrder(n: Node, full: seq<Entry>, follower: nat, resp: LogResponse)
    requires InOrder(n, full) && follower < n.totalNodes
    ensures var m := HandleLogResponse(n, follower, resp);
            InOrder(m, full) && n.lastIndex == m.lastIndex && n.commitLength <= m.commitLength
  {
    if n.role == Leader && resp.term == n.currentTerm && resp.success {
      SameDataInOrder(n, RecordAck(n, follower, resp.ack), full);
      CommitInOrder(RecordAck(n, follower, resp.ack), full);
    } else {
      SameDataInOrder(n, HandleLogResponse(n, follower, resp), full);
    }
  }

  lemma RestoredInOrder(n: Node, full: seq<Entry>, chunk: SnapshotRequest, prefix: seq<Entry>)
    requires InOrder(n, full) && Installs(n, chunk, true) && Announces(chunk, prefix)
    requires n.commitLength <= chunk.lastIncludedIndex
    ensures InOrder(HandleInstallSnapshot(n, chunk, true, Image(prefix, true)).0, AfterInstall(n, full, chunk, prefix, true))
  {
    assert AfterInstall(n, full, chunk, prefix, true)[..|prefix|] == prefix;
  }

  /** A snapshot that is restored leaves the server in order, whatever log one takes it to stand
      for, exactly when it reaches the commit length. */
  lemma RestoreInOrderIff(n: Node, full: seq<Entry>, chunk: SnapshotRequest, prefix: seq<Entry>)
    requires InOrder(n, full) && Installs(n, chunk, true) && Announces(chunk, prefix)
    ensures (exists log :: InOrder(HandleInstallSnapshot(n, chunk, true, Image(prefix, true)).0, log))
            <==> n.commitLength <= chunk.lastIncludedIndex
  {
    if n.commitLength <= chunk.lastIncludedIndex {
      RestoredInOrder(n, full, chunk, prefix);
    }
  }

  /** Replacing what follows position `i` by entries with the same first `c` messages. */
  lemma SameMessages(full: seq<Entry>, i: nat, kept: seq<Entry>, c: nat)
    requires i + c <= |full| && c <= |kept| && Messages(kept[..c]) == Messages(full[i..i + c])
    ensures Messages((full[..i] + kept)[..i + c]) == Messages(full[..i + c])
  {
    assert (full[..i] + kept)[..i + c] == full[..i] + kept[..c];
    MessagesOfConcat(full[..i], kept[..c]);
    MessagesExtend(full, i, i + c);
  }

  lemma ReplacedMessages(n: Node, full: seq<Entry>, kept: seq<Entry>)
    requires InOrder(n, full) && n.commitLength <= n.lastIndex + |kept|
    requires Messages(kept[..n.commitLength - n.lastIndex]) == Messages(n.log[..n.commitLength - n.lastIndex])
    ensures Messages((full[..n.lastIndex] + kept)[..n.commitLength]) == n.applied
    ensures (full[..n.lastIndex] + kept)[..n.lastIndex] == full[..n.lastIndex]
  {
    var c := n.commitLength - n.lastIndex;
    SliceThroughSnapshot(n, full, n.lastIndex, n.commitLength);
    assert n.log[..c] == n.log[0..c];
    SameMessages(full, n.lastIndex, kept, c);
  }

  /** The log is replaced by `m.log`, which starts with the same committed messages. */
  lemma LogReplaced(n: Node, full: seq<Entry>, m: Node)
    requires InOrder(n, full) && WellFormed(m) && !m.panicked
    requires m.lastIndex == n.lastIndex && m.lastTerm == n.lastTerm && m.commitLength == n.commitLength
    requires m.applied == n.applied && m.snapshot == n.snapshot && n.commitLength <= AbsLen(m)
    requires Messages(m.log[..n.commitLength - n.lastIndex]) == Messages(n.log[..n.commitLength - n.lastIndex])
    ensures InOrder(m, full[..n.lastIndex] + m.log)
  {
    ReplacedMessages(n, full, m.log);
    StandsFor(m, full[..n.lastIndex]);
  }

  lemma StandsFor(m: Node, head: seq<Entry>)
    requires |head| == m.lastIndex && (m.lastIndex > 0 ==> m.lastTerm == head[m.lastIndex - 1].term)
    ensures Represents(m, head + m.log)
  {
  }

  lemma CutInOrder(n: Node, full: seq<Entry>, chunk: SnapshotRequest, prefix: seq<Entry>)
    requires InOrder(n, full) && Installs(n, chunk, true) && CutKeepsCommitted(n, chunk)
    ensures InOrder(HandleInstallSnapshot(n, chunk, true, None).0, AfterInstall(n, full, chunk, prefix, false))
  {
    LogReplaced(n, full, HandleInstallSnapshot(n, chunk, true, None).0);
  }

  /** The committed messages after the snapshot index are those of the stored log. */
  lemma AppliedFromLog(n: Node, full: seq<Entry>)
    requires InOrder(n, full)
    ensures n.lastIndex <= |n.applied| && n.commitLength <= AbsLen(n)
    ensures n.applied[n.lastIndex..] == Messages(n.log[..n.commitLength - n.lastIndex])
  {
    var c := n.commitLength - n.lastIndex;
    assert full[..n.commitLength] == full[..n.lastIndex] + n.log[..c];
    MessagesOfConcat(full[..n.lastIndex], n.log[..c]);
  }

  /** A complete snapshot that cannot be restored leaves the server in order exactly when the cut
      log still carries the committed messages at their positions. */
  lemma FailedRestoreInOrderIff(n: Node, full: seq<Entry>, chunk: SnapshotRequest)
    requires InOrder(n, full) && Installs(n, chunk, true)
    ensures (exists log :: InOrder(HandleInstallSnapshot(n, chunk, true, None).0, log)) <==> CutKeepsCommitted(n, chunk)
  {
    var m := HandleInstallSnapshot(n, chunk, true, None).0;
    if CutKeepsCommitted(n, chunk) {
      CutInOrder(n, full, chunk, []);
    }
    if log :| InOrder(m, log) {
      AppliedFromLog(n, full);
      AppliedFromLog(m, log);
    }
  }

  lemma SnapshotInOrder(n: Node, full: seq<Entry>, op: Op)
    requires InOrder(n, full) && Allowed(n, op) && op.OnSnapshot?
    ensures InOrder(Step(n, op), NextFull(n, full, op))
    ensures n.lastIndex <= Step(n, op).lastIndex && n.commitLength <= Step(n, op).commitLength
  {
    if Installs(n, op.chunk, op.written) {
      if op.restored {
        RestoredInOrder(n, full, op.chunk, op.prefix);
      } else {
        CutInOrder(n, full, op.chunk, op.prefix);
      }
    } else {
      SameDataInOrder(n, Step(n, op), full);
    }
  }

  lemma BroadcastInOrder(n: Node, full: seq<Entry>, message: Message)
    requires InOrder(n, full)
    ensures InOrder(Propose(n, message), NextFull(n, full, OnBroadcast(message)))
    ensures n.role == Leader ==> Propose(n, message).ackedLengths == n.ackedLengths[n.id := |full| + 1]
  {
    var full' := full + [Entry(n.currentTerm, message)];
    assert full'[..n.commitLength] == full[..n.commitLength];
    assert full'[..n.lastIndex] == full[..n.lastIndex];
  }

  // ---------------------------------------------------------------- requests that cut committed entries

  /** The log after the append, before anything is committed or compacted. */
  function Taken(n: Node, req: LogRequest): Node {
    Observe(n, req).(log := Appended(n, req.prefixLen, req.suffix))
  }

  lemma AppendKeepsBelow(full: seq<Entry>, lastIndex: nat, p: nat, suffix: seq<Entry>)
    requires lastIndex <= |full|
    ensures lastIndex <= |AbsAppend(full, lastIndex, p, suffix)|
    ensures AbsAppend(full, lastIndex, p, suffix)[..lastIndex] == full[..lastIndex]
  {
  }

  lemma HeadAndLog(m: Node, full: seq<Entry>)
    requires Represents(m, full)
    ensures full == full[..m.lastIndex] + m.log && full[m.lastIndex..] == m.log
  {
  }

  lemma TakenStandsFor(n: Node, full: seq<Entry>, req: LogRequest)
    requires InOrder(n, full)
    ensures var full' := AbsAppend(full, n.lastIndex, req.prefixLen, req.suffix);
            && Represents(Taken(n, req), full')
            && n.lastIndex <= |full'| && full'[..n.lastIndex] == full[..n.lastIndex]
            && full' == full[..n.lastIndex] + Taken(n, req).log && full'[n.lastIndex..] == Taken(n, req).log
  {
    var full' := AbsAppend(full, n.lastIndex, req.prefixLen, req.suffix);
    AppendedRepresents(n, full, req.prefixLen, req.suffix);
    AppendKeepsBelow(full, n.lastIndex, req.prefixLen, req.suffix);
    assert Represents(Taken(n, req), full');
    HeadAndLog(Taken(n, req), full');
  }

  /** `m` is the server `n` of log `full` with its stored log replaced, so that it stands for `full'`. */
  ghost predicate Replaced(n: Node, full: seq<Entry>, m: Node, full': seq<Entry>) {
    && InOrder(n, full) && WellFormed(m) && !m.panicked && Represents(m, full')
    && m.lastIndex == n.lastIndex && m.commitLength == n.commitLength
    && m.applied == n.applied && m.snapshot == n.snapshot
    && full'[..n.lastIndex] == full[..n.lastIndex]
  }

  lemma TakenReplaced(n: Node, full: seq<Entry>, req: LogRequest)
    requires InOrder(n, full)
    ensures Replaced(n, full, Taken(n, req), AbsAppend(full, n.lastIndex, req.prefixLen, req.suffix))
  {
    TakenStandsFor(n, full, req);
  }

  lemma AcceptedAppends(n: Node, req: LogRequest, taken: bool)
    requires WellFormed(n) && Accepts(n, req)
    ensures HandleLogRequest(n, req, taken).0
            == AppendEntries(Observe(n, req), req.prefixLen, req.leaderCommit, req.suffix, taken)
  {
  }

  lemma SeenAppended(n: Node, req: LogRequest)
    ensures Observe(n, req).(log := Appended(Observe(n, req), req.prefixLen, req.suffix)) == Taken(n, req)
  {
  }

  lemma TakingIsReplacing(n: Node, req: LogRequest, taken: bool)
    requires WellFormed(n) && Accepts(n, req)
    ensures HandleLogRequest(n, req, taken).0 == Compact(FollowCommit(Taken(n, req), req.leaderCommit), taken)
  {
    AcceptedAppends(n, req, taken);
    SeenAppended(n, req);
  }

  lemma SameTail<T>(a: seq<T>, x: seq<T>, y: seq<T>)
    ensures a + x == a + y <==> x == y
  {
    assert (a + x)[|a|..] == x && (a + y)[|a|..] == y;
  }

  lemma MessagesAfter(full: seq<Entry>, i: nat, c: nat)
    requires i <= c <= |full|
    ensures Messages(full[..c]) == Messages(full[..i]) + Messages(full[i..][..c - i])
  {
    assert full[i..][..c - i] == full[i..c];
    MessagesExtend(full, i, c);
  }

  /** The replaced log starts with the committed messages exactly when they were applied from it. */
  lemma KeepsIffApplied(n: Node, full: seq<Entry>, m: Node, full': seq<Entry>)
    requires Replaced(n, full, m, full')
    ensures KeepsCommitted(n, m.log) <==> n.commitLength <= |full'| && n.applied == Messages(full'[..n.commitLength])
  {
    HeadAndLog(n, full);
    HeadAndLog(m, full');
    if n.commitLength <= |full'| {
      MessagesAfter(full, n.lastIndex, n.commitLength);
      MessagesAfter(full', n.lastIndex, n.commitLength);
      var c := n.commitLength - n.lastIndex;
      SameTail(Messages(full[..n.lastIndex]), Messages(n.log[..c]), Messages(m.log[..c]));
    }
  }

  lemma InOrderAdvances(n: Node, full: seq<Entry>, leaderCommit: nat, taken: bool)
    requires InOrder(n, full)
    ensures var m := Compact(FollowCommit(n, leaderCommit), taken);
            InOrder(m, full) && n.lastIndex <= m.lastIndex && n.commitLength <= m.commitLength
  {
    FollowAndCompact(n, full, leaderCommit, taken);
    AdvancedInOrder(n, Compact(FollowCommit(n, leaderCommit), taken), full, full,
                    AbsCommit(n.commitLength, |full|, leaderCommit));
  }

  /** Committing and compacting only add to what was applied, and do not catch up with a commit length
      beyond the log. */
  lemma AppliedBefore(n: Node, leaderCommit: nat, taken: bool)
    requires n.lastIndex <= n.commitLength && |n.applied| == n.commitLength
    ensures var m := Compact(FollowCommit(n, leaderCommit), taken);
            && (AbsLen(n) < n.commitLength ==> m.commitLength == n.commitLength || |m.applied| != m.commitLength)
            && (AbsLen(n) >= n.commitLength ==> m.commitLength >= n.commitLength && n.applied <= m.applied)
  {
  }

  /** What was applied before is what a log that the server is in order on starts with. */
  lemma AppliedStarts(applied: AppState, full: seq<Entry>, c: nat, m: Node)
    requires InOrder(m, full) && |applied| == c <= m.commitLength && applied <= m.applied
    ensures c <= |full| && applied == Messages(full[..c])
  {
    MessagesExtend(full, c, m.commitLength);
  }

  lemma AdvancesFromApplied(m: Node, full: seq<Entry>, leaderCommit: nat, taken: bool)
    requires Represents(m, full) && m.lastIndex <= m.commitLength && |m.applied| == m.commitLength
    requires InOrder(Compact(FollowCommit(m, leaderCommit), taken), full)
    ensures m.commitLength <= |full| && m.applied == Messages(full[..m.commitLength])
  {
    var d := Compact(FollowCommit(m, leaderCommit), taken);
    AppliedBefore(m, leaderCommit, taken);
    assert |d.applied| == d.commitLength <= |full|;
    AppliedStarts(m.applied, full, m.commitLength, d);
  }

  lemma ReplacedInOrder(n: Node, full: seq<Entry>, m: Node, full': seq<Entry>)
    requires Replaced(n, full, m, full') && n.commitLength <= |full'| && n.applied == Messages(full'[..n.commitLength])
    ensures InOrder(m, full')
  {
  }

  /** Committing and compacting on a replaced log leave the server in order exactly when that log still
      carries the committed messages; then neither index moves back. */
  lemma ReplacedIff(n: Node, full: seq<Entry>, m: Node, full': seq<Entry>, leaderCommit: nat, taken: bool)
    requires Replaced(n, full, m, full')
    ensures var d := Compact(FollowCommit(m, leaderCommit), taken);
            && (InOrder(d, full') <==> KeepsCommitted(n, m.log))
            && (KeepsCommitted(n, m.log) ==> n.lastIndex <= d.lastIndex && n.commitLength <= d.commitLength)
  {
    KeepsIffApplied(n, full, m, full');
    if KeepsCommitted(n, m.log) {
      ReplacedInOrder(n, full, m, full');
      InOrderAdvances(m, full', leaderCommit, taken);
    } else if InOrder(Compact(FollowCommit(m, leaderCommit), taken), full') {
      AdvancesFromApplied(m, full', leaderCommit, taken);
    }
  }

  /** A log request leaves the server in order on the log it then stands for exactly when that log
      still carries the committed messages; then neither index moves back. */
  lemma LogRequestInOrderIff(n: Node, full: seq<Entry>, req: LogRequest, taken: bool)
    requires InOrder(n, full)
    ensures var m := HandleLogRequest(n, req, taken).0;
            && (InOrder(m, NextFull(n, full, OnLogRequest(req, taken))) <==> TakeKeepsCommitted(n, req))
            && (TakeKeepsCommitted(n, req) ==> n.lastIndex <= m.lastIndex && n.commitLength <= m.commitLength)
  {
    if Accepts(n, req) {
      TakenReplaced(n, full, req);
      TakingIsReplacing(n, req, taken);
      ReplacedIff(n, full, Taken(n, req), AbsAppend(full, n.lastIndex, req.prefixLen, req.suffix), req.leaderCommit, taken);
    } else {
      SameDataInOrder(n, HandleLogRequest(n, req, taken).0, full);
    }
  }

  /** Every allowed step keeps the server in order and moves neither index back. */
  lemma StepInOrder(n: Node, full: seq<Entry>, op: Op)
    requires InOrder(n, full) && Allowed(n, op)
    ensures InOrder(Step(n, op), NextFull(n, full, op))
    ensures n.lastIndex <= Step(n, op).lastIndex && n.commitLength <= Step(n, op).commitLength
  {
    match op
    case OnLogRequest(req, taken) => LogRequestInOrderIff(n, full, req, taken);
    case OnLogResponse(follower, resp) => LogResponseInOrder(n, full, follower, resp);
    case OnSnapshot(_, _, _, _) => SnapshotInOrder(n, full, op);
    case OnBroadcast(message) => BroadcastInOrder(n, full, message);
    case _ => OtherStepsKeepData(n, op); SameDataInOrder(n, Step(n, op), full);
  }

  lemma OtherStepsKeepData(n: Node, op: Op)
    requires WellFormed(n)
    requires op.OnVoteRequest? || op.OnVoteResponse? || op.OnTimeout? || op.OnQuorumCheck? || op.OnTransferReply?
             || (op.OnTransferEnd? && InCluster(n, op))
    ensures SameData(n, Step(n, op)) && Step(n, op).id == n.id && Step(n, op).totalNodes == n.totalNodes
  {
  }

  // ---------------------------------------------------------------- terms

  /** The term a message carries. */
  function TermOf(op: Op): Option<int> {
    match op
    case OnLogRequest(req, _) => Some(req.term)
    case OnLogResponse(_, resp) => Some(resp.term)
    case OnVoteRequest(vote) => Some(vote.term)
    case OnVoteResponse(ballot) => Some(ballot.term)
    case OnSnapshot(chunk, _, _, _) => Some(chunk.term)
    case OnTransferReply(term) => Some(term)
    case _ => None
  }

  /** Whether the server has cast a vote in this step, and for whom. */
  predicate VotesIn(n: Node, op: Op, candidate: int) {
    op.OnVoteRequest? && HandleVoteRequest(n, op.vote).1.granted && candidate == op.vote.candidateId
  }

  /** Every handler raises the term to that of its message if it is later, and only a timeout raises
      it otherwise. A message of a later term makes the server a follower; a server still leading or
      campaigning has handled none. */
  lemma StepTerm(n: Node, op: Op)
    requires WellFormed(n) && InCluster(n, op)
    ensures var m := Step(n, op);
            && (TermOf(op).Some? ==>
                  m.currentTerm == if n.currentTerm < TermOf(op).value then TermOf(op).value else n.currentTerm)
            && (TermOf(op).None? ==> m.currentTerm == if op.OnTimeout? then n.currentTerm + 1 else n.currentTerm)
            && (TermOf(op).Some? && n.currentTerm < TermOf(op).value ==> m.role == Follower)
  {
    if op.OnLogRequest? {
      LogRequestTerm(n, op.req, op.snapshotTaken);
    }
  }

  lemma LogRequestTerm(n: Node, req: LogRequest, taken: bool)
    requires WellFormed(n)
    ensures var m := HandleLogRequest(n, req, taken).0;
            && m.currentTerm == (if n.currentTerm < req.term then req.term else n.currentTerm)
            && HandleLogRequest(n, req, taken).1.nodeId == n.id && HandleLogRequest(n, req, taken).1.term == m.currentTerm
            && (if req.term < n.currentTerm then m == n
                else m.role == Follower && m.leaderId == (if req.leaderId == n.id then NOBODY else req.leaderId)
                     && m.votedFor == (if n.currentTerm < req.term then NOBODY else n.votedFor))
  {
  }

  /** A leader or candidate that hears from the leader of its own or a later term follows it; the reply
      carries the server's new term. */
  lemma HearsLeader(n: Node, req: LogRequest, taken: bool)
    requires WellFormed(n) && n.currentTerm <= req.term && req.leaderId != n.id
    ensures var m, resp := HandleLogRequest(n, req, taken).0, HandleLogRequest(n, req, taken).1;
            m.role == Follower && m.leaderId == req.leaderId && m.currentTerm == req.term && resp.term == req.term
  {
    LogRequestTerm(n, req, taken);
  }

  /** A snapshot chunk that is not stale names the leader; unlike a log request, it leaves a candidate or
      leader of the same term as it is, and is answered with the term from before. */
  lemma HearsSnapshot(n: Node, chunk: SnapshotRequest, written: bool, image: Option<AppState>)
    requires WellFormed(n)
    ensures HandleInstallSnapshot(n, chunk, written, image).1 == n.currentTerm
    ensures var m := HandleInstallSnapshot(n, chunk, written, image).0;
            && (chunk.term < n.currentTerm ==> m == n)
            && (chunk.term >= n.currentTerm ==> m.leaderId == chunk.leaderId && m.currentTerm == chunk.term)
            && (chunk.term == n.currentTerm ==> m.role == n.role)
            && (chunk.term > n.currentTerm ==> m.role == Follower)
  {
  }

  /** A message of a later term clears the old vote, unless it is a vote reply or a snapshot chunk: then
      the vote of the old term is carried into the new one. */
  lemma LaterTermClearsVoteIff(n: Node, op: Op)
    requires WellFormed(n) && InCluster(n, op) && TermOf(op).Some? && n.currentTerm < TermOf(op).value
    requires n.votedFor != NOBODY
    ensures var m := Step(n, op);
            && (m.votedFor == NOBODY || VotesIn(n, op, m.votedFor) <==> !op.OnVoteResponse? && !op.OnSnapshot?)
            && (op.OnVoteResponse? || op.OnSnapshot? ==> m.votedFor == n.votedFor)
  {
    if op.OnLogRequest? {
      LogRequestTerm(n, op.req, op.snapshotTaken);
    }
  }

  /** A leader steps down completely when a reply to it carries a later term. */
  lemma LaterReplyDeposes(n: Node, follower: nat, resp: LogResponse)
    requires WellFormed(n) && follower < n.totalNodes && n.currentTerm < resp.term
    ensures HandleLogResponse(n, follower, resp)
            == n.(currentTerm := resp.term, role := Follower, votedFor := NOBODY, leaderId := NOBODY)
  {
  }

  // ---------------------------------------------------------------- runs

  /** Whatever arrives, a handler leaves the server well formed. */
  lemma StepWellFormed(n: Node, op: Op)
    requires WellFormed(n) && InCluster(n, op)
    ensures WellFormed(Step(n, op)) && Step(n, op).id == n.id && Step(n, op).totalNodes == n.totalNodes
  {
    match op
    case OnLogRequest(req, taken) => AppendWellFormed(Observe(n, req), req, taken);
    case OnLogResponse(follower, resp) => ResponseWellFormed(n, follower, resp);
    case OnSnapshot(chunk, prefix, written, restored) => SnapshotWellFormed(n, chunk, written, Image(prefix, restored));
    case OnBroadcast(_) =>
    case _ => OtherStepsKeepData(n, op);
  }

  lemma ResponseWellFormed(n: Node, follower: nat, resp: LogResponse)
    requires WellFormed(n) && follower < n.totalNodes
    ensures var m := HandleLogResponse(n, follower, resp);
            WellFormed(m) && m.id == n.id && m.totalNodes == n.totalNodes
  {
    CommitWellFormed(RecordAck(n, follower, resp.ack));
  }

  lemma SnapshotWellFormed(n: Node, chunk: SnapshotRequest, written: bool, image: Option<AppState>)
    requires WellFormed(n)
    ensures var m := HandleInstallSnapshot(n, chunk, written, image).0;
            WellFormed(m) && m.id == n.id && m.totalNodes == n.totalNodes
  {
  }

  lemma AppendWellFormed(n: Node, req: LogRequest, taken: bool)
    requires WellFormed(n)
    ensures var m := AppendEntries(n, req.prefixLen, req.leaderCommit, req.suffix, taken);
            WellFormed(m) && m.id == n.id && m.totalNodes == n.totalNodes
  {
  }

  lemma CommitWellFormed(n: Node)
    requires WellFormed(n)
    ensures var m := CommitLogEntries(n);
            m == n.(commitLength := m.commitLength, applied := m.applied) && WellFormed(m)
  {
  }

  /** Every handler of the run is allowed when it runs. */
  ghost predicate AllowedRun(n: Node, ops: seq<Op>)
    requires WellFormed(n)
    decreases |ops|
  {
    ops == [] ||
    (Allowed(n, ops[0]) && (StepWellFormed(n, ops[0]); AllowedRun(Step(n, ops[0]), ops[1..])))
  }

  ghost function RunOps(n: Node, ops: seq<Op>): Node
    requires WellFormed(n) && AllowedRun(n, ops)
    decreases |ops|
  {
    if ops == [] then n else StepWellFormed(n, ops[0]); RunOps(Step(n, ops[0]), ops[1..])
  }

  ghost function RunFull(n: Node, full: seq<Entry>, ops: seq<Op>): seq<Entry>
    requires WellFormed(n) && AllowedRun(n, ops)
    decreases |ops|
  {
    if ops == [] then full
    else StepWellFormed(n, ops[0]); RunFull(Step(n, ops[0]), NextFull(n, full, ops[0]), ops[1..])
  }

  /** After any run of handlers in which requests and failed snapshots leave the committed messages and
      restored snapshots reach the commit length: the snapshot index is at most
      the commit length, which is at most the absolute log length; neither has moved back; no handler
      panicked; and the application state is the in-order application of exactly the first
      `commitLength` entries. */
  lemma {:induction false} RunInOrder(n: Node, full: seq<Entry>, ops: seq<Op>)
    requires InOrder(n, full) && AllowedRun(n, ops)
    ensures var m, full' := RunOps(n, ops), RunFull(n, full, ops);
            && InOrder(m, full')
            && m.lastIndex <= m.commitLength <= AbsLen(m)
            && n.lastIndex <= m.lastIndex && n.commitLength <= m.commitLength
    decreases |ops|
  {
    if ops != [] {
      StepInOrder(n, full, ops[0]);
      RunInOrder(Step(n, ops[0]), NextFull(n, full, ops[0]), ops[1..]);
    }
  }

  /** After any run the server has reached the term of every message it handled. */
  lemma {:induction false} RunReachesTerms(n: Node, ops: seq<Op>, i: nat)
    requires WellFormed(n) && AllowedRun(n, ops) && i < |ops|
    ensures n.currentTerm <= RunOps(n, ops).currentTerm
    ensures TermOf(ops[i]).Some? ==> TermOf(ops[i]).value <= RunOps(n, ops).currentTerm
    decreases |ops|
  {
    StepWellFormed(n, ops[0]);
    StepTerm(n, ops[0]);
    if |ops| > 1 {
      RunReachesTerms(Step(n, ops[0]), ops[1..], if i > 0 then i - 1 else 0);
    }
  }
}
