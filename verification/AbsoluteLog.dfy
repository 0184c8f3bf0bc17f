/** The log seen through compaction: position `p`, counted from one, is entry `p - lastIndex - 1`
    of the stored log. Everything here relates handlers to the uncompacted log `full`. */
module AbsoluteLog {
  import opened RaftTypes
  import opened RaftSteps

  /** The stored log and snapshot indices stand for `full`. */
  ghost predicate Represents(n: Node, full: seq<Entry>) {
    && AbsLen(n) == |full|
    && (forall i :: n.lastIndex <= i < |full| ==> full[i] == n.log[i - n.lastIndex])
    && (n.lastIndex > 0 ==> n.lastTerm == full[n.lastIndex - 1].term)
  }

  function TermAt(full: seq<Entry>, p: nat): int
    requires p <= |full|
  {
    if p == 0 then 0 else full[p - 1].term
  }

  /** The logs do not differ anywhere from `p` to `q` where both have entries. */
  ghost predicate AgreeOnOverlap(a: seq<Entry>, b: seq<Entry>, p: nat, q: nat) {
    forall i :: p <= i < q && i < |a| && i < |b| ==> a[i] == b[i]
  }

  ghost predicate AgreeBelow(a: seq<Entry>, b: seq<Entry>, k: nat) {
    k <= |a| && k <= |b| && forall i :: 0 <= i < k ==> a[i] == b[i]
  }

  /** The consistency check passes exactly at the positions from the snapshot index on where the
      absolute log has the asked term, and at position zero. */
  lemma LogOkMeans(n: Node, full: seq<Entry>, p: nat, t: int)
    requires Represents(n, full)
    ensures LogOk(n, p, t) <==>
            if p == 0 then t == 0 else n.lastIndex <= p <= |full| && t == TermAt(full, p)
  {
  }

  lemma LastLogTermMeans(n: Node, full: seq<Entry>)
    requires Represents(n, full)
    ensures LastLogTerm(n) == TermAt(full, |full|)
  {
  }

  // ---------------------------------------------------------------- voting

  /** A vote is granted exactly to a request that is not of an earlier term, whose log ends in a later
      term than the own one or in the same term at no smaller length, and that competes with no vote
      cast for another in the current term; a vote is not held against the recorded leader. */
  lemma VoteGrantedIff(n: Node, full: seq<Entry>, req: VoteRequest)
    requires Represents(n, full)
    ensures HandleVoteRequest(n, req).1.granted <==>
            && n.currentTerm <= req.term
            && (TermAt(full, |full|) < req.logTerm ||
                (TermAt(full, |full|) == req.logTerm && |full| <= req.logLength))
            && (n.currentTerm < req.term || n.leaderId == req.candidateId
                || n.votedFor == NOBODY || n.votedFor == req.candidateId)
  {
  }

  /** The reply carries the voter's new term, and a granted vote binds the voter. A refused request
      that is newer, or comes from the recorded leader, makes the voter a follower without a vote; any
      other changes nothing. */
  lemma VoteBinds(n: Node, req: VoteRequest)
    ensures var m, resp := HandleVoteRequest(n, req).0, HandleVoteRequest(n, req).1;
            && resp.nodeId == n.id && resp.term == m.currentTerm
            && m.currentTerm == (if n.currentTerm < req.term then req.term else n.currentTerm)
            && (resp.granted ==> m.votedFor == req.candidateId && m.role == Follower && m.leaderId == NOBODY)
            && (!resp.granted && (n.currentTerm < req.term || n.leaderId == req.candidateId) ==>
                  && m.votedFor == NOBODY && m.role == Follower
                  && m.leaderId == (if n.leaderId == req.candidateId then NOBODY else n.leaderId))
            && (!resp.granted && req.term <= n.currentTerm && n.leaderId != req.candidateId ==> m == n)
  {
  }

  /** A candidacy announces the end of the candidate's own log, in the next term, with its own vote. */
  lemma CampaignAnnounces(n: Node, full: seq<Entry>)
    requires Represents(n, full)
    ensures StartElection(n).1 == VoteRequest(n.id, n.currentTerm + 1, |full|, TermAt(full, |full|))
    ensures var m := StartElection(n).0;
            && m.role == Candidate && m.currentTerm == n.currentTerm + 1 && m.votedFor == n.id && m.votes == {n.id}
            && m.leaderId == NOBODY
            && Represents(m, full)
  {
  }

  /** Between two servers: the voter grants the candidacy exactly when its log is not fresher than the
      candidate's, once the terms and votes allow it. */
  lemma CandidacyGrantedIff(n: Node, full: seq<Entry>, voter: Node, held: seq<Entry>)
    requires Represents(n, full) && Represents(voter, held) && voter.currentTerm <= n.currentTerm
    ensures HandleVoteRequest(voter, StartElection(n).1).1.granted <==>
            TermAt(held, |held|) < TermAt(full, |full|) ||
            (TermAt(held, |held|) == TermAt(full, |full|) && |held| <= |full|)
  {
    CampaignAnnounces(n, full);
    VoteGrantedIff(voter, held, StartElection(n).1);
  }

  // ---------------------------------------------------------------- appending

  /** What appendEntries does to the absolute log when positions up to `lastIndex` are compacted. */
  function AbsAppend(full: seq<Entry>, lastIndex: nat, p: nat, suffix: seq<Entry>): seq<Entry> {
    (if |suffix| > 0 && lastIndex <= p < |full| && full[p].term != suffix[0].term then full[..p] else full) +
    Fresh(|full|, p, suffix)
  }

  lemma AppendedRepresents(n: Node, full: seq<Entry>, p: nat, suffix: seq<Entry>)
    requires Represents(n, full)
    ensures Represents(n.(log := Appended(n, p, suffix)), AbsAppend(full, n.lastIndex, p, suffix))
    ensures Conflict(n, p, suffix) <==>
            |suffix| > 0 && n.lastIndex <= p < |full| && full[p].term != suffix[0].term
  {
  }

  lemma CompactRepresents(n: Node, full: seq<Entry>, snapshotTaken: bool)
    requires n.lastIndex <= n.commitLength && Represents(n, full)
    ensures n.commitLength <= |full| ==> Compact(n, snapshotTaken).panicked == n.panicked
    ensures Compact(n, snapshotTaken).panicked == n.panicked ==> Represents(Compact(n, snapshotTaken), full)
  {
  }

  /** Short of a panic, the state after appendEntries stands for the log AbsAppend computes. */
  lemma AppendEntriesRepresents(n: Node, full: seq<Entry>, p: nat, leaderCommit: nat, suffix: seq<Entry>, taken: bool)
    requires n.lastIndex <= n.commitLength && Represents(n, full) && !n.panicked
    ensures var m := AppendEntries(n, p, leaderCommit, suffix, taken);
            !m.panicked ==> Represents(m, AbsAppend(full, n.lastIndex, p, suffix))
  {
    AppendedRepresents(n, full, p, suffix);
    var full' := AbsAppend(full, n.lastIndex, p, suffix);
    var followed := FollowCommit(n.(log := Appended(n, p, suffix)), leaderCommit);
    assert Represents(followed, full');
    CompactRepresents(followed, full', taken);
  }

  // ---------------------------------------------------------------- what an acknowledgement means

  /** With agreement below the prefix, appending the leader's entries `p` to `q` makes the logs
      agree below `q` exactly when they already agreed wherever both had entries from `p` on. */
  lemma AppendAgreesIff(full: seq<Entry>, lastIndex: nat, leader: seq<Entry>, p: nat, q: nat)
    requires p <= q <= |leader| && AgreeBelow(full, leader, p)
    ensures AgreeBelow(AbsAppend(full, lastIndex, p, leader[p..q]), leader, q) <==> AgreeOnOverlap(full, leader, p, q)
  {
    var suffix := leader[p..q];
    var full' := AbsAppend(full, lastIndex, p, suffix);
    if AgreeOnOverlap(full, leader, p, q) {
      assert p < q && p < |full| ==> full[p] == leader[p] == suffix[0];
      assert full' == full + Fresh(|full|, p, suffix);
    } else {
      var i :| p <= i < q && i < |full| && full[i] != leader[i];
      if full' == full + Fresh(|full|, p, suffix) {
        assert full'[i] == full[i];
      } else {
        assert |full'| < q;
      }
    }
  }

  lemma AcceptedRepresents(n: Node, full: seq<Entry>, req: LogRequest, taken: bool)
    requires WellFormed(n) && Represents(n, full) && !n.panicked && Accepts(n, req)
    ensures var m, resp := HandleLogRequest(n, req, taken).0, HandleLogRequest(n, req, taken).1;
            && resp.success && resp.ack == req.prefixLen + |req.suffix|
            && (!m.panicked ==> Represents(m, AbsAppend(full, n.lastIndex, req.prefixLen, req.suffix)))
  {
    var seen := Observe(n, req);
    assert Represents(seen, full);
    AppendEntriesRepresents(seen, full, req.prefixLen, req.leaderCommit, req.suffix, taken);
  }

  /** The acknowledgement of an accepted request, on the handler: the follower then agrees with
      the leader below the acknowledged length if and only if it had no differing entry there. */
  lemma AckIsExact(n: Node, full: seq<Entry>, leader: seq<Entry>, req: LogRequest, q: nat, taken: bool)
    requires WellFormed(n) && Represents(n, full) && !n.panicked
    requires req.prefixLen <= q <= |leader| && req.suffix == leader[req.prefixLen..q]
    requires Accepts(n, req) && AgreeBelow(full, leader, req.prefixLen)
    ensures var m, resp := HandleLogRequest(n, req, taken).0, HandleLogRequest(n, req, taken).1;
            var full' := AbsAppend(full, n.lastIndex, req.prefixLen, req.suffix);
            && resp.success && resp.ack == q
            && (!m.panicked ==> Represents(m, full'))
            && (AgreeBelow(full', leader, resp.ack) <==> AgreeOnOverlap(full, leader, req.prefixLen, resp.ack))
  {
    AcceptedRepresents(n, full, req, taken);
    AppendAgreesIff(full, n.lastIndex, leader, req.prefixLen, q);
  }

  /** After a conflict the follower ends up shorter than what it acknowledges, by exactly the
      length of the tail it had beyond the prefix (or by the whole suffix, if that is less). */
  lemma ConflictLosesEntries(full: seq<Entry>, lastIndex: nat, p: nat, suffix: seq<Entry>)
    requires |suffix| > 0 && lastIndex <= p < |full| && full[p].term != suffix[0].term
    ensures |AbsAppend(full, lastIndex, p, suffix)| ==
            p + |suffix| - (if |full| - p <= |suffix| then |full| - p else |suffix|)
  {
  }

  // ---------------------------------------------------------------- what is already committed

  /** The committed prefix survives appendEntries unless the conflict lies below it, and then only
      if the entries that happen to be appended repeat what was cut. */
  lemma CommittedPrefixSurvivesIff(n: Node, full: seq<Entry>, p: nat, suffix: seq<Entry>)
    requires Represents(n, full) && n.commitLength <= |full|
    ensures var full' := AbsAppend(full, n.lastIndex, p, suffix);
            var added := Fresh(|full|, p, suffix);
            AgreeBelow(full', full, n.commitLength) <==>
            (!Conflict(n, p, suffix) || n.commitLength <= p || full[p..n.commitLength] <= added)
  {
    AppendedRepresents(n, full, p, suffix);
    if Conflict(n, p, suffix) {
      CutAgreesIff(full, p, Fresh(|full|, p, suffix), n.commitLength);
    }
  }

  lemma CutAgreesIff(full: seq<Entry>, p: nat, added: seq<Entry>, c: nat)
    requires p < |full| && c <= |full|
    ensures AgreeBelow(full[..p] + added, full, c) <==> c <= p || full[p..c] <= added
  {
    var cut := full[..p] + added;
    if p < c && AgreeBelow(cut, full, c) {
      forall i | 0 <= i < c - p
        ensures full[p..c][i] == added[i]
      {
        assert cut[p + i] == full[p + i];
      }
    }
    if p < c && full[p..c] <= added {
      forall i | p <= i < c
        ensures cut[i] == full[i]
      {
        assert full[p..c][i - p] == added[i - p];
      }
    }
  }

  /** A snapshot of the first `k` positions leaves the server standing for its whole log only if
      it reaches the end: the branch that keeps a suffix drops one entry too many. */
  lemma SnapshotKeepsLogIff(n: Node, full: seq<Entry>, req: SnapshotRequest)
    requires WellFormed(n) && Represents(n, full) && req.done && n.currentTerm <= req.term
    requires n.lastIndex <= req.lastIncludedIndex <= |full|
    requires req.lastIncludedTerm == TermAt(full, req.lastIncludedIndex)
    ensures var image := Messages(full[..req.lastIncludedIndex]);
            Represents(HandleInstallSnapshot(n, req, true, Some(image)).0, full) <==> req.lastIncludedIndex == |full|
  {
  }

  /** What is kept when a snapshot of the first `k` positions arrives: everything after position
      `k + 1`, provided that position has the announced term; otherwise nothing. */
  lemma SuffixKept(n: Node, full: seq<Entry>, k: nat, term: int)
    requires Represents(n, full)
    ensures AfterSnapshot(n, k, term)
            == if n.lastIndex <= k < |full| && full[k].term == term then full[k + 1..] else []
  {
  }

  lemma InstallSets(n: Node, req: SnapshotRequest, state: AppState)
    requires WellFormed(n) && req.done && n.currentTerm <= req.term
    ensures var m := HandleInstallSnapshot(n, req, true, Some(state)).0;
            && m.log == AfterSnapshot(n, req.lastIncludedIndex, req.lastIncludedTerm)
            && m.lastIndex == req.lastIncludedIndex && m.lastTerm == req.lastIncludedTerm
            && m.applied == state && m.snapshot == state
            && m.commitLength == (if n.commitLength < req.lastIncludedIndex then req.lastIncludedIndex else n.commitLength)
  {
  }

  lemma PrefixAndLog(m: Node, prefix: seq<Entry>)
    requires m.lastIndex == |prefix| && m.lastTerm == TermAt(prefix, |prefix|)
    ensures Represents(m, prefix + m.log)
  {
  }

  /** A restored snapshot of `prefix` leaves the server with the prefix and what is kept. */
  lemma RestoredStandsFor(n: Node, full: seq<Entry>, req: SnapshotRequest, prefix: seq<Entry>)
    requires WellFormed(n) && Represents(n, full) && req.done && n.currentTerm <= req.term
    requires req.lastIncludedIndex == |prefix| && req.lastIncludedTerm == TermAt(prefix, |prefix|)
    ensures var k := |prefix|;
            var kept := if n.lastIndex <= k < |full| && full[k].term == TermAt(prefix, k) then full[k + 1..] else [];
            Represents(HandleInstallSnapshot(n, req, true, Some(Messages(prefix))).0, prefix + kept)
  {
    SuffixKept(n, full, |prefix|, req.lastIncludedTerm);
    InstallSets(n, req, Messages(prefix));
    PrefixAndLog(HandleInstallSnapshot(n, req, true, Some(Messages(prefix))).0, prefix);
  }

  /** Compaction happens exactly when a snapshot can be taken, the stored log has reached the threshold
      and something stored is committed; it then keeps what is not committed. */
  lemma CompactsIff(n: Node, full: seq<Entry>, taken: bool)
    requires n.lastIndex <= n.commitLength <= |full| && Represents(n, full)
    ensures var m := Compact(n, taken);
            if taken && |full| - n.lastIndex >= n.threshold && n.lastIndex < n.commitLength then
              && m.lastIndex == n.commitLength && m.lastTerm == TermAt(full, n.commitLength)
              && m.log == full[n.commitLength..] && m.snapshot == n.applied
            else m == n
  {
    if taken && |n.log| >= n.threshold && n.lastIndex < n.commitLength {
      var m := Compact(n, taken);
      assert m.log == n.log[n.commitLength - n.lastIndex..];
    }
  }

  /** Compaction panics exactly when it goes ahead with a commit length beyond the log. */
  lemma CompactPanicsIff(n: Node, taken: bool)
    requires n.lastIndex <= n.commitLength && !n.panicked
    ensures Compact(n, taken).panicked <==>
            taken && |n.log| >= n.threshold && AbsLen(n) < n.commitLength
  {
  }

  // ---------------------------------------------------------------- one accepted request

  /** Messages read through the stored log are those of the absolute log. */
  lemma SliceThroughSnapshot(n: Node, full: seq<Entry>, from: nat, to: nat)
    requires Represents(n, full) && n.lastIndex <= from <= to <= |full|
    ensures MessagesBetween(n.log, n.lastIndex, from, to) == Messages(full[from..to])
  {
    assert n.log[from - n.lastIndex..to - n.lastIndex] == full[from..to];
  }

  /** The commit length of a follower whose log has `length` positions. */
  function AbsCommit(commit: nat, length: nat, leaderCommit: nat): nat {
    if leaderCommit <= commit then commit else if leaderCommit > length then length else leaderCommit
  }

  /** Everything but the log, the snapshot and the commit is as before. */
  ghost predicate SameBut(n: Node, m: Node, commit: nat, applied: AppState) {
    m == n.(log := m.log, lastIndex := m.lastIndex, lastTerm := m.lastTerm, snapshot := m.snapshot,
            commitLength := commit, applied := applied)
  }

  lemma FollowEffect(n: Node, full: seq<Entry>, leaderCommit: nat)
    requires n.lastIndex <= n.commitLength <= |full| && Represents(n, full)
    ensures var m := FollowCommit(n, leaderCommit);
            var commit := AbsCommit(n.commitLength, |full|, leaderCommit);
            && n.commitLength <= commit <= |full|
            && m == n.(commitLength := commit, applied := n.applied + Messages(full[n.commitLength..commit]))
  {
    if leaderCommit > n.commitLength {
      SliceThroughSnapshot(n, full, n.commitLength, AbsCommit(n.commitLength, |full|, leaderCommit));
    }
  }

  lemma CompactEffect(n: Node, full: seq<Entry>, taken: bool)
    requires n.lastIndex <= n.commitLength <= |full| && Represents(n, full) && !n.panicked
    ensures var m := Compact(n, taken);
            && SameBut(n, m, n.commitLength, n.applied) && Represents(m, full)
            && n.lastIndex <= m.lastIndex <= m.commitLength
            && m.snapshot == (if m.lastIndex == n.lastIndex then n.snapshot else n.applied)
            && (m.lastIndex == n.lastIndex || m.lastIndex == m.commitLength)
  {
    CompactRepresents(n, full, taken);
  }

  /** `m` follows from `n` by replacing the log by `full'`, committing up to `commit` and
      applying exactly the newly committed messages; compaction may have happened. */
  ghost predicate Advanced(n: Node, m: Node, full': seq<Entry>, commit: nat) {
    && n.commitLength <= commit <= |full'|
    && SameBut(n, m, commit, n.applied + Messages(full'[n.commitLength..commit]))
    && Represents(m, full') && n.lastIndex <= m.lastIndex <= m.commitLength
    && m.snapshot == (if m.lastIndex == n.lastIndex then n.snapshot else m.applied)
    && (m.lastIndex == n.lastIndex || m.lastIndex == m.commitLength)
  }

  lemma FollowAndCompact(n: Node, full: seq<Entry>, leaderCommit: nat, taken: bool)
    requires n.lastIndex <= n.commitLength <= |full| && Represents(n, full) && !n.panicked
    ensures Advanced(n, Compact(FollowCommit(n, leaderCommit), taken), full,
                     AbsCommit(n.commitLength, |full|, leaderCommit))
  {
    FollowEffect(n, full, leaderCommit);
    CompactEffect(FollowCommit(n, leaderCommit), full, taken);
  }

  /** What appendEntries does when it does not cut below the commit length. */
  lemma AppendEffect(n: Node, full: seq<Entry>, p: nat, leaderCommit: nat, suffix: seq<Entry>, taken: bool)
    requires n.lastIndex <= n.commitLength <= |full| && Represents(n, full) && !n.panicked
    requires Conflict(n, p, suffix) ==> n.commitLength <= p
    ensures var full' := AbsAppend(full, n.lastIndex, p, suffix);
            && AgreeBelow(full', full, n.commitLength)
            && Advanced(n, AppendEntries(n, p, leaderCommit, suffix, taken), full',
                        AbsCommit(n.commitLength, |full'|, leaderCommit))
  {
    AppendedRepresents(n, full, p, suffix);
    var full' := AbsAppend(full, n.lastIndex, p, suffix);
    var n1 := n.(log := Appended(n, p, suffix));
    FollowAndCompact(n1, full', leaderCommit, taken);
  }

  // ---------------------------------------------------------------- compaction is invisible

  /** Two servers that differ only in how much of the same log they have compacted. */
  ghost predicate Twins(n: Node, m: Node, full: seq<Entry>) {
    && WellFormed(n) && WellFormed(m) && !n.panicked && !m.panicked
    && Represents(n, full) && Represents(m, full)
    && n.commitLength <= |full|
    && Alike(n, m)
  }

  ghost predicate Alike(n: Node, m: Node) {
    n == m.(log := n.log, lastIndex := n.lastIndex, lastTerm := n.lastTerm, snapshot := n.snapshot,
            threshold := n.threshold)
  }

  lemma AlikeAfter(n: Node, m: Node, n': Node, m': Node, commit: nat, applied: AppState)
    requires Alike(n, m) && SameBut(n, n', commit, applied) && SameBut(m, m', commit, applied)
    ensures Alike(n', m')
  {
  }

  /** Compaction keeps the absolute length and every retained position, and writes the
      application state of the whole compacted prefix. */
  lemma CompactionMakesTwins(n: Node, full: seq<Entry>, taken: bool)
    requires WellFormed(n) && !n.panicked && Represents(n, full) && n.commitLength <= |full|
    requires n.applied == Messages(full[..n.commitLength])
    ensures var m := Compact(n, taken);
            && Twins(n, m, full) && AbsLen(m) == AbsLen(n)
            && (m.lastIndex != n.lastIndex ==> m.snapshot == Messages(full[..m.lastIndex]))
  {
    CompactRepresents(n, full, taken);
  }

  /** Twins answer every vote request alike and stay twins. */
  lemma TwinsVoteAlike(n: Node, m: Node, full: seq<Entry>, req: VoteRequest)
    requires Twins(n, m, full)
    ensures HandleVoteRequest(n, req).1 == HandleVoteRequest(m, req).1
    ensures Twins(HandleVoteRequest(n, req).0, HandleVoteRequest(m, req).0, full)
  {
    LastLogTermMeans(n, full);
    LastLogTermMeans(m, full);
  }

  /** Twins start elections alike: the candidacy they announce is the same. */
  lemma TwinsCampaignAlike(n: Node, m: Node, full: seq<Entry>)
    requires Twins(n, m, full)
    ensures StartElection(n).1 == StartElection(m).1
    ensures Twins(StartElection(n).0, StartElection(m).0, full)
  {
    LastLogTermMeans(n, full);
    LastLogTermMeans(m, full);
  }

  /** Twins treat every log request whose prefix reaches both snapshots alike: the same answer,
      the same absolute log, the same commit length and the same application state. */
  lemma TwinsReplicateAlike(n: Node, m: Node, full: seq<Entry>, req: LogRequest, takenN: bool, takenM: bool)
    requires Twins(n, m, full)
    requires req.prefixLen >= n.lastIndex && req.prefixLen >= m.lastIndex
    requires Accepts(n, req) && Conflict(n, req.prefixLen, req.suffix) ==> n.commitLength <= req.prefixLen
    ensures HandleLogRequest(n, req, takenN).1 == HandleLogRequest(m, req, takenM).1
    ensures var full' := if Accepts(n, req) then AbsAppend(full, n.lastIndex, req.prefixLen, req.suffix) else full;
            Twins(HandleLogRequest(n, req, takenN).0, HandleLogRequest(m, req, takenM).0, full')
  {
    LogOkMeans(n, full, req.prefixLen, req.prefixTerm);
    LogOkMeans(m, full, req.prefixLen, req.prefixTerm);
    TwinsObserveAlike(n, m, full, req);
    if Accepts(n, req) {
      assert Accepts(m, req);
      TwinsAppendAlike(Observe(n, req), Observe(m, req), full, req.prefixLen, req.leaderCommit, req.suffix, takenN, takenM);
    }
  }

  lemma TwinsObserveAlike(n: Node, m: Node, full: seq<Entry>, req: LogRequest)
    requires Twins(n, m, full)
    ensures Twins(Observe(n, req), Observe(m, req), full)
  {
  }

  lemma TwinsAppendAlike(n: Node, m: Node, full: seq<Entry>, p: nat, leaderCommit: nat, suffix: seq<Entry>,
                         takenN: bool, takenM: bool)
    requires Twins(n, m, full) && p >= n.lastIndex && p >= m.lastIndex
    requires Conflict(n, p, suffix) ==> n.commitLength <= p
    ensures Twins(AppendEntries(n, p, leaderCommit, suffix, takenN), AppendEntries(m, p, leaderCommit, suffix, takenM),
                  AbsAppend(full, n.lastIndex, p, suffix))
  {
    AppendedRepresents(n, full, p, suffix);
    AppendedRepresents(m, full, p, suffix);
    AppendEffect(n, full, p, leaderCommit, suffix, takenN);
    AppendEffect(m, full, p, leaderCommit, suffix, takenM);
    var full' := AbsAppend(full, n.lastIndex, p, suffix);
    var commit := AbsCommit(n.commitLength, |full'|, leaderCommit);
    AlikeAfter(n, m, AppendEntries(n, p, leaderCommit, suffix, takenN), AppendEntries(m, p, leaderCommit, suffix, takenM),
               commit, n.applied + Messages(full'[n.commitLength..commit]));
  }
}
