# Verification of the distributed cache

A Dafny model of three parts of the system, and proofs about it:

- **Consensus** (`pkg/raft`). One server is a value with the fields of the Go struct; its log is addressed
  by absolute position over a compacted prefix. `RaftSteps` gives every handler as a function from the old
  state to the new one, `RaftServer` is the mutable server whose methods, loops included, are proved to
  compute those functions, and the other modules prove what runs of the handlers keep.
- **Topology** (`pkg/metadata`, `pkg/controller`). The shard map, failover, registration, the top-up of
  primaries and replicas, and moving a shard.
- **Data plane** (`pkg/datanode`, `pkg/cache`). Primary-backup writes under failover, shard export and
  import, the sharded cache, and lease renewal against the liveness check.

| file | contents |
|---|---|
| `RaftTypes`, `RaftSteps`, `RaftServer` | the server: values, handlers as functions, the imperative handlers |
| `Quorum`, `AbsoluteLog` | majorities and the commit bound; the log seen through compaction |
| `NodeRun`, `Reign`, `Election` | one server over any run; one leader's reign; elections |
| `Outcomes` | when votes make a leader, a reply commits, a leader gives up; what is sent; a snapshot transfer |
| `Probe`, `CatchUp` | finding where two logs agree; what repeated probing makes of a follower |
| `Acks` | when the acknowledgements recorded in a reign are true |
| `Counterexamples`, `DivergedReign` | runs in which a promise fails once a hypothesis is dropped |
| `SnapshotTransfer` | the chunked snapshot file |
| `Topology`, `Controller`, `ControlPlane` | failover; the top-up; the controller object and its runs |
| `DataPlane`, `DataRun` | one write request; runs of writes and deaths |
| `Handover`, `Fencing` | what joins and locks mean for the nodes; the lease against writes that take time |
| `MapCache`, `ShardedCache`, `Lease` | export, import and moving; masks and refinement; the timed lease |
| `Arithmetic`, `Iteration` | quotients and remainders; repeating a step |

## What is assumed

- Each Raft handler is one atomic step. The code gives up its lock inside three of them
  (`pkg/raft/grpc.go:206-208`, `pkg/raft/raft.go:325-331`, `pkg/raft/raft.go:149-176`).
- A reign starts with nothing in flight: its leader has just set its cursors, and no request of an earlier leader
  reaches a lagging follower during it.
- The controller gives up its lock inside two operations. A top-up reads under it and writes under it later
  (`pkg/controller/controller.go:232-241`, `pkg/controller/controller.go:276-337`); what it wrote is then broadcast
  and replaces the configuration once more when it is applied (`pkg/controller/controller.go:339`,
  `pkg/controller/controller.go:150-155`), as a snapshot of an earlier configuration does when it is restored. A
  move checks, locks the shard and completes in three sections with a data copy between them
  (`pkg/controller/controller.go:45-57`, `pkg/controller/controller.go:70-78`). Each section is a step of its own,
  and anything may come between.
- Messages between Raft servers may be lost, duplicated and reordered. Servers do not restart.
- The replicated application is any deterministic machine; the sequence of messages applied so far stands
  for its state. A Go panic sets the field `panicked`.
- The iteration order of a Go map is a parameter (`order`), so every statement holds for every order.
- Key hashes are an arbitrary function, clocks and network outcomes are parameters.

## Where the code does less than it promises

For each of these the code is modelled as it is, with the condition under which the promise holds: exact where
the member is an if-and-only-if, and a hypothesis with a failing run beside it for elections and reigns.

- A vote of the current term is forgotten by a request that is not newer and comes from the recorded leader,
  and by a leader that loses its quorum. Either gives two leaders in one term
  (`Counterexamples.StaleRequestGivesTwoLeaders`, `Counterexamples.QuorumLossGivesTwoLeaders`); without them
  there is one (`Election.ElectionSafety`).
- `appendEntries` looks at the first entry of the suffix only and keeps using the length from before the cut.
  An acknowledgement is therefore true exactly when no overlapping entry differed (`AbsoluteLog.AckIsExact`),
  and a leader can commit what only it holds (`DivergedReign.DivergedFollowerBreaksReign`). Over whole reigns no
  false acknowledgement is ever recorded exactly when each follower's log is a prefix of the leader's or matches
  it nowhere the leader can reach (`Acks.AcksTrueIff`). Later probing repairs a conflicting follower exactly when its log is at least as long as the leader's, or the leader's tail happens to
  repeat; a shorter one that conflicts never holds the leader's log (`CatchUp.CatchUpIff`,
  `CatchUp.ShorterFollowerNeverLevels`).
- A cursor that lags behind the leader's end and is accepted at once can hide a conflict behind an entry that
  agrees (`CatchUp.FirstRequestHidesConflict`), and so can a stop at zero below the follower's snapshot
  (`CatchUp.CompactionHidesConflict`); otherwise none is hidden (`Probe.ConflictShowsFirst`).
- A request that conflicts below the commit length is taken. The server stays in order exactly when the log it is
  left with still carries the committed messages (`NodeRun.LogRequestInOrderIff`); otherwise it can panic or move
  its commit length back (`Counterexamples.CutBelowCommitBreaksServer`).
- The branch of `InstallSnapshot` that keeps a suffix drops one entry too many
  (`AbsoluteLog.SnapshotKeepsLogIff`). A snapshot that cannot be restored has already cut the log, and the server
  stays in order exactly when no committed message went with it (`NodeRun.FailedRestoreInOrderIff`); otherwise it
  can panic or move its commit length back (`Counterexamples.FailedRestoreBreaksServer`).
- Probing never reaches a follower behind the leader's snapshot (`Probe.ProbeEndsIff`). A snapshot transfer and one
  more request make it level, unless it kept some of its own log, which is then one position early
  (`Outcomes.TransferLevelsIff`).
- A vote reply or a snapshot chunk of a later term carries the old vote into the new term
  (`NodeRun.LaterTermClearsVoteIff`).
- A server alone in its cluster never leads: its own vote is counted only when some reply comes
  (`Outcomes.CampaignWonIff`).
- The chunk offset is a 32-bit field, so a snapshot whose last chunk starts at 2^31 or later cannot be sent
  (`SnapshotTransfer.SnapshotRoundTripIff`).
- Moving a shard to one of its own replicas, or to a node that is dead by the time the move completes, breaks the
  topology (`ControlPlane.MoveSoundIff`, `ControlPlane.DeathDuringMoveBreaks`), and a moved shard can keep deleted
  keys (`MapCache.MoveCopiesIff`).
- A top-up gives out nodes it read as active earlier. The topology stays sound in every iteration order exactly
  when all of them still are when it writes, or no shard lacks anything by then (`ControlPlane.TopUpSoundIff`,
  `ControlPlane.DeathDuringTopUpBreaks`).
- Failover rebuilds every shard without its status, so the death of any node ends the lock that a move holds on any
  shard, and its primary takes writes again (`Handover.LockRefusesIff`). A node that was reported dead stays dead,
  however often it registers again (`Handover.JoinedActiveIff`).
- A configuration that is applied late replaces whatever has happened since it was written. The epoch does not fall
  and no death is undone exactly when nothing has (`ControlPlane.LateApplyIff`, `ControlPlane.LateApplyRevives`);
  the topology stays sound all the same (`ControlPlane.RunKeepsSound`).
- A replica without an address is skipped silently (`DataRun.FailoverKeepsAcknowledgedWritesIff`), and a node
  that never fetched a topology acknowledges writes alone (`DataRun.UnconfiguredNodeAcksAlone`).
- The comment in `cmd/controller/main.go` makes the grace period match the lease; fencing needs two client
  timeouts more (`Lease.FencingIff`, `Lease.DefaultsDoNotFence`, `Fencing.RefusedIff`). A write looks at the lease
  only when it begins, so that none is acknowledged after the report takes five seconds more for each replica
  (`Fencing.AckedInTimeIff`).

## Model

| member | source | states |
|---|---|---|
| Reign.ReignIsSafe | pkg/raft/raft.go:172-332 | in every run of one leader's term, with messages lost, duplicated or reordered and followers compacting at any point: no server panics, every log is a prefix of the leader's, every recorded ack is at most that follower's length, every position the leader commits in the reign, and every position any server commits beyond what all had at its start, is held by a majority, any two applied sequences are prefixes of one another, and no snapshot is sent |
| Reign.StepKeeps | pkg/raft/replicator.go:73-162 | each proposal, request, reply, vote, quorum check and timeout of a lagging follower keeps the invariant of the reign |
| Reign.ReignSendsWholeTail | pkg/raft/replicator.go:164-233 | throughout a leader's term, whatever the followers' logs hold, every cursor lies above the snapshot index and at most one past the log, so a request carries the whole tail and never announces a commit beyond it |
| Reign.SendsWholeTail | pkg/raft/replicator.go:164-233 | with the cursors inside the leader's log the prepared request is a true piece of that log up to its end, starting at the cursor |
| Reign.StepInside | pkg/raft/replicator.go:133-162 | every step keeps the cursors, requests and acks between the leader's snapshot and its end, for arbitrary follower logs |
| Reign.ElectionStartsReign | pkg/raft/utils.go:84-113 | a candidate that wins while the other logs are prefixes of its own starts a reign |
| Reign.FollowerTakes | pkg/raft/grpc.go:183-219 | a follower that takes a request of the reign still holds a prefix of the leader's log, no shorter than before and as long as what it acknowledges |
| Acks.AcksTrueIff | pkg/raft/replicator.go:109-160 | from the start of a reign with followers of any logs, the acknowledgements recorded in every run are true if and only if each follower's log is a prefix of the leader's or matches it nowhere from the leader's snapshot on where the follower can tell |
| Acks.UncompactedAcksTrueIff | pkg/raft/replicator.go:143-160 | for a leader that has compacted nothing, exactly when every follower holds a prefix |
| Acks.StepTruthful | pkg/raft/grpc.go:183-219 | every step keeps each follower on a prefix that covers what it acknowledged, or rejecting every request and acknowledging nothing |
| Acks.RunStands | pkg/raft/raft.go:227-278 | over every run a follower that has not panicked stands for the log these statements speak of |
| DivergedReign.DivergedFollowerBreaksReign | pkg/raft/raft.go:234-252 | with a follower that is not a prefix, some run commits a position that only the leader holds |
| Election.ElectionSafety | pkg/raft/election.go:92-106 | in every run in which no server forgets a vote of its current term, no term ever has two leaders, although some handlers raise the term without clearing the vote |
| Election.VoteRestriction | pkg/raft/grpc.go:259-265 | in those runs the one candidacy of a winner in its term announced the log that the winner's own ballot records, and every majority contains a voter of the winner whose log, when it voted, ended in an earlier term or in the same term at no greater length |
| Election.RunAnnounces | pkg/raft/election.go:97-106 | in every run, votes forgotten or not, each candidacy announces the log recorded in the candidate's ballot for itself |
| Election.BallotRecordsLog | pkg/raft/grpc.go:251-262 | what a ballot records is the last term and the length of the voter's absolute log |
| Election.EventKeeps | pkg/raft/raft.go:98-116 | timeouts, vote requests, vote replies and every other handler keep the election invariant unless a vote is forgotten |
| Election.OtherIsQuiet | pkg/raft/grpc.go:304-310 | log requests, log replies, snapshots and broadcasts never lower a term, drop a vote of the current term or make a candidate or leader |
| Election.VoteRequestLosesVoteIff | pkg/raft/grpc.go:244-261 | a vote request makes a server forget its vote of the current term exactly when it is not newer, comes from the recorded leader, and is not answered by the same vote again |
| Election.QuorumCheckLosesVoteIff | pkg/raft/utils.go:132-173 | the quorum check drops the vote of the current term exactly when a leader that voted has too few healthy followers |
| Counterexamples.StaleRequestGivesTwoLeaders | pkg/raft/grpc.go:244-249 | a delayed request from the leader leads a new cluster of three to two leaders in one term |
| Counterexamples.QuorumLossGivesTwoLeaders | pkg/raft/utils.go:163-168 | so does a leader that steps down within its term |
| Counterexamples.CutBelowCommitBreaksServer | pkg/raft/raft.go:234-278 | a follower in order with three entries committed takes a request of a later term that conflicts at the first; it panics if it compacts, and otherwise its commit length falls from three to none |
| Counterexamples.FailedRestoreBreaksServer | pkg/raft/grpc.go:332-342 | a server in order whose last snapshot chunk cannot be restored has three entries committed and none stored; its next request panics or moves the commit length from three back to one |
| Outcomes.CampaignWonIff | pkg/raft/raft.go:98-116 | a campaign, with votes counted any number of times, is won exactly when more than half of the cluster supports the candidate and some reply has come |
| Outcomes.VoteWinsIff | pkg/raft/raft.go:107-114 | one reply makes a leader exactly of a candidate that counts it as a granted vote of its term and then has more than half; the leader then knows itself as leader and has its cursors past its log and acks at zero |
| Outcomes.CommittedIff | pkg/raft/raft.go:303-332 | the commit loop commits exactly the positions of the log that the leader and the peers known to hold them, more than half of the cluster, have |
| Outcomes.ReplyCommitsIff | pkg/raft/replicator.go:143-152 | a positive reply of the term sets ack and cursor and commits exactly what more than half then holds; what is applied is the committed prefix |
| Outcomes.RejectionBacksOff | pkg/raft/replicator.go:153-160 | a negative one moves the cursor back by one, not to the snapshot, and changes nothing else |
| Outcomes.StepsDownIff | pkg/raft/utils.go:132-173 | a leader steps down, in its term and without its vote, exactly when it and the followers with fewer than five failures in a row are at most half of the cluster |
| Outcomes.PreparedIs | pkg/raft/replicator.go:164-233 | for every cursor: the tail from it as an absolute log, a transfer at or below the snapshot, and the empty request with it or beyond the log |
| Outcomes.ResumesAfterSnapshot | pkg/raft/raft.go:414-416 | after a finished transfer the leader sends exactly what follows the snapshot |
| Outcomes.TransferLevelsIff | pkg/raft/grpc.go:294-354 | after a restored snapshot the next request is accepted and acknowledges the whole log, and the follower then holds it exactly when what it kept of its own log agrees one position early, in particular when its log was no longer than the snapshot |
| Quorum.Majority | pkg/raft/raft.go:110-112 | the threshold is the least number above half, as two majorities need |
| Quorum.QuorumsIntersect | pkg/raft/raft.go:107-114 | any two sets of at least majority size share a server |
| Quorum.KthLargestCounts | pkg/raft/raft.go:307-323 | at least k values exceed c exactly when the k-th largest does |
| Quorum.EnoughBelowBound | pkg/raft/raft.go:307-323 | the test of the commit loop passes exactly below the closed form, the (majority - 1)-th largest peer ack capped by the log length |
| RaftServer.Raft.CommitAcknowledged | pkg/raft/raft.go:303-332 | the commit loop ends at the greater of the old commit length and that closed form, and applies exactly the messages in between, in order |
| RaftServer.Raft.AdvanceCommit | pkg/raft/raft.go:307-323 | the loop that raises the commit length stops at the bound and collects the messages it passes |
| RaftServer.Raft.CountAcks | pkg/raft/raft.go:308-316 | the inner loop counts the leader and the peers whose ack exceeds the commit length |
| RaftServer.Raft.AppendSuffix | pkg/raft/raft.go:234-254 | the log after the conflict test and the append |
| RaftServer.Raft.AppendEntriesToLog | pkg/raft/raft.go:227-278 | append, follow the leader's commit, compact: the new state is the specified one |
| RaftServer.Raft.DeliverUpTo | pkg/raft/raft.go:264-271 | delivers the messages from the old commit length to the target, in order |
| RaftServer.Raft.ReceiveLogRequest | pkg/raft/grpc.go:145-233 | new state and reply of a log request |
| RaftServer.Raft.CheckPrefix | pkg/raft/grpc.go:183-199 | the consistency check at an absolute position |
| RaftServer.Raft.ReceiveVoteRequest | pkg/raft/grpc.go:235-287 | new state and reply of a vote request |
| RaftServer.Raft.ReceiveSnapshot | pkg/raft/grpc.go:294-354 | new state and reply of a snapshot chunk, including a failed write, the suffix branch and a failed restore |
| RaftServer.Raft.ReceiveTransferReply | pkg/raft/raft.go:395-405 | a later term in a reply to a chunk ends the leadership and clears the vote |
| RaftServer.Raft.EndTransfer | pkg/raft/raft.go:414-416 | a finished transfer sets the follower's cursor and ack to the snapshot that was sent |
| RaftServer.Raft.StartElectionRound | pkg/raft/election.go:92-106 | the candidate's new state and the vote data it sends |
| RaftServer.Raft.ReceiveVote | pkg/raft/raft.go:98-116 | counting a vote, and leading at a majority |
| RaftServer.Raft.TakeLeadership | pkg/raft/utils.go:84-113 | the loop that resets every peer's cursor and ack |
| RaftServer.Raft.BecomeFollower | pkg/raft/utils.go:59-75 | stepping down to a term |
| RaftServer.Raft.CheckQuorum | pkg/raft/utils.go:132-173 | counting healthy followers and stepping down without a quorum |
| RaftServer.Raft.Broadcast | pkg/raft/raft.go:172-177 | a leader appends the message in its term and acknowledges it to itself; other servers change nothing |
| RaftServer.Raft.PrepareLogRequestArgs | pkg/raft/replicator.go:164-233 | the request for a follower, the empty fallbacks included, and whether a snapshot transfer is started as well |
| RaftServer.Raft.ReceiveLogResponse | pkg/raft/replicator.go:133-162 | stepping down, recording an ack and committing, or moving the cursor back to no less than the floor |
| RaftServer.Raft.DecideRunSnapshot | pkg/raft/snapshot.go:56-87 | compaction of the committed prefix, with its panic |
| RaftServer.Raft.GetLastLogTerm | pkg/raft/utils.go:115-122 | the term of the last entry, stored or compacted |
| AbsoluteLog.AckIsExact | pkg/raft/grpc.go:202-219 | when a request is accepted and the logs agree below the prefix, the follower agrees with the leader below the returned ack if and only if the logs already agreed wherever both had entries from the prefix on |
| AbsoluteLog.AppendAgreesIff | pkg/raft/raft.go:234-254 | the same for the append alone |
| AbsoluteLog.ConflictLosesEntries | pkg/raft/raft.go:241-252 | how many acknowledged entries are missing after a conflict |
| AbsoluteLog.LogOkMeans | pkg/raft/grpc.go:183-199 | the check passes exactly at positions at or above the snapshot index whose absolute entry has the asked term, and at zero |
| AbsoluteLog.VoteGrantedIff | pkg/raft/grpc.go:244-265 | a vote is granted exactly to a request of no earlier term whose log ends in a later term than the voter's, or in the same at no smaller length, and that no vote cast for another in the term stands against |
| AbsoluteLog.VoteBinds | pkg/raft/grpc.go:244-286 | the reply carries the new term; a granted vote binds the voter; a refusal clears vote and role exactly for a newer request or one from the recorded leader |
| AbsoluteLog.CampaignAnnounces | pkg/raft/election.go:92-106 | a candidacy announces the last term and length of the candidate's absolute log in the next term |
| AbsoluteLog.CandidacyGrantedIff | pkg/raft/grpc.go:259-265 | a voter of no later term grants it exactly when its own absolute log is not fresher |
| AbsoluteLog.SuffixKept | pkg/raft/grpc.go:321-333 | a snapshot of k positions keeps what follows position k + 1, if that position has the announced term, and otherwise nothing |
| AbsoluteLog.RestoredStandsFor | pkg/raft/grpc.go:321-350 | a restored snapshot leaves the absolute log of the snapshot followed by what is kept |
| AbsoluteLog.CompactsIff | pkg/raft/snapshot.go:56-87 | compaction happens exactly when a snapshot can be taken, the stored log has reached the threshold and something stored is committed; it then keeps exactly what is not committed |
| AbsoluteLog.CompactPanicsIff | pkg/raft/snapshot.go:56-87 | it panics exactly when it goes ahead with a commit length beyond the log |
| AbsoluteLog.CommittedPrefixSurvivesIff | pkg/raft/raft.go:234-254 | the committed prefix survives an append exactly when there is no conflict below it or the appended entries repeat what was cut |
| AbsoluteLog.SnapshotKeepsLogIff | pkg/raft/grpc.go:321-350 | installing a snapshot of a prefix of the own log keeps the rest exactly when nothing is left after it |
| AbsoluteLog.CompactionMakesTwins | pkg/raft/snapshot.go:56-87 | compaction keeps the absolute length and every retained position, and the snapshot is the application of the whole compacted prefix |
| AbsoluteLog.TwinsVoteAlike | pkg/raft/grpc.go:251-286 | servers that differ only in compaction answer every vote request alike and stay so |
| AbsoluteLog.TwinsCampaignAlike | pkg/raft/election.go:97-106 | they announce the same candidacy |
| AbsoluteLog.TwinsReplicateAlike | pkg/raft/grpc.go:159-232 | they answer every log request from the snapshot on alike, and end with the same absolute log, commit length and application state |
| NodeRun.RunInOrder | pkg/raft/raft.go:227-332 | over any run of handlers in which requests and failed snapshots leave the committed messages and restored snapshots reach the commit length: snapshot index <= commit length <= absolute length, neither moves back, nothing panics, and the application state is the in-order, exactly-once application of the first commit-length entries |
| NodeRun.StepInOrder | pkg/raft/grpc.go:145-354 | each handler keeps that |
| NodeRun.LogRequestInOrderIff | pkg/raft/raft.go:227-278 | a log request leaves the server in order on the log it then stands for exactly when that log still carries the committed messages at their positions; then neither index moves back |
| NodeRun.RestoreInOrderIff | pkg/raft/grpc.go:321-350 | a restored snapshot leaves the server in order on some log exactly when it reaches the commit length |
| NodeRun.FailedRestoreInOrderIff | pkg/raft/grpc.go:321-342 | a complete snapshot that cannot be restored leaves the server in order exactly when the cut log still carries the committed messages at their positions |
| NodeRun.StepWellFormed | pkg/raft/raft.go:98-332 | whatever arrives, a handler leaves the arrays and indices consistent |
| NodeRun.StepTerm | pkg/raft/replicator.go:136-141 | every handler raises the term to that of its message if that is later, and only a timeout raises it otherwise; a message of a later term makes a follower, so a server still leading or campaigning has handled none |
| NodeRun.RunReachesTerms | pkg/raft/raft.go:98-332 | after any run a server has reached the term of every message it handled |
| NodeRun.LaterReplyDeposes | pkg/raft/replicator.go:136-141 | a reply of a later term makes a leader a follower of that term without vote or leader |
| NodeRun.LaterTermClearsVoteIff | pkg/raft/raft.go:101-106 | a message of a later term clears the old vote exactly unless it is a vote reply or a snapshot chunk |
| NodeRun.HearsLeader | pkg/raft/grpc.go:159-181 | a leader or candidate that hears from the leader of its own or a later term follows it |
| NodeRun.HearsSnapshot | pkg/raft/grpc.go:300-311 | a snapshot chunk names the leader but leaves the role alone within the term, and is answered with the term from before |
| Probe.ProbeStopsAtGreatestMatch | pkg/raft/replicator.go:143-206 | from any cursor, probing stops at q after k rejections exactly when q is the greatest match below the cursor and k the number of positions between; both logs are then unchanged |
| Probe.ProbeEndsIff | pkg/raft/replicator.go:153-160 | probing ends if and only if some position from the leader's snapshot to the cursor matches where the follower can tell |
| Probe.AcceptedIffMatches | pkg/raft/grpc.go:183-202 | a request is accepted exactly when the position before the cursor has the same term in both logs |
| Probe.RoundsSee | pkg/raft/replicator.go:109-160 | any number of exchanges of the servers is that number of exchanges on the two logs and the cursor |
| Probe.RejectedRound | pkg/raft/replicator.go:133-160 | a rejected exchange changes no log and moves the cursor back by one, down to the floor |
| Probe.ReignProbes | pkg/raft/replicator.go:73-162 | throughout a leader's term the hypotheses of probing hold for every follower, whatever its log |
| Probe.ConflictShowsFirst | pkg/raft/raft.go:235-245 | where probing stops, from any cursor, logs that match agree below the stop and a remaining conflict shows at the first suffix entry, unless the very first request was accepted below the leader's end or the stop is below the follower's snapshot |
| CatchUp.FirstRequestHidesConflict | pkg/raft/raft.go:235-245 | the first exception happens: the first entry sent agrees, a later one conflicts, and nothing is cut |
| CatchUp.CompactionHidesConflict | pkg/raft/grpc.go:183-199 | so does the second: a follower compacted to its end is reached at zero, where the conflict does not show |
| CatchUp.CatchUpIff | pkg/raft/raft.go:234-254 | when the terms of the leader's log never fall, repeated exchanges bring the follower level if and only if the logs agree below the greatest match and the follower's log is at least as long as the leader's or the leader's tail repeats with the length that is cut |
| CatchUp.MatchingLogsCatchUpIff | pkg/raft/raft.go:234-254 | for logs that match, the lengths alone decide unless the tail repeats |
| CatchUp.NoMatchCatchUpIff | pkg/raft/replicator.go:153-160 | where nothing matches that the leader can reach and the follower can tell, exchanges change nothing for the better |
| CatchUp.FirstStopResets | pkg/raft/replicator.go:144-152 | from any cursor the first accepted request leaves the follower with what it sends and the cursor past the leader's log, where the previous rows apply |
| CatchUp.ReignKeepsRising | pkg/raft/raft.go:172-176 | throughout a leader's term the terms of its log never fall if they did not at the start |
| CatchUp.FallingTermsCanLevel | pkg/raft/raft.go:234-254 | without that a shorter follower can be levelled although the tail does not repeat |
| CatchUp.HopelessStays | pkg/raft/raft.go:234-254 | no accepted request leads out of the logs that never catch up: those with a difference below a match, with a piece of the leader's log missing in the middle, parting too early, or matching nowhere |
| CatchUp.ShorterFollowerNeverLevels | pkg/raft/raft.go:241-252 | a follower of two entries that parts from a leader of four at the second is never levelled |
| SnapshotTransfer.SnapshotRoundTripIff | pkg/raft/raft.go:359-412 | for every non-empty snapshot, every sequence of read sizes and any previous file: only the last chunk is marked done, the transfer completes exactly when the last chunk starts below 2^31, the file is then the snapshot, and otherwise the chunk marked done is never accepted |
| SnapshotTransfer.SizeDecides | pkg/raft/raft.go:359-412 | whatever the read sizes, a snapshot of at most 2^31 bytes is sent and one of 2^31 bytes and a buffer or more is not |
| SnapshotTransfer.SendSnapshot | pkg/raft/raft.go:364-412 | the sending loop delivers exactly those chunks and stops at the first error |
| SnapshotTransfer.WrittenByte | pkg/raft/snapshot.go:30-54 | byte by byte, a write leaves the data where it goes, the old file elsewhere and zeros in a gap |
| SnapshotTransfer.SnapshotFile.WriteSnapshotData | pkg/raft/snapshot.go:30-54 | offset zero creates or empties the file, other offsets write into it, negative offsets and missing files fail |
| Topology.NewClusterConfig | pkg/metadata/model.go:44-61 | the new cluster: every shard present, unassigned and well formed |
| Topology.DeathIsFilter | pkg/metadata/store.go:19-51 | on a well-formed shard, failover removes the dead node from the list of holders, keeps the others in order, and keeps the shard well formed |
| Topology.DeathsFilter | pkg/metadata/store.go:8-54 | after any sequence of deaths each shard has exactly its surviving holders in order, the dead are marked, and the epoch has grown by the number of deaths |
| Topology.DeathsCommute | pkg/metadata/store.go:8-54 | any ordering of the same deaths gives the same configuration |
| Topology.Rebalance | pkg/metadata/store.go:8-54 | failover computes the specified configuration for every map order |
| Topology.FailAllShards | pkg/metadata/store.go:19-51 | the loop over the shards |
| Topology.FailOneShard | pkg/metadata/store.go:20-50 | promotion, loss of the last holder, or removal of a replica |
| Topology.DropReplica | pkg/metadata/store.go:39-44 | the replica list without the dead node, in order |
| Controller.TopUpCorrect | pkg/controller/controller.go:276-334 | from a well-formed topology with an active node, every shard gets a primary; a shard with fewer than 3 and fewer than active - 1 replicas ends with exactly the smaller of 3 and active - 1 distinct active replicas other than its primary, those it had first; the others keep theirs |
| Controller.TopUpChangesIff | pkg/controller/controller.go:252-337 | the epoch rises by one exactly when some shard lacks a primary or has fewer than 3 and fewer than active - 1 replicas; otherwise nothing changes |
| Controller.TopUpIsFixpoint | pkg/controller/controller.go:231-348 | a second top-up, in any orders, changes nothing and starts no copy |
| Controller.OneTaskPerAddedReplica | pkg/controller/controller.go:311-328 | the copies started are distinct and are exactly one per replica added, from that shard's primary |
| Controller.OrphansSpreadEvenly | pkg/controller/controller.go:287-294 | shards without a primary are spread so that any two active nodes gain numbers that differ by at most one, for every order |
| Controller.RefillReplenishes | pkg/controller/controller.go:296-331 | the same for one shard: the smaller of 3 and active - 1 replicas, those it had that are active first, if it had fewer, and otherwise its own |
| ControlPlane.TopUpRestoresRedundancy | pkg/controller/controller.go:34-348 | after any run from a new cluster of joins, deaths, the separate sections of top-ups and moves, and earlier configurations that are applied again, in which top-ups and completed moves write under their exact conditions, only nodes the configuration has as live hold shards; and one undisturbed top-up with a live node leaves every shard with a live primary and exactly the smaller of 3 and live - 1 live replicas, or its own if it had as many |
| ControlPlane.RunKeepsSound | pkg/controller/controller.go:34-348 | over every such run each configuration there has been is sound and has the same shards |
| ControlPlane.ChangeKeepsSound | pkg/controller/controller.go:34-337 | every such step but the application of an earlier configuration keeps the topology sound, keeps the set of shards, raises the epoch by one with every change, and never revives a dead node |
| ControlPlane.MoveSoundIff | pkg/controller/controller.go:78-92 | completing a move, whatever has happened since it began, keeps the topology sound exactly when the target is by then live and not a replica of the shard |
| ControlPlane.DeathDuringMoveBreaks | pkg/controller/controller.go:57-92 | the death of the target between locking and completing breaks it |
| ControlPlane.TopUpSoundIff | pkg/controller/controller.go:232-337 | a top-up that goes ahead keeps the topology sound for every order of nodes and shards, whatever has happened since it read the nodes, exactly when every node it read as active still is, or no shard lacks a primary or replicas by then |
| ControlPlane.DeathDuringTopUpBreaks | pkg/controller/controller.go:232-337 | the death between reading and writing of the first node listed breaks it whenever some shard lacks a primary or replicas |
| ControlPlane.LateApplyIff | pkg/controller/controller.go:150-155 | applying a written configuration after any further steps keeps the epoch and the deaths exactly when nothing has changed since; otherwise the epoch falls |
| ControlPlane.LateApplyRevives | pkg/controller/controller.go:150-155 | for every live node there is a run in which its death after the write is undone |
| ControlPlane.ControllerServer.ApplyUpdateTopology | pkg/controller/controller.go:150-155 | the configuration becomes the one applied, unconditionally |
| ControlPlane.ControllerServer.RebalanceShards | pkg/controller/controller.go:231-348 | an undisturbed top-up computes the specified configuration and copies for every map order |
| ControlPlane.ControllerServer.ScanTopology | pkg/controller/controller.go:232-274 | the reading half: the active nodes and whether some shard lacks a primary or replicas |
| ControlPlane.ControllerServer.ApplyTopUp | pkg/controller/controller.go:276-337 | the writing half, on the shards as they are by then and the nodes as they were read |
| ControlPlane.TopUpShards | pkg/controller/controller.go:287-334 | the loop over the shards with the round-robin index |
| ControlPlane.AssignPrimary | pkg/controller/controller.go:286-291 | a shard without a primary takes the next node and becomes active |
| ControlPlane.PickReplicas | pkg/controller/controller.go:302-329 | the first active nodes that do not hold the shard, as many as there is room for |
| ControlPlane.FindUpdate | pkg/controller/controller.go:252-269 | whether some shard lacks a primary or replicas |
| ControlPlane.ControllerServer.HandleNodeFailure | pkg/controller/controller.go:112-127 | the configuration after a death |
| ControlPlane.ControllerServer.ApplyRegisterNode | pkg/controller/controller.go:157-179 | a new node joins as active; a known one changes nothing |
| ControlPlane.ControllerServer.BeginMove | pkg/controller/controller.go:34-49 | a move goes ahead exactly when the shard, its primary and the target are known |
| ControlPlane.ControllerServer.LockForMove | pkg/controller/controller.go:57-70 | the configuration once the shard is locked |
| ControlPlane.ControllerServer.CompleteMove | pkg/controller/controller.go:78-92 | the configuration once the target is primary |
| Handover.JoinedActiveIff | pkg/controller/controller.go:157-179 | in every run a node that joined keeps its address and is active exactly as long as its death is not reported; joining again does not bring it back |
| Handover.LockRefusesIff | pkg/metadata/store.go:19-51 | in every run from the lock of a move to its completion, the shard's primary refuses every write to it and changes no cache exactly as long as no node has died; after a death it takes them |
| Handover.TargetServesIff | pkg/controller/controller.go:78-92 | once a move is completed the target alone takes writes to the shard |
| DataRun.FailoverKeepsAcknowledgedWritesIff | pkg/datanode/server.go:85-188 | from empty caches, in every run of puts, deletes and deaths, with each write failing after any number of replicas and nodes acting on any topology they ever fetched, every node that still holds a key's shard has the last acknowledged value or that of a later failed attempt, exactly when every replica of a used shard is in the node map |
| DataRun.EventKeeps | pkg/datanode/server.go:125-135 | each write, death and topology fetch keeps the invariant behind that |
| DataRun.WriteReaches | pkg/datanode/server.go:125-135 | an acknowledged write has reached every current holder, however old the writer's topology; a failed one only nodes it was sent to |
| DataRun.UnconfiguredNodeAcksAlone | pkg/datanode/server.go:103-135 | a node without a topology acknowledges every write and changes only its own cache |
| DataPlane.HandleWrite | pkg/datanode/server.go:85-188 | status and caches after a put or delete: the checks in order, the loop over replicas up to the first failure, the local cache last |
| DataPlane.ServedIff | pkg/datanode/server.go:86-120 | a write gets past the checks exactly with a lease, a request no older than the node's topology and, if there are shards, at the primary of one neither locked nor migrating; each refusal has its exact condition and changes no cache |
| DataPlane.AckedIffAllConfirm | pkg/datanode/server.go:122-135 | it is then acknowledged exactly when every replica with an address answers and is not ahead of the request; they and the node have it then, and otherwise those before the first that does not, with that one if only its answer was lost |
| DataPlane.TargetsAre | pkg/datanode/state.go:43-59 | it is sent to exactly the replicas of its shard that have an address |
| DataPlane.SendSpreads | pkg/datanode/server.go:211-242 | the replicas written are among the targets, all of them after a success, and no other key or node changes |
| DataPlane.GetReplicas | pkg/datanode/state.go:43-59 | the replicas with an address, in order |
| MapCache.ImportsRebuild | pkg/cache/ConcurrentMapCache.go:38-65 | importing the exports of all shards, in any order, into any cache gives that cache overwritten by the exported one |
| MapCache.ImportAllAt | pkg/cache/ConcurrentMapCache.go:38-65 | importing some shards overwrites exactly their keys |
| MapCache.ExportsPartition | pkg/cache/ConcurrentMapCache.go:38-65 | the exports of two shards share no key, numbers outside the range export nothing, and importing all shards into an empty cache, in any order, gives the cache |
| MapCache.PullsAgree | pkg/controller/controller.go:53-76 | the two pulls of a move leave the target agreeing with the source on every source key of the shard, and unchanged on other shards |
| MapCache.MoveCopiesIff | pkg/controller/controller.go:53-76 | the target's shard then equals the source's exactly when no key of it that the target had, or the first pull brought, is gone from the source |
| MapCache.MoveCopiesShard | pkg/controller/controller.go:53-76 | so it does when the target starts without the shard and none of its keys is deleted between the pulls |
| MapCache.ConcurrentMapCache.ExportShard | pkg/cache/ConcurrentMapCache.go:38-56 | the loop over the cache |
| MapCache.ConcurrentMapCache.Import | pkg/cache/ConcurrentMapCache.go:58-65 | the loop over the imported data |
| ShardedCache.RunSharded | pkg/cache/ShardedCache.go:21-65 | for every requested shard count and hash, every sequence of operations gets the answers of a plain map |
| ShardedCache.RunBasic | pkg/cache/BasicMapCache.go:7-23 | the plain map cache gives the same answers |
| ShardedCache.MaskIsMod | pkg/cache/ShardedCache.go:39-43 | masking with a power of two less one is reduction modulo it |
| ShardedCache.MaskTestIsPow2 | pkg/cache/ShardedCache.go:22-24 | the constructor's test accepts exactly the powers of two |
| ShardedCache.ShardedMapCache.constructor | pkg/cache/ShardedCache.go:21-37 | the shard count is the requested power of two, or else 16 |
| ShardedCache.ShardedMapCache.GetShard | pkg/cache/ShardedCache.go:39-43 | the masked index is in range and is the hash modulo the shard count |
| ShardedCache.ShardedMapCache.PutValue | pkg/cache/ShardedCache.go:60-65 | the shards keep standing for the plain map after a put |
| ShardedCache.ShardedMapCache.DeleteKey | pkg/cache/ShardedCache.go:53-58 | and after a delete |
| ShardedCache.ShardedMapCache.Lookup | pkg/cache/ShardedCache.go:45-51 | the value the plain map has |
| Lease.FencingIff | pkg/datanode/lease.go:36-135 | in every timed run a node reported dead has no lease, from the report until its next heartbeat is seen, exactly when the grace period is at least the lease plus four seconds, the two client timeouts |
| Lease.StepKeeps | pkg/datanode/lease.go:61-99 | the lease never runs further than two client timeouts and its duration past the last heartbeat seen |
| Lease.DefaultsDoNotFence | cmd/controller/main.go:29-30 | a grace period equal to the lease of five seconds is not enough |
| Fencing.RefusedIff | pkg/datanode/server.go:86-89 | for every request an active node would acknowledge: in every timed run a node reported dead refuses it exactly when the grace period is at least the lease plus four seconds |
| Fencing.ReportedNodeWritesNothing | pkg/datanode/server.go:86-89 | with that grace period a node reported dead refuses every request whatever and no cache changes |
| Fencing.AckedInTimeIff | pkg/datanode/server.go:122-135 | with writes that take up to five seconds for each replica, no write is acknowledged by a node by then reported dead exactly when the grace period is at least the lease plus four seconds and five for each replica |
| Fencing.StepKeeps | pkg/datanode/server.go:86-135 | a write in progress began before the lease ran out and has waited at most five seconds for each replica since |
| Lease.LeaseManager.ExtendLease | pkg/datanode/lease.go:54-59 | the node is active for exactly the duration from now |
| Lease.Reaper.CheckLiveness | pkg/controller/reaper.go:36-46 | reports and forgets exactly the overdue nodes |

## Left out

- Leader Completeness and State Machine Safety across terms: the commit loop has no test for the current term (`pkg/raft/raft.go:317`, compare section 5.4.2 of the Raft paper), so the code does not support them.
- Crash recovery and `pkg/raft/persistance.go`: servers do not restart in the model.
- gRPC, HTTP, JSON and protobuf encodings, the connection manager and the transport: messages are values; only the chunk offset keeps its 32-bit width, the other 32-bit fields and the 64-bit epoch are unbounded.
- Timers, randomised timeouts, retry delays and goroutine scheduling: handlers run in any order at any time, and nothing is claimed about progress beyond the stated measures.
- Interleavings inside a Raft handler that releases its lock: each is atomic.
- `logResponse` in `pkg/raft/raft.go:280-301`: nothing calls it; `replicate` handles replies.
- The reply channels of `Broadcast`, `BroadcastSync` and forwarding to the leader.
- CatchUp.CatchUpIff: the leader's log does not grow and the follower does not compact during the exchanges; and the terms of the leader's log never fall, which a term of leadership keeps (CatchUp.ReignKeepsRising) and without which the condition is not exact (CatchUp.FallingTermsCanLevel).
- The contents of the snapshot file between the first chunk of a transfer and the last: `snapshot` is the image of the last compaction or restore.
- SnapshotTransfer.SnapshotRoundTripIff: the follower takes every chunk; a change of term or a lost request ends the transfer, and the next one starts at offset zero.
- DataRun.FailoverKeepsAcknowledgedWritesIff: requests are handled one at a time, an address identifies its node, a serving node has fetched some topology, and no replica is added; a top-up makes a node a replica before its copy has finished (`pkg/controller/controller.go:336-347`), so the promise does not extend to it.
- Lease.FencingIff: one clock for both sides, and no time passes outside the two HTTP exchanges of a renewal.
- `SetTopology` forces any configuration, sound or not; it is there for debugging, and no property survives it.
- The data copies after a top-up (`syncNewReplicas`) as steps of a run: each is one pull, covered by MapCache.
- `HandleGet` reads one cache without looking at the topology; what it may see at a holder is what DataRun states of the caches.
- `pkg/api` and `pkg/client` turn calls into requests and retry on error strings, and the commands, scripts and benchmarks start processes and measure them; none holds state that the stated properties depend on.
- `SyncMapCache` wraps a library map that is not part of this model.
- FNV-1a: the hash is an arbitrary function to the non-negative integers.
