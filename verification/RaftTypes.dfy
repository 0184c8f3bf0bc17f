/** The values the Raft module works on: messages, log entries, the state of one server
    and the requests and replies servers exchange. */
module RaftTypes {

  datatype Option<+T> = None | Some(value: T)

  newtype Byte = b: int | 0 <= b < 256

  datatype MsgType = GetMsg | PutMsg | DeleteMsg | CommandMsg

  datatype Message = Message(msgType: MsgType, key: int, value: Option<int>, data: seq<Byte>,
                             idempotencyToken: string, clientId: string)

  datatype Entry = Entry(term: int, message: Message)

  datatype Role = Follower | Candidate | Leader

  /** The application is any deterministic machine fed by AppendMessage, so its state is a
      function of the messages applied so far; that sequence stands for the state. */
  type AppState = seq<Message>

  /** `votedFor` and `leaderId` hold this value when there is none. */
  const NOBODY: int := -1

  /** One server. `log` holds the entries after the first `lastIndex` absolute positions,
      which a snapshot has replaced. `panicked` is set where the Go code would panic. */
  datatype Node = Node(
    id: nat,
    totalNodes: nat,
    currentTerm: int,
    votedFor: int,
    log: seq<Entry>,
    commitLength: nat,
    role: Role,
    leaderId: int,
    votes: set<nat>,
    sentLengths: seq<nat>,
    ackedLengths: seq<nat>,
    lastIndex: nat,
    lastTerm: int,
    threshold: int,
    applied: AppState,
    snapshot: AppState,
    panicked: bool)

  datatype LogRequest = LogRequest(leaderId: nat, term: int, prefixLen: nat, prefixTerm: int,
                                   leaderCommit: nat, suffix: seq<Entry>)

  datatype LogResponse = LogResponse(nodeId: nat, term: int, ack: nat, success: bool)

  datatype VoteRequest = VoteRequest(candidateId: nat, term: int, logLength: nat, logTerm: int)

  datatype VoteResponse = VoteResponse(nodeId: nat, term: int, granted: bool)

  /** One InstallSnapshot request. `done` is set on the last chunk. */
  datatype SnapshotRequest = SnapshotRequest(leaderId: nat, term: int, lastIncludedIndex: nat,
                                             lastIncludedTerm: int, done: bool)

  /** What holds of every server between handlers, whatever it has received. */
  predicate WellFormed(n: Node) {
    && n.id < n.totalNodes
    && |n.sentLengths| == n.totalNodes
    && |n.ackedLengths| == n.totalNodes
    && n.lastIndex <= n.commitLength
  }

  /** The absolute length of the log, compacted prefix included. */
  function AbsLen(n: Node): nat {
    n.lastIndex + |n.log|
  }

  /** The messages of a run of entries, in order. */
  function Messages(s: seq<Entry>): (ms: seq<Message>)
    ensures |ms| == |s|
    ensures forall i {:trigger ms[i]} :: 0 <= i < |s| ==> ms[i] == s[i].message
  {
    if s == [] then [] else Messages(s[..|s| - 1]) + [s[|s| - 1].message]
  }

  lemma MessagesOfConcat(a: seq<Entry>, b: seq<Entry>)
    ensures Messages(a + b) == Messages(a) + Messages(b)
  {
  }

  /** Applying positions `i` to `j` after the first `i` gives the first `j`. */
  lemma MessagesExtend(s: seq<Entry>, i: nat, j: nat)
    requires i <= j <= |s|
    ensures Messages(s[..i]) + Messages(s[i..j]) == Messages(s[..j])
  {
    assert s[..i] + s[i..j] == s[..j];
    MessagesOfConcat(s[..i], s[i..j]);
  }

  /** The messages at absolute positions `from` to `to` of a log whose first `lastIndex`
      positions are compacted; none when the range is empty. */
  function MessagesBetween(log: seq<Entry>, lastIndex: nat, from: nat, to: nat): seq<Message>
    requires lastIndex <= from && (to <= from || to <= lastIndex + |log|)
  {
    if to <= from then [] else Messages(log[from - lastIndex..to - lastIndex])
  }

  lemma MessagesBetweenNext(log: seq<Entry>, lastIndex: nat, from: nat, to: nat)
    requires lastIndex <= from <= to < lastIndex + |log|
    ensures MessagesBetween(log, lastIndex, from, to + 1) ==
            MessagesBetween(log, lastIndex, from, to) + [log[to - lastIndex].message]
  {
    var i, j := from - lastIndex, to - lastIndex;
    assert log[i..j + 1] == log[i..j] + [log[j]];
    MessagesOfConcat(log[i..j], [log[j]]);
  }
}
