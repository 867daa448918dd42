/** Messages between nodes and the effects a step asks its driver to carry out. */
module Messages {
  import opened Types
  import opened Membership
  import opened RaftLog

  datatype Body =
    | PreVoteRequest(nextTerm: Term, lastLogIndex: LogIndex, lastLogTerm: Term)
    | PreVoteResponse(responderTerm: Term, granted: bool)
    | VoteRequest(lastLogIndex: LogIndex, lastLogTerm: Term)
    | VoteResponse(granted: bool)
    | AppendRequest(prevLogIndex: LogIndex, prevLogTerm: Term, entries: seq<Entry>, leaderCommit: LogIndex)
    | AppendResponse(success: bool, lastIndex: LogIndex)
    | InstallSnapshotRequest(lastIncludedIndex: LogIndex, lastIncludedTerm: Term, configuration: Configuration)
    | InstallSnapshotResponse(success: bool, lastIncludedIndex: LogIndex)
    | ReadIndexRequest(id: nat, readIndex: LogIndex)
    | ReadIndexResponse(id: nat, readIndex: LogIndex)
    | TimeoutNow

  datatype Message = Message(from: NodeId, to: NodeId, term: Term, body: Body)

  datatype SendSnapshot = SendSnapshot(to: NodeId, lastIncludedIndex: LogIndex, lastIncludedTerm: Term,
                                       configuration: Configuration)

  /** Sends are unordered: the network may reorder them anyway. */
  datatype Effects = Effects(persist: bool, messages: set<Message>, snapshots: set<SendSnapshot>)
  {
    function WithPersist(): Effects { this.(persist := true) }

    function Merge(other: Effects): Effects {
      Effects(persist || other.persist, messages + other.messages, snapshots + other.snapshots)
    }
  }

  const NOTHING := Effects(false, {}, {})

  function Send(message: Message): Effects { Effects(false, {message}, {}) }

  datatype Event = Tick | Receive(message: Message) | DiskWriteComplete(index: LogIndex)

  /**
   What the logical clock says at a step: whether the role's deadline has passed, and whether
   the last contact with a leader lies within the minimum election timeout.
   */
  datatype Clock = Clock(expired: bool, recent: bool)
}
