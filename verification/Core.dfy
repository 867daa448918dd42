/** State shared by every role: what is persisted, and what is volatile. */
module RaftCore {
  import opened Types
  import opened Membership
  import opened RaftLog
  import opened Messages

  datatype Settings = Settings(
    id: NodeId, prevote: bool, parallelDiskWrite: bool, pipelining: bool, mode: Mode,
    maxEntriesPerMsg: nat, maxUncommittedEntries: nat, maxUncommittedBytes: nat)

  datatype Persistent = Persistent(term: Term, votedFor: Option<NodeId>, log: Log, bootstrap: Configuration)

  datatype Core = Core(settings: Settings, persistent: Persistent, commitIndex: LogIndex, lastApplied: LogIndex)
  {
    function Id(): NodeId { settings.id }

    function Term(): Term { persistent.term }

    function Log(): Log { persistent.log }

    function WithLog(log: Log): Core { this.(persistent := persistent.(log := log)) }

    function ConfigAt(index: LogIndex): Configuration {
      match Log().ConfigAt(index)
      case Some(config) => config
      case None => persistent.bootstrap
    }

    /** The latest configuration in the log; it takes effect when appended. */
    function EffectiveConfig(): Configuration { ConfigAt(Log().LastIndex()) }

    predicate IsVoter() { EffectiveConfig().IsVoter(Id()) }

    function MaybeUpdateTerm(term: Term): Core {
      if term > Term() then this.(persistent := persistent.(term := term, votedFor := None)) else this
    }

    function StartElection(): Core {
      this.(persistent := persistent.(term := Term() + 1, votedFor := if IsVoter() then Some(Id()) else None))
    }

    function VoteFor(candidate: NodeId): Core {
      this.(persistent := persistent.(votedFor := Some(candidate)))
    }

    predicate CanVoteFor(candidate: NodeId) {
      persistent.votedFor.None? || persistent.votedFor == Some(candidate)
    }

    /** The candidate's last entry is at least as late as ours: by term, then by index. */
    predicate LogIsUpToDate(lastTerm: Term, lastIndex: LogIndex) {
      || lastTerm > Log().LastTerm()
      || (lastTerm == Log().LastTerm() && lastIndex >= Log().LastIndex())
    }

    predicate HasPendingConfig() { Log().PendingConfigIndex(commitIndex).Some? }

    /** Whether one more command would exceed the leader's uncommitted budget. */
    predicate ProposalLimitExceeded(bytes: Bytes) {
      var uncommitted := Log().Slice(commitIndex + 1, Log().LastIndex());
      || |uncommitted| >= settings.maxUncommittedEntries
      || CommandBytes(uncommitted) + |bytes| > settings.maxUncommittedBytes
    }

    function Reply(to: NodeId, body: Body): Effects {
      Send(Message(Id(), to, Term(), body))
    }
  }

  function CommandBytes(entries: seq<Entry>): nat {
    if entries == [] then 0
    else
      var last := entries[|entries| - 1].payload;
      CommandBytes(entries[..|entries| - 1]) + if last.Command? then |last.bytes| else 0
  }

  function InitialPersistent(voters: set<NodeId>): Persistent {
    Persistent(0, None, EmptyLog(), Simple(voters, {}))
  }

  /** Volatile state is lost: a restored core starts with nothing committed or applied. */
  function RestoreCore(settings: Settings, persistent: Persistent): Core {
    Core(settings, persistent, 0, 0)
  }

  datatype PendingRead = PendingRead(id: nat, readIndex: LogIndex, configuration: Configuration, acks: set<NodeId>)

  datatype LeaderState = LeaderState(
    nextIndex: map<NodeId, LogIndex>, matchIndex: map<NodeId, LogIndex>,
    nextReadId: nat, pending: Option<PendingRead>, confirmedReadIndex: LogIndex)
  {
    function Match(id: NodeId): LogIndex { if id in matchIndex then matchIndex[id] else 0 }

    function Next(id: NodeId): LogIndex { if id in nextIndex then nextIndex[id] else 1 }
  }

  datatype Role =
    | Follower(leader: Option<NodeId>)
    | PreCandidate(preVotes: set<NodeId>)
    | Candidate(votes: set<NodeId>)
    | Leader(state: LeaderState)

  datatype Transition = Stay | ToFollower(leader: Option<NodeId>) | ToPreCandidate | ToCandidate | ToLeader

  /** A role's reaction: the state it leaves behind, where to go next, and what to do. */
  datatype StepResult = StepResult(core: Core, role: Role, transition: Transition, effects: Effects)
}
