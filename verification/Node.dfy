/** The whole node: role dispatch, transitions and the driver-facing operations. */
module RaftNode {
  import opened Types
  import opened Membership
  import opened RaftLog
  import opened Messages
  import opened RaftCore
  import opened FollowerRole
  import opened CandidateRoles
  import opened LeaderRole

  datatype Node = Node(core: Core, role: Role)

  function Restore(settings: Settings, persistent: Persistent): Node {
    Node(RestoreCore(settings, persistent), Follower(None))
  }

  function RoleStep(node: Node, event: Event, clock: Clock): StepResult {
    match node.role
    case Follower(leader) => FollowerStep(node.core, leader, event, clock)
    case PreCandidate(preVotes) => PreCandidateStep(node.core, preVotes, event, clock)
    case Candidate(votes) => CandidateStep(node.core, votes, event, clock)
    case Leader(state) => LeaderStep(node.core, state, event, clock)
  }

  /** Campaigning may be won at once by a node whose own vote is a quorum. */
  function BecomeCandidate(core: Core): (Node, Effects) {
    var (after, votes, asked) := NewCandidate(core);
    if after.EffectiveConfig().HasQuorum(votes) then
      var (state, sent) := NewLeader(after);
      (Node(after, Leader(state)), asked.Merge(sent))
    else (Node(after, Candidate(votes)), asked)
  }

  function ApplyTransition(core: Core, role: Role, transition: Transition): (Node, Effects) {
    match transition
    case Stay => (Node(core, role), NOTHING)
    case ToFollower(leader) => (Node(core, Follower(leader)), NOTHING)
    case ToPreCandidate =>
      var (preVotes, asked) := NewPreCandidate(core);
      if core.EffectiveConfig().HasQuorum(preVotes) then
        var (node, effects) := BecomeCandidate(core);
        (node, asked.Merge(effects))
      else (Node(core, PreCandidate(preVotes)), asked)
    case ToCandidate => BecomeCandidate(core)
    case ToLeader =>
      var (state, sent) := NewLeader(core);
      (Node(core, Leader(state)), sent)
  }

  function StepEvent(node: Node, event: Event, clock: Clock): (Node, Effects) {
    var result := RoleStep(node, event, clock);
    var (after, effects) := ApplyTransition(result.core, result.role, result.transition);
    (after, result.effects.Merge(effects))
  }

  /** A proposal on a node whose commit index has passed its log trips an assertion in the driver. */
  datatype ProposeError = ProposeNotLeader(hint: Option<NodeId>) | Throttled | CommitBeyondLog

  function LeaderHint(node: Node): Option<NodeId> {
    match node.role
    case Leader(_) => Some(node.core.Id())
    case Follower(leader) => leader
    case _ => None
  }

  function AfterCommit(result: CommitResult): (Node, Effects) {
    (Node(result.core, if result.stepDown then Follower(None) else Leader(result.state)), result.effects)
  }

  function NodePropose(node: Node, bytes: Bytes): Result<(Node, Effects), ProposeError> {
    if !node.role.Leader? then Err(ProposeNotLeader(LeaderHint(node)))
    else if node.core.commitIndex > node.core.Log().LastIndex() then Err(CommitBeyondLog)
    else if node.core.ProposalLimitExceeded(bytes) then Err(Throttled)
    else Ok(AfterCommit(Propose(node.core, node.role.state, bytes)))
  }

  function NodeReadIndex(node: Node): Result<(LogIndex, Node, Effects), ReadIndexError> {
    if !node.role.Leader? then Err(ReadNotLeader(LeaderHint(node)))
    else
      match RequestReadIndex(node.core, node.role.state)
      case Err(error) => Err(error)
      case Ok((index, state, effects)) => Ok((index, node.(role := Leader(state)), effects))
  }

  predicate NodeReadIndexReady(node: Node, readIndex: LogIndex) {
    node.role.Leader? && ReadIndexReady(node.core, node.role.state, readIndex)
  }

  function NodeTransfer(node: Node, target: NodeId): Result<Effects, TransferError> {
    if !node.role.Leader? then Err(TransferNotLeader)
    else TransferLeadership(node.core, node.role.state, target)
  }
}
