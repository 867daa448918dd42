/** The pre-candidate and candidate roles. */
module CandidateRoles {
  import opened Types
  import opened Membership
  import opened RaftLog
  import opened Messages
  import opened RaftCore
  import opened FollowerRole

  function OwnVote(core: Core): set<NodeId> { if core.IsVoter() then {core.Id()} else {} }

  function AskAll(core: Core, body: Body): Effects {
    Effects(false, set to | to in core.EffectiveConfig().VoterPeers(core.Id()) ::
              Message(core.Id(), to, core.Term(), body), {})
  }

  /** Starts a pre-election: no term change. */
  function NewPreCandidate(core: Core): (set<NodeId>, Effects) {
    (OwnVote(core),
     AskAll(core, PreVoteRequest(core.Term() + 1, core.Log().LastIndex(), core.Log().LastTerm())))
  }

  /** Starts an election: new term, own vote, vote requests to all peers. */
  function NewCandidate(core: Core): (Core, set<NodeId>, Effects) {
    var after := core.StartElection();
    (after, OwnVote(after),
     AskAll(after, VoteRequest(after.Log().LastIndex(), after.Log().LastTerm())).WithPersist())
  }

  /** A higher term was seen: adopt it and follow. */
  function StepDown(core: Core, role: Role, m: Message): StepResult {
    StepResult(core.MaybeUpdateTerm(m.term), role, ToFollower(if m.body.AppendRequest? then Some(m.from) else None),
               NOTHING.WithPersist())
  }

  function PreCandidateStep(core: Core, preVotes: set<NodeId>, event: Event, clock: Clock): StepResult {
    var role := PreCandidate(preVotes);
    match event
    case Tick => StepResult(core, role, if clock.recent || !clock.expired then Stay else ToPreCandidate, NOTHING)
    case DiskWriteComplete(_) => StepResult(core, role, Stay, NOTHING)
    case Receive(m) =>
      if (m.body.VoteRequest? || m.body.PreVoteRequest?) && clock.recent then
        StepResult(core, role, Stay, DenyVote(core, m))
      else if m.term > core.Term() then StepDown(core, role, m)
      else
        match m.body
        case PreVoteResponse(responderTerm, granted) =>
          if responderTerm > core.Term() then
            StepResult(core.MaybeUpdateTerm(responderTerm), role, ToFollower(None), NOTHING.WithPersist())
          else if responderTerm < core.Term() || !granted then StepResult(core, role, Stay, NOTHING)
          else
            var all := preVotes + {m.from};
            StepResult(core, PreCandidate(all),
                       if core.EffectiveConfig().HasQuorum(all) then ToCandidate else Stay, NOTHING)
        case AppendRequest(_, _, _, _) => StepResult(core, role, ToFollower(Some(m.from)), NOTHING)
        case PreVoteRequest(_, _, _) => StepResult(core, role, Stay, AnswerPreVote(core, m))
        case VoteRequest(_, _) => StepResult(core, role, Stay, core.Reply(m.from, VoteResponse(false)))
        case TimeoutNow => StepResult(core, role, ToCandidate, NOTHING)
        case _ => StepResult(core, role, Stay, NOTHING)
  }

  function CandidateStep(core: Core, votes: set<NodeId>, event: Event, clock: Clock): StepResult {
    var role := Candidate(votes);
    match event
    case Tick => StepResult(core, role, if clock.recent || !clock.expired then Stay else ToCandidate, NOTHING)
    case DiskWriteComplete(_) => StepResult(core, role, Stay, NOTHING)
    case Receive(m) =>
      if (m.body.VoteRequest? || m.body.PreVoteRequest?) && clock.recent then
        StepResult(core, role, Stay, DenyVote(core, m))
      else if m.body.PreVoteRequest? then StepResult(core, role, Stay, AnswerPreVote(core, m))
      else if m.term > core.Term() then StepDown(core, role, m)
      else if m.term < core.Term() then StepResult(core, role, Stay, RefuseStale(core, m))
      else
        match m.body
        case VoteResponse(granted) =>
          if !granted then StepResult(core, role, Stay, NOTHING)
          else
            var all := votes + {m.from};
            StepResult(core, Candidate(all),
                       if core.EffectiveConfig().HasQuorum(all) then ToLeader else Stay, NOTHING)
        case AppendRequest(_, _, _, _) => StepResult(core, role, ToFollower(Some(m.from)), NOTHING)
        case VoteRequest(_, _) => StepResult(core, role, Stay, core.Reply(m.from, VoteResponse(false)))
        case TimeoutNow => StepResult(core, role, ToCandidate, NOTHING)
        case _ => StepResult(core, role, Stay, NOTHING)
  }

  /** Candidates and leaders refuse stale votes and appends, and answer nothing else. */
  function RefuseStale(core: Core, m: Message): Effects {
    match m.body
    case VoteRequest(_, _) => core.Reply(m.from, VoteResponse(false))
    case AppendRequest(_, _, _, _) => core.Reply(m.from, AppendResponse(false, core.Log().LastIndex()))
    case _ => NOTHING
  }
}
