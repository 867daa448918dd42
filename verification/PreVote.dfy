/** Pre-votes: they change nothing, and a granted one foretells the vote. */
module PreVote {
  import opened Types
  import opened Membership
  import opened RaftLog
  import opened Messages
  import opened RaftCore
  import opened FollowerRole
  import opened CandidateRoles
  import opened LeaderRole
  import opened RaftNode

  /** Asking for a pre-vote leaves every node as it was, except a pre-candidate that learns of a higher term. */
  lemma PreVoteIsHarmless(node: Node, m: Message, clock: Clock)
    requires m.body.PreVoteRequest?
    requires node.role.PreCandidate? ==> clock.recent || m.term <= node.core.Term()
    ensures StepEvent(node, Receive(m), clock).0 == node
  {
    var r := RoleStep(node, Receive(m), clock);
    assert r.core == node.core && r.role == node.role && r.transition.Stay?;
  }

  /** The vote request that would follow a pre-vote request. */
  function RealVote(m: Message): Message
    requires m.body.PreVoteRequest?
  {
    Message(m.from, m.to, m.body.nextTerm, VoteRequest(m.body.lastLogIndex, m.body.lastLogTerm))
  }

  /** The only message sent is this answer, under some term. */
  ghost predicate AnswersWith(effects: Effects, id: NodeId, to: NodeId, body: Body) {
    exists t: Term :: effects.messages == {Message(id, to, t, body)}
  }

  /** For a term the follower has not reached, a pre-vote is granted exactly when the vote itself would be. */
  lemma PreVotePredictsVote(core: Core, leader: Option<NodeId>, m: Message, clock: Clock) returns (granted: bool)
    requires m.body.PreVoteRequest? && m.body.nextTerm > core.Term()
    ensures AnswersWith(FollowerStep(core, leader, Receive(m), clock).effects, core.Id(), m.from,
                        PreVoteResponse(core.Term(), granted))
    ensures AnswersWith(FollowerStep(core, leader, Receive(RealVote(m)), clock).effects, core.Id(), m.from,
                        VoteResponse(granted))
  {
    var updated := core.MaybeUpdateTerm(m.body.nextTerm);
    assert updated.EffectiveConfig() == core.EffectiveConfig();
    var pre := FollowerStep(core, leader, Receive(m), clock).effects.messages;
    var vote := FollowerStep(core, leader, Receive(RealVote(m)), clock).effects.messages;
    if leader.Some? && clock.recent {
      granted := false;
      assert pre == {Message(core.Id(), m.from, core.Term(), PreVoteResponse(core.Term(), false))};
      assert vote == {Message(core.Id(), m.from, core.Term(), VoteResponse(false))};
    } else {
      granted := core.EffectiveConfig().IsVoter(m.from) && core.LogIsUpToDate(m.body.lastLogTerm, m.body.lastLogIndex);
      assert pre == {Message(core.Id(), m.from, m.term, PreVoteResponse(core.Term(), granted))};
      assert vote == {Message(core.Id(), m.from, m.body.nextTerm, VoteResponse(granted))};
    }
  }

  /** A pre-candidate's own steps never raise its term: only a higher term it is told of does. */
  lemma PreElectionKeepsTerm(core: Core, preVotes: set<NodeId>, event: Event, clock: Clock)
    ensures var r := PreCandidateStep(core, preVotes, event, clock);
      r.core.Term() > core.Term() ==>
        && event.Receive? && r.transition.ToFollower? && r.effects.persist && r.core.persistent.votedFor.None?
        && (event.message.term == r.core.Term()
            || event.message.body == PreVoteResponse(r.core.Term(), event.message.body.granted))
  {
  }
}
