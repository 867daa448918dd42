/**
 Cluster membership: configurations, quorums and validated configuration changes.
 */
module Membership {
  import opened Types

  datatype Mode = SingleServer | JointConsensus

  /** Either one voter set, or the joint configuration that needs a majority of both. */
  datatype Configuration =
    | Simple(voters: set<NodeId>, learners: set<NodeId>)
    | Joint(outgoing: set<NodeId>, incoming: set<NodeId>, learners: set<NodeId>)
  {
    function Voters(): set<NodeId> {
      match this
      case Simple(voters, _) => voters
      case Joint(outgoing, incoming, _) => outgoing + incoming
    }

    predicate IsVoter(id: NodeId) { id in Voters() }

    predicate IsMember(id: NodeId) { id in Voters() || id in learners }

    function AllNodes(): set<NodeId> { Voters() + learners }

    function VoterPeers(me: NodeId): set<NodeId> { Voters() - {me} }

    function ReplicationPeers(me: NodeId): set<NodeId> { AllNodes() - {me} }

    /** Whether the nodes in `acks` decide: a majority of every voter set. */
    predicate HasQuorum(acks: set<NodeId>) {
      match this
      case Simple(voters, _) => Majority(acks, voters)
      case Joint(outgoing, incoming, _) => Majority(acks, outgoing) && Majority(acks, incoming)
    }

    function TransitionTarget(): Option<Configuration> {
      match this
      case Simple(_, _) => None
      case Joint(_, incoming, learners) => Some(Simple(incoming, learners))
    }

    /** Every voter set is non-empty, and a simple configuration has no voting learner. */
    predicate Sound() {
      match this
      case Simple(voters, learners) => voters != {} && voters * learners == {}
      case Joint(outgoing, incoming, learners) =>
        outgoing != {} && incoming != {} && incoming * learners == {}
    }
  }

  predicate Majority(acks: set<NodeId>, group: set<NodeId>) {
    |group * acks| > |group| / 2
  }

  datatype Members = Members(voters: set<NodeId>, learners: set<NodeId>)

  datatype ConfigChange =
    | AddVoter(id: NodeId)
    | RemoveVoter(id: NodeId)
    | AddLearner(id: NodeId)
    | RemoveLearner(id: NodeId)
    | SetMembers(members: Members)

  datatype ConfigChangeError =
    | ChangeInProgress
    | AlreadyVoter(id: NodeId)
    | AlreadyLearner(id: NodeId)
    | Overlap(id: NodeId)
    | PromoteRequiresLearner(id: NodeId)
    | LearnerNotCaughtUp(id: NodeId, have: LogIndex, need: LogIndex)
    | NotVoter(id: NodeId)
    | NotLearner(id: NodeId)
    | WouldBeEmpty
    | NoChange
    | NotSingleChange(added: nat, removed: nat)
    | NotLeader

  /** `None` accepts the change against the current configuration. */
  function Validate(change: ConfigChange, current: Configuration, mode: Mode): Option<ConfigChangeError> {
    if current.Joint? then Some(ChangeInProgress)
    else
      match change
      case AddVoter(id) =>
        if id in current.voters then Some(AlreadyVoter(id))
        else if id !in current.learners then Some(PromoteRequiresLearner(id))
        else None
      case RemoveVoter(id) =>
        if id !in current.voters then Some(NotVoter(id))
        else if |current.voters| == 1 then Some(WouldBeEmpty)
        else None
      case AddLearner(id) =>
        if id in current.voters then Some(AlreadyVoter(id))
        else if id in current.learners then Some(AlreadyLearner(id))
        else None
      case RemoveLearner(id) =>
        if id !in current.learners then Some(NotLearner(id)) else None
      case SetMembers(m) =>
        var added := |m.voters - current.voters|;
        var removed := |current.voters - m.voters|;
        if m.voters == current.voters && m.learners == current.learners then Some(NoChange)
        else if mode == SingleServer && added + removed > 1 then Some(NotSingleChange(added, removed))
        else if m.voters == {} then Some(WouldBeEmpty)
        else if m.voters * m.learners != {} then Some(AlreadyVoter(Least(m.voters * m.learners)))
        else None
  }

  predicate IsLeast(id: NodeId, ids: set<NodeId>) {
    id in ids && forall other :: other in ids ==> id <= other
  }

  /** Ordered sets iterate upwards, so a search over one stops at the least match. */
  function Least(ids: set<NodeId>): (id: NodeId)
    requires ids != {}
    ensures IsLeast(id, ids)
  {
    LeastExists(ids);
    var id :| IsLeast(id, ids);
    id
  }

  lemma {:induction false} LeastExists(ids: set<NodeId>)
    requires ids != {}
    ensures exists id :: IsLeast(id, ids)
  {
    var some :| some in ids;
    if ids == {some} {
      assert IsLeast(some, ids);
    } else {
      var rest := ids - {some};
      LeastExists(rest);
      var least :| IsLeast(least, rest);
      assert ids == rest + {some};
      assert IsLeast(if some <= least then some else least, rest + {some});
    }
  }

  /** The configuration entry a change appends. */
  function Apply(change: ConfigChange, current: Configuration, mode: Mode): Configuration {
    var voters := if current.Simple? then current.voters else current.incoming;
    var learners := current.learners;
    match change
    case AddVoter(id) => Simple(voters + {id}, learners - {id})
    case RemoveVoter(id) => Simple(voters - {id}, learners)
    case AddLearner(id) => Simple(voters, learners + {id})
    case RemoveLearner(id) => Simple(voters, learners - {id})
    case SetMembers(m) =>
      if mode == JointConsensus && voters != m.voters
      then Joint(voters, m.voters, m.learners)
      else Simple(m.voters, m.learners)
  }

  predicate FirstOverlap(voters: seq<NodeId>, learners: seq<NodeId>, i: int) {
    && 0 <= i < |learners| && learners[i] in voters
    && forall j :: 0 <= j < i ==> learners[j] !in voters
  }

  /** Builds a membership set from unordered lists; a node listed twice over is refused. */
  method NewMembers(voters: seq<NodeId>, learners: seq<NodeId>)
    returns (r: Result<Members, ConfigChangeError>)
    ensures r.Ok? <==> forall i :: 0 <= i < |learners| ==> learners[i] !in voters
    ensures r.Ok? ==> r.value.voters == (set id | id in voters) && r.value.learners == (set id | id in learners)
    ensures r.Err? ==> exists i :: FirstOverlap(voters, learners, i) && r.error == Overlap(learners[i])
  {
    var voterSet := {};
    for i := 0 to |voters|
      invariant voterSet == set id | id in voters[..i]
    {
      voterSet := voterSet + {voters[i]};
      assert voters[..i + 1] == voters[..i] + [voters[i]];
    }
    assert voters[..|voters|] == voters;
    var learnerSet := {};
    for i := 0 to |learners|
      invariant learnerSet == set id | id in learners[..i]
      invariant forall j :: 0 <= j < i ==> learners[j] !in voters
    {
      if learners[i] in voterSet {
        assert FirstOverlap(voters, learners, i);
        return Err(Overlap(learners[i]));
      }
      learnerSet := learnerSet + {learners[i]};
      assert learners[..i + 1] == learners[..i] + [learners[i]];
    }
    assert learners[..|learners|] == learners;
    r := Ok(Members(voterSet, learnerSet));
  }

  // --- Quorums meet ---

  lemma SubsetSize<T>(a: set<T>, b: set<T>)
    requires a <= b
    ensures |a| <= |b|
  {
    assert b == a + (b - a);
  }

  /** Two vote sets over groups `g` and `h` meet once their counts exceed the union of the groups. */
  lemma CountsForceOverlap(q: set<NodeId>, r: set<NodeId>, g: set<NodeId>, h: set<NodeId>)
    requires |g * q| + |h * r| > |g + h|
    ensures q * r * (g + h) != {}
  {
    var a, b := g * q, h * r;
    if a * b == {} {
      assert |a + b| == |a| + |b|;
      SubsetSize(a + b, g + h);
    } else {
      var id :| id in a * b;
      assert id in q * r * (g + h);
    }
  }

  lemma MajoritiesMeet(q: set<NodeId>, r: set<NodeId>, group: set<NodeId>)
    requires Majority(q, group) && Majority(r, group)
    ensures q * r * group != {}
  {
    assert group + group == group;
    CountsForceOverlap(q, r, group, group);
  }

  /** Majorities of two voter sets that differ in at most one node meet. */
  lemma NeighbourMajoritiesMeet(q: set<NodeId>, r: set<NodeId>, g: set<NodeId>, h: set<NodeId>)
    requires Majority(q, g) && Majority(r, h)
    requires |g - h| + |h - g| <= 1
    ensures q * r != {}
  {
    assert g == (g * h) + (g - h) && h == (g * h) + (h - g);
    assert g + h == (g * h) + (g - h) + (h - g);
    assert |g + h| == |g * h| + |g - h| + |h - g|;
    CountsForceOverlap(q, r, g, h);
  }

  /** Any quorum of the current configuration meets any quorum of the one a validated change appends. */
  lemma QuorumsOverlapAcrossChange(change: ConfigChange, current: Configuration, mode: Mode,
                                   q: set<NodeId>, r: set<NodeId>)
    requires Validate(change, current, mode).None?
    requires current.HasQuorum(q) && Apply(change, current, mode).HasQuorum(r)
    ensures q * r != {}
  {
    var voters := current.voters;
    match change
    case AddVoter(id) =>
      assert voters - (voters + {id}) == {} && (voters + {id}) - voters == {id};
      NeighbourMajoritiesMeet(q, r, voters, voters + {id});
    case RemoveVoter(id) =>
      assert voters - (voters - {id}) == {id} && (voters - {id}) - voters == {};
      NeighbourMajoritiesMeet(q, r, voters, voters - {id});
    case AddLearner(_) => MajoritiesMeet(q, r, voters);
    case RemoveLearner(_) => MajoritiesMeet(q, r, voters);
    case SetMembers(m) =>
      if mode == JointConsensus {
        MajoritiesMeet(q, r, voters);
      } else {
        NeighbourMajoritiesMeet(q, r, voters, m.voters);
      }
  }

  /** A joint quorum meets every quorum of the configuration the transition ends in. */
  lemma JointQuorumMeetsTarget(joint: Configuration, q: set<NodeId>, r: set<NodeId>)
    requires joint.Joint?
    requires joint.HasQuorum(q) && joint.TransitionTarget().value.HasQuorum(r)
    ensures q * r != {}
  {
    MajoritiesMeet(q, r, joint.incoming);
  }

  lemma ChangeKeepsSound(change: ConfigChange, current: Configuration, mode: Mode)
    requires current.Sound() && Validate(change, current, mode).None?
    ensures Apply(change, current, mode).Sound()
  {
    match change
    case AddVoter(id) => assert (current.voters + {id}) * (current.learners - {id}) == {};
    case RemoveVoter(id) =>
      var rest := current.voters - {id};
      assert current.voters == rest + {id};
      assert |current.voters| == |rest| + 1;
    case AddLearner(id) => assert current.voters * (current.learners + {id}) == {};
    case RemoveLearner(_) =>
    case SetMembers(_) =>
  }

  // --- What a change asks for ---

  /** Who votes, and who only learns, once the change is through. */
  ghost predicate AskedFor(change: ConfigChange, current: Configuration, members: Members)
    requires current.Simple?
  {
    match change
    case AddVoter(x) =>
      && (forall id :: id in members.voters <==> id == x || id in current.voters)
      && (forall id :: id in members.learners <==> id != x && id in current.learners)
    case RemoveVoter(x) =>
      (forall id :: id in members.voters <==> id != x && id in current.voters) && members.learners == current.learners
    case AddLearner(x) =>
      members.voters == current.voters && (forall id :: id in members.learners <==> id == x || id in current.learners)
    case RemoveLearner(x) =>
      members.voters == current.voters && (forall id :: id in members.learners <==> id != x && id in current.learners)
    case SetMembers(m) => members == m
  }

  /** Where a change ends: at once, or at the end of the joint transition from the old voters that it starts. */
  function EndsIn(next: Configuration): Members {
    if next.Simple? then Members(next.voters, next.learners) else Members(next.incoming, next.learners)
  }

  /** Every change ends in exactly the members it asks for, in either mode; it goes through a joint configuration of the
      old and the new voters exactly when joint consensus is on and the whole voter set is set anew. */
  lemma ChangeReachesAsked(change: ConfigChange, current: Configuration, mode: Mode)
    requires current.Simple?
    ensures var next := Apply(change, current, mode);
      && AskedFor(change, current, EndsIn(next))
      && (next.Joint? <==> mode == JointConsensus && change.SetMembers? && change.members.voters != current.voters)
      && (next.Joint? ==> next.outgoing == current.voters && next.Voters() == current.voters + change.members.voters
                          && next.TransitionTarget() == Some(Simple(change.members.voters, change.members.learners)))
  {
  }

  /** A change asks for other members than now, leaves voters and lets none of them be a learner, promotes only a
      learner, and, without joint consensus, moves at most one voter. */
  predicate Acceptable(change: ConfigChange, current: Configuration, mode: Mode)
    requires current.Simple?
  {
    var asked := EndsIn(Apply(change, current, mode));
    && asked != Members(current.voters, current.learners) && asked.voters != {}
    && asked.voters * asked.learners == {} && (change.AddVoter? ==> change.id in current.learners)
    && (mode == SingleServer && change.SetMembers? ==>
          |asked.voters - current.voters| + |current.voters - asked.voters| <= 1)
  }

  lemma PromotionAccepted(id: NodeId, current: Configuration, mode: Mode)
    requires current.Simple? && current.Sound()
    ensures Validate(AddVoter(id), current, mode).None? <==> Acceptable(AddVoter(id), current, mode)
  {
    var voters, learners := current.voters, current.learners;
    if id in learners {
      assert id !in voters * learners;
      assert (voters + {id}) * (learners - {id}) == {};
      assert id in voters + {id};
    }
  }

  lemma RemovalAccepted(id: NodeId, current: Configuration, mode: Mode)
    requires current.Simple? && current.Sound()
    ensures Validate(RemoveVoter(id), current, mode).None? <==> Acceptable(RemoveVoter(id), current, mode)
  {
    var rest := current.voters - {id};
    assert rest * current.learners == {};
    if id in current.voters {
      assert current.voters == rest + {id} && |current.voters| == |rest| + 1;
    } else {
      assert rest == current.voters;
    }
  }

  lemma LearnerAccepted(id: NodeId, current: Configuration, mode: Mode)
    requires current.Simple? && current.Sound()
    ensures Validate(AddLearner(id), current, mode).None? <==> Acceptable(AddLearner(id), current, mode)
    ensures Validate(RemoveLearner(id), current, mode).None? <==> Acceptable(RemoveLearner(id), current, mode)
  {
    var voters, learners := current.voters, current.learners;
    assert voters * (learners - {id}) == {};
    assert id in learners ==> learners + {id} == learners;
    assert id !in learners ==> learners - {id} == learners && id in learners + {id};
    if id in voters {
      assert id in voters * (learners + {id});
    } else {
      assert voters * (learners + {id}) == {};
    }
  }

  /** From a sound configuration exactly the acceptable changes are accepted. */
  lemma ChangeAcceptedExactly(change: ConfigChange, current: Configuration, mode: Mode)
    requires current.Simple? && current.Sound()
    ensures Validate(change, current, mode).None? <==> Acceptable(change, current, mode)
  {
    hide Acceptable, Validate;
    match change
    case AddVoter(id) => PromotionAccepted(id, current, mode);
    case RemoveVoter(id) => RemovalAccepted(id, current, mode);
    case AddLearner(id) => LearnerAccepted(id, current, mode);
    case RemoveLearner(id) => LearnerAccepted(id, current, mode);
    case SetMembers(members) => MembersAccepted(members, current, mode);
  }

  lemma MembersAccepted(members: Members, current: Configuration, mode: Mode)
    requires current.Simple? && current.Sound()
    ensures Validate(SetMembers(members), current, mode).None? <==> Acceptable(SetMembers(members), current, mode)
  {
  }

  /** With less than half of a voter set down, the rest is a majority. */
  lemma MinorityMayFail(group: set<NodeId>, down: set<NodeId>)
    requires 2 * |group * down| < |group|
    ensures Majority(group - down, group)
  {
    assert group == (group * down) + (group - down);
    assert group * (group - down) == group - down;
  }

  // --- Whole membership histories ---

  /** Consecutive configurations: a validated change, or the end of a joint transition. */
  predicate ConfigStep(mode: Mode, before: Configuration, change: Option<ConfigChange>, after: Configuration) {
    match change
    case Some(c) => Validate(c, before, mode).None? && after == Apply(c, before, mode)
    case None => before.TransitionTarget() == Some(after)
  }

  predicate ConfigHistory(mode: Mode, configs: seq<Configuration>, changes: seq<Option<ConfigChange>>) {
    && |configs| == |changes| + 1
    && forall i :: 0 <= i < |changes| ==> ConfigStep(mode, configs[i], changes[i], configs[i + 1])
  }

  lemma StepKeepsSound(mode: Mode, before: Configuration, change: Option<ConfigChange>, after: Configuration)
    requires before.Sound() && ConfigStep(mode, before, change, after)
    ensures after.Sound()
  {
    hide Validate, Apply;
    if change.Some? {
      ChangeKeepsSound(change.value, before, mode);
    }
  }

  lemma StepQuorumsMeet(mode: Mode, before: Configuration, change: Option<ConfigChange>, after: Configuration,
                        q: set<NodeId>, r: set<NodeId>)
    requires before.Sound() && ConfigStep(mode, before, change, after) && before.HasQuorum(q) && after.HasQuorum(r)
    ensures q * r != {}
  {
    hide Validate, Apply, Configuration.HasQuorum;
    match change
    case Some(c) => QuorumsOverlapAcrossChange(c, before, mode, q, r);
    case None => JointQuorumMeetsTarget(before, q, r);
  }

  /** On every membership history from a sound start, all configurations are sound and neighbours' quorums meet. */
  lemma {:induction false} QuorumsOverlapThroughHistory(mode: Mode, configs: seq<Configuration>,
                                                        changes: seq<Option<ConfigChange>>, i: nat)
    requires ConfigHistory(mode, configs, changes) && configs[0].Sound()
    requires i < |configs|
    ensures configs[i].Sound()
    ensures i + 1 < |configs| ==> forall q, r ::
      configs[i].HasQuorum(q) && configs[i + 1].HasQuorum(r) ==> q * r != {}
  {
    hide ConfigStep, Configuration.Sound, Configuration.HasQuorum;
    if i > 0 {
      QuorumsOverlapThroughHistory(mode, configs, changes, i - 1);
      StepKeepsSound(mode, configs[i - 1], changes[i - 1], configs[i]);
    }
    if i + 1 < |configs| {
      forall q, r | configs[i].HasQuorum(q) && configs[i + 1].HasQuorum(r) ensures q * r != {} {
        StepQuorumsMeet(mode, configs[i], changes[i], configs[i + 1], q, r);
      }
    }
  }
}
