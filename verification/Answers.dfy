/**
 The answers a node collects: votes, pre-votes, read answers and append acknowledgements. Each collection is decided by
 the set of nodes that answered, whatever the order and the repetitions.
 */
module Answers {
  import opened Types
  import opened Membership
  import opened RaftLog
  import opened Messages
  import opened RaftCore
  import opened FollowerRole
  import opened CandidateRoles
  import opened LeaderRole
  import opened RaftNode
  import opened Protocol
  import opened Refinement
  import opened Acknowledgement
  import CommitLoop
  import Duties

  datatype Arrival = Arrival(m: Message, clock: Clock)

  /** The node after the first `k` deliveries. */
  function After(node: Node, arrivals: seq<Arrival>, k: nat): Node
    requires k <= |arrivals|
  {
    if k == 0 then node
    else StepEvent(After(node, arrivals, k - 1), Receive(arrivals[k - 1].m), arrivals[k - 1].clock).0
  }

  /** Who sent an answer that counts, among the first `k`. */
  function Senders(arrivals: seq<Arrival>, counts: Message -> bool, k: nat): set<NodeId>
    requires k <= |arrivals|
  {
    set i | 0 <= i < k && counts(arrivals[i].m) :: arrivals[i].m.from
  }

  lemma SendersGrow(arrivals: seq<Arrival>, counts: Message -> bool, k: nat)
    requires k < |arrivals|
    ensures var m := arrivals[k].m;
      Senders(arrivals, counts, k + 1) == Senders(arrivals, counts, k) + if counts(m) then {m.from} else {}
  {
    var m := arrivals[k].m;
    forall id | id in Senders(arrivals, counts, k) ensures id in Senders(arrivals, counts, k + 1) {
    }
    if counts(m) {
      assert m.from in Senders(arrivals, counts, k + 1);
    }
  }

  lemma MajorityGrows(a: set<NodeId>, b: set<NodeId>, group: set<NodeId>)
    requires Majority(a, group) && a <= b
    ensures Majority(b, group)
  {
    SubsetSize(group * a, group * b);
  }

  lemma QuorumGrows(config: Configuration, a: set<NodeId>, b: set<NodeId>)
    requires config.HasQuorum(a) && a <= b
    ensures config.HasQuorum(b)
  {
    match config
    case Simple(voters, _) => MajorityGrows(a, b, voters);
    case Joint(outgoing, incoming, _) => MajorityGrows(a, b, outgoing); MajorityGrows(a, b, incoming);
  }

  // --- Votes ---

  function Granted(m: Message): bool { m.body == VoteResponse(true) }

  /** Where counting votes has come: the core is untouched, and a quorum leads. */
  predicate VotesStand(core: Core, all: set<NodeId>, node: Node) {
    && node.core == core
    && if core.EffectiveConfig().HasQuorum(all) then node.role.Leader? else node.role == Candidate(all)
  }

  lemma VoteStep(core: Core, all: set<NodeId>, node: Node, m: Message, clock: Clock)
    requires VotesStand(core, all, node) && m.body.VoteResponse? && m.term == core.Term()
    ensures VotesStand(core, all + if Granted(m) then {m.from} else {}, StepEvent(node, Receive(m), clock).0)
  {
    hide Configuration.HasQuorum, Core.EffectiveConfig;
    var more := all + if Granted(m) then {m.from} else {};
    if core.EffectiveConfig().HasQuorum(all) {
      QuorumGrows(core.EffectiveConfig(), all, more);
    } else if !Granted(m) {
      assert more == all;
    }
  }

  /** A candidate that is answered by any nodes, in any order and with repetitions, leads exactly when those that
      granted their vote and those counted before form a quorum; until then it has them all on record. */
  lemma {:induction false} VotesDecide(node: Node, votes: set<NodeId>, arrivals: seq<Arrival>, k: nat)
    requires VotesStand(node.core, votes, node) && k <= |arrivals|
    requires forall i :: 0 <= i < |arrivals| ==>
      arrivals[i].m.body.VoteResponse? && arrivals[i].m.term == node.core.Term()
    ensures VotesStand(node.core, votes + Senders(arrivals, Granted, k), After(node, arrivals, k))
  {
    hide StepEvent, VotesStand;
    if k == 0 {
      assert votes + Senders(arrivals, Granted, 0) == votes;
    } else {
      VotesDecide(node, votes, arrivals, k - 1);
      var all, m := votes + Senders(arrivals, Granted, k - 1), arrivals[k - 1].m;
      VoteStep(node.core, all, After(node, arrivals, k - 1), m, arrivals[k - 1].clock);
      SendersGrow(arrivals, Granted, k - 1);
      assert all + (if Granted(m) then {m.from} else {}) == votes + Senders(arrivals, Granted, k);
    }
  }

  /** An election, from the timeout to its decision: the node takes a new term, asks every other voter with its own last
      index and term, and leads exactly when its vote and those it was granted form a quorum. */
  lemma ElectionDecided(node: Node, clock: Clock, arrivals: seq<Arrival>)
    requires node.role.Follower? && !node.core.settings.prevote && clock.expired && node.core.IsVoter()
    requires forall i :: 0 <= i < |arrivals| ==>
      arrivals[i].m.body.VoteResponse? && arrivals[i].m.term == node.core.Term() + 1
    ensures var (asking, effects) := StepEvent(node, Tick, clock);
      var last, config := node.core.Log(), node.core.EffectiveConfig();
      && asking.core.Term() == node.core.Term() + 1 && asking.core.persistent.votedFor == Some(node.core.Id())
      && asking.core.Log() == last && asking.core.commitIndex == node.core.commitIndex && effects.persist
      && (forall to :: to in config.Voters() && to != node.core.Id() ==>
            Message(node.core.Id(), to, node.core.Term() + 1, VoteRequest(last.LastIndex(), last.LastTerm()))
            in effects.messages)
      && VotesStand(asking.core, {node.core.Id()} + Senders(arrivals, Granted, |arrivals|),
                    After(asking, arrivals, |arrivals|))
  {
    hide After, Senders, Configuration.HasQuorum, NewLeader;
    var asking := StepEvent(node, Tick, clock).0;
    assert asking.core.EffectiveConfig() == node.core.EffectiveConfig();
    VotesDecide(asking, {node.core.Id()}, arrivals, |arrivals|);
  }

  // --- Pre-votes ---

  function PreGranted(term: Term): Message -> bool { (m: Message) => m.body == PreVoteResponse(term, true) }

  /** Where counting pre-votes has come: a quorum campaigns. */
  predicate PreVotesStand(core: Core, all: set<NodeId>, node: Node) {
    if core.EffectiveConfig().HasQuorum(all) then node == BecomeCandidate(core).0
    else node == Node(core, PreCandidate(all))
  }

  lemma LateAnswer(core: Core, m: Message, clock: Clock)
    requires m.body.PreVoteResponse? && m.term == core.Term()
    ensures StepEvent(BecomeCandidate(core).0, Receive(m), clock).0 == BecomeCandidate(core).0
  {
    hide NewLeader;
  }

  lemma PreVoteStep(core: Core, all: set<NodeId>, node: Node, m: Message, clock: Clock)
    requires PreVotesStand(core, all, node)
    requires m.body.PreVoteResponse? && m.body.responderTerm <= core.Term() && m.term == core.Term()
    ensures PreVotesStand(core, all + if PreGranted(core.Term())(m) then {m.from} else {},
                          StepEvent(node, Receive(m), clock).0)
  {
    hide Configuration.HasQuorum, Core.EffectiveConfig, BecomeCandidate;
    var more := all + if PreGranted(core.Term())(m) then {m.from} else {};
    if core.EffectiveConfig().HasQuorum(all) {
      LateAnswer(core, m, clock);
      QuorumGrows(core.EffectiveConfig(), all, more);
    } else if !PreGranted(core.Term())(m) {
      assert more == all;
    }
  }

  /** A pre-candidate answered by nodes that know no higher term starts its campaign exactly when the pre-votes of its
      own term form a quorum; until then it has them all on record. */
  lemma {:induction false} PreVotesDecide(node: Node, preVotes: set<NodeId>, arrivals: seq<Arrival>, k: nat)
    requires PreVotesStand(node.core, preVotes, node) && node.role.PreCandidate? && k <= |arrivals|
    requires forall i :: 0 <= i < |arrivals| ==>
      && arrivals[i].m.body.PreVoteResponse? && arrivals[i].m.body.responderTerm <= node.core.Term()
      && arrivals[i].m.term == node.core.Term()
    ensures PreVotesStand(node.core, preVotes + Senders(arrivals, PreGranted(node.core.Term()), k),
                          After(node, arrivals, k))
  {
    hide StepEvent, PreVotesStand;
    var counts := PreGranted(node.core.Term());
    if k == 0 {
      assert preVotes + Senders(arrivals, counts, 0) == preVotes;
    } else {
      PreVotesDecide(node, preVotes, arrivals, k - 1);
      var all, m := preVotes + Senders(arrivals, counts, k - 1), arrivals[k - 1].m;
      PreVoteStep(node.core, all, After(node, arrivals, k - 1), m, arrivals[k - 1].clock);
      SendersGrow(arrivals, counts, k - 1);
      assert all + (if counts(m) then {m.from} else {}) == preVotes + Senders(arrivals, counts, k);
    }
  }

  // --- Read answers ---

  /** A voter's answer to this round. */
  function Answering(round: PendingRead): Message -> bool {
    (m: Message) => m.body == ReadIndexResponse(round.id, round.readIndex) && round.configuration.IsVoter(m.from)
  }

  /** Where a read round has come: over and confirmed with a quorum, else pending with everyone's answer on record. */
  predicate RoundStands(before: Node, round: PendingRead, acks: set<NodeId>, node: Node)
    requires before.role.Leader?
  {
    var state := before.role.state;
    node == before.(role := Leader(
      if round.configuration.HasQuorum(acks)
      then state.(pending := None, confirmedReadIndex := Max(state.confirmedReadIndex, round.readIndex))
      else state.(pending := Some(round.(acks := acks)))))
  }

  lemma AnswerStep(before: Node, round: PendingRead, acks: set<NodeId>, node: Node, m: Message, clock: Clock)
    requires before.role.Leader? && RoundStands(before, round, acks, node)
    requires m.body.ReadIndexResponse? && m.term == before.core.Term()
    ensures RoundStands(before, round, acks + if Answering(round)(m) then {m.from} else {},
                        StepEvent(node, Receive(m), clock).0)
  {
    hide Configuration.HasQuorum;
    var counted := Answering(round)(m);
    var more := acks + if counted then {m.from} else {};
    if round.configuration.HasQuorum(acks) {
      QuorumGrows(round.configuration, acks, more);
    } else if !counted {
      assert more == acks;
    }
  }

  /** A leader answered by any nodes, in any order and with repetitions, has confirmed the round's index exactly when
      the voters that named its id and index, and those counted before, form a quorum. */
  lemma {:induction false} ReadAnswersDecide(node: Node, arrivals: seq<Arrival>, k: nat)
    requires node.role.Leader? && node.role.state.pending.Some? && k <= |arrivals|
    requires !node.role.state.pending.value.configuration.HasQuorum(node.role.state.pending.value.acks)
    requires forall i :: 0 <= i < |arrivals| ==>
      arrivals[i].m.body.ReadIndexResponse? && arrivals[i].m.term == node.core.Term()
    ensures var round := node.role.state.pending.value;
      RoundStands(node, round, round.acks + Senders(arrivals, Answering(round), k),
                  After(node, arrivals, k))
  {
    hide StepEvent, Configuration.HasQuorum;
    var round := node.role.state.pending.value;
    var counts := Answering(round);
    if k == 0 {
      assert round.acks + Senders(arrivals, counts, 0) == round.acks;
    } else {
      ReadAnswersDecide(node, arrivals, k - 1);
      var acks, m := round.acks + Senders(arrivals, counts, k - 1), arrivals[k - 1].m;
      AnswerStep(node, round, acks, After(node, arrivals, k - 1), m, arrivals[k - 1].clock);
      SendersGrow(arrivals, counts, k - 1);
      assert acks + (if counts(m) then {m.from} else {}) == round.acks + Senders(arrivals, counts, k);
    }
  }

  /** A read, from the request to its decision: every other voter is asked, and the index is confirmed exactly when the
      leader and the voters that answered form a quorum of the configuration at the request. */
  lemma ReadDecided(node: Node, arrivals: seq<Arrival>)
    requires NodeReadIndex(node).Ok?
    requires forall i :: 0 <= i < |arrivals| ==>
      arrivals[i].m.body.ReadIndexResponse? && arrivals[i].m.term == node.core.Term()
    ensures var (index, asking, effects) := NodeReadIndex(node).value;
      var config, me := node.core.EffectiveConfig(), node.core.Id();
      var round := PendingRead(node.role.state.nextReadId, index, config, {me});
      var acks := {me} + Senders(arrivals, Answering(round), |arrivals|);
      var after := After(asking, arrivals, |arrivals|);
      && after.role.Leader? && after.core == node.core
      && (!config.HasQuorum({me}) ==> forall to :: to in config.Voters() && to != me ==>
            Message(me, to, node.core.Term(), ReadIndexRequest(round.id, index)) in effects.messages)
      && (if config.HasQuorum(acks)
          then after.role.state.pending.None? && after.role.state.confirmedReadIndex >= index
          else after.role.state.pending == Some(round.(acks := acks)))
  {
    hide StepEvent, Configuration.HasQuorum, Core.EffectiveConfig, CurrentTermCommit;
    var (index, asking, effects) := NodeReadIndex(node).value;
    var config, me := node.core.EffectiveConfig(), node.core.Id();
    if asking.role.state.pending.Some? {
      ReadAnswersDecide(asking, arrivals, |arrivals|);
    } else {
      LateAnswers(asking, arrivals, |arrivals|);
      var round := PendingRead(node.role.state.nextReadId, index, config, {me});
      QuorumGrows(config, {me}, {me} + Senders(arrivals, Answering(round), |arrivals|));
    }
  }

  lemma AnswerIgnored(node: Node, m: Message, clock: Clock)
    requires node.role.Leader? && node.role.state.pending.None?
    requires m.body.ReadIndexResponse? && m.term == node.core.Term()
    ensures StepEvent(node, Receive(m), clock).0 == node
  {
  }

  lemma {:induction false} LateAnswers(node: Node, arrivals: seq<Arrival>, k: nat)
    requires node.role.Leader? && node.role.state.pending.None? && k <= |arrivals|
    requires forall i :: 0 <= i < |arrivals| ==>
      arrivals[i].m.body.ReadIndexResponse? && arrivals[i].m.term == node.core.Term()
    ensures After(node, arrivals, k) == node
  {
    hide StepEvent;
    if k > 0 {
      LateAnswers(node, arrivals, k - 1);
      AnswerIgnored(node, arrivals[k - 1].m, arrivals[k - 1].clock);
    }
  }

  // --- Append acknowledgements ---

  function Any(m: Message): bool { true }

  /** Where counting acknowledgements of index `i` has come: exactly those nodes are known to hold it, and it is
      committed exactly with a majority of them. */
  predicate AcksStand(voters: set<NodeId>, before: Node, i: LogIndex, holders: set<NodeId>, node: Node) {
    && node.role.Leader? && node.core == before.core.(commitIndex := node.core.commitIndex)
    && (forall p :: p in voters ==> (node.role.state.Match(p) >= i <==> p in holders))
    && (node.core.commitIndex >= i <==> Majority(holders, voters))
  }

  lemma HoldersCounted(voters: set<NodeId>, holders: set<NodeId>, held: set<NodeId>)
    requires forall p :: p in voters ==> (p in held <==> p in holders)
    ensures Majority(held, voters) <==> Majority(holders, voters)
  {
    assert voters * held == voters * holders;
  }

  /** The commit pass reaches an own-term index exactly when a majority holds it. */
  lemma PassReaches(voters: set<NodeId>, n: NodeId, core: Core, state: LeaderState, i: LogIndex, holders: set<NodeId>)
    requires CoreShape(voters, n, core) && CommandLog(core.Log().entries)
    requires 1 <= i <= |core.Log().entries| && core.Log().entries[i - 1].term == core.Term()
    requires forall p :: p in voters ==> (state.Match(p) >= i <==> p in holders)
    requires core.commitIndex >= i ==> Majority(holders, voters)
    ensures AdvanceCommit(core, state).commitIndex >= i <==> Majority(holders, voters)
  {
    hide AdvanceCommit, Majority, CommandLog;
    FixedConfig(voters, n, core);
    PlainLog(core.Log().entries);
    OnePass(voters, n, core, state);
    HoldersCounted(voters, holders, set p | p in voters && state.Match(p) >= i);
    var commit := AdvanceCommit(core, state).commitIndex;
    if core.commitIndex < i {
      if Majority(holders, voters) {
        CommitLoop.PassIsMaximal(core, state, i);
      } else if commit >= i {
        MajorityGrows((set p | p in voters && state.Match(p) >= commit), (set p | p in voters && state.Match(p) >= i),
                      voters);
      }
    } else {
      CommitTargetBounds(core, state, core.Log().LastIndex());
    }
  }

  lemma AckStep(voters: set<NodeId>, n: NodeId, before: Node, i: LogIndex, holders: set<NodeId>, node: Node, m: Message,
                clock: Clock)
    requires Ready(voters, n, before) && AcksStand(voters, before, i, holders, node)
    requires 1 <= i <= |before.core.Log().entries| && before.core.Log().entries[i - 1].term == before.core.Term()
    requires m.term == before.core.Term() && m.from in voters
    requires m.body.AppendResponse? && m.body.success && m.body.lastIndex >= i
    ensures AcksStand(voters, before, i, holders + {m.from}, StepEvent(node, Receive(m), clock).0)
  {
    hide MaybeCommit, AdvanceCommit, CommandLog, Majority;
    var acked := node.role.state.(matchIndex := node.role.state.matchIndex[m.from := m.body.lastIndex]);
    var moved := if node.core.settings.pipelining then acked
                 else acked.(nextIndex := acked.nextIndex[m.from := m.body.lastIndex + 1]);
    FixedConfig(voters, n, node.core);
    OnePass(voters, n, node.core, moved);
    if Majority(holders, voters) {
      MajorityGrows(holders, holders + {m.from}, voters);
    }
    PassReaches(voters, n, node.core, moved, i, holders + {m.from});
  }

  /** A leader that alone is known to hold an entry of its term, acknowledged by any voters that hold it too, in any
      order and with repetitions, has committed it exactly when they and itself are a majority. */
  lemma {:induction false} AcksDecide(voters: set<NodeId>, n: NodeId, node: Node, i: LogIndex, arrivals: seq<Arrival>,
                                      k: nat)
    requires Ready(voters, n, node) && AcksStand(voters, node, i, {n}, node) && k <= |arrivals|
    requires 1 <= i <= |node.core.Log().entries| && node.core.Log().entries[i - 1].term == node.core.Term()
    requires forall j :: 0 <= j < |arrivals| ==>
      && arrivals[j].m.body.AppendResponse? && arrivals[j].m.body.success && arrivals[j].m.body.lastIndex >= i
      && arrivals[j].m.term == node.core.Term() && arrivals[j].m.from in voters
    ensures AcksStand(voters, node, i, {n} + Senders(arrivals, Any, k), After(node, arrivals, k))
  {
    hide StepEvent, AcksStand, Ready;
    if k == 0 {
      assert {n} + Senders(arrivals, Any, 0) == {n};
    } else {
      AcksDecide(voters, n, node, i, arrivals, k - 1);
      var holders, m := {n} + Senders(arrivals, Any, k - 1), arrivals[k - 1].m;
      AckStep(voters, n, node, i, holders, After(node, arrivals, k - 1), m, arrivals[k - 1].clock);
      SendersGrow(arrivals, Any, k - 1);
      assert holders + {m.from} == {n} + Senders(arrivals, Any, k);
    }
  }

  // --- Refusals ---

  lemma RefusalHandled(node: Node, m: Message, clock: Clock, next: LogIndex)
    requires node.role.Leader? && m.body.AppendResponse? && !m.body.success && m.term == node.core.Term()
    requires node.core.EffectiveConfig().IsMember(m.from)
    requires next == if node.core.settings.pipelining
                     then Max(m.body.lastIndex + 1, node.role.state.Match(m.from) + 1) else m.body.lastIndex + 1
    ensures StepEvent(node, Receive(m), clock).1.messages == AppendFor(node.core, next, m.from).messages
  {
    hide AppendFor, NextAfterSend, MaybeCommit, Core.EffectiveConfig;
    var sent := AppendFor(node.core, next, m.from);
    Duties.MergeNothing(sent);
  }

  /** A refusal makes the leader send at once what follows the hint, or what is known to be held when pipelining. */
  lemma RefusalRetries(voters: set<NodeId>, n: NodeId, node: Node, m: Message, clock: Clock)
    requires Ready(voters, n, node) && node.role.Leader? && m.from in voters && m.from != n
    requires m.body.AppendResponse? && !m.body.success && m.term == node.core.Term()
    ensures var log, hint := node.core.Log().entries, m.body.lastIndex;
      var prev := if node.core.settings.pipelining then Max(hint, node.role.state.Match(m.from)) else hint;
      var entries := if prev < |log| then log[prev..Min(prev + 1 + node.core.settings.maxEntriesPerMsg, |log|)] else [];
      StepEvent(node, Receive(m), clock).1.messages
      == {Message(n, m.from, node.core.Term(),
                  AppendRequest(prev, FullTermAt(log, prev), entries, node.core.commitIndex))}
  {
    hide CommandLog, StepEvent, AppendFor, NextAfterSend, Core.EffectiveConfig, Represents, Duties.Due, FullTermAt;
    var log, hint := node.core.Log().entries, m.body.lastIndex;
    var prev := if node.core.settings.pipelining then Max(hint, node.role.state.Match(m.from)) else hint;
    FixedConfig(voters, n, node.core);
    PlainLog(log);
    RefusalHandled(node, m, clock, prev + 1);
    Duties.ServedWith(node.core, log, prev + 1, m.from);
    DueAfter(node.core, log, prev, m.from);
  }

  lemma DueAfter(core: Core, log: seq<Entry>, prev: LogIndex, to: NodeId)
    ensures Duties.Due(core, log, prev + 1, to) == Message(core.Id(), to, core.Term(), AppendRequest(prev,
      FullTermAt(log, prev),
      if prev < |log| then log[prev..Min(prev + 1 + core.settings.maxEntriesPerMsg, |log|)] else [], core.commitIndex))
  {
  }

  /** The follower that refused accepts a retry from its own last index exactly when its log is a prefix of the
      leader's. */
  lemma RetryAccepted(log: seq<Entry>, lead: seq<Entry>)
    requires Matching(log, lead) && forall i :: 0 <= i < |log| ==> log[i].term >= 1
    ensures Consistent(log, |log|, FullTermAt(lead, |log|)) <==> log <= lead
  {
    if log != [] && |log| <= |lead| && log[|log| - 1].term == lead[|log| - 1].term {
      assert TermsAgree(log, lead, |log| - 1);
      assert log[..|log|] == log;
    }
  }

  /** The request that follows a refusal with the end of `log` as its hint. */
  function Retry(n: NodeId, p: NodeId, leader: Core, length: nat): Message {
    var lead, max := leader.Log().entries, leader.settings.maxEntriesPerMsg;
    Message(n, p, leader.Term(), AppendRequest(length, FullTermAt(lead, length),
      if length < |lead| then lead[length..Min(length + 1 + max, |lead|)] else [], leader.commitIndex))
  }

  lemma RetryAbsorbed(log: seq<Entry>, n: NodeId, p: NodeId, leader: Core)
    requires CommandLog(log) && CommandLog(leader.Log().entries) && log <= leader.Log().entries
    requires Matching(log, leader.Log().entries)
    ensures var lead := leader.Log().entries;
      AbsorbAll(Plain(log), Retry(n, p, leader, |log|).body.entries)
      == Plain(lead[..Min(|log| + 1 + leader.settings.maxEntriesPerMsg, |lead|)])
  {
    hide AbsorbAll, CommandLog;
    var m := Retry(n, p, leader, |log|);
    TermsPositive(log);
    RetryAccepted(log, leader.Log().entries);
    AcceptedLog(log, leader.Log().entries, |log|, m.body.prevLogTerm, m.body.entries);
    assert log == leader.Log().entries[..|log|];
  }

  lemma RetryHandled(voters: set<NodeId>, n: NodeId, p: NodeId, leader: Core, follower: Node, clock: Clock)
    requires CommandLog(leader.Log().entries) && Ready(voters, p, follower) && follower.role.Follower?
    requires leader.Term() == follower.core.Term() && Matching(follower.core.Log().entries, leader.Log().entries)
    ensures var log, lead := follower.core.Log().entries, leader.Log().entries;
      var (after, reply) := StepEvent(follower, Receive(Retry(n, p, leader, |log|)), clock);
      if log <= lead then
        var end := Min(|log| + 1 + leader.settings.maxEntriesPerMsg, |lead|);
        && after.core.Log() == Plain(lead[..end])
        && reply.messages == {Message(p, n, leader.Term(), AppendResponse(true, end))}
      else
        after.core == follower.core && reply.messages == {Message(p, n, leader.Term(), AppendResponse(false, |log|))}
  {
    hide AbsorbAll, CommandLog, Appended, Matching;
    var log, lead := follower.core.Log().entries, leader.Log().entries;
    var retry := Retry(n, p, leader, |log|);
    PlainLog(log);
    PlainLog(lead);
    TermsPositive(log);
    RetryAccepted(log, lead);
    if log <= lead {
      RetryAbsorbed(log, n, p, leader);
      Duties.AcceptedCommit(follower, retry, clock);
      PlainEnd(lead, Min(|log| + 1 + leader.settings.maxEntriesPerMsg, |lead|));
    } else {
      Duties.InconsistentRefused(follower, retry, clock);
    }
  }

  lemma TermsPositive(log: seq<Entry>)
    requires CommandLog(log)
    ensures forall i :: 0 <= i < |log| ==> log[i].term >= 1
  {
  }

  lemma PlainEnd(lead: seq<Entry>, end: nat)
    requires CommandLog(lead) && end <= |lead|
    ensures Plain(lead[..end]).LastIndex() == end
  {
  }

  /** Log repair, one round trip: a follower that refused for its last index is at once sent what follows it. If its log
      is a prefix of the leader's it takes that in; otherwise it refuses with the same words, so that repair does not
      converge. */
  lemma RepairRound(voters: set<NodeId>, n: NodeId, p: NodeId, leader: Node, follower: Node, clock: Clock,
                    clock': Clock)
    requires Ready(voters, n, leader) && leader.role.Leader? && Ready(voters, p, follower) && follower.role.Follower?
    requires n != p && leader.core.Term() == follower.core.Term()
    requires Matching(follower.core.Log().entries, leader.core.Log().entries)
    requires leader.role.state.Match(p) <= |follower.core.Log().entries|
    ensures var log, lead := follower.core.Log().entries, leader.core.Log().entries;
      var refusal := Message(p, n, leader.core.Term(), AppendResponse(false, |log|));
      var retry := Retry(n, p, leader.core, |log|);
      && StepEvent(leader, Receive(refusal), clock).1.messages == {retry}
      && var (after, reply) := StepEvent(follower, Receive(retry), clock');
         if log <= lead then
           var end := Min(|log| + 1 + leader.core.settings.maxEntriesPerMsg, |lead|);
           && after.core.Log() == Plain(lead[..end])
           && reply.messages == {Message(p, n, leader.core.Term(), AppendResponse(true, end))}
         else after.core == follower.core && reply.messages == {refusal}
  {
    hide StepEvent, Matching, CommandLog;
    var refusal := Message(p, n, leader.core.Term(), AppendResponse(false, |follower.core.Log().entries|));
    RefusalRetries(voters, n, leader, refusal, clock);
    RetryHandled(voters, n, p, leader.core, follower, clock');
  }
}
