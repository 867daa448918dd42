/**
 The node program stays within the protocol: with a fixed voter set, no snapshots and no parallel
 disk write, every operation of a node is one protocol step.
 */
module Refinement {
  import opened Types
  import opened Membership
  import opened RaftLog
  import opened Messages
  import opened RaftCore
  import opened FollowerRole
  import opened CandidateRoles
  import opened LeaderRole
  import opened RaftNode
  import opened Protocol

  function Plain(log: seq<Entry>): Log { Log(log, 0, 0, None) }

  function AbsRound(pending: Option<PendingRead>): Option<Round> {
    match pending
    case None => None
    case Some(p) => Some(Round(p.id, p.readIndex, p.acks))
  }

  function AbsRole(role: Role): Position {
    match role
    case Candidate(votes) => Campaigning(votes)
    case Leader(state) => Leading(state.matchIndex, state.nextReadId, AbsRound(state.pending), state.confirmedReadIndex)
    case _ => Passive
  }

  function AbsCore(core: Core, role: Position): Peer {
    Peer(core.Term(), core.persistent.votedFor, core.Log().entries, core.commitIndex, role)
  }

  function Abs(node: Node): Peer { AbsCore(node.core, AbsRole(node.role)) }

  predicate CommandLog(log: seq<Entry>) {
    Numbered(log) && forall i :: 0 <= i < |log| ==> log[i].term >= 1 && log[i].payload.Command?
  }

  /** The shape every node of a fixed-configuration cluster keeps. */
  predicate CoreShape(voters: set<NodeId>, n: NodeId, core: Core) {
    && core.settings.id == n && n in voters && !core.settings.parallelDiskWrite
    && core.persistent.bootstrap == Simple(voters, {})
    && core.Log() == Plain(core.Log().entries)
  }

  predicate RoleShape(voters: set<NodeId>, role: Role) {
    role.Leader? ==>
      && (forall id :: id in role.state.nextIndex ==> role.state.nextIndex[id] >= 1)
      && (role.state.pending.Some? ==> role.state.pending.value.configuration == Simple(voters, {}))
  }

  predicate Shape(voters: set<NodeId>, n: NodeId, node: Node) {
    CoreShape(voters, n, node.core) && RoleShape(voters, node.role)
  }

  predicate Ready(voters: set<NodeId>, n: NodeId, node: Node) {
    && Shape(voters, n, node) && CommandLog(node.core.Log().entries)
    && (!Abs(node).role.Passive? ==> node.core.persistent.votedFor == Some(n))
  }

  // --- Plain logs ---

  lemma {:induction false} NoConfig(log: seq<Entry>)
    requires forall i :: 0 <= i < |log| ==> log[i].payload.Command?
    ensures LatestConfig(log).None?
  {
    if log != [] {
      NoConfig(log[..|log| - 1]);
    }
  }

  lemma PlainLog(log: seq<Entry>)
    requires CommandLog(log)
    ensures Represents(Plain(log), log)
    ensures Plain(log).LastIndex() == |log| && Plain(log).LastTerm() == LastTermOf(log)
    ensures forall i: nat :: Plain(log).TermAt(i) == FullTermAt(log, i)
    ensures Plain(log).ConfigAt(|log|).None?
  {
    assert log[..0] == [];
    NoConfig(log);
    assert log[..|log|] == log;
  }

  lemma FixedConfig(voters: set<NodeId>, n: NodeId, core: Core)
    requires CoreShape(voters, n, core) && CommandLog(core.Log().entries)
    ensures core.EffectiveConfig() == Simple(voters, {})
  {
    PlainLog(core.Log().entries);
  }

  // --- The append loop ---

  /** Taking in the leader's entry at `m` turns its first `m - 1` entries into its first `m`. */
  lemma AbsorbOne(log: seq<Entry>, lead: seq<Entry>, m: nat, entry: Entry)
    requires CommandLog(log) && Numbered(lead) && Matching(log, lead)
    requires 0 < m <= |lead| && entry == lead[m - 1]
    ensures Absorb(Plain(Adopt(log, lead[..m - 1])), entry) == Plain(Adopt(log, lead[..m]))
  {
    assert lead[..m] == lead[..m - 1] + [lead[m - 1]];
    if lead[..m - 1] <= log && |log| >= m {
      if TermsAgree(log, lead, m - 1) {
        assert log[..m] == lead[..m];
      } else {
        assert log[..m - 1] == lead[..m - 1];
      }
    }
  }

  /** The loop, one entry further. */
  lemma AbsorbNext(log: Log, entries: seq<Entry>, k: nat, mid: Log, after: Log)
    requires 0 < k <= |entries|
    requires AbsorbFirst(log, entries, k - 1) == mid && Absorb(mid, entries[k - 1]) == after
    ensures AbsorbFirst(log, entries, k) == after
  {
  }

  lemma AdoptHeld(log: seq<Entry>, lead: seq<Entry>, m: nat)
    requires m <= |lead| && lead[..m] <= log
    ensures Adopt(log, lead[..m]) == log
  {
  }

  /** The follower's append loop: keep the log if it already holds the leader's prefix, else adopt that prefix. */
  lemma {:induction false} AbsorbAdopts(log: seq<Entry>, lead: seq<Entry>, prev: nat, entries: seq<Entry>, k: nat)
    requires CommandLog(log) && CutFrom(log, lead, prev, entries) && k <= |entries|
    ensures AbsorbFirst(Plain(log), entries, k) == Plain(Adopt(log, lead[..prev + k]))
  {
    hide Matching, Adopt, Plain, Absorb;
    if k == 0 {
      AdoptHeld(log, lead, prev);
    } else {
      AbsorbAdopts(log, lead, prev, entries, k - 1);
      AbsorbOne(log, lead, prev + k, entries[k - 1]);
      AbsorbNext(Plain(log), entries, k, Plain(Adopt(log, lead[..prev + k - 1])), Plain(Adopt(log, lead[..prev + k])));
    }
  }

  /** Commands numbered consecutively after `prev`. */
  predicate Consecutive(prev: LogIndex, entries: seq<Entry>) {
    forall i :: 0 <= i < |entries| ==>
      entries[i].index == prev + 1 + i && entries[i].term >= 1 && entries[i].payload.Command?
  }

  lemma AbsorbStaysPlain(log: seq<Entry>, entry: Entry)
    requires CommandLog(log) && 1 <= entry.index <= |log| + 1 && entry.term >= 1 && entry.payload.Command?
    ensures var after := Absorb(Plain(log), entry);
      after == Plain(after.entries) && CommandLog(after.entries) && |after.entries| >= entry.index
  {
  }

  lemma {:induction false} LoopStaysPlain(log: seq<Entry>, prev: LogIndex, entries: seq<Entry>, k: nat)
    requires CommandLog(log) && Consecutive(prev, entries) && (entries == [] || prev <= |log|) && k <= |entries|
    ensures var after := AbsorbFirst(Plain(log), entries, k);
      && after == Plain(after.entries) && CommandLog(after.entries)
      && (entries == [] || |after.entries| >= prev + k)
  {
    if k > 0 {
      LoopStaysPlain(log, prev, entries, k - 1);
      AbsorbStaysPlain(AbsorbFirst(Plain(log), entries, k - 1).entries, entries[k - 1]);
    }
  }

  lemma LoopAbsorbs(log: seq<Entry>, prev: LogIndex, entries: seq<Entry>)
    requires CommandLog(log)
    ensures Absorbs(log, prev, entries, AbsorbAll(Plain(log), entries).entries)
  {
    forall lead | CutFrom(log, lead, prev, entries)
      ensures AbsorbAll(Plain(log), entries).entries == Adopt(log, lead[..prev + |entries|])
    {
      AbsorbAdopts(log, lead, prev, entries, |entries|);
    }
  }

  // --- Step patterns ---

  /** What a node hands over: the abstract step, and the shape it leaves behind. */
  ghost predicate Refines(voters: set<NodeId>, n: NodeId, s: Peer, e: Input, after: Node, effects: Effects) {
    && LocalStep(voters, n, s, e, Abs(after), effects.messages)
    && Shape(voters, n, after) && effects.snapshots == {}
  }

  /** Log and commit stay; the vote goes only with the term; the role is given up or unchanged. */
  predicate Quiet(n: NodeId, s: Peer, s': Peer) {
    && s'.log == s.log && s'.commit == s.commit
    && (s' == s || (s'.role.Passive? && s'.term >= s.term && s'.vote == if s'.term == s.term then s.vote else None))
    && (!s'.role.Passive? ==> s'.vote == Some(n))
  }

  lemma QuietStep(voters: set<NodeId>, n: NodeId, s: Peer, e: Input, s': Peer, sent: set<Message>)
    requires Quiet(n, s, s') && forall m :: m in sent ==> SendRule(n, s, e, s', m)
    ensures LocalStep(voters, n, s, e, s', sent)
  {
  }

  lemma EntriesForPlain(log: seq<Entry>, core: Core, next: LogIndex)
    requires CommandLog(log) && core.Log() == Plain(log) && next >= 1
    ensures EntriesFor(core, next) ==
      if next <= |log| then log[next - 1..Min(next + core.settings.maxEntriesPerMsg, |log|)] else []
  {
    PlainLog(log);
    SliceAgrees(Plain(log), log, next, Min(next + core.settings.maxEntriesPerMsg, |log| + 1));
  }

  /** What a leader sends is a slice of its log right after the previous index it names. */
  lemma EntriesForSlice(log: seq<Entry>, core: Core, next: LogIndex)
    requires CommandLog(log) && core.Log() == Plain(log) && next >= 1
    ensures SliceOf(log, next - 1, PrevTerm(core.Log(), next - 1), EntriesFor(core, next))
    ensures NextAfterSend(core, next) >= 1
  {
    PlainLog(log);
    EntriesForPlain(log, core, next);
  }

  /** A leader's message to a peer carries its term, its commit index and a slice of its log. */
  predicate Replicates(n: NodeId, term: Term, log: seq<Entry>, commit: LogIndex, m: Message) {
    && m.from == n && m.to != n && m.term == term && m.body.AppendRequest?
    && SliceOf(log, m.body.prevLogIndex, m.body.prevLogTerm, m.body.entries)
    && m.body.leaderCommit == commit
  }

  lemma AppendForSlices(voters: set<NodeId>, n: NodeId, core: Core, next: LogIndex, to: NodeId)
    requires CoreShape(voters, n, core) && CommandLog(core.Log().entries) && next >= 1 && to != n
    ensures AppendFor(core, next, to).snapshots == {}
    ensures forall m :: m in AppendFor(core, next, to).messages ==>
      Replicates(n, core.Term(), core.Log().entries, core.commitIndex, m)
    ensures NextAfterSend(core, next) >= 1
  {
    EntriesForSlice(core.Log().entries, core, next);
  }

  /** A broadcast sends slices of the leader's log and keeps next indices positive. */
  lemma BroadcastSlices(voters: set<NodeId>, n: NodeId, core: Core, state: LeaderState)
    requires CoreShape(voters, n, core) && CommandLog(core.Log().entries) && RoleShape(voters, Leader(state))
    ensures RoleShape(voters, Leader(Broadcast(core, state).0))
    ensures Broadcast(core, state).0 == state.(nextIndex := Broadcast(core, state).0.nextIndex)
    ensures Broadcast(core, state).1.snapshots == {} && !Broadcast(core, state).1.persist
    ensures forall m :: m in Broadcast(core, state).1.messages ==>
      Replicates(n, core.Term(), core.Log().entries, core.commitIndex, m)
  {
    forall to | to != n {
      AppendForSlices(voters, n, core, state.Next(to), to);
    }
  }

  lemma LeaderSends(n: NodeId, s: Peer, e: Input, s': Peer, m: Message)
    requires s'.role.Leading? && Replicates(n, s'.term, s'.log, s'.commit, m)
    ensures SendRule(n, s, e, s', m)
  {
  }

  lemma CampaignSends(voters: set<NodeId>, n: NodeId, s: Peer, e: Input, core: Core, s': Peer, m: Message)
    requires CoreShape(voters, n, core) && CommandLog(s.log) && core.Log().entries == s.log
    requires SelfVote(n, s, s') && s'.log == s.log && s'.term == core.Term()
    requires m in AskAll(core, VoteRequest(core.Log().LastIndex(), core.Log().LastTerm())).messages
    ensures SendRule(n, s, e, s', m)
  {
    PlainLog(s.log);
  }

  /** Campaigning from a core that has only advanced its term. */
  lemma CampaignRefines(voters: set<NodeId>, n: NodeId, s: Peer, e: Input, core: Core)
    requires CoreShape(voters, n, core) && CommandLog(core.Log().entries)
    requires core.Log().entries == s.log && core.commitIndex == s.commit && core.Term() >= s.term
    ensures Refines(voters, n, s, e, BecomeCandidate(core).0, BecomeCandidate(core).1)
  {
    hide SendRule, Replicates, NewLeader;
    var after := core.StartElection();
    FixedConfig(voters, n, core);
    FixedConfig(voters, n, after);
    var s' := Abs(BecomeCandidate(core).0);
    forall m | m in AskAll(after, VoteRequest(after.Log().LastIndex(), after.Log().LastTerm())).messages
      ensures SendRule(n, s, e, s', m)
    {
      CampaignSends(voters, n, s, e, after, s', m);
    }
    if Majority({n}, voters) {
      FreshLeader(voters, n, after);
      forall m | m in NewLeader(after).1.messages ensures SendRule(n, s, e, s', m) {
        LeaderSends(n, s, e, s', m);
      }
      assert forall id :: MatchedOf(s'.role, id) == NewLeader(after).0.Match(id);
    }
  }

  /** A new leader counts only itself. */
  lemma FreshLeader(voters: set<NodeId>, n: NodeId, core: Core)
    requires CoreShape(voters, n, core) && CommandLog(core.Log().entries)
    ensures var (state, effects) := NewLeader(core);
      && RoleShape(voters, Leader(state)) && effects.snapshots == {} && !effects.persist
      && state.pending.None? && state.nextReadId == 1 && state.confirmedReadIndex == 0
      && (forall id :: state.Match(id) == if id == n then |core.Log().entries| else 0)
      && (forall m :: m in effects.messages ==>
            Replicates(n, core.Term(), core.Log().entries, core.commitIndex, m))
  {
    PlainLog(core.Log().entries);
    BroadcastSlices(voters, n, core, FreshProgress(core));
  }

  /** The leader's commit search moves the commit index by the protocol's rule. */
  lemma {:induction false} CommitSearch(core: Core, state: LeaderState, index: LogIndex)
    ensures var target := CommitTarget(core, state, index);
      target == core.commitIndex
      || (core.commitIndex < target <= index && Committable(core, state, target))
  {
    if index > core.commitIndex && !Committable(core, state, index) {
      CommitSearch(core, state, index - 1);
    }
  }

  lemma {:induction false} NoCommittedConfig(core: Core, from: LogIndex, upTo: LogIndex)
    requires forall i :: 0 <= i < |core.Log().entries| ==> core.Log().entries[i].payload.Command?
    ensures CommittedConfig(core, from, upTo).Done?
    decreases upTo - from
  {
    if from < upTo {
      NoCommittedConfig(core, from + 1, upTo);
    }
  }

  /** Without configuration entries the commit loop makes one pass. */
  lemma OnePass(voters: set<NodeId>, n: NodeId, core: Core, state: LeaderState)
    requires CoreShape(voters, n, core) && CommandLog(core.Log().entries)
    ensures MaybeCommit(core, state) == CommitResult(AdvanceCommit(core, state), state, NOTHING, false)
    ensures AdvanceCommit(core, state) == core.(commitIndex := AdvanceCommit(core, state).commitIndex)
    ensures var commit := AdvanceCommit(core, state).commitIndex;
      commit == core.commitIndex
      || (&& core.commitIndex < commit <= |core.Log().entries| && core.Log().entries[commit - 1].term == core.Term()
          && Majority((set id | id in voters && state.Match(id) >= commit), voters))
  {
    var advanced := AdvanceCommit(core, state);
    NoCommittedConfig(advanced, core.commitIndex, advanced.commitIndex);
    PlainLog(core.Log().entries);
    FixedConfig(voters, n, core);
    CommitSearch(core, state, core.Log().LastIndex());
  }

  // --- Roles ---

  /** Messages the network may hand a node of this cluster. */
  predicate Fits(n: NodeId, m: Message) {
    && m.to == n && m.from != n && !m.body.InstallSnapshotRequest? && !m.body.InstallSnapshotResponse?
    && (m.body.AppendRequest? ==>
          && Consecutive(m.body.prevLogIndex, m.body.entries)
          && (m.body.entries != [] && m.body.prevLogIndex > 0 ==> m.body.prevLogTerm >= 1))
  }

  /** The node's handling of the message is a protocol step. */
  ghost predicate Handles(voters: set<NodeId>, n: NodeId, node: Node, m: Message, clock: Clock) {
    var (after, effects) := StepEvent(node, Receive(m), clock);
    Refines(voters, n, Abs(node), Recv(m), after, effects)
  }

  /** The core after at most a term update. */
  predicate Adopted(voters: set<NodeId>, n: NodeId, s: Peer, core: Core) {
    && CoreShape(voters, n, core) && CommandLog(s.log)
    && core.Log().entries == s.log && core.commitIndex == s.commit && core.Term() >= s.term
    && core.persistent.votedFor == if core.Term() == s.term then s.vote else None
  }

  /** Asking for pre-votes changes nothing. */
  lemma PreCampaignRefines(voters: set<NodeId>, n: NodeId, s: Peer, e: Input, core: Core)
    requires Adopted(voters, n, s, core)
    ensures var (preVotes, asked) := NewPreCandidate(core);
      Refines(voters, n, s, e, Node(core, PreCandidate(preVotes)), asked)
  {
    FixedConfig(voters, n, core);
    var (preVotes, asked) := NewPreCandidate(core);
    QuietStep(voters, n, s, e, AbsCore(core, Passive), asked.messages);
  }

  /** Sending more that is allowed keeps a step a step. */
  lemma MoreSends(voters: set<NodeId>, n: NodeId, s: Peer, e: Input, s': Peer, sent: set<Message>, more: set<Message>)
    requires LocalStep(voters, n, s, e, s', sent) && forall m :: m in more ==> SendRule(n, s, e, s', m)
    ensures LocalStep(voters, n, s, e, s', more + sent)
  {
    hide ElectStep, FreshRule, MatchRule, ReadRule, SendRule, Accepts, LeaderCommits;
    if Acks(sent) {
      assert Acks(more + sent);
    }
  }

  /** A pre-candidate that is a quorum by itself campaigns at once. */
  lemma LonePreCandidate(voters: set<NodeId>, n: NodeId, s: Peer, e: Input, core: Core)
    requires Adopted(voters, n, s, core)
    ensures var (node, effects) := BecomeCandidate(core);
      Refines(voters, n, s, e, node, NewPreCandidate(core).1.Merge(effects))
  {
    hide BecomeCandidate, LocalStep;
    FixedConfig(voters, n, core);
    CampaignRefines(voters, n, s, e, core);
    var (node, effects) := BecomeCandidate(core);
    MoreSends(voters, n, s, e, Abs(node), effects.messages, NewPreCandidate(core).1.messages);
  }

  lemma TransitionRefines(voters: set<NodeId>, n: NodeId, s: Peer, e: Input, core: Core, role: Role, to: Transition)
    requires Adopted(voters, n, s, core) && !to.Stay? && !to.ToLeader?
    ensures Refines(voters, n, s, e, ApplyTransition(core, role, to).0, ApplyTransition(core, role, to).1)
  {
    hide BecomeCandidate, LocalStep, NewPreCandidate;
    match to
    case ToFollower(leader) => QuietStep(voters, n, s, e, AbsCore(core, Passive), {});
    case ToCandidate => CampaignRefines(voters, n, s, e, core);
    case ToPreCandidate =>
      PreCampaignRefines(voters, n, s, e, core);
      LonePreCandidate(voters, n, s, e, core);
  }

  /** A step that stays in its role: the abstract step is judged on what the role left behind. */
  lemma StayRefines(voters: set<NodeId>, n: NodeId, node: Node, e: Input, event: Event, clock: Clock)
    requires RoleStep(node, event, clock).transition.Stay?
    requires var r := RoleStep(node, event, clock);
      && LocalStep(voters, n, Abs(node), e, AbsCore(r.core, AbsRole(r.role)), r.effects.messages)
      && CoreShape(voters, n, r.core) && RoleShape(voters, r.role) && r.effects.snapshots == {}
    ensures Refines(voters, n, Abs(node), e, StepEvent(node, event, clock).0, StepEvent(node, event, clock).1)
  {
    var r := RoleStep(node, event, clock);
    assert r.effects.messages + {} == r.effects.messages;
  }

  lemma MoveRefines(voters: set<NodeId>, n: NodeId, node: Node, e: Input, event: Event, clock: Clock)
    requires var r := RoleStep(node, event, clock);
      && !r.transition.Stay? && !r.transition.ToLeader?
      && Adopted(voters, n, Abs(node), r.core) && r.effects.messages == {} && r.effects.snapshots == {}
    ensures Refines(voters, n, Abs(node), e, StepEvent(node, event, clock).0, StepEvent(node, event, clock).1)
  {
    var r := RoleStep(node, event, clock);
    TransitionRefines(voters, n, Abs(node), e, r.core, r.role, r.transition);
    var effects := ApplyTransition(r.core, r.role, r.transition).1;
    assert {} + effects.messages == effects.messages;
  }

  // --- Follower ---

  lemma FollowerVote(voters: set<NodeId>, n: NodeId, node: Node, m: Message, clock: Clock)
    requires Ready(voters, n, node) && node.role.Follower? && Fits(n, m) && m.body.VoteRequest?
    ensures Handles(voters, n, node, m, clock)
  {
    var s, r := Abs(node), RoleStep(node, Receive(m), clock);
    var s' := AbsCore(r.core, Passive);
    PlainLog(s.log);
    if s'.vote == if s'.term == s.term then s.vote else None {
      QuietStep(voters, n, s, Recv(m), s', r.effects.messages);
    } else {
      assert Grants(s, Recv(m), s');
    }
    StayRefines(voters, n, node, Recv(m), Receive(m), clock);
  }

  lemma FollowerAppend(voters: set<NodeId>, n: NodeId, node: Node, m: Message, clock: Clock)
    requires Ready(voters, n, node) && node.role.Follower? && Fits(n, m) && m.body.AppendRequest?
    ensures Handles(voters, n, node, m, clock)
  {
    hide LocalStep, AbsorbAll, CommandLog, Absorbs, Appended;
    var s, r := Abs(node), RoleStep(node, Receive(m), clock);
    PlainLog(s.log);
    if m.term < s.term || !Consistent(s.log, m.body.prevLogIndex, m.body.prevLogTerm) {
      QuietStep(voters, n, s, Recv(m), AbsCore(r.core, Passive), r.effects.messages);
    } else {
      var log := AbsorbAll(Plain(s.log), m.body.entries);
      LoopOutcome(n, s.log, m, log);
      AbsorbedStep(voters, n, node.core.MaybeUpdateTerm(m.term), s, m, log);
    }
    StayRefines(voters, n, node, Recv(m), Receive(m), clock);
  }

  lemma LoopOutcome(n: NodeId, log: seq<Entry>, m: Message, after: Log)
    requires CommandLog(log) && Fits(n, m) && m.body.AppendRequest?
    requires Consistent(log, m.body.prevLogIndex, m.body.prevLogTerm)
    requires after == AbsorbAll(Plain(log), m.body.entries)
    ensures Absorbs(log, m.body.prevLogIndex, m.body.entries, after.entries)
    ensures after == Plain(after.entries) && CommandLog(after.entries)
  {
    LoopAbsorbs(log, m.body.prevLogIndex, m.body.entries);
    LoopStaysPlain(log, m.body.prevLogIndex, m.body.entries, |m.body.entries|);
  }

  lemma AbsorbedStep(voters: set<NodeId>, n: NodeId, core: Core, s: Peer, m: Message, log: Log)
    requires Adopted(voters, n, s, core) && Fits(n, m) && m.body.AppendRequest? && m.term == core.Term()
    requires Consistent(s.log, m.body.prevLogIndex, m.body.prevLogTerm)
    requires Absorbs(s.log, m.body.prevLogIndex, m.body.entries, log.entries)
    requires log == Plain(log.entries) && CommandLog(log.entries)
    ensures LocalStep(voters, n, s, Recv(m), AbsCore(WithAbsorbed(core, log, m.body.leaderCommit), Passive),
                      core.Reply(m.from, AppendResponse(true, log.LastIndex())).messages)
  {
    PlainLog(log.entries);
    var s' := AbsCore(WithAbsorbed(core, log, m.body.leaderCommit), Passive);
    assert Accepts(s, Recv(m), s');
  }

  lemma FollowerOther(voters: set<NodeId>, n: NodeId, node: Node, m: Message, clock: Clock)
    requires Ready(voters, n, node) && node.role.Follower? && Fits(n, m)
    requires !m.body.VoteRequest? && !m.body.AppendRequest?
    ensures Handles(voters, n, node, m, clock)
  {
    var s, r := Abs(node), RoleStep(node, Receive(m), clock);
    if r.transition.Stay? {
      QuietStep(voters, n, s, Recv(m), AbsCore(r.core, Passive), r.effects.messages);
      StayRefines(voters, n, node, Recv(m), Receive(m), clock);
    } else {
      MoveRefines(voters, n, node, Recv(m), Receive(m), clock);
    }
  }

  // --- Candidates ---

  lemma PreCandidateMessage(voters: set<NodeId>, n: NodeId, node: Node, m: Message, clock: Clock)
    requires Ready(voters, n, node) && node.role.PreCandidate? && Fits(n, m)
    ensures Handles(voters, n, node, m, clock)
  {
    var s, r := Abs(node), RoleStep(node, Receive(m), clock);
    if r.transition.Stay? {
      QuietStep(voters, n, s, Recv(m), AbsCore(r.core, Passive), r.effects.messages);
      StayRefines(voters, n, node, Recv(m), Receive(m), clock);
    } else {
      MoveRefines(voters, n, node, Recv(m), Receive(m), clock);
    }
  }

  lemma CandidateWins(voters: set<NodeId>, n: NodeId, node: Node, m: Message)
    requires Ready(voters, n, node) && node.role.Candidate? && Fits(n, m)
    requires m.body == VoteResponse(true) && m.term == node.core.Term()
    requires Majority(node.role.votes + {m.from}, voters)
    ensures var (state, effects) := NewLeader(node.core);
      Refines(voters, n, Abs(node), Recv(m), Node(node.core, Leader(state)), effects)
  {
    FreshLeader(voters, n, node.core);
    var (state, effects) := NewLeader(node.core);
    var s' := Abs(Node(node.core, Leader(state)));
    assert Wins(voters, n, Abs(node), Recv(m), s');
    assert forall id :: MatchedOf(s'.role, id) == state.Match(id);
  }

  lemma WinRefines(voters: set<NodeId>, n: NodeId, node: Node, e: Input, event: Event, clock: Clock)
    requires var r := RoleStep(node, event, clock);
      r.transition.ToLeader? && r.core == node.core && r.effects == NOTHING
    requires Refines(voters, n, Abs(node), e, Node(node.core, Leader(NewLeader(node.core).0)),
        NewLeader(node.core).1)
    ensures Refines(voters, n, Abs(node), e, StepEvent(node, event, clock).0, StepEvent(node, event, clock).1)
  {
    var (after, effects) := ApplyTransition(node.core, node.role, ToLeader);
    assert NOTHING.Merge(effects).messages == effects.messages;
  }

  lemma CandidateVote(voters: set<NodeId>, n: NodeId, node: Node, m: Message, clock: Clock)
    requires Ready(voters, n, node) && node.role.Candidate? && Fits(n, m)
    requires m.body == VoteResponse(true) && m.term == node.core.Term()
    ensures Handles(voters, n, node, m, clock)
  {
    FixedConfig(voters, n, node.core);
    if Majority(node.role.votes + {m.from}, voters) {
      CandidateWins(voters, n, node, m);
      WinRefines(voters, n, node, Recv(m), Receive(m), clock);
    } else {
      StayRefines(voters, n, node, Recv(m), Receive(m), clock);
    }
  }

  lemma CandidateOther(voters: set<NodeId>, n: NodeId, node: Node, m: Message, clock: Clock)
    requires Ready(voters, n, node) && node.role.Candidate? && Fits(n, m)
    requires !(m.body == VoteResponse(true) && m.term == node.core.Term())
    ensures Handles(voters, n, node, m, clock)
  {
    var s, r := Abs(node), RoleStep(node, Receive(m), clock);
    if r.transition.Stay? {
      QuietStep(voters, n, s, Recv(m), AbsCore(r.core, AbsRole(r.role)), r.effects.messages);
      StayRefines(voters, n, node, Recv(m), Receive(m), clock);
    } else {
      MoveRefines(voters, n, node, Recv(m), Receive(m), clock);
    }
  }

  // --- Leader ---

  lemma LeaderTick(voters: set<NodeId>, n: NodeId, node: Node, clock: Clock)
    requires Ready(voters, n, node) && node.role.Leader?
    ensures Refines(voters, n, Abs(node), Timer, StepEvent(node, Tick, clock).0, StepEvent(node, Tick, clock).1)
  {
    hide LocalStep, Broadcast, Replicates;
    var s, r := Abs(node), RoleStep(node, Tick, clock);
    BroadcastSlices(voters, n, node.core, node.role.state);
    forall m | m in r.effects.messages ensures SendRule(n, s, Timer, s, m) {
      if m in Broadcast(node.core, node.role.state).1.messages {
        LeaderSends(n, s, Timer, s, m);
      }
    }
    QuietStep(voters, n, s, Timer, s, r.effects.messages);
    StayRefines(voters, n, node, Timer, Tick, clock);
  }

  lemma LeaderRetries(voters: set<NodeId>, n: NodeId, node: Node, m: Message, clock: Clock)
    requires Ready(voters, n, node) && node.role.Leader? && Fits(n, m)
    requires m.body.AppendResponse? && !m.body.success && m.term == node.core.Term()
    ensures Handles(voters, n, node, m, clock)
  {
    hide LocalStep, Replicates, SendRule, CommandLog, AppendFor, NextAfterSend, MaybeCommit;
    var s, r := Abs(node), RoleStep(node, Receive(m), clock);
    var state := node.role.state;
    var next := if node.core.settings.pipelining then Max(m.body.lastIndex + 1, state.Match(m.from) + 1)
                else m.body.lastIndex + 1;
    AppendForSlices(voters, n, node.core, next, m.from);
    forall sent | sent in r.effects.messages ensures SendRule(n, s, Recv(m), s, sent) {
      LeaderSends(n, s, Recv(m), s, sent);
    }
    QuietStep(voters, n, s, Recv(m), s, r.effects.messages);
    StayRefines(voters, n, node, Recv(m), Receive(m), clock);
  }

  /** The node and its abstraction count the same replicas. */
  lemma SameCount(voters: set<NodeId>, s: Peer, state: LeaderState)
    requires s.role.Leading? && s.role.matched == state.matchIndex
    ensures (set id | id in voters && MatchedOf(s.role, id) >= s.commit)
      == (set id | id in voters && state.Match(id) >= s.commit)
  {
  }

  /** An acknowledgement is recorded at its word, and the commit index follows. */
  lemma AckStep(voters: set<NodeId>, n: NodeId, s: Peer, m: Message, s': Peer)
    requires s.role.Leading? && s.vote == Some(n) && Fits(n, m)
    requires m.body.AppendResponse? && m.body.success && m.term == s.term
    requires s' == s.(role := s.role.(matched := s.role.matched[m.from := m.body.lastIndex]), commit := s'.commit)
    requires s'.commit == s.commit || LeaderCommits(voters, s, s')
    ensures LocalStep(voters, n, s, Recv(m), s', {})
  {
  }

  lemma LeaderAcked(voters: set<NodeId>, n: NodeId, node: Node, m: Message, clock: Clock)
    requires Ready(voters, n, node) && node.role.Leader? && Fits(n, m)
    requires m.body.AppendResponse? && m.body.success && m.term == node.core.Term() && m.from in voters
    ensures Handles(voters, n, node, m, clock)
  {
    hide LocalStep, MaybeCommit, AdvanceCommit, CommandLog, Majority;
    var s, r := Abs(node), RoleStep(node, Receive(m), clock);
    var acked := node.role.state.(matchIndex := node.role.state.matchIndex[m.from := m.body.lastIndex]);
    var moved := if node.core.settings.pipelining then acked
                 else acked.(nextIndex := acked.nextIndex[m.from := m.body.lastIndex + 1]);
    FixedConfig(voters, n, node.core);
    OnePass(voters, n, node.core, moved);
    var s' := AbsCore(r.core, AbsRole(r.role));
    SameCount(voters, s', moved);
    AckStep(voters, n, s, m, s');
    StayRefines(voters, n, node, Recv(m), Receive(m), clock);
  }

  /** An answer to the pending read round is counted, and may confirm it. */
  lemma ReadAckStep(voters: set<NodeId>, n: NodeId, s: Peer, m: Message, s': Peer)
    requires s.role.Leading? && s.vote == Some(n) && s'.role.Leading? && s' == s.(role := s'.role)
    requires s'.role == s.role.(pending := s'.role.pending, confirmed := s'.role.confirmed)
    requires s' == s ||
      (&& AckedRound(s, Recv(m))
       && var round := s.role.pending.value;
          if Majority(round.acks + {m.from}, voters) then RoundDone(s, s', round.readIndex)
          else RoundWaits(s, s', round.(acks := round.acks + {m.from})))
    ensures LocalStep(voters, n, s, Recv(m), s', {})
  {
  }

  lemma LeaderReadAck(voters: set<NodeId>, n: NodeId, node: Node, m: Message, clock: Clock)
    requires Ready(voters, n, node) && node.role.Leader? && Fits(n, m)
    requires m.body.ReadIndexResponse? && m.term == node.core.Term()
    ensures Handles(voters, n, node, m, clock)
  {
    hide LocalStep, Majority, CommandLog;
    var s, r := Abs(node), RoleStep(node, Receive(m), clock);
    ReadAckStep(voters, n, s, m, AbsCore(r.core, AbsRole(r.role)));
    StayRefines(voters, n, node, Recv(m), Receive(m), clock);
  }

  lemma LeaderOther(voters: set<NodeId>, n: NodeId, node: Node, m: Message, clock: Clock)
    requires Ready(voters, n, node) && node.role.Leader? && Fits(n, m)
    requires m.term == node.core.Term() ==>
      !(m.body.AppendResponse? && m.from in voters) && !m.body.ReadIndexResponse?
    ensures Handles(voters, n, node, m, clock)
  {
    var s, r := Abs(node), RoleStep(node, Receive(m), clock);
    FixedConfig(voters, n, node.core);
    if r.transition.Stay? {
      QuietStep(voters, n, s, Recv(m), AbsCore(r.core, AbsRole(r.role)), r.effects.messages);
      StayRefines(voters, n, node, Recv(m), Receive(m), clock);
    } else {
      MoveRefines(voters, n, node, Recv(m), Receive(m), clock);
    }
  }

  // --- Whole-node operations ---

  /** Timers: every role's tick is a protocol step. */
  lemma TickRefines(voters: set<NodeId>, n: NodeId, node: Node, clock: Clock)
    requires Ready(voters, n, node)
    ensures Refines(voters, n, Abs(node), Timer, StepEvent(node, Tick, clock).0, StepEvent(node, Tick, clock).1)
  {
    hide LocalStep;
    if node.role.Leader? {
      LeaderTick(voters, n, node, clock);
    } else if RoleStep(node, Tick, clock).transition.Stay? {
      QuietStep(voters, n, Abs(node), Timer, Abs(node), {});
      StayRefines(voters, n, node, Timer, Tick, clock);
    } else {
      MoveRefines(voters, n, node, Timer, Tick, clock);
    }
  }

  /** Deliveries: every role's handling of any message of this cluster is a protocol step. */
  lemma ReceiveRefines(voters: set<NodeId>, n: NodeId, node: Node, m: Message, clock: Clock)
    requires Ready(voters, n, node) && Fits(n, m)
    ensures Handles(voters, n, node, m, clock)
  {
    hide *;
    match node.role
    case Follower(_) =>
      if m.body.VoteRequest? {
        FollowerVote(voters, n, node, m, clock);
      } else if m.body.AppendRequest? {
        FollowerAppend(voters, n, node, m, clock);
      } else {
        FollowerOther(voters, n, node, m, clock);
      }
    case PreCandidate(_) => PreCandidateMessage(voters, n, node, m, clock);
    case Candidate(_) =>
      if m.body == VoteResponse(true) && m.term == node.core.Term() {
        CandidateVote(voters, n, node, m, clock);
      } else {
        CandidateOther(voters, n, node, m, clock);
      }
    case Leader(_) =>
      if m.term != node.core.Term() {
        LeaderOther(voters, n, node, m, clock);
      } else if m.body.AppendResponse? && m.from in voters {
        if m.body.success {
          LeaderAcked(voters, n, node, m, clock);
        } else {
          LeaderRetries(voters, n, node, m, clock);
        }
      } else if m.body.ReadIndexResponse? {
        LeaderReadAck(voters, n, node, m, clock);
      } else {
        LeaderOther(voters, n, node, m, clock);
      }
  }

  /** Proposing: the leader's own entry goes on top of its log, and may commit. */
  lemma SubmitStep(voters: set<NodeId>, n: NodeId, s: Peer, bytes: Bytes, s': Peer, sent: set<Message>)
    requires s.role.Leading? && s.vote == Some(n)
    requires s'.log == s.log + [Entry(s.term, |s.log| + 1, Command(bytes))]
    requires s' == s.(log := s'.log, commit := s'.commit, role := s.role.(matched := s.role.matched[n := |s'.log|]))
    requires s'.commit == s.commit || LeaderCommits(voters, s, s')
    requires forall m :: m in sent ==> Replicates(n, s'.term, s'.log, s'.commit, m)
    ensures LocalStep(voters, n, s, Submit(bytes), s', sent)
  {
  }

  function LongerCore(core: Core, bytes: Bytes): Core {
    core.WithLog(core.Log().Append(Entry(core.Term(), core.Log().LastIndex() + 1, Command(bytes))))
  }

  function Tracked(core: Core, state: LeaderState): LeaderState {
    state.(matchIndex := OwnMatch(core, state.matchIndex))
  }

  lemma LongerShape(voters: set<NodeId>, n: NodeId, core: Core, bytes: Bytes)
    requires CoreShape(voters, n, core) && CommandLog(core.Log().entries) && core.Term() >= 1
    ensures var longer, log := LongerCore(core, bytes), core.Log().entries;
      && CoreShape(voters, n, longer) && CommandLog(longer.Log().entries)
      && longer.Log().entries == log + [Entry(core.Term(), |log| + 1, Command(bytes))]
      && longer.Log().LastIndex() == |log| + 1
      && longer == core.(persistent := longer.persistent)
      && longer.persistent == core.persistent.(log := longer.persistent.log)
  {
    PlainLog(core.Log().entries);
  }

  /** What a proposal leaves and sends, when the commit pass meets no configuration. */
  lemma ProposedNode(node: Node, bytes: Bytes)
    requires NodePropose(node, bytes).Ok?
    ensures node.role.Leader?
    ensures var longer := LongerCore(node.core, bytes);
      var committed := MaybeCommit(longer, Tracked(longer, node.role.state));
      committed.effects == NOTHING && !committed.stepDown ==>
        var (sent, effects) := Broadcast(committed.core, committed.state);
        NodePropose(node, bytes).value == (Node(committed.core, Leader(sent)), effects.WithPersist())
  {
    hide Broadcast, MaybeCommit, Log.Append;
    var longer := LongerCore(node.core, bytes);
    var committed := MaybeCommit(longer, Tracked(longer, node.role.state));
    var effects := Broadcast(committed.core, committed.state).1;
    assert effects.messages + {} == effects.messages && effects.snapshots + {} == effects.snapshots;
  }

  lemma ProposeRefines(voters: set<NodeId>, n: NodeId, node: Node, bytes: Bytes)
    requires Ready(voters, n, node) && node.core.Term() >= 1 && NodePropose(node, bytes).Ok?
    ensures var (after, effects) := NodePropose(node, bytes).value;
      Refines(voters, n, Abs(node), Submit(bytes), after, effects)
  {
    hide LocalStep, Replicates, Broadcast, MaybeCommit, AdvanceCommit, NodePropose, LongerCore, CommandLog, Majority;
    var core, s := node.core, Abs(node);
    var longer := LongerCore(core, bytes);
    ProposedNode(node, bytes);
    var tracked := Tracked(longer, node.role.state);
    LongerShape(voters, n, core, bytes);
    OnePass(voters, n, longer, tracked);
    BroadcastSlices(voters, n, MaybeCommit(longer, tracked).core, tracked);
    var (after, effects) := NodePropose(node, bytes).value;
    SameCount(voters, Abs(after), tracked);
    SubmitStep(voters, n, s, bytes, Abs(after), effects.messages);
  }

  lemma {:induction false} CurrentTermFound(core: Core, index: LogIndex)
    ensures match CurrentTermCommit(core, index)
      case None => true
      case Some(i) => 1 <= i <= index && core.Log().TermAt(i) == core.Term()
  {
    if index > 0 && core.Log().TermAt(index) > core.Term() {
      CurrentTermFound(core, index - 1);
    }
  }

  lemma ReadIndexRefines(voters: set<NodeId>, n: NodeId, node: Node)
    requires Ready(voters, n, node) && node.core.Term() >= 1 && NodeReadIndex(node).Ok?
    ensures var (index, after, effects) := NodeReadIndex(node).value;
      Refines(voters, n, Abs(node), ReadRequest, after, effects)
  {
    var s := Abs(node);
    PlainLog(s.log);
    FixedConfig(voters, n, node.core);
    CurrentTermFound(node.core, node.core.commitIndex);
    var i := CurrentTermCommit(node.core, node.core.commitIndex).value;
    assert s.log[i - 1].term == s.term;
    assert OwnTermCommitted(s);
  }

  lemma TransferRefines(voters: set<NodeId>, n: NodeId, node: Node, target: NodeId)
    requires Ready(voters, n, node) && NodeTransfer(node, target).Ok?
    ensures Refines(voters, n, Abs(node), Timer, node, NodeTransfer(node, target).value)
  {
    QuietStep(voters, n, Abs(node), Timer, Abs(node), NodeTransfer(node, target).value.messages);
  }

  /** A restart keeps term, vote and log, and forgets the rest. */
  lemma RestoreRefines(voters: set<NodeId>, n: NodeId, node: Node)
    requires Ready(voters, n, node)
    ensures Refines(voters, n, Abs(node), Restart, Restore(node.core.settings, node.core.persistent), NOTHING)
  {
  }
}
