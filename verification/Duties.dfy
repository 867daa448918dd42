/**
 What a node owes the others at each event, whatever its configuration: terms caught up with, votes given, campaigns
 started, entries spread, proposals and transfers taken.
 */
module Duties {
  import opened Types
  import opened Membership
  import opened RaftLog
  import opened Messages
  import opened RaftCore
  import opened FollowerRole
  import opened CandidateRoles
  import opened LeaderRole
  import opened RaftNode
  import opened Protocol
  import opened Refinement
  import opened Safety
  import CommitLoop

  // --- Terms ---

  /** The message is turned away before its term is looked at. */
  predicate Shielded(node: Node, m: Message, clock: Clock) {
    || (m.body.PreVoteRequest? && !node.role.PreCandidate?)
    || ((m.body.VoteRequest? || m.body.PreVoteRequest?) && clock.recent && !node.role.Leader?
        && (node.role.Follower? ==> node.role.leader.Some?))
  }

  /** Any other message of a higher term ends a lower-term leadership or candidacy; its term is taken on and saved. */
  lemma TermCatchesUp(node: Node, m: Message, clock: Clock)
    requires m.term > node.core.Term() && !Shielded(node, m, clock)
    ensures var (after, effects) := StepEvent(node, Receive(m), clock);
      && effects.persist && after.core.Term() >= m.term
      && (after.role.Follower? || (m.body.TimeoutNow? && node.role.Follower? && after.core.Term() == m.term + 1))
      && (after.role.Follower? ==> after.core.Term() == m.term)
  {
    hide AbsorbAll, Appended, Log.InstallSnapshot, Configuration.HasQuorum, NewLeader;
  }

  /** A shielded message changes nothing but its sender's mind. */
  lemma ShieldHolds(node: Node, m: Message, clock: Clock)
    requires Shielded(node, m, clock)
    ensures StepEvent(node, Receive(m), clock).0 == node
  {
    hide Configuration.HasQuorum;
  }

  /** A stale append request is refused under the newer term, so that its sender learns of it. */
  lemma StaleAppendRefused(node: Node, m: Message, clock: Clock)
    requires m.body.AppendRequest? && m.term < node.core.Term() && !node.role.PreCandidate?
    ensures StepEvent(node, Receive(m), clock).0 == node
    ensures StepEvent(node, Receive(m), clock).1.messages
      == {Message(node.core.Id(), m.from, node.core.Term(), AppendResponse(false, node.core.Log().LastIndex()))}
  {
  }

  /** So is a stale vote request, and any request for a vote of the current term to a node that runs or leads itself. */
  lemma VoteRefused(node: Node, m: Message, clock: Clock)
    requires m.body.VoteRequest?
    requires m.term < node.core.Term() || (m.term == node.core.Term() && !node.role.Follower?)
    ensures StepEvent(node, Receive(m), clock).0 == node
    ensures StepEvent(node, Receive(m), clock).1.messages
      == {Message(node.core.Id(), m.from, node.core.Term(), VoteResponse(false))}
  {
  }

  /** A pre-candidate that is told of a higher term takes it on and follows. */
  lemma PreVoteTeachesTerm(node: Node, m: Message, clock: Clock)
    requires node.role.PreCandidate? && m.body.PreVoteResponse? && m.term <= node.core.Term()
    requires m.body.responderTerm > node.core.Term()
    ensures var (after, effects) := StepEvent(node, Receive(m), clock);
      after == Node(node.core.MaybeUpdateTerm(m.body.responderTerm), Follower(None)) && effects.persist
      && after.core.Term() == m.body.responderTerm
  {
  }

  /** A pre-vote request is always answered: granted exactly by a node that does not lead and is not shielded, to a
      voter that asks for a term not yet reached with a log at least as late. */
  lemma PreVoteAnswered(node: Node, m: Message, clock: Clock)
    requires m.body.PreVoteRequest? && (node.role.PreCandidate? ==> m.term <= node.core.Term())
    ensures var log := node.core.Log();
      var shut := node.role.Leader? || (clock.recent && (node.role.Follower? ==> node.role.leader.Some?));
      var granted :=
        && !shut && m.from in node.core.EffectiveConfig().Voters() && m.body.nextTerm > node.core.Term()
        && (m.body.lastLogTerm > log.LastTerm()
            || (m.body.lastLogTerm == log.LastTerm() && m.body.lastLogIndex >= log.LastIndex()));
      StepEvent(node, Receive(m), clock).1.messages
      == {Message(node.core.Id(), m.from, if shut then node.core.Term() else m.term,
                  PreVoteResponse(node.core.Term(), granted))}
  {
  }

  /** A read request of the node's term is answered with its id and index, and its sender followed. */
  lemma ReadAnswered(node: Node, m: Message, clock: Clock)
    requires node.role.Follower? && m.body.ReadIndexRequest? && m.term >= node.core.Term()
    ensures var (after, effects) := StepEvent(node, Receive(m), clock);
      && after == Node(node.core.MaybeUpdateTerm(m.term), Follower(Some(m.from)))
      && effects.messages
         == {Message(node.core.Id(), m.from, m.term, ReadIndexResponse(m.body.id, m.body.readIndex))}
  {
  }

  // --- Votes ---

  /** A follower that is not shielded gives its vote exactly to a voter whose log is at least as late, if it has not
      voted for another in that term; the answer says which, and a vote given is saved. */
  lemma VoteGivenExactly(node: Node, m: Message, clock: Clock)
    requires node.role.Follower? && m.body.VoteRequest? && m.term >= node.core.Term() && !Shielded(node, m, clock)
    ensures var (after, effects) := StepEvent(node, Receive(m), clock);
      var log := node.core.Log();
      var given :=
        && m.from in node.core.EffectiveConfig().Voters()
        && (m.term > node.core.Term() || node.core.persistent.votedFor in {None, Some(m.from)})
        && (m.body.lastLogTerm > log.LastTerm()
            || (m.body.lastLogTerm == log.LastTerm() && m.body.lastLogIndex >= log.LastIndex()));
      && effects.messages == {Message(node.core.Id(), m.from, m.term, VoteResponse(given))}
      && after.core.Term() == m.term && after.core.Log() == log && after.role == node.role
      && after.core.persistent.votedFor ==
           (if given then Some(m.from) else if m.term > node.core.Term() then None else node.core.persistent.votedFor)
      && (given ==> effects.persist)
  {
  }

  // --- Campaigns ---

  /** A campaign takes a new term and the node's own vote, and asks every other voter with its own last index and
      term. */
  predicate Campaigns(core: Core, after: Node, effects: Effects) {
    && after.core.persistent.term == core.Term() + 1 && effects.persist
    && after.core.persistent.votedFor == (if core.IsVoter() then Some(core.Id()) else None)
    && after.core.Log() == core.Log() && after.core.commitIndex == core.commitIndex
    && forall to :: to in core.EffectiveConfig().Voters() && to != core.Id() ==>
         Message(core.Id(), to, core.Term() + 1, VoteRequest(core.Log().LastIndex(), core.Log().LastTerm()))
         in effects.messages
  }

  /** A pre-campaign asks every other voter about the next term, and leaves the core alone. */
  predicate PreCampaigns(core: Core, after: Node, effects: Effects) {
    && after.core == core && after.role == PreCandidate(if core.IsVoter() then {core.Id()} else {})
    && forall to :: to in core.EffectiveConfig().Voters() && to != core.Id() ==>
         Message(core.Id(), to, core.Term(),
                 PreVoteRequest(core.Term() + 1, core.Log().LastIndex(), core.Log().LastTerm()))
         in effects.messages
  }

  lemma CandidateAsks(core: Core)
    ensures Campaigns(core, BecomeCandidate(core).0, BecomeCandidate(core).1)
    ensures !BecomeCandidate(core).0.role.Follower? && !BecomeCandidate(core).0.role.PreCandidate?
  {
    hide Configuration.HasQuorum, NewLeader;
    var after := core.StartElection();
    assert after.EffectiveConfig() == core.EffectiveConfig();
    forall to | to in core.EffectiveConfig().Voters() && to != core.Id()
      ensures Message(core.Id(), to, core.Term() + 1, VoteRequest(core.Log().LastIndex(), core.Log().LastTerm()))
        in BecomeCandidate(core).1.messages
    {
      assert to in after.EffectiveConfig().VoterPeers(after.Id());
    }
  }

  lemma PreCandidateAsks(core: Core, role: Role)
    ensures var (after, effects) := ApplyTransition(core, role, ToPreCandidate);
      if core.EffectiveConfig().HasQuorum(OwnVote(core)) then Campaigns(core, after, effects)
      else PreCampaigns(core, after, effects)
  {
    hide Configuration.HasQuorum, BecomeCandidate;
    CandidateAsks(core);
  }

  /** A deadline that passes without a leader starts a campaign: at once, or with pre-votes first where these are on and
      the node's own is not a quorum. */
  lemma TimeoutCampaigns(node: Node, clock: Clock)
    requires !node.role.Leader? && clock.expired && (clock.recent ==> node.role.Follower?)
    ensures var (after, effects) := StepEvent(node, Tick, clock);
      if node.role.Candidate? || (node.role.Follower? && !node.core.settings.prevote)
          || node.core.EffectiveConfig().HasQuorum(OwnVote(node.core))
      then Campaigns(node.core, after, effects) else PreCampaigns(node.core, after, effects)
  {
    hide Configuration.HasQuorum, BecomeCandidate, Campaigns, PreCampaigns, NewPreCandidate;
    CandidateAsks(node.core);
    PreCandidateAsks(node.core, node.role);
    MergeNothing(StepEvent(node, Tick, clock).1);
  }

  lemma MergeNothing(effects: Effects)
    ensures NOTHING.Merge(effects) == effects && effects.Merge(NOTHING) == effects
  {
  }

  // --- Following ---

  /** A follower that accepts an append request follows its sender, and its commit index is what the leader told, as far
      as its log reaches, unless it was as far already. That is the larger of the two exactly when the old commit index
      was not behind what it was told or lies within the log. */
  lemma AcceptedCommit(node: Node, m: Message, clock: Clock)
    requires node.role.Follower? && m.body.AppendRequest? && m.term >= node.core.Term()
    requires ConsistentAt(node.core.Log(), m.body.prevLogIndex, m.body.prevLogTerm)
    ensures var (after, effects) := StepEvent(node, Receive(m), clock);
      var told, was, last := m.body.leaderCommit, node.core.commitIndex, after.core.Log().LastIndex();
      && after.role == Follower(Some(m.from)) && after.core.Term() == m.term
      && after.core.commitIndex == (if told > was then Min(told, last) else was)
      && (after.core.commitIndex == Max(was, Min(told, last)) <==> told <= was || was <= last)
      && effects.messages == {Message(node.core.Id(), m.from, m.term, AppendResponse(true, last))}
  {
    hide AbsorbAll, Appended, ConsistentAt;
  }

  /** One that fails the consistency check is refused with the end of the log as a hint, and changes nothing else. */
  lemma InconsistentRefused(node: Node, m: Message, clock: Clock)
    requires node.role.Follower? && m.body.AppendRequest? && m.term >= node.core.Term()
    requires !ConsistentAt(node.core.Log(), m.body.prevLogIndex, m.body.prevLogTerm)
    ensures var (after, effects) := StepEvent(node, Receive(m), clock);
      && after == Node(node.core.MaybeUpdateTerm(m.term), Follower(Some(m.from)))
      && effects.messages
         == {Message(node.core.Id(), m.from, m.term, AppendResponse(false, node.core.Log().LastIndex()))}
  {
    hide AbsorbAll, Appended, ConsistentAt;
  }

  /** A candidate of either kind that hears from a leader of its term follows it. */
  lemma CandidateYields(node: Node, m: Message, clock: Clock)
    requires node.role.Candidate? || node.role.PreCandidate?
    requires m.body.AppendRequest? && m.term == node.core.Term()
    ensures StepEvent(node, Receive(m), clock).0 == Node(node.core, Follower(Some(m.from)))
  {
  }

  /** A timer that has not run out does nothing; nor does a candidate's while a leader is about. */
  lemma QuietTick(node: Node, clock: Clock)
    requires !clock.expired || (clock.recent && (node.role.Candidate? || node.role.PreCandidate?))
    ensures StepEvent(node, Tick, clock) == (node, NOTHING)
  {
    MergeNothing(NOTHING);
  }

  // --- Replication ---

  /** What a member whose next index is `next` has to be sent: whatever follows, up to the limit, of the whole log. */
  function Due(core: Core, full: seq<Entry>, next: LogIndex, to: NodeId): Message
    requires next >= 1
  {
    Message(core.Id(), to, core.Term(), AppendRequest(next - 1, FullTermAt(full, next - 1),
      if next <= |full| then full[next - 1..Min(next + core.settings.maxEntriesPerMsg, |full|)] else [],
      core.commitIndex))
  }

  lemma EntriesDue(core: Core, full: seq<Entry>, next: LogIndex, to: NodeId)
    requires Represents(core.Log(), full) && next > core.Log().snapshotIndex
    ensures EntriesFor(core, next) == Due(core, full, next, to).body.entries
    ensures PrevTerm(core.Log(), next - 1) == FullTermAt(full, next - 1)
  {
    hide Log.Slice;
    RepresentsScalars(core.Log(), full);
    QueriesAgree(core.Log(), full, next - 1);
    SliceAgrees(core.Log(), full, next, Min(next + core.settings.maxEntriesPerMsg, |full| + 1));
  }

  lemma LastOfSlice(full: seq<Entry>, lo: nat, hi: nat)
    requires Numbered(full) && lo < hi <= |full|
    ensures full[lo..hi][hi - lo - 1].index == hi
  {
    assert full[lo..hi][hi - lo - 1] == full[hi - 1];
  }

  lemma LastDue(core: Core, full: seq<Entry>, next: LogIndex, to: NodeId)
    requires Numbered(full) && next >= 1
    ensures var entries := Due(core, full, next, to).body.entries;
      entries != [] ==> entries[|entries| - 1].index == next + |entries| - 1
  {
    hide Numbered;
    if next <= |full| {
      LastOfSlice(full, next - 1, Min(next + core.settings.maxEntriesPerMsg, |full|));
    }
  }

  lemma ServedWith(core: Core, full: seq<Entry>, next: LogIndex, to: NodeId)
    requires Represents(core.Log(), full) && next > core.Log().snapshotIndex
    ensures AppendFor(core, next, to) == Send(Due(core, full, next, to))
    ensures NextAfterSend(core, next)
      == if core.settings.pipelining then next + |Due(core, full, next, to).body.entries| else next
  {
    hide EntriesFor, PrevTerm;
    EntriesDue(core, full, next, to);
    LastDue(core, full, next, to);
  }

  /** The member gets exactly what is due to it, and its next index moves past that when pipelining; where that is
      compacted away, it gets the snapshot instead. */
  ghost predicate Served(core: Core, full: seq<Entry>, next: LogIndex, to: NodeId, after: LogIndex, effects: Effects) {
    if next > core.Log().snapshotIndex then
      && (forall m :: m in effects.messages && m.to == to && m.body.AppendRequest? <==> m == Due(core, full, next, to))
      && after == if core.settings.pipelining then next + |Due(core, full, next, to).body.entries| else next
    else
      var log := core.Log();
      && SendSnapshot(to, log.snapshotIndex, log.snapshotTerm, core.ConfigAt(log.snapshotIndex)) in effects.snapshots
      && after == next
  }

  /** A broadcast serves every member but the sender. */
  lemma BroadcastServes(core: Core, state: LeaderState, full: seq<Entry>, to: NodeId)
    requires Represents(core.Log(), full) && core.EffectiveConfig().IsMember(to) && to != core.Id()
    ensures Served(core, full, state.Next(to), to, Broadcast(core, state).0.Next(to), Broadcast(core, state).1)
  {
    hide Core.EffectiveConfig, EntriesFor, NextAfterSend;
    var next := state.Next(to);
    var (sent, effects) := Broadcast(core, state);
    if next > core.Log().snapshotIndex {
      ServedWith(core, full, next, to);
      assert Due(core, full, next, to) in AppendFor(core, next, to).messages;
      assert Due(core, full, next, to) in effects.messages;
    } else {
      NextStays(core, next);
      assert SendSnapshot(to, core.Log().snapshotIndex, core.Log().snapshotTerm,
                          core.ConfigAt(core.Log().snapshotIndex)) in AppendFor(core, next, to).snapshots;
    }
  }

  lemma NextStays(core: Core, next: LogIndex)
    requires next <= core.Log().snapshotIndex
    ensures NextAfterSend(core, next) == next
  {
  }

  /** At each heartbeat every member is served, and every other voter is asked again for a pending read. */
  lemma HeartbeatServes(node: Node, full: seq<Entry>, clock: Clock, to: NodeId)
    requires node.role.Leader? && clock.expired && Represents(node.core.Log(), full)
    requires node.core.EffectiveConfig().IsMember(to) && to != node.core.Id()
    ensures var (after, effects) := StepEvent(node, Tick, clock);
      && after.role.Leader? && after.core == node.core
      && Served(node.core, full, node.role.state.Next(to), to, after.role.state.Next(to), effects)
      && (node.role.state.pending.Some? && node.role.state.pending.value.configuration.IsVoter(to) ==>
            var round := node.role.state.pending.value;
            Message(node.core.Id(), to, node.core.Term(), ReadIndexRequest(round.id, round.readIndex))
            in effects.messages)
  {
    hide Core.EffectiveConfig, Broadcast;
    BroadcastServes(node.core, node.role.state, full, to);
  }

  /** A node that comes to lead knows nothing of the others and greets every member from its own end. */
  lemma WinnerServes(core: Core, full: seq<Entry>, to: NodeId)
    requires Represents(core.Log(), full) && core.EffectiveConfig().IsMember(to) && to != core.Id()
    ensures Served(core, full, |full| + 1, to, |full| + 1, NewLeader(core).1)
    ensures NewLeader(core).0.Next(to) == |full| + 1 && NewLeader(core).0.Match(to) == 0
  {
    hide Core.EffectiveConfig, Broadcast;
    RepresentsScalars(core.Log(), full);
    BroadcastServes(core, FreshProgress(core), full, to);
    BroadcastKeepsMatch(core, FreshProgress(core));
  }

  lemma BroadcastKeepsMatch(core: Core, state: LeaderState)
    ensures Broadcast(core, state).0.matchIndex == state.matchIndex
  {
  }

  // --- Proposals ---

  /** What the uncommitted commands weigh. */
  function Weight(full: seq<Entry>, from: nat): nat
    requires from <= |full|
    decreases |full| - from
  {
    if from == |full| then 0
    else (if full[from].payload.Command? then |full[from].payload.bytes| else 0) + Weight(full, from + 1)
  }

  lemma {:induction false} WeightIsBytes(full: seq<Entry>, from: nat, k: nat)
    requires from <= k <= |full|
    ensures CommandBytes(full[from..k]) + Weight(full, k) == Weight(full, from)
    decreases k - from
  {
    if from < k {
      WeightIsBytes(full, from, k - 1);
      assert full[from..k][..k - 1 - from] == full[from..k - 1];
    } else {
      assert full[from..k] == [];
    }
  }

  /** A proposal is taken exactly by a leader whose uncommitted entries, and their bytes with the new command's, are
      within the limits. */
  lemma ProposalTaken(node: Node, full: seq<Entry>, bytes: Bytes)
    requires Represents(node.core.Log(), full) && node.core.Log().snapshotIndex <= node.core.commitIndex <= |full|
    ensures NodePropose(node, bytes).Ok? <==>
      && node.role.Leader? && |full| - node.core.commitIndex < node.core.settings.maxUncommittedEntries
      && Weight(full, node.core.commitIndex) + |bytes| <= node.core.settings.maxUncommittedBytes
  {
    hide Broadcast, MaybeCommit;
    var commit := node.core.commitIndex;
    RepresentsScalars(node.core.Log(), full);
    SliceAgrees(node.core.Log(), full, commit + 1, |full|);
    WeightIsBytes(full, commit, |full|);
    assert commit == |full| ==> full[commit..] == [];
  }

  /** A proposal taken on a plain log: one entry of the leader's term at its end, counted for the leader, and every
      other voter served from where it stands. */
  lemma ProposalSpreads(voters: set<NodeId>, n: NodeId, node: Node, bytes: Bytes, to: NodeId)
    requires Ready(voters, n, node) && node.core.Term() >= 1 && NodePropose(node, bytes).Ok?
    requires to in voters && to != n
    ensures var (after, effects) := NodePropose(node, bytes).value;
      var full := node.core.Log().entries + [Entry(node.core.Term(), |node.core.Log().entries| + 1, Command(bytes))];
      && after.role.Leader? && after.core.Log() == Plain(full) && after.role.state.Match(n) == |full| && effects.persist
      && Served(after.core, full, node.role.state.Next(to), to, after.role.state.Next(to), effects)
  {
    hide Broadcast, MaybeCommit, AdvanceCommit, NodePropose, LongerCore, CommandLog, Served;
    var longer := LongerCore(node.core, bytes);
    ProposedNode(node, bytes);
    var tracked := Tracked(longer, node.role.state);
    LongerShape(voters, n, node.core, bytes);
    OnePass(voters, n, longer, tracked);
    var committed := MaybeCommit(longer, tracked);
    PlainLog(longer.Log().entries);
    FixedConfig(voters, n, committed.core);
    BroadcastServes(committed.core, tracked, longer.Log().entries, to);
    BroadcastKeepsMatch(committed.core, tracked);
    var (sent, effects) := Broadcast(committed.core, tracked);
    SamePersist(committed.core, longer.Log().entries, tracked.Next(to), to, sent.Next(to), effects);
  }

  lemma SamePersist(core: Core, full: seq<Entry>, next: LogIndex, to: NodeId, after: LogIndex, effects: Effects)
    requires Served(core, full, next, to, after, effects)
    ensures Served(core, full, next, to, after, effects.WithPersist())
  {
  }

  // --- Acknowledgements ---

  /** A leader that stays takes a member's acknowledgement at its word, and changes nothing else it knows of others. */
  lemma AckRecorded(node: Node, m: Message, clock: Clock, p: NodeId)
    requires node.role.Leader? && m.body.AppendResponse? && m.body.success && m.term == node.core.Term()
    requires node.core.EffectiveConfig().IsMember(m.from) && p != node.core.Id()
    ensures var after := StepEvent(node, Receive(m), clock).0;
      after.role.Leader? ==>
        after.role.state.Match(p) == if p == m.from then m.body.lastIndex else node.role.state.Match(p)
  {
    hide MaybeCommit, Core.EffectiveConfig;
    var acked := node.role.state.(matchIndex := node.role.state.matchIndex[m.from := m.body.lastIndex]);
    CommitLoop.LoopKeepsMatch(node.core, acked, p);
    CommitLoop.LoopKeepsMatch(node.core, acked.(nextIndex := acked.nextIndex[m.from := m.body.lastIndex + 1]), p);
  }

  /** A snapshot a member has installed counts as held, if that is news. */
  lemma SnapshotAckRecorded(node: Node, m: Message, clock: Clock)
    requires node.role.Leader? && m.body.InstallSnapshotResponse? && m.body.success && m.term == node.core.Term()
    requires node.core.EffectiveConfig().IsMember(m.from) && m.from != node.core.Id()
    ensures var after := StepEvent(node, Receive(m), clock).0;
      after.role.Leader? ==>
        after.role.state.Match(m.from) == Max(node.role.state.Match(m.from), m.body.lastIncludedIndex)
  {
    hide MaybeCommit, Core.EffectiveConfig;
    var state, index := node.role.state, m.body.lastIncludedIndex;
    CommitLoop.LoopKeepsMatch(node.core, state.(matchIndex := state.matchIndex[m.from := index],
                                                nextIndex := state.nextIndex[m.from := index + 1]), m.from);
  }

  /** Where disk writes are reported, the leader counts itself as far as they say. */
  lemma DiskWriteRecorded(node: Node, index: LogIndex, clock: Clock)
    requires node.role.Leader? && node.core.settings.parallelDiskWrite
    ensures var after, me := StepEvent(node, DiskWriteComplete(index), clock).0, node.core.Id();
      after.role.Leader? ==> after.role.state.Match(me) == Max(node.role.state.Match(me), index)
  {
    hide MaybeCommit, Core.EffectiveConfig;
    var me := node.core.Id();
    CommitLoop.LoopKeepsMatch(node.core, node.role.state.(matchIndex := node.role.state.matchIndex[me := index]), me);
  }

  // --- Reads ---

  lemma OwnTermFound(core: Core, log: seq<Entry>, index: LogIndex)
    requires core.Log() == Plain(log) && Ordered(log, core.Term()) && index <= |log|
    ensures CurrentTermCommit(core, index).Some? <==>
      exists i :: 0 <= i < index && log[i].term == core.Term()
  {
    if index > 0 {
      assert forall i :: 0 <= i < index ==> log[i].term <= log[index - 1].term;
    }
  }

  /** A read request is taken exactly by a leader with no round pending that has committed an entry of its own term. */
  lemma ReadTaken(node: Node, log: seq<Entry>)
    requires node.core.Log() == Plain(log) && Ordered(log, node.core.Term()) && node.core.commitIndex <= |log|
    ensures NodeReadIndex(node).Ok? <==>
      && node.role.Leader? && node.role.state.pending.None?
      && exists i :: 0 <= i < node.core.commitIndex && log[i].term == node.core.Term()
    ensures NodeReadIndex(node).Ok? ==> NodeReadIndex(node).value.0 == node.core.commitIndex
  {
    hide Core.EffectiveConfig, Configuration.HasQuorum, CurrentTermCommit;
    OwnTermFound(node.core, log, node.core.commitIndex);
  }

  // --- Leadership transfer ---

  /** A transfer is taken exactly by a leader for another voter that holds its whole log; that one is told to
      campaign. */
  lemma TransferTaken(node: Node, target: NodeId)
    ensures NodeTransfer(node, target).Ok? <==>
      && node.role.Leader? && target != node.core.Id() && target in node.core.EffectiveConfig().Voters()
      && node.role.state.Match(target) >= node.core.Log().LastIndex()
    ensures NodeTransfer(node, target).Ok? ==>
      NodeTransfer(node, target).value
      == Effects(false, {Message(node.core.Id(), target, node.core.Term(), TimeoutNow)}, {})
  {
  }

  /** Whoever is told to campaign, in its own term or a later one, does so at once, pre-votes or not. */
  lemma TimeoutNowCampaigns(node: Node, m: Message, clock: Clock)
    requires m.body.TimeoutNow? && !node.role.Leader?
    requires m.term == node.core.Term() || (node.role.Follower? && m.term > node.core.Term())
    ensures var (after, effects) := StepEvent(node, Receive(m), clock);
      Campaigns(node.core.MaybeUpdateTerm(m.term), after, effects)
  {
    hide Configuration.HasQuorum, BecomeCandidate, Campaigns;
    CandidateAsks(node.core.MaybeUpdateTerm(m.term));
    CampaignsMore(node.core.MaybeUpdateTerm(m.term), RoleStep(node, Receive(m), clock).effects);
  }

  lemma CampaignsMore(core: Core, effects: Effects)
    requires Campaigns(core, BecomeCandidate(core).0, BecomeCandidate(core).1)
    ensures Campaigns(core, BecomeCandidate(core).0, effects.Merge(BecomeCandidate(core).1))
  {
    hide BecomeCandidate;
  }

  /** A removed leader hands over to a caught-up voter, if there is one, and to no one else. */
  lemma AutoTransferTargets(core: Core, state: LeaderState, config: Configuration)
    ensures var caughtUp := set id | id in config.Voters() && id != core.Id()
        && state.Match(id) >= core.Log().LastIndex();
      if caughtUp == {} then AutoTransfer(core, state, config) == NOTHING
      else
        exists id :: id in caughtUp &&
          AutoTransfer(core, state, config).messages == {Message(core.Id(), id, core.Term(), TimeoutNow)}
  {
    var all := set id | id in config.VoterPeers(core.Id()) && state.Match(id) >= core.Log().LastIndex();
    assert all == set id | id in config.Voters() && id != core.Id() && state.Match(id) >= core.Log().LastIndex();
    if all != {} {
      var first := if config.Joint? then all * config.outgoing else all;
      var chosen := if first != {} then Least(first) else Least(all);
      assert AutoTransfer(core, state, config).messages == {Message(core.Id(), chosen, core.Term(), TimeoutNow)};
    }
  }

  // --- Snapshots ---

  lemma InstalledAt(log: Log, index: LogIndex, term: Term, config: Configuration)
    ensures var after := log.InstallSnapshot(index, term, config);
      (index > log.snapshotIndex ==> after.snapshotIndex == index) && after.snapshotConfig == Some(config)
  {
  }

  /** A snapshot of the node's term is installed exactly when it is newer than the last and would not lose committed
      entries the log disagrees on; the answer says which. */
  lemma SnapshotTaken(node: Node, m: Message, clock: Clock)
    requires node.role.Follower? && m.body.InstallSnapshotRequest? && m.term >= node.core.Term()
    ensures var (after, effects) := StepEvent(node, Receive(m), clock);
      var index, term, log := m.body.lastIncludedIndex, m.body.lastIncludedTerm, node.core.Log();
      var taken := index > log.snapshotIndex && (index >= node.core.commitIndex || log.TermAt(index) == term);
      && effects.messages == {Message(node.core.Id(), m.from, m.term, InstallSnapshotResponse(taken, index))}
      && (if taken then
            && after.core.Log().snapshotIndex == index && after.core.Log().snapshotConfig == Some(m.body.configuration)
            && after.core.commitIndex == Max(node.core.commitIndex, index)
            && after.core.lastApplied == Max(node.core.lastApplied, index) && effects.persist
          else after.core.Log() == log && after.core.commitIndex == node.core.commitIndex)
  {
    hide AbsorbAll, Appended, Core.EffectiveConfig, BecomeCandidate, NewPreCandidate, NewLeader, Log.InstallSnapshot;
    InstalledAt(node.core.Log(), m.body.lastIncludedIndex, m.body.lastIncludedTerm, m.body.configuration);
  }
}
