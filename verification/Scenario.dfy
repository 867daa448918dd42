/**
 Single steps of a three-node cluster, worked out exactly: the moves that concrete runs are
 made of. Commands are empty; entries differ by term.
 */
module Scenario {
  import opened Types
  import opened Membership
  import opened RaftLog
  import opened Messages
  import opened RaftCore
  import opened FollowerRole
  import opened CandidateRoles
  import opened LeaderRole
  import opened RaftNode
  import opened Protocol
  import opened Refinement
  import opened Cluster

  function Three(): set<NodeId> { {0, 1, 2} }

  function SettingsOf(id: NodeId): Settings {
    Settings(id, false, false, false, JointConsensus, 8, 100, 100)
  }

  /** The timer fires and no leader was heard recently. */
  function Due(): Clock { Clock(true, false) }

  function At(id: NodeId, term: Term, vote: Option<NodeId>, log: seq<Entry>, commit: LogIndex): Core {
    Core(SettingsOf(id), Persistent(term, vote, Plain(log), Simple(Three(), {})), commit, 0)
  }

  /** Empty commands of the given terms. */
  function Entries(terms: seq<Term>): seq<Entry> {
    seq(|terms|, i requires 0 <= i < |terms| => Entry(terms[i], i + 1, Command([])))
  }

  predicate Terms(log: seq<Entry>) {
    CommandLog(log) && forall i :: 0 <= i < |log| ==> log[i].payload == Command([])
  }

  lemma Quorums(a: NodeId, b: NodeId)
    requires a in Three() && b in Three() && a != b
    ensures !Majority({a}, Three()) && Majority({a, b}, Three()) && Majority({a} + {b}, Three())
  {
    assert Three() == {0} + {1} + {2} && |Three()| == 3;
    assert Three() * {a} == {a};
    assert Three() * {a, b} == {a, b} && {a} + {b} == {a, b};
  }

  lemma ConfigOf(core: Core, id: NodeId)
    requires id in Three()
    requires core == At(id, core.Term(), core.persistent.votedFor, core.Log().entries, core.commitIndex)
    requires Terms(core.Log().entries)
    ensures core.EffectiveConfig() == Simple(Three(), {}) && core.IsVoter()
    ensures core.Log().LastIndex() == |core.Log().entries| && core.Log().LastTerm() == LastTermOf(core.Log().entries)
  {
    FixedConfig(Three(), id, core);
    PlainLog(core.Log().entries);
  }

  lemma Campaigns(id: NodeId, to: NodeId, term: Term, vote: Option<NodeId>, log: seq<Entry>, commit: LogIndex,
                  leader: Option<NodeId>)
    requires id in Three() && to in Three() && id != to && Terms(log)
    ensures var (after, effects) := StepEvent(Node(At(id, term, vote, log, commit), Follower(leader)), Tick, Due());
      && after == Node(At(id, term + 1, Some(id), log, commit), Candidate({id}))
      && Message(id, to, term + 1, VoteRequest(|log|, LastTermOf(log))) in effects.messages
  {
    ConfigOf(At(id, term, vote, log, commit), id);
    ConfigOf(At(id, term + 1, Some(id), log, commit), id);
    Quorums(id, to);
  }

  lemma Grants(id: NodeId, m: Message, term: Term, vote: Option<NodeId>, log: seq<Entry>, commit: LogIndex,
               leader: Option<NodeId>)
    requires id in Three() && m.from in Three() && Terms(log) && m.body.VoteRequest? && m.term > term
    requires AtLeast(m.body.lastLogTerm, m.body.lastLogIndex, log)
    ensures var (after, effects) := StepEvent(Node(At(id, term, vote, log, commit), Follower(leader)), Receive(m),
        Due());
      && after == Node(At(id, m.term, Some(m.from), log, commit), Follower(leader))
      && Message(id, m.from, m.term, VoteResponse(true)) in effects.messages
  {
    ConfigOf(At(id, m.term, None, log, commit), id);
  }

  /** What a new leader of this cluster knows. */
  function Fresh(id: NodeId, log: seq<Entry>): LeaderState {
    LeaderState(map[0 := |log| + 1, 1 := |log| + 1, 2 := |log| + 1],
                map[0 := 0, 1 := 0, 2 := 0][id := |log|], 1, None, 0)
  }

  lemma NoPipelining(core: Core, state: LeaderState)
    requires !core.settings.pipelining
    ensures Broadcast(core, state).0 == state
  {
    var moved: map<NodeId, LogIndex> := map to | to in core.EffectiveConfig().ReplicationPeers(core.Id())
      && NextAfterSend(core, state.Next(to)) != state.Next(to) :: NextAfterSend(core, state.Next(to));
    assert moved == map[];
    assert state.nextIndex + moved == state.nextIndex;
  }

  /** The append request a leader with this log sends for this next index. */
  function Request(id: NodeId, to: NodeId, term: Term, log: seq<Entry>, commit: LogIndex, next: LogIndex): Message
    requires next >= 1
  {
    Message(id, to, term, AppendRequest(next - 1, FullTermAt(log, next - 1),
      if next <= |log| then log[next - 1..Min(next + 8, |log|)] else [], commit))
  }

  lemma AppendForIs(core: Core, id: NodeId, to: NodeId, log: seq<Entry>, next: LogIndex)
    requires Terms(log) && core == At(id, core.Term(), core.persistent.votedFor, log, core.commitIndex) && next >= 1
    ensures Request(id, to, core.Term(), log, core.commitIndex, next) in AppendFor(core, next, to).messages
  {
    hide EntriesFor;
    PlainLog(log);
    EntriesForPlain(log, core, next);
  }

  lemma BroadcastReaches(core: Core, state: LeaderState, to: NodeId, m: Message)
    requires to in core.EffectiveConfig().ReplicationPeers(core.Id())
    requires m in AppendFor(core, state.Next(to), to).messages
    ensures m in Broadcast(core, state).1.messages
  {
  }

  lemma SendsTo(core: Core, state: LeaderState, id: NodeId, to: NodeId, log: seq<Entry>)
    requires id in Three() && to in Three() && id != to && Terms(log)
    requires core == At(id, core.Term(), core.persistent.votedFor, log, core.commitIndex) && state.Next(to) >= 1
    ensures Request(id, to, core.Term(), log, core.commitIndex, state.Next(to)) in Broadcast(core, state).1.messages
  {
    hide AppendFor, Broadcast, Request;
    ConfigOf(core, id);
    AppendForIs(core, id, to, log, state.Next(to));
    BroadcastReaches(core, state, to, Request(id, to, core.Term(), log, core.commitIndex, state.Next(to)));
  }

  lemma WinsElection(id: NodeId, to: NodeId, m: Message, term: Term, log: seq<Entry>, commit: LogIndex)
    requires id in Three() && to in Three() && id != to && m.from in Three() && m.from != id && Terms(log)
    requires m.body == VoteResponse(true) && m.term == term
    ensures var (after, effects) := StepEvent(Node(At(id, term, Some(id), log, commit), Candidate({id})),
        Receive(m), Due());
      && after == Node(At(id, term, Some(id), log, commit), Leader(Fresh(id, log)))
      && Request(id, to, term, log, commit, |log| + 1) in effects.messages
  {
    hide Broadcast, Request, FreshProgress;
    var core := At(id, term, Some(id), log, commit);
    ConfigOf(core, id);
    Quorums(id, m.from);
    FreshIs(id, core, log);
    NoPipelining(core, Fresh(id, log));
    SendsTo(core, Fresh(id, log), id, to, log);
  }

  lemma FreshIs(id: NodeId, core: Core, log: seq<Entry>)
    requires id in Three() && Terms(log) && core == At(id, core.Term(), core.persistent.votedFor, log, core.commitIndex)
    ensures FreshProgress(core) == Fresh(id, log)
  {
    ConfigOf(core, id);
    assert Three() + {} == Three();
    assert FreshProgress(core).matchIndex == Fresh(id, log).matchIndex;
    assert FreshProgress(core).nextIndex == Fresh(id, log).nextIndex;
  }

  lemma {:induction false} NoBytes(log: seq<Entry>)
    requires forall i :: 0 <= i < |log| ==> log[i].payload == Command([])
    ensures CommandBytes(log) == 0
  {
    if log != [] {
      NoBytes(log[..|log| - 1]);
    }
  }

  /** Other members' progress does not reach past the commit index, so nothing new commits. */
  predicate Behind(state: LeaderState, id: NodeId, commit: LogIndex) {
    forall p :: p in Three() && p != id ==> state.Match(p) <= commit
  }

  lemma Accepted(core: Core, id: NodeId, log: seq<Entry>)
    requires Terms(log) && |log| < 100 && core == At(id, core.Term(), core.persistent.votedFor, log, core.commitIndex)
    ensures !core.ProposalLimitExceeded([])
  {
    var pending := core.Log().Slice(core.commitIndex + 1, core.Log().LastIndex());
    NoBytes(pending);
  }

  lemma NothingCommits(core: Core, state: LeaderState, id: NodeId)
    requires id in Three() && Terms(core.Log().entries) && Behind(state, id, core.commitIndex)
    requires core == At(id, core.Term(), core.persistent.votedFor, core.Log().entries, core.commitIndex)
    ensures MaybeCommit(core, state) == CommitResult(core, state, NOTHING, false)
  {
    OnePass(Three(), id, core, state);
    var commit := AdvanceCommit(core, state).commitIndex;
    var counted := set p | p in Three() && state.Match(p) >= commit;
    Quorums(id, if id == 0 then 1 else 0);
    if commit > core.commitIndex {
      assert Three() * counted <= Three() * {id};
      SubsetSize(Three() * counted, Three() * {id});
    }
    AdvanceKeeps(core, state);
  }

  lemma AdvanceKeeps(core: Core, state: LeaderState)
    ensures AdvanceCommit(core, state).commitIndex >= core.commitIndex
  {
    CommitTargetBounds(core, state, core.Log().LastIndex());
  }

  /** The leader's log one entry longer. */
  function Longer(log: seq<Entry>, term: Term): seq<Entry> { log + [Entry(term, |log| + 1, Command([]))] }

  lemma Proposes(id: NodeId, to: NodeId, term: Term, vote: Option<NodeId>, log: seq<Entry>, commit: LogIndex,
                 state: LeaderState)
    requires id in Three() && to in Three() && id != to && Terms(log) && term >= 1 && commit <= |log| < 100
    requires Behind(state, id, commit) && state.Next(to) >= 1
    ensures var result := NodePropose(Node(At(id, term, vote, log, commit), Leader(state)), []);
      && result.Ok?
      && result.value.0 == Node(At(id, term, vote, Longer(log, term), commit),
                                Leader(state.(matchIndex := state.matchIndex[id := |log| + 1])))
      && Request(id, to, term, Longer(log, term), commit, state.Next(to)) in result.value.1.messages
  {
    hide Broadcast, Request, MaybeCommit, Core.ProposalLimitExceeded;
    var core, after := At(id, term, vote, log, commit), At(id, term, vote, Longer(log, term), commit);
    var tracked := state.(matchIndex := state.matchIndex[id := |log| + 1]);
    ConfigOf(core, id);
    ConfigOf(after, id);
    Accepted(core, id, log);
    NothingCommits(after, tracked, id);
    NoPipelining(after, tracked);
    SendsTo(after, tracked, id, to, Longer(log, term));
  }

  lemma StepsDown(id: NodeId, m: Message, term: Term, vote: Option<NodeId>, log: seq<Entry>, commit: LogIndex,
                  state: LeaderState)
    requires m.body.AppendRequest? && m.term > term
    ensures StepEvent(Node(At(id, term, vote, log, commit), Leader(state)), Receive(m), Due()).0
      == Node(At(id, m.term, None, log, commit), Follower(Some(m.from)))
  {
  }

  lemma Follows(id: NodeId, m: Message, term: Term, vote: Option<NodeId>, log: seq<Entry>, commit: LogIndex,
                leader: Option<NodeId>, after: seq<Entry>)
    requires Terms(log) && Terms(after) && m.body.AppendRequest? && m.term >= term && m.body.leaderCommit == 0
    requires Consistent(log, m.body.prevLogIndex, m.body.prevLogTerm)
    requires AbsorbAll(Plain(log), m.body.entries) == Plain(after)
    ensures var (node, effects) := StepEvent(Node(At(id, term, vote, log, commit), Follower(leader)), Receive(m),
        Due());
      && node == Node(At(id, m.term, if m.term == term then vote else None, after, commit), Follower(Some(m.from)))
      && Message(id, m.from, m.term, AppendResponse(true, |after|)) in effects.messages
  {
    hide AbsorbAll;
    PlainLog(log);
    PlainLog(after);
  }

  lemma AckCommits(id: NodeId, m: Message, term: Term, vote: Option<NodeId>, log: seq<Entry>, commit: LogIndex,
                   state: LeaderState)
    requires id in Three() && m.from in Three() && m.from != id && Terms(log)
    requires m.body == AppendResponse(true, |log|) && m.term == term && commit < |log| && LastTermOf(log) == term
    requires state.Match(id) == |log|
    ensures StepEvent(Node(At(id, term, vote, log, commit), Leader(state)), Receive(m), Due()).0
      == Node(At(id, term, vote, log, |log|),
              Leader(state.(matchIndex := state.matchIndex[m.from := |log|],
                  nextIndex := state.nextIndex[m.from := |log| + 1])))
  {
    hide MaybeCommit, Core.EffectiveConfig;
    var core := At(id, term, vote, log, commit);
    var acked := state.(matchIndex := state.matchIndex[m.from := |log|],
        nextIndex := state.nextIndex[m.from := |log| + 1]);
    ConfigOf(core, id);
    CommitIs(core, acked, id, m.from);
  }

  lemma CommitIs(core: Core, state: LeaderState, id: NodeId, p: NodeId)
    requires id in Three() && p in Three() && id != p && Terms(core.Log().entries)
    requires core == At(id, core.Term(), core.persistent.votedFor, core.Log().entries, core.commitIndex)
    requires core.commitIndex < |core.Log().entries| && LastTermOf(core.Log().entries) == core.Term()
    requires state.Match(id) == |core.Log().entries| == state.Match(p)
    ensures MaybeCommit(core, state)
      == CommitResult(core.(commitIndex := |core.Log().entries|), state, NOTHING, false)
  {
    hide MaybeCommit, AdvanceCommit, Core.EffectiveConfig;
    OnePass(Three(), id, core, state);
    CommitsAll(core, state, id, p);
  }

  lemma CommitsAll(core: Core, state: LeaderState, id: NodeId, p: NodeId)
    requires id in Three() && p in Three() && id != p && Terms(core.Log().entries)
    requires core == At(id, core.Term(), core.persistent.votedFor, core.Log().entries, core.commitIndex)
    requires core.commitIndex < |core.Log().entries| && LastTermOf(core.Log().entries) == core.Term()
    requires state.Match(id) == |core.Log().entries| == state.Match(p)
    ensures AdvanceCommit(core, state).commitIndex == |core.Log().entries|
  {
    hide Core.EffectiveConfig, Majority;
    ConfigOf(core, id);
    TwoAcked(state, id, p, |core.Log().entries|);
    assert Committable(core, state, |core.Log().entries|);
  }

  lemma TwoAcked(state: LeaderState, id: NodeId, p: NodeId, index: LogIndex)
    requires id in Three() && p in Three() && id != p && state.Match(id) >= index && state.Match(p) >= index
    ensures Majority((set v | v in Three() && state.Match(v) >= index), Three())
  {
    var counted := set v | v in Three() && state.Match(v) >= index;
    Quorums(id, p);
    assert Three() * {id, p} <= Three() * counted;
    SubsetSize(Three() * {id, p}, Three() * counted);
  }

  /** A read round of a leader that has just committed its own last entry. */
  function Reading(id: NodeId, commit: LogIndex, state: LeaderState): LeaderState {
    state.(nextReadId := state.nextReadId + 1,
           pending := Some(PendingRead(state.nextReadId, commit, Simple(Three(), {}), {id})))
  }

  lemma StartsRead(id: NodeId, to: NodeId, term: Term, vote: Option<NodeId>, log: seq<Entry>, state: LeaderState)
    requires id in Three() && to in Three() && id != to && Terms(log) && log != [] && LastTermOf(log) == term
    requires state.pending.None?
    ensures var result := NodeReadIndex(Node(At(id, term, vote, log, |log|), Leader(state)));
      && result.Ok? && result.value.1 == Node(At(id, term, vote, log, |log|), Leader(Reading(id, |log|, state)))
      && Message(id, to, term, ReadIndexRequest(state.nextReadId, |log|)) in result.value.2.messages
  {
    ConfigOf(At(id, term, vote, log, |log|), id);
    PlainLog(log);
    Quorums(id, to);
  }

  /** A read request of the current term is answered. */
  lemma AnswersRead(id: NodeId, m: Message, term: Term, vote: Option<NodeId>, log: seq<Entry>, commit: LogIndex,
                    leader: Option<NodeId>)
    requires m.body.ReadIndexRequest? && m.term == term
    ensures var (after, effects) := StepEvent(Node(At(id, term, vote, log, commit), Follower(leader)), Receive(m),
        Due());
      && after == Node(At(id, term, vote, log, commit), Follower(Some(m.from)))
      && Message(id, m.from, term, ReadIndexResponse(m.body.id, m.body.readIndex)) in effects.messages
  {
  }

  /** A stale read request is answered under the current term. */
  lemma Echoes(id: NodeId, m: Message, term: Term, vote: Option<NodeId>, log: seq<Entry>, commit: LogIndex,
               leader: Option<NodeId>)
    requires m.body.ReadIndexRequest? && m.term < term
    ensures var (after, effects) := StepEvent(Node(At(id, term, vote, log, commit), Follower(leader)), Receive(m),
        Due());
      && after == Node(At(id, term, vote, log, commit), Follower(leader))
      && Message(id, m.from, term, ReadIndexResponse(m.body.id, m.body.readIndex)) in effects.messages
  {
  }

  lemma QuorumReached(id: NodeId, from: NodeId, index: LogIndex, state: LeaderState)
    requires id in Three() && from in Three() && id != from && state.pending.None?
    ensures HandleReadIndexResponse(Reading(id, index, state), from, state.nextReadId, index)
      == Reading(id, index, state).(pending := None, confirmedReadIndex := Max(state.confirmedReadIndex, index))
  {
    Quorums(id, from);
  }

  lemma ConfirmsIt(id: NodeId, m: Message, term: Term, vote: Option<NodeId>, log: seq<Entry>, state: LeaderState)
    requires id in Three() && m.from in Three() && id != m.from && state.pending.None? && m.term == term
    requires m.body == ReadIndexResponse(state.nextReadId, |log|)
    ensures StepEvent(Node(At(id, term, vote, log, |log|), Leader(Reading(id, |log|, state))), Receive(m), Due()).0
      == Node(At(id, term, vote, log, |log|),
              Leader(Reading(id, |log|, state).(pending := None,
                  confirmedReadIndex := Max(state.confirmedReadIndex, |log|))))
  {
    hide HandleReadIndexResponse, Reading;
    QuorumReached(id, m.from, |log|, state);
  }
}
