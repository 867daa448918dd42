/** The leader role: replication, the commit loop, read-index rounds and proposals. */
module LeaderRole {
  import opened Types
  import opened Membership
  import opened RaftLog
  import opened Messages
  import opened RaftCore
  import opened FollowerRole
  import opened CandidateRoles

  // --- Replication ---

  /** What a leader sends a peer whose next index is `next`: entries, or a snapshot when they are gone. */
  function AppendFor(core: Core, next: LogIndex, to: NodeId): Effects {
    var log := core.Log();
    if next <= log.snapshotIndex then
      Effects(false, {}, {SendSnapshot(to, log.snapshotIndex, log.snapshotTerm, core.ConfigAt(log.snapshotIndex))})
    else
      Send(Message(core.Id(), to, core.Term(),
                   AppendRequest(next - 1, PrevTerm(log, next - 1), EntriesFor(core, next), core.commitIndex)))
  }

  function PrevTerm(log: Log, prev: LogIndex): Term {
    if 0 < prev <= log.snapshotIndex then log.snapshotTerm else log.TermAt(prev)
  }

  /** The slice is end-inclusive, so it holds up to one entry more than the configured maximum. */
  function EntriesFor(core: Core, next: LogIndex): seq<Entry> {
    core.Log().Slice(next, Min(next + core.settings.maxEntriesPerMsg, core.Log().LastIndex() + 1))
  }

  /** Where `next` moves after a send: past the last entry sent, when pipelining. */
  function NextAfterSend(core: Core, next: LogIndex): LogIndex {
    var entries := EntriesFor(core, next);
    if core.settings.pipelining && next > core.Log().snapshotIndex && entries != []
        && entries[|entries| - 1].index + 1 > next
    then entries[|entries| - 1].index + 1
    else next
  }

  function SendAppendTo(core: Core, state: LeaderState, to: NodeId): (LeaderState, Effects) {
    var next := state.Next(to);
    var after := NextAfterSend(core, next);
    (if after != next then state.(nextIndex := state.nextIndex[to := after]) else state, AppendFor(core, next, to))
  }

  function Broadcast(core: Core, state: LeaderState): (LeaderState, Effects) {
    BroadcastTo(core, state, core.EffectiveConfig().ReplicationPeers(core.Id()))
  }

  /** Peers are served independently: each send reads and moves only its own next index. */
  function BroadcastTo(core: Core, state: LeaderState, peers: set<NodeId>): (LeaderState, Effects) {
    var moved := map to | to in peers && NextAfterSend(core, state.Next(to)) != state.Next(to)
                   :: NextAfterSend(core, state.Next(to));
    (state.(nextIndex := state.nextIndex + moved),
     Effects(false,
             set to, m | to in peers && m in AppendFor(core, state.Next(to), to).messages :: m,
             set to, s | to in peers && s in AppendFor(core, state.Next(to), to).snapshots :: s))
  }

  /** A new leader knows nothing about its peers' logs. */
  function FreshProgress(core: Core): LeaderState {
    var nodes := core.EffectiveConfig().AllNodes();
    var last := core.Log().LastIndex();
    var matched := map id | id in nodes :: 0;
    LeaderState(map id | id in nodes :: last + 1,
                if core.settings.parallelDiskWrite then matched else matched[core.Id() := last],
                1, None, 0)
  }

  function NewLeader(core: Core): (LeaderState, Effects) { Broadcast(core, FreshProgress(core)) }

  /** Adds progress for members the leader does not track yet. */
  function ReinitProgress(core: Core, state: LeaderState): LeaderState {
    var nodes := core.EffectiveConfig().AllNodes();
    var last := core.Log().LastIndex();
    state.(nextIndex := (map id | id in nodes :: last + 1) + state.nextIndex,
           matchIndex := OwnMatch(core, (map id | id in nodes :: 0) + state.matchIndex))
  }

  function OwnMatch(core: Core, matchIndex: map<NodeId, LogIndex>): map<NodeId, LogIndex> {
    if core.settings.parallelDiskWrite then matchIndex else matchIndex[core.Id() := core.Log().LastIndex()]
  }

  // --- The commit loop ---

  predicate Acknowledged(core: Core, state: LeaderState, index: LogIndex) {
    var config := core.EffectiveConfig();
    config.HasQuorum(set id | id in config.Voters() && state.Match(id) >= index)
  }

  predicate Committable(core: Core, state: LeaderState, index: LogIndex) {
    core.Log().TermAt(index) == core.Term() && Acknowledged(core, state, index)
  }

  /** Searches down from `index` to the current commit index. */
  function CommitTarget(core: Core, state: LeaderState, index: LogIndex): LogIndex {
    if index <= core.commitIndex then core.commitIndex
    else if Committable(core, state, index) then index
    else CommitTarget(core, state, index - 1)
  }

  function AdvanceCommit(core: Core, state: LeaderState): Core {
    core.(commitIndex := CommitTarget(core, state, core.Log().LastIndex()))
  }

  datatype ConfigCommit = Done | Removed(config: Configuration) | Complete(target: Configuration)

  /** The first configuration in `(from, upTo]` that ends this leadership or a joint transition. */
  function CommittedConfig(core: Core, from: LogIndex, upTo: LogIndex): ConfigCommit
    decreases upTo - from
  {
    if from >= upTo then Done
    else
      match core.Log().Get(from + 1)
      case Some(Entry(_, _, Config(config))) =>
        if !config.IsVoter(core.Id()) then Removed(config)
        else if config.Joint? then Complete(config.TransitionTarget().value)
        else CommittedConfig(core, from + 1, upTo)
      case _ => CommittedConfig(core, from + 1, upTo)
  }

  /** The first caught-up voter in iteration order, if any, is told to campaign at once. */
  function AutoTransfer(core: Core, state: LeaderState, config: Configuration): Effects {
    var last := core.Log().LastIndex();
    var caughtUp := set id | id in config.VoterPeers(core.Id()) && state.Match(id) >= last;
    var first := if config.Joint? then caughtUp * config.outgoing else caughtUp;
    if first != {} then core.Reply(Least(first), TimeoutNow)
    else if caughtUp != {} then core.Reply(Least(caughtUp), TimeoutNow)
    else NOTHING
  }

  function AppendTarget(core: Core, state: LeaderState, target: Configuration): (Core, LeaderState, Effects) {
    var after := core.WithLog(core.Log().Append(Entry(core.Term(), core.Log().LastIndex() + 1, Config(target))));
    var (sent, effects) := Broadcast(after, ReinitProgress(after, state));
    (after, sent, effects.WithPersist())
  }

  datatype CommitResult = CommitResult(core: Core, state: LeaderState, effects: Effects, stepDown: bool)

  /** Commits as far as possible; a committed joint configuration appends its target and tries again. */
  function MaybeCommit(core: Core, state: LeaderState): CommitResult
    decreases JointAbove(core)
  {
    var advanced := AdvanceCommit(core, state);
    if advanced.commitIndex == core.commitIndex then CommitResult(core, state, NOTHING, false)
    else
      match CommittedConfig(advanced, core.commitIndex, advanced.commitIndex)
      case Done => CommitResult(advanced, state, NOTHING, false)
      case Removed(config) => CommitResult(advanced, state, AutoTransfer(advanced, state, config), true)
      case Complete(target) =>
        CommitTargetBounds(core, state, core.Log().LastIndex());
        CompletionShrinksJoint(core, state, target);
        var (after, sent, effects) := AppendTarget(advanced, state, target);
        var rest := MaybeCommit(after, sent);
        rest.(effects := effects.Merge(rest.effects))
  }

  // --- The commit loop ends ---

  predicate IsJointEntry(entry: Entry) { entry.payload.Config? && entry.payload.config.Joint? }

  /** Joint configuration entries from position `k` on. */
  function JointFrom(entries: seq<Entry>, k: nat): nat
    decreases |entries| - k
  {
    if k >= |entries| then 0 else (if IsJointEntry(entries[k]) then 1 else 0) + JointFrom(entries, k + 1)
  }

  /** Joint configuration entries the commit index has not reached. */
  function JointAbove(core: Core): nat { JointFrom(core.Log().entries, Reached(core.Log(), core.commitIndex)) }

  /** How many of the held entries lie at or below `index`. */
  function Reached(log: Log, index: LogIndex): nat { Max(index - log.snapshotIndex, 0) }

  lemma {:induction false} CommitTargetBounds(core: Core, state: LeaderState, index: LogIndex)
    ensures core.commitIndex <= CommitTarget(core, state, index) <= Max(core.commitIndex, index)
  {
    if index > core.commitIndex && !Committable(core, state, index) {
      CommitTargetBounds(core, state, index - 1);
    }
  }

  lemma {:induction false} JointFromDrops(entries: seq<Entry>, k: nat, m: nat)
    requires k <= m
    ensures JointFrom(entries, m) <= JointFrom(entries, k)
    decreases m - k
  {
    if k < m {
      JointFromDrops(entries, k + 1, m);
    }
  }

  lemma {:induction false} JointFromAppend(entries: seq<Entry>, entry: Entry, k: nat)
    requires !IsJointEntry(entry)
    ensures JointFrom(entries + [entry], k) == JointFrom(entries, k)
    decreases |entries| - k
  {
    if k < |entries| {
      JointFromAppend(entries, entry, k + 1);
    } else if k == |entries| {
      assert JointFrom(entries + [entry], k + 1) == 0;
    }
  }

  /** A `Complete` verdict names a joint entry that the commit index has just passed. */
  lemma {:induction false} CompleteNamesJoint(core: Core, from: LogIndex, upTo: LogIndex)
    requires CommittedConfig(core, from, upTo).Complete?
    ensures exists i :: from < i <= upTo && core.Log().Get(i).Some? && IsJointEntry(core.Log().Get(i).value)
    ensures CommittedConfig(core, from, upTo).target.Simple?
    decreases upTo - from
  {
    var got := core.Log().Get(from + 1);
    if !(got.Some? && IsJointEntry(got.value)) {
      CompleteNamesJoint(core, from + 1, upTo);
    }
  }

  /** Passing a joint entry and appending a plain one leaves fewer joint entries above the commit index. */
  lemma JointPassed(log: Log, commit: LogIndex, advanced: LogIndex, i: LogIndex, entry: Entry)
    requires commit < i <= advanced
    requires log.Get(i).Some? && IsJointEntry(log.Get(i).value) && !IsJointEntry(entry)
    ensures JointFrom(log.Append(entry).entries, Reached(log, advanced)) < JointFrom(log.entries, Reached(log, commit))
  {
    var lo, at, hi := Reached(log, commit), i - log.snapshotIndex - 1, Reached(log, advanced);
    JointFromDrops(log.entries, lo, at);
    JointFromDrops(log.entries, at + 1, hi);
    JointFromAppend(log.entries, entry, hi);
  }

  lemma CompletionShrinksJoint(core: Core, state: LeaderState, target: Configuration)
    requires AdvanceCommit(core, state).commitIndex > core.commitIndex
    requires CommittedConfig(AdvanceCommit(core, state), core.commitIndex, AdvanceCommit(core, state).commitIndex)
      == Complete(target)
    ensures JointAbove(AppendTarget(AdvanceCommit(core, state), state, target).0) < JointAbove(core)
  {
    hide Broadcast, CommitTarget, JointFrom;
    var advanced := AdvanceCommit(core, state);
    CompleteNamesJoint(advanced, core.commitIndex, advanced.commitIndex);
    var i :| core.commitIndex < i <= advanced.commitIndex
      && core.Log().Get(i).Some? && IsJointEntry(core.Log().Get(i).value);
    JointPassed(core.Log(), core.commitIndex, advanced.commitIndex, i,
                Entry(core.Term(), core.Log().LastIndex() + 1, Config(target)));
  }

  // --- Proposals ---

  function Propose(core: Core, state: LeaderState, bytes: Bytes): CommitResult {
    AppendOwn(core, state, Command(bytes))
  }

  /** Appends an entry of the leader's term, tries to commit, then replicates. */
  function AppendOwn(core: Core, state: LeaderState, payload: Payload): CommitResult {
    var after := core.WithLog(core.Log().Append(Entry(core.Term(), core.Log().LastIndex() + 1, payload)));
    var tracked := if payload.Config? then ReinitProgress(after, state)
                   else state.(matchIndex := OwnMatch(after, state.matchIndex));
    var committed := MaybeCommit(after, tracked);
    var (sent, effects) := Broadcast(committed.core, committed.state);
    CommitResult(committed.core, sent, effects.WithPersist().Merge(committed.effects), committed.stepDown)
  }

  function ProposeConfigChange(core: Core, state: LeaderState, change: ConfigChange)
    : Result<CommitResult, ConfigChangeError>
  {
    var current := core.EffectiveConfig();
    var refused := Validate(change, current, core.settings.mode);
    if refused.Some? then Err(refused.value)
    else if change.AddVoter? && state.Match(change.id) < core.Log().LastIndex() then
      Err(LearnerNotCaughtUp(change.id, state.Match(change.id), core.Log().LastIndex()))
    else if core.HasPendingConfig() then Err(ChangeInProgress)
    else Ok(AppendOwn(core, state, Config(Apply(change, current, core.settings.mode))))
  }

  datatype TransferError = TransferNotLeader | TargetIsSelf | TargetNotVoter
    | TargetLagging(matchIndex: LogIndex, lastIndex: LogIndex)

  function TransferLeadership(core: Core, state: LeaderState, target: NodeId): Result<Effects, TransferError> {
    if target == core.Id() then Err(TargetIsSelf)
    else if !core.EffectiveConfig().IsVoter(target) then Err(TargetNotVoter)
    else if state.Match(target) < core.Log().LastIndex() then
      Err(TargetLagging(state.Match(target), core.Log().LastIndex()))
    else Ok(core.Reply(target, TimeoutNow))
  }

  // --- Read index ---

  datatype ReadIndexError = ReadNotLeader(hint: Option<NodeId>) | CurrentTermNotCommitted
    | ReadInProgress(readIndex: LogIndex)

  /** The highest committed index of the current term; the search stops at the first older term. */
  function CurrentTermCommit(core: Core, index: LogIndex): Option<LogIndex> {
    if index == 0 || core.Log().TermAt(index) < core.Term() then None
    else if core.Log().TermAt(index) == core.Term() then Some(index)
    else CurrentTermCommit(core, index - 1)
  }

  function ReadIndexRequests(core: Core, pending: PendingRead): Effects {
    Effects(false, set to | to in pending.configuration.VoterPeers(core.Id()) ::
              Message(core.Id(), to, core.Term(), ReadIndexRequest(pending.id, pending.readIndex)), {})
  }

  function RequestReadIndex(core: Core, state: LeaderState)
    : Result<(LogIndex, LeaderState, Effects), ReadIndexError>
  {
    if state.pending.Some? then Err(ReadInProgress(state.pending.value.readIndex))
    else if CurrentTermCommit(core, core.commitIndex).None? then Err(CurrentTermNotCommitted)
    else
      var pending := PendingRead(state.nextReadId, core.commitIndex, core.EffectiveConfig(), {core.Id()});
      var counted := state.(nextReadId := state.nextReadId + 1);
      if pending.configuration.HasQuorum(pending.acks) then
        Ok((core.commitIndex,
            counted.(confirmedReadIndex := Max(state.confirmedReadIndex, core.commitIndex)), NOTHING))
      else
        Ok((core.commitIndex, counted.(pending := Some(pending)), ReadIndexRequests(core, pending)))
  }

  /** Whether a read at this index may be served: the index is confirmed and applied. */
  predicate ReadIndexReady(core: Core, state: LeaderState, readIndex: LogIndex) {
    state.confirmedReadIndex >= readIndex && core.lastApplied >= readIndex
  }

  function HandleReadIndexResponse(state: LeaderState, from: NodeId, id: nat, readIndex: LogIndex): LeaderState {
    match state.pending
    case None => state
    case Some(pending) =>
      if !pending.configuration.IsVoter(from) || pending.id != id || pending.readIndex != readIndex then state
      else
        var acks := pending.acks + {from};
        if pending.configuration.HasQuorum(acks)
        then state.(pending := None, confirmedReadIndex := Max(state.confirmedReadIndex, readIndex))
        else state.(pending := Some(pending.(acks := acks)))
  }

  // --- Steps ---

  function LeaderStep(core: Core, state: LeaderState, event: Event, clock: Clock): StepResult {
    match event
    case Tick =>
      if !clock.expired then StepResult(core, Leader(state), Stay, NOTHING)
      else
        var (sent, effects) := Broadcast(core, state);
        StepResult(core, Leader(sent), Stay,
                   if state.pending.Some? then effects.Merge(ReadIndexRequests(core, state.pending.value)) else effects)
    case DiskWriteComplete(index) =>
      if index > state.Match(core.Id()) then
        Committed(MaybeCommit(core, state.(matchIndex := state.matchIndex[core.Id() := index])))
      else StepResult(core, Leader(state), Stay, NOTHING)
    case Receive(m) =>
      if m.body.PreVoteRequest? then
        StepResult(core, Leader(state), Stay, core.Reply(m.from, PreVoteResponse(core.Term(), false)))
      else if m.term > core.Term() then StepDown(core, Leader(state), m)
      else if m.term < core.Term() then StepResult(core, Leader(state), Stay, RefuseStale(core, m))
      else
        match m.body
        case AppendResponse(success, lastIndex) => HandleAppendResponse(core, state, m.from, success, lastIndex)
        case InstallSnapshotResponse(success, index) =>
          if !success || !core.EffectiveConfig().IsMember(m.from) || index <= state.Match(m.from)
          then StepResult(core, Leader(state), Stay, NOTHING)
          else Committed(MaybeCommit(core, state.(matchIndex := state.matchIndex[m.from := index],
                                                  nextIndex := state.nextIndex[m.from := index + 1])))
        case ReadIndexResponse(id, readIndex) =>
          StepResult(core, Leader(HandleReadIndexResponse(state, m.from, id, readIndex)), Stay, NOTHING)
        case VoteRequest(_, _) => StepResult(core, Leader(state), Stay, core.Reply(m.from, VoteResponse(false)))
        case _ => StepResult(core, Leader(state), Stay, NOTHING)
  }

  function Committed(result: CommitResult): StepResult {
    StepResult(result.core, Leader(result.state), if result.stepDown then ToFollower(None) else Stay, result.effects)
  }

  /** Success is taken at its word; a refusal moves the next index to the follower's hint and retries. */
  function HandleAppendResponse(core: Core, state: LeaderState, from: NodeId, success: bool, lastIndex: LogIndex)
    : StepResult
  {
    if !core.EffectiveConfig().IsMember(from) then StepResult(core, Leader(state), Stay, NOTHING)
    else if success then
      var acked := state.(matchIndex := state.matchIndex[from := lastIndex]);
      Committed(MaybeCommit(core, if core.settings.pipelining then acked
                                  else acked.(nextIndex := acked.nextIndex[from := lastIndex + 1])))
    else
      var next := if core.settings.pipelining then Max(lastIndex + 1, state.Match(from) + 1) else lastIndex + 1;
      var (sent, effects) := SendAppendTo(core, state.(nextIndex := state.nextIndex[from := next]), from);
      StepResult(core, Leader(sent), Stay, effects)
  }
}
