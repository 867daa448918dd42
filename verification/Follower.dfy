/** The follower role, and the parts of passive roles that answer vote requests. */
module FollowerRole {
  import opened Types
  import opened Membership
  import opened RaftLog
  import opened Messages
  import opened RaftCore

  /** The log once a suffix that conflicts with `entry` is gone. */
  function Cleared(log: Log, entry: Entry): Log {
    var existing := log.TermAt(entry.index);
    if existing != 0 && existing != entry.term then log.TruncateAfter(entry.index - 1) else log
  }

  /** Takes in one leader entry: a conflicting suffix goes, a missing entry comes. */
  function Absorb(log: Log, entry: Entry): Log {
    var base := Cleared(log, entry);
    if entry.index > base.LastIndex() then base.Append(entry) else base
  }

  /** The log after the loop has taken in the first `k` entries. */
  function AbsorbFirst(log: Log, entries: seq<Entry>, k: nat): Log
    requires k <= |entries|
  {
    if k == 0 then log else Absorb(AbsorbFirst(log, entries, k - 1), entries[k - 1])
  }

  /** Whether the loop over the first `k` entries appended anything. */
  predicate Appended(log: Log, entries: seq<Entry>, k: nat)
    requires k <= |entries|
  {
    k > 0 &&
    (|| Appended(log, entries, k - 1)
     || entries[k - 1].index > Cleared(AbsorbFirst(log, entries, k - 1), entries[k - 1]).LastIndex())
  }

  function AbsorbAll(log: Log, entries: seq<Entry>): Log { AbsorbFirst(log, entries, |entries|) }

  predicate ConsistentAt(log: Log, prevIndex: LogIndex, prevTerm: Term) {
    prevIndex == 0 || log.TermAt(prevIndex) == prevTerm
  }

  function FollowerStep(core: Core, leader: Option<NodeId>, event: Event, clock: Clock): StepResult {
    match event
    case Tick =>
      StepResult(core, Follower(leader),
                 if !clock.expired then Stay else if core.settings.prevote then ToPreCandidate else ToCandidate,
                 NOTHING)
    case DiskWriteComplete(_) => StepResult(core, Follower(leader), Stay, NOTHING)
    case Receive(m) =>
      if (m.body.VoteRequest? || m.body.PreVoteRequest?) && leader.Some? && clock.recent then
        StepResult(core, Follower(leader), Stay, DenyVote(core, m))
      else if m.body.PreVoteRequest? then
        StepResult(core, Follower(leader), Stay, AnswerPreVote(core, m))
      else if m.term < core.Term() then
        StepResult(core, Follower(leader), Stay, RejectStale(core, m))
      else
        var updated := m.term > core.Term();
        var known := if updated && (m.body.AppendRequest? || m.body.ReadIndexRequest?) then Some(m.from) else leader;
        var result := Handle(core.MaybeUpdateTerm(m.term), known, m);
        if updated then result.(effects := result.effects.WithPersist()) else result
  }

  function Handle(core: Core, leader: Option<NodeId>, m: Message): StepResult {
    match m.body
    case VoteRequest(_, _) => HandleVoteRequest(core, leader, m)
    case AppendRequest(_, _, _, _) => HandleAppendRequest(core, m)
    case ReadIndexRequest(id, readIndex) =>
      StepResult(core, Follower(Some(m.from)), Stay, core.Reply(m.from, ReadIndexResponse(id, readIndex)))
    case InstallSnapshotRequest(_, _, _) => HandleInstallSnapshot(core, m)
    case TimeoutNow => StepResult(core, Follower(leader), ToCandidate, NOTHING)
    case _ => StepResult(core, Follower(leader), Stay, NOTHING)
  }

  function HandleVoteRequest(core: Core, leader: Option<NodeId>, m: Message): StepResult
    requires m.body.VoteRequest?
  {
    var granted :=
      && core.EffectiveConfig().IsVoter(m.from)
      && core.CanVoteFor(m.from)
      && core.LogIsUpToDate(m.body.lastLogTerm, m.body.lastLogIndex);
    var after := if granted then core.VoteFor(m.from) else core;
    var effects := core.Reply(m.from, VoteResponse(granted));
    StepResult(after, Follower(leader), Stay, if granted then effects.WithPersist() else effects)
  }

  function HandleAppendRequest(core: Core, m: Message): StepResult
    requires m.body.AppendRequest?
  {
    if !ConsistentAt(core.Log(), m.body.prevLogIndex, m.body.prevLogTerm) then
      StepResult(core, Follower(Some(m.from)), Stay,
                 core.Reply(m.from, AppendResponse(false, core.Log().LastIndex())))
    else
      var log := AbsorbAll(core.Log(), m.body.entries);
      var effects := core.Reply(m.from, AppendResponse(true, log.LastIndex()));
      StepResult(WithAbsorbed(core, log, m.body.leaderCommit), Follower(Some(m.from)), Stay,
                 if Appended(core.Log(), m.body.entries, |m.body.entries|) then effects.WithPersist() else effects)
  }

  /** The commit index follows the leader's, as far as the whole log reaches. */
  function WithAbsorbed(core: Core, log: Log, leaderCommit: LogIndex): Core {
    core.WithLog(log).(commitIndex :=
      if leaderCommit > core.commitIndex then Min(leaderCommit, log.LastIndex()) else core.commitIndex)
  }

  function HandleInstallSnapshot(core: Core, m: Message): StepResult
    requires m.body.InstallSnapshotRequest?
  {
    var index, term := m.body.lastIncludedIndex, m.body.lastIncludedTerm;
    var log := core.Log();
    if index <= log.snapshotIndex || (index < core.commitIndex && !log.SnapshotMatchesPrefix(index, term)) then
      StepResult(core, Follower(Some(m.from)), Stay,
                 core.Reply(m.from, InstallSnapshotResponse(false, index)))
    else
      var after := core.WithLog(log.InstallSnapshot(index, term, m.body.configuration))
        .(commitIndex := Max(core.commitIndex, index), lastApplied := Max(core.lastApplied, index));
      StepResult(after, Follower(Some(m.from)), Stay,
                 core.Reply(m.from, InstallSnapshotResponse(true, index)).WithPersist())
  }

  /** A stale read-index request is answered under the current term; other stale requests are refused. */
  function RejectStale(core: Core, m: Message): Effects {
    match m.body
    case VoteRequest(_, _) => core.Reply(m.from, VoteResponse(false))
    case AppendRequest(_, _, _, _) => core.Reply(m.from, AppendResponse(false, core.Log().LastIndex()))
    case ReadIndexRequest(id, readIndex) => core.Reply(m.from, ReadIndexResponse(id, readIndex))
    case _ => NOTHING
  }

  /** Refuses a vote, or a pre-vote, without adopting the sender's term. */
  function DenyVote(core: Core, m: Message): Effects {
    match m.body
    case PreVoteRequest(_, _, _) => core.Reply(m.from, PreVoteResponse(core.Term(), false))
    case VoteRequest(_, _) => core.Reply(m.from, VoteResponse(false))
    case _ => NOTHING
  }

  /** Answers a pre-vote under the asker's term; nothing changes. */
  function AnswerPreVote(core: Core, m: Message): Effects
    requires m.body.PreVoteRequest?
  {
    var granted :=
      && core.EffectiveConfig().IsVoter(m.from)
      && m.body.nextTerm > core.Term()
      && core.LogIsUpToDate(m.body.lastLogTerm, m.body.lastLogIndex);
    Send(Message(core.Id(), m.from, m.term, PreVoteResponse(core.Term(), granted)))
  }
}
