/**
 The node as the program runs it: fields updated in place, loops over entries, indices and peers.
 Every operation is proved to do what the step functions say.
 */
module Machine {
  import opened Types
  import opened Membership
  import opened RaftLog
  import opened Messages
  import opened RaftCore
  import opened FollowerRole
  import opened CandidateRoles
  import opened LeaderRole
  import opened RaftNode

  lemma MergeLaws(a: Effects, b: Effects, c: Effects)
    ensures NOTHING.Merge(a) == a && a.Merge(NOTHING) == a
    ensures a.Merge(b).Merge(c) == a.Merge(b.Merge(c))
  {
  }

  lemma AppendNeverSaves(core: Core, next: LogIndex, to: NodeId)
    ensures !AppendFor(core, next, to).persist
  {
  }

  /** Serving one more peer reads and moves only that peer's progress. */
  lemma BroadcastAdds(core: Core, state: LeaderState, served: set<NodeId>, to: NodeId)
    requires to !in served
    ensures var (moved, sent) := BroadcastTo(core, state, served);
      var (after, more) := SendAppendTo(core, moved, to);
      BroadcastTo(core, state, served + {to}) == (after, sent.Merge(more))
  {
    hide AppendFor, NextAfterSend;
    var (moved, sent) := BroadcastTo(core, state, served);
    var (all, allSent) := BroadcastTo(core, state, served + {to});
    var (after, more) := SendAppendTo(core, moved, to);
    AppendNeverSaves(core, state.Next(to), to);
    assert moved.Next(to) == state.Next(to);
    assert all.nextIndex == after.nextIndex;
    assert all == after;
    assert allSent.messages == sent.messages + more.messages;
    assert allSent.snapshots == sent.snapshots + more.snapshots;
  }

  lemma BroadcastKeepsRound(core: Core, state: LeaderState)
    ensures Broadcast(core, state).0.pending == state.pending
  {
  }

  lemma BroadcastNone(core: Core, state: LeaderState)
    ensures BroadcastTo(core, state, {}) == (state, NOTHING)
  {
    var moved: map<NodeId, LogIndex> := map to | to in {} && NextAfterSend(core, state.Next(to)) != state.Next(to)
                   :: NextAfterSend(core, state.Next(to));
    assert moved == map[];
    assert state.nextIndex + moved == state.nextIndex;
    var (same, sent) := BroadcastTo(core, state, {});
    assert sent.messages == {} && sent.snapshots == {};
  }

  /** One round of the commit loop. */
  lemma CommitRound(core: Core, state: LeaderState)
    ensures var advanced := AdvanceCommit(core, state);
      if advanced.commitIndex == core.commitIndex then
        advanced == core && MaybeCommit(core, state) == CommitResult(core, state, NOTHING, false)
      else
        match CommittedConfig(advanced, core.commitIndex, advanced.commitIndex)
        case Done => MaybeCommit(core, state) == CommitResult(advanced, state, NOTHING, false)
        case Removed(config) =>
          MaybeCommit(core, state) == CommitResult(advanced, state, AutoTransfer(advanced, state, config), true)
        case Complete(target) =>
          var (after, sent, effects) := AppendTarget(advanced, state, target);
          var rest := MaybeCommit(after, sent);
          JointAbove(after) < JointAbove(core)
              && MaybeCommit(core, state) == rest.(effects := effects.Merge(rest.effects))
  {
    hide AutoTransfer, AppendTarget, CommittedConfig, CommitTarget;
    CommitTargetBounds(core, state, core.Log().LastIndex());
    var advanced := AdvanceCommit(core, state);
    if advanced.commitIndex != core.commitIndex {
      match CommittedConfig(advanced, core.commitIndex, advanced.commitIndex)
      case Complete(target) => CompletionShrinksJoint(core, state, target);
      case _ =>
    }
  }

  lemma LeastOfPart(part: set<NodeId>, whole: set<NodeId>)
    requires part <= whole && whole != {} && Least(whole) in part
    ensures Least(part) == Least(whole)
  {
  }

  /** The caught-up voters, group by group. */
  lemma TransferTargets(core: Core, state: LeaderState, config: Configuration, last: LogIndex)
    ensures var caughtUp := set id | id in config.VoterPeers(core.Id()) && state.Match(id) >= last;
      match config
      case Simple(voters, _) => caughtUp == set id | id in voters && id != core.Id() && state.Match(id) >= last
      case Joint(outgoing, incoming, _) =>
        var first := set id | id in outgoing && id != core.Id() && state.Match(id) >= last;
        && caughtUp * outgoing == first
        && (first == {} ==>
              caughtUp == set id | id in incoming - outgoing && id != core.Id() && state.Match(id) >= last)
  {
    match config
    case Simple(_, _) =>
    case Joint(outgoing, incoming, _) =>
      var caughtUp := set id | id in config.VoterPeers(core.Id()) && state.Match(id) >= last;
      var first := set id | id in outgoing && id != core.Id() && state.Match(id) >= last;
      assert caughtUp * outgoing == first;
      if first == {} {
        forall id | id in caughtUp ensures id in incoming - outgoing {
          assert id in outgoing ==> id in first;
        }
      }
  }

  /** `m`, with a default for the given ids where it has nothing. */
  function WithDefault(ids: set<NodeId>, value: LogIndex, m: map<NodeId, LogIndex>): map<NodeId, LogIndex> {
    (map id | id in ids :: value) + m
  }

  lemma ReinitIs(core: Core, state: LeaderState)
    ensures var nodes, last := core.EffectiveConfig().AllNodes(), core.Log().LastIndex();
      ReinitProgress(core, state) == state.(nextIndex := WithDefault(nodes, last + 1, state.nextIndex),
                                            matchIndex := OwnMatch(core, WithDefault(nodes, 0, state.matchIndex)))
  {
  }

  lemma FreshIs(core: Core)
    ensures var nodes, last := core.EffectiveConfig().AllNodes(), core.Log().LastIndex();
      FreshProgress(core) == LeaderState(WithDefault(nodes, last + 1, map[]), OwnMatch(core, WithDefault(nodes, 0,
          map[])), 1, None, 0)
  {
    var nodes, last := core.EffectiveConfig().AllNodes(), core.Log().LastIndex();
    assert FreshProgress(core).nextIndex == WithDefault(nodes, last + 1, map[]);
    assert FreshProgress(core).matchIndex == OwnMatch(core, WithDefault(nodes, 0, map[]));
  }

  lemma DefaultKeys(ids: set<NodeId>, value: LogIndex)
    ensures WithDefault(ids, value, map[]).Keys == ids
  {
  }

  lemma InsertNone(value: LogIndex, m: map<NodeId, LogIndex>)
    ensures WithDefault({}, value, m) == m
  {
  }

  lemma InsertMissing(ids: set<NodeId>, value: LogIndex, m: map<NodeId, LogIndex>, id: NodeId)
    ensures var before := WithDefault(ids, value, m);
      WithDefault(ids + {id}, value, m) == if id in before then before else before[id := value]
  {
  }

  lemma LoopStarts(log: Log, entries: seq<Entry>)
    ensures AbsorbFirst(log, entries, 0) == log && !Appended(log, entries, 0)
  {
  }

  /** One round of the append loop. */
  lemma LoopRound(log: Log, entries: seq<Entry>, i: nat)
    requires i < |entries|
    ensures var mid := AbsorbFirst(log, entries, i);
      && AbsorbFirst(log, entries, i + 1) == Absorb(mid, entries[i])
      && (Appended(log, entries, i + 1) <==>
            Appended(log, entries, i) || entries[i].index > Cleared(mid, entries[i]).LastIndex())
  {
  }

  class Machine {
    const settings: Settings
    const bootstrap: Configuration
    var term: Term
    var votedFor: Option<NodeId>
    var log: Log
    var commitIndex: LogIndex
    var lastApplied: LogIndex
    var role: Role

    function Core(): Core
      reads this
    {
      RaftCore.Core(settings, Persistent(term, votedFor, log, bootstrap), commitIndex, lastApplied)
    }

    function Node(): Node
      reads this
    {
      RaftNode.Node(Core(), role)
    }

    constructor Restore(settings: Settings, persistent: Persistent)
      ensures Node() == RaftNode.Restore(settings, persistent)
    {
      this.settings, bootstrap := settings, persistent.bootstrap;
      term, votedFor, log := persistent.term, persistent.votedFor, persistent.log;
      commitIndex, lastApplied, role := 0, 0, Follower(None);
    }

    // --- Core ---

    method UpdateTerm(other: Term) returns (updated: bool)
      modifies `term, `votedFor
      ensures Core() == old(Core()).MaybeUpdateTerm(other) && updated == (other > old(term))
    {
      updated := other > term;
      if updated {
        term, votedFor := other, None;
      }
    }

    method StartElection()
      modifies `term, `votedFor
      ensures Core() == old(Core()).StartElection()
    {
      var voter := Core().IsVoter();
      term := term + 1;
      votedFor := if voter then Some(settings.id) else None;
    }

    // --- Follower ---

    /** Takes the leader's entries in, one by one: a conflicting suffix goes, a missing entry comes. */
    method AppendEntries(entries: seq<Entry>) returns (persist: bool)
      modifies `log
      ensures log == AbsorbAll(old(log), entries) && persist == Appended(old(log), entries, |entries|)
    {
      hide AbsorbFirst, Appended;
      persist := false;
      LoopStarts(log, entries);
      for i := 0 to |entries|
        invariant log == AbsorbFirst(old(log), entries, i) && persist == Appended(old(log), entries, i)
      {
        LoopRound(old(log), entries, i);
        var entry := entries[i];
        var existing := log.TermAt(entry.index);
        if existing != 0 && existing != entry.term {
          log := log.TruncateAfter(entry.index - 1);
        }
        if entry.index > log.LastIndex() {
          log := log.Append(entry);
          persist := true;
        }
      }
    }

    method OnAppendRequest(m: Message) returns (effects: Effects)
      requires m.body.AppendRequest?
      modifies `log, `commitIndex, `role
      ensures var r := HandleAppendRequest(old(Core()), m);
        Core() == r.core && role == r.role && effects == r.effects && r.transition.Stay?
    {
      role := Follower(Some(m.from));
      if m.body.prevLogIndex > 0 && log.TermAt(m.body.prevLogIndex) != m.body.prevLogTerm {
        effects := Core().Reply(m.from, AppendResponse(false, log.LastIndex()));
        return;
      }
      var persist := AppendEntries(m.body.entries);
      if m.body.leaderCommit > commitIndex {
        commitIndex := Min(m.body.leaderCommit, log.LastIndex());
      }
      effects := Core().Reply(m.from, AppendResponse(true, log.LastIndex()));
      if persist {
        effects := effects.WithPersist();
      }
    }

    // --- Leader ---

    /** The highest committed index of the current term, searched downwards. */
    method CurrentTermCommitIndex() returns (found: Option<LogIndex>)
      ensures found == CurrentTermCommit(Core(), commitIndex)
    {
      var index := commitIndex;
      while index > 0
        invariant CurrentTermCommit(Core(), commitIndex) == CurrentTermCommit(Core(), index)
      {
        if log.TermAt(index) == term {
          return Some(index);
        }
        if log.TermAt(index) < term {
          break;
        }
        index := index - 1;
      }
      found := None;
    }

    /** Moves the commit index to the first index, from the top, that is of this term and acknowledged by a quorum. */
    method AdvanceCommitIndex()
      requires role.Leader?
      modifies `commitIndex
      ensures Core() == AdvanceCommit(old(Core()), role.state)
    {
      var config := Core().EffectiveConfig();
      var candidate: LogIndex := log.LastIndex();
      while candidate > commitIndex
        invariant commitIndex == old(commitIndex)
        invariant CommitTarget(Core(), role.state, candidate) == CommitTarget(Core(), role.state, log.LastIndex())
      {
        if log.TermAt(candidate) == term {
          var acks := set id | id in config.Voters() && role.state.Match(id) >= candidate;
          if config.HasQuorum(acks) {
            assert Committable(Core(), role.state, candidate);
            commitIndex := candidate;
            return;
          }
        }
        candidate := candidate - 1;
      }
    }

    /** Sends a peer the entries it is due, or a snapshot when they are gone; pipelining moves its next index on. */
    method SendAppend(to: NodeId) returns (effects: Effects)
      requires role.Leader?
      modifies `role
      ensures role.Leader? && (role.state, effects) == SendAppendTo(Core(), old(role.state), to)
    {
      hide Log.Slice, LatestConfig;
      var next := role.state.Next(to);
      if next <= log.snapshotIndex {
        return Effects(false, {}, {SendSnapshot(to, log.snapshotIndex, log.snapshotTerm,
            Core().ConfigAt(log.snapshotIndex))});
      }
      var prev := next - 1;
      var prevTerm := if prev <= log.snapshotIndex && prev > 0 then log.snapshotTerm else log.TermAt(prev);
      var end := Min(next + settings.maxEntriesPerMsg, log.LastIndex() + 1);
      var entries := log.Slice(next, end);
      var sentUpTo := if entries == [] then next else entries[|entries| - 1].index + 1;
      if settings.pipelining && sentUpTo > next {
        role := Leader(role.state.(nextIndex := role.state.nextIndex[to := sentUpTo]));
      }
      effects := Send(Message(settings.id, to, term, AppendRequest(prev, prevTerm, entries, commitIndex)));
    }

    method BroadcastAppend() returns (effects: Effects)
      requires role.Leader?
      modifies `role
      ensures role.Leader? && (role.state, effects) == Broadcast(Core(), old(role.state))
    {
      var peers := Core().EffectiveConfig().ReplicationPeers(settings.id);
      var waiting := peers;
      effects := NOTHING;
      BroadcastNone(Core(), role.state);
      assert peers - waiting == {};
      while waiting != {}
        invariant waiting <= peers && role.Leader?
        invariant (role.state, effects) == BroadcastTo(Core(), old(role.state), peers - waiting)
      {
        var to :| to in waiting;
        BroadcastAdds(Core(), old(role.state), peers - waiting, to);
        var sent := SendAppend(to);
        effects := effects.Merge(sent);
        assert peers - (waiting - {to}) == (peers - waiting) + {to};
        waiting := waiting - {to};
      }
      assert peers - {} == peers;
    }

    /** Looks at the configurations just committed, in order. */
    method CommittedConfigs(oldCommit: LogIndex) returns (verdict: ConfigCommit)
      ensures verdict == CommittedConfig(Core(), oldCommit, commitIndex)
    {
      var index := oldCommit;
      while index < commitIndex
        invariant index <= commitIndex || index == oldCommit
        invariant CommittedConfig(Core(), index, commitIndex) == CommittedConfig(Core(), oldCommit, commitIndex)
      {
        match log.Get(index + 1) {
          case Some(Entry(_, _, Config(config))) =>
            if !config.IsVoter(settings.id) {
              return Removed(config);
            }
            if config.Joint? {
              return Complete(config.TransitionTarget().value);
            }
          case _ =>
        }
        index := index + 1;
      }
      verdict := Done;
    }

    /** Visits a voter set in ascending order until someone is caught up, remembering the best so far. */
    method ScanVoters(group: set<NodeId>, last: LogIndex, best: Option<(NodeId, LogIndex)>)
      returns (target: Option<(NodeId, LogIndex)>)
      requires role.Leader? && (best.Some? ==> best.value.1 < last)
      ensures var caughtUp := set id | id in group && id != settings.id && role.state.Match(id) >= last;
        if caughtUp != {} then target.Some? && target.value.0 == Least(caughtUp) && target.value.1 >= last
        else target.Some? ==> target.value.1 < last
    {
      target := best;
      ghost var caughtUp := set id | id in group && id != settings.id && role.state.Match(id) >= last;
      var waiting := group;
      while waiting != {}
        invariant caughtUp <= waiting <= group
        invariant target.Some? ==> target.value.1 < last
      {
        var voter := Least(waiting);
        if voter != settings.id {
          var matched := role.state.Match(voter);
          if matched >= last {
            LeastOfPart(caughtUp, waiting);
            return Some((voter, matched));
          }
          if target.None? || matched > target.value.1 {
            target := Some((voter, matched));
          }
        }
        waiting := waiting - {voter};
      }
    }

    /** A removed leader hands over to the first caught-up voter: outgoing voters first, then incoming ones. */
    method TryAutoTransfer(config: Configuration) returns (effects: Effects)
      requires role.Leader?
      ensures effects == AutoTransfer(Core(), role.state, config)
    {
      var last := log.LastIndex();
      var target := ScanVoters(if config.Joint? then config.outgoing else config.voters, last, None);
      if config.Joint? && !(target.Some? && target.value.1 >= last) {
        target := ScanVoters(config.incoming - config.outgoing, last, target);
      }
      TransferTargets(Core(), role.state, config, last);
      effects := if target.Some? && target.value.1 >= last then Core().Reply(target.value.0, TimeoutNow) else NOTHING;
    }

    /** Adds progress for members not tracked yet. */
    method Reinit()
      requires role.Leader?
      modifies `role
      ensures role == Leader(ReinitProgress(Core(), old(role.state)))
    {
      hide WithDefault, ReinitProgress;
      var last, nodes := log.LastIndex(), Core().EffectiveConfig().AllNodes();
      var state := role.state;
      ReinitIs(Core(), state);
      var next, matched := state.nextIndex, state.matchIndex;
      InsertNone(last + 1, next);
      InsertNone(0, matched);
      var waiting := nodes;
      assert nodes - waiting == {};
      while waiting != {}
        invariant waiting <= nodes
        invariant next == WithDefault(nodes - waiting, last + 1, state.nextIndex)
        invariant matched == WithDefault(nodes - waiting, 0, state.matchIndex)
      {
        var id :| id in waiting;
        InsertMissing(nodes - waiting, last + 1, state.nextIndex, id);
        InsertMissing(nodes - waiting, 0, state.matchIndex, id);
        next := if id in next then next else next[id := last + 1];
        matched := if id in matched then matched else matched[id := 0];
        assert nodes - (waiting - {id}) == (nodes - waiting) + {id};
        waiting := waiting - {id};
      }
      assert nodes - {} == nodes;
      if !settings.parallelDiskWrite {
        matched := matched[settings.id := last];
      }
      role := Leader(state.(nextIndex := next, matchIndex := matched));
    }

    method AppendTransitionTarget(target: Configuration) returns (effects: Effects)
      requires role.Leader?
      modifies `log, `role
      ensures role.Leader? && (Core(), role.state, effects) == AppendTarget(old(Core()), old(role.state), target)
    {
      hide Broadcast, ReinitProgress;
      log := log.Append(Entry(term, log.LastIndex() + 1, Config(target)));
      Reinit();
      effects := BroadcastAppend();
      effects := effects.WithPersist();
    }

    /** Commits as far as it can; a committed joint configuration appends its target and goes round again. */
    method TryCommit() returns (effects: Effects, stepDown: bool)
      requires role.Leader?
      modifies `log, `commitIndex, `role
      ensures role.Leader?
      ensures MaybeCommit(old(Core()), old(role.state)) == CommitResult(Core(), role.state, effects, stepDown)
    {
      hide MaybeCommit, AdvanceCommit, CommittedConfig, AutoTransfer, AppendTarget, JointAbove;
      effects, stepDown := NOTHING, false;
      ghost var all := MaybeCommit(Core(), role.state);
      MergeLaws(all.effects, NOTHING, NOTHING);
      while true
        invariant role.Leader?
        invariant Continued(all, effects, MaybeCommit(Core(), role.state))
        decreases JointAbove(Core())
      {
        CommitRound(Core(), role.state);
        var oldCommit := commitIndex;
        AdvanceCommitIndex();
        MergeLaws(effects, NOTHING, NOTHING);
        if commitIndex == oldCommit {
          break;
        }
        var verdict := CommittedConfigs(oldCommit);
        match verdict {
          case Done => break;
          case Removed(config) =>
            var transfer := TryAutoTransfer(config);
            effects, stepDown := effects.Merge(transfer), true;
            return;
          case Complete(target) =>
            var more := AppendTransitionTarget(target);
            MergeLaws(effects, more, MaybeCommit(Core(), role.state).effects);
            effects := effects.Merge(more);
        }
      }
    }

    /** A step of the leader that recorded progress: commit, then stay or step down. */
    method CommitStep() returns (transition: Transition, effects: Effects)
      requires role.Leader?
      modifies `log, `commitIndex, `role
      ensures StepResult(Core(), role, transition, effects) == Committed(MaybeCommit(old(Core()), old(role.state)))
    {
      hide MaybeCommit;
      var stepDown: bool;
      effects, stepDown := TryCommit();
      transition := if stepDown then ToFollower(None) else Stay;
    }

    method OnAppendResponse(from: NodeId, success: bool, lastIndex: LogIndex) returns (transition: Transition,
                            effects: Effects)
      requires role.Leader?
      modifies `log, `commitIndex, `role
      ensures StepResult(Core(), role, transition, effects)
        == HandleAppendResponse(old(Core()), old(role.state), from, success, lastIndex)
    {
      hide MaybeCommit, SendAppendTo;
      if !Core().EffectiveConfig().IsMember(from) {
        return Stay, NOTHING;
      }
      var state := role.state;
      if success {
        state := state.(matchIndex := state.matchIndex[from := lastIndex]);
        if !settings.pipelining {
          state := state.(nextIndex := state.nextIndex[from := lastIndex + 1]);
        }
        role := Leader(state);
        transition, effects := CommitStep();
      } else {
        var hinted := Max(lastIndex + 1, 1);
        var next := if settings.pipelining then Max(hinted, state.Match(from) + 1) else hinted;
        role := Leader(state.(nextIndex := state.nextIndex[from := next]));
        transition := Stay;
        effects := SendAppend(from);
      }
    }

    method OnReadIndexResponse(from: NodeId, id: nat, readIndex: LogIndex)
      requires role.Leader?
      modifies `role
      ensures role == Leader(HandleReadIndexResponse(old(role.state), from, id, readIndex))
    {
      if role.state.pending.None? {
        return;
      }
      var pending := role.state.pending.value;
      if !pending.configuration.IsVoter(from) || pending.id != id || pending.readIndex != readIndex {
        return;
      }
      pending := pending.(acks := pending.acks + {from});
      if pending.configuration.HasQuorum(pending.acks) {
        role := Leader(role.state.(confirmedReadIndex := Max(role.state.confirmedReadIndex, readIndex),
            pending := None));
      } else {
        role := Leader(role.state.(pending := Some(pending)));
      }
    }

    /** The leader's reaction to an event. */
    method StepAsLeader(event: Event, clock: Clock) returns (transition: Transition, effects: Effects)
      requires role.Leader?
      modifies `term, `votedFor, `log, `commitIndex, `role
      ensures StepResult(Core(), role, transition, effects) == LeaderStep(old(Core()), old(role.state), event, clock)
    {
      hide MaybeCommit, Broadcast, HandleAppendResponse, HandleReadIndexResponse;
      transition, effects := Stay, NOTHING;
      match event {
        case Tick =>
          if clock.expired {
            BroadcastKeepsRound(Core(), role.state);
            effects := BroadcastAppend();
            if role.state.pending.Some? {
              effects := effects.Merge(ReadIndexRequests(Core(), role.state.pending.value));
            }
          }
        case DiskWriteComplete(index) =>
          if index > role.state.Match(settings.id) {
            role := Leader(role.state.(matchIndex := role.state.matchIndex[settings.id := index]));
            transition, effects := CommitStep();
          }
        case Receive(m) =>
          if m.body.PreVoteRequest? {
            effects := Core().Reply(m.from, PreVoteResponse(term, false));
            return;
          }
          if m.term > term {
            var _ := UpdateTerm(m.term);
            return ToFollower(if m.body.AppendRequest? then Some(m.from) else None), NOTHING.WithPersist();
          }
          if m.term < term {
            effects := RefuseStale(Core(), m);
            return;
          }
          match m.body {
            case AppendResponse(success, lastIndex) => transition, effects := OnAppendResponse(m.from, success,
                lastIndex);
            case InstallSnapshotResponse(success, index) =>
              if success && Core().EffectiveConfig().IsMember(m.from) && index > role.state.Match(m.from) {
                role := Leader(role.state.(matchIndex := role.state.matchIndex[m.from := index],
                                           nextIndex := role.state.nextIndex[m.from := index + 1]));
                transition, effects := CommitStep();
              }
            case ReadIndexResponse(id, readIndex) => OnReadIndexResponse(m.from, id, readIndex);
            case VoteRequest(_, _) => effects := Core().Reply(m.from, VoteResponse(false));
            case _ =>
          }
      }
    }

    // --- The other roles ---

    method OnVoteRequest(m: Message) returns (effects: Effects)
      requires m.body.VoteRequest? && role.Follower?
      modifies `votedFor
      ensures var r := HandleVoteRequest(old(Core()), role.leader, m);
        Core() == r.core && role == r.role && effects == r.effects
    {
      var granted :=
        && Core().EffectiveConfig().IsVoter(m.from)
        && Core().CanVoteFor(m.from)
        && Core().LogIsUpToDate(m.body.lastLogTerm, m.body.lastLogIndex);
      effects := Core().Reply(m.from, VoteResponse(granted));
      if granted {
        votedFor := Some(m.from);
        effects := effects.WithPersist();
      }
    }

    method OnInstallSnapshot(m: Message) returns (effects: Effects)
      requires m.body.InstallSnapshotRequest?
      modifies `log, `commitIndex, `lastApplied, `role
      ensures var r := HandleInstallSnapshot(old(Core()), m); Core() == r.core && role == r.role && effects == r.effects
    {
      var index := m.body.lastIncludedIndex;
      role := Follower(Some(m.from));
      if index <= log.snapshotIndex || (index < commitIndex
          && !log.SnapshotMatchesPrefix(index, m.body.lastIncludedTerm)) {
        effects := Core().Reply(m.from, InstallSnapshotResponse(false, index));
        return;
      }
      log := log.InstallSnapshot(index, m.body.lastIncludedTerm, m.body.configuration);
      commitIndex := Max(commitIndex, index);
      lastApplied := Max(lastApplied, index);
      effects := Core().Reply(m.from, InstallSnapshotResponse(true, index)).WithPersist();
    }

    method StepAsFollower(event: Event, clock: Clock) returns (transition: Transition, effects: Effects)
      requires role.Follower?
      modifies `term, `votedFor, `log, `commitIndex, `lastApplied, `role
      ensures StepResult(Core(), role, transition, effects) == FollowerStep(old(Core()), old(role.leader), event, clock)
    {
      hide HandleAppendRequest, HandleVoteRequest, HandleInstallSnapshot, AnswerPreVote;
      transition, effects := Stay, NOTHING;
      if !event.Receive? {
        if event.Tick? && clock.expired {
          transition := if settings.prevote then ToPreCandidate else ToCandidate;
        }
        return;
      }
      var m := event.message;
      if (m.body.VoteRequest? || m.body.PreVoteRequest?) && role.leader.Some? && clock.recent {
        effects := DenyVote(Core(), m);
      } else if m.body.PreVoteRequest? {
        effects := AnswerPreVote(Core(), m);
      } else if m.term < term {
        effects := RejectStale(Core(), m);
      } else {
        var updated := UpdateTerm(m.term);
        if updated && (m.body.AppendRequest? || m.body.ReadIndexRequest?) {
          role := Follower(Some(m.from));
        }
        transition, effects := HandleAsFollower(m);
        if updated {
          effects := effects.WithPersist();
        }
      }
    }

    method HandleAsFollower(m: Message) returns (transition: Transition, effects: Effects)
      requires role.Follower?
      modifies `votedFor, `log, `commitIndex, `lastApplied, `role
      ensures StepResult(Core(), role, transition, effects) == Handle(old(Core()), old(role.leader), m)
    {
      transition, effects := Stay, NOTHING;
      match m.body {
        case VoteRequest(_, _) => effects := OnVoteRequest(m);
        case AppendRequest(_, _, _, _) => effects := OnAppendRequest(m);
        case ReadIndexRequest(id, readIndex) =>
          role := Follower(Some(m.from));
          effects := Core().Reply(m.from, ReadIndexResponse(id, readIndex));
        case InstallSnapshotRequest(_, _, _) => effects := OnInstallSnapshot(m);
        case TimeoutNow => transition := ToCandidate;
        case _ =>
      }
    }

    method StepDownFor(m: Message) returns (transition: Transition, effects: Effects)
      requires m.term > term
      modifies `term, `votedFor
      ensures StepResult(Core(), role, transition, effects) == StepDown(old(Core()), role, m)
    {
      var _ := UpdateTerm(m.term);
      transition, effects := ToFollower(if m.body.AppendRequest? then Some(m.from) else None), NOTHING.WithPersist();
    }

    method StepAsPreCandidate(event: Event, clock: Clock) returns (transition: Transition, effects: Effects)
      requires role.PreCandidate?
      modifies `term, `votedFor, `role
      ensures StepResult(Core(), role, transition, effects) == PreCandidateStep(old(Core()), old(role.preVotes),
          event, clock)
    {
      transition, effects := Stay, NOTHING;
      if !event.Receive? {
        if event.Tick? && !clock.recent && clock.expired {
          transition := ToPreCandidate;
        }
        return;
      }
      var m := event.message;
      if (m.body.VoteRequest? || m.body.PreVoteRequest?) && clock.recent {
        effects := DenyVote(Core(), m);
      } else if m.term > term {
        transition, effects := StepDownFor(m);
      } else {
        match m.body {
          case PreVoteResponse(responderTerm, granted) =>
            if responderTerm > term {
              var _ := UpdateTerm(responderTerm);
              transition, effects := ToFollower(None), NOTHING.WithPersist();
            } else if responderTerm == term && granted {
              role := PreCandidate(role.preVotes + {m.from});
              if Core().EffectiveConfig().HasQuorum(role.preVotes) {
                transition := ToCandidate;
              }
            }
          case AppendRequest(_, _, _, _) => transition := ToFollower(Some(m.from));
          case PreVoteRequest(_, _, _) => effects := AnswerPreVote(Core(), m);
          case VoteRequest(_, _) => effects := Core().Reply(m.from, VoteResponse(false));
          case TimeoutNow => transition := ToCandidate;
          case _ =>
        }
      }
    }

    method StepAsCandidate(event: Event, clock: Clock) returns (transition: Transition, effects: Effects)
      requires role.Candidate?
      modifies `term, `votedFor, `role
      ensures StepResult(Core(), role, transition, effects) == CandidateStep(old(Core()), old(role.votes), event, clock)
    {
      transition, effects := Stay, NOTHING;
      if !event.Receive? {
        if event.Tick? && !clock.recent && clock.expired {
          transition := ToCandidate;
        }
        return;
      }
      var m := event.message;
      if (m.body.VoteRequest? || m.body.PreVoteRequest?) && clock.recent {
        effects := DenyVote(Core(), m);
      } else if m.body.PreVoteRequest? {
        effects := AnswerPreVote(Core(), m);
      } else if m.term > term {
        transition, effects := StepDownFor(m);
      } else if m.term < term {
        effects := RefuseStale(Core(), m);
      } else {
        match m.body {
          case VoteResponse(granted) =>
            if granted {
              role := Candidate(role.votes + {m.from});
              if Core().EffectiveConfig().HasQuorum(role.votes) {
                transition := ToLeader;
              }
            }
          case AppendRequest(_, _, _, _) => transition := ToFollower(Some(m.from));
          case VoteRequest(_, _) => effects := Core().Reply(m.from, VoteResponse(false));
          case TimeoutNow => transition := ToCandidate;
          case _ =>
        }
      }
    }

    // --- Whole steps ---

    /** Every member starts behind the leader's log, with nothing matched. */
    method StartProgress(nodes: set<NodeId>, last: LogIndex) returns (next: map<NodeId, LogIndex>,
                         matched: map<NodeId, LogIndex>)
      ensures next == WithDefault(nodes, last + 1, map[]) && matched == WithDefault(nodes, 0, map[])
    {
      hide WithDefault;
      next, matched := map[], map[];
      InsertNone(last + 1, next);
      InsertNone(0, matched);
      var waiting := nodes;
      assert nodes - waiting == {};
      while waiting != {}
        invariant waiting <= nodes
        invariant next == WithDefault(nodes - waiting, last + 1, map[])
        invariant matched == WithDefault(nodes - waiting, 0, map[])
      {
        var id :| id in waiting;
        InsertMissing(nodes - waiting, last + 1, map[], id);
        InsertMissing(nodes - waiting, 0, map[], id);
        DefaultKeys(nodes - waiting, last + 1);
        DefaultKeys(nodes - waiting, 0);
        next, matched := next[id := last + 1], matched[id := 0];
        assert nodes - (waiting - {id}) == (nodes - waiting) + {id};
        waiting := waiting - {id};
      }
      assert nodes - {} == nodes;
    }

    method Lead() returns (effects: Effects)
      modifies `role
      ensures var (state, sent) := NewLeader(Core()); role == Leader(state) && effects == sent
    {
      hide Broadcast, FreshProgress, WithDefault;
      var last := log.LastIndex();
      var next, matched := StartProgress(Core().EffectiveConfig().AllNodes(), last);
      if !settings.parallelDiskWrite {
        matched := matched[settings.id := last];
      }
      FreshIs(Core());
      role := Leader(LeaderState(next, matched, 1, None, 0));
      effects := BroadcastAppend();
    }

    method Campaign() returns (effects: Effects)
      modifies `term, `votedFor, `role
      ensures (Node(), effects) == BecomeCandidate(old(Core()))
    {
      hide NewLeader;
      StartElection();
      role := Candidate(OwnVote(Core()));
      effects := AskAll(Core(), VoteRequest(log.LastIndex(), log.LastTerm())).WithPersist();
      if Core().EffectiveConfig().HasQuorum(role.votes) {
        var sent := Lead();
        effects := effects.Merge(sent);
      }
    }

    method Become(transition: Transition) returns (effects: Effects)
      modifies `term, `votedFor, `role
      ensures (Node(), effects) == ApplyTransition(old(Core()), old(role), transition)
    {
      hide BecomeCandidate, NewLeader;
      effects := NOTHING;
      match transition {
        case Stay =>
        case ToFollower(leader) => role := Follower(leader);
        case ToPreCandidate =>
          var asked := AskAll(Core(), PreVoteRequest(term + 1, log.LastIndex(), log.LastTerm()));
          role := PreCandidate(OwnVote(Core()));
          if Core().EffectiveConfig().HasQuorum(role.preVotes) {
            var more := Campaign();
            effects := asked.Merge(more);
          } else {
            effects := asked;
          }
        case ToCandidate => effects := Campaign();
        case ToLeader => effects := Lead();
      }
    }

    /** One event, with the transition it causes. */
    method Step(event: Event, clock: Clock) returns (effects: Effects)
      modifies this
      ensures (Node(), effects) == StepEvent(old(Node()), event, clock)
    {
      hide FollowerStep, PreCandidateStep, CandidateStep, LeaderStep, ApplyTransition;
      var transition: Transition;
      match role {
        case Follower(_) => transition, effects := StepAsFollower(event, clock);
        case PreCandidate(_) => transition, effects := StepAsPreCandidate(event, clock);
        case Candidate(_) => transition, effects := StepAsCandidate(event, clock);
        case Leader(_) => transition, effects := StepAsLeader(event, clock);
      }
      var more := Become(transition);
      effects := effects.Merge(more);
    }

    method Propose(bytes: Bytes) returns (result: Result<Effects, ProposeError>)
      modifies this
      ensures match NodePropose(old(Node()), bytes)
        case Err(error) => result == Err(error) && Node() == old(Node())
        case Ok((after, effects)) => result == Ok(effects) && Node() == after
    {
      hide MaybeCommit, Broadcast;
      if !role.Leader? {
        return Err(ProposeNotLeader(LeaderHint(Node())));
      }
      if commitIndex > log.LastIndex() {
        return Err(CommitBeyondLog);
      }
      if Core().ProposalLimitExceeded(bytes) {
        return Err(Throttled);
      }
      log := log.Append(Entry(term, log.LastIndex() + 1, Command(bytes)));
      role := Leader(role.state.(matchIndex := OwnMatch(Core(), role.state.matchIndex)));
      var committed, stepDown := TryCommit();
      var sent := BroadcastAppend();
      if stepDown {
        role := Follower(None);
      }
      result := Ok(sent.WithPersist().Merge(committed));
    }

    /** Validates a membership change, appends its configuration, and commits and replicates as for a command. */
    method ProposeChange(change: ConfigChange) returns (result: Result<Effects, ConfigChangeError>)
      requires role.Leader?
      modifies `log, `commitIndex, `role
      ensures match ProposeConfigChange(old(Core()), old(role.state), change)
        case Err(error) => result == Err(error) && Node() == old(Node())
        case Ok(r) => result == Ok(r.effects) && Node() == AfterCommit(r).0
    {
      hide MaybeCommit, Broadcast, ReinitProgress, Validate, Apply;
      var current := Core().EffectiveConfig();
      var refused := Validate(change, current, settings.mode);
      if refused.Some? {
        return Err(refused.value);
      }
      if change.AddVoter? {
        var have, need := role.state.Match(change.id), log.LastIndex();
        if have < need {
          return Err(LearnerNotCaughtUp(change.id, have, need));
        }
      }
      if Core().HasPendingConfig() {
        return Err(ChangeInProgress);
      }
      log := log.Append(Entry(term, log.LastIndex() + 1, Config(Apply(change, current, settings.mode))));
      Reinit();
      var committed, stepDown := TryCommit();
      var sent := BroadcastAppend();
      if stepDown {
        role := Follower(None);
      }
      result := Ok(sent.WithPersist().Merge(committed));
    }

    method RequestRead() returns (result: Result<(LogIndex, Effects), ReadIndexError>)
      modifies `role
      ensures match NodeReadIndex(old(Node()))
        case Err(error) => result == Err(error) && Node() == old(Node())
        case Ok((index, after, effects)) => result == Ok((index, effects)) && Node() == after
    {
      if !role.Leader? {
        return Err(ReadNotLeader(LeaderHint(Node())));
      }
      var state := role.state;
      if state.pending.Some? {
        return Err(ReadInProgress(state.pending.value.readIndex));
      }
      var own := CurrentTermCommitIndex();
      if own.None? {
        return Err(CurrentTermNotCommitted);
      }
      var pending := PendingRead(state.nextReadId, commitIndex, Core().EffectiveConfig(), {settings.id});
      state := state.(nextReadId := state.nextReadId + 1);
      if pending.configuration.HasQuorum(pending.acks) {
        role := Leader(state.(confirmedReadIndex := Max(state.confirmedReadIndex, commitIndex)));
        return Ok((commitIndex, NOTHING));
      }
      role := Leader(state.(pending := Some(pending)));
      result := Ok((commitIndex, ReadIndexRequests(Core(), pending)));
    }
  }

  /** What is left of the commit loop completes what was done before. */
  ghost predicate Continued(all: CommitResult, effects: Effects, rest: CommitResult) {
    all == rest.(effects := effects.Merge(rest.effects))
  }
}
