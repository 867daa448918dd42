/**
 The persist flag: a step that does not ask for its state to be saved has not changed term, vote or
 log. The one exception is an append request whose last entry contradicts the snapshot boundary.
 */
module PersistFlag {
  import opened Types
  import opened Membership
  import opened RaftLog
  import opened Messages
  import opened RaftCore
  import opened FollowerRole
  import opened CandidateRoles
  import opened LeaderRole
  import opened RaftNode

  // --- The append loop ---

  /** The entry sits at the snapshot boundary and names another term. */
  predicate Strikes(log: Log, entry: Entry) {
    entry.index == log.snapshotIndex && log.TermAt(entry.index) != 0 && log.TermAt(entry.index) != entry.term
  }

  predicate Sequential(entries: seq<Entry>) {
    forall i :: 0 <= i < |entries| ==> entries[i].index == entries[0].index + i
  }

  /** Above the boundary, clearing a conflict always makes room for the entry. */
  lemma ClearedAppends(log: Log, entry: Entry)
    requires log.Contiguous() && !Strikes(log, entry)
    ensures Cleared(log, entry) == log || entry.index > Cleared(log, entry).LastIndex()
  {
  }

  /** The loop that appends nothing, and meets no entry at the boundary, changes nothing. */
  lemma {:induction false} LoopQuiet(log: Log, entries: seq<Entry>, k: nat)
    requires log.Contiguous() && k <= |entries| && !Appended(log, entries, k)
    requires forall i :: 0 <= i < k ==> !Strikes(log, entries[i])
    ensures AbsorbFirst(log, entries, k) == log
  {
    if k > 0 {
      LoopQuiet(log, entries, k - 1);
      ClearedAppends(log, entries[k - 1]);
    }
  }

  /** Entries below the boundary pass through. */
  lemma {:induction false} BelowBoundary(log: Log, entries: seq<Entry>, k: nat)
    requires log.Contiguous() && k <= |entries|
    requires forall i :: 0 <= i < k ==> entries[i].index < log.snapshotIndex
    ensures AbsorbFirst(log, entries, k) == log && !Appended(log, entries, k)
  {
    if k > 0 {
      BelowBoundary(log, entries, k - 1);
    }
  }

  /** A striking entry empties the log, and the entry after it is appended. */
  lemma StrikeClears(log: Log, entries: seq<Entry>, k: nat)
    requires log.Contiguous() && Sequential(entries) && k < |entries| && Strikes(log, entries[k])
    ensures AbsorbFirst(log, entries, k + 1) == log.(entries := []) && !Appended(log, entries, k + 1)
    ensures k + 1 < |entries| ==> Appended(log, entries, k + 2)
  {
    BelowBoundary(log, entries, k);
  }

  lemma {:induction false} AppendedStays(log: Log, entries: seq<Entry>, k: nat, m: nat)
    requires k <= m <= |entries| && Appended(log, entries, k)
    ensures Appended(log, entries, m)
    decreases m - k
  {
    if k < m {
      AppendedStays(log, entries, k, m - 1);
    }
  }

  /** A request contradicts the boundary when its last entry does, and there is a suffix to lose. */
  predicate Contradicts(log: Log, entries: seq<Entry>) {
    log.entries != [] && entries != [] && Strikes(log, entries[|entries| - 1])
  }

  /** For consecutive entries the loop's persist flag tells the truth exactly when the request does not contradict
      the boundary. */
  lemma LoopPersistExact(log: Log, entries: seq<Entry>)
    requires log.Contiguous() && Sequential(entries)
    ensures (Appended(log, entries, |entries|) || AbsorbAll(log, entries) == log) <==> !Contradicts(log, entries)
  {
    if k :| 0 <= k < |entries| && Strikes(log, entries[k]) {
      StrikeClears(log, entries, k);
      if k + 1 < |entries| {
        AppendedStays(log, entries, k + 2, |entries|);
      }
    } else if !Appended(log, entries, |entries|) {
      LoopQuiet(log, entries, |entries|);
    }
  }

  // --- Whole steps ---

  predicate Saved(before: Core, after: Core, effects: Effects) {
    effects.persist || after.persistent == before.persistent
  }

  /** An append request that meets the boundary with another term. */
  predicate MeetsBoundary(log: Log, event: Event) {
    && event.Receive? && event.message.body.AppendRequest?
    && exists i :: 0 <= i < |event.message.body.entries| && Strikes(log, event.message.body.entries[i])
  }

  lemma FollowerSaves(core: Core, leader: Option<NodeId>, event: Event, clock: Clock)
    requires core.Log().Contiguous() && !MeetsBoundary(core.Log(), event)
    ensures var r := FollowerStep(core, leader, event, clock); Saved(core, r.core, r.effects)
  {
    if event.Receive? && event.message.body.AppendRequest? {
      var entries := event.message.body.entries;
      if !Appended(core.Log(), entries, |entries|) {
        LoopQuiet(core.Log(), entries, |entries|);
      }
    }
  }

  lemma {:induction false} CommitLoopSaves(core: Core, state: LeaderState)
    ensures Saved(core, MaybeCommit(core, state).core, MaybeCommit(core, state).effects)
    decreases JointAbove(core)
  {
    hide Broadcast;
    var advanced := AdvanceCommit(core, state);
    if advanced.commitIndex != core.commitIndex {
      match CommittedConfig(advanced, core.commitIndex, advanced.commitIndex)
      case Complete(target) =>
        CommitTargetBounds(core, state, core.Log().LastIndex());
        CompletionShrinksJoint(core, state, target);
        var (after, sent, effects) := AppendTarget(advanced, state, target);
        CommitLoopSaves(after, sent);
      case _ =>
    }
  }

  lemma LeaderSaves(core: Core, state: LeaderState, event: Event, clock: Clock)
    ensures var r := LeaderStep(core, state, event, clock); Saved(core, r.core, r.effects)
  {
    hide MaybeCommit, Broadcast;
    match event
    case Tick =>
    case DiskWriteComplete(index) =>
      CommitLoopSaves(core, state.(matchIndex := state.matchIndex[core.Id() := index]));
    case Receive(m) =>
      match m.body
      case AppendResponse(_, lastIndex) =>
        var acked := state.(matchIndex := state.matchIndex[m.from := lastIndex]);
        CommitLoopSaves(core, acked);
        CommitLoopSaves(core, acked.(nextIndex := acked.nextIndex[m.from := lastIndex + 1]));
      case InstallSnapshotResponse(_, index) =>
        CommitLoopSaves(core, state.(matchIndex := state.matchIndex[m.from := index],
                                     nextIndex := state.nextIndex[m.from := index + 1]));
      case _ =>
  }

  lemma TransitionSaves(core: Core, role: Role, transition: Transition)
    ensures var (after, effects) := ApplyTransition(core, role, transition); Saved(core, after.core, effects)
  {
    hide NewLeader;
  }

  /** A follower accepts the event, in its own term, as an append request whose last entry contradicts the snapshot. */
  predicate LosesSuffix(node: Node, event: Event) {
    && node.role.Follower? && event.Receive? && event.message.body.AppendRequest?
    && event.message.term == node.core.Term()
    && ConsistentAt(node.core.Log(), event.message.body.prevLogIndex, event.message.body.prevLogTerm)
    && Contradicts(node.core.Log(), event.message.body.entries)
  }

  lemma FollowerSavesExactly(core: Core, leader: Option<NodeId>, event: Event, clock: Clock)
    requires core.Log().Contiguous()
    requires event.Receive? && event.message.body.AppendRequest? ==> Sequential(event.message.body.entries)
    ensures var r := FollowerStep(core, leader, event, clock);
      && (Saved(core, r.core, r.effects) <==> !LosesSuffix(Node(core, Follower(leader)), event))
      && (LosesSuffix(Node(core, Follower(leader)), event) ==> r.transition.Stay?)
  {
    hide Contradicts, AbsorbAll, Appended;
    if event.Receive? && event.message.body.AppendRequest? {
      LoopPersistExact(core.Log(), event.message.body.entries);
    }
  }

  /** Every step of every role, with every transition it takes, is saved or changes nothing, exactly when it is not the
      one follower step that loses a suffix at the snapshot boundary. */
  lemma PersistFlagExact(node: Node, event: Event, clock: Clock)
    requires node.core.Log().Contiguous()
    requires event.Receive? && event.message.body.AppendRequest? ==> Sequential(event.message.body.entries)
    ensures var (after, effects) := StepEvent(node, event, clock);
      Saved(node.core, after.core, effects) <==> !LosesSuffix(node, event)
  {
    hide FollowerStep, LeaderStep, Contradicts, ConsistentAt, BecomeCandidate, NewPreCandidate;
    var r := RoleStep(node, event, clock);
    TransitionSaves(r.core, r.role, r.transition);
    match node.role
    case Follower(leader) => FollowerSavesExactly(node.core, leader, event, clock);
    case Leader(state) => LeaderSaves(node.core, state, event, clock);
    case _ =>
  }

  /** Whatever entries a request carries, a step is saved or changes nothing if none of them meets the boundary. */
  lemma PersistFlagSound(node: Node, event: Event, clock: Clock)
    requires node.core.Log().Contiguous() && !MeetsBoundary(node.core.Log(), event)
    ensures var (after, effects) := StepEvent(node, event, clock); Saved(node.core, after.core, effects)
  {
    hide FollowerStep, LeaderStep, ApplyTransition, MeetsBoundary;
    var r := RoleStep(node, event, clock);
    TransitionSaves(r.core, r.role, r.transition);
    match node.role
    case Follower(leader) => FollowerSaves(node.core, leader, event, clock);
    case Leader(state) => LeaderSaves(node.core, state, event, clock);
    case _ =>
  }

  /** Without a snapshot there is no boundary to meet. */
  lemma NoSnapshotNoBoundary(log: Log, event: Event)
    requires log.snapshotIndex == 0
    ensures !MeetsBoundary(log, event)
  {
  }

  /** Proposals always save; read requests and transfers never need to. */
  lemma OperationsSave(node: Node, bytes: Bytes, target: NodeId)
    ensures NodePropose(node, bytes).Ok? ==> NodePropose(node, bytes).value.1.persist
    ensures NodeReadIndex(node).Ok? ==> NodeReadIndex(node).value.1.core == node.core
  {
    hide MaybeCommit, Broadcast;
  }

  /** The exception: a request ending at the boundary with another term loses the suffix unsaved. */
  lemma BoundaryLossUnsaved()
    ensures exists node: Node, event: Event, clock: Clock ::
      && node.core.Log().Contiguous()
      && !Saved(node.core, StepEvent(node, event, clock).0.core, StepEvent(node, event, clock).1)
  {
    var log := Log([Entry(1, 2, Command([]))], 1, 1, None);
    var settings := Settings(0, false, false, false, JointConsensus, 1, 1, 1);
    var node := Restore(settings, Persistent(2, None, log, Simple({0, 1}, {})));
    var entry := Entry(2, 1, Command([]));
    var event := Receive(Message(1, 0, 2, AppendRequest(0, 0, [entry], 0)));
    var clock := Clock(false, false);
    StrikeClears(log, [entry], 0);
    assert AbsorbAll(log, [entry]) == log.(entries := []);
    assert !Saved(node.core, StepEvent(node, event, clock).0.core, StepEvent(node, event, clock).1);
  }
}
