/** The leader's commit loop: each pass is maximal, and the loop stops only when nothing is left to commit. */
module CommitLoop {
  import opened Types
  import opened Membership
  import opened RaftLog
  import opened Messages
  import opened RaftCore
  import opened LeaderRole

  /** No index in `(from, upTo]` is of the current term and acknowledged by a quorum. */
  ghost predicate NoneCommittable(core: Core, state: LeaderState, from: LogIndex, upTo: LogIndex) {
    forall i: LogIndex :: from < i <= upTo ==> !Committable(core, state, i)
  }

  /** The downward search finds the greatest committable index, or leaves the commit index alone. */
  lemma {:induction false} SearchMaximal(core: Core, state: LeaderState, index: LogIndex)
    ensures var target := CommitTarget(core, state, index);
      && NoneCommittable(core, state, target, index)
      && (target == core.commitIndex || (core.commitIndex < target <= index && Committable(core, state, target)))
  {
    hide Committable;
    if index > core.commitIndex && !Committable(core, state, index) {
      SearchMaximal(core, state, index - 1);
    }
  }

  /** Acknowledged by a quorum: a majority of every voter set of the effective configuration. */
  ghost predicate QuorumHolds(core: Core, state: LeaderState, index: LogIndex) {
    match core.EffectiveConfig()
    case Simple(voters, _) => Majority((set id | id in voters && state.Match(id) >= index), voters)
    case Joint(outgoing, incoming, _) =>
      && Majority((set id | id in outgoing && state.Match(id) >= index), outgoing)
      && Majority((set id | id in incoming && state.Match(id) >= index), incoming)
  }

  lemma AcknowledgedIsQuorum(core: Core, state: LeaderState, index: LogIndex)
    ensures Acknowledged(core, state, index) <==> QuorumHolds(core, state, index)
  {
    match core.EffectiveConfig()
    case Simple(_, _) =>
    case Joint(outgoing, incoming, learners) =>
      var all := set id | id in outgoing + incoming && state.Match(id) >= index;
      assert outgoing * all == outgoing * (set id | id in outgoing && state.Match(id) >= index);
      assert incoming * all == incoming * (set id | id in incoming && state.Match(id) >= index);
  }

  /** One pass moves the commit index to the greatest index above it that is of this term and held by
      a quorum, of both voter sets while joint; with none, the index stays. */
  lemma PassIsMaximal(core: Core, state: LeaderState, i: LogIndex)
    requires core.commitIndex < i <= core.Log().LastIndex()
    requires core.Log().TermAt(i) == core.Term() && QuorumHolds(core, state, i)
    ensures var commit := AdvanceCommit(core, state).commitIndex;
      && i <= commit <= core.Log().LastIndex()
      && core.Log().TermAt(commit) == core.Term() && QuorumHolds(core, state, commit)
  {
    hide CommitTarget, Acknowledged, QuorumHolds;
    SearchMaximal(core, state, core.Log().LastIndex());
    AcknowledgedIsQuorum(core, state, i);
    AcknowledgedIsQuorum(core, state, AdvanceCommit(core, state).commitIndex);
    assert Committable(core, state, i);
  }

  lemma PassMayStay(core: Core, state: LeaderState)
    requires forall i: LogIndex :: core.commitIndex < i <= core.Log().LastIndex() ==>
      !(core.Log().TermAt(i) == core.Term() && QuorumHolds(core, state, i))
    ensures AdvanceCommit(core, state) == core
  {
    hide CommitTarget, Acknowledged, QuorumHolds;
    SearchMaximal(core, state, core.Log().LastIndex());
    AcknowledgedIsQuorum(core, state, AdvanceCommit(core, state).commitIndex);
  }

  /** A second pass over the same progress finds nothing. */
  lemma PassIsIdempotent(core: Core, state: LeaderState)
    ensures AdvanceCommit(AdvanceCommit(core, state), state) == AdvanceCommit(core, state)
  {
    var advanced := AdvanceCommit(core, state);
    SearchMaximal(core, state, core.Log().LastIndex());
    SearchMaximal(advanced, state, advanced.Log().LastIndex());
    SameVerdicts(core, advanced, state, AdvanceCommit(advanced, state).commitIndex);
  }

  /** Whether an index is committable does not depend on the commit index. */
  lemma SameVerdicts(core: Core, other: Core, state: LeaderState, i: LogIndex)
    requires other == core.(commitIndex := other.commitIndex)
    ensures Committable(core, state, i) <==> Committable(other, state, i)
  {
  }

  /** The loop ends with nothing left to commit, unless it ends with the leader stepping down. */
  lemma {:induction false} LoopExhausts(core: Core, state: LeaderState)
    ensures var r := MaybeCommit(core, state);
      r.stepDown || AdvanceCommit(r.core, r.state) == r.core
    decreases JointAbove(core)
  {
    hide AppendTarget, CommittedConfig, CommitTarget, AutoTransfer;
    CommitTargetBounds(core, state, core.Log().LastIndex());
    PassIsIdempotent(core, state);
    var advanced := AdvanceCommit(core, state);
    if advanced.commitIndex != core.commitIndex {
      match CommittedConfig(advanced, core.commitIndex, advanced.commitIndex)
      case Complete(target) =>
        CompletionShrinksJoint(core, state, target);
        var (after, sent, _) := AppendTarget(advanced, state, target);
        LoopExhausts(after, sent);
      case _ =>
    }
  }

  /** The loop never moves the commit index back and only ever extends the log. */
  lemma {:induction false} LoopIsMonotone(core: Core, state: LeaderState)
    ensures var r := MaybeCommit(core, state);
      && r.core.commitIndex >= core.commitIndex && core.Log().entries <= r.core.Log().entries
      && r.core.Term() == core.Term() && r.core.persistent.votedFor == core.persistent.votedFor
    decreases JointAbove(core)
  {
    hide Broadcast, CommittedConfig, CommitTarget, AutoTransfer;
    CommitTargetBounds(core, state, core.Log().LastIndex());
    var advanced := AdvanceCommit(core, state);
    if advanced.commitIndex != core.commitIndex {
      match CommittedConfig(advanced, core.commitIndex, advanced.commitIndex)
      case Complete(target) =>
        CompletionShrinksJoint(core, state, target);
        var (after, sent, _) := AppendTarget(advanced, state, target);
        LoopIsMonotone(after, sent);
      case _ =>
    }
  }

  // --- What the loop does with progress and configurations ---

  /** Whatever the loop appends and sends, what is known of other nodes stays as it was, and so does what is known of
      the node itself where its disk writes are reported. */
  lemma {:induction false} LoopKeepsMatch(core: Core, state: LeaderState, p: NodeId)
    requires p != core.Id() || core.settings.parallelDiskWrite
    ensures MaybeCommit(core, state).state.Match(p) == state.Match(p)
    ensures MaybeCommit(core, state).core.settings == core.settings
    decreases JointAbove(core)
  {
    hide CommittedConfig, CommitTarget, AutoTransfer, AppendFor, NextAfterSend, Core.EffectiveConfig;
    CommitTargetBounds(core, state, core.Log().LastIndex());
    var advanced := AdvanceCommit(core, state);
    if advanced.commitIndex != core.commitIndex {
      match CommittedConfig(advanced, core.commitIndex, advanced.commitIndex)
      case Complete(target) =>
        CompletionShrinksJoint(core, state, target);
        var (after, sent, _) := AppendTarget(advanced, state, target);
        LoopKeepsMatch(after, sent, p);
      case _ =>
    }
  }

  /** The configuration entry at an index, if there is one. */
  function ConfigEntry(log: Log, i: LogIndex): Option<Configuration> {
    match log.Get(i)
    case Some(Entry(_, _, Config(config))) => Some(config)
    case _ => None
  }

  /** The entry at `i` ends this leadership or a joint transition. */
  predicate Notable(core: Core, i: LogIndex) {
    match ConfigEntry(core.Log(), i)
    case Some(config) => !config.IsVoter(core.Id()) || config.Joint?
    case None => false
  }

  ghost predicate FirstNotable(core: Core, from: LogIndex, upTo: LogIndex, i: LogIndex) {
    from < i <= upTo && Notable(core, i) && forall j: LogIndex :: from < j < i ==> !Notable(core, j)
  }

  /** The scan stops at the first notable entry, and only there. */
  lemma {:induction false} ScanFinds(core: Core, from: LogIndex, upTo: LogIndex, i: LogIndex)
    requires FirstNotable(core, from, upTo, i)
    ensures var config := ConfigEntry(core.Log(), i).value;
      CommittedConfig(core, from, upTo)
      == if config.IsVoter(core.Id()) then Complete(Simple(config.incoming, config.learners)) else Removed(config)
    decreases upTo - from
  {
    if from + 1 < i {
      assert !Notable(core, from + 1);
      ScanFinds(core, from + 1, upTo, i);
    }
  }

  lemma {:induction false} ScanPasses(core: Core, from: LogIndex, upTo: LogIndex)
    requires forall i: LogIndex :: from < i <= upTo ==> !Notable(core, i)
    ensures CommittedConfig(core, from, upTo) == Done
    decreases upTo - from
  {
    if from < upTo {
      assert !Notable(core, from + 1);
      ScanPasses(core, from + 1, upTo);
    }
  }

  /** The first notable entry a pass commits decides. A configuration this node does not vote in makes it step down and
      hand over; a joint one is followed at once, in the log, by the configuration its transition ends in. */
  lemma NotableDecides(core: Core, state: LeaderState, i: LogIndex)
    requires FirstNotable(core, core.commitIndex, AdvanceCommit(core, state).commitIndex, i)
    ensures var config, r := ConfigEntry(core.Log(), i).value, MaybeCommit(core, state);
      if config.IsVoter(core.Id()) then
        core.Log().entries
        + [Entry(core.Term(), core.Log().LastIndex() + 1, Config(Simple(config.incoming, config.learners)))]
        <= r.core.Log().entries
      else
        r.stepDown && r.core == AdvanceCommit(core, state) && r.effects == AutoTransfer(r.core, state, config)
  {
    hide CommitTarget, AutoTransfer, Broadcast, ReinitProgress, CommittedConfig;
    var advanced := AdvanceCommit(core, state);
    SameNotable(core, advanced);
    ScanFinds(advanced, core.commitIndex, advanced.commitIndex, i);
    var config := ConfigEntry(core.Log(), i).value;
    if config.IsVoter(core.Id()) {
      var target := Simple(config.incoming, config.learners);
      CommitTargetBounds(core, state, core.Log().LastIndex());
      CompletionShrinksJoint(core, state, target);
      var (after, sent, _) := AppendTarget(advanced, state, target);
      LoopIsMonotone(after, sent);
    }
  }

  lemma SameNotable(core: Core, advanced: Core)
    requires advanced == core.(commitIndex := advanced.commitIndex)
    ensures forall i: LogIndex :: Notable(advanced, i) <==> Notable(core, i)
  {
  }

  /** A pass that commits nothing notable leaves the leader in office and the log as it is. */
  lemma NothingNotable(core: Core, state: LeaderState)
    requires forall i: LogIndex :: core.commitIndex < i <= AdvanceCommit(core, state).commitIndex ==> !Notable(core, i)
    ensures MaybeCommit(core, state) == CommitResult(AdvanceCommit(core, state), state, NOTHING, false)
  {
    hide CommitTarget, CommittedConfig, Notable;
    SameNotable(core, AdvanceCommit(core, state));
    ScanPasses(AdvanceCommit(core, state), core.commitIndex, AdvanceCommit(core, state).commitIndex);
  }
}
