/** Membership changes as the leader takes them in. */
module ConfigChanges {
  import opened Types
  import opened Membership
  import opened RaftLog
  import opened Messages
  import opened RaftCore
  import opened LeaderRole
  import CommitLoop

  /** An accepted change is the only one under way, promotes only a learner that has caught up, takes effect as
      the next log entry at once, and keeps the configuration sound. */
  lemma AcceptedChange(core: Core, state: LeaderState, change: ConfigChange)
    requires core.EffectiveConfig().Sound() && ProposeConfigChange(core, state, change).Ok?
    ensures var current, next := core.EffectiveConfig(), Apply(change, core.EffectiveConfig(), core.settings.mode);
      && current.Simple? && !core.HasPendingConfig() && next.Sound()
      && (change.AddVoter? ==> change.id in current.learners && state.Match(change.id) >= core.Log().LastIndex())
      && core.Log().entries + [Entry(core.Term(), core.Log().LastIndex() + 1, Config(next))]
         <= ProposeConfigChange(core, state, change).value.core.Log().entries
  {
    hide Apply, MaybeCommit, Broadcast, ReinitProgress;
    var current := core.EffectiveConfig();
    ChangeKeepsSound(change, current, core.settings.mode);
    var payload := Config(Apply(change, current, core.settings.mode));
    var after := core.WithLog(core.Log().Append(Entry(core.Term(), core.Log().LastIndex() + 1, payload)));
    CommitLoop.LoopIsMonotone(after, ReinitProgress(after, state));
  }

  /** Any quorum before an accepted change meets any quorum of the configuration it appends. */
  lemma AcceptedChangeOverlaps(core: Core, state: LeaderState, change: ConfigChange, q: set<NodeId>, r: set<NodeId>)
    requires core.EffectiveConfig().Sound() && ProposeConfigChange(core, state, change).Ok?
    requires core.EffectiveConfig().HasQuorum(q)
    requires Apply(change, core.EffectiveConfig(), core.settings.mode).HasQuorum(r)
    ensures q * r != {}
  {
    hide Apply, MaybeCommit, Broadcast, Configuration.HasQuorum;
    QuorumsOverlapAcrossChange(change, core.EffectiveConfig(), core.settings.mode, q, r);
  }

  lemma {:induction false} PendingIsUncommitted(entries: seq<Entry>, commit: LogIndex)
    ensures LatestPending(entries, commit).Some? <==>
      exists i :: 0 <= i < |entries| && entries[i].payload.Config? && entries[i].index > commit
  {
    if entries != [] {
      var front := entries[..|entries| - 1];
      PendingIsUncommitted(front, commit);
      assert forall i :: 0 <= i < |front| ==> front[i] == entries[i];
    }
  }

  /** A change is taken exactly when it is valid now, a promoted learner holds the whole log, and no configuration is
      still uncommitted. */
  lemma ChangeTakenExactly(core: Core, state: LeaderState, change: ConfigChange)
    ensures ProposeConfigChange(core, state, change).Ok? <==>
      && Validate(change, core.EffectiveConfig(), core.settings.mode).None?
      && (change.AddVoter? ==> state.Match(change.id) >= core.Log().LastIndex())
      && forall i :: 0 <= i < |core.Log().entries| && core.Log().entries[i].payload.Config? ==>
           core.Log().entries[i].index <= core.commitIndex
  {
    hide Validate, MaybeCommit, Broadcast;
    PendingIsUncommitted(core.Log().entries, core.commitIndex);
  }

  /** Index `i` holds the last configuration of the log. */
  ghost predicate LastConfig(full: seq<Entry>, i: int) {
    && 0 <= i < |full| && full[i].payload.Config?
    && forall j :: i < j < |full| ==> !full[j].payload.Config?
  }

  lemma {:induction false} LatestIsLast(full: seq<Entry>)
    ensures LatestConfig(full).None? ==> forall i :: 0 <= i < |full| ==> !full[i].payload.Config?
    ensures forall i :: LastConfig(full, i) ==> LatestConfig(full) == Some(full[i].payload.config)
  {
    if full != [] {
      var front := full[..|full| - 1];
      LatestIsLast(front);
      assert forall i :: 0 <= i < |front| ==> front[i] == full[i];
      if !full[|full| - 1].payload.Config? {
        forall i | LastConfig(full, i) ensures LatestConfig(full) == Some(full[i].payload.config) {
          assert LastConfig(front, i);
        }
      }
    }
  }

  /** A configuration is in effect from the moment it is in the log, committed or not, compacted or not: the last one of
      the whole log, or the first there ever was. */
  lemma LastConfigInEffect(core: Core, full: seq<Entry>)
    requires Represents(core.Log(), full)
    ensures forall i :: LastConfig(full, i) ==> core.EffectiveConfig() == full[i].payload.config
    ensures (forall i :: 0 <= i < |full| ==> !full[i].payload.Config?) ==>
      core.EffectiveConfig() == core.persistent.bootstrap
  {
    RepresentsScalars(core.Log(), full);
    QueriesAgree(core.Log(), full, |full|);
    assert full[..|full|] == full;
    LatestIsLast(full);
    if LatestConfig(full).Some? {
      SomeConfig(full);
    }
  }

  lemma {:induction false} SomeConfig(full: seq<Entry>)
    requires LatestConfig(full).Some?
    ensures exists i :: 0 <= i < |full| && full[i].payload.Config?
  {
    if !full[|full| - 1].payload.Config? {
      SomeConfig(full[..|full| - 1]);
      var i :| 0 <= i < |full| - 1 && full[..|full| - 1][i].payload.Config?;
      assert full[i].payload.Config?;
    }
  }
}
