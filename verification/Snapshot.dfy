/** Installing a leader's snapshot never loses what is committed. */
module Snapshot {
  import opened Types
  import opened Membership
  import opened RaftLog
  import opened Messages
  import opened RaftCore
  import opened FollowerRole
  import opened CandidateRoles
  import opened RaftNode

  predicate InOrder(core: Core) {
    core.Log().snapshotIndex <= core.lastApplied <= core.commitIndex <= core.Log().LastIndex()
  }

  lemma ContiguousLast(log: Log)
    requires log.Contiguous()
    ensures log.LastIndex() == log.snapshotIndex + |log.entries|
  {
  }

  /** Installation leaves either an empty suffix at the snapshot, or the old suffix above it. */
  lemma InstalledLog(log: Log, index: LogIndex, term: Term, config: Configuration)
    requires log.Contiguous() && index > log.snapshotIndex && term >= 1
    ensures var after := log.InstallSnapshot(index, term, config);
      && after.Contiguous() && after.snapshotIndex == index && after.snapshotTerm == term
          && after.snapshotConfig == Some(config)
      && after.LastIndex() == (if log.SnapshotMatchesPrefix(index, term) then log.LastIndex() else index)
      && (log.SnapshotMatchesPrefix(index, term) ==> index <= log.LastIndex())
  {
    ContiguousLast(log);
    var after := log.InstallSnapshot(index, term, config);
    if log.SnapshotMatchesPrefix(index, term) {
      assert index - log.snapshotIndex <= |log.entries|;
      assert forall i :: 0 <= i < |after.entries| ==> after.entries[i] == log.entries[i + index - log.snapshotIndex];
    }
    ContiguousLast(after);
  }

  /** Where the snapshot agrees with the log, every entry above it stays where it was. */
  lemma SuffixKept(log: Log, index: LogIndex, term: Term, config: Configuration, i: LogIndex)
    requires log.Contiguous() && term >= 1 && log.SnapshotMatchesPrefix(index, term) && i > index
    ensures log.InstallSnapshot(index, term, config).Get(i) == log.Get(i)
  {
    ContiguousLast(log);
  }

  /** Handling any snapshot of a positive term keeps snapshot <= applied <= commit <= last. */
  lemma InstallKeepsOrder(core: Core, m: Message)
    requires core.Log().Contiguous() && InOrder(core) && m.body.InstallSnapshotRequest? && m.body.lastIncludedTerm >= 1
    ensures var after := HandleInstallSnapshot(core, m).core; after.Log().Contiguous() && InOrder(after)
  {
    hide Log.InstallSnapshot;
    if m.body.lastIncludedIndex > core.Log().snapshotIndex {
      InstalledLog(core.Log(), m.body.lastIncludedIndex, m.body.lastIncludedTerm, m.body.configuration);
    }
  }

  /** ... and keeps every entry above the new snapshot up to the old commit index. */
  lemma InstallKeepsCommitted(core: Core, m: Message, i: LogIndex)
    requires core.Log().Contiguous() && InOrder(core) && m.body.InstallSnapshotRequest? && m.body.lastIncludedTerm >= 1
    requires HandleInstallSnapshot(core, m).core.Log().snapshotIndex < i <= core.commitIndex
    ensures core.Log().Get(i).Some? && HandleInstallSnapshot(core, m).core.Log().Get(i) == core.Log().Get(i)
  {
    ContiguousLast(core.Log());
    var index, term := m.body.lastIncludedIndex, m.body.lastIncludedTerm;
    if index > core.Log().snapshotIndex
        && (index >= core.commitIndex || core.Log().SnapshotMatchesPrefix(index, term)) {
      InstalledLog(core.Log(), index, term, m.body.configuration);
      if core.Log().SnapshotMatchesPrefix(index, term) {
        SuffixKept(core.Log(), index, term, m.body.configuration, i);
      }
    }
  }

  /** A snapshot that the log already agrees with changes only the representation. */
  lemma AgreeingInstallIsCompaction(log: Log, full: seq<Entry>, index: LogIndex, config: Configuration)
    requires Represents(log, full) && log.snapshotIndex < index <= |full| && FullTermAt(full, index) >= 1
    requires LatestConfig(full[..index]) == Some(config)
    ensures Represents(log.InstallSnapshot(index, FullTermAt(full, index), config), full)
  {
    QueriesAgree(log, full, index);
    TruncatePrefixRepresents(log, full, index);
  }

  /** No step of a follower that handles a snapshot moves its commit or applied index back. */
  lemma InstallIsMonotone(core: Core, m: Message)
    requires m.body.InstallSnapshotRequest?
    ensures var after := HandleInstallSnapshot(core, m).core;
      && after.commitIndex >= core.commitIndex && after.lastApplied >= core.lastApplied
      && after.Log().snapshotIndex >= core.Log().snapshotIndex
      && (HandleInstallSnapshot(core, m).effects.persist <==> after.Log().snapshotIndex > core.Log().snapshotIndex)
  {
  }
}
