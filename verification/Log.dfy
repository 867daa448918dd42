/**
 The replicated log with a compacted prefix. Indices start at 1; entries up to
 `snapshotIndex` have been discarded.
 */
module RaftLog {
  import opened Types
  import opened Membership

  datatype Payload = Command(bytes: Bytes) | Config(config: Configuration)

  datatype Entry = Entry(term: Term, index: LogIndex, payload: Payload)

  datatype Log = Log(entries: seq<Entry>, snapshotIndex: LogIndex, snapshotTerm: Term,
                     snapshotConfig: Option<Configuration>)
  {
    function LastIndex(): LogIndex {
      if entries == [] then snapshotIndex else entries[|entries| - 1].index
    }

    function LastTerm(): Term {
      if entries == [] then snapshotTerm else entries[|entries| - 1].term
    }

    /** The term at `index`, or 0 where no entry is available. */
    function TermAt(index: LogIndex): Term {
      if index == 0 || index < snapshotIndex then 0
      else if index == snapshotIndex then snapshotTerm
      else if index - snapshotIndex <= |entries| then entries[index - snapshotIndex - 1].term
      else 0
    }

    function Get(index: LogIndex): Option<Entry> {
      if index == 0 || index <= snapshotIndex || index - snapshotIndex > |entries| then None
      else Some(entries[index - snapshotIndex - 1])
    }

    function Append(entry: Entry): Log {
      this.(entries := entries + [entry])
    }

    /** Keeps entries up to and including `index`; the snapshot boundary is never crossed. */
    function TruncateAfter(index: LogIndex): Log {
      if index <= snapshotIndex then this.(entries := [])
      else if index - snapshotIndex <= |entries| then this.(entries := entries[..index - snapshotIndex])
      else this
    }

    /** Discards entries up to and including `index`, which had `term`. */
    function TruncatePrefix(index: LogIndex, term: Term): Log {
      if index <= snapshotIndex then this
      else
        var removed := index - snapshotIndex;
        Log(if removed >= |entries| then [] else entries[removed..], index, term, ConfigAt(index))
    }

    predicate SnapshotMatchesPrefix(index: LogIndex, term: Term) {
      index > snapshotIndex && TermAt(index) == term
    }

    /** Installs a leader's snapshot, keeping the suffix only when it extends the snapshot. */
    function InstallSnapshot(index: LogIndex, term: Term, config: Configuration): Log {
      var base := if SnapshotMatchesPrefix(index, term) then TruncatePrefix(index, term)
                  else this.(entries := [], snapshotIndex := index, snapshotTerm := term);
      base.(snapshotConfig := Some(config))
    }

    /** Entries from `start` to `end`, both inclusive, clamped to what is available. */
    function Slice(start: LogIndex, end: LogIndex): seq<Entry> {
      var from := Max(start, snapshotIndex + 1);
      if from > end || entries == [] then []
      else
        var lo := from - snapshotIndex - 1;
        var last := Min(end, LastIndex());
        var hi := if last <= snapshotIndex then |entries| else Min(last - snapshotIndex, |entries|);
        if lo >= hi then [] else entries[lo..hi]
    }

    /** The latest configuration entry at or before `index`, falling back on the snapshot's. */
    function ConfigAt(index: LogIndex): Option<Configuration> {
      if index <= snapshotIndex then snapshotConfig
      else
        match LatestConfig(entries[..Min(index - snapshotIndex, |entries|)])
        case Some(config) => Some(config)
        case None => snapshotConfig
    }

    /** The index of the latest configuration entry above `commit`. */
    function PendingConfigIndex(commit: LogIndex): Option<LogIndex> {
      LatestPending(entries, commit)
    }

    /** Entries are numbered consecutively from the snapshot boundary. */
    predicate Contiguous() {
      forall i :: 0 <= i < |entries| ==> entries[i].index == snapshotIndex + 1 + i
    }
  }

  function EmptyLog(): Log { Log([], 0, 0, None) }

  function LatestConfig(entries: seq<Entry>): Option<Configuration> {
    if entries == [] then None
    else
      var last := entries[|entries| - 1];
      if last.payload.Config? then Some(last.payload.config)
      else LatestConfig(entries[..|entries| - 1])
  }

  function LatestPending(entries: seq<Entry>, commit: LogIndex): Option<LogIndex> {
    if entries == [] then None
    else
      var last := entries[|entries| - 1];
      if last.payload.Config? && last.index > commit then Some(last.index)
      else LatestPending(entries[..|entries| - 1], commit)
  }

  // --- The log as a plain, never compacted sequence ---

  predicate Numbered(full: seq<Entry>) {
    forall i :: 0 <= i < |full| ==> full[i].index == i + 1
  }

  function FullTermAt(full: seq<Entry>, index: LogIndex): Term {
    if 0 < index <= |full| then full[index - 1].term else 0
  }

  /** `log` is `full` with everything up to the snapshot boundary discarded. */
  predicate Represents(log: Log, full: seq<Entry>) {
    && Numbered(full)
    && log.snapshotIndex <= |full|
    && log.entries == full[log.snapshotIndex..]
    && log.snapshotTerm == FullTermAt(full, log.snapshotIndex)
    && log.snapshotConfig == LatestConfig(full[..log.snapshotIndex])
  }

  /** A configuration in the suffix wins; otherwise the prefix decides. */
  lemma {:induction false} LatestConfigOfConcat(a: seq<Entry>, b: seq<Entry>)
    ensures LatestConfig(a + b) ==
      match LatestConfig(b) case Some(c) => Some(c) case None => LatestConfig(a)
  {
    if b == [] {
      assert a + b == a;
    } else {
      assert (a + b)[..|a + b| - 1] == a + b[..|b| - 1];
      LatestConfigOfConcat(a, b[..|b| - 1]);
    }
  }

  /** The boundary questions, answered as on the plain sequence. */
  lemma RepresentsScalars(log: Log, full: seq<Entry>)
    requires Represents(log, full)
    ensures log.LastIndex() == |full|
    ensures log.LastTerm() == FullTermAt(full, |full|)
    ensures log.Contiguous()
  {
    if log.entries != [] {
      assert log.entries[|log.entries| - 1] == full[|full| - 1];
    }
  }

  /** Every query at or above the boundary answers as on the plain sequence. */
  lemma QueriesAgree(log: Log, full: seq<Entry>, index: LogIndex)
    requires Represents(log, full)
    requires index >= log.snapshotIndex
    ensures log.TermAt(index) == FullTermAt(full, index)
    ensures index > log.snapshotIndex ==>
      log.Get(index) == if index <= |full| then Some(full[index - 1]) else None
    ensures log.ConfigAt(index) == LatestConfig(full[..Min(index, |full|)])
  {
    var s := log.snapshotIndex;
    if index > s {
      var n := Min(index, |full|);
      assert full[..n] == full[..s] + log.entries[..n - s];
      LatestConfigOfConcat(full[..s], log.entries[..n - s]);
    }
  }

  lemma SliceAgrees(log: Log, full: seq<Entry>, start: LogIndex, end: LogIndex)
    requires Represents(log, full)
    requires start > log.snapshotIndex
    ensures log.Slice(start, end) ==
      if start <= end && start <= |full| then full[start - 1..Min(end, |full|)] else []
  {
    RepresentsScalars(log, full);
    assert |log.entries| == |full| - log.snapshotIndex;
    if start <= end && start <= |full| {
      assert log.entries[start - log.snapshotIndex - 1..Min(end, |full|) - log.snapshotIndex]
        == full[start - 1..Min(end, |full|)];
    }
  }

  lemma AppendRepresents(log: Log, full: seq<Entry>, entry: Entry)
    requires Represents(log, full) && entry.index == |full| + 1
    ensures Represents(log.Append(entry), full + [entry])
  {
    assert (full + [entry])[..log.snapshotIndex] == full[..log.snapshotIndex];
    assert (full + [entry])[log.snapshotIndex..] == full[log.snapshotIndex..] + [entry];
  }

  lemma TruncateAfterRepresents(log: Log, full: seq<Entry>, index: LogIndex)
    requires Represents(log, full)
    ensures Represents(log.TruncateAfter(index), full[..Min(Max(index, log.snapshotIndex), |full|)])
  {
    var kept := full[..Min(Max(index, log.snapshotIndex), |full|)];
    assert kept[..log.snapshotIndex] == full[..log.snapshotIndex];
    assert log.TruncateAfter(index).entries == kept[log.snapshotIndex..];
  }

  /** Compaction changes the representation and nothing else. */
  lemma TruncatePrefixRepresents(log: Log, full: seq<Entry>, index: LogIndex)
    requires Represents(log, full) && index <= |full|
    ensures Represents(log.TruncatePrefix(index, FullTermAt(full, index)), full)
  {
    if index > log.snapshotIndex {
      QueriesAgree(log, full, index);
    }
  }

  /** Compaction at `i` is invisible from `i` up. */
  lemma CompactionInvisible(log: Log, full: seq<Entry>, i: LogIndex, j: LogIndex, end: LogIndex)
    requires Represents(log, full)
    requires log.snapshotIndex <= i <= |full| && i <= j
    ensures var small := log.TruncatePrefix(i, log.TermAt(i));
      && small.LastIndex() == log.LastIndex() && small.LastTerm() == log.LastTerm()
      && small.TermAt(j) == log.TermAt(j) && small.ConfigAt(j) == log.ConfigAt(j)
      && (j > i ==> small.Get(j) == log.Get(j) && small.Slice(j, end) == log.Slice(j, end))
  {
    QueriesAgree(log, full, i);
    TruncatePrefixRepresents(log, full, i);
    var small := log.TruncatePrefix(i, log.TermAt(i));
    RepresentsScalars(log, full);
    RepresentsScalars(small, full);
    QueriesAgree(log, full, j);
    QueriesAgree(small, full, j);
    if j > i {
      SliceAgrees(log, full, j, end);
      SliceAgrees(small, full, j, end);
    }
  }

  /** The in-place log: real fields hold the compacted form, `full` the sequence it stands for. */
  class LogBuffer {
    var entries: seq<Entry>
    var snapshotIndex: LogIndex
    var snapshotTerm: Term
    var snapshotConfig: Option<Configuration>
    ghost var full: seq<Entry>

    function View(): Log
      reads this
    {
      Log(entries, snapshotIndex, snapshotTerm, snapshotConfig)
    }

    ghost predicate Valid()
      reads this
    {
      Represents(View(), full)
    }

    constructor ()
      ensures Valid() && full == [] && View() == EmptyLog()
    {
      entries, snapshotIndex, snapshotTerm, snapshotConfig, full := [], 0, 0, None, [];
    }

    method Append(entry: Entry)
      requires Valid() && entry.index == View().LastIndex() + 1
      modifies this
      ensures Valid() && full == old(full) + [entry]
      ensures View() == old(View()).Append(entry)
    {
      RepresentsScalars(View(), full);
      AppendRepresents(View(), full, entry);
      entries := entries + [entry];
      full := full + [entry];
    }

    method TruncateAfter(index: LogIndex)
      requires Valid()
      modifies this
      ensures Valid() && full == old(full)[..Min(Max(index, snapshotIndex), |old(full)|)]
      ensures View() == old(View()).TruncateAfter(index)
    {
      TruncateAfterRepresents(View(), full, index);
      full := full[..Min(Max(index, snapshotIndex), |full|)];
      if index <= snapshotIndex {
        entries := [];
      } else if index - snapshotIndex <= |entries| {
        entries := entries[..index - snapshotIndex];
      }
    }

    /** The term must be the one at `index`; the sequence the log stands for does not change. */
    method TruncatePrefix(index: LogIndex, term: Term)
      requires Valid() && index <= |full| && term == FullTermAt(full, index)
      modifies this
      ensures Valid() && full == old(full)
      ensures snapshotIndex == Max(index, old(snapshotIndex))
      ensures View() == old(View()).TruncatePrefix(index, term)
    {
      TruncatePrefixRepresents(View(), full, index);
      if index <= snapshotIndex {
        return;
      }
      var config := ConfigAt(index);
      var removed := index - snapshotIndex;
      if removed >= |entries| {
        entries := [];
      } else {
        entries := entries[removed..];
      }
      snapshotIndex, snapshotTerm, snapshotConfig := index, term, config;
    }

    /** Scans backwards for the latest configuration at or before `index`. */
    method ConfigAt(index: LogIndex) returns (config: Option<Configuration>)
      requires Valid()
      ensures config == View().ConfigAt(index)
      ensures index >= snapshotIndex ==> config == LatestConfig(full[..Min(index, |full|)])
    {
      if index >= snapshotIndex {
        QueriesAgree(View(), full, index);
      }
      if index <= snapshotIndex {
        return snapshotConfig;
      }
      var end := Min(index - snapshotIndex, |entries|);
      var i := end;
      while i > 0
        invariant 0 <= i <= end
        invariant LatestConfig(entries[..end]) == LatestConfig(entries[..i])
      {
        assert entries[..i][..i - 1] == entries[..i - 1];
        if entries[i - 1].payload.Config? {
          return Some(entries[i - 1].payload.config);
        }
        i := i - 1;
      }
      config := snapshotConfig;
    }
  }
}
