/**
 Delta persistence: each save records the hard state and only the log suffix that changed, found by
 comparing terms. Replaying the deltas gives back the state because equal terms mean equal prefixes.
 */
module Store {
  import opened Types
  import opened Membership
  import opened RaftLog
  import opened RaftCore
  import opened Wal
  import opened Protocol

  datatype Delta = Delta(term: Term, votedFor: Option<NodeId>, bootstrap: Configuration, truncateAfter: LogIndex,
                         entries: seq<Entry>)

  datatype StoreError =
    | TermRegression(previous: Term, next: Term)
    | InvalidTruncation(index: LogIndex, lastIndex: LogIndex)
    | NoncontiguousEntry(expected: LogIndex, found: LogIndex)
    | SnapshotUnsupported
    | UnexpectedKind(found: nat)
    | Undecodable
    | WalFailed(error: WalError)

  // --- What the operations compute ---

  /** The highest index at or below `index`, above the boundary, where the terms agree. */
  function CommonPrefixFrom(durable: Log, current: Log, index: LogIndex): LogIndex {
    if index > Max(durable.snapshotIndex, current.snapshotIndex) && durable.TermAt(index) != current.TermAt(index)
    then CommonPrefixFrom(durable, current, index - 1) else index
  }

  function CommonPrefix(durable: Log, current: Log): LogIndex {
    CommonPrefixFrom(durable, current, Min(durable.LastIndex(), current.LastIndex()))
  }

  function MakeDelta(durable: Persistent, current: Persistent): Result<Delta, StoreError> {
    if current.log.snapshotIndex != durable.log.snapshotIndex then Err(SnapshotUnsupported)
    else
      var common := CommonPrefix(durable.log, current.log);
      Ok(Delta(current.term, current.votedFor, current.bootstrap, common,
               current.log.Slice(common + 1, current.log.LastIndex())))
  }

  /** Appends entries while their indices continue the log. */
  function AppendAll(log: Log, entries: seq<Entry>, k: nat): Result<Log, StoreError>
    requires k <= |entries|
  {
    if k == 0 then Ok(log)
    else
      match AppendAll(log, entries, k - 1)
      case Err(e) => Err(e)
      case Ok(mid) =>
        if entries[k - 1].index != mid.LastIndex() + 1
        then Err(NoncontiguousEntry(mid.LastIndex() + 1, entries[k - 1].index))
        else Ok(mid.Append(entries[k - 1]))
  }

  function ApplyDelta(state: Persistent, delta: Delta): Result<Persistent, StoreError> {
    if delta.term < state.term then Err(TermRegression(state.term, delta.term))
    else if delta.truncateAfter > state.log.LastIndex() then
      Err(InvalidTruncation(delta.truncateAfter, state.log.LastIndex()))
    else
      match AppendAll(state.log.TruncateAfter(delta.truncateAfter), delta.entries, |delta.entries|)
      case Err(e) => Err(e)
      case Ok(log) => Ok(Persistent(delta.term, delta.votedFor, log, delta.bootstrap))
  }

  /** Recovery: the deltas replayed in order, up to the first error. */
  function Replay(state: Persistent, deltas: seq<Delta>, k: nat): Result<Persistent, StoreError>
    requires k <= |deltas|
  {
    if k == 0 then Ok(state)
    else
      match Replay(state, deltas, k - 1)
      case Err(e) => Err(e)
      case Ok(mid) => ApplyDelta(mid, deltas[k - 1])
  }

  // --- The loops ---

  method FindCommonPrefix(durable: Log, current: Log) returns (index: LogIndex)
    ensures index == CommonPrefix(durable, current)
  {
    var floor := Max(durable.snapshotIndex, current.snapshotIndex);
    index := Min(durable.LastIndex(), current.LastIndex());
    while index > floor && durable.TermAt(index) != current.TermAt(index)
      invariant CommonPrefixFrom(durable, current, index) == CommonPrefix(durable, current)
    {
      index := index - 1;
    }
  }

  lemma {:induction false} AppendAllFails(log: Log, entries: seq<Entry>, k: nat, m: nat)
    requires k <= m <= |entries| && AppendAll(log, entries, k).Err?
    ensures AppendAll(log, entries, m) == AppendAll(log, entries, k)
    decreases m - k
  {
    if k < m {
      AppendAllFails(log, entries, k, m - 1);
    }
  }

  method ApplyOne(state: Persistent, delta: Delta) returns (result: Result<Persistent, StoreError>)
    ensures result == ApplyDelta(state, delta)
  {
    if delta.term < state.term {
      return Err(TermRegression(state.term, delta.term));
    }
    if delta.truncateAfter > state.log.LastIndex() {
      return Err(InvalidTruncation(delta.truncateAfter, state.log.LastIndex()));
    }
    var base := state.log.TruncateAfter(delta.truncateAfter);
    var log := base;
    for i := 0 to |delta.entries|
      invariant AppendAll(base, delta.entries, i) == Ok(log)
    {
      var expected := log.LastIndex() + 1;
      if delta.entries[i].index != expected {
        AppendAllFails(base, delta.entries, i + 1, |delta.entries|);
        return Err(NoncontiguousEntry(expected, delta.entries[i].index));
      }
      log := log.Append(delta.entries[i]);
    }
    result := Ok(Persistent(delta.term, delta.votedFor, log, delta.bootstrap));
  }

  /** The entries continue a log that ends at `last`. */
  predicate Continues(last: LogIndex, entries: seq<Entry>, k: nat)
    requires k <= |entries|
  {
    forall i :: 0 <= i < k ==> entries[i].index == last + 1 + i
  }

  lemma {:induction false} AppendAllExactly(log: Log, entries: seq<Entry>, k: nat)
    requires k <= |entries|
    ensures AppendAll(log, entries, k).Ok? <==> Continues(log.LastIndex(), entries, k)
    ensures AppendAll(log, entries, k).Ok? ==>
      AppendAll(log, entries, k).value == log.(entries := log.entries + entries[..k])
      && AppendAll(log, entries, k).value.LastIndex() == log.LastIndex() + k
  {
    if k > 0 {
      AppendAllExactly(log, entries, k - 1);
      assert entries[..k] == entries[..k - 1] + [entries[k - 1]];
    } else {
      assert log.entries + entries[..0] == log.entries;
    }
  }

  /** A delta is applied exactly when its term does not fall, it cuts within the log, and its entries go on from there;
      then the state is the delta's, on the kept part of the log with the entries behind. */
  lemma DeltaAppliedExactly(state: Persistent, delta: Delta)
    ensures ApplyDelta(state, delta).Ok? <==>
      && delta.term >= state.term && delta.truncateAfter <= state.log.LastIndex()
      && Continues(state.log.TruncateAfter(delta.truncateAfter).LastIndex(), delta.entries, |delta.entries|)
    ensures ApplyDelta(state, delta).Ok? ==>
      var kept := state.log.TruncateAfter(delta.truncateAfter);
      ApplyDelta(state, delta).value == Persistent(delta.term, delta.votedFor,
          kept.(entries := kept.entries + delta.entries), delta.bootstrap)
  {
    AppendAllExactly(state.log.TruncateAfter(delta.truncateAfter), delta.entries, |delta.entries|);
    assert delta.entries[..|delta.entries|] == delta.entries;
  }

  // --- One save, replayed ---

  /** Logs a store can hold: numbered from the same boundary. */
  predicate Comparable(a: Log, b: Log) {
    && a.Contiguous() && b.Contiguous()
    && a.snapshotIndex == b.snapshotIndex && a.snapshotTerm == b.snapshotTerm && a.snapshotConfig == b.snapshotConfig
  }

  /** The first `k` entries of both logs are the same. */
  predicate SamePrefix(a: Log, b: Log, k: int) {
    0 <= k <= |a.entries| && k <= |b.entries| && a.entries[..k] == b.entries[..k]
  }

  lemma {:induction false} CommonPrefixBounds(durable: Log, current: Log, index: LogIndex)
    requires Comparable(durable, current) && durable.snapshotIndex <= index
    ensures durable.snapshotIndex <= CommonPrefixFrom(durable, current, index) <= index
    ensures CommonPrefixFrom(durable, current, index) == durable.snapshotIndex
      || durable.TermAt(CommonPrefixFrom(durable, current, index)) == current.TermAt(CommonPrefixFrom(durable,
          current, index))
  {
    if index > durable.snapshotIndex && durable.TermAt(index) != current.TermAt(index) {
      CommonPrefixBounds(durable, current, index - 1);
    }
  }

  /** No index above it has equal terms, so a delta records no more than it has to. */
  lemma {:induction false} CommonPrefixIsHighest(durable: Log, current: Log, index: LogIndex, i: LogIndex)
    requires CommonPrefixFrom(durable, current, index) < i <= index
    ensures durable.TermAt(i) != current.TermAt(i)
  {
    if i < index {
      CommonPrefixIsHighest(durable, current, index - 1, i);
    }
  }

  lemma LastOf(log: Log)
    requires log.Contiguous()
    ensures log.LastIndex() == log.snapshotIndex + |log.entries|
  {
  }

  /** The suffix a delta records is everything above the common prefix. */
  lemma SuffixOf(log: Log, common: LogIndex)
    requires log.Contiguous() && log.snapshotIndex <= common <= log.LastIndex()
    ensures common - log.snapshotIndex <= |log.entries|
    ensures log.Slice(common + 1, log.LastIndex()) == log.entries[common - log.snapshotIndex..]
  {
    LastOf(log);
  }

  /** Appending a suffix that continues the log gives the log back. */
  lemma {:induction false} AppendSuffix(base: Log, whole: Log, k: nat)
    requires Comparable(base, whole) && |base.entries| + k <= |whole.entries|
    ensures var tail := whole.entries[|base.entries|..];
      AppendAll(base, tail, k) == Ok(base.(entries := base.entries + tail[..k]))
  {
    var tail := whole.entries[|base.entries|..];
    if k == 0 {
      assert base.entries + tail[..0] == base.entries;
    } else {
      AppendSuffix(base, whole, k - 1);
      var mid := base.(entries := base.entries + tail[..k - 1]);
      LastOf(mid);
      assert tail[k - 1] == whole.entries[|base.entries| + k - 1];
      assert mid.entries + [tail[k - 1]] == base.entries + tail[..k];
    }
  }

  /** What replaying one save gives, whatever the two logs held below the common prefix. */
  lemma SaveReplays(durable: Persistent, current: Persistent)
    requires Comparable(durable.log, current.log)
    ensures MakeDelta(durable, current).Ok?
    ensures var k := CommonPrefix(durable.log, current.log) - durable.log.snapshotIndex;
      && 0 <= k <= |durable.log.entries| && k <= |current.log.entries|
      && ApplyDelta(durable, MakeDelta(durable, current).value) ==
         if current.term < durable.term then Err(TermRegression(durable.term, current.term))
         else Ok(current.(log := current.log.(entries := durable.log.entries[..k] + current.log.entries[k..])))
  {
    hide Log.Slice, AppendAll, CommonPrefixFrom;
    var common := CommonPrefix(durable.log, current.log);
    var k := common - durable.log.snapshotIndex;
    LastOf(durable.log);
    LastOf(current.log);
    CommonPrefixBounds(durable.log, current.log, Min(durable.log.LastIndex(), current.log.LastIndex()));
    SuffixOf(current.log, common);
    SuffixReplays(durable.log, current.log, k);
  }

  lemma SuffixReplays(durable: Log, current: Log, k: nat)
    requires Comparable(durable, current) && k <= |durable.entries| && k <= |current.entries|
    ensures var tail := current.entries[k..];
      AppendAll(durable.TruncateAfter(durable.snapshotIndex + k), tail, |tail|)
        == Ok(current.(entries := durable.entries[..k] + tail))
  {
    hide AppendAll;
    var base, tail := durable.TruncateAfter(durable.snapshotIndex + k), current.entries[k..];
    assert base.entries == durable.entries[..k];
    AppendSuffix(base, current, |current.entries| - k);
    assert tail[..|tail|] == tail;
  }

  /** A save replays to the saved state exactly when the term did not fall and the logs agree below the
      highest index at which their terms do. */
  lemma SaveReplaysExactly(durable: Persistent, current: Persistent)
    requires Comparable(durable.log, current.log)
    ensures MakeDelta(durable, current).Ok?
    ensures ApplyDelta(durable, MakeDelta(durable, current).value) == Ok(current) <==>
      && durable.term <= current.term
      && SamePrefix(durable.log, current.log, CommonPrefix(durable.log, current.log) - durable.log.snapshotIndex)
  {
    hide MakeDelta, ApplyDelta, CommonPrefix;
    SaveReplays(durable, current);
    var k := CommonPrefix(durable.log, current.log) - durable.log.snapshotIndex;
    var mixed := durable.log.entries[..k] + current.log.entries[k..];
    assert current.log.entries == current.log.entries[..k] + current.log.entries[k..];
    assert mixed[..k] == durable.log.entries[..k];
  }

  /** Log matching is what makes the term comparison sound. */
  lemma MatchingGivesPrefix(durable: Log, current: Log)
    requires Comparable(durable, current) && Matching(durable.entries, current.entries)
    ensures SamePrefix(durable, current, CommonPrefix(durable, current) - durable.snapshotIndex)
  {
    LastOf(durable);
    LastOf(current);
    CommonPrefixBounds(durable, current, Min(durable.LastIndex(), current.LastIndex()));
    var k := CommonPrefix(durable, current) - durable.snapshotIndex;
    if k > 0 {
      assert TermsAgree(durable.entries, current.entries, k - 1);
    }
  }

  // --- Sequences of saves ---

  /** Each saved state may follow the one before: the term does not fall, and the logs match. */
  predicate Follows(durable: Persistent, current: Persistent) {
    && Comparable(durable.log, current.log) && Matching(durable.log.entries, current.log.entries)
    && durable.term <= current.term
  }

  predicate Chain(initial: Persistent, states: seq<Persistent>) {
    forall i :: 0 <= i < |states| ==> Follows(Before(initial, states, i), states[i])
  }

  function Before(initial: Persistent, states: seq<Persistent>, i: nat): Persistent
    requires i <= |states|
  {
    if i == 0 then initial else states[i - 1]
  }

  /** The deltas that saving these states in turn records. */
  predicate Recorded(initial: Persistent, states: seq<Persistent>, deltas: seq<Delta>) {
    && |deltas| == |states|
    && forall i :: 0 <= i < |states| ==> MakeDelta(Before(initial, states, i), states[i]) == Ok(deltas[i])
  }

  /** Replaying the recorded deltas never fails and yields exactly the last saved state. */
  lemma {:induction false} ReplayIsExact(initial: Persistent, states: seq<Persistent>, deltas: seq<Delta>, k: nat)
    requires Chain(initial, states) && Recorded(initial, states, deltas) && k <= |states|
    ensures Replay(initial, deltas, k) == Ok(Before(initial, states, k))
  {
    hide MakeDelta, ApplyDelta, Matching;
    if k > 0 {
      ReplayIsExact(initial, states, deltas, k - 1);
      var durable, current := Before(initial, states, k - 1), states[k - 1];
      assert Follows(durable, current);
      MatchingGivesPrefix(durable.log, current.log);
      SaveReplaysExactly(durable, current);
    }
  }

  /** Without log matching the term comparison can splice two different logs. */
  lemma MismatchedSavesSplice()
    ensures exists durable: Persistent, current: Persistent ::
      && Comparable(durable.log, current.log) && durable.term <= current.term && MakeDelta(durable, current).Ok?
      && ApplyDelta(durable, MakeDelta(durable, current).value) != Ok(current)
  {
    var command := Command([]);
    var a := Log([Entry(1, 1, command), Entry(3, 2, command)], 0, 0, None);
    var b := Log([Entry(2, 1, command), Entry(3, 2, command)], 0, 0, None);
    var durable := Persistent(3, None, a, Simple({0}, {}));
    var current := Persistent(3, None, b, Simple({0}, {}));
    SaveReplaysExactly(durable, current);
    assert CommonPrefix(a, b) == 2;
    assert a.entries[..2][0] != b.entries[..2][0];
    assert ApplyDelta(durable, MakeDelta(durable, current).value) != Ok(current);
  }
}
