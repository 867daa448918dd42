/**
 The Raft store over the write-ahead log: a save appends one delta record and syncs it; opening replays
 every record. A crash at any byte leaves exactly the old state or exactly the new one.
 */
module DurableStore {
  import opened Types
  import opened RaftLog
  import opened RaftCore
  import opened Store
  import opened WalFormat
  import opened WalSegment
  import opened Wal
  import WalLog
  import opened WalStream

  const RAFT_STATE_KIND: nat := 1

  /** Any serialisation of deltas that decodes what it encoded. */
  datatype Codec = Codec(encode: Delta -> Bytes, decode: Bytes -> Option<Delta>)
  {
    ghost predicate RoundTrips() { forall d :: decode(encode(d)) == Some(d) }
  }

  // --- Recovery as a fold over the records ---

  function ApplyRecord(codec: Codec, state: Persistent, record: Record): Result<Persistent, StoreError> {
    if record.kind != RAFT_STATE_KIND then Err(UnexpectedKind(record.kind))
    else
      match codec.decode(record.payload)
      case None => Err(Undecodable)
      case Some(delta) => ApplyDelta(state, delta)
  }

  /** The state after the first `k` records, or the first failure. */
  function RecoverState(codec: Codec, initial: Persistent, records: seq<Stored>, k: nat): Result<Persistent, StoreError>
    requires k <= |records|
  {
    if k == 0 then Ok(initial)
    else
      match RecoverState(codec, initial, records, k - 1)
      case Err(e) => Err(e)
      case Ok(state) => ApplyRecord(codec, state, records[k - 1].record)
  }

  function Recovers(codec: Codec, initial: Persistent, contents: seq<seq<Record>>): Result<Persistent, StoreError> {
    RecoverState(codec, initial, All(contents), |All(contents)|)
  }

  /** What was recovered was understood: every record is of the store's kind and decodes. */
  lemma {:induction false} RecoveredIsUnderstood(codec: Codec, initial: Persistent, records: seq<Stored>, k: nat,
                                                 i: nat)
    requires i < k <= |records| && RecoverState(codec, initial, records, k).Ok?
    ensures records[i].record.kind == RAFT_STATE_KIND && codec.decode(records[i].record.payload).Some?
  {
    if i < k - 1 {
      RecoveredIsUnderstood(codec, initial, records, k - 1, i);
    }
  }

  lemma {:induction false} RecoverPrefix(codec: Codec, initial: Persistent, a: seq<Stored>, b: seq<Stored>, k: nat)
    requires k <= |a| && a <= b
    ensures RecoverState(codec, initial, b, k) == RecoverState(codec, initial, a, k)
  {
    if k > 0 {
      RecoverPrefix(codec, initial, a, b, k - 1);
    }
  }

  /** The state after the first `k` items of a stream, or the first failure. */
  function RecoverItems(codec: Codec, initial: Persistent, items: seq<Item>, k: nat): Result<Persistent, StoreError>
    requires k <= |items|
  {
    if k == 0 then Ok(initial)
    else
      match RecoverItems(codec, initial, items, k - 1)
      case Err(e) => Err(e)
      case Ok(state) =>
        match items[k - 1]
        case Err(e) => Err(WalFailed(e))
        case Ok(stored) => ApplyRecord(codec, state, stored.record)
  }

  lemma {:induction false} RecoverFails(codec: Codec, initial: Persistent, items: seq<Item>, k: nat, m: nat)
    requires k <= m <= |items| && RecoverItems(codec, initial, items, k).Err?
    ensures RecoverItems(codec, initial, items, m) == RecoverItems(codec, initial, items, k)
    decreases m - k
  {
    if k < m {
      RecoverFails(codec, initial, items, k, m - 1);
    }
  }

  /** Replays a stream of records into the initial state, up to the first failure. */
  method RecoverAll(codec: Codec, initial: Persistent, stream: RecordStream)
    returns (result: Result<Persistent, StoreError>)
    requires stream.Valid()
    modifies stream
    ensures result == RecoverItems(codec, initial, old(stream.Rest()), |old(stream.Rest())|)
  {
    hide ApplyRecord, RecordStream.Rest;
    var state := initial;
    ghost var items, k := stream.Rest(), 0;
    while true
      invariant stream.Valid() && k <= |items| && stream.Rest() == items[k..]
      invariant RecoverItems(codec, initial, items, k) == Ok(state)
      decreases |items| - k
    {
      var item := stream.Next();
      if item.None? {
        return Ok(state);
      }
      var next := if item.value.Err? then Err(WalFailed(item.value.error))
                  else ApplyRecord(codec, state, item.value.value.record);
      if next.Err? {
        RecoverFails(codec, initial, items, k + 1, |items|);
        return next;
      }
      state := next.value;
      k := k + 1;
    }
  }

  lemma {:induction false} ItemsRecover(codec: Codec, initial: Persistent, records: seq<Stored>, k: nat)
    requires k <= |records|
    ensures RecoverItems(codec, initial, Items(records), k) == RecoverState(codec, initial, records, k)
  {
    hide ApplyRecord;
    if k > 0 {
      ItemsRecover(codec, initial, records, k - 1);
    }
  }

  /** Replaying the stream of a whole log's files folds the log's records. */
  lemma WholeLogRecovers(crc: Crc, codec: Codec, initial: Persistent, contents: seq<seq<Record>>, segmentSize: nat)
    requires AllFit(contents, segmentSize)
    ensures var items := Yields(crc, Files(crc, contents), 0, 0, segmentSize);
      RecoverItems(codec, initial, items, |items|) == Recovers(codec, initial, contents)
  {
    hide AllFit, RecoverItems, RecoverState, Yields, Files;
    WholeStream(crc, contents, segmentSize);
    ItemsRecover(codec, initial, All(contents), |All(contents)|);
  }

  // --- One save ---

  /** The record a save appends. */
  function SaveRecord(codec: Codec, durable: Persistent, current: Persistent): Record
    requires MakeDelta(durable, current).Ok?
  {
    Record(RAFT_STATE_KIND, codec.encode(MakeDelta(durable, current).value))
  }

  /** With the save's record at its end, the log recovers to the saved state. */
  lemma SavedRecovers(codec: Codec, initial: Persistent, records: seq<Stored>, durable: Persistent,
                      current: Persistent, lsn: Lsn)
    requires codec.RoundTrips() && Follows(durable, current)
    requires RecoverState(codec, initial, records, |records|) == Ok(durable)
    ensures MakeDelta(durable, current).Ok?
    ensures var longer := records + [Stored(lsn, SaveRecord(codec, durable, current))];
      RecoverState(codec, initial, longer, |longer|) == Ok(current)
  {
    hide MakeDelta, ApplyDelta;
    MatchingGivesPrefix(durable.log, current.log);
    SaveReplaysExactly(durable, current);
    var longer := records + [Stored(lsn, SaveRecord(codec, durable, current))];
    RecoverPrefix(codec, initial, records, longer, |records|);
    assert longer[|records|].record == SaveRecord(codec, durable, current);
  }

  // --- A crash during a save ---

  /** The cut falls into what the last append wrote. */
  predicate InTail(contents: seq<seq<Record>>, after: seq<seq<Record>>, cut: nat)
    requires contents != [] && after != []
  {
    (|after| > |contents| || Total(Last(contents)) <= cut) && cut <= Total(Last(after))
  }

  /** A cut inside the unsynced tail leaves the new record out whole, or keeps it whole. */
  lemma CutInTail(contents: seq<seq<Record>>, r: Record, segmentSize: nat, cut: nat)
    requires contents != [] && InTail(contents, WalLog.Placed(contents, r, segmentSize), cut)
    ensures var last := Last(WalLog.Placed(contents, r, segmentSize));
      && last != [] && WhollyBefore(last, cut, if cut == Total(last) then |last| else |last| - 1)
  {
    var last := Last(WalLog.Placed(contents, r, segmentSize));
    if !WalLog.Crowded(contents, r.Len(), segmentSize) {
      StartOfPrefix(Last(contents), [r], |Last(contents)|);
    }
    assert Start(last, |last|) == Start(last, |last| - 1) + last[|last| - 1].Len();
  }

  /** What the log holds once the torn record is gone. */
  lemma TornRecordGone(contents: seq<seq<Record>>, r: Record, segmentSize: nat)
    requires contents != []
    ensures var after := WalLog.Placed(contents, r, segmentSize);
      Last(after) != [] && All(WithLast(after, Last(after)[..|Last(after)| - 1])) == All(contents)
  {
    var after := WalLog.Placed(contents, r, segmentSize);
    if WalLog.Crowded(contents, r.Len(), segmentSize) {
      AllRotate(contents);
      assert [r][..0] == [];
      assert WithLast(after, []) == contents + [[]];
    } else {
      assert (Last(contents) + [r])[..|Last(contents)|] == Last(contents);
      assert WithLast(after, Last(contents)) == contents;
    }
  }

  /** The log takes the save's record. */
  predicate Takes(crc: Crc, codec: Codec, options: Options, contents: seq<seq<Record>>, durable: Persistent,
                  current: Persistent)
    requires contents != [] && MakeDelta(durable, current).Ok?
  {
    WalLog.Refusal(options, contents, SizeOf(Files(crc, contents)), SaveRecord(codec, durable, current)).None?
  }

  /** Opening the log with its last file cut succeeds, and replaying the files it leaves gives `state`. */
  ghost predicate Reopens(crc: Crc, codec: Codec, options: Options, initial: Persistent, written: seq<seq<Record>>,
                          cut: nat, state: Persistent)
    requires written != []
  {
    && cut <= |Files(crc, written)[|written| - 1]|
    && var reopened := WalLog.Opened(crc, options, CutLast(Files(crc, written), cut));
       && reopened.Ok? && |reopened.value.files| == |written|
       && var items := Yields(crc, reopened.value.files, 0, 0, options.segmentSize);
          RecoverItems(codec, initial, items, |items|) == Ok(state)
  }

  /** If a crash keeps all synced bytes and any prefix of the bytes the save was writing, reopening succeeds
      and recovers exactly the previous state or exactly the new one: the new one when every byte made it. */
  lemma SaveIsAtomic(crc: Crc, codec: Codec, initial: Persistent, options: Options, contents: seq<seq<Record>>,
                     durable: Persistent, current: Persistent, cut: nat)
    requires codec.RoundTrips() && Follows(durable, current) && contents != [] && AllFit(contents, options.segmentSize)
    requires Recovers(codec, initial, contents) == Ok(durable)
    requires MakeDelta(durable, current).Ok? && Takes(crc, codec, options, contents, durable, current)
    requires InTail(contents, WalLog.Placed(contents, SaveRecord(codec, durable, current), options.segmentSize), cut)
    ensures var after := WalLog.Placed(contents, SaveRecord(codec, durable, current), options.segmentSize);
      after != []
      && Reopens(crc, codec, options, initial, after, cut, if cut == Total(Last(after)) then current else durable)
  {
    hide MakeDelta, Files, AllFit, Recover, RecoverState, RecoverItems, Yields, UpTo, SizeOf;
    var r := SaveRecord(codec, durable, current);
    var after := WalLog.Placed(contents, r, options.segmentSize);
    WalLog.PlacedAtEnd(crc, contents, r, options.segmentSize);
    CutInTail(contents, r, options.segmentSize, cut);
    var last := Last(after);
    var k := if cut == Total(last) then |last| else |last| - 1;
    TornAt(crc, after, cut, k, options.segmentSize);
    SavedRecovers(codec, initial, All(contents), durable, current, WalLog.Position(contents, r.Len(),
        options.segmentSize));
    TornRecordGone(contents, r, options.segmentSize);
    WholeIsSame(after);
    FilesShrink(crc, after, k);
    WholeLogRecovers(crc, codec, initial, WithLast(after, last[..k]), options.segmentSize);
  }

  // --- A whole history of saves ---

  /** What the log holds once the first `k` states were saved in turn; a save the store refuses appends nothing. */
  function Logged(codec: Codec, options: Options, initial: Persistent, states: seq<Persistent>, k: nat)
    : (contents: seq<seq<Record>>)
    requires k <= |states|
    ensures contents != []
  {
    if k == 0 then [[]]
    else
      var before := Logged(codec, options, initial, states, k - 1);
      var durable := Before(initial, states, k - 1);
      if MakeDelta(durable, states[k - 1]).Err? then before
      else WalLog.Placed(before, SaveRecord(codec, durable, states[k - 1]), options.segmentSize)
  }

  /** The log takes the record of save `i`. */
  predicate TakesSave(crc: Crc, codec: Codec, options: Options, initial: Persistent, states: seq<Persistent>, i: nat)
    requires i < |states|
  {
    var durable := Before(initial, states, i);
    MakeDelta(durable, states[i]).Ok? ==>
      Takes(crc, codec, options, Logged(codec, options, initial, states, i), durable, states[i])
  }

  /** As long as the log has room for the records, it fits its segments and recovers exactly the last saved state. */
  lemma {:induction false} LoggedRecovers(crc: Crc, codec: Codec, options: Options, initial: Persistent,
                                          states: seq<Persistent>, k: nat)
    requires codec.RoundTrips() && options.Valid() && Chain(initial, states) && k <= |states|
    requires forall i :: 0 <= i < k ==> TakesSave(crc, codec, options, initial, states, i)
    ensures var contents := Logged(codec, options, initial, states, k);
      AllFit(contents, options.segmentSize) && Recovers(codec, initial, contents) == Ok(Before(initial, states, k))
  {
    hide MakeDelta, Files, RecoverState, UpTo, SizeOf, Follows, WalLog.Placed, AllFit;
    if k == 0 {
      EmptyLog(codec, initial, options.segmentSize);
    } else {
      LoggedRecovers(crc, codec, options, initial, states, k - 1);
      var durable, current := Before(initial, states, k - 1), states[k - 1];
      assert Follows(durable, current) && TakesSave(crc, codec, options, initial, states, k - 1);
      var before := Logged(codec, options, initial, states, k - 1);
      FollowsSaves(durable, current);
      var r := SaveRecord(codec, durable, current);
      WalLog.PlacedAtEnd(crc, before, r, options.segmentSize);
      AppendedRecovers(codec, initial, before, Logged(codec, options, initial, states, k), durable, current,
                       WalLog.Position(before, r.Len(), options.segmentSize));
    }
  }

  /** Later saves do not change what earlier ones logged. */
  lemma {:induction false} LoggedPrefix(codec: Codec, options: Options, initial: Persistent, states: seq<Persistent>,
                                        next: Persistent, k: nat)
    requires k <= |states|
    ensures Logged(codec, options, initial, states + [next], k) == Logged(codec, options, initial, states, k)
  {
    hide MakeDelta, WalLog.Placed;
    if k > 0 {
      LoggedPrefix(codec, options, initial, states, next, k - 1);
    }
  }

  lemma EmptyLog(codec: Codec, initial: Persistent, segmentSize: nat)
    requires segmentSize < U64
    ensures AllFit([[]], segmentSize) && Recovers(codec, initial, [[]]) == Ok(initial)
  {
    assert All([[]]) == [];
  }

  lemma FollowsSaves(durable: Persistent, current: Persistent)
    requires Follows(durable, current)
    ensures MakeDelta(durable, current).Ok?
  {
    SnapshotsAgree(durable, current);
  }

  lemma WholeIsSame(contents: seq<seq<Record>>)
    requires contents != []
    ensures Last(contents)[..|Last(contents)|] == Last(contents) && WithLast(contents, Last(contents)) == contents
  {
  }

  /** Dropping records from the last segment leaves as many files, and no more bytes. */
  lemma FilesShrink(crc: Crc, contents: seq<seq<Record>>, k: nat)
    requires contents != [] && k <= |Last(contents)|
    ensures var kept := WithLast(contents, Last(contents)[..k]);
      |Files(crc, kept)| == |contents| && SizeOf(Files(crc, kept)) <= SizeOf(Files(crc, contents))
  {
    hide Layout;
    var rs := Last(contents);
    var front := Files(crc, contents[..|contents| - 1]);
    assert Files(crc, contents) == front + [SegmentBytes(crc, rs)];
    assert Files(crc, WithLast(contents, rs[..k])) == front + [SegmentBytes(crc, rs[..k])];
    SizeOfLast(front, SegmentBytes(crc, rs));
    SizeOfLast(front, SegmentBytes(crc, rs[..k]));
    LayoutLength(crc, rs, |rs|);
    LayoutLength(crc, rs[..k], k);
    StartGrows(rs, k, |rs|);
    assert rs[..k] + rs[k..] == rs;
    StartOfPrefix(rs[..k], rs[k..], k);
  }

  /** A crash before the save writes anything recovers the previous state. */
  lemma UntouchedReopens(crc: Crc, contents: seq<seq<Record>>, segmentSize: nat)
    requires contents != [] && AllFit(contents, segmentSize)
    ensures Recover(crc, Files(crc, contents), segmentSize) == Ok(Recovered(Files(crc, contents),
        Total(Last(contents))))
  {
    hide Recover, AllFit;
    var last, n := Last(contents), |contents|;
    TornAt(crc, contents, Total(last), |last|, segmentSize);
    WholeIsSame(contents);
    LayoutLength(crc, last, |last|);
    var files := Files(crc, contents);
    assert files[n - 1][..Total(last)] == files[n - 1];
    assert CutLast(files, Total(last)) == files;
  }

  // --- The store object ---

  class RaftStore {
    const codec: Codec
    const wal: WalLog.SegmentedLog
    const initial: Persistent
    var durable: Persistent

    /** Between operations every byte of the log is on stable storage. */
    ghost predicate Valid()
      reads this, wal
    {
      wal.Valid() && codec.RoundTrips() && wal.synced == wal.activeLen
    }

    /** Reopening would give back exactly the durable state. */
    ghost predicate Replayable()
      reads this, wal
    {
      Recovers(codec, initial, wal.contents) == Ok(durable)
    }

    constructor (codec: Codec, wal: WalLog.SegmentedLog, initial: Persistent, recovered: Persistent)
      requires wal.Valid() && wal.synced == wal.activeLen && codec.RoundTrips()
      requires Recovers(codec, initial, wal.contents) == Ok(recovered)
      ensures Valid() && Replayable() && durable == recovered && this.wal == wal && this.codec == codec
      ensures this.initial == initial
    {
      this.codec, this.wal, this.initial, durable := codec, wal, initial, recovered;
    }

    /** Appends the delta to `current` and syncs it; a refused save changes nothing. */
    method Save(current: Persistent) returns (error: Option<StoreError>)
      requires Valid()
      modifies this, wal
      ensures Valid()
      ensures current.log.snapshotIndex != old(durable).log.snapshotIndex ==> error == Some(SnapshotUnsupported)
      ensures error.Some? ==>
        durable == old(durable) && wal.contents == old(wal.contents) && wal.files == old(wal.files)
      ensures error.None? ==> durable == current
      ensures error.None? && old(Replayable()) && Follows(old(durable), current) ==> Replayable()
    {
      hide MakeDelta, Recovers, RecoverState, All, WalLog.Placed, WalLog.Refusal, WalLog.Position;
      SnapshotsAgree(durable, current);
      if current.log.snapshotIndex != durable.log.snapshotIndex {
        return Some(SnapshotUnsupported);
      }
      var delta := MakeDelta(durable, current).value;
      ghost var before := wal.contents;
      var appended := wal.Append(RAFT_STATE_KIND, codec.encode(delta));
      if appended.Err? {
        return Some(WalFailed(appended.error));
      }
      wal.Sync();
      if old(Replayable()) && Follows(durable, current) {
        AppendedRecovers(codec, initial, before, wal.contents, durable, current, appended.value);
      }
      durable := current;
      error := None;
    }
  }

  lemma SnapshotsAgree(durable: Persistent, current: Persistent)
    ensures MakeDelta(durable, current).Ok? <==> current.log.snapshotIndex == durable.log.snapshotIndex
  {
  }

  lemma AppendedRecovers(codec: Codec, initial: Persistent, before: seq<seq<Record>>, after: seq<seq<Record>>,
                         durable: Persistent, current: Persistent, lsn: Lsn)
    requires codec.RoundTrips() && Follows(durable, current) && Recovers(codec, initial, before) == Ok(durable)
    requires MakeDelta(durable, current).Ok?
    requires All(after) == All(before) + [Stored(lsn, SaveRecord(codec, durable, current))]
    ensures Recovers(codec, initial, after) == Ok(current)
  {
    SavedRecovers(codec, initial, All(before), durable, current, lsn);
  }
}
