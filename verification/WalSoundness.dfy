/** Opening a log over arbitrary bytes: what recovery lets through is checked, record by record. */
module WalSoundness {
  import opened Types
  import RaftLog
  import opened RaftCore
  import opened Store
  import opened WalFormat
  import opened WalSegment
  import opened Wal
  import opened WalStream
  import WalLog
  import opened DurableStore

  /** Records laid end to end from the start of the file, each with its checksums right, fill it up to `end`. */
  ghost predicate Tiles(crc: Crc, file: Bytes, rs: seq<Record>, end: nat, segmentSize: nat) {
    && Total(rs) == end <= |file|
    && forall j :: 0 <= j < |rs| ==> TileAt(crc, file, rs, j, segmentSize)
  }

  ghost predicate TileAt(crc: Crc, file: Bytes, rs: seq<Record>, j: nat, segmentSize: nat)
    requires j < |rs|
  {
    Checked(crc, file, Start(rs, j), rs[j]) && Start(rs, j + 1) <= segmentSize && Start(rs, j + 1) < U64
  }

  lemma OneMoreTile(crc: Crc, file: Bytes, rs: seq<Record>, end: nat, r: Record, segmentSize: nat)
    requires Tiles(crc, file, rs, end, segmentSize) && Checked(crc, file, end, r)
    requires end + r.Len() <= segmentSize && end + r.Len() < U64
    ensures Tiles(crc, file, rs + [r], end + r.Len(), segmentSize)
  {
    hide Field;
    var longer := rs + [r];
    StartOfPrefix(rs, [r], |rs|);
    forall j | 0 <= j < |longer| ensures TileAt(crc, file, longer, j, segmentSize) {
      StartOfPrefix(rs, [r], j);
      if j < |rs| {
        assert TileAt(crc, file, rs, j, segmentSize);
        StartOfPrefix(rs, [r], j + 1);
      }
    }
  }

  /** A scan that is not stopped by damage has walked over checked records only, and stopped at the end of one. */
  lemma {:induction false} ScanTiles(crc: Crc, file: Bytes, rs: seq<Record>, offset: nat, segmentSize: nat)
    returns (all: seq<Record>)
    requires Tiles(crc, file, rs, offset, segmentSize)
    ensures match ScanFrom(crc, file, offset, segmentSize)
      case Clean(end) => end == |file| && Tiles(crc, file, all, end, segmentSize)
      case Torn(end) => Tiles(crc, file, all, end, segmentSize) && Read(crc, file, end, segmentSize) == Incomplete
      case Bad(at, reason) =>
        Tiles(crc, file, all, at, segmentSize) && Read(crc, file, at, segmentSize) == Corrupt(reason)
    decreases |file| - offset
  {
    hide Read, Tiles, Checked;
    TilesWithin(crc, file, rs, offset, segmentSize);
    IncompleteExactly(crc, file, offset, segmentSize);
    all := rs;
    match Read(crc, file, offset, segmentSize)
    case Found(record, next) =>
      FoundIsChecked(crc, file, offset, segmentSize);
      OneMoreTile(crc, file, rs, offset, record, segmentSize);
      all := ScanTiles(crc, file, rs + [record], next, segmentSize);
    case _ =>
  }

  lemma TilesWithin(crc: Crc, file: Bytes, rs: seq<Record>, end: nat, segmentSize: nat)
    requires Tiles(crc, file, rs, end, segmentSize)
    ensures end <= |file|
  {
  }

  lemma CheckedInPrefix(crc: Crc, file: Bytes, offset: nat, r: Record, end: nat)
    requires Checked(crc, file, offset, r) && offset + r.Len() <= end <= |file|
    ensures Checked(crc, file[..end], offset, r)
  {
    hide Field;
    assert file[..end][offset..offset + HEADER_LEN] == file[offset..offset + HEADER_LEN];
    assert file[..end][offset + HEADER_LEN..offset + r.Len()] == file[offset + HEADER_LEN..offset + r.Len()];
  }

  /** Cut back to where its tiles end, a file reads as exactly these records. */
  lemma TilesRead(crc: Crc, file: Bytes, rs: seq<Record>, end: nat, segmentSize: nat)
    requires Tiles(crc, file, rs, end, segmentSize)
    ensures ReadsAs(crc, file[..end], rs, segmentSize)
  {
    hide Read, Checked;
    forall j | 0 <= j <= |rs| ensures ReadsAt(crc, file[..end], rs, j, segmentSize) {
      StartGrows(rs, j, |rs|);
      if j < |rs| {
        assert TileAt(crc, file, rs, j, segmentSize);
        StartGrows(rs, j + 1, |rs|);
        CheckedInPrefix(crc, file, Start(rs, j), rs[j], end);
        ReadExactly(crc, file[..end], Start(rs, j), rs[j], segmentSize);
      } else {
        IncompleteExactly(crc, file[..end], end, segmentSize);
      }
    }
  }

  /** What recovery leaves of a segment: all of it, or, of the last one only, all but a record cut short. */
  ghost predicate Kept(crc: Crc, file: Bytes, after: Bytes, rs: seq<Record>, last: bool, segmentSize: nat) {
    && Tiles(crc, after, rs, |after|, segmentSize) && ReadsAs(crc, after, rs, segmentSize) && after <= file
    && (after != file ==> last && Read(crc, file, |after|, segmentSize) == Incomplete)
  }

  lemma WholeKept(crc: Crc, file: Bytes, rs: seq<Record>, segmentSize: nat)
    requires Tiles(crc, file, rs, |file|, segmentSize)
    ensures forall last :: Kept(crc, file, file, rs, last, segmentSize)
  {
    TilesRead(crc, file, rs, |file|, segmentSize);
    assert file[..|file|] == file;
  }

  lemma CutKept(crc: Crc, file: Bytes, rs: seq<Record>, end: nat, segmentSize: nat)
    requires Tiles(crc, file, rs, end, segmentSize) && Read(crc, file, end, segmentSize) == Incomplete
    ensures Kept(crc, file, file[..end], rs, true, segmentSize)
  {
    hide Read, Checked;
    TilesRead(crc, file, rs, end, segmentSize);
    forall j | 0 <= j < |rs| ensures TileAt(crc, file[..end], rs, j, segmentSize) {
      assert TileAt(crc, file, rs, j, segmentSize);
      StartGrows(rs, j + 1, |rs|);
      CheckedInPrefix(crc, file, Start(rs, j), rs[j], end);
    }
  }

  /** Segments `i` and up, as recovery leaves them. */
  ghost predicate KeptFrom(crc: Crc, files: seq<Bytes>, i: nat, after: seq<Bytes>, contents: seq<seq<Record>>,
                           segmentSize: nat)
  {
    && |after| == |files| == i + |contents| && (forall j :: 0 <= j < i ==> after[j] == files[j])
    && forall j :: i <= j < |files| ==>
         Kept(crc, files[j], after[j], contents[j - i], j + 1 == |files|, segmentSize)
  }

  lemma {:induction false} RecoverKeeps(crc: Crc, files: seq<Bytes>, i: nat, segmentSize: nat)
    returns (contents: seq<seq<Record>>)
    requires i < |files| && RecoverFrom(crc, files, i, segmentSize).Ok?
    ensures var r := RecoverFrom(crc, files, i, segmentSize).value;
      KeptFrom(crc, files, i, r.files, contents, segmentSize) && r.activeLen == |r.files[|files| - 1]|
    decreases |files| - i
  {
    hide ScanFrom, Read, Tiles, Kept;
    NoTiles(crc, files[i], segmentSize);
    var rs := ScanTiles(crc, files[i], [], 0, segmentSize);
    match ScanFrom(crc, files[i], 0, segmentSize)
    case Clean(end) =>
      WholeKept(crc, files[i], rs, segmentSize);
      if i + 1 == |files| {
        contents := [rs];
      } else {
        var rest := RecoverKeeps(crc, files, i + 1, segmentSize);
        contents := [rs] + rest;
        JoinKept(crc, files, i, RecoverFrom(crc, files, i, segmentSize).value.files, rs, rest, segmentSize);
      }
    case Torn(end) =>
      TilesWithin(crc, files[i], rs, end, segmentSize);
      CutKept(crc, files[i], rs, end, segmentSize);
      contents := [rs];
    case Bad(_, _) =>
  }

  lemma NoTiles(crc: Crc, file: Bytes, segmentSize: nat)
    ensures Tiles(crc, file, [], 0, segmentSize)
  {
  }

  lemma JoinKept(crc: Crc, files: seq<Bytes>, i: nat, after: seq<Bytes>, rs: seq<Record>, rest: seq<seq<Record>>,
                 segmentSize: nat)
    requires i + 1 < |files| && KeptFrom(crc, files, i + 1, after, rest, segmentSize)
    requires forall last :: Kept(crc, files[i], files[i], rs, last, segmentSize)
    ensures KeptFrom(crc, files, i, after, [rs] + rest, segmentSize)
  {
    hide Kept;
    forall j | i <= j < |files|
      ensures Kept(crc, files[j], after[j], ([rs] + rest)[j - i], j + 1 == |files|, segmentSize)
    {
      if j > i {
        assert ([rs] + rest)[j - i] == rest[j - (i + 1)];
      }
    }
  }

  /** Opening any files at all: if it succeeds, every segment consists of checked records from its first byte to its
      last, nothing was changed but a record cut short at the very end, and the stream over what is left yields exactly
      those records, with no failure. */
  lemma OpenedIsChecked(crc: Crc, options: Options, files: seq<Bytes>) returns (contents: seq<seq<Record>>)
    requires WalLog.Opened(crc, options, files).Ok?
    ensures var after := WalLog.Opened(crc, options, files).value.files;
      && (if files == [] then after == [[]] && contents == [[]]
          else KeptFrom(crc, files, 0, after, contents, options.segmentSize))
      && Yields(crc, after, 0, 0, options.segmentSize) == Items(All(contents))
  {
    hide RecoverFrom, Kept, Yields, SizeOf;
    if files == [] {
      contents := [[]];
      EmptySegment(crc, options.segmentSize);
    } else {
      contents := RecoverKeeps(crc, files, 0, options.segmentSize);
      KeptRead(crc, files, WalLog.Opened(crc, options, files).value.files, contents, options.segmentSize);
    }
    ReadStream(crc, WalLog.Opened(crc, options, files).value.files, contents, options.segmentSize);
  }

  lemma EmptySegment(crc: Crc, segmentSize: nat)
    ensures AllRead(crc, [[]], [[]], segmentSize)
  {
    assert Start([], 0) == 0;
    assert ReadsAs(crc, [], [], segmentSize);
  }

  lemma KeptRead(crc: Crc, files: seq<Bytes>, after: seq<Bytes>, contents: seq<seq<Record>>, segmentSize: nat)
    requires KeptFrom(crc, files, 0, after, contents, segmentSize)
    ensures AllRead(crc, after, contents, segmentSize)
  {
    hide ReadsAs, Tiles, Read;
    forall i | 0 <= i < |after| ensures ReadsAs(crc, after[i], contents[i], segmentSize) {
      assert Kept(crc, files[i], after[i], contents[i - 0], i + 1 == |files|, segmentSize);
    }
  }

  /** Once a log has opened, replaying it meets no damaged record: what fails, if anything, is a record's meaning. */
  lemma ReplayMeetsNoDamage(crc: Crc, codec: Codec, initial: Persistent, options: Options, files: seq<Bytes>)
    requires WalLog.Opened(crc, options, files).Ok?
    ensures var items := Yields(crc, WalLog.Opened(crc, options, files).value.files, 0, 0, options.segmentSize);
      var replayed := RecoverItems(codec, initial, items, |items|);
      replayed.Err? ==> !replayed.error.WalFailed?
  {
    hide WalLog.Opened, Yields, RecoverItems, RecoverState;
    var contents := OpenedIsChecked(crc, options, files);
    ItemsRecover(codec, initial, All(contents), |All(contents)|);
    NoLogError(codec, initial, All(contents), |All(contents)|);
  }

  lemma {:induction false} NoLogError(codec: Codec, initial: Persistent, records: seq<Stored>, k: nat)
    requires k <= |records|
    ensures RecoverState(codec, initial, records, k).Err? ==>
      !RecoverState(codec, initial, records, k).error.WalFailed?
  {
    if k > 0 {
      NoLogError(codec, initial, records, k - 1);
      match RecoverState(codec, initial, records, k - 1)
      case Ok(state) => RecordErrors(codec, state, records[k - 1].record);
      case Err(_) =>
    }
  }

  lemma RecordErrors(codec: Codec, state: Persistent, record: Record)
    ensures ApplyRecord(codec, state, record).Err? ==> !ApplyRecord(codec, state, record).error.WalFailed?
  {
    match codec.decode(record.payload)
    case Some(delta) => DeltaErrors(state.log.TruncateAfter(delta.truncateAfter), delta.entries, |delta.entries|);
    case None =>
  }

  lemma {:induction false} DeltaErrors(log: RaftLog.Log, entries: seq<RaftLog.Entry>, k: nat)
    requires k <= |entries|
    ensures AppendAll(log, entries, k).Err? ==> !AppendAll(log, entries, k).error.WalFailed?
  {
    if k > 0 {
      DeltaErrors(log, entries, k - 1);
    }
  }
}
