/** The write-ahead log object: append with rotation, sync, and the record stream. */
module WalLog {
  import opened Types
  import opened WalFormat
  import opened WalSegment
  import opened Wal

  // --- Opening ---

  /** Opening a directory with these segment files. */
  function Opened(crc: Crc, options: Options, files: seq<Bytes>): Result<Recovered, WalError> {
    if options.segmentSize < HEADER_LEN || options.maxSize < HEADER_LEN then
      Err(SegmentTooSmall(Min(options.segmentSize, options.maxSize)))
    else
      match Recover(crc, files, options.segmentSize)
      case Err(e) => Err(e)
      case Ok(r) => if SizeOf(r.files) > options.maxSize then Err(WalFull(SizeOf(r.files), options.maxSize)) else Ok(r)
  }

  method TotalLength(files: seq<Bytes>) returns (total: nat)
    ensures total == SizeOf(files)
  {
    total := 0;
    for i := 0 to |files|
      invariant total == SizeOf(files[..i])
    {
      assert files[..i + 1][..i] == files[..i];
      total := total + |files[i]|;
    }
    assert files[..|files|] == files;
  }

  method Open(crc: Crc, options: Options, files: seq<Bytes>) returns (r: Result<Recovered, WalError>)
    requires options.Valid()
    ensures r == Opened(crc, options, files)
  {
    hide Recover;
    if options.segmentSize < HEADER_LEN || options.maxSize < HEADER_LEN {
      return Err(SegmentTooSmall(Min(options.segmentSize, options.maxSize)));
    }
    r := RecoverSegments(crc, files, options.segmentSize);
    if r.Ok? {
      var total := TotalLength(r.value.files);
      if total > options.maxSize {
        r := Err(WalFull(total, options.maxSize));
      }
    }
  }

  // --- Appending ---

  /** The active segment is in use and has no room for `len` more bytes. */
  predicate Crowded(contents: seq<seq<Record>>, len: nat, segmentSize: nat)
    requires contents != []
  {
    Total(Last(contents)) != 0 && Total(Last(contents)) + len > segmentSize
  }

  /** Where an append puts its record: a fresh segment when the active one is crowded. */
  function Placed(contents: seq<seq<Record>>, r: Record, segmentSize: nat): seq<seq<Record>>
    requires contents != []
  {
    if Crowded(contents, r.Len(), segmentSize) then contents + [[r]] else WithLast(contents, Last(contents) + [r])
  }

  /** The position it gets. */
  function Position(contents: seq<seq<Record>>, len: nat, segmentSize: nat): Lsn
    requires contents != []
  {
    if Crowded(contents, len, segmentSize) then Lsn(|contents|, 0) else Lsn(|contents| - 1, Total(Last(contents)))
  }

  /** Why no segment can take the record. */
  function Unplaceable(options: Options, contents: seq<seq<Record>>, len: nat): Option<WalError>
    requires contents != []
  {
    var size := options.segmentSize;
    if len > size then Some(TooLarge(len, size))
    else if Total(Last(contents)) + len >= U64 then Some(TooLarge(U64 - 1, size))
    else if Crowded(contents, len, size) && |contents| >= U64 then Some(SegmentIdExhausted)
    else None
  }

  /** Why an append is refused, if it is. */
  function Refusal(options: Options, contents: seq<seq<Record>>, total: nat, r: Record): Option<WalError>
    requires contents != []
  {
    if |r.payload| >= U32 then Some(PayloadTooLarge(|r.payload|))
    else if total + r.Len() >= U64 then Some(TooLarge(U64 - 1, U64 - 1))
    else if total + r.Len() > options.maxSize then Some(WalFull(total + r.Len(), options.maxSize))
    else Unplaceable(options, contents, r.Len())
  }

  /** An append is taken exactly when the payload has a 32-bit length, the record fits a segment and the log its limit,
      and a segment id is left if it needs one. */
  lemma AppendTakenExactly(options: Options, contents: seq<seq<Record>>, total: nat, r: Record)
    requires options.Valid() && contents != [] && AllFit(contents, options.segmentSize)
    ensures var last := Total(Last(contents));
      Refusal(options, contents, total, r).None? <==>
        && |r.payload| < U32 && total + r.Len() <= options.maxSize && r.Len() <= options.segmentSize
        && last + r.Len() < U64
        && (last == 0 || last + r.Len() <= options.segmentSize || |contents| < U64)
  {
    hide Start;
  }

  /** A segment is added exactly when the active one is in use and has no room. */
  lemma RotatesExactly(contents: seq<seq<Record>>, r: Record, segmentSize: nat)
    requires contents != []
    ensures |Placed(contents, r, segmentSize)| > |contents| <==>
      Last(contents) != [] && Total(Last(contents)) + r.Len() > segmentSize
  {
    EmptyTotal(Last(contents));
  }

  /** What recovers opens exactly within the limits. */
  lemma OpensWithinLimits(crc: Crc, options: Options, files: seq<Bytes>)
    requires Recover(crc, files, options.segmentSize).Ok?
    ensures Opened(crc, options, files).Ok? <==>
      && options.segmentSize >= HEADER_LEN && options.maxSize >= HEADER_LEN
      && SizeOf(Recover(crc, files, options.segmentSize).value.files) <= options.maxSize
  {
    hide Recover;
  }

  lemma EmptyTotal(rs: seq<Record>)
    ensures Total(rs) == 0 <==> rs == []
  {
    StartGrows(rs, 0, |rs|);
  }

  /** The record lands at the end of the log, and the segments still fit. */
  lemma PlacedAtEnd(crc: Crc, contents: seq<seq<Record>>, r: Record, segmentSize: nat)
    requires contents != [] && AllFit(contents, segmentSize) && r.Valid() && r.Len() <= segmentSize
    ensures var after := Placed(contents, r, segmentSize);
      && after != [] && AllFit(after, segmentSize)
      && All(after) == All(contents) + [Stored(Position(contents, r.Len(), segmentSize), r)]
      && SizeOf(Files(crc, after)) == SizeOf(Files(crc, contents)) + r.Len()
  {
    hide Start, SizeOf, UpTo, AllFit, Files;
    EmptyTotal(Last(contents));
    if Crowded(contents, r.Len(), segmentSize) {
      PlacedInNew(crc, contents, r, segmentSize);
    } else {
      PlacedInLast(crc, contents, r, segmentSize);
    }
  }

  lemma PlacedInNew(crc: Crc, contents: seq<seq<Record>>, r: Record, segmentSize: nat)
    requires contents != [] && AllFit(contents, segmentSize) && r.Valid() && r.Len() <= segmentSize
    ensures AllFit(contents + [[r]], segmentSize) && Total([r]) == r.Len()
    ensures All(contents + [[r]]) == All(contents) + [Stored(Lsn(|contents|, 0), r)]
    ensures SizeOf(Files(crc, contents + [[r]])) == SizeOf(Files(crc, contents)) + r.Len()
  {
    hide Encode;
    AllRotate(contents);
    AllAppend(contents + [[]], r);
    assert (contents + [[]])[..|contents|] == contents && [] + [r] == [r];
    assert Start([r], 1) == Start([r], 0) + r.Len();
    LayoutLength(crc, [r], 1);
    assert Files(crc, contents + [[r]]) == Files(crc, contents) + [SegmentBytes(crc, [r])];
    SizeOfLast(Files(crc, contents), SegmentBytes(crc, [r]));
  }

  lemma PlacedInLast(crc: Crc, contents: seq<seq<Record>>, r: Record, segmentSize: nat)
    requires contents != [] && AllFit(contents, segmentSize) && r.Valid() && r.Len() <= segmentSize
    requires Last(contents) == [] || Total(Last(contents)) + r.Len() <= segmentSize
    ensures var after := WithLast(contents, Last(contents) + [r]);
      && AllFit(after, segmentSize) && Total(Last(after)) == Total(Last(contents)) + r.Len()
      && All(after) == All(contents) + [Stored(Lsn(|contents| - 1, Total(Last(contents))), r)]
      && SizeOf(Files(crc, after)) == SizeOf(Files(crc, contents)) + r.Len()
  {
    hide Encode, Layout, SizeOf, UpTo;
    AllAppend(contents, r);
    LayoutAppend(crc, Last(contents), r);
    EmptyTotal(Last(contents));
    LastGrows(crc, contents, r);
  }

  /** Appending writes the record's bytes at the end of the active file and nowhere else. */
  lemma LastGrows(crc: Crc, contents: seq<seq<Record>>, r: Record)
    requires contents != []
    ensures var n, after := |contents|, WithLast(contents, Last(contents) + [r]);
      && Files(crc, after) == Files(crc, contents)[n - 1 := Files(crc, contents)[n - 1] + Encode(crc, r)]
      && SizeOf(Files(crc, after)) == SizeOf(Files(crc, contents)) + r.Len()
  {
    hide Layout;
    var rs := Last(contents);
    var after := WithLast(contents, rs + [r]);
    LayoutAppend(crc, rs, r);
    var front := Files(crc, contents[..|contents| - 1]);
    assert Files(crc, contents) == front + [SegmentBytes(crc, rs)];
    assert Files(crc, after) == front + [SegmentBytes(crc, rs + [r])];
    SizeOfLast(front, SegmentBytes(crc, rs));
    SizeOfLast(front, SegmentBytes(crc, rs + [r]));
  }

  /** A new segment starts empty. */
  lemma Rotated(crc: Crc, contents: seq<seq<Record>>)
    ensures Files(crc, contents + [[]]) == Files(crc, contents) + [[]]
    ensures SizeOf(Files(crc, contents) + [[]]) == SizeOf(Files(crc, contents))
    ensures Total(Last(contents + [[]])) == 0
    ensures forall size: nat :: size < U64 ==> Fits([], size)
  {
    hide Start;
    assert Files(crc, contents + [[]]) == Files(crc, contents) + [SegmentBytes(crc, [])];
    SizeOfLast(Files(crc, contents), []);
    EmptyTotal([]);
  }

  lemma NewIsEmpty(contents: seq<seq<Record>>, r: Record)
    ensures Last(contents + [[]]) == [] && Total([]) == 0 && [] + [r] == [r]
    ensures WithLast(contents + [[]], [r]) == contents + [[r]]
  {
  }

  lemma StillFits(contents: seq<seq<Record>>, r: Record, segmentSize: nat)
    requires contents != [] && AllFit(contents, segmentSize) && r.Valid()
    requires Total(Last(contents)) + r.Len() <= segmentSize
    ensures AllFit(WithLast(contents, Last(contents) + [r]), segmentSize)
    ensures Total(Last(contents) + [r]) == Total(Last(contents)) + r.Len()
  {
    StartOfPrefix(Last(contents), [r], |Last(contents)|);
  }

  class SegmentedLog {
    const crc: Crc
    const options: Options
    var files: seq<Bytes>
    var activeLen: nat
    var totalLen: nat
    ghost var contents: seq<seq<Record>>   // what the files encode
    ghost var synced: nat                  // how much of the active segment is on stable storage

    ghost predicate Valid()
      reads this
    {
      && options.Valid() && contents != [] && AllFit(contents, options.segmentSize)
      && files == Files(crc, contents) && |files| <= U64
      && activeLen == Total(Last(contents)) && totalLen == SizeOf(files) && synced <= activeLen
    }

    constructor (crc: Crc, options: Options, r: Recovered, ghost contents: seq<seq<Record>>)
      requires options.Valid() && contents != [] && AllFit(contents, options.segmentSize) && |contents| <= U64
      requires r.files == Files(crc, contents) && r.activeLen == Total(Last(contents))
      ensures Valid() && this.crc == crc && this.options == options && this.contents == contents && synced == activeLen
    {
      this.crc, this.options, files, activeLen, this.contents, synced := crc, options, r.files, r.activeLen,
          contents, r.activeLen;
      new;
      totalLen := TotalLength(files);
    }

    /** Makes room: syncs the active segment and starts a new one when the record does not fit behind it. */
    method RotateIfNeeded(len: nat) returns (error: Option<WalError>)
      requires Valid()
      modifies `files, `activeLen, `contents, `synced
      ensures Valid()
      ensures error == Unplaceable(options, old(contents), len)
      ensures error.None? && Crowded(old(contents), len, options.segmentSize) ==>
        contents == old(contents) + [[]]
      ensures error.Some? || !Crowded(old(contents), len, options.segmentSize) ==>
        contents == old(contents) && files == old(files)
      ensures synced == (if error.None? && Crowded(old(contents), len, options.segmentSize) then 0
                         else if error == Some(SegmentIdExhausted) then activeLen else old(synced))
    {
      hide SizeOf, SegmentBytes, Start;
      if len > options.segmentSize {
        return Some(TooLarge(len, options.segmentSize));
      }
      if activeLen + len >= U64 {
        return Some(TooLarge(U64 - 1, options.segmentSize));
      }
      if activeLen != 0 && activeLen + len > options.segmentSize {
        Sync();
        if |files| >= U64 {
          return Some(SegmentIdExhausted);
        }
        Rotated(crc, contents);
        files, activeLen := files + [[]], 0;
        contents, synced := contents + [[]], 0;
      }
      error := None;
    }

    /** Writes the record behind the active segment. */
    method Write(r: Record) returns (lsn: Lsn)
      requires Valid() && r.Valid() && activeLen + r.Len() <= options.segmentSize
      modifies `files, `activeLen, `totalLen, `contents
      ensures Valid() && contents == WithLast(old(contents), Last(old(contents)) + [r])
      ensures lsn == Lsn(|old(contents)| - 1, Total(Last(old(contents))))
    {
      hide SizeOf, SegmentBytes, Encode, Start, LittleEndian;
      lsn := Lsn(|files| - 1, activeLen);
      var encoded := EncodeRecord(crc, r.kind, r.payload);
      LastGrows(crc, contents, r);
      StillFits(contents, r, options.segmentSize);
      files := files[|files| - 1 := files[|files| - 1] + encoded.value];
      activeLen, totalLen := activeLen + r.Len(), totalLen + r.Len();
      contents := WithLast(contents, Last(contents) + [r]);
    }

    /** Appends a record and returns its position; a refused append changes no byte. */
    method Append(kind: nat, payload: Bytes) returns (result: Result<Lsn, WalError>)
      requires Valid() && 1 <= kind < 0x1_0000
      modifies this
      ensures Valid()
      ensures var r := Record(kind, payload);
        match Refusal(options, old(contents), old(totalLen), r)
        case Some(e) =>
          && result == Err(e) && contents == old(contents) && files == old(files)
          && synced == (if e == SegmentIdExhausted then activeLen else old(synced))
        case None =>
          && contents == Placed(old(contents), r, options.segmentSize)
          && result == Ok(Position(old(contents), r.Len(), options.segmentSize))
          && All(contents) == All(old(contents)) + [Stored(result.value, r)]
          && synced == (if options.syncOnAppend then activeLen
                        else if |contents| > |old(contents)| then 0 else old(synced))
    {
      hide SizeOf, AllFit, SegmentBytes, UpTo, Start;
      var r := Record(kind, payload);
      if |payload| >= U32 {
        return Err(PayloadTooLarge(|payload|));
      }
      var nextTotal := totalLen + r.Len();
      if nextTotal >= U64 {
        return Err(TooLarge(U64 - 1, U64 - 1));
      }
      if nextTotal > options.maxSize {
        return Err(WalFull(nextTotal, options.maxSize));
      }
      var error := RotateIfNeeded(r.Len());
      if error.Some? {
        return Err(error.value);
      }
      PlacedAtEnd(crc, old(contents), r, options.segmentSize);
      NewIsEmpty(old(contents), r);
      var lsn := Write(r);
      if options.syncOnAppend {
        Sync();
      }
      result := Ok(lsn);
    }

    /** Forces the active segment to stable storage. */
    method Sync()
      requires synced <= activeLen
      modifies `synced
      ensures synced == activeLen
    {
      synced := activeLen;
    }
  }
}
