/**
 The segmented write-ahead log: appends rotate to a new segment when the active one is full, recovery
 truncates a torn tail, and records stream back in order at the positions their appends returned.
 */
module Wal {
  import opened Types
  import opened WalFormat
  import opened WalSegment

  datatype Lsn = Lsn(segment: nat, offset: nat)

  datatype Stored = Stored(lsn: Lsn, record: Record)

  datatype Options = Options(segmentSize: nat, maxSize: nat, syncOnAppend: bool)
  {
    /** Both sizes are 64-bit. */
    predicate Valid() { segmentSize < U64 && maxSize < U64 }
  }

  datatype WalError =
    | SegmentTooSmall(segmentSize: nat)
    | PayloadTooLarge(len: nat)
    | TooLarge(len: nat, segmentSize: nat)
    | WalFull(len: nat, maxSize: nat)
    | SegmentIdExhausted
    | CorruptRecord(lsn: Lsn, reason: Corruption)

  // --- What a log holds ---

  /** The first `k` records of one segment, with their positions. */
  function InSegment(id: nat, rs: seq<Record>, k: nat): seq<Stored>
    requires k <= |rs|
  {
    if k == 0 then [] else InSegment(id, rs, k - 1) + [Stored(Lsn(id, Start(rs, k - 1)), rs[k - 1])]
  }

  /** Everything in the first `k` segments, in order. */
  function UpTo(contents: seq<seq<Record>>, k: nat): seq<Stored>
    requires k <= |contents|
  {
    if k == 0 then [] else UpTo(contents, k - 1) + InSegment(k - 1, contents[k - 1], |contents[k - 1]|)
  }

  function All(contents: seq<seq<Record>>): seq<Stored> { UpTo(contents, |contents|) }

  lemma {:induction false} InSegmentAt(id: nat, rs: seq<Record>, k: nat, j: nat)
    requires j < k <= |rs|
    ensures |InSegment(id, rs, k)| == k && InSegment(id, rs, k)[j] == Stored(Lsn(id, Start(rs, j)), rs[j])
  {
    InSegmentLength(id, rs, k - 1);
    if j < k - 1 {
      InSegmentAt(id, rs, k - 1, j);
    }
  }

  lemma {:induction false} InSegmentLength(id: nat, rs: seq<Record>, k: nat)
    requires k <= |rs|
    ensures |InSegment(id, rs, k)| == k
  {
    if k > 0 {
      InSegmentLength(id, rs, k - 1);
    }
  }

  lemma {:induction false} InSegmentOfPrefix(id: nat, rs: seq<Record>, more: seq<Record>, k: nat)
    requires k <= |rs|
    ensures InSegment(id, rs + more, k) == InSegment(id, rs, k)
  {
    if k > 0 {
      InSegmentOfPrefix(id, rs, more, k - 1);
      StartOfPrefix(rs, more, k - 1);
    }
  }

  lemma {:induction false} StartOfPrefix(rs: seq<Record>, more: seq<Record>, k: nat)
    requires k <= |rs|
    ensures Start(rs + more, k) == Start(rs, k)
  {
    if k > 0 {
      StartOfPrefix(rs, more, k - 1);
    }
  }

  /** Later segments do not change earlier ones. */
  lemma {:induction false} UpToSame(a: seq<seq<Record>>, b: seq<seq<Record>>, k: nat)
    requires k <= |a| && k <= |b| && a[..k] == b[..k]
    ensures UpTo(a, k) == UpTo(b, k)
  {
    if k > 0 {
      assert a[..k - 1] == a[..k][..k - 1] && b[..k - 1] == b[..k][..k - 1];
      assert a[..k][k - 1] == b[..k][k - 1];
      UpToSame(a, b, k - 1);
    }
  }

  function Last(contents: seq<seq<Record>>): seq<Record>
    requires contents != []
  {
    contents[|contents| - 1]
  }

  function WithLast(contents: seq<seq<Record>>, rs: seq<Record>): seq<seq<Record>>
    requires contents != []
  {
    contents[..|contents| - 1] + [rs]
  }

  /** An append adds one record at the end. */
  lemma AllAppend(contents: seq<seq<Record>>, r: Record)
    requires contents != []
    ensures var rs := Last(contents);
      All(WithLast(contents, rs + [r])) == All(contents) + [Stored(Lsn(|contents| - 1, Total(rs)), r)]
  {
    var rs, id := Last(contents), |contents| - 1;
    UpToSame(contents, WithLast(contents, rs + [r]), id);
    InSegmentOfPrefix(id, rs, [r], |rs|);
    StartOfPrefix(rs, [r], |rs|);
    assert (rs + [r])[|rs|] == r;
  }

  /** A rotation adds nothing. */
  lemma AllRotate(contents: seq<seq<Record>>)
    ensures All(contents + [[]]) == All(contents)
  {
    UpToSame(contents, contents + [[]], |contents|);
  }

  /** Cutting the last segment keeps a prefix of the records. */
  lemma AllCut(contents: seq<seq<Record>>, k: nat)
    requires contents != [] && k <= |Last(contents)|
    ensures All(WithLast(contents, Last(contents)[..k])) <= All(contents)
    ensures |All(WithLast(contents, Last(contents)[..k]))| == |All(contents)| - (|Last(contents)| - k)
  {
    var rs, id := Last(contents), |contents| - 1;
    UpToSame(contents, WithLast(contents, rs[..k]), id);
    assert rs[..k] + rs[k..] == rs;
    InSegmentOfPrefix(id, rs[..k], rs[k..], k);
    InSegmentPrefix(id, rs, k, |rs|);
    InSegmentLength(id, rs, |rs|);
    InSegmentLength(id, rs, k);
  }

  lemma {:induction false} InSegmentPrefix(id: nat, rs: seq<Record>, j: nat, k: nat)
    requires j <= k <= |rs|
    ensures InSegment(id, rs, j) <= InSegment(id, rs, k)
    decreases k - j
  {
    if j < k {
      InSegmentPrefix(id, rs, j, k - 1);
    }
  }

  // --- Files ---

  function Files(crc: Crc, contents: seq<seq<Record>>): seq<Bytes> {
    seq(|contents|, i requires 0 <= i < |contents| => SegmentBytes(crc, contents[i]))
  }

  function SizeOf(files: seq<Bytes>): nat {
    if files == [] then 0 else SizeOf(files[..|files| - 1]) + |files[|files| - 1]|
  }

  predicate AllFit(contents: seq<seq<Record>>, segmentSize: nat) {
    forall i :: 0 <= i < |contents| ==> Fits(contents[i], segmentSize)
  }

  lemma SizeOfLast(files: seq<Bytes>, last: Bytes)
    ensures SizeOf(files + [last]) == SizeOf(files) + |last|
  {
    assert (files + [last])[..|files|] == files;
  }

  // --- Recovery ---

  datatype Recovered = Recovered(files: seq<Bytes>, activeLen: nat)

  /** Every segment but the last must be clean; a torn last segment is cut back to its last whole record. */
  function RecoverFrom(crc: Crc, files: seq<Bytes>, i: nat, segmentSize: nat): Result<Recovered, WalError>
    requires i < |files|
    decreases |files| - i
  {
    var last := i + 1 == |files|;
    match ScanFrom(crc, files[i], 0, segmentSize)
    case Bad(at, reason) => Err(CorruptRecord(Lsn(i, at), reason))
    case Clean(end) => if last then Ok(Recovered(files, end)) else RecoverFrom(crc, files, i + 1, segmentSize)
    case Torn(end) =>
      if !last then Err(CorruptRecord(Lsn(i, end), IncompleteRecord))
      else if end <= |files[i]| then Ok(Recovered(files[i := files[i][..end]], end))
      else Ok(Recovered(files, end))
  }

  function Recover(crc: Crc, files: seq<Bytes>, segmentSize: nat): Result<Recovered, WalError> {
    if files == [] then Ok(Recovered([[]], 0)) else RecoverFrom(crc, files, 0, segmentSize)
  }

  method RecoverSegments(crc: Crc, files: seq<Bytes>, segmentSize: nat) returns (r: Result<Recovered, WalError>)
    ensures r == Recover(crc, files, segmentSize)
  {
    hide ScanFrom;
    if files == [] {
      return Ok(Recovered([[]], 0));
    }
    var i := 0;
    while true
      invariant i < |files| && RecoverFrom(crc, files, i, segmentSize) == Recover(crc, files, segmentSize)
      decreases |files| - i
    {
      var scan := ValidLength(crc, files[i], segmentSize);
      match scan {
        case Bad(at, reason) => return Err(CorruptRecord(Lsn(i, at), reason));
        case Clean(end) =>
          if i + 1 == |files| {
            return Ok(Recovered(files, end));
          }
        case Torn(end) =>
          if i + 1 != |files| {
            return Err(CorruptRecord(Lsn(i, end), IncompleteRecord));
          }
          return Ok(Recovered(if end <= |files[i]| then files[i := files[i][..end]] else files, end));
      }
      i := i + 1;
    }
  }

  /** The log as a crash leaves it: the last segment cut at some byte. */
  function CutLast(files: seq<Bytes>, cut: nat): seq<Bytes>
    requires files != [] && cut <= |files[|files| - 1]|
  {
    files[..|files| - 1] + [files[|files| - 1][..cut]]
  }

  lemma {:induction false} CleanSegmentsPass(crc: Crc, contents: seq<seq<Record>>, files: seq<Bytes>, i: nat,
                                             segmentSize: nat)
    requires AllFit(contents, segmentSize) && |files| == |contents| && i < |files|
    requires forall j :: 0 <= j < |files| - 1 ==> files[j] == SegmentBytes(crc, contents[j])
    ensures RecoverFrom(crc, files, i, segmentSize) == RecoverFrom(crc, files, |files| - 1, segmentSize)
    decreases |files| - i
  {
    hide ScanFrom, SegmentBytes, Fits;
    if i < |files| - 1 {
      WholeScan(crc, contents[i], segmentSize);
      CleanSegmentsPass(crc, contents, files, i + 1, segmentSize);
    }
  }

  lemma WholeScan(crc: Crc, rs: seq<Record>, segmentSize: nat)
    requires Fits(rs, segmentSize)
    ensures ScanFrom(crc, SegmentBytes(crc, rs), 0, segmentSize) == Clean(Total(rs))
  {
    hide ScanFrom, Layout, Fits;
    LayoutLength(crc, rs, |rs|);
    assert SegmentBytes(crc, rs)[..Total(rs)] == SegmentBytes(crc, rs);
    TornScan(crc, rs, Total(rs), |rs|, 0, segmentSize);
  }

  lemma TornAt(crc: Crc, contents: seq<seq<Record>>, cut: nat, k: nat, segmentSize: nat)
    requires contents != [] && AllFit(contents, segmentSize)
    requires cut <= Total(Last(contents)) && WhollyBefore(Last(contents), cut, k)
    ensures cut <= |Files(crc, contents)[|contents| - 1]|
    ensures Recover(crc, CutLast(Files(crc, contents), cut), segmentSize)
      == Ok(Recovered(Files(crc, WithLast(contents, Last(contents)[..k])), Start(Last(contents), k)))
    ensures All(WithLast(contents, Last(contents)[..k])) <= All(contents)
    ensures AllFit(WithLast(contents, Last(contents)[..k]), segmentSize)
  {
    var rs, n := Last(contents), |contents|;
    LayoutLength(crc, rs, |rs|);
    var files := CutLast(Files(crc, contents), cut);
    AllCut(contents, k);
    CutFits(rs, k, segmentSize);
    CleanSegmentsPass(crc, contents, files, 0, segmentSize);
    LastRecovered(crc, contents, cut, k, segmentSize);
  }

  /** Torn-tail recovery: whatever was appended, with whatever rotations, and wherever the last segment is
      cut, recovery succeeds and leaves exactly the records wholly before the cut, at their old positions. */
  lemma TornTailRecovery(crc: Crc, contents: seq<seq<Record>>, cut: nat, segmentSize: nat) returns (k: nat)
    requires contents != [] && AllFit(contents, segmentSize) && cut <= Total(Last(contents))
    ensures WhollyBefore(Last(contents), cut, k) && cut <= |Files(crc, contents)[|contents| - 1]|
    ensures Recover(crc, CutLast(Files(crc, contents), cut), segmentSize)
      == Ok(Recovered(Files(crc, WithLast(contents, Last(contents)[..k])), Start(Last(contents), k)))
    ensures All(WithLast(contents, Last(contents)[..k])) <= All(contents)
    ensures AllFit(WithLast(contents, Last(contents)[..k]), segmentSize)
  {
    hide Recover, AllFit, Files;
    k := SomeWhollyBefore(Last(contents), cut, |Last(contents)|);
    TornAt(crc, contents, cut, k, segmentSize);
  }

  lemma CutFits(rs: seq<Record>, k: nat, segmentSize: nat)
    requires Fits(rs, segmentSize) && k <= |rs|
    ensures Fits(rs[..k], segmentSize)
  {
    StartGrows(rs, k, |rs|);
    assert rs[..k] + rs[k..] == rs;
    StartOfPrefix(rs[..k], rs[k..], k);
  }

  lemma LastRecovered(crc: Crc, contents: seq<seq<Record>>, cut: nat, k: nat, segmentSize: nat)
    requires contents != [] && AllFit(contents, segmentSize)
    requires cut <= Total(Last(contents)) && WhollyBefore(Last(contents), cut, k)
    ensures cut <= |Files(crc, contents)[|contents| - 1]|
    ensures RecoverFrom(crc, CutLast(Files(crc, contents), cut), |contents| - 1, segmentSize)
      == Ok(Recovered(Files(crc, WithLast(contents, Last(contents)[..k])), Start(Last(contents), k)))
  {
    hide ScanFrom, Layout;
    var rs, n := Last(contents), |contents|;
    LayoutLength(crc, rs, |rs|);
    var files := CutLast(Files(crc, contents), cut);
    TornScan(crc, rs, cut, k, 0, segmentSize);
    TruncatedIsWhole(crc, rs, cut, k);
    StartGrows(rs, 0, k);
    var after := Files(crc, WithLast(contents, rs[..k]));
    var file := files[n - 1];
    assert file[..Start(rs, k)] == after[n - 1];
    assert files[n - 1 := after[n - 1]] == after;
    if Start(rs, k) == cut {
      assert file[..cut] == file;
      assert files[n - 1 := file] == files;
    }
  }
}
