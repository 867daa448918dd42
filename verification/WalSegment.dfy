/** Segment files: records laid end to end, scanned front to back, with a torn tail told from corruption. */
module WalSegment {
  import opened Types
  import opened WalFormat

  // --- Layout ---

  /** Where record `k` starts. */
  function Start(rs: seq<Record>, k: nat): nat
    requires k <= |rs|
  {
    if k == 0 then 0 else Start(rs, k - 1) + rs[k - 1].Len()
  }

  /** The bytes of the first `k` records. */
  function Layout(crc: Crc, rs: seq<Record>, k: nat): Bytes
    requires k <= |rs|
  {
    if k == 0 then [] else Layout(crc, rs, k - 1) + Encode(crc, rs[k - 1])
  }

  function SegmentBytes(crc: Crc, rs: seq<Record>): Bytes { Layout(crc, rs, |rs|) }

  function Total(rs: seq<Record>): nat { Start(rs, |rs|) }

  lemma {:induction false} LayoutLength(crc: Crc, rs: seq<Record>, k: nat)
    requires k <= |rs|
    ensures |Layout(crc, rs, k)| == Start(rs, k)
  {
    if k > 0 {
      LayoutLength(crc, rs, k - 1);
    }
  }

  lemma {:induction false} StartGrows(rs: seq<Record>, j: nat, k: nat)
    requires j <= k <= |rs|
    ensures Start(rs, j) + HEADER_LEN * (k - j) <= Start(rs, k)
    decreases k - j
  {
    if j < k {
      StartGrows(rs, j, k - 1);
    }
  }

  lemma {:induction false} LayoutPrefix(crc: Crc, rs: seq<Record>, j: nat, k: nat)
    requires j <= k <= |rs|
    ensures Layout(crc, rs, j) <= Layout(crc, rs, k)
    decreases k - j
  {
    if j < k {
      LayoutPrefix(crc, rs, j, k - 1);
    }
  }

  /** The bytes of the first records do not depend on the later ones. */
  lemma {:induction false} LayoutOfPrefix(crc: Crc, rs: seq<Record>, more: seq<Record>, k: nat)
    requires k <= |rs|
    ensures Layout(crc, rs + more, k) == Layout(crc, rs, k) && Start(rs + more, k) == Start(rs, k)
  {
    if k > 0 {
      LayoutOfPrefix(crc, rs, more, k - 1);
    }
  }

  lemma LayoutAppend(crc: Crc, rs: seq<Record>, r: Record)
    ensures SegmentBytes(crc, rs + [r]) == SegmentBytes(crc, rs) + Encode(crc, r)
    ensures Total(rs + [r]) == Total(rs) + r.Len()
  {
    LayoutOfPrefix(crc, rs, [r], |rs|);
  }

  lemma LayoutTake(crc: Crc, rs: seq<Record>, k: nat)
    requires k <= |rs|
    ensures SegmentBytes(crc, rs[..k]) == Layout(crc, rs, k) && Total(rs[..k]) == Start(rs, k)
  {
    assert rs[..k] + rs[k..] == rs;
    LayoutOfPrefix(crc, rs[..k], rs[k..], k);
  }

  // --- Scanning ---

  datatype Scan = Clean(end: nat) | Torn(end: nat) | Bad(at: nat, reason: Corruption)

  /** Reads records from `offset` until the file ends, cleanly or not. */
  function ScanFrom(crc: Crc, file: Bytes, offset: nat, segmentSize: nat): Scan
    requires offset <= |file|
    decreases |file| - offset
  {
    match Read(crc, file, offset, segmentSize)
    case Found(_, next) => ScanFrom(crc, file, next, segmentSize)
    case Eof => Clean(offset)
    case Incomplete => Torn(offset)
    case Corrupt(reason) => Bad(offset, reason)
  }

  method ValidLength(crc: Crc, file: Bytes, segmentSize: nat) returns (scan: Scan)
    ensures scan == ScanFrom(crc, file, 0, segmentSize)
  {
    hide Read;
    var reader := new Reader(file);
    var offset := 0;
    while true
      invariant reader.Valid() && reader.file == file && offset == reader.pos
      invariant ScanFrom(crc, file, offset, segmentSize) == ScanFrom(crc, file, 0, segmentSize)
      decreases |file| - offset
    {
      ReadAdvances(crc, file, offset, segmentSize);
      var one := ReadRecord(crc, reader, segmentSize);
      match one {
        case Found(_, next) => offset := next;
        case Eof => return Clean(offset);
        case Incomplete => return Torn(offset);
        case Corrupt(reason) => return Bad(offset, reason);
      }
    }
  }

  lemma ReadAdvances(crc: Crc, file: Bytes, offset: nat, segmentSize: nat)
    requires offset <= |file|
    ensures var r := Read(crc, file, offset, segmentSize); r.Found? ==> offset < r.next <= |file|
  {
  }

  // --- A segment cut at any byte ---

  /** Records a segment of this size can hold. */
  predicate Fits(rs: seq<Record>, segmentSize: nat) {
    Total(rs) <= segmentSize < U64 && forall i :: 0 <= i < |rs| ==> rs[i].Valid()
  }

  /** Exactly the first `k` records lie wholly before the cut. */
  predicate WhollyBefore(rs: seq<Record>, cut: nat, k: nat) {
    k <= |rs| && Start(rs, k) <= cut && (k < |rs| ==> cut < Start(rs, k + 1))
  }

  lemma {:induction false} SomeWhollyBefore(rs: seq<Record>, cut: nat, m: nat) returns (k: nat)
    requires m <= |rs| && (m < |rs| ==> cut < Start(rs, m + 1))
    ensures WhollyBefore(rs, cut, k)
  {
    if Start(rs, m) <= cut {
      k := m;
    } else {
      k := SomeWhollyBefore(rs, cut, m - 1);
    }
  }

  /** Where record `j` lies in the segment. */
  lemma RecordBytes(crc: Crc, rs: seq<Record>, j: nat)
    requires j < |rs|
    ensures Start(rs, j + 1) <= |SegmentBytes(crc, rs)| == Total(rs)
    ensures SegmentBytes(crc, rs)[Start(rs, j)..Start(rs, j + 1)] == Encode(crc, rs[j])
  {
    hide Encode;
    LayoutLength(crc, rs, |rs|);
    LayoutLength(crc, rs, j);
    LayoutLength(crc, rs, j + 1);
    LayoutPrefix(crc, rs, j + 1, |rs|);
    assert Layout(crc, rs, j + 1)[Start(rs, j)..Start(rs, j + 1)] == Encode(crc, rs[j]);
  }

  /** A file cut anywhere after `lo` holds a beginning of what lay between `lo` and `hi`, or all of it. */
  lemma CutOf(whole: Bytes, lo: nat, hi: nat, cut: nat)
    requires lo <= hi <= |whole| && lo <= cut <= |whole|
    ensures whole[..cut][lo..] <= whole[lo..hi] || whole[lo..hi] <= whole[..cut][lo..]
  {
    var tail, slice := whole[..cut][lo..], whole[lo..hi];
    assert forall i :: 0 <= i < |tail| ==> tail[i] == whole[lo + i];
    assert forall i :: 0 <= i < |slice| ==> slice[i] == whole[lo + i];
  }

  lemma CutHolds(crc: Crc, rs: seq<Record>, cut: nat, j: nat)
    requires j < |rs| && Start(rs, j) <= cut <= Total(rs)
    ensures cut <= |SegmentBytes(crc, rs)| && Holds(crc, SegmentBytes(crc, rs)[..cut], Start(rs, j), rs[j])
  {
    hide Encode, SegmentBytes;
    RecordBytes(crc, rs, j);
    CutOf(SegmentBytes(crc, rs), Start(rs, j), Start(rs, j + 1), cut);
  }

  /** Reading a cut segment at the start of a record. */
  lemma ReadAtStart(crc: Crc, rs: seq<Record>, cut: nat, j: nat, segmentSize: nat)
    requires Fits(rs, segmentSize) && j <= |rs| && Start(rs, j) <= cut <= Total(rs)
    ensures cut <= |SegmentBytes(crc, rs)|
    ensures Read(crc, SegmentBytes(crc, rs)[..cut], Start(rs, j), segmentSize) ==
      if j < |rs| && Start(rs, j + 1) <= cut then Found(rs[j], Start(rs, j + 1))
      else if Start(rs, j) == cut then Eof else Incomplete
  {
    hide Read, Layout;
    LayoutLength(crc, rs, |rs|);
    if j < |rs| {
      CutHolds(crc, rs, cut, j);
      StartGrows(rs, j + 1, |rs|);
      ReadBack(crc, SegmentBytes(crc, rs)[..cut], Start(rs, j), rs[j], segmentSize);
    } else {
      ReadAtEnd(crc, SegmentBytes(crc, rs)[..cut], segmentSize);
    }
  }

  lemma ReadAtEnd(crc: Crc, file: Bytes, segmentSize: nat)
    ensures Read(crc, file, |file|, segmentSize) == Eof
  {
  }

  /** Scanning a segment cut at any byte finds exactly the records wholly before the cut, and never corruption. */
  lemma {:induction false} TornScan(crc: Crc, rs: seq<Record>, cut: nat, k: nat, j: nat, segmentSize: nat)
    requires Fits(rs, segmentSize) && cut <= Total(rs) && WhollyBefore(rs, cut, k) && j <= k
    ensures cut <= |SegmentBytes(crc, rs)| && Start(rs, j) <= cut
    ensures ScanFrom(crc, SegmentBytes(crc, rs)[..cut], Start(rs, j), segmentSize) ==
      if Start(rs, k) == cut then Clean(cut) else Torn(Start(rs, k))
    decreases k - j
  {
    hide Read, Layout, Fits;
    LayoutLength(crc, rs, |rs|);
    StartGrows(rs, j, k);
    ReadAtStart(crc, rs, cut, j, segmentSize);
    if j < k {
      StartGrows(rs, j + 1, k);
      TornScan(crc, rs, cut, k, j + 1, segmentSize);
    }
  }

  /** Truncating to where the scan stopped leaves exactly those records. */
  lemma TruncatedIsWhole(crc: Crc, rs: seq<Record>, cut: nat, k: nat)
    requires cut <= Total(rs) && WhollyBefore(rs, cut, k)
    ensures cut <= |SegmentBytes(crc, rs)|
    ensures SegmentBytes(crc, rs)[..cut][..Start(rs, k)] == SegmentBytes(crc, rs[..k])
  {
    hide Encode;
    LayoutLength(crc, rs, |rs|);
    LayoutLength(crc, rs, k);
    LayoutPrefix(crc, rs, k, |rs|);
    LayoutTake(crc, rs, k);
  }
}
