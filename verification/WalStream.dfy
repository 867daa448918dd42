/** Streaming a log's records back, segment after segment. */
module WalStream {
  import opened Types
  import opened WalFormat
  import opened WalSegment
  import opened Wal

  lemma {:induction false} UpToPrefix(contents: seq<seq<Record>>, j: nat, k: nat)
    requires j <= k <= |contents|
    ensures UpTo(contents, j) <= UpTo(contents, k)
    decreases k - j
  {
    if j < k {
      UpToPrefix(contents, j, k - 1);
    }
  }

  /** The record at position `j` of segment `i`, in the whole stream. */
  lemma StreamAt(contents: seq<seq<Record>>, i: nat, j: nat)
    requires i < |contents| && j < |contents[i]|
    ensures var at := |UpTo(contents, i)| + j;
      at < |All(contents)| && All(contents)[at] == Stored(Lsn(i, Start(contents[i], j)), contents[i][j])
  {
    hide InSegment;
    UpToPrefix(contents, i + 1, |contents|);
    InSegmentAt(i, contents[i], |contents[i]|, j);
    var upTo := UpTo(contents, i + 1);
    assert upTo[|UpTo(contents, i)| + j] == InSegment(i, contents[i], |contents[i]|)[j];
  }

  lemma SegmentEnd(contents: seq<seq<Record>>, i: nat)
    requires i < |contents|
    ensures |UpTo(contents, i + 1)| == |UpTo(contents, i)| + |contents[i]|
  {
    InSegmentLength(i, contents[i], |contents[i]|);
  }

  type Item = Result<Stored, WalError>

  /** What a stream yields from `offset` of segment `i` on: the records in order, up to the first failure. */
  function Yields(crc: Crc, files: seq<Bytes>, i: nat, offset: nat, segmentSize: nat): seq<Item>
    requires i <= |files| && (i < |files| ==> offset <= |files[i]|)
    decreases |files| - i, if i < |files| then |files[i]| - offset else 0
  {
    if i == |files| then []
    else
      match Read(crc, files[i], offset, segmentSize)
      case Found(record, next) => [Ok(Stored(Lsn(i, offset), record))] + Yields(crc, files, i, next, segmentSize)
      case Eof => Yields(crc, files, i + 1, 0, segmentSize)
      case Incomplete => [Err(CorruptRecord(Lsn(i, offset), IncompleteRecord))]
      case Corrupt(reason) => [Err(CorruptRecord(Lsn(i, offset), reason))]
  }

  class RecordStream {
    const crc: Crc
    const files: seq<Bytes>
    const segmentSize: nat
    var nextSegment: nat
    var current: Option<Lsn>   // the open segment, and where its next record starts
    var done: bool

    ghost predicate Valid()
      reads this
    {
      && nextSegment <= |files|
      && (current.Some? ==>
            current.value.segment == nextSegment - 1 && current.value.offset <= |files[current.value.segment]|)
    }

    /** What the stream has still to yield. */
    ghost function Rest(): seq<Item>
      requires Valid()
      reads this
    {
      if done then []
      else
        match current
        case None => Yields(crc, files, nextSegment, 0, segmentSize)
        case Some(at) => Yields(crc, files, at.segment, at.offset, segmentSize)
    }

    constructor (crc: Crc, files: seq<Bytes>, segmentSize: nat)
      ensures Valid() && Rest() == Yields(crc, files, 0, 0, segmentSize)
    {
      this.crc, this.files, this.segmentSize := crc, files, segmentSize;
      nextSegment, current, done := 0, None, false;
    }

    /** Yields the next record or the failure that ends the stream, and then nothing. */
    method Next() returns (item: Option<Item>)
      requires Valid()
      modifies this
      ensures Valid()
      ensures if old(Rest()) == [] then item == None && Rest() == []
              else item == Some(old(Rest())[0]) && Rest() == old(Rest())[1..]
    {
      hide Read;
      if done {
        return None;
      }
      while true
        invariant Valid() && !done && Rest() == old(Rest())
        decreases |files| - nextSegment, if current.Some? then 1 else 0
      {
        if current.Some? {
          var at := current.value;
          ReadAdvances(crc, files[at.segment], at.offset, segmentSize);
          match Read(crc, files[at.segment], at.offset, segmentSize) {
            case Found(record, next) =>
              current := Some(Lsn(at.segment, next));
              return Some(Ok(Stored(at, record)));
            case Eof =>
              current := None;
            case Incomplete =>
              done := true;
              return Some(Err(CorruptRecord(at, IncompleteRecord)));
            case Corrupt(reason) =>
              done := true;
              return Some(Err(CorruptRecord(at, reason)));
          }
        } else if nextSegment < |files| {
          current, nextSegment := Some(Lsn(nextSegment, 0)), nextSegment + 1;
        } else {
          done := true;
          return None;
        }
      }
    }
  }

  function Items(records: seq<Stored>): seq<Item> {
    seq(|records|, i requires 0 <= i < |records| => Ok(records[i]))
  }

  /** Read from its start, the file gives these records one after the other, and then ends. */
  ghost predicate ReadsAs(crc: Crc, file: Bytes, rs: seq<Record>, segmentSize: nat) {
    forall j :: 0 <= j <= |rs| ==> ReadsAt(crc, file, rs, j, segmentSize)
  }

  ghost predicate ReadsAt(crc: Crc, file: Bytes, rs: seq<Record>, j: nat, segmentSize: nat)
    requires j <= |rs|
  {
    && Start(rs, j) <= |file|
    && Read(crc, file, Start(rs, j), segmentSize) == if j < |rs| then Found(rs[j], Start(rs, j + 1)) else Eof
  }

  /** Segment by segment, the files read as these contents. */
  ghost predicate AllRead(crc: Crc, files: seq<Bytes>, contents: seq<seq<Record>>, segmentSize: nat) {
    |files| == |contents| && forall i :: 0 <= i < |files| ==> ReadsAs(crc, files[i], contents[i], segmentSize)
  }

  lemma {:induction false} YieldsFrom(crc: Crc, files: seq<Bytes>, contents: seq<seq<Record>>, i: nat, j: nat,
                                      segmentSize: nat)
    requires AllRead(crc, files, contents, segmentSize) && i < |contents| && j <= |contents[i]|
    ensures Start(contents[i], j) <= |files[i]| && |UpTo(contents, i)| + j <= |All(contents)|
    ensures Yields(crc, files, i, Start(contents[i], j), segmentSize) == Items(All(contents)[|UpTo(contents, i)| + j..])
    decreases |contents| - i, |contents[i]| - j
  {
    hide Read, UpTo;
    assert ReadsAt(crc, files[i], contents[i], j, segmentSize);
    SegmentEnd(contents, i);
    UpToPrefix(contents, i + 1, |contents|);
    if j < |contents[i]| {
      StreamAt(contents, i, j);
      YieldsFrom(crc, files, contents, i, j + 1, segmentSize);
    } else if i + 1 < |contents| {
      ZeroStart(contents[i + 1]);
      YieldsFrom(crc, files, contents, i + 1, 0, segmentSize);
    }
  }

  /** The stream yields every record the files read as, in order, with its position. */
  lemma ReadStream(crc: Crc, files: seq<Bytes>, contents: seq<seq<Record>>, segmentSize: nat)
    requires AllRead(crc, files, contents, segmentSize)
    ensures Yields(crc, files, 0, 0, segmentSize) == Items(All(contents))
  {
    hide Read, ReadsAs;
    if contents != [] {
      ZeroStart(contents[0]);
      YieldsFrom(crc, files, contents, 0, 0, segmentSize);
      assert All(contents)[0..] == All(contents);
    }
  }

  /** Over the files of a whole log that is every record, at the position its append returned. */
  lemma WholeStream(crc: Crc, contents: seq<seq<Record>>, segmentSize: nat)
    requires AllFit(contents, segmentSize)
    ensures AllRead(crc, Files(crc, contents), contents, segmentSize)
    ensures Yields(crc, Files(crc, contents), 0, 0, segmentSize) == Items(All(contents))
  {
    hide Read, Layout, Fits, Yields;
    forall i | 0 <= i < |contents| ensures ReadsAs(crc, Files(crc, contents)[i], contents[i], segmentSize) {
      var rs := contents[i];
      forall j | 0 <= j <= |rs| ensures ReadsAt(crc, SegmentBytes(crc, rs), rs, j, segmentSize) {
        WholeRead(crc, rs, j, segmentSize);
      }
    }
    ReadStream(crc, Files(crc, contents), contents, segmentSize);
  }

  lemma ZeroStart(rs: seq<Record>)
    ensures Start(rs, 0) == 0
  {
  }

  /** A whole segment reads record by record to its end. */
  lemma WholeRead(crc: Crc, rs: seq<Record>, j: nat, segmentSize: nat)
    requires Fits(rs, segmentSize) && j <= |rs|
    ensures Start(rs, j) <= |SegmentBytes(crc, rs)|
    ensures Read(crc, SegmentBytes(crc, rs), Start(rs, j), segmentSize) ==
      if j < |rs| then Found(rs[j], Start(rs, j + 1)) else Eof
  {
    hide Read, Layout, Fits;
    LayoutLength(crc, rs, |rs|);
    StartGrows(rs, j, |rs|);
    if j < |rs| {
      StartGrows(rs, j + 1, |rs|);
    }
    assert SegmentBytes(crc, rs)[..Total(rs)] == SegmentBytes(crc, rs);
    ReadAtStart(crc, rs, Total(rs), j, segmentSize);
  }
}
