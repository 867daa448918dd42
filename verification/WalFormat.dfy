/** The on-disk record format of the write-ahead log: a 32-byte checksummed header, then the payload. */
module WalFormat {
  import opened Types

  const MAGIC: nat := 0x4339_574c
  const VERSION: nat := 1
  const HEADER_LEN: nat := 32
  const HEADER_CRC_END: nat := 28
  const U64: nat := 0x1_0000_0000_0000_0000
  const U32: nat := 0x1_0000_0000

  type Word = x: nat | x < U32

  /** CRC-32, or any other deterministic function of bytes. */
  type Crc = Bytes -> Word

  /** Kind zero is reserved. */
  datatype Record = Record(kind: nat, payload: Bytes)
  {
    predicate Valid() { 1 <= kind < 0x1_0000 && |payload| < U32 }

    function Len(): nat { HEADER_LEN + |payload| }
  }

  datatype Corruption =
    | BadMagic(found: nat)
    | UnsupportedVersion(found: nat)
    | HeaderChecksum
    | ReservedRecordKind
    | RecordTooLarge(len: nat, segmentSize: nat)
    | SegmentTooLarge(len: nat, segmentSize: nat)
    | PayloadChecksum
    | IncompleteRecord

  // --- Little-endian numbers ---

  function LittleEndian(n: nat, width: nat): (bytes: Bytes)
    ensures |bytes| == width
  {
    if width == 0 then [] else [(n % 256) as byte] + LittleEndian(n / 256, width - 1)
  }

  function Number(bytes: Bytes): nat {
    if bytes == [] then 0 else bytes[0] as nat + 256 * Number(bytes[1..])
  }

  function Limit(width: nat): nat { if width == 0 then 1 else 256 * Limit(width - 1) }

  lemma {:induction false} NumberRoundTrip(n: nat, width: nat)
    requires n < Limit(width)
    ensures Number(LittleEndian(n, width)) == n
  {
    if width > 0 {
      NumberRoundTrip(n / 256, width - 1);
      assert LittleEndian(n, width)[1..] == LittleEndian(n / 256, width - 1);
    }
  }

  lemma Limits()
    ensures Limit(2) == 0x1_0000 && Limit(4) == U32
  {
    assert Limit(1) == 256 && Limit(3) == 0x100_0000;
  }

  // --- Encoding ---

  function Zeros(n: nat): Bytes { seq(n, _ => 0 as byte) }

  /** The checksummed part of the header. */
  function Fields(crc: Crc, r: Record): (bytes: Bytes)
    ensures |bytes| == HEADER_CRC_END
  {
    LittleEndian(MAGIC, 4) + LittleEndian(VERSION, 2) + LittleEndian(r.kind, 2) + LittleEndian(|r.payload|, 4)
    + LittleEndian(crc(r.payload), 4) + Zeros(12)
  }

  function Header(crc: Crc, r: Record): (bytes: Bytes)
    ensures |bytes| == HEADER_LEN
  {
    Fields(crc, r) + LittleEndian(crc(Fields(crc, r)), 4)
  }

  function Encode(crc: Crc, r: Record): (bytes: Bytes)
    ensures |bytes| == r.Len()
  {
    Header(crc, r) + r.payload
  }

  // --- Decoding ---

  function Field(header: Bytes, start: nat, width: nat): nat
    requires start + width <= |header|
  {
    Number(header[start..start + width])
  }

  function DecodeHeader(crc: Crc, header: Bytes): Result<nat, Corruption>
    requires |header| == HEADER_LEN
  {
    if Field(header, 0, 4) != MAGIC then Err(BadMagic(Field(header, 0, 4)))
    else if Field(header, 4, 2) != VERSION then Err(UnsupportedVersion(Field(header, 4, 2)))
    else if crc(header[..HEADER_CRC_END]) != Field(header, 28, 4) then Err(HeaderChecksum)
    else if Field(header, 6, 2) == 0 then Err(ReservedRecordKind)
    else Ok(Field(header, 6, 2))
  }

  datatype ReadOne = Found(record: Record, next: nat) | Eof | Incomplete | Corrupt(reason: Corruption)

  /** Reads the record at `offset` of a segment file. */
  function Read(crc: Crc, file: Bytes, offset: nat, segmentSize: nat): ReadOne
    requires offset <= |file|
  {
    if offset == |file| then Eof
    else if offset + HEADER_LEN > |file| then Incomplete
    else
      var header := file[offset..offset + HEADER_LEN];
      match DecodeHeader(crc, header)
      case Err(reason) => Corrupt(reason)
      case Ok(kind) =>
        var len := HEADER_LEN + Field(header, 8, 4);
        if len > segmentSize then Corrupt(RecordTooLarge(len, segmentSize))
        else if offset + len >= U64 then Corrupt(SegmentTooLarge(U64 - 1, segmentSize))
        else if offset + len > segmentSize then Corrupt(SegmentTooLarge(offset + len, segmentSize))
        else if offset + len > |file| then Incomplete
        else
          var payload := file[offset + HEADER_LEN..offset + len];
          if crc(payload) != Field(header, 12, 4) then Corrupt(PayloadChecksum)
          else Found(Record(kind, payload), offset + len)
  }

  // --- Round trip ---

  /** Each field of an encoded header reads back. */
  lemma HeaderFields(crc: Crc, r: Record)
    requires r.Valid()
    ensures var h := Header(crc, r);
      && Field(h, 0, 4) == MAGIC && Field(h, 4, 2) == VERSION && Field(h, 6, 2) == r.kind
      && Field(h, 8, 4) == |r.payload| && Field(h, 12, 4) == crc(r.payload)
      && Field(h, 28, 4) == crc(h[..HEADER_CRC_END])
  {
    hide LittleEndian, Number, Limit;
    var h := Header(crc, r);
    Limits();
    var m, v, k, l := LittleEndian(MAGIC, 4), LittleEndian(VERSION, 2), LittleEndian(r.kind, 2),
        LittleEndian(|r.payload|, 4);
    var p, s := LittleEndian(crc(r.payload), 4), LittleEndian(crc(Fields(crc, r)), 4);
    assert h[0..4] == m && h[4..6] == v && h[6..8] == k && h[8..12] == l && h[12..16] == p && h[28..32] == s;
    assert h[..HEADER_CRC_END] == Fields(crc, r);
    NumberRoundTrip(MAGIC, 4);
    NumberRoundTrip(VERSION, 2);
    NumberRoundTrip(r.kind, 2);
    NumberRoundTrip(|r.payload|, 4);
    NumberRoundTrip(crc(r.payload), 4);
    NumberRoundTrip(crc(Fields(crc, r)), 4);
  }

  lemma HeaderDecodes(crc: Crc, r: Record)
    requires r.Valid()
    ensures DecodeHeader(crc, Header(crc, r)) == Ok(r.kind)
  {
    hide Header, Field;
    HeaderFields(crc, r);
  }

  /** The file, cut anywhere, holds this record's bytes from `offset` on. */
  predicate Holds(crc: Crc, file: Bytes, offset: nat, r: Record) {
    offset <= |file| && (file[offset..] <= Encode(crc, r) || Encode(crc, r) <= file[offset..])
  }

  /** A record cut short reads as the end of the file or as incomplete, and a whole one reads back. */
  lemma ReadBack(crc: Crc, file: Bytes, offset: nat, r: Record, segmentSize: nat)
    requires r.Valid() && Holds(crc, file, offset, r) && offset + r.Len() <= segmentSize < U64
    ensures Read(crc, file, offset, segmentSize) ==
      if offset + r.Len() <= |file| then Found(r, offset + r.Len())
      else if offset == |file| then Eof else Incomplete
  {
    hide Header, Field, DecodeHeader;
    var bytes := Encode(crc, r);
    if offset + HEADER_LEN <= |file| {
      var header := file[offset..offset + HEADER_LEN];
      assert header == Header(crc, r) by {
        assert file[offset..][..HEADER_LEN] == header;
        assert bytes[..HEADER_LEN] == Header(crc, r);
      }
      HeaderDecodes(crc, r);
      HeaderFields(crc, r);
      if offset + r.Len() <= |file| {
        assert file[offset + HEADER_LEN..offset + r.Len()] == r.payload by {
          assert file[offset..][..r.Len()] == bytes;
          assert bytes[HEADER_LEN..] == r.payload;
        }
      }
    }
  }

  // --- Arbitrary bytes ---

  /** From `offset` on the file holds this record, with every number in its place and both checksums right. */
  predicate Checked(crc: Crc, file: Bytes, offset: nat, r: Record) {
    && offset + r.Len() <= |file| && file[offset + HEADER_LEN..offset + r.Len()] == r.payload
    && var header := file[offset..offset + HEADER_LEN];
       && Field(header, 0, 4) == MAGIC && Field(header, 4, 2) == VERSION && Field(header, 6, 2) == r.kind != 0
       && Field(header, 8, 4) == |r.payload| && Field(header, 12, 4) == crc(r.payload)
       && Field(header, 28, 4) == crc(header[..HEADER_CRC_END])
  }

  /** Whatever the bytes: reading gives a record exactly where one stands, checksums included, that fits the segment. */
  lemma ReadExactly(crc: Crc, file: Bytes, offset: nat, r: Record, segmentSize: nat)
    requires offset <= |file|
    ensures Read(crc, file, offset, segmentSize) == Found(r, offset + r.Len()) <==>
      Checked(crc, file, offset, r) && offset + r.Len() <= segmentSize && offset + r.Len() < U64
  {
    hide Number;
  }

  /** Nothing else is ever found. */
  lemma FoundIsChecked(crc: Crc, file: Bytes, offset: nat, segmentSize: nat)
    requires offset <= |file| && Read(crc, file, offset, segmentSize).Found?
    ensures var one := Read(crc, file, offset, segmentSize);
      && Checked(crc, file, offset, one.record) && one.next == offset + one.record.Len() <= |file|
      && one.next <= segmentSize && one.next < U64
  {
    hide Number;
  }

  /** The end of the file and a record cut short are told apart from damage: incomplete means that the file ends inside
      a header, or that a sound header announces more than is there. */
  lemma IncompleteExactly(crc: Crc, file: Bytes, offset: nat, segmentSize: nat)
    requires offset <= |file|
    ensures Read(crc, file, offset, segmentSize) == Eof <==> offset == |file|
    ensures Read(crc, file, offset, segmentSize) == Incomplete <==>
      && offset < |file|
      && (|| offset + HEADER_LEN > |file|
          || (var header := file[offset..offset + HEADER_LEN];
              var end := offset + HEADER_LEN + Field(header, 8, 4);
              && Field(header, 0, 4) == MAGIC && Field(header, 4, 2) == VERSION && Field(header, 6, 2) != 0
              && Field(header, 28, 4) == crc(header[..HEADER_CRC_END]) && |file| < end <= segmentSize && end < U64))
  {
    hide Number;
  }

  /** A record whose payload was changed, so that its checksum differs, is reported and never returned. */
  lemma ChangedPayloadReported(crc: Crc, file: Bytes, offset: nat, r: Record, payload: Bytes, segmentSize: nat)
    requires r.Valid() && |payload| == |r.payload| && crc(payload) != crc(r.payload)
    requires offset + r.Len() <= segmentSize < U64
    requires offset <= |file| && Header(crc, r) + payload <= file[offset..]
    ensures Read(crc, file, offset, segmentSize) == Corrupt(PayloadChecksum)
  {
    hide Header, Field, DecodeHeader;
    assert file[offset..][..r.Len()] == Header(crc, r) + payload;
    assert file[offset..offset + HEADER_LEN] == Header(crc, r) by {
      assert file[offset..][..HEADER_LEN] == (Header(crc, r) + payload)[..HEADER_LEN];
    }
    assert file[offset + HEADER_LEN..offset + r.Len()] == payload by {
      assert file[offset..][..r.Len()][HEADER_LEN..] == (Header(crc, r) + payload)[HEADER_LEN..];
    }
    HeaderDecodes(crc, r);
    HeaderFields(crc, r);
  }

  // --- The buffers ---

  method CopyInto(buffer: array<byte>, start: nat, bytes: Bytes)
    requires start + |bytes| <= buffer.Length
    modifies buffer
    ensures buffer[..] == old(buffer[..start]) + bytes + old(buffer[start + |bytes|..])
  {
    for i := 0 to |bytes|
      invariant buffer[..] == old(buffer[..start]) + bytes[..i] + old(buffer[start + i..])
    {
      buffer[start + i] := bytes[i];
    }
  }

  lemma ZerosOverwritten(prefix: Bytes, bytes: Bytes, n: nat)
    requires |bytes| <= n
    ensures var all := prefix + Zeros(n);
      all[..|prefix|] + bytes + all[|prefix| + |bytes|..] == prefix + bytes + Zeros(n - |bytes|)
  {
  }

  /** Writes the next field over the zeros behind what is filled already. */
  method FillNext(buffer: array<byte>, start: nat, ghost prefix: Bytes, bytes: Bytes)
    requires start == |prefix| && start + |bytes| <= buffer.Length
    requires buffer[..] == prefix + Zeros(buffer.Length - |prefix|)
    modifies buffer
    ensures buffer[..] == prefix + bytes + Zeros(buffer.Length - |prefix| - |bytes|)
  {
    ZerosOverwritten(prefix, bytes, buffer.Length - start);
    CopyInto(buffer, start, bytes);
  }

  /** Fills a zeroed header field by field, then appends the payload. */
  method EncodeRecord(crc: Crc, kind: nat, payload: Bytes) returns (encoded: Option<Bytes>)
    requires 1 <= kind < 0x1_0000
    ensures encoded == if |payload| < U32 then Some(Encode(crc, Record(kind, payload))) else None
  {
    hide LittleEndian;
    if |payload| >= U32 {
      return None;
    }
    var r := Record(kind, payload);
    var header := new byte[HEADER_LEN](_ => 0);
    ghost var m, v, k, l, p := LittleEndian(MAGIC, 4), LittleEndian(VERSION, 2), LittleEndian(kind, 2),
      LittleEndian(|payload|, 4), LittleEndian(crc(payload), 4);
    assert header[..] == [] + Zeros(32);
    FillNext(header, 0, [], LittleEndian(MAGIC, 4));
    FillNext(header, 4, m, LittleEndian(VERSION, 2));
    FillNext(header, 6, m + v, LittleEndian(kind, 2));
    FillNext(header, 8, m + v + k, LittleEndian(|payload|, 4));
    FillNext(header, 12, m + v + k + l, LittleEndian(crc(payload), 4));
    assert header[..HEADER_CRC_END] == Fields(crc, r);
    CopyInto(header, 28, LittleEndian(crc(header[..HEADER_CRC_END]), 4));
    assert header[..] == Header(crc, r);
    encoded := Some(header[..] + payload);
  }

  /** A file being read front to back; a read may return fewer bytes than asked for. */
  class Reader {
    const file: Bytes
    var pos: nat

    ghost predicate Valid()
      reads this
    {
      pos <= |file|
    }

    constructor (file: Bytes)
      ensures Valid() && this.file == file && pos == 0
    {
      this.file, pos := file, 0;
    }

    method ReadSome(buffer: array<byte>, start: nat) returns (n: nat)
      requires Valid() && start < buffer.Length
      modifies `pos, buffer
      ensures Valid() && pos == old(pos) + n && n <= buffer.Length - start && (n == 0 <==> old(pos) == |file|)
      ensures buffer[..start + n] == old(buffer[..start]) + file[old(pos)..old(pos) + n]
    {
      var most := Min(buffer.Length - start, |file| - pos);
      n :| 0 <= n <= most && (n == 0 <==> most == 0);
      CopyInto(buffer, start, file[pos..pos + n]);
      pos := pos + n;
    }
  }

  datatype ReadExact = Complete | AtEof | CutShort

  /** Fills the buffer, or tells a clean end from a cut. */
  method ReadExactOrTail(reader: Reader, buffer: array<byte>) returns (r: ReadExact)
    requires reader.Valid()
    modifies reader`pos, buffer
    ensures reader.Valid()
    ensures var left := |reader.file| - old(reader.pos);
      r == if left >= buffer.Length then Complete else if left == 0 then AtEof else CutShort
    ensures r.Complete? ==>
      reader.pos == old(reader.pos) + buffer.Length && buffer[..] == reader.file[old(reader.pos)..reader.pos]
  {
    var filled := 0;
    ghost var start := reader.pos;
    while filled < buffer.Length
      invariant reader.Valid()
      invariant filled <= buffer.Length
      invariant reader.pos == start + filled
      invariant buffer[..filled] == reader.file[start..start + filled]
    {
      var n := reader.ReadSome(buffer, filled);
      if n == 0 {
        return if filled == 0 then AtEof else CutShort;
      }
      assert reader.file[start..start + filled] + reader.file[start + filled..start + filled + n]
        == reader.file[start..start + (filled + n)];
      filled := filled + n;
    }
    r := Complete;
  }

  /** Reads one record through buffers of exactly the needed size. */
  method ReadRecord(crc: Crc, reader: Reader, segmentSize: nat) returns (r: ReadOne)
    requires reader.Valid()
    modifies reader`pos
    ensures reader.Valid() && r == Read(crc, reader.file, old(reader.pos), segmentSize)
    ensures r.Found? ==> reader.pos == r.next
  {
    hide DecodeHeader, Field;
    var offset, physical := reader.pos, |reader.file|;
    var header := new byte[HEADER_LEN];
    var status := ReadExactOrTail(reader, header);
    match status {
      case AtEof => return Eof;
      case CutShort => return Incomplete;
      case Complete =>
    }
    var head := header[..];
    var kind: nat;
    match DecodeHeader(crc, head) {
      case Err(reason) => return Corrupt(reason);
      case Ok(k) => kind := k;
    }
    var len := HEADER_LEN + Field(head, 8, 4);
    if len > segmentSize {
      return Corrupt(RecordTooLarge(len, segmentSize));
    }
    if offset + len >= U64 {
      return Corrupt(SegmentTooLarge(U64 - 1, segmentSize));
    }
    if offset + len > segmentSize {
      return Corrupt(SegmentTooLarge(offset + len, segmentSize));
    }
    if offset + len > physical {
      return Incomplete;
    }
    var payload := new byte[len - HEADER_LEN];
    status := ReadExactOrTail(reader, payload);
    if crc(payload[..]) != Field(head, 12, 4) {
      return Corrupt(PayloadChecksum);
    }
    r := Found(Record(kind, payload[..]), offset + len);
  }
}
