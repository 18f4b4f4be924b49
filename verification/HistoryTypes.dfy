// The activation-history store: its packed flash layout and the hooks the
// dual-slot log is instantiated with. The checksum is a parameter, so every
// result holds for any checksum function.
module HistoryTypes {
  import opened Bytes

  const HISTORY_MAGIC: u32 := 0x4143_5448
  const HISTORY_SCHEMA_VERSION: u16 := 0
  const HISTORY_CAPACITY: nat := 1000
  const RECORD_BYTES: nat := 16
  const HEADER_BYTES: nat := 24
  const STORE_BYTES: nat := 16024

  datatype HistoryRecord = HistoryRecord(
    id: u32, endedAtUnixSec: u32, endedAtLocalSec: u32,
    durationDs: u16, kind: u8, flags: u8)

  datatype HistoryHeader = HistoryHeader(
    magic: u32, schemaVersion: u16, recordSize: u16, generation: u32,
    nextRecordId: u32, count: u16, writeIndex: u16, checksum: u32)

  const ZERO_RECORD := HistoryRecord(0, 0, 0, 0, 0, 0)

  datatype RawStore = RawStore(header: HistoryHeader, records: seq<HistoryRecord>)

  ghost predicate Sized(s: RawStore) {
    |s.records| == HISTORY_CAPACITY
  }

  type HistoryStore = s: RawStore | Sized(s)
    ghost witness RawStore(HistoryHeader(0, 0, 0, 0, 0, 0, 0, 0),
                           seq(HISTORY_CAPACITY, i => ZERO_RECORD))

  type Checksum = seq<u8> -> u32

  // ----- packed layout -----

  function EncodeRecord(r: HistoryRecord): (b: seq<u8>)
    ensures |b| == RECORD_BYTES
  {
    Le32(r.id) + Le32(r.endedAtUnixSec) + Le32(r.endedAtLocalSec) +
    Le16(r.durationDs) + [r.kind, r.flags]
  }

  function DecodeRecord(b: seq<u8>): HistoryRecord
    requires |b| == RECORD_BYTES
  {
    HistoryRecord(Word32(b[0..4]), Word32(b[4..8]), Word32(b[8..12]),
                  Word16(b[12..14]), b[14], b[15])
  }

  function EncodeRecords(rs: seq<HistoryRecord>): (b: seq<u8>)
    ensures |b| == RECORD_BYTES * |rs|
  {
    if rs == [] then [] else EncodeRecords(rs[..|rs| - 1]) + EncodeRecord(rs[|rs| - 1])
  }

  // The header words the checksum covers come first, the checksum last.
  function EncodeHeaderWords(h: HistoryHeader): (b: seq<u8>)
    ensures |b| == HEADER_BYTES - 4
  {
    Le32(h.magic) + Le16(h.schemaVersion) + Le16(h.recordSize) +
    Le32(h.generation) + Le32(h.nextRecordId) + Le16(h.count) + Le16(h.writeIndex)
  }

  function EncodeHeader(h: HistoryHeader): (b: seq<u8>)
    ensures |b| == HEADER_BYTES
  {
    EncodeHeaderWords(h) + Le32(h.checksum)
  }

  function DecodeHeader(b: seq<u8>): HistoryHeader
    requires |b| == HEADER_BYTES
  {
    HistoryHeader(Word32(b[0..4]), Word16(b[4..6]), Word16(b[6..8]), Word32(b[8..12]),
                  Word32(b[12..16]), Word16(b[16..18]), Word16(b[18..20]), Word32(b[20..24]))
  }

  function Encode(s: HistoryStore): (b: seq<u8>)
    ensures |b| == STORE_BYTES
  {
    EncodeHeader(s.header) + EncodeRecords(s.records)
  }

  function Decode(b: seq<u8>): HistoryStore
    requires |b| == STORE_BYTES
  {
    RawStore(DecodeHeader(b[..HEADER_BYTES]),
             seq(HISTORY_CAPACITY, i requires 0 <= i < HISTORY_CAPACITY =>
               DecodeRecord(b[HEADER_BYTES + RECORD_BYTES * i..HEADER_BYTES + RECORD_BYTES * (i + 1)])))
  }

  lemma RecordRoundTrip(r: HistoryRecord)
    ensures DecodeRecord(EncodeRecord(r)) == r
  {
    var b := EncodeRecord(r);
    Word32OfLe32(r.id);
    Word32OfLe32(r.endedAtUnixSec);
    Word32OfLe32(r.endedAtLocalSec);
    assert b[0..4] == Le32(r.id);
    assert b[4..8] == Le32(r.endedAtUnixSec);
    assert b[8..12] == Le32(r.endedAtLocalSec);
    assert b[12..14] == Le16(r.durationDs);
  }

  lemma HeaderRoundTrip(h: HistoryHeader)
    ensures DecodeHeader(EncodeHeader(h)) == h
  {
    var b := EncodeHeader(h);
    Word32OfLe32(h.magic);
    Word32OfLe32(h.generation);
    Word32OfLe32(h.nextRecordId);
    Word32OfLe32(h.checksum);
    assert b[0..4] == Le32(h.magic);
    assert b[4..6] == Le16(h.schemaVersion);
    assert b[6..8] == Le16(h.recordSize);
    assert b[8..12] == Le32(h.generation);
    assert b[12..16] == Le32(h.nextRecordId);
    assert b[16..18] == Le16(h.count);
    assert b[18..20] == Le16(h.writeIndex);
    assert b[20..24] == Le32(h.checksum);
  }

  lemma {:induction false} RecordsSlice(rs: seq<HistoryRecord>, i: nat)
    requires i < |rs|
    ensures EncodeRecords(rs)[RECORD_BYTES * i..RECORD_BYTES * (i + 1)] == EncodeRecord(rs[i])
  {
    var front := rs[..|rs| - 1];
    if i < |front| {
      RecordsSlice(front, i);
      assert EncodeRecords(rs)[RECORD_BYTES * i..RECORD_BYTES * (i + 1)]
          == EncodeRecords(front)[RECORD_BYTES * i..RECORD_BYTES * (i + 1)];
    }
  }

  // What is programmed into a slot reads back as the same store.
  lemma StoreRoundTrip(s: HistoryStore)
    ensures Decode(Encode(s)) == s
  {
    var b := Encode(s);
    assert b[..HEADER_BYTES] == EncodeHeader(s.header);
    HeaderRoundTrip(s.header);
    forall i | 0 <= i < HISTORY_CAPACITY
      ensures Decode(b).records[i] == s.records[i]
    {
      RecordsSlice(s.records, i);
      assert b[HEADER_BYTES + RECORD_BYTES * i..HEADER_BYTES + RECORD_BYTES * (i + 1)]
          == EncodeRecords(s.records)[RECORD_BYTES * i..RECORD_BYTES * (i + 1)];
      RecordRoundTrip(s.records[i]);
    }
    assert Decode(b).records == s.records;
  }

  // ----- and bytes read as a store are the store's bytes -----

  lemma RecordBytes(b: seq<u8>)
    requires |b| == RECORD_BYTES
    ensures EncodeRecord(DecodeRecord(b)) == b
  {
    Le32OfWord32(b[0..4]);
    Le32OfWord32(b[4..8]);
    Le32OfWord32(b[8..12]);
    Le16OfWord16(b[12..14]);
  }

  lemma HeaderWordBytes(b: seq<u8>)
    requires |b| == HEADER_BYTES
    ensures EncodeHeaderWords(DecodeHeader(b)) == b[..HEADER_BYTES - 4]
  {
    Le32OfWord32(b[0..4]);
    Le16OfWord16(b[4..6]);
    Le16OfWord16(b[6..8]);
    Le32OfWord32(b[8..12]);
    Le32OfWord32(b[12..16]);
    Le16OfWord16(b[16..18]);
    Le16OfWord16(b[18..20]);
  }

  lemma RecordAt(b: seq<u8>, i: nat)
    requires |b| == STORE_BYTES && i < HISTORY_CAPACITY
    ensures EncodeRecord(Decode(b).records[i]) == b[HEADER_BYTES + RECORD_BYTES * i..HEADER_BYTES + RECORD_BYTES * (i + 1)]
  {
    hide EncodeRecord, DecodeRecord;
    RecordBytes(b[HEADER_BYTES + RECORD_BYTES * i..HEADER_BYTES + RECORD_BYTES * (i + 1)]);
  }

  lemma EncodeOneMore(rs: seq<HistoryRecord>, n: nat)
    requires 0 < n <= |rs|
    ensures EncodeRecords(rs[..n]) == EncodeRecords(rs[..n - 1]) + EncodeRecord(rs[n - 1])
  {
    hide EncodeRecord;
    assert rs[..n][..n - 1] == rs[..n - 1];
  }

  lemma {:induction false} RecordsBytes(b: seq<u8>, n: nat)
    requires |b| == STORE_BYTES && n <= HISTORY_CAPACITY
    ensures EncodeRecords(Decode(b).records[..n]) == b[HEADER_BYTES..HEADER_BYTES + RECORD_BYTES * n]
  {
    hide Decode, EncodeRecord, EncodeRecords;
    if n == 0 {
      EncodeNone(Decode(b).records[..0]);
    } else {
      RecordsBytes(b, n - 1);
      RecordAt(b, n - 1);
      EncodeOneMore(Decode(b).records, n);
      var from, to := HEADER_BYTES + RECORD_BYTES * (n - 1), HEADER_BYTES + RECORD_BYTES * n;
      assert b[HEADER_BYTES..to] == b[HEADER_BYTES..from] + b[from..to];
    }
  }

  lemma EncodeNone(rs: seq<HistoryRecord>)
    requires rs == []
    ensures EncodeRecords(rs) == []
  {
  }

  // ----- validity hooks -----

  function StoreChecksum(crc: Checksum, s: HistoryStore): u32
    requires s.header.count <= HISTORY_CAPACITY
  {
    crc(EncodeHeaderWords(s.header) + EncodeRecords(s.records[..s.header.count]))
  }

  function Finalize(crc: Checksum, s: HistoryStore): (r: HistoryStore)
    requires s.header.count <= HISTORY_CAPACITY
    ensures r.records == s.records && r.header.generation == s.header.generation
    ensures r.header.count == s.header.count && r.header.writeIndex == s.header.writeIndex
    ensures r.header.nextRecordId == s.header.nextRecordId
  {
    var stamped := RawStore(s.header.(magic := HISTORY_MAGIC, schemaVersion := HISTORY_SCHEMA_VERSION,
                                      recordSize := RECORD_BYTES, checksum := 0), s.records);
    RawStore(stamped.header.(checksum := StoreChecksum(crc, stamped)), s.records)
  }

  predicate Valid(crc: Checksum, s: HistoryStore) {
    && s.header.magic == HISTORY_MAGIC
    && s.header.schemaVersion == HISTORY_SCHEMA_VERSION
    && s.header.recordSize == RECORD_BYTES
    && s.header.count <= HISTORY_CAPACITY
    && s.header.writeIndex < HISTORY_CAPACITY
    && s.header.checksum == StoreChecksum(crc, s)
  }

  // The bytes of a slot that its checksum is over, whatever they mean: the words
  // before the checksum and as many records as the count says.
  function Covered(b: seq<u8>): seq<u8>
    requires |b| == STORE_BYTES && Word16(b[16..18]) <= HISTORY_CAPACITY
  {
    b[..HEADER_BYTES - 4] + b[HEADER_BYTES..HEADER_BYTES + RECORD_BYTES * Word16(b[16..18])]
  }

  lemma HeaderFields(b: seq<u8>)
    requires |b| == STORE_BYTES
    ensures var h := Decode(b).header;
            && h.magic == Word32(b[0..4]) && h.schemaVersion == Word16(b[4..6]) && h.recordSize == Word16(b[6..8])
            && h.count == Word16(b[16..18]) && h.writeIndex == Word16(b[18..20]) && h.checksum == Word32(b[20..24])
            && EncodeHeaderWords(h) == b[..HEADER_BYTES - 4]
  {
    hide Word16, Word32, EncodeHeaderWords;
    var h := b[..HEADER_BYTES];
    assert h[0..4] == b[0..4] && h[4..6] == b[4..6] && h[6..8] == b[6..8];
    assert h[16..18] == b[16..18] && h[18..20] == b[18..20] && h[20..24] == b[20..24];
    HeaderWordBytes(h);
    assert h[..HEADER_BYTES - 4] == b[..HEADER_BYTES - 4];
  }

  // What the validator accepts, in the bytes of the slot.
  lemma ValidExactly(crc: Checksum, b: seq<u8>)
    requires |b| == STORE_BYTES
    ensures Valid(crc, Decode(b)) <==>
      && Word32(b[0..4]) == HISTORY_MAGIC && Word16(b[4..6]) == HISTORY_SCHEMA_VERSION
      && Word16(b[6..8]) == RECORD_BYTES && Word16(b[16..18]) <= HISTORY_CAPACITY
      && Word16(b[18..20]) < HISTORY_CAPACITY && Word32(b[20..24]) == crc(Covered(b))
  {
    hide Word16, Word32, EncodeHeaderWords, EncodeRecords;
    HeaderFields(b);
    if Word16(b[16..18]) <= HISTORY_CAPACITY {
      RecordsBytes(b, Word16(b[16..18]));
    }
    hide Decode;
  }

  // A store validates exactly if it is in bounds and finalizing changes nothing.
  lemma ValidIsFinalized(crc: Checksum, s: HistoryStore)
    ensures Valid(crc, s) <==>
      && s.header.count <= HISTORY_CAPACITY && s.header.writeIndex < HISTORY_CAPACITY
      && Finalize(crc, s) == s
  {
    hide EncodeHeaderWords, EncodeRecords;
    if s.header.count <= HISTORY_CAPACITY {
      ChecksumIgnoresItself(crc, s, 0);
    }
  }

  lemma ChecksumIgnoresItself(crc: Checksum, s: HistoryStore, checksum: u32)
    requires s.header.count <= HISTORY_CAPACITY
    ensures StoreChecksum(crc, RawStore(s.header.(checksum := checksum), s.records)) == StoreChecksum(crc, s)
  {
  }

  function Reset(crc: Checksum): (r: HistoryStore)
    ensures r.header.generation == 1 && r.header.nextRecordId == 1
    ensures r.header.count == 0 && r.header.writeIndex == 0
  {
    Finalize(crc, RawStore(HistoryHeader(0, 0, 0, 1, 1, 0, 0, 0), seq(HISTORY_CAPACITY, i => ZERO_RECORD)))
  }

  lemma FinalizedIsValid(crc: Checksum, s: HistoryStore)
    requires s.header.count <= HISTORY_CAPACITY && s.header.writeIndex < HISTORY_CAPACITY
    ensures Valid(crc, Finalize(crc, s))
  {
  }

  // A slot whose header was erased is refused by its magic alone, whatever the
  // checksum function computes.
  lemma ErasedHeaderIsInvalid(crc: Checksum, b: seq<u8>)
    requires |b| == STORE_BYTES && b[..HEADER_BYTES] == Blank(HEADER_BYTES)
    ensures !Valid(crc, Decode(b))
  {
    assert b[..HEADER_BYTES][0..4] == Blank(4);
  }
}
