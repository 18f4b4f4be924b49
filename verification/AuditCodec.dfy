// One audit record and the 64-byte slot it is packed into. The checksum is a
// parameter, so every result holds for any checksum function.
module AuditCodec {
  import opened Bytes

  const AUDIT_STORE_SCHEMA_VERSION: u8 := 0
  const AUDIT_EXCERPT_BYTES: nat := 24
  const AUDIT_STORE_RECORD_BYTES: nat := 64
  const CHECKED_BYTES: nat := 62
  const TEXT_START: nat := 25

  datatype RawRecord = RawRecord(
    sequence: u32, wallSec: u32, atMs: u32, argument1: i32, argument2: i32,
    level: u8, category: u8, code: u8, textLen: u8, text: seq<u8>)

  const NO_TEXT: seq<u8> :=
    [0, 0, 0, 0, 0, 0, 0, 0, 0, 0, 0, 0,
     0, 0, 0, 0, 0, 0, 0, 0, 0, 0, 0, 0]

  type AuditRecord = r: RawRecord | |r.text| == AUDIT_EXCERPT_BYTES
    witness RawRecord(0, 0, 0, 0, 0, 0, 0, 0, 0, NO_TEXT)

  const ZERO_AUDIT_RECORD: AuditRecord := RawRecord(0, 0, 0, 0, 0, 0, 0, 0, 0, NO_TEXT)

  type Slot = b: seq<u8> | |b| == AUDIT_STORE_RECORD_BYTES
    witness seq(64, i => 0)

  const EMPTY_SLOT: Slot := Blank(AUDIT_STORE_RECORD_BYTES)

  type Checksum16 = seq<u8> -> u16

  datatype Decoded = NoRecord | Decoded(record: AuditRecord)

  function ClampTextLen(n: u8): u8 {
    if n < AUDIT_EXCERPT_BYTES then n else AUDIT_EXCERPT_BYTES - 1
  }

  // The first n characters, zero filled.
  function Excerpt(text: seq<u8>, n: nat): (t: seq<u8>)
    requires n <= |text|
    ensures |t| == AUDIT_EXCERPT_BYTES
  {
    seq(AUDIT_EXCERPT_BYTES, i requires 0 <= i < AUDIT_EXCERPT_BYTES => if i < n && i < |text| then text[i] else 0)
  }

  // What survives a round trip: the excerpt is cut to 23 characters and zero
  // filled behind its length.
  function Normal(r: AuditRecord): AuditRecord {
    r.(textLen := ClampTextLen(r.textLen), text := Excerpt(r.text, ClampTextLen(r.textLen)))
  }

  predicate IsNormal(r: AuditRecord) {
    r == Normal(r)
  }

  function FixedPart(r: AuditRecord): (b: seq<u8>)
    ensures |b| == TEXT_START
  {
    [AUDIT_STORE_SCHEMA_VERSION, r.level, r.category, r.code] +
    Le32(r.sequence) + Le32(r.wallSec) + Le32(r.atMs) +
    Le32(ToU32(r.argument1)) + Le32(ToU32(r.argument2)) + [ClampTextLen(r.textLen)]
  }

  function Body(r: AuditRecord): (b: seq<u8>)
    ensures |b| == CHECKED_BYTES
  {
    FixedPart(r) +
    seq(CHECKED_BYTES - TEXT_START, i requires 0 <= i < CHECKED_BYTES - TEXT_START =>
      if i < ClampTextLen(r.textLen) then r.text[i] else 0)
  }

  function Encode(sum: Checksum16, r: AuditRecord): Slot {
    Body(r) + Le16(sum(Body(r)))
  }

  predicate HasRecord(sum: Checksum16, b: Slot) {
    && b != EMPTY_SLOT
    && b[0] == AUDIT_STORE_SCHEMA_VERSION
    && b[24] < AUDIT_EXCERPT_BYTES
    && Word16(b[CHECKED_BYTES..]) == sum(b[..CHECKED_BYTES])
    && Word32(b[4..8]) != 0
  }

  function Decode(sum: Checksum16, b: Slot): Decoded {
    if !HasRecord(sum, b) then NoRecord
    else Decoded(RawRecord(Word32(b[4..8]), Word32(b[8..12]), Word32(b[12..16]),
                           ToI32(Word32(b[16..20])), ToI32(Word32(b[20..24])),
                           b[1], b[2], b[3], b[24], Excerpt(b[TEXT_START..TEXT_START + AUDIT_EXCERPT_BYTES], b[24])))
  }

  lemma SignedRoundTrip(x: i32)
    ensures ToI32(ToU32(x)) == x
  {
  }

  lemma FixedPartWords(r: AuditRecord)
    ensures var b := FixedPart(r);
            && b[..4] == [AUDIT_STORE_SCHEMA_VERSION, r.level, r.category, r.code]
            && b[4..8] == Le32(r.sequence) && b[8..12] == Le32(r.wallSec) && b[12..16] == Le32(r.atMs)
            && b[16..20] == Le32(ToU32(r.argument1)) && b[20..24] == Le32(ToU32(r.argument2))
            && b[24] == ClampTextLen(r.textLen)
  {
    hide Le32, ToU32;
  }

  lemma EncodedSlices(sum: Checksum16, r: AuditRecord)
    ensures var b := Encode(sum, r);
            && b[..CHECKED_BYTES] == Body(r) && b[CHECKED_BYTES..] == Le16(sum(Body(r)))
            && b[..4] == FixedPart(r)[..4] && b[24] == FixedPart(r)[24]
            && b[4..8] == FixedPart(r)[4..8] && b[8..12] == FixedPart(r)[8..12]
            && b[12..16] == FixedPart(r)[12..16] && b[16..20] == FixedPart(r)[16..20]
            && b[20..24] == FixedPart(r)[20..24]
  {
    hide FixedPart, Le16;
  }

  lemma EncodedText(sum: Checksum16, r: AuditRecord)
    ensures var b := Encode(sum, r);
            Excerpt(b[TEXT_START..TEXT_START + AUDIT_EXCERPT_BYTES], ClampTextLen(r.textLen)) == Normal(r).text
  {
    hide FixedPart, Le16;
    var n := ClampTextLen(r.textLen);
    var b := Encode(sum, r);
    forall i | 0 <= i < AUDIT_EXCERPT_BYTES && i < n
      ensures b[TEXT_START..TEXT_START + AUDIT_EXCERPT_BYTES][i] == r.text[i]
    {
      assert b[TEXT_START + i] == Body(r)[TEXT_START + i];
    }
  }

  // A record programmed into a blank slot decodes to itself, excerpt clamped,
  // unless its sequence is zero.
  lemma SlotRoundTrip(sum: Checksum16, r: AuditRecord)
    ensures Encode(sum, r) != EMPTY_SLOT
    ensures Decode(sum, Encode(sum, r)) == if r.sequence == 0 then NoRecord else Decoded(Normal(r))
  {
    hide Le32, FixedPart, Body, Encode, Excerpt, Word32, Normal;
    var b := Encode(sum, r);
    EncodedSlices(sum, r);
    FixedPartWords(r);
    EncodedText(sum, r);
    Word32OfLe32(r.sequence);
    Word32OfLe32(r.wallSec);
    Word32OfLe32(r.atMs);
    Word32OfLe32(ToU32(r.argument1));
    Word32OfLe32(ToU32(r.argument2));
    SignedRoundTrip(r.argument1);
    SignedRoundTrip(r.argument2);
    assert b[0] == b[..4][0] && b[1] == b[..4][1] && b[2] == b[..4][2] && b[3] == b[..4][3];
    assert b != EMPTY_SLOT by {
      assert EMPTY_SLOT[0] == ERASED;
    }
    NormalFields(r);
  }

  lemma NormalFields(r: AuditRecord)
    ensures Normal(r) == r.(textLen := ClampTextLen(r.textLen), text := Normal(r).text)
    ensures IsNormal(Normal(r))
  {
    assert Normal(Normal(r)).text == Normal(r).text;
  }

  // ----- the codec as loops over a byte cursor -----

  method WriteWord(slot: array<u8>, at: nat, word: u32)
    requires at + 4 <= slot.Length
    modifies slot
    ensures forall k :: 0 <= k < slot.Length ==>
      slot[k] == if at <= k < at + 4 then Le32(word)[k - at] else old(slot[k])
  {
    var rest := word;
    for i := 0 to 4
      invariant rest == if i == 0 then word else if i == 1 then word / 0x100
                        else if i == 2 then word / 0x1_0000 else if i == 3 then word / 0x100_0000 else 0
      invariant forall k :: 0 <= k < slot.Length ==>
        slot[k] == if at <= k < at + i then Le32(word)[k - at] else old(slot[k])
    {
      slot[at + i] := rest % 0x100;
      rest := rest / 0x100;
    }
  }

  method EncodeRecord(sum: Checksum16, slot: array<u8>, record: AuditRecord)
    requires slot.Length == AUDIT_STORE_RECORD_BYTES
    modifies slot
    ensures slot[..] == Encode(sum, record)
  {
    forall i | 0 <= i < AUDIT_STORE_RECORD_BYTES {
      slot[i] := 0;
    }
    WriteFixed(slot, record);
    var textLen := ClampTextLen(record.textLen);
    for i := 0 to textLen
      invariant slot[..TEXT_START] == FixedPart(record)
      invariant forall k :: TEXT_START <= k < AUDIT_STORE_RECORD_BYTES ==>
        slot[k] == if k < TEXT_START + i then record.text[k - TEXT_START] else 0
    {
      slot[TEXT_START + i] := record.text[i];
      assert slot[..TEXT_START] == FixedPart(record);
    }
    SealSlot(sum, slot, record);
  }

  method WriteFixed(slot: array<u8>, record: AuditRecord)
    requires slot.Length == AUDIT_STORE_RECORD_BYTES
    modifies slot
    ensures slot[..TEXT_START] == FixedPart(record)
    ensures forall k :: TEXT_START <= k < AUDIT_STORE_RECORD_BYTES ==> slot[k] == old(slot[k])
  {
    hide Le32, ToU32;
    slot[0] := AUDIT_STORE_SCHEMA_VERSION;
    slot[1] := record.level;
    slot[2] := record.category;
    slot[3] := record.code;
    WriteWord(slot, 4, record.sequence);
    WriteWord(slot, 8, record.wallSec);
    WriteWord(slot, 12, record.atMs);
    WriteWord(slot, 16, ToU32(record.argument1));
    WriteWord(slot, 20, ToU32(record.argument2));
    slot[24] := ClampTextLen(record.textLen);
  }

  method SealSlot(sum: Checksum16, slot: array<u8>, record: AuditRecord)
    requires slot.Length == AUDIT_STORE_RECORD_BYTES
    requires slot[..TEXT_START] == FixedPart(record)
    requires forall k :: TEXT_START <= k < AUDIT_STORE_RECORD_BYTES ==>
      slot[k] == if k < TEXT_START + ClampTextLen(record.textLen) then record.text[k - TEXT_START] else 0
    modifies slot
    ensures slot[..] == Encode(sum, record)
  {
    hide FixedPart;
    assert slot[..CHECKED_BYTES] == Body(record) by {
      forall k | 0 <= k < CHECKED_BYTES
        ensures slot[k] == Body(record)[k]
      {
        if k < TEXT_START {
          assert slot[k] == slot[..TEXT_START][k];
        }
      }
    }
    var checksum := sum(slot[..CHECKED_BYTES]);
    slot[CHECKED_BYTES] := checksum % 0x100;
    slot[CHECKED_BYTES + 1] := checksum / 0x100;
    assert slot[..CHECKED_BYTES] == Body(record);
  }

  method ReadWord(slot: array<u8>, at: nat) returns (word: u32)
    requires at + 4 <= slot.Length
    ensures word == Word32(slot[at..at + 4])
  {
    ghost var b0: int, b1: int, b2: int, b3: int := slot[at], slot[at + 1], slot[at + 2], slot[at + 3];
    var total: int, weight: int := 0, 1;
    for i := 0 to 4
      invariant weight == if i == 0 then 1 else if i == 1 then 0x100 else if i == 2 then 0x1_0000
                          else if i == 3 then 0x100_0000 else 0x1_0000_0000
      invariant 0 <= total < weight
      invariant total == (if i > 0 then b0 else 0) + (if i > 1 then 0x100 * b1 else 0)
                         + (if i > 2 then 0x1_0000 * b2 else 0) + (if i > 3 then 0x100_0000 * b3 else 0)
    {
      total := total + weight * slot[at + i];
      weight := weight * 0x100;
    }
    word := total;
  }

  method SlotEmpty(slot: array<u8>) returns (empty: bool)
    requires slot.Length == AUDIT_STORE_RECORD_BYTES
    ensures empty == (slot[..] == EMPTY_SLOT)
  {
    for i := 0 to AUDIT_STORE_RECORD_BYTES
      invariant forall k :: 0 <= k < i ==> slot[k] == ERASED
    {
      if slot[i] != ERASED {
        assert slot[..][i] != EMPTY_SLOT[i];
        return false;
      }
    }
    assert slot[..] == EMPTY_SLOT;
    return true;
  }

  method DecodeRecord(sum: Checksum16, slot: array<u8>) returns (ok: bool, record: AuditRecord)
    requires slot.Length == AUDIT_STORE_RECORD_BYTES
    ensures Decode(sum, slot[..]) == if ok then Decoded(record) else NoRecord
  {
    record := ZERO_AUDIT_RECORD;
    var empty := SlotEmpty(slot);
    if empty {
      return false, record;
    }
    var sequence := ReadWord(slot, 4);
    var wallSec := ReadWord(slot, 8);
    var atMs := ReadWord(slot, 12);
    var arg1 := ReadWord(slot, 16);
    var arg2 := ReadWord(slot, 20);
    var textLen := slot[24];
    ghost var b := slot[..];
    assert b[4..8] == slot[4..8] && b[8..12] == slot[8..12] && b[12..16] == slot[12..16];
    assert b[16..20] == slot[16..20] && b[20..24] == slot[20..24];
    if slot[0] != AUDIT_STORE_SCHEMA_VERSION || textLen >= AUDIT_EXCERPT_BYTES {
      return false, record;
    }
    var text := ReadText(slot, textLen);
    assert slot[CHECKED_BYTES..] == b[CHECKED_BYTES..] && slot[..CHECKED_BYTES] == b[..CHECKED_BYTES];
    if Word16(slot[CHECKED_BYTES..]) != sum(slot[..CHECKED_BYTES]) {
      return false, record;
    }
    record := RawRecord(sequence, wallSec, atMs, ToI32(arg1), ToI32(arg2), slot[1], slot[2], slot[3], textLen, text);
    ok := sequence != 0;
  }

  method ReadText(slot: array<u8>, textLen: u8) returns (text: seq<u8>)
    requires slot.Length == AUDIT_STORE_RECORD_BYTES && textLen < AUDIT_EXCERPT_BYTES
    ensures text == Excerpt(slot[..][TEXT_START..TEXT_START + AUDIT_EXCERPT_BYTES], textLen)
  {
    text := NO_TEXT;
    for i := 0 to textLen
      invariant |text| == AUDIT_EXCERPT_BYTES
      invariant forall k :: 0 <= k < AUDIT_EXCERPT_BYTES ==> text[k] == if k < i then slot[TEXT_START + k] else 0
    {
      text := text[i := slot[TEXT_START + i]];
    }
  }
}
