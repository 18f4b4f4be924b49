// The packed formats in bytes: where each field of a history store and of an
// audit slot lies, least significant byte first, and which slots are records.
module PackedLayouts {
  import opened Bytes
  import H = HistoryTypes
  import A = AuditCodec

  // The number some bytes stand for, least significant first.
  function ValueOf(b: seq<u8>): (v: nat) {
    if b == [] then 0
    else
      var low: int := b[0];
      low + 0x100 * ValueOf(b[1..])
  }

  lemma ValueOfTwo(b: seq<u8>)
    requires |b| == 2
    ensures Word16(b) == ValueOf(b)
  {
    assert ValueOf(b[1..]) == b[1] by {
      assert b[1..][1..] == [];
    }
  }

  lemma ValueOfFour(b: seq<u8>)
    requires |b| == 4
    ensures Word32(b) == ValueOf(b)
  {
    ValueOfTwo(b[2..]);
    assert b[1..][1..] == b[2..];
    assert b[..2][0] == b[0] && b[..2][1] == b[1];
  }

  lemma StoredValue(x: u32)
    ensures ValueOf(Le32(x)) == x
  {
    Word32OfLe32(x);
    ValueOfFour(Le32(x));
  }

  lemma StoredValue16(x: u16)
    ensures ValueOf(Le16(x)) == x
  {
    ValueOfTwo(Le16(x));
  }

  // ----- a history store -----

  lemma HistoryHeaderLayout(b: seq<u8>)
    requires |b| == 16024
    ensures var h := H.Decode(b).header;
            && h.magic == ValueOf(b[0..4]) && h.schemaVersion == ValueOf(b[4..6]) && h.recordSize == ValueOf(b[6..8])
            && h.generation == ValueOf(b[8..12]) && h.nextRecordId == ValueOf(b[12..16])
            && h.count == ValueOf(b[16..18]) && h.writeIndex == ValueOf(b[18..20]) && h.checksum == ValueOf(b[20..24])
  {
    hide Word16, Word32, ValueOf;
    var h := b[..24];
    assert h[0..4] == b[0..4] && h[4..6] == b[4..6] && h[6..8] == b[6..8] && h[8..12] == b[8..12];
    assert h[12..16] == b[12..16] && h[16..18] == b[16..18] && h[18..20] == b[18..20] && h[20..24] == b[20..24];
    ValueOfFour(b[0..4]);
    ValueOfTwo(b[4..6]);
    ValueOfTwo(b[6..8]);
    ValueOfFour(b[8..12]);
    ValueOfFour(b[12..16]);
    ValueOfTwo(b[16..18]);
    ValueOfTwo(b[18..20]);
    ValueOfFour(b[20..24]);
  }

  lemma PartOfPart(b: seq<u8>, at: nat, from: nat, to: nat)
    requires at + 16 <= |b| && from <= to <= 16
    ensures b[at..at + 16][from..to] == b[at + from..at + to]
  {
    var whole, part := b[at..at + 16], b[at + from..at + to];
    forall i | 0 <= i < |part|
      ensures whole[from..to][i] == part[i]
    {
      assert whole[from + i] == b[at + from + i];
    }
  }

  lemma HistoryRecordLayout(b: seq<u8>, i: nat)
    requires |b| == 16024 && i < 1000
    ensures var r := H.Decode(b).records[i]; var at := 24 + 16 * i;
            && r.id == ValueOf(b[at..at + 4]) && r.endedAtUnixSec == ValueOf(b[at + 4..at + 8])
            && r.endedAtLocalSec == ValueOf(b[at + 8..at + 12]) && r.durationDs == ValueOf(b[at + 12..at + 14])
            && r.kind == b[at + 14] && r.flags == b[at + 15]
  {
    hide Word16, Word32, ValueOf;
    var at := 24 + 16 * i;
    var r := b[at..at + 16];
    PartOfPart(b, at, 0, 4);
    PartOfPart(b, at, 4, 8);
    PartOfPart(b, at, 8, 12);
    PartOfPart(b, at, 12, 14);
    assert r[14] == b[at + 14] && r[15] == b[at + 15];
    ValueOfFour(r[0..4]);
    ValueOfFour(r[4..8]);
    ValueOfFour(r[8..12]);
    ValueOfTwo(r[12..14]);
  }

  // ----- an audit slot -----

  function Unsigned(x: int): int {
    if x < 0 then x + 0x1_0000_0000 else x
  }

  lemma AuditSlotLayout(sum: A.Checksum16, r: A.AuditRecord)
    ensures var b := A.Encode(sum, r); var n := if r.textLen <= 23 then r.textLen else 23;
            && b[0] == 0 && b[1] == r.level && b[2] == r.category && b[3] == r.code
            && ValueOf(b[4..8]) == r.sequence && ValueOf(b[8..12]) == r.wallSec && ValueOf(b[12..16]) == r.atMs
            && ValueOf(b[16..20]) == Unsigned(r.argument1) && ValueOf(b[20..24]) == Unsigned(r.argument2)
            && b[24] == n && b[25..25 + n] == r.text[..n]
            && (forall i :: 25 + n <= i < 62 ==> b[i] == 0) && ValueOf(b[62..]) == sum(b[..62])
  {
    hide Le32, Le16, ValueOf, A.FixedPart;
    var b := A.Encode(sum, r);
    A.EncodedSlices(sum, r);
    A.FixedPartWords(r);
    assert b[0] == b[..4][0] && b[1] == b[..4][1] && b[2] == b[..4][2] && b[3] == b[..4][3];
    StoredValue(r.sequence);
    StoredValue(r.wallSec);
    StoredValue(r.atMs);
    StoredValue(ToU32(r.argument1));
    StoredValue(ToU32(r.argument2));
    StoredValue16(sum(A.Body(r)));
    AuditPadding(sum, r);
  }

  lemma AuditPadding(sum: A.Checksum16, r: A.AuditRecord)
    ensures var b := A.Encode(sum, r); var n := if r.textLen <= 23 then r.textLen else 23;
            b[25..25 + n] == r.text[..n] && forall i :: 25 + n <= i < 62 ==> b[i] == 0
  {
    hide Le16, A.FixedPart;
    var b, n := A.Encode(sum, r), A.ClampTextLen(r.textLen);
    forall i | 0 <= i < 37
      ensures b[25 + i] == if i < n then r.text[i] else 0
    {
      assert b[25 + i] == A.Body(r)[25 + i];
    }
  }

  lemma SignedBack(x: u32)
    ensures ToU32(ToI32(x)) == x
  {
  }

  // The fixed part of what a slot decodes to is the slot's.
  lemma DecodedFixedPart(sum: A.Checksum16, b: A.Slot)
    requires A.HasRecord(sum, b)
    ensures A.FixedPart(A.Decode(sum, b).record) == b[..25]
  {
    hide Word32, Le32, ToI32, ToU32;
    Le32OfWord32(b[4..8]);
    Le32OfWord32(b[8..12]);
    Le32OfWord32(b[12..16]);
    Le32OfWord32(b[16..20]);
    Le32OfWord32(b[20..24]);
    SignedBack(Word32(b[16..20]));
    SignedBack(Word32(b[20..24]));
    assert b[..25] == [b[0], b[1], b[2], b[3]] + b[4..8] + b[8..12] + b[12..16] + b[16..20] + b[20..24] + [b[24]];
  }

  lemma DecodedBody(sum: A.Checksum16, b: A.Slot, i: nat)
    requires A.HasRecord(sum, b) && i < 62
    ensures A.Body(A.Decode(sum, b).record)[i] == if i < 25 + b[24] as int then b[i] else 0
  {
    hide A.FixedPart, Word32, Word16;
    var r := A.Decode(sum, b).record;
    DecodedFixedPart(sum, b);
    if i < 25 {
      assert A.Body(r)[i] == A.FixedPart(r)[i] == b[..25][i];
    } else {
      assert A.ClampTextLen(r.textLen) == b[24];
      assert A.Body(r)[25 + (i - 25)] == if i - 25 < b[24] then r.text[i - 25] else 0;
      if i - 25 < b[24] {
        assert r.text[i - 25] == b[25..49][i - 25] == b[i];
      }
    }
  }

  // A slot with nothing behind its excerpt is what encoding the record it
  // decodes to gives.
  lemma DecodedIsEncoded(sum: A.Checksum16, b: A.Slot)
    requires A.HasRecord(sum, b)
    ensures var r, n: int := A.Decode(sum, b).record, b[24];
            && A.IsNormal(r) && r.sequence != 0
            && (A.Encode(sum, r) == b <==> forall i :: 25 + n <= i < 62 ==> b[i] == 0)
  {
    hide Word32, Word16, Le16, A.FixedPart;
    var r := A.Decode(sum, b).record;
    DecodedFixedPart(sum, b);
    AuditPadding(sum, r);
    var n: int := b[24];
    if forall i :: 25 + n <= i < 62 ==> b[i] == 0 {
      forall i | 0 <= i < 62
        ensures A.Body(r)[i] == b[i]
      {
        DecodedBody(sum, b, i);
      }
      assert A.Body(r) == b[..62];
      Le16OfWord16(b[62..]);
      assert b == b[..62] + b[62..];
    }
  }

  // Which slots are records: of those with nothing behind the excerpt, exactly
  // the encodings of records with a sequence.
  lemma RecordsExactly(sum: A.Checksum16, b: A.Slot)
    requires var n: int := b[24]; forall i :: 25 + n <= i < 62 ==> b[i] == 0
    ensures A.Decode(sum, b).Decoded?
       <==> exists r: A.AuditRecord :: A.IsNormal(r) && r.sequence != 0 && A.Encode(sum, r) == b
  {
    hide A.HasRecord, A.Encode, A.Normal;
    if A.Decode(sum, b).Decoded? {
      DecodedIsEncoded(sum, b);
    }
    forall r: A.AuditRecord | r.sequence != 0 && A.Encode(sum, r) == b
      ensures A.Decode(sum, b).Decoded?
    {
      A.SlotRoundTrip(sum, r);
    }
  }
}
