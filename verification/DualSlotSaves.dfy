// A save that writes a whole slot in order, its header first: what a cut leaves,
// and how far the checksum alone keeps a half-written slot from being loaded.
module DualSlotSaves {
  import opened Bytes
  import opened NvsDualSlot
  import opened HistoryTypes
  import opened HistoryRing
  import opened FlashIo
  import opened DualSlotLog

  // The checksum tells these two byte strings apart, if they differ.
  ghost predicate Tells(crc: Checksum, a: seq<u8>, b: seq<u8>) {
    crc(a) == crc(b) ==> a == b
  }

  function CountOf(b: seq<u8>): u16
    requires |b| == STORE_BYTES
  {
    Word16(b[16..18])
  }

  // Where a slot's header and counted records end.
  function CountedBytes(b: seq<u8>): nat
    requires |b| == STORE_BYTES
  {
    HEADER_BYTES + RECORD_BYTES * CountOf(b)
  }

  // ----- what a stored checksum vouches for -----

  predicate SameListing(s: HistoryStore, t: HistoryStore) {
    s.header == t.header && s.header.count <= HISTORY_CAPACITY
    && s.records[..s.header.count] == t.records[..s.header.count]
  }

  lemma SliceOfPrefix(b: seq<u8>, c: seq<u8>, n: nat, from: nat, to: nat)
    requires from <= to <= n <= |b| && n <= |c| && b[..n] == c[..n]
    ensures b[from..to] == c[from..to]
  {
    assert b[from..to] == b[..n][from..to];
    assert c[from..to] == c[..n][from..to];
  }

  // Equal bytes up to there are an equal listing.
  lemma PrefixIsListing(b: seq<u8>, c: seq<u8>)
    requires |b| == STORE_BYTES == |c| && CountOf(b) <= HISTORY_CAPACITY
    requires b[..CountedBytes(b)] == c[..CountedBytes(b)]
    ensures SameListing(Decode(b), Decode(c))
  {
    hide DecodeHeader, DecodeRecord, Word16;
    var n := CountedBytes(b);
    SliceOfPrefix(b, c, n, 0, HEADER_BYTES);
    HeaderFields(b);
    forall i | 0 <= i < CountOf(b)
      ensures Decode(b).records[i] == Decode(c).records[i]
    {
      SliceOfPrefix(b, c, n, HEADER_BYTES + RECORD_BYTES * i, HEADER_BYTES + RECORD_BYTES * (i + 1));
    }
  }

  lemma CoveredIsPrefix(b: seq<u8>, c: seq<u8>)
    requires |b| == STORE_BYTES == |c| && CountOf(b) <= HISTORY_CAPACITY && CountOf(c) <= HISTORY_CAPACITY
    requires Covered(b) == Covered(c) && b[20..24] == c[20..24]
    ensures CountOf(b) == CountOf(c) && b[..CountedBytes(b)] == c[..CountedBytes(b)]
  {
    hide Word16;
    assert Covered(b)[..20] == b[..20] && Covered(c)[..20] == c[..20];
    SliceOfPrefix(b, c, 20, 16, 18);
    assert Covered(b)[20..] == b[24..CountedBytes(b)] && Covered(c)[20..] == c[24..CountedBytes(b)];
    assert b[..CountedBytes(b)] == b[..20] + b[20..24] + b[24..CountedBytes(b)];
    assert c[..CountedBytes(b)] == c[..20] + c[20..24] + c[24..CountedBytes(b)];
  }

  lemma PrefixIsCovered(b: seq<u8>, c: seq<u8>)
    requires |b| == STORE_BYTES == |c| && CountOf(b) <= HISTORY_CAPACITY
    requires b[..CountedBytes(b)] == c[..CountedBytes(b)]
    ensures CountOf(c) == CountOf(b) && Covered(b) == Covered(c)
  {
    hide Word16;
    SliceOfPrefix(b, c, CountedBytes(b), 16, 18);
    SliceOfPrefix(b, c, CountedBytes(b), 0, 20);
    SliceOfPrefix(b, c, CountedBytes(b), 24, CountedBytes(b));
  }

  lemma SameWord(a: seq<u8>, b: seq<u8>)
    requires |a| == 4 == |b| && Word32(a) == Word32(b)
    ensures a == b
  {
    Le32OfWord32(a);
    Le32OfWord32(b);
  }

  // Under one stored checksum there is one header and one list of records.
  lemma SameChecksumSameListing(crc: Checksum, b: seq<u8>, c: seq<u8>)
    requires |b| == STORE_BYTES == |c| && Valid(crc, Decode(b)) && Valid(crc, Decode(c))
    requires Decode(b).header.checksum == Decode(c).header.checksum
    requires CountOf(b) <= HISTORY_CAPACITY && CountOf(c) <= HISTORY_CAPACITY ==> Tells(crc, Covered(b), Covered(c))
    ensures SameListing(Decode(b), Decode(c))
  {
    hide Valid, Decode, Covered, Word16, Word32;
    ValidExactly(crc, b);
    ValidExactly(crc, c);
    HeaderFields(b);
    HeaderFields(c);
    SameWord(b[20..24], c[20..24]);
    CoveredIsPrefix(b, c);
    PrefixIsListing(b, c);
  }

  // ----- a slot with a good header -----

  // Beside a valid slot, one with the same header is valid exactly if the
  // checksum takes its counted records for the other's.
  lemma GoodHeaderExactly(crc: Checksum, b: seq<u8>, c: seq<u8>)
    requires |b| == STORE_BYTES == |c| && Valid(crc, Decode(b)) && b[..HEADER_BYTES] == c[..HEADER_BYTES]
    ensures CountOf(c) == CountOf(b) <= HISTORY_CAPACITY
    ensures Valid(crc, Decode(c)) <==> crc(Covered(c)) == crc(Covered(b))
  {
    hide Valid, Decode, Covered, Word16, Word32;
    ValidExactly(crc, b);
    ValidExactly(crc, c);
    SliceOfPrefix(b, c, HEADER_BYTES, 0, 4);
    SliceOfPrefix(b, c, HEADER_BYTES, 4, 6);
    SliceOfPrefix(b, c, HEADER_BYTES, 6, 8);
    SliceOfPrefix(b, c, HEADER_BYTES, 16, 18);
    SliceOfPrefix(b, c, HEADER_BYTES, 18, 20);
    SliceOfPrefix(b, c, HEADER_BYTES, 20, 24);
  }

  // So a slot with any counted record changed is refused.
  lemma ChangedRecordIsRefused(crc: Checksum, b: seq<u8>, c: seq<u8>, k: nat)
    requires |b| == STORE_BYTES == |c| && Valid(crc, Decode(b)) && b[..HEADER_BYTES] == c[..HEADER_BYTES]
    requires k < Decode(b).header.count && Decode(c).records[k] != Decode(b).records[k]
    requires CountOf(b) <= HISTORY_CAPACITY && CountOf(c) <= HISTORY_CAPACITY ==> Tells(crc, Covered(c), Covered(b))
    ensures !Valid(crc, Decode(c))
  {
    hide Valid, Decode, Covered, Word16, SameListing;
    GoodHeaderExactly(crc, b, c);
    SliceOfPrefix(b, c, HEADER_BYTES, 20, 24);
    HeaderFields(b);
    HeaderFields(c);
    OtherListing(Decode(c), Decode(b), k);
    if Valid(crc, Decode(c)) {
      SameChecksumSameListing(crc, c, b);
    }
  }

  lemma OtherListing(s: HistoryStore, t: HistoryStore, k: nat)
    requires k < t.header.count <= HISTORY_CAPACITY
    requires s.records[k] != t.records[k]
    ensures !SameListing(s, t)
  {
    if SameListing(s, t) {
      ListedAlike(s, t, k);
    }
  }

  lemma ListedAlike(s: HistoryStore, t: HistoryStore, k: nat)
    requires SameListing(s, t) && k < t.header.count
    ensures s.records[k] == t.records[k]
  {
    assert s.records[..s.header.count][k] == t.records[..s.header.count][k];
  }

  // ----- a save cut short -----

  const SAVE_SECTORS: nat := 4
  const SAVE_STEPS: nat := 20

  // The bytes of the store a save has written after n operations.
  function Written(n: nat): (w: nat)
    ensures w <= STORE_BYTES
  {
    if n <= SAVE_SECTORS then 0
    else if (n - SAVE_SECTORS) * FLASH_IO_CHUNK_BYTES < STORE_BYTES then (n - SAVE_SECTORS) * FLASH_IO_CHUNK_BYTES
    else STORE_BYTES
  }

  function SavedCell(before: seq<u8>, image: seq<u8>, n: nat, i: nat): u8
    requires |before| == SLOT_BYTES && |image| == STORE_BYTES && i < SLOT_BYTES
  {
    if i < Written(n) then image[i] else if i < n * FLASH_IO_SECTOR_BYTES then ERASED else before[i]
  }

  // The slot after the first n operations of a save: its sectors erased one by
  // one, then the store from its header on, a chunk at a time.
  function SaveCut(before: seq<u8>, image: seq<u8>, n: nat): (b: seq<u8>)
    requires |before| == SLOT_BYTES && |image| == STORE_BYTES
    ensures |b| == SLOT_BYTES
  {
    seq(SLOT_BYTES, i requires 0 <= i < SLOT_BYTES => SavedCell(before, image, n, i))
  }

  // After the last one it is the slot a completed save leaves.
  lemma SaveEnds(before: seq<u8>, image: seq<u8>, n: nat)
    requires |before| == SLOT_BYTES && |image| == STORE_BYTES
    ensures n >= SAVE_STEPS ==> SaveCut(before, image, n) == Replaced(before, image)
    ensures n == 0 ==> SaveCut(before, image, n) == before
  {
  }

  // The header and every counted record have reached the slot.
  predicate Arrived(before: seq<u8>, image: seq<u8>, n: nat)
    requires |before| == SLOT_BYTES && |image| == STORE_BYTES && CountOf(image) <= HISTORY_CAPACITY
  {
    SaveCut(before, image, n)[..CountedBytes(image)] == image[..CountedBytes(image)]
  }

  // They have once that many bytes are written.
  lemma ArrivesByThen(before: seq<u8>, image: seq<u8>, n: nat)
    requires |before| == SLOT_BYTES && |image| == STORE_BYTES && CountOf(image) <= HISTORY_CAPACITY
    requires Written(n) >= CountedBytes(image)
    ensures Arrived(before, image, n)
  {
    hide Word16;
  }

  // A cut save's slot is valid exactly if everything counted has arrived.
  lemma CutSlotExactly(crc: Checksum, before: seq<u8>, store: HistoryStore, n: nat)
    requires |before| == SLOT_BYTES && Valid(crc, store) && n > 0
    ensures CountOf(Encode(store)) <= HISTORY_CAPACITY
    requires var b := SaveCut(before, Encode(store), n)[..STORE_BYTES];
             CountOf(b) <= HISTORY_CAPACITY && CountOf(Encode(store)) <= HISTORY_CAPACITY
             ==> Tells(crc, Covered(b), Covered(Encode(store)))
    ensures var b := SaveCut(before, Encode(store), n)[..STORE_BYTES];
            && (Valid(crc, Decode(b)) <==> Arrived(before, Encode(store), n))
            && (Arrived(before, Encode(store), n) ==> SameListing(store, Decode(b)))
  {
    hide Valid, Decode, Encode, Covered, Word16;
    var image := Encode(store);
    var b := SaveCut(before, image, n)[..STORE_BYTES];
    StoreRoundTrip(store);
    ValidExactly(crc, image);
    if n <= SAVE_SECTORS {
      assert b[..HEADER_BYTES] == Blank(HEADER_BYTES);
      ErasedHeaderIsInvalid(crc, b);
      if Arrived(before, image, n) {
        SliceOfPrefix(image, b, CountedBytes(image), 0, HEADER_BYTES);
        ErasedHeaderIsInvalid(crc, image);
      }
    } else {
      assert b[..HEADER_BYTES] == image[..HEADER_BYTES];
      GoodHeaderExactly(crc, image, b);
      assert b[..CountedBytes(image)] == SaveCut(before, image, n)[..CountedBytes(image)];
      if Arrived(before, image, n) {
        PrefixIsCovered(image, b);
        PrefixIsListing(image, b);
      } else if Covered(b) == Covered(image) {
        SliceOfPrefix(image, b, HEADER_BYTES, 20, 24);
        CoveredIsPrefix(image, b);
      }
    }
  }

  // The flash a save of `store` into the inactive slot leaves when cut.
  function CutFlash(crc: Checksum, flash: seq<u8>, store: HistoryStore, n: nat): (f: seq<u8>)
    requires FlashSized(flash)
    ensures FlashSized(f)
  {
    var target := 1 - Load(crc, flash).activeSlot;
    WithSlot(flash, target * SLOT_BYTES, SaveCut(SlotAt(flash, target), Encode(store), n))
  }

  // The bytes at which the checksum has to tell the half-written slot apart.
  ghost predicate TellsCut(crc: Checksum, flash: seq<u8>, store: HistoryStore, n: nat)
    requires FlashSized(flash)
  {
    var b := SaveCut(SlotAt(flash, 1 - Load(crc, flash).activeSlot), Encode(store), n)[..STORE_BYTES];
    CountOf(b) <= HISTORY_CAPACITY && CountOf(Encode(store)) <= HISTORY_CAPACITY
    ==> Tells(crc, Covered(b), Covered(Encode(store)))
  }

  // Cut anywhere, a save leaves the load as it was, or everything the new store
  // lists has arrived and the slot lists exactly that.
  lemma SaveCutKeepsLoad(crc: Checksum, flash: seq<u8>, store: HistoryStore, n: nat)
    requires FlashSized(flash) && Valid(crc, store) && TellsCut(crc, flash, store, n)
    ensures CountOf(Encode(store)) <= HISTORY_CAPACITY
    ensures var target := 1 - Load(crc, flash).activeSlot; var cut := CutFlash(crc, flash, store, n);
            if n > 0 && Arrived(SlotAt(flash, target), Encode(store), n)
            then SlotValid(crc, cut, target) && SameListing(store, SlotStore(cut, target))
            else Load(crc, cut) == Load(crc, flash)
  {
    hide Valid, Decode, Encode, Covered, SaveCut, SlotAt, WithSlot, CountOf, Arrived, SameListing, Load;
    var target := 1 - Load(crc, flash).activeSlot;
    var before := SlotAt(flash, target);
    OtherSlotUntouched(flash, target, SaveCut(before, Encode(store), n));
    EncodedCount(crc, store);
    if n == 0 {
      SaveEnds(before, Encode(store), 0);
      SameFlash(flash, target);
    } else {
      CutSlotExactly(crc, before, store, n);
      if !Arrived(before, Encode(store), n) {
        InvalidOtherSlot(crc, flash, CutFlash(crc, flash, store, n));
      }
    }
  }

  lemma EncodedCount(crc: Checksum, store: HistoryStore)
    requires Valid(crc, store)
    ensures CountOf(Encode(store)) <= HISTORY_CAPACITY
  {
    hide Encode, Decode, Word16;
    StoreRoundTrip(store);
    HeaderFields(Encode(store));
  }

  lemma SameFlash(flash: seq<u8>, slot: nat)
    requires FlashSized(flash) && slot < SLOT_COUNT
    ensures WithSlot(flash, slot * SLOT_BYTES, SlotAt(flash, slot)) == flash
  {
  }

  // A slot whose counted part has arrived wins the next load exactly as a whole
  // one does.
  lemma ArrivedWinsExactly(crc: Checksum, flash: seq<u8>, store: HistoryStore, n: nat)
    requires FlashSized(flash) && Valid(crc, store) && TellsCut(crc, flash, store, n) && n > 0
    requires CountOf(Encode(store)) <= HISTORY_CAPACITY
    requires Arrived(SlotAt(flash, 1 - Load(crc, flash).activeSlot), Encode(store), n)
    requires Load(crc, flash).store.header.generation <= store.header.generation
    ensures var before := Load(crc, flash);
            var target := 1 - before.activeSlot;
            var step := store.header.generation - before.store.header.generation;
            Load(crc, CutFlash(crc, flash, store, n)).activeSlot == target
            <==> (!SlotValid(crc, flash, before.activeSlot)
                  || (if target == 1 then 0 < step < 0x8000_0000 else step <= 0x8000_0000))
  {
    hide Valid, Decode, Encode, Covered, SaveCut, WithSlot, CountOf, Arrived, TellsCut;
    SaveCutKeepsLoad(crc, flash, store, n);
    var active := Load(crc, flash).activeSlot;
    var cut := CutFlash(crc, flash, store, n);
    OtherSlotUntouched(flash, 1 - active, SaveCut(SlotAt(flash, 1 - active), Encode(store), n));
    HeadersFirstEqualsValidatingBoth(crc, cut);
    HeadersFirstEqualsValidatingBoth(crc, flash);
    if SlotValid(crc, flash, active) {
      SerialOrder(Generation(flash, active), store.header.generation);
    }
  }
}
