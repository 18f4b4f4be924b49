// What faults around a load or an immediate save leave behind: reads that fail,
// a lock that is busy, and the roll-back of an append.
module DualSlotFaults {
  import opened Bytes
  import opened NvsDualSlot
  import opened HistoryTypes
  import opened HistoryRing
  import opened DualSlotLog

  // ----- reads that fail -----

  // Which of a load's reads succeed: the two headers, then the whole slots.
  datatype Reads = Reads(firstHeader: bool, secondHeader: bool, firstSlot: bool, secondSlot: bool)

  const ALL_READS := Reads(true, true, true, true)

  predicate HeaderReads(r: Reads, slot: nat) {
    if slot == 0 then r.firstHeader else r.secondHeader
  }

  predicate SlotReads(r: Reads, slot: nat) {
    if slot == 0 then r.firstSlot else r.secondSlot
  }

  function NewerSlot(flash: seq<u8>, r: Reads): (slot: nat)
    requires FlashSized(flash)
    ensures slot < SLOT_COUNT
  {
    if ChooseNewerRevision(r.firstHeader, Generation(flash, 0), r.secondHeader, Generation(flash, 1)) == SECOND
    then 1 else 0
  }

  predicate Loads(crc: Checksum, flash: seq<u8>, r: Reads, slot: nat)
    requires FlashSized(flash) && slot < SLOT_COUNT
  {
    SlotReads(r, slot) && SlotValid(crc, flash, slot)
  }

  function LoadReading(crc: Checksum, flash: seq<u8>, r: Reads): (l: Loaded)
    requires FlashSized(flash)
    ensures l.activeSlot < SLOT_COUNT && Shaped(l.store)
  {
    var newer := NewerSlot(flash, r);
    if Loads(crc, flash, r, newer) then Loaded(SlotStore(flash, newer), newer)
    else if Loads(crc, flash, r, 1 - newer) then Loaded(SlotStore(flash, 1 - newer), 1 - newer)
    else Loaded(Reset(crc), 0)
  }

  // A load whose every read succeeds is the load of the crash theorems; with
  // failing reads it is the same as long as the slot that load picks is read.
  lemma LoadSurvivesReadErrors(crc: Checksum, flash: seq<u8>, r: Reads)
    requires FlashSized(flash)
    requires var active := Load(crc, flash).activeSlot;
             SlotValid(crc, flash, active) ==> HeaderReads(r, active) && SlotReads(r, active)
    ensures LoadReading(crc, flash, r) == Load(crc, flash)
  {
    HeadersFirstEqualsValidatingBoth(crc, flash);
  }

  // Whatever fails, a load takes a valid slot or the empty store.
  lemma LoadTakesAValidSlot(crc: Checksum, flash: seq<u8>, r: Reads)
    requires FlashSized(flash)
    ensures var l := LoadReading(crc, flash, r);
            || l == Loaded(Reset(crc), 0)
            || (SlotValid(crc, flash, l.activeSlot) && l.store == SlotStore(flash, l.activeSlot))
  {
  }

  // ----- loading over a live log -----

  datatype Reload = Reload(lockTaken: bool, reading: Reads)

  predicate ReloadSucceeds(flash: seq<u8>, reload: Reload) {
    reload.lockTaken && |flash| >= SLOT_COUNT * SLOT_BYTES
  }

  // A busy lock keeps a live store and marks it for a retry; only a store that
  // was never loaded takes the empty default then.
  function Reloaded(crc: Checksum, flash: seq<u8>, log: Log, reload: Reload): Log {
    if !reload.lockTaken && log.store.header.generation != 0 then log.(dirty := true)
    else if !ReloadSucceeds(flash, reload) then log.(store := Reset(crc), dirty := false)
    else
      var l := LoadReading(crc, flash, reload.reading);
      log.(store := l.store, activeSlot := l.activeSlot, dirty := false)
  }

  // ----- rolling an append back -----

  // Puts the overwritten record and the three ring fields back as they were.
  function RolledBack(before: HistoryStore, after: HistoryStore): HistoryStore
    requires Shaped(before)
  {
    var h := before.header;
    RawStore(after.header.(writeIndex := h.writeIndex, count := h.count, nextRecordId := h.nextRecordId),
             after.records[h.writeIndex := before.records[h.writeIndex]])
  }

  // Of an append whose save never got the lock, nothing remains.
  lemma RollbackUndoesAppend(s: HistoryStore, record: HistoryRecord)
    requires Shaped(s)
    ensures RolledBack(s, Appended(s, record)) == s
  {
    assert RolledBack(s, Appended(s, record)).records == s.records;
  }

  // The ring starts at slot 0, and the next write does not disturb that.
  predicate Packed(h: HistoryHeader) {
    h.count == 0 || h.writeIndex == if h.count < HISTORY_CAPACITY then h.count else HISTORY_CAPACITY - 1
  }

  // The records of an append's store once a save has packed them.
  lemma PackedAppend(crc: Checksum, s: HistoryStore, record: HistoryRecord)
    requires Shaped(s)
    ensures Shaped(Appended(s, record))
    ensures var records := Prepared(crc, Appended(s, record)).records;
            var q := Newest(Contents(s) + [record.(id := s.header.nextRecordId)]);
            forall i :: 0 <= i < HISTORY_CAPACITY ==> records[i] == if i < |q| then q[i] else ZERO_RECORD
  {
    AppendContents(s, record);
    CompactKeepsContents(Appended(s, record));
  }

  // What the roll-back of a packed append lists at position n.
  lemma RolledBackAt(crc: Checksum, s: HistoryStore, record: HistoryRecord, n: nat)
    requires Shaped(s) && n < s.header.count
    ensures Shaped(Appended(s, record)) && Shaped(RolledBack(s, Prepared(crc, Appended(s, record))))
    ensures var q := Contents(s);
            var appended := Newest(q + [record.(id := s.header.nextRecordId)]);
            var k := RingSlot(s.header, n);
            Contents(RolledBack(s, Prepared(crc, Appended(s, record))))[n]
            == if k == s.header.writeIndex then q[0] else if k < |appended| then appended[k] else ZERO_RECORD
  {
    hide Prepared, Newest;
    PackedAppend(crc, s, record);
  }

  // Once a save has packed the records, rolling the append back restores the
  // listing exactly if the ring was packed before.
  lemma RollbackAfterSaveExactly(crc: Checksum, s: HistoryStore, record: HistoryRecord)
    requires Shaped(s) && IdsFresh(s)
    ensures Shaped(Appended(s, record)) && Shaped(RolledBack(s, Prepared(crc, Appended(s, record))))
    ensures Contents(RolledBack(s, Prepared(crc, Appended(s, record)))) == Contents(s) <==> Packed(s.header)
  {
    hide Prepared, RolledBack, Contents;
    var q, count := Contents(s), s.header.count;
    RolledBackShape(crc, s, record);
    if count > 0 {
      forall n | 0 <= n < count && Packed(s.header)
        ensures Contents(RolledBack(s, Prepared(crc, Appended(s, record))))[n] == q[n]
      {
        RolledBackAt(crc, s, record, n);
      }
      var probe := if count < HISTORY_CAPACITY then 0 else 1;
      RolledBackAt(crc, s, record, probe);
    }
  }

  // A full ring as a save leaves it.
  function FullRing(crc: Checksum): HistoryStore {
    RawStore(Reset(crc).header.(count := HISTORY_CAPACITY, nextRecordId := HISTORY_CAPACITY + 1),
             seq(HISTORY_CAPACITY, i requires 0 <= i < HISTORY_CAPACITY => ZERO_RECORD.(id := i + 1)))
  }

  // It does not come through such a roll-back.
  lemma FullRingIsScrambled(crc: Checksum, record: HistoryRecord)
    ensures var s := FullRing(crc);
            && Shaped(s) && IdsFresh(s) && Shaped(Appended(s, record))
            && Shaped(RolledBack(s, Prepared(crc, Appended(s, record))))
            && Contents(RolledBack(s, Prepared(crc, Appended(s, record)))) != Contents(s)
  {
    hide Prepared, RolledBack, Appended;
    RollbackAfterSaveExactly(crc, FullRing(crc), record);
  }

  lemma RolledBackShape(crc: Checksum, s: HistoryStore, record: HistoryRecord)
    requires Shaped(s)
    ensures Shaped(Appended(s, record)) && Shaped(RolledBack(s, Prepared(crc, Appended(s, record))))
    ensures RolledBack(s, Prepared(crc, Appended(s, record))).header.count == s.header.count
  {
    PackedAppend(crc, s, record);
  }
}
