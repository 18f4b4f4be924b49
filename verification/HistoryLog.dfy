// The activation-history log: a RAM ring with deferred dual-slot persistence.
module HistoryLogModule {
  import opened Bytes
  import opened HistoryTypes
  import opened HistoryRing
  import opened FlashIo
  import opened DualSlotFaults
  import opened DualSlotLog

  const HISTORY_PAGE_MAX: nat := 120

  // How an immediate save ends: the lock times out before anything is touched,
  // the lock is refused without a timeout (forbidden task, no scratch memory),
  // or the slot rewrite fails part way and leaves `torn` in the target slot.
  datatype SaveFault = NoSaveFault | SaveLockTimeout | SaveLockRefused | SaveIoError(torn: seq<u8>)

  // What a save leaves of the store: it is sealed once the lock is taken.
  function AfterSave(crc: Checksum, store: HistoryStore, fault: SaveFault): HistoryStore
    requires Shaped(store)
  {
    if fault.SaveLockTimeout? || fault.SaveLockRefused? then store else Prepared(crc, store)
  }

  // The empty store at a given generation.
  function Emptied(crc: Checksum, generation: u32): (s: HistoryStore)
    ensures Shaped(s)
  {
    RawStore(Reset(crc).header.(generation := generation), Reset(crc).records)
  }

  ghost predicate SaveFaultSized(fault: SaveFault) {
    fault.SaveIoError? ==> |fault.torn| == SLOT_BYTES
  }

  function ClampPageLimit(limit: nat): (r: nat)
    ensures 1 <= r <= HISTORY_PAGE_MAX
  {
    if limit < 1 then 1 else if limit > HISTORY_PAGE_MAX then HISTORY_PAGE_MAX else limit
  }

  // A page grows by one record when the listing does and the window reaches it.
  lemma WindowExtends(l: seq<HistoryRecord>, record: HistoryRecord, offset: nat, limit: nat)
    ensures Window(l + [record], offset, limit)
         == if |l| >= offset && |Window(l, offset, limit)| < limit
            then Window(l, offset, limit) + [record] else Window(l, offset, limit)
  {
    if offset < |l| && offset + limit < |l| {
      assert (l + [record])[offset..offset + limit] == l[offset..offset + limit];
    } else if offset <= |l| {
      assert (l + [record])[offset..] == l[offset..] + [record];
      if offset + limit <= |l| {
        assert (l + [record])[offset..offset + limit] == l[offset..];
      }
    }
  }

  class HistoryLog {
    const crc: Checksum
    const records: array<HistoryRecord>
    const tx: FlashStoreTransaction
    var header: HistoryHeader
    var activeSlot: nat
    var dirty: bool

    ghost predicate Sound()
      reads this, records, tx
    {
      records.Length == HISTORY_CAPACITY && LogShaped(View())
    }

    function Store(): HistoryStore
      requires records.Length == HISTORY_CAPACITY
      reads this, records
    {
      RawStore(header, records[..])
    }

    function View(): Log
      requires records.Length == HISTORY_CAPACITY
      reads this, records, tx
    {
      Log(Store(), tx.View(), activeSlot, dirty)
    }

    constructor (crc: Checksum)
      ensures Sound() && fresh(records) && fresh(tx)
      ensures this.crc == crc && Contents(Store()) == [] && !dirty && activeSlot == 0
    {
      this.crc := crc;
      var zeros := new HistoryRecord[HISTORY_CAPACITY](i => ZERO_RECORD);
      records := zeros;
      tx := new FlashStoreTransaction();
      header := HistoryHeader(0, 0, 0, 0, 0, 0, 0, 0);
      activeSlot, dirty := 0, false;
    }

    // ----- compaction in place -----

    // Reverses records[first..last).
    method Reverse(first: nat, last: nat)
      requires first <= last <= records.Length
      modifies records
      ensures records[..] == Flipped(old(records[..]), first, last)
    {
      var low, high := first, last;
      while low + 1 < high
        invariant first <= low && low <= high + 1 && low + high == first + last
        invariant forall k :: 0 <= k < records.Length ==>
          records[k] == if first <= k < low || high <= k < last
                        then old(records[first + last - 1 - k]) else old(records[k])
        decreases high - low
      {
        high := high - 1;
        records[low], records[high] := records[high], records[low];
        low := low + 1;
      }
      assert forall k :: 0 <= k < records.Length ==> records[..][k] == Flipped(old(records[..]), first, last)[k];
    }

    // Rotation by three reversals, without a second buffer.
    method RotateLeft(shift: nat)
      requires records.Length == HISTORY_CAPACITY && shift < HISTORY_CAPACITY
      modifies records
      ensures forall k :: 0 <= k < HISTORY_CAPACITY ==>
        records[k] == old(records[if k + shift < HISTORY_CAPACITY then k + shift else k + shift - HISTORY_CAPACITY])
    {
      ghost var a := records[..];
      Reverse(0, shift);
      Reverse(shift, HISTORY_CAPACITY);
      Reverse(0, HISTORY_CAPACITY);
      FlipsRotate(a, shift);
    }

    method ClearFrom(first: nat)
      requires first <= records.Length
      modifies records
      ensures forall k :: 0 <= k < records.Length ==>
        records[k] == if k < first then old(records[k]) else ZERO_RECORD
    {
      forall k | first <= k < records.Length {
        records[k] := ZERO_RECORD;
      }
    }

    // Brings the oldest record to position 0.
    method RotateToOldest()
      requires Sound() && header.count > 0
      modifies records
      ensures forall k :: 0 <= k < HISTORY_CAPACITY ==> records[k] == old(records[RingSlot(header, k)])
    {
      var shift := (header.writeIndex + HISTORY_CAPACITY - header.count) % HISTORY_CAPACITY;
      RingSlotIsModular(header, 0);
      forall k | 0 <= k < HISTORY_CAPACITY
        ensures RingSlot(header, k) == if k + shift < HISTORY_CAPACITY then k + shift else k + shift - HISTORY_CAPACITY
      {
        RingSlotFromOldest(header, k);
      }
      if shift != 0 {
        RotateLeft(shift);
      }
    }

    // Rotates the ring so the live records occupy records[0..count), oldest
    // first, and clears the rest.
    method CompactStore()
      requires Sound()
      modifies this`header, records
      ensures Store() == Compact(old(Store()))
    {
      if header.count == 0 {
        ClearFrom(0);
        header := header.(writeIndex := 0);
      } else {
        RotateToOldest();
        ClearFrom(header.count);
        header := header.(writeIndex := header.count % HISTORY_CAPACITY);
      }
      assert records[..] == Compact(old(Store())).records;
    }

    // Compacts, advances the generation and seals the header.
    method PrepareStore()
      requires Sound()
      modifies this`header, records
      ensures Store() == Prepared(crc, old(Store()))
    {
      CompactStore();
      header := header.(generation := NextGeneration(header.generation));
      assert Shaped(Store());
      header := Finalize(crc, Store()).header;
    }

    // ----- loading and flushing -----

    // Takes the store a slot holds.
    method Adopt(store: HistoryStore, slot: nat)
      requires records.Length == HISTORY_CAPACITY
      modifies this`header, this`activeSlot, records
      ensures Store() == store && activeSlot == slot
    {
      header := store.header;
      activeSlot := slot;
      forall k | 0 <= k < records.Length {
        records[k] := store.records[k];
      }
      assert records[..] == store.records;
    }

    // Headers first, then at most two whole slots, each read as it may fail.
    method Load(part: Partition, reload: Reload) returns (ok: bool)
      requires Sound() && tx.phase == IDLE
      modifies this, records
      ensures Sound() && ok == ReloadSucceeds(part.cells[..], reload)
      ensures View() == Reloaded(crc, part.cells[..], old(View()), reload)
    {
      hide Decode, SlotAt;
      if !reload.lockTaken {
        var live := header.generation != 0;
        if !live {
          Adopt(Reset(crc), activeSlot);
        }
        dirty := live;
        return false;
      }
      if part.cells.Length < SLOT_COUNT * SLOT_BYTES {
        Adopt(Reset(crc), activeSlot);
        dirty := false;
        return false;
      }
      LoadSlots(part, reload.reading);
      dirty := false;
      return true;
    }

    method LoadSlots(part: Partition, reading: Reads)
      requires Sound() && FlashSized(part.cells[..])
      modifies this`header, this`activeSlot, records
      ensures LoadReading(crc, part.cells[..], reading) == Loaded(Store(), activeSlot)
    {
      hide Decode, SlotAt, Valid;
      var newer := if NvsDualSlot.ChooseNewerRevision(reading.firstHeader, Generation(part.cells[..], 0),
                                                     reading.secondHeader, Generation(part.cells[..], 1))
                      == NvsDualSlot.SECOND then 1 else 0;
      var loaded := false;
      var attempt := 0;
      while attempt < 2 && !loaded
        invariant attempt <= 2
        invariant records.Length == HISTORY_CAPACITY
        invariant !loaded && attempt > 0 ==> !Loads(crc, part.cells[..], reading, newer)
        invariant !loaded && attempt > 1 ==> !Loads(crc, part.cells[..], reading, 1 - newer)
        invariant loaded ==> LoadReading(crc, part.cells[..], reading) == Loaded(Store(), activeSlot)
        decreases 2 - attempt
      {
        var slot := if attempt == 0 then newer else 1 - newer;
        Adopt(SlotStore(part.cells[..], slot), slot);
        loaded := SlotReads(reading, slot) && HistoryTypes.Valid(crc, Store());
        attempt := attempt + 1;
      }
      if !loaded {
        Adopt(Reset(crc), 0);
      }
    }

    // Starts a transaction unless one is in flight.
    method StartTransaction()
      requires Sound()
      modifies this`header, records, tx
      ensures Sound() && View() == Started(crc, old(View()))
    {
      StartedShape(crc, View());
      if tx.phase == IDLE {
        PrepareStore();
        tx.BeginFlashStoreTransaction((1 - activeSlot) * SLOT_BYTES, SLOT_BYTES, HEADER_BYTES, STORE_BYTES);
      }
    }

    // One erase or program operation of the transaction in flight.
    method StepTransaction(part: Partition, fault: Fault) returns (result: StepResult)
      requires Sound() && tx.phase != IDLE && FlashSized(part.cells[..])
      modifies this`activeSlot, this`dirty, tx, part.cells
      ensures Sound()
      ensures Flushed(part.cells[..], View(), result) == Advance(old(part.cells[..]), old(View()), fault)
    {
      hide StoreStep, Encode, WithSlot;
      StepStaysInFlight(part.cells[..], View(), fault);
      result := tx.FlashIoStoreStep(part, Encode(Store()), fault);
      if result == COMPLETE {
        activeSlot := 1 - activeSlot;
        dirty := false;
      }
    }

    // At most one erase or program operation; the first one seals the store.
    method FlushStep(part: Partition, fault: Fault) returns (result: StepResult)
      requires Sound()
      modifies this, records, tx, part.cells
      ensures Sound()
      ensures !FlashSized(old(part.cells[..])) ==>
        part.cells[..] == old(part.cells[..]) && View() == old(View())
        && result == if dirty then FAILED else COMPLETE
      ensures FlashSized(old(part.cells[..])) ==>
        Flushed(part.cells[..], View(), result) == DualSlotLog.FlushStep(crc, old(part.cells[..]), old(View()), fault)
    {
      hide Advance, Started;
      if !dirty {
        return COMPLETE;
      }
      if part.cells.Length < SLOT_COUNT * SLOT_BYTES {
        return FAILED;
      }
      StartedShape(crc, View());
      StartTransaction();
      result := StepTransaction(part, fault);
    }

    // Rewrites the inactive slot at once, under one lock.
    method Save(part: Partition, fault: SaveFault) returns (ok: bool)
      requires Sound() && tx.phase == IDLE && SaveFaultSized(fault)
      modifies this, records, part.cells
      ensures Sound() && tx.View() == old(tx.View())
      ensures ok == (fault == NoSaveFault && FlashSized(old(part.cells[..])))
      ensures fault.SaveLockTimeout? || fault.SaveLockRefused? ==>
        View() == old(View()) && part.cells[..] == old(part.cells[..])
      ensures !(fault.SaveLockTimeout? || fault.SaveLockRefused?) ==> Store() == Prepared(crc, old(Store()))
      ensures !ok ==> activeSlot == old(activeSlot) && dirty == old(dirty)
      ensures ok ==> activeSlot == 1 - old(activeSlot) && !dirty
      ensures FlashSized(old(part.cells[..])) && (ok || fault.SaveIoError?) ==>
        part.cells[..] == WithSlot(old(part.cells[..]), (1 - old(activeSlot)) * SLOT_BYTES,
          if ok then Replaced(SlotAt(old(part.cells[..]), 1 - old(activeSlot)), Encode(Store())) else fault.torn)
    {
      hide Prepared, Encode, Replaced, WithSlot;
      if fault.SaveLockTimeout? || fault.SaveLockRefused? {
        ok := false;
      } else {
        PreparedStore(crc, Store());
        PrepareStore();
        ok := SaveSealed(part, fault);
      }
    }

    method SaveSealed(part: Partition, fault: SaveFault) returns (ok: bool)
      requires Sound() && tx.phase == IDLE
      requires (fault == NoSaveFault || fault.SaveIoError?) && SaveFaultSized(fault)
      modifies this`activeSlot, this`dirty, part.cells
      ensures ok == (fault == NoSaveFault && FlashSized(old(part.cells[..])))
      ensures !ok ==> activeSlot == old(activeSlot) && dirty == old(dirty)
      ensures ok ==> activeSlot == 1 - old(activeSlot) && !dirty
      ensures FlashSized(old(part.cells[..])) ==>
        part.cells[..] == WithSlot(old(part.cells[..]), (1 - old(activeSlot)) * SLOT_BYTES,
          if ok then Replaced(SlotAt(old(part.cells[..]), 1 - old(activeSlot)), Encode(Store())) else fault.torn)
    {
      hide Encode, Replaced, WithSlot, SlotAt;
      if part.cells.Length < SLOT_COUNT * SLOT_BYTES {
        return false;
      }
      ok := WriteInactive(part, fault);
      if ok {
        activeSlot := 1 - activeSlot;
        dirty := false;
      }
    }

    method WriteInactive(part: Partition, fault: SaveFault) returns (ok: bool)
      requires Sound() && FlashSized(part.cells[..]) && (fault == NoSaveFault || fault.SaveIoError?)
      requires SaveFaultSized(fault)
      modifies part.cells
      ensures ok == (fault == NoSaveFault)
      ensures part.cells[..] == WithSlot(old(part.cells[..]), (1 - activeSlot) * SLOT_BYTES,
                if ok then Replaced(SlotAt(old(part.cells[..]), 1 - activeSlot), Encode(Store())) else fault.torn)
    {
      if fault.SaveIoError? {
        part.Damage((1 - activeSlot) * SLOT_BYTES, fault.torn);
        return false;
      }
      RewriteSlot(part, 1 - activeSlot);
      return true;
    }

    method RewriteSlot(part: Partition, target: nat)
      requires records.Length == HISTORY_CAPACITY && FlashSized(part.cells[..]) && target < SLOT_COUNT
      modifies part.cells
      ensures part.cells[..] == WithSlot(old(part.cells[..]), target * SLOT_BYTES,
                Replaced(SlotAt(old(part.cells[..]), target), Encode(Store())))
    {
      hide Encode, ProgramCell;
      var image := Encode(Store());
      var t := target * SLOT_BYTES;
      part.EraseRange(t, SLOT_BYTES);
      forall i | 0 <= i < STORE_BYTES
        ensures ProgramCell(ERASED, image[i]) == image[i]
      {
        ProgramErasedCell(image[i]);
      }
      part.Write(t, image, 0, STORE_BYTES);
    }

    // ----- records -----

    method PushRecord(record: HistoryRecord)
      requires Sound()
      modifies this`header, records
      ensures Store() == Appended(old(Store()), record)
    {
      records[header.writeIndex] := record.(id := header.nextRecordId);
      if header.nextRecordId < UINT32_MAX {
        header := header.(nextRecordId := header.nextRecordId + 1);
      }
      header := header.(writeIndex := (header.writeIndex + 1) % HISTORY_CAPACITY);
      if header.count < HISTORY_CAPACITY {
        header := header.(count := header.count + 1);
      }
    }

    method Append(record: HistoryRecord)
      requires Sound() && tx.phase == IDLE
      modifies this, records
      ensures Sound() && dirty && tx.View() == old(tx.View()) && activeSlot == old(activeSlot)
      ensures Store() == Appended(old(Store()), record)
      ensures Contents(Store())
           == Newest(old(Contents(Store())) + [record.(id := old(header.nextRecordId))])
    {
      AppendContents(Store(), record);
      PushRecord(record);
      dirty := true;
    }

    // Append with an immediate save. A failed one is rolled back if the shared
    // count of lock timeouts moved meanwhile, whoever moved it, and reloaded
    // otherwise.
    method AppendNow(record: HistoryRecord, part: Partition, fault: SaveFault, othersTimedOut: bool, reload: Reload)
      returns (ok: bool)
      requires Sound() && tx.phase == IDLE && SaveFaultSized(fault)
      modifies this, records, part.cells
      ensures Sound()
      ensures ok == (fault == NoSaveFault && FlashSized(old(part.cells[..])))
      ensures ok ==>
        Contents(Store()) == Newest(old(Contents(Store())) + [record.(id := old(header.nextRecordId))]) && !dirty
      ensures !ok && (fault.SaveLockTimeout? || othersTimedOut) ==>
        View() == old(View()).(store := RolledBack(old(Store()), AfterSave(crc, Appended(old(Store()), record), fault)))
      ensures !ok && !(fault.SaveLockTimeout? || othersTimedOut) ==>
        var log := old(View()).(store := AfterSave(crc, Appended(old(Store()), record), fault));
        View() == Reloaded(crc, part.cells[..], log, reload)
      ensures fault.SaveLockTimeout? ==> View() == old(View()) && part.cells[..] == old(part.cells[..])
    {
      hide Prepared, RolledBack, Reloaded, Contents, Newest, Replaced, SlotAt, Encode, WithSlot, Appended;
      AppendContents(Store(), record);
      RollbackUndoesAppend(Store(), record);
      var lockTimeouts: nat := 0;
      var lockTimeoutsBefore := lockTimeouts;
      var previous := header;
      var overwritten := records[header.writeIndex];
      ghost var before := Store();
      PushRecord(record);
      ghost var pushed := Store();
      PreparedStore(crc, pushed);
      ok := Save(part, fault);
      if fault.SaveLockTimeout? {
        lockTimeouts := lockTimeouts + 1;
      }
      if othersTimedOut {
        lockTimeouts := lockTimeouts + 1;
      }
      if ok {
        return;
      }
      Recover(lockTimeouts == lockTimeoutsBefore, previous, overwritten, before, part, reload);
    }

    // Reloads the log, or takes the last append back.
    method Recover(reloads: bool, previous: HistoryHeader, overwritten: HistoryRecord, ghost before: HistoryStore,
                   part: Partition, reload: Reload)
      requires Sound() && tx.phase == IDLE && Shaped(before)
      requires previous == before.header && overwritten == before.records[before.header.writeIndex]
      modifies this, records
      ensures Sound()
      ensures View() == if reloads then Reloaded(crc, part.cells[..], old(View()), reload)
                        else old(View()).(store := RolledBack(before, old(Store())))
    {
      hide Reloaded;
      if reloads {
        var _ := Load(part, reload);
      } else {
        RollBack(previous, overwritten, before);
      }
    }

    method RollBack(previous: HistoryHeader, overwritten: HistoryRecord, ghost before: HistoryStore)
      requires Sound() && Shaped(before)
      requires previous == before.header && overwritten == before.records[before.header.writeIndex]
      modifies this`header, records
      ensures Store() == RolledBack(before, old(Store()))
    {
      records[previous.writeIndex] := overwritten;
      header := header.(writeIndex := previous.writeIndex, count := previous.count,
                        nextRecordId := previous.nextRecordId);
    }

    // Saves a mutated log at once and reloads it if that fails, or leaves it dirty.
    method PersistMutation(persistNow: bool, part: Partition, fault: SaveFault, reload: Reload) returns (ok: bool)
      requires Sound() && tx.phase == IDLE && SaveFaultSized(fault)
      modifies this, records, part.cells
      ensures Sound()
      ensures !persistNow ==> ok && View() == old(View()).(dirty := true) && part.cells[..] == old(part.cells[..])
      ensures persistNow ==> ok == (fault == NoSaveFault && FlashSized(old(part.cells[..])))
      ensures persistNow && ok ==>
        Store() == Prepared(crc, old(Store())) && !dirty && activeSlot == 1 - old(activeSlot)
      ensures Shaped(Store()) && (ok ==> Contents(Store()) == old(Contents(Store())))
      ensures persistNow && !ok ==>
        View() == Reloaded(crc, part.cells[..], old(View()).(store := AfterSave(crc, old(Store()), fault)), reload)
    {
      hide Prepared, Reloaded;
      if !persistNow {
        dirty := true;
        return true;
      }
      PreparedStore(crc, Store());
      ok := Save(part, fault);
      if !ok {
        var _ := Load(part, reload);
      }
    }

    // Newest record with the id, as a position in the ring.
    method FindNewestById(id: u32) returns (found: bool, index: nat)
      requires Sound()
      ensures found ==> exists n | 0 <= n < header.count ::
        && index == RingSlot(header, n) && records[index].id == id
        && forall m :: n < m < header.count ==> Contents(Store())[m].id != id
      ensures !found ==> id == 0 || forall m :: 0 <= m < header.count ==> Contents(Store())[m].id != id
    {
      if id == 0 || header.count == 0 {
        return false, 0;
      }
      index := header.writeIndex;
      for n := 0 to header.count
        invariant index < HISTORY_CAPACITY
        invariant index == if n == 0 then header.writeIndex else RingSlot(header, header.count - n)
        invariant forall m :: header.count - n <= m < header.count ==> Contents(Store())[m].id != id
      {
        if index == 0 {
          index := HISTORY_CAPACITY;
        }
        index := index - 1;
        assert index == RingSlot(header, header.count - 1 - n);
        assert records[index] == Contents(Store())[header.count - 1 - n];
        if records[index].id == id {
          return true, index;
        }
      }
      return false, 0;
    }

    method CopyNewestFirst(capacity: nat) returns (output: seq<HistoryRecord>)
      requires Sound()
      ensures |output| == if header.count < capacity then header.count else capacity
      ensures forall k :: 0 <= k < |output| ==> output[k] == Contents(Store())[header.count - 1 - k]
    {
      output := [];
      var toCopy := if header.count < capacity then header.count else capacity;
      var index := header.writeIndex;
      for copied := 0 to toCopy
        invariant index < HISTORY_CAPACITY && |output| == copied
        invariant index == if copied == 0 then header.writeIndex else RingSlot(header, header.count - copied)
        invariant forall k :: 0 <= k < copied ==> output[k] == Contents(Store())[header.count - 1 - k]
      {
        if index == 0 {
          index := HISTORY_CAPACITY;
        }
        index := index - 1;
        assert index == RingSlot(header, header.count - 1 - copied);
        output := output + [records[index]];
      }
    }

    // Packs the ring, closes the gap, and persists. A failed save is reloaded.
    method RemoveById(id: u32, persistNow: bool, part: Partition, lockTaken: bool, fault: SaveFault, reload: Reload)
      returns (ok: bool)
      requires Sound() && tx.phase == IDLE && SaveFaultSized(fault)
      modifies this, records, part.cells
      ensures Sound()
      ensures var q := old(Contents(Store()));
              var k := FirstWithId(q, id);
              var attempted := id != 0 && k < |q| && (persistNow ==> lockTaken);
              var saved := fault == NoSaveFault && FlashSized(old(part.cells[..]));
              && ok == (attempted && (persistNow ==> saved))
              && (!attempted ==> Contents(Store()) == q && dirty == old(dirty) && activeSlot == old(activeSlot))
              && (ok ==> Contents(Store()) == Without(q, k) && dirty == !persistNow)
              && (ok ==> activeSlot == if persistNow then 1 - old(activeSlot) else old(activeSlot))
              && (attempted && !ok ==>
                    View() == Reloaded(crc, part.cells[..],
                      old(View()).(store := AfterSave(crc, Removed(old(Store()), k), fault)), reload))
    {
      hide Reloaded, Prepared, Contents, Removed;
      if id == 0 || header.count == 0 {
        return false;
      }
      if persistNow && !lockTaken {
        return false;
      }
      ghost var s := Store();
      CompactKeepsContents(s);
      CompactStore();
      var foundIndex := FindFirst(id);
      if foundIndex == header.count {
        return false;
      }
      CloseGap(foundIndex, s);
      RemovedContents(s, foundIndex);
      ok := PersistMutation(persistNow, part, fault, reload);
    }

    // First position of the packed ring with the id.
    method FindFirst(id: u32) returns (k: nat)
      requires Sound()
      requires forall i :: 0 <= i < header.count ==> records[i] == Contents(Store())[i]
      ensures k == FirstWithId(Contents(Store()), id)
    {
      hide Contents, FirstWithId;
      k := 0;
      while k < header.count && records[k].id != id
        invariant k <= header.count
        invariant forall i :: 0 <= i < k ==> Contents(Store())[i].id != id
      {
        k := k + 1;
      }
      FirstWithIdIsUnique(Contents(Store()), id, k);
    }

    // Moves the records behind k one down and clears the place the last one had.
    method ShiftDown(k: nat, n: nat)
      requires k < n <= records.Length
      modifies records
      ensures forall i :: 0 <= i < records.Length ==>
        records[i] == if i == n - 1 then ZERO_RECORD else if k <= i < n - 1 then old(records[i + 1]) else old(records[i])
    {
      forall i | k <= i < n - 1 {
        records[i] := records[i + 1];
      }
      records[n - 1] := ZERO_RECORD;
    }

    method CloseGap(foundIndex: nat, ghost s: HistoryStore)
      requires Sound() && Shaped(s) && Store() == Compact(s) && foundIndex < header.count
      modifies this`header, records
      ensures Store() == Removed(s, foundIndex)
    {
      hide Contents, RingSlot, Removed;
      ghost var q := Contents(s);
      assert forall i :: 0 <= i < HISTORY_CAPACITY ==> records[i] == if i < |q| then q[i] else ZERO_RECORD by {
        CompactKeepsContents(s);
      }
      assert header == s.header.(count := |q|, writeIndex := |q| % HISTORY_CAPACITY);
      hide Compact, Shaped;
      ShiftDown(foundIndex, header.count);
      header := header.(count := header.count - 1);
      header := header.(writeIndex := header.count % HISTORY_CAPACITY);
      RemovedCells(s, foundIndex, records[..]);
    }

    // Keeps the generation, so the slot from before the clear stays older.
    method Clear(persistNow: bool, part: Partition, fault: SaveFault, reload: Reload) returns (ok: bool)
      requires Sound() && tx.phase == IDLE && SaveFaultSized(fault)
      modifies this, records, part.cells
      ensures Sound()
      ensures var saved := fault == NoSaveFault && FlashSized(old(part.cells[..]));
              var empty := Emptied(crc, old(header.generation));
              && ok == (persistNow ==> saved)
              && (ok ==> Contents(Store()) == [] && header.nextRecordId == 1 && dirty == !persistNow)
              && (ok && persistNow ==> header.generation == NextGeneration(old(header.generation)))
              && (ok && !persistNow ==> header.generation == old(header.generation))
              && (!ok ==>
                    var log := old(View()).(store := AfterSave(crc, empty, fault));
                    View() == Reloaded(crc, part.cells[..], log, reload))
    {
      hide Reloaded, Prepared;
      var generation := header.generation;
      Adopt(Reset(crc), activeSlot);
      header := header.(generation := generation);
      PreparedStore(crc, Store());
      ok := PersistMutation(persistNow, part, fault, reload);
    }

    // ----- pages -----

    method WalkRecord(dir: SortDir, step: nat) returns (record: HistoryRecord)
      requires Sound() && step < header.count
      ensures record == Walk(Contents(Store()), dir, step)
    {
      var oldest := (header.writeIndex + HISTORY_CAPACITY - header.count) % HISTORY_CAPACITY;
      var n := if dir == Desc then header.count - 1 - step else step;
      RingSlotIsModular(header, n);
      record := records[(oldest + n) % HISTORY_CAPACITY];
    }

    // One bounded page of the records the type filter admits.
    method CopyPage(offset: nat, limit: nat, dir: SortDir, types: u8) returns (page: HistoryPage)
      requires Sound()
      ensures page == PageOf(Listing(Contents(Store()), dir, types, header.count), offset, ClampPageLimit(limit))
    {
      ghost var q := Contents(Store());
      var count := header.count;
      var clamped := ClampPageLimit(limit);
      var total, copied := 0, [];
      for step := 0 to count
        invariant total == |Listing(q, dir, types, step)|
        invariant copied == Window(Listing(q, dir, types, step), offset, clamped)
      {
        var record := WalkRecord(dir, step);
        WindowExtends(Listing(q, dir, types, step), record, offset, clamped);
        if Listed(types, record) {
          if total >= offset && |copied| < clamped {
            copied := copied + [record];
          }
          total := total + 1;
        }
      }
      var start := if offset < total then offset else total;
      page := HistoryPage(total, start, start + |copied| < total, copied);
    }

    method CopyNewest() returns (found: bool, record: HistoryRecord)
      requires Sound()
      ensures found == (header.count > 0)
      ensures found ==> record == Contents(Store())[header.count - 1]
      ensures found ==> PageOf(Listing(Contents(Store()), Desc, 0, header.count), 0, 1).records == [record]
    {
      if header.count == 0 {
        return false, ZERO_RECORD;
      }
      var index := header.writeIndex;
      if index == 0 {
        index := HISTORY_CAPACITY;
      }
      index := index - 1;
      assert index == RingSlot(header, header.count - 1);
      record := records[index];
      ListingHead(Contents(Store()), header.count);
      return true, record;
    }

    // ----- hand-off to the persistence worker -----

    // The worker's image takes the records only when there is something to
    // persist; progress and dirtiness always come from the live log.
    method CapturePersistenceImage(image: HistoryLog)
      requires Sound() && image.Sound() && image != this && image.records != records && image.tx != tx
      modifies image, image.records, image.tx
      ensures image.tx.View() == IDLE_TX
      ensures image.activeSlot == activeSlot && image.dirty == dirty
      ensures image.header.generation == header.generation
      ensures dirty ==> image.Store() == Store()
      ensures !dirty ==> image.Store() == RawStore(old(image.header).(generation := header.generation),
                                                   old(image.records[..]))
      ensures image.Sound()
    {
      if dirty {
        image.Adopt(Store(), activeSlot);
      }
      image.activeSlot := activeSlot;
      image.header := image.header.(generation := header.generation);
      image.dirty := dirty;
      image.tx.Clear();
    }

    // Carries flash progress forward without touching newer live records.
    method AcknowledgePersisted(image: HistoryLog, clearDirty: bool)
      requires Sound() && image.Sound() && tx.phase == IDLE
      modifies this
      ensures Sound() && Contents(Store()) == old(Contents(Store()))
      ensures activeSlot == image.activeSlot
      ensures header == old(header).(generation := old(image.header.generation))
      ensures dirty == (old(dirty) && !clearDirty)
    {
      activeSlot := image.activeSlot;
      header := header.(generation := image.header.generation);
      if clearDirty {
        dirty := false;
      }
    }
  }

  function Flipped(a: seq<HistoryRecord>, first: nat, last: nat): (r: seq<HistoryRecord>)
    requires first <= last <= |a|
    ensures |r| == |a|
  {
    seq(|a|, k requires 0 <= k < |a| => if first <= k < last then a[first + last - 1 - k] else a[k])
  }

  // Reversing both parts and then the whole rotates.
  lemma FlipsRotate(a: seq<HistoryRecord>, shift: nat)
    requires shift < |a|
    ensures var c := Flipped(Flipped(Flipped(a, 0, shift), shift, |a|), 0, |a|);
            |c| == |a| && forall k :: 0 <= k < |a| ==> c[k] == a[if k + shift < |a| then k + shift else k + shift - |a|]
  {
  }

  // A store is the removal of a record if its cells are.
  lemma RemovedCells(s: HistoryStore, k: nat, cells: seq<HistoryRecord>)
    requires Shaped(s) && k < s.header.count && |cells| == HISTORY_CAPACITY
    requires var q := Contents(s);
             forall i :: 0 <= i < HISTORY_CAPACITY ==>
               cells[i] == if i < |q| - 1 then q[if i < k then i else i + 1] else ZERO_RECORD
    ensures Removed(s, k).records == cells
    ensures Removed(s, k).header == s.header.(count := s.header.count - 1, writeIndex := s.header.count - 1)
  {
    hide Contents;
  }

  lemma FirstWithIdIsUnique(q: seq<HistoryRecord>, id: u32, k: nat)
    requires k <= |q| && (k < |q| ==> q[k].id == id)
    requires forall i :: 0 <= i < k ==> q[i].id != id
    ensures FirstWithId(q, id) == k
  {
    var f := FirstWithId(q, id);
    assert k < |q| ==> f <= k;
  }

  lemma {:induction false} ListingHead(q: seq<HistoryRecord>, n: nat)
    requires 0 < n <= |q|
    ensures |Listing(q, Desc, 0, n)| == n && Listing(q, Desc, 0, n)[0] == q[|q| - 1]
  {
    if n > 1 {
      ListingHead(q, n - 1);
    } else {
      assert Listing(q, Desc, 0, 0) == [];
    }
  }

  // A step of a shaped log leaves a shaped log.
  lemma StepStaysInFlight(flash: seq<u8>, log: Log, fault: Fault)
    requires FlashSized(flash) && LogShaped(log) && InFlight(log.tx)
    ensures LogShaped(Advance(flash, log, fault).log)
  {
    var target := 1 - log.activeSlot;
    if fault == NoFault {
      StepCounts(SlotAt(flash, target), Encode(log.store), log.tx);
    }
  }
}
