// Two flash slots and a generation: loading picks the newer valid slot, a flush
// rewrites the inactive one in steps, and power may fail between any two steps.
module DualSlotLog {
  import opened Bytes
  import opened NvsDualSlot
  import opened HistoryTypes
  import opened HistoryRing
  import opened FlashIo

  const SLOT_BYTES: nat := 16384
  const SLOT_COUNT: nat := 2

  ghost predicate FlashSized(flash: seq<u8>) {
    |flash| >= SLOT_COUNT * SLOT_BYTES
  }

  function SlotAt(flash: seq<u8>, slot: nat): (b: seq<u8>)
    requires FlashSized(flash) && slot < SLOT_COUNT
    ensures |b| == SLOT_BYTES
  {
    flash[slot * SLOT_BYTES..(slot + 1) * SLOT_BYTES]
  }

  function SlotStore(flash: seq<u8>, slot: nat): HistoryStore
    requires FlashSized(flash) && slot < SLOT_COUNT
  {
    Decode(SlotAt(flash, slot)[..STORE_BYTES])
  }

  function Generation(flash: seq<u8>, slot: nat): u32
    requires FlashSized(flash) && slot < SLOT_COUNT
  {
    SlotStore(flash, slot).header.generation
  }

  predicate SlotValid(crc: Checksum, flash: seq<u8>, slot: nat)
    requires FlashSized(flash) && slot < SLOT_COUNT
  {
    Valid(crc, SlotStore(flash, slot))
  }

  datatype Loaded = Loaded(store: HistoryStore, activeSlot: nat)

  // The device's choice: generations are compared before anything is validated,
  // and the loser of that comparison is the fallback.
  function Load(crc: Checksum, flash: seq<u8>): (l: Loaded)
    requires FlashSized(flash)
    ensures l.activeSlot < SLOT_COUNT && Shaped(l.store)
  {
    var newer := if ChooseNewerRevision(true, Generation(flash, 0), true, Generation(flash, 1)) == SECOND
                 then 1 else 0;
    if SlotValid(crc, flash, newer) then Loaded(SlotStore(flash, newer), newer)
    else if SlotValid(crc, flash, 1 - newer) then Loaded(SlotStore(flash, 1 - newer), 1 - newer)
    else Loaded(Reset(crc), 0)
  }

  // The reference choice: validate both slots, keep the newest valid one.
  function LoadValidatingBoth(crc: Checksum, flash: seq<u8>): Loaded
    requires FlashSized(flash)
  {
    match ChooseNewerRevision(SlotValid(crc, flash, 0), Generation(flash, 0),
                              SlotValid(crc, flash, 1), Generation(flash, 1))
    case NONE => Loaded(Reset(crc), 0)
    case FIRST => Loaded(SlotStore(flash, 0), 0)
    case SECOND => Loaded(SlotStore(flash, 1), 1)
  }

  lemma HeadersFirstEqualsValidatingBoth(crc: Checksum, flash: seq<u8>)
    requires FlashSized(flash)
    ensures Load(crc, flash) == LoadValidatingBoth(crc, flash)
  {
    if SlotValid(crc, flash, 0) {
      assert Load(crc, flash).store == SlotStore(flash, Load(crc, flash).activeSlot);
    }
  }

  // ----- one slot being replaced -----

  lemma OtherSlotUntouched(flash: seq<u8>, slot: nat, bytes: seq<u8>)
    requires FlashSized(flash) && slot < SLOT_COUNT && |bytes| == SLOT_BYTES
    ensures var f := WithSlot(flash, slot * SLOT_BYTES, bytes);
            SlotAt(f, slot) == bytes && SlotAt(f, 1 - slot) == SlotAt(flash, 1 - slot)
  {
    WithSlotInside(flash, slot * SLOT_BYTES, bytes);
    if slot == 0 {
      WithSlotOutside(flash, 0, bytes, SLOT_BYTES, SLOT_BYTES);
    } else {
      WithSlotOutside(flash, SLOT_BYTES, bytes, 0, SLOT_BYTES);
    }
  }

  lemma WithSlotInside(flash: seq<u8>, t: nat, bytes: seq<u8>)
    requires t + |bytes| <= |flash|
    ensures WithSlot(flash, t, bytes)[t..t + |bytes|] == bytes
  {
  }

  lemma WithSlotOutside(flash: seq<u8>, t: nat, bytes: seq<u8>, from: nat, n: nat)
    requires t + |bytes| <= |flash| && from + n <= |flash| && (from + n <= t || t + |bytes| <= from)
    ensures WithSlot(flash, t, bytes)[from..from + n] == flash[from..from + n]
  {
  }

  ghost predicate HistoryTx(tx: Tx, slot: nat) {
    && tx.slotBytes == SLOT_BYTES && tx.headerBytes == HEADER_BYTES && tx.totalBytes == STORE_BYTES
    && tx.targetOffset == slot * SLOT_BYTES
  }

  // The flash part way through replacing `slot` with `image`.
  function Interrupted(flash: seq<u8>, slot: nat, image: seq<u8>, tx: Tx): (f: seq<u8>)
    requires FlashSized(flash) && slot < SLOT_COUNT && |image| == STORE_BYTES && HistoryTx(tx, slot)
    ensures FlashSized(f)
  {
    WithSlot(flash, slot * SLOT_BYTES, Progress(SlotAt(flash, slot), image, tx))
  }

  // From the first erase until the header program the slot is invalid, whatever
  // the checksum function computes.
  lemma InterruptedSlotInvalid(crc: Checksum, flash: seq<u8>, slot: nat, image: seq<u8>, tx: Tx)
    requires FlashSized(flash) && slot < SLOT_COUNT && |image| == STORE_BYTES && HistoryTx(tx, slot)
    requires InFlight(tx) && !(tx.phase == ERASE && tx.offset == 0)
    ensures !SlotValid(crc, Interrupted(flash, slot, image, tx), slot)
  {
    hide Decode, SlotAt, WithSlot;
    var bytes := Progress(SlotAt(flash, slot), image, tx);
    OtherSlotUntouched(flash, slot, bytes);
    assert bytes[..STORE_BYTES][..HEADER_BYTES] == Blank(HEADER_BYTES) by {
      if tx.phase == ERASE {
        assert tx.offset >= FLASH_IO_SECTOR_BYTES;
      }
    }
    ErasedHeaderIsInvalid(crc, bytes[..STORE_BYTES]);
  }

  lemma NothingReplacedYet(base: seq<u8>, slot: nat, image: seq<u8>)
    requires FlashSized(base) && slot < SLOT_COUNT && |image| == STORE_BYTES
    ensures Interrupted(base, slot, image, Begin(slot * SLOT_BYTES, SLOT_BYTES, HEADER_BYTES, STORE_BYTES)) == base
  {
    var tx := Begin(slot * SLOT_BYTES, SLOT_BYTES, HEADER_BYTES, STORE_BYTES);
    var f := Interrupted(base, slot, image, tx);
    forall i | 0 <= i < |base|
      ensures f[i] == base[i]
    {
    }
  }

  // A slot that is not valid has no say in what load returns.
  lemma InvalidOtherSlot(crc: Checksum, flash: seq<u8>, cut: seq<u8>)
    requires FlashSized(flash) && FlashSized(cut)
    requires var active := Load(crc, flash).activeSlot;
             SlotAt(cut, active) == SlotAt(flash, active) && !SlotValid(crc, cut, 1 - active)
    ensures Load(crc, cut) == Load(crc, flash)
  {
    HeadersFirstEqualsValidatingBoth(crc, cut);
    HeadersFirstEqualsValidatingBoth(crc, flash);
  }

  // Cut anywhere before the header program, load returns what it returned
  // before the transaction.
  lemma CutBeforeCommit(crc: Checksum, flash: seq<u8>, image: seq<u8>, tx: Tx)
    requires FlashSized(flash) && |image| == STORE_BYTES && InFlight(tx)
    requires HistoryTx(tx, 1 - Load(crc, flash).activeSlot)
    ensures Load(crc, Interrupted(flash, 1 - Load(crc, flash).activeSlot, image, tx)) == Load(crc, flash)
  {
    var target := 1 - Load(crc, flash).activeSlot;
    if tx.phase == ERASE && tx.offset == 0 {
      NothingReplacedYet(flash, target, image);
    } else {
      InterruptedSlotInvalid(crc, flash, target, image, tx);
      OtherSlotUntouched(flash, target, Progress(SlotAt(flash, target), image, tx));
      InvalidOtherSlot(crc, flash, Interrupted(flash, target, image, tx));
    }
  }

  // After the header program load returns the new store exactly when the serial
  // comparison of the two generations says so: a plain "newer" below 2^31 steps
  // apart, and at equal generations only for slot 0.
  lemma CutAfterCommit(crc: Checksum, flash: seq<u8>, store: HistoryStore, tx: Tx)
    requires FlashSized(flash) && Valid(crc, store) && tx.phase == IDLE
    requires HistoryTx(tx, 1 - Load(crc, flash).activeSlot)
    requires Load(crc, flash).store.header.generation <= store.header.generation
    ensures var old' := Load(crc, flash);
            var target := 1 - old'.activeSlot;
            var cut := Interrupted(flash, target, Encode(store), tx);
            var step := store.header.generation - old'.store.header.generation;
            && SlotStore(cut, target) == store
            && (Load(crc, cut) == Loaded(store, target)
                <==> (!SlotValid(crc, flash, old'.activeSlot)
                      || (if target == 1 then 0 < step < 0x8000_0000 else step <= 0x8000_0000)))
  {
    var active := Load(crc, flash).activeSlot;
    var target := 1 - active;
    var image := Encode(store);
    var bytes := Progress(SlotAt(flash, target), image, tx);
    var cut := Interrupted(flash, target, image, tx);
    OtherSlotUntouched(flash, target, bytes);
    assert bytes[..STORE_BYTES] == image;
    StoreRoundTrip(store);
    HeadersFirstEqualsValidatingBoth(crc, cut);
    HeadersFirstEqualsValidatingBoth(crc, flash);
    if SlotValid(crc, flash, active) {
      SerialOrder(Generation(flash, active), store.header.generation);
    }
  }

  // ----- the log in RAM and one flush step -----

  datatype Log = Log(store: HistoryStore, tx: Tx, activeSlot: nat, dirty: bool)

  function NextGeneration(g: u32): u32 {
    if g == 0 then 1 else if g < UINT32_MAX then g + 1 else g
  }

  // What the first step of a flush makes of the store.
  function Prepared(crc: Checksum, s: HistoryStore): HistoryStore
    requires Shaped(s)
  {
    var c := Compact(s);
    Finalize(crc, RawStore(c.header.(generation := NextGeneration(c.header.generation)), c.records))
  }

  lemma PreparedStore(crc: Checksum, s: HistoryStore)
    requires Shaped(s)
    ensures Shaped(Prepared(crc, s)) && Valid(crc, Prepared(crc, s))
    ensures Contents(Prepared(crc, s)) == Contents(s)
    ensures Prepared(crc, s).header.generation == NextGeneration(s.header.generation)
    ensures Prepared(crc, s).header.nextRecordId == s.header.nextRecordId
  {
    hide Contents, StoreChecksum, RingSlot;
    CompactKeepsContents(s);
    var c := Compact(s);
    FinalizedIsValid(crc, RawStore(c.header.(generation := NextGeneration(c.header.generation)), c.records));
    SameRingSameContents(c, Prepared(crc, s));
  }

  function Started(crc: Checksum, log: Log): Log
    requires Shaped(log.store) && log.activeSlot < SLOT_COUNT
  {
    if log.tx.phase != IDLE then log
    else log.(store := Prepared(crc, log.store),
              tx := Begin((1 - log.activeSlot) * SLOT_BYTES, SLOT_BYTES, HEADER_BYTES, STORE_BYTES))
  }

  datatype Flushed = Flushed(flash: seq<u8>, log: Log, result: StepResult)

  ghost predicate LogShaped(log: Log) {
    && Shaped(log.store) && log.activeSlot < SLOT_COUNT
    && (log.tx.phase != IDLE ==> InFlight(log.tx) && HistoryTx(log.tx, 1 - log.activeSlot))
  }

  // One step of the transaction in flight.
  function Advance(flash: seq<u8>, log: Log, fault: Fault): (r: Flushed)
    requires FlashSized(flash) && LogShaped(log) && log.tx.phase != IDLE
    ensures |r.flash| == |flash|
  {
    var target := 1 - log.activeSlot;
    var o := StoreStep(SlotAt(flash, target), Encode(log.store), log.tx, fault);
    var stepped := log.(tx := o.tx);
    Flushed(WithSlot(flash, target * SLOT_BYTES, o.slot),
            if o.result == COMPLETE then stepped.(activeSlot := target, dirty := false) else stepped,
            o.result)
  }

  lemma StartedShape(crc: Checksum, log: Log)
    requires LogShaped(log)
    ensures LogShaped(Started(crc, log)) && Started(crc, log).tx.phase != IDLE
    ensures Started(crc, log).activeSlot == log.activeSlot && Started(crc, log).dirty == log.dirty
  {
    if log.tx.phase == IDLE {
      PreparedStore(crc, log.store);
    }
  }

  function FlushStep(crc: Checksum, flash: seq<u8>, log: Log, fault: Fault): (r: Flushed)
    requires FlashSized(flash) && LogShaped(log)
    ensures |r.flash| == |flash|
  {
    if !log.dirty then Flushed(flash, log, COMPLETE)
    else
      StartedShape(crc, log);
      Advance(flash, Started(crc, log), fault)
  }

  // ----- runs: mutations, flush steps and power cuts -----

  datatype Event =
    | Mutate(store: HistoryStore)  // any change to the records; the log becomes dirty
    | Flush(fault: Fault)
    | PowerCut

  // Records change only between transactions: while one is in flight its image
  // belongs to the persistence worker.
  predicate Enabled(log: Log, e: Event) {
    e.Mutate? ==> log.tx.phase == IDLE && Shaped(e.store) &&
                  e.store.header.generation == log.store.header.generation
  }

  datatype World = World(flash: seq<u8>, log: Log)

  function Reboot(crc: Checksum, flash: seq<u8>): World
    requires FlashSized(flash)
  {
    var l := Load(crc, flash);
    World(flash, Log(l.store, IDLE_TX, l.activeSlot, false))
  }

  function Next(crc: Checksum, w: World, e: Event): World
    requires FlashSized(w.flash) && LogShaped(w.log)
  {
    match e
    case Mutate(store) => World(w.flash, w.log.(store := store, dirty := true))
    case Flush(fault) =>
      var r := FlushStep(crc, w.flash, w.log, fault);
      World(r.flash, r.log)
    case PowerCut => Reboot(crc, w.flash)
  }

  predicate Commits(crc: Checksum, w: World, e: Event)
    requires FlashSized(w.flash) && LogShaped(w.log)
  {
    e.Flush? && w.log.dirty && FlushStep(crc, w.flash, w.log, e.fault).result == COMPLETE
  }

  // Generations may run this far ahead of the durable one; each flush that
  // fails and starts over takes one of them.
  const GENERATION_GAP: nat := 0x7FFF_FFFF

  // `base` is the flash as the transaction in flight found it.
  ghost predicate Consistent(crc: Checksum, w: World, base: seq<u8>) {
    && FlashSized(w.flash) && FlashSized(base) && |base| == |w.flash| && LogShaped(w.log)
    && var durable := Load(crc, base);
       && w.log.activeSlot == durable.activeSlot
       && durable.store.header.generation <= w.log.store.header.generation
       && (!w.log.dirty ==> w.log.tx.phase == IDLE)
       && (if w.log.tx.phase == IDLE then w.flash == base
           else && Valid(crc, w.log.store)
                && 0 < w.log.store.header.generation - durable.store.header.generation <= GENERATION_GAP
                && w.flash == Interrupted(base, 1 - w.log.activeSlot, Encode(w.log.store), w.log.tx))
  }

  // A clean log holds exactly the store a load would bring back.
  ghost predicate Inv(crc: Checksum, w: World, base: seq<u8>) {
    && Consistent(crc, w, base)
    && (!w.log.dirty ==> w.log.store == Load(crc, base).store)
  }

  // What Inv says about the flash as it is now.
  lemma InvLoads(crc: Checksum, w: World, base: seq<u8>)
    requires Consistent(crc, w, base)
    ensures Load(crc, w.flash) == Load(crc, base)
  {
    hide Load, Valid, Interrupted, Shaped;
    if w.log.tx.phase != IDLE {
      CutBeforeCommit(crc, base, Encode(w.log.store), w.log.tx);
    }
  }

  lemma RebootInv(crc: Checksum, flash: seq<u8>)
    requires FlashSized(flash)
    ensures Inv(crc, Reboot(crc, flash), flash)
  {
  }

  // A flush that starts a transaction finds a generation left, and the durable
  // one near enough to compare with.
  predicate Headroom(crc: Checksum, flash: seq<u8>, log: Log)
    requires FlashSized(flash)
  {
    log.dirty && log.tx.phase == IDLE ==>
      && log.store.header.generation < UINT32_MAX
      && log.store.header.generation - Load(crc, flash).store.header.generation < GENERATION_GAP
  }

  lemma StartedConsistent(crc: Checksum, w: World, base: seq<u8>)
    requires Consistent(crc, w, base) && w.log.dirty && Headroom(crc, w.flash, w.log)
    ensures Consistent(crc, World(w.flash, Started(crc, w.log)), base)
    ensures InFlight(Started(crc, w.log).tx)
  {
    hide Load, Valid, Shaped, Prepared, Encode, Interrupted;
    if w.log.tx.phase == IDLE {
      var store := Prepared(crc, w.log.store);
      assert Shaped(store) && Valid(crc, store) && store.header.generation == w.log.store.header.generation + 1 by {
        PreparedStore(crc, w.log.store);
      }
      NothingReplacedYet(base, 1 - w.log.activeSlot, Encode(store));
    }
  }

  // Replacing the target slot twice leaves only the second replacement.
  lemma ReplaceTwice(base: seq<u8>, slot: nat, first: seq<u8>, second: seq<u8>)
    requires FlashSized(base) && slot < SLOT_COUNT && |first| == SLOT_BYTES && |second| == SLOT_BYTES
    ensures WithSlot(WithSlot(base, slot * SLOT_BYTES, first), slot * SLOT_BYTES, second)
         == WithSlot(base, slot * SLOT_BYTES, second)
  {
  }

  lemma AdvanceStep(crc: Checksum, w: World, base: seq<u8>, fault: Fault)
    requires Consistent(crc, w, base) && InFlight(w.log.tx)
    ensures var r := Advance(w.flash, w.log, fault);
            var target := 1 - w.log.activeSlot;
            && (r.result == COMPLETE <==> fault == NoFault && w.log.tx.phase == COMMIT)
            && (r.result != COMPLETE ==> r.log == w.log.(tx := r.log.tx))
            && (r.result == COMPLETE ==>
                  r.log == w.log.(tx := w.log.tx.(phase := IDLE), activeSlot := target, dirty := false))
            && (fault == IoError ==> r.log.tx.phase == IDLE && r.flash == w.flash)
            && (fault != IoError ==>
                  && HistoryTx(r.log.tx, target)
                  && (r.result != COMPLETE ==> InFlight(r.log.tx))
                  && r.flash == Interrupted(base, target, Encode(w.log.store), r.log.tx))
  {
    var target := 1 - w.log.activeSlot;
    var image := Encode(w.log.store);
    var before := SlotAt(base, target);
    var slot := Progress(before, image, w.log.tx);
    OtherSlotUntouched(base, target, slot);
    StepProgress(before, image, w.log.tx, fault);
    ReplaceTwice(base, target, slot, StoreStep(slot, image, w.log.tx, fault).slot);
  }

  lemma AdvanceIsAtomic(crc: Checksum, w: World, base: seq<u8>, fault: Fault) returns (base': seq<u8>)
    requires Consistent(crc, w, base) && InFlight(w.log.tx)
    ensures var r := Advance(w.flash, w.log, fault);
            && Consistent(crc, World(r.flash, r.log), base')
            && Load(crc, r.flash) ==
                 if r.result == COMPLETE then Loaded(r.log.store, r.log.activeSlot) else Load(crc, w.flash)
  {
    hide Encode, Progress, StoreStep, Load, Valid, Shaped, Interrupted, Advance;
    InvLoads(crc, w, base);
    AdvanceStep(crc, w, base, fault);
    var r := Advance(w.flash, w.log, fault);
    if r.result == COMPLETE {
      CutAfterCommit(crc, base, w.log.store, r.log.tx);
      base' := r.flash;
    } else if fault == IoError {
      base' := r.flash;
    } else {
      base' := base;
      InvLoads(crc, World(r.flash, r.log), base);
    }
  }

  // Every event keeps the invariant, and the store that a power cut at this
  // point would bring back changes exactly when a header program completes a
  // flush, to the store that flush wrote.
  lemma EventIsAtomic(crc: Checksum, w: World, base: seq<u8>, e: Event) returns (base': seq<u8>)
    requires Inv(crc, w, base) && Enabled(w.log, e) && (e.Flush? ==> Headroom(crc, w.flash, w.log))
    ensures Inv(crc, Next(crc, w, e), base')
    ensures var w' := Next(crc, w, e);
            Load(crc, w'.flash) ==
              if Commits(crc, w, e) then Loaded(w'.log.store, w'.log.activeSlot) else Load(crc, w.flash)
  {
    hide Load, Valid, Interrupted;
    base' := base;
    match e
    case Mutate(store) =>
    case PowerCut =>
      InvLoads(crc, w, base);
      base' := w.flash;
      RebootInv(crc, w.flash);
    case Flush(fault) =>
      if w.log.dirty {
        PreparedStore(crc, w.log.store);
        StartedConsistent(crc, w, base);
        base' := AdvanceIsAtomic(crc, World(w.flash, Started(crc, w.log)), base, fault);
      }
  }

  // The slot a load would pick is never written.
  lemma ActiveSlotNeverWritten(crc: Checksum, w: World, base: seq<u8>, e: Event)
    requires Consistent(crc, w, base) && Enabled(w.log, e)
    ensures w.log.activeSlot == Load(crc, w.flash).activeSlot
    ensures SlotAt(Next(crc, w, e).flash, w.log.activeSlot) == SlotAt(w.flash, w.log.activeSlot)
  {
    hide Load, Valid, Interrupted, Shaped, StoreStep, Encode, Prepared;
    InvLoads(crc, w, base);
    if e.Flush? && w.log.dirty {
      StartedShape(crc, w.log);
      var begun := Started(crc, w.log);
      var target := 1 - w.log.activeSlot;
      OtherSlotUntouched(w.flash, target, StoreStep(SlotAt(w.flash, target), Encode(begun.store), begun.tx, e.fault).slot);
    }
  }

  // ----- whole runs -----

  // A run whose flushes start with headroom. Short of the last generation, only
  // 2^31 - 1 failed flushes in a row use it up.
  ghost predicate Run(crc: Checksum, w: World, es: seq<Event>)
    decreases |es|
  {
    && FlashSized(w.flash) && LogShaped(w.log)
    && (es != [] ==>
          && Enabled(w.log, es[0]) && (es[0].Flush? ==> Headroom(crc, w.flash, w.log))
          && Run(crc, Next(crc, w, es[0]), es[1..]))
  }

  function After(crc: Checksum, w: World, es: seq<Event>): (r: World)
    requires Run(crc, w, es)
    ensures FlashSized(r.flash)
    decreases |es|
  {
    if es == [] then w else After(crc, Next(crc, w, es[0]), es[1..])
  }

  // The stores committed along a run, oldest first, starting with the one
  // on flash at the beginning.
  function Committed(crc: Checksum, w: World, es: seq<Event>, last: Loaded): Loaded
    requires Run(crc, w, es)
    decreases |es|
  {
    if es == [] then last
    else
      var w' := Next(crc, w, es[0]);
      Committed(crc, w', es[1..],
                if Commits(crc, w, es[0]) then Loaded(w'.log.store, w'.log.activeSlot) else last)
  }

  // Whatever happens and wherever power is cut, the store a load brings back is
  // the last one whose flush ran to its header program.
  lemma {:induction false} RunIsAtomic(crc: Checksum, w: World, base: seq<u8>, es: seq<Event>)
    requires Inv(crc, w, base) && Run(crc, w, es)
    ensures Load(crc, After(crc, w, es).flash) == Committed(crc, w, es, Load(crc, w.flash))
    decreases |es|
  {
    if es != [] {
      var base' := EventIsAtomic(crc, w, base, es[0]);
      RunIsAtomic(crc, Next(crc, w, es[0]), base', es[1..]);
    }
  }

  lemma CrashAtomicity(crc: Checksum, flash: seq<u8>, es: seq<Event>)
    requires FlashSized(flash) && Run(crc, Reboot(crc, flash), es)
    ensures Load(crc, After(crc, Reboot(crc, flash), es).flash)
         == Committed(crc, Reboot(crc, flash), es, Load(crc, flash))
  {
    RebootInv(crc, flash);
    RunIsAtomic(crc, Reboot(crc, flash), flash, es);
  }

  // A boot owes the flash nothing: until the records change, no flush step and
  // no further power cut changes flash or memory.
  lemma {:induction false} BootOwesNothing(crc: Checksum, flash: seq<u8>, es: seq<Event>)
    requires FlashSized(flash) && Run(crc, Reboot(crc, flash), es)
    requires forall e :: e in es ==> !e.Mutate?
    ensures After(crc, Reboot(crc, flash), es) == Reboot(crc, flash)
    decreases |es|
  {
    hide Load;
    RebootInv(crc, flash);
    if es != [] {
      assert es[0] in es;
      BootOwesNothing(crc, flash, es[1..]);
    }
  }
}
