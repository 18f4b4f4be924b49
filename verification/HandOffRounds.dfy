// One undisturbed round of the hand-off: captured, flushed step by step and
// acknowledged, a dirty log ends up clean and on flash.
module HandOffRounds {
  import opened Bytes
  import opened HistoryTypes
  import opened HistoryRing
  import opened FlashIo
  import opened DualSlotLog
  import opened HandOff
  import opened ActivationStores

  // A load from flash would give the log's records.
  ghost predicate OnFlash(crc: Checksum, flash: seq<u8>, live: Log) {
    FlashSized(flash) && Shaped(live.store) && Contents(live.store) == Contents(Load(crc, flash).store)
  }

  ghost predicate SameRecords(a: Log, b: Log) {
    Shaped(a.store) && Shaped(b.store) && Contents(a.store) == Contents(b.store)
  }

  lemma InvMeansDurable(crc: Checksum, s: System, base: seq<u8>)
    requires HandOff.Inv(crc, s, base)
    ensures FlashSized(s.flash) && LogShaped(s.image)
    ensures !s.live.dirty ==> OnFlash(crc, s.flash, s.live)
  {
    hide Contents, Load;
  }

  ghost function AfterAcknowledge(crc: Checksum, s: System): (r: System)
    requires FlashSized(s.flash)
  {
    if s.worker.Finished? && LogShaped(s.image) then HandOff.Next(crc, s, Acknowledge) else s
  }

  // An acknowledge leaves the log clean exactly if it was clean already, or the
  // flush completed and nothing changed since the control task looked; a clean
  // one is on flash.
  lemma AcknowledgeClearsExactly(crc: Checksum, s: System, base: seq<u8>)
    requires HandOff.Inv(crc, s, base) && s.worker.Finished? && FlashSized(s.flash)
    ensures var r := AfterAcknowledge(crc, s);
            && (!r.live.dirty <==> !s.live.dirty || (s.worker.ok && s.mutations == s.seen))
            && (!r.live.dirty ==> OnFlash(crc, r.flash, r.live)) && SameRecords(r.live, s.live) && r.worker == Waiting
  {
    hide HandOff.Inv, Load, Contents, OnFlash;
    InvMeansDurable(crc, s, base);
    AcknowledgeKeepsInv(crc, s, base);
    InvMeansDurable(crc, HandOff.Next(crc, s, Acknowledge), base);
    LiveIsShaped(crc, s, base);
    LiveIsShaped(crc, HandOff.Next(crc, s, Acknowledge), base);
  }

  lemma LiveIsShaped(crc: Checksum, s: System, base: seq<u8>)
    requires HandOff.Inv(crc, s, base)
    ensures Shaped(s.live.store)
  {
    hide Contents, Load;
  }

  // n fault-free steps of the worker, or as many as it has left.
  ghost function Worked(crc: Checksum, s: System, n: nat): (r: System)
    requires FlashSized(s.flash)
    ensures FlashSized(r.flash)
    decreases n
  {
    if n == 0 || s.worker != Busy || !LogShaped(s.image) then s
    else Worked(crc, HandOff.Next(crc, s, WorkerStep(NoFault, true)), n - 1)
  }

  lemma OneStep(crc: Checksum, s: System)
    requires FlashSized(s.flash) && LogShaped(s.image) && s.worker == Busy && s.image.dirty
    ensures var r := HandOff.Next(crc, s, WorkerStep(NoFault, true)); var left := StepsOf(s.image);
            && FlashSized(r.flash) && LogShaped(r.image) && left > 0 && StepsOf(r.image) == left - 1
            && r.worker == (if left == 1 then Finished(true) else Busy) && r.image.dirty == (left > 1)
            && r.live == s.live && r.mutations == s.mutations && r.seen == s.seen
            && (r.image.dirty ==> r.image.tx.phase != IDLE)
  {
    hide FlushStep, StepsOf;
    var p := Part(s.flash, s.image);
    StepOfPart(crc, p);
    StepPartOk(crc, p, NoFault);
    DirtyMeansInFlight(crc, s.flash, s.image);
    StepsMeanDirty(StepPart(crc, p, NoFault).log);
  }

  lemma StepsMeanDirty(log: Log)
    requires LogShaped(log)
    ensures StepsOf(log) > 0 ==> log.dirty
  {
  }

  lemma DirtyMeansInFlight(crc: Checksum, flash: seq<u8>, log: Log)
    requires FlashSized(flash) && LogShaped(log) && log.dirty
    ensures var r := FlushStep(crc, flash, log, NoFault); r.result == MORE ==> r.log.tx.phase != IDLE
  {
    hide Encode, Prepared, SlotAt, StepsLeft;
    StartedShape(crc, log);
    FullTransaction(1 - log.activeSlot);
    var begun := Started(crc, log);
    StepCounts(SlotAt(flash, 1 - begun.activeSlot), Encode(begun.store), begun.tx);
    StepsOfIdle(StoreStep(SlotAt(flash, 1 - begun.activeSlot), Encode(begun.store), begun.tx, NoFault).tx);
  }

  lemma {:induction false} WorkCompletes(crc: Checksum, s: System, base: seq<u8>, n: nat) returns (base': seq<u8>)
    requires HandOff.Inv(crc, s, base) && s.worker == Busy && s.image.dirty
    requires LogShaped(s.image) && n == StepsOf(s.image) && Headroom(crc, s.flash, s.image)
    ensures var r := Worked(crc, s, n);
            && HandOff.Inv(crc, r, base') && r.worker == Finished(true)
            && r.live == s.live && r.mutations == s.mutations && r.seen == s.seen
    decreases n
  {
    hide HandOff.Inv, HandOff.Next, StepsOf, LogShaped;
    InvMeansDurable(crc, s, base);
    OneStep(crc, s);
    base' := WorkerKeepsInv(crc, s, base, NoFault, true);
    var next := HandOff.Next(crc, s, WorkerStep(NoFault, true));
    if n > 1 {
      base' := WorkCompletes(crc, next, base', n - 1);
    } else {
      assert Worked(crc, next, 0) == next;
    }
  }

  lemma CapturedImage(crc: Checksum, s: System, base: seq<u8>)
    requires HandOff.Inv(crc, s, base) && s.worker == Waiting && s.live.dirty
    ensures var r := HandOff.Next(crc, s, Capture(s.mutations));
            && HandOff.Inv(crc, r, s.flash) && r.worker == Busy && r.image.dirty && LogShaped(r.image)
            && StepsOf(r.image) == 21 && r.live == s.live && r.seen == r.mutations && r.flash == s.flash
            && r.image.store == s.live.store && r.image.tx.phase == IDLE
  {
    hide Load, Contents;
    CaptureKeepsInv(crc, s, base, s.mutations);
  }

  // Captured, flushed without a fault in 21 steps, and acknowledged.
  ghost function QuietRound(crc: Checksum, s: System): System
    requires FlashSized(s.flash) && LogShaped(s.image) && s.worker == Waiting
  {
    AfterAcknowledge(crc, Worked(crc, HandOff.Next(crc, s, Capture(s.mutations)), 21))
  }

  // A round with no change of the records and no fault leaves a dirty log clean,
  // its records untouched and on flash.
  lemma QuietRoundCleans(crc: Checksum, s: System, base: seq<u8>)
    requires HandOff.Inv(crc, s, base) && s.worker == Waiting && s.live.dirty
    requires FlashSized(s.flash) && LogShaped(s.image) && s.live.store.header.generation < UINT32_MAX
    requires s.live.store.header.generation - Load(crc, s.flash).store.header.generation < GENERATION_GAP
    ensures var r := QuietRound(crc, s);
            && r.worker == Waiting && !r.live.dirty && SameRecords(r.live, s.live) && OnFlash(crc, r.flash, r.live)
  {
    hide HandOff.Inv, HandOff.Next, Worked, StepsOf, LogShaped, Load, Contents, OnFlash, SameRecords, AfterAcknowledge;
    CapturedImage(crc, s, base);
    var captured := HandOff.Next(crc, s, Capture(s.mutations));
    var base' := WorkCompletes(crc, captured, s.flash, 21);
    AcknowledgeClearsExactly(crc, Worked(crc, captured, 21), base');
  }

  // A boot finds the log clean and on flash, and losing power leads there.
  lemma BootIsClean(crc: Checksum, s: System)
    requires FlashSized(s.flash) && LogShaped(s.image)
    ensures var r := HandOff.Next(crc, s, LosePower);
            && r == Booted(crc, s.flash) && !r.live.dirty && !r.image.dirty && r.worker == Waiting
            && OnFlash(crc, r.flash, r.live) && r.flash == s.flash
  {
    hide Load, Contents;
    BootedInv(crc, s.flash);
    InvMeansDurable(crc, Booted(crc, s.flash), s.flash);
  }
}
