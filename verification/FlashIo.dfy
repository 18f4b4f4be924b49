// Stepped replacement of one flash slot: the slot is erased sector by sector,
// its body programmed chunk by chunk, and its header programmed last.
module FlashIo {
  import opened Bytes

  const FLASH_IO_CHUNK_BYTES: nat := 1024
  const FLASH_IO_SECTOR_BYTES: nat := 4096

  datatype Phase = IDLE | ERASE | BODY | COMMIT
  datatype StepResult = MORE | COMPLETE | FAILED

  // What the environment does to one step: the flash lock times out, or the
  // single erase or program operation fails without effect.
  datatype Fault = NoFault | LockTimeout | IoError

  datatype Tx = Tx(phase: Phase, targetOffset: nat, offset: nat,
                   slotBytes: nat, headerBytes: nat, totalBytes: nat)

  const IDLE_TX := Tx(IDLE, 0, 0, 0, 0, 0)

  // The target slot after a step, the transaction and what the step reported.
  datatype Outcome = Outcome(slot: seq<u8>, tx: Tx, result: StepResult)

  ghost predicate Geometry(slotBytes: nat, headerBytes: nat, totalBytes: nat) {
    && 0 < slotBytes && slotBytes % FLASH_IO_SECTOR_BYTES == 0
    && 0 < headerBytes <= FLASH_IO_CHUNK_BYTES
    && headerBytes < totalBytes <= slotBytes
  }

  // Where a transaction can stand between two steps.
  ghost predicate InFlight(tx: Tx) {
    && Geometry(tx.slotBytes, tx.headerBytes, tx.totalBytes)
    && match tx.phase
       case IDLE => false
       case ERASE => tx.offset < tx.slotBytes && tx.offset % FLASH_IO_SECTOR_BYTES == 0
       case BODY => tx.headerBytes <= tx.offset < tx.totalBytes
       case COMMIT => tx.offset == 0
  }

  function Begin(targetOffset: nat, slotBytes: nat, headerBytes: nat, totalBytes: nat): Tx {
    Tx(ERASE, targetOffset, 0, slotBytes, headerBytes, totalBytes)
  }

  function Min(a: nat, b: nat): nat {
    if a < b then a else b
  }

  function AfterErase(tx: Tx): Tx {
    var offset := tx.offset + FLASH_IO_SECTOR_BYTES;
    if offset == tx.slotBytes then tx.(phase := BODY, offset := tx.headerBytes)
    else tx.(offset := offset)
  }

  function AfterProgram(tx: Tx, chunk: nat): Tx {
    if tx.phase == COMMIT then tx.(phase := IDLE)
    else if tx.offset + chunk == tx.totalBytes then tx.(phase := COMMIT, offset := 0)
    else tx.(offset := tx.offset + chunk)
  }

  // Start and length of the next chunk of a BODY or COMMIT step.
  function ChunkStart(tx: Tx): nat {
    if tx.phase == COMMIT then 0 else tx.offset
  }

  function ChunkBytes(tx: Tx): nat
    requires tx.phase == COMMIT || tx.offset <= tx.totalBytes
  {
    Min(if tx.phase == COMMIT then tx.headerBytes else tx.totalBytes - tx.offset, FLASH_IO_CHUNK_BYTES)
  }

  lemma SectorFits(tx: Tx)
    requires InFlight(tx) && tx.phase == ERASE
    ensures tx.offset + FLASH_IO_SECTOR_BYTES <= tx.slotBytes
    ensures InFlight(AfterErase(tx))
  {
  }

  lemma ChunkFits(tx: Tx)
    requires InFlight(tx) && tx.phase != ERASE
    ensures 0 < ChunkBytes(tx) && ChunkStart(tx) + ChunkBytes(tx) <= tx.totalBytes
    ensures tx.phase == BODY ==> InFlight(AfterProgram(tx, ChunkBytes(tx)))
    ensures tx.phase == COMMIT ==> ChunkBytes(tx) == tx.headerBytes
  {
  }

  // One call of the step function, as a value: at most one sector is erased or
  // one chunk programmed, all inside the target slot.
  function StoreStep(slot: seq<u8>, image: seq<u8>, tx: Tx, fault: Fault): (o: Outcome)
    requires |slot| == tx.slotBytes
    requires tx.phase != IDLE ==> InFlight(tx) && |image| == tx.totalBytes
    ensures |o.slot| == |slot|
  {
    if tx.phase == IDLE || fault == LockTimeout then Outcome(slot, tx, FAILED)
    else if fault == IoError then Outcome(slot, tx.(phase := IDLE), FAILED)
    else if tx.phase == ERASE then
      Outcome(EraseCells(slot, tx.offset, tx.offset + FLASH_IO_SECTOR_BYTES), AfterErase(tx), MORE)
    else
      ChunkFits(tx);
      var from, chunk := ChunkStart(tx), ChunkBytes(tx);
      Outcome(ProgramCells(slot, image, from, from + chunk), AfterProgram(tx, chunk),
              if tx.phase == COMMIT then COMPLETE else MORE)
  }

  // ----- what a transaction has done to its slot so far -----

  ghost predicate Reached(tx: Tx) {
    InFlight(tx) || (tx.phase == IDLE && Geometry(tx.slotBytes, tx.headerBytes, tx.totalBytes))
  }

  // Byte i of the slot: the old byte before its sector is erased, then blank
  // until its chunk is programmed; header bytes stay blank until the commit.
  function ProgressByte(before: seq<u8>, image: seq<u8>, tx: Tx, i: nat): u8
    requires |before| == tx.slotBytes && |image| == tx.totalBytes && i < tx.slotBytes
  {
    if tx.phase == ERASE then (if i < tx.offset then ERASED else before[i])
    else if i >= tx.totalBytes then ERASED
    else if tx.phase == IDLE then image[i]
    else if i < tx.headerBytes then ERASED
    else if tx.phase == COMMIT || i < tx.offset then image[i]
    else ERASED
  }

  function Progress(before: seq<u8>, image: seq<u8>, tx: Tx): (b: seq<u8>)
    requires |before| == tx.slotBytes && |image| == tx.totalBytes
    ensures |b| == tx.slotBytes
  {
    seq(tx.slotBytes, i requires 0 <= i < tx.slotBytes => ProgressByte(before, image, tx, i))
  }

  lemma EraseProgress(before: seq<u8>, image: seq<u8>, tx: Tx)
    requires InFlight(tx) && |before| == tx.slotBytes && |image| == tx.totalBytes && tx.phase == ERASE
    ensures var o := StoreStep(Progress(before, image, tx), image, tx, NoFault);
            InFlight(o.tx) && o.slot == Progress(before, image, o.tx)
  {
    SectorFits(tx);
  }

  lemma ChunkProgress(before: seq<u8>, image: seq<u8>, tx: Tx)
    requires InFlight(tx) && |before| == tx.slotBytes && |image| == tx.totalBytes && tx.phase != ERASE
    ensures var o := StoreStep(Progress(before, image, tx), image, tx, NoFault);
            && (if tx.phase == COMMIT then o.tx == tx.(phase := IDLE) else InFlight(o.tx))
            && o.slot == Progress(before, image, o.tx)
  {
    ChunkFits(tx);
    ProgramErasedCells(Progress(before, image, tx), image, ChunkStart(tx), ChunkStart(tx) + ChunkBytes(tx));
  }

  // Every fault-free step advances the slot from one point of the replacement
  // to the next, and only the header program completes it; a faulty step
  // leaves the slot where it was.
  lemma StepProgress(before: seq<u8>, image: seq<u8>, tx: Tx, fault: Fault)
    requires InFlight(tx) && |before| == tx.slotBytes && |image| == tx.totalBytes
    ensures var slot := Progress(before, image, tx);
            var o := StoreStep(slot, image, tx, fault);
            && (fault != NoFault ==> o.slot == slot && o.result == FAILED)
            && (fault == LockTimeout ==> o.tx == tx)
            && (fault == IoError ==> o.tx == tx.(phase := IDLE))
            && (fault == NoFault ==>
                  && o.result == (if tx.phase == COMMIT then COMPLETE else MORE)
                  && (if tx.phase == COMMIT then o.tx == tx.(phase := IDLE) else InFlight(o.tx))
                  && o.tx == tx.(phase := o.tx.phase, offset := o.tx.offset)
                  && o.slot == Progress(before, image, o.tx))
  {
    if fault == NoFault {
      if tx.phase == ERASE {
        EraseProgress(before, image, tx);
      } else {
        ChunkProgress(before, image, tx);
      }
    }
  }

  // ----- length of a transaction -----

  function CeilDiv(a: nat, b: nat): nat
    requires b > 0
  {
    (a + b - 1) / b
  }

  function StepsLeft(tx: Tx): nat
    requires tx.phase != IDLE ==> InFlight(tx)
  {
    match tx.phase
    case IDLE => 0
    case ERASE => (tx.slotBytes - tx.offset) / FLASH_IO_SECTOR_BYTES +
                  CeilDiv(tx.totalBytes - tx.headerBytes, FLASH_IO_CHUNK_BYTES) + 1
    case BODY => CeilDiv(tx.totalBytes - tx.offset, FLASH_IO_CHUNK_BYTES) + 1
    case COMMIT => 1
  }

  lemma ChunkCountStep(bytes: nat)
    requires bytes > 0
    ensures CeilDiv(bytes, FLASH_IO_CHUNK_BYTES)
         == 1 + CeilDiv(bytes - Min(bytes, FLASH_IO_CHUNK_BYTES), FLASH_IO_CHUNK_BYTES)
  {
  }

  lemma StepCounts(slot: seq<u8>, image: seq<u8>, tx: Tx)
    requires InFlight(tx) && |slot| == tx.slotBytes && |image| == tx.totalBytes
    ensures var o := StoreStep(slot, image, tx, NoFault);
            && (o.tx.phase != IDLE ==> InFlight(o.tx))
            && o.tx == tx.(phase := o.tx.phase, offset := o.tx.offset)
            && StepsLeft(o.tx) == StepsLeft(tx) - 1
            && o.result == (if StepsLeft(tx) == 1 then COMPLETE else MORE)
  {
    if tx.phase == ERASE {
      SectorFits(tx);
    } else {
      ChunkFits(tx);
      if tx.phase == BODY {
        ChunkCountStep(tx.totalBytes - tx.offset);
      }
    }
  }

  function RunSteps(slot: seq<u8>, image: seq<u8>, tx: Tx, n: nat): Outcome
    requires InFlight(tx) && |slot| == tx.slotBytes && |image| == tx.totalBytes
    requires 0 < n <= StepsLeft(tx)
    decreases n
  {
    StepCounts(slot, image, tx);
    var o := StoreStep(slot, image, tx, NoFault);
    if n == 1 then o else RunSteps(o.slot, image, o.tx, n - 1)
  }

  // The slot a completed transaction leaves behind.
  function Replaced(before: seq<u8>, image: seq<u8>): (b: seq<u8>)
    ensures |b| == |before|
  {
    seq(|before|, i requires 0 <= i < |before| => if i < |image| then image[i] else ERASED)
  }

  lemma {:induction false} RunLength(before: seq<u8>, image: seq<u8>, tx: Tx, n: nat)
    requires InFlight(tx) && |before| == tx.slotBytes && |image| == tx.totalBytes
    requires 0 < n <= StepsLeft(tx)
    ensures var o := RunSteps(Progress(before, image, tx), image, tx, n);
            && o.result == (if n == StepsLeft(tx) then COMPLETE else MORE)
            && (n == StepsLeft(tx) ==> o.slot == Replaced(before, image))
    decreases n
  {
    var slot := Progress(before, image, tx);
    StepCounts(slot, image, tx);
    StepProgress(before, image, tx, NoFault);
    if n > 1 {
      RunLength(before, image, StoreStep(slot, image, tx, NoFault).tx, n - 1);
    }
  }

  lemma FreshTransaction(targetOffset: nat, slotBytes: nat, headerBytes: nat, totalBytes: nat)
    requires Geometry(slotBytes, headerBytes, totalBytes)
    ensures var tx := Begin(targetOffset, slotBytes, headerBytes, totalBytes);
            && InFlight(tx)
            && StepsLeft(tx)
               == slotBytes / FLASH_IO_SECTOR_BYTES + CeilDiv(totalBytes - headerBytes, FLASH_IO_CHUNK_BYTES) + 1
  {
  }

  // A transaction without faults reports MORE until exactly
  // slotBytes / 4096 + ceil((total - header) / 1024) + 1 steps were taken; then
  // it is complete and the slot holds the whole image.
  lemma TransactionLength(before: seq<u8>, image: seq<u8>, targetOffset: nat, headerBytes: nat, n: nat)
    requires Geometry(|before|, headerBytes, |image|)
    requires var steps := |before| / FLASH_IO_SECTOR_BYTES +
                          CeilDiv(|image| - headerBytes, FLASH_IO_CHUNK_BYTES) + 1;
             0 < n <= steps
    ensures var tx := Begin(targetOffset, |before|, headerBytes, |image|);
            var steps := |before| / FLASH_IO_SECTOR_BYTES +
                         CeilDiv(|image| - headerBytes, FLASH_IO_CHUNK_BYTES) + 1;
            && StepsLeft(tx) == steps
            && RunSteps(before, image, tx, n).result == (if n == steps then COMPLETE else MORE)
            && (n == steps ==> RunSteps(before, image, tx, n).slot == Replaced(before, image))
  {
    var tx := Begin(targetOffset, |before|, headerBytes, |image|);
    assert Progress(before, image, tx) == before;
    RunLength(before, image, tx, n);
  }

  // ----- the step as the code performs it -----

  class Partition {
    const cells: array<u8>

    constructor (size: nat)
      ensures fresh(cells) && cells.Length == size && cells[..] == Blank(size)
    {
      var blank: array<u8> := new u8[size](i => ERASED);
      cells := blank;
      new;
      assert cells[..] == Blank(size);
    }

    method EraseRange(offset: nat, length: nat)
      requires offset + length <= cells.Length
      modifies cells
      ensures forall i :: 0 <= i < cells.Length ==>
        cells[i] == if offset <= i < offset + length then ERASED else old(cells[i])
    {
      forall i | offset <= i < offset + length {
        cells[i] := ERASED;
      }
    }

    // What an operation that failed part way may leave behind.
    method Damage(offset: nat, garbage: seq<u8>)
      requires offset + |garbage| <= cells.Length
      modifies cells
      ensures cells[..] == WithSlot(old(cells[..]), offset, garbage)
    {
      forall i | offset <= i < offset + |garbage| {
        cells[i] := garbage[i - offset];
      }
    }

    // Programs source[from..from + length) at offset.
    method Write(offset: nat, source: seq<u8>, from: nat, length: nat)
      requires offset + length <= cells.Length && from + length <= |source|
      modifies cells
      ensures forall i :: 0 <= i < cells.Length ==>
        cells[i] == if offset <= i < offset + length
                    then ProgramCell(old(cells[i]), source[from + i - offset]) else old(cells[i])
    {
      forall i | offset <= i < offset + length {
        cells[i] := ProgramCell(cells[i], source[from + i - offset]);
      }
    }
  }

  class FlashStoreTransaction {
    var phase: Phase
    var targetOffset: nat
    var offset: nat
    var slotBytes: nat
    var headerBytes: nat
    var totalBytes: nat

    function View(): Tx
      reads this
    {
      Tx(phase, targetOffset, offset, slotBytes, headerBytes, totalBytes)
    }

    constructor ()
      ensures View() == IDLE_TX
    {
      phase, targetOffset, offset, slotBytes, headerBytes, totalBytes := IDLE, 0, 0, 0, 0, 0;
    }

    method Clear()
      modifies this
      ensures View() == IDLE_TX
    {
      phase, targetOffset, offset, slotBytes, headerBytes, totalBytes := IDLE, 0, 0, 0, 0, 0;
    }

    // A fresh transaction has changed nothing of its slot, and needs every step.
    method BeginFlashStoreTransaction(target: nat, slot: nat, header: nat, total: nat)
      modifies this
      ensures View() == Begin(target, slot, header, total)
      ensures Geometry(slot, header, total) ==>
        && InFlight(View())
        && StepsLeft(View()) == slot / FLASH_IO_SECTOR_BYTES + CeilDiv(total - header, FLASH_IO_CHUNK_BYTES) + 1
      ensures forall before, image :: |before| == slot && |image| == total ==>
        Progress(before, image, View()) == before
    {
      if Geometry(slot, header, total) {
        FreshTransaction(target, slot, header, total);
      }
      phase := ERASE;
      targetOffset := target;
      offset := 0;
      slotBytes := slot;
      headerBytes := header;
      totalBytes := total;
    }

    method EraseNextSector(part: Partition)
      requires targetOffset + slotBytes <= part.cells.Length
      requires InFlight(View()) && phase == ERASE
      modifies this, part.cells
      ensures var tx := old(View());
              var t := tx.targetOffset;
              && View() == AfterErase(tx)
              && part.cells[..] == WithSlot(old(part.cells[..]), t,
                   EraseCells(old(part.cells[..])[t..t + tx.slotBytes], tx.offset, tx.offset + FLASH_IO_SECTOR_BYTES))
    {
      SectorFits(View());
      part.EraseRange(targetOffset + offset, FLASH_IO_SECTOR_BYTES);
      offset := offset + FLASH_IO_SECTOR_BYTES;
      if offset == slotBytes {
        phase := BODY;
        offset := headerBytes;
      }
    }

    method ProgramNextChunk(part: Partition, source: seq<u8>)
      requires targetOffset + slotBytes <= part.cells.Length
      requires InFlight(View()) && phase != ERASE && |source| == totalBytes
      modifies this, part.cells
      ensures var tx := old(View());
              var t, from, chunk := tx.targetOffset, ChunkStart(tx), ChunkBytes(tx);
              && View() == AfterProgram(tx, chunk)
              && from + chunk <= |source|
              && part.cells[..] == WithSlot(old(part.cells[..]), t,
                   ProgramCells(old(part.cells[..])[t..t + tx.slotBytes], source, from, from + chunk))
    {
      ChunkFits(View());
      var from, chunk := ChunkStart(View()), ChunkBytes(View());
      part.Write(targetOffset + from, source, from, chunk);
      if phase == COMMIT {
        phase := IDLE;
      } else {
        offset := offset + chunk;
        if offset == totalBytes {
          phase := COMMIT;
          offset := 0;
        }
      }
    }

    // At most one erase or program operation, inside the target slot.
    method FlashIoStoreStep(part: Partition, source: seq<u8>, fault: Fault) returns (result: StepResult)
      requires targetOffset + slotBytes <= part.cells.Length
      requires phase != IDLE ==> InFlight(View()) && |source| == totalBytes
      modifies this, part.cells
      ensures var tx := old(View());
              var t := tx.targetOffset;
              var o := StoreStep(old(part.cells[..])[t..t + tx.slotBytes], source, tx, fault);
              && View() == o.tx && result == o.result
              && part.cells[..] == WithSlot(old(part.cells[..]), t, o.slot)
    {
      if phase == IDLE || fault == LockTimeout {
        return FAILED;
      }
      if fault == IoError {
        phase := IDLE;
        return FAILED;
      }
      if phase == ERASE {
        EraseNextSector(part);
      } else {
        ProgramNextChunk(part, source);
      }
      result := if phase == IDLE then COMPLETE else MORE;
    }
  }
}
