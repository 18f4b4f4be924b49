// The three deferred stores the persistence worker serves one flash operation
// at a time, with a cursor over the stores and a failure latch for each.
module ActivationStores {
  import opened Bytes
  import opened HistoryTypes
  import opened HistoryRing
  import opened FlashIo
  import opened DualSlotLog
  import opened HistoryLogModule

  const STORES: nat := 3

  // One log and the partition it lives on.
  datatype Part = Part(flash: seq<u8>, log: Log)

  datatype Stores = Stores(parts: seq<Part>, cursor: nat, latched: seq<bool>)

  // `emitted` is whether the call reported a persist failure to the event sink.
  datatype Report = Report(anyFail: bool, anyIoFail: bool, complete: bool, emitted: bool)

  ghost predicate PartOk(p: Part) {
    FlashSized(p.flash) && LogShaped(p.log)
  }

  ghost predicate StoresOk(s: Stores) {
    && |s.parts| == STORES == |s.latched| && s.cursor <= STORES
    && forall k :: 0 <= k < STORES ==> PartOk(s.parts[k])
  }

  function StepPart(crc: Checksum, p: Part, fault: Fault): (r: Part)
    requires PartOk(p)
  {
    var f := FlushStep(crc, p.flash, p.log, fault);
    Part(f.flash, f.log)
  }

  function StepResultOf(crc: Checksum, p: Part, fault: Fault): StepResult
    requires PartOk(p)
  {
    FlushStep(crc, p.flash, p.log, fault).result
  }

  datatype Served = Served(stores: Stores, report: Report)

  // A failure counts as one of the flash unless the shared count of lock
  // timeouts moved during the step; `others` is whether another task moved it.
  predicate IsIoFailure(fault: Fault, others: bool) {
    fault != LockTimeout && !others
  }

  // One call: clean stores are passed over until one step of a dirty store was
  // taken; its completion ends the call too, unless it was the last store.
  function ServiceCall(crc: Checksum, s: Stores, fault: Fault, others: bool): (r: Served)
    requires StoresOk(s)
    ensures |r.stores.latched| == STORES
    decreases STORES - s.cursor
  {
    if s.cursor == STORES then Served(s.(cursor := 0), Report(false, false, true, false))
    else
      var k := s.cursor;
      var part := StepPart(crc, s.parts[k], fault);
      StepPartOk(crc, s.parts[k], fault);
      var parts := s.parts[k := part];
      match StepResultOf(crc, s.parts[k], fault)
      case FAILED =>
        Served(Stores(parts, 0, s.latched[k := true]), Report(true, IsIoFailure(fault, others), true, !s.latched[k]))
      case MORE => Served(Stores(parts, k, s.latched), Report(false, false, false, false))
      case COMPLETE =>
        var next := Stores(parts, k + 1, s.latched[k := false]);
        if k + 1 < STORES && s.parts[k].log.dirty then Served(next, Report(false, false, false, false))
        else ServiceCall(crc, next, fault, others)
  }

  lemma StepPartOk(crc: Checksum, p: Part, fault: Fault)
    requires PartOk(p)
    ensures PartOk(StepPart(crc, p, fault))
    ensures !p.log.dirty ==> StepPart(crc, p, fault) == p && StepResultOf(crc, p, fault) == COMPLETE
    ensures StepResultOf(crc, p, fault) == COMPLETE ==> !StepPart(crc, p, fault).log.dirty
  {
    hide Advance;
    if p.log.dirty {
      StartedShape(crc, p.log);
      AdvanceShape(p.flash, Started(crc, p.log), fault);
    }
  }

  lemma AdvanceShape(flash: seq<u8>, log: Log, fault: Fault)
    requires FlashSized(flash) && LogShaped(log) && log.tx.phase != IDLE
    ensures LogShaped(Advance(flash, log, fault).log)
    ensures Advance(flash, log, fault).result == COMPLETE ==> !Advance(flash, log, fault).log.dirty
  {
    StepStaysInFlight(flash, log, fault);
  }

  // ----- at most one flash operation a call -----

  // Position of the store a call steps, or STORES when all the rest are clean.
  function FirstDirty(s: Stores): (k: nat)
    requires StoresOk(s)
    ensures s.cursor <= k <= STORES
    ensures forall j :: s.cursor <= j < k ==> !s.parts[j].log.dirty
    ensures k < STORES ==> s.parts[k].log.dirty
    decreases STORES - s.cursor
  {
    if s.cursor == STORES || s.parts[s.cursor].log.dirty then s.cursor
    else FirstDirty(s.(cursor := s.cursor + 1))
  }

  // A call changes at most the first dirty store from the cursor on, by exactly
  // one flush step, so at most one erase or program is made.
  lemma {:induction false} OneOperationPerCall(crc: Checksum, s: Stores, fault: Fault, others: bool)
    requires StoresOk(s)
    ensures var k := FirstDirty(s);
            ServiceCall(crc, s, fault, others).stores.parts
              == if k < STORES then s.parts[k := StepPart(crc, s.parts[k], fault)] else s.parts
    decreases STORES - s.cursor
  {
    hide StepPart, StepResultOf, PartOk;
    if s.cursor < STORES {
      var c := s.cursor;
      StepPartOk(crc, s.parts[c], fault);
      if s.parts[c].log.dirty {
        LastStoreEnds(crc, s, fault, others);
      } else {
        assert s.parts[c := s.parts[c]] == s.parts;
        OneOperationPerCall(crc, Stores(s.parts, c + 1, s.latched[c := false]), fault, others);
        FirstDirtyIgnoresLatches(s.(cursor := c + 1), s.latched[c := false]);
      }
    }
  }

  lemma {:induction false} FirstDirtyIgnoresLatches(s: Stores, latched: seq<bool>)
    requires StoresOk(s) && |latched| == STORES
    ensures FirstDirty(s.(latched := latched)) == FirstDirty(s)
    decreases STORES - s.cursor
  {
    if s.cursor < STORES {
      FirstDirtyIgnoresLatches(s.(cursor := s.cursor + 1), latched);
    }
  }

  lemma LastStoreEnds(crc: Checksum, s: Stores, fault: Fault, others: bool)
    requires StoresOk(s) && s.cursor < STORES && s.parts[s.cursor].log.dirty
    ensures ServiceCall(crc, s, fault, others).stores.parts
         == s.parts[s.cursor := StepPart(crc, s.parts[s.cursor], fault)]
    ensures ServiceCall(crc, s, fault, others).report.complete
        <==> StepResultOf(crc, s.parts[s.cursor], fault) == FAILED ||
             (s.cursor == STORES - 1 && StepResultOf(crc, s.parts[s.cursor], fault) == COMPLETE)
  {
    hide StepPart, StepResultOf, PartOk;
    StepPartOk(crc, s.parts[s.cursor], fault);
  }

  // ----- how many calls a flush takes -----

  const FULL_TRANSACTION: nat := 21

  // Steps a log still needs.
  function StepsOf(log: Log): nat
    requires LogShaped(log)
  {
    if !log.dirty then 0 else if log.tx.phase == IDLE then FULL_TRANSACTION else StepsLeft(log.tx)
  }

  lemma FullTransaction(slot: nat)
    requires slot < SLOT_COUNT
    ensures StepsLeft(Begin(slot * SLOT_BYTES, SLOT_BYTES, HEADER_BYTES, STORE_BYTES)) == FULL_TRANSACTION
  {
  }

  lemma StepOfPart(crc: Checksum, p: Part)
    requires PartOk(p) && p.log.dirty
    ensures PartOk(StepPart(crc, p, NoFault))
    ensures StepsOf(p.log) > 0 && StepsOf(StepPart(crc, p, NoFault).log) == StepsOf(p.log) - 1
    ensures StepResultOf(crc, p, NoFault) == if StepsOf(p.log) == 1 then COMPLETE else MORE
  {
    hide Encode, Prepared, SlotAt, StoreStep, StepsLeft;
    StepPartOk(crc, p, NoFault);
    StartedShape(crc, p.log);
    FullTransaction(1 - p.log.activeSlot);
    var begun := Started(crc, p.log);
    StepCounts(SlotAt(p.flash, 1 - begun.activeSlot), Encode(begun.store), begun.tx);
    assert StepsLeft(begun.tx) == StepsOf(p.log);
    StepsOfIdle(StoreStep(SlotAt(p.flash, 1 - begun.activeSlot), Encode(begun.store), begun.tx, NoFault).tx);
  }

  lemma StepsOfIdle(tx: Tx)
    requires tx.phase != IDLE ==> InFlight(tx)
    ensures StepsLeft(tx) == 0 <==> tx.phase == IDLE
  {
  }

  function StepsFrom(parts: seq<Part>, k: nat): nat
    requires |parts| == STORES && k <= STORES
    requires forall j :: 0 <= j < STORES ==> PartOk(parts[j])
    decreases STORES - k
  {
    if k == STORES then 0
    else
      assert PartOk(parts[k]);
      StepsOf(parts[k].log) + StepsFrom(parts, k + 1)
  }

  lemma {:induction false} StepsFromAgree(p: seq<Part>, q: seq<Part>, k: nat)
    requires |p| == STORES == |q| && k <= STORES
    requires forall j :: 0 <= j < STORES ==> PartOk(p[j]) && PartOk(q[j])
    requires forall j :: k <= j < STORES ==> p[j] == q[j]
    ensures StepsFrom(p, k) == StepsFrom(q, k)
    decreases STORES - k
  {
    if k < STORES {
      StepsFromAgree(p, q, k + 1);
    }
  }

  // Fault-free calls until a flush of all three stores is complete: one a step,
  // and one more to see that nothing is left unless the last store went last.
  function CallsLeft(s: Stores): nat
    requires StoresOk(s)
  {
    StepsFrom(s.parts, s.cursor) + if s.parts[STORES - 1].log.dirty then 0 else 1
  }

  lemma SkipClean(crc: Checksum, s: Stores, others: bool)
    requires StoresOk(s) && s.cursor < STORES && !s.parts[s.cursor].log.dirty
    ensures var next := Stores(s.parts, s.cursor + 1, s.latched[s.cursor := false]);
            && ServiceCall(crc, s, NoFault, others) == ServiceCall(crc, next, NoFault, others)
            && CallsLeft(next) == CallsLeft(s)
  {
    hide ServiceCall, PartOk;
    SkipCall(crc, s, NoFault, others);
    StepsOfClean(s.parts[s.cursor]);
  }

  lemma StepsOfClean(p: Part)
    requires PartOk(p) && !p.log.dirty
    ensures StepsOf(p.log) == 0
  {
  }

  lemma StepDirty(crc: Checksum, s: Stores, others: bool)
    requires StoresOk(s) && s.cursor < STORES && s.parts[s.cursor].log.dirty
    ensures var r := ServiceCall(crc, s, NoFault, others);
            && StoresOk(r.stores) && !r.report.anyFail && !r.report.anyIoFail
            && (CallsLeft(s) == 1 <==> r.report.complete)
            && (!r.report.complete ==> r.stores.cursor < STORES && CallsLeft(r.stores) == CallsLeft(s) - 1)
  {
    hide StepPart, StepResultOf, PartOk, StepsOf;
    var k := s.cursor;
    StepOfPart(crc, s.parts[k]);
    StepPartOk(crc, s.parts[k], NoFault);
    var part := StepPart(crc, s.parts[k], NoFault);
    var parts := s.parts[k := part];
    StepsFromAgree(parts, s.parts, k + 1);
    MoreMeansDirty(crc, s.parts[k]);
    if k < STORES - 1 {
      LastDirtyCounts(crc, s.parts, k + 1);
    }
  }

  lemma {:induction false} LastDirtyCounts(crc: Checksum, parts: seq<Part>, k: nat)
    requires |parts| == STORES && k < STORES
    requires forall j :: 0 <= j < STORES ==> PartOk(parts[j])
    ensures parts[STORES - 1].log.dirty ==> StepsFrom(parts, k) > 0
    decreases STORES - k
  {
    hide StepsOf;
    if k < STORES - 1 {
      LastDirtyCounts(crc, parts, k + 1);
    } else if parts[k].log.dirty {
      StepOfPart(crc, parts[k]);
    }
  }

  lemma MoreMeansDirty(crc: Checksum, p: Part)
    requires PartOk(p) && p.log.dirty
    ensures StepPart(crc, p, NoFault).log.dirty == (StepResultOf(crc, p, NoFault) != COMPLETE)
  {
    hide Encode, Prepared, SlotAt, StoreStep;
    StartedShape(crc, p.log);
  }

  // Every fault-free call brings completion exactly one call nearer.
  lemma {:induction false} EachCallCounts(crc: Checksum, s: Stores, others: bool)
    requires StoresOk(s) && s.cursor < STORES
    ensures var r := ServiceCall(crc, s, NoFault, others);
            && StoresOk(r.stores) && !r.report.anyFail && !r.report.anyIoFail && CallsLeft(s) > 0
            && (CallsLeft(s) == 1 <==> r.report.complete)
            && (!r.report.complete ==> r.stores.cursor < STORES && CallsLeft(r.stores) == CallsLeft(s) - 1)
    decreases STORES - s.cursor
  {
    hide PartOk, StepPart, StepResultOf;
    if s.parts[s.cursor].log.dirty {
      StepDirty(crc, s, others);
      DirtyNeedsSteps(s);
    } else {
      SkipClean(crc, s, others);
      if s.cursor + 1 < STORES {
        EachCallCounts(crc, Stores(s.parts, s.cursor + 1, s.latched[s.cursor := false]), others);
      }
    }
  }

  lemma DirtyNeedsSteps(s: Stores)
    requires StoresOk(s) && s.cursor < STORES && s.parts[s.cursor].log.dirty
    ensures CallsLeft(s) > 0
  {
    StepsOfIdle(s.parts[s.cursor].log.tx);
  }

  // The n-th of a series of fault-free calls, whatever other tasks' locks do.
  function NthCall(crc: Checksum, s: Stores, n: nat, others: seq<bool>): Served
    requires StoresOk(s) && s.cursor < STORES && 0 < n <= CallsLeft(s) && n <= |others|
    decreases n
  {
    EachCallCounts(crc, s, others[0]);
    var r := ServiceCall(crc, s, NoFault, others[0]);
    if n == 1 then r else NthCall(crc, r.stores, n - 1, others[1..])
  }

  lemma {:induction false} FlushCompletes(crc: Checksum, s: Stores, n: nat, others: seq<bool>)
    requires StoresOk(s) && s.cursor < STORES && 0 < n <= CallsLeft(s) && n <= |others|
    ensures var r := NthCall(crc, s, n, others).report;
            !r.anyFail && !r.anyIoFail && (r.complete <==> n == CallsLeft(s))
    decreases n
  {
    hide ServiceCall, StoresOk, CallsLeft;
    EachCallCounts(crc, s, others[0]);
    if n > 1 {
      FlushCompletes(crc, ServiceCall(crc, s, NoFault, others[0]).stores, n - 1, others[1..]);
    }
  }

  // ----- failures -----

  lemma SkipCall(crc: Checksum, s: Stores, fault: Fault, others: bool)
    requires StoresOk(s) && s.cursor < STORES && !s.parts[s.cursor].log.dirty
    ensures ServiceCall(crc, s, fault, others)
         == ServiceCall(crc, Stores(s.parts, s.cursor + 1, s.latched[s.cursor := false]), fault, others)
  {
    hide StepPart, StepResultOf, PartOk;
    StepPartOk(crc, s.parts[s.cursor], fault);
    assert s.parts[s.cursor := s.parts[s.cursor]] == s.parts;
  }

  // What a call reports and latches when it steps store k.
  ghost predicate Reports(s: Stores, k: nat, r: Served, failed: bool, io: bool)
    requires |s.latched| == |r.stores.latched| == STORES
  {
    && (r.report.anyFail <==> k < STORES && failed)
    && (r.report.anyIoFail <==> r.report.anyFail && io)
    && (r.report.emitted <==> k < STORES && failed && !s.latched[k])
    && forall j :: 0 <= j < STORES && r.stores.latched[j] ==> s.latched[j] || (k < STORES && failed && j == k)
  }

  lemma DirtyCallReports(crc: Checksum, s: Stores, fault: Fault, others: bool)
    requires StoresOk(s) && s.cursor < STORES && s.parts[s.cursor].log.dirty
    ensures var failed := StepResultOf(crc, s.parts[s.cursor], fault) == FAILED;
            var r := ServiceCall(crc, s, fault, others);
            Reports(s, s.cursor, r, failed, IsIoFailure(fault, others)) && (failed ==> r.stores.latched[s.cursor])
  {
    hide StepPart, StepResultOf, PartOk;
    StepPartOk(crc, s.parts[s.cursor], fault);
  }

  // A failure is reported exactly if its store had not failed since its last
  // completed flush; nothing else is reported, and no other latch is set.
  lemma {:induction false} FailuresAreReportedOnce(crc: Checksum, s: Stores, fault: Fault, others: bool)
    requires StoresOk(s)
    ensures var k, r := FirstDirty(s), ServiceCall(crc, s, fault, others);
            var failed := k < STORES && StepResultOf(crc, s.parts[k], fault) == FAILED;
            Reports(s, k, r, failed, fault != LockTimeout && !others) && (failed ==> r.stores.latched[k])
    decreases STORES - s.cursor
  {
    hide ServiceCall, StepPart, StepResultOf, PartOk;
    var c := s.cursor;
    if c == STORES {
      CallEnds(crc, s, fault, others);
    } else if s.parts[c].log.dirty {
      DirtyCallReports(crc, s, fault, others);
    } else {
      SkipCall(crc, s, fault, others);
      FailuresAreReportedOnce(crc, Stores(s.parts, c + 1, s.latched[c := false]), fault, others);
      FirstDirtyIgnoresLatches(s.(cursor := c + 1), s.latched[c := false]);
    }
  }

  // A flush that starts fresh takes 21 calls for each dirty store, and one more
  // unless the last store is dirty.
  lemma FreshFlushLength(s: Stores)
    requires StoresOk(s) && s.cursor == 0
    requires forall k :: 0 <= k < STORES ==> s.parts[k].log.tx.phase == IDLE
    ensures CallsLeft(s) ==
      FULL_TRANSACTION * ((if s.parts[0].log.dirty then 1 else 0) + (if s.parts[1].log.dirty then 1 else 0)
                          + (if s.parts[2].log.dirty then 1 else 0))
      + (if s.parts[2].log.dirty then 0 else 1)
  {
    assert StepsFrom(s.parts, 2) == StepsOf(s.parts[2].log) + StepsFrom(s.parts, 3);
    assert StepsFrom(s.parts, 1) == StepsOf(s.parts[1].log) + StepsFrom(s.parts, 2);
    assert StepsFrom(s.parts, 0) == StepsOf(s.parts[0].log) + StepsFrom(s.parts, 1);
  }

  // ----- the stores as the worker's image holds them -----

  ghost predicate Backed(log: HistoryLog, partition: Partition)
    reads log, log.records, log.tx, partition.cells
  {
    log.Sound() && FlashSized(partition.cells[..])
  }

  ghost function PartView(log: HistoryLog, partition: Partition): (p: Part)
    requires Backed(log, partition)
    reads log, log.records, log.tx, partition.cells
    ensures PartOk(p)
  {
    Part(partition.cells[..], log.View())
  }

  method StepLog(log: HistoryLog, partition: Partition, fault: Fault) returns (result: StepResult)
    requires Backed(log, partition)
    modifies log, log.records, log.tx, partition.cells
    ensures Backed(log, partition)
    ensures PartView(log, partition) == StepPart(log.crc, old(PartView(log, partition)), fault)
    ensures result == StepResultOf(log.crc, old(PartView(log, partition)), fault)
  {
    result := log.FlushStep(partition, fault);
  }

  class BasicActivationStores {
    const crc: Checksum
    const shotLog: HistoryLog
    const shotCurves: HistoryLog
    const historyLog: HistoryLog
    const shotPartition: Partition
    const curvePartition: Partition
    const historyPartition: Partition
    var shotLatched: bool
    var curvesLatched: bool
    var historyLatched: bool
    var persistCursor: nat

    ghost predicate Separate() {
      && shotLog.crc == crc && shotCurves.crc == crc && historyLog.crc == crc
      && shotLog != shotCurves && shotLog != historyLog && shotCurves != historyLog
      && shotLog.records != shotCurves.records && shotLog.records != historyLog.records
      && shotCurves.records != historyLog.records
      && shotLog.tx != shotCurves.tx && shotLog.tx != historyLog.tx && shotCurves.tx != historyLog.tx
      && shotPartition.cells != curvePartition.cells && shotPartition.cells != historyPartition.cells
      && curvePartition.cells != historyPartition.cells
    }

    ghost function Repr(): set<object> {
      {this, shotLog, shotLog.records, shotLog.tx, shotPartition.cells,
       shotCurves, shotCurves.records, shotCurves.tx, curvePartition.cells,
       historyLog, historyLog.records, historyLog.tx, historyPartition.cells}
    }

    ghost predicate Sound()
      reads Repr()
    {
      && Separate() && persistCursor <= STORES
      && Backed(shotLog, shotPartition) && Backed(shotCurves, curvePartition)
      && Backed(historyLog, historyPartition)
    }

    ghost function View(): (s: Stores)
      requires Sound()
      reads Repr()
      ensures StoresOk(s)
    {
      Stores([PartView(shotLog, shotPartition), PartView(shotCurves, curvePartition),
              PartView(historyLog, historyPartition)],
             persistCursor, [shotLatched, curvesLatched, historyLatched])
    }

    constructor (crc: Checksum, size: nat)
      requires size >= SLOT_COUNT * SLOT_BYTES
      ensures Sound() && fresh(Repr()) && this.crc == crc && persistCursor == 0
      ensures !shotLog.dirty && !shotCurves.dirty && !historyLog.dirty
    {
      this.crc := crc;
      shotLog := new HistoryLog(crc);
      shotCurves := new HistoryLog(crc);
      historyLog := new HistoryLog(crc);
      shotPartition := new Partition(size);
      curvePartition := new Partition(size);
      historyPartition := new Partition(size);
      shotLatched, curvesLatched, historyLatched, persistCursor := false, false, false, 0;
    }

    // One flush step of the store under the cursor.
    method StepStore(fault: Fault) returns (result: StepResult)
      requires Sound() && persistCursor < STORES
      modifies Repr() - {this}
      ensures Sound()
      ensures var s := old(View());
              && View() == s.(parts := s.parts[s.cursor := StepPart(crc, s.parts[s.cursor], fault)])
              && result == StepResultOf(crc, s.parts[s.cursor], fault)
    {
      hide PartOk, DualSlotLog.FlushStep, StepPart, StepResultOf;
      if persistCursor == 0 {
        result := StepLog(shotLog, shotPartition, fault);
      } else if persistCursor == 1 {
        result := StepLog(shotCurves, curvePartition, fault);
      } else {
        result := StepLog(historyLog, historyPartition, fault);
      }
    }

    method Latch(value: bool)
      requires Sound() && persistCursor < STORES
      modifies this`shotLatched, this`curvesLatched, this`historyLatched
      ensures Sound()
      ensures View() == old(View()).(latched := old(View()).latched[persistCursor := value])
    {
      hide PartOk;
      if persistCursor == 0 {
        shotLatched := value;
      } else if persistCursor == 1 {
        curvesLatched := value;
      } else {
        historyLatched := value;
      }
    }

    function CursorDirty(): bool
      requires persistCursor < STORES
      reads this, shotLog, shotCurves, historyLog
    {
      if persistCursor == 0 then shotLog.dirty else if persistCursor == 1 then shotCurves.dirty else historyLog.dirty
    }

    function CursorLatched(): bool
      requires persistCursor < STORES
      reads this
    {
      if persistCursor == 0 then shotLatched else if persistCursor == 1 then curvesLatched else historyLatched
    }

    // Serves the store under the cursor; ends the call unless that store was
    // clean, or was the last one and completed.
    method ServeCursor(fault: Fault, others: bool) returns (ends: bool, report: Report)
      requires Sound() && persistCursor < STORES
      modifies Repr()
      ensures Sound()
      ensures ends ==> Served(View(), report) == ServiceCall(crc, old(View()), fault, others)
      ensures !ends ==> persistCursor == old(persistCursor) + 1
      ensures !ends ==> ServiceCall(crc, View(), fault, others) == ServiceCall(crc, old(View()), fault, others)
    {
      hide PartOk, StepPart, StepResultOf, StoresOk, ServiceCall;
      CallUnfolds(crc, View(), fault, others);
      ends, report := true, Report(false, false, false, false);
      var hadDirty := CursorDirty();
      var result := StepStore(fault);
      if result == FAILED {
        var latched := CursorLatched();
        Latch(true);
        persistCursor := 0;
        report := Report(true, IsIoFailure(fault, others), true, !latched);
      } else if result == COMPLETE {
        Latch(false);
        persistCursor := persistCursor + 1;
        ends := persistCursor < STORES && hadDirty;
      }
    }

    method ServiceStep(fault: Fault, others: bool) returns (report: Report)
      requires Sound()
      modifies Repr()
      ensures Sound()
      ensures Served(View(), report) == ServiceCall(crc, old(View()), fault, others)
    {
      hide PartOk, StoresOk, ServiceCall, Backed, PartView;
      ghost var whole := ServiceCall(crc, View(), fault, others);
      var ends := false;
      report := Report(false, false, true, false);
      while persistCursor < STORES && !ends
        invariant Sound()
        invariant !ends ==> ServiceCall(crc, View(), fault, others) == whole
        invariant ends ==> Served(View(), report) == whole
        decreases !ends, STORES - persistCursor
      {
        ends, report := ServeCursor(fault, others);
      }
      if !ends {
        CallEnds(crc, View(), fault, others);
        persistCursor := 0;
        report := Report(false, false, true, false);
      }
    }
  }

  lemma CallEnds(crc: Checksum, s: Stores, fault: Fault, others: bool)
    requires StoresOk(s) && s.cursor == STORES
    ensures ServiceCall(crc, s, fault, others) == Served(s.(cursor := 0), Report(false, false, true, false))
  {
  }

  lemma CallUnfolds(crc: Checksum, s: Stores, fault: Fault, others: bool)
    requires StoresOk(s) && s.cursor < STORES
    ensures var k := s.cursor;
            var parts := s.parts[k := StepPart(crc, s.parts[k], fault)];
            match StepResultOf(crc, s.parts[k], fault)
            case FAILED =>
              ServiceCall(crc, s, fault, others)
              == Served(Stores(parts, 0, s.latched[k := true]), Report(true, IsIoFailure(fault, others), true, !s.latched[k]))
            case MORE =>
              ServiceCall(crc, s, fault, others) == Served(Stores(parts, k, s.latched), Report(false, false, false, false))
            case COMPLETE =>
              var next := Stores(parts, k + 1, s.latched[k := false]);
              && StoresOk(next)
              && ServiceCall(crc, s, fault, others)
                 == if k + 1 < STORES && s.parts[k].log.dirty then Served(next, Report(false, false, false, false))
                    else ServiceCall(crc, next, fault, others)
  {
    hide StepPart, StepResultOf, PartOk;
    StepPartOk(crc, s.parts[s.cursor], fault);
  }
}
