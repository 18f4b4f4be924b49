// The latch and the durable ring together, over runs of records, batched
// flushes, faults and power cuts with reboots.
module AuditSystem {
  import opened Bytes
  import opened AuditCodec
  import opened AuditRing
  import opened AuditLatch
  import opened AuditAppend
  import opened AuditStore

  const FLUSH_BATCH: nat := 8

  // The batch holds what the flush worker copied and has not appended yet.
  datatype System = System(flash: Flash, window: Window, latch: Latch, batch: seq<AuditRecord>)

  datatype Event =
    | Record(record: AuditRecord)     // an admitted audit event enters the latch
    | TakeBatch                       // the worker copies the next pending records
    | AppendNext(fault: AppendFault)  // it appends one; success moves the watermark
    | PowerCut(afterErase: bool)      // between any two flash operations, then a boot

  predicate Enabled(s: System, e: Event) {
    match e
    case Record(record) => IsNormal(record) && s.latch.nextSequence < UINT32_MAX
    case TakeBatch => s.batch == []
    case AppendNext(fault) => s.batch != []
    case PowerCut(afterErase) => afterErase ==> s.batch != []
  }

  // What a boot makes of the flash. A refused scan leaves the latch alone; no
  // run gets there.
  function Boot(sum: Checksum16, f: Flash): (s: System)
    ensures RingShaped(s.latch.ring)
  {
    if ScanWindow(sum, f) == Unreadable then System(f, Window(0, 0, 0), FreshLatch(), [])
    else
      FoundIsReadable(sum, f);
      var w := ScanWindow(sum, f).window;
      System(f, w, AdoptedWindow(FreshLatch(), sum, f, w.start, w.cursor), [])
  }

  function CutFlash(s: System, afterErase: bool): Flash {
    if afterErase then EraseAhead(s.flash, s.window).flash else s.flash
  }

  function Next(sum: Checksum16, s: System, e: Event): System
    requires RingShaped(s.latch.ring) && Enabled(s, e)
  {
    match e
    case Record(record) => s.(latch := Added(s.latch, record))
    case TakeBatch => s.(batch := FirstOf(Pending(s.latch), FLUSH_BATCH))
    case AppendNext(fault) =>
      var a := AppendStep(sum, s.flash, s.window, s.batch[0], fault);
      System(a.flash, a.window,
             if a.ok then FlushedThrough(s.latch, s.batch[0].sequence) else s.latch,
             if a.ok then s.batch[1..] else [])
    case PowerCut(afterErase) => Boot(sum, CutFlash(s, afterErase))
  }

  // ----- the abstract run: every record written, and the ring of those kept -----

  datatype Trace = Trace(kept: Kept, written: seq<AuditRecord>)

  predicate EndsWith(k: Kept, r: AuditRecord) {
    k.records != [] && k.records[|k.records| - 1] == r
  }

  // A record counts as written once the ring ends with it.
  function WithWrite(written: seq<AuditRecord>, kept: Kept, r: AuditRecord): Trace {
    Trace(kept, if EndsWith(kept, r) then written + [r] else written)
  }

  function TraceNext(s: System, t: Trace, e: Event): Trace
    requires Enabled(s, e)
  {
    match e
    case Record(_) => t
    case TakeBatch => t
    case AppendNext(fault) =>
      WithWrite(t.written, KeptAfter(t.kept, s.batch[0], fault), s.batch[0])
    case PowerCut(afterErase) => if afterErase then t.(kept := KeptAhead(t.kept)) else t
  }

  ghost predicate AreNewest(kept: seq<AuditRecord>, written: seq<AuditRecord>) {
    |kept| <= |written| && forall i :: 0 <= i < |kept| ==> kept[i] == written[|written| - |kept| + i]
  }

  // Only the oldest records are ever dropped, and never below 15 sectors; the
  // cursor slot counts the writes.
  ghost predicate TraceOk(t: Trace) {
    && Shape(t.kept.base, |t.kept.records|)
    && AreNewest(t.kept.records, t.written)
    && (|t.kept.records| == |t.written| || |t.kept.records| >= CAPACITY - PER_SECTOR)
    && Wrap(t.kept.base, |t.kept.records|) == SlotIndex(|t.written|)
  }

  ghost predicate LatchOk(l: Latch, high: u32) {
    && RingShaped(l.ring) && Storable(Contents(l.ring))
    && HighOf(Contents(l.ring)) < l.nextSequence && high < l.nextSequence
    && l.pendingAfter == high
  }

  ghost predicate BatchOk(s: System, high: u32) {
    && Storable(s.batch) && HighOf(s.batch) < s.latch.nextSequence
    && (s.batch != [] ==> s.batch[0].sequence > high)
  }

  ghost predicate Inv(sum: Checksum16, s: System, k: Kept) {
    && Tracks(sum, s.flash, s.window, k.base, k.records)
    && LatchOk(s.latch, HighOf(k.records))
    && BatchOk(s, HighOf(k.records))
  }

  // ----- each event keeps the invariant -----

  lemma AddKeepsLatch(l: Latch, record: AuditRecord, high: u32)
    requires LatchOk(l, high) && IsNormal(record) && l.nextSequence < UINT32_MAX
    ensures LatchOk(Added(l, record), high)
    ensures Added(l, record).nextSequence == l.nextSequence + 1
  {
    hide Contents, IsNormal;
    var r := record.(sequence := l.nextSequence);
    assert IsNormal(r) by {
      RenumberedIsNormal(record, l.nextSequence);
    }
    PushedContents(l.ring, r);
    StorableExtends(Contents(l.ring), r);
    LatestIsStorable(Contents(l.ring) + [r]);
  }

  lemma RenumberedIsNormal(record: AuditRecord, sequence: u32)
    requires IsNormal(record)
    ensures IsNormal(record.(sequence := sequence))
  {
  }

  lemma LatestIsStorable(q: seq<AuditRecord>)
    requires Storable(q)
    ensures Storable(Latest(q)) && HighOf(Latest(q)) == HighOf(q)
  {
    if |q| > AUDIT_RECORD_CAPACITY {
      StorableSuffix(q, |q| - AUDIT_RECORD_CAPACITY);
    }
  }

  lemma StorablePrefix(q: seq<AuditRecord>, n: nat)
    requires Storable(q) && n <= |q|
    ensures Storable(q[..n]) && HighOf(q[..n]) <= HighOf(q)
  {
    hide Normal;
  }

  lemma TakeKeepsBatch(l: Latch, high: u32)
    requires LatchOk(l, high)
    ensures var batch := FirstOf(Pending(l), FLUSH_BATCH);
            && Storable(batch) && HighOf(batch) < l.nextSequence
            && (batch != [] ==> batch[0].sequence > high)
  {
    hide Contents, Storable;
    var q := Contents(l.ring);
    var pending := Later(q, l.pendingAfter);
    LaterIsStorable(q, l.pendingAfter);
    StorablePrefix(pending, if |pending| <= FLUSH_BATCH then |pending| else FLUSH_BATCH);
    assert pending[..|pending|] == pending;
    assert pending != [] ==> HighOf(pending) <= HighOf(q);
  }

  lemma BatchMovesOn(batch: seq<AuditRecord>)
    requires Storable(batch) && batch != []
    ensures Storable(batch[1..]) && HighOf(batch[1..]) <= HighOf(batch)
    ensures batch[0].sequence <= HighOf(batch)
    ensures batch[1..] != [] ==> batch[1].sequence > batch[0].sequence
    ensures IsNormal(batch[0])
  {
    hide Normal;
  }

  // The highest sequence on flash moves only with a successful append.
  lemma KeptHigh(k: Kept, r: AuditRecord, fault: AppendFault)
    requires Shape(k.base, |k.records|) && Storable(k.records)
    requires r.sequence > HighOf(k.records) && IsNormal(r)
    ensures var k' := KeptAfter(k, r, fault);
            HighOf(k'.records) == (if k'.records != [] && k'.records[|k'.records| - 1] == r
                                   then r.sequence else HighOf(k.records))
  {
    hide Storable, IsNormal;
    if |k.records| == CAPACITY {
      StorableSuffix(k.records, PER_SECTOR);
    }
    LastIsOlder(k.records, r);
    LastIsOlder(KeptAhead(k).records, r);
  }

  lemma AppendKeepsInv(sum: Checksum16, s: System, k: Kept, fault: AppendFault)
    requires Inv(sum, s, k) && s.batch != []
    ensures Inv(sum, Next(sum, s, AppendNext(fault)), KeptAfter(k, s.batch[0], fault))
  {
    hide Tracks, Storable, IsNormal, Contents, AppendStep, KeptAfter;
    BatchMovesOn(s.batch);
    TracksShape(sum, s.flash, s.window, k.base, k.records);
    AppendTracks(sum, s.flash, s.window, k, s.batch[0], fault);
    KeptHigh(k, s.batch[0], fault);
    NothingIsStorable();
  }

  lemma NothingIsStorable()
    ensures Storable([]) && HighOf([]) == 0
  {
  }

  // ----- recovery -----

  lemma CutTracks(sum: Checksum16, s: System, k: Kept, afterErase: bool)
    requires Inv(sum, s, k)
    ensures var k' := if afterErase then KeptAhead(k) else k;
            && Shape(k'.base, |k'.records|) && Storable(k'.records)
            && CutFlash(s, afterErase) == Layout(sum, k'.base, k'.records)
            && HighOf(k'.records) == HighOf(k.records)
  {
    hide Layout, Storable, EraseAhead, HighOf;
    EraseAheadTracks(sum, s.flash, s.window, k.base, k.records);
    if |k.records| == CAPACITY {
      StorableSuffix(k.records, PER_SECTOR);
    }
  }

  lemma LatchAfterBackfill(rs: seq<AuditRecord>)
    requires Storable(rs) && HighOf(rs) < UINT32_MAX
    ensures LatchOk(Backfilled(rs), HighOf(rs)) && Pending(Backfilled(rs)) == []
  {
    hide Normal, Contents, Later, Backfilled, Storable;
    BackfillContinues(rs);
    LatestIsStorable(rs);
    NothingLater(Latest(rs), HighOf(rs));
  }

  lemma BootAdopts(sum: Checksum16, f: Flash, w: Window, rs: seq<AuditRecord>)
    requires ScanWindow(sum, f) == Found(w) && Carries(sum, f, w, rs)
    ensures Boot(sum, f) == System(f, w, Backfilled(rs), [])
  {
    hide ScanWindow, Carries, AdoptedWindow, Backfilled, Latest;
    FoundIsReadable(sum, f);
    AdoptedIsBackfilled(sum, f, w, rs, |rs|);
    CarriedLength(sum, f, w, rs);
    assert rs[..|rs|] == rs;
  }

  // A boot on any ring brings back its records, a cursor on the same slot, an
  // empty backlog and a sequence that goes on ascending.
  lemma BootRecovers(sum: Checksum16, k: Kept)
    requires Shape(k.base, |k.records|) && Storable(k.records) && HighOf(k.records) < UINT32_MAX
    ensures var f := Layout(sum, k.base, k.records);
            && ScanWindow(sum, f).Found?
            && Carries(sum, f, ScanWindow(sum, f).window, k.records)
            && Inv(sum, Boot(sum, f), k)
            && Pending(Boot(sum, f).latch) == []
  {
    hide Layout, Holds, ScanWindow, Storable, Pending, Backfilled, Boot, HighOf;
    var f := Layout(sum, k.base, k.records);
    LayoutHolds(sum, k.base, k.records);
    StorableAscends(k.records);
    ScanRecovers(sum, f, k.base, k.records);
    var w := ScanWindow(sum, f).window;
    BootAdopts(sum, f, w, k.records);
    LatchAfterBackfill(k.records);
    BaseIsItsSlot(k.base);
    CarriedLength(sum, f, w, k.records);
    NothingIsStorable();
  }

  lemma StorableAscends(rs: seq<AuditRecord>)
    requires Storable(rs)
    ensures AscendingSequences(rs)
  {
  }

  lemma BaseIsItsSlot(base: nat)
    requires base < CAPACITY
    ensures SlotIndex(base) == base
  {
  }

  lemma {:induction false} NothingLater(q: seq<AuditRecord>, high: u32)
    requires Storable(q) && HighOf(q) <= high
    ensures Later(q, high) == []
  {
    hide Normal;
    if q != [] {
      assert |q| > 1 ==> q[|q| - 2].sequence < q[|q| - 1].sequence;
      NothingLater(q[..|q| - 1], high);
    }
  }

  lemma EventKeepsInv(sum: Checksum16, s: System, t: Trace, e: Event)
    requires Inv(sum, s, t.kept) && Enabled(s, e)
    ensures e.PowerCut? ==> ScanWindow(sum, CutFlash(s, e.afterErase)).Found?
    ensures Inv(sum, Next(sum, s, e), TraceNext(s, t, e).kept)
  {
    hide Tracks, Storable, IsNormal, Contents, AppendStep, KeptAfter, Boot, Layout, HighOf, KeptAhead, CutFlash;
    match e
    case Record(record) => AddKeepsLatch(s.latch, record, HighOf(t.kept.records));
    case TakeBatch => TakeKeepsBatch(s.latch, HighOf(t.kept.records));
    case AppendNext(fault) => AppendKeepsInv(sum, s, t.kept, fault);
    case PowerCut(afterErase) =>
      CutTracks(sum, s, t.kept, afterErase);
      BootRecovers(sum, if afterErase then KeptAhead(t.kept) else t.kept);
  }

  lemma AheadKeepsTrace(t: Trace)
    requires TraceOk(t)
    ensures TraceOk(t.(kept := KeptAhead(t.kept)))
  {
  }

  lemma WriteKeepsTrace(t: Trace, r: AuditRecord)
    requires TraceOk(t) && |t.kept.records| < CAPACITY
    ensures TraceOk(Trace(t.kept.(records := t.kept.records + [r]), t.written + [r]))
  {
    RingMoves(|t.written|, 1);
  }

  lemma Unwritten(t: Trace, r: AuditRecord)
    requires TraceOk(t) && !EndsWith(t.kept, r)
    ensures TraceOk(WithWrite(t.written, t.kept, r))
  {
  }

  lemma Written(t: Trace, r: AuditRecord)
    requires TraceOk(t) && |t.kept.records| < CAPACITY
    ensures TraceOk(WithWrite(t.written, t.kept.(records := t.kept.records + [r]), r))
  {
    hide TraceOk;
    WriteKeepsTrace(t, r);
  }

  lemma AppendKeepsTrace(t: Trace, r: AuditRecord, fault: AppendFault)
    requires TraceOk(t) && r.sequence > HighOf(t.kept.records)
    ensures TraceOk(WithWrite(t.written, KeptAfter(t.kept, r, fault), r))
  {
    hide TraceOk, HighOf, WithWrite, KeptAhead, Shape, EndsWith, KeptAfter;
    KeptSize(t);
    KeptAfterCases(t.kept, r, fault);
    LastIsOlder(t.kept.records, r);
    NotTheLast(t.kept, r);
    var kept := KeptAfter(t.kept, r, fault);
    var ahead := Trace(KeptAhead(t.kept), t.written);
    if kept == t.kept {
      Unwritten(t, r);
    } else {
      AheadKeepsTrace(t);
      KeptLast(t.kept, r);
      if kept == ahead.kept {
        Unwritten(ahead, r);
      } else {
        Written(ahead, r);
      }
    }
  }

  lemma NotTheLast(k: Kept, r: AuditRecord)
    requires |k.records| > 0 ==> k.records[|k.records| - 1] != r
    ensures !EndsWith(k, r)
  {
  }

  // A failed append leaves the ring, or the ring one sector ahead; a
  // successful one adds its record to the ring one sector ahead.
  lemma KeptAfterCases(k: Kept, r: AuditRecord, fault: AppendFault)
    requires Shape(k.base, |k.records|)
    ensures var kept := KeptAfter(k, r, fault);
            || kept == k || kept == KeptAhead(k)
            || kept == KeptAhead(k).(records := KeptAhead(k).records + [r])
  {
  }

  lemma EventKeepsTrace(sum: Checksum16, s: System, t: Trace, e: Event)
    requires Inv(sum, s, t.kept) && TraceOk(t) && Enabled(s, e)
    ensures TraceOk(TraceNext(s, t, e))
  {
    hide Tracks, Storable, HighOf, TraceOk, LatchOk, KeptAfter, KeptAhead;
    AheadKeepsTrace(t);
    if e.AppendNext? {
      AppendKeepsTrace(t, s.batch[0], e.fault);
    }
  }

  lemma KeptSize(t: Trace)
    requires TraceOk(t)
    ensures Shape(t.kept.base, |t.kept.records|) && |t.kept.records| <= CAPACITY && t.kept.base < CAPACITY
  {
  }

  lemma KeptLast(k: Kept, r: AuditRecord)
    requires !EndsWith(k, r)
    ensures !EndsWith(KeptAhead(k), r)
    ensures |k.records| <= CAPACITY && k.base < CAPACITY ==> |KeptAhead(k).records| < CAPACITY
  {
  }

  // ----- whole runs -----

  ghost predicate Run(sum: Checksum16, s: System, es: seq<Event>)
    decreases |es|
  {
    es != [] ==>
      && RingShaped(s.latch.ring) && Enabled(s, es[0])
      && Run(sum, Next(sum, s, es[0]), es[1..])
  }

  function After(sum: Checksum16, s: System, es: seq<Event>): System
    requires Run(sum, s, es)
    decreases |es|
  {
    if es == [] then s else After(sum, Next(sum, s, es[0]), es[1..])
  }

  function TraceAfter(sum: Checksum16, s: System, t: Trace, es: seq<Event>): Trace
    requires Run(sum, s, es)
    decreases |es|
  {
    if es == [] then t else TraceAfter(sum, Next(sum, s, es[0]), TraceNext(s, t, es[0]), es[1..])
  }

  lemma {:induction false} RunKeepsInv(sum: Checksum16, s: System, t: Trace, es: seq<Event>)
    requires Inv(sum, s, t.kept) && TraceOk(t) && Run(sum, s, es)
    ensures Inv(sum, After(sum, s, es), TraceAfter(sum, s, t, es).kept)
    ensures TraceOk(TraceAfter(sum, s, t, es))
    decreases |es|
  {
    hide Inv, TraceOk, Next, TraceNext, Enabled, CutFlash;
    if es != [] {
      EventKeepsInv(sum, s, t, es[0]);
      EventKeepsTrace(sum, s, t, es[0]);
      RunKeepsInv(sum, Next(sum, s, es[0]), TraceNext(s, t, es[0]), es[1..]);
    }
  }

  // The state after the first boot on an erased partition.
  function FirstBoot(): System {
    System(ErasedSlots(), Window(0, 0, 0), FreshLatch(), [])
  }

  const NOTHING_WRITTEN := Trace(Kept(0, []), [])

  lemma FirstBootIsABoot(sum: Checksum16)
    ensures ScanWindow(sum, ErasedSlots()).Found? && Boot(sum, ErasedSlots()) == FirstBoot()
    ensures Inv(sum, FirstBoot(), Kept(0, []))
  {
    hide ScanWindow, Layout, Storable, Inv, Boot;
    BlankLayout(sum);
    NothingIsStorable();
    BootRecovers(sum, Kept(0, []));
    BlankScan(sum);
    assert Boot(sum, ErasedSlots()) == FirstBoot() by {
      CarriesNothing(sum);
      BootAdopts(sum, ErasedSlots(), Window(0, 0, 0), []);
    }
  }

  lemma BlankLayout(sum: Checksum16)
    ensures ErasedSlots() == Layout(sum, 0, [])
  {
  }

  lemma CarriesNothing(sum: Checksum16)
    ensures Carries(sum, ErasedSlots(), Window(0, 0, 0), [])
  {
  }

  lemma BlankScan(sum: Checksum16)
    ensures ScanWindow(sum, ErasedSlots()) == Found(Window(0, 0, 0))
  {
    hide Decode, ScanWindow;
    forall k | 0 <= k < CAPACITY
      ensures Decode(sum, ErasedSlots()[k]) == NoRecord
    {
      BlankDecodesToNothing(sum);
    }
    EmptyScan(sum, ErasedSlots());
  }

  lemma BlankDecodesToNothing(sum: Checksum16)
    ensures Decode(sum, EMPTY_SLOT) == NoRecord
  {
  }

  // What a boot finds on flash, against the run that led there.
  ghost predicate Recovered(sum: Checksum16, s: System, t: Trace) {
    && ScanWindow(sum, s.flash).Found?
    && var w := ScanWindow(sum, s.flash).window;
       && Carries(sum, s.flash, w, t.kept.records)
       && w.seqHigh == HighOf(t.kept.records)
       && SlotIndex(w.cursor) == SlotIndex(|t.written|) == SlotIndex(s.window.cursor)
       && |t.kept.records| <= |t.written|
       && t.kept.records == t.written[|t.written| - |t.kept.records|..]
       && (|t.kept.records| == |t.written| || |t.kept.records| >= CAPACITY - PER_SECTOR)
  }

  lemma InvRecovers(sum: Checksum16, s: System, t: Trace)
    requires Inv(sum, s, t.kept) && TraceOk(t)
    ensures Recovered(sum, s, t)
  {
    hide ScanWindow, Layout, Carries, Holds, HighOf, Storable, SlotIndex, LatchOk, BatchOk;
    LayoutHolds(sum, t.kept.base, t.kept.records);
    StorableAscends(t.kept.records);
    ScanRecovers(sum, s.flash, t.kept.base, t.kept.records);
    CursorSlot(s.window, t.kept.base, |t.kept.records|);
  }

  // From an erased partition, after any run of records, batched flushes, faults
  // and power cuts: a boot rebuilds exactly the ring the run kept, its cursor is
  // the number of records written modulo the capacity, and what was kept is the
  // newest records written, all of them or at least 15 sectors.
  lemma AuditRecovery(sum: Checksum16, es: seq<Event>)
    requires Run(sum, FirstBoot(), es)
    ensures Recovered(sum, After(sum, FirstBoot(), es), TraceAfter(sum, FirstBoot(), NOTHING_WRITTEN, es))
  {
    hide Inv, TraceOk, Recovered, FirstBoot;
    FirstBootIsABoot(sum);
    NothingWritten();
    RunKeepsInv(sum, FirstBoot(), NOTHING_WRITTEN, es);
    InvRecovers(sum, After(sum, FirstBoot(), es), TraceAfter(sum, FirstBoot(), NOTHING_WRITTEN, es));
  }

  lemma NothingWritten()
    ensures TraceOk(Trace(Kept(0, []), []))
  {
  }
}
