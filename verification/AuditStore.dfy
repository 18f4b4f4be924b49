// The durable audit store over its partition: boot scan, append, paged reading
// and the explicit erase, each tied to the ring they implement.
module AuditStore {
  import opened Bytes
  import opened AuditCodec
  import opened AuditRing
  import opened AuditLatch
  import opened AuditAppend

  datatype AuditStoreState = UNSUPPORTED | READY | IO_ERROR

  ghost predicate AllReadable(unreadable: set<nat>) {
    forall k :: 0 <= k < CAPACITY ==> k !in unreadable
  }

  class AuditStore {
    const sum: Checksum16
    const present: bool
    const slots: array<Slot>
    var state: AuditStoreState
    var writeCursor: nat
    var windowStart: nat
    var seqHigh: u32
    var retained: int

    ghost predicate Sound()
      reads this
    {
      slots.Length == CAPACITY
    }

    ghost function OnFlash(): Flash
      requires Sound()
      reads this, slots
    {
      slots[..]
    }

    ghost function InWindow(): Window
      reads this
    {
      Window(windowStart, writeCursor, seqHigh)
    }

    constructor (sum: Checksum16, present: bool)
      ensures Sound() && fresh(slots) && this.sum == sum && this.present == present
      ensures OnFlash() == ErasedSlots() && state == UNSUPPORTED && InWindow() == Window(0, 0, 0)
    {
      this.sum, this.present := sum, present;
      var blank := new Slot[CAPACITY](i => EMPTY_SLOT);
      slots := blank;
      state, writeCursor, windowStart, seqHigh, retained := UNSUPPORTED, 0, 0, 0, 0;
      new;
      assert slots[..] == ErasedSlots();
    }

    method ReadSlot(index: nat, unreadable: set<nat>) returns (ok: bool, decoded: Decoded)
      requires Sound()
      ensures ok == (SlotIndex(index) !in unreadable)
      ensures ok ==> decoded == Decode(sum, slots[SlotIndex(index)])
    {
      var k := SlotIndex(index);
      if k in unreadable {
        return false, NoRecord;
      }
      var buffer := CopySlot(slots[k]);
      var valid, record := DecodeRecord(sum, buffer);
      decoded := if valid then Decoded(record) else NoRecord;
      ok := true;
    }

    method CopySlot(slot: Slot) returns (buffer: array<u8>)
      ensures fresh(buffer) && buffer[..] == slot
    {
      buffer := new u8[AUDIT_STORE_RECORD_BYTES](i requires 0 <= i < AUDIT_STORE_RECORD_BYTES => slot[i]);
      assert buffer[..] == slot;
    }

    method ReadValidity(index: nat, unreadable: set<nat>) returns (readable: bool, holds: bool)
      requires Sound() && index < CAPACITY
      ensures readable == (index !in unreadable)
      ensures readable ==> holds == Validity(sum, OnFlash())[index]
    {
      hide Decode;
      var decoded;
      readable, decoded := ReadSlot(index, unreadable);
      holds := decoded != NoRecord;
    }

    // First pass: the runs of slots that hold a record.
    method ScanRuns(unreadable: set<nat>) returns (ok: bool, runs: seq<ScanRun>)
      requires Sound()
      ensures ok == (AllReadable(unreadable) && |Runs(Validity(sum, OnFlash()), CAPACITY)| <= MAX_SCAN_RUNS)
      ensures ok ==> runs == Runs(Validity(sum, OnFlash()), CAPACITY)
    {
      ghost var valid := Validity(sum, OnFlash());
      hide Decode, Runs, Validity, Sound;
      runs := [];
      assert Runs(valid, 0) == [] by {
        NoRunsYet(valid);
      }
      var inRun := false;
      for index := 0 to CAPACITY
        invariant runs == Runs(valid, index) && |runs| <= MAX_SCAN_RUNS
        invariant inRun == (index > 0 && valid[index - 1])
        invariant forall k :: 0 <= k < index ==> k !in unreadable
      {
        var readable, holds := ReadValidity(index, unreadable);
        if !readable {
          return false, runs;
        }
        RunsStep(valid, index);
        if !holds {
          inRun := false;
        } else if !inRun {
          inRun := true;
          if |runs| == MAX_SCAN_RUNS {
            RunsOnlyGrow(valid, index + 1, CAPACITY);
            return false, runs;
          }
          runs := runs + [ScanRun(index, index + 1)];
        } else {
          runs := runs[..|runs| - 1] + [runs[|runs| - 1].(end := index + 1)];
        }
      }
      return true, runs;
    }

    // Second pass over the window: highest sequence and the first drop.
    method ScanSequences(start: nat, cursor: nat) returns (ok: bool, high: u32, drop: nat)
      requires Sound() && start <= cursor
      ensures ok == WindowReadable(sum, OnFlash(), start, cursor)
      ensures ok ==> var s := Sequences(sum, OnFlash(), start, cursor);
                     high == High(s, |s|) && drop == Drop(s, start, |s|)
    {
      hide Decode, SlotIndex, High, Drop;
      ghost var s := Sequences(sum, OnFlash(), start, cursor);
      HighDropStart(s, start);
      high, drop := 0, 0;
      var index := start;
      while index < cursor
        invariant start <= index <= cursor
        invariant high == High(s, index - start) && drop == Drop(s, start, index - start)
        invariant WindowReadable(sum, OnFlash(), start, index)
      {
        var readable, decoded := ReadSlot(index, {});
        if decoded == NoRecord {
          return false, high, drop;
        }
        assert s[index - start] == SequenceAt(sum, OnFlash(), SlotIndex(index));
        HighDropStep(s, start, index - start);
        if drop == 0 && decoded.record.sequence < high {
          drop := index;
        }
        if decoded.record.sequence > high {
          high := decoded.record.sequence;
        }
        index := index + 1;
      }
      ok := true;
    }

    method FindWindow(unreadable: set<nat>) returns (ok: bool)
      requires Sound()
      modifies this`writeCursor, this`windowStart, this`seqHigh
      ensures Sound()
      ensures ok == (AllReadable(unreadable) && ScanWindow(sum, OnFlash()).Found?)
      ensures ok ==> Found(InWindow()) == ScanWindow(sum, OnFlash())
    {
      hide Validity, Sequences, WindowReadable, High, Drop, Runs;
      var runs;
      ok, runs := ScanRuns(unreadable);
      if !ok {
        return;
      }
      if runs == [] {
        writeCursor, windowStart, seqHigh := 0, 0, 0;
        return;
      }
      var (start, cursor) := ActiveRun(runs);
      if !(0 <= start <= cursor) {
        return false;
      }
      var drop: nat;
      var high: u32;
      ok, high, drop := ScanSequences(start, cursor);
      if !ok {
        return;
      }
      windowStart, writeCursor, seqHigh := start, cursor, high;
      if drop != 0 && cursor - start == CAPACITY {
        windowStart := drop;
        writeCursor := CAPACITY + drop;
      }
    }

    // Recovers the window at boot and hands its records, oldest first, to the
    // latch as already durable.
    method BootOpen(latch: AuditLogLatch, lockTaken: bool, unreadable: set<nat>) returns (latchPendingAfter: u32)
      requires Sound() && latch.Sound()
      modifies this, latch, latch.events
      ensures Sound() && latch.Sound()
      ensures state == if !present then UNSUPPORTED
                       else if lockTaken && AllReadable(unreadable) && ScanWindow(sum, OnFlash()).Found? then READY
                       else IO_ERROR
      ensures OnFlash() == old(OnFlash())
      ensures state == READY ==>
        && Found(InWindow()) == ScanWindow(sum, OnFlash())
        && latchPendingAfter == seqHigh && retained == writeCursor - windowStart
        && WindowReadable(sum, OnFlash(), windowStart, writeCursor)
        && latch.View() == AdoptedWindow(old(latch.View()), sum, OnFlash(), windowStart, writeCursor)
      ensures state != READY ==> latchPendingAfter == 0
    {
      hide Decode, ScanWindow, WindowReadable;
      state, writeCursor, windowStart, seqHigh, retained := UNSUPPORTED, 0, 0, 0, 0;
      latchPendingAfter := 0;
      if !present {
        return;
      }
      state := IO_ERROR;
      if !lockTaken {
        return;
      }
      var ok := FindWindow(unreadable);
      if ok {
        FoundIsReadable(sum, OnFlash());
        Backfill(latch);
        latchPendingAfter := seqHigh;
        state := READY;
      }
      retained := writeCursor - windowStart;
    }

    method Backfill(latch: AuditLogLatch)
      requires Sound() && latch.Sound() && windowStart <= writeCursor
      requires WindowReadable(sum, OnFlash(), windowStart, writeCursor)
      modifies latch, latch.events
      ensures latch.Sound()
      ensures latch.View() == AdoptedWindow(old(latch.View()), sum, OnFlash(), windowStart, writeCursor)
      ensures Sound() && OnFlash() == old(OnFlash())
    {
      hide Decode, Adopted;
      ghost var first := latch.View();
      var index := windowStart;
      while index < writeCursor
        invariant windowStart <= index <= writeCursor && latch.Sound()
        invariant latch.View() == AdoptedWindow(first, sum, OnFlash(), windowStart, index)
        invariant OnFlash() == old(OnFlash())
      {
        var readable, decoded := ReadSlot(index, {});
        assert decoded != NoRecord;
        var adopted := latch.Adopt(decoded.record);
        index := index + 1;
      }
    }

    // ----- append -----

    method Append(record: AuditRecord, fault: AppendFault) returns (ok: bool)
      requires Sound()
      modifies this, slots
      ensures Sound() && state == old(state)
      ensures old(state) != READY || !present ==>
        !ok && OnFlash() == old(OnFlash()) && InWindow() == old(InWindow())
      ensures old(state) == READY && present ==>
        Appended(OnFlash(), InWindow(), ok) == AppendStep(sum, old(OnFlash()), old(InWindow()), record, fault)
      ensures old(state) == READY && present && fault != LockRefused ==> retained == writeCursor - windowStart
    {
      hide EraseSector, ProgramSlot, Encode;
      if state != READY || !present || fault == LockRefused {
        return false;
      }
      ok := true;
      if SlotIndex(writeCursor) % PER_SECTOR == 0 {
        ok := EnterSector(fault);
      }
      if ok && fault == WriteFails {
        ok := false;
      }
      if ok {
        ProgramRecord(record);
      }
      retained := writeCursor - windowStart;
    }

    // Probes the sector being entered and erases it when its first slot is in use.
    method EnterSector(fault: AppendFault) returns (ok: bool)
      requires Sound() && SlotIndex(writeCursor) % PER_SECTOR == 0
      modifies this`windowStart, slots
      ensures Sound()
      ensures ok == !(fault == ProbeFails || (NeedsErase(old(OnFlash()), old(InWindow())) && fault == EraseFails))
      ensures if ok then Ahead(OnFlash(), InWindow()) == EraseAhead(old(OnFlash()), old(InWindow()))
              else OnFlash() == old(OnFlash()) && InWindow() == old(InWindow())
    {
      if fault == ProbeFails {
        return false;
      }
      var first := SlotIndex(writeCursor);
      var probe := CopySlot(slots[first]);
      var empty := SlotEmpty(probe);
      if empty {
        return true;
      }
      if fault == EraseFails {
        return false;
      }
      forall k | first <= k < first + PER_SECTOR {
        slots[k] := EMPTY_SLOT;
      }
      assert slots[..] == EraseSector(old(OnFlash()), first);
      if writeCursor >= CAPACITY {
        var retiredThrough := writeCursor - CAPACITY + PER_SECTOR - 1;
        if windowStart <= retiredThrough {
          windowStart := retiredThrough + 1;
        }
      }
      return true;
    }

    method ProgramRecord(record: AuditRecord)
      requires Sound()
      modifies this`writeCursor, this`seqHigh, slots
      ensures Sound()
      ensures Ahead(OnFlash(), InWindow()) == WriteRecord(sum, old(OnFlash()), old(InWindow()), record)
    {
      hide Encode, ProgramSlot;
      var buffer := new u8[AUDIT_STORE_RECORD_BYTES](i => 0);
      EncodeRecord(sum, buffer, record);
      var k := SlotIndex(writeCursor);
      slots[k] := ProgramSlot(slots[k], buffer[..]);
      writeCursor := writeCursor + 1;
      if record.sequence > seqHigh {
        seqHigh := record.sequence;
      }
    }

    // ----- reading -----

    // One page from the resume slot on; a torn read aborts the whole page.
    method CopyAfter(afterSequence: u32, capacity: nat, resume: nat, lockTaken: bool, unreadable: set<nat>)
      returns (output: seq<AuditRecord>, resumeSlot: nat)
      requires Sound()
      ensures capacity == 0 || state != READY || !present || !lockTaken ==> output == [] && resumeSlot == resume
      ensures capacity > 0 && state == READY && present && lockTaken && AllReadable(unreadable) ==>
        Page(output, resumeSlot) ==
          PageFrom(sum, OnFlash(), writeCursor, if resume > windowStart then resume else windowStart,
                   afterSequence, capacity)
      ensures output != [] ==> forall i :: (if resume > windowStart then resume else windowStart) <= i < resumeSlot ==>
        SlotIndex(i) !in unreadable
    {
      hide Decode, SlotIndex, PageFrom;
      if capacity == 0 || state != READY || !present || !lockTaken {
        return [], resume;
      }
      output := [];
      var index := if resume > windowStart then resume else windowStart;
      ghost var first := index;
      ghost var whole := PageFrom(sum, OnFlash(), writeCursor, index, afterSequence, capacity);
      while index < writeCursor && |output| < capacity
        invariant first <= index && |output| <= capacity
        invariant forall i :: first <= i < index ==> SlotIndex(i) !in unreadable
        invariant var rest := PageFrom(sum, OnFlash(), writeCursor, index, afterSequence, capacity - |output|);
                  whole == Page(output + rest.records, rest.resume)
      {
        var readable, decoded := ReadSlot(index, unreadable);
        if !readable {
          return [], index;
        }
        PageStep(sum, OnFlash(), writeCursor, index, afterSequence, capacity - |output|);
        if decoded != NoRecord && decoded.record.sequence > afterSequence {
          output := output + [decoded.record];
        }
        index := index + 1;
      }
      PageStep(sum, OnFlash(), writeCursor, index, afterSequence, capacity - |output|);
      resumeSlot := index;
    }

    // ----- explicit erase -----

    // Erases sector by sector; failAt is the sector whose erase fails, if any.
    method EraseAll(lockTaken: bool, failAt: nat) returns (ok: bool)
      requires Sound()
      modifies this, slots
      ensures Sound()
      ensures ok == (!present || (lockTaken && failAt >= CAPACITY / PER_SECTOR))
      ensures ok && present ==> OnFlash() == ErasedSlots() && state == READY && InWindow() == Window(0, 0, 0)
      ensures !ok || !present ==> state == old(state) && InWindow() == old(InWindow())
    {
      if !present {
        return true;
      }
      if !lockTaken {
        return false;
      }
      for sector := 0 to CAPACITY / PER_SECTOR
        invariant Sound() && state == old(state) && InWindow() == old(InWindow())
        invariant sector <= failAt
        invariant forall k :: 0 <= k < sector * PER_SECTOR ==> slots[k] == EMPTY_SLOT
      {
        if sector == failAt {
          return false;
        }
        forall k | sector * PER_SECTOR <= k < (sector + 1) * PER_SECTOR {
          slots[k] := EMPTY_SLOT;
        }
      }
      assert slots[..] == ErasedSlots();
      state, writeCursor, windowStart, seqHigh, retained := READY, 0, 0, 0, 0;
      return true;
    }
  }

  lemma PageStep(sum: Checksum16, f: Flash, cursor: nat, index: nat, after: u32, capacity: nat)
    ensures var d := Decode(sum, f[SlotIndex(index)]);
            PageFrom(sum, f, cursor, index, after, capacity) ==
              if index >= cursor || capacity == 0 then Page([], index)
              else if d == NoRecord || d.record.sequence <= after
                   then PageFrom(sum, f, cursor, index + 1, after, capacity)
              else var rest := PageFrom(sum, f, cursor, index + 1, after, capacity - 1);
                   Page([d.record] + rest.records, rest.resume)
  {
  }

  // ----- what the boot hands to the latch -----

  function AdoptedWindow(l: Latch, sum: Checksum16, f: Flash, start: nat, cursor: nat): (r: Latch)
    requires RingShaped(l.ring) && start <= cursor && WindowReadable(sum, f, start, cursor)
    ensures RingShaped(r.ring)
    decreases cursor - start
  {
    if start == cursor then l
    else Adopted(AdoptedWindow(l, sum, f, start, cursor - 1), Decode(sum, f[SlotIndex(cursor - 1)]).record)
  }

  // Whatever window a scan reports, every slot of it decodes.
  lemma FoundIsReadable(sum: Checksum16, f: Flash)
    requires ScanWindow(sum, f).Found?
    ensures var w := ScanWindow(sum, f).window;
            w.start <= w.cursor && WindowReadable(sum, f, w.start, w.cursor)
  {
    hide Decode, Sequences, Validity, High, Runs;
    var runs := Runs(Validity(sum, f), CAPACITY);
    if runs != [] {
      var (start, cursor) := ActiveRun(runs);
      var s := Sequences(sum, f, start, cursor);
      var drop := Drop(s, start, |s|);
      if drop != 0 && cursor - start == CAPACITY {
        DropBound(s, start, |s|);
        forall i | drop <= i < CAPACITY + drop
          ensures Decode(sum, f[SlotIndex(i)]) != NoRecord
        {
          FullCircleReadable(sum, f, start, i);
        }
      }
    }
  }

  lemma {:induction false} DropBound(s: seq<int>, start: nat, n: nat)
    requires n <= |s|
    ensures Drop(s, start, n) < start + n || Drop(s, start, n) == 0
  {
    if n > 0 {
      DropBound(s, start, n - 1);
    }
  }

  lemma FullCircleReadable(sum: Checksum16, f: Flash, start: nat, i: nat)
    requires WindowReadable(sum, f, start, start + CAPACITY)
    ensures Decode(sum, f[SlotIndex(i)]) != NoRecord
  {
    hide Decode;
    hide SlotIndex;
    var ahead := (i + CAPACITY - start % CAPACITY) % CAPACITY;
    ComesRound(start, i);
    assert start <= start + ahead < start + CAPACITY;
  }

  // Going round from start, every slot comes up within one circle.
  lemma ComesRound(start: nat, i: nat)
    ensures SlotIndex(start + (i + CAPACITY - start % CAPACITY) % CAPACITY) == SlotIndex(i)
  {
    var s, r := start % CAPACITY, i % CAPACITY;
    assert (i + CAPACITY - s) % CAPACITY == if r >= s then r - s else r - s + CAPACITY;
  }

  lemma HighDropStart(s: seq<int>, start: nat)
    ensures High(s, 0) == 0 && Drop(s, start, 0) == 0
  {
  }

  lemma HighDropStep(s: seq<int>, start: nat, n: nat)
    requires n < |s|
    ensures High(s, n + 1) == if s[n] > High(s, n) then s[n] else High(s, n)
    ensures Drop(s, start, n + 1)
         == if Drop(s, start, n) == 0 && s[n] < High(s, n) then start + n else Drop(s, start, n)
  {
  }

  lemma CarriedIsReadable(sum: Checksum16, f: Flash, w: Window, rs: seq<AuditRecord>, n: nat)
    requires Carries(sum, f, w, rs) && n <= |rs|
    ensures WindowReadable(sum, f, w.start, w.start + n)
  {
    hide Decode, SlotIndex;
    forall i | w.start <= i < w.start + n
      ensures Decode(sum, f[SlotIndex(i)]) != NoRecord
    {
      assert Decode(sum, f[SlotIndex(w.start + (i - w.start))]) == Decoded(rs[i - w.start]);
    }
  }

  // Adopting a carried window into a fresh latch is the backfill.
  lemma {:induction false} AdoptedIsBackfilled(sum: Checksum16, f: Flash, w: Window, rs: seq<AuditRecord>, n: nat)
    requires Carries(sum, f, w, rs) && n <= |rs|
    ensures WindowReadable(sum, f, w.start, w.start + n)
    ensures AdoptedWindow(FreshLatch(), sum, f, w.start, w.start + n) == Backfilled(rs[..n])
  {
    hide Decode, Adopted, SlotIndex, FreshLatch, RingShaped, WindowReadable;
    CarriedIsReadable(sum, f, w, rs, n);
    if n > 0 {
      AdoptedIsBackfilled(sum, f, w, rs, n - 1);
      CarriedLast(sum, f, w, rs, n);
      assert rs[..n][..n - 1] == rs[..n - 1];
    } else {
      assert rs[..0] == [];
    }
  }

  lemma CarriedLast(sum: Checksum16, f: Flash, w: Window, rs: seq<AuditRecord>, n: nat)
    requires Carries(sum, f, w, rs) && 0 < n <= |rs|
    ensures Decode(sum, f[SlotIndex(w.start + n - 1)]) == Decoded(rs[n - 1])
  {
    hide Decode, SlotIndex;
    assert Decode(sum, f[SlotIndex(w.start + (n - 1))]) == Decoded(rs[n - 1]);
  }
}
