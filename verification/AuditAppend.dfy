// One append to the audit ring, its flash operations, and reading the window
// back page by page.
module AuditAppend {
  import opened Bytes
  import opened AuditCodec
  import opened AuditRing
  import opened AuditLatch

  // What the environment does to one append. No fault leaves a partial effect.
  datatype AppendFault = NoFault | LockRefused | ProbeFails | EraseFails | WriteFails

  function ProgramSlot(cell: Slot, value: Slot): Slot {
    seq(AUDIT_STORE_RECORD_BYTES, i requires 0 <= i < AUDIT_STORE_RECORD_BYTES => ProgramCell(cell[i], value[i]))
  }

  lemma ProgramEmptySlot(value: Slot)
    ensures ProgramSlot(EMPTY_SLOT, value) == value
  {
    hide ProgramCell;
    forall i | 0 <= i < AUDIT_STORE_RECORD_BYTES
      ensures ProgramSlot(EMPTY_SLOT, value)[i] == value[i]
    {
      ProgramErasedCell(value[i]);
    }
  }

  function EraseSector(f: Flash, first: nat): Flash {
    seq(CAPACITY, k requires 0 <= k < CAPACITY =>
      if first <= k < first + PER_SECTOR then EMPTY_SLOT else f[k])
  }

  // Entering a sector whose first slot is in use: it has to be erased.
  predicate NeedsErase(f: Flash, w: Window) {
    SlotIndex(w.cursor) % PER_SECTOR == 0 && f[SlotIndex(w.cursor)] != EMPTY_SLOT
  }

  // Writing into a sector a second time takes its records out of the window.
  function Retired(w: Window): Window {
    if w.cursor >= CAPACITY && w.start <= w.cursor - CAPACITY + PER_SECTOR - 1
    then w.(start := w.cursor - CAPACITY + PER_SECTOR) else w
  }

  datatype Ahead = Ahead(flash: Flash, window: Window)

  // First half of an append: erase the sector being entered.
  function EraseAhead(f: Flash, w: Window): Ahead {
    if NeedsErase(f, w) then Ahead(EraseSector(f, SlotIndex(w.cursor)), Retired(w)) else Ahead(f, w)
  }

  // Second half: program the slot under the cursor and move on.
  function WriteRecord(sum: Checksum16, f: Flash, w: Window, r: AuditRecord): Ahead {
    var k := SlotIndex(w.cursor);
    Ahead(f[k := ProgramSlot(f[k], Encode(sum, r))],
          w.(cursor := w.cursor + 1, seqHigh := if r.sequence > w.seqHigh then r.sequence else w.seqHigh))
  }

  datatype Appended = Appended(flash: Flash, window: Window, ok: bool)

  function AppendStep(sum: Checksum16, f: Flash, w: Window, r: AuditRecord, fault: AppendFault): Appended {
    var entering := SlotIndex(w.cursor) % PER_SECTOR == 0;
    if fault == LockRefused || (entering && fault == ProbeFails) || (NeedsErase(f, w) && fault == EraseFails)
    then Appended(f, w, false)
    else
      var ahead := EraseAhead(f, w);
      if fault == WriteFails then Appended(ahead.flash, ahead.window, false)
      else
        var written := WriteRecord(sum, ahead.flash, ahead.window, r);
        Appended(written.flash, written.window, true)
  }

  // ----- the same on the abstract ring -----

  // The window in RAM agrees with the ring on flash.
  ghost predicate Tracks(sum: Checksum16, f: Flash, w: Window, base: nat, rs: seq<AuditRecord>) {
    && Shape(base, |rs|) && Storable(rs)
    && f == Layout(sum, base, rs)
    && SlotIndex(w.start) == base && w.cursor == w.start + |rs| && w.seqHigh == HighOf(rs)
  }

  lemma CursorSlot(w: Window, base: nat, count: nat)
    requires base < CAPACITY && count <= CAPACITY && SlotIndex(w.start) == base && w.cursor == w.start + count
    ensures SlotIndex(w.cursor) == Wrap(base, count)
  {
    if count < CAPACITY {
      WindowSlots(base, w.start, count);
    } else {
      assert w.cursor == w.start + CAPACITY;
    }
  }

  lemma RingMoves(start: nat, n: nat)
    requires n <= CAPACITY
    ensures SlotIndex(start + n) == Wrap(SlotIndex(start), n)
  {
  }

  // The slot under the cursor is in use exactly when the ring is full.
  lemma CursorSlotContent(sum: Checksum16, base: nat, rs: seq<AuditRecord>)
    requires Shape(base, |rs|)
    ensures var slot := Layout(sum, base, rs)[Wrap(base, |rs|)];
            slot == if |rs| == CAPACITY then Encode(sum, rs[0]) else EMPTY_SLOT
  {
    hide Encode;
    assert Dist(base, Wrap(base, |rs|)) == if |rs| == CAPACITY then 0 else |rs|;
  }

  lemma EraseNeededIffFull(sum: Checksum16, f: Flash, w: Window, base: nat, rs: seq<AuditRecord>)
    requires Tracks(sum, f, w, base, rs)
    ensures NeedsErase(f, w) <==> |rs| == CAPACITY
    ensures SlotIndex(w.cursor) % PER_SECTOR == 0 <==> |rs| % PER_SECTOR == 0
  {
    hide Layout, Encode, Storable, SlotIndex, HighOf;
    CursorSlot(w, base, |rs|);
    CursorSlotContent(sum, base, rs);
    if |rs| == CAPACITY {
      SlotRoundTrip(sum, rs[0]);
    }
  }

  lemma EraseLayout(sum: Checksum16, base: nat, rs: seq<AuditRecord>)
    requires Shape(base, |rs|) && |rs| == CAPACITY
    ensures EraseSector(Layout(sum, base, rs), base) == Layout(sum, Wrap(base, PER_SECTOR), rs[PER_SECTOR..])
  {
    hide Encode;
    var next := Wrap(base, PER_SECTOR);
    var left := rs[PER_SECTOR..];
    forall k | 0 <= k < CAPACITY
      ensures EraseSector(Layout(sum, base, rs), base)[k] == Layout(sum, next, left)[k]
    {
      if base <= k < base + PER_SECTOR {
        assert Dist(next, k) >= |left|;
      } else {
        assert Dist(next, k) == Dist(base, k) - PER_SECTOR;
      }
    }
  }

  lemma WriteLayout(sum: Checksum16, base: nat, rs: seq<AuditRecord>, r: AuditRecord)
    requires base < CAPACITY && |rs| < CAPACITY
    ensures Layout(sum, base, rs)[Wrap(base, |rs|)] == EMPTY_SLOT
    ensures Layout(sum, base, rs)[Wrap(base, |rs|) := Encode(sum, r)] == Layout(sum, base, rs + [r])
  {
    hide Encode;
    var at := Wrap(base, |rs|);
    forall k | 0 <= k < CAPACITY
      ensures Layout(sum, base, rs)[at := Encode(sum, r)][k] == Layout(sum, base, rs + [r])[k]
    {
      assert k == at <==> Dist(base, k) == |rs|;
    }
  }

  lemma StorableSuffix(rs: seq<AuditRecord>, n: nat)
    requires Storable(rs) && n < |rs|
    ensures Storable(rs[n..]) && HighOf(rs[n..]) == HighOf(rs)
  {
    hide Normal;
  }

  lemma StorableExtends(rs: seq<AuditRecord>, r: AuditRecord)
    requires Storable(rs) && r.sequence > HighOf(rs) && IsNormal(r)
    ensures Storable(rs + [r]) && HighOf(rs + [r]) == r.sequence
  {
    hide Normal;
    assert rs != [] ==> HighOf(rs) == rs[|rs| - 1].sequence;
  }

  // Erasing ahead drops exactly the oldest sector, and only from a full ring.
  lemma EraseAheadTracks(sum: Checksum16, f: Flash, w: Window, base: nat, rs: seq<AuditRecord>)
    requires Tracks(sum, f, w, base, rs)
    ensures var ahead := EraseAhead(f, w);
            if |rs| == CAPACITY
            then Tracks(sum, ahead.flash, ahead.window, Wrap(base, PER_SECTOR), rs[PER_SECTOR..])
            else ahead == Ahead(f, w)
  {
    EraseNeededIffFull(sum, f, w, base, rs);
    if |rs| == CAPACITY {
      hide Layout, Storable, EraseSector, NeedsErase, HighOf, SlotIndex;
      CursorSlot(w, base, |rs|);
      EraseLayout(sum, base, rs);
      StorableSuffix(rs, PER_SECTOR);
      RingMoves(w.start, PER_SECTOR);
    }
  }

  lemma WriteTracks(sum: Checksum16, f: Flash, w: Window, base: nat, rs: seq<AuditRecord>, r: AuditRecord)
    requires Tracks(sum, f, w, base, rs) && |rs| < CAPACITY
    requires r.sequence > HighOf(rs) && IsNormal(r)
    ensures var written := WriteRecord(sum, f, w, r);
            Tracks(sum, written.flash, written.window, base, rs + [r])
  {
    hide Layout, Storable, HighOf, SlotIndex, IsNormal, Encode, ProgramSlot;
    CursorSlot(w, base, |rs|);
    WriteLayout(sum, base, rs, r);
    ProgramEmptySlot(Encode(sum, r));
    StorableExtends(rs, r);
  }

  // The ring's base and records.
  datatype Kept = Kept(base: nat, records: seq<AuditRecord>)

  function KeptAhead(k: Kept): Kept {
    if k.base < CAPACITY && |k.records| == CAPACITY
    then Kept(Wrap(k.base, PER_SECTOR), k.records[PER_SECTOR..]) else k
  }

  // An append keeps every record but, from a full ring, the oldest sector; a
  // failed one adds nothing.
  function KeptAfter(k: Kept, r: AuditRecord, fault: AppendFault): Kept {
    match fault
    case LockRefused => k
    case ProbeFails => if |k.records| % PER_SECTOR == 0 then k else k.(records := k.records + [r])
    case EraseFails => if |k.records| == CAPACITY then k else k.(records := k.records + [r])
    case WriteFails => KeptAhead(k)
    case NoFault => KeptAhead(k).(records := KeptAhead(k).records + [r])
  }

  lemma AppendTracks(sum: Checksum16, f: Flash, w: Window, k: Kept, r: AuditRecord, fault: AppendFault)
    requires Tracks(sum, f, w, k.base, k.records)
    requires r.sequence > HighOf(k.records) && IsNormal(r)
    ensures var a := AppendStep(sum, f, w, r, fault);
            var k' := KeptAfter(k, r, fault);
            && Tracks(sum, a.flash, a.window, k'.base, k'.records)
            && (a.ok <==> |k'.records| > 0 && k'.records[|k'.records| - 1] == r)
  {
    hide Tracks, EraseAhead, WriteRecord, NeedsErase, Storable, IsNormal, SlotIndex, HighOf;
    EraseNeededIffFull(sum, f, w, k.base, k.records);
    TracksShape(sum, f, w, k.base, k.records);
    EraseAheadTracks(sum, f, w, k.base, k.records);
    var ahead := EraseAhead(f, w);
    var kept := KeptAhead(k);
    if |k.records| == CAPACITY {
      StorableSuffix(k.records, PER_SECTOR);
    }
    assert HighOf(kept.records) == HighOf(k.records);
    WriteTracks(sum, ahead.flash, ahead.window, kept.base, kept.records, r);
    LastIsOlder(k.records, r);
    LastIsOlder(kept.records, r);
  }

  lemma TracksShape(sum: Checksum16, f: Flash, w: Window, base: nat, rs: seq<AuditRecord>)
    requires Tracks(sum, f, w, base, rs)
    ensures Shape(base, |rs|) && Storable(rs)
  {
  }

  lemma LastIsOlder(rs: seq<AuditRecord>, r: AuditRecord)
    requires r.sequence > HighOf(rs)
    ensures |rs| > 0 ==> rs[|rs| - 1] != r
  {
  }

  // ----- reading the window in pages -----

  datatype Page = Page(records: seq<AuditRecord>, resume: nat)

  // The records later than a sequence in slots [index, w.cursor), at most
  // capacity of them, and the slot to resume from.
  function PageFrom(sum: Checksum16, f: Flash, cursor: nat, index: nat, after: u32, capacity: nat): Page
    decreases cursor - index
  {
    if index >= cursor || capacity == 0 then Page([], index)
    else
      var d := Decode(sum, f[SlotIndex(index)]);
      if d == NoRecord || d.record.sequence <= after then PageFrom(sum, f, cursor, index + 1, after, capacity)
      else
        var rest := PageFrom(sum, f, cursor, index + 1, after, capacity - 1);
        Page([d.record] + rest.records, rest.resume)
  }

  function LaterFrom(rs: seq<AuditRecord>, after: u32): seq<AuditRecord> {
    if rs == [] then []
    else (if rs[0].sequence > after then [rs[0]] else []) + LaterFrom(rs[1..], after)
  }

  // A page and what remains from its resume slot make up what there was.
  lemma {:induction false} PageSplits(sum: Checksum16, f: Flash, w: Window, rs: seq<AuditRecord>, n: nat,
                                      after: u32, capacity: nat)
    requires Carries(sum, f, w, rs) && n <= |rs|
    ensures var p := PageFrom(sum, f, w.cursor, w.start + n, after, capacity);
            && w.start + n <= p.resume <= w.cursor
            && LaterFrom(rs[n..], after) == p.records + LaterFrom(rs[p.resume - w.start..], after)
            && |p.records| <= capacity
            && (|p.records| < capacity ==> p.resume == w.cursor)
    decreases |rs| - n
  {
    hide Decode, SlotIndex;
    if n < |rs| && capacity > 0 {
      assert rs[n..][0] == rs[n] && rs[n..][1..] == rs[n + 1..];
      PageSplits(sum, f, w, rs, n + 1, after, if rs[n].sequence > after then capacity - 1 else capacity);
    }
  }

  // All pages of one reader, each resuming where the last one stopped.
  function AllPages(sum: Checksum16, f: Flash, w: Window, resume: nat, after: u32, capacity: nat): seq<AuditRecord>
    requires capacity > 0
    decreases w.cursor - resume
  {
    var p := PageFrom(sum, f, w.cursor, if resume > w.start then resume else w.start, after, capacity);
    if |p.records| == capacity && p.resume > resume
    then p.records + AllPages(sum, f, w, p.resume, after, capacity) else p.records
  }

  lemma {:induction false} PagesDeliverEach(sum: Checksum16, f: Flash, w: Window, rs: seq<AuditRecord>, n: nat,
                                            after: u32, capacity: nat)
    requires Carries(sum, f, w, rs) && n <= |rs| && capacity > 0
    ensures AllPages(sum, f, w, w.start + n, after, capacity) == LaterFrom(rs[n..], after)
    decreases |rs| - n
  {
    hide Carries, PageFrom;
    PageSplits(sum, f, w, rs, n, after, capacity);
    var p := PageFrom(sum, f, w.cursor, w.start + n, after, capacity);
    CarriedLength(sum, f, w, rs);
    if |p.records| == capacity && p.resume > w.start + n {
      PagesDeliverEach(sum, f, w, rs, p.resume - w.start, after, capacity);
    } else if |p.records| < capacity {
      assert rs[p.resume - w.start..] == [];
    }
  }

  lemma CarriedLength(sum: Checksum16, f: Flash, w: Window, rs: seq<AuditRecord>)
    requires Carries(sum, f, w, rs)
    ensures w.cursor == w.start + |rs|
  {
  }

  // Reading page by page delivers every retained record later than the given
  // sequence once, oldest first.
  lemma PagesDeliverWindow(sum: Checksum16, f: Flash, w: Window, rs: seq<AuditRecord>, after: u32, capacity: nat)
    requires Carries(sum, f, w, rs) && capacity > 0
    ensures AllPages(sum, f, w, 0, after, capacity) == LaterFrom(rs, after)
  {
    hide Carries, PageFrom;
    PagesDeliverEach(sum, f, w, rs, 0, after, capacity);
    PageSplits(sum, f, w, rs, 0, after, capacity);
    assert rs[0..] == rs;
  }
}
