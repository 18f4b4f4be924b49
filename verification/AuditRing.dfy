// The headerless audit ring on flash: which slots hold which records, what the
// boot scan makes of them, and what an append does to them.
module AuditRing {
  import opened Bytes
  import opened AuditCodec

  const CAPACITY: nat := 1024
  const PER_SECTOR: nat := 64
  const MAX_SCAN_RUNS: nat := 8

  function ErasedSlots(): (f: seq<Slot>)
    ensures |f| == CAPACITY
  {
    seq(CAPACITY, i => EMPTY_SLOT)
  }

  type Flash = f: seq<Slot> | |f| == CAPACITY
    witness ErasedSlots()

  function SlotIndex(absolute: nat): (k: nat)
    ensures k < CAPACITY
  {
    absolute % CAPACITY
  }

  // ----- the abstract ring: records laid out from a base slot on -----

  // Slots from base to k, going round.
  function Dist(base: nat, k: nat): (d: nat)
    requires base < CAPACITY && k < CAPACITY
    ensures d < CAPACITY
  {
    if k >= base then k - base else k + CAPACITY - base
  }

  // The slot n places after base, going round; base itself after a full circle.
  function Wrap(base: nat, n: nat): (k: nat)
    requires base < CAPACITY && n <= CAPACITY
    ensures k < CAPACITY
  {
    if base + n < CAPACITY then base + n else base + n - CAPACITY
  }

  function Layout(sum: Checksum16, base: nat, rs: seq<AuditRecord>): Flash
    requires base < CAPACITY
  {
    seq(CAPACITY, k requires 0 <= k < CAPACITY =>
      if Dist(base, k) < |rs| then Encode(sum, rs[Dist(base, k)]) else EMPTY_SLOT)
  }

  // The ring starts on a sector, and it has moved off slot 0 only once it was
  // within a sector of full.
  predicate Shape(base: nat, count: nat) {
    && base < CAPACITY && base % PER_SECTOR == 0 && count <= CAPACITY
    && (base > 0 ==> count >= CAPACITY - PER_SECTOR)
  }

  predicate AscendingSequences(rs: seq<AuditRecord>) {
    forall i, j :: 0 <= i < j < |rs| ==> rs[i].sequence < rs[j].sequence
  }

  // Records as the latch makes them.
  predicate Storable(rs: seq<AuditRecord>) {
    && AscendingSequences(rs)
    && forall i :: 0 <= i < |rs| ==> rs[i].sequence > 0 && IsNormal(rs[i])
  }

  function HighOf(rs: seq<AuditRecord>): u32 {
    if rs == [] then 0 else rs[|rs| - 1].sequence
  }

  // What a scan may rely on: the window decodes to the records and no other
  // slot decodes at all. Other slots may be blank or torn.
  ghost predicate Holds(sum: Checksum16, f: Flash, base: nat, rs: seq<AuditRecord>) {
    && base < CAPACITY
    && forall k :: 0 <= k < CAPACITY ==>
         Decode(sum, f[k]) == if Dist(base, k) < |rs| then Decoded(rs[Dist(base, k)]) else NoRecord
  }

  lemma LayoutHolds(sum: Checksum16, base: nat, rs: seq<AuditRecord>)
    requires base < CAPACITY && Storable(rs)
    ensures Holds(sum, Layout(sum, base, rs), base, rs)
  {
    hide Encode, Normal;
    forall k | 0 <= k < CAPACITY
      ensures Decode(sum, Layout(sum, base, rs)[k])
           == if Dist(base, k) < |rs| then Decoded(rs[Dist(base, k)]) else NoRecord
    {
      if Dist(base, k) < |rs| {
        SlotRoundTrip(sum, rs[Dist(base, k)]);
      }
    }
  }

  // A slot outside the window may be torn into anything that does not decode.
  lemma TornSlotStillHolds(sum: Checksum16, f: Flash, base: nat, rs: seq<AuditRecord>, k: nat, torn: Slot)
    requires Holds(sum, f, base, rs) && k < CAPACITY && Dist(base, k) >= |rs|
    requires Decode(sum, torn) == NoRecord
    ensures Holds(sum, f[k := torn], base, rs)
  {
    hide Decode;
  }

  // ----- the scan, as functions of the slots -----

  datatype ScanRun = ScanRun(start: nat, end: nat)

  // Maximal runs of valid slots among the first n.
  function Runs(valid: seq<bool>, n: nat): (rs: seq<ScanRun>)
    requires n <= |valid|
    ensures n > 0 && valid[n - 1] ==> rs != []
  {
    if n == 0 then []
    else
      var before := Runs(valid, n - 1);
      if !valid[n - 1] then before
      else if n > 1 && valid[n - 2] then before[..|before| - 1] + [before[|before| - 1].(end := n)]
      else before + [ScanRun(n - 1, n)]
  }

  lemma {:induction false} RunsOnlyGrow(valid: seq<bool>, m: nat, n: nat)
    requires m <= n <= |valid|
    ensures |Runs(valid, m)| <= |Runs(valid, n)|
    decreases n
  {
    if m < n {
      RunsOnlyGrow(valid, m, n - 1);
    }
  }

  // Highest of the first n sequences.
  function High(s: seq<int>, n: nat): (h: int)
    requires n <= |s|
  {
    if n == 0 then 0 else if s[n - 1] > High(s, n - 1) then s[n - 1] else High(s, n - 1)
  }

  // Absolute index of the first sequence below its running maximum, or 0.
  function Drop(s: seq<int>, start: nat, n: nat): nat
    requires n <= |s|
  {
    if n == 0 then 0
    else if Drop(s, start, n - 1) == 0 && s[n - 1] < High(s, n - 1) then start + n - 1
    else Drop(s, start, n - 1)
  }

  datatype Window = Window(start: nat, cursor: nat, seqHigh: int)
  datatype Scan = Unreadable | Found(window: Window)

  function Validity(sum: Checksum16, f: Flash): (v: seq<bool>)
    ensures |v| == CAPACITY
  {
    seq(CAPACITY, k requires 0 <= k < CAPACITY => Decode(sum, f[k]) != NoRecord)
  }

  // The run that ends at the cursor; at the wrap, the last and the first are one.
  function ActiveRun(runs: seq<ScanRun>): (int, int)
    requires runs != []
  {
    var first, last := runs[0], runs[|runs| - 1];
    if |runs| > 1 && last.end == CAPACITY && first.start == 0 then (last.start, CAPACITY + first.end)
    else (last.start, last.end)
  }

  function SequenceAt(sum: Checksum16, f: Flash, k: nat): (s: u32)
    requires k < CAPACITY
  {
    var d := Decode(sum, f[k]);
    if d == NoRecord then 0 else d.record.sequence
  }

  function Sequences(sum: Checksum16, f: Flash, start: nat, cursor: nat): (s: seq<int>)
    requires start <= cursor
    ensures |s| == cursor - start
  {
    seq(cursor - start, i requires 0 <= i < cursor - start => SequenceAt(sum, f, SlotIndex(start + i)))
  }

  // A full ring is one run from slot 0: its oldest record is where the
  // sequence drops.
  function Settle(start: nat, cursor: nat, seqHigh: int, drop: nat): Window {
    if drop != 0 && cursor - start == CAPACITY then Window(drop, CAPACITY + drop, seqHigh)
    else Window(start, cursor, seqHigh)
  }

  // Every slot between start and cursor decodes, going round.
  predicate WindowReadable(sum: Checksum16, f: Flash, start: nat, cursor: nat) {
    forall i :: start <= i < cursor ==> Decode(sum, f[SlotIndex(i)]) != NoRecord
  }

  function ScanWindow(sum: Checksum16, f: Flash): Scan {
    var runs := Runs(Validity(sum, f), CAPACITY);
    if |runs| > MAX_SCAN_RUNS then Unreadable
    else if runs == [] then Found(Window(0, 0, 0))
    else
      var (start, cursor) := ActiveRun(runs);
      if !(0 <= start <= cursor) || !WindowReadable(sum, f, start, cursor) then Unreadable
      else
        var s := Sequences(sum, f, start, cursor);
        Found(Settle(start, cursor, High(s, |s|), Drop(s, start, |s|)))
  }

  // ----- a band of valid slots has at most two runs -----

  // Valid below a and from b on.
  ghost predicate Band(valid: seq<bool>, a: nat, b: nat) {
    a <= b <= |valid| && forall k :: 0 <= k < |valid| ==> (valid[k] <==> k < a || k >= b)
  }

  lemma NoRunsYet(valid: seq<bool>)
    ensures Runs(valid, 0) == []
  {
  }

  lemma RunsStep(valid: seq<bool>, n: nat)
    requires n < |valid|
    ensures Runs(valid, n + 1) ==
      if !valid[n] then Runs(valid, n)
      else if n > 0 && valid[n - 1]
           then Runs(valid, n)[..|Runs(valid, n)| - 1] + [Runs(valid, n)[|Runs(valid, n)| - 1].(end := n + 1)]
      else Runs(valid, n) + [ScanRun(n, n + 1)]
  {
  }

  // The runs of a band among the first n slots.
  function BandOf(a: nat, b: nat, n: nat): seq<ScanRun> {
    if n == 0 then []
    else if a == b || n <= a then [ScanRun(0, n)]
    else (if a == 0 then [] else [ScanRun(0, a)]) + (if n <= b then [] else [ScanRun(b, n)])
  }

  lemma {:induction false} BandRuns(valid: seq<bool>, a: nat, b: nat, n: nat)
    requires Band(valid, a, b) && n <= |valid|
    ensures Runs(valid, n) == BandOf(a, b, n)
  {
    hide Runs;
    if n == 0 {
      NoRunsYet(valid);
    } else {
      BandRuns(valid, a, b, n - 1);
      RunsStep(valid, n - 1);
    }
  }

  // Where the band of a shaped ring lies.
  lemma RingBand(sum: Checksum16, f: Flash, base: nat, rs: seq<AuditRecord>)
    requires Holds(sum, f, base, rs) && Shape(base, |rs|)
    ensures Band(Validity(sum, f), if base == 0 then |rs| else base + |rs| - CAPACITY,
                                   if base == 0 then CAPACITY else base)
  {
    hide Decode;
    var a := if base == 0 then |rs| else base + |rs| - CAPACITY;
    var b := if base == 0 then CAPACITY else base;
    forall k | 0 <= k < CAPACITY
      ensures Validity(sum, f)[k] <==> k < a || k >= b
    {
      assert Dist(base, k) < |rs| <==> k < a || k >= b;
    }
  }

  // ----- sequences along the window -----

  lemma {:induction false} AscendingHasNoDrop(s: seq<int>, start: nat, n: nat)
    requires n <= |s| && forall i, j :: 0 <= i < j < |s| ==> s[i] < s[j]
    requires forall i :: 0 <= i < |s| ==> s[i] >= 0
    ensures Drop(s, start, n) == 0
    ensures High(s, n) == if n == 0 then 0 else s[n - 1]
  {
    if n > 0 {
      AscendingHasNoDrop(s, start, n - 1);
    }
  }

  // First the newest part, then, lower, the oldest part.
  lemma {:induction false} RotatedDrop(s: seq<int>, turn: nat, n: nat)
    requires 0 < turn < |s| && n <= |s|
    requires forall i :: 0 <= i < |s| ==> s[i] >= 0
    requires forall i, j :: 0 <= i < j < turn ==> s[i] < s[j]
    requires forall i, j :: turn <= i < j < |s| ==> s[i] < s[j]
    requires forall i, j :: 0 <= i < turn <= j < |s| ==> s[j] < s[i]
    ensures Drop(s, 0, n) == if n <= turn then 0 else turn
    ensures High(s, n) == if n == 0 then 0 else if n <= turn then s[n - 1] else s[turn - 1]
  {
    if n > 0 {
      RotatedDrop(s, turn, n - 1);
    }
  }

  lemma WindowSlots(base: nat, start: nat, i: nat)
    requires base < CAPACITY && SlotIndex(start) == base && i < CAPACITY
    ensures SlotIndex(start + i) == Wrap(base, i) && Dist(base, Wrap(base, i)) == i
  {
    assert start + i == (start / CAPACITY) * CAPACITY + (base + i);
  }

  lemma HeldAt(sum: Checksum16, f: Flash, base: nat, rs: seq<AuditRecord>, start: nat, i: nat)
    requires Holds(sum, f, base, rs) && i < |rs| <= CAPACITY && SlotIndex(start) == base
    ensures Decode(sum, f[SlotIndex(start + i)]) == Decoded(rs[i])
  {
    hide Decode, SlotIndex;
    WindowSlots(base, start, i);
    assert Dist(base, Wrap(base, i)) < |rs|;
  }

  lemma WindowSequences(sum: Checksum16, f: Flash, base: nat, rs: seq<AuditRecord>, start: nat)
    requires Holds(sum, f, base, rs) && |rs| <= CAPACITY && SlotIndex(start) == base
    ensures WindowReadable(sum, f, start, start + |rs|)
    ensures forall i :: 0 <= i < |rs| ==> Sequences(sum, f, start, start + |rs|)[i] == rs[i].sequence
  {
    hide Decode, SlotIndex, Holds;
    forall i | 0 <= i < |rs|
      ensures Sequences(sum, f, start, start + |rs|)[i] == rs[i].sequence
    {
      HeldAt(sum, f, base, rs, start, i);
      assert SequenceAt(sum, f, SlotIndex(start + i)) == rs[i].sequence;
    }
    forall j | start <= j < start + |rs|
      ensures Decode(sum, f[SlotIndex(j)]) != NoRecord
    {
      HeldAt(sum, f, base, rs, start, j - start);
    }
  }

  // ----- recovery -----

  // A window of flash positions carries the records, oldest first.
  ghost predicate Carries(sum: Checksum16, f: Flash, w: Window, rs: seq<AuditRecord>) {
    && w.cursor == w.start + |rs|
    && forall i :: 0 <= i < |rs| ==> Decode(sum, f[SlotIndex(w.start + i)]) == Decoded(rs[i])
  }

  lemma HeldIsCarried(sum: Checksum16, f: Flash, base: nat, rs: seq<AuditRecord>, w: Window)
    requires Holds(sum, f, base, rs) && |rs| <= CAPACITY
    requires SlotIndex(w.start) == base && w.cursor == w.start + |rs|
    ensures Carries(sum, f, w, rs)
  {
    hide Decode, SlotIndex, Holds;
    forall i | 0 <= i < |rs|
      ensures Decode(sum, f[SlotIndex(w.start + i)]) == Decoded(rs[i])
    {
      HeldAt(sum, f, base, rs, w.start, i);
    }
  }

  // The runs of a shaped ring, and the one that ends at its cursor.
  lemma RingRuns(sum: Checksum16, f: Flash, base: nat, rs: seq<AuditRecord>)
    requires Holds(sum, f, base, rs) && Shape(base, |rs|)
    ensures var runs := Runs(Validity(sum, f), CAPACITY);
            && |runs| <= 2
            && (runs == [] <==> rs == [])
            && (rs != [] && |rs| < CAPACITY ==> ActiveRun(runs) == (base, base + |rs|))
            && (|rs| == CAPACITY ==> ActiveRun(runs) == (0, CAPACITY))
  {
    hide Holds, Decode, Validity, Band;
    RingBand(sum, f, base, rs);
    BandRuns(Validity(sum, f), if base == 0 then |rs| else base + |rs| - CAPACITY,
             if base == 0 then CAPACITY else base, CAPACITY);
  }

  lemma WindowHigh(sum: Checksum16, f: Flash, base: nat, rs: seq<AuditRecord>, start: nat)
    requires Holds(sum, f, base, rs) && |rs| <= CAPACITY && SlotIndex(start) == base && AscendingSequences(rs)
    ensures var s := Sequences(sum, f, start, start + |rs|);
            Drop(s, start, |s|) == 0 && High(s, |s|) == HighOf(rs)
  {
    hide Holds, Decode, SlotIndex;
    WindowSequences(sum, f, base, rs, start);
    var s := Sequences(sum, f, start, start + |rs|);
    hide Sequences;
    forall i, j | 0 <= i < j < |s|
      ensures s[i] < s[j]
    {
      assert rs[i].sequence < rs[j].sequence;
    }
    forall i | 0 <= i < |s|
      ensures s[i] >= 0
    {
      assert s[i] == rs[i].sequence;
    }
    AscendingHasNoDrop(s, start, |s|);
  }

  lemma EmptyScan(sum: Checksum16, f: Flash)
    requires Holds(sum, f, 0, [])
    ensures ScanWindow(sum, f) == Found(Window(0, 0, 0))
  {
    hide Holds, Runs, Validity;
    RingRuns(sum, f, 0, []);
  }

  // Not every slot holds a record: the last run, merged across the wrap, is
  // the window.
  lemma PartialScan(sum: Checksum16, f: Flash, base: nat, rs: seq<AuditRecord>)
    requires Holds(sum, f, base, rs) && Shape(base, |rs|) && AscendingSequences(rs)
    requires 0 < |rs| < CAPACITY
    ensures ScanWindow(sum, f) == Found(Window(base, base + |rs|, HighOf(rs)))
  {
    hide Holds, WindowReadable, Sequences, Runs, Validity, Drop, High, HighOf, ActiveRun, AscendingSequences;
    RingRuns(sum, f, base, rs);
    assert SlotIndex(base) == base;
    WindowSequences(sum, f, base, rs, base);
    WindowHigh(sum, f, base, rs, base);
  }

  // Sequences of a full ring as the scan meets them, from slot 0 on.
  lemma FullSequences(sum: Checksum16, f: Flash, base: nat, rs: seq<AuditRecord>)
    requires Holds(sum, f, base, rs) && |rs| == CAPACITY
    ensures WindowReadable(sum, f, 0, CAPACITY)
    ensures forall k :: 0 <= k < CAPACITY ==>
      Sequences(sum, f, 0, CAPACITY)[k] == rs[Dist(base, k)].sequence
  {
    hide Decode;
    forall k | 0 <= k < CAPACITY
      ensures Sequences(sum, f, 0, CAPACITY)[k] == rs[Dist(base, k)].sequence
      ensures Decode(sum, f[SlotIndex(k)]) != NoRecord
    {
      assert SlotIndex(0 + k) == k;
      assert Decode(sum, f[k]) == Decoded(rs[Dist(base, k)]);
      assert SequenceAt(sum, f, k) == rs[Dist(base, k)].sequence;
    }
  }

  lemma FullDrop(base: nat, rs: seq<AuditRecord>, s: seq<int>)
    requires 0 < base < CAPACITY && |rs| == CAPACITY == |s| && AscendingSequences(rs)
    requires forall k :: 0 <= k < CAPACITY ==> s[k] == rs[Dist(base, k)].sequence
    ensures Drop(s, 0, |s|) == base && High(s, |s|) == HighOf(rs)
  {
    forall i, j | 0 <= i < CAPACITY && 0 <= j < CAPACITY && Dist(base, i) < Dist(base, j)
      ensures s[i] < s[j]
    {
      assert rs[Dist(base, i)].sequence < rs[Dist(base, j)].sequence;
    }
    forall i | 0 <= i < |s|
      ensures s[i] >= 0
    {
      assert s[i] == rs[Dist(base, i)].sequence;
    }
    RotatedDrop(s, base, |s|);
  }

  // Every slot holds a record and the oldest is somewhere inside: the scan
  // finds it at the sequence drop.
  lemma FullScan(sum: Checksum16, f: Flash, base: nat, rs: seq<AuditRecord>)
    requires Holds(sum, f, base, rs) && Shape(base, |rs|) && AscendingSequences(rs)
    requires |rs| == CAPACITY
    ensures ScanWindow(sum, f) == Found(Window(base, CAPACITY + base, HighOf(rs)))
  {
    hide Holds, WindowReadable, Sequences, Runs, Validity, Drop, High, HighOf, ActiveRun, AscendingSequences;
    RingRuns(sum, f, base, rs);
    FullSequences(sum, f, base, rs);
    var s := Sequences(sum, f, 0, CAPACITY);
    if base == 0 {
      WindowHigh(sum, f, base, rs, 0);
    } else {
      FullDrop(base, rs, s);
    }
  }

  // The boot scan rebuilds the record list, and the cursor up to full circles,
  // from the slots alone, whatever torn or blank slots lie outside the window.
  lemma ScanRecovers(sum: Checksum16, f: Flash, base: nat, rs: seq<AuditRecord>)
    requires Holds(sum, f, base, rs) && Shape(base, |rs|) && AscendingSequences(rs)
    ensures ScanWindow(sum, f).Found?
    ensures var w := ScanWindow(sum, f).window;
            && Carries(sum, f, w, rs) && w.seqHigh == HighOf(rs)
            && w.start == base
            && SlotIndex(w.cursor) == Wrap(base, |rs|)
  {
    hide ScanWindow, Holds, Decode, AscendingSequences;
    if rs == [] {
      EmptyScan(sum, f);
    } else if |rs| < CAPACITY {
      PartialScan(sum, f, base, rs);
      WindowSlots(base, base, |rs|);
    } else {
      FullScan(sum, f, base, rs);
      WindowSlots(base, base + CAPACITY, 0);
    }
    HeldIsCarried(sum, f, base, rs, ScanWindow(sum, f).window);
  }
}
