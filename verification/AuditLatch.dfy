// The RAM latch in front of the durable audit store: a 64-record ring with its
// own sequence numbers, a watermark of what is already durable, and a rate limit.
module AuditLatch {
  import opened Bytes
  import opened AuditCodec
  import opened AuditRing

  const AUDIT_RECORD_CAPACITY: nat := 64
  const AUDIT_RATE_WINDOW_MS: u32 := 60000
  const AUDIT_RATE_LIMIT: nat := 10
  const AUDIT_RATE_SLOTS: nat := 8

  // ----- the ring -----

  datatype Ring = Ring(events: seq<AuditRecord>, count: nat, writeIndex: nat)

  predicate RingShaped(r: Ring) {
    |r.events| == AUDIT_RECORD_CAPACITY && r.count <= AUDIT_RECORD_CAPACITY && r.writeIndex < AUDIT_RECORD_CAPACITY
  }

  // Ring position of the n-th oldest record.
  function Position(r: Ring, n: nat): (k: nat)
    requires RingShaped(r) && n < AUDIT_RECORD_CAPACITY
    ensures k < AUDIT_RECORD_CAPACITY
  {
    var w: int, c: int := r.writeIndex, r.count;
    var k := w - c + n;
    if k < 0 then k + AUDIT_RECORD_CAPACITY else if k >= AUDIT_RECORD_CAPACITY then k - AUDIT_RECORD_CAPACITY else k
  }

  lemma PositionIsModular(r: Ring, index: nat)
    requires RingShaped(r) && 0 < index <= r.count
    ensures (r.writeIndex + AUDIT_RECORD_CAPACITY - index) % AUDIT_RECORD_CAPACITY == Position(r, r.count - index)
  {
  }

  // The records held, oldest first.
  function Contents(r: Ring): (q: seq<AuditRecord>)
    requires RingShaped(r)
    ensures |q| == r.count
  {
    seq(r.count, i requires 0 <= i < r.count => r.events[Position(r, i)])
  }

  function Latest(q: seq<AuditRecord>): (r: seq<AuditRecord>)
    ensures |r| <= AUDIT_RECORD_CAPACITY
  {
    if |q| <= AUDIT_RECORD_CAPACITY then q else q[|q| - AUDIT_RECORD_CAPACITY..]
  }

  function Pushed(r: Ring, record: AuditRecord): Ring
    requires RingShaped(r)
  {
    Ring(r.events[r.writeIndex := record],
         if r.count == AUDIT_RECORD_CAPACITY then r.count else r.count + 1,
         (r.writeIndex + 1) % AUDIT_RECORD_CAPACITY)
  }

  // Pushing keeps the newest records in order.
  lemma PushedContents(r: Ring, record: AuditRecord)
    requires RingShaped(r)
    ensures RingShaped(Pushed(r, record))
    ensures Contents(Pushed(r, record)) == Latest(Contents(r) + [record])
  {
    var p := Pushed(r, record);
    var q := Contents(r) + [record];
    forall i | 0 <= i < p.count
      ensures Contents(p)[i] == Latest(q)[i]
    {
      if r.count < AUDIT_RECORD_CAPACITY {
        assert i < r.count ==> Position(p, i) == Position(r, i);
      } else {
        assert i + 1 < AUDIT_RECORD_CAPACITY ==> Position(p, i) == Position(r, i + 1);
      }
    }
  }

  // The records of q later than a sequence, in order.
  function Later(q: seq<AuditRecord>, after: u32): (l: seq<AuditRecord>)
    ensures |l| <= |q|
    ensures forall i :: 0 <= i < |l| ==> l[i].sequence > after
  {
    if q == [] then []
    else Later(q[..|q| - 1], after) + (if q[|q| - 1].sequence > after then [q[|q| - 1]] else [])
  }

  function FirstOf(l: seq<AuditRecord>, capacity: nat): (r: seq<AuditRecord>)
    ensures |r| <= capacity && |r| <= |l|
  {
    if |l| <= capacity then l else l[..capacity]
  }

  lemma {:induction false} LaterIsStorable(q: seq<AuditRecord>, after: u32)
    requires Storable(q)
    ensures Storable(Later(q, after))
    ensures forall i :: 0 <= i < |Later(q, after)| ==> Later(q, after)[i].sequence <= HighOf(q)
  {
    hide Normal;
    if q != [] {
      var front := q[..|q| - 1];
      LaterIsStorable(front, after);
      assert front != [] ==> HighOf(front) == q[|q| - 2].sequence;
    }
  }

  lemma {:induction false} LaterStep(q: seq<AuditRecord>, after: u32, n: nat)
    requires n < |q|
    ensures Later(q[..n + 1], after) == Later(q[..n], after) + (if q[n].sequence > after then [q[n]] else [])
  {
    assert q[..n + 1][..n] == q[..n];
  }

  // ----- the whole latch -----

  datatype Latch = Latch(ring: Ring, nextSequence: u32, pendingAfter: u32)

  function NoEvents(n: nat): (e: seq<AuditRecord>)
    ensures |e| == n
  {
    if n == 0 then [] else NoEvents(n - 1) + [ZERO_AUDIT_RECORD]
  }

  function FreshLatch(): Latch {
    Latch(Ring(NoEvents(AUDIT_RECORD_CAPACITY), 0, 0), 1, 0)
  }

  function Added(l: Latch, record: AuditRecord): Latch
    requires RingShaped(l.ring)
  {
    Latch(Pushed(l.ring, record.(sequence := l.nextSequence)), Successor(l.nextSequence), l.pendingAfter)
  }

  function Adopted(l: Latch, record: AuditRecord): Latch
    requires RingShaped(l.ring)
  {
    if record.sequence == 0 then l
    else Latch(Pushed(l.ring, record),
               if record.sequence >= l.nextSequence then Successor(record.sequence) else l.nextSequence,
               if record.sequence > l.pendingAfter then record.sequence else l.pendingAfter)
  }

  function FlushedThrough(l: Latch, sequence: u32): Latch {
    if sequence > l.pendingAfter then l.(pendingAfter := sequence) else l
  }

  function Pending(l: Latch): seq<AuditRecord>
    requires RingShaped(l.ring)
  {
    Later(Contents(l.ring), l.pendingAfter)
  }

  // A fresh latch that has adopted the records oldest first.
  function Backfilled(rs: seq<AuditRecord>): (l: Latch)
    ensures RingShaped(l.ring)
  {
    if rs == [] then FreshLatch() else Adopted(Backfilled(rs[..|rs| - 1]), rs[|rs| - 1])
  }

  lemma LatestOfLatest(q: seq<AuditRecord>, record: AuditRecord)
    ensures Latest(Latest(q) + [record]) == Latest(q + [record])
  {
  }

  // Adopting one more durable record when everything so far is flushed.
  lemma AdoptContinues(l: Latch, q: seq<AuditRecord>, record: AuditRecord)
    requires RingShaped(l.ring) && Contents(l.ring) == Latest(q)
    requires l.pendingAfter < record.sequence < UINT32_MAX && l.nextSequence == l.pendingAfter + 1
    ensures var a := Adopted(l, record);
            && Contents(a.ring) == Latest(q + [record])
            && a.nextSequence == record.sequence + 1 && a.pendingAfter == record.sequence
  {
    hide Contents, Pushed, Latest;
    PushedContents(l.ring, record);
    LatestOfLatest(q, record);
  }

  // After a boot the latch holds the newest durable records, nothing is
  // pending, and the next record continues their sequence.
  lemma {:induction false} BackfillContinues(rs: seq<AuditRecord>)
    requires Storable(rs) && HighOf(rs) < UINT32_MAX
    ensures var l := Backfilled(rs);
            && Contents(l.ring) == Latest(rs)
            && l.nextSequence == HighOf(rs) + 1 && l.pendingAfter == HighOf(rs)
  {
    hide Normal, Position, Contents;
    if rs == [] {
      assert Contents(FreshLatch().ring) == [];
    } else {
      hide Adopted, Latest, IsNormal;
      var front := rs[..|rs| - 1];
      assert front != [] ==> HighOf(front) == rs[|rs| - 2].sequence;
      BackfillContinues(front);
      AdoptContinues(Backfilled(front), front, rs[|rs| - 1]);
      assert front + [rs[|rs| - 1]] == rs;
    }
  }

  // ----- rate limit -----

  datatype RateSlot = RateSlot(code: u8, windowStartMs: u32, admitted: nat)

  function Elapsed(now: u32, since: u32): u32 {
    if now >= since then now - since else now - since + 0x1_0000_0000
  }

  // Position of the slot counting a code, or |rates|.
  function RateIndex(rates: seq<RateSlot>, code: u8): (k: nat)
    ensures k <= |rates| && (k < |rates| ==> rates[k].code == code)
    ensures forall i :: 0 <= i < k ==> rates[i].code != code
  {
    if rates == [] || rates[0].code == code then 0 else 1 + RateIndex(rates[1..], code)
  }

  // Every code has one slot, and no window admits more than the limit.
  predicate RatesOk(rates: seq<RateSlot>) {
    && |rates| <= AUDIT_RATE_SLOTS
    && (forall i :: 0 <= i < |rates| ==> 0 < rates[i].admitted <= AUDIT_RATE_LIMIT)
    && (forall i, j :: 0 <= i < j < |rates| ==> rates[i].code != rates[j].code)
  }

  lemma RateIndexIsUnique(rates: seq<RateSlot>, code: u8, k: nat)
    requires k <= |rates| && (k < |rates| ==> rates[k].code == code)
    requires forall i :: 0 <= i < k ==> rates[i].code != code
    ensures RateIndex(rates, code) == k
  {
    var f := RateIndex(rates, code);
    assert k < |rates| ==> f <= k;
  }

  // The slot of a code once an event of that code was admitted.
  function RateAfter(rates: seq<RateSlot>, code: u8, atMs: u32): RateSlot {
    var k := RateIndex(rates, code);
    if k < |rates| && Elapsed(atMs, rates[k].windowStartMs) < AUDIT_RATE_WINDOW_MS
    then rates[k].(admitted := rates[k].admitted + 1)
    else RateSlot(code, atMs, 1)
  }

  class AuditLogLatch {
    const events: array<AuditRecord>
    const rateSlots: array<RateSlot>
    var nextSequence: u32
    var overwritten: u32
    var rateLimited: u32
    var pendingAfter: u32
    var count: nat
    var writeIndex: nat
    var rateCount: nat

    ghost predicate Sound()
      reads this, events, rateSlots
    {
      && events.Length == AUDIT_RECORD_CAPACITY && rateSlots.Length == AUDIT_RATE_SLOTS
      && RingShaped(View().ring) && rateCount <= AUDIT_RATE_SLOTS && RatesOk(rateSlots[..rateCount])
    }

    ghost function View(): Latch
      reads this, events
    {
      Latch(Ring(events[..], count, writeIndex), nextSequence, pendingAfter)
    }

    constructor ()
      ensures Sound() && fresh(events) && fresh(rateSlots)
      ensures Contents(View().ring) == [] && nextSequence == 1 && pendingAfter == 0
    {
      var records := new AuditRecord[AUDIT_RECORD_CAPACITY](i => ZERO_AUDIT_RECORD);
      events := records;
      var rates := new RateSlot[AUDIT_RATE_SLOTS](i => RateSlot(0, 0, 0));
      rateSlots := rates;
      nextSequence, overwritten, rateLimited, pendingAfter := 1, 0, 0, 0;
      count, writeIndex, rateCount := 0, 0, 0;
    }

    method Clear()
      requires Sound()
      modifies this
      ensures Sound() && Contents(View().ring) == [] && nextSequence == 1 && pendingAfter == 0
    {
      nextSequence, overwritten, rateLimited, pendingAfter := 1, 0, 0, 0;
      count, writeIndex, rateCount := 0, 0, 0;
    }

    method FindRate(code: u8) returns (k: nat)
      requires rateCount <= rateSlots.Length
      ensures k == RateIndex(rateSlots[..rateCount], code)
    {
      hide RateIndex;
      k := 0;
      while k < rateCount && rateSlots[k].code != code
        invariant k <= rateCount
        invariant forall j :: 0 <= j < k ==> rateSlots[j].code != code
      {
        k := k + 1;
      }
      RateIndexIsUnique(rateSlots[..rateCount], code, k);
    }

    // Fills the first free slot or replaces one; no other slot may hold the code.
    method PutRate(k: nat, slot: RateSlot)
      requires Sound() && k <= rateCount && k < AUDIT_RATE_SLOTS && 0 < slot.admitted <= AUDIT_RATE_LIMIT
      requires forall j :: 0 <= j < rateCount && j != k ==> rateSlots[j].code != slot.code
      modifies this`rateCount, rateSlots
      ensures Sound() && View() == old(View()) && k < rateCount && rateSlots[k] == slot
      ensures rateCount == if k == old(rateCount) then k + 1 else old(rateCount)
      ensures forall j :: 0 <= j < old(rateCount) && j != k ==> rateSlots[j] == old(rateSlots[j])
      ensures RateIndex(rateSlots[..rateCount], slot.code) == k
    {
      hide RateIndex, RingShaped;
      rateSlots[k] := slot;
      if k == rateCount {
        rateCount := rateCount + 1;
      }
      RateIndexIsUnique(rateSlots[..rateCount], slot.code, k);
    }

    // An event is refused exactly while its code's window is open and full. Other
    // codes keep their slots, except the one whose window is oldest when a new
    // code finds no free slot.
    method AdmitRate(code: u8, atMs: u32) returns (admitted: bool)
      requires Sound()
      modifies this`rateCount, rateSlots
      ensures Sound() && View() == old(View())
      ensures var rates := old(rateSlots[..rateCount]);
              var k := RateIndex(rates, code);
              && admitted == !(k < |rates| && Elapsed(atMs, rates[k].windowStartMs) < AUDIT_RATE_WINDOW_MS
                               && rates[k].admitted == AUDIT_RATE_LIMIT)
              && (!admitted ==> rateSlots[..rateCount] == rates)
              && (admitted ==>
                    && RateIndex(rateSlots[..rateCount], code) < rateCount
                    && rateSlots[RateIndex(rateSlots[..rateCount], code)] == RateAfter(rates, code, atMs))
              && (forall j :: 0 <= j < |rates| && j != RateIndex(rateSlots[..rateCount], code) ==> rateSlots[j] == rates[j])
              && (admitted && k == |rates| == AUDIT_RATE_SLOTS ==>
                    forall j :: 0 <= j < |rates| ==>
                      Elapsed(atMs, rates[j].windowStartMs)
                      <= Elapsed(atMs, rates[RateIndex(rateSlots[..rateCount], code)].windowStartMs))
              && (admitted && k == |rates| < AUDIT_RATE_SLOTS ==> RateIndex(rateSlots[..rateCount], code) == |rates|)
    {
      hide RateIndex, Elapsed, RingShaped;
      var i := FindRate(code);
      if i < rateCount {
        var slot := rateSlots[i];
        if Elapsed(atMs, slot.windowStartMs) < AUDIT_RATE_WINDOW_MS {
          if slot.admitted >= AUDIT_RATE_LIMIT {
            return false;
          }
          PutRate(i, slot.(admitted := slot.admitted + 1));
        } else {
          PutRate(i, RateSlot(code, atMs, 1));
        }
        return true;
      }
      var k := rateCount;
      if rateCount == AUDIT_RATE_SLOTS {
        k := OldestWindow(atMs);
      }
      PutRate(k, RateSlot(code, atMs, 1));
      return true;
    }

    method OldestWindow(atMs: u32) returns (oldest: nat)
      requires Sound() && rateCount > 0
      ensures oldest < rateCount
      ensures forall i :: 0 <= i < rateCount ==>
        Elapsed(atMs, rateSlots[i].windowStartMs) <= Elapsed(atMs, rateSlots[oldest].windowStartMs)
    {
      oldest := 0;
      for i := 1 to rateCount
        invariant oldest < rateCount
        invariant forall j :: 0 <= j < i ==>
          Elapsed(atMs, rateSlots[j].windowStartMs) <= Elapsed(atMs, rateSlots[oldest].windowStartMs)
      {
        if Elapsed(atMs, rateSlots[i].windowStartMs) > Elapsed(atMs, rateSlots[oldest].windowStartMs) {
          oldest := i;
        }
      }
    }

    method Push(record: AuditRecord)
      requires Sound()
      modifies this`count, this`writeIndex, this`overwritten, events
      ensures Sound() && View() == Latch(Pushed(old(View().ring), record), nextSequence, pendingAfter)
      ensures rateSlots[..] == old(rateSlots[..])
    {
      PushedContents(View().ring, record);
      if count == AUDIT_RECORD_CAPACITY {
        overwritten := Successor(overwritten);
      } else {
        count := count + 1;
      }
      events[writeIndex] := record;
      writeIndex := (writeIndex + 1) % AUDIT_RECORD_CAPACITY;
    }

    // The record as the latch numbers it; the excerpt stops at 23 characters.
    method Add(record: AuditRecord) returns (admitted: bool)
      requires Sound() && IsNormal(record)
      modifies this, events, rateSlots
      ensures Sound()
      ensures admitted ==> View() == Added(old(View()), record)
      ensures !admitted ==> View() == old(View())
    {
      admitted := AdmitRate(record.code, record.atMs);
      if !admitted {
        rateLimited := Successor(rateLimited);
        return;
      }
      Push(record.(sequence := nextSequence));
      nextSequence := Successor(nextSequence);
    }

    method Adopt(record: AuditRecord) returns (adopted: bool)
      requires Sound()
      modifies this, events
      ensures Sound() && View() == Adopted(old(View()), record) && adopted == (record.sequence != 0)
    {
      if record.sequence == 0 {
        return false;
      }
      Push(record);
      if record.sequence >= nextSequence {
        nextSequence := Successor(record.sequence);
      }
      if record.sequence > pendingAfter {
        pendingAfter := record.sequence;
      }
      return true;
    }

    method CopyAfter(afterSequence: u32, capacity: nat) returns (output: seq<AuditRecord>)
      requires Sound()
      ensures output == FirstOf(Later(Contents(View().ring), afterSequence), capacity)
    {
      hide Later, Normal;
      ghost var q := Contents(View().ring);
      assert Later(q[..0], afterSequence) == [] by {
        LaterOfNone(q, afterSequence);
      }
      output := [];
      var index := count;
      while index > 0 && |output| < capacity
        invariant 0 <= index <= count && |output| <= capacity && |q| == count
        invariant output == Later(q[..count - index], afterSequence)
      {
        PositionIsModular(View().ring, index);
        LaterStep(q, afterSequence, count - index);
        var record := events[(writeIndex + AUDIT_RECORD_CAPACITY - index) % AUDIT_RECORD_CAPACITY];
        assert record == q[count - index];
        if record.sequence > afterSequence {
          output := output + [record];
        }
        index := index - 1;
      }
      assert q[..count] == q;
      LaterPrefix(q, afterSequence, count - index);
    }

    method CopyPending(capacity: nat) returns (output: seq<AuditRecord>)
      requires Sound()
      ensures output == FirstOf(Pending(View()), capacity)
    {
      output := CopyAfter(pendingAfter, capacity);
    }

    method MarkFlushedThrough(sequence: u32)
      modifies this`pendingAfter
      ensures View() == FlushedThrough(old(View()), sequence)
    {
      if sequence > pendingAfter {
        pendingAfter := sequence;
      }
    }
  }

  lemma LaterOfNone(q: seq<AuditRecord>, after: u32)
    ensures Later(q[..0], after) == []
  {
  }

  // What a prefix of q contributes is a prefix of what q contributes.
  lemma {:induction false} LaterPrefix(q: seq<AuditRecord>, after: u32, n: nat)
    requires n <= |q|
    ensures Later(q[..n], after) <= Later(q, after)
    decreases |q| - n
  {
    if n < |q| {
      LaterStep(q, after, n);
      LaterPrefix(q, after, n + 1);
    } else {
      assert q[..n] == q;
    }
  }
}
