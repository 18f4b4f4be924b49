// The retained log: 512 cells written in turn, read after a cursor.
module DebugRing {
  import opened Bytes
  import opened DebugSequence

  const TEXT_CAPACITY: nat := 128

  datatype Payload = Payload(
    atMs: u32, wallSec: u32, level: u8, category: u8, code: u16, argument1: i32, argument2: i32, text: string)

  datatype DebugEvent = DebugEvent(sequence: u32, payload: Payload)

  const NO_EVENT := DebugEvent(0, Payload(0, 0, 0, 0, 0, 0, 0, ""))

  // Texts are cut to leave room for the terminator.
  function Retained(p: Payload): Payload {
    p.(text := if |p.text| < TEXT_CAPACITY then p.text else p.text[..TEXT_CAPACITY - 1])
  }

  function EventAt(history: seq<Payload>, e: nat): DebugEvent
    requires e < |history|
  {
    DebugEvent(SequenceOf(e), Retained(history[e]))
  }

  datatype Metadata = Metadata(historyOverwritten: u32, missedEvents: u32, hasMore: bool, cursorInvalid: bool)

  lemma CellOfRetained(n: nat, index: nat)
    requires First(n) + index < n
    ensures ((n % CAPACITY + CAPACITY - (n - First(n))) % CAPACITY + index) % CAPACITY == (First(n) + index) % CAPACITY
  {
    OldestCell(n);
    CellPlus(First(n), index);
  }

  lemma OldestCell(n: nat)
    ensures (n % CAPACITY + CAPACITY - (n - First(n))) % CAPACITY == First(n) % CAPACITY
  {
  }

  lemma CellPlus(e: nat, index: nat)
    ensures (e % CAPACITY + index) % CAPACITY == (e + index) % CAPACITY
  {
  }

  lemma CellsDiffer(n: nat, e: nat)
    requires First(n + 1) <= e < n
    ensures e % CAPACITY != n % CAPACITY
  {
  }

  lemma {:induction false} MatchingAreRetained(from: nat, n: nat, after: u32)
    requires from <= n
    ensures forall i :: 0 <= i < |Matching(from, n, after)| ==> from <= Matching(from, n, after)[i] < n
    decreases n - from
  {
    hide Wanted;
    if from < n {
      MatchingAreRetained(from + 1, n, after);
    }
  }

  lemma MatchingStep(from: nat, n: nat, after: u32)
    requires from < n
    ensures Matching(from, n, after) == (if Wanted(from, after) then [from] else []) + Matching(from + 1, n, after)
  {
    hide Wanted;
  }

  lemma MatchingEnds(n: nat, after: u32)
    ensures Matching(n, n, after) == []
  {
  }

  // The latest sequence is read off the next one, which names the newest event
  // except just after the wrap: then it reads as no event at all.
  lemma LatestNamesTheNewestExactly(n: nat)
    requires n > 0
    ensures SequenceOf(n) - 1 == SequenceOf(n - 1) <==> n % (WRAP - 1) != 0
    ensures n % (WRAP - 1) == 0 ==> SequenceOf(n) - 1 == 0 && SequenceOf(n - 1) == UINT32_MAX
  {
    SequenceSteps(n - 1);
  }

  class DebugRingBuffer {
    const events: array<DebugEvent>
    ghost var history: seq<Payload>
    var nextSequence: u32
    var count: nat
    var writeIndex: nat
    var overwritten: u32

    ghost predicate Sound()
      reads this, events
      ensures Sound() ==> count == |history| - First(|history|) && overwritten == First(|history|) % WRAP
    {
      var n := |history|;
      && events.Length == CAPACITY && nextSequence == SequenceOf(n) && count == n - First(n)
      && writeIndex == n % CAPACITY && overwritten == First(n) % WRAP
      && forall e :: First(n) <= e < n ==> events[e % CAPACITY] == EventAt(history, e)
    }

    constructor ()
      ensures Sound() && fresh(events) && history == []
    {
      events := new DebugEvent[CAPACITY](i => NO_EVENT);
      history, nextSequence, count, writeIndex, overwritten := [], 1, 0, 0, 0;
    }

    method Clear()
      requires Sound()
      modifies this, events
      ensures Sound() && history == []
    {
      nextSequence := 1;
      count := 0;
      writeIndex := 0;
      overwritten := 0;
      history := [];
      for i := 0 to events.Length
        modifies events
      {
        events[i] := NO_EVENT;
      }
    }

    method Add(payload: Payload)
      requires Sound()
      modifies this, events
      ensures Sound() && history == old(history) + [payload]
    {
      hide SequenceOf;
      ghost var n := |history|;
      SequenceSteps(n);
      Put(DebugEvent(nextSequence, Retained(payload)));
      if count == CAPACITY {
        overwritten := (overwritten + 1) % WRAP;
      } else {
        count := count + 1;
      }
      nextSequence := NextSequence(nextSequence);
      history := history + [payload];
      CellPlus(n, 1);
      OverwrittenSteps(n);
      forall e | First(n + 1) <= e <= n
        ensures events[e % CAPACITY] == EventAt(history, e)
      {
        if e < n {
          CellsDiffer(n, e);
        }
      }
    }

    method Put(event: DebugEvent)
      requires events.Length == CAPACITY && writeIndex < CAPACITY
      modifies this`writeIndex, events
      ensures events[old(writeIndex)] == event && writeIndex == (old(writeIndex) + 1) % CAPACITY
      ensures forall i :: 0 <= i < CAPACITY && i != old(writeIndex) ==> events[i] == old(events[i])
    {
      events[writeIndex] := event;
      writeIndex := (writeIndex + 1) % CAPACITY;
    }

    method LatestSequence() returns (latest: u32)
      requires Sound()
      ensures latest == if history == [] then 0 else SequenceOf(|history|) - 1
    {
      latest := if count == 0 then 0 else nextSequence - 1;
    }

    method Describe(after: u32) returns (m: Metadata)
      requires Sound()
      ensures var n := |history|;
              m == Metadata(First(n) % WRAP, Missed(n, after), false, CursorInvalid(n, after))
    {
      hide SequenceAfter, MissedBefore, SequenceOf, Sound;
      m := Metadata(overwritten, 0, false, false);
      if count > 0 {
        var oldest := ReadRetained(0);
        var newest := ReadNewest();
        if after != 0 && SequenceAfter(oldest.sequence, after) {
          m := m.(missedEvents := MissedBefore(after, oldest.sequence));
        } else if after != 0 && after != newest.sequence && SequenceAfter(after, newest.sequence) {
          m := m.(cursorInvalid := true);
        }
      }
    }

    // Copies the retained events after a cursor, oldest first, as far as the
    // output reaches; zero asks for all of them.
    method CopyAfter(after: u32, output: array<DebugEvent>) returns (copied: nat, m: Metadata)
      requires Sound() && output != events
      modifies output
      ensures var n := |history|;
              var found := Matching(First(n), n, after);
              && copied == (if |found| < output.Length then |found| else output.Length)
              && (forall i :: 0 <= i < copied ==> found[i] < n && output[i] == EventAt(history, found[i]))
              && (forall i :: copied <= i < output.Length ==> output[i] == old(output[i]))
              && m == Metadata(First(n) % WRAP, Missed(n, after), |found| > output.Length, CursorInvalid(n, after))
    {
      hide SequenceOf, SequenceAfter, EventAt, Missed, CursorInvalid, Matching, Sound;
      m := Describe(after);
      copied := 0;
      ghost var n := |history|;
      MatchingEnds(n, after);
      ghost var found: seq<nat> := [];
      for index := 0 to count
        modifies output
        invariant Matching(First(n), n, after) == found + Matching(First(n) + index, n, after)
        invariant copied == if |found| < output.Length then |found| else output.Length
        invariant forall i :: 0 <= i < copied ==> found[i] < n && output[i] == EventAt(history, found[i])
        invariant forall i :: copied <= i < output.Length ==> output[i] == old(output[i])
        invariant m == Metadata(First(n) % WRAP, Missed(n, after), |found| > output.Length, CursorInvalid(n, after))
      {
        var event := ReadRetained(index);
        MatchingStep(First(n) + index, n, after);
        if after == 0 || SequenceAfter(event.sequence, after) {
          found := found + [First(n) + index];
          if copied == output.Length {
            m := m.(hasMore := true);
          } else {
            output[copied] := event;
            copied := copied + 1;
          }
        }
      }
    }

    method ReadNewest() returns (event: DebugEvent)
      requires Sound() && count > 0
      ensures event.sequence == SequenceOf(|history| - 1)
    {
      hide SequenceOf;
      ghost var n := |history|;
      NewestCell(n);
      assert First(n) <= n - 1 && events[(n - 1) % CAPACITY] == EventAt(history, n - 1);
      event := events[(writeIndex + CAPACITY - 1) % CAPACITY];
    }

    method ReadRetained(index: nat) returns (event: DebugEvent)
      requires Sound() && index < count
      ensures First(|history|) + index < |history| && event == EventAt(history, First(|history|) + index)
      ensures event.sequence == SequenceOf(First(|history|) + index)
    {
      CellOfRetained(|history|, index);
      event := events[((writeIndex + CAPACITY - count) % CAPACITY + index) % CAPACITY];
    }
  }

  lemma NewestCell(n: nat)
    requires n > 0
    ensures (n % CAPACITY + CAPACITY - 1) % CAPACITY == (n - 1) % CAPACITY
  {
  }

  lemma OverwrittenSteps(n: nat)
    ensures First(n + 1) % WRAP == if n - First(n) == CAPACITY then (First(n) % WRAP + 1) % WRAP else First(n) % WRAP
  {
  }
}
