// Event sequences wrap at 32 bits and skip zero; they are compared as RFC 1982,
// section 3.2, compares serial numbers. Events are counted from 0 here, without
// wrapping, and a reader's cursor names the event it saw last.
module DebugSequence {
  import opened Bytes

  const CAPACITY: nat := 512
  const HALF: nat := 0x8000_0000
  const WRAP: nat := 0x1_0000_0000

  // Sequences 1 to 2^32 - 1, then 1 again.
  function SequenceOf(e: nat): (s: u32)
    ensures s > 0
  {
    e % (WRAP - 1) + 1
  }

  function NextSequence(s: u32): u32 {
    if s == UINT32_MAX then 1 else s + 1
  }

  lemma SequenceSteps(e: nat)
    ensures SequenceOf(e + 1) == NextSequence(SequenceOf(e))
  {
  }

  function Distance(s: u32, reference: u32): u32 {
    (s - reference) % WRAP
  }

  predicate SequenceAfter(s: u32, reference: u32) {
    s != reference && ToI32(Distance(s, reference)) > 0
  }

  function MissedBefore(after: u32, oldest: u32): u32 {
    var distance := Distance(oldest, after);
    var skipped := if oldest < after then (distance - 1) % WRAP else distance;
    if skipped > 0 then skipped - 1 else 0
  }

  // ----- comparison -----

  // Counting forward, the skipped zero adds one to the distance once the
  // sequence has wrapped.
  lemma ForwardDistance(e: nat, d: nat)
    requires 0 < d <= HALF
    ensures var wrapped := SequenceOf(e + d) < SequenceOf(e);
            Distance(SequenceOf(e + d), SequenceOf(e)) == d + if wrapped then 1 else 0
    ensures SequenceOf(e + d) != SequenceOf(e)
  {
    var q, r := e / (WRAP - 1), e % (WRAP - 1);
    assert e == (WRAP - 1) * q + r;
    if r + d < WRAP - 1 {
      assert (e + d) % (WRAP - 1) == r + d;
    } else {
      assert e + d == (WRAP - 1) * (q + 1) + (r + d - (WRAP - 1));
      assert (e + d) % (WRAP - 1) == r + d - (WRAP - 1);
    }
  }

  // How far ahead an event still compares as later: one less across the wrap.
  lemma LaterExactly(e: nat, d: nat)
    requires 0 < d <= HALF
    ensures SequenceAfter(SequenceOf(e + d), SequenceOf(e))
       <==> d + (if SequenceOf(e + d) < SequenceOf(e) then 1 else 0) < HALF
  {
    hide SequenceOf;
    ForwardDistance(e, d);
  }

  lemma NotAfterItself(e: nat)
    ensures !SequenceAfter(SequenceOf(e), SequenceOf(e))
  {
  }

  lemma EarlierIsNotAfter(e: nat, d: nat)
    requires 0 < d < HALF - 1
    ensures !SequenceAfter(SequenceOf(e), SequenceOf(e + d))
  {
    hide SequenceOf;
    ForwardDistance(e, d);
    OppositeDistance(SequenceOf(e + d), SequenceOf(e));
  }

  lemma OppositeDistance(s: u32, t: u32)
    requires s != t
    ensures Distance(s, t) + Distance(t, s) == WRAP
  {
  }

  // Across the wrap, the event half the sequence space ahead is not later.
  lemma HalfwayAcrossTheWrap()
    ensures SequenceAfter(SequenceOf(HALF - 1), SequenceOf(0))
    ensures !SequenceAfter(SequenceOf(WRAP - 3 + HALF - 1), SequenceOf(WRAP - 3))
  {
    LaterExactly(0, HALF - 1);
    LaterExactly(WRAP - 3, HALF - 1);
  }

  // ----- what a reader gets -----

  // The oldest of n events still in the ring.
  function First(n: nat): (first: nat)
    ensures first <= n && n - first <= CAPACITY && (n > 0 ==> first < n)
  {
    if n < CAPACITY then 0 else n - CAPACITY
  }

  predicate Wanted(e: nat, after: u32) {
    after == 0 || SequenceAfter(SequenceOf(e), after)
  }

  // The retained events a cursor asks for, oldest first.
  function Matching(from: nat, n: nat, after: u32): (found: seq<nat>)
    requires from <= n
    ensures |found| <= n - from
    decreases n - from
  {
    if from == n then []
    else (if Wanted(from, after) then [from] else []) + Matching(from + 1, n, after)
  }

  function Missed(n: nat, after: u32): u32 {
    if n > 0 && after != 0 && SequenceAfter(SequenceOf(First(n)), after)
    then MissedBefore(after, SequenceOf(First(n))) else 0
  }

  predicate CursorInvalid(n: nat, after: u32) {
    && n > 0 && after != 0 && !SequenceAfter(SequenceOf(First(n)), after)
    && after != SequenceOf(n - 1) && SequenceAfter(after, SequenceOf(n - 1))
  }

  function Range(from: nat, n: nat): (r: seq<nat>)
    requires from <= n
    ensures |r| == n - from
    ensures forall i :: 0 <= i < |r| ==> r[i] == from + i
  {
    seq(n - from, i requires 0 <= i < n - from => from + i)
  }

  // The reader is less than half the sequence space behind.
  predicate Near(n: nat, cursor: nat) {
    cursor < n <= cursor + HALF - 1
  }

  lemma WantedExactly(e: nat, n: nat, cursor: nat)
    requires First(n) <= e < n && Near(n, cursor)
    ensures Wanted(e, SequenceOf(cursor)) <==> e > cursor
  {
    hide SequenceOf, SequenceAfter;
    if e > cursor {
      LaterExactly(cursor, e - cursor);
    } else if e == cursor {
      NotAfterItself(e);
    } else {
      EarlierIsNotAfter(e, cursor - e);
    }
  }

  function Max(a: nat, b: nat): nat {
    if a < b then b else a
  }

  lemma {:induction false} MatchingIsRange(from: nat, n: nat, cursor: nat)
    requires First(n) <= from <= n && Near(n, cursor)
    ensures Max(from, cursor + 1) <= n
    ensures Matching(from, n, SequenceOf(cursor)) == Range(Max(from, cursor + 1), n)
    decreases n - from
  {
    hide SequenceOf, Wanted;
    if from < n {
      WantedExactly(from, n, cursor);
      MatchingIsRange(from + 1, n, cursor);
    }
  }

  lemma {:induction false} EverythingMatchesZero(from: nat, n: nat)
    requires from <= n
    ensures Matching(from, n, 0) == Range(from, n)
    decreases n - from
  {
    if from < n {
      EverythingMatchesZero(from + 1, n);
    }
  }

  // A cursor that names an event gets every retained later event once and in
  // order, and is told exactly how many later ones are gone.
  lemma CursorReadsExactly(n: nat, cursor: nat)
    requires Near(n, cursor)
    ensures Max(First(n), cursor + 1) <= n
    ensures Matching(First(n), n, SequenceOf(cursor)) == Range(Max(First(n), cursor + 1), n)
    ensures Missed(n, SequenceOf(cursor)) == Max(First(n), cursor + 1) - (cursor + 1)
    ensures !CursorInvalid(n, SequenceOf(cursor))
  {
    hide SequenceOf, SequenceAfter, Wanted, Matching;
    MatchingIsRange(First(n), n, cursor);
    OldestComparesExactly(First(n), n, cursor);
    if cursor < n - 1 {
      EarlierComparesExactly(cursor, n);
    }
  }

  lemma OldestComparesExactly(first: nat, n: nat, cursor: nat)
    requires first == First(n) && Near(n, cursor)
    ensures SequenceAfter(SequenceOf(first), SequenceOf(cursor)) <==> first > cursor
    ensures first > cursor ==> MissedBefore(SequenceOf(cursor), SequenceOf(first)) == first - (cursor + 1)
  {
    hide SequenceOf, SequenceAfter;
    if first > cursor {
      LaterExactly(cursor, first - cursor);
      ForwardDistance(cursor, first - cursor);
    } else if first == cursor {
      NotAfterItself(cursor);
    } else {
      EarlierIsNotAfter(first, cursor - first);
    }
  }

  lemma EarlierComparesExactly(cursor: nat, n: nat)
    requires cursor < n - 1 && n <= cursor + HALF - 1
    ensures !SequenceAfter(SequenceOf(cursor), SequenceOf(n - 1))
  {
    hide SequenceOf, SequenceAfter;
    EarlierIsNotAfter(cursor, n - 1 - cursor);
  }
}
