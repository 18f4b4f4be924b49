// A reader that follows the ring with a cursor while events are logged: over any
// run, every event is delivered once and in order or counted as missed.
module DebugReader {
  import opened Bytes
  import opened DebugSequence

  // The next cursor, the events delivered so far, and the missed ones reported.
  datatype Reader = Reader(after: u32, picks: seq<nat>, missed: nat)

  function Last(picks: seq<nat>): nat
    requires picks != []
  {
    picks[|picks| - 1]
  }

  // One page out of n logged events; a cursor past the newest starts over.
  function ReadPage(r: Reader, n: nat, capacity: nat): Reader {
    var found := Matching(First(n), n, r.after);
    var picked := if |found| < capacity then found else found[..capacity];
    Reader(if CursorInvalid(n, r.after) then 0 else if picked == [] then r.after else SequenceOf(Last(picked)),
           r.picks + picked, r.missed + Missed(n, r.after))
  }

  datatype Step = Logged | Page(capacity: nat)

  datatype State = State(n: nat, reader: Reader)

  const START := State(0, Reader(0, [], 0))

  function Next(s: State, step: Step): State {
    match step
    case Logged => State(s.n + 1, s.reader)
    case Page(capacity) => State(s.n, ReadPage(s.reader, s.n, capacity))
  }

  function After(steps: seq<Step>): State {
    if steps == [] then START else Next(After(steps[..|steps| - 1]), steps[|steps| - 1])
  }

  // Pages hold at least one event, and are asked for before the reader falls
  // half the sequence space behind.
  ghost predicate KeepsUp(s: State, step: Step) {
    step.Page? ==> step.capacity > 0 && (s.reader.picks != [] && s.n > 0 ==> Near(s.n, Last(s.reader.picks)))
  }

  ghost predicate AlwaysKeepsUp(steps: seq<Step>) {
    forall k :: 0 <= k < |steps| ==> KeepsUp(After(steps[..k]), steps[k])
  }

  ghost predicate Ascending(picks: seq<nat>) {
    forall i, j :: 0 <= i < j < |picks| ==> picks[i] < picks[j]
  }

  // Of the events from the first one delivered on, each was delivered or missed.
  ghost predicate Accounted(s: State) {
    var picks := s.reader.picks;
    && Ascending(picks)
    && (picks == [] ==> s.reader.after == 0 && s.reader.missed == 0)
    && (picks != [] ==>
          && s.reader.after == SequenceOf(Last(picks)) && Last(picks) < s.n
          && |picks| + s.reader.missed == Last(picks) + 1 - picks[0])
  }

  // What a page adds: the oldest retained events after the last delivered one.
  lemma PageContinues(s: State, capacity: nat)
    requires Accounted(s) && KeepsUp(s, Page(capacity)) && s.n > 0
    ensures var picks := s.reader.picks;
            var from := if picks == [] then First(s.n) else Max(First(s.n), Last(picks) + 1);
            var count := if s.n - from < capacity then s.n - from else capacity;
            && from <= s.n
            && ReadPage(s.reader, s.n, capacity)
               == Reader(if count == 0 then s.reader.after else SequenceOf(from + count - 1),
                         picks + Range(from, from + count),
                         s.reader.missed + if picks == [] then 0 else from - (Last(picks) + 1))
  {
    hide Matching, SequenceOf, CursorInvalid, Missed;
    var picks := s.reader.picks;
    if picks == [] {
      EverythingMatchesZero(First(s.n), s.n);
      FreshCursor(s.n);
    } else {
      CursorReadsExactly(s.n, Last(picks));
    }
    var from := if picks == [] then First(s.n) else Max(First(s.n), Last(picks) + 1);
    var count := if s.n - from < capacity then s.n - from else capacity;
    assert Range(from, s.n)[..count] == Range(from, from + count);
  }

  lemma FreshCursor(n: nat)
    ensures Missed(n, 0) == 0 && !CursorInvalid(n, 0)
  {
  }

  lemma {:induction false} NextKeepsAccount(s: State, step: Step)
    requires Accounted(s) && KeepsUp(s, step)
    ensures Accounted(Next(s, step))
  {
    hide SequenceOf, First, ReadPage;
    if step.Page? {
      if s.n > 0 {
        PageContinues(s, step.capacity);
      } else {
        EmptyPage(s.reader, step.capacity);
      }
    }
  }

  lemma EmptyPage(r: Reader, capacity: nat)
    ensures ReadPage(r, 0, capacity) == r
  {
    assert r.picks + [] == r.picks;
  }

  lemma {:induction false} ReaderAccountsForEverything(steps: seq<Step>)
    requires AlwaysKeepsUp(steps)
    ensures Accounted(After(steps))
  {
    hide Accounted, Next, KeepsUp;
    if steps == [] {
      StartAccounted();
    } else {
      var before := steps[..|steps| - 1];
      forall k | 0 <= k < |before|
        ensures KeepsUp(After(before[..k]), before[k])
      {
        assert before[..k] == steps[..k];
      }
      ReaderAccountsForEverything(before);
      NextKeepsAccount(After(before), steps[|steps| - 1]);
    }
  }

  lemma StartAccounted()
    ensures Accounted(START)
  {
  }

  // A page with room to spare brings the reader up to the newest event.
  lemma PageCatchesUp(s: State, capacity: nat)
    requires Accounted(s) && KeepsUp(s, Page(capacity)) && s.n > 0
    requires |Matching(First(s.n), s.n, s.reader.after)| <= capacity
    ensures var picks := ReadPage(s.reader, s.n, capacity).picks;
            picks != [] && Last(picks) == s.n - 1
  {
    hide Matching, SequenceOf;
    PageContinues(s, capacity);
    if s.reader.picks == [] {
      EverythingMatchesZero(First(s.n), s.n);
    } else {
      CursorReadsExactly(s.n, Last(s.reader.picks));
    }
  }

  // A cursor less than half the sequence space away is refused exactly if it
  // names an event that is not logged yet.
  lemma RefusedExactly(n: nat, cursor: nat)
    requires n > 0 && (cursor < n || cursor < n + HALF - CAPACITY - 2)
    requires cursor < n ==> Near(n, cursor)
    ensures CursorInvalid(n, SequenceOf(cursor)) <==> cursor >= n
  {
    hide SequenceOf, SequenceAfter, Matching;
    if cursor < n {
      CursorReadsExactly(n, cursor);
    } else {
      EarlierIsNotAfter(First(n), cursor - First(n));
      LaterExactly(n - 1, cursor - (n - 1));
      ForwardDistance(n - 1, cursor - (n - 1));
      NeverZero(cursor);
    }
  }

  lemma NeverZero(e: nat)
    ensures SequenceOf(e) != 0
  {
  }

  // After a refused cursor the next page starts over at the oldest retained
  // event, and nothing is reported as missed.
  lemma RefusedStartsOver(r: Reader, n: nat, capacity: nat)
    requires n > 0 && CursorInvalid(n, r.after)
    ensures var restarted := ReadPage(r, n, capacity); var next := ReadPage(restarted, n, capacity);
            var count := if n - First(n) < capacity then n - First(n) else capacity;
            next.picks == restarted.picks + Range(First(n), First(n) + count) && next.missed == restarted.missed
  {
    hide Matching, SequenceOf, SequenceAfter, Missed;
    var restarted := ReadPage(r, n, capacity);
    EverythingMatchesZero(First(n), n);
    FreshCursor(n);
    var count := if n - First(n) < capacity then n - First(n) else capacity;
    assert Range(First(n), n)[..count] == Range(First(n), First(n) + count);
  }
}
