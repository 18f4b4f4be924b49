// Statistics over the newest ten admissible arrivals of a preset, and why the
// order of the log does not matter to them.
module ArrivalStats {
  import opened Bytes
  import opened CorridorSort
  import opened CorridorMedian
  import opened ArrivalRecords

  const STATS_MAX_SHOTS: nat := 10
  const STATS_SIGMA_FLOOR_MS: int := 750
  const UINT16_MAX: nat := 65535

  type Rows = seq<ArrivalRecord>

  ghost predicate DistinctIds(rows: Rows) {
    forall i, j :: 0 <= i < j < |rows| ==> rows[i].recordId != rows[j].recordId
  }

  // ----- the slots kept while reading the log -----

  // Position of the smallest id among the first n.
  function Oldest(kept: Rows, n: nat): (k: nat)
    requires 0 < n <= |kept|
    ensures k < n && forall i :: 0 <= i < n ==> kept[k].recordId <= kept[i].recordId
  {
    if n == 1 then 0
    else
      var k := Oldest(kept, n - 1);
      if kept[n - 1].recordId < kept[k].recordId then n - 1 else k
  }

  // Ten rows are kept: the eleventh replaces the one with the least id, unless
  // its own id is less still.
  function Keep(kept: Rows, r: ArrivalRecord): (k: Rows)
    requires |kept| <= STATS_MAX_SHOTS
    ensures |k| <= STATS_MAX_SHOTS
  {
    if |kept| < STATS_MAX_SHOTS then kept + [r]
    else if kept[Oldest(kept, |kept|)].recordId >= r.recordId then kept
    else kept[Oldest(kept, |kept|) := r]
  }

  datatype Fold = Fold(kept: Rows, total: nat)

  function FoldRows(rows: Rows, scope: StatsScope): (f: Fold)
    ensures |f.kept| <= STATS_MAX_SHOTS
  {
    if rows == [] then Fold([], 0)
    else
      var f := FoldRows(rows[..|rows| - 1], scope);
      var r := rows[|rows| - 1];
      if !AdmissibleArrival(r, scope) then f
      else Fold(Keep(f.kept, r), if f.total < UINT16_MAX then f.total + 1 else f.total)
  }

  // ----- what the slots hold -----

  function Admissible(rows: Rows, scope: StatsScope): set<ArrivalRecord> {
    set r | r in rows && AdmissibleArrival(r, scope)
  }

  function Elements(rows: Rows): set<ArrivalRecord> {
    set r | r in rows
  }

  // The newest ten of the rows by id, all of them when there are fewer.
  ghost predicate Newest(kept: Rows, all: set<ArrivalRecord>) {
    && DistinctIds(kept) && Elements(kept) <= all
    && |kept| == (if |all| < STATS_MAX_SHOTS then |all| else STATS_MAX_SHOTS)
    && forall r, k :: r in all && r !in kept && k in kept ==> r.recordId < k.recordId
  }

  ghost predicate UniqueIds(all: set<ArrivalRecord>) {
    forall r, s :: r in all && s in all && r.recordId == s.recordId ==> r == s
  }

  lemma {:induction false} ElementsSize(kept: Rows)
    requires DistinctIds(kept)
    ensures |Elements(kept)| == |kept|
  {
    if kept != [] {
      var front, last := kept[..|kept| - 1], kept[|kept| - 1];
      ElementsSize(front);
      assert Elements(kept) == Elements(front) + {last};
      assert last !in Elements(front);
    }
  }

  lemma KeepsNewestWithRoom(kept: Rows, all: set<ArrivalRecord>, r: ArrivalRecord)
    requires Newest(kept, all) && |kept| < STATS_MAX_SHOTS
    requires r !in all && UniqueIds(all + {r})
    ensures Newest(Keep(kept, r), all + {r})
  {
    ElementsSize(kept);
    SameSizeSubset(Elements(kept), all);
    var k := Keep(kept, r);
    assert Elements(k) == Elements(kept) + {r};
    forall i | 0 <= i < |kept|
      ensures kept[i].recordId != r.recordId
    {
      assert kept[i] in Elements(kept);
    }
  }

  lemma SameSizeSubset<T>(a: set<T>, b: set<T>)
    requires a <= b && |a| == |b|
    ensures a == b
  {
    assert |b - a| == 0;
  }

  lemma KeepsNewestFull(kept: Rows, all: set<ArrivalRecord>, r: ArrivalRecord)
    requires Newest(kept, all) && |kept| == STATS_MAX_SHOTS
    requires r !in all && UniqueIds(all + {r})
    ensures Newest(Keep(kept, r), all + {r})
  {
    var j := Oldest(kept, |kept|);
    var k := Keep(kept, r);
    forall i | 0 <= i < |kept|
      ensures kept[i].recordId != r.recordId
    {
      assert kept[i] in Elements(kept);
    }
    if kept[j].recordId < r.recordId {
      assert k == kept[j := r];
      ReplacedIsNewest(kept, all, j, r);
    } else {
      assert k == kept;
      forall x, y | x in all + {r} && x !in k && y in k
        ensures x.recordId < y.recordId
      {
        var i :| 0 <= i < |kept| && kept[i] == y;
      }
    }
  }

  lemma StillThere(kept: Rows, j: nat, r: ArrivalRecord, m: nat)
    requires j < |kept| && m < |kept| && m != j
    ensures kept[m] in kept[j := r]
  {
    assert kept[j := r][m] == kept[m];
  }

  lemma ReplacedIsNewest(kept: Rows, all: set<ArrivalRecord>, j: nat, r: ArrivalRecord)
    requires Newest(kept, all) && |kept| == STATS_MAX_SHOTS && j < |kept|
    requires forall i :: 0 <= i < |kept| ==> kept[j].recordId <= kept[i].recordId != r.recordId
    requires kept[j].recordId < r.recordId && r !in all
    ensures Newest(kept[j := r], all + {r})
  {
    var k := kept[j := r];
    forall x | x in Elements(k)
      ensures x in all + {r}
    {
      var i :| 0 <= i < |k| && k[i] == x;
      assert i != j ==> kept[i] in Elements(kept);
    }
    forall x, y | x in all + {r} && x !in k && y in k
      ensures x.recordId < y.recordId
    {
      var i :| 0 <= i < |k| && k[i] == y;
      assert k[j] == r;
      if x in kept {
        var m :| 0 <= m < |kept| && kept[m] == x;
        if m != j {
          StillThere(kept, j, r, m);
        }
        assert i != j ==> kept[j].recordId != kept[i].recordId;
      } else {
        assert kept[j] in kept;
        assert i != j ==> kept[i] in kept;
      }
    }
  }

  // After reading the log the slots hold the newest ten admissible rows and
  // the total counts all of them, up to what 16 bits hold.
  lemma {:induction false} FoldKeepsNewest(rows: Rows, scope: StatsScope)
    requires DistinctIds(rows)
    ensures var f := FoldRows(rows, scope); var all := Admissible(rows, scope);
            && Newest(f.kept, all) && UniqueIds(all)
            && f.total == if |all| < UINT16_MAX then |all| else UINT16_MAX
  {
    hide AdmissibleArrival, Keep;
    if rows == [] {
      assert Admissible(rows, scope) == {};
    } else {
      var front, r := rows[..|rows| - 1], rows[|rows| - 1];
      FoldKeepsNewest(front, scope);
      var all := Admissible(front, scope);
      AdmissibleGrows(rows, scope);
      if AdmissibleArrival(r, scope) {
        var kept := FoldRows(front, scope).kept;
        if |kept| < STATS_MAX_SHOTS {
          KeepsNewestWithRoom(kept, all, r);
        } else {
          KeepsNewestFull(kept, all, r);
        }
      }
    }
  }

  lemma AdmissibleGrows(rows: Rows, scope: StatsScope)
    requires rows != [] && DistinctIds(rows)
    ensures var front, r := rows[..|rows| - 1], rows[|rows| - 1];
            && Admissible(rows, scope)
               == (if AdmissibleArrival(r, scope) then Admissible(front, scope) + {r} else Admissible(front, scope))
            && r !in Admissible(front, scope)
            && forall s :: s in Admissible(front, scope) ==> s.recordId != r.recordId
  {
    hide AdmissibleArrival;
    var front, r := rows[..|rows| - 1], rows[|rows| - 1];
    assert rows == front + [r];
  }

  lemma OlderThan(kept: Rows, all: set<ArrivalRecord>, r: ArrivalRecord, k: ArrivalRecord)
    requires Newest(kept, all) && r in all && r !in Elements(kept) && k in Elements(kept)
    ensures r.recordId < k.recordId
  {
  }

  // The newest ten of a set of rows are the same whatever slots they sit in.
  lemma NewestIsUnique(a: Rows, b: Rows, all: set<ArrivalRecord>)
    requires Newest(a, all) && Newest(b, all) && UniqueIds(all)
    ensures Elements(a) == Elements(b)
  {
    ElementsSize(a);
    ElementsSize(b);
    if x :| x in Elements(a) && x !in Elements(b) {
      Exchange(Elements(a), Elements(b), x);
      var y :| y in Elements(b) && y !in Elements(a);
      OlderThan(b, all, x, y);
      OlderThan(a, all, y, x);
      assert false;
    }
    SameSizeSubset(Elements(a), Elements(b));
  }

  // Of two sets of one size, neither is a proper part of the other.
  lemma Exchange<T>(a: set<T>, b: set<T>, x: T)
    requires |a| == |b| && x in a && x !in b
    ensures exists y :: y in b && y !in a
  {
    if b <= a {
      SameSizeSubset(b, a);
    }
  }

  // ----- the statistics -----

  function Times(kept: Rows): (t: seq<int>)
    ensures |t| == |kept|
  {
    seq(|kept|, i requires 0 <= i < |kept| => kept[i].arrivalMs)
  }

  datatype Stats = Stats(n: nat, minMs: int, maxMs: int, medianMs: int, sigmaMs: int, total: nat)

  function StatsOf(times: seq<int>, total: nat): Stats {
    if times == [] then Stats(0, 0, 0, 0, 0, total)
    else
      var sorted := Sorted(times);
      var median := MedianOfSorted(sorted);
      var sigma := TruncDiv(Mad(sorted, median) * 14826, 10000);
      Stats(|times|, sorted[0], sorted[|times| - 1], median,
            if sigma > STATS_SIGMA_FLOOR_MS then sigma else STATS_SIGMA_FLOOR_MS, total)
  }

  function ArrivalStatsOf(rows: Rows, scope: StatsScope): Stats {
    var f := FoldRows(rows, scope);
    StatsOf(Times(f.kept), f.total)
  }

  // The extremes are the extremes of the times, the median lies between them, and
  // the spread is its floor or at most 1.4826 times their distance.
  lemma StatsSummarize(times: seq<int>, total: nat)
    requires times != []
    ensures var s := StatsOf(times, total);
            && s.minMs in times && s.maxMs in times
            && (forall t :: t in times ==> s.minMs <= t <= s.maxMs)
            && s.minMs <= s.medianMs <= s.maxMs
            && STATS_SIGMA_FLOOR_MS <= s.sigmaMs
            && (STATS_SIGMA_FLOOR_MS < s.sigmaMs ==> s.sigmaMs * 10000 <= (s.maxMs - s.minMs) * 14826)
  {
    hide Sorted, Mad, MedianOfSorted;
    var sorted := Sorted(times);
    SortedSorts(times);
    SortedComesFrom(times, 0);
    SortedComesFrom(times, |times| - 1);
    forall t | t in times
      ensures sorted[0] <= t <= sorted[|times| - 1]
    {
      assert t in multiset(sorted);
      var k :| 0 <= k < |sorted| && sorted[k] == t;
    }
    assert forall i :: 0 <= i < |times| ==> times[i] in times;
    MedianBetween(times, sorted[0], sorted[|times| - 1]);
    MadWithinRange(sorted, MedianOfSorted(sorted), sorted[0], sorted[|times| - 1]);
  }

  // Sigma is 1.4826 times the distance that half of the times keep to their
  // median: at least half lie within that distance, and at least half no nearer,
  // unless sigma is at its floor.
  lemma SigmaSplits(times: seq<int>, total: nat, x: int)
    requires times != [] && x >= 0
    ensures var s := StatsOf(times, total);
            && (x * 14826 >= (s.sigmaMs + 1) * 10000 ==> 2 * Within(times, s.medianMs, x) >= |times|)
            && (s.sigmaMs > STATS_SIGMA_FLOOR_MS && x * 14826 <= s.sigmaMs * 10000 ==>
                  2 * Beyond(times, s.medianMs, x) >= |times|)
  {
    hide Sorted, Mad, MedianOfSorted, TruncDiv, Within, Beyond;
    var sorted := Sorted(times);
    var median := MedianOfSorted(sorted);
    var mad := Mad(sorted, median);
    MadSplits(sorted, median);
    TruncBounds(mad * 14826, 10000);
    SpreadOfSorted(times, median, x);
    if x >= mad {
      SpreadRises(sorted, median, mad, x);
    }
    if x <= mad {
      SpreadRises(sorted, median, x, mad);
    }
  }

  // Two duplicate-free arrangements of one set of rows have the same times.
  lemma {:induction false} TimesOfSame(a: Rows, b: Rows)
    requires DistinctIds(a) && DistinctIds(b) && Elements(a) == Elements(b)
    ensures multiset(Times(a)) == multiset(Times(b))
  {
    ElementsSize(a);
    ElementsSize(b);
    if a != [] {
      var r := a[|a| - 1];
      assert r in Elements(b);
      var k :| 0 <= k < |b| && b[k] == r;
      var a', b' := a[..|a| - 1], b[..k] + b[k + 1..];
      WithoutRow(a, |a| - 1);
      WithoutRow(b, k);
      assert a[..|a| - 1] + a[|a|..] == a';
      TimesOfSame(a', b');
    }
  }

  lemma WithoutRow(rows: Rows, k: nat)
    requires DistinctIds(rows) && k < |rows|
    ensures var rest := rows[..k] + rows[k + 1..];
            && DistinctIds(rest) && Elements(rest) == Elements(rows) - {rows[k]}
            && multiset(Times(rows)) == multiset(Times(rest)) + multiset{rows[k].arrivalMs}
  {
    var rest := rows[..k] + rows[k + 1..];
    assert forall i :: 0 <= i < |rest| ==> rest[i] == rows[if i < k then i else i + 1];
    forall x | x in Elements(rows) - {rows[k]}
      ensures x in Elements(rest)
    {
      var i :| 0 <= i < |rows| && rows[i] == x;
      assert x == rest[if i < k then i else i - 1];
    }
    var t := Times(rows);
    assert Times(rest) == t[..k] + t[k + 1..];
    assert t == t[..k] + [t[k]] + t[k + 1..];
  }

  // Reading the same rows in any order gives the same statistics, field by field.
  lemma OrderDoesNotMatter(rows: Rows, permuted: Rows, scope: StatsScope)
    requires DistinctIds(rows) && DistinctIds(permuted) && multiset(rows) == multiset(permuted)
    ensures ArrivalStatsOf(rows, scope) == ArrivalStatsOf(permuted, scope)
  {
    hide AdmissibleArrival, Sorted, FoldRows, Newest, Mad;
    FoldKeepsNewest(rows, scope);
    FoldKeepsNewest(permuted, scope);
    SameElements(rows, permuted);
    assert Admissible(rows, scope) == Admissible(permuted, scope);
    var a, b := FoldRows(rows, scope).kept, FoldRows(permuted, scope).kept;
    NewestIsUnique(a, b, Admissible(rows, scope));
    NewestIsDistinct(a, Admissible(rows, scope));
    NewestIsDistinct(b, Admissible(rows, scope));
    TimesOfSame(a, b);
    SameSize(Times(a), Times(b));
    SortedIgnoresOrder(Times(a), Times(b));
  }

  lemma NewestIsDistinct(kept: Rows, all: set<ArrivalRecord>)
    requires Newest(kept, all)
    ensures DistinctIds(kept)
  {
  }

  lemma SameElements(rows: Rows, permuted: Rows)
    requires multiset(rows) == multiset(permuted)
    ensures forall r :: r in rows <==> r in permuted
  {
    forall r
      ensures r in rows <==> r in permuted
    {
      assert r in rows <==> r in multiset(rows);
      assert r in permuted <==> r in multiset(permuted);
    }
  }

  // ----- the fold over fixed arrays -----

  // The slot arrays stand for the kept rows.
  ghost predicate Stands(ids: array<u32>, times: array<int>, n: nat, kept: Rows)
    reads ids, times
  {
    && ids.Length == STATS_MAX_SHOTS == times.Length && n == |kept| <= STATS_MAX_SHOTS
    && forall i :: 0 <= i < n ==> ids[i] == kept[i].recordId && times[i] == kept[i].arrivalMs
  }

  // Slot for a row, or none: free until full, then the oldest if the row is newer.
  method NewestSlot(ids: array<u32>, n: nat, recordId: u32, ghost kept: Rows) returns (found: bool, slot: nat)
    requires ids.Length == STATS_MAX_SHOTS && n == |kept| <= STATS_MAX_SHOTS
    requires forall i :: 0 <= i < n ==> ids[i] == kept[i].recordId
    ensures found ==> slot < STATS_MAX_SHOTS
    ensures found <==> n < STATS_MAX_SHOTS || kept[Oldest(kept, n)].recordId < recordId
    ensures found ==> slot == if n < STATS_MAX_SHOTS then n else Oldest(kept, n)
  {
    slot := n;
    found := true;
    if n == STATS_MAX_SHOTS {
      slot := 0;
      for j := 1 to n
        invariant slot < n && slot == Oldest(kept, j)
      {
        if ids[j] < ids[slot] {
          slot := j;
        }
      }
      found := ids[slot] < recordId;
    }
  }

  method FoldRow(ids: array<u32>, times: array<int>, n: nat, r: ArrivalRecord, ghost kept: Rows) returns (n': nat)
    requires Stands(ids, times, n, kept)
    modifies ids, times
    ensures Stands(ids, times, n', Keep(kept, r))
  {
    var found, slot := NewestSlot(ids, n, r.recordId, kept);
    n' := if n < STATS_MAX_SHOTS then n + 1 else n;
    if found {
      ids[slot] := r.recordId;
      times[slot] := r.arrivalMs;
    }
  }

  method ComputeStats(rows: Rows, scope: StatsScope) returns (out: Stats)
    ensures out == ArrivalStatsOf(rows, scope)
  {
    hide AdmissibleArrival, Keep, Sorted;
    var ids := new u32[STATS_MAX_SHOTS](i => 0);
    var times := new int[STATS_MAX_SHOTS](i => 0);
    var n, total := 0, 0;
    for i := 0 to |rows|
      invariant Stands(ids, times, n, FoldRows(rows[..i], scope).kept) && total == FoldRows(rows[..i], scope).total
    {
      assert rows[..i + 1][..i] == rows[..i];
      var r := rows[i];
      if AdmissibleArrival(r, scope) {
        if total < UINT16_MAX {
          total := total + 1;
        }
        n := FoldRow(ids, times, n, r, FoldRows(rows[..i], scope).kept);
      }
    }
    assert rows[..|rows|] == rows;
    out := Summarize(times, n, total, FoldRows(rows, scope).kept);
  }

  method Summarize(times: array<int>, n: nat, total: nat, ghost kept: Rows) returns (out: Stats)
    requires times.Length == STATS_MAX_SHOTS && n == |kept| <= STATS_MAX_SHOTS
    requires forall i :: 0 <= i < n ==> times[i] == kept[i].arrivalMs
    ensures out == StatsOf(Times(kept), total)
  {
    hide Sorted;
    if n == 0 {
      return Stats(0, 0, 0, 0, 0, total);
    }
    var sorted := new int[n](i requires 0 <= i < n reads times requires times.Length == STATS_MAX_SHOTS => times[i]);
    assert sorted[..n] == Times(kept);
    SortSmall(sorted, n);
    var median := MedianOfSorted(sorted[..n]);
    var deviations := new int[n];
    for i := 0 to n
      invariant sorted[..n] == Sorted(Times(kept))
      invariant forall k :: 0 <= k < i ==> deviations[k] == Deviations(Sorted(Times(kept)), median)[k]
    {
      deviations[i] := if sorted[i] > median then sorted[i] - median else median - sorted[i];
    }
    assert deviations[..n] == Deviations(Sorted(Times(kept)), median);
    SortSmall(deviations, n);
    var sigma := TruncDiv(MedianOfSorted(deviations[..n]) * 14826, 10000);
    out := Stats(n, sorted[0], sorted[n - 1], median,
                 if sigma > STATS_SIGMA_FLOOR_MS then sigma else STATS_SIGMA_FLOOR_MS, total);
  }
}
