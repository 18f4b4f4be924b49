// What the median and the MAD mean: half of the values on each side.
module CorridorMedian {
  import opened Bytes
  import opened CorridorSort

  function AtMost(s: seq<int>, x: int): (n: nat)
    ensures n <= |s|
  {
    if s == [] then 0 else AtMost(s[..|s| - 1], x) + if s[|s| - 1] <= x then 1 else 0
  }

  function AtLeast(s: seq<int>, x: int): (n: nat)
    ensures n <= |s|
  {
    if s == [] then 0 else AtLeast(s[..|s| - 1], x) + if s[|s| - 1] >= x then 1 else 0
  }

  // ----- counting does not depend on the order -----

  lemma CountsOfAppended(s: seq<int>, v: int, x: int)
    ensures AtMost(s + [v], x) == AtMost(s, x) + if v <= x then 1 else 0
    ensures AtLeast(s + [v], x) == AtLeast(s, x) + if v >= x then 1 else 0
  {
    assert (s + [v])[..|s|] == s;
  }

  lemma {:induction false} CountsOfInserted(s: seq<int>, v: int, x: int)
    ensures AtMost(Insert(s, v), x) == AtMost(s, x) + if v <= x then 1 else 0
    ensures AtLeast(Insert(s, v), x) == AtLeast(s, x) + if v >= x then 1 else 0
  {
    if s == [] || s[|s| - 1] <= v {
      CountsOfAppended(s, v, x);
    } else {
      CountsOfInserted(s[..|s| - 1], v, x);
      CountsOfAppended(Insert(s[..|s| - 1], v), s[|s| - 1], x);
    }
  }

  lemma {:induction false} CountsOfSorted(s: seq<int>, x: int)
    ensures AtMost(Sorted(s), x) == AtMost(s, x) && AtLeast(Sorted(s), x) == AtLeast(s, x)
  {
    hide Insert;
    if s != [] {
      CountsOfSorted(s[..|s| - 1], x);
      CountsOfInserted(Sorted(s[..|s| - 1]), s[|s| - 1], x);
    }
  }

  // ----- the middle of an ascending sequence -----

  lemma {:induction false} FirstAreAtMost(s: seq<int>, x: int, m: nat)
    requires m <= |s| && forall i :: 0 <= i < m ==> s[i] <= x
    ensures AtMost(s, x) >= m
  {
    if s != [] {
      FirstAreAtMost(s[..|s| - 1], x, if m < |s| then m else m - 1);
    }
  }

  lemma {:induction false} LastAreAtLeast(s: seq<int>, x: int, m: nat)
    requires m <= |s| && forall i :: m <= i < |s| ==> s[i] >= x
    ensures AtLeast(s, x) >= |s| - m
  {
    if m < |s| {
      LastAreAtLeast(s[..|s| - 1], x, m);
    }
  }

  // The rounded mean of two values lies between them.
  lemma MeanBetween(a: int, b: int)
    requires a <= b
    ensures a <= TruncDiv(a + b, 2) <= b
  {
  }

  lemma MedianOfSortedBetween(s: seq<int>)
    requires s != [] && Ascending(s)
    ensures s[(|s| - 1) / 2] <= MedianOfSorted(s) <= s[|s| / 2]
  {
    hide TruncDiv;
    if |s| % 2 == 0 {
      MeanBetween(s[|s| / 2 - 1], s[|s| / 2]);
    }
  }

  lemma MedianSplitsSorted(s: seq<int>)
    requires s != [] && Ascending(s)
    ensures 2 * AtMost(s, MedianOfSorted(s)) >= |s| && 2 * AtLeast(s, MedianOfSorted(s)) >= |s|
  {
    hide MedianOfSorted, AtMost, AtLeast;
    MedianOfSortedBetween(s);
    FirstAreAtMost(s, MedianOfSorted(s), (|s| - 1) / 2 + 1);
    LastAreAtLeast(s, MedianOfSorted(s), |s| / 2);
  }

  // At least half of the values lie on each side of their median.
  lemma MedianSplits(s: seq<int>)
    requires s != []
    ensures 2 * AtMost(s, Median(s)) >= |s| && 2 * AtLeast(s, Median(s)) >= |s|
  {
    hide Sorted, MedianOfSorted;
    SortedSorts(s);
    MedianSplitsSorted(Sorted(s));
    CountsOfSorted(s, Median(s));
  }

  // ----- no side is preferred -----

  // The values with their signs changed, last one first.
  function Mirrored(s: seq<int>): (r: seq<int>)
    ensures |r| == |s| && forall i :: 0 <= i < |s| ==> r[i] == -s[|s| - 1 - i]
  {
    if s == [] then [] else [-s[|s| - 1]] + Mirrored(s[..|s| - 1])
  }

  lemma MirroredStep(s: seq<int>)
    requires s != []
    ensures multiset(Mirrored(s)) == multiset{-s[|s| - 1]} + multiset(Mirrored(s[..|s| - 1]))
    ensures multiset(s) == multiset(s[..|s| - 1]) + multiset{s[|s| - 1]}
  {
    SplitLast(s);
    assert Mirrored(s) == [-s[|s| - 1]] + Mirrored(s[..|s| - 1]);
  }

  lemma {:induction false} MirroredCounts(s: seq<int>, x: int)
    ensures multiset(Mirrored(s))[x] == multiset(s)[-x]
  {
    hide Mirrored;
    if s == [] {
      NothingMirrored(s);
    } else {
      MirroredStep(s);
      MirroredCounts(s[..|s| - 1], x);
    }
  }

  lemma NothingMirrored(s: seq<int>)
    requires s == []
    ensures Mirrored(s) == []
  {
  }

  lemma SortedMirrors(s: seq<int>)
    ensures Sorted(Mirrored(s)) == Mirrored(Sorted(s))
  {
    hide Sorted, Mirrored;
    SortedSorts(s);
    SortedSorts(Mirrored(s));
    forall x: int
      ensures multiset(Mirrored(s))[x] == multiset(Mirrored(Sorted(s)))[x]
    {
      MirroredCounts(s, x);
      MirroredCounts(Sorted(s), x);
    }
    assert multiset(Mirrored(s)) == multiset(Mirrored(Sorted(s)));
    AscendingIsUnique(Sorted(Mirrored(s)), Mirrored(Sorted(s)));
  }

  // Mirroring the values mirrors their median: an even number of them is split
  // halfway, and rounding is toward zero on both sides.
  lemma MedianMirrors(s: seq<int>)
    ensures Median(Mirrored(s)) == -Median(s)
  {
    hide Sorted, Mirrored;
    SortedMirrors(s);
  }

  // ----- spread -----

  // Values no farther than x from m, and no nearer.
  function Within(s: seq<int>, m: int, x: int): nat {
    if s == [] then 0 else Within(s[..|s| - 1], m, x) + if m - x <= s[|s| - 1] <= m + x then 1 else 0
  }

  function Beyond(s: seq<int>, m: int, x: int): nat {
    if s == [] then 0
    else Beyond(s[..|s| - 1], m, x) + if s[|s| - 1] <= m - x || s[|s| - 1] >= m + x then 1 else 0
  }

  lemma {:induction false} DeviationsCount(s: seq<int>, m: int, x: int)
    ensures AtMost(Deviations(s, m), x) == Within(s, m, x) && AtLeast(Deviations(s, m), x) == Beyond(s, m, x)
  {
    if s != [] {
      DeviationsCount(s[..|s| - 1], m, x);
      assert Deviations(s, m)[..|s| - 1] == Deviations(s[..|s| - 1], m);
    }
  }

  // At least half of the values lie within the MAD of m, and at least half no
  // nearer than it.
  lemma MadSplits(s: seq<int>, m: int)
    requires s != []
    ensures 2 * Within(s, m, Mad(s, m)) >= |s| && 2 * Beyond(s, m, Mad(s, m)) >= |s|
  {
    hide Median;
    MedianSplits(Deviations(s, m));
    DeviationsCount(s, m, Mad(s, m));
  }

  lemma {:induction false} WithinAndBeyond(s: seq<int>, m: int, x: int)
    requires x >= 0
    ensures Within(s, m, x) == AtMost(s, m + x) - AtMost(s, m - x - 1)
    ensures Beyond(s, m, x) == if x == 0 then |s| else AtMost(s, m - x) + AtLeast(s, m + x)
  {
    if s != [] {
      WithinAndBeyond(s[..|s| - 1], m, x);
    }
  }

  // So sorting changes neither count.
  lemma SpreadOfSorted(s: seq<int>, m: int, x: int)
    requires x >= 0
    ensures Within(Sorted(s), m, x) == Within(s, m, x) && Beyond(Sorted(s), m, x) == Beyond(s, m, x)
  {
    hide Sorted, Within, Beyond, AtMost, AtLeast;
    WithinAndBeyond(s, m, x);
    WithinAndBeyond(Sorted(s), m, x);
    CountsOfSorted(s, m + x);
    CountsOfSorted(s, m - x);
    CountsOfSorted(s, m - x - 1);
  }

  lemma {:induction false} SpreadRises(s: seq<int>, m: int, x: int, y: int)
    requires x <= y
    ensures Within(s, m, x) <= Within(s, m, y) && Beyond(s, m, x) >= Beyond(s, m, y)
  {
    if s != [] {
      SpreadRises(s[..|s| - 1], m, x, y);
    }
  }
}
