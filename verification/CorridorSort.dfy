// The kernel's small in-place sort, and the median and MAD taken from it.
module CorridorSort {
  import opened Bytes

  predicate Ascending(s: seq<int>) {
    forall i, j :: 0 <= i < j < |s| ==> s[i] <= s[j]
  }

  // v behind every element not greater than it.
  function Insert(s: seq<int>, v: int): (r: seq<int>)
    ensures |r| == |s| + 1
  {
    if s == [] || s[|s| - 1] <= v then s + [v] else Insert(s[..|s| - 1], v) + [s[|s| - 1]]
  }

  function Sorted(s: seq<int>): (r: seq<int>)
    ensures |r| == |s|
  {
    if s == [] then [] else Insert(Sorted(s[..|s| - 1]), s[|s| - 1])
  }

  lemma SplitLast(s: seq<int>)
    requires s != []
    ensures multiset(s) == multiset(s[..|s| - 1]) + multiset{s[|s| - 1]}
  {
    assert s == s[..|s| - 1] + [s[|s| - 1]];
  }

  lemma {:induction false} InsertAscends(s: seq<int>, v: int)
    requires Ascending(s)
    ensures Ascending(Insert(s, v))
    ensures Insert(s, v)[|s|] == if s == [] || s[|s| - 1] <= v then v else s[|s| - 1]
  {
    if s != [] && s[|s| - 1] > v {
      InsertAscends(s[..|s| - 1], v);
    }
  }

  lemma {:induction false} InsertKeeps(s: seq<int>, v: int)
    ensures multiset(Insert(s, v)) == multiset(s) + multiset{v}
  {
    if s != [] && s[|s| - 1] > v {
      InsertKeeps(s[..|s| - 1], v);
      SplitLast(s);
    }
  }

  lemma {:induction false} SortedSorts(s: seq<int>)
    ensures Ascending(Sorted(s)) && multiset(Sorted(s)) == multiset(s)
  {
    if s != [] {
      SortedSorts(s[..|s| - 1]);
      InsertAscends(Sorted(s[..|s| - 1]), s[|s| - 1]);
      InsertKeeps(Sorted(s[..|s| - 1]), s[|s| - 1]);
      SplitLast(s);
    }
  }

  lemma LastIsLargest(s: seq<int>, x: int)
    requires Ascending(s) && x in multiset(s)
    ensures s != [] && x <= s[|s| - 1]
  {
    var k :| 0 <= k < |s| && s[k] == x;
  }

  lemma SameLast(s: seq<int>, t: seq<int>)
    requires Ascending(s) && Ascending(t) && s != [] && multiset(s) == multiset(t)
    ensures t != [] && s[|s| - 1] == t[|t| - 1]
    ensures multiset(s[..|s| - 1]) == multiset(t[..|t| - 1])
  {
    SplitLast(s);
    LastIsLargest(t, s[|s| - 1]);
    SplitLast(t);
    LastIsLargest(s, t[|t| - 1]);
    SameRest(multiset(s[..|s| - 1]), multiset(t[..|t| - 1]), s[|s| - 1]);
  }

  lemma SameRest(a: multiset<int>, b: multiset<int>, x: int)
    requires a + multiset{x} == b + multiset{x}
    ensures a == b
  {
    assert a == a + multiset{x} - multiset{x};
  }

  // There is only one ascending arrangement of a multiset.
  lemma {:induction false} AscendingIsUnique(s: seq<int>, t: seq<int>)
    requires Ascending(s) && Ascending(t) && multiset(s) == multiset(t)
    ensures s == t
  {
    SameSize(s, t);
    if s != [] {
      SameLast(s, t);
      AscendingIsUnique(s[..|s| - 1], t[..|t| - 1]);
      assert s == s[..|s| - 1] + [s[|s| - 1]] && t == t[..|t| - 1] + [t[|t| - 1]];
    }
  }

  lemma SameSize(s: seq<int>, t: seq<int>)
    requires multiset(s) == multiset(t)
    ensures |s| == |t|
  {
    assert |multiset(s)| == |s| && |multiset(t)| == |t|;
  }

  lemma SortedIgnoresOrder(s: seq<int>, t: seq<int>)
    requires multiset(s) == multiset(t)
    ensures Sorted(s) == Sorted(t)
  {
    SortedSorts(s);
    SortedSorts(t);
    AscendingIsUnique(Sorted(s), Sorted(t));
  }

  function MedianOfSorted(s: seq<int>): int {
    if s == [] then 0
    else if |s| % 2 == 1 then s[|s| / 2]
    else TruncDiv(s[|s| / 2 - 1] + s[|s| / 2], 2)
  }

  function Median(s: seq<int>): int {
    MedianOfSorted(Sorted(s))
  }

  function Deviations(s: seq<int>, m: int): (d: seq<int>)
    ensures |d| == |s|
  {
    seq(|s|, i requires 0 <= i < |s| => if s[i] > m then s[i] - m else m - s[i])
  }

  function Mad(s: seq<int>, m: int): int {
    Median(Deviations(s, m))
  }

  lemma MedianBetween(s: seq<int>, low: int, high: int)
    requires s != [] && forall i :: 0 <= i < |s| ==> low <= s[i] <= high
    ensures low <= Median(s) <= high
  {
    var r := Sorted(s);
    forall i | 0 <= i < |r|
      ensures low <= r[i] <= high
    {
      SortedComesFrom(s, i);
    }
  }

  lemma SortedComesFrom(s: seq<int>, i: nat)
    requires i < |s|
    ensures Sorted(s)[i] in s
  {
    hide Sorted;
    SortedSorts(s);
    assert Sorted(s)[i] in multiset(Sorted(s));
  }

  // No deviation from a value within the range is wider than the range.
  lemma MadWithinRange(s: seq<int>, m: int, low: int, high: int)
    requires low <= m <= high && forall i :: 0 <= i < |s| ==> low <= s[i] <= high
    ensures 0 <= Mad(s, m) <= high - low
  {
    hide Median;
    if s == [] {
      MedianOfNone();
    } else {
      MedianBetween(Deviations(s, m), 0, high - low);
    }
  }

  lemma MedianOfNone()
    ensures Median([]) == 0
  {
  }

  // One step of the shifting loop.
  lemma InsertShifts(s: seq<int>, v: int, j: nat)
    requires 0 < j <= |s| && s[j - 1] > v && Insert(s, v) == Insert(s[..j], v) + s[j..]
    ensures Insert(s, v) == Insert(s[..j - 1], v) + s[j - 1..]
  {
    assert s[..j][..j - 1] == s[..j - 1];
    assert s[j - 1..] == [s[j - 1]] + s[j..];
  }

  lemma InsertLands(s: seq<int>, v: int, j: nat)
    requires j <= |s| && (j == 0 || s[j - 1] <= v) && Insert(s, v) == Insert(s[..j], v) + s[j..]
    ensures Insert(s, v) == s[..j] + [v] + s[j..]
  {
  }

  // Shifts larger values up and drops values[i] into the gap.
  method InsertLast(values: array<int>, i: nat)
    requires i < values.Length
    modifies values
    ensures values[..i + 1] == Insert(old(values[..i]), old(values[i]))
    ensures forall k :: i < k < values.Length ==> values[k] == old(values[k])
  {
    hide Insert;
    ghost var s := values[..i];
    var v := values[i];
    var j := i;
    assert s[..i] == s && s[i..] == [];
    while j > 0 && values[j - 1] > v
      invariant j <= i && (j == i || s[j] > v)
      invariant Insert(s, v) == Insert(s[..j], v) + s[j..]
      invariant forall k :: 0 <= k < j ==> values[k] == s[k]
      invariant forall k :: j < k <= i ==> values[k] == s[k - 1]
      invariant forall k :: i < k < values.Length ==> values[k] == old(values[k])
    {
      InsertShifts(s, v, j);
      values[j] := values[j - 1];
      j := j - 1;
    }
    InsertLands(s, v, j);
    values[j] := v;
    assert values[..i + 1] == s[..j] + [v] + s[j..];
  }

  method SortSmall(values: array<int>, count: nat)
    requires count <= values.Length
    modifies values
    ensures values[..count] == Sorted(old(values[..count]))
    ensures forall k :: count <= k < values.Length ==> values[k] == old(values[k])
  {
    ghost var s := values[..count];
    var i := 0;
    while i < count
      invariant i <= count && values[..i] == Sorted(s[..i])
      invariant forall k :: i <= k < values.Length ==> values[k] == old(values[k])
    {
      InsertLast(values, i);
      assert s[..i + 1][..i] == s[..i];
      i := i + 1;
    }
    assert s[..count] == s;
  }
}
