// The record ring of a history store read as a sequence, oldest record first,
// and what appending, removing, compacting and paging mean for that sequence.
module HistoryRing {
  import opened Bytes
  import opened HistoryTypes

  predicate Shaped(s: HistoryStore) {
    s.header.count <= HISTORY_CAPACITY && s.header.writeIndex < HISTORY_CAPACITY
  }

  // Ring position n slots after the oldest record.
  function RingSlot(h: HistoryHeader, n: nat): (k: nat)
    requires h.count <= HISTORY_CAPACITY && h.writeIndex < HISTORY_CAPACITY && n < HISTORY_CAPACITY
    ensures k < HISTORY_CAPACITY
  {
    var w: int, c: int := h.writeIndex, h.count;
    var k := w - c + n;
    if k < 0 then k + HISTORY_CAPACITY else if k >= HISTORY_CAPACITY then k - HISTORY_CAPACITY else k
  }

  lemma RingSlotIsModular(h: HistoryHeader, n: nat)
    requires h.count <= HISTORY_CAPACITY && h.writeIndex < HISTORY_CAPACITY && n < HISTORY_CAPACITY
    ensures RingSlot(h, n) == (h.writeIndex + HISTORY_CAPACITY - h.count + n) % HISTORY_CAPACITY
    ensures RingSlot(h, n)
         == ((h.writeIndex + HISTORY_CAPACITY - h.count) % HISTORY_CAPACITY + n) % HISTORY_CAPACITY
  {
  }

  lemma RingSlotFromOldest(h: HistoryHeader, n: nat)
    requires h.count <= HISTORY_CAPACITY && h.writeIndex < HISTORY_CAPACITY && n < HISTORY_CAPACITY
    ensures var k := RingSlot(h, 0) + n;
            RingSlot(h, n) == if k < HISTORY_CAPACITY then k else k - HISTORY_CAPACITY
  {
  }

  function Contents(s: HistoryStore): (q: seq<HistoryRecord>)
    requires Shaped(s)
    ensures |q| == s.header.count
  {
    seq(s.header.count, i requires 0 <= i < s.header.count => s.records[RingSlot(s.header, i)])
  }

  // ----- compaction -----

  function Compact(s: HistoryStore): (r: HistoryStore)
    requires Shaped(s)
  {
    RawStore(s.header.(writeIndex := s.header.count % HISTORY_CAPACITY),
             seq(HISTORY_CAPACITY, i requires 0 <= i < HISTORY_CAPACITY =>
               if i < s.header.count then s.records[RingSlot(s.header, i)] else ZERO_RECORD))
  }

  lemma SameRingSameContents(s: HistoryStore, t: HistoryStore)
    requires Shaped(s) && Shaped(t) && s.records == t.records
    requires s.header.count == t.header.count && s.header.writeIndex == t.header.writeIndex
    ensures Contents(s) == Contents(t)
  {
  }

  lemma CompactKeepsContents(s: HistoryStore)
    requires Shaped(s)
    ensures Shaped(Compact(s)) && Contents(Compact(s)) == Contents(s)
    ensures forall i :: 0 <= i < s.header.count ==> Compact(s).records[i] == Contents(s)[i]
  {
    forall i | 0 <= i < s.header.count
      ensures RingSlot(Compact(s).header, i) == i
    {
    }
  }

  // ----- append -----

  function Newest(q: seq<HistoryRecord>): (r: seq<HistoryRecord>)
    ensures |r| <= HISTORY_CAPACITY
  {
    if |q| <= HISTORY_CAPACITY then q else q[|q| - HISTORY_CAPACITY..]
  }

  function NextId(id: u32): u32 {
    if id < UINT32_MAX then id + 1 else id
  }

  function Appended(s: HistoryStore, record: HistoryRecord): (r: HistoryStore)
    requires Shaped(s)
  {
    var h := s.header;
    RawStore(h.(nextRecordId := NextId(h.nextRecordId),
                writeIndex := (h.writeIndex + 1) % HISTORY_CAPACITY,
                count := if h.count < HISTORY_CAPACITY then h.count + 1 else h.count),
             s.records[h.writeIndex := record.(id := h.nextRecordId)])
  }

  // Appending keeps the newest HISTORY_CAPACITY records in order.
  lemma AppendContents(s: HistoryStore, record: HistoryRecord)
    requires Shaped(s)
    ensures Shaped(Appended(s, record))
    ensures Contents(Appended(s, record))
         == Newest(Contents(s) + [record.(id := s.header.nextRecordId)])
  {
    var r := Appended(s, record);
    var q := Contents(s) + [record.(id := s.header.nextRecordId)];
    assert |Contents(r)| == |Newest(q)|;
    forall i | 0 <= i < r.header.count
      ensures Contents(r)[i] == Newest(q)[i]
    {
      if s.header.count < HISTORY_CAPACITY {
        assert i < s.header.count ==> RingSlot(r.header, i) == RingSlot(s.header, i);
      } else {
        assert i + 1 < HISTORY_CAPACITY ==> RingSlot(r.header, i) == RingSlot(s.header, i + 1);
      }
    }
  }

  ghost predicate Ascending(q: seq<HistoryRecord>) {
    forall i, j :: 0 <= i < j < |q| ==> q[i].id < q[j].id
  }

  // Ids in use are positive, ascending and below the next one.
  ghost predicate IdsFresh(s: HistoryStore)
    requires Shaped(s)
  {
    var q := Contents(s);
    && 0 < s.header.nextRecordId
    && Ascending(q)
    && forall i :: 0 <= i < |q| ==> 0 < q[i].id < s.header.nextRecordId
  }

  lemma AscendingExtends(q: seq<HistoryRecord>, record: HistoryRecord)
    requires 0 < record.id && Ascending(q) && forall i :: 0 <= i < |q| ==> 0 < q[i].id < record.id
    ensures var r := Newest(q + [record]);
            Ascending(r) && forall i :: 0 <= i < |r| ==> 0 < r[i].id <= record.id
  {
    var dropped := |q + [record]| - |Newest(q + [record])|;
    assert forall i :: 0 <= i < |Newest(q + [record])| ==> Newest(q + [record])[i] == (q + [record])[i + dropped];
  }

  // An append gives the record an id no kept record has, until ids run out.
  lemma AppendKeepsIdsFresh(s: HistoryStore, record: HistoryRecord)
    requires Shaped(s) && IdsFresh(s) && s.header.nextRecordId < UINT32_MAX
    ensures Shaped(Appended(s, record)) && IdsFresh(Appended(s, record))
    ensures forall r :: r in Contents(s) ==> r.id != s.header.nextRecordId
  {
    AppendContents(s, record);
    AscendingExtends(Contents(s), record.(id := s.header.nextRecordId));
  }

  // ----- lookup and removal -----

  // Position of the first record with the id, or |q|.
  function FirstWithId(q: seq<HistoryRecord>, id: u32): (k: nat)
    ensures k <= |q|
    ensures k < |q| ==> q[k].id == id
    ensures forall i :: 0 <= i < k ==> q[i].id != id
  {
    if q == [] || q[0].id == id then 0 else 1 + FirstWithId(q[1..], id)
  }

  function Without(q: seq<HistoryRecord>, k: nat): seq<HistoryRecord>
    requires k < |q|
  {
    q[..k] + q[k + 1..]
  }

  // The packed store without its k-th record.
  function Removed(s: HistoryStore, k: nat): (r: HistoryStore)
    requires Shaped(s) && k < s.header.count
    ensures Shaped(r)
  {
    var q := Contents(s);
    var count := s.header.count - 1;
    RawStore(s.header.(count := count, writeIndex := count),
             seq(HISTORY_CAPACITY, i requires 0 <= i < HISTORY_CAPACITY =>
               if i < count then q[if i < k then i else i + 1] else ZERO_RECORD))
  }

  lemma RemovedContents(s: HistoryStore, k: nat)
    requires Shaped(s) && k < s.header.count
    ensures Contents(Removed(s, k)) == Without(Contents(s), k)
  {
    WithoutKeepsOrder(Contents(s), k);
    var r := Removed(s, k);
    forall i | 0 <= i < r.header.count
      ensures Contents(r)[i] == Without(Contents(s), k)[i]
    {
      assert RingSlot(r.header, i) == i;
    }
  }

  lemma WithoutIsTheRest(q: seq<HistoryRecord>, k: nat)
    requires k < |q|
    ensures multiset(q) == multiset(Without(q, k)) + multiset{q[k]}
  {
    assert q == q[..k] + ([q[k]] + q[k + 1..]);
  }

  lemma WithoutKeepsOrder(q: seq<HistoryRecord>, k: nat)
    requires k < |q|
    ensures var r := Without(q, k);
            |r| == |q| - 1 && forall i :: 0 <= i < |r| ==> r[i] == if i < k then q[i] else q[i + 1]
  {
  }

  // With ascending ids the removed record is the only one with its id, and what
  // remains is the old listing without it, in order.
  lemma RemovalDropsOnlyTheMatch(q: seq<HistoryRecord>, id: u32)
    requires Ascending(q) && FirstWithId(q, id) < |q|
    ensures var r := Without(q, FirstWithId(q, id));
            && Ascending(r)
            && (forall i :: 0 <= i < |r| ==> r[i].id != id)
            && multiset(q) == multiset(r) + multiset{q[FirstWithId(q, id)]}
  {
    hide FirstWithId;
    var k := FirstWithId(q, id);
    WithoutIsTheRest(q, k);
    WithoutKeepsOrder(q, k);
    assert forall i :: k < i < |q| ==> q[i].id > q[k].id;
  }

  // ----- pages -----

  datatype SortDir = Asc | Desc

  function Pow2(n: nat): (p: nat)
    ensures p > 0
  {
    if n == 0 then 1 else 2 * Pow2(n - 1)
  }

  // The type filter: bit `kind` of types, or every type when no bit is set.
  predicate Listed(types: u8, record: HistoryRecord) {
    types == 0 || (record.kind <= 7 && (types / Pow2(record.kind)) % 2 == 1)
  }

  // The number whose bit k is bits[k].
  function Mask(bits: seq<bool>): (m: nat)
    ensures m < Pow2(|bits|)
    ensures m == 0 <==> forall k :: 0 <= k < |bits| ==> !bits[k]
  {
    if bits == [] then 0
    else
      assert bits == [bits[0]] + bits[1..];
      (if bits[0] then 1 else 0) + 2 * Mask(bits[1..])
  }

  lemma HalfThenQuotient(a: nat, p: nat)
    requires p > 0
    ensures a / (2 * p) == a / 2 / p
  {
    var q := a / 2 / p;
    DivBounds(a / 2, p);
    DivBounds(a, 2 * p);
    if a / (2 * p) < q {
      ScaledOrder(a / (2 * p) + 1, q, p);
    } else if a / (2 * p) > q {
      ScaledOrder(q + 1, a / (2 * p), p);
    }
  }

  lemma {:induction false} MaskBit(bits: seq<bool>, k: nat)
    requires k < |bits|
    ensures Mask(bits) / Pow2(k) % 2 == if bits[k] then 1 else 0
  {
    if k > 0 {
      MaskBit(bits[1..], k - 1);
      HalfThenQuotient(Mask(bits), Pow2(k - 1));
    }
  }

  // A filter of chosen types lists the records of just those types, and the
  // filter of none lists every record.
  lemma FilterListsItsTypes(bits: seq<bool>, record: HistoryRecord)
    requires |bits| == 8
    ensures Mask(bits) < 256
    ensures Listed(Mask(bits), record)
       <==> (forall k :: 0 <= k < 8 ==> !bits[k]) || (record.kind < 8 && bits[record.kind])
  {
    assert Pow2(8) == 256 by { assert Pow2(4) == 16; }
    if record.kind < 8 {
      MaskBit(bits, record.kind);
    }
  }

  // The record `step` places down a listing in the given direction.
  function Walk(q: seq<HistoryRecord>, dir: SortDir, step: nat): HistoryRecord
    requires step < |q|
  {
    if dir == Desc then q[|q| - 1 - step] else q[step]
  }

  // The first n steps of the walk, filtered.
  function Listing(q: seq<HistoryRecord>, dir: SortDir, types: u8, n: nat): (l: seq<HistoryRecord>)
    requires n <= |q|
    ensures |l| <= n
  {
    if n == 0 then []
    else
      var before := Listing(q, dir, types, n - 1);
      if Listed(types, Walk(q, dir, n - 1)) then before + [Walk(q, dir, n - 1)] else before
  }

  datatype HistoryPage = HistoryPage(total: nat, start: nat, hasMore: bool, records: seq<HistoryRecord>)

  function Window(l: seq<HistoryRecord>, offset: nat, limit: nat): seq<HistoryRecord> {
    if offset >= |l| then [] else if offset + limit >= |l| then l[offset..] else l[offset..offset + limit]
  }

  function PageOf(l: seq<HistoryRecord>, offset: nat, limit: nat): HistoryPage {
    HistoryPage(|l|, if offset < |l| then offset else |l|, offset + limit < |l|, Window(l, offset, limit))
  }

  // There is more exactly if the next page has a record.
  lemma MoreMeansNextPage(l: seq<HistoryRecord>, offset: nat, limit: nat)
    requires limit > 0
    ensures var p := PageOf(l, offset, limit);
            && (p.hasMore <==> PageOf(l, offset + limit, limit).records != [])
            && p.hasMore == (p.start + |p.records| < p.total) && p.start <= p.total == |l|
            && (offset <= |l| ==> p.start == offset && p.records == l[offset..offset + |p.records|])
            && |p.records| <= limit
  {
  }

  // Pages taken at offsets 0, limit, 2 * limit, ... while hasMore.
  function Pages(l: seq<HistoryRecord>, offset: nat, limit: nat): seq<HistoryRecord>
    requires limit > 0
    decreases |l| - offset
  {
    var page := PageOf(l, offset, limit);
    if page.hasMore then page.records + Pages(l, offset + limit, limit) else page.records
  }

  lemma {:induction false} PagesFrom(l: seq<HistoryRecord>, offset: nat, limit: nat)
    requires limit > 0 && offset <= |l|
    ensures Pages(l, offset, limit) == l[offset..]
    decreases |l| - offset
  {
    if offset + limit < |l| {
      PagesFrom(l, offset + limit, limit);
      assert l[offset..] == l[offset..offset + limit] + l[offset + limit..];
    }
  }

  // Reading page after page gives the whole filtered listing, in either direction.
  lemma PagesConcatenate(q: seq<HistoryRecord>, dir: SortDir, types: u8, limit: nat)
    requires limit > 0
    ensures var l := Listing(q, dir, types, |q|);
            Pages(l, 0, limit) == l
  {
    PagesFrom(Listing(q, dir, types, |q|), 0, limit);
  }

  // The records of q the filter admits, in order.
  function Filtered(q: seq<HistoryRecord>, types: u8): seq<HistoryRecord> {
    if q == [] then []
    else Filtered(q[..|q| - 1], types) + (if Listed(types, q[|q| - 1]) then [q[|q| - 1]] else [])
  }

  function Reversed(q: seq<HistoryRecord>): (r: seq<HistoryRecord>)
    ensures |r| == |q|
    ensures forall i :: 0 <= i < |q| ==> r[i] == q[|q| - 1 - i]
  {
    if q == [] then [] else [q[|q| - 1]] + Reversed(q[..|q| - 1])
  }

  lemma {:induction false} FilteredPrepend(x: HistoryRecord, q: seq<HistoryRecord>, types: u8)
    ensures Filtered([x] + q, types) == (if Listed(types, x) then [x] else []) + Filtered(q, types)
  {
    if q == [] {
      assert [x] + q == [x];
      assert Filtered([x][..0], types) == [];
    } else {
      assert ([x] + q)[..|q|] == [x] + q[..|q| - 1];
      FilteredPrepend(x, q[..|q| - 1], types);
    }
  }

  // An ascending walk lists the admitted records oldest first, a descending
  // one lists the same records newest first.
  lemma {:induction false} AscendingListing(q: seq<HistoryRecord>, types: u8, n: nat)
    requires n <= |q|
    ensures Listing(q, Asc, types, n) == Filtered(q[..n], types)
  {
    hide Listed;
    if n > 0 {
      AscendingListing(q, types, n - 1);
      assert q[..n][..n - 1] == q[..n - 1];
    }
  }

  lemma {:induction false} DescendingListing(q: seq<HistoryRecord>, types: u8, n: nat)
    requires n <= |q|
    ensures Listing(q, Desc, types, n) == Reversed(Filtered(q[|q| - n..], types))
  {
    hide Listed, Filtered, Reversed;
    if n == 0 {
      NothingListed(types);
    } else {
      DescendingListing(q, types, n - 1);
      var x := q[|q| - n];
      assert q[|q| - n..] == [x] + q[|q| - (n - 1)..];
      var rest := Filtered(q[|q| - (n - 1)..], types);
      FilteredPrepend(x, q[|q| - (n - 1)..], types);
      ReversedPrepend(x, rest);
      assert [] + rest == rest;
    }
  }

  lemma ReversedPrepend(x: HistoryRecord, r: seq<HistoryRecord>)
    ensures Reversed([x] + r) == Reversed(r) + [x]
  {
  }

  lemma NothingListed(types: u8)
    ensures Reversed(Filtered([], types)) == []
  {
  }

  lemma DirectionsMirror(q: seq<HistoryRecord>, types: u8)
    ensures Listing(q, Asc, types, |q|) == Filtered(q, types)
    ensures Listing(q, Desc, types, |q|) == Reversed(Filtered(q, types))
  {
    hide Listing, Filtered, Reversed;
    AscendingListing(q, types, |q|);
    DescendingListing(q, types, |q|);
    assert q[..|q|] == q && q[0..] == q;
  }
}
