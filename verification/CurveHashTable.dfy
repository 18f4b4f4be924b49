// Linear probing over a table of 512 cells from which nothing is ever removed:
// the probe chains, and the table as a class.
module CurveHashTable {
  import opened Bytes
  import opened CurveHashes

  // The cell an id is looked for at its given probe; masking with 511 is the
  // remainder modulo the power of two.
  function Cell(id: u32, probe: nat): (c: nat)
    ensures c < CAPACITY
  {
    (id % CAPACITY + probe) % CAPACITY
  }

  // The probe at which an id reaches a cell.
  function ProbeTo(id: u32, cell: nat): (probe: nat)
    requires cell < CAPACITY
    ensures probe < CAPACITY
  {
    (cell + CAPACITY - id % CAPACITY) % CAPACITY
  }

  lemma ProbeReachesCell(id: u32, cell: nat)
    requires cell < CAPACITY
    ensures Cell(id, ProbeTo(id, cell)) == cell
  {
  }

  lemma CellIsReachedOnce(id: u32, probe: nat)
    requires probe < CAPACITY
    ensures ProbeTo(id, Cell(id, probe)) == probe
  {
  }

  // Every cell an id passes on the way to its own is in use.
  ghost predicate Chained(ids: seq<u32>)
    requires |ids| == CAPACITY
  {
    forall cell, probe ::
      0 <= cell < CAPACITY && ids[cell] != 0 && 0 <= probe < ProbeTo(ids[cell], cell) ==>
        ids[Cell(ids[cell], probe)] != 0
  }

  ghost predicate Once(ids: seq<u32>) {
    forall i, j :: 0 <= i < j < |ids| && ids[i] != 0 ==> ids[i] != ids[j]
  }

  // The map a table stands for.
  ghost predicate Holds(ids: seq<u32>, hashes: seq<u32>, entries: map<u32, u32>)
    requires |ids| == |hashes|
  {
    && 0 !in entries
    && (forall i :: 0 <= i < |ids| && ids[i] != 0 ==> ids[i] in entries && entries[ids[i]] == hashes[i])
    && (forall id :: id in entries ==> id in ids)
  }

  // A chain searched up to `probe` without meeting the id.
  ghost predicate Searched(ids: seq<u32>, id: u32, probe: nat)
    requires |ids| == CAPACITY && probe <= CAPACITY
  {
    forall p :: 0 <= p < probe ==> ids[Cell(id, p)] != 0 && ids[Cell(id, p)] != id
  }

  lemma EmptyCellMeansAbsent(ids: seq<u32>, id: u32, probe: nat)
    requires |ids| == CAPACITY && Chained(ids) && id != 0 && probe < CAPACITY && Searched(ids, id, probe)
    requires ids[Cell(id, probe)] == 0
    ensures id !in ids
  {
    hide Cell, ProbeTo;
    if id in ids {
      var cell :| 0 <= cell < CAPACITY && ids[cell] == id;
      ProbeReachesCell(id, cell);
    }
  }

  lemma SearchedThroughMeansFull(ids: seq<u32>, id: u32)
    requires |ids| == CAPACITY && id != 0 && Searched(ids, id, CAPACITY)
    ensures id !in ids && 0 !in ids
  {
    hide Cell, ProbeTo;
    forall cell | 0 <= cell < CAPACITY
      ensures ids[cell] != 0 && ids[cell] != id
    {
      ProbeReachesCell(id, cell);
      assert ids[Cell(id, ProbeTo(id, cell))] != id;
    }
  }

  lemma InsertKeepsChains(ids: seq<u32>, id: u32, probe: nat)
    requires |ids| == CAPACITY && Chained(ids) && Once(ids) && id != 0 && probe < CAPACITY && Searched(ids, id, probe)
    requires ids[Cell(id, probe)] == 0
    ensures var after := ids[Cell(id, probe) := id];
            Chained(after) && Once(after)
  {
    hide Cell, ProbeTo;
    EmptyCellMeansAbsent(ids, id, probe);
    CellIsReachedOnce(id, probe);
  }

  // ----- counting -----

  function Used(ids: seq<u32>): set<u32> {
    set i | 0 <= i < |ids| && ids[i] != 0 :: ids[i]
  }

  // Distinct ids fill a table exactly when no cell is empty.
  lemma {:induction false} FullExactly(ids: seq<u32>)
    requires Once(ids)
    ensures |Used(ids)| <= |ids| && (|Used(ids)| == |ids| <==> 0 !in ids)
  {
    if ids != [] {
      var before, last := ids[..|ids| - 1], ids[|ids| - 1];
      FullExactly(before);
      assert ids == before + [last];
      assert Used(ids) == if last == 0 then Used(before) else Used(before) + {last};
      if last != 0 {
        assert last !in Used(before);
      }
    }
  }

  lemma AdmitsExactly(ids: seq<u32>, hashes: seq<u32>, entries: map<u32, u32>)
    requires |ids| == |hashes| == CAPACITY && Once(ids) && Holds(ids, hashes, entries)
    ensures |entries| < CAPACITY <==> 0 in ids
  {
    FullExactly(ids);
    assert entries.Keys == Used(ids);
    assert |entries.Keys| == |entries|;
  }

  datatype Found = Absent | Present(hash: u32)

  class StatsCurveHashCache {
    const shotId: array<u32>
    const hash: array<u32>
    ghost var entries: map<u32, u32>

    ghost predicate Sound()
      reads this, shotId, hash
    {
      && shotId.Length == CAPACITY && hash.Length == CAPACITY && shotId != hash
      && Chained(shotId[..]) && Once(shotId[..]) && Holds(shotId[..], hash[..], entries)
    }

    constructor ()
      ensures Sound() && fresh(shotId) && fresh(hash) && entries == Stored([])
    {
      shotId := new u32[CAPACITY](i => 0);
      hash := new u32[CAPACITY](i => 0);
      entries := map[];
    }

    method Find(id: u32) returns (found: Found)
      requires Sound()
      ensures found == if id in entries then Present(entries[id]) else Absent
    {
      hide Cell, Chained;
      if id == 0 {
        return Absent;
      }
      for probe := 0 to CAPACITY
        invariant Searched(shotId[..], id, probe)
      {
        var index := Cell(id, probe);
        if shotId[index] == id {
          return Present(hash[index]);
        }
        if shotId[index] == 0 {
          EmptyCellMeansAbsent(shotId[..], id, probe);
          return Absent;
        }
      }
      SearchedThroughMeansFull(shotId[..], id);
      return Absent;
    }

    method Insert(id: u32, value: u32)
      requires Sound()
      modifies this, shotId, hash
      ensures Sound() && entries == Admitted(old(entries), id, value)
    {
      hide Cell, Chained, Once, Holds;
      if id == 0 {
        return;
      }
      for probe := 0 to CAPACITY
        invariant Sound() && entries == old(entries) && Searched(shotId[..], id, probe)
      {
        var index := Cell(id, probe);
        if shotId[index] == id || shotId[index] == 0 {
          Put(id, value, probe);
          return;
        }
      }
      SearchedThroughMeansFull(shotId[..], id);
      AdmitsExactly(shotId[..], hash[..], entries);
      NotHeld(shotId[..], hash[..], entries, id);
    }

    method Put(id: u32, value: u32, probe: nat)
      requires Sound() && id != 0 && probe < CAPACITY && Searched(shotId[..], id, probe)
      requires shotId[Cell(id, probe)] == id || shotId[Cell(id, probe)] == 0
      modifies this, shotId, hash
      ensures Sound() && entries == Admitted(old(entries), id, value)
    {
      hide Cell, Chained, Once, Holds;
      var index := Cell(id, probe);
      ghost var ids, hashes := shotId[..], hash[..];
      if ids[index] == 0 {
        EmptyCellMeansAbsent(ids, id, probe);
        NotHeld(ids, hashes, entries, id);
        AdmitsExactly(ids, hashes, entries);
        InsertKeepsChains(ids, id, probe);
      } else {
        assert ids[index := id] == ids;
        Held(ids, hashes, entries, index);
      }
      PutHolds(ids, hashes, entries, index, id, value);
      shotId[index] := id;
      hash[index] := value;
      entries := entries[id := value];
      assert shotId[..] == ids[index := id] && hash[..] == hashes[index := value];
    }
  }

  lemma NotHeld(ids: seq<u32>, hashes: seq<u32>, entries: map<u32, u32>, id: u32)
    requires |ids| == |hashes| && Holds(ids, hashes, entries) && id !in ids
    ensures id !in entries
  {
  }

  lemma Held(ids: seq<u32>, hashes: seq<u32>, entries: map<u32, u32>, cell: nat)
    requires |ids| == |hashes| && Holds(ids, hashes, entries) && cell < |ids| && ids[cell] != 0
    ensures ids[cell] in entries
  {
  }

  lemma PutHolds(ids: seq<u32>, hashes: seq<u32>, entries: map<u32, u32>, cell: nat, id: u32, value: u32)
    requires |ids| == |hashes| && Holds(ids, hashes, entries) && Once(ids) && cell < |ids| && id != 0
    requires ids[cell] == id || (ids[cell] == 0 && id !in ids)
    ensures Holds(ids[cell := id], hashes[cell := value], entries[id := value])
  {
    var ids', hashes', entries' := ids[cell := id], hashes[cell := value], entries[id := value];
    forall i | 0 <= i < |ids'| && ids'[i] != 0
      ensures ids'[i] in entries' && entries'[ids'[i]] == hashes'[i]
    {
    }
    forall other | other in entries'
      ensures other in ids'
    {
      if other == id {
        assert ids'[cell] == id;
      } else {
        var i :| 0 <= i < |ids| && ids[i] == other;
        assert ids'[i] == other;
      }
    }
  }
}
