// What the cache of curve hashes answers: a map that admits new ids only while
// it holds fewer entries than the table has cells.
module CurveHashes {
  import opened Bytes

  const CAPACITY: nat := 512

  datatype Insertion = Insertion(id: u32, value: u32)

  function Admitted(entries: map<u32, u32>, id: u32, value: u32): map<u32, u32> {
    if id != 0 && (id in entries || |entries| < CAPACITY) then entries[id := value] else entries
  }

  // The map after a run of insertions into an empty cache.
  function Stored(run: seq<Insertion>): map<u32, u32> {
    if run == [] then map[]
    else Admitted(Stored(run[..|run| - 1]), run[|run| - 1].id, run[|run| - 1].value)
  }

  function IdsOf(run: seq<Insertion>): set<u32> {
    set k | 0 <= k < |run| && run[k].id != 0 :: run[k].id
  }

  // The value of the latest insertion of an id.
  function Latest(run: seq<Insertion>, id: u32): (value: u32)
    requires exists k :: 0 <= k < |run| && run[k].id == id
    ensures Insertion(id, value) in run
  {
    if run[|run| - 1].id == id then run[|run| - 1].value else Latest(run[..|run| - 1], id)
  }

  // Some insertion of the id came while fewer distinct ids than cells had come.
  ghost predicate CameInTime(run: seq<Insertion>, id: u32) {
    exists k :: 0 <= k < |run| && run[k].id == id && |IdsOf(run[..k])| < CAPACITY
  }

  lemma IdsOfLonger(run: seq<Insertion>, next: Insertion)
    ensures IdsOf(run + [next]) == if next.id == 0 then IdsOf(run) else IdsOf(run) + {next.id}
  {
    var longer := run + [next];
    forall id | id in IdsOf(run)
      ensures id in IdsOf(longer)
    {
      var k :| 0 <= k < |run| && run[k].id == id;
      assert longer[k].id == id;
    }
    assert longer[|run|] == next;
  }

  // While fewer than the capacity have come, everything that came is stored;
  // afterwards the stored ids stay as they are.
  lemma {:induction false} StoredIds(run: seq<Insertion>)
    ensures Stored(run).Keys <= IdsOf(run)
    ensures |IdsOf(run)| < CAPACITY ==> Stored(run).Keys == IdsOf(run)
    ensures |IdsOf(run)| >= CAPACITY ==> |Stored(run)| == CAPACITY
  {
    hide IdsOf;
    if run == [] {
      EmptyRun();
    } else {
      var before, next := run[..|run| - 1], run[|run| - 1];
      StoredIds(before);
      assert run == before + [next];
      IdsOfLonger(before, next);
      assert |Stored(before).Keys| == |Stored(before)| && |Stored(run).Keys| == |Stored(run)|;
      AdmittedKeys(Stored(before), next.id, next.value);
      if next.id in IdsOf(before) {
        assert IdsOf(before) + {next.id} == IdsOf(before);
      }
    }
  }

  lemma AdmittedKeys(entries: map<u32, u32>, id: u32, value: u32)
    ensures var after := Admitted(entries, id, value);
            if id == 0 || id in entries || |entries| >= CAPACITY then after.Keys == entries.Keys
            else after.Keys == entries.Keys + {id} && |after.Keys| == |entries.Keys| + 1
  {
    var after := Admitted(entries, id, value);
    assert |entries.Keys| == |entries|;
    if id != 0 && (id in entries || |entries| < CAPACITY) {
      assert after.Keys == entries.Keys + {id};
    }
  }

  lemma EmptyRun()
    ensures IdsOf([]) == {}
  {
  }

  // After any run, an id is answered exactly if one of its insertions came in
  // time, and then with the value of its latest insertion.
  lemma {:induction false} StoredExactly(run: seq<Insertion>, id: u32)
    ensures id in Stored(run) <==> id != 0 && CameInTime(run, id)
    ensures id in Stored(run) ==> Insertion(id, Stored(run)[id]) in run && Stored(run)[id] == Latest(run, id)
  {
    hide IdsOf;
    if run != [] {
      var before, next := run[..|run| - 1], run[|run| - 1];
      StoredExactly(before, id);
      StoredIds(before);
      CameEarlier(before, next, id);
      assert run == before + [next];
      assert |Stored(before).Keys| == |Stored(before)|;
      if next.id != id && id in Stored(run) {
        assert Insertion(id, Stored(run)[id]) in before;
      }
    }
  }

  lemma CameEarlier(before: seq<Insertion>, next: Insertion, id: u32)
    ensures CameInTime(before + [next], id)
       <==> CameInTime(before, id) || (next.id == id && |IdsOf(before)| < CAPACITY)
  {
    hide IdsOf;
    var run := before + [next];
    assert run[..|before|] == before;
    forall k | 0 <= k < |before|
      ensures run[..k] == before[..k] && run[k] == before[k]
    {
    }
    if CameInTime(before, id) {
      var k :| 0 <= k < |before| && before[k].id == id && |IdsOf(before[..k])| < CAPACITY;
      assert run[k].id == id;
    }
  }
}
