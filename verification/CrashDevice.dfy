// Crash promotion as it erases and copies in place, with the flash operation at
// which power fails as a parameter.
module CrashDevice {
  import opened Bytes
  import opened CrashArchive

  // Programming the next chunk over erased cells copies it.
  lemma NextChunk(before: Slot, image: seq<u8>, entry: Entry, n: nat)
    requires |before.data| == DATA_BYTES && |image| <= DATA_BYTES
    requires SLOT_SECTORS <= n < SLOT_SECTORS + Chunks(|image|)
    ensures var from := (n - SLOT_SECTORS) * CHUNK_BYTES;
            var to := from + Min(CHUNK_BYTES, |image| - from);
            && from < to <= |image|
            && Rewritten(before, image, entry, n + 1)
               == Rewritten(before, image, entry, n).(
                    data := ProgramCells(Rewritten(before, image, entry, n).data, image, from, to))
  {
    var from := (n - SLOT_SECTORS) * CHUNK_BYTES;
    var to := from + Min(CHUNK_BYTES, |image| - from);
    assert from < |image|;
    var r := Rewritten(before, image, entry, n);
    assert r.meta == Blank && Rewritten(before, image, entry, n + 1).meta == Blank;
    ProgramErasedCells(r.data, image, from, to);
    assert ProgramCells(r.data, image, from, to) == Rewritten(before, image, entry, n + 1).data;
  }

  lemma NextSector(before: Slot, image: seq<u8>, entry: Entry, n: nat)
    requires |before.data| == DATA_BYTES && |image| <= DATA_BYTES && n < SLOT_SECTORS
    ensures var r := Rewritten(before, image, entry, n);
            Rewritten(before, image, entry, n + 1)
              == if n < DATA_SECTORS
                 then r.(data := EraseCells(r.data, n * SECTOR_BYTES, (n + 1) * SECTOR_BYTES))
                 else r.(meta := Blank)
  {
    var r := Rewritten(before, image, entry, n);
    var r' := Rewritten(before, image, entry, n + 1);
    if n < DATA_SECTORS {
      assert r'.data == EraseCells(r.data, n * SECTOR_BYTES, (n + 1) * SECTOR_BYTES);
    } else {
      assert r'.data == r.data;
    }
  }

  class HistorySlot {
    const data: array<u8>
    var meta: Meta

    ghost predicate Sound() {
      data.Length == DATA_BYTES
    }

    ghost function View(): Slot
      reads this, data
    {
      Slot(data[..], meta)
    }

    constructor ()
      ensures Sound() && fresh(data) && meta == Blank
    {
      var cells: array<u8> := new u8[DATA_BYTES](i => ERASED);
      data := cells;
      meta := Blank;
    }

    method EraseSector(n: nat)
      requires Sound() && n < SLOT_SECTORS
      modifies this`meta, data
      ensures View() == if n < DATA_SECTORS
                        then old(View()).(data := EraseCells(old(data[..]), n * SECTOR_BYTES, (n + 1) * SECTOR_BYTES))
                        else old(View()).(meta := Blank)
    {
      if n < DATA_SECTORS {
        forall i | n * SECTOR_BYTES <= i < (n + 1) * SECTOR_BYTES {
          data[i] := ERASED;
        }
        assert data[..] == EraseCells(old(data[..]), n * SECTOR_BYTES, (n + 1) * SECTOR_BYTES);
      } else {
        meta := Blank;
      }
    }

    method ProgramChunk(image: seq<u8>, from: nat, to: nat)
      requires Sound() && from <= to <= |image| <= DATA_BYTES
      modifies data
      ensures data[..] == ProgramCells(old(data[..]), image, from, to)
    {
      forall i | from <= i < to {
        data[i] := ProgramCell(data[i], image[i]);
      }
      assert data[..] == ProgramCells(old(data[..]), image, from, to);
    }

    // Erases the slot sector by sector, its last sector last; power may fail
    // after `budget` operations.
    method EraseAll(budget: nat, ghost image: seq<u8>, ghost entry: Entry) returns (done: nat)
      requires Sound() && |image| <= DATA_BYTES
      modifies this`meta, data
      ensures done == Min(budget, SLOT_SECTORS)
      ensures View() == Rewritten(old(View()), image, entry, done)
    {
      hide Rewritten;
      ghost var before := View();
      done := 0;
      RewrittenStart(before, image, entry);
      while done < SLOT_SECTORS && done < budget
        invariant done <= SLOT_SECTORS && done <= budget
        invariant View() == Rewritten(before, image, entry, done)
      {
        NextSector(before, image, entry, done);
        EraseSector(done);
        done := done + 1;
      }
    }

    // Copies the dump chunk by chunk over the erased slot.
    method CopyDump(budget: nat, image: seq<u8>, ghost before: Slot, ghost entry: Entry) returns (done: nat)
      requires Sound() && |image| <= DATA_BYTES && |before.data| == DATA_BYTES
      requires View() == Rewritten(before, image, entry, SLOT_SECTORS)
      modifies data
      ensures done == Min(budget, Chunks(|image|))
      ensures View() == Rewritten(before, image, entry, SLOT_SECTORS + done)
    {
      hide Rewritten, Chunks;
      done := 0;
      while done < Chunks(|image|) && done < budget
        invariant done <= Chunks(|image|) && done <= budget
        invariant View() == Rewritten(before, image, entry, SLOT_SECTORS + done)
      {
        NextChunk(before, image, entry, SLOT_SECTORS + done);
        var from := done * CHUNK_BYTES;
        ProgramChunk(image, from, from + Min(CHUNK_BYTES, |image| - from));
        done := done + 1;
      }
    }

    // The whole rewrite of a slot, cut short when the budget runs out.
    method Rewrite(budget: nat, image: seq<u8>, entry: Entry) returns (done: nat)
      requires Sound() && |image| <= DATA_BYTES
      modifies this`meta, data
      ensures done == Min(budget, SLOT_SECTORS + Chunks(|image|) + 1)
      ensures View() == Rewritten(old(View()), image, entry, done)
    {
      hide Rewritten, Chunks;
      ghost var before := View();
      done := EraseAll(budget, image, entry);
      if done == SLOT_SECTORS {
        var copied := CopyDump(budget - done, image, before, entry);
        done := done + copied;
        if copied == Chunks(|image|) && done < budget {
          SealingIsLast(before, image, entry);
          meta := Sealed(entry);
          done := done + 1;
        }
      }
    }
  }

  lemma RewrittenStart(before: Slot, image: seq<u8>, entry: Entry)
    requires |before.data| == DATA_BYTES && |image| <= DATA_BYTES
    ensures Rewritten(before, image, entry, 0) == before
  {
    assert EraseCells(before.data, 0, 0) == before.data;
  }

  lemma SealingIsLast(before: Slot, image: seq<u8>, entry: Entry)
    requires |before.data| == DATA_BYTES && |image| <= DATA_BYTES
    ensures var n := SLOT_SECTORS + Chunks(|image|);
            Rewritten(before, image, entry, n + 1) == Rewritten(before, image, entry, n).(meta := Sealed(entry))
  {
    var n := SLOT_SECTORS + Chunks(|image|);
    assert Chunks(|image|) * CHUNK_BYTES >= |image|;
    assert Rewritten(before, image, entry, n + 1).data == Rewritten(before, image, entry, n).data;
  }

  class CrashArchiveDevice {
    const first: HistorySlot
    const second: HistorySlot
    var capture: Capture
    var panic: u32

    ghost predicate Sound() {
      first.Sound() && second.Sound() && first != second && first.data != second.data
    }

    ghost function View(): (w: World)
      requires Sound()
      reads this, first, first.data, second, second.data
      ensures Shaped(w)
    {
      World([first.View(), second.View()], capture, panic)
    }

    constructor ()
      ensures Sound() && fresh(first) && fresh(second) && fresh(first.data) && fresh(second.data)
    {
      first := new HistorySlot();
      second := new HistorySlot();
      capture, panic := NoDump, 0;
    }

    function Snapshot(): World
      requires Sound()
      reads this, first, first.data, second, second.data
    {
      World([Slot(first.data[..], first.meta), Slot(second.data[..], second.meta)], capture, panic)
    }

    method RewriteSlot(budget: nat, slot: nat, image: seq<u8>, entry: Entry) returns (done: nat)
      requires Sound() && |image| <= DATA_BYTES && slot < 2
      modifies first, first.data, second, second.data
      ensures Sound() && done == Min(budget, SLOT_SECTORS + Chunks(|image|) + 1)
      ensures var before := old(View());
              View() == before.(slots := before.slots[slot := Rewritten(before.slots[slot], image, entry, done)])
    {
      hide Rewritten, Chunks;
      if slot == 0 {
        done := first.Rewrite(budget, image, entry);
      } else {
        done := second.Rewrite(budget, image, entry);
      }
    }

    // Promotion with power failing after `budget` flash operations. A run to
    // the end clears the panic record.
    method CrashArchivePromote(digest: Digest, currentBootId: u32, budget: nat)
      requires Sound()
      modifies this, first, first.data, second, second.data
      ensures Sound()
      ensures var w := old(View());
              var d := Decide(digest, w, currentBootId);
              var n := Min(budget, Operations(w, d));
              && View() == After(w, d, n).(panic := panic)
              && panic == if n > 0 && w.capture != capture then 0 else w.panic
    {
      hide Decide, Rewritten, Chunks;
      var d := Decide(digest, Snapshot(), currentBootId);
      match d
      case Nothing =>
      case DropCapture =>
        if budget > 0 {
          capture := NoDump;
          panic := 0;
        }
      case Archive(slot, entry) =>
        var image := capture.image;
        ghost var before := View();
        var done := RewriteSlot(budget, slot, image, entry);
        RewrittenStart(before.slots[slot], image, entry);
        assert done == 0 ==> before.slots[slot := before.slots[slot]] == before.slots;
        if done == SLOT_SECTORS + Chunks(|image|) + 1 && done < budget && ReadsBack(image) {
          ReadyToDrop(before.slots[slot], image, entry);
          capture := NoDump;
          panic := 0;
        }
    }
  }

  // Erasing the capture changes nothing in the slot.
  lemma ReadyToDrop(before: Slot, image: seq<u8>, entry: Entry)
    requires |before.data| == DATA_BYTES && |image| <= DATA_BYTES
    ensures var n := SLOT_SECTORS + Chunks(|image|) + 1;
            Rewritten(before, image, entry, n + 1) == Rewritten(before, image, entry, n)
  {
    var n := SLOT_SECTORS + Chunks(|image|) + 1;
    assert Chunks(|image|) * CHUNK_BYTES >= |image|;
    assert Rewritten(before, image, entry, n + 1).data == Rewritten(before, image, entry, n).data;
  }
}
