// Promotion of a crash dump from the capture area into one of two archive
// slots, one flash operation at a time, with power cuts and reruns.
module CrashArchive {
  import opened Bytes

  const SECTOR_BYTES: nat := 4096
  const SLOT_SECTORS: nat := 176
  const DATA_SECTORS: nat := 175
  const DATA_BYTES: nat := 0xAF000
  const CHUNK_BYTES: nat := 1024
  const MIN_DUMP_BYTES: nat := 64

  datatype Entry = Entry(sequence: u32, bootId: u32, dumpBytes: nat, sha: nat)

  // The last sector of a slot: erased, or holding an entry; an entry sealed
  // with a wrong magic, version or checksum counts as unreadable.
  datatype Meta = Blank | Unreadable | Sealed(entry: Entry)

  datatype Slot = Slot(data: seq<u8>, meta: Meta)

  datatype Capture = NoDump | Invalid | Dump(image: seq<u8>)

  // `panic` is the boot of the retained panic record, 0 when there is none.
  datatype World = World(slots: seq<Slot>, capture: Capture, panic: u32)

  type Digest = seq<u8> -> nat

  ghost predicate Injective(digest: Digest) {
    forall a, b :: digest(a) == digest(b) ==> a == b
  }

  ghost predicate Shaped(w: World) {
    |w.slots| == 2 && |w.slots[0].data| == DATA_BYTES == |w.slots[1].data|
  }

  predicate ValidSlot(digest: Digest, s: Slot) {
    && s.meta.Sealed? && MIN_DUMP_BYTES <= s.meta.entry.dumpBytes <= |s.data|
    && digest(s.data[..s.meta.entry.dumpBytes]) == s.meta.entry.sha
  }

  // The dump a valid slot holds.
  function Held(s: Slot): seq<u8>
    requires s.meta.Sealed? && s.meta.entry.dumpBytes <= |s.data|
  {
    s.data[..s.meta.entry.dumpBytes]
  }

  // ----- the scan: valid slots, newest first -----

  function ScanHistory(digest: Digest, w: World): (order: seq<nat>)
    requires Shaped(w)
    ensures |order| <= 2
    ensures forall i :: 0 <= i < |order| ==> order[i] < 2 && ValidSlot(digest, w.slots[order[i]])
    ensures forall k :: 0 <= k < 2 ==> (ValidSlot(digest, w.slots[k]) <==> k in order)
    ensures |order| == 2 ==> order[0] != order[1]
  {
    var first, second := ValidSlot(digest, w.slots[0]), ValidSlot(digest, w.slots[1]);
    if first && second then
      if w.slots[0].meta.entry.sequence < w.slots[1].meta.entry.sequence then [1, 0] else [0, 1]
    else if first then [0]
    else if second then [1]
    else []
  }

  // The slot to be rewritten is never the newest one.
  function TargetSlot(order: seq<nat>): nat
    requires |order| <= 2
  {
    if |order| == 2 then order[1] else if |order| == 1 then (if order[0] == 0 then 1 else 0) else 0
  }

  // ----- what promotion decides to do -----

  datatype Decision = Nothing | DropCapture | Archive(slot: nat, entry: Entry)

  function CrashBoot(w: World, currentBootId: u32): u32 {
    if w.panic != 0 then w.panic else if currentBootId > 1 then currentBootId - 1 else 0
  }

  predicate SameDump(digest: Digest, e: Entry, image: seq<u8>) {
    e.dumpBytes == |image| && e.sha == digest(image)
  }

  // The entries are compared in scan order; the first that settles it decides.
  function Compare(digest: Digest, w: World, order: seq<nat>, image: seq<u8>, crash: u32): Decision
    requires Shaped(w) && |order| <= 2
    requires forall i :: 0 <= i < |order| ==> order[i] < 2 && ValidSlot(digest, w.slots[order[i]])
    decreases |order|
  {
    if order == [] then Archive(0, Entry(0, 0, 0, 0))
    else
      assert ValidSlot(digest, w.slots[order[0]]);
      var e := w.slots[order[0]].meta.entry;
      if SameDump(digest, e, image) && w.panic == 0 && e.bootId != crash then Nothing
      else if SameDump(digest, e, image) && e.bootId == crash then DropCapture
      else Compare(digest, w, order[1..], image, crash)
  }

  function Decide(digest: Digest, w: World, currentBootId: u32): (d: Decision)
    requires Shaped(w)
    ensures d != Nothing ==> w.capture.Dump? && |w.capture.image| <= DATA_BYTES
    ensures d.Archive? ==> d.slot < 2
  {
    var order := ScanHistory(digest, w);
    var crash := CrashBoot(w, currentBootId);
    if !w.capture.Dump? || |w.capture.image| > DATA_BYTES || crash == 0 then Nothing
    else
      var image := w.capture.image;
      var verdict := Compare(digest, w, order, image, crash);
      if !verdict.Archive? then verdict
      else Archive(TargetSlot(order),
                   Entry(if order == [] then 1 else Successor(w.slots[order[0]].meta.entry.sequence),
                         crash, |image|, digest(image)))
  }

  // ----- its flash operations -----

  function Chunks(bytes: nat): nat {
    (bytes + CHUNK_BYTES - 1) / CHUNK_BYTES
  }

  function Min(a: nat, b: nat): nat {
    if a < b then a else b
  }

  // The entry reads back as valid: a dump too short to be one never does, and
  // then the capture area is left alone.
  predicate ReadsBack(image: seq<u8>) {
    |image| >= MIN_DUMP_BYTES
  }

  // Operations of a decision: the slot's sectors, last one last, the chunks of
  // the dump, the entry, and the capture's first sector once the entry reads back.
  function Operations(w: World, d: Decision): nat
    requires d != Nothing ==> w.capture.Dump?
  {
    match d
    case Nothing => 0
    case DropCapture => 1
    case Archive(_, _) => SLOT_SECTORS + Chunks(|w.capture.image|) + if ReadsBack(w.capture.image) then 2 else 1
  }

  // The target slot after n operations.
  function Rewritten(before: Slot, image: seq<u8>, entry: Entry, n: nat): (s: Slot)
    requires |before.data| == DATA_BYTES && |image| <= DATA_BYTES
    ensures |s.data| == DATA_BYTES
  {
    if n < SLOT_SECTORS then
      Slot(EraseCells(before.data, 0, n * SECTOR_BYTES), before.meta)
    else
      var copied := Min((n - SLOT_SECTORS) * CHUNK_BYTES, |image|);
      Slot(seq(DATA_BYTES, i requires 0 <= i < DATA_BYTES => if i < copied then image[i] else ERASED),
           if n > SLOT_SECTORS + Chunks(|image|) then Sealed(entry) else Blank)
  }

  // The world after the first n operations of a decision.
  function After(w: World, d: Decision, n: nat): (r: World)
    requires Shaped(w) && (d != Nothing ==> w.capture.Dump? && |w.capture.image| <= DATA_BYTES)
    requires (d.Archive? ==> d.slot < 2) && n <= Operations(w, d)
    ensures Shaped(r)
  {
    if n == 0 then w
    else
      var capture := if d != Nothing && n == Operations(w, d) && (d.DropCapture? || ReadsBack(w.capture.image))
                     then NoDump else w.capture;
      match d
      case Nothing => w
      case DropCapture => w.(capture := capture)
      case Archive(slot, entry) =>
        World(w.slots[slot := Rewritten(w.slots[slot], w.capture.image, entry, n)], capture, w.panic)
  }

  // ----- the order of the operations -----

  lemma ChunksCover(bytes: nat)
    requires bytes > 0
    ensures 1024 * (Chunks(bytes) - 1) < bytes <= 1024 * Chunks(bytes)
  {
  }

  lemma CopiedBy(before: Slot, image: seq<u8>, entry: Entry, n: nat)
    requires |before.data| == DATA_BYTES && 0 < |image| <= DATA_BYTES && n >= SLOT_SECTORS + Chunks(|image|)
    ensures var r := Rewritten(before, image, entry, n);
            && r.data[..|image|] == image
            && r.meta == if n == SLOT_SECTORS + Chunks(|image|) then Blank else Sealed(entry)
  {
    ChunksCover(|image|);
  }

  // The whole dump is in the slot before its entry is sealed, the entry is sealed
  // before the capture is erased, and each takes one operation: the last two of a
  // dump that reads back, the last of one that does not.
  lemma SealThenErase(w: World, d: Decision)
    requires Shaped(w) && d.Archive? && d.slot < 2 && w.capture.Dump? && 0 < |w.capture.image| <= DATA_BYTES
    ensures var image := w.capture.image; var n := Operations(w, d); var sealed := if |image| >= 64 then n - 1 else n;
            && sealed > 176
            && (var r := After(w, d, sealed - 1);
                r.slots[d.slot].data[..|image|] == image && r.slots[d.slot].meta == Blank && r.capture == w.capture)
            && (var r := After(w, d, sealed);
                r.slots[d.slot].data[..|image|] == image && r.slots[d.slot].meta == Sealed(d.entry)
                && r.capture == w.capture)
            && (|image| >= 64 ==>
                  After(w, d, n) == World(After(w, d, sealed).slots, NoDump, w.panic))
  {
    hide Rewritten, Chunks;
    var image := w.capture.image;
    ChunksCover(|image|);
    CopiedBy(w.slots[d.slot], image, d.entry, SLOT_SECTORS + Chunks(|image|));
    CopiedBy(w.slots[d.slot], image, d.entry, SLOT_SECTORS + Chunks(|image|) + 1);
    if |image| >= 64 {
      SealedStays(w.slots[d.slot], image, d.entry, SLOT_SECTORS + Chunks(|image|) + 1);
    }
  }

  lemma SealedStays(before: Slot, image: seq<u8>, entry: Entry, n: nat)
    requires |before.data| == DATA_BYTES && 0 < |image| <= DATA_BYTES && n > SLOT_SECTORS + Chunks(|image|)
    ensures Rewritten(before, image, entry, n + 1) == Rewritten(before, image, entry, n)
  {
    ChunksCover(|image|);
  }

  // Dropping a known dump is one operation.
  lemma DropIsOneErase(w: World)
    requires Shaped(w) && w.capture.Dump? && |w.capture.image| <= DATA_BYTES
    ensures Operations(w, DropCapture) == 1 && After(w, DropCapture, 1) == w.(capture := NoDump)
  {
  }

  // ----- the dump is never lost -----

  ghost predicate Holds(digest: Digest, s: Slot, image: seq<u8>) {
    ValidSlot(digest, s) && Held(s) == image
  }

  ghost predicate Archived(digest: Digest, w: World, image: seq<u8>)
    requires Shaped(w)
  {
    Holds(digest, w.slots[0], image) || Holds(digest, w.slots[1], image)
  }

  // A completely copied slot holds the dump under a valid entry.
  lemma SealedSlotIsValid(digest: Digest, before: Slot, image: seq<u8>, entry: Entry, n: nat)
    requires |before.data| == DATA_BYTES && MIN_DUMP_BYTES <= |image| <= DATA_BYTES
    requires n > SLOT_SECTORS + Chunks(|image|) && entry.dumpBytes == |image| && entry.sha == digest(image)
    ensures Holds(digest, Rewritten(before, image, entry, n), image)
  {
    var s := Rewritten(before, image, entry, n);
    assert Chunks(|image|) * CHUNK_BYTES >= |image|;
    assert s.data[..|image|] == image;
  }

  // Dropping the capture is decided only for a dump some valid entry holds.
  lemma {:induction false} DropMeansHeld(digest: Digest, w: World, order: seq<nat>, image: seq<u8>, crash: u32)
    requires Injective(digest) && Shaped(w) && |order| <= 2
    requires forall i :: 0 <= i < |order| ==> order[i] < 2 && ValidSlot(digest, w.slots[order[i]])
    requires Compare(digest, w, order, image, crash) == DropCapture
    ensures Archived(digest, w, image)
    decreases |order|
  {
    hide Injective;
    var s := w.slots[order[0]];
    if SameDump(digest, s.meta.entry, image) && s.meta.entry.bootId == crash {
      SameDigest(digest, Held(s), image);
    } else {
      DropMeansHeld(digest, w, order[1..], image, crash);
    }
  }

  lemma SameDigest(digest: Digest, a: seq<u8>, b: seq<u8>)
    requires Injective(digest) && digest(a) == digest(b)
    ensures a == b
  {
  }

  // Wherever power is cut, the dump is still whole in the capture area or is
  // held by a valid archive entry.
  lemma DumpNeverLost(digest: Digest, w: World, currentBootId: u32, n: nat)
    requires Injective(digest) && Shaped(w) && w.capture.Dump?
    requires n <= Operations(w, Decide(digest, w, currentBootId))
    ensures var w' := After(w, Decide(digest, w, currentBootId), n);
            w'.capture == w.capture || Archived(digest, w', w.capture.image)
  {
    hide ScanHistory, Compare, Rewritten, Injective, Holds;
    var d := Decide(digest, w, currentBootId);
    var image := w.capture.image;
    if n > 0 && n == Operations(w, d) && (d == DropCapture || ReadsBack(image)) {
      if d == DropCapture {
        DropMeansHeld(digest, w, ScanHistory(digest, w), image, CrashBoot(w, currentBootId));
        StillArchived(digest, w, After(w, d, n), image);
      } else {
        SealedSlotIsValid(digest, w.slots[d.slot], image, d.entry, n);
        assert After(w, d, n).slots[d.slot] == Rewritten(w.slots[d.slot], image, d.entry, n);
      }
    }
  }

  lemma StillArchived(digest: Digest, w: World, w': World, image: seq<u8>)
    requires Shaped(w) && Shaped(w') && w'.slots == w.slots && Archived(digest, w, image)
    ensures Archived(digest, w', image)
  {
  }

  // ----- the newest entry is never touched -----

  // The slot is valid, and the other one is not or has a lower sequence.
  ghost predicate Newest(digest: Digest, w: World, k: nat)
    requires Shaped(w)
  {
    && k < 2 && ValidSlot(digest, w.slots[k])
    && (ValidSlot(digest, w.slots[1 - k]) ==> w.slots[1 - k].meta.entry.sequence < w.slots[k].meta.entry.sequence)
  }

  // Promotion rewrites the slot beside the newest entry and counts on from it.
  lemma ArchivesBesideTheNewest(digest: Digest, w: World, currentBootId: u32, k: nat)
    requires Shaped(w) && Newest(digest, w, k)
    ensures var d := Decide(digest, w, currentBootId);
            d.Archive? ==> d.slot == 1 - k && d.entry.sequence == Successor(w.slots[k].meta.entry.sequence)
  {
    hide Compare, ValidSlot;
  }

  // At every cut the slot with the highest sequence is as it was. Of two equal
  // sequences, which no run of promotions leaves, the scan's first one stays.
  lemma NewestEntryStays(digest: Digest, w: World, currentBootId: u32, n: nat)
    requires Shaped(w) && n <= Operations(w, Decide(digest, w, currentBootId))
    ensures var w' := After(w, Decide(digest, w, currentBootId), n);
            && (forall k :: 0 <= k < 2 && Newest(digest, w, k) ==> w'.slots[k] == w.slots[k])
            && (var order := ScanHistory(digest, w); order != [] ==> w'.slots[order[0]] == w.slots[order[0]])
  {
    hide Rewritten, Compare, ValidSlot, Newest;
    forall k | 0 <= k < 2 && Newest(digest, w, k)
      ensures After(w, Decide(digest, w, currentBootId), n).slots[k] == w.slots[k]
    {
      ArchivesBesideTheNewest(digest, w, currentBootId, k);
    }
  }

  // ----- the same dump is not archived twice -----

  // With the dump already archived, promotion archives it again exactly when a
  // panic record names a boot no entry of that dump has.
  lemma {:induction false} CompareExactly(digest: Digest, w: World, order: seq<nat>, image: seq<u8>, crash: u32)
    requires Shaped(w) && |order| <= 2
    requires forall i :: 0 <= i < |order| ==> order[i] < 2 && ValidSlot(digest, w.slots[order[i]])
    ensures Compare(digest, w, order, image, crash).Archive? <==>
      forall i :: 0 <= i < |order| ==>
        !SameDump(digest, w.slots[order[i]].meta.entry, image)
        || (w.panic != 0 && w.slots[order[i]].meta.entry.bootId != crash)
    decreases |order|
  {
    hide ValidSlot, SameDump;
    if order != [] {
      CompareExactly(digest, w, order[1..], image, crash);
      assert order == [order[0]] + order[1..];
    }
  }

  ghost predicate EntryOf(digest: Digest, s: Slot, image: seq<u8>, bootId: u32) {
    ValidSlot(digest, s) && SameDump(digest, s.meta.entry, image) && s.meta.entry.bootId == bootId
  }

  lemma ArchivesAgainExactly(digest: Digest, w: World, currentBootId: u32)
    requires Injective(digest) && Shaped(w) && w.capture.Dump? && |w.capture.image| <= DATA_BYTES
    requires Archived(digest, w, w.capture.image)
    ensures Decide(digest, w, currentBootId).Archive? <==>
      w.panic != 0 && forall k :: 0 <= k < 2 ==> !EntryOf(digest, w.slots[k], w.capture.image, w.panic)
  {
    hide ScanHistory, Compare, ValidSlot, SameDump, Injective, Holds;
    var order := ScanHistory(digest, w);
    var image := w.capture.image;
    var crash := CrashBoot(w, currentBootId);
    CompareExactly(digest, w, order, image, crash);
    var k := if Holds(digest, w.slots[0], image) then 0 else 1;
    HeldIsSame(digest, w.slots[k], image);
    assert k in order;
    var i :| 0 <= i < |order| && order[i] == k;
    forall j | 0 <= j < 2 && EntryOf(digest, w.slots[j], image, w.panic)
      ensures exists m :: 0 <= m < |order| && order[m] == j
    {
      assert j in order;
    }
  }

  lemma HeldIsSame(digest: Digest, s: Slot, image: seq<u8>)
    requires Holds(digest, s, image)
    ensures ValidSlot(digest, s) && SameDump(digest, s.meta.entry, image)
  {
  }

  // ----- reruns at later boots -----

  // One boot: power is cut after `cut` operations or the promotion ends; the
  // panic record is kept, or lost with power or by the promotion's own clearing.
  datatype Boot = Boot(currentBootId: u32, cut: nat, keepsPanic: bool)

  function Reached(digest: Digest, w: World, b: Boot): (n: nat)
    requires Shaped(w)
    ensures n <= Operations(w, Decide(digest, w, b.currentBootId))
  {
    Min(b.cut, Operations(w, Decide(digest, w, b.currentBootId)))
  }

  function AfterBoot(digest: Digest, w: World, b: Boot): (r: World)
    requires Shaped(w)
    ensures Shaped(r)
  {
    var r := After(w, Decide(digest, w, b.currentBootId), Reached(digest, w, b));
    r.(panic := if b.keepsPanic then w.panic else 0)
  }

  // The boot wrote a valid entry for the captured dump.
  predicate Archives(digest: Digest, w: World, b: Boot)
    requires Shaped(w)
  {
    && Decide(digest, w, b.currentBootId).Archive? && ReadsBack(w.capture.image)
    && Reached(digest, w, b) > SLOT_SECTORS + Chunks(|w.capture.image|)
  }

  function CountArchives(digest: Digest, w: World, bs: seq<Boot>): nat
    requires Shaped(w)
    decreases |bs|
  {
    if bs == [] then 0
    else (if Archives(digest, w, bs[0]) then 1 else 0) + CountArchives(digest, AfterBoot(digest, w, bs[0]), bs[1..])
  }

  // The dump is archived, by the boot of the panic record if there is one.
  ghost predicate Settled(digest: Digest, w: World, image: seq<u8>)
    requires Shaped(w)
  {
    && Archived(digest, w, image)
    && (w.panic == 0 || EntryOf(digest, w.slots[0], image, w.panic) || EntryOf(digest, w.slots[1], image, w.panic))
  }

  lemma SettledStays(digest: Digest, w: World, image: seq<u8>, b: Boot)
    requires Injective(digest) && Shaped(w) && Settled(digest, w, image)
    requires w.capture.Dump? ==> w.capture.image == image
    ensures !Archives(digest, w, b)
    ensures var r := AfterBoot(digest, w, b);
            Settled(digest, r, image) && (r.capture.Dump? ==> r.capture.image == image)
  {
    hide Injective, EntryOf, Holds, ScanHistory, Compare, Decide;
    if w.capture.Dump? && |image| <= DATA_BYTES {
      ArchivesAgainExactly(digest, w, b.currentBootId);
    }
  }

  lemma ArchivingSettles(digest: Digest, w: World, b: Boot)
    requires Shaped(w) && Archives(digest, w, b)
    ensures var image := w.capture.image; var r := AfterBoot(digest, w, b);
            Settled(digest, r, image) && (r.capture.Dump? ==> r.capture.image == image)
  {
    hide ScanHistory, Compare, Rewritten, Holds, ValidSlot;
    var d := Decide(digest, w, b.currentBootId);
    var image := w.capture.image;
    var n := Reached(digest, w, b);
    var r := AfterBoot(digest, w, b);
    assert r.slots[d.slot] == Rewritten(w.slots[d.slot], image, d.entry, n);
    SealedSlotIsValid(digest, w.slots[d.slot], image, d.entry, n);
    SealedEntry(digest, w.slots[d.slot], image, d.entry, n);
  }

  lemma SealedEntry(digest: Digest, before: Slot, image: seq<u8>, entry: Entry, n: nat)
    requires |before.data| == DATA_BYTES && MIN_DUMP_BYTES <= |image| <= DATA_BYTES
    requires n > SLOT_SECTORS + Chunks(|image|) && entry.dumpBytes == |image| && entry.sha == digest(image)
    ensures EntryOf(digest, Rewritten(before, image, entry, n), image, entry.bootId)
  {
    SealedSlotIsValid(digest, before, image, entry, n);
  }

  lemma {:induction false} SettledArchivesNothing(digest: Digest, w: World, image: seq<u8>, bs: seq<Boot>)
    requires Injective(digest) && Shaped(w) && Settled(digest, w, image)
    requires w.capture.Dump? ==> w.capture.image == image
    ensures CountArchives(digest, w, bs) == 0
    decreases |bs|
  {
    hide Injective, Settled, Archives, AfterBoot;
    if bs != [] {
      SettledStays(digest, w, image, bs[0]);
      SettledArchivesNothing(digest, AfterBoot(digest, w, bs[0]), image, bs[1..]);
    }
  }

  // However many boots promote a captured dump, wherever each is cut, and
  // whether the panic record survives or not: it is archived at most once.
  lemma {:induction false} NeverArchivedTwice(digest: Digest, w: World, bs: seq<Boot>)
    requires Injective(digest) && Shaped(w)
    ensures CountArchives(digest, w, bs) <= 1
    decreases |bs|
  {
    hide Injective, Archives, AfterBoot;
    if bs != [] {
      var next := AfterBoot(digest, w, bs[0]);
      if Archives(digest, w, bs[0]) {
        ArchivingSettles(digest, w, bs[0]);
        CapturedImage(digest, w, bs[0]);
        SettledArchivesNothing(digest, next, w.capture.image, bs[1..]);
      } else {
        NeverArchivedTwice(digest, next, bs[1..]);
      }
    }
  }

  lemma CapturedImage(digest: Digest, w: World, b: Boot)
    requires Shaped(w) && Archives(digest, w, b)
    ensures w.capture.Dump?
  {
  }

  // A panic record newer than the archived dump defeats the comparison: the
  // same dump ends up in both slots.
  lemma NewerPanicArchivesAgain(digest: Digest)
    requires Injective(digest)
    ensures exists w :: Shaped(w) && w.capture.Dump? && Archived(digest, w, w.capture.image)
                        && Archives(digest, w, Boot(7, 1000, true))
  {
    hide Injective;
    var image: seq<u8> := seq(MIN_DUMP_BYTES, i => 0);
    var data: seq<u8> := seq(DATA_BYTES, i => 0);
    var held := Slot(data, Sealed(Entry(1, 5, MIN_DUMP_BYTES, digest(image))));
    var w := World([held, Slot(data, Blank)], Dump(image), 6);
    assert Held(held) == image;
    assert Shaped(w) && Archived(digest, w, image);
    ArchivesAgainExactly(digest, w, 7);
    assert Chunks(MIN_DUMP_BYTES) == 1;
  }
}
