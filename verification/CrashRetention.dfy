// Which dumps the two archive slots hold over whole runs of crashes and boots.
module CrashRetention {
  import opened Bytes
  import opened CrashArchive

  // ----- one promotion -----

  // The slot claims to hold a dump, whether or not its contents still agree.
  predicate Claims(s: Slot) {
    s.meta.Sealed? && s.meta.entry.dumpBytes >= MIN_DUMP_BYTES
  }

  lemma ValidClaims(digest: Digest, s: Slot)
    ensures ValidSlot(digest, s) ==> Claims(s)
  {
  }

  // Until it is sealed, a slot being rewritten claims no more than it did.
  lemma UnsealedClaimsNothingNew(before: Slot, image: seq<u8>, entry: Entry, n: nat)
    requires |before.data| == DATA_BYTES && |image| <= DATA_BYTES && entry.dumpBytes == |image|
    requires n <= SLOT_SECTORS + Chunks(|image|) || |image| < MIN_DUMP_BYTES
    ensures var s := Rewritten(before, image, entry, n);
            Claims(s) ==> Claims(before) && s.meta == before.meta
  {
  }

  // What an archived dump's slot holds, and that the other slot is untouched.
  lemma ArchivedSlot(digest: Digest, w: World, b: Boot)
    requires Shaped(w) && Archives(digest, w, b)
    ensures var d := Decide(digest, w, b.currentBootId); var r := AfterBoot(digest, w, b);
            && w.capture.Dump? && d.Archive?
            && Holds(digest, r.slots[d.slot], w.capture.image) && r.slots[d.slot].meta == Sealed(d.entry)
            && r.slots[1 - d.slot] == w.slots[1 - d.slot]
  {
    hide Decide, Compare, ScanHistory, ValidSlot;
    var d := Decide(digest, w, b.currentBootId);
    DecidedEntry(digest, w, b.currentBootId);
    var n := Reached(digest, w, b);
    SealedSlotIsValid(digest, w.slots[d.slot], w.capture.image, d.entry, n);
    assert AfterBoot(digest, w, b).slots[d.slot] == Rewritten(w.slots[d.slot], w.capture.image, d.entry, n);
  }

  // An entry names its dump and the boot that crashed: the panic record's, or
  // else the one before this. Without either nothing is archived.
  lemma DecidedEntry(digest: Digest, w: World, currentBootId: u32)
    requires Shaped(w)
    ensures var d := Decide(digest, w, currentBootId);
            && (d.Archive? ==>
                  && d.entry.dumpBytes == |w.capture.image| && d.entry.sha == digest(w.capture.image)
                  && d.entry.bootId == if w.panic != 0 then w.panic else currentBootId - 1)
            && (w.panic == 0 && currentBootId <= 1 ==> d == Nothing)
  {
    hide Compare, ScanHistory;
  }

  // A dump that no valid entry has is archived, once its boot is known.
  lemma NewDumpIsArchived(digest: Digest, w: World, currentBootId: u32)
    requires Shaped(w) && w.capture.Dump? && |w.capture.image| <= DATA_BYTES && (w.panic != 0 || currentBootId > 1)
    requires forall k :: 0 <= k < 2 && ValidSlot(digest, w.slots[k]) ==>
      !SameDump(digest, w.slots[k].meta.entry, w.capture.image)
    ensures Decide(digest, w, currentBootId).Archive?
  {
    hide ScanHistory, Compare, ValidSlot, SameDump;
    CompareExactly(digest, w, ScanHistory(digest, w), w.capture.image, CrashBoot(w, currentBootId));
  }

  // A promotion that runs to its end leaves the dump archived and the capture
  // area free.
  lemma FinishedPromotion(digest: Digest, w: World, currentBootId: u32)
    requires Injective(digest) && Shaped(w) && w.capture.Dump? && |w.capture.image| >= MIN_DUMP_BYTES
    requires Decide(digest, w, currentBootId) != Nothing
    ensures var d := Decide(digest, w, currentBootId); var r := After(w, d, Operations(w, d));
            r.capture == NoDump && Archived(digest, r, w.capture.image)
  {
    hide Decide, Rewritten, Injective, Archived;
    var d := Decide(digest, w, currentBootId);
    DumpNeverLost(digest, w, currentBootId, Operations(w, d));
  }

  // A completed promotion's entry is the newest exactly if the sequence did not
  // run out, and then it is above every entry that was valid before.
  lemma ArchivedIsNewestExactly(digest: Digest, w: World, b: Boot, k: nat)
    requires Shaped(w) && Archives(digest, w, b) && Newest(digest, w, k)
    ensures var r := AfterBoot(digest, w, b);
            && (Newest(digest, r, 1 - k) <==> w.slots[k].meta.entry.sequence < UINT32_MAX)
            && (Newest(digest, r, 1 - k) ==>
                  forall j :: 0 <= j < 2 && ValidSlot(digest, w.slots[j]) ==>
                    w.slots[j].meta.entry.sequence < r.slots[1 - k].meta.entry.sequence)
  {
    hide Decide, Archives, AfterBoot, ValidSlot;
    ArchivesBesideTheNewest(digest, w, b.currentBootId, k);
    ArchivedSlot(digest, w, b);
  }

  // At the last number the next entry starts over below it.
  lemma NumbersRunOut(digest: Digest)
    ensures exists w :: Shaped(w) && Newest(digest, w, 0) && Archives(digest, w, Boot(7, 1000, true))
                        && !Newest(digest, AfterBoot(digest, w, Boot(7, 1000, true)), 1)
  {
    var data: seq<u8> := seq(DATA_BYTES, i => 0);
    var longer, image: seq<u8> := data[..MIN_DUMP_BYTES + 1], data[..MIN_DUMP_BYTES];
    var held := Slot(data, Sealed(Entry(UINT32_MAX, 5, |longer|, digest(longer))));
    var w := World([held, Slot(data, Blank)], Dump(image), 6);
    var boot := Boot(7, 1000, true);
    assert Newest(digest, w, 0);
    assert ScanHistory(digest, w) == [0];
    CompareExactly(digest, w, [0], image, 6);
    assert Chunks(MIN_DUMP_BYTES) == 1;
    assert Archives(digest, w, boot);
    hide Archives, AfterBoot;
    ArchivedIsNewestExactly(digest, w, boot, 0);
  }

  // The first dump ever archived is the newest.
  lemma FirstIsNewest(digest: Digest, w: World, b: Boot)
    requires Shaped(w) && Archives(digest, w, b)
    requires !ValidSlot(digest, w.slots[0]) && !ValidSlot(digest, w.slots[1])
    ensures var r := AfterBoot(digest, w, b);
            Newest(digest, r, 0) && r.slots[0].meta.entry.sequence == 1
  {
    hide Archives, AfterBoot, ValidSlot, Compare;
    ArchivedSlot(digest, w, b);
  }

  // ----- runs of crashes and boots -----

  // A crash leaves something new in the capture area and the panic record.
  datatype Event = Crash(capture: Capture, panic: u32) | Promotion(boot: Boot)

  function AfterEvent(digest: Digest, w: World, e: Event): (r: World)
    requires Shaped(w)
    ensures Shaped(r)
  {
    match e
    case Crash(capture, panic) => w.(capture := capture, panic := panic)
    case Promotion(boot) => AfterBoot(digest, w, boot)
  }

  // The dumps archived so far, oldest first, and whether a rewrite was begun
  // since that did not end in a valid entry.
  datatype Past = Past(dumps: seq<seq<u8>>, broken: bool)

  predicate Begins(digest: Digest, w: World, b: Boot)
    requires Shaped(w)
  {
    Decide(digest, w, b.currentBootId).Archive? && Reached(digest, w, b) > 0
  }

  function AfterPast(digest: Digest, w: World, past: Past, e: Event): Past
    requires Shaped(w)
  {
    if e.Crash? || !Begins(digest, w, e.boot) then past
    else if Archives(digest, w, e.boot) then Past(past.dumps + [w.capture.image], false)
    else past.(broken := true)
  }

  function Run(digest: Digest, w: World, es: seq<Event>): (r: World)
    requires Shaped(w)
    ensures Shaped(r)
  {
    if es == [] then w else AfterEvent(digest, Run(digest, w, es[..|es| - 1]), es[|es| - 1])
  }

  function PastOf(digest: Digest, w: World, es: seq<Event>): Past
    requires Shaped(w)
  {
    if es == [] then Past([], false)
    else AfterPast(digest, Run(digest, w, es[..|es| - 1]), PastOf(digest, w, es[..|es| - 1]), es[|es| - 1])
  }

  // Slot k holds the newest dump under its number; the other slot claims only
  // lower numbers, and holds the dump before unless a rewrite is broken off.
  ghost predicate KeepsIn(digest: Digest, w: World, past: Past, k: nat)
    requires Shaped(w) && past.dumps != []
  {
    var n := |past.dumps|;
    && k < 2 && Holds(digest, w.slots[k], past.dumps[n - 1]) && w.slots[k].meta.entry.sequence == n
    && (Claims(w.slots[1 - k]) ==> w.slots[1 - k].meta.entry.sequence < n)
    && (n > 1 && !past.broken ==> Holds(digest, w.slots[1 - k], past.dumps[n - 2]))
  }

  ghost predicate Keeps(digest: Digest, w: World, past: Past)
    requires Shaped(w)
  {
    if past.dumps == [] then !Claims(w.slots[0]) && !Claims(w.slots[1])
    else KeepsIn(digest, w, past, 0) || KeepsIn(digest, w, past, 1)
  }

  lemma KeptIsNewest(digest: Digest, w: World, past: Past, k: nat)
    requires Shaped(w) && past.dumps != [] && KeepsIn(digest, w, past, k)
    ensures Newest(digest, w, k)
  {
    ValidClaims(digest, w.slots[1 - k]);
  }

  lemma SameSlotsKeep(digest: Digest, w: World, r: World, past: Past)
    requires Shaped(w) && Shaped(r) && Keeps(digest, w, past) && r.slots == w.slots
    ensures Keeps(digest, r, past)
  {
  }

  // Without an operation on a slot, a boot leaves both as they are.
  lemma IdleBoot(digest: Digest, w: World, b: Boot)
    requires Shaped(w) && !Begins(digest, w, b)
    ensures AfterBoot(digest, w, b).slots == w.slots
  {
    hide Decide;
  }

  // A rewrite broken off leaves the other slot alone and claims nothing new.
  lemma BrokenBoot(digest: Digest, w: World, b: Boot)
    requires Shaped(w) && Begins(digest, w, b) && !Archives(digest, w, b)
    ensures var d := Decide(digest, w, b.currentBootId); var r := AfterBoot(digest, w, b);
            && r.slots[1 - d.slot] == w.slots[1 - d.slot]
            && (Claims(r.slots[d.slot]) ==> Claims(w.slots[d.slot]) && r.slots[d.slot].meta == w.slots[d.slot].meta)
  {
    hide Decide, Rewritten, Claims;
    var d := Decide(digest, w, b.currentBootId);
    DecidedEntry(digest, w, b.currentBootId);
    var n := Reached(digest, w, b);
    UnsealedClaimsNothingNew(w.slots[d.slot], w.capture.image, d.entry, n);
    assert AfterBoot(digest, w, b).slots[d.slot] == Rewritten(w.slots[d.slot], w.capture.image, d.entry, n);
  }

  lemma BrokenKeeps(digest: Digest, w: World, past: Past, b: Boot)
    requires Shaped(w) && Keeps(digest, w, past) && Begins(digest, w, b) && !Archives(digest, w, b)
    ensures Keeps(digest, AfterBoot(digest, w, b), past.(broken := true))
  {
    hide Decide, Begins, Archives, AfterBoot, Claims, Holds, Newest;
    BrokenBoot(digest, w, b);
    BeginsArchive(digest, w, b);
    if past.dumps != [] {
      var k := if KeepsIn(digest, w, past, 0) then 0 else 1;
      KeptIsNewest(digest, w, past, k);
      ArchivesBesideTheNewest(digest, w, b.currentBootId, k);
      assert KeepsIn(digest, AfterBoot(digest, w, b), past.(broken := true), k);
    }
  }

  lemma BeginsArchive(digest: Digest, w: World, b: Boot)
    requires Shaped(w) && Begins(digest, w, b)
    ensures Decide(digest, w, b.currentBootId).Archive?
  {
  }

  lemma ArchiveKeeps(digest: Digest, w: World, past: Past, b: Boot)
    requires Shaped(w) && Keeps(digest, w, past) && Archives(digest, w, b) && |past.dumps| < UINT32_MAX
    ensures w.capture.Dump?
    ensures Keeps(digest, AfterBoot(digest, w, b), Past(past.dumps + [w.capture.image], false))
  {
    hide Decide, Archives, AfterBoot, Holds, Newest;
    ArchivedSlot(digest, w, b);
    var later := Past(past.dumps + [w.capture.image], false);
    if past.dumps == [] {
      ValidClaims(digest, w.slots[0]);
      ValidClaims(digest, w.slots[1]);
      FirstArchive(digest, w, b);
      assert KeepsIn(digest, AfterBoot(digest, w, b), later, 0);
    } else {
      var k := if KeepsIn(digest, w, past, 0) then 0 else 1;
      KeptIsNewest(digest, w, past, k);
      ArchivesBesideTheNewest(digest, w, b.currentBootId, k);
      assert KeepsIn(digest, AfterBoot(digest, w, b), later, 1 - k);
    }
  }

  lemma FirstArchive(digest: Digest, w: World, b: Boot)
    requires Shaped(w) && !ValidSlot(digest, w.slots[0]) && !ValidSlot(digest, w.slots[1])
    requires Archives(digest, w, b)
    ensures var d := Decide(digest, w, b.currentBootId); d.Archive? && d.slot == 0 && d.entry.sequence == 1
  {
    hide ValidSlot, Compare;
  }

  lemma EventKeeps(digest: Digest, w: World, past: Past, e: Event)
    requires Shaped(w) && Keeps(digest, w, past) && |past.dumps| < UINT32_MAX
    ensures Keeps(digest, AfterEvent(digest, w, e), AfterPast(digest, w, past, e))
  {
    hide Keeps, Begins, Archives, AfterBoot;
    if e.Crash? {
      SameSlotsKeep(digest, w, AfterEvent(digest, w, e), past);
    } else if !Begins(digest, w, e.boot) {
      IdleBoot(digest, w, e.boot);
      SameSlotsKeep(digest, w, AfterEvent(digest, w, e), past);
    } else if Archives(digest, w, e.boot) {
      ArchiveKeeps(digest, w, past, e.boot);
    } else {
      BrokenKeeps(digest, w, past, e.boot);
    }
  }

  lemma {:induction false} RunKeeps(digest: Digest, w: World, es: seq<Event>)
    requires Shaped(w) && w.slots[0].meta == Blank == w.slots[1].meta
    requires |PastOf(digest, w, es).dumps| <= UINT32_MAX
    ensures Keeps(digest, Run(digest, w, es), PastOf(digest, w, es))
  {
    hide AfterEvent, Begins, Archives;
    if es != [] {
      var before := es[..|es| - 1];
      RunKeeps(digest, w, before);
      var past := PastOf(digest, w, before);
      if |past.dumps| < UINT32_MAX {
        EventKeeps(digest, Run(digest, w, before), past, es[|es| - 1]);
      } else {
        hide Keeps;
        SpentKeeps(digest, Run(digest, w, before), past, es[|es| - 1]);
      }
    }
  }

  // With every number given out, only events that archive nothing are left.
  lemma SpentKeeps(digest: Digest, w: World, past: Past, e: Event)
    requires Shaped(w) && Keeps(digest, w, past)
    requires |AfterPast(digest, w, past, e).dumps| <= |past.dumps|
    ensures Keeps(digest, AfterEvent(digest, w, e), AfterPast(digest, w, past, e))
  {
    hide Keeps, Begins, Archives, AfterBoot;
    if e.Promotion? && Begins(digest, w, e.boot) {
      BrokenKeeps(digest, w, past, e.boot);
    } else {
      if e.Promotion? {
        IdleBoot(digest, w, e.boot);
      }
      SameSlotsKeep(digest, w, AfterEvent(digest, w, e), past);
    }
  }

  // From an erased archive, over any run of crashes and boots, wherever each is
  // cut: the newest archived dump is held by the newest entry, and the one before
  // it by the other, unless a rewrite has been broken off since.
  lemma TwoNewestDumpsHeld(digest: Digest, w: World, es: seq<Event>)
    requires Shaped(w) && w.slots[0].meta == Blank == w.slots[1].meta
    requires |PastOf(digest, w, es).dumps| <= UINT32_MAX
    ensures var r := Run(digest, w, es); var past := PastOf(digest, w, es); var n := |past.dumps|;
            n > 0 ==> exists k :: 0 <= k < 2 && Newest(digest, r, k) && Holds(digest, r.slots[k], past.dumps[n - 1])
                                && (n > 1 && !past.broken ==> Holds(digest, r.slots[1 - k], past.dumps[n - 2]))
  {
    hide Run, PastOf, Holds, Newest;
    RunKeeps(digest, w, es);
    var r, past := Run(digest, w, es), PastOf(digest, w, es);
    if past.dumps != [] {
      var k := if KeepsIn(digest, r, past, 0) then 0 else 1;
      KeptIsNewest(digest, r, past, k);
    }
  }
}
