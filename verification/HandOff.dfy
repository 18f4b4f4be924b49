// A live log in RAM and the persistence worker's image of it: capture, stepped
// flush and acknowledgement, interleaved with mutations of the live records.
module HandOff {
  import opened Bytes
  import opened HistoryTypes
  import opened HistoryRing
  import opened FlashIo
  import opened DualSlotLog

  datatype Worker = Waiting | Busy | Finished(ok: bool)

  // `mutations` counts the changes of the live records; `seen` is the count the
  // control task had read before it captured the image, and `captured` whether
  // the live log was dirty then.
  datatype System = System(
    flash: seq<u8>, live: Log, image: Log, worker: Worker, mutations: nat, seen: nat, captured: bool)

  datatype Event =
    | MutateLive(store: HistoryStore)
    | PackLive                                  // compaction without a change of contents
    | Capture(read: nat)
    | WorkerStep(fault: Fault, othersOk: bool)  // one flash operation at most
    | WorkerAborts
    | Acknowledge
    | LosePower

  predicate Enabled(s: System, e: Event) {
    match e
    case MutateLive(store) => Shaped(store) && store.header.generation == s.live.store.header.generation
    case PackLive => Shaped(s.live.store)
    case Capture(read) => s.worker == Waiting && read <= s.mutations
    case WorkerStep(_, _) => s.worker == Busy
    case WorkerAborts => s.worker == Busy
    case Acknowledge => s.worker.Finished?
    case LosePower => true
  }

  // What capturePersistenceImage leaves in the image.
  function Captured(live: Log, image: Log): Log {
    Log(if live.dirty then live.store
        else RawStore(image.store.header.(generation := live.store.header.generation), image.store.records),
        IDLE_TX, live.activeSlot, live.dirty)
  }

  // What acknowledgePersisted leaves in the live log.
  function Acknowledged(live: Log, image: Log, clearDirty: bool): Log {
    Log(RawStore(live.store.header.(generation := image.store.header.generation), live.store.records),
        live.tx, image.activeSlot, live.dirty && !clearDirty)
  }

  function Next(crc: Checksum, s: System, e: Event): (r: System)
    requires FlashSized(s.flash) && LogShaped(s.image) && Enabled(s, e)
    ensures FlashSized(r.flash)
  {
    match e
    case MutateLive(store) => s.(live := s.live.(store := store, dirty := true), mutations := s.mutations + 1)
    case PackLive => s.(live := s.live.(store := Compact(s.live.store)))
    case Capture(read) =>
      s.(image := Captured(s.live, s.image), worker := Busy, seen := read, captured := s.live.dirty)
    case WorkerStep(fault, othersOk) =>
      var r := FlushStep(crc, s.flash, s.image, fault);
      s.(flash := r.flash, image := r.log,
         worker := if r.result == MORE then Busy else Finished(r.result == COMPLETE && othersOk))
    case WorkerAborts => s.(worker := Finished(false))
    case Acknowledge =>
      s.(live := Acknowledged(s.live, s.image, s.worker.ok && s.mutations == s.seen), worker := Waiting)
    case LosePower =>
      var l := Load(crc, s.flash);
      System(s.flash, Log(l.store, IDLE_TX, l.activeSlot, false), Log(l.store, IDLE_TX, l.activeSlot, false),
             Waiting, 0, 0, false)
  }

  // ----- invariant -----

  // What flash holds now, as a load would see it.
  function Durable(crc: Checksum, s: System): Loaded
    requires FlashSized(s.flash)
  {
    Load(crc, s.flash)
  }

  ghost predicate LiveOk(crc: Checksum, s: System)
    requires FlashSized(s.flash)
  {
    && Shaped(s.live.store) && s.live.activeSlot < SLOT_COUNT && s.live.tx.phase == IDLE
    && (!s.live.dirty ==> Contents(s.live.store) == Contents(Durable(crc, s).store))
  }

  // The image's progress on flash; `base` is the flash as its transaction found it.
  ghost predicate ImageOk(crc: Checksum, s: System, base: seq<u8>) {
    && Consistent(crc, World(s.flash, s.image), base)
    && s.live.store.header.generation <= s.image.store.header.generation
  }

  ghost predicate WorkerOk(crc: Checksum, s: System)
    requires FlashSized(s.flash) && Shaped(s.live.store) && Shaped(s.image.store)
  {
    match s.worker
    case Waiting =>
      && s.live.activeSlot == Durable(crc, s).activeSlot
      && Durable(crc, s).store.header.generation <= s.live.store.header.generation
    case Busy =>
      && s.image.dirty == s.captured && (s.captured ==> s.live.dirty)
      && (s.mutations == s.seen && s.captured ==> Contents(s.image.store) == Contents(s.live.store))
      && (s.mutations == s.seen && !s.captured ==> !s.live.dirty)
    case Finished(ok) =>
      && (s.captured ==> s.live.dirty)
      && (ok && s.mutations == s.seen ==> Contents(s.live.store) == Contents(Durable(crc, s).store))
  }

  ghost predicate Inv(crc: Checksum, s: System, base: seq<u8>) {
    && FlashSized(s.flash) && LogShaped(s.image) && s.seen <= s.mutations
    && LiveOk(crc, s) && WorkerOk(crc, s)
    && (s.worker != Waiting ==> ImageOk(crc, s, base))
  }

  // ----- events that leave flash alone -----

  lemma ContentsIgnoreGeneration(s: HistoryStore, generation: u32)
    requires Shaped(s)
    ensures var t := RawStore(s.header.(generation := generation), s.records);
            Shaped(t) && Contents(t) == Contents(s)
  {
  }

  lemma MutateKeepsInv(crc: Checksum, s: System, base: seq<u8>, store: HistoryStore)
    requires Inv(crc, s, base) && Enabled(s, MutateLive(store))
    ensures Inv(crc, Next(crc, s, MutateLive(store)), base)
  {
    hide Load, Contents, Consistent, Shaped;
  }

  lemma PackKeepsInv(crc: Checksum, s: System, base: seq<u8>)
    requires Inv(crc, s, base)
    ensures Inv(crc, Next(crc, s, PackLive), base)
  {
    hide Load, Contents, Consistent;
    CompactKeepsContents(s.live.store);
  }

  lemma CaptureKeepsInv(crc: Checksum, s: System, base: seq<u8>, read: nat)
    requires Inv(crc, s, base) && Enabled(s, Capture(read))
    ensures Inv(crc, Next(crc, s, Capture(read)), s.flash)
  {
    hide Load, Contents;
    ContentsIgnoreGeneration(s.image.store, s.live.store.header.generation);
  }

  lemma AcknowledgeKeepsInv(crc: Checksum, s: System, base: seq<u8>)
    requires Inv(crc, s, base) && s.worker.Finished?
    ensures Inv(crc, Next(crc, s, Acknowledge), base)
    ensures Next(crc, s, Acknowledge).live.store.records == s.live.store.records
    ensures Contents(Next(crc, s, Acknowledge).live.store) == Contents(s.live.store)
  {
    hide Load, Contents;
    ContentsIgnoreGeneration(s.live.store, s.image.store.header.generation);
    InvLoads(crc, World(s.flash, s.image), base);
  }

  lemma LosePowerKeepsInv(crc: Checksum, s: System, base: seq<u8>)
    requires Inv(crc, s, base)
    ensures Inv(crc, Next(crc, s, LosePower), s.flash)
  {
    hide Load, Contents, Consistent, Shaped;
  }

  lemma AbortKeepsInv(crc: Checksum, s: System, base: seq<u8>)
    requires Inv(crc, s, base) && s.worker == Busy
    ensures Inv(crc, Next(crc, s, WorkerAborts), base)
  {
    hide Load, Contents, Consistent, Shaped;
  }

  // ----- the worker's flash steps -----

  // One step on a dirty image: it stays consistent, keeps its contents, and
  // only its completion changes what flash holds, to those contents.
  lemma ImageStep(crc: Checksum, flash: seq<u8>, image: Log, base: seq<u8>, fault: Fault) returns (base': seq<u8>)
    requires Consistent(crc, World(flash, image), base) && image.dirty
    requires Headroom(crc, flash, image)
    ensures var r := FlushStep(crc, flash, image, fault);
            && Consistent(crc, World(r.flash, r.log), base')
            && Contents(r.log.store) == Contents(image.store)
            && image.store.header.generation <= r.log.store.header.generation
            && r.log.dirty == (r.result != COMPLETE)
            && Load(crc, r.flash) ==
                 if r.result == COMPLETE then Loaded(r.log.store, r.log.activeSlot) else Load(crc, flash)
  {
    hide Load, Consistent, Contents, Advance;
    ConsistentShape(crc, flash, image, base);
    StartedShape(crc, image);
    PreparedStore(crc, image.store);
    StartedConsistent(crc, World(flash, image), base);
    base' := AdvanceIsAtomic(crc, World(flash, Started(crc, image)), base, fault);
    AdvanceStep(crc, World(flash, Started(crc, image)), base, fault);
  }

  lemma ConsistentShape(crc: Checksum, flash: seq<u8>, image: Log, base: seq<u8>)
    requires Consistent(crc, World(flash, image), base)
    ensures FlashSized(flash) && FlashSized(base) && LogShaped(image)
  {
  }

  lemma WorkerKeepsInv(crc: Checksum, s: System, base: seq<u8>, fault: Fault, othersOk: bool) returns (base': seq<u8>)
    requires Inv(crc, s, base) && s.worker == Busy && Headroom(crc, s.flash, s.image)
    ensures Inv(crc, Next(crc, s, WorkerStep(fault, othersOk)), base')
  {
    hide Load, Consistent, Contents, FlushStep, Shaped;
    if s.image.dirty {
      base' := ImageStep(crc, s.flash, s.image, base, fault);
      var r := FlushStep(crc, s.flash, s.image, fault);
      ConsistentShape(crc, r.flash, r.log, base');
    } else {
      base' := base;
      CleanImageRests(crc, s.flash, s.image, fault);
    }
  }

  lemma CleanImageRests(crc: Checksum, flash: seq<u8>, image: Log, fault: Fault)
    requires FlashSized(flash) && LogShaped(image) && !image.dirty
    ensures FlushStep(crc, flash, image, fault) == Flushed(flash, image, COMPLETE)
  {
  }

  lemma EventKeepsInv(crc: Checksum, s: System, base: seq<u8>, e: Event) returns (base': seq<u8>)
    requires Inv(crc, s, base) && Enabled(s, e) && (e.WorkerStep? ==> Headroom(crc, s.flash, s.image))
    ensures Inv(crc, Next(crc, s, e), base')
  {
    hide Inv, Next;
    base' := base;
    match e
    case MutateLive(store) => MutateKeepsInv(crc, s, base, store);
    case PackLive => PackKeepsInv(crc, s, base);
    case Capture(read) =>
      base' := s.flash;
      CaptureKeepsInv(crc, s, base, read);
    case WorkerStep(fault, othersOk) => base' := WorkerKeepsInv(crc, s, base, fault, othersOk);
    case WorkerAborts => AbortKeepsInv(crc, s, base);
    case Acknowledge => AcknowledgeKeepsInv(crc, s, base);
    case LosePower =>
      base' := s.flash;
      LosePowerKeepsInv(crc, s, base);
  }

  // What flash holds changes only when the worker completes a captured image,
  // to that image's contents, and its generation never goes back.
  lemma FlashOnlyAdvances(crc: Checksum, s: System, base: seq<u8>, e: Event)
    requires Inv(crc, s, base) && Enabled(s, e) && (e.WorkerStep? ==> Headroom(crc, s.flash, s.image))
    ensures var before, after := Durable(crc, s), Durable(crc, Next(crc, s, e));
            && before.store.header.generation <= after.store.header.generation
            && (after != before ==>
                  e.WorkerStep? && s.image.dirty && Contents(after.store) == Contents(s.image.store))
  {
    hide Load, Consistent, Contents, FlushStep, Shaped, Captured, Acknowledged, Compact;
    if e.WorkerStep? {
      if s.image.dirty {
        var _ := ImageStep(crc, s.flash, s.image, base, e.fault);
        GenerationAhead(crc, s, base);
      } else {
        CleanImageRests(crc, s.flash, s.image, e.fault);
      }
    }
  }

  lemma GenerationAhead(crc: Checksum, s: System, base: seq<u8>)
    requires Consistent(crc, World(s.flash, s.image), base)
    ensures Durable(crc, s).store.header.generation <= s.image.store.header.generation
  {
    hide Load;
    InvLoads(crc, World(s.flash, s.image), base);
  }

  // ----- whole runs -----

  ghost predicate Run(crc: Checksum, s: System, es: seq<Event>)
    decreases |es|
  {
    && FlashSized(s.flash) && LogShaped(s.image)
    && (es != [] ==>
          && Enabled(s, es[0]) && (es[0].WorkerStep? ==> Headroom(crc, s.flash, s.image))
          && Run(crc, Next(crc, s, es[0]), es[1..]))
  }

  function After(crc: Checksum, s: System, es: seq<Event>): (r: System)
    requires Run(crc, s, es)
    ensures FlashSized(r.flash) && LogShaped(r.image)
    decreases |es|
  {
    if es == [] then s else After(crc, Next(crc, s, es[0]), es[1..])
  }

  lemma {:induction false} RunKeepsInv(crc: Checksum, s: System, base: seq<u8>, es: seq<Event>) returns (base': seq<u8>)
    requires Inv(crc, s, base) && Run(crc, s, es)
    ensures Inv(crc, After(crc, s, es), base')
    decreases |es|
  {
    hide Inv, Next, FlashSized, LogShaped;
    if es == [] {
      base' := base;
    } else {
      var next := EventKeepsInv(crc, s, base, es[0]);
      base' := RunKeepsInv(crc, Next(crc, s, es[0]), next, es[1..]);
    }
  }

  function Booted(crc: Checksum, flash: seq<u8>): System
    requires FlashSized(flash)
  {
    var l := Load(crc, flash);
    System(flash, Log(l.store, IDLE_TX, l.activeSlot, false), Log(l.store, IDLE_TX, l.activeSlot, false),
           Waiting, 0, 0, false)
  }

  lemma BootedInv(crc: Checksum, flash: seq<u8>)
    requires FlashSized(flash)
    ensures Inv(crc, Booted(crc, flash), flash)
  {
    hide Contents;
  }

  // However captures, worker steps, acknowledgements, mutations and power cuts
  // interleave, a live log that calls itself clean holds exactly the records a
  // load from flash would give.
  lemma CleanMeansDurable(crc: Checksum, flash: seq<u8>, es: seq<Event>)
    requires FlashSized(flash) && Run(crc, Booted(crc, flash), es)
    ensures var s := After(crc, Booted(crc, flash), es);
            && Shaped(s.live.store)
            && (!s.live.dirty ==> Contents(s.live.store) == Contents(Load(crc, s.flash).store))
  {
    hide Load, Contents, Booted, WorkerOk, ImageOk;
    BootedInv(crc, flash);
    var _ := RunKeepsInv(crc, Booted(crc, flash), flash, es);
  }
}
