# Brew-by-weight firmware: a verification model

The firmware weighs an espresso shot while it runs and stops the machine so that the cup ends at its goal.
This project models the parts of it whose correctness does not show in any single function: what survives a
power cut, what keeps the relay from staying closed, and the integer arithmetic and bookkeeping that decide
when to stop a shot and what to advise afterwards.

`dafny verify dfyconfig.toml` checks everything. Objects that the firmware updates in place are classes here,
and each of their methods is tied to a function on values; the theorems are about those functions, over every
run or every input. A function and the method that computes it share their name where they can.

| part | files |
|---|---|
| dual-slot flash log | Bytes, PackedLayouts, HistoryTypes, NvsDualSlot, HistoryRing, FlashIo, DualSlotLog, DualSlotSaves, DualSlotFaults, HistoryLog |
| hand-off between live stores and the flash worker | HandOff, HandOffRounds, ActivationStores |
| audit ring | AuditCodec, AuditRing, AuditLatch, AuditAppend, AuditStore, AuditSystem |
| crash archive | CrashArchive, CrashRetention, CrashDevice |
| relay safety | RelaySections, RelayProtocol, RelaySafety, RelayTrips, RelayLockout, RelayTimers, RelayRequests, RelayWitness, HardwareTimer |
| corridor kernel | CorridorSort, CorridorMedian, CutLine, CutLineLaws, RateFit, RateEstimator, RateLaws, RateGate, RateRing |
| statistics and grind hint | ArrivalRecords, ArrivalStats, GrindHint, GrindHintProofs, GrindHintLaws, GrindHintSpread, GrindHintReplay |
| JSON limits | JsonScan, JsonGrammar, JsonProofs, JsonDepth, JsonNesting, JsonScanner |
| offset learning | Ewma, EwmaRuns, EwmaLaws, EwmaEvidence |
| curve-hash cache | CurveHashes, CurveHashTable |
| debug ring | DebugSequence, DebugReader, DebugRing |
| session overrides | SessionOverrides, SessionRuns, SessionLaws, SessionSettings |

## How it is modelled

Flash is a sequence of bytes, or of slots where only whole slots matter. Erasing sets bytes to 0xFF, programming
can only clear bits, and each erase or program is one step; power can fail between any two steps, after which the
boot code runs on what flash holds. Checksums are arbitrary functions, so nothing rests on their strength; the
crash archive's digest is an arbitrary injective function.

The relay is a step system: every critical section is one step, and the control task, the deadline interrupt, the
two task-timer callbacks, foreign trips and the clock interleave freely. The clock cannot pass an armed hardware
deadline before the interrupt has fired. A task-timer callback reads the time first and enters its section any
number of steps later, but less than 2^32 ms after the close it acts on (`RelaySafety.Timely`).

C++ integer division truncates; `Bytes.TruncDiv` does the same. Counters wrap where the firmware's do.

## Where the code does less than one might expect

- Generations of the dual-slot log compare as serial numbers. A flush whose header was programmed wins the next
  load exactly when its generation is a serial successor (`DualSlotLog.CutAfterCommit`); at the saturated
  generation a flush into slot 1 is lost to an equal one in slot 0.
- A failed append with an immediate save is rolled back when the shared count of lock timeouts moved, whoever moved
  it. If another task moved it while this save failed on the flash, the ring has been packed meanwhile, and the
  roll-back restores the listing exactly if packing changed nothing that matters
  (`DualSlotFaults.RollbackAfterSaveExactly`); it does not for a full ring (`DualSlotFaults.FullRingIsScrambled`).
- A stale task-timer stamp, taken before the next close, passes the elapsed-time test because the difference
  wraps: it cancels the later close (`RelaySections.StaleHardCallbackTrips`,
  `RelaySections.StaleOperationalCallbackTrips`, `RelayWitness.StaleStampCancelsLaterClose`). It errs toward open.
- A trip latched after the next close took its snapshot of the flags is cleared by that close
  (`RelayWitness.ArmingClearsALaterTrip`). That is exactly when one is lost (`RelaySafety.TripFlagsStay`), and it
  never happens as long as no close begins over an arming left standing (`RelaySafety.TripsWaitToBeConsumed`).
- A lockout that another task trips while a close is being armed does not stop that close: its arming section ends the
  lockout (`RelayWitness.ArmingEndsALockout`). Only that and a later trip without lockout end one
  (`RelayLockout.LockoutExactly`).
- A backflush promotion held up between computing its timeout and starting the timer can keep the relay energized
  past 180 s, exactly if the delay exceeds what the arming had taken, and then by the difference
  (`RelaySafety.OverrunsExactly`, `RelayWitness.PromotionOverrunsBySlip`).
- Offset learning that kept its evidence over a change to a gain that is no candidate would judge that gain by the
  first observation's trajectory (`EwmaRuns.JudgedByItselfExactly`, `EwmaRuns.AnotherGainIsJudgedByTheFirst`). Setting
  the gain by hand restarts the evidence, and its own switches go to candidates only, so learning never does
  (`EwmaRuns.OffsetFollowsItsGains`).
- A panic record newer than an archived dump makes promotion archive the same dump again
  (`CrashArchive.ArchivesAgainExactly`, `CrashArchive.NewerPanicArchivesAgain`). Over any run of boots of one
  capture it still happens at most once.
- The debug ring's latest sequence is read off the next one. Just after the wrap it reads as 0, as if nothing had
  been logged (`DebugRing.LatestNamesTheNewestExactly`).
- Crash entries are numbered in 32 bits and the last number is followed by 0, which is below the entry beside it
  (`CrashRetention.ArchivedIsNewestExactly`, `CrashRetention.NumbersRunOut`).
- Setting the no-scale mode again clears the packed byte's reserved bits, so hidden values are restored exactly
  when none was set (`SessionOverrides.RepackingIsExact`). Valid configurations have none.

## Model

| member | source | states |
|---|---|---|
| NvsDualSlot.SerialOrder | src/OpenBrewByWeightNvsDualSlot.h:16-37 | the revision comparison is the plain order exactly while two revisions are less than 2^31 apart, and an equal revision never wins |
| HistoryTypes.StoreRoundTrip | src/OpenBrewByWeightHistoryTypes.h:59-91 | a store programmed into a slot decodes to the same store |
| PackedLayouts.HistoryHeaderLayout | src/OpenBrewByWeightHistoryTypes.h:71-83 | where each header word lies in the slot, least significant byte first |
| PackedLayouts.HistoryRecordLayout | src/OpenBrewByWeightHistoryTypes.h:59-69 | and each field of each record |
| HistoryTypes.FinalizedIsValid | src/OpenBrewByWeightHistoryTypes.h:115-133 | finalizing any store in bounds makes one that validates, for any checksum |
| HistoryTypes.ErasedHeaderIsInvalid | src/OpenBrewByWeightHistoryTypes.h:123-133 | a slot with an erased header never validates, for any checksum |
| HistoryTypes.ValidExactly | src/OpenBrewByWeightHistoryTypes.h:95-133 | the validator accepts exactly the slots whose bytes carry the magic, version and record size, a count and write index in bounds, and the checksum of the words before it and the counted records |
| HistoryTypes.ValidIsFinalized | src/OpenBrewByWeightHistoryTypes.h:95-133 | a store validates exactly if it is in bounds and finalizing changes nothing in it |
| HistoryRing.CompactKeepsContents | src/OpenBrewByWeightHistoryTypes.h:142-152 | compacting packs the records oldest first and keeps the listing |
| HistoryRing.AppendContents | src/OpenBrewByWeightDualSlotFlashLog.h:243-258 | pushing keeps the newest records of the listing plus the new one, in order |
| HistoryRing.AppendKeepsIdsFresh | src/OpenBrewByWeightDualSlotFlashLog.h:284-325 | an appended record's id is carried by no kept record, and ids stay ascending and fresh until they run out |
| HistoryRing.RemovalDropsOnlyTheMatch | src/OpenBrewByWeightDualSlotFlashLog.h:327-369 | removal drops the one record with the id and keeps the rest in order |
| HistoryRing.PagesConcatenate | src/OpenBrewByWeightHistory.h:62-80 | pages read at successive offsets concatenate to the whole filtered listing, in either direction |
| HistoryRing.MoreMeansNextPage | src/OpenBrewByWeightHistory.h:62-80 | a page is the stretch at its offset, and announces more exactly if the next one has a record |
| HistoryRing.FilterListsItsTypes | src/OpenBrewByWeightHistory.h:71-75 | a filter of chosen types lists the records of just those types, and the empty filter lists all |
| HistoryRing.DirectionsMirror | src/OpenBrewByWeightHistory.h:62-80 | the ascending walk is the filtered listing oldest first, and the descending walk its reverse |
| FlashIo.StepProgress | src/OpenBrewByWeightFlashIoScratch.h:315-373 | a fault-free step moves the slot to the next point of the replacement, only the header program completes it, and a faulty step leaves the slot as it was |
| FlashIo.TransactionLength | src/OpenBrewByWeightFlashIoScratch.h:249-373 | a transaction takes exactly slotBytes/4096 + ceil((total-header)/1024) + 1 steps, then the slot holds the whole image |
| FlashIo.FlashStoreTransaction.BeginFlashStoreTransaction | src/OpenBrewByWeightFlashIoScratch.h:249-267 | the transaction begun replaces nothing yet, and from here takes exactly the number of steps of `TransactionLength` to hold the whole image |
| FlashIo.FlashStoreTransaction.FlashIoStoreStep | src/OpenBrewByWeightFlashIoScratch.h:315-373 | one erase or program inside the target slot; everything outside it is unchanged |
| DualSlotLog.HeadersFirstEqualsValidatingBoth | src/OpenBrewByWeightDualSlotFlashLog.h:101-123 | choosing by headers first and validating the other slot only as a fallback loads what validating both slots would |
| DualSlotLog.InterruptedSlotInvalid | src/OpenBrewByWeightFlashIoScratch.h:315-373 | from its first erase to its header program, a slot under replacement does not validate |
| DualSlotLog.CutBeforeCommit | src/OpenBrewByWeightDualSlotFlashLog.h:191-221 | cut anywhere before the header program, a load returns what it returned before the transaction |
| DualSlotLog.CutAfterCommit | src/OpenBrewByWeightDualSlotFlashLog.h:101-123 | after the header program, a load returns the new store exactly when the serial comparison of the generations says so |
| DualSlotLog.EventIsAtomic | src/OpenBrewByWeightDualSlotFlashLog.h:191-221 | what a power cut would bring back changes exactly when a header program completes a flush, to the store that flush wrote; asked only of a flush that starts: a generation left, and less than 2^31 - 1 ahead of the durable one |
| DualSlotLog.ActiveSlotNeverWritten | src/OpenBrewByWeightDualSlotFlashLog.h:191-221 | no step writes the slot a load would pick |
| DualSlotLog.CrashAtomicity | src/OpenBrewByWeightDualSlotFlashLog.h:101-221 | over any run of mutations, flush steps, faults and power cuts from any flash, at any generation, a load brings back the last store whose flush ran to its header program |
| DualSlotLog.BootOwesNothing | src/OpenBrewByWeightDualSlotFlashLog.h:101-221 | after a boot, no flush step and no further power cut changes flash or memory until the records change |
| DualSlotSaves.SameChecksumSameListing | src/OpenBrewByWeightHistoryTypes.h:95-133 | two valid slots with one stored checksum, which the checksum tells apart if they differ, list the same records under the same header |
| DualSlotSaves.ChangedRecordIsRefused | src/OpenBrewByWeightHistoryTypes.h:123-133 | a slot with a good header and any counted record changed is refused |
| DualSlotSaves.CutSlotExactly | src/OpenBrewByWeightDualSlotFlashLog.h:129-189 | a slot a save was cut in is valid exactly if its header and every counted record have arrived |
| DualSlotSaves.SaveCutKeepsLoad | src/OpenBrewByWeightDualSlotFlashLog.h:129-189 | cut anywhere, its header chunk written or not, a save leaves the next load as it was, or everything the new store lists is there |
| DualSlotSaves.ArrivedWinsExactly | src/OpenBrewByWeightDualSlotFlashLog.h:101-189 | and then it wins the next load exactly as a whole one does |
| DualSlotFaults.LoadSurvivesReadErrors | src/OpenBrewByWeightDualSlotFlashLog.h:75-127 | a load with failing reads is the load of the crash theorems as long as the slot that load picks can be read |
| DualSlotFaults.LoadTakesAValidSlot | src/OpenBrewByWeightDualSlotFlashLog.h:75-127 | whichever reads fail, a load takes a slot that validates or the empty store |
| DualSlotFaults.RollbackUndoesAppend | src/OpenBrewByWeightDualSlotFlashLog.h:284-325 | rolling an append back restores the store, cell by cell |
| DualSlotFaults.RollbackAfterSaveExactly | src/OpenBrewByWeightDualSlotFlashLog.h:284-325 | rolling back after a save has packed the ring restores the listing exactly if the ring already started at slot 0 and its next write would not move that |
| DualSlotFaults.FullRingIsScrambled | src/OpenBrewByWeightDualSlotFlashLog.h:284-325 | a full ring as a save leaves it, which such a roll-back does not restore |
| HistoryLogModule.HistoryLog.Load | src/OpenBrewByWeightDualSlotFlashLog.h:75-127 | the newer valid slot among those that can be read, or the default; a busy lock keeps a live store and marks it for a retry |
| HistoryLogModule.HistoryLog.Save | src/OpenBrewByWeightDualSlotFlashLog.h:129-189 | replaces the inactive slot with the sealed store and flips to it, or reports which state a refused, timed-out or failed save leaves |
| HistoryLogModule.HistoryLog.FlushStep | src/OpenBrewByWeightDualSlotFlashLog.h:191-221 | the flush step of the crash theorems, in place |
| HistoryLogModule.HistoryLog.CompactStore | src/OpenBrewByWeightHistoryTypes.h:142-152 | rotates the ring in place into the compact store |
| HistoryLogModule.HistoryLog.Append | src/OpenBrewByWeightDualSlotFlashLog.h:284-302 | the deferred append keeps the newest records with the next id |
| HistoryLogModule.HistoryLog.AppendNow | src/OpenBrewByWeightDualSlotFlashLog.h:284-325 | a save refused the lock restores exactly the prior log; any other failure reloads, unless another task timed out on the lock meanwhile, which rolls the append back over the packed ring |
| HistoryLogModule.HistoryLog.FindNewestById | src/OpenBrewByWeightDualSlotFlashLog.h:260-265 | the position of the newest record with the id, or none has it |
| HistoryLogModule.HistoryLog.CopyNewestFirst | src/OpenBrewByWeightDualSlotFlashLog.h:267-282 | the newest records, newest first, as far as the output reaches |
| HistoryLogModule.HistoryLog.RemoveById | src/OpenBrewByWeightDualSlotFlashLog.h:327-369 | removes the first record with the id from the listing, now durably or later, or changes no record; a removal whose save failed takes what a load gives |
| HistoryLogModule.HistoryLog.Clear | src/OpenBrewByWeightHistory.h:36-60 | empties the log, now durably or later; deferred it keeps its generation, so the older slot stays older, and a failed save takes what a load gives |
| HistoryLogModule.HistoryLog.CopyPage | src/OpenBrewByWeightHistory.h:62-83 | the page is the stretch of the filtered listing at its offset, with its total |
| HistoryLogModule.HistoryLog.CopyNewest | src/OpenBrewByWeightHistory.h:85-92 | the newest record, which is also the first of the descending listing |
| HistoryLogModule.HistoryLog.CapturePersistenceImage | src/OpenBrewByWeightDualSlotFlashLog.h:225-231 | a dirty log's image equals it; a clean log's image keeps its own records |
| HistoryLogModule.HistoryLog.AcknowledgePersisted | src/OpenBrewByWeightDualSlotFlashLog.h:233-238 | carries slot and generation over and never changes the live records |
| HandOff.AcknowledgeKeepsInv | src/OpenBrewByWeightActivationStores.h:186-200 | an acknowledge changes no live record, and clears dirtiness only when nothing changed since the capture |
| HandOff.FlashOnlyAdvances | src/OpenBrewByWeightActivationStores.h:107-200 | durable contents change only when the worker completes a captured image, to that image's records, and the generation never goes back; asked only of a step that starts a flush: the headroom of `EventIsAtomic` |
| HandOff.CleanMeansDurable | src/OpenBrewByWeightActivationStores.h:107-200 | over any interleaving of mutations, captures, worker steps, acknowledges and power cuts, a clean live log holds exactly what a load would give; the same headroom where a flush starts |
| HandOffRounds.AcknowledgeClearsExactly | src/OpenBrewByWeightActivationStores.h:186-200 | an acknowledge leaves the log clean exactly if it was, or the flush completed and nothing changed since the control task looked |
| HandOffRounds.QuietRoundCleans | src/OpenBrewByWeightActivationStores.h:107-200 | a round with no change and no fault takes 21 worker steps and leaves a dirty log clean, its records untouched and on flash |
| HandOffRounds.BootIsClean | src/OpenBrewByWeightDualSlotFlashLog.h:101-124 | a boot finds the log clean and on flash |
| ActivationStores.OneOperationPerCall | src/OpenBrewByWeightActivationStores.h:107-159 | a service call changes at most the first dirty store from the cursor on, by one flush step |
| ActivationStores.EachCallCounts | src/OpenBrewByWeightActivationStores.h:107-159 | every fault-free call brings completion exactly one call nearer |
| ActivationStores.FlushCompletes | src/OpenBrewByWeightActivationStores.h:107-159 | the calls report completion at exactly the predicted one |
| ActivationStores.FreshFlushLength | src/OpenBrewByWeightActivationStores.h:107-159 | a fresh flush takes 21 calls for each dirty store, and one more unless the last store is dirty |
| ActivationStores.FailuresAreReportedOnce | src/OpenBrewByWeightActivationStores.h:107-159 | a failed store is reported exactly if it had not failed since its last completed flush, as an I/O failure exactly if nobody timed out on the lock meanwhile |
| ActivationStores.BasicActivationStores.ServiceStep | src/OpenBrewByWeightActivationStores.h:107-159 | the call of these theorems, in place: cursor, latches, report, emitted events and the one store it touches |
| AuditCodec.SlotRoundTrip | src/OpenBrewByWeightAuditStore.h:47-111 | an encoded record is never the empty pattern and decodes to itself, excerpt clamped, unless its sequence is zero |
| PackedLayouts.AuditSlotLayout | src/OpenBrewByWeightAuditStore.h:85-111 | an encoded record's bytes: version, fields, words least significant byte first, excerpt cut to 23 characters, zeros, checksum |
| PackedLayouts.DecodedIsEncoded | src/OpenBrewByWeightAuditStore.h:47-111 | a slot that decodes is the encoding of what it decodes to exactly if nothing follows its excerpt |
| PackedLayouts.RecordsExactly | src/OpenBrewByWeightAuditStore.h:47-111 | of the slots with nothing behind the excerpt, exactly the encodings of records with a sequence decode |
| AuditCodec.EncodeRecord | src/OpenBrewByWeightAuditStore.h:85-111 | the byte cursor writes the layout of the round trip |
| AuditCodec.DecodeRecord | src/OpenBrewByWeightAuditStore.h:47-83 | the byte cursor reads it back, or refuses the slot |
| AuditRing.PartialScan | src/OpenBrewByWeightAuditStore.cpp:50-103 | with a slot to spare, the scan finds the window as the last run, merged across the wrap |
| AuditRing.FullScan | src/OpenBrewByWeightAuditStore.cpp:50-103 | with every slot in use, the scan finds the oldest record at the sequence drop |
| AuditRing.TornSlotStillHolds | src/OpenBrewByWeightAuditStore.cpp:50-103 | a slot outside the window may be torn into anything that does not decode |
| AuditRing.ScanRecovers | src/OpenBrewByWeightAuditStore.cpp:50-103 | the scan rebuilds the record list, and the cursor modulo the capacity, from slot contents alone |
| AuditLatch.PushedContents | src/OpenBrewByWeightAuditLog.h:160-192 | the latch keeps the newest records in order |
| AuditLatch.BackfillContinues | src/OpenBrewByWeightAuditLog.h:217-229 | after adopting the durable records nothing is pending and the next sequence continues theirs |
| AuditLatch.AuditLogLatch.AdmitRate | src/OpenBrewByWeightAuditLog.h:254-285 | an event is refused exactly while its code's window is open and full; an admitted one counts in its code's slot, and only the slot with the oldest window gives way when none is free |
| AuditLatch.AuditLogLatch.Add | src/OpenBrewByWeightAuditLog.h:160-192 | an admitted record gets the next sequence and joins the ring; a refused one changes nothing |
| AuditLatch.AuditLogLatch.Adopt | src/OpenBrewByWeightAuditLog.h:217-229 | a durable record joins the ring, moving the sequence and the watermark past it |
| AuditLatch.AuditLogLatch.CopyAfter | src/OpenBrewByWeightAuditLog.h:194-205 | the first retained records later than the cursor |
| AuditLatch.AuditLogLatch.CopyPending | src/OpenBrewByWeightAuditLog.h:231-233 | the first records past the watermark |
| AuditAppend.EraseAheadTracks | src/OpenBrewByWeightAuditStore.cpp:140-178 | erasing ahead drops exactly the oldest sector, and only from a full ring |
| AuditAppend.AppendTracks | src/OpenBrewByWeightAuditStore.cpp:140-178 | under every fault the flash stays the layout of a record list, extended by the record exactly when the append reports success |
| AuditAppend.PageSplits | src/OpenBrewByWeightAuditStore.cpp:180-204 | a page and what follows its resume slot make up what there was |
| AuditAppend.PagesDeliverWindow | src/OpenBrewByWeightAuditStore.cpp:180-204 | paging delivers every retained record after the given sequence once, oldest first |
| AuditStore.AuditStore.FindWindow | src/OpenBrewByWeightAuditStore.cpp:50-103 | the two scan passes find the window of the recovery theorem, or fail on a read error |
| AuditStore.AuditStore.BootOpen | src/OpenBrewByWeightAuditStore.cpp:107-138 | sets the store's state, adopts the window oldest first and writes nothing |
| AuditStore.AuditStore.Append | src/OpenBrewByWeightAuditStore.cpp:140-178 | the append of the theorems, in place, with the retained count |
| AuditStore.AuditStore.CopyAfter | src/OpenBrewByWeightAuditStore.cpp:180-204 | the page of the paging theorem; no page is delivered past an unreadable slot |
| AuditStore.AuditStore.EraseAll | src/OpenBrewByWeightAuditStore.cpp:206-223 | a full erase leaves a blank ready ring, a failed one the old cursors |
| AuditStore.FoundIsReadable | src/OpenBrewByWeightAuditStore.cpp:50-138 | every slot of a window the scan reports decodes |
| AuditStore.AdoptedIsBackfilled | src/OpenBrewByWeightAuditStore.cpp:107-138 | adopting the window slot by slot is the backfill of its records |
| AuditSystem.BootRecovers | src/OpenBrewByWeightAuditStore.cpp:107-138 | a boot on any ring brings back its records, a cursor on the same slot, an empty backlog and an ascending sequence |
| AuditSystem.EventKeepsInv | src/OpenBrewByWeightAuditStore.cpp:107-178 | records, flushes, faults and power cuts at flash-operation boundaries keep flash and memory in agreement |
| AuditSystem.AuditRecovery | src/OpenBrewByWeightAuditStore.cpp:50-178 | over any run from an erased partition, a boot rebuilds exactly the ring the run kept, with the cursor modulo the capacity; what is kept is the newest records written, all of them or at least 15 sectors |
| CrashArchive.DumpNeverLost | src/OpenBrewByWeightCrashArchive.cpp:194-298 | wherever power is cut, the dump is whole in the capture area or held by a valid entry |
| CrashArchive.NewestEntryStays | src/OpenBrewByWeightCrashArchive.cpp:126-148 | at every cut the only valid slot, or of two the one with the higher sequence, is as it was |
| CrashArchive.SealThenErase | src/OpenBrewByWeightCrashArchive.cpp:249-298 | the whole dump is in the slot before its entry is sealed, and the entry is sealed before the capture is erased, as the last operations |
| CrashArchive.DropIsOneErase | src/OpenBrewByWeightCrashArchive.cpp:178-246 | dropping a known dump erases the capture and changes nothing else |
| CrashRetention.DecidedEntry | src/OpenBrewByWeightCrashArchive.cpp:196-252 | an entry names its dump and the boot that crashed, the panic record's or else the one before this; without either nothing is archived |
| CrashRetention.NewDumpIsArchived | src/OpenBrewByWeightCrashArchive.cpp:196-252 | a dump that no valid entry has is archived |
| CrashRetention.FinishedPromotion | src/OpenBrewByWeightCrashArchive.cpp:160-300 | a promotion that runs to its end leaves the dump archived and the capture area free |
| CrashRetention.ArchivedIsNewestExactly | src/OpenBrewByWeightCrashArchive.cpp:244-300 | the entry a promotion completes is above every entry that was valid before, exactly if the sequence did not run out |
| CrashRetention.NumbersRunOut | src/OpenBrewByWeightCrashArchive.cpp:252-252 | a state at the last sequence in which it is not |
| CrashRetention.TwoNewestDumpsHeld | src/OpenBrewByWeightCrashArchive.cpp:125-300 | from an erased archive, over any run of crashes and boots, wherever each is cut: the newest archived dump is in the newest entry, and the one before in the other, unless a rewrite was broken off since |
| CrashArchive.CompareExactly | src/OpenBrewByWeightCrashArchive.cpp:227-246 | a known dump is archived again exactly when a panic record names a boot that no entry of that dump has |
| CrashArchive.ArchivesAgainExactly | src/OpenBrewByWeightCrashArchive.cpp:178-298 | the same for the whole promotion, over both slots |
| CrashArchive.SettledArchivesNothing | src/OpenBrewByWeightCrashArchive.cpp:178-298 | once an entry of the dump agrees with the panic record, no later run of boots archives it |
| CrashArchive.NeverArchivedTwice | src/OpenBrewByWeightCrashArchive.cpp:178-298 | however many boots promote one capture, wherever each is cut and whether the panic record survives, it is archived at most once |
| CrashArchive.NewerPanicArchivesAgain | src/OpenBrewByWeightCrashArchive.cpp:178-298 | a state in which an archived dump is archived again |
| CrashDevice.HistorySlot.Rewrite | src/OpenBrewByWeightCrashArchive.cpp:249-297 | erase, copy and seal a slot, cut after any number of operations |
| CrashDevice.CrashArchiveDevice.CrashArchivePromote | src/OpenBrewByWeightCrashArchive.cpp:178-298 | promotion in place, cut after any number of operations, ends where the value model says and clears the panic record last |
| RelaySections.SectionsKeepPinSafe | src/OpenBrewByWeightMachineRelay.h:38-193 | every critical section keeps the pin closed only under circuitClosed and CLOSED |
| RelaySections.OnlyCommitCloses | src/OpenBrewByWeightMachineRelay.h:412-439 | an open circuit is energized exactly by a commit of the arming generation inside its limit |
| RelaySections.StaleHardCallbackTrips | src/OpenBrewByWeightMachineRelay.h:70-88 | the hard-limit callback trips a close exactly when its stamp is the limit or more after the close, or before it |
| RelaySections.StaleOperationalCallbackTrips | src/OpenBrewByWeightMachineRelay.h:90-108 | the operational callback trips exactly when the close has a limit of its own and the stamp is that much after the close, or before it |
| RelaySections.RelayState.TripRelaySafetyLocked | src/OpenBrewByWeightMachineRelay.h:38-68 | whatever the state was, pin and circuit end open, no commit or promotion under way can take effect any more, no deadline moves, and flags latched before stay |
| RelaySections.RelayState.IndependentSafetyTimerCallback | src/OpenBrewByWeightMachineRelay.h:168-193 | a commanded close ends open with exactly the flag and the fault of the limit that was due, its own if below the hard one, and no commit under way can take effect; without one nothing changes |
| RelaySections.RelayState.RelaySafetyTimerCallback | src/OpenBrewByWeightMachineRelay.h:70-88 | opens the current close, adding the hard flag and naming the hard limit, or changes nothing |
| RelaySections.RelayState.OperationalLimitTimerCallback | src/OpenBrewByWeightMachineRelay.h:90-108 | opens a close with a limit of its own, adding the operational flag and naming that limit, or changes nothing |
| RelaySections.RelayState.BeginArming | src/OpenBrewByWeightMachineRelay.h:361-378 | from here exactly this close may commit, exactly while its limit has not run out; its stamp is new, and flags are kept if preserved and cleared otherwise |
| RelaySections.RelayState.CommitClose | src/OpenBrewByWeightMachineRelay.h:412-439 | commits exactly if nothing moved the generation or the state since arming and time remains; then no other commit is possible, and deadlines and generation stay in either case |
| RelaySections.RelayState.ReassertPin | src/OpenBrewByWeightMachineRelay.h:288-307 | the pin is closed anew only under a live close, an expired one opens with the flag and fault of the limit that was due, and no deadline moves |
| RelaySections.RelayState.CommitPromotion | src/OpenBrewByWeightMachineRelay.h:480-512 | promotes exactly the close it was asked for while it is live and no trip is latched; pin, circuit and generation stay |
| RelaySections.RelayState.ConsumeTripFlag | src/OpenBrewByWeightMachineRelay.h:516-533 | reports and takes one flag; a trip latched before is either reported or still latched, and pin, state and deadlines stay |
| HardwareTimer.IndependentSafetyTimer.Arm | src/OpenBrewByWeightHardwareTimer.h:80-119 | restarts the deadline from now; a refused stop keeps the old one, a later failure leaves none |
| HardwareTimer.IndependentSafetyTimer.Stop | src/OpenBrewByWeightHardwareTimer.h:121-160 | refused while the callback is in flight or by the driver |
| HardwareTimer.IndependentSafetyTimer.AlarmEnters | src/OpenBrewByWeightHardwareTimer.h:225-262 | an alarm of a timer that no longer runs calls nothing |
| RelaySafety.NextKeepsInv | src/OpenBrewByWeightMachineRelay.h:309-512 | every step of every actor keeps the protocol's invariant |
| RelaySafety.RelayDeadline | src/OpenBrewByWeightMachineRelay.h:288-444 | in every interleaving since power-up the pin is closed only under CLOSED, some running timer will open it, a normal close or a candidate not yet extended stays within its operational limit, and any close within 180 s plus what a promotion slipped beyond the arming |
| RelaySafety.OverrunsExactly | src/OpenBrewByWeightMachineRelay.h:480-512 | an extended close can still be energized past 180 s exactly if its promotion slipped by more than its arming had taken |
| RelaySafety.InterruptOpens | src/OpenBrewByWeightMachineRelay.h:168-193 | a fired hardware timer opens the relay |
| RelaySafety.HardCallbackOpens | src/OpenBrewByWeightMachineRelay.h:70-88 | the hard task timer opens a close that has reached its limit |
| RelaySafety.ReCloseNeverExtends | src/OpenBrewByWeightMachineRelay.h:309-360 | closing a closed circuit leaves every timer, limit and generation as it was |
| RelaySafety.TripsCancel | src/OpenBrewByWeightMachineRelay.h:361-439 | a trip or open anywhere between arming and commit cancels the close under way |
| RelaySafety.CancelledNeverEnergizes | src/OpenBrewByWeightMachineRelay.h:361-439 | a cancelled close never energizes the relay |
| RelaySafety.CancelledStaysOpen | src/OpenBrewByWeightMachineRelay.h:361-439 | from a cancelled close, every run up to the next command keeps pin and circuit open |
| RelaySafety.TripFlagsStay | src/OpenBrewByWeightMachineRelay.h:361-378 | a latched trip stays in one of the two flags over every step but a consumption, except exactly over an arming whose snapshot saw no trip |
| RelaySafety.NoTripWhileOpen | src/OpenBrewByWeightMachineRelay.h:361-378 | while the state is neither ARMING nor CLOSED no step before the arming latches a flag |
| RelaySafety.TripsWaitToBeConsumed | src/OpenBrewByWeightMachineRelay.h:361-378 | over every run whose closes begin with no arming left standing, a latched trip stays latched until consumed |
| RelayTrips.InterruptNamesTheLimit | src/OpenBrewByWeightMachineRelay.h:168-193 | the interrupt on a commanded close latches the operational flag alone exactly if the close had a limit below the hard one, else the hard flag alone, and the fault to match |
| RelayTrips.ReassertNamesTheLimit | src/OpenBrewByWeightMachineRelay.h:288-307 | a re-drive that finds the close expired adds the same flag and fault |
| RelayTrips.ServiceNamesTheLimit | src/OpenBrewByWeightMachineRelay.h:535-640 | so does the control task's own deadline check, for the state it had seen |
| RelayTrips.CallbackNamesItsLimit | src/OpenBrewByWeightMachineRelay.h:70-108 | a task timer's callback adds its own flag and fault or changes nothing |
| RelayTrips.LimitsAreRequested | src/OpenBrewByWeightMachineRelay.h:361-512 | over every step the limits are those the last arming was asked for, until a promotion replaces both |
| RelayTrips.InterruptFlagOverRuns | src/OpenBrewByWeightMachineRelay.h:168-193 | over every run since power-up the interrupt latches the hard flag exactly for a close without a shorter limit |
| RelayTrips.InterruptNamesTheRequest | src/OpenBrewByWeightMachineRelay.h:168-378 | whatever runs after the arming of a normal close, the interrupt that opens it reports the limit it was asked for |
| RelayLockout.LockoutExactly | src/OpenBrewByWeightMachineRelay.h:38-68 | over every step a lockout begins exactly at a trip that asks for one, and ends exactly at a trip that does not or at an arming section |
| RelayLockout.LockoutStands | src/OpenBrewByWeightMachineRelay.h:309-333 | locked out at rest, the relay stays so and open over every run without a trip that says otherwise |
| RelayLockout.OpenKeepsTheTrip | src/OpenBrewByWeightMachineRelay.h:446-476 | an open leaves a trip or lockout standing, with fault and flags |
| RelayLockout.ArmingForgetsAllOrNothing | src/OpenBrewByWeightMachineRelay.h:361-378 | an arming forgets every flag and the fault, or keeps all of them |
| RelayLockout.ConsumedOnce | src/OpenBrewByWeightMachineRelay.h:516-533 | a consumption takes its own flag and nothing else |
| Bytes.CounterComesRound | src/OpenBrewByWeightMachineRelay.h:38-46 | a 32-bit counter, such as the generation a cancelled close was stamped with, comes round only after 2^32 moves |
| RelayTimers.StartsFailOnlyInTheDriver | src/OpenBrewByWeightMachineRelay.h:357-394 | in every run since power-up a close finds its task timers stopped, so a start fails exactly if the driver refuses it, and runs for the hard limit or the close's own |
| RelayTimers.StoppingEndsIdle | src/OpenBrewByWeightMachineRelay.h:28-36 | every way of opening ends with both task timers stopped |
| RelayRequests.CloseGoesOnExactly | src/OpenBrewByWeightMachineRelay.h:312-365 | which closes go on to arm, and how every other one is refused: unchanged when locked out, else locked out with its reason and no trip flag |
| RelayRequests.ReassertKeepsOrTrips | src/OpenBrewByWeightMachineRelay.h:288-307 | a re-drive of a live close leaves the pin closed, or trips with the hard flag and no lockout if the pin does not obey |
| RelayRequests.ServiceKeepsALiveClose | src/OpenBrewByWeightMachineRelay.h:535-559 | the service call re-drives a live close and otherwise leaves it as it is |
| RelayRequests.CloseReassertsALiveClose | src/OpenBrewByWeightMachineRelay.h:312-317 | closing the closed circuit is a re-drive |
| RelayRequests.PromotionTakesThreeMinutes | src/OpenBrewByWeightMachineRelay.h:480-512 | a promotion with every call granted restarts both timers for what is left of 180 s and raises both limits |
| RelayRequests.PromotionArmsExactly | src/OpenBrewByWeightMachineRelay.h:487-496 | each of its steps gives up exactly if the driver refuses, a callback is in flight, the timer is not running or no time is left |
| RelayRequests.PromotionFailsOpen | src/OpenBrewByWeightMachineRelay.h:500-513 | one that gave up, or whose close was interfered with, opens the relay and locks it out |
| RelayWitness.StaleStampCancelsLaterClose | src/OpenBrewByWeightMachineRelay.h:90-108 | a reachable run in which a stale stamp cancels a close at age 0 |
| RelayWitness.ArmingClearsALaterTrip | src/OpenBrewByWeightMachineRelay.h:361-378 | a reachable run in which arming clears a trip latched after its snapshot |
| RelayWitness.ArmingEndsALockout | src/OpenBrewByWeightMachineRelay.h:329-378 | a reachable run in which an arming section ends a lockout tripped after its check |
| RelayWitness.PromotionOverrunsBySlip | src/OpenBrewByWeightMachineRelay.h:480-512 | for every slip below 60 s, a reachable run still energized that long past 180 s |
| CorridorSort.SortSmall | src/OpenBrewByWeightCorridor.h:151-157 | sorts the first values in place and leaves the rest |
| CorridorSort.SortedIgnoresOrder | src/OpenBrewByWeightCorridor.h:151-171 | sorting depends on the values only, not on their order |
| CorridorMedian.MedianSplits | src/OpenBrewByWeightCorridor.h:158-163 | at least half of the values lie on each side of the median |
| CorridorMedian.MedianMirrors | src/OpenBrewByWeightCorridor.h:158-163 | changing every sign changes the median's: two middle values are split halfway, rounding toward zero |
| CorridorMedian.MadSplits | src/OpenBrewByWeightCorridor.h:164-171 | at least half of the values lie within the MAD, and at least half no nearer |
| CutLine.CutLineFalls | src/OpenBrewByWeightCorridor.h:88-124 | with non-negative margins the cut line never rises |
| CutLine.CutLineBounds | src/OpenBrewByWeightCorridor.h:88-124 | it stays between floor and ceiling |
| CutLine.NoRampIsSteps | src/OpenBrewByWeightCorridor.h:88-124 | without a ramp it is the step shape |
| CutLineLaws.LineIsFlatOutside | src/OpenBrewByWeightCorridor.h:88-124 | at the ceiling up to its ramp, at the target between the ramps and at the floor after, each ramp as long as set but between delay and wall |
| CutLineLaws.FastRampIsSmooth | src/OpenBrewByWeightCorridor.h:94-108 | down to the target it is a smoothstep, to within one decigram, rounded toward the target |
| CutLineLaws.SlowRampIsSmooth | src/OpenBrewByWeightCorridor.h:109-124 | and so it is below the target |
| CutLineLaws.GuardsBendTheLine | src/OpenBrewByWeightCorridor.h:74-124 | a guard that is off never bends the line, and one that is on gives its whole margin outside the ramp |
| CutLineLaws.PredictionFollowsFlow | src/OpenBrewByWeightCorridor.h:145-149 | the prediction adds the flow's weight rounded down, and the lead at most 4 g of it |
| CutLineLaws.MetIsExact | src/OpenBrewByWeightCorridor.h:296-322 | the line counts as met exactly when weight, reach and the unrounded flow come up to it |
| CutLineLaws.HeavierStopsSooner | src/OpenBrewByWeightCorridor.h:296-322 | a heavier cup or a longer reach never stops later, so there is one answer |
| CutLine.CutLineFitsInt64 | src/OpenBrewByWeightCorridor.h:22-124 | every intermediate and product of the cubic, with the line's own margins and distances, fits a signed 64-bit integer |
| CutLine.MetStays | src/OpenBrewByWeightCorridor.h:298-322 | a line once met stays met |
| CutLine.CrossingMs | src/OpenBrewByWeightCorridor.h:298-322 | the bisection returns the least millisecond that meets the line, in at most 16 halvings |
| RateFit.CrossIsPairs | src/OpenBrewByWeightCorridor.h:251-277 | the scaled cross sum is n times the sum over pairs of products of differences |
| RateFit.ShiftedCross | src/OpenBrewByWeightCorridor.h:251-277 | it does not change when a constant is added |
| RateEstimator.PushKeepsInv | src/OpenBrewByWeightCorridor.h:205-249 | times in the window strictly increase, and after an accepted push all lie within 3 s of the newest |
| RateEstimator.AtMostTwoRejectedInARow | src/OpenBrewByWeightCorridor.h:205-249 | of any three consecutive pushes that are not ignored, one is accepted |
| RateEstimator.GuardMakesDenominatorPositive | src/OpenBrewByWeightCorridor.h:251-277 | the guard on count and span alone makes the denominator positive |
| RateEstimator.FitIsValidExactly | src/OpenBrewByWeightCorridor.h:251-277 | a rate is valid exactly with four samples that span two seconds |
| RateEstimator.FitFitsInt64 | src/OpenBrewByWeightCorridor.h:251-277 | every product, every partial sum and the final numerator of the fit fit a signed 64-bit integer |
| RateEstimator.GateFitsInt64 | src/OpenBrewByWeightCorridor.h:205-236 | so do the products of the outlier gate |
| RateEstimator.RateIgnoresTare | src/OpenBrewByWeightCorridor.h:251-277 | the rate does not depend on the scale's zero |
| RateEstimator.RateNotNegative | src/OpenBrewByWeightCorridor.h:251-277 | non-decreasing weights give a non-negative rate |
| RateLaws.SteadyPourIsMeasured | src/OpenBrewByWeightCorridor.h:251-277 | on samples of a steady pour the raw rate is its flow, exactly |
| RateLaws.SteadyPourIsUsed | src/OpenBrewByWeightCorridor.h:251-277 | and the rate in use is that flow, held between 0 and 4000 |
| RateLaws.LeastSquares | src/OpenBrewByWeightCorridor.h:251-277 | no straight line has a smaller sum of squared errors than the one with the unrounded slope |
| RateLaws.RateIsTheSlope | src/OpenBrewByWeightCorridor.h:251-277 | the raw rate is that slope in dg/s x 100, rounded toward zero |
| RateGate.RecentIsExactly | src/OpenBrewByWeightCorridor.h:209-209 | a reading drops exactly the samples at least 3 s older |
| RateGate.OutlierExactly | src/OpenBrewByWeightCorridor.h:218-238 | an outlier is at least 14 dg and more than 4.5 scaled MADs from the median innovation |
| RateGate.RejectedExactly | src/OpenBrewByWeightCorridor.h:205-238 | refused is exactly an outlier among four samples or more, unless two were refused before it |
| RateGate.ThirdOutlierRestarts | src/OpenBrewByWeightCorridor.h:231-249 | the third one in a row starts over from itself |
| RateGate.AcceptedJoins | src/OpenBrewByWeightCorridor.h:238-249 | an accepted reading joins the newest 31 samples, marked with the flow fitted to them |
| RateGate.SteadyPourStaysMeasured | src/OpenBrewByWeightCorridor.h:205-277 | once measured, a steady pour is measured on: over every run along its line no reading is refused and the flow stays exact |
| RateGate.SurgeExactly | src/OpenBrewByWeightCorridor.h:279-293 | a surge is 30 dg/s or more, half as much again as the flow at the newest sample a second old, if that was a pour |
| RateGate.ChannelingCounts | src/OpenBrewByWeightCorridor.h:290-293 | two accepted surges in a row raise the mark |
| RateGate.ChannelingStays | src/OpenBrewByWeightCorridor.h:290-293 | over every run nothing lowers it |
| RateRing.RateEstimatorRing.PushReading | src/OpenBrewByWeightCorridor.h:174-295 | the push of these theorems on the ring of 32, in place |
| ArrivalStats.FoldKeepsNewest | src/OpenBrewByWeightCorridor.h:413-424 | the fold keeps exactly the ten newest admissible rows and counts all of them |
| ArrivalRecords.PackedVerdict | src/OpenBrewByWeightCorridor.h:355-372 | which bits of the packed byte are the verdict, channeling and blind |
| ArrivalRecords.AdmissionMeans | src/OpenBrewByWeightCorridor.h:426-459 | what counts is the preset's, with its window and goal to 1 g, since the epoch, cut by weight and not cut short |
| ArrivalRecords.CutShortCountsAsSlow | src/OpenBrewByWeightCorridor.h:429-439 | for the hint a shot cut short is slow evidence only |
| ArrivalStats.OrderDoesNotMatter | src/OpenBrewByWeightCorridor.h:486-515 | every field is the same for every permutation of a log with distinct ids |
| ArrivalStats.StatsSummarize | src/OpenBrewByWeightCorridor.h:500-515 | minimum and maximum are the extremes of the kept times, the median lies between them, and sigma is its floor or at most 1.4826 times their distance |
| ArrivalStats.SigmaSplits | src/OpenBrewByWeightCorridor.h:500-515 | sigma is 1.4826 times the distance that half of the times keep to their median, unless it is at its floor |
| ArrivalStats.NewestSlot | src/OpenBrewByWeightCorridor.h:413-424 | a free slot, or the oldest one if the row is newer, or none |
| ArrivalStats.ComputeStats | src/OpenBrewByWeightCorridor.h:486-515 | the statistics of these theorems, computed in place |
| GrindHint.HintDecision | src/OpenBrewByWeightCorridor.h:627-659 | a tier comes with a direction, and never against advice already given; every divisor is positive |
| GrindHintLaws.DirectionIsTheSide | src/OpenBrewByWeightCorridor.h:627-634 | coarser exactly if the level is nearer to the slow end of the window, else finer |
| GrindHintLaws.ZCountsErrors | src/OpenBrewByWeightCorridor.h:627-635 | z is the distance past the comfort band in thousandths of the standard error |
| GrindHintLaws.TierCountsErrors | src/OpenBrewByWeightCorridor.h:563-568 | from three shots on a tier takes 1, 1.645 or 2.33 standard errors beyond the band, and outside dialling in at least 1.645 |
| GrindHintLaws.FirstShotsAreTentative | src/OpenBrewByWeightCorridor.h:638-647 | one shot advises only far outside the window, two from one standard error beyond the band, both tentatively and only while dialling in |
| GrindHintLaws.LikelyExactly | src/OpenBrewByWeightCorridor.h:635-655 | likely or better takes the level, the last three shots outside the window by more than their error, or two slow shots cut short |
| GrindHintLaws.FartherIsStronger | src/OpenBrewByWeightCorridor.h:627-659 | of two levels on one side, the one farther from the middle gives no less of z, tier and size |
| GrindHintLaws.SizeExactly | src/OpenBrewByWeightCorridor.h:581-586 | small within the half-width, large from twice that or a fifth of the middle on |
| GrindHintLaws.ErrorShrinks | src/OpenBrewByWeightCorridor.h:627-633 | the standard error of one shot is the spread, and more shots only lower it |
| GrindHintLaws.WindowHalves | src/OpenBrewByWeightCorridor.h:627-633 | middle and half-width give back the window's ends to a millisecond |
| GrindHintLaws.BandShrinks | src/OpenBrewByWeightCorridor.h:571-575 | the comfort band is at least half the window's half-width, at most all of it or its floor, and shrinks with the spread |
| GrindHintLaws.MovedMeansTowardMiddle | src/OpenBrewByWeightCorridor.h:750-775 | after advice a shot counts as moved exactly if it came out toward the middle from its level, by enough standard errors |
| GrindHintLaws.LevelIsOfTheNewest | src/OpenBrewByWeightCorridor.h:722-734 | a level is of exactly the newest six shots of its stretch that the ring holds |
| GrindHintLaws.ShotOnTrialIsLeftOut | src/OpenBrewByWeightCorridor.h:722-734 | while the last shot is on trial, the level is of exactly the newest six before it |
| GrindHintLaws.LevelDropsExtremes | src/OpenBrewByWeightCorridor.h:592-600 | it is the mean of those shots, of three or more without the fastest and the slowest |
| GrindHintLaws.LevelIsAtLeast | src/OpenBrewByWeightCorridor.h:722-734 | it is marked a lower bound exactly if one of them was clamped or cut short |
| GrindHintLaws.TwoShotsStartASegment | src/OpenBrewByWeightCorridor.h:770-778 | without advice a segment starts exactly at the first of two shots in a row 2.5 standard errors off on one side |
| GrindHintLaws.AdviceStartsSegments | src/OpenBrewByWeightCorridor.h:755-770 | after advice it starts at a shot that moved by two standard errors, or at the first of two that moved by 1.25 |
| GrindHintLaws.NewSegmentIsClean | src/OpenBrewByWeightCorridor.h:737-748 | and forgets what the old one was told |
| GrindHintLaws.AnnouncedExactly | src/OpenBrewByWeightCorridor.h:866-886 | advice is announced as fresh when none stands, again when it grew, once more after three shots, and never on a shot that moved |
| GrindHintLaws.AnnouncementsGrow | src/OpenBrewByWeightCorridor.h:866-886 | what was announced never shrinks while the advice stands |
| GrindHintLaws.AdviceStands | src/OpenBrewByWeightCorridor.h:858-866 | advice stands until the level changes sides or comes back inside the band |
| GrindHintSpread.SpreadSplits | src/OpenBrewByWeightCorridor.h:604-609 | the spread is 1.0486 times the distance that half of the differences keep to their median |
| GrindHintSpread.RecentSpreadIs | src/OpenBrewByWeightCorridor.h:797-812 | the recent spread is that of exactly the differences of neighbouring measured shots among the newest ten, in one segment of three or more, once there are six |
| GrindHintSpread.SpreadIsBlended | src/OpenBrewByWeightCorridor.h:781-796 | a segment feeds the long-run spread once, at its fifth measured shot: the first sets it, later ones move it a quarter of the way, up to 3 s |
| GrindHintSpread.SpreadInUseIsLargest | src/OpenBrewByWeightCorridor.h:812-814 | the spread in use is the largest of a second, the long-run and the recent one |
| GrindHint.DivisorPositive | src/OpenBrewByWeightCorridor.h:627-659 | no division by zero in a segment's evidence |
| GrindHintProofs.PushStaysOrRestarts | src/OpenBrewByWeightCorridor.h:737-856 | a push keeps the segment and its advice, or starts a later one with a clean slate |
| GrindHintProofs.ShownIsAdvised | src/OpenBrewByWeightCorridor.h:858-915 | the shown hint is none or the advised direction |
| GrindHintProofs.OneAdvicePerSegment | src/OpenBrewByWeightCorridor.h:676-915 | over every stream of shots, advice never changes direction within a segment and at most one repeat is announced in it |
| GrindHintProofs.StreamKeepsReplay | src/OpenBrewByWeightCorridor.h:676-915 | over every stream, segment labels in the ring are contiguous runs and sigma is at least one second |
| GrindHintLaws.AdvicePointsAtTheShots | src/OpenBrewByWeightCorridor.h:737-900 | over every stream, whatever is announced points to the side of the window on which the newest shots of the segment lie |
| GrindHintReplay.GrindHintReplay.ReadLevel | src/OpenBrewByWeightCorridor.h:722-734 | the level of the newest kept shots, read from ring cells that still hold them |
| GrindHintReplay.GrindHintReplay.StartNewSegment | src/OpenBrewByWeightCorridor.h:737-748 | relabels the shots from the new start and clears the segment's advice |
| GrindHintReplay.GrindHintReplay.RefreshSigma | src/OpenBrewByWeightCorridor.h:781-814 | seeds the long-run spread and takes the larger of it, the recent spread and one second |
| GrindHintReplay.GrindHintReplay.PushShot | src/OpenBrewByWeightCorridor.h:829-856 | one shot through the replay, in place, as the stream theorems have it |
| GrindHintReplay.GrindHintOf | src/OpenBrewByWeightCorridor.h:918-930 | the hint of a log is the replay of its admissible rows with ascending ids |
| JsonProofs.ScannerAcceptsTheGrammar | src/OpenBrewByWeightJsonArena.h:27-165 | a text is accepted exactly if it is a document of the RFC 8259 grammar with at most maxValues values, and `values` is the tree's count |
| JsonGrammar.WhiteSpaceOfTheStandard | src/OpenBrewByWeightJsonArena.h:27-110 | white space is that of RFC 8259 |
| JsonGrammar.DigitsOfTheStandard | src/OpenBrewByWeightJsonArena.h:27-110 | so are digits, hexadecimal digits and exponent marks |
| JsonGrammar.EscapesOfTheStandard | src/OpenBrewByWeightJsonArena.h:27-110 | so are the two-character escapes |
| JsonGrammar.WordsOfTheStandard | src/OpenBrewByWeightJsonArena.h:27-165 | so are the literal words and the structural characters |
| JsonGrammar.ExponentOfTheStandard | src/OpenBrewByWeightJsonArena.h:27-110 | and an exponent takes at most one sign |
| JsonDepth.RecursionIsBounded | src/OpenBrewByWeightJsonArena.h:132-196 | on any text the nesting pre-pass lets through, well formed or not, object and array recursion never nests deeper than 32 |
| JsonNesting.DocumentsPassExactly | src/OpenBrewByWeightJsonArena.h:167-194 | of the documents of the grammar, the pre-pass lets through exactly those nested at most 32 deep |
| JsonScanner.JsonStructureScanner.ScanAnyValue | src/OpenBrewByWeightJsonArena.h:111-158 | the recursive scanner advances its cursor and counter as the value scanner does |
| JsonScanner.JsonNestingWithinLimit | src/OpenBrewByWeightJsonArena.h:167-194 | the pre-pass loop |
| JsonScanner.JsonStructureAccepted | src/OpenBrewByWeightJsonArena.h:196-203 | accepts exactly the documents in budget and flags the ones over it |
| JsonScanner.WithinLimits | src/OpenBrewByWeightJsonArena.h:228-242 | lets through exactly the documents of the grammar within the size, nesting and value limits, and their scan never nested deeper than 32 |
| Ewma.WinnerIsUnique | src/OpenBrewByWeightBbwEwma.h:57-76 | at most one challenger is strictly below every other score and a tenth below the incumbent's |
| EwmaLaws.FullGainPredictsTheLast | src/OpenBrewByWeightBbwEwma.h:44-69 | at gain 100 the prediction is the last observation, held in range |
| EwmaLaws.StepClosesItsShare | src/OpenBrewByWeightBbwEwma.h:44-69 | an observation in range leaves exactly (100 - gain)/100 of the error |
| EwmaLaws.SteadyDripIsLearnt | src/OpenBrewByWeightBbwEwma.h:44-69 | a drip that stays the same is learnt geometrically |
| EwmaLaws.LearningClosesItsShare | src/OpenBrewByWeightBbwEwma.h:13-22 | the offset in use moves by gain/100 of a shot's miss, toward it |
| EwmaLaws.LearnsExactly | src/OpenBrewByWeightBbwEwma.h:13-22 | a shot is learnt from exactly if it was accepted, its observation is at most 5 g and the gain is from 1 to 100 |
| EwmaLaws.PerfectScoreExactly | src/OpenBrewByWeightBbwEwma.h:57-69 | a score is never negative, and 0 exactly for a gain that predicted all it is judged by |
| EwmaLaws.PerfectGainStays | src/OpenBrewByWeightBbwEwma.h:57-87 | a gain that was never wrong is never replaced |
| EwmaRuns.SwitchesAreSpaced | src/OpenBrewByWeightBbwEwma.h:37-87 | over any calls the gain switches only at multiples of 5 observations, never before the 25th, and at least 15 apart |
| EwmaRuns.SwitchNeedsTwoWins | src/OpenBrewByWeightBbwEwma.h:57-87 | a switch goes to a candidate that beat the incumbent trajectory at this evaluation and at the one before |
| EwmaRuns.JudgedByItselfExactly | src/OpenBrewByWeightBbwEwma.h:28-69 | the incumbent trajectory is the one of the gain in use exactly if that gain is a candidate or the one of the first observation |
| EwmaRuns.AnotherGainIsJudgedByTheFirst | src/OpenBrewByWeightBbwEwma.h:28-69 | two calls over one evidence, after which a gain of 40 is judged by the trajectory of 20 |
| EwmaRuns.OffsetFollowsItsGains | src/OpenBrewByWeightBbwEwma.h:13-87 | over any shots, across every switch, the learnt offset is the prediction of the gains in use when each observation was learnt, and the gain in use is judged by its own trajectory |
| EwmaRuns.OneGainPredicts | src/OpenBrewByWeightBbwEwma.h:13-23 | without a switch that prediction is the trajectory of the one gain |
| EwmaEvidence.EwmaEvidence.MoveAnchors | src/OpenBrewByWeightBbwEwma.h:44-50 | the anchors take in the observation that is about to be overwritten |
| EwmaEvidence.EwmaEvidence.ScoreOf | src/OpenBrewByWeightBbwEwma.h:57-69 | anchor and ring give the sum of squared one-step errors over the last 20 of the whole history from the seed |
| EwmaEvidence.EwmaEvidence.PickWinner | src/OpenBrewByWeightBbwEwma.h:70-77 | the tie-tracking loop finds the unique winner or none |
| EwmaEvidence.EwmaEvidence.Observe | src/OpenBrewByWeightBbwEwma.h:37-87 | the bounded state always answers as a replay of the whole history would |
| CurveHashes.StoredIds | src/OpenBrewByWeightNetwork.cpp:87-100 | everything inserted is stored until 512 distinct ids have come, and exactly 512 afterwards |
| CurveHashes.StoredExactly | src/OpenBrewByWeightNetwork.cpp:72-101 | after any insertions an id is answered exactly if one of them came in time, with the value of its latest |
| CurveHashTable.InsertKeepsChains | src/OpenBrewByWeightNetwork.cpp:87-100 | filling the first empty cell of a probe chain keeps every chain unbroken |
| CurveHashTable.AdmitsExactly | src/OpenBrewByWeightNetwork.cpp:72-101 | the table has an empty cell exactly while it holds fewer than 512 entries |
| CurveHashTable.StatsCurveHashCache.Find | src/OpenBrewByWeightNetwork.cpp:76-85 | the map's value, or absent |
| CurveHashTable.StatsCurveHashCache.Insert | src/OpenBrewByWeightNetwork.cpp:87-100 | updates the map, admitting a new id only below the capacity |
| DebugSequence.LaterExactly | src/OpenBrewByWeightDomain.h:2367-2375 | an event compares as later exactly while it is less than 2^31 ahead, one less across the wrap |
| DebugSequence.HalfwayAcrossTheWrap | src/OpenBrewByWeightDomain.h:2367-2375 | the pair of events that shows the difference |
| DebugSequence.CursorReadsExactly | src/OpenBrewByWeightDomain.h:2294-2330 | a cursor less than 2^31 - 1 behind gets every retained later event once and in order, and missedEvents is the number of later ones overwritten, including across the wrap |
| DebugReader.ReaderAccountsForEverything | src/OpenBrewByWeightDomain.h:2294-2330 | over any run of logging and paging, events are delivered in order, and delivered plus missed is all of them from the first one delivered |
| DebugReader.PageCatchesUp | src/OpenBrewByWeightDomain.h:2294-2330 | a page with room to spare ends at the newest event |
| DebugReader.RefusedExactly | src/OpenBrewByWeightDomain.h:2302-2315 | within half the sequence space a cursor is refused exactly if its event is not logged yet |
| DebugReader.RefusedStartsOver | src/OpenBrewByWeightDomain.h:2294-2330 | after a refused cursor the next page starts at the oldest retained event |
| DebugRing.LatestNamesTheNewestExactly | src/OpenBrewByWeightDomain.h:2365-2365 | the latest sequence names the newest event except just after the wrap, where it reads 0 |
| DebugRing.DebugRingBuffer.Add | src/OpenBrewByWeightDomain.h:2265-2292 | the ring holds the newest 512 events with their sequences and the overwritten count |
| DebugRing.DebugRingBuffer.CopyAfter | src/OpenBrewByWeightDomain.h:2294-2330 | copies what the cursor asks for as far as the output reaches, with the metadata of the theorems |
| DebugRing.DebugRingBuffer.LatestSequence | src/OpenBrewByWeightDomain.h:2365-2365 | one less than the next sequence, or 0 |
| SessionOverrides.SetOneValue | src/OpenBrewByWeightIntegrationState.h:61-75 | setting one quick value changes that value alone, not even the option bits packed with the mode |
| SessionOverrides.RepackingIsExact | src/OpenBrewByWeightDomain.h:116-143 | setting the mode again restores exactly the bytes without reserved bits |
| SessionOverrides.PackingFillsItsBits | src/OpenBrewByWeightDomain.h:116-143 | packing sets no reserved bit, whatever value is given, and puts both options in their bits |
| SessionOverrides.OverlayIs | src/OpenBrewByWeightIntegrationState.h:130-141 | a configuration is an overlay exactly if it has the overlay's quick values and is the same elsewhere |
| SessionRuns.ReconciledFields | src/OpenBrewByWeightIntegrationState.h:158-178 | reconciling drops exactly the overrides a persisted change replaced, and a preset change restores the saved device values |
| SessionRuns.OverridesAreInvisible | src/OpenBrewByWeightIntegrationState.h:130-178 | after any run, the hidden values over the effective configuration give the persisted one to the last option bit, and the session values over the persisted one give the effective |
| SessionRuns.PresetChangeLeavesNoOverride | src/OpenBrewByWeightIntegrationState.h:158-178 | activating another preset leaves no override and the persisted values, with the new preset's, in force |
| SessionLaws.OverridesAreTheDifferences | src/OpenBrewByWeightIntegrationState.h:89-178 | after any run an override is held for exactly the settings in force that are not the persisted ones |
| SessionLaws.ChangeTakesEffect | src/OpenBrewByWeightIntegrationState.h:142-155 | a change puts its value in force, touches nothing else and nothing persisted, and is held exactly if it differs from the persisted value |
| SessionLaws.ChangeSetsTheSetting | src/OpenBrewByWeightIntegrationState.h:60-74 | and the setting it changes is the one the command names |
| SessionLaws.RevertRestores | src/OpenBrewByWeightIntegrationState.h:130-178 | a revert leaves no override and the persisted settings in force |
| SessionLaws.EditDropsExactly | src/OpenBrewByWeightIntegrationState.h:157-178 | a settings edit drops exactly the overrides of the settings it changed, and the others stay in force |
| SessionSettings.SessionQuickSettings.Overlay | src/OpenBrewByWeightIntegrationState.h:130-141 | the overlay loop |
| SessionSettings.SessionQuickSettings.Set | src/OpenBrewByWeightIntegrationState.h:143-156 | a session change in place; matching the saved value drops the override |
| SessionSettings.SessionQuickSettings.Reconcile | src/OpenBrewByWeightIntegrationState.h:158-178 | the reconciling loop of the run theorems |

## Left out

- Torn writes: each erase or program happens whole or not at all. The audit scan alone also tolerates undecodable slots outside its window (`AuditRing.TornSlotStillHolds`); appending over such a slot is not part of this model.
- HistoryLogModule.HistoryLog.Save: a failing save leaves an arbitrary slot here; what its cuts leave between operations is `DualSlotSaves.SaveCutKeepsLoad`, which rests on the checksum telling the half-written slot from the whole one.
- DualSlotLog.CrashAtomicity: a flush that starts finds a generation below 2^32 - 1 and less than 2^31 - 1 flushes begun since the last durable one; `CutAfterCommit` gives the exact condition beyond. The same holds for DualSlotLog.EventIsAtomic and the hand-off theorems.
- ActivationStores.BasicActivationStores.ServiceStep: the three stores share the history log's geometry, because the shot log's and the curves' layouts are not part of this model; an event sink is always present.
- AuditSystem.AuditRecovery: the cursor is not bounded to 32 bits, sequences stay below 2^32 - 1, the partition starts erased, and an erase-all cut part-way is not an event.
- CrashRetention.TwoNewestDumpsHeld: at most 2^32 - 1 dumps are archived; `ArchivedIsNewestExactly` is the exact condition for each. Read and write errors of the partitions are not modelled, only power cuts.
- RelaySafety.RelayDeadline: outside compatibility mode, with no external feedback or heartbeat hardware, and with trips from other files as arbitrary foreign trips; fairness of the callbacks is not stated, `InterruptOpens` and `HardCallbackOpens` say what they do when they run.
- RateEstimator.FitFitsInt64: the estimator's integers are unbounded elsewhere; times of one shot are assumed not to wrap.
- GrindHintReplay.GrindHintReplay.PushShot: shot counts and sigma are unbounded integers, so wrap-around after 2^32 shots is not modelled.
- EwmaRuns.OffsetFollowsItsGains: a run lasts until the preset's learning state is reset by a command; the quick start, after which the offset goes on from the median of three shots, is not modelled.
- EwmaEvidence.EwmaEvidence.Observe: grams are reals, so float rounding and the non-finite guards are not modelled.
- DebugReader.ReaderAccountsForEverything: the ring is not cleared during the run, and the reader stays less than 2^31 - 1 events behind.
- SessionSettings.SessionQuickSettings.Set: the byte of mask bits is a sequence of seven flags. Duration, policy and timers of the session are left out, and so is the legacy preset form that saves device switches without naming them as an edit.
- JsonProofs.ScannerAcceptsTheGrammar: UTF-8 validity is not checked by the scanner and not part of the grammar here; the JSON library behind it is not modelled.
- The plateau flow, first-drop statistics, `lossDeadline`, verdict packing and alerts: single expressions or folds like those proved.
- `countAfter` and `copyFirstAfter` of the debug ring, which only host tests call.
- ESP-IDF, FreeRTOS, Wi-Fi, HTTP, NVS and cJSON: abstract steps, parameters, or absent. Checksums and digests are parameters.
- Cup sensing, momentary run inference, buzzer, validators, name tables, the Web UI and the build tooling: many branches, no property that spans them.
