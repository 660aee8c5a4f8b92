# RansomShield: a verified model

RansomShield is a Windows minifilter that counts the writes, renames and deletes of every process in a
sliding time window and denies a process that exceeds a threshold, until an administrator unblocks it.
This project models its driver, the user-mode client that configures it and the tray agent that shows its
alerts, and proves what they promise. `dafny verify dfyconfig.toml` checks everything.

## How the model is built

One sequential specification, `Kernel.dfy`, says what the tracker is: a map from PID to context, a
configuration, a list of exempt names and a message counter, changed by one event per region that the C
code runs under `g_ContextLock`. Everything else refines it or is a theorem about its runs.

- `SlidingWindow` is the mathematics of the window: the bounded ring against the unbounded log.
  `Kernel` proves the theorems about whole runs (who gets blocked, sticky block, clean unblock, pause),
  `Retention` exactly what the ring still holds and when it decides as the log would, whatever the clock and
  the configuration did, and `DetectionRate` when exactly a writer is caught.
- `Names` and `Operations` are file names and file operations. `ProcessContexts`, `LinkedList`,
  `ContextTables`, `Trackers`, `Allowlist` and `Drivers` are the driver's own data structures: the ring
  buffer in place in an array, `LIST_ENTRY` nodes with both pointers on the heap, 1021 buckets, the name
  rows, the globals and the lock. Every method is proved to act as one event.
- `Threads`, `ThreadInvariant`, `ThreadSteps`, `ThreadOrder`, `ThreadAdmission`, `ThreadProgress`,
  `ThreadOutcomes` and `ThreadTheorems` put any number of threads inside the driver at once, callbacks and message regions,
  interleaved step by step, and prove memory and lock safety, ownership of contexts, linearizability,
  conservation of notifications, safety of denials and progress. An event is placed in the history where its
  thread holds the lock for the last time before its answer is fixed.
- `CommPort` and `Dispatcher` are the ten-message callback, `CommManager` its client, `ConfigManager` the
  settings in the registry, `InterleavedPush` the push among other threads, `Exemption` the path of a name
  from the settings to the verdict, `Callbacks` the decisions on file operations on the driver object, and
  `Alerts` the queue between the listener and the tray window.

## Where the code and its documentation differ

The model follows the code.

- "Even a slow ransomware (10 files/minute) will be caught" and rate throttling is "impossible" as an
  evasion (LITERATURE.md:820-822): with the defaults such a writer is never caught
  (`DetectionRate.TenFilesAMinuteEscapes`); `DetectionRate.CaughtIffBurst` says exactly who is.
- Pause is described as "stop blocking" (usermode/common/SharedDefs.h:213): a process that is already
  blocked stays denied (`Kernel.BlockIsSticky`); only new blocks stop (`Kernel.PauseBlocksNothingNew`).
- The monitoring flag of an update is described as ignored if neither threshold nor window changes
  (usermode/common/SharedDefs.h:423): it is always applied (`Kernel.SettingsAreLatest`).
- The window is described with `<` (kernel/RansomShield.h:126): the code uses `<=`
  (`DetectionRate.WindowIsClosed`).
- An allowlist upload is described as replacing the list (usermode/common/SharedDefs.h:37-38): it appends
  (`CommPort.UploadAppends`), and only the clear before it makes a push a replacement.
- A bound of 1024 tracked processes is announced (kernel/RansomShield.h:95-98): nothing enforces it
  (kernel/RsContext.c:625-630), and `DetectionRate.AnyNumberTracked` shows runs with any number of them.

## Model

| member | source | states |
|---|---|---|
| `SlidingWindow.RingIsLastWithin` | kernel/RsContext.c:678-702 | in timestamp order and with the window never widened, the bounded ring is exactly the last 256 entries of the unbounded log that lie in the current window |
| `SlidingWindow.StepKeepsLastWithin` | kernel/RsContext.c:678-702 | one prune-and-append takes "the last 256 in the window" of a log to the same of the longer log |
| `SlidingWindow.RecountAgrees` | kernel/RsContext.c:717-740 | the second counting loop always finds every entry the prune left plus the new one, for any ring and any timestamps |
| `SlidingWindow.RingNeverOvercounts` | kernel/RsContext.c:832-889 | with no assumption on clock order or window, the ring never shows more in a window than the unbounded log does |
| `Retention.CountsAgreeIffKept` | kernel/RsContext.c:684-740 | with no assumption: the ring shows as much of a window as the unbounded log iff every entry in that window was kept, that is, was in the window of every record after it and never had 256 newer entries beside it |
| `Retention.SlotsAreKept` | kernel/RsContext.c:678-702 | an entry of the log is in the ring iff no later record pruned it and no later record overwrote it, said of timestamps and windows alone |
| `Retention.ShortLogKeeps` | kernel/RsContext.c:691-702 | up to 256 records nothing is overwritten: an entry is kept iff no later record found it older than its own window |
| `Retention.BlocksIffKept` | kernel/RsContext.c:758-770 | for every run: a recording blocks iff monitoring is on and threshold-many entries were kept; it decides as the unbounded log iff it kept that many, or there were not that many to keep, or monitoring is off |
| `Retention.WideningMisses` | kernel/RsContext.c:1130-1133 | a run from the initial state with windows of 1 and then 10 seconds: three operations in the window at a threshold of three, and no block |
| `Retention.DisorderMisses` | kernel/RsContext.c:584-590 | the same within one window of 1 second, a timestamp read before the lock arriving late |
| `Kernel.RingReplaysLog` | kernel/RsContext.c:590-702 | after every run a PID has a context iff something was logged for it since its last unblock, and the ring is the replay of that log |
| `Kernel.NoFalseBlock` | kernel/RsContext.c:734-770 | a PID turns blocked only while monitoring is on and with at least threshold-many logged operations of age at most the current window; nothing is assumed of clock or configuration history |
| `Kernel.BlocksExactlyLikeLog` | kernel/RsContext.c:758-770 | with ordered timestamps and no widening, the ring decides iff the unbounded log would, for thresholds up to 256; above 256 nothing is ever blocked |
| `Kernel.BlockHasCause` | kernel/RsContext.c:758-770 | for every blocked PID of every run there is an earlier operation of its own that tripped the threshold, its time is kept as that of the block, and no unblock since |
| `Kernel.BlockIsSticky` | kernel/RsContext.c:598-602 | once blocked, the context is frozen and every recording is denied without a second notice, through pause, resume and any update, until an unblock of that PID |
| `Kernel.UnblockIsClean` | kernel/RsContext.c:913-929 | after an unblock the next block of that PID is supported by threshold-many operations recorded after it |
| `Kernel.PauseBlocksNothingNew` | kernel/RsCommPort.c:797-799 | while monitoring stays off no PID becomes blocked, blocked ones stay so unless unblocked, and every operation of an unblocked PID enters its log |
| `Kernel.PauseKeepsTracking` | kernel/RsCommPort.c:829-831 | however monitoring is resumed and whatever else happens before and after, the first operation then recorded for a PID is denied iff monitoring is still on and the ring, with everything recorded during the pause, reaches the threshold in force |
| `Kernel.SettingsAreLatest` | kernel/RsContext.c:1127-1134 | over every run, threshold and window are those of the latest update naming a positive one, and the monitoring flag that of the latest update, pause or resume |
| `Kernel.ReachableIsSound` | kernel/RsContext.c:1126-1134 | in every reachable state threshold and window are at least 1, the tick count is exactly seconds times 10^7 and fits, rings hold 1 to 256 entries, names fit their rows, and PIDs 0 and 4 are not tracked |
| `Kernel.TrackedCountFits` | kernel/RsContext.c:667-668 | distinct 32-bit PIDs other than 0 and 4: the tracked-PID counter cannot wrap |
| `Kernel.DeniedIffBlocked` | kernel/RsContext.c:758-808 | a recording answers "block" iff its PID is blocked afterwards, gives a notice iff it was not blocked before, and leaves every other PID alone |
| `Kernel.RecordingDecides` | kernel/RsContext.c:671-808 | a recording touches its own context only; it blocks iff monitoring is on and the ring then holds threshold-many; the time becomes that of the last activity and of the block; the notice, there iff it blocks, carries PID, name, time and the number of timestamps |
| `Kernel.NameOfCreation` | kernel/RsContext.c:474-509 | the recording that finds no context fixes the name, none or the first 259 characters, through whatever follows until an unblock of that PID |
| `Kernel.NameHasSource` | kernel/RsContext.c:474-509 | conversely, the name of every context of every run comes from the recording that created it |
| `Kernel.NoticeHasSource` | kernel/RsContext.c:772-778 | ...and so does the name in every notice |
| `Kernel.BlockedAmongTracked` | kernel/RsContext.c:1199-1210 | the blocked count is at most the tracked count |
| `DetectionRate.CaughtIffBurst` | kernel/RsContext.c:758-770 | under a steady configuration a PID ends up blocked iff monitoring is on, the threshold is at most 256, and some threshold-many consecutive operations of its own span no more than the window |
| `DetectionRate.DefaultsCatch` | usermode/common/SharedDefs.h:120-122 | with the defaults: blocked iff some 50 operations in a row span at most 100,000,000 ticks |
| `DetectionRate.WindowIsClosed` | kernel/RsContext.c:863 | an operation exactly one window old still counts, and one tick later no longer |
| `DetectionRate.AnyNumberTracked` | kernel/RsContext.c:625-630 | for every n up to the number of PIDs that can be recorded, some run tracks exactly n: there is no cap |
| `DetectionRate.SlowWriterEscapes` | LITERATURE.md:820-822 | a writer whose threshold - 1 gaps exceed the window is never blocked, however long it goes on |
| `DetectionRate.TenFilesAMinuteEscapes` | LITERATURE.md:821-822 | refutes the stated example: with the defaults, ten files a minute are never caught |
| `ProcessContexts.WriteAppends` | kernel/RsContext.c:684-690 | writing at the head slot and advancing it appends to the oldest-first reading of a ring that is not full |
| `ProcessContexts.WriteOverwrites` | kernel/RsContext.c:691-702 | ...and in a full ring drops exactly the oldest entry |
| `ProcessContexts.ProcessContext.PruneOldOperations` | kernel/RsContext.c:832-889 | the ring, oldest first, becomes the in-window entries of the old ring, in order, despite the wrap-around |
| `ProcessContexts.ProcessContext.CollectRecent` | kernel/RsContext.c:849-875 | the scanning loop leaves the in-window entries, in order, in the front of the linear buffer |
| `ProcessContexts.ProcessContext.CopyBack` | kernel/RsContext.c:883-888 | the compacted entries are the whole ring afterwards |
| `ProcessContexts.ProcessContext.Append` | kernel/RsContext.c:684-702 | the ring becomes the last 256 of the old ring and the new time |
| `ProcessContexts.ProcessContext.CountRecent` | kernel/RsContext.c:717-740 | counts exactly the entries of age at most the window, through the wrap-around |
| `ProcessContexts.ProcessContext.Evaluate` | kernel/RsContext.c:707-778 | blocks iff the count reaches the threshold while monitoring is on, and copies out the notice of that very block |
| `ProcessContexts.ProcessContext.RecordAndEvaluate` | kernel/RsContext.c:671-787 | in place, has the effect and the notice that the sequential specification gives a recording |
| `ProcessContexts.ProcessContext.constructor` | kernel/RsContext.c:394-458 | a context out of the pool is the empty ring of an unblocked process; its name is empty, or the first min(length, 259) characters of the image name |
| `LinkedList.InsertHeadList` | kernel/RsContext.c:667 | the pointer surgery leaves a well-formed circular doubly linked list with the entry in front |
| `LinkedList.RemoveEntryList` | kernel/RsContext.c:923 | ...and unlinks exactly the given entry |
| `LinkedList.RemoveHeadList` | kernel/RsContext.c:255 | ...and unlinks and returns the first entry |
| `ContextTables.ContextTable.constructor` | kernel/RsContext.c:179-217 | 1021 self-linked heads stand for the empty map |
| `ContextTables.ContextTable.Lookup` | kernel/RsContext.c:321-353 | walking the chain of bucket pid % 1021 finds the context of the PID iff the map has one |
| `ContextTables.ContextTable.Insert` | kernel/RsContext.c:660-668 | the map gains the PID, every bucket stays well-formed and correctly placed, and the counter equals the map size without wrapping |
| `ContextTables.ContextTable.Remove` | kernel/RsContext.c:917-924 | the map loses exactly that PID, everything else as before, counter included |
| `ContextTables.ContextTable.Destroy` | kernel/RsContext.c:234-272 | every context is freed exactly once, none other is, and the table is empty |
| `ContextTables.HashSpreads` | kernel/RsContext.c:278-298 | the reason for a prime: of 1021 consecutive multiples of 4 no two share a bucket |
| `ContextTables.LocatedAfterInsert` | kernel/RsContext.c:656-669 | placement (each context in the bucket its PID hashes to, no PID twice) survives an insertion at the head of the chain |
| `ContextTables.LocatedAfterRemove` | kernel/RsContext.c:917-924 | ...and the removal of any entry |
| `ContextTables.ContextTable.OthersStillChained` | kernel/RsContext.c:345-350 | a change confined to one bucket leaves the chains of the 1020 others well-formed |
| `Trackers.Tracker.RecordIfTracked` | kernel/RsContext.c:590-609 | the first region records into the map iff the PID is tracked, and otherwise changes nothing |
| `Trackers.Tracker.RecordWith` | kernel/RsContext.c:640-669 | the second region has the effect and answer of one atomic recording, whether its own allocation wins or another thread was faster |
| `Trackers.Tracker.Forget` | kernel/RsContext.c:905-930 | the map loses the PID and nothing else |
| `Trackers.Tracker.GetPidCounts` | kernel/RsContext.c:1186-1213 | the walk counts each blocked PID once: exact blocked count, exact map size |
| `Trackers.Tracker.GetBlockedPids` | kernel/RsContext.c:963-1006 | a report on the snapshot of blocked contexts: pairwise distinct PIDs with their own data, exactly min(MaxEntries, number blocked), hence all when they fit |
| `Trackers.SnapshotCount` | kernel/RsContext.c:1199-1210 | the snapshot has as many contexts as the blocked count that a client is told in the same state |
| `Trackers.WholeReport` | kernel/RsContext.c:980-1003 | a walk that stopped early filled the buffer; one that did not reported every blocked PID |
| `Trackers.ReportIsFaithful` | kernel/RsContext.c:984-1000 | in terms of the table: at most as many as fit, distinct, all blocked, each with name, time of the block and ring length of its context; all that are blocked if there is room left |
| `Trackers.ReportHasCause` | kernel/RsContext.c:984-1000 | in a report after any run, each entry has the time of the operation that tripped and the name that came with the operation that created the context |
| `Trackers.Tracker.Destroy` | kernel/RsContext.c:234-272 | teardown leaves the empty map |
| `Drivers.Driver.constructor` | kernel/RsContext.c:179-217 | a loaded driver stands for the initial state of the sequential specification |
| `Drivers.Driver.RecordUnderLock` | kernel/RsContext.c:584-789 | double-checked creation: one atomic recording, or nothing at all when the pool has no memory; the lock is never re-acquired, is released on every path and is not held at the allocation |
| `Drivers.Driver.RecordOperation` | kernel/RsContext.c:557-811 | one recording, or nothing without memory; then, iff it blocks the PID anew and a client is connected, one sequence number and one notification with PID, name, time and count of that block; a new context takes its name from this image; configuration, names and other PIDs are untouched |
| `Drivers.Driver.SendBlockNotification` | kernel/RsCommPort.c:320-433 | takes one number iff a client is connected, with the lock given back before sending |
| `Drivers.Driver.ApplyConfig` | kernel/RsContext.c:1119-1139 | acts as the Configure event, whose effect over runs is Kernel.SettingsAreLatest |
| `Drivers.Driver.UnblockProcess` | kernel/RsContext.c:946-951 | acts as the Unblock event, whose effect over runs is Kernel.UnblockIsClean |
| `Drivers.Driver.IsProcessAllowlisted` | kernel/RsContext.c:1032-1112 | true iff the text after the last backslash equals a built-in or a pushed name up to case, without a case table iff it is one of them; changes nothing |
| `Drivers.Driver.ReadConfig` | kernel/RsCommPort.c:735-740 | number and configuration are of one instant |
| `Drivers.Driver.ReadNames` | kernel/RsCommPort.c:768-775 | number and list are of one instant, and the rows read back as the names pushed |
| `Drivers.Driver.DestroyContextTracking` | kernel/RsContext.c:234-272 | with no call in flight, empties the table and nothing else |
| `Names.FileNameIsTail` | kernel/RsContext.c:1053-1072 | what is compared has no backslash and is the whole path or preceded by one |
| `Names.FileNameOf` | kernel/RsContext.c:1053-1072 | for any folder and any name without a backslash, exactly the name is compared |
| `Names.OnlyNamedFilesExempt` | kernel/RsContext.c:1075-1111 | as long as no pushed name is empty, a path that ends in a backslash is exempt from nothing |
| `Names.ExemptPlain` | kernel/RsContext.c:1075-1111 | without a case table an image is exempt iff its file name is a built-in or a pushed one, character for character |
| `Names.BuiltInOnly` | kernel/RsContext.c:116-127 | with nothing pushed, exactly the ten built-in programs are exempt |
| `Allowlist.EqualNames` | kernel/RsContext.c:1078 | the comparison as a loop: equal iff of the same length with the same folded character at each position; hence equal to itself, and without a case table to nothing else |
| `Allowlist.SearchNames` | kernel/RsContext.c:1077-1082 | finds the name iff some entry equals it up to case, without a case table iff it is an entry |
| `Allowlist.FindFileName` | kernel/RsContext.c:1053-1058 | the forward scan finds the text after the last backslash |
| `Allowlist.DynamicAllowlist.Add` | kernel/RsContext.c:1156-1183 | the list gains the entry cut at 259 characters and at its first NUL; empty entries and those beyond the 128th are dropped |
| `Allowlist.DynamicAllowlist.Clear` | kernel/RsContext.c:1142-1153 | the list is empty afterwards |
| `Allowlist.DynamicAllowlist.Search` | kernel/RsContext.c:1093-1103 | finds the name iff some pushed entry equals it up to case, without a case table iff it is one |
| `ThreadTheorems.NoFault` | kernel/RsContext.c:584-811 | no step uses, walks over or frees a context that is gone, re-acquires the lock, releases it unheld, or allocates or sends under it |
| `ThreadTheorems.MutualExclusion` | kernel/RsContext.c:590-669 | at most one thread is inside a region, the one that holds the lock |
| `ThreadTheorems.AllocationsAccountedFor` | kernel/RsContext.c:618-669 | every allocated context is exactly one of linked, held by one thread, or freed once: allocations = frees + linked + held |
| `ThreadTheorems.SharedStateReplays` | kernel/RsContext.c:584-811 | table, configuration, names and counter are what the atomic events, run in the order of their last locked regions, lead to |
| `ThreadTheorems.CallsAreAtomic` | kernel/RsContext.c:584-811 | a call that returned acted exactly once, between invocation and return, with the answer of the sequential specification; one that was let through or whose allocation failed had no effect |
| `ThreadTheorems.RealTimeOrder` | kernel/RsContext.c:584-811 | a call that returned before another was made acts before it: the history is a linearization |
| `ThreadTheorems.NotificationsMatchTransitions` | kernel/RsContext.c:801-808 | notification calls made plus those still owed match, one to one, the points of the history at which the table shows some PID turn from not blocked to blocked |
| `ThreadTheorems.OnlyRecordsFlip` | kernel/RsContext.c:758-770 | only a recording turns a PID blocked, only its own, and exactly when it answers with a notice |
| `ThreadTheorems.NoticeIsOfItsOwnTransition` | kernel/RsContext.c:772-778 | each carries PID, time and count (the ring length then, at least the threshold) of its own transition, and the first 259 characters of the name that came with the recording that created the context, even if the context is unblocked and freed first |
| `ThreadTheorems.BlockedOnlyWithCause` | kernel/RsContext.c:758-770 | no false block in any interleaving |
| `ThreadTheorems.DenialIsJustified` | kernel/RansomShield.c:675-806 | callback safety in every interleaving: an operation completed with access denied is a write that is not paging I/O, a rename or a delete, not from PID 0 or 4, was not exempt when the callback itself searched the names, before it recorded, and its PID was then blocked because operations of its own had filled a window, with no unblock since |
| `ThreadTheorems.LetThroughUnrecorded` | kernel/RansomShield.c:744-782 | a callback that lets its operation through, or finds no memory, denies nothing and recorded nothing; it let it through because it is paging I/O or of another class, from PID 0 or 4, of a built-in name, or its own search found the name |
| `ThreadTheorems.DeniedIffBlockedThere` | kernel/RansomShield.c:758-806 | conversely, a callback that returned from its recording, of a write, rename or delete, has its PID tracked there, and completes the operation iff the PID is blocked there; else a write goes on without and a rename or delete with a post-operation callback |
| `ThreadOutcomes.SentIffConnected` | kernel/RsCommPort.c:350-353 | a call that blocked its PID has sent its notification when it returns iff a client was connected when it stopped owing it |
| `ThreadOutcomes.FailedForLackOfMemory` | kernel/RsContext.c:630-633 | a call fails only at a request to the pool that got nothing |
| `ThreadAdmission.ReachableAdmits` | kernel/RansomShield.c:660-758 | the invariant about the checks in front of the recorder holds after any interleaving, names changing between search and recording included |
| `ThreadTheorems.NumberIsFromHistory` | kernel/RsCommPort.c:364-366 | the number a thread was handed, for a reply or a notification, is the answer at its own position of the history |
| `ThreadTheorems.IssuedNumbersAreDistinct` | kernel/RsCommPort.c:364-366 | two threads were handed different numbers unless 2^32 were issued from one to the other |
| `ThreadProgress.LockIsReleased` | kernel/RsContext.c:590-789 | a call that is over does not hold the lock, on whichever path it ended |
| `ThreadProgress.HolderReleases` | kernel/RsContext.c:590-789 | from every reachable state the holder of the lock, stepped alone, gives it back within three steps |
| `ThreadProgress.CallsComplete` | kernel/RsContext.c:584-811 | with the lock free or its own, a call that is left to run is over within 17 steps |
| `ThreadSteps.ReachableIsOk` | kernel/RsContext.c:584-811 | the invariant behind all of these holds after any interleaving of calls, steps, connects and disconnects |
| `ThreadSteps.WinRaceStep` | kernel/RsContext.c:656-669 | inserting the fresh context and recording into it keeps the invariant and is one atomic recording |
| `ThreadSteps.LoseRaceStep` | kernel/RsContext.c:644-655 | freeing the fresh context when another thread was faster keeps the invariant |
| `ThreadSteps.RecordStep` | kernel/RsContext.c:671-789 | recording into a context found under the lock keeps the invariant: the pointer cannot have gone stale |
| `ThreadSteps.UnlinkStep` | kernel/RsContext.c:917-929 | unblocking frees a context no other thread points to |
| `ThreadSteps.RegionStep` | kernel/RsCommPort.c:735-740 | every region that changes no context, the snapshot of blocked PIDs included, acts as its event |
| `ThreadSteps.MatchStep` | kernel/RsContext.c:1093-1103 | the search of the pushed names enters the history with the answer of that moment |
| `ThreadSteps.NumberStep` | kernel/RsCommPort.c:364-366 | taking a notification number acts as its event |
| `ThreadInvariant.OtherKept` | kernel/RsContext.c:590-669 | what a thread relies on is left alone by every step of another |
| `ThreadOrder.ReturnedStays` | kernel/RsContext.c:810 | a call that returned keeps its record, and calls made later start after it |
| `Dispatcher.MessageNotify` | kernel/RsCommPort.c:571-1014 | the switch with the checks of each case in front of its own effects; an error leaves the whole state alone; an accepted request takes one number, and field by field: a pause or resume sets the flag and nothing else, an unblock removes that PID only, an update takes positive fields and the flag, a clear empties the names, an upload appends, a query changes nothing and its reply tells the state it found |
| `Dispatcher.Pause` | kernel/RsCommPort.c:788-817 | after an accepted pause request, whatever calls follow, no PID is blocked that was not before, until a resume or an update turns monitoring on |
| `Dispatcher.UpdateThenQuery` | kernel/RsCommPort.c:723-751 | what an accepted update set, an accepted query tells |
| `CommPort.AcceptedIff` | kernel/RsCommPort.c:586-1014 | in bytes: which requests are accepted, which are told that the buffer is too small, and with what length |
| `CommPort.Effects` | kernel/RsCommPort.c:613-1004 | the effect of each accepted request on configuration, table and names |
| `CommPort.RepliesInFull` | kernel/RsCommPort.c:613-1004 | what each reply says of the state that the request found |
| `Dispatcher.ServeBlockedPids` | kernel/RsCommPort.c:613-658 | checks before effects, and a report on the snapshot |
| `Dispatcher.ServeUnblock` | kernel/RsCommPort.c:663-720 | checks before effects |
| `Dispatcher.ServeConfig` | kernel/RsCommPort.c:723-751 | checks before effects |
| `Dispatcher.ServeNames` | kernel/RsCommPort.c:754-785 | checks before effects |
| `Dispatcher.ServePause` | kernel/RsCommPort.c:788-817 | checks before effects; monitoring is off afterwards, and nothing else of the configuration changes |
| `Dispatcher.ServeResume` | kernel/RsCommPort.c:820-849 | checks before effects; monitoring is on afterwards |
| `Dispatcher.ServeUpdate` | kernel/RsCommPort.c:852-885 | checks before effects |
| `Dispatcher.ServeClear` | kernel/RsCommPort.c:888-914 | checks before effects |
| `Dispatcher.ServeChunk` | kernel/RsCommPort.c:917-959 | all three checks before effects: an EntryCount over 32 adds no row |
| `Dispatcher.ServeFull` | kernel/RsCommPort.c:962-1004 | all three checks before effects: an EntryCount over 128 adds no row |
| `Dispatcher.Resend` | kernel/RsCommPort.c:626-629 | two calls: after BUFFER_TOO_SMALL, the same request with the length that was reported is served, or fails only on EntryCount |
| `Dispatcher.ScanName` | kernel/RsCommPort.c:938-940 | the length loop hands over the text before the first NUL, at most 259 characters |
| `Dispatcher.AddRow` | kernel/RsCommPort.c:982-987 | one row is handed over as the text before its first NUL, in a region of its own |
| `Dispatcher.AddRows` | kernel/RsCommPort.c:982-987 | the upload loop acts as one AddName per row, in order |
| `CommPort.OneNumberPerSuccess` | kernel/RsCommPort.c:586-1014 | every accepted request issues exactly one sequence number |
| `CommPort.UploadAppends` | kernel/RsCommPort.c:937-942 | an upload appends the non-empty scanned names, in order, up to 128 in all: it does not replace the list |
| `CommPort.NumbersCountUp` | kernel/RsCommPort.c:637-639 | the counter is the number of issues, modulo 2^32 |
| `CommPort.NumbersAreDistinct` | kernel/RsCommPort.c:637-639 | two numbers of one run with fewer than 2^32 issues between them differ |
| `CommManagers.FilledRow` | usermode/common/CommManager.cpp:690-691 | a row filled by wcsncpy_s is scanned by the driver as the name cut at its first NUL and at 259 characters |
| `CommManagers.TruncatedIsPrefix` | usermode/common/CommManager.cpp:690-691 | ...which is the longest prefix of at most 259 characters without a NUL |
| `CommManagers.PushedContinues` | usermode/common/CommManager.cpp:717-719 | pushing entries[from..to] after entries[..from] gives the list of entries[..to], also beyond 128 names |
| `CommManagers.CommManager.FillRows` | usermode/common/CommManager.cpp:721-725 | each row is scanned as its own entry |
| `CommManagers.CommManager.PushChunks` | usermode/common/CommManager.cpp:708-743 | the ceiling-division chunks cover every index exactly once; a failure leaves a pushed prefix |
| `CommManagers.CommManager.PushEntries` | usermode/common/CommManager.cpp:676-747 | both branches meet the same specification |
| `CommManagers.CommManager.PushAllowlist` | usermode/common/CommManager.cpp:650-750 | from any driver state, success leaves exactly the first 128 non-empty entries, cut at NUL or 259 characters, in order; failure the old list or a pushed prefix; table and configuration untouched |
| `InterleavedPush.PushedWhateverInterleaves` | usermode/common/CommManager.cpp:650-750 | in every interleaving: if the only changes of the names between two moments are those of one push, the driver then lists exactly the pushed names |
| `InterleavedPush.UploadIsPushEvents` | usermode/common/CommManager.cpp:676-743 | the full upload, and each chunk after the ones before it, changes the names as one addition per entry, in order |
| `InterleavedPush.ClearIsPushEvent` | usermode/common/CommManager.cpp:658-665 | the clear in front of them is the first such change |
| `InterleavedPush.NamesFollow` | kernel/RsContext.c:1142-1183 | the names depend on the clears and additions of a run alone |
| `CommManagers.CommManager.QueryAllowlist` | usermode/common/CommManager.cpp:540-556 | returns the list the driver holds and leaves it as it was |
| `CommManagers.CommManager.UpdateConfig` | usermode/common/CommManager.cpp:581-608 | changes the configuration only, exactly when the message arrives |
| `CommManagers.CommManager.SendRequest` | usermode/common/CommManager.cpp:200-286 | succeeds iff the message arrives, is accepted and answered; a message that does not arrive changes nothing |
| `ConfigManagers.SlotNamesAreDistinct` | usermode/common/ConfigManager.cpp:327-328 | no two slots share a name, at two digits or more |
| `ConfigManagers.SlotNameIsPadded` | usermode/common/ConfigManager.cpp:328 | Entry00 to Entry99 |
| `ConfigManagers.SlotNameGoesOn` | usermode/common/ConfigManager.cpp:328 | ...then Entry100 and on |
| `ConfigManagers.LoadAfterSave` | usermode/common/ConfigManager.cpp:326-421 | every entry having been written and no undeleted one following, save then load gives the surviving entries among the first 128, from any prior registry content |
| `ConfigManagers.RoundTripIffClean` | usermode/common/ConfigManager.cpp:326-421 | every write having succeeded, the list comes back exactly iff it has at most 128 entries, each of at most 259 characters without NUL, and no stale entry that could not be deleted follows it |
| `ConfigManagers.SettingsRoundTrip` | usermode/common/ConfigManager.cpp:299-317 | each setting whose write succeeded is in the key under its own name, the others are as before |
| `ConfigManagers.SaveThenLoad` | usermode/common/ConfigManager.cpp:290-425 | the same on the objects, for every pattern of failing registry calls |
| `ConfigManagers.ConfigManager.SaveToRegistry` | usermode/common/ConfigManager.cpp:290-387 | for every pattern of failing calls: what each key holds afterwards; success is reported iff every write succeeded, failed deletions notwithstanding |
| `ConfigManagers.ConfigManager.LoadFromRegistry` | usermode/common/ConfigManager.cpp:389-425 | reads slots up to the first unreadable one; a setting that is missing or of another type is 50, 10 and on, and any other is the stored value |
| `ConfigManagers.ConfigManager.AddException` | usermode/common/ConfigManager.cpp:213-242 | appends iff not listed up to case (without a case table: iff no entry agrees with it up to the first NUL) and not full; a list without duplicates stays so |
| `ConfigManagers.ConfigManager.RemoveException` | usermode/common/ConfigManager.cpp:244-258 | removes the first match only, which leaves none in a list without duplicates; without a case table the first entry that agrees with the name up to the first NUL |
| `ConfigManagers.ConfigManager.IsException` | usermode/common/ConfigManager.cpp:266-277 | true iff some entry equals the name up to case; without a case table iff some entry agrees with it up to the first NUL |
| `ConfigManagers.RemovedIsGone` | usermode/common/ConfigManager.cpp:248-254 | removing one match from a list without duplicates leaves no entry equal to it up to case |
| `Exemption.SavedLoadedPushedExempts` | kernel/RsContext.c:1032-1112 | saved, loaded and pushed, a clean list exempts a path iff the text after its last backslash is non-empty and equals a built-in or listed name up to the folding of the kernel, without a case table iff it is one |
| `Exemption.PushedExempts` | kernel/RsContext.c:1075-1111 | a pushed list exempts the images whose file name it, or the built-in list, has up to case: at least those that it has, and without a case table no other |
| `Exemption.CleanListIsPushedWhole` | usermode/common/CommManager.cpp:685-692 | a clean list of at most 128 names is pushed whole, empty entries aside: unchanged if there are none |
| `Exemption.ExemptByName` | usermode/common/RansomShieldModule.cpp:33-58 | the same on the objects: add, save, reload, push, ask; a name that was added exempts its programs; the push succeeds when every message arrives |
| `Exemption.PushToDriver` | usermode/common/RansomShieldModule.cpp:33-58 | succeeds when every message arrives; on success driver list and configuration are those of the manager; tracked contexts are untouched |
| `Exemption.FirstStart` | usermode/common/RansomShieldModule.cpp:33-58 | with an empty Config key, load and push leave the driver at 50 operations in 10 seconds, monitoring on |
| `Callbacks.PreOperationWrite` | kernel/RansomShield.c:645-815 | a write that is not paging I/O, not from PID 0 or 4, not exempt, and tracked or trackable is recorded, and denied iff that leaves its PID blocked; any other changes nothing and goes on |
| `Callbacks.PreOperationSetInformation` | kernel/RansomShield.c:844-958 | the same for rename, rename-ex, disposition and disposition-ex, a recorded one going on with a post-operation callback; other classes pass |
| `Alerts.FirstInFirstOut` | usermode/tray/NotificationManager.cpp:103-118 | in every interleaving, alerts shown, in hand and queued are the alerts pushed, in order |
| `Alerts.NoLostWakeUp` | usermode/tray/NotificationManager.cpp:103-110 | with every post succeeding, queued alerts mean a pending message, a post to come, or a running drain |
| `Alerts.RestMeansShown` | usermode/tray/TrayMain.cpp:193-199 | at rest every alert pushed before the last successful post was shown: all of them if no post failed |
| `Alerts.AllShownIff` | usermode/tray/TrayMain.cpp:193-199 | in every interleaving: the window procedure, left to run, shows every alert pushed so far iff it is at work, or a message waits, or the queue is empty |
| `Alerts.StrandedIff` | usermode/tray/NotificationManager.cpp:103-118 | exactly when alerts are stranded: something was pushed since the window procedure last found the queue empty, no message was left over then, and no post was delivered since |
| `Alerts.FailedPostStrands` | usermode/tray/NotificationManager.cpp:109 | the smallest such run: one push whose post fails |
| `Alerts.PumpComesToRest` | usermode/tray/TrayMain.cpp:193-199 | left to run, the window procedure comes to rest within a stated number of steps, everything shown |
| `Alerts.NotificationManager.QueueAlert` | usermode/tray/NotificationManager.cpp:103-110 | is the push step followed by the post step, whether or not the post succeeds |
| `Alerts.NotificationManager.DrainAlert` | usermode/tray/NotificationManager.cpp:112-118 | pops the oldest alert, or reports an empty queue |
| `Alerts.NotificationManager.HandleBlocked` | usermode/tray/TrayMain.cpp:193-199 | shows the whole queue, in order, for one message |

## Left out

- Drivers.Driver.DestroyContextTracking: assumes that no call is in flight, as kernel/RsContext.c:224-228 states; the unload routine frees the contexts before it unregisters (kernel/RansomShield.c:512-523), and that window is not modelled. A destroyed driver is not one of the events of a run.
- Threads.Next: insertion of a fresh context and recording into it is one step, both under one hold of the lock; pruning, counting and evaluating are one step for the same reason.
- Threads.Region: the walk of `RsGetBlockedPids` is one step that takes the snapshot of the blocked contexts; that the walk reports on it is proved on the heap structure (`Trackers.Tracker.GetBlockedPids`). A message of several regions is several calls of the thread model.
- Threads.FileOp: the time that `RsRecordOperation` reads and the image name are parameters of the call, so any order of times against lock order is covered.
- CommManagers.CommManager.PushAllowlist: on the driver object nothing runs in between; `InterleavedPush.PushedWhateverInterleaves` lets everything but other changes of the names interleave, of which the port, admitting one connection, allows none (kernel/RsCommPort.c:447-450).
- Alerts.NoLostWakeUp: posting is assumed to succeed; `Alerts.StrandedIff` says exactly what happens otherwise.
- ConfigManagers.RoundTripIffClean: a registry read is taken to succeed when the value is there and fits; a stored string of exactly 260 characters without terminator, which the C code reads past its buffer, is read here as those 260 characters.
- Exemption.SavedLoadedPushedExempts: the path from the settings to the verdict takes every registry call to succeed; `ConfigManagers.SaveThenLoad` says what happens otherwise.
- Base.Ticks: values of `KeQueryInterruptTime` lie in [0, 2^63), so differences of two of them never overflow a LONGLONG.
- Strings are sequences of characters, one per 16-bit unit. Case folding is an arbitrary function per character, for user mode and kernel separately; the Unicode tables are not modelled. `RtlEqualUnicodeString` and `_wcsicmp` are system routines, taken to compare the lengths and then the folded characters one by one (`Allowlist.EqualNames`).
- Names in a context are values, not 260-character arrays; replies are values, not buffers; BOOLEAN is bool.
- The image name of a requestor is a parameter: absent when the process is gone, the IRQL forbids asking or the lookup fails.
- Memory pool, filter manager and registry internals: allocation, arrival of messages and posting are nondeterministic parameters; port security, user-buffer aliasing and IRQL beyond "lock held or not" are absent.
- `ChunkIndex` and `ChunkCount` of a chunk are never read by the driver, and request headers carry no number here.
- Connecting, reconnecting and the listener thread of CommManager: they depend on calls that block in the system.
- Setters of ConfigManager that save after releasing the mutex, and `ClearExceptions`: they add no case to save and load.
- Eviction of idle contexts and removal at process exit: neither exists in the code.
- Post-operation callback, tray icon and menu, scheduled start, command line, event log, installation and packaging.
