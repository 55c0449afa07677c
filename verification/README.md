# Verification of the Windows 2000 compatibility layer

Dafny models, and proofs about them, of the parts of this repository where a mistake is hardest to see by reading:

- **Locks and condition variables** (`compat/w2k_sync.c`). `SrwLock` and `CvQueue` are the field updates and the heap
  queue; `SyncSystem` is the whole thing as a transition system: any number of threads, one stay inside a gate per step,
  waits that end only when their event is set, timeouts at any moment, and a wake-all that walks node by node.
  `SyncLockInvariant` and `SyncSleepInvariant` hold what every step keeps, `SyncTheorems`, `SyncSleepTheorems` and
  `SyncCallTheorems` what every run guarantees. `LazyState` is the compare-exchange publication of the state object.
- **Vectored exception handlers** (`compat/w2k_veh.c`). `VehList` is the ring of entries in memory, `VehDispatch` what a
  dispatch over it means, `VehProtocol`, `VehInvariant` and `VehTheorems` the list under any number of threads whose
  handlers add, remove and raise, and `VehSuccessor` and `VehStray` the window in which a dispatcher has dropped the lock
  with a saved successor in hand. `VehRing` brings ring and protocol together: handlers on one thread that register,
  unregister anything and raise again, over the ring in memory, with every dispatch proved to be a run of the protocol;
  `VehFollows` is what such runs are made of, and `VehCalls` says whom a dispatch calls among all that.
- **Emitted machine code** (`patches/patch_pwrp_w2k_sync_candidate11.py`,
  `patches/patch_candidate18_job_kill_on_close_w2k.py`). `X86` and `X86Machine` are the instructions used, encoder,
  decoder and processor; `Thunks` the two generators; `ThunkSteps`, `ResolverRun`, `ResolverProof` and `HookProof` show
  what the bytes do at every load base; `ThunkUses` shows that the situations they speak of exist; `ThunkLayout` is where
  the resolvers, their slots and the names go.
- **Export tables** (`scripts/rebuild_pe_exports_from_reference.py`). `PeNames`, `PeAlign`, `PeBlob` and `PeSection` are
  the writer; `PeReader` is a reader that knows only section 6.3 of the Microsoft PE/COFF specification; `PeRebuild` is
  the round trip through the finished file, whose section table the reader searches for the export directory.
- **CRC-32** (`sfx/w2k_sfx.c`). `Crc32` is the table form against the bit-at-a-time register of section 8 of RFC 1952,
  `CrcDetection` what the checksum can and cannot catch, `CrcValues` what fixes its constants, `SfxCopy` the buffered
  copy-and-check loop.
- **Redaction** (`diagnostics/supermium_w2k_rc1_launcher.c`). `Redaction` is the rewriting as a function of the whole
  text, `RedactionTheorems` what cannot survive it, `RedactionCases` what gives way to which marker, said of the text
  alone, `SanitizeText` the bounded one-pass method.
- **Resolver bridge** (`compat/w2k_s232.c`). `Ipv4Text` and `Ipv4Print` are the IPv4 parser and printer, `AddrInfo` and
  `GetAddrInfo` the chain of results.

`Sequences`, `Bits`, `Bytes`, `Numerals`, `Pieces` and `Stepping` are shared ground. `dafny verify dfyconfig.toml` checks everything.

Three properties turned out not to hold for all inputs, and are stated with the exact condition under which they do.

- The dispatcher saves a successor (line 314 of `compat/w2k_veh.c`), drops the lock to free its entry and takes it again.
  If another thread takes that very successor out of the list in between, the walk resumes at a freed entry.
  `VehSuccessor.SuccessorStep` says that saved successors stay linked if and only if no step does that,
  `VehSuccessor.DisturbedCanStray` that the first such step always makes the fault possible,
  `VehStray.StrayedExactlyWhenDisturbed` that a run has gone wrong if and only if a thread so disturbed has since
  resumed, and `VehSuccessor.TwoThreadsCanStray` gives a run of seven steps that reaches it. What callers can see to is
  enough: `VehStray.IdleRemovalsNeverStray` says that it never happens while nobody unregisters an entry whose handler is
  running.
- The rebuilt table stores the input addresses as they are, and a reader of section 6.3 of the PE/COFF specification takes
  an address inside the export directory for a forwarder. `PeRebuild.Rebuild` says that all input addresses come through
  if and only if none of them lies in the new section, which is so whenever they lie in the input's own sections.
  `PeRebuild.AnyAddressCanBeTaken` says that every rebuild that succeeds would have succeeded with any one address moved
  to the start of the new section, and would have lost it; `PeRebuild.AddressCanBeTaken` is such an input, with the
  headers of an ordinary library of one section.
- `align` rounds with a mask. `PeAlign.AlignsExactlyForPowersOfTwo` says that it is right for every value if and only if
  the alignment is a power of two.

## Model

| member | source | states |
|---|---|---|
| SrwLock.SrwState.BeginExclusive | compat/w2k_sync.c:108-114 | the field updates of a writer's first stay in the gate equal the section function the state machine uses; from sound fields it leaves sound fields and takes the lock exactly when can_write was set |
| SrwLock.SrwState.AgainExclusive | compat/w2k_sync.c:111-120 | the same for every later stay, after the wait; from sound fields it takes the lock exactly when can_write was set, and leaves them sound exactly when the caller was counted as waiting or is denied |
| SrwLock.SrwState.TryBeginExclusive | compat/w2k_sync.c:123-135 | the same for the non-blocking writer; it keeps the fields sound and takes the lock exactly when can_write was set |
| SrwLock.SrwState.EndExclusive | compat/w2k_sync.c:137-144 | the same for a writer leaving; from sound fields it leaves sound ones exactly when no reader was inside |
| SrwLock.SrwState.BeginShared | compat/w2k_sync.c:146-158 | the same for a reader's stay, first or repeated; it keeps the fields sound and takes the lock exactly when can_read was set |
| SrwLock.SrwState.TryBeginShared | compat/w2k_sync.c:160-171 | the same for the non-blocking reader; it keeps the fields sound and takes the lock exactly when can_read was set |
| SrwLock.SrwState.EndShared | compat/w2k_sync.c:173-182 | the same for a reader leaving, with its guard against a count of zero; from sound fields it leaves sound ones exactly when a reader was inside or nobody was |
| CvQueue.CvState.Enqueue | compat/w2k_sync.c:264-268 | head, tail and links stand for the old sequence with the waiter at the end |
| CvQueue.CvState.RemoveWaiter | compat/w2k_sync.c:230-246 | unlinks exactly that waiter from wherever it is, and touches nothing when it is not queued |
| CvQueue.CvState.WakeOne | compat/w2k_sync.c:342-348 | takes and signals the head, or does nothing on an empty queue |
| CvQueue.CvState.WakeAll | compat/w2k_sync.c:359-370 | empties the queue and signals every waiter, in queue order |
| SyncTheorems.StepInv | compat/w2k_sync.c:106-371 | every step of every thread keeps the lock, ownership and sleep invariants |
| SyncTheorems.RunInv | compat/w2k_sync.c:106-371 | the invariants hold at every moment of every run |
| SyncTheorems.MutualExclusion | compat/w2k_sync.c:106-182 | in every reachable state an exclusive holder excludes everybody, and writer_active, readers and writers_waiting count exactly the exclusive holders, the shared holders and the threads parked to write |
| SyncTheorems.NobodyIsStranded | compat/w2k_sync.c:106-182 | can_write is set exactly when nobody holds the lock, can_read exactly when no writer holds or waits, and then every parked writer, or reader, can finish by its own steps alone |
| SyncTheorems.Progress | compat/w2k_sync.c:111-115 | with no holder and somebody waiting, somebody waiting can finish acquiring |
| SyncTheorems.WriterPreference | compat/w2k_sync.c:146-171 | along any stretch of a run in which a writer waits, the set of readers inside only shrinks |
| SyncSleepTheorems.ExactlyOnce | compat/w2k_sync.c:276-296 | every node is dequeued at most once, by a signaler or by its own sleeper; a sleep answers TRUE exactly when a signaler dequeued it, whatever its timeout did; signals equal TRUE answers plus those on their way |
| SyncSleepTheorems.SignalsFollowTheQueue | compat/w2k_sync.c:264-268 | nodes are signaled in the order they queued, over whole runs and across single wakes and wake-alls, and the queued flag is set exactly on the nodes still pending |
| SyncSleepTheorems.WakeTakesTheOldest | compat/w2k_sync.c:343-347 | a single wake on a non-empty queue signals exactly the longest-queued node and keeps the others queued |
| SyncSleepTheorems.ReleasedMeansWakeable | compat/w2k_sync.c:264-274 | from the moment the caller's lock is released the sleeper is queued or already signaled, and its wait can end by its event exactly in the second case |
| SyncSleepTheorems.WakeAllMissesNobody | compat/w2k_sync.c:359-370 | a wake-all that starts after a sleeper let go of its lock does not end before that sleeper is dequeued |
| SyncSleepTheorems.WritesOnlyTouched | compat/w2k_sync.c:254-371 | a step leaves every node outside its footprint as it was, but for the one it creates |
| SyncSleepTheorems.ReadsOnlyTouched | compat/w2k_sync.c:254-371 | what a step may do and what it does depend on no node outside its footprint |
| SyncSleepTheorems.NodesTouchedAreLive | compat/w2k_sync.c:254-294 | that footprint never holds a waiter node whose frame is gone |
| SyncSleepTheorems.SleepReturnsItsLock | compat/w2k_sync.c:270-288 | a sleep gives back the lock it took, in the same mode, in the very step in which its thread becomes ready, and records its own answer |
| SyncCallTheorems.SleepersHaveLetGo | compat/w2k_sync.c:270-286 | in every reachable state a sleeper, from the release of its lock until it takes it back, does not have what it went to sleep with, in any of the three modes; only another owner of the critical section can keep it from taking that back |
| SyncCallTheorems.SectionMoves | compat/w2k_sync.c:270-286 | the critical section changes hands only from nobody to a thread that enters it or wakes into it, and from its owner to nobody when it leaves or goes to sleep |
| SyncCallTheorems.AdmittedExactlyWhenFree | compat/w2k_sync.c:106-182 | at every step of every run a writer is let in exactly when nobody is inside and a reader exactly when no writer is inside or waits, trying, asking first or asking again; who is refused waits, or returns without the lock; who leaves holds nothing |
| SyncCallTheorems.SignaledSleeperReturns | compat/w2k_sync.c:274-294 | a signaled sleeper comes back by its own three steps, without a timeout, with its lock in its mode and the answer TRUE, as soon as gate and lock are free |
| SyncCallTheorems.TimedOutSleeperReturns | compat/w2k_sync.c:274-294 | one that nobody signaled comes back so once its wait ends, with the answer FALSE |
| SyncCallTheorems.WalkEnds | compat/w2k_sync.c:359-370 | a wake-all walk needs nobody but its waker to end, and signals exactly the nodes ahead of it, in order |
| LazyState.OneWinner | compat/w2k_sync.c:59-104 | once an object is installed it stays the installed one for the rest of the run |
| LazyState.Publication | compat/w2k_sync.c:59-104 | all successful callers get the same object, nothing is freed twice, and objects created equal those freed plus the installed one plus candidates in flight |
| LazyState.EveryCallAnswered | compat/w2k_sync.c:59-104 | every call begun has returned once or is in progress; NULL is returned exactly as often as an allocation or an event failed, and every other return gives the installed object |
| LazyState.ReturnedBy | compat/w2k_sync.c:64-80 | the step by which a call returns says what it returns: NULL in a failing step only, and otherwise, found, won or lost, the object that stays installed |
| LazyState.CallReturns | compat/w2k_sync.c:64-80 | from anywhere inside, at most three steps of its own bring a call back with the installed object |
| VehList.HandlerList.InsertHead | compat/w2k_veh.c:270-276 | the ring stands for the new entry followed by the old sequence |
| VehList.HandlerList.InsertTail | compat/w2k_veh.c:278-284 | the ring stands for the old sequence followed by the new entry |
| VehList.HandlerList.RemoveListEntry | compat/w2k_veh.c:264-268 | the ring stands for the sequence without that one entry, whose own forward link survives |
| VehList.HandlerList.Add | compat/w2k_veh.c:380-409 | links one entry with a count of one at the end the flag asks for, or nothing on any failure |
| VehList.HandlerList.Remove | compat/w2k_veh.c:411-442 | succeeds exactly on a linked, undeleted handle, marks it, drops one share, and unlinks and frees it exactly when that was the last |
| VehList.HandlerList.Visit | compat/w2k_veh.c:307-325 | one call with its count up and down, self-removal included, and where the walk goes on |
| VehList.HandlerList.CallVectoredHandlers | compat/w2k_veh.c:286-330 | the loop over the ring does what the sequence-level dispatch says, with handlers that may remove themselves |
| VehDispatch.CallsThePrefix | compat/w2k_veh.c:300-329 | exactly the live handlers up to the first that continues execution are called, in order, and TRUE is returned exactly when there is one |
| VehDispatch.NothingLost | compat/w2k_veh.c:311-319 | every entry is afterwards in the list or freed, once |
| VehDispatch.PassiveDispatch | compat/w2k_veh.c:300-327 | handlers that leave the list alone find it as it was |
| VehDispatch.FreedMeansLastShare | compat/w2k_veh.c:313-317 | a dispatch frees an entry exactly when it calls it, it removes itself and nothing else holds it |
| VehDispatch.DispatchException | compat/w2k_veh.c:332-338 | TRUE exactly when some live handler continues execution or the original dispatcher says so |
| VehInvariant.StepInv | compat/w2k_veh.c:286-442 | every add, remove, raise, return and resume keeps counts, frames and histories consistent |
| VehTheorems.ReferenceCounts | compat/w2k_veh.c:307-313 | with any interleaving of threads and nesting, each linked entry's count is its registration, unless removed, plus its calls in progress, is positive, and every entry being called is linked |
| VehTheorems.FreedExactlyOnce | compat/w2k_veh.c:313-317 | every entry ever added is linked or freed, never both, is freed once, and is freed exactly when it has been removed and no call of it is in progress |
| VehTheorems.NoCallAfterRemove | compat/w2k_veh.c:426-435 | once Remove has returned TRUE for a handle no call of it ever starts again |
| VehTheorems.RegistrationOrder | compat/w2k_veh.c:405-406 | registrations build the first-handlers newest first followed by the others oldest first |
| VehTheorems.ListIsTheHistory | compat/w2k_veh.c:400-439 | at every moment the list is that order less the freed entries, and its callable part is that order less the removed ones |
| VehCalls.NobodySkipped | compat/w2k_veh.c:300-327 | a dispatch, however other threads and nested handlers change the list meanwhile, that ends without a handler continuing execution and without straying has called every entry that was registered all the while |
| VehCalls.CalledOnce | compat/w2k_veh.c:300-327 | and calls none of them twice |
| VehCalls.CalledInOrder | compat/w2k_veh.c:300-327 | and calls them in the order of the list |
| VehCalls.ContinuesAtOnce | compat/w2k_veh.c:313-325 | a handler that continues execution ends its own dispatch at once and no other |
| VehSuccessor.SuccessorStep | compat/w2k_veh.c:313-319 | saved successors stay linked across a step if and only if the step does not take out one that another thread has saved |
| VehSuccessor.UndisturbedNeverStrays | compat/w2k_veh.c:313-319 | a run without such a step never resumes at a freed entry |
| VehSuccessor.DisturbedCanStray | compat/w2k_veh.c:313-319 | the first such step leaves a thread able to resume at a freed entry at once |
| VehStray.StrayedExactlyWhenDisturbed | compat/w2k_veh.c:313-319 | at any moment of any run, a walk has resumed at a freed entry if and only if some step took out the successor a thread had saved and that thread's next resume has happened |
| VehStray.IdleRemovalsNeverStray | compat/w2k_veh.c:411-442 | as long as nobody unregisters an entry while its handler is running, in this thread or another, no walk ever resumes at a freed entry and every removed entry is freed at once |
| VehSuccessor.OneThreadIsSafe | compat/w2k_veh.c:286-330 | one thread alone, however its handlers nest, never does |
| VehSuccessor.TwoThreadsCanStray | compat/w2k_veh.c:313-319 | a concrete run of two threads in which a walk resumes at a freed entry |
| VehRing.Dispatcher.Add | compat/w2k_veh.c:380-409 | a registration on the ring is the protocol's step and gives the next handle out, one that fails for want of a handler, memory or hook is no step, and the ring goes on standing for the protocol's list, counts and marks |
| VehRing.Dispatcher.Remove | compat/w2k_veh.c:411-442 | so is an unregistration of any handle ever given out, linked or not, called or not, and it answers TRUE exactly when the protocol records it |
| VehRing.Dispatcher.EndCall | compat/w2k_veh.c:311-325 | when a handler is back its share goes, perhaps with its entry, and the forward link read before that is where the protocol's walk goes on |
| VehRing.Dispatcher.Dispatch | compat/w2k_veh.c:286-330 | with handlers that register, unregister anything and raise again, to any depth, a dispatch over the ring is a run of the protocol from the raise on; its own handlers answer as they are given to, the first that continues execution ends it, and TRUE is returned exactly then |
| VehRing.Dispatcher.DispatchException | compat/w2k_veh.c:332-338 | with such handlers, TRUE exactly when one continues execution or the original dispatcher says so |
| VehRing.OneThreadStaysOnTheRing | compat/w2k_veh.c:311-325 | from an empty list on, no such run ever resumes a walk at a freed entry |
| VehFollows.FollowsIsRun | compat/w2k_veh.c:286-442 | the runs of the ring are runs in the sense of the theorems above, which so hold of them |
| X86.DecodeEncode | patches/patch_pwrp_w2k_sync_candidate11.py:55-79 | the decoder reads back every instruction the encoder writes, whatever follows it |
| Thunks.EmitResolver | patches/patch_pwrp_w2k_sync_candidate11.py:52-89 | refuses exactly what cannot be packed, and otherwise emits the 73 bytes of the resolver with its three short branches patched, inside the reserved stride |
| Thunks.EmitHook | patches/patch_candidate18_job_kill_on_close_w2k.py:43-69 | emits the 44 bytes of the hook with both branches patched to the forwarding tail |
| Thunks.BranchIsMade | patches/patch_pwrp_w2k_sync_candidate11.py:48-49 | a branch is refused exactly when the distance does not fit, which inside one image it always does |
| Thunks.BranchArrives | patches/patch_pwrp_w2k_sync_candidate11.py:48-49 | when the distance fits 32 signed bits the branch is made, goes to its target at every load base and changes nothing else |
| ThunkLayout.LayOut | patches/patch_pwrp_w2k_sync_candidate11.py:111-152 | each bridge gets its own resolver and slot position, and its recorded name address is where its name lies in the block of strings, behind all names before it; no resolver, slot or name shares a byte with another if and only if there are at most sixteen bridges |
| ResolverProof.ResolverIsTransparent | patches/patch_pwrp_w2k_sync_candidate11.py:52-89 | at every base, from every stack and for every answer of the two system calls, running the bytes ends, and ends either at the cached or looked-up function with ESP and the kept registers as on entry and the answer in the slot, or back at the caller with zero and exactly the arguments popped; the two calls get the right arguments |
| ResolverProof.NoSecondLookup | patches/patch_pwrp_w2k_sync_candidate11.py:59-62 | after one success every later use goes straight to that function without any call, as long as the slot keeps its value |
| ThunkUses.EveryUseCanBeAnswered | patches/patch_pwrp_w2k_sync_candidate11.py:63-72 | whatever state the resolver is entered in, an environment exists that answers its two calls with any two given values, so the theorems above speak of something |
| ThunkUses.ResolverCanBeEntered | patches/patch_pwrp_w2k_sync_candidate11.py:145-149 | every resolver can be entered at every base that leaves room around the image |
| HookProof.MaskClears | patches/patch_candidate18_job_kill_on_close_w2k.py:57-59 | the mask takes away bit 0x2000 and no other |
| HookProof.HookIsTransparent | patches/patch_candidate18_job_kill_on_close_w2k.py:43-69 | at every base and from every stack the hook ends at the native function with all registers but EAX as on entry, having changed no memory but its scratch words and, exactly when the class is 9 and the pointer is not null, the one bit |
| ThunkUses.HookCanBeEntered | patches/patch_candidate18_job_kill_on_close_w2k.py:43-69 | and so can the hook, with arguments that make it clear the bit |
| PeNames.UndecoratesStdcall | scripts/rebuild_pe_exports_from_reference.py:21-30 | a stdcall decoration, before a final newline too, comes off to exactly the plain name |
| PeNames.StripsOnlyDecorations | scripts/rebuild_pe_exports_from_reference.py:21-30 | whatever is stripped was a decoration: an underscore in front, an at sign and digits behind, perhaps before a final newline, and a non-empty rest without newlines |
| PeNames.KeepsOtherNames | scripts/rebuild_pe_exports_from_reference.py:28-30 | a name stays as it is if and only if it is no such decoration of anything |
| PeNames.SortSorts | scripts/rebuild_pe_exports_from_reference.py:77 | distinct names are sorted strictly in byte order |
| PeNames.AssignOrdinals | scripts/rebuild_pe_exports_from_reference.py:60-81 | the table is made if and only if there are inputs, the reference knows them all, no two share an ordinal and the least is 1, gaps or not; each refusal is made for its own reason only; the table is the inputs with their ordinals in name order |
| PeNames.OneTable | scripts/rebuild_pe_exports_from_reference.py:67-81 | there is only one such table |
| PeNames.AssignedIsReady | scripts/rebuild_pe_exports_from_reference.py:67-81 | the table has the inputs as its members, each with its reference ordinal, in name order, with distinct ordinals between 1 and the count |
| PeAlign.AlignUpIsAbove | scripts/rebuild_pe_exports_from_reference.py:24-25 | for every alignment the result is at least the value and less than one alignment above it |
| PeAlign.AlignsToPowerOfTwo | scripts/rebuild_pe_exports_from_reference.py:24-25 | for a power of two it is the least multiple not below the value |
| PeAlign.AlignsExactlyForPowersOfTwo | scripts/rebuild_pe_exports_from_reference.py:24-25 | it aligns every value if and only if the alignment is a power of two |
| PeBlob.AppendStrings | scripts/rebuild_pe_exports_from_reference.py:124-132 | the strings lie NUL-terminated where the recorded offsets say, behind zeroed tables |
| PeBlob.PackAddresses | scripts/rebuild_pe_exports_from_reference.py:134-135 | refuses exactly an address wider than its field, and otherwise fills the claimed slots and no others |
| PeBlob.PackPointers | scripts/rebuild_pe_exports_from_reference.py:136-141 | refuses exactly what does not fit, and otherwise fills both tables in name order and touches nothing else |
| PeBlob.PackDirectory | scripts/rebuild_pe_exports_from_reference.py:143-158 | the eleven fields of the directory, nothing behind them touched |
| PeBlob.BuildBlob | scripts/rebuild_pe_exports_from_reference.py:119-158 | fails exactly when some number does not fit its field; otherwise all tables and strings are as section 6.3 of the PE/COFF specification asks |
| PeReader.SearchFinds | scripts/rebuild_pe_exports_from_reference.py:77 | binary search over the written, sorted name pointers finds a name where it is and only then |
| PeReader.RoundTrip | scripts/rebuild_pe_exports_from_reference.py:119-158 | reading the written section back gives every name its ordinal and its address, as an address if and only if it lies outside the export directory and as a forwarder otherwise, and no other name anything |
| PeReader.UnclaimedOrdinals | scripts/rebuild_pe_exports_from_reference.py:124-135 | ordinals in range that no export claims read as address zero |
| PeReader.TablesInside | scripts/rebuild_pe_exports_from_reference.py:119-132 | every table and string lies inside the section |
| PeReader.TablesDisjoint | scripts/rebuild_pe_exports_from_reference.py:119-132 | no two tables or strings share a byte |
| PeReader.TablesTight | scripts/rebuild_pe_exports_from_reference.py:119-132 | and without a gap, but for the alignment of the strings |
| PeReader.DirectoryReads | scripts/rebuild_pe_exports_from_reference.py:143-158 | the directory gives the library's name, base 1, the highest ordinal, the number of names and the time stamp |
| PeSection.NewSectionIsClear | scripts/rebuild_pe_exports_from_reference.py:95-103 | the new section starts behind every other in memory and in the file, holds the tables, and is covered by the image size |
| PeSection.NewSectionIsAligned | scripts/rebuild_pe_exports_from_reference.py:102-103 | with power-of-two alignments its addresses and sizes are the least multiples of them that are not too small |
| PeSection.AppendSection | scripts/rebuild_pe_exports_from_reference.py:159-223 | fails exactly when a header field would overflow; otherwise the output is the input outside the listed header bytes, zero padding, and the padded tables, described by the new header, count, sizes, export entry and checksum |
| PeRebuild.Rebuild | scripts/rebuild_pe_exports_from_reference.py:58-224 | a reader that is given the finished file and where its PE header is, and searches the section table for the export directory, resolves every input export by name to its reference ordinal, and all of them to their input addresses if and only if none of these lies in the new section, for which it is enough that they lie below the end of the input's own sections; one that does lie there reads as a forwarder; no other name resolves, the rest of the input is unchanged, a loadable input stays loadable, and a file is produced if and only if there are inputs, the reference knows them all with distinct ordinals from 1 to 65536, 1 among them, the addresses fit 32 bits and so do the header fields, which depend on the names and the highest ordinal alone |
| PeRebuild.StaysLoadable | scripts/rebuild_pe_exports_from_reference.py:159-215 | if the input's sections lie in the file and the image and share no address, so do the output's |
| PeRebuild.OwnAddressesAreFree | scripts/rebuild_pe_exports_from_reference.py:95-103 | an address below the end of the input's own sections never lies in the new one |
| PeRebuild.OnlyTheNewHolds | scripts/rebuild_pe_exports_from_reference.py:159-179 | of all sections in the output's table the new one and no other holds the export directory |
| PeRebuild.AnyAddressCanBeTaken | scripts/rebuild_pe_exports_from_reference.py:134-135 | for every input for which the rebuild succeeds, it also succeeds with any one export's address moved to the new section's start, and the new section then covers that address |
| PeRebuild.AddressCanBeTaken | scripts/rebuild_pe_exports_from_reference.py:134-135 | for every file of 0x600 bytes with the headers of a library of one section at 0x1000, whose only export is at 0x2000, the rebuild succeeds and the new section covers that address |
| Crc32.InitCrc32 | sfx/w2k_sfx.c:69-77 | the nested loops fill the table with eight register steps from each index |
| Crc32.UpdateCrc32 | sfx/w2k_sfx.c:79-84 | the table loop computes, from every register value and for every buffer, what feeding the message bits one at a time gives |
| Crc32.ShiftLinear | sfx/w2k_sfx.c:74 | a register step is linear under exclusive or |
| Crc32.ShiftInjective | sfx/w2k_sfx.c:74 | and loses nothing |
| Crc32.FeedIsShifts | sfx/w2k_sfx.c:79-84 | bits fed one by one act like the whole run xored in at once and shifted |
| Crc32.FeedJoins | sfx/w2k_sfx.c:326 | the register of a concatenation is the register of its parts in turn |
| CrcDetection.BurstDetected | sfx/w2k_sfx.c:338 | messages of equal length that differ only within 32 consecutive bits, at any bit position, have the same checksum exactly when they are equal |
| CrcDetection.FourBytesDetected | sfx/w2k_sfx.c:338 | the same for any four consecutive bytes |
| CrcDetection.ThirtyThreeBitsCanEscape | sfx/w2k_sfx.c:338 | two messages that differ within 33 consecutive bits and share their checksum: the bound is tight |
| CrcValues.ShiftsMove | sfx/w2k_sfx.c:69-84 | no register but zero comes back to itself after a power of two of steps |
| CrcValues.ZerosInFrontShow | sfx/w2k_sfx.c:317 | one zero byte in front, or any power of two of them, changes the checksum of every message |
| CrcValues.ConstantsAreFixed | sfx/w2k_sfx.c:317-332 | among all start values and final masks, 0xFFFFFFFF twice is the one pair that gives the empty message zero and four bytes of ones 0xFFFFFFFF |
| SfxCopy.PayloadBeforeFooter | sfx/w2k_sfx.c:310-316 | the payload is what lies between the program and its footer |
| SfxCopy.CopyAndCheck | sfx/w2k_sfx.c:312-341 | for any payload length and any pattern of read and write faults, the copy is verified exactly when all transfers deliver and the checksum is the expected one, and then what was written is the payload |
| SanitizeText.CiStartsWith | diagnostics/supermium_w2k_rc1_launcher.c:84-91 | the loop decides whether the text starts with the prefix in any letter case |
| SanitizeText.ExactSensitiveAt | diagnostics/supermium_w2k_rc1_launcher.c:278-284 | a non-empty word in any letter case that ends at a token boundary |
| SanitizeText.ParseIpv4Length | diagnostics/supermium_w2k_rc1_launcher.c:286-309 | the nested loops find exactly four groups of one to three digits, each at most 255, with dots between and a boundary behind |
| SanitizeText.ScanToken | diagnostics/supermium_w2k_rc1_launcher.c:377-383 | the end of the token and its last `@` |
| SanitizeText.LabelEquals | diagnostics/supermium_w2k_rc1_launcher.c:344-347 | the first equals sign from a label on is the label's own |
| SanitizeText.OutputAppend | diagnostics/supermium_w2k_rc1_launcher.c:317-323 | as much of the text as fits before the terminating NUL, and no more |
| SanitizeText.RewriteOne | diagnostics/supermium_w2k_rc1_launcher.c:329-389 | one turn puts out what the first applicable of its seven cases asks for and moves past it |
| SanitizeText.Sanitize | diagnostics/supermium_w2k_rc1_launcher.c:325-391 | for every input, names and capacity the buffer ends up NUL-terminated with the longest prefix of the rewritten text that fits, and no web address or path starts anywhere in it |
| RedactionTheorems.RewriteIsClean | diagnostics/supermium_w2k_rc1_launcher.c:334-389 | no `http://`, `https://`, `file://` or `blob:` in any letter case, no drive prefix and no double backslash starts anywhere in rewritten text, also not across the seam of copied and replaced parts |
| RedactionTheorems.CopiesUntilBracket | diagnostics/supermium_w2k_rc1_launcher.c:388 | up to the first angle bracket rewritten text is the input itself |
| RedactionTheorems.CleanPrefix | diagnostics/supermium_w2k_rc1_launcher.c:317-323 | cutting rewritten text off brings nothing back |
| RedactionTheorems.RewriteHasNoNul | diagnostics/supermium_w2k_rc1_launcher.c:325-391 | no NUL comes out before the terminator |
| RedactionTheorems.HarmlessTextStays | diagnostics/supermium_w2k_rc1_launcher.c:388-389 | text in which none of the seven cases applies comes out as it went in |
| RedactionCases.FirstThingGivesWay | diagnostics/supermium_w2k_rc1_launcher.c:325-391 | from any place on, the text comes out as it is up to the first place where one of the seven things stands; there the marker of the first of them in the source's order, after the kept label for a label, takes the place of the whole address, path, value, name, IPv4 address or e-mail address; then the rewriting goes on behind it |
| RedactionCases.NothingStays | diagnostics/supermium_w2k_rc1_launcher.c:388-389 | and where nothing stands it comes out as it is |
| RedactionCases.AddressLength | diagnostics/supermium_w2k_rc1_launcher.c:286-309 | an IPv4 address stands exactly where four groups of one to three digits, each at most 255, are joined by dots and followed by a boundary, a port, a path or a comma |
| RedactionCases.EmailStands | diagnostics/supermium_w2k_rc1_launcher.c:377-386 | an e-mail address stands exactly where the last at sign of the token has something on both sides |
| Ipv4Text.ParseAccepts | compat/w2k_s232.c:204-236 | four dot-separated digit runs of any length, each worth at most 255, are accepted with their values |
| Ipv4Text.ParseSpells | compat/w2k_s232.c:204-236 | and nothing else is accepted |
| Ipv4Text.OverflowRefuses | compat/w2k_s232.c:219 | giving up at the first excess digit refuses no valid text |
| Ipv4Text.ParseIpv4 | compat/w2k_s232.c:204-236 | the nested loops compute that parse, null and empty text included |
| Ipv4Print.AppendDecimalByte | compat/w2k_s232.c:453-464 | appends the decimal text of the byte and moves the cursor behind it |
| Ipv4Print.DecimalValue | compat/w2k_s232.c:453-464 | that text has the byte's value and no leading zero |
| Ipv4Print.RenderLength | compat/w2k_s232.c:473 | with its NUL an address never needs more than the 16 bytes reserved |
| Ipv4Print.RoundTrip | compat/w2k_s232.c:204-236 | parsing what the printer printed gives the same address, for every address |
| Ipv4Print.InetNtop | compat/w2k_s232.c:466-497 | fills the caller's buffer exactly when the family is IPv4, both pointers are given and text and NUL fit, and otherwise leaves it alone |
| AddrInfo.AppendResult | compat/w2k_s232.c:268-302 | links one more node behind the last, or leaves chain and heap as they were when the allocation is refused |
| AddrInfo.FreeAddrinfoChain | compat/w2k_s232.c:258-266 | takes exactly the chain's nodes off the heap, each freed once while it was live |
| GetAddrInfo.ProductAt | compat/w2k_s232.c:415-438 | the planned results are address-major, and only the very first carries the canonical name |
| GetAddrInfo.PlanFits | compat/w2k_s232.c:351-372 | every planned result fits the hints, streams pair with TCP and datagrams with UDP unless a protocol is asked for, and there are two for each address exactly when neither socket type nor protocol is given, else one |
| GetAddrInfo.PlanExplained | compat/w2k_s232.c:328-446 | the plan fails for the reasons listed for its status, and otherwise promises what the request and the answers say, in their own terms |
| GetAddrInfo.ResolvePorts | compat/w2k_s232.c:373-380 | every variant gets its port, or the request fails |
| GetAddrInfo.BuildChain | compat/w2k_s232.c:415-438 | the nested loops build that product; a refused allocation frees everything built so far |
| GetAddrInfo.GetAddrInfo | compat/w2k_s232.c:304-446 | every status is returned exactly for its own reasons. On success the chain is all that was added to the heap, and its results are, without a node, 0.0.0.0 for a passive request and 127.0.0.1 otherwise; with a spelled address the values of its parts; else the host's addresses in order, one after the other; each with the wanted socket types and protocols, the service's port for its protocol or 0, and the name on the first alone, the node or the host's. On failure the result is null and the heap holds what it held |
| GetAddrInfo.FreeAddrInfo | compat/w2k_s232.c:448-451 | takes exactly the chain's nodes off the heap |

## Left out

- Allocation failure inside the acquire calls (`compat/w2k_sync.c:189-199`): the call then returns without the lock, so the lock theorems assume that the state object was obtained.
- Initializing a lock or condition variable that is in use, and acquiring the same lock twice on one thread.
- More than one lock, condition variable and critical section at a time: `SyncSystem` has one of each.
- Failure to create a waiter's event, and the error codes of a sleep that was not signaled.
- What happens inside a gate: a stay in a critical section is one step, except the wake-all walk, which is one step per node.
- Reuse of addresses: nodes, entries and state objects are told apart by fresh numbers.
- VehList.HandlerList.Visit: its handler may only unregister itself; `VehRing.Dispatcher` has handlers that do anything, as runs of the protocol instead of one closed form.
- VehList.HandlerList.CallVectoredHandlers: the same.
- VehDispatch.CallsThePrefix: speaks of such handlers only; for others `VehCalls` says who is called, once and in which order.
- VehDispatch.NothingLost: the same; for other handlers it is `VehTheorems.FreedExactlyOnce`.
- VehDispatch.FreedMeansLastShare: the same.
- VehDispatch.DispatchException: the same; for other handlers it is `VehRing.Dispatcher.DispatchException`.
- VehRing.Dispatcher.Dispatch: the ring in memory is used by one thread; several threads are `VehProtocol`, on values.
- VehSuccessor.TwoThreadsCanStray: the model stops a walk that has resumed at a freed entry; what the program would go on to read is not described.
- Installing the dispatcher and import hooks of `compat/w2k_veh.c`, its module-handle and SID wrappers, and the rest of `compat/w2k_sync.c` and `compat/w2k_job.c`: thin wrappers over system queries.
- ResolverProof.ResolverIsTransparent: instructions are fetched from the emitted bytes, not from the modelled memory, and one use runs at a time; the slot and the two import cells must lie clear of the stack in use.
- The fixed-offset patches, hashes, relocations and manifests of the two patch scripts.
- The branch of the export rebuild that extends the last section when the headers have no room (`scripts/rebuild_pe_exports_from_reference.py:104-117`, `185-197`).
- Parsing the input and reference libraries into export lists and headers, duplicate canonical names, checksum generation and the written manifest; the checksum is a parameter.
- PeSection.AppendSection: field positions are those of a PE32 optional header with an export entry.
- Folder and display names in the self-extractor's footer, its dialogs, temporary files and the cabinet callback; read and write faults are inputs.
- Absence of e-mail addresses, IPv4 addresses and the two names from redacted text: the boundary rules look at the input around a match, so a token such as `a@b@` passes through.
- Locales other than C in the redactor's letter classes.
- Services and hosts of `getaddrinfo` (`compat/w2k_s232.c:192-202`, `238-256`, `394-413`): what they resolve to is an input.
- The forwarding stubs and the module loading of `compat/w2k_s232.c`.
