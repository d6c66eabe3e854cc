# A verified model of the file system, card, fixed-point and linker-template code

This project models, in Dafny 4.11, the parts of the SDK whose behaviour is hardest to see from one
function at a time, and proves what callers rely on. `dafny verify dfyconfig.toml` checks all of it.

## What is modelled

**The command queue of an archive** (`fs_queue*.dfy`, `fs_archive.dfy`). Read, seek and path commands of
client threads, completion callbacks, and suspend, resume and unload requests share one queue. Each stretch
of code between `OS_DisableInterrupts` and `OS_RestoreInterrupts` is one atomic step. `CommandQueue` gives the
steps as functions of the archive's state; `QueueMachine` interleaves them for any number of threads and
callbacks; `QueueSafety` and `QueueRuns` prove the invariant and what it says about the record of a run;
`QueueTheorems` states the results for every reachable state, and `QueueControl` says how a caller gets
there and who executes a command that was taken over. `QueueOutcome` says which result a command ends with,
`QueueCancel` that a cancelled command is not executed, and `QueueService` what a suspension, a SYNC send and an
unload promise their callers. `QueueSleep` adds the thread queues: who sleeps where, whom each
region wakes, and that no wake-up is lost. `ArchiveObjects` holds the archive as an object
with its flag bits and the intrusive doubly linked list, and proves each imperative region, including the
cancel sweep, equal to the function that the machine runs.

One client thread uses a file handle at a time. Starting an asynchronous access and returning
`FS_RESULT_PROC_ASYNC` is one step, its completion callback a later one. In `QueueMachine` a waiting thread may run
as soon as its wait condition holds; `SleepyExact` proves that with `OS_SleepThread` and `OS_WakeupThread` exactly the
same states are reached. Nothing is claimed about which thread runs first. A sender that sleeps in
`FSi_SendCommand` while its command is cancelled or unloaded never returns, as it waits for OPERATING alone
(`NeverReturns`, `LeftAsleep`). The claims about runs hold while
`FS_UnloadArchive` finds the archive unattended when it wakes up (`Orderly`): it sleeps in `FS_SuspendArchive`
only until `SUSPENDING` is cleared, and a second thread may have resumed the archive before it wakes.
`UnloadWakeExact` shows that this is exactly the case in which the invariant is lost, `AttendedWake` says what
then breaks, and `RacingUnload` gives a run that gets there. A caller can rule it out: `OneController` proves that
every run is orderly in which one thread alone suspends, resumes and unloads the archive.

A command is out of reach of a cancellation once it is in somebody's hands: `CancelledIsNotExecuted` and
`InHandsIsExecuted` are the two halves. A command that is cancelled before `FSi_SendCommand` has queued it is caught
exactly if no sweep comes in between and the command does not start at once (`CancelledBeforeQueued`).

**Names and paths** (`fs_tree.dfy`, `fs_table.dfy`, `fs_encode.dfy`, `fs_findpath.dfy`, `fs_pathname.dfy`,
`fs_lookup.dfy`, `fs_getpath.dfy`, `fs_roundtrip.dfy`, `fs_deeppath.dfy`). A directory tree, its byte encoding in the name table,
the directory handle that decodes it, path lookup from any stored position, the construction of a path from right
to left, the round trip between the two, and where a lookup starts, with several archives and a current
directory. Three cases in which the code does less than it seems to promise are
stated exactly, for all inputs: archive names of two bytes that end in 0xFF are taken for three bytes long
(`LengthExact`, `BuiltPathSplits`); with 4096 directories only the root is searched for a file (`SearchExact`,
with the tree of `ChainMisses`); and the length of a path is kept modulo 65536, so that the fill leaves the buffer
for every path of 65535 bytes or more that passes the test of the buffer's length, and for no other
(`GetPathCommand`, `LengthWraps`, with the tree of `ChainOverruns`).

**Preloaded tables** (`fs_preload.dfy`), **overlay destructors** (`fs_overlay.dfy`): copying both tables into
memory changes no lookup, and the copy fits in the reported size exactly if that size does not overflow
(`SizeExact`, `InsideExact`); unloading an overlay is a stable in-place partition of the destructor chain.

**The card** (`card_device.dfy`, `card_spi.dfy`, `card_backup.dfy`, `card_rom.dfy`). Backup devices that decode
commands and addresses, wrap inside a page and, as flash, only clear bits; the SPI code that drives them; the
ARM7's dispatcher, which refuses what a device is not capable of; the streams of requests that are cut into
256-byte chunks or sectors, sending, verifying, receiving and erasing; sector writes; ROM reads through the
one-page cache and by DMA. Readiness of a device and cancellation are arbitrary at every point where the code
looks at them; a device that nothing polls stays busy. Before the first ROM read the cache claims to hold page 0,
which it has never read: `DeliveredAtStart` says exactly when that shows. Flash of 8 megabytes from a vender other
than 0 and 1 gets no erase time: `EraseBackupSectorCore` says exactly which erases it then reports without having
done them.

**makelcf** (`lcf_tokens.dfy`, `lcf_loops.dfy`, `lcf_nesting.dfy`, `lcf_memtype.dfy`). The flat token buffer with loop ends, its
parser actions and its interpreter, against the nested template, and where the two part (`SameMeaning`,
`TokenBehindDiffers`); and the recursive search for a section's memory class, which the
loops over sections run twice; `MembersPrinted` and `SectionsPrinted` say what a loop prints. On AFTER names without cycles both passes agree (`PassesAgree`); `CycleDiffers`
gives a cycle on which they do not.

**Fixed point** (`fx_*.dfy`). Magnitude with the 64-bit and 32-bit words of the source (exact rounding holds if
and only if four times the sum of squares is below (2^31 - 1) squared), the octant symmetries of `FX_Atan2Idx` and
the exact inputs for which the index leaves its table, the distance of the table from the arc tangents, and matrix
concatenation: independence of aliasing and
an error bound. The divider is truncating division, the square-root unit the integer square root.

`basics.dfy`, `bytes.dfy` and `fx_words.dfy` hold options, bytes, memory patches, division facts, word casts and
vectors.

## Model

| member | source | states |
|---|---|---|
| QueueTheorems.OneOperatingHead | libraries/fs/src/fs_archive.c:56-215 | in every reachable state an OPERATING file is the head of the list, none is while SUSPEND is set, and the list is empty unless the archive is RUNNING or SUSPEND |
| QueueTheorems.OneExecutor | libraries/fs/src/fs_archive.c:124-215 | at most one thread runs the archive's commands, only while it is RUNNING, and it works on the head of the list; a SYNC command runs in the waiting client, any other in the executor |
| QueueTheorems.OnlyTheWaiter | libraries/fs/src/fs_file.c:319-355 | a queued command that a waiter has taken over is run by nobody else |
| QueueTheorems.InSubmissionOrder | libraries/fs/src/fs_archive.c:162-215 | commands are executed in submission order, each at most once, and every submission is executed, dropped by a cancellation or an unload, or still queued |
| QueueTheorems.LockedWhileExecuting | libraries/fs/src/fs_archive.c:75-111 | ACTIVATE and IDLE come in pairs and every command is executed between an ACTIVATE and the next IDLE |
| QueueTheorems.AlternatingDepth | libraries/fs/src/fs_archive.c:75-111 | strict alternation bounds the number of open ACTIVATE calls by 0 and 1 at every point of the record |
| QueueTheorems.NeverStuck | libraries/fs/src/fs_archive.c:84-146 | while the archive is RUNNING, the condition of some step that moves its commands on holds |
| QueueTheorems.ReachableGood | libraries/fs/src/fs_archive.c:56-215 | the invariant and the record's properties hold in every reachable state |
| QueueRuns.EveryRun | libraries/fs/src/fs_archive.c:56-215 | every orderly run from a good state ends in a good state |
| QueueRuns.Step | libraries/fs/src/fs_archive.c:56-215 | each of the 21 kinds of step keeps the invariant and the order of execution |
| QueueSafety.UnloadWakeExact | libraries/fs/src/fs_archive.c:352-396 | an unload that wakes up keeps the invariant if and only if it finds the archive unattended |
| QueueTheorems.RacingUnload | libraries/fs/src/fs_archive.c:466-489 | a run of three threads in which an unload releases the command that another thread is executing |
| QueueControl.OneController | libraries/fs/src/fs_archive.c:352-396 | if one thread alone suspends, resumes and unloads the archive, every run is orderly |
| QueueControl.ControlledIsReachable | libraries/fs/src/fs_archive.c:352-396 | so every such run from a fresh archive ends in a state of which all the results hold |
| QueueControl.AttendedWake | libraries/fs/src/fs_archive.c:352-396 | an unload that wakes on an attended archive leaves it RUNNING with an empty list and nobody about to advance: then a thread goes on with a command in no list, or no step can ever move the commands on |
| QueueControl.TakenOverRunsAsOwn | libraries/fs/src/fs_file.c:319-355 | in every run from a state in which a waiter sleeps for a queued command, that command is executed by the waiter or not at all |
| QueueOutcome.EndsAsReported | libraries/fs/src/fs_command.c:8-73 | in every run from a fresh archive, a file that is no longer BUSY shows the result reported last for its last command, by the completion of its access or by its command function, and CANCELED if the command was released unexecuted |
| QueueCancel.SweepExact | libraries/fs/src/fs_archive.c:60-73 | a queued command is released by the sweep exactly if CANCELING is set for the archive and CANCEL for its file; then it shows CANCELED and is not chosen |
| QueueCancel.CancelledIsNotExecuted | libraries/fs/src/fs_file.c:357-372 | a queued command that is cancelled while it is in nobody's hands is executed in no run; it is released unexecuted or still queued |
| QueueCancel.CancelledShowsCanceled | libraries/fs/src/fs_file.c:357-372 | when its file is no longer BUSY, and no other command was sent with it, it shows CANCELED |
| QueueCancel.InHandsIsExecuted | libraries/fs/src/fs_archive.c:56-122 | the other half: a command that is in somebody's hands is released by no cancellation or unload of an orderly run; it leaves the list executed |
| QueueCancel.CancelledBeforeQueued | libraries/fs/src/fs_archive.c:162-208 | a command cancelled before it is queued is caught exactly if CANCELING is still set when it is queued and it does not start at once |
| QueueCancel.NotSwept | libraries/fs/src/fs_archive.c:60-73 | without CANCELING, and without another cancellation or unload, no command is released unexecuted in any run |
| QueueService.SuspendStops | libraries/fs/src/fs_archive.c:466-489 | behind a call of FS_SuspendArchive, until a resume or an unload, at most one more command is executed, none if the archive was not RUNNING, and when the call returns the archive is suspended |
| QueueService.SuspendedRunsNothing | libraries/fs/src/fs_archive.c:75-122 | while the archive is suspended no command is executed |
| QueueService.SenderServes | libraries/fs/src/fs_archive.c:162-215 | in every run a thread that sends a blocking or SYNC command stays in the call until it has itself run and released the command |
| QueueService.WaiterServes | libraries/fs/src/fs_file.c:319-355 | the same for a thread that has taken a command over in FS_WaitAsync |
| QueueService.SendQueues | libraries/fs/src/fs_archive.c:162-208 | an uninterrupted send queues the command last, with its handle BUSY and in SYNC mode exactly if it was or is asked to be, and changes nothing else but RUNNING |
| QueueService.UnloadEmpties | libraries/fs/src/fs_archive.c:352-396 | behind an unload no archive is loaded and nothing is queued; what was queued shows CANCELED and counts as released unexecuted |
| QueueSleep.SleepStep | libraries/fs/src/fs_archive.c:84-146 | behind every region every thread that is still asleep has a wait condition that still says so: the regions wake all whose condition they change |
| QueueSleep.NoLostWakeup | libraries/fs/src/fs_archive.c:84-146 | in every run with sleep and wake-up, a thread whose condition to go on holds is awake |
| QueueSleep.SomebodyAwake | libraries/fs/src/fs_archive.c:84-146 | while the archive is RUNNING, some thread that is awake can move its commands on |
| QueueSleep.SleepyExact | libraries/fs/src/fs_archive.c:84-215 | with sleep and wake-up exactly the states of the machine are reached |
| QueueSleep.NeverReturns | libraries/fs/src/fs_archive.c:205-208 | a sender or waiter that sleeps for OPERATING while its command is released stays in that sleep in every run |
| QueueSleep.LeftAsleep | libraries/fs/src/fs_archive.c:352-396 | a run of four regions in which a sender is left in its sleep by an unload |
| ArchiveObjects.FSArchive.constructor | libraries/fs/src/fs_archive.c:236-244 | a new archive is the empty queue with all flags clear |
| ArchiveObjects.FSArchive.CutFromListCore | libraries/fs/include/util.h:90-98 | the two link assignments, also when the predecessor is the sentinel |
| ArchiveObjects.FSArchive.CutFromList | libraries/fs/include/util.h:100-105 | the element leaves the queue wherever it was, the rest stays a doubly linked list in order |
| ArchiveObjects.FSArchive.AppendToList | libraries/fs/include/util.h:107-118 | wherever the element was, it is now the last one of a doubly linked list |
| ArchiveObjects.CutKeeps | libraries/fs/include/util.h:90-98 | cutting keeps both link directions of the remaining queue, even when list.next was moved past the head before |
| ArchiveObjects.AppendKeeps | libraries/fs/include/util.h:107-118 | linking behind the last element keeps both link directions |
| ArchiveObjects.FSArchive.ReleaseCommand | libraries/fs/src/fs_command.c:8-19 | the file leaves the queue, its status bits are cleared and its result is set |
| ArchiveObjects.FSArchive.TranslateBegin | libraries/fs/src/fs_command.c:21-31 | equal to the machine's step: IS_SYNC or IS_ASYNC by the file's mode |
| ArchiveObjects.FSArchive.TranslateEnd | libraries/fs/src/fs_command.c:64-70 | equal to the machine's step: an asynchronous command is released, a synchronous one keeps its result for the waiter |
| ArchiveObjects.FSArchive.CancelSweep | libraries/fs/src/fs_archive.c:60-73 | the sweep ends although it restarts at the head; exactly the CANCEL files are released with CANCELED and the rest keeps its order |
| ArchiveObjects.FSArchive.NextCommand | libraries/fs/src/fs_archive.c:56-122 | equal to the machine's step: sweep, choice of the head, RUNNING, SUSPENDING to SUSPEND, and when ACTIVATE and IDLE are due |
| ArchiveObjects.FSArchive.SetOperating | libraries/fs/src/fs_archive.c:89-90 | equal to the machine's step |
| ArchiveObjects.FSArchive.BeginAsync | libraries/fs/src/fs_archive.c:124-146 | equal to the machine's step; the executor keeps the command only if it is still asynchronous |
| ArchiveObjects.FSArchive.PrepareCommand | libraries/fs/src/fs_archive.c:162-169 | equal to the machine's step before the first region |
| ArchiveObjects.FSArchive.SendCommand | libraries/fs/src/fs_archive.c:171-208 | equal to the machine's step: rejected, started, queued or asleep, with the file at the end of the list |
| ArchiveObjects.FSArchive.SuspendArchive | libraries/fs/src/fs_archive.c:466-489 | equal to the machine's step up to the sleep |
| ArchiveObjects.FSArchive.ResumeArchive | libraries/fs/src/fs_archive.c:491-514 | equal to the machine's step |
| ArchiveObjects.FSArchive.ReleaseAll | libraries/fs/src/fs_archive.c:373-378 | the loop ends and every queued file, and no other, is released with CANCELED |
| ArchiveObjects.FSArchive.UnloadArchive | libraries/fs/src/fs_archive.c:352-396 | equal to the machine's step |
| ArchiveObjects.FSArchive.NotifyAsyncEnd | libraries/fs/src/fs_archive.c:528-549 | equal to the machine's step on the head of the list, whose result EndsAsReported follows |
| ArchiveObjects.FSArchive.WaitAsync | libraries/fs/src/fs_file.c:319-355 | the caller becomes the owner exactly of a busy command that is neither SYNC nor OPERATING, and takes it over |
| ArchiveObjects.FSArchive.CancelFile | libraries/fs/src/fs_file.c:357-372 | equal to the machine's step, which CancelledIsNotExecuted is about |
| NameTree.PathLeads | libraries/fs/src/fs_command_default.c:200-268 | the path of a directory leads from the root to that directory, whatever follows it |
| NameTree.DirRoundTrip | libraries/fs/src/fs_command_default.c:270-426 | resolving the path of a directory gives that directory |
| NameTree.FileRoundTrip | libraries/fs/src/fs_command_default.c:270-426 | resolving the path of a file gives its file id |
| NameTree.LookupOwn | libraries/fs/src/fs_command_default.c:240-246 | in a directory with names distinct up to case a name finds its own entry |
| NameTree.FileIdCounts | libraries/fs/src/fs_command_default.c:144-198 | the id of a file is the first id of its directory plus the number of files in front of it |
| NameTree.DirNameExact | libraries/fs/src/fs_command_default.c:236-257 | a component in front of a slash leads into the first directory of that name up to case, and fails if there is none |
| NameTree.FileNameExact | libraries/fs/src/fs_command_default.c:236-267 | a file path ends in the first file of that name and fails if there is none; the empty path is a directory and no file |
| NameTree.AlikePathsLead | libraries/fs/include/util.h:121-124 | a path with backslashes for slashes, or with letters in the other case, leads to the same place |
| NameTree.DotPaths | libraries/fs/src/fs_command_default.c:219-230 | "." stays, ".." goes to the parent and at the root stays there, and an empty component fails |
| NameTree.DownAndUp | libraries/fs/src/fs_command_default.c:200-268 | the name of a subdirectory followed by ".." leads back |
| NameTree.LongNameFails | libraries/fs/src/fs_command_default.c:232-233 | a component of more than 127 bytes fails |
| NameTree.PathText | libraries/fs/src/fs_command_default.c:399-420 | the path of a directory is that of its parent, the name under which it is listed there, and a slash |
| NameTable.DecodeExact | libraries/fs/src/fs_command_default.c:144-198 | decoding succeeds on exactly the encoded entries and gives the entry back, with and without the name |
| NameTable.DirHandle.ReadTable | libraries/fs/src/fs_command_default.c:51-83 | the bytes at the position, which moves on also when the read fails |
| NameTable.DirHandle.SeekDir | libraries/fs/src/fs_command_default.c:118-142 | index, position and parent come from the directory's header, or from the caller for a stored position; a failed read changes nothing |
| NameTable.DirHandle.SeekDirDirect | libraries/fs/src/fs_command_default.c:85-94 | on a table that encodes a tree the handle stands in front of the first entry of the directory |
| NameTable.DirHandle.SeekDirTo | libraries/fs/src/fs_command_default.c:118-142 | a stored position leads back to the entry in front of which it was taken |
| NameTable.DirHandle.ReadDir | libraries/fs/src/fs_command_default.c:144-198 | the entry that the bytes encode, the next position and the next file id; a failure moves nothing |
| NameTable.DirHandle.ReadEntry | libraries/fs/src/fs_command_default.c:144-198 | reading on yields the encoded entries one by one with consecutive file ids, and fails behind the last one |
| TableEncoder.TableEncodes | libraries/fs/src/fs_command_default.c:118-198 | every tree whose numbers fit has a byte table that the directory handle reads as that tree |
| TableEncoder.GoodHasTable | libraries/fs/src/fs_command_default.c:118-198 | every well-formed tree with 16-bit file ids and a table below 2^32 bytes has a table that encodes it |
| FindPath.StrNICmp | libraries/fs/src/fs_command_default.c:33-49 | zero exactly for strings that are equal up to the case of A to Z, in 32-bit arithmetic |
| FindPath.FollowName | libraries/fs/src/fs_command_default.c:208-262 | one component: "." stays, ".." goes to the parent and stops at the root, an empty or overlong one fails, others go to their entry |
| FindPath.FindPathCommand | libraries/fs/src/fs_command_default.c:200-268 | on the byte table of any tree with 16-bit file ids, well-formed or not, and from any stored position, the result is the recursive walk over the tree; a directory that is found is positioned at its start, unless the walk never left the one it began in |
| PathName.GetPackedName | libraries/fs/src/fs_archive.c:14-34 | the lower-case bytes of the name, low byte first, in 32-bit arithmetic |
| PathName.PackSame | libraries/fs/src/fs_archive.c:246-258 | two archive names are found as the same archive exactly if they are equal up to case |
| PathName.LengthExact | libraries/fs/src/fs_command_default.c:326-331 | the length test is right exactly for names other than two bytes ending in 0xFF |
| PathName.SplitPath | libraries/fs/src/fs_file.c:76-135 | equal to the split into root, archive or current directory and the rest, whose meaning FindPath states |
| PathName.SplitBuilt | libraries/fs/src/fs_file.c:90-117 | a path built as "arc:/rest" is split at its prefix |
| PathLookup.FileSystem.FindArchive | libraries/fs/src/fs_archive.c:246-258 | the first registered archive with the packed name, or none exactly if there is none |
| PathLookup.FileSystem.FindPath | libraries/fs/src/fs_file.c:76-135 | a path with a leading slash or backslash is looked up from the root of the current archive, whatever the current directory is; "name:rest" from the root of the first archive of that packed name, with the errors for one that is missing or not loaded; any other path as a whole from the current directory |
| PathLookup.SlashBehindColon | libraries/fs/src/fs_file.c:113-115 | a slash or backslash right behind the colon makes no difference |
| GetPath.FindFile | libraries/fs/src/fs_command_default.c:295-316 | a directory that lists the file, or none exactly if none of the searched directories lists it |
| GetPath.SearchExact | libraries/fs/src/fs_command_default.c:303-316 | an existing file is missed exactly if there are 4096 directories and it is not in the root |
| GetPath.MeasureDirs | libraries/fs/src/fs_command_default.c:337-354 | the length pass over the parents gives the length of the directory's path |
| GetPath.FillName | libraries/fs/src/fs_command_default.c:399-415 | "name/" of one directory goes right in front of what is written and nothing else changes, unless it would begin in front of the buffer |
| GetPath.FillDirs | libraries/fs/src/fs_command_default.c:399-420 | the right-to-left fill leaves the buffer exactly if the path is longer than what is in front; otherwise it ends exactly behind the prefix and has written the rest of the string |
| GetPath.LocatePath | libraries/fs/src/fs_command_default.c:288-360 | the directory and the 16-bit length, from the handle, the stored result or the search |
| GetPath.GetPathCommand | libraries/fs/src/fs_command_default.c:270-426 | it fails exactly if the directory is not found or the buffer is smaller than the stored length; otherwise a path that fits 16 bits with its NUL is in the buffer and nothing behind it changes, and any other one overruns the buffer |
| GetPath.LengthWraps | libraries/fs/src/fs_command_default.c:356-422 | filled from its stored length downwards, a path ends behind the prefix exactly if it fits 16 bits with its NUL, and else in front of the buffer |
| DeepPath.ChainOverruns | libraries/fs/src/fs_command_default.c:356-363 | a nest of 513 to 520 directories with a table, whose path is stored with a length below 1000 |
| DeepPath.ChainMisses | libraries/fs/src/fs_command_default.c:303-316 | 4096 nested directories with a table, whose innermost file is not found |
| PathRoundTrip.BuiltPathSplits | libraries/fs/src/fs_command_default.c:326-390 | the C string in the buffer names the archive and the rest of the path for exactly the archive names other than two bytes ending in 0xFF |
| PathRoundTrip.PathLeadsBack | libraries/fs/src/fs_file.c:76-135 | looking up a built path leads to the same archive and the same directory or file id |
| PathRoundTrip.ThereAndBack | libraries/fs/src/fs_file.c:76-135 | building a path into a buffer, splitting the C string in it and looking up the rest from the root gives back the archive and the directory or file id, whenever the path was completed |
| TablePreload.Archive.LoadTables | libraries/fs/src/fs_archive.c:398-436 | the aligned copies hold what the reads gave, nothing else in memory changes, and the model stops exactly at a write outside the block; too little room changes nothing; a table of 2^31 bytes or more is read as nothing |
| TablePreload.SizeExact | libraries/fs/src/fs_archive.c:406-409 | the aligned copy of both tables fits in the reported size exactly if that size is computed without overflow |
| TablePreload.InsideExact | libraries/fs/src/fs_archive.c:398-436 | no write leaves the block if the reported size does not overflow, however the reads end; if both tables are written whole, one does exactly if it overflows |
| TablePreload.Archive.UnloadTables | libraries/fs/src/fs_archive.c:438-464 | the table positions of FS_LoadArchive are back and the memory block is returned |
| TablePreload.Archive.OpenFileFast | libraries/fs/src/fs_command_default.c:428-457 | the range that the FAT gives for the id, with the 32-bit position |
| TablePreload.PreloadKeepsLookups | libraries/fs/src/fs_archive.c:398-436 | after both reads succeed the table encodes the same tree and every file id has the same range |
| TablePreload.LookupAcrossLoad | libraries/fs/src/fs_archive.c:398-436 | looking up a path from any directory gives the same result before and after a load whose reads succeed, of tables below 2^31 bytes |
| TablePreload.OpenAcrossLoad | libraries/fs/src/fs_archive.c:398-464 | opening by any file id gives the same range before a load whose reads succeed, after it and after unloading, for a FAT of whole entries and tables below 2^31 bytes; unloading gives the block back and restores the archive |
| TablePreload.OpensById | libraries/fs/src/fs_command_default.c:428-457 | with the FAT of a list of files, written low byte first, an id modulo 2^29 gives the first byte of its file and the byte behind it, and fails behind the last file |
| TablePreload.UnloadRestores | libraries/fs/src/fs_archive.c:438-464 | unloading the tables restores the state before the load |
| OverlayEnd.Chain.Move | libraries/fs/src/fs_overlay.c:303-318 | one entry moves from the chain to the removed list, both stay linked |
| OverlayEnd.Chain.Detach | libraries/fs/src/fs_overlay.c:286-325 | the walk leaves the entries outside the region in the chain and links those inside in chain order |
| OverlayEnd.Chain.RunAll | libraries/fs/src/fs_overlay.c:331-337 | the destructors of the removed entries run in order, entries without one are skipped |
| OverlayEnd.Chain.EndOverlay | libraries/fs/src/fs_overlay.c:284-339 | it ends; the overlay's destructors have run once each in chain order, the other entries remain in order, and no remaining entry has its object, or without an object its destructor, inside the overlay |
| OverlayEnd.SelectSplits | libraries/fs/src/fs_overlay.c:284-339 | what runs and what stays are together the old chain |
| OverlayEnd.SelectOrders | libraries/fs/src/fs_overlay.c:284-339 | both parts keep the order of the chain |
| OverlayEnd.CallsExact | libraries/fs/src/fs_overlay.c:331-337 | exactly the destructors of the entries that have one are called, each with the object of its entry |
| OverlayEnd.CallPlace | libraries/fs/src/fs_overlay.c:331-337 | the call for an entry comes behind those for the entries in front of it and before all others |
| BackupDevice.IdentifyBackupCore | libraries/card/src/card_spi.c:212-350 | exactly the known device types are identified; then the page size is that of the device, pages divide sectors, sectors divide the device, every address fits the command, and page writes exist exactly on flash up to 2 megabytes; erases wait exactly on flash but that of 8 megabytes from a vender other than 0 and 1 |
| BackupDevice.AddressDecodes | libraries/card/src/card_spi.c:175-195 | the device recovers operation and address from the bytes of the command word, for one, two and three address bytes |
| BackupDevice.PageIsFlat | libraries/card/src/card_spi.c:364-389 | a program that stays inside a page does not wrap: it is the flat write |
| BackupDevice.FlatAgain | libraries/card/src/card_request.c:50-68 | repeating a request, wholly or in part, writes the longer of the two prefixes |
| Bytes.AndBits | libraries/card/src/card_spi.c:364-389 | a bit of the bitwise and is set exactly if that bit of both operands is |
| BackupDevice.FlatClears | libraries/card/src/card_spi.c:364-389 | programming flash clears in the range exactly the bits that are clear in the data, and changes no other bit |
| BackupDevice.ProgramTakes | libraries/card/src/card_backup.c:60-63 | a programmed range of flash holds the source exactly if every bit that is set in the source was set before |
| CardSpi.Bus.CommArrayWrite | libraries/card/src/card_spi.c:117-150 | the bytes reach the device one by one, and it executes the command with the last byte of the announced length |
| CardSpi.Bus.CommandEnd | libraries/card/src/card_spi.c:69-88 | the wait ends; it reports TIMEOUT if a wait was asked for and the device is still busy, and then it has slept for the longer of the two times, which it never exceeds |
| CardSpi.Bus.AddressCommand | libraries/card/src/card_spi.c:175-195 | a write-enabled command with an address makes a ready device program, write or erase exactly there; a busy one ignores it |
| CardSpi.Bus.WritePages | libraries/card/src/card_spi.c:364-416 | with the page size of the driver no program wraps in the page of the device: the page loop writes a prefix of the data flatly, all of it on success, which follows if no wait runs out |
| CardSpi.Bus.ProgramBackupCore | libraries/card/src/card_spi.c:364-389 | a flat write of a prefix of the data, complete on success; on flash a bit of that range is set afterwards exactly if it was set before and is set in the data |
| CardSpi.Bus.WriteBackupCore | libraries/card/src/card_spi.c:391-416 | the same by page writes, which overwrite, on the devices that the dispatcher lets through |
| CardSpi.Bus.EraseBackupSectorCore | libraries/card/src/card_spi.c:434-454 | misaligned requests, and no others, are refused unchanged; otherwise a prefix of the sectors is erased, on success all of them exactly if the device has an erase time or there is at most one |
| CardSpi.Bus.ReadBackupCore | libraries/card/src/card_spi.c:352-362 | on success the bytes are those of the device at that address, which does not change |
| CardSpi.Bus.VerifyBackupCore | libraries/card/src/card_spi.c:418-432 | success exactly if the device holds the bytes, unless it does not respond |
| CardBackup.Dispatch | libraries/card/src/ARM7/card_request.c:78-147 | a request is refused exactly if its capability bit is clear, and otherwise has the effect of its core function on a cleared result |
| CardBackup.Request | libraries/card/src/card_request.c:36-72 | with all its retries a request to program or write has written a prefix of its data flatly, all of it on success; one to verify succeeds only on equal bytes; a time-out is reported only if every attempt ran into one |
| CardBackup.RequestStream | libraries/card/src/card_backup.c:13-71 | the chunked request is one flat write on success and otherwise a prefix that ends in the first unfinished chunk; bytes outside never change; what was verified is in the device; the cancellation flag is looked at in front of every chunk; without time-outs and cancellation a verified stream fails exactly if the memory does not take the source |
| CardBackup.OverwritesTake | libraries/card/src/card_backup.c:13-71 | memory that is overwritten takes every source: a verified stream to it never fails to compare |
| CardBackup.ProgramAndVerify | include/nitro/card/backup.h:54-61 | programming flash with verification clears exactly the clear bits of a prefix of the source; without time-outs and cancellation it succeeds exactly if no bit would have to be set; it reports a time-out only behind ten waits that ran out |
| CardBackup.RequestReceive | libraries/card/src/card_backup.c:13-71 | a prefix of the range, all of it on success, arrives in memory, and nothing else changes there or in the device |
| CardBackup.RequestEraseStream | libraries/card/src/card_backup.c:13-71 | erasing sector by sector erases a prefix of the range, all of it on success, with and without an erase time |
| CardBackup.ErasedThenProgram | libraries/card/src/card_backup.c:73-130 | programming an erased range is overwriting it |
| CardBackup.ProgramSector | libraries/card/src/card_backup.c:96-126 | the page loop over an erased sector leaves the sector equal to the source |
| CardBackup.RequestWriteSectors | libraries/card/src/card_backup.c:73-130 | without failure and cancellation the range equals the source and all other bytes are untouched, with and without verification, which compares all of it; on flash nothing fails unless a wait runs out; misaligned requests are refused, and a device that cannot erase keeps its contents |
| CardRom.Reader.ReadFromCache | libraries/card/src/card_rom.c:26-46 | the part of the request that the cached page covers is copied and consumed |
| CardRom.Reader.ReadCard | libraries/card/src/card_rom.c:149-195 | the loop ends and copies exactly the bytes of the ROM; the cached page is the page it is tagged with |
| CardRom.Reader.ReadRomSync | libraries/card/src/card_rom.c:244-253 | the cached head as it is and the rest from the ROM arrive, nothing else in memory changes |
| CardRom.Reader.DeliveredIsRom | libraries/card/src/card_rom.c:26-46 | while the cache is right, what arrives is exactly the ROM |
| CardRom.DeliveredAtStart | libraries/card/src/card_rom.c:26-46 | before the first read, what arrives is the ROM exactly if the request starts behind page 0 or meets only zero bytes there |
| CardRom.Reader.DmaChain | libraries/card/src/card_rom.c:72-96 | the chain of page transfers ends and copies exactly the bytes of the ROM |
| CardRom.Reader.TryReadCardDma | libraries/card/src/card_rom.c:98-141 | it starts exactly under its alignment conditions and then delivers the whole request |
| CardRom.Reader.ReadRom | libraries/card/src/card_rom.c:255-286 | by DMA or by the processor, the bytes of the ROM arrive and the cache stays right |
| LcfTokens.TokenBuffer.StoreToken | tools/makelcf/tlcf.y:102-117 | the token is appended unless the buffer is full |
| LcfTokens.TokenBuffer.PushLoopStack | tools/makelcf/tlcf.y:119-134 | the loop's start is on the stack and its token in the buffer unless either is full |
| LcfTokens.TokenBuffer.PopLoopStack | tools/makelcf/tlcf.y:136-153 | the loop end is the last token stored so far; an unmatched end fails |
| LcfTokens.TokenBuffer.Parse | tools/makelcf/tlcf.y:119-153 | the actions for a nested template build its flat form, and succeed if buffer and stack are large enough |
| LcfTokens.Writer.PutTokenBuffer | tools/makelcf/createlcf.c:1240-1248 | for every well-nested buffer the interpreter ends and does what nested loops do that forget their item at the end, if they have run |
| LcfTokens.Writer.ForeachSections | tools/makelcf/createlcf.c:826-864 | both passes look for the classes anew; the second runs its body for the sections it wants in order, with first, last and count, and the loop ends behind its last token |
| LcfTokens.Writer.ForeachMembers | tools/makelcf/createlcf.c:328-361 | the same for the members of the current section, with a fixed selection; without a current section the loop changes nothing |
| LcfTokens.Writer.PutTokenBufferAll | tools/makelcf/createlcf.c:1250-1253 | without a loop inside a loop of its own kind the flat buffer prints what the nested template means |
| LcfTokens.SameMeaning | tools/makelcf/createlcf.c:1240-1248 | without such nesting, forgetting the item at the end of a loop and restoring the outer one are the same |
| LcfTokens.OwnNestingDiffers | tools/makelcf/createlcf.c:826-864 | a template with such nesting on which they differ, for every specification with one overlay: behind the inner loop the current overlay is lost |
| LcfNesting.TokenBehindDiffers | tools/makelcf/createlcf.c:1240-1248 | the other half of SameMeaning: if inside a loop of the top level a token follows the last loop of its own kind, there is a valid specification on which the interpreter prints something else than nested loops |
| LcfTokens.PassesAgree | tools/makelcf/createlcf.c:826-864 | on AFTER names without cycles the second pass runs as many sections as the first has counted, whatever the body does: those of the wanted class |
| LcfTokens.CycleDiffers | tools/makelcf/createlcf.c:826-864 | a cycle of two overlays on which the first pass counts one and the second runs two, with the last one marked too early |
| LcfLoops.MembersPrinted | tools/makelcf/createlcf.c:328-361 | a loop over members with a token in it prints the token for exactly the members that the parameter selects, all with parameter 0, in the order of the list, counted from 0, the first marked first and the last member of the list marked last |
| LcfLoops.SectionsPrinted | tools/makelcf/createlcf.c:826-864 | on AFTER names without cycles a loop over sections with a token in it prints the token for exactly the sections of its list that have the class, in order, the first marked first and the last one marked last |
| LcfMemType.Layout.Recg | tools/makelcf/createlcf.c:231-284 | the search ends on every graph, changes no known class, leaves no new DUMMY mark, and returns DUMMY only for a section that was being looked for |
| LcfMemType.Layout.RecgAfters | tools/makelcf/createlcf.c:257-278 | the same for the loop over the AFTER names, with the cycle mark set |
| LcfMemType.Layout.RecgSure | tools/makelcf/createlcf.c:231-284 | on a graph without cycles it returns the class that the AFTER names agree on, and its marks are right |
| LcfMemType.Marker.Recg | tools/makelcf/createlcf.c:231-284 | the code with its marks does what that search does |
| LcfMemType.Marker.SectionMemType | tools/makelcf/createlcf.c:231-284 | a call from outside leaves no section marked DUMMY, on every graph |
| LcfMemType.Layout.OneClass | tools/makelcf/createlcf.c:231-284 | if all addresses give one class and all AFTER names are known, every known section gets that class |
| LcfMemType.Layout.ClassExact | tools/makelcf/createlcf.c:257-278 | a section without an address has a class exactly if the names it is placed after have none up to one of them and that class from that one on |
| FxAtan2.QuarterTurn | libraries/fx/src/fx_atanidx.c:158-245 | for every 32-bit vector whose table entry exists, a quarter turn adds 16384 modulo 65536 exactly unless the vector is zero or y is -2^31 and x is 0 or -2^31 |
| FxAtan2.SwapMirrors | libraries/fx/src/fx_atanidx.c:158-245 | for every 32-bit vector whose table entry exists, swapping the components mirrors the angle at the diagonal exactly unless the vector is zero |
| FxAtan2.IndexInTable | libraries/fx/src/fx_cp.c:74-77 | the rounded quotient of components other than -2^31 is an index from 0 to 128 |
| FxAtan2.IndexExact | libraries/fx/src/fx_atanidx.c:158-245 | over all 32-bit vectors the table is read outside its bounds exactly if one component is -2^31 and the other is neither that, nor zero, nor a divisor of 2048 up to sign |
| FxAtan2.IndexEscapes | libraries/fx/src/fx_atanidx.c:158-245 | a vector that reads outside the table |
| FxAtan2.DivNearest | libraries/fx/src/fx_cp.c:14-18 | for a proper quotient FX_Div is the quotient in units of 1 / 4096, rounded to nearest |
| FxAtan2.FirstOctant | libraries/fx/src/fx_atanidx.c:158-245 | between the axis and the diagonal the angle is the table entry for that slope |
| FxAtan2.SteeperIsGreater | libraries/fx/src/fx_atanidx.c:158-245 | between the axis and the diagonal a steeper vector has no smaller angle |
| FxAtan2.TableRises | libraries/fx/src/fx_atanidx.c:5-135 | the table is strictly increasing |
| FxArctan.EntryClose | libraries/fx/src/fx_atanidx.c:5-135 | entry i is less than one unit away from the arc tangent of i / 128, where 8192 units are that of 1 |
| FxVec.Subtract | libraries/fx/src/fx_vec.c:18-27 | the wrapped difference, whichever operands the result aliases |
| FxVec.DifferenceAddsUp | libraries/fx/src/fx_vec.c:18-27 | the difference and the second operand add up to the first, modulo 2^32, in every component |
| FxVec.Mag | libraries/fx/src/fx_vec.c:112-130 | half the root of four times the sum of squares in a 64-bit word |
| FxVec.Distance | libraries/fx/src/fx_vec.c:230-251 | the magnitude of the wrapped difference |
| FxVec.MagExact | libraries/fx/src/fx_vec.c:112-130 | the magnitude is rounded to nearest if and only if four times the sum of squares is below (2^31 - 1) squared |
| FxVec.MagFails | libraries/fx/src/fx_vec.c:112-130 | the vector (2^30, 0, 0), whose magnitude is not the nearest one |
| FxMtx33.Concat33 | libraries/fx/src/fx_mtx33.c:276-331 | the product, whether the result is the left operand, the right one, both or neither |
| FxMtx33.MultVec33 | libraries/fx/src/fx_mtx33.c:333-347 | the transformed vector, also in place |
| FxMtx33.IdentityKeeps | libraries/fx/src/fx_mtx33.c:276-347 | the matrix with 4096 on the diagonal keeps every vector and, on either side, every matrix |
| FxMtx33.ConcatClose | libraries/fx/src/fx_mtx33.c:276-347 | without overflow each component of transforming twice differs from transforming by the concatenation by less than (sum of the column's and the vector's absolute values) / 4096 + 1 |

## Left out

- ArchiveObjects.FSArchive: the link and status fields of FSFile are maps from handle to value inside the archive object, and NULL, the sentinel and handles are the three kinds of link; aliasing of two handles is therefore equality of numbers.
- QueueSleep.NoLostWakeup: the thread queues are those of the state machine; the imperative regions of ArchiveObjects do not carry them.
- FS_SetArchiveProc during a run, thread priorities, and the callbacks of archives other than their ACTIVATE and IDLE flags.
- GetPath.GetPathCommand: the model stops at the first write outside the buffer; what such a write destroys is not modelled.
- TablePreload.LookupAcrossLoad: directory handles and a current directory that hold a stored position in the table are not followed across the load.
- TablePreload.Archive.LoadTables: the model stops where the copy would leave the block; the tables lie inside the image, and no block reaches the last 64 bytes of the address space.
- Table reads beyond the image fail; reads that an archive callback answers in its own way are not modelled.
- TablePreload.PreloadKeepsLookups: the ranges by file id are stated for a FAT of whole entries; a file id is taken modulo 2^29, as the source multiplies it by 8 in 32 bits.
- PathLookup.FileSystem.FindPath: the archive of the current directory is loaded, and lookups run one at a time.
- OverlayEnd.Chain.EndOverlay: destructors register no new entries.
- CardBackup.RequestWriteSectors: after a failure or a cancellation on flash nothing is said about the range, since the inner loop's break does not end the outer one.
- The write-protect register, status reads of a client, and erasing pages, subsectors or the chip.
- CardSpi.Bus.EraseBackupSectorCore: a device without an erase time that nothing polls is taken to stay busy until it is polled.
- CardRom.Reader: the destination is not the cache buffer itself, and cache maintenance, DMA registers and the removal check are not modelled.
- LcfTokens.Writer: a printed token is recorded with everything that printing it can see, instead of its text; conditional template sections are taken as already decided.
- FxMtx33.ConcatClose: results that overflow 32 bits, or sums that overflow 64 bits, are excluded.
- Environment resources, cartridge flash drivers, graphics registers, digests and inline assembly.
