# Verification of the snapshot manager

This project models groundhog, a manager that runs a function server as a traced process, takes a
snapshot of its memory once it is warm, and puts the memory back after every request. It proves, with
Dafny, what the manager is for: that the process after a restore is the process that was snapshotted.

`dafny verify dfyconfig.toml` checks everything.

## What is modelled

**The process and the kernel** (`Paging`, `Pagemap`, `Process`). Memory is a map from page numbers to
protection, content, whether a frame backs the page, and its soft-dirty bit. A system call that the
manager injects, or one access to /proc, is one step on that map. `Process.behave` is an arbitrary
function that says what the program does between two commands, and `Process.kernel` an arbitrary
function that says how the kernel divides the mapped pages into maps when asked.

**Snapshot and restore** (`Layout`, `Records`, `Storage`, `MemInfo`, `Diff`, `RestoreLayout`,
`RestoreContent`, `Tracker`). The growable map table, the page table with its counters, the compact
storage of contents, the merge of two captures into four lists, the system calls that undo layout
changes, the two ways of writing contents back, and the collecting of pages to give back are classes
and loops as in the source. Each is proved against a specification on values; the specifications are
then connected to each other up to `Tracker.RestoreProcessSd`.

**The command loop** (`Commands`). `HandleStdcmd` runs the manager over any list of command lines, with
the program running in between. Its history is a ghost list of events, each from one moment of the process
(memory, break, reference of the soft-dirty bits, time) to another. Its contract is the claim of the
repository's README (groundhog_origin/README.md:62-64) over whole runs.

**Concurrency** (`JobQueue`, `ThreadPool`, `CaptureJobs`, `CaptureRefinement`). The linked job queue is a class. The pool is a
state machine whose steps are the stretches between two points at which another thread can interfere:
any number of workers, any number of threads that add work, one thread that waits. The jobs that fill
the page table are a second state machine with one step per page.

**Text** (`MapsParser`, `MapsFile`, `JsonTree`, `JsonWriter`, `Decimal`) and **statistics** (`Stats`). The
parser of /proc/pid/maps with its in-place edits, connected to the map table, the JSON writer with its bounded buffer and stack, decimal
printing, and the online mean, deviation and histogram. Floating point is modelled by real numbers.

## What is assumed about the environment

- All maps are private and anonymous: a page without a frame reads as zero (`Anonymous`).
- The kernel shows layouts that describe exactly the mapped pages, sorted, disjoint and not empty,
  divided as it likes (`Process.Honest`). Lines of [vvar], [vdso] and [vsyscall] come last. Names and
  numbers in these layouts are already cut to the fields of a record (`CutsDescribeTheSame`), so two maps
  that differ behind the cut are equal to the comparison, as they are in the code.
- A page whose content is not what it was when the bits were last cleared is shown soft-dirty or freed
  (`Tracked`); a process has to keep this true, not to make it true (`Process.Honest`). On single kernel
  steps it stays true exactly if they are legal (`TrackedExactlyWhenLegal`, `LegalProgramsAreHonest`), and
  `DroppedThenReadIsHidden` is the case in which it does not.
- At a restore there is one heap with a fixed start that ends at the break and is not the last map, and
  one stack with a fixed end that has not shrunk and has grown by less than 2 GiB, because the size to
  remove is an int; neither has run into another map of the snapshot; a
  heap or stack whose extent changed has kept its protection (`Restorable`). Without a heap or a stack, or
  with the heap as the last map, the searches give -1 (`GetMapIndexByName`, `HeapFound`) and the code
  indexes its tables with it; `HandleStdcmd` then ends the run as failed.
- Mapped memory can be read; writes may fail or stop early.
- One read of /proc/pid/pagemap is complete if its byte count is an int. (Linux stops 4 KiB short of 2^31
  bytes in one call, which makes the bound 512 pages smaller.)
- Signed arithmetic of the source that overflows has no meaning; the model fails there, except that
  negating the smallest integer and converting to a narrower integer wrap round.

## What the code does not do

Some properties hold only under a condition. Each is proved with the exact condition.

- A snapshot map that is neither readable nor writable is skipped, so its contents stay as the program
  left them (`OthersIntact` in `RestoreProcessSd`, `InaccessibleMapsCanChange`, `RestorableButNotIntact`).
- Byte counts and offsets of transfers are ints: a map of 2 GiB or more with a frame on every page cannot
  be stored, nor one with a frame 2 GiB or more from its start (`StorableVma`, `StoreWholeMap`,
  `StorePagedPages`).
- So is the byte count of a pagemap read: a map of 2^28 pages, with or without frames, makes the assertion
  on the page count fail (`ReadRangePagemap`, `CaptureProcessState`, `ReservedTerabyte`). The kernel can
  also merge maps into such a map before a restore.
- Page counts are ints: with more than 2^31 - 1 pages the page indices wrap round, and the assertion does
  not always see it (`ReadMaps`, `WrappedCountsCanAgree`).
- The size of a run to be given back is an int: 2^19 adjacent pages that had no frame and have one now
  cannot be given back in one run (`GiveBack`, `LongRunShows`, `RestoreContents`, `TwoGibibytesWritten`).
- The parser of /proc/pid/maps does not put the line end of a hidden line back, and drops every later
  line of the same piece (`ParserInvertsPrinterExactlyWhen`).
- A fraction that lies exactly half a unit below the next whole number is rounded up without a carry and
  printed as one tenth (`DtoaIsClose`, `NinesTieExample`).
- A statistics bucket has index -1 for points beyond the end if the width exceeds the range, and points
  beyond the end are counted one bucket too low if the width does not divide it
  (`BucketInArrayExactlyWhen`, `OverflowBucketExactlyWhen`).
- The error position that the JSON writer reports counts insertions only, not the ends of containers (`CallNumber`).
- The keepalive test is an equality: a keepalive of zero or less sets no bound (`NoBoundBelowOne`).

## Model

| member | source | states |
|---|---|---|
| Commands.HandleStdcmd | groundhog_origin/src/communicator.c:86-182 | Whole run over any list of command lines and any program that, from tracked memory, does what the kernel can track. A history leads from the process at the start to the process at the end: every stretch of the program is a step of its behaviour, every checkpoint leaves the memory as it is and records it, every restore ends in the memory of the latest checkpoint with the break at the end of its heap, and all requests are isolated. The replies and the kinds of the stretches are exactly the protocol's; if a command fails, they are up to that command, and the failing stretch shows a layout that cannot be captured, no snapshot, a memory that cannot be brought back, or a write refused during it |
| Commands.RequestsAreIsolated | groundhog_origin/src/proc_cr.c:616-697 | Request isolation: in every such history two requests that follow restores to the same snapshot start from the same pages, protections, readable or writable contents and break, whatever the requests before them did; a program that looks at nothing else also leaves the same memory |
| Commands.ServeCommand | groundhog_origin/src/communicator.c:109-177 | One command: the history grows by the program's stretch and by the command's own, starting from the process as it was; which commands are acknowledged, what ends the loop, and why a command fails |
| Commands.AnswerCheckpoint | groundhog_origin/src/communicator.c:110-117 | Adds exactly one event, from the process before to the process after: the contents are kept, the bits cleared, and the snapshot is of this memory in the layout shown now; it fails exactly if that layout cannot be captured |
| Commands.AnswerRestore | groundhog_origin/src/communicator.c:125-141 | Adds exactly one event, from the process before to the process after: it is the latest checkpoint again in pages, protections and accessible contents, with the break at the end of its heap, and in all contents exactly if the maps without permissions were intact; unless a write is refused in this call it succeeds exactly if the memory before can be brought back |
| Commands.AnswerDiff | groundhog_origin/src/communicator.c:118-123 | Comparing leaves the process and the snapshot as they were; only time passes |
| Commands.RunProgram | groundhog_origin/src/communicator.c:109-109 | The memory afterwards is what the program makes of the memory before, and the snapshot stays restorable whatever that is |
| Commands.OneAckPerCall | groundhog_origin/src/c_lib_tracee.c:34-74 | A program that uses the library gets exactly one acknowledgement per line that begins with checkpoint.me, restore.me, dump_stats.me or nop.me, until it is killed at a restore |
| Commands.ParseReads | groundhog_origin/src/communicator.c:94-177 | Each command is a line that begins with its word, and only such a line |
| Commands.ProtocolByText | groundhog_origin/src/communicator.c:94-177 | By the characters of the line: which answer and which stretches a line that begins with each of the nine words adds, and that any other line adds only the program's stretch |
| Commands.RestoresByText | groundhog_origin/src/communicator.c:125-141 | Of lines without data to save, the restores are the lines that begin with restore.me, up to the kill or the first one that has nothing to give back |
| Commands.KeepaliveBound | groundhog_origin/src/communicator.c:127-139 | For any lines at all: a process with keepalive of at least one is restored at most keepalive - 1 times, and killed exactly when the lines ask for more, not counting a line that is data to be saved |
| Commands.NoBoundBelowOne | groundhog_origin/src/communicator.c:127-132 | With a keepalive of zero or less the process is never killed: the bound does not exist |
| Commands.RestoresHappen | groundhog_origin/src/communicator.c:125-141 | The number of restores counted is the number of restores that happen to the process |
| Commands.SavedIsGivenBack | groundhog_origin/src/communicator.c:153-167 | give_back returns the data of the latest save_for, whatever was asked in between |
| Commands.RestoredIsSame | groundhog_origin/src/proc_cr.c:616-697 | Agreement with the snapshot's tables is agreement with the memory that was snapshotted |
| Tracking.Tracker.RestoreProcessSd | groundhog_origin/src/proc_cr.c:616-697 | From any state in which heap and stack are where the code assumes them: afterwards layout, protections, break and the contents of every readable or writable map are the snapshot's; the whole memory is, exactly if before the call every map without permissions was intact, which is stated over the memory and the layout shown then; the bits are relative to that state again and the tables unchanged. Unless a write is refused in this call, it succeeds exactly if the layout shown after the first half can be read and no run is too long to give back, both computed from the memory before |
| Tracking.Tracker.CheckpointProcessSd | groundhog_origin/src/proc_cr.c:859-962 | Succeeds exactly if the pages of the layout shown can be counted by an int, every map can be read in one read and every map can be stored; then every page's content is recorded, the memory is unchanged but for cleared bits, and the bits are relative to the snapshot |
| Tracking.Tracker.Checkpoint | groundhog_origin/src/proc_cr.c:1009-1032 | The same for a checkpoint that replaces an older one; afterwards every soft-dirty counter is zero, as the code asserts |
| Tracking.Tracker.ClearSoftDirtyBits | groundhog_origin/src/proc_cr.c:27-48 | The bits of the process and the counters of the snapshot are cleared together |
| Tracking.CaptureProcessState | groundhog_origin/src/proc_cr.c:930-962 | A capture describes exactly the mapped pages; with pages it is complete exactly if the pages can be counted and every map read, and then every record shows its page, every counter counts its map's records, and the assertion on the page count holds; otherwise that assertion fails or the counts have wrapped |
| Tracking.CapturedAt | groundhog_origin/src/proc_parsers.c:269-327 | The record at every index of the page table is that of the page the layout puts there, with its frame, soft-dirty and freed flags |
| Tracking.SnapshotTaken | groundhog_origin/src/proc_cr.c:859-899 | Capture, storing and clearing together give tables from which the contents at capture time can be restored |
| Tracking.StorableMeans | groundhog_origin/src/proc_parsers.c:353-362 | In terms of the process: a map defeats the 32-bit offsets exactly if all its pages have frames and it spans 2 GiB or more, or some have and one of these is 2 GiB or more from its start |
| Tracking.ReservedTerabyte | groundhog_origin/src/proc_parsers.c:286-297 | A reservation of 2^28 pages without a frame has nothing to store and still defeats the checkpoint, because its pagemap read cannot be complete; one page less does not |
| Tracking.WrappedCountsCanAgree | groundhog_origin/src/proc_cr.c:935-952 | The assertion on the page count does not see every layout it cannot count: sixteen reservations of 2^28 pages make both sides zero |
| Tracking.RestoreMappings | groundhog_origin/src/proc_cr.c:630-645 | First half of a restore: the memory is the one LayoutBack computes from the memory, layout and break before: the snapshot's layout, each page new or as it was; the break is the end of the snapshot's heap, and whether the maps without permissions hold their contents is decided by the memory and layout before |
| Tracking.LayoutIsBack | groundhog_origin/src/proc_cr.c:136-304 | A memory that the layout pass can end in is the one that LayoutBack computes, cell by cell |
| Tracking.RestoreContents | groundhog_origin/src/proc_cr.c:650-663 | Second half: every page of a readable or writable map has its snapshot content, maps without permissions are kept; unless a write is refused in this call it succeeds exactly if the layout shown can be read and no map that the comparison does not pass over has gained frames on 2^19 adjacent pages |
| Tracking.IndicesAgree | groundhog_origin/src/proc_cr.c:397-405 | Two captures of the same pages have the same page at every index, however the kernel merged or split the maps |
| Tracking.RecordsAgree | groundhog_origin/src/proc_cr.c:397-405 | So looking up the second capture at the snapshot map's indices finds that map's pages; the address assertion cannot fail |
| Tracking.IdenticalIsUnchanged | groundhog_origin/src/mem_diff.c:4-15 | If the comparison finds two maps identical, no page of the map is soft-dirty or freed: skipping it is sound |
| Tracking.TodoIsModified | groundhog_origin/src/proc_cr.c:498-502 | A page is worked on exactly if its map is readable or writable and was not found identical |
| Tracking.ModifiedPages | groundhog_origin/src/proc_cr.c:533-540 | The modified list never has more pages than the snapshot, so the assertion on the number of restored pages holds |
| Tracking.ContentIsBack | groundhog_origin/src/proc_cr.c:476-542 | Rewriting and giving back the modified maps' pages restores all readable or writable maps, including those that were skipped |
| Tracking.LongRunIsTouched | groundhog_origin/src/proc_cr.c:524-530 | A recorded run that is too long is such a stretch of pages in the memory it starts from |
| Tracking.TouchedIsLongRun | groundhog_origin/src/proc_cr.c:397-430 | And every such stretch is recorded as a run that is too long |
| Tracking.TwoGibibytesWritten | groundhog_origin/src/proc_cr.c:524-530 | A concrete memory that fails: 2^19 pages without frames in the snapshot, all written since; with one page less it does not |
| Tracking.ModifiedExactlyWhen | groundhog_origin/src/mem_diff.c:4-15 | The comparison passes over a map exactly if the layout shows it as it was and none of its pages is soft-dirty or without a frame |
| Tracking.RestoredExactlyWhen | groundhog_origin/src/proc_cr.c:498-502 | The whole memory is the snapshot's exactly if the maps without permissions had their contents when the layout was back |
| Tracking.OthersHoldExactlyWhen | groundhog_origin/src/proc_cr.c:160-210 | They have them then exactly if before the restore each such map was in the layout with its contents, or gone with contents that are all zero; heap and stack count as being there |
| Tracking.InaccessibleMapsCanChange | groundhog_origin/src/proc_cr.c:498-502 | From every snapshot with such a map, three tracked steps of the program lead to a memory in the same layout that a restore does not bring back |
| Tracking.RestorableButNotIntact | groundhog_origin/src/proc_cr.c:498-502 | A concrete memory of that kind, with heap and stack in place, that a restore accepts and leaves different |
| RestoreLayout.RestoreMemoryLayout | groundhog_origin/src/proc_cr.c:638-645 | Unmapping, mapping, protecting, moving the break and trimming the stack turn any current layout into the snapshot's; exactly the pages of maps that were gone and of the end the heap had lost are new and empty, all others are the pages they were |
| RestoreLayout.LayoutRestored | groundhog_origin/src/proc_cr.c:136-304 | The same about the states between the calls: exactly the snapshot's pages and protections, and for every page whether it is kept or new |
| RestoreLayout.RemoveAddedMemory | groundhog_origin/src/proc_cr.c:136-158 | Exactly the pages of the added maps whose names begin with neither [heap] nor [stack] are gone |
| RestoreLayout.RestoreRemovedMemory | groundhog_origin/src/proc_cr.c:160-210 | Exactly the pages of the removed maps whose names begin with neither [heap] nor [stack] come back, empty and with their protection |
| Tracking.NamedIsRestorable | groundhog_origin/src/proc_cr.c:261-304 | A snapshot and a current layout in which the maps called [heap] and [stack] are where the code assumes them can be restored |
| RestoreLayout.RestoreMemoryProtection | groundhog_origin/src/proc_cr.c:212-259 | The listed maps have their protection again; contents, frames and bits stay |
| RestoreLayout.RestoreBrk | groundhog_origin/src/proc_cr.c:261-280 | The break is the end of the snapshot's heap, with the pages in between added or removed |
| RestoreLayout.ZeroStack | groundhog_origin/src/proc_cr.c:284-304 | The pages by which the stack has grown are unmapped |
| RestoreLayout.MatchedPage | groundhog_origin/src/proc_cr.c:136-259 | A page of a map that is in both layouts keeps its content and ends with the snapshot's protection |
| RestoreLayout.GonePage | groundhog_origin/src/proc_cr.c:160-210 | A page of a map that is gone comes back empty with the snapshot's protection |
| RestoreLayout.OutsidePage | groundhog_origin/src/proc_cr.c:136-158 | A page outside the snapshot survives the three passes exactly if heap or stack hold it |
| RestoreLayout.BrkIsClear | groundhog_origin/src/proc_cr.c:261-280 | When the break moves up, nothing is mapped in its way |
| RestoreLayout.HeapFound | groundhog_origin/src/mem_helpers.c:95-112 | With one heap, the forward search finds it exactly if another map follows it, and gives -1 otherwise |
| RestoreContent.RestoreSoftDirtyMemory | groundhog_origin/src/proc_cr.c:476-542 | Every stored page of a map that is not skipped has its content, every page of it without stored content reads as zero, no other page is touched, and the result is the number of pages written, which is at most the pages there are; it fails if a run to give back is too long, and otherwise only for a write refused in this call |
| RestoreContent.RestoreSoftDirtyMemoryMap | groundhog_origin/src/proc_cr.c:338-474 | One map: whichever path the 60 percent threshold picks, stored pages have their content and other pages are untouched, and the count returned is that of the path that the threshold picks; the runs recorded cover exactly the pages to give back |
| RestoreContent.RestoreWholeMap | groundhog_origin/src/proc_cr.c:368-392 | Any pattern of short writes leaves the memory of one long write; success needs less than 2 GiB, failure means a write refused in this call or a larger map |
| RestoreContent.RestorePages | groundhog_origin/src/proc_cr.c:394-471 | Exactly the stored pages that the capture shows soft-dirty or freed are written and counted, each from its own slot, whose offset is an int; the branch for a slot past the last is never taken; the runs to give back are maximal |
| RestoreContent.FastEqualsSlow | groundhog_origin/src/proc_cr.c:358-471 | The whole-map write and the page-by-page path leave the same contents |
| RestoreContent.SlowPathRestores | groundhog_origin/src/proc_cr.c:394-471 | Pages that are not rewritten had their content already, by the kernel's promise |
| RestoreContent.WholeMap | groundhog_origin/src/proc_cr.c:354-374 | For a fully stored map the slots from the first on are its pages in order |
| RestoreContent.PageSlot | groundhog_origin/src/proc_cr.c:394-447 | The running count of stored pages is the rank that selects the slot, and stays below the map's count |
| RestoreContent.PendingCloses | groundhog_origin/src/proc_cr.c:406-427 | Closing a run keeps the runs of a map disjoint, ordered, maximal and exactly covering the pages to give back |
| RestoreContent.CoalescedSkips | groundhog_origin/src/proc_cr.c:406-447 | A page that stays leaves the recorded runs exact |
| RestoreContent.LongRunShows | groundhog_origin/src/proc_cr.c:406-471 | A recorded run is 2 GiB or more exactly if the map has that many adjacent pages to give back |
| RestoreContent.GiveBack | groundhog_origin/src/proc_cr.c:524-530 | Giving the runs back zeroes exactly the covered pages, in whatever order they were recorded; it succeeds exactly if the size of every run is an int |
| Diff.DiffProcessMaps | groundhog_origin/src/proc_cr.c:709-821 | The four lists are exactly what their definitions say map by map about the two captures, the merge takes at most one step per map and one that finds both ends, and as many maps are matched on one side as on the other |
| Diff.DiffProcessMapsIterator | groundhog_origin/src/mem_diff.c:22-86 | Each verdict means what its name says about all maps of both captures, not only the two compared |
| Diff.CollectedMember | groundhog_origin/src/proc_cr.c:709-815 | A list contains a record exactly if some map of the capture contributes it: removed and added are the maps whose range the other side lacks, modified the unmatched or changed ones |
| Diff.SharedEntries | groundhog_origin/src/proc_cr.c:748-776 | What the lists say about a map that both captures have, field by field: nothing exactly if the two agree in everything but where pages and copies are kept, and otherwise the snapshot's map with the current counts |
| Diff.LoneEntries | groundhog_origin/src/proc_cr.c:777-815 | What they say about a map that only one capture has, field by field: no index and no counts as added or removed, every page dirty as modified |
| Diff.CollectedSorted | groundhog_origin/src/proc_cr.c:709-815 | Every list keeps the address order |
| Diff.UnmatchedInitial | groundhog_origin/src/mem_diff.c:66-81 | A map that starts before the other side's next map, or shares just one end with it, has no counterpart at all |
| Diff.UnmatchedFinal | groundhog_origin/src/mem_diff.c:66-84 | The same for a map of the current layout |
| Diff.ProcessMemDiff.Record | groundhog_origin/src/proc_cr.c:745-815 | What a verdict adds to each list, with whose counters |
| MemoryInfo.MemInfo.AddToMaps | groundhog_origin/src/mem_helpers.c:20-42 | The map is appended, also when the table has to be doubled, and the largest region, the capacities and totals follow |
| MemoryInfo.MemInfo.AddPageToMapAtIndex | groundhog_origin/src/mem_helpers.c:44-68 | The record is stored and exactly its own map's counters move |
| MemoryInfo.MemInfo.AddPageToMap | groundhog_origin/src/mem_helpers.c:70-93 | The record goes behind those its map has; the branch that enlarges the table is unreachable |
| MemoryInfo.MemInfo.ReadMaps | groundhog_origin/src/proc_parsers.c:155-267 | The table holds the visible maps in order, with region sizes and running counts of pages and of writable pages as 32-bit arithmetic leaves them; while all pages fit into an int these are the sizes, the prefix sums and the total |
| MemoryInfo.MemInfo.AddLines | groundhog_origin/src/proc_parsers.c:160-163 | The same for any list of lines, with every counter zero and every sum wrapped |
| MemoryInfo.MemInfo.ReadRangePagemap | groundhog_origin/src/proc_parsers.c:269-327 | A map of 2^28 pages or more is given up with nothing recorded; otherwise its records show its pages, its counters count them, and no other record or map changes |
| MemoryInfo.MemInfo.PopulatePageInfo | groundhog_origin/src/mem_helpers.c:114-135 | After all maps every record and counter of a map that can be read is right, and the page count is that of the maps that can be read |
| MemoryInfo.MemInfo.StoreWholeMap | groundhog_origin/src/proc_parsers.c:353-362 | Any pattern of short reads stores the map; it succeeds exactly below 2 GiB |
| MemoryInfo.MemInfo.StorePagedPages | groundhog_origin/src/proc_parsers.c:363-382 | Every page with a frame is in the slot its rank selects, and no earlier slot is disturbed; it succeeds exactly if no such page is 2 GiB or more from the start of its map |
| MemoryInfo.MemInfo.PopulateMemoryCopyInfoMap | groundhog_origin/src/proc_parsers.c:329-385 | Both ways of storing a map fill the same slots |
| MemoryInfo.MemInfo.PopulateMemoryCopyInfo | groundhog_origin/src/mem_helpers.c:137-163 | Every map's first slot is the number of stored pages before it, and every page with a frame is in its slot; it succeeds exactly if every map can be stored |
| MemoryInfo.MemInfo.GetMapIndexByName | groundhog_origin/src/mem_helpers.c:95-112 | Forward: the first map of the name that is followed by one of another name; backward: the last of the name; -1 exactly if there is none |
| MemoryInfo.MemInfo.ClearCounters | groundhog_origin/src/proc_cr.c:40-47 | Every map loses its soft-dirty and freed counts and its mark, and nothing else |
| MemoryInfo.ScannedFrame | groundhog_origin/src/proc_parsers.c:300-316 | Scanning one map leaves the records and counters of every other map right |
| MemoryInfo.StoreNext | groundhog_origin/src/mem_helpers.c:147-151 | The next map's first slot is the rank of its first page |
| Layout.SamePagesSameIndices | groundhog_origin/src/proc_cr.c:397-405 | Sorted layouts of the same pages, however divided into maps, give equal page tables |
| Layout.PageAt | groundhog_origin/src/mem_helpers.c:70-75 | Page j of map i sits at the map's first page index plus j |
| Layout.OwnerUpTo | groundhog_origin/src/proc_parsers.c:241-261 | Every index of the page table belongs to a page of some map |
| Layout.PagesCover | groundhog_origin/src/proc_parsers.c:241-261 | The page table has exactly the mapped pages |
| Layout.PagesIncreasing | groundhog_origin/src/proc_parsers.c:241-261 | The page table is in address order without repetition |
| Records.FlagCounts | groundhog_origin/src/structs.h:35-37 | Dirty and freed pages of a map never add up to more than its pages, and both counts are zero exactly if no page is flagged |
| Records.RankInjective | groundhog_origin/src/mem_helpers.c:147-149 | Different stored pages have different slots, all inside the buffer |
| Records.RankOnto | groundhog_origin/src/mem_helpers.c:147-149 | Every slot of the buffer belongs to a stored page |
| Records.RankSplit | groundhog_origin/src/mem_helpers.c:147-149 | Prefix sums over maps and ranks over pages agree |
| Storage.StoreRun | groundhog_origin/src/proc_parsers.c:353-382 | Storing adjacent pages in one piece fills the slots that storing them one by one fills |
| Pagemap.MacrosInvertEntry | groundhog_origin/src/structs.h:29-37 | The bit macros recover frame number and flags from a pagemap entry; freed excludes soft-dirty and present |
| Pagemap.BitsOfEntry | groundhog_origin/src/structs.h:29-37 | The bits of frame number and flags, as masks |
| MemoryInfo.DecodedEntry | groundhog_origin/src/proc_parsers.c:299-318 | The record of a page whose entry the kernel composes from a frame number and flags |
| Pagemap.EntryShowsCell | groundhog_origin/src/structs.h:29-37 | For private anonymous memory the entry shows exactly frame, soft-dirty bit and freed state |
| Paging.WriteBytesSplit | groundhog_origin/src/proc_cr.c:368-376 | Two adjacent short writes equal one long write |
| Paging.WriteBytesIsPages | groundhog_origin/src/proc_cr.c:368-376 | A page-aligned write of whole pages replaces exactly those pages |
| TrackedProcess.TrackedExactlyWhenLegal | groundhog_origin/README.md:42-45 | The promise the tracker relies on, that a page whose content differs from the last clear shows as soft-dirty or freed, holds all along a run of kernel steps exactly if no step reads a page whose dropped frame had other content at the last clear |
| TrackedProcess.LegalProgramsAreHonest | groundhog_origin/README.md:42-45 | So every program that acts on its memory by such steps only, the idle one included, meets what the whole-run result asks of a process |
| TrackedProcess.StepIsTracked | groundhog_origin/README.md:42-45 | A single step keeps the promise exactly under that condition |
| TrackedProcess.DroppedThenReadIsHidden | groundhog_origin/README.md:42-45 | A run of the excluded kind: a page is dropped and then read, and its change does not show |
| TrackedProcess.PageByPageDescribes | groundhog_origin/src/proc_parsers.c:155-267 | A layout as the kernel is assumed to show exists for every memory |
| CaptureJobs.ScheduleDoesNotMatter | groundhog_origin/src/mem_helpers.c:114-135 | Every interleaving of the per-map jobs in which all finish ends in the same page table, counters and totals |
| CaptureRefinement.JobsReadPages | groundhog_origin/src/mem_helpers.c:114-135 | Every finishing interleaving ends in a state that reading the maps one after the other is proved to end in, also if some cannot be read |
| CaptureRefinement.JobsCapture | groundhog_origin/src/mem_helpers.c:114-135 | If all maps can be read, that end is a complete capture of the stopped process, with the totals of all pages and of all stored pages |
| CaptureJobs.IndexInTable | groundhog_origin/src/mem_helpers.c:70-93 | In no interleaving does a job reach the table's capacity, so the table is never moved under the other jobs |
| CaptureJobs.ReadStep | groundhog_origin/src/mem_helpers.c:44-93 | A job's page is seen by its own map only |
| CaptureJobs.AddStep | groundhog_origin/src/proc_parsers.c:321-324 | The atomic additions to the totals commute with everything else |
| MapsParser.ReadMapsText | groundhog_origin/src/proc_parsers.c:155-267 | From the printed text, delivered in whole-line pieces: exactly the records before the first hidden line of each piece, with names cut to 127 characters and numbers to their field widths |
| MapsFile.ReadMapsFile | groundhog_origin/src/proc_parsers.c:155-267 | From the text to the table: the records of the layout in order with prefix sums and total, exactly if no map worth keeping is printed behind a hidden one in its piece |
| MapsFile.CutsDescribeTheSame | groundhog_origin/src/proc_parsers.c:218-234 | Cutting names and numbers to their fields leaves a layout that describes the same memory, so the tables may be read as holding the cut ones |
| MapsParser.ParserInvertsPrinterExactlyWhen | groundhog_origin/src/proc_parsers.c:228-249 | All mappings that are not the kernel's own are returned exactly if none is printed behind a hidden one in its piece |
| MapsParser.KeptByName | groundhog_origin/src/proc_parsers.c:222-242 | Which lines are kept, by their names: those with no name that begins with [vvar], [vdso] or [vsyscall] up to and including theirs in the piece; with 127 characters of the name and the low bits of the numbers |
| MapsParser.LineFormat | groundhog_origin/src/proc_parsers.c:183-232 | The text of a line, character by character around its numbers, with addresses in bytes |
| MapsParser.PlaceValue | groundhog_origin/src/proc_parsers.c:7-44 | What one more digit does to the value of a hexadecimal or decimal text, and how wide numbers are printed |
| MapsParser.ReadChunk | groundhog_origin/src/proc_parsers.c:173-264 | One piece, read while line ends are being overwritten in place |
| MapsParser.ReadLine | groundhog_origin/src/proc_parsers.c:177-249 | Going back from a line end finds the start of the line; a kept line is put back together, a hidden one is not |
| MapsParser.ReadFields | groundhog_origin/src/proc_parsers.c:183-222 | Every field of a printed line is read back, for addresses up to 2^64 - 1 |
| MapsParser.ScanNumber | groundhog_origin/src/proc_parsers.c:7-44 | The number in front of its delimiter is read modulo 2^64, whatever its length |
| MapsParser.ParseUntil | groundhog_origin/src/proc_parsers.c:7-44 | Both number parsers, on any text and at any position |
| MapsParser.WantedIsVisible | groundhog_origin/src/proc_parsers.c:235-238 | What ought to be kept is the visible part of the layout |
| ThreadPool.ReachableInv | groundhog_origin/src/libs/thpool.c:294-361 | All invariants hold in every state that any interleaving of any number of workers reaches |
| ThreadPool.NoLostWakeup | groundhog_origin/src/libs/thpool.c:327-355 | Jobs queued and semaphore down: a worker has its token and has not pulled, or a post is under way |
| ThreadPool.JobsAreConserved | groundhog_origin/src/libs/thpool.c:333-353 | In every run jobs are taken in the order in which they were added, and each is queued, in flight or finished exactly as often as it was added; added, taken and finished are what the steps of the run say |
| ThreadPool.WaitIsABarrier | groundhog_origin/src/libs/thpool.c:184-190 | For every run in which the waiting thread called at some step and is outside again: all jobs added before that step, as the run says, have finished, by whatever step it came back |
| ThreadPool.HistoriesAreTrue | groundhog_origin/src/libs/thpool.c:333-353 | The histories kept in the state are what the steps of the run say: every job of a push, every job pulled, every job run |
| ThreadPool.MutexesHold | groundhog_origin/src/libs/thpool.c:333-353 | Nobody changes the queue while a post is pending or the counter while the waiting thread reads it, and the waiting thread is woken exactly when the last busy worker becomes idle |
| ThreadPool.NoDeadlock | groundhog_origin/src/libs/thpool.c:184-190 | With at least one worker the pool comes to rest exactly when all jobs that the run added have finished, all workers sleep and the waiting thread has returned |
| ThreadPool.RunsAreBounded | groundhog_origin/src/libs/thpool.c:327-355 | Without new work and spurious wakeups every run is finite, with a bound from the state |
| ThreadPool.NoWorkersNoProgress | groundhog_origin/src/libs/thpool.c:104-158 | Without workers a thread that waits for a job waits for ever, so the condition is needed |
| ThreadPool.TokenOutKept | groundhog_origin/src/libs/thpool.c:400-450 | Absorbed posts lose no wakeup: the token invariant survives every step |
| ThreadPool.TokenSeenKept | groundhog_origin/src/libs/thpool.c:475-498 | A token that is up is about to be looked at if anybody sleeps |
| ThreadPool.WaiterCoveredKept | groundhog_origin/src/libs/thpool.c:348-353 | The waiting thread sleeps without a signal only while jobs are queued or workers working |
| ThreadPool.ConservedKept | groundhog_origin/src/libs/thpool.c:333-353 | No step loses or duplicates a job |
| JobQueues.JobQueue.Push | groundhog_origin/src/libs/thpool.c:400-420 | The linked list gains the job at its rear and the semaphore is up |
| JobQueues.JobQueue.Pull | groundhog_origin/src/libs/thpool.c:425-450 | The linked list loses the job at its front; the semaphore is posted exactly if others are left |
| JobQueues.JobQueue.Clear | groundhog_origin/src/libs/thpool.c:386-396 | The list is empty and the semaphore down |
| JsonWriter.Write | groundhog_origin/src/libs/jWrite.c:62-110 | A session of the buffer-based writer succeeds exactly on well-formed documents that fit, and the buffer then holds the printed document, as a C string if it is shorter than the buffer |
| JsonWriter.SessionSucceedsExactlyWhen | groundhog_origin/src/libs/jWrite.c:62-110 | Success exactly if the calls are those of a tree whose keys match its containers, with at most 32 containers open and a printed form within the buffer |
| JsonWriter.SessionWritesDocument | groundhog_origin/src/libs/jWrite.c:247-341 | The output of a successful session is the document, and parses back to the tree the calls describe, compact and pretty |
| JsonWriter.SessionFits | groundhog_origin/src/libs/jWrite.c:277-283 | The bounded writer agrees with an unbounded one exactly as long as the output fits |
| JsonWriter.IdealSession | groundhog_origin/src/libs/jWrite.c:62-341 | Without a bound, success exactly on well-nested and matching calls of bounded depth |
| JsonWriter.ReadInvertsCalls | groundhog_origin/src/libs/jWrite.c:100-218 | A tree is determined by its calls |
| JsonWriter.CallsInvertRead | groundhog_origin/src/libs/jWrite.c:100-218 | Every well-nested list of calls comes from a tree |
| JsonWriter.ErrorSticks | groundhog_origin/src/libs/jWrite.c:307-341 | After an error nothing changes any more |
| JsonWriter.RunElems | groundhog_origin/src/libs/jWrite.c:258-341 | The calls of a tree print it with commas, keys and indentation, or fail if it does not fit its containers or the stack |
| JsonWriter.UnclosedStaysOpen | groundhog_origin/src/libs/jWrite.c:82-95 | Calls that leave a container open are noticed by jwClose |
| JsonWriter.Writer.constructor | groundhog_origin/src/libs/jWrite.c:62-75 | jwOpen clears the buffer and writes the first bracket, also on a buffer without room |
| JsonWriter.Writer.Putch | groundhog_origin/src/libs/jWrite.c:277-283 | Characters beyond the buffer are dropped and reported |
| JsonWriter.ErrorsByCause | groundhog_origin/src/libs/jWrite.c:84-105 | Which error is reported for which call, with the limit of 32 open containers |
| JsonWriter.WrittenInError | groundhog_origin/src/libs/jWrite.c:306-345 | What a misplaced insertion, one container too many and one end too many write all the same |
| JsonWriter.FullBuffer | groundhog_origin/src/libs/jWrite.c:277-283 | A bounded writer does what an unbounded one does while its output fits, and otherwise keeps the part that fits and reports it |
| JsonWriter.CallNumber | groundhog_origin/src/libs/jWrite.c:113-116 | Insertions are numbered up to and including the one that fails |
| JsonTree.LineBreak | groundhog_origin/src/libs/jWrite.c:247-254 | Every line of the pretty form begins with four blanks for each open container |
| JsonTree.PrettyMember | groundhog_origin/src/libs/jWrite.c:306-330 | A member in the pretty form |
| JsonTree.PrettyContainers | groundhog_origin/src/libs/jWrite.c:84-105 | A document and a container in it, in the pretty form |
| JsonWriter.Writer.Insertion | groundhog_origin/src/libs/jWrite.c:125-218 | Every insertion function does what one step of the specification does |
| JsonWriter.Writer.InsertionInt | groundhog_origin/src/libs/jWrite.c:137-140 | An integer is inserted as a JSON number that reads back as the integer |
| JsonWriter.Writer.InsertionDouble | groundhog_origin/src/libs/jWrite.c:142-145 | A number is inserted as a JSON number with at most six places, within half a millionth outside the nines tie, or as the C library prints it if it exceeds an int |
| JsonWriter.Writer.Obj | groundhog_origin/src/libs/jWrite.c:307-323 | The common part of the object functions, including that a mismatch still writes the key |
| JsonWriter.Writer.Arr | groundhog_origin/src/libs/jWrite.c:330-341 | The common part of the array functions |
| JsonWriter.Writer.End | groundhog_origin/src/libs/jWrite.c:100-110 | Closing a container, including one too many |
| JsonWriter.Writer.Close | groundhog_origin/src/libs/jWrite.c:82-95 | Closing the document, or the nesting error |
| JsonWriter.Writer.Push | groundhog_origin/src/libs/jWrite.c:258-265 | The stack grows to 32 containers and then reports an error |
| JsonTree.ParseInvertsPrint | groundhog_origin/src/libs/jWrite.c:247-341 | Printed documents, compact and pretty, read back by the grammar of section 2 of RFC 8259 |
| JsonTree.ReadsString | groundhog_origin/src/libs/jWrite.c:287-293 | Strings without characters to escape read back |
| Decimal.ModpItoa10 | groundhog_origin/src/libs/jWrite.c:371-385 | The C string left in the buffer is a JSON number that reads back as the value, for every 32-bit integer |
| Decimal.IntegerRoundTrip | groundhog_origin/src/libs/jWrite.c:371-385 | The decimal text of an integer reads back as the integer and is a JSON number |
| Decimal.StrReverse | groundhog_origin/src/libs/jWrite.c:360-364 | In-place reversal of a range, nothing else touched |
| Decimal.ModpDtoa2 | groundhog_origin/src/libs/jWrite.c:409-522 | The C string left in the buffer is a JSON number with at most the asked places, none below zero and nine beyond nine, within half a unit of the last place exactly outside the nines tie; beyond an int it is the C library's |
| Decimal.DtoaIsClose | groundhog_origin/src/libs/jWrite.c:447-463 | The printed number is within half a unit of the last place exactly unless the fraction lies half a unit below the next whole number |
| Decimal.NinesTieExample | groundhog_origin/src/libs/jWrite.c:459-463 | 0.95 with one place is printed as 0.1 |
| Decimal.TiesAreBroken | groundhog_origin/src/libs/jWrite.c:452-463 | How other ties are broken: to the next unit if the number of units is zero or odd |
| Decimal.HalvesGoToEven | groundhog_origin/src/libs/jWrite.c:476-485 | Without places, a half goes to the even neighbour |
| Decimal.DtoaShape | groundhog_origin/src/libs/jWrite.c:489-522 | No fraction ends with a zero, and every text is a JSON number |
| Statistics.XStat.AddPoint | groundhog_origin/src/libs/xstats.c:65-90 | After any sequence of points: count, sum, minimum, maximum, mean, squared deviations from the mean and every bucket are those of all points, a bucket being the points between its bounds, and the buckets add up to the count |
| Statistics.WelfordStep | groundhog_origin/src/libs/xstats.c:87-89 | The update of mean and squared deviations is exact |
| Statistics.BucketInArrayExactlyWhen | groundhog_origin/src/libs/xstats.c:74-82 | A bucket lies in the allocated array exactly if the point is below the end or the width fits into the range |
| Statistics.BucketBelongs | groundhog_origin/src/libs/xstats.c:74-82 | The bucket of a point is the one whose bounds the point lies in, the first one below the start and the last but one beyond the end |
| Statistics.OverflowBucketExactlyWhen | groundhog_origin/src/libs/xstats.c:74-78 | Points beyond the end share the last bucket in use exactly if the width divides the range; otherwise they are counted one bucket too low |
| Statistics.HistogramStep | groundhog_origin/src/libs/xstats.c:74-84 | One more point moves exactly its bucket |
| Statistics.XStat.constructor | groundhog_origin/src/libs/xstats.c:18-36 | A width of zero counts as one; all buckets start empty |

## Left out

- Registers, floating-point state, ptrace, waiting, signals and the opening of /proc files: calls into the kernel that do not touch the modelled memory.
- File-backed and shared maps, swap, huge pages: a removed map is always mapped again as private and anonymous.
- The resource limit of the stack, which is reset before the stack is trimmed.
- Dumping a snapshot to disk and reading it back; a restore or diff without a snapshot in memory ends the modelled run as failed.
- `uffd_dirty_count`, `soft_dirty_paged_count`, `has_freed` and the raw entry of a page: written but not read by what is modelled.
- The shared list of pages to give back when maps are restored by several threads: it has no lock. Restoring is modelled for one thread, as config.h selects; the pool is used for capturing.
- Pausing, resuming and destroying the pool, failing allocations, and the start-up of its threads.
- Escaping of strings, a terminating NUL behind a full buffer, and nan; the text of numbers beyond an int is a parameter.
- Rounding of floating-point operations: `Decimal` and `Statistics` compute with reals.
- The library in the traced program: only its calls and their acknowledgements are modelled, not its pipe handles and the setting of the clock.
- Printing, timers, debug checks and the JSON summary of the statistics; the launcher, the pipe shim and the threads that forward stdio.
- Addresses are page numbers outside `MapsParser` and the byte transfers; 64-bit counters are unbounded integers.
- What happens after an overflow: a capture or transfer whose 32-bit numbers have wrapped ends the modelled run as failed, while the program would go on with them.
- Statistics.XStat.AddPoint: takes natural numbers, as the program does, because negative values do not fit the unsigned fields.
- Statistics.XStat.constructor: does not cover an end below the start, which wraps round in C.
- Commands.HandleStdcmd: does not tell when the program itself stops sending; every list of lines is a possible input.
- ThreadPool.WaitIsABarrier: covers one waiting thread, because the condition it waits for is signalled and not broadcast.
