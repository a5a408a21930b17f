# cbox_telemetry, modelled and proved in Dafny

`cbox_telemetry` is a PHP extension in C. It samples call stacks into a bounded trie, times
operations, keeps breadcrumbs for a crash handler, and drains the crash records of dead processes.
This project models those parts and proves what they promise. Code that the source runs in place is
a class with the same fields and loops, and each of its methods is proved against a function on
values; the theorems are about those functions, over every input, every run or every reachable state.

| part | modules |
|---|---|
| probing, arena, interning, call tree | `Probing`, `Arena`, `Frames`, `StackTree`, `Interning` |
| sampling a stack, what the profile means, and when a sample is kept | `Sampling`, `SampleStores`, `CallPaths`, `FrameNames`, `SampleRoom`, `ProfileOutput`, `FlatProfiles` |
| ticks, deadline, start and stop | `Ticks`, `ProfilerStates`, `Profiler`, `ProfilerRuns` |
| breadcrumb ring, stopped anywhere and raced | `Breadcrumbs`, `BreadcrumbCrashes`, `BreadcrumbRaces` |
| operation timing | `Ops` |
| crash sinks: scan, headers, compaction, reading a part, drain, records cut off, directory, faults | `CrashRecords`, `CrashHeaders`, `CrashCompaction`, `CrashReads`, `CrashDrain`, `CrashCuts`, `CrashDirectory`, `CrashFaults` |
| units, their whole lifecycle, forks | `Telemetry`, `Lifecycle`, `Ledgers`, `Processes` |

Assumptions. Counters of 32 and 64 bits do not wrap. Memory is sequentially consistent. Hash
functions are arbitrary total functions. Capacities lie within the clamped configuration. Integers in
a crash record are little-endian. One drain runs at a time; the living processes do not change while
it runs, and a living process appends only to its own sink. A pid is not used twice in one tree of
forks. A signal handler runs whole between two accesses of the thread it
interrupts; ticks of the fallback sampler thread, which come by halves, are part of `Ticks` and of no
other module. The clock, the pid, the timer's success, each read and write, the visitor's patience and the
order of a directory listing are parameters.

Where the code and its own words differ, the model follows the code:

- `src/frames.c:19` says the bucket count is strictly greater than twice the capacity; it may be equal
  (`Probing.BucketCount`). That still leaves an empty bucket.
- `docs/core-concepts/profiler.md:90` says the samples of `top_functions` always add up to
  `sample_count`; they do exactly when at most 256 functions have samples of their own
  (`ProfileOutput.TopFunctionsAddUp`), and one sample in each of 257 functions is enough to fall short
  (`FlatProfiles.ManyFunctionsFallShort`).
- `src/crash.c:800` says a failed truncate costs only re-reporting, never loss. That holds, but a read
  that fails before the end of the file, with every earlier write whole and a truncate that works, does
  lose records, and nothing else does (`CrashCompaction.CompactionLosesIff`). If it is the first read,
  everything not yet handed over is gone (`CrashCompaction.FailedReadLosesAll`,
  `CrashFaults.FailedReadEmptiesSink`).
- `src/crash.c:753` says a record of another version is not the drain's to discard. One that the end of the
  read cuts off, by a short read or by the cap of 4 MB, fails the length test and is scanned as garbage; if
  something inside it passes for a record of this version, the drain hands that over and gives up the bytes
  before it. That happens exactly if no foreign record lies whole before it and the scan, with budget left,
  takes a record past its start and meets nothing foreign there (`CrashCuts.ForeignGivenUpIff`); it needs no
  fault (`CrashCuts.CapGivesUpForeign`). Every other drain keeps all foreign records
  (`CrashDrain.DrainConserves`).
- `src/crash.c:810` says nothing is ever truncated or compacted; the code below it compacts.
- A compaction stopped inside a record leaves a record whose front and back come from two different
  ones; it still passes the header check, so it is reported too (`CrashCompaction.TornIsRecord`).
- A full window of the breadcrumb ring read between publishing an entry and moving the head has the
  newest entry first, and only then is a snapshot out of order (`BreadcrumbCrashes.SnapshotInOrderIff`).
  The crash handler asks for 32 entries, so a ring of 16 or 32 gets there once it is full
  (`BreadcrumbCrashes.FullRingReadsOutOfOrder`).
- A tick landing between the two takes of `src/profiler.c:286-287` makes on-time, deferred and overrun
  ticks add up to more than the ticks counted (`Ticks.SplitTakeOvershoots`); they are equal exactly when
  every booking took at least one delivery and no more deliveries than ticks (`Ticks.SplitIsExactIff`).
- Starting does not clear ticks that arrived while nothing was running; the next unit books them and
  reports them as its own (`ProfilerRuns.StrayTickIsBooked`, `Lifecycle.StrayTickIsReported`). A profile
  books only its own ticks exactly when none was pending at its start (`ProfilerRuns.BooksOnlyItsOwnIff`).

## Model

| member | source | states |
|---|---|---|
| Probing.BucketCount | src/frames.c:20-29 | the least power of two from 16 up that holds twice the capacity |
| Probing.FreeBucket | src/frames.c:110-132 | an index with fewer items than buckets has an empty bucket, so every probe loop ends |
| Probing.ProbeGoesOn | src/stacktree.c:94-106 | one miss leads one step nearer to an empty bucket without skipping any |
| Probing.MissIsAbsence | src/frames.c:110-132 | a probe that reaches an empty bucket proves the key absent, for any hash function |
| Probing.Inserted | src/stacktree.c:108-118 | filling the bucket a probe ended on keeps every item reachable from its home |
| Arena.Arena.Alloc | src/arena.c:33-57 | a handout is aligned, past every earlier one and inside the slab; it is refused exactly when it does not fit |
| Arena.Arena.Put | src/arena.c:59-74 | the bytes and their NUL are stored, and nothing handed out before changes |
| Arena.Arena.Reset | src/arena.c:76-80 | the arena is empty again |
| Frames.SameIsEquality | src/frames.c:115-128 | the field-by-field comparison of a stored frame holds exactly for equal identities |
| Frames.InternRefusedIff | src/frames.c:74-162 | an identity is refused exactly if it has no name, or is new with the table full or no room for its strings, of which only the latter counts as a hit; a new one takes the next id and the bytes of its strings |
| Frames.FrameTable.Locate | src/frames.c:110-128 | probing finds the id of an identity that is in the table, and otherwise the empty bucket where it belongs |
| Frames.FrameTable.Spell | src/frames.c:137-151 | both strings are put, or not, as they fit; every live frame still spells its identity |
| Frames.FrameTable.Append | src/frames.c:134-161 | exactly one frame and one bucket are written and the index stays complete |
| Frames.FrameTable.Intern | src/frames.c:74-162 | the answer and the table afterwards are those of a linear search of the identities; no live frame is altered |
| Frames.FrameTable.Reset | src/frames.c:64-72 | no identity is left, also when the bucket clear is skipped |
| Interning.AnswersName | src/frames.c:74-162 | over any run every id handed out names its identity, and keeps naming it to the end |
| Interning.SameIdIffSameIdentity | src/frames.c:74-162 | two requests of a run get the same id exactly when their identities, cut to 320 bytes, are equal |
| Interning.KnownStaysKnown | src/frames.c:110-132 | a known identity is found again, unchanged, even when table or arena is full |
| StackTree.PathsAreDistinct | src/stacktree.c:86-119 | two nodes of the tree with the same path are the same node |
| StackTree.ChildExtendsPath | src/stacktree.c:86-119 | find-or-create keeps parents before children and edges unique, and its node has the parent's path and one frame more |
| StackTree.ChildRefusedIff | src/stacktree.c:108-118 | a child of a node is refused, and counted as a hit, exactly if it is new and the tree is at its capacity |
| StackTree.StackTree.Locate | src/stacktree.c:94-106 | probing finds the node on an edge that is in the tree, and otherwise the empty bucket where it belongs |
| StackTree.StackTree.FindOrCreate | src/stacktree.c:86-119 | the node and the tree afterwards are those of a linear search of the nodes |
| StackTree.StackTree.Attribute | src/stacktree.c:121-129 | exactly one node and the total gain the weight |
| StackTree.StackTree.Reset | src/stacktree.c:71-84 | only the root is left, although old nodes remain in the array |
| Sampling.BuildName | src/profiler.c:94-155 | the bounded buffer ends up with the first 320 bytes of scope, separator and name, or of the main marker |
| Sampling.FrameAhead | src/profiler.c:214-239 | what the walk of a stack comes to after each frame: skipped, cut off, refused or interned |
| SampleStores.SampleStore.WalkStack | src/profiler.c:209-239 | the ids of the innermost named frames, whether the stack was cut, and whether all could be interned |
| SampleStores.SampleStore.TruncationFrame | src/profiler.c:181-196 | caching the id of the truncation marker answers like interning it each time |
| SampleStores.SampleStore.EngineFrame | src/profiler.c:164-179 | caching the id of the engine marker answers like interning it each time |
| SampleStores.SampleStore.Descend | src/profiler.c:254-262 | the loop reaches the node of the walk's frames, outermost first |
| SampleStores.SampleStore.Collect | src/profiler.c:198-282 | one sample changes arena, frames, tree and counts as the sampling function says |
| SampleStores.SampleStore.Reset | src/profiler.c:478-501 | a reset store cannot be told from a new one |
| CallPaths.NodesArePaths | src/stacktree.c:86-119 | nodes and call paths of identities correspond one to one |
| CallPaths.WalkedMeans | src/profiler.c:209-239 | a walk that succeeds has the innermost functions up to the depth, and knows whether there were more |
| CallPaths.DescendedMeans | src/profiler.c:254-262 | descending reaches the start's path extended by the frames, outermost first |
| CallPaths.PlacedMeans | src/profiler.c:198-282 | a sample lands on the node of its call path, with the markers where they belong; a dropped one met a full table or a nameless frame within the depth, and such a frame always costs the sample |
| CallPaths.CollectedMeans | src/profiler.c:264-281 | a sample adds its weight to the weight of its own call path and to no other; a dropped one leaves every weight as it was |
| CallPaths.ProfileIsTheMap | src/profiler.c:198-282 | after any run of samples the weight of every call path is the sum of the samples recorded under it, and recorded plus dropped is all |
| FrameNames.IdentityTells | src/profiler.c:120-145 | a function goes by scope, `::` and name, or the one it has, with `{main}` for none, and by file and line of its declaration if it is the user's, each cut to 320 bytes |
| FrameNames.RecordedUnderItsFunctions | src/profiler.c:198-282 | the path of a recorded sample ends with its stack's innermost functions as named and declared, to the depth set; only a cut one begins with the marker |
| SampleRoom.WalkSucceedsIff | src/profiler.c:209-239 | a walk succeeds exactly if no frame within the depth is nameless and the functions not yet known fit the table and the arena |
| SampleRoom.DescentSucceedsIff | src/profiler.c:254-262 | a descent succeeds exactly if the nodes the tree still lacks on the way fit |
| SampleRoom.RecordedIffFits | src/profiler.c:198-282 | a sample is recorded in full exactly if no frame within the depth is nameless and all it asks for is in the tables or fits, and else dropped in full |
| SampleRoom.RoomIsEnough | src/profiler.c:198-282 | a frame, a node and 656 bytes for each function within the depth and one marker are always enough |
| SampleRoom.KnownPathIsRecorded | src/profiler.c:198-282 | a call path that is in the tree is recorded again however full the tables are |
| Ticks.BookSplits | src/profiler.c:290-317 | on-time, deferred and overrun ticks add up to the ticks taken exactly when deliveries are between one and the ticks |
| Ticks.NoTickIsLostOrCountedTwice | src/profiler.c:65-70 | from start-up, with ticks arriving between any two accesses, a tick that arrived while sampling is counted once, still pending, or discarded by a stop or in a fork's child |
| Ticks.SplitIsExactIff | src/profiler.c:284-319 | over every run from start-up on-time, deferred and overrun ticks add up to the ticks counted exactly if every booking since the last reset took at least one delivery and no more deliveries than ticks |
| Ticks.AtomicTakesSplitExactly | src/profiler.c:284-319 | over every run from start-up in which nothing arrives between two takes or by halves, the three add up exactly |
| Ticks.SplitTakeOvershoots | src/profiler.c:286-287 | a run from start-up in which a signal splits a take counts one tick and accounts for two |
| Profiler.Profiler.Tick | src/profiler.c:65-70 | the pending ticks and deliveries grow, by at least one tick |
| Profiler.Profiler.Interrupt | src/profiler.c:284-355 | takes what is pending, books it, samples, and stops at the deadline |
| Profiler.Profiler.CheckDeadline | src/profiler.c:336-348 | the clock is looked at only after 512 interrupts or ticks |
| Profiler.Profiler.Start | src/profiler.c:432-457 | discards the last profile and runs, unless the timer cannot be armed |
| Profiler.Profiler.Stop | src/profiler.c:459-471 | discards what is pending, if it was running |
| Profiler.Profiler.ClearDeadline | src/profiler.c:473-476 | only the deadline changes |
| Profiler.Profiler.Reset | src/profiler.c:478-501 | profile and counters are as new |
| Profiler.Profiler.HandleFork | src/profiler.c:553-564 | not running, nothing pending, profile and counters as new |
| ProfilerRuns.RunBalances | src/profiler.c:284-319 | over every run samples and drops add up to the ticks, and ticks to interrupts, deferrals and overruns; while it samples no tick goes missing |
| ProfilerRuns.DeliveriesAddUp | src/profiler.c:300-317 | while it samples, every delivery is on time, deferred or pending; the longest deferral and their number fit the deferred total |
| ProfilerRuns.CountersTellBookings | src/profiler.c:289-317 | from a start on each counter is its sum or count over the interrupts' takes, and the longest deferral the greatest of them |
| ProfilerRuns.StartSucceedsIff | src/profiler.c:432-457 | a start succeeds exactly if the profiler is ready, the period is not 0 and the timer can be armed; what it sets, also if that fails |
| ProfilerRuns.UnitProfile | src/profiler.c:432-457 | from a start on, the profile maps every call path to the summed weight of the samples taken |
| ProfilerRuns.BooksOnlyItsOwnIff | src/profiler.c:432-457 | while a profile runs, all it has booked or pending arrived in it exactly if no tick was pending at its start |
| ProfilerRuns.StrayTickIsBooked | src/profiler.c:432-457 | a tick that arrives while nothing runs becomes the next profile's sample |
| ProfilerRuns.StartForgets | src/profiler.c:478-501 | whatever came before a start, with the same ticks and deliveries pending the same signals and safe points lead to the same state |
| ProfilerRuns.InterruptIsItsSteps | src/profiler.c:284-319 | an interrupt no signal lands in is its two takes, its booking and the two takes of a stop |
| ProfilerRuns.StopsIff | src/profiler.c:336-348 | an interrupt stops the profile exactly if it books something, 512 interrupts or 512 ticks have gone by since the last look at the clock, and the deadline has passed |
| ProfilerRuns.DeadlineStops | src/profiler.c:336-348 | past the deadline at most 512 more interrupts are booked, those before the stopping one with at most 511 ticks, even if every sample is dropped |
| ProfilerRuns.DeadlineKeepsProfile | src/profiler.c:336-348 | stopped at the deadline, to the end of any run the profile is that of all samples taken, the stopping interrupt's included |
| ProfilerRuns.AlwaysRecentlyChecked | src/profiler.c:336-348 | after every start and every run less than one interval has passed since the last check |
| ProfileOutput.EmitFrames | cbox_telemetry.c:159-181 | one entry a frame, in id order, with its name, file and line |
| ProfileOutput.FunctionTotals | cbox_telemetry.c:183-200 | every function's total is the samples of the nodes that end in it |
| ProfileOutput.EmitTop | cbox_telemetry.c:204-216 | the front of the sorted totals up to 256 entries, without the zeros |
| ProfileOutput.EmitStacks | cbox_telemetry.c:230-245 | one triple for every node but the root, in node order |
| ProfileOutput.ReadPathIsPath | cbox_telemetry.c:226-245 | reading the triples back, with every parent before its child, gives each node its call path |
| ProfileOutput.ReadingRestoresWeights | cbox_telemetry.c:226-245 | reading the triples back gives every call path its weight |
| ProfileOutput.TotalsAddUp | cbox_telemetry.c:194-200 | the totals of all functions add up to all samples in the tree |
| ProfileOutput.TopIsHeaviest | cbox_telemetry.c:118-129 | the emitted functions come heaviest first, and none left out is heavier |
| ProfileOutput.TopFunctionsAddUp | cbox_telemetry.c:202-217 | the emitted samples add up to the sample count exactly when at most 256 functions have samples |
| FlatProfiles.ManyFunctionsFallShort | cbox_telemetry.c:202-217 | one sample in each of more than 256 functions makes the emitted samples fewer than the sample count |
| Breadcrumbs.RoundPow2 | src/breadcrumbs.c:6-15 | the least power of two from 16 up that holds the request |
| Breadcrumbs.CompleteDescribes | src/breadcrumbs.c:70-97 | a finished entry has the time, type, flags and number of its push, and the label's first 48 bytes with zeros behind them |
| Breadcrumbs.CrumbRing.Push | src/breadcrumbs.c:56-104 | every write of a push leads from one stage to the next, and the last leaves the entry complete, as the push asked for it |
| Breadcrumbs.CrumbRing.Snapshot | src/breadcrumbs.c:106-154 | the entries before the head, oldest first, without any that carries no number |
| BreadcrumbCrashes.PushRecords | src/breadcrumbs.c:56-104 | after any history each of the last pushes is whole in its slot |
| BreadcrumbCrashes.StoppedSnapshot | src/breadcrumbs.c:84-102 | what a snapshot reads with the writer stopped after any of its writes, for every ring size and request |
| BreadcrumbCrashes.EveryStopIsExact | src/breadcrumbs.c:56-154 | after any history, with the next push stopped after any write, a snapshot of fewer entries than the ring holds is exactly the most recent pushes as of the last head store, oldest first, each as its push asked for it |
| BreadcrumbCrashes.SnapshotInOrderIff | src/breadcrumbs.c:98-102 | a snapshot is gapless and oldest first unless it overlaps the slot just published |
| BreadcrumbCrashes.FullRingReadsOutOfOrder | src/breadcrumbs.c:98-102 | a full ring of at most 32 entries, stopped between publishing and moving the head, gives the crash handler its newest entry first |
| BreadcrumbRaces.SeenIsWhole | src/breadcrumbs.c:84-102 | at every moment each entry is whole or carries no number |
| BreadcrumbRaces.ActKeepsUnmixed | src/breadcrumbs.c:131-150 | a slot that still carries the number read first has not changed since, and one that lost it never gets it back |
| BreadcrumbRaces.KeptEntriesAreWhole | src/breadcrumbs.c:131-150 | under every interleaving of writes and field copies an entry that passes the check is a copy of one single push |
| BreadcrumbRaces.KeptSinceStartUp | src/breadcrumbs.c:56-154 | the same from a fresh ring on, after any history of writes |
| Ops.BeginTracks | src/ops.c:35-64 | a begin of a valid type hands out a token of that type and time, with a free slot above all others or an overflow counted, and keeps what the table stands for; any other has no effect |
| Ops.EndTracks | src/ops.c:66-102 | ending any live token, in any order, books its own duration under its own type: count, sum and maximum |
| Ops.AggregateMeasures | src/ops.c:94-101 | an aggregate is the number, the sum and the greatest of the durations of its type |
| Ops.EveryRunTracks | src/ops.c:19-132 | after every run of begins, ends in any order and resets the aggregates are number, sum and maximum of the durations of the operations ended since the last reset, live tokens own distinct slots, and the report is the newest live one |
| Ops.StaleEndsAreIgnored | src/ops.c:70-79 | an end counts exactly if its type is valid and its generation current |
| Ops.ReportIsNewest | src/ops.c:105-132 | the report is the most recently begun live operation that has a slot |
| Ops.ReportDuringBegin | src/ops.c:54-58 | interrupted anywhere in a begin, the report is the newest without or with the new one, never half of it |
| Ops.ReportDuringEnd | src/ops.c:80-91 | interrupted anywhere in an end, the report is the newest with or without the ended one |
| Ops.OpTable.Reset | src/ops.c:19-33 | empty, in a new generation |
| Ops.OpTable.Begin | src/ops.c:35-64 | the slot is filled type first, start second, depth last |
| Ops.OpTable.End | src/ops.c:66-102 | releases exactly the token's slot and books the saturating duration |
| Ops.OpTable.Current | src/ops.c:120-125 | the type of the topmost occupied slot |
| Ops.OpTable.CurrentStart | src/ops.c:127-132 | the start of the topmost occupied slot |
| CrashRecords.MetInOrder | src/crash.c:707-740 | for arbitrary bytes the scan ends, and meets genuine records in increasing order without overlap |
| CrashRecords.BudgetSplitsScan | src/crash.c:707-740 | a scan its budget cut short and the scan from its last record's end meet all there is, in order |
| CrashRecords.MetInRest | src/crash.c:606-627 | scanning what is left of a file meets what the scan of the whole meets from there |
| CrashRecords.SinkIsMet | src/crash.c:707-740 | a sink of whole records yields the first of them as far as the budget goes, and nothing else |
| CrashHeaders.HeaderDecides | src/crash.c:606-627 | byte by byte: the magic with any version but 2 and a length that fits is a foreign record, the magic with version 2, length 2160 and at most 32 breadcrumbs is a record, anything else is neither |
| CrashHeaders.ScanStepsByHeader | src/crash.c:707-735 | the scan steps over the first by its own length, over the second by 2160 bytes and else by one byte |
| CrashHeaders.NothingIsSkipped | src/crash.c:707-735 | whatever looks like a record is met, or lies inside one that is |
| CrashCompaction.SinkFile.Compact | src/crash.c:770-804 | what the file holds after a compaction with any chunk sizes, short writes and failures |
| CrashCompaction.WriteProgresses | src/crash.c:783-795 | each write reads bytes no earlier write has touched |
| CrashCompaction.FaultlessCompactionCompletes | src/crash.c:770-804 | without a fault the file is exactly the old bytes from the consumed ones on |
| CrashCompaction.InterruptedCompactionKeeps | src/crash.c:770-804 | stopped anywhere, the next scan still meets every record not handed over, whole and in order |
| CrashCompaction.TornIsRecord | src/crash.c:606-612 | a record written part-way over another still passes for one |
| CrashCompaction.CutShortIff | src/crash.c:783-801 | a file is cut before all was copied exactly if it opens, a read fails before its end with every earlier write whole, and the truncate works |
| CrashCompaction.CompactionLosesIff | src/crash.c:770-804 | a compaction loses a record exactly under those conditions on its input and output |
| CrashCompaction.FailedReadLosesAll | src/crash.c:786-799 | if the first read fails and the truncate works, the file is empty and every record not handed over is gone |
| CrashCompaction.CompactedKeeps | src/crash.c:770-804 | any other compaction leaves whole records again, with every record not handed over among them |
| CrashDrain.ScanBuffer | src/crash.c:707-740 | the loop hands over the scan's records within the budget and tells where the last one ends |
| CrashDrain.DrainFile | src/crash.c:633-760 | what is handed over, and whether the file may be removed or cut, for every way opening and reading can go |
| CrashHeaders.OtherVersionsAreKept | src/crash.c:752-755 | behind any records, a record of any other version and any length, if the read takes it in and the budget reaches it: those records are handed over and the file stays as it is |
| CrashReads.ReadSplits | src/crash.c:686-740 | a scan of the front of any bytes meets what the scan of all meets wholly inside it, then only what lies past a start cut off |
| CrashReads.PartHandsFirst | src/crash.c:686-740 | whatever part of any bytes is read, a scan of it with nothing foreign in it hands over the first records of the whole, unless it cuts off a foreign record and takes one out of it |
| CrashDrain.LeavesTheRest | src/crash.c:873-903 | after a compaction without a fault exactly the bytes the drain did not give up are left, or no file |
| CrashDrain.DrainConserves | src/crash.c:742-755 | for arbitrary bytes, read in whole or in part, and a compaction without a fault: a foreign record in what was scanned keeps the file as it is; else each record is handed over or met again, in order, and every foreign record is kept, unless one is cut off and a record taken out of it |
| CrashCuts.ForeignGivenUpIff | src/crash.c:612-755 | a drain gives up the start of a foreign record exactly if the read ends inside it, none lies whole before it, and the scan has budget to take a record past its start and meets nothing foreign there |
| CrashCuts.ForeignIsGivenUp | src/crash.c:619-627 | a foreign record with a record in it, read to its last byte but one: the one inside is handed over, the foreign one is gone |
| CrashCuts.CapGivesUpForeign | src/crash.c:683-688 | the read cap alone does that, with no fault in reading or compacting |
| CrashDrain.DrainWholeSink | src/crash.c:633-760 | with reliable reads and compactions, a sink of whole records, also one past the read cap, yields the first of them for any budget to 1024 and leaves the others |
| CrashDrain.ExactlyOnce | src/crash.c:873-903 | over any drains with budgets from 1 to 1024 and reliable reads and compactions, the records are handed over in order, each once, and the file goes with the last |
| CrashDrain.AnyFileOnce | src/crash.c:697-760 | over any drains, with reliable reads and compactions, of a file of any bytes within the read cap and without foreign records, each of its records is handed over once, in order, or still to be met |
| CrashDrain.AnyFileAtLeastOnce | src/crash.c:686-760 | over any drains of a file of any bytes and any length without foreign records, with reads that stop anywhere and compactions without a fault, each of its records is handed over or still to be met, as often as it is there |
| CrashDirectory.SinkDirectory.Reclaim | src/crash.c:876-903 | a sink read to its end is removed, one read in part loses what was handed over |
| CrashDirectory.SinkDirectory.Drain | src/crash.c:821-909 | draining all listed sinks in turn within one budget; the process's own sink and those of the living are untouched |
| CrashDirectory.DrainSkipsTheLiving | src/crash.c:860-862 | the sink of a living process is neither touched nor reported from, and no sink appears |
| CrashDirectory.SpareBudgetMeansDone | src/crash.c:840-905 | a drain with a budget to 1024 and some of it to spare, whose reads and compactions are reliable, has emptied and removed every listed sink of a dead process |
| CrashDirectory.EveryRecordOnce | src/crash.c:821-909 | over every run of crashes and drains with reliable reads and compactions each record has been delivered exactly once, in its sink's order, or is still in its file |
| CrashFaults.PartlyRead | src/crash.c:686-740 | however little of a sink a read takes, its first whole records are handed over, and the scan's last record ends there |
| CrashFaults.DrainLosesNone | src/crash.c:633-804 | a drain loses no record of a sink, whatever opening, reading, writing and truncating come to, unless it cuts the file early |
| CrashFaults.FailedReadEmptiesSink | src/crash.c:786-799 | a drain whose compaction fails its first read empties the file behind the records it handed over |
| CrashFaults.EveryRecordAtLeastOnce | src/crash.c:821-909 | over every run of crashes and faulty drains that cut no file early, each record written has been delivered or is met by the next scan, as often as it was written |
| Telemetry.Clamp | cbox_telemetry.c:25-32 | a value within the bounds is kept, any other goes to the nearer bound |
| Telemetry.Telemetry.DetectFork | cbox_telemetry.c:282-307 | a process that is not the owner drops unit, operations, profile and pending ticks |
| Telemetry.Telemetry.UnitOpen | cbox_telemetry.c:386-439 | a fresh unit with the next handle, fresh operations, and a profile if wanted, sampled and enabled |
| Telemetry.Telemetry.Adopt | cbox_telemetry.c:622-661 | an unclaimed automatic unit is claimed |
| Telemetry.Telemetry.Begin | cbox_telemetry.c:561-675 | adopts, or replaces whatever unit is open |
| Telemetry.Telemetry.Finish | cbox_telemetry.c:677-802 | reports the open unit and closes it, or does nothing |
| Telemetry.Telemetry.RequestStart | cbox_telemetry.c:1077-1125 | opens an automatic unit if there is none |
| Telemetry.Telemetry.RequestEnd | cbox_telemetry.c:1147-1161 | closes a unit left open |
| Telemetry.Telemetry.NoteOpBegin | cbox_telemetry.c:69-97 | a token of the open unit, or one without a slot |
| Telemetry.Telemetry.NoteOpEnd | cbox_telemetry.c:99-109 | counts only while a unit is open |
| Lifecycle.EveryRun | cbox_telemetry.c:386-439 | in every reachable state a running profiler has an open unit marked profiling, and a deadline exactly if that is automatic and unclaimed; without such a unit the profile is empty |
| Lifecycle.AutomaticStart | cbox_telemetry.c:1109-1122 | an automatic unit is unclaimed, of the type for the SAPI, and sampled from an empty profile at the period and depth asked for, with the configured deadline, between a second and an hour away |
| Lifecycle.RequestLeavesUnit | cbox_telemetry.c:1109-1122 | a request opens nothing while a unit is open or automatic units are off |
| Lifecycle.AdoptionKeeps | cbox_telemetry.c:622-661 | adoption keeps handle, start, operations and, if wanted, all samples and pending ticks, takes type and sampling from the caller, and lifts the deadline; a profile it starts has the period and depth asked for |
| Lifecycle.ClaimedIsNeverCapped | cbox_telemetry.c:651-657 | a claimed unit is never cut short: over any run each of its ticks is booked or pending |
| Lifecycle.AnsweredIff | cbox_telemetry.c:695-716 | a finish is answered exactly for the open unit of this process, by its handle or by 0 |
| Lifecycle.ReportSays | cbox_telemetry.c:710-802 | each figure of a report is the one of the unit it closed: operations, overflow, samples, counters, period, capped, hits, frames, nodes, and the profile if asked for and not empty |
| Lifecycle.ReportsBalance | cbox_telemetry.c:710-802 | every report describes its unit and balances, its profile is consistent with its counts, and nothing of the unit outlives it |
| Lifecycle.RequestEndCloses | cbox_telemetry.c:1147-1161 | the end of a request leaves what a finish would leave, and does nothing with no unit open |
| Lifecycle.OperationsNeedUnit | cbox_telemetry.c:69-109 | outside a unit nothing is counted, and the token still says what began |
| Lifecycle.StrayTickIsReported | cbox_telemetry.c:668-672 | a tick that arrives with no unit open is reported by the next unit as its own sample |
| Lifecycle.FinishedOnce | cbox_telemetry.c:706-708 | over any later run a finish with a spent handle changes nothing |
| Lifecycle.EndingSpends | cbox_telemetry.c:668-672 | finishing, ending the request and replacing a unit all spend its handle |
| Lifecycle.BeginForgets | cbox_telemetry.c:663-675 | a begin that does not adopt starts from nothing, with a new handle, the type asked for, and a profile exactly if wanted, sampled, enabled and armed, at the period and depth asked for |
| Lifecycle.BeginRefusedIff | cbox_telemetry.c:583-585 | a begin is refused, without effect, exactly when the extension is inactive or switched off |
| Lifecycle.ChildSeesNothing | cbox_telemetry.c:282-307 | a forked child's first call finds no unit, samples, ticks or operations, and its first finish answers nothing |
| Lifecycle.ChildOwesNothing | cbox_telemetry.c:561-675 | a child's first profiled unit is the same whatever its parent was doing |
| Ledgers.NextLogged | src/profiler.c:284-319 | after every event the counters are those of the ticks charged, and the profile that of the samples taken |
| Ledgers.EndCountsIff | cbox_telemetry.c:99-109 | an end changes the aggregates exactly if the operation began inside the unit now open |
| Ledgers.CountedIffInside | src/ops.c:66-102 | the operations counted in a unit are all those with both ends inside it |
| Ledgers.NextOpsLogged | cbox_telemetry.c:400-401 | after every event the aggregates are those of the operations with both ends inside the open unit |
| Processes.ReportIsMadeOf | cbox_telemetry.c:710-802 | a report counts exactly the ticks and operations charged to it, with number, sum and maximum of their durations, and its profile is the map of its samples |
| Processes.ActKeepsTicks | src/profiler.c:553-564 | no event of any process makes a tick reportable twice |
| Processes.ActKeepsOps | src/ops.c:19-33 | no event of any process makes an operation reportable twice |
| Processes.NothingReportedTwice | cbox_telemetry.c:282-307 | in any tree of forks, over every run, no tick and no operation is reported twice, by one process or by two |

## Left out

- Wrap-around of 32-bit and 64-bit counters (samples, sequence numbers, generations, handles) and of sums of durations.
- Weakly ordered memory: every interleaving is considered, but each access takes effect at once.
- Failed allocations and the null tables they leave; tables here always exist.
- ProfileOutput.EmitTop: does not sort; it takes the totals already sorted, and ProfileOutput.TopFunctionsAddUp asks that they are a permutation of the totals.
- The crash handler that writes a record, signal installation and chaining, alternate stacks, machine context.
- Timer creation, and the fallback backend beyond ticks that may arrive at any time, also after a stop.
- Ownership, modes and paths of the sink directory, and parsing its file names; a sink is known by its pid.
- Hook installation, argument parsing, status and phpinfo output; a hooked call is a begin and an end.
- Trace and span ids, collector counters, and the breadcrumbs that begin, finish and operations push.
- The arena's peak in the report of a finish.
- Reuse of a pid within a drain or within a tree of forks, and a child that crashes before its first call.
- A visitor that answers by a record's contents; a visitor here takes a number of records and then no more.
- ProfilerRuns.RunBalances: takes the two pending counters as one step; `Ticks` treats every landing of a tick.
- ProfilerRuns.DeliveriesAddUp: takes the two pending counters as one step, too.
- Telemetry.Telemetry.Finish: reports no collector, breadcrumb and arena figures.
- CrashDirectory.EveryRecordOnce: asks for reliable input and output; CrashFaults.EveryRecordAtLeastOnce says what holds without.
- CrashDrain.ExactlyOnce: asks for reliable input and output, as CrashDrain.DrainWholeSink does; CrashFaults.DrainLosesNone says what holds without.
- CrashDrain.AnyFileOnce: asks for reliable input and output, and a file within the read cap; CrashDrain.AnyFileAtLeastOnce asks for neither.
- CrashDirectory.SpareBudgetMeansDone: asks for reliable input and output; a file that does not open stays.
