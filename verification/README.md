# Verified models of six php-src algorithms

This project models the algorithms of the vendored php-src tree that carry real
proof obligations, and proves what they are for.

| modules | system | form |
|---|---|---|
| `Lcs`, `Differ`, `DiffOutput` | the line differ of `run-tests.php` (Hirschberg's linear-space LCS, its replay into a numbered script, the hunk printer) | methods with loops, proved against the recurrence of the LCS length and a rendering function |
| `OrderedMaps`, `Scheduling`, `SchedulerSafety`, `SchedulerRuns`, `SchedulerBatches`, `SchedulerSequential`, `SchedulerPairs`, `SchedulerOvertaking` | the event loop of `run_all_tests_parallel` | a step function, a class whose methods take that step, invariants over every run, and runs built to break an order |
| `TsrmSpec`, `TsrmSafety`, `TsrmSteps`, `TsrmRuns`, `TsrmCalls`, `TsrmOrder`, `TsrmTable`, `Tsrm` | the thread-safe resource manager `TSRM.c` | a state machine with a log of what is allocated, constructed, destroyed and freed; a class over linked nodes that refines it |
| `MemoryHeap`, `ArenaLayout`, `Arena`, `TrackedRecord`, `TrackedArena` | both variants of `zend_arena.h` | classes over linked chunks; both refine one stack of blocks |
| `ModuleRegistry` | module sorting and startup in `zend_API.c` | a class that swaps and removes in place |
| `Printer`, `PrinterCycles`, `PrinterText`, `MapPtr`, `HeapSort` | the cycle-guarded printers and the `map_ptr` table of `zend.c`, `heapsort_r` of `bench.php` | a class with a buffer and marks, a class over an array, an in-place array algorithm |
| `Sequences` | shared | lengths, reversal, distinctness and permutation of lists |

How the modules fit together:

- A method whose `ensures` equates the new state with a specification function
  (`Step`, `TsrmSpec.FreeId`, `Text`, `Render`, `Truncate`, ...) ties the
  imperative code to that function.  What the source promises is then proved
  about the function, for all inputs, all reachable states or all runs.
- Memory is a `Heap` that gives out any aligned range disjoint from the live ones;
  addresses are integers.  Allocation succeeds.
- The model takes each call of a `TSRM.c` function as one atomic step.  Most hold the
  mutex throughout.  `tsrm_reserve` and the fast path of `ts_resource_ex` take no lock,
  and `ts_resource_ex` unlocks before it calls itself for an entry just made.  Any
  interleaving of threads is a sequence of such steps; a thread may end without
  cleaning up, and its id may be used again.
- A scheduler step is one "ready" or "tests_finished" message from any worker
  that can send one.

Where the code and its comments part, or a promise fails, the model follows the code
and says exactly when the promise holds:

- The batch loop tests the size of the batch before it pops.  A batch holds one test
  more than the batch size exactly when more tests than that are free
  (`SchedulerBatches.BatchExceedsIff`).
- Sequential tests are said to run at the end.  They are put on top of the stack, so
  the last worker gets them first, in reverse order
  (`SchedulerBatches.SequentialGoesFirst`).  If there are both kinds they come last in
  every run exactly when there are two workers or more and parallel tests that share a
  key lie in the same stretch, the list being cut into stretches of the batch size with
  all workers plus one (`SchedulerSequential.SequentialComesLastIff`).
- Order is said to be preserved for tests with a common conflict key.  It is, for
  the test given first and the other, if and only if the first has no key but the
  first key of the other, under any batch limit
  (`SchedulerOvertaking.OrderIsKeptIff`).
- The pop loops stop at a name that is false to PHP.  A list is emptied exactly when
  it holds no such name (`SchedulerBatches.PopAllMovesAllIffTruthy`), and a run
  finishes every test exactly when no test has one
  (`SchedulerBatches.RunFinishesAllIffTruthy`).
- Swap and retry ends exactly when the dependencies of the unstarted modules have no
  cycle (`ModuleRegistry.SortEndsIffAcyclic`); two modules that require each other
  are swapped for ever (`ModuleRegistry.MutualDependencyNeverEnds`).
- A fast resource id that does not fit fails after the id count was raised.  The lost
  id does no harm exactly when it lies inside the table of types, where its type
  reads as zeros; otherwise the next entry reads the table past its end
  (`TsrmSteps.FastIdKeepsIff`, `TsrmRuns.FastIdFails`).
- A resource fetched by the id of another thread leaves the manager sound exactly when
  that thread has an entry.  Otherwise its new entry becomes what the caller's key
  points to (`TsrmSteps.OtherThreadIff`, `TsrmRuns.OtherThreadFails`).
- The sizes of an arena request and of the chunk for it wrap around near the top of
  `size_t`.  The chunk holds the block exactly for requests up to `MAX_REQUEST`
  (`ArenaLayout.NextChunkHoldsIff`).
- The printers announce a recursion exactly when a cycle can be reached from the value
  (`PrinterCycles.RecursionIsAnnouncedIffCycle`).
- The flat printer prints a negative integer key as an unsigned 64-bit number, the
  nested one as signed (`PrinterText.FlatLabelIsKey`, `PrinterText.LabelIsKey`).
- When no entry differs, `getDiff` prints one separator unless there are no entries
  at all (`DiffOutput.NothingChangedPrintsOneSeparator`).

Assumptions: space is reserved in TSRM before any entry exists; only ids that were
handed out are freed or fetched; module names differ after case folding and startup
functions succeed; `heapsort_r` gets at least two elements; an arena is created no
smaller than its aligned header.

## Model

| member | source | states |
|---|---|---|
| Lcs.LengthIsUpperBound | php-8.5.8-src/run-tests.php:4081-4100 | no non-crossing matching of two lists, under an arbitrary relation, is longer than the length the recurrence gives |
| Lcs.LengthIsAttained | php-8.5.8-src/run-tests.php:4081-4100 | some non-crossing matching has exactly that length, so the recurrence is the optimum |
| Lcs.LengthOfReverse | php-8.5.8-src/run-tests.php:4059 | reversing both lists keeps the optimum, for a relation that need not be symmetric |
| Lcs.SplitIsLowerBound | php-8.5.8-src/run-tests.php:4063-4070 | no pair of cuts beats the optimum of the whole |
| Lcs.SplitIsAttained | php-8.5.8-src/run-tests.php:4055-4073 | for every cut of the first list some cut of the second loses nothing |
| Lcs.LengthOfParted | php-8.5.8-src/run-tests.php:3996-4034 | stripping a common prefix and suffix takes exactly their lengths off the optimum |
| Differ.LengthOfPrefixes | php-8.5.8-src/run-tests.php:4090-4096 | the cell rule of the table: equal tokens extend the diagonal, others take the better neighbour |
| Differ.CommonSubsequenceLength | php-8.5.8-src/run-tests.php:4081-4100 | the row the nested loops leave holds, at every index, the optimum against that prefix of the second list |
| Differ.FindBestSplit | php-8.5.8-src/run-tests.php:4058-4070 | the two row computations, one on reversed halves, and the maximising loop end at the last best cut |
| Differ.BestSplitIsOptimal | php-8.5.8-src/run-tests.php:4055-4070 | the cut chosen loses nothing: its two halves add up to the optimum of the whole |
| Differ.SingleTakesFirst | php-8.5.8-src/run-tests.php:4040-4052 | a single token is matched with the first one that equals it, or with none |
| Differ.HalvesAreJoined | php-8.5.8-src/run-tests.php:4055-4079 | a longer list is cut in the middle and the other at the last of its best cuts, and the two results are joined |
| Differ.CalculateCommonSubsequence | php-8.5.8-src/run-tests.php:4036-4079 | the divide and conquer over slices, with its empty and single-token cases, computes the specified common subsequence |
| Differ.CommonSubsequenceIsOptimal | php-8.5.8-src/run-tests.php:4036-4079 | that subsequence is the second side of a non-crossing matching of maximum size, for an arbitrary relation |
| Differ.CommonIsSubsequenceOfBoth | php-8.5.8-src/run-tests.php:4036-4079 | with plain equality it is a subsequence of both inputs and as long as the optimum |
| Differ.GetArrayDiffParted | php-8.5.8-src/run-tests.php:3996-4034 | the inputs are prefix, rest and suffix put together, the prefix is the longest common one, and the rests agree neither at their first nor at their last token |
| Differ.NoLongerPrefix | php-8.5.8-src/run-tests.php:3996-4034 | no longer prefix than that is common to both inputs |
| Differ.GreedyStep | php-8.5.8-src/run-tests.php:3964-3979 | scanning greedily to the next common token never runs past it, so the list is not empty when it is shifted |
| Differ.ReplayGap | php-8.5.8-src/run-tests.php:3965-3971 | the two greedy scans stop with both lists non-empty and headed by the common token, which is none of those they passed, and what remains still holds the remaining common tokens |
| Differ.ReplayMiddle | php-8.5.8-src/run-tests.php:3961-3987 | the replay and the two closing loops use up both rests and keep exactly the common tokens |
| Differ.ScriptToMatching | php-8.5.8-src/run-tests.php:3945-3994 | the kept tokens of any edit script are a non-crossing matching, and its changes are the remaining tokens |
| Differ.ScriptsAreBounded | php-8.5.8-src/run-tests.php:3945-3994 | no edit script between two inputs keeps more than the optimum |
| Differ.HasFewestChanges | php-8.5.8-src/run-tests.php:3945-3994 | a script that keeps the optimum has the fewest added and removed entries of all scripts |
| Differ.NumbersPointAtTokens | php-8.5.8-src/run-tests.php:3965-3987 | the number on a removed (added) entry is the 1-based position of its token in the first (second) input |
| Differ.DiffToArray | php-8.5.8-src/run-tests.php:3945-3994 | round trip to both inputs, correct numbers, removals before additions in each gap, as many kept entries as the optimum, and no script with fewer changes; the tokens kept are the longest common prefix, those of the divide and conquer, each where it first comes up, and the common suffix |
| DiffOutput.PrintHunk | php-8.5.8-src/run-tests.php:4140-4162 | one run of changes with its trailing context is printed exactly as specified, and the cursor moves past it |
| DiffOutput.GetDiff | php-8.5.8-src/run-tests.php:4105-4169 | the cursor loop ends and prints the entries near a change in order, with a separator where a run of others begins; the lines with "-" are the removed entries with their numbers, those with "+" the added ones, the others the kept ones |
| DiffOutput.RenderShowsNearEntries | php-8.5.8-src/run-tests.php:4133-4162 | apart from separators the output is exactly the entries near some change, in order, once each |
| DiffOutput.RenderSeparatesOmittedRuns | php-8.5.8-src/run-tests.php:4122-4132 | there are as many separators as maximal runs of omitted entries |
| DiffOutput.SeparatorsNeverTouch | php-8.5.8-src/run-tests.php:4122-4132 | two separators never follow each other, and the output ends in one exactly when the last entry is omitted |
| DiffOutput.RenderShowsEveryChange | php-8.5.8-src/run-tests.php:4140-4154 | whatever the context width, every change is printed, with its number, in order |
| DiffOutput.RenderSigns | php-8.5.8-src/run-tests.php:4140-4162 | removed entries print with "-" and added ones with "+", each with its number and token, in order; kept ones near a change print their token |
| DiffOutput.RenderQuotes | php-8.5.8-src/run-tests.php:4140-4154 | for a shortest script every "-" line quotes the line of the first input that it numbers, every "+" line that of the second, and there are as many as the inputs exceed the longest common subsequence |
| DiffOutput.NothingChangedPrintsOneSeparator | php-8.5.8-src/run-tests.php:4121-4127 | without a change the output is a single separator, or empty when there is no entry |
| DiffOutput.Diff | php-8.5.8-src/run-tests.php:3938-3943 | the printed diff of two inputs shows every change of a shortest edit script between them; its "-" lines quote the first input and its "+" lines the second, by number |
| OrderedMaps.ElementsAfterAppend | php-8.5.8-src/run-tests.php:1544 | adding a test to a wait list adds exactly that test to all that wait |
| OrderedMaps.ElementsAfterRemove | php-8.5.8-src/run-tests.php:1520 | dropping a key takes exactly the tests of its list away |
| OrderedMaps.PutGoesLast | php-8.5.8-src/run-tests.php:1544-1554 | a new key comes last and a known one stays where it is |
| OrderedMaps.WithoutClosesUp | php-8.5.8-src/run-tests.php:1515-1520 | dropping a key keeps the order of the others |
| Scheduling.Scheduler.constructor | php-8.5.8-src/run-tests.php:1367-1399 | splits off the sequential tests, reverses the others and starts workers 1, 2, and so on: one, or else no more than asked for nor than tests that may run beside others, and no fewer |
| Scheduling.BatchSizeAverages | php-8.5.8-src/run-tests.php:1538-1540 | the batch size is the least with which the workers take all tests in one round, cut off at the limit, and never 0 |
| Scheduling.Scheduler.ChooseBatchSize | php-8.5.8-src/run-tests.php:1538-1540 | the same for the loop's variables |
| Scheduling.Scheduler.ReleaseKey | php-8.5.8-src/run-tests.php:1515-1521 | frees a key and moves its waiting tests back to the stack |
| Scheduling.Scheduler.FinishBatch | php-8.5.8-src/run-tests.php:1511-1524 | a finished batch frees every key of its worker, in the order of the map |
| Scheduling.Scheduler.CollectBatch | php-8.5.8-src/run-tests.php:1541-1549 | the pop loop fills a batch and makes each blocked test wait on its first active key |
| Scheduling.Scheduler.ScheduleWorker | php-8.5.8-src/run-tests.php:1526-1567 | merges the sequential tests for the last worker, then hands out a batch or ends the worker |
| Scheduling.Scheduler.HandleMessage | php-8.5.8-src/run-tests.php:1510-1568 | one message changes the loop's variables exactly as one step of the state machine |
| SchedulerSafety.FreeKeysConserves | php-8.5.8-src/run-tests.php:1513-1523 | moving tests from wait lists to the stack loses and repeats none |
| SchedulerSafety.FreeKeysKeepsOrder | php-8.5.8-src/run-tests.php:1513-1523 | and keeps the original order of the tests whose only key is the same |
| SchedulerSafety.FillKeeps | php-8.5.8-src/run-tests.php:1541-1549 | filling loses no test, batches no test with an active key, takes at most one more than the batch size, and yields nothing only when the stack is empty |
| SchedulerSafety.FillKeepsOrder | php-8.5.8-src/run-tests.php:1375-1380 | filling keeps the order of the tests on one key across batch, wait list and stack |
| SchedulerSafety.FinishKeeps | php-8.5.8-src/run-tests.php:1511-1523 | the end of a batch keeps the invariant, with its worker idle |
| SchedulerSafety.StepKeeps | php-8.5.8-src/run-tests.php:1477-1568 | every message of every worker keeps the whole invariant: conservation, active keys, waiting on held keys only, workers accounted for, order |
| SchedulerRuns.InitialHolds | php-8.5.8-src/run-tests.php:1367-1385 | the loop starts in a state that satisfies the invariant, for any tests and any number of workers |
| SchedulerRuns.ActiveIsUnion | php-8.5.8-src/run-tests.php:1550-1555 | a key is active if and only if some batch in flight conflicts on it |
| SchedulerRuns.MutualExclusion | php-8.5.8-src/run-tests.php:1343-1345 | two workers never hold tests that share a key, and a test conflicting with "all" runs with no other worker alive |
| SchedulerRuns.NeverStuck | php-8.5.8-src/run-tests.php:1477-1480 | while the loop guard holds some live worker is busy or has still to report |
| SchedulerRuns.NothingStranded | php-8.5.8-src/run-tests.php:1477-1568 | when the guard fails every test was handed out and finished exactly once, those on one key in their original order |
| SchedulerRuns.StepHandsOutOrEnds | php-8.5.8-src/run-tests.php:1550-1567 | a message hands out 1 to batchSize+1 tests, or ends its worker with no test pending |
| SchedulerRuns.StepProgresses | php-8.5.8-src/run-tests.php:1477-1568 | every message lowers the number of tests not handed out plus live workers |
| SchedulerRuns.RunInvariant | php-8.5.8-src/run-tests.php:1477-1568 | the invariant holds after any number of messages in any order, and the measure bounds how many there can be |
| SchedulerRuns.RunIsSafe | php-8.5.8-src/run-tests.php:1477-1568 | over every run: exclusive keys, "all" alone, order on one key, no stuck state, nothing lost, and a bound on the length from the tests and the workers asked for |
| SchedulerRuns.RunAllTestsParallel | php-8.5.8-src/run-tests.php:1477-1568 | the loop ends, whichever worker reports next, with every test run exactly once and in order per single key |
| SchedulerBatches.PopAllMovesAllIffTruthy | php-8.5.8-src/run-tests.php:1517-1519 | a pop loop moves a whole list, reversed, if and only if no name in it is empty or "0" |
| SchedulerBatches.RunFinishesAllIffTruthy | php-8.5.8-src/run-tests.php:1477-1568 | a run whose guard has failed finished every test exactly once if and only if no name is empty or "0" |
| SchedulerBatches.FillTakesFirstFree | php-8.5.8-src/run-tests.php:1541-1549 | whatever keys are held, a batch is the first free tests from the top of the stack, up to one more than the batch size |
| SchedulerBatches.BatchExceedsIff | php-8.5.8-src/run-tests.php:1540-1549 | the batch exceeds the batch size if and only if at least one more than that are free, and never by more than one |
| SchedulerBatches.LastWorkerIsHanded | php-8.5.8-src/run-tests.php:1527-1549 | the last worker, once idle, is handed a stretch from the start of what is left: sequential tests reversed, then the stack from the top |
| SchedulerBatches.LastWorkerOrder | php-8.5.8-src/run-tests.php:1527-1568 | from there to its end it gets exactly that list; what it is handed has the sequential tests after the others if and only if there are none of the one or of the other kind |
| SchedulerBatches.SequentialGoesFirst | php-8.5.8-src/run-tests.php:1527-1531 | one worker, one test and a sequential test after it: the first message hands out the sequential one first |
| SchedulerSequential.StretchesIff | php-8.5.8-src/run-tests.php:1540-1549 | cutting the list stretch by stretch, none sharing a key with what follows, is the same as every shared key staying within one stretch |
| SchedulerSequential.SequentialTestsComeLast | php-8.5.8-src/run-tests.php:1365-1366 | with two workers or more and shared keys within stretches, at any moment of any run nothing waits, whole stretches have been handed out, and no other test follows a sequential one |
| SchedulerSequential.RunEnds | php-8.5.8-src/run-tests.php:1477-1568 | every run can go on, keeping what it has handed out, to a state in which every test has been handed out as often as it was given |
| SchedulerSequential.FirstTakes | php-8.5.8-src/run-tests.php:1541-1567 | otherwise one worker can take stretch after stretch until it holds a key of a test that is still to come |
| SchedulerSequential.OthersLeave | php-8.5.8-src/run-tests.php:1556-1567 | from there the other workers can all end while that test is still to come |
| SchedulerSequential.OthersBreak | php-8.5.8-src/run-tests.php:1365-1366 | so with both kinds of tests, and one worker or a key shared across stretches, some run hands out a sequential test before another |
| SchedulerSequential.SequentialComesLastIff | php-8.5.8-src/run-tests.php:1365-1366 | for all tests, keys, limits and workers: every run hands out the sequential tests last if and only if there are none of one kind, or two workers or more and shared keys within stretches |
| SchedulerPairs.RunAhead | php-8.5.8-src/run-tests.php:1375-1380 | over every run, if all keys of a test are the first key of a later one, the earlier is handed out, above it on the stack, or before it in the wait list of that key |
| SchedulerPairs.AheadMeansNotOvertaken | php-8.5.8-src/run-tests.php:1375-1380 | in such a state the later test has not been handed out before the earlier one |
| SchedulerOvertaking.OthersOvertake | php-8.5.8-src/run-tests.php:1375-1380 | for any other two key lists with a common key, and any batch limit, there are tests, workers and messages that hand out the later test first |
| SchedulerOvertaking.NoneOvertake | php-8.5.8-src/run-tests.php:1375-1380 | with such key lists no tests, workers and messages do |
| SchedulerOvertaking.OrderIsKeptIff | php-8.5.8-src/run-tests.php:1375-1377 | under any batch limit two tests with a common key are handed out in their order in every run if and only if all keys of the earlier are the first key of the later |
| TsrmTable.GrowNode | php-8.5.8-src/TSRM/TSRM.c:254-269 | an entry gets its storage if it had none and exactly the ids it lacks, each constructed once |
| TsrmTable.FreeResources | php-8.5.8-src/TSRM/TSRM.c:164-180 | destroys the ids of an entry that are not done, from the last to the first, and frees its storage; what is left to do is to free the entry |
| TsrmTable.ReleaseNode | php-8.5.8-src/TSRM/TSRM.c:557-568 | destroys one id of an entry if the entry has it, and empties its slot |
| TsrmTable.HashTable.Grow | php-8.5.8-src/TSRM/TSRM.c:248-273 | walking all chains enlarges every entry and leaves the links as they were |
| TsrmTable.HashTable.ReleaseId | php-8.5.8-src/TSRM/TSRM.c:551-571 | walking all chains empties the slot of the id in every entry |
| TsrmTable.HashTable.FreeAll | php-8.5.8-src/TSRM/TSRM.c:198-213 | the shutdown walk, which reads a link before its node goes, destroys what every entry holds and frees each storage and entry |
| TsrmTable.HashTable.Walk | php-8.5.8-src/TSRM/TSRM.c:450-461 | ends at the first entry of the thread, with its predecessor, or past the end of the chain |
| TsrmTable.HashTable.LinkLast | php-8.5.8-src/TSRM/TSRM.c:443-458 | writing the first or last link appends the node and changes no other chain |
| TsrmTable.HashTable.LinkInstead | php-8.5.8-src/TSRM/TSRM.c:488-492 | the new node takes the place of the stale one and the rest of the chain stays linked |
| TsrmTable.HashTable.Unlink | php-8.5.8-src/TSRM/TSRM.c:524-531 | the node is taken out, whether first or not, and the rest of the chain stays linked |
| Tsrm.Manager.constructor | php-8.5.8-src/TSRM/TSRM.c:117-146 | startup yields empty buckets, no ids, room for the types expected and no reserved space |
| Tsrm.Manager.Reserve | php-8.5.8-src/TSRM/TSRM.c:317-321 | refines the reserve step |
| Tsrm.Manager.AllocateId | php-8.5.8-src/TSRM/TSRM.c:277-313 | refines the new-id step: the next id, its type stored in a table enlarged if need be, every active thread enlarged |
| Tsrm.Manager.AllocateFastId | php-8.5.8-src/TSRM/TSRM.c:325-372 | refines the new-fast-id step, including the branch that fails with id 0 and loses an id |
| Tsrm.Manager.FreeId | php-8.5.8-src/TSRM/TSRM.c:545-577 | refines the free-id step |
| Tsrm.Manager.AllocateNewResource | php-8.5.8-src/TSRM/TSRM.c:381-414 | a new entry has one slot per id, null exactly for the ids done, the others constructed in order after entry and storage were allocated, and becomes what the key of the caller points to |
| Tsrm.Manager.KeyIsFound | php-8.5.8-src/TSRM/TSRM.c:423-436 | a key that is set is the very node the walk of the chain finds |
| Tsrm.Manager.ResourceEx | php-8.5.8-src/TSRM/TSRM.c:417-506 | through the key, the walk, a new entry or the replacement of a stale one, the caller gets the storage its key points to, long enough for any id handed out, and the state is that of the resource step |
| Tsrm.Manager.ResourceExOf | php-8.5.8-src/TSRM/TSRM.c:417-461 | with the id of another thread the caller gets the storage of the entry of that thread, made if there was none, and the state is that of the step |
| Tsrm.Manager.FreeThread | php-8.5.8-src/TSRM/TSRM.c:510-541 | refines the free-thread step, with or without an entry |
| Tsrm.Manager.Shutdown | php-8.5.8-src/TSRM/TSRM.c:183-222 | refines the shutdown step, which frees the tables last |
| TsrmSafety.KeyIsWalk | php-8.5.8-src/TSRM/TSRM.c:423-436 | in a healthy state the lock-free path and the walk agree, also after a thread id was used again |
| TsrmSafety.FreeEventsDescend | php-8.5.8-src/TSRM/TSRM.c:164-180 | within one entry destruction runs strictly from the last id to the first |
| TsrmSafety.NewEventsAscend | php-8.5.8-src/TSRM/TSRM.c:389-408 | within a new entry construction runs strictly from the first id to the last |
| TsrmSafety.GrowEventsAscend | php-8.5.8-src/TSRM/TSRM.c:254-268 | an entry enlarged gets each id it lacks, in order |
| TsrmSafety.BucketsComeRound | php-8.5.8-src/TSRM/TSRM.h:76 | threads go to the buckets in turn |
| TsrmSafety.EntryBuiltPhase | php-8.5.8-src/TSRM/TSRM.c:381-410 | making an entry begins the entry, its storage and the instance of every id not done, once, and nothing else |
| TsrmSafety.EntryFreedPhase | php-8.5.8-src/TSRM/TSRM.c:164-180 | freeing an entry ends exactly what making one of that length begins |
| TsrmSafety.GrowChainEventsPhase | php-8.5.8-src/TSRM/TSRM.c:248-273 | enlarging begins each new id once in each entry, and its storage where it had none, and touches nothing else |
| TsrmSafety.ReleaseChainEventsPhase | php-8.5.8-src/TSRM/TSRM.c:551-571 | freeing an id destroys it once in each entry that has it and touches no other instance |
| TsrmSafety.FreeChainEventsPhase | php-8.5.8-src/TSRM/TSRM.c:198-213 | shutting down ends every entry, storage and instance that is there once and no other |
| TsrmSteps.GrownIsNew | php-8.5.8-src/TSRM/TSRM.c:248-273 | an entry enlarged by a new id is like one made after it |
| TsrmSteps.AllocateKeeps | php-8.5.8-src/TSRM/TSRM.c:277-313 | storing a type, enlarging the table of types and every entry keeps the state healthy, whatever ids were lost before |
| TsrmSteps.AllocateIdKeeps | php-8.5.8-src/TSRM/TSRM.c:277-313 | a new id keeps the state healthy |
| TsrmSteps.FastIdKeepsIff | php-8.5.8-src/TSRM/TSRM.c:325-372 | a new fast id keeps the state healthy if and only if it fits the reserved space or the id it loses lies inside the table of types, and if and only if the next entry made reads that table within its size |
| TsrmSteps.SkipKeeps | php-8.5.8-src/TSRM/TSRM.c:334-341 | an id lost inside the table of types reads as one never set and keeps the state healthy |
| TsrmSteps.AppendKeeps | php-8.5.8-src/TSRM/TSRM.c:443-458 | a first entry for a thread keeps the state healthy |
| TsrmSteps.ReplaceKeeps | php-8.5.8-src/TSRM/TSRM.c:481-495 | replacing the entry of a thread that died keeps the state healthy |
| TsrmSteps.ResourceKeeps | php-8.5.8-src/TSRM/TSRM.c:417-506 | fetching a resource keeps the state healthy and leaves the key set |
| TsrmSteps.OtherThreadIff | php-8.5.8-src/TSRM/TSRM.c:423-461 | fetching by the id of another thread keeps the state healthy if and only if that thread has an entry |
| TsrmSteps.FreeThreadKeeps | php-8.5.8-src/TSRM/TSRM.c:510-541 | freeing a thread keeps the state healthy and leaves no key of it |
| TsrmSteps.FreeIdKeeps | php-8.5.8-src/TSRM/TSRM.c:545-577 | freeing an id that was handed out, even again, keeps the state healthy and leaves the id done |
| TsrmRuns.RunsAreHealthy | php-8.5.8-src/TSRM/TSRM.c:183-577 | over any interleaving: chains hash to their bucket with one entry per thread, storages lack only lost ids, keys agree with chains, fast slots are apart, everything logged lives once |
| TsrmRuns.FastIdFails | php-8.5.8-src/TSRM/TSRM.c:334-341 | right after startup a fast id can fail so that the next entry reads an empty table of types |
| TsrmRuns.OtherThreadFails | php-8.5.8-src/TSRM/TSRM.c:423-447 | right after startup a fetch by the id of another thread leaves the caller's key on the entry of that thread |
| TsrmRuns.SlotsAreLive | php-8.5.8-src/TSRM/TSRM.c:394-409 | at any moment every slot of every entry, the last included, is null exactly when its id was freed, and a fast slot lies aligned inside the entry |
| TsrmRuns.FastSlotsAreApart | php-8.5.8-src/TSRM/TSRM.c:343-344 | and no two fast slots of an entry overlap |
| TsrmRuns.PartsLiveOnce | php-8.5.8-src/TSRM/TSRM.c:164-577 | in every prefix of the log an instance, a storage, an entry or the tables have begun at most once and ended no more often; each is there exactly while its entry is linked and long enough and its id not freed |
| TsrmRuns.ShutdownLeavesNothing | php-8.5.8-src/TSRM/TSRM.c:183-222 | after any run and shutdown all that was allocated or constructed was freed or destroyed exactly once, the entries and tables included, and instance blocks were freed exactly where they were allocated |
| TsrmCalls.IdServesItsCall | php-8.5.8-src/TSRM/TSRM.c:277-313 | at any time after a new id was asked for it has the size, constructor and destructor given, each instance has a block of its own and those hooks, at shutdown too, and its slots are null exactly once it was freed |
| TsrmCalls.FastIdServesItsCall | php-8.5.8-src/TSRM/TSRM.c:325-372 | the same for a fast id that fits, whose instances lie in the reserved space behind the header, each after the one before |
| TsrmCalls.LostIdServesNobody | php-8.5.8-src/TSRM/TSRM.c:334-341 | a fast id that does not fit has no hook, is never handed out and leaves the reserved space as it is |
| TsrmCalls.ReservedSpace | php-8.5.8-src/TSRM/TSRM.c:317-321 | the reserved space is what was asked for last, rounded up to 16, and only fast ids use it |
| TsrmCalls.IdsAscend | php-8.5.8-src/TSRM/TSRM.c:277-372 | each id, lost or not, is one more than the last |
| TsrmCalls.TablesKeepTheirSize | php-8.5.8-src/TSRM/TSRM.c:117-146 | there are as many buckets as threads were expected, and room for the types expected until the ids outgrow it |
| TsrmCalls.FreeThreadFreesItsEntry | php-8.5.8-src/TSRM/TSRM.c:510-541 | freeing a thread removes its entry and no other, and its key |
| TsrmCalls.ResourceGivesAnEntry | php-8.5.8-src/TSRM/TSRM.c:417-506 | fetching leaves the thread with exactly the entry that its key points to, which is new unless the key was set, and all others as they were |
| TsrmCalls.FreeIdFreesItsId | php-8.5.8-src/TSRM/TSRM.c:545-577 | freeing an id marks that id alone and removes no entry |
| TsrmOrder.RunsAreInPlace | php-8.5.8-src/TSRM/TSRM.c:164-577 | over every run an instance is constructed and destroyed only while the storage of its entry is allocated, a storage allocated and freed only while its entry is, an entry only while the tables are |
| TsrmOrder.ShutdownInPlace | php-8.5.8-src/TSRM/TSRM.c:198-216 | shutdown keeps to that order too |
| TsrmOrder.EventFindsItsPlace | php-8.5.8-src/TSRM/TSRM.c:164-577 | read off one event of such a log |
| MemoryHeap.AlignedSizeCovers | php-8.5.8-src/Zend/zend_alloc.h:35 | aligning a request covers it if and only if the sum does not wrap |
| ArenaLayout.BumpKeeps | php-8.5.8-src/Zend/zend_arena.h:60-61 | a block cut from the newest chunk is inside it, aligned, past the header and above all others |
| ArenaLayout.GrowKeeps | php-8.5.8-src/Zend/zend_arena.h:62-74 | a new chunk on a fresh range holds the block, is disjoint from the others and not smaller than the last |
| ArenaLayout.NextChunkHoldsIff | php-8.5.8-src/Zend/zend_arena.h:58-66 | with both sums taken modulo `size_t`, the aligned block covers the request and fits the next chunk if and only if the request is at most `MAX_REQUEST`, 32 short of `size_t` |
| ArenaLayout.BlocksApart | php-8.5.8-src/Zend/zend_arena.h:53-77 | any two live blocks are disjoint |
| ArenaLayout.OutsideOthers | php-8.5.8-src/Zend/zend_arena.h:103-108 | the address test of the release loop is false for the checkpoint's chunk and true for every other, also when a newer one starts where it ends |
| ArenaLayout.PopNext | php-8.5.8-src/Zend/zend_arena.h:103-108 | on the way down the loop test frees a chunk that is live and newer than that of the checkpoint, or stops with exactly the chunks up to it |
| ArenaLayout.ReleaseKeeps | php-8.5.8-src/Zend/zend_arena.h:99-111 | the state after a release satisfies the arena's invariant |
| ArenaLayout.ReleaseKeepsMark | php-8.5.8-src/Zend/zend_arena.h:94-111 | checkpoints older than the one released to stay valid, so releases nest |
| ArenaLayout.GrowKeepsMarks | php-8.5.8-src/Zend/zend_arena.h:62-74 | a new chunk invalidates no checkpoint |
| Arena.Arena.constructor | php-8.5.8-src/Zend/zend_arena.h:34-42 | one chunk, of the size asked for and free from behind its header, no block |
| Arena.Arena.Alloc | php-8.5.8-src/Zend/zend_arena.h:53-77 | up to `MAX_REQUEST`, pushes one aligned block of the aligned size, disjoint from all live ones, and keeps every checkpoint; it is cut from the newest chunk where it fits there and else lies behind the header of a fresh one, no larger than needed; above the limit, the block does not hold the request |
| Arena.Arena.Checkpoint | php-8.5.8-src/Zend/zend_arena.h:94-97 | the address marks the current stack of blocks and chunks |
| Arena.Arena.PopTo | php-8.5.8-src/Zend/zend_arena.h:103-108 | the loop frees exactly the chunks above the checkpoint's and stops there |
| Arena.Arena.Release | php-8.5.8-src/Zend/zend_arena.h:99-111 | restores exactly the blocks live at the checkpoint and frees exactly the chunks made since |
| Arena.Arena.Destroy | php-8.5.8-src/Zend/zend_arena.h:44-51 | gives back every chunk, once |
| Arena.Arena.Contains | php-8.5.8-src/Zend/zend_arena.h:113-122 | true exactly for the addresses in use of some chunk, so for every live block |
| Arena.ReleaseUndoesAlloc | php-8.5.8-src/Zend/zend_arena.h:53-111 | checkpoint, allocate, release leaves blocks, chunks and heap as they were |
| TrackedRecord.SlotsApart | php-8.5.8-src/Zend/zend_arena.h:131-136 | slot addresses, one past the end included, identify chunk and slot |
| TrackedRecord.StopsAtMark | php-8.5.8-src/Zend/zend_arena.h:200-206 | on the way down the pointer comparison holds at the checkpoint and nowhere before |
| TrackedRecord.BlocksApart | php-8.5.8-src/Zend/zend_arena.h:163-173 | any two live blocks are disjoint |
| TrackedArena.Arena.Alloc | php-8.5.8-src/Zend/zend_arena.h:163-173 | pushes one block of the size asked for, disjoint from all live ones, takes exactly that block and at most one chunk from the heap, and keeps every checkpoint |
| TrackedArena.Arena.Checkpoint | php-8.5.8-src/Zend/zend_arena.h:190-193 | the slot address marks the current stack of blocks and chunks |
| TrackedArena.Arena.Release | php-8.5.8-src/Zend/zend_arena.h:195-214 | the same stack specification as the bump arena, and exactly the blocks and chunks made since are freed, once each |
| TrackedArena.Arena.Destroy | php-8.5.8-src/Zend/zend_arena.h:150-161 | gives back every block and every chunk, once |
| ModuleRegistry.Registry.FindLater | php-8.5.8-src/Zend/zend_API.c:2493-2512 | finds the first later module that this one asks for, by its dependencies in order, or there is none |
| ModuleRegistry.FoldIff | php-8.5.8-src/Zend/zend_API.c:2437-2501 | two names fold to the same exactly when they have the same length and each two characters are equal or an ASCII letter and its other case |
| ModuleRegistry.Registry.Find | php-8.5.8-src/Zend/zend_API.c:2439 | finds a module by its name in any case, and the one there is |
| ModuleRegistry.LaterDepIsFirst | php-8.5.8-src/Zend/zend_API.c:2493-2512 | the later module chosen is the first that the first dependency with one names, letter case aside |
| ModuleRegistry.SortedIsNoneTooEarly | php-8.5.8-src/Zend/zend_API.c:2483-2515 | a sorted order is one in which no unstarted module precedes one that a required or optional dependency of it names |
| ModuleRegistry.ClosedIffSupplied | php-8.5.8-src/Zend/zend_API.c:2428-2448 | a set is closed exactly when every unstarted member has a member of each name it requires, letter case aside |
| ModuleRegistry.Registry.SortModules | php-8.5.8-src/Zend/zend_API.c:2483-2515 | swap and retry ends as the rounds of the sort do, permutes the modules, and no unstarted module precedes one of its required or optional dependencies |
| ModuleRegistry.SortedMeansAcyclic | php-8.5.8-src/Zend/zend_API.c:2491-2514 | if any order of the modules is sorted, their dependencies are acyclic |
| ModuleRegistry.RoundsKeepSorted | php-8.5.8-src/Zend/zend_API.c:2491-2514 | after any number of rounds, with or without a cycle, the modules are permuted and those passed are settled |
| ModuleRegistry.RankedEnds | php-8.5.8-src/Zend/zend_API.c:2491-2514 | without a cycle the rounds come to an end |
| ModuleRegistry.SortEndsIffAcyclic | php-8.5.8-src/Zend/zend_API.c:2491-2514 | the sort of any list of modules ends if and only if the dependencies of the unstarted ones are acyclic |
| ModuleRegistry.MutualDependencyNeverEnds | php-8.5.8-src/Zend/zend_API.c:2491-2514 | the sort of two modules that require each other does not end |
| ModuleRegistry.Registry.StartupModuleEx | php-8.5.8-src/Zend/zend_API.c:2417-2472 | a module not started before starts exactly when each required module is registered and started; otherwise it is left unstarted |
| ModuleRegistry.ClosedSurvives | php-8.5.8-src/Zend/zend_API.c:2475-2480 | no module of a closed set is removed |
| ModuleRegistry.SurvivorsAreLargestClosed | php-8.5.8-src/Zend/zend_API.c:2599-2603 | the survivors are closed under what unstarted modules require and contain every closed set |
| ModuleRegistry.BegunSurvive | php-8.5.8-src/Zend/zend_API.c:2422-2424 | a module started before is never removed, whatever it requires |
| ModuleRegistry.Registry.StartupModules | php-8.5.8-src/Zend/zend_API.c:2599-2603 | after sort and startup the largest subset survives in which every unstarted module has all it requires, by names in any case; exactly its modules are started, each now started after all it requires and after all surviving ones it would like to follow; those started before stay |
| MapPtr.HandlesAreStable | php-8.5.8-src/Zend/zend_map_ptr.h:71-75 | the handle of a slot does not depend on how far the static part has grown |
| MapPtr.HandlesInBytes | php-8.5.8-src/Zend/zend_map_ptr.h:71-75 | dynamic handles go up from the border by 8, static chunks of 4096 go down from it |
| MapPtr.HandlesAreDistinct | php-8.5.8-src/Zend/zend.c:2060-2095 | no two slots, static or dynamic, share a handle, and every handle is recognisable as an offset |
| MapPtr.StaticIndexInTable | php-8.5.8-src/Zend/zend.c:2091 | static slots lie below the border |
| MapPtr.MovedUp | php-8.5.8-src/Zend/zend.c:2080-2089 | copying the table one chunk up keeps what every handle reads |
| MapPtr.WriteStatic | php-8.5.8-src/Zend/zend_map_ptr.h:67-70 | writing one static slot changes no other slot |
| MapPtr.WriteDynamic | php-8.5.8-src/Zend/zend_map_ptr.h:67-70 | writing one dynamic slot changes no other slot |
| MapPtr.Table.GrowDynamic | php-8.5.8-src/Zend/zend.c:2064-2069 | the reallocation keeps the contents of all slots |
| MapPtr.Table.New | php-8.5.8-src/Zend/zend.c:2060-2074 | one more dynamic slot that reads NULL, all others unchanged |
| MapPtr.Table.NewStatic | php-8.5.8-src/Zend/zend.c:2076-2095 | one more static slot that reads NULL, all others unchanged, also when the table moves |
| MapPtr.Table.Extend | php-8.5.8-src/Zend/zend.c:2097-2112 | the missing dynamic slots are added and read NULL, all others unchanged |
| MapPtr.Table.SetStatic | php-8.5.8-src/Zend/zend_map_ptr.h:67-70 | a write through a static handle reaches that slot alone |
| MapPtr.Table.SetDynamic | php-8.5.8-src/Zend/zend_map_ptr.h:67-70 | a write through a dynamic handle reaches that slot alone |
| MapPtr.Table.Get | php-8.5.8-src/Zend/zend_map_ptr.h:58-59 | a handle reads the slot it was given for, however the table grew since |
| Printer.ValuePrinter.PrintHash | php-8.5.8-src/Zend/zend.c:380-428 | ends on any finite graph, appends the specified text and leaves the marks as they were |
| Printer.ValuePrinter.PrintR | php-8.5.8-src/Zend/zend.c:544-614 | ends on any finite, possibly cyclic graph, appends the specified text and leaves every mark as it was, on the early returns too |
| Printer.ValuePrinter.PrintFlatHash | php-8.5.8-src/Zend/zend.c:431-451 | the same for the flat list of entries |
| Printer.ValuePrinter.PrintFlat | php-8.5.8-src/Zend/zend.c:480-532 | the same for the flat printer |
| Printer.AcyclicTextIsPlain | php-8.5.8-src/Zend/zend.c:544-614 | if what can be reached from the value is acyclic, shared nodes included, the text is that of a printer without marks |
| Printer.AcyclicFlatIsPlain | php-8.5.8-src/Zend/zend.c:480-532 | the same for the flat printer |
| PrinterText.DigitsAreRead | php-8.5.8-src/Zend/zend.c:417 | the decimal text of a number, read first digit first, gives the number back, with no leading zero |
| PrinterText.LabelIsKey | php-8.5.8-src/Zend/zend.c:397-418 | between the brackets the nested printer shows an integer key in decimal with its sign, an array key as it is, a property by its own name with its visibility |
| PrinterText.FlatLabelIsKey | php-8.5.8-src/Zend/zend.c:441-446 | the flat printer shows a negative integer key as that number plus 2 to the 64, other keys as they are |
| PrinterText.EntryIsPrinted | php-8.5.8-src/Zend/zend.c:391-424 | each entry of the nested printer is indented, its key in brackets, an arrow, its value indented by 4 more, and a line end |
| PrinterText.FlatEntryIsPrinted | php-8.5.8-src/Zend/zend.c:437-449 | one comma between neighbouring entries of the flat printer, and none before the first |
| PrinterText.TableIsPrinted | php-8.5.8-src/Zend/zend.c:386-427 | the entries of a table stand between brackets, indented by 4 more than these |
| PrinterText.ObjectIsPrinted | php-8.5.8-src/Zend/zend.c:569-608 | an object shows its class name and whether it is an object, an enum or a backed enum, then its properties |
| PrinterText.ArrayIsPrinted | php-8.5.8-src/Zend/zend.c:547-567 | an array shows its head, then its elements or the notice |
| PrinterText.RecursionIsPrinted | php-8.5.8-src/Zend/zend.c:549-583 | a node that is being printed shows its head and the recursion notice |
| PrinterCycles.NoticeHasWalk | php-8.5.8-src/Zend/zend.c:549-583 | where a recursion is announced some walk from the value comes to a marked node, or twice to one that carries marks |
| PrinterCycles.WalkHasNotice | php-8.5.8-src/Zend/zend.c:549-583 | and every such walk leads to a notice |
| PrinterCycles.NoticesIffCycle | php-8.5.8-src/Zend/zend.c:480-614 | printing comes to a node being printed if and only if a cycle can be reached from the value, through immutable arrays and references too |
| PrinterCycles.RecursionIsAnnouncedIffCycle | php-8.5.8-src/Zend/zend.c:480-614 | in the text of either printer the recursion notice shows if and only if a cycle can be reached from the value |
| HeapSort.RootIsMaximum | php-8.5.8-src/Zend/bench.php:226-227 | the root of a heap is its maximum, which the swap moves behind it |
| HeapSort.SiftStep | php-8.5.8-src/Zend/bench.php:235-245 | moving the hole down to the larger child keeps the heap with a hole |
| HeapSort.SiftDown | php-8.5.8-src/Zend/bench.php:233-246 | the inner loop makes a heap of one more element, permutes, and changes nothing outside |
| HeapSort.TakeRoot | php-8.5.8-src/Zend/bench.php:226-228 | moving the root behind the heap extends the sorted part |
| HeapSort.HeapSortR | php-8.5.8-src/Zend/bench.php:218-248 | leaves positions 1 to n a sorted permutation of themselves and changes nothing else |

## Left out

- Differ: the regex mode of `isEqual`, which is neither reflexive nor symmetric, in the replay; the LCS part holds for an arbitrary relation. Tokens are never null, and arrays with integer keys are lists.
- DiffOutput: the width and padding of line numbers.
- Scheduler: shuffle, redirected tests, message encoding, sockets and processes; a crashed worker ends the program. Reading `CONFLICTS` files is a map from tests to keys.
- SchedulerRuns.RunIsSafe: needs test names that are true to PHP, since a batch loop drops any other; SchedulerBatches.RunFinishesAllIffTruthy says that no other run finishes all.
- SchedulerOvertaking.OrderIsKeptIff: two tests with a common key, neither conflicting with "all", and without shuffle, which reorders them first.
- SchedulerSequential.SequentialComesLastIff: for test names that are true to PHP.
- TSRM: the begin, end and shutdown handlers, `TSRMLS_CACHE`, failing allocations, and mutexes other than as atomic steps. Constructors and destructors of resources are log entries; the shutdown flags are the caller's.
- TsrmSteps.FastIdKeepsIff: an id lost at the end of the table of types leaves an entry there that no call sets; what later calls read in it is memory of any content, so no state is given for them.
- TsrmSteps.OtherThreadIff: after a key was left pointing to another thread's entry no further call is modelled.
- TsrmSteps.FreeIdKeeps: needs an id that was handed out, not one lost by a failed call.
- TsrmTable.Node: `storage` is a sequence rather than a block of pointers that is reallocated.
- Arena: `zend_arena_calloc`, which zeroes a block.
- Arena.Arena.Alloc: above `MAX_REQUEST` it states that the block does not hold the request, not that the arena stays in order.
- Arena.ReleaseUndoesAlloc: for requests up to `MAX_REQUEST`.
- ModuleRegistry: conflicting dependencies, which neither function looks at, globals constructors and failing startup functions.
- ModuleRegistry.Registry.SortModules: requires dependencies without a cycle, because a method has to end; SortEndsIffAcyclic says of the same rounds that they end in no other case.
- MapPtr: `zend_map_ptr_reset` and the per-thread copies of the table.
- Printer: how numbers other than keys and other scalars become strings, property tables made on the fly, and the choice between the two places a recursion mark is kept.
- HeapSort: numbers are reals; the rest of the benchmarks are fixed loops.
- The billing application and the rest of php-src: database access, HTML and single-branch checks.
