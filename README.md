# Yamcs parameter-archive filler and SCPI console dispatcher in Dafny

This project models two components of Yamcs and proves properties of the models.

**ArchiveFillerTask** takes batches of time-stamped parameter samples and works them through these steps:
- It drops samples older than the collection window start (`collectionSegmentStart`). It also drops samples without a qualified name and samples with an aggregate engineering value.
- It groups the rest by exact generation time into a `SortedParameterList` whose parameter ids stay ascending.
- It resolves a parameter-group id for each such list and appends the list as a row to that group's live segment (`PGSegment`).
- When any segment holds more than `maxSegmentSize` rows, it consolidates every live segment and hands them all to the archive in one write. It then clears the live map and moves the window to one past the batch's largest admitted timestamp.
- `updateItems` first checks for imminent memory exhaustion and aborts: it drops the map and asks the processor to stop. Otherwise it aligns the window to the first sample's segment start, flushing what is live when the window moves.

The task is a Dafny class, `FillerTask.ArchiveFillerTask`. Its fields are updated in place, and its loops carry their invariants. Each method is proved to perform one step of the value-level state machine in `FillerSpec`. The properties are lemmas about that state machine:
- late and unnamed samples never reach a segment
- lists are sorted and aligned with their ids
- the processed-parameter count is exact
- "needs flush" holds exactly when some segment overflows
- a flush writes every group and clears the map
- the window never moves back
- an abort is final
- an invariant that holds initially and that updateItems, processParameters and flush keep; setCollectionSegmentStart keeps it when no segment is live

**Commander** is the text console of the SCPI daemon, and works as follows:
- It registers four commands: `device list`, `device inspect`, `device connect` and `help`.
- With no connected-device context, it runs the first command whose name is a prefix of the input.
- Once a device is connected, every input goes to the device context until Ctrl-D (`"\4"`) clears it.
- It answers a bare line end with the prompt and unknown input with "command not found". Ctrl-D outside a context throws `ExitException("bye")`.

`CommanderSpec` models this as functions over a `ShellState`: the optional context plus the registered commands, seen as values. The classes `Scpi.Command` and `Scpi.Commander` keep the mutable prompt and context fields, and their methods are proved to follow those functions. `CommanderProperties` proves the following:
- dispatch, with first-prefix wins and the context taking over
- the line-end, Ctrl-D and unknown-input rules
- the argument rewriting
- the connect/disconnect round trip
- that only `device connect` ever changes a registered prompt
- the line structure of the listings

## Model

| member | source | states |
|---|---|---|
| Registries.Assign | yamcs-core/src/main/java/org/yamcs/parameterarchive/ArchiveFillerTask.java:196 | createAndGet records a key on first sight with the next fresh id: keeps every old entry, leaves a known key's table unchanged, keeps ids unique, and gives a new key an id above every issued one |
| Registries.AssignIdempotent | yamcs-core/src/main/java/org/yamcs/parameterarchive/ArchiveFillerTask.java:196 | asking twice for the same key changes nothing the second time |
| Registries.FirstSeenOrder | yamcs-core/src/main/java/org/yamcs/parameterarchive/ArchiveFillerTask.java:196 | two new keys registered one after the other get increasing ids |
| Registries.ParameterIdDb.CreateAndGet | yamcs-core/src/main/java/org/yamcs/parameterarchive/ArchiveFillerTask.java:196 | the table becomes Assign of the old table and the key; the returned id is the key's entry |
| Registries.ParameterGroupIdDb.CreateAndGet | yamcs-core/src/main/java/org/yamcs/parameterarchive/ArchiveFillerTask.java:115-129 | a known key, or any key on a working store, is assigned and its id returned; a new key on a failing store changes nothing and returns no id (the RocksDBException path) |
| Archive.NewSegment | yamcs-core/src/main/java/org/yamcs/parameterarchive/ArchiveFillerTask.java:119 | a new segment carries the group id, the current window start and the sorted id array, and has no rows |
| Archive.AddRecord | yamcs-core/src/main/java/org/yamcs/parameterarchive/ArchiveFillerTask.java:123 | addRecord appends exactly one row (time, values) and leaves the rest of the segment alone |
| Archive.Consolidate | yamcs-core/src/main/java/org/yamcs/parameterarchive/ArchiveFillerTask.java:148 | consolidate seals the segment and changes nothing else |
| Archive.ParameterArchive.WriteToArchive | yamcs-core/src/main/java/org/yamcs/parameterarchive/ArchiveFillerTask.java:150-154 | one write of (segment start, segments) is recorded whether or not the store accepts it; the outcome is the store's health |
| ParameterLists.InsertPos | yamcs-core/src/main/java/org/yamcs/parameterarchive/ArchiveFillerTask.java:198 | SortedIntArray.insert's position lies inside the array |
| ParameterLists.InsertPosBounds | yamcs-core/src/main/java/org/yamcs/parameterarchive/ArchiveFillerTask.java:198 | every id before the insertion position is smaller than the new id, and the id at it is not |
| ParameterLists.InsertAt | yamcs-core/src/main/java/org/yamcs/parameterarchive/ArchiveFillerTask.java:199 | List.add(pos, x) grows the list by one |
| ParameterLists.InsertAtFacts | yamcs-core/src/main/java/org/yamcs/parameterarchive/ArchiveFillerTask.java:199 | after add(pos, x), x sits at pos, the other elements keep their order around it, and the multiset gains exactly x |
| ParameterLists.InsertKeepsSorted | yamcs-core/src/main/java/org/yamcs/parameterarchive/ArchiveFillerTask.java:198 | inserting at the computed position keeps a sorted id array sorted |
| ParameterLists.Collect | yamcs-core/src/main/java/org/yamcs/parameterarchive/ArchiveFillerTask.java:186-200 | the list built by successive adds holds as many ids as samples |
| ParameterLists.CollectSpec | yamcs-core/src/main/java/org/yamcs/parameterarchive/ArchiveFillerTask.java:186-200 | the built list's ids are ascending, its samples are exactly the added ones (as a multiset), its ids are the samples' ids, and the id at each position is the id of the sample at that position |
| ParameterLists.CollectStable | yamcs-core/src/main/java/org/yamcs/parameterarchive/ArchiveFillerTask.java:196 | ids issued later do not change a list built earlier |
| ParameterLists.SortedUnique | yamcs-core/src/main/java/org/yamcs/parameterarchive/ArchiveFillerTask.java:115 | two sorted id arrays with the same multiset of ids are equal |
| ParameterLists.SameParametersSameKey | yamcs-core/src/main/java/org/yamcs/parameterarchive/ArchiveFillerTask.java:115 | two timestamps carrying the same parameters, in any arrival order, have the same group key |
| ParameterLists.SortedParameterList.Add | yamcs-core/src/main/java/org/yamcs/parameterarchive/ArchiveFillerTask.java:186-200 | a sample without an engineering value changes nothing; otherwise its id is created or looked up and inserted at its sorted position, with the sample at the same position |
| ParameterLists.SortedParameterList.Size | yamcs-core/src/main/java/org/yamcs/parameterarchive/ArchiveFillerTask.java:202-204 | size() is the number of samples held |
| FillerSpec.Times | yamcs-core/src/main/java/org/yamcs/parameterarchive/ArchiveFillerTask.java:87-91 | the timestamps that get a list are distinct and none lies below the window start |
| FillerSpec.SelectedAt | yamcs-core/src/main/java/org/yamcs/parameterarchive/ArchiveFillerTask.java:74-93 | a sample in the list of timestamp t comes from the batch, passed every check, has an engineering value and has generation time t |
| FillerSpec.RegisterAll | yamcs-core/src/main/java/org/yamcs/parameterarchive/ArchiveFillerTask.java:196 | the first loop only adds ids, keeps the id table valid, and gives every listed sample an id |
| FillerSpec.GroupStep | yamcs-core/src/main/java/org/yamcs/parameterarchive/ArchiveFillerTask.java:74-93 | one iteration of the first loop keeps the map's key order and its list shapes consistent |
| FillerSpec.Group | yamcs-core/src/main/java/org/yamcs/parameterarchive/ArchiveFillerTask.java:73-93 | the first loop over a whole batch leaves a consistent grouping |
| FillerSpec.ApplyRows | yamcs-core/src/main/java/org/yamcs/parameterarchive/ArchiveFillerTask.java:96-105 | the second loop changes only the segments, the count and the group table; it throws only when the map was discarded, and only when it was not can it report a needed flush |
| FillerSpec.MaxTime | yamcs-core/src/main/java/org/yamcs/parameterarchive/ArchiveFillerTask.java:95-104 | maxTimestamp is at least the old window start and at least every visited timestamp |
| FillerSpec.MaxTimeAttained | yamcs-core/src/main/java/org/yamcs/parameterarchive/ArchiveFillerTask.java:95-104 | maxTimestamp is the old window start or one of the visited timestamps, so with MaxTime's bounds it is exactly their largest |
| FillerSpec.Sealed | yamcs-core/src/main/java/org/yamcs/parameterarchive/ArchiveFillerTask.java:147-149 | every live segment, and only those, is consolidated |
| FillerSpec.RowStep | yamcs-core/src/main/java/org/yamcs/parameterarchive/ArchiveFillerTask.java:112-130 | numParams grows by the list size whatever happens; only the segments, count and group table change, and the group table only grows; the step throws exactly when the map is discarded and the group resolves; with a live map and a resolved group, Row(t, pvs) is appended to the segment of that group, which is created with the window start and the list's id array when absent, every other segment is unchanged, and a flush is reported exactly when that segment now holds more than maxSegmentSize rows; when the group store rejects a new group the segments are left as they were, nothing throws and no flush is reported |
| FillerSpec.ConsolidateAndWrite | yamcs-core/src/main/java/org/yamcs/parameterarchive/ArchiveFillerTask.java:143-156 | one write is appended for the given start, holding every live group, each consolidated with its rows as they were, and the map is cleared; nothing else changes |
| FillerSpec.FlushSpec | yamcs-core/src/main/java/org/yamcs/parameterarchive/ArchiveFillerTask.java:132-136 | with the map discarded nothing changes; otherwise one write is added and the map is cleared; window, abort flag and count stay |
| FillerSpec.AbortSpec | yamcs-core/src/main/java/org/yamcs/parameterarchive/ArchiveFillerTask.java:207-218 | the task is aborted, the map is discarded and a stop is requested; window, writes and count stay |
| FillerSpec.ProcessParametersSpec | yamcs-core/src/main/java/org/yamcs/parameterarchive/ArchiveFillerTask.java:72-110 | processParameters never lowers the window; the window moves only together with exactly one write and a cleared map; it throws only on a discarded map and never changes the abort state |
| FillerSpec.ProcessGrouped | yamcs-core/src/main/java/org/yamcs/parameterarchive/ArchiveFillerTask.java:94-109 | the second loop and flush never lower the window; a moved window comes with exactly one write and a cleared map, an unmoved one with no write; it throws only on a discarded map |
| FillerSpec.UpdateItemsSpec | yamcs-core/src/main/java/org/yamcs/parameterarchive/ArchiveFillerTask.java:159-175 | imminent memory exhaustion aborts, drops the map and requests a stop; otherwise the abort state is kept; items.get(0) throws exactly on an empty batch with memory available; a NullPointerException needs a discarded map; the window never moves back |
| FillerProperties.TimesMembers | yamcs-core/src/main/java/org/yamcs/parameterarchive/ArchiveFillerTask.java:74-91 | a timestamp gets a list exactly when some sample of the batch with that time passes the checks |
| FillerProperties.SelectedOutsideTimes | yamcs-core/src/main/java/org/yamcs/parameterarchive/ArchiveFillerTask.java:74-93 | no sample is selected for a timestamp without a list |
| FillerProperties.UnlistedSampleInNoList | yamcs-core/src/main/java/org/yamcs/parameterarchive/ArchiveFillerTask.java:75-86 | a late, unnamed, aggregate or engineering-value-less sample is in no per-timestamp list |
| FillerProperties.ListContents | yamcs-core/src/main/java/org/yamcs/parameterarchive/ArchiveFillerTask.java:73-93 | each list is sorted, holds exactly the batch's admitted samples with engineering values at its timestamp, and pairs each position's id with that position's sample |
| FillerProperties.SelectedHas | yamcs-core/src/main/java/org/yamcs/parameterarchive/ArchiveFillerTask.java:74-93 | every listed sample lands in the list of its own timestamp |
| FillerProperties.GroupIsListing | yamcs-core/src/main/java/org/yamcs/parameterarchive/ArchiveFillerTask.java:73-93 | the step-by-step first loop builds exactly the declarative grouping (id table, timestamps, lists) |
| FillerProperties.ProcessByGroup | yamcs-core/src/main/java/org/yamcs/parameterarchive/ArchiveFillerTask.java:72-110 | processParameters equals the second loop and flush applied to the first loop's result |
| FillerProperties.ApplyRowsAfterCrash | yamcs-core/src/main/java/org/yamcs/parameterarchive/ArchiveFillerTask.java:96-105 | once a row throws, the rest of the loop does not run |
| FillerProperties.ApplyRowsCount | yamcs-core/src/main/java/org/yamcs/parameterarchive/ArchiveFillerTask.java:113 | the second loop raises numParams by the sum of the list sizes |
| FillerProperties.ApplyRowsAppends | yamcs-core/src/main/java/org/yamcs/parameterarchive/ArchiveFillerTask.java:96-105 | with a live map and a working group store the second loop never throws, every visited list's group is registered, the live groups become the old ones plus the groups of the visited lists, and each segment's rows become its old rows followed by Row(t, pvs) of every visited list of that group, in visiting order, and nothing else |
| FillerProperties.RowsAppendedSnoc | yamcs-core/src/main/java/org/yamcs/parameterarchive/ArchiveFillerTask.java:117-124 | one more row step, appending Row(t, pvs) to its group's segment, extends that description of the loop by the visited list |
| FillerProperties.SumSelectedOverTimes | yamcs-core/src/main/java/org/yamcs/parameterarchive/ArchiveFillerTask.java:202-204 | the list sizes over all timestamps add up to the number of listed samples |
| FillerProperties.ProcessedCount | yamcs-core/src/main/java/org/yamcs/parameterarchive/ArchiveFillerTask.java:113 | a processParameters call that completes raises numParams by exactly the number of admitted samples with engineering values |
| FillerInvariant.ListsReady | yamcs-core/src/main/java/org/yamcs/parameterarchive/ArchiveFillerTask.java:73-93 | every list of the first loop is sorted, in the window, and keyed by issued parameter ids |
| FillerInvariant.RowStepKeepsLive | yamcs-core/src/main/java/org/yamcs/parameterarchive/ArchiveFillerTask.java:112-130 | appending a row keeps every live segment filed under its group id, with the group's id array and rows inside the window |
| FillerInvariant.ApplyRowsKeepsLive | yamcs-core/src/main/java/org/yamcs/parameterarchive/ArchiveFillerTask.java:96-105 | the whole second loop keeps live segments well formed |
| FillerInvariant.RowStepGrowth | yamcs-core/src/main/java/org/yamcs/parameterarchive/ArchiveFillerTask.java:117-124 | a row step on a live map keeps every segment and never shrinks one; from bounded segments it reports a flush exactly when a segment now exceeds maxSegmentSize |
| FillerInvariant.NeedsFlushIffOverflow | yamcs-core/src/main/java/org/yamcs/parameterarchive/ArchiveFillerTask.java:94-105 | on a live map, needsFlush after the second loop holds exactly when some segment exceeds maxSegmentSize |
| FillerInvariant.InitialConsistent | yamcs-core/src/main/java/org/yamcs/parameterarchive/ArchiveFillerTask.java:34-57 | the initial state satisfies the invariant, over any valid registries and any earlier writes that are themselves well formed |
| FillerInvariant.WriteLiveOk | yamcs-core/src/main/java/org/yamcs/parameterarchive/ArchiveFillerTask.java:143-156 | a write of the live map holds only consolidated segments of the written window |
| FillerInvariant.ProcessParametersKeepsConsistent | yamcs-core/src/main/java/org/yamcs/parameterarchive/ArchiveFillerTask.java:72-110 | processParameters keeps the invariant |
| FillerInvariant.UpdateItemsKeepsConsistent | yamcs-core/src/main/java/org/yamcs/parameterarchive/ArchiveFillerTask.java:159-175 | updateItems keeps the invariant |
| FillerInvariant.SetStartKeepsConsistent | yamcs-core/src/main/java/org/yamcs/parameterarchive/ArchiveFillerTask.java:59-61 | moving the window start keeps the invariant when no segment is live |
| FillerInvariant.FlushKeepsConsistent | yamcs-core/src/main/java/org/yamcs/parameterarchive/ArchiveFillerTask.java:132-136 | flush keeps the invariant |
| FillerInvariant.ProcessParametersByPass | yamcs-core/src/main/java/org/yamcs/parameterarchive/ArchiveFillerTask.java:94-109 | proof step: unfolds processParameters into its three outcomes (a row threw; a flush was needed, so write and set the window to MaxTime + 1; neither, so keep the loop's state), which the lemmas below build on |
| FillerInvariant.PassBounds | yamcs-core/src/main/java/org/yamcs/parameterarchive/ArchiveFillerTask.java:94-105 | from bounded live segments the loop does not throw, keeps window and writes, keeps every group and needs a flush exactly on overflow |
| FillerInvariant.NoOverflowNoWrite | yamcs-core/src/main/java/org/yamcs/parameterarchive/ArchiveFillerTask.java:94-110 | without a needed flush nothing is written, the window stays, and the segments stay within maxSegmentSize |
| FillerInvariant.OverflowFlushesEveryGroup | yamcs-core/src/main/java/org/yamcs/parameterarchive/ArchiveFillerTask.java:94-109 | on overflow exactly one write happens, for the old window start, of every group (all consolidated, one over the limit); the map is cleared and the new window is exactly one past the largest of the old start and the batch's admitted timestamps |
| FillerInvariant.FlushedWrite | yamcs-core/src/main/java/org/yamcs/parameterarchive/ArchiveFillerTask.java:143-156 | consolidateAndWriteToArchive appends one write of all live segments, consolidated, covering every group that was live before the batch |
| FillerInvariant.BatchBelowNewStart | yamcs-core/src/main/java/org/yamcs/parameterarchive/ArchiveFillerTask.java:95-108 | every admitted sample lies below maxTimestamp + 1, and maxTimestamp is the old start or an admitted sample's timestamp |
| FillerInvariant.WindowNeverMovesBack | yamcs-core/src/main/java/org/yamcs/parameterarchive/ArchiveFillerTask.java:159-175 | updateItems never lowers collectionSegmentStart |
| FillerInvariant.WindowAdvanceWritesFirst | yamcs-core/src/main/java/org/yamcs/parameterarchive/ArchiveFillerTask.java:164-174 | when the aligned start moves forward, a non-empty live map is written for the old start first, then the batch is processed from the new start, which is never lowered again |
| FillerInvariant.AbortIsFinal | yamcs-core/src/main/java/org/yamcs/parameterarchive/ArchiveFillerTask.java:207-218 | after an abort, updateItems keeps the task aborted with no map, no window change and no write, and flush does nothing |
| FillerInvariant.AbortDropsLiveSegments | yamcs-core/src/main/java/org/yamcs/parameterarchive/ArchiveFillerTask.java:159-162 | with memory exhaustion imminent, updateItems sets aborted, drops the map, requests the processor stop and changes nothing else |
| FillerTask.ArchiveFillerTask.constructor | yamcs-core/src/main/java/org/yamcs/parameterarchive/ArchiveFillerTask.java:50-57 | the task starts with window 0, an empty live map, no count and no abort, sharing the archive's registries; when those registries are valid and the archive's earlier writes well formed (as for a new archive), the new task satisfies the invariant that updateItems, processParameters and flush preserve |
| FillerTask.ArchiveFillerTask.SetCollectionSegmentStart | yamcs-core/src/main/java/org/yamcs/parameterarchive/ArchiveFillerTask.java:59-61 | only the window start changes; the invariant is kept when no segment is live |
| FillerTask.ArchiveFillerTask.ProcessRow | yamcs-core/src/main/java/org/yamcs/parameterarchive/ArchiveFillerTask.java:112-130 | processParameters(t, pvList) leaves exactly the state of RowStep: numParams grows by the list size; with a live map and a resolved group, Row(t, pvs) is appended to that group's segment, created lazily with the window start and the list's ids, other segments unchanged, and it returns true exactly when that segment now exceeds maxSegmentSize; a discarded map with a resolved group gives a NullPointerException; a rejected new group drops the row |
| FillerTask.ArchiveFillerTask.SortSample | yamcs-core/src/main/java/org/yamcs/parameterarchive/ArchiveFillerTask.java:74-93 | one iteration of the first loop updates the map of distinct SortedParameterList objects exactly as GroupStep says |
| FillerTask.ArchiveFillerTask.GroupByTime | yamcs-core/src/main/java/org/yamcs/parameterarchive/ArchiveFillerTask.java:73-93 | the first loop builds objects whose contents are Group of the batch |
| FillerTask.ArchiveFillerTask.ProcessRows | yamcs-core/src/main/java/org/yamcs/parameterarchive/ArchiveFillerTask.java:94-105 | the second loop performs ApplyRows and returns maxTimestamp |
| FillerTask.ArchiveFillerTask.ProcessParameters | yamcs-core/src/main/java/org/yamcs/parameterarchive/ArchiveFillerTask.java:72-110 | the new state and completion are those of ProcessParametersSpec |
| FillerTask.ArchiveFillerTask.ProcessGroupedRows | yamcs-core/src/main/java/org/yamcs/parameterarchive/ArchiveFillerTask.java:94-109 | the second loop and the flush after it perform exactly ProcessGrouped on the lists the first loop built |
| FillerTask.ArchiveFillerTask.CloseWindowIf | yamcs-core/src/main/java/org/yamcs/parameterarchive/ArchiveFillerTask.java:106-109 | on overflow the live segments are written for the old start and the window moves to maxTimestamp + 1; otherwise nothing changes |
| FillerTask.ArchiveFillerTask.Flush | yamcs-core/src/main/java/org/yamcs/parameterarchive/ArchiveFillerTask.java:132-136 | a live map is written and cleared; a discarded one is left alone |
| FillerTask.ArchiveFillerTask.ConsolidateAndWriteToArchive | yamcs-core/src/main/java/org/yamcs/parameterarchive/ArchiveFillerTask.java:143-156 | every live segment is consolidated and written for segStart, and the map is cleared even when the write fails |
| FillerTask.ArchiveFillerTask.UpdateItems | yamcs-core/src/main/java/org/yamcs/parameterarchive/ArchiveFillerTask.java:159-175 | the new state and completion are those of UpdateItemsSpec; the window never moves back; the invariant is kept |
| FillerTask.ArchiveFillerTask.GetNumProcessedParameters | yamcs-core/src/main/java/org/yamcs/parameterarchive/ArchiveFillerTask.java:177-179 | returns the processed-parameter count of the state |
| FillerTask.ArchiveFillerTask.OomImminent | yamcs-core/src/main/java/org/yamcs/parameterarchive/ArchiveFillerTask.java:207-219 | with the threshold exceeded the task aborts (flag set, map dropped, stop requested) and answers true; otherwise nothing changes and it answers false |
| FillerTask.ArchiveFillerTask.IsAborted | yamcs-core/src/main/java/org/yamcs/parameterarchive/ArchiveFillerTask.java:239-241 | returns the abort flag of the state |
| ScpiStrings.FindFrom | src/main/java/com/spaceapplications/yamcs/scpi/Commander.java:54 | the first occurrence of the pattern at or after an index, and none before it; no result means no occurrence from there on |
| ScpiStrings.FindFirst | src/main/java/com/spaceapplications/yamcs/scpi/Commander.java:54 | the first occurrence of the pattern; no result exactly when it does not occur |
| ScpiStrings.ReplaceFirstAtStart | src/main/java/com/spaceapplications/yamcs/scpi/Commander.java:54 | replacing a prefix of the text removes exactly that prefix |
| ScpiStrings.ReplaceFirstAbsent | src/main/java/com/spaceapplications/yamcs/scpi/Commander.java:54 | without an occurrence, replaceFirst leaves the text alone |
| ScpiStrings.RemoveAll | src/main/java/com/spaceapplications/yamcs/scpi/Commander.java:55-56 | replaceAll of one character keeps exactly the other characters, each as often as in the input, and never lengthens the text; with RemoveAllAppend and RemoveAllChar this fixes the result, order included |
| ScpiStrings.RemoveAllAbsent | src/main/java/com/spaceapplications/yamcs/scpi/Commander.java:55-56 | removing an absent character changes nothing |
| ScpiStrings.Strip | src/main/java/com/spaceapplications/yamcs/scpi/Commander.java:55-56 | the result has no carriage return or line feed and keeps every other character as often as in the input; with StripAppend and StripChar this fixes the result, order included |
| ScpiStrings.StripClean | src/main/java/com/spaceapplications/yamcs/scpi/Commander.java:55-56 | a text without line breaks is unchanged |
| ScpiStrings.StripIdempotent | src/main/java/com/spaceapplications/yamcs/scpi/Commander.java:55-56 | stripping twice is stripping once |
| ScpiStrings.RemoveAllAppend | src/main/java/com/spaceapplications/yamcs/scpi/Commander.java:55-56 | removing a character from a concatenation is removing it from each part and concatenating, so the kept characters stay in order |
| ScpiStrings.RemoveAllChar | src/main/java/com/spaceapplications/yamcs/scpi/Commander.java:55-56 | on one character, replaceAll drops it exactly when it is the removed character |
| ScpiStrings.StripAppend | src/main/java/com/spaceapplications/yamcs/scpi/Commander.java:55-56 | stripping a concatenation is stripping each part, so the kept characters stay in order |
| ScpiStrings.StripChar | src/main/java/com/spaceapplications/yamcs/scpi/Commander.java:55-56 | on one character, stripping drops it exactly when it is a carriage return or a line feed |
| ScpiStrings.LinesOfJoin | src/main/java/com/spaceapplications/yamcs/scpi/Commander.java:66 | splitting at line feeds undoes joining one-line pieces with "\n" |
| ScpiStrings.LinesUnderHeader | src/main/java/com/spaceapplications/yamcs/scpi/Commander.java:93-94 | a one-line header over joined rows reads back as the header and the rows |
| ScpiStrings.LinesOfRows | src/main/java/com/spaceapplications/yamcs/scpi/Commander.java:64-66 | joined one-line rows read back as the rows, or one empty line when there are none |
| ScpiStrings.LinesOfTable | src/main/java/com/spaceapplications/yamcs/scpi/Commander.java:63-67 | a title, a column header and joined rows read back line by line |
| ScpiStrings.Spaces | src/main/java/com/spaceapplications/yamcs/scpi/Commander.java:11 | n padding characters, all spaces |
| ScpiStrings.ColumnLayout | src/main/java/com/spaceapplications/yamcs/scpi/Commander.java:11 | "%-20s %s" is the first text, spaces up to width 20, one space, the second text |
| ScpiStrings.ColumnOneLine | src/main/java/com/spaceapplications/yamcs/scpi/Commander.java:11 | a column of two one-line texts is one line |
| CommanderSpec.Confirm | src/main/java/com/spaceapplications/yamcs/scpi/Commander.java:98-100 | the greeting ends with the default prompt |
| CommanderSpec.HandleUnknownCmd | src/main/java/com/spaceapplications/yamcs/scpi/Commander.java:111-118 | exit with "bye" exactly on Ctrl-D; the default prompt on a line end; otherwise "cmd: command not found" and the prompt |
| CommanderSpec.Lookup | src/main/java/com/spaceapplications/yamcs/scpi/Commander.java:71 | a device found has the asked id; none exactly when no device has it |
| CommanderSpec.FirstMatch | src/main/java/com/spaceapplications/yamcs/scpi/Commander.java:107 | the first command, in registration order, whose name is a prefix of the input; none exactly when no name is |
| CommanderSpec.IsLineEnd | src/main/java/com/spaceapplications/yamcs/scpi/Commander.java:124-126 | a line end ("\n" or "\r\n") is at most two characters and leaves empty arguments once stripped |
| CommanderSpec.IsCtrlD | src/main/java/com/spaceapplications/yamcs/scpi/Commander.java:128-130 | Ctrl-D is not a line end and survives the argument rewrite unchanged |
| CommanderSpec.Args | src/main/java/com/spaceapplications/yamcs/scpi/Commander.java:53-56 | the argument text a handler receives never holds a line break |
| CommanderSpec.ListText | src/main/java/com/spaceapplications/yamcs/scpi/Commander.java:62-68 | the device listing starts with its title line and the ID/DESCRIPTION column header |
| CommanderSpec.InspectText | src/main/java/com/spaceapplications/yamcs/scpi/Commander.java:70-73 | with no configuration or no device of that id the text is `device "X" not found`; otherwise it is that device's dump or the not-found text |
| CommanderSpec.HelpText | src/main/java/com/spaceapplications/yamcs/scpi/Commander.java:92-95 | the help text starts with its title line, and is only that line when nothing is registered |
| CommanderSpec.Run | src/main/java/com/spaceapplications/yamcs/scpi/Commander.java:62-95 | a handler never exits the console; only connect changes its command's prompt; the context changes only by connect installing the session for the arguments or by a session ending itself |
| CommanderSpec.CommandExecute | src/main/java/com/spaceapplications/yamcs/scpi/Commander.java:53-58 | running a command never exits; only connect changes the prompt, and it installs the session for the rewritten arguments; otherwise only a session can clear the context |
| CommanderSpec.Exec | src/main/java/com/spaceapplications/yamcs/scpi/Commander.java:120-122 | exec never exits; every text reply ends with the prompt of the command afterwards; a line end changes neither prompt nor context |
| CommanderSpec.ExecMatching | src/main/java/com/spaceapplications/yamcs/scpi/Commander.java:106-109 | the registry keeps its size, names, descriptions and handlers; only the first matching command's prompt can change; with no match nothing changes; an exit is "bye" on Ctrl-D only |
| CommanderSpec.Execute | src/main/java/com/spaceapplications/yamcs/scpi/Commander.java:102-104 | the registry keeps its size, names, descriptions and handlers; in a session no registered command changes; the console exits only on Ctrl-D outside a session |
| CommanderProperties.RegisteredNamesLong | src/main/java/com/spaceapplications/yamcs/scpi/Commander.java:62-95 | every registered name has at least four characters |
| CommanderProperties.ShortInputMatchesNothing | src/main/java/com/spaceapplications/yamcs/scpi/Commander.java:106-108 | input shorter than four characters matches no command |
| CommanderProperties.MatchedInputIsNotCtrlD | src/main/java/com/spaceapplications/yamcs/scpi/Commander.java:106-113 | the eagerly evaluated fallback never throws when a command matched |
| CommanderProperties.ContextTakesOver | src/main/java/com/spaceapplications/yamcs/scpi/Commander.java:102-104 | with a context, execute keeps the registered commands and its reply and new context do not depend on them |
| CommanderProperties.FirstPrefixRuns | src/main/java/com/spaceapplications/yamcs/scpi/Commander.java:106-108 | with no context, the first prefix-matching command runs and only its prompt and the context change |
| CommanderProperties.NoPrefixIsUnknown | src/main/java/com/spaceapplications/yamcs/scpi/Commander.java:106-108 | without a matching name the reply is handleUnknownCmd's and the state is unchanged |
| CommanderProperties.LineEndReprompts | src/main/java/com/spaceapplications/yamcs/scpi/Commander.java:120-126 | a bare line end changes nothing and answers the context's prompt, or "$ " without one |
| CommanderProperties.CtrlDOutsideSessionExits | src/main/java/com/spaceapplications/yamcs/scpi/Commander.java:111-113 | Ctrl-D with no context throws ExitException("bye") and changes nothing |
| CommanderProperties.UnknownInput | src/main/java/com/spaceapplications/yamcs/scpi/Commander.java:116-117 | other unmatched input answers "cmd: command not found" and the prompt |
| CommanderProperties.ArgsAfterName | src/main/java/com/spaceapplications/yamcs/scpi/Commander.java:53-57 | a handler receives the text after its name and a space, with line breaks removed |
| CommanderProperties.SessionArgsDropFirstSpace | src/main/java/com/spaceapplications/yamcs/scpi/Commander.java:53-57 | the context command has an empty name, so its rewrite drops the first space of the input |
| CommanderProperties.SessionArgsNoSpace | src/main/java/com/spaceapplications/yamcs/scpi/Commander.java:53-57 | input without a space reaches the context handler with only line breaks removed |
| CommanderProperties.ConnectIsMatched | src/main/java/com/spaceapplications/yamcs/scpi/Commander.java:106-108 | "device connect X" is claimed by the connect command |
| CommanderProperties.ConnectOpensSession | src/main/java/com/spaceapplications/yamcs/scpi/Commander.java:75-90 | "device connect X", sent with or without its line terminator, installs the session context for X with its line breaks removed, sets "device:X$ " on the connect command, and answers "connect to: X" followed by that prompt |
| CommanderProperties.ConnectExec | src/main/java/com/spaceapplications/yamcs/scpi/Commander.java:75-90 | the connect command run on "device connect X" outside a session sets the session prompt for the stripped X, installs its context and answers "connect to: X" with that prompt |
| CommanderProperties.SessionCtrlDDisconnects | src/main/java/com/spaceapplications/yamcs/scpi/Commander.java:81-84 | Ctrl-D in a session clears the context and answers "disconnect from X" followed by the session prompt |
| CommanderProperties.SessionEchoes | src/main/java/com/spaceapplications/yamcs/scpi/Commander.java:85 | any other input in a session answers X(args) followed by the session prompt and changes nothing |
| CommanderProperties.ConnectThenCtrlD | src/main/java/com/spaceapplications/yamcs/scpi/Commander.java:75-90 | connecting to X, line terminator included or not, and then sending Ctrl-D returns to no context, answering "disconnect from X" with the stripped X, while the connect command keeps the session prompt |
| CommanderProperties.OnlyConnectChangesPrompt | src/main/java/com/spaceapplications/yamcs/scpi/Commander.java:62-95 | only the connect handler changes a prompt or installs a context; a session only keeps or clears its context |
| CommanderProperties.MatchedKeepsWellFormed | src/main/java/com/spaceapplications/yamcs/scpi/Commander.java:106-108 | running a matched command keeps the state well formed |
| CommanderProperties.ExecutePreservesWellFormed | src/main/java/com/spaceapplications/yamcs/scpi/Commander.java:102-104 | every input keeps the registry's names, descriptions and handlers, defaults prompts except connect's, and leaves any context a device session |
| CommanderProperties.InitialWellFormed | src/main/java/com/spaceapplications/yamcs/scpi/Commander.java:61-96 | the registered state is well formed |
| CommanderProperties.FixedTextsOneLine | src/main/java/com/spaceapplications/yamcs/scpi/Commander.java:63 | the fixed headers, greeting and prompt are single lines |
| CommanderProperties.CommandRowsOneLine | src/main/java/com/spaceapplications/yamcs/scpi/Commander.java:93 | each help row of one-line names and descriptions is one line |
| CommanderProperties.HelpLines | src/main/java/com/spaceapplications/yamcs/scpi/Commander.java:92-95 | help prints its header and then one row per registered command, in order |
| CommanderProperties.HelpListsRegistry | src/main/java/com/spaceapplications/yamcs/scpi/Commander.java:92-95 | help's text is the same in every reachable state |
| CommanderProperties.DeviceRowsOneLine | src/main/java/com/spaceapplications/yamcs/scpi/Commander.java:65 | each device row of a one-line id and description is one line |
| CommanderProperties.ListLines | src/main/java/com/spaceapplications/yamcs/scpi/Commander.java:62-68 | device list prints its header, the column header, then one row per device (an empty line for none) |
| CommanderProperties.InspectFindsDevice | src/main/java/com/spaceapplications/yamcs/scpi/Commander.java:70-73 | inspecting a configured device prints its dump |
| CommanderProperties.InspectUnknownDevice | src/main/java/com/spaceapplications/yamcs/scpi/Commander.java:70-73 | an unknown id, or no device configuration at all, prints device "X" not found |
| CommanderProperties.ConfirmLines | src/main/java/com/spaceapplications/yamcs/scpi/Commander.java:98-100 | the greeting is two lines: the greeting text and the prompt |
| Scpi.Command.Of | src/main/java/com/spaceapplications/yamcs/scpi/Commander.java:29-35 | a new command has the given name, description and handler and the default prompt |
| Scpi.Command.SetPrompt | src/main/java/com/spaceapplications/yamcs/scpi/Commander.java:41-43 | the prompt becomes the given one |
| Scpi.Command.Connect | src/main/java/com/spaceapplications/yamcs/scpi/Commander.java:75-90 | the connect command and a fresh context command both get "device:X$ ", the context is set, and the reply is "connect to: X" |
| Scpi.Command.Execute | src/main/java/com/spaceapplications/yamcs/scpi/Commander.java:53-58 | the command's prompt, the context and the reply are CommandExecute's; a new context object is fresh |
| Scpi.Commander.Register | src/main/java/com/spaceapplications/yamcs/scpi/Commander.java:61-96 | four distinct fresh commands, in the registry's order |
| Scpi.Commander.constructor | src/main/java/com/spaceapplications/yamcs/scpi/Commander.java:61-96 | the new console is in the initial state: the four commands, default prompts, no context |
| Scpi.Commander.Exec | src/main/java/com/spaceapplications/yamcs/scpi/Commander.java:120-122 | the prompt, context and reply are those of the Exec function |
| Scpi.Commander.ExecMatching | src/main/java/com/spaceapplications/yamcs/scpi/Commander.java:106-109 | the new state and reply are those of the ExecMatching function |
| Scpi.Commander.Execute | src/main/java/com/spaceapplications/yamcs/scpi/Commander.java:102-104 | the new state and reply are those of the Execute function, and the console stays valid |

Behaviour of the code worth noting, modelled as written:
- `flush()` on a live but empty map still performs a write, with no segments.
- A timestamp whose admitted samples all lack an engineering value still gets an empty list. That list becomes an empty row in the group of the empty id array.
- `execMatching` evaluates `handleUnknownCmd(cmd)` even when a command matched, because it is an argument of `orElse`. `MatchedInputIsNotCtrlD` shows that this never throws.
- After a disconnect, the reply ends with the session prompt, and the connect command keeps that prompt.
- The context command has an empty name, so its argument rewrite removes the first space of the input.
- After an abort, `updateItems` with memory available changes nothing in three cases:
  - an empty batch: `items.get(0)` throws an IndexOutOfBoundsException
  - a first sample whose aligned start would move the window: `pgSegments.isEmpty()` throws a NullPointerException at once
  - a batch in which no sample passes the time, name and aggregate checks: no list is built and the call completes normally

  Otherwise it registers the batch's parameter ids and then works through the per-timestamp lists:
  - each list visited raises `numParams` by its size
  - a list whose group is new while the group store fails is skipped, leaving the map untouched
  - the first list whose group resolves has that group registered, then throws a NullPointerException on the discarded map
  If no list's group resolves, the call completes without an exception.

## Left out

- Logging, `log.warn`/`log.error`/`log.debug`, and the `System.out.println` in the context handler: output only.
- The JMX memory-pool lookup, the threshold setup and `System.gc()`: host-specific. The threshold check of `oomImminent` is the input `memoryExceeded`.
- `processor.stopAsync()` is recorded only as the `stopRequested` flag. A missing processor, which would throw, is not modelled.
- RocksDB persistence and `writeToArchive`: a write is recorded as (segment start, segments, success). A failing write is only logged in the source and is never retried.
- The internals of `PGSegment`, `SortedIntArray`, `ParameterIdDb`, `ParameterGroupIdDb` and `SortedTimeSegment`:
  - segments are values holding their rows
  - the id registries are append-only tables handing out the next id
  - `getMinSegmentStart` is an arbitrary function supplied at construction
- HashMap iteration order: the model visits per-timestamp lists in order of each timestamp's first appearance, and live segments as a map. The visiting order decides:
  - the numbering of fresh group ids
  - the order of rows within a segment, because addRecord appends
  - on the NullPointerException path after an abort, which lists' sizes reach `numParams` and which group is registered before the throw
  The model fixes one order. It does not prove that the sets of rows written are independent of it.
- `long` and `int` overflow of `numParams`, timestamps and ids: integers are unbounded.
- `ParameterLists.InsertPos`: SortedIntArray is not part of this model; placing a new id before any equal ids (the lower bound) is a modelling choice. Within one timestamp every sample with the same name and types has the same id, so equal ids occur only for repeated samples of one parameter.
- `FillerSpec.Env`: the health of the group-id store and of the archive (`groupStoreUp`, `archiveUp`) is one flag each for a whole `updateItems` call. The source catches a RocksDBException per `createAndGet` and per write, so the model cannot express one new group failing while the next one registers, or the window-advance write failing while an overflow write of the same call succeeds.
- `FillerSpec.Times`: does not model the order HashMap would visit timestamps in; the set of timestamps and the lists are order-independent.
- The `subscriptionId` argument of `updateItems` is unused, as in the source.
- In Commander, `replaceFirst` and `replaceAll` are taken literally, not as regular expressions. The patterns the code builds from the registered names, and the carriage-return and line-feed patterns, hold no metacharacters. The empty-name context command's pattern is a single space.
- `Config` is a sequence of device entries. Each entry holds its id, its description and the text `Config::dump` returns for it. That text is not computed.
- The `ExitException` and the `NullPointerException` of `device list` without a device configuration are reply values, not thrown exceptions.
- `Command.cmd()`, `description()` and `prompt()` are reads of the fields.
- `ScpiStrings.Column`: pads to width 20 by counting Unicode scalar values, not the UTF-16 code units Java's `%-20s` counts, so an id or name with characters outside the Basic Multilingual Plane is padded differently.
- `CommanderProperties.ListLines`: states the line structure only for ids and descriptions without line feeds.
- `CommanderProperties.HelpLines`: states the line structure only for names and descriptions without line feeds.
