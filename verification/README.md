# Verified models of the MTT file manager's core algorithms

The repository is a desktop file manager. This project models seven of its cores in Dafny and proves
what they promise. To check it, run `dafny verify dfyconfig.toml`.

**The disk tree** (`FrnIndex`, `ParentLinks`, `ChildSlices`, `VolumeBuilder`, `Aggregation`, `DepthWalk`,
`BuiltVolume`, `VolumeTotals`, `RecordLaws`, `SnapshotLaws`, `Paths`). The analyzer turns an arbitrary list of
volume records into a flat tree and aggregates it with explicit stacks and saturating counters. The records
may contain duplicate reference numbers, orphans, self-parents, files recorded as parents and cycles. No walk
keeps a visited set. `Forest` and `Walks` hold the argument why every walk ends: each node has at most one
parent slot and the root none, so below a node whose parents lead to the root the links unroll to a finite
tree without repetition. The builder, the filtered roll-ups, the breadth-first search and the displayed paths
all rest on the predicate `IsTree` that the builder establishes.

**Queries** (`SizeFilter`, `FilteredWeights`, `FilterLaws`, `CategoryLaws`, `SubtreeSearch`, `RollUpAnswers`).
Filtered weights and searches below any node of the tree, with cancellation.

**Document search** (`Kmp`, `DocxText`, `DocxSearch`, `DocxLaws`, `DocxPages`, `SearchRequests`,
`SearchWorker`). A streaming Knuth-Morris-Pratt search over the text of laid-out pages, and the worker that
restarts it for newer requests.

**The analyzer's jobs** (`AnalyzerProtocol`, `AnalyzerInvariant`, `AnalyzerRuns`, `AnalyzerTheorems`,
`AnalyzerHistory`, `AnalyzerDebounce`, `AnalyzerProgress`, `AnalyzerQueries`, `AnalyzerState`). The window as a
state machine over user edits, frames, fetched models, FIFO channels and a worker with shared cells: what it
can ever show, which events that goes back to, that it settles, and that its queries end. The class of the
window's fields has methods that are its events and keep the invariant.

**Grouping** (`Calendar`, `Grouping`, `VisualLayout`, `VisibleItemsLaws`). Day numbers, date groups, stable
sections, padded layouts and keyboard movement.

**Request queues** (`FolderTimestamps`, `FolderUrgency`, `LiveFileSizes`) and **batch renaming**
(`BatchRename`, `RenamePreview`).

## How the source is modelled

- Code that updates vectors and fields in place is methods over arrays and classes with the same loops and
  branches; a loop body that is long in the source is a method of its own here. Pure code is functions.
- Machine integers that can saturate are clamped explicitly (`Saturating`). Node, slot and id counters are
  unbounded: snapshots have fewer than 2^32 - 1 records, and ids do not wrap.
- A shared cancel cell may answer anything at each look (`Cancellation`); a request channel has a fixed
  script of which an unknown part has arrived at each look (`SearchRequests`). A run of the worker is
  therefore any run with finitely many requests.
- Functions the models do not look into are parameters: the file category of a name, lower case and trimming,
  the largest-items query and its row order, path normalization, the probe policy for live sizes, and whether
  a file exists. What they must satisfy is stated where it is needed: sorting selected rows again changes
  nothing (`Engine.Lawful`), group keys are compared lawfully, lower case leaves digits and the punctuation of
  the templates alone.
- A method is proved against functions of its inputs. What these functions mean is stated again without them, in
  the terms of records, pages, events and names: `RecordLaws` for the builder, `CategoryLaws` and `SizeFilter` for
  filters, `DocxPages` for the index, `AnalyzerHistory` and `AnalyzerDebounce` for the window, `FolderUrgency`,
  `VisibleItemsLaws` and the last sections of `LiveFileSizes` and `RenamePreview` for the rest.
- `Folding.Unfold` is a key that keeps large predicates closed until a proof asks for them.
- Where a promise is not kept by the code, the exact condition and an input that fails it are given: the
  deepest path (`SnapshotLaws.DeepestPathFromRecords`, `SnapshotLaws.CycleHasNoDeepestNode`), the filter that
  every leaf passes (`FilterLaws.AllPassMeetsFastPath`, `SnapshotLaws.HeavyFolderDisagrees`), and keyboard
  movement on arbitrary slots (`VisualLayout.ResolveFails`, `VisualLayout.UpwardsMoveCanFail`).

## Model

| member | source | states |
|---|---|---|
| `Saturating.SatAddOfSat` | src/app/disk_analysis_model.rs:353-370 | clamping early or late gives the same counter, so a chain of saturating additions equals the clamped exact sum |
| `Saturating.SatIsNearest` | src/app/disk_analysis_model.rs:353-370 | the clamped value is the largest 64-bit counter not above the exact sum, and equal to it exactly up to 2^64 - 1 |
| `Cancellation.CancelToken.PollEvery` | src/app/disk_analysis_model.rs:264-266 | the cell is looked at only every 4096 steps, so no other step is ever cancelled; whether any look said yes is remembered |
| `DiskModel.DownAt` | src/app/disk_analysis_model.rs:148-153 | following the slice of a descended node in the child array is following its links |
| `ForestTheory.Unroll` | src/app/disk_analysis_model.rs:313-316 | below a node whose ancestors are known the links unroll to a finite tree: the child of a node can never be one of its ancestors, so every walk without a visited set ends |
| `ForestTheory.NoRepetition` | src/app/disk_analysis_model.rs:313-316 | such a tree contains no node twice |
| `ForestTheory.BagSound` | src/app/disk_analysis_model.rs:313-316 | every node of the tree is a descendant through descended directories |
| `ForestTheory.BagComplete` | src/app/disk_analysis_model.rs:313-316 | every such descendant is in the tree |
| `ForestTheory.EndsIffNoCycle` | src/app/disk_analysis_model.rs:313-316 | a walk without a visited set ends if and only if it meets no node that lies on a cycle of the links it follows |
| `ForestTheory.RootedMeetsNoCycle` | src/app/disk_analysis_model.rs:313-316 | from a node whose parents lead to the root it always ends and meets no cycle |
| `SnapshotLaws.CycleNeverEnds` | src/app/disk_analysis_model.rs:253-316 | a snapshot with a node from which it would not end: two folders recorded as each other's parent |
| `Walks.FinishNext` | src/app/disk_analysis_model.rs:338-409 | when the explicit-stack walk finishes a node, the node was not finished before and all its children were |
| `Walks.MetIffReached` | src/app/disk_analysis_model.rs:336-409 | pre-order and post-order meet exactly the nodes reached from the start without passing through a reparse directory |
| `Walks.SumInPostOrder` | src/app/disk_analysis_model.rs:343-370 | adding values in finishing order gives the recursive total, whatever the child order |
| `FrnIndex.SortPairs` | src/app/disk_analysis_model.rs:231-234 | the reference pairs end up sorted and are the same pairs |
| `FrnIndex.Dedupe` | src/app/disk_analysis_model.rs:238-247 | in place, of equal reference numbers only the last of the sorted run is kept |
| `FrnIndex.KeepLastIndexes` | src/app/disk_analysis_model.rs:231-247 | the deduplicated index maps each reference number to the last record that has it, and contains no other number |
| `FrnIndex.Lookup` | src/app/disk_analysis_model.rs:274-277 | binary search in the index finds the last record with that reference number, or nothing when there is none |
| `ParentLinks.VolumeRootIsFirst` | src/app/disk_analysis_model.rs:199-202 | the volume root is the first self-parent directory among the records, if there is any |
| `ParentLinks.CreateNodes` | src/app/disk_analysis_model.rs:169-225 | one fresh node per record behind the synthetic root, the pairs of all records, and the volume root; nothing else when cancelled |
| `ParentLinks.ResolveParents` | src/app/disk_analysis_model.rs:253-287 | the in-place pass writes the parent function of the records (see RecordLaws.ParentFromRecords for what that is) into every node but the root, and counts the children of each parent |
| `ParentLinks.PickedIffParent` | src/app/disk_analysis_model.rs:303-307 | a slice holds exactly the nodes resolved to its owner |
| `ParentLinks.PickedIncreasing` | src/app/disk_analysis_model.rs:292-307 | and lists them in record order |
| `ChildSlices.AssignStarts` | src/app/disk_analysis_model.rs:294-301 | slices start at the sums of the counts before them and lie back to back |
| `ChildSlices.FillLinks` | src/app/disk_analysis_model.rs:302-307 | the cursor pass puts each node into the next free slot of its parent's slice |
| `ChildSlices.BuildSlices` | src/app/disk_analysis_model.rs:292-307 | each node's slice of the filled array is the list of nodes resolved to it |
| `VolumeBuilder.EveryRecordOneSlot` | src/app/disk_analysis_model.rs:260-307 | every record index except the volume root occurs exactly once in the child array, and nothing else occurs |
| `VolumeBuilder.EncodedIsLinked` | src/app/disk_analysis_model.rs:260-307 | the child array and the parent field describe the same links: each slice is the set of nodes whose parent is its owner, the root is nobody's child |
| `VolumeBuilder.LinkVolume` | src/app/disk_analysis_model.rs:164-311 | after passes 1 and 2 the arrays encode the parent function of the records: contiguous disjoint ascending slices that cover the array, files own empty ones |
| `Aggregation.DominantCategory` | src/app/disk_analysis_model.rs:373-379 | the category with the most allocated bytes, the last of the largest |
| `Aggregation.RollUp` | src/app/disk_analysis_model.rs:346-372 | over finished children: clamped sizes, files, folders and all 24 category counters of the node |
| `Aggregation.FinishDirectory` | src/app/disk_analysis_model.rs:345-386 | finishing a descended directory rolls it up and touches no other entry |
| `Aggregation.FinishReparse` | src/app/disk_analysis_model.rs:387-392 | a reparse directory counts itself and is not descended into |
| `Aggregation.FinishNode` | src/app/disk_analysis_model.rs:344-401 | finishing any node extends the rolled-up set by exactly that node and keeps the flat file totals in step |
| `Aggregation.PushChildren` | src/app/disk_analysis_model.rs:403-408 | scheduling a node behind its children changes nothing about what is still to be finished, in which order, and gets the walk closer to its end |
| `Aggregation.Aggregate` | src/app/disk_analysis_model.rs:318-411 | on any links, cyclic components included, the walk ends with exactly the nodes of the root's tree rolled up, the flat totals of all their files, and the folder count of the root; all other nodes are as before |
| `DepthWalk.VisitDepth` | src/app/disk_analysis_model.rs:423-439 | visiting a node gives its children their depth, and never overwrites one that is known |
| `DepthWalk.AssignDepths` | src/app/disk_analysis_model.rs:413-439 | the depth walk ends with the true depth at every node it met and the initial value elsewhere |
| `DepthWalk.Deepest` | src/app/disk_analysis_model.rs:440 | the largest recorded depth |
| `VolumeTotals.DeepestPathIsReachedDepth` | src/app/disk_analysis_model.rs:413-440 | deepest_path is the depth of a reached node if and only if the root has a child to step to or there is nothing besides the roots; otherwise an unreached node supplies 1; no reached node is deeper |
| `SnapshotLaws.DeepestPathFromRecords` | src/app/disk_analysis_model.rs:253-440 | the same condition read off the records: some record goes directly below the root and the root is no reparse point, or there is nothing besides the roots |
| `SnapshotLaws.CycleHasNoDeepestNode` | src/app/disk_analysis_model.rs:413-440 | a snapshot that fails it: two folders recorded as each other's parent give deepest_path 1, the depth of no reached node |
| `BuiltVolume.WalkMeetsExactly` | src/app/disk_analysis_model.rs:336-409 | a walk over a built model meets each reached node once and no other |
| `BuiltVolume.Summarize` | src/app/disk_analysis_model.rs:318-463 | passes 3 and 4 leave links and records alone and make all totals exact |
| `BuiltVolume.Build` | src/app/disk_analysis_model.rs:160-464 | nothing exactly when the cell said so; otherwise the tree of exactly these records, whatever their duplicates, orphans, self-parents and cycles, with exact totals and depths; the RecordLaws rows read nodes, parents and totals off the records |
| `RecordLaws.NodeOfRecord` | src/app/disk_analysis_model.rs:206-224 | node i + 1 has the name, sizes and flags of record i; files have the category of their name, reparse directories the last one |
| `RecordLaws.RootFromRecords` | src/app/disk_analysis_model.rs:200-202 | the root is the first record that is a directory and its own parent; without one, the node in front of the records |
| `RecordLaws.RootIsDrive` | src/app/disk_analysis_model.rs:253-258 | the root is named after the drive, its letter in upper case and a colon |
| `RecordLaws.ParentFromRecords` | src/app/disk_analysis_model.rs:253-283 | a record whose parent number nobody has, was last given to a file, or is its own number hangs directly below the root; every other record hangs below the last record with that number, which is a directory |
| `RecordLaws.RecordRootedOrCycle` | src/app/disk_analysis_model.rs:260-287 | every record node either climbs to the root or climbs into a cycle of at least two nodes, never both |
| `RecordLaws.ReachedFromRoot` | src/app/disk_analysis_model.rs:313-409 | the walk from the root reaches exactly the nodes that climb to it through directories that are no reparse points |
| `RecordLaws.LeavesReachThemselves` | src/app/disk_analysis_model.rs:340-409 | from a file or a reparse directory nothing but itself is reached |
| `RecordLaws.SubtreeFromRecords` | src/app/disk_analysis_model.rs:346-384 | the three subtree totals of a node are the clamped sums of size, allocated size and number of files over the records reached from it |
| `RecordLaws.TotalsFromRecords` | src/app/disk_analysis_model.rs:440-463 | the totals of the volume are those sums over the records reached from the root; the folder total counts the reached directories without the root |
| `RecordLaws.CategoryFromRecords` | src/app/disk_analysis_model.rs:394-401 | each flat category total is the clamped sum over the reached files whose name has that category |
| `VolumeTotals.WeightIsSumOverReached` | src/app/disk_analysis_model.rs:343-370 | the recursive total of a node is the plain sum over the set of nodes reached from it, so no child order can matter |
| `VolumeTotals.SubtreeTotals` | src/app/disk_analysis_model.rs:346-384 | subtree size, allocated size and file count of every reached node are the clamped exact sums over what is reached from it |
| `VolumeTotals.CategoryTotalsAreRollUp` | src/app/disk_analysis_model.rs:323-408 | the flat per-category totals equal the bottom-up roll-up at the root in all 24 counters, although they saturate independently |
| `VolumeTotals.FileCountersSum` | src/app/disk_analysis_model.rs:394-444 | the eight category file counters add up to the total number of files |
| `VolumeTotals.CategoryIsDominant` | src/app/disk_analysis_model.rs:373-386 | the category of a reached descended directory has the largest allocated total, and the last one of equals |
| `Paths.ChainTo` | src/app/disk_analysis_model.rs:466-483 | the chain follows parents up from any node and ends at a self-parent, or is cut after one node more than exist |
| `Paths.BreadcrumbReachesRoot` | src/app/disk_analysis_model.rs:466-483 | for a node whose parents lead to the root the chain is exactly the way from the root |
| `Paths.PathOf` | src/app/disk_analysis_model.rs:485-503 | for such a node the climb ends and gives the drive and the names below the root joined by backslashes |
| `Paths.PathOfRoot` | src/app/disk_analysis_model.rs:493-496 | the path of the root is the drive letter in upper case, a colon and a backslash |
| `Paths.PathOfChild` | src/app/disk_analysis_model.rs:497-502 | the path of any other rooted node is its parent's path, a backslash unless the parent is the root, and its name |
| `SizeFilter.ExtensionIsAfterLastDot` | src/app/disk_analysis_query.rs:146-150 | the extension a filter compares is what follows the last dot of the name, nothing without a dot |
| `SizeFilter.InactivePasses` | src/app/disk_analysis_query.rs:111-156 | a filter without restrictive conditions hides no leaf |
| `SizeFilter.InactiveMeansNoCondition` | src/app/disk_analysis_query.rs:111-117 | a filter is inactive exactly if it has all categories, no extension and no limits |
| `SizeFilter.MatchesEachCondition` | src/app/disk_analysis_query.rs:139-156 | a leaf passes exactly if it passes the categories, the extensions and the size limits each on their own |
| `SizeFilter.OneCategoryPasses` | src/app/disk_analysis_query.rs:141-145 | the mask of one category lets exactly the leaves of that category through |
| `SizeFilter.MasksJoin` | src/app/disk_analysis_query.rs:141-145 | two masks together let exactly those leaves through that one of them lets through, also where together they are all bits |
| `SizeFilter.EmptyAndFullMask` | src/app/disk_analysis_query.rs:141-145 | the empty mask lets nothing through, the full one does not look at categories |
| `SizeFilter.ExtensionsPass` | src/app/disk_analysis_query.rs:146-154 | a name stem.ext passes exactly if ext in lower case is listed, a name without a dot exactly if the empty one is |
| `SizeFilter.LowerAsciiLetters` | src/app/disk_analysis_query.rs:147-150 | lower case takes the letters A to Z to a to z one by one, and changes neither the length nor anything else |
| `SizeFilter.SizesPass` | src/app/disk_analysis_query.rs:119-135 | the limits let exactly the leaves through whose size in the chosen base lies between them, the limits included |
| `FilteredWeights.SumKids` | src/app/disk_analysis_query.rs:221-227 | clamped sum and match flag over finished children |
| `FilteredWeights.FilterWalk` | src/app/disk_analysis_query.rs:213-246 | from any node below the root the walk ends with weight and flag of every met node filled and every other entry 0 and false |
| `FilteredWeights.CollectSubtreeValues` | src/app/disk_analysis_query.rs:249-267 | the fast path copies the natural metric of exactly the met nodes |
| `FilteredWeights.ComputeFilteredWeights` | src/app/disk_analysis_query.rs:196-247 | an inactive filter never fails and takes the fast path; an active one gives the roll-up of the leaves that pass, or nothing exactly when the cell said so |
| `FilterLaws.FilteredWeight` | src/app/disk_analysis_query.rs:196-247 | the weight of a reached node is min(u64::MAX, sum of the metric over the matching leaves reached from it); 0 elsewhere |
| `FilterLaws.MatchFlag` | src/app/disk_analysis_query.rs:220-245 | the flag is set exactly for reached nodes with a matching leaf below them, zero-byte leaves included |
| `FilterLaws.FilteredAtMostNatural` | src/app/disk_analysis_query.rs:47-55 | a filtered weight never exceeds the natural subtree metric, for all three metrics and with saturation |
| `FilterLaws.AllPassMeetsFastPath` | src/app/disk_analysis_query.rs:208-247 | an active filter that every leaf passes agrees with the fast path if and only if every reached descended directory has own metric 0 or the leaves alone saturate the counter |
| `SnapshotLaws.HeavyFolderDisagrees` | src/app/disk_analysis_query.rs:208-247 | a snapshot where it does not: below a folder of 10 bytes of its own every file passes, and its weight differs from the one without a filter |
| `FilterLaws.FileCountsMeetFastPath` | src/app/disk_analysis_query.rs:43 | for the file-count metric directories hold nothing, so the two weights are always equal |
| `CategoryLaws.WeightIsSumOfPassing` | src/app/disk_analysis_query.rs:213-246 | the weight of a reached node is the clamped sum of the metric over the passing leaves among the nodes reached from it, leaf by leaf |
| `CategoryLaws.CategoryWeightMeetsFlatTotal` | src/app/disk_analysis_query.rs:196-247 | across builder and filter: the root's weight for one category alone equals the builder's flat total of that category if and only if its reached reparse directories hold nothing or the files saturate the counter |
| `CategoryLaws.FileCountMeetsFlatTotal` | src/app/disk_analysis_query.rs:196-247 | for the number of files the two always agree |
| `CategoryLaws.BytesMeetFlatTotal` | src/app/disk_analysis_query.rs:196-247 | for bytes they agree in a built model in every category but the last, which is that of reparse directories |
| `SubtreeSearch.LevelOrderBag` | src/app/disk_analysis_query.rs:301-311 | level order lists every node of the tree as often as the tree contains it |
| `SubtreeSearch.QueueStep` | src/app/disk_analysis_query.rs:302-311 | popping a node and queueing its children keeps the breadth-first order still to come |
| `SubtreeSearch.SearchNodes` | src/app/disk_analysis_query.rs:284-328 | the first `limit` hits in breadth-first order; nothing for a blank query; a prefix when cancelled; SubtreeSearch.SearchFindsText says what a hit is |
| `SubtreeSearch.SearchFindsExactly` | src/app/disk_analysis_query.rs:312-321 | the hits are exactly the reached non-root nodes that pass the mask and match by name, or by path when the query has a separator, each once |
| `SubtreeSearch.ContainsIsWithin` | src/app/disk_analysis_query.rs:315-319 | the text test holds exactly if the text is something, the needle, and something; the start of the text included |
| `SubtreeSearch.SlashesReplaced` | src/app/disk_analysis_query.rs:297-298 | in a path query every slash becomes a backslash and nothing else changes |
| `SubtreeSearch.SearchFindsText` | src/app/disk_analysis_query.rs:297-321 | a reached node other than the root that the mask lets through is a hit exactly if its lower-case name holds the needle, or, for a query with a separator of either kind, its lower-case path holds the query with backslashes |
| `SubtreeSearch.SearchAnswerIsUnique` | src/app/disk_analysis_query.rs:284-328 | a search that is not cancelled has one answer: the first `limit` hits of that order, or all of them |
| `SubtreeSearch.LevelOrderByDepth` | src/app/disk_analysis_query.rs:301-311 | depth never decreases along the order of the hits |
| `RollUpAnswers.FilterAnswerIsUnique` | src/app/disk_analysis_query.rs:196-247 | the roll-up is a function of model, root, filter and metric: two complete answers to one request are equal |
| `Kmp.PrefixTable` | src/docx_viewer/search.rs:371-384 | entry i is the longest proper border of the first i + 1 characters |
| `Kmp.Advance` | src/docx_viewer/search.rs:159-164 | after one more character `matched` is the longest prefix of the query that the text ends with; the fallback loop ends |
| `Kmp.FallBack` | src/docx_viewer/search.rs:159-161 | falling back to the longest border skips no prefix that the character could extend |
| `Kmp.AfterMatch` | src/docx_viewer/search.rs:171-178 | after a whole match the longest border is the longest partial match, so overlapping occurrences are found |
| `DocxText.UnionIsLeastBox` | src/docx_viewer/search.rs:39-47 | the joined bounds are the least box around all known bounds, and unknown exactly if all are |
| `DocxText.ParagraphKeysAgree` | src/docx_viewer/search.rs:246-259 | two runs have the same key exactly if the first kind of identifier they have is the same and agrees |
| `DocxText.StreamsResolve` | src/docx_viewer/search.rs:197-275 | every indexed location resolves to a text primitive with the indexed key and flag; an indexed header or footer is there |
| `DocxText.SegmentsAreMaximalRuns` | src/docx_viewer/search.rs:134-151 | the ranges between resets are exactly the maximal runs of shown primitives that share one paragraph key; a primitive without key is its own range |
| `DocxText.SegmentsInOrder` | src/docx_viewer/search.rs:130-151 | the ranges are disjoint and in reading order |
| `DocxSearch.Slide` | src/docx_viewer/search.rs:166-169 | the window holds the bounds of exactly the last query-length characters since the reset |
| `DocxSearch.Feed` | src/docx_viewer/search.rs:157-178 | one character adds a match exactly if the query now ends the text, with the union of the matched characters' bounds and no others |
| `DocxSearch.ReadRun` | src/docx_viewer/search.rs:157-188 | a run adds exactly the matches that end in its lower-case text, one source character becoming several included; interrupted searches have taken one request |
| `DocxSearch.EnterItem` | src/docx_viewer/search.rs:134-151 | the reset rule keeps exactly the text the next primitive continues |
| `DocxSearch.SearchStream` | src/docx_viewer/search.rs:124-190 | a stream adds the matches of all its segments in order |
| `DocxSearch.IndexPage` | src/docx_viewer/search.rs:197-229 | streams in the order body, notes, header, footer, empty ones left out; the DocxPages rows say that they hold all text primitives and in which order |
| `DocxSearch.NewIndex` | src/docx_viewer/search.rs:94-100 | the index of a document holds the streams of every page, in page order |
| `DocxSearch.Search` | src/docx_viewer/search.rs:102-194 | uninterrupted: the complete answer, which the DocxLaws and DocxPages rows describe; otherwise nothing, and exactly the next request was taken from the channel |
| `DocxSearch.EndsExact` | src/docx_viewer/search.rs:157-178 | in one text the reported ends are exactly the positions where the query stands |
| `DocxSearch.EndsAscend` | src/docx_viewer/search.rs:157-178 | and they come in ascending order |
| `DocxSearch.HitsAreEnds` | src/docx_viewer/search.rs:171-178 | one match per end, overlapping ones included, with the bounds of the matched window |
| `DocxLaws.AnswerInOrder` | src/docx_viewer/search.rs:102-194 | the complete answer is the list of matches at exactly the places where the query stands, one per place, no place twice, in reading order: page, stream, segment, end |
| `DocxLaws.AnswerExact` | src/docx_viewer/search.rs:102-194 | a match is in the complete answer if and only if the query stands somewhere inside one segment of some stream of some page, with the bounds of that place |
| `DocxPages.StreamsHoldAllText` | src/docx_viewer/search.rs:197-243 | a location is in the index exactly if the page has a text primitive there, shown or hidden, in body, note area, note separators, header or footer |
| `DocxPages.StreamsInReadingOrder` | src/docx_viewer/search.rs:197-217 | no stream is empty; within and across streams the body comes first, then the note areas by number with their separators first, header and footer last |
| `DocxPages.PositionsFollowReading` | src/docx_viewer/search.rs:197-243 | positions in the index ascend exactly in reading order, no primitive is indexed twice, and two share a stream exactly if they are of the same text |
| `DocxPages.SegmentIffContinues` | src/docx_viewer/search.rs:130-151 | two items lie in one segment exactly if everything from one to the other is shown and, if they are two, has one and the same key |
| `DocxPages.SegmentsOnPage` | src/docx_viewer/search.rs:130-151 | two text primitives of a page are searched as one text exactly if every text primitive between them in the same text is shown and has the paragraph key of the first; a hidden run or another paragraph in between separates them |
| `DocxPages.LetterKeepsBounds` | src/docx_viewer/search.rs:157-169 | each character of lower-case text comes from one character of the document, with its bounds, and stands where the lower-case text has it |
| `DocxPages.TextIsLowered` | src/docx_viewer/search.rs:153-158 | the text of a segment is the lower-case form of what its primitives hold, run after run |
| `DocxPages.FoundInSource` | src/docx_viewer/search.rs:102-188 | a query is reported at a position of a segment exactly if, both in lower case, it ends there in what the document has in that segment |
| `LowerCase.LoweredByLetter` | src/docx_viewer/search.rs:107-110 | where each character has one lower-case character, the text keeps its length and every place its character |
| `SearchRequests.RequestReceiver.TryRecv` | src/docx_viewer/search.rs:400-406 | requests come in the order they were sent, each once, whatever arrives between two calls |
| `SearchWorker.LatestRequest` | src/docx_viewer/search.rs:430-436 | draining ends with the newest request that has arrived |
| `SearchWorker.Attempt` | src/docx_viewer/search.rs:399-413 | a search without replacement is complete, so the exit for missing matches cannot be taken |
| `SearchWorker.Serve` | src/docx_viewer/search.rs:393-427 | restarts with newer requests until the newest is answered, is blank, or the receiver is gone |
| `SearchWorker.RunSearchWorker` | src/docx_viewer/search.rs:386-428 | over a whole run each result repeats query and number of the request dequeued last and has all its matches, at most one per request and in request order; at the end the last request is answered unless it is blank or the receiver is gone |
| `AnalyzerState.DiskAnalysisState.RequestSnapshot` | src/app/disk_analysis_state.rs:303-335 | from a state that satisfies the invariant into one that does: new request id, the letter in upper case as drive, the model kept exactly if that was the drive before, nothing during a deletion; no job in flight is misread afterwards |
| `AnalyzerState.DiskAnalysisState.ResetViewState` | src/app/disk_analysis_state.rs:337-361 | whatever the state before: afterwards the invariant holds and every result of an earlier job of any kind is ignored |
| `AnalyzerState.DiskAnalysisState.MarkFilterChanged` | src/app/disk_analysis_state.rs:380-388 | keeps the invariant and the meaning of jobs in flight: the edit voids them all and starts the debounce |
| `AnalyzerState.DiskAnalysisState.MarkSearchChanged` | src/app/disk_analysis_state.rs:390-401 | keeps the invariant: the running search is void at once, roll-up and largest rows stay wanted, the new text waits for its debounce |
| `AnalyzerState.DiskAnalysisState.NavigateTo` | src/app/disk_analysis_state.rs:410-424 | succeeds exactly for a descended directory of the model, and then the trail is the chain of its ancestors ending there; the invariant stays |
| `AnalyzerState.DiskAnalysisState.SyncQueryJobs` | src/app/disk_analysis_state.rs:447-596 | after any edit of metric and sort order: the invariant holds again, every list on screen is empty or the answer for exactly the inputs on screen, complete if nothing runs or waits, and every request sent asks for exactly those inputs |
| `AnalyzerState.DiskAnalysisState.SelectMetric` | src/ui/disk_analysis/toolbar.rs:24-29 | another metric with its default order, scheduled at once: nothing of the old metric is shown as if it were of the new one |
| `AnalyzerState.DiskAnalysisState.ChangeLargestSort` | src/ui/disk_analysis/sort_controls.rs:55-132 | another row order, sorted at once or not, then scheduled: rows on screen are the ones selected by the order on screen |
| `AnalyzerState.DiskAnalysisState.ApplyModelReady` | src/app/disk_analysis_state.rs:684-709 | only the newest request for the current drive is accepted, so a model that is installed is of that drive; the invariant holds afterwards, so nothing derived from the old model can be shown |
| `AnalyzerState.DiskAnalysisState.ApplyFailed` | src/app/disk_analysis_state.rs:710-720 | a failure of the newest request drops the model and everything derived from it and keeps the invariant |
| `AnalyzerState.DiskAnalysisState.ApplyQueryMessage` | src/app/disk_analysis_state.rs:724-764 | a result changes the view exactly if its id is the current one of its kind, and a result the worker may send keeps the invariant |
| `AnalyzerState.DiskAnalysisState.InvalidateDependentQueryJobs` | src/app/disk_analysis_state.rs:613-625 | results of all list jobs queued so far are ignored from now on |
| `AnalyzerInvariant.ResetKeeps` | src/app/disk_analysis_state.rs:337-361 | a reset establishes the invariant from any state |
| `AnalyzerInvariant.EnterSettles` | src/app/disk_analysis_state.rs:455-480 | entering a new context empties both lists and voids their jobs; weights of another root or metric are dropped |
| `AnalyzerInvariant.WeightsSettle` | src/app/disk_analysis_state.rs:482-521 | afterwards weights are right, running, or waiting for the debounce, and an inactive filter has none |
| `AnalyzerInvariant.SyncKeeps` | src/app/disk_analysis_state.rs:447-596 | scheduling keeps the invariant after any edit of metric and sort order, and every request sent asks for exactly the current inputs |
| `AnalyzerInvariant.SortKeeps` | src/app/disk_analysis_state.rs:740-748 | sorting the shown rows again is harmless before scheduling |
| `AnalyzerInvariant.DeliverKeeps` | src/app/disk_analysis_state.rs:724-764 | accepting a result keeps the invariant |
| `AnalyzerInvariant.DeliverRequest` | src/app/disk_analysis_state.rs:724-764 | and does not change what other jobs in flight mean |
| `AnalyzerRuns.SyncQueues` | src/app/disk_analysis_state.rs:598-601 | new jobs are numbered after all others in queueing order, and every pending flag belongs to a queued job |
| `AnalyzerRuns.EndStep` | src/app/disk_analysis_state.rs:825-907 | a computation cut by its cell is never sent, because cells only move on; what is sent is the complete answer to its request |
| `AnalyzerRuns.TakeStep` | src/app/disk_analysis_state.rs:825-833 | a job dropped on arrival is never one a pending flag waits for |
| `AnalyzerRuns.RunKeeps` | src/app/disk_analysis_state.rs:672-907 | the invariant of view, channels and worker holds after every sequence of events |
| `AnalyzerTheorems.EveryRunShowsOnlyCurrent` | src/app/disk_analysis_state.rs:447-596 | over every interleaving of edits, navigation, model arrivals, worker steps and deliveries: after each scheduling rows and hits are empty or the answer for exactly the current model, root, metric, filter, sort order and query; once nothing runs or waits they are that answer and the weights are the roll-up |
| `AnalyzerTheorems.EveryFlagIsAnswered` | src/app/disk_analysis_state.rs:642-648 | a pending flag is up only while its job is in a channel or in the worker |
| `AnalyzerTheorems.QuietWindowShowsRollUp` | src/app/disk_analysis_state.rs:482-521 | with the tree queries as engine: in a quiet window with an active filter every node below the current root has the clamped sum and flag of its matching leaves |
| `AnalyzerTheorems.QuietWindowShowsHits` | src/app/disk_analysis_state.rs:883-899 | and its hits are the first 200 in breadth-first order of exactly the nodes that match the query and contain a leaf passing the filter; all of them if fewer than 200 are shown |
| `AnalyzerHistory.ModelIsOfDrive` | src/app/disk_analysis_state.rs:303-335 | over every run the model on screen, if any, is of the drive on screen; choosing another drive never leaves the old model there |
| `AnalyzerHistory.DriveIsLastChosen` | src/app/disk_analysis_state.rs:303-320 | the drive on screen is the one the last fetch was started for, and the request id in force counts the fetches started; nothing starts during a deletion |
| `AnalyzerHistory.ModelIsLastArrival` | src/app/disk_analysis_state.rs:684-709 | a model is on screen if and only if some event brought it for the drive and the fetch of its time, and nothing after that replaced it, failed, or switched the drive |
| `AnalyzerHistory.PhaseIsLastOutcome` | src/app/disk_analysis_state.rs:684-720 | the phase is that of the last event that started, answered or failed a fetch |
| `AnalyzerHistory.TrailIsLastMove` | src/app/disk_analysis_state.rs:696-720 | a new model is entered at its root, losing it leaves no trail, and otherwise the trail is that of the last navigation |
| `AnalyzerHistory.FilterIsLastEdit` | src/app/disk_analysis_state.rs:363-388 | over every run the filter is that of the last edit, and the one without conditions if that had none or there was none |
| `AnalyzerHistory.TextIsLastEdit` | src/app/disk_analysis_state.rs:390-401 | the search text is that of the last edit |
| `AnalyzerHistory.MetricIsLastChoice` | src/ui/disk_analysis/toolbar.rs:24-29 | the metric is the one chosen last |
| `AnalyzerHistory.SortIsLastChoice` | src/ui/disk_analysis/sort_controls.rs:55-132 | the row order is the one set last, by itself or together with the metric |
| `AnalyzerDebounce.NoWeightsWithinDebounce` | src/app/disk_analysis_state.rs:482-513 | for 250 ms after an edit of the filter or a new model no frame, navigation, sorting or search asks for a roll-up |
| `AnalyzerDebounce.DueFilterIsAsked` | src/app/disk_analysis_state.rs:482-513 | from 250 ms on, the first scheduling asks for the roll-up of exactly the filter, folder and metric on screen |
| `AnalyzerDebounce.NoSearchWithinDebounce` | src/app/disk_analysis_state.rs:550-592 | for 250 ms after an edit of the text no search is asked for |
| `AnalyzerDebounce.DueSearchIsAsked` | src/app/disk_analysis_state.rs:550-592 | from 250 ms on, the first scheduling that has the roll-up it needs asks for exactly the trimmed text below the current folder, and opens the list of hits |
| `AnalyzerDebounce.BlankSearchIsClosed` | src/app/disk_analysis_state.rs:550-557 | blank text closes the list and empties it |
| `AnalyzerDebounce.HitsAreOpen` | src/app/disk_analysis_state.rs:550-592 | over every run hits are listed or asked for only while the list is open |
| `AnalyzerQueries.EveryQueryEnds` | src/app/disk_analysis_state.rs:403-596 | over every run in which arriving models are trees and navigation ends at rooted nodes, the current root and the model and root of every request in flight meet what the roll-up and the search demand |
| `AnalyzerQueries.HitsAreWalkable` | src/app/disk_analysis_query.rs:284-328 | every hit of the search is a node that may be navigated to in this sense |
| `AnalyzerQueries.ClicksAreAllowed` | src/ui/disk_analysis/mod.rs:347-368 | so is everything reached from the current root, and every entry of the breadcrumb this leads to: no click leads a query into a cycle |
| `AnalyzerProgress.IdleStep` | src/app/disk_analysis_state.rs:447-596 | without an edit a delivery, a worker step or a frame that does anything leaves strictly less to do |
| `AnalyzerProgress.EveryRunSettles` | src/app/disk_analysis_state.rs:447-907 | progress over all runs: from any reachable state with a model, after one frame past the debounce, the number of steps that do anything is bounded whatever their interleaving, and once none can, the next frame is quiet and shows everything |
| `AnalyzerProgress.EveryRunCanSettle` | src/app/disk_analysis_state.rs:447-907 | and from every such state deliveries, worker steps and frames do get there |
| `Calendar.NextDayNumber` | src/application/grouping.rs:531-540 | the calendar successor of every valid proleptic Gregorian date has the next day number, negative years and leap days included |
| `Calendar.EarlierHasSmallerNumber` | src/application/grouping.rs:531-540 | day numbers order valid dates exactly as year, month and day do, so they are injective |
| `Calendar.DayNumberCounts` | src/application/grouping.rs:531-540 | the number of every date is the signed count of days from 1 January 1970 |
| `Calendar.ClassifyMonotone` | src/application/grouping.rs:429-465 | for every valid today a later date is never in an earlier group, across January and week boundaries, and exactly the future dates are in the last group |
| `Calendar.ClassifyMeans` | src/application/grouping.rs:429-465 | each group in calendar terms: today, the day before it, the same week, the week before, then the same month, the month before, earlier in the year, earlier years; weeks start on Monday and may straddle months and years |
| `Calendar.WeeksStartOnMondays` | src/application/grouping.rs:441-449 | weeks change exactly on the days a multiple of seven away from Monday, 1 January 2024, and the start of a week is such a day |
| `Grouping.GatherItem` | src/application/grouping.rs:303-311 | an item joins the section of its key or opens a new one; all sections stay exact |
| `Grouping.BuildProjection` | src/application/grouping.rs:289-330 | one section per occurring key with exactly its items in their old order; sections by key, descending turned around, and equal keys by first item |
| `Grouping.EachItemOnce` | src/application/grouping.rs:300-311 | every item is in exactly one section, at ascending positions |
| `Grouping.SortOrders` | src/application/grouping.rs:313-320 | the sort orders sections and keeps the order of equal ones |
| `Grouping.DateSectionsAreChronological` | src/application/grouping.rs:289-330 | in a list grouped by date an item that is not later is never in a later section when ascending, never in an earlier one when descending; whatever items have no date |
| `Grouping.SectionsAreByCalendar` | src/application/grouping.rs:419-436 | items without a date, all items when the day is unknown, and items with a date to come are exactly those of the unspecified section, which is last, or first when descending; all others are in the section of their calendar group |
| `Grouping.GroupByDate` | src/application/grouping.rs:289-330 | the sections that are built for dates satisfy both |
| `VisualLayout.AppendRows` | src/application/grouping.rs:184-195 | one section adds exactly its present items in order and then the fewest empty slots that fill the last row |
| `VisualLayout.GridVisualSlots` | src/application/grouping.rs:169-197 | the grid is exactly the rows of the expanded sections, one after the other; without the empty slots it is the list of visible items and every slot at a multiple of the column count is occupied |
| `VisualLayout.AppendColumns` | src/application/grouping.rs:199-229 | one section adds exactly its columns: items downwards, the last column filled up, or one empty column if it is collapsed |
| `VisualLayout.ColumnVisualSlots` | src/application/grouping.rs:199-229 | the columns are exactly those of the sections, one after the other, a collapsed one leaving one empty column; without the empty slots they are the list of visible items |
| `VisibleItemsLaws.ShownExactly` | src/application/grouping.rs:169-184 | an item is visible exactly if it is in the list and in a section that is not collapsed; without sections all items are visible in their order |
| `VisibleItemsLaws.ShownInOrder` | src/application/grouping.rs:169-184 | visible items stand section by section, in each section in the section's order |
| `VisibleItemsLaws.EveryPlaceIsShown` | src/application/grouping.rs:169-184 | every place of the visible list belongs to one entry of one open section |
| `VisualLayout.ResolveFails` | src/application/grouping.rs:231-271 | a movement finds nothing exactly if there is no item up to the end of the target block and none behind it either, or the movement goes up without skipping padding |
| `VisualLayout.UpwardsMoveCanFail` | src/application/grouping.rs:199-271 | columns where that happens: with a collapsed section in front of one item, the movement up to the empty column finds nothing, and with padding skipped it finds the item |
| `VisualLayout.ResolveLands` | src/application/grouping.rs:231-271 | which slot a movement lands on: the target itself, the next item behind padding, the last item of the block, or the nearest one before it when going up |
| `VisualLayout.GridMovesAlwaysLand` | src/application/grouping.rs:231-271 | on a non-empty grid with its own column count every movement lands, whatever target and previous position |
| `VisualLayout.MovesLandOnVisible` | src/application/grouping.rs:231-271 | and always on a visible item |
| `FolderTimestamps.FindVictim` | src/app/folder_timestamp_state.rs:119-124 | the request given up is the least urgent one that is not manual, if there is any |
| `FolderTimestamps.FolderTimestampState.Request` | src/app/folder_timestamp_state.rs:98-147 | at most 1024 queued; a new key is due at once, after a watcher event in two seconds; known keys are coalesced by reason, a manual request always ending up manual and due at once; a manual request is refused only if all 1024 are manual, and otherwise displaces a least urgent one; a read in flight is superseded exactly by a watcher or manual request for its key |
| `FolderTimestamps.CollectDue` | src/app/folder_timestamp_state.rs:153-159 | all due requests by priority and due time |
| `FolderTimestamps.FirstOnesAreBatch` | src/app/folder_timestamp_state.rs:153-162 | the first sixteen are a least selection of the due requests |
| `FolderTimestamps.FolderTimestampState.TakeDue` | src/app/folder_timestamp_state.rs:149-168 | no batch while one is in flight; otherwise at most 16 requests, none more urgent left behind, moved from the queue into flight |
| `FolderTimestamps.FolderTimestampState.Finish` | src/app/folder_timestamp_state.rs:170-184 | reports exactly the reads nobody asked for again |
| `FolderTimestamps.ReportedExactly` | src/app/folder_timestamp_state.rs:170-184 | a read is reported if and only if its key was in the batch, no watcher or manual request for it came since, and dates were found |
| `FolderTimestamps.FolderTimestampState.Retry` | src/app/folder_timestamp_state.rs:217-223 | a batch that cannot start goes back into the queue completely, as background requests due after the debounce; all other requests are as before |
| `FolderTimestamps.FolderTimestampState.Poll` | src/app/folder_timestamp_state.rs:186-230 | between polls a batch is in flight exactly while a worker runs; when a worker can start it gets a least selection of the due requests, none of them superseded yet; when none can, those requests are background ones and all others are as before |
| `FolderTimestamps.ReadCycle` | src/app/folder_timestamp_state.rs:98-230 | over a whole read, from the poll that starts a batch through any requests and polls to the poll that takes the results in: reported are exactly the results with dates for keys of the batch that no watcher or manual request asked for in between |
| `FolderUrgency.RepeatsKeepUrgency` | src/app/folder_timestamp_state.rs:110-116 | over any number of repeated requests for a queued folder: with a manual one among them it is manual, due since the last of those; otherwise a missing date stays as it was queued, and background events are due two seconds after the last |
| `FolderUrgency.BatchServesTheUrgent` | src/app/folder_timestamp_state.rs:149-162 | of what is due, nothing manual is left behind for something that is not, no missing date for a background event, nothing due earlier of the same kind; and only a full batch leaves anything |
| `FolderUrgency.VictimIsServedLast` | src/app/folder_timestamp_state.rs:119-124 | the request given up would have been served last of all that are not manual |
| `LiveFileSizes.PutFinds` | src/app/live_file_size.rs:225-233 | a write is found again, keeps the capacity and leaves other entries as they were or forgotten |
| `LiveFileSizes.PutForgetsOldest` | src/app/live_file_size.rs:225-233 | a write to a cache with room forgets nothing; to a full one it forgets exactly the entry written longest ago |
| `LiveFileSizes.SendKeeps` | src/app/live_file_size.rs:170-185 | a request takes a slot below 64 and becomes the newest of its path |
| `LiveFileSizes.AnswerKeeps` | src/app/live_file_size.rs:200-205 | an answer frees its slot, and every current request is still outstanding |
| `LiveFileSizes.InvalidateKeeps` | src/app/live_file_size.rs:242-249 | requests sent before an invalidation are never current again |
| `LiveFileSizes.RarelyAfterTwoConfirmations` | src/app/live_file_size.rs:138-144 | for any history of answers: a file is probed every 30 seconds instead of every second exactly if the last two answers in a row confirmed what was seen before them |
| `LiveFileSizes.FailedReadsKeepSize` | src/app/live_file_size.rs:221-223 | failed reads never erase a size that was read |
| `LiveFileSizes.AnswerIsShown` | src/app/live_file_size.rs:131-136 | after an accepted answer the size it read is shown for that modification time, whatever the listing says, and the listing's size for any other time; a failed read changes nothing |
| `LiveFileSizes.OtherFilesStay` | src/app/live_file_size.rs:131-136 | other files show what they showed before, or the listing's size if the cache was full |
| `LiveFileSizes.InvalidatedShowsListing` | src/app/live_file_size.rs:242-249 | a file that changed shows the size of the listing |
| `LiveFileSizes.NotAskedAgainSoon` | src/app/live_file_size.rs:138-148 | a file is not asked about again within a second of an answer, nor within half a minute once answers confirmed each other |
| `LiveFileSizes.AskedAgainLater` | src/app/live_file_size.rs:138-185 | half a minute after an answer with a size it is asked about exactly if the probe, judged by the time last observed, allows it, no request for the same time runs and fewer than 64 are unanswered |
| `LiveFileSizes.LiveFileSizeState.Resolve` | src/app/live_file_size.rs:122-188 | the cached size of this modification time or the fallback; asks exactly if the entry is old, the probe allows it, no request for the same time runs and a slot is free |
| `LiveFileSizes.LiveFileSizeState.Accept` | src/app/live_file_size.rs:190-240 | outstanding is sent minus answered and at most 64; the cache changes exactly if the answer is to the current request of its path, which is the newest and was sent after the last invalidation; stale answers only free their slot |
| `LiveFileSizes.LiveFileSizeState.Invalidate` | src/app/live_file_size.rs:242-249 | entry and current request go, the slot stays taken until the answer comes |
| `BatchRename.NumberReadsBack` | src/app/batch_rename.rs:141-145 | the number can be read back from its padded text |
| `BatchRename.NumberIsPadded` | src/app/batch_rename.rs:141-145 | it is at least as wide as the padding, and wider only without leading zeros |
| `BatchRename.PrefixNumber` | src/app/batch_rename.rs:221-223 | a number directly in front of a base that may start with digits is still determined by the name, whatever the two extensions |
| `BatchRename.TemplatesAreInjective` | src/app/batch_rename.rs:186-225 | in all ten templates equal names have equal numbers, whatever the extensions |
| `BatchRename.NamesByTemplate` | src/app/batch_rename.rs:186-225 | the ten templates, one name each |
| `BatchRename.LoweredName` | src/app/batch_rename.rs:228-230 | comparing without case compares the names generated from lower-case parts |
| `RenamePreview.CountersDiffer` | src/app/batch_rename.rs:130-161 | with fewer than 2^32 rows no counter saturates, so a positive step gives different numbers |
| `RenamePreview.CounterSteps` | src/app/batch_rename.rs:130-161 | the first row has the start number, and each row one step more than the row before, clamped |
| `RenamePreview.RowShowsItsNumber` | src/app/batch_rename.rs:132-148 | the name of row i holds a number of at least the padding's width that reads start + i * step, at the place the template gives it, and its destination is that name in the row's own folder |
| `RenamePreview.CountIsClash` | src/app/batch_rename.rs:149-172 | a destination counted more than once is one that another row has too |
| `RenamePreview.ClashIgnoresCase` | src/app/batch_rename.rs:149-172 | two rows clash exactly if they are different rows whose destinations agree in lower case |
| `RenamePreview.NumberRows` | src/app/batch_rename.rs:128-162 | the first pass numbers the rows and counts destinations without case |
| `RenamePreview.ComputePreview` | src/app/batch_rename.rs:120-182 | a row is marked exactly if its destination exists or another row generates it too |
| `RenamePreview.OnlyExistingFilesConflict` | src/app/batch_rename.rs:120-182 | in one folder with a positive step and fewer than 2^32 rows a row conflicts if and only if its destination exists |

## Left out

- Threads, real channels, clocks, repaints, the file system and the database: steps, sequences, numbers and parameters stand for them.
- Records are read in place: the scratch lists of parent references and self-parent flags of the builder are not kept apart from the records.
- `largest_items` and its bounded heaps: the analyzer protocol takes the query as a function.
- Duplicate detection, hover, selection, context menus, the drive list and error texts of the analyzer window.
- The raw filter text fields: an edit carries the filter they parse to.
- AnalyzerState.DiskAnalysisState.SyncQueryJobs: sending to the query worker always succeeds here; the worker thread is never gone.
- The fields of the analyzer window are grouped into records in the class, and its shared cells are fields of it rather than separate objects.
- AnalyzerProgress.EveryRunSettles: without a model nothing is scheduled, and an edit that waits for its debounce waits for the model too.
- AnalyzerTheorems.EveryRunShowsOnlyCurrent: speaks of the moments after scheduling; between a click and the next frame rows of the previous root may still be shown.
- Glyph geometry: the bounds of a character are given; positions are exact numbers, so not-a-number and rounding do not occur.
- SearchWorker.RunSearchWorker: runs have finitely many requests.
- Full Unicode lower case: it is applied per character, so the context rule for the final sigma is not modelled.
- Name, type and size groups, group labels and computer sections: keys are any type with a lawful comparison.
- Conversion of time stamps to local dates.
- The two lanes of the folder date queues: each is one queue as modelled, and the worker's reading itself.
- FolderTimestamps.FolderTimestampState.TakeDue: requests that are equally urgent may come in any order, as the source's unstable sort over a hash map allows.
- LiveFileSizes.LiveFileSizeState.Accept: an answer repeats path, time and id of its request, as the worker copies them.
- RenamePreview.ComputePreview: names that would be absolute paths or contain separators, and folders that are a bare drive without a backslash, are not treated.
- Dragging rows in the rename dialog and the other dialogs, viewers, menus and preferences.
