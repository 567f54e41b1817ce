# Verified model of RecastLib

RecastLib is an approximate nearest-neighbour library: IVF lists of 4-bit product-quantized vectors whose distance
estimates carry an uncertainty radius, a selector that keeps every row that could still be among the K nearest, and a
mutable external-list index that keeps exact payloads on disk. This project models its stateful core and proves, with
Dafny 4.11, what the code is for.

| part | modules |
|---|---|
| Mutable index: three stores kept in agreement by batch insertion and deletion | `IndexRows`, `IndexInsert`, `IndexErase`, `ErasePlan`, `IndexLists`, `IndexFiles`, `IndexDeletion`, `ExternalListIndex`, `BatchPlan`, `MovePlan` |
| Record files as pages, with failures between any two page changes | `RecordPages`, `RecordAppend`, `RecordDeletion`, `RecordStore` |
| Paged Logical-ID directory | `DirectoryPages`, `LocationDirectory` |
| Packed PQ4 postings and the accumulation kernel | `Pq4Layout`, `Pq4Kernel`, `PostingPacking`, `PostingList`, `PostingDeletion` |
| Interval selection | `Extended`, `WordBits`, `Float32`, `FuzzyRank`, `UpperHeap`, `Reservoir`, `Selection`, `PlainSelection`, `IntervalAccumulator`, `SelectionGuarantees` |
| Search and refinement | `Search`, `IndexSearch`, `PlainSearch`, `ReadPlans`, `PlanProcessing`, `AioPipeline`, `Refiner`, `ExactTopK` |
| Uneven product quantizer | `Variances`, `WaterFilling`, `CapacityPlanner`, `DimensionAssignment`, `UnevenLayout`, `UnevenTraining`, `UnevenCodec`, `UnevenScan` |
| Checkpoints and restarts | `PostingFile`, `Checkpoint`, `Restart` |
| Shared | `Arithmetic`, `Outcomes`, `Permutations`, `Sorting` |

`dafny verify dfyconfig.toml` checks everything.

How the source's terms appear here:

- Exceptions are values of `Outcomes.Result`; an error the source can raise but never reaches is shown unreachable by an
  assertion at the place of the check.
- A list file or the directory is a sequence of pages. File changes take an `io` budget, the number of changes that
  succeed before one fails, so that a contract speaks about every interruption.
- Binary32 estimates are bit patterns without NaN; `Float32.Value` gives the number denoted. Uncertainties, endpoints and
  exact distances are reals extended with both infinities.
- Routing, encoding, distance estimation, exact distances, the logarithm and the choice of centroids are parameters: the
  theorems hold for all of them. Capacity planning is proved for every scoring of a profile and then used with the
  score of the profile's own assignment. The completion source of asynchronous reads is an arbitrary function
  constrained only to report requests that are in flight; success is promised for those that also make progress and read
  what lies inside the files, and one such function is exhibited.
- Interrupted insertions may leave directory entries for IDs not handed out yet; the model counts them, and no call treats
  them as rows.
- The represented map of the index goes from Logical IDs to (list, payload, packed posting) and is read through the
  directory; agreement of the directory, the record files and the postings is the index invariant.

Four statements about the code turned out false and are replaced by exact conditions. On the 16-lane path a row whose
estimate and uncertainty are both infinite fails the lower test (infinity minus infinity), where the portable test keeps
it: `SelectionGuarantees.LanesCanStarve` is an input, and `SelectionGuarantees.LanesStarveExactly` says exactly when K
candidates survive there. A directory batch that skips pages exposes zero bytes, which read as an active location:
`DirectoryPages.SkippedPageReadsActive` is an input, `DirectoryPages.GapsExposeZeros` gives the condition, and insertions
are shown to meet it. A load looks at the sizes of the record files only, so it accepts storage that was changed since the
checkpoint: `Restart.ReplaceAfterCheckpoint` is such a run, `Restart.ReplacedRowsAccepted` the whole family, and
`Restart.LoadConsistent` says exactly when an accepted load is consistent. Filling the groups does not
always take the lightest group with room, because nearly equal loads count as equal and such differences add up along the
scan: `DimensionAssignment.CloseLoadsDrift` is an input, `DimensionAssignment.LightestExactly` says exactly when a lightest
group is taken.

## Model

| member | source | states |
|---|---|---|
| ExternalListIndex.ExternalListRecastIndex.InsertBatch | adapters/external_list_ivf.cpp:599-803 | on success the represented map gains exactly the batch under the next dense IDs and nothing else changes; every error, also a change to a record file or to the directory that fails, leaves the map and every directory entry below the next ID as they were and the index valid, so the batch can be repeated, and succeeds once files can be written; the ID space limit, bad list numbers and short I/O are the only errors |
| ExternalListIndex.ExternalListRecastIndex.EraseBatch | adapters/external_list_ivf.cpp:805-1112 | a batch succeeds only if its IDs are distinct and all in the map, and does when the files are complete and writable; the map loses exactly them; a refusal changes nothing, and the disagreement error means that every ID of the batch has an entry inside the lists but one was left behind by an interrupted insertion; over complete files and with no two entries naming one place it is raised exactly then; a commit that stops part way leaves the postings unchanged, every other row readable in its file, and every directory entry as before or as it should become, the directory changing only after all record files |
| ExternalListIndex.ExternalListRecastIndex.Search | adapters/external_list_ivf.cpp:1114-1220 | search changes nothing; it returns K rows of the probed lists with their exact distances, ascending by distance and then by Logical ID: the nearest of those chosen at the query's score; if at that score every probed row's exact distance lies in its interval and nothing is truncated, every probed row left out has a larger distance than all of them, or the same one and a larger ID; with pages below 2 GiB and a kernel that reads what is there it succeeds if and only if the query is valid, K rows are probed and K selected, and the selected rows have proper distances; "fewer than topk" is raised exactly when fewer than K are selected, never on the portable path and on the 16-lane path exactly when fewer than K shortlisted rows are not doubly infinite |
| PlainSearch.PlainAnswer | adapters/external_list_ivf.cpp:1114-1220 | the answer in plain terms: order, exact distances, the choice at the score as a number, and no probed row missed under trusted intervals |
| PlainSearch.TrustedCovers | include/recastlib/types.h:86-114 | exact distances within z radii of the estimates meet the hypothesis of a lossless search |
| ExternalListIndex.NeverReused | adapters/external_list_ivf.cpp:599-1112 | over every run of calls, restarts over undisturbed storage included, an ID that was handed out never comes back after deletion and never stands for another vector |
| ExternalListIndex.GainsPlainly | adapters/external_list_ivf.cpp:599-803 | ID by ID: each input stands under its own new ID in its list with its payload and posting, every other entry is as before |
| ExternalListIndex.LosesPlainly | adapters/external_list_ivf.cpp:805-1112 | ID by ID: the batch is gone, every other entry is as before |
| ExternalListIndex.ExternalListRecastIndex.constructor | adapters/external_list_ivf.cpp:341-366 | a fresh index is valid, complete and represents the empty map |
| ExternalListIndex.InsertConsistent | adapters/external_list_ivf.cpp:599-803 | the phases of an insertion together keep the three stores in agreement |
| ExternalListIndex.EraseConsistent | adapters/external_list_ivf.cpp:805-1112 | the phases of a deletion together keep the three stores in agreement, active count included |
| ExternalListIndex.EnoughActive | adapters/external_list_ivf.cpp:812-819 | distinct active IDs never exceed the active count, so the size check refuses no legitimate batch |
| IndexRows.ContentsAreRows | adapters/external_list_ivf.cpp:599-1112 | the map read through the directory holds every stored row with its list, payload and posting, and nothing else |
| IndexRows.NoGapIsQuiet | adapters/external_location_directory.cpp:119-178 | a directory write without a page gap changes the updated entries only; other known IDs keep their entry |
| IndexRows.StaysUnassigned | adapters/external_location_directory.cpp:119-178 | and leaves entries beyond the batch vacant |
| IndexInsert.InsertAgrees | adapters/external_list_ivf.cpp:710-722 | after the dense ID updates the directory leads to every old and new row and every active entry to its row |
| IndexInsert.InsertContents | adapters/external_list_ivf.cpp:599-803 | the represented map after an insertion is the old map plus the new vectors |
| IndexInsert.InsertKeysDistinct | adapters/external_list_ivf.cpp:710-722 | the directory updates of an insertion name pairwise distinct IDs |
| IndexInsert.DenseIdsLeaveNoGap | adapters/external_list_ivf.cpp:643-646 | dense IDs never skip a directory page, wherever an interrupted insertion left the end of the file, and the file reaches the page of the last ID |
| IndexInsert.LeadingDense | adapters/external_location_directory.cpp:122-150 | the part of a dense batch that was written before a failure is a dense batch itself |
| IndexErase.EraseAgrees | adapters/external_list_ivf.cpp:1047-1063 | after burial and redirection the directory follows every survivor to its new offset; deleted IDs are tombstones |
| IndexErase.EraseContents | adapters/external_list_ivf.cpp:805-1112 | the represented map after a deletion is the old map minus the deleted IDs |
| IndexErase.MovedStores | adapters/external_list_ivf.cpp:933-1004 | records and postings move in step: both stores hold the same moved rows |
| ErasePlan.PlanNames | adapters/external_list_ivf.cpp:837-894 | the sorted offsets of each list are ascending, in range, and exactly those of the rows named by the batch |
| ErasePlan.OffsetsDeletable | adapters/external_list_ivf.cpp:850-876 | the checks on too many rows and on two IDs in one slot cannot fail |
| ErasePlan.CarriedResolved | adapters/external_list_ivf.cpp:895-925 | if every record at a deleted offset carries the ID that led there, the directory leads to all named rows |
| ErasePlan.GroupsEraseBatch | adapters/external_list_ivf.cpp:1047-1063 | the update list has pairwise distinct IDs and holds exactly one burial per deleted and one redirection per moved row |
| ErasePlan.DistinctCount | adapters/external_list_ivf.cpp:815-819 | the set size test detects exactly the batches with a repeated ID |
| IndexLists.Regroup | adapters/external_list_ivf.cpp:643-663 | the grouped rows of each list are its inputs in input order under their own IDs |
| IndexLists.ReserveAll | adapters/external_list_ivf.cpp:668-705 | every touched list keeps its rows and gets exactly the tiles its new size needs; the 32-bit offset limit cannot be exceeded |
| IndexLists.CollectInsertUpdates | adapters/external_list_ivf.cpp:710-722 | the collected updates are those of all lists in list order |
| IndexLists.AppendAll | adapters/external_list_ivf.cpp:773-794 | filling the reserved lanes gives every list its old rows followed by its new ones |
| IndexFiles.AppendRecordFiles | adapters/external_list_ivf.cpp:746-757 | all touched files end with old rows followed by new ones, or on failure all old rows are still published |
| IndexFiles.WriteInsertUpdates | adapters/external_list_ivf.cpp:765-766 | the directory update of an insertion keeps agreement and extends the map; if a change fails, all entries of IDs handed out so far are as they were and the directory still agrees with the old rows |
| IndexDeletion.ResolveBatch | adapters/external_list_ivf.cpp:811-836 | a batch resolves exactly when it is small enough, free of duplicates and all its IDs have active entries inside the lists |
| IndexDeletion.FoundResolves | adapters/external_list_ivf.cpp:824-836 | such entries lead to the named rows if and only if all IDs are live |
| IndexDeletion.PrepareList | adapters/external_list_ivf.cpp:839-1004 | planning, reading and unpacking one list succeeds exactly when its file is complete, the offsets are distinct and every record there carries the ID that led to it |
| IndexDeletion.PrepareAll | adapters/external_list_ivf.cpp:846-1004 | all touched lists are prepared exactly if the files are complete and the directory led to the named rows; a disagreement is reported only when it did not |
| IndexDeletion.CheckMoveSources | adapters/external_list_ivf.cpp:1010-1038 | the directory always agrees with every move source |
| IndexDeletion.CollectEraseUpdates | adapters/external_list_ivf.cpp:1047-1063 | the collected updates are the groups of all lists |
| IndexDeletion.WriteEraseUpdates | adapters/external_list_ivf.cpp:1080-1081 | the directory update of a deletion keeps agreement and removes exactly the deleted IDs from the map; if a change fails, every entry is as before or as the deletion wants it |
| IndexDeletion.CommitFiles | adapters/external_list_ivf.cpp:1069-1073 | all touched files hold their swap-deleted rows, or on failure every surviving row of every list can still be read |
| IndexDeletion.CommitLists | adapters/external_list_ivf.cpp:1089-1106 | every list holds its swap-deleted rows with the lanes behind them empty |
| BatchPlan.GroupByList | adapters/external_list_ivf.cpp:131-155 | the counting sort succeeds exactly for valid list numbers; each list gets its inputs contiguous and in input order; touched lists are exactly the nonempty ones, ascending |
| BatchPlan.PlaceOf | adapters/external_list_ivf.cpp:146-154 | every input has one place in the grouped order |
| MovePlan.BuildMoves | adapters/external_list_ivf.cpp:877-894 | the two scans produce the swap-with-last plan |
| MovePlan.HolesEqualSources | adapters/external_list_ivf.cpp:877-889 | holes and sources are equally many, so the plan error cannot occur |
| MovePlan.PlanEnds | adapters/external_list_ivf.cpp:877-894 | every move goes from a survivor at or above the new size to a deleted slot below it |
| MovePlan.PlanDistinct | adapters/external_list_ivf.cpp:877-894 | no two moves share an end |
| MovePlan.PlanOrder | adapters/external_list_ivf.cpp:877-894 | holes are filled from the first one on with survivors from the last one down |
| MovePlan.PlanCovers | adapters/external_list_ivf.cpp:877-894 | every hole is filled and every survivor above the new size is moved |
| MovePlan.SurvivorKept | adapters/external_list_ivf.cpp:877-894 | every survivor is in the new list, in place unless it lay above the new size |
| MovePlan.OnlySurvivors | adapters/external_list_ivf.cpp:877-894 | the new list holds survivors only, each once |
| RecordStore.ListFileRecordStore.AppendRecords | adapters/list_file_record_store.cpp:123-207 | whatever an earlier failed append left behind, a completed append leaves exactly the pages of the old rows followed by the new; no failure disturbs a published row |
| RecordStore.ListFileRecordStore.PrepareMovesAndTruncate | adapters/list_file_record_store.cpp:288-412 | accepts exactly the well-formed deletions of complete files, returns the observed IDs and page images, changes nothing |
| RecordStore.ListFileRecordStore.CommitPreparedMutation | adapters/list_file_record_store.cpp:414-454 | after all writes and the truncation the file holds exactly the moved rows; stopped anywhere earlier it has lost none that the moves do not overwrite; the lanes behind them in the last page are blank |
| RecordStore.CollectPages | adapters/list_file_record_store.cpp:321-335 | the ordered set of pages to write holds exactly the destination pages and the partial tail page, that of the pages to read also those of sources and of offsets to check |
| RecordStore.RetainedPages | adapters/list_file_record_store.cpp:401-405 | the filter on the new page count drops none of the pages to write |
| RecordStore.CopyMoves | adapters/list_file_record_store.cpp:366-388 | sources are snapshotted before any destination is overwritten |
| RecordAppend.AppendStep | adapters/list_file_record_store.cpp:168-195 | each page write keeps every published row and extends the appended prefix by one page |
| RecordAppend.AppendDone | adapters/list_file_record_store.cpp:196-200 | the closing truncation leaves exactly the old and new rows |
| RecordDeletion.CommitLosesNothing | adapters/list_file_record_store.cpp:437-441 | between any two page writes every surviving record is intact at its source or its destination |
| RecordDeletion.SourcePageIsLast | adapters/list_file_record_store.cpp:390-405 | the only written page that may hold a source is the retained tail page, and it is written last |
| RecordDeletion.CommitResult | adapters/list_file_record_store.cpp:437-447 | all writes and the truncation together leave exactly the moved rows |
| RecordDeletion.CommitClears | adapters/list_file_record_store.cpp:390-400 | and leave no old record in the lanes behind the list |
| RecordDeletion.MovedRowMeaning | adapters/list_file_record_store.cpp:379-388 | each destination holds the source of its last move and every other row is unmoved |
| LocationDirectory.ExternalLocationDirectory.ReadBatch | adapters/external_location_directory.cpp:61-117 | locations in input order, refused exactly when an ID lies beyond the file; each page is read at most once, ascending; each is the entry in the ID's page and lane |
| LocationDirectory.ExternalLocationDirectory.WriteBatch | adapters/external_location_directory.cpp:119-178 | refused exactly for duplicate IDs; otherwise every entry of the file is determined, at every point where a change may fail: the lowest IDs of the batch are written, page by page, all of them on success; updated entries are as written and existing others as before |
| DirectoryPages.GapsExposeZeros | adapters/external_location_directory.cpp:144-168 | unassigned entries read as tombstones or are absent if and only if no page is skipped; a skipped page reads as an active location |
| DirectoryPages.SkippedPageReadsActive | adapters/external_location_directory.cpp:144-168 | an input that shows it: a first update on page 1 makes every entry of page 0 read as row 0 of list 0 |
| DirectoryPages.GroupStep | adapters/external_location_directory.cpp:147-168 | rewriting one page with its group of updates extends the batch by exactly that group |
| LocationDirectory.ReflectsPermuted | adapters/external_location_directory.cpp:119-129 | the effect of a batch does not depend on the order it was given in |
| PostingList.PrepareAppend | adapters/external_list_ivf.cpp:668-705 | resizing keeps all rows, leaves the rest empty, and the empty-lane checks never fail |
| PostingList.Append | adapters/external_list_ivf.cpp:776-794 | packed postings of the old rows followed by the new, empty lanes behind them |
| PostingList.ResizedPostings | adapters/external_list_ivf.cpp:680-698 | growing or shrinking the buffers keeps every row |
| PostingDeletion.PrepareDeletion | adapters/external_list_ivf.cpp:933-1004 | the scratch tiles hold the list after moves and clearing, computed from untouched originals |
| PostingDeletion.CommitDeletion | adapters/external_list_ivf.cpp:1093-1105 | rewriting the scratch tiles leaves the moved rows, sizes adjusted, every later lane zero in codes and 255 in metadata |
| PostingPacking.ValidateEmptyCodes | adapters/pq4_update_packing.cpp:59-93 | passes exactly for ranges inside the buffer whose nibbles are all zero |
| PostingPacking.AppendFlatCodes | adapters/pq4_update_packing.cpp:95-128 | appended rows unpack to the given flat codes and no other row changes; every nibble is in its byte of the 32-row tile |
| PostingPacking.RewriteBlock | adapters/pq4_update_packing.cpp:153-174 | unpacking a rewritten tile gives back the 32 flat codes; every nibble is in its byte |
| PostingPacking.OrElementIsSet | adapters/pq4_update_packing.cpp:95-128 | into an empty lane OR-ing is plain writing |
| PostingPacking.RowOfTile | adapters/pq4_update_packing.cpp:130-151 | a row of a list is the same row of its own tile |
| PostingPacking.WriteMetadataRange | adapters/pq4_update_packing.cpp:176-208 | succeeds exactly on empty destination rows; they read back as given and no other row changes |
| PostingPacking.PackMetadata | src/fastscan.cpp:58-98 | the plane transpose reads back every record, and 255 behind them; norm, scale and error are 32 bytes apart in tiles of 96 |
| PostingPacking.RewriteMetadataBlock | adapters/pq4_update_packing.cpp:245-291 | unpacking a rewritten metadata tile gives back its records |
| Pq4Layout.AddressInjective | src/exact_pq4.cpp:74-84 | no two (row, subquantizer) pairs share a byte half |
| Pq4Kernel.AccumulateScalar | src/exact_pq4.cpp:183-210 | for every block size and its accessor the scalar reference adds up every row in subquantizer order; its argument checks are exact |
| Pq4Kernel.AccumulateRegisters | src/exact_pq4.cpp:67-180 | for an arbitrary addition the register kernel gives every row, padding included, the scalar value for blocks of 32 |
| Pq4Kernel.UnpackNibbles | src/exact_pq4.cpp:95-104 | shift and mask on 16-bit lanes extracts both nibbles of every byte |
| Pq4Kernel.RestoreTile | src/exact_pq4.cpp:127-130 | the closing permutation puts lane sums back into row order |
| UnevenScan.KernelComputesDot | src/fastscan.cpp:1279-1287 | over a packed list the kernel adds up exactly the dot product of the query with the decoded row |
| UnevenScan.ScanDots | src/fastscan.cpp:1275-1288 | one table and one kernel run give the dot products of all rows of the packed list |
| IntervalAccumulator.FusedIntervalAccumulator.Finish | src/fastscan.cpp:321-352 | for every split into blocks and batches a scanned row is a candidate if and only if fewer than R scanned rows have a smaller (estimate, ID), or R is 0, and its lower endpoint is at most the bound; the bound is an upper endpoint with fewer than K below it and at least K at or below it; candidates ascend by (estimate, ID); truncation is reported exactly when R > 0 and more than R rows were scanned |
| PlainSelection.SelectIsChosen | src/fastscan.cpp:321-352 | what sorting, cutting and filtering compute is exactly that choice, endpoints and comparisons written out |
| PlainSelection.TestPasses | include/recastlib/types.h:86-114 | the lower tests in terms of estimate - z * uncertainty, on both paths |
| IntervalAccumulator.FusedIntervalAccumulator.AddScalarBlock | src/fastscan.cpp:209-236 | the portable block keeps the invariant and accounts for exactly its rows and endpoints |
| IntervalAccumulator.FusedIntervalAccumulator.Add16 | src/fastscan.cpp:238-319 | the 16-lane batch with stale masks keeps the same invariant |
| IntervalAccumulator.FusedIntervalAccumulator.Create | src/fastscan.cpp:187-207 | accepts exactly the valid parameters; NaN, infinite and negative scores are refused; the accumulator keeps the given score |
| IntervalAccumulator.FusedIntervalAccumulator.FuzzyShrinkShortlist | src/fastscan.cpp:538-574 | the fuzzy shrink keeps a true rank prefix of the size announced; its size-mismatch error is unreachable |
| IntervalAccumulator.FusedIntervalAccumulator.ShrinkShortlist | src/fastscan.cpp:576-618 | the exact cut on packed rank keys keeps the first R in rank order |
| IntervalAccumulator.FusedIntervalAccumulator.CompactLanes | src/fastscan.cpp:442-487 | in-place compress-stores of 16 lanes equal filtering |
| Reservoir.HoldsAfterBatch | src/fastscan.cpp:271-317 | admission against a stale threshold never drops a row the shortlist needs |
| Reservoir.HoldsAfterFuzzyShrink | src/fastscan.cpp:538-574 | a fuzzy cut keeps the reservoir a rank prefix of everything scanned |
| Reservoir.ExactCut | src/fastscan.cpp:576-618 | keys at most the R-th smallest key are exactly the first R rows |
| UpperHeap.UpdateAllTake | src/fastscan.cpp:388-397 | the bounded heap holds the K smallest upper endpoints |
| UpperHeap.StaleRejectsHarmless | src/fastscan.cpp:253-269 | endpoints masked by the heap top at the start of a batch would not have entered it |
| Float32.ValueOrder | src/fastscan.cpp:359-365 | comparing sign and magnitude is comparing the numbers denoted, both zeros equal |
| Float32.SmallValues | src/fastscan.cpp:355-365 | patterns up to the second binade denote multiples of 2^-149 |
| Float32.NextBinade | src/fastscan.cpp:355-365 | one more in the exponent field doubles the number |
| Float32.SignNegates | src/fastscan.cpp:355-365 | the sign bit negates the number |
| Float32.ValueOfOne | src/fastscan.cpp:355-365 | 0x3f800000 denotes one |
| Float32.KeyOrder | src/fastscan.cpp:359-365 | ordered keys compare as the floats do |
| Float32.KeyRoundTrip | src/fastscan.cpp:367-374 | decoding an ordered key gives the float back, -0 as +0 |
| Float32.RankKeyOrder | src/fastscan.cpp:376-379 | 64-bit rank keys order rows by (estimate, ID) |
| Float32.KeysFromBits | src/fastscan.cpp:359-379 | the masks, XOR, complement, shift and OR on bit-vectors compute the ordered key and the rank key |
| Float32.FloatFromBits | src/fastscan.cpp:367-374 | and the decoding of an ordered key |
| FuzzyRank.FindFuzzyRankThreshold | src/interval_selection_internal.h:63-140 | for distinct IDs the result describes a true rank prefix whose size is the announced one, within the requested bounds |
| Selection.LowerTestsAgree | src/fastscan.cpp:489-536 | the 16-lane and the portable lower test agree on a row exactly when it is not doubly infinite |
| Selection.UppersAgree | src/fastscan.cpp:1094-1130 | the 16-lane upper endpoints equal the portable ones |
| SelectionGuarantees.NeverStarves | src/fastscan.cpp:620-641 | on the portable path the K best estimates always survive, whatever the radii |
| SelectionGuarantees.LanesCanStarve | src/fastscan.cpp:506-512 | a concrete row on which the 16-lane path returns nothing |
| SelectionGuarantees.LanesStarveExactly | src/fastscan.cpp:489-536 | the 16-lane path keeps K candidates if and only if K shortlisted rows are not doubly infinite |
| SelectionGuarantees.Lossless | src/fastscan.cpp:321-352 | with valid intervals and no truncation refining the candidates finds the same K nearest as refining every row |
| SelectionGuarantees.EndpointsAround | include/recastlib/types.h:86-114 | lower and upper endpoints enclose the estimate |
| Search.BuildSpans | adapters/external_list_ivf.cpp:1132-1151 | consecutive nonempty token spans, refused exactly when tokens exceed 32 bits |
| Search.FindSpan | adapters/external_list_ivf.cpp:1168-1176 | the binary search finds the span of every token; the invalid-token error cannot occur |
| Search.TokensNumberRows | adapters/external_list_ivf.cpp:1144-1150 | tokens number the scanned rows, hence are distinct |
| Search.ScanIntervalCandidates | src/fastscan.cpp:1381-1409 | accepted if and only if the parameters are valid and K rows are scanned; one accumulator over all probed lists then returns the global selection of their rows at the given score |
| IndexSearch.SelectCandidates | adapters/external_list_ivf.cpp:1114-1186 | succeeds if and only if the query is accepted and K rows are selected, with a distinct error for each failure; the decoded candidates are exactly the selected rows |
| IndexSearch.SurviveExactly | src/fastscan.cpp:489-536 | K rows are selected always on the portable path, on the 16-lane path if and only if K shortlisted rows are not doubly infinite |
| IndexSearch.SearchLists | adapters/external_list_ivf.cpp:1188-1220 | select, decode and refine return the nearest of the selected rows, under the stated hypotheses those of all probed rows; success and the shortage error have exact conditions |
| IndexSearch.SearchOutcomes | adapters/external_list_ivf.cpp:1114-1220 | in terms of what the caller sees: a valid query, enough rows and proper distances in the probed lists guarantee success |
| IndexSearch.ProbeFits | adapters/external_list_ivf.cpp:1133-1155 | a probe of distinct lists never exceeds the active count nor the token space |
| IndexSearch.HonestSearch | adapters/list_file_aio_refiner.cpp:386-482 | the hypotheses on the kernel can be met together, by a kernel that reads exactly what lies in the files |
| IndexSearch.ScanIsProbe | adapters/external_list_ivf.cpp:1132-1151 | scanning the spans is scanning every row of the probed lists once |
| IndexSearch.ScanUntied | adapters/external_list_ivf.cpp:1132-1151 | no two scanned rows yield the same (distance, ID) pair |
| ReadPlans.BuildReadPlans | adapters/list_file_aio_refiner.cpp:86-146 | the plans are the maximal runs of touching pages, with every record addressed inside its request; overflow is the only error |
| ReadPlans.EachCandidateOnce | adapters/list_file_aio_refiner.cpp:86-146 | every candidate is in exactly one plan, once |
| ReadPlans.PlansApart | adapters/list_file_aio_refiner.cpp:107-135 | plans of one list are disjoint and not adjacent, in ascending order |
| ReadPlans.PagesExact | adapters/list_file_aio_refiner.cpp:86-146 | pages read are exactly the distinct (list, page) pairs of the candidates |
| PlanProcessing.ItemRecord | adapters/list_file_aio_refiner.cpp:204-229 | the byte position in the request holds the candidate's record |
| PlanProcessing.ProcessPlan | adapters/list_file_aio_refiner.cpp:204-229 | processing feeds exactly the plan's records to the heap, and fails exactly on an invalid distance |
| AioPipeline.RefineBlocking | adapters/list_file_aio_refiner.cpp:249-291 | the blocking loop succeeds exactly when all reads and distances are good, with the best of its plans |
| AioPipeline.RefineAio | adapters/list_file_aio_refiner.cpp:386-482 | for every kernel: no plan processed twice, in-flight requests within the queue depth, termination, and the same heap as the blocking loop |
| AioPipeline.Arm | adapters/list_file_aio_refiner.cpp:348-361 | only an idle slot is armed; plans handed out are processed or in flight, each once |
| AioPipeline.HandleEvent | adapters/list_file_aio_refiner.cpp:442-473 | one completion processes its plan, frees its slot and decreases the remaining work by one |
| AioPipeline.HonestKernel | adapters/list_file_aio_refiner.cpp:416-441 | for every request some kernel reports only what is in flight, makes progress and reads all that exists |
| Refiner.BatchEnd | adapters/list_file_aio_refiner.cpp:537-543 | each batch of open files covers exactly the plans of its lists |
| Refiner.DistinctLists | adapters/list_file_aio_refiner.cpp:148-156 | the lists of the plans, each once, ascending |
| Refiner.Refine | adapters/list_file_aio_refiner.cpp:503-583 | the K nearest candidates by (distance, Logical ID), for every queue depth and file limit; with a kernel that reads what is there and file positions that fit their type it succeeds if and only if the request is accepted and every candidate has a record with a proper distance; pairs ascend by distance and then ID, and every candidate left out has a larger distance than each of them, or the same one and no smaller ID; each pair is the ID and exact distance of the record in the page and lane of a candidate's offset |
| ExactTopK.InsertExact | adapters/list_file_aio_refiner.cpp:36-42 | push and pop keep the K smallest pairs; exactly the non-finite and negative distances are refused; of equal distances the larger ID goes first |
| ExactTopK.TopKIsNearest | adapters/list_file_aio_refiner.cpp:26-42 | an answer is the top K if and only if it is ordered by (distance, ID), part of all pairs, K long or all, and no pair left out comes before a pair of it |
| ExactTopK.OrderIrrelevant | adapters/list_file_aio_refiner.cpp:26-53 | the result does not depend on the order of insertion |
| WaterFilling.FindLevel | src/uneven_product_quantizer.cpp:100-121 | the poured bits exceed the budget by at least 0 and at most (d-1) tolerances |
| WaterFilling.BitBudgets | src/uneven_product_quantizer.cpp:86-126 | budgets are non-negative, share one level, vanish exactly at heights at or below it, and sum to the target up to (d-1)*1e-12 |
| WaterFilling.BudgetCheckPasses | src/uneven_product_quantizer.cpp:128-137 | the preservation check passes for every dimension up to 40000 times the group count |
| Variances.ComputeVariances | src/uneven_product_quantizer.cpp:55-71 | population variances, accumulated row by row |
| Variances.VarianceVanishes | src/uneven_product_quantizer.cpp:73-78 | a variance is zero if and only if all rows agree at the coordinate |
| Variances.VarianceIs | src/uneven_product_quantizer.cpp:54-73 | the variance is the mean of the squares less the square of the mean |
| Variances.ComputeHeights | src/uneven_product_quantizer.cpp:73-91 | refused exactly when nothing varies; each height is half the logarithm of the coordinate's variance, or of 1e-12 times the largest variance if that is larger; for a monotone logarithm a larger variance never gets the smaller height |
| CapacityPlanner.PlanPairedCapacities | src/uneven_product_quantizer.cpp:255-329 | capacities are sorted, sum to d/2, lie in [1, maximum] and score no worse than the uniform start, each pass winning by the tolerance; fewer than 16 passes end in a profile that no unit transfer improves; the width limit is the only error |
| CapacityPlanner.BestTransfer | src/uneven_product_quantizer.cpp:281-325 | one pass over distinct widths finds the best of all legal unit transfers up to the tolerance, as a valid profile, or shows that none gains the tolerance |
| CapacityPlanner.SameWidthTransfer | src/uneven_product_quantizer.cpp:284-298 | skipping repeated widths loses no trial: the sorted result depends on the two widths only |
| CapacityPlanner.TransferProfile | src/uneven_product_quantizer.cpp:311-315 | a unit transfer followed by sorting keeps a profile a profile |
| CapacityPlanner.TrialIs | src/uneven_product_quantizer.cpp:306-310 | a trial profile has one width less by one and another more by one, sorted |
| CapacityPlanner.InitialIsUniform | src/uneven_product_quantizer.cpp:258-266 | the starting profile covers half the dimensions with ascending widths that differ by at most one |
| CapacityPlanner.DoubledSorted | src/uneven_product_quantizer.cpp:147-158 | sorting the doubled capacities keeps pairs together, so widths come in even runs |
| DimensionAssignment.AssignDimensions | src/uneven_product_quantizer.cpp:140-253 | a partition of all dimensions with exact capacities and exact recorded loads: dimensions placed by falling demand, each into the lightest group with room, then swaps that lower the sum of squared loads until none gains the tolerance or eight were made; the score is the squared miss of four bits a group relative to 16 a group |
| DimensionAssignment.RelativeRanks | src/uneven_product_quantizer.cpp:242-252 | among profiles of equally many groups the lower score has the lower squared miss |
| DimensionAssignment.FillGroups | src/uneven_product_quantizer.cpp:168-198 | complete, with every group exactly full: the dimensions in order of falling budget, equal budgets by number, each placed into the lightest group that then has room |
| DimensionAssignment.BestGroup | src/uneven_product_quantizer.cpp:178-198 | some group always has room; the chosen one has room, no later one has a smaller load or a nearly equal one and less capacity, an earlier one is lighter by at most a tolerance a group, and without nearly equal but different loads it is the first of least load and then least capacity |
| DimensionAssignment.CloseLoadsDrift | src/uneven_product_quantizer.cpp:178-198 | an input on which the chosen group is heavier than one with room by more than the tolerance: nearly equal loads add up along the scan |
| DimensionAssignment.LightestExactly | src/uneven_product_quantizer.cpp:178-198 | the chosen group is a lightest one with room if and only if no later group with room has a nearly equal load and less capacity than the choice made up to the last lightest one |
| DimensionAssignment.FindBestSwap | src/uneven_product_quantizer.cpp:200-230 | the swap found lowers the sum of squares most among all swaps and every swap before it in scan order by strictly less, or none lowers it by the tolerance |
| DimensionAssignment.ImproveBySwaps | src/uneven_product_quantizer.cpp:200-240 | at most eight swaps, each strictly lowering the sum of squared loads; fewer than eight means a local optimum |
| DimensionAssignment.SwapLowersScore | src/uneven_product_quantizer.cpp:236-252 | a swap changes the squared distance from the target by exactly its delta |
| UnevenLayout.BuildBuckets | src/uneven_product_quantizer.cpp:331-373 | buckets are the runs of equal widths tiling groups and bytes; refused exactly when the widths are not paired; no run is split |
| UnevenLayout.ValidateLayout | src/uneven_product_quantizer.cpp:375-405 | passes exactly for contiguous even buckets that hold every coordinate once and waste no byte |
| UnevenLayout.BuiltLayoutValid | src/uneven_product_quantizer.cpp:331-405 | buckets built from a partition into paired groups always validate |
| UnevenLayout.CompleteIsPaired | src/uneven_product_quantizer.cpp:331-346 | a planned assignment always pairs its widths |
| UnevenTraining.PlanLayout | src/uneven_product_quantizer.cpp:422-437 | planning from the training rows fails only on rows that do not vary, on the width limit or beyond 40000 coordinates a group; every later check passes; the budgets are the heights above one level and add up to four bits a group within the checked tolerance; two coordinates off the floor that both get bits differ by half the difference of their logarithms, and for an increasing logarithm one that varies more gets more bits unless neither gets any; groups and loads are the assignment for the pair widths of a climb from the uniform profile, which no unit transfer improves by the tolerance unless sixteen were made; the loads miss their bits by no more than those of that starting profile |
| UnevenCodec.Decode | src/uneven_product_quantizer.cpp:549-580 | every bucket's centroids are at the bucket's coordinates, through byte ranges and the permutation; coordinate t of a group is that of the centroid named by the group's half byte |
| UnevenCodec.ComputeInnerProductTable | src/uneven_product_quantizer.cpp:582-593 | entry 16g+k is the inner product of group g's query coordinates with centroid k |
| UnevenCodec.LookupIdentity | src/uneven_product_quantizer.cpp:549-593 | for every query and code the sum of looked-up entries is the dot product with the decoded vector, the sum of query[i] * x[i] |
| UnevenCodec.ComputeCode | src/uneven_product_quantizer.cpp:517-543 | nibble g of the code is the choice of group g's own quantizer, made on the vector's coordinates in the group, in the low half of a byte for even and in the high half for odd groups |
| UnevenCodec.ChoiceSeesGroup | src/uneven_product_quantizer.cpp:407-420 | that choice is made on exactly the coordinates assigned to the group |
| UnevenCodec.ReencodeRoundTrip | src/uneven_product_quantizer.cpp:517-580 | re-encoding a decoded vector gives the code back when every centroid of a bucket encodes as itself |
| Checkpoint.CheckpointRoot.Save | adapters/external_list_ivf.cpp:400-489 | succeeds if and only if the three replacements do; whenever it stops the manifest names a complete generation of one checkpoint: the new one after success, the previous one otherwise; failed removals of the old files do no harm, and files of other generations are left alone |
| Checkpoint.CheckpointRoot.Load | adapters/external_list_ivf.cpp:491-572 | on a root with any number of interrupted checkpoints behind it: finds the published snapshot, with buffers cut to whole logical tiles, takes over its generation, and succeeds if and only if a checkpoint was published, every record file has exactly the pages its recorded size needs and the counters are in order |
| Restart.SameSizesLoad | adapters/external_list_ivf.cpp:534-547 | a load over given files is accepted if and only if every file has exactly the pages of its list at the checkpoint; a checkpoint of a complete index loads |
| Restart.LoadConsistent | adapters/external_list_ivf.cpp:549-572 | an accepted load stands for the rows spelled out by the postings of the checkpoint and the records now in the files and for no others, consistently so if and only if the directory agrees with them; they are the rows of the checkpoint if and only if the files still hold those |
| Restart.LoadRestores | adapters/external_list_ivf.cpp:549-572 | if files and directory still hold the rows of the checkpoint, the loaded state is consistent and represents the same map |
| Restart.StoppedUndisturbed | adapters/external_list_ivf.cpp:599-803 | insertions that stopped part way leave files and directory in such a state |
| Restart.ReplacedRowsAccepted | adapters/external_list_ivf.cpp:537-547 | rows deleted after the checkpoint and as many inserted into the same lists pass every check, and no choice of rows makes what is loaded consistent |
| Restart.ReplaceAfterCheckpoint | adapters/external_list_ivf.cpp:537-547 | such a run: one row inserted, checkpointed and deleted, then another one inserted |
| Restart.AlwaysCovered | adapters/external_list_ivf.cpp:437-444 | a checkpoint of a consistent index never finds a list shorter than its logical tiles |
| Restart.Reopen | adapters/external_list_ivf.cpp:368-393 | opening existing storage succeeds exactly if a checkpoint was published and its sizes fit; the index stands for the rows read back, is valid exactly if the directory agrees with them, and over undisturbed storage is complete and represents the map of the checkpoint |
| Restart.CheckpointThenReopen | adapters/external_list_ivf.cpp:400-572 | a completed checkpoint of a complete index followed by a restart gives a valid index with the same map |
| PostingFile.ReadPostings | adapters/external_list_ivf.cpp:549-568 | succeeds exactly on files of the right length and reads back what was written |
| PostingFile.BytesDetermine | adapters/external_list_ivf.cpp:434-454 | sizes and bytes determine the trimmed lists |
| PostingFile.TrimmedHolds | adapters/external_list_ivf.cpp:437-450 | cutting buffers to the logical tiles keeps every row |

## Left out

- UnevenCodec.ReencodeRoundTrip: the choice of the nearest centroid inside a bucket is a parameter.
- IndexDeletion.PrepareList: planning, reading and unpacking run list by list instead of phase by phase; none of them changes anything, so only the order in which two lists' read errors would be reported differs.
- ExternalListIndex.ExternalListRecastIndex.EraseBatch: what an interrupted deletion leaves behind is not repaired by the source either; no later call on such an index is modelled.
- AioPipeline.RefineAio: a submission that the kernel accepts in several parts is one step.
- Checkpoint.CheckpointRoot.Save: temporary files, the quantizer and router files and manifest format fields are not represented.
- Pq4Kernel.AccumulateScalar: the accessor is Faiss's for blocks of 32 and arbitrary for other block sizes.
- Unused bytes at the end of record and directory pages are not represented, nor are byte offsets of page writes.
- `read_logical_ids` of the record store and `compute_distance_table` of the quantizer: the same shapes as the directory read and the inner-product table.
- The unordered order in which a hash set or a parallel loop visits lists: touched lists are visited in ascending order, each loop body touching one list.
- Locks, threads, OpenMP, statistics, timing, CPU detection, page alignment and direct I/O.
- Routing, PCA/OPQ, k-means, uint8 lookup tables, the uncertainty model and Faiss itself.
- Floating-point rounding, NaN and the payload byte formats.
- Model-file headers and checksums.
