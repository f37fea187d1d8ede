# A Dafny model of a video analytics pipeline

This project models six parts of the repository in Dafny and proves what they are for.

1. **Linear assignment** (`Assignment`, `Lapjv`, `ShortestPath`, `Solver`, `PartialMatching`, `LinearAssignment`).
   The dense Jonker-Volgenant solver, array by array: column reduction with reduction transfer, augmenting row
   reduction, the shortest augmenting path search and augmentation. Solving ends with inverse permutations of least
   total cost, proved by a dual certificate that every phase maintains. The tracker's wrapper pads a rectangular matrix
   so that the solver's optimum decodes to a partial matching that is best for a cost limit.
2. **The ByteTrack life cycle** (`Boxes`, `TrackLists`, `Associations`, `Rounds`, `ByteTracker`, `LifeCycle`,
   `Revival`). One update matches tracks and detections in three rounds, each by a best assignment under its threshold,
   and moves tracks between the tracked, lost and removed lists. The class invariant of `ByteTracker.Tracker` holds
   between all updates, so over every run.
3. **The processing pipeline** (`Graph`, `Pipeline`, `SyncPipeline`, `AsyncProtocol`, `AsyncGuarantees`,
   `AsyncProgress`, `AsyncPipeline`). A graph with mirrored parent and child lists, its decomposition into chains, the
   breadth-first run, which executes a node once for each way that leads to it, and the concurrent protocol as a state
   machine whose steps are the critical sections. Its invariant is proved for every interleaving, and when a run can
   come to rest; the class in `AsyncPipeline` carries out the same steps with loops over its maps.
4. **Seeking and demuxing** (`MediaTime`, `PacketQueue`, `PacketFeed`, `DemuxerQueue`, `StreamReader`, `Stream`).
   The queues of a demuxer against the packets of the file, positioning with growing steps, and the protocol by which
   the streams of one file share a seek.
5. **The decoder's time line** (`Decoder`). The repaired clock and the one frame of look-ahead.
6. **Non-maximum suppression** (`Nms`). The greedy loop against a description that admits one result only.

`Options` holds a shared helper type, and `Pixels` counts the pixels of rectangles, against which both overlap tests
are checked. `dafny verify dfyconfig.toml` checks everything.

## Conventions

- Costs, scores and coordinates are `real`, counters and time stamps unbounded `int`: rounding, NaN and machine
  overflow are not modelled. Time stamps are microseconds; the "no stamp" value is the least 64-bit integer and takes
  part in comparisons as such, as in the program.
- What lies outside comes in as a parameter: the motion filter (`TrackLists.Filter`), the codec's answers
  (`Decoder.DecoderVideo.codec`), the file as a finite packet sequence with an arbitrary outcome for every seek
  (`DemuxerQueue.Parser`), and where the demuxer lands and which checkers pass (`StreamReader.World`).
- A track is a value: the program's lists hold copies, and copies of the same track in different lists diverge. The
  slots of `Associations` stand for the pointers into the two lists that live during one update.
- A thrown exception or an exit is an `ok`/`threw` result or an empty `Option`, with the state it leaves behind.

## Findings

Places where the code does less than one might expect, each with the exact condition and an input at which it shows.

- Without padding, `lapjv` never copies the solution out: the vectors it returns stay all zero, which is an assignment
  exactly when there is one row (`LinearAssignment.UnpaddedIsAssignmentIff`); any two rows and two columns are given
  column 0 twice (`LinearAssignment.UnpaddedPair`). The tracker always pads.
- The row scan of the solver starts its second-best value at the sentinel 1000000. It finds a least entry exactly when
  the first entry is one or some entry is below the sentinel (`Lapjv.ScanRowLeastIff`). No matrix of costs below the
  sentinel and less than the sentinel apart brings it a row on which it fails (`Lapjv.TwoReducedCostsBelowLarge`); one
  of costs below the sentinel, but farther apart than it, does (`Lapjv.ScanRowMisses`).
- A lost track that is given up stays in the lost list for one more frame, because the frame's removals are recorded
  after the subtraction. In that frame the first round brings it back, although it is on record as removed, if every
  best matching of predicted boxes and high-score detections uses it, and only if one does (`LifeCycle.RevivedByBest`);
  in terms of distances, see `LifeCycle.RevivedIfNear`. Four frames are enough (`Revival.RevivalRun`). When such a
  track is lost again it vanishes from both lists at once (`LifeCycle.LostAfterRemovalVanishes`).
- Chains partition the nodes of an acyclic graph exactly when no node inside a chain has a second parent
  (`Pipeline.ChainsPartitionIff`); those of a diamond overlap (`Pipeline.DiamondChainsOverlap`).
- A synchronous run executes a node once for each way that leads to it, so none twice exactly when every node reachable
  from the root, other than the root, has exactly one reachable parent (`SyncPipeline.NoRepeatIff`); the node that
  closes a diamond runs twice (`SyncPipeline.DiamondRunsTwice`).
- The asynchronous pipeline accepts a null frame. From then on the root is Ready without data for good, exactly in
  that case (`AsyncGuarantees.JammedIffNullAccepted`), and a run can come to rest exactly if that never happened
  (`AsyncProgress.MayRestIff`). One null frame handed to a new pipeline does it (`AsyncProgress.NullFrameJams`).
- While draining, the decoder hands out every frame held back, queued or still in the codec exactly when their stamps
  grow strictly; at the first two equal ones it hands out nothing, which callers take for the end of the stream
  (`Decoder.Drain`, `Decoder.ReleasedIff`). If the first two pictures after a flush have the same best-effort
  stamp, nothing comes out at all (`Decoder.EqualStampsAreLost`, `Decoder.TwoPicturesAreLost`).

## Model

| member | source | states |
|---|---|---|
| Assignment.PermutationCovers | src/thirdparty/bytetrack/lapjv.cpp:349-371 | A distinct sequence of n column indices below n misses none, so a full assignment uses every column. |
| Assignment.PriceOfPermutation | src/thirdparty/bytetrack/lapjv.cpp:349-371 | Under any column prices all permutations pay the same total price. |
| Assignment.DualityCertificate | src/thirdparty/bytetrack/lapjv.cpp:349-371 | Column prices under which every row is served at its least reduced cost certify that a permutation has least cost among all. |
| Lapjv.ColumnMinima | src/thirdparty/bytetrack/lapjv.cpp:16-34 | Every column is priced at its least cost and names the first row that reaches it. |
| Lapjv.KeepLastColumns | src/thirdparty/bytetrack/lapjv.cpp:37-55 | Of the columns that chose one row the last is kept, the others are free, and a row is marked as not unique exactly when it lost one. |
| Lapjv.LeastElsewhere | src/thirdparty/bytetrack/lapjv.cpp:65-79 | The least reduced cost of a row outside its own column, capped by the sentinel. |
| Lapjv.Transfer | src/thirdparty/bytetrack/lapjv.cpp:64-81 | Lowering the price keeps every assigned row at its least reduced cost and makes the row's runner-up tie, unless the sentinel capped it. |
| Lapjv.TransferReduction | src/thirdparty/bytetrack/lapjv.cpp:56-84 | Free rows are listed exactly once and complementary slackness survives all transfers. Each row chosen exactly once ends tied with its runner-up at the prices of its turn, unless the sentinel capped it; other prices stay. |
| Lapjv.ColumnReduction | src/thirdparty/bytetrack/lapjv.cpp:11-85 | Column reduction ends with an injective partial assignment, tight rows, an exact free list, and never-assigned columns still at their minimum. |
| Lapjv.AssignKeepsSlack | src/thirdparty/bytetrack/lapjv.cpp:131-166 | Handing a column, perhaps at a lower price, to a row that is tight there keeps all other assigned rows tight. |
| Lapjv.AssignKeepsFreeRows | src/thirdparty/bytetrack/lapjv.cpp:143-166 | When a row takes a column, exactly the thrown-out owner replaces it among the free rows. |
| Lapjv.ScanRowFindsTwoSmallest | src/thirdparty/bytetrack/lapjv.cpp:109-130 | If two entries are below the sentinel the scan returns a least entry and a least one among the others, with their positions. |
| Lapjv.ScanRowLeastIff | src/thirdparty/bytetrack/lapjv.cpp:109-130 | On any row the scan finds a least entry exactly when the first is one or some entry is below the sentinel. |
| Lapjv.ScanRowMisses | src/thirdparty/bytetrack/lapjv.cpp:109-130 | A matrix of costs below the sentinel, but farther apart than it: at the prices of the column minima the scan of its first row picks the larger of two entries, and with it the dearer assignment. |
| Lapjv.TwoSmallest | src/thirdparty/bytetrack/lapjv.cpp:104-130 | The scan loop over a row of the matrix computes that function of the reduced costs. |
| Lapjv.TwoReducedCostsBelowLarge | src/thirdparty/bytetrack/lapjv.cpp:109-144 | A free row has two reduced costs no larger than the costs lie apart, one of them in a column never assigned, so the sentinel is never mistaken for one of the two smallest. |
| Lapjv.RowStep | src/thirdparty/bytetrack/lapjv.cpp:131-166 | Whatever column the round decides on, slackness and prices of free columns survive, the row is tight there, and within budget it has a rival column. |
| Lapjv.Requeue | src/thirdparty/bytetrack/lapjv.cpp:146-163 | The displaced row goes to the slot just read or to the end of the new list; no unread free row is overwritten and none is lost. |
| Lapjv.ReduceRow | src/thirdparty/bytetrack/lapjv.cpp:98-168 | One round changes exactly one entry of x and y, at most one price, and the queue as decided by price change and budget. |
| Lapjv.RowPlaced | src/thirdparty/bytetrack/lapjv.cpp:98-168 | A round keeps the reduced state: matching, slackness and the list of free rows. |
| Lapjv.SoundRound | src/thirdparty/bytetrack/lapjv.cpp:98-168 | A round from a sound state ends in one and either moves on or spends budget. |
| Lapjv.AugmentingRowReduction | src/thirdparty/bytetrack/lapjv.cpp:89-172 | Terminates within nFree * (n + 1) rounds with no more free rows than before and the reduced state intact. |
| ShortestPath.FindLeast | src/thirdparty/bytetrack/lapjv.cpp:176-195 | Moves exactly the nearest TODO columns to the front and keeps cols a permutation and READY untouched. |
| ShortestPath.LookAt | src/thirdparty/bytetrack/lapjv.cpp:211-232 | Relaxing one column has the labels, the SCAN end and the early exit of the labelled search. |
| ShortestPath.RelaxColumn | src/thirdparty/bytetrack/lapjv.cpp:199-237 | After one SCAN column no TODO label can be improved through it, or a free column at the current level was reached. |
| ShortestPath.ScanColumns | src/thirdparty/bytetrack/lapjv.cpp:199-237 | Scanning ends with SCAN empty and all relaxed, or early with lo and hi unchanged and a free column at the level. |
| ShortestPath.RepricingKeepsSlack | src/thirdparty/bytetrack/lapjv.cpp:293-301 | The price update of READY columns keeps every assigned row at its least reduced cost. |
| ShortestPath.ArrivedPath | src/thirdparty/bytetrack/lapjv.cpp:245-307 | The predecessor chain from the free column is acyclic, leads to the start row, is tight edge by edge after repricing, and is shortest. |
| ShortestPath.ArrivedIsShortest | src/thirdparty/bytetrack/lapjv.cpp:245-307 | No alternating way to any free column is shorter than the one found. |
| ShortestPath.NextLevel | src/thirdparty/bytetrack/lapjv.cpp:265-283 | The next level is put on SCAN; the search ends with a free column in it, if any, and no column after that one in the level is free. |
| ShortestPath.Reprice | src/thirdparty/bytetrack/lapjv.cpp:293-301 | Exactly the READY columns give up what they are short of the level. |
| ShortestPath.FindPath | src/thirdparty/bytetrack/lapjv.cpp:245-307 | A free column is always reached; afterwards slackness holds under the new prices and the predecessors form a tight, shortest augmenting path. |
| Solver.FlipPath | src/thirdparty/bytetrack/lapjv.cpp:319-336 | Walking back along the predecessors hands every column of the path to its predecessor row and nothing else, in at most n steps. |
| Solver.AugmentRow | src/thirdparty/bytetrack/lapjv.cpp:319-341 | One more row is assigned and the reduced state holds again. |
| Solver.Augment | src/thirdparty/bytetrack/lapjv.cpp:311-345 | All free rows are assigned and the return value is 0. |
| Solver.ReducedIsOptimal | src/thirdparty/bytetrack/lapjv.cpp:349-371 | With no free row left, x and y are inverse permutations and x is optimal. |
| Solver.Solve | src/thirdparty/bytetrack/lapjv.cpp:349-371 | For every n >= 1 and every matrix of costs below the sentinel and less than the sentinel apart the solver returns 0 and inverse permutations of least total cost. |
| PartialMatching.PaddedCost | src/thirdparty/bytetrack/utils.cpp:302-356 | The cost of a permutation of the padded matrix is the gain of the partial matching it decodes to plus a constant. |
| PartialMatching.CompleteIsPermutation | src/thirdparty/bytetrack/utils.cpp:384-400 | Every partial matching is decoded from some permutation of the padded matrix. |
| PartialMatching.DecodeIsBest | src/thirdparty/bytetrack/utils.cpp:302-400 | A least-cost permutation of the padded matrix decodes to a partial matching that minimises the sum of cost minus limit. |
| PartialMatching.BestRespectsLimit | src/thirdparty/bytetrack/utils.cpp:302-400 | Matched pairs cost at most the limit, unmatched rows and columns at least the limit. |
| PartialMatching.BestHasNoBetterSwap | src/thirdparty/bytetrack/utils.cpp:302-400 | Exchanging the partners of two matched rows cannot pay off. |
| LinearAssignment.CostMax | src/thirdparty/bytetrack/utils.cpp:321-336 | Without a limit the padding exceeds every cost by at least one and is no larger than needed. |
| LinearAssignment.ExtendCost | src/thirdparty/bytetrack/utils.cpp:302-356 | The buffer loops build exactly the padded matrix. |
| LinearAssignment.DecodeSolution | src/thirdparty/bytetrack/utils.cpp:382-412 | Cutting off the padding leaves inverse partial matchings that are best for the limit, with the total cost of the pairs. |
| LinearAssignment.SolvePadded | src/thirdparty/bytetrack/utils.cpp:274-431 | The whole wrapper: exits exactly for a rectangular matrix without padding, otherwise a best partial matching with its cost if padded. If not padded, untouched zero vectors and the sum of the first column as cost; without columns, the fill value once per row. |
| LinearAssignment.NoLimitIsFull | src/thirdparty/bytetrack/utils.cpp:321-345 | Without a limit the best matching leaves no pair of a row and a column over, and no matching of that kind costs less. |
| LinearAssignment.FullPairCount | src/thirdparty/bytetrack/utils.cpp:321-345 | A matching that leaves no such pair over has as many pairs as the shorter side has members. |
| LinearAssignment.UnpaddedIsAssignmentIff | src/thirdparty/bytetrack/utils.cpp:384-420 | The vectors returned without padding are an assignment exactly for one row. |
| LinearAssignment.UnpaddedPair | src/thirdparty/bytetrack/utils.cpp:384-420 | Two rows and two columns solved without padding: both rows are given column 0. |
| LinearAssignment.LinearAssign | src/thirdparty/bytetrack/utils.cpp:120-162 | Matches and leftovers partition rows and columns and are those of one matching that is best for the threshold; an empty matrix leaves all unmatched. |
| LinearAssignment.MatchingPartitions | src/thirdparty/bytetrack/utils.cpp:140-161 | Every row and every column is matched once or left over once. |
| Boxes.IouProperties | src/thirdparty/bytetrack/utils.cpp:178-204 | Overlap is a symmetric share between 0 and 1, and 1 for a box with itself. |
| Boxes.IouCounts | src/thirdparty/bytetrack/utils.cpp:178-204 | The overlap of boxes whose corners are pixels is the number of pixels that both cover over the number that either covers. |
| Boxes.IouCell | src/thirdparty/bytetrack/utils.cpp:181-202 | The branching computation equals intersection over union. |
| Boxes.Ious | src/thirdparty/bytetrack/utils.cpp:164-207 | The matrix of overlaps, column by column; empty if either side is. |
| Boxes.IouDistance | src/thirdparty/bytetrack/utils.cpp:209-272 | Association costs are one minus overlap and lie in [0, 1]. |
| TrackLists.Joint | src/thirdparty/bytetrack/utils.cpp:27-46 | All of the first list, then the entries of the second with ids not seen before. |
| TrackLists.JointProperties | src/thirdparty/bytetrack/utils.cpp:6-46 | Joining keeps ids unique, loses none and prefers the first list. |
| TrackLists.Sub | src/thirdparty/bytetrack/utils.cpp:48-72 | The entries of the first list whose ids the second lacks, ordered by id, the first entry per id. |
| TrackLists.SubtractedUnique | src/thirdparty/bytetrack/utils.cpp:48-72 | That description determines the result. |
| TrackLists.ClosePairs | src/thirdparty/bytetrack/utils.cpp:77-88 | Exactly the index pairs at distance below 0.15. |
| TrackLists.PickDuplicates | src/thirdparty/bytetrack/utils.cpp:90-99 | Of a close pair the younger track is dropped, the tracked one on a tie. |
| TrackLists.RemoveDuplicates | src/thirdparty/bytetrack/utils.cpp:74-118 | Both lists without exactly their duplicates, in order. |
| TrackLists.DeduplicatedApart | src/thirdparty/bytetrack/utils.cpp:74-118 | Afterwards no tracked and lost entry are close, and what is dropped gives way to a close entry that is at least as old, or older. |
| Associations.BuildPools | src/thirdparty/bytetrack/BYTETracker.cpp:66-76 | Unconfirmed tracks apart; confirmed and lost ones joined. |
| Associations.PoolsPartition | src/thirdparty/bytetrack/BYTETracker.cpp:66-76 | The two pools split all entries of both lists. |
| Associations.PredictAll | src/thirdparty/bytetrack/STrack.cpp:170-182 | Exactly the pooled tracks are predicted. |
| Associations.Match | src/thirdparty/bytetrack/BYTETracker.cpp:79-85 | One association: matches and leftovers partition tracks and detections, and no other matching of the boxes has a lower sum of distance minus threshold. |
| Associations.BestIsBounded | src/thirdparty/bytetrack/BYTETracker.cpp:79-85 | In such a matching no pair is farther apart than the threshold and no two leftovers are nearer than it. |
| Associations.UncontestedIsMatched | src/thirdparty/bytetrack/BYTETracker.cpp:79-85 | A box with a detection nearer than the threshold that is beyond it for all other boxes is matched. |
| Associations.AssociateOne | src/thirdparty/bytetrack/BYTETracker.cpp:89-100 | A matched track is updated if Tracked and revived otherwise, and a copy goes to the matching list. |
| Associations.Associate | src/thirdparty/bytetrack/BYTETracker.cpp:87-101 | Exactly the matched tracks took their detections; updated and revived ones were copied out. |
| Associations.UpdateMatched | src/thirdparty/bytetrack/BYTETracker.cpp:165-169 | Matched unconfirmed tracks took their detections. |
| Associations.LoseUnmatched | src/thirdparty/bytetrack/BYTETracker.cpp:143-151 | Exactly the leftover tracks are lost and copied out. |
| Associations.RemoveUnmatched | src/thirdparty/bytetrack/BYTETracker.cpp:171-176 | Exactly the leftover unconfirmed tracks are removed and copied out. |
| Associations.StillTracked | src/thirdparty/bytetrack/BYTETracker.cpp:111-117 | The retry pool: leftover tracks that are still Tracked. |
| Rounds.FirstRound | src/thirdparty/bytetrack/BYTETracker.cpp:66-101 | Pools, prediction and the first association, slot by slot; the matching is the best one of predicted boxes for threshold 0.8. |
| Rounds.SecondRound | src/thirdparty/bytetrack/BYTETracker.cpp:103-151 | Leftover confirmed tracks take low-score detections by the best matching for threshold 0.5, or are lost; none is revived here. |
| Rounds.ThirdRound | src/thirdparty/bytetrack/BYTETracker.cpp:153-176 | Unconfirmed tracks take leftover detections by the best matching for threshold 0.7, or are removed. |
| Rounds.OptimalIsWithin | src/thirdparty/bytetrack/BYTETracker.cpp:79-163 | In no round is a matched pair beyond the threshold or a leftover pair nearer than it. |
| Rounds.FateOfTracked | src/thirdparty/bytetrack/BYTETracker.cpp:66-176 | A tracked entry ends Tracked, Lost (if confirmed) or Removed (if not), with its id and start. |
| Rounds.FateOfLost | src/thirdparty/bytetrack/BYTETracker.cpp:75-101 | A lost entry is revived or waits on unchanged. |
| Rounds.SlotCases | src/thirdparty/bytetrack/BYTETracker.cpp:66-117 | Which round deals with an entry, exactly. |
| Rounds.RunRounds | src/thirdparty/bytetrack/BYTETracker.cpp:66-176 | All three rounds: each matching is the best one for its threshold, what became of every entry, and the copied lists hold exactly the entries in their state. |
| ByteTracker.IdSource.NextId | src/thirdparty/bytetrack/STrack.cpp:161-166 | Ids are consecutive. |
| ByteTracker.SplitDetections | src/thirdparty/bytetrack/BYTETracker.cpp:41-64 | Detections by score, at or above 0.5 and below. |
| ByteTracker.ByScoreSplits | src/thirdparty/bytetrack/BYTETracker.cpp:41-64 | Each list shows, in order, exactly the objects on its side of 0.5, with their boxes and scores. |
| ByteTracker.StartTracks | src/thirdparty/bytetrack/BYTETracker.cpp:178-186 | Leftovers scoring at least 0.6 start tracks with the next ids, in order. |
| ByteTracker.BirthsOk | src/thirdparty/bytetrack/STrack.cpp:27-59 | A track born in the first frame is confirmed at once, a later one is not. |
| ByteTracker.ExpireLost | src/thirdparty/bytetrack/BYTETracker.cpp:189-196 | Exactly the entries lost for longer than the limit are marked removed, in place, and copied out. |
| ByteTracker.RebuildLists | src/thirdparty/bytetrack/BYTETracker.cpp:188-223 | How the three lists are put together from the rounds, births and expiry. |
| ByteTracker.JoinedIds | src/thirdparty/bytetrack/BYTETracker.cpp:198-209 | The tracked ids are those tracked again, born or revived, once each. |
| ByteTracker.RebuiltTracked | src/thirdparty/bytetrack/BYTETracker.cpp:198-209 | Every entry of the new tracked list is Tracked and current; it is confirmed exactly if it is older than the frame or the frame is the first. |
| ByteTracker.RebuiltLost | src/thirdparty/bytetrack/BYTETracker.cpp:213-223 | Every entry of the new lost list is within the age limit, Removed exactly at the limit and then on record. |
| ByteTracker.AdvancedConsistent | src/thirdparty/bytetrack/BYTETracker.cpp:188-223 | One update keeps the lists consistent, and no id recorded as removed before the frame stays lost. |
| ByteTracker.DedupConsistent | src/thirdparty/bytetrack/BYTETracker.cpp:225-230 | Duplicate removal keeps consistency and leaves no close tracked and lost pair. |
| ByteTracker.Advance | src/thirdparty/bytetrack/BYTETracker.cpp:22-223 | The transition before duplicate removal, with best matchings in all three rounds. |
| ByteTracker.NextFrame | src/thirdparty/bytetrack/BYTETracker.cpp:22-230 | The whole transition keeps the invariant, with best matchings in all three rounds. |
| ByteTracker.KeepActivated | src/thirdparty/bytetrack/BYTETracker.cpp:232-238 | The output consists of exactly the confirmed tracks, in the order of the list. |
| ByteTracker.ShownAreOld | src/thirdparty/bytetrack/BYTETracker.cpp:232-238 | A tracked entry is missing from the output exactly if it was born in this frame and the frame is not the first. |
| ByteTracker.Tracker.constructor | src/thirdparty/bytetrack/BYTETracker.cpp:7-16 | A new tracker is empty, with the scaled buffer as its limit. |
| ByteTracker.Tracker.Update | src/thirdparty/bytetrack/BYTETracker.cpp:20-242 | After every update: distinct ids within and disjoint ids across the lists, tracked entries current, lost ones within max(limit, 1) + 1 frames and Removed exactly at that age, no close pair, and the confirmed tracks as output. All three matchings are best ones; no matched pair is beyond its threshold and no leftover pair nearer than it. The output is exactly the confirmed tracks in list order: all tracked entries but those born in this frame, and those too in the first frame. |
| ByteTracker.CountMayGrow | src/thirdparty/bytetrack/STrack.cpp:161-166 | Ids given out by other trackers leave the lists of a tracker consistent. |
| ByteTracker.UpdateBeside | src/thirdparty/bytetrack/BYTETracker.cpp:20-242 | An update of one tracker keeps the invariant of another that shares the id counter. |
| LifeCycle.DetectionsUsedOnce | src/thirdparty/bytetrack/BYTETracker.cpp:75-186 | In one update no detection is used by two tracks; leftovers of the first round are what the third one sees. |
| LifeCycle.BirthsAreQualified | src/thirdparty/bytetrack/BYTETracker.cpp:178-186 | Fresh ids go in order and exactly to the leftovers with score at least 0.6; each new track has the score and the box of its detection and a motion started from it. |
| LifeCycle.MatchedTakesDetection | src/thirdparty/bytetrack/STrack.cpp:61-108 | In every round a matched track takes the score of its detection and the box of its motion corrected by that detection; in the first two rounds the motion was predicted before, told whether the track is tracked. |
| LifeCycle.UnmatchedWaits | src/thirdparty/bytetrack/STrack.cpp:170-182 | A track that no round matched has its predicted motion and box, or is as it was if unconfirmed; score, start and last frame stay. |
| LifeCycle.TrackedFatesPartition | src/thirdparty/bytetrack/BYTETracker.cpp:75-203 | Every previously tracked id becomes exactly one of tracked again, lost, removed. |
| LifeCycle.TrackedAgainIffMatched | src/thirdparty/bytetrack/BYTETracker.cpp:75-176 | A track is tracked again exactly when one of the rounds matched it, and then only if a detection is within the threshold of that round. |
| LifeCycle.GivenUpLeavesNextFrame | src/thirdparty/bytetrack/BYTETracker.cpp:188-223 | An entry at the maximum age has left the lost list by the next update, and is tracked then exactly if the first round matched it. |
| LifeCycle.RevivedByBest | src/thirdparty/bytetrack/BYTETracker.cpp:75-101 | Whether an entry given up comes back is known before the update: it does if every best matching of predicted boxes and high-score detections uses it, and only if one does. |
| LifeCycle.RevivedIfNear | src/thirdparty/bytetrack/BYTETracker.cpp:75-101 | It comes back only if a high-score detection is within 0.8 of its predicted box, and for certain if one is nearer than that and beyond it for all other pooled tracks. |
| LifeCycle.RevivedWhileOnRecord | src/thirdparty/bytetrack/BYTETracker.cpp:219-223 | With such a detection of its own a track comes back that is on record as removed. |
| LifeCycle.LostAfterRemovalVanishes | src/thirdparty/bytetrack/BYTETracker.cpp:213-223 | A newly lost track stays in the lost list exactly if it was never recorded as removed. |
| Revival.RevivalRun | src/thirdparty/bytetrack/BYTETracker.cpp:188-223 | Four frames with a limit of 0, seen, missed, missed, seen: a tracked id is in the list of removed ones. |
| Graph.LinkKeepsMirror | src/core/graph/graph.cpp:16-33 | A new edge keeps parent and child lists mirrored, without repeats and loops. |
| Graph.LinkKeepsAdjacency | src/core/graph/graph.cpp:30-32 | The adjacency map keeps saying the same as the child lists. |
| Graph.BaseGraph.AddNode | src/core/graph/graph.cpp:9-14 | Adds an isolated node, or throws for a known id and changes nothing. |
| Graph.BaseGraph.AddEdge | src/core/graph/graph.cpp:16-33 | Appends the edge on both sides and changes no other list, or throws exactly for a loop, an unknown end or a repeat. |
| Pipeline.NodesWithoutParents | src/core/graph/graph_utils.cpp:5-14 | Exactly the parentless nodes. |
| Pipeline.BranchingNodes | src/core/graph/graph_utils.cpp:16-25 | Exactly the nodes with more than one child. |
| Pipeline.BranchIds | src/proc/pipeline/pipeline.hpp:77-83 | Heads are the parentless nodes and the children of branching nodes. |
| Pipeline.WalkChain | src/proc/pipeline/pipeline.hpp:85-109 | Walking along first children terminates and yields the head's chain. |
| Pipeline.InitBranches | src/proc/pipeline/pipeline.hpp:75-110 | One chain for every head. |
| Pipeline.ChainsPartitionIff | src/proc/pipeline/pipeline.hpp:75-110 | The chains of an acyclic graph cover it, and partition it exactly when no node inside a chain has a second parent. |
| Pipeline.ChainsPartition | src/proc/pipeline/pipeline.hpp:75-110 | With at most one parent per node the chains partition the nodes. |
| Pipeline.DiamondChainsOverlap | src/proc/pipeline/pipeline.hpp:75-110 | A root with two children that share a child is an acyclic graph whose chains overlap. |
| Pipeline.LastChildrenAreHeads | src/proc/pipeline/sync/sync_pipeline.hpp:28-29 | The children of a chain's last node all start chains. |
| SyncPipeline.WaysReach | src/proc/pipeline/sync/sync_pipeline.hpp:18-30 | There is a way from one node to another exactly if it is reachable. |
| SyncPipeline.EnteringWays | src/proc/pipeline/sync/sync_pipeline.hpp:18-30 | There are as many ways to a node as to its parents together, and one more from the node itself. |
| SyncPipeline.ChainWays | src/proc/pipeline/sync/sync_pipeline.hpp:25-29 | Ways from a head pass along its chain once and go on from the children of its last node. |
| SyncPipeline.BreadthStep | src/proc/pipeline/sync/sync_pipeline.hpp:19-30 | Running one queued branch keeps: runs so far and ways left through the queue add up to the ways from the root, and everything runs after a parent. The ways left become fewer. |
| SyncPipeline.EmptyQueueRanAll | src/proc/pipeline/sync/sync_pipeline.hpp:19-30 | When the queue is empty every node has run once for each way from the root. |
| SyncPipeline.RunsReachable | src/proc/pipeline/sync/sync_pipeline.hpp:13-31 | Exactly the reachable nodes run. |
| SyncPipeline.NoRepeatIff | src/proc/pipeline/sync/sync_pipeline.hpp:13-31 | On an acyclic graph no node runs twice exactly if every node reachable from the root, other than the root, has exactly one reachable parent. |
| SyncPipeline.SingleParentsEnterOnce | src/proc/pipeline/sync/sync_pipeline.hpp:13-31 | That holds if no node has two parents. |
| SyncPipeline.DiamondRunsTwice | src/proc/pipeline/sync/sync_pipeline.hpp:13-31 | A run on a diamond logs the node that closes it twice. |
| SyncPipeline.ProcessBranch | src/proc/pipeline/pipeline_branch.hpp:37-41 | Nodes of a branch run in order. |
| SyncPipeline.Process | src/proc/pipeline/sync/sync_pipeline.hpp:13-31 | On any acyclic graph the run ends, with every node run once for each way from the root and after a parent; throws exactly if the root starts no branch. Branches run breadth-first: the root's, then, branch by branch, those at the children of its last node. |
| SyncPipeline.NearestFirst | src/proc/pipeline/sync/sync_pipeline.hpp:18-30 | Numbering each branch one level below the one that queued it, branches run in the order of their levels. |
| AsyncProtocol.BranchesFormTree | src/proc/pipeline/async/async_pipeline.hpp:194-206 | With at most one parent per node, the branches that feed each other form a tree. |
| AsyncProtocol.BusyLine | src/core/threading/thread_pool_worker.hpp:188-203 | A busy branch holds nothing else, and when waiting it works on the current frame. |
| AsyncProtocol.SubmitOk | src/proc/pipeline/async/async_pipeline.hpp:64-73 | Submitting keeps the invariant. |
| AsyncProtocol.HandlingOk | src/proc/pipeline/async/async_pipeline.hpp:95-117 | Handling exceptions keeps the invariant and drops no data. |
| AsyncProtocol.StartOk | src/proc/pipeline/async/async_pipeline.hpp:119-160 | Starting branches keeps the invariant; the root moves on only when all others are finished. |
| AsyncProtocol.TakeOk | src/core/threading/thread_pool_worker.hpp:188-201 | Taking an item keeps the invariant. |
| AsyncProtocol.ThrowOk | src/core/threading/thread_pool_worker.hpp:209-213 | An exception keeps the invariant and passes nothing on. |
| AsyncProtocol.FinishOk | src/proc/pipeline/async/async_pipeline.hpp:199-206 | Reporting a finished branch keeps the invariant. |
| AsyncProtocol.FinishSkipsNone | src/proc/pipeline/async/async_pipeline.hpp:199-206 | When waiting, a finishing branch finds all its children idle and feeds each of them. |
| AsyncProtocol.EveryRunOk | src/proc/pipeline/async/async_pipeline.hpp:64-206 | In every interleaving what a branch was given, in order, is exactly what its parent finished (waiting) or part of it (not waiting), and slots, queues and workers agree. |
| AsyncProtocol.IterateMeans | src/proc/pipeline/async/async_pipeline.hpp:88-161 | One turn of the scheduler, branch by branch: one that threw is free again; data is handed to the worker at once, save that when waiting the root's stays until all other branches are finished or have thrown; all else stays. |
| AsyncGuarantees.StatusMeansOwed | src/proc/pipeline/async/async_pipeline.hpp:245-260 | In every interleaving: Ready means data is held (a jammed root aside), Running means the worker owes exactly one item, queues hold at most one. |
| AsyncGuarantees.JammedIffNullAccepted | src/proc/pipeline/async/async_pipeline.hpp:64-73 | The root is stuck without data, for good, exactly when a null frame was accepted. |
| AsyncGuarantees.OneFrameAtATime | src/proc/pipeline/async/async_pipeline.hpp:121-148 | When waiting, all running branches and all ready ones below the root have the same frame. |
| AsyncGuarantees.RootStartsAfterAll | src/proc/pipeline/async/async_pipeline.hpp:119-160 | When waiting and the root starts a frame, every branch of the tree has ended each earlier frame exactly once, or never if and only if a branch above it threw on it. |
| AsyncGuarantees.InOrderSelection | src/proc/pipeline/async/async_pipeline.hpp:199-206 | Under either policy the frames a branch is given are an in-order subsequence of those its parent finished. |
| AsyncGuarantees.ReadyStartsAtOnce | src/proc/pipeline/async/async_pipeline.hpp:121-160 | In every run: when not waiting, every branch that holds data is running on it after the next turn, whatever the others do; when waiting, every branch but the root. |
| AsyncGuarantees.RootStartsIffRestIdle | src/proc/pipeline/async/async_pipeline.hpp:119-160 | When waiting, the next turn starts the root exactly if all other branches are finished or have thrown; otherwise its data stays. |
| AsyncGuarantees.TheyWorkSideBySide | src/proc/pipeline/async/async_pipeline.hpp:121-160 | A run after which root and child are running on different frames when not waiting, while when waiting the root still holds its frame. |
| AsyncProgress.BranchesClimb | src/proc/pipeline/async/async_pipeline.hpp:194-206 | On an acyclic graph children of branches can be numbered above their parents. |
| AsyncProgress.CanFinish | src/proc/pipeline/async/async_pipeline.hpp:88-206 | From every state of every run that is not jammed, steps of the scheduler and the workers alone, without new frames and without exceptions, can leave all branches finished. |
| AsyncProgress.MayRestIff | src/proc/pipeline/async/async_pipeline.hpp:64-206 | A run can be continued until all branches are finished exactly if no null frame was accepted. |
| AsyncProgress.NullFrameJams | src/proc/pipeline/async/async_pipeline.hpp:64-73 | One null frame handed to a new pipeline jams it. |
| AsyncPipeline.Pipeline.constructor | src/proc/pipeline/async/async_pipeline.hpp:164-172 | Every branch starts out idle. |
| AsyncPipeline.Pipeline.AddProcessData | src/proc/pipeline/async/async_pipeline.hpp:64-73 | Accepts exactly when the root is idle; then the root is Ready with what was handed over and all else stays. |
| AsyncPipeline.Pipeline.Iteration | src/proc/pipeline/async/async_pipeline.hpp:88-161 | The scheduler's turn with its loops is the Iterate step; every branch with data is started, save that when waiting the root is only with all others idle. |
| AsyncPipeline.HandleExceptions | src/proc/pipeline/async/async_pipeline.hpp:95-117 | Empties the slots of exactly the branches that threw. |
| AsyncPipeline.AllStopped | src/proc/pipeline/async/async_pipeline.hpp:119-127 | The root is ready and all other branches are finished. |
| AsyncPipeline.StartBranches | src/proc/pipeline/async/async_pipeline.hpp:129-160 | Hands the data of exactly the branches that may start to their workers. |
| AsyncPipeline.FeedChildren | src/proc/pipeline/async/async_pipeline.hpp:201-206 | Exactly the idle children receive a copy. |
| AsyncPipeline.Pipeline.TakeData | src/core/threading/thread_pool_worker.hpp:188-201 | The Take step: the worker is busy with the first item of its queue. |
| AsyncPipeline.Pipeline.KeepException | src/core/threading/thread_pool_worker.hpp:209-213 | The Throw step: one more exception to handle, and no slot changes. |
| AsyncPipeline.Pipeline.OnFinished | src/proc/pipeline/async/async_pipeline.hpp:185-206 | The Finish step: the branch is free and each idle child is Ready with the data; busy ones keep theirs. |
| PacketQueue.PacketQueue.Push | src/video/ffmpeg/decoding/packet_queue.cpp:16-24 | Appends; byte and key counters stay those of the list. |
| PacketQueue.PacketQueue.Pop | src/video/ffmpeg/decoding/packet_queue.cpp:26-36 | Takes the first packet; counters stay those of the list. |
| PacketQueue.PacketQueue.Position | src/video/ffmpeg/decoding/packet_queue.cpp:38-52 | The stamp of the first stamped packet, none if the packets are empty. |
| PacketQueue.PacketQueue.Reset | src/video/ffmpeg/decoding/packet_queue.cpp:60-66 | Empties list and counters. |
| PacketQueue.PacketQueue.SetEnabled | src/video/ffmpeg/decoding/packet_queue.cpp:70-77 | Disabling empties the queue. |
| PacketQueue.PacketQueue.Full | src/video/ffmpeg/decoding/packet_queue.cpp:79-83 | Too many packets or too many bytes. |
| PacketQueue.TotalsOfFirst | src/video/ffmpeg/decoding/packet_queue.cpp:26-36 | Taking the first packet off lowers the totals by its share. |
| PacketQueue.PositionIsUnique | src/video/ffmpeg/decoding/packet_queue.cpp:38-52 | A list has one position. |
| PacketFeed.FedKeepsRest | src/video/ffmpeg/decoding/demuxer_queue.cpp:246-306 | Reading keeps a contiguous rest; if anything was dropped, then up to a key packet stamped at or before the seek time with positive duration. |
| PacketFeed.FedKeepsWithoutKey | src/video/ffmpeg/decoding/demuxer_queue.cpp:271-290 | Without such a key packet nothing is dropped. |
| PacketFeed.FedFromLastKey | src/video/ffmpeg/decoding/demuxer_queue.cpp:267-290 | If a key packet of positive duration with a pts at or before the seek time, or with no pts and such a dts, was read, the queue holds exactly what its stream got from the last one on. |
| PacketFeed.FedStartsAtKey | src/video/ffmpeg/decoding/demuxer_queue.cpp:267-290 | A queue without such a packet behind its first keeps none there; it starts at the last one read, or else holds everything. |
| PacketFeed.FedAgrees | src/video/ffmpeg/decoding/demuxer_queue.cpp:246-306 | A queue stays a contiguous suffix of its stream's packets read since the last reset, empty if disabled. |
| PacketFeed.PopAgrees | src/video/ffmpeg/decoding/demuxer_queue.cpp:420-423 | Reading takes the packet that comes next and leaves a suffix. |
| PacketFeed.ReadGoesForward | src/video/ffmpeg/decoding/demuxer_queue.cpp:399-423 | Reads come in order; packets are skipped only for a later key packet stamped at or before the seek time. |
| PacketFeed.GivesServes | src/video/ffmpeg/decoding/demuxer_queue.cpp:399-423 | One read hands out the next packet queued or read; packets are dropped only for a key packet stamped at or before the seek time, which is then the one read. |
| PacketFeed.FirstReadComesFirst | src/video/ffmpeg/decoding/demuxer_queue.cpp:399-423 | The first packet a stream reads after its queue was emptied is the last such key packet it was sent, or else the first packet. |
| DemuxerQueue.DemuxerQueue.constructor | src/video/ffmpeg/decoding/demuxer_queue.cpp:7-20 | One enabled empty queue per stream. |
| DemuxerQueue.DemuxerQueue.ResetQueues | src/video/ffmpeg/decoding/demuxer_queue.cpp:230-239 | All queues are emptied and the end-of-file mark is cleared. |
| DemuxerQueue.Accept | src/video/ffmpeg/decoding/demuxer_queue.cpp:260-301 | One packet's effect on its queue: skipped if disabled, replacing all if it is a key packet of positive duration stamped at or before the seek time, else appended. |
| DemuxerQueue.DemuxerQueue.ReadPackets | src/video/ffmpeg/decoding/demuxer_queue.cpp:246-306 | The queues are fed exactly the stretch of the file that was read; a full batch holds the asked number of packets of enabled streams; stops early only at the end or with a full queue. |
| DemuxerQueue.DemuxerQueue.CheckStreamsPosition | src/video/ffmpeg/decoding/demuxer_queue.cpp:311-329 | Exactly whether every enabled audio and video queue starts at or before the time. |
| DemuxerQueue.DemuxerQueue.FillQueue | src/video/ffmpeg/decoding/demuxer_queue.cpp:334-397 | Reads on until every enabled audio and video queue is supplied, some queue is full or the file ends; false exactly at an earlier end, with a full queue, or if all stay empty. Nothing is read if all enabled queues are supplied, and the last batch of at most 16 only because some were not. |
| DemuxerQueue.DemuxerQueue.Read | src/video/ffmpeg/decoding/demuxer_queue.cpp:399-423 | Feeds the queues only if the stream's own is empty and takes its first packet; nothing for an enabled audio or video stream only at the end of the file or with a full queue. The first read of a stream after a seek gives the latest key packet at or before the seek time that was read, or else the first packet. |
| DemuxerQueue.DemuxerQueue.EnableStream | src/video/ffmpeg/decoding/demuxer_queue.cpp:425-432 | Disabling clears the queue; the queues keep agreeing with the file. |
| DemuxerQueue.DemuxerQueue.ReleaseInternalData | src/video/ffmpeg/decoding/demuxer_queue.cpp:434-434 | Clears one queue; the queues keep agreeing with the file. |
| DemuxerQueue.DemuxerQueue.IsBetter | src/video/ffmpeg/decoding/demuxer_queue.cpp:133-157 | No enabled queue starts later than the best attempt so far. |
| DemuxerQueue.DemuxerQueue.NotePositions | src/video/ffmpeg/decoding/demuxer_queue.cpp:166-192 | Records where each enabled queue starts; done exactly if all enabled audio and video queues start at or before the seek time. |
| DemuxerQueue.DemuxerQueue.TryStreams | src/video/ffmpeg/decoding/demuxer_queue.cpp:95-207 | Audio and video streams are tried in turn until one attempt is better than those before and positions all of them; the best stream is that of the last better attempt, or else the first. |
| DemuxerQueue.DemuxerQueue.SeekInternal | src/video/ffmpeg/decoding/demuxer_queue.cpp:73-226 | Which streams are tried and with what outcome; done if one positions the file. Otherwise at time 0 the parser ends where the seek of the best stream put it, repeated if it was not the last; throws exactly if there is no stream to try or the repeated seek fails. |
| DemuxerQueue.BestIsCandidate | src/video/ffmpeg/decoding/demuxer_queue.cpp:95-107 | The best stream is one of the audio and video streams tried. |
| DemuxerQueue.CandidatesAscend | src/video/ffmpeg/decoding/demuxer_queue.cpp:93-107 | Streams are tried in the order of their numbers. |
| DemuxerQueue.DemuxerQueue.Seek | src/video/ffmpeg/decoding/demuxer_queue.cpp:46-71 | Returns a time in [0, T]; not 0 only if every enabled audio and video queue starts at or before T. Each try is 4, 8, 16 ... seconds before the one that failed, or at 0 if that is before the start. Afterwards nothing was taken from the queues, and behind the first packet of none is a key packet at or before T. |
| DemuxerQueue.TriesAreFew | src/video/ffmpeg/decoding/demuxer_queue.cpp:55-68 | At most floor(log2(T / 4 s + 1)) + 2 tries. |
| StreamReader.RequestsCollect | src/video/ffmpeg/decoding/stream_reader.cpp:42-68 | A stream's requests leave the least time and every checker once, the latest to be named first. |
| StreamReader.GetSeekResult | src/video/ffmpeg/decoding/stream_reader.cpp:70-95 | True exactly if all checkers pass; stops at the first failure exactly away from position 0. |
| StreamReader.CheckStreams | src/video/ffmpeg/decoding/stream_reader.cpp:271-290 | All streams are asked unless one fails away from 0; streams asked are marked, disabled ones too. |
| StreamReader.EightAttempts | src/video/ffmpeg/decoding/stream_reader.cpp:245-267 | Whatever the demuxer does, at most eight attempts land away from 0. |
| StreamReader.ExactRetreat | src/video/ffmpeg/decoding/stream_reader.cpp:245-262 | A demuxer that lands where asked is sent 0, 1, 3, 7, 15, 31, 47 and 63 seconds back, then to 0. |
| StreamReader.BackOffFromLanding | src/video/ffmpeg/decoding/stream_reader.cpp:252-268 | Wherever the demuxer lands: the next position sought is 1, 2, 4, 8, 16, 16, 16 seconds before the landing that failed, or 0 if that is before the start or the landing a minute back. So positions sought fall strictly and none is sought twice. |
| StreamReader.Probe | src/video/ffmpeg/decoding/stream_reader.cpp:252-269 | One attempt asks for the target of its number and takes over an earlier landing. |
| StreamReader.Search | src/video/ffmpeg/decoding/stream_reader.cpp:244-307 | At most nine attempts, each at or before the position sought; the last satisfies all or is at 0 and asks every checker of every stream; all others failed away from 0. Each position sought is reckoned back from the landing that failed, and none is sought twice. |
| StreamReader.LeastRequest | src/video/ffmpeg/decoding/stream_reader.cpp:224-242 | The least time over the enabled streams; fails exactly if one has not requested. |
| StreamReader.Reader.RequestSeek | src/video/ffmpeg/decoding/stream_reader.cpp:197-200 | Records the request with its stream only. |
| StreamReader.Reader.Seek | src/video/ffmpeg/decoding/stream_reader.cpp:202-313 | Throws, is told that all is done, or drives the demuxer; the state of every stream afterwards in each case. |
| StreamReader.OneSeekForAll | src/video/ffmpeg/decoding/stream_reader.cpp:202-313 | If every enabled stream requested a position in the file and calls once, in any order, only the first call drives the demuxer, none throws, and all end as before any request. |
| Stream.OwnCheckFirst | src/video/ffmpeg/decoding/stream.cpp:156-161 | The stream's own check comes before that of its user. |
| Stream.DemuxedStream.RequestSeek | src/video/ffmpeg/decoding/stream.cpp:144-162 | Forgets position and buffered packet and requests in both names. |
| Stream.DemuxedStream.GetSeekResult | src/video/ffmpeg/decoding/stream.cpp:184-212 | Good exactly if the packet found is a key packet at or before the position sought. What was queued and read is the packets skipped, then those dropped for a qualifying key packet, the packet found, and the new queue; away from 0 no packet skipped is a key packet. Other queues are only fed. |
| Stream.DemuxedStream.Read | src/video/ffmpeg/decoding/stream.cpp:68-97 | The packet the seek looked at comes first, then those of the queue. |
| Stream.SeekTogether | src/video/ffmpeg/decoding/stream_reader.cpp:252-290 | One seek of the demuxer and the checks of all streams: good exactly if every stream goes on with a key packet at or before the position it sought. Away from 0 it stops at the first stream that does not; those asked before do. |
| Stream.SearchTogether | src/video/ffmpeg/decoding/stream_reader.cpp:244-307 | The whole back-off search with the demuxer and the streams' own checks: at most nine attempts, after which every stream was asked and either all go on with a key packet at or before the position they sought, or the file is at 0. Positions are sought as in `StreamReader.BackOffFromLanding`. |
| Decoder.Ticked | src/video/ffmpeg/decoding/decoder_video.cpp:286-313 | One picture moves the clock forward or leaves it, a fresh clock aside; the step it remembers is never negative. |
| Decoder.ClockNeverGoesBack | src/video/ffmpeg/decoding/decoder_video.cpp:286-314 | For any best-effort stamps, pts and durations the clock never goes back between flushes, and frames are stamped in order. |
| Decoder.StampsAndDurations | src/video/ffmpeg/decoding/decoder_video.cpp:286-314 | Which stamp a picture gets: its best-effort stamp unless that lies behind the clock, then one step after the frame before, by that frame's duration if the picture has no pts and the duration is positive, else by the last step. After a flush the first one starts at its stamp, or at the start time without one. A frame lasts as its packet says, else one frame at the stream's rate. |
| Decoder.StampsKept | src/video/ffmpeg/decoding/decoder_video.cpp:286-314 | Pictures that the codec stamped in order, not behind the clock, keep their stamps. |
| Decoder.NoGaps | src/video/ffmpeg/decoding/decoder_video.cpp:142-191 | Up to the last drained frame stamps grow strictly and durations add up to the time between frames. |
| Decoder.Drain | src/video/ffmpeg/decoding/decoder_video.cpp:142-191 | Asking without data until nothing comes hands out every frame held back, queued or still in the codec exactly if their stamps grow strictly; otherwise it ends at the first two equal ones. Each frame lasts until the next one, the last for the average duration. |
| Decoder.ReleasedIff | src/video/ffmpeg/decoding/decoder_video.cpp:142-191 | The same of the function that says what a line in order releases. |
| Decoder.DrainGrowing | src/video/ffmpeg/decoding/decoder_video.cpp:142-191 | Strictly growing best-effort stamps are handed out as they are, each frame until the next, the last for the average duration. |
| Decoder.AverageIsNearest | src/video/ffmpeg/decoding/decoder_video.cpp:180-182 | The average duration is one frame at the stream's rate, off by at most half a unit. |
| Decoder.DecodeNext | src/video/ffmpeg/decoding/decoder_video.cpp:142-191 | A call queues the frames of all pictures the codec yields, in order, and loses no stamp: those of the frames taken off the queue are exactly those handed out and the one held back. |
| Decoder.DecodeAll | src/video/ffmpeg/decoding/decoder_video.cpp:142-191 | The same over any sequence of packets after a flush. |
| Decoder.StampsAccountedFor | src/video/ffmpeg/decoding/decoder_video.cpp:142-191 | Where the codec stamped all pictures in order, the stamps handed out and held back are exactly those of the pictures whose frames were taken off the queue. |
| Decoder.LineInOrder | src/video/ffmpeg/decoding/decoder_video.cpp:286-347 | Frames held back, queued and to come never go back in time. |
| Decoder.EqualStampsAreLost | src/video/ffmpeg/decoding/decoder_video.cpp:163-167 | With nothing decoded yet, pictures of which the first two have the same best-effort stamp are all lost: no frame is handed out. |
| Decoder.TwoPicturesAreLost | src/video/ffmpeg/decoding/decoder_video.cpp:163-167 | A new decoder hands out nothing of a codec that yields one picture twice. |
| Decoder.DecoderVideo.Flush | src/video/ffmpeg/decoding/decoder_video.cpp:108-127 | Everything remembered is forgotten. |
| Decoder.DecoderVideo.StampPacket | src/video/ffmpeg/decoding/decoder_video.cpp:208-238 | The first key packet after a flush decides whether dts stands in for pts; the packet is sent with the one decided on. |
| Decoder.DecoderVideo.TakePictures | src/video/ffmpeg/decoding/decoder_video.cpp:246-347 | Pictures are stamped by the clock and queued in order. |
| Decoder.DecoderVideo.NextQueuedFrame | src/video/ffmpeg/decoding/decoder_video.cpp:356-365 | First in, first out. |
| Decoder.DecoderVideo.DecodeInternal | src/video/ffmpeg/decoding/decoder_video.cpp:193-352 | The codec's answer moves clock and queue as described; a refusal throws, a failure changes nothing. |
| Decoder.DecoderVideo.DecodeStep | src/video/ffmpeg/decoding/decoder_video.cpp:144-188 | The next frame releases, replaces nothing, or is dropped, exactly by its stamp. |
| Decoder.DecoderVideo.Decode | src/video/ffmpeg/decoding/decoder_video.cpp:142-191 | Each frame handed out ends where the next one starts, except the last of a drained stream, which gets the average duration; at most two packets are sent. A refused packet changes nothing. |
| Nms.OverlapsIsQuotient | src/proc/neural/yolo/yolox_wrapper.cpp:161-165 | Comparing with threshold times union is comparing the quotient; with an empty union neither test succeeds. |
| Nms.OverlapsCounts | src/proc/neural/yolo/yolox_wrapper.cpp:161-165 | For boxes that cover whole pixels the test is whether more than that share of the pixels covered by either is covered by both. |
| Nms.KeepGreedily | src/proc/neural/yolo/yolox_wrapper.cpp:153-175 | The loops keep exactly the objects that no earlier kept one suppresses. |
| Nms.NmsSortedBoxes | src/proc/neural/yolo/yolox_wrapper.cpp:144-178 | Suppression with areas computed beforehand has that result for overlap above the threshold. |
| Nms.KeptIsUnique | src/proc/neural/yolo/yolox_wrapper.cpp:144-178 | Only one list of indices has these properties. |
| Nms.KeptMeans | src/proc/neural/yolo/yolox_wrapper.cpp:28-32 | With the objects sorted: kept boxes overlap pairwise at most by the threshold, and every dropped one overlaps an earlier kept one of no lower score. |
| Nms.SurvivorsStay | src/proc/neural/yolo/yolox_wrapper.cpp:144-178 | Suppressing the survivors again keeps them all. |
| Nms.Grid | src/proc/neural/yolo/yolox_wrapper.cpp:65-78 | All cells of a stride that fit into the frame, row by row, once each. |
| Nms.GenerateGridAndStrides | src/proc/neural/yolo/yolox_wrapper.cpp:60-80 | The grids of the strides, one after the other. |

## Left out

- Floating-point rounding, NaN and integer overflow, allocation failure, logging, and assertions that are compiled out.
- The Kalman filter's matrices and box prediction: a filter is any set of functions of the right types.
- Solver.Solve: asks for costs below the sentinel 1000000 and less than the sentinel apart; every cost in [0, 1000000)
  qualifies, as do the distances in [0, 1] that the tracker solves for.
- LinearAssignment.SolvePadded: asks for the same of the padded matrix.
- Boxes.IouCounts: speaks of corners on whole pixels; for others see `Boxes.IouProperties`.
- Nms.OverlapsCounts: likewise, with `Nms.OverlapsIsQuotient` for all boxes.
- Boxes.IouCell: boxes have x1 <= x2 and y1 <= y2; without that the union could be zero or negative.
- SyncPipeline.Process: asks for an acyclic graph, as building the branches does.
- AsyncProtocol.EveryRunOk: each critical section is one step, and a root without parents feeds a tree of branches.
- Exceptions other than those of a branch's nodes: the notification of observers, the aggregated output map and the
  copies made for it, which may throw after the slots have been updated.
- Stopping, joining and pausing of workers and of the scheduler, and the destructors.
- Stream.SearchTogether: only the streams' own checks are asked; further checkers are those of `StreamReader.World`.
- StreamReader.Search: the demuxer lands at 0 or later, which `DemuxerQueue.DemuxerQueue.Seek` guarantees, and does not
  throw.
- The parser's format detection and time-stamp repair; a seek may put the parser anywhere and may fail.
- Releasing and re-creating streams of a reader, and the lock attempts by which a nested seek is turned away.
- Decoder.Drain: the codec answers the first empty packet with all the pictures it has left, and later ones with none.
- Decoder.DecoderVideo.Decode: a failing picture conversion and releasing the codec's data are not modelled.
- Nms.KeptMeans: sorting is assumed, not modelled; the order among equal scores is left open by the program as well.
- Turning network outputs into boxes and scaling boxes back to the frame.
- `BaseGraph::is_valid`, which the pipeline never calls, JSON settings and factories, the user interface, `read_frame`
  and the reader's event thread.
