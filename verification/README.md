# blobscan-ipld: a Dafny model of the indexer

blobscan-ipld turns finalized Ethereum epochs into content-addressed IPLD DAGs. This project
models the parts of it whose correctness is not visible from a single function and proves what
they promise:

- `Pipeline.dfy`, `StuckSchedules.dfy`, `Delivery.dfy` - one attempt of the concurrent backfill pipeline
  (dispatcher, workers, collector with its reorder map, consumer, bounded channels) as a
  transition system whose schedules are sequences of actions. Order of delivery, what an attempt
  returns, termination of every schedule, and exactly which attempts can fail to return.
- `Sessions.dfy`, `LiveTicks.dfy` - the process around it: start-up at the finalized tip, live loop, retries,
  crashes and restarts from persisted cursors. `Torn.dfy` - epoch rows whose blob rows were never
  written: how they arise and what can still complete them.
- `Ipld.dfy`, `Blobs.dfy`, `EpochDag.dfy`, `Closure.dfy`, `Network.dfy` - the DAG builder: blob
  nodes, the epoch node with its inline or sharded index, the staging store, `export-car`, and
  the paged network root.
- `Database.dfy`, `Cached.dfy`, `Tier1.dfy`, `Export.dfy` - the relational store with its partial
  upserts, the epoch rebuilt from its own rows, the offline health check, and `export-car` on the
  stored rows.
- `Ranges.dfy`, `PgCopy.dfy`, `Beacon.dfy` - range collapse and gaps, the binary COPY writer,
  slot-ordered reassembly and the 429 backoff.
- `Common.dfy`, `Lists.dfy` - shared types; sorting and rearranging of lists.

Code that mutates state is modelled by methods and classes proved against specification
functions; goroutines by transition systems over all interleavings. Go map iteration,
`sort.Slice` ties, SQL ties and `DISTINCT ON` are nondeterministic choices. A CID is `h(node)` for
an arbitrary hash `h`; collision freedom is a hypothesis only where a reader follows links. Epoch
and slot numbers are naturals, with 64-bit wrap-around written out where it matters.

## Where the code and its comments or documents differ

The model follows the code; the members named here state the difference.

- "On error, the pipeline tears down quickly" (generator/generator.go:523): a dispatcher that leaves
  on cancellation does not close the result channel, and a collector that leaves early strands
  workers behind a full one. Every attempt with more than one epoch to do can hang after an error of
  its own, and no shorter one can (`StuckSchedules.TeardownCanHangIff`); every attempt can hang when it
  is cancelled from outside (`StuckSchedules.CancelledCanHang`).
- docs/state-and-resumption.md says each goroutine resumes exactly where it left off; the live loop
  is re-anchored at every start, and epoch F - 1 of a session anchored at F is left to the next
  session (`Sessions.OneEpochIsLeftOut`, `Sessions.NextSessionTakesIt`).
- The same document says networks are isolated in the database; the epoch number alone is the
  primary key (`Database.SavedExists`).
- `SaveBlobs` is documented to overwrite the previous row of a commitment; epoch, slot, network,
  index and size are kept (`Database.Client.SaveBlobs`, `Cached.CachedEqualsFreshOnlyIf`).
- An epoch that repeats a commitment, as db/db.go:272-275 says zero blobs do, or that shares one with
  an earlier epoch is reported as a bad root by the health check although it was just written, unless
  none of its commitments was new or its number is another network's: then it passes unseen
  (`Tier1.FreshVerdictIff`).
- The health check is meant to find altered metadata. An epoch with one row whose slot or block number
  is negative cannot be read and passes; so does one whose number another network holds, because it is
  not listed (`Tier1.AlteredMetaIsFlagged`, `Tier1.UnreadableRowHides`, `Tier1.ForeignEpochHides`).
- Resumption is meant to pick up interrupted work. An epoch whose blob rows were not written before a
  crash is skipped by every later backfill for having a row; only a session that starts at the same
  finalized epoch can complete it, and not every one (`Torn.TornIsReachable`, `Torn.RepairedIff`).
- docs/data-model.md says a CAR file holds every block reachable from the epoch node; shard blocks are
  not listed, nor blobs whose row belongs to another epoch or occurrence (`Closure.ExportIsComplete`,
  `Export.ExportAfterFreshRun`).

## Model

| member | source | states |
|---|---|---|
| Pipeline.StepKeeps | generator/generator.go:531-686 | every action of dispatcher, workers, collector and consumer, and every outside cancellation or row, keeps the invariant: each dispatched epoch is in exactly one place, each job is its own epoch's, rows exist below the resume point |
| Pipeline.InOrder | generator/generator.go:592-648 | for every schedule the jobs sent to the consumer are from, from+1, from+2, ... without gap, repeat or swap, each with its own epoch's recorded outcome, an error only in last place; the flush after the loop sends nothing |
| Delivery.DeliveredAsReported | generator/generator.go:540-612 | for every schedule, the k-th job sent to the consumer carries what a worker reported, at some point of the schedule with epoch from+k in hand: a built epoch carries exactly what that build returned, a skipped one had a row then |
| Delivery.WorkChannelHolds | generator/generator.go:531-531 | the work channel can hold n epochs if and only if n is at most workers and the length of the range |
| Delivery.ResultChannelHolds | generator/generator.go:532-532 | the result channel likewise |
| Delivery.OrderedChannelHolds | generator/generator.go:507-509 | the ordered channel one more |
| Pipeline.EffectiveWorkers | generator/generator.go:500-503 | the configured number of workers, or one |
| Pipeline.TailIsComplete | generator/generator.go:625-645 | when the result channel is closed and drained, every epoch of the range has been delivered and the reorder map has nothing for the post-loop flush |
| Pipeline.HistoryGrows | generator/generator.go:540-572 | the outcome recorded for an epoch is never replaced and no job is taken back, so "its own outcome" is well defined |
| Pipeline.ReturnsResumePoint | generator/generator.go:650-686 | an attempt without error returns target+1 with a row for every epoch; with an error, a resume point within the range below which every epoch has a row |
| Pipeline.StepProgress | generator/generator.go:531-686 | a measure of the remaining work strictly decreases at every move of every actor, failing or not |
| Pipeline.EveryScheduleIsFinite | generator/generator.go:531-686 | any schedule has at most 15 moves per epoch, one per worker and 13 more |
| Pipeline.HaltsIff | generator/generator.go:575-686 | an attempt can do nothing more and has not returned exactly when it is orphaned (dispatcher left on cancellation, result channel never closed) or clogged (collector gone, worker blocked on a full channel, dispatcher in Wait) |
| Pipeline.StuckMeansCancelled | generator/generator.go:575-656 | both stuck shapes occur only after cancellation |
| Pipeline.UncancelledCompletes | generator/generator.go:485-686 | a schedule that was never cancelled and has come to its end has returned target+1 without error, with every epoch of the range stored |
| StuckSchedules.StuckForever | generator/generator.go:650-686 | an orphaned or clogged attempt stays so and never returns, whatever still happens |
| StuckSchedules.TeardownCanHangIff | generator/generator.go:485-686 | for every store, range and worker count: an attempt that nobody cancels from outside can come to a standstill without returning if and only if from < target |
| StuckSchedules.CancelledCanHang | generator/generator.go:575-590 | cancelled from outside, every attempt can |
| StuckSchedules.OrphanedIsReachable | generator/generator.go:579-586 | persisting the first of two or more epochs fails: a schedule leads to the orphaned shape |
| StuckSchedules.CanOrphanIff | generator/generator.go:575-590 | the orphaned shape is reachable if and only if from < target |
| StuckSchedules.CloggedIsReachable | generator/generator.go:567-620 | long enough ranges have a schedule to the clogged shape: after a failed build with two workers or more, after a failed write with one |
| StuckSchedules.CanClogIff | generator/generator.go:509-534 | the clogged shape is reachable if and only if the range has at least workers + 2 epochs, or 4 for a single worker: the channel capacities decide |
| Sessions.NextKeeps | generator/generator.go:250-306 | start, crash, retry, every pipeline action and every step of the live loop keep the invariant tying cursors, rows, ranges and finality together |
| Sessions.CursorMeansRows | generator/generator.go:271-279 | after any history of sessions, retries and crashes a backfill cursor c > 0 means every epoch from StartEpoch to c has a row |
| Sessions.CursorRisesByOne | generator/generator.go:670-678 | inside a session each step leaves the backfill cursor, raises it by one, or sets it from unset to StartEpoch, even when a write reports an error but took effect |
| Sessions.FinalizedAndDisjoint | generator/generator.go:379-418 | no goroutine works on an epoch above the reported finalized one, and every epoch backfill works on is below every epoch live works on |
| LiveTicks.TickCompletes | generator/generator.go:379-418 | a tick that reads finalized epoch f and cursor v and goes through has stored every epoch from v+1 (StartEpoch for v = 0) to f, rows and blob rows, and left the cursor at f, whatever backfill did meanwhile |
| LiveTicks.TickCanComplete | generator/generator.go:405-418 | after every tick there is such a history |
| LiveTicks.EmptyTick | generator/generator.go:400-403 | a tick with nothing new changes nothing |
| Sessions.OneEpochIsLeftOut | generator/generator.go:281-303 | a session anchored at F > 1 gives backfill exactly [start, F-2] and live the epochs from F; neither ever works on F-1 |
| Sessions.LeftOutRowStays | generator/generator.go:288-299 | no sequence of steps of that session changes whether F-1 has a row |
| Sessions.FirstSessionMissesOne | generator/generator.go:281-303 | the first session, on an empty database, ends without a row for F-1, however long it lasts |
| Sessions.AllButOneCovered | generator/generator.go:281-306 | once that session's backfill is over, every epoch from StartEpoch to the live cursor except possibly F-1 has a row |
| Sessions.NextSessionTakesIt | generator/generator.go:276-303 | the next session that starts with a higher finalized epoch has the epoch left out in its backfill range |
| Torn.TearsIff | generator/generator.go:847-858 | an epoch becomes torn - a row, no blob rows, nobody about to write them - exactly when a crash or the failure of the second write hits a goroutine between its two writes |
| Torn.AttemptSkips | generator/generator.go:547-557 | an attempt that finds a row for an epoch never writes its blob rows, whatever happens |
| Torn.RepairedIff | generator/generator.go:281-303 | with no process running, some history brings a torn epoch's blob rows if and only if StartEpoch lies below the finalized epoch and the epoch is the finalized one (or that is epoch 1), or the finalized epoch is 0 |
| Torn.TornIsReachable | generator/generator.go:650-678 | for every configuration and every epoch from StartEpoch on, one session and one crash leave it torn for good |
| Ipld.StoreNode | store/linksystem.go:31-43 | the block is stored under its own CID and nothing else in the blockstore changes |
| Ipld.MemBlockstore.All | store/blockstore.go:120-129 | every stored block is returned, as many as there are entries, in any map order |
| Blobs.StoreBlobMetadata | builder/blob.go:59-94 | the stored block has each field of the blob, the link to the data, and as size the explicit Size or, if that is zero, the length of the data |
| Blobs.ProcessBlob | builder/blob.go:98-115 | raw block first, then metadata: the result has the commitment, the length of the data and the CIDs of both blocks, and a link-closed store stays link-closed |
| Blobs.ResultIs | builder/blob.go:109-114 | the result of a blob, field by field |
| Blobs.PoolAlwaysClosed | generator/generator.go:1285-1343 | under every interleaving of the blob workers the staging store is link-closed and correctly addressed at every step |
| Blobs.PoolResults | generator/generator.go:1326-1342 | whatever the schedule, position i of the finished results is blob i's result, field by field, and both its blocks are stored |
| EpochDag.GroupByVersionedHash | builder/epoch.go:91-127 | for any map order and unstable sort: one group per versioned hash, strictly sorted by hash, each listing the metadata CIDs of its occurrences in a (slot, index) order |
| EpochDag.ListMeans | builder/epoch.go:97-121 | such a list is the results' metadata CIDs of exactly the blobs with that hash, each once, arranged by slot and then index |
| EpochDag.LexLeqMeans | builder/epoch.go:122-125 | the order of hashes: a prefix comes first, otherwise the first difference decides |
| EpochDag.GroupingUnique | builder/epoch.go:91-127 | rearranged inputs have the same groups, if occurrences of a hash at the same slot and index have the same metadata |
| EpochDag.AmbiguousMeansChoice | builder/epoch.go:110-115 | otherwise the groups are not determined: next to any grouping there is a different one |
| EpochDag.LengthsAddUp | builder/epoch.go:76-121 | the lists together hold exactly one link per blob |
| EpochDag.ShardsAgreeWithMap | builder/epoch.go:162-207 | looking a hash up through stored 256-entry shards gives what the inline map gives |
| EpochDag.LookupIsSortedFilter | builder/epoch.go:139-207 | both lookups give the (slot, index)-ordered occurrences of the input, and nothing for an absent hash |
| Closure.BuiltHoldsShards | builder/epoch.go:168-190 | the store BuildEpochNode leaves holds every shard its index refers to |
| Closure.EpochLookup | builder/epoch.go:23-74 | end to end, on both sides of the threshold: from the returned CID in the resulting store every hash of the epoch is found with the metadata CIDs of its blobs in slot and index order, and no other hash |
| Closure.EveryBlobReached | builder/epoch.go:139-207 | whatever the index, metadata and data of every blob are at most two and three links below the root |
| EpochDag.ShardShape | builder/epoch.go:165-190 | there are ceil(n/256) shards, none empty, full except possibly the last |
| EpochDag.ShardsAscend | builder/epoch.go:165-190 | all keys of an earlier shard are below all keys of a later one |
| EpochDag.BuildHamtBlobIndex | builder/epoch.go:162-207 | the index links the consecutive runs of 256 groups in order, and exactly these shard blocks are stored |
| EpochDag.BuildEpochNode | builder/epoch.go:23-74 | under the returned CID lies the node with epoch, slot, network, the sum of the results' sizes, their number, and an inline index below the threshold or 256-entry shards from it on; exactly the node and its shards are stored |
| EpochDag.EpochNodeUnique | builder/epoch.go:23-74 | same epoch, same occurrences and same sizes in any order make the same epoch node |
| EpochDag.OrderDoesNotMatter | builder/epoch.go:17-30 | any common permutation of blobs and results gives the same epoch node |
| Closure.EpochIsClosed | builder/epoch.go:60-64 | after BuildEpochNode every link in the store resolves, so the root resolves entirely from it |
| Closure.ShardsKeepClosed | builder/epoch.go:168-190 | also after each single shard block |
| Closure.FreshBuildIsClosed | generator/generator.go:764-774 | from an empty store through any worker schedule to the root, the whole fresh build ends link-closed with all blocks of the epoch present |
| Closure.ExportIsComplete | cmd/blobscan-ipld/main.go:369-376 | with complete rows the CID list of export-car is the set reachable from the root if and only if the index is inline or the epoch has no blobs |
| Export.ExportAfterFreshRun | cmd/blobscan-ipld/main.go:350-376 | with the rows a fresh run leaves, it is if and only if in addition no commitment was stored before and blobs that share one share their metadata block |
| Network.DecimalIsNumeral | builder/network.go:88-88 | the key of a number is its decimal numeral: digits, no leading zero, and it reads as the number |
| Network.DecimalInjective | builder/network.go:88-88 | different numbers have different keys |
| Network.BuildNetworkRoot | builder/network.go:31-124 | fails exactly on repeated epochs; otherwise under the returned CID lies the root with the network, the page size (at least 1000), the highest input epoch (0 for none) and the sum of the input's sizes, and exactly it and one page per aligned window in use are stored |
| Network.RootIsDescribed | builder/network.go:42-109 | the same of the root node itself |
| Network.PagedRootIsFlatMap | builder/network.go:59-106 | reading pages[(e/ps)*ps].epochs[e] in the resulting store gives e's CID for every input epoch and nothing for any other |
| Network.LookupKnown | builder/network.go:59-106 | a known epoch is found in its page with its own CID |
| Network.LookupUnknown | builder/network.go:59-106 | an unknown epoch is not found |
| Network.PageWindow | builder/network.go:59-65 | a page holds at most pageSize epochs, all from its aligned window |
| Network.LatestIsMax | builder/network.go:50-53 | latestEpoch is the maximum of the epochs |
| Network.TotalIsSum | builder/network.go:54-56 | totalSizeBytes is the sum over the input, however listed |
| Network.RootUnique | builder/network.go:42-109 | any order of the same distinct epochs gives the same root |
| Network.PageStable | builder/network.go:59-91 | lists that agree on a window have the same page block |
| Network.AppendRewritesOnePage | builder/network.go:59-91 | a new highest epoch changes no page but its own |
| Network.PageFitsBlockLimit | builder/network.go:24-29 | by the CBOR lengths of section 3 of RFC 8949 every page stays below 2 MiB for page sizes up to 33000 and all 64-bit epochs, and within 620011 bytes for the default 10000 |
| Network.BoundIsAttained | builder/network.go:24-29 | a full page of 20-digit epochs has exactly that length |
| Network.HeadIsShortest | builder/network.go:24-29 | the head length used is the shortest that holds the argument, as section 4.2.1 of RFC 8949 asks |
| Database.Client.SaveEpoch | db/db.go:151-176 | upsert of the epoch row: a conflict keeps network and slot, everything else is replaced |
| Database.Client.SaveBlobs | db/db.go:193-302 | placeholder epoch row if missing; one row per commitment from some staged blob, a conflict keeps epoch, slot, network, index and size; other rows unchanged; a length mismatch changes nothing |
| Database.Client.EpochExists | db/db.go:378-387 | true exactly when the row exists with this network |
| Database.Client.GetAllEpochs | db/db.go:398-418 | exactly the epochs whose row has this network, ascending |
| Database.Client.GetBlobsByEpoch | db/db.go:885-907 | exactly the rows of network and epoch, once each, in the order of blob_index with ties in any order; an error if a number does not fit unsigned |
| Database.SavedRow | db/db.go:151-176 | the saved epoch row field by field, new or on conflict; no other row changes |
| Database.SavedBlobRow | db/db.go:193-302 | what SaveBlobs leaves of a commitment, field by field: the columns of one of its blobs, and that blob's place if the commitment is new, the old place otherwise; the placeholder epoch row |
| Database.SavedExists | db/db.go:151-176 | after SaveEpoch the epoch exists for the network if and only if its number was not taken by another network |
| Database.SaveEpochIdempotent | db/db.go:147-151 | saving the same result twice equals saving it once |
| Database.PlaceholderThenEpoch | db/db.go:207-215 | a placeholder never overwrites a real row and a later SaveEpoch replaces it completely |
| Cached.ReconstructFromDB | generator/generator.go:902-940 | fails exactly when some CID text does not decode; otherwise blob i and result i come from row i |
| Cached.FetchedIsFromBeacon | beacon/client.go:309-388 | what FetchEpochInput delivers meets the conditions the cached path relies on |
| Cached.CachedEqualsFresh | generator/generator.go:706-806 | rows written by a fresh run of new commitments rebuild the same epoch node, size and count in any row order and tie-breaking |
| Cached.CachedEqualsFreshOnlyIf | db/db.go:272-296 | if rows rebuild the fresh node, the commitments were distinct and none was stored before |
| Cached.AllRowsBackIff | db/db.go:272-302 | as many rows come back as there were blobs exactly when all commitments were new |
| Cached.RowsDecode | db/db.go:239-262 | every row a fresh run writes reads back and decodes, be the commitments new or not |
| Cached.SecondRunChangesNothing | generator/generator.go:725-860 | processing an epoch again: if some commitment was new it is rebuilt from its rows, and the tables stay as they are if and only if all were new; if none was, it is fetched again, and the tables stay in every case if and only if blobs that share a commitment write the same columns |
| Tier1.CheckEpoch | cmd/blobscan-ipld/main.go:1631-1674 | the whole verdict: nothing bad without readable rows; meta-bad alone when a CID does not decode; otherwise the number of rows whose metadata does not recompute, meta-bad when there is one, root-bad exactly when the rebuilt root differs from the stored one |
| Tier1.MetaBadIff | cmd/blobscan-ipld/main.go:1643-1661 | meta-bad exactly when the rows could be read and one does not decode or recompute to its stored meta_cid |
| Tier1.BadRowsCount | cmd/blobscan-ipld/main.go:1650-1661 | the count of bad blobs is the number of such rows |
| Tier1.BadBlobsIsSum | cmd/blobscan-ipld/main.go:1704-1708 | the reported total is its sum over the meta-bad epochs |
| Tier1.RunTier1 | cmd/blobscan-ipld/main.go:1596-1716 | the verdicts of a run are those of the epochs listed for the network, for every order in which the workers finish; the lists and totals follow from them |
| Tier1.FreshRowsPass | cmd/blobscan-ipld/main.go:1637-1670 | an epoch freshly written with new commitments is not reported, whatever the hash |
| Tier1.FreshVerdictIff | cmd/blobscan-ipld/main.go:1596-1670 | for a collision-free hash and an epoch without ambiguous ties: freshly written it is never reported as meta-bad, and as root-bad if and only if its number is not another network's and its commitments were not all new but some were |
| Tier1.AlteredMetaIsFlagged | cmd/blobscan-ipld/main.go:1596-1661 | altering a good row's meta_cid text in any way makes a run report the epoch as meta-bad if and only if the epoch's row is this network's and every blob row of the epoch can be read |
| Tier1.UnreadableRowHides | cmd/blobscan-ipld/main.go:1637-1641 | a table with an unreadable row beside the altered one: the run reports nothing |
| Tier1.ForeignEpochHides | cmd/blobscan-ipld/main.go:1597-1597 | a table where the epoch number is another network's: the run reports nothing |
| Tier1.CollectVerdicts | cmd/blobscan-ipld/main.go:1699-1716 | the report lists are the meta-bad and the root-bad epochs in order, the blob total that of the meta-bad ones, and the repair list gains the bad epochs in order |
| Tier1.PickedOnce | cmd/blobscan-ipld/main.go:1704-1716 | each of these lists has exactly the epochs it should, each once |
| Tier1.RunListsAscend | cmd/blobscan-ipld/main.go:1699-1716 | and in ascending order |
| Ranges.SortUint64 | cmd/blobscan-ipld/main.go:2063-2069 | sorts the array in place: sorted and a permutation |
| Ranges.DedupUint64 | cmd/blobscan-ipld/main.go:1835-1850 | strictly ascending with exactly the values of the input |
| Ranges.CollapseRanges | cmd/blobscan-ipld/main.go:1854-1871 | for any list: ascending, non-empty, non-adjacent ranges covering exactly its numbers |
| Ranges.CollapseUnique | cmd/blobscan-ipld/main.go:1852-1854 | there is only one such list of ranges, so they are maximal |
| Ranges.GapsAreComplement | db/db.go:515-528 | gap ranges are maximal, inside, and cover exactly the numbers missing between first and last epoch |
| Ranges.GapSizesAddUp | db/db.go:479-479 | the gap sizes sum to expected minus stored epochs |
| Ranges.RangesAndGapsTile | db/db.go:515-528 | collapsed ranges and gap ranges tile the interval: each number in exactly one of them |
| PgCopy.CopyWriter.constructor | cmd/blobscan-ipld/main.go:826-833 | writes the 19-byte header: PGCOPY and its five control bytes, then eight zeros |
| PgCopy.PutIsBigEndian | cmd/blobscan-ipld/main.go:835-850 | counts and lengths are written with the most significant byte first |
| PgCopy.CopyWriter.WriteRow | cmd/blobscan-ipld/main.go:835-850 | appends the row's count, and length and bytes of each field, cut to 16 and 32 bits |
| PgCopy.CopyWriter.Close | cmd/blobscan-ipld/main.go:852-856 | appends the trailer |
| PgCopy.WriteFile | cmd/blobscan-ipld/main.go:826-856 | constructor, one WriteRow per row and Close write exactly the file the round trip speaks of |
| PgCopy.FileRoundTrip | cmd/blobscan-ipld/main.go:826-856 | header, rows and trailer read back under the COPY binary format as exactly those rows, when counts are at most 32767 and fields below 2^31 bytes |
| PgCopy.FileRoundTripIff | cmd/blobscan-ipld/main.go:826-856 | and only then |
| PgCopy.NegativeCountRejected | cmd/blobscan-ipld/main.go:835-840 | a row whose count is cut to a negative number, 65535 fields look like the trailer, makes the reader refuse the file whatever surrounds it |
| Beacon.SlotBelongsToEpoch | beacon/client.go:296-300 | a slot of an epoch maps back to it if and only if its number does not overflow 64 bits |
| Beacon.FetchEpochInput | beacon/client.go:309-388 | for every completion order: an error exactly when some slot failed; otherwise as many blobs as sidecars, and sidecar j of slot i stands after those of the slots before it, with all its fields, its slot number and the epoch; missed slots give nothing |
| Beacon.ConcatInOrder | beacon/client.go:383-386 | the same of the slot-by-slot concatenation |
| Beacon.FetchedBlobsBelong | beacon/client.go:353-361 | every fetched blob carries its epoch, and its slot lies in it |
| Beacon.BackoffFormula | beacon/client.go:444-475 | after any interleaving of responses the backoff is a function of the 429s since the last resetting response, 404s not counting; the counters are the numbers of responses and of 429s, and the latter never exceed the former |
| Beacon.BackoffCapped | beacon/client.go:458-466 | for a base of at most 60 s that function is min(base * 2^(k-1), 60 s) |

## Left out

- SHA-256, dag-cbor bytes, CID text and CAR files: library code; encoded lengths appear only in the block size bound.
- HTTP, Kubo, PostgreSQL transport, timeouts and rate limiting: calls appear as steps that succeed, fail or return a value.
- Which blobs an epoch has, in the pipeline and the sessions: there a blob write is one step per epoch, taken also for an epoch without blobs, where nothing can go missing.
- Cancellation of the health check itself: a run stands for one that is not interrupted.
- Writers of cursors and rows outside Run (BackfillIPFS, push API, ProcessSingleEpoch): they set cursors to arbitrary epochs, and the session invariants do not hold with them.
- Deletion of rows and changes of StartEpoch between sessions.
- Several networks in one database, in the pipeline and the sessions: a row there is a row of the network at hand. `Database.SavedExists` shows what the shared primary key does otherwise.
- The sequential loop without a database, range nodes and the file-backed cursors: easier repeats of what is modelled.
- Execution-layer lookups: errors are swallowed there, so the fetched input is taken as given.
- Timestamps, metrics, configuration, the HTTP API, IPNS, pinning and the notifier.
- Sums of sizes and durations are unbounded integers; their int64 overflow is not modelled.
- Blobs.PoolResults: schedules are taken over blobs rather than workers, which admits every schedule of every pool with at least one worker and more; a pool without workers is not modelled.
- Database.Client.SaveBlobs: blob_index is not limited to 32 bits.
