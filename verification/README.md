# Verification of the Atlassian tail-sampling processor

This project models the tail-sampling engine of `pkg/processor/atlassiansamplingprocessor` and
proves what it keeps. The engine collects the spans of a trace as they arrive in batches, asks a
list of policies about each batch, and exports or drops whole traces. It is built from four LRU
caches: a primary and a secondary tier of pending traces, and two caches of decisions, one of
sampled and one of not-sampled trace IDs. Eviction callbacks of the tiers write to the decision
caches in the middle of an operation, and a pending object is merged in place while it still sits
in its tier. So the invariants are broken and restored inside a step, and the order of every `Put`
and `Delete` matters.

`dafny verify dfyconfig.toml` checks the whole project.

## How it is built

* `Engine.dfy` is the engine as a state machine over values: one function per function of the
  program, with its cache operations in the same order and the callbacks where the cache library
  runs them. A run is any sequence of receiving a group of spans, processing any waiting group, and
  resizing the primary cache to any size; the clock, the policies and what they consult are
  arbitrary.
* `Outcomes.dfy` says what each step sends, lets go of and keeps, in terms of what the evaluators
  return and of what is held.
* `Invariant.dfy`, `Tiered.dfy`, `AllOrNothing.dfy`, `Conservation.dfy`, `LockStep.dfy`,
  `History.dfy`, `Provenance.dfy`, `FirstSight.dfy`, `Recency.dfy`, `Lookups.dfy`, `Overlap.dfy`,
  `Handoff.dfy` and `Capacity.dfy` prove theorems about all runs of it.
* `Processor.dfy` is the processor as an object: its tiers (`PendingTier.dfy`) are caches of
  references to mutable `TraceData` objects (`TraceObjects.dfy`), and every method is proved to have
  the effect of the engine function of the same name; `Processor.Run` carries that over to whole runs.
  `LruCache.dfy` is the cache object, against its specification in `Lru.dfy`.
* `Pdata.dfy`, `Iterator.dfy` and `Grouping.dfy` are the span data and the group and move pipeline,
  `TraceValues.dfy` the metadata and the plain and compressed facades as values.
* `Decider.dfy`, `RootSpans.dfy` and `Threshold.dfy` are the policy loop and two of the evaluators,
  `Regulator.dfy` the heap regulator, and `Shards.dfy` the shard hash and the interleaving of shards.

Groups wait in one pool from which any may be taken next; the order of a channel is one of these
choices, so what holds of every run holds of the program's. The theorems about runs are about
serial steps, which is what the default of one shard gives; only the disjointness of the two tiers
is claimed for shards that interleave.

The LRU library is not part of this repository. Its specification follows what the cache tests
show: an overwrite makes the key newest and calls no callback; a push into a full cache evicts the
oldest entry; `Delete` and `Resize` call the callback too; and a callback runs after its entry has
left. With capacity 0, which the regulator can reach for a primary cache of fewer than 4 traces, a
push evicts its own key.

`dropped` in the engine's state, and the ghost field of that name in the processor, record spans
that the program just forgets.

## Where the code and its documentation disagree

The model follows the code.

* README.md:129 of the processor words the threshold comparison the other way round than
  `internal/evaluators/threshold.go:52`.
* The comment at `internal/evaluators/root_spans.go:30-33` says that a trace once lowered needs a
  Sampled result to be promoted. In the processor it does not: evaluators always see priority
  Unspecified, so the next batch promotes it
  (`FirstSight.NeverKeptSecondary`).
* DESIGN.md:122 speaks of a reduction by 2%; the regulator has five modes, and 2% is how it grows.
* README.md:50-59 gives 0 as the default of `secondary_cache_size` and DESIGN.md:127 calls the
  secondary cache optional; `config.go:65` sets 100 and `config.go:92` refuses 0.

## Properties that hold only under a condition

* All-or-nothing holds of every run if and only if each decision cache can hold every trace ID
  received: `Capacity.WholeIffRoom`. The runs that split a trace otherwise are
  `Capacity.SplittingRun`, whatever the policies, and `Capacity.OverlapSplits`.
* The two decision caches are not disjoint in general: `Capacity.OverlappingRun` is an input that
  overlaps them, and `Overlap.OverlapExactly` says when an ID enters both.
* A hand-off reproduces the sender's decisions if and only if each cache of the receiver has room:
  `Handoff.HandoffReproducesDecisions`; the sender's own sizes always suffice.
* The stored earliest start is not always the minimum, because the code marks "none seen" by time 0:
  `TraceValues.ZeroStartIsForgotten` is an input, `TraceValues.EarliestMergeIff` the exact condition.
* The regulator grows a cache only from size 50 on: `Regulator.SlackReachesMaxIff50`.

## Model

| member | source | states |
|---|---|---|
| `Capacity.WholeIffRoom` | pkg/processor/atlassiansamplingprocessor/processor.go:331-536 | Every run over a set of trace IDs exports or drops each trace as a whole if and only if both decision caches can hold all of the set, whatever the policies and the other sizes are |
| `Capacity.SplittingRun` | pkg/processor/atlassiansamplingprocessor/processor.go:408-494 | If one decision cache is too small there is a run over these IDs, with well-formed groups only, after which a trace has both an exported and a dropped span |
| `Capacity.OverlapSplits` | pkg/processor/atlassiansamplingprocessor/processor.go:466-492 | A second such run: pending spans are exported by a true decision span, other sampled traces push the decision out, and the mark left by the deletion has the next batch dropped |
| `AllOrNothing.NoTraceIsSplit` | pkg/processor/atlassiansamplingprocessor/processor.go:331-536 | In every run of a fresh processor, compressing or not, whose decision caches can hold every trace ID received, no exported span and no dropped span belong to the same trace: across evictions, resizes, early checks and decision spans |
| `AllOrNothing.DecisionTrueWhole` | pkg/processor/atlassiansamplingprocessor/processor.go:466-476 | A true decision span sends and deletes before it records, which leaves a not-sampled mark behind; all-or-nothing survives that |
| `AllOrNothing.EvictAllWhole` | pkg/processor/atlassiansamplingprocessor/processor.go:638-658 | The callbacks of a resize run one after another; each keeps all-or-nothing, and none touches the decision of a trace that is not a victim |
| `AllOrNothing.BucketsAreWellFormed` | pkg/processor/atlassiansamplingprocessor/processor_copied.go:22-46 | Every bucket of a grouping is nonempty, sorted by scope and of one trace, which is what the run theorems ask of a received group |
| `Conservation.SpansAreConserved` | pkg/processor/atlassiansamplingprocessor/processor.go:239-480 | In every run every span value received outside decision spans is queued, held, exported or dropped, together exactly as often as it was received; a decision span is never held or exported |
| `Conservation.TierPutCount` | pkg/processor/atlassiansamplingprocessor/internal/cache/tiered_cache.go:41-49 | A put replaces what was held for its ID, in either tier, and hands its victim to the dropped spans: nothing is lost or counted twice |
| `Conservation.ReleaseNotSampledCount` | pkg/processor/atlassiansamplingprocessor/processor.go:515-536 | Releasing a trace as not sampled moves exactly what is held for it to the dropped spans |
| `Conservation.ExportHeldCount` | pkg/processor/atlassiansamplingprocessor/processor.go:371-380 | Sending a held trace and deleting it moves exactly what is held to the exported spans |
| `Conservation.GroupCountIsBucket` | pkg/processor/atlassiansamplingprocessor/processor_copied.go:50-72 | What is counted for a group is the multiset of the spans in its bucket: moving loses and invents none |
| `LockStep.CompressionIsTransparent` | pkg/processor/atlassiansamplingprocessor/internal/tracedata/snappy.go:16-57 | With a lossless codec a compressing and a plain processor fed the same steps stay in lock step: same decisions, keys, recency and metadata, same exported and dropped batches in the same order, and every compressed trace decodes to the plain one |
| `TraceValues.AbsorbStandsFor` | pkg/processor/atlassiansamplingprocessor/internal/tracedata/uncompressed.go:16-27 | If one facade decodes to what a plain one holds, it still does after each has absorbed another such pair |
| `TraceValues.DecodeConcat` | pkg/processor/atlassiansamplingprocessor/internal/tracedata/snappy.go:29-48 | Decoding the concatenation of two blob lists gives the concatenation of what they decode to |
| `Invariant.PendingAndDecidedNeverOverlap` | pkg/processor/atlassiansamplingprocessor/processor.go:331-494 | After every run no pending ID is in a decision cache, no ID is in both tiers, the primary tier holds no Low entry and the secondary tier only Low ones, and both tiers respect their capacity |
| `Invariant.NextKeeps` | pkg/processor/atlassiansamplingprocessor/processor.go:294-494 | Every step keeps that invariant, and only a true decision span that releases pending data can put an ID into both decision caches |
| `Invariant.TierPutKeeps` | pkg/processor/atlassiansamplingprocessor/internal/cache/tiered_cache.go:41-49 | A put of an object that has just been raised in place restores the tier invariant although it was broken before; the delete in the Low branch finds nothing and the promotion notes no decision |
| `Invariant.ProcessGroupKeeps` | pkg/processor/atlassiansamplingprocessor/processor.go:331-406 | One group keeps the invariant, whichever branch it takes |
| `Invariant.DecisionTrueKeeps` | pkg/processor/atlassiansamplingprocessor/processor.go:466-476 | After a true decision span the trace is gone from both tiers, its effective decision is Sampled, and it is marked not sampled as well exactly when data was pending |
| `Invariant.EvictAllKeeps` | pkg/processor/atlassiansamplingprocessor/processor.go:638-658 | Resize callbacks keep the invariant and add no sampled ID; each victim counts as NotSampled right after its own callback |
| `Invariant.ResizeVictimIsRecorded` | pkg/processor/atlassiansamplingprocessor/processor.go:638-658 | At the moment it leaves, each trace that a resize evicts is effectively NotSampled, before a later victim can push it out |
| `Invariant.PrimaryResizeKeeps` | pkg/processor/atlassiansamplingprocessor/processor.go:301-309 | A resize keeps the invariant, shrinks exactly the primary tier and adds no overlap of the decision caches |
| `Tiered.PutIsMapPut` | pkg/processor/atlassiansamplingprocessor/internal/cache/tiered_cache.go:41-49 | The two tiers act as one map: a put overwrites its key in whichever tier it is, and loses besides at most the one victim of the tier it goes to |
| `Tiered.DeleteIsMapDelete` | pkg/processor/atlassiansamplingprocessor/internal/cache/tiered_cache.go:51-54 | A delete removes exactly its key from that map |
| `Tiered.LookupIsMapLookup` | pkg/processor/atlassiansamplingprocessor/internal/cache/tiered_cache.go:29-34 | A lookup finds exactly what that map holds |
| `Tiered.PutVictimIsRecorded` | pkg/processor/atlassiansamplingprocessor/processor.go:626-658 | The victim of a put is effectively NotSampled when the put returns |
| `Tiered.PromotionIsSilent` | pkg/processor/atlassiansamplingprocessor/processor.go:385-403 | A primary trace is never demoted; the primary delete in the Low branch is a no-op; and deleting a raised trace from the secondary cache records no decision |
| `Tiered.NeverDemoted` | pkg/processor/atlassiansamplingprocessor/processor.go:331-406 | Processing a group of a trace that is in the primary tier never leaves it in the secondary tier |
| `Overlap.OverlapComesFromDecisionSpans` | pkg/processor/atlassiansamplingprocessor/processor.go:445-494 | In every run an ID is in both decision caches only if a true decision span released its pending data, and it is then effectively Sampled |
| `Overlap.OverlapExactly` | pkg/processor/atlassiansamplingprocessor/processor.go:466-476 | Processing a group puts its ID into both caches if and only if it is a true decision span for an undecided trace with pending data |
| `Capacity.OverlappingRun` | pkg/processor/atlassiansamplingprocessor/processor.go:466-476 | An input that overlaps the decision caches: a batch that no policy decides, then a true decision span; the batch is exported and its ID is in both |
| `Overlap.OverlapFlipsIff` | pkg/processor/atlassiansamplingprocessor/processor.go:345-492 | In any step a doubly recorded trace loses its Sampled decision exactly when the step records another trace as sampled, by a decision span or by a policy, while this one is the oldest entry of a full sampled cache; it then counts as not sampled unless the step pushes it out of the other cache too |
| `Overlap.GroupCaches` | pkg/processor/atlassiansamplingprocessor/processor.go:331-494 | Which groups record a Sampled decision, and what both decision caches hold afterwards if one does; no other group changes the sampled IDs |
| `Overlap.FlippedTraceIsDropped` | pkg/processor/atlassiansamplingprocessor/processor.go:408-430 | The next batch of a trace that such a step has flipped is dropped on arrival |
| `History.HeldIsHistory` | pkg/processor/atlassiansamplingprocessor/processor.go:385-403 | In every run what is held for a trace decodes to the concatenation, in arrival order, of all batches since it was admitted, and its metadata is the merge of theirs |
| `Provenance.HeldMetadataIsSinglePass` | pkg/processor/atlassiansamplingprocessor/internal/tracedata/tracedata.go:24-70 | In every run in which no received span starts at time 0, what is held for a trace has the metadata that one pass over exactly the spans it decodes to computes |
| `Provenance.RunSourced` | pkg/processor/atlassiansamplingprocessor/processor_copied.go:50-72 | In every run each batch of a history is the moved bucket of a received group of that trace, so what is known of received groups holds of held data |
| `Provenance.ExportsAreReceivedGroups` | pkg/processor/atlassiansamplingprocessor/processor.go:239-511 | In every run every exported resource is the moved bucket of a received group of its trace that was no decision span: same scopes and spans, under the attributes of that group's resource, without the flush count |
| `History.SecondaryHoldsOneStreak` | pkg/processor/atlassiansamplingprocessor/decider.go:43-81 | In every run a held trace is in the secondary tier exactly when every batch since admission was decided LowPriority, all by policies of one name; the stored name is present exactly when the last batch was, and names that policy |
| `History.LogMetaIsSinglePass` | pkg/processor/atlassiansamplingprocessor/internal/tracedata/tracedata.go:24-70 | For nonzero start times the merged metadata of a history is what one pass over all its spans computes: count as an int32, earliest start, latest end, first arrival |
| `History.FirstArrivalIsLeast` | pkg/processor/atlassiansamplingprocessor/internal/tracedata/metadata.go:32-34 | The arrival time kept for a history is one of its batches' and no later than any of them |
| `Recency.RecencyIsArrivalOrder` | pkg/processor/atlassiansamplingprocessor/processor.go:355-403 | In every run each pending tier lists its traces in the order in which they last had a batch held |
| `Recency.EvictedTracesAreOldest` | pkg/processor/atlassiansamplingprocessor/processor.go:301-403 | In every run a trace that leaves a tier in a step about another trace had its last batch no later than any trace of that tier; one that a resize evicts, no later than any that stays |
| `Recency.ProcessLeavers` | pkg/processor/atlassiansamplingprocessor/processor.go:331-406 | Processing a group evicts, besides taking its own trace away, at most the oldest entry of a tier that does not hold its trace |
| `Recency.VictimIsOldest` | pkg/processor/atlassiansamplingprocessor/internal/cache/lru_cache.go:73-75 | In a cache ordered by a time, the victim of an overflow has the least time |
| `Recency.ResizeVictimsAreOldest` | pkg/processor/atlassiansamplingprocessor/internal/cache/lru_cache.go:96-100 | In a cache ordered by a time, a resize evicts nothing that is newer than a survivor |
| `Outcomes.BatchIsSampled` | pkg/processor/atlassiansamplingprocessor/processor.go:336-383 | If the first policy to settle the matter for an undecided trace returns Sampled, what is held is sent and then the batch, nothing else is put out, and the trace is decided and no longer held |
| `Outcomes.BatchIsRejected` | pkg/processor/atlassiansamplingprocessor/processor.go:515-536 | If it returns NotSampled, what is held is dropped and then the batch, nothing is sent, and a placeholder with the policy's name goes out exactly if that policy asks for one |
| `Outcomes.BatchIsHeld` | pkg/processor/atlassiansamplingprocessor/processor.go:385-403 | If no policy samples or rejects it, the batch is held behind what was held before and nothing is sent; at most one other trace is let go of |
| `Outcomes.BatchIsLost` | pkg/processor/atlassiansamplingprocessor/processor.go:345-352 | A batch that cannot be encoded is lost and nothing else changes |
| `Outcomes.BatchFollowsDecision` | pkg/processor/atlassiansamplingprocessor/processor.go:408-460 | A batch of a decided trace is sent or dropped, the same on arrival as in processing, and changes nothing that is held or decided |
| `Outcomes.ArrivalIsQueued` | pkg/processor/atlassiansamplingprocessor/processor.go:408-430 | On arrival a decision span, or a batch of an undecided trace, is queued and touches nothing |
| `Outcomes.LateDecisionIsIgnored` | pkg/processor/atlassiansamplingprocessor/processor.go:445-462 | A decision span for a decided trace sends, drops, keeps and decides nothing |
| `Outcomes.DecisionSpanOutputs` | pkg/processor/atlassiansamplingprocessor/processor.go:463-480 | A decision span for an undecided trace sends what is held, or drops it without a placeholder, and decides the trace |
| `Outcomes.ResizeOutputs` | pkg/processor/atlassiansamplingprocessor/processor.go:301-309 | A resize lets go of exactly the oldest traces that are over the new size, oldest first, and sends nothing |
| `Outcomes.StripIsSent` | pkg/processor/atlassiansamplingprocessor/processor.go:501-505 | What is sent has the scopes, spans, decision and attributes of what was given, and no flush count; this determines it |
| `Lookups.LookupRefreshes` | pkg/processor/atlassiansamplingprocessor/processor.go:408-494 | A batch of a decided trace, on arrival and in processing, moves the decision that is found to the newest place and leaves the order of the others and the whole other cache alone; a decision span does so only in processing |
| `Lookups.CallbackRefreshes` | pkg/processor/atlassiansamplingprocessor/processor.go:638-658 | The eviction callback moves the trace to the newest place in each decision cache that knows it, and records it as newest not-sampled one if neither does |
| `Lookups.GroupRecords` | pkg/processor/atlassiansamplingprocessor/processor.go:331-536 | What one group records: the sampled cache gains at most its ID; the other cache is as before or gains one undecided ID, its own or that of a trace that has just left a tier |
| `Lookups.ResizeRecords` | pkg/processor/atlassiansamplingprocessor/processor.go:638-658 | A resize records exactly its victims as not sampled, in the order in which they leave |
| `Lookups.DecisionsAreLeastRecentlyUsed` | pkg/processor/atlassiansamplingprocessor/processor.go:239-494 | In every run each decision cache is in the order of the steps that last recorded or looked up each ID there, so what a step makes it forget was used no later than anything it keeps |
| `Handoff.HandoffReproducesDecisions` | pkg/processor/atlassiansamplingprocessor/processor.go:436-494 | Delivering a sender's decision spans to a fresh processor reproduces the sender's effective decision for every trace ID if and only if its caches have room for the sampled IDs and for those that are only not sampled; its caches are then disjoint even if the sender's overlapped |
| `Handoff.SameSizesSuffice` | pkg/processor/atlassiansamplingprocessor/processor.go:543-571 | A receiver with the sender's own cache sizes always reproduces every decision |
| `Handoff.FlushReproducesDecisions` | pkg/processor/atlassiansamplingprocessor/processor.go:436-571 | The whole round trip: flush, grouping in any order of the buckets, and processing by a processor of the same sizes reproduce every decision |
| `Handoff.FlushIsDelivered` | pkg/processor/atlassiansamplingprocessor/processor.go:543-571 | The decision spans of a flush, grouped by the receiver and visited in any order within each resource, are such a delivery |
| `Handoff.FirstDecisionWins` | pkg/processor/atlassiansamplingprocessor/processor.go:436-480 | Whatever decision spans a processor with nothing pending receives and has room for, each undecided trace gets the decision delivered first and each decided one keeps its own |
| `Handoff.FlushSendsAllHeld` | pkg/processor/atlassiansamplingprocessor/processor.go:573-606 | A flush sends every held span exactly as often as it is held |
| `Handoff.FlushHeldIs` | pkg/processor/atlassiansamplingprocessor/processor.go:573-606 | A flush sends exactly one batch for every held trace that decodes and none for any other: what it decodes to, with each flush count one higher, or 1 if it had none, and nothing else changed |
| `Shards.TiersDisjointUnderConcurrency` | pkg/processor/atlassiansamplingprocessor/processor.go:239-333 | With any number of shards interleaving at the grain of one cache operation, and resizes only while every shard is free, no ID is ever in both tiers, not even in the middle of a put |
| `Shards.ShardStepKeeps` | pkg/processor/atlassiansamplingprocessor/internal/cache/tiered_cache.go:41-54 | One cache operation of one shard keeps every shard's deletes in force, because only the owner of an ID inserts it |
| `Shards.ShardIDForTrace` | pkg/processor/atlassiansamplingprocessor/util.go:42-49 | The shard is below the shard count and is a function of the trace ID alone |
| `Shards.ShardIsSeededHash` | pkg/processor/atlassiansamplingprocessor/util.go:12-49 | The hash is that of the seed "s33d" followed by the bytes of the trace ID, from the standard offset, modulo the shard count |
| `Shards.FnvOfFoobar` | pkg/processor/atlassiansamplingprocessor/util.go:43 | The hash is 32-bit FNV-1a: the published value for "foobar" |
| `Iterator.TraceIterator` | internal/ptraceutil/iterator.go:15-35 | Visits the spans in flattening order, up to and including the first for which the consumer stops |
| `Pdata.TakeThroughStop` | internal/ptraceutil/iterator.go:15-35 | What a consumer visits that stops at an item: everything before it and the item itself, and nothing after it |
| `Grouping.GroupSpansByTraceID` | pkg/processor/atlassiansamplingprocessor/processor_copied.go:22-46 | One bucket per trace ID present, each the filter of the spans by that ID, in order, with a pointer to its source scope |
| `Grouping.AppendAndMoveToTraces` | pkg/processor/atlassiansamplingprocessor/processor_copied.go:50-72 | Appends to the destination one resource with the moved scopes, those of the function that the next rows are about |
| `Grouping.MoveIsStablePartition` | pkg/processor/atlassiansamplingprocessor/processor_copied.go:50-72 | For spans in any order: each source scope appears exactly once in the output, as a copy of it that holds exactly its own spans in their order |
| `Grouping.MoveKeepsOrder` | pkg/processor/atlassiansamplingprocessor/processor_copied.go:50-72 | For spans in scope order, flattening the output gives the same spans in the same order under their own scope and resource |
| `Grouping.GroupThenMoveIsFilter` | pkg/processor/atlassiansamplingprocessor/processor_copied.go:22-72 | Grouping and then moving is an order-preserving filter of the flattened input by trace ID |
| `Grouping.BucketsPartition` | pkg/processor/atlassiansamplingprocessor/processor_copied.go:22-46 | Visiting every bucket once, in any order, meets every span exactly as often as it came |
| `TraceObjects.Metadata.MergeWith` | pkg/processor/atlassiansamplingprocessor/internal/tracedata/metadata.go:29-39 | Merges into the receiver in place and leaves the argument alone |
| `TraceObjects.Metadata.DeepCopy` | pkg/processor/atlassiansamplingprocessor/internal/tracedata/metadata.go:42-45 | A fresh object with the same fields |
| `TraceObjects.ScanMetadata` | pkg/processor/atlassiansamplingprocessor/internal/tracedata/tracedata.go:24-46 | The scan over the spans computes their number, earliest start (with 0 as sentinel) and latest end |
| `TraceObjects.NewTraceData` | pkg/processor/atlassiansamplingprocessor/internal/tracedata/tracedata.go:24-64 | A fresh object over the batch, plain or compressed, with that metadata; an error exactly when encoding fails |
| `TraceObjects.SnappyTraceData.GetTraces` | pkg/processor/atlassiansamplingprocessor/internal/tracedata/snappy.go:29-48 | Decodes the blobs in order into one Traces, or fails if any of them does |
| `TraceObjects.TraceData.AbsorbTraceData` | pkg/processor/atlassiansamplingprocessor/internal/tracedata/tracedata.go:67-70 | Merges metadata and data in place, the metadata even if the facades do not fit together |
| `TraceObjects.TraceData.GetTraces` | pkg/processor/atlassiansamplingprocessor/internal/tracedata/tracedata.go:79-81 | What the facade decodes to |
| `TraceValues.EarliestMergeIff` | pkg/processor/atlassiansamplingprocessor/internal/tracedata/metadata.go:35 | The merged earliest start agrees with one pass over both batches exactly when the sentinel 0 does not get in the way; the condition is spelled out by cases |
| `TraceValues.ZeroStartIsForgotten` | pkg/processor/atlassiansamplingprocessor/internal/tracedata/metadata.go:35 | An input on which they differ: after batches that start at 0 and at 5 the merge gives 0, one pass 5 |
| `TraceValues.MergeIsSinglePass` | pkg/processor/atlassiansamplingprocessor/internal/tracedata/metadata.go:29-39 | For nonzero start times merging two batches' metadata equals one pass over their concatenation |
| `TraceValues.EarliestIsLeast` | pkg/processor/atlassiansamplingprocessor/internal/tracedata/tracedata.go:40-42 | With nonzero starts the earliest start is the least one |
| `TraceValues.EarliestAfterZero` | pkg/processor/atlassiansamplingprocessor/internal/tracedata/tracedata.go:40-42 | A span that starts at 0 has all earlier ones forgotten: the scan then gives the earliest start after the last such span |
| `TraceValues.LatestIsGreatest` | pkg/processor/atlassiansamplingprocessor/internal/tracedata/tracedata.go:43-45 | The latest end bounds every end and is one of them unless it is 0 |
| `TraceValues.WrapIsInt32` | pkg/processor/atlassiansamplingprocessor/internal/tracedata/tracedata.go:27 | The count is congruent to the true one modulo 2^32, in the range of an int32 |
| `TraceValues.DecodesIff` | pkg/processor/atlassiansamplingprocessor/internal/tracedata/snappy.go:29-48 | Held compressed data decodes if and only if every blob does |
| `Decider.MakeDecision` | pkg/processor/atlassiansamplingprocessor/decider.go:43-81 | The loop over the policies returns the verdict that the next rows describe |
| `Decider.VerdictIff` | pkg/processor/atlassiansamplingprocessor/decider.go:43-81 | In terms of what the evaluators return: the verdict is Sampled, NotSampled or LowPriority exactly when some policy returned that, unless another name's streak rewrites it, and no earlier policy had settled the matter; and Pending from no policy exactly when none does |
| `Decider.VerdictIsReturned` | pkg/processor/atlassiansamplingprocessor/decider.go:43-81 | The verdict is the very result of the first policy that settles the matter, with its name and placeholder flag |
| `Decider.DecideIsFirstDecisive` | pkg/processor/atlassiansamplingprocessor/decider.go:43-81 | The verdict is that of the first policy whose opinion, after the low-priority rewrite, is decisive, or Pending from no policy exactly when there is none |
| `Decider.VerdictShape` | pkg/processor/atlassiansamplingprocessor/decider.go:51-79 | Every verdict but Pending names a policy of the list, and once a policy has lowered a trace only one of the same name can lower it again |
| `RootSpans.FindOnlySpan` | pkg/processor/atlassiansamplingprocessor/internal/evaluators/root_spans.go:65-77 | The first span, skipping empty resources and scopes |
| `RootSpans.MergedPriorityNeverLow` | pkg/processor/atlassiansamplingprocessor/processor.go:345-356 | The priority that evaluators see is Unspecified whatever the held trace's is, so the Low default is never reached |
| `RootSpans.EveryResult` | pkg/processor/atlassiansamplingprocessor/internal/evaluators/root_spans.go:34-62 | Every result with the metadata that the processor merges: Pending if the sub-policy samples, an error exactly if the sub-policy fails or there is no span where the count says one, and otherwise Pending or LowPriority |
| `RootSpans.RootSpanParents` | pkg/processor/atlassiansamplingprocessor/internal/evaluators/root_spans.go:79-89 | The parent of a root span is eight zero bytes or the last eight bytes of its trace ID |
| `RootSpans.LowersExactlyWhen` | pkg/processor/atlassiansamplingprocessor/internal/evaluators/root_spans.go:34-63 | When `root_spans`, called by the processor, lowers a trace: an exact condition on the sub-policy, the span count and the first span |
| `RootSpans.OnlyLowersFirstSight` | pkg/processor/atlassiansamplingprocessor/internal/evaluators/root_spans.go:30-63 | The evaluator, given the metadata the processor merges, returns LowPriority exactly for a trace with no pending data whose single span is a root span that the sub-policy lets through |
| `FirstSight.OtherPolicyLowers` | pkg/processor/atlassiansamplingprocessor/decider.go:43-81 | With mixed policies, a low-priority verdict on anything else was made by a policy that is not `root_spans` |
| `FirstSight.NoneDecides` | pkg/processor/atlassiansamplingprocessor/internal/evaluators/root_spans.go:34-62 | With `root_spans` policies only, every verdict is Pending or LowPriority |
| `FirstSight.NeverDecidedByRootSpans` | pkg/processor/atlassiansamplingprocessor/processor.go:345-403 | With `root_spans` policies only, processing a batch of an undecided trace sends nothing and decides nothing about that trace by a verdict: the batch is held |
| `FirstSight.NeverKeptSecondary` | pkg/processor/atlassiansamplingprocessor/processor.go:345-403 | With `root_spans` policies, processing any group of a held trace leaves nothing of that trace in the secondary tier |
| `FirstSight.SecondaryIsOneRootSpan` | pkg/processor/atlassiansamplingprocessor/processor.go:331-406 | With `root_spans` policies, in every run what the secondary tier holds for a trace is one batch that is one root span, for fewer than 2^31 received spans of the trace |
| `FirstSight.CountOfLog` | pkg/processor/atlassiansamplingprocessor/internal/tracedata/tracedata.go:24-28 | The stored count of a history is the number of its spans, as an int32 |
| `Threshold.Evaluate` | pkg/processor/atlassiansamplingprocessor/internal/evaluators/threshold.go:34-58 | Sampled exactly when some span carries a valid threshold below 2^56 - 1 that is at most the big-endian value of the last 7 bytes of the trace ID |
| `Threshold.ThresholdValue` | pkg/processor/atlassiansamplingprocessor/internal/evaluators/threshold.go:60-85 | A threshold is valid exactly for "0x" and at most 14 hexadecimal digits, and is their value times 16 to the number of missing digits |
| `Threshold.ThresholdIff` | pkg/processor/atlassiansamplingprocessor/internal/evaluators/threshold.go:60-85 | Every span has a threshold exactly if its attribute is "0x" and at most 14 hexadecimal digits, and the threshold is their right-padded number |
| `Threshold.NothingCarried` | pkg/processor/atlassiansamplingprocessor/internal/evaluators/threshold.go:38-50 | A batch in which no span carries such an attribute never passes, so it is Pending |
| `Threshold.HexDigitsAre` | pkg/processor/atlassiansamplingprocessor/internal/evaluators/threshold.go:76-82 | The digits are 0 to 9, a to f and A to F, with the values 0 to 15 |
| `Threshold.TrailingZero` | pkg/processor/atlassiansamplingprocessor/internal/evaluators/threshold.go:60-85 | Appending a zero digit within 14 digits changes nothing |
| `Threshold.RvIsBigEndian` | pkg/processor/atlassiansamplingprocessor/internal/evaluators/threshold.go:88-91 | The shifts assemble the big-endian value of bytes 9 to 15 |
| `Threshold.MoreSpansStillSampled` | pkg/processor/atlassiansamplingprocessor/internal/evaluators/threshold.go:34-58 | Adding spans before or after never turns Sampled into Pending |
| `Regulator.NewRegulator` | pkg/processor/atlassiansamplingprocessor/internal/memory/regulator.go:42-61 | Accepts exactly nonnegative sizes with minimum below maximum and a positive target |
| `Regulator.Params.NewSize` | pkg/processor/atlassiansamplingprocessor/internal/memory/regulator.go:64-104 | The new size is within the bounds, for every heap and every size |
| `Regulator.Params.ModeAt` | pkg/processor/atlassiansamplingprocessor/internal/memory/regulator.go:68-88 | The five modes compare the heap to fixed multiples of its target |
| `Regulator.NewSizeByIntegers` | pkg/processor/atlassiansamplingprocessor/internal/memory/regulator.go:64-104 | Every mode and every new size in integer arithmetic, thresholds and factors included: the minimum in an emergency, the size times the square of the target-to-heap ratio or times that ratio, 2% more, or unchanged; then clamped |
| `Regulator.InitialSizeIs` | pkg/processor/atlassiansamplingprocessor/processor.go:113-114 | The first capacity is six tenths of the configured size, rounded down |
| `Regulator.NewSizeAntitone` | pkg/processor/atlassiansamplingprocessor/internal/memory/regulator.go:64-104 | More heap never means a larger cache, across all five modes and their boundaries |
| `Regulator.PressureReachesMin` | pkg/processor/atlassiansamplingprocessor/internal/memory/regulator.go:68-80 | Above target, iterating at a fixed heap shrinks the size by at least one each time until it is the minimum, and then it stays |
| `Regulator.SlackReachesMaxIff50` | pkg/processor/atlassiansamplingprocessor/internal/memory/regulator.go:81-83 | Below 85% of the target the size grows to the maximum if it is at least 50, and otherwise never moves |
| `Regulator.SteadyZoneIsFixed` | pkg/processor/atlassiansamplingprocessor/internal/memory/regulator.go:84-86 | In between, bounds included, it never moves |
| `Regulator.CapacityStaysInRange` | pkg/processor/atlassiansamplingprocessor/processor.go:113-166 | From the 60% start the capacity stays between a quarter of the configured size and all of it, whatever the heap does, for every configured size of at least 2 |
| `Lru.AddedValid` | pkg/processor/atlassiansamplingprocessor/internal/cache/lru_cache.go:73-75 | An added entry is held unless the capacity is 0; at most the victim leaves, and no other value changes |
| `Lru.AddedOrder` | pkg/processor/atlassiansamplingprocessor/internal/cache/lru_cache.go:73-75 | An added entry, new or overwritten, is the newest and the others keep their order; only a new entry in a full cache evicts, and what it evicts is the oldest |
| `Lru.ResizedValid` | pkg/processor/atlassiansamplingprocessor/internal/cache/lru_cache.go:96-100 | A resize drops exactly the oldest entries and keeps the rest as they were |
| `LruCache.NewLRUCache` | pkg/processor/atlassiansamplingprocessor/internal/cache/lru_cache.go:37-61 | Refuses a size that is not positive |
| `LruCache.LruCache.Get` | pkg/processor/atlassiansamplingprocessor/internal/cache/lru_cache.go:63-71 | A hit becomes the newest entry, a miss changes nothing; exactly one of the two counters goes up |
| `LruCache.LruCache.Put` | pkg/processor/atlassiansamplingprocessor/internal/cache/lru_cache.go:73-75 | Overwrites without an eviction, or pushes as newest and evicts the oldest if there is no room, handing it to the callback |
| `LruCache.LruCache.Delete` | pkg/processor/atlassiansamplingprocessor/internal/cache/lru_cache.go:77-79 | Removes the entry, if any, and hands it to the callback |
| `LruCache.LruCache.Keys` | pkg/processor/atlassiansamplingprocessor/internal/cache/lru_cache.go:85-88 | The keys, least recently used first |
| `LruCache.LruCache.Resize` | pkg/processor/atlassiansamplingprocessor/internal/cache/lru_cache.go:96-100 | The oldest entries leave, in order, and are handed to the callback |
| `PendingTier.PendingTier.Put` | pkg/processor/atlassiansamplingprocessor/internal/cache/lru_cache.go:73-75 | The cache of references goes on standing for the cache of values, and what it evicts has the value that the model evicts |
| `PendingTier.PendingTier.ResizeTo` | pkg/processor/atlassiansamplingprocessor/internal/memory/regulator.go:88-93 | The size asked for is the capacity afterwards, and the tier has lost exactly its oldest entries, or nothing if the size is the old one |
| `Processor.Processor.constructor` | pkg/processor/atlassiansamplingprocessor/processor.go:113-140 | A fresh processor holds nothing |
| `Processor.Processor.CheckDecisionCaches` | pkg/processor/atlassiansamplingprocessor/processor.go:484-494 | The sampled cache is asked first; what is found becomes the newest entry |
| `Processor.Processor.CacheEviction` | pkg/processor/atlassiansamplingprocessor/processor.go:638-658 | An evicted ID that no decision cache knows is recorded as not sampled; a known one is only refreshed |
| `Processor.Processor.SecondaryCallback` | pkg/processor/atlassiansamplingprocessor/processor.go:630-636 | The callback runs only if the object's priority, read at that moment, is still Low |
| `Processor.Processor.TierGet` | pkg/processor/atlassiansamplingprocessor/internal/cache/tiered_cache.go:29-34 | Returns the object held in the primary or else the secondary tier, which becomes its newest |
| `Processor.Processor.TierPut` | pkg/processor/atlassiansamplingprocessor/internal/cache/tiered_cache.go:41-49 | The deletion from one tier and the put into the other, with every callback they cause, have the effect the model gives them |
| `Processor.Processor.TierDelete` | pkg/processor/atlassiansamplingprocessor/internal/cache/tiered_cache.go:51-54 | Likewise for the deletion from both tiers |
| `Processor.Processor.Absorb` | pkg/processor/atlassiansamplingprocessor/processor.go:396-402 | Merging into a held object, in place, changes the value held for that trace in its tier and nothing else: the aliasing of the cache and the local variable is sound |
| `Processor.Processor.Send` | pkg/processor/atlassiansamplingprocessor/processor.go:501-511 | Hands the traces on with the flush count taken off every resource |
| `Processor.Processor.ReleaseNotSampled` | pkg/processor/atlassiansamplingprocessor/processor.go:515-536 | The decision is recorded before the deletion, so that the callbacks find it |
| `Processor.Processor.ExportHeld` | pkg/processor/atlassiansamplingprocessor/processor.go:371-380 | Sends what is held, if it decodes, and deletes it |
| `Processor.Processor.DecisionTrue` | pkg/processor/atlassiansamplingprocessor/processor.go:466-476 | Sends and deletes pending data before the decision is recorded |
| `Processor.Processor.CachedDecision` | pkg/processor/atlassiansamplingprocessor/processor.go:436-480 | Deals with a group exactly if its trace is decided or it is a decision span, with the model's effect |
| `Processor.Processor.ReleaseSampled` | pkg/processor/atlassiansamplingprocessor/processor.go:367-382 | Records, sends what is held and then the new batch |
| `Processor.Lower` | pkg/processor/atlassiansamplingprocessor/processor.go:363-394 | A low-priority verdict marks the new batch with Low and the name of the streak's policy; any other forgets the name in the copy only |
| `Processor.Processor.Judge` | pkg/processor/atlassiansamplingprocessor/processor.go:351-394 | Merges copies of the metadata, asks the policies and marks the batch, without changing any held object |
| `Processor.Processor.Hold` | pkg/processor/atlassiansamplingprocessor/processor.go:385-403 | Absorbs into the held object, if any, and puts the result into the tier of its priority |
| `Processor.Processor.ProcessGroup` | pkg/processor/atlassiansamplingprocessor/processor.go:331-406 | One group of `processTraces`, over shared mutable objects, refines the step of the model and keeps the invariant |
| `Processor.Processor.ProcessTraces` | pkg/processor/atlassiansamplingprocessor/processor.go:331-406 | The whole loop refines the sequence of those steps |
| `Processor.Processor.ProcessNext` | pkg/processor/atlassiansamplingprocessor/processor.go:294-329 | Taking one waiting group and processing it is one step of a run |
| `Processor.Processor.Perform` | pkg/processor/atlassiansamplingprocessor/processor.go:294-430 | Receiving a group, processing one or resizing is the step of the model of that name |
| `Processor.Processor.Run` | pkg/processor/atlassiansamplingprocessor/processor.go:239-430 | Performing any sequence of steps leaves the object in exactly the state of the model's run, so the theorems about runs are theorems about the object |
| `Processor.Processor.EarlyCheck` | pkg/processor/atlassiansamplingprocessor/processor.go:408-430 | A known decision is applied at once; everything else, and every decision span, is queued |
| `Processor.Processor.EarlyDecisionChecks` | pkg/processor/atlassiansamplingprocessor/processor.go:408-430 | Every bucket of a resource is checked, in any order: the decided ones take effect and are removed, and every one that is left must wait |
| `Processor.Processor.ConsumeTraces` | pkg/processor/atlassiansamplingprocessor/processor.go:239-291 | All resources are grouped and checked first and what is left is queued afterwards; the effect is that of receiving every bucket of every resource exactly once |
| `Processor.Processor.Regulate` | pkg/processor/atlassiansamplingprocessor/processor.go:301-309 | The regulator resizes the primary cache to its new size and the callbacks run on exactly the victims, oldest first |
| `Processor.Processor.FlushDecisions` | pkg/processor/atlassiansamplingprocessor/processor.go:543-571 | Two resources of decision spans, one span per recorded ID, and both decision caches are left empty |
| `Processor.Processor.FlushHeld` | pkg/processor/atlassiansamplingprocessor/processor.go:573-606 | Every held trace that decodes, tier by tier, with its flush counts raised by one |

## Left out

* Telemetry, logging, hit and miss metrics beyond the two counters of the cache, and the grouping of
  metrics by a resource attribute: no effect on decisions or data.
* The other evaluators (probabilistic, remote, latency, span count, status code, and, downgrader,
  OTTL): any function of the batch, the merged metadata and an outside input stands for each. An
  evaluator's error is only logged; the decision it returns with the error counts, as in the code.
* The bytes of protobuf and snappy: an encoder and a decoder, each of which may fail. The theorems
  about runs with compression assume that decoding inverts encoding.
* Batches whose encoding fails are reported and lost by the program; so they are in the model, and
  the theorems that count spans assume that this does not happen.
* Failures of the next consumer: "exported" means handed to it.
* Wall-clock time, deadlines, cancellation and goroutines. The asynchronous send of a late batch
  counts as immediate. The insertion times kept in the decision caches are only measured.
* The contents of the placeholder span of a not-sampled trace, and its random ID: it is recorded as
  an output of its own and is not counted as a span.
* Decoding of the configuration. The sizes are those that `config.go:87-94` accepts.
* Rounding of floating point: the regulator works on exact reals, and its sizes are the floors of
  those. Times are unbounded natural numbers.
* Claims about decided and pending traces, or about conservation, for several shards: the code does
  not keep them when one shard evicts another's trace between that shard's check and its put.
- Processor.Processor.ConsumeTraces: does not distribute the waiting groups over shards; they join
  the pool, of which `Shards.ShardIDForTrace` gives each group's shard.
- Processor.Processor.ProcessTraces: one shard's array of groups; the channels between the grouping
  and the shards are the pool of waiting groups.
- Processor.Processor.FlushHeld: returns what is sent, tier by tier; the program sends concurrently,
  so its order may differ, and it writes the raised flush counts into plain held data, which nothing
  reads afterwards.
- Processor.Processor.Send: the resource attributes other than the two of the processor are one
  opaque value.
- Shards.TiersDisjointUnderConcurrency: the interleaving is of the tier operations only; decision
  caches and exports are not part of that model.
