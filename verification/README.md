# Scripture, modelled in Dafny

Scripture is a durable log service over object storage. Producers submit records to a
Scribe; a Scribe seals them into chunks, packs the chunks of many Verses into one staging
object, and appends to each Verse's log pointers (DataRefs) into that object. A background
rewrite later copies one Verse's chunks into an object of its own and appends superseding
pointers, after which the staging object can be collected. Readers resolve pointers, check
digests, and may deduplicate by chunk id.

The project models this life and the cores around it, and proves what they keep:

- **Blob lifecycle.** Cutting, committing, reading, scanning, rewriting, resuming and
  collecting, each as the code does it (`BlobReader`, `BlobScan`, `BlobStore`,
  `BlobWriting`, `CommitPlan`, `CommitVerses`, `BlobRewrite`, `BlobCollect`), and as one
  state machine whose steps interleave freely (`Lifecycle`, `LifecycleRuns`). Commits and
  rewrite passes are shown to be runs of that machine (`CommitRuns`, `RewriteRuns`), so
  what holds of every run holds at every point where one of them may stop. From there:
  what commits and passes answer (`CommitAcks`, `RewriteAnswers`), the keys they store under
  (`ContentKeys`), the offsets they give (`DenseOffsets`), what a failed commit leaves
  (`CommitFailure`), rewrites as readers see them (`RewriteView`, `RewriteResume`,
  `ResumeScan`, `RewriteSamples`), and what collection costs (`CollectRuns`).
- **Producer.** The outbox with its append-only file and its disk faults (`OutboxWal`,
  `ProducerOutbox`, `OutboxRuns`, `OutboxClass`), what it answers (`OutboxAnswers`) and can
  forget (`OutboxHistory`, `OutboxForget`, `OutboxSamples`), the client over a network that
  drops and mixes up replies (`ProducerClient`, `ProducerRuns`, `ProducerAnswers`), and the
  world of client, messages in flight and Scribe (`ScribeRuns`).
- **Batch codec.** Loops and cursor (`BatchLoops`) against a grammar (`BatchCodec`), and its
  theory: inverse, truncation, canonicity (`BatchRoundTrip`, `OrderedAttrs`).
- **Consumer, capability findings, multi-assignment configuration** (`Consume*`,
  `Capability*`, `Assignment*`); from commit to printed line, `DenseConsume`.

Loops and objects of the source are methods and classes here, proved against functions;
the theorems are about those functions.

## What is assumed

- The content digest is injective (`CollisionFree`); a complete chunk announces its length
  whatever follows it (`SelfDelimiting`); its index agrees with its decoding
  (`IndexAgrees`). These are hypotheses of the lemmas that need them.
- Chunk ids name one content and one Verse (`Identity` in `Lifecycle`).
- The store is a map with create-only PUT; any PUT or GET may fail, and a PUT that took
  effect may be reported as failed. An append may be refused, take effect, or take effect
  with its answer lost; a log whose last answer was lost refuses further appends.
- A Producer Wire Submit frame is bounded, carries a 64-bit sequence, and decodes to the
  sequence it was encoded with (`SoundWire`).
- A Scribe acknowledges only what it applied (`HonestWorld`).
- Reading a position of the virtual log gives the entry of the last generation that starts
  at or before it.
- Whether bytes are UTF-8 (section 4 of RFC 3629), which characters are white space, and
  what an owner endpoint looks like are parameters. Text is one `char` per code unit.

## What the code does not do

Where a promise fails, the code is kept as it is, a lemma shows the failure, and another
says exactly when the promise holds.

- A commit that fails as a whole may already have appended for an earlier Verse
  (`CommitAnswers.FailedCommitMayHaveAppended`). It has exactly when an append took effect
  before the first group that cannot be encoded
  (`CommitFailure.FailedCommitAppendsExactly`).
- Resuming a rewrite can end elsewhere than an undisturbed pass
  (`RewriteResume.DuplicateChunksDiverge`, `RewriteSamples.ListedTwice`); it never does exactly when no two pointers that
  can be appended are of one chunk (`RewriteResume.ResumesExactly`).
- The collectability predicate also says yes of a rewritten object in use
  (`CollectRuns.YesForAnObjectInUse`). What it says yes of can go exactly when it is not a
  rewritten object that readers use (`CollectRuns.CollectableHarmlessExactly`); staging keys
  are not rewritten ones exactly when the prefixes are apart
  (`RewriteRuns.StagingKeyIsRewritten`).
- The outbox promises that a restarted producer cannot reuse a sequence. A sync failure
  while recording an ACK leaves a whole record the outbox does not count. That alone costs
  nothing: however many such records stray, reopening keeps every submission
  (`OutboxForget.StrayAcksForgetNothing`). But the next rolled-back stage cuts the file back
  to the bytes counted, and reopening then forgets a sequence exactly when no record of it
  ends within them, that is, before the last 17 bytes for each stray ACK
  (`OutboxForget.ForgottenExactly`, `OutboxForget.RunForgetsExactly`); the shortest such run
  is `OutboxForget.StagedThenForgotten`, and `OutboxSamples.ForgottenSubmission` is one. Torn
  writes are another matter: what they leave, like what a cut leaves of a record, is read
  with whatever is appended later as one record, so later submissions are dropped or the
  file no longer opens
  (`OutboxForget.TornExactly`, `OutboxSamples.TornThenCorrupt`). File and memory agree
  entirely, acknowledgements too, exactly while no failed call leaves bytes behind
  (`OutboxRuns.InStepExactly`).
- Staging reserves no room for the ACK record, so an outbox can fill up with submissions
  it can never retire (`OutboxRuns.RetireExactly`, `OutboxRuns.StuckForever`,
  `OutboxSamples.StuckOutbox`).
- The consumer's final cursor passes an entry that the record limit cut short
  (`ConsumeResume.LimitLosesARecord`); resuming there is lossless exactly when the limit cut
  nothing (`ConsumeResume.ResumeExactly`), which for one pass is when the limit is not
  reached or falls on the end of an entry (`ConsumeBoundary.ResumeAtBoundary`).
- The consumer does not deduplicate: it prints a chunk for every mention of it
  (`ConsumeSamples.ConsumerPrintsTwice`), and agrees with a scan exactly when no chunk
  mentioned again has records (`ConsumeRepeats.PrintsLikeScanExactly`).
- The consumer resolves superseded entries too: after a collection every scan works, but a
  consumer stops for good at the first entry that names the object
  (`ConsumeStops.CollectedEntryStopsConsumer`, `ConsumeSamples.ConsumerStopped`). It gets
  through exactly when every pointer on its way is still backed
  (`ConsumeStops.ConsumerGetsThroughExactly`).
- The batch decoder reports bytes left over after the last record as `Truncated`, although
  that error is documented as a batch that ended early
  (`BatchRoundTrip.OnlyTheWholeEncoding`). It means what it is named after exactly when the
  bytes do not strictly extend some batch (`BatchRoundTrip.TruncatedExactly`).

## Model

| member | source | states |
|---|---|---|
| BlobReader.FetchDataRef | crates/scripture-runtime/src/blob_reader.rs:95-123 | a pointer is fetched iff it is valid and both digests and the range match the stored object; the result is that slice |
| BlobReader.ResolveOne | crates/scripture-runtime/src/blob_reader.rs:75-88 | a pointer resolves exactly to the chunk its slice decodes to, under its own id |
| BlobReader.FailureSays | crates/scripture-runtime/src/blob_reader.rs:75-123 | each failure of a pointer is evidence of its own fault: no object, another object, too short a one, another slice, no chunk, another chunk |
| BlobReader.ResolveLogPayload | crates/scripture-runtime/src/blob_reader.rs:55-73 | an inline chunk decodes, a DataRef resolves, a ReferenceBatch is the list of its members resolved in order, stopping at the first failure |
| BlobReader.ResolveAllIsEach | crates/scripture-runtime/src/blob_reader.rs:55-88 | a list resolves iff each pointer resolves alone, with the same results |
| BlobReader.GrowRun | crates/scripture-runtime/src/blob_reader.rs:140-165 | the inner loop finds the longest same-key contiguous run from an index, or the first malformed pointer in it |
| BlobReader.PlanCoalescedGets | crates/scripture-runtime/src/blob_reader.rs:140-165 | fails with the first malformed pointer; otherwise its GETs cover the pointers in order, by contiguous runs, no two neighbours mergeable |
| BlobReader.PlanIsMinimal | crates/scripture-runtime/src/blob_reader.rs:140-165 | no order-preserving cover by contiguous GETs uses fewer |
| BlobReader.ResolveRun | crates/scripture-runtime/src/blob_reader.rs:168-212 | the pointers one GET serves resolve out of that object as they would alone |
| BlobReader.ResolveDataRefsCoalesced | crates/scripture-runtime/src/blob_reader.rs:168-212 | coalesced reading is one-at-a-time reading, errors included, after all pointers are validated |
| BlobReader.CoalescedAgrees | crates/scripture-runtime/src/blob_reader.rs:168-212 | it succeeds iff every pointer resolves alone, and returns the same list |
| BlobScan.DistinctIdsFacts | crates/scripture-runtime/src/blob_rewrite.rs:166-238 | the scan's order lists each chunk id of the log once |
| BlobScan.FirstRewrittenIs | crates/scripture-runtime/src/blob_rewrite.rs:148-160 | the rewritten candidate is the earliest rewritten pointer of its id, if any |
| BlobScan.LastInlineIs | crates/scripture-runtime/src/blob_rewrite.rs:166-238 | the inline candidate is the latest inline chunk of its id, if any |
| BlobScan.FirstRefIs | crates/scripture-runtime/src/blob_rewrite.rs:166-238 | the pointer candidate is the earliest pointer of its id, if any |
| BlobScan.RewrittenSticks | crates/scripture-runtime/src/blob_rewrite.rs:148-160 | a chosen rewritten pointer is never displaced by later entries |
| BlobScan.DistinctIdsGrow | crates/scripture-runtime/src/blob_rewrite.rs:166-238 | ids keep their place as the log grows |
| BlobScan.OfferRef | crates/scripture-runtime/src/blob_rewrite.rs:148-238 | handling one pointer keeps `best` and `order` equal to the closed form of what was read |
| BlobScan.OfferInline | crates/scripture-runtime/src/blob_rewrite.rs:166-238 | handling an inline chunk keeps `best` and `order` equal to the closed form |
| BlobScan.ScanLogDeduped | crates/scripture-runtime/src/blob_rewrite.rs:166-238 | the fold equals the closed form: one result per id, in order of first appearance, first rewritten pointer, else last inline chunk, else first pointer |
| ScanTheorems.ScanIs | crates/scripture-runtime/src/blob_rewrite.rs:166-238 | a scan succeeds iff every entry is readable and every chosen candidate resolves; it then lists exactly these, each under its own id |
| ScanTheorems.ReadsExactly | crates/scripture-runtime/src/blob_rewrite.rs:166-200 | a log can be read iff every entry can, and the error is that of the first that cannot |
| ScanTheorems.EntryFailureSays | crates/scripture-runtime/src/blob_rewrite.rs:209-238 | a malformed pointer is reported as such, any other failure is the read's |
| ScanPositions.ScanPrefers | crates/scripture-runtime/src/blob_rewrite.rs:148-238 | each chunk shown is, by positions in the log, the first rewritten pointer of its id; without any, the last inline copy; without either, the first pointer |
| BlobStore.Deployment.PutAndVerify | crates/scripture-runtime/src/blob_writer.rs:362-399 | the two-attempt loop stores and answers exactly what `PutOutcome` says, and touches nothing else |
| BlobStore.PutOutcomeSafe | crates/scripture-runtime/src/blob_writer.rs:362-399 | whatever is lost, at most this one object is created and none overwritten; Ok means it is stored with exactly these bytes |
| BlobStore.PutOutcomeOk | crates/scripture-runtime/src/blob_writer.rs:362-399 | it succeeds exactly when the first answered GET that finds the object sees the claimed digest, and reports a mismatch exactly when the first GET finds other bytes |
| BlobWriting.BlobWriter.PushEnvelope | crates/scripture-runtime/src/blob_writer.rs:446-463 | a push answers and changes the buffer exactly as `Called`, whose every cut `CutsExactly` tells from bytes and times |
| BlobWriting.BlobWriter.PollLinger | crates/scripture-runtime/src/blob_writer.rs:466-474 | a poll answers as `Called`: by `CutsExactly` it cuts iff the first envelope has waited for the linger bound |
| BlobWriting.BlobWriter.FlushDrained | crates/scripture-runtime/src/blob_writer.rs:477-482 | a drain cuts whatever is buffered |
| BlobWriting.BlobWriter.Cut | crates/scripture-runtime/src/blob_writer.rs:491-503 | a cut takes the whole buffer in order and leaves it empty |
| BlobWriting.WriterRuns | crates/scripture-runtime/src/blob_writer.rs:446-503 | over every run: cuts followed by buffer equal the accepted envelopes in order; bytes are the buffer's sum and below target; no cut is empty; a cut passes the target by less than its last envelope |
| BlobWriting.NothingLingers | crates/scripture-runtime/src/blob_writer.rs:446-489 | with a monotone clock, a call that cuts nothing leaves only envelopes younger than the linger bound |
| BlobWriting.CutsExactly | crates/scripture-runtime/src/blob_writer.rs:446-503 | over every run: a push is refused iff its envelope has no encoding or the count overflows; else it cuts for size iff the bytes reach the target, else for linger iff the first envelope has waited for the bound; a poll cuts iff it has; a flush cuts iff anything is buffered; reason and contents in each case |
| BlobWriting.WithClock | crates/scripture-runtime/src/blob_writer.rs:422-443 | a writer is made iff target and linger are not zero and the prefix is not blank |
| Grouping.GroupByFacts | crates/scripture-runtime/src/blob_writer.rs:215-234 | grouping gives one run per key, holding its values in their order |
| Grouping.GroupByKeepsAll | crates/scripture-runtime/src/blob_writer.rs:215-234 | grouping loses and duplicates nothing |
| Grouping.Regroup | crates/scripture-runtime/src/blob_writer.rs:267-277 | grouping groups laid end to end gives the same groups |
| CommitPlan.SealAllAt | crates/scripture-runtime/src/blob_writer.rs:215-234 | sealed chunk i answers envelope i, under its chunk id and with matching digest |
| CommitPlan.SealAndGroup | crates/scripture-runtime/src/blob_writer.rs:215-234 | the sealing loop seals every envelope or fails with the first fault, and groups as `GroupBy` |
| CommitPlan.Place | crates/scripture-runtime/src/blob_writer.rs:236-260 | the placement loops lay the groups end to end, or fail at the first chunk that cannot be placed |
| CommitPlan.PlaceAllTiles | crates/scripture-runtime/src/blob_writer.rs:236-260 | placements tile the object: no gap, no overlap, each slice its sealed bytes |
| CommitVerses.GroupPlacements | crates/scripture-runtime/src/blob_writer.rs:267-277 | the second grouping loop groups placements by Verse |
| CommitVerses.SecondGroupingIsFirst | crates/scripture-runtime/src/blob_writer.rs:236-277 | the second grouping reproduces the first: each Verse one contiguous run, in envelope order |
| CommitVerses.Prepare | crates/scripture-runtime/src/blob_writer.rs:281-298 | a group's pointers are prepared, or the commit fails with the first that cannot be encoded |
| CommitVerses.SplitBatchAck | crates/scripture-runtime/src/blob_writer.rs:306-327 | a batch ACK is split over the placements, each starting where the one before ends |
| CommitVerses.RefuseBatch | crates/scripture-runtime/src/blob_writer.rs:328-347 | a refused batch refuses every placement of the group |
| CommitVerses.CommitOneVerse | crates/scripture-runtime/src/blob_writer.rs:280-348 | one Verse's part changes only that Verse's log, and answers as `CommitGroup` |
| CommitVerses.CommitEachVerse | crates/scripture-runtime/src/blob_writer.rs:279-350 | the loop over Verses computes `CommitGroups` |
| CommitVerses.CommitCutPlan | crates/scripture-runtime/src/blob_writer.rs:201-351 | the whole commit changes store and logs, and answers, exactly as `Commit`, whose keys, acks and failures the rows below tell from the plan alone |
| ContentKeys.CommitKeysExactly | crates/scripture-runtime/src/blob_writer.rs:260-263 | two commits, in any stores, create objects under one key iff they have one prefix and create the same bytes |
| ContentKeys.CommitNeverMismatches | crates/scripture-runtime/src/blob_writer.rs:362-399 | in a store made by commits, rewrites and removals in any order, a commit never answers a digest mismatch, and once its first PUT and GET go through the store holds its bytes |
| CommitAcks.LaysOutExactly | crates/scripture-runtime/src/blob_writer.rs:201-262 | a plan is laid out iff it has a prefix, every envelope seals to its own chunk and digest, and every chunk has one frame within 2^64 bytes |
| CommitAcks.CommitAcksExactly | crates/scripture-runtime/src/blob_writer.rs:279-350 | a Verse's chunks are acknowledged iff it has a log nothing left undecided, the append is delivered, and the sealed chunks continue the log densely; else the first outcome says why and the rest share it |
| CommitAcks.AckedIsStored | crates/scripture-runtime/src/blob_writer.rs:201-351 | an acknowledged Verse has one more log entry, a pointer for one chunk and a batch for several, in envelope order, each backed by the store with exactly the sealed bytes |
| DenseOffsets.RunsAreDense | crates/scripture/src/chunklog.rs:455-690 | over every run of commits, rewrites and store changes from empty logs, committed chunks are numbered densely from zero in log order, and the next commit continues where the log ends unless an append was left undecided |
| CommitTheorems.GroupAnswered | crates/scripture-runtime/src/blob_writer.rs:299-348 | one Verse: all placements acknowledged densely from the log's next offset with the entry in the log, or all refused |
| CommitTheorems.GroupsAreIndependent | crates/scripture-runtime/src/blob_writer.rs:279-350 | the result is every Verse's own part, run on the logs as they were |
| CommitTheorems.CommitForVerse | crates/scripture-runtime/src/blob_writer.rs:279-350 | a Verse's outcomes and log are a function of its own log, its own placements and its own append, whatever the other logs and groups are |
| CommitAnswers.CommitAnswersEveryEnvelope | crates/scripture-runtime/src/blob_writer.rs:201-351 | when a commit answers, a Verse's outcomes name its envelopes once each and in order; all refused, or all acknowledged and tiling its new offsets |
| CommitAnswers.CommitAbortsExactly | crates/scripture-runtime/src/blob_writer.rs:281-294 | after a verified PUT the commit fails iff some chunk has a pointer that cannot be encoded |
| CommitFailure.GroupsStopAt | crates/scripture-runtime/src/blob_writer.rs:279-350 | the first group that cannot be encoded ends the commit: Verses before it hold what was appended to them, every other log is as it was |
| CommitFailure.FailedCommitAppendsExactly | crates/scripture-runtime/src/blob_writer.rs:201-351 | a failed commit has changed some log iff its object was stored and an append took effect before the first group that cannot be encoded |
| CommitFailure.CommitRefusalIsIsolated | crates/scripture-runtime/src/blob_writer.rs:201-351 | when a commit answers, it answers whatever becomes of other Verses' appends, with the same outcomes and log for a Verse |
| CommitFailure.SealingRefusalAborts | crates/scripture-runtime/src/blob_writer.rs:216-225 | an envelope that cannot be sealed ends the commit for every Verse, with store and logs as they were |
| CommitAnswers.FailedCommitMayHaveAppended | crates/scripture-runtime/src/blob_writer.rs:279-350 | a concrete failed commit whose first Verse was appended |
| BlobRewrite.BuildRewrittenObject | crates/scripture-runtime/src/blob_rewrite.rs:327-358 | the build loop fetches and concatenates the pointers' chunks as `Build` |
| BlobRewrite.LoadRewrittenPlacements | crates/scripture-runtime/src/blob_rewrite.rs:360-406 | the load loop recovers placements from a written object as `Load` |
| BlobRewrite.BuildCopies | crates/scripture-runtime/src/blob_rewrite.rs:327-358 | a built object is exactly the copies of its pointers, end to end |
| BlobRewrite.BuildThenLoad | crates/scripture-runtime/src/blob_rewrite.rs:327-406 | loading the written object recovers the placements that were built |
| BlobRewrite.BuildIsDeterministic | crates/scripture-runtime/src/blob_rewrite.rs:327-358 | two successful builds of the same pointers, in any stores, give the same object and placements |
| BlobRewrite.RewriteVerseStaging | crates/scripture-runtime/src/blob_rewrite.rs:244-319 | a pass changes store, log and progress, and answers, exactly as `RewritePass`, whose answers the rows below tell |
| BlobRewrite.SupersedeEach | crates/scripture-runtime/src/blob_rewrite.rs:287-312 | the append loop skips what is recorded, records what succeeds, and reports each outcome, exactly as `SupersedeAll` |
| RewriteAnswers.PassAnswersExactly | crates/scripture-runtime/src/blob_rewrite.rs:244-319 | a pass answers for exactly the listed chunks not recorded before; an answer is Ok iff its chunk is recorded now, and its ack names a new entry of the log, a verified pointer to that chunk's copy, with its first offset and record count |
| RewriteAnswers.PassAnswersByFate | crates/scripture-runtime/src/blob_rewrite.rs:287-312 | for distinct chunks an answer is Ok iff its append was delivered, the log would take the pointer, and no append before it was left undecided |
| RewriteAnswers.PassAnswersAtAll | crates/scripture-runtime/src/blob_rewrite.rs:244-406 | a pass answers at all iff its pointers are of one Verse and either all are backed and its PUT succeeds, or the object its progress names holds a copy of each, end to end |
| RewriteAnswers.FailedPassLeaves | crates/scripture-runtime/src/blob_rewrite.rs:244-319 | a pass that fails as a whole changes neither log nor progress, and a resumed one keeps store and object |
| ContentKeys.PassKeysExactly | crates/scripture-runtime/src/blob_rewrite.rs:492-504 | two passes create objects under one key iff they rewrite one Verse into the same bytes |
| ContentKeys.PassNeverMismatches | crates/scripture-runtime/src/blob_writer.rs:362-399 | in a store made by commits, rewrites and removals, a pass never fails with a digest mismatch |
| BlobCollect.SupersededChunkIds | crates/scripture-runtime/src/blob_rewrite.rs:453-471 | the superseded ids are those of rewritten pointers in the log; an unreadable entry fails the whole |
| BlobCollect.StagingBlobContentsFromBytes | crates/scripture-runtime/src/blob_rewrite.rs:434-446 | membership is read off the object chunk by chunk, or the object is malformed |
| BlobCollect.WalkIsLayout | crates/scripture-runtime/src/blob_rewrite.rs:434-446 | membership scanned from a staging object lists exactly the chunks a commit placed in it |
| BlobCollect.WalkExactly | crates/scripture-runtime/src/blob_rewrite.rs:434-446 | the walk succeeds iff the object is nothing but chunks end to end, and lists exactly those |
| BlobCollect.RemovalExactly | crates/scripture-runtime/src/blob_rewrite.rs:166-238 | removing an object leaves a working scan unchanged iff no chosen pointer names it |
| CollectRuns.CollectableIsSuperseded | crates/scripture-runtime/src/blob_rewrite.rs:434-490 | when the membership read off a staging object is inside the superseded ids of any Verses, every pointer into it in any log is superseded in that log |
| CollectRuns.YesIsNotVacuous | crates/scripture-runtime/src/blob_rewrite.rs:434-490 | a yes means the object holds chunks and each has a rewritten pointer in the log of its own Verse |
| CollectRuns.CollectionIsInvisible | crates/scripture-runtime/src/blob_rewrite.rs:479-490 | removing a staging object the predicate says yes of changes no Verse's scan, to the letter |
| CollectRuns.CollectionStaysInvisible | crates/scripture-runtime/src/blob_rewrite.rs:479-490 | so it is after any further run in which the object stays |
| CollectRuns.CollectableHarmlessExactly | crates/scripture-runtime/src/blob_rewrite.rs:479-490 | for any object the predicate says yes of, removal is harmless to a Verse iff it is not a rewritten object its readers use |
| BlobCollect.SiblingBlocksCollection | crates/scripture-runtime/src/blob_rewrite.rs:453-490 | no choice of logs makes an object collectable while a sibling's chunk in it is not superseded in its own log |
| Lifecycle.StepKeepsInv | crates/scripture-runtime/src/blob_rewrite.rs:166-490 | every enabled step of the lifecycle keeps the invariant |
| LifecycleRuns.LogsGrow | crates/scripture-runtime/src/blob_rewrite.rs:244-319 | over every run logs only grow and acknowledgements stay |
| LifecycleRuns.ScanIsFaithful | crates/scripture-runtime/src/blob_rewrite.rs:166-238 | in every reachable state a Verse's scan succeeds and lists each chunk of its log once, in log order, with that chunk's records |
| LifecycleRuns.AckedExactlyOnce | crates/scripture-runtime/src/blob_writer.rs:201-351 | every acknowledged chunk is in its Verse's scan exactly once, both digests matching |
| LifecycleRuns.NothingVanishesOrDoubles | crates/scripture-runtime/src/blob_rewrite.rs:166-490 | over any run, what a reader saw earlier is record for record the beginning of what it sees later |
| CommitRuns.CommitIsRun | crates/scripture-runtime/src/blob_writer.rs:201-351 | a whole commit is a run of the lifecycle in which no pointer is appended before its bytes are stored with the claimed digest |
| RewriteRuns.RewriteIsRun | crates/scripture-runtime/src/blob_rewrite.rs:244-319 | a whole rewrite pass, built or resumed, is a run of the lifecycle with bytes before pointers |
| RewriteRuns.StagingKeyIsRewritten | crates/scripture-runtime/src/blob_rewrite.rs:138-145 | a staging object's key counts as rewritten iff the writer's prefix lies at or below the rewritten prefix |
| RewriteRuns.DefaultPrefixesAreApart | crates/scripture-runtime/src/blob_rewrite.rs:37-51 | under the default configuration no staging object is taken for a rewritten one |
| CollectRuns.RewrittenObjectLooksCollectable | crates/scripture-runtime/src/blob_rewrite.rs:479-490 | of a rewritten object whose every chunk is read out of it the predicate says yes, and removing it breaks the scan |
| CollectRuns.YesForAnObjectInUse | crates/scripture-runtime/src/blob_rewrite.rs:479-490 | a concrete such object |
| RewriteView.PassIsInvisible | crates/scripture-runtime/src/blob_rewrite.rs:244-319 | a rewrite pass, from any progress and whatever is refused or lost, leaves the scan with the same chunks, records and order after any number of its appends |
| RewriteResume.ResumeEquivalence | crates/scripture-runtime/src/blob_rewrite.rs:263-311 | after any passes, failures, lost progress and foreign writes, the log holds for each chunk recorded as superseded the very pointer an undisturbed pass appends |
| RewriteResume.ResumesExactly | crates/scripture-runtime/src/blob_rewrite.rs:263-311 | resuming always ends so iff no two pointers that can be appended are of one chunk |
| ResumeScan.ResumedScanIsSame | crates/scripture-runtime/src/blob_rewrite.rs:263-311 | once complete, a disturbed rewrite, with others appending anything but rival rewritten pointers of its chunks meanwhile, leaves every scan equal, to the letter, to the scan after those entries and one undisturbed pass |
| RewriteResume.UndisturbedAppends | crates/scripture-runtime/src/blob_rewrite.rs:287-312 | with every append delivered, a pass appends the expected pointers, all of them, in order |
| RewriteResume.DuplicateChunksDiverge | crates/scripture-runtime/src/blob_rewrite.rs:287-312 | for any job with two appendable pointers of one chunk, refusing the first leaves only the other's pointer where an undisturbed pass appends the first's |
| RewriteSamples.ListedTwice | crates/scripture-runtime/src/blob_rewrite.rs:263-312 | a concrete job, one chunk listed twice, for which that happens |
| RewriteResume.RepeatIsIgnored | crates/scripture-runtime/src/blob_rewrite.rs:148-238 | a repeated superseding entry changes no scan |
| Hex.HexEncode | crates/scripture-runtime/src/blob_rewrite.rs:497-504 | the loop prints two lower-case digits a byte |
| Hex.HexTextInjective | crates/scripture-runtime/src/assignment_root.rs:26-34 | different byte strings print differently |
| Hex.HexTextReads | crates/scripture-runtime/src/blob_rewrite.rs:497-504 | read two digits at a time, high digit first, the text gives the bytes back |
| OutboxWal.ParseBodyInverts | crates/scripture/src/producer_outbox.rs:644-670 | a record's body parses to the record that was written |
| OutboxWal.AppliedOpFits | crates/scripture/src/producer_outbox.rs:707-770 | a replayed record keeps the sequences dense from 0, and can be written again |
| OutboxWal.ReplayFits | crates/scripture/src/producer_outbox.rs:707-770 | every history that replays has dense sequences and writable records |
| OutboxWal.ScanHistory | crates/scripture/src/producer_outbox.rs:672-705 | scanning the file of a history recovers it, then goes on with what follows |
| OutboxWal.CutAnywhere | crates/scripture/src/producer_outbox.rs:672-705 | cut at any byte, the file recovers exactly the records that stand whole before the cut |
| ProducerOutbox.PendingFromAscends | crates/scripture/src/producer_outbox.rs:499-510 | pending submissions are listed in strictly ascending sequence |
| ProducerOutbox.PendingFromHas | crates/scripture/src/producer_outbox.rs:499-510 | no pending submission is missing from the list |
| ProducerOutbox.ScanAgain | crates/scripture/src/producer_outbox.rs:249-297 | what reopening keeps of a file, reopened again, is kept whole |
| ProducerOutbox.AppendScans | crates/scripture/src/producer_outbox.rs:372-439 | after an appended record the file recovers it; after any strict part of one it recovers what was there before |
| OutboxRuns.StepGrows | crates/scripture/src/producer_outbox.rs:372-495 | no call, failing or not, changes the bytes of a sequence or takes an acknowledgement back |
| OutboxRuns.InStepExactly | crates/scripture/src/producer_outbox.rs:372-495 | a call keeps file and memory in step iff it leaves no stray bytes |
| OutboxRuns.RunsStayInStep | crates/scripture/src/producer_outbox.rs:372-495 | over every run without stray bytes, reopening recovers memory exactly |
| OutboxHistory.ReopenedHasHistory | crates/scripture/src/producer_outbox.rs:644-770 | a file that reopening keeps whole is, byte for byte, the file of the history reopening replays |
| OutboxHistory.ScanExactly | crates/scripture/src/producer_outbox.rs:672-705 | opening a file succeeds iff it is the file of an acceptable history and less than one more record, and recovers that history |
| OutboxAnswers.ReplayExactly | crates/scripture/src/producer_outbox.rs:707-770 | a history is acceptable iff each submission carries its own sequence, repeats earlier bytes or is the next, and each ACK follows its submission; what it leaves is told by its records |
| OutboxAnswers.StageExactly | crates/scripture/src/producer_outbox.rs:372-439 | a stage succeeds iff the outbox then holds those bytes under their sequence, and each refusal has its own condition |
| OutboxAnswers.MarkExactly | crates/scripture/src/producer_outbox.rs:459-495 | a mark succeeds iff the submission of this epoch is then acknowledged, and each refusal has its own condition |
| OutboxForget.ReplayKeys | crates/scripture/src/producer_outbox.rs:707-770 | the sequences of a history are exactly those its records stage |
| OutboxForget.ForgottenExactly | crates/scripture/src/producer_outbox.rs:406-425 | after a rolled-back stage reopening lacks a sequence iff every record that stages it stands past those whole in the bytes kept |
| OutboxForget.TracedStep | crates/scripture/src/producer_outbox.rs:372-495 | every call but a torn write or a cut keeps the file the file of a history of memory's submissions, 17 uncounted bytes for each stray ACK |
| OutboxForget.StrayAcksForgetNothing | crates/scripture/src/producer_outbox.rs:372-495 | over every run without torn writes or cuts, reopening recovers every submission in memory, whatever ACKs stray |
| OutboxForget.CutForgetsExactly | crates/scripture/src/producer_outbox.rs:406-425 | the first cut forgets exactly the sequences with no record that ends before the last 17 bytes for each stray ACK |
| OutboxForget.RunForgetsExactly | crates/scripture/src/producer_outbox.rs:372-495 | over every run without torn writes up to its first cut, a restarted producer can reuse no sequence iff every submission in memory has such a record |
| OutboxForget.TornExactly | crates/scripture/src/producer_outbox.rs:672-705 | torn bytes and what is appended after them are read as one record: dropped while short, corrupt on a wrong checksum, else parsed |
| OutboxForget.StagedThenForgotten | crates/scripture/src/producer_outbox.rs:406-425 | after an unsynced ACK record and a successful stage, a rolled-back stage makes reopening forget that submission and reuse its sequence |
| OutboxSamples.ForgottenSubmission | crates/scripture/src/producer_outbox.rs:406-425 | a concrete run in which that happens |
| OutboxSamples.TornThenCorrupt | crates/scripture/src/producer_outbox.rs:406-425 | a concrete run in which a stage torn after four bytes, then repeated with success, leaves a file that does not open |
| OutboxRuns.RetireExactly | crates/scripture/src/producer_outbox.rs:459-495 | pending submissions can all be retired iff 17 bytes are left for each |
| OutboxRuns.StuckForever | crates/scripture/src/producer_outbox.rs:512-528 | with less room than one ACK record no call ever changes an entry |
| OutboxSamples.StuckOutbox | crates/scripture/src/producer_outbox.rs:512-528 | a concrete outbox whose only submission no run of calls ever retires |
| OutboxClass.ScanWal | crates/scripture/src/producer_outbox.rs:672-705 | the scanning loop computes `Scan` |
| OutboxClass.Open | crates/scripture/src/producer_outbox.rs:249-297 | opening fails as the scan fails, else gives an outbox in step with the file cut to what was scanned |
| OutboxClass.Outbox.StageSubmit | crates/scripture/src/producer_outbox.rs:372-439 | staging is idempotent for equal bytes, refuses conflicts, gaps and overflow, and otherwise writes one record, exactly as `Stage` |
| OutboxClass.Outbox.MarkCommitted | crates/scripture/src/producer_outbox.rs:459-495 | marking refuses a wrong epoch, an unknown sequence and overflow, and otherwise retires one entry, exactly as `Mark` |
| OutboxClass.Outbox.PendingSubmissions | crates/scripture/src/producer_outbox.rs:499-510 | the loop lists the pending submissions |
| ProducerClient.ProducerWireClient.Submit | crates/scripture-producer-client/src/lib.rs:116-124 | a submit stages under the next sequence and then flushes up to it, exactly as `SubmitIs`, whose answers `SubmitAnswersLast` tells |
| ProducerClient.ProducerWireClient.FlushUntil | crates/scripture-producer-client/src/lib.rs:142-221 | the loop forwards pending submissions in order, marks each matching ACK, and stops at the wanted one or the first not committed, exactly as `Flush`, whose answers `FlushAnswersLast` tells |
| ProducerClient.ProducerWireClient.FlushAll | crates/scripture-producer-client/src/lib.rs:130-140 | a flush is a flush up to the last pending submission, if any |
| ProducerClient.ProducerWireClient.Retarget | crates/scripture-producer-client/src/lib.rs:101-103 | retargeting changes the route and nothing durable |
| ProducerAnswers.FlushAnswersLast | crates/scripture-producer-client/src/lib.rs:142-221 | a flush is Refused iff the last reply is that error frame, Committed with the ACK's own offsets iff it names the epoch and sequence sent, its range is not empty, it is the one wanted and the mark succeeded; every other reply has its own doubt, and a failed mark its own error |
| ProducerAnswers.SubmitAnswersLast | crates/scripture-producer-client/src/lib.rs:116-124 | a submit answers the fault that kept it from staging, or by its last reply |
| ProducerRuns.FlushIsRun | crates/scripture-producer-client/src/lib.rs:142-221 | every flush forwards a sequence only with its staged bytes and after all smaller ones are retired, retires only on that sequence's own ACK, and answers for what it left |
| ProducerRuns.SubmitIsRun | crates/scripture-producer-client/src/lib.rs:116-221 | every submit is such a run and never answers that its submission disappeared: it is committed, retained byte for byte, or was not staged |
| ProducerRuns.RetriesAreIdentical | crates/scripture-producer-client/src/lib.rs:142-192 | in every run, two attempts at one sequence send the same bytes, after every smaller sequence was retired |
| ProducerRuns.RunConcat | crates/scripture-producer-client/src/lib.rs:116-164 | runs follow one another, so calls may be repeated and interrupted at any step |
| ScribeRuns.MoveKeepsOrder | crates/scripture-producer-client/src/lib.rs:142-221 | every client step and every delivery, late or repeated, keeps the Scribe's log in order |
| ScribeRuns.LogIsStagedPrefix | crates/scripture-producer-client/src/lib.rs:116-221 | over every run the Scribe's log is a duplicate-free prefix of the staged submissions, in order, with everything retired in it |
| ScribeRuns.EveryLifeIsOrdered | crates/scripture-producer-client/src/lib.rs:116-221 | so it is for every life of a producer from its first submission on |
| ScribeRuns.ClientRunIsWorldRun | crates/scripture-producer-client/src/lib.rs:116-221 | any client run, spread among deliveries in any way, is a run of that world |
| OrderedAttrs.CollapseKeepsLast | crates/protoscripture/src/lib.rs:145-150 | the map a record decodes to holds, for each key, the last pair on the wire |
| OrderedAttrs.CollapseAscending | crates/protoscripture/src/lib.rs:145-150 | a decoded record's keys are strictly ascending bytewise |
| OrderedAttrs.CollapseShrinks | crates/protoscripture/src/lib.rs:145-150 | collecting pairs into a map takes fewer wire bytes iff a key repeats |
| BatchCodec.ParseExact | crates/protoscripture/src/lib.rs:97-162 | a byte string parses to records iff it is their wire form, within u32 framing and with UTF-8 attributes |
| BatchLoops.PutLenPrefixed | crates/protoscripture/src/lib.rs:71-76 | appends the length and the bytes, or fails when the length exceeds u32 |
| BatchLoops.EncodeBatch | crates/protoscripture/src/lib.rs:79-95 | the nested loops compute `Encode` |
| BatchLoops.Cursor.Take | crates/protoscripture/src/lib.rs:102-109 | takes the next bytes and moves past them, or fails and moves nowhere |
| BatchLoops.DecodeAttrs | crates/protoscripture/src/lib.rs:144-150 | the attribute loop inserts each pair it reads into the map |
| BatchLoops.DecodeBatch | crates/protoscripture/src/lib.rs:135-162 | the decoding loops compute `Decode`, errors included |
| BatchRoundTrip.RoundTrip | crates/protoscripture/src/lib.rs:79-162 | encoding succeeds iff everything fits u32 framing, and decoding then gives the records back |
| BatchRoundTrip.OnlyTheWholeEncoding | crates/protoscripture/src/lib.rs:97-162 | every strict prefix and every strict extension of an encoding is rejected as `Truncated` |
| BatchRoundTrip.TruncatedExactly | crates/protoscripture/src/lib.rs:97-162 | `Truncated` is answered iff the bytes run out while read or strictly extend some batch; the second is when all records are read and bytes are left |
| BatchRoundTrip.ReencodeExact | crates/protoscripture/src/lib.rs:79-162 | re-encoding what was decoded gives the same bytes iff every record's keys were strictly ascending; else fewer bytes if a key repeats, or the same pairs reordered |
| BatchRoundTrip.DecodeIsStable | crates/protoscripture/src/lib.rs:79-162 | what was decoded survives any further round trip |
| Consume.ObserveContiguousEnd | crates/scripture-cli/src/consume.rs:159-179 | the loop answers the last generation's start plus tail, saturating, and the generations in order |
| Consume.PrintEntry | crates/scripture-cli/src/consume.rs:320-345 | the nested loops print an entry's records in order up to the limit, as `EntryLines`, each line told by `LinesAreRecords` |
| Consume.RunConsume | crates/scripture-cli/src/consume.rs:247-367 | the loops print and report exactly as `Follow`, failures included; zero seconds without `no_follow` is refused |
| ConsumeLines.LinesAreRecords | crates/scripture-cli/src/consume.rs:320-345 | over any history and limit, line j is the record that j records come before: its entry's position, its frame's base offset plus its place in the frame while below 2^64, its payload |
| ConsumeLines.OffsetsAreConsecutive | crates/scripture-cli/src/consume.rs:329-336 | over chunks with dense base offsets the offsets printed are consecutive |
| DenseConsume.CommittedLogsPrintDensely | crates/scripture-cli/src/consume.rs:320-345 | over a log that commits made, without rewrites, they are, counting from the records before the entry it starts at |
| ConsumeTheorems.ReadAtIs | crates/scripture-campaign/src/cutover_oracle.rs:219-228 | under the chain rule, reading a position through the generations gives the entry of the flattened log |
| ConsumeTheorems.EntriesGrow | crates/scripture-cli/src/consume.rs:159-179 | when generations are only appended, the flattened log only grows |
| ConsumeTheorems.MeaningIsUnique | crates/scripture-cli/src/consume.rs:311-318 | an entry resolves to the same chunks in every store that resolves it |
| ConsumeTheorems.ConsumeIsContinuous | crates/scripture-cli/src/consume.rs:273-356 | over any such history the lines printed are those of the entries from `from` to the final cursor, each once and in order, cut at the limit; the only failure is an entry that does not resolve |
| ConsumeTheorems.ConsumeReachesEnd | crates/scripture-cli/src/consume.rs:273-356 | a run that does not fail stops at the limit or at the end it last observed |
| ConsumeTheorems.ReadBelowOrigin | crates/scripture-cli/src/consume.rs:306-308 | a position before the first generation reads nothing |
| ConsumeResume.ResumeExactly | crates/scripture-cli/src/consume.rs:273-356 | a limited run and an unlimited one from its final cursor print together what one unlimited run prints to the same point iff the entries the first read hold no more lines than its limit |
| ConsumeResume.LimitLosesARecord | crates/scripture-cli/src/consume.rs:273-356 | a concrete run limited to one record, resumed at its final cursor, never prints the second record of its entry |
| ConsumeBoundary.ResumeAtBoundary | crates/scripture-cli/src/consume.rs:273-356 | for one pass, that is lossless iff the limit is not reached or equals the lines of some whole number of entries from the start |
| ConsumeTheorems.MembershipChangeExactly | crates/scripture-cli/src/consume.rs:285-296 | a membership change is reported iff the last observed view has several generations or more than the first |
| ConsumeRepeats.SupersedingPrintsAgain | crates/scripture-cli/src/consume.rs:311-345 | a superseding pointer no scan can notice prints its chunk's records again, unless it has none |
| ConsumeRepeats.PrintsLikeScanExactly | crates/scripture-cli/src/consume.rs:298-348 | over a whole log the lines are the records of every mention of every chunk, and equal a scan's iff no chunk mentioned again has records |
| ConsumeRepeats.RunPrintsLog | crates/scripture-cli/src/consume.rs:273-356 | those lines are what a one-shot run without a limit prints of a log whose entries all resolve |
| ConsumeSamples.ConsumerPrintsTwice | crates/scripture-cli/src/consume.rs:298-348 | a concrete log of one chunk, rewritten once: the consumer prints its record twice, a scan shows it once |
| ConsumeStops.CollectedEntryStopsConsumer | crates/scripture-cli/src/consume.rs:306-318 | after a collection that leaves every scan working, no run started at or before an entry that names the object gets past it, however the log grows |
| ConsumeSamples.ConsumerStopped | crates/scripture-cli/src/consume.rs:306-318 | a concrete such collection: the scan still works, the consumer stays at the first entry |
| ConsumeStops.ConsumerGetsThroughExactly | crates/scripture-cli/src/consume.rs:273-356 | a one-shot run without a limit gets through iff every pointer from its start on, superseded or not, is still backed by the store |
| Capability.RecoveryExactly | crates/scripture-runtime/src/capability.rs:308-382 | a Verse's recovery is satisfied iff some candidate names that Verse, can serve and is fresh; it needs a live look iff nothing was declared or observed |
| Capability.CollectRequirementFindings | crates/scripture-runtime/src/capability.rs:442-515 | the loops push one finding per unmet requirement and scope, then sort and drop repeats |
| CapabilityTheorems.SortedIs | crates/scripture-runtime/src/capability.rs:487-498 | the sort is stable: ordered by key, the same findings, first of each key still first |
| CapabilityTheorems.DedupedStrict | crates/scripture-runtime/src/capability.rs:499-499 | dropping neighbours with one key leaves strictly increasing keys |
| CapabilityTheorems.FindingsAreExact | crates/scripture-runtime/src/capability.rs:208-515 | keys are strictly increasing and exactly the unmet ones, each finding the first raised under its key |
| CapabilityTheorems.FindingsSay | crates/scripture-runtime/src/capability.rs:308-515 | a recovery finding asks for a live look iff the first Verse of its scope lacking a candidate has nothing declared or observed; every other says unsatisfied; a storage finding names the first floor not reached |
| CapabilityTheorems.FindingsInOrder | crates/scripture-runtime/src/capability.rs:487-498 | findings stand by code in the order history, continuity, recovery, storage, then by Canon and Verse bytewise |
| CapabilityTheorems.ReportCounts | crates/scripture-runtime/src/capability.rs:308-382 | a Verse's report counts its fresh candidates and the eligible among them, up to 2^32 - 1 |
| CapabilityTheorems.EmptyIffAllHold | crates/scripture-runtime/src/capability.rs:442-501 | no findings iff every required guarantee holds on the inputs |
| CapabilityTheorems.OrderDoesNotMatter | crates/scripture-runtime/src/capability.rs:442-501 | the key list does not depend on order or repetition of requirements or Verses |
| CapabilityTheorems.ImprovingAddsNoKey | crates/scripture-runtime/src/capability.rs:208-501 | more candidates, targets or a spool never add a key |
| Assignments.AssignmentDurableRoot | crates/scripture-runtime/src/assignment_root.rs:12-24 | the root is the trimmed prefix, `/cv/` and the two ids in hexadecimal |
| AssignmentIsolation.DeploymentIs | crates/scripture-cli/src/config.rs:752-752 | roots lie under the configured prefix less the white space around it and the slashes at its end |
| Assignments.ValidateMultiAssignment | crates/scripture-cli/src/config.rs:708-859 | the checks with their sets report the first fault of the first faulty assignment |
| AssignmentIsolation.RootStaysInside | crates/scripture-cli/src/config.rs:831-850 | a derived root has no `..` and stays under the deployment prefix |
| AssignmentIsolation.RootsApart | crates/scripture-runtime/src/assignment_root.rs:12-34 | roots of different Canon/Verse pairs are different and none is a prefix of another |
| AssignmentIsolation.RootChecksNeverFire | crates/scripture-cli/src/config.rs:831-857 | no configuration is ever refused for `..` in a root, for escape, or for a repeated root |
| AssignmentIsolation.AcceptedExactly | crates/scripture-cli/src/config.rs:708-859 | a configuration is accepted iff its prefix, limits and modes are in order, each spelled out, its assignments well formed and sharing nothing, and all raw and wire sockets pairwise distinct |
| AssignmentIsolation.AcceptedRootsApart | crates/scripture-cli/src/config.rs:752-857 | in an accepted configuration no durable root equals or lies inside another |
| AssignmentIsolation.StoreRootNeverFails | crates/scripture-cli/src/config.rs:934-958 | asking an accepted configuration for a root never fails |

## Left out

- The byte formats of chunks and DataRefs (`crates/scripture/src/chunk.rs`, `dataref.rs`): used through the hypotheses above; a log entry is modelled after decoding.
- Holylog itself, the conditional register and the virtual log's own protocol: only what is assumed above.
- Writer recovery from a log suffix, producer deduplication inside the Scribe, the Scribe-local spool and receipts.
- The serving-authority gate and bootstrap, directory heartbeats, HTTP probes, the campaign and lab tools.
- Cohort, generation and journal checks of an append: an append that fails them is a refusal.
- Error texts, display strings and the observed/consequence/remediation wording of findings; which fixed-id field was malformed.
- Consumer counters' saturation at 2^64, the per-generation record counts it keeps but does not report, sleeping, and the rendering of a line.
- BlobWriting.WithClock: only ASCII white space makes a prefix blank.
- BlobWriting.BlobWriter.PushEnvelope: the encoded length of an envelope is a parameter, because it belongs to the chunk format.
- OutboxClass.Open: ownership lock and identity file are not modelled; the file is given as its bytes.
- ProducerClient.ProducerWireClient.Submit: real time is not modelled; a timeout is a reply that does not come.
- Consume.RunConsume: the passes made before the deadline are given as a list, so how many there are is the environment's choice.
- Assignments.ValidateMultiAssignment: sockets are compared as text, as the code does; two spellings of one address are different sockets.
