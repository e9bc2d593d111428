# Durable alert pipeline: verification model

A Dafny model of the part of the alert service that must not lose, duplicate or reorder anything: the
keyspaces that hold incidents, match jobs, delivery batches, retries, dead letters, subscriptions and
confirmations, the workers that move records between them, and the algorithms they rely on. A keyspace is
a map; one write batch is one step; reads inside an operation see the state before its batch.

## What is proved

- **Delivery** (`DeliverySpec` to `DeliveryLedger`). Match commits, destination lanes, the retry worker,
  retention and partial or full crashes interleave in any order behind per-destination locks. In every
  reachable state each row of each committed batch is in exactly one place (unprogressed, one live retry,
  terminal); nine keyspaces are the image of one table of row statuses; rows of a destination end in order;
  a queue always has a head that can go on; attempts are counted exactly and bounded; the checks before each
  commit always pass; between two match commits the remaining work bounds the number of commits. The write
  path is a class whose methods are proved to take exactly these steps. With its guards, a revision reaches
  a destination again only after another revision of the same incident did or retention removed its record.
  `DeliveryOutcomes` says in plain numbers what each send makes of its row, over whole runs.
- **Incidents** (`Incidents` to `Pipeline`, with `ReportAcceptance`, `JobDecision`, `Correlation`,
  `InboxOrder` and `Retention`). Watermarks only move forward, a report is applied at most once (with the
  exact exception), an incident never holds two streams of one source, every index matches its reverse,
  every job and live batch finds its event and incident, and job counts are exact, over every run of ingest,
  processing, matching, delivery and retention together. When a report is applied, which incident an event
  joins, when it makes a match job and what is kept are stated as conditions on the reports and records
  alone, in both directions.
- **Matching** (`Subscriptions` to `MatchWorker`). What a subscription asks for is stated from its targets,
  rules and bands; the reference matcher answers exactly that. Compiled records, an inverted index kept by
  batches that read old bitmaps, and a lookup by plan agree with the reference matcher on every stored
  subscription in every reachable state, with the exact exception. From a job of a reachable state to its
  committed batches, the rows are those the reference asks for.
- **The whole pipeline** (`Pipeline` and `PipelineGuarantees`). The delivery part of every pipeline run is a
  run of the delivery state machine, so all of the above holds there; and in whatever order jobs are
  matched, no revision of an incident is delivered to a destination twice.
- **Confirmations** (`Registry` to `ConfirmationPass`, with `LeaseExclusion` and `SubscriptionEffects`).
  Nobody is given an operation before its lease or wait is over, and anybody can take it from then on. Only
  the token of the latest lease works, a fenced confirmation never acts again, whatever record its worker
  had read, and a generation names one version of a subscription.
- **Algorithms**: calendar and timestamps, payload fitting, batch splitting, key encodings, event keys.

Two properties do not hold as their neighbours suggest. Each is given with its exact condition:
`IncidentTheorems.CancelAppliesTwice` beside `AppliedAtMostOnce` (a cancellation that is not final), and
`MatchingTheorems.NegativeMagnitudeDiffers` beside `CompilationPreserves`. The second concerns warnings with
a negative magnitude: the engine refuses them all, the reference only those whose estimate, which is then 0,
falls into no band. They disagree exactly when the event is placed, a target is within the limit and a
warning alert accepts the source with a band that starts at 0.

History that the program does not store (the status table, failure counts, the confirmation ids used) is
kept in the states of the runs only to state properties; no step reads it to decide what it writes, except
that a worker's own guard on a freshly allocated id is expressed through it.

## Model

| member | source | states |
|---|---|---|
| `DeliveryGuarantees.RowsAreConserved` | src/storage/fjall.rs:1218-1484 | in every state of every run each row of a committed batch is exactly one of: unprogressed in a pending batch, named by one live retry, or terminal; the queue holds it exactly until it is terminal |
| `DeliveryGuarantees.RecordsNameRows` | src/storage/fjall.rs:1563-1760 | every queue entry, retry and dead letter names a row of a committed batch in the matching status, a dead letter is the only one of its row, and each waiting or dead-lettered row has its record under every key |
| `DeliveryGuarantees.BatchRecordsFollowRows` | src/storage/fjall.rs:1365-1387 | key (0, id) exists exactly while a row is unprogressed, key (1, id) exactly while none is and a retry is live, and both hold the batch as committed |
| `DeliveryGuarantees.QueuesNeverStick` | src/storage/fjall.rs:1202-1216 | a destination with a row that is not terminal has a queue head, and every head is an unprogressed row of a pending batch or a retry that is accepted as head |
| `DeliveryGuarantees.AttemptsAreBounded` | src/runtime/pipeline.rs:1093-1138 | the attempts of a retry or dead letter equal the row's failed sends, at most 12 while it retries and 13 when dead-lettered |
| `DeliveryGuarantees.ScanOfReachable` | src/storage/fjall.rs:1526-1561 | in every reachable state the scan meets no broken entry and finds exactly the due retries whose row has only terminal rows before it in its destination, up to its limit |
| `DeliveryTheorems.FirstInFirstOut` | src/runtime/pipeline.rs:600-703 | when a row is terminal every earlier row of its destination, in any batch, already is, and stays as it is for the rest of the run |
| `DeliveryTheorems.DoneForever` | src/storage/fjall.rs:1345-1364 | a terminal row keeps its outcome for the rest of the run |
| `DeliveryTheorems.RunKeepsInv` | src/runtime/pipeline.rs:498-598 | the whole delivery invariant holds in every state of every run, for any interleaving of lanes, retries, match commits and crashes that lose any of the lanes and locks |
| `DeliveryInvariant.StepKeepsInv` | src/runtime/pipeline.rs:781-840 | each step keeps it, a lane or retry committing after arbitrary steps of other destinations |
| `DeliveryInvariant.LaneIsAccepted` | src/storage/fjall.rs:1229-1355 | every check of the lane commit passes for a lane that holds its lock |
| `DeliveryInvariant.RetryFindsItsRow` | src/runtime/pipeline.rs:1049-1090 | a live retry finds its batch and row, so the worker's corrupt and missing branches are unreachable |
| `DeliveryProgress.WorkBoundsCommits` | src/runtime/pipeline.rs:600-703 | while no match output arrives, remaining work plus commits made never exceeds the work at the start, and no work is left exactly when all rows are terminal |
| `DeliveryProgress.HeadCanProceed` | src/storage/fjall.rs:1638-1658 | any queue head is an unprogressed row or a retry head |
| `DeliveryProgress.RetryHeadMeans` | src/storage/fjall.rs:1638-1658 | in every reachable state the retry worker accepts as head exactly the retry of a waiting row with only terminal rows before it |
| `RowSteps.LaneCommitAgrees` | src/storage/fjall.rs:1218-1392 | the lane commit keeps all keyspaces the image of the table in which each completed row took the status the lane decided |
| `RowSteps.FinishRetryAgrees` | src/storage/fjall.rs:1736-1760 | finishing a retry keeps them so, including whether the retained batch goes |
| `RowSteps.RescheduleAgrees` | src/storage/fjall.rs:1563-1601 | rescheduling keeps the three retry indexes in agreement, also when the due time does not change |
| `RowSteps.AddBatchesAgrees` | src/storage/fjall.rs:1470-1480 | committing match output adds exactly its rows, all unprogressed |
| `LaneOutcome.TerminalPrefix` | src/runtime/pipeline.rs:643-698 | within a lane the terminal rows form a prefix, and there are some only at the head of the queue |
| `LaneOutcome.LaneOfStatus` | src/runtime/pipeline.rs:643-700 | the five lists a lane commits give every row exactly the status planned for it |
| `LaneOutcome.RetryDelayBounds` | src/runtime/pipeline.rs:1390-1394 | waits start at 1000 ms, double up to 512000 ms for nine attempts and are 900000 ms from ten on |
| `DeliveryStorage.Keyspaces.CommitLaneOutcome` | src/storage/fjall.rs:1218-1392 | commits the lane exactly when all its checks hold, and otherwise changes nothing |
| `DeliveryStorage.Keyspaces.DeliveryIsDestinationHead` | src/storage/fjall.rs:1202-1216 | answers whether the entry is the least of its destination |
| `DeliveryStorage.Keyspaces.RetryIsDestinationHead` | src/storage/fjall.rs:1638-1658 | answers whether the stored retry is the candidate and heads both queues |
| `DeliveryStorage.Keyspaces.RescheduleRetry` | src/storage/fjall.rs:1563-1601 | replaces the retry when it is still the previous one with the same identity |
| `DeliveryStorage.Keyspaces.CompleteRetry` | src/storage/fjall.rs:1603-1636 | removes a current retry, does nothing for an absent key, fails for another record |
| `DeliveryStorage.Keyspaces.CompleteRetryWithSuccess` | src/storage/fjall.rs:1660-1706 | accepted exactly when retry, batch, row and success agree; removes the retry and records the delivery |
| `DeliveryStorage.Keyspaces.DeadLetterRetry` | src/storage/fjall.rs:1708-1734 | moves a current retry to the dead letters |
| `DeliveryStorage.Keyspaces.AddBatches` | src/storage/fjall.rs:1411-1480 | adds non-empty batches under ids not in use, or nothing |
| `DeliveryStorage.Keyspaces.DueRetryHeads` | src/storage/fjall.rs:1526-1561 | every result is a due head, destinations ascend, at most the limit; with agreeing indexes the pass succeeds and misses only heads past the last destination reached at the limit |
| `DeliveryWorker.PendingLanes` | src/runtime/pipeline.rs:564-598 | groups exactly the unprogressed rows of a pending batch by destination, in row order |
| `DeliveryWorker.LanesAreStarted` | src/storage/fjall.rs:1178-1200 | in a reachable state these are the lanes the state machine starts with |
| `DeliveryWorker.FillLane` | src/runtime/pipeline.rs:621-698 | the loop builds exactly the planned lists |
| `DeliveryWorker.WorkerPlans` | src/runtime/pipeline.rs:621-698 | only a head is attempted and nothing after a transient failure; each record is due a second after its outcome and is as old as its making, a dead letter as old as its batch |
| `DeliveryWorker.ProcessLane` | src/runtime/pipeline.rs:600-703 | reads the head, fills the lane and commits it, all or nothing |
| `DeliveryWorker.LoadRetry` | src/runtime/pipeline.rs:1041-1090 | what is read under the lock in each of the four cases, and when the retry is completed instead |
| `DeliveryWorker.FinishAttempt` | src/runtime/pipeline.rs:1092-1138 | success, reschedule or dead letter; a current retry that fails transiently is stored again under its id with one more attempt, and no letter is added, while it has fewer than 12 attempts and is younger than 86400000 ms; nothing when the retry changed |
| `DeliveryOutcomes.WrittenAttempt` | src/runtime/pipeline.rs:1092-1138 | in the keyspaces, what a send leaves: the same retry once more, or exactly one dead letter with its facts from 12 attempts or a day on and for permanent failures, or nothing left to do |
| `DeliveryOutcomes.RetryDecides` | src/runtime/pipeline.rs:1092-1138 | over whole runs: a retry commit ends its row delivered, skipped or given up, or waiting with one more attempt, and a transient failure gives up exactly when 12 sends of the row had failed before or the retry is a day old |
| `DeliveryOutcomes.LaneDecides` | src/runtime/pipeline.rs:600-703 | over whole runs: what a lane commit makes of each row, from the head, the earlier transient failures and its own result |
| `DeliveryWorker.WorkerTakesRetryStep` | src/runtime/pipeline.rs:1038-1140 | from a reachable state the worker's write is the step of the state machine and no check fails |
| `DeliveryWorker.WorkerTakesLaneStep` | src/runtime/pipeline.rs:600-703 | from a reachable state the lane's write is the step of the state machine and no check fails |
| `DeliveryGuards.MatchedRowIsSkippedOrWhole` | src/runtime/pipeline.rs:1149-1189 | a matched row guarded at any later time is skipped or goes to the very target and rule it matched, and it is skipped exactly when its revision is recorded or its subscription is no longer active at its generation; the two permanent guard errors cannot happen below the maximal generation |
| `DeliveryGuards.DeliversWhen` | src/runtime/pipeline.rs:1149-1189 | the guards skip a row exactly when its category is retired, its revision is recorded for the destination or its subscription is gone, inactive or at another generation; what is let through goes to its target under the rule of its category |
| `DeliveryGuards.DeliveredIsSkipped` | src/storage/fjall.rs:1774-1789 | right after a lane has committed a success any row of the same incident, category, destination and revision is skipped |
| `DeliveryGuards.RetriedIsSkipped` | src/storage/fjall.rs:1660-1706 | the same right after a retry has committed one |
| `DeliveryLedger.StepFollows` | src/storage/fjall.rs:1288-1312 | a delivered row leaves its entry with its revision, and an entry changes only with a delivery under it, retention apart |
| `DeliveryLedger.GuardAnswerStands` | src/runtime/pipeline.rs:1154-1172 | while a destination is locked no step of another records anything its guard reads, and only retention takes anything out |
| `DeliveryLedger.GuardAnswerCarries` | src/runtime/pipeline.rs:608-614 | what a guard did not find recorded under the lock is not recorded when the holder commits, whatever steps came between |
| `DeliveryLedger.SkippedUntilAnother` | src/storage/fjall.rs:1774-1789 | in every later state the revision is skipped until another revision of the incident is delivered to the destination or retention removes the entry |
| `DeliveryLedger.AnotherRevisionBetween` | src/runtime/pipeline.rs:1149-1172 | when each send passed its guard under its lock, two deliveries of one revision to a destination have a delivery of another revision of that incident, or the removal of the entry, between them |
| `PipelineGuarantees.DeliveryIsRun` | src/runtime/pipeline.rs:421-460 | in every pipeline run the delivery keyspaces go through a run of the delivery state machine, so every guarantee about such runs holds |
| `PipelineGuarantees.InOrder` | src/runtime/pipeline.rs:600-703 | over pipeline runs, retention included, a row ends only after every earlier row of its destination, whose outcome then stays |
| `PipelineGuarantees.EndsForGood` | src/storage/fjall.rs:1345-1364 | over pipeline runs a terminal row keeps its outcome |
| `PipelineGuarantees.SkippedWhileRecorded` | src/storage/fjall.rs:1956-2016 | over pipeline runs a delivered revision is skipped until another is delivered or the retention cutoff reaches the entry |
| `PipelineGuarantees.OneRowForEach` | src/runtime/pipeline.rs:462-494 | in every state of a pipeline whose match commits are the match worker's, a revision of an incident has at most one row per destination, in whatever order jobs are matched |
| `PipelineGuarantees.DeliveredOnce` | src/runtime/pipeline.rs:421-460 | so two deliveries of one revision of an incident to a destination are the same delivery |
| `DeliveryGuards.LaneWritesOneDelivery` | src/storage/fjall.rs:1288-1312 | a lane writes at most the ledger entry of its destination, with its last success and the batch's revision |
| `KeyCodec.SlotOrder` | src/storage/fjall.rs:2076-2086 | queue keys are injective, a destination prefix finds exactly its entries, and their byte order is that of batch and row |
| `KeyCodec.DestinationKeyOrder` | src/storage/fjall.rs:2060-2067 | retry destination keys are injective and byte order is the order of destination, batch, row, id |
| `KeyCodec.RetryKeyInjective` | src/storage/fjall.rs:2053-2058 | different due times or ids give different retry keys |
| `KeyCodec.PostingPrefixFinds` | src/subscriptions/compiled.rs:99-107 | the 12-byte prefix of a posting key determines everything but the id block, the wildcard source included |
| `EventKeys.EventKeyInjective` | src/models/disaster.rs:72-83 | equal event keys mean equal category, source and event id, for all texts |
| `IncidentRecords.IncidentRecord.ApplyOutcome` | src/models/incident.rs:145-198 | returns the decision and moves the record to the state it means, watermarks, timeline and latest reports included |
| `IncidentRecords.IncidentRecord.CommitStream` | src/models/incident.rs:288-329 | the step-by-step update of one watermark computes the new watermark |
| `IncidentRecords.IncidentRecord.RememberSourceEventKeys` | src/models/incident.rs:200-221 | appends the new keys once each, or nothing at all when they exceed the capacity |
| `IncidentRecords.Reduce` | src/events/reducer.rs:30-52 | the reducer's transition, with every capacity error, on a copy of the record |
| `ReportAcceptance.NextReport` | src/models/incident.rs:246-286 | from the reports accepted so far, exactly when the next report of a stream is applied, a replay, over the capacity or rejected |
| `ReportAcceptance.RemembersRecent` | src/models/incident.rs:288-329 | the updates remembered are those of the reports since the last restart: a new number, a higher level or a new ending; all of them while fewer than 16 |
| `ReportAcceptance.IncidentTakes` | src/models/incident.rs:145-172 | an incident takes a report exactly when its version can rise and its stream takes it, or it is the first of a stream and fewer than 32 are known |
| `ReportAcceptance.AppliedIsShown` | src/models/incident.rs:172-198 | an applied report is what the incident shows for its stream and ends the timeline; the reports of other streams, the earlier timeline and everything else stay, up to the bounds |
| `ReportAcceptance.FirstIsShown` | src/models/incident.rs:118-138 | a first report makes an incident of exactly its facts |
| `ReportAcceptance.CopyKeepsFacts` | src/models/incident.rs:365-400 | the stored copy cuts long texts and lists at their bounds and changes no other fact |
| `IncidentTheorems.NewIncidentOk` | src/models/incident.rs:118-138 | a first record meets the bounds that every update keeps, and its first event cannot be accepted again |
| `IncidentTheorems.AcceptedMovesForward` | src/models/incident.rs:246-304 | an accepted report strictly increases (report number, terminal flags, level, remembered updates); flags and report number never go back; updates stay distinct and at most 16 |
| `IncidentTheorems.AcceptedPerReport` | src/models/incident.rs:246-304 | at one report number a stream accepts at most 13055 reports |
| `IncidentTheorems.WatermarkSummarises` | src/models/incident.rs:288-304 | the watermark is the highest report number and whether a final report and a cancellation were accepted |
| `IncidentTheorems.ApplyKeepsOk` | src/models/incident.rs:145-198 | histories stay within their bounds and streams stay apart |
| `IncidentTheorems.AppliedAtMostOnce` | src/models/incident.rs:246-329 | over any sequence of reports, one that does not cancel, or cancels and is final, is applied at most once |
| `IncidentTheorems.CancelAppliesTwice` | src/models/incident.rs:288-304 | every other report can be applied twice, given a digest that tells it from its final twin |
| `IncidentTheorems.VersionCountsApplied` | src/models/incident.rs:145-198 | the version counts the applied reports |
| `CatalogInvariant.AtMostSixStreams` | src/source_registry.rs:56-117 | one stream per registered source means at most six |
| `CatalogInvariant.ReduceKeepsStreams` | src/models/incident.rs:154-222 | reducing an event of the incident keeps one stream per source and can fail only on the updates of one report or the version counter |
| `CatalogTheorems.StoreKeeps` | src/storage/fjall.rs:474-517 | storing a transition keeps every index, job and count exact, and its alias check passes |
| `CatalogTheorems.DiscardKeeps` | src/storage/fjall.rs:461-473 | discarding an unmatched transition does too, and no job is orphaned |
| `CatalogTheorems.MatchIsAccepted` | src/storage/fjall.rs:1403-1466 | for a stored job the event, the incident and the count are there, so none of these checks fails |
| `CatalogTheorems.MatchKeeps` | src/storage/fjall.rs:1451-1484 | committing match output keeps the catalog whole, also when it removes the incident |
| `JobDecision.MatchLeaves` | src/storage/fjall.rs:1451-1484 | with batches the event stays and the incident counts as matched; without, the event goes, and the incident stays exactly when it was matched, has other jobs or deliveries or is an earthquake report |
| `CatalogTheorems.PruneKeeps` | src/storage/fjall.rs:1956-2016 | retention with current references keeps it whole, and the orphan and mismatch errors cannot happen |
| `Retention.RetentionMeans` | src/storage/fjall.rs:1956-2016 | retention removes exactly the ledger entries up to its cutoff, the old events that no job or batch names and the old incidents that no job, batch or ledger entry names |
| `CatalogProcess.IngestKeeps` | src/storage/fjall.rs:251-293 | accepted events enter under fresh ids and keep it whole |
| `Correlation.IngestQueues` | src/storage/fjall.rs:251-293 | a batch is queued behind what is there, in its order |
| `Correlation.IngestTakes` | src/storage/fjall.rs:251-293 | a batch is taken exactly when it has at most 1024 events, all of the provider and of its registered sources |
| `InboxOrder.ProcessedInOrder` | src/events/coordinator.rs:43-94 | over pipeline runs events are processed in the order of their arrival, each once |
| `CatalogProcess.ResolvedJoins` | src/storage/fjall.rs:351-428 | an event resolves to an incident that has its key or lacks its source, or to a new one; a missing record is unreachable |
| `Correlation.ResolutionMeans` | src/storage/fjall.rs:351-428 | an event joins the incident that holds its key; with a new key an earthquake of known time joins the incident with the least misfit among the indexed reports within 120 s, 100 km and one magnitude whose incident lacks its source, unless more than 1024 are in the window; otherwise it starts its own |
| `JobDecision.ScoreMeans` | src/storage/fjall.rs:2285-2317 | two reports may be one earthquake exactly when both are placed, from different sources, at most 100 km and one magnitude apart; the score adds the three distances as parts of their bounds |
| `Correlation.AppliedIsIndexed` | src/storage/fjall.rs:474-517 | an incident stored after an event was applied holds its key and is indexed under its time, and no entry of another stream is lost |
| `Correlation.SameKeyJoins` | src/storage/fjall.rs:351-367 | so the next event with that key joins the same incident |
| `Correlation.AppliedWhen` | src/events/reducer.rs:30-52 | an event applies to its incident exactly when that is new, or takes the report and has room for its key among 32 |
| `CatalogProcess.ProcessKeeps` | src/events/coordinator.rs:50-94 | processing keeps the catalog whole and always takes the item out of the inbox |
| `JobDecision.JobWhenCalled` | src/events/coordinator.rs:50-170 | an applied event makes a new job for its incident, with the event at the job's revision and one more pending job, exactly when it is not ignored, in time, and the first of its incident, a cancellation, or a pushed update that is final or ahead of its stream by the gap; without a job the incident is kept exactly when it was matched, has jobs or deliveries, or is an earthquake report known before or neither training nor cancelled |
| `JobDecision.NothingWithoutApplying` | src/events/coordinator.rs:50-94 | an event that is retired, not applied or over a capacity changes no job, event, incident or index |
| `MatchPolicy.MatchedUpdatesAdvance` | src/events/coordinator.rs:113-143 | whatever arrives in between, a matched update that is neither final nor a cancellation is ahead of every earlier applied report of its stream by the configured gap |
| `IncidentStore.FindCorrelated` | src/storage/fjall.rs:369-428 | the scan finds the candidate with the least score among all in the window, the first key of equals, or reports too many or a missing record |
| `IncidentStore.ResolveIncident` | src/storage/fjall.rs:351-367 | by alias, else by correlation, else a new incident |
| `IncidentStore.RemoveIncidentIndexes` | src/storage/fjall.rs:1486-1524 | removes exactly the entries of the incident when all match, otherwise fails |
| `IncidentStore.IncidentKeyspaces.IngestEvents` | src/storage/fjall.rs:251-293 | all events and the provider's cursor, or none of them; ids only go up |
| `IncidentStore.IncidentKeyspaces.CommitIncidentTransition` | src/storage/fjall.rs:440-518 | store or discard with all indexes in one batch, or nothing |
| `IncidentStore.IncidentKeyspaces.ProcessItem` | src/events/coordinator.rs:50-94 | one inbox item resolved, reduced and committed, rejected or dropped |
| `IncidentStore.IncidentKeyspaces.CommitMatchOutput` | src/storage/fjall.rs:1394-1484 | the job's part of committing match output, exactly when its checks and the size limit hold |
| `Pipeline.RunKeepsPipeline` | src/storage/fjall.rs:440-518 | catalog, delivery and the links between them are whole in every state of every run |
| `Pipeline.ActionKeeps` | src/storage/fjall.rs:1956-2016 | each of ingest, processing, match commit, delivery step and retention keeps them so |
| `Pipeline.MatchAlwaysAccepted` | src/storage/fjall.rs:1403-1460 | match output of a stored job is always accepted, by the catalog and by the delivery keyspaces |
| `Pipeline.DeliveryShrinks` | src/storage/fjall.rs:1365-1387 | no delivery step makes a batch live or changes one |
| `Pipeline.ReferencesResolve` | src/storage/fjall.rs:1486-1524 | in every reachable state aliases and correlation entries match their reverse entries and point at stored incidents, and every job and live batch has its event and incident |
| `Pipeline.JobCountsAreExact` | src/storage/fjall.rs:447-458 | the pending count of an incident is the number of its stored jobs |
| `Pipeline.OneStreamPerSource` | src/models/incident.rs:154-198 | in every reachable state an incident has at most six streams, no two of one source, and reports, watermarks and keys name the same ones |
| `Subscriptions.ValidCompiles` | src/subscriptions/compiled.rs:165-221 | exactly the valid subscriptions compile |
| `SubscriptionEffects.ValidMeans` | src/models/subscription.rs:280-387 | valid are one to three targets and one or two rules of different categories, each with valid sources and bands or a magnitude from 0 to 10 |
| `SubscriptionEffects.BandsAreRanges` | src/models/subscription.rs:411-434 | bands are valid exactly when no intensity from 0 to 7 is covered twice, none above is covered, no level is named twice and a critical band covers 7 |
| `SubscriptionEffects.SourcesMean` | src/models/subscription.rs:389-409 | a source list is valid exactly when it is not empty, repeats nothing and names registered sources of the category |
| `Subscriptions.MaskHolds` | src/subscriptions/compiled.rs:319-331 | a source mask accepts exactly the listed sources |
| `Matching.MatchSubscription` | src/matching/reference.rs:13-102 | the reference loop picks the nearest matching target, the first of equals; told from the subscription alone, a target matches a warning when it is within the limit and a band covers the rounded estimate there, whose level is the answer, and a report, at the passive level, when its magnitude reaches the least |
| `Matching.MatchCompiled` | src/matching/engine.rs:108-185 | the engine's loop picks the nearest matching target of the compiled record; its row carries the level of a band that covers the rounded estimate at that target, passive for a report, and the distance and intensity computed from the event's own position, depth and magnitude |
| `Matching.BandFound` | src/matching/reference.rs:79-84 | the search finds the first band with min <= value <= max, and one exactly when some band covers the value |
| `Matching.OnlyBand` | src/models/subscription.rs:411-434 | in valid bands that is the only one |
| `Matching.ChosenOnce` | src/matching/reference.rs:31-101 | that target is unique |
| `MatchingTheorems.ReferenceSaysOnce` | src/matching/reference.rs:13-102 | the reference has exactly one verdict for a subscription and an event |
| `MatchingTheorems.CompilationPreserves` | src/subscriptions/compiled.rs:165-341 | for every valid subscription and event the engine's row is that of the reference verdict under the same limit, except for warnings with a negative magnitude, which get none; with an estimate of 0 for such magnitudes the two disagree exactly when the event is placed, a target is within the limit and a warning alert accepts the source with a band from 0 |
| `MatchingTheorems.EngineTells` | src/matching/engine.rs:108-185 | the engine's row told from the subscription alone: its target, level and distance are those of the nearest target that the rule calls for |
| `MatchingTheorems.NegativeMagnitudeDiffers` | src/matching/engine.rs:187-191 | they do disagree: on every placed warning with a negative magnitude, for a subscription that watches all intensities |
| `MatchingTheorems.NegativeVerdict` | src/utils/intensity.rs:7-10 | the reference accepts a warning with a negative magnitude exactly under that condition |
| `MatchingTheorems.RegionsIntersect` | src/matching/engine.rs:235-245 | the merge walk over sorted lists answers whether they share an element |
| `Postings.PostingIdRoundTrip` | src/subscriptions/compiled.rs:232-247 | an id is given back by its block and offset and by no others |
| `Postings.ForSubscription` | src/subscriptions/compiled.rs:109-151 | collects exactly the posting keys of the record |
| `Postings.ReindexIsExact` | src/storage/fjall.rs:2355-2413 | storing, reactivating or deactivating keeps every bitmap exact and none empty, though both passes read the old bitmaps |
| `SubscriptionStore.ReindexPostings` | src/storage/fjall.rs:715-727 | the staged loops produce that batch, the later entry of a key winning |
| `FastMatch.PlanForEvent` | src/matching/plan.rs:25-75 | an earthquake plan looks broadly, and by region when regions are named |
| `FastMatch.PostingBlocksFor` | src/storage/fjall.rs:1056-1157 | the merged blocks are the union of the bitmaps under the wanted keys |
| `FastMatch.MatchBlocks` | src/matching/engine.rs:62-94 | each id in the blocks is matched and gives at most one row |
| `FastMatch.MatchEvent` | src/runtime/pipeline.rs:474-480 | with an exact index the lookup gives the rows of a full scan over all compiled records |
| `FastMatch.LookupIsReference` | src/matching/reference.rs:13-102 | in a whole registry a stored subscription gets a row exactly when it is active and the reference accepts it, with the same target, kind and level |
| `FastMatch.LookupOfReachable` | src/storage/fjall.rs:1056-1122 | so does the lookup over the index of every reachable registry |
| `FastMatch.LookupOverTime` | src/runtime/pipeline.rs:474-480 | when subscriptions change between the read of the postings and that of the records, every row is still right at the second moment, and a subscription stored alike at both has its row exactly when it should |
| `MatchWorker.SortRows` | src/runtime/pipeline.rs:482-488 | sorts the rows by shard, destination and subscription |
| `MatchWorker.ProcessMatchJob` | src/runtime/pipeline.rs:462-494 | a job's rows are none for a retired category, the recorded deliveries for a cancellation, and otherwise one for each active subscription the reference accepts, subscriptions changed during the lookup apart; no destination twice; the batches are made of exactly these rows |
| `MatchWorker.ResendsAll` | src/runtime/pipeline.rs:1372-1377 | the rows of a cancellation are exactly the delivered rows of the incident and category, at the active level |
| `MatchWorker.OutputCommits` | src/storage/fjall.rs:1394-1484 | from every reachable state that output is accepted, ends the job and adds exactly its batches, all rows unprogressed |
| `MatchWorker.CompleteMatchJob` | src/runtime/pipeline.rs:462-494 | end to end: a job taken up in one reachable state is committed in a later one, deliveries, ingest and retention going on in between; its output is accepted and the rows committed are exactly those, for postings and records read at two moments |
| `RegistryTheorems.StepKeeps` | src/storage/fjall.rs:588-752 | every operation keeps index, records and confirmations whole, whatever record its caller had read |
| `RegistryRuns.RunKeepsOk` | src/storage/fjall.rs:921-1026 | they are whole in every state of every run; operations and destinations are one to one |
| `RegistryRuns.OnlyLatestToken` | src/subscriptions/manager.rs:239-308 | renewing, activating, rescheduling or abandoning goes through only with the token of the latest lease |
| `RegistryRuns.OldTokensFail` | src/subscriptions/manager.rs:186-237 | after a new lease no earlier token ever works again |
| `RegistryRuns.FencedNeverActs` | src/storage/fjall.rs:921-947 | after a newer confirmation, a removal or a deactivation no earlier confirmation of the destination activates or does anything else |
| `RegistryRuns.CommitActsOnWhatWasRead` | src/storage/fjall.rs:949-988 | the comparison decides alone: the index mismatch error is unreachable |
| `RegistryRuns.AttemptsStayInBudget` | src/subscriptions/confirmation.rs:289-292 | a pending confirmation was rescheduled at most 11 times |
| `LeaseExclusion.NoLeaseBefore` | src/subscriptions/manager.rs:186-237 | over runs: after a begin, a lease or a renewal for a duration, or a reschedule, no lease of the operation goes through before that time (a second at least) unless a renewal or a reschedule set another |
| `LeaseExclusion.LeaseWhenOver` | src/subscriptions/manager.rs:205-213 | a stored operation can be leased exactly when its due time, or the end of its lease, is not later than now |
| `LeaseExclusion.LeaseSets` | src/subscriptions/manager.rs:214-256 | a lease hands out the next token until exactly its end, and a renewal moves that end and nothing else |
| `LeaseExclusion.TriedAgain` | src/subscriptions/confirmation.rs:289-292 | a failed confirmation is scheduled again, with one more attempt, exactly while it had at most 10 before and is younger than 86400000 ms |
| `LeaseExclusion.LatestTokenWorks` | src/subscriptions/manager.rs:239-308 | the holder of the latest token can renew, abandon and activate; activation leaves an active subscription with the confirmed content and no operation |
| `LeaseExclusion.ExpiresWhenOld` | src/subscriptions/confirmation.rs:294-296 | an operation is taken out for its age exactly when it is that old |
| `RegistryRuns.GenerationFences` | src/storage/fjall.rs:618-713 | a subscription keeps its ids, its generation never goes back, and one generation below the maximum is one record |
| `RegistryRuns.IndexIsExact` | src/storage/fjall.rs:2389-2413 | in every reachable state each bitmap holds exactly the offsets of the active subscriptions that generate its key |
| `SubscriptionStore.SubscriptionKeyspaces.StoreSubscription` | src/storage/fjall.rs:618-673 | stores, reactivates or refuses, with ids handed out only when needed |
| `SubscriptionStore.SubscriptionKeyspaces.DeactivateSubscription` | src/storage/fjall.rs:675-713 | raises the generation, clears postings and compiled record and takes a pending confirmation along |
| `SubscriptionEffects.StoreMeans` | src/storage/fjall.rs:618-673 | the record of the destination takes the subscription over under the next generation, or a new record gets ids nobody has; no other record, destination or confirmation changes |
| `SubscriptionEffects.DeactivateMeans` | src/storage/fjall.rs:675-713 | the record stays, inactive under the next generation, the confirmation of its destination is gone, and nothing else changes |
| `SubscriptionEffects.BeginMeans` | src/subscriptions/manager.rs:154-184 | the new operation is leased to its caller and replaces exactly the one of its destination |
| `SubscriptionStore.SubscriptionKeyspaces.BeginConfirmation` | src/subscriptions/manager.rs:154-184 | a fresh leased operation replaces the destination's previous one |
| `SubscriptionStore.SubscriptionKeyspaces.ReplaceConfirmation` | src/storage/fjall.rs:949-988 | compare and swap of the whole record |
| `SubscriptionStore.SubscriptionKeyspaces.RemoveConfirmation` | src/storage/fjall.rs:965-983 | compare and remove, with the index |
| `SubscriptionStore.SubscriptionKeyspaces.RenewConfirmationLease` | src/subscriptions/manager.rs:239-256 | extends the lease for the current token of a leased operation only |
| `SubscriptionStore.SubscriptionKeyspaces.RescheduleConfirmation` | src/subscriptions/manager.rs:270-293 | gives the lease back with one more attempt |
| `SubscriptionStore.SubscriptionKeyspaces.AbandonConfirmation` | src/subscriptions/manager.rs:295-308 | removes the operation for its current token |
| `SubscriptionStore.SubscriptionKeyspaces.ActivateConfirmation` | src/storage/fjall.rs:588-616 | stores the subscription and removes the operation in one batch, for the current token |
| `SubscriptionStore.SubscriptionKeyspaces.DeleteSubscription` | src/subscriptions/manager.rs:98-123 | deactivates an active record, else takes a pending confirmation back |
| `SubscriptionStore.SubscriptionKeyspaces.LeaseDueConfirmations` | src/subscriptions/manager.rs:186-237 | the loop computes the pass, which an index mismatch or the last lease generation aborts |
| `ConfirmationPass.PassIsRun` | src/subscriptions/manager.rs:186-237 | a pass over any records that were read is a run of expiry and lease steps, so all that holds of runs holds of it |
| `ConfirmationPass.PassIsNotAborted` | src/storage/fjall.rs:965-983 | from a reachable registry the index mismatch cannot abort it |
| `ConfirmationPass.PassHandlesAll` | src/subscriptions/manager.rs:194-235 | undisturbed and below its limit, it removes every record that is maxAge old, leases every other one whose due time or lease end is not later than now, and leaves the rest |
| `ConfirmationPass.LeasesAreNew` | src/subscriptions/manager.rs:186-237 | a pass hands out at most the limit, each lease of a record that was read with its due time or lease end not later than now and younger than maxAge |
| `Calendar.DaysRoundTrip` | src/simulate/mod.rs:717-729 | the date of every day number is valid and has that day number |
| `Calendar.DateRoundTrip` | src/models/disaster.rs:239-257 | the day number of every valid date gives the date back |
| `Calendar.DaysCount` | src/models/disaster.rs:239-257 | day numbers count days: 1 January 1970 is day 0 and the day after any valid date, by the lengths of the months and the leap years, has the next number |
| `Timestamps.TimestampRoundTrip` | src/models/disaster.rs:165-237 | parsing a printed time gives it back exactly for the seconds of 1970 to 9999, and nothing for any other time |
| `Timestamps.OffsetsShift` | src/models/disaster.rs:165-237 | a time with an explicit offset is that much earlier, for plus, or later, for minus, than the same reading in UTC; without one the source's default counts, and without either there is no time |
| `Timestamps.SpellingsReadBack` | src/models/disaster.rs:165-205 | slashes in the date, a blank before the time and a fraction of a second are read as the same second |
| `Timestamps.SpaceAround` | src/models/disaster.rs:165-172 | white space around a time does not matter |
| `Payloads.TruncateWithEllipsis` | src/delivery/bark.rs:484-500 | the walk back to a boundary cuts at the last whole character within the limit |
| `Payloads.TruncatedIsLongest` | src/delivery/bark.rs:484-500 | the cut is a prefix of whole characters and an ellipsis, and any longer prefix would be over the limit with it |
| `Payloads.FitsMeans` | src/delivery/bark.rs:440-461 | a payload fits when its texts, written as JSON strings, and the rest take at most 3800 bytes |
| `Payloads.TruncationGrows` | src/delivery/bark.rs:484-500 | a larger limit never shortens the text nor its escaped size |
| `Payloads.FitPayloadField` | src/delivery/bark.rs:463-482 | the binary search finds the cut at the largest limit that fits, or empties the field |
| `Payloads.BestFitIsLongest` | src/delivery/bark.rs:463-482 | no cut that fits is longer |
| `Payloads.FittedPayload` | src/delivery/bark.rs:440-461 | succeeds exactly when the payload without its texts fits; the result fits, keeps link and id, cuts at character boundaries, cuts a text only after those before it are gone, and the last text cut is the longest cut that fits |
| `BatchSplitter.BuildDeliveryBatches` | src/runtime/pipeline.rs:1400-1442 | an order-preserving partition into non-empty one-shard batches of at most 512 rows within the size limit under increasing ids; failure means a row that is too large alone |
| `BatchSplitter.NextBatch` | src/runtime/pipeline.rs:1423-1436 | a batch ends with its shard or at 512 rows, unless a piece of at most twice its length and one row was over 262144 bytes |
| `BatchSplitter.SplitRowsFitAlone` | src/runtime/pipeline.rs:1423-1436 | when sizes never shrink with more rows, success means every row fits alone |

## Left out

- Sending itself, HTTP, timers and task scheduling: a send is any of delivered, skipped, transient or permanent failure, and any enabled step may come next.
- Sends that happened before a crash and were not committed: the failure counts are those of committed attempts, so they are not a bound on sends across crashes.
- Saturating 64-bit arithmetic on times: clocks and due times are unbounded integers. Counters that have a checked end (ids, generations, versions) keep it.
- SHA-256 digests for ids, aliases, lease tokens and stream keys are injective wrappers of what they hash; the update digest is an arbitrary function.
- CBOR records, Roaring bitmaps and the database engine: records are values, bitmaps are finite sets, encoded sizes are a parameter.
- Distances, intensities, rounding, region names and H3 cells are parameters shared by both matchers; the seven-decimal rounding of a compiled longitude is not modelled.
- Weather, tsunami and typhoon rules: they are retired and a subscription holding one does not validate. Cell scopes of a plan exist only for them.
- `Subscriptions.ValidCompiles`: validity covers what matching depends on; texts, coordinates and destination addresses are not checked, and timestamps of a subscription are not kept.
- `Timestamps.TimestampRoundTrip`: numbers beyond 64 bits are kept by the number parser here and refused by their range afterwards, which no caller can tell apart.
- Retention as loops over keyspaces: `Catalog.Prune` selects by set comprehension. The program runs it alone, before any worker starts, so one step of `Pipeline` stands for it.
- `FastMatch.LookupOverTime`: the compiled records are loaded at one moment; the program loads them one after the other.
- The shard number stored with a batch is not kept.
- The pending job count is unbounded here; its 32-bit overflow error would need as many stored jobs.
- Ids of inbox items, batches, retries and dead letters come from persistent counters and are taken to be new; one match worker handles one job at a time, so its batches are committed in the order of their ids.
- A shutdown that drains all stages, notification contexts, countdowns, ready queues, metrics and routes.
- Old records that hold retired rules are filtered when decoded; decoding is not modelled.
