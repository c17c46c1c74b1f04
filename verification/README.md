# Verification of the ingestion platform's stateful core

A Dafny model of the parts of the platform whose correctness depends on more than one function at a time, with
proofs of what they promise over every run. `dafny verify dfyconfig.toml` checks everything.

**Durable notifications.** An incident transaction writes a request into the transactional outbox, a publisher moves
it to the broker, a consumer records it in an inbox and fans it out into one delivery row per channel, and leased
workers deliver, retry or dead-letter those rows. `NotificationTables` holds the tables and each commit-to-commit
region as a function on values, `NotificationRepository` the repository, publisher and worker loops in place, each
proved equal to those functions. `RowChanges` says column by column what each commit does, without those functions, and
`PublishTallies` and `DeliveryTallies` what a whole pass leaves and what its counters count. `NotificationProtocol` is the step
relation of the whole system; `NotificationInvariants`, `NotificationSafety`, `NotificationOrigins`, `NotificationLeases`,
`NotificationCadence` and `NotificationTheorems` say what every run keeps.
`OffsetWorker` is the poll loop that commits an offset only after the record was persisted.

**Dependency incidents.** `Incidents` and `IncidentLifecycle`: deduplicated lifecycles driven by windows of health
samples. `IncidentNotifications`: the requests written in the incident's own transaction. `Keys`: the formatted
identifiers everything above relies on.

**Contract drift.** `TypeUnions` and `Flattening` turn a payload into a map from path strings to type unions,
`ContractDiff` compares two of them, `CandidateRuns` and `ContractBaselines` confirm a drift after three polls and keep
a chain of accepted baselines, `ContractHistory`, `ContractEras` and `ContractChain` say what that amounts to over whole histories.

`Basics` and `Wrappers` hold what several components share.

**Primitives.** `LruCache` (refining `LruOrder`), `Bulkhead`, `Resilience`, `CircuitBreakers`, `TokenBuckets`,
`Windows`, `WorkerPool` and `JobQueue`. `DependencyCalls` puts the bulkhead around retried, breaker-guarded calls.

## How it is modelled

- A table is a sequence of rows in insertion order and a row's id is its position plus one. The model enforces the
  unique and check constraints of the ORM models where code relies on them. Soft deletion is left out: nothing
  modelled here sets `deleted_at`.
- Commits are serialised. The inbox summary needs this, because it is refreshed without a lock on the inbox row. Reads
  see committed rows; a worker keeps the snapshot its claim returned.
- Claim tokens are fresh per claim and task ids per task, as `uuid4` gives. Delivery ids fit a 32-bit key.
- Every step carries the clock reading its participant took. The notification protocol assumes no order between
  readings. Theorems about limiters, breakers and incident histories say where a clock must not go back.
- An exception is an `Err` or a stated outcome, and the transaction it leaves is rolled back. A crash is a participant
  that takes no further step, and the broker may hand out any published record any number of times.
- SHA-256 over canonical JSON is treated as injective: a structure fingerprint is the structure. Jitter is any value in
  its range. Times and token levels are mathematical integers and reals.
- An `await` splits a method into the regions it interleaves by; each region is one step. In the repository methods
  `Await` and `AwaitBroker` stand for whatever other sessions commit meanwhile.

## What the code does that its documentation does not say

- The broker offset can be committed while a message has no deliveries: intake and fan-out are two commits, and a
  redelivery inside the lease is acknowledged without a fan-out (`OffsetCanOutrunDeliveries`; the exact condition is in
  `RedeliveryMaterialises`).
- A record that does not decode stops its partition for ever (`PoisonBlocksItsPartition`): a record can be passed exactly
  when it and all before it decode (`CanPassIff`).
- A publish failure reported without a token reverts a published outbox row (`RevertsIffTokenless`).
- A failed publish whose claim was lost is counted both as failed and as a conflict, so the tallies of a batch can exceed
  it (`LostFailureHappens`; exactly when, in `TalliesExactIff`).
- A queue size of zero or less is unbounded for `asyncio.Queue`, so such a worker pool can take a task whose status was
  trimmed, as can any pool whose queue is longer than its history (`CanLoseATaskIff`).
- The sliding window is closed: a request after exactly the advertised `reset_in` is still refused
  (`RetryNeedsMoreThanReset`).
- A rebalance reads the clock once per command, so a boost that begins between two readings lets a later command overtake
  an equal earlier one (`StraddledDeadlineOvertakes`). `OvertakesIff`, `RebalanceSwapsIff` and `FirstInFirstOutIff` say
  exactly when.
- The two circuit breakers differ on cancelled calls and under overlap, at every threshold (`CancellationPartsThem`,
  `LateSuccessPartsThem`, `LateFailurePartsThem`). On calls that do not overlap they agree throughout exactly when no
  admitted call is cancelled (`AgreeThroughoutIff`), and over any interleaving exactly when no end parts them, a condition
  on CircuitBreaker's own state and the end (`AgreeUnderOverlapIff`).

## Model

| member | source | states |
|---|---|---|
| Keys.MessageIdInjective | services/ingestor/core/incident_notifications.py:33-35 | no two occurrences, of one incident or of two, share a message id |
| Keys.DeadLetterKeyInjective | services/ingestor/repositories/notification_delivery.py:267 | no two deliveries share a dead-letter key |
| Keys.KeysDisjoint | services/ingestor/repositories/notification_delivery.py:267-293 | requests and dead letters never meet in the outbox's unique index |
| Keys.FingerprintInjective | services/ingestor/repositories/incidents.py:30-32 | an incident fingerprint names one tenant scope, one source and one trigger |
| Incidents.ActiveAt | services/ingestor/repositories/incidents.py:71-81 | the lookup returns the first row under an active key, and None only if there is none |
| Incidents.IncidentRepository.OpenOrUpdateIncident | services/ingestor/repositories/incidents.py:60-104 | without an active incident of the condition it appends an open one and notifies; otherwise it counts on the active one alone, column by column, and notifies exactly when none was sent or the last is at least the cooldown old |
| Incidents.IncidentRepository.ResolveActiveIncident | services/ingestor/repositories/incidents.py:107-126 | resolves the active incident alone, frees its key and never notifies; without one it does nothing |
| Incidents.IncidentRepository.ReconcileHealthIncidents | services/ingestor/repositories/incidents.py:129-214 | one sample's effect is exactly that of the availability and the latency policy on the newest window |
| Incidents.IncidentRepository.AcknowledgeIncident | services/ingestor/repositories/incidents.py:264-269 | only an open incident can be acknowledged, by whom and when; otherwise an error and no change |
| Incidents.IncidentRepository.ResolveIncident | services/ingestor/repositories/incidents.py:272-278 | exactly an open or acknowledged incident can be resolved, and last_seen_at stands; otherwise an error and no change |
| IncidentLifecycle.AtMostOneActivePerFingerprint | services/ingestor/repositories/incidents.py:60-126 | in every run at most one incident per fingerprint is active, and the active key is set exactly while it is unresolved |
| IncidentLifecycle.AvailabilityVerdict | services/ingestor/repositories/incidents.py:136-178 | the availability policy reports a critical incident exactly when the trailing failure run reaches the threshold, and recovers exactly on a success |
| IncidentLifecycle.LatencyVerdict | services/ingestor/repositories/incidents.py:180-212 | the latency policy reports a warning exactly when the last threshold samples are all slow successes, and recovers exactly on a fast one |
| IncidentLifecycle.ActiveIffHistorySaysSo | services/ingestor/repositories/incidents.py:129-214 | with samples in order, fixed policy and no operator resolve of the source's own active health incidents, availability is active exactly while the trailing failure run reaches the threshold, latency exactly when a threshold-long slow run has had no fast success since |
| IncidentLifecycle.OperatorResolveIff | services/ingestor/repositories/incidents.py:272-278 | an operator resolve keeps that correspondence exactly when it does not resolve one of those incidents |
| IncidentLifecycle.WindowIsUnique | services/ingestor/repositories/incidents.py:137-148 | without ties in sampled_at the query has one answer, the window the policies are given here |
| IncidentNotifications.IncidentNotifier.EnqueueIncidentNotificationRequests | services/ingestor/core/incident_notifications.py:38-84 | in broker mode it succeeds exactly when there is a channel and every announced incident makes a valid request; then exactly the announced incidents are stamped, the outbox gained only unattempted requests that say what those incidents say, and holds one of each; otherwise nothing is written |
| NotificationOrigins.EachNoticeHasOneRequest | services/ingestor/core/incident_notifications.py:33-84 | over every run, notifications asked for and request rows in the outbox correspond one to one |
| NotificationOrigins.NotificationsKeepTheirDistance | services/ingestor/repositories/incidents.py:52-57 | broker notifications of one incident are at least the cooldown apart, less the distance between the two clock readings of a step |
| NotificationCadence.AnnouncedExactlyAfterCooldown | services/ingestor/repositories/incidents.py:52-104 | in every run a committed report of an active incident adds a notice exactly when the incident has none or its last is at least the cooldown old by the second clock reading; one that opens an incident always adds one |
| NotificationCadence.AnnouncedIffNoYoungerNotice | services/ingestor/repositories/incidents.py:52-104 | where no step takes its two readings further apart than the cooldown: exactly when no earlier notice of the incident has a stamp later than that reading minus the cooldown |
| NotificationRepository.NotificationStore.AddOutboxEvent | services/ingestor/repositories/messaging.py:17-52 | inserts a row unless its idempotency key exists, and returns the row of that key |
| NotificationRepository.NotificationStore.ClaimPendingOutboxEvents | services/ingestor/repositories/messaging.py:99-147 | takes the first rows, up to the limit, that are unlocked, of a wanted type, unpublished and have no retry or lease time still to come; each counts one attempt and carries token and lease, and every other row stands |
| NotificationRepository.NotificationStore.MarkOutboxPublished | services/ingestor/repositories/messaging.py:150-173 | changes the row for its own token, when one is given, and no other row: stamped, without error, retry time or claim |
| NotificationRepository.NotificationStore.MarkOutboxPublishFailed | services/ingestor/repositories/messaging.py:176-200 | changes the row for its own token, when one is given, and no other row: unpublished, with the clipped error and the retry time, without claim |
| NotificationRepository.NotificationStore.PublishBatch | services/ingestor/notification_outbox_publisher.py:87-156 | what is claimed; what each record leaves, whatever other publishers do meanwhile: the row still carrying the token, and it alone, is published if sent, else unpublished until 5, 10, 20 ... 300 seconds later, and without the token nothing changes; each counter is the number of rows it stands for; all three arguments are validated |
| PublishTallies.TalliesExactIff | services/ingestor/notification_outbox_publisher.py:114-156 | the counters add up to the batch plus the failed publishes whose claim was gone, so exactly to the batch precisely when there is none |
| NotificationTheorems.TakenOverFailureCountsTwice | services/ingestor/notification_outbox_publisher.py:118-138 | a lease that expires, another publisher's claim and a failed publish make the counters exceed the batch by one |
| NotificationTheorems.LostFailureHappens | services/ingestor/notification_outbox_publisher.py:118-138 | such a run exists from the start, for every source that can notify and every lease |
| NotificationRepository.OutboxRetryDelayMeaning | services/ingestor/notification_outbox_publisher.py:79-84 | the retry delay doubles from 5 seconds and is capped at 300 from the seventh attempt on |
| NotificationRepository.OutboxRetryDelayTable | services/ingestor/notification_outbox_publisher.py:79-84 | the delays are 5, 10, 20, 40, 80, 160 and then 300 seconds |
| NotificationRepository.NotificationStore.ClaimNotificationRequest | services/ingestor/repositories/notification_delivery.py:41-99 | inserts the inbox row of a new message; takes a known one again exactly while it is unfinished and its lease has passed; otherwise refuses and changes nothing |
| NotificationRepository.NotificationStore.AddChannelDeliveries | services/ingestor/repositories/notification_delivery.py:102-132 | adds a pending delivery per requested channel that has none, and writes nothing else |
| NotificationRepository.NotificationStore.AcceptNotificationRequest | services/ingestor/notification_delivery_consumer.py:100-116 | an invalid event changes nothing; a valid one is claimed and, only if claimed, fanned out |
| NotificationRepository.NotificationStore.ClaimDueDeliveries | services/ingestor/repositories/notification_delivery.py:135-187 | takes the first rows, up to the limit, that are unlocked and pending, due for their retry, or left in flight past their lease; each is in flight under the token until now + lease, a takeover counting no attempt; every other row stands |
| NotificationLeases.LeaseLasts | services/ingestor/repositories/notification_delivery.py:135-187 | over every run: once a batch at now took a row for a lease, no other batch whose clock reads less than now + lease takes it, unless its owner recorded an outcome in between |
| NotificationLeases.AbandonedExactlyFromLeaseEnd | services/ingestor/repositories/notification_delivery.py:144-163 | a row whose claim still stands is taken by the next unlocked batch that reaches it exactly from now + lease on |
| NotificationRepository.NotificationStore.MarkDeliveryDelivered | services/ingestor/repositories/notification_delivery.py:190-214 | only the owner of the claim delivers; that row alone is delivered with the clipped reference, without error and claim, and the inbox row of its message is brought up to date |
| NotificationRepository.NotificationStore.ScheduleDeliveryRetry | services/ingestor/repositories/notification_delivery.py:217-239 | only the owner schedules a retry, for that row alone, with the time and the clipped error; it raises exactly for an owner after the third attempt |
| NotificationRepository.NotificationStore.DeadLetterDeliveryRow | services/ingestor/repositories/notification_delivery.py:242-298 | only the owner dead-letters; the row, a dead-letter event that says what the row says and the inbox summary commit together or not at all |
| NotificationRepository.NotificationStore.RefreshInboxStatus | services/ingestor/repositories/notification_delivery.py:339-370 | the inbox row is unfinished while it has no delivery or an open one, else completed, dead-lettered or mixed by what its deliveries ended as, stamped and without lease; no other row changes |
| NotificationRepository.NotificationStore.DeliveryRequest | services/ingestor/notification_delivery_consumer.py:214-223 | succeeds exactly when the inbox row exists and its stored request is valid |
| NotificationRepository.NotificationStore.DeliverDueNotifications | services/ingestor/notification_delivery_consumer.py:119-196 | what is claimed; what each outcome leaves, under any interference that respects claims: an accepted row is delivered, a retryable provider error or an unexpected one is retried after 25..35, then 270..330 seconds while fewer than three attempts were made, every other failure ends dead with an event in the outbox, category and code are the exception's; each counter is the number of claimed rows with that outcome |
| NotificationInvariants.ClaimableIffReady | services/ingestor/repositories/notification_delivery.py:144-165 | no live delivery is stranded: a row is claimable exactly when it is not terminal and its lease and retry times have passed |
| NotificationInvariants.DeadLetterValid | services/ingestor/repositories/notification_delivery.py:242-298 | the dead-letter event of a claimed row always passes its own validator |
| NotificationInvariants.FanOutFresh | services/ingestor/repositories/notification_delivery.py:102-132 | on a message without deliveries the fan-out is exactly the requested channels, in order, once each |
| NotificationInvariants.FanOutReplay | services/ingestor/repositories/notification_delivery.py:102-132 | replaying a fanned-out message adds nothing |
| NotificationSafety.AlwaysInv | services/ingestor/repositories/notification_delivery.py:41-370 | every reachable state keeps the row, inbox, outbox, claim, dead-letter and history invariants |
| NotificationSafety.StepKeepsInv | services/ingestor/repositories/notification_delivery.py:41-370 | every step of every participant keeps them |
| NotificationSafety.RetryNeverRaises | services/ingestor/repositories/notification_delivery.py:231-232 | the attempts guard of a retry never fires for a worker that asks for one |
| NotificationSafety.GiveUpNeverRaises | services/ingestor/repositories/notification_delivery.py:242-298 | dead-lettering a claimed row never fails validation |
| NotificationTheorems.RowsOnlyMoveForward | services/ingestor/repositories/notification_delivery.py:135-239 | delivered and dead rows never change; any other change is a reclaim of abandoned work or lowers (attempts left, in flight) |
| NotificationTheorems.AtMostTwoRetriesAndOneEnding | services/ingestor/repositories/notification_delivery.py:135-298 | a delivery has at most two retries, and exactly one ending once it is terminal |
| NotificationTheorems.EachClaimRecordsAtMostOneOutcome | services/ingestor/repositories/notification_delivery.py:301-319 | no two outcomes in any history belong to one claim of one row |
| NotificationTheorems.TakenOverIsForever | services/ingestor/repositories/notification_delivery.py:301-319 | once a claim was taken over or concluded, nothing its worker tries changes the tables, for the rest of the run |
| NotificationTheorems.StaleWorkerWritesNothing | services/ingestor/repositories/notification_delivery.py:190-314 | a call with a token that does not own the row changes nothing |
| NotificationTheorems.OthersRespectAClaim | services/ingestor/repositories/notification_delivery.py:135-314 | over any steps of others, the rows a worker still holds stand, no row changes its message, none is added under its token and every request stays stored and valid: all that a delivery pass relies on at its awaits |
| NotificationTheorems.InboxSaysWhatDeliveriesSay | services/ingestor/repositories/notification_delivery.py:339-370 | an inbox row is terminal exactly when its message has deliveries and all are terminal, and then is exactly their summary |
| NotificationTheorems.MessagesAreFannedOutOnce | services/ingestor/repositories/notification_delivery.py:41-132 | each message has one inbox row, whose deliveries are none or exactly the requested channels once each |
| NotificationTheorems.DeadLettersMatchDeadDeliveries | services/ingestor/repositories/notification_delivery.py:242-298 | dead deliveries and dead-letter outbox rows are in bijection, and each such event is valid |
| NotificationTheorems.ReplayChangesNothing | services/ingestor/notification_delivery_consumer.py:100-116 | replaying any record changes no delivery row |
| NotificationTheorems.RedeliveryMaterialises | services/ingestor/repositories/notification_delivery.py:55-99 | a redelivery is granted the fan-out exactly when the message is new or its lease ran out unfinished, and then every channel materialises |
| NotificationTheorems.OffsetCanOutrunDeliveries | services/ingestor/notification_delivery_consumer.py:106-111 | a consumer that stops between its commits and a redelivery inside the lease leave the offset committed and no deliveries |
| NotificationTheorems.PublishedIsForever | services/ingestor/repositories/messaging.py:99-200 | in every run of token-carrying calls a published row stays as it was published |
| NotificationTheorems.RevertsIffTokenless | services/ingestor/repositories/messaging.py:176-200 | its exact limit: a failure report reverts a published row just when it carries no token |
| OffsetWorker.NotificationWorker.HandleBatch | services/ingestor/notification_delivery_worker.py:84-95 | exactly the records before the first failing one are persisted and committed, in order |
| OffsetWorker.CommittedMeansPersisted | services/ingestor/notification_delivery_worker.py:64-95 | over any crashes and restarts, every record below a committed offset was persisted first |
| OffsetWorker.CanPassIff | services/ingestor/notification_delivery_worker.py:53-106 | some run commits past a record exactly when it and every record before it in its partition decode |
| OffsetWorker.PoisonBlocksItsPartition | services/ingestor/notification_delivery_worker.py:97-106 | no offset past a record that does not decode is ever committed |
| TypeUnions.Sorted | services/ingestor/repositories/contract_drift.py:74 | the same elements, strictly ascending |
| TypeUnions.SplitJoin | services/ingestor/repositories/contract_drift.py:70-74 | splitting a joined list of names gives the list back |
| TypeUnions.CanonicalRoundTrip | services/ingestor/repositories/contract_drift.py:70-74 | reading a stored union back gives the set it was made from |
| TypeUnions.CanonicalInjective | services/ingestor/repositories/contract_drift.py:70-74 | stored unions are equal strings exactly for equal sets |
| TypeUnions.MergeIsUnion | services/ingestor/repositories/contract_drift.py:70-74 | merging stored unions is union of the sets |
| Flattening.MergeRenders | services/ingestor/repositories/contract_drift.py:77-82 | merging two stored structures stores the union of what they saw |
| Flattening.FlatSchema.Merge | services/ingestor/repositories/contract_drift.py:77-82 | the dict afterwards is the merge, whatever the iteration order |
| Flattening.FlattenValue | services/ingestor/repositories/contract_drift.py:85-94 | each path carries the union of the types of all nodes that render to it |
| Flattening.FlattenSchema | services/ingestor/repositories/contract_drift.py:97-103 | the same for a whole payload |
| Flattening.EntriesAreNodes | services/ingestor/repositories/contract_drift.py:85-94 | a (path, type) pair is recorded exactly when a node within the inspection limit renders to that path with that type |
| Flattening.FlatIsExact | services/ingestor/repositories/contract_drift.py:97-103 | a path is stored exactly when some inspected node renders to it, colliding ones included, with exactly their types |
| Flattening.RenderInjective | services/ingestor/repositories/contract_drift.py:111-114 | two structures are equal exactly when the same types occur at the same paths |
| Flattening.SameShapeSameFlat | services/ingestor/repositories/contract_drift.py:85-103 | values, the order of dict items and the order of inspected elements have no effect on the structure |
| Flattening.ReorderedSameShape | services/ingestor/repositories/contract_drift.py:85-94 | any reordering of dict items or inspected elements keeps the shape |
| Flattening.UninspectedElementsDoNotCount | services/ingestor/repositories/contract_drift.py:92 | array elements past 20 have no effect |
| ContractDiff.DiffIsExact | services/ingestor/repositories/contract_drift.py:117-138 | each part of the diff names exactly its paths, each once and in order |
| ContractDiff.DiffEmptyIff | services/ingestor/repositories/contract_drift.py:117-152 | no drift exactly when every current path is known with its type and every missing one is below an inconclusive array |
| ContractDiff.NoDriftIff | services/ingestor/repositories/contract_drift.py:97-152 | for payloads: exactly when each seen path has the same set of types in both, bar excused absences |
| ContractDiff.ExcusedIff | services/ingestor/repositories/contract_drift.py:141-152 | an absence is excused exactly below a path where an array was seen and no inspected node renders below its elements |
| ContractDiff.ExcusedOnlyBelowEmptyArrays | services/ingestor/repositories/contract_drift.py:141-152 | in particular every array seen there is empty |
| ContractDiff.ResponseIff | services/ingestor/repositories/contract_drift.py:155-213 | reading an exact diff: a drift is answered just when it breaks something or adds more than 25 fields |
| ContractDiff.LowSeverityIff | services/ingestor/repositories/contract_drift.py:155-188 | and its severity is low just for one to five added fields and nothing else |
| ContractDiff.GradeIsExact | services/ingestor/repositories/contract_drift.py:155-188 | with p = 2 added + 20 removed + 15 changed the score is 100 - p, at least 0, and the severity none, low, medium, high or critical exactly for p = 0, 1..10, 11..25, 26..50 and more |
| ContractChain.EventsAreGraded | services/ingestor/repositories/contract_drift.py:404-426 | every drift event of every history is graded so |
| ContractChain.ObservationsAreGraded | services/ingestor/repositories/contract_drift.py:448-467 | and so is every observation, by the event it answers |
| ContractChain.AnsweredIncidentsAreGraded | services/ingestor/repositories/contract_drift.py:428-446 | in every history a poll whose event is answered leaves an incident of the source's drift whose severity text is that of the points |
| CandidateRuns.RunLengthIsTrailingRun | services/ingestor/repositories/contract_drift.py:386-399 | the counter is the length of the maximal run ending at the last poll |
| CandidateRuns.ConfirmedAtThird | services/ingestor/repositories/contract_drift.py:401-404 | a poll confirms exactly as the third of a maximal run |
| CandidateRuns.ConfirmationsAreLongRuns | services/ingestor/repositories/contract_drift.py:386-426 | there are as many confirmations as maximal runs of length three or more |
| ContractBaselines.ContractRepository.CreateContractSnapshot | services/ingestor/repositories/contract_drift.py:302-490 | the whole state after a poll; column by column: a first poll is accepted as version 1 with score 100, any later one scores its snapshot by the points, tracks the candidate and raises one event comparing the accepted with the new snapshot at the third sighting; an enqueue that raises rolls everything back |
| ContractBaselines.ContractRepository.TrackCandidate | services/ingestor/repositories/contract_drift.py:386-404 | without drift the candidate is forgotten, with the same structure it is counted again, with another it starts over; the poll confirms exactly from the third sighting on while no event is linked |
| ContractBaselines.ContractRepository.AcceptContractBaseline | services/ingestor/repositories/contract_drift.py:259-299 | accepts exactly when there is a candidate, the request is for it, for none or for zero, and its snapshot is one of the source; then the old row is superseded, keeping its history, and the next version linked to it is active |
| ContractHistory.CounterIsRunLength | services/ingestor/repositories/contract_drift.py:386-426 | in every history the stored counter is the current run length and the event is linked exactly from the third on |
| ContractHistory.EventsAreLongRuns | services/ingestor/repositories/contract_drift.py:386-426 | as many drift events exist against the current baseline as its readings have maximal runs of three or more |
| ContractEras.EventsOfEveryBaseline | services/ingestor/repositories/contract_drift.py:386-426 | the same for every baseline ever accepted, over the readings it took while active |
| ContractHistory.EventAtThird | services/ingestor/repositories/contract_drift.py:401-426 | a committed poll raises one event exactly when it is the third of a maximal run, else none |
| ContractHistory.EventsAreSound | services/ingestor/repositories/contract_drift.py:404-426 | every event is the exact, nonempty difference of an earlier accepted and a later observed snapshot of its source |
| ContractHistory.AcceptedNeverDrifts | services/ingestor/repositories/contract_drift.py:259-299 | an accepted candidate's structure never drifts against the new baseline |
| ContractChain.VersionsFormAChain | services/ingestor/repositories/contract_drift.py:259-360 | the baselines of a source are versions 1..n, exactly the last active and holding the key, each linked to its predecessor |
| ContractChain.PollRespondsOnce | services/ingestor/repositories/contract_drift.py:404-472 | a responding event brings exactly one incident transition, observation and agent run; any other poll touches none of them |
| ContractChain.EachResponseOnce | services/ingestor/repositories/contract_drift.py:428-467 | in every history each responding event has exactly one observation with one agent run, and there are no others |
| LruCache.Unlink | services/ingestor/cache.py:393-399 | splicing a node out keeps prev and next inverse between the sentinels |
| LruCache.LruObservationCache.Remove | services/ingestor/cache.py:393-399 | the list loses exactly that node |
| LruCache.LruObservationCache.Prepend | services/ingestor/cache.py:401-407 | the list gains exactly that node at the most recent end |
| LruCache.LruObservationCache.Get | services/ingestor/cache.py:413-423 | a hit promotes and counts as one, a miss changes only its counter |
| LruCache.LruObservationCache.Put | services/ingestor/cache.py:425-443 | an update promotes; an insert beyond capacity drops exactly the last entry |
| LruCache.LruObservationCache.Invalidate | services/ingestor/cache.py:445-449 | removes exactly that key |
| LruCache.LruObservationCache.Clear | services/ingestor/cache.py:451-457 | empties the cache and its counters |
| LruOrder.AlwaysByRecency | services/ingestor/cache.py:413-457 | over every history the entries are distinct, ordered by last use, hold the last value put, and stay within capacity |
| LruOrder.EvictsLeastRecentlyUsed | services/ingestor/cache.py:425-443 | a put into a full cache drops exactly the entry whose last use is oldest |
| LruOrder.CountersAddUp | services/ingestor/cache.py:413-457 | hits plus misses are the gets since the last clear |
| Bulkhead.NewBulkhead | libs/platform/bulkhead.py:27-46 | exactly positive concurrency and nonnegative queue are accepted |
| Bulkhead.AsyncBulkhead.Enter | libs/platform/bulkhead.py:61-84 | an arrival runs, parks or is rejected |
| Bulkhead.AsyncBulkhead.Recheck | libs/platform/bulkhead.py:73-84 | a woken caller takes a slot or parks again |
| Bulkhead.AsyncBulkhead.Leave | libs/platform/bulkhead.py:84-88 | a departure frees the slot and wakes the longest waiter |
| Bulkhead.NextKeepsSound | libs/platform/bulkhead.py:61-88 | every step keeps both limits, and while anybody is parked at least as many woken callers are on their way as slots are free |
| Bulkhead.AlwaysSound | libs/platform/bulkhead.py:61-88 | so does every interleaving, barging arrivals included |
| Bulkhead.RejectsOnlyWhenBothFull | libs/platform/bulkhead.py:66-69 | a call is rejected exactly when slots and queue are both exactly full |
| Bulkhead.NobodyIsLost | libs/platform/bulkhead.py:61-88 | every arrival is rejected, waiting, running or finished |
| Bulkhead.EverybodyIsServed | libs/platform/bulkhead.py:61-88 | once arrivals stop, every continuation is bounded and can stop only with everybody served |
| Resilience.ExponentialBackoff | libs/platform/retry.py:98-188 | every attempt but the last raised something retryable that the budget let through; the caller sees the last one, unless the budget refused a retry still left, and the delays are those of the policy |
| Resilience.DelayMeaning | libs/platform/retry.py:156 | the first delay is the capped base and each next one the capped double of the one before |
| Resilience.SleepBounds | libs/platform/retry.py:159-162 | a sleep lies within 20% of the capped delay |
| Resilience.CallWithBreaker | libs/platform/resilience.py:93-111 | at most two attempts, so the operation runs at most twice in its slot |
| Resilience.RunsTwiceIff | libs/platform/resilience.py:38-111 | exactly when it runs twice: both attempts admitted, the budget granted, and the first raised a transport error or a status of 429 or at least 500; and when not at all; a refused call is not retried |
| DependencyCalls.EachCallHoldsOneSlot | libs/platform/resilience.py:76-111 | in every interleaving exactly the callers in a slot are calling, the operation runs at most max_concurrency times at once, and each call runs it at most twice |
| CircuitBreakers.CircuitBreaker.Aenter | libs/platform/circuit_breaker.py:120-130 | rejects exactly while open and before the timeout, else turns half open |
| CircuitBreakers.CircuitBreaker.Aexit | libs/platform/circuit_breaker.py:132-163 | the state after a success, a counted and an ignored failure |
| CircuitBreakers.NoAdmissionBeforeRecovery | libs/platform/circuit_breaker.py:120-163 | with overlapping calls and late completions nobody is admitted until the timeout after the latest opening |
| CircuitBreakers.OpenRejectsIff | libs/platform/circuit_breaker.py:120-130 | its exact condition: an open circuit rejects just until then |
| CircuitBreakers.CountersAreExact | libs/platform/circuit_breaker.py:139-163 | both counters count the events they stand for, and stay below their limits |
| CircuitBreakers.TransitionsIff | libs/platform/circuit_breaker.py:139-163 | it opens exactly at the failure that completes the threshold or fails a probe, and closes exactly at the success that completes the probes |
| CircuitBreakers.DecoratorBreaker.Gate | libs/platform/circuit_breaker.py:229-237 | the decorator's breaker refuses exactly while open and before the timeout |
| CircuitBreakers.SameDecisions | libs/platform/circuit_breaker.py:120-295 | on calls that do not overlap and are not cancelled the two breakers always decide alike |
| CircuitBreakers.AgreementKeptIff | libs/platform/circuit_breaker.py:120-295 | one call keeps them in agreement exactly when it was rejected or not cancelled |
| CircuitBreakers.AgreeThroughoutIff | libs/platform/circuit_breaker.py:120-295 | they agree after every prefix of a history exactly when no admitted call of it was cancelled |
| CircuitBreakers.CancellationPartsThem | libs/platform/circuit_breaker.py:132-295 | at every threshold, one cancelled call after one failure too few makes one reject and the other admit |
| CircuitBreakers.AgreeingDecideAlike | libs/platform/circuit_breaker.py:120-237 | breakers that agree admit and reject alike |
| CircuitBreakers.OverlapKeepsAgreementIff | libs/platform/circuit_breaker.py:120-295 | one beginning or end of overlapping calls keeps them in agreement exactly when it is not a return while open, a failure while open that reaches no threshold and carries another time, or a cancellation that CircuitBreaker counts |
| CircuitBreakers.AgreeUnderOverlapIff | libs/platform/circuit_breaker.py:120-295 | over any interleaving they agree after every prefix exactly when no end in it is such a one |
| CircuitBreakers.LateSuccessPartsThem | libs/platform/circuit_breaker.py:139-244 | at every threshold, overlapping calls of which one returns after the opening close the one and leave the other open |
| CircuitBreakers.LateFailurePartsThem | libs/platform/circuit_breaker.py:151-256 | at every threshold above one, a failure after the opening prolongs the decorator's timeout alone |
| CircuitBreakers.DecoratorBreaker.OnSuccess | libs/platform/circuit_breaker.py:239-244 | closes from any state and forgets all failures |
| CircuitBreakers.DecoratorBreaker.OnFailure | libs/platform/circuit_breaker.py:246-259 | counts and stamps, and opens at the threshold or from half open |
| CircuitBreakers.CircuitBreaker.OpenByForce | libs/platform/circuit_breaker.py:179-184 | opens with a fresh stamp |
| CircuitBreakers.CircuitBreaker.CloseByForce | libs/platform/circuit_breaker.py:172-191 | closes and forgets everything |
| TokenBuckets.TokenBucketLimiter.Consume | services/ingestor/rate_limiting_advanced.py:103-130 | refills to at most capacity, grants exactly when the level suffices, and touches one key |
| TokenBuckets.GrantedInInterval | services/ingestor/rate_limiting_advanced.py:103-130 | in any interval of any history a key is granted at most capacity plus the refill of that time |
| TokenBuckets.TokenBucketLimiter.SecondsUntilToken | services/ingestor/rate_limiting_advanced.py:132-157 | computes the wait until one token is there, without writing |
| TokenBuckets.WaitIsExact | services/ingestor/rate_limiting_advanced.py:132-157 | a lone retry succeeds exactly after at least the advertised seconds |
| TokenBuckets.RedisBuckets.Eval | services/ingestor/rate_limiting_token_bucket.py:21-41 | grants exactly when the refilled level, a clock gone back refilling nothing, holds a token, and stores what is left; the stored hash and expiry |
| TokenBuckets.TtlMeaning | services/ingestor/rate_limiting_token_bucket.py:79-82 | the expiry is the least whole number of seconds, at least one, in which an empty bucket would fill twice |
| TokenBuckets.ExpiryIsInvisible | services/ingestor/rate_limiting_token_bucket.py:79-96 | dropping expired keys changes no answer |
| TokenBuckets.ScriptIsLocal | services/ingestor/rate_limiting_token_bucket.py:21-41 | the script and the in-memory limiter decide and count alike |
| TokenBuckets.RetryAfterIsLeast | services/ingestor/rate_limiting_token_bucket.py:34-37 | the advertised delay is the least whole number of seconds after which a lone retry succeeds |
| Windows.NewRetryBudget | libs/platform/retry.py:44-53 | exactly a positive limit and window are accepted |
| Windows.RetryBudget.TokensUsed | libs/platform/retry.py:75-81 | prunes and counts what is left |
| Windows.RetryBudget.ConsumeRetry | libs/platform/retry.py:64-73 | prunes by age, then grants exactly below the limit |
| Windows.SlidingWindowLimiter.IsAllowed | services/ingestor/rate_limiting_advanced.py:206-229 | evicts by cutoff, then grants exactly below the limit, for one key |
| Windows.SlidingWindowLimiter.ResetIn | services/ingestor/rate_limiting_advanced.py:231-253 | the time until the oldest grant is a window old, without writing |
| Windows.DequeIsRecentGrants | libs/platform/retry.py:60-73 | the deque is exactly the suffix of all grants of age at most the window |
| Windows.GrantIff | services/ingestor/rate_limiting_advanced.py:206-229 | granted exactly when fewer than the limit lie in the closed window |
| Windows.NeverMoreThanLimit | services/ingestor/rate_limiting_advanced.py:206-229 | no closed interval of window length ever holds more than the limit |
| Windows.EqualAnswers | libs/platform/retry.py:60-81 | budget and limiter answer alike on every timed sequence, with or without reads of the use in between |
| Windows.RetryNeedsMoreThanReset | services/ingestor/rate_limiting_advanced.py:231-253 | after a denial a lone retry succeeds exactly after strictly more than the advertised time |
| WorkerPool.BackgroundWorkerPool.SubmitBatchIngest | services/ingestor/core/background_workers.py:110-134 | refuses when stopped or full; else tracks, trims and queues a new task |
| WorkerPool.BackgroundWorkerPool.TrimStatusHistory | services/ingestor/core/background_workers.py:239-243 | keeps exactly the newest tasks, up to the limit |
| WorkerPool.BackgroundWorkerPool.TakeTask | services/ingestor/core/background_workers.py:161-174 | takes the head of the queue, and dies exactly when its status is gone |
| WorkerPool.BackgroundWorkerPool.StartWorkers | services/ingestor/core/background_workers.py:77-94 | starts every worker once |
| WorkerPool.BackgroundWorkerPool.StopWorkers | services/ingestor/core/background_workers.py:96-108 | cancels exactly the tasks that run and keeps what is queued |
| WorkerPool.BackgroundWorkerPool.ConcludeTask | services/ingestor/core/background_workers.py:180-226 | marks the worker's task succeeded or failed, no other, and frees the worker |
| WorkerPool.QueueIsSuffixOfOrder | services/ingestor/core/background_workers.py:110-134 | with a bounded queue no longer than the history, the queue is a suffix of the tracked order |
| WorkerPool.TakesTrimmedIff | services/ingestor/core/background_workers.py:161-174 | a take fails exactly when the queue is longer than the history |
| WorkerPool.CanLoseATaskIff | services/ingestor/core/background_workers.py:51-71 | some run loses a task exactly for the configurations whose queue can outgrow the history |
| WorkerPool.EachTaskInOnePlace | services/ingestor/core/background_workers.py:110-226 | otherwise every submitted task is queued, running on exactly one worker, or finished |
| WorkerPool.StatusesMoveForward | services/ingestor/core/background_workers.py:172-213 | statuses only move from queued to running to a terminal one |
| JobQueue.BoostsNeverRevert | services/ingestor/jobs/queue.py:105-110 | a command has its own priority until its deadline is within the boost, and 1 from then on for good |
| JobQueue.UrgencyGrowsIff | services/ingestor/jobs/queue.py:105-110 | time never lowers urgency exactly for priorities not above critical |
| JobQueue.PriorityJobQueue.Enqueue | services/ingestor/jobs/queue.py:112-124 | adds the command under the next number with its priority now |
| JobQueue.PriorityJobQueue.Dequeue | services/ingestor/jobs/queue.py:131-143 | rebalances, then takes the least command and leaves all others |
| JobQueue.DequeueTakesLeast | services/ingestor/jobs/queue.py:131-143 | least in effective priority now, then in enqueue order, among all held |
| JobQueue.EachCommandOnce | services/ingestor/jobs/queue.py:112-143 | every enqueued command is held or was dequeued, exactly once and unchanged |
| JobQueue.OvertakesIff | services/ingestor/jobs/queue.py:105-110 | a later like command becomes the more urgent exactly when the boost of their deadline begins between their two readings |
| JobQueue.RebalanceSwapsIff | services/ingestor/jobs/queue.py:138-143 | in a rebalanced heap of any size, a later like command stands before an earlier one exactly when it overtakes it |
| JobQueue.FirstInFirstOutIff | services/ingestor/jobs/queue.py:112-143 | like commands leave in enqueue order across any number of rebalances exactly when at no dequeue the least entry had overtaken a like one |
| JobQueue.FirstInFirstOut | services/ingestor/jobs/queue.py:112-143 | so they do whenever no rebalance straddles the start of a boost |
| JobQueue.StraddledDeadlineOvertakes | services/ingestor/jobs/queue.py:138-143 | a run in which they do not |
| JobQueue.PriorityJobQueue.Drain | services/ingestor/jobs/queue.py:145-179 | runs each held command once and ends empty, or stops at the first that raises with the rest still held |

## Left out

- PostgreSQL, SQLAlchemy, Kafka, Redis and HTTP themselves, with JSON encoding and hashing.
- ORM staleness inside one session beyond the snapshot a claim returns.
- Direct dispatch outside broker mode (`dispatch_incident_transitions`), the publication of drift events to subscribers
  and the start of an agent run: calls that follow a commit and change none of the modelled tables.
- Summary, guidance and details texts of incidents, and snapshot notes and schema versions: carried, never read.
- NotificationRepository.OutboxRetryDelay: the ValueError below one attempt is a precondition here, shown to hold at its only call.
- NotificationOrigins.NotificationsKeepTheirDistance: the code reads the clock twice in one step, so the distance is the cooldown less what lies between the two readings; with one reading it is the cooldown.
- IncidentLifecycle.ActiveIffHistorySaysSo: a threshold of at least one, which the source schema demands.
- Incidents.IncidentRepository.ReconcileHealthIncidents: among samples of equal sampled_at the last inserted counts as the newest; the query leaves their order open.
- Bulkhead.AsyncBulkhead.Enter: cancellation of a waiting or running caller is not modelled.
- Bulkhead.EverybodyIsServed: no order of service is claimed, because a woken caller that loses its slot to a new arrival parks behind the others.
- Resilience.CallWithBreaker: what other calls do to the shared breaker between two attempts is any decision of the breaker.
- TokenBuckets.RedisBuckets.Eval: Redis truncates the level in its reply to a whole number; the stored level is exact here.
- TokenBuckets.GrantedInInterval: requests for a negative number of tokens are not considered; no caller makes one.
- Windows.DequeIsRecentGrants: a negative window is not considered; the retry budget refuses one, and no limiter is built with one.
- WorkerPool.BackgroundWorkerPool.TakeTask: status objects are a table rather than heap objects, so a change a worker makes after the history dropped its task reaches no caller, as in the code.
- WorkerPool: the time a failure callback takes, and a start during a pending stop.
- JobQueue.PriorityJobQueue.Enqueue: the heap is kept as its ascending entries; only its head is observable.
- LruCache.LruObservationCache.Get: a cached None is indistinguishable from a miss for the caller, as in the code.
- Redis helpers and the layers above the LRU, the dashboard, the agent, authentication, reporting, migrations, the
  idempotency tracker and the Bloom filter: I/O, wiring or easy members.
