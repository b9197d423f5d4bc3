# Verified models of the SMS relay's service layer

This project models the protocols that the relay's service layer depends on, and proves what each
of them keeps over every run.

* **Outbound SMS.** Detached senders, recovery workers, lease heartbeats, user deletions and
  retention work on one table of outbound messages. `OutboundStore` is the table, with one atomic
  function and one method per transaction. `OutboundProtocol` is the system: every await of the
  source is a point where any other task may run, a store call may be lost before or after it took
  effect, a task may crash, and clocks and answers of the modem are free. `OutboundSafety` proves
  the laws of all runs, `OutboundAnswers` says what each answer of the modem makes of a message, what
  a lease protects and how an undisturbed message ends, `OutboundService` serves the same steps by calls on the table that is
  updated in place, which gives that table the laws, and `OutboundResend` is a run that reaches the
  bounds.
* **Forwarding queue.** `DeliveryStore` is the table of deliveries with leased batch claims,
  completions guarded by a token and pruned attempt samples; `DeliveryLeases` its laws over whole
  runs; `AttemptSamples` relates the pruned samples to the full history; `RetryPolicy` is the
  decision about one row, the jittered backoff and the life of one delivery; `DeliveryBatch`,
  `DeliveryWorkers` and `BatchLeases` are the rolling batch with bounded concurrency and its
  schedule; `DeliveryWakeups` is the worker's sleep.
* **Modem identity.** `ModemIdentity` is what is stored and remembered about identities and what one
  step may do to it, `ModemChoice` the choice of the modem to read from and of the one to act on,
  `IdentityResolution` makes that choice and watches the chosen modems, and `IdentityRuns` lifts both
  to runs with restarts.
* **Derived tables.** `ConversationSummaries` sets the triggers against the aggregate query, and
  `DedupeBackfill` the backfill loop against a pointwise description.
* **Limiters, templates, signals.** `LoginLimiter`, `AuthSessions` and `InboundSubscriptions`;
  `WebhookTokens` is one turn of the template renderer, `WebhookTemplate` the whole renderer,
  `WebhookVariables` a reader that knows the names of the variables instead of the tokens,
  `WebhookUrl` the prefix that a rendered template keeps, and `WebhookOrigin` the scheme and
  authority of a rendered URL.

Times are integers. A stored time that `julianday` cannot read is `None` or `Malformed`. Database
tables are maps by row id; ids grow with every insertion. Random identifiers (owners, lease tokens)
are fresh, digests are replaced by the values they stand for, and what a modem, a provider or a
failing database does is left open, either as an argument over which every law is quantified or as
a nondeterministic choice.

Four properties turned out to hold only under a condition, which is stated exactly:

* the insertion trigger gives the aggregate's summary if and only if the latest message of the
  number so far has a readable time (`ConversationSummaries.InsertTriggerExactly`); the program
  always writes a readable creation time;
* the lease of a claimed batch outlasts the batch, whatever the tasks do, if and only if the worst
  case is over before it: four task times with one slot, five with more
  (`BatchLeases.LeasesSufficeExactly`). With a task time equal to the request timeout and two slots
  or more this is a timeout below 90 s, and at 90 s the last row can end in the very second in which
  its lease runs out; one slot is safe with every timeout;
* an action target that shows another identity is revoked and quarantined in that step if and only
  if the enrolled fingerprint can be read (`IdentityResolution.RevokedExactly`, the contract of
  `ObserveRuntimeIdentity`); `RevocationCanBeMissed` is a step in which that read fails;
* a rendered URL has the template's scheme and authority for every message if and only if the
  template passes the validation, no variable starts before the authority, and "://" occurs in the
  template or cannot be brought into it: all variables are URL-encoded and empty values leave no
  "://" (`WebhookOrigin.OriginIsFixedExactly`). `WebhookOrigin.ValidatedButNotFixed` is
  `https:/{MESSAGE}/x`, which the validation passes and whose host the message names. Scheme and
  authority are those of the text, by the rule that the validation uses itself.

## Model

| member | source | states |
|---|---|---|
| OutboundStore.OutboundTable.CreateOrGetOutbound | src/storage/messages.rs:52-116 | A new key, or no key, inserts a row in phase Created owned by the caller; a known key conflicts, replays its message, or reports that the message is gone |
| OutboundStore.FirstDue | src/storage/messages.rs:126-143 | The claimed row is the lowest one that is sending, recoverable, past its retry time and free of a live lease; None only if there is no such row |
| OutboundStore.FirstEvent | src/storage/messages.rs:277-291 | The claimed event belongs to the lowest ended row whose event is pending and whose lease is free |
| OutboundStore.OutboundTable.ClaimDueOutbound | src/storage/messages.rs:118-168 | A claim gives the row to the new owner with a fresh lease and clears its retry time; nothing else changes |
| OutboundStore.OutboundTable.ClaimPendingOutboundEvent | src/storage/messages.rs:269-313 | Like a due claim, over ended rows whose event was not acknowledged |
| OutboundStore.OutboundTable.TransitionOutbound | src/storage/messages.rs:367-397 | Applied if and only if the row is sending, owned by the caller and in the expected phase; otherwise the row is reported unchanged, or missing |
| OutboundStore.OutboundTable.SetOutboundPrepared | src/storage/messages.rs:170-187 | Created to Prepared with the modem object's path |
| OutboundStore.OutboundTable.BeginOutboundSend | src/storage/messages.rs:189-205 | Prepared to SendStarted, keeping the path |
| OutboundStore.OutboundTable.DeferOutbound | src/storage/messages.rs:207-239 | The owner releases the row into the given phase with a retry time or none |
| OutboundStore.OutboundTable.FinishClaimedOutbound | src/storage/messages.rs:241-267 | The owner ends the row; phase Complete means that its event is still to be sent |
| OutboundStore.OutboundTable.AcknowledgeOutboundEvent | src/storage/messages.rs:315-327 | The event of an ended row is taken off by the row's owner only |
| OutboundStore.OutboundTable.RenewOutboundLease | src/storage/messages.rs:329-341 | The lease of a sending row is extended for its owner only |
| OutboundStore.OutboundTable.DeleteMessages | src/storage/messages.rs:560-580 | The batch is refused by its first message that is missing or that something could still act on; otherwise every row goes and its key is detached |
| OutboundStore.DeletedExactly | src/storage/messages.rs:560-580 | All or nothing: it succeeds if and only if every message is there and deletable, then exactly these rows are gone and exactly their keys are detached; a refusal changes nothing |
| OutboundStore.OutboundTable.RetireMessage | src/storage/retention.rs:42-48 | Retention deletes an ended message together with its key |
| OutboundStore.OutboundTable.PruneOutboundIdempotency | src/storage/retention.rs:8-18 | Exactly the old keys without a message are forgotten |
| OutboundStore.RetentionExactly | src/storage/retention.rs:8-48 | An ended message goes with its own key and no other; a key is forgotten exactly if its message is gone and it is older than the cutoff |
| OutboundSafety.StepKeeps | src/messaging.rs:113-613 | Every step of every task, and every fault, keeps the invariant and undoes no recorded end |
| OutboundSafety.AtMostOneSend | src/messaging.rs:188-256 | In every reachable state at most one D-Bus Send was issued for a message |
| OutboundSafety.CallsAreHandedBack | src/messaging.rs:213-256 | Another send call needs a call that reached no modem and was put back to Prepared by the still-current owner; after a Send nobody can start one |
| OutboundSafety.SendsTheRecordedObject | src/messaging.rs:174-211 | A task that is about to send holds the very modem object recorded in the row |
| OutboundSafety.TruthfulStatus | src/messaging.rs:213-331 | Sent means accepted or seen sent with matching number and text; Failed means never issued or explicitly rejected, also when a superseded owner reports late |
| OutboundSafety.AcknowledgedWasPublished | src/messaging.rs:333-354 | An ended row whose event was acknowledged has been announced with that status |
| OutboundSafety.OneMessagePerKey | src/storage/messages.rs:61-114 | Two stored messages never share an idempotency key, through deletion, retention and pruning |
| OutboundSafety.ReplayIsTheSameMessage | src/storage/messages.rs:73-82 | A replay answers with the message that the key created, with the same request |
| OutboundSafety.UnfinishedBecomesDue | src/storage/messages.rs:126-143 | Every unfinished message that was not given up becomes claimable when its lease and retry time are over |
| OutboundSafety.EndIsFinal | src/storage/messages.rs:241-267 | A recorded end is the same at every later point of the run |
| OutboundSafety.FailedIsNeverSent | src/messaging.rs:417-452 | A failure that no modem reported is never followed by a Send |
| OutboundAnswers.SnapshotAnswered | src/messaging.rs:417-585 | For the owner that inspects the row: a missing or different object gives the message up for good, one that was sent ends it as Sent, a stored one of a prepared message begins the Send, and any other is asked again after 5 s as Uncertain |
| OutboundAnswers.UnreadableAnswered | src/messaging.rs:505-516 | An object that cannot be read leaves a prepared message Prepared and any other Uncertain, with a retry after 5 s |
| OutboundAnswers.SendAnswered | src/messaging.rs:213-256 | An accepted Send ends as Sent, a refused one as Failed, and one without an answer is left Uncertain with a retry after 5 s |
| OutboundAnswers.FailedCallAnswered | src/messaging.rs:234-243 | A call that reached no modem puts the message back to Prepared with a retry after 5 s |
| OutboundAnswers.PreparationAnswered | src/messaging.rs:146-211 | A prepared message is recorded with its object and then begun under a fresh lease; one that could not be prepared ends as Failed |
| OutboundAnswers.ClaimAnswered | src/messaging.rs:422-552 | The first due row is claimed: without an object it ends as Failed if it was never begun and is given up if it was; with one the object is looked at |
| OutboundAnswers.PendingEndIsAnnounced | src/messaging.rs:377-388 | An end that nobody acknowledged is announced by the worker that claims it, and then acknowledged |
| OutboundAnswers.EndIsRepeated | src/messaging.rs:289-331 | A write of the end that fails is repeated four times at most |
| OutboundAnswers.EndIsFound | src/messaging.rs:305-318 | A write that took effect although it seemed to fail is found done and announced |
| OutboundAnswers.LateDeferralAnnounces | src/messaging.rs:356-374 | A deferral of a message that has ended changes nothing and announces the end |
| OutboundAnswers.LeaseProtects | src/storage/messages.rs:118-168 | Until its lease is over no step but the owner's own store calls changes a row that is being sent |
| OutboundAnswers.ReleasedComesBack | src/storage/messages.rs:126-143 | A released message is due again exactly from its retry time on, and one that was given up never |
| OutboundAnswers.HeartbeatRenews | src/messaging.rs:258-287 | While a task waits for the modem its heartbeat renews the lease to 90 s |
| OutboundAnswers.KeyAnswersForItsMessage | src/storage/messages.rs:61-82 | At every point of every run, a key whose message is there answers the same request with it and refuses another, and creates nothing |
| OutboundAnswers.UndisturbedIsSent | src/messaging.rs:113-354 | A new message that nobody disturbs is sent and ends as the modem answers, announced and acknowledged, or uncertain and released |
| OutboundService.Serve | src/messaging.rs:113-613 | Every step, carried out by one call on the table in place and the answer it gives, is the step of the protocol whose effect OutboundAnswers states for every answer |
| OutboundService.ServeAll | src/messaging.rs:113-613 | After any sequence of steps with any faults the rows of the table are true of the modem: at most one Send each, Sent and Failed as in TruthfulStatus, and keys name rows with their request |
| OutboundResend.ResendHappens | src/messaging.rs:234-243 | For every message a run with two send calls, one hand-back and one Send that ends as Sent: the bounds are reached |
| AttemptSamples.KeptIsTop | src/storage/attempts.rs:104-115 | After any recorded attempts the table holds exactly the five newest of every profile |
| AttemptSamples.PrunedIsOlder | src/storage/attempts.rs:104-115 | A pruned sample completed earlier than every kept one of its profile, or at the same time with a lower id |
| AttemptSamples.ListingIsHistory | src/storage/attempts.rs:46-63 | Listing up to five samples of the pruned table lists the unpruned history |
| DeliveryStore.DeliveryTable.RecoverExpiredLeases | src/storage/deliveries.rs:167-176 | Exactly the rows with an expired lease go to retry_wait, due now |
| DeliveryStore.RecoveredExactly | src/storage/deliveries.rs:167-176 | The recovered row field by field: waiting for a retry, due now, without lease and token, all else as it was |
| DeliveryStore.DeliveryTable.PickDue | src/storage/deliveries.rs:82-94 | The first rows that are due, in order of due time and id with unreadable times first, as many as the limit allows |
| DeliveryStore.BatchGoesFirst | src/storage/deliveries.rs:82-94 | A due row outside a batch comes after all rows in it: unreadable due times first, then earlier ones, then lower ids |
| DeliveryStore.DeliveryTable.ClaimDueDeliveries | src/storage/deliveries.rs:62-115 | One transaction: recovery, then exactly the picked rows are leased under the new token and returned by id |
| DeliveryStore.DeliveryTable.NextDeliveryDueAt | src/storage/deliveries.rs:117-131 | The earliest readable due time of a waiting row; None only if no waiting row has one |
| DeliveryStore.DeliveryTable.CompleteDelivery | src/storage/deliveries.rs:133-160 | Applied if and only if the row is in flight under the handle's token |
| DeliveryStore.CompletedExactly | src/persistence/delivery.rs:140-150 | A held row completed with a success is Succeeded, with a permanent failure PermanentFailed, with a retry it waits and can be claimed exactly from the given time; no other row changes, and without the lease none does |
| DeliveryStore.DeliveryTable.CompleteDeliveryWithAttempt | src/storage/attempts.rs:65-101 | The sample is recorded and the profile pruned whether or not the completion still applies |
| DeliveryStore.DeliveryTable.PruneForwardAttempts | src/storage/attempts.rs:104-115 | Exactly the samples of the profile from rank five on are deleted |
| DeliveryStore.DeliveryTable.ListForwardAttempts | src/storage/attempts.rs:46-63 | The newest samples of the profile in descending order, up to the limit |
| DeliveryLeases.AppliedAtMostOnce | src/storage/deliveries.rs:133-160 | Over all runs a claim of a row is completed at most once |
| DeliveryLeases.SupersededTokenIsInert | src/storage/deliveries.rs:133-176 | A token that lost its row never changes it again, at any later point of the run |
| DeliveryLeases.LeaseIsExclusive | src/storage/deliveries.rs:96-103 | Two handles that hold the same row are the same handle |
| DeliveryLeases.TerminalRowsAreFrozen | src/storage/attempts.rs:84-98 | Succeeded and failed rows stay as they are until they are deleted |
| DeliveryLeases.EndsAsCompleted | src/persistence/delivery.rs:140-150 | Over all runs a row is Succeeded exactly if a success was applied to it, and PermanentFailed exactly if a permanent failure was |
| DeliveryLeases.LeaseProtects | src/storage/deliveries.rs:62-115 | From its claim until its lease is over a row stays with its claimer, whatever others claim, complete or recover, unless the claimer completes it or it is deleted |
| DeliveryLeases.LeaseEnds | src/storage/deliveries.rs:167-176 | A recovery takes a held row back exactly if its lease is over |
| DeliveryLeases.ClaimTellsTheRow | src/storage/deliveries.rs:104-115 | What a claim returns are the stored fields, with a handle that holds the row |
| DeliveryLeases.InFlightMeansHeld | src/storage/deliveries.rs:74-103 | A row is in flight exactly when it has a lease, and exactly when it has a token |
| DeliveryLeases.AttemptCountIsAppliedCompletions | src/persistence/delivery.rs:130-204 | The attempt count of a row is the number of completions applied to it |
| RetryPolicy.BaseDelayTable | src/delivery/worker.rs:550-554 | The base delays of all attempts: 30 s doubling up to 3600 s |
| RetryPolicy.RetryDelayBounds | src/delivery/worker.rs:547-568 | The jittered delay lies within a quarter of the base delay and the one-hour cap, both ends are reached, and it is at least 23 s |
| RetryPolicy.RetryDelayExactly | src/delivery/worker.rs:556-568 | The delay is the lower end plus the remainder of the sample by the size of the range, capped at one hour |
| RetryPolicy.ProcessDelivery | src/delivery/worker.rs:336-462 | Outcome by outcome: a delivered row is Succeeded, a refused, overdue, unreadable or orphaned one PermanentFailed, a transient failure waits for its delay while it is young and has failed when it is not; the provider is called exactly for readable young rows with a message; a lost lease or a fault leaves the row alone; every answer of the provider is recorded |
| RetryPolicy.LeastWaitIsTheSum | src/delivery/worker.rs:547-568 | The closed form of the least waiting time is the sum of the shortest delays |
| RetryPolicy.AtMost38Dispatches | src/delivery/worker.rs:341-458 | If every completion applies and clocks do not go back, a delivery is dispatched at most 38 times |
| RetryPolicy.ThirtyEightDispatchesHappen | src/delivery/worker.rs:341-458 | A life with 38 dispatches exists |
| DeliveryBatch.Conservation | src/delivery/worker.rs:218-303 | At every point of a batch: claimed rows are the spawned ones followed by the buffered ones, each task is running or was joined once, no more run than there are slots, and the error is the first failure of a claim or a joined task |
| DeliveryBatch.NothingIsLeft | src/delivery/worker.rs:235-262 | With empty buffer and task set, every claimed row was spawned and joined |
| DeliveryBatch.BatchIsPunctual | src/delivery/worker.rs:218-263 | Every claimed row starts within four task times of its claim and ends within five; within three and four if no task ran at the claim, and always with one slot |
| BatchLeases.FourTaskTimesHappen | src/delivery/worker.rs:218-263 | With one slot a batch can reach a point at which the last row of a claim ended after exactly four task times |
| BatchLeases.FiveTaskTimesHappen | src/delivery/worker.rs:218-263 | With any two slots or more a batch can reach a point at which the last row of a claim ended after exactly five task times |
| BatchLeases.LeasesSufficeExactly | src/delivery/worker.rs:270-289 | For every number of slots: no row can outlive its lease if and only if four task times with one slot, five with more, are shorter than 90 s plus four timeouts |
| DeliveryWorkers.DeliveryWorker.ClaimDeliveryBatch | src/delivery/worker.rs:270-289 | Claims into the empty buffer only, never after a failure, what the store hands out next |
| DeliveryWorkers.DeliveryWorker.FillDeliverySlots | src/delivery/worker.rs:291-313 | Rows are spawned in order until the slots or the rows run out |
| DeliveryWorkers.DeliveryWorker.ProcessDeliveryBatch | src/delivery/worker.rs:218-268 | Ends with everything it claimed spawned and joined, even after an error; the answer is the number of rows or the first error; success means that the last claim was empty; it terminates |
| DeliveryWorkers.DeliveryWorker.DrainDueDeliveries | src/delivery/worker.rs:202-216 | The same over batches, until one claims nothing or fails |
| DeliveryWakeups.NextDeliveryDelay | src/delivery/worker.rs:315-320 | The time until the earliest readable due time of a waiting row, zero if that is past, none if there is none |
| DeliveryWakeups.SleepIsSound | src/delivery/worker.rs:125-183 | While the worker sleeps after an empty claim, the only claimable rows are those whose insertion was not announced yet |
| DeliveryWakeups.EmptyClaimMeansNothingDue | src/storage/deliveries.rs:62-115 | An empty claim with a positive limit leaves no due row |
| DeliveryWakeups.ExpiredLeaseWaitsOneScan | src/delivery/worker.rs:176-181 | Over any history of the queue, a row whose lease runs out during the sleep is due at the wake-up, at most 30 s later, unless it was deleted |
| ModemIdentity.InboundService.ExtractIdentity | src/inbound.rs:563 | A reading is logged and changes nothing else |
| ModemIdentity.InboundService.EnsureNamespace | src/storage/metadata.rs:41-53 | The namespace is written only if there is none, and only without changing a defined effective namespace unless another identity was read |
| ModemIdentity.InboundService.MigrateLegacyFingerprint | src/storage/metadata.rs:60-85 | The legacy fingerprint becomes the namespace and is forgotten in one transaction; the effective namespace stays |
| ModemIdentity.InboundService.PersistIdentityMismatch | src/inbound.rs:391-403 | The path is quarantined even if the write fails |
| ModemIdentity.InboundService.RetryPendingIdentityMismatches | src/inbound.rs:405-413 | Success empties the pending mismatches without losing or adding a quarantine |
| ModemIdentity.InboundService.ClearIdentityMismatch | src/inbound.rs:415-425 | The store is cleared before the memory, so that a failure leaves the quarantine standing |
| IdentityResolution.ReadEnrolled | src/inbound.rs:548-559 | The enrolled fingerprint, none if it is the legacy one; the effective namespace stays |
| ModemChoice.MatchCandidates | src/inbound.rs:619-623 | The first candidate with the identity, and whether there are two |
| ModemChoice.ChoiceIsJustified | src/inbound.rs:611-713 | A modem is read from only if it is recognised or the only one, and acted on only if it is the enrolled one, or the configured one while nothing contradicts it |
| ModemChoice.ChoiceExactly | src/inbound.rs:611-713 | Both directions: messages are read from the only modem with the enrolled identity, else from the only one with the identity read from before, else from the only one there is; actions go to the first, else to the configured modem while it is unsuspected |
| IdentityResolution.EnrolConfigured | src/inbound.rs:574-600 | The configured modem is verified after its quarantine is cleared and its identity is the enrolled one |
| IdentityResolution.ResolveFromCandidates | src/inbound.rs:602-713 | The targets are the choice over what was listed, the action target is safe, and it fails exactly if a store call does |
| IdentityResolution.ResolveMonitorPath | src/inbound.rs:542-713 | It fails exactly if a store call does. Otherwise: if the configured modem shows the enrolled identity or the first one ever, it serves both roles; else runtime and action target are exactly those that the readings call for; an enrolment is never replaced, a quarantine is set exactly by another identity of the configured modem and taken away exactly by the enrolled one, and whatever is read from has a namespace |
| IdentityResolution.CheckAction | src/inbound.rs:285-306 | An action target with another identity is revoked and quarantined exactly if the fingerprint could be read; the first identity ever is enrolled unless a store call fails |
| IdentityResolution.ObserveRuntimeIdentity | src/inbound.rs:279-349 | At every exit the action target is revoked and quarantined exactly if it showed another identity and the read of the fingerprint did not fail. A step fails exactly if a store call does; otherwise both modems were read, the first identity ever is enrolled, and that of a modem that is only read from is remembered |
| IdentityResolution.RevocationCanBeMissed | src/inbound.rs:285-306 | A step whose fingerprint read fails leaves a target published and unquarantined that has just shown another identity |
| IdentityRuns.Monitor | src/inbound.rs:149-220 | Every turn of the loop does to the targets what its restart, lost subscription, answers and faults call for, and every published action target is free of quarantine and justified by readings since the targets were resolved |
| IdentityRuns.RecognisedIsPublished | src/inbound.rs:574-600 | An ordinary start: a configured modem that shows the enrolled identity, or the first one ever, is read from and acted on after the turn, if the store does not fail |
| IdentityRuns.VerifiedStaysVerified | src/inbound.rs:279-349 | A verified modem stays published over any watching turns, whatever store calls fail, as long as it shows no other identity |
| IdentityRuns.ActionRestsOnARecentSighting | src/inbound.rs:149-220 | A published action target was read as enrolled, or is the configured path that could not be read, in the step that resolved it or a later one, never by an earlier process |
| IdentityRuns.QuarantineLasts | src/inbound.rs:391-425 | A quarantine lasts over failures, lost identities and restarts until its path is read as the enrolled modem |
| IdentityRuns.NamespaceIsWriteOnce | src/storage/metadata.rs:41-53 | The dedicated namespace never changes, and a runtime fingerprint never stands without it |
| IdentityRuns.EffectiveChangesAtMostOnce | src/storage/metadata.rs:121-140 | The effective namespace, once defined, changes at most once in a run, in a step that read an identity other than the enrolled one |
| ConversationSummaries.SummariesAreDetermined | src/storage/migrations.rs:176-194 | There is only one table of accurate summaries for a set of messages |
| ConversationSummaries.SummaryMeans | src/storage/migrations.rs:176-194 | An accurate summary counts the messages of its number and its unread inbound ones, and its last message is no older than any other by its own time, or by its creation if it has none |
| ConversationSummaries.InsertTriggerExactly | src/storage/mod.rs:411-441 | After an insertion the trigger's row is the aggregate's row if and only if the number had no message or its latest has a readable time |
| ConversationSummaries.MessageTable.InsertMessage | src/storage/messages.rs:731-752 | Summaries stay accurate |
| ConversationSummaries.MessageTable.SetReadAt | src/storage/mod.rs:442-451 | Summaries stay accurate when a message is marked read or unread |
| ConversationSummaries.MessageTable.MarkConversationRead | src/storage/messages.rs:494-502 | Exactly the unread inbound messages of the number change, as many as the summary counted |
| ConversationSummaries.MessageTable.DeleteRow | src/storage/migrations.rs:75-100 | Summaries stay accurate, and the pin goes with the last message |
| ConversationSummaries.MessageTable.DeleteMessages | src/storage/messages.rs:560-580 | All or nothing: refused exactly if a message is missing or blocked |
| ConversationSummaries.MessageTable.DeleteConversation | src/storage/messages.rs:582-618 | Refused exactly if there is no message or one is blocked; otherwise messages, summary and pin are gone |
| ConversationSummaries.MessageTable.SetConversationPinned | src/storage/messages.rs:532-558 | Only a number with messages can be pinned |
| ConversationSummaries.MessageTable.PickExpendable | src/storage/retention.rs:26-42 | Only old, finished messages without active deliveries, and all of them if the batch is not full |
| ConversationSummaries.MessageTable.RunRetention | src/storage/retention.rs:21-58 | One batch of old, finished messages without active deliveries is deleted, all of them if the batch is not full, and summaries and pins stay right |
| ConversationSummaries.MessageTable.BackfillSummaries | src/storage/migrations.rs:167-198 | Rows that are there stay, every other number gets the aggregate's row, and the table is right afterwards if those rows were, in particular from an empty table |
| DedupeBackfill.MessageTable.BackfillDedupeKeys | src/storage/metadata.rs:88-119 | Every absent key goes to the lowest unkeyed modem message with that content, nothing else changes, and the answer counts the changed rows |
| DedupeBackfill.UnkeyedAreDuplicates | src/storage/metadata.rs:105-117 | A message is left without a key only if another one holds it |
| DedupeBackfill.GivenKeysAreRight | src/storage/metadata.rs:88-119 | A changed row is a modem message that had no key and now has that of the namespace and its content |
| DedupeBackfill.KeysStayUnique | src/storage/migrations.rs:117-122 | The backfill keeps the keys unique |
| DedupeBackfill.BackfillIsIdempotent | src/storage/metadata.rs:88-119 | A second backfill under the same namespace changes nothing |
| DedupeBackfill.MessageTable.InsertInboundMessageWithDeliveries | src/storage/messages.rs:684-717 | A held key is answered with its message and nothing is inserted; otherwise the message and one delivery per profile are |
| LoginLimiter.SessionStore.Authenticate | src/api/auth.rs:105-143 | The failure table and the answer after one attempt |
| LoginLimiter.EntrySteps | src/api/auth.rs:108-142 | An attempt changes the entry of its own peer by the rules and at most sweeps the entries of the others |
| LoginLimiter.AtMostEightRejections | src/api/auth.rs:105-143 | Between two of its successes a peer is rejected at most eight times in any half-open interval of one window, over any mix of peers |
| LoginLimiter.EightRejectionsHappen | src/api/auth.rs:105-143 | Eight rejections in such an interval exist |
| LoginLimiter.CountIsRejections | src/api/auth.rs:127-141 | The stored count is the number of the peer's rejections since its window was opened |
| LoginLimiter.LockedOut | src/api/auth.rs:112-118 | From the fifth counted rejection of a window on, for a whole window, every attempt of the peer is rate limited, even with the right password |
| LoginLimiter.RateLimitedExactly | src/api/auth.rs:112-142 | An attempt is rate limited if and only if it comes within one window of the fifth counted rejection of a window of its own peer |
| LoginLimiter.LetInExactly | src/api/auth.rs:112-142 | Over all runs: an attempt is authenticated if and only if the password is right and the peer is not locked out, rejected if and only if it is wrong and the peer is not locked out |
| LoginLimiter.SuccessForgets | src/api/auth.rs:121-124 | After a success the peer has no entry and its count starts again |
| LoginLimiter.PeersAreIndependent | src/api/auth.rs:105-143 | What a peer is told depends only on its own attempts |
| AuthSessions.AuthSessionTable.EvictSoonest | src/storage/auth_sessions.rs:62-75 | Exactly the sessions that expire first, older ones first, as many as asked for |
| AuthSessions.AuthSessionTable.CreateAuthSession | src/storage/auth_sessions.rs:48-83 | Expired sessions go, room is made, the session is added; a duplicate token rolls everything back |
| AuthSessions.AuthSessionTable.AuthSessionIsValid | src/storage/auth_sessions.rs:85-101 | True exactly if an unexpired session has the token and the proof |
| AuthSessions.AtMost256Sessions | src/storage/auth_sessions.rs:62-75 | The table never holds more than 256 sessions |
| AuthSessions.EvictedExactly | src/storage/auth_sessions.rs:62-75 | An unexpired session is evicted exactly if 255 unexpired ones come after it in the order of expiry and row id |
| AuthSessions.SessionOutlivesOthers | src/api/auth.rs:74-103 | Whatever the clocks and crossing logins do, a session stays until logout, expiry, password change or a login that finds 255 sessions that outlast it |
| AuthSessions.SessionSurvives | src/api/auth.rs:74-103 | With logins that do not cross, that takes the 256th later creation |
| AuthSessions.HeldIsValid | src/storage/auth_sessions.rs:85-101 | A session in the table is valid until it expires |
| AuthSessions.AcceptedWasLoggedIn | src/storage/auth_sessions.rs:85-101 | A token with its proof is accepted only if a login less than seven days before created it and neither its logout nor a change of the password came since |
| AuthSessions.EventsTakeEffect | src/api/auth.rs:74-103 | A login is accepted until its seven days are over, a logout ends its own session only, a change of the password ends all |
| AuthSessions.TokensAreUnique | src/storage/auth_sessions.rs:48-83 | No two sessions share a token, and a login with a token that is taken changes nothing |
| AuthSessions.LoginSweeps | src/storage/auth_sessions.rs:48-83 | A login removes exactly the expired sessions and the evicted ones |
| WebhookTokens.TokensFormATable | src/forward/webhook.rs:15-25 | The nine tokens are braced names that can be told apart |
| WebhookTokens.AtMostOneFits | src/forward/webhook.rs:15-25 | At most one token fits at any place, so that the order of the table does not matter |
| WebhookTokens.FindFirst | src/forward/webhook.rs:214-215 | The first listed token that fits is the only one, in whatever order they are listed |
| WebhookTemplate.RenderTemplate | src/forward/webhook.rs:209-259 | The one-pass renderer equals splitting and then substituting: values are inserted and never scanned |
| WebhookTemplate.ValidateTemplate | src/forward/webhook.rs:197-207 | A template that passes is rendered for every message, and one that fails for none |
| WebhookTemplate.AcceptedExactly | src/forward/webhook.rs:235-254 | A template is accepted exactly if no brace starts a name, closed or not, that is no token |
| WebhookTemplate.SegmentsSpellTheTemplate | src/forward/webhook.rs:209-259 | The segments spell the template |
| WebhookTemplate.OccurrencesAreSegments | src/forward/webhook.rs:213-231 | Every occurrence of a token becomes a segment of its own at its place |
| WebhookVariables.RenderWithTokens | src/forward/webhook.rs:209-259 | The renderer with its nine tokens reads names in braces: each stands for its value in its encoding, an unknown or unclosed name is refused by that name, and everything else is copied |
| WebhookVariables.RenderingIsReading | src/forward/webhook.rs:209-259 | For every template the token-matching renderer and the name reader agree, values and errors alike |
| WebhookVariables.VariableBetween | src/forward/webhook.rs:217-231 | A variable between two texts is replaced by what its name means |
| WebhookUrl.ValidateStaticUrlAuthority | src/forward/webhook.rs:124-136 | Passes exactly if no token starts in the authority |
| WebhookUrl.StaticExactly | src/forward/webhook.rs:209-259 | A prefix of the output is the same for every message exactly if no token starts in it |
| WebhookUrl.AuthorityOfParts | src/forward/webhook.rs:124-130 | The authority of a scheme, "://", an authority without delimiters and a rest that starts with one is that authority |
| WebhookOrigin.OriginIsFixedExactly | src/forward/webhook.rs:124-136 | Scheme and authority of the output are the template's for every message exactly if the validation passes, no token precedes the authority, and "://" is in the template or can never get into the output |
| WebhookOrigin.NeverASchemeExactly | src/forward/webhook.rs:209-259 | No message can bring "://" into the output exactly if every variable is URL-encoded and empty values do not |
| WebhookOrigin.AuthorityIsTheTemplates | src/forward/webhook.rs:124-136 | With "://" in the template, the validation and no token before the authority keep the authority for every message |
| WebhookOrigin.ValidatedButNotFixed | src/forward/webhook.rs:124-136 | For https:/{MESSAGE}/x, which passes the validation, messages of a slash and a character name that character as the host |
| InboundSubscriptions.InboundSubscription.Next | src/dbus/inbound.rs:149-194 | The answer of one call, the readings it takes and whether the subscription is closed |
| InboundSubscriptions.InboundSubscription.TakeInitialSms | src/dbus/inbound.rs:145-147 | The snapshot is handed out once |
| InboundSubscriptions.NextIsComing | src/dbus/inbound.rs:149-194 | One call gives the first of the coming answers and leaves the rest |
| InboundSubscriptions.CallsRefineTheStream | src/dbus/inbound.rs:149-194 | Call after call gives our messages and the read errors before the closing signal, in order, then the same reason for ever without reading |
| InboundSubscriptions.HeardExactly | src/dbus/inbound.rs:159-174 | What is heard are exactly the received Added signals of the bound owner on the monitored path, and the read errors |
| InboundSubscriptions.HeardInOrder | src/dbus/inbound.rs:149-194 | It is heard in the order of the stream |
| InboundSubscriptions.ClosedExactly | src/dbus/inbound.rs:175-194 | The subscription closes at the first change of the service's owner or removal of the modem, with that reason, or at the end of the stream |

## Left out

- The senders and workers of src/messaging.rs are one step relation instead of methods with loops: every await is a place where the other tasks run, so the five attempts to write an end are a counter in the task's state; the delays between them are free because clocks are.
- Error texts, update times and the contents of events are not modelled; an outbound event is the pair of message and status.
- Outbound rows written by older releases and given a guessed phase by the migration, and inbound rows, are not in the outbound table.
- A retention batch deletes its outbound messages one by one in the protocol, which allows more interleavings than the single transaction of the source.
- OutboundSafety.AtMostOneSend: counts the Sends this program issues; what the modem does after an unanswered Send is not modelled.
- ConversationSummaries.MessageTable.RunRetention: the idempotency keys deleted in the same transaction are not in this table; OutboundStore.OutboundTable.RetireMessage and PruneOutboundIdempotency delete them.
- OutboundService.Serve: the answers of the modem are arguments of the step; only the calls on the store are carried out.
- `julianday` is taken to be exact; the rounding of its floating-point days and the texts that it reads but RFC 3339 does not allow are not modelled.
- Attempt samples are ordered by the text of their completion time, as the query does; that this text order is the order of time is not claimed.
- Latency, dispatch delay and error codes of attempt samples, and which HTTP status is transient, are not modelled.
- DeliveryBatch.BatchIsPunctual: the worker's own loop and its claims take no time; only tasks do, each at most a given time.
- RetryPolicy.AtMost38Dispatches: assumes, as the property does, that every completion applies; a delivery whose lease is lost is claimed again without being counted.
- The growing pauses of the delivery worker after an error, and the saturating arithmetic of batch size and lease, which the configured 1 to 16 slots never reach.
- DeliveryWakeups.SleepIsSound: one worker claims and completes; the clock is read when the sleep starts.
- IdentityRuns.Monitor: between steps. While a resolution runs, the targets of the step before stay published, also if it has just stored a mismatch for one of them; watching revokes first.
- IdentityResolution.ReadEnrolled: the second read of the fingerprint after a migration that found another value is an assertion that it cannot be reached, since only the monitor writes fingerprints.
- A restart is modelled only while no mismatch is pending; the memory that holds a pending one does not survive it.
- Empty values in the meta table, which the namespace query skips; no fingerprint or identifier is empty.
- The trigger on changed message times, which no statement of the program fires.
- DedupeBackfill.MessageTable.InsertInboundMessageWithDeliveries: the caller has removed duplicate profiles, as the source's caller does; two equal ones would violate the table's unique constraint.
- LoginLimiter.SessionStore.Authenticate: the second check of the window after the sweep is an assertion, since no entry that survives the sweep can fail it.
- Row ids of sessions may be used again by the database after the newest row is deleted; only their order matters here, so they always grow.
- Hashing of passwords and tokens, cookies, client address parsing and credential files.
- WebhookOrigin.OriginIsFixedExactly: scheme and authority are read off the text; how a URL parser reads unusual texts, for example the empty authority of `https:///{MESSAGE}/x`, is not modelled.
- The size limits and header rules of a webhook profile, URL parsing and the HTTP request.
- Reading message properties over D-Bus, match rules and the initial listing; the subscription starts with what they gave.
- The modem's health, reset and data commands, the provider senders other than the webhook renderer, configuration, export, command line, self-update and the web interface.
